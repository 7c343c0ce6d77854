# Boat-info collector, modelled in Dafny

The boat-info collector is a small Node.js command line program. It reads a list of boat types, either from a column of an
Excel worksheet or from a comma-separated `--list` that it first lays out as a new workbook. For each boat type in turn it
asks a chat-completions service for a description, pausing between requests. It then writes all the descriptions back into a
target column of the worksheet, appending that column when the header row does not have it.

This project models the two source files that do the work, `utils.js` and `index.js`, and proves properties of the model:

- `wrappers.dfy` (module `Wrappers`): the `Option` and `Result` types.
- `js_string.dfy` (module `JsString`): the JavaScript string operations the program relies on.
  - `String.prototype.trim`, over the full ECMAScript white space and line terminator set.
  - `split` on one character, and its inverse `join`.
  - `replace` with a string pattern: only the first occurrence, and `$$`, `$&`, `` $` `` and `$'` in the replacement are
    expanded.
- `workbook.dfy` (module `Workbook`): the part of the ExcelJS library the program uses.
  - A cell value, with JavaScript truthiness and `toString`.
  - A worksheet as a value: a `Grid` of 1-based positions, with its row and column counts.
  - A `Worksheet` class whose cells are updated in place.
  - A workbook file as a list of named worksheets.
  - A `Disk` class holding the files by path.
- `utils.dfy` (module `Utils`): the four functions of `utils.js`.
  - `fetchBoatInfo`: building the prompt, and falling back to an error text when the request fails.
  - `readBoatTypes`: the header lookup and the row scan.
  - `updateExcelWithInfo`: finding or appending the target column, then writing the cells.
  - `createExcelWithBoatTypes`: the layout of the new worksheet.
- `cli.dfy` (module `Cli`): `main` in `index.js`.
  - Checking the API key and the options.
  - Parsing `--list` and numbering its rows.
  - The request loop, with its pauses, recorded as a trace of events.
  - The single update at the end.
  - The exit status of every path.

Each method is proved against a function that specifies it:

| method | specification |
|---|---|
| `Worksheet.SetValue` | `Grid.Set` |
| `FindHeader` | `HeaderColumn` |
| `CollectColumn` | `ScanColumn` |
| `ReadBoatTypes` | `ReadSpec` |
| `WriteInfo` | `WithInfo` |
| `UpdateExcelWithInfo` | `UpdateSpec` |
| `NewBoatTypesSheet` | `Layout` |
| `CreateExcelWithBoatTypes` | `Layout` |
| `Enrich` | `Enriched` and `Schedule` |
| `CreateMode` | `Layout` and `Numbered` |
| `Process` | `Finish` |
| `Program` | `ProgramSpec` |

The lemmas then state what the source promises about those functions.

The external services are parameters of the model.

- **Description service.** This is a function `api(i, prompt)`, where `i` is the request's position in the loop. It returns
  the first choice's text, or `None` when the request fails for any reason.
- **Environment variables.** These are an `Env` value: `PERPLEXITY_API_KEY` and `QUERY_TEMPLATE`.
- **File system.** This is the `Disk` object's map from path to stored content. A stored file is either a workbook the library
  can read or something it cannot read.

## Model

| member | source | states |
|---|---|---|
| JsString.Trim | utils.js:83 | `trim`: drops the leading and then the trailing white space; its properties are `JsString.TrimIsCore`, `JsString.TrimEmptyIffAllSpace` and `JsString.TrimIdempotent` |
| JsString.ReplaceFirst | utils.js:17 | `replace` with a string pattern: the first occurrence only, with the `$` patterns of the replacement expanded; its properties are `JsString.ReplaceFirstAbsent`, `JsString.ReplaceFirstLiteral` and `JsString.ExpandLiteral` |
| JsString.TrimIsCore | utils.js:83 | `trim` returns the slice left after removing the white space at both ends; everything removed is white space and the result neither starts nor ends with white space |
| JsString.TrimEmptyIffAllSpace | utils.js:83 | a string trims to empty exactly when all its characters are white space |
| JsString.TrimIdempotent | index.js:87 | trimming twice is trimming once |
| JsString.Split | index.js:87 | `split(',')` gives one more piece than there are commas, and no piece contains a comma |
| JsString.JoinSplit | index.js:87 | joining the pieces of a split with the separator gives back the string |
| JsString.SplitJoin | index.js:87 | splitting a join of separator-free pieces gives back the pieces |
| JsString.IndexOfFrom | utils.js:17 | the position found is an occurrence of the pattern and no earlier position from the start is one; none is found only when there is no occurrence |
| JsString.ExpandLiteral | utils.js:17 | a replacement string without `$` is inserted as it is |
| JsString.ReplaceFirstAbsent | utils.js:17 | `replace` with a string pattern changes nothing when the pattern does not occur, for every replacement |
| JsString.ReplaceFirstLiteral | utils.js:17 | `replace` with a string pattern and a `$`-free replacement splices the replacement in place of the first occurrence only |
| Workbook.Truthy | utils.js:82 | JavaScript truthiness of a cell value: empty, `""`, `0` and `false` are falsy, every object is truthy |
| Workbook.ToString | utils.js:83 | `toString()` of a non-null cell value: strings as they are, integers in decimal with a leading `-` when negative, booleans as `true`/`false`, objects as their text |
| Workbook.Grid.Set | utils.js:129 | writing a cell adds its position to the occupied ones and grows the row and column counts to cover it |
| Workbook.SetFrame | utils.js:129 | writing a cell changes that cell and no other |
| Workbook.SetValid | utils.js:124 | writing a cell keeps every occupied position within the counts |
| Workbook.TruthyInside | utils.js:79-82 | a truthy cell lies within the counted rows and columns, so the row walk reaches it |
| Workbook.Worksheet.SetValue | utils.js:129 | assigning a cell's value in place changes the worksheet exactly as writing that cell does, and keeps it well formed |
| Workbook.FindSheet | utils.js:59-62 | `getWorksheet(name)` finds the first worksheet with that name, and finds none only when no worksheet has it |
| Utils.Template | utils.js:13-14 | the template is never empty: an unset or empty `QUERY_TEMPLATE` selects the built-in sentence, as JavaScript's logical or does, and any other value is used as it is |
| Utils.Query | utils.js:17 | the prompt is the template with only its first `{BOAT_TYPE}` replaced by the boat type, with JavaScript's `$` patterns in the replacement; its properties are `Utils.DefaultQuery` and `Utils.ReplaceFirstSplice` |
| Utils.FetchBoatInfo | utils.js:10-45 | the description is the service's text for the prompt, or the fallback text when the service fails; its properties are `Utils.FetchBoatInfoOutcome` |
| Utils.FetchBoatInfoOutcome | utils.js:10-45 | the description is the service's answer to the prompt, or `Error: Could not fetch information for <boat type>` when the request fails; no failure reaches the caller, and the result depends only on the answer to that one prompt |
| Utils.DefaultQuery | utils.js:13-17 | with no `QUERY_TEMPLATE`, the prompt is the fixed sentence with the boat type in place of `{BOAT_TYPE}` (for a boat type without `$`) |
| Utils.ReplaceFirstSplice | utils.js:17 | a `$`-free replacement lands where the placeholder first occurs, when nothing before it could start the placeholder |
| Utils.LastMatchSpec | utils.js:65-70 | the header scan of columns 1..n keeps the last column whose header is exactly the name, or none when no header is |
| Utils.HeaderColumnSpec | utils.js:65-74 | the column found lies within the counted columns, its header is the name and no later header is; nothing is found exactly when no header cell is the name, so column 0 never results |
| Utils.FindHeader | utils.js:65-70 | the `eachCell` loop over row 1 computes the header lookup |
| Utils.LastMatchSameHeader | utils.js:114-119 | two worksheets with the same header row give the same lookup result |
| Utils.ScanRowsEntries | utils.js:79-86 | every entry of the row walk is for a data row up to the bound and carries the trimmed text of a truthy cell |
| Utils.ScanRowsSorted | utils.js:79-86 | the entries come in strictly ascending row order |
| Utils.ScanRowsListed | utils.js:79-86 | a row has an entry exactly when it is a data row up to the bound whose cell is truthy |
| Utils.ScanColumnSpec | utils.js:76-88 | the rows read: one entry per data row (row 2 onwards) whose cell is truthy, in ascending order, each carrying the cell's trimmed text |
| Utils.WhiteSpaceCellYieldsEmpty | utils.js:81-83 | a cell holding only white space is truthy, so it is read as an empty boat type |
| Utils.CollectColumn | utils.js:79-86 | the `eachRow` loop collects exactly the entries of the row scan |
| Utils.ReadSpecFailures | utils.js:59-74 | reading fails with "Sheet … not found" exactly when no worksheet has the name, and with "Column … not found" exactly when the worksheet exists but no header is the column name |
| Utils.ReadRowsAreDataRows | utils.js:78-86 | every entry read is for row 2 or later |
| Utils.ReadBoatTypes | utils.js:54-93 | `readBoatTypes` returns the rows, or throws the error, that the read specification gives |
| Utils.LastWriteSpec | utils.js:128-130 | the description left in a row is the one from the last entry for that row; no entry for the row leaves it untouched |
| Utils.WriteAllCells | utils.js:128-130 | after the write loop, each written cell holds the last description for its row and every other cell is unchanged |
| Utils.WriteAllShape | utils.js:128-130 | the write loop occupies exactly the written positions in addition to the old ones, and grows the counts to the largest row and the target column |
| Utils.WriteAllValid | utils.js:128-130 | the write loop keeps every occupied position within the counts |
| Utils.WriteAllTwice | utils.js:128-130 | running the write loop twice with the same entries is the same as running it once |
| Utils.WithInfoValid | utils.js:113-130 | the update keeps every occupied position within the counts |
| Utils.WithInfoCells | utils.js:113-130 | after the update, the target column holds the last description for each row an entry names, an appended column's header is the target name, and every other cell is unchanged |
| Utils.AppendedColumn | utils.js:121-125 | when no header matches, the column goes to `columnCount + 1` with the target name as header, the existing columns keep their cells, and a later lookup finds the new column |
| Utils.FoundAfterUpdate | utils.js:114-125 | after an update without entries for the header row, the target name is found at the column that was written |
| Utils.WithInfoIdempotent | utils.js:113-130 | updating twice with the same entries gives the same worksheet as updating once, provided no entry is for the header row |
| Utils.WriteInfo | utils.js:113-130 | the find-or-append and the write loop on the worksheet in memory produce the update's specified worksheet |
| Utils.UpdateSpecFrame | utils.js:103-139 | a successful update changes only the named file, which keeps its worksheets, their names and order, and changes no worksheet of another name |
| Utils.UpdateAfterRead | utils.js:108-111 | once a worksheet has been read, updating the same file and worksheet cannot fail |
| Utils.UpdateExcelWithInfo | utils.js:103-139 | the file is rewritten with the updated worksheet, or the error is returned and the files are left as they were |
| Utils.LayoutValid | utils.js:149-161 | the new worksheet keeps its cells within two columns and n + 1 rows |
| Utils.LayoutCells | utils.js:149-161 | the new worksheet has the headers `Boat Type` and `Information` in row 1, boat type i and an empty description in row i + 2, and nothing else |
| Utils.NewBoatTypesSheet | utils.js:149-161 | the worksheet built in memory is the layout, named `Boat Types` |
| Utils.CreateExcelWithBoatTypes | utils.js:147-170 | the output path now holds a workbook with that single worksheet, and no other file changes |
| Cli.ParseList | index.js:87 | the list gives one boat type more than it has commas |
| Cli.ParseListItems | index.js:87 | every parsed boat type is trimmed and contains no comma; empty ones are kept |
| Cli.ParseListJoin | index.js:87 | parsing a comma-joined list of trimmed, comma-free boat types gives them back |
| Cli.LayoutHeaders | utils.js:153-156 | in the new worksheet, `Boat Type` is found in column 1 and `Information` in column 2 |
| Cli.ScanLayout | index.js:93-96 | scanning the boat type column of the new worksheet gives boat type i at row i + 2, when no boat type is empty |
| Cli.CreatedSheetReadsBack | index.js:93-96 | the rows create mode numbers (i + 2 for boat type i) are exactly what a scan of the created workbook reads, when no boat type is empty |
| Cli.StepsShape | index.js:123-137 | after k iterations of the loop, requests and pauses alternate, with no pause after the last request of the whole loop |
| Cli.ScheduleShape | index.js:123-137 | the loop sends n requests in list order with n − 1 pauses of `delay` ms between them, none before the first or after the last |
| Cli.Enrich | index.js:121-137 | the loop collects the fetched description for each boat type in order, and performs the request and pause sequence of the schedule |
| Cli.Numbered | index.js:93-96 | boat type i of the list becomes the entry for row i + 2, in list order; its properties are `Cli.ScanLayout` and `Cli.NumberedLastWrite` |
| Cli.Finish | index.js:119-141 | after the steps before it, the run fetches a description for every entry in order with the pauses of the schedule, then makes one update of the file and worksheet: an error it raises ends the run with status 1 and the files unchanged, success completes the run with the update appended to the trace |
| Cli.CreateMode | index.js:80-100 | create mode writes the new workbook to the output path and numbers boat type i with row i + 2 |
| Cli.Process | index.js:119-141 | the loop is followed by one update of the given file and worksheet; the run completes exactly when that update succeeds |
| Cli.Program | index.js:69-144 | every exit of the program, with its status, the files afterwards and the requests and pauses made, is the one the run specification gives |
| Cli.ProgramSpec | index.js:69-151 | the whole run: the API key check, create mode or scan mode with their exits, the request loop and the one final update, with exit status 1 for every early exit and every raised error; its properties are `Cli.EarlyExits`, `Cli.ScanModeOutcome` and `Cli.CreateModeOutcome` |
| Cli.EarlyExits | index.js:69-117 | a missing API key, a missing list in create mode, a missing or absent file in scan mode, and a failed read all exit with status 1, change no file and send no request |
| Cli.ScanModeOutcome | index.js:101-141 | in scan mode the run completes exactly when the read succeeds; the update then cannot fail, it is the only change to the files, and the trace is the loop followed by one write |
| Cli.NumberedLastWrite | index.js:93-96 | with row i + 2 for entry i, the last write to row i + 2 is entry i's |
| Cli.CreatedHeaderRow | index.js:80-141 | in create mode with the default target, the update leaves the header row as laid out |
| Cli.CreatedRow | index.js:80-141 | in create mode with the default target, row i + 2 keeps boat type i and receives description i in column 2 |
| Cli.CreatedRows | index.js:80-141 | in create mode with the default target, every row i + 2 keeps boat type i and receives description i in column 2 |
| Cli.UpdateCreated | index.js:98-100 | for any target column, the update of the fresh workbook replaces its only worksheet and cannot fail |
| Cli.CreateModeOutcome | index.js:80-141 | create mode always completes, for every target column. The output file holds the single updated `Boat Types` worksheet, no other file changes, and the trace is: the write of the new workbook, the loop, the final update |

## Left out

- The HTTP request to the chat-completions service. It is the parameter `api`: its answer, or `None` for any failure. This
  covers a network error, an error status and a response without `choices[0].message`, all of which throw inside
  `fetchBoatInfo` and give the fallback text.
- A response whose `choices[0].message` has no `content` is not modelled. There `fetchBoatInfo` returns `undefined` without
  throwing, and the update leaves that row's cell empty instead of writing the fallback text. A `content` that is not a string
  is not modelled either.
- Reading and parsing `.xlsx` files. A stored workbook is taken to be what the library reads back.
  - Write failures are not modelled: a full disk, or an output path in a missing directory.
  - A file that exists but is not a workbook is `Unreadable`.
  - A path that names a directory is not modelled.
- Column widths and keys set by `worksheet.columns` (utils.js:153-156). Only the header cells are modelled.
- Console output, the `yargs` parsing of the command line, and `dotenv`. The options arrive already parsed, as an `Args` value,
  with the program's defaults (index.js:23-62) already filled in by the caller.
- Timers: a pause is an event in the trace with its length, and no time passes. The delay is an `int`: a fractional or `NaN`
  `--delay` is not modelled, and a negative one is recorded as given.
- Asynchrony and concurrency: every `await` is modelled as completing before the next step.
- Numbers in cells are integers. Fractions and the JavaScript number-to-text rules for them are not modelled.
- Workbook.ToString: writes every decimal digit of an integer. JavaScript writes a number of magnitude 10^21 or more in
  exponent form (`1e+21`), and a cell number beyond 2^53 is not an exact integer there, so the text the row scan reads for
  such cells is not modelled. Other cell objects
  (rich text, dates, formulas, hyperlinks) keep only the text their `toString()` gives.
- The library's case-insensitive check on worksheet names when a worksheet is added. The program only ever adds one worksheet to
  an empty workbook.
- Utils.DefaultQuery: stated only for boat types without `$`. `Query` itself models `replace` exactly, including the expansion
  of `$` patterns in the boat type.
- Cli.CreatedRows, Cli.CreatedRow and Cli.CreatedHeaderRow: the cell contents are stated for the default target column,
  `Information`. For other targets, completion, files and trace are `Cli.CreateModeOutcome`, and the cells are given by the
  general update lemmas `Utils.AppendedColumn` and `Utils.WithInfoCells`.
- Cli.CreatedSheetReadsBack: stated for lists without empty boat types. A scan skips empty cells, so `a,,b` numbers a row that
  a scan would not read.
