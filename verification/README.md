# PromegaParser in Dafny

A model of the line classifier and section splitter for Promega GloMax Multi+
export files. The repository has two versions of it:

- `PromegaParser.py` is the later version. It takes several input files and writes each one's tables into its own directory.
- `parse_promega_csv.py` is the earlier, single-file version.

Both scripts read the export one line at a time and test each line against a
fixed chain of prefixes: `Protocol`, `Step`, `,Read`, `Results`, `Notes`, a
bare newline, a leading comma, `PlateResults`, and anything else. Each line
then does one of five things:

- opens an output file;
- sets the name of the next table;
- appends a repaired data row to the current output;
- closes the current output;
- is dropped.

The model has these parts:

- `PyStr` (pystr.dfy): the Python `str` operations the scripts rely on, each with its Python meaning. `startswith`, `in`, `lstrip`, `rstrip`, `strip`, `replace` (non-overlapping, leftmost first), `split` on one character, `join` and `str(n)`.
- `FileModel` (files.dfy): the file system as a map from path to content. `f_out` is `Unbound`, `Open(path)` or `Closed(path)`. It also holds the two exceptions the loop can raise: `NameError` for a variable read before any branch bound it, and `ValueError` for a write to a closed file (`WriteToClosed`).
- `Lines` (lines.dfy): the pure part both scripts share. It holds the classification, the comma repair, the table label, the Step base name and both collision-suffix rules.
- `Splitter` (splitter.dfy): the `main` loop of PromegaParser.py. Three functions specify it:
  - `Next` gives the outcome and the new variables after one line.
  - `RunLines` folds `Next` over one input file's lines and stops at the first line that raises.
  - `RunFiles` folds `RunLines` over the input files.

  The class `RunState` holds the loop's variables (`f_out`, `f_filename`, `prot_filename`, `count`, `filename_list`, `outdir`) and the disk as fields. Its methods handle one line (`ProcessLine`), one input file (`ProcessFile`) and all input files (`ProcessFiles`). Each is proved to end with exactly the outcome and the state that its function gives.
- `LegacySplitter` (legacy.dfy): the module-level loop of parse_promega_csv.py, built the same way. `LegacyNext` and `LegacyRunLines` specify it, and the class `LegacyRun` implements it.
- `Scenarios` (scenarios.dfy): short runs on a fresh directory, stated for any lines of the right kinds.

Opening a path for writing sets its content to `""`. A write appends to the
content.

### Behaviour the model keeps from the code

- A `,Read` name is built from the current `f_filename`. Step, `,Read` and Results lines all rebind that variable. So a `,Read` that follows another `,Read` (or a Results line) without a Step in between extends the previous table's full name, `.csv` included. It does not reuse the Step name.
- A Step line's trailing newline is part of the token list. When the line has fewer than four comma- or period-separated tokens, the newline ends up inside the table's file name (`Step 1. Incubation\n` gives `Step1_Incubation\n`).
- Notes, and in the earlier script also Step, reopen the description file in truncating mode and write that line, and the `with` block leaves `f_out` closed. In the model the file then holds only that line; see the buffering line under "Left out" for when CPython can leave more. A data row after it raises `WriteToClosed`.
- Results lines have no collision check and silently truncate an existing file. Only `,Read` lines (and, in the earlier script, Protocol lines) raise the counter.
- Neither script closes `f_out` at the end of an input file. PromegaParser.py also keeps `f_out`, `f_filename` and `prot_filename` from one input file to the next. It resets only `count` and `filename_list` (`BeginFile`). So a file whose first table line comes before any Step can pick up the previous file's name.
- In the earlier script, a Protocol line that finds the description file already there raises the counter. The path stays the same, because `'Protocol_Description.txt'.format(count)` has no placeholder.

## Model

| member | source | states |
|---|---|---|
| `PyStr.StartsWith` | PromegaParser.py:54 | `s.startswith(prefix)`: `prefix` is the first `|prefix|` characters of `s` |
| `PyStr.Contains` | PromegaParser.py:110 | `sub in s`; its meaning is stated by `PyStr.ContainsIffOccurs` |
| `PyStr.ContainsIffOccurs` | PromegaParser.py:110 | `sub in s`, scanned from the left, holds exactly when `sub` occurs at some index of `s` |
| `PyStr.LStrip` | PromegaParser.py:67 | `lstrip` never lengthens the string |
| `PyStr.LStripSpec` | PromegaParser.py:67 | `lstrip(c)` leaves a suffix not led by `c`, and every character it removed was `c` |
| `PyStr.RStrip` | PromegaParser.py:67 | `rstrip` never lengthens the string |
| `PyStr.RStripSpec` | PromegaParser.py:67 | `rstrip(c)` leaves a prefix not ended by `c`, and every character it removed was `c` |
| `PyStr.Strip` | PromegaParser.py:67 | `strip` never lengthens the string |
| `PyStr.StripSpec` | PromegaParser.py:67 | after `strip('\n')` neither end is a newline; a string with no newline at either end is unchanged |
| `PyStr.Replace` | PromegaParser.py:109 | `replace` keeps the length when the replacement is as long as the pattern; it never grows with a shorter one, and strictly shrinks when the string starts with the pattern |
| `PyStr.ReplaceWithoutMatch` | PromegaParser.py:109 | a string with no occurrence of the pattern comes back unchanged |
| `PyStr.ReplaceCharAt` | PromegaParser.py:113 | replacing one character by another changes exactly the positions that held it |
| `PyStr.ReplaceCharRemoves` | PromegaParser.py:113 | after `replace(':', ',')` no `:` is left |
| `PyStr.ReplaceDeletes` | PromegaParser.py:63 | `replace(' ', '')` removes every space and keeps every other character, with its count |
| `PyStr.ReplaceCharSingle` | PromegaParser.py:63 | `replace(a, rep)` on one character gives `rep` when it is `a` and the character otherwise |
| `PyStr.ReplaceCharConcat` | PromegaParser.py:63 | `replace(a, rep)` of a concatenation is the concatenation of the replaced pieces, so kept characters stay in order |
| `PyStr.ReplaceSkipsPrefix` | PromegaParser.py:63 | a prefix without the pattern's first character passes through `replace` untouched |
| `PyStr.Split` | PromegaParser.py:63 | `split(sep)` gives at least one piece; no piece holds `sep`, and every character of a piece comes from the string |
| `PyStr.SplitSkipsPrefix` | PromegaParser.py:63 | a separator-free prefix stays at the head of the first piece |
| `PyStr.Join` | PromegaParser.py:64 | `sep.join(parts)`; stated by `PyStr.JoinSplit`, `PyStr.JoinAvoids` and `PyStr.JoinStartsWithFirst` |
| `PyStr.JoinSplit` | PromegaParser.py:63-64 | joining the pieces of `split(sep)` with `sep` gives back the string |
| `PyStr.JoinAvoids` | PromegaParser.py:64 | a character in neither the pieces nor the separator is not in the join |
| `PyStr.JoinStartsWithFirst` | PromegaParser.py:64 | a join starts with its first piece |
| `PyStr.NatToString` | PromegaParser.py:76 | `str(count)` is a non-empty run of decimal digits with no leading zero |
| `PyStr.NatToStringRoundTrip` | PromegaParser.py:76 | reading back the digits of `str(n)` gives `n` |
| `PyStr.NatToStringInjective` | PromegaParser.py:74-77 | different counter values print differently |
| `FileModel.JoinPath` | PromegaParser.py:55 | `dir / name` as `dir + "/" + name`; `Scenarios.TableIsNotDescription` states that a table never lands on the description path |
| `Lines.Classify` | PromegaParser.py:54-118 | the `if`/`elif` chain of the loop; stated by `Lines.ClassifyOrderFree` |
| `Lines.ClassifyOrderFree` | PromegaParser.py:54-118 | each kind of line is decided by its own prefix test alone (`,Read` aside), so the two scripts' different test orders classify alike |
| `Lines.RepairCommaLine` | PromegaParser.py:108-113 | the text written for a comma-led line; its three branches are stated by the three `Lines.Repair…` lemmas below |
| `Lines.RepairCollapsesLeadingPair` | PromegaParser.py:108-109 | a line led by `,,` is written strictly shorter and still led by a comma |
| `Lines.RepairCollapsesSinglePair` | PromegaParser.py:108-109 | a line led by `,,` with no other doubled comma after that pair loses just its first comma (`,,A,B` becomes `,A,B`) |
| `Lines.RepairKeepsInnerPair` | PromegaParser.py:110-111 | a line with `,,` somewhere but not at its start is written unchanged |
| `Lines.RepairDropsLeadingComma` | PromegaParser.py:112-113 | any other comma line loses exactly its one leading comma, has every `:` turned into `,` (position by position) and is one character shorter |
| `Lines.Label` | PromegaParser.py:83 | `line.lstrip(',').strip('\n').replace(' ', '_')`; stated by `Lines.LabelShape` |
| `Lines.LabelShape` | PromegaParser.py:67 | a Read or Results label holds no space, has no newline at either end and is no longer than its line |
| `Lines.StepBaseName` | PromegaParser.py:63 | the Step table name; stated by `Lines.StepBaseNameClean` and `Lines.StepBaseNameStartsWithStep` |
| `Lines.StepBaseNameClean` | PromegaParser.py:63 | a Step base name holds no space, period or comma |
| `Lines.StepBaseNameStartsWithStep` | PromegaParser.py:62-64 | the base name of a Step line starts with `Step` |
| `Lines.ReadName` | PromegaParser.py:66-68 | a Read name ends in `.csv`, so its stem and suffix are the name without and with `.csv` |
| `Lines.CollisionName` | PromegaParser.py:75-77 | the suffixed name keeps the stem, puts `_` and the counter before `.csv`, and is longer than the plain name |
| `Lines.CollisionNameInjective` | PromegaParser.py:71-77 | different counter values give different suffixed names |
| `Lines.LegacyCollisionName` | parse_promega_csv.py:76 | the earlier script's suffixed name is the plain name plus `_` and the counter, and no longer ends in `.csv` |
| `Lines.LegacyCollisionNameInjective` | parse_promega_csv.py:72-76 | different counter values give different suffixed names there too |
| `Splitter.Raises` | PromegaParser.py:54-118 | exactly the lines whose branch raises, given the variables they read: `,Read` with `f_filename` unbound, Notes with `prot_filename` unbound, blank with `f_out` unbound, comma with `f_out` unbound or closed. `Splitter.Next` fails exactly on these |
| `Splitter.OutDir` | PromegaParser.py:38 | `outdir`: the output directory joined with the stem, its spaces turned into `_` |
| `Splitter.Begin` | PromegaParser.py:50-51 | a new input file resets `count` and `filename_list` and keeps every other variable |
| `Splitter.Next` | PromegaParser.py:54-118 | one iteration of the loop for each kind of line. Protocol creates the description file and keeps it open. Step sets the pending name. `,Read` extends the pending name, and on a collision bumps the counter and opens the suffixed name. Results truncates `outdir/label.csv`. Notes rewrites the description file and closes it. A blank line closes `f_out`. A comma line appends its repair to the open file. Everything else is dropped. It fails exactly when `Splitter.Raises` holds of the line and the old variables, and then nothing changes. The disk only gains paths, the name list grows by one per Protocol, `,Read` or Results line that ran, and the counter rises by at most one, only on `,Read` |
| `Splitter.RunLines` | PromegaParser.py:52-53 | the loop over one input file: `Next` on every line in turn, ending at the first line that raises; an open handle always names a file on disk |
| `Splitter.RunLinesStops` | PromegaParser.py:52-53 | once a line has raised, later lines change neither the outcome nor the state |
| `Splitter.RunLinesTally` | PromegaParser.py:52-118 | over a whole run the disk only gains paths, the name list only grows and the counter only rises. After a clean run the list has grown by exactly the Protocol, `,Read` and Results lines, and the counter by at most the `,Read` lines |
| `Splitter.RunLinesAt` | PromegaParser.py:52-53 | if the first `done` lines run cleanly and either no lines remain or line `done` raises, the whole run ends in the state those lines left. It fails exactly when lines remain, and then line `done` raises on that state |
| `Splitter.RunLinesOk` | PromegaParser.py:52-118 | a file's run succeeds exactly when no line raises on the state the lines before it left: a raising line makes the run fail, and a run fails only on a raising line |
| `Splitter.RunFiles` | PromegaParser.py:37-53 | the loop over the input files: each file's `RunLines`, under its own `outdir` and starting from `Begin` of what the previous file left, until a line raises |
| `Splitter.RunFilesExtend` | PromegaParser.py:37-53 | after a clean prefix of the files, one more file runs `RunLines` from `Begin` of the state the prefix left |
| `Splitter.RunFilesStops` | PromegaParser.py:37-53 | once a file has raised, later files change neither the outcome nor the state |
| `Splitter.RunFilesTally` | PromegaParser.py:37-53 | the disk only gains paths over all files. After a clean run, the name list has one entry per Protocol, `,Read` and Results line of the last file, and the counter is at most its number of `,Read` lines |
| `Splitter.RunFilesAt` | PromegaParser.py:37-53 | if the first `done` files run cleanly and either no files remain or file `done` raises, the whole run is that of the first `done` or `done + 1` files, and it fails exactly when files remain |
| `Splitter.RunState.constructor` | PromegaParser.py:26 | before the first file nothing is bound; the counter is 0 and the name list is empty |
| `Splitter.RunState.BeginFile` | PromegaParser.py:37-51 | a new input file binds `outdir` to `Splitter.OutDir` of its stem, and the variables become `Splitter.Begin` of the old ones |
| `Splitter.RunState.ProcessLine` | PromegaParser.py:54-118 | the outcome and the new variables are exactly those `Splitter.Next` gives; `outdir` is unchanged |
| `Splitter.RunState.ProcessFile` | PromegaParser.py:50-53 | the outcome and the final variables are exactly those `Splitter.RunLines` gives from `Begin` of the old variables. Line `done` is where the run stopped: the first `done` lines ran cleanly, and when the run failed line `done` raised on the state they left. The name list holds one name per Protocol, `,Read` and Results line that ran, the counter is at most the number of `,Read` lines that ran, and the disk only gains paths |
| `Splitter.RunState.ProcessFiles` | PromegaParser.py:37-53 | the outcome and the final variables are exactly those `Splitter.RunFiles` gives. The run fails exactly when it stops in file `done`, at a line of that file that raises on the final state. After a clean run, `outdir`, the name list and the counter describe the last file, and the disk only gains paths |
| `LegacySplitter.LegacyRaises` | parse_promega_csv.py:54-116 | exactly the lines whose branch raises in the earlier script: Step or Notes with `prot_filename` unbound, blank with `f_out` unbound, comma with `f_out` unbound or closed. `LegacySplitter.LegacyNext` fails exactly on these |
| `LegacySplitter.LegacyNext` | parse_promega_csv.py:54-116 | one iteration of the earlier script's loop. Protocol bumps the counter when the description file already exists and keeps the path. `,Read` names the table by its label alone and suffixes it after `.csv`. Step and Notes both rewrite and close the description file. PlateResults is dropped. It fails exactly when `LegacySplitter.LegacyRaises` holds, and then nothing changes. The disk only gains paths, the name list grows by one per Protocol, `,Read` or Results line that ran, and the counter rises by at most one, only on Protocol or `,Read` |
| `LegacySplitter.LegacyRunLines` | parse_promega_csv.py:52-53 | the loop over the input's lines: `LegacyNext` on every line in turn, ending at the first line that raises |
| `LegacySplitter.LegacyRunLinesStops` | parse_promega_csv.py:52-53 | once a line has raised, later lines change neither the outcome nor the state |
| `LegacySplitter.LegacyRunLinesTally` | parse_promega_csv.py:52-116 | over a whole run the disk only gains paths, the name list only grows and the counter only rises. After a clean run the list has grown by exactly the Protocol, `,Read` and Results lines, and the counter by at most the Protocol and `,Read` lines |
| `LegacySplitter.LegacyRunLinesAt` | parse_promega_csv.py:52-53 | if the first `done` lines run cleanly and either no lines remain or line `done` raises, the whole run ends in the state those lines left. It fails exactly when lines remain, and then line `done` raises on that state |
| `LegacySplitter.LegacyRunLinesOk` | parse_promega_csv.py:52-116 | the run succeeds exactly when no line raises on the state the lines before it left |
| `LegacySplitter.LegacyRun.constructor` | parse_promega_csv.py:50-51 | the loop starts with nothing bound, counter 0 and an empty name list |
| `LegacySplitter.LegacyRun.ProcessLine` | parse_promega_csv.py:54-116 | the outcome and the new variables are exactly those `LegacySplitter.LegacyNext` gives |
| `LegacySplitter.LegacyRun.Run` | parse_promega_csv.py:50-53 | the outcome and the final variables are exactly those `LegacySplitter.LegacyRunLines` gives. Line `done` is where the run stopped: the first `done` lines ran cleanly, and when the run failed line `done` raised on the state they left. The name list grows by exactly the Protocol, `,Read` and Results lines that ran, the counter rises at most once per Protocol or `,Read` line that ran, and the disk only gains paths |
| `Scenarios.TableIsNotDescription` | PromegaParser.py:55 | a `.csv` table path is never the description file's path |
| `Scenarios.DescribedStep` | PromegaParser.py:54-64 | Protocol then Step on a fresh directory: the description file holds the Protocol line and stays open, and the pending name is the Step's base name |
| `Scenarios.OneSection` | PromegaParser.py:54-102 | Protocol, Step, `,Read`, a data row and a blank line on a fresh directory leave two files. The description file holds the Protocol line; the table named from the Step and Read lines holds the repaired row; the handle is closed |
| `Scenarios.OpenTable` | PromegaParser.py:62-80 | Step then `,Read` on a fresh directory: the table named from the two lines is created empty and left open, counter 0, that name in the list |
| `Scenarios.FirstTable` | PromegaParser.py:62-102 | Step, `,Read`, a data row and a blank line on a fresh directory leave one table holding the repaired row, a closed handle, counter 0 and that name in the list |
| `Scenarios.ReadCollision` | PromegaParser.py:62-80 | the same Step and `,Read` twice put the second table under the name with `_1` before `.csv`. The first table keeps its row, both entries of the name list are the plain name, and the counter is 1 |
| `Scenarios.NotesClosesDescription` | PromegaParser.py:89-113 | after Protocol and Notes the description file holds only the Notes line (under the write-through file model), and a following data row fails as a write to a closed file |
| `Scenarios.LegacyFirstTable` | parse_promega_csv.py:68-116 | in the earlier script a `,Read`, a data row and a blank line on a fresh directory leave one table, named by the label, holding the repaired row, and a closed handle |
| `Scenarios.LegacyReadCollision` | parse_promega_csv.py:68-79 | in the earlier script the same `,Read` twice puts the second table under the name with `_1` after `.csv` |

## Left out

- Command-line parsing: `click` in PromegaParser.py:8-16 and 123-124, `argparse` in parse_promega_csv.py:10-27. The model takes the output directory, the input stems and the input lines as parameters.
- Directory creation and its `FileExistsError` handling (PromegaParser.py:26-47, parse_promega_csv.py:30-40). These only create directories, which the path-to-content map does not represent.
- The input-existence check (parse_promega_csv.py:42-46). Reading the input file is also left out: each input is given as its list of lines, each still ending in its newline, as `readlines` returns them.
- Every verbose `print`. This includes the verbose-only read of the unbound `f_filename` at parse_promega_csv.py:62, which can raise only with `--verbose`.
- Buffering, and the moment an abandoned file object is flushed and closed. Writes reach the map at once, and rebinding `f_out` just drops the old handle. This can change final file contents, not only timing. When a path is reopened while an earlier handle on it is still open and unflushed, CPython flushes that earlier handle's text at offset 0 after the truncation. The new handle then writes over it, so the tail of the earlier, longer content can remain. Examples are Protocol followed directly by Notes (PromegaParser.py:59-60, 92-93), a second Protocol line, Protocol followed by Step in parse_promega_csv.py:64-65 and 91-92, and a repeated Results label whose handle is still open. The model, and `Scenarios.NotesClosesDescription`, give only the new content.
- `pathlib` path handling. `dir / name`, `with_name` and `absolute()` are plain string concatenation with `/`. There is no normalisation, and no `ValueError` when a label holds a `/`. Stem and suffix are taken from the `.csv` every Read name ends with. `exists() and is_file()` is membership in the map, because directories are not represented.
- Opening a file never fails in the model. In CPython, a Step name or a Read/Results label holding `/` points into a subdirectory nobody created, and `open` raises `FileNotFoundError`. In PromegaParser.py: for example `Step 2. Fluorescence Ex/Em` followed by a `,Read` fails at line 79 (77 on a collision), and a Results label with `/` fails at line 86. In parse_promega_csv.py, a `,Read` fails at line 78 (76 on a collision) and Results at line 85. `Splitter.Next` and `LegacySplitter.LegacyNext` return `Ok` and create the file instead; `Splitter.Raises` and `LegacySplitter.LegacyRaises` do not list these cases.
- `PyStr.Replace`: for patterns longer than one character only the length laws, the no-match law and the prefix law are stated. For one-character patterns the result is pinned exactly: position by position when the replacement is one character, and by the concatenation and single-character laws for any replacement, the empty one included. These are the patterns the label, the Step name and the `:` repair use.
- `PyStr.Strip`: stated by its ends and by the identity on strings with no newline at either end. That it returns a contiguous piece of its input is stated only for `LStrip` and `RStrip`.
- `Splitter.RunLinesTally`: bounds the counter rather than giving its exact value. The exact value depends on which names already exist on disk, and `Splitter.Next` gives it line by line. `LegacySplitter.LegacyRunLinesTally` does the same.
