# ScriptToolbox utilities, modelled in Dafny

This project models three small command-line utilities of the ScriptToolbox
repository and proves what they promise.

- **Folder cycler** (`helpful_cakes/rename_folder.py`; `helpful_cakes/model/rename_folder_model.py`
  is the same class). A folder `FOLDER` under `WORKING_DIRECTORY` is the
  active version. The inactive version is stored beside it under
  `FOLDER + JOIN + DEFAULT` or `FOLDER + JOIN + ALT`. Each call swaps the two
  with two `os.rename` calls and reports which version is now active. On the
  first run, with neither alias present, it creates an empty alternative and
  promotes it to the base name, so afterwards the old contents sit under the
  default alias and no alternative alias exists.
  The older `script/rename_folder.py` (`check_active`) does the same swap
  under `$HOME`, without the first-run branch.
- **Bulk renamer** (`helpful_cakes/rename_items.py`, identical to `script/rename_items.py`).
  Every file whose name starts with `IMG-` or `VID-` is renamed to the name
  with those prefixes deleted. When that name is taken, it gets the end-dot
  variant of the original name instead, in which the character in front of
  the final lower-case run is replaced by `_.` (`IMG-ab1x` becomes
  `IMG-ab_.x`). Each step is counted and announced.
- **Kubeconfig patcher** (`helpful_cakes/switcher.py`, identical to `script/switcher.py`).
  Its checks make sure the destination exists and has as many lines as the
  origin kubeconfig, overwriting it with the origin's text when it does not.
  It then writes, at every index where the origin has a certificate line,
  that certificate's Windows path under the WSL share. The copying done by
  `get_new_data` runs during the checks, before the origin lines are loaded,
  so it changes nothing: a destination of the right length keeps its other
  lines (`CallPatchesCertificates`). The files are texts read with
  `splitlines`: a destination whose last line is empty loses that line when
  `check_same_data` rewrites it, and the patch step can then raise
  IndexError (`CallTextLosesLastLine`).

Modules:

- `Wrappers`: `Option`.
- `Environment`: `str(os.getenv(name))`, shared by the two tools that read `$HOME`.
- `Text`: the ASCII part of Python's `strip`, `startswith`, `capitalize` and `str(int)`.
- `FileTree`: the directory tree as a `FileSystem` object whose `tree` field
  maps paths to contents. `Rename` is `os.rename` and `Mkdir` is `mkdir(exist_ok=True)`.
- `RenameFolder`, `ScriptRenameFolder`, `RenameItems` and `Switcher`: one
  module per utility.

State-changing code is modelled imperatively, each piece proved against a spec function:

- the two renames of the cyclers;
- the renamer's counter, rename and output loop (class `RenameItems`);
- the in-place line updates of `get_new_data` and `set_wsl_path`, on arrays.

Lemmas about those spec functions carry the properties.

Behaviour the model takes from the code, where it is easy to miss:

- **First run.** The alternative is created empty and then promoted to the
  base name. The old contents end up under the *default* alias, the base is
  a new empty folder, and the alternative alias is gone (`FirstRun`).
- **Default branch message.** When the default alias was stored, the message
  names `DEFAULT` (`Achievement(c.DEFAULT, …)`), as `test_script` expects.
- **Switcher call order.** In `Switcher.__call__` the checks run before the
  origin lines are loaded. So the `get_new_data` call made from
  `check_same_data` sees the empty list set in `__init__`, and changes nothing
  (`NewDataEmptyOrigin`). The checks all return True, so "Failed operation."
  is never returned, and `check_length` reads the origin before the `try`, so
  a missing origin raises there instead of giving "Origin file not found.".
- **Switcher's lost line.** `check_same_data` rewrites a destination that
  differs from the origin as `"\n".join(text.splitlines())`. A final empty
  line does not survive that (`SplitLinesDropsLastEmpty`): "p\n\n" becomes
  "p\n", one line. If the origin's last line is a certificate line,
  `set_wsl_path` then indexes past the end and raises IndexError, leaving the
  shortened file (`CallTextIndexError`).
- **End-dot variant.** `conform_filepath` builds the end-dot variant from the
  original, unstripped name, so the prefix stays in that case (`ConformFilepath`).
  A stripped name of `""`, `.` or `..` makes `Path` name the folder itself or
  its parent. That path exists, so such a file takes the end-dot branch too
  (`ConformFilepathBarePrefix`).
- **`os.rename` failures.** A rename whose source is missing raises
  FileNotFoundError (`NotFound`). The main block of
  `helpful_cakes/rename_folder.py` catches it and logs `error_message`;
  `script/rename_folder.py` does not catch it, so the script stops with the
  exception's traceback. A
  rename onto an existing other path is refused (`Refused`), and a rename
  onto itself succeeds and moves nothing.

## Model

| member | source | states |
|---|---|---|
| FileTree.RenameFailure | helpful_cakes/rename_folder.py:135-136 | `os.rename` fails exactly when the source is missing or the target is another existing path; a missing source is told apart from every other failure |
| FileTree.Moved | helpful_cakes/rename_folder.py:135-136 | after a successful rename the target holds the source's contents, the source is gone, and every other path is unchanged |
| FileTree.Made | helpful_cakes/rename_folder.py:94 | `mkdir(exist_ok=True)` leaves an existing path alone, otherwise adds an empty directory, and touches no other path |
| FileTree.Failed | helpful_cakes/rename_folder.py:224-228 | a missing rename source becomes the "not found" outcome, which helpful_cakes' main block logs and the script lets propagate; no failure is ever taken for success |
| FileTree.Swap | helpful_cakes/rename_folder.py:121-137 | the two renames of `__rename_folder`: success carries the given message, and no path besides the three involved is created, removed or changed |
| FileTree.SwapActive | helpful_cakes/rename_folder.py:135-136 | when both renames go through, the base and the target exist and the source is gone |
| FileTree.FileSystem.Rename | helpful_cakes/rename_folder.py:135 | raises exactly the error RenameFailure names and then leaves the tree alone; otherwise moves the one entry |
| FileTree.FileSystem.Mkdir | helpful_cakes/rename_folder.py:94 | the new tree is Made of the old one |
| FileTree.SwapFolders | script/rename_folder.py:81-97 | the imperative two-rename sequence stops at the first failure and ends in the state and outcome Swap describes |
| RenameFolder.New | helpful_cakes/model/rename_folder_model.py:26-61 | `Constants.new`: folder kept verbatim; path, join, default and alternative take the flag only when it is truthy, else cwd or the setting's own value |
| RenameFolder.NewFromDefaultsNonEmpty | helpful_cakes/rename_folder.py:11-60 | settings built from the defaults have a non-empty join and surnames, falling back to "_", "original" and "alt" |
| RenameFolder.ConformHome | helpful_cakes/rename_folder.py:110-119 | `conform_home(folder)`: the folder under WORKING_DIRECTORY, joined by "/" |
| RenameFolder.Base | helpful_cakes/rename_folder.py:69 | `self.base`: `conform_home(FOLDER)` |
| RenameFolder.ConformPath | helpful_cakes/rename_folder.py:99-108 | `conform_path(surname)`: the base, the join and the surname |
| RenameFolder.PathsDistinct | helpful_cakes/rename_folder.py:66-72 | with a non-empty join neither alias is the base, and the aliases coincide exactly when the surnames do |
| RenameFolder.AliasesExtendBase | helpful_cakes/rename_folder.py:99-119 | each alias is WORKING_DIRECTORY + "/" + FOLDER + JOIN + surname and extends the base path |
| RenameFolder.Achievement | helpful_cakes/rename_folder.py:140-150 | the capitalized surname, a space, the folder and " active!", each at its fixed place |
| RenameFolder.CreateMessage | helpful_cakes/rename_folder.py:96 | "Create new /", the folder, " at " and the working directory, each at its fixed place |
| RenameFolder.ErrorMessage | helpful_cakes/rename_folder.py:152-169 | "Folder not found: " and then a braced block with the configured folder and path, each at its fixed offset; the pieces make up the whole message |
| RenameFolder.Cycle | helpful_cakes/rename_folder.py:74-97 | the specification of one call: the default is tested first, then the alternative, then the base, and only the first test that holds acts; the first run makes the alternative and promotes it; nothing present raises FileNotFoundError |
| RenameFolder.RenameFolder | helpful_cakes/rename_folder.py:74-97 | `rename_folder` on the file system ends in exactly the tree and outcome of the cycle specification |
| RenameFolder.DefaultBranch | helpful_cakes/rename_folder.py:89-90 | base A and default D become base D and alternative A, default gone, announcing the default surname |
| RenameFolder.AltBranch | helpful_cakes/rename_folder.py:91-92 | base A and alternative L become base L and default A, alternative gone, announcing the alternative surname |
| RenameFolder.FirstRun | helpful_cakes/model/rename_folder_model.py:94-97 | with only the base present: base becomes a new empty folder, its old contents move to the default alias, and the "Create new /…" message is returned |
| RenameFolder.NothingFound | helpful_cakes/rename_folder.py:93-97 | with none of the three present, FileNotFoundError and an unchanged tree |
| RenameFolder.DefaultTestedFirst | helpful_cakes/rename_folder.py:89-92 | the default test wins: with both aliases present the default branch runs and its first rename is refused, changing nothing (a refusal that POSIX makes only for a non-empty alternative) |
| RenameFolder.CycleFrame | helpful_cakes/model/rename_folder_model.py:122-138 | whatever the outcome, no path other than base, default and alternative is created, removed or changed |
| RenameFolder.SuccessIsSteady | helpful_cakes/rename_folder.py:74-97 | every successful call ends with the base present and exactly one alias present |
| RenameFolder.SteadyPreserved | helpful_cakes/rename_folder.py:135-136 | from that steady state every call succeeds, keeps the state, and only moves contents: the new base holds the stored alias, the new alias the old base |
| RenameFolder.RoundTrip | helpful_cakes/model/rename_folder_model.py:90-93 | two calls from base plus default restore the tree exactly, announcing default then alternative |
| RenameFolder.Resolve | helpful_cakes/rename_folder.py:89-97 | the state read off the tree is Absent exactly when none of the three folders exists |
| RenameFolder.Transitions | helpful_cakes/model/rename_folder_model.py:90-98 | default-stored goes to alternative-stored and back, the first run goes to default-stored, and the absent state fails |
| RenameFolder.DefaultAchievement | test/test_rename_folder.py:70-72 | for any folder name, the default surname announces "Original {folder} active!" ("Original example_folder active!" in the test) |
| RenameFolder.AltAchievement | test/test_rename_folder.py:75-77 | for any folder name, the alternative surname announces "Alt {folder} active!" ("Alt example_folder active!" in the test) |
| Environment.HomeDirectory | script/rename_folder.py:47-57 | `str(os.getenv(name))`: the variable's value, or "None" when unset |
| ScriptRenameFolder.DefaultPaths | script/rename_folder.py:9-33 | with the shipped settings the aliases are $HOME/.m2_default and $HOME/.m2_Carrefour |
| ScriptRenameFolder.Base | script/rename_folder.py:70-79 | `self.base`: FOLDER under the home directory read from the environment |
| ScriptRenameFolder.ConformPath | script/rename_folder.py:59-68 | `conform_path(surname)`: the base, the join and the surname |
| ScriptRenameFolder.PathsDistinct | script/rename_folder.py:59-79 | with a non-empty join and distinct surnames the three paths differ |
| ScriptRenameFolder.CheckExistence | script/rename_folder.py:35-46 | whether the alias with the given surname exists under $HOME |
| ScriptRenameFolder.CheckActiveStep | script/rename_folder.py:111-119 | the specification of `check_active`: with the default present its branch runs, otherwise the alternative branch runs with no further test |
| ScriptRenameFolder.CheckActive | script/rename_folder.py:111-119 | `check_active` on the file system ends in exactly the tree and outcome of its specification, with no existence test of the base |
| ScriptRenameFolder.DefaultBranch | script/rename_folder.py:117-118 | default present: base to alternative, default to base, message names the default |
| ScriptRenameFolder.AltBranch | script/rename_folder.py:119 | default absent, alternative present: base to default, alternative to base, message names the alternative |
| ScriptRenameFolder.HalfDoneWithoutAliases | script/rename_folder.py:95-96 | with neither alias present the first rename already moved the base to the default slot when the second raises FileNotFoundError; no base is left |
| ScriptRenameFolder.NothingFound | script/rename_folder.py:95 | with neither base nor default present the first rename raises and nothing changes |
| ScriptRenameFolder.RoundTrip | script/rename_folder.py:117-119 | two calls from base plus default restore the tree, the second announcing the alternative |
| ScriptRenameFolder.AgreesWithRenameFolder | script/rename_folder.py:111-119 | on the steady state the old and the new cycler do exactly the same |
| ScriptRenameFolder.DefaultMessage | script/rename_folder.py:99-109 | the shipped settings announce "Default .m2 active!" |
| Text.LeadingSpace | helpful_cakes/switcher.py:265 | the whitespace run `strip` drops in front: all whitespace, and followed by a non-space |
| Text.TrailingSpace | script/switcher.py:265 | the whitespace run `strip` drops at the end: all whitespace, and preceded by a non-space |
| Text.Strip | helpful_cakes/switcher.py:143 | the stripped line is the slice between the leading and trailing whitespace runs, and does not start or end with whitespace |
| Text.StartsWith | helpful_cakes/switcher.py:265 | `s.startswith(p)`: `p` is no longer than `s` and equals its front |
| Text.StripLeadingSpace | test/test_switcher.py:11 | whitespace added in front of a line does not change what `strip` returns |
| Text.Capitalize | helpful_cakes/rename_folder.py:149 | first character upper-cased, every other character lower-cased, length kept |
| Text.LowerAll | helpful_cakes/model/rename_folder_model.py:150 | the lower-casing that `capitalize` applies after the first character: each character mapped to its lower-case form, length kept |
| Text.CapitalizeWord | helpful_cakes/model/rename_folder_model.py:140-150 | a lower-case word is capitalized by upper-casing its first letter alone |
| Text.NatToString | helpful_cakes/rename_items.py:135 | the f-string of a counter is a non-empty digit string without a leading zero |
| Text.DigitsValueOfNatToString | helpful_cakes/rename_items.py:181 | reading the printed digits back gives the number |
| Text.NatToStringInjective | script/rename_items.py:135 | different counters print differently |
| RenameItems.MarkAtIsStartsWithAny | helpful_cakes/rename_items.py:58-61 | the pattern "IMG-\|VID-" matches at the front exactly when the name starts with one of the enum's values, in order ("IMG-", "VID-") |
| RenameItems.MarksDoNotOverlap | helpful_cakes/rename_items.py:139-140 | a match hides no other match in its next three places |
| RenameItems.StripString | helpful_cakes/rename_items.py:137-140 | one left-to-right deletion pass: 4 characters fewer per match, and a name without a match is unchanged |
| RenameItems.Covered | helpful_cakes/rename_items.py:139-140 | a position lies inside a window of four where "IMG-\|VID-" matches |
| RenameItems.Uncovered | helpful_cakes/rename_items.py:139-140 | the characters no match covers, in their order |
| RenameItems.StripStringDeletesMatches | helpful_cakes/rename_items.py:137-140 | the result is exactly the input's characters that no match of the input covers, in order: every match is deleted and nothing else is |
| RenameItems.StripPrefixAlone | helpful_cakes/rename_items.py:12-16 | "IMG-" and "VID-" on their own strip to the empty name |
| RenameItems.StripShortensPrefixed | helpful_cakes/rename_items.py:93 | a name chosen for renaming loses at least its prefix |
| RenameItems.StripExamples | test/test_rename_item.py:19-23 | "VID-44" and "IMG-44" become "44"; "VD-44" and "44" stay |
| RenameItems.StripIsOnePass | script/rename_items.py:137-140 | a match formed by a deletion survives: "IMIMG-G-" becomes "IMG-", which a second pass would empty |
| RenameItems.MatchStart | helpful_cakes/rename_items.py:163 | where "(.)([a-z]+)$" first matches: a match, with none further left, or none at all; `$` also matches before a final newline |
| RenameItems.RunStart | helpful_cakes/rename_items.py:163 | the start of the longest run of lower-case letters ending at a position: the run is all a-z and the character before it is not |
| RenameItems.SubstituteEndDot | helpful_cakes/rename_items.py:161-163 | the matched character becomes "_." and the lower-case run is kept, the rest untouched; unchanged without a match |
| RenameItems.SubstituteEndDotPlain | script/rename_items.py:161-163 | on a newline-free name: it changes exactly when it ends in a lower-case letter and has length ≥ 2, and then the match starts at the character in front of the lower-case run, or at the first letter of an all-lower-case name |
| RenameItems.SubstituteEndDotExamples | helpful_cakes/rename_items.py:161-163 | "photo.jpg" becomes "photo_.jpg" and "44" stays |
| RenameItems.FilePathDistinct | helpful_cakes/rename_items.py:119 | different names in one folder give different paths |
| RenameItems.ConformFilepath | helpful_cakes/rename_items.py:142-159 | the stripped path when it does not exist, else the end-dot variant of the unstripped name |
| RenameItems.ConformFilepathMoves | helpful_cakes/rename_items.py:154-159 | a prefixed file whose stripped path is free moves to a different path |
| RenameItems.ConformFilepathBarePrefix | helpful_cakes/rename_items.py:156 | a file named "IMG-" strips to the folder's own path, which exists, and keeps its name |
| RenameItems.GrabFiles | helpful_cakes/rename_items.py:89-95 | exactly the listing's files whose name starts with a prefix are kept |
| RenameItems.GrabFilesConcat | script/rename_items.py:89-95 | filtering keeps listing order: the filter of a concatenation is the concatenation of the filters |
| RenameItems.CountItems | helpful_cakes/rename_items.py:63-74 | the number of positions of the listing that hold a file, positive exactly when the listing holds a file |
| RenameItems.CountItemsExample | helpful_cakes/rename_items.py:74 | two files count 2; a file and a folder count 1 |
| RenameItems.FolderIntegrity | helpful_cakes/rename_items.py:47-87 | passes exactly when the path is not blank, exists, is a directory and holds at least one file |
| RenameItems.CountFiles | helpful_cakes/rename_items.py:173-176 | the "{items} files inside {directory}" announcement |
| RenameItems.LogInfo | helpful_cakes/rename_items.py:178-181 | the "Renaming item: {item}/{total}" announcement |
| RenameItems.CountFilesReadsBack | helpful_cakes/rename_items.py:173-176 | the announcement is the count's digits, ended by a non-digit, then " files inside " and the folder; the digits read back as the count |
| RenameItems.LogInfoReadsBack | helpful_cakes/rename_items.py:178-181 | the progress line is "Renaming item: ", the step's digits, "/" and the total's digits; both read back as the numbers |
| RenameItems.RenamedElements | helpful_cakes/rename_items.py:133-135 | the "{counter} elements renamed." result |
| RenameItems.RenamedElementsReadsBack | helpful_cakes/rename_items.py:133-135 | the final message is the counter's digits followed by " elements renamed.", and the digits read back as the counter |
| RenameItems.Progress | helpful_cakes/rename_items.py:178-181 | step k of the run is announced as "Renaming item: k/total" |
| RenameItems.MoveFile | helpful_cakes/rename_items.py:121 | after `os.rename` the target exists and a different source is gone; a rename onto itself changes nothing; no other path changes, and the folder never grows |
| RenameItems.RenameFirst | helpful_cakes/rename_items.py:113-121 | renaming one listed file leaves every other listed file's path present |
| RenameItems.RenameAll | helpful_cakes/rename_items.py:106-111 | the folder after renaming the listed files one by one, in listing order |
| RenameItems.RenameAllNeverGrows | helpful_cakes/rename_items.py:106-111 | renaming all chosen files never adds entries to the folder |
| RenameItems.RenameItems.constructor | helpful_cakes/rename_items.py:31-45 | requires the integrity check to pass, as the program exits otherwise, and every listed file to be a path of the folder; the counter starts at 0 and "N files inside <folder>" is announced |
| RenameItems.RenameItems.RenameFile | helpful_cakes/rename_items.py:113-121 | the file moves to its conformed path; counter and output unchanged |
| RenameItems.ProgressAppend | helpful_cakes/rename_items.py:123-131 | announcing the next step appends exactly its message to what the run has printed |
| RenameItems.RenameItems.AddOneItem | helpful_cakes/rename_items.py:123-131 | the counter goes up by one and its new value is announced |
| RenameItems.RenameItems.IterateFilteredFiles | helpful_cakes/rename_items.py:97-111 | the counter rises by the number of files, step k is announced as k/total, the folder ends as renaming the files in order leaves it, and the result is "{n} elements renamed." |
| Switcher.StripLine | helpful_cakes/switcher.py:254-265 | `strip_line(line, start)`: the stripped line starts with `start` |
| Switcher.StripLineIgnoresIndent | helpful_cakes/switcher.py:254-265 | `strip_line` ignores indentation: leading whitespace does not change the test |
| Switcher.StripLineExamples | test/test_switcher.py:10-12 | `strip_line("  foo", "foo")` holds and `strip_line("  foo", "grab")` does not |
| Switcher.IsCertificateLine | helpful_cakes/switcher.py:136-143 | the `avoid` test: the stripped line starts with one of the three certificate keys |
| Switcher.CertKeyOf | helpful_cakes/switcher.py:244-250 | names a certificate key the stripped line starts with, and none exactly when the line is no certificate line |
| Switcher.KeysPrefixFree | helpful_cakes/switcher.py:136-140 | no certificate key is a prefix of another, so a line starts with at most one |
| Switcher.CertKeyOfExact | script/switcher.py:244-250 | a line starts with key k exactly when k is the certificate key found for it |
| Switcher.SequentialTests | helpful_cakes/switcher.py:245-250 | of the three tests at most one holds, so in sequence they write the matching key's line or leave the line alone |
| Switcher.WindowsPath | helpful_cakes/switcher.py:210-217 | every "/" becomes "\\", every other character stays, length kept, no "/" left |
| Switcher.GetKey | helpful_cakes/switcher.py:219-231 | exactly the three certificate keys, each mapped to WSL_PATH + current path + its fixed `\.minikube\…` suffix |
| Switcher.GetKeyValues | script/switcher.py:225-230 | every key's path lies under the share and the current path, and no two keys share a path |
| Switcher.CertLine | helpful_cakes/switcher.py:245-250 | the f-string written for key k: four spaces, k, ": " and the key's path, each at its offset |
| Switcher.CertLineIsCertificate | helpful_cakes/switcher.py:136-143 | a written certificate line is again a certificate line of the same key, so `get_new_data` will not copy over it |
| Switcher.PatchLine | helpful_cakes/switcher.py:244-250 | one line of `set_wsl_path`: for a certificate origin line, the line for its key, which again names that key; otherwise the line unchanged |
| Switcher.JoinOneLine | helpful_cakes/switcher.py:267-277 | no lines give the empty text and one line gives that line |
| Switcher.JoinOneLineSeparators | script/switcher.py:277 | joining n ≥ 1 newline-free lines puts exactly n - 1 newlines in the text |
| Switcher.SplitJoinRoundTrip | helpful_cakes/switcher.py:277 | splitting the joined text at its newlines gives back the newline-free lines |
| Switcher.SplitLines | helpful_cakes/switcher.py:114-123 | `read_text`: the text's lines, newline-free; no lines exactly for the empty text |
| Switcher.SplitLinesJoin | helpful_cakes/switcher.py:160 | lines written by `join_one_line` read back unchanged when the last one is not empty |
| Switcher.SplitLinesDropsLastEmpty | helpful_cakes/switcher.py:160 | a final empty line is lost when the lines are written and read back |
| Switcher.CheckLength | helpful_cakes/switcher.py:174-183 | the origin has lines and the second file has as many |
| Switcher.CheckIntegrity | helpful_cakes/switcher.py:185-197 | afterwards the second file has the origin's number of lines: kept when the length check passes, the origin's lines otherwise |
| Switcher.NewData | helpful_cakes/switcher.py:125-146 | the lines `get_new_data` returns: each non-certificate origin line copied to its index, all else kept |
| Switcher.NewDataEmptyOrigin | helpful_cakes/switcher.py:33-40 | with the empty origin list of the `__call__` check phase, `get_new_data` changes nothing |
| Switcher.WslPatched | helpful_cakes/switcher.py:233-252 | the lines `set_wsl_path` returns: each line whose origin line is a certificate line rewritten with its path, all else kept |
| Switcher.CallResult | helpful_cakes/switcher.py:35-44 | the destination lines after `__call__` when no final empty line is lost (CallTextAgrees): existence check, integrity check, `get_new_data` with the still empty origin list, then `set_wsl_path` with the loaded origin |
| Switcher.CallPatchesCertificates | helpful_cakes/switcher.py:279-290 | the lines of the line model `CallResult`, which is what the program writes unless the destination loses a final empty line (CallTextAgrees): the origin's number of lines and every certificate line's new path; the other lines are the destination's own when it already had the origin's length, the origin's otherwise |
| Switcher.CallIdempotent | helpful_cakes/switcher.py:35-44 | the line model `CallResult` is idempotent: fed the lines it wrote, it gives them back; the program's own rerun, over the written text, is CallTextIdempotent |
| Switcher.CheckIntegrityText | helpful_cakes/switcher.py:185-197 | `check_integrity` on texts: the file is kept when the length check passes and becomes the origin's text otherwise, so it ends with the origin's number of lines |
| Switcher.CheckSameDataText | helpful_cakes/switcher.py:148-162 | `check_same_data` on texts: a destination equal to the origin is kept; any other reads back with its own lines, less a final empty line |
| Switcher.PopulateText | helpful_cakes/switcher.py:279-290 | `populate_new_data`: raises exactly when an origin certificate line lies past the destination's lines, writing nothing; otherwise writes the joined patched lines |
| Switcher.CallText | helpful_cakes/switcher.py:35-44 | `__call__` over the files' texts: a missing destination as the empty text, then `check_integrity`, `check_same_data` and `populate_new_data` in that order |
| Switcher.LosesLastLine | helpful_cakes/switcher.py:148-162 | the destinations that rewrite shortens: origin's number of lines, different text, empty last line |
| Switcher.CallTextAgrees | helpful_cakes/switcher.py:35-44 | every other destination is patched without error, and the written text is the join of the lines CallResult gives |
| Switcher.CallTextLosesLastLine | helpful_cakes/switcher.py:279-290 | for a destination that loses its last line: the call raises exactly when the origin's last line is a certificate line, leaving the shortened file; otherwise the shortened lines are patched |
| Switcher.CallTextIndexError | helpful_cakes/switcher.py:246-250 | the origin "p\nclient-key: k" and the destination "p\n\n", both of two lines: the call raises and leaves one line |
| Switcher.CallResultLines | helpful_cakes/switcher.py:244-250 | with newline-free paths the lines `__call__` writes hold no newline, and the last one is empty only when it is the origin's own non-certificate empty last line, kept by the integrity check |
| Switcher.CallTextWrongLength | helpful_cakes/switcher.py:185-197 | a destination that fails the length check is overwritten with the origin's text and patched without error |
| Switcher.CallTextIdempotent | helpful_cakes/switcher.py:35-44 | with newline-free paths, a second run over the text the first run wrote writes the same text and raises nowhere, for every destination that does not lose a final empty line |
| Switcher.CallTextRerunDiffers | helpful_cakes/switcher.py:157-160 | the origin "x\n\n" and the destination "y\n\n": the first run writes "y" and a second run writes "x\n", so the program is not idempotent when a final empty line is lost |
| Switcher.CertLineNoNewline | helpful_cakes/switcher.py:245-250 | a certificate line written with a newline-free path holds no newline and is not empty |
| Switcher.ShortLinePlain | helpful_cakes/switcher.py:136-143 | a line shorter than every certificate key is no certificate line |
| Switcher.WslPatchedPlain | helpful_cakes/switcher.py:244-252 | with no certificate line in the origin, `set_wsl_path` returns the destination unchanged |
| Switcher.CallTextLostLinePlain | helpful_cakes/switcher.py:35-44 | with no certificate line in the origin, a destination that loses its final empty line is written as its other lines, without error |
| Switcher.Switcher.constructor | helpful_cakes/switcher.py:26-33 | origin and destiny under the home directory from the environment ("None" when unset), no origin lines yet |
| Switcher.Switcher.LoadOrigin | helpful_cakes/switcher.py:40 | the origin lines are those read |
| Switcher.Switcher.GetNewData | helpful_cakes/switcher.py:125-146 | each non-certificate origin line is copied to its index, certificate lines and lines past the origin stay |
| Switcher.Switcher.SetWslLine | helpful_cakes/switcher.py:245-250 | one loop step: the line is rewritten as PatchLine says; no other line changes |
| Switcher.Switcher.SetWslPath | helpful_cakes/switcher.py:233-252 | each line whose origin line starts with key k becomes "    k: " + key[k]; every other line stays |

## Left out

- Command-line parsing (`parse_command_line_arguments`, the view module), logging, the `__main__` blocks and `Utils.launch_exit`/`broadcast_message`. These are console plumbing. The join choices `_`, `-`, `#` are not enforced; the lemmas assume only a non-empty join.
- `os.getcwd`, `os.getenv`, `Path.resolve` and `Path.iterdir` are parameters: a working directory, an environment map, a resolved path and an entry listing. `helpful_cakes/utils/common_functions.py` is not part of this model.
- Directory contents are opaque values in a map. The POSIX details of `os.rename` are not modelled: replacing an empty target directory, permissions, cross-device moves. A rename onto an existing other path is modelled as refused.
- The bulk renamer's folder is a set of paths, so a file replaced by `os.rename` is invisible beyond its path surviving. `count_items` runs before the integrity check in `__init__`; the model takes the listing as given and gives the integrity check as a function of the facts it tests. `Path` normalisation is modelled only for the stripped names "", "." and "..".
- RenameItems.RenameItems.IterateFilteredFiles: requires each listed name to exist and be listed once, as a fresh `iterdir` listing guarantees. A missing file would make Python raise mid-loop.
- Switcher.Switcher.GetNewData: requires the destination to have at least as many lines as the origin. With fewer lines Python raises IndexError; the caller's length check rules that out.
- Switcher.Switcher.SetWslPath: requires the three keys in `key`, as `get_key` builds them, and every certificate line's index inside the destination. Otherwise Python raises KeyError or IndexError.
- Switcher.CallIdempotent: the program itself is not idempotent for a destination that loses its final empty line (`LosesLastLine`). With origin "x\n\n" the destination "y\n\n" is written as "y", and a second run writes "x\n" (`CallTextRerunDiffers`). For every other destination the rerun writes the same text (`CallTextIdempotent`).
- The Switcher's files are texts (`CallText`). `read_text` is `splitlines` at "\n" only (`SplitLines`); its other line breaks ("\r", "\x0b", "\x1c" and the rest) are not modelled. `compare_files` (`filecmp.cmp`) is modelled as a comparison of contents; its shallow shortcut, which trusts equal size and modification time, is not modelled. A missing origin, which raises in `check_length`, is not modelled; `CallText` takes the origin's text as given.
- Only ASCII whitespace (Python's `isspace` on ASCII, including \x1c-\x1f) and ASCII case mapping are modelled. Non-ASCII behaviour of `strip` and `capitalize` is left out.
- The `re` engine is modelled only for the two fixed patterns "IMG-|VID-" and "(.)([a-z]+)$".
- Paths are compared as plain strings, with no normalisation and no nesting. A `FOLDER` such as "foo/" puts the aliases inside the base, where `os.rename(base, alias)` fails in the program but succeeds in the model.
- Concurrent invocations are not modelled; there is no locking.
