# csvsync in Dafny

csvsync keeps a local CSV file and a Google Sheets tab in step with a
three-way merge. Each tracked file has a set of staged copies in a sync
directory:

- the working file (Local);
- the sheet as last fetched (Download);
- a copy of the working file (LocalCopy);
- the merge output (Merge);
- the latest common ancestor (Save).

A status record holds the sync phase and, in the newer variant, the command
under way. The code only ever writes `READY` or `MERGING` as the phase. `NEW` is
what the newer variant reads when nothing is recorded. `RESOLVE` is checked
for, but appears only in a record written by hand.

This project models the state machine that moves those copies around and
proves what each step does to the files, the status record and the remote
sheet. It covers these parts:

- **Two Sync classes.** The self-contained `Sync` of `csvsync/sync.py` has a
  status that is absent, `READY` or `MERGING`. The `Sync` of
  `csvsync/state.py` caches a (phase, command) pair read from the record and
  has a guarded `state_change`.
- **The command recipes.** These are `do_sync` (with its `try`/`finally`
  cleanup), the pull recipe, `cli_abort`, `cli_check_state`, the read in
  `cli_status`, and `find_config`.
- **Configuration.** This covers the section lookup (`Config.__getitem__`),
  the expansion of a file-name option against `syncdir`, and the built-in
  defaults.
- **gsheet.py.** Only two parts are modelled: the row padding in
  `save_to_csv` and the sheet-title search.

## How the model is built

- **Files.** The staged files are a `map<Role, Content>` field of the class
  `Staging.Workspace`. A file's content is its rows, each a sequence of cell
  strings. Renames, copies and unlinks reassign that map.
- **Status record.** `Workspace.statusSection` is the `[csvsync]` section of
  the status record. The sources rewrite the status file on every set, so the
  in-memory section and the file are one field.
- **Remote sheet.** The sheet is the field `Workspace.remote`. A download
  writes `Gsheet.Padded(remote, pad)` to the Download role. An upload sets
  `remote` to the uploaded content and appends it to `Workspace.uploads`, so
  that a skipped upload can be seen.
- **Merge engine.** The three-way merge of the `csvdiff3` library is a
  `MergeEngine` parameter. It is a function from ancestor, branch A, branch B
  and key to an output and a conflict flag.
- **Errors.** `exit(1)`, `raise` and a failed `assert` become an `Outcome` or
  `Result` failure carrying a `Staging.Error`.
- **Which `Sync` each recipe drives.**
  - `cli_sync.py` builds a `csvsync/sync.py` `Sync`, yet calls
    `state_change`, which only the `state.py` class has. `CliSync.DoSync`
    therefore runs both objects over one shared `Workspace`: the `READY` to
    `MERGING` guard on the `state.py` object, and the download, merge,
    completion and cleanup on the `sync.py` object.
  - `--continue` calls `sync.cli_sync_continue()`, which no class defines. It
    is modelled as the module's own `do_sync_continue`, i.e.
    `merge_complete`.
  - The pull recipe and `cli_status` name `ancestor_filename`, which no class
    defines. It is read as the ancestor, the Save role.
  - `state.py` resolves `syncdir` and `filename` through
    `file_relative_to_config`, which `config.py` does not define. Those two
    paths are inputs of `State.Sync.Open`.

## Model

| member | source | states |
|---|---|---|
| PathOps.BaseName | csvsync/state.py:37 | the base name is everything after the last `/`: it has no `/`, is a suffix of the path, is preceded by a `/` when shorter than the path, and is the whole path when the path has no directory part |
| PathOps.JoinAppend | csvsync/state.py:45-65 | joining a directory with a base name and then appending a suffix equals joining with the suffixed name |
| PathOps.BaseNameAfterDir | csvsync/config.py:43-45 | a directory-free name joined under a directory has that name as its base name again |
| Gsheet.MaxLenBounds | csvsync/gsheet.py:86-89 | the longest-row length bounds every row, and some row reaches it when there is a row |
| Gsheet.MaxRowLength | csvsync/gsheet.py:86-89 | the loop ends with the length of the longest row: no row is longer, some row has that length, and it is 0 without rows |
| Gsheet.PaddedShape | csvsync/gsheet.py:93-97 | padding keeps row count and order, keeps each row's cells as a prefix, only appends empty cells, and makes every row exactly as long as the longest; without padding nothing changes |
| Gsheet.SaveRows | csvsync/gsheet.py:86-97 | the rows written by the padding loop are exactly the padded rows |
| Gsheet.FindSheet | csvsync/gsheet.py:60-71 | no result exactly when no sheet carries the title; otherwise the id and name of the first sheet with that title, skipping sheets without a title |
| Config.GetItemFromAsWrittenSpec | csvsync/config.py:21-29 | the lookup as written finds a section exactly when some section matches and every section before it has a `filename` option, and returns the first match |
| Config.GetItemFromSpec | csvsync/config.py:21-29 | the intended lookup finds a section exactly when some section matches by name or by `filename`, never the DEFAULT section, and returns the first match in file order |
| Config.GetItemSpec | csvsync/config.py:21-29 | the same facts over the configuration's sections: no match means no result (the KeyError) |
| Config.LookupHiddenBySectionWithoutFilename | csvsync/config.py:26 | a section without `filename` ahead of the matching one makes the lookup as written fail while the intended lookup finds the match |
| Config.ExpandConfigFilename | csvsync/config.py:36-49 | a missing option is a KeyError; a name with a directory part is returned unchanged; a bare name becomes `syncdir`, then a `/` unless `syncdir` is empty or already ends in one, then the name, and keeps its base name; a missing `syncdir` is a KeyError |
| Config.ExpandUsesDefaultSyncDir | csvsync/config.py:6-11 | with the built-in defaults a bare name expands to `csvsync/` followed by the name |
| Config.PadLinesFalseStillPads | csvsync/state.py:151-153 | the option text `False` is true by Python's truth test but false as a boolean option, and the built-in default reads as true |
| Staging.Workspace.SaveToCsv | csvsync/gsheet.py:74-97 | the target role receives the padded sheet and nothing else changes |
| Staging.Workspace.LoadFromCsv | csvsync/gsheet.py:99-101 | the remote becomes the role's content and the upload is logged; a missing role changes nothing |
| Sync.Sync.Open | csvsync/sync.py:12-41 | a missing `syncdir` or `filename` option is a KeyError, checked in that order; otherwise a fresh object on the workspace whose key is the section's `key` option, if any |
| Sync.Sync.Status | csvsync/sync.py:43-51 | the recorded phase, and None exactly when the record has none |
| Sync.Sync.SetStatus | csvsync/sync.py:53-65 | the status record gets the new phase, other options are kept, and the getter then returns it |
| Sync.Sync.Download | csvsync/sync.py:67-73 | refused without effect when Download exists; otherwise Download holds the padded sheet and nothing else changes |
| Sync.Sync.CleanupDownload | csvsync/sync.py:75-78 | Download is removed; it is an error when it was missing |
| Sync.Sync.Upload | csvsync/sync.py:80-85 | refused when Save is missing; otherwise the remote becomes exactly Save's content |
| Sync.Sync.Synchronize | csvsync/sync.py:87-123 | refused with nothing changed unless idle, with an ancestor, a key and no stale download; once downloaded, the download is always removed; a conflict leaves MERGING with the output in Merge and Local and Save untouched; a clean merge leaves Save and Local equal to the output, Merge gone, READY, and an upload unless the output equals the download |
| Sync.Sync.Pull | csvsync/sync.py:125-138 | refused without touching files unless idle, when Save exists, or when Download exists; otherwise Save and Local both hold the padded sheet and Download is gone |
| Sync.Sync.Push | csvsync/sync.py:140-155 | refused unless idle and Local exists; otherwise Save equals Local and the remote equals Local |
| Sync.Sync.Abort | csvsync/sync.py:157-170 | only from MERGING; removes Download and Merge, keeps Local and Save, and records READY |
| Sync.Sync.MergeFiles | csvsync/sync.py:172-207 | records MERGING first; without a key or an input nothing else changes and the first missing input is reported; otherwise Merge holds the merge output and the result is "no conflict" |
| Sync.Sync.MergeComplete | csvsync/sync.py:209-236 | only from MERGING with a Merge file, otherwise nothing changes; Save and Local take the output, Merge is gone, READY is recorded, and the upload is skipped exactly when Download still exists and equals the output |
| Sync.PullAfterPush | csvsync/sync.py:125-155 | a pull right after a successful push is always refused because the push left a saved ancestor |
| State.StagedPathsDistinct | csvsync/state.py:37-65 | each staged path is the joined directory and base name plus its own suffix, so no two roles and no role and the status file share a path |
| State.CheckConfigKeysFrom | csvsync/state.py:72-77 | the check passes exactly when filename, spreadsheet_id, sheet and key are all present, and otherwise reports the first missing one |
| State.ConfigCheckAsWrittenRejectsComplete | csvsync/state.py:74 | a configuration with every required option passes the intended check yet fails the membership test as written |
| State.Sync.Open | csvsync/state.py:20-70 | an incomplete configuration is refused with the first missing key; otherwise a fresh object with nothing loaded and the paths built from `syncdir`, the cache name and `filename` |
| State.Sync.LoadStatus | csvsync/state.py:79-98 | the first load reads phase and command from the record, defaulting to NEW and "none"; later loads keep the cached pair |
| State.Sync.Status | csvsync/state.py:100-103 | returns the phase a read sees now and leaves the cached pair equal to it |
| State.Sync.Command | csvsync/state.py:105-108 | returns the command a read sees now and leaves the cached pair equal to it |
| State.Sync.SetStatus | csvsync/state.py:110-131 | a pair sets both fields, a bare phase keeps the command, and the record then holds exactly the in-memory pair |
| State.Sync.StateChange | csvsync/state.py:133-145 | accepted exactly when the phase is the expected one and a command "none" goes with READY and any other command starts from READY; a mismatch is reported with no write; without a command only the phase changes |
| State.Sync.Download | csvsync/state.py:147-153 | refused when Download exists; an absent or non-boolean pad_lines is an error; otherwise Download holds the sheet padded as the option says |
| State.Sync.Upload | csvsync/state.py:160-165 | refused when Save is missing; otherwise the remote becomes exactly Save's content |
| State.Sync.CopyFile | csvsync/state.py:167-171 | the destination role takes the source's content; a missing source, or a source that is the destination itself (SameFileError), is an error with nothing changed |
| Cli.FindConfig | csvsync/cli.py:87-92 | an error exactly when no section matches the name, and otherwise the first matching section, never DEFAULT |
| Cli.CliCheckState | csvsync/cli.py:94-97 | passes exactly when the phase equals the expected one (READY by default) and changes nothing |
| Cli.CliAbort | csvsync/cli.py:38-56 | refused with nothing changed unless RESOLVE; otherwise Download and Merge are removed, Local and Save kept, and READY recorded with the command left as it was |
| Cli.CliStatus | csvsync/cli.py:62-70 | returns the current phase and changes no file and no record |
| CliPull.FetchAncestor | csvsync/cli_pull.py:15-29 | requires exactly READY (a never-written status reads NEW and is refused), no ancestor and no stale download; then the download becomes the ancestor; status and command never change; any failure leaves the files as they were |
| CliPull.CliPullAsWritten | csvsync/cli_pull.py:28-30 | every pull that gets past the rename stops with a NameError for `shutil`, leaving the download as the ancestor and the working file untouched; no pull succeeds |
| CliPull.CliPull | csvsync/cli_pull.py:15-30 | the intended pull: requires exactly READY (a never-written status reads NEW and is refused) and no ancestor; on success ancestor and Local hold the downloaded sheet and Download is gone; status and command never change; any failure leaves the files as they were |
| CliSync.DoSyncContinue | csvsync/cli_sync.py:76-77 | a resumed sync succeeds exactly in MERGING with a Merge file and then promotes the merge output, uploading unless the download is still there and equal |
| CliSync.MergeStarted | csvsync/cli_sync.py:60-74 | after the guard: download, merge, complete a clean merge while Download exists, and always remove Download afterwards; a conflict keeps MERGING and leaves Local and Save untouched |
| CliSync.DoSync | csvsync/cli_sync.py:34-74 | --continue checks nothing but the merge state and leaves the state.py object alone: Save and Local take the merge output, READY is recorded, and the upload happens unless the download is still there and equal; a new sync fails with no change when Save or the key is missing; any phase other than READY is refused; MERGING is recorded before the download with the command unchanged; the conflict and clean-merge end states are as in MergeStarted |
| CliSync.ContinueAfterConflict | csvsync/cli_sync.py:62-77 | continuing a sync stopped by a conflict always uploads, because the conflicted run removed its download |

## Left out

- The Google Sheets API, OAuth and the lazy `gsheet` property. The remote is one content value.
- Reading a sheet is assumed to return what the last upload wrote. The line count and the pasteData request of `load_from_csv` (csvsync/gsheet.py:99-140) are not modelled.
- CSV serialisation. Two files are equal when their row sequences are equal; byte-level comparison of files is not modelled.
- The `csvdiff3` merge algorithm. It is an opaque `MergeEngine` parameter.
- The on-disk syntax of `.ini` and `.STATUS` files, and `expanduser`.
- Reading the configuration files in `Config.__init__`, and `Config.save`. A configuration is given as its defaults and sections.
- The working file's path is an input. It is assumed distinct from the staged paths, whose distinctness is proved.
- CLI plumbing:
  - click
  - `csvsync/__init__.py`
  - `cli_entrypoint`
  - `eprint`
  - the text of `CLIError` messages
  - logging
- The debug listing of files in `cli_status` (csvsync/cli.py:72-81). It reads the undefined `ancestor_filename`.
- Concurrency, crashes mid-step and atomic renames. Every operation runs to completion on its own.
- `State.Sync.SetStatus`: the source unpacks any two-character string as a (phase, command) pair. The model takes a pair or a phase explicitly; no phase has two characters.
- `State.Sync.SetStatus`: requires the status to have been read first. The source's setter raises AttributeError before the first read.
- `State.Sync.Download`: reads `pad_lines` as configparser's boolean. As written, the string's truth value is used (see Findings).
- `State.Sync.Open`: uses the intended configuration check. As written, the check always raises (see Findings).
- No code path sets the `RESOLVE` phase, so only a status record written by hand lets `cli_abort` proceed. The guard is modelled as written.
- `Cli.FindConfig`: built on the intended lookup `Config.GetItem`. As written, a section without `filename` ahead of the match makes `find_config` exit (see Findings).
- Some error exits raise a different Python error than the one modelled, with the same effect on files and status. `cli_sync.py` never imports `eprint` (lines 44, 52, 67), and the sync.py `Sync` has no `local_filename` (line 67). `cli.py:97` reads a `fileconfig.section_name` that `FileConfig` lacks. These paths raise NameError or AttributeError instead of `exit(1)` or `CLIError`; the model gives the error it names.
- `file_relative_to_config` is not part of this model. The sync directory and working file path it would produce are inputs.

## Findings

| source | as written | input that shows it | evidently intended | confidence | as-written member | corrected member |
|---|---|---|---|---|---|---|
| csvsync/state.py:74 | `keyname not in fileconfig` on a `FileConfig`, which defines neither `__contains__` nor `__iter__`, so Python probes `fileconfig[0]`. The section proxy lower-cases the integer option name and raises AttributeError. | any configuration, including one with all four required options | report the first of filename, spreadsheet_id, sheet, key that is missing, and accept a complete section | high; not executed | State.ConfigCheckAsWrittenRejectsComplete | State.CheckConfigKeysFrom |
| csvsync/config.py:26 | `self.config[section]['filename']` is read for every non-matching section | sections `[notes]` (no options) then `[people]` with `filename = people.csv`, looked up as `people.csv` | a section without `filename` does not match by file name, and the search goes on | high; not executed | Config.LookupHiddenBySectionWithoutFilename | Config.GetItemSpec |
| csvsync/state.py:151-153 | the `pad_lines` option's string is passed as the padding flag, so every non-empty value pads | `pad_lines = False` | the option read as a boolean | medium; not executed | Config.PadLinesFalseStillPads | State.Sync.Download |
| csvsync/cli_pull.py:30 | `shutil.copy` is called, but the module never imports `shutil` and `from csvsync.lib import *` brings in only `sys`, `os`, `eprint` and `CLIError` | phase READY, no ancestor, no download, `pad_lines = True` | the ancestor is copied to the working file | high; not executed | CliPull.CliPullAsWritten | CliPull.CliPull |
