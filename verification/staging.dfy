/**
 * The staged files of one tracked file, the status record kept beside them,
 * and the remote sheet they are synchronised with.
 *
 * Every file is addressed by its Role; the paths behind the roles are
 * distinct (State.StagedPathsDistinct), so the file system is a map from
 * roles to contents. The status record is the [csvsync] section of the
 * .STATUS file: the Sync objects rewrite the file on every change, so the
 * in-memory section and the file on disk are one value here.
 */
module Staging {
  import opened Wrappers
  import Gsheet

  /** Local is the user's working file; the others live in the sync directory. */
  datatype Role = Local | Download | LocalCopy | Merge | Save

  /** The rows of a CSV file; two files are byte-equal exactly when their rows are. */
  type Content = seq<Gsheet.Row>

  /** What the three-way merge writes and whether it met a conflict. */
  datatype MergeResult = MergeResult(output: Content, conflict: bool)

  /** The merge engine: (ancestor, branch A, branch B, key column) to a merge result. */
  type MergeEngine = (Content, Content, Content, string) -> MergeResult

  // Phases and commands recorded in the status file.
  const READY: string := "READY"
  const MERGING: string := "MERGING"
  const RESOLVE: string := "RESOLVE"
  const NEW: string := "NEW"
  const NO_COMMAND: string := "none"

  /** Option names inside the status section. */
  const STATUS_KEY: string := "status"
  const COMMAND_KEY: string := "current_command"

  /** Every way an operation stops early: an error message and exit(1), a raise, or a failed assert. */
  datatype Error =
    | InProgress(status: Option<string>)          // sync already in progress
    | NoSavedCopy                                  // no saved copy (.SAVE) exists
    | SavedCopyExists                              // saved copy already exists
    | NoPrimaryKey                                 // no primary key defined for file
    | LocalNotFound                                // local file not found
    | NoSyncInProgress(status: Option<string>)     // abort outside a merge
    | MergeNotInProgress(status: Option<string>)   // merge_complete outside a merge
    | AbortRefused(phase: string)                  // cli_abort outside RESOLVE
    | StateMismatch(phase: string, expected: string)
    | WrongState(expected: string, phase: string)  // cli_check_state
    | MergeConflicts                               // sync stopped for manual resolution
    | NoMatchingConfig(filename: string)           // find_config
    | IncompleteConfig(key: string)                // required option missing
    | MissingOption(key: string)                   // KeyError reading an option
    | InvalidBoolean(value: string)                // ValueError reading a boolean option
    | AttributeError
    | NameError(name: string)                      // a name the module never imports
    | SameFile(role: Role)                         // shutil.SameFileError
    | AssertionFailed
    | FileNotFound(role: Role)

  class Workspace {
    /** The staged files that exist, with their contents. */
    var files: map<Role, Content>
    /** The [csvsync] section of the status file; empty when there is none. */
    var statusSection: map<string, string>
    /** The values of the remote sheet. */
    var remote: seq<Gsheet.Row>
    /** Every content sent to the remote sheet, oldest first. */
    var uploads: seq<Content>

    constructor (files: map<Role, Content>, statusSection: map<string, string>, remote: seq<Gsheet.Row>)
      ensures this.files == files && this.statusSection == statusSection
      ensures this.remote == remote && uploads == []
    {
      this.files := files;
      this.statusSection := statusSection;
      this.remote := remote;
      uploads := [];
    }

    /** os.path.exists */
    predicate Exists(r: Role)
      reads this
    {
      r in files
    }

    /**
     * shutil.copy: fails when the source is missing or is the destination itself
     * (SameFileError), otherwise overwrites the destination.
     */
    method Copy(src: Role, dst: Role) returns (ok: bool)
      modifies this`files
      ensures ok == (src in old(files) && src != dst)
      ensures files == if ok then old(files)[dst := old(files)[src]] else old(files)
    {
      ok := src in files && src != dst;
      if ok {
        files := files[dst := files[src]];
      }
    }

    /** os.rename: fails when the source is missing, otherwise moves it over the destination. */
    method Rename(src: Role, dst: Role) returns (ok: bool)
      modifies this`files
      ensures ok == (src in old(files))
      ensures files == if ok then (old(files) - {src})[dst := old(files)[src]] else old(files)
    {
      ok := src in files;
      if ok {
        files := (files - {src})[dst := files[src]];
      }
    }

    /** os.unlink: fails when the file is missing; afterwards it is gone. */
    method Unlink(r: Role) returns (ok: bool)
      modifies this`files
      ensures ok == (r in old(files))
      ensures files == old(files) - {r}
    {
      ok := r in files;
      files := files - {r};
    }

    /** Sheet.save_to_csv: the sheet's values, padded as requested, written to dst. */
    method SaveToCsv(dst: Role, padLines: bool)
      modifies this`files
      ensures files == old(files)[dst := Gsheet.Padded(remote, padLines)]
    {
      var rows := Gsheet.SaveRows(remote, padLines);
      files := files[dst := rows];
    }

    /** Sheet.load_from_csv: the sheet is replaced by the contents of src (fails when src is missing). */
    method LoadFromCsv(src: Role) returns (ok: bool)
      modifies this`remote, this`uploads
      ensures ok == (src in files)
      ensures ok ==> remote == files[src] && uploads == old(uploads) + [files[src]]
      ensures !ok ==> remote == old(remote) && uploads == old(uploads)
    {
      ok := src in files;
      if ok {
        remote := files[src];
        uploads := uploads + [files[src]];
      }
    }
  }
}
