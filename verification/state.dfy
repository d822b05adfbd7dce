/**
 * The Sync class of csvsync/state.py: the per-role paths of one tracked file,
 * a cached (phase, command) status read from the status record, a setter that
 * rewrites the record on every change, and the guarded state_change.
 */
module State {
  import opened Wrappers
  import opened Staging
  import Config
  import PathOps
  import Gsheet

  // ---------------------------------------------------------------------------
  // Paths

  /** Where a tracked file's roles live: the sync directory, the cache base name, and the working file. */
  datatype RolePaths = RolePaths(subdir: string, basename: string, localPath: string)

  const STATUS_SUFFIX: string := ".STATUS"

  /** The suffix that names each staged role. */
  function Suffix(r: Role): string
    requires r != Role.Local
  {
    match r
    case Download => ".DOWNLOAD"
    case LocalCopy => ".LOCAL"
    case Merge => ".MERGE"
    case Save => ".SAVE"
  }

  /** subdir joined with basename + suffix. */
  function StagedPath(p: RolePaths, suffix: string): string
  {
    PathOps.Join(p.subdir, p.basename + suffix)
  }

  function PathOf(p: RolePaths, r: Role): string
  {
    if r == Role.Local then p.localPath else StagedPath(p, Suffix(r))
  }

  function StatusPath(p: RolePaths): string
  {
    StagedPath(p, STATUS_SUFFIX)
  }

  /**
   * Every staged path is the joined sync directory and base name followed by
   * its own suffix, so no two staged roles, and no staged role and the status
   * file, share a path.
   */
  lemma StagedPathsDistinct(p: RolePaths, r1: Role, r2: Role)
    requires r1 != Role.Local && r2 != Role.Local
    ensures PathOf(p, r1) == PathOps.Join(p.subdir, p.basename) + Suffix(r1)
    ensures r1 != r2 ==> PathOf(p, r1) != PathOf(p, r2)
    ensures PathOf(p, r1) != StatusPath(p)
  {
    var prefix := PathOps.Join(p.subdir, p.basename);
    PathOps.JoinAppend(p.subdir, p.basename, Suffix(r1));
    PathOps.JoinAppend(p.subdir, p.basename, Suffix(r2));
    PathOps.JoinAppend(p.subdir, p.basename, STATUS_SUFFIX);
    assert (prefix + Suffix(r1))[|prefix|..] == Suffix(r1);
    assert (prefix + Suffix(r2))[|prefix|..] == Suffix(r2);
    assert (prefix + STATUS_SUFFIX)[|prefix|..] == STATUS_SUFFIX;
  }

  /** The base name of the staged files: the `cachename` option, else the basename of `filename`. */
  function BaseNameOf(fc: Config.FileConfig): string
    requires Config.Has(fc, "filename")
  {
    match Config.Get(fc, "cachename")
    case Some(name) => name
    case None => PathOps.BaseName(Config.Get(fc, "filename").value)
  }

  // ---------------------------------------------------------------------------
  // The configuration check of the constructor

  /** The options the constructor insists on, in the order it checks them. */
  const REQUIRED_KEYS: seq<string> := ["filename", "spreadsheet_id", "sheet", "key"]

  /** check_config_key for the required options from the i-th on: the first one missing is reported. */
  function CheckConfigKeysFrom(fc: Config.FileConfig, i: nat): (r: Outcome<Error>)
    requires i <= |REQUIRED_KEYS|
    ensures r.Pass? <==> forall j :: i <= j < |REQUIRED_KEYS| ==> Config.Has(fc, REQUIRED_KEYS[j])
    ensures r.Fail? ==> exists j :: i <= j < |REQUIRED_KEYS| && r.error == IncompleteConfig(REQUIRED_KEYS[j])
                          && !Config.Has(fc, REQUIRED_KEYS[j])
                          && forall k :: i <= k < j ==> Config.Has(fc, REQUIRED_KEYS[k])
    decreases |REQUIRED_KEYS| - i
  {
    if i == |REQUIRED_KEYS| then Pass
    else if !Config.Has(fc, REQUIRED_KEYS[i]) then Fail(IncompleteConfig(REQUIRED_KEYS[i]))
    else CheckConfigKeysFrom(fc, i + 1)
  }

  /** The constructor's checks: filename, spreadsheet_id, sheet and key, in that order. */
  function CheckConfigKeys(fc: Config.FileConfig): Outcome<Error>
  {
    CheckConfigKeysFrom(fc, 0)
  }

  /**
   * `keyname in fileconfig` as written: FileConfig defines neither __contains__
   * nor __iter__, so Python probes fileconfig[0]; the section proxy lower-cases
   * the option name with str.lower(), which an int lacks: AttributeError.
   */
  function ContainsAsWritten(fc: Config.FileConfig, key: string): Result<bool, Error>
  {
    Failure(AttributeError)
  }

  /** The constructor's check as written: the first membership test raises. */
  function CheckConfigKeysAsWritten(fc: Config.FileConfig): Outcome<Error>
  {
    match ContainsAsWritten(fc, "filename")
    case Failure(e) => Fail(e)
    case Success(present) => if !present then Fail(IncompleteConfig("filename")) else Pass
  }

  /** A configuration with every required option is accepted by the intended check and rejected as written. */
  lemma ConfigCheckAsWrittenRejectsComplete(fc: Config.FileConfig)
    requires forall i :: 0 <= i < |REQUIRED_KEYS| ==> Config.Has(fc, REQUIRED_KEYS[i])
    ensures CheckConfigKeys(fc) == Pass
    ensures CheckConfigKeysAsWritten(fc) == Fail(AttributeError)
  {
  }

  // ---------------------------------------------------------------------------
  // The status record

  /** section.get(key, default) on the status section. */
  function Recorded(section: map<string, string>, key: string, default: string): string
  {
    if key in section then section[key] else default
  }

  /** A value for the status setter: a (phase, command) pair, or a bare phase. */
  datatype StatusValue = Pair(phase: string, command: string) | Bare(phase: string)

  /** `if command:` in state_change: a command was passed and it is not the empty string. */
  predicate Given(command: Option<string>)
  {
    command.Some? && command.value != ""
  }

  class Sync {
    const ws: Workspace
    const paths: RolePaths
    /** The pad_lines option, read when downloading. */
    const padLines: Option<string>
    /** Whether the status has been read from the record; afterwards the cached pair is used. */
    var loaded: bool
    var phase: string
    var command: string

    constructor (ws: Workspace, paths: RolePaths, padLines: Option<string>)
      ensures this.ws == ws && this.paths == paths && this.padLines == padLines && !loaded
    {
      this.ws := ws;
      this.paths := paths;
      this.padLines := padLines;
      loaded := false;
      phase := NEW;
      command := NO_COMMAND;
    }

    /** __init__: the configuration check, then the per-role paths. */
    static method Open(ws: Workspace, fc: Config.FileConfig, subdir: string, localPath: string)
      returns (r: Result<Sync, Error>)
      ensures CheckConfigKeys(fc).Fail? ==> r == Failure(CheckConfigKeys(fc).error)
      ensures CheckConfigKeys(fc).Pass? ==>
                r.Success? && fresh(r.value) && r.value.ws == ws && !r.value.loaded
                && r.value.paths == RolePaths(subdir, BaseNameOf(fc), localPath)
                && r.value.padLines == Config.Get(fc, "pad_lines")
    {
      var checked := CheckConfigKeys(fc);
      if checked.Fail? {
        return Failure(checked.error);
      }
      var s := new Sync(ws, RolePaths(subdir, BaseNameOf(fc), localPath), Config.Get(fc, "pad_lines"));
      r := Success(s);
    }

    /** The phase a read would return now: the cached one, else the record's, else NEW. */
    function CurrentPhase(): string
      reads this, ws
    {
      if loaded then phase else Recorded(ws.statusSection, STATUS_KEY, NEW)
    }

    /** The command a read would return now: the cached one, else the record's, else "none". */
    function CurrentCommand(): string
      reads this, ws
    {
      if loaded then command else Recorded(ws.statusSection, COMMAND_KEY, NO_COMMAND)
    }

    /** __load_status: reads the record once; later calls keep the cached pair. */
    method LoadStatus()
      modifies this`loaded, this`phase, this`command
      ensures loaded
      ensures old(loaded) ==> phase == old(phase) && command == old(command)
      ensures !old(loaded) ==>
                phase == Recorded(ws.statusSection, STATUS_KEY, NEW)
                && command == Recorded(ws.statusSection, COMMAND_KEY, NO_COMMAND)
    {
      if loaded {
        return;
      }
      phase := Recorded(ws.statusSection, STATUS_KEY, NEW);
      command := Recorded(ws.statusSection, COMMAND_KEY, NO_COMMAND);
      loaded := true;
    }

    /** The status getter. */
    method Status() returns (s: string)
      modifies this`loaded, this`phase, this`command
      ensures loaded && s == phase
      ensures phase == old(CurrentPhase()) && command == old(CurrentCommand())
    {
      LoadStatus();
      s := phase;
    }

    /** The command getter. */
    method Command() returns (c: string)
      modifies this`loaded, this`phase, this`command
      ensures loaded && c == command
      ensures phase == old(CurrentPhase()) && command == old(CurrentCommand())
    {
      LoadStatus();
      c := command;
    }

    /**
     * The status setter: a pair sets both fields, a bare phase keeps the command;
     * the record is rewritten with both. The status must have been read first.
     */
    method SetStatus(value: StatusValue)
      requires loaded
      modifies this`phase, this`command, ws`statusSection
      ensures phase == value.phase
      ensures command == if value.Pair? then value.command else old(command)
      ensures ws.statusSection == old(ws.statusSection)[STATUS_KEY := phase][COMMAND_KEY := command]
      ensures Recorded(ws.statusSection, STATUS_KEY, NEW) == phase
      ensures Recorded(ws.statusSection, COMMAND_KEY, NO_COMMAND) == command
    {
      if value.Pair? {
        phase, command := value.phase, value.command;
      } else {
        phase := value.phase;
      }
      ws.statusSection := ws.statusSection[STATUS_KEY := phase][COMMAND_KEY := command];
    }

    /**
     * state_change(from, to, command): refused unless the current phase is
     * `from`; the command "none" only goes with READY, any other command only
     * starts from READY; without a command only the phase changes.
     */
    method StateChange(from: string, to: string, cmd: Option<string>) returns (r: Outcome<Error>)
      modifies this`loaded, this`phase, this`command, ws`statusSection
      ensures loaded
      ensures r.Pass? <==>
                old(CurrentPhase()) == from
                && (Given(cmd) ==> if cmd.value == NO_COMMAND then to == READY else from == READY)
      ensures old(CurrentPhase()) != from ==> r == Fail(StateMismatch(old(CurrentPhase()), from))
      ensures old(CurrentPhase()) == from && r.Fail? ==> r == Fail(AssertionFailed)
      ensures r.Fail? ==>
                phase == old(CurrentPhase()) && command == old(CurrentCommand())
                && ws.statusSection == old(ws.statusSection)
      ensures r.Pass? ==>
                phase == to && command == (if Given(cmd) then cmd.value else old(CurrentCommand()))
                && ws.statusSection == old(ws.statusSection)[STATUS_KEY := to][COMMAND_KEY := command]
    {
      var current := Status();
      if current != from {
        return Fail(StateMismatch(current, from));
      }
      if Given(cmd) {
        if cmd.value == NO_COMMAND {
          if to != READY {
            return Fail(AssertionFailed);
          }
        } else {
          current := Status();
          if current != READY {
            return Fail(AssertionFailed);
          }
        }
        SetStatus(Pair(to, cmd.value));
      } else {
        SetStatus(Bare(to));
      }
      r := Pass;
    }

    /** Fetches the sheet into Download, padded as the pad_lines option says; Download must be absent. */
    method Download() returns (r: Outcome<Error>)
      modifies ws`files
      ensures Role.Download in old(ws.files) ==> r == Fail(AssertionFailed) && ws.files == old(ws.files)
      ensures Role.Download !in old(ws.files) && padLines.None? ==>
                r == Fail(MissingOption("pad_lines")) && ws.files == old(ws.files)
      ensures Role.Download !in old(ws.files) && padLines.Some? && Config.PadLinesFlag(padLines.value).None? ==>
                r == Fail(InvalidBoolean(padLines.value)) && ws.files == old(ws.files)
      ensures Role.Download !in old(ws.files) && padLines.Some? && Config.PadLinesFlag(padLines.value).Some? ==>
                r == Pass
                && ws.files == old(ws.files)[Role.Download := Gsheet.Padded(ws.remote, Config.PadLinesFlag(padLines.value).value)]
    {
      if ws.Exists(Role.Download) {
        return Fail(AssertionFailed);
      }
      if padLines.None? {
        return Fail(MissingOption("pad_lines"));
      }
      var pad := Config.PadLinesFlag(padLines.value);
      if pad.None? {
        return Fail(InvalidBoolean(padLines.value));
      }
      ws.SaveToCsv(Role.Download, pad.value);
      r := Pass;
    }

    /** Sends Save to the sheet; Save must exist. */
    method Upload() returns (r: Outcome<Error>)
      modifies ws`remote, ws`uploads
      ensures r.Pass? <==> Role.Save in ws.files
      ensures r.Fail? ==> r.error == AssertionFailed && ws.remote == old(ws.remote) && ws.uploads == old(ws.uploads)
      ensures r.Pass? ==> ws.remote == ws.files[Role.Save] && ws.uploads == old(ws.uploads) + [ws.files[Role.Save]]
    {
      if !ws.Exists(Role.Save) {
        return Fail(AssertionFailed);
      }
      var ok := ws.LoadFromCsv(Role.Save);
      assert ok;
      r := Pass;
    }

    /**
     * copy_file: copies one role's file over another's; fails when the source
     * is missing, and when it is the destination itself (SameFileError).
     */
    method CopyFile(src: Role, dst: Role) returns (r: Outcome<Error>)
      modifies ws`files
      ensures r.Pass? <==> src in old(ws.files) && src != dst
      ensures src !in old(ws.files) ==> r == Fail(FileNotFound(src))
      ensures src in old(ws.files) && src == dst ==> r == Fail(SameFile(src))
      ensures r.Fail? ==> ws.files == old(ws.files)
      ensures r.Pass? ==> ws.files == old(ws.files)[dst := old(ws.files)[src]]
    {
      var ok := ws.Copy(src, dst);
      r := if ok then Pass else if src !in ws.files then Fail(FileNotFound(src)) else Fail(SameFile(src));
    }
  }
}
