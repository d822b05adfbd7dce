/** The pull recipe of csvsync/cli_pull.py over the state.py Sync; the ancestor it names is the Save role. */
module CliPull {
  import opened Wrappers
  import opened Staging
  import Config
  import Gsheet
  import State
  import Cli

  /** The state a pull can start from: READY, no ancestor, no stale download, and a readable pad_lines. */
  predicate CanPull(s: State.Sync, files: map<Role, Content>, phase: string)
  {
    phase == READY && Role.Save !in files && Role.Download !in files
    && s.padLines.Some? && Config.PadLinesFlag(s.padLines.value).Some?
  }

  /** The sheet as the pull downloads it. */
  function Fetched(s: State.Sync, remote: seq<Gsheet.Row>): Content
    requires s.padLines.Some? && Config.PadLinesFlag(s.padLines.value).Some?
  {
    Gsheet.Padded(remote, Config.PadLinesFlag(s.padLines.value).value)
  }

  /**
   * The first steps of cli_pull: the state check, the refusal when an ancestor
   * exists, the download, and its rename to the ancestor.
   */
  method FetchAncestor(s: State.Sync) returns (r: Outcome<Error>)
    modifies s`loaded, s`phase, s`command, s.ws`files
    ensures s.CurrentPhase() == old(s.CurrentPhase()) && s.CurrentCommand() == old(s.CurrentCommand())
    ensures s.ws.statusSection == old(s.ws.statusSection) && s.ws.remote == old(s.ws.remote)
    ensures old(s.CurrentPhase()) != READY ==> r == Fail(WrongState(READY, old(s.CurrentPhase())))
    ensures old(s.CurrentPhase()) == READY && Role.Save in old(s.ws.files) ==> r == Fail(SavedCopyExists)
    ensures old(s.CurrentPhase()) == READY && Role.Save !in old(s.ws.files) && Role.Download in old(s.ws.files) ==>
              r == Fail(AssertionFailed)
    ensures old(s.CurrentPhase()) == READY && Role.Save !in old(s.ws.files) && Role.Download !in old(s.ws.files)
            && s.padLines.None? ==>
              r == Fail(MissingOption("pad_lines"))
    ensures old(s.CurrentPhase()) == READY && Role.Save !in old(s.ws.files) && Role.Download !in old(s.ws.files)
            && s.padLines.Some? && Config.PadLinesFlag(s.padLines.value).None? ==>
              r == Fail(InvalidBoolean(s.padLines.value))
    ensures r.Pass? <==> CanPull(s, old(s.ws.files), old(s.CurrentPhase()))
    ensures r.Fail? ==> s.ws.files == old(s.ws.files)
    ensures r.Pass? ==> s.ws.files == old(s.ws.files)[Role.Save := Fetched(s, s.ws.remote)]
  {
    r := Cli.CliCheckState(s);
    if r.Fail? {
      return;
    }
    if s.ws.Exists(Role.Save) {
      return Fail(SavedCopyExists);
    }
    r := s.Download();
    if r.Fail? {
      return;
    }
    var renamed := s.ws.Rename(Role.Download, Role.Save);
    assert renamed;
    assert s.ws.files == old(s.ws.files)[Role.Save := Fetched(s, s.ws.remote)];
  }

  /**
   * cli_pull as written: the final copy calls shutil, which the module never
   * imports, so every pull that gets past the rename stops with a NameError,
   * leaving the download as the ancestor and the working file as it was.
   */
  method CliPullAsWritten(s: State.Sync) returns (r: Outcome<Error>)
    modifies s`loaded, s`phase, s`command, s.ws`files
    ensures r.Fail?
    ensures r == Fail(NameError("shutil")) <==> CanPull(s, old(s.ws.files), old(s.CurrentPhase()))
    ensures r == Fail(NameError("shutil")) ==>
              s.ws.files == old(s.ws.files)[Role.Save := Fetched(s, s.ws.remote)]
              && (Role.Local in old(s.ws.files) <==> Role.Local in s.ws.files)
              && (Role.Local in old(s.ws.files) ==> s.ws.files[Role.Local] == old(s.ws.files)[Role.Local])
    ensures r != Fail(NameError("shutil")) ==> s.ws.files == old(s.ws.files)
  {
    r := FetchAncestor(s);
    if r.Pass? {
      r := Fail(NameError("shutil"));
    }
  }

  /**
   * cli_pull as intended: from READY only and only without an ancestor; the
   * sheet is downloaded, becomes the ancestor, and is copied to the working
   * file. The status and command are never changed.
   */
  method CliPull(s: State.Sync) returns (r: Outcome<Error>)
    modifies s`loaded, s`phase, s`command, s.ws`files
    ensures s.CurrentPhase() == old(s.CurrentPhase()) && s.CurrentCommand() == old(s.CurrentCommand())
    ensures s.ws.statusSection == old(s.ws.statusSection)
    ensures old(s.CurrentPhase()) != READY ==> r == Fail(WrongState(READY, old(s.CurrentPhase())))
    ensures old(s.CurrentPhase()) == READY && Role.Save in old(s.ws.files) ==> r == Fail(SavedCopyExists)
    ensures old(s.CurrentPhase()) == READY && Role.Save !in old(s.ws.files) && Role.Download in old(s.ws.files) ==>
              r == Fail(AssertionFailed)
    ensures old(s.CurrentPhase()) == READY && Role.Save !in old(s.ws.files) && Role.Download !in old(s.ws.files)
            && s.padLines.None? ==>
              r == Fail(MissingOption("pad_lines"))
    ensures old(s.CurrentPhase()) == READY && Role.Save !in old(s.ws.files) && Role.Download !in old(s.ws.files)
            && s.padLines.Some? && Config.PadLinesFlag(s.padLines.value).None? ==>
              r == Fail(InvalidBoolean(s.padLines.value))
    ensures r.Pass? <==> CanPull(s, old(s.ws.files), old(s.CurrentPhase()))
    ensures r.Fail? ==> s.ws.files == old(s.ws.files)
    ensures r.Pass? ==>
              var download := Fetched(s, s.ws.remote);
              Role.Download !in s.ws.files
              && s.ws.files == old(s.ws.files)[Role.Save := download][Role.Local := download]
  {
    r := FetchAncestor(s);
    if r.Fail? {
      return;
    }
    var copied := s.ws.Copy(Role.Save, Role.Local);
    assert copied;
  }
}
