/**
 * The sync recipe of csvsync/cli_sync.py. The recipe drives a sync.py Sync;
 * its READY to MERGING guard is the state.py one, so the model runs the two
 * objects over one shared workspace: the guard on the state.py object, the
 * download, merge, completion and cleanup on the sync.py object.
 */
module CliSync {
  import opened Wrappers
  import opened Staging
  import Gsheet
  import State
  import Sync

  /** A new sync gets past its checks: an ancestor exists, a key is configured and the phase is READY. */
  predicate Starts(files: map<Role, Content>, key: Option<string>, phase: string)
  {
    Role.Save in files && key.Some? && phase == READY
  }

  /** do_sync_continue: a resumed sync is merge_complete alone. */
  method DoSyncContinue(legacy: Sync.Sync) returns (r: Outcome<Error>)
    modifies legacy.ws
    ensures r.Pass? <==> old(legacy.Status()) == Some(MERGING) && Role.Merge in old(legacy.ws.files)
    ensures r.Fail? ==> unchanged(legacy.ws)
    ensures r.Pass? ==>
              legacy.ws.files == Sync.Promoted(old(legacy.ws.files))
              && legacy.ws.statusSection == old(legacy.ws.statusSection)[STATUS_KEY := READY]
              && if Sync.UploadSkipped(old(legacy.ws.files)) then
                   legacy.ws.remote == old(legacy.ws.remote) && legacy.ws.uploads == old(legacy.ws.uploads)
                 else
                   legacy.ws.remote == old(legacy.ws.files)[Role.Merge]
                   && legacy.ws.uploads == old(legacy.ws.uploads) + [old(legacy.ws.files)[Role.Merge]]
  {
    r := legacy.MergeComplete();
  }

  /**
   * The part of do_sync after the guard: download, merge, complete a clean
   * merge at once, and remove the download in a finally.
   */
  method MergeStarted(legacy: Sync.Sync, merge: MergeEngine) returns (r: Outcome<Error>)
    requires legacy.key.Some? && Role.Save in legacy.ws.files && legacy.Status() == Some(MERGING)
    modifies legacy.ws
    ensures Role.Download in old(legacy.ws.files) ==> r == Fail(AssertionFailed) && unchanged(legacy.ws)
    ensures Role.Download !in old(legacy.ws.files) && Role.Local !in old(legacy.ws.files) ==>
              r == Fail(FileNotFound(Role.Local)) && unchanged(legacy.ws)
    ensures Role.Download !in old(legacy.ws.files) && Role.Local in old(legacy.ws.files) ==>
              var download := Gsheet.Padded(old(legacy.ws.remote), true);
              var m := merge(old(legacy.ws.files)[Role.Save], old(legacy.ws.files)[Role.Local], download, legacy.key.value);
              Role.Download !in legacy.ws.files
              && (m.conflict ==>
                    r == Fail(MergeConflicts)
                    && legacy.ws.files == old(legacy.ws.files)[Role.Merge := m.output]
                    && legacy.ws.statusSection == old(legacy.ws.statusSection)
                    && legacy.ws.remote == old(legacy.ws.remote) && legacy.ws.uploads == old(legacy.ws.uploads))
              && (!m.conflict ==>
                    r == Pass
                    && legacy.ws.files == (old(legacy.ws.files) - {Role.Merge})[Role.Save := m.output][Role.Local := m.output]
                    && legacy.ws.statusSection == old(legacy.ws.statusSection)[STATUS_KEY := READY]
                    && if m.output == download then
                         legacy.ws.remote == old(legacy.ws.remote) && legacy.ws.uploads == old(legacy.ws.uploads)
                       else legacy.ws.remote == m.output && legacy.ws.uploads == old(legacy.ws.uploads) + [m.output])
  {
    r := legacy.Download();
    if r.Fail? {
      return;
    }
    // try:
    var result := legacy.MergeFiles(merge);
    assert legacy.ws.statusSection == old(legacy.ws.statusSection);
    var raised: Option<Error> := None;
    if result.Failure? {
      raised := Some(result.error);
    } else if !result.value {
      raised := Some(MergeConflicts);
    } else {
      var completed := legacy.MergeComplete();
      assert completed.Pass?;
    }
    // finally:
    var cleaned := legacy.CleanupDownload();
    assert cleaned.Pass?;
    assert old(legacy.ws.files)[Role.Download := Gsheet.Padded(old(legacy.ws.remote), true)] - {Role.Download}
        == old(legacy.ws.files);
    r := if raised.Some? then Fail(raised.value) else Pass;
  }

  /**
   * do_sync: with --continue, completes a pending merge and checks nothing
   * else. Otherwise refuses to start without an ancestor or a key, moves
   * READY to MERGING, downloads, merges, completes a clean merge at once and
   * stops on a conflict; the download is removed in every case once made.
   */
  method DoSync(s: State.Sync, legacy: Sync.Sync, continueSync: bool, merge: MergeEngine) returns (r: Outcome<Error>)
    requires s.ws == legacy.ws
    modifies s`loaded, s`phase, s`command, s.ws
    // --continue: the outcome depends on the phase and the merge output only.
    ensures continueSync ==>
              (r.Pass? <==> old(legacy.Status()) == Some(MERGING) && Role.Merge in old(s.ws.files))
              && unchanged(s)
              && (r.Fail? ==> unchanged(s.ws))
              && (r.Pass? ==>
                    s.ws.files == Sync.Promoted(old(s.ws.files))
                    && s.ws.statusSection == old(s.ws.statusSection)[STATUS_KEY := READY]
                    && if Sync.UploadSkipped(old(s.ws.files)) then
                         s.ws.remote == old(s.ws.remote) && s.ws.uploads == old(s.ws.uploads)
                       else s.ws.remote == old(s.ws.files)[Role.Merge]
                            && s.ws.uploads == old(s.ws.uploads) + [old(s.ws.files)[Role.Merge]])
    // A new sync fails before any state or file change without an ancestor or a key.
    ensures !continueSync && Role.Save !in old(s.ws.files) ==>
              r == Fail(NoSavedCopy) && unchanged(s.ws) && unchanged(s)
    ensures !continueSync && Role.Save in old(s.ws.files) && legacy.key.None? ==>
              r == Fail(NoPrimaryKey) && unchanged(s.ws) && unchanged(s)
    ensures !continueSync && Role.Save in old(s.ws.files) && legacy.key.Some? && old(s.CurrentPhase()) != READY ==>
              r == Fail(StateMismatch(old(s.CurrentPhase()), READY)) && unchanged(s.ws)
    // Past the guard: MERGING is recorded before the download and the command is kept.
    ensures !continueSync && Starts(old(s.ws.files), legacy.key, old(s.CurrentPhase())) ==>
              s.phase == MERGING && s.command == old(s.CurrentCommand())
    ensures !continueSync && Starts(old(s.ws.files), legacy.key, old(s.CurrentPhase()))
            && Role.Download in old(s.ws.files) ==>
              r == Fail(AssertionFailed) && s.ws.files == old(s.ws.files)
              && s.ws.statusSection
                 == old(s.ws.statusSection)[STATUS_KEY := MERGING][COMMAND_KEY := old(s.CurrentCommand())]
              && s.ws.remote == old(s.ws.remote) && s.ws.uploads == old(s.ws.uploads)
    ensures !continueSync && Starts(old(s.ws.files), legacy.key, old(s.CurrentPhase()))
            && Role.Download !in old(s.ws.files) && Role.Local !in old(s.ws.files) ==>
              r == Fail(FileNotFound(Role.Local)) && s.ws.files == old(s.ws.files)
              && s.ws.statusSection
                 == old(s.ws.statusSection)[STATUS_KEY := MERGING][COMMAND_KEY := old(s.CurrentCommand())]
              && s.ws.remote == old(s.ws.remote) && s.ws.uploads == old(s.ws.uploads)
    ensures !continueSync && Starts(old(s.ws.files), legacy.key, old(s.CurrentPhase()))
            && Role.Download !in old(s.ws.files) && Role.Local in old(s.ws.files) ==>
              var download := Gsheet.Padded(old(s.ws.remote), true);
              var m := merge(old(s.ws.files)[Role.Save], old(s.ws.files)[Role.Local], download, legacy.key.value);
              Role.Download !in s.ws.files
              && (m.conflict ==>
                    r == Fail(MergeConflicts)
                    && s.ws.files == old(s.ws.files)[Role.Merge := m.output]
                    && s.ws.statusSection
                       == old(s.ws.statusSection)[STATUS_KEY := MERGING][COMMAND_KEY := old(s.CurrentCommand())]
                    && s.ws.remote == old(s.ws.remote) && s.ws.uploads == old(s.ws.uploads))
              && (!m.conflict ==>
                    r == Pass
                    && s.ws.files == (old(s.ws.files) - {Role.Merge})[Role.Save := m.output][Role.Local := m.output]
                    && s.ws.statusSection
                       == old(s.ws.statusSection)[STATUS_KEY := READY][COMMAND_KEY := old(s.CurrentCommand())]
                    && if m.output == download then s.ws.remote == old(s.ws.remote) && s.ws.uploads == old(s.ws.uploads)
                       else s.ws.remote == m.output && s.ws.uploads == old(s.ws.uploads) + [m.output])
  {
    if continueSync {
      r := DoSyncContinue(legacy);
      return;
    }
    if !s.ws.Exists(Role.Save) {
      return Fail(NoSavedCopy);
    }
    if legacy.key.None? {
      return Fail(NoPrimaryKey);
    }
    ghost var section := s.ws.statusSection[STATUS_KEY := MERGING][COMMAND_KEY := s.CurrentCommand()];
    r := s.StateChange(READY, MERGING, None);
    if r.Fail? {
      return;
    }
    assert s.ws.statusSection == section;
    assert section[STATUS_KEY := READY] == old(s.ws.statusSection)[STATUS_KEY := READY][COMMAND_KEY := old(s.CurrentCommand())];
    r := MergeStarted(legacy, merge);
  }

  /**
   * A sync stopped by a conflict has removed its download, so continuing it
   * always uploads the resolved merge output.
   */
  method ContinueAfterConflict(s: State.Sync, legacy: Sync.Sync, merge: MergeEngine)
    returns (first: Outcome<Error>, second: Outcome<Error>)
    requires s.ws == legacy.ws
    modifies s`loaded, s`phase, s`command, s.ws
    ensures first == Fail(MergeConflicts) ==>
              second == Pass && Role.Download !in s.ws.files && Role.Save in s.ws.files && Role.Local in s.ws.files
              && s.ws.remote == s.ws.files[Role.Save] && s.ws.files[Role.Local] == s.ws.files[Role.Save]
              && |s.ws.uploads| == |old(s.ws.uploads)| + 1
  {
    first := DoSync(s, legacy, false, merge);
    second := DoSync(s, legacy, true, merge);
  }
}
