/**
 * The self-contained Sync class of csvsync/sync.py: a status that is absent,
 * READY or MERGING, and the pull, push, sync, abort and merge steps over the
 * staged files. The status record holds only the phase here.
 */
module Sync {
  import opened Wrappers
  import opened Staging
  import Config
  import Gsheet

  /** The three inputs of a merge are on disk. */
  predicate MergeInputs(files: map<Role, Content>)
  {
    Role.Save in files && Role.Local in files && Role.Download in files
  }

  /** The first input merge_files fails to open: the ancestor, then branch A, then branch B. */
  function FirstMissingInput(files: map<Role, Content>): Role
  {
    if Role.Save !in files then Role.Save
    else if Role.Local !in files then Role.Local
    else Role.Download
  }

  /** The merge with the saved ancestor as base, the local file as branch A and the download as branch B. */
  function MergeOf(merge: MergeEngine, files: map<Role, Content>, key: string): MergeResult
    requires MergeInputs(files)
  {
    merge(files[Role.Save], files[Role.Local], files[Role.Download], key)
  }

  /** The files once merge_complete has promoted the merge output: Save and Local hold it, Merge is gone. */
  function Promoted(files: map<Role, Content>): map<Role, Content>
    requires Role.Merge in files
  {
    (files - {Role.Merge})[Role.Save := files[Role.Merge]][Role.Local := files[Role.Merge]]
  }

  /** merge_complete skips the upload: the download is still there and equals the new saved copy. */
  predicate UploadSkipped(files: map<Role, Content>)
    requires Role.Merge in files
  {
    Role.Download in files && files[Role.Download] == files[Role.Merge]
  }

  class Sync {
    const ws: Workspace
    /** The `key` option of the file's configuration, if set. */
    const key: Option<string>

    constructor (ws: Workspace, key: Option<string>)
      ensures this.ws == ws && this.key == key
    {
      this.ws := ws;
      this.key := key;
    }

    /**
     * __init__: reads `syncdir`, then `filename` for the staged files' base
     * name; a missing option is a KeyError. The key is read later, by the merge.
     */
    static method Open(ws: Workspace, fc: Config.FileConfig) returns (r: Result<Sync, Error>)
      ensures !Config.Has(fc, "syncdir") ==> r == Failure(MissingOption("syncdir"))
      ensures Config.Has(fc, "syncdir") && !Config.Has(fc, "filename") ==> r == Failure(MissingOption("filename"))
      ensures Config.Has(fc, "syncdir") && Config.Has(fc, "filename") ==>
                r.Success? && fresh(r.value) && r.value.ws == ws && r.value.key == Config.Get(fc, "key")
    {
      if !Config.Has(fc, "syncdir") {
        return Failure(MissingOption("syncdir"));
      }
      if !Config.Has(fc, "filename") {
        return Failure(MissingOption("filename"));
      }
      var s := new Sync(ws, Config.Get(fc, "key"));
      r := Success(s);
    }

    /** The recorded phase; None when the status section has none. */
    function Status(): (r: Option<string>)
      reads ws
      ensures r.None? <==> STATUS_KEY !in ws.statusSection
      ensures r.Some? ==> r.value == ws.statusSection[STATUS_KEY]
    {
      if STATUS_KEY in ws.statusSection then Some(ws.statusSection[STATUS_KEY]) else None
    }

    /** No operation is under way: no status recorded, or READY. */
    predicate Idle()
      reads ws
    {
      Status() == None || Status() == Some(READY)
    }

    /** The status setter: records the phase and rewrites the status file; other options are kept. */
    method SetStatus(value: string)
      modifies ws`statusSection
      ensures ws.statusSection == old(ws.statusSection)[STATUS_KEY := value]
      ensures Status() == Some(value)
    {
      ws.statusSection := ws.statusSection[STATUS_KEY := value];
    }

    /** Fetches the sheet into Download (padded: this variant keeps save_to_csv's default); Download must be absent. */
    method Download() returns (r: Outcome<Error>)
      modifies ws`files
      ensures r.Pass? <==> Role.Download !in old(ws.files)
      ensures r.Fail? ==> r.error == AssertionFailed && ws.files == old(ws.files)
      ensures r.Pass? ==> ws.files == old(ws.files)[Role.Download := Gsheet.Padded(ws.remote, true)]
    {
      if ws.Exists(Role.Download) {
        return Fail(AssertionFailed);
      }
      ws.SaveToCsv(Role.Download, true);
      r := Pass;
    }

    /** Removes Download; fails when it is missing. */
    method CleanupDownload() returns (r: Outcome<Error>)
      modifies ws`files
      ensures r == if Role.Download in old(ws.files) then Pass else Fail(FileNotFound(Role.Download))
      ensures ws.files == old(ws.files) - {Role.Download}
    {
      var ok := ws.Unlink(Role.Download);
      r := if ok then Pass else Fail(FileNotFound(Role.Download));
    }

    /** Sends Save to the sheet; Save must exist. */
    method Upload() returns (r: Outcome<Error>)
      modifies ws`remote, ws`uploads
      ensures r.Pass? <==> Role.Save in ws.files
      ensures r.Fail? ==> r.error == AssertionFailed && ws.remote == old(ws.remote) && ws.uploads == old(ws.uploads)
      ensures r.Pass? ==> ws.remote == ws.files[Role.Save] && ws.uploads == old(ws.uploads) + [ws.files[Role.Save]]
    {
      if !ws.Exists(Role.Save) {
        return Fail(AssertionFailed);
      }
      var ok := ws.LoadFromCsv(Role.Save);
      assert ok;
      r := Pass;
    }

    /**
     * sync(): download the sheet, merge it with the local file against the saved
     * ancestor, complete a clean merge at once, and always remove the download.
     */
    method Synchronize(merge: MergeEngine) returns (r: Outcome<Error>)
      modifies ws
      ensures !old(Idle()) ==> r == Fail(InProgress(old(Status()))) && unchanged(ws)
      ensures old(Idle()) && Role.Save !in old(ws.files) ==> r == Fail(NoSavedCopy) && unchanged(ws)
      ensures old(Idle()) && Role.Save in old(ws.files) && key.None? ==> r == Fail(NoPrimaryKey) && unchanged(ws)
      ensures old(Idle()) && Role.Save in old(ws.files) && key.Some? && Role.Download in old(ws.files) ==>
                r == Fail(AssertionFailed) && unchanged(ws)
      // From here on the sheet was downloaded, and the download is removed again in every case.
      ensures old(Idle()) && Role.Save in old(ws.files) && key.Some? && Role.Download !in old(ws.files) ==>
                Role.Download !in ws.files
      ensures old(Idle()) && Role.Save in old(ws.files) && key.Some? && Role.Download !in old(ws.files)
              && Role.Local !in old(ws.files) ==>
                r == Fail(FileNotFound(Role.Local)) && ws.files == old(ws.files)
                && ws.statusSection == old(ws.statusSection)[STATUS_KEY := MERGING]
                && ws.remote == old(ws.remote) && ws.uploads == old(ws.uploads)
      ensures old(Idle()) && Role.Save in old(ws.files) && key.Some? && Role.Download !in old(ws.files)
              && Role.Local in old(ws.files) ==>
                var download := Gsheet.Padded(old(ws.remote), true);
                var m := merge(old(ws.files)[Role.Save], old(ws.files)[Role.Local], download, key.value);
                r == Pass
                && (m.conflict ==>
                      ws.files == old(ws.files)[Role.Merge := m.output]
                      && ws.statusSection == old(ws.statusSection)[STATUS_KEY := MERGING]
                      && ws.remote == old(ws.remote) && ws.uploads == old(ws.uploads))
                && (!m.conflict ==>
                      ws.files == (old(ws.files) - {Role.Merge})[Role.Save := m.output][Role.Local := m.output]
                      && ws.statusSection == old(ws.statusSection)[STATUS_KEY := READY]
                      && if m.output == download then ws.remote == old(ws.remote) && ws.uploads == old(ws.uploads)
                         else ws.remote == m.output && ws.uploads == old(ws.uploads) + [m.output])
    {
      var status := Status();
      if status != None && status != Some(READY) {
        return Fail(InProgress(status));
      }
      if !ws.Exists(Role.Save) {
        return Fail(NoSavedCopy);
      }
      if key.None? {
        return Fail(NoPrimaryKey);
      }
      r := Download();
      if r.Fail? {
        return;
      }
      // try:
      var result := MergeFiles(merge);
      var raised: Option<Error> := None;
      if result.Failure? {
        raised := Some(result.error);
      } else if result.value {
        var completed := MergeComplete();
        assert completed.Pass?;
      }
      // finally:
      var cleaned := CleanupDownload();
      assert cleaned.Pass?;
      r := if raised.Some? then Fail(raised.value) else Pass;
    }

    /** pull(): the first download of a file; Save and Local both receive the sheet. The status is not touched. */
    method Pull() returns (r: Outcome<Error>)
      modifies ws`files
      ensures !old(Idle()) ==> r == Fail(InProgress(old(Status()))) && ws.files == old(ws.files)
      ensures old(Idle()) && Role.Save in old(ws.files) ==> r == Fail(SavedCopyExists) && ws.files == old(ws.files)
      ensures old(Idle()) && Role.Save !in old(ws.files) && Role.Download in old(ws.files) ==>
                r == Fail(AssertionFailed) && ws.files == old(ws.files)
      ensures old(Idle()) && Role.Save !in old(ws.files) && Role.Download !in old(ws.files) ==>
                var download := Gsheet.Padded(ws.remote, true);
                r == Pass && Role.Download !in ws.files
                && ws.files == old(ws.files)[Role.Save := download][Role.Local := download]
    {
      var status := Status();
      if status != None && status != Some(READY) {
        return Fail(InProgress(status));
      }
      if ws.Exists(Role.Save) {
        return Fail(SavedCopyExists);
      }
      r := Download();
      if r.Fail? {
        return;
      }
      var renamed := ws.Rename(Role.Download, Role.Save);
      assert renamed;
      var copied := ws.Copy(Role.Save, Role.Local);
      assert copied;
    }

    /** push(): Local becomes the saved ancestor and is sent to the sheet. The status is not touched. */
    method Push() returns (r: Outcome<Error>)
      modifies ws`files, ws`remote, ws`uploads
      ensures !old(Idle()) ==>
                r == Fail(InProgress(old(Status())))
                && ws.files == old(ws.files) && ws.remote == old(ws.remote) && ws.uploads == old(ws.uploads)
      ensures old(Idle()) && Role.Local !in old(ws.files) ==>
                r == Fail(LocalNotFound)
                && ws.files == old(ws.files) && ws.remote == old(ws.remote) && ws.uploads == old(ws.uploads)
      ensures old(Idle()) && Role.Local in old(ws.files) ==>
                var local := old(ws.files)[Role.Local];
                r == Pass && ws.files == old(ws.files)[Role.Save := local]
                && ws.remote == local && ws.uploads == old(ws.uploads) + [local]
    {
      var status := Status();
      if status != None && status != Some(READY) {
        return Fail(InProgress(status));
      }
      if !ws.Exists(Role.Local) {
        return Fail(LocalNotFound);
      }
      var copied := ws.Copy(Role.Local, Role.Save);
      assert copied;
      r := Upload();
      assert r.Pass?;
    }

    /** abort(): leaves a merge, dropping Download and Merge; Local and Save are kept. */
    method Abort() returns (r: Outcome<Error>)
      modifies ws`files, ws`statusSection
      ensures old(Status()) != Some(MERGING) ==>
                r == Fail(NoSyncInProgress(old(Status())))
                && ws.files == old(ws.files) && ws.statusSection == old(ws.statusSection)
      ensures old(Status()) == Some(MERGING) ==>
                r == Pass
                && ws.files == old(ws.files) - {Role.Download, Role.Merge}
                && ws.statusSection == old(ws.statusSection)[STATUS_KEY := READY]
    {
      var status := Status();
      if status != Some(MERGING) {
        return Fail(NoSyncInProgress(status));
      }
      if ws.Exists(Role.Download) {
        var ok := ws.Unlink(Role.Download);
      }
      if ws.Exists(Role.Merge) {
        var ok := ws.Unlink(Role.Merge);
      }
      SetStatus(READY);
      r := Pass;
    }

    /**
     * merge_files(): records MERGING, then merges Save (ancestor), Local (A) and
     * Download (B) into Merge; the result is true when there was no conflict.
     */
    method MergeFiles(merge: MergeEngine) returns (r: Result<bool, Error>)
      modifies ws`files, ws`statusSection
      ensures ws.statusSection == old(ws.statusSection)[STATUS_KEY := MERGING]
      ensures key.None? ==> r == Failure(MissingOption("key")) && ws.files == old(ws.files)
      ensures key.Some? && !MergeInputs(old(ws.files)) ==>
                r == Failure(FileNotFound(FirstMissingInput(old(ws.files)))) && ws.files == old(ws.files)
      ensures key.Some? && MergeInputs(old(ws.files)) ==>
                var m := MergeOf(merge, old(ws.files), key.value);
                r == Success(!m.conflict) && ws.files == old(ws.files)[Role.Merge := m.output]
    {
      SetStatus(MERGING);
      if key.None? {
        return Failure(MissingOption("key"));
      }
      if !ws.Exists(Role.Save) {
        return Failure(FileNotFound(Role.Save));
      }
      if !ws.Exists(Role.Local) {
        return Failure(FileNotFound(Role.Local));
      }
      if !ws.Exists(Role.Download) {
        return Failure(FileNotFound(Role.Download));
      }
      var m := merge(ws.files[Role.Save], ws.files[Role.Local], ws.files[Role.Download], key.value);
      ws.files := ws.files[Role.Merge := m.output];
      r := Success(!m.conflict);
    }

    /**
     * merge_complete(): the merge output becomes the new ancestor and the local
     * file, is uploaded unless the download is still there and identical, and
     * the phase returns to READY.
     */
    method MergeComplete() returns (r: Outcome<Error>)
      modifies ws
      ensures old(Status()) != Some(MERGING) ==> r == Fail(MergeNotInProgress(old(Status()))) && unchanged(ws)
      ensures old(Status()) == Some(MERGING) && Role.Merge !in old(ws.files) ==>
                r == Fail(FileNotFound(Role.Merge)) && unchanged(ws)
      ensures old(Status()) == Some(MERGING) && Role.Merge in old(ws.files) ==>
                var output := old(ws.files)[Role.Merge];
                r == Pass && ws.files == Promoted(old(ws.files))
                && ws.statusSection == old(ws.statusSection)[STATUS_KEY := READY]
                && if UploadSkipped(old(ws.files)) then ws.remote == old(ws.remote) && ws.uploads == old(ws.uploads)
                   else ws.remote == output && ws.uploads == old(ws.uploads) + [output]
    {
      var status := Status();
      if status != Some(MERGING) {
        return Fail(MergeNotInProgress(status));
      }
      var renamed := ws.Rename(Role.Merge, Role.Save);
      if !renamed {
        return Fail(FileNotFound(Role.Merge));
      }
      var copied := ws.Copy(Role.Save, Role.Local);
      assert copied;
      if ws.Exists(Role.Download) && ws.files[Role.Download] == ws.files[Role.Save] {
        // No changes pending against the remote file.
      } else {
        r := Upload();
        assert r.Pass?;
      }
      SetStatus(READY);
      r := Pass;
    }
  }

  /** A pull straight after a successful push is refused: the push left a saved ancestor behind. */
  method PullAfterPush(s: Sync) returns (pushed: Outcome<Error>, pulled: Outcome<Error>)
    modifies s.ws
    ensures pushed.Pass? ==> pulled == Fail(SavedCopyExists)
    ensures pushed.Pass? ==>
              Role.Local in old(s.ws.files) && s.ws.files == old(s.ws.files)[Role.Save := old(s.ws.files)[Role.Local]]
  {
    pushed := s.Push();
    pulled := s.Pull();
  }
}
