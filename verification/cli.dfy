/**
 * The command-line recipes of csvsync/cli.py over the state.py Sync: the
 * configuration lookup, the state check, abort and the status read.
 */
module Cli {
  import opened Wrappers
  import opened Staging
  import Config
  import State

  /** find_config: the section for a file name, or an error exit when no section matches. */
  function FindConfig(cfg: Config.Config, filename: string): (r: Result<Config.FileConfig, Error>)
    ensures r.Failure? <==>
              forall i :: 0 <= i < |cfg.sections| ==> !Config.Matches(cfg.defaults, cfg.sections[i], filename)
    ensures r.Failure? ==> r.error == NoMatchingConfig(filename)
    ensures r.Success? ==>
              r.value.section.name != Config.DEFAULT_SECTION && r.value.defaults == cfg.defaults
              && exists i :: 0 <= i < |cfg.sections| && cfg.sections[i] == r.value.section
                             && Config.Matches(cfg.defaults, cfg.sections[i], filename)
                             && forall j :: 0 <= j < i ==> !Config.Matches(cfg.defaults, cfg.sections[j], filename)
  {
    Config.GetItemSpec(cfg, filename);
    match Config.GetItem(cfg, filename)
    case None => Failure(NoMatchingConfig(filename))
    case Some(fc) => Success(fc)
  }

  /** cli_check_state: an error unless the phase is the expected one (READY by default); nothing is written. */
  method CliCheckState(s: State.Sync, expected: string := READY) returns (r: Outcome<Error>)
    modifies s`loaded, s`phase, s`command
    ensures r.Pass? <==> old(s.CurrentPhase()) == expected
    ensures r.Fail? ==> r.error == WrongState(expected, old(s.CurrentPhase()))
    ensures s.CurrentPhase() == old(s.CurrentPhase()) && s.CurrentCommand() == old(s.CurrentCommand())
    ensures unchanged(s.ws)
  {
    var status := s.Status();
    r := if status != expected then Fail(WrongState(expected, status)) else Pass;
  }

  /**
   * cli_abort: only from RESOLVE; drops Download and Merge if present, keeps
   * Local and Save, and sets READY as a bare phase, so the command stays.
   */
  method CliAbort(s: State.Sync) returns (r: Outcome<Error>)
    modifies s`loaded, s`phase, s`command, s.ws`files, s.ws`statusSection
    ensures old(s.CurrentPhase()) != RESOLVE ==>
              r == Fail(AbortRefused(old(s.CurrentPhase())))
              && s.ws.files == old(s.ws.files) && s.ws.statusSection == old(s.ws.statusSection)
    ensures old(s.CurrentPhase()) == RESOLVE ==>
              r == Pass
              && s.ws.files == old(s.ws.files) - {Role.Download, Role.Merge}
              && s.phase == READY && s.command == old(s.CurrentCommand())
              && s.ws.statusSection == old(s.ws.statusSection)[STATUS_KEY := READY][COMMAND_KEY := old(s.CurrentCommand())]
  {
    var status := s.Status();
    if status != RESOLVE {
      return Fail(AbortRefused(status));
    }
    if s.ws.Exists(Role.Download) {
      var ok := s.ws.Unlink(Role.Download);
    }
    if s.ws.Exists(Role.Merge) {
      var ok := s.ws.Unlink(Role.Merge);
    }
    s.SetStatus(State.Bare(READY));
    r := Pass;
  }

  /** cli_status: the phase as a read returns it; no file and no record changes. */
  method CliStatus(s: State.Sync) returns (status: string)
    modifies s`loaded, s`phase, s`command
    ensures status == old(s.CurrentPhase())
    ensures s.CurrentPhase() == old(s.CurrentPhase()) && s.CurrentCommand() == old(s.CurrentCommand())
    ensures unchanged(s.ws)
  {
    status := s.Status();
  }
}
