/** The window's script handler (src/app/gui.rs, `EventHandler`): the two
    slots it updates in place, and the spawned task that clears one of them.
    Each method does what the source does step by step and is proved to
    make the transition `Session` defines, so every property proved there
    holds of the handler. */
module Gui {
  import opened Base
  import Launch
  import Session

  class EventHandler {
    /** `runner_instance`: the running session's end of the cancel channel. */
    var runnerInstance: Option<Session.Runner>
    /** `join_handle`: the handle of the last spawned task. */
    var joinHandle: Option<Session.Handle>
    /** The spawned task that has not run yet: the future `run_client` hands
        to the runtime, holding the build id and parameter it captured. */
    var pending: Option<Session.Task>
    /** The number the next session gets; it tells apart the channels and
        tasks of successive sessions. */
    var nextSession: nat
    /** The calls made so far on the page and the launcher, recorded for the
        proofs only. */
    ghost var calls: seq<Session.Effect>

    ghost function State(): Session.State
      reads this
    {
      Session.State(runnerInstance, joinHandle, pending, nextSession, calls)
    }

    ghost predicate Valid()
      reads this
    {
      Session.Inv(State())
    }

    /** The handler as the window creates it: both slots empty. */
    constructor ()
      ensures State() == Session.Initial()
      ensures Valid()
    {
      runnerInstance := None;
      joinHandle := None;
      pending := None;
      nextSession := 0;
      calls := [];
      Session.InitialInv();
    }

    /** `run_client`: return at once when a session occupies the runner
        slot; otherwise build the launching parameter, spawn the task and
        fill both slots. */
    method RunClient(buildId: i32, account: Launch.ScriptValue) returns (accepted: bool)
      requires Valid()
      modifies this
      ensures (State(), accepted) == Session.RunClient(old(State()), buildId, account)
      ensures Valid()
    {
      Session.RunClientKeepsInv(State(), buildId, account);
      if runnerInstance.Some? {
        return true;
      }
      var parameter := Launch.MakeLaunchingParameter(account);
      var session := nextSession;
      nextSession := nextSession + 1;
      pending := Some(Session.Task(session, buildId, parameter));
      runnerInstance := Some(Session.Runner(session));
      joinHandle := Some(Session.Handle(session));
      return true;
    }

    /** The body of the spawned task, run as `run` says: report a failed
        load or a missing build and return; otherwise launch, report a
        failed launch, clear the runner slot and call the finalization. */
    method RunTask(run: Session.TaskRun)
      modifies this
      ensures State() == Session.FinishTask(old(State()), run)
      ensures old(Valid()) ==> Valid()
    {
      ghost var before := State();
      if before.pending.Some? && Session.Inv(before) {
        Session.FinishTaskKeepsInv(before, run);
      }
      if pending.None? {
        return;
      }
      var task := pending.value;
      pending := None;
      var builds;
      match run.fetched {
        case Err(message) =>
          calls := calls + [Session.ErrorCalled(task.session, message)];
          return;
        case Ok(loaded) =>
          builds := loaded;
      }
      var build := Launch.FindBuild(builds, task.buildId);
      if build.None? {
        calls := calls + [Session.ErrorCalled(task.session, Session.BUILD_NOT_FOUND)];
        return;
      }
      calls := calls + [Session.LaunchCalled(task.session, build.value, task.parameter)];
      if run.launch.LaunchErr? {
        calls := calls + [Session.ErrorCalled(task.session, run.launch.message)];
      }
      runnerInstance := None;
      calls := calls + [Session.FinalizationCalled(task.session)];
    }

    /** `terminate`: take the runner slot and send the cancel signal if it
        held an instance (a panic when the task has already returned); then
        take the join handle (a panic when it is missing) and await the task. */
    method Terminate(finish: Session.TaskRun) returns (panic: Option<Session.Panic>)
      requires Valid()
      modifies this
      ensures (State(), panic) == Session.Terminate(old(State()), finish)
      ensures Valid()
    {
      Session.TerminateKeepsInv(State(), finish);
      var instance := runnerInstance;
      runnerInstance := None;
      if instance.Some? {
        if pending.None? {
          return Some(Session.CancelReceiverDropped);
        }
        calls := calls + [Session.CancelSent(instance.value.session)];
      }
      var handle := joinHandle;
      joinHandle := None;
      if handle.None? {
        return Some(Session.JoinHandleMissing);
      }
      RunTask(finish);
      return None;
    }
  }
}
