/** The launch session of the launcher's window (src/app/gui.rs,
    `EventHandler::run_client`, the task it spawns, and
    `EventHandler::terminate`) as a sequential transition system.

    The handler keeps two slots, the running instance (which owns the
    sending end of the cancel channel) and the join handle of the spawned
    task. The spawned task is an event of its own, `FinishTask`, that may
    fire at any point while the task is pending; `terminate` awaits the task,
    so it fires the pending task's remaining run itself. The page callbacks
    the task and `terminate` fire are recorded in a trace. */
module Session {
  import opened Base
  import Cloud
  import Launch

  /** `RunnerInstance`: the sending end of the cancel channel of one session. */
  datatype Runner = Runner(session: nat)

  /** The `JoinHandle` of one session's task. */
  datatype Handle = Handle(session: nat)

  /** The spawned task before it has run: its session, the requested build
      id and the launching parameter it captured. */
  datatype Task = Task(session: nat, buildId: i32, parameter: Launch.LaunchingParameter)

  /** What `prelauncher::launch` reports; it is not part of this model, so
      its outcome is an input. */
  datatype LaunchOutcome = LaunchOk | LaunchErr(message: string)

  /** What the task meets when it runs: the result of loading all builds
      (an error as its message) and the outcome of the launch. */
  datatype TaskRun = TaskRun(fetched: Result<seq<Cloud.Build>, string>, launch: LaunchOutcome)

  /** A call made on behalf of a session: a page callback, the launch, or
      the cancel signal sent by `terminate`. */
  datatype Effect =
    | ErrorCalled(session: nat, message: string)
    | LaunchCalled(session: nat, build: Cloud.Build, parameter: Launch.LaunchingParameter)
    | FinalizationCalled(session: nat)
    | CancelSent(session: nat)

  /** The two slots, the task still to run (if any), the number the next
      session gets, and every effect so far. */
  datatype State = State(
    runner: Option<Runner>,
    joinHandle: Option<Handle>,
    pending: Option<Task>,
    nextSession: nat,
    trace: seq<Effect>)

  /** Why the window's handler panics (`unwrap` on a failed send, on a
      missing join handle). */
  datatype Panic = CancelReceiverDropped | JoinHandleMissing

  /** Both slots empty, as the window creates the handler. */
  function Initial(): State {
    State(None, None, None, 0, [])
  }

  const BUILD_NOT_FOUND: string := "unable to find build"

  /** The task reaches its last lines (the slot clear and the finalization)
      only when the builds load and one of them has the requested id. */
  predicate ReachesEnd(t: Task, run: TaskRun) {
    run.fetched.Ok? && Launch.FindBuild(run.fetched.value, t.buildId).Some?
  }

  /** The calls the task makes, in order: one error and an early return when
      the builds do not load or the build is missing; otherwise the launch,
      an error if the launch failed, and the finalization. */
  function TaskEffects(t: Task, run: TaskRun): (es: seq<Effect>)
    ensures 1 <= |es| <= 3
    ensures forall i :: 0 <= i < |es| ==> es[i].session == t.session
    ensures !ReachesEnd(t, run) ==> |es| == 1 && es[0].ErrorCalled?
    ensures ReachesEnd(t, run) ==>
      && es[0] == LaunchCalled(t.session, Launch.FindBuild(run.fetched.value, t.buildId).value, t.parameter)
      && es[|es| - 1] == FinalizationCalled(t.session)
      && (|es| == 3 <==> run.launch.LaunchErr?)
      && (run.launch.LaunchErr? ==> es[1] == ErrorCalled(t.session, run.launch.message))
  {
    match run.fetched
    case Err(message) => [ErrorCalled(t.session, message)]
    case Ok(builds) =>
      match Launch.FindBuild(builds, t.buildId)
      case None => [ErrorCalled(t.session, BUILD_NOT_FOUND)]
      case Some(build) =>
        [LaunchCalled(t.session, build, t.parameter)]
        + (if run.launch.LaunchErr? then [ErrorCalled(t.session, run.launch.message)] else [])
        + [FinalizationCalled(t.session)]
  }

  /** The task's first step: `load_all_builds`, a failure turned into its
      message by `describe` (the error's text is not part of this model). */
  function LoadedBuilds(get: string -> Result<Cloud.Response, string>, describe: Cloud.LoadError -> string)
    : Result<seq<Cloud.Build>, string>
  {
    match Cloud.LoadAllBuilds(get)
    case Ok(builds) => Ok(builds)
    case Err(e) => Err(describe(e))
  }

  /** When the catalog serves a list holding a build with the requested id,
      the task launches the first such build and goes on to its final path. */
  lemma ServedBuildIsLaunched(
    t: Task, get: string -> Result<Cloud.Response, string>, describe: Cloud.LoadError -> string,
    builds: seq<Cloud.Build>, status: nat, launch: LaunchOutcome, i: nat)
    requires !(400 <= status < 600)
    requires get(Cloud.AllBuildsUrl())
      == Ok(Cloud.Response(status, Some(Cloud.EncodeBuilds(builds))))
    requires i < |builds| && builds[i].buildId == Launch.AsU32(t.buildId)
    ensures var run := TaskRun(LoadedBuilds(get, describe), launch);
      && ReachesEnd(t, run)
      && TaskEffects(t, run)[0] == LaunchCalled(t.session, Launch.FindBuild(builds, t.buildId).value, t.parameter)
  {
    Cloud.LoadAllBuildsOfServedList(get, builds, status);
  }

  /** The spawned task runs: it clears the runner slot only on its final
      path and never touches the join-handle slot. Nothing happens when no
      task is pending. */
  function FinishTask(st: State, run: TaskRun): (r: State)
    ensures r.pending.None?
    ensures r.joinHandle == st.joinHandle && r.nextSession == st.nextSession
    ensures |r.trace| >= |st.trace| && r.trace[..|st.trace|] == st.trace
    ensures st.pending.None? ==> r == st
    ensures st.pending.Some? ==> (r.runner.None? <==> st.runner.None? || ReachesEnd(st.pending.value, run))
    ensures st.pending.Some? ==> (r.runner.Some? ==> r.runner == st.runner)
  {
    match st.pending
    case None => st
    case Some(t) =>
      st.(pending := None,
          runner := if ReachesEnd(t, run) then None else st.runner,
          trace := st.trace + TaskEffects(t, run))
  }

  /** `run_client`: with an occupied runner slot nothing happens; otherwise
      a new session is started, its task spawned and both slots filled. The
      answer is `true` either way. */
  function RunClient(st: State, buildId: i32, account: Launch.ScriptValue): (r: (State, bool))
    ensures r.1
    ensures st.runner.Some? ==> r.0 == st
  {
    if st.runner.Some? then (st, true)
    else
      var s := st.nextSession;
      (st.(runner := Some(Runner(s)),
           joinHandle := Some(Handle(s)),
           pending := Some(Task(s, buildId, Launch.MakeLaunchingParameter(account))),
           nextSession := s + 1), true)
  }

  /** `terminate`: take the runner slot and, if it held an instance, send the
      cancel signal, which fails when the task has already returned and
      dropped its receiver; then take the join handle, which fails when the
      slot is empty, and await the task, which runs as `finish` says. */
  function Terminate(st: State, finish: TaskRun): (r: (State, Option<Panic>))
    ensures r.0.runner.None?
    ensures r.1 == Some(CancelReceiverDropped) <==> Stuck(st)
    ensures r.1 == Some(JoinHandleMissing) <==> !Stuck(st) && st.joinHandle.None?
    ensures r.1.None? ==> r.0.joinHandle.None? && r.0.pending.None?
    ensures r.0.nextSession == st.nextSession
    ensures |r.0.trace| >= |st.trace| && r.0.trace[..|st.trace|] == st.trace
  {
    var taken := st.(runner := None);
    if st.runner.Some? && st.pending.None? then (taken, Some(CancelReceiverDropped))
    else
      var signalled :=
        if st.runner.Some? then taken.(trace := taken.trace + [CancelSent(st.runner.value.session)])
        else taken;
      match st.joinHandle
      case None => (signalled, Some(JoinHandleMissing))
      case Some(_) => (FinishTask(signalled.(joinHandle := None), finish), None)
  }

  /** The task has returned early but its instance still occupies the slot. */
  predicate Stuck(st: State) {
    st.runner.Some? && st.pending.None?
  }

  /** The kind of an effect, without its data. */
  datatype Kind = ErrorKind | LaunchKind | FinalizationKind | CancelKind

  function KindOf(e: Effect): Kind {
    match e
    case ErrorCalled(_, _) => ErrorKind
    case LaunchCalled(_, _, _) => LaunchKind
    case FinalizationCalled(_) => FinalizationKind
    case CancelSent(_) => CancelKind
  }

  /** The kinds of the effects of session `s`, in trace order. */
  function Project(trace: seq<Effect>, s: nat): seq<Kind>
    decreases |trace|
  {
    if trace == [] then []
    else
      var last := trace[|trace| - 1];
      Project(trace[..|trace| - 1], s) + (if last.session == s then [KindOf(last)] else [])
  }

  lemma {:induction false} ProjectAppend(a: seq<Effect>, b: seq<Effect>, s: nat)
    ensures Project(a + b, s) == Project(a, s) + Project(b, s)
    decreases |b|
  {
    if b != [] {
      assert (a + b)[..|a + b| - 1] == a + b[..|b| - 1];
      var last := b[|b| - 1];
      var tail := if last.session == s then [KindOf(last)] else [];
      assert (a + b)[|a + b| - 1] == last;
      ProjectAppend(a, b[..|b| - 1], s);
      calc {
        Project(a + b, s);
        Project(a + b[..|b| - 1], s) + tail;
        Project(a, s) + Project(b[..|b| - 1], s) + tail;
        Project(a, s) + (Project(b[..|b| - 1], s) + tail);
      }
    } else {
      assert a + b == a;
    }
  }

  lemma ProjectSingle(e: Effect, s: nat)
    ensures Project([e], s) == if e.session == s then [KindOf(e)] else []
  {
    assert [e][..0] == [];
  }

  /** How a finished task's calls look, per session. */
  predicate Outcome(p: seq<Kind>) {
    || p == [ErrorKind]
    || p == [LaunchKind, FinalizationKind]
    || p == [LaunchKind, ErrorKind, FinalizationKind]
  }

  /** The whole record of one session: nothing yet, or the task's calls,
      preceded by the cancel signal when `terminate` ended the session. */
  predicate SessionLog(p: seq<Kind>) {
    || p == []
    || Outcome(p)
    || (|p| > 0 && p[0] == CancelKind && Outcome(p[1..]))
  }

  /** The kinds of the calls a task makes. */
  function TaskKinds(t: Task, run: TaskRun): (p: seq<Kind>)
    ensures Outcome(p)
    ensures p == [ErrorKind] <==> !ReachesEnd(t, run)
  {
    if !ReachesEnd(t, run) then [ErrorKind]
    else if run.launch.LaunchErr? then [LaunchKind, ErrorKind, FinalizationKind]
    else [LaunchKind, FinalizationKind]
  }

  lemma ProjectTaskEffects(t: Task, run: TaskRun, s: nat)
    ensures Project(TaskEffects(t, run), s) == if s == t.session then TaskKinds(t, run) else []
  {
    var es := TaskEffects(t, run);
    if !ReachesEnd(t, run) {
      var message := if run.fetched.Err? then run.fetched.error else BUILD_NOT_FOUND;
      assert es == [ErrorCalled(t.session, message)];
      ProjectSingle(ErrorCalled(t.session, message), s);
    } else {
      var build := Launch.FindBuild(run.fetched.value, t.buildId).value;
      var launch := LaunchCalled(t.session, build, t.parameter);
      var fin := FinalizationCalled(t.session);
      var mid := if run.launch.LaunchErr? then [ErrorCalled(t.session, run.launch.message)] else [];
      assert es == [launch] + mid + [fin];
      ProjectAppend([launch] + mid, [fin], s);
      ProjectAppend([launch], mid, s);
      ProjectSingle(launch, s);
      ProjectSingle(fin, s);
      if run.launch.LaunchErr? {
        ProjectSingle(mid[0], s);
      }
    }
  }

  /** What every reachable state satisfies: the runner and the join handle
      belong to the same started session; a pending task belongs to the
      running session and has made no call yet; a stuck session has made
      exactly its one error call; sessions not yet started have no effects;
      and every session's record has the shape of `SessionLog`. */
  ghost predicate Inv(st: State) {
    && (st.runner.Some? ==>
          && st.runner.value.session < st.nextSession
          && st.joinHandle == Some(Handle(st.runner.value.session)))
    && (st.joinHandle.Some? ==> st.joinHandle.value.session < st.nextSession)
    && (st.pending.Some? ==>
          && st.runner == Some(Runner(st.pending.value.session))
          && Project(st.trace, st.pending.value.session) == [])
    && (Stuck(st) ==> Project(st.trace, st.runner.value.session) == [ErrorKind])
    && (forall s: nat :: s >= st.nextSession ==> Project(st.trace, s) == [])
    && (forall s: nat :: SessionLog(Project(st.trace, s)))
  }

  lemma InitialInv()
    ensures Inv(Initial())
    ensures Initial().runner.None? && Initial().joinHandle.None?
  {
  }

  /** `run_client` keeps the invariant; on an empty slot it starts a session
      no effect has mentioned yet, with its task pending. */
  lemma RunClientKeepsInv(st: State, buildId: i32, account: Launch.ScriptValue)
    requires Inv(st)
    ensures Inv(RunClient(st, buildId, account).0)
    ensures st.runner.None? ==>
      var r := RunClient(st, buildId, account).0;
      && r.pending == Some(Task(st.nextSession, buildId, Launch.MakeLaunchingParameter(account)))
      && Project(r.trace, st.nextSession) == []
      && r.trace == st.trace
  {
  }

  /** The task keeps the invariant; after it the session is either stuck
      (early return) or idle (final path). */
  lemma FinishTaskKeepsInv(st: State, run: TaskRun)
    requires Inv(st)
    ensures Inv(FinishTask(st, run))
    ensures st.pending.Some? ==> FinishTask(st, run).pending.None?
  {
    if st.pending.Some? {
      var t := st.pending.value;
      var r := FinishTask(st, run);
      var k := TaskKinds(t, run);
      assert t.session < st.nextSession;
      assert r.trace == st.trace + TaskEffects(t, run);
      forall s: nat
        ensures SessionLog(Project(r.trace, s))
        ensures s >= r.nextSession ==> Project(r.trace, s) == []
        ensures s == t.session ==> Project(r.trace, s) == k
      {
        ProjectAppend(st.trace, TaskEffects(t, run), s);
        ProjectTaskEffects(t, run, s);
        if s == t.session {
          assert Project(r.trace, s) == k;
        } else {
          assert Project(r.trace, s) == Project(st.trace, s);
        }
      }
    }
  }

  /** An early return (builds not loaded, or no build with the id) makes one
      error call and leaves the session stuck: the runner slot stays
      occupied, so every later `run_client` is a no-op, and no finalization
      is called. */
  lemma EarlyReturnLeavesSlotOccupied(st: State, run: TaskRun, buildId: i32, account: Launch.ScriptValue)
    requires Inv(st) && st.pending.Some? && !ReachesEnd(st.pending.value, run)
    ensures var r := FinishTask(st, run);
      && Stuck(r)
      && r.runner == st.runner && r.joinHandle == st.joinHandle
      && RunClient(r, buildId, account) == (r, true)
      && (run.fetched.Err? ==> r.trace == st.trace + [ErrorCalled(st.pending.value.session, run.fetched.error)])
      && (run.fetched.Ok? ==> r.trace == st.trace + [ErrorCalled(st.pending.value.session, BUILD_NOT_FOUND)])
  {
  }

  /** A failed `load_all_builds` is reported to the page with the load
      error's own text, and nothing else happens in the task. */
  lemma LoadFailureReportsItsText(
    t: Task, get: string -> Result<Cloud.Response, string>, describe: Cloud.LoadError -> string, launch: LaunchOutcome)
    requires Cloud.LoadAllBuilds(get).Err?
    ensures TaskEffects(t, TaskRun(LoadedBuilds(get, describe), launch))
      == [ErrorCalled(t.session, describe(Cloud.LoadAllBuilds(get).error))]
  {
  }

  /** When the task finds its build, it launches the first build with the
      requested id (read as a `u32`) with the captured parameter, makes at
      most one error call, clears the runner slot, keeps the join handle and
      calls the finalization last. */
  lemma LaunchPathClearsAndFinalizes(st: State, run: TaskRun)
    requires Inv(st) && st.pending.Some? && ReachesEnd(st.pending.value, run)
    ensures var t := st.pending.value;
      var r := FinishTask(st, run);
      var build := Launch.FindBuild(run.fetched.value, t.buildId).value;
      && r.runner.None? && r.pending.None?
      && r.joinHandle == st.joinHandle
      && build.buildId == Launch.AsU32(t.buildId)
      && |r.trace| > |st.trace| + 1
      && r.trace[..|st.trace| + 1] == st.trace + [LaunchCalled(t.session, build, t.parameter)]
      && r.trace[|r.trace| - 1] == FinalizationCalled(t.session)
      && (run.launch.LaunchOk? ==> r.trace == st.trace + [LaunchCalled(t.session, build, t.parameter), FinalizationCalled(t.session)])
      && (run.launch.LaunchErr? ==>
            r.trace == st.trace + [LaunchCalled(t.session, build, t.parameter), ErrorCalled(t.session, run.launch.message), FinalizationCalled(t.session)])
  {
    var t := st.pending.value;
    var r := FinishTask(st, run);
    var build := Launch.FindBuild(run.fetched.value, t.buildId).value;
    assert r.trace[..|st.trace| + 1] == st.trace + [LaunchCalled(t.session, build, t.parameter)];
  }

  /** `terminate` keeps the invariant, whether it panics or not. */
  lemma TerminateKeepsInv(st: State, finish: TaskRun)
    requires Inv(st)
    ensures Inv(Terminate(st, finish).0)
  {
    if st.pending.Some? {
      TerminatePendingKeepsInv(st, finish);
    } else if st.runner.None? && st.joinHandle.Some? {
      assert Terminate(st, finish).0 == st.(joinHandle := None);
    }
  }

  lemma TerminatePendingKeepsInv(st: State, finish: TaskRun)
    requires Inv(st) && st.pending.Some?
    ensures Inv(Terminate(st, finish).0)
  {
    var t := st.pending.value;
    var es := [CancelSent(t.session)] + TaskEffects(t, finish);
    var k := [CancelKind] + TaskKinds(t, finish);
    var r := Terminate(st, finish).0;
    TerminateRunning(st, finish);
    assert r.trace == st.trace + es;
    assert t.session < st.nextSession;
    assert k[1..] == TaskKinds(t, finish);
    assert SessionLog(k);
    forall s: nat
      ensures SessionLog(Project(r.trace, s))
      ensures s >= r.nextSession ==> Project(r.trace, s) == []
    {
      ProjectAppend(st.trace, es, s);
      ProjectAppend([CancelSent(t.session)], TaskEffects(t, finish), s);
      ProjectSingle(CancelSent(t.session), s);
      ProjectTaskEffects(t, finish, s);
      if s == t.session {
        assert Project(r.trace, s) == k;
      } else {
        assert Project(r.trace, s) == Project(st.trace, s);
      }
    }
  }

  /** While the task is pending, `terminate` sends the cancel signal, then
      awaits the task and leaves both slots empty. */
  lemma TerminateRunning(st: State, finish: TaskRun)
    requires Inv(st) && st.pending.Some?
    ensures var r := Terminate(st, finish);
      && r.1.None?
      && r.0.runner.None? && r.0.joinHandle.None? && r.0.pending.None?
      && r.0.trace == st.trace + [CancelSent(st.pending.value.session)] + TaskEffects(st.pending.value, finish)
  {
  }

  /** On a stuck session `terminate` panics: the task has dropped the
      receiving end, so the send fails; no cancel signal is recorded. */
  lemma TerminateStuckPanics(st: State, finish: TaskRun)
    requires Stuck(st)
    ensures Terminate(st, finish).1 == Some(CancelReceiverDropped)
    ensures Terminate(st, finish).0.trace == st.trace
  {
  }

  /** With an empty runner slot `terminate` sends nothing; it awaits the
      join handle if there is one and panics if there is none. */
  lemma TerminateIdle(st: State, finish: TaskRun)
    requires Inv(st) && st.runner.None?
    ensures Terminate(st, finish).0.trace == st.trace
    ensures Terminate(st, finish).1 == if st.joinHandle.None? then Some(JoinHandleMissing) else None
    ensures Terminate(st, finish).0.joinHandle.None?
  {
  }

  /** `terminate` before any `run_client` panics on the missing join handle. */
  lemma TerminateFirstPanics(finish: TaskRun)
    ensures Terminate(Initial(), finish).1 == Some(JoinHandleMissing)
  {
  }

  /** A second `terminate` right after one that returned panics: the first
      took the join handle and nothing put it back. */
  lemma {:induction false} SecondTerminatePanics(st: State, f: TaskRun, g: TaskRun)
    requires Inv(st) && Terminate(st, f).1.None?
    ensures Terminate(Terminate(st, f).0, g).1 == Some(JoinHandleMissing)
  {
    var r := Terminate(st, f).0;
    assert r.joinHandle.None?;
    if st.pending.None? {
      assert r.runner.None?;
    } else {
      assert r.runner.None? by {
        var t := st.pending.value;
        assert Terminate(st, f).0 == FinishTask(st.(runner := None, joinHandle := None,
          trace := st.trace + [CancelSent(t.session)]), f);
      }
    }
  }

  /** A state that has just been terminated without panicking accepts a new
      `run_client`, which starts the next session. */
  lemma RestartAfterTerminate(st: State, f: TaskRun, buildId: i32, account: Launch.ScriptValue)
    requires Inv(st) && Terminate(st, f).1.None?
    ensures var r := Terminate(st, f).0;
      RunClient(r, buildId, account).0.pending == Some(Task(r.nextSession, buildId, Launch.MakeLaunchingParameter(account)))
  {
    var r := Terminate(st, f).0;
    TerminateKeepsInv(st, f);
    assert r.runner.None? by {
      if st.pending.Some? {
        var t := st.pending.value;
        assert r == FinishTask(st.(runner := None, joinHandle := None,
          trace := st.trace + [CancelSent(t.session)]), f);
      }
    }
  }

  /** In every state the invariant admits, no session makes the same kind
      of call twice (one error at most, one finalization at most); the
      finalization is called exactly when the launch was, and last; a cancel
      signal comes before everything else of its session. */
  lemma SessionCallbacks(st: State, s: nat)
    requires Inv(st)
    ensures var p := Project(st.trace, s);
      && (forall i, j :: 0 <= i < j < |p| ==> p[i] != p[j])
      && (FinalizationKind in p <==> LaunchKind in p)
      && (FinalizationKind in p ==> p[|p| - 1] == FinalizationKind)
      && (CancelKind in p ==> p[0] == CancelKind)
  {
    SessionLogCases(Project(st.trace, s));
  }

  /** The seven records a session can have. */
  lemma SessionLogCases(p: seq<Kind>)
    requires SessionLog(p)
    ensures || p == [] || p == [ErrorKind] || p == [CancelKind, ErrorKind]
            || p == [LaunchKind, FinalizationKind] || p == [CancelKind, LaunchKind, FinalizationKind]
            || p == [LaunchKind, ErrorKind, FinalizationKind]
            || p == [CancelKind, LaunchKind, ErrorKind, FinalizationKind]
  {
    if p != [] && !Outcome(p) {
      assert p == [CancelKind] + p[1..];
    }
  }

  /** One event: a call from the page or a run of the pending task. */
  datatype Op =
    | RunClientOp(buildId: i32, account: Launch.ScriptValue)
    | TaskOp(run: TaskRun)
    | TerminateOp(finish: TaskRun)

  function Exec(st: State, op: Op): (State, Option<Panic>) {
    match op
    case RunClientOp(buildId, account) => (RunClient(st, buildId, account).0, None)
    case TaskOp(run) => (FinishTask(st, run), None)
    case TerminateOp(finish) => Terminate(st, finish)
  }

  /** A sequence of events; a panic ends it. */
  function Run(st: State, ops: seq<Op>): (State, Option<Panic>)
    decreases |ops|
  {
    if ops == [] then (st, None)
    else
      var (next, panic) := Exec(st, ops[0]);
      if panic.Some? then (next, panic) else Run(next, ops[1..])
  }

  lemma {:induction false} RunKeepsInv(st: State, ops: seq<Op>)
    requires Inv(st)
    ensures Inv(Run(st, ops).0)
    decreases |ops|
  {
    if ops != [] {
      match ops[0] {
        case RunClientOp(buildId, account) => RunClientKeepsInv(st, buildId, account);
        case TaskOp(run) => FinishTaskKeepsInv(st, run);
        case TerminateOp(finish) => TerminateKeepsInv(st, finish);
      }
      RunKeepsInv(Exec(st, ops[0]).0, ops[1..]);
    }
  }

  /** Every state the window can reach from its creation satisfies the
      invariant, so `SessionCallbacks` holds for every session of it. */
  lemma ReachableInv(ops: seq<Op>)
    ensures Inv(Run(Initial(), ops).0)
  {
    RunKeepsInv(Initial(), ops);
  }

  /** A stuck session stays stuck, unchanged, through any events other than
      `terminate`: `run_client` and the (finished) task do nothing. */
  lemma {:induction false} StuckIsPermanent(st: State, ops: seq<Op>)
    requires Stuck(st)
    requires forall i :: 0 <= i < |ops| ==> !ops[i].TerminateOp?
    ensures Run(st, ops) == (st, None)
    decreases |ops|
  {
    if ops != [] {
      assert Exec(st, ops[0]) == (st, None);
      StuckIsPermanent(st, ops[1..]);
    }
  }
}
