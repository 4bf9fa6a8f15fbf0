/** service/src/ipc_server.cpp: the start / serve_one / stop handshake, as a state machine
    whose steps are the atomic actions of the threads.

    One thread calls serve_one() again and again; any number of threads call stop() at any
    time; start() never overlaps a stop() that is tearing the server down. */
module IpcLifecycle {

  // ---- State ------------------------------------------------------------------------

  /** Where the serving thread is. Await(k) and Issue(k): k I/O operations of the message in
      progress remain, the next one about to be issued, or issued and awaited. */
  datatype ServerPc =
    | Outside
    | LockedCheck                  // enter_serve holds serve_mtx, running not yet read
    | LockedMark                   // running read as true, serving not yet set
    | ConnectIssue
    | ConnectAwait
    | LoopCheck                    // at the head of serve_session's loop
    | Issue(k: nat)
    | Await(k: nat)
    | Disconnect
    | Leave                        // leave_serve, on leaving serve_one's scope

  /** Where one stop() caller is. Returned(won): it did or did not clear running itself. */
  datatype StopPc =
    | Called
    | Cleared                      // running exchanged from true to false
    | Signalled                    // stop event set
    | Waited                       // saw serving false under serve_mtx
    | PipeClosed
    | IoEventClosed
    | Returned(won: bool)

  /** A handle: whether it is open, and how often it was closed since the last start. */
  datatype Handle = Handle(open: bool, closes: nat)

  datatype State = State(
    running: bool,
    serving: bool,
    serverHoldsLock: bool,
    pipe: Handle,
    ioEvent: Handle,
    stopEvent: Handle,
    stopSignalled: bool,
    server: ServerPc,
    stops: map<nat, StopPc>,
    starting: bool,                // start() has the handles but has not yet set running
    finished: nat)                 // messages finished since running was cleared

  const CLOSED := Handle(false, 0)
  const FRESH := Handle(true, 0)

  const Init := State(false, false, false, CLOSED, CLOSED, CLOSED, false, Outside, map[], false, 0)

  // ---- Steps ---------------------------------------------------------------------------

  /** A stop() caller that cleared running and has not yet returned. */
  predicate TearingDown(pc: StopPc) {
    pc in {Cleared, Signalled, Waited, PipeClosed, IoEventClosed}
  }

  predicate NobodyTearsDown(s: State) {
    forall i <- s.stops :: !TearingDown(s.stops[i])
  }

  datatype Step =
    | StartOpens                   // start(): all handles created
    | StartRuns                    // start(): running = true
    | Serve                        // the serving thread's next action, when it does not branch
    | BeginMessage(k: nat)         // running read as true; the message will need k operations
    | IoDone                       // the awaited operation completed
    | IoFails                      // it failed, or could not be issued
    | IoCancelled                  // the stop event woke the wait
    | StopCalled(id: nat)
    | StopRuns(id: nat)

  /** Handles the serving thread uses in its next action. */
  predicate UsesHandles(pc: ServerPc) {
    pc.ConnectIssue? || pc.ConnectAwait? || pc.Issue? || pc.Await? || pc.Disconnect?
  }

  /** After the last operation of a message the loop tests running again. */
  function AfterIo(s: State, k: nat): State {
    if k <= 1 then s.(server := LoopCheck, finished := if s.running then s.finished else s.finished + 1)
    else s.(server := Issue(k - 1))
  }

  predicate Enabled(s: State, step: Step) {
    match step
    case StartOpens => !s.running && !s.starting && NobodyTearsDown(s)
    case StartRuns => s.starting
    case Serve =>
      && (s.server.Outside? ==> !s.serverHoldsLock)
      && (s.server.LoopCheck? ==> !s.running)
      && !s.server.Await? && !s.server.ConnectAwait?
    case BeginMessage(k) => s.server.LoopCheck? && s.running && k > 0
    case IoDone => s.server.Await? || s.server.ConnectAwait?
    case IoFails => s.server.Await? || s.server.ConnectAwait? || s.server.Issue? || s.server.ConnectIssue?
    case IoCancelled => (s.server.Await? || s.server.ConnectAwait?) && s.stopSignalled
    case StopCalled(id) => id !in s.stops
    case StopRuns(id) =>
      id in s.stops && !s.stops[id].Returned? && (s.stops[id].Signalled? ==> !s.serving && !s.serverHoldsLock)
  }

  function Close(h: Handle): Handle {
    Handle(false, h.closes + 1)
  }

  /** The serving thread's own actions. */
  function ServeStep(s: State): State {
    match s.server
    case Outside => s.(server := LockedCheck, serverHoldsLock := true)
    case LockedCheck =>
      if s.running then s.(server := LockedMark) else s.(server := Outside, serverHoldsLock := false)
    case LockedMark => s.(server := ConnectIssue, serving := true, serverHoldsLock := false)
    case ConnectIssue => s.(server := ConnectAwait)
    case LoopCheck => s.(server := Disconnect)
    case Issue(k) => s.(server := Await(k))
    case Disconnect => s.(server := Leave)
    case Leave => s.(server := Outside, serving := false)
    case _ => s
  }

  function StopStep(s: State, id: nat): State
    requires id in s.stops
  {
    match s.stops[id]
    case Called =>
      if s.running then s.(running := false, stops := s.stops[id := Cleared])
      else s.(stops := s.stops[id := Returned(false)])
    case Cleared => s.(stopSignalled := true, stops := s.stops[id := Signalled])
    case Signalled => s.(stops := s.stops[id := Waited])
    case Waited => s.(pipe := Close(s.pipe), stops := s.stops[id := PipeClosed])
    case PipeClosed => s.(ioEvent := Close(s.ioEvent), stops := s.stops[id := IoEventClosed])
    case IoEventClosed => s.(stopEvent := Close(s.stopEvent), stops := s.stops[id := Returned(true)])
    case Returned(_) => s
  }

  function Next(s: State, step: Step): State
    requires Enabled(s, step)
  {
    match step
    case StartOpens =>
      s.(pipe := FRESH, ioEvent := FRESH, stopEvent := FRESH, stopSignalled := false, starting := true, finished := 0)
    case StartRuns => s.(running := true, starting := false)
    case Serve => ServeStep(s)
    case BeginMessage(k) => s.(server := Issue(k))
    case IoDone => if s.server.ConnectAwait? then s.(server := LoopCheck) else AfterIo(s, s.server.k)
    case IoFails => s.(server := if s.server.ConnectAwait? || s.server.ConnectIssue? then Leave else Disconnect)
    case IoCancelled => s.(server := if s.server.ConnectAwait? then Leave else Disconnect)
    case StopCalled(id) => s.(stops := s.stops[id := Called])
    case StopRuns(id) => StopStep(s, id)
  }

  ghost predicate IsRun(s: State, steps: seq<Step>)
    decreases |steps|
  {
    steps == [] || (Enabled(s, steps[0]) && IsRun(Next(s, steps[0]), steps[1..]))
  }

  ghost function Run(s: State, steps: seq<Step>): State
    requires IsRun(s, steps)
    decreases |steps|
  {
    if steps == [] then s else Run(Next(s, steps[0]), steps[1..])
  }

  // ---- Invariant -------------------------------------------------------------------------

  /** Between leaving enter_serve's test of running and leave_serve. */
  predicate Inside(s: State) {
    s.serving || s.server.LockedMark?
  }

  predicate InMessage(pc: ServerPc) {
    pc.Issue? || pc.Await?
  }

  predicate ServerConsistent(s: State) {
    && (s.serving <==> s.server !in {Outside, LockedCheck, LockedMark})
    && (s.serverHoldsLock <==> s.server in {LockedCheck, LockedMark})
    && (InMessage(s.server) ==> s.server.k > 0)
  }

  /** Which handles a caller tearing the server down has closed so far. */
  predicate HandlesAt(s: State, pc: StopPc) {
    && s.pipe == (if pc in {PipeClosed, IoEventClosed} then Handle(false, 1) else FRESH)
    && s.ioEvent == (if pc == IoEventClosed then Handle(false, 1) else FRESH)
    && s.stopEvent == FRESH
  }

  predicate AllFresh(s: State) {
    s.pipe == FRESH && s.ioEvent == FRESH && s.stopEvent == FRESH
  }

  predicate AllClosed(s: State) {
    && !s.pipe.open && !s.ioEvent.open && !s.stopEvent.open
    && s.pipe.closes <= 1 && s.ioEvent.closes <= 1 && s.stopEvent.closes <= 1
  }

  /** What one caller in the middle of stop() may rely on. */
  predicate TearDownConsistent(s: State, pc: StopPc) {
    && !s.running && !s.starting
    && HandlesAt(s, pc)
    && (pc in {Waited, PipeClosed, IoEventClosed} ==> !Inside(s))
    && (pc != Cleared ==> s.stopSignalled)
  }

  predicate Inv(s: State) {
    && ServerConsistent(s)
    && (forall i <- s.stops | TearingDown(s.stops[i]) :: TearDownConsistent(s, s.stops[i]))
    && (forall i, j | i in s.stops && j in s.stops && TearingDown(s.stops[i]) && TearingDown(s.stops[j]) :: i == j)
    && (s.running || s.starting ==> AllFresh(s) && NobodyTearsDown(s) && s.finished == 0)
    && (s.starting ==> !s.running && !Inside(s))
    && (!s.running && !s.starting && NobodyTearsDown(s) ==> AllClosed(s) && !Inside(s))
    && s.finished + (if !s.running && InMessage(s.server) then 1 else 0) <= 1
  }

  lemma StopKeepsInv(s: State, id: nat)
    requires Inv(s) && Enabled(s, StopRuns(id))
    ensures Inv(Next(s, StopRuns(id)))
  {
    if s.stops[id] == Called {
      CallKeepsInv(s, id);
    } else {
      TearDownKeepsInv(s, id);
    }
  }

  lemma CallKeepsInv(s: State, id: nat)
    requires Inv(s) && id in s.stops && s.stops[id] == Called
    ensures Inv(StopStep(s, id))
  {
    hide Inv;
    if s.running {
      FirstCallKeepsInv(s, id);
    } else {
      LateCallKeepsInv(s, id);
    }
  }

  lemma FirstCallKeepsInv(s: State, id: nat)
    requires Inv(s) && id in s.stops && s.stops[id] == Called && s.running
    ensures Inv(StopStep(s, id))
  {
    var s' := StopStep(s, id);
    assert forall i <- s'.stops | i != id :: s'.stops[i] == s.stops[i] && !TearingDown(s'.stops[i]);
    assert TearDownConsistent(s', Cleared);
    assert id in s'.stops && TearingDown(s'.stops[id]);
  }

  lemma LateCallKeepsInv(s: State, id: nat)
    requires Inv(s) && id in s.stops && s.stops[id] == Called && !s.running
    ensures Inv(StopStep(s, id))
  {
    hide TearDownConsistent, ServerConsistent, AllFresh, AllClosed;
    var s' := StopStep(s, id);
    assert forall i <- s'.stops | i != id :: s'.stops[i] == s.stops[i];
    assert NobodyTearsDown(s') <==> NobodyTearsDown(s);
    assert forall i <- s'.stops | TearingDown(s'.stops[i]) :: i != id && TearDownConsistent(s, s'.stops[i]);
    StopsIrrelevant(s, s');
  }

  lemma StopsIrrelevant(s: State, s': State)
    requires s' == s.(stops := s'.stops)
    ensures ServerConsistent(s') == ServerConsistent(s) && AllFresh(s') == AllFresh(s) && AllClosed(s') == AllClosed(s)
    ensures forall pc :: TearDownConsistent(s', pc) == TearDownConsistent(s, pc)
  {}

  /** While one caller tears the server down no other does. */
  lemma TearDownKeepsInv(s: State, id: nat)
    requires Inv(s) && id in s.stops && TearingDown(s.stops[id])
    requires s.stops[id].Signalled? ==> !s.serving && !s.serverHoldsLock
    ensures Inv(StopStep(s, id))
  {
    var s' := StopStep(s, id);
    assert TearDownConsistent(s, s.stops[id]);
    assert forall i <- s.stops | i != id :: !TearingDown(s.stops[i]);
    assert forall i <- s'.stops | i != id :: !TearingDown(s'.stops[i]);
    assert TearingDown(s'.stops[id]) ==> TearDownConsistent(s', s'.stops[id]);
  }

  lemma NewCallerKeepsInv(s: State, id: nat)
    requires Inv(s) && id !in s.stops
    ensures Inv(s.(stops := s.stops[id := Called]))
  {
    hide TearDownConsistent, ServerConsistent, AllFresh, AllClosed;
    var s' := s.(stops := s.stops[id := Called]);
    assert forall i <- s'.stops | TearingDown(s'.stops[i]) :: i in s.stops && s'.stops[i] == s.stops[i];
    assert NobodyTearsDown(s') <==> NobodyTearsDown(s);
    StopsIrrelevant(s, s');
  }

  lemma ServerKeepsInv(s: State, step: Step)
    requires Inv(s) && Enabled(s, step) && !step.StopRuns?
    ensures Inv(Next(s, step))
  {
    if step.StopCalled? {
      NewCallerKeepsInv(s, step.id);
    }
  }

  lemma {:induction false} RunKeepsInv(s: State, steps: seq<Step>)
    requires Inv(s) && IsRun(s, steps)
    ensures Inv(Run(s, steps))
    decreases |steps|
  {
    hide Inv, Enabled, Next;
    if steps != [] {
      if steps[0].StopRuns? {
        StopKeepsInv(s, steps[0].id);
      } else {
        ServerKeepsInv(s, steps[0]);
      }
      RunKeepsInv(Next(s, steps[0]), steps[1..]);
    }
  }

  lemma InitInv()
    ensures Inv(Init)
  {}

  // ---- Main results ---------------------------------------------------------------------------

  /** In every interleaving: the serving thread only ever uses open handles; a stop() caller
      signals and closes only open handles; no handle is closed twice per start; and at most
      the message in progress is finished after running was cleared. */
  lemma EveryInterleavingSafe(steps: seq<Step>)
    requires IsRun(Init, steps)
    ensures var s := Run(Init, steps);
      && (UsesHandles(s.server) ==> s.pipe.open && s.ioEvent.open && s.stopEvent.open)
      && (forall i <- s.stops ::
            && (s.stops[i] in {Cleared, IoEventClosed} ==> s.stopEvent.open)
            && (s.stops[i] == Waited ==> s.pipe.open)
            && (s.stops[i] == PipeClosed ==> s.ioEvent.open))
      && s.pipe.closes <= 1 && s.ioEvent.closes <= 1 && s.stopEvent.closes <= 1
      && s.finished <= 1
  {
    InitInv();
    RunKeepsInv(Init, steps);
  }

  /** When the caller that cleared running returns, the server has left the pipe and every
      handle has been closed, exactly once. */
  lemma WinnerReturnsStopped(steps: seq<Step>, s: State, id: nat)
    requires IsRun(Init, steps) && s == Run(Init, steps)
    requires id in s.stops && s.stops[id] != Returned(true) && StopStep(s, id).stops[id] == Returned(true)
    ensures var s' := StopStep(s, id);
      && !s'.serving && !s'.running && s'.server in {Outside, LockedCheck}
      && s'.pipe == s'.ioEvent == s'.stopEvent == Handle(false, 1)
  {
    InitInv();
    RunKeepsInv(Init, steps);
    assert TearDownConsistent(s, s.stops[id]);
  }

  /** How far the serving thread is from leaving once running is false. */
  function Rank(pc: ServerPc): nat {
    match pc
    case Outside => 0
    case LockedCheck => 1
    case LockedMark => 6
    case ConnectIssue => 5
    case ConnectAwait => 4
    case LoopCheck => 3
    case Issue(k) => 2 * k + 3
    case Await(k) => 2 * k + 2
    case Disconnect => 2
    case Leave => 1
  }

  predicate ServerStep(step: Step) {
    step.Serve? || step.BeginMessage? || step.IoDone? || step.IoFails? || step.IoCancelled?
  }

  /** Once running is cleared, every action of a server still inside brings it closer to
      leaving, and none of anybody else's moves it back. */
  lemma ServerLeaves(s: State, step: Step)
    requires Inv(s) && Enabled(s, step) && !s.running && !s.starting && !step.StartOpens?
    ensures ServerStep(step) && s.server != Outside ==> Rank(Next(s, step).server) < Rank(s.server)
    ensures !ServerStep(step) ==> Next(s, step).server == s.server
    ensures !Next(s, step).running
  {}

  /** A stop() caller waiting for the server is never stuck: either it may go on, or the
      server has a next action whatever the client does, its pending I/O being cancellable. */
  lemma WaitingStopNotStuck(s: State, id: nat)
    requires Inv(s) && id in s.stops && s.stops[id] == Signalled
    ensures Enabled(s, StopRuns(id)) || Enabled(s, Serve) || Enabled(s, IoCancelled)
  {
    assert TearDownConsistent(s, s.stops[id]);
  }

  /** Hence from every reachable state in which a caller waits, some continuation of server
      actions alone lets it through. */
  lemma {:induction false} StopGetsThrough(s: State, id: nat) returns (steps: seq<Step>)
    requires Inv(s) && id in s.stops && s.stops[id] == Signalled
    ensures IsRun(s, steps) && forall step <- steps :: ServerStep(step)
    ensures Enabled(Run(s, steps), StopRuns(id))
    decreases Rank(s.server)
  {
    assert TearDownConsistent(s, s.stops[id]);
    if Enabled(s, StopRuns(id)) {
      steps := [];
    } else {
      var step := if s.server.Await? || s.server.ConnectAwait? then IoCancelled else Serve;
      assert Enabled(s, step);
      ServerLeaves(s, step);
      ServerKeepsInv(s, step);
      var rest := StopGetsThrough(Next(s, step), id);
      steps := [step] + rest;
      assert steps[1..] == rest;
    }
  }

  /** Where the serving thread may come from. */
  predicate ComesFrom(running: bool, before: ServerPc, step: Step, pc: ServerPc) {
    match pc
    case Outside => before == Leave || (before == LockedCheck && !running)
    case LockedCheck => before == Outside
    case LockedMark => before == LockedCheck && running
    case ConnectIssue => before == LockedMark
    case ConnectAwait => before == ConnectIssue
    case LoopCheck => (before == ConnectAwait || InMessage(before)) && step == IoDone
    case Issue(k) => (before == LoopCheck && running) || before == Await(k + 1)
    case Await(k) => before == Issue(k)
    case Disconnect => InMessage(before) || (before == LoopCheck && !running)
    case Leave => before in {Disconnect, ConnectIssue, ConnectAwait}
  }

  lemma ServePath(s: State)
    requires Enabled(s, Serve) && ServeStep(s).server != s.server
    ensures ComesFrom(s.running, s.server, Serve, ServeStep(s).server)
  {}

  /** The way of the serving thread: it takes the lock, marks itself, connects, and only after a
      completed connect enters a session; a session is disconnected before it leaves, however
      it ends, and a connect that fails or is cancelled leaves without. */
  lemma ServerPath(s: State, step: Step)
    requires Enabled(s, step) && Next(s, step).server != s.server
    ensures ComesFrom(s.running, s.server, step, Next(s, step).server)
  {
    hide ServeStep, StopStep, NobodyTearsDown;
    if step.Serve? {
      ServePath(s);
    } else if step.StopRuns? {
      StopLeavesServer(s, step.id);
    }
  }

  lemma StopLeavesServer(s: State, id: nat)
    requires id in s.stops
    ensures StopStep(s, id).server == s.server
  {}

  /** A new stop event is not signalled. */
  predicate NotSignalledYet(s: State) {
    s.running || s.starting ==> !s.stopSignalled
  }

  lemma StepKeepsUnsignalled(s: State, step: Step)
    requires Inv(s) && NotSignalledYet(s) && Enabled(s, step)
    ensures NotSignalledYet(Next(s, step))
  {
    if step.StopRuns? && TearingDown(s.stops[step.id]) {
      assert TearDownConsistent(s, s.stops[step.id]);
    }
  }

  lemma {:induction false} RunKeepsUnsignalled(s: State, steps: seq<Step>)
    requires Inv(s) && NotSignalledYet(s) && IsRun(s, steps)
    ensures NotSignalledYet(Run(s, steps))
    decreases |steps|
  {
    hide Inv, Enabled, Next, NotSignalledYet;
    if steps != [] {
      StepKeepsUnsignalled(s, steps[0]);
      RunKeepsInv(s, [steps[0]]) by { OneStep(s, steps[0]); }
      OneStep(s, steps[0]);
      RunKeepsUnsignalled(Next(s, steps[0]), steps[1..]);
    }
  }

  lemma OneStep(s: State, step: Step)
    requires Enabled(s, step)
    ensures IsRun(s, [step]) && Run(s, [step]) == Next(s, step)
  {
    assert [step][1..] == [];
  }

  /** In every interleaving a server that was not stopped is never cancelled, after a restart
      either. */
  lemma OnlyStopCancels(steps: seq<Step>)
    requires IsRun(Init, steps)
    ensures Enabled(Run(Init, steps), IoCancelled) ==> !Run(Init, steps).running
  {
    InitInv();
    RunKeepsUnsignalled(Init, steps);
  }

  /** What the header promises every caller of stop(): the server has left the pipe, and
      every handle is closed. */
  predicate Stopped(s: State) {
    && !s.serving && s.server in {Outside, LockedCheck}
    && !s.pipe.open && !s.ioEvent.open && !s.stopEvent.open
  }

  /** Exactly when a returning caller finds the promise kept: it cleared running itself, or
      nobody was starting or tearing down the server when it found running clear. */
  lemma ReturnsStoppedExactly(steps: seq<Step>, s: State, id: nat)
    requires IsRun(Init, steps) && s == Run(Init, steps)
    requires Enabled(s, StopRuns(id)) && StopStep(s, id).stops[id].Returned?
    ensures Stopped(StopStep(s, id)) <==> s.stops[id] == IoEventClosed || (!s.starting && NobodyTearsDown(s))
  {
    InitInv();
    RunKeepsInv(Init, steps);
    if s.stops[id] == IoEventClosed {
      WinnerReturnsStopped(steps, s, id);
    } else if !NobodyTearsDown(s) {
      var i :| i in s.stops && TearingDown(s.stops[i]);
      assert TearDownConsistent(s, s.stops[i]);
    }
  }

  /** It does fail: here a second caller returns while the first is still tearing down and
      the server awaits an operation in the middle of a client's message. */
  lemma LateCallerReturnsEarly() returns (steps: seq<Step>)
    ensures IsRun(Init, steps)
    ensures var s := Run(Init, steps);
      s.stops == map[0 := Cleared, 1 := Returned(false)] && s.serving && s.server == Await(2) && s.pipe.open
  {
    hide IsRun, Run;
    var s1 := Next(Next(Init, StartOpens), StartRuns);
    var s2 := Next(Next(Next(s1, Serve), Serve), Serve);
    var s3 := Next(Next(s2, Serve), IoDone);
    var s4 := Next(Next(s3, BeginMessage(2)), Serve);
    var late := TwoCallers(s4);
    var r3 := RunTwo(s3, BeginMessage(2), Serve, late);
    var r2 := RunTwo(s2, Serve, IoDone, r3);
    RunCons(Next(Next(s1, Serve), Serve), Serve, r2);
    var r1 := RunTwo(s1, Serve, Serve, [Serve] + r2);
    steps := RunTwo(Init, StartOpens, StartRuns, r1);
  }

  lemma RunTwo(s: State, first: Step, second: Step, rest: seq<Step>) returns (steps: seq<Step>)
    requires Enabled(s, first) && Enabled(Next(s, first), second)
    requires IsRun(Next(Next(s, first), second), rest)
    ensures IsRun(s, steps) && Run(s, steps) == Run(Next(Next(s, first), second), rest)
  {
    hide IsRun, Run, Enabled, Next;
    RunCons(Next(s, first), second, rest);
    RunCons(s, first, [second] + rest);
    steps := [first] + ([second] + rest);
  }

  lemma TwoCallers(s: State) returns (steps: seq<Step>)
    requires s.running && s.stops == map[]
    ensures IsRun(s, steps)
    ensures Run(s, steps) == s.(running := false, stops := map[0 := Cleared, 1 := Returned(false)])
  {
    hide IsRun, Run;
    var a := Next(s, StopCalled(0));
    var b := Next(a, StopCalled(1));
    var c := Next(b, StopRuns(0));
    var d := Next(c, StopRuns(1));
    assert d.stops == map[0 := Cleared, 1 := Returned(false)];
    RunNothing(d);
    RunCons(c, StopRuns(1), []);
    var r1 := [StopRuns(1)] + [];
    RunCons(b, StopRuns(0), r1);
    var r2 := [StopRuns(0)] + r1;
    RunCons(a, StopCalled(1), r2);
    var r3 := [StopCalled(1)] + r2;
    RunCons(s, StopCalled(0), r3);
    steps := [StopCalled(0)] + r3;
  }

  lemma RunNothing(s: State)
    ensures IsRun(s, []) && Run(s, []) == s
  {}

  lemma RunCons(s: State, step: Step, rest: seq<Step>)
    requires Enabled(s, step) && IsRun(Next(s, step), rest)
    ensures IsRun(s, [step] + rest) && Run(s, [step] + rest) == Run(Next(s, step), rest)
  {
    hide Enabled, Next;
    var steps := [step] + rest;
    assert steps[1..] == rest;
  }
}
