/** Safety of the stop protocol: no wakeup is lost, and exactly which pass leaves a vCPU stuck. */
module StopSafety {
  import opened Common
  import opened StopProtocol

  /** vCPU state that can no longer sleep in the guest: it is marked stopped, KVM_RUN
      refuses entry, and if it is inside KVM_RUN a signal is pending. */
  predicate Safe(c: Cpu) {
    c.shouldStop && c.immediateExit && (c.pc.InKvm? ==> c.pending)
  }

  predicate AllSafe(s: State) {
    forall j :: 0 <= j < |s.cpus| ==> Safe(s.cpus[j])
  }

  /** A vCPU asleep in the guest with nothing on its way to wake it. */
  predicate Stuck(c: Cpu) {
    c.pc.InKvm? && !c.pending
  }

  /** `vm_run` has left its creation loop: every `thread_started` store has happened. */
  predicate CreationDone(s: State) {
    !s.main.Creating? && !s.main.Storing?
  }

  function PassOf(s: State, a: Actor): Pass {
    match a
    case CpuThread(i) =>
      if i >= |s.cpus| then NotBegun
      else if s.cpus[i].pc.Stopping? then s.cpus[i].pc.pass
      else if s.cpus[i].pc.Exited? then Finished
      else NotBegun
    case MainThread =>
      (match s.main
       case Aborting(p, _) => p
       case Joining(_, m) => if m < |s.cpus| then Finished else NotBegun
       case Clearing(_, m) => if m < |s.cpus| then Finished else NotBegun
       case MainDone(m) => if m < |s.cpus| then Finished else NotBegun
       case _ => NotBegun)
    case ConsoleThread =>
      (match s.console
       case Quitting(p) => p
       case Ended(stopped) => if stopped then Finished else NotBegun
       case _ => NotBegun)
  }

  lemma {:induction false} RunInv(s: State, es: seq<Event>)
    requires Inv(s) && Run(s, es).Some?
    ensures Inv(Run(s, es).value) && |Run(s, es).value.cpus| == |s.cpus|
    decreases |es|
  {
    if es != [] {
      StepInv(s, es[0]);
      RunInv(Next(s, es[0]).value, es[1..]);
    }
  }

  /** What any step may do to a vCPU: the stop flags only go up, KVM_RUN is entered only
      while `immediate_exit` is clear, and a signal is consumed only outside KVM_RUN. */
  predicate Effect(c: Cpu, d: Cpu) {
    && (c.shouldStop ==> d.shouldStop) && (c.immediateExit ==> d.immediateExit)
    && (d.pc.InKvm? && !c.pc.InKvm? ==> !c.immediateExit)
    && (c.pending && !d.pending ==> !d.pc.InKvm?)
  }

  lemma PassEffect(s: State, e: Event, j: nat)
    requires Inv(s) && (e.MainPass? || e.ConsolePass? || e.CpuPass?) && Next(s, e).Some? && j < |s.cpus|
    ensures |Next(s, e).value.cpus| == |s.cpus| && Effect(s.cpus[j], Next(s, e).value.cpus[j])
  {
    match e {
      case MainPass => PassStepFlags(s, MainThread, s.main.pass);
      case ConsolePass => PassStepFlags(s, ConsoleThread, s.console.pass);
      case CpuPass(i) => PassStepFlags(s, CpuThread(i), s.cpus[i].pc.pass);
    }
  }

  lemma MainEffect(s: State, e: Event, j: nat)
    requires Inv(s) && (e.MainCreate? || e.MainStore? || e.MainJoin? || e.MainClear?)
    requires Next(s, e).Some? && j < |s.cpus|
    ensures |Next(s, e).value.cpus| == |s.cpus| && Effect(s.cpus[j], Next(s, e).value.cpus[j])
  {
    assert CpuOk(s, j);
    hide PassStep, NextCpu, NextConsole;
  }

  lemma ConsoleEffect(s: State, e: Event, j: nat)
    requires (e.ConsoleRead? || e.ConsoleLock? || e.ConsoleUnlock?) && Next(s, e).Some? && j < |s.cpus|
    ensures |Next(s, e).value.cpus| == |s.cpus| && Effect(s.cpus[j], Next(s, e).value.cpus[j])
  {
    hide PassStep, NextCpu, NextMain;
  }

  lemma RecordEffect(c: Cpu, i: nat, io: Option<nat>, serial: Option<Actor>, e: Event)
    requires LocalStep(c, i, io, serial, e).Some?
    ensures Effect(c, LocalStep(c, i, io, serial, e).value.cpu)
  {
    assert LocalEvent(e);
  }

  lemma LocalEffect(s: State, i: nat, e: Event, j: nat)
    requires i < |s.cpus| && j < |s.cpus| && !e.CpuPass? && NextCpu(s, i, e).Some?
    ensures |NextCpu(s, i, e).value.cpus| == |s.cpus| && Effect(s.cpus[j], NextCpu(s, i, e).value.cpus[j])
  {
    RecordEffect(s.cpus[i], i, s.ioLock, s.serialLock, e);
    hide LocalStep;
  }

  lemma StepEffect(s: State, e: Event, j: nat)
    requires Inv(s) && Next(s, e).Some? && j < |s.cpus|
    ensures |Next(s, e).value.cpus| == |s.cpus| && Effect(s.cpus[j], Next(s, e).value.cpus[j])
  {
    hide Inv, NextMain, NextConsole, NextCpu, Effect;
    match e {
      case MainPass | ConsolePass | CpuPass(_) => PassEffect(s, e, j);
      case MainCreate(_) | MainStore | MainJoin | MainClear => MainEffect(s, e, j);
      case ConsoleRead(_) | ConsoleLock | ConsoleUnlock => ConsoleEffect(s, e, j);
      case _ => LocalEffect(s, e.i, e, j);
    }
  }

  /** Once safe, a vCPU stays safe for ever, and if it is outside KVM_RUN it never enters it again. */
  lemma {:induction false} SafeForever(s: State, es: seq<Event>, j: nat)
    requires Inv(s) && Run(s, es).Some? && j < |s.cpus| && Safe(s.cpus[j])
    ensures |Run(s, es).value.cpus| == |s.cpus| && Safe(Run(s, es).value.cpus[j])
    ensures !s.cpus[j].pc.InKvm? ==> !Run(s, es).value.cpus[j].pc.InKvm?
    decreases |es|
  {
    if es != [] {
      StepInv(s, es[0]);
      StepEffect(s, es[0], j);
      SafeForever(Next(s, es[0]).value, es[1..], j);
    }
  }

  /* ---------------------------------------------------------------- */
  /* How a pass moves                                                  */
  /* ---------------------------------------------------------------- */

  /** The thread whose pass a step advances. */
  function PassActor(e: Event): Option<Actor> {
    match e
    case MainPass => Some(MainThread)
    case ConsolePass => Some(ConsoleThread)
    case CpuPass(i) => Some(CpuThread(i))
    case _ => None
  }

  predicate Known(s: State, a: Actor) {
    a.CpuThread? ==> a.id < |s.cpus|
  }

  /** Effect of event `e` on the pass of `a`: its own pass steps advance it, it may enter
      `vm_request_stop`, and nothing else moves it. */
  predicate PassMove(s: State, t: State, a: Actor, e: Event) {
    if PassActor(e) == Some(a) then
      && PassRuns(s, PassOf(s, a))
      && PassOf(t, a) == PassStep(s, a, PassOf(s, a)).1
    else PassOf(t, a) == PassOf(s, a) || (PassOf(s, a) == NotBegun && PassOf(t, a) == Enter)
  }

  lemma PassMovesByCpu(s: State, a: Actor, i: nat, e: Event)
    requires i < |s.cpus| && !e.CpuPass? && NextCpu(s, i, e).Some? && PassActor(e).None? && Known(s, a)
    ensures PassMove(s, NextCpu(s, i, e).value, a, e)
  {
    CpuStepLocal(s, i, e);
    hide NextCpu, PassStep, HoldsIo, CallsLeft, LockMove;
  }

  lemma PassMovesByPass(s: State, a: Actor, e: Event)
    requires Inv(s) && PassActor(e).Some? && Next(s, e).Some? && Known(s, a)
    ensures PassMove(s, Next(s, e).value, a, e)
  {
    match e {
      case MainPass =>
        PassStepFlags(s, MainThread, s.main.pass);
        hide PassStep;
      case ConsolePass =>
        PassStepFlags(s, ConsoleThread, s.console.pass);
        hide PassStep;
      case CpuPass(i) =>
        PassStepFlags(s, CpuThread(i), s.cpus[i].pc.pass);
        hide PassStep;
    }
  }

  lemma PassMovesByMain(s: State, a: Actor, e: Event)
    requires Inv(s) && (e.MainCreate? || e.MainStore? || e.MainJoin? || e.MainClear?) && Next(s, e).Some? && Known(s, a)
    ensures PassMove(s, Next(s, e).value, a, e)
  {
    hide PassStep;
    if a.CpuThread? {
      assert CpuOk(s, a.id);
    }
  }

  lemma PassMoves(s: State, a: Actor, e: Event)
    requires Inv(s) && Next(s, e).Some? && Known(s, a)
    ensures PassMove(s, Next(s, e).value, a, e)
  {
    hide NextCpu, PassStep, Inv, NextMain, PassMove;
    match e {
      case MainPass | ConsolePass | CpuPass(_) => PassMovesByPass(s, a, e);
      case MainCreate(_) | MainStore | MainJoin | MainClear => PassMovesByMain(s, a, e);
      case ConsoleRead(_) | ConsoleLock | ConsoleUnlock => PassMovesByConsole(s, a, e);
      case _ => PassMovesByCpu(s, a, e.i, e);
    }
  }

  lemma PassMovesByConsole(s: State, a: Actor, e: Event)
    requires (e.ConsoleRead? || e.ConsoleLock? || e.ConsoleUnlock?) && Next(s, e).Some?
    ensures PassMove(s, Next(s, e).value, a, e)
  {
    hide PassStep;
  }

  /** A pass step of `a` inside the step system is `PassStep` plus the move of `a` itself. */
  lemma OwnStepFlags(s: State, a: Actor, e: Event)
    requires Inv(s) && PassActor(e) == Some(a) && Known(s, a) && Next(s, e).Some?
    ensures PassRuns(s, PassOf(s, a)) && (a.CpuThread? ==> !s.cpus[a.id].pc.InKvm?)
    ensures var t, u := Next(s, e).value, PassStep(s, a, PassOf(s, a)).0;
            && |t.cpus| == |u.cpus| == |s.cpus|
            && forall j :: 0 <= j < |t.cpus| ==>
                 && t.cpus[j].shouldStop == u.cpus[j].shouldStop && t.cpus[j].immediateExit == u.cpus[j].immediateExit
                 && t.cpus[j].pc.InKvm? == u.cpus[j].pc.InKvm? && (t.cpus[j].pc.InKvm? ==> t.cpus[j] == u.cpus[j])
  {
    PassStepFlags(s, a, PassOf(s, a));
    hide PassStep, Inv;
  }

  /** A pass about to signal vCPU j: the thread has been created, and it is not the caller. */
  predicate KillOk(s: State, a: Actor) {
    var p := PassOf(s, a);
    p.At? && p.phase.Kill? ==> p.next < |s.cpus| && Created(s, p.next) && a != CpuThread(p.next)
  }

  lemma CreatedStays(s: State, e: Event, j: nat)
    requires Inv(s) && Next(s, e).Some? && j < |s.cpus| && Created(s, j)
    ensures Created(Next(s, e).value, j)
  {
    match e {
      case MainPass => PassStepFlags(s, MainThread, s.main.pass);
      case ConsolePass => PassStepFlags(s, ConsoleThread, s.console.pass);
      case CpuPass(i) => PassStepFlags(s, CpuThread(i), s.cpus[i].pc.pass);
      case _ =>
    }
    hide PassStep, LocalStep;
  }

  lemma KillStep(s: State, a: Actor, e: Event)
    requires Inv(s) && Known(s, a) && KillOk(s, a) && Next(s, e).Some?
    ensures KillOk(Next(s, e).value, a)
  {
    hide Next, PassOf;
    PassMoves(s, a, e);
    NextSize(s, e);
    var p := PassOf(Next(s, e).value, a);
    if p.At? && p.phase.Kill? && p.next < |s.cpus| {
      assert CpuOk(s, p.next);
      CreatedStays(s, e, p.next);
    }
  }

  lemma {:induction false} KillRun(s: State, a: Actor, es: seq<Event>)
    requires Inv(s) && Known(s, a) && KillOk(s, a) && Run(s, es).Some?
    ensures KillOk(Run(s, es).value, a)
    decreases |es|
  {
    if es != [] {
      hide Next, Inv, KillOk;
      StepInv(s, es[0]);
      KillStep(s, a, es[0]);
      KillRun(Next(s, es[0]).value, a, es[1..]);
    }
  }

  /** Whom a pass signals: in every reachable state with a thread about to call pthread_kill
      for vCPU j, `v->thread` of j has been filled in by pthread_create and is not the caller.
      The thread may have exited, and main may have joined it, since its flag was read. */
  lemma SignalsCreatedThread(n: nat, withConsole: bool, before: seq<Event>, a: Actor, j: nat)
    requires Run(Init(n, withConsole), before).Some?
    requires PassOf(Run(Init(n, withConsole), before).value, a) == At(j, Kill)
    ensures var s := Run(Init(n, withConsole), before).value;
            j < n == |s.cpus| && !s.cpus[j].pc.Absent? && a != CpuThread(j)
  {
    InitInv(n, withConsole);
    RunInv(Init(n, withConsole), before);
    hide Run;
    KillRun(Init(n, withConsole), a, before);
    assert CpuOk(Run(Init(n, withConsole), before).value, j);
  }

  /* ---------------------------------------------------------------- */
  /* One vCPU during one pass                                          */
  /* ---------------------------------------------------------------- */

  /** The pass of `a` reads `thread_started` of vCPU j between pthread_create and the store,
      while the new thread is already asleep in KVM_RUN. */
  predicate Misses(s: State, a: Actor, e: Event, j: nat)
    requires j < |s.cpus|
  {
    PassActor(e) == Some(a) && PassOf(s, a) == At(j, TestStarted) && s.main == Storing(j) && Stuck(s.cpus[j])
  }

  /** vCPU j is signalled by some pass, or its guest exits by itself. */
  predicate Wakes(s: State, e: Event, j: nat) {
    || (e.CpuReturn? && e.i == j)
    || (PassActor(e).Some? && PassOf(s, PassActor(e).value) == At(j, Kill))
  }

  /** Whether vCPU j, asleep beyond the reach of the pass of `a` or not (`now`), is so at the
      end of the run: the pass misses it, and nothing wakes it afterwards. */
  predicate Overslept(s: State, a: Actor, es: seq<Event>, j: nat, now: bool)
    requires Run(s, es).Some? && j < |s.cpus|
    decreases |es|
  {
    if es == [] then now
    else
      var t := Next(s, es[0]).value;
      NextSize(s, es[0]);
      Overslept(t, a, es[1..], j, Misses(s, a, es[0], j) || (now && !Wakes(s, es[0], j)))
  }

  predicate Past(p: Pass, j: nat) {
    p.Finished? || (p.At? && p.next > j)
  }

  /** What holds of vCPU j along a pass. */
  predicate PassState(s: State, a: Actor, j: nat, now: bool)
    requires j < |s.cpus|
  {
    var p, c := PassOf(s, a), s.cpus[j];
    && (p.At? && p.next == j && !p.phase.SetStop? ==> c.shouldStop)
    && (p.At? && p.next == j && (p.phase.TestStarted? || p.phase.Kill?) ==> c.immediateExit)
    && (Past(p, j) ==> Safe(c) || now)
    && (now ==> c.shouldStop && c.immediateExit && Stuck(c))
  }

  /** Only a signal or the guest itself gets a vCPU out of its sleep. */
  lemma SleepStep(s: State, e: Event, j: nat)
    requires Inv(s) && Next(s, e).Some? && j < |s.cpus| && Stuck(s.cpus[j])
    ensures |Next(s, e).value.cpus| == |s.cpus| && Stuck(Next(s, e).value.cpus[j]) == !Wakes(s, e, j)
  {
    hide Inv, NextMain, NextConsole, NextCpu, Stuck, Wakes;
    match e {
      case MainPass | ConsolePass | CpuPass(_) => SleepPass(s, e, j);
      case MainCreate(_) | MainStore | MainJoin | MainClear => SleepMain(s, e, j);
      case ConsoleRead(_) | ConsoleLock | ConsoleUnlock => SleepConsole(s, e, j);
      case _ => SleepLocal(s, e.i, e, j);
    }
  }

  lemma SleepMain(s: State, e: Event, j: nat)
    requires Inv(s) && (e.MainCreate? || e.MainStore? || e.MainJoin? || e.MainClear?) && Next(s, e).Some?
    requires j < |s.cpus| && Stuck(s.cpus[j])
    ensures |Next(s, e).value.cpus| == |s.cpus| && Stuck(Next(s, e).value.cpus[j]) == !Wakes(s, e, j)
  {
    assert CpuOk(s, j);
    hide PassStep, NextCpu, NextConsole;
  }

  lemma SleepConsole(s: State, e: Event, j: nat)
    requires (e.ConsoleRead? || e.ConsoleLock? || e.ConsoleUnlock?) && Next(s, e).Some?
    requires j < |s.cpus| && Stuck(s.cpus[j])
    ensures |Next(s, e).value.cpus| == |s.cpus| && Stuck(Next(s, e).value.cpus[j]) == !Wakes(s, e, j)
  {
    hide PassStep, NextCpu, NextMain;
  }

  lemma SleepRecord(c: Cpu, i: nat, io: Option<nat>, serial: Option<Actor>, e: Event)
    requires LocalStep(c, i, io, serial, e).Some? && Stuck(c)
    ensures Stuck(LocalStep(c, i, io, serial, e).value.cpu) == !e.CpuReturn?
  {
    assert LocalEvent(e);
  }

  lemma SleepLocal(s: State, i: nat, e: Event, j: nat)
    requires i < |s.cpus| && j < |s.cpus| && PassActor(e).None? && NextCpu(s, i, e).Some? && Stuck(s.cpus[j])
    requires e.CpuReturn? ==> e.i == i
    ensures |NextCpu(s, i, e).value.cpus| == |s.cpus| && Stuck(NextCpu(s, i, e).value.cpus[j]) == !Wakes(s, e, j)
  {
    if i == j {
      SleepRecord(s.cpus[i], i, s.ioLock, s.serialLock, e);
    }
    hide LocalStep, Stuck;
  }

  lemma SleepPass(s: State, e: Event, j: nat)
    requires Inv(s) && PassActor(e).Some? && Next(s, e).Some? && j < |s.cpus| && Stuck(s.cpus[j])
    ensures |Next(s, e).value.cpus| == |s.cpus| && Stuck(Next(s, e).value.cpus[j]) == !Wakes(s, e, j)
  {
    var a := PassActor(e).value;
    assert Known(s, a) by {
      hide PassStep, Inv;
    }
    OwnStepFlags(s, a, e);
    hide Next, Inv;
    PassStepFlags(s, a, PassOf(s, a));
  }

  /** A pass step that ends the treatment of vCPU j without missing it leaves it safe. */
  lemma TreatedIsSafe(s: State, a: Actor, e: Event, j: nat)
    requires Inv(s) && PassActor(e) == Some(a) && Known(s, a) && Next(s, e).Some?
    requires j < |s.cpus| == |Next(s, e).value.cpus|
    requires PassOf(s, a) == At(j, TestStarted) || PassOf(s, a) == At(j, Kill)
    requires s.cpus[j].shouldStop && s.cpus[j].immediateExit && !Misses(s, a, e, j)
    requires PassStep(s, a, PassOf(s, a)).1 != At(j, Kill)
    ensures Safe(Next(s, e).value.cpus[j])
  {
    OwnStepFlags(s, a, e);
    assert CpuOk(s, j);
    hide Next, Inv;
  }

  lemma OwnStepState(s: State, a: Actor, e: Event, j: nat, now: bool)
    requires Inv(s) && PassActor(e) == Some(a) && Known(s, a) && Next(s, e).Some?
    requires j < |s.cpus| == |Next(s, e).value.cpus|
    requires PassState(s, a, j, now)
    ensures PassState(Next(s, e).value, a, j, Misses(s, a, e, j) || (now && !Wakes(s, e, j)))
  {
    hide Next, Inv, PassOf;
    var t, p := Next(s, e).value, PassOf(s, a);
    PassMoves(s, a, e);
    OwnStepFlags(s, a, e);
    StepEffect(s, e, j);
    if Stuck(s.cpus[j]) {
      SleepStep(s, e, j);
    }
    if p.At? && p.next == j && (p.phase.TestStarted? || p.phase.Kill?) && !Misses(s, a, e, j)
       && PassStep(s, a, p).1 != At(j, Kill) {
      TreatedIsSafe(s, a, e, j);
    }
  }

  lemma StepState(s: State, a: Actor, e: Event, j: nat, now: bool)
    requires Inv(s) && Known(s, a) && Next(s, e).Some? && j < |s.cpus| == |Next(s, e).value.cpus|
    requires PassState(s, a, j, now)
    ensures PassState(Next(s, e).value, a, j, Misses(s, a, e, j) || (now && !Wakes(s, e, j)))
  {
    if PassActor(e) == Some(a) {
      OwnStepState(s, a, e, j, now);
    } else {
      PassMoves(s, a, e);
      StepEffect(s, e, j);
      if Stuck(s.cpus[j]) {
        SleepStep(s, e, j);
      }
      hide Next, Inv, PassOf, PassStep;
    }
  }

  lemma NextSize(s: State, e: Event)
    requires Next(s, e).Some?
    ensures |Next(s, e).value.cpus| == |s.cpus|
  {
    match e {
      case MainCreate(_) | MainStore | MainPass | MainJoin | MainClear => NextMainSize(s, e);
      case ConsolePass => PassStepFlags(s, ConsoleThread, s.console.pass);
      case CpuPass(i) => PassStepFlags(s, CpuThread(i), s.cpus[i].pc.pass);
      case _ =>
    }
    hide PassStep, LocalStep;
  }

  lemma {:induction false} RunState(s: State, a: Actor, es: seq<Event>, j: nat, now: bool)
    requires Inv(s) && Known(s, a) && Run(s, es).Some? && j < |s.cpus| && PassState(s, a, j, now)
    ensures |Run(s, es).value.cpus| == |s.cpus|
    ensures PassState(Run(s, es).value, a, j, Overslept(s, a, es, j, now))
    decreases |es|
  {
    if es != [] {
      hide Next, Inv, PassState, Misses, Wakes;
      StepInv(s, es[0]);
      StepState(s, a, es[0], j, now);
      RunState(Next(s, es[0]).value, a, es[1..], j, Misses(s, a, es[0], j) || (now && !Wakes(s, es[0], j)));
    }
  }

  /** Exactly which vCPUs a whole pass leaves behind.  In every reachable state, for every
      thread and every interleaving: from its beginning to its end, a pass of
      `vm_request_stop` leaves vCPU j unsafe if and only if it read `thread_started` of j in
      the window between pthread_create and the store while j was asleep in KVM_RUN, and
      neither another pass nor the guest has woken j since.  What it then leaves is a vCPU
      marked stopped and asleep. */
  lemma StuckExactlyInWindow(n: nat, withConsole: bool, before: seq<Event>, a: Actor, during: seq<Event>, j: nat)
    requires j < n && Run(Init(n, withConsole), before).Some?
    requires var s := Run(Init(n, withConsole), before).value;
             && |s.cpus| == n && Known(s, a) && (PassOf(s, a) == NotBegun || PassOf(s, a) == Enter)
             && Run(s, during).Some? && PassOf(Run(s, during).value, a) == Finished
    ensures var s := Run(Init(n, withConsole), before).value;
            var t := Run(s, during).value;
            && |t.cpus| == n
            && (!Safe(t.cpus[j]) <==> Overslept(s, a, during, j, false))
            && (!Safe(t.cpus[j]) ==> Stuck(t.cpus[j]) && t.cpus[j].shouldStop)
  {
    InitInv(n, withConsole);
    RunInv(Init(n, withConsole), before);
    hide Inv, Run, Init, Overslept;
    RunState(Run(Init(n, withConsole), before).value, a, during, j, false);
  }

  /** A vCPU that oversleeps has been missed. */
  lemma {:induction false} MissedBefore(s: State, a: Actor, es: seq<Event>, j: nat)
    requires Inv(s) && Run(s, es).Some? && j < |s.cpus| && Overslept(s, a, es, j, false)
    ensures exists k: nat :: MissedAt(s, a, es, j, k)
    decreases |es|
  {
    var t := Next(s, es[0]).value;
    StepInv(s, es[0]);
    if Misses(s, a, es[0], j) {
      assert es[..0] == [];
      assert MissedAt(s, a, es, j, 0);
    } else {
      MissedBefore(t, a, es[1..], j);
      var k: nat :| MissedAt(t, a, es[1..], j, k);
      assert es[..k + 1][0] == es[0] && es[..k + 1][1..] == es[1..][..k];
      assert MissedAt(s, a, es, j, k + 1);
    }
  }

  /** Step k of the run is the one that misses vCPU j. */
  ghost predicate MissedAt(s: State, a: Actor, es: seq<Event>, j: nat, k: nat) {
    && k < |es| && Run(s, es[..k]).Some? && j < |Run(s, es[..k]).value.cpus|
    && Misses(Run(s, es[..k]).value, a, es[k], j)
  }

  /** So a pass during which no thread is in the window leaves every vCPU safe, even if it
      begins before creation is done. */
  lemma SafeOutsideWindow(n: nat, withConsole: bool, before: seq<Event>, a: Actor, during: seq<Event>)
    requires Run(Init(n, withConsole), before).Some?
    requires var s := Run(Init(n, withConsole), before).value;
             && Known(s, a) && (PassOf(s, a) == NotBegun || PassOf(s, a) == Enter)
             && Run(s, during).Some? && PassOf(Run(s, during).value, a) == Finished
             && forall j: nat, k: nat :: !MissedAt(s, a, during, j, k)
    ensures AllSafe(Run(Run(Init(n, withConsole), before).value, during).value)
  {
    InitInv(n, withConsole);
    RunInv(Init(n, withConsole), before);
    var s := Run(Init(n, withConsole), before).value;
    RunInv(s, during);
    hide Inv, Run, Init, MissedAt, Overslept;
    forall j: nat | j < n ensures Safe(Run(s, during).value.cpus[j]) {
      if Overslept(s, a, during, j, false) {
        MissedBefore(s, a, during, j);
      }
      StuckExactlyInWindow(n, withConsole, before, a, during, j);
    }
  }

  /* ---------------------------------------------------------------- */
  /* Passes that begin after creation                                  */
  /* ---------------------------------------------------------------- */

  lemma CreationStays(s: State, e: Event)
    requires Inv(s) && CreationDone(s) && Next(s, e).Some?
    ensures CreationDone(Next(s, e).value)
  {
    if e.CpuPass? {
      PassStepFlags(s, CpuThread(e.i), s.cpus[e.i].pc.pass);
      hide PassStep;
    } else if e.MainPass? {
      PassStepFlags(s, MainThread, s.main.pass);
      hide PassStep;
    } else if e.ConsolePass? {
      PassStepFlags(s, ConsoleThread, s.console.pass);
      hide PassStep;
    } else if !ConsoleEvent(e) && !e.MainCreate? && !e.MainStore? && !e.MainJoin? && !e.MainClear? {
      CpuStepLocal(s, e.i, e);
      hide NextCpu;
    } else {
      hide NextCpu, PassStep;
    }
  }

  lemma {:induction false} NobodyMissed(s: State, a: Actor, es: seq<Event>, j: nat)
    requires Inv(s) && CreationDone(s) && Run(s, es).Some? && j < |s.cpus|
    ensures !Overslept(s, a, es, j, false)
    decreases |es|
  {
    if es != [] {
      hide Next, Inv;
      StepInv(s, es[0]);
      CreationStays(s, es[0]);
      NobodyMissed(Next(s, es[0]).value, a, es[1..], j);
    }
  }

  /** No lost wakeup.  For any number of vCPUs and any interleaving: if thread `a` begins
      `vm_request_stop` after every `thread_started` store and finishes it, then no vCPU is
      inside KVM_RUN without a pending signal, and whatever happens later none re-enters it. */
  lemma NoLostWakeup(n: nat, withConsole: bool, before: seq<Event>, a: Actor, during: seq<Event>, later: seq<Event>)
    requires Run(Init(n, withConsole), before).Some?
    requires var s := Run(Init(n, withConsole), before).value;
             && CreationDone(s) && (PassOf(s, a) == NotBegun || PassOf(s, a) == Enter)
             && Run(s, during).Some? && PassOf(Run(s, during).value, a) == Finished
             && Run(Run(s, during).value, later).Some?
    ensures var t := Run(Run(Init(n, withConsole), before).value, during).value;
            var u := Run(t, later).value;
            && |t.cpus| == n == |u.cpus|
            && AllSafe(t) && AllSafe(u)
            && forall j :: 0 <= j < n && !t.cpus[j].pc.InKvm? ==> !u.cpus[j].pc.InKvm?
  {
    InitInv(n, withConsole);
    RunInv(Init(n, withConsole), before);
    var s := Run(Init(n, withConsole), before).value;
    RunInv(s, during);
    var t := Run(s, during).value;
    RunInv(t, later);
    FinishedIsKnown(t, a);
    hide Inv, Run, Init, Overslept, Safe;
    forall j: nat | j < n
      ensures Safe(t.cpus[j]) && Safe(Run(t, later).value.cpus[j])
      ensures !t.cpus[j].pc.InKvm? ==> !Run(t, later).value.cpus[j].pc.InKvm?
    {
      NobodyMissed(s, a, during, j);
      StuckExactlyInWindow(n, withConsole, before, a, during, j);
      SafeForever(t, later, j);
    }
  }

  lemma FinishedIsKnown(s: State, a: Actor)
    requires PassOf(s, a) == Finished
    ensures Known(s, a)
  {
  }

  /* ---------------------------------------------------------------- */
  /* The window is real                                                */
  /* ---------------------------------------------------------------- */

  /** vCPU 0 enters the guest before main has stored `thread_started` ... */
  function EnterEarly(): seq<Event> {
    [MainCreate(true), CpuTop(0), CpuEnter(0)]
  }

  /** ... and a whole console pass fits before that store. */
  function QuitEarly(): seq<Event> {
    [ConsoleRead(Quit), ConsolePass, ConsolePass, ConsolePass, ConsolePass]
  }

  const ASLEEP := Cpu(InKvm, false, false, false, false)
  const ENTERED := State([ASLEEP], Storing(0), Reading, None, None, true)

  /** Told to stop, barred from KVM_RUN, and asleep in it; the console thread has finished its
      pass and main waits in pthread_join. */
  const HUNG := State([Cpu(InKvm, true, true, true, false)], Joining(0, 1), Ended(true), None, None, false)

  lemma Singletons()
    ensures forall x: Cpu, y: Cpu :: [x][0 := y] == [y]
  {
  }

  lemma EnterEarlyRuns()
    ensures Run(Init(1, true), EnterEarly()) == Some(ENTERED)
  {
    Singletons();
    var s := Init(1, true);
    var top := ASLEEP.(pc := Top);
    assert s.cpus == [ASLEEP.(pc := Absent)];
    assert Next(s, MainCreate(true)) == Some(ENTERED.(cpus := [top]));
    assert Next(ENTERED.(cpus := [top]), CpuTop(0)) == Some(ENTERED.(cpus := [top.(pc := Tested)]));
    assert Next(ENTERED.(cpus := [top.(pc := Tested)]), CpuEnter(0)) == Some(ENTERED);
    Run3(s, MainCreate(true), CpuTop(0), CpuEnter(0));
  }

  lemma QuitEarlyRuns()
    ensures Run(ENTERED, QuitEarly() + [MainStore]) == Some(HUNG)
  {
    Singletons();
    var half := ENTERED.(console := Quitting(At(0, SetImmediate)), running := false,
                         cpus := [ASLEEP.(shouldStop := true)]);
    Run3(ENTERED, ConsoleRead(Quit), ConsolePass, ConsolePass);
    assert Run(ENTERED, [ConsoleRead(Quit), ConsolePass, ConsolePass]) == Some(half);
    var three := ENTERED.(console := Ended(true), running := false, cpus := [Cpu(InKvm, true, true, false, false)]);
    assert Next(half, ConsolePass) == Some(three.(console := Quitting(At(0, TestStarted))));
    assert Next(three.(console := Quitting(At(0, TestStarted))), ConsolePass) == Some(three);
    Run3(half, ConsolePass, ConsolePass, MainStore);
    assert QuitEarly() + [MainStore]
        == [ConsoleRead(Quit), ConsolePass, ConsolePass] + [ConsolePass, ConsolePass, MainStore];
    RunAppend(ENTERED, [ConsoleRead(Quit), ConsolePass, ConsolePass], [ConsolePass, ConsolePass, MainStore]);
  }

  /** The window is real: with one vCPU, Ctrl-A x between pthread_create and the
      `thread_started` store ends its pass and leaves vCPU 0 asleep inside KVM_RUN,
      with main waiting in pthread_join. */
  lemma EarlyPassCanLoseWakeup()
    ensures Run(Init(1, true), EnterEarly() + (QuitEarly() + [MainStore])) == Some(HUNG)
    ensures PassOf(HUNG, ConsoleThread) == Finished && Stuck(HUNG.cpus[0])
  {
    EnterEarlyRuns();
    QuitEarlyRuns();
    RunAppend(Init(1, true), EnterEarly(), QuitEarly() + [MainStore]);
  }

  lemma Run3(s: State, a: Event, b: Event, c: Event)
    requires Next(s, a).Some? && Next(Next(s, a).value, b).Some?
    ensures Run(s, [a, b, c]) == Next(Next(Next(s, a).value, b).value, c)
  {
    assert [a, b, c][1..] == [b, c] && [b, c][1..] == [c] && [c][1..] == [];
    var t := Next(Next(s, a).value, b).value;
    assert Run(t, [c]) == match Next(t, c) case None => None case Some(u) => Run(u, []);
  }

  lemma {:induction false} RunAppend(s: State, es: seq<Event>, fs: seq<Event>)
    requires Run(s, es).Some?
    ensures Run(s, es + fs) == Run(Run(s, es).value, fs)
    decreases |es|
  {
    if es == [] {
      assert es + fs == fs;
    } else {
      assert (es + fs)[1..] == es[1..] + fs;
      RunAppend(Next(s, es[0]).value, es[1..], fs);
    }
  }
}
