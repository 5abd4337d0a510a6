/** After a stop pass that began after creation: a measure bounds every further step of the
    vCPU and main threads, no deadlock is possible even if no guest ever exits by itself, and
    the only way to come to rest is with every vCPU thread gone and `vm_run` returned. */
module StopTermination {
  import opened Common
  import opened StopProtocol
  import opened StopSafety

  /** Twice the statements left in a pass: a statement may add one pending signal. */
  function PassRank(n: nat, p: Pass): nat {
    match p
    case Enter => 8 * n + 2
    case At(j, ph) =>
      if j >= n then 0
      else 8 * (n - j) - 2 * StepsDone(ph)
    case _ => 0
  }

  /** `c` bounds the callbacks of one access; each UART callback is three steps. */
  function PcRank(n: nat, c: nat, pc: CpuPc): nat {
    var leave := PassRank(n, Enter);
    match pc
    case Absent => 0
    case Exited => 0
    case Stopping(p) => PassRank(n, p)
    case Top => leave + 1
    case Tested => leave + 2
    case IoDone(_) => leave + 2
    case InDevice(left) => leave + 3 + 3 * left
    case HaveSerial(left) => leave + 1 + 3 * left
    case WantSerial(left) => leave + 2 + 3 * left
    case WantIo(left) => leave + 4 + 3 * left
    case InKvm => leave + 5 + 3 * c
  }

  function CpuRank(n: nat, c: nat, cpu: Cpu): nat {
    PcRank(n, c, cpu.pc) + if cpu.pending then 1 else 0
  }

  function SumRank(n: nat, c: nat, cpus: seq<Cpu>): nat {
    if cpus == [] then 0 else CpuRank(n, c, cpus[0]) + SumRank(n, c, cpus[1..])
  }

  function MainRank(n: nat, m: MainPc): nat {
    match m
    case Aborting(p, k) => PassRank(n, p) + 2 * k + 1
    case Joining(k, c) => if k <= c then 2 * (c - k) else 0
    case Clearing(k, c) => if k < c then 2 * (c - k) - 1 else 0
    case _ => 0
  }

  function ConsoleRank(n: nat, c: ConsolePc): nat {
    match c
    case Quitting(p) => PassRank(n, p)
    case Ended(_) => 0
    case _ => PassRank(n, Enter)
  }

  /** The measure, for accesses of at most `c` callbacks. */
  function Work(s: State, c: nat): nat {
    SumRank(|s.cpus|, c, s.cpus) + MainRank(|s.cpus|, s.main) + ConsoleRank(|s.cpus|, s.console)
  }

  /** The access in progress, if any, has at most `c` callbacks left. */
  predicate Short(pc: CpuPc, c: nat) {
    pc.WantIo? || pc.InDevice? || pc.WantSerial? || pc.HaveSerial? ==> pc.left <= c
  }

  predicate AllShort(s: State, c: nat) {
    forall j :: 0 <= j < |s.cpus| ==> Short(s.cpus[j].pc, c)
  }

  /** No step of the run begins an access of more than `c` callbacks. */
  predicate Calls(es: seq<Event>, c: nat) {
    forall k :: 0 <= k < |es| ==> ShortEvent(es[k], c)
  }

  predicate ShortEvent(e: Event, c: nat) {
    e.CpuReturn? && e.why.Access? ==> e.why.calls <= c
  }

  lemma {:induction false} SumBound(n: nat, c: nat, cpus: seq<Cpu>)
    requires forall j :: 0 <= j < |cpus| ==> Short(cpus[j].pc, c)
    ensures SumRank(n, c, cpus) <= |cpus| * (8 * n + 3 * c + 8)
  {
    if cpus != [] {
      SumBound(n, c, cpus[1..]);
      assert CpuRank(n, c, cpus[0]) <= 8 * n + 3 * c + 8;
      hide CpuRank, SumRank;
      Multiply(|cpus| - 1, 8 * n + 3 * c + 8);
    }
  }

  lemma Multiply(k: nat, w: nat)
    ensures (k + 1) * w == k * w + w
  {
  }

  /** The measure is at most quadratic in the number of vCPUs. */
  lemma WorkBound(s: State, c: nat)
    requires MainOk(s) && AllShort(s, c)
    ensures Work(s, c) <= |s.cpus| * (8 * |s.cpus| + 3 * c + 26) + 5
  {
    var n := |s.cpus|;
    SumBound(n, c, s.cpus);
    assert n * (8 * n + 3 * c + 26) == n * (8 * n + 3 * c + 8) + 18 * n;
    hide SumRank, AllShort;
  }

  lemma {:induction false} SumUpdate(n: nat, c: nat, cpus: seq<Cpu>, i: nat, cpu: Cpu)
    requires i < |cpus|
    ensures SumRank(n, c, cpus[i := cpu]) == SumRank(n, c, cpus) - CpuRank(n, c, cpus[i]) + CpuRank(n, c, cpu)
  {
    hide CpuRank;
    if i == 0 {
      assert cpus[0 := cpu][1..] == cpus[1..];
    } else {
      assert cpus[i := cpu][1..] == cpus[1..][i - 1 := cpu];
      SumUpdate(n, c, cpus[1..], i - 1, cpu);
    }
  }

  lemma PassRankDrops(s: State, a: Actor, p: Pass)
    requires PassRuns(s, p)
    ensures PassRank(|s.cpus|, PassStep(s, a, p).1) + 2 <= PassRank(|s.cpus|, p)
  {
  }

  lemma PassCpuRank(s: State, a: Actor, p: Pass, c: nat)
    requires PassRuns(s, p) && p.At?
    ensures var t := PassStep(s, a, p).0;
            && |t.cpus| == |s.cpus| && t.cpus == s.cpus[p.next := t.cpus[p.next]]
            && CpuRank(|s.cpus|, c, t.cpus[p.next]) <= CpuRank(|s.cpus|, c, s.cpus[p.next]) + 1
  {
    hide PcRank, NextPass, Alive;
  }

  /** A pass statement costs two units and adds at most one signal. */
  lemma PassStepDrops(s: State, a: Actor, p: Pass, c: nat)
    requires PassRuns(s, p)
    ensures var (t, q) := PassStep(s, a, p);
            && |t.cpus| == |s.cpus|
            && SumRank(|s.cpus|, c, t.cpus) + PassRank(|s.cpus|, q)
             < SumRank(|s.cpus|, c, s.cpus) + PassRank(|s.cpus|, p)
  {
    hide SumRank, CpuRank, PassRank;
    PassRankDrops(s, a, p);
    if p.At? {
      PassCpuRank(s, a, p, c);
      hide PassStep;
      SumUpdate(|s.cpus|, c, s.cpus, p.next, PassStep(s, a, p).0.cpus[p.next]);
    }
  }

  predicate Halting(s: State) {
    Inv(s) && CreationDone(s) && AllSafe(s)
  }

  lemma StepKeepsHalting(s: State, e: Event)
    requires Halting(s) && Next(s, e).Some?
    ensures Halting(Next(s, e).value) && |Next(s, e).value.cpus| == |s.cpus|
  {
    StepInv(s, e);
    CreationStays(s, e);
    forall j: nat | j < |s.cpus| ensures Safe(Next(s, e).value.cpus[j]) {
      StepEffect(s, e, j);
    }
  }

  /** Every local step of a vCPU thread that is safe lowers its rank. */
  lemma LocalDrops(n: nat, c: nat, cpu: Cpu, i: nat, io: Option<nat>, serial: Option<Actor>, e: Event)
    requires LocalStep(cpu, i, io, serial, e).Some? && Safe(cpu) && CallsLeft(cpu.pc)
    requires Short(cpu.pc, c) && ShortEvent(e, c)
    ensures var d := LocalStep(cpu, i, io, serial, e).value.cpu;
            CpuRank(n, c, d) < CpuRank(n, c, cpu) && Short(d.pc, c)
  {
    assert LocalEvent(e);
    hide PassRank;
  }

  lemma CpuLocalDrops(s: State, i: nat, e: Event, c: nat)
    requires Halting(s) && i < |s.cpus| && !e.CpuPass? && NextCpu(s, i, e).Some? && AllShort(s, c) && ShortEvent(e, c)
    ensures var t := NextCpu(s, i, e).value;
            |t.cpus| == |s.cpus| && Work(t, c) < Work(s, c) && AllShort(t, c)
  {
    assert CpuOk(s, i);
    LocalDrops(|s.cpus|, c, s.cpus[i], i, s.ioLock, s.serialLock, e);
    hide Inv, SumRank, CpuRank, MainRank, ConsoleRank, LocalStep, Short;
    SumUpdate(|s.cpus|, c, s.cpus, i, LocalStep(s.cpus[i], i, s.ioLock, s.serialLock, e).value.cpu);
  }

  lemma CpuPassDrops(s: State, i: nat, c: nat)
    requires Halting(s) && i < |s.cpus| && NextCpuPass(s, i).Some? && AllShort(s, c)
    ensures var t := NextCpuPass(s, i).value;
            |t.cpus| == |s.cpus| && Work(t, c) < Work(s, c) && AllShort(t, c)
  {
    var n, p := |s.cpus|, s.cpus[i].pc.pass;
    var (t, q) := PassStep(s, CpuThread(i), p);
    PassStepFlags(s, CpuThread(i), p);
    PassStepDrops(s, CpuThread(i), p, c);
    hide Inv, PassStep, SumRank, MainRank, ConsoleRank;
    var u := NextCpuPass(s, i).value;
    SumUpdate(n, c, t.cpus, i, u.cpus[i]);
  }

  lemma MainDrops(s: State, e: Event, c: nat)
    requires Halting(s) && NextMain(s, e).Some? && AllShort(s, c)
    ensures var t := NextMain(s, e).value;
            |t.cpus| == |s.cpus| && Work(t, c) < Work(s, c) && AllShort(t, c)
  {
    if s.main.Aborting? {
      PassStepFlags(s, MainThread, s.main.pass);
      PassStepDrops(s, MainThread, s.main.pass, c);
      hide PassStep, SumRank, ConsoleRank;
    } else if s.main.Clearing? {
      var k := s.main.k;
      SumUpdate(|s.cpus|, c, s.cpus, k, s.cpus[k].(started := false));
      hide SumRank, ConsoleRank;
    }
  }

  lemma ConsoleNeverAdds(s: State, e: Event, c: nat)
    requires Halting(s) && NextConsole(s, e).Some? && AllShort(s, c)
    ensures var t := NextConsole(s, e).value;
            |t.cpus| == |s.cpus| && Work(t, c) <= Work(s, c) && AllShort(t, c)
  {
    if s.console.Quitting? {
      PassStepFlags(s, ConsoleThread, s.console.pass);
      PassStepDrops(s, ConsoleThread, s.console.pass, c);
      hide PassStep, SumRank, MainRank;
    }
  }

  /** Every step of a vCPU thread or of main lowers the measure; the console never raises it. */
  lemma StepDrops(s: State, e: Event, c: nat)
    requires Halting(s) && Next(s, e).Some? && AllShort(s, c) && ShortEvent(e, c)
    ensures Halting(Next(s, e).value) && AllShort(Next(s, e).value, c)
    ensures if ConsoleEvent(e) then Work(Next(s, e).value, c) <= Work(s, c) else Work(Next(s, e).value, c) < Work(s, c)
  {
    hide Work, Halting, AllShort, NextMain, NextConsole, NextCpu, NextCpuPass, ShortEvent;
    StepKeepsHalting(s, e);
    match e
    case MainCreate(_) | MainStore | MainPass | MainJoin | MainClear => MainDrops(s, e, c);
    case ConsoleRead(_) | ConsoleLock | ConsoleUnlock | ConsolePass => ConsoleNeverAdds(s, e, c);
    case CpuPass(i) => CpuPassSame(s, i); CpuPassDrops(s, i, c);
    case _ => CpuLocalDrops(s, e.i, e, c);
  }

  lemma CpuPassSame(s: State, i: nat)
    requires i < |s.cpus|
    ensures NextCpu(s, i, CpuPass(i)) == NextCpuPass(s, i)
  {
    hide NextCpuPass;
  }

  function CountSteps(es: seq<Event>): nat {
    if es == [] then 0 else (if ConsoleEvent(es[0]) then 0 else 1) + CountSteps(es[1..])
  }

  /** However long the console keeps typing, the vCPU and main threads together take at
      most `Work` more steps. */
  lemma {:induction false} StepsAreBounded(s: State, es: seq<Event>, c: nat)
    requires Halting(s) && Run(s, es).Some? && AllShort(s, c) && Calls(es, c)
    ensures Halting(Run(s, es).value)
    ensures CountSteps(es) + Work(Run(s, es).value, c) <= Work(s, c)
    decreases |es|
  {
    if es != [] {
      hide Halting, Work, AllShort, Next, ShortEvent;
      StepDrops(s, es[0], c);
      StepsAreBounded(Next(s, es[0]).value, es[1..], c);
    }
  }

  /** Before the stop, too, the callbacks left are bounded by those of the accesses begun. */
  lemma ShortStays(s: State, e: Event, c: nat)
    requires Next(s, e).Some? && AllShort(s, c) && ShortEvent(e, c)
    ensures AllShort(Next(s, e).value, c)
  {
    hide NextMain, NextConsole, NextCpu, AllShort, ShortEvent;
    match e {
      case MainPass | ConsolePass | CpuPass(_) => ShortPass(s, e, c);
      case MainCreate(_) | MainStore | MainJoin | MainClear | ConsoleRead(_) | ConsoleLock | ConsoleUnlock =>
        ShortElsewhere(s, e, c);
      case _ => ShortCpu(s, e.i, e, c);
    }
  }

  lemma ShortElsewhere(s: State, e: Event, c: nat)
    requires (ConsoleEvent(e) || e.MainCreate? || e.MainStore? || e.MainJoin? || e.MainClear?) && PassActor(e).None?
    requires Next(s, e).Some? && AllShort(s, c)
    ensures AllShort(Next(s, e).value, c)
  {
    hide NextCpu, PassStep;
  }

  lemma ShortCpu(s: State, i: nat, e: Event, c: nat)
    requires i < |s.cpus| && !e.CpuPass? && NextCpu(s, i, e).Some? && AllShort(s, c) && ShortEvent(e, c)
    ensures AllShort(NextCpu(s, i, e).value, c)
  {
    hide LocalStep, Short, ShortEvent;
    ShortLocal(s.cpus[i], i, s.ioLock, s.serialLock, e, c);
  }

  lemma ShortPass(s: State, e: Event, c: nat)
    requires PassActor(e).Some? && Next(s, e).Some? && AllShort(s, c)
    ensures AllShort(Next(s, e).value, c)
  {
    match e {
      case MainPass => PassStepFlags(s, MainThread, s.main.pass);
      case ConsolePass => PassStepFlags(s, ConsoleThread, s.console.pass);
      case CpuPass(i) => PassStepFlags(s, CpuThread(i), s.cpus[i].pc.pass);
    }
    hide PassStep;
  }

  lemma ShortLocal(cpu: Cpu, i: nat, io: Option<nat>, serial: Option<Actor>, e: Event, c: nat)
    requires LocalStep(cpu, i, io, serial, e).Some? && Short(cpu.pc, c) && ShortEvent(e, c)
    ensures Short(LocalStep(cpu, i, io, serial, e).value.cpu.pc, c)
  {
    assert LocalEvent(e);
  }

  lemma {:induction false} RunShort(s: State, es: seq<Event>, c: nat)
    requires Run(s, es).Some? && AllShort(s, c) && Calls(es, c)
    ensures AllShort(Run(s, es).value, c)
    decreases |es|
  {
    if es != [] {
      hide AllShort, Next, ShortEvent;
      ShortStays(s, es[0], c);
      RunShort(Next(s, es[0]).value, es[1..], c);
    }
  }

  /* ---------------------------------------------------------------- */
  /* Deadlock freedom                                                  */
  /* ---------------------------------------------------------------- */

  /** Steps the VMM can take by itself: a thread other than the console moves, or the console
      gives back the UART lock.  A guest that exits by its own doing does not count, and
      neither does a signal that only gets swallowed. */
  predicate OwnMove(s: State, e: Event) {
    Next(s, e).Some? && !e.CpuReturn? && !e.Deliver? && (!ConsoleEvent(e) || e == ConsoleUnlock)
  }

  ghost predicate CanMove(s: State) {
    exists e :: OwnMove(s, e)
  }

  function CpuChoice(s: State, i: nat): Event
    requires i < |s.cpus|
  {
    match s.cpus[i].pc
    case Top => CpuTop(i)
    case Tested => CpuEnter(i)
    case InKvm => CpuInterrupted(i)
    case WantIo(_) => CpuLockIo(i)
    case InDevice(left) => if left == 0 then CpuDeviceEnd(i) else CpuDevice(i, UartCall)
    case WantSerial(_) => CpuLockSerial(i)
    case HaveSerial(_) => CpuUnlockSerial(i)
    case IoDone(_) => CpuUnlockIo(i)
    case _ => CpuPass(i)
  }

  /** Lock order: a vCPU thread that holds the UART lock took io_lock first. */
  lemma SerialHolder(s: State)
    requires Inv(s) && s.serialLock.Some?
    ensures s.serialLock.value.ConsoleThread?
            || (s.serialLock.value.CpuThread? && s.ioLock == Some(s.serialLock.value.id)
                && s.cpus[s.serialLock.value.id].pc.HaveSerial?)
  {
    if s.serialLock.value.CpuThread? {
      assert CpuOk(s, s.serialLock.value.id);
    }
  }

  lemma LockHolderMoves(s: State, i: nat)
    requires Inv(s) && s.ioLock == Some(i)
    ensures CanMove(s)
  {
    assert CpuOk(s, i);
    if s.cpus[i].pc.WantSerial? && s.serialLock.Some? {
      SerialHolder(s);
      assert OwnMove(s, ConsoleUnlock);
    } else {
      assert OwnMove(s, CpuChoice(s, i));
    }
  }

  lemma ThreadMoves(s: State, i: nat)
    requires Inv(s) && i < |s.cpus| && s.ioLock.None? && Alive(s.cpus[i]) && !Stuck(s.cpus[i])
    ensures CanMove(s)
  {
    assert CpuOk(s, i);
    assert OwnMove(s, CpuChoice(s, i));
  }

  lemma MainMoves(s: State)
    requires Inv(s) && !s.main.MainDone? && forall i :: 0 <= i < |s.cpus| ==> !Alive(s.cpus[i])
    ensures CanMove(s)
  {
    match s.main {
      case Creating(_) => assert OwnMove(s, MainCreate(true));
      case Storing(_) => assert OwnMove(s, MainStore);
      case Aborting(_, _) => assert OwnMove(s, MainPass);
      case Joining(k, _) => assert CpuOk(s, k); assert OwnMove(s, MainJoin);
      case Clearing(_, _) => assert OwnMove(s, MainClear);
    }
  }

  /** The only deadlock there is.  In every reachable state of `vm_run`, before or after a
      stop, some thread can move by itself unless a vCPU is asleep in its guest with no signal
      on its way: the locks never block for good. */
  lemma OnlySleepBlocks(s: State)
    requires Inv(s) && !s.main.MainDone? && !CanMove(s)
    ensures exists i :: 0 <= i < |s.cpus| && Stuck(s.cpus[i])
  {
    hide Inv, CanMove;
    if s.ioLock.Some? {
      HolderExists(s);
      LockHolderMoves(s, s.ioLock.value);
    } else {
      forall i: nat | i < |s.cpus| && Alive(s.cpus[i]) ensures CanMove(s) || Stuck(s.cpus[i]) {
        if !Stuck(s.cpus[i]) {
          ThreadMoves(s, i);
        }
      }
      if forall i :: 0 <= i < |s.cpus| ==> !Alive(s.cpus[i]) {
        MainMoves(s);
      }
    }
  }

  lemma HolderExists(s: State)
    requires Inv(s) && s.ioLock.Some?
    ensures s.ioLock.value < |s.cpus|
  {
  }

  /** No deadlock after the stop: until `vm_run` has returned, some thread can move by itself. */
  lemma NoDeadlock(s: State)
    requires Halting(s) && !s.main.MainDone?
    ensures CanMove(s)
  {
    hide CanMove, Inv;
    if !CanMove(s) {
      OnlySleepBlocks(s);
    }
  }

  /** The state an early pass can leave behind is one that cannot move: the lost wakeup is a
      real hang. */
  lemma HungCannotMove()
    ensures Inv(HUNG) && CreationDone(HUNG) && !HUNG.main.MainDone? && !CanMove(HUNG)
  {
    assert CpuOk(HUNG, 0);
    forall e ensures !OwnMove(HUNG, e) {
    }
  }

  lemma DoneMeansExited(s: State)
    requires Inv(s) && s.main.MainDone?
    ensures forall j :: 0 <= j < |s.cpus| ==> s.cpus[j].pc.Absent? || s.cpus[j].pc.Exited?
  {
    forall j: nat | j < |s.cpus| ensures s.cpus[j].pc.Absent? || s.cpus[j].pc.Exited? {
      assert CpuOk(s, j);
    }
  }

  /** Stop terminates.  From a state in which some thread is about to begin
      `vm_request_stop` after creation: once it has finished, every continuation has at most
      n * (8n + 3c + 26) + 5 vCPU and main steps, where c bounds the callbacks of the accesses
      of the run, and one that the VMM cannot continue by itself has joined every thread and
      returned from `vm_run`. */
  lemma StopTerminates(n: nat, withConsole: bool, before: seq<Event>, a: Actor, during: seq<Event>,
                       later: seq<Event>, c: nat)
    requires Run(Init(n, withConsole), before).Some? && Calls(before, c) && Calls(during, c) && Calls(later, c)
    requires var s := Run(Init(n, withConsole), before).value;
             && CreationDone(s) && (PassOf(s, a) == NotBegun || PassOf(s, a) == Enter)
             && Run(s, during).Some? && PassOf(Run(s, during).value, a) == Finished
             && Run(Run(s, during).value, later).Some?
    ensures var t := Run(Run(Init(n, withConsole), before).value, during).value;
            var u := Run(t, later).value;
            && CountSteps(later) <= n * (8 * n + 3 * c + 26) + 5
            && (!CanMove(u) ==> u.main.MainDone?
                                && forall j :: 0 <= j < |u.cpus| ==> u.cpus[j].pc.Absent? || u.cpus[j].pc.Exited?)
  {
    StartShort(n, withConsole, c);
    hide Run, Init, AllShort, Calls, CanMove, Work, Inv, CreationDone, Halting, Safe;
    var s := Run(Init(n, withConsole), before).value;
    StopHalts(n, withConsole, before, a, during);
    RunShort(Init(n, withConsole), before, c);
    RunShort(s, during, c);
    HaltingRun(Run(s, during).value, later, c);
  }

  lemma StartShort(n: nat, withConsole: bool, c: nat)
    ensures AllShort(Init(n, withConsole), c)
  {
  }

  lemma HaltingRun(t: State, later: seq<Event>, c: nat)
    requires Halting(t) && Run(t, later).Some? && AllShort(t, c) && Calls(later, c)
    ensures var u, n := Run(t, later).value, |t.cpus|;
            && CountSteps(later) <= n * (8 * n + 3 * c + 26) + 5
            && (!CanMove(u) ==> u.main.MainDone?
                                && forall j :: 0 <= j < |u.cpus| ==> u.cpus[j].pc.Absent? || u.cpus[j].pc.Exited?)
  {
    assert MainOk(t);
    hide Run, AllShort, Calls, CanMove, Work, Inv, MainOk, Safe, CreationDone;
    StepsAreBounded(t, later, c);
    WorkBound(t, c);
    var u := Run(t, later).value;
    if !CanMove(u) {
      if !u.main.MainDone? {
        NoDeadlock(u);
      }
      DoneMeansExited(u);
    }
  }

  lemma StopHalts(n: nat, withConsole: bool, before: seq<Event>, a: Actor, during: seq<Event>)
    requires Run(Init(n, withConsole), before).Some?
    requires var s := Run(Init(n, withConsole), before).value;
             && CreationDone(s) && (PassOf(s, a) == NotBegun || PassOf(s, a) == Enter)
             && Run(s, during).Some? && PassOf(Run(s, during).value, a) == Finished
    ensures var t := Run(Run(Init(n, withConsole), before).value, during).value;
            Halting(t) && MainOk(t) && |t.cpus| == n
  {
    var s := Run(Init(n, withConsole), before).value;
    InitInv(n, withConsole);
    RunInv(Init(n, withConsole), before);
    RunInv(s, during);
    CreationStaysDone(s, during);
    assert Run(Run(s, during).value, []).Some?;
    hide Run, Init, CreationDone, Safe;
    NoLostWakeup(n, withConsole, before, a, during, []);
  }

  lemma {:induction false} CreationStaysDone(s: State, es: seq<Event>)
    requires Inv(s) && CreationDone(s) && Run(s, es).Some?
    ensures CreationDone(Run(s, es).value)
    decreases |es|
  {
    if es != [] {
      CreationStays(s, es[0]);
      StepInv(s, es[0]);
      CreationStaysDone(Next(s, es[0]).value, es[1..]);
    }
  }
}
