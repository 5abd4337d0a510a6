/** The stop protocol of src/smp.c and src/vm.c as an interleaved step system.

    The actors are N vCPU threads, the main thread inside `vm_run` and the
    console thread.  Every shared store, load, signal, lock operation and KVM_RUN
    transition is one atomic step (sequential consistency).  A signal that finds
    its thread inside KVM_RUN stays pending until KVM_RUN returns; one that finds
    it outside is consumed by the empty handler.
 */
module StopProtocol {

  import opened Common

  /** The statements of one iteration of the loop in `vm_request_stop`. */
  datatype Phase = SetStop | SetImmediate | TestStarted | Kill

  /** Where a thread stands inside `vm_request_stop`. */
  datatype Pass = NotBegun | Enter | At(next: nat, phase: Phase) | Finished

  datatype Actor = CpuThread(id: nat) | MainThread | ConsoleThread

  datatype CpuPc =
    | Absent                  // pthread_create has not run
    | Top                     // about to test should_stop
    | Tested                  // saw should_stop == false, about to call KVM_RUN
    | InKvm
    | WantIo(left: nat)       // PIO or MMIO exit with `left` callbacks to make, about to lock io_lock
    | InDevice(left: nat)     // holds io_lock
    | WantSerial(left: nat)   // holds io_lock, inside a UART callback, about to lock the UART
    | HaveSerial(left: nat)   // holds io_lock and the UART lock
    | IoDone(resume: bool)    // holds io_lock, the last callback has returned
    | Stopping(pass: Pass)    // left the run loop
    | Exited

  datatype Cpu = Cpu(pc: CpuPc, shouldStop: bool, immediateExit: bool, started: bool, pending: bool)

  datatype MainPc =
    | Creating(k: nat)        // about to call pthread_create for vCPU k
    | Storing(k: nat)         // created vCPU k, about to store thread_started
    | Aborting(pass: Pass, created: nat)  // pthread_create failed
    | Joining(k: nat, created: nat)
    | Clearing(k: nat, created: nat)
    | MainDone(created: nat)

  datatype ConsolePc =
    | Reading
    | WantPush(left: nat)     // bytes still to push, lock not held
    | Pushing(left: nat)      // lock held
    | Quitting(pass: Pass)
    | Ended(stopped: bool)    // stopped: ended through Ctrl-A x

  datatype State = State(cpus: seq<Cpu>, main: MainPc, console: ConsolePc,
                         ioLock: Option<nat>, serialLock: Option<Actor>, running: bool)

  /** How KVM_RUN can return on its own: what `kvm_run` and `vcpu_handle_exit` make of it.  An
      access makes `calls` device callbacks: the count of a string instruction, one for MMIO,
      none for an address without a device. */
  datatype KvmExit = Access(calls: nat) | Resume | Leave

  /** What one callback is: one of the UART, one of another device that returns OK or not. */
  datatype Callback = UartCall | OtherCall(ok: bool)

  datatype Input = Byte(pushes: nat) | Quit | Eof

  datatype Event =
    | MainCreate(ok: bool) | MainStore | MainPass | MainJoin | MainClear
    | CpuTop(i: nat) | CpuEnter(i: nat) | CpuReturn(i: nat, why: KvmExit) | CpuInterrupted(i: nat)
    | CpuLockIo(i: nat) | CpuDevice(i: nat, call: Callback) | CpuDeviceEnd(i: nat)
    | CpuLockSerial(i: nat) | CpuUnlockSerial(i: nat) | CpuUnlockIo(i: nat)
    | CpuPass(i: nat) | Deliver(i: nat)
    | ConsoleRead(input: Input) | ConsoleLock | ConsoleUnlock | ConsolePass

  /** An event of a vCPU thread outside `vm_request_stop`. */
  predicate LocalEvent(e: Event) {
    || e.CpuTop? || e.CpuEnter? || e.CpuReturn? || e.CpuInterrupted? || e.CpuLockIo? || e.CpuDevice?
    || e.CpuDeviceEnd? || e.CpuLockSerial? || e.CpuUnlockSerial? || e.CpuUnlockIo? || e.Deliver?
  }

  predicate ConsoleEvent(e: Event) {
    e.ConsoleRead? || e.ConsoleLock? || e.ConsoleUnlock? || e.ConsolePass?
  }

  /* ---------------------------------------------------------------- */
  /* Steps                                                             */
  /* ---------------------------------------------------------------- */

  function Init(n: nat, withConsole: bool): State {
    State(seq(n, _ => Cpu(Absent, false, false, false, false)),
          if n == 0 then MainDone(0) else Creating(0),
          if withConsole then Reading else Ended(false), None, None, true)
  }

  predicate Alive(c: Cpu) {
    !c.pc.Absent? && !c.pc.Exited?
  }

  function NextPass(n: nat, j: nat): Pass {
    if j < n then At(j, SetStop) else Finished
  }

  /** One step of `vm_request_stop` by `self`: the new shared flags and the new position. */
  function PassStep(s: State, self: Actor, p: Pass): (State, Pass)
    requires p.Enter? || p.At?
    requires p.At? ==> p.next < |s.cpus|
  {
    match p
    case Enter => (s.(running := false), NextPass(|s.cpus|, 0))
    case At(j, ph) =>
      var c := s.cpus[j];
      match ph {
        case SetStop => (s.(cpus := s.cpus[j := c.(shouldStop := true)]), At(j, SetImmediate))
        case SetImmediate => (s.(cpus := s.cpus[j := c.(immediateExit := true)]), At(j, TestStarted))
        case TestStarted => (s, if c.started && self != CpuThread(j) then At(j, Kill) else NextPass(|s.cpus|, j + 1))
        case Kill => (s.(cpus := s.cpus[j := c.(pending := c.pending || Alive(c))]), NextPass(|s.cpus|, j + 1))
      }
  }

  predicate PassRuns(s: State, p: Pass) {
    p.Enter? || (p.At? && p.next < |s.cpus|)
  }

  function Create(n: nat, k: nat): MainPc {
    if k < n then Creating(k) else Join(0, k)
  }

  function Join(k: nat, created: nat): MainPc {
    if k < created then Joining(k, created) else MainDone(created)
  }

  function SetPc(s: State, i: nat, pc: CpuPc): State
    requires i < |s.cpus|
  {
    s.(cpus := s.cpus[i := s.cpus[i].(pc := pc)])
  }

  function NextMain(s: State, e: Event): Option<State> {
    match (s.main, e)
    case (Creating(k), MainCreate(ok)) =>
      if k >= |s.cpus| then None
      else if ok then Some(SetPc(s, k, Top).(main := Storing(k)))
      else Some(s.(main := Aborting(Enter, k)))
    case (Storing(k), MainStore) =>
      if k >= |s.cpus| then None
      else Some(s.(cpus := s.cpus[k := s.cpus[k].(started := true)], main := Create(|s.cpus|, k + 1)))
    case (Aborting(p, k), MainPass) =>
      if !PassRuns(s, p) then None
      else
        var (t, q) := PassStep(s, MainThread, p);
        Some(t.(main := if q.Finished? then Join(0, k) else Aborting(q, k)))
    case (Joining(k, m), MainJoin) =>
      if k < |s.cpus| && s.cpus[k].pc.Exited? then Some(s.(main := Clearing(k, m))) else None
    case (Clearing(k, m), MainClear) =>
      if k >= |s.cpus| then None
      else Some(s.(cpus := s.cpus[k := s.cpus[k].(started := false)], main := Join(k + 1, m)))
    case _ => None
  }

  /** What a step of a vCPU thread outside `vm_request_stop` leaves: its own record and the locks. */
  datatype Local = Local(cpu: Cpu, io: Option<nat>, serial: Option<Actor>)

  function AfterExit(why: KvmExit): CpuPc {
    match why
    case Access(calls) => WantIo(calls)
    case Resume => Top
    case Leave => Stopping(Enter)
  }

  function AfterCall(left: nat, call: Callback): CpuPc
    requires left > 0
  {
    match call
    case UartCall => WantSerial(left)
    case OtherCall(ok) => if ok then InDevice(left - 1) else IoDone(false)
  }

  /** The run loop and the locking of PIO and MMIO handling. */
  function LocalStep(c: Cpu, i: nat, io: Option<nat>, serial: Option<Actor>, e: Event): Option<Local> {
    match e
    case CpuTop(_) =>
      if c.pc.Top? then Some(Local(c.(pc := if c.shouldStop then Stopping(Enter) else Tested), io, serial)) else None
    case CpuEnter(_) =>
      if c.pc.Tested? then Some(Local(c.(pc := if c.immediateExit then Top else InKvm), io, serial)) else None
    case CpuReturn(_, why) =>
      if c.pc.InKvm? then Some(Local(c.(pc := AfterExit(why)), io, serial)) else None
    case CpuInterrupted(_) =>
      if c.pc.InKvm? && c.pending then Some(Local(c.(pc := Top, pending := false), io, serial)) else None
    case CpuLockIo(_) =>
      if c.pc.WantIo? && io.None? then Some(Local(c.(pc := InDevice(c.pc.left)), Some(i), serial)) else None
    case CpuDevice(_, call) =>
      if c.pc.InDevice? && c.pc.left > 0 then Some(Local(c.(pc := AfterCall(c.pc.left, call)), io, serial)) else None
    case CpuDeviceEnd(_) =>
      if c.pc == InDevice(0) then Some(Local(c.(pc := IoDone(true)), io, serial)) else None
    case CpuLockSerial(_) =>
      if c.pc.WantSerial? && serial.None? then Some(Local(c.(pc := HaveSerial(c.pc.left)), io, Some(CpuThread(i))))
      else None
    case CpuUnlockSerial(_) =>
      if c.pc.HaveSerial? && c.pc.left > 0 then Some(Local(c.(pc := InDevice(c.pc.left - 1)), io, None)) else None
    case CpuUnlockIo(_) =>
      if c.pc.IoDone? then Some(Local(c.(pc := if c.pc.resume then Top else Stopping(Enter)), None, serial)) else None
    case Deliver(_) =>
      if c.pending && !c.pc.InKvm? then Some(Local(c.(pending := false), io, serial)) else None
    case _ => None
  }

  /** A statement of `vm_request_stop` run by vCPU thread i on its way out. */
  function NextCpuPass(s: State, i: nat): Option<State>
    requires i < |s.cpus|
  {
    var pc := s.cpus[i].pc;
    if !pc.Stopping? || !PassRuns(s, pc.pass) then None
    else
      var (t, q) := PassStep(s, CpuThread(i), pc.pass);
      if q.Finished? then Some(t.(cpus := t.cpus[i := t.cpus[i].(pc := Exited, pending := false)]))
      else Some(SetPc(t, i, Stopping(q)))
  }

  function NextCpu(s: State, i: nat, e: Event): Option<State>
    requires i < |s.cpus|
  {
    if e.CpuPass? then NextCpuPass(s, i)
    else
      match LocalStep(s.cpus[i], i, s.ioLock, s.serialLock, e)
      case None => None
      case Some(l) => Some(s.(cpus := s.cpus[i := l.cpu], ioLock := l.io, serialLock := l.serial))
  }

  function NextConsole(s: State, e: Event): Option<State> {
    match (s.console, e)
    case (Reading, ConsoleRead(input)) =>
      Some(s.(console := match input
                         case Byte(k) => if k == 0 then Reading else WantPush(k)
                         case Quit => Quitting(Enter)
                         case Eof => Ended(false)))
    case (WantPush(k), ConsoleLock) =>
      if s.serialLock.None? && k > 0 then Some(s.(console := Pushing(k), serialLock := Some(ConsoleThread))) else None
    case (Pushing(k), ConsoleUnlock) =>
      if k == 0 then None
      else Some(s.(console := if k == 1 then Reading else WantPush(k - 1), serialLock := None))
    case (Quitting(p), ConsolePass) =>
      if !PassRuns(s, p) then None
      else
        var (t, q) := PassStep(s, ConsoleThread, p);
        Some(t.(console := if q.Finished? then Ended(true) else Quitting(q)))
    case _ => None
  }

  /** The transition relation: None when `e` is not enabled in `s`. */
  function Next(s: State, e: Event): Option<State> {
    match e
    case MainCreate(_) | MainStore | MainPass | MainJoin | MainClear => NextMain(s, e)
    case ConsoleRead(_) | ConsoleLock | ConsoleUnlock | ConsolePass => NextConsole(s, e)
    case _ => if e.i < |s.cpus| then NextCpu(s, e.i, e) else None
  }

  function Run(s: State, es: seq<Event>): Option<State>
    decreases |es|
  {
    if es == [] then Some(s)
    else match Next(s, es[0])
      case None => None
      case Some(t) => Run(t, es[1..])
  }

  /* ---------------------------------------------------------------- */
  /* Invariant of every reachable state                                */
  /* ---------------------------------------------------------------- */

  predicate Created(s: State, j: nat) {
    match s.main
    case Creating(k) => j < k
    case Storing(k) => j <= k
    case Aborting(_, m) => j < m
    case Joining(_, m) => j < m
    case Clearing(_, m) => j < m
    case MainDone(m) => j < m
  }

  predicate Started(s: State, j: nat) {
    match s.main
    case Creating(k) => j < k
    case Storing(k) => j < k
    case Aborting(_, m) => j < m
    case Joining(k, m) => k <= j < m
    case Clearing(k, m) => k <= j < m
    case MainDone(m) => false
  }

  predicate Joined(s: State, j: nat) {
    match s.main
    case Joining(k, m) => j < k
    case Clearing(k, m) => j <= k
    case MainDone(m) => j < m
    case _ => false
  }

  predicate MainOk(s: State) {
    match s.main
    case Creating(k) => k < |s.cpus|
    case Storing(k) => k < |s.cpus|
    case Aborting(p, m) => PassRuns(s, p) && m < |s.cpus|
    case Joining(k, m) => k < m <= |s.cpus|
    case Clearing(k, m) => k < m <= |s.cpus|
    case MainDone(m) => m <= |s.cpus|
  }

  predicate ConsoleOk(s: State) {
    && (s.console.WantPush? ==> s.console.left > 0)
    && (s.console.Pushing? ==> s.console.left > 0)
    && (s.console.Quitting? ==> PassRuns(s, s.console.pass))
  }

  predicate HoldsIo(pc: CpuPc) {
    pc.InDevice? || pc.WantSerial? || pc.HaveSerial? || pc.IoDone?
  }

  predicate CpuOk(s: State, j: nat)
    requires j < |s.cpus|
  {
    var c := s.cpus[j];
    && (c.pc.Absent? <==> !Created(s, j))
    && (c.started <==> Started(s, j))
    && (Joined(s, j) ==> c.pc.Exited?)
    && (c.pending ==> Alive(c))
    && (c.pc.Stopping? ==> PassRuns(s, c.pc.pass))
    && (HoldsIo(c.pc) <==> s.ioLock == Some(j))
    && (c.pc.HaveSerial? <==> s.serialLock == Some(CpuThread(j)))
    && CallsLeft(c.pc)
  }

  /** A thread inside a UART callback still counts that callback. */
  predicate CallsLeft(pc: CpuPc) {
    pc.WantSerial? || pc.HaveSerial? ==> pc.left > 0
  }

  /** Holds of every reachable state: thread bookkeeping, mutual exclusion on both locks. */
  predicate Inv(s: State) {
    && MainOk(s) && ConsoleOk(s)
    && (forall j: nat :: j < |s.cpus| ==> CpuOk(s, j))
    && (s.ioLock.Some? ==> s.ioLock.value < |s.cpus|)
    && (s.serialLock.Some? ==> !s.serialLock.value.MainThread?
                               && (s.serialLock.value.CpuThread? ==> s.serialLock.value.id < |s.cpus|))
    && (s.console.Pushing? <==> s.serialLock == Some(ConsoleThread))
  }

  lemma InitInv(n: nat, withConsole: bool)
    ensures Inv(Init(n, withConsole))
  {
  }

  lemma PassStepFlags(s: State, self: Actor, p: Pass)
    requires PassRuns(s, p)
    ensures var (t, q) := PassStep(s, self, p);
            && |t.cpus| == |s.cpus| && (PassRuns(t, q) || q.Finished?)
            && t == s.(cpus := t.cpus, running := t.running)
            && forall j :: 0 <= j < |s.cpus| ==>
                 && t.cpus[j].pc == s.cpus[j].pc && t.cpus[j].started == s.cpus[j].started
                 && (s.cpus[j].shouldStop ==> t.cpus[j].shouldStop)
                 && (s.cpus[j].immediateExit ==> t.cpus[j].immediateExit)
                 && (s.cpus[j].pending ==> t.cpus[j].pending)
                 && (t.cpus[j].pending && !s.cpus[j].pending ==> Alive(s.cpus[j]))
  {
  }

  lemma StepInvCreate(s: State, ok: bool)
    requires Inv(s) && NextMain(s, MainCreate(ok)).Some?
    ensures Inv(NextMain(s, MainCreate(ok)).value)
  {
    var t := NextMain(s, MainCreate(ok)).value;
    forall j: nat | j < |t.cpus| ensures CpuOk(t, j) {
      assert CpuOk(s, j);
    }
  }

  lemma StepInvMainPass(s: State)
    requires Inv(s) && NextMain(s, MainPass).Some?
    ensures Inv(NextMain(s, MainPass).value)
  {
    var t := NextMain(s, MainPass).value;
    PassStepFlags(s, MainThread, s.main.pass);
    hide PassStep;
    forall j: nat | j < |t.cpus| ensures CpuOk(t, j) {
      assert CpuOk(s, j);
    }
  }

  lemma StepInvStore(s: State, e: Event)
    requires Inv(s) && (e.MainStore? || e.MainJoin? || e.MainClear?) && NextMain(s, e).Some?
    ensures Inv(NextMain(s, e).value)
  {
    hide PassStep;
    var t := NextMain(s, e).value;
    forall j: nat | j < |t.cpus| ensures CpuOk(t, j) {
      assert CpuOk(s, j);
    }
  }

  lemma NextMainSize(s: State, e: Event)
    requires NextMain(s, e).Some?
    ensures |NextMain(s, e).value.cpus| == |s.cpus|
  {
    if s.main.Aborting? {
      PassStepFlags(s, MainThread, s.main.pass);
    }
    hide PassStep;
  }

  lemma StepInvMain(s: State, e: Event)
    requires Inv(s) && NextMain(s, e).Some?
    ensures Inv(NextMain(s, e).value) && |NextMain(s, e).value.cpus| == |s.cpus|
  {
    NextMainSize(s, e);
    hide NextMain, Inv;
    match e
    case MainCreate(ok) => StepInvCreate(s, ok);
    case MainPass => StepInvMainPass(s);
    case MainStore | MainJoin | MainClear => StepInvStore(s, e);
    case _ => NoMainEvent(s, e);
  }

  lemma NoMainEvent(s: State, e: Event)
    requires !e.MainCreate? && !e.MainStore? && !e.MainPass? && !e.MainJoin? && !e.MainClear?
    ensures NextMain(s, e).None?
  {
  }

  lemma StepInvConsole(s: State, e: Event)
    requires Inv(s) && NextConsole(s, e).Some?
    ensures Inv(NextConsole(s, e).value) && |NextConsole(s, e).value.cpus| == |s.cpus|
  {
    var t := NextConsole(s, e).value;
    if s.console.Quitting? {
      PassStepFlags(s, ConsoleThread, s.console.pass);
    }
    hide PassStep;
    forall j: nat | j < |t.cpus| ensures CpuOk(t, j) {
      assert CpuOk(s, j);
    }
  }

  lemma StepInvCpuPass(s: State, i: nat)
    requires Inv(s) && i < |s.cpus| && NextCpu(s, i, CpuPass(i)).Some?
    ensures Inv(NextCpu(s, i, CpuPass(i)).value) && |NextCpu(s, i, CpuPass(i)).value.cpus| == |s.cpus|
  {
    var t := NextCpu(s, i, CpuPass(i)).value;
    assert CpuOk(s, i);
    PassStepFlags(s, CpuThread(i), s.cpus[i].pc.pass);
    hide PassStep;
    assert t == s.(cpus := t.cpus, running := t.running);
    forall j: nat | j < |t.cpus| ensures CpuOk(t, j) {
      assert CpuOk(s, j);
      assert Created(t, j) == Created(s, j) && Started(t, j) == Started(s, j) && Joined(t, j) == Joined(s, j);
    }
  }

  /** A lock is kept, taken when free, or given up by its holder. */
  predicate LockMove<T(==)>(self: T, held: bool, lock: Option<T>, held': bool, lock': Option<T>) {
    || (held' == held && lock' == lock)
    || (!held && held' && lock == None && lock' == Some(self))
    || (held && !held' && lock' == None)
  }

  /** What a local step may do to the thread's own record and to the locks. */
  predicate LocalMove(c: Cpu, i: nat, io: Option<nat>, serial: Option<Actor>, l: Local) {
    && RecordMove(c, l.cpu)
    && LockMove(i, HoldsIo(c.pc), io, HoldsIo(l.cpu.pc), l.io)
    && LockMove(CpuThread(i), c.pc.HaveSerial?, serial, l.cpu.pc.HaveSerial?, l.serial)
  }

  predicate RecordMove(c: Cpu, d: Cpu) {
    d == c.(pc := d.pc, pending := d.pending) && (d.pending ==> c.pending) && PcMove(c.pc, d.pc)
  }

  predicate PcMove(c: CpuPc, d: CpuPc) {
    && (d.Absent? <==> c.Absent?) && (d.Exited? <==> c.Exited?)
    && (d.Stopping? && !c.Stopping? ==> d.pass == Enter)
    && (c.Stopping? ==> d == c)
    && (CallsLeft(c) ==> CallsLeft(d))
  }

  lemma LocalStepPc(c: Cpu, i: nat, io: Option<nat>, serial: Option<Actor>, e: Event)
    requires LocalStep(c, i, io, serial, e).Some?
    ensures PcMove(c.pc, LocalStep(c, i, io, serial, e).value.cpu.pc)
  {
    assert LocalEvent(e);
  }

  lemma LocalStepRecord(c: Cpu, i: nat, io: Option<nat>, serial: Option<Actor>, e: Event)
    requires LocalStep(c, i, io, serial, e).Some?
    ensures var d := LocalStep(c, i, io, serial, e).value.cpu;
            d == c.(pc := d.pc, pending := d.pending) && (d.pending ==> c.pending)
  {
    assert LocalEvent(e);
  }

  lemma LocalStepIo(c: Cpu, i: nat, io: Option<nat>, serial: Option<Actor>, e: Event)
    requires LocalStep(c, i, io, serial, e).Some?
    ensures var l := LocalStep(c, i, io, serial, e).value;
            LockMove(i, HoldsIo(c.pc), io, HoldsIo(l.cpu.pc), l.io)
  {
    assert LocalEvent(e);
  }

  lemma LocalStepSerial(c: Cpu, i: nat, io: Option<nat>, serial: Option<Actor>, e: Event)
    requires LocalStep(c, i, io, serial, e).Some?
    ensures var l := LocalStep(c, i, io, serial, e).value;
            LockMove(CpuThread(i), c.pc.HaveSerial?, serial, l.cpu.pc.HaveSerial?, l.serial)
  {
    assert LocalEvent(e);
  }

  /** The steps of a vCPU thread outside `vm_request_stop` touch only its own record and the
      locks, and these only by the rules of a mutex. */
  lemma LocalStepMoves(c: Cpu, i: nat, io: Option<nat>, serial: Option<Actor>, e: Event)
    requires LocalStep(c, i, io, serial, e).Some?
    ensures LocalMove(c, i, io, serial, LocalStep(c, i, io, serial, e).value)
  {
    LocalStepRecord(c, i, io, serial, e);
    LocalStepPc(c, i, io, serial, e);
    LocalStepIo(c, i, io, serial, e);
    LocalStepSerial(c, i, io, serial, e);
    hide LocalStep, PcMove, LockMove, HoldsIo;
  }

  lemma CpuStepLocal(s: State, i: nat, e: Event)
    requires i < |s.cpus| && !e.CpuPass? && NextCpu(s, i, e).Some?
    ensures var t := NextCpu(s, i, e).value;
            && |t.cpus| == |s.cpus|
            && t == s.(cpus := s.cpus[i := t.cpus[i]], ioLock := t.ioLock, serialLock := t.serialLock)
            && LocalMove(s.cpus[i], i, s.ioLock, s.serialLock, Local(t.cpus[i], t.ioLock, t.serialLock))
  {
    LocalStepMoves(s.cpus[i], i, s.ioLock, s.serialLock, e);
    hide LocalStep, LocalMove;
  }

  lemma StepInvCpuLocal(s: State, i: nat, e: Event)
    requires Inv(s) && i < |s.cpus| && !e.CpuPass? && NextCpu(s, i, e).Some?
    ensures Inv(NextCpu(s, i, e).value) && |NextCpu(s, i, e).value.cpus| == |s.cpus|
  {
    hide Inv, NextCpu, LocalMove;
    CpuStepLocal(s, i, e);
    CpuLocalOk(s, NextCpu(s, i, e).value, i);
  }

  lemma CpuLocalOk(s: State, t: State, i: nat)
    requires Inv(s) && i < |s.cpus| == |t.cpus|
    requires t == s.(cpus := s.cpus[i := t.cpus[i]], ioLock := t.ioLock, serialLock := t.serialLock)
    requires LocalMove(s.cpus[i], i, s.ioLock, s.serialLock, Local(t.cpus[i], t.ioLock, t.serialLock))
    ensures Inv(t)
  {
    assert CpuOk(s, i);
    forall j: nat | j < |t.cpus| ensures CpuOk(t, j) {
      assert CpuOk(s, j);
      assert Created(t, j) == Created(s, j) && Started(t, j) == Started(s, j) && Joined(t, j) == Joined(s, j);
    }
  }

  lemma StepInv(s: State, e: Event)
    requires Inv(s) && Next(s, e).Some?
    ensures Inv(Next(s, e).value) && |Next(s, e).value.cpus| == |s.cpus|
  {
    match e
    case MainCreate(_) | MainStore | MainPass | MainJoin | MainClear => StepInvMain(s, e);
    case ConsoleRead(_) | ConsoleLock | ConsoleUnlock | ConsolePass => StepInvConsole(s, e);
    case CpuPass(i) => StepInvCpuPass(s, i);
    case _ => StepInvCpuLocal(s, e.i, e);
  }

  /* ---------------------------------------------------------------- */
  /* vm_request_stop run without interference                          */
  /* ---------------------------------------------------------------- */

  function Stopped(c: Cpu, self: bool): Cpu {
    c.(shouldStop := true, immediateExit := true, pending := c.pending || (c.started && !self && Alive(c)))
  }

  /** The shared state of `struct vmm_vm` that `vm_request_stop` writes. */
  class Vm {
    var cpus: seq<Cpu>
    var running: bool

    /** `vm_request_stop` called by thread `self`: every vCPU is told to stop and barred from
        KVM_RUN, and exactly the live started threads other than the caller are signalled. */
    method RequestStop(self: Actor)
      modifies this
      ensures !running && |cpus| == |old(cpus)|
      ensures forall j :: 0 <= j < |cpus| ==> cpus[j] == Stopped(old(cpus)[j], self == CpuThread(j))
    {
      running := false;
      var i := 0;
      while i < |cpus|
        invariant i <= |cpus| == |old(cpus)| && !running
        invariant forall j :: 0 <= j < i ==> cpus[j] == Stopped(old(cpus)[j], self == CpuThread(j))
        invariant forall j :: i <= j < |cpus| ==> cpus[j] == old(cpus)[j]
      {
        cpus := cpus[i := cpus[i].(shouldStop := true)];
        cpus := cpus[i := cpus[i].(immediateExit := true)];
        if cpus[i].started && self != CpuThread(i) {
          cpus := cpus[i := cpus[i].(pending := cpus[i].pending || Alive(cpus[i]))];
        }
        i := i + 1;
      }
    }
  }

  /** The statements of an iteration that come before this one. */
  function StepsDone(ph: Phase): nat {
    match ph
    case SetStop => 0
    case SetImmediate => 1
    case TestStarted => 2
    case Kill => 3
  }

  /** All steps of a pass in a row. */
  function RunPass(s: State, self: Actor, p: Pass): State
    requires PassRuns(s, p) || p.Finished?
    decreases if p.Enter? then 4 * |s.cpus| + 1
              else if p.At? then 4 * (|s.cpus| - p.next) - StepsDone(p.phase)
              else 0
  {
    if p.Finished? then s
    else
      var (t, q) := PassStep(s, self, p);
      PassStepFlags(s, self, p);
      RunPass(t, self, q)
  }

  lemma PassOneCpu(s: State, self: Actor, j: nat)
    requires j < |s.cpus|
    ensures RunPass(s, self, At(j, SetStop)) ==
            RunPass(s.(cpus := s.cpus[j := Stopped(s.cpus[j], self == CpuThread(j))]), self, NextPass(|s.cpus|, j + 1))
  {
    var (s1, p1) := PassStep(s, self, At(j, SetStop));
    var (s2, p2) := PassStep(s1, self, p1);
    var (s3, p3) := PassStep(s2, self, p2);
    var (s4, _) := if p3 == At(j, Kill) then PassStep(s3, self, p3) else (s3, p3);
    assert s4.cpus == s.cpus[j := Stopped(s.cpus[j], self == CpuThread(j))];
    assert RunPass(s, self, At(j, SetStop)) == RunPass(s1, self, p1);
    assert RunPass(s1, self, p1) == RunPass(s2, self, p2);
    assert RunPass(s2, self, p2) == RunPass(s3, self, p3);
    assert RunPass(s3, self, p3) == RunPass(s4, self, NextPass(|s.cpus|, j + 1));
  }

  lemma {:induction false} RunPassFrom(s: State, self: Actor, j: nat)
    requires j <= |s.cpus|
    ensures var t := RunPass(s, self, NextPass(|s.cpus|, j));
            && |t.cpus| == |s.cpus| && t == s.(cpus := t.cpus)
            && forall i :: 0 <= i < |s.cpus| ==>
                 t.cpus[i] == if i < j then s.cpus[i] else Stopped(s.cpus[i], self == CpuThread(i))
    decreases |s.cpus| - j
  {
    if j < |s.cpus| {
      hide PassStep, RunPass;
      PassOneCpu(s, self, j);
      RunPassFrom(s.(cpus := s.cpus[j := Stopped(s.cpus[j], self == CpuThread(j))]), self, j + 1);
    }
  }

  /** The step system and the sequential procedure agree: a pass that no other thread
      interrupts has exactly the effect `Vm.RequestStop` promises. */
  lemma UninterruptedPass(s: State, self: Actor)
    ensures var t := RunPass(s, self, Enter);
            && |t.cpus| == |s.cpus| && t == s.(cpus := t.cpus, running := false)
            && forall i :: 0 <= i < |s.cpus| ==> t.cpus[i] == Stopped(s.cpus[i], self == CpuThread(i))
  {
    RunPassFrom(s.(running := false), self, 0);
  }
}
