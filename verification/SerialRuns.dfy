/** The UART over whole runs: interrupt line, FIFO accounting, and the guest's handler. */
module SerialRuns {
  import opened Bytes
  import opened Common
  import opened Serial8250

  datatype Op = Load(off: nat, size: nat) | Store(off: nat, size: nat, v: byte) | Arrive(c: byte)

  function Step(s: Uart, op: Op): Uart {
    match op
    case Load(off, size) => AfterRead(s, off, size).1
    case Store(off, size, v) => AfterWrite(s, off, size, v)
    case Arrive(c) => AfterPush(s, c)
  }

  /** What became of a received byte. */
  datatype Fate = Delivered(b: byte) | Cleared(b: byte)

  /** The byte an operation puts into the FIFO: a host push, or a loopback store. */
  function Accepted(s: Uart, op: Op): seq<byte> {
    if |s.rx| >= CAPACITY then []
    else
      match op
      case Arrive(c) => [c]
      case Store(off, size, v) => if size == 1 && off == TX && !Dlab(s) && Loop(s) then [v] else []
      case _ => []
  }

  predicate ReadsByte(s: Uart, op: Op) {
    op == Load(RX, 1) && !Dlab(s) && s.rx != []
  }

  predicate ClearsFifo(s: Uart, op: Op) {
    op.Store? && op.off == FCR && op.size == 1 && s.lcr != CONF_B && On(op.v, 2)
  }

  function ClearAll(q: seq<byte>): (r: seq<Fate>)
    ensures BytesOf(r) == q && Reads(r) == []
  {
    if q == [] then [] else [Cleared(q[0])] + ClearAll(q[1..])
  }

  function Fates(s: Uart, op: Op): seq<Fate> {
    if ReadsByte(s, op) then [Delivered(AfterRead(s, RX, 1).0[0])]
    else if ClearsFifo(s, op) then ClearAll(s.rx)
    else []
  }

  function BytesOf(fs: seq<Fate>): seq<byte> {
    if fs == [] then [] else [fs[0].b] + BytesOf(fs[1..])
  }

  /** The bytes the guest got out of RBR. */
  function Reads(fs: seq<Fate>): seq<byte> {
    if fs == [] then [] else (if fs[0].Delivered? then [fs[0].b] else []) + Reads(fs[1..])
  }

  datatype Log = Log(uart: Uart, sent: seq<bool>, accepted: seq<byte>, fates: seq<Fate>)

  /** A run of operations from `s`: final state, levels sent to the callback, bytes accepted,
      and the fate of every byte that left the FIFO, in order. */
  function Run(s: Uart, ops: seq<Op>): Log
    decreases |ops|
  {
    if ops == [] then Log(s, [], [], [])
    else
      var t := Step(s, ops[0]);
      var r := Run(t, ops[1..]);
      Log(r.uart, Change(s.level, t.level) + r.sent, Accepted(s, ops[0]) + r.accepted, Fates(s, ops[0]) + r.fates)
  }

  /* ---------------------------------------------------------------- */
  /* The interrupt line                                                */
  /* ---------------------------------------------------------------- */

  lemma SettleSettles(s: Uart)
    requires |s.rx| <= CAPACITY
    ensures Settled(Settle(s))
  {
    hide On;
  }

  lemma StepSettled(s: Uart, op: Op)
    requires Settled(s)
    ensures Settled(Step(s, op))
  {
    hide On, Settle, ModemStatus;
    match op
    case Load(off, size) => SettleSettles(ReadReg(s, off).1);
    case Store(off, size, v) => SettleSettles(WriteReg(s, off, v));
    case Arrive(c) => SettleSettles(Accept(s, c));
  }

  /** Levels that alternate, beginning with the opposite of `was`. */
  predicate Alternate(was: bool, sent: seq<bool>) {
    forall i :: 0 <= i < |sent| ==> sent[i] == (if i % 2 == 0 then !was else was)
  }

  /** The level after `sent`. */
  function LastLevel(was: bool, sent: seq<bool>): bool {
    if sent == [] then was else sent[|sent| - 1]
  }

  lemma AlternateNext(was: bool, now: bool, sent: seq<bool>)
    requires Alternate(now, sent)
    ensures Alternate(was, Change(was, now) + sent) && LastLevel(was, Change(was, now) + sent) == LastLevel(now, sent)
  {
    if was != now {
      var all := [now] + sent;
      forall i | 0 <= i < |all| ensures all[i] == (if i % 2 == 0 then !was else was) {
        if i > 0 {
          assert all[i] == sent[i - 1];
          assert i % 2 == 0 <==> (i - 1) % 2 != 0;
        }
      }
    }
  }

  /** IIR and line level are the fixed function of the other registers in every reachable
      state; the levels sent to the callback strictly alternate, beginning with the opposite
      of the initial level, and the last one sent is the level of the line. */
  lemma {:induction false} LevelsAlternate(s: Uart, ops: seq<Op>)
    requires Settled(s)
    ensures var r := Run(s, ops);
            Settled(r.uart) && Alternate(s.level, r.sent) && LastLevel(s.level, r.sent) == r.uart.level
    decreases |ops|
  {
    if ops != [] {
      hide Step, Settled, Accepted, Fates, Alternate, LastLevel, Change;
      StepSettled(s, ops[0]);
      LevelsAlternate(Step(s, ops[0]), ops[1..]);
      AlternateNext(s.level, Step(s, ops[0]).level, Run(Step(s, ops[0]), ops[1..]).sent);
    }
  }

  /* ---------------------------------------------------------------- */
  /* FIFO accounting                                                   */
  /* ---------------------------------------------------------------- */

  lemma {:induction false} BytesAppend(a: seq<Fate>, b: seq<Fate>)
    ensures BytesOf(a + b) == BytesOf(a) + BytesOf(b)
  {
    if a == [] {
      assert a + b == b;
    } else {
      assert (a + b)[1..] == a[1..] + b;
      BytesAppend(a[1..], b);
    }
  }

  /** One operation: what was queued or comes in is what leaves or stays, in order. */
  lemma StepConserves(s: Uart, op: Op)
    ensures s.rx + Accepted(s, op) == BytesOf(Fates(s, op)) + Step(s, op).rx
  {
    hide On, Iir, Level, ModemStatus;
    if ReadsByte(s, op) {
      var f := Delivered(s.rx[0]);
      assert Fates(s, op) == [f] && [f][1..] == [];
      assert BytesOf([f]) == [s.rx[0]];
    }
  }

  lemma Regroup(a: seq<byte>, b: seq<byte>, c: seq<byte>, d: seq<byte>, e: seq<byte>, f: seq<byte>, g: seq<byte>)
    requires a + b == c + d && d + e == f + g
    ensures a + (b + e) == (c + f) + g
  {
    assert a + (b + e) == (a + b) + e;
    assert (c + d) + e == c + (d + e);
    assert c + (f + g) == (c + f) + g;
  }

  /** FIFO conservation: over any run the accepted bytes, behind those queued at the start,
      are exactly the bytes delivered and cleared followed by those still queued. */
  lemma {:induction false} FifoConserves(s: Uart, ops: seq<Op>)
    ensures s.rx + Run(s, ops).accepted == BytesOf(Run(s, ops).fates) + Run(s, ops).uart.rx
    decreases |ops|
  {
    if ops != [] {
      var t, r := Step(s, ops[0]), Run(Step(s, ops[0]), ops[1..]);
      StepConserves(s, ops[0]);
      FifoConserves(t, ops[1..]);
      hide Step, Accepted, Fates;
      BytesAppend(Fates(s, ops[0]), r.fates);
      Regroup(s.rx, Accepted(s, ops[0]), BytesOf(Fates(s, ops[0])), t.rx, r.accepted, BytesOf(r.fates), r.uart.rx);
    }
  }

  function Count(fs: seq<Fate>): nat {
    if fs == [] then 0 else (if fs[0].Cleared? then 1 else 0) + Count(fs[1..])
  }

  lemma {:induction false} FateCounts(fs: seq<Fate>)
    ensures |BytesOf(fs)| == |Reads(fs)| + Count(fs)
  {
    if fs != [] {
      FateCounts(fs[1..]);
    }
  }

  /** From reset: accepted = read + cleared + still queued, and at most 255 are queued. */
  lemma FifoCounts(ops: seq<Op>)
    ensures var r := Run(RESET, ops);
            |r.accepted| == |Reads(r.fates)| + Count(r.fates) + |r.uart.rx| && |r.uart.rx| <= CAPACITY
  {
    assert Settled(RESET);
    hide Run, BytesOf, Reads, Count, Alternate, LastLevel, Iir, Level;
    var r := Run(RESET, ops);
    FifoConserves(RESET, ops);
    assert |RESET.rx + r.accepted| == |BytesOf(r.fates) + r.uart.rx|;
    FateCounts(r.fates);
    LevelsAlternate(RESET, ops);
  }

  lemma {:induction false} ReadsAppend(a: seq<Fate>, b: seq<Fate>)
    ensures Reads(a + b) == Reads(a) + Reads(b)
  {
    if a == [] {
      assert a + b == b;
    } else {
      assert (a + b)[1..] == a[1..] + b;
      ReadsAppend(a[1..], b);
      var first := if a[0].Delivered? then [a[0].b] else [];
      assert Reads(a) == first + Reads(a[1..]);
      assert Reads(a + b) == first + (Reads(a[1..]) + Reads(b));
    }
  }

  predicate NeverClears(s: Uart, ops: seq<Op>)
    decreases |ops|
  {
    ops == [] || (!ClearsFifo(s, ops[0]) && NeverClears(Step(s, ops[0]), ops[1..]))
  }

  lemma {:induction false} AllDelivered(s: Uart, ops: seq<Op>)
    requires NeverClears(s, ops)
    ensures Reads(Run(s, ops).fates) == BytesOf(Run(s, ops).fates)
    decreases |ops|
  {
    if ops != [] {
      AllDelivered(Step(s, ops[0]), ops[1..]);
      var f, r := Fates(s, ops[0]), Run(Step(s, ops[0]), ops[1..]).fates;
      ReadsAppend(f, r);
      BytesAppend(f, r);
      hide Step, Run;
      assert |f| == 1 ==> f[1..] == [];
      assert Reads(f) == BytesOf(f);
    }
  }

  /** Without FCR clears the guest reads a prefix of what was accepted, in that order, and
      the rest is what is queued. */
  lemma ReadsInOrder(ops: seq<Op>)
    requires NeverClears(RESET, ops)
    ensures var r := Run(RESET, ops); r.accepted == Reads(r.fates) + r.uart.rx
  {
    FifoConserves(RESET, ops);
    AllDelivered(RESET, ops);
    assert [] + Run(RESET, ops).accepted == Run(RESET, ops).accepted;
  }

  /* ---------------------------------------------------------------- */
  /* Registers                                                         */
  /* ---------------------------------------------------------------- */

  /** The value a one-byte read returns. */
  function Value(s: Uart, off: nat): byte {
    AfterRead(s, off, 1).0[0]
  }

  /** Registers read back what was written, IER and MCR without their reserved bits; with
      DLAB set, offsets 0 and 1 are the divisor latch instead and IER keeps its value.  A write
      to LCR, MCR or SCR shows at no other of them. */
  lemma RegistersReadBack(s: Uart, v: byte)
    ensures Value(AfterWrite(s, SCR, 1, v), SCR) == v && Value(AfterWrite(s, LCR, 1, v), LCR) == v
    ensures Value(AfterWrite(s, MCR, 1, v), MCR) == v % 32
    ensures !Dlab(s) ==> Value(AfterWrite(s, IER, 1, v), IER) == v % 16
    ensures Dlab(s) ==> Value(AfterWrite(s, TX, 1, v), RX) == v && Value(AfterWrite(s, IER, 1, v), IER) == v
    ensures Dlab(s) ==> AfterWrite(s, IER, 1, v).ier == s.ier && AfterWrite(s, TX, 1, v).rx == s.rx
    ensures forall off, other :: off in PLAIN && other in PLAIN && off != other ==>
              Value(AfterWrite(s, off, 1, v), other) == Value(s, other)
  {
    hide On, Iir, Level;
    forall off, other | off in PLAIN && other in PLAIN && off != other
      ensures Value(AfterWrite(s, off, 1, v), other) == Value(s, other)
    {
      RegistersIndependent(s, off, v, other);
    }
  }

  const PLAIN: set<nat> := {LCR, MCR, SCR}

  /** A write to one of these registers shows at no other. */
  lemma RegistersIndependent(s: Uart, off: nat, v: byte, other: nat)
    requires off in PLAIN && other in PLAIN && off != other
    ensures Value(AfterWrite(s, off, 1, v), other) == Value(s, other)
  {
    hide On, Iir, Level;
  }

  /** Line status: the transmitter is always empty, and data is ready exactly while a byte is
      queued. */
  lemma LineStatus(s: Uart)
    ensures On(Value(s, LSR), 0x20) && On(Value(s, LSR), 0x40) && (On(Value(s, LSR), 1) <==> s.rx != [])
  {
  }

  /** The driver's probe finds a 16550A: after enabling the FIFOs IIR has both FIFO bits set,
      after disabling them neither; and there is no EFR, since under LCR 0xBF offset 2 reads
      zero and swallows writes. */
  lemma ProbeFindsA16550A(s: Uart, v: byte)
    requires Settled(s)
    ensures s.lcr != CONF_B ==> Value(AfterWrite(s, FCR, 1, v), IIR) / 64 == (if v % 2 == 1 then 3 else 0)
    ensures s.lcr == CONF_B ==> Value(s, IIR) == 0 && AfterWrite(s, FCR, 1, v) == s
  {
    hide RdiCause, ThriCause;
  }

  /* ---------------------------------------------------------------- */
  /* Loopback                                                          */
  /* ---------------------------------------------------------------- */

  /** In loopback nothing leaves: no host output and no interrupt, whatever is written. */
  lemma LoopbackIsSilent(s: Uart, off: nat, size: nat, v: byte)
    requires Loop(s) && Settled(s) && off != MCR
    ensures Transmitted(s, off, size, v) == [] && !AfterWrite(s, off, size, v).level
  {
    hide On, Iir, RdiCause, ThriCause;
  }

  function Stores(bs: seq<byte>): seq<Op> {
    if bs == [] then [] else [Store(TX, 1, bs[0])] + Stores(bs[1..])
  }

  /** What a FIFO of 255 bytes keeps of what is offered to it. */
  function Kept(bs: seq<byte>): seq<byte> {
    if |bs| <= CAPACITY then bs else bs[..CAPACITY]
  }

  lemma KeptStepwise(q: seq<byte>, bs: seq<byte>)
    requires bs != []
    ensures Kept(q + bs) == Kept(Kept(q + [bs[0]]) + bs[1..])
  {
    assert q + bs == (q + [bs[0]]) + bs[1..];
  }

  lemma StoreEchoes(s: Uart, b: byte)
    requires Loop(s) && !Dlab(s) && |s.rx| <= CAPACITY
    ensures var t := Step(s, Store(TX, 1, b));
            t.rx == Kept(s.rx + [b]) && t.lcr == s.lcr && t.mcr == s.mcr
  {
    hide On, Iir, Level;
  }

  /** Bytes stored in loopback mode join the FIFO in order, and those beyond its 255 are lost. */
  lemma {:induction false} LoopbackEchoes(s: Uart, bs: seq<byte>)
    requires Loop(s) && !Dlab(s) && |s.rx| <= CAPACITY
    ensures var t := Run(s, Stores(bs)).uart;
            t.rx == Kept(s.rx + bs) && t.lcr == s.lcr && t.mcr == s.mcr
    decreases |bs|
  {
    if bs == [] {
      assert s.rx + bs == s.rx;
    } else {
      var t := Step(s, Store(TX, 1, bs[0]));
      StoreEchoes(s, bs[0]);
      assert Stores(bs)[1..] == Stores(bs[1..]);
      hide Step, On, Kept;
      LoopbackEchoes(t, bs[1..]);
      KeptStepwise(s.rx, bs);
    }
  }

  /** A driver that reads the receive register while the line status says there is data, at
      most `n` times. */
  function Polled(s: Uart, n: nat): seq<byte>
    decreases n
  {
    var (status, t) := AfterRead(s, LSR, 1);
    if n == 0 || !On(status[0], 1) then []
    else
      var (data, u) := AfterRead(t, RX, 1);
      data + Polled(u, n - 1)
  }

  lemma PollOne(s: Uart)
    requires !Dlab(s)
    ensures var (status, t) := AfterRead(s, LSR, 1);
            && (On(status[0], 1) <==> s.rx != [])
            && (s.rx != [] ==> AfterRead(t, RX, 1).0 == [s.rx[0]])
            && (s.rx != [] ==> AfterRead(t, RX, 1).1.rx == s.rx[1..] && AfterRead(t, RX, 1).1.lcr == s.lcr)
  {
    LineStatus(s);
    hide On, Iir, Level;
  }

  lemma {:induction false} PollDrains(s: Uart, n: nat)
    requires !Dlab(s) && n >= |s.rx|
    ensures Polled(s, n) == s.rx
    decreases n
  {
    PollOne(s);
    if n > 0 && s.rx != [] {
      var u := AfterRead(AfterRead(s, LSR, 1).1, RX, 1).1;
      hide On, Iir, Level, AfterRead;
      PollDrains(u, n - 1);
    }
  }

  /** How a driver measures the FIFO: whatever it stores in loopback mode with the FIFO empty,
      polling gives back the first 255 bytes of it, in order. */
  lemma LoopbackMeasuresFifo(s: Uart, bs: seq<byte>, n: nat)
    requires Loop(s) && !Dlab(s) && s.rx == [] && n >= CAPACITY
    ensures Polled(Run(s, Stores(bs)).uart, n) == Kept(bs)
  {
    LoopbackEchoes(s, bs);
    assert s.rx + bs == bs;
    hide On, Polled, Run;
    PollDrains(Run(s, Stores(bs)).uart, n);
  }

  /** The modem lines a loopback test reads are the ones it drives: RTS, DTR, OUT1 and OUT2
      come back as CTS, DSR, RI and DCD, and no other bit is set.  So the test that stores
      LOOP, OUT2 and RTS reads DCD and CTS. */
  lemma LoopbackLines(s: Uart, v: byte)
    requires On(v, 0x10)
    ensures var m := AfterRead(AfterWrite(s, MCR, 1, v), MSR, 1).0[0];
            && (On(m, 0x10) <==> On(v, 2)) && (On(m, 0x20) <==> On(v, 1))
            && (On(m, 0x40) <==> On(v, 4)) && (On(m, 0x80) <==> On(v, 8)) && m % 16 == 0
            && (v == 0x1a ==> m == 0x90)
  {
    MaskedBits(v);
    LineBits(v % 32);
    hide On, Lines, Iir, Level;
    assert AfterWrite(s, MCR, 1, v).mcr == v % 32;
  }

  lemma LineBits(mcr: byte)
    ensures var m := Lines(mcr);
            && (On(m, 0x10) <==> On(mcr, 2)) && (On(m, 0x20) <==> On(mcr, 1))
            && (On(m, 0x40) <==> On(mcr, 4)) && (On(m, 0x80) <==> On(mcr, 8)) && m % 16 == 0
  {
  }

  lemma MaskedBits(v: byte)
    ensures var w := v % 32;
            && (On(w, 1) <==> On(v, 1)) && (On(w, 2) <==> On(v, 2)) && (On(w, 4) <==> On(v, 4))
            && (On(w, 8) <==> On(v, 8)) && (On(w, 0x10) <==> On(v, 0x10))
  {
    var q, w := v as int / 32, v as int % 32;
    Parity(16 * q, w);
    Parity(8 * q, w / 2);
    Parity(4 * q, w / 4);
    Parity(2 * q, w / 8);
    Parity(q, w / 16);
    assert v / 2 == 16 * q + w / 2 && v / 4 == 8 * q + w / 4 && v / 8 == 4 * q + w / 8 && v / 16 == 2 * q + w / 16;
  }

  lemma Parity(a: nat, x: nat)
    ensures (2 * a + x) % 2 == x % 2
  {
  }

  /* ---------------------------------------------------------------- */
  /* The guest's handler                                               */
  /* ---------------------------------------------------------------- */

  /** One look at IIR, and one service: a received byte is read from RBR; for an empty
      transmitter the next byte to send, if any, is stored to THR. */
  function Serve(s: Uart, tx: seq<byte>): (Uart, seq<byte>, bool) {
    var (d, t) := AfterRead(s, IIR, 1);
    if On(d[0], 1) then (t, tx, true)
    else if d[0] % 16 == 4 then (AfterRead(t, RX, 1).1, tx, false)
    else if d[0] % 16 == 2 && tx != [] then (AfterWrite(t, TX, 1, tx[0]), tx[1..], false)
    else (t, tx, false)
  }

  /** Services until IIR reports no interrupt; None if that takes more than `n` looks. */
  function Handler(s: Uart, tx: seq<byte>, n: nat): Option<Uart>
    decreases n
  {
    if n == 0 then None
    else
      var (t, rest, done) := Serve(s, tx);
      if done then Some(t) else Handler(t, rest, n - 1)
  }

  /** What the handler needs from the line control register: offset 2 must be IIR, and
      offset 0 must be RBR while received data is the cause. */
  predicate Serviceable(s: Uart) {
    s.lcr != CONF_B && !(Dlab(s) && RdiCause(s))
  }

  function Backlog(s: Uart, tx: seq<byte>): nat {
    |s.rx| + 2 * |tx| + (if s.thri then 1 else 0)
  }

  lemma IirBits(s: Uart)
    ensures On(Iir(s), 1) <==> !RdiCause(s) && !ThriCause(s)
    ensures Iir(s) % 16 == 4 <==> RdiCause(s)
    ensures Iir(s) % 16 == 2 <==> ThriCause(s)
  {
  }

  /** Each service makes progress. */
  lemma ServeDrops(s: Uart, tx: seq<byte>)
    requires Settled(s) && Serviceable(s)
    ensures var (t, rest, done) := Serve(s, tx);
            && Settled(t) && Serviceable(t) && t.ier == s.ier && t.mcr == s.mcr
            && (done ==> !RdiCause(t) && !ThriCause(t) && t == s)
            && (!done ==> Backlog(t, rest) < Backlog(s, tx))
  {
    IirBits(s);
    hide On;
  }

  lemma NoCauseIsLow(s: Uart)
    requires Settled(s) && !RdiCause(s) && !ThriCause(s)
    ensures !s.level
  {
  }

  /** When no new input arrives the handler finishes after at most one look per queued byte,
      two per byte to send, and two more; then no cause is left and the line is low. */
  lemma {:induction false} HandlerFinishes(s: Uart, tx: seq<byte>, n: nat)
    requires Settled(s) && Serviceable(s) && n > Backlog(s, tx)
    ensures Handler(s, tx, n).Some?
    ensures var t := Handler(s, tx, n).value;
            Settled(t) && t.ier == s.ier && t.mcr == s.mcr && !RdiCause(t) && !ThriCause(t) && !t.level
    decreases n
  {
    hide Serve, Backlog, Settled, Serviceable, RdiCause, ThriCause;
    ServeDrops(s, tx);
    var (t, rest, done) := Serve(s, tx);
    if done {
      NoCauseIsLow(t);
    } else {
      HandlerFinishes(t, rest, n - 1);
    }
  }

  lemma ServeSticks(s: Uart, tx: seq<byte>)
    requires Settled(s) && !Serviceable(s)
    ensures var (t, rest, done) := Serve(s, tx); !done && t == s && rest == tx
  {
    IirBits(s);
    assert !On(0, 1);
    hide On;
  }

  lemma {:induction false} HandlerLoops(s: Uart, tx: seq<byte>, n: nat)
    requires Settled(s) && !Serviceable(s)
    ensures Handler(s, tx, n).None?
    decreases n
  {
    if n > 0 {
      ServeSticks(s, tx);
      HandlerLoops(s, tx, n - 1);
    }
  }

  /** The handler terminates exactly when it can reach IIR and RBR. */
  lemma HandlerTerminatesIff(s: Uart, tx: seq<byte>)
    requires Settled(s)
    ensures (exists n: nat :: Handler(s, tx, n).Some?) <==> Serviceable(s)
  {
    if Serviceable(s) {
      HandlerFinishes(s, tx, Backlog(s, tx) + 1);
    } else {
      forall n: nat ensures Handler(s, tx, n).None? {
        HandlerLoops(s, tx, n);
      }
    }
  }

  /** So the next event that the guest has enabled is a fresh rising edge: after the handler,
      a received byte, and likewise a transmitted one, sends level 1 to the callback. */
  lemma NextEventIsAnEdge(s: Uart, tx: seq<byte>, n: nat, c: byte)
    requires Settled(s) && Serviceable(s) && n > Backlog(s, tx)
    requires On(s.mcr, 8) && !Loop(s) && Handler(s, tx, n).Some?
    ensures var t := Handler(s, tx, n).value;
            && (On(s.ier, 1) ==> Run(t, [Arrive(c)]).sent == [true])
            && (On(s.ier, 2) && !Dlab(t) ==> Run(t, [Store(TX, 1, c)]).sent == [true])
  {
    HandlerFinishes(s, tx, n);
    var t := Handler(s, tx, n).value;
    hide Handler, Iir, On;
    assert [Arrive(c)][1..] == [] && [Store(TX, 1, c)][1..] == [];
    assert On(t.ier, 1) ==> AfterPush(t, c).level;
    assert On(t.ier, 2) && !Dlab(t) ==> AfterWrite(t, TX, 1, c).level;
  }
}
