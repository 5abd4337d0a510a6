/** The keyboard controller over whole runs: one rising edge per keyboard byte. */
module I8042Runs {
  import opened Bytes
  import opened I8042

  /** Holds of every reachable state: the line is what it ought to be, it is also the last
      level sent, the buffer is within bounds, and nothing in it is marked as mouse data. */
  predicate Inv(s: Kbc) {
    && s.level == Wanted(s)
    && s.level == (s.sent != [] && s.sent[|s.sent| - 1])
    && |s.q| <= OBUF_SIZE && (s.statusCmd == 0 || s.statusCmd == 8)
    && forall e :: e in s.q ==> !e.aux
  }

  lemma PushKeeps(s: Kbc, e: Entry)
    requires Inv(s) && !e.aux
    ensures Inv(ObufPush(s, e))
  {
    hide On;
  }

  lemma {:induction false} RepliesKeep(s: Kbc, vs: seq<byte>)
    requires Inv(s)
    ensures Inv(PushReplies(s, vs))
    decreases |vs|
  {
    if vs != [] {
      hide Inv, ObufPush;
      PushKeeps(s, KbdByte(vs[0]));
      RepliesKeep(ObufPush(s, KbdByte(vs[0])), vs[1..]);
    }
  }

  /** Clearing the buffer and dropping the line. */
  lemma FlushKeeps(s: Kbc)
    requires Inv(s)
    ensures Inv(SetIrq(s.(q := []), false))
  {
    hide On;
  }

  lemma CommandKeeps(s: Kbc, cmd: byte)
    requires Inv(s)
    ensures Inv(KbcCommand(s, cmd))
  {
    hide On, SetBit, ClearBit;
    FlushKeeps(s);
    var t := SetIrq(s.(q := []), false);
    if Reply(s, cmd).Some? {
      PushKeeps(t, Answer(Reply(s, cmd).value));
    }
  }

  lemma DataKeeps(s: Kbc, v: byte)
    requires Inv(s)
    ensures Inv(KbcDataWrite(s, v))
  {
    hide On, ObufPush, PushReplies;
    var t := s.(pendingCmd := 0);
    assert Inv(t);
    if s.pendingCmd == WRITE_KBD_OBUF {
      PushKeeps(t, KbdByte(v));
    } else if s.pendingCmd == WRITE_AUX_OBUF {
      PushKeeps(t, Answer(v));
    } else if !TakesParameter(s.pendingCmd) {
      var waiting := t.kbdPending == 0 && (v == SETLEDS || v == SETREP || v == SSCANSET);
      RepliesKeep(t.(kbdPending := if waiting then v else 0), Replies(t, v));
    }
  }

  lemma PopKeeps(s: Kbc)
    requires Inv(s)
    ensures Inv(ObufPop(s).1)
  {
    hide On;
  }

  /** The line always equals "keyboard byte at the head, KBDINT on, KBDDIS off". */
  lemma StepKeeps(s: Kbc, op: Op)
    requires Inv(s)
    ensures Inv(Step(s, op))
  {
    hide Inv, KbcCommand, KbcDataWrite, ObufPop;
    match op
    case ReadData => PopKeeps(s);
    case ReadStatus =>
    case WriteData(v) => StatusOnly(s, 0); DataKeeps(s.(statusCmd := 0), v);
    case WriteCommand(v) => StatusOnly(s, 8); CommandKeeps(s.(statusCmd := 8), v);
  }

  lemma StatusOnly(s: Kbc, c: byte)
    requires Inv(s) && (c == 0 || c == 8)
    ensures Inv(s.(statusCmd := c))
  {
  }

  function Run(s: Kbc, ops: seq<Op>): Kbc
    decreases |ops|
  {
    if ops == [] then s else Run(Step(s, ops[0]), ops[1..])
  }

  lemma {:induction false} RunKeeps(s: Kbc, ops: seq<Op>)
    requires Inv(s)
    ensures Inv(Run(s, ops))
    decreases |ops|
  {
    if ops != [] {
      StepKeeps(s, ops[0]);
      RunKeeps(Step(s, ops[0]), ops[1..]);
    }
  }

  /** From reset on, the mouse bit of the status register is never set. */
  lemma NoMouseData(ops: seq<Op>)
    ensures Status(Run(RESET, ops)) < 0x20
  {
    RunKeeps(RESET, ops);
    var s := Run(RESET, ops);
    assert s.q != [] ==> s.q[0] in s.q;
  }

  /* ---------------------------------------------------------------- */
  /* Edges                                                             */
  /* ---------------------------------------------------------------- */

  /** The rising edges among the levels sent: only changes are sent, so each 1 is one. */
  function Edges(sent: seq<bool>): nat {
    if sent == [] then 0 else Edges(sent[..|sent| - 1]) + (if sent[|sent| - 1] then 1 else 0)
  }

  lemma EdgesNext(sent: seq<bool>, level: bool)
    ensures Edges(sent + [level]) == Edges(sent) + (if level then 1 else 0)
  {
    assert (sent + [level])[..|sent|] == sent;
  }

  function AtHead(q: seq<Entry>): nat {
    if q != [] && q[0].fromKbd then 1 else 0
  }

  /** How many keyboard bytes reach the head of the buffer in one operation: the next one
      after a read, or the first one stored into an empty buffer. */
  function Arrivals(s: Kbc, op: Op): nat {
    match op
    case ReadData => if s.q == [] then 0 else AtHead(s.q[1..])
    case ReadStatus => 0
    case WriteData(_) => if s.q == [] then AtHead(Step(s, op).q) else 0
    case WriteCommand(_) => AtHead(Step(s, op).q)
  }

  function AllArrivals(s: Kbc, ops: seq<Op>): nat
    decreases |ops|
  {
    if ops == [] then 0 else Arrivals(s, ops[0]) + AllArrivals(Step(s, ops[0]), ops[1..])
  }

  /** Interrupts stay enabled throughout. */
  predicate StaysEnabled(s: Kbc, ops: seq<Op>)
    decreases |ops|
  {
    Enabled(s.ctr) && (ops == [] || StaysEnabled(Step(s, ops[0]), ops[1..]))
  }

  /** Storing a byte raises the line exactly when it lands at the head and wants it. */
  lemma PushEdges(s: Kbc, e: Entry)
    requires Inv(s) && Enabled(s.ctr)
    ensures var t := ObufPush(s, e);
            && Edges(t.sent) == Edges(s.sent) + (if s.q == [] then AtHead(t.q) else 0)
            && t.q == (if |s.q| < OBUF_SIZE then s.q + [e] else s.q)
            && t == s.(q := t.q, level := t.level, sent := t.sent)
  {
    hide On, Enabled, Edges;
    EdgesNext(s.sent, true);
    EdgesNext(s.sent, false);
  }

  lemma {:induction false} RepliesEdges(s: Kbc, vs: seq<byte>)
    requires Inv(s) && Enabled(s.ctr)
    ensures var t := PushReplies(s, vs);
            && Edges(t.sent) == Edges(s.sent) + (if s.q == [] then AtHead(t.q) else 0)
            && |t.q| >= |s.q| && t.q[..|s.q|] == s.q
            && t == s.(q := t.q, level := t.level, sent := t.sent)
    decreases |vs|
  {
    if vs != [] {
      PushKeeps(s, KbdByte(vs[0]));
      PushEdges(s, KbdByte(vs[0]));
      var t := ObufPush(s, KbdByte(vs[0]));
      RepliesEdges(t, vs[1..]);
      hide Inv, Enabled, Edges, ObufPush;
      var u := PushReplies(t, vs[1..]);
      assert t.q != [] ==> u.q[0] == u.q[..|t.q|][0] == t.q[0];
      assert u.q[..|s.q|] == u.q[..|t.q|][..|s.q|];
    }
  }

  lemma PopEdges(s: Kbc)
    requires Inv(s) && Enabled(s.ctr)
    ensures Edges(ObufPop(s).1.sent) == Edges(s.sent) + (if s.q == [] then 0 else AtHead(s.q[1..]))
  {
    hide On, Enabled, Edges;
    var t := SetIrq(s.(q := s.q[if s.q == [] then 0 else 1..]), false);
    EdgesNext(s.sent, false);
    EdgesNext(t.sent, true);
  }

  lemma FlushEdges(s: Kbc)
    ensures Edges(SetIrq(s.(q := []), false).sent) == Edges(s.sent)
  {
    EdgesNext(s.sent, false);
  }

  lemma CommandEdges(s: Kbc, cmd: byte)
    requires Inv(s) && Enabled(s.ctr)
    ensures Edges(KbcCommand(s, cmd).sent) == Edges(s.sent) && AtHead(KbcCommand(s, cmd).q) == 0
  {
    hide On, Enabled, Edges, SetBit, ClearBit;
    FlushEdges(s);
    FlushKeeps(s);
    var t := SetIrq(s.(q := []), false);
    if Reply(s, cmd).Some? {
      PushEdges(t, Answer(Reply(s, cmd).value));
    }
  }

  lemma DataEdges(s: Kbc, v: byte)
    requires Inv(s) && Enabled(s.ctr) && Enabled(KbcDataWrite(s, v).ctr)
    ensures Edges(KbcDataWrite(s, v).sent) == Edges(s.sent) + (if s.q == [] then AtHead(KbcDataWrite(s, v).q) else 0)
  {
    hide On, Enabled, Edges, ObufPush, PushReplies;
    var t := s.(pendingCmd := 0);
    assert Inv(t);
    if s.pendingCmd == WRITE_KBD_OBUF {
      PushEdges(t, KbdByte(v));
    } else if s.pendingCmd == WRITE_AUX_OBUF {
      PushEdges(t, Answer(v));
    } else if !TakesParameter(s.pendingCmd) {
      var waiting := t.kbdPending == 0 && (v == SETLEDS || v == SETREP || v == SSCANSET);
      RepliesEdges(t.(kbdPending := if waiting then v else 0), Replies(t, v));
    }
  }

  lemma StepEdges(s: Kbc, op: Op)
    requires Inv(s) && Enabled(s.ctr) && Enabled(Step(s, op).ctr)
    ensures Edges(Step(s, op).sent) == Edges(s.sent) + Arrivals(s, op)
  {
    hide Inv, Enabled, Edges, AtHead, KbcCommand, KbcDataWrite, ObufPop;
    match op
    case ReadData => PopEdges(s);
    case ReadStatus =>
    case WriteData(v) => StatusOnly(s, 0); DataEdges(s.(statusCmd := 0), v);
    case WriteCommand(v) => StatusOnly(s, 8); CommandEdges(s.(statusCmd := 8), v);
  }

  /** One edge per keyboard byte: in any run that keeps KBDINT on and KBDDIS off, the rising
      edges on the line are exactly the keyboard bytes that reached the head of the buffer. */
  lemma {:induction false} OneEdgePerByte(s: Kbc, ops: seq<Op>)
    requires Inv(s) && StaysEnabled(s, ops)
    ensures Edges(Run(s, ops).sent) == Edges(s.sent) + AllArrivals(s, ops)
    decreases |ops|
  {
    if ops != [] {
      StepKeeps(s, ops[0]);
      StepEdges(s, ops[0]);
      OneEdgePerByte(Step(s, ops[0]), ops[1..]);
    }
  }

  /* ---------------------------------------------------------------- */
  /* Commands                                                          */
  /* ---------------------------------------------------------------- */

  /** Writing the control byte and reading it back gives what was written, in any state,
      whatever was unread or pending. */
  lemma ControlByteRoundTrip(s: Kbc, v: byte)
    ensures var t := Step(Step(Step(s, WriteCommand(WRITE_CTR)), WriteData(v)), WriteCommand(READ_CTR));
            t.q == [Answer(v)] && t.ctr == v && ObufPop(t).0 == v
  {
    hide On;
  }

  /** A command that answers leaves its answer alone in the buffer, whatever was unread, and
      the line low: the driver polls for it. */
  lemma AnswersAreClean(s: Kbc, cmd: byte)
    requires Inv(s) && Reply(s, cmd).Some?
    ensures var t := Step(s, WriteCommand(cmd));
            t.q == [Answer(Reply(s, cmd).value)] && !t.level && ObufPop(t).0 == Reply(s, cmd).value
  {
    hide On;
  }

  /** A pending parameter command outlives commands that take no parameter: the next data
      byte still goes to it. */
  lemma PendingSurvives(s: Kbc, cmd: byte)
    ensures Step(s, WriteCommand(cmd)).pendingCmd == if TakesParameter(cmd) then cmd else s.pendingCmd
  {
    hide On, SetBit, ClearBit;
  }

  function Commands(cmds: seq<byte>): seq<Op> {
    if cmds == [] then [] else [WriteCommand(cmds[0])] + Commands(cmds[1..])
  }

  lemma {:induction false} CommandsKeepPending(s: Kbc, cmds: seq<byte>)
    requires forall c :: c in cmds ==> !TakesParameter(c)
    ensures Run(s, Commands(cmds)).pendingCmd == s.pendingCmd
    decreases |cmds|
  {
    if cmds != [] {
      assert cmds[0] in cmds && forall c :: c in cmds[1..] ==> c in cmds;
      PendingSurvives(s, cmds[0]);
      assert Commands(cmds)[1..] == Commands(cmds[1..]);
      hide Step, TakesParameter;
      CommandsKeepPending(Step(s, WriteCommand(cmds[0])), cmds[1..]);
    }
  }

  /** Whatever commands without a parameter come between the write-CTR command and its byte,
      self test and disabling included, the byte goes to the control register. */
  lemma ParameterArrives(s: Kbc, cmds: seq<byte>, v: byte)
    requires forall c :: c in cmds ==> !TakesParameter(c)
    ensures Step(Run(Step(s, WriteCommand(WRITE_CTR)), Commands(cmds)), WriteData(v)).ctr == v
  {
    PendingSurvives(s, WRITE_CTR);
    CommandsKeepPending(Step(s, WriteCommand(WRITE_CTR)), cmds);
    hide On, Run;
  }

  /** Disabling and enabling a port again restores the control byte. */
  lemma DisableThenEnable(s: Kbc)
    ensures !On(s.ctr, CTR_KBDDIS) ==>
              Step(Step(s, WriteCommand(KBD_DISABLE)), WriteCommand(KBD_ENABLE)).ctr == s.ctr
    ensures !On(s.ctr, CTR_AUXDIS) ==>
              Step(Step(s, WriteCommand(AUX_DISABLE)), WriteCommand(AUX_ENABLE)).ctr == s.ctr
  {
    hide On;
  }

  /** While the keyboard is disabled no byte through the data port raises the line, except one
      that rewrites the control byte. */
  lemma DisabledIsQuiet(s: Kbc, v: byte)
    requires Inv(s) && On(s.ctr, CTR_KBDDIS) && s.pendingCmd != WRITE_CTR
    ensures !Step(s, WriteData(v)).level
  {
    hide On, KbcDataWrite;
    StepKeeps(s, WriteData(v));
    DataKeepsControl(s.(statusCmd := 0), v);
  }

  /** The disable command has that effect, and the enable command undoes it: the control byte
      is the old one, with KBDDIS clear. */
  lemma DisableAndEnable(s: Kbc, v: byte)
    requires Inv(s) && s.pendingCmd != WRITE_CTR
    ensures var t := Step(s, WriteCommand(KBD_DISABLE));
            && !Step(t, WriteData(v)).level
            && Step(t, WriteCommand(KBD_ENABLE)).ctr == ClearBit(s.ctr, CTR_KBDDIS)
            && (!On(s.ctr, CTR_KBDDIS) ==> Step(t, WriteCommand(KBD_ENABLE)).ctr == s.ctr)
  {
    StepKeeps(s, WriteCommand(KBD_DISABLE));
    PendingSurvives(s, KBD_DISABLE);
    DisableThenEnable(s);
    var t := Step(s, WriteCommand(KBD_DISABLE));
    assert On(t.ctr, CTR_KBDDIS);
    hide On;
    DisabledIsQuiet(t, v);
  }

  /** Only the write-CTR parameter changes the control byte through the data port. */
  lemma DataKeepsControl(s: Kbc, v: byte)
    requires s.pendingCmd != WRITE_CTR
    ensures KbcDataWrite(s, v).ctr == s.ctr
  {
    hide On;
    var t := s.(pendingCmd := 0);
    var waiting := t.kbdPending == 0 && (v == SETLEDS || v == SETREP || v == SSCANSET);
    RepliesKeepControl(t.(kbdPending := if waiting then v else 0), Replies(t, v));
  }

  lemma {:induction false} RepliesKeepControl(s: Kbc, vs: seq<byte>)
    ensures PushReplies(s, vs).ctr == s.ctr
    decreases |vs|
  {
    if vs != [] {
      RepliesKeepControl(ObufPush(s, KbdByte(vs[0])), vs[1..]);
    }
  }

  /** Replies are appended in order and the ones that do not fit are lost. */
  lemma {:induction false} RepliesQueue(s: Kbc, vs: seq<byte>)
    requires |s.q| <= OBUF_SIZE
    ensures var all := s.q + seq(|vs|, i requires 0 <= i < |vs| => KbdByte(vs[i]));
            PushReplies(s, vs).q == if |all| <= OBUF_SIZE then all else all[..OBUF_SIZE]
    decreases |vs|
  {
    if vs != [] {
      var t := ObufPush(s, KbdByte(vs[0]));
      RepliesQueue(t, vs[1..]);
      hide PushReplies, On;
      var tail := seq(|vs| - 1, i requires 0 <= i < |vs| - 1 => KbdByte(vs[1..][i]));
      var all := s.q + seq(|vs|, i requires 0 <= i < |vs| => KbdByte(vs[i]));
      assert all == (s.q + [KbdByte(vs[0])]) + tail;
    }
  }

  /** The keyboard identifies itself: with nothing pending and an empty buffer the driver
      reads ACK, 0xab, 0x83, and then nothing. */
  lemma KeyboardId(s: Kbc)
    requires s.q == [] && s.pendingCmd == 0 && s.kbdPending == 0
    ensures var t := Step(s, WriteData(GETID));
            && t.q == [KbdByte(ACK), KbdByte(0xab), KbdByte(0x83)]
            && Step(Step(Step(t, ReadData), ReadData), ReadData).q == []
  {
    hide On;
    var t := s.(statusCmd := 0, pendingCmd := 0, kbdPending := 0);
    RepliesQueue(t, [ACK, 0xab, 0x83]);
    hide PushReplies;
    assert s.q + seq(3, i requires 0 <= i < 3 => KbdByte([ACK, 0xab, 0x83][i]))
        == [KbdByte(ACK), KbdByte(0xab), KbdByte(0x83)];
    assert Step(s, WriteData(GETID)).q == [KbdByte(ACK), KbdByte(0xab), KbdByte(0x83)];
  }
}
