/** The i8042 keyboard controller and its keyboard (src/devices/i8042.c). */
module I8042 {
  import opened Bytes
  import opened Common

  const OBUF_SIZE: nat := 16

  const CTR_KBDINT: byte := 0x01
  const CTR_KBDDIS: byte := 0x10
  const CTR_AUXDIS: byte := 0x20

  const READ_CTR: byte := 0x20
  const WRITE_CTR: byte := 0x60
  const AUX_DISABLE: byte := 0xa7
  const AUX_ENABLE: byte := 0xa8
  const AUX_TEST: byte := 0xa9
  const SELF_TEST: byte := 0xaa
  const KBD_TEST: byte := 0xab
  const KBD_DISABLE: byte := 0xad
  const KBD_ENABLE: byte := 0xae
  const READ_OUTP: byte := 0xd0
  const WRITE_OUTP: byte := 0xd1
  const WRITE_KBD_OBUF: byte := 0xd2
  const WRITE_AUX_OBUF: byte := 0xd3
  const WRITE_AUX: byte := 0xd4
  const PULSE_BASE: byte := 0xf0

  const SETLEDS: byte := 0xed
  const ECHO: byte := 0xee
  const SSCANSET: byte := 0xf0
  const GETID: byte := 0xf2
  const SETREP: byte := 0xf3
  const KBD_RESET: byte := 0xff
  const ACK: byte := 0xfa

  datatype Entry = Entry(val: byte, aux: bool, fromKbd: bool)

  /** The controller with its ring read as a queue.  `sent` is every level ever passed to
      the interrupt controller. */
  datatype Kbc = Kbc(ctr: byte, outp: byte, statusCmd: byte, pendingCmd: byte, kbdPending: byte,
                     q: seq<Entry>, level: bool, sent: seq<bool>)

  const RESET: Kbc := Kbc(0x65, 3, 0, 0, 0, [], false, [])

  datatype Op = ReadData | ReadStatus | WriteData(v: byte) | WriteCommand(v: byte)

  function SetBit(v: byte, mask: byte): (r: byte)
    requires mask == CTR_KBDDIS || mask == CTR_AUXDIS
    ensures On(r, mask)
  {
    if On(v, mask) then v else v + mask
  }

  function ClearBit(v: byte, mask: byte): (r: byte)
    requires mask == CTR_KBDDIS || mask == CTR_AUXDIS
    ensures !On(r, mask)
  {
    if On(v, mask) then v - mask else v
  }

  /* ---------------------------------------------------------------- */
  /* Interrupt and output buffer                                       */
  /* ---------------------------------------------------------------- */

  /** Keyboard interrupts reach the line. */
  predicate Enabled(ctr: byte) {
    On(ctr, CTR_KBDINT) && !On(ctr, CTR_KBDDIS)
  }

  /** What the line ought to be: a keyboard byte at the head, and interrupts enabled. */
  predicate Wanted(s: Kbc) {
    s.q != [] && s.q[0].fromKbd && Enabled(s.ctr)
  }

  function SetIrq(s: Kbc, level: bool): Kbc {
    if level != s.level then s.(level := level, sent := s.sent + [level]) else s
  }

  function UpdateIrq(s: Kbc): Kbc {
    SetIrq(s, Wanted(s))
  }

  /** `obuf_push`: a full buffer drops the byte. */
  function ObufPush(s: Kbc, e: Entry): Kbc {
    if |s.q| >= OBUF_SIZE then s else UpdateIrq(s.(q := s.q + [e]))
  }

  /** `obuf_pop`: the line falls and, if the next byte wants it, rises again. */
  function ObufPop(s: Kbc): (byte, Kbc) {
    if s.q == [] then (0, s) else (s.q[0].val, UpdateIrq(SetIrq(s.(q := s.q[1..]), false)))
  }

  function Answer(v: byte): Entry {
    Entry(v, false, false)
  }

  function KbdByte(v: byte): Entry {
    Entry(v, false, true)
  }

  /* ---------------------------------------------------------------- */
  /* Keyboard and controller                                           */
  /* ---------------------------------------------------------------- */

  /** What the keyboard answers to the byte `v`. */
  function Replies(s: Kbc, v: byte): seq<byte> {
    if s.kbdPending != 0 then
      if s.kbdPending == SSCANSET && v == 0 then [ACK, 2] else [ACK]
    else if v == KBD_RESET then [ACK, 0xaa]
    else if v == GETID then [ACK, 0xab, 0x83]
    else if v == ECHO then [ECHO]
    else [ACK]
  }

  function PushReplies(s: Kbc, vs: seq<byte>): Kbc
    decreases |vs|
  {
    if vs == [] then s else PushReplies(ObufPush(s, KbdByte(vs[0])), vs[1..])
  }

  function KbdWrite(s: Kbc, v: byte): Kbc {
    var waiting := s.kbdPending == 0 && (v == SETLEDS || v == SETREP || v == SSCANSET);
    PushReplies(s.(kbdPending := if waiting then v else 0), Replies(s, v))
  }

  predicate TakesParameter(cmd: byte) {
    cmd == WRITE_CTR || cmd == WRITE_OUTP || cmd == WRITE_KBD_OBUF || cmd == WRITE_AUX_OBUF || cmd == WRITE_AUX
  }

  /** The byte a controller command answers with. */
  function Reply(s: Kbc, cmd: byte): Option<byte> {
    if cmd == READ_CTR then Some(s.ctr)
    else if cmd == AUX_TEST then Some(1)
    else if cmd == SELF_TEST then Some(0x55)
    else if cmd == KBD_TEST then Some(0)
    else if cmd == READ_OUTP then Some(s.outp)
    else None
  }

  /** `kbc_command`: drops unread output first. */
  function KbcCommand(s: Kbc, cmd: byte): Kbc {
    var t := SetIrq(s.(q := []), false);
    if Reply(s, cmd).Some? then ObufPush(t, Answer(Reply(s, cmd).value))
    else if TakesParameter(cmd) then t.(pendingCmd := cmd)
    else if cmd == AUX_DISABLE then t.(ctr := SetBit(t.ctr, CTR_AUXDIS))
    else if cmd == AUX_ENABLE then t.(ctr := ClearBit(t.ctr, CTR_AUXDIS))
    else if cmd == KBD_DISABLE then t.(ctr := SetBit(t.ctr, CTR_KBDDIS))
    else if cmd == KBD_ENABLE then UpdateIrq(t.(ctr := ClearBit(t.ctr, CTR_KBDDIS)))
    else t
  }

  /** `kbc_data_write`. */
  function KbcDataWrite(s: Kbc, v: byte): Kbc {
    var t := s.(pendingCmd := 0);
    if s.pendingCmd == WRITE_CTR then UpdateIrq(t.(ctr := v))
    else if s.pendingCmd == WRITE_OUTP then t.(outp := v)
    else if s.pendingCmd == WRITE_KBD_OBUF then ObufPush(t, KbdByte(v))
    else if s.pendingCmd == WRITE_AUX_OBUF then ObufPush(t, Answer(v))
    else if s.pendingCmd == WRITE_AUX then t
    else KbdWrite(t, v)
  }

  function Step(s: Kbc, op: Op): Kbc {
    match op
    case ReadData => ObufPop(s).1
    case ReadStatus => s
    case WriteData(v) => KbcDataWrite(s.(statusCmd := 0), v)
    case WriteCommand(v) => KbcCommand(s.(statusCmd := 8), v)
  }

  /** The status register. */
  function Status(s: Kbc): nat {
    0x14 + s.statusCmd as int + (if s.q != [] then 1 + (if s.q[0].aux then 0x20 else 0) else 0)
  }

  /** The guest asks for a reset: pulse of the reset line, or output port bit 0 cleared. */
  predicate Resets(s: Kbc, op: Op) {
    || (op.WriteCommand? && op.v >= PULSE_BASE && !On(op.v, 1))
    || (op.WriteData? && s.pendingCmd == WRITE_OUTP && !On(op.v, 1))
  }

  /* ---------------------------------------------------------------- */
  /* The device                                                        */
  /* ---------------------------------------------------------------- */

  function Ring(buf: seq<Entry>, head: nat, count: nat): (q: seq<Entry>)
    requires |buf| == OBUF_SIZE && head < OBUF_SIZE && count <= OBUF_SIZE
    ensures |q| == count
  {
    seq(count, i requires 0 <= i => buf[(head + i) % OBUF_SIZE])
  }

  lemma RingPush(buf: seq<Entry>, head: nat, count: nat, e: Entry)
    requires |buf| == OBUF_SIZE && head < OBUF_SIZE && count < OBUF_SIZE
    ensures Ring(buf[(head + count) % OBUF_SIZE := e], head, count + 1) == Ring(buf, head, count) + [e]
  {
    var at := (head + count) % OBUF_SIZE;
    var q, q' := Ring(buf, head, count), Ring(buf[at := e], head, count + 1);
    forall i | 0 <= i <= count ensures q'[i] == (q + [e])[i] {
      assert (head + i) % OBUF_SIZE == at <==> i == count;
    }
  }

  lemma RingPop(buf: seq<Entry>, head: nat, count: nat)
    requires |buf| == OBUF_SIZE && head < OBUF_SIZE && 0 < count <= OBUF_SIZE
    ensures Ring(buf, head, count) == [buf[head]] + Ring(buf, (head + 1) % OBUF_SIZE, count - 1)
  {
    var next := if head == OBUF_SIZE - 1 then 0 else head + 1;
    assert next == (head + 1) % OBUF_SIZE;
    var q, q' := Ring(buf, head, count), Ring(buf, next, count - 1);
    forall i | 0 <= i < count - 1 ensures q'[i] == q[i + 1] {
      assert (next + i) % OBUF_SIZE == (head + (i + 1)) % OBUF_SIZE;
    }
    assert q == [buf[head]] + q';
  }

  class Controller {
    var ctr: byte
    var outp: byte
    var statusCmd: byte
    var pendingCmd: byte
    var kbdPending: byte
    const obuf: array<Entry>
    var head: nat
    var count: nat
    var irqLevel: bool
    ghost var sent: seq<bool>

    ghost predicate Valid()
      reads this
    {
      obuf.Length == OBUF_SIZE && head < OBUF_SIZE && count <= OBUF_SIZE
    }

    ghost function Value(): (s: Kbc)
      requires Valid()
      reads this, obuf
      ensures |s.q| == count
    {
      Kbc(ctr, outp, statusCmd, pendingCmd, kbdPending, Ring(obuf[..], head, count), irqLevel, sent)
    }

    /** `i8042_attach`. */
    constructor ()
      ensures Valid() && fresh(obuf) && Value() == RESET
    {
      hide Ring;
      ctr, outp, statusCmd, pendingCmd, kbdPending := 0x65, 3, 0, 0, 0;
      obuf := new Entry[OBUF_SIZE](_ => Entry(0, false, false));
      head, count, irqLevel, sent := 0, 0, false, [];
    }

    method RaiseTo(level: bool)
      requires Valid()
      modifies this`irqLevel, this`sent
      ensures Valid() && Value() == SetIrq(old(Value()), level)
    {
      hide Ring;
      if level != irqLevel {
        irqLevel := level;
        sent := sent + [level];
      }
    }

    method Update()
      requires Valid()
      modifies this`irqLevel, this`sent
      ensures Valid() && Value() == UpdateIrq(old(Value()))
    {
      if count > 0 {
        RingPop(obuf[..], head, count);
      }
      hide Ring, SetIrq;
      RaiseTo(count > 0 && obuf[head].fromKbd && On(ctr, CTR_KBDINT) && !On(ctr, CTR_KBDDIS));
    }

    method Push(e: Entry)
      requires Valid()
      modifies this`irqLevel, this`sent, this`count, obuf
      ensures Valid() && Value() == ObufPush(old(Value()), e)
    {
      hide Ring, SetIrq, Wanted;
      if count == OBUF_SIZE {
        return;
      }
      ghost var buf := obuf[..];
      RingPush(buf, head, count, e);
      obuf[(head + count) % OBUF_SIZE] := e;
      assert obuf[..] == buf[(head + count) % OBUF_SIZE := e];
      count := count + 1;
      Update();
    }

    method Pop() returns (v: byte)
      requires Valid()
      modifies this`irqLevel, this`sent, this`count, this`head
      ensures Valid() && (v, Value()) == ObufPop(old(Value()))
    {
      hide Ring, SetIrq, Wanted;
      if count == 0 {
        return 0;
      }
      RingPop(obuf[..], head, count);
      ghost var was := Value();
      v := obuf[head].val;
      head := (head + 1) % OBUF_SIZE;
      count := count - 1;
      assert was.q[1..] == Value().q;
      RaiseTo(false);
      Update();
    }

    method PushAll(vs: seq<byte>)
      requires Valid()
      modifies this`irqLevel, this`sent, this`count, obuf
      ensures Valid() && Value() == PushReplies(old(Value()), vs)
      decreases |vs|
    {
      hide Ring, ObufPush;
      if vs != [] {
        Push(KbdByte(vs[0]));
        PushAll(vs[1..]);
      }
    }

    /** `kbd_write`. */
    method WriteKbd(v: byte)
      requires Valid()
      modifies this, obuf
      ensures Valid() && Value() == KbdWrite(old(Value()), v)
    {
      hide Ring, PushReplies;
      ghost var s := Value();
      if kbdPending != 0 {
        var cmd := kbdPending;
        kbdPending := 0;
        if cmd == SSCANSET && v == 0 {
          PushAll([ACK, 2]);
        } else {
          PushAll([ACK]);
        }
        return;
      }
      if v == KBD_RESET {
        PushAll([ACK, 0xaa]);
      } else if v == GETID {
        PushAll([ACK, 0xab, 0x83]);
      } else if v == ECHO {
        PushAll([ECHO]);
      } else if v == SETLEDS || v == SETREP || v == SSCANSET {
        kbdPending := v;
        PushAll([ACK]);
      } else {
        PushAll([ACK]);
      }
    }

    /** `kbc_command`. */
    method Command(cmd: byte) returns (exit: bool)
      requires Valid()
      modifies this, obuf
      ensures Valid() && Value() == KbcCommand(old(Value()), cmd)
      ensures exit == Resets(old(Value()), WriteCommand(cmd))
    {
      assert Ring(obuf[..], head, 0) == [];
      hide Ring, ObufPush, UpdateIrq, SetIrq, On, SetBit, ClearBit;
      exit := false;
      count := 0;
      RaiseTo(false);
      if cmd == READ_CTR {
        Push(Answer(ctr));
      } else if TakesParameter(cmd) {
        pendingCmd := cmd;
      } else if cmd == AUX_DISABLE {
        ctr := SetBit(ctr, CTR_AUXDIS);
      } else if cmd == AUX_ENABLE {
        ctr := ClearBit(ctr, CTR_AUXDIS);
      } else if cmd == AUX_TEST {
        Push(Answer(1));
      } else if cmd == SELF_TEST {
        Push(Answer(0x55));
      } else if cmd == KBD_TEST {
        Push(Answer(0));
      } else if cmd == KBD_DISABLE {
        ctr := SetBit(ctr, CTR_KBDDIS);
      } else if cmd == KBD_ENABLE {
        ctr := ClearBit(ctr, CTR_KBDDIS);
        Update();
      } else if cmd == READ_OUTP {
        Push(Answer(outp));
      } else if cmd >= PULSE_BASE && !On(cmd, 1) {
        exit := true;
      }
    }

    /** `kbc_data_write`. */
    method DataWrite(v: byte) returns (exit: bool)
      requires Valid()
      modifies this, obuf
      ensures Valid() && Value() == KbcDataWrite(old(Value()), v)
      ensures exit == Resets(old(Value()), WriteData(v))
    {
      hide Ring, ObufPush, UpdateIrq, KbdWrite, On;
      exit := false;
      var cmd := pendingCmd;
      pendingCmd := 0;
      if cmd == WRITE_CTR {
        ctr := v;
        Update();
      } else if cmd == WRITE_OUTP {
        outp := v;
        exit := !On(v, 1);
      } else if cmd == WRITE_KBD_OBUF {
        Push(KbdByte(v));
      } else if cmd == WRITE_AUX_OBUF {
        Push(Answer(v));
      } else if cmd != WRITE_AUX {
        WriteKbd(v);
      }
    }

    /** `i8042_read` on the data port; the rest of a wide access reads as zero. */
    method ReadDataPort(size: nat) returns (data: seq<byte>)
      requires Valid() && size >= 1
      modifies this
      ensures Valid() && Value() == Step(old(Value()), ReadData)
      ensures data == [ObufPop(old(Value())).0] + Zeros(size - 1)
    {
      hide Ring, ObufPop;
      var v := Pop();
      data := [v] + Zeros(size - 1);
    }

    /** `i8042_read` on the command port. */
    method ReadStatusPort() returns (v: nat)
      requires Valid()
      ensures v == Status(Value())
    {
      if count > 0 {
        RingPop(obuf[..], head, count);
      }
      hide Ring;
      v := 0x14 + statusCmd as int;
      if count > 0 {
        v := v + 1;
        if obuf[head].aux {
          v := v + 0x20;
        }
      }
    }

    /** `i8042_write`. */
    method WritePort(command: bool, v: byte) returns (exit: bool)
      requires Valid()
      modifies this, obuf
      ensures Valid() && Value() == Step(old(Value()), if command then WriteCommand(v) else WriteData(v))
      ensures exit == Resets(old(Value()), if command then WriteCommand(v) else WriteData(v))
    {
      hide Ring, KbcCommand, KbcDataWrite;
      if command {
        statusCmd := 8;
        exit := Command(v);
      } else {
        statusCmd := 0;
        exit := DataWrite(v);
      }
    }
  }
}
