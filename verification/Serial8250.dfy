/** The 16550A UART (src/devices/serial8250.c): registers, receive ring, interrupt line. */
module Serial8250 {
  import opened Bytes

  // Register offsets.
  const RX: nat := 0
  const TX: nat := 0
  const IER: nat := 1
  const IIR: nat := 2
  const FCR: nat := 2
  const LCR: nat := 3
  const MCR: nat := 4
  const LSR: nat := 5
  const MSR: nat := 6
  const SCR: nat := 7

  const RX_BUF: nat := 256
  const CAPACITY: nat := 255
  const CONF_B: byte := 0xbf

  /** The device with its ring read as a queue, oldest byte first. */
  datatype Uart = Uart(ier: byte, iir: byte, fcr: byte, lcr: byte, mcr: byte, msr: byte, scr: byte,
                       dll: byte, dlm: byte, rx: seq<byte>, thri: bool, level: bool)

  const RESET: Uart := Uart(0, 1, 0, 0, 0, 0xb0, 0, 0, 0, [], false, false)

  predicate Dlab(s: Uart) {
    On(s.lcr, 0x80)
  }

  predicate Loop(s: Uart) {
    On(s.mcr, 0x10)
  }

  /* ---------------------------------------------------------------- */
  /* Interrupts                                                        */
  /* ---------------------------------------------------------------- */

  predicate RdiCause(s: Uart) {
    On(s.ier, 1) && s.rx != []
  }

  predicate ThriCause(s: Uart) {
    !RdiCause(s) && On(s.ier, 2) && s.thri
  }

  /** IIR as a fixed function of the rest of the state. */
  function Iir(s: Uart): byte {
    (if RdiCause(s) then 4 else if ThriCause(s) then 2 else 1) + (if On(s.fcr, 1) then 0xc0 else 0)
  }

  /** The line as a fixed function of the rest of the state: a cause, gated by OUT2, and
      nothing in loopback. */
  predicate Level(s: Uart) {
    (RdiCause(s) || ThriCause(s)) && On(s.mcr, 8) && !Loop(s)
  }

  function Settle(s: Uart): Uart {
    s.(iir := Iir(s), level := Level(s))
  }

  predicate Settled(s: Uart) {
    s.iir == Iir(s) && s.level == Level(s) && |s.rx| <= CAPACITY
  }

  /* ---------------------------------------------------------------- */
  /* Operations                                                        */
  /* ---------------------------------------------------------------- */

  /** A byte arrives, from the host or through loopback; a full FIFO drops it. */
  function Accept(s: Uart, c: byte): Uart {
    if |s.rx| < CAPACITY then s.(rx := s.rx + [c]) else s
  }

  /** The modem inputs that the outputs in MCR drive in loopback. */
  function Lines(mcr: byte): byte {
    (if On(mcr, 2) then 0x10 else 0) + (if On(mcr, 1) then 0x20 else 0)
    + (if On(mcr, 4) then 0x40 else 0) + (if On(mcr, 8) then 0x80 else 0)
  }

  function ModemStatus(s: Uart): byte {
    if Loop(s) then Lines(s.mcr) else s.msr
  }

  function ReadReg(s: Uart, off: nat): (byte, Uart) {
    if off == RX then
      if Dlab(s) then (s.dll, s) else if s.rx != [] then (s.rx[0], s.(rx := s.rx[1..])) else (0, s)
    else if off == IER then (if Dlab(s) then s.dlm else s.ier, s)
    else if off == IIR then
      if s.lcr == CONF_B then (0, s)
      else (s.iir, if s.iir % 16 == 2 then s.(thri := false) else s)
    else if off == LCR then (s.lcr, s)
    else if off == MCR then (s.mcr, s)
    else if off == LSR then (if s.rx != [] then 0x61 else 0x60, s)
    else if off == MSR then (ModemStatus(s), s)
    else if off == SCR then (s.scr, s)
    else (0, s)
  }

  /** `serial_read`: the data bytes and the new state. */
  function AfterRead(s: Uart, off: nat, size: nat): (seq<byte>, Uart) {
    if size != 1 then (seq(size, _ => 0xff), s)
    else ([ReadReg(s, off).0], Settle(ReadReg(s, off).1))
  }

  function WriteReg(s: Uart, off: nat, v: byte): Uart {
    if off == TX then
      if Dlab(s) then s.(dll := v) else (if Loop(s) then Accept(s, v) else s).(thri := true)
    else if off == IER then
      if Dlab(s) then s.(dlm := v)
      else s.(ier := v % 16, thri := s.thri || (!On(s.ier, 2) && On(v, 2)))
    else if off == FCR then
      if s.lcr == CONF_B then s else s.(rx := if On(v, 2) then [] else s.rx, fcr := v % 2)
    else if off == LCR then s.(lcr := v)
    else if off == MCR then s.(mcr := v % 32)
    else if off == SCR then s.(scr := v)
    else s
  }

  /** `serial_write`. */
  function AfterWrite(s: Uart, off: nat, size: nat, v: byte): Uart {
    if size != 1 then s else Settle(WriteReg(s, off, v))
  }

  /** The host output of a write. */
  function Transmitted(s: Uart, off: nat, size: nat, v: byte): seq<byte> {
    if size == 1 && off == TX && !Dlab(s) && !Loop(s) then [v] else []
  }

  function AfterPush(s: Uart, c: byte): Uart {
    Settle(Accept(s, c))
  }

  /** What the callback is told when the line goes from `was` to `now`. */
  function Change(was: bool, now: bool): seq<bool> {
    if was != now then [now] else []
  }

  /* ---------------------------------------------------------------- */
  /* The ring                                                          */
  /* ---------------------------------------------------------------- */

  /** The bytes from tail to head; head == tail means empty, so one slot stays unused. */
  function Ring(buf: seq<byte>, head: nat, tail: nat): (q: seq<byte>)
    requires |buf| == RX_BUF && head < RX_BUF && tail < RX_BUF
    ensures |q| == (head - tail) % RX_BUF
  {
    seq((head - tail) % RX_BUF, i requires 0 <= i => buf[(tail + i) % RX_BUF])
  }

  function Wrapped(i: nat): nat
    requires i < 2 * RX_BUF
  {
    if i < RX_BUF then i else i - RX_BUF
  }

  lemma WrapIs(i: nat)
    requires i < 2 * RX_BUF
    ensures i % RX_BUF == Wrapped(i)
  {
  }

  lemma RingSize(head: nat, tail: nat)
    requires head < RX_BUF && tail < RX_BUF
    ensures (head - tail) % RX_BUF == if head >= tail then head - tail else head - tail + RX_BUF
  {
  }

  lemma RingAt(buf: seq<byte>, head: nat, tail: nat, i: nat)
    requires |buf| == RX_BUF && head < RX_BUF && tail < RX_BUF && i < |Ring(buf, head, tail)|
    ensures Ring(buf, head, tail)[i] == buf[Wrapped(tail + i)]
  {
    WrapIs(tail + i);
  }

  lemma RingPush(buf: seq<byte>, head: nat, tail: nat, c: byte)
    requires |buf| == RX_BUF && head < RX_BUF && tail < RX_BUF
    ensures (head + 1) % RX_BUF != tail <==> |Ring(buf, head, tail)| < CAPACITY
    ensures (head + 1) % RX_BUF != tail ==>
              Ring(buf[head := c], (head + 1) % RX_BUF, tail) == Ring(buf, head, tail) + [c]
  {
    hide Ring;
    var next := Wrapped(head + 1);
    WrapIs(head + 1);
    RingSize(head, tail);
    RingSize(next, tail);
    if next != tail {
      var q, q' := Ring(buf, head, tail), Ring(buf[head := c], next, tail);
      forall i: nat | i < |q'| ensures q'[i] == (q + [c])[i] {
        RingAt(buf[head := c], next, tail, i);
        if i < |q| {
          RingAt(buf, head, tail, i);
        }
      }
      assert q' == q + [c];
    }
  }

  lemma RingEmpty(buf: seq<byte>, head: nat, tail: nat)
    requires |buf| == RX_BUF && head < RX_BUF && tail < RX_BUF
    ensures Ring(buf, head, tail) == [] <==> head == tail
  {
  }

  lemma RingPop(buf: seq<byte>, head: nat, tail: nat)
    requires |buf| == RX_BUF && head < RX_BUF && tail < RX_BUF && head != tail
    ensures Ring(buf, head, tail) == [buf[tail]] + Ring(buf, head, (tail + 1) % RX_BUF)
  {
    hide Ring;
    var next := Wrapped(tail + 1);
    WrapIs(tail + 1);
    RingSize(head, tail);
    RingSize(head, next);
    var q, q' := Ring(buf, head, tail), Ring(buf, head, next);
    RingAt(buf, head, tail, 0);
    forall i: nat | i < |q'| ensures q'[i] == q[i + 1] {
      RingAt(buf, head, next, i);
      RingAt(buf, head, tail, i + 1);
    }
    assert q == [buf[tail]] + q';
  }

  /* ---------------------------------------------------------------- */
  /* The device                                                        */
  /* ---------------------------------------------------------------- */

  class Device {
    var ier: byte
    var iir: byte
    var fcr: byte
    var lcr: byte
    var mcr: byte
    var msr: byte
    var scr: byte
    var dll: byte
    var dlm: byte
    const rxBuf: array<byte>
    var rxHead: nat
    var rxTail: nat
    var thriPending: bool
    var irqLevel: bool
    ghost var levels: seq<bool>  // every call of irq_set
    ghost var output: seq<byte>   // every byte written to out_fd

    ghost predicate Valid()
      reads this
    {
      rxBuf.Length == RX_BUF && rxHead < RX_BUF && rxTail < RX_BUF
    }

    ghost function Queue(): seq<byte>
      requires Valid()
      reads this, rxBuf
    {
      Ring(rxBuf[..], rxHead, rxTail)
    }

    ghost function Value(): (s: Uart)
      requires Valid()
      reads this, rxBuf
      ensures |s.rx| <= CAPACITY
    {
      Uart(ier, iir, fcr, lcr, mcr, msr, scr, dll, dlm, Queue(), thriPending, irqLevel)
    }

    constructor ()
      ensures Valid() && fresh(rxBuf) && Value() == RESET && levels == [] && output == []
    {
      hide Ring;
      ier, iir, fcr, lcr, mcr, msr, scr, dll, dlm := 0, 1, 0, 0, 0, 0xb0, 0, 0, 0;
      rxBuf := new byte[RX_BUF](_ => 0);
      rxHead, rxTail, thriPending, irqLevel := 0, 0, false, false;
      levels, output := [], [];
      new;
      RingEmpty(rxBuf[..], 0, 0);
    }

    predicate RxEmpty()
      reads this
    {
      rxHead == rxTail
    }

    /** `update_irq`. */
    method UpdateIrq()
      requires Valid()
      modifies this
      ensures Valid() && Value() == Settle(old(Value())) && output == old(output)
      ensures levels == old(levels) + Change(old(irqLevel), Level(old(Value())))
    {
      var cause: byte := 1;
      if On(ier, 1) && !RxEmpty() {
        cause := 4;
      } else if On(ier, 2) && thriPending {
        cause := 2;
      }
      if On(fcr, 1) {
        cause := cause + 0xc0;
      }
      hide Ring;
      ghost var was := Value();
      RingEmpty(rxBuf[..], rxHead, rxTail);
      assert cause == Iir(was);
      iir := cause;
      var level := !On(cause, 1) && On(mcr, 8) && !On(mcr, 0x10);
      assert level == Level(was);
      if level != irqLevel {
        irqLevel := level;
        levels := levels + [level];
      }
    }

    /** The ring write shared by loopback and `serial8250_push_rx`. */
    method Enqueue(c: byte) returns (ok: bool)
      requires Valid()
      modifies this`rxHead, rxBuf
      ensures Valid() && ok == (|old(Queue())| < CAPACITY)
      ensures Queue() == if ok then old(Queue()) + [c] else old(Queue())
    {
      var next := (rxHead + 1) % RX_BUF;
      ok := next != rxTail;
      ghost var buf := rxBuf[..];
      RingPush(buf, rxHead, rxTail, c);
      hide Ring;
      if ok {
        rxBuf[rxHead] := c;
        assert rxBuf[..] == buf[rxHead := c];
        rxHead := next;
      }
    }

    method Dequeue() returns (c: byte)
      requires Valid() && !RxEmpty()
      modifies this`rxTail
      ensures Valid() && old(Queue()) == [c] + Queue()
    {
      RingPop(rxBuf[..], rxHead, rxTail);
      hide Ring;
      c := rxBuf[rxTail];
      rxTail := (rxTail + 1) % RX_BUF;
    }

    /** `msr_value`. */
    function MsrValue(): (m: byte)
      requires Valid()
      reads this, rxBuf
      ensures m == ModemStatus(Value())
    {
      if !On(mcr, 0x10) then msr
      else
        (if On(mcr, 2) then 0x10 else 0) + (if On(mcr, 1) then 0x20 else 0)
        + (if On(mcr, 4) then 0x40 else 0) + (if On(mcr, 8) then 0x80 else 0)
    }

    /** RBR: the divisor latch, or the oldest byte if there is one. */
    method ReadRx() returns (v: byte)
      requires Valid()
      modifies this`rxTail
      ensures Valid() && (v, Value()) == ReadReg(old(Value()), RX)
    {
      hide Ring;
      RingEmpty(rxBuf[..], rxHead, rxTail);
      v := 0;
      if On(lcr, 0x80) {
        v := dll;
      } else if !RxEmpty() {
        ghost var was := Value();
        v := Dequeue();
        assert was.rx[1..] == Queue();
      }
    }

    /** IIR: reading a THR-empty cause acknowledges it. */
    method ReadIir() returns (v: byte)
      requires Valid()
      modifies this`thriPending
      ensures Valid() && (v, Value()) == ReadReg(old(Value()), IIR)
    {
      hide Ring;
      v := 0;
      if lcr != CONF_B {
        v := iir;
        if v % 16 == 2 {
          thriPending := false;
        }
      }
    }

    method ReadLsr() returns (v: byte)
      requires Valid()
      ensures (v, Value()) == ReadReg(Value(), LSR)
    {
      hide Ring;
      RingEmpty(rxBuf[..], rxHead, rxTail);
      v := 0x60;
      if !RxEmpty() {
        v := v + 1;
      }
    }

    /** The register switch of `serial_read`. */
    method ReadSwitch(off: nat) returns (v: byte)
      requires Valid()
      modifies this
      ensures Valid() && (v, Value()) == ReadReg(old(Value()), off)
      ensures levels == old(levels) && output == old(output)
    {
      hide Ring;
      v := 0;
      if off == RX {
        v := ReadRx();
      } else if off == IER {
        v := if On(lcr, 0x80) then dlm else ier;
      } else if off == IIR {
        v := ReadIir();
      } else if off == LCR {
        v := lcr;
      } else if off == MCR {
        v := mcr;
      } else if off == LSR {
        v := ReadLsr();
      } else if off == MSR {
        v := MsrValue();
      } else if off == SCR {
        v := scr;
      }
    }

    /** `serial_read`. */
    method Read(off: nat, size: nat) returns (data: seq<byte>)
      requires Valid()
      modifies this
      ensures Valid() && (data, Value()) == AfterRead(old(Value()), off, size)
      ensures levels == old(levels) + Change(old(irqLevel), irqLevel) && output == old(output)
    {
      if size != 1 {
        return seq(size, _ => 0xff);
      }
      var v := ReadSwitch(off);
      UpdateIrq();
      data := [v];
    }

    /** `tx_byte`. */
    method TxByte(c: byte)
      requires Valid()
      modifies this`rxHead, this`output, rxBuf
      ensures Valid() && Value() == if Loop(old(Value())) then Accept(old(Value()), c) else old(Value())
      ensures output == old(output) + if Loop(old(Value())) then [] else [c]
    {
      if On(mcr, 0x10) {
        var ok := Enqueue(c);
        return;
      }
      output := output + [c];
    }

    /** THR: the byte leaves at once, so the holding register is empty again. */
    method WriteTx(v: byte)
      requires Valid()
      modifies this`rxHead, this`output, this`dll, this`thriPending, rxBuf
      ensures Valid() && Value() == WriteReg(old(Value()), TX, v)
      ensures output == old(output) + Transmitted(old(Value()), TX, 1, v)
    {
      hide Ring;
      if On(lcr, 0x80) {
        dll := v;
      } else {
        TxByte(v);
        thriPending := true;
      }
    }

    /** IER: enabling THRI while the holding register is empty raises the cause at once. */
    method WriteIer(v: byte)
      requires Valid()
      modifies this`ier, this`dlm, this`thriPending
      ensures Valid() && Value() == WriteReg(old(Value()), IER, v)
    {
      hide Ring;
      if On(lcr, 0x80) {
        dlm := v;
      } else {
        if !On(ier, 2) && On(v, 2) {
          thriPending := true;
        }
        ier := v % 16;
      }
    }

    method WriteFcr(v: byte)
      requires Valid()
      modifies this`fcr, this`rxHead, this`rxTail
      ensures Valid() && Value() == WriteReg(old(Value()), FCR, v)
    {
      hide Ring;
      RingEmpty(rxBuf[..], 0, 0);
      if lcr != CONF_B {
        if On(v, 2) {
          rxHead, rxTail := 0, 0;
        }
        fcr := v % 2;
      }
    }

    /** The register switch of `serial_write`. */
    method WriteSwitch(off: nat, v: byte)
      requires Valid()
      modifies this, rxBuf
      ensures Valid() && Value() == WriteReg(old(Value()), off, v)
      ensures levels == old(levels) && irqLevel == old(irqLevel)
      ensures output == old(output) + Transmitted(old(Value()), off, 1, v)
    {
      hide Ring;
      if off == TX {
        WriteTx(v);
      } else if off == IER {
        WriteIer(v);
      } else if off == FCR {
        WriteFcr(v);
      } else if off == LCR {
        lcr := v;
      } else if off == MCR {
        mcr := v % 32;
      } else if off == SCR {
        scr := v;
      }
    }

    /** `serial_write`. */
    method Write(off: nat, size: nat, v: byte)
      requires Valid()
      modifies this, rxBuf
      ensures Valid() && Value() == AfterWrite(old(Value()), off, size, v)
      ensures levels == old(levels) + Change(old(irqLevel), irqLevel)
      ensures output == old(output) + Transmitted(old(Value()), off, size, v)
    {
      if size != 1 {
        return;
      }
      hide Ring, WriteReg, Transmitted;
      WriteSwitch(off, v);
      UpdateIrq();
    }

    /** `serial8250_push_rx`: refuses a byte exactly when 255 are waiting. */
    method PushRx(c: byte) returns (ok: bool)
      requires Valid()
      modifies this, rxBuf
      ensures Valid() && Value() == AfterPush(old(Value()), c) && ok == (|old(Queue())| != CAPACITY)
      ensures levels == old(levels) + Change(old(irqLevel), irqLevel) && output == old(output)
    {
      ok := Enqueue(c);
      UpdateIrq();
    }
  }
}
