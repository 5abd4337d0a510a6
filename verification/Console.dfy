/** The console's Ctrl-A escape (src/console.c): stdin bytes to UART bytes, or stop. */
module Console {
  import opened Bytes
  import opened Serial8250

  const CTRL_A: byte := 1

  predicate IsX(c: byte) {
    c == 0x78 || c == 0x58
  }

  /** `esc` after reading `p` without having stopped. */
  predicate Esc(p: seq<byte>) {
    p != [] && p[|p| - 1] == CTRL_A && !Esc(p[..|p| - 1])
  }

  /** The last byte of `p` completes Ctrl-A x. */
  predicate Stops(p: seq<byte>) {
    p != [] && Esc(p[..|p| - 1]) && IsX(p[|p| - 1])
  }

  /** What one byte pushes into the UART. */
  function Emit(esc: bool, c: byte): seq<byte> {
    if esc then (if c != CTRL_A then [CTRL_A, c] else [CTRL_A])
    else if c == CTRL_A then []
    else [c]
  }

  /** Everything pushed while reading `p`. */
  function Pushed(p: seq<byte>): seq<byte> {
    if p == [] then [] else Pushed(p[..|p| - 1]) + Emit(Esc(p[..|p| - 1]), p[|p| - 1])
  }

  lemma AppendOne(p: seq<byte>, c: byte)
    ensures Pushed(p + [c]) == Pushed(p) + Emit(Esc(p), c)
    ensures Esc(p + [c]) == (c == CTRL_A && !Esc(p)) && Stops(p + [c]) == (Esc(p) && IsX(c))
  {
    assert (p + [c])[..|p|] == p;
  }

  predicate NeverStops(p: seq<byte>) {
    forall k :: 0 <= k <= |p| ==> !Stops(p[..k])
  }

  lemma NeverStopsNext(p: seq<byte>, c: byte)
    requires NeverStops(p) && !Stops(p + [c])
    ensures NeverStops(p + [c])
  {
    forall k | 0 <= k <= |p| + 1 ensures !Stops((p + [c])[..k]) {
      if k <= |p| {
        assert (p + [c])[..k] == p[..k];
      } else {
        assert (p + [c])[..k] == p + [c];
      }
    }
  }

  function PushAll(s: Uart, cs: seq<byte>): Uart {
    if cs == [] then s else AfterPush(PushAll(s, cs[..|cs| - 1]), cs[|cs| - 1])
  }

  lemma Nothing(s: Uart)
    ensures PushAll(s, Pushed([])) == s && !Esc([]) && NeverStops([])
  {
  }

  /** One byte pushed by the console thread; `done` is what it has pushed before. */
  method PushOne(uart: Device, c: byte, ghost s0: Uart, ghost done: seq<byte>)
    requires uart.Valid() && uart.Value() == PushAll(s0, done)
    modifies uart, uart.rxBuf
    ensures uart.Valid() && uart.Value() == PushAll(s0, done + [c])
  {
    var ok := uart.PushRx(c);
    assert (done + [c])[..|done|] == done;
  }

  /** One round of the loop. */
  method ReadOne(uart: Device, esc: bool, c: byte, ghost s0: Uart, ghost p: seq<byte>) returns (esc': bool, stop: bool)
    requires uart.Valid() && uart.Value() == PushAll(s0, Pushed(p)) && esc == Esc(p)
    modifies uart, uart.rxBuf
    ensures uart.Valid() && stop == Stops(p + [c])
    ensures if stop then uart.Value() == old(uart.Value())
            else esc' == Esc(p + [c]) && uart.Value() == PushAll(s0, Pushed(p + [c]))
  {
    hide Pushed, Esc, Stops, PushAll, Ring;
    AppendOne(p, c);
    ghost var done := Pushed(p);
    esc', stop := false, false;
    if esc {
      if IsX(c) {
        return false, true;
      }
      if c != CTRL_A {
        PushOne(uart, CTRL_A, s0, done);
        done := done + [CTRL_A];
      }
      PushOne(uart, c, s0, done);
      assert done + [c] == Pushed(p) + Emit(true, c);
    } else if c == CTRL_A {
      esc' := true;
      assert Pushed(p) + [] == Pushed(p);
    } else {
      PushOne(uart, c, s0, done);
    }
  }

  /** `console_thread` on the bytes of stdin up to end of file: it stops at the first
      completed Ctrl-A x and pushes exactly `Pushed` of what came before. */
  method Thread(input: seq<byte>, uart: Device) returns (stopped: bool, used: nat)
    requires uart.Valid()
    modifies uart, uart.rxBuf
    ensures uart.Valid() && used <= |input|
    ensures if stopped then used > 0 && Stops(input[..used]) && NeverStops(input[..used - 1])
            else used == |input| && NeverStops(input)
    ensures uart.Value() == PushAll(old(uart.Value()), Pushed(if stopped then input[..used - 1] else input))
  {
    Nothing(uart.Value());
    assert input[..0] == [];
    hide Pushed, Esc, Stops, NeverStops, PushAll, Ring, AfterPush;
    stopped, used := false, 0;
    var esc := false;
    ghost var s0, done: nat := uart.Value(), 0;
    while used < |input| && !stopped
      invariant done <= used <= |input| && used == done + (if stopped then 1 else 0) && uart.Valid()
      invariant NeverStops(input[..done]) && uart.Value() == PushAll(s0, Pushed(input[..done]))
      invariant if stopped then Stops(input[..used]) else esc == Esc(input[..done])
    {
      var c := input[used];
      OneMore(input, done);
      esc, stopped := ReadOne(uart, esc, c, s0, input[..done]);
      used := used + 1;
      if !stopped {
        NeverStopsNext(input[..done], c);
        done := done + 1;
      }
    }
    OneMore(input, used);
  }

  lemma OneMore(input: seq<byte>, k: nat)
    requires k <= |input|
    ensures k < |input| ==> input[..k + 1] == input[..k] + [input[k]]
    ensures k == |input| ==> input[..k] == input
  {
  }

  /** The length of the run of Ctrl-A bytes at the end of `p`. */
  function CtrlRun(p: seq<byte>): nat {
    if p != [] && p[|p| - 1] == CTRL_A then 1 + CtrlRun(p[..|p| - 1]) else 0
  }

  /** The stop sequence is an x right after an odd number of Ctrl-A bytes: the thread stops at
      the first such x, and a doubled Ctrl-A in front of an x is only text. */
  lemma {:induction false} StopsOnOddRun(p: seq<byte>)
    ensures Esc(p) <==> CtrlRun(p) % 2 == 1
    ensures Stops(p) <==> p != [] && IsX(p[|p| - 1]) && CtrlRun(p[..|p| - 1]) % 2 == 1
  {
    if p != [] {
      StopsOnOddRun(p[..|p| - 1]);
    }
  }

  /** How to type `bs`: every Ctrl-A twice. */
  function Escape(bs: seq<byte>): seq<byte> {
    if bs == [] then []
    else Escape(bs[..|bs| - 1]) + if bs[|bs| - 1] == CTRL_A then [CTRL_A, CTRL_A] else [bs[|bs| - 1]]
  }

  lemma TypeOne(e: seq<byte>, b: byte)
    requires !Esc(e) && NeverStops(e)
    ensures var t := e + if b == CTRL_A then [CTRL_A, CTRL_A] else [b];
            Pushed(t) == Pushed(e) + [b] && !Esc(t) && NeverStops(t)
  {
    hide Pushed, Esc, Stops, NeverStops;
    AppendOne(e, b);
    NeverStopsNext(e, b);
    if b == CTRL_A {
      AppendOne(e + [b], b);
      NeverStopsNext(e + [b], b);
      assert e + [b] + [b] == e + [CTRL_A, CTRL_A];
      assert Pushed(e) + [] + [b] == Pushed(e) + [b];
    }
  }

  /** Every byte string can be typed: escaped, it reaches the UART unchanged and never stops
      the machine. */
  lemma {:induction false} EscapeRoundTrip(bs: seq<byte>)
    ensures Pushed(Escape(bs)) == bs && !Esc(Escape(bs)) && NeverStops(Escape(bs))
    decreases |bs|
  {
    if bs != [] {
      hide Pushed, Esc, Stops, NeverStops;
      EscapeRoundTrip(bs[..|bs| - 1]);
      TypeOne(Escape(bs[..|bs| - 1]), bs[|bs| - 1]);
      assert bs[..|bs| - 1] + [bs[|bs| - 1]] == bs;
    }
  }

  /** And Ctrl-A x typed after it stops right there, with everything before delivered. */
  lemma QuitAfter(bs: seq<byte>, x: byte)
    requires IsX(x)
    ensures var p := Escape(bs) + [CTRL_A, x];
            Stops(p) && NeverStops(p[..|p| - 1]) && Pushed(p[..|p| - 1]) == bs
  {
    EscapeRoundTrip(bs);
    var e := Escape(bs);
    AppendOne(e, CTRL_A);
    AppendOne(e + [CTRL_A], x);
    NeverStopsNext(e, CTRL_A);
    var p := e + [CTRL_A, x];
    assert p == e + [CTRL_A] + [x] && p[..|p| - 1] == e + [CTRL_A];
    assert Pushed(e) + [] == bs;
  }
}
