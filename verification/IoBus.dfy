/** The I/O bus (src/vm.c): device table, first-match lookup, PIO and MMIO dispatch. */
module IoBus {
  import opened Bytes
  import opened Common

  datatype Status = Ok | NoMemory | Conflict

  /** What a callback leaves: the new world, its return code, and its window of the buffer. */
  datatype Answer<W> = Answer(world: W, code: int, data: seq<byte>)

  /** A device callback: world, offset, access size, window. */
  type Callback<!W> = (W, nat, nat, seq<byte>) -> Answer<W>

  datatype Dev<!W> = Dev(name: string, base: nat, len: nat, read: Option<Callback<W>>, write: Option<Callback<W>>)

  const VMM_OK: int := 0

  /* ---------------------------------------------------------------- */
  /* The table                                                         */
  /* ---------------------------------------------------------------- */

  /** The overlap test of `io_register`. */
  predicate Clash<W>(d: Dev<W>, t: Dev<W>) {
    d.base < End(t.base, t.len) && t.base < End(d.base, d.len)
  }

  ghost predicate Conflicts<W(!new)>(ds: seq<Dev<W>>, d: Dev<W>) {
    exists i :: 0 <= i < |ds| && Clash(d, ds[i])
  }

  ghost function Registered<W(!new)>(ds: seq<Dev<W>>, max: nat, d: Dev<W>): (Status, seq<Dev<W>>) {
    if |ds| >= max then (NoMemory, ds)
    else if Conflicts(ds, d) then (Conflict, ds)
    else (Ok, ds + [d])
  }

  predicate Seems<W>(d: Dev<W>, addr: nat) {
    d.base <= addr < End(d.base, d.len)
  }

  /** `io_lookup`: the first device that seems to contain the address. */
  function Lookup<W>(ds: seq<Dev<W>>, addr: nat): Option<Dev<W>> {
    if ds == [] then None
    else if Seems(ds[0], addr) then Some(ds[0])
    else Lookup(ds[1..], addr)
  }

  /** What one callback invocation does; a missing callback succeeds and changes nothing, and
      a write leaves the buffer alone. */
  function Call<W>(d: Dev<W>, w: W, write: bool, off: nat, size: nat, window: seq<byte>): (a: Answer<W>)
    requires |window| == size
    ensures |a.data| == size && (write ==> a.data == window)
  {
    match if write then d.write else d.read
    case None => Answer(w, VMM_OK, window)
    case Some(f) =>
      var a := f(w, off, size, window);
      a.(data := if !write && |a.data| == size then a.data else window)
  }

  /** What a string access leaves: world, code, and every window of the buffer. */
  datatype Outcome<W> = Outcome(world: W, code: int, windows: seq<seq<byte>>)

  predicate Sized(ws: seq<seq<byte>>, size: nat) {
    forall i :: 0 <= i < |ws| ==> |ws[i]| == size
  }

  /** String I/O: one call per window, all at the same offset, until one does not return OK. */
  function StringIo<W>(d: Dev<W>, w: W, write: bool, off: nat, size: nat, ws: seq<seq<byte>>): (r: Outcome<W>)
    requires Sized(ws, size)
    ensures |r.windows| == |ws| && Sized(r.windows, size)
  {
    if ws == [] then Outcome(w, VMM_OK, [])
    else
      var a := Call(d, w, write, off, size, ws[0]);
      if a.code != VMM_OK then Outcome(a.world, a.code, [a.data] + ws[1..])
      else
        var r := StringIo(d, a.world, write, off, size, ws[1..]);
        r.(windows := [a.data] + r.windows)
  }

  function Ones(size: nat, count: nat): (ws: seq<seq<byte>>)
    ensures |ws| == count && Sized(ws, size)
  {
    seq(count, _ => seq(size, _ => 0xff))
  }

  /** `io_bus_dispatch_pio`, and with one window `io_bus_dispatch_mmio`: an address nobody
      owns reads as all ones and swallows writes. */
  function Dispatch<W>(ds: seq<Dev<W>>, w: W, addr: nat, write: bool, size: nat, ws: seq<seq<byte>>): Outcome<W>
    requires Sized(ws, size)
  {
    match Lookup(ds, addr)
    case None => Outcome(w, VMM_OK, if write then ws else Ones(size, |ws|))
    case Some(d) => StringIo(d, w, write, if addr >= d.base then addr - d.base else 0, size, ws)
  }

  /** The consecutive windows of a buffer. */
  function Windows(data: seq<byte>, size: nat, count: nat): (ws: seq<seq<byte>>)
    requires |data| == size * count
    ensures |ws| == count && Sized(ws, size) && Flatten(ws) == data
  {
    if count == 0 then []
    else
      WindowFits(size, count);
      assert data == data[..size] + data[size..];
      [data[..size]] + Windows(data[size..], size, count - 1)
  }

  lemma WindowFits(size: nat, count: nat)
    requires count > 0
    ensures size * count == size + size * (count - 1)
  {
  }

  class Bus<!W(!new)> {
    const devs: array<Dev<W>>
    var n: nat
    var world: W  // the state behind all the devices

    ghost predicate Valid()
      reads this
    {
      n <= devs.Length
    }

    ghost function Table(): seq<Dev<W>>
      requires Valid()
      reads this, devs
    {
      devs[..n]
    }

    constructor (max: nat, none: Dev<W>, w: W)
      ensures Valid() && fresh(devs) && devs.Length == max && Table() == [] && world == w
    {
      devs := new Dev<W>[max](_ => none);
      n, world := 0, w;
    }

    /** `io_register`. */
    method Register(d: Dev<W>) returns (status: Status)
      requires Valid()
      modifies this`n, devs
      ensures Valid() && (status, Table()) == Registered(old(Table()), devs.Length, d)
    {
      if n >= devs.Length {
        return NoMemory;
      }
      var i := 0;
      while i < n
        invariant i <= n && forall j :: 0 <= j < i ==> !Clash(d, devs[j])
      {
        if Clash(d, devs[i]) {
          assert Clash(d, Table()[i]);
          return Conflict;
        }
        i := i + 1;
      }
      ghost var was := Table();
      devs[n] := d;
      n := n + 1;
      assert Table() == was + [d];
      status := Ok;
    }

    method Find(addr: nat) returns (d: Option<Dev<W>>)
      requires Valid()
      ensures d == Lookup(Table(), addr)
    {
      var i := 0;
      while i < n
        invariant i <= n && Lookup(Table()[i..], addr) == Lookup(Table(), addr)
      {
        if Seems(devs[i], addr) {
          return Some(devs[i]);
        }
        assert Table()[i..][1..] == Table()[i + 1..];
        i := i + 1;
      }
      d := None;
    }

    method CallOne(d: Dev<W>, write: bool, off: nat, size: nat, data: array<byte>, at: nat) returns (code: int)
      requires Valid() && at + size <= data.Length
      modifies this`world, data
      ensures var a := Call(d, old(world), write, off, size, old(data[at..at + size]));
              && world == a.world && code == a.code
              && data[..] == Put(old(data[..]), at, a.data)
    {
      ghost var was := data[..];
      var a := Call(d, world, write, off, size, data[at..at + size]);
      world := a.world;
      code := a.code;
      forall k | 0 <= k < size {
        data[at + k] := a.data[k];
      }
      assert data[..] == Put(was, at, a.data);
    }

    /** The loop of `io_bus_dispatch_pio`. */
    method RunString(d: Dev<W>, write: bool, off: nat, size: nat, count: nat, data: array<byte>) returns (code: int)
      requires Valid() && data.Length == size * count
      modifies this`world, data
      ensures var r := StringIo(d, old(world), write, off, size, Windows(old(data[..]), size, count));
              world == r.world && code == r.code && data[..] == Flatten(r.windows)
    {
      hide Flatten, Windows, StringIo, Call, Continues;
      ghost var done, left := [], Windows(data[..], size, count);
      ghost var whole := StringIo(d, world, write, off, size, left);
      Begins(whole);
      var at: nat, i: nat := 0, 0;
      while i < count
        invariant i <= count && |left| == count - i && Sized(left, size) && at <= data.Length
        invariant data[..at] == Flatten(done) && data[at..] == Flatten(left)
        invariant Continues(whole, done, StringIo(d, world, write, off, size, left))
      {
        ghost var before, w := data[..], world;
        FirstWindow(before, at, left);
        code := CallOne(d, write, off, size, data, at);
        ghost var a := Call(d, w, write, off, size, left[0]);
        Advance(before, data[..], at, done, left, a.data);
        OneCall(d, w, write, off, size, left, whole, done);
        if code != VMM_OK {
          return;
        }
        done, left := done + [a.data], left[1..];
        at, i := at + size, i + 1;
      }
      code := VMM_OK;
      Ends(d, world, write, off, size, whole, done);
      assert data[..at] + data[at..] == data[..];
    }

    /** `io_bus_dispatch_pio`. */
    method DispatchPio(port: nat, write: bool, size: nat, count: nat, data: array<byte>) returns (code: int)
      requires Valid() && data.Length == size * count
      modifies this`world, data
      ensures var r := Dispatch(old(Table()), old(world), port, write, size, Windows(old(data[..]), size, count));
              world == r.world && code == r.code && data[..] == Flatten(r.windows)
    {
      hide Flatten, StringIo;
      var d := Find(port);
      LookupSeems(Table(), port);
      if d.None? {
        if !write {
          AllOnes(size, count);
          forall k | 0 <= k < data.Length {
            data[k] := 0xff;
          }
        }
        return VMM_OK;
      }
      code := RunString(d.value, write, port - d.value.base, size, count, data);
    }

    /** `io_bus_dispatch_mmio`: a single access. */
    method DispatchMmio(addr: nat, write: bool, len: nat, data: array<byte>) returns (code: int)
      requires Valid() && data.Length == len
      modifies this`world, data
      ensures var r := Dispatch(old(Table()), old(world), addr, write, len, [old(data[..])]);
              world == r.world && code == r.code && |r.windows| == 1 && data[..] == r.windows[0]
    {
      hide Flatten, StringIo;
      ghost var whole := data[..];
      OneWindow(whole);
      code := DispatchPio(addr, write, len, 1, data);
      ghost var r := Dispatch(Table(), old(world), addr, write, len, [whole]);
      FlattenSingle(r.windows);
    }
  }

  lemma OneWindow(data: seq<byte>)
    ensures Windows(data, |data|, 1) == [data]
  {
    assert data[..|data|] == data;
    assert Windows(data[|data|..], |data|, 0) == [];
  }

  lemma FlattenSingle(ws: seq<seq<byte>>)
    requires |ws| == 1
    ensures Flatten(ws) == ws[0]
  {
    assert ws[1..] == [];
  }

  lemma {:induction false} AllOnes(size: nat, count: nat)
    ensures |Flatten(Ones(size, count))| == size * count
    ensures forall k :: 0 <= k < size * count ==> Flatten(Ones(size, count))[k] == 0xff
  {
    if count > 0 {
      AllOnes(size, count - 1);
      WindowFits(size, count);
      assert Ones(size, count)[1..] == Ones(size, count - 1);
    }
  }

  /** `whole` is what `rest` leaves, behind the windows already done. */
  ghost predicate Continues<W>(whole: Outcome<W>, done: seq<seq<byte>>, rest: Outcome<W>) {
    whole == rest.(windows := done + rest.windows)
  }

  lemma Begins<W>(whole: Outcome<W>)
    ensures Continues(whole, [], whole) && Flatten([]) == []
  {
    assert [] + whole.windows == whole.windows;
  }

  lemma Ends<W>(d: Dev<W>, w: W, write: bool, off: nat, size: nat, whole: Outcome<W>, done: seq<seq<byte>>)
    requires Continues(whole, done, StringIo(d, w, write, off, size, []))
    ensures whole == Outcome(w, VMM_OK, done) && Flatten([]) == []
  {
    assert done + [] == done;
  }

  /** One call moves one window from `left` to `done`. */
  lemma OneCall<W>(d: Dev<W>, w: W, write: bool, off: nat, size: nat, left: seq<seq<byte>>,
                   whole: Outcome<W>, done: seq<seq<byte>>)
    requires left != [] && Sized(left, size) && Continues(whole, done, StringIo(d, w, write, off, size, left))
    ensures var a := Call(d, w, write, off, size, left[0]);
            if a.code != VMM_OK then
              && whole.world == a.world && whole.code == a.code
              && Flatten(whole.windows) == Flatten(done + [a.data]) + Flatten(left[1..])
            else Continues(whole, done + [a.data], StringIo(d, a.world, write, off, size, left[1..]))
  {
    var a := Call(d, w, write, off, size, left[0]);
    hide Call, Flatten;
    if a.code != VMM_OK {
      FlattenAppend(done + [a.data], left[1..]);
      assert done + ([a.data] + left[1..]) == done + [a.data] + left[1..];
    } else {
      var r := StringIo(d, a.world, write, off, size, left[1..]);
      assert done + ([a.data] + r.windows) == done + [a.data] + r.windows;
    }
  }

  lemma FirstWindow(data: seq<byte>, at: nat, left: seq<seq<byte>>)
    requires at <= |data| && data[at..] == Flatten(left) && left != []
    ensures at + |left[0]| <= |data| && data[at..at + |left[0]|] == left[0]
    ensures data[at + |left[0]|..] == Flatten(left[1..])
  {
    var n := |left[0]|;
    assert data[at..][..n] == left[0] && data[at..][n..] == Flatten(left[1..]);
  }

  /** The buffer after one call. */
  lemma Advance(before: seq<byte>, after: seq<byte>, at: nat, done: seq<seq<byte>>, left: seq<seq<byte>>, d: seq<byte>)
    requires left != [] && |d| == |left[0]| && at + |d| <= |before| && after == Put(before, at, d)
    requires before[..at] == Flatten(done) && before[at + |d|..] == Flatten(left[1..])
    ensures after[..at + |d|] == Flatten(done + [d]) && after[at + |d|..] == Flatten(left[1..])
    ensures after == Flatten(done + [d]) + Flatten(left[1..])
  {
    hide Flatten;
    FlattenOne(done, d);
    assert after[..at + |d|] == before[..at] + d;
    assert after[at + |d|..] == before[at + |d|..];
    assert after == after[..at + |d|] + after[at + |d|..];
  }

  lemma {:induction false} LookupSeems<W>(ds: seq<Dev<W>>, addr: nat)
    ensures Lookup(ds, addr).Some? ==> Lookup(ds, addr).value in ds && Seems(Lookup(ds, addr).value, addr)
    ensures Lookup(ds, addr).None? ==> forall d :: d in ds ==> !Seems(d, addr)
  {
    if ds != [] {
      LookupSeems(ds[1..], addr);
    }
  }

  /* ---------------------------------------------------------------- */
  /* The integer model                                                 */
  /* ---------------------------------------------------------------- */

  /** The address lies in the device's range, over unbounded integers. */
  predicate Owns<W>(d: Dev<W>, addr: nat) {
    d.base <= addr < d.base + d.len
  }

  predicate Meet<W>(d: Dev<W>, e: Dev<W>) {
    RangesMeet(d.base, d.len, e.base, e.len)
  }

  predicate Disjoint<W>(ds: seq<Dev<W>>) {
    forall i, j :: 0 <= i < j < |ds| ==> !Meet(ds[i], ds[j])
  }

  predicate EndsBelow<W>(ds: seq<Dev<W>>) {
    forall i :: 0 <= i < |ds| ==> ds[i].base + ds[i].len < TWO64
  }

  /** Base and length fit into 64 bits, as they do by their type. */
  predicate Bits64<W>(ds: seq<Dev<W>>) {
    forall i :: 0 <= i < |ds| ==> ds[i].base < TWO64 && ds[i].len < TWO64
  }

  /** No registered device and `d` meet behind the wrap of one of their ends. */
  predicate Clear<W>(ds: seq<Dev<W>>, d: Dev<W>) {
    forall i :: 0 <= i < |ds| ==> ClearOfWrap(ds[i].base, ds[i].len, d.base, d.len)
  }

  /** Exactly when registration keeps the ranges pairwise disjoint: the device is refused, or
      neither it nor an older one reaches 2^64 with the other starting below its end. */
  lemma RegisterKeeps<W(!new)>(ds: seq<Dev<W>>, max: nat, d: Dev<W>)
    requires Disjoint(ds) && Bits64(ds + [d])
    ensures Disjoint(Registered(ds, max, d).1) <==> !Registered(ds, max, d).0.Ok? || Clear(ds, d)
  {
    if Registered(ds, max, d).0.Ok? {
      var es := ds + [d];
      forall i | 0 <= i < |ds|
        ensures es[i] == ds[i] && (Meet(es[i], d) <==> !ClearOfWrap(ds[i].base, ds[i].len, d.base, d.len))
      {
        assert es[i].base < TWO64 && es[|ds|].base < TWO64 && !Clash(d, ds[i]);
        WrappedTest(ds[i].base, ds[i].len, d.base, d.len);
      }
      hide Meet, ClearOfWrap;
      assert Disjoint(es) ==> forall i :: 0 <= i < |ds| ==> !Meet(es[i], es[|ds|]);
    }
  }

  ghost function RegisterAll<W(!new)>(max: nat, news: seq<Dev<W>>): seq<Dev<W>> {
    if news == [] then [] else Registered(RegisterAll(max, news[..|news| - 1]), max, news[|news| - 1]).1
  }

  /** Every device of the run that is registered is clear of those before it. */
  ghost predicate ClearRun<W(!new)>(max: nat, news: seq<Dev<W>>) {
    news != [] ==>
      var before, d := news[..|news| - 1], news[|news| - 1];
      && ClearRun(max, before)
      && (Registered(RegisterAll(max, before), max, d).0.Ok? ==> Clear(RegisterAll(max, before), d))
  }

  /** After any run of registrations the table is disjoint if and only if every device
      registered was clear of those it found. */
  lemma {:induction false} RegistrationsDisjoint<W(!new)>(max: nat, news: seq<Dev<W>>)
    requires Bits64(news)
    ensures Bits64(RegisterAll(max, news)) && (Disjoint(RegisterAll(max, news)) <==> ClearRun(max, news))
  {
    if news != [] {
      var before, d := news[..|news| - 1], news[|news| - 1];
      var ds := RegisterAll(max, before);
      RegistrationsDisjoint(max, before);
      hide Meet, Clear, Conflicts, Clash;
      if Disjoint(ds) {
        RegisterKeeps(ds, max, d);
      } else {
        var i, j :| 0 <= i < j < |ds| && Meet(ds[i], ds[j]);
        var es := Registered(ds, max, d).1;
        assert es[i] == ds[i] && es[j] == ds[j];
      }
    }
  }

  /** So devices that end below 2^64 never meet. */
  lemma {:induction false} BelowNeverMeet<W(!new)>(max: nat, news: seq<Dev<W>>)
    requires EndsBelow(news)
    ensures ClearRun(max, news) && EndsBelow(RegisterAll(max, news))
  {
    if news != [] {
      BelowNeverMeet(max, news[..|news| - 1]);
    }
  }

  /** The last eight bytes of the address space defeat the overlap check: they can be
      registered twice. */
  lemma LastBytesTwice<W(!new)>(max: nat, d: Dev<W>)
    requires max >= 2 && d.base == TWO64 - 8 && d.len == 8
    ensures Registered([d], max, d).0.Ok? && RegisterAll(max, [d, d]) == [d, d] && !Disjoint([d, d])
  {
    assert [d, d][..1] == [d] && [d][..0] == [];
    assert RegisterAll(max, [d]) == [d];
    assert Meet([d, d][0], [d, d][1]);
  }

  /** The lookup answers as a map from addresses to devices. */
  ghost predicate LooksUpAsModel<W(!new)>(ds: seq<Dev<W>>, addr: nat) {
    forall d :: Lookup(ds, addr) == Some(d) <==> d in ds && Owns(d, addr)
  }

  lemma NoSharing<W(!new)>(ds: seq<Dev<W>>, i: nat, j: nat, addr: nat)
    requires Disjoint(ds) && i < j < |ds|
    ensures !(Owns(ds[i], addr) && Owns(ds[j], addr))
  {
    assert !Meet(ds[i], ds[j]);
  }

  lemma LookupIsModel<W(!new)>(ds: seq<Dev<W>>, addr: nat)
    requires Disjoint(ds) && EndsBelow(ds)
    ensures LooksUpAsModel(ds, addr)
  {
    LookupSeems(ds, addr);
    assert forall d :: d in ds ==> Seems(d, addr) == Owns(d, addr);
    if Lookup(ds, addr).Some? {
      var found := Lookup(ds, addr).value;
      var f :| 0 <= f < |ds| && ds[f] == found;
      forall i | 0 <= i < f ensures !(Owns(ds[i], addr) && Owns(ds[f], addr)) {
        NoSharing(ds, i, f, addr);
      }
      forall i | f < i < |ds| ensures !(Owns(ds[i], addr) && Owns(ds[f], addr)) {
        NoSharing(ds, f, i, addr);
      }
    }
  }

  /** The first-match search is the address map at every 64-bit address exactly when no
      nonempty device reaches 2^64. */
  lemma LookupIsModelIff<W(!new)>(ds: seq<Dev<W>>)
    requires Disjoint(ds) && forall i :: 0 <= i < |ds| ==> ds[i].base < TWO64 && ds[i].len < TWO64
    ensures (forall addr: nat :: addr < TWO64 ==> LooksUpAsModel(ds, addr)) <==>
            (forall i :: 0 <= i < |ds| && ds[i].len > 0 ==> ds[i].base + ds[i].len < TWO64)
  {
    if i :| 0 <= i < |ds| && ds[i].len > 0 && ds[i].base + ds[i].len >= TWO64 {
      LookupSeems(ds, ds[i].base);
      assert !Seems(ds[i], ds[i].base);
      assert ds[i] in ds && Owns(ds[i], ds[i].base);
      assert Lookup(ds, ds[i].base) != Some(ds[i]);
      assert !LooksUpAsModel(ds, ds[i].base);
    } else {
      assert EndsBelow(ds) by {
        forall i | 0 <= i < |ds| ensures ds[i].base + ds[i].len < TWO64 {
        }
      }
      forall addr: nat | addr < TWO64 ensures LooksUpAsModel(ds, addr) {
        LookupIsModel(ds, addr);
      }
    }
  }

  /** Dispatch does not depend on the order of registration: tables with the same devices
      answer every access alike. */
  lemma OrderIrrelevant<W(!new)>(ds: seq<Dev<W>>, es: seq<Dev<W>>, w: W, addr: nat, write: bool,
                                 size: nat, ws: seq<seq<byte>>)
    requires Disjoint(ds) && EndsBelow(ds) && Disjoint(es) && EndsBelow(es)
    requires forall d :: d in ds <==> d in es
    requires Sized(ws, size)
    ensures Lookup(ds, addr) == Lookup(es, addr)
    ensures Dispatch(ds, w, addr, write, size, ws) == Dispatch(es, w, addr, write, size, ws)
  {
    LookupIsModel(ds, addr);
    LookupIsModel(es, addr);
    hide Lookup;
    var a, b := Lookup(ds, addr), Lookup(es, addr);
    assert a.Some? ==> b == Some(a.value);
    assert b.Some? ==> a == Some(b.value);
  }

  /* ---------------------------------------------------------------- */
  /* String I/O                                                        */
  /* ---------------------------------------------------------------- */

  /** Call i starts in `worlds[i]`, sees window i at offset `off`, and leaves `worlds[i + 1]`
      and window i of the result; all but the last return OK and the last decides the code. */
  ghost predicate CallMade<W>(d: Dev<W>, worlds: seq<W>, write: bool, off: nat, size: nat,
                              ws: seq<seq<byte>>, r: Outcome<W>, i: nat)
  {
    && i < |ws| && i < |r.windows| && i + 1 < |worlds| && |ws[i]| == size
    && Call(d, worlds[i], write, off, size, ws[i]) ==
       Answer(worlds[i + 1], if i + 2 == |worlds| then r.code else VMM_OK, r.windows[i])
  }

  /** String I/O calls the device on consecutive windows at one offset; every call but the
      last returned OK, the last one decides the code, a result that is not OK is the last,
      and every later window is as it was. */
  lemma {:induction false} StringIoChain<W>(d: Dev<W>, w: W, write: bool, off: nat, size: nat, ws: seq<seq<byte>>)
    returns (worlds: seq<W>, calls: nat)
    requires Sized(ws, size)
    ensures var r := StringIo(d, w, write, off, size, ws);
            && calls <= |ws| && |worlds| == calls + 1 && worlds[0] == w && worlds[calls] == r.world
            && (forall i :: 0 <= i < calls ==> CallMade(d, worlds, write, off, size, ws, r, i))
            && (r.code == VMM_OK ==> calls == |ws|) && (r.code != VMM_OK ==> calls > 0)
            && r.windows[calls..] == ws[calls..]
    decreases |ws|
  {
    var r := StringIo(d, w, write, off, size, ws);
    if ws == [] {
      return [w], 0;
    }
    var a := Call(d, w, write, off, size, ws[0]);
    if a.code != VMM_OK {
      worlds, calls := [w, a.world], 1;
      assert r.windows[1..] == ws[1..];
      return;
    }
    var vs, k := StringIoChain(d, a.world, write, off, size, ws[1..]);
    var r' := StringIo(d, a.world, write, off, size, ws[1..]);
    assert r == Outcome(r'.world, r'.code, [a.data] + r'.windows);
    worlds, calls := [w] + vs, k + 1;
    hide StringIo, Call;
    ChainNext(d, w, vs, write, off, size, ws, a.data, r', k);
  }

  lemma ChainNext<W>(d: Dev<W>, w: W, vs: seq<W>, write: bool, off: nat, size: nat, ws: seq<seq<byte>>,
                     first: seq<byte>, r: Outcome<W>, k: nat)
    requires ws != [] && |ws[0]| == size && |r.windows| == |ws| - 1 && k <= |ws| - 1 && |vs| == k + 1
    requires Call(d, w, write, off, size, ws[0]) == Answer(vs[0], VMM_OK, first)
    requires forall i :: 0 <= i < k ==> CallMade(d, vs, write, off, size, ws[1..], r, i)
    requires (k == 0 ==> r.code == VMM_OK) && r.windows[k..] == ws[1..][k..]
    ensures var r' := Outcome(r.world, r.code, [first] + r.windows);
            && (forall i :: 0 <= i < k + 1 ==> CallMade(d, [w] + vs, write, off, size, ws, r', i))
            && r'.windows[k + 1..] == ws[k + 1..]
  {
    hide Call;
    var worlds, out := [w] + vs, [first] + r.windows;
    forall i | 0 <= i < k + 1 ensures CallMade(d, worlds, write, off, size, ws, Outcome(r.world, r.code, out), i) {
      if i > 0 {
        assert CallMade(d, vs, write, off, size, ws[1..], r, i - 1);
        assert worlds[i] == vs[i - 1] && worlds[i + 1] == vs[i];
        assert out[i] == r.windows[i - 1] && ws[i] == ws[1..][i - 1];
      }
    }
    assert out[k + 1..] == r.windows[k..];
    assert ws[1..][k..] == ws[k + 1..];
  }
}
