/** Rewriting the CPUID table to one socket of n cores (src/smp.c). */
module Cpuid {
  import opened Common

  type u32 = x: int | 0 <= x < 0x1_0000_0000

  const SPARE: nat := 8
  const TOPO_LEAF: u32 := 0xb
  const HTT: nat := 0x1000_0000
  const INDEXED: u32 := 1  // KVM_CPUID_FLAG_SIGNIFCANT_INDEX

  datatype Entry = Entry(fn: u32, index: u32, flags: u32, eax: u32, ebx: u32, ecx: u32, edx: u32)

  function Pow2(b: nat): (r: nat)
    ensures r >= 1
  {
    if b == 0 then 1 else 2 * Pow2(b - 1)
  }

  /** The number of bits that hold n values. */
  function Order(n: nat): (b: nat)
    ensures n <= Pow2(b) && (b > 0 ==> Pow2(b - 1) < n)
  {
    OrderFrom(n, 0)
  }

  function OrderFrom(n: nat, b: nat): (r: nat)
    requires b > 0 ==> Pow2(b - 1) < n
    ensures r >= b && n <= Pow2(r) && (r > 0 ==> Pow2(r - 1) < n)
    decreases n - Pow2(b)
  {
    if Pow2(b) >= n then b else OrderFrom(n, b + 1)
  }

  lemma {:induction false} PowGrows(a: nat, b: nat)
    requires a <= b
    ensures Pow2(a) <= Pow2(b)
    decreases b - a
  {
    if a < b {
      PowGrows(a, b - 1);
    }
  }

  /** `order_base2`: the loop finds the least b with 2^b >= n. */
  method OrderBase2(n: nat) returns (b: nat)
    requires n <= 0x8000_0000
    ensures n <= Pow2(b) && forall c: nat :: n <= Pow2(c) ==> b <= c
    ensures b == Order(n)
  {
    b := 0;
    while Pow2(b) < n
      invariant b > 0 ==> Pow2(b - 1) < n
      invariant b <= Order(n)
      decreases n - Pow2(b)
    {
      assert b != Order(n);
      b := b + 1;
    }
    Least(n, b);
    Least(n, Order(n));
  }

  /** A bound that fails one step earlier is the least one. */
  lemma Least(n: nat, b: nat)
    requires n <= Pow2(b) && (b > 0 ==> Pow2(b - 1) < n)
    ensures forall c: nat :: n <= Pow2(c) ==> b <= c
  {
    forall c: nat | c < b ensures Pow2(c) < n {
      PowGrows(c, b - 1);
    }
  }

  lemma SmallOrder(n: nat)
    requires n <= 256
    ensures Order(n) <= 8
  {
    Least(n, Order(n));
    assert Pow2(3) == 8 && Pow2(6) == 8 * Pow2(3) && Pow2(8) == 4 * Pow2(6);
  }

  /* ---------------------------------------------------------------- */
  /* One entry                                                         */
  /* ---------------------------------------------------------------- */

  function WithHtt(edx: u32, on: bool): u32 {
    var bit := edx / HTT % 2;
    if on && bit == 0 then edx + HTT else if !on && bit == 1 then edx - HTT else edx
  }

  function CoreCount(ecx: u32, n: nat): u32
    requires 1 <= n <= 255
  {
    SmallOrder(n);
    ecx / 0x10000 * 0x10000 + Order(n) * 0x1000 + ecx / 0x100 % 0x10 * 0x100 + (n - 1)
  }

  function CacheShare(eax: u32, n: nat): u32
    requires 1 <= n <= 255
  {
    var share := if eax / 0x20 % 8 >= 3 then n - 1 else 0;
    if eax % 0x20 != 0 then eax / 0x400_0000 * 0x400_0000 + share * 0x4000 + eax % 0x4000 else eax
  }

  /** The switch of `smp_fixup_cpuid`. */
  function Rewrite(e: Entry, id: nat, n: nat): Entry
    requires id < n <= 255
  {
    if e.fn == 1 then
      e.(ebx := e.ebx % 0x10000 + id * 0x100_0000 + n * 0x10000, edx := WithHtt(e.edx, n > 1))
    else if e.fn == 0x1f then e.(eax := 0, ebx := 0, ecx := 0, edx := 0)
    else if e.fn == 0x8000_0008 then e.(ecx := CoreCount(e.ecx, n))
    else if e.fn == 0x8000_001d then e.(eax := CacheShare(e.eax, n))
    else if e.fn == 0x8000_001e then e.(eax := id, ebx := id % 0x100, ecx := 0)
    else e
  }

  /** Subleaf `sub` of the extended topology leaf: SMT level, core level, end of list. */
  function TopoLeaf(sub: nat, id: nat, n: nat): (e: Entry)
    requires sub < 3 && id < n <= 255
    ensures e.fn == TOPO_LEAF && e.index == sub
  {
    SmallOrder(n);
    match sub
    case 0 => Entry(TOPO_LEAF, 0, INDEXED, 0, 1, 0x100, id)
    case 1 => Entry(TOPO_LEAF, 1, INDEXED, Order(n), n, 0x201, id)
    case _ => Entry(TOPO_LEAF, 2, INDEXED, 0, 0, 2, id)
  }

  /* ---------------------------------------------------------------- */
  /* The table                                                         */
  /* ---------------------------------------------------------------- */

  predicate Matches(e: Entry, fn: u32, index: u32) {
    e.fn == fn && e.index == index
  }

  /** Index of the first entry for a leaf, or |es|. */
  function Find(es: seq<Entry>, fn: u32, index: u32): (i: nat)
    ensures i <= |es| && (i < |es| ==> Matches(es[i], fn, index))
    ensures forall j :: 0 <= j < i ==> !Matches(es[j], fn, index)
  {
    if es == [] || Matches(es[0], fn, index) then 0 else 1 + Find(es[1..], fn, index)
  }

  /** Overwrites the first entry for the leaf of `e`, or appends `e`. */
  function SetLeaf(es: seq<Entry>, e: Entry): (r: seq<Entry>)
    ensures |es| <= |r| <= |es| + 1
  {
    var i := Find(es, e.fn, e.index);
    if i < |es| then es[i := e] else es + [e]
  }

  function RewriteAll(es: seq<Entry>, id: nat, n: nat): (r: seq<Entry>)
    requires id < n <= 255
    ensures |r| == |es| && forall i :: 0 <= i < |es| ==> r[i] == Rewrite(es[i], id, n)
  {
    seq(|es|, i requires 0 <= i < |es| => Rewrite(es[i], id, n))
  }

  function FillTopo(es: seq<Entry>, id: nat, n: nat): (r: seq<Entry>)
    requires id < n <= 255
    ensures |es| <= |r| <= |es| + 3
  {
    SetLeaf(SetLeaf(SetLeaf(es, TopoLeaf(0, id, n)), TopoLeaf(1, id, n)), TopoLeaf(2, id, n))
  }

  /** The table after `smp_fixup_cpuid` for vCPU `id` of `n`. */
  function Fixup(es: seq<Entry>, id: nat, n: nat): seq<Entry>
    requires id < n <= 255
  {
    FillTopo(RewriteAll(es, id, n), id, n)
  }

  class Table {
    const entries: array<Entry>
    var nent: nat

    ghost predicate Valid()
      reads this
    {
      nent <= entries.Length
    }

    ghost function Used(): (es: seq<Entry>)
      requires Valid()
      reads this, entries
      ensures |es| == nent
    {
      entries[..nent]
    }

    constructor (es: seq<Entry>)
      ensures Valid() && fresh(entries) && Used() == es && entries.Length == |es| + SPARE
    {
      entries := new Entry[|es| + SPARE](i requires i >= 0 => if i < |es| then es[i] else Entry(0, 0, 0, 0, 0, 0, 0));
      nent := |es|;
    }

    method FindEntry(fn: u32, index: u32) returns (i: nat)
      requires Valid()
      ensures i == Find(Used(), fn, index)
    {
      ghost var es := Used();
      i := 0;
      while i < nent && !Matches(entries[i], fn, index)
        invariant i <= nent && forall j :: 0 <= j < i ==> !Matches(es[j], fn, index)
      {
        i := i + 1;
      }
    }

    /** One round of `cpuid_fill_topology_leaf`. */
    method Set(e: Entry)
      requires Valid() && nent < entries.Length
      modifies this`nent, entries
      ensures Valid() && Used() == SetLeaf(old(Used()), e)
    {
      var i := FindEntry(e.fn, e.index);
      ghost var es := Used();
      if i == nent {
        nent := nent + 1;
      }
      entries[i] := e;
      assert Used() == if i < |es| then es[i := e] else es + [e];
    }

    /** `cpuid_fill_topology_leaf`. */
    method Fill(id: nat, n: nat)
      requires Valid() && id < n <= 255 && nent + 3 <= entries.Length
      modifies this`nent, entries
      ensures Valid() && Used() == FillTopo(old(Used()), id, n)
    {
      hide SetLeaf, TopoLeaf;
      ghost var es := Used();
      var sub := 0;
      while sub < 3
        invariant sub <= 3 && Valid() && |es| <= nent <= |es| + sub
        invariant sub == 0 ==> Used() == es
        invariant sub == 1 ==> Used() == SetLeaf(es, TopoLeaf(0, id, n))
        invariant sub == 2 ==> Used() == SetLeaf(SetLeaf(es, TopoLeaf(0, id, n)), TopoLeaf(1, id, n))
        invariant sub == 3 ==> Used() == FillTopo(es, id, n)
      {
        Set(TopoLeaf(sub, id, n));
        sub := sub + 1;
      }
    }

    /** `smp_fixup_cpuid`: in place, with the topology subleaves appended into spare room. */
    method FixupInPlace(id: nat, n: nat)
      requires Valid() && id < n <= 255 && nent + SPARE <= entries.Length
      modifies this`nent, entries
      ensures Valid() && Used() == Fixup(old(Used()), id, n)
    {
      hide Rewrite, FillTopo;
      ghost var es := Used();
      var i := 0;
      while i < nent
        invariant i <= nent == |es|
        invariant forall j :: 0 <= j < nent ==> entries[j] == if j < i then Rewrite(es[j], id, n) else es[j]
      {
        entries[i] := Rewrite(entries[i], id, n);
        i := i + 1;
      }
      assert Used() == RewriteAll(es, id, n);
      Fill(id, n);
    }
  }

  /* ---------------------------------------------------------------- */
  /* Idempotence                                                       */
  /* ---------------------------------------------------------------- */

  lemma CoreCountTwice(ecx: u32, n: nat)
    requires 1 <= n <= 255
    ensures CoreCount(CoreCount(ecx, n), n) == CoreCount(ecx, n)
    ensures CoreCount(ecx, n) % 0x100 == n - 1 && CoreCount(ecx, n) / 0x1000 % 0x10 == Order(n)
    ensures CoreCount(ecx, n) / 0x10000 == ecx / 0x10000 && CoreCount(ecx, n) / 0x100 % 0x10 == ecx / 0x100 % 0x10
  {
    SmallOrder(n);
    hide Order;
    FourFields(ecx / 0x10000, Order(n), ecx / 0x100 % 0x10, n - 1);
  }

  lemma FourFields(h: nat, o: nat, m: nat, c: nat)
    requires o < 0x10 && m < 0x10 && c < 0x100
    ensures var r := h * 0x10000 + o * 0x1000 + m * 0x100 + c;
            r / 0x10000 == h && r / 0x1000 % 0x10 == o && r / 0x100 % 0x10 == m && r % 0x100 == c
  {
    var r := h * 0x10000 + o * 0x1000 + m * 0x100 + c;
    assert r / 0x100 == h * 0x100 + o * 0x10 + m && r % 0x100 == c;
    assert r / 0x1000 == h * 0x10 + o && r / 0x10000 == h;
    LowDigit(h, o);
    LowDigit(h * 0x10 + o, m);
  }

  lemma LowDigit(high: nat, low: nat)
    requires low < 0x10
    ensures (high * 0x10 + low) % 0x10 == low
  {
  }

  lemma CacheShareTwice(eax: u32, n: nat)
    requires 1 <= n <= 255
    ensures CacheShare(CacheShare(eax, n), n) == CacheShare(eax, n)
    ensures CacheShare(eax, n) % 0x4000 == eax % 0x4000 && CacheShare(eax, n) / 0x400_0000 == eax / 0x400_0000
    ensures eax % 0x20 != 0 ==> CacheShare(eax, n) / 0x4000 % 0x1000 == (if eax / 0x20 % 8 >= 3 then n - 1 else 0)
  {
    var h, l := eax / 0x400_0000, eax % 0x4000;
    var share := if eax / 0x20 % 8 >= 3 then n - 1 else 0;
    var r := h * 0x400_0000 + share * 0x4000 + l;
    assert r / 0x400_0000 == h && r % 0x4000 == l && r / 0x4000 == h * 0x1000 + share;
    LowFields(eax);
    LowFields(r);
  }

  lemma LowFields(a: nat)
    ensures a % 0x20 == a % 0x4000 % 0x20 && a / 0x20 % 8 == a % 0x4000 / 0x20 % 8
  {
    var p, l := a / 0x4000, a % 0x4000;
    assert a == p * 0x4000 + l;
    assert a / 0x20 == p * 0x200 + l / 0x20;
    Multiple(p * 0x40, l / 0x20);
  }

  lemma Multiple(q: nat, y: nat)
    ensures (8 * q + y) % 8 == y % 8
  {
  }

  lemma Leaf1Twice(ebx: u32, edx: u32, id: nat, n: nat)
    requires id < n <= 255
    ensures var b := ebx % 0x10000 + id * 0x100_0000 + n * 0x10000;
            b % 0x10000 == ebx % 0x10000 && b / 0x10000 % 0x100 == n && b / 0x100_0000 == id
    ensures WithHtt(WithHtt(edx, n > 1), n > 1) == WithHtt(edx, n > 1)
    ensures (WithHtt(edx, n > 1) / HTT % 2 == 1) == (n > 1)
    ensures WithHtt(edx, n > 1) % HTT == edx % HTT && WithHtt(edx, n > 1) / (2 * HTT) == edx / (2 * HTT)
  {
    var b := ebx % 0x10000 + id * 0x100_0000 + n * 0x10000;
    assert b / 0x10000 == id * 0x100 + n;
    HttBit(edx);
  }

  lemma HttBit(edx: u32)
    ensures edx / HTT % 2 == 0 ==> (edx + HTT) / HTT % 2 == 1
    ensures edx / HTT % 2 == 1 ==> edx >= HTT && (edx - HTT) / HTT % 2 == 0
  {
  }

  lemma RewriteTwice(e: Entry, id: nat, n: nat)
    requires id < n <= 255
    ensures Rewrite(Rewrite(e, id, n), id, n) == Rewrite(e, id, n)
  {
    CoreCountTwice(e.ecx, n);
    CacheShareTwice(e.eax, n);
    Leaf1Twice(e.ebx, e.edx, id, n);
    hide CoreCount, CacheShare, WithHtt;
  }

  /** The leaf is in the table, as the first entry that answers for it. */
  predicate Has(es: seq<Entry>, e: Entry) {
    var i := Find(es, e.fn, e.index); i < |es| && es[i] == e
  }

  lemma FindIs(es: seq<Entry>, fn: u32, index: u32, i: nat)
    requires i < |es| && Matches(es[i], fn, index) && forall j :: 0 <= j < i ==> !Matches(es[j], fn, index)
    ensures Find(es, fn, index) == i
  {
    var f := Find(es, fn, index);
    assert f < |es| ==> Matches(es[f], fn, index);
  }

  lemma SetLeafHas(es: seq<Entry>, e: Entry)
    ensures Has(SetLeaf(es, e), e)
  {
    FindIs(SetLeaf(es, e), e.fn, e.index, Find(es, e.fn, e.index));
  }

  lemma SetLeafKeeps(es: seq<Entry>, e: Entry, x: Entry)
    requires Has(es, x) && (x.fn != e.fn || x.index != e.index)
    ensures Has(SetLeaf(es, e), x)
  {
    FindIs(SetLeaf(es, e), x.fn, x.index, Find(es, x.fn, x.index));
  }

  lemma FillTopoHas(es: seq<Entry>, id: nat, n: nat)
    requires id < n <= 255
    ensures var r := FillTopo(es, id, n);
            Has(r, TopoLeaf(0, id, n)) && Has(r, TopoLeaf(1, id, n)) && Has(r, TopoLeaf(2, id, n))
  {
    var a, b, c := TopoLeaf(0, id, n), TopoLeaf(1, id, n), TopoLeaf(2, id, n);
    hide Has, SetLeaf;
    var s1 := SetLeaf(es, a);
    var s2 := SetLeaf(s1, b);
    SetLeafHas(es, a);
    SetLeafKeeps(s1, b, a);
    SetLeafKeeps(s2, c, a);
    SetLeafHas(s1, b);
    SetLeafKeeps(s2, c, b);
    SetLeafHas(s2, c);
  }

  lemma SetSame(es: seq<Entry>, e: Entry)
    requires Has(es, e)
    ensures SetLeaf(es, e) == es
  {
  }

  /** Entries that filling in the topology leaves alone. */
  predicate Settled(e: Entry, id: nat, n: nat)
    requires id < n <= 255
  {
    Rewrite(e, id, n) == e
  }

  lemma SetLeafSettled(es: seq<Entry>, e: Entry, id: nat, n: nat)
    requires id < n <= 255 && e.fn == TOPO_LEAF && forall x :: x in es ==> Settled(x, id, n)
    ensures forall x :: x in SetLeaf(es, e) ==> Settled(x, id, n)
  {
    assert Settled(e, id, n);
    hide Settled;
  }

  /** `smp_fixup_cpuid` is idempotent on every table. */
  lemma FixupTwice(es: seq<Entry>, id: nat, n: nat)
    requires id < n <= 255
    ensures Fixup(Fixup(es, id, n), id, n) == Fixup(es, id, n)
  {
    var m := RewriteAll(es, id, n);
    forall i | 0 <= i < |m| ensures Settled(m[i], id, n) {
      RewriteTwice(es[i], id, n);
    }
    var a, b, c := TopoLeaf(0, id, n), TopoLeaf(1, id, n), TopoLeaf(2, id, n);
    SetLeafSettled(m, a, id, n);
    SetLeafSettled(SetLeaf(m, a), b, id, n);
    SetLeafSettled(SetLeaf(SetLeaf(m, a), b), c, id, n);
    var r := Fixup(es, id, n);
    assert forall i :: 0 <= i < |r| ==> r[i] in r && Settled(r[i], id, n);
    hide Rewrite, TopoLeaf, SetLeaf, Has;
    assert RewriteAll(r, id, n) == r;
    FillTopoHas(m, id, n);
    SetSame(r, a);
    SetSame(r, b);
    SetSame(r, c);
  }

  /* ---------------------------------------------------------------- */
  /* What changes                                                      */
  /* ---------------------------------------------------------------- */

  predicate Touched(e: Entry) {
    e.fn == 1 || e.fn == 0x1f || e.fn == 0x8000_0008 || e.fn == 0x8000_001d || e.fn == 0x8000_001e
    || (e.fn == TOPO_LEAF && e.index < 3)
  }

  lemma SetLeafPrefix(es: seq<Entry>, e: Entry, i: nat)
    requires i < |es|
    ensures SetLeaf(es, e)[i].fn == es[i].fn && SetLeaf(es, e)[i].index == es[i].index
    ensures !Matches(es[i], e.fn, e.index) ==> SetLeaf(es, e)[i] == es[i]
  {
  }

  /** Unrelated leaves stay where they are and as they are, every entry keeps its leaf and
      place, and at most three entries are added. */
  lemma OthersUntouched(es: seq<Entry>, id: nat, n: nat, i: nat)
    requires id < n <= 255 && i < |es|
    ensures var r := Fixup(es, id, n);
            && |es| <= |r| <= |es| + 3 && r[i].fn == es[i].fn && r[i].index == es[i].index
            && (!Touched(es[i]) ==> r[i] == es[i])
            && (es[i].fn != TOPO_LEAF ==> r[i] == Rewrite(es[i], id, n))
  {
    var m := RewriteAll(es, id, n);
    var s1 := SetLeaf(m, TopoLeaf(0, id, n));
    var s2 := SetLeaf(s1, TopoLeaf(1, id, n));
    var x := m[i];
    assert x.fn == es[i].fn && x.index == es[i].index;
    assert !Touched(es[i]) ==> x == es[i];
    hide Rewrite, SetLeaf, TopoLeaf;
    SetLeafPrefix(m, TopoLeaf(0, id, n), i);
    SetLeafPrefix(s1, TopoLeaf(1, id, n), i);
    SetLeafPrefix(s2, TopoLeaf(2, id, n), i);
  }

  /* ---------------------------------------------------------------- */
  /* What a guest makes of it                                          */
  /* ---------------------------------------------------------------- */

  datatype Place = Place(package: nat, core: nat, cores: nat, threads: nat)

  /** `x` shifted right by k bits, and its low k bits. */
  function Shifted(x: nat, k: nat): nat {
    if k == 0 then x else Shifted(x / 2, k - 1)
  }

  function LowBits(x: nat, k: nat): nat {
    if k == 0 then 0 else x % 2 + 2 * LowBits(x / 2, k - 1)
  }

  lemma {:induction false} Fits(x: nat, k: nat)
    requires x < Pow2(k)
    ensures Shifted(x, k) == 0 && LowBits(x, k) == x
  {
    if k > 0 {
      Fits(x / 2, k - 1);
    }
  }

  /** The extended topology leaf, read the way the Intel SDM prescribes: EAX[4:0] is how far
      to shift the APIC id (EDX) to reach the next level, EBX[15:0] the processors at it. */
  function FromTopoLeaf(smt: Entry, core: Entry): Option<Place> {
    if smt.ebx % 0x10000 == 0 || smt.ecx / 0x100 % 0x100 != 1 || core.ecx / 0x100 % 0x100 != 2 then None
    else
      Some(Place(Shifted(core.edx, core.eax % 0x20), Shifted(LowBits(core.edx, core.eax % 0x20), smt.eax % 0x20),
                 core.ebx % 0x10000, smt.ebx % 0x10000))
  }

  /** The AMD leaves: core count and APIC id size from 0x80000008, the rest from 0x8000001E. */
  function FromAmdLeaves(size: Entry, ids: Entry): Place {
    Place(Shifted(ids.eax, size.ecx / 0x1000 % 0x10), ids.ebx % 0x100,
          size.ecx % 0x100 + 1, ids.ebx / 0x100 % 0x100 + 1)
  }

  lemma TopoLeafReads(id: nat, n: nat)
    requires id < n <= 255
    ensures FromTopoLeaf(TopoLeaf(0, id, n), TopoLeaf(1, id, n)) == Some(Place(0, id, n, 1))
    ensures TopoLeaf(2, id, n).ecx / 0x100 % 0x100 == 0
  {
    SmallOrder(n);
    assert Shifted(id, 0) == id;
    hide Order, Shifted, LowBits, Pow2, FromTopoLeaf;
    Fits(id, Order(n));
    TopoPlace(TopoLeaf(0, id, n), TopoLeaf(1, id, n), Order(n), id);
  }

  lemma TopoPlace(smt: Entry, core: Entry, shift: nat, id: nat)
    requires smt.eax == 0 && smt.ebx == 1 && smt.ecx == 0x100 && core.ecx == 0x201 && core.edx == id
    requires core.eax == shift < 0x20 && core.ebx < 0x10000
    requires Shifted(id, shift) == 0 && LowBits(id, shift) == id && Shifted(id, 0) == id
    ensures FromTopoLeaf(smt, core) == Some(Place(0, id, core.ebx, 1))
  {
    hide Shifted, LowBits;
  }

  lemma AmdLeavesRead(size: Entry, ids: Entry, id: nat, n: nat)
    requires id < n <= 255 && size.fn == 0x8000_0008 && ids.fn == 0x8000_001e
    ensures FromAmdLeaves(Rewrite(size, id, n), Rewrite(ids, id, n)) == Place(0, id, n, 1)
  {
    CoreCountTwice(size.ecx, n);
    AmdRewritten(size, ids, id, n);
    hide CoreCount, Order, Pow2, FromAmdLeaves, Rewrite;
    AmdPlace(Rewrite(size, id, n), Rewrite(ids, id, n), id, n);
  }

  lemma AmdRewritten(size: Entry, ids: Entry, id: nat, n: nat)
    requires id < n <= 255 && size.fn == 0x8000_0008 && ids.fn == 0x8000_001e
    ensures Rewrite(size, id, n).ecx == CoreCount(size.ecx, n)
    ensures Rewrite(ids, id, n).eax == Rewrite(ids, id, n).ebx == id
  {
    hide CoreCount, CacheShare, WithHtt;
  }

  lemma AmdPlace(size: Entry, ids: Entry, id: nat, n: nat)
    requires id < n <= 255 && size.ecx % 0x100 == n - 1 && size.ecx / 0x1000 % 0x10 == Order(n)
    requires ids.eax == ids.ebx == id
    ensures FromAmdLeaves(size, ids) == Place(0, id, n, 1)
  {
    Fits(id, Order(n));
    hide Order, Shifted, Pow2;
  }

  lemma BasicLeafReads(e: Entry, id: nat, n: nat)
    requires id < n <= 255 && e.fn == 1
    ensures var r := Rewrite(e, id, n);
            r.ebx / 0x100_0000 == id && r.ebx / 0x10000 % 0x100 == n && (r.edx / HTT % 2 == 1) == (n > 1)
  {
    Leaf1Twice(e.ebx, e.edx, id, n);
    hide WithHtt;
  }

  lemma TopoFound(es: seq<Entry>, id: nat, n: nat)
    requires id < n <= 255
    ensures var r := Fixup(es, id, n);
            && Find(r, TOPO_LEAF, 0) < |r| && r[Find(r, TOPO_LEAF, 0)] == TopoLeaf(0, id, n)
            && Find(r, TOPO_LEAF, 1) < |r| && r[Find(r, TOPO_LEAF, 1)] == TopoLeaf(1, id, n)
            && Find(r, TOPO_LEAF, 2) < |r| && r[Find(r, TOPO_LEAF, 2)] == TopoLeaf(2, id, n)
  {
    FillTopoHas(RewriteAll(es, id, n), id, n);
    hide FillTopo, RewriteAll, Find, Order;
  }

  /** Both enumerations and the initial APIC id agree: package 0, core = vCPU id, n cores of
      one thread.  `size`, `ids` and `basic` are where the leaves are in the old table. */
  lemma TopologiesAgree(es: seq<Entry>, id: nat, n: nat, size: nat, ids: nat, basic: nat)
    requires id < n <= 255 && size < |es| && ids < |es| && basic < |es|
    requires es[size].fn == 0x8000_0008 && es[ids].fn == 0x8000_001e && es[basic].fn == 1
    ensures var r := Fixup(es, id, n);
            && size < |r| && ids < |r| && basic < |r|
            && Find(r, TOPO_LEAF, 0) < |r| && Find(r, TOPO_LEAF, 1) < |r| && Find(r, TOPO_LEAF, 2) < |r|
            && FromTopoLeaf(r[Find(r, TOPO_LEAF, 0)], r[Find(r, TOPO_LEAF, 1)]) == Some(Place(0, id, n, 1))
            && r[Find(r, TOPO_LEAF, 2)].ecx / 0x100 % 0x100 == 0
            && FromAmdLeaves(r[size], r[ids]) == Place(0, id, n, 1)
            && r[basic].ebx / 0x100_0000 == id && r[basic].ebx / 0x10000 % 0x100 == n
            && (r[basic].edx / HTT % 2 == 1) == (n > 1)
  {
    OthersUntouched(es, id, n, size);
    OthersUntouched(es, id, n, ids);
    OthersUntouched(es, id, n, basic);
    TopoFound(es, id, n);
    TopoLeafReads(id, n);
    AmdLeavesRead(es[size], es[ids], id, n);
    BasicLeafReads(es[basic], id, n);
    hide Fixup, Rewrite, TopoLeaf, FromTopoLeaf, FromAmdLeaves, Find;
  }

  /** The cache leaf: level 3 is shared by all n vCPUs, the lower levels are private, and an
      end-of-list entry stays as it is. */
  lemma CachesShared(es: seq<Entry>, id: nat, n: nat, i: nat)
    requires id < n <= 255 && i < |es| && es[i].fn == 0x8000_001d
    ensures var r := Fixup(es, id, n);
            && i < |r|
            && (es[i].eax % 0x20 == 0 ==> r[i] == es[i])
            && (es[i].eax % 0x20 != 0 ==>
                  r[i].eax / 0x4000 % 0x1000 + 1 == if es[i].eax / 0x20 % 8 >= 3 then n else 1)
  {
    OthersUntouched(es, id, n, i);
    CacheShareTwice(es[i].eax, n);
    assert es[i].eax % 0x20 == 0 ==> CacheShare(es[i].eax, n) == es[i].eax;
    hide Fixup, CacheShare;
  }
}
