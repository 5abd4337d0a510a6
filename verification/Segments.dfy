/** GDT, segment caches and long-mode entry (src/boot/gdt_pgtable.c). */
module Segments {
  import opened Bytes
  import opened GuestRam
  import opened PageTables

  const DESC_CODE64: nat := 0x00AF9B000000FFFF
  const DESC_DATA64: nat := 0x00CF93000000FFFF

  /** `struct kvm_segment`; `limit` is the effective, granularity-scaled limit. */
  datatype Segment = Segment(base: nat, limit: nat, selector: nat, typ: nat, s: nat, dpl: nat,
                             present: nat, avl: nat, l: nat, db: nat, g: nat)

  /** `(d >> lo) & (2^width - 1)` with the powers written out. */
  function Field(d: nat, low: nat, size: nat): nat
    requires low > 0 && size > 0
  {
    d / low % size
  }

  function RawLimit(d: nat): nat {
    d % 0x10000 + Field(d, 0x1_0000_0000_0000, 0x10) * 0x10000
  }

  /** `seg_from_desc`. */
  function SegFromDesc(d: nat, sel: nat): (s: Segment)
    ensures s.selector == sel
  {
    var g := Field(d, 0x80_0000_0000_0000, 2);
    Segment(Field(d, 0x10000, 0x100_0000) + Field(d, 0x100_0000_0000_0000, 0x100) * 0x100_0000,
            if g == 1 then RawLimit(d) * 0x1000 + 0xFFF else RawLimit(d),
            sel,
            Field(d, 0x100_0000_0000, 0x10),
            Field(d, 0x1000_0000_0000, 2),
            Field(d, 0x2000_0000_0000, 4),
            Field(d, 0x8000_0000_0000, 2),
            Field(d, 0x10_0000_0000_0000, 2),
            Field(d, 0x20_0000_0000_0000, 2),
            Field(d, 0x40_0000_0000_0000, 2),
            g)
  }

  /** The descriptor a segment came from. */
  function DescFromSeg(s: Segment): nat {
    var raw := if s.g == 1 then s.limit / 0x1000 else s.limit;
    raw % 0x10000
    + s.base % 0x100_0000 * 0x10000
    + s.typ * 0x100_0000_0000
    + s.s * 0x1000_0000_0000
    + s.dpl * 0x2000_0000_0000
    + s.present * 0x8000_0000_0000
    + raw / 0x10000 * 0x1_0000_0000_0000
    + s.avl * 0x10_0000_0000_0000
    + s.l * 0x20_0000_0000_0000
    + s.db * 0x40_0000_0000_0000
    + s.g * 0x80_0000_0000_0000
    + s.base / 0x100_0000 * 0x100_0000_0000_0000
  }

  /** `seg_from_desc` loses no bit of any 64-bit descriptor. */
  lemma SegmentRoundTrip(d: nat, sel: nat)
    requires d < TWO64
    ensures DescFromSeg(SegFromDesc(d, sel)) == d
  {
    LimitRoundTrip(d, sel);
    BaseRoundTrip(d, sel);
    SplitDescriptor(d);
  }

  lemma BaseRoundTrip(d: nat, sel: nat)
    ensures SegFromDesc(d, sel).base % 0x100_0000 == d / 0x10000 % 0x100_0000
    ensures SegFromDesc(d, sel).base / 0x100_0000 == d / 0x100_0000_0000_0000 % 0x100
  {
  }

  lemma LimitRoundTrip(d: nat, sel: nat)
    ensures var s := SegFromDesc(d, sel);
            (if s.g == 1 then s.limit / 0x1000 else s.limit) == RawLimit(d)
    ensures RawLimit(d) % 0x10000 == d % 0x10000
    ensures RawLimit(d) / 0x10000 == d / 0x1_0000_0000_0000 % 0x10
  {
  }

  lemma SplitDescriptor(d: nat)
    requires d < TWO64
    ensures d == d % 0x10000 + d / 0x10000 % 0x100_0000 * 0x10000
                 + d / 0x100_0000_0000 % 0x10 * 0x100_0000_0000
                 + d / 0x1000_0000_0000 % 2 * 0x1000_0000_0000
                 + d / 0x2000_0000_0000 % 4 * 0x2000_0000_0000
                 + d / 0x8000_0000_0000 % 2 * 0x8000_0000_0000
                 + d / 0x1_0000_0000_0000 % 0x10 * 0x1_0000_0000_0000
                 + d / 0x10_0000_0000_0000 % 2 * 0x10_0000_0000_0000
                 + d / 0x20_0000_0000_0000 % 2 * 0x20_0000_0000_0000
                 + d / 0x40_0000_0000_0000 % 2 * 0x40_0000_0000_0000
                 + d / 0x80_0000_0000_0000 % 2 * 0x80_0000_0000_0000
                 + d / 0x100_0000_0000_0000 % 0x100 * 0x100_0000_0000_0000
  {
    var low := d % 0x100_0000_0000;       // limit 15:0 and base 23:0
    var mid := d / 0x100_0000_0000;       // the upper 24 bits
    SplitLower(d);
    ShiftsLow(d);
    ShiftsMiddle(d);
    ShiftsHigh(d);
    SplitUpper(mid);
    assert d == low + mid * 0x100_0000_0000;
  }

  lemma SplitLower(d: nat)
    ensures d % 0x100_0000_0000 == d % 0x10000 + d / 0x10000 % 0x100_0000 * 0x10000
  {
  }

  lemma ShiftsLow(d: nat)
    ensures var mid := d / 0x100_0000_0000;
            && d / 0x1000_0000_0000 == mid / 0x10 && d / 0x2000_0000_0000 == mid / 0x20
            && d / 0x8000_0000_0000 == mid / 0x80
  {
  }

  lemma ShiftsMiddle(d: nat)
    ensures var mid := d / 0x100_0000_0000;
            && d / 0x1_0000_0000_0000 == mid / 0x100 && d / 0x10_0000_0000_0000 == mid / 0x1000
            && d / 0x20_0000_0000_0000 == mid / 0x2000
  {
  }

  lemma ShiftsHigh(d: nat)
    ensures var mid := d / 0x100_0000_0000;
            && d / 0x40_0000_0000_0000 == mid / 0x4000 && d / 0x80_0000_0000_0000 == mid / 0x8000
            && d / 0x100_0000_0000_0000 == mid / 0x10000
  {
  }

  lemma SplitUpper(mid: nat)
    requires mid < 0x100_0000
    ensures mid == mid % 0x10 + mid / 0x10 % 2 * 0x10 + mid / 0x20 % 4 * 0x20 + mid / 0x80 % 2 * 0x80
                   + mid / 0x100 % 0x10 * 0x100 + mid / 0x1000 % 2 * 0x1000 + mid / 0x2000 % 2 * 0x2000
                   + mid / 0x4000 % 2 * 0x4000 + mid / 0x8000 % 2 * 0x8000 + mid / 0x10000 % 0x100 * 0x10000
  {
    var q1 := mid / 0x10;
    var q2 := q1 / 2;
    var q3 := q2 / 4;
    var q4 := q3 / 2;
    var q5 := q4 / 0x10;
    assert q2 == mid / 0x20 && q3 == mid / 0x80;
    assert q4 == mid / 0x100 && q5 == mid / 0x1000;
    assert mid == mid % 0x10 + q1 % 2 * 0x10 + q2 % 4 * 0x20 + q3 % 2 * 0x80 + q4 % 0x10 * 0x100 + q5 * 0x1000;
    SplitMid(mid);
  }

  lemma SplitMid(mid: nat)
    requires mid < 0x100_0000
    ensures mid / 0x1000 * 0x1000 == mid / 0x1000 % 2 * 0x1000 + mid / 0x2000 % 2 * 0x2000 + mid / 0x4000 % 2 * 0x4000
                                     + mid / 0x8000 % 2 * 0x8000 + mid / 0x10000 % 0x100 * 0x10000
  {
    var q5 := mid / 0x1000;
    var q6 := q5 / 2;
    var q7 := q6 / 2;
    var q8 := q7 / 2;
    assert q6 == mid / 0x2000 && q7 == mid / 0x4000;
    assert q8 == mid / 0x8000 && q8 / 2 == mid / 0x10000;
    assert q5 == q5 % 2 + q6 % 2 * 2 + q7 % 2 * 4 + q8 % 2 * 8 + q8 / 2 * 16;
  }

  /* ---------------------------------------------------------------- */
  /* Long mode                                                         */
  /* ---------------------------------------------------------------- */

  function Quads(vs: seq<nat>): (r: seq<byte>)
    ensures |r| == 8 * |vs|
  {
    if vs == [] then [] else Le(vs[0], 8) + Quads(vs[1..])
  }

  lemma {:induction false} QuadAt(vs: seq<nat>, k: nat)
    requires k < |vs|
    ensures Quads(vs)[8 * k..8 * k + 8] == Le(vs[k], 8)
  {
    hide Le;
    if k == 0 {
      assert Quads(vs)[0..8] == Le(vs[0], 8);
    } else {
      QuadAt(vs[1..], k - 1);
      Behind(Le(vs[0], 8), Quads(vs[1..]), 8 * (k - 1));
    }
  }

  lemma Behind(a: seq<byte>, b: seq<byte>, i: nat)
    requires |a| == 8 && i + 8 <= |b|
    ensures (a + b)[8 + i..8 + i + 8] == b[i..i + 8]
  {
  }

  /** The part of sregs and regs that `setup_long_mode_common` sets. */
  datatype CpuState = CpuState(cr0: nat, cr3: nat, cr4: nat, efer: nat, gdtBase: nat, gdtLimit: nat,
                               cs: Segment, data: Segment, rip: nat, rflags: nat, rsp: nat, rsi: nat)

  /** `setup_long_mode_common`, past the KVM calls. */
  function LongMode(l: Layout, entry: nat, selCode: nat, selData: nat, gdtLimit: nat, rsi: nat): CpuState {
    CpuState(0x8005_0033, l.pml4, 0x20, 0x500, l.gdt, gdtLimit,
             SegFromDesc(DESC_CODE64, selCode), SegFromDesc(DESC_DATA64, selData), entry, 2, 0x20_0000, rsi)
  }

  /** What the CPU finds when it reloads a cached segment: the eight descriptor bytes at
      GDTR.base + selector, inside GDTR.limit, decode to the cached value. */
  ghost predicate CacheAgrees(m: seq<byte>, c: CpuState, seg: Segment) {
    && seg.selector % 8 == 0 && seg.selector + 7 <= c.gdtLimit
    && c.gdtBase + seg.selector + 8 <= |m|
    && SegFromDesc(Load(m, c.gdtBase + seg.selector, 8), seg.selector) == seg
  }

  const STEP1_GDT: seq<nat> := [0, DESC_CODE64, DESC_DATA64, 0]
  const LINUX_GDT: seq<nat> := [0, 0, DESC_CODE64, DESC_DATA64]

  lemma GdtEntry(m: seq<byte>, gdt: nat, table: seq<nat>, k: nat)
    requires gdt + 8 * |table| <= |m| && k < |table| && table[k] < TWO64
    requires m[gdt..gdt + 8 * |table|] == Quads(table)
    ensures Load(m, gdt + 8 * k, 8) == table[k]
  {
    hide Le, FromLe, Quads;
    var b := 8 * k;
    QuadAt(table, k);
    SubSlice(m, gdt, 8 * |table|, b, 8);
    assert m[gdt + b..gdt + b + 8] == Le(table[k], 8);
    PowerValues();
    FromLeOfLe(table[k], 8);
  }

  /** `boot_build_gdt`. */
  method BuildGdt(ram: Ram, l: Layout) returns (ok: bool)
    requires ram.Valid()
    modifies ram, ram.data
    ensures ram.Valid() && ok == ram.Has(l.gdt, 32)
    ensures ram.mem == if ok then Put(old(ram.mem), l.gdt, Quads(STEP1_GDT)) else old(ram.mem)
  {
    if !ram.Has(l.gdt, 32) {
      return false;
    }
    ram.Copy(l.gdt, Quads(STEP1_GDT));
    ok := true;
  }

  /** `boot_setup_linux64`: writes the [null, null, code, data] table and fills the vCPU.
      `kvm` is whether the KVM register calls succeed. */
  method SetupLinux64(ram: Ram, l: Layout, entry: nat, bootParams: nat, kvm: bool) returns (ok: bool, c: CpuState)
    requires ram.Valid()
    modifies ram, ram.data
    ensures ram.Valid() && ok == (ram.Has(l.gdt, 32) && kvm)
    ensures ram.mem == if ram.Has(l.gdt, 32) then Put(old(ram.mem), l.gdt, Quads(LINUX_GDT)) else old(ram.mem)
    ensures c == LongMode(l, entry, 0x10, 0x18, 31, bootParams)
    ensures ok ==> CacheAgrees(ram.mem, c, c.cs) && CacheAgrees(ram.mem, c, c.data)
  {
    hide SegFromDesc, Quads, Load;
    c := LongMode(l, entry, 0x10, 0x18, 31, bootParams);
    if !ram.Has(l.gdt, 32) {
      return false, c;
    }
    ram.Copy(l.gdt, Quads(LINUX_GDT));
    GdtEntry(ram.mem, l.gdt, LINUX_GDT, 2);
    GdtEntry(ram.mem, l.gdt, LINUX_GDT, 3);
    ok := kvm;
  }

  /** In both long-mode paths the cached segments agree with the GDT in memory. */
  lemma CachesAgree(m: seq<byte>, l: Layout, entry: nat, rsi: nat, linux: bool)
    requires l.gdt + 32 <= |m| && m[l.gdt..l.gdt + 32] == Quads(if linux then LINUX_GDT else STEP1_GDT)
    ensures var c := if linux then LongMode(l, entry, 0x10, 0x18, 31, rsi) else LongMode(l, entry, 0x08, 0x10, 31, rsi);
            CacheAgrees(m, c, c.cs) && CacheAgrees(m, c, c.data)
  {
    hide SegFromDesc, Quads, Load;
    if linux {
      GdtEntry(m, l.gdt, LINUX_GDT, 2);
      GdtEntry(m, l.gdt, LINUX_GDT, 3);
    } else {
      GdtEntry(m, l.gdt, STEP1_GDT, 1);
      GdtEntry(m, l.gdt, STEP1_GDT, 2);
    }
  }

  /** The cached code segment is a present 64-bit code segment (L = 1, D = 0), the data
      segment a present writable one, both flat over 4 GiB; and the control registers are
      the consistent long-mode set (PG and LME with PE, PAE and LMA). */
  lemma LongModeIsConsistent(l: Layout, entry: nat, selCode: nat, selData: nat, rsi: nat)
    ensures var c := LongMode(l, entry, selCode, selData, 31, rsi);
            && c.cs.l == 1 && c.cs.db == 0 && c.cs.present == 1 && c.cs.s == 1 && c.cs.typ == 0xB && c.cs.dpl == 0
            && c.data.l == 0 && c.data.present == 1 && c.data.s == 1 && c.data.typ == 3 && c.data.dpl == 0
            && c.cs.base == c.data.base == 0 && c.cs.limit == c.data.limit == 0xFFFF_FFFF
            && c.cr0 / 0x8000_0000 % 2 == 1 && c.cr0 % 2 == 1 && c.cr4 / 0x20 % 2 == 1
            && c.efer / 0x100 % 2 == 1 && c.efer / 0x400 % 2 == 1
  {
  }
}
