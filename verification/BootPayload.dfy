/** A raw payload in long mode (src/main.c): the overlap check, and everything `main` leaves in
    guest RAM before the vCPU runs. */
module BootPayload {
  import opened Bytes
  import opened GuestRam
  import opened PageTables
  import Segments

  /* ---------------------------------------------------------------- */
  /* The overlap check                                                 */
  /* ---------------------------------------------------------------- */

  function TableEnd(l: Layout): nat {
    (if l.gran.Page4K? then l.pt + Tables(l) * PAGE else l.pd + PAGE) % TWO64
  }

  /** `check_payload_overlap`: the end of the payload wraps at 2^64. */
  predicate PayloadOk(l: Layout, gpa: nat, len: nat) {
    len == 0 || !(gpa < TableEnd(l) && l.gdt < (gpa + len) % TWO64)
  }

  predicate Within(a: nat, lo: nat, hi: nat) {
    lo <= a < hi
  }

  /** For every payload `mem_load_file` has placed in RAM and every layout that validates, the
      check is exact: it passes iff the payload shares no address with [gdt, end of the tables). */
  lemma PayloadOkExact(size: nat, mapSize: nat, gran: Gran, gpa: nat, len: nat)
    requires gpa + len <= size < TWO64 && Validate(size, DefaultLayout(mapSize, gran)).Ok?
    ensures var l := DefaultLayout(mapSize, gran);
            PayloadOk(l, gpa, len) <==> forall a :: Within(a, gpa, gpa + len) ==> !Within(a, l.gdt, TableEnd(l))
  {
    OverlapExact(DefaultLayout(mapSize, gran), gpa, len);
  }

  lemma OverlapExact(l: Layout, gpa: nat, len: nat)
    requires gpa + len < TWO64 && l.gdt < TableEnd(l)
    ensures PayloadOk(l, gpa, len) <==> forall a :: Within(a, gpa, gpa + len) ==> !Within(a, l.gdt, TableEnd(l))
  {
    if len > 0 && gpa < TableEnd(l) && l.gdt < gpa + len {
      var a := if gpa < l.gdt then l.gdt else gpa;
      assert Within(a, gpa, gpa + len) && Within(a, l.gdt, TableEnd(l));
    }
  }

  /** The bound of `mem_load_file` is needed: a payload whose end wraps would pass although it
      covers the tables, but no RAM holds it, so it never reaches the check. */
  lemma PayloadWraps(size: nat)
    requires size < TWO64
    ensures PayloadOk(DefaultLayout(GIB, Page2M), 0x1000, TWO64 - 0x1000) && !InRam(size, 0x1000, TWO64 - 0x1000)
  {
  }

  /* ---------------------------------------------------------------- */
  /* Payload, tables and GDT in RAM                                    */
  /* ---------------------------------------------------------------- */

  ghost predicate GdtIn(m: seq<byte>, l: Layout) {
    l.gdt + 32 <= |m| && m[l.gdt..l.gdt + 32] == Segments.Quads(Segments.STEP1_GDT)
  }

  predicate InGdt(l: Layout, a: nat) {
    l.gdt <= a < l.gdt + 32
  }

  /** With the default addresses an accepted payload shares no byte with the tables or the GDT:
      neither disturbs the others, in whichever order they are written. */
  lemma PayloadAndTables(m: seq<byte>, gpa: nat, d: seq<byte>, mapSize: nat, gran: Gran)
    requires mapSize <= 512 * GIB && gpa + |d| <= |m| < TWO64
    requires PayloadOk(DefaultLayout(mapSize, gran), gpa, |d|)
    ensures var l := DefaultLayout(mapSize, gran);
            forall a: nat :: gpa <= a < gpa + |d| ==> !InTables(l, a) && !InGdt(l, a)
    ensures Built(m, DefaultLayout(mapSize, gran)) ==> Built(Put(m, gpa, d), DefaultLayout(mapSize, gran))
    ensures GdtIn(m, DefaultLayout(mapSize, gran)) ==> GdtIn(Put(m, gpa, d), DefaultLayout(mapSize, gran))
  {
    var l := DefaultLayout(mapSize, gran);
    AreaEnds(mapSize, gran);
    OverlapExact(l, gpa, |d|);
    hide PayloadOk, Segments.Quads, Built, InTables, InGdt, TableEnd, DefaultLayout;
    forall a: nat | gpa <= a < gpa + |d| ensures !InTables(l, a) && !InGdt(l, a) {
      assert Within(a, gpa, gpa + |d|);
      AreaCovers(mapSize, gran, a);
    }
    GdtBytes(l);
    if Built(m, l) {
      BuiltSame(m, Put(m, gpa, d), l);
    }
    if GdtIn(m, l) {
      SliceSame(m, Put(m, gpa, d), l.gdt, 32);
    }
  }

  lemma GdtBytes(l: Layout)
    ensures forall a :: l.gdt <= a < l.gdt + 32 ==> InGdt(l, a)
  {
  }

  lemma AreaEnds(mapSize: nat, gran: Gran)
    requires mapSize <= 512 * GIB
    ensures var l := DefaultLayout(mapSize, gran);
            TableEnd(l) == 0x5000 + (if gran.Page4K? then Tables(l) * PAGE else 0)
  {
  }

  /** The area the check protects holds the tables and the GDT. */
  lemma AreaCovers(mapSize: nat, gran: Gran, a: nat)
    requires mapSize <= 512 * GIB
    ensures var l := DefaultLayout(mapSize, gran);
            InTables(l, a) || InGdt(l, a) ==> Within(a, l.gdt, TableEnd(l))
  {
    AreaEnds(mapSize, gran);
    hide TableEnd;
  }

  lemma SliceSame(m: seq<byte>, m': seq<byte>, at: nat, n: nat)
    requires |m'| == |m| && at + n <= |m| && forall a :: at <= a < at + n ==> m'[a] == m[a]
    ensures m'[at..at + n] == m[at..at + n]
  {
  }

  /** Everything stands in RAM, and the rest is untouched. */
  ghost predicate Booted(d: seq<byte>, gpa: nat, l: Layout, before: seq<byte>, m: seq<byte>) {
    && |m| == |before| && gpa + |d| <= |m| && m[gpa..gpa + |d|] == d
    && Built(m, l) && GdtIn(m, l)
    && forall a :: 0 <= a < |m| && !(gpa <= a < gpa + |d|) && !InTables(l, a) && !InGdt(l, a) ==> m[a] == before[a]
  }

  /** The long-mode branch of `main` for a payload file of contents `d`: succeeds exactly when
      payload and tables fit into RAM without overlap and the map is at most 1 GiB; then
      payload, tables and GDT all stand in RAM and the registers agree with them. */
  method Boot(ram: Ram, d: seq<byte>, gpa: nat, mapSize: nat, gran: Gran, entry: nat, kvm: bool)
    returns (ok: bool, cpu: Segments.CpuState)
    requires ram.Valid() && ram.data.Length < TWO64
    modifies ram, ram.data
    ensures ram.Valid() && |ram.mem| == |old(ram.mem)|
    ensures ok <==> var l := DefaultLayout(mapSize, gran);
                    && InRam(ram.data.Length, gpa, |d|) && Validate(ram.data.Length, l).Ok?
                    && PayloadOk(l, gpa, |d|) && mapSize <= GIB && kvm
    ensures ok ==> Booted(d, gpa, DefaultLayout(mapSize, gran), old(ram.mem), ram.mem)
    ensures ok ==> Segments.CacheAgrees(ram.mem, cpu, cpu.cs) && Segments.CacheAgrees(ram.mem, cpu, cpu.data)
    ensures cpu == Segments.LongMode(DefaultLayout(mapSize, gran), entry, 0x08, 0x10, 31, 0)
  {
    hide Segments.Quads, Segments.SegFromDesc, Segments.CacheAgrees, Built, Load, PayloadOk, InTables;
    var l := DefaultLayout(mapSize, gran);
    cpu := Segments.LongMode(l, entry, 0x08, 0x10, 31, 0);
    if !ram.Has(gpa, |d|) {
      return false, cpu;
    }
    ram.Copy(gpa, d);
    ghost var m1 := ram.mem;
    DefaultLayoutFits(mapSize, gran, ram.data.Length);
    if !Validate(ram.data.Length, l).Ok? {
      return false, cpu;
    }
    if !PayloadOk(l, gpa, |d|) {
      return false, cpu;
    }
    PayloadAndTables(ram.mem, gpa, d, mapSize, gran);
    var r := BuildPageTable(ram, l);
    ghost var m2 := ram.mem;
    if !r.Ok? {
      return false, cpu;
    }
    ok := Segments.BuildGdt(ram, l);
    GdtApart(mapSize, gran);
    BuiltSame(m2, ram.mem, l);
    SliceSame(m1, ram.mem, gpa, |d|);
    Segments.CachesAgree(ram.mem, l, entry, 0, false);
    ok := kvm;
  }

  lemma GdtApart(mapSize: nat, gran: Gran)
    ensures forall a: nat :: InGdt(DefaultLayout(mapSize, gran), a) ==> !InTables(DefaultLayout(mapSize, gran), a)
  {
  }

  /** What the payload finds mapped: an address of any size translates to itself exactly when
      it is below the map size, and so the whole payload is mapped exactly when it ends there.
      Nothing in `main` checks that. */
  lemma PayloadMappedIff(d: seq<byte>, gpa: nat, mapSize: nat, gran: Gran, before: seq<byte>, m: seq<byte>)
    requires Booted(d, gpa, DefaultLayout(mapSize, gran), before, m) && d != []
    requires mapSize % LARGE == 0 && mapSize <= GIB
    ensures var l := DefaultLayout(mapSize, gran);
            && (forall a: nat :: MapsToItself(m, l.pml4, a) <==> a < mapSize)
            && ((forall a: nat :: gpa <= a < gpa + |d| ==> MapsToItself(m, l.pml4, a)) <==> gpa + |d| <= mapSize)
  {
    hide MapsToItself, Built;
    var l := DefaultLayout(mapSize, gran);
    DefaultLayoutFits(mapSize, gran, |m|);
    forall a: nat ensures MapsToItself(m, l.pml4, a) <==> a < mapSize {
      MappedBelowSize(m, l, a);
    }
    assert MapsToItself(m, l.pml4, gpa + |d| - 1) <==> gpa + |d| <= mapSize;
  }
}
