/** Identity-mapping page tables (src/boot/gdt_pgtable.c): the builder and the walker. */
module PageTables {
  import opened Bytes
  import opened GuestRam

  const PAGE: nat := 0x1000
  const LARGE: nat := 0x20_0000
  const GIB: nat := 0x4000_0000
  const ADDR_END: nat := 0x10_0000_0000_0000

  const PRESENT_RW: nat := 3
  const PAGE_SIZE_BIT: nat := 0x80

  datatype Gran = Page2M | Page4K

  datatype Layout = Layout(gdt: nat, pml4: nat, pdpt: nat, pd: nat, pt: nat, mapSize: nat, gran: Gran)

  datatype Status = Ok | Invalid | Unsupported

  /** `boot_layout_default`, with the granularity and map size its caller may override. */
  function DefaultLayout(mapSize: nat, gran: Gran): Layout {
    Layout(0x1000, 0x2000, 0x3000, 0x4000, 0x5000, mapSize, gran)
  }

  /** `x & PTE_ADDR_MASK`: bits 12 to 51. */
  function AddrBits(x: nat): nat {
    x % ADDR_END / PAGE * PAGE
  }

  function Tables(l: Layout): nat {
    l.mapSize / LARGE
  }

  /** `boot_layout_validate`.  Sums and differences wrap at 2^64 as in the source. */
  function Validate(size: nat, l: Layout): Status {
    if l.mapSize % LARGE != 0 then Invalid
    else if l.mapSize > 512 * GIB then Invalid
    else
      var top := (if l.gran.Page4K? then l.pt + Tables(l) * PAGE else l.pd + PAGE) % TWO64;
      if InRam(size, l.gdt, (top - l.gdt) % TWO64) then Ok else Invalid
  }

  /** What `boot_layout_validate` is documented to check but does not: page-aligned
      tables below 2^52 that do not overlap. */
  predicate WellPlaced(l: Layout) {
    && l.pml4 % PAGE == l.pdpt % PAGE == l.pd % PAGE == l.pt % PAGE == 0
    && l.pml4 < ADDR_END && l.pdpt < ADDR_END && l.pd < ADDR_END
    && Apart(l.pml4, l.pdpt, PAGE) && Apart(l.pml4, l.pd, PAGE) && Apart(l.pdpt, l.pd, PAGE)
    && (l.gran.Page4K? ==>
          && l.pt + Tables(l) * PAGE <= ADDR_END
          && Apart(l.pml4, l.pt, Tables(l) * PAGE) && Apart(l.pdpt, l.pt, Tables(l) * PAGE)
          && Apart(l.pd, l.pt, Tables(l) * PAGE))
  }

  /** The page at `page` does not meet [a, a + len). */
  predicate Apart(page: nat, a: nat, len: nat) {
    page + PAGE <= a || a + len <= page
  }

  predicate InPt(l: Layout, a: nat) {
    l.gran.Page4K? && l.pt <= a < l.pt + Tables(l) * PAGE
  }

  predicate InPage(page: nat, a: nat) {
    page <= a < page + PAGE
  }

  predicate InTables(l: Layout, a: nat) {
    InPage(l.pml4, a) || InPage(l.pdpt, a) || InPage(l.pd, a) || InPt(l, a)
  }

  /* ---------------------------------------------------------------- */
  /* Table pages                                                       */
  /* ---------------------------------------------------------------- */

  /** The 512 entries stored in the page at `page`. */
  function Entries(m: seq<byte>, page: nat): seq<nat>
    requires page + PAGE <= |m|
  {
    seq(512, k requires 0 <= k < 512 => Load(m, page + 8 * k, 8))
  }

  lemma EntryAt(m: seq<byte>, page: nat, k: nat)
    requires page + PAGE <= |m| && k < 512
    ensures |Entries(m, page)| == 512 && Entries(m, page)[k] == Load(m, page + 8 * k, 8)
  {
  }

  function Empty(): seq<nat> {
    seq(512, _ => 0)
  }

  /** A table whose first entry points to `target` and whose others are not present. */
  function Root(target: nat): seq<nat> {
    Empty()[0 := target + PRESENT_RW]
  }

  function PdEntry(l: Layout, k: nat): nat {
    if l.gran.Page2M? then k * LARGE + PRESENT_RW + PAGE_SIZE_BIT
    else l.pt + k * PAGE + PRESENT_RW
  }

  function PdFilled(l: Layout, n: nat): seq<nat> {
    seq(512, k requires 0 <= k => if k < n then PdEntry(l, k) else 0)
  }

  function PtEntry(i: nat, j: nat): nat {
    i * LARGE + j * PAGE + PRESENT_RW
  }

  function PtFilled(i: nat): (es: seq<nat>)
    ensures |es| == 512
  {
    seq(512, j requires 0 <= j => PtEntry(i, j))
  }

  predicate PtsFilled(m: seq<byte>, l: Layout, n: nat)
    requires l.pt + n * PAGE <= |m|
  {
    forall i :: 0 <= i < n ==> Entries(m, l.pt + i * PAGE) == PtFilled(i)
  }

  /** The bytes of `m` hold the tables of layout `l`. */
  predicate Built(m: seq<byte>, l: Layout) {
    && l.pml4 + PAGE <= |m| && Entries(m, l.pml4) == Root(l.pdpt)
    && l.pdpt + PAGE <= |m| && Entries(m, l.pdpt) == Root(l.pd)
    && l.pd + PAGE <= |m| && Entries(m, l.pd) == PdFilled(l, Tables(l))
    && (l.gran.Page4K? ==> l.pt + Tables(l) * PAGE <= |m| && PtsFilled(m, l, Tables(l)))
  }

  lemma EntriesSame(m: seq<byte>, m': seq<byte>, page: nat)
    requires page + PAGE <= |m| == |m'|
    requires forall a :: page <= a < page + PAGE ==> m'[a] == m[a]
    ensures Entries(m', page) == Entries(m, page)
  {
    forall k: nat | k < 512 ensures Load(m', page + 8 * k, 8) == Load(m, page + 8 * k, 8) {
      LoadSame(m, m', page + 8 * k, 8);
    }
  }

  /** Only the table bytes matter. */
  lemma BuiltSame(m: seq<byte>, m': seq<byte>, l: Layout)
    requires Built(m, l) && |m'| == |m|
    requires forall a :: 0 <= a < |m| && InTables(l, a) ==> m'[a] == m[a]
    ensures Built(m', l)
  {
    EntriesSame(m, m', l.pml4);
    EntriesSame(m, m', l.pdpt);
    EntriesSame(m, m', l.pd);
    if l.gran.Page4K? {
      forall i: nat | i < Tables(l) ensures Entries(m', l.pt + i * PAGE) == PtFilled(i) {
        EntriesSame(m, m', l.pt + i * PAGE);
      }
    }
  }

  lemma AddrBitsAligned(a: nat)
    requires a % PAGE == 0 && a < ADDR_END
    ensures AddrBits(a) == a
  {
  }

  /* ---------------------------------------------------------------- */
  /* Building                                                          */
  /* ---------------------------------------------------------------- */

  /** `table[k] = v`: one entry changes and nothing outside the page. */
  method StoreEntry(ram: Ram, page: nat, k: nat, v: nat)
    requires ram.Valid() && page + PAGE <= |ram.mem| && k < 512 && v < TWO64
    modifies ram, ram.data
    ensures ram.Valid() && SameOutside(old(ram.mem), ram.mem, page, page + PAGE)
    ensures |Entries(old(ram.mem), page)| == 512 && Entries(ram.mem, page) == Entries(old(ram.mem), page)[k := v]
  {
    ram.Store(page + 8 * k, v, 8);
    EntryStored(old(ram.mem), page, k, v);
    hide Load, Entries, Le;
  }

  lemma EntryStored(m: seq<byte>, page: nat, k: nat, v: nat)
    requires page + PAGE <= |m| && k < 512 && v < TWO64
    ensures |Entries(m, page)| == 512
    ensures Entries(Put(m, page + 8 * k, Le(v, 8)), page) == Entries(m, page)[k := v]
  {
    PowerValues();
    hide Load, Le;
    var m' := Put(m, page + 8 * k, Le(v, 8));
    LoadStored(m, page + 8 * k, v, 8);
    forall j: nat | j < 512 && j != k ensures Load(m', page + 8 * j, 8) == Load(m, page + 8 * j, 8) {
      LoadSame(m, m', page + 8 * j, 8);
    }
  }

  method ClearPage(ram: Ram, page: nat)
    requires ram.Valid() && page + PAGE <= |ram.mem|
    modifies ram, ram.data
    ensures ram.Valid() && SameOutside(old(ram.mem), ram.mem, page, page + PAGE)
    ensures Entries(ram.mem, page) == Empty()
  {
    ram.Clear(page, PAGE);
    forall k: nat | k < 512 ensures Load(ram.mem, page + 8 * k, 8) == 0 {
      LoadZero(ram.mem, page + 8 * k, 8);
    }
  }

  /** One small-page table: entry j maps 2 MiB * i + 4 KiB * j. */
  method FillPt(ram: Ram, page: nat, i: nat)
    requires ram.Valid() && page + PAGE <= |ram.mem| && i < 512
    modifies ram, ram.data
    ensures ram.Valid() && SameOutside(old(ram.mem), ram.mem, page, page + PAGE)
    ensures Entries(ram.mem, page) == PtFilled(i)
  {
    hide Load, Entries, AddrBits, PtFilled, PtEntry;
    EntryAt(ram.mem, page, 0);
    var j := 0;
    while j < 512
      invariant j <= 512 && ram.Valid() && SameOutside(old(ram.mem), ram.mem, page, page + PAGE)
      invariant |Entries(ram.mem, page)| == |PtFilled(i)| == 512 && Entries(ram.mem, page)[..j] == PtFilled(i)[..j]
    {
      PtEntryIs(i, j);
      PtFilledNext(Entries(ram.mem, page), i, j);
      StoreEntry(ram, page, j, AddrBits(i * LARGE + j * PAGE) + PRESENT_RW);
      j := j + 1;
    }
  }

  lemma PtEntryIs(i: nat, j: nat)
    requires i < 512 && j < 512
    ensures AddrBits(i * LARGE + j * PAGE) + PRESENT_RW == PtEntry(i, j) < TWO64
  {
    assert i * LARGE + j * PAGE == (i * 512 + j) * PAGE;
    AddrBitsAligned(i * LARGE + j * PAGE);
    hide AddrBits;
  }

  lemma PtFilledNext(was: seq<nat>, i: nat, j: nat)
    requires |was| == 512 && j < 512 && was[..j] == PtFilled(i)[..j]
    ensures was[j := PtEntry(i, j)][..j + 1] == PtFilled(i)[..j + 1]
  {
    hide PtEntry;
    assert was[j := PtEntry(i, j)][..j + 1] == was[..j] + [PtEntry(i, j)];
    assert PtFilled(i)[..j + 1] == PtFilled(i)[..j] + [PtEntry(i, j)];
  }

  method ClearTables(ram: Ram, l: Layout)
    requires ram.Valid() && ram.Has(l.pml4, PAGE) && ram.Has(l.pdpt, PAGE) && ram.Has(l.pd, PAGE)
    modifies ram, ram.data
    ensures ram.Valid() && OnlyTables(old(ram.mem), ram.mem, l)
    ensures WellPlaced(l) ==> Entries(ram.mem, l.pml4) == Empty() && Entries(ram.mem, l.pdpt) == Empty()
    ensures Entries(ram.mem, l.pd) == Empty()
  {
    ClearPage(ram, l.pml4);
    ghost var m1 := ram.mem;
    ClearPage(ram, l.pdpt);
    ghost var m2 := ram.mem;
    ClearPage(ram, l.pd);
    if WellPlaced(l) {
      EntriesSame(m1, m2, l.pml4);
      EntriesSame(m2, ram.mem, l.pml4);
      EntriesSame(m2, ram.mem, l.pdpt);
    }
  }

  ghost predicate OnlyTables(m: seq<byte>, m': seq<byte>, l: Layout) {
    |m'| == |m| && forall a :: 0 <= a < |m| && !InTables(l, a) ==> m'[a] == m[a]
  }

  /** The single entry of an upper-level table. */
  method StoreRoot(ram: Ram, page: nat, target: nat)
    requires ram.Valid() && page + PAGE <= |ram.mem|
    modifies ram, ram.data
    ensures ram.Valid() && SameOutside(old(ram.mem), ram.mem, page, page + PAGE)
    ensures Entries(old(ram.mem), page) == Empty() && target % PAGE == 0 && target < ADDR_END ==>
              Entries(ram.mem, page) == Root(target)
  {
    if target % PAGE == 0 && target < ADDR_END {
      AddrBitsAligned(target);
    }
    StoreEntry(ram, page, 0, AddrBits(target) + PRESENT_RW);
  }

  method StoreRoots(ram: Ram, l: Layout)
    requires ram.Valid() && ram.Has(l.pml4, PAGE) && ram.Has(l.pdpt, PAGE) && ram.Has(l.pd, PAGE)
    requires WellPlaced(l) ==> Entries(ram.mem, l.pml4) == Empty() && Entries(ram.mem, l.pdpt) == Empty()
    requires Entries(ram.mem, l.pd) == Empty()
    modifies ram, ram.data
    ensures ram.Valid() && OnlyTables(old(ram.mem), ram.mem, l)
    ensures WellPlaced(l) ==> Entries(ram.mem, l.pml4) == Root(l.pdpt) && Entries(ram.mem, l.pdpt) == Root(l.pd)
    ensures WellPlaced(l) ==> Entries(ram.mem, l.pd) == Empty()
  {
    ghost var m0 := ram.mem;
    StoreRoot(ram, l.pml4, l.pdpt);
    ghost var m1 := ram.mem;
    StoreRoot(ram, l.pdpt, l.pd);
    if WellPlaced(l) {
      EntriesSame(m0, m1, l.pdpt);
      EntriesSame(m1, ram.mem, l.pml4);
      EntriesSame(m0, ram.mem, l.pd);
    }
  }

  ghost predicate OnlyLower(m: seq<byte>, m': seq<byte>, l: Layout) {
    |m'| == |m| && forall a :: 0 <= a < |m| && !InPage(l.pd, a) && !InPt(l, a) ==> m'[a] == m[a]
  }

  lemma PdFilledNext(l: Layout, n: nat)
    requires n < 512
    ensures |PdFilled(l, n)| == 512 && PdFilled(l, n + 1) == PdFilled(l, n)[n := PdEntry(l, n)]
  {
  }

  /** Large pages: PDE i maps 2 MiB * i directly. */
  method FillPdLarge(ram: Ram, l: Layout)
    requires ram.Valid() && ram.Has(l.pd, PAGE) && Tables(l) <= 512 && l.gran.Page2M?
    modifies ram, ram.data
    ensures ram.Valid() && SameOutside(old(ram.mem), ram.mem, l.pd, l.pd + PAGE)
    ensures Entries(old(ram.mem), l.pd) == Empty() ==> Entries(ram.mem, l.pd) == PdFilled(l, Tables(l))
  {
    hide Load, Entries;
    assert PdFilled(l, 0) == Empty();
    var i := 0;
    while i < Tables(l)
      invariant i <= Tables(l) && ram.Valid() && SameOutside(old(ram.mem), ram.mem, l.pd, l.pd + PAGE)
      invariant Entries(old(ram.mem), l.pd) == Empty() ==> Entries(ram.mem, l.pd) == PdFilled(l, i)
    {
      AddrBitsAligned(i * LARGE);
      PdFilledNext(l, i);
      hide AddrBits, PdFilled;
      StoreEntry(ram, l.pd, i, AddrBits(i * LARGE) + PRESENT_RW + PAGE_SIZE_BIT);
      i := i + 1;
    }
  }

  method FillPdSlot(ram: Ram, l: Layout, i: nat)
    requires ram.Valid() && ram.Has(l.pd, PAGE) && i < Tables(l) <= 512 && l.gran.Page4K?
    requires ram.Has(l.pt + i * PAGE, PAGE)
    modifies ram, ram.data
    ensures ram.Valid() && OnlyLower(old(ram.mem), ram.mem, l)
    ensures WellPlaced(l) && Entries(old(ram.mem), l.pd) == PdFilled(l, i) ==>
              Entries(ram.mem, l.pd) == PdFilled(l, i + 1)
    ensures WellPlaced(l) && PtsFilled(old(ram.mem), l, i) ==> PtsFilled(ram.mem, l, i + 1)
  {
    hide Entries, PdFilled, PtFilled, PtsFilled;
    ghost var m0 := ram.mem;
    var page := l.pt + i * PAGE;
    AddressFits(page, |m0|);
    FillPt(ram, page, i);
    ghost var m1 := ram.mem;
    StoreEntry(ram, l.pd, i, AddrBits(page) + PRESENT_RW);
    SlotLower(m0, m1, ram.mem, l, i);
    if WellPlaced(l) {
      SlotFilled(m0, m1, ram.mem, l, i);
    }
  }

  lemma AddressFits(a: nat, size: nat)
    ensures AddrBits(a) + PRESENT_RW < TWO64
  {
  }

  /** A slot lies inside the area of the tables. */
  lemma SlotLower(m0: seq<byte>, m1: seq<byte>, m2: seq<byte>, l: Layout, i: nat)
    requires i < Tables(l) && l.gran.Page4K?
    requires SameOutside(m0, m1, l.pt + i * PAGE, l.pt + i * PAGE + PAGE) && SameOutside(m1, m2, l.pd, l.pd + PAGE)
    ensures OnlyLower(m0, m2, l)
  {
    assert (i + 1) * PAGE <= Tables(l) * PAGE;
    hide Tables;
  }

  lemma SlotFilled(m0: seq<byte>, m1: seq<byte>, m2: seq<byte>, l: Layout, i: nat)
    requires WellPlaced(l) && i < Tables(l) <= 512 && l.gran.Page4K?
    requires l.pd + PAGE <= |m0| && l.pt + i * PAGE + PAGE <= |m0|
    requires SameOutside(m0, m1, l.pt + i * PAGE, l.pt + i * PAGE + PAGE) && SameOutside(m1, m2, l.pd, l.pd + PAGE)
    requires Entries(m1, l.pt + i * PAGE) == PtFilled(i)
    requires |Entries(m1, l.pd)| == 512
    requires Entries(m2, l.pd) == Entries(m1, l.pd)[i := AddrBits(l.pt + i * PAGE) + PRESENT_RW]
    ensures Entries(m0, l.pd) == PdFilled(l, i) ==> Entries(m2, l.pd) == PdFilled(l, i + 1)
    ensures PtsFilled(m0, l, i) ==> PtsFilled(m2, l, i + 1)
  {
    hide Entries, PdFilled, PtFilled, AddrBits;
    var page := l.pt + i * PAGE;
    PtPage(l, i);
    AddrBitsAligned(page);
    PdFilledNext(l, i);
    EntriesSame(m0, m1, l.pd);
    EntriesSame(m1, m2, page);
    forall k | 0 <= k < i ensures Entries(m2, l.pt + k * PAGE) == Entries(m0, l.pt + k * PAGE) {
      EntriesSame(m0, m2, l.pt + k * PAGE);
    }
  }

  lemma PtPage(l: Layout, i: nat)
    requires WellPlaced(l) && i < Tables(l) && l.gran.Page4K?
    ensures (l.pt + i * PAGE) % PAGE == 0 && l.pt + i * PAGE < ADDR_END && Apart(l.pd, l.pt + i * PAGE, PAGE)
  {
  }

  /** Small pages: PDE i points to a table of its own at pt + 4 KiB * i. */
  method FillPdSmall(ram: Ram, l: Layout) returns (ok: bool)
    requires ram.Valid() && ram.Has(l.pd, PAGE) && Tables(l) <= 512 && l.gran.Page4K?
    modifies ram, ram.data
    ensures ram.Valid() && OnlyLower(old(ram.mem), ram.mem, l)
    ensures ok <==> Tables(l) == 0 || ram.Has(l.pt, Tables(l) * PAGE)
    ensures ok && WellPlaced(l) && Entries(old(ram.mem), l.pd) == Empty() && l.pt <= |ram.mem| ==>
              Entries(ram.mem, l.pd) == PdFilled(l, Tables(l)) && PtsFilled(ram.mem, l, Tables(l))
  {
    assert PdFilled(l, 0) == Empty();
    var i := 0;
    while i < Tables(l)
      invariant i <= Tables(l) && ram.Valid() && OnlyLower(old(ram.mem), ram.mem, l)
      invariant i == 0 || ram.Has(l.pt, i * PAGE)
      invariant WellPlaced(l) && Entries(old(ram.mem), l.pd) == Empty() ==> Entries(ram.mem, l.pd) == PdFilled(l, i)
      invariant WellPlaced(l) && l.pt <= |ram.mem| ==> PtsFilled(ram.mem, l, i)
    {
      if !ram.Has(l.pt + i * PAGE, PAGE) {
        return false;
      }
      FillPdSlot(ram, l, i);
      i := i + 1;
    }
    ok := true;
  }

  /** `boot_build_page_table`, for any layout whose map size survives rounding up to 1 GiB in
      64 bits.  It succeeds exactly when the tables fit into RAM and at most 1 GiB is mapped;
      then RAM holds the tables of the layout, provided they are well placed.  No other byte
      is touched. */
  method BuildPageTable(ram: Ram, l: Layout) returns (r: Status)
    requires ram.Valid() && l.mapSize <= TWO64 - GIB
    modifies ram, ram.data
    ensures ram.Valid() && OnlyTables(old(ram.mem), ram.mem, l)
    ensures r.Ok? && WellPlaced(l) && (l.gran.Page4K? ==> l.pt <= |ram.mem|) ==> Built(ram.mem, l)
    ensures r.Ok? <==>
              && ram.Has(l.pml4, PAGE) && ram.Has(l.pdpt, PAGE) && ram.Has(l.pd, PAGE) && l.mapSize <= GIB
              && (l.gran.Page4K? && Tables(l) > 0 ==> ram.Has(l.pt, Tables(l) * PAGE))
    ensures r.Unsupported? <==>
              && ram.Has(l.pml4, PAGE) && ram.Has(l.pdpt, PAGE) && ram.Has(l.pd, PAGE)
              && GIB < l.mapSize <= 512 * GIB
  {
    if !ram.Has(l.pml4, PAGE) || !ram.Has(l.pdpt, PAGE) || !ram.Has(l.pd, PAGE) {
      return Invalid;
    }
    ClearTables(ram, l);
    var gibs := (l.mapSize + (GIB - 1)) / GIB;
    if gibs > 512 {
      return Invalid;
    }
    if gibs > 1 {
      return Unsupported;
    }
    StoreRoots(ram, l);
    ghost var roots := ram.mem;
    if l.gran.Page2M? {
      FillPdLarge(ram, l);
    } else {
      var ok := FillPdSmall(ram, l);
      if !ok {
        return Invalid;
      }
    }
    if WellPlaced(l) {
      EntriesSame(roots, ram.mem, l.pml4);
      EntriesSame(roots, ram.mem, l.pdpt);
    }
    return Ok;
  }

  /* ---------------------------------------------------------------- */
  /* Walking                                                           */
  /* ---------------------------------------------------------------- */

  datatype Walk = Inaccessible(level: nat) | NotPresent(level: nat) | Maps(gpa: nat)

  /** `(gva >> shift[level]) & 0x1FF`. */
  function Index(level: nat, gva: nat): (r: nat)
    ensures r < 512
  {
    (match level case 0 => gva / (512 * GIB) case 1 => gva / GIB case 2 => gva / LARGE case _ => gva / PAGE) % 512
  }

  /** `(e & PTE_ADDR_MASK & ~mask) | (gva & mask)` for an entry that ends the walk at `level`. */
  function Target(level: nat, e: nat, gva: nat): nat {
    match level
    case 1 => AddrBits(e) / GIB * GIB + gva % GIB
    case 2 => AddrBits(e) / LARGE * LARGE + gva % LARGE
    case _ => AddrBits(e) + gva % PAGE
  }

  /** What the hardware and `boot_dump_page_walk` do from the table at `next` down. */
  function WalkFrom(m: seq<byte>, next: nat, level: nat, gva: nat): Walk
    requires level < 4
    decreases 4 - level
  {
    if !InRam(|m|, next, PAGE) then Inaccessible(level)
    else
      var e := Load(m, next + 8 * Index(level, gva), 8);
      if e % 2 == 0 then NotPresent(level)
      else if (level == 1 || level == 2) && e / PAGE_SIZE_BIT % 2 == 1 then Maps(Target(level, e, gva))
      else if level == 3 then Maps(Target(level, e, gva))
      else WalkFrom(m, AddrBits(e), level + 1, gva)
  }

  /** `boot_dump_page_walk`. */
  method DumpPageWalk(ram: Ram, l: Layout, gva: nat) returns (r: Walk)
    requires ram.Valid()
    ensures r == WalkFrom(ram.mem, l.pml4, 0, gva)
  {
    var next: nat := l.pml4;
    var level: nat := 0;
    while level < 4
      invariant level < 4 && WalkFrom(ram.mem, next, level, gva) == WalkFrom(ram.mem, l.pml4, 0, gva)
      decreases 4 - level
    {
      if !ram.Has(next, PAGE) {
        return Inaccessible(level);
      }
      var e := ram.Fetch(next + 8 * Index(level, gva), 8);
      if e % 2 == 0 {
        return NotPresent(level);
      }
      if (level == 1 || level == 2) && e / PAGE_SIZE_BIT % 2 == 1 {
        return Maps(Target(level, e, gva));
      }
      if level == 3 {
        return Maps(Target(level, e, gva));
      }
      next := AddrBits(e);
      level := level + 1;
    }
  }

  const CANONICAL: nat := 0x1_0000_0000_0000

  /** The translation the tables are meant to give: identity below `mapSize`, nothing above.
      Bits 48 and up of the address do not take part in a four-level walk. */
  function Identity(mapSize: nat, gva: nat): Walk {
    var g := gva % CANONICAL;
    if g < mapSize then Maps(g)
    else if g >= 512 * GIB then NotPresent(0)
    else if g >= GIB then NotPresent(1)
    else NotPresent(2)
  }

  /** An aligned address and flag bits in one entry do not disturb each other. */
  lemma EntryBits(addr: nat, flags: nat)
    requires addr % PAGE == 0 && addr < ADDR_END && flags < PAGE
    ensures AddrBits(addr + flags) == addr
    ensures (addr + flags) % 2 == flags % 2 && (addr + flags) / PAGE_SIZE_BIT % 2 == flags / PAGE_SIZE_BIT % 2
  {
    var q := addr / PAGE;
    assert (addr + flags) % ADDR_END == addr + flags;
    assert (addr + flags) / PAGE == q;
    EntryFlags(q, flags);
  }

  lemma EntryFlags(q: nat, flags: nat)
    ensures (q * PAGE + flags) % 2 == flags % 2
    ensures (q * PAGE + flags) / PAGE_SIZE_BIT % 2 == flags / PAGE_SIZE_BIT % 2
  {
    Even(q * 2048, flags);
    var d, r := flags / PAGE_SIZE_BIT, flags % PAGE_SIZE_BIT;
    Quotient(q * 32 + d, r);
    Even(q * 16, d);
  }

  lemma Even(k: nat, x: nat)
    ensures (2 * k + x) % 2 == x % 2
  {
  }

  lemma Quotient(k: nat, r: nat)
    requires r < PAGE_SIZE_BIT
    ensures (k * PAGE_SIZE_BIT + r) / PAGE_SIZE_BIT == k
  {
  }

  /** A table with only its first entry: every other slot is not present. */
  lemma WalkRoot(m: seq<byte>, page: nat, target: nat, level: nat, gva: nat)
    requires level < 2 && page + PAGE <= |m| && Entries(m, page) == Root(target)
    requires target % PAGE == 0 && target < ADDR_END
    ensures WalkFrom(m, page, level, gva) ==
            if Index(level, gva) == 0 then WalkFrom(m, target, level + 1, gva) else NotPresent(level)
  {
    hide Load, Entries, AddrBits, Index;
    EntryAt(m, page, Index(level, gva));
    EntryBits(target, PRESENT_RW);
  }

  lemma WalkLarge(m: seq<byte>, l: Layout, gva: nat)
    requires Built(m, l) && l.gran.Page2M? && Tables(l) <= 512
    ensures var i := Index(2, gva);
            WalkFrom(m, l.pd, 2, gva) == if i < Tables(l) then Maps(i * LARGE + gva % LARGE) else NotPresent(2)
  {
    hide Load, Entries, AddrBits, Index;
    var i := Index(2, gva);
    EntryAt(m, l.pd, i);
    EntryBits(i * LARGE, PRESENT_RW + PAGE_SIZE_BIT);
    WholePage(i);
  }

  lemma WholePage(i: nat)
    ensures i * LARGE / LARGE * LARGE == i * LARGE
  {
  }

  lemma WalkPt(m: seq<byte>, table: nat, i: nat, gva: nat)
    requires table + PAGE <= |m| && i < 512 && Entries(m, table) == PtFilled(i)
    ensures WalkFrom(m, table, 3, gva) == Maps(i * LARGE + gva % LARGE)
  {
    var j := Index(3, gva);
    EntryAt(m, table, j);
    assert PtFilled(i)[j] == PtEntry(i, j);
    EntryBits(i * LARGE + j * PAGE, PRESENT_RW);
    SplitLarge(gva);
  }

  lemma WalkSmall(m: seq<byte>, l: Layout, gva: nat)
    requires Built(m, l) && WellPlaced(l) && l.gran.Page4K? && Tables(l) <= 512
    ensures var i := Index(2, gva);
            WalkFrom(m, l.pd, 2, gva) == if i < Tables(l) then Maps(i * LARGE + gva % LARGE) else NotPresent(2)
  {
    hide Load, Entries, AddrBits, Index, PtFilled, WalkFrom, WellPlaced;
    var i := Index(2, gva);
    if i < Tables(l) {
      var table := l.pt + i * PAGE;
      PtPage(l, i);
      WalkOn(m, l.pd, table, gva);
      assert Entries(m, l.pt + i * PAGE) == PtFilled(i);
      WalkPt(m, table, i, gva);
    } else {
      WalkStops(m, l.pd, gva);
    }
  }

  lemma WalkOn(m: seq<byte>, pd: nat, table: nat, gva: nat)
    requires pd + PAGE <= |m| && |Entries(m, pd)| == 512 && Entries(m, pd)[Index(2, gva)] == table + PRESENT_RW
    requires table % PAGE == 0 && table < ADDR_END
    ensures WalkFrom(m, pd, 2, gva) == WalkFrom(m, table, 3, gva)
  {
    hide Load, Entries, AddrBits, Index;
    EntryAt(m, pd, Index(2, gva));
    EntryBits(table, PRESENT_RW);
  }

  lemma WalkStops(m: seq<byte>, pd: nat, gva: nat)
    requires pd + PAGE <= |m| && |Entries(m, pd)| == 512 && Entries(m, pd)[Index(2, gva)] == 0
    ensures WalkFrom(m, pd, 2, gva) == NotPresent(2)
  {
    hide Load, Entries, AddrBits, Index;
    EntryAt(m, pd, Index(2, gva));
  }

  lemma SplitLarge(x: nat)
    ensures x % LARGE == Index(3, x) * PAGE + x % PAGE
  {
  }

  /** The page walk is the identity on [0, mapSize) and faults everywhere else, for every
      64-bit address, both granularities and every 2 MiB multiple up to 1 GiB. */
  lemma WalkIsIdentity(m: seq<byte>, l: Layout, gva: nat)
    requires Built(m, l) && WellPlaced(l) && l.mapSize % LARGE == 0 && l.mapSize <= GIB
    ensures WalkFrom(m, l.pml4, 0, gva) == Identity(l.mapSize, gva)
  {
    WalkRoot(m, l.pml4, l.pdpt, 0, gva);
    WalkRoot(m, l.pdpt, l.pd, 1, gva);
    if l.gran.Page2M? {
      WalkLarge(m, l, gva);
    } else {
      WalkSmall(m, l, gva);
    }
    SplitAddress(gva);
  }

  lemma SplitAddress(x: nat)
    ensures x % CANONICAL == Index(0, x) * (512 * GIB) + Index(1, x) * GIB + Index(2, x) * LARGE + x % LARGE
  {
    SplitGib(x);
    SplitHalf(x);
    SplitTop(x);
    hide Index;
  }

  lemma SplitHalf(x: nat)
    ensures x % (512 * GIB) == Index(1, x) * GIB + x % GIB
  {
  }

  lemma SplitGib(x: nat)
    ensures x % GIB == Index(2, x) * LARGE + x % LARGE
  {
  }

  lemma SplitTop(x: nat)
    ensures x % CANONICAL == Index(0, x) * (512 * GIB) + x % (512 * GIB)
  {
  }

  /** `a` translates to itself under the tables at `cr3`. */
  predicate MapsToItself(m: seq<byte>, cr3: nat, a: nat) {
    WalkFrom(m, cr3, 0, a) == Maps(a)
  }

  /** An address, of any size, translates to itself exactly when it is below the map size. */
  lemma MappedBelowSize(m: seq<byte>, l: Layout, a: nat)
    requires Built(m, l) && WellPlaced(l) && l.mapSize % LARGE == 0 && l.mapSize <= GIB
    ensures MapsToItself(m, l.pml4, a) <==> a < l.mapSize
  {
    hide Built, WalkFrom, WellPlaced;
    WalkIsIdentity(m, l, a);
    LowPart(a);
  }

  lemma LowPart(a: nat)
    ensures a % CANONICAL < CANONICAL && (a < CANONICAL <==> a % CANONICAL == a)
  {
  }

  /** The two granularities give the same translation. */
  lemma GranularitiesAgree(m: seq<byte>, large: Layout, m': seq<byte>, small: Layout, gva: nat)
    requires Built(m, large) && WellPlaced(large) && large.gran.Page2M?
    requires Built(m', small) && WellPlaced(small) && small.gran.Page4K?
    requires large.mapSize == small.mapSize && large.mapSize % LARGE == 0 && large.mapSize <= GIB
    ensures WalkFrom(m, large.pml4, 0, gva) == WalkFrom(m', small.pml4, 0, gva)
  {
    WalkIsIdentity(m, large, gva);
    WalkIsIdentity(m', small, gva);
  }

  /** `boot_layout_validate` accepts the default addresses exactly for multiples of 2 MiB up to
      512 GiB with RAM past the last table, and what it accepts of them is well placed. */
  lemma DefaultLayoutFits(mapSize: nat, gran: Gran, size: nat)
    ensures Validate(size, DefaultLayout(mapSize, gran)).Ok? <==>
            && mapSize % LARGE == 0 && mapSize <= 512 * GIB
            && size >= 0x5000 + (if gran.Page4K? then mapSize / LARGE * PAGE else 0)
    ensures mapSize <= 512 * GIB ==> WellPlaced(DefaultLayout(mapSize, gran))
  {
  }

  /** With other addresses it accepts tables that lie on top of each other, or askew. */
  lemma ValidateMisses(size: nat)
    requires size >= 0x5000
    ensures var overlapping := Layout(0x1000, 0x2000, 0x2000, 0x4000, 0x5000, GIB, Page2M);
            Validate(size, overlapping).Ok? && !WellPlaced(overlapping)
    ensures var askew := Layout(0x1000, 0x2008, 0x3010, 0x4018, 0x5000, GIB, Page2M);
            Validate(size + PAGE, askew).Ok? && !WellPlaced(askew)
  {
  }
}
