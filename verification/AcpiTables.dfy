/** The ACPI tables (src/boot/acpi.c) and the reader a guest kernel applies to them. */
module AcpiTables {
  import opened Bytes
  import opened Common
  import opened Firmware
  import opened GuestRam

  const ACPI: nat := 0xe0000
  const ACPI_MAX: nat := 0x10000
  const HEADER: nat := 36
  const RSDP_SIZE: nat := 36

  // Offsets in the region, each rounded up to 16 from the end of the table before it.
  const XSDT: nat := 48
  const FADT: nat := 112
  const DSDT: nat := 400
  const MADT: nat := 464

  const OEM: seq<byte> := [0x4d, 0x49, 0x4e, 0x56, 0x4d, 0x4d]
  const OEM_TABLE: seq<byte> := [0x4d, 0x49, 0x4e, 0x49, 0x56, 0x4d, 0x4d, 0x20]
  const CREATOR: seq<byte> := [0x4d, 0x56, 0x4d, 0x4d]

  const SIG_RSDP: seq<byte> := [0x52, 0x53, 0x44, 0x20, 0x50, 0x54, 0x52, 0x20]
  const SIG_XSDT: seq<byte> := [0x58, 0x53, 0x44, 0x54]
  const SIG_FADT: seq<byte> := [0x46, 0x41, 0x43, 0x50]
  const SIG_DSDT: seq<byte> := [0x44, 0x53, 0x44, 0x54]
  const SIG_MADT: seq<byte> := [0x41, 0x50, 0x49, 0x43]

  /** Name (_S5, Package () { 5, 5, 0, 0 }) in AML. */
  const AML: seq<byte> := [0x08, 0x5f, 0x53, 0x35, 0x5f, 0x12, 0x08, 0x04, 0x0a, 0x05, 0x0a, 0x05, 0x00, 0x00]

  function Header(sig: seq<byte>, len: nat, rev: byte): (h: seq<byte>)
    requires |sig| == 4
    ensures |h| == HEADER && h[..4] == sig && h[4..8] == Le(len, 4) && h[9] == 0
  {
    sig + Le(len, 4) + [rev, 0] + OEM + OEM_TABLE + Le(1, 4) + CREATOR + Le(1, 4)
  }

  /** A whole table: `fill_header` over a finished body. */
  function Table(sig: seq<byte>, rev: byte, body: seq<byte>): (t: seq<byte>)
    requires |sig| == 4
    ensures |t| == HEADER + |body|
  {
    var u := Header(sig, HEADER + |body|, rev) + body;
    u[9 := Checksum(u)]
  }

  function Dsdt(): (t: seq<byte>)
    ensures |t| == 50
  {
    Table(SIG_DSDT, 2, AML)
  }

  /** Everything in the FADT past the header; offsets are those of section 5.2.9 of ACPI 6.4. */
  function FadtBody(): (b: seq<byte>)
    ensures |b| == 240
  {
    var b := Put(Zeros(240), 40 - HEADER, Le(ACPI + DSDT, 4));
    var b := Put(b, 140 - HEADER, Le(ACPI + DSDT, 8));
    var b := Put(b, 46 - HEADER, Le(9, 2));
    var b := Put(b, 56 - HEADER, Le(0x600, 4));
    var b := Put(b, 64 - HEADER, Le(0x604, 4));
    var b := Put(b, 88 - HEADER, [4, 2]);
    var b := Put(b, 108 - HEADER, [0x32]);
    var b := Put(b, 109 - HEADER, Le(3, 2));
    var b := Put(b, 112 - HEADER, Le(0x31, 4));
    Put(b, 131 - HEADER, [4])
  }

  function Fadt(): (t: seq<byte>)
    ensures |t| == 276
  {
    Table(SIG_FADT, 6, FadtBody())
  }

  function LapicEntry(i: nat): (e: seq<byte>)
    ensures |e| == 8 && e[0] == 0 && e[1] == 8 && e[3] == i % 256 && e[4] == 1
  {
    [0, 8, i % 256, i % 256] + [1, 0, 0, 0]
  }

  function IoApicEntry(id: nat): (e: seq<byte>)
    ensures |e| == 12 && e[0] == 1 && e[1] == 12 && e[2] == id % 256 && e[4..8] == Le(IOAPIC_BASE, 4)
  {
    [1, 12, id % 256, 0] + Le(IOAPIC_BASE, 4) + Le(0, 4)
  }

  function NmiEntry(): (e: seq<byte>)
    ensures |e| == 6 && e[0] == 4 && e[1] == 6
  {
    [4, 6, 0xff, 0, 0, 1]
  }

  function Lapics(n: nat): (r: seq<seq<byte>>)
    ensures |r| == n && forall i :: 0 <= i < n ==> r[i] == LapicEntry(i)
  {
    seq(n, i requires 0 <= i < n => LapicEntry(i))
  }

  function Entries(n: nat): (r: seq<seq<byte>>)
    ensures |r| == n + 2
  {
    Lapics(n) + [IoApicEntry(n), NmiEntry()]
  }

  function MadtBody(n: nat): (b: seq<byte>) {
    Le(LAPIC_BASE, 4) + Le(1, 4) + Flatten(Entries(n))
  }

  function MadtSize(n: nat): nat {
    62 + 8 * n
  }

  function Madt(n: nat): (t: seq<byte>)
    ensures |t| == MadtSize(n)
  {
    EntriesSize(n);
    Table(SIG_MADT, 5, MadtBody(n))
  }

  function XsdtBody(): (b: seq<byte>)
    ensures |b| == 16
  {
    Le(ACPI + FADT, 8) + Le(ACPI + MADT, 8)
  }

  function Xsdt(): (t: seq<byte>)
    ensures |t| == 52
  {
    Table(SIG_XSDT, 1, XsdtBody())
  }

  function RsdpUnsummed(): (t: seq<byte>)
    ensures |t| == RSDP_SIZE && t[8] == 0 && t[32] == 0
  {
    SIG_RSDP + [0] + OEM + [2] + Le(0, 4) + Le(RSDP_SIZE, 4) + Le(ACPI + XSDT, 8) + [0, 0, 0, 0]
  }

  /** First the checksum of the first 20 bytes, then that of all 36. */
  function Rsdp(): (t: seq<byte>)
    ensures |t| == RSDP_SIZE
  {
    var u := RsdpUnsummed();
    var v := u[8 := Checksum(u[..20])];
    v[32 := Checksum(v)]
  }

  lemma {:induction false} LapicsSize(n: nat)
    ensures |Flatten(Lapics(n))| == 8 * n
  {
    assert n == 0 ==> Lapics(n) == [];
    if n > 0 {
      LapicsSize(n - 1);
      assert Lapics(n) == Lapics(n - 1) + [LapicEntry(n - 1)];
      FlattenOne(Lapics(n - 1), LapicEntry(n - 1));
    }
  }

  lemma EntriesSize(n: nat)
    ensures |Flatten(Entries(n))| == 8 * n + 18
  {
    hide Flatten;
    LapicsSize(n);
    assert Entries(n) == Lapics(n) + [IoApicEntry(n)] + [NmiEntry()];
    FlattenOne(Lapics(n), IoApicEntry(n));
    FlattenOne(Lapics(n) + [IoApicEntry(n)], NmiEntry());
  }

  /** The size check of `acpi_setup`. */
  predicate Fits(n: nat) {
    MADT + MadtSize(n) <= ACPI_MAX
  }

  /** The region `acpi_setup` owns, byte for byte. */
  function Image(n: nat): (r: seq<byte>)
    requires Fits(n)
    ensures |r| == ACPI_MAX
  {
    var r := Put(Zeros(ACPI_MAX), DSDT, Dsdt());
    var r := Put(r, FADT, Fadt());
    var r := Put(r, MADT, Madt(n));
    var r := Put(r, XSDT, Xsdt());
    Put(r, 0, Rsdp())
  }

  /* ---------------------------------------------------------------- */
  /* The writer                                                        */
  /* ---------------------------------------------------------------- */

  /** `fill_header`: with the body in place, the finished table is in place. */
  method FillHeader(ram: Ram, at: nat, sig: seq<byte>, rev: byte, len: nat, ghost body: seq<byte>)
    requires ram.Valid() && |sig| == 4 && len == HEADER + |body| && at + len <= ram.data.Length
    requires ram.mem[at + HEADER..at + len] == body
    modifies ram, ram.data
    ensures ram.Valid() && ram.mem == Put(old(ram.mem), at, Table(sig, rev, body))
  {
    hide Header, Sum, Checksum, Le;
    ghost var m0 := ram.mem;
    ghost var u := Header(sig, len, rev) + body;
    ram.Copy(at, Header(sig, len, rev));
    assert ram.mem[at..at + len] == u by {
      assert ram.mem[at..at + len] == ram.mem[at..at + HEADER] + ram.mem[at + HEADER..at + len];
      assert ram.mem[at + HEADER..at + len] == m0[at + HEADER..at + len];
    }
    ghost var m1 := ram.mem;
    var c := SumMemory(ram, at, len);
    ram.Copy(at + 9, [c]);
    WholeTable(m0, m1, at, u, c);
  }

  lemma WholeTable(m0: seq<byte>, m1: seq<byte>, at: nat, u: seq<byte>, c: byte)
    requires at + |u| <= |m0| == |m1| && |u| > 9 && m1[at..at + |u|] == u
    requires forall a :: 0 <= a < |m0| && !(at <= a < at + |u|) ==> m1[a] == m0[a]
    ensures Put(m1, at + 9, [c]) == Put(m0, at, u[9 := c])
  {
    var l, r := Put(m1, at + 9, [c]), Put(m0, at, u[9 := c]);
    forall a | 0 <= a < |m0| ensures l[a] == r[a] {
      if at <= a < at + |u| {
        assert m1[at..at + |u|][a - at] == u[a - at];
      }
    }
  }

  /** A table whose body is copied first and whose header is filled in afterwards. */
  method WriteTable(ram: Ram, at: nat, sig: seq<byte>, rev: byte, body: seq<byte>)
    requires ram.Valid() && |sig| == 4 && at + HEADER + |body| <= ram.data.Length
    modifies ram, ram.data
    ensures ram.Valid() && ram.mem == Put(old(ram.mem), at, Table(sig, rev, body))
  {
    hide Table;
    ram.Copy(at + HEADER, body);
    assert ram.mem[at + HEADER..at + HEADER + |body|] == body;
    FillHeader(ram, at, sig, rev, HEADER + |body|, body);
  }

  /** The advancing cursor over the MADT entries. */
  method EmitEntries(ram: Ram, start: nat, n: nat) returns (p: nat)
    requires ram.Valid() && start + 8 * n + 18 <= ram.data.Length
    modifies ram, ram.data
    ensures ram.Valid() && p == start + 8 * n + 18
    ensures ram.mem[start..p] == Flatten(Entries(n)) && SameOutside(old(ram.mem), ram.mem, start, p)
  {
    assert Flatten([]) == [] && Lapics(0) == [];
    hide Flatten, LapicEntry, IoApicEntry, NmiEntry;
    p := start;
    var i := 0;
    while i < n
      invariant 0 <= i <= n && ram.Valid() && p == start + 8 * i
      invariant ram.mem[start..p] == Flatten(Lapics(i)) && SameOutside(old(ram.mem), ram.mem, start, p)
    {
      p := Emit(ram, start, p, LapicEntry(i), Lapics(i));
      assert Lapics(i + 1) == Lapics(i) + [LapicEntry(i)];
      i := i + 1;
    }
    p := Emit(ram, start, p, IoApicEntry(n), Lapics(n));
    p := Emit(ram, start, p, NmiEntry(), Lapics(n) + [IoApicEntry(n)]);
    assert Entries(n) == Lapics(n) + [IoApicEntry(n)] + [NmiEntry()];
  }

  method EmitMadtBody(ram: Ram, at: nat, n: nat) returns (p: nat)
    requires ram.Valid() && at + MadtSize(n) <= ram.data.Length
    modifies ram, ram.data
    ensures ram.Valid() && p == at + MadtSize(n) && |MadtBody(n)| == MadtSize(n) - HEADER
    ensures ram.mem == Put(old(ram.mem), at + HEADER, MadtBody(n))
  {
    hide Flatten, Le, Entries;
    EntriesSize(n);
    ghost var m0 := ram.mem;
    var fixed := Le(LAPIC_BASE, 4) + Le(1, 4);
    ram.Copy(at + HEADER, fixed);
    ghost var m1 := ram.mem;
    p := EmitEntries(ram, at + HEADER + 8, n);
    ghost var body := MadtBody(n);
    forall a | 0 <= a < |m0| ensures ram.mem[a] == Put(m0, at + HEADER, body)[a] {
      if at + HEADER + 8 <= a < p {
        assert ram.mem[at + HEADER + 8..p][a - (at + HEADER + 8)] == Flatten(Entries(n))[a - (at + HEADER + 8)];
        assert body[a - (at + HEADER)] == Flatten(Entries(n))[a - (at + HEADER + 8)];
      } else {
        assert ram.mem[a] == m1[a];
      }
    }
  }

  method WriteMadt(ram: Ram, at: nat, n: nat) returns (ok: bool)
    requires ram.Valid() && at == ACPI + MADT && at + MadtSize(n) <= ram.data.Length
    modifies ram, ram.data
    ensures ram.Valid() && ok == Fits(n) && |ram.mem| == |old(ram.mem)|
    ensures ok ==> ram.mem == Put(old(ram.mem), at, Madt(n))
  {
    hide MadtBody, Table;
    ghost var m0 := ram.mem;
    var p := EmitMadtBody(ram, at, n);
    var len := p - at;
    if MADT + len > ACPI_MAX {
      return false;
    }
    ghost var m1 := ram.mem;
    assert ram.mem[at + HEADER..at + len] == MadtBody(n);
    FillHeader(ram, at, SIG_MADT, 5, len, MadtBody(n));
    assert Put(m1, at, Madt(n)) == Put(m0, at, Madt(n));
    ok := true;
  }

  method WriteRsdp(ram: Ram)
    requires ram.Valid() && ACPI + RSDP_SIZE <= ram.data.Length
    modifies ram, ram.data
    ensures ram.Valid() && ram.mem == Put(old(ram.mem), ACPI, Rsdp())
  {
    hide Sum, Checksum, RsdpUnsummed;
    ghost var u := RsdpUnsummed();
    ram.Copy(ACPI, RsdpUnsummed());
    SliceIs(ram.mem, ACPI, u[..20]);
    var c := SumMemory(ram, ACPI, 20);
    ram.Copy(ACPI + 8, [c]);
    ghost var v := u[8 := c];
    Patched(old(ram.mem), ACPI, u, 8, c);
    SliceIs(ram.mem, ACPI, v);
    var d := SumMemory(ram, ACPI, RSDP_SIZE);
    ram.Copy(ACPI + 32, [d]);
    Patched(old(ram.mem), ACPI, v, 32, d);
  }

  lemma Patched(m: seq<byte>, at: nat, u: seq<byte>, k: nat, c: byte)
    requires at + |u| <= |m| && k < |u|
    ensures Put(Put(m, at, u), at + k, [c]) == Put(m, at, u[k := c])
  {
  }

  /** `acpi_setup`: whatever RAM held, afterwards the 64 KiB region is exactly `Image(n)` and
      nothing else has changed.  The entries are written before their total is checked, so
      callers must leave room for them. */
  method Setup(ram: Ram, n: nat) returns (ok: bool, rsdp: nat)
    requires ram.Valid() && (ram.Has(ACPI, ACPI_MAX) ==> ACPI + MADT + MadtSize(n) <= ram.data.Length)
    modifies ram, ram.data
    ensures ram.Valid() && |ram.mem| == |old(ram.mem)| && ok == (ram.Has(ACPI, ACPI_MAX) && Fits(n))
    ensures ok ==> rsdp == ACPI && ram.mem == Put(old(ram.mem), ACPI, Image(n))
  {
    hide Table, Rsdp, MadtBody;
    rsdp := 0;
    if !ram.Has(ACPI, ACPI_MAX) {
      return false, 0;
    }
    ghost var m0 := ram.mem;
    ram.Clear(ACPI, ACPI_MAX);
    WriteTable(ram, ACPI + DSDT, SIG_DSDT, 2, AML);
    WriteTable(ram, ACPI + FADT, SIG_FADT, 6, FadtBody());
    ok := WriteMadt(ram, ACPI + MADT, n);
    if ok {
      WriteTable(ram, ACPI + XSDT, SIG_XSDT, 1, XsdtBody());
      WriteRsdp(ram);
      rsdp := ACPI;
      Nested(m0, Dsdt(), Fadt(), Madt(n), Xsdt(), Rsdp());
    }
  }

  /** Writing the tables into memory one by one is writing the image. */
  lemma Nested(m: seq<byte>, d: seq<byte>, f: seq<byte>, a: seq<byte>, x: seq<byte>, r: seq<byte>)
    requires ACPI + ACPI_MAX <= |m| && |d| == 50 && |f| == 276 && MADT + |a| <= ACPI_MAX
    requires |x| == 52 && |r| == RSDP_SIZE
    ensures var z := Put(m, ACPI, Zeros(ACPI_MAX));
            Put(Put(Put(Put(Put(z, ACPI + DSDT, d), ACPI + FADT, f), ACPI + MADT, a), ACPI + XSDT, x), ACPI, r)
            == Put(m, ACPI, Put(Put(Put(Put(Put(Zeros(ACPI_MAX), DSDT, d), FADT, f), MADT, a), XSDT, x), 0, r))
  {
  }

  /* ---------------------------------------------------------------- */
  /* The reader                                                        */
  /* ---------------------------------------------------------------- */

  /** The table at `gpa`, if its length is sane and it sums to zero. */
  function TableAt(m: seq<byte>, gpa: nat): (t: Option<seq<byte>>)
    ensures t.Some? ==> |t.value| >= HEADER
  {
    if gpa + HEADER > |m| then None
    else
      var len := Load(m, gpa + 4, 4);
      if len < HEADER || gpa + len > |m| then None else SumsToZero(m[gpa..gpa + len])
  }

  function SumsToZero(t: seq<byte>): (r: Option<seq<byte>>)
    ensures r.Some? ==> r.value == t
  {
    if Sum(t) % 256 == 0 then Some(t) else None
  }

  function Pointers(b: seq<byte>): seq<nat> {
    if |b| < 8 then [] else [FromLe(b[..8])] + Pointers(b[8..])
  }

  /** The first listed table with the given signature. */
  function FindTable(m: seq<byte>, ps: seq<nat>, sig: seq<byte>): (t: Option<seq<byte>>)
    ensures t.Some? ==> |t.value| >= HEADER
  {
    if ps == [] then None
    else
      match TableAt(m, ps[0])
      case Some(t) => if t[..4] == sig then Some(t) else FindTable(m, ps[1..], sig)
      case None => FindTable(m, ps[1..], sig)
  }

  /** The XSDT an ACPI 2.0 root pointer leads to; both root pointer checksums must hold. */
  function FindXsdt(m: seq<byte>, rsdp: nat): (t: Option<seq<byte>>)
    ensures t.Some? ==> |t.value| >= HEADER
  {
    if rsdp + RSDP_SIZE > |m| then None
    else
      var r := m[rsdp..rsdp + RSDP_SIZE];
      if r[..8] != SIG_RSDP || r[15] < 2 || Sum(r[..20]) % 256 != 0 then None
      else if FromLe(r[20..24]) != RSDP_SIZE || Sum(r) % 256 != 0 then None
      else
        match TableAt(m, FromLe(r[24..32]))
        case Some(t) => if t[..4] == SIG_XSDT then Some(t) else None
        case None => None
  }

  function EntryLength(b: seq<byte>): nat {
    if |b| < 2 then 0 else b[1]
  }

  /** The APIC ids of the enabled local APIC entries, in order. */
  function LapicIds(es: seq<seq<byte>>): seq<byte> {
    if es == [] then []
    else if |es[0]| == 8 && es[0][0] == 0 && es[0][4] % 2 == 1 then [es[0][3]] + LapicIds(es[1..])
    else LapicIds(es[1..])
  }

  function FirstIoApic(es: seq<seq<byte>>): (r: Option<seq<byte>>)
    ensures r.Some? ==> |r.value| == 12
  {
    if es == [] then None
    else if |es[0]| == 12 && es[0][0] == 1 then Some(es[0])
    else FirstIoApic(es[1..])
  }

  function ReadMadt(t: seq<byte>): Option<Topology>
    requires |t| >= HEADER
  {
    if |t| < 44 then None
    else
      match Split(t[44..], EntryLength)
      case None => None
      case Some(es) =>
        match FirstIoApic(es)
        case None => None
        case Some(io) => Some(Topology(LapicIds(es), io[2], FromLe(io[4..8]), FromLe(t[36..40])))
  }

  datatype Acpi = Acpi(topology: Topology, fadt: seq<byte>, dsdt: seq<byte>)

  /** What a guest makes of the root pointer at `rsdp`. */
  function Read(m: seq<byte>, rsdp: nat): Option<Acpi> {
    match FindXsdt(m, rsdp)
    case None => None
    case Some(x) =>
      match (FindTable(m, Pointers(x[HEADER..]), SIG_MADT), FindTable(m, Pointers(x[HEADER..]), SIG_FADT)) {
        case (Some(madt), Some(fadt)) => ReadTables(m, madt, fadt)
        case _ => None
      }
  }

  function ReadTables(m: seq<byte>, madt: seq<byte>, fadt: seq<byte>): Option<Acpi>
    requires |madt| >= HEADER
  {
    if |fadt| < 148 then None
    else
      match (ReadMadt(madt), TableAt(m, FromLe(fadt[140..148])))
      case (Some(topology), Some(dsdt)) => Some(Acpi(topology, fadt, dsdt))
      case _ => None
  }

  /** APIC ids are stored in one byte. */
  function Described(n: nat): (t: Topology)
    ensures n < 256 ==> t == Expected(n)
  {
    Topology(seq(n, i requires 0 <= i < n => i % 256), n % 256, IOAPIC_BASE, LAPIC_BASE)
  }

  ghost predicate Holds(m: seq<byte>, at: nat, t: seq<byte>) {
    at + |t| <= |m| && m[at..at + |t|] == t
  }

  lemma TableParts(sig: seq<byte>, rev: byte, body: seq<byte>)
    requires |sig| == 4 && HEADER + |body| < TWO32
    ensures var t := Table(sig, rev, body);
            t[..4] == sig && FromLe(t[4..8]) == |t| && Sum(t) % 256 == 0 && t[HEADER..] == body
  {
    PowerValues();
    FromLeOfLe(HEADER + |body|, 4);
    hide Header, Le, FromLe, Sum, Checksum;
    var h := Header(sig, HEADER + |body|, rev);
    var u, t := h + body, Table(sig, rev, body);
    assert u[9] == h[9];
    ChecksumWorks(u, 9);
    assert t[..4] == h[..4] && t[4..8] == h[4..8];
  }

  lemma TableFound(m: seq<byte>, at: nat, t: seq<byte>)
    requires Holds(m, at, t) && |t| >= HEADER && FromLe(t[4..8]) == |t| && Sum(t) % 256 == 0
    ensures TableAt(m, at) == Some(t)
  {
    hide FromLe, Sum;
    assert SumsToZero(t) == Some(t);
    HeldLength(m, at, t);
    hide Load, SumsToZero;
  }

  lemma HeldLength(m: seq<byte>, at: nat, t: seq<byte>)
    requires Holds(m, at, t) && |t| >= 8
    ensures Load(m, at + 4, 4) == FromLe(t[4..8])
  {
    hide FromLe;
    SubSlice(m, at, |t|, 4, 4);
  }

  lemma RsdpParts()
    ensures var r := Rsdp();
            && r[..8] == SIG_RSDP && r[15] == 2 && Sum(r[..20]) % 256 == 0 && Sum(r) % 256 == 0
            && FromLe(r[20..24]) == RSDP_SIZE && FromLe(r[24..32]) == ACPI + XSDT
  {
    PowerValues();
    FromLeOfLe(RSDP_SIZE, 4);
    FromLeOfLe(ACPI + XSDT, 8);
    RsdpFields();
    hide Le, FromLe, Sum, Checksum, RsdpUnsummed;
    var u := RsdpUnsummed();
    var v := u[8 := Checksum(u[..20])];
    TwoChecksums(u);
    Patches(u, Checksum(u[..20]), Checksum(v));
  }

  lemma RsdpFields()
    ensures var u := RsdpUnsummed();
            && u[..8] == SIG_RSDP && u[15] == 2
            && u[20..24] == Le(RSDP_SIZE, 4) && u[24..32] == Le(ACPI + XSDT, 8)
  {
    hide Le;
  }

  lemma Patches(u: seq<byte>, c: byte, d: byte)
    requires |u| == RSDP_SIZE
    ensures var r := u[8 := c][32 := d];
            r[..8] == u[..8] && r[15] == u[15] && r[20..24] == u[20..24] && r[24..32] == u[24..32]
  {
  }

  /** Storing the second checksum does not spoil the first. */
  lemma TwoChecksums(u: seq<byte>)
    requires |u| == RSDP_SIZE && u[8] == 0 && u[32] == 0
    ensures var v := u[8 := Checksum(u[..20])];
            var r := v[32 := Checksum(v)];
            Sum(r[..20]) % 256 == 0 && Sum(r) % 256 == 0
  {
    hide Sum, Checksum;
    var v := u[8 := Checksum(u[..20])];
    var r := v[32 := Checksum(v)];
    ChecksumWorks(u[..20], 8);
    ChecksumWorks(v, 32);
    assert r[..20] == u[..20][8 := Checksum(u[..20])];
  }

  lemma XsdtPointers()
    ensures Pointers(XsdtBody()) == [ACPI + FADT, ACPI + MADT]
  {
    PowerValues();
    FromLeOfLe(ACPI + FADT, 8);
    FromLeOfLe(ACPI + MADT, 8);
    hide Le, FromLe;
    var b: seq<byte> := XsdtBody();
    assert b[..8] == Le(ACPI + FADT, 8) && b[8..] == Le(ACPI + MADT, 8);
    assert b[8..][..8] == b[8..] && b[8..][8..] == [];
  }

  lemma {:induction false} LapicIdsAppend(es: seq<seq<byte>>, fs: seq<seq<byte>>)
    ensures LapicIds(es + fs) == LapicIds(es) + LapicIds(fs)
  {
    if es == [] {
      assert es + fs == fs;
    } else {
      assert (es + fs)[1..] == es[1..] + fs;
      LapicIdsAppend(es[1..], fs);
    }
  }

  lemma OneLapic(i: nat)
    ensures LapicIds([LapicEntry(i)]) == [i % 256]
  {
    hide LapicEntry;
    assert [LapicEntry(i)][1..] == [];
  }

  lemma {:induction false} LapicIdsOfLapics(n: nat)
    ensures LapicIds(Lapics(n)) == Described(n).apicIds
  {
    if n > 0 {
      LapicIdsOfLapics(n - 1);
      OneLapic(n - 1);
      hide LapicEntry, LapicIds;
      assert Lapics(n) == Lapics(n - 1) + [LapicEntry(n - 1)];
      LapicIdsAppend(Lapics(n - 1), [LapicEntry(n - 1)]);
    }
  }

  lemma {:induction false} SkipLapics(es: seq<seq<byte>>, fs: seq<seq<byte>>)
    requires forall i :: 0 <= i < |es| ==> |es[i]| == 8
    ensures FirstIoApic(es + fs) == FirstIoApic(fs)
  {
    if es == [] {
      assert es + fs == fs;
    } else {
      assert (es + fs)[1..] == es[1..] + fs;
      SkipLapics(es[1..], fs);
    }
  }

  lemma EntriesMean(n: nat)
    ensures LapicIds(Entries(n)) == Described(n).apicIds && FirstIoApic(Entries(n)) == Some(IoApicEntry(n))
  {
    hide LapicEntry, IoApicEntry, NmiEntry, Described;
    var rest: seq<seq<byte>> := [IoApicEntry(n), NmiEntry()];
    assert rest[1..] == [NmiEntry()] && [NmiEntry()][1..] == [];
    assert LapicIds(rest) == [];
    LapicIdsAppend(Lapics(n), rest);
    LapicIdsOfLapics(n);
    SkipLapics(Lapics(n), rest);
  }

  lemma EntriesSplit(n: nat)
    ensures Split(Flatten(Entries(n)), EntryLength) == Some(Entries(n))
  {
    var es := Entries(n);
    forall i | 0 <= i < |es| ensures SelfSized(es[i], EntryLength, Flatten(es[i + 1..])) {
      hide Flatten, LapicEntry, IoApicEntry, NmiEntry;
      var rest := Flatten(es[i + 1..]);
      assert (es[i] + rest)[1] == es[i][1];
    }
    SplitFlatten(es, EntryLength);
  }

  /** The MADT reads back as the topology it was built for. */
  lemma MadtReads(n: nat)
    requires Fits(n)
    ensures ReadMadt(Madt(n)) == Some(Described(n))
  {
    EntriesSize(n);
    TableParts(SIG_MADT, 5, MadtBody(n));
    EntriesSplit(n);
    EntriesMean(n);
    PowerValues();
    FromLeOfLe(LAPIC_BASE, 4);
    FromLeOfLe(IOAPIC_BASE, 4);
    hide Flatten, Entries, Table, Le, FromLe, Split, Sum, LapicIds, FirstIoApic, IoApicEntry;
    var t, b := Madt(n), MadtBody(n);
    assert t[36..40] == t[HEADER..][..4] == b[..4] == Le(LAPIC_BASE, 4);
    assert t[44..] == t[HEADER..][8..] == b[8..] == Flatten(Entries(n));
  }

  /** The FADT points at the DSDT and carries the fixed hardware the VMM emulates. */
  lemma FadtFields()
    ensures var t := Fadt();
            && FromLe(t[140..148]) == FromLe(t[40..44]) == ACPI + DSDT
            && FromLe(t[46..48]) == 9 && FromLe(t[56..60]) == 0x600 && FromLe(t[64..68]) == 0x604
            && t[88] == 4 && t[89] == 2 && t[108] == 0x32
            && FromLe(t[109..111]) == 3 && FromLe(t[112..116]) == 0x31 && t[131] == 4
  {
    PowerValues();
    FromLeOfLe(ACPI + DSDT, 8);
    FromLeOfLe(ACPI + DSDT, 4);
    FromLeOfLe(9, 2);
    FromLeOfLe(0x600, 4);
    FromLeOfLe(0x604, 4);
    FromLeOfLe(3, 2);
    FromLeOfLe(0x31, 4);
    hide Le, FromLe;
    TableParts(SIG_FADT, 6, FadtBody());
    FadtSlices(Fadt());
  }

  lemma FadtSlices(t: seq<byte>)
    requires |t| == 276 && t[HEADER..] == FadtBody()
    ensures t[140..148] == Le(ACPI + DSDT, 8) && t[40..44] == Le(ACPI + DSDT, 4)
    ensures t[46..48] == Le(9, 2) && t[56..60] == Le(0x600, 4) && t[64..68] == Le(0x604, 4)
    ensures t[88] == 4 && t[89] == 2 && t[108] == 0x32 && t[131] == 4
    ensures t[109..111] == Le(3, 2) && t[112..116] == Le(0x31, 4)
  {
    hide Le;
    FadtBodySlices();
    hide FadtBody;
    SubSlice(t, HEADER, 240, 104, 8);
    SubSlice(t, HEADER, 240, 4, 4);
    SubSlice(t, HEADER, 240, 10, 2);
    SubSlice(t, HEADER, 240, 20, 4);
    SubSlice(t, HEADER, 240, 28, 4);
    SubSlice(t, HEADER, 240, 73, 2);
    SubSlice(t, HEADER, 240, 76, 4);
    assert forall k :: HEADER <= k < 276 ==> t[k] == t[HEADER..][k - HEADER];
  }

  lemma FadtBodySlices()
    ensures var b := FadtBody();
            && b[104..112] == Le(ACPI + DSDT, 8) && b[4..8] == Le(ACPI + DSDT, 4)
            && b[10..12] == Le(9, 2) && b[20..24] == Le(0x600, 4) && b[28..32] == Le(0x604, 4)
            && b[52] == 4 && b[53] == 2 && b[72] == 0x32 && b[95] == 4
            && b[73..75] == Le(3, 2) && b[76..80] == Le(0x31, 4)
  {
    hide Le;
    var b := FadtBody();
    SliceIs(b, 104, Le(ACPI + DSDT, 8));
    SliceIs(b, 4, Le(ACPI + DSDT, 4));
    SliceIs(b, 10, Le(9, 2));
    SliceIs(b, 20, Le(0x600, 4));
    SliceIs(b, 28, Le(0x604, 4));
    SliceIs(b, 73, Le(3, 2));
    SliceIs(b, 76, Le(0x31, 4));
  }

  /** The five tables stand where the pointers say. */
  lemma ImageParts(m: seq<byte>, n: nat)
    requires Fits(n) && Holds(m, ACPI, Image(n))
    ensures Holds(m, ACPI, Rsdp()) && Holds(m, ACPI + XSDT, Xsdt()) && Holds(m, ACPI + FADT, Fadt())
    ensures Holds(m, ACPI + DSDT, Dsdt()) && Holds(m, ACPI + MADT, Madt(n))
  {
    hide Rsdp, Xsdt, Fadt, Dsdt, Madt;
    var r := Image(n);
    SliceIs(r, 0, Rsdp());
    SliceIs(r, XSDT, Xsdt());
    SliceIs(r, FADT, Fadt());
    SliceIs(r, DSDT, Dsdt());
    SliceIs(r, MADT, Madt(n));
    hide Image;
    SubSlice(m, ACPI, ACPI_MAX, 0, RSDP_SIZE);
    SubSlice(m, ACPI, ACPI_MAX, XSDT, 52);
    SubSlice(m, ACPI, ACPI_MAX, FADT, 276);
    SubSlice(m, ACPI, ACPI_MAX, DSDT, 50);
    SubSlice(m, ACPI, ACPI_MAX, MADT, MadtSize(n));
  }

  lemma TablesFound(m: seq<byte>, n: nat)
    requires Fits(n) && Holds(m, ACPI, Image(n))
    ensures TableAt(m, ACPI + XSDT) == Some(Xsdt()) && Xsdt()[..4] == SIG_XSDT && Xsdt()[HEADER..] == XsdtBody()
    ensures TableAt(m, ACPI + FADT) == Some(Fadt()) && Fadt()[..4] == SIG_FADT
    ensures TableAt(m, ACPI + DSDT) == Some(Dsdt())
    ensures TableAt(m, ACPI + MADT) == Some(Madt(n)) && Madt(n)[..4] == SIG_MADT
  {
    ImageParts(m, n);
    EntriesSize(n);
    hide TableAt, Table, Sum, FromLe, Image, Flatten, FadtBody, XsdtBody, Holds;
    TableParts(SIG_XSDT, 1, XsdtBody());
    TableFound(m, ACPI + XSDT, Xsdt());
    TableParts(SIG_FADT, 6, FadtBody());
    TableFound(m, ACPI + FADT, Fadt());
    TableParts(SIG_DSDT, 2, AML);
    TableFound(m, ACPI + DSDT, Dsdt());
    TableParts(SIG_MADT, 5, MadtBody(n));
    TableFound(m, ACPI + MADT, Madt(n));
  }

  lemma XsdtFound(m: seq<byte>, n: nat)
    requires Fits(n) && Holds(m, ACPI, Image(n))
    ensures FindXsdt(m, ACPI) == Some(Xsdt())
  {
    RsdpParts();
    TablesFound(m, n);
    ImageParts(m, n);
    hide TableAt, Rsdp, Xsdt, Sum, FromLe, Image, Madt, Fadt, Dsdt;
  }

  lemma ListedFound(m: seq<byte>, a: nat, b: nat)
    requires TableAt(m, a).Some? && TableAt(m, a).value[..4] == SIG_FADT
    requires TableAt(m, b).Some? && TableAt(m, b).value[..4] == SIG_MADT
    ensures FindTable(m, [a, b], SIG_FADT) == TableAt(m, a) && FindTable(m, [a, b], SIG_MADT) == TableAt(m, b)
  {
    hide TableAt;
    assert [a, b][1..] == [b];
  }

  lemma TablesRead(m: seq<byte>, n: nat)
    requires Fits(n) && TableAt(m, ACPI + DSDT) == Some(Dsdt())
    ensures ReadTables(m, Madt(n), Fadt()) == Some(Acpi(Described(n), Fadt(), Dsdt()))
  {
    MadtReads(n);
    FadtFields();
    hide TableAt, ReadMadt, FromLe, Madt, Fadt, Dsdt, Described, Fits;
  }

  /** The ACPI tables parse back: in any memory that holds the image, following the root
      pointer checks every checksum and recovers the CPUs, the I/O APIC, the FADT and the DSDT. */
  lemma ReadsBack(m: seq<byte>, n: nat)
    requires Fits(n) && Holds(m, ACPI, Image(n))
    ensures Read(m, ACPI) == Some(Acpi(Described(n), Fadt(), Dsdt()))
  {
    XsdtFound(m, n);
    TablesFound(m, n);
    XsdtPointers();
    ListedFound(m, ACPI + FADT, ACPI + MADT);
    TablesRead(m, n);
    hide FindXsdt, FindTable, Pointers, TableAt, ReadTables, Image, Holds, Madt, Fadt, Dsdt, Xsdt, XsdtBody, Described;
  }
}
