/** The Intel MP floating pointer and configuration table (src/boot/mptable.c), and the
    reader a guest kernel applies to it. */
module MpTable {
  import opened Bytes
  import opened Common
  import opened Firmware
  import opened GuestRam

  const MPTABLE: nat := 0x9fc00
  const MPTABLE_MAX: nat := 0x400
  const MPF_SIZE: nat := 16
  const MPC: nat := 0x9fc10
  const MPC_SIZE: nat := 44

  const PCMP: seq<byte> := [0x50, 0x43, 0x4d, 0x50]
  const MP_ANCHOR: seq<byte> := [0x5f, 0x4d, 0x50, 0x5f]
  const OEM: seq<byte> := [0x4d, 0x49, 0x4e, 0x49, 0x56, 0x4d, 0x4d, 0x20]
  const PRODUCT: seq<byte> := [0x30, 0x30, 0x30, 0x30, 0x30, 0x30, 0x30, 0x30, 0x30, 0x30, 0x30, 0x30]

  function CpuEntry(i: byte): (e: seq<byte>)
    ensures |e| == 20 && e[0] == 0 && e[1] == i && e[3] % 2 == 1
  {
    [0, i, 0x14, if i == 0 then 3 else 1] + Le(0x600, 4) + Le(0x201, 4) + Zeros(8)
  }

  function BusEntry(): (e: seq<byte>)
    ensures |e| == 8 && e[0] == 1
  {
    [1, 0, 0x49, 0x53, 0x41, 0x20, 0x20, 0x20]
  }

  function IoApicEntry(id: byte): (e: seq<byte>)
    ensures |e| == 8 && e[0] == 2 && e[1] == id
  {
    [2, id, 0x11, 1] + Le(IOAPIC_BASE, 4)
  }

  function IntEntry(id: byte, irq: byte): (e: seq<byte>)
    ensures |e| == 8 && e[0] == 3
  {
    [3, 0, 0, 0, 0, irq, id, irq]
  }

  function LintEntry(irqtype: byte, pin: byte): (e: seq<byte>)
    ensures |e| == 8 && e[0] == 4
  {
    [4, irqtype, 0, 0, 0, 0, 0xff, pin]
  }

  function CpuEntries(n: nat): (r: seq<seq<byte>>)
    requires n <= 256
    ensures |r| == n && forall i :: 0 <= i < n ==> r[i] == CpuEntry(i)
  {
    seq(n, i requires 0 <= i < n => CpuEntry(i))
  }

  function IntEntries(id: byte, k: nat): (r: seq<seq<byte>>)
    requires k <= 16
    ensures |r| == k && forall i :: 0 <= i < k ==> r[i] == IntEntry(id, i)
  {
    seq(k, i requires 0 <= i < k => IntEntry(id, i))
  }

  /** The 8-byte entries that follow the processors. */
  function Others(n: byte): (r: seq<seq<byte>>)
    ensures |r| == 20 && r[0] == BusEntry() && r[1] == IoApicEntry(n)
    ensures forall i :: 0 <= i < 20 ==> |r[i]| == 8 && 1 <= r[i][0] <= 4
  {
    [BusEntry(), IoApicEntry(n)] + IntEntries(n, 16) + [LintEntry(3, 0), LintEntry(1, 1)]
  }

  /** Every entry of the table, in order. */
  function Entries(n: nat): (r: seq<seq<byte>>)
    requires n < 256
    ensures |r| == n + 20
  {
    CpuEntries(n) + Others(n)
  }

  function Length(n: nat): nat {
    MPC_SIZE + 20 * n + 160
  }

  /** The size check at the head of `mptable_setup`. */
  predicate Fits(n: int) {
    1 <= n <= 254 && MPF_SIZE + Length(n) <= MPTABLE_MAX
  }

  function Header(length: nat, count: nat): (h: seq<byte>)
    ensures |h| == MPC_SIZE
  {
    PCMP + Le(length, 2) + [4, 0] + OEM + PRODUCT + Le(0, 4) + Le(0, 2) + Le(count, 2) + Le(LAPIC_BASE, 4) + Le(0, 4)
  }

  function Anchor(): (h: seq<byte>)
    ensures |h| == MPF_SIZE
  {
    MP_ANCHOR + Le(MPC, 4) + [1, 4, 0, 0, 0, 0, 0, 0]
  }

  /** Header and entries, before the checksum is patched in. */
  function Unsummed(n: nat): (t: seq<byte>)
    requires n < 256
  {
    Header(Length(n), n + 20) + Flatten(Entries(n))
  }

  lemma {:induction false} FlattenUniform(es: seq<seq<byte>>, size: nat)
    requires forall i :: 0 <= i < |es| ==> |es[i]| == size
    ensures |Flatten(es)| == size * |es|
  {
    if es != [] {
      FlattenUniform(es[1..], size);
    }
  }

  lemma EntriesSize(n: nat)
    requires n < 256
    ensures |Flatten(Entries(n))| == 20 * n + 160
  {
    hide Flatten, CpuEntry, Others;
    FlattenUniform(CpuEntries(n), 20);
    FlattenUniform(Others(n), 8);
    FlattenAppend(CpuEntries(n), Others(n));
  }

  function Table(n: nat): (t: seq<byte>)
    requires n < 256
    ensures |t| == Length(n)
  {
    EntriesSize(n);
    Unsummed(n)[7 := Checksum(Unsummed(n))]
  }

  function SummedAnchor(): (h: seq<byte>)
    ensures |h| == MPF_SIZE
  {
    Anchor()[10 := Checksum(Anchor())]
  }

  /** The region `mptable_setup` owns, byte for byte. */
  function Region(n: nat): (r: seq<byte>)
    requires n < 256 && MPF_SIZE + Length(n) <= MPTABLE_MAX
    ensures |r| == MPTABLE_MAX
  {
    SummedAnchor() + Table(n) + Zeros(MPTABLE_MAX - MPF_SIZE - Length(n))
  }

  /* ---------------------------------------------------------------- */
  /* The writer                                                        */
  /* ---------------------------------------------------------------- */

  /** One processor entry per CPU. */
  method EmitCpus(ram: Ram, start: nat, n: nat) returns (p: nat, count: nat)
    requires ram.Valid() && n < 256 && start + 20 * n <= ram.data.Length
    modifies ram, ram.data
    ensures ram.Valid() && p == start + 20 * n && count == n && SameOutside(old(ram.mem), ram.mem, start, p)
    ensures ram.mem[start..p] == Flatten(CpuEntries(n))
  {
    assert Flatten([]) == [];
    hide Flatten, CpuEntry;
    p, count := start, 0;
    var i := 0;
    while i < n
      invariant 0 <= i <= n && ram.Valid() && p == start + 20 * i && count == i
      invariant ram.mem[start..p] == Flatten(CpuEntries(i)) && SameOutside(old(ram.mem), ram.mem, start, p)
    {
      p := Emit(ram, start, p, CpuEntry(i), CpuEntries(i));
      assert CpuEntries(i + 1) == CpuEntries(i) + [CpuEntry(i)];
      count := count + 1;
      i := i + 1;
    }
  }

  /** ISA IRQ i goes straight to I/O APIC pin i. */
  method EmitInts(ram: Ram, start: nat, p: nat, id: byte, ghost done: seq<seq<byte>>) returns (p': nat, count: nat)
    requires ram.Valid() && start <= p && p + 128 <= ram.data.Length && ram.mem[start..p] == Flatten(done)
    modifies ram, ram.data
    ensures ram.Valid() && p' == p + 128 && count == 16 && SameOutside(old(ram.mem), ram.mem, p, p')
    ensures ram.mem[start..p'] == Flatten(done + IntEntries(id, 16))
  {
    hide Flatten, IntEntry;
    p', count := p, 0;
    assert done + IntEntries(id, 0) == done;
    var i := 0;
    while i < 16
      invariant 0 <= i <= 16 && ram.Valid() && p' == p + 8 * i && count == i
      invariant ram.mem[start..p'] == Flatten(done + IntEntries(id, i)) && SameOutside(old(ram.mem), ram.mem, p, p')
    {
      p' := Emit(ram, start, p', IntEntry(id, i), done + IntEntries(id, i));
      assert done + IntEntries(id, i + 1) == done + IntEntries(id, i) + [IntEntry(id, i)];
      count := count + 1;
      i := i + 1;
    }
  }

  /** The advancing cursor: every entry in order, counted. */
  method EmitEntries(ram: Ram, n: nat) returns (p: nat, count: nat)
    requires ram.Valid() && Fits(n) && ram.Has(MPTABLE, MPTABLE_MAX)
    modifies ram, ram.data
    ensures ram.Valid() && p == MPC + Length(n) && count == n + 20
    ensures ram.mem[MPC + MPC_SIZE..p] == Flatten(Entries(n))
    ensures SameOutside(old(ram.mem), ram.mem, MPC + MPC_SIZE, p)
  {
    hide Flatten, BusEntry, IoApicEntry, LintEntry;
    var start := MPC + MPC_SIZE;
    p, count := EmitCpus(ram, start, n);
    ghost var done := CpuEntries(n);
    p := Emit(ram, start, p, BusEntry(), done);
    done := done + [BusEntry()];
    p := Emit(ram, start, p, IoApicEntry(n), done);
    done := done + [IoApicEntry(n)];
    count := count + 2;
    var ints;
    p, ints := EmitInts(ram, start, p, n, done);
    done := done + IntEntries(n, 16);
    count := count + ints;
    p := Emit(ram, start, p, LintEntry(3, 0), done);
    done := done + [LintEntry(3, 0)];
    p := Emit(ram, start, p, LintEntry(1, 1), done);
    done := done + [LintEntry(1, 1)];
    count := count + 2;
    assert done == Entries(n);
  }

  /** Header, then the checksum over the finished table. */
  method FinishTable(ram: Ram, n: nat, p: nat, count: nat)
    requires ram.Valid() && Fits(n) && ram.Has(MPTABLE, MPTABLE_MAX) && p == MPC + Length(n) && count == n + 20
    requires ram.mem[MPC + MPC_SIZE..p] == Flatten(Entries(n))
    modifies ram, ram.data
    ensures ram.Valid() && ram.mem[MPC..p] == Table(n)
    ensures SameOutside(old(ram.mem), ram.mem, MPC, MPC + MPC_SIZE)
  {
    hide Flatten, Entries, Header, Checksum;
    ghost var m0 := ram.mem;
    EntriesSize(n);
    ram.Copy(MPC, Header(p - MPC, count));
    assert ram.mem[MPC..p] == Unsummed(n) by {
      assert ram.mem[MPC..p] == ram.mem[MPC..MPC + MPC_SIZE] + ram.mem[MPC + MPC_SIZE..p];
      assert ram.mem[MPC..MPC + MPC_SIZE] == Header(Length(n), n + 20);
      assert ram.mem[MPC + MPC_SIZE..p] == m0[MPC + MPC_SIZE..p];
    }
    var c := SumMemory(ram, MPC, p - MPC);
    ghost var m1 := ram.mem;
    ram.Copy(MPC + 7, [c]);
    assert ram.mem[MPC..p] == m1[MPC..p][7 := c];
  }

  method FinishAnchor(ram: Ram)
    requires ram.Valid() && ram.Has(MPTABLE, MPTABLE_MAX)
    modifies ram, ram.data
    ensures ram.Valid() && ram.mem[MPTABLE..MPC] == SummedAnchor()
    ensures SameOutside(old(ram.mem), ram.mem, MPTABLE, MPC)
  {
    ram.Copy(MPTABLE, Anchor());
    assert ram.mem[MPTABLE..MPTABLE + MPF_SIZE] == Anchor();
    var c := SumMemory(ram, MPTABLE, MPF_SIZE);
    ghost var m1 := ram.mem;
    ram.Copy(MPTABLE + 10, [c]);
    assert ram.mem[MPTABLE..MPC] == m1[MPTABLE..MPC][10 := c];
  }

  lemma JoinRegion(m: seq<byte>, n: nat)
    requires Fits(n) && MPTABLE + MPTABLE_MAX <= |m|
    requires m[MPTABLE..MPC] == SummedAnchor() && m[MPC..MPC + Length(n)] == Table(n)
    requires forall a :: MPC + Length(n) <= a < MPTABLE + MPTABLE_MAX ==> m[a] == 0
    ensures m[MPTABLE..MPTABLE + MPTABLE_MAX] == Region(n)
  {
    hide Table, SummedAnchor;
    var p := MPC + Length(n);
    var tail := m[p..MPTABLE + MPTABLE_MAX];
    assert |tail| == MPTABLE_MAX - MPF_SIZE - Length(n);
    forall k | 0 <= k < |tail| ensures tail[k] == 0 {
      assert tail[k] == m[p + k];
    }
    assert m[MPTABLE..MPTABLE + MPTABLE_MAX] == m[MPTABLE..MPC] + m[MPC..p] + tail;
  }

  /** `mptable_setup`: whatever RAM held, afterwards the 1 KiB region is exactly `Region(n)`
      and nothing else has changed. */
  method Setup(ram: Ram, n: int) returns (ok: bool)
    requires ram.Valid()
    modifies ram, ram.data
    ensures ram.Valid() && ok == (Fits(n) && ram.Has(MPTABLE, MPTABLE_MAX))
    ensures SameOutside(old(ram.mem), ram.mem, MPTABLE, MPTABLE + MPTABLE_MAX)
    ensures ok ==> ram.mem[MPTABLE..MPTABLE + MPTABLE_MAX] == Region(n)
  {
    hide Flatten, Entries, Table, SummedAnchor;
    if n < 1 || n > 254 || MPF_SIZE + Length(n) > MPTABLE_MAX {
      return false;
    }
    if !ram.Has(MPTABLE, MPTABLE_MAX) {
      return false;
    }
    ram.Clear(MPTABLE, MPTABLE_MAX);
    var p, count := EmitEntries(ram, n);
    FinishTable(ram, n, p, count);
    ghost var m := ram.mem;
    FinishAnchor(ram);
    assert ram.mem[MPC..p] == m[MPC..p];
    JoinRegion(ram.mem, n);
    ok := true;
  }

  /* ---------------------------------------------------------------- */
  /* The reader                                                        */
  /* ---------------------------------------------------------------- */

  /** Entry lengths of chapter 4 of the MP specification: 20 for a processor, 8 for the rest. */
  function EntryLength(b: seq<byte>): nat {
    if b == [] then 0 else if b[0] == 0 then 20 else if b[0] <= 4 then 8 else 0
  }

  /** The APIC ids of the enabled processor entries, in order. */
  function CpuIds(es: seq<seq<byte>>): seq<byte> {
    if es == [] then []
    else if |es[0]| == 20 && es[0][0] == 0 && es[0][3] % 2 == 1 then [es[0][1]] + CpuIds(es[1..])
    else CpuIds(es[1..])
  }

  function FirstIoApic(es: seq<seq<byte>>): (r: Option<seq<byte>>)
    ensures r.Some? ==> |r.value| == 8
  {
    if es == [] then None
    else if |es[0]| == 8 && es[0][0] == 2 then Some(es[0])
    else FirstIoApic(es[1..])
  }

  /** The table the anchor points to, if the anchor checks out. */
  function FindTable(m: seq<byte>): (t: Option<seq<byte>>)
    ensures t.Some? ==> |t.value| >= MPC_SIZE
  {
    if MPTABLE + MPF_SIZE > |m| then None
    else
      var f := m[MPTABLE..MPTABLE + MPF_SIZE];
      if f[..4] != MP_ANCHOR || Sum(f) % 256 != 0 then None
      else TableAt(m, Load(m, MPTABLE + 4, 4))
  }

  function TableAt(m: seq<byte>, at: nat): (t: Option<seq<byte>>)
    ensures t.Some? ==> |t.value| >= MPC_SIZE
  {
    if at + MPC_SIZE > |m| then None
    else
      var length := Load(m, at + 4, 2);
      if length < MPC_SIZE || at + length > |m| then None else Some(m[at..at + length])
  }

  /** What a guest makes of `m`: checks both signatures and checksums, walks the entries and
      insists that they end exactly at the declared length and match the declared count. */
  function Read(m: seq<byte>): Option<Topology> {
    match FindTable(m)
    case None => None
    case Some(t) => ReadTable(t)
  }

  function ReadTable(t: seq<byte>): Option<Topology>
    requires |t| >= MPC_SIZE
  {
    if t[..4] != PCMP || Sum(t) % 256 != 0 then None
    else
      match Split(t[MPC_SIZE..], EntryLength)
      case None => None
      case Some(es) =>
        if |es| != Load(t, 34, 2) || FirstIoApic(es).None? then None
        else
          var io := FirstIoApic(es).value;
          Some(Topology(CpuIds(es), io[1], Load(io, 4, 4), Load(t, 36, 4)))
  }

  lemma {:induction false} CpuIdsAppend(es: seq<seq<byte>>, fs: seq<seq<byte>>)
    ensures CpuIds(es + fs) == CpuIds(es) + CpuIds(fs)
  {
    if es == [] {
      assert es + fs == fs;
    } else {
      assert (es + fs)[1..] == es[1..] + fs;
      CpuIdsAppend(es[1..], fs);
    }
  }

  lemma {:induction false} NoCpus(es: seq<seq<byte>>)
    requires forall i :: 0 <= i < |es| ==> |es[i]| == 8
    ensures CpuIds(es) == []
  {
    if es != [] {
      NoCpus(es[1..]);
    }
  }

  lemma OneCpu(i: byte)
    ensures CpuIds([CpuEntry(i)]) == [i]
  {
    hide CpuEntry;
    assert [CpuEntry(i)][1..] == [];
  }

  lemma {:induction false} CpuIdsOfCpus(n: nat)
    requires n < 256
    ensures CpuIds(CpuEntries(n)) == Expected(n).apicIds
  {
    assert CpuIds([]) == [];
    if n > 0 {
      hide CpuIds, CpuEntry;
      CpuIdsOfCpus(n - 1);
      assert CpuEntries(n) == CpuEntries(n - 1) + [CpuEntry(n - 1)];
      hide CpuEntries, Expected;
      ExpectedNext(n);
      OneCpu(n - 1);
      CpuIdsAppend(CpuEntries(n - 1), [CpuEntry(n - 1)]);
    }
  }

  lemma {:induction false} SkipCpus(es: seq<seq<byte>>, fs: seq<seq<byte>>)
    requires forall i :: 0 <= i < |es| ==> |es[i]| == 20
    ensures FirstIoApic(es + fs) == FirstIoApic(fs)
  {
    if es == [] {
      assert es + fs == fs;
    } else {
      assert (es + fs)[1..] == es[1..] + fs;
      SkipCpus(es[1..], fs);
    }
  }

  lemma EntriesMean(n: nat)
    requires n < 256
    ensures CpuIds(Entries(n)) == Expected(n).apicIds
    ensures FirstIoApic(Entries(n)) == Some(IoApicEntry(n))
  {
    hide CpuEntry, BusEntry, IoApicEntry, Others;
    var rest := Others(n);
    CpuIdsAppend(CpuEntries(n), rest);
    CpuIdsOfCpus(n);
    NoCpus(rest);
    SkipCpus(CpuEntries(n), rest);
    assert rest[0] == BusEntry() && rest[1..][0] == IoApicEntry(n);
  }

  /** An enabled processor entry, the boot processor or not. */
  predicate IsCpu(e: seq<byte>, boot: bool) {
    |e| == 20 && e[0] == 0 && e[3] % 2 == 1 && (e[3] / 2 % 2 == 1 <==> boot)
  }

  /** An interrupt entry from IRQ `irq` of a bus to the like-numbered pin of an I/O APIC. */
  predicate RoutesIrq(e: seq<byte>, bus: byte, irq: byte, apic: byte) {
    |e| == 8 && e[0] == 3 && e[1] == 0 && e[4] == bus && e[5] == irq && e[6] == apic && e[7] == irq
  }

  lemma EntryPlaces(n: nat, k: nat)
    requires n < 256 && k < n + 20
    ensures Entries(n)[k] ==
            if k < n then CpuEntry(k)
            else if k == n then BusEntry()
            else if k == n + 1 then IoApicEntry(n)
            else if k < n + 18 then IntEntry(n, k - n - 2)
            else if k == n + 18 then LintEntry(3, 0)
            else LintEntry(1, 1)
  {
    hide CpuEntry, BusEntry, IoApicEntry, IntEntry, LintEntry;
    if k >= n {
      assert Entries(n)[k] == Others(n)[k - n];
    }
  }

  /** The processor entries are enabled, and exactly CPU 0 is the boot processor. */
  lemma OneBootCpu(n: nat, i: nat)
    requires i < n < 256
    ensures IsCpu(Entries(n)[i], i == 0)
  {
    hide Entries;
    EntryPlaces(n, i);
  }

  /** IRQ i of the declared ISA bus goes to pin i of the declared I/O APIC. */
  lemma RoutingIsIdentity(n: nat, irq: byte)
    requires n < 256 && irq < 16
    ensures var es := Entries(n);
            && es[n][0] == 1 && es[n][2..5] == [0x49, 0x53, 0x41] && es[n + 1][0] == 2
            && RoutesIrq(es[n + 2 + irq as int], es[n][1], irq, es[n + 1][1])
  {
    hide Entries;
    EntryPlaces(n, n);
    EntryPlaces(n, n + 1);
    EntryPlaces(n, n + 2 + irq as int);
  }

  /** What a guest that walks the entries makes of them besides the ids: every processor is
      enabled and only CPU 0 boots, every ISA interrupt has its own pin, and the local pins of
      every CPU take ExtINT and NMI. */
  lemma EntriesRoute(n: nat, i: nat, irq: byte)
    requires i < n < 256 && irq < 16
    ensures var es := Entries(n);
            && IsCpu(es[i], i == 0)
            && es[n][0] == 1 && es[n][2..5] == [0x49, 0x53, 0x41] && es[n + 1][0] == 2
            && RoutesIrq(es[n + 2 + irq as int], es[n][1], irq, es[n + 1][1])
            && IsLocal(es[n + 18], 3, 0) && IsLocal(es[n + 19], 1, 1)
  {
    hide Entries, IsCpu, RoutesIrq, IsLocal;
    OneBootCpu(n, i);
    RoutingIsIdentity(n, irq);
    LocalInterrupts(n);
  }

  /** A local interrupt entry for all CPUs, of type `typ`, to pin `lint`. */
  predicate IsLocal(e: seq<byte>, typ: byte, lint: byte) {
    |e| == 8 && e[0] == 4 && e[1] == typ && e[6] == 0xff && e[7] == lint
  }

  /** LINT0 of every CPU takes ExtINT, LINT1 takes NMI. */
  lemma LocalInterrupts(n: nat)
    requires n < 256
    ensures IsLocal(Entries(n)[n + 18], 3, 0) && IsLocal(Entries(n)[n + 19], 1, 1)
  {
    hide Entries;
    EntryPlaces(n, n + 18);
    EntryPlaces(n, n + 19);
  }

  lemma EntriesSplit(n: nat)
    requires n < 256
    ensures Split(Flatten(Entries(n)), EntryLength) == Some(Entries(n))
  {
    var es := Entries(n);
    forall i | 0 <= i < |es| ensures SelfSized(es[i], EntryLength, Flatten(es[i + 1..])) {
      hide Flatten, CpuEntry, Others;
      var rest := Flatten(es[i + 1..]);
      assert (es[i] + rest)[0] == es[i][0];
    }
    SplitFlatten(es, EntryLength);
  }

  lemma HeaderFields(length: nat, count: nat)
    requires length < 65536 && count < 65536
    ensures var h := Header(length, count);
            && h[..4] == PCMP && h[7] == 0
            && FromLe(h[4..6]) == length && FromLe(h[34..36]) == count && FromLe(h[36..40]) == LAPIC_BASE
  {
    PowerValues();
    FromLeOfLe(length, 2);
    FromLeOfLe(count, 2);
    FromLeOfLe(LAPIC_BASE, 4);
    hide FromLe, Le;
    var h := Header(length, count);
    assert h[4..6] == Le(length, 2);
    assert h[34..36] == Le(count, 2);
    assert h[36..40] == Le(LAPIC_BASE, 4);
  }

  lemma TableParts(n: nat)
    requires n < 256 && Length(n) < 65536
    ensures var t, h := Table(n), Header(Length(n), n + 20);
            && t[MPC_SIZE..] == Flatten(Entries(n)) && Sum(t) % 256 == 0
            && t[..4] == h[..4] && t[4..6] == h[4..6] && t[34..36] == h[34..36] && t[36..40] == h[36..40]
  {
    EntriesSize(n);
    HeaderFields(Length(n), n + 20);
    hide Flatten, Entries, Header, FromLe, Sum, Checksum;
    var u, t := Unsummed(n), Table(n);
    var h := Header(Length(n), n + 20);
    assert u[7] == h[7];
    ChecksumWorks(u, 7);
    assert t[MPC_SIZE..] == u[MPC_SIZE..] == Flatten(Entries(n));
    assert t[..4] == h[..4] && t[4..6] == h[4..6] && t[34..36] == h[34..36] && t[36..40] == h[36..40];
  }

  /** The finished table reads back as the topology it was built for. */
  lemma TableReads(n: nat)
    requires Fits(n)
    ensures ReadTable(Table(n)) == Some(Expected(n))
    ensures FromLe(Table(n)[4..6]) == Length(n)
  {
    TableParts(n);
    HeaderFields(Length(n), n + 20);
    EntriesSplit(n);
    EntriesMean(n);
    IoApicAddress(n);
    hide Flatten, Entries, Table, Header, FromLe, Split, Sum, CpuIds, FirstIoApic, IoApicEntry, Fits;
  }

  lemma IoApicAddress(id: byte)
    ensures Load(IoApicEntry(id), 4, 4) == IOAPIC_BASE
  {
    PowerValues();
    FromLeOfLe(IOAPIC_BASE, 4);
    hide FromLe, Le;
    assert IoApicEntry(id)[4..8] == Le(IOAPIC_BASE, 4);
  }

  lemma AnchorReads()
    ensures SummedAnchor()[..4] == MP_ANCHOR && Sum(SummedAnchor()) % 256 == 0
    ensures FromLe(SummedAnchor()[4..8]) == MPC
  {
    PowerValues();
    FromLeOfLe(MPC, 4);
    ChecksumWorks(Anchor(), 10);
    hide FromLe, Le, Sum, Checksum;
    assert SummedAnchor()[..4] == Anchor()[..4] == MP_ANCHOR;
    assert SummedAnchor()[4..8] == Le(MPC, 4);
  }

  lemma AnchorFound(m: seq<byte>, n: nat)
    requires Fits(n) && MPTABLE + MPTABLE_MAX <= |m| && m[MPTABLE..MPTABLE + MPTABLE_MAX] == Region(n)
    ensures m[MPTABLE..MPTABLE + MPF_SIZE] == SummedAnchor() && Load(m, MPTABLE + 4, 4) == MPC
  {
    AnchorReads();
    RegionParts(m, n);
    hide FromLe, Sum, Table, SummedAnchor, Region;
    SubSlice(m, MPTABLE, MPF_SIZE, 4, 4);
  }

  lemma TableFound(m: seq<byte>, t: seq<byte>)
    requires MPC_SIZE <= |t| && MPC + |t| <= |m| && m[MPC..MPC + |t|] == t && FromLe(t[4..6]) == |t|
    ensures TableAt(m, MPC) == Some(t)
  {
    hide FromLe;
    SubSlice(m, MPC, |t|, 4, 2);
    assert Load(m, MPC + 4, 2) == |t|;
  }

  lemma RegionHasTable(m: seq<byte>, n: nat)
    requires Fits(n) && MPTABLE + MPTABLE_MAX <= |m| && m[MPTABLE..MPTABLE + MPTABLE_MAX] == Region(n)
    ensures TableAt(m, MPC) == Some(Table(n))
  {
    TableReads(n);
    RegionParts(m, n);
    assert MPC_SIZE <= Length(n) && MPC + Length(n) <= |m|;
    hide TableAt, ReadTable, FromLe, Table, Region, Fits;
    TableFound(m, Table(n));
  }

  lemma RegionHasAnchor(m: seq<byte>, n: nat)
    requires Fits(n) && MPTABLE + MPTABLE_MAX <= |m| && m[MPTABLE..MPTABLE + MPTABLE_MAX] == Region(n)
    ensures FindTable(m) == TableAt(m, MPC)
  {
    AnchorReads();
    AnchorFound(m, n);
    hide Load, Sum, TableAt, SummedAnchor, Region, Fits;
  }

  /** The MP table parses back: in any memory that holds the region, the guest's walk checks
      out and recovers the CPUs 0..n-1 and the I/O APIC. */
  lemma ReadsBack(m: seq<byte>, n: nat)
    requires Fits(n) && MPTABLE + MPTABLE_MAX <= |m| && m[MPTABLE..MPTABLE + MPTABLE_MAX] == Region(n)
    ensures Read(m) == Some(Expected(n))
  {
    RegionHasTable(m, n);
    RegionHasAnchor(m, n);
    TableReads(n);
    hide FindTable, TableAt, ReadTable, Table, Region, Expected;
  }

  lemma RegionParts(m: seq<byte>, n: nat)
    requires Fits(n) && MPTABLE + MPTABLE_MAX <= |m| && m[MPTABLE..MPTABLE + MPTABLE_MAX] == Region(n)
    ensures m[MPTABLE..MPTABLE + MPF_SIZE] == SummedAnchor() && m[MPC..MPC + Length(n)] == Table(n)
  {
    hide Table, SummedAnchor;
    SubSlice(m, MPTABLE, MPTABLE_MAX, 0, MPF_SIZE);
    SubSlice(m, MPTABLE, MPTABLE_MAX, MPF_SIZE, Length(n));
    assert Region(n)[0..MPF_SIZE] == SummedAnchor();
    assert Region(n)[MPF_SIZE..MPF_SIZE + Length(n)] == Table(n);
  }
}
