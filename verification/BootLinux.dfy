/** `boot_linux` (src/main.c): every writer of guest RAM in its order, and what the guest
    finds when it starts. */
module BootLinux {
  import opened Bytes
  import opened BzImage
  import opened Common
  import opened ElfLoader
  import opened GuestRam
  import opened PageTables
  import AcpiTables
  import Firmware
  import MpTable
  import Segments
  import ZeroPage

  const GDT: nat := 0x1000

  /** The tables of a Linux boot: 2 MiB pages over the first GiB. */
  const TABLES: Layout := DefaultLayout(GIB, Page2M)

  /** The zero-page configuration, with the initrd clamped below 1 GiB. */
  function ZeroConfig(k: Kernel, cmdline: seq<byte>, initrd: Option<seq<byte>>): (zc: ZeroPage.Config)
    requires |k.hdr| == HDR_SIZE && k.hdrLen <= HDR_SIZE
    ensures zc.kernelEnd == k.hi && zc.initrd == initrd && zc.initrdMax < GIB
  {
    var max := if k.hdrLen != 0 then Load(k.hdr, INITRD_ADDR_MAX - HDR, 4) else 0;
    ZeroPage.Config(cmdline, initrd, k.hi, AcpiTables.ACPI, k.hdr[..k.hdrLen], if max > GIB - 1 then GIB - 1 else max)
  }

  /** Every byte of [lo, hi) is the one the kernel file asks for. */
  predicate KernelIn(f: seq<byte>, k: Kernel, before: seq<byte>, m: seq<byte>) {
    |m| == |before| && k.hi <= |m| &&
    if ElfMagic(f) then
      && EhdrOk(f) && AllFit(f, |m|, Phdrs(f))
      && forall a :: k.lo <= a < k.hi ==> m[a] == ImageByte(f, |m|, Phdrs(f), before[a], a)
    else
      && |f| >= HDR_END && SetupBytes(f) <= |f|
      && forall a :: k.lo <= a < k.hi ==> m[a] == PayloadByte(f, a - k.lo)
  }

  ghost predicate FirmwareIn(m: seq<byte>, cpus: nat) {
    && MpTable.Fits(cpus) && AcpiTables.Fits(cpus) && |m| >= AcpiTables.ACPI + AcpiTables.ACPI_MAX
    && m[MpTable.MPTABLE..MpTable.MPTABLE + MpTable.MPTABLE_MAX] == MpTable.Region(cpus)
    && AcpiTables.Holds(m, AcpiTables.ACPI, AcpiTables.Image(cpus))
  }

  ghost predicate GdtIn(m: seq<byte>) {
    GDT + 32 <= |m| && m[GDT..GDT + 32] == Segments.Quads(Segments.LINUX_GDT)
  }

  /** The MP table region and the ACPI region. */
  predicate FirmwareByte(a: nat) {
    || MpTable.MPTABLE <= a < MpTable.MPTABLE + MpTable.MPTABLE_MAX
    || AcpiTables.ACPI <= a < AcpiTables.ACPI + AcpiTables.ACPI_MAX
  }

  /** The four descriptors and the three table pages. */
  predicate TableByte(a: nat) {
    GDT <= a < GDT + 32 || InTables(TABLES, a)
  }

  /** The bytes the eight writers own. */
  predicate Owned(k: Kernel, zc: ZeroPage.Config, size: nat, a: nat) {
    TableByte(a) || FirmwareByte(a) || k.lo <= a < k.hi || ZeroPage.InZeroPage(zc, size, a)
  }

  /** Everything is in memory exactly as its writer left it, and the rest is untouched. */
  ghost predicate Booted(f: seq<byte>, k: Kernel, zc: ZeroPage.Config, cpus: nat, before: seq<byte>, m: seq<byte>) {
    && Describes(k, f) && KernelIn(f, k, before, m)
    && FirmwareIn(m, cpus) && ZeroPage.ZeroPageIn(zc, m) && Built(m, TABLES) && GdtIn(m)
    && |m| == |before| && forall a :: 0 <= a < |m| && !Owned(k, zc, |m|, a) ==> m[a] == before[a]
  }

  /* ---------------------------------------------------------------- */
  /* Each writer leaves the others' bytes alone                        */
  /* ---------------------------------------------------------------- */

  lemma KernelBounds(f: seq<byte>, k: Kernel, size: nat)
    requires Describes(k, f) && KernelLoadable(f, size)
    ensures k.lo < k.hi <= size && |k.hdr| == HDR_SIZE && k.hdrLen <= HDR_SIZE
  {
    hide Load;
    if ElfMagic(f) {
      var p :| p in Phdrs(f) && IsLoad(p) && p.paddr == k.lo;
      var q :| q in Phdrs(f) && IsLoad(q) && q.paddr + q.memsz == k.hi;
      assert Fits(f, size, q);
    }
  }

  lemma KernelArrives(f: seq<byte>, k: Kernel, before: seq<byte>, m: seq<byte>)
    requires Describes(k, f) && KernelPlaced(f, before, m) && k.hi <= |m|
    ensures KernelIn(f, k, before, m) && SameOutside(before, m, k.lo, k.hi)
  {
    hide Load, SetupBytes, LoadAddress, Need;
    KernelStaysInRange(f, before, m, k);
  }

  lemma KernelStays(f: seq<byte>, k: Kernel, before: seq<byte>, m: seq<byte>, m': seq<byte>)
    requires KernelIn(f, k, before, m) && |m'| == |m|
    requires forall a :: k.lo <= a < k.hi ==> m'[a] == m[a]
    ensures KernelIn(f, k, before, m')
  {
    hide AllFit, EhdrOk, SetupBytes, PayloadByte, ImageByte, Phdrs;
  }

  lemma FirmwareStays(m: seq<byte>, m': seq<byte>, cpus: nat)
    requires FirmwareIn(m, cpus) && |m'| == |m|
    requires forall a: nat :: a < |m| && FirmwareByte(a) ==> m'[a] == m[a]
    ensures FirmwareIn(m', cpus)
  {
    hide MpTable.Region, AcpiTables.Image, MpTable.Fits, AcpiTables.Fits;
    assert m'[MpTable.MPTABLE..MpTable.MPTABLE + MpTable.MPTABLE_MAX]
        == m[MpTable.MPTABLE..MpTable.MPTABLE + MpTable.MPTABLE_MAX];
    assert m'[AcpiTables.ACPI..AcpiTables.ACPI + AcpiTables.ACPI_MAX]
        == m[AcpiTables.ACPI..AcpiTables.ACPI + AcpiTables.ACPI_MAX];
  }

  lemma ZeroPageStays(zc: ZeroPage.Config, m: seq<byte>, m': seq<byte>)
    requires ZeroPage.ZeroPageIn(zc, m) && |m'| == |m|
    requires forall a :: 0 <= a < |m| && ZeroPage.InZeroPage(zc, |m|, a) ==> m'[a] == m[a]
    ensures ZeroPage.ZeroPageIn(zc, m')
  {
    hide ZeroPage.FinalPage, Load;
    assert ZeroPage.BootParams(m') == ZeroPage.BootParams(m);
    ZeroPage.CmdlineStays(zc, m, m');
    if zc.initrd.Some? {
      var gpa := ZeroPage.InitrdGpa(zc, |m|, |zc.initrd.value|);
      hide ZeroPage.InitrdGpa;
      assert m'[gpa..gpa + |zc.initrd.value|] == m[gpa..gpa + |zc.initrd.value|];
    }
  }

  /** The initrd starts at or after the kernel's end. */
  lemma InitrdAbove(zc: ZeroPage.Config, size: nat, a: nat)
    requires ZeroPage.Accepts(zc, size) && ZeroPage.InInitrd(zc, size, a)
    ensures zc.kernelEnd <= a
  {
  }

  /* ---------------------------------------------------------------- */
  /* The sequence                                                      */
  /* ---------------------------------------------------------------- */

  /** MP table and ACPI tables. */
  method WriteFirmware(ram: Ram, cpus: nat) returns (ok: bool)
    requires ram.Valid() && ram.data.Length > LOW_LIMIT
    modifies ram, ram.data
    ensures ram.Valid() && ok == MpTable.Fits(cpus)
    ensures ok ==> FirmwareIn(ram.mem, cpus) && |ram.mem| == |old(ram.mem)|
    ensures ok ==> forall a :: 0 <= a < |ram.mem| && !FirmwareByte(a) ==> ram.mem[a] == old(ram.mem)[a]
  {
    hide MpTable.Region, AcpiTables.Image;
    ok := MpTable.Setup(ram, cpus);
    if !ok {
      return;
    }
    ghost var m := ram.mem;
    var rsdp;
    ok, rsdp := AcpiTables.Setup(ram, cpus);
    assert ram.mem[MpTable.MPTABLE..MpTable.MPTABLE + MpTable.MPTABLE_MAX]
        == m[MpTable.MPTABLE..MpTable.MPTABLE + MpTable.MPTABLE_MAX];
    assert ram.mem[AcpiTables.ACPI..AcpiTables.ACPI + AcpiTables.ACPI_MAX] == AcpiTables.Image(cpus);
  }

  /** Page tables, then the GDT and the registers. */
  method WriteTables(ram: Ram, entry: nat, kvm: bool) returns (ok: bool, cpu: Segments.CpuState)
    requires ram.Valid() && ram.data.Length > LOW_LIMIT
    modifies ram, ram.data
    ensures ram.Valid() && ok == kvm && Built(ram.mem, TABLES) && GdtIn(ram.mem) && |ram.mem| == |old(ram.mem)|
    ensures forall a :: 0 <= a < |ram.mem| && !TableByte(a) ==> ram.mem[a] == old(ram.mem)[a]
    ensures cpu == Segments.LongMode(TABLES, entry, 0x10, 0x18, 31, ZeroPage.BP)
    ensures ok ==> Segments.CacheAgrees(ram.mem, cpu, cpu.cs) && Segments.CacheAgrees(ram.mem, cpu, cpu.data)
  {
    hide Segments.Quads, Entries, Segments.SegFromDesc, Load;
    DefaultLayoutFits(GIB, Page2M, ram.data.Length);
    ghost var m := ram.mem;
    cpu := Segments.LongMode(TABLES, entry, 0x10, 0x18, 31, ZeroPage.BP);
    if !Validate(ram.data.Length, TABLES).Ok? {
      return false, cpu;
    }
    var r := BuildPageTable(ram, TABLES);
    ghost var m1 := ram.mem;
    ok, cpu := Segments.SetupLinux64(ram, TABLES, entry, ZeroPage.BP, kvm);
    BuiltSame(m1, ram.mem, TABLES);
  }

  /** What `boot_linux` asks for beyond a loadable kernel file. */
  predicate Bootable(k: Kernel, cmdline: seq<byte>, initrd: Option<seq<byte>>, cpus: nat, size: nat, kvm: bool)
    requires |k.hdr| == HDR_SIZE && k.hdrLen <= HDR_SIZE
  {
    k.lo >= LOW_LIMIT && MpTable.Fits(cpus) && ZeroPage.Accepts(ZeroConfig(k, cmdline, initrd), size) && kvm
  }

  /** `boot_linux` on a kernel file, a command line, an initrd and a CPU count.  It succeeds
      exactly on a loadable and bootable kernel, and then RAM holds all eight parts. */
  method Boot(ram: Ram, f: seq<byte>, cmdline: seq<byte>, initrd: Option<seq<byte>>, cpus: nat, kvm: bool)
    returns (ok: bool, k: Kernel, cpu: Segments.CpuState)
    requires ram.Valid() && ram.data.Length < TWO64
    modifies ram, ram.data
    ensures ram.Valid() && |ram.mem| == |old(ram.mem)|
    ensures KernelLoadable(f, ram.data.Length) ==> Describes(k, f) && |k.hdr| == HDR_SIZE && k.hdrLen <= HDR_SIZE
    ensures ok <==> KernelLoadable(f, ram.data.Length) && Bootable(k, cmdline, initrd, cpus, ram.data.Length, kvm)
    ensures ok ==> Booted(f, k, ZeroConfig(k, cmdline, initrd), cpus, old(ram.mem), ram.mem)
    ensures ok ==> cpu == Segments.LongMode(TABLES, k.entry, 0x10, 0x18, 31, ZeroPage.BP)
  {
    hide KernelPlaced, Describes, KernelLoadable, ZeroConfig, ZeroPage.Accepts, MpTable.Fits, FirmwareIn, Built, GdtIn;
    hide Booted, SameOutside, ZeroPage.ZeroPageIn, ZeroPage.InZeroPage, Segments.LongMode, Segments.CacheAgrees;
    cpu := Segments.LongMode(TABLES, 0, 0x10, 0x18, 31, ZeroPage.BP);
    var kernel := LoadKernel(ram, f);
    if kernel.None? {
      return false, Kernel(false, 0, 0, 0, Zeros(HDR_SIZE), 0), cpu;
    }
    k := kernel.value;
    KernelBounds(f, k, ram.data.Length);
    ghost var m1 := ram.mem;
    if k.lo < LOW_LIMIT {
      return false, k, cpu;
    }
    ok := WriteFirmware(ram, cpus);
    if !ok {
      return;
    }
    ghost var m2 := ram.mem;
    var zc := ZeroConfig(k, cmdline, initrd);
    ok := ZeroPage.Setup(ram, zc);
    if !ok {
      return;
    }
    ghost var m3 := ram.mem;
    ok, cpu := WriteTables(ram, k.entry, kvm);
    Composed(f, k, zc, cpus, old(ram.mem), m1, m2, m3, ram.mem);
  }

  /** Later writers keep what earlier ones wrote. */
  lemma Composed(f: seq<byte>, k: Kernel, zc: ZeroPage.Config, cpus: nat,
                 m0: seq<byte>, m1: seq<byte>, m2: seq<byte>, m3: seq<byte>, m4: seq<byte>)
    requires Describes(k, f) && KernelPlaced(f, m0, m1) && LOW_LIMIT <= k.lo < k.hi <= |m1| && zc.kernelEnd == k.hi
    requires FirmwareIn(m2, cpus) && |m2| == |m1|
    requires forall a :: 0 <= a < |m2| && !FirmwareByte(a) ==> m2[a] == m1[a]
    requires |m3| == |m2| && ZeroPage.ZeroPageIn(zc, m3)
    requires forall a :: 0 <= a < |m3| && !ZeroPage.InZeroPage(zc, |m3|, a) ==> m3[a] == m2[a]
    requires Built(m4, TABLES) && GdtIn(m4) && |m4| == |m3|
    requires forall a :: 0 <= a < |m4| && !TableByte(a) ==> m4[a] == m3[a]
    ensures Booted(f, k, zc, cpus, m0, m4)
  {
    hide KernelPlaced, Describes, KernelIn, FirmwareIn, Built, GdtIn, ZeroPage.Accepts, ZeroPage.PartsIn;
    KernelArrives(f, k, m0, m1);
    forall a: nat | ZeroPage.InInitrd(zc, |m3|, a) ensures k.hi <= a {
      InitrdAbove(zc, |m3|, a);
    }
    hide ZeroPage.InInitrd, ZeroPage.ZeroPageIn;
    KernelStays(f, k, m0, m1, m4);
    FirmwareStays(m2, m4, cpus);
    ZeroPageStays(zc, m3, m4);
  }

  /* ---------------------------------------------------------------- */
  /* What the guest finds                                              */
  /* ---------------------------------------------------------------- */

  /** Both descriptions of the machine check out and give the same topology: CPUs 0..n-1. */
  lemma FirmwareReads(m: seq<byte>, cpus: nat)
    requires FirmwareIn(m, cpus)
    ensures MpTable.Read(m) == Some(Firmware.Expected(cpus))
    ensures AcpiTables.Read(m, AcpiTables.ACPI) ==
            Some(AcpiTables.Acpi(Firmware.Expected(cpus), AcpiTables.Fadt(), AcpiTables.Dsdt()))
  {
    hide MpTable.Read, AcpiTables.Read, MpTable.Region, AcpiTables.Image, AcpiTables.Fadt, AcpiTables.Dsdt;
    hide AcpiTables.Holds;
    MpTable.ReadsBack(m, cpus);
    AcpiTables.ReadsBack(m, cpus);
  }

  lemma MappedBelowGib(m: seq<byte>, a: nat)
    requires Built(m, TABLES)
    ensures MapsToItself(m, TABLES.pml4, a) <==> a < GIB
  {
    hide Built, MapsToItself;
    DefaultLayoutFits(GIB, Page2M, |m|);
    MappedBelowSize(m, TABLES, a);
  }

  /** The clamp and the kernel check leave kernel and initrd below 1 GiB. */
  lemma BelowGib(k: Kernel, cmdline: seq<byte>, initrd: seq<byte>, size: nat)
    requires |k.hdr| == HDR_SIZE && k.hdrLen <= HDR_SIZE
    requires ZeroPage.Accepts(ZeroConfig(k, cmdline, Some(initrd)), size)
    ensures var gpa := ZeroPage.InitrdGpa(ZeroConfig(k, cmdline, Some(initrd)), size, |initrd|);
            k.hi <= gpa && gpa + |initrd| <= GIB && gpa + LARGE <= GIB
  {
    hide Load, ZeroPage.CmdlineFits;
  }

  /** The entry point is inside the kernel, or 0x200 past the load address of a bzImage. */
  lemma EntryNearKernel(f: seq<byte>, k: Kernel, size: nat)
    requires Describes(k, f) && KernelLoadable(f, size)
    ensures k.lo < k.hi && k.lo <= k.entry && (k.entry < k.hi || k.entry == k.lo + 0x200)
  {
    KernelBounds(f, k, size);
    if ElfMagic(f) {
      var ps := Phdrs(f);
      PhdrBounds(f);
      EntryIsLoaded(ps, Load(f, 24, 8));
      var p :| p in ps && Covers(p, k.entry);
    }
  }

  lemma GuestBelowGib(f: seq<byte>, k: Kernel, cmdline: seq<byte>, initrd: seq<byte>, size: nat, a: nat)
    requires KernelLoadable(f, size) && Describes(k, f) && |k.hdr| == HDR_SIZE && k.hdrLen <= HDR_SIZE
    requires ZeroPage.Accepts(ZeroConfig(k, cmdline, Some(initrd)), size)
    requires || a == k.entry || k.lo <= a < k.hi
             || ZeroPage.InZeroPage(ZeroConfig(k, cmdline, Some(initrd)), size, a)
    ensures a < GIB
  {
    EntryNearKernel(f, k, size);
    BelowGib(k, cmdline, initrd, size);
    hide Describes, KernelLoadable, ZeroConfig, ZeroPage.Accepts, ZeroPage.InitrdGpa;
  }

  /** Boot-protocol mapping: entry point, kernel range, boot_params, command line and every
      initrd byte translate to themselves when the first instruction runs. */
  lemma GuestMapping(f: seq<byte>, k: Kernel, cmdline: seq<byte>, initrd: seq<byte>, cpus: nat,
                     before: seq<byte>, m: seq<byte>, a: nat)
    requires KernelLoadable(f, |before|) && Describes(k, f) && |k.hdr| == HDR_SIZE && k.hdrLen <= HDR_SIZE
    requires Booted(f, k, ZeroConfig(k, cmdline, Some(initrd)), cpus, before, m)
    requires || a == k.entry || k.lo <= a < k.hi
             || ZeroPage.InZeroPage(ZeroConfig(k, cmdline, Some(initrd)), |m|, a)
    ensures MapsToItself(m, TABLES.pml4, a)
  {
    hide MapsToItself, Describes, KernelLoadable, KernelIn, FirmwareIn, Built, GdtIn, ZeroConfig;
    hide ZeroPage.Accepts, ZeroPage.PartsIn, ZeroPage.InZeroPage, Owned;
    GuestBelowGib(f, k, cmdline, initrd, |m|, a);
    MappedBelowGib(m, a);
  }

  /** Without an initrd nothing bounds the kernel: its range is mapped exactly when it ends
      within the first GiB. */
  lemma KernelMappedIff(m: seq<byte>, k: Kernel)
    requires Built(m, TABLES) && k.lo < k.hi
    ensures (forall a :: k.lo <= a < k.hi ==> MapsToItself(m, TABLES.pml4, a)) <==> k.hi <= GIB
  {
    hide MapsToItself, Built;
    forall a: nat | k.lo <= a < k.hi ensures MapsToItself(m, TABLES.pml4, a) <==> a < GIB {
      MappedBelowGib(m, a);
    }
    assert MapsToItself(m, TABLES.pml4, k.hi - 1) <==> k.hi <= GIB;
  }

  /** The kernel finds its boot_params, command line and initrd through RSI. */
  lemma GuestFinds(zc: ZeroPage.Config, m: seq<byte>)
    requires ZeroPage.ZeroPageIn(zc, m) && zc.rsdp == AcpiTables.ACPI
    ensures var p := m[ZeroPage.BP..ZeroPage.BP + ZeroPage.BP_SIZE];
            var cmd, image := Load(p, ZeroPage.CMD_LINE_PTR, 4), Load(p, ZeroPage.RAMDISK_IMAGE, 4);
            var size := Load(p, ZeroPage.RAMDISK_SIZE, 4);
            && Load(p, ZeroPage.ACPI_RSDP, 8) == AcpiTables.ACPI
            && cmd + |zc.cmdline| + 1 <= |m| && m[cmd..cmd + |zc.cmdline| + 1] == zc.cmdline + [0]
            && (zc.initrd.Some? ==> image + size <= |m| && m[image..image + size] == zc.initrd.value)
  {
    hide Load, ZeroPage.FinalPage, ZeroPage.InitrdGpa, ZeroPage.CmdlineFits;
    ZeroPage.LoaderFields(zc, |m|);
    if zc.initrd.Some? {
      ZeroPage.InitrdDescribed(zc, |m|);
    }
  }

  /** The setup header a bzImage kernel finds in boot_params, byte for byte: the file's own up
      to its length and zero beyond, with code32_start set to the load address and bit 0 of
      loadflags set, apart from the fields the loader owns. */
  lemma HeaderFromFile(f: seq<byte>, k: Kernel, cmdline: seq<byte>, initrd: Option<seq<byte>>, size: nat, i: nat)
    requires !ElfMagic(f) && Describes(k, f) && ZeroPage.Accepts(ZeroConfig(k, cmdline, initrd), size)
    requires HDR <= i < HDR_END && !ZeroPage.LoaderOwned(i)
    ensures var b: byte := if i - HDR >= HdrLen(f) then 0
                           else if CODE32_START <= i < CODE32_START + 4 then Le(LoadAddress(f), 4)[i - CODE32_START]
                           else f[i];
            ZeroPage.FinalPage(ZeroConfig(k, cmdline, initrd), size)[i] ==
            if i == LOADFLAGS then ZeroPage.SetLow(b) else b
  {
    hide Load, Le, ZeroPage.FinalPage, ZeroPage.Accepts, LoadAddress, HdrLen;
    ZeroPage.HeaderIsKernels(ZeroConfig(k, cmdline, initrd), size, i);
  }

  /* ---------------------------------------------------------------- */
  /* The conditions can be met                                         */
  /* ---------------------------------------------------------------- */

  /** A field stored at `off` and not overwritten reads back. */
  lemma FieldKept(m: seq<byte>, m': seq<byte>, off: nat, v: nat, n: nat)
    requires off + n <= |m| == |m'| && v < Pow256(n)
    requires forall k :: off <= k < off + n ==> m'[k] == Put(m, off, Le(v, n))[k]
    ensures Load(m', off, n) == v
  {
    LoadStored(m, off, v, n);
    LoadSame(Put(m, off, Le(v, n)), m', off, n);
  }

  /** The smallest vmlinux: one page of zeros at 1 MiB, entered at its start. */
  function SmallKernel(): (f: seq<byte>)
    ensures |f| == EHDR_SIZE + PHDR_SIZE
  {
    var f := Put(Zeros(120), 0, [0x7f, 0x45, 0x4c, 0x46, 2, 1]);
    var f := Put(Put(Put(f, 18, Le(62, 2)), 24, Le(LOW_LIMIT, 8)), 32, Le(EHDR_SIZE, 8));
    var f := Put(Put(Put(f, 54, Le(PHDR_SIZE, 2)), 56, Le(1, 2)), 64, Le(1, 4));
    Put(Put(Put(f, 80, Le(LOW_LIMIT, 8)), 88, Le(LOW_LIMIT, 8)), 104, Le(PAGE, 8))
  }

  lemma SmallKernelFields()
    ensures var f := SmallKernel();
            && f[..4] == [0x7f, 0x45, 0x4c, 0x46] && f[4] == 2 && f[5] == 1
            && Load(f, 18, 2) == 62 && Load(f, 24, 8) == LOW_LIMIT && Load(f, 32, 8) == EHDR_SIZE
            && Load(f, 54, 2) == PHDR_SIZE && Load(f, 56, 2) == 1
            && ParsePhdr(f, EHDR_SIZE) == Phdr(1, 0, LOW_LIMIT, LOW_LIMIT, 0, PAGE)
  {
    PowerValues();
    hide Load, Le;
    var f0 := Put(Zeros(120), 0, [0x7f, 0x45, 0x4c, 0x46, 2, 1]);
    var f1 := Put(f0, 18, Le(62, 2));
    var f2 := Put(f1, 24, Le(LOW_LIMIT, 8));
    var f3 := Put(f2, 32, Le(EHDR_SIZE, 8));
    var f4 := Put(f3, 54, Le(PHDR_SIZE, 2));
    var f5 := Put(f4, 56, Le(1, 2));
    var f6 := Put(f5, 64, Le(1, 4));
    var f7 := Put(f6, 80, Le(LOW_LIMIT, 8));
    var f8 := Put(f7, 88, Le(LOW_LIMIT, 8));
    var f := SmallKernel();
    FieldKept(f0, f, 18, 62, 2);
    FieldKept(f1, f, 24, LOW_LIMIT, 8);
    FieldKept(f2, f, 32, EHDR_SIZE, 8);
    FieldKept(f3, f, 54, PHDR_SIZE, 2);
    FieldKept(f4, f, 56, 1, 2);
    FieldKept(f5, f, 64, 1, 4);
    FieldKept(f6, f, 80, LOW_LIMIT, 8);
    FieldKept(f7, f, 88, LOW_LIMIT, 8);
    FieldKept(f8, f, 104, PAGE, 8);
    LoadZero(f, 72, 8);
    LoadZero(f, 96, 8);
  }

  /** What a successful boot asks for can be met: one CPU, 16 MiB, the smallest kernel and a
      one-byte initrd. */
  lemma SomeKernelBoots()
    ensures var f, size := SmallKernel(), 0x100_0000;
            var k := Kernel(false, LOW_LIMIT, LOW_LIMIT, LOW_LIMIT + PAGE, Zeros(HDR_SIZE), 0);
            KernelLoadable(f, size) && Describes(k, f) && Bootable(k, [], Some([0]), 1, size, true)
  {
    SmallKernelFields();
    hide Load, SmallKernel;
    var f := SmallKernel();
    var p := Phdr(1, 0, LOW_LIMIT, LOW_LIMIT, 0, PAGE);
    assert Phdrs(f) == [p];
    assert [p][0] in [p] && EntryOf([p], LOW_LIMIT) == Some(LOW_LIMIT);
  }
}
