/** boot_params, command line, E820 map and initrd placement (src/boot/zeropage.c). */
module ZeroPage {
  import opened Bytes
  import opened Common
  import opened BzImage
  import opened GuestRam

  const BP: nat := 0x7000
  const BP_SIZE: nat := 0x1000
  const CMDLINE: nat := 0x20000
  const CMDLINE_MAX: nat := 2048
  const EBDA: nat := 0x9fc00
  const HIGH_MEM: nat := 0x10_0000
  const MAX_RAM: nat := 0xC000_0000
  const DEFAULT_INITRD_MAX: nat := 0x37ff_ffff
  const INITRD_ALIGN: nat := 0x20_0000

  // Offsets in struct boot_params (Linux boot protocol, zero page and setup header).
  const ACPI_RSDP: nat := 0x70
  const EXT_RAMDISK_IMAGE: nat := 0xc0
  const EXT_RAMDISK_SIZE: nat := 0xc4
  const EXT_CMD_LINE_PTR: nat := 0xc8
  const E820_ENTRIES: nat := 0x1e8
  const BOOT_FLAG: nat := 0x1fe
  const HEADER_MAGIC: nat := 0x202
  const TYPE_OF_LOADER: nat := 0x210
  const RAMDISK_IMAGE: nat := 0x218
  const RAMDISK_SIZE: nat := 0x21c
  const CMD_LINE_PTR: nat := 0x228
  const CMDLINE_SIZE: nat := 0x238
  const E820_TABLE: nat := 0x2d0
  const E820_ENTRY: nat := 20

  /** `struct zp_config`.  The command line has no NUL; an empty `hdr` means vmlinux. */
  datatype Config = Config(cmdline: seq<byte>, initrd: Option<seq<byte>>, kernelEnd: nat, rsdp: nat,
                           hdr: seq<byte>, initrdMax: nat)

  type Page = s: seq<byte> | |s| == BP_SIZE witness Zeros(BP_SIZE)

  function SetLow(b: byte): byte {
    if b % 2 == 0 then b + 1 else b
  }

  /** The setup header as first placed: the kernel's own, or the forged one for vmlinux. */
  function HeaderStage(zc: Config): Page
    requires |zc.hdr| <= HDR_SIZE
  {
    if zc.hdr != [] then
      var p := Put(Zeros(BP_SIZE), HDR, zc.hdr);
      Put(p, LOADFLAGS, [SetLow(p[LOADFLAGS])])
    else
      var p := Put(Zeros(BP_SIZE), BOOT_FLAG, Le(0xAA55, 2));
      var p := Put(p, HEADER_MAGIC, Le(0x53726448, 4));
      var p := Put(p, VERSION, Le(0x020f, 2));
      var p := Put(p, LOADFLAGS, [1]);
      var p := Put(p, KERNEL_ALIGNMENT, Le(0x1000000, 4));
      Put(p, INITRD_ADDR_MAX, Le(DEFAULT_INITRD_MAX, 4))
  }

  function LoaderStage(zc: Config): Page
    requires |zc.hdr| <= HDR_SIZE
  {
    Put(Put(HeaderStage(zc), TYPE_OF_LOADER, [0xff]), ACPI_RSDP, Le(zc.rsdp, 8))
  }

  function CmdlineStage(zc: Config): Page
    requires |zc.hdr| <= HDR_SIZE
  {
    Put(Put(LoaderStage(zc), CMD_LINE_PTR, Le(CMDLINE, 4)), EXT_CMD_LINE_PTR, Le(0, 4))
  }

  /** `e820_add`: appends at the index held in e820_entries and increments it. */
  function E820Add(p: Page, addr: nat, size: nat, typ: nat): (r: Page)
    requires p[E820_ENTRIES] < 128
    ensures r[E820_ENTRIES] == p[E820_ENTRIES] + 1
  {
    Put(Put(p, E820_ENTRIES, [p[E820_ENTRIES] + 1]),
        E820_TABLE + E820_ENTRY * p[E820_ENTRIES] as int, Le(addr, 8) + Le(size, 8) + Le(typ, 4))
  }

  function MemoryMapStage(zc: Config, ram: nat): Page
    requires |zc.hdr| <= HDR_SIZE && ram > HIGH_MEM
  {
    E820CountZero(zc);
    var p := E820Add(CmdlineStage(zc), 0, EBDA, 1);
    var p := E820Add(p, EBDA, HIGH_MEM - EBDA, 2);
    E820Add(p, HIGH_MEM, ram - HIGH_MEM, 1)
  }

  lemma E820CountZero(zc: Config)
    requires |zc.hdr| <= HDR_SIZE
    ensures CmdlineStage(zc)[E820_ENTRIES] == 0
  {
  }

  function InitrdTop(zc: Config, ram: nat): nat {
    var limit := if zc.initrdMax != 0 then zc.initrdMax else DEFAULT_INITRD_MAX;
    var end := (limit + 1) % TWO64;
    if ram > end then end else ram
  }

  /** The highest 2 MiB boundary from which the initrd still ends at or below the limit. */
  function InitrdGpa(zc: Config, ram: nat, len: nat): nat
    requires len <= InitrdTop(zc, ram)
  {
    (InitrdTop(zc, ram) - len) / INITRD_ALIGN * INITRD_ALIGN
  }

  predicate InitrdFits(zc: Config, ram: nat, len: nat) {
    0 < len <= InitrdTop(zc, ram) && InitrdGpa(zc, ram, len) >= zc.kernelEnd
  }

  function PutInitrd(p: Page, gpa: nat, len: nat): Page {
    var p := Put(p, RAMDISK_IMAGE, Le(gpa, 4));
    var p := Put(p, RAMDISK_SIZE, Le(len, 4));
    var p := Put(p, EXT_RAMDISK_IMAGE, Le(gpa / TWO32, 4));
    Put(p, EXT_RAMDISK_SIZE, Le(len / TWO32, 4))
  }

  /** boot_params as the guest finds it. */
  function FinalPage(zc: Config, ram: nat): Page
    requires |zc.hdr| <= HDR_SIZE && ram > HIGH_MEM
    requires zc.initrd.Some? ==> |zc.initrd.value| <= InitrdTop(zc, ram)
  {
    var p := MemoryMapStage(zc, ram);
    if zc.initrd.None? then p
    else
      var len := |zc.initrd.value|;
      PutInitrd(p, InitrdGpa(zc, ram, len), len)
  }

  /** The kernel's own limit on the command line, honoured from protocol 2.06 on. */
  predicate CmdlineFits(zc: Config)
    requires |zc.hdr| <= HDR_SIZE
  {
    && |zc.cmdline| + 1 <= CMDLINE_MAX
    && (zc.hdr != [] && Load(LoaderStage(zc), VERSION, 2) >= 0x0206 ==>
          |zc.cmdline| <= Load(LoaderStage(zc), CMDLINE_SIZE, 4))
  }

  /** What `zeropage_setup` accepts. */
  predicate Accepts(zc: Config, ram: nat) {
    && HIGH_MEM < ram <= MAX_RAM && |zc.hdr| <= HDR_SIZE && CmdlineFits(zc)
    && (zc.initrd.Some? ==> InitrdFits(zc, ram, |zc.initrd.value|))
  }

  /* ---------------------------------------------------------------- */
  /* The writer                                                        */
  /* ---------------------------------------------------------------- */

  function BootParams(m: seq<byte>): Page
    requires BP + BP_SIZE <= |m|
  {
    m[BP..BP + BP_SIZE]
  }

  /** A store into one field of boot_params. */
  method SetField(ram: Ram, off: nat, d: seq<byte>)
    requires ram.Valid() && BP + BP_SIZE <= ram.data.Length && off + |d| <= BP_SIZE
    modifies ram, ram.data
    ensures ram.Valid() && SameOutside(old(ram.mem), ram.mem, BP, BP + BP_SIZE)
    ensures BootParams(ram.mem) == Put(BootParams(old(ram.mem)), off, d)
  {
    ram.Copy(BP + off, d);
  }

  method AddE820(ram: Ram, addr: nat, size: nat, typ: nat)
    requires ram.Valid() && BP + BP_SIZE <= ram.data.Length && BootParams(ram.mem)[E820_ENTRIES] < 128
    modifies ram, ram.data
    ensures ram.Valid() && SameOutside(old(ram.mem), ram.mem, BP, BP + BP_SIZE)
    ensures BootParams(ram.mem) == E820Add(BootParams(old(ram.mem)), addr, size, typ)
  {
    var n := ram.data[BP + E820_ENTRIES];
    SetField(ram, E820_ENTRIES, [n + 1]);
    SetField(ram, E820_TABLE + E820_ENTRY * n as int, Le(addr, 8) + Le(size, 8) + Le(typ, 4));
  }

  method WriteHeader(ram: Ram, zc: Config)
    requires ram.Valid() && BP + BP_SIZE <= ram.data.Length && |zc.hdr| <= HDR_SIZE
    modifies ram, ram.data
    ensures ram.Valid() && SameOutside(old(ram.mem), ram.mem, BP, BP + BP_SIZE)
    ensures BootParams(ram.mem) == LoaderStage(zc)
  {
    ram.Clear(BP, BP_SIZE);
    assert BootParams(ram.mem) == Zeros(BP_SIZE);
    if zc.hdr != [] {
      SetField(ram, HDR, zc.hdr);
      var flags := ram.data[BP + LOADFLAGS];
      SetField(ram, LOADFLAGS, [SetLow(flags)]);
    } else {
      SetField(ram, BOOT_FLAG, Le(0xAA55, 2));
      SetField(ram, HEADER_MAGIC, Le(0x53726448, 4));
      SetField(ram, VERSION, Le(0x020f, 2));
      SetField(ram, LOADFLAGS, [1]);
      SetField(ram, KERNEL_ALIGNMENT, Le(0x1000000, 4));
      SetField(ram, INITRD_ADDR_MAX, Le(DEFAULT_INITRD_MAX, 4));
    }
    SetField(ram, TYPE_OF_LOADER, [0xff]);
    SetField(ram, ACPI_RSDP, Le(zc.rsdp, 8));
  }

  /** An initrd placed at `gpa` does not reach boot_params or the command line. */
  predicate ApartFromParts(gpa: nat, len: nat) {
    gpa > 0 || len <= BP
  }

  predicate InitrdApart(zc: Config, ram: nat) {
    zc.initrd.Some? ==>
      && |zc.initrd.value| <= InitrdTop(zc, ram)
      && ApartFromParts(InitrdGpa(zc, ram, |zc.initrd.value|), |zc.initrd.value|)
  }

  /** `load_initrd`. */
  method LoadInitrd(ram: Ram, zc: Config, file: seq<byte>) returns (ok: bool)
    requires ram.Valid() && HIGH_MEM < ram.data.Length <= MAX_RAM
    modifies ram, ram.data
    ensures ram.Valid() && |ram.mem| == |old(ram.mem)| && ok == InitrdFits(zc, ram.data.Length, |file|)
    ensures ok ==>
              var gpa := InitrdGpa(zc, ram.data.Length, |file|);
              && gpa + |file| <= |ram.mem| && SameOutsideBoth(old(ram.mem), ram.mem, gpa, |file|)
              && (ApartFromParts(gpa, |file|) ==>
                    && ram.mem[gpa..gpa + |file|] == file
                    && BootParams(ram.mem) == PutInitrd(BootParams(old(ram.mem)), gpa, |file|))
  {
    hide Le, Put, PutInitrd;
    var len := |file|;
    var top := InitrdTop(zc, ram.data.Length);
    if len > top {
      return false;
    }
    var gpa := (top - len) / INITRD_ALIGN * INITRD_ALIGN;
    if gpa < zc.kernelEnd || len == 0 {
      return false;
    }
    AboveLowMemory(top - len);
    hide InitrdTop;
    ram.Copy(gpa, file);
    ghost var loaded := ram.mem;
    StoreInitrdFields(ram, gpa, len);
    if ApartFromParts(gpa, len) {
      Apart(old(ram.mem), loaded, ram.mem, gpa, file);
    }
    ok := true;
  }

  /** The initrd and the fields that describe it do not meet. */
  lemma Apart(m: seq<byte>, loaded: seq<byte>, m': seq<byte>, gpa: nat, file: seq<byte>)
    requires (HIGH_MEM <= gpa || gpa + |file| <= BP) && gpa + |file| <= |m| && loaded == Put(m, gpa, file)
    requires BP + BP_SIZE <= |m|
    requires SameOutside(loaded, m', BP, BP + BP_SIZE)
    ensures BootParams(loaded) == BootParams(m) && m'[gpa..gpa + |file|] == file
  {
    assert loaded[gpa..gpa + |file|] == file;
    assert m'[gpa..gpa + |file|] == loaded[gpa..gpa + |file|];
  }

  /** A 2 MiB boundary other than 0 is above everything else the setup writes. */
  lemma AboveLowMemory(x: nat)
    ensures x / INITRD_ALIGN * INITRD_ALIGN <= x
    ensures x / INITRD_ALIGN * INITRD_ALIGN > 0 ==> x / INITRD_ALIGN * INITRD_ALIGN >= HIGH_MEM
  {
  }

  method StoreInitrdFields(ram: Ram, gpa: nat, len: nat)
    requires ram.Valid() && BP + BP_SIZE <= ram.data.Length
    modifies ram, ram.data
    ensures ram.Valid() && SameOutside(old(ram.mem), ram.mem, BP, BP + BP_SIZE)
    ensures BootParams(ram.mem) == PutInitrd(BootParams(old(ram.mem)), gpa, len)
  {
    SetField(ram, RAMDISK_IMAGE, Le(gpa, 4));
    SetField(ram, RAMDISK_SIZE, Le(len, 4));
    SetField(ram, EXT_RAMDISK_IMAGE, Le(gpa / TWO32, 4));
    SetField(ram, EXT_RAMDISK_SIZE, Le(len / TWO32, 4));
  }

  /** Unchanged outside boot_params and the initrd. */
  ghost predicate SameOutsideBoth(m: seq<byte>, m': seq<byte>, gpa: nat, len: nat) {
    |m'| == |m| && forall a :: 0 <= a < |m| && !(BP <= a < BP + BP_SIZE) && !(gpa <= a < gpa + len) ==> m'[a] == m[a]
  }

  /** The command line and its pointers. */
  method WriteCmdline(ram: Ram, zc: Config)
    requires ram.Valid() && HIGH_MEM < ram.data.Length && |zc.hdr| <= HDR_SIZE && |zc.cmdline| < CMDLINE_MAX
    requires BootParams(ram.mem) == LoaderStage(zc)
    modifies ram, ram.data
    ensures ram.Valid() && SameOutsideBoth(old(ram.mem), ram.mem, CMDLINE, |zc.cmdline| + 1)
    ensures BootParams(ram.mem) == CmdlineStage(zc) && CmdlineIn(zc, ram.mem)
  {
    ram.Copy(CMDLINE, zc.cmdline + [0]);
    assert BootParams(ram.mem) == LoaderStage(zc);
    assert CmdlineIn(zc, ram.mem);
    ghost var m := ram.mem;
    SetField(ram, CMD_LINE_PTR, Le(CMDLINE, 4));
    SetField(ram, EXT_CMD_LINE_PTR, Le(0, 4));
    CmdlineStays(zc, m, ram.mem);
  }

  /** The NUL-terminated command line is in memory. */
  ghost predicate CmdlineIn(zc: Config, m: seq<byte>) {
    CMDLINE + |zc.cmdline| + 1 <= |m| && m[CMDLINE..CMDLINE + |zc.cmdline| + 1] == zc.cmdline + [0]
  }

  lemma CmdlineStays(zc: Config, m: seq<byte>, m': seq<byte>)
    requires CmdlineIn(zc, m) && |m'| == |m|
    requires forall a :: CMDLINE <= a < CMDLINE + |zc.cmdline| + 1 ==> m'[a] == m[a]
    ensures CmdlineIn(zc, m')
  {
    assert m'[CMDLINE..CMDLINE + |zc.cmdline| + 1] == m[CMDLINE..CMDLINE + |zc.cmdline| + 1];
  }

  /** The three E820 entries. */
  method WriteMap(ram: Ram, zc: Config)
    requires ram.Valid() && HIGH_MEM < ram.data.Length && |zc.hdr| <= HDR_SIZE && |zc.cmdline| < CMDLINE_MAX
    requires BootParams(ram.mem) == CmdlineStage(zc) && CmdlineIn(zc, ram.mem)
    modifies ram, ram.data
    ensures ram.Valid() && SameOutside(old(ram.mem), ram.mem, BP, BP + BP_SIZE)
    ensures BootParams(ram.mem) == MemoryMapStage(zc, ram.data.Length) && CmdlineIn(zc, ram.mem)
  {
    hide Le, LoaderStage, HeaderStage;
    ghost var m := ram.mem;
    E820CountZero(zc);
    AddE820(ram, 0, EBDA, 1);
    AddE820(ram, EBDA, HIGH_MEM - EBDA, 2);
    AddE820(ram, HIGH_MEM, ram.data.Length - HIGH_MEM, 1);
    CmdlineStays(zc, m, ram.mem);
  }

  /** The last step: the initrd, if there is one. */
  method FinishInitrd(ram: Ram, zc: Config) returns (ok: bool)
    requires ram.Valid() && HIGH_MEM < ram.data.Length <= MAX_RAM
    requires |zc.hdr| <= HDR_SIZE && |zc.cmdline| < CMDLINE_MAX
    requires BootParams(ram.mem) == MemoryMapStage(zc, |ram.mem|)
    requires CmdlineIn(zc, ram.mem)
    modifies ram, ram.data
    ensures ram.Valid() && |ram.mem| == |old(ram.mem)|
    ensures ok <==> (zc.initrd.Some? ==> InitrdFits(zc, |ram.mem|, |zc.initrd.value|))
    ensures ok && InitrdApart(zc, |ram.mem|) ==> PartsIn(zc, ram.mem)
    ensures ok ==> forall a :: 0 <= a < |ram.mem| && !InZeroPage(zc, |ram.mem|, a) ==> ram.mem[a] == old(ram.mem)[a]
  {
    hide InitrdTop, MemoryMapStage, PutInitrd;
    ok := true;
    if zc.initrd.Some? {
      ghost var m := ram.mem;
      if |zc.initrd.value| <= InitrdTop(zc, ram.data.Length) {
        AboveLowMemory(InitrdTop(zc, ram.data.Length) - |zc.initrd.value|);
      }
      ok := LoadInitrd(ram, zc, zc.initrd.value);
      if ok && InitrdApart(zc, |ram.mem|) {
        CmdlineStays(zc, m, ram.mem);
      }
    }
  }

  /** boot_params, command line and initrd are in place. */
  ghost predicate PartsIn(zc: Config, m: seq<byte>)
    requires |zc.hdr| <= HDR_SIZE && |zc.cmdline| < CMDLINE_MAX && |m| > HIGH_MEM
    requires zc.initrd.Some? ==> InitrdFits(zc, |m|, |zc.initrd.value|)
  {
    && BootParams(m) == FinalPage(zc, |m|)
    && CmdlineIn(zc, m)
    && (zc.initrd.Some? ==>
          var gpa := InitrdGpa(zc, |m|, |zc.initrd.value|);
          gpa + |zc.initrd.value| <= |m| && m[gpa..gpa + |zc.initrd.value|] == zc.initrd.value)
  }

  /** Where the parts of the zero-page setup are, in memory `m`. */
  ghost predicate ZeroPageIn(zc: Config, m: seq<byte>) {
    Accepts(zc, |m|) && PartsIn(zc, m)
  }

  predicate InInitrd(zc: Config, ram: nat, a: nat) {
    zc.initrd.Some? && |zc.initrd.value| <= InitrdTop(zc, ram)
    && InitrdGpa(zc, ram, |zc.initrd.value|) <= a < InitrdGpa(zc, ram, |zc.initrd.value|) + |zc.initrd.value|
  }

  predicate InZeroPage(zc: Config, ram: nat, a: nat) {
    BP <= a < BP + BP_SIZE || CMDLINE <= a < CMDLINE + CMDLINE_MAX || InInitrd(zc, ram, a)
  }

  /** `zeropage_setup`: succeeds exactly on `Accepts`, touches nothing but its parts, and puts
      every part in place unless the initrd lands on the others: that takes an initrd at
      address 0, which no kernel end above 0 leaves room for. */
  method Setup(ram: Ram, zc: Config) returns (ok: bool)
    requires ram.Valid()
    modifies ram, ram.data
    ensures ram.Valid() && |ram.mem| == |old(ram.mem)| && ok == Accepts(zc, ram.data.Length)
    ensures ok && InitrdApart(zc, |ram.mem|) ==> ZeroPageIn(zc, ram.mem)
    ensures ok && zc.kernelEnd > 0 ==> InitrdApart(zc, |ram.mem|)
    ensures ok ==> forall a :: 0 <= a < |ram.mem| && !InZeroPage(zc, |ram.mem|, a) ==> ram.mem[a] == old(ram.mem)[a]
  {
    hide LoaderStage, MemoryMapStage, FinalPage, Load, InitrdFits;
    if ram.data.Length <= HIGH_MEM || ram.data.Length > MAX_RAM {
      return false;
    }
    if |zc.hdr| > HDR_SIZE {
      return false;
    }
    WriteHeader(ram, zc);
    if |zc.cmdline| + 1 > CMDLINE_MAX {
      return false;
    }
    var version := ram.Fetch(BP + VERSION, 2);
    var accepted := ram.Fetch(BP + CMDLINE_SIZE, 4);
    FieldOfPage(ram.mem, VERSION, 2);
    FieldOfPage(ram.mem, CMDLINE_SIZE, 4);
    if zc.hdr != [] && version >= 0x0206 && |zc.cmdline| > accepted {
      return false;
    }
    WriteCmdline(ram, zc);
    WriteMap(ram, zc);
    ok := FinishInitrd(ram, zc);
    if ok && zc.kernelEnd > 0 {
      KernelKeepsApart(zc, ram.data.Length);
    }
  }

  lemma KernelKeepsApart(zc: Config, ram: nat)
    requires zc.kernelEnd > 0 && (zc.initrd.Some? ==> InitrdFits(zc, ram, |zc.initrd.value|))
    ensures InitrdApart(zc, ram)
  {
    hide InitrdTop, InitrdGpa;
  }

  lemma FieldOfPage(m: seq<byte>, off: nat, n: nat)
    requires BP + BP_SIZE <= |m| && off + n <= BP_SIZE
    ensures Load(m, BP + off, n) == Load(BootParams(m), off, n)
  {
    SubSlice(m, BP, BP_SIZE, off, n);
  }

  /* ---------------------------------------------------------------- */
  /* What the guest reads                                              */
  /* ---------------------------------------------------------------- */

  /** Header bytes that belong to the loader: loadflags (bit 0 only), type_of_loader,
      ramdisk_image, ramdisk_size and cmd_line_ptr. */
  predicate LoaderOwned(k: nat) {
    k == TYPE_OF_LOADER || RAMDISK_IMAGE <= k < RAMDISK_SIZE + 4 || CMD_LINE_PTR <= k < CMD_LINE_PTR + 4
  }

  /** The final setup header is the kernel's header below its length and zero above it,
      apart from the loader-owned fields. */
  lemma HeaderIsKernels(zc: Config, ram: nat, k: nat)
    requires Accepts(zc, ram) && zc.hdr != [] && HDR <= k < HDR_END && !LoaderOwned(k)
    ensures var b: byte := if k - HDR < |zc.hdr| then zc.hdr[k - HDR] else 0;
            FinalPage(zc, ram)[k] == if k == LOADFLAGS then SetLow(b) else b
  {
    var s := HeaderStage(zc);
    var b: byte := if k - HDR < |zc.hdr| then zc.hdr[k - HDR] else 0;
    assert s[k] == if k == LOADFLAGS then SetLow(b) else b;
    E820CountZero(zc);
  }

  lemma E820Keeps(p: Page, addr: nat, size: nat, typ: nat, k: nat)
    requires p[E820_ENTRIES] < 128 && k < E820_TABLE && k != E820_ENTRIES
    ensures E820Add(p, addr, size, typ)[k] == p[k]
  {
  }

  predicate RamdiskField(k: nat) {
    RAMDISK_IMAGE <= k < RAMDISK_SIZE + 4 || EXT_RAMDISK_IMAGE <= k < EXT_RAMDISK_SIZE + 4
  }

  /** The E820 entries and the initrd leave the other fields alone. */
  lemma LaterStagesKeep(zc: Config, ram: nat, k: nat)
    requires Accepts(zc, ram) && k < E820_TABLE && k != E820_ENTRIES && !RamdiskField(k)
    ensures FinalPage(zc, ram)[k] == CmdlineStage(zc)[k]
  {
    E820CountZero(zc);
    var p0 := CmdlineStage(zc);
    var p1 := E820Add(p0, 0, EBDA, 1);
    var p2 := E820Add(p1, EBDA, HIGH_MEM - EBDA, 2);
    E820Keeps(p0, 0, EBDA, 1, k);
    E820Keeps(p1, EBDA, HIGH_MEM - EBDA, 2, k);
    E820Keeps(p2, HIGH_MEM, ram - HIGH_MEM, 1, k);
  }

  lemma FieldStored(p: Page, p': Page, off: nat, v: nat, n: nat)
    requires off + n <= BP_SIZE && v < Pow256(n)
    requires forall k :: off <= k < off + n ==> p'[k] == Put(p, off, Le(v, n))[k]
    ensures Load(p', off, n) == v
  {
    LoadStored(p, off, v, n);
    LoadSame(Put(p, off, Le(v, n)), p', off, n);
  }

  lemma CmdlineFields(zc: Config)
    requires |zc.hdr| <= HDR_SIZE && zc.rsdp < TWO64
    ensures var p := CmdlineStage(zc);
            && p[TYPE_OF_LOADER] == 0xff && p[LOADFLAGS] % 2 == 1
            && Load(p, CMD_LINE_PTR, 4) == CMDLINE && Load(p, EXT_CMD_LINE_PTR, 4) == 0
            && Load(p, ACPI_RSDP, 8) == zc.rsdp
  {
    PowerValues();
    var p0 := Put(HeaderStage(zc), TYPE_OF_LOADER, [0xff]);
    var p1 := LoaderStage(zc);
    var p2 := Put(p1, CMD_LINE_PTR, Le(CMDLINE, 4));
    var p3 := CmdlineStage(zc);
    FieldStored(p0, p3, ACPI_RSDP, zc.rsdp, 8);
    FieldStored(p1, p3, CMD_LINE_PTR, CMDLINE, 4);
    FieldStored(p2, p3, EXT_CMD_LINE_PTR, 0, 4);
    assert HeaderStage(zc)[LOADFLAGS] % 2 == 1;
  }

  /** The loader-owned fields and the ACPI pointer hold what the boot protocol asks for. */
  lemma LoaderFields(zc: Config, ram: nat)
    requires Accepts(zc, ram) && zc.rsdp < TWO64
    ensures var p := FinalPage(zc, ram);
            && p[TYPE_OF_LOADER] == 0xff && p[LOADFLAGS] % 2 == 1
            && Load(p, CMD_LINE_PTR, 4) == CMDLINE && Load(p, EXT_CMD_LINE_PTR, 4) == 0
            && Load(p, ACPI_RSDP, 8) == zc.rsdp
  {
    CmdlineFields(zc);
    var p, c := FinalPage(zc, ram), CmdlineStage(zc);
    forall k: nat | k < E820_TABLE && k != E820_ENTRIES && !RamdiskField(k) ensures p[k] == c[k] {
      LaterStagesKeep(zc, ram, k);
    }
    LoadSame(c, p, CMD_LINE_PTR, 4);
    LoadSame(c, p, EXT_CMD_LINE_PTR, 4);
    LoadSame(c, p, ACPI_RSDP, 8);
  }

  /** A vmlinux gets a header a boot-protocol reader accepts: signatures, protocol 2.15,
      loaded high, and the default alignment and initrd limit. */
  lemma ForgedHeader(zc: Config, ram: nat)
    requires Accepts(zc, ram) && zc.hdr == []
    ensures var p := FinalPage(zc, ram);
            && Load(p, BOOT_FLAG, 2) == 0xAA55 && Load(p, HEADER_MAGIC, 4) == 0x53726448
            && Load(p, VERSION, 2) == 0x020f && p[LOADFLAGS] == 1
            && Load(p, KERNEL_ALIGNMENT, 4) == 0x1000000 && Load(p, INITRD_ADDR_MAX, 4) == DEFAULT_INITRD_MAX
  {
    ForgedStage(zc);
    hide Load, HeaderStage, FinalPage, Accepts;
    FieldForged(zc, ram, BOOT_FLAG, 2);
    FieldForged(zc, ram, HEADER_MAGIC, 4);
    FieldForged(zc, ram, VERSION, 2);
    HeaderKept(zc, ram, LOADFLAGS);
    FieldForged(zc, ram, KERNEL_ALIGNMENT, 4);
    FieldForged(zc, ram, INITRD_ADDR_MAX, 4);
  }

  lemma FieldForged(zc: Config, ram: nat, off: nat, n: nat)
    requires Accepts(zc, ram) && BOOT_FLAG <= off && off + n <= HDR_END
    requires forall k :: off <= k < off + n ==> !LoaderOwned(k)
    ensures Load(FinalPage(zc, ram), off, n) == Load(HeaderStage(zc), off, n)
  {
    hide Load, HeaderStage, FinalPage, CmdlineFits, LoaderOwned;
    forall k: nat | off <= k < off + n ensures FinalPage(zc, ram)[k] == HeaderStage(zc)[k] {
      HeaderKept(zc, ram, k);
    }
    LoadSame(HeaderStage(zc), FinalPage(zc, ram), off, n);
  }

  lemma HeaderKept(zc: Config, ram: nat, k: nat)
    requires Accepts(zc, ram) && BOOT_FLAG <= k < HDR_END && !LoaderOwned(k)
    ensures FinalPage(zc, ram)[k] == HeaderStage(zc)[k]
  {
    hide HeaderStage, FinalPage, Le;
    LaterStagesKeep(zc, ram, k);
  }

  lemma ForgedStage(zc: Config)
    requires zc.hdr == []
    ensures var p := HeaderStage(zc);
            && Load(p, BOOT_FLAG, 2) == 0xAA55 && Load(p, HEADER_MAGIC, 4) == 0x53726448
            && Load(p, VERSION, 2) == 0x020f && p[LOADFLAGS] == 1
            && Load(p, KERNEL_ALIGNMENT, 4) == 0x1000000 && Load(p, INITRD_ADDR_MAX, 4) == DEFAULT_INITRD_MAX
  {
    PowerValues();
    hide Load, Le;
    var p0 := Zeros(BP_SIZE);
    var p1 := Put(p0, BOOT_FLAG, Le(0xAA55, 2));
    var p2 := Put(p1, HEADER_MAGIC, Le(0x53726448, 4));
    var p3 := Put(Put(p2, VERSION, Le(0x020f, 2)), LOADFLAGS, [1]);
    var p4 := Put(p3, KERNEL_ALIGNMENT, Le(0x1000000, 4));
    var p := HeaderStage(zc);
    FieldStored(p0, p, BOOT_FLAG, 0xAA55, 2);
    FieldStored(p1, p, HEADER_MAGIC, 0x53726448, 4);
    FieldStored(p2, p, VERSION, 0x020f, 2);
    FieldStored(p3, p, KERNEL_ALIGNMENT, 0x1000000, 4);
    FieldStored(p4, p, INITRD_ADDR_MAX, DEFAULT_INITRD_MAX, 4);
  }

  /** The guest finds the initrd where it was put, the upper halves of both fields zero. */
  lemma InitrdFields(p: Page, gpa: nat, len: nat)
    requires gpa < TWO32 && len < TWO32
    ensures var q := PutInitrd(p, gpa, len);
            && Load(q, RAMDISK_IMAGE, 4) == gpa && Load(q, EXT_RAMDISK_IMAGE, 4) == 0
            && Load(q, RAMDISK_SIZE, 4) == len && Load(q, EXT_RAMDISK_SIZE, 4) == 0
  {
    PowerValues();
    var p1 := Put(p, RAMDISK_IMAGE, Le(gpa, 4));
    var p2 := Put(p1, RAMDISK_SIZE, Le(len, 4));
    var p3 := Put(p2, EXT_RAMDISK_IMAGE, Le(0, 4));
    var p4 := Put(p3, EXT_RAMDISK_SIZE, Le(0, 4));
    FieldStored(p, p4, RAMDISK_IMAGE, gpa, 4);
    FieldStored(p1, p4, RAMDISK_SIZE, len, 4);
    FieldStored(p2, p4, EXT_RAMDISK_IMAGE, 0, 4);
    FieldStored(p3, p4, EXT_RAMDISK_SIZE, 0, 4);
  }

  /** So the initrd the final page describes is the one in memory. */
  lemma InitrdDescribed(zc: Config, ram: nat)
    requires Accepts(zc, ram) && zc.initrd.Some?
    ensures var p := FinalPage(zc, ram);
            && Load(p, RAMDISK_IMAGE, 4) == InitrdGpa(zc, ram, |zc.initrd.value|)
            && Load(p, RAMDISK_SIZE, 4) == |zc.initrd.value|
            && Load(p, EXT_RAMDISK_IMAGE, 4) == 0 && Load(p, EXT_RAMDISK_SIZE, 4) == 0
  {
    InitrdFields(MemoryMapStage(zc, ram), InitrdGpa(zc, ram, |zc.initrd.value|), |zc.initrd.value|);
  }

  datatype E820 = E820(addr: nat, size: nat, typ: nat)

  function E820At(p: Page, i: nat): E820
    requires i < 128
  {
    var at := E820_TABLE + E820_ENTRY * i;
    E820(Load(p, at, 8), Load(p, at + 8, 8), Load(p, at + 16, 4))
  }

  /** The memory map the guest reads: exactly three entries that tile [0, ram) without gap
      or overlap, with only the legacy hole [0x9fc00, 1 MiB) reserved. */
  lemma MemoryMap(zc: Config, ram: nat)
    requires Accepts(zc, ram)
    ensures var p := FinalPage(zc, ram);
            && p[E820_ENTRIES] == 3
            && E820At(p, 0) == E820(0, EBDA, 1)
            && E820At(p, 1) == E820(EBDA, HIGH_MEM - EBDA, 2)
            && E820At(p, 2) == E820(HIGH_MEM, ram - HIGH_MEM, 1)
  {
    hide Le, Load;
    E820CountZero(zc);
    var p0 := CmdlineStage(zc);
    var p1 := E820Add(p0, 0, EBDA, 1);
    var p2 := E820Add(p1, EBDA, HIGH_MEM - EBDA, 2);
    var p3 := E820Add(p2, HIGH_MEM, ram - HIGH_MEM, 1);
    E820Added(p0, 0, EBDA, 1);
    E820Added(p1, EBDA, HIGH_MEM - EBDA, 2);
    E820Added(p2, HIGH_MEM, ram - HIGH_MEM, 1);
    E820Kept(p1, p2, 0);
    E820Kept(p2, p3, 0);
    E820Kept(p2, p3, 1);
    var p := FinalPage(zc, ram);
    E820Kept(p3, p, 0);
    E820Kept(p3, p, 1);
    E820Kept(p3, p, 2);
  }

  lemma EntryBytes(addr: nat, size: nat, typ: nat)
    requires addr < TWO64 && size < TWO64 && typ < TWO32
    ensures var d := Le(addr, 8) + Le(size, 8) + Le(typ, 4);
            FromLe(d[..8]) == addr && FromLe(d[8..16]) == size && FromLe(d[16..20]) == typ
  {
    var d := Le(addr, 8) + Le(size, 8) + Le(typ, 4);
    assert d[..8] == Le(addr, 8) && d[8..16] == Le(size, 8) && d[16..20] == Le(typ, 4);
    PowerValues();
    FromLeOfLe(addr, 8);
    FromLeOfLe(size, 8);
    FromLeOfLe(typ, 4);
  }

  lemma EntryAt(p: Page, at: nat, d: seq<byte>)
    requires |d| == E820_ENTRY && at + E820_ENTRY <= BP_SIZE && forall k :: 0 <= k < E820_ENTRY ==> p[at + k] == d[k]
    ensures p[at..at + 8] == d[..8] && p[at + 8..at + 16] == d[8..16] && p[at + 16..at + 20] == d[16..20]
  {
  }

  lemma E820Added(p: Page, addr: nat, size: nat, typ: nat)
    requires p[E820_ENTRIES] < 128 && addr < TWO64 && size < TWO64 && typ < TWO32
    ensures var p' := E820Add(p, addr, size, typ);
            p'[E820_ENTRIES] == p[E820_ENTRIES] + 1 && E820At(p', p[E820_ENTRIES] as nat) == E820(addr, size, typ)
  {
    hide Le, FromLe;
    EntryBytes(addr, size, typ);
    EntryAt(E820Add(p, addr, size, typ), E820_TABLE + E820_ENTRY * p[E820_ENTRIES] as int,
            Le(addr, 8) + Le(size, 8) + Le(typ, 4));
  }

  lemma E820Kept(p: Page, p': Page, i: nat)
    requires i < 128
    requires forall k :: E820_TABLE + E820_ENTRY * i <= k < E820_TABLE + E820_ENTRY * i + E820_ENTRY ==> p'[k] == p[k]
    ensures E820At(p', i) == E820At(p, i)
  {
    var at := E820_TABLE + E820_ENTRY * i;
    LoadSame(p, p', at, 8);
    LoadSame(p, p', at + 8, 8);
    LoadSame(p, p', at + 16, 4);
  }

  /** The initrd ends at or below both the RAM end and the limit, on a 2 MiB boundary, and
      no higher boundary would do. */
  lemma InitrdIsHighest(zc: Config, ram: nat, len: nat, other: nat)
    requires InitrdFits(zc, ram, len) && zc.initrdMax < TWO64 - 1
    ensures var gpa := InitrdGpa(zc, ram, len);
            var limit := if zc.initrdMax != 0 then zc.initrdMax else DEFAULT_INITRD_MAX;
            && gpa % INITRD_ALIGN == 0 && gpa + len <= ram && gpa + len - 1 <= limit && zc.kernelEnd <= gpa
            && (other % INITRD_ALIGN == 0 && other + len <= ram && other + len - 1 <= limit ==> other <= gpa)
  {
  }

  /** A header handed over by `bzimage_load` always passes the length check. */
  lemma BzHeaderAccepted(k: Kernel, f: seq<byte>)
    requires Describes(k, f)
    ensures |k.hdr| == HDR_SIZE && k.hdrLen <= HDR_SIZE && (k.bzImage <==> k.hdrLen > 0)
  {
  }
}
