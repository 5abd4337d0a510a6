/** Loading a bzImage by the 64-bit boot protocol (src/boot/bzimage.c), and choosing the
    kernel format by file header (src/boot/kernel_loader.c). */
module BzImage {
  import opened Bytes
  import opened Common
  import opened ElfLoader
  import opened GuestRam

  // The setup header occupies the same offsets in the file and in boot_params.
  const HDR: nat := 0x1f1
  const HDR_SIZE: nat := 0x7b
  const HDR_END: nat := 0x26c

  const SETUP_SECTS: nat := 0x1f1
  const SYSSIZE: nat := 0x1f4
  const VERSION: nat := 0x206
  const LOADFLAGS: nat := 0x211
  const CODE32_START: nat := 0x214
  const INITRD_ADDR_MAX: nat := 0x22c
  const KERNEL_ALIGNMENT: nat := 0x230
  const RELOCATABLE: nat := 0x234
  const XLOADFLAGS: nat := 0x236
  const PREF_ADDRESS: nat := 0x258
  const INIT_SIZE: nat := 0x260

  const LOW_LIMIT: nat := 0x10_0000

  /** `struct kernel_image`; a vmlinux has a zero header of length 0. */
  datatype Kernel = Kernel(bzImage: bool, entry: nat, lo: nat, hi: nat, hdr: seq<byte>, hdrLen: nat)

  function SetupBytes(f: seq<byte>): nat
    requires |f| >= HDR_END
  {
    ((if f[SETUP_SECTS] != 0 then f[SETUP_SECTS] as int else 4) + 1) * 512
  }

  function LoadAddress(f: seq<byte>): nat
    requires |f| >= HDR_END
  {
    if Load(f, PREF_ADDRESS, 8) != 0 then Load(f, PREF_ADDRESS, 8) else LOW_LIMIT
  }

  /** Bytes of RAM the decompressor needs from the load address on. */
  function Need(f: seq<byte>): nat
    requires |f| >= HDR_END && SetupBytes(f) <= |f|
  {
    if Load(f, INIT_SIZE, 4) > |f| - SetupBytes(f) then Load(f, INIT_SIZE, 4) else |f| - SetupBytes(f)
  }

  /** Byte `k` of the loaded kernel: the protected-mode part of the file, then zeros. */
  function PayloadByte(f: seq<byte>, k: nat): byte
    requires |f| >= HDR_END && SetupBytes(f) <= |f|
  {
    if k < |f| - SetupBytes(f) then f[SetupBytes(f) + k] else 0
  }

  /** `load & (kernel_alignment - 1)`, for any alignment value, power of two or not. */
  predicate Misaligned(load: nat, align: nat)
    requires load < TWO64 && 0 < align < TWO32
  {
    (load as bv64) & ((align - 1) as bv64) != 0
  }

  /** Everything `bzimage_load` checks before it looks at guest memory. */
  predicate HeaderOk(f: seq<byte>) {
    && |f| >= HDR_END
    && Load(f, VERSION, 2) >= 0x020c
    && Load(f, XLOADFLAGS, 2) % 2 == 1
    && f[LOADFLAGS] % 2 == 1
    && SetupBytes(f) < |f|
    && (Load(f, SYSSIZE, 4) != 0 ==> Load(f, SYSSIZE, 4) * 16 <= |f| - SetupBytes(f))
    && LoadAddress(f) < TWO64 && Load(f, KERNEL_ALIGNMENT, 4) < TWO32
    && (f[RELOCATABLE] != 0 && Load(f, KERNEL_ALIGNMENT, 4) != 0 ==>
          !Misaligned(LoadAddress(f), Load(f, KERNEL_ALIGNMENT, 4)))
    && LoadAddress(f) >= LOW_LIMIT
  }

  predicate BzLoadable(f: seq<byte>, size: nat) {
    HeaderOk(f) && InRam(size, LoadAddress(f), Need(f))
  }

  /** Length of the header the kernel really carries: up to the target of its short jump,
      cut off at the fields this loader knows. */
  function HdrLen(f: seq<byte>): (n: nat)
    requires |f| >= HDR_END
    ensures 0 < n <= HDR_SIZE
  {
    var end := 0x202 + f[0x201] as int;
    (if end > HDR_END then HDR_END else end) - HDR
  }

  /** The header handed on: the file's, with code32_start set to the load address. */
  function HandedHeader(f: seq<byte>): (h: seq<byte>)
    requires |f| >= HDR_END
    ensures |h| == HDR_SIZE
  {
    Put(f[HDR..HDR_END], CODE32_START - HDR, Le(LoadAddress(f), 4))
  }

  /** `bzimage_load`: succeeds exactly on `BzLoadable` files; RAM [load, load + need) is the
      protected-mode part followed by zeros, the rest of RAM is untouched. */
  method LoadBzImage(ram: Ram, f: seq<byte>) returns (r: Option<Kernel>)
    requires ram.Valid() && ram.data.Length < TWO64
    modifies ram, ram.data
    ensures ram.Valid() && |ram.mem| == |old(ram.mem)|
    ensures r.Some? <==> BzLoadable(f, ram.data.Length)
    ensures r.None? ==> ram.mem == old(ram.mem)
    ensures r.Some? ==>
              && r.value == Kernel(true, LoadAddress(f) + 0x200, LoadAddress(f), LoadAddress(f) + Need(f),
                                   HandedHeader(f), HdrLen(f))
              && SameOutside(old(ram.mem), ram.mem, LoadAddress(f), LoadAddress(f) + Need(f))
              && forall a :: LoadAddress(f) <= a < LoadAddress(f) + Need(f) ==>
                   ram.mem[a] == PayloadByte(f, a - LoadAddress(f))
  {
    var ok := CheckHeader(f);
    if !ok {
      return None;
    }
    var pmOff, load := SetupBytes(f), LoadAddress(f);
    var pmLen := |f| - pmOff;
    var need := if Load(f, INIT_SIZE, 4) > pmLen then Load(f, INIT_SIZE, 4) else pmLen;
    if !ram.Has(load, need) {
      return None;
    }
    Place(ram, f, load, need);
    var hdr := Put(f[HDR..HDR_END], CODE32_START - HDR, Le(load, 4));
    r := Some(Kernel(true, load + 0x200, load, load + need, hdr, HdrLen(f)));
  }

  method Place(ram: Ram, f: seq<byte>, load: nat, need: nat)
    requires ram.Valid() && HeaderOk(f) && |f| - SetupBytes(f) <= need && load + need <= ram.data.Length
    modifies ram, ram.data
    ensures ram.Valid() && SameOutside(old(ram.mem), ram.mem, load, load + need)
    ensures forall a :: load <= a < load + need ==> ram.mem[a] == PayloadByte(f, a - load)
  {
    var pmOff := SetupBytes(f);
    ram.Copy(load, f[pmOff..]);
    ram.Clear(load + (|f| - pmOff), need - (|f| - pmOff));
  }

  /** The checks of `bzimage_load` in their order. */
  method CheckHeader(f: seq<byte>) returns (ok: bool)
    ensures ok == HeaderOk(f)
  {
    if |f| < HDR_END {
      return false;
    }
    FieldBounds(f);
    if Load(f, VERSION, 2) < 0x020c || Load(f, XLOADFLAGS, 2) % 2 == 0 || f[LOADFLAGS] % 2 == 0 {
      return false;
    }
    var pmOff := SetupBytes(f);
    if pmOff >= |f| {
      return false;
    }
    var syssize := Load(f, SYSSIZE, 4);
    if syssize != 0 && syssize * 16 > |f| - pmOff {
      return false;
    }
    var load, align := LoadAddress(f), Load(f, KERNEL_ALIGNMENT, 4);
    if f[RELOCATABLE] != 0 && align != 0 && Misaligned(load, align) {
      return false;
    }
    ok := load >= LOW_LIMIT;
  }

  lemma FieldBounds(f: seq<byte>)
    requires |f| >= HDR_END
    ensures LoadAddress(f) < TWO64 && Load(f, KERNEL_ALIGNMENT, 4) < TWO32
  {
    LeOfFromLe(f[PREF_ADDRESS..PREF_ADDRESS + 8]);
    LeOfFromLe(f[KERNEL_ALIGNMENT..KERNEL_ALIGNMENT + 4]);
    PowerValues();
  }

  /* ---------------------------------------------------------------- */
  /* Format dispatch                                                   */
  /* ---------------------------------------------------------------- */

  predicate ElfMagic(f: seq<byte>) {
    |f| >= 4 && f[..4] == [0x7f, 0x45, 0x4c, 0x46]
  }

  predicate BzMagic(f: seq<byte>) {
    |f| >= 0x206 && f[0x1fe] == 0x55 && f[0x1ff] == 0xaa && f[0x202..0x206] == [0x48, 0x64, 0x72, 0x53]
  }

  /** What `kernel_load` accepts. */
  predicate KernelLoadable(f: seq<byte>, size: nat) {
    if ElfMagic(f) then Loadable(f, size) else BzMagic(f) && BzLoadable(f, size)
  }

  /** The kernel description that goes with the file. */
  ghost predicate Describes(k: Kernel, f: seq<byte>) {
    if ElfMagic(f) then
      && !k.bzImage && k.hdr == Zeros(HDR_SIZE) && k.hdrLen == 0 && EhdrOk(f)
      && Bounds(Phdrs(f), k.lo, k.hi) && EntryOf(Phdrs(f), Load(f, 24, 8)) == Some(k.entry)
    else
      && HeaderOk(f)
      && k == Kernel(true, LoadAddress(f) + 0x200, LoadAddress(f), LoadAddress(f) + Need(f),
                     HandedHeader(f), HdrLen(f))
  }

  /** Memory `m` is `before` with the kernel of file `f` in place. */
  ghost predicate KernelPlaced(f: seq<byte>, before: seq<byte>, m: seq<byte>) {
    |m| == |before| &&
    if ElfMagic(f) then EhdrOk(f) && Image(f, Phdrs(f), before, m)
    else
      && HeaderOk(f) && LoadAddress(f) + Need(f) <= |m|
      && SameOutside(before, m, LoadAddress(f), LoadAddress(f) + Need(f))
      && forall a :: LoadAddress(f) <= a < LoadAddress(f) + Need(f) ==> m[a] == PayloadByte(f, a - LoadAddress(f))
  }

  /** `kernel_load`. */
  method LoadKernel(ram: Ram, f: seq<byte>) returns (r: Option<Kernel>)
    requires ram.Valid() && ram.data.Length < TWO64
    modifies ram, ram.data
    ensures ram.Valid() && |ram.mem| == |old(ram.mem)|
    ensures r.Some? <==> KernelLoadable(f, ram.data.Length)
    ensures r.Some? ==> Describes(r.value, f) && KernelPlaced(f, old(ram.mem), ram.mem)
  {
    if ElfMagic(f) {
      var info := LoadVmlinux(ram, f);
      if info.None? {
        return None;
      }
      return Some(Kernel(false, info.value.entry, info.value.lo, info.value.hi, Zeros(HDR_SIZE), 0));
    }
    if BzMagic(f) {
      r := LoadBzImage(ram, f);
      return;
    }
    r := None;
  }

  /** Outside [lo, hi) loading a kernel changes nothing. */
  lemma KernelStaysInRange(f: seq<byte>, before: seq<byte>, m: seq<byte>, k: Kernel)
    requires KernelPlaced(f, before, m) && Describes(k, f)
    ensures SameOutside(before, m, k.lo, k.hi)
  {
    if ElfMagic(f) {
      forall a | 0 <= a < |m| && !(k.lo <= a < k.hi) ensures m[a] == before[a] {
        UncoveredStays(f, |m|, Phdrs(f), before[a], a);
      }
    }
  }
}
