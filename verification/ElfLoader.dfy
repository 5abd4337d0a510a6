/** Loading an ELF64 vmlinux by physical address (src/boot/elf_loader.c). */
module ElfLoader {
  import opened Bytes
  import opened Common
  import opened GuestRam

  const EHDR_SIZE: nat := 64
  const PHDR_SIZE: nat := 56

  datatype Phdr = Phdr(typ: nat, offset: nat, vaddr: nat, paddr: nat, filesz: nat, memsz: nat)

  datatype LoadInfo = LoadInfo(entry: nat, lo: nat, hi: nat)

  /** `check_ehdr`: an x86-64 little-endian ELF64 whose program headers lie in the file. */
  predicate EhdrOk(f: seq<byte>) {
    && |f| >= EHDR_SIZE
    && f[..4] == [0x7f, 0x45, 0x4c, 0x46]
    && f[4] == 2 && f[5] == 1 && Load(f, 18, 2) == 62
    && Load(f, 54, 2) == PHDR_SIZE
    && Load(f, 32, 8) <= |f| && Load(f, 56, 2) * PHDR_SIZE <= |f| - Load(f, 32, 8)
  }

  function ParsePhdr(f: seq<byte>, at: nat): Phdr
    requires at + PHDR_SIZE <= |f|
  {
    Phdr(Load(f, at, 4), Load(f, at + 8, 8), Load(f, at + 16, 8), Load(f, at + 24, 8),
         Load(f, at + 32, 8), Load(f, at + 40, 8))
  }

  /** The program header table of the file. */
  function Phdrs(f: seq<byte>): (r: seq<Phdr>)
    requires EhdrOk(f)
    ensures |r| == Load(f, 56, 2)
  {
    seq(Load(f, 56, 2), i requires 0 <= i < Load(f, 56, 2) => ParsePhdr(f, Load(f, 32, 8) + i * PHDR_SIZE))
  }

  /** Copies program header `i` out of the table. */
  method ReadPhdr(f: seq<byte>, i: nat) returns (p: Phdr)
    requires EhdrOk(f) && i < |Phdrs(f)|
    ensures p == Phdrs(f)[i]
  {
    p := ParsePhdr(f, Load(f, 32, 8) + i * PHDR_SIZE);
  }

  predicate IsLoad(p: Phdr) {
    p.typ == 1 && p.memsz != 0
  }

  /** File part inside the file, memory part inside guest RAM. */
  predicate Fits(f: seq<byte>, size: nat, p: Phdr) {
    && p.filesz <= p.memsz && p.offset <= |f| && p.filesz <= |f| - p.offset
    && InRam(size, p.paddr, p.memsz)
  }

  predicate Covers(p: Phdr, a: nat) {
    IsLoad(p) && p.paddr <= a < p.paddr + p.memsz
  }

  /** The byte segment `p` puts at address `a`: from the file, or zero in the bss part. */
  function SegByte(f: seq<byte>, p: Phdr, a: nat): byte
    requires Covers(p, a) && p.filesz <= |f| - p.offset
  {
    if a < p.paddr + p.filesz then f[p.offset + (a - p.paddr)] else 0
  }

  predicate AllFit(f: seq<byte>, size: nat, ps: seq<Phdr>) {
    forall p :: p in ps && IsLoad(p) ==> Fits(f, size, p)
  }

  /** What RAM holds at `a` after loading `ps`: the byte of the last segment that covers
      it, and its former value if none does. */
  function ImageByte(f: seq<byte>, size: nat, ps: seq<Phdr>, before: byte, a: nat): byte
    requires AllFit(f, size, ps)
  {
    if ps == [] then before
    else if Covers(ps[|ps| - 1], a) then SegByte(f, ps[|ps| - 1], a)
    else ImageByte(f, size, ps[..|ps| - 1], before, a)
  }

  /** The last covering segment decides, whatever earlier ones put there. */
  lemma {:induction false} LastCoverWins(f: seq<byte>, size: nat, ps: seq<Phdr>, before: byte, a: nat, i: nat)
    requires AllFit(f, size, ps) && i < |ps| && Covers(ps[i], a) && forall j :: i < j < |ps| ==> !Covers(ps[j], a)
    ensures ImageByte(f, size, ps, before, a) == SegByte(f, ps[i], a)
  {
    if i < |ps| - 1 {
      LastCoverWins(f, size, ps[..|ps| - 1], before, a, i);
    }
  }

  lemma {:induction false} UncoveredStays(f: seq<byte>, size: nat, ps: seq<Phdr>, before: byte, a: nat)
    requires AllFit(f, size, ps) && forall p :: p in ps ==> !Covers(p, a)
    ensures ImageByte(f, size, ps, before, a) == before
  {
    if ps != [] {
      UncoveredStays(f, size, ps[..|ps| - 1], before, a);
    }
  }

  /** Memory `m` is `before` with the segments `ps` loaded. */
  predicate Image(f: seq<byte>, ps: seq<Phdr>, before: seq<byte>, m: seq<byte>) {
    && |m| == |before| && AllFit(f, |m|, ps)
    && forall a :: 0 <= a < |m| ==> m[a] == ImageByte(f, |m|, ps, before[a], a)
  }

  predicate AnyLoad(ps: seq<Phdr>) {
    exists p :: p in ps && IsLoad(p)
  }

  /** `lo` and `hi` are the exact bounds of the PT_LOAD segments. */
  predicate Bounds(ps: seq<Phdr>, lo: nat, hi: nat) {
    && (forall p :: p in ps && IsLoad(p) ==> lo <= p.paddr && p.paddr + p.memsz <= hi)
    && (exists p :: p in ps && IsLoad(p) && p.paddr == lo)
    && (exists p :: p in ps && IsLoad(p) && p.paddr + p.memsz == hi)
  }

  /** `lo_gpa` and `hi_gpa` along the way: still at their initial values, or exact. */
  predicate Range(ps: seq<Phdr>, any: bool, lo: nat, hi: nat) {
    any == AnyLoad(ps) && if any then Bounds(ps, lo, hi) else lo == TWO64 - 1 && hi == 0
  }

  lemma RangeNext(ps: seq<Phdr>, p: Phdr, any: bool, lo: nat, hi: nat)
    requires Range(ps, any, lo, hi)
    requires IsLoad(p) ==> p.paddr < TWO64 - 1
    ensures if IsLoad(p) then
              Range(ps + [p], true, if p.paddr < lo then p.paddr else lo,
                    if p.paddr + p.memsz > hi then p.paddr + p.memsz else hi)
            else Range(ps + [p], any, lo, hi)
  {
    var qs := ps + [p];
    assert forall q :: q in qs <==> q in ps || q == p;
    if any {
      var a :| a in ps && IsLoad(a) && a.paddr == lo;
      var b :| b in ps && IsLoad(b) && b.paddr + b.memsz == hi;
      assert a in qs && b in qs && p in qs;
    }
  }

  /** e_entry as seen by one segment: physical if it lies in the physical range, else
      translated if it lies in the virtual range (whose end wraps at 2^64). */
  function Translate(p: Phdr, e: nat): Option<nat> {
    if !IsLoad(p) then None
    else if p.paddr <= e < p.paddr + p.memsz then Some(e)
    else if p.vaddr <= e < (p.vaddr + p.memsz) % TWO64 then Some(e - p.vaddr + p.paddr)
    else None
  }

  /** The first segment that recognises e_entry decides. */
  function EntryOf(ps: seq<Phdr>, e: nat): Option<nat> {
    if ps == [] then None
    else if Translate(ps[0], e).Some? then Translate(ps[0], e)
    else EntryOf(ps[1..], e)
  }

  lemma {:induction false} EntryOfAppend(ps: seq<Phdr>, p: Phdr, e: nat)
    ensures EntryOf(ps + [p], e) == if EntryOf(ps, e).Some? then EntryOf(ps, e) else Translate(p, e)
  {
    if ps == [] {
      assert (ps + [p])[1..] == [];
    } else {
      assert (ps + [p])[1..] == ps[1..] + [p];
      EntryOfAppend(ps[1..], p, e);
    }
  }

  /** The translated entry lies in a loaded segment, whichever kind of address e_entry was. */
  lemma {:induction false} EntryIsLoaded(ps: seq<Phdr>, e: nat)
    requires EntryOf(ps, e).Some? && forall p :: p in ps ==> p.vaddr < TWO64 && p.memsz < TWO64
    ensures exists p :: p in ps && Covers(p, EntryOf(ps, e).value)
  {
    if Translate(ps[0], e).Some? {
      var p := ps[0];
      if !(p.paddr <= e < p.paddr + p.memsz) {
        assert p.vaddr + p.memsz < TWO64;
      }
      assert Covers(p, EntryOf(ps, e).value);
    } else {
      EntryIsLoaded(ps[1..], e);
    }
  }

  lemma PhdrBounds(f: seq<byte>)
    requires EhdrOk(f)
    ensures forall p :: p in Phdrs(f) ==> p.vaddr < TWO64 && p.memsz < TWO64
  {
    forall i | 0 <= i < |Phdrs(f)| ensures Phdrs(f)[i].vaddr < TWO64 && Phdrs(f)[i].memsz < TWO64 {
      assert Phdrs(f)[i] == ParsePhdr(f, Load(f, 32, 8) + i * PHDR_SIZE);
      LoadBound(f, Load(f, 32, 8) + i * PHDR_SIZE + 16);
      LoadBound(f, Load(f, 32, 8) + i * PHDR_SIZE + 40);
    }
  }

  lemma LoadBound(f: seq<byte>, off: nat)
    requires off + 8 <= |f|
    ensures Load(f, off, 8) < TWO64
  {
    LeOfFromLe(f[off..off + 8]);
    PowerValues();
  }

  /** What `elf_load_vmlinux` accepts, as a property of the file and the RAM size alone. */
  predicate Loadable(f: seq<byte>, size: nat) {
    && EhdrOk(f) && AllFit(f, size, Phdrs(f)) && AnyLoad(Phdrs(f))
    && EntryOf(Phdrs(f), Load(f, 24, 8)).Some?
  }

  /* ---------------------------------------------------------------- */
  /* The loader                                                        */
  /* ---------------------------------------------------------------- */

  /** The memcpy and memset for one segment. */
  method PlaceSegment(ram: Ram, f: seq<byte>, p: Phdr)
    requires ram.Valid() && IsLoad(p) && Fits(f, ram.data.Length, p)
    modifies ram, ram.data
    ensures ram.Valid() && |ram.mem| == |old(ram.mem)|
    ensures forall a :: 0 <= a < |ram.mem| ==>
              ram.mem[a] == if Covers(p, a) then SegByte(f, p, a) else old(ram.mem)[a]
  {
    ram.Copy(p.paddr, f[p.offset..p.offset + p.filesz]);
    ram.Clear(p.paddr + p.filesz, p.memsz - p.filesz);
  }

  /** Checks one header and, for a PT_LOAD that fits, places it on top of the earlier ones. */
  method PlaceHeader(ram: Ram, f: seq<byte>, p: Phdr, ghost ps: seq<Phdr>, ghost before: seq<byte>) returns (ok: bool)
    requires ram.Valid() && Image(f, ps, before, ram.mem)
    modifies ram, ram.data
    ensures ram.Valid() && ok == (IsLoad(p) ==> Fits(f, ram.data.Length, p))
    ensures ok ==> Image(f, ps + [p], before, ram.mem)
  {
    if IsLoad(p) {
      if !Fits(f, ram.data.Length, p) {
        return false;
      }
      PlaceSegment(ram, f, p);
    }
    assert (ps + [p])[..|ps|] == ps;
    ok := true;
  }

  /** The loop over the program headers. */
  method PlaceAll(ram: Ram, f: seq<byte>, e: nat)
    returns (ok: bool, any: bool, lo: nat, hi: nat, found: bool, entry: nat)
    requires ram.Valid() && ram.data.Length < TWO64 && EhdrOk(f)
    modifies ram, ram.data
    ensures ram.Valid() && ok == AllFit(f, ram.data.Length, Phdrs(f))
    ensures ok ==> Image(f, Phdrs(f), old(ram.mem), ram.mem) && Range(Phdrs(f), any, lo, hi)
    ensures ok ==> found == EntryOf(Phdrs(f), e).Some? && (found ==> EntryOf(Phdrs(f), e) == Some(entry))
  {
    hide Load;
    ghost var ps := Phdrs(f);
    ok, any, lo, hi, found, entry := true, false, TWO64 - 1, 0, false, e;
    var n, i := Load(f, 56, 2), 0;
    while i < n
      invariant 0 <= i <= n == |ps| && ram.Valid() && ok
      invariant Image(f, ps[..i], old(ram.mem), ram.mem)
      invariant Range(ps[..i], any, lo, hi)
      invariant found == EntryOf(ps[..i], e).Some? && entry == if found then EntryOf(ps[..i], e).value else e
    {
      var p := ReadPhdr(f, i);
      assert ps[..i + 1] == ps[..i] + [p];
      ok := PlaceHeader(ram, f, p, ps[..i], old(ram.mem));
      if !ok {
        assert p in ps;
        return;
      }
      RangeNext(ps[..i], p, any, lo, hi);
      EntryOfAppend(ps[..i], p, e);
      if IsLoad(p) {
        lo, hi := if p.paddr < lo then p.paddr else lo, if p.paddr + p.memsz > hi then p.paddr + p.memsz else hi;
        if !found && Translate(p, entry).Some? {
          entry, found := Translate(p, entry).value, true;
        }
        any := true;
      }
      i := i + 1;
    }
    assert ps[..n] == ps;
  }

  /** `elf_load_vmlinux`.  It succeeds exactly on `Loadable` files; then every byte of RAM is
      accounted for, the bounds are exact and the entry is the first translation. */
  method LoadVmlinux(ram: Ram, f: seq<byte>) returns (r: Option<LoadInfo>)
    requires ram.Valid() && ram.data.Length < TWO64
    modifies ram, ram.data
    ensures ram.Valid()
    ensures r.Some? <==> Loadable(f, ram.data.Length)
    ensures r.Some? ==>
              && Image(f, Phdrs(f), old(ram.mem), ram.mem)
              && Bounds(Phdrs(f), r.value.lo, r.value.hi)
              && EntryOf(Phdrs(f), Load(f, 24, 8)) == Some(r.value.entry)
  {
    if !EhdrOk(f) {
      return None;
    }
    var ok, any, lo, hi, found, entry := PlaceAll(ram, f, Load(f, 24, 8));
    if !ok || !any || !found {
      return None;
    }
    r := Some(LoadInfo(entry, lo, hi));
  }
}
