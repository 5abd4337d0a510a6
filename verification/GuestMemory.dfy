/** The slot table and guest address translation (src/mem.c). */
module GuestMemory {
  import opened Bytes
  import opened Common
  import GuestRam

  const PAGE: nat := 4096
  const MAX_SLOTS: nat := 8

  datatype Slot = Slot(used: bool, gpa: nat, size: nat, hva: nat, flags: nat, owned: bool)

  datatype Status = Ok | Invalid | NoMemory | SysError

  const UNUSED: Slot := Slot(false, 0, 0, 0, 0, false)

  /** The overlap test of `mem_add_region`. */
  predicate Clash(s: Slot, gpa: nat, size: nat) {
    s.used && gpa < End(s.gpa, s.size) && s.gpa < End(gpa, size)
  }

  predicate Aligned(gpa: nat, size: nat, hva: nat) {
    size != 0 && gpa % PAGE == 0 && size % PAGE == 0 && hva % PAGE == 0
  }

  function FirstFree(ss: seq<Slot>): (i: nat)
    ensures i <= |ss| && (i < |ss| ==> !ss[i].used) && forall j :: 0 <= j < i ==> ss[j].used
  {
    if ss == [] || !ss[0].used then 0 else 1 + FirstFree(ss[1..])
  }

  datatype Region = Region(gpa: nat, size: nat, hva: nat, flags: nat, owned: bool)

  function AddStatus(ss: seq<Slot>, r: Region, kvm: bool): Status {
    if !Aligned(r.gpa, r.size, r.hva) || exists s :: s in ss && Clash(s, r.gpa, r.size) then Invalid
    else if FirstFree(ss) == |ss| then NoMemory
    else if !kvm then SysError
    else Ok
  }

  /** The table after `mem_add_region`; `kvm` is whether the ioctl succeeds. */
  function Added(ss: seq<Slot>, r: Region, kvm: bool): seq<Slot> {
    if AddStatus(ss, r, kvm).Ok? || AddStatus(ss, r, kvm).SysError? then
      ss[FirstFree(ss) := Slot(kvm, r.gpa, r.size, r.hva, r.flags, r.owned)]
    else ss
  }

  /** `mem_find_slot`: index of the first slot that seems to contain `gpa`, or |ss|. */
  function FindSlot(ss: seq<Slot>, gpa: nat): (i: nat)
    ensures i <= |ss| && (i < |ss| ==> ss[i].used && ss[i].gpa <= gpa < End(ss[i].gpa, ss[i].size))
  {
    if ss == [] || (ss[0].used && ss[0].gpa <= gpa < End(ss[0].gpa, ss[0].size)) then 0
    else 1 + FindSlot(ss[1..], gpa)
  }

  /** `gpa_to_hva`. */
  function Translate(ss: seq<Slot>, gpa: nat, len: nat): Option<nat> {
    if len == 0 || (gpa + len) % TWO64 < gpa then None
    else
      var i := FindSlot(ss, gpa);
      if i == |ss| || (gpa + len) % TWO64 > End(ss[i].gpa, ss[i].size) then None
      else Some(ss[i].hva + (gpa - ss[i].gpa))
  }

  /* ---------------------------------------------------------------- */
  /* The table                                                         */
  /* ---------------------------------------------------------------- */

  function CountUsed(ss: seq<Slot>): nat {
    if ss == [] then 0 else (if ss[0].used then 1 else 0) + CountUsed(ss[1..])
  }

  class Memory {
    const slots: array<Slot>
    var nrSlots: nat
    var ramSize: nat
    const host: array<byte>  // the host address space behind all slots

    ghost predicate Valid()
      reads this, slots
    {
      slots.Length == MAX_SLOTS && nrSlots == CountUsed(slots[..])
    }

    constructor (space: array<byte>)
      ensures Valid() && fresh(slots) && host == space && slots[..] == seq(MAX_SLOTS, _ => UNUSED) && ramSize == 0
    {
      slots := new Slot[MAX_SLOTS](_ => UNUSED);
      nrSlots, ramSize, host := 0, 0, space;
      new;
      assert slots[..] == seq(MAX_SLOTS, _ => UNUSED);
      NoneUsed(slots[..]);
    }

    method FindClash(gpa: nat, size: nat) returns (found: bool)
      requires Valid()
      ensures found <==> exists s :: s in slots[..] && Clash(s, gpa, size)
    {
      var i := 0;
      while i < MAX_SLOTS
        invariant i <= MAX_SLOTS && forall j :: 0 <= j < i ==> !Clash(slots[j], gpa, size)
      {
        if Clash(slots[i], gpa, size) {
          assert slots[i] in slots[..];
          return true;
        }
        i := i + 1;
      }
      found := false;
    }

    /** `mem_add_region`: a region the kernel rejects is rolled back and not counted. */
    method AddRegion(r: Region, kvm: bool) returns (status: Status)
      requires Valid()
      modifies this`nrSlots, slots
      ensures Valid() && status == AddStatus(old(slots[..]), r, kvm) && slots[..] == Added(old(slots[..]), r, kvm)
      ensures nrSlots == old(nrSlots) + if status.Ok? then 1 else 0
    {
      if !Aligned(r.gpa, r.size, r.hva) {
        return Invalid;
      }
      var clash := FindClash(r.gpa, r.size);
      if clash {
        return Invalid;
      }
      var i := 0;
      while i < MAX_SLOTS && slots[i].used
        invariant i <= MAX_SLOTS && forall j :: 0 <= j < i ==> slots[j].used
      {
        i := i + 1;
      }
      ghost var ss := slots[..];
      assert i == FirstFree(ss);
      if i == MAX_SLOTS {
        return NoMemory;
      }
      slots[i] := Slot(true, r.gpa, r.size, r.hva, r.flags, r.owned);
      if !kvm {
        slots[i] := slots[i].(used := false);
        status := SysError;
      } else {
        nrSlots := nrSlots + 1;
        status := Ok;
      }
      assert slots[..] == ss[i := Slot(kvm, r.gpa, r.size, r.hva, r.flags, r.owned)];
      CountUpdate(ss, i, slots[i]);
    }

    /** `mem_destroy`. */
    method Destroy()
      requires Valid()
      modifies this`nrSlots, slots
      ensures Valid() && nrSlots == 0 && slots[..] == Destroyed(old(slots[..]))
    {
      var i := 0;
      while i < MAX_SLOTS
        invariant i <= MAX_SLOTS
        invariant forall j :: 0 <= j < MAX_SLOTS ==>
                    slots[j] == if j < i then old(slots[j]).(used := false) else old(slots[j])
      {
        if slots[i].used {
          slots[i] := slots[i].(used := false);
        }
        i := i + 1;
      }
      nrSlots := 0;
      assert slots[..] == Destroyed(old(slots[..]));
      NoneUsed(slots[..]);
    }

    /** `mem_init`: RAM is one slot at guest address 0.  `hva` is what mmap gives. */
    method Init(size: nat, hva: Option<nat>, kvm: bool) returns (status: Status)
      requires Valid()
      modifies this, slots
      ensures Valid()
      ensures hva.None? ==> status == NoMemory && slots[..] == old(slots[..])
      ensures hva.Some? ==>
                var r := Region(0, AlignUp(size), hva.value, 0, true);
                status == AddStatus(old(slots[..]), r, kvm) && slots[..] == Added(old(slots[..]), r, kvm)
      ensures ramSize == if status.Ok? then AlignUp(size) else old(ramSize)
    {
      if hva.None? {
        return NoMemory;
      }
      status := AddRegion(Region(0, AlignUp(size), hva.value, 0, true), kvm);
      if status.Ok? {
        ramSize := AlignUp(size);
      }
    }

    method Find(gpa: nat) returns (i: nat)
      requires Valid()
      ensures i == FindSlot(slots[..], gpa)
    {
      i := 0;
      while i < MAX_SLOTS
        invariant i <= MAX_SLOTS && i + FindSlot(slots[i..], gpa) == FindSlot(slots[..], gpa)
      {
        if slots[i].used && slots[i].gpa <= gpa < End(slots[i].gpa, slots[i].size) {
          return;
        }
        assert slots[i..][1..] == slots[i + 1..];
        i := i + 1;
      }
    }

    /** `gpa_to_hva`. */
    method GpaToHva(gpa: nat, len: nat) returns (h: Option<nat>)
      requires Valid()
      ensures h == Translate(slots[..], gpa, len)
    {
      if len == 0 || (gpa + len) % TWO64 < gpa {
        return None;
      }
      var i := Find(gpa);
      if i == MAX_SLOTS || (gpa + len) % TWO64 > End(slots[i].gpa, slots[i].size) {
        return None;
      }
      h := Some(slots[i].hva + (gpa - slots[i].gpa));
    }

    /** `mem_read`. */
    method Read(gpa: nat, len: nat) returns (r: Option<seq<byte>>)
      requires Valid() && gpa < TWO64 && len < TWO64 && Backed(slots[..], host.Length)
      ensures r.Some? <==> Translate(slots[..], gpa, len).Some?
      ensures r.Some? ==> |r.value| == len
      ensures r.Some? ==> forall k :: 0 <= k < len ==> Guest(slots[..], host[..], gpa + k) == Some(r.value[k])
    {
      var h := GpaToHva(gpa, len);
      if h.None? {
        return None;
      }
      InsideHost(slots[..], host.Length, gpa, len);
      r := Some(host[h.value..h.value + len]);
      forall k | 0 <= k < len ensures Guest(slots[..], host[..], gpa + k) == Some(r.value[k]) {
        WithinRange(slots[..], gpa, len, k);
      }
    }

    /** `mem_write`: refines an update of the guest byte map. */
    method Write(gpa: nat, d: seq<byte>) returns (ok: bool)
      requires Valid() && gpa < TWO64 && |d| < TWO64 && Backed(slots[..], host.Length)
      modifies host
      ensures Valid() && ok == Translate(slots[..], gpa, |d|).Some?
      ensures !ok ==> host[..] == old(host[..])
      ensures ok ==> forall k :: 0 <= k < |d| ==> Guest(slots[..], host[..], gpa + k) == Some(d[k])
      ensures ok && HostDisjoint(slots[..]) ==>
                forall a: nat :: a < TWO64 && !(gpa <= a < gpa + |d|) ==>
                  Guest(slots[..], host[..], a) == Guest(slots[..], old(host[..]), a)
    {
      var h := GpaToHva(gpa, |d|);
      if h.None? {
        return false;
      }
      InsideHost(slots[..], host.Length, gpa, |d|);
      ghost var ss, was := slots[..], host[..];
      forall k | 0 <= k < |d| {
        host[h.value + k] := d[k];
      }
      assert slots[..] == ss && host[..] == Put(was, h.value, d);
      WriteLaw(ss, was, gpa, d);
      ok := true;
    }
  }

  function AlignUp(size: nat): nat {
    (size + (PAGE - 1)) % TWO64 / PAGE * PAGE
  }

  function Destroyed(ss: seq<Slot>): seq<Slot> {
    seq(|ss|, i requires 0 <= i < |ss| => ss[i].(used := false))
  }

  lemma {:induction false} NoneUsed(ss: seq<Slot>)
    requires forall s :: s in ss ==> !s.used
    ensures CountUsed(ss) == 0
  {
    if ss != [] {
      NoneUsed(ss[1..]);
    }
  }

  lemma {:induction false} CountUpdate(ss: seq<Slot>, i: nat, s: Slot)
    requires i < |ss|
    ensures CountUsed(ss[i := s]) == CountUsed(ss) - (if ss[i].used then 1 else 0) + (if s.used then 1 else 0)
  {
    if i == 0 {
      assert ss[0 := s][1..] == ss[1..];
    } else {
      assert ss[i := s][1..] == ss[1..][i - 1 := s];
      CountUpdate(ss[1..], i - 1, s);
    }
  }

  /* ---------------------------------------------------------------- */
  /* The integer model                                                 */
  /* ---------------------------------------------------------------- */

  /** [gpa, gpa + len), over unbounded integers, lies in the slot. */
  predicate InSlot(s: Slot, gpa: nat, len: nat) {
    s.used && len > 0 && s.gpa <= gpa && gpa + len <= s.gpa + s.size
  }

  predicate Meet(s: Slot, t: Slot) {
    RangesMeet(s.gpa, s.size, t.gpa, t.size)
  }

  /** Used slots are aligned, representable in 64 bits, and pairwise disjoint. */
  predicate WellFormed(ss: seq<Slot>) {
    && (forall i :: 0 <= i < |ss| && ss[i].used ==>
          Aligned(ss[i].gpa, ss[i].size, ss[i].hva) && ss[i].gpa < TWO64 && ss[i].size < TWO64)
    && (forall i, j :: 0 <= i < j < |ss| && ss[i].used && ss[j].used ==> !Meet(ss[i], ss[j]))
  }

  /** No used slot reaches 2^64. */
  predicate EndsBelow(ss: seq<Slot>) {
    forall s :: s in ss && s.used ==> s.gpa + s.size < TWO64
  }

  /** Address and size fit into 64 bits, as they do by their type. */
  predicate Bits64(r: Region) {
    r.gpa < TWO64 && r.size < TWO64
  }

  /** No used slot and the region meet behind the wrap of one of their ends. */
  predicate Clear(ss: seq<Slot>, r: Region) {
    forall i :: 0 <= i < |ss| && ss[i].used ==> ClearOfWrap(ss[i].gpa, ss[i].size, r.gpa, r.size)
  }

  /** Exactly when adding a region keeps the used slots aligned and disjoint: it is not added,
      or neither it nor an older slot reaches 2^64 with the other starting below its end. */
  lemma AddKeeps(ss: seq<Slot>, r: Region, kvm: bool)
    requires WellFormed(ss) && Bits64(r)
    ensures WellFormed(Added(ss, r, kvm)) <==> !AddStatus(ss, r, kvm).Ok? || Clear(ss, r)
  {
    if AddStatus(ss, r, kvm).Ok? {
      AddedMeets(ss, r);
    }
  }

  /** The new slot against the older ones. */
  lemma AddedMeets(ss: seq<Slot>, r: Region)
    requires WellFormed(ss) && Bits64(r) && AddStatus(ss, r, true).Ok?
    ensures WellFormed(Added(ss, r, true)) <==> Clear(ss, r)
  {
    var ts, f := Added(ss, r, true), FirstFree(ss);
    forall i | 0 <= i < |ss| && ss[i].used
      ensures i != f && ts[i] == ss[i] && Meet(ts[i], ts[f]) == Meet(ts[f], ts[i])
      ensures Meet(ts[i], ts[f]) <==> !ClearOfWrap(ss[i].gpa, ss[i].size, r.gpa, r.size)
    {
      assert ss[i] in ss && !Clash(ss[i], r.gpa, r.size);
      WrappedTest(ss[i].gpa, ss[i].size, r.gpa, r.size);
    }
    hide Meet, ClearOfWrap, AddStatus, Aligned;
    if !Clear(ss, r) {
      var i :| 0 <= i < |ss| && ss[i].used && !ClearOfWrap(ss[i].gpa, ss[i].size, r.gpa, r.size);
      assert Meet(ts[i], ts[f]) && Meet(ts[f], ts[i]);
    }
  }

  /** So a region that ends below 2^64 can always be added to slots that do. */
  lemma AddBelow(ss: seq<Slot>, r: Region, kvm: bool)
    requires WellFormed(ss) && EndsBelow(ss) && r.gpa + r.size < TWO64
    ensures WellFormed(Added(ss, r, kvm)) && EndsBelow(Added(ss, r, kvm))
  {
    assert forall i :: 0 <= i < |ss| && ss[i].used ==> ss[i] in ss;
    AddKeeps(ss, r, kvm);
  }

  datatype Op = Add(r: Region, kvm: bool) | DestroyAll

  function Step(ss: seq<Slot>, op: Op): seq<Slot> {
    match op
    case Add(r, kvm) => Added(ss, r, kvm)
    case DestroyAll => Destroyed(ss)
  }

  function Run(ss: seq<Slot>, ops: seq<Op>): seq<Slot>
    decreases |ops|
  {
    if ops == [] then ss else Run(Step(ss, ops[0]), ops[1..])
  }

  /** Every table of the run is well formed. */
  predicate StaysWellFormed(ss: seq<Slot>, ops: seq<Op>)
    decreases |ops|
  {
    WellFormed(ss) && (ops != [] ==> StaysWellFormed(Step(ss, ops[0]), ops[1..]))
  }

  /** Every region of the run that is added is clear of the slots it is added to. */
  predicate ClearRun(ss: seq<Slot>, ops: seq<Op>)
    decreases |ops|
  {
    ops != [] ==>
      && (ops[0].Add? && AddStatus(ss, ops[0].r, ops[0].kvm).Ok? ==> Clear(ss, ops[0].r))
      && ClearRun(Step(ss, ops[0]), ops[1..])
  }

  /** Over any sequence of adds, rolled-back adds and destroys: the used slots are aligned and
      pairwise disjoint all along if and only if every region added was clear of the slots it
      found. */
  lemma {:induction false} RunKeeps(ss: seq<Slot>, ops: seq<Op>)
    requires WellFormed(ss) && forall op :: op in ops && op.Add? ==> Bits64(op.r)
    ensures StaysWellFormed(ss, ops) <==> ClearRun(ss, ops)
    decreases |ops|
  {
    if ops != [] {
      hide WellFormed, Clear, Added, AddStatus, Bits64;
      assert ops[0] in ops && forall op :: op in ops[1..] ==> op in ops;
      match ops[0] {
        case Add(r, kvm) => AddKeeps(ss, r, kvm);
        case DestroyAll => DestroyKeeps(ss);
      }
      if WellFormed(Step(ss, ops[0])) {
        RunKeeps(Step(ss, ops[0]), ops[1..]);
      }
    }
  }

  lemma DestroyKeeps(ss: seq<Slot>)
    ensures WellFormed(Destroyed(ss)) && EndsBelow(Destroyed(ss))
  {
  }

  /** So regions that end below 2^64 never spoil the table, and none of its slots reaches 2^64. */
  lemma {:induction false} RunBelow(ss: seq<Slot>, ops: seq<Op>)
    requires WellFormed(ss) && EndsBelow(ss)
    requires forall op :: op in ops && op.Add? ==> op.r.gpa + op.r.size < TWO64
    ensures StaysWellFormed(ss, ops) && WellFormed(Run(ss, ops)) && EndsBelow(Run(ss, ops))
    decreases |ops|
  {
    if ops != [] {
      hide WellFormed, EndsBelow, Added;
      assert ops[0] in ops && forall op :: op in ops[1..] ==> op in ops;
      match ops[0] {
        case Add(r, kvm) => AddBelow(ss, r, kvm);
        case DestroyAll => DestroyKeeps(ss);
      }
      RunBelow(Step(ss, ops[0]), ops[1..]);
    }
  }

  /** The last page of the address space defeats the overlap check of the VMM: it can be added
      twice, provided the kernel takes a region whose end wraps.  Layouts with such a region
      do not occur in practice (tests/TEST_DESIGN.md:201). */
  lemma LastPageTwice(hva: nat)
    requires hva % PAGE == 0
    ensures var r := Region(TWO64 - PAGE, PAGE, hva, 0, false);
            var once := Added(seq(MAX_SLOTS, _ => UNUSED), r, true);
            AddStatus(once, r, true).Ok? && !WellFormed(Added(once, r, true))
  {
    var r := Region(TWO64 - PAGE, PAGE, hva, 0, false);
    var empty := seq(MAX_SLOTS, _ => UNUSED);
    var once := Added(empty, r, true);
    assert once[0] == Slot(true, r.gpa, r.size, r.hva, r.flags, r.owned);
    assert FirstFree(once) == 1 by {
      assert once[0].used && !once[1].used;
    }
    var twice := Added(once, r, true);
    assert Meet(twice[0], twice[1]);
  }

  /** No slot before the one found contains `gpa`. */
  lemma {:induction false} NotBefore(ss: seq<Slot>, gpa: nat)
    ensures forall j :: 0 <= j < FindSlot(ss, gpa) ==>
                          !(ss[j].used && ss[j].gpa <= gpa < End(ss[j].gpa, ss[j].size))
  {
    if ss != [] {
      NotBefore(ss[1..], gpa);
    }
  }

  ghost predicate TranslatesAsModel(ss: seq<Slot>, gpa: nat, len: nat) {
    forall h :: Translate(ss, gpa, len) == Some(h) <==>
                exists i :: 0 <= i < |ss| && InSlot(ss[i], gpa, len) && h == ss[i].hva + (gpa - ss[i].gpa)
  }

  predicate Contains(s: Slot, gpa: nat) {
    s.used && s.gpa <= gpa < s.gpa + s.size
  }

  lemma NoSharing(ss: seq<Slot>, i: nat, j: nat, gpa: nat)
    requires WellFormed(ss) && i < j < |ss|
    ensures !(Contains(ss[i], gpa) && Contains(ss[j], gpa))
  {
    assert ss[i].used && ss[j].used ==> !Meet(ss[i], ss[j]);
  }

  /** Where no slot reaches 2^64, the first match is the one slot that contains the address. */
  lemma FoundIsOwner(ss: seq<Slot>, gpa: nat, i: nat)
    requires WellFormed(ss) && EndsBelow(ss) && i < |ss| && Contains(ss[i], gpa)
    ensures FindSlot(ss, gpa) == i
  {
    assert forall j :: 0 <= j < |ss| && ss[j].used ==>
                         ss[j] in ss && End(ss[j].gpa, ss[j].size) == ss[j].gpa + ss[j].size;
    NotBefore(ss, gpa);
    forall j | 0 <= j < i ensures !Contains(ss[j], gpa) {
      NoSharing(ss, j, i, gpa);
    }
    hide WellFormed, EndsBelow;
  }

  lemma TranslateSound(ss: seq<Slot>, gpa: nat, len: nat)
    requires EndsBelow(ss) && gpa < TWO64 && len < TWO64 && Translate(ss, gpa, len).Some?
    ensures var f := FindSlot(ss, gpa);
            f < |ss| && InSlot(ss[f], gpa, len) && Translate(ss, gpa, len) == Some(ss[f].hva + (gpa - ss[f].gpa))
  {
    assert ss[FindSlot(ss, gpa)] in ss;
    hide FindSlot;
  }

  lemma TranslateComplete(ss: seq<Slot>, gpa: nat, len: nat, i: nat)
    requires WellFormed(ss) && EndsBelow(ss) && i < |ss| && InSlot(ss[i], gpa, len)
    ensures Translate(ss, gpa, len) == Some(ss[i].hva + (gpa - ss[i].gpa))
  {
    assert ss[i] in ss;
    FoundIsOwner(ss, gpa, i);
    hide FindSlot, WellFormed;
  }

  /** The first-match search is the integer model: it succeeds exactly when [gpa, gpa + len)
      is nonempty and inside one slot. */
  lemma TranslateIsModel(ss: seq<Slot>, gpa: nat, len: nat)
    requires WellFormed(ss) && EndsBelow(ss) && gpa < TWO64 && len < TWO64
    ensures TranslatesAsModel(ss, gpa, len)
  {
    hide FindSlot, WellFormed, EndsBelow, Translate, InSlot;
    if Translate(ss, gpa, len).Some? {
      TranslateSound(ss, gpa, len);
    }
    forall i: nat | i < |ss| && InSlot(ss[i], gpa, len)
      ensures Translate(ss, gpa, len) == Some(ss[i].hva + (gpa - ss[i].gpa))
    {
      TranslateComplete(ss, gpa, len, i);
    }
  }

  /** The search is the integer model for every address and length exactly when no used slot
      reaches 2^64. */
  lemma TranslateIsModelIff(ss: seq<Slot>)
    requires WellFormed(ss)
    ensures (forall gpa: nat, len: nat :: gpa < TWO64 && len < TWO64 ==> TranslatesAsModel(ss, gpa, len))
            <==> EndsBelow(ss)
  {
    if EndsBelow(ss) {
      forall gpa: nat, len: nat | gpa < TWO64 && len < TWO64 ensures TranslatesAsModel(ss, gpa, len) {
        TranslateIsModel(ss, gpa, len);
      }
    } else {
      var s :| s in ss && s.used && s.gpa + s.size >= TWO64;
      var i :| 0 <= i < |ss| && ss[i] == s;
      HighSlotIsLost(ss, i);
    }
  }

  lemma HighSlotIsLost(ss: seq<Slot>, i: nat)
    requires WellFormed(ss) && i < |ss| && ss[i].used && ss[i].gpa + ss[i].size >= TWO64
    ensures !TranslatesAsModel(ss, ss[i].gpa, 1)
  {
    var gpa := ss[i].gpa;
    var f := FindSlot(ss, gpa);
    assert f < i ==> !Meet(ss[f], ss[i]);
    assert i < f < |ss| ==> !Meet(ss[i], ss[f]);
    assert InSlot(ss[i], gpa, 1);
    assert Translate(ss, gpa, 1) == None;
    assert Translate(ss, gpa, 1) != Some(ss[i].hva);
  }

  /** With RAM as the only slot, translation is the bounds check used throughout the boot code. */
  lemma InitGivesRam(size: nat, hva: nat, gpa: nat, len: nat)
    requires 0 < size <= TWO64 - 2 * PAGE && hva % PAGE == 0 && gpa < TWO64 && len < TWO64
    ensures var r := Region(0, AlignUp(size), hva, 0, true);
            var empty := seq(MAX_SLOTS, _ => UNUSED);
            && AddStatus(empty, r, true).Ok? && AlignUp(size) >= size
            && (Translate(Added(empty, r, true), gpa, len) ==
                if GuestRam.InRam(AlignUp(size), gpa, len) then Some(hva + gpa) else None)
  {
    var r := Region(0, AlignUp(size), hva, 0, true);
    var empty := seq(MAX_SLOTS, _ => UNUSED);
    var ss := Added(empty, r, true);
    assert ss[0] == Slot(true, 0, AlignUp(size), hva, 0, true);
  }

  /* ---------------------------------------------------------------- */
  /* The guest byte map                                                */
  /* ---------------------------------------------------------------- */

  /** Every used slot is backed by host memory. */
  predicate Backed(ss: seq<Slot>, hostSize: nat) {
    WellFormed(ss) && EndsBelow(ss) && forall s :: s in ss && s.used ==> s.hva + s.size <= hostSize
  }

  /** The byte the guest sees at `a`, if there is one. */
  function Guest(ss: seq<Slot>, host: seq<byte>, a: nat): Option<byte> {
    match Translate(ss, a, 1)
    case Some(h) => if h < |host| then Some(host[h]) else None
    case None => None
  }

  /** Host ranges of different slots are disjoint, as separate mappings are. */
  predicate HostDisjoint(ss: seq<Slot>) {
    forall i, j :: 0 <= i < j < |ss| && ss[i].used && ss[j].used ==>
                     ss[i].hva + ss[i].size <= ss[j].hva || ss[j].hva + ss[j].size <= ss[i].hva
  }

  lemma InsideHost(ss: seq<Slot>, hostSize: nat, gpa: nat, len: nat)
    requires Backed(ss, hostSize) && gpa < TWO64 && len < TWO64 && Translate(ss, gpa, len).Some?
    ensures Translate(ss, gpa, len).value + len <= hostSize && gpa + len < TWO64
  {
    TranslateSound(ss, gpa, len);
    assert ss[FindSlot(ss, gpa)] in ss;
    hide Translate, FindSlot;
  }

  /** A translated range is translated byte by byte to consecutive host bytes. */
  lemma WithinRange(ss: seq<Slot>, gpa: nat, len: nat, k: nat)
    requires WellFormed(ss) && EndsBelow(ss) && gpa < TWO64 && len < TWO64 && Translate(ss, gpa, len).Some? && k < len
    ensures Translate(ss, gpa + k, 1) == Some(Translate(ss, gpa, len).value + k)
  {
    TranslateSound(ss, gpa, len);
    TranslateComplete(ss, gpa + k, 1, FindSlot(ss, gpa));
    hide Translate, WellFormed, FindSlot;
  }

  /** A guest address outside the written range is backed by a host byte outside it. */
  lemma OtherByte(ss: seq<Slot>, hostSize: nat, gpa: nat, len: nat, a: nat)
    requires Backed(ss, hostSize) && HostDisjoint(ss) && gpa < TWO64 && len < TWO64 && a < TWO64
    requires Translate(ss, gpa, len).Some? && !(gpa <= a < gpa + len)
    ensures var h := Translate(ss, gpa, len).value;
            Translate(ss, a, 1).Some? ==> !(h <= Translate(ss, a, 1).value < h + len)
  {
    if Translate(ss, a, 1).Some? {
      TranslateSound(ss, gpa, len);
      TranslateSound(ss, a, 1);
      hide Translate, FindSlot, WellFormed;
    }
  }

  /** A host update at the translated address is a guest update. */
  lemma WriteLaw(ss: seq<Slot>, host: seq<byte>, gpa: nat, d: seq<byte>)
    requires Backed(ss, |host|) && gpa < TWO64 && |d| < TWO64 && Translate(ss, gpa, |d|).Some?
    ensures var h := Translate(ss, gpa, |d|).value;
            && h + |d| <= |host|
            && (forall k :: 0 <= k < |d| ==> Guest(ss, Put(host, h, d), gpa + k) == Some(d[k]))
            && (HostDisjoint(ss) ==> forall a: nat :: a < TWO64 && !(gpa <= a < gpa + |d|) ==>
                                       Guest(ss, Put(host, h, d), a) == Guest(ss, host, a))
  {
    InsideHost(ss, |host|, gpa, |d|);
    var now := Put(host, Translate(ss, gpa, |d|).value, d);
    forall k | 0 <= k < |d| ensures Guest(ss, now, gpa + k) == Some(d[k]) {
      WithinRange(ss, gpa, |d|, k);
    }
    if HostDisjoint(ss) {
      forall a: nat | a < TWO64 && !(gpa <= a < gpa + |d|) ensures Guest(ss, now, a) == Guest(ss, host, a) {
        OtherByte(ss, |host|, gpa, |d|, a);
      }
    }
  }
}
