/** What the MP table and the ACPI tables have in common: byte sums, runs of variable-length
    entries, and the interrupt topology a guest reads out of either. */
module Firmware {
  import opened Bytes
  import opened Common
  import opened GuestRam

  const LAPIC_BASE: nat := 0xfee0_0000
  const IOAPIC_BASE: nat := 0xfec0_0000

  /** The CPUs and the I/O APIC as a guest kernel sees them. */
  datatype Topology = Topology(apicIds: seq<byte>, ioapicId: byte, ioapicAddr: nat, lapicAddr: nat)

  /** One socket of `n` CPUs whose APIC ids are 0..n-1, and an I/O APIC with the next id. */
  function Expected(n: nat): Topology
    requires n < 256
  {
    Topology(seq(n, i requires 0 <= i < n => i), n, IOAPIC_BASE, LAPIC_BASE)
  }

  function Sum(b: seq<byte>): nat {
    if b == [] then 0 else b[0] + Sum(b[1..])
  }

  /** `mp_checksum` and `acpi_checksum`: the byte that makes the sum a multiple of 256. */
  function Checksum(b: seq<byte>): byte {
    (256 - Sum(b) % 256) % 256
  }

  lemma {:induction false} SumAppend(a: seq<byte>, b: seq<byte>)
    ensures Sum(a + b) == Sum(a) + Sum(b)
  {
    if a == [] {
      assert a + b == b;
    } else {
      assert (a + b)[1..] == a[1..] + b;
      SumAppend(a[1..], b);
    }
  }

  lemma {:induction false} SumUpdate(b: seq<byte>, k: nat, v: byte)
    requires k < |b|
    ensures Sum(b[k := v]) == Sum(b) - b[k] + v
  {
    if k == 0 {
      assert b[0 := v][1..] == b[1..];
    } else {
      assert b[k := v][1..] == b[1..][k - 1 := v];
      SumUpdate(b[1..], k - 1, v);
    }
  }

  /** Storing the checksum into a zero byte of the table makes the table sum to zero. */
  lemma ChecksumWorks(b: seq<byte>, k: nat)
    requires k < |b| && b[k] == 0
    ensures Sum(b[k := Checksum(b)]) % 256 == 0
  {
    hide Sum;
    SumUpdate(b, k, Checksum(b));
    var q, r := Sum(b) / 256, Sum(b) % 256;
    assert Sum(b) == 256 * q + r;
  }

  lemma ModAdd(sum: nat, b: nat)
    ensures (sum % 256 + b) % 256 == (sum + b) % 256
  {
    var q := sum / 256;
    assert sum + b == 256 * q + (sum % 256 + b);
  }

  lemma ExpectedNext(n: nat)
    requires 0 < n < 256
    ensures Expected(n).apicIds == Expected(n - 1).apicIds + [n - 1]
  {
  }

  lemma SumNext(m: seq<byte>, start: nat, at: nat)
    requires start <= at < |m|
    ensures Sum(m[start..at + 1]) == Sum(m[start..at]) + m[at]
  {
    assert m[start..at + 1] == m[start..at] + [m[at]];
    SumAppend(m[start..at], [m[at]]);
    assert [m[at]][1..] == [];
  }

  /** The summing loop over guest memory. */
  method SumMemory(ram: Ram, gpa: nat, len: nat) returns (c: byte)
    requires ram.Valid() && gpa + len <= ram.data.Length
    ensures c == Checksum(ram.mem[gpa..gpa + len])
  {
    var sum: byte := 0;
    var i := 0;
    assert ram.mem[gpa..gpa] == [] && Sum([]) == 0;
    hide Sum;
    while i < len
      invariant 0 <= i <= len && sum == Sum(ram.mem[gpa..gpa + i]) % 256
    {
      SumNext(ram.mem, gpa, gpa + i);
      ModAdd(Sum(ram.mem[gpa..gpa + i]), ram.mem[gpa + i]);
      sum := (sum as int + ram.data[gpa + i] as int) % 256;
      i := i + 1;
    }
    c := (256 - sum as int) % 256;
  }

  /* ---------------------------------------------------------------- */
  /* Runs of entries                                                   */
  /* ---------------------------------------------------------------- */

  /** Splits a run of entries at the lengths the entries themselves declare, and fails if
      the last one does not end exactly at the end. */
  function Split(b: seq<byte>, len: seq<byte> -> nat): Option<seq<seq<byte>>>
    decreases |b|
  {
    if b == [] then Some([])
    else
      var n := len(b);
      if n == 0 || n > |b| then None
      else match Split(b[n..], len)
        case None => None
        case Some(es) => Some([b[..n]] + es)
  }

  /** `len` finds the length of `e` whatever follows it. */
  predicate SelfSized(e: seq<byte>, len: seq<byte> -> nat, rest: seq<byte>) {
    |e| > 0 && len(e + rest) == |e|
  }

  /** Splitting undoes flattening. */
  lemma {:induction false} SplitFlatten(es: seq<seq<byte>>, len: seq<byte> -> nat)
    requires forall i :: 0 <= i < |es| ==> SelfSized(es[i], len, Flatten(es[i + 1..]))
    ensures Split(Flatten(es), len) == Some(es)
  {
    if es != [] {
      assert SelfSized(es[0], len, Flatten(es[1..]));
      forall i | 0 <= i < |es[1..]| ensures SelfSized(es[1..][i], len, Flatten(es[1..][i + 1..])) {
        assert es[1..][i + 1..] == es[i + 2..];
        assert SelfSized(es[i + 1], len, Flatten(es[i + 1 + 1..]));
      }
      SplitFlatten(es[1..], len);
      var b := Flatten(es);
      assert b == es[0] + Flatten(es[1..]) && len(b) == |es[0]|;
      assert b[|es[0]|..] == Flatten(es[1..]) && b[..|es[0]|] == es[0];
      assert [es[0]] + es[1..] == es;
    }
  }

  /** Copies an entry to the cursor: the run before it grows by the entry. */
  method Emit(ram: Ram, start: nat, p: nat, e: seq<byte>, ghost done: seq<seq<byte>>) returns (p': nat)
    requires ram.Valid() && start <= p && p + |e| <= ram.data.Length && ram.mem[start..p] == Flatten(done)
    modifies ram, ram.data
    ensures ram.Valid() && p' == p + |e| && ram.mem == Put(old(ram.mem), p, e)
    ensures ram.mem[start..p'] == Flatten(done + [e])
  {
    ram.Copy(p, e);
    p' := p + |e|;
    FlattenOne(done, e);
    assert ram.mem[start..p'] == old(ram.mem)[start..p] + e;
  }
}
