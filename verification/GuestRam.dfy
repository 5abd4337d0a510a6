/** Guest RAM as the boot code sees it: one slot starting at guest physical address 0. */
module GuestRam {
  import opened Bytes

  /** `gpa_to_hva` on the single RAM slot [0, size): the range is nonempty and inside. */
  predicate InRam(size: nat, gpa: nat, len: nat) {
    len > 0 && gpa + len <= size
  }

  class Ram {
    const data: array<byte>
    ghost var mem: seq<byte>  // the contents of data

    ghost predicate Valid()
      reads this, data
    {
      mem == data[..]
    }

    constructor (size: nat)
      ensures Valid() && fresh(data) && mem == Zeros(size)
    {
      data := new byte[size](_ => 0);
      mem := Zeros(size);
    }

    predicate Has(gpa: nat, len: nat) {
      InRam(data.Length, gpa, len)
    }

    /** memcpy into guest memory. */
    method Copy(gpa: nat, d: seq<byte>)
      requires Valid() && gpa + |d| <= data.Length
      modifies this, data
      ensures Valid() && mem == Put(old(mem), gpa, d)
    {
      forall k | 0 <= k < |d| {
        data[gpa + k] := d[k];
      }
      mem := Put(mem, gpa, d);
    }

    /** memset(…, 0, len). */
    method Clear(gpa: nat, len: nat)
      requires Valid() && gpa + len <= data.Length
      modifies this, data
      ensures Valid() && mem == Put(old(mem), gpa, Zeros(len))
    {
      forall k | gpa <= k < gpa + len {
        data[k] := 0;
      }
      mem := Put(mem, gpa, Zeros(len));
    }

    /** A store of `n` bytes, truncating `v` to that width. */
    method Store(gpa: nat, v: nat, n: nat)
      requires Valid() && gpa + n <= data.Length
      modifies this, data
      ensures Valid() && mem == Put(old(mem), gpa, Le(v, n))
    {
      Copy(gpa, Le(v, n));
    }

    method Fetch(gpa: nat, n: nat) returns (v: nat)
      requires Valid() && gpa + n <= data.Length
      ensures v == Load(mem, gpa, n)
    {
      v := FromLe(data[gpa..gpa + n]);
    }
  }

  /** `m'` differs from `m` at most inside [lo, hi). */
  ghost predicate SameOutside(m: seq<byte>, m': seq<byte>, lo: nat, hi: nat) {
    |m'| == |m| && forall a :: 0 <= a < |m| && !(lo <= a < hi) ==> m'[a] == m[a]
  }
}
