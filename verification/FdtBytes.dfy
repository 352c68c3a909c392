/** Big-endian numbers and NUL-terminated names in a byte sequence. */
module FdtBytes {
  import opened Abi

  type byte = x: int | 0 <= x < 256

  type Bytes = seq<byte>

  /** The value of a big-endian number. */
  function ReadBe(b: Bytes): nat {
    if b == [] then 0 else ReadBe(b[..|b| - 1]) * 256 + b[|b| - 1]
  }

  /** The low n bytes of v, big-endian. */
  function Be(n: nat, v: nat): (b: Bytes)
    ensures |b| == n
  {
    if n == 0 then [] else Be(n - 1, v / 256) + [v % 256]
  }

  function Pow256(n: nat): (p: nat)
    ensures p > 0
  {
    if n == 0 then 1 else 256 * Pow256(n - 1)
  }

  lemma {:induction false} BeReads(n: nat, v: nat)
    requires v < Pow256(n)
    ensures ReadBe(Be(n, v)) == v
  {
    if n > 0 {
      var b := Be(n, v);
      assert b[..n - 1] == Be(n - 1, v / 256) && b[n - 1] == v % 256;
      BeReads(n - 1, v / 256);
    }
  }

  lemma {:induction false} ReadBound(b: Bytes)
    ensures ReadBe(b) < Pow256(|b|)
  {
    if b != [] {
      ReadBound(b[..|b| - 1]);
    }
  }

  lemma Words()
    ensures Pow256(4) == 0x1_0000_0000 && Pow256(8) == TWO_64
  {
    assert Pow256(2) == 0x1_0000;
    assert Pow256(4) == 0x1_0000_0000;
    assert Pow256(6) == 0x1_0000_0000_0000;
  }

  lemma {:induction false} ReadJoin(a: Bytes, b: Bytes)
    ensures ReadBe(a + b) == ReadBe(a) * Pow256(|b|) + ReadBe(b)
  {
    if b == [] {
      assert a + b == a;
    } else {
      var n := |b| - 1;
      ReadJoin(a, b[..n]);
      assert (a + b)[..|a| + n] == a + b[..n];
      assert (a + b)[|a| + n] == b[n];
    }
  }

  /** The first NUL in [start, end). */
  function FindNul(blob: Bytes, start: nat, end: nat): (r: Option<nat>)
    requires start <= end <= |blob|
    ensures r.Some? ==> start <= r.value < end && blob[r.value] == 0 && forall i :: start <= i < r.value ==>
              blob[i] != 0
    ensures r.None? ==> forall i :: start <= i < end ==> blob[i] != 0
    decreases end - start
  {
    if start == end then None
    else if blob[start] == 0 then Some(start)
    else FindNul(blob, start + 1, end)
  }

  method FindNulLoop(blob: Bytes, start: nat, end: nat) returns (r: Option<nat>)
    requires start <= end <= |blob|
    ensures r == FindNul(blob, start, end)
  {
    var i := start;
    while i < end
      invariant start <= i <= end && FindNul(blob, start, end) == FindNul(blob, i, end)
    {
      if blob[i] == 0 {
        return Some(i);
      }
      i := i + 1;
    }
    r := None;
  }

  predicate NoNul(name: Bytes) {
    forall i :: 0 <= i < |name| ==> name[i] != 0
  }

  /** A NUL-free name followed by a NUL is found whole. */
  lemma FindName(blob: Bytes, start: nat, end: nat, name: Bytes)
    requires start <= end <= |blob| && NoNul(name) && start + |name| < end
    requires blob[start..start + |name|] == name && blob[start + |name|] == 0
    ensures FindNul(blob, start, end) == Some(start + |name|)
  {
    assert forall i :: 0 <= i < |name| ==> blob[start + i] == name[i];
  }

  function Zeros(n: nat): Bytes {
    seq(n, _ => 0)
  }

  /** `align4`. */
  function Up4(n: nat): nat {
    (n + 3) / 4 * 4
  }

  /** What brings a length to a multiple of four. */
  function Pad(n: nat): Bytes {
    Zeros(Up4(n) - n)
  }
}
