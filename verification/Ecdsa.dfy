/** Fixed-width encoding of an ECDSA signature as R || S (section 3.4 of
    RFC 7518), written into one byte buffer by two right-aligned copies. */
module Ecdsa {
  import opened Strings

  function Pow2(n: nat): (p: nat)
    ensures p > 0
  {
    if n == 0 then 1 else 2 * Pow2(n - 1)
  }

  function Pow256(n: nat): (p: nat)
    ensures p > 0
  {
    if n == 0 then 1 else 256 * Pow256(n - 1)
  }

  /** `big.Int.SetBytes`: big-endian. */
  function Number(s: seq<byte>): nat {
    if s == [] then 0 else Number(s[..|s| - 1]) * 256 + s[|s| - 1]
  }

  /** `big.Int.Bytes`: big-endian without leading zeros. */
  function Bytes(n: nat): (s: seq<byte>)
    ensures Number(s) == n
    ensures s != [] ==> s[0] != 0
  {
    if n == 0 then []
    else
      var s := Bytes(n / 256) + [n % 256];
      assert s[..|s| - 1] == Bytes(n / 256);
      s
  }

  /** `CurveByteSize`. */
  function ByteSize(bits: nat): nat { (bits + 7) / 8 }

  /** A number has at most `k` minimal bytes exactly when it is below 256^k. */
  lemma {:induction false} BytesLength(n: nat, k: nat)
    ensures |Bytes(n)| <= k <==> n < Pow256(k)
    decreases k
  {
    if k > 0 && n > 0 {
      BytesLength(n / 256, k - 1);
    }
  }

  lemma Nibble(e: nat)
    ensures Pow2(e + 4) == 16 * Pow2(e)
  {
    assert Pow2(e + 2) == 4 * Pow2(e) && Pow2(e + 4) == 4 * Pow2(e + 2);
  }

  lemma {:induction false} Pow256IsPow2(k: nat)
    ensures Pow256(k) == Pow2(8 * k)
  {
    if k > 0 {
      Pow256IsPow2(k - 1);
      var e := 8 * (k - 1);
      Nibble(e);
      Nibble(e + 4);
    }
  }

  lemma {:induction false} Pow2Grows(a: nat, b: nat)
    requires a <= b
    ensures Pow2(a) <= Pow2(b)
    decreases b
  {
    if a < b { Pow2Grows(a, b - 1); }
  }

  /** Every number below 2^bits fits into the curve's byte size. */
  lemma FitsInByteSize(n: nat, bits: nat)
    requires n < Pow2(bits)
    ensures |Bytes(n)| <= ByteSize(bits)
  {
    Pow2Grows(bits, 8 * ByteSize(bits));
    Pow256IsPow2(ByteSize(bits));
    BytesLength(n, ByteSize(bits));
  }

  function Zeros(n: nat): (z: seq<byte>)
    ensures |z| == n && forall i :: 0 <= i < n ==> z[i] == 0
  {
    seq(n, i => 0)
  }

  lemma {:induction false} LeadingZeros(n: nat, s: seq<byte>)
    ensures Number(Zeros(n) + s) == Number(s)
    decreases |s|, n
  {
    if s != [] {
      LeadingZeros(n, s[..|s| - 1]);
      assert (Zeros(n) + s)[..n + |s| - 1] == Zeros(n) + s[..|s| - 1];
    } else if n > 0 {
      LeadingZeros(n - 1, []);
      assert (Zeros(n) + s)[..n - 1] == Zeros(n - 1) + [];
    }
  }

  /** `n` right-aligned in `size` bytes. */
  function Pad(n: nat, size: nat): (s: seq<byte>)
    requires |Bytes(n)| <= size
    ensures |s| == size && Number(s) == n
  {
    LeadingZeros(size - |Bytes(n)|, Bytes(n));
    Zeros(size - |Bytes(n)|) + Bytes(n)
  }

  /** Equal-length byte strings with the same value are the same. */
  lemma {:induction false} NumberInjective(a: seq<byte>, b: seq<byte>)
    requires |a| == |b| && Number(a) == Number(b)
    ensures a == b
  {
    if a != [] {
      NumberInjective(a[..|a| - 1], b[..|b| - 1]);
      assert a == a[..|a| - 1] + [a[|a| - 1]] && b == b[..|b| - 1] + [b[|b| - 1]];
    }
  }

  lemma {:induction false} NumberBound(s: seq<byte>)
    ensures Number(s) < Pow256(|s|)
  {
    if s != [] { NumberBound(s[..|s| - 1]); }
  }

  function EncodeRaw(bits: nat, r: nat, s: nat): (sig: seq<byte>)
    requires |Bytes(r)| <= ByteSize(bits) && |Bytes(s)| <= ByteSize(bits)
    ensures |sig| == 2 * ByteSize(bits)
  {
    Pad(r, ByteSize(bits)) + Pad(s, ByteSize(bits))
  }

  /** The halves of a buffer of the expected length. */
  function DecodeRaw(bits: nat, sig: seq<byte>): Option<(nat, nat)> {
    var size := ByteSize(bits);
    if |sig| != 2 * size then None else Some((Number(sig[..size]), Number(sig[size..])))
  }

  /** Splitting the buffer in half recovers r and s, for every bit size. */
  lemma RawRoundTrip(bits: nat, r: nat, s: nat)
    requires r < Pow2(bits) && s < Pow2(bits)
    ensures |Bytes(r)| <= ByteSize(bits) && |Bytes(s)| <= ByteSize(bits)
    ensures DecodeRaw(bits, EncodeRaw(bits, r, s)) == Some((r, s))
  {
    FitsInByteSize(r, bits);
    FitsInByteSize(s, bits);
    var size := ByteSize(bits);
    var sig := EncodeRaw(bits, r, s);
    assert sig[..size] == Pad(r, size) && sig[size..] == Pad(s, size);
  }

  /** Every buffer of the right length is the encoding of what it decodes to. */
  lemma RawOnto(bits: nat, sig: seq<byte>)
    requires |sig| == 2 * ByteSize(bits)
    ensures var size := ByteSize(bits);
            var (r, s) := DecodeRaw(bits, sig).value;
            |Bytes(r)| <= size && |Bytes(s)| <= size && EncodeRaw(bits, r, s) == sig
  {
    var size := ByteSize(bits);
    HalfOnto(sig[..size]);
    HalfOnto(sig[size..]);
    assert sig == sig[..size] + sig[size..];
  }

  lemma HalfOnto(half: seq<byte>)
    ensures |Bytes(Number(half))| <= |half| && Pad(Number(half), |half|) == half
  {
    NumberBound(half);
    BytesLength(Number(half), |half|);
    NumberInjective(Pad(Number(half), |half|), half);
  }

  /** Go's `copy(dst[lo:hi], src)` when `src` fills the slice. */
  method CopyInto(dst: array<byte>, lo: nat, hi: nat, src: seq<byte>)
    requires lo <= hi <= dst.Length && |src| == hi - lo
    modifies dst
    ensures dst[..] == old(dst[..lo]) + src + old(dst[hi..])
  {
    for i := 0 to |src|
      invariant forall k :: 0 <= k < dst.Length && !(lo <= k < lo + i) ==> dst[k] == old(dst[k])
      invariant forall k :: 0 <= k < i ==> dst[lo + k] == src[k]
    {
      dst[lo + i] := src[i];
    }
    assert forall k :: lo <= k < hi ==> dst[k] == src[k - lo] by {
      forall k | lo <= k < hi ensures dst[k] == src[k - lo] { assert dst[lo + (k - lo)] == src[k - lo]; }
    }
  }

  /** Fills the signature buffer: both copies stay inside their own half. */
  method FillSignature(bits: nat, r: nat, s: nat) returns (sig: array<byte>)
    requires |Bytes(r)| <= ByteSize(bits) && |Bytes(s)| <= ByteSize(bits)
    ensures fresh(sig) && sig[..] == EncodeRaw(bits, r, s)
  {
    var size := ByteSize(bits);
    sig := new byte[2 * size](i => 0);
    var rBytes, sBytes := Bytes(r), Bytes(s);
    assert sig[..] == Zeros(2 * size);
    CopyInto(sig, size - |rBytes|, size, rBytes);
    FirstHalf(size, rBytes);
    assert sig[..] == Zeros(size - |rBytes|) + rBytes + Zeros(size);
    SecondHalf(size, Zeros(size - |rBytes|) + rBytes, sBytes);
    CopyInto(sig, 2 * size - |sBytes|, 2 * size, sBytes);
  }

  lemma FirstHalf(size: nat, bytes: seq<byte>)
    requires |bytes| <= size
    ensures var z := Zeros(2 * size);
            z[..size - |bytes|] + bytes + z[size..] == Zeros(size - |bytes|) + bytes + Zeros(size)
  {
    assert Zeros(2 * size)[..size - |bytes|] == Zeros(size - |bytes|);
    assert Zeros(2 * size)[size..] == Zeros(size);
  }

  lemma SecondHalf(size: nat, half: seq<byte>, bytes: seq<byte>)
    requires |bytes| <= size && |half| == size
    ensures var z := half + Zeros(size);
            z[..2 * size - |bytes|] + bytes + z[2 * size..] == half + (Zeros(size - |bytes|) + bytes)
  {
    assert (half + Zeros(size))[..2 * size - |bytes|] == half + Zeros(size - |bytes|);
  }
}
