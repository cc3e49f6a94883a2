/** Private.Scalar of client/keys.go: clamping a digest as in section 5.1.5 of RFC 8032. */
module ScalarClamp {

  /** The little-endian integer of a byte string. */
  function LittleEndian(bytes: seq<nat>): nat {
    if |bytes| == 0 then 0 else bytes[0] + 256 * LittleEndian(bytes[1..])
  }

  function Values(bytes: seq<bv8>): (values: seq<nat>)
    ensures |values| == |bytes| && forall i :: 0 <= i < |bytes| ==> values[i] == bytes[i] as nat < 256
  {
    seq(|bytes|, i requires 0 <= i < |bytes| => bytes[i] as nat)
  }

  function Pow256(k: nat): nat {
    if k == 0 then 1 else 256 * Pow256(k - 1)
  }

  function Pow2(k: nat): nat {
    if k == 0 then 1 else 2 * Pow2(k - 1)
  }

  lemma EightBits(n: nat)
    ensures Pow2(n + 6) == 64 * Pow2(n) && Pow2(n + 7) == 128 * Pow2(n) && Pow2(n + 8) == 256 * Pow2(n)
  {
    assert Pow2(n + 4) == 2 * Pow2(n + 3) == 4 * Pow2(n + 2) == 8 * Pow2(n + 1) == 16 * Pow2(n);
    assert Pow2(n + 8) == 2 * Pow2(n + 7) == 4 * Pow2(n + 6) == 8 * Pow2(n + 5) == 16 * Pow2(n + 4);
  }

  lemma {:induction false} BytesAreBits(k: nat)
    ensures Pow256(k) == Pow2(8 * k) && Pow256(k) > 0
  {
    if k > 0 {
      BytesAreBits(k - 1);
      EightBits(8 * (k - 1));
    }
  }

  // ----- The masks

  function Clamped(digest: seq<bv8>): seq<bv8>
    requires |digest| == 64
  {
    digest[0 := digest[0] & 248][31 := (digest[31] & 127) | 64]
  }

  lemma LowMask(b: bv8)
    ensures (b & 248) as nat == b as nat - b as nat % 8
  {
  }

  lemma HighMask(b: bv8)
    ensures ((b & 127) | 64) as nat == 64 + b as nat % 64
  {
  }

  // ----- The integer

  lemma {:induction false} TopByte(low: seq<nat>, top: nat)
    requires forall i :: 0 <= i < |low| ==> low[i] < 256
    ensures LittleEndian(low) < Pow256(|low|)
    ensures LittleEndian(low + [top]) == LittleEndian(low) + Pow256(|low|) * top
  {
    if |low| > 0 {
      TopByte(low[1..], top);
      assert (low + [top])[1..] == low[1..] + [top];
      var p := Pow256(|low| - 1);
      assert (256 * p) * top == 256 * (p * top);
    }
  }

  lemma WithTop(x: seq<nat>, y: seq<nat>, n: nat, top: nat)
    requires |x| == |y| == n + 1 && y == x[n := top] && forall i :: 0 <= i < n ==> x[i] < 256
    ensures LittleEndian(x[..n]) < Pow256(n) && LittleEndian(y) == LittleEndian(x[..n]) + Pow256(n) * top
  {
    TopByte(x[..n], top);
    assert y == x[..n] + [top];
  }

  /** Clearing three bits of the first byte takes the remainder modulo 8 off the integer. */
  lemma LowByte(bytes: seq<nat>, b: nat)
    requires |bytes| > 0 && b == bytes[0] - bytes[0] % 8
    ensures LittleEndian(bytes) % 8 == bytes[0] % 8
    ensures LittleEndian(bytes[0 := b]) == LittleEndian(bytes) - bytes[0] % 8
  {
    var rest := LittleEndian(bytes[1..]);
    assert bytes[0 := b][1..] == bytes[1..];
    assert (bytes[0] + 8 * (32 * rest)) % 8 == bytes[0] % 8;
  }

  lemma Distribute(p: nat, q: nat, r: nat)
    requires r <= 63
    ensures p * (64 * q + r) == (64 * p) * q + p * r && p * (64 + r) == 64 * p + p * r
    ensures p * r <= 63 * p
  {
    assert p * r <= p * 63;
  }

  /** Dividing by 64 * p: the top byte gives the quotient and what is left of it stays. */
  lemma ClampBytes(x: seq<nat>, y: seq<nat>, n: nat) returns (q: nat, r: nat)
    requires 0 < n && |x| == |y| == n + 1 && forall i :: 0 <= i <= n ==> x[i] < 256
    requires y == x[0 := x[0] - x[0] % 8][n := 64 + x[n] % 64]
    ensures LittleEndian(x) == (64 * Pow256(n)) * q + r && r < 64 * Pow256(n)
    ensures LittleEndian(y) == 64 * Pow256(n) + r - x[0] % 8 && x[0] % 8 <= r
    ensures r == LittleEndian(x[n := x[n] % 64])
  {
    var low := x[..n];
    q := x[n] / 64;
    r := LittleEndian(low) + Pow256(n) * (x[n] % 64);
    WithTop(x, x, n, x[n]);
    WithTop(x, x[n := x[n] % 64], n, x[n] % 64);
    WithTop(y, y, n, y[n]);
    assert y[..n] == low[0 := x[0] - x[0] % 8];
    LowByte(low, x[0] - x[0] % 8);
    Distribute(Pow256(n), q, x[n] % 64);
  }

  lemma MaskedBytes(digest: seq<bv8>, x: seq<nat>, y: seq<nat>)
    requires |digest| == 64 && x == Values(digest[..32]) && y == Values(Clamped(digest)[..32])
    ensures |x| == |y| == 32 && y == x[0 := x[0] - x[0] % 8][31 := 64 + x[31] % 64]
  {
    LowMask(digest[0]);
    HighMask(digest[31]);
  }

  /** The same for any length, with the set bit counted in bits. */
  lemma ClampBits(x: seq<nat>, y: seq<nat>, bit: nat) returns (q: nat, r: nat)
    requires |x| == |y| > 1 && forall i :: 0 <= i < |x| ==> x[i] < 256
    requires y == x[0 := x[0] - x[0] % 8][|x| - 1 := 64 + x[|x| - 1] % 64]
    requires bit == 8 * |x| - 2
    ensures LittleEndian(x) == Pow2(bit) * q + r && r < Pow2(bit)
    ensures LittleEndian(y) == Pow2(bit) + r - r % 8
  {
    var n := |x| - 1;
    q, r := ClampBytes(x, y, n);
    LowByte(x[n := x[n] % 64], x[0] - x[0] % 8);
    TopPower(n, bit);
  }

  lemma TopPower(n: nat, bit: nat)
    requires bit == 8 * n + 6
    ensures Pow2(bit) == 64 * Pow256(n) && Pow2(bit + 1) == 2 * Pow2(bit)
  {
    BytesAreBits(n);
    EightBits(8 * n);
  }

  lemma ClampRange(scalar: nat, p: nat, r: nat)
    requires r < 64 * p && scalar == 64 * p + r - r % 8
    ensures scalar % 8 == 0 && 64 * p <= scalar < 2 * (64 * p)
  {
    assert scalar == 8 * (8 * p + r / 8);
  }

  /** The last bit but one of the first half of a digest. */
  function TopBit(digest: seq<bv8>): (bit: nat)
    requires |digest| == 64
    ensures bit == 254
  {
    8 * (|digest| / 2) - 2
  }

  /**
   The scalar of a digest: the integer of its first half is q * 2^254 + r, and
   clamping leaves 2^254 + r with the three lowest bits of r cleared, a multiple
   of 8 in [2^254, 2^255).
   */
  lemma ClampedScalar(digest: seq<bv8>) returns (q: nat, r: nat)
    requires |digest| == 64
    ensures LittleEndian(Values(digest[..32])) == Pow2(TopBit(digest)) * q + r && r < Pow2(TopBit(digest))
    ensures var scalar, power := LittleEndian(Values(Clamped(digest)[..32])), Pow2(TopBit(digest));
            scalar == power + r - r % 8 && scalar % 8 == 0 && power <= scalar < 2 * power
  {
    var x, y := Values(digest[..32]), Values(Clamped(digest)[..32]);
    MaskedBytes(digest, x, y);
    q, r := ClampBits(x, y, TopBit(digest));
    TopPower(|x| - 1, TopBit(digest));
    ClampRange(LittleEndian(y), Pow256(|x| - 1), r);
  }

  lemma ClampIdempotent(digest: seq<bv8>)
    requires |digest| == 64
    ensures Clamped(Clamped(digest)) == Clamped(digest)
  {
    var b, t := digest[0], digest[31];
    assert (b & 248) & 248 == b & 248;
    assert (((t & 127) | 64) & 127) | 64 == (t & 127) | 64;
  }

  /** The three masks, in place. */
  method Mask(digest: array<bv8>)
    requires digest.Length == 64
    modifies digest
    ensures digest[..] == Clamped(old(digest[..]))
  {
    digest[0] := digest[0] & 248;
    digest[31] := digest[31] & 127;
    digest[31] := digest[31] | 64;
  }

  /** Scalar on its digest: the integer comes out clamped and the other half of the digest untouched. */
  method Clamp(digest: array<bv8>) returns (ghost q: nat, ghost r: nat)
    requires digest.Length == 64
    modifies digest
    ensures var power := Pow2(TopBit(old(digest[..])));
            && LittleEndian(Values(old(digest[..])[..32])) == power * q + r && r < power
            && LittleEndian(Values(digest[..][..32])) == power + r - r % 8
    ensures digest[..][32..] == old(digest[..])[32..]
  {
    ghost var before := digest[..];
    Mask(digest);
    q, r := ClampedScalar(before);
  }
}
