/** Bytes, and the variable-length integers of section 16 of RFC 9000. */
module Varint {
  import opened Wrappers

  type byte = b: int | 0 <= b < 256

  function Pow256(n: nat): (p: nat)
    ensures p > 0
  {
    if n == 0 then 1 else 256 * Pow256(n - 1)
  }

  /** The number a byte string spells in network byte order. */
  function BigEndian(s: seq<byte>): nat {
    if s == [] then 0 else 256 * BigEndian(s[..|s| - 1]) + s[|s| - 1]
  }

  function ToBigEndian(v: nat, n: nat): (s: seq<byte>)
    ensures |s| == n
  {
    if n == 0 then [] else ToBigEndian(v / 256, n - 1) + [v % 256]
  }

  lemma {:induction false} BigEndianRoundTrip(v: nat, n: nat)
    requires v < Pow256(n)
    ensures BigEndian(ToBigEndian(v, n)) == v
  {
    if n > 0 {
      BigEndianRoundTrip(v / 256, n - 1);
      assert ToBigEndian(v, n)[..n - 1] == ToBigEndian(v / 256, n - 1);
    }
  }

  /** The first byte carries the highest digit. */
  lemma {:induction false} LeadingByte(s: seq<byte>)
    requires s != []
    ensures BigEndian(s) == s[0] * Pow256(|s| - 1) + BigEndian(s[1..])
    ensures BigEndian(s[1..]) < Pow256(|s| - 1)
  {
    if |s| > 1 {
      var init, tail, last := s[..|s| - 1], s[1..], s[|s| - 1];
      LeadingByte(init);
      assert init[1..] == tail[..|tail| - 1];
      Scale(s[0], Pow256(|s| - 2), BigEndian(init[1..]), last);
    }
  }

  lemma Scale(d: nat, p: nat, rest: nat, last: byte)
    ensures 256 * (d * p + rest) + last == d * (256 * p) + (256 * rest + last)
  {
  }

  const VARINT_LIMIT: nat := 0x4000_0000_0000_0000

  function VarintLen(v: nat): nat {
    if v < 64 then 1 else if v < 16384 then 2 else if v < 1_073_741_824 then 4 else 8
  }

  /** The two top bits of the first byte that announce a length. */
  function LengthTag(n: nat): byte {
    match n
    case 1 => 0
    case 2 => 0x40
    case 4 => 0x80
    case _ => 0xc0
  }

  function ParseLen(first: byte): nat {
    match first / 64
    case 0 => 1
    case 1 => 2
    case 2 => 4
    case _ => 8
  }

  /** The value in its shortest form; the tag lands on bits the value leaves clear. */
  function EncodeVarint(v: nat): (s: seq<byte>)
    requires v < VARINT_LIMIT
    ensures |s| == VarintLen(v)
  {
    var n := VarintLen(v);
    var plain := ToBigEndian(v, n);
    FitsUnderTag(v);
    [LengthTag(n) + plain[0]] + plain[1..]
  }

  /** The varint at the head of `s` and its length, or `None` when `s` is too short to hold it. */
  function DecodeVarint(s: seq<byte>): (r: Option<(nat, nat)>)
    ensures r.Some? ==> 1 <= r.value.1 <= 8 && r.value.1 <= |s|
  {
    if s == [] || |s| < ParseLen(s[0]) then None
    else
      var n := ParseLen(s[0]);
      Some((BigEndian(s[..n]) % (64 * Pow256(n - 1)), n))
  }

  lemma Powers()
    ensures Pow256(0) == 1 && Pow256(1) == 0x100 && Pow256(3) == 0x100_0000 && Pow256(7) == 0x100_0000_0000_0000
    ensures Pow256(2) == 0x1_0000 && Pow256(4) == 0x1_0000_0000 && Pow256(8) == 0x1_0000_0000_0000_0000
  {
    assert Pow256(3) == 256 * Pow256(2);
    assert Pow256(5) == 256 * Pow256(4);
    assert Pow256(7) == 256 * Pow256(6);
  }

  lemma FitsUnderTag(v: nat)
    requires v < VARINT_LIMIT
    ensures v < 64 * Pow256(VarintLen(v) - 1)
    ensures ToBigEndian(v, VarintLen(v))[0] < 64
  {
    var n := VarintLen(v);
    Powers();
    BigEndianRoundTrip(v, n);
    var plain := ToBigEndian(v, n);
    LeadingByte(plain);
  }

  /** Adding a multiple of the modulus does not change what masking leaves. */
  lemma MaskTag(v: nat, tag: nat, p: nat)
    requires p > 0 && v < 64 * p
    ensures (v + tag * (64 * p)) % (64 * p) == v
  {
    Remainder(v, tag, 64 * p);
  }

  lemma Remainder(r: nat, q: nat, m: nat)
    requires r < m
    ensures (r + q * m) % m == r
  {
    var x := r + q * m;
    NoMultipleBetween(q - x / m, m, x % m - r);
  }

  lemma NoMultipleBetween(k: int, m: nat, d: int)
    requires 0 - m < d < m && k * m == d
    ensures d == 0
  {
    assert k >= 1 ==> k * m >= m;
    assert k <= -1 ==> (-k) * m >= m;
  }

  /** Every value survives its encoding, whatever bytes follow. */
  lemma VarintRoundTrip(v: nat, rest: seq<byte>)
    requires v < VARINT_LIMIT
    ensures DecodeVarint(EncodeVarint(v) + rest) == Some((v, VarintLen(v)))
  {
    hide BigEndian, Pow256, ToBigEndian;
    var n, s := VarintLen(v), EncodeVarint(v);
    var plain := ToBigEndian(v, n);
    FitsUnderTag(v);
    Powers();
    BigEndianRoundTrip(v, n);
    LeadingByte(plain);
    LeadingByte(s);
    assert s[1..] == plain[1..];
    assert (s + rest)[..n] == s;
    var p, tag := Pow256(n - 1), LengthTag(n) / 64;
    assert LengthTag(n) == tag * 64;
    assert BigEndian(s) == v + tag * (64 * p) by {
      assert (LengthTag(n) + plain[0]) * p == LengthTag(n) * p + plain[0] * p;
    }
    MaskTag(v, tag, p);
    assert ParseLen(s[0]) == n;
  }

  /** More bytes behind a whole varint do not change how it reads. */
  lemma VarintPrefix(s: seq<byte>, more: seq<byte>)
    requires DecodeVarint(s).Some?
    ensures DecodeVarint(s + more) == DecodeVarint(s)
  {
    var n := ParseLen(s[0]);
    assert (s + more)[..n] == s[..n];
  }
}
