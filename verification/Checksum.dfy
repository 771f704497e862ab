/** The IPv4 header checksum (section 3.1 of RFC 791). */
module Checksum {
  import opened Varint

  const U32_LIMIT: nat := 0x1_0000_0000

  /** The sum of the header's big-endian words; a last odd byte counts as a high byte. */
  function WordSum(header: seq<byte>): nat {
    if header == [] then 0
    else if |header| == 1 then 256 * header[0]
    else 256 * header[0] + header[1] + WordSum(header[2..])
  }

  /** One's-complement folding in closed form: the residue modulo 0xffff, zero only for zero. */
  function Fold(sum: nat): (r: nat)
    ensures r <= 0xffff && (r == 0 <==> sum == 0)
  {
    if sum == 0 then 0 else 1 + (sum - 1) % 0xffff
  }

  lemma Residue(a: nat, q: nat)
    ensures (a + 0xffff * q) % 0xffff == a % 0xffff
  {
    if q > 0 {
      Residue(a, q - 1);
    }
  }

  /** Adding the carries back in does not change the folded sum. */
  lemma FoldStep(sum: nat)
    ensures Fold(sum % 0x1_0000 + sum / 0x1_0000) == Fold(sum)
  {
    var high, low := sum / 0x1_0000, sum % 0x1_0000;
    if high + low > 0 {
      Residue(high + low - 1, high);
    }
  }

  lemma {:induction false} WordSumBound(header: seq<byte>)
    ensures WordSum(header) <= 0xffff * ((|header| + 1) / 2)
  {
    if |header| >= 2 {
      WordSumBound(header[2..]);
    }
  }

  /** The sum of the words before `i`, for even `i`. */
  lemma {:induction false} WordSumSplit(header: seq<byte>, i: nat)
    requires i <= |header| && i % 2 == 0
    ensures WordSum(header) == WordSum(header[..i]) + WordSum(header[i..])
  {
    if i > 0 {
      WordSumSplit(header[2..], i - 2);
      assert header[2..][..i - 2] == header[..i][2..];
      assert header[2..][i - 2..] == header[i..];
    } else {
      assert header[0..] == header;
    }
  }

  /** Sums 16-bit words in 32 bits, folds the carries and complements; past 128 KiB the sum could wrap. */
  method Ipv4HeaderChecksum(header: seq<byte>) returns (checksum: nat)
    requires |header| <= 0x2_0000
    ensures checksum == 0xffff - Fold(WordSum(header))
  {
    var sum: nat, i := 0, 0;
    WordSumBound(header);
    while i + 1 < |header|
      invariant i <= |header| && i % 2 == 0
      invariant sum + WordSum(header[i..]) == WordSum(header)
      invariant sum < U32_LIMIT
    {
      assert header[i..][2..] == header[i + 2..];
      sum := sum + 256 * (header[i] as int) + header[i + 1] as int;
      i := i + 2;
    }
    if i < |header| {
      sum := sum + 256 * (header[i] as int);
    }
    while sum / 0x1_0000 != 0
      invariant sum < U32_LIMIT && Fold(sum) == Fold(WordSum(header))
      decreases sum
    {
      FoldStep(sum);
      sum := sum % 0x1_0000 + sum / 0x1_0000;
    }
    checksum := 0xffff - sum;
  }

  /** The header with `checksum` written into its checksum field. */
  function Stamped(header: seq<byte>, checksum: nat): seq<byte>
    requires |header| >= 12 && checksum <= 0xffff
  {
    header[..10] + [checksum / 256, checksum % 256] + header[12..]
  }

  lemma StampedSum(header: seq<byte>, checksum: nat)
    requires |header| >= 12 && checksum <= 0xffff && header[10] == header[11] == 0
    ensures WordSum(Stamped(header, checksum)) == WordSum(header) + checksum
  {
    var stamped := Stamped(header, checksum);
    WordSumSplit(header, 10);
    WordSumSplit(stamped, 10);
    assert stamped[..10] == header[..10];
    assert stamped[10..][2..] == header[10..][2..];
    assert 256 * (checksum / 256) + checksum % 256 == checksum;
  }

  /** A header stamped with its own checksum sums to all ones, which is how a receiver verifies it. */
  lemma ChecksumVerifies(header: seq<byte>)
    requires |header| >= 12 && header[10] == header[11] == 0
    ensures Fold(WordSum(Stamped(header, 0xffff - Fold(WordSum(header))))) == 0xffff
  {
    var sum := WordSum(header);
    var checksum := 0xffff - Fold(sum);
    StampedSum(header, checksum);
    if sum > 0 {
      var q := (sum - 1) / 0xffff;
      assert sum + checksum == 0xffff + 0xffff * q;
      Residue(0xfffe, q);
    }
  }
}
