/** The Internet checksum (RFC 1071): the two loops of the tunnel code and what they compute. */
module Checksum {
  import opened Prelude

  const U32 := 0x1_0000_0000

  /** The sum of the big-endian 16-bit words, a last odd byte padded with zero. */
  function WordSum(data: bytes): nat {
    if |data| == 0 then 0
    else if |data| == 1 then Be16(data[0], 0)
    else Be16(data[0], data[1]) + WordSum(data[2..])
  }

  /** Folding the carries back in until 16 bits remain. */
  function Fold(sum: nat): (folded: nat)
    ensures folded <= 65535
  {
    if sum / 65536 == 0 then sum else Fold(sum % 65536 + sum / 65536)
  }

  /** Folding keeps the residue modulo 65535 and yields zero only for zero. */
  lemma {:induction false} FoldIsResidue(sum: nat)
    ensures Fold(sum) == if sum == 0 then 0 else (sum - 1) % 65535 + 1
  {
    if sum / 65536 != 0 {
      var next := sum % 65536 + sum / 65536;
      FoldIsResidue(next);
      assert next == sum - 65535 * (sum / 65536);
      SameResidue(next - 1, sum / 65536);
    }
  }

  lemma {:induction false} SameResidue(x: nat, q: nat)
    ensures (x + 65535 * q) % 65535 == x % 65535
  {
    if q > 0 {
      SameResidue(x, q - 1);
      assert (x + 65535 * q) % 65535 == (x + 65535 * (q - 1)) % 65535;
    }
  }

  /** The complement of the folded 32-bit sum, as the code computes it. */
  function ChecksumOf(data: bytes): (c: nat)
    ensures c <= 65535
  {
    65535 - Fold(WordSum(data) % U32)
  }

  /** All words, checksum included, add up to all ones. */
  predicate Sound(data: bytes) {
    Fold(WordSum(data)) == 65535
  }

  lemma {:induction false} WordSumBound(data: bytes)
    ensures WordSum(data) <= 65535 * ((|data| + 1) / 2)
  {
    if |data| >= 2 {
      WordSumBound(data[2..]);
    }
  }

  function Ones(words: nat): bytes {
    if words == 0 then [] else [255, 255] + Ones(words - 1)
  }

  lemma {:induction false} OnesSum(words: nat)
    ensures |Ones(words)| == 2 * words && WordSum(Ones(words)) == 65535 * words
  {
    if words > 0 {
      OnesSum(words - 1);
      assert Ones(words)[2..] == Ones(words - 1);
    }
  }

  /** The 32-bit accumulator holds every sum of `words` words exactly up to 65,537 words. */
  lemma AccumulatorSuffices(words: nat)
    ensures (forall data: bytes | |data| <= 2 * words :: WordSum(data) < U32) <==> words <= 65537
  {
    if words <= 65537 {
      forall data: bytes | |data| <= 2 * words ensures WordSum(data) < U32 {
        WordSumBound(data);
      }
    } else {
      OnesSum(words);
      assert |Ones(words)| <= 2 * words;
    }
  }

  /** Overwriting an aligned word changes the sum by the difference of the words. */
  lemma {:induction false} SumOfUpdate(data: bytes, off: nat, hi: byte, lo: byte)
    requires off % 2 == 0 && off + 1 < |data|
    ensures WordSum(data[off := hi][off + 1 := lo]) + Be16(data[off], data[off + 1]) == WordSum(data) + Be16(hi, lo)
  {
    var d := data[off := hi][off + 1 := lo];
    if off == 0 {
      assert d[2..] == data[2..];
    } else {
      SumOfUpdate(data[2..], off - 2, hi, lo);
      assert d[2..] == data[2..][off - 2 := hi][off - 1 := lo];
    }
  }

  /** A sum completed by the complement of its fold folds to all ones. */
  lemma CompletedFold(sum: nat)
    ensures Fold(sum + (65535 - Fold(sum))) == 65535
  {
    FoldIsResidue(sum);
    var total := sum + (65535 - Fold(sum));
    FoldIsResidue(total);
    if sum > 0 {
      var q := (sum - 1) / 65535;
      assert total - 1 == 65534 + 65535 * q;
      SameResidue(65534, q);
    }
  }

  lemma ChecksumIsExact(data: bytes)
    requires |data| <= 131_074
    ensures ChecksumOf(data) == 65535 - Fold(WordSum(data))
  {
    WordSumBound(data);
    assert (|data| + 1) / 2 <= 65537;
    FitsU32(WordSum(data), (|data| + 1) / 2);
  }

  lemma FitsU32(sum: nat, words: nat)
    requires sum <= 65535 * words && words <= 65537
    ensures sum < U32 && sum % U32 == sum
  {
    assert 65535 * words <= 65535 * 65537;
  }

  /** The checksum written into a zeroed, aligned field makes the data sound. */
  lemma ChecksumMakesSound(data: bytes, off: nat)
    requires off % 2 == 0 && off + 1 < |data| <= 131_074 && data[off] == data[off + 1] == 0
    ensures Sound(data[off := ChecksumOf(data) / 256][off + 1 := ChecksumOf(data) % 256])
  {
    var c := ChecksumOf(data);
    ChecksumIsExact(data);
    SumOfUpdate(data, off, c / 256, c % 256);
    CompletedFold(WordSum(data));
  }

  /** Any two checksums that make the same data sound differ at most by the two zeros. */
  lemma SoundChecksumsAgree(sum: nat, c: nat, d: nat)
    requires c <= 65535 && d <= 65535 && Fold(sum + c) == 65535 && Fold(sum + d) == 65535
    ensures c == d || (c == 0 && d == 65535) || (c == 65535 && d == 0)
  {
    MultipleOfOnes(sum + c);
    MultipleOfOnes(sum + d);
    assert c - d == 65535 * ((sum + c) / 65535 - (sum + d) / 65535);
  }

  lemma MultipleOfOnes(sum: nat)
    requires Fold(sum) == 65535
    ensures sum == 65535 * (sum / 65535)
  {
    FoldIsResidue(sum);
  }

  method FoldSum(sum: nat) returns (folded: nat)
    ensures folded == Fold(sum)
  {
    folded := sum;
    while folded / 65536 != 0
      invariant Fold(folded) == Fold(sum)
      decreases folded
    {
      folded := folded % 65536 + folded / 65536;
    }
  }

  lemma AddWord(before: nat, word: nat, rest: nat, all: nat)
    requires all == before + word + rest
    ensures (before % U32 + word) % U32 == (before + word) % U32
  {
  }

  /** The loop over all words. */
  method InternetChecksum(data: bytes) returns (c: nat)
    ensures c == ChecksumOf(data)
  {
    var sum: nat, i: nat := 0, 0;
    ghost var done: nat := 0;
    while i + 1 < |data|
      invariant i % 2 == 0 && i <= |data|
      invariant done + WordSum(data[i..]) == WordSum(data) && sum == done % U32
    {
      assert data[i..][2..] == data[i + 2..];
      var word := Be16(data[i], data[i + 1]);
      AddWord(done, word, WordSum(data[i + 2..]), WordSum(data));
      sum, done := (sum + word) % U32, done + word;
      i := i + 2;
    }
    if i < |data| {
      AddWord(done, Be16(data[i], 0), 0, WordSum(data));
      sum := (sum + Be16(data[i], 0)) % U32;
    }
    var folded := FoldSum(sum);
    c := 65535 - folded;
  }

  /** The header with its checksum field cleared. */
  function Cleared(header: bytes): bytes {
    seq(|header|, i requires 0 <= i < |header| => if i == 10 || i == 11 then 0 else header[i])
  }

  /** The loop that skips bytes 10 and 11 computes the checksum of the cleared header. */
  method IpChecksum(header: bytes) returns (c: nat)
    ensures c == ChecksumOf(Cleared(header))
  {
    ghost var data := Cleared(header);
    var sum: nat, i: nat := 0, 0;
    ghost var done: nat := 0;
    while i < |header|
      invariant i % 2 == 0 && i <= |header| + 1
      invariant done + (if i < |header| then WordSum(data[i..]) else 0) == WordSum(data) && sum == done % U32
    {
      if i + 2 <= |header| {
        assert data[i..][2..] == data[i + 2..];
      }
      if i == 10 {
        i := i + 2;
        continue;
      }
      var word := if i + 1 < |header| then Be16(header[i], header[i + 1]) else Be16(header[i], 0);
      AddWord(done, word, WordSum(data) - done - word, WordSum(data));
      sum, done := (sum + word) % U32, done + word;
      i := i + 2;
    }
    var folded := FoldSum(sum);
    c := 65535 - folded;
  }
}
