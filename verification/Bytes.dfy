/** Bytes, and unsigned integers written in little-endian order. */
module Bytes {
  type byte = x: int | 0 <= x < 256
  type Payload = seq<byte>

  /** The number of values of an unsigned integer of `k` bytes. */
  function Values(k: nat): (n: nat)
    ensures n > 0
  {
    if k == 0 then 1 else 256 * Values(k - 1)
  }

  const U32: nat := 0x1_0000_0000
  const U64: nat := 0x1_0000_0000_0000_0000

  lemma Widths()
    ensures Values(4) == U32 && Values(8) == U64
  {
    assert Values(4) == 256 * 256 * 256 * 256 * Values(0);
    assert Values(8) == 256 * 256 * 256 * 256 * Values(4);
  }

  /** The low `k` bytes of `n`, least significant first. */
  function ToLe(n: nat, k: nat): (bytes: Payload)
    ensures |bytes| == k
    decreases k
  {
    if k == 0 then [] else [n % 256] + ToLe(n / 256, k - 1)
  }

  function FromLe(bytes: Payload): (n: nat)
    ensures n < Values(|bytes|)
  {
    if bytes == [] then 0 else bytes[0] + 256 * FromLe(bytes[1..])
  }

  /** What was written is read back, as long as it fits. */
  lemma {:induction false} LeRoundTrip(n: nat, k: nat)
    ensures FromLe(ToLe(n, k)) == n <==> n < Values(k)
    decreases k
  {
    if k > 0 {
      LeRoundTrip(n / 256, k - 1);
      assert ToLe(n, k)[1..] == ToLe(n / 256, k - 1);
      assert n == 256 * (n / 256) + n % 256;
    }
  }

  /** Every field of `k` bytes is the writing of what it reads as. */
  lemma {:induction false} LeOnto(bytes: Payload)
    ensures ToLe(FromLe(bytes), |bytes|) == bytes
  {
    if bytes != [] {
      LeOnto(bytes[1..]);
      var rest := FromLe(bytes[1..]);
      assert (bytes[0] + 256 * rest) % 256 == bytes[0];
      assert (bytes[0] + 256 * rest) / 256 == rest;
    }
  }

  lemma AtLeastOnce(k: nat, d: nat)
    requires k > 0
    ensures k * d >= d
  {
  }

  lemma TimesLess(p: nat, q: nat, d: nat)
    requires p < q
    ensures p * d + d <= q * d
  {
    assert q * d == p * d + (q - p) * d;
    AtLeastOnce(q - p, d);
  }

  /** A quotient and a remainder are the only ones there are. */
  lemma QuotientUnique(d: nat, q: nat, rest: nat, p: nat, left: nat)
    requires rest < d && left < d && q * d + rest == p * d + left
    ensures q == p && rest == left
  {
    if p < q {
      TimesLess(p, q, d);
    } else if q < p {
      TimesLess(q, p, d);
    }
  }

  lemma Divide(n: nat, d: nat) returns (q: nat, rest: nat)
    requires d > 0
    ensures q == n / d && n == q * d + rest && rest < d
  {
    q, rest := n / d, n % d;
  }

  lemma TimesAgain(d: nat, h: nat)
    ensures 256 * (d * h) == (256 * d) * h
  {
  }

  lemma NestQuotients(n: nat, d: nat, q: nat, rest: nat, p: nat, left: nat)
    requires n / 256 == q * d + rest && rest < d
    requires n == p * (256 * d) + left && left < 256 * d
    ensures q == p
  {
    TimesAgain(d, q);
    QuotientUnique(256 * d, q, 256 * rest + n % 256, p, left);
  }

  lemma DivideTwice(n: nat, d: nat)
    requires d > 0
    ensures n / 256 / d == n / (256 * d)
  {
    var q, rest := Divide(n / 256, d);
    var wide := 256 * d;
    var p, left := Divide(n, wide);
    NestQuotients(n, d, q, rest, p, left);
  }

  /** The order of the octets: octet `j` counts 256 to the power of `j`. */
  lemma {:induction false} LeDigit(n: nat, k: nat, j: nat)
    requires j < k
    ensures ToLe(n, k)[j] == n / Values(j) % 256
    decreases k
  {
    if j > 0 {
      LeDigit(n / 256, k - 1, j - 1);
      DivideTwice(n, Values(j - 1));
    }
  }

  /** What comes first counts least. */
  lemma {:induction false} LeConcat(low: Payload, high: Payload)
    ensures FromLe(low + high) == FromLe(low) + Values(|low|) * FromLe(high)
  {
    if low == [] {
      assert low + high == high;
    } else {
      LeConcat(low[1..], high);
      assert (low + high)[1..] == low[1..] + high;
      TimesAgain(Values(|low| - 1), FromLe(high));
    }
  }

  function Zeros(k: nat): (zeros: Payload)
    ensures |zeros| == k && forall i | 0 <= i < k :: zeros[i] == 0
  {
    seq(k, _ => 0)
  }

  // ---------- Fields one after the other ----------

  function Lay(fields: seq<Payload>): (bytes: Payload) {
    if fields == [] then [] else fields[0] + Lay(fields[1..])
  }

  /** Where field `i` begins. */
  function Offset(fields: seq<Payload>, i: nat): (offset: nat)
    requires i <= |fields|
  {
    if i == 0 then 0 else Offset(fields, i - 1) + |fields[i - 1]|
  }

  lemma {:induction false} OffsetShift(fields: seq<Payload>, i: nat)
    requires 0 < i <= |fields|
    ensures Offset(fields, i) == |fields[0]| + Offset(fields[1..], i - 1)
  {
    if i > 1 {
      OffsetShift(fields, i - 1);
    }
  }

  lemma {:induction false} LayLength(fields: seq<Payload>)
    ensures |Lay(fields)| == Offset(fields, |fields|)
  {
    if fields != [] {
      LayLength(fields[1..]);
      OffsetShift(fields, |fields|);
    }
  }

  /** Each field is found at its offset. */
  lemma {:induction false} LayField(fields: seq<Payload>, i: nat)
    requires i < |fields|
    ensures Offset(fields, i) + |fields[i]| <= |Lay(fields)|
    ensures Lay(fields)[Offset(fields, i)..Offset(fields, i) + |fields[i]|] == fields[i]
  {
    if i > 0 {
      LayField(fields[1..], i - 1);
      OffsetShift(fields, i);
      var rest := Lay(fields[1..]);
      var at, n := Offset(fields[1..], i - 1), |fields[0]|;
      assert (fields[0] + rest)[n + at..n + at + |fields[i]|] == rest[at..at + |fields[i]|];
    }
  }
}
