/** That both encodings keep the order of characters, which tells them from any other code of the same shape:
    section 1 of RFC 3629 for UTF-8, and for UTF-16 the characters beyond the first 65536. */
module CharacterOrder {
  import opened Utf8

  predicate Less(x: bv32, y: bv32) {
    x < y
  }

  // That any two numbers can be compared, shown eight bits at a time.

  function High(x: bv32): bv32 {
    x >> 8
  }

  function Low(x: bv32): bv32 {
    x & 0xff
  }

  function Highs(x: bv32, k: nat): bv32 {
    if k == 0 then x else Highs(High(x), k - 1)
  }

  lemma HighOrder(x: bv32, y: bv32)
    requires !Less(x, y)
    ensures !Less(High(x), High(y))
  {
  }

  lemma LowOrder(x: bv32, y: bv32)
    requires !Less(x, y) && High(x) == High(y)
    ensures !Less(Low(x), Low(y))
  {
  }

  lemma LowTotal(x: bv32, y: bv32)
    requires !Less(Low(x), Low(y)) && !Less(Low(y), Low(x))
    ensures Low(x) == Low(y)
  {
  }

  lemma HighLow(x: bv32, y: bv32)
    requires High(x) == High(y) && Low(x) == Low(y)
    ensures x == y
  {
  }

  lemma {:induction false} Total(x: bv32, y: bv32, k: nat)
    requires !Less(x, y) && !Less(y, x) && Highs(x, k) == Highs(y, k)
    ensures x == y
    decreases k
  {
    hide Less, High, Low;
    if k > 0 {
      HighOrder(x, y);
      HighOrder(y, x);
      Total(High(x), High(y), k - 1);
      LowOrder(x, y);
      LowOrder(y, x);
      LowTotal(x, y);
      HighLow(x, y);
    }
  }

  lemma NothingHigher(x: bv32)
    ensures Highs(x, 4) == 0
  {
    assert High(High(High(High(x)))) == 0;
    assert Highs(High(High(High(x))), 1) == 0;
    assert Highs(High(High(x)), 2) == 0;
    assert Highs(High(x), 3) == 0;
  }

  lemma LessIsStrict(x: bv32, y: bv32)
    ensures Less(x, y) ==> x != y && !Less(y, x)
  {
  }

  lemma LessIsTotal(x: bv32, y: bv32)
    ensures Less(x, y) || Less(y, x) <==> x != y
    ensures !(Less(x, y) && Less(y, x))
  {
    LessIsStrict(x, y);
    LessIsStrict(y, x);
    NothingHigher(x);
    NothingHigher(y);
    hide Less, High, Low;
    if !Less(x, y) && !Less(y, x) {
      Total(x, y, 4);
    }
  }

  /** Lexicographic order. */
  predicate Before(a: seq<bv32>, b: seq<bv32>) {
    b != [] && (a == [] || Less(a[0], b[0]) || (a[0] == b[0] && Before(a[1..], b[1..])))
  }

  lemma {:induction false} BeforeIsTotal(a: seq<bv32>, b: seq<bv32>)
    ensures Before(a, b) || Before(b, a) <==> a != b
    ensures !(Before(a, b) && Before(b, a))
  {
    hide Less;
    if a != [] && b != [] {
      LessIsTotal(a[0], b[0]);
      if a[0] == b[0] {
        BeforeIsTotal(a[1..], b[1..]);
        assert a == [a[0]] + a[1..] && b == [b[0]] + b[1..];
      }
    }
  }

  lemma {:induction false} SamePrefix(prefix: seq<bv32>, a: seq<bv32>, b: seq<bv32>)
    ensures Before(prefix + a, prefix + b) <==> Before(a, b)
  {
    hide Less;
    if prefix == [] {
      assert prefix + a == a && prefix + b == b;
    } else {
      LessIsTotal(prefix[0], prefix[0]);
      SamePrefix(prefix[1..], a, b);
      assert (prefix + a)[1..] == prefix[1..] + a && (prefix + b)[1..] == prefix[1..] + b;
    }
  }

  /** The two differ, and the first is smaller where they differ first, whatever follows them. */
  predicate Apart(a: seq<bv32>, b: seq<bv32>) {
    a != [] && b != [] && (Less(a[0], b[0]) || (a[0] == b[0] && Apart(a[1..], b[1..])))
  }

  lemma {:induction false} ApartIsBefore(a: seq<bv32>, b: seq<bv32>, x: seq<bv32>, y: seq<bv32>)
    requires Apart(a, b)
    ensures Before(a + x, b + y)
  {
    hide Less;
    if !Less(a[0], b[0]) {
      ApartIsBefore(a[1..], b[1..], x, y);
      assert (a + x)[1..] == a[1..] + x && (b + y)[1..] == b[1..] + y;
    }
  }

  // ---------- UTF-8 ----------

  lemma FirstOctets(c: bv32, d: bv32)
    requires IsScalar(c) && IsScalar(d)
    ensures c < 0x80 <= d < 0x800 ==> Less(c, First2(d))
    ensures c < 0x80 && 0x800 <= d < 0x10000 ==> Less(c, First3(d))
    ensures c < 0x80 && 0x10000 <= d ==> Less(c, First4(d))
    ensures c < 0x800 <= d < 0x10000 ==> Less(First2(c), First3(d))
    ensures c < 0x800 && 0x10000 <= d ==> Less(First2(c), First4(d))
    ensures c < 0x10000 <= d ==> Less(First3(c), First4(d))
  {
  }

  lemma FirstOrder2(c: bv32, d: bv32)
    requires c < d < 0x800
    ensures Less(First2(c), First2(d)) || c >> 6 == d >> 6
    ensures c >> 6 == d >> 6 ==> First2(c) == First2(d)
  {
  }

  lemma FirstOrder3(c: bv32, d: bv32)
    requires c < d < 0x10000
    ensures Less(First3(c), First3(d)) || c >> 12 == d >> 12
    ensures c >> 12 == d >> 12 ==> First3(c) == First3(d)
  {
  }

  lemma FirstOrder4(c: bv32, d: bv32)
    requires c < d <= 0x10ffff
    ensures Less(First4(c), First4(d)) || c >> 18 == d >> 18
    ensures c >> 18 == d >> 18 ==> First4(c) == First4(d)
  {
  }

  lemma TailOrder0(c: bv32, d: bv32)
    requires c < d && c >> 6 == d >> 6
    ensures Less(Tail(c, 0), Tail(d, 0))
  {
  }

  lemma TailOrder6(c: bv32, d: bv32)
    requires c < d && c >> 12 == d >> 12
    ensures Less(Tail(c, 6), Tail(d, 6)) || c >> 6 == d >> 6
    ensures c >> 6 == d >> 6 ==> Tail(c, 6) == Tail(d, 6)
  {
  }

  lemma TailOrder12(c: bv32, d: bv32)
    requires c < d && c >> 18 == d >> 18
    ensures Less(Tail(c, 12), Tail(d, 12)) || c >> 12 == d >> 12
    ensures c >> 12 == d >> 12 ==> Tail(c, 12) == Tail(d, 12)
  {
  }

  lemma Apart2(a: seq<bv32>, b: seq<bv32>)
    requires |a| == |b| == 2
    requires Less(a[0], b[0]) || (a[0] == b[0] && Less(a[1], b[1]))
    ensures Apart(a, b)
  {
    hide Less;
    assert Less(a[1], b[1]) ==> Apart(a[1..], b[1..]);
  }

  lemma Apart3(a: seq<bv32>, b: seq<bv32>)
    requires |a| == |b| == 3
    requires Less(a[0], b[0]) || (a[0] == b[0] && (Less(a[1], b[1]) || (a[1] == b[1] && Less(a[2], b[2]))))
    ensures Apart(a, b)
  {
    hide Less;
    if !Less(a[0], b[0]) {
      Apart2(a[1..], b[1..]);
    }
  }

  lemma PointOrder(c: bv32, d: bv32)
    requires IsScalar(c) && IsScalar(d) && c < d
    ensures Apart(EncodePoint(c), EncodePoint(d))
  {
    if 0x80 <= c && d < 0x800 {
      PointOrder2(c, d);
    } else if 0x800 <= c && d < 0x10000 {
      PointOrder3(c, d);
    } else if 0x10000 <= c {
      PointOrder4(c, d);
    } else {
      FirstOctets(c, d);
      hide First2, First3, First4, Tail;
      assert c < 0x80 && d < 0x80 ==> Less(c, d);
      assert Less(EncodePoint(c)[0], EncodePoint(d)[0]);
    }
  }

  lemma PointOrder2(c: bv32, d: bv32)
    requires 0x80 <= c < d < 0x800
    ensures Apart([First2(c), Tail(c, 0)], [First2(d), Tail(d, 0)])
  {
    hide First2, Tail, Less;
    FirstOrder2(c, d);
    if c >> 6 == d >> 6 {
      TailOrder0(c, d);
    }
    Apart2([First2(c), Tail(c, 0)], [First2(d), Tail(d, 0)]);
  }

  lemma PointOrder3(c: bv32, d: bv32)
    requires 0x800 <= c < d < 0x10000
    ensures Apart([First3(c), Tail(c, 6), Tail(c, 0)], [First3(d), Tail(d, 6), Tail(d, 0)])
  {
    hide First3, Tail, Less;
    FirstOrder3(c, d);
    if c >> 12 == d >> 12 {
      TailOrder6(c, d);
      if c >> 6 == d >> 6 {
        TailOrder0(c, d);
      }
    }
    Apart3([First3(c), Tail(c, 6), Tail(c, 0)], [First3(d), Tail(d, 6), Tail(d, 0)]);
  }

  lemma PointOrder4(c: bv32, d: bv32)
    requires 0x10000 <= c < d <= 0x10ffff
    ensures Apart([First4(c), Tail(c, 12), Tail(c, 6), Tail(c, 0)], [First4(d), Tail(d, 12), Tail(d, 6), Tail(d, 0)])
  {
    hide First4, Tail, Less;
    var a, b := [First4(c), Tail(c, 12), Tail(c, 6), Tail(c, 0)], [First4(d), Tail(d, 12), Tail(d, 6), Tail(d, 0)];
    FirstOrder4(c, d);
    if c >> 18 == d >> 18 {
      TailOrder12(c, d);
      if c >> 12 == d >> 12 {
        TailOrder6(c, d);
        if c >> 6 == d >> 6 {
          TailOrder0(c, d);
        }
      }
      if !Less(a[0], b[0]) {
        Apart3(a[1..], b[1..]);
      }
    }
  }

  lemma {:induction false} Utf8KeepsOrder(p: seq<bv32>, q: seq<bv32>)
    requires AllScalars(p) && AllScalars(q) && Before(p, q)
    ensures Before(EncodeUtf8(p), EncodeUtf8(q))
  {
    hide EncodePoint;
    var b, y := EncodePoint(q[0]), EncodeUtf8(q[1..]);
    SomeOctets(q[0]);
    if p != [] {
      var a, x := EncodePoint(p[0]), EncodeUtf8(p[1..]);
      if Less(p[0], q[0]) {
        PointOrder(p[0], q[0]);
        ApartIsBefore(a, b, x, y);
      } else {
        Utf8KeepsOrder(p[1..], q[1..]);
        SamePrefix(a, x, y);
      }
    }
  }

  lemma SomeOctets(c: bv32)
    requires IsScalar(c)
    ensures EncodePoint(c) != []
  {
  }

  /** Octets are ordered as the characters they stand for. */
  lemma Utf8Order(p: seq<bv32>, q: seq<bv32>)
    requires AllScalars(p) && AllScalars(q)
    ensures Before(EncodeUtf8(p), EncodeUtf8(q)) <==> Before(p, q)
  {
    hide EncodeUtf8;
    BeforeIsTotal(p, q);
    BeforeIsTotal(EncodeUtf8(p), EncodeUtf8(q));
    if Before(p, q) {
      Utf8KeepsOrder(p, q);
    } else if Before(q, p) {
      Utf8KeepsOrder(q, p);
    }
  }

  // ---------- UTF-16 ----------

  /** Surrogate pairs are ordered as the characters they stand for; the first of them stands for the first
      character beyond 65535 and the last for the last. */
  lemma PairOrder(u: Unit, v: Unit, x: Unit, y: Unit)
    requires IsHigh(u) && IsLow(v) && IsHigh(x) && IsLow(y)
    ensures u < x ==> Pair(u, v) < Pair(x, y)
    ensures u == x && v < y ==> Pair(u, v) < Pair(x, y)
    ensures Pair(0xd800, 0xdc00) == 0x10000 && Pair(0xdbff, 0xdfff) == 0x10ffff
  {
  }

  /** Of each unit the last ten bits are read, also when the two are no pair. */
  lemma PairReads(u: Unit, v: Unit)
    ensures Pair(u, v) == Pair(0xd800 | (u & 0x3ff), 0xdc00 | (v & 0x3ff))
  {
  }
}
