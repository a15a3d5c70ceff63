/** From UTF-16 to null-terminated UTF-8. */
module Utf8 {
  import opened Options

  /** The numbers bitwise operators work on. */
  type Unit = x: bv32 | x <= 0xffff
  type Octet = x: bv32 | x <= 0xff

  type Text = seq<Unit>
  type Octets = seq<Octet>

  // ---------- Characters ----------

  predicate IsSurrogate(u: bv32) {
    0xd800 <= u < 0xe000
  }

  predicate IsHigh(u: bv32) {
    0xd800 <= u < 0xdc00
  }

  predicate IsLow(u: bv32) {
    0xdc00 <= u < 0xe000
  }

  /** The characters both encodings can express. */
  predicate IsScalar(c: bv32) {
    c <= 0x10ffff && !IsSurrogate(c)
  }

  ghost predicate AllScalars(points: seq<bv32>) {
    forall k | 0 <= k < |points| :: IsScalar(points[k])
  }

  // ---------- UTF-16, section 2 of RFC 2781 ----------

  function HighOf(c: bv32): Unit
    requires 0x10000 <= c <= 0x10ffff
  {
    0xd800 | ((c - 0x10000) >> 10)
  }

  function LowOf(c: bv32): Unit
    requires 0x10000 <= c <= 0x10ffff
  {
    0xdc00 | ((c - 0x10000) & 0x3ff)
  }

  function EncodeUnits(c: bv32): (units: Text)
    requires IsScalar(c)
    ensures |units| == if c < 0x10000 then 1 else 2
  {
    if c < 0x10000 then [c] else [HighOf(c), LowOf(c)]
  }

  ghost function EncodeUtf16(points: seq<bv32>): (text: Text)
    requires AllScalars(points)
  {
    if points == [] then [] else EncodeUnits(points[0]) + EncodeUtf16(points[1..])
  }

  /** Every high surrogate is followed by a low one, and every low one follows a high one. */
  predicate WellFormed(text: Text) {
    text == [] ||
    (if IsSurrogate(text[0]) then IsHigh(text[0]) && |text| > 1 && IsLow(text[1]) && WellFormed(text[2..])
     else WellFormed(text[1..]))
  }

  // ---------- UTF-8, sections 3 and 4 of RFC 3629 ----------

  // The first octet of a sequence of two, three and four.

  function First2(c: bv32): Octet
    requires c < 0x800
  {
    0xc0 | (c >> 6)
  }

  function First3(c: bv32): Octet
    requires c < 0x10000
  {
    0xe0 | (c >> 12)
  }

  function First4(c: bv32): Octet
    requires c <= 0x10ffff
  {
    0xf0 | (c >> 18)
  }

  /** A later octet: six bits of the character, those from `shift` on. */
  function Tail(c: bv32, shift: nat): Octet
    requires shift == 0 || shift == 6 || shift == 12
  {
    0x80 | ((if shift == 0 then c else if shift == 6 then c >> 6 else c >> 12) & 0x3f)
  }

  function EncodePoint(c: bv32): (octets: Octets)
    requires IsScalar(c)
  {
    if c < 0x80 then [c]
    else if c < 0x800 then [First2(c), Tail(c, 0)]
    else if c < 0x10000 then [First3(c), Tail(c, 6), Tail(c, 0)]
    else [First4(c), Tail(c, 12), Tail(c, 6), Tail(c, 0)]
  }

  ghost function EncodeUtf8(points: seq<bv32>): (octets: Octets)
    requires AllScalars(points)
  {
    if points == [] then [] else EncodePoint(points[0]) + EncodeUtf8(points[1..])
  }

  // What may begin a sequence of one, two, three and four.

  predicate Leads1(a: bv32) {
    a <= 0x7f
  }

  predicate Leads2(a: bv32) {
    0xc2 <= a <= 0xdf
  }

  predicate Leads3(a: bv32, b: bv32) {
    (a == 0xe0 && 0xa0 <= b) || 0xe1 <= a <= 0xec || (a == 0xed && b <= 0x9f) || 0xee <= a <= 0xef
  }

  predicate Leads4(a: bv32, b: bv32) {
    (a == 0xf0 && 0x90 <= b) || 0xf1 <= a <= 0xf3 || (a == 0xf4 && b <= 0x8f)
  }

  predicate IsTail(o: bv32) {
    0x80 <= o <= 0xbf
  }

  function Join2(a: bv32, b: bv32): bv32 {
    ((a & 0x1f) << 6) | (b & 0x3f)
  }

  function Join3(a: bv32, b: bv32, d: bv32): bv32 {
    ((a & 0xf) << 12) | ((b & 0x3f) << 6) | (d & 0x3f)
  }

  function Join4(a: bv32, b: bv32, d: bv32, e: bv32): bv32 {
    ((a & 0x7) << 18) | ((b & 0x3f) << 12) | ((d & 0x3f) << 6) | (e & 0x3f)
  }

  /** The length of the sequence that the grammar finds first, and the character it stands for. */
  function FirstPoint(o: Octets): (first: Option<(nat, bv32)>)
    ensures first.Some? ==> 1 <= first.value.0 <= |o|
  {
    if o == [] then None
    else if Leads1(o[0]) then Some((1, o[0]))
    else if |o| >= 2 && Leads2(o[0]) && IsTail(o[1]) then Some((2, Join2(o[0], o[1])))
    else if |o| >= 3 && Leads3(o[0], o[1]) && IsTail(o[1]) && IsTail(o[2]) then Some((3, Join3(o[0], o[1], o[2])))
    else if |o| >= 4 && Leads4(o[0], o[1]) && IsTail(o[1]) && IsTail(o[2]) && IsTail(o[3]) then
      Some((4, Join4(o[0], o[1], o[2], o[3])))
    else None
  }

  /** The characters, if the octets are valid. */
  function DecodeUtf8(octets: Octets): (points: Option<seq<bv32>>)
    decreases |octets|
  {
    if octets == [] then Some([])
    else
      match FirstPoint(octets)
      case None => None
      case Some(first) =>
        match DecodeUtf8(octets[first.0..])
        case None => None
        case Some(rest) => Some([first.1] + rest)
  }

  lemma TwoOctets(c: bv32)
    requires 0x80 <= c < 0x800
    ensures Leads2(First2(c)) && IsTail(Tail(c, 0)) && Join2(First2(c), Tail(c, 0)) == c
  {
  }

  lemma ThreeOctets(c: bv32)
    requires 0x800 <= c < 0x10000 && !IsSurrogate(c)
    ensures Leads3(First3(c), Tail(c, 6)) && IsTail(Tail(c, 6)) && IsTail(Tail(c, 0))
    ensures Join3(First3(c), Tail(c, 6), Tail(c, 0)) == c
  {
  }

  lemma FourOctets(c: bv32)
    requires 0x10000 <= c <= 0x10ffff
    ensures Leads4(First4(c), Tail(c, 12)) && IsTail(Tail(c, 12)) && IsTail(Tail(c, 6)) && IsTail(Tail(c, 0))
    ensures Join4(First4(c), Tail(c, 12), Tail(c, 6), Tail(c, 0)) == c
  {
  }

  /** What begins one kind of sequence begins no other. */
  lemma LeadsApart(a: bv32, b: bv32)
    ensures Leads1(a) ==> !Leads2(a) && !Leads3(a, b) && !Leads4(a, b)
    ensures Leads2(a) ==> !Leads3(a, b) && !Leads4(a, b)
    ensures Leads3(a, b) ==> !Leads4(a, b)
  {
  }

  /** Encoding a character and reading the first one gives it back, whatever follows. */
  lemma PointRoundTrip(c: bv32, rest: Octets)
    requires IsScalar(c)
    ensures FirstPoint(EncodePoint(c) + rest) == Some((|EncodePoint(c)|, c))
  {
    hide Leads2, Leads3, Leads4, IsTail, Join2, Join3, Join4, First2, First3, First4, Tail;
    var o := EncodePoint(c) + rest;
    if c < 0x80 {
      assert o[0] == c;
    } else if c < 0x800 {
      TwoOctets(c);
      assert o[0] == First2(c) && o[1] == Tail(c, 0);
      LeadsApart(o[0], o[1]);
    } else if c < 0x10000 {
      ThreeOctets(c);
      assert o[0] == First3(c) && o[1] == Tail(c, 6) && o[2] == Tail(c, 0);
      LeadsApart(o[0], o[1]);
    } else {
      FourOctets(c);
      assert o[0] == First4(c) && o[1] == Tail(c, 12) && o[2] == Tail(c, 6) && o[3] == Tail(c, 0);
      LeadsApart(o[0], o[1]);
    }
  }

  /** Section 4 of RFC 3629: what is encoded is valid, and decodes to the same characters. */
  lemma {:induction false} Utf8RoundTrip(points: seq<bv32>)
    requires AllScalars(points)
    ensures DecodeUtf8(EncodeUtf8(points)) == Some(points)
  {
    hide EncodePoint, FirstPoint;
    if points != [] {
      var first, rest := EncodePoint(points[0]), EncodeUtf8(points[1..]);
      PointRoundTrip(points[0], rest);
      Utf8RoundTrip(points[1..]);
      assert (first + rest)[|first|..] == rest;
      assert [points[0]] + points[1..] == points;
    }
  }

  lemma PointZero(c: bv32)
    requires IsScalar(c)
    ensures 0 in EncodePoint(c) <==> c == 0
  {
    if 0x80 <= c < 0x800 {
      TwoOctets(c);
    } else if 0x800 <= c < 0x10000 {
      ThreeOctets(c);
    } else if 0x10000 <= c {
      FourOctets(c);
    }
  }

  lemma {:induction false} Utf8Zero(points: seq<bv32>)
    requires AllScalars(points)
    ensures 0 in EncodeUtf8(points) <==> 0 in points
  {
    hide EncodePoint;
    if points != [] {
      PointZero(points[0]);
      Utf8Zero(points[1..]);
      assert points == [points[0]] + points[1..];
    }
  }

  // ---------- What the encoder takes a text for ----------

  /** The character of a surrogate and the unit after it, whatever they are. */
  function Pair(u: Unit, v: Unit): (c: bv32)
    ensures 0x10000 <= c <= 0x10ffff
  {
    0x10000 + (((u & 0x3ff) << 10) | (v & 0x3ff))
  }

  function UnitAt(text: Text, i: nat): Unit {
    if i < |text| then text[i] else 0
  }

  function From(text: Text, i: nat): (rest: Text)
    ensures i <= |text| ==> rest == text[i..]
  {
    if i <= |text| then text[i..] else []
  }

  ghost function Points(text: Text): (points: seq<bv32>)
    ensures AllScalars(points)
    decreases |text|
  {
    if text == [] then []
    else if IsSurrogate(text[0]) then [Pair(text[0], UnitAt(text, 1))] + Points(From(text, 2))
    else [text[0]] + Points(text[1..])
  }

  lemma PairHigh(u: Unit, v: Unit)
    requires IsSurrogate(u)
    ensures HighOf(Pair(u, v)) == u <==> IsHigh(u)
  {
  }

  lemma PairLow(u: Unit, v: Unit)
    ensures LowOf(Pair(u, v)) == v <==> IsLow(v)
  {
  }

  lemma PairUnits(u: Unit, v: Unit)
    requires IsSurrogate(u)
    ensures EncodeUnits(Pair(u, v)) == [u, v] <==> IsHigh(u) && IsLow(v)
  {
    hide HighOf, LowOf, Pair, IsHigh, IsLow;
    PairHigh(u, v);
    PairLow(u, v);
  }

  lemma EncodeFirst(c: bv32, points: seq<bv32>)
    requires IsScalar(c) && AllScalars(points)
    ensures AllScalars([c] + points) && EncodeUtf16([c] + points) == EncodeUnits(c) + EncodeUtf16(points)
  {
    assert ([c] + points)[1..] == points;
  }

  /** The characters stand for the text exactly when it is well-formed UTF-16. */
  lemma {:induction false} PointsOfWellFormed(text: Text)
    ensures EncodeUtf16(Points(text)) == text <==> WellFormed(text)
    decreases |text|
  {
    hide EncodeUnits, IsHigh, IsLow, Pair;
    if text != [] {
      var rest := From(text, if IsSurrogate(text[0]) then 2 else 1);
      PointsOfWellFormed(rest);
      EncodeFirst(Points(text)[0], Points(rest));
      if IsSurrogate(text[0]) {
        PairUnits(text[0], UnitAt(text, 1));
        if |text| > 1 {
          PairFirst(text, EncodeUnits(Points(text)[0]), EncodeUtf16(Points(rest)));
        }
      } else {
        SingleUnit(text[0]);
        assert text == [text[0]] + rest;
      }
    }
  }

  lemma SingleUnit(u: Unit)
    requires !IsSurrogate(u)
    ensures IsScalar(u) && EncodeUnits(u) == [u]
  {
  }

  lemma PairFirst(text: Text, units: Text, rest: Text)
    requires |text| >= 2 && |units| == 2
    ensures units + rest == text <==> units == [text[0], text[1]] && rest == text[2..]
  {
    assert text == [text[0], text[1]] + text[2..];
    if units + rest == text {
      assert (units + rest)[..2] == units && (units + rest)[2..] == rest;
    }
  }

  lemma NoZeroPair(u: Unit, v: Unit)
    ensures Pair(u, v) != 0
    ensures IsSurrogate(u) ==> u != 0
    ensures IsLow(v) ==> v != 0
  {
  }

  /** A unit that is zero is needed for a zero character; in well-formed text it is also enough. */
  lemma {:induction false} PointsZero(text: Text)
    ensures 0 in Points(text) ==> 0 in text
    ensures WellFormed(text) && 0 in text ==> 0 in Points(text)
    decreases |text|
  {
    hide Pair, IsSurrogate, IsHigh, IsLow;
    if text != [] {
      var rest := From(text, if IsSurrogate(text[0]) then 2 else 1);
      PointsZero(rest);
      NoZeroPair(text[0], UnitAt(text, 1));
      assert Points(text) == [Points(text)[0]] + Points(rest);
      if IsSurrogate(text[0]) && |text| > 1 {
        assert text == [text[0], text[1]] + rest;
      } else {
        assert text == [text[0]] + rest;
      }
    }
  }

  // ---------- The encoder ----------

  lemma NextPoint(text: Text, i: nat)
    requires i < |text|
    ensures var step := if IsSurrogate(text[i]) then 2 else 1;
            var c := if IsSurrogate(text[i]) then Pair(text[i], UnitAt(text, i + 1)) else text[i];
            IsScalar(c) && EncodeUtf8(Points(From(text, i))) == EncodePoint(c) + EncodeUtf8(Points(From(text, i + step)))
  {
    hide Pair, EncodePoint;
    assert From(text, i)[0] == text[i];
    assert UnitAt(From(text, i), 1) == UnitAt(text, i + 1);
    assert From(From(text, i), 2) == From(text, i + 2);
    assert From(text, i)[1..] == From(text, i + 1);
  }

  lemma NothingLeft(text: Text, i: nat)
    requires i >= |text|
    ensures EncodeUtf8(Points(From(text, i))) == []
  {
  }

  /** Whatever the text, what is encoded is valid UTF-8 for the characters the encoder takes the text for.
      They are the characters of the text exactly when it is well-formed, and there is no zero among the
      octets unless there is one in the text. */
  lemma EncodedText(str: Text)
    ensures DecodeUtf8(EncodeUtf8(Points(str))) == Some(Points(str))
    ensures EncodeUtf16(Points(str)) == str <==> WellFormed(str)
    ensures 0 in EncodeUtf8(Points(str)) ==> 0 in str
    ensures WellFormed(str) && 0 in str ==> 0 in EncodeUtf8(Points(str))
  {
    hide EncodeUtf8, EncodeUtf16, Points, DecodeUtf8, WellFormed;
    Utf8RoundTrip(Points(str));
    PointsOfWellFormed(str);
    PointsZero(str);
    Utf8Zero(Points(str));
  }

  method ToNullTerminatedUtf8(str: Text) returns (utf8: Octets)
    ensures utf8 == EncodeUtf8(Points(str)) + [0]
  {
    hide *;
    utf8 := [];
    var i := 0;
    assert From(str, 0) == str[0..];
    while i < |str|
      invariant utf8 + EncodeUtf8(Points(From(str, i))) == EncodeUtf8(Points(str))
      decreases |str| - i
    {
      NextPoint(str, i);
      var octets;
      octets, i := NextOctets(str, i);
      assert (utf8 + octets) + EncodeUtf8(Points(From(str, i))) == utf8 + (octets + EncodeUtf8(Points(From(str, i))));
      utf8 := utf8 + octets;
    }
    NothingLeft(str, i);
    utf8 := utf8 + [0x00];
  }

  /** One round of the loop. */
  method NextOctets(str: Text, i: nat) returns (octets: Octets, next: nat)
    requires i < |str|
    ensures next == i + if IsSurrogate(str[i]) then 2 else 1
    ensures octets == EncodePoint(if IsSurrogate(str[i]) then Pair(str[i], UnitAt(str, i + 1)) else str[i])
  {
    hide First2, First3, First4, Tail, Pair;
    next := i;
    var charcode: bv32 := str[next];
    if charcode < 0x80 {
      octets := [charcode];
    } else if charcode < 0x800 {
      octets := [First2(charcode), Tail(charcode, 0)];
    } else if charcode < 0xd800 || charcode >= 0xe000 {
      octets := [First3(charcode), Tail(charcode, 6), Tail(charcode, 0)];
    } else {
      next := next + 1;
      charcode := Pair(charcode, UnitAt(str, next));
      octets := [First4(charcode), Tail(charcode, 12), Tail(charcode, 6), Tail(charcode, 0)];
    }
    next := next + 1;
  }
}
