/**
  UTF-8 as `Buffer.from(text, "utf8")` and `hash.update(text, "utf8")` produce it: surrogate pairs are
  combined, every lone surrogate becomes U+FFFD, and each scalar takes one to four bytes (section 3 of RFC 3629).
 */
module Utf8 {
  import opened Tables
  import opened CanonicalText

  newtype Byte = x: int | 0 <= x < 256

  type Scalar = x: int | 0 <= x < 0x11_0000

  const REPLACEMENT: Scalar := 0xFFFD

  // --------------------------------------------------------------------------- scalars

  function Combined(high: CodeUnit, low: CodeUnit): Scalar
    requires High(high) && Low(low)
  {
    0x1_0000 + (high as int - 0xD800) * 0x400 + (low as int - 0xDC00)
  }

  function Scalars(text: Text): seq<Scalar> {
    if text == [] then []
    else if Paired(text) then [Combined(text[0], text[1])] + Scalars(text[2..])
    else if High(text[0]) || Low(text[0]) then [REPLACEMENT] + Scalars(text[1..])
    else [text[0] as int] + Scalars(text[1..])
  }

  /** Every surrogate stands in a pair. */
  predicate WellFormed(text: Text) {
    text == [] ||
    if Paired(text) then WellFormed(text[2..]) else !High(text[0]) && !Low(text[0]) && WellFormed(text[1..])
  }

  lemma {:induction false} WellFormedJoin(a: Text, b: Text)
    requires WellFormed(a) && WellFormed(b)
    ensures WellFormed(a + b)
  {
    if a == [] {
      assert a + b == b;
    } else if Paired(a) {
      WellFormedJoin(a[2..], b);
      assert (a + b)[2..] == a[2..] + b;
    } else {
      WellFormedJoin(a[1..], b);
      assert (a + b)[1..] == a[1..] + b;
    }
  }

  /** Well-formed text can be read back from its scalars. */
  lemma {:induction false} ScalarsIdentify(a: Text, b: Text)
    requires WellFormed(a) && WellFormed(b) && Scalars(a) == Scalars(b)
    ensures a == b
  {
    if a != [] && b != [] {
      var x, y := Scalars(a), Scalars(b);
      assert x[0] == y[0];
      if Paired(a) {
        assert x[1..] == Scalars(a[2..]) && y[1..] == Scalars(b[2..]);
        ScalarsIdentify(a[2..], b[2..]);
        assert a == a[..2] + a[2..] && b == b[..2] + b[2..];
      } else {
        assert x[1..] == Scalars(a[1..]) && y[1..] == Scalars(b[1..]);
        ScalarsIdentify(a[1..], b[1..]);
        assert a == [a[0]] + a[1..] && b == [b[0]] + b[1..];
      }
    }
  }

  lemma {:induction false} ScalarsWithoutNul(text: Text)
    ensures 0 in Scalars(text) <==> 0 in text
  {
    if text == [] {
    } else if Paired(text) {
      ScalarsWithoutNul(text[2..]);
      assert text == [text[0], text[1]] + text[2..];
    } else {
      ScalarsWithoutNul(text[1..]);
      assert text == [text[0]] + text[1..];
    }
  }

  // ----------------------------------------------------------------------------- bytes

  /** The lowest six bits as a continuation byte. */
  function Continuation(p: nat): (b: Byte)
    ensures b >= 0x80
  {
    (0x80 + p % 0x40) as Byte
  }

  function Lead(p: Scalar): Byte {
    if p < 0x80 then p as Byte
    else if p < 0x800 then (0xC0 + p / 0x40) as Byte
    else if p < 0x1_0000 then (0xE0 + p / 0x40 / 0x40) as Byte
    else (0xF0 + p / 0x40 / 0x40 / 0x40) as Byte
  }

  function Trail(p: Scalar): seq<Byte> {
    if p < 0x80 then []
    else if p < 0x800 then [Continuation(p)]
    else if p < 0x1_0000 then [Continuation(p / 0x40), Continuation(p)]
    else [Continuation(p / 0x40 / 0x40), Continuation(p / 0x40), Continuation(p)]
  }

  function Encoded(p: Scalar): seq<Byte> {
    [Lead(p)] + Trail(p)
  }

  function Encode(points: seq<Scalar>): seq<Byte> {
    if points == [] then [] else Encoded(points[0]) + Encode(points[1..])
  }

  function Bytes(text: Text): seq<Byte> {
    Encode(Scalars(text))
  }

  lemma SameLead(p: Scalar, q: Scalar)
    requires Lead(p) == Lead(q)
    ensures |Trail(p)| == |Trail(q)|
  {
  }

  lemma SameSixBits(p: nat, q: nat)
    requires Continuation(p) == Continuation(q) && p / 0x40 == q / 0x40
    ensures p == q
  {
  }

  lemma LeadAndTrail(p: Scalar, q: Scalar)
    requires Lead(p) == Lead(q) && Trail(p) == Trail(q)
    ensures p == q
  {
    hide Continuation;
    SameLead(p, q);
    var x, y := Trail(p), Trail(q);
    if |x| == 3 {
      assert x[0] == y[0] && x[1] == y[1] && x[2] == y[2];
      SameSixBits(p / 0x40 / 0x40, q / 0x40 / 0x40);
      SameSixBits(p / 0x40, q / 0x40);
      SameSixBits(p, q);
    } else if |x| == 2 {
      assert x[0] == y[0] && x[1] == y[1];
      SameSixBits(p / 0x40, q / 0x40);
      SameSixBits(p, q);
    } else if |x| == 1 {
      assert x[0] == y[0];
      SameSixBits(p, q);
    }
  }

  lemma SplitBytes(a: seq<Byte>, b: seq<Byte>, x: seq<Byte>, y: seq<Byte>)
    requires a + x == b + y && |a| == |b|
    ensures a == b && x == y
  {
    assert (a + x)[..|a|] == a && (b + y)[..|b|] == b;
    assert (a + x)[|a|..] == x && (b + y)[|b|..] == y;
  }

  /** The bytes of one scalar can be read back from the front of any bytes. */
  lemma EncodedUnique(p: Scalar, q: Scalar, x: seq<Byte>, y: seq<Byte>)
    requires Encoded(p) + x == Encoded(q) + y
    ensures p == q && x == y
  {
    hide Lead, Trail;
    assert (Encoded(p) + x)[0] == Lead(p) && (Encoded(q) + y)[0] == Lead(q);
    SameLead(p, q);
    SplitBytes(Encoded(p), Encoded(q), x, y);
    assert Encoded(p)[1..] == Trail(p) && Encoded(q)[1..] == Trail(q);
    LeadAndTrail(p, q);
  }

  lemma {:induction false} EncodeUnique(ps: seq<Scalar>, qs: seq<Scalar>)
    requires Encode(ps) == Encode(qs)
    ensures ps == qs
  {
    hide Lead, Trail;
    if ps != [] && qs != [] {
      EncodedUnique(ps[0], qs[0], Encode(ps[1..]), Encode(qs[1..]));
      EncodeUnique(ps[1..], qs[1..]);
      assert ps == [ps[0]] + ps[1..] && qs == [qs[0]] + qs[1..];
    }
  }

  lemma {:induction false} EncodeWithoutNul(points: seq<Scalar>)
    ensures 0 in Encode(points) <==> 0 in points
  {
    if points != [] {
      EncodeWithoutNul(points[1..]);
      assert points == [points[0]] + points[1..];
      EncodedNul(points[0]);
    }
  }

  lemma EncodedNul(p: Scalar)
    ensures 0 in Encoded(p) <==> p == 0
  {
  }

  /** Texts have the same bytes exactly when they have the same scalars; well-formed ones when they are equal. */
  lemma BytesIdentify(a: Text, b: Text)
    ensures Bytes(a) == Bytes(b) <==> Scalars(a) == Scalars(b)
    ensures WellFormed(a) && WellFormed(b) ==> (Bytes(a) == Bytes(b) <==> a == b)
  {
    hide Encode, Scalars, WellFormed;
    if Bytes(a) == Bytes(b) {
      EncodeUnique(Scalars(a), Scalars(b));
      if WellFormed(a) && WellFormed(b) {
        ScalarsIdentify(a, b);
      }
    }
  }

  lemma BytesWithoutNul(text: Text)
    ensures 0 in Bytes(text) <==> 0 in text
  {
    ScalarsWithoutNul(text);
    EncodeWithoutNul(Scalars(text));
  }

  // --------------------------------------------------------------------------- reading back

  /** The bits below the leading ones of a first byte, and how many bytes follow it (section 3 of RFC 3629). */
  function Announced(b: Byte): Option<(nat, nat)> {
    if b <= 0x7F then Some((b as nat, 0))
    else if 0xC2 <= b <= 0xDF then Some((b as nat % 32, 1))
    else if 0xE0 <= b <= 0xEF then Some((b as nat % 16, 2))
    else if 0xF0 <= b <= 0xF4 then Some((b as nat % 8, 3))
    else None
  }

  /** Each further byte adds six bits. */
  function Continued(bits: nat, bytes: seq<Byte>): Option<nat>
    decreases |bytes|
  {
    if bytes == [] then Some(bits)
    else if 0x80 <= bytes[0] <= 0xBF then Continued(bits * 64 + bytes[0] as nat % 64, bytes[1..])
    else None
  }

  /** The scalars that bytes stand for. */
  function Decode(bytes: seq<Byte>): Option<seq<nat>>
    decreases |bytes|
  {
    if bytes == [] then Some([])
    else
      var head := Announced(bytes[0]);
      if head.None? || |bytes| <= head.value.1 then None
      else
        var (bits, more) := head.value;
        var scalar, rest := Continued(bits, bytes[1..more + 1]), Decode(bytes[more + 1..]);
        if scalar.Some? && rest.Some? then Some([scalar.value] + rest.value) else None
  }

  lemma LeadAnnounces(p: Scalar)
    ensures var bits := if p < 0x80 then p else if p < 0x800 then p / 0x40 else if p < 0x1_0000 then p / 0x40 / 0x40
                        else p / 0x40 / 0x40 / 0x40;
            Announced(Lead(p)) == Some((bits, |Trail(p)|))
  {
    hide Continuation;
  }

  lemma TrailContinues(p: Scalar)
    ensures p < 0x80 ==> Continued(p, Trail(p)) == Some(p)
    ensures 0x80 <= p < 0x800 ==> Continued(p / 0x40, Trail(p)) == Some(p)
    ensures 0x800 <= p < 0x1_0000 ==> Continued(p / 0x40 / 0x40, Trail(p)) == Some(p)
    ensures 0x1_0000 <= p ==> Continued(p / 0x40 / 0x40 / 0x40, Trail(p)) == Some(p)
  {
    var q := p / 0x40;
    var r := q / 0x40;
    var s := r / 0x40;
    var t := Trail(p);
    SixBits(p, []);
    if p >= 0x800 {
      SixBits(q, [Continuation(p)]);
      assert [Continuation(q)] + [Continuation(p)] == [Continuation(q), Continuation(p)];
    }
    if p >= 0x1_0000 {
      SixBits(r, [Continuation(q), Continuation(p)]);
      assert [Continuation(r)] + [Continuation(q), Continuation(p)] == t;
    }
    assert [Continuation(p)] + [] == [Continuation(p)];
  }

  lemma SixBits(p: nat, more: seq<Byte>)
    ensures Continued(p / 0x40, [Continuation(p)] + more) == Continued(p, more)
  {
    assert ([Continuation(p)] + more)[1..] == more;
  }

  /** The bytes of scalars decode to the scalars, as UTF-8 is defined. */
  lemma {:induction false} DecodesBack(points: seq<Scalar>)
    ensures Decode(Encode(points)) == Some(points)
  {
    hide Lead, Trail, Announced, Continued;
    if points != [] {
      DecodesBack(points[1..]);
      LeadAnnounces(points[0]);
      TrailContinues(points[0]);
      var bytes := Encode(points);
      assert bytes == [Lead(points[0])] + (Trail(points[0]) + Encode(points[1..]));
      assert bytes[1..|Trail(points[0])| + 1] == Trail(points[0]);
      assert bytes[|Trail(points[0])| + 1..] == Encode(points[1..]);
      assert points == [points[0]] + points[1..];
    }
  }

  /** The code units of scalars (section 2.1 of RFC 2781). */
  function Units(points: seq<nat>): Text {
    if points == [] then []
    else (if points[0] < 0x1_0000 then [points[0] as CodeUnit]
          else if points[0] < 0x11_0000
          then [(0xD800 + (points[0] - 0x1_0000) / 0x400) as CodeUnit,
                (0xDC00 + (points[0] - 0x1_0000) % 0x400) as CodeUnit]
          else []) + Units(points[1..])
  }

  /** Well-formed text is the code units of its scalars. */
  lemma {:induction false} UnitsBack(text: Text)
    requires WellFormed(text)
    ensures Units(Scalars(text)) == text
  {
    if text != [] {
      FrontUnits(text);
      UnitsBack(text[if Paired(text) then 2 else 1..]);
      hide Units, Scalars;
    }
  }

  predicate Leading(text: Text, k: int) {
    0 <= k < |text| && 0xD800 <= text[k] < 0xDC00
  }

  predicate Trailing(text: Text, k: int) {
    0 <= k < |text| && 0xDC00 <= text[k] < 0xE000
  }

  /** Text is well-formed exactly when every leading surrogate is followed by a trailing one, and only those are. */
  lemma {:induction false} WellFormedExactly(text: Text)
    ensures WellFormed(text) <==> forall k :: 0 <= k < |text| + 1 ==> (Leading(text, k - 1) <==> Trailing(text, k))
  {
    if text == [] {
    } else if Paired(text) {
      WellFormedExactly(text[2..]);
      var rest := text[2..];
      assert Leading(text, 0) && Trailing(text, 1) && !Leading(text, 1) && !Trailing(text, 0);
      Shifted(text, 2);
      if forall k :: 0 <= k < |rest| + 1 ==> (Leading(rest, k - 1) <==> Trailing(rest, k)) {
        forall k | 0 <= k < |text| + 1 ensures Leading(text, k - 1) <==> Trailing(text, k) {
          if k >= 2 {
            assert Leading(rest, k - 2 - 1) <==> Trailing(rest, k - 2);
          }
        }
      } else {
        var k :| 0 <= k < |rest| + 1 && Leading(rest, k - 1) != Trailing(rest, k);
        assert Leading(text, k + 2 - 1) != Trailing(text, k + 2);
      }
    } else {
      WellFormedExactly(text[1..]);
      var rest := text[1..];
      Shifted(text, 1);
      assert !Leading(text, -1);
      if High(text[0]) {
        assert Leading(text, 1 - 1) && !Trailing(text, 1);
      } else if Low(text[0]) {
        assert !Leading(text, 0 - 1) && Trailing(text, 0);
      } else if forall k :: 0 <= k < |rest| + 1 ==> (Leading(rest, k - 1) <==> Trailing(rest, k)) {
        forall k | 0 <= k < |text| + 1 ensures Leading(text, k - 1) <==> Trailing(text, k) {
          if k >= 1 {
            assert Leading(rest, k - 1 - 1) <==> Trailing(rest, k - 1);
          }
        }
      } else {
        var k :| 0 <= k < |rest| + 1 && Leading(rest, k - 1) != Trailing(rest, k);
        assert Leading(text, k + 1 - 1) != Trailing(text, k + 1);
      }
    }
  }

  /** Positions in a text and in its rest. */
  lemma Shifted(text: Text, n: nat)
    requires n <= |text|
    ensures forall k :: Leading(text[n..], k) <==> k >= 0 && Leading(text, k + n)
    ensures forall k :: Trailing(text[n..], k) <==> k >= 0 && Trailing(text, k + n)
  {
  }

  predicate Lone(text: Text, k: int) {
    (Leading(text, k) && !Trailing(text, k + 1)) || (Trailing(text, k) && !Leading(text, k - 1))
  }

  /** Whatever the text, its scalars are those of the text with every lone surrogate replaced by U+FFFD. */
  lemma {:induction false} UnitsRepaired(text: Text)
    ensures var units := Units(Scalars(text));
            && |units| == |text|
            && forall k :: 0 <= k < |text| ==> units[k] == if Lone(text, k) then 0xFFFD else text[k]
  {
    if text != [] {
      hide Units, Scalars;
      var n := if Paired(text) then 2 else 1;
      var rest := text[n..];
      UnitsRepaired(rest);
      Shifted(text, n);
      var units, more := Units(Scalars(text)), Units(Scalars(rest));
      FrontUnits(text);
      assert !Leading(text, -1);
      forall k | 0 <= k < |text| ensures units[k] == if Lone(text, k) then 0xFFFD else text[k] {
        if k >= n {
          assert units[k] == more[k - n];
          assert text[k] == rest[k - n];
          assert Leading(rest, k - n) <==> Leading(text, k);
          assert Trailing(rest, k - n + 1) <==> Trailing(text, k + 1);
          assert Trailing(rest, k - n) <==> Trailing(text, k);
          assert k > n ==> (Leading(rest, k - n - 1) <==> Leading(text, k - 1));
          assert k == n && Trailing(text, k) ==> !Leading(text, k - 1);
        }
      }
    }
  }

  lemma FrontScalars(text: Text)
    requires text != []
    ensures Paired(text) ==> Scalars(text) == [Combined(text[0], text[1])] + Scalars(text[2..])
    ensures !Paired(text) ==>
              Scalars(text) == [if High(text[0]) || Low(text[0]) then REPLACEMENT else text[0] as int]
                             + Scalars(text[1..])
  {
  }

  lemma UnitsOfOne(p: Scalar, points: seq<Scalar>)
    ensures p < 0x1_0000 ==> Units([p] + points) == [p as CodeUnit] + Units(points)
    ensures p >= 0x1_0000 ==>
              Units([p] + points) == [(0xD800 + (p - 0x1_0000) / 0x400) as CodeUnit,
                                      (0xDC00 + (p - 0x1_0000) % 0x400) as CodeUnit] + Units(points)
  {
    assert ([p] + points)[1..] == points;
  }

  lemma PairBack(high: CodeUnit, low: CodeUnit)
    requires High(high) && Low(low)
    ensures var p := Combined(high, low);
            && p >= 0x1_0000
            && 0xD800 + (p - 0x1_0000) / 0x400 == high as int && 0xDC00 + (p - 0x1_0000) % 0x400 == low as int
  {
  }

  lemma FrontUnits(text: Text)
    requires text != []
    ensures Paired(text) ==> Units(Scalars(text)) == text[..2] + Units(Scalars(text[2..]))
    ensures !Paired(text) ==>
              Units(Scalars(text)) == [if High(text[0]) || Low(text[0]) then 0xFFFD else text[0]]
                                    + Units(Scalars(text[1..]))
  {
    hide Units, Scalars, Combined;
    FrontScalars(text);
    if Paired(text) {
      PairBack(text[0], text[1]);
      UnitsOfOne(Combined(text[0], text[1]), Scalars(text[2..]));
      assert text[..2] == [text[0], text[1]];
    } else {
      UnitsOfOne(if High(text[0]) || Low(text[0]) then REPLACEMENT else text[0] as int, Scalars(text[1..]));
    }
  }
}
