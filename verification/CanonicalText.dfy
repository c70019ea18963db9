/**
  The pieces of canonical JSON text (packages/contracts/src/digest.ts:15-74): quoted strings, numbers
  and comma-separated lists, and why each can be read back from the front of any text.

  Strings are sequences of UTF-16 code units, as in ECMAScript.
 */
module CanonicalText {
  newtype CodeUnit = x: int | 0 <= x < 0x1_0000

  type Text = seq<CodeUnit>

  function Ascii(s: string): (text: Text)
    requires forall k :: 0 <= k < |s| ==> s[k] as int < 128
    ensures |text| == |s| && forall k :: 0 <= k < |s| ==> text[k] as int == s[k] as int
  {
    seq(|s|, k requires 0 <= k < |s| => s[k] as int as CodeUnit)
  }

  const QUOTE: CodeUnit := 34
  const COMMA: CodeUnit := 44
  const COLON: CodeUnit := 58
  const OPEN_BRACKET: CodeUnit := 91
  const BACKSLASH: CodeUnit := 92
  const CLOSE_BRACKET: CodeUnit := 93
  const OPEN_BRACE: CodeUnit := 123
  const CLOSE_BRACE: CodeUnit := 125

  /** What may follow a value inside canonical text. */
  predicate Follow(rest: Text) {
    rest == [] || rest[0] == COMMA || rest[0] == CLOSE_BRACKET || rest[0] == CLOSE_BRACE
  }

  // ----------------------------------------------------------------------------- numbers

  predicate NumberUnit(u: CodeUnit) {
    48 <= u <= 57 || u == 43 || u == 45 || u == 46 || u == 101
  }

  predicate NumberLike(text: Text) {
    && text != []
    && (48 <= text[0] <= 57 || text[0] == 45)
    && forall k :: 0 <= k < |text| ==> NumberUnit(text[k])
  }

  const ZERO: Text := [48]

  /** The shortest decimal text ECMAScript gives a finite number; it identifies the number. */
  type NumberText = text: Text | NumberLike(text) witness [48]

  lemma NumberNotShorter(a: NumberText, b: NumberText, x: Text, y: Text)
    requires Follow(x) && a + x == b + y
    ensures |a| >= |b|
  {
    var text := a + x;
    assert x == [] || text[|a|] == x[0];
    assert forall k :: 0 <= k < |b| ==> text[k] == b[k];
  }

  lemma NumberUnique(a: NumberText, b: NumberText, x: Text, y: Text)
    requires Follow(x) && Follow(y) && a + x == b + y
    ensures a == b && x == y
  {
    NumberNotShorter(a, b, x, y);
    NumberNotShorter(b, a, y, x);
    SplitAt(a, b, x, y);
  }

  lemma SplitAt(a: Text, b: Text, x: Text, y: Text)
    requires a + x == b + y && |a| == |b|
    ensures a == b && x == y
  {
    assert (a + x)[..|a|] == a && (b + y)[..|b|] == b;
    assert (a + x)[|a|..] == x && (b + y)[|b|..] == y;
  }

  // ----------------------------------------------------------------------------- strings

  predicate High(u: CodeUnit) {
    0xD800 <= u <= 0xDBFF
  }

  predicate Low(u: CodeUnit) {
    0xDC00 <= u <= 0xDFFF
  }

  predicate Paired(s: Text) {
    |s| >= 2 && High(s[0]) && Low(s[1])
  }

  function HexDigit(d: CodeUnit): (u: CodeUnit)
    requires d < 16
    ensures u != QUOTE
  {
    if d < 10 then 48 + d else 87 + d
  }

  /** Four lower-case hexadecimal digits. */
  function Hex(u: CodeUnit): (text: Text)
    ensures |text| == 4
  {
    var q := u / 16;
    var r := q / 16;
    [HexDigit(r / 16), HexDigit(r % 16), HexDigit(q % 16), HexDigit(u % 16)]
  }

  lemma DigitUnique(c: CodeUnit, d: CodeUnit)
    requires c < 16 && d < 16 && HexDigit(c) == HexDigit(d)
    ensures c == d
  {
  }

  lemma HexUnique(u: CodeUnit, v: CodeUnit)
    requires Hex(u) == Hex(v)
    ensures u == v
  {
    hide HexDigit;
    var q, p := u / 16, v / 16;
    var r, s := q / 16, p / 16;
    assert Hex(u)[0] == Hex(v)[0] && Hex(u)[1] == Hex(v)[1] && Hex(u)[2] == Hex(v)[2] && Hex(u)[3] == Hex(v)[3];
    DigitUnique(r / 16, s / 16);
    DigitUnique(r % 16, s % 16);
    DigitUnique(q % 16, p % 16);
    DigitUnique(u % 16, v % 16);
  }

  predicate Raw(u: CodeUnit) {
    u >= 32 && u != QUOTE && u != BACKSLASH && !High(u) && !Low(u)
  }

  /** One code unit outside a surrogate pair: raw, a short escape, or \uXXXX. */
  function Escaped(u: CodeUnit): Text {
    if Raw(u) then [u]
    else if u == QUOTE || u == BACKSLASH then [BACKSLASH, u]
    else if u == 8 then [BACKSLASH, 98]
    else if u == 9 then [BACKSLASH, 116]
    else if u == 10 then [BACKSLASH, 110]
    else if u == 12 then [BACKSLASH, 102]
    else if u == 13 then [BACKSLASH, 114]
    else [BACKSLASH, 117] + Hex(u)
  }

  function Body(s: Text): Text {
    if s == [] then []
    else if Paired(s) then s[..2] + Body(s[2..])
    else Escaped(s[0]) + Body(s[1..])
  }

  function Quoted(s: Text): Text {
    [QUOTE] + Body(s) + [QUOTE]
  }

  lemma EscapedUnique(u: CodeUnit, v: CodeUnit, x: Text, y: Text)
    requires Escaped(u) + x == Escaped(v) + y
    ensures u == v && x == y
  {
    hide Hex;
    var left, right := Escaped(u) + x, Escaped(v) + y;
    assert left[0] == Escaped(u)[0] && right[0] == Escaped(v)[0];
    if !Raw(u) {
      assert left[1] == Escaped(u)[1] && right[1] == Escaped(v)[1];
      if Escaped(u)[1] == 117 {
        assert left[2..6] == Hex(u) && right[2..6] == Hex(v);
        HexUnique(u, v);
      }
    }
    SplitAt(Escaped(u), Escaped(v), x, y);
  }

  /** A body and its closing quote, split after its first character. */
  lemma BodySplits(s: Text, x: Text)
    ensures Paired(s) ==> Body(s) + [QUOTE] + x == s[..2] + (Body(s[2..]) + [QUOTE] + x)
    ensures s != [] && !Paired(s) ==> Body(s) + [QUOTE] + x == Escaped(s[0]) + (Body(s[1..]) + [QUOTE] + x)
  {
    hide Escaped, High, Low;
    if Paired(s) {
      Regroup(s[..2], Body(s[2..]), [QUOTE], x);
    } else if s != [] {
      Regroup(Escaped(s[0]), Body(s[1..]), [QUOTE], x);
    }
  }

  lemma Regroup(a: Text, b: Text, c: Text, d: Text)
    ensures a + b + c + d == a + (b + c + d)
  {
  }

  lemma EscapedStart(u: CodeUnit)
    ensures Escaped(u) != [] && Escaped(u)[0] != QUOTE && !High(Escaped(u)[0])
  {
    hide Hex;
  }

  /** The first unit of a body and its closing quote tells which case produced it. */
  lemma BodyStart(s: Text, x: Text)
    ensures var text := Body(s) + [QUOTE] + x;
            && (s == [] <==> text[0] == QUOTE)
            && (Paired(s) <==> High(text[0]))
  {
    BodySplits(s, x);
    if s != [] && !Paired(s) {
      EscapedStart(s[0]);
    }
    hide Escaped;
  }

  lemma {:induction false} BodyUnique(a: Text, b: Text, x: Text, y: Text)
    requires Body(a) + [QUOTE] + x == Body(b) + [QUOTE] + y
    ensures a == b && x == y
  {
    hide Escaped, Body, High, Low;
    BodyStart(a, x);
    BodyStart(b, y);
    BodySplits(a, x);
    BodySplits(b, y);
    if a == [] {
      EmptyBody(x);
      EmptyBody(y);
      SplitAt([QUOTE], [QUOTE], x, y);
    } else if Paired(a) {
      SplitAt(a[..2], b[..2], Body(a[2..]) + [QUOTE] + x, Body(b[2..]) + [QUOTE] + y);
      BodyUnique(a[2..], b[2..], x, y);
      assert a == a[..2] + a[2..] && b == b[..2] + b[2..];
    } else {
      EscapedUnique(a[0], b[0], Body(a[1..]) + [QUOTE] + x, Body(b[1..]) + [QUOTE] + y);
      BodyUnique(a[1..], b[1..], x, y);
      assert a == [a[0]] + a[1..] && b == [b[0]] + b[1..];
    }
  }

  lemma EmptyBody(x: Text)
    ensures Body([]) + [QUOTE] + x == [QUOTE] + x
  {
  }

  /** A quoted string can be read back from the front of any text. */
  lemma QuotedUnique(a: Text, b: Text, x: Text, y: Text)
    requires Quoted(a) + x == Quoted(b) + y
    ensures a == b && x == y
  {
    hide Body;
    assert Quoted(a) + x == [QUOTE] + (Body(a) + [QUOTE] + x);
    assert Quoted(b) + y == [QUOTE] + (Body(b) + [QUOTE] + y);
    SplitAt([QUOTE], [QUOTE], Body(a) + [QUOTE] + x, Body(b) + [QUOTE] + y);
    BodyUnique(a, b, x, y);
  }

  // ------------------------------------------------------------------------------- lists

  /** join(",") */
  function Join(parts: seq<Text>): Text {
    if parts == [] then []
    else if |parts| == 1 then parts[0]
    else parts[0] + [COMMA] + Join(parts[1..])
  }

  function JoinTail(parts: seq<Text>): Text
    requires parts != []
  {
    if |parts| == 1 then [] else [COMMA] + Join(parts[1..])
  }

  predicate Starts(part: Text) {
    part != [] && !Follow(part)
  }

  /** Parts of two lists are told apart by the text they start. */
  ghost predicate Delimited(ps: seq<Text>, qs: seq<Text>) {
    && (forall i :: 0 <= i < |ps| ==> ps[i] == [] || Starts(ps[i]))
    && (forall j :: 0 <= j < |qs| ==> qs[j] == [] || Starts(qs[j]))
    && (forall i, j, x, y :: 0 <= i < |ps| && 0 <= j < |qs| && Follow(x) && Follow(y) && ps[i] + x == qs[j] + y ==>
          ps[i] == qs[j] && x == y)
  }

  lemma JoinSplits(parts: seq<Text>, rest: Text)
    requires parts != []
    ensures Join(parts) + rest == parts[0] + (JoinTail(parts) + rest)
  {
  }

  lemma DelimitedRest(ps: seq<Text>, qs: seq<Text>)
    requires ps != [] && qs != [] && Delimited(ps, qs)
    ensures Delimited(ps[1..], qs[1..])
  {
  }

  lemma ListStart(parts: seq<Text>, close: CodeUnit, rest: Text)
    requires parts != [] && parts != [[]] && (parts[0] == [] || Starts(parts[0]))
    ensures var text := Join(parts) + ([close] + rest);
            if parts[0] == [] then text[0] == COMMA else text[0] == parts[0][0] && !Follow(text)
  {
    JoinSplits(parts, [close] + rest);
  }

  lemma JoinEmpty(ps: seq<Text>, qs: seq<Text>, close: CodeUnit, x: Text, y: Text)
    requires Delimited(ps, qs) && (close == CLOSE_BRACKET || close == CLOSE_BRACE) && (ps == [] || qs == [])
    requires ps != [[]] && qs != [[]]
    requires Join(ps) + ([close] + x) == Join(qs) + ([close] + y)
    ensures ps == qs && x == y
  {
    if ps != [] {
      ListStart(ps, close, x);
    }
    if qs != [] {
      ListStart(qs, close, y);
    }
    assert Join([]) + ([close] + x) == [close] + x && Join([]) + ([close] + y) == [close] + y;
    SplitAt([close], [close], x, y);
  }

  lemma TailFollows(parts: seq<Text>, rest: Text)
    requires parts != [] && Follow(rest) && rest != []
    ensures Follow(JoinTail(parts) + rest)
  {
  }

  lemma FirstParts(ps: seq<Text>, qs: seq<Text>, x: Text, y: Text)
    requires ps != [] && qs != [] && Delimited(ps, qs) && Follow(x) && Follow(y) && ps[0] + x == qs[0] + y
    ensures ps[0] == qs[0] && x == y
  {
  }

  lemma LastPart(ps: seq<Text>, qs: seq<Text>, close: CodeUnit, x: Text, y: Text)
    requires ps != [] && qs != [] && (|ps| == 1 || |qs| == 1) && close != COMMA
    requires JoinTail(ps) + ([close] + x) == JoinTail(qs) + ([close] + y)
    ensures |ps| == 1 && |qs| == 1 && x == y
  {
    var left, right := JoinTail(ps) + ([close] + x), JoinTail(qs) + ([close] + y);
    assert left[0] == if |ps| == 1 then close else COMMA;
    assert right[0] == if |qs| == 1 then close else COMMA;
    assert left == [close] + x && right == [close] + y;
    SplitAt([close], [close], x, y);
  }

  lemma MoreParts(ps: seq<Text>, qs: seq<Text>, x: Text, y: Text)
    requires |ps| > 1 && |qs| > 1 && JoinTail(ps) + x == JoinTail(qs) + y
    ensures Join(ps[1..]) + x == Join(qs[1..]) + y
  {
    hide Join;
    assert JoinTail(ps) + x == [COMMA] + (Join(ps[1..]) + x);
    assert JoinTail(qs) + y == [COMMA] + (Join(qs[1..]) + y);
    SplitAt([COMMA], [COMMA], Join(ps[1..]) + x, Join(qs[1..]) + y);
  }

  lemma {:induction false} JoinSame(ps: seq<Text>, qs: seq<Text>, close: CodeUnit, x: Text, y: Text)
    requires Delimited(ps, qs) && (close == CLOSE_BRACKET || close == CLOSE_BRACE) && ps != [] && qs != []
    requires Join(ps) + ([close] + x) == Join(qs) + ([close] + y)
    ensures ps == qs && x == y
  {
    hide Delimited, Join, JoinTail;
    JoinSplits(ps, [close] + x);
    JoinSplits(qs, [close] + y);
    var left, right := JoinTail(ps) + ([close] + x), JoinTail(qs) + ([close] + y);
    TailFollows(ps, [close] + x);
    TailFollows(qs, [close] + y);
    FirstParts(ps, qs, left, right);
    assert left == right;
    if |ps| == 1 || |qs| == 1 {
      LastPart(ps, qs, close, x, y);
    } else {
      MoreParts(ps, qs, [close] + x, [close] + y);
      DelimitedRest(ps, qs);
      JoinSame(ps[1..], qs[1..], close, x, y);
    }
    assert ps == [ps[0]] + ps[1..] && qs == [qs[0]] + qs[1..];
  }

  /** Nothing but no part at all and one empty part look alike. */
  lemma JoinUnique(ps: seq<Text>, qs: seq<Text>, close: CodeUnit, x: Text, y: Text)
    requires Delimited(ps, qs) && (close == CLOSE_BRACKET || close == CLOSE_BRACE)
    requires ps != [[]] && qs != [[]]
    requires Join(ps) + ([close] + x) == Join(qs) + ([close] + y)
    ensures ps == qs && x == y
  {
    hide Delimited, Join;
    if ps == [] || qs == [] {
      JoinEmpty(ps, qs, close, x, y);
    } else {
      JoinSame(ps, qs, close, x, y);
    }
  }
}
