/**
  A reader for JSON text without white space, after the grammar of RFC 8259, with the lower-case escapes that
  RFC 8785 asks for (section 3.2.2.2); and what it makes of the text the canonical printer writes.
 */
module JsonReader {
  import opened Tables
  import opened CanonicalText
  import opened CanonicalJson

  datatype Read<T> = Unreadable | Got(value: T, rest: Text)

  // ------------------------------------------------------------------------------ characters

  predicate At(text: Text, c: char) {
    text != [] && text[0] as int == c as int
  }

  predicate Begins(text: Text, word: string) {
    |word| <= |text| && forall k :: 0 <= k < |word| ==> text[k] as int == word[k] as int
  }

  function DigitValue(u: CodeUnit): (value: Option<CodeUnit>)
    ensures value.Some? ==> value.value < 16
  {
    if '0' as int <= u as int <= '9' as int then Some((u as int - '0' as int) as CodeUnit)
    else if 'a' as int <= u as int <= 'f' as int then Some((u as int - 'a' as int + 10) as CodeUnit)
    else None
  }

  /** Section 7 of RFC 8259. */
  function Escape(u: CodeUnit): Option<CodeUnit> {
    if u as int == '"' as int then Some(0x22)
    else if u as int == '\\' as int then Some(0x5C)
    else if u as int == '/' as int then Some(0x2F)
    else if u as int == 'b' as int then Some(0x08)
    else if u as int == 'f' as int then Some(0x0C)
    else if u as int == 'n' as int then Some(0x0A)
    else if u as int == 'r' as int then Some(0x0D)
    else if u as int == 't' as int then Some(0x09)
    else None
  }

  function FourDigits(text: Text): Option<CodeUnit> {
    if |text| < 4 then None
    else
      var a, b, c, d := DigitValue(text[0]), DigitValue(text[1]), DigitValue(text[2]), DigitValue(text[3]);
      if a.Some? && b.Some? && c.Some? && d.Some?
      then Some(((a.value * 16 + b.value) * 16 + c.value) * 16 + d.value) else None
  }

  /** One code unit of a string, raw or escaped. */
  function ReadUnit(text: Text): (read: Read<CodeUnit>)
    ensures read.Got? ==> |read.rest| < |text|
  {
    if text == [] || At(text, '"') || text[0] < 0x20 then Unreadable
    else if !At(text, '\\') then Got(text[0], text[1..])
    else if At(text[1..], 'u') then
      var unit := FourDigits(text[2..]);
      if unit.Some? then Got(unit.value, text[6..]) else Unreadable
    else if |text| > 1 && Escape(text[1]).Some? then Got(Escape(text[1]).value, text[2..])
    else Unreadable
  }

  /** The rest of a string, behind its opening quote. */
  function ReadString(text: Text): (read: Read<Text>)
    ensures read.Got? ==> |read.rest| < |text|
    decreases |text|
  {
    if At(text, '"') then Got([], text[1..])
    else
      var first := ReadUnit(text);
      if first.Unreadable? then Unreadable
      else
        var more := ReadString(first.rest);
        if more.Got? then Got([first.value] + more.value, more.rest) else Unreadable
  }

  // ---------------------------------------------------------------------------------- values

  /** How many units at the front belong to a number. */
  function NumberLength(text: Text): (n: nat)
    ensures n <= |text| && forall k :: 0 <= k < n ==> NumberUnit(text[k])
    ensures n < |text| ==> !NumberUnit(text[n])
  {
    if text == [] || !NumberUnit(text[0]) then 0 else 1 + NumberLength(text[1..])
  }

  function ReadNumber(text: Text): (read: Read<Json>)
    ensures read.Got? ==> |read.rest| < |text|
  {
    var n := NumberLength(text);
    if NumberLike(text[..n]) then Got(Json.Number(Finite(text[..n])), text[n..]) else Unreadable
  }

  function ReadValue(text: Text): (read: Read<Json>)
    ensures read.Got? ==> |read.rest| < |text|
    decreases |text|, 0
  {
    if Begins(text, "null") then Got(Null, text[4..])
    else if Begins(text, "true") then Got(Bool(true), text[4..])
    else if Begins(text, "false") then Got(Bool(false), text[5..])
    else if At(text, '"') then
      var read := ReadString(text[1..]);
      if read.Got? then Got(String(read.value), read.rest) else Unreadable
    else if At(text, '[') then
      if At(text[1..], ']') then Got(Array([]), text[2..])
      else
        var read := ReadItems(text[1..]);
        if read.Got? then Got(Array(read.value), read.rest) else Unreadable
    else if At(text, '{') then
      if At(text[1..], '}') then Got(Object(map[]), text[2..])
      else
        var read := ReadMembers(text[1..]);
        if read.Got? then Got(Object(read.value), read.rest) else Unreadable
    else ReadNumber(text)
  }

  /** The items of an array and its closing bracket. */
  function ReadItems(text: Text): (read: Read<seq<Json>>)
    ensures read.Got? ==> |read.rest| < |text|
    decreases |text|, 1
  {
    var first := ReadValue(text);
    if first.Unreadable? then Unreadable
    else if At(first.rest, ']') then Got([first.value], first.rest[1..])
    else if !At(first.rest, ',') then Unreadable
    else
      var more := ReadItems(first.rest[1..]);
      if more.Got? then Got([first.value] + more.value, more.rest) else Unreadable
  }

  /** One name and its value. */
  function ReadMember(text: Text): (read: Read<(Text, Json)>)
    ensures read.Got? ==> |read.rest| < |text|
    decreases |text|, 1
  {
    if !At(text, '"') then Unreadable
    else
      var key := ReadString(text[1..]);
      if key.Unreadable? || !At(key.rest, ':') then Unreadable
      else
        var value := ReadValue(key.rest[1..]);
        if value.Got? then Got((key.value, value.value), value.rest) else Unreadable
  }

  /** The members of an object and its closing brace; a name must not come twice. */
  function ReadMembers(text: Text): (read: Read<map<Text, Json>>)
    ensures read.Got? ==> |read.rest| < |text|
    decreases |text|, 2
  {
    var first := ReadMember(text);
    if first.Unreadable? then Unreadable
    else
      var (key, value) := first.value;
      if At(first.rest, '}') then Got(map[key := value], first.rest[1..])
      else if !At(first.rest, ',') then Unreadable
      else
        var more := ReadMembers(first.rest[1..]);
        if more.Got? && key !in more.value then Got(more.value[key := value], more.rest) else Unreadable
  }

  // --------------------------------------------------------------------------- strings, back

  lemma DigitRead(d: CodeUnit)
    requires d < 16
    ensures DigitValue(HexDigit(d)) == Some(d)
  {
  }

  lemma HexRead(u: CodeUnit, rest: Text)
    ensures FourDigits(Hex(u) + rest) == Some(u)
  {
    hide DigitValue, HexDigit;
    var q := u / 16;
    var r := q / 16;
    DigitRead(r / 16);
    DigitRead(r % 16);
    DigitRead(q % 16);
    DigitRead(u % 16);
    assert (Hex(u) + rest)[0] == Hex(u)[0] && (Hex(u) + rest)[1] == Hex(u)[1];
    assert (Hex(u) + rest)[2] == Hex(u)[2] && (Hex(u) + rest)[3] == Hex(u)[3];
  }

  lemma EscapedRead(u: CodeUnit, rest: Text)
    ensures ReadUnit(Escaped(u) + rest) == Got(u, rest)
    ensures !At(Escaped(u) + rest, '"')
  {
    hide Hex, FourDigits;
    var text := Escaped(u) + rest;
    assert text[0] == Escaped(u)[0];
    if Raw(u) {
      assert text[1..] == rest;
    } else {
      assert text[1] == Escaped(u)[1];
      if text[1] == 117 {
        HexRead(u, rest);
        assert text[2..] == Hex(u) + rest && text[6..] == rest;
      } else {
        assert text[2..] == rest;
      }
    }
  }

  /** Escapes are as short as they can be. */
  lemma EscapesAreShort(u: CodeUnit)
    ensures |Escaped(u)| == 1 <==>
              0x20 <= u && u as int != '"' as int && u as int != '\\' as int && !(0xD800 <= u < 0xE000)
    ensures |Escaped(u)| == 2 <==>
              u as int == '"' as int || u as int == '\\' as int || u in {0x08, 0x09, 0x0A, 0x0C, 0x0D}
    ensures |Escaped(u)| in {1, 2, 6}
  {
    hide Hex;
  }

  lemma {:induction false} BodyRead(s: Text, rest: Text)
    ensures ReadString(Body(s) + [QUOTE] + rest) == Got(s, rest)
    decreases |s|
  {
    hide Escaped, ReadUnit, Body;
    var text := Body(s) + [QUOTE] + rest;
    BodySplits(s, rest);
    if s == [] {
      EmptyBody(rest);
      assert text[1..] == rest;
    } else if Paired(s) {
      BodyRead(s[2..], rest);
      var tail := Body(s[2..]) + [QUOTE] + rest;
      PairRead(s[0], s[1], tail);
      assert text == [s[0]] + ([s[1]] + tail);
      assert s == [s[0]] + ([s[1]] + s[2..]);
    } else {
      BodyRead(s[1..], rest);
      EscapedRead(s[0], Body(s[1..]) + [QUOTE] + rest);
      assert s == [s[0]] + s[1..];
    }
  }

  lemma PairRead(high: CodeUnit, low: CodeUnit, tail: Text)
    requires High(high) && Low(low)
    ensures ReadUnit([high] + ([low] + tail)) == Got(high, [low] + tail) && !At([high] + ([low] + tail), '"')
    ensures ReadUnit([low] + tail) == Got(low, tail) && !At([low] + tail, '"')
  {
    assert ([high] + ([low] + tail))[1..] == [low] + tail && ([low] + tail)[1..] == tail;
  }

  lemma QuotedRead(s: Text, rest: Text)
    ensures At(Quoted(s) + rest, '"') && ReadString((Quoted(s) + rest)[1..]) == Got(s, rest)
  {
    hide Body;
    BodyRead(s, rest);
    assert Quoted(s) + rest == [QUOTE] + (Body(s) + [QUOTE] + rest);
  }

  // ---------------------------------------------------------------------------- values, back

  /** No hole among other items; a lone one is printed like nothing at all. */
  predicate Gapless(v: Json) {
    match v
    case Array(items) => items == [Hole] || forall i :: 0 <= i < |items| ==> !items[i].Hole? && Gapless(items[i])
    case Object(fields) => forall k :: k in fields ==> Gapless(fields[k])
    case _ => true
  }

  function Expected(v: Json, rest: Text): Read<Json> {
    if Gapless(v) then Got(Normal(v), rest) else Unreadable
  }

  lemma NumberRead(number: NumberText, rest: Text)
    requires Follow(rest)
    ensures ReadValue(number + rest) == Got(Json.Number(Finite(number)), rest)
  {
    var text := number + rest;
    assert text[0] == number[0];
    var n := NumberLength(text);
    assert forall k :: 0 <= k < |number| ==> text[k] == number[k];
    assert rest != [] ==> text[|number|] == rest[0];
    assert n == |number|;
    assert text[..n] == number && text[n..] == rest;
  }

  lemma WordRead(rest: Text)
    ensures ReadValue(NULL_TEXT + rest) == Got(Null, rest)
    ensures ReadValue(TRUE_TEXT + rest) == Got(Bool(true), rest)
    ensures ReadValue(FALSE_TEXT + rest) == Got(Bool(false), rest)
  {
    hide ReadItems, ReadMembers, ReadNumber, ReadString;
    assert "null"[0] == 'n' && "null"[1] == 'u' && "null"[2] == 'l' && "null"[3] == 'l';
    assert "true"[0] == 't' && "true"[1] == 'r' && "true"[2] == 'u' && "true"[3] == 'e';
    assert "false"[0] == 'f' && "false"[1] == 'a' && "false"[2] == 'l' && "false"[3] == 's' && "false"[4] == 'e';
    var a, b, c := NULL_TEXT + rest, TRUE_TEXT + rest, FALSE_TEXT + rest;
    assert forall k :: 0 <= k < 4 ==> a[k] == NULL_TEXT[k] && b[k] == TRUE_TEXT[k];
    assert forall k :: 0 <= k < 5 ==> c[k] == FALSE_TEXT[k];
    assert Begins(a, "null") && Begins(b, "true") && Begins(c, "false");
    assert b[0] != 'n' as int as CodeUnit && c[0] != 'n' as int as CodeUnit && c[0] != 't' as int as CodeUnit;
    assert a[4..] == rest && b[4..] == rest && c[5..] == rest;
  }

  lemma StringRead(s: Text, rest: Text)
    ensures ReadValue(Quoted(s) + rest) == Got(String(s), rest)
  {
    hide Quoted, ReadString, ReadItems, ReadMembers, ReadNumber;
    QuotedRead(s, rest);
    NoWord(Quoted(s) + rest);
  }

  lemma NoWord(text: Text)
    requires At(text, '"') || At(text, '[') || At(text, '{') || At(text, ',') || At(text, ']')
    ensures !Begins(text, "null") && !Begins(text, "true") && !Begins(text, "false")
  {
    assert "null"[0] == 'n' && "true"[0] == 't' && "false"[0] == 'f';
  }

  /** Nothing can be read in front of a comma or a closing bracket. */
  lemma NothingRead(text: Text)
    requires At(text, ',') || At(text, ']')
    ensures ReadValue(text) == Unreadable
  {
    hide ReadString, ReadItems, ReadMembers;
    NoWord(text);
    assert NumberLength(text) == 0;
  }

  /**
    The reader gets the value back from the front of any text, up to the sign of zero and a lone hole, exactly when
    no array has a hole among other items; otherwise what was printed is no JSON at all.
   */
  lemma {:induction false} ReadsBack(v: Json, rest: Text)
    requires Supported(v) && Follow(rest)
    ensures ReadValue(Print(v) + rest) == Expected(v, rest)
    decreases v, 0
  {
    hide ReadValue, Quoted, Join, SortedKeys, NumberLength;
    match v
    case Null => WordRead(rest);
    case Bool(_) => WordRead(rest);
    case Number(NegativeZero) => NumberRead(ZERO, rest);
    case Number(Finite(text)) => NumberRead(text, rest);
    case String(text) => StringRead(text, rest);
    case Array(items) => ArrayRead(v, rest);
    case Object(fields) => ObjectRead(v, rest);
  }

  lemma {:induction false} ArrayRead(v: Json, rest: Text)
    requires Supported(v) && v.Array?
    ensures ReadValue(Print(v) + rest) == Expected(v, rest)
    decreases v, 0, 1
  {
    hide Print, Normal, Gapless, ReadString, ReadItems, ReadMembers, ReadNumber, Join;
    var text := Print(v) + rest;
    var inner := Join(Parts(v.items)) + ([CLOSE_BRACKET] + rest);
    PrintArray(v.items, rest);
    NormalArray(v.items);
    assert At(text, '[') && text[1..] == inner;
    NoWord(text);
    if v.items == [] || v.items == [Hole] {
      NoItems(v.items, rest);
    } else {
      SomeItems(v.items, rest);
      assert Parts(v.items)[0..] == Parts(v.items);
      ItemsRead(v, 0, rest);
      GaplessFrom(v);
    }
  }

  lemma NoItems(items: seq<Json>, rest: Text)
    requires items == [] || items == [Hole]
    ensures Join(Parts(items)) + ([CLOSE_BRACKET] + rest) == [CLOSE_BRACKET] + rest
    ensures Expected(Array(items), rest) == Got(Array([]), rest)
    ensures ([CLOSE_BRACKET] + rest)[1..] == rest
  {
    HolePrints();
    NormalArray(items);
    assert Normal(Array(items)).items == [];
  }

  /** Behind the opening bracket there is no closing one, as long as there is something to join. */
  lemma SomeItems(items: seq<Json>, rest: Text)
    requires Supported(Array(items)) && items != [] && items != [Hole]
    ensures !At(Join(Parts(items)) + ([CLOSE_BRACKET] + rest), ']')
  {
    hide Print, Join, Starts;
    ListedParts(items);
    ListStart(Parts(items), CLOSE_BRACKET, rest);
    if Parts(items)[0] != [] {
      Starting(Parts(items)[0]);
    }
  }

  lemma Starting(part: Text)
    requires Starts(part)
    ensures part[0] != CLOSE_BRACKET
  {
  }

  predicate GaplessItems(items: seq<Json>) {
    forall i :: 0 <= i < |items| ==> !items[i].Hole? && Gapless(items[i])
  }

  function NormalItems(items: seq<Json>): (normal: seq<Json>)
    ensures |normal| == |items|
  {
    seq(|items|, i requires 0 <= i < |items| => Normal(items[i]))
  }

  lemma GaplessFrom(v: Json)
    requires v.Array? && v.items != [Hole]
    ensures Gapless(v) <==> GaplessItems(v.items[0..])
    ensures Normal(v) == Array(NormalItems(v.items[0..]))
  {
    assert v.items[0..] == v.items;
    NormalArray(v.items);
  }

  lemma {:induction false} ItemsRead(v: Json, k: nat, rest: Text)
    requires Supported(v) && v.Array? && k < |v.items|
    ensures ReadItems(Join(Parts(v.items)[k..]) + ([CLOSE_BRACKET] + rest))
         == if GaplessItems(v.items[k..]) then Got(NormalItems(v.items[k..]), rest) else Unreadable
    decreases v, 0, 0, |v.items| - k
  {
    hide Print, Normal, Gapless, Join, JoinTail, ReadValue, Follow;
    var parts, items := Parts(v.items)[k..], v.items[k..];
    var after := JoinTail(parts) + ([CLOSE_BRACKET] + rest);
    JoinSplits(parts, [CLOSE_BRACKET] + rest);
    ClosingFollows(rest);
    TailFollows(parts, [CLOSE_BRACKET] + rest);
    assert parts[0] == Print(items[0]) && items[0] == v.items[k];
    if items[0].Hole? {
      HolePrints();
      FollowingTail(parts, rest);
      assert parts[0] + after == after;
      NothingRead(after);
    } else {
      ItemSupported(v, k);
      ReadsBack(items[0], after);
      if |items| == 1 {
        LastTail(parts, rest);
        assert after[1..] == rest;
        if Gapless(items[0]) {
          assert NormalItems(items) == [Normal(items[0])];
        }
      } else {
        ItemsRead(v, k + 1, rest);
        MoreTail(parts, rest);
        assert parts[1..] == Parts(v.items)[k + 1..] && items[1..] == v.items[k + 1..];
        assert after[1..] == Join(parts[1..]) + ([CLOSE_BRACKET] + rest);
        GaplessRest(items);
      }
    }
  }

  lemma GaplessRest(items: seq<Json>)
    requires items != []
    ensures GaplessItems(items) <==> !items[0].Hole? && Gapless(items[0]) && GaplessItems(items[1..])
    ensures NormalItems(items) == [Normal(items[0])] + NormalItems(items[1..])
  {
    hide Gapless, Normal;
    if GaplessItems(items[1..]) {
      forall i | 1 <= i < |items| ensures !items[i].Hole? && Gapless(items[i]) {
        assert items[i] == items[1..][i - 1];
      }
    }
  }

  lemma ItemSupported(v: Json, k: nat)
    requires Supported(v) && v.Array? && k < |v.items|
    ensures v.items[k].Hole? || Supported(v.items[k])
  {
    assert Item(v.items[k]);
  }

  lemma ClosingFollows(rest: Text)
    ensures Follow([CLOSE_BRACKET] + rest) && Follow([CLOSE_BRACE] + rest)
  {
  }

  lemma LastTail(parts: seq<Text>, rest: Text)
    requires |parts| == 1
    ensures JoinTail(parts) + ([CLOSE_BRACKET] + rest) == [CLOSE_BRACKET] + rest
    ensures JoinTail(parts) + ([CLOSE_BRACE] + rest) == [CLOSE_BRACE] + rest
  {
  }

  lemma MoreTail(parts: seq<Text>, rest: Text)
    requires |parts| > 1
    ensures JoinTail(parts) + ([CLOSE_BRACKET] + rest) == [COMMA] + (Join(parts[1..]) + ([CLOSE_BRACKET] + rest))
    ensures JoinTail(parts) + ([CLOSE_BRACE] + rest) == [COMMA] + (Join(parts[1..]) + ([CLOSE_BRACE] + rest))
  {
    hide Join;
  }

  lemma FollowingTail(parts: seq<Text>, rest: Text)
    requires parts != []
    ensures var after := JoinTail(parts) + ([CLOSE_BRACKET] + rest); At(after, ',') || At(after, ']')
  {
    hide Join;
  }

  // --------------------------------------------------------------------------- objects, back

  function KeysFrom(fields: map<Text, Json>, k: nat): seq<Text>
    requires k <= |SortedKeys(fields.Keys)|
  {
    SortedKeys(fields.Keys)[k..]
  }

  predicate GaplessMembers(fields: map<Text, Json>, keys: seq<Text>) {
    forall i :: 0 <= i < |keys| ==> keys[i] in fields && Gapless(fields[keys[i]])
  }

  function NormalMembers(fields: map<Text, Json>, keys: seq<Text>): map<Text, Json> {
    map key | key in keys && key in fields :: Normal(fields[key])
  }

  lemma {:induction false} ObjectRead(v: Json, rest: Text)
    requires Supported(v) && v.Object?
    ensures ReadValue(Print(v) + rest) == Expected(v, rest)
    decreases v, 0, 1
  {
    hide Print, Normal, Gapless, ReadString, ReadItems, ReadMembers, ReadNumber, Join, SortedKeys, Quoted;
    var text := Print(v) + rest;
    var members := Members(v.fields);
    PrintObject(v.fields, rest);
    assert At(text, '{') && text[1..] == Join(members) + ([CLOSE_BRACE] + rest);
    NoWord(text);
    GaplessFields(v);
    if members == [] {
      NoMembers(rest);
      assert NormalMembers(v.fields, SortedKeys(v.fields.Keys)) == map[];
    } else {
      assert members[0..] == members && KeysFrom(v.fields, 0) == SortedKeys(v.fields.Keys);
      MembersRead(v, 0, rest);
      FirstMember(v.fields, members, rest);
    }
  }

  lemma NoMembers(rest: Text)
    ensures Join([]) + ([CLOSE_BRACE] + rest) == [CLOSE_BRACE] + rest && ([CLOSE_BRACE] + rest)[1..] == rest
  {
  }

  lemma FirstMember(fields: map<Text, Json>, members: seq<Text>, rest: Text)
    requires members == Members(fields) && members != []
    ensures !At(Join(members) + ([CLOSE_BRACE] + rest), '}')
  {
    hide Join, SortedKeys, Print, Quoted;
    JoinSplits(members, [CLOSE_BRACE] + rest);
    var key := SortedKeys(fields.Keys)[0];
    MemberStarts(key, fields[key]);
    NotBrace(members[0]);
  }

  lemma NotBrace(part: Text)
    requires Starts(part)
    ensures part != [] && part[0] != CLOSE_BRACE
  {
  }

  lemma GaplessFields(v: Json)
    requires v.Object?
    ensures Gapless(v) <==> GaplessMembers(v.fields, SortedKeys(v.fields.Keys))
    ensures Normal(v) == Object(NormalMembers(v.fields, SortedKeys(v.fields.Keys)))
  {
    hide SortedKeys;
    SortedKeysMembers(v.fields.Keys);
    forall key | key in v.fields ensures key in SortedKeys(v.fields.Keys) {
    }
    assert NormalMembers(v.fields, SortedKeys(v.fields.Keys)) == map key | key in v.fields :: Normal(v.fields[key]);
  }

  lemma {:induction false} MembersRead(v: Json, k: nat, rest: Text)
    requires Supported(v) && v.Object? && k < |SortedKeys(v.fields.Keys)|
    ensures var keys := KeysFrom(v.fields, k);
            ReadMembers(Join(Members(v.fields)[k..]) + ([CLOSE_BRACE] + rest))
            == if GaplessMembers(v.fields, keys) then Got(NormalMembers(v.fields, keys), rest) else Unreadable
    decreases v, 0, 0, |SortedKeys(v.fields.Keys)| - k
  {
    hide Print, Normal, Gapless, Join, JoinTail, ReadMember, SortedKeys, Quoted, Follow;
    var parts, keys := Members(v.fields)[k..], KeysFrom(v.fields, k);
    var after := JoinTail(parts) + ([CLOSE_BRACE] + rest);
    JoinSplits(parts, [CLOSE_BRACE] + rest);
    ClosingFollows(rest);
    TailFollows(parts, [CLOSE_BRACE] + rest);
    SortedKeysMembers(v.fields.Keys);
    var key := SortedKeys(v.fields.Keys)[k];
    assert key in v.fields && keys[0] == key;
    MemberRead(v, key, after);
    assert parts[0] == Quoted(key) + [COLON] + Print(v.fields[key]);
    NextMembers(v.fields, keys);
    if |keys| == 1 {
      LastTail(parts, rest);
      assert after[1..] == rest && keys[1..] == [];
    } else {
      MembersRead(v, k + 1, rest);
      MoreTail(parts, rest);
      assert parts[1..] == Members(v.fields)[k + 1..] && keys[1..] == KeysFrom(v.fields, k + 1);
      assert after[1..] == Join(parts[1..]) + ([CLOSE_BRACE] + rest);
      KeyNotLater(v.fields, k);
    }
  }

  /** Sorted keys come once each. */
  lemma KeyNotLater(fields: map<Text, Json>, k: nat)
    requires k + 1 < |SortedKeys(fields.Keys)|
    ensures SortedKeys(fields.Keys)[k] !in KeysFrom(fields, k + 1)
  {
    hide SortedKeys, TextLess;
    var keys := SortedKeys(fields.Keys);
    SortedKeysIncrease(fields.Keys);
    forall j | k < j < |keys| ensures keys[j] != keys[k] {
      TextTotal(keys[k], keys[j]);
    }
  }

  lemma NextMembers(fields: map<Text, Json>, keys: seq<Text>)
    requires keys != [] && keys[0] in fields
    ensures GaplessMembers(fields, keys) <==> Gapless(fields[keys[0]]) && GaplessMembers(fields, keys[1..])
    ensures NormalMembers(fields, keys) == NormalMembers(fields, keys[1..])[keys[0] := Normal(fields[keys[0]])]
  {
    hide Gapless, Normal;
    assert keys == [keys[0]] + keys[1..];
    if GaplessMembers(fields, keys[1..]) {
      forall i | 1 <= i < |keys| ensures keys[i] in fields && (Gapless(fields[keys[i]])) {
        assert keys[i] == keys[1..][i - 1];
      }
    }
  }

  lemma {:induction false} MemberRead(v: Json, key: Text, after: Text)
    requires Supported(v) && v.Object? && key in v.fields && Follow(after)
    ensures ReadMember(Quoted(key) + [COLON] + Print(v.fields[key]) + after)
         == if Gapless(v.fields[key]) then Got((key, Normal(v.fields[key])), after) else Unreadable
    decreases v, 0, 0, 0
  {
    hide Print, Normal, Gapless, Quoted, ReadString, ReadValue, Follow;
    var value := Print(v.fields[key]) + after;
    MemberSplits(key, v.fields[key], after);
    QuotedRead(key, [COLON] + value);
    assert ([COLON] + value)[1..] == value;
    ReadsBack(v.fields[key], after);
  }
}
