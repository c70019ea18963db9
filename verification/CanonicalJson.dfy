/**
  The canonical JSON printer (packages/contracts/src/digest.ts:15-82) and why its text is unambiguous: two
  values print alike exactly when they are equal up to key order, the sign of zero and a lone hole.
 */
module CanonicalJson {
  import opened Tables
  import opened CanonicalText

  datatype Number = NegativeZero | Finite(text: NumberText)

  /**
    A value as the printer sees it. `Unsupported` stands wherever the source throws: undefined, a
    function, a symbol, a bigint, a non-finite number, a non-plain object, a cycle. `Hole` is a missing item of
    an array: the check meant to refuse it (digest.ts:39-45) is made inside `map`, which skips holes, and so
    they are joined as nothing.
   */
  datatype Json =
    | Null
    | Bool(value: bool)
    | Number(number: Number)
    | String(text: Text)
    | Array(items: seq<Json>)
    | Object(fields: map<Text, Json>)
    | Hole
    | Unsupported

  predicate Supported(v: Json)
    decreases v, 0
  {
    match v
    case Unsupported => false
    case Hole => false
    case Array(items) => forall i :: 0 <= i < |items| ==> Item(items[i])
    case Object(fields) => forall k :: k in fields ==> Supported(fields[k])
    case _ => true
  }

  predicate Item(v: Json)
    decreases v, 1
  {
    v.Hole? || Supported(v)
  }

  /**
    Equality up to the sign of zero and up to reading an array of one hole as empty; the order of an object's
    keys is not part of a map.
   */
  function Normal(v: Json): Json {
    match v
    case Number(NegativeZero) => Number(Finite(ZERO))
    case Array(items) =>
      if items == [Hole] then Array([]) else Array(seq(|items|, i requires 0 <= i < |items| => Normal(items[i])))
    case Object(fields) => Object(map k | k in fields :: Normal(fields[k]))
    case _ => v
  }

  // ------------------------------------------------------------------------------- keys

  predicate TextLess(a: Text, b: Text) {
    b != [] && (a == [] || a[0] < b[0] || (a[0] == b[0] && TextLess(a[1..], b[1..])))
  }

  lemma {:induction false} TextTotal(a: Text, b: Text)
    ensures TextLess(a, b) || TextLess(b, a) || a == b
    ensures !(TextLess(a, b) && TextLess(b, a)) && !TextLess(a, a)
  {
    if a != [] && b != [] {
      TextTotal(a[1..], b[1..]);
      TextTotal(a[1..], a[1..]);
      assert a == [a[0]] + a[1..] && b == [b[0]] + b[1..];
    } else if a != [] {
      TextTotal(a[1..], a[1..]);
    }
  }

  lemma {:induction false} TextTransitive(a: Text, b: Text, c: Text)
    requires TextLess(a, b) && TextLess(b, c)
    ensures TextLess(a, c)
  {
    if a != [] && a[0] == b[0] && b[0] == c[0] {
      TextTransitive(a[1..], b[1..], c[1..]);
    }
  }

  /** Code units are compared one by one; what is a front of the other comes first. */
  lemma {:induction false} FirstDifference(a: Text, b: Text)
    ensures TextLess(a, b) <==>
              exists n :: 0 <= n <= |a| && n < |b| && a[..n] == b[..n] && (n == |a| || a[n] as int < b[n] as int)
  {
    if a != [] && b != [] && a[0] == b[0] {
      FirstDifference(a[1..], b[1..]);
      if n :| 0 <= n <= |a[1..]| && n < |b[1..]| && a[1..][..n] == b[1..][..n]
              && (n == |a[1..]| || a[1..][n] as int < b[1..][n] as int) {
        assert a[..n + 1] == [a[0]] + a[1..][..n] && b[..n + 1] == [b[0]] + b[1..][..n];
      }
      if n :| 0 <= n <= |a| && n < |b| && a[..n] == b[..n] && (n == |a| || a[n] as int < b[n] as int) {
        assert a[1..][..n - 1] == a[..n][1..] && b[1..][..n - 1] == b[..n][1..];
      }
    } else if b != [] && (a == [] || a[0] < b[0]) {
      assert a[..0] == b[..0];
    } else if a != [] && b != [] {
      assert forall n :: 0 < n <= |a| && n < |b| ==> a[..n][0] == a[0] && b[..n][0] == b[0];
    }
  }

  /** Somewhere inside there is something the source throws at, or a field is missing its value. */
  predicate Broken(v: Json) {
    match v
    case Unsupported => true
    case Array(items) => exists i :: 0 <= i < |items| && Broken(items[i])
    case Object(fields) => exists k :: k in fields && (fields[k].Hole? || Broken(fields[k]))
    case _ => false
  }

  lemma {:induction false} RefusedExactly(v: Json)
    ensures Canonicalize(v).None? <==> v.Hole? || Broken(v)
  {
    hide Print;
    match v
    case Array(items) =>
      forall i | 0 <= i < |items| ensures Item(items[i]) <==> !Broken(items[i]) {
        RefusedExactly(items[i]);
      }
    case Object(fields) =>
      forall k | k in fields ensures Supported(fields[k]) <==> !fields[k].Hole? && !Broken(fields[k]) {
        RefusedExactly(fields[k]);
      }
    case _ =>
  }

  predicate Least(keys: set<Text>, k: Text) {
    k in keys && forall other :: other in keys && other != k ==> TextLess(k, other)
  }

  lemma {:induction false} LeastExists(keys: set<Text>)
    requires keys != {}
    ensures exists least :: Least(keys, least)
    decreases |keys|
  {
    var k :| k in keys;
    var rest := keys - {k};
    assert keys == rest + {k};
    if rest == {} {
      assert Least(keys, k);
    } else {
      LeastExists(rest);
      var other :| Least(rest, other);
      TextTotal(k, other);
      if TextLess(k, other) {
        forall x | x in rest && x != other ensures TextLess(k, x) {
          TextTransitive(k, other, x);
        }
        assert Least(keys, k);
      } else {
        assert Least(keys, other);
      }
    }
  }

  lemma LeastUnique(keys: set<Text>)
    ensures forall a, b :: Least(keys, a) && Least(keys, b) ==> a == b
  {
    forall a, b | Least(keys, a) && Least(keys, b) ensures a == b {
      TextTotal(a, b);
    }
  }

  function LeastKey(keys: set<Text>): (least: Text)
    requires keys != {}
    ensures Least(keys, least)
  {
    LeastExists(keys);
    LeastUnique(keys);
    var least :| least in keys && Least(keys, least);
    least
  }

  /** Object keys in code unit order. */
  function SortedKeys(keys: set<Text>): seq<Text>
    decreases |keys|
  {
    if keys == {} then [] else [LeastKey(keys)] + SortedKeys(keys - {LeastKey(keys)})
  }

  lemma {:induction false} SortedKeysMembers(keys: set<Text>)
    ensures forall k :: k in SortedKeys(keys) <==> k in keys
    ensures |SortedKeys(keys)| == |keys|
    decreases |keys|
  {
    hide Least;
    if keys != {} {
      SortedKeysMembers(keys - {LeastKey(keys)});
    }
  }

  /** Strictly increasing, as in section 3.2.3 of RFC 8785. */
  lemma {:induction false} SortedKeysIncrease(keys: set<Text>)
    ensures forall i, j :: 0 <= i < j < |SortedKeys(keys)| ==> TextLess(SortedKeys(keys)[i], SortedKeys(keys)[j])
    decreases |keys|
  {
    hide TextLess;
    if keys != {} {
      var least := LeastKey(keys);
      var rest := SortedKeys(keys - {least});
      SortedKeysIncrease(keys - {least});
      SortedKeysMembers(keys - {least});
      forall j | 0 <= j < |rest| ensures TextLess(least, rest[j]) {
        assert rest[j] in keys - {least};
      }
    }
  }

  // ---------------------------------------------------------------------------- printer

  const NULL_TEXT: Text := [110, 117, 108, 108]
  const TRUE_TEXT: Text := [116, 114, 117, 101]
  const FALSE_TEXT: Text := [102, 97, 108, 115, 101]

  function Print(v: Json): Text {
    match v
    case Null => NULL_TEXT
    case Bool(value) => if value then TRUE_TEXT else FALSE_TEXT
    case Number(NegativeZero) => ZERO
    case Number(Finite(text)) => text
    case String(text) => Quoted(text)
    case Array(items) => [OPEN_BRACKET] + Join(seq(|items|, i requires 0 <= i < |items| => Print(items[i]))) + [CLOSE_BRACKET]
    case Object(fields) =>
      var keys := SortedKeys(fields.Keys);
      SortedKeysMembers(fields.Keys);
      [OPEN_BRACE] + Join(seq(|keys|, i requires 0 <= i < |keys| =>
        assert keys[i] in keys; Quoted(keys[i]) + [COLON] + Print(fields[keys[i]]))) + [CLOSE_BRACE]
    case Hole => []
    case Unsupported => []
  }

  function Canonicalize(v: Json): Option<Text> {
    if Supported(v) then Some(Print(v)) else None
  }

  function Parts(items: seq<Json>): (parts: seq<Text>)
    ensures |parts| == |items| && forall i :: 0 <= i < |items| ==> parts[i] == Print(items[i])
  {
    seq(|items|, i requires 0 <= i < |items| => Print(items[i]))
  }

  function Members(fields: map<Text, Json>): (members: seq<Text>)
    ensures |members| == |SortedKeys(fields.Keys)|
    ensures forall i :: 0 <= i < |members| ==>
              && SortedKeys(fields.Keys)[i] in fields
              && members[i] == Quoted(SortedKeys(fields.Keys)[i]) + [COLON] + Print(fields[SortedKeys(fields.Keys)[i]])
  {
    var keys := SortedKeys(fields.Keys);
    SortedKeysMembers(fields.Keys);
    assert forall i :: 0 <= i < |keys| ==> keys[i] in fields;
    seq(|keys|, i requires 0 <= i < |keys| => Quoted(keys[i]) + [COLON] + Print(fields[keys[i]]))
  }

  lemma PrintArray(items: seq<Json>, x: Text)
    ensures Print(Array(items)) + x == [OPEN_BRACKET] + (Join(Parts(items)) + ([CLOSE_BRACKET] + x))
  {
    hide Join;
    assert Parts(items) == seq(|items|, i requires 0 <= i < |items| => Print(items[i]));
  }

  lemma PrintObject(fields: map<Text, Json>, x: Text)
    ensures Print(Object(fields)) + x == [OPEN_BRACE] + (Join(Members(fields)) + ([CLOSE_BRACE] + x))
  {
    hide Join, SortedKeys, Quoted;
    var keys := SortedKeys(fields.Keys);
    SortedKeysMembers(fields.Keys);
    assert forall i :: 0 <= i < |keys| ==> keys[i] in fields;
    var members := seq(|keys|, i requires 0 <= i < |keys| => Quoted(keys[i]) + [COLON] + Print(fields[keys[i]]));
    assert Members(fields) == members;
    assert Print(Object(fields)) == [OPEN_BRACE] + Join(members) + [CLOSE_BRACE];
  }

  // -------------------------------------------------------------------- unambiguous text

  /** What the first unit of a value's text says about the value. */
  function Tag(u: CodeUnit): nat {
    if u == 110 then 0 else if u == 116 then 1 else if u == 102 then 2 else if u == QUOTE then 3
    else if u == OPEN_BRACKET then 4 else if u == OPEN_BRACE then 5 else 6
  }

  function TagOf(v: Json): nat {
    match v
    case Null => 0
    case Bool(value) => if value then 1 else 2
    case String(_) => 3
    case Array(_) => 4
    case Object(_) => 5
    case _ => 6
  }

  lemma PrintTagged(v: Json)
    requires Supported(v)
    ensures Starts(Print(v)) && Tag(Print(v)[0]) == TagOf(v)
  {
    hide Join, SortedKeys, Body;
    match v
    case Array(items) => PrintArray(items, []); assert Print(v) + [] == Print(v);
    case Object(fields) => PrintObject(fields, []); assert Print(v) + [] == Print(v);
    case _ =>
  }

  lemma CutEnd(p: Text, q: Text, x: Text)
    requires p + x == q + x
    ensures p == q
  {
    assert |p + x| == |q + x|;
    SplitAt(p, q, x, x);
  }

  /** No supported value's text is a proper part of the front of another's. */
  lemma {:induction false} PrintUnique(a: Json, b: Json, x: Text, y: Text)
    requires Supported(a) && Supported(b) && Follow(x) && Follow(y) && Print(a) + x == Print(b) + y
    ensures Normal(a) == Normal(b) && x == y
    decreases a, 1
  {
    hide Print, Supported, Normal, Starts, Follow;
    PrintTagged(a);
    PrintTagged(b);
    assert (Print(a) + x)[0] == Print(a)[0] && (Print(b) + y)[0] == Print(b)[0] by {
      NonEmpty(a);
      NonEmpty(b);
    }
    if a.Array? && b.Array? {
      ArraysUnique(a, b, x, y);
    } else if a.Object? && b.Object? {
      ObjectsUnique(a, b, x, y);
    } else {
      ScalarsUnique(a, b, x, y);
    }
  }

  lemma NonEmpty(v: Json)
    requires Supported(v)
    ensures Print(v) != []
  {
    hide Print;
    PrintTagged(v);
  }

  lemma ScalarsUnique(a: Json, b: Json, x: Text, y: Text)
    requires Supported(a) && Supported(b) && Follow(x) && Follow(y) && Print(a) + x == Print(b) + y
    requires TagOf(a) == TagOf(b) && !a.Array? && !a.Object?
    ensures Normal(a) == Normal(b) && x == y
  {
    hide Quoted, Follow;
    match a
    case Number(_) =>
      var s: NumberText, t: NumberText := Print(a), Print(b);
      NumberUnique(s, t, x, y);
    case String(s) => QuotedUnique(s, b.text, x, y);
    case Unsupported => assert false;
    case _ => SplitAt(Print(a), Print(b), x, y);
  }

  /** Items are told apart by their text too, holes included. */
  lemma {:induction false} ItemsUnique(a: Json, b: Json, x: Text, y: Text)
    requires Item(a) && Item(b) && Follow(x) && Follow(y) && Print(a) + x == Print(b) + y
    ensures Normal(a) == Normal(b) && Print(a) == Print(b) && x == y
    decreases a, 2
  {
    hide Print, Supported, Normal;
    HolePrints();
    if a.Hole? {
      assert Print(a) + x == x;
      if b.Hole? {
        assert Print(b) + y == y;
      } else {
        NeverFollows(b, y);
      }
    } else if b.Hole? {
      assert Print(b) + y == y;
      NeverFollows(a, x);
    } else {
      PrintUnique(a, b, x, y);
      CutEnd(Print(a), Print(b), x);
    }
  }

  /** A value's text stands where nothing, a comma or a bracket does not. */
  lemma NeverFollows(v: Json, rest: Text)
    requires Supported(v)
    ensures !Follow(Print(v) + rest)
  {
    hide Print;
    PrintTagged(v);
  }

  lemma HolePrints()
    ensures Print(Hole) == []
  {
  }

  /** The items that count: a single hole is joined like no item at all. */
  function Listed(items: seq<Json>): seq<Json> {
    if items == [Hole] then [] else items
  }

  lemma ListedJoins(items: seq<Json>)
    ensures Join(Parts(items)) == Join(Parts(Listed(items)))
  {
    if items == [Hole] {
      assert Parts(items) == [Print(Hole)];
    }
  }

  lemma NormalArray(items: seq<Json>)
    ensures var listed := Listed(items);
            Normal(Array(items)) == Array(seq(|listed|, i requires 0 <= i < |listed| => Normal(listed[i])))
  {
  }

  lemma ListedParts(items: seq<Json>)
    requires Supported(Array(items))
    ensures var parts := Parts(Listed(items));
            && parts != [[]]
            && (forall i :: 0 <= i < |parts| ==> Item(Listed(items)[i]))
            && (forall i :: 0 <= i < |parts| ==> parts[i] == [] || Starts(parts[i]))
  {
    hide Print, Starts;
    HolePrints();
    var listed := Listed(items);
    forall i | 0 <= i < |listed| && !listed[i].Hole?
      ensures Print(listed[i]) != [] && Starts(Print(listed[i]))
    {
      NonEmpty(listed[i]);
      PrintTagged(listed[i]);
    }
  }

  lemma {:induction false} ArraysUnique(a: Json, b: Json, x: Text, y: Text)
    requires a.Array? && b.Array?
    requires Supported(a) && Supported(b) && Follow(x) && Follow(y) && Print(a) + x == Print(b) + y
    ensures Normal(a) == Normal(b) && x == y
    decreases a, 0
  {
    hide Print, Supported, Starts, Follow, Join, Normal;
    var these, those := Listed(a.items), Listed(b.items);
    var ps, qs := Parts(these), Parts(those);
    ListedParts(a.items);
    ListedParts(b.items);
    forall i, j, u, v | 0 <= i < |ps| && 0 <= j < |qs| && Follow(u) && Follow(v) && ps[i] + u == qs[j] + v
      ensures ps[i] == qs[j] && u == v
    {
      ItemsUnique(these[i], those[j], u, v);
    }
    PrintArray(a.items, x);
    PrintArray(b.items, y);
    ListedJoins(a.items);
    ListedJoins(b.items);
    SplitAt([OPEN_BRACKET], [OPEN_BRACKET], Join(ps) + ([CLOSE_BRACKET] + x), Join(qs) + ([CLOSE_BRACKET] + y));
    JoinUnique(ps, qs, CLOSE_BRACKET, x, y);
    EmptyFollows();
    forall i | 0 <= i < |these| ensures Normal(these[i]) == Normal(those[i]) {
      assert ps[i] == qs[i] && ps[i] + [] == qs[i] + [];
      ItemsUnique(these[i], those[i], [], []);
    }
    NormalArray(a.items);
    NormalArray(b.items);
  }

  lemma EmptyFollows()
    ensures Follow([])
  {
  }

  lemma MemberStarts(key: Text, v: Json)
    ensures Quoted(key) + [COLON] + Print(v) != [] && Starts(Quoted(key) + [COLON] + Print(v))
  {
    hide Print, Body;
  }

  lemma MemberSplits(key: Text, v: Json, x: Text)
    ensures Quoted(key) + [COLON] + Print(v) + x == Quoted(key) + ([COLON] + (Print(v) + x))
  {
    hide Print, Quoted;
    Regroup(Quoted(key), [COLON], Print(v), x);
    Regroup([], [COLON], Print(v), x);
  }

  lemma {:induction false} MembersUnique(k: Text, l: Text, a: Json, b: Json, x: Text, y: Text)
    requires Supported(a) && Supported(b) && Follow(x) && Follow(y)
    requires Quoted(k) + [COLON] + Print(a) + x == Quoted(l) + [COLON] + Print(b) + y
    ensures k == l && Normal(a) == Normal(b) && x == y
    ensures Quoted(k) + [COLON] + Print(a) == Quoted(l) + [COLON] + Print(b)
    decreases a, 2
  {
    hide Print, Supported, Normal, Quoted, Follow;
    MemberSplits(k, a, x);
    MemberSplits(l, b, y);
    QuotedUnique(k, l, [COLON] + (Print(a) + x), [COLON] + (Print(b) + y));
    SplitAt([COLON], [COLON], Print(a) + x, Print(b) + y);
    PrintUnique(a, b, x, y);
    CutEnd(Quoted(k) + [COLON] + Print(a), Quoted(l) + [COLON] + Print(b), x);
  }

  lemma {:induction false} ObjectsUnique(a: Json, b: Json, x: Text, y: Text)
    requires a.Object? && b.Object?
    requires Supported(a) && Supported(b) && Follow(x) && Follow(y) && Print(a) + x == Print(b) + y
    ensures Normal(a) == Normal(b) && x == y
    decreases a, 0
  {
    hide Print, Starts, Follow, Join, SortedKeys, Quoted;
    var ps, qs := Members(a.fields), Members(b.fields);
    var ks, ls := SortedKeys(a.fields.Keys), SortedKeys(b.fields.Keys);
    forall i | 0 <= i < |ps| ensures ps[i] != [] && Starts(ps[i]) {
      MemberStarts(ks[i], a.fields[ks[i]]);
    }
    forall j | 0 <= j < |qs| ensures qs[j] != [] && Starts(qs[j]) {
      MemberStarts(ls[j], b.fields[ls[j]]);
    }
    forall i, j, u, v | 0 <= i < |ps| && 0 <= j < |qs| && Follow(u) && Follow(v) && ps[i] + u == qs[j] + v
      ensures ps[i] == qs[j] && u == v
    {
      MembersUnique(ks[i], ls[j], a.fields[ks[i]], b.fields[ls[j]], u, v);
    }
    PrintObject(a.fields, x);
    PrintObject(b.fields, y);
    SplitAt([OPEN_BRACE], [OPEN_BRACE], Join(ps) + ([CLOSE_BRACE] + x), Join(qs) + ([CLOSE_BRACE] + y));
    assert |ps| == 1 ==> ps[0] != [];
    assert |qs| == 1 ==> qs[0] != [];
    JoinUnique(ps, qs, CLOSE_BRACE, x, y);
    EmptyFollows();
    forall i | 0 <= i < |ks| ensures ks[i] == ls[i] && Normal(a.fields[ks[i]]) == Normal(b.fields[ks[i]]) {
      assert ps[i] == qs[i];
      assert ps[i] + [] == qs[i] + [];
      MembersUnique(ks[i], ls[i], a.fields[ks[i]], b.fields[ls[i]], [], []);
    }
    assert ks == ls;
    SameFields(a, b);
  }

  lemma SameFields(a: Json, b: Json)
    requires a.Object? && b.Object? && SortedKeys(a.fields.Keys) == SortedKeys(b.fields.Keys)
    requires forall i :: 0 <= i < |SortedKeys(a.fields.Keys)| ==>
               var k := SortedKeys(a.fields.Keys)[i];
               k in a.fields && k in b.fields && Normal(a.fields[k]) == Normal(b.fields[k])
    ensures Normal(a) == Normal(b)
  {
    hide SortedKeys, Normal;
    SortedKeysMembers(a.fields.Keys);
    SortedKeysMembers(b.fields.Keys);
    NormalObject(a.fields);
    NormalObject(b.fields);
    assert forall k :: k in a.fields <==> k in b.fields;
    forall k | k in a.fields ensures Normal(a.fields[k]) == Normal(b.fields[k]) {
      assert k in SortedKeys(a.fields.Keys);
    }
    assert Object(a.fields) == a && Object(b.fields) == b;
  }

  lemma NormalObject(fields: map<Text, Json>)
    ensures Normal(Object(fields)) == Object(map k | k in fields :: Normal(fields[k]))
  {
  }

  /** And values with one normal form have one text. */
  lemma {:induction false} PrintOfNormal(v: Json)
    ensures Print(Normal(v)) == Print(v) && Supported(Normal(v)) == Supported(v)
  {
    hide Join, SortedKeys, Quoted;
    match v
    case Array(items) =>
      forall i | 0 <= i < |items| ensures Print(Normal(items[i])) == Print(items[i])
                                          && Item(Normal(items[i])) == Item(items[i]) {
        PrintOfNormal(items[i]);
      }
      var listed := Listed(items);
      assert Parts(Normal(v).items) == Parts(listed);
      ListedJoins(items);
      PrintArray(items, []);
      PrintArray(Normal(v).items, []);
    case Object(fields) =>
      forall k | k in fields ensures Print(Normal(fields[k])) == Print(fields[k])
                                     && Supported(Normal(fields[k])) == Supported(fields[k]) {
        PrintOfNormal(fields[k]);
      }
      assert Normal(v).fields.Keys == fields.Keys;
      assert Members(Normal(v).fields) == Members(fields);
      PrintObject(fields, []);
      PrintObject(Normal(v).fields, []);
    case _ =>
  }

  /**
    The printer is unambiguous: two supported values print alike exactly when they are equal up to the
    order of keys, the sign of zero, and an array of one hole being read as empty.
   */
  lemma CanonicalTextIdentifies(a: Json, b: Json)
    requires Canonicalize(a).Some? && Canonicalize(b).Some?
    ensures Canonicalize(a) == Canonicalize(b) <==> Normal(a) == Normal(b)
  {
    hide Print, Supported, Normal;
    EmptyFollows();
    if Print(a) == Print(b) {
      assert Print(a) + [] == Print(b) + [];
      PrintUnique(a, b, [], []);
    }
    PrintOfNormal(a);
    PrintOfNormal(b);
  }

  /** Sparse arrays are not refused, and one of them prints like the empty array. */
  lemma HoleUnseen()
    ensures Array([Hole]) != Array([]) && Canonicalize(Array([Hole])).Some?
    ensures Canonicalize(Array([Hole])) == Canonicalize(Array([]))
  {
    hide Print, Normal;
    assert Normal(Array([Hole])) == Normal(Array([])) by {
      NormalArray([Hole]);
      NormalArray([]);
    }
    CanonicalTextIdentifies(Array([Hole]), Array([]));
  }
}
