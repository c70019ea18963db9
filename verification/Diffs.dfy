/**
  The two diff functions (packages/artifacts/src/diff.ts): when applying what they report to the left side
  gives the right side.

  Paths are token sequences. Arrays are compared as objects whose keys are their indices, and their edits
  are keyed edits, not splices. The source asks for keys with `in`, which also finds the names that every
  object inherits from `Object.prototype`, and then compares with the inherited value.
 */
module Diffs {
  import opened Tables
  import opened CanonicalText
  import opened CanonicalJson

  /** `Function` and `ObjectPrototype` are no JSON values: they are what inherited names lead to. */
  datatype Doc =
    | Leaf(value: nat)
    | Tree(list: bool, fields: map<Text, Doc>)
    | Function(name: Text)
    | ObjectPrototype

  const NULL := Leaf(0)

  predicate IsJson(doc: Doc) {
    match doc
    case Leaf(_) => true
    case Tree(_, fields) => forall key :: key in fields ==> IsJson(fields[key])
    case _ => false
  }

  datatype Change = Add(after: Doc) | Remove | Replace(after: Doc)

  datatype Edit = Edit(path: seq<Text>, change: Change)

  // --------------------------------------------------------------------------- objects

  predicate Spells(key: Text, name: string) {
    |key| == |name| && forall k :: 0 <= k < |key| ==> key[k] as int == name[k] as int
  }

  /** The one name that leads to an object, or to null on the prototype itself; the others lead to functions. */
  predicate Proto(key: Text) {
    Spells(key, "__proto__")
  }

  predicate InheritedName(key: Text) {
    || Proto(key)
    || Spells(key, "constructor")
    || Spells(key, "hasOwnProperty")
    || Spells(key, "isPrototypeOf")
    || Spells(key, "propertyIsEnumerable")
    || Spells(key, "toLocaleString")
    || Spells(key, "toString")
    || Spells(key, "valueOf")
    || Spells(key, "__defineGetter__")
    || Spells(key, "__defineSetter__")
    || Spells(key, "__lookupGetter__")
    || Spells(key, "__lookupSetter__")
  }

  const NAMES := [
    "__defineGetter__", "__defineSetter__", "__lookupGetter__", "__lookupSetter__", "__proto__", "constructor",
    "hasOwnProperty", "isPrototypeOf", "propertyIsEnumerable", "toLocaleString", "toString", "valueOf"]

  /** The twelve names of Object.prototype. */
  lemma TwelveNames(key: Text)
    ensures InheritedName(key) <==> exists k :: 0 <= k < 12 && Spells(key, NAMES[k])
  {
    hide Spells;
    if InheritedName(key) {
      assert || Spells(key, NAMES[0]) || Spells(key, NAMES[1]) || Spells(key, NAMES[2]) || Spells(key, NAMES[3])
             || Spells(key, NAMES[4]) || Spells(key, NAMES[5]) || Spells(key, NAMES[6]) || Spells(key, NAMES[7])
             || Spells(key, NAMES[8]) || Spells(key, NAMES[9]) || Spells(key, NAMES[10]) || Spells(key, NAMES[11]);
    }
  }

  /** typeof value === "object" and not null. */
  predicate IsObject(doc: Doc) {
    doc.Tree? || doc.ObjectPrototype?
  }

  predicate IsList(doc: Doc) {
    doc.Tree? && doc.list
  }

  /** Object.keys sees these; the names on the prototype itself are not enumerable. */
  function Own(doc: Doc): map<Text, Doc> {
    if doc.Tree? then doc.fields else map[]
  }

  /** `key in doc`; the keys asked of a list are indices, which no prototype has. */
  predicate Has(doc: Doc, key: Text)
    requires IsObject(doc)
  {
    key in Own(doc) || (!IsList(doc) && InheritedName(key))
  }

  /** `doc[key]`. */
  function Get(doc: Doc, key: Text): Doc
    requires IsObject(doc) && Has(doc, key)
  {
    if key in Own(doc) then Own(doc)[key]
    else if !Proto(key) then Function(key)
    else if doc.ObjectPrototype? then NULL
    else ObjectPrototype
  }

  // ----------------------------------------------------------------------------- JSON

  function Prefixed(path: seq<Text>, edits: seq<Edit>): (moved: seq<Edit>)
    ensures |moved| == |edits|
    ensures forall k :: 0 <= k < |edits| ==> moved[k] == Edit(path + edits[k].path, edits[k].change)
  {
    seq(|edits|, k requires 0 <= k < |edits| => Edit(path + edits[k].path, edits[k].change))
  }

  /** How often a comparison can still leave the two documents for inherited values. */
  function Stage(left: Doc, right: Doc): nat {
    if !IsObject(left) || !IsObject(right) then 0
    else if left.ObjectPrototype? || right.ObjectPrototype? then 1
    else 2
  }

  predicate Compared(left: Doc, right: Doc) {
    IsObject(left) && IsObject(right) && IsList(left) == IsList(right)
  }

  function KeysOf(left: Doc, right: Doc): seq<Text> {
    SortedKeys(Own(left).Keys + Own(right).Keys)
  }

  function Diff(left: Doc, right: Doc): seq<Edit>
    decreases Stage(left, right), left, 1, 0
  {
    if left == right then []
    else if !Compared(left, right) then [Edit([], Replace(right))]
    else FieldEdits(left, right, KeysOf(left, right))
  }

  function FieldEdits(left: Doc, right: Doc, keys: seq<Text>): seq<Edit>
    requires Compared(left, right)
    decreases Stage(left, right), left, 0, |keys|
  {
    if keys == [] then []
    else FieldEdits(left, right, keys[..|keys| - 1]) + KeyEdits(left, right, keys[|keys| - 1])
  }

  function KeyEdits(left: Doc, right: Doc, key: Text): seq<Edit>
    requires Compared(left, right)
    decreases Stage(left, right), left, 0, 0
  {
    if !Has(left, key) then (if Has(right, key) then [Edit([key], Add(Get(right, key)))] else [])
    else if !Has(right, key) then [Edit([key], Remove)]
    else
      assert Stage(Get(left, key), Get(right, key)) < Stage(left, right)
          || (Stage(Get(left, key), Get(right, key)) == Stage(left, right) && left.Tree? && Get(left, key) < left);
      Prefixed([key], Diff(Get(left, key), Get(right, key)))
  }

  /** diffJson as written: a recursion that carries its path and pushes what it finds. */
  method DiffJson(left: Doc, right: Doc, path: seq<Text>) returns (changes: seq<Edit>)
    ensures changes == Prefixed(path, Diff(left, right))
    decreases Stage(left, right), left, 1
  {
    hide KeyEdits, SortedKeys, InheritedName, Stage;
    if left == right {
      return [];
    }
    if !Compared(left, right) {
      assert path + [] == path;
      return [Edit(path, Replace(right))];
    }
    var keys := KeysOf(left, right);
    changes := [];
    for k := 0 to |keys|
      invariant changes == Prefixed(path, FieldEdits(left, right, keys[..k]))
    {
      assert keys[..k + 1][..k] == keys[..k];
      var more := KeyChanges(left, right, keys[k], path);
      PrefixedConcat(path, FieldEdits(left, right, keys[..k]), KeyEdits(left, right, keys[k]));
      changes := changes + more;
    }
    assert keys[..|keys|] == keys;
  }

  method KeyChanges(left: Doc, right: Doc, key: Text, path: seq<Text>) returns (changes: seq<Edit>)
    requires Compared(left, right)
    ensures changes == Prefixed(path, KeyEdits(left, right, key))
    decreases Stage(left, right), left, 0
  {
    hide Diff, InheritedName;
    if !Has(left, key) {
      changes := if Has(right, key) then [Edit(path + [key], Add(Get(right, key)))] else [];
    } else if !Has(right, key) {
      changes := [Edit(path + [key], Remove)];
    } else {
      ChildIsSmaller(left, right, key);
      changes := DiffJson(Get(left, key), Get(right, key), path + [key]);
      PrefixedTwice(path, key, Diff(Get(left, key), Get(right, key)));
    }
  }

  lemma ChildIsSmaller(left: Doc, right: Doc, key: Text)
    requires Compared(left, right) && Has(left, key) && Has(right, key)
    ensures var l, r := Get(left, key), Get(right, key);
            Stage(l, r) < Stage(left, right) || (Stage(l, r) == Stage(left, right) && left.Tree? && l < left)
  {
  }

  lemma PrefixedTwice(path: seq<Text>, key: Text, edits: seq<Edit>)
    ensures Prefixed(path + [key], edits) == Prefixed(path, Prefixed([key], edits))
  {
    forall k | 0 <= k < |edits| ensures path + [key] + edits[k].path == path + ([key] + edits[k].path) {
    }
  }

  lemma PrefixedConcat(path: seq<Text>, a: seq<Edit>, b: seq<Edit>)
    ensures Prefixed(path, a + b) == Prefixed(path, a) + Prefixed(path, b)
  {
  }

  // ------------------------------------------------------------------------ applying

  function Apply(doc: Doc, path: seq<Text>, change: Change): Doc
    decreases |path|
  {
    if path == [] then (if change.Replace? then change.after else doc)
    else if !doc.Tree? then doc
    else if |path| == 1 && change.Add? then doc.(fields := doc.fields[path[0] := change.after])
    else if |path| == 1 && change.Remove? then doc.(fields := doc.fields - {path[0]})
    else if path[0] !in doc.fields then doc
    else doc.(fields := doc.fields[path[0] := Apply(doc.fields[path[0]], path[1..], change)])
  }

  function ApplyAll(doc: Doc, edits: seq<Edit>): Doc {
    if edits == [] then doc
    else
      var last := edits[|edits| - 1];
      Apply(ApplyAll(doc, edits[..|edits| - 1]), last.path, last.change)
  }

  lemma {:induction false} ApplyConcat(doc: Doc, a: seq<Edit>, b: seq<Edit>)
    ensures ApplyAll(doc, a + b) == ApplyAll(ApplyAll(doc, a), b)
  {
    if b == [] {
      assert a + b == a;
    } else {
      assert (a + b)[..|a + b| - 1] == a + b[..|b| - 1];
      ApplyConcat(doc, a, b[..|b| - 1]);
    }
  }

  /** At the root a diff only replaces. */
  predicate RootReplaces(edits: seq<Edit>) {
    forall k :: 0 <= k < |edits| && edits[k].path == [] ==> edits[k].change.Replace?
  }

  /** Edits under a key change that field and nothing else. */
  lemma {:induction false} ApplyUnder(doc: Doc, key: Text, edits: seq<Edit>)
    requires doc.Tree? && key in doc.fields && RootReplaces(edits)
    ensures ApplyAll(doc, Prefixed([key], edits))
         == doc.(fields := doc.fields[key := ApplyAll(doc.fields[key], edits)])
  {
    if edits == [] {
      assert doc.fields[key := doc.fields[key]] == doc.fields;
    } else {
      var init, last := edits[..|edits| - 1], edits[|edits| - 1];
      ApplyUnder(doc, key, init);
      var moved := Prefixed([key], edits);
      assert moved[..|moved| - 1] == Prefixed([key], init);
      var before := doc.(fields := doc.fields[key := ApplyAll(doc.fields[key], init)]);
      assert ([key] + last.path)[1..] == last.path;
      assert Apply(before, [key] + last.path, last.change)
          == before.(fields := before.fields[key := Apply(before.fields[key], last.path, last.change)]);
    }
  }

  /** And where there is no such field they change nothing. */
  lemma {:induction false} ApplyAbsent(doc: Doc, key: Text, edits: seq<Edit>)
    requires doc.Tree? && key !in doc.fields && RootReplaces(edits)
    ensures ApplyAll(doc, Prefixed([key], edits)) == doc
  {
    if edits != [] {
      var init := edits[..|edits| - 1];
      ApplyAbsent(doc, key, init);
      var moved := Prefixed([key], edits);
      assert moved[..|moved| - 1] == Prefixed([key], init);
    }
  }

  lemma {:induction false} FieldEditsBelow(left: Doc, right: Doc, keys: seq<Text>)
    requires Compared(left, right)
    ensures RootReplaces(FieldEdits(left, right, keys))
  {
    hide Has, Get, Compared;
    if keys != [] {
      FieldEditsBelow(left, right, keys[..|keys| - 1]);
    }
  }

  lemma DiffReplaces(left: Doc, right: Doc)
    ensures RootReplaces(Diff(left, right))
  {
    if Compared(left, right) {
      FieldEditsBelow(left, right, KeysOf(left, right));
    }
  }

  // ------------------------------------------------------------------- what comes out

  /** What a document has under a key of its own. */
  function Field(doc: Doc, key: Text): Option<Doc>
    requires doc.Tree?
  {
    if key in doc.fields then Some(doc.fields[key]) else None
  }

  /** What applying the edits of two objects leaves under a key. */
  function Outcome(left: Doc, right: Doc, key: Text): Option<Doc>
    requires left.Tree? && right.Tree? && left.list == right.list
  {
    if key in left.fields then
      if Has(right, key) then Some(ApplyAll(left.fields[key], Diff(left.fields[key], Get(right, key)))) else None
    else if key in right.fields && !Has(left, key) then Some(right.fields[key])
    else None
  }

  /** The outcome for the keys already visited, the left side's value for the others. */
  function Merged(left: Doc, right: Doc, done: seq<Text>): Doc
    requires left.Tree? && right.Tree? && left.list == right.list
  {
    Tree(left.list, map k | k in left.fields.Keys + right.fields.Keys
                            && (if k in done then Outcome(left, right, k).Some? else k in left.fields)
                    :: if k in done then Outcome(left, right, k).value else left.fields[k])
  }

  lemma MergedStep(left: Doc, right: Doc, done: seq<Text>, key: Text)
    requires left.Tree? && right.Tree? && left.list == right.list && key !in done
    requires key in left.fields || key in right.fields
    ensures Merged(left, right, done).Tree? && Merged(left, right, done).list == left.list
    ensures Merged(left, right, done + [key]).Tree? && Merged(left, right, done + [key]).list == left.list
    ensures var before, after := Merged(left, right, done).fields, Merged(left, right, done + [key]).fields;
            && (key in before <==> key in left.fields)
            && (key in left.fields ==> before[key] == left.fields[key])
            && after == (if Outcome(left, right, key).Some? then before[key := Outcome(left, right, key).value]
                         else before - {key})
  {
    hide Outcome;
  }

  lemma KeyApplied(left: Doc, right: Doc, done: seq<Text>, key: Text)
    requires left.Tree? && right.Tree? && left.list == right.list && key !in done
    requires key in left.fields || key in right.fields
    ensures ApplyAll(Merged(left, right, done), KeyEdits(left, right, key)) == Merged(left, right, done + [key])
  {
    hide Diff, Merged, InheritedName, ApplyAll;
    MergedStep(left, right, done, key);
    var doc := Merged(left, right, done);
    if !Has(left, key) || !Has(right, key) {
      ApplyOne(doc, key, KeyEdits(left, right, key)[0].change);
      return;
    }
    var inner := Diff(Get(left, key), Get(right, key));
    DiffReplaces(Get(left, key), Get(right, key));
    if key in left.fields {
      ApplyUnder(doc, key, inner);
      return;
    }
    ApplyAbsent(doc, key, inner);
    assert doc.fields - {key} == doc.fields;
  }

  lemma ApplyOne(doc: Doc, key: Text, change: Change)
    requires doc.Tree? && !change.Replace?
    ensures ApplyAll(doc, [Edit([key], change)])
         == doc.(fields := if change.Add? then doc.fields[key := change.after] else doc.fields - {key})
  {
    var edits := [Edit([key], change)];
    assert edits[..0] == [] && ApplyAll(doc, edits) == Apply(doc, [key], change);
  }

  lemma {:induction false} FieldsApplied(left: Doc, right: Doc, keys: seq<Text>)
    requires left.Tree? && right.Tree? && left.list == right.list
    requires forall i, j :: 0 <= i < j < |keys| ==> keys[i] != keys[j]
    requires forall key :: key in keys ==> key in left.fields || key in right.fields
    ensures ApplyAll(left, FieldEdits(left, right, keys)) == Merged(left, right, keys)
  {
    hide KeyEdits, Outcome;
    if keys == [] {
      assert Merged(left, right, []).fields == left.fields;
    } else {
      var init, key := keys[..|keys| - 1], keys[|keys| - 1];
      FieldsApplied(left, right, init);
      KeyApplied(left, right, init, key);
      ApplyConcat(left, FieldEdits(left, right, init), KeyEdits(left, right, key));
      assert init + [key] == keys;
    }
  }

  lemma KeysDistinct(keys: seq<Text>)
    requires forall i, j :: 0 <= i < j < |keys| ==> TextLess(keys[i], keys[j])
    ensures forall i, j :: 0 <= i < j < |keys| ==> keys[i] != keys[j]
  {
    forall i, j | 0 <= i < j < |keys| ensures keys[i] != keys[j] {
      TextTotal(keys[i], keys[j]);
    }
  }

  /** Applying a diff of two objects leaves under each key its outcome. */
  lemma DiffApplied(left: Doc, right: Doc)
    requires left.Tree? && right.Tree? && left.list == right.list && left != right
    ensures var result := ApplyAll(left, Diff(left, right));
            && result.Tree? && result.list == left.list
            && forall key :: Field(result, key) == Outcome(left, right, key)
  {
    hide FieldEdits, InheritedName, SortedKeys;
    var keys := KeysOf(left, right);
    SortedKeysMembers(left.fields.Keys + right.fields.Keys);
    SortedKeysIncrease(left.fields.Keys + right.fields.Keys);
    KeysDistinct(keys);
    FieldsApplied(left, right, keys);
  }

  // -------------------------------------------------------------------------- theorems

  /** Wherever two objects are compared, both have a given inherited name as a key of their own, or neither. */
  predicate AgreeOnInherited(left: Doc, right: Doc)
    decreases left, 1
  {
    left.Tree? && right.Tree? && left.list == right.list ==>
      forall key :: key in left.fields.Keys + right.fields.Keys ==> KeyAgrees(left, right, key)
  }

  predicate KeyAgrees(left: Doc, right: Doc, key: Text)
    requires left.Tree? && right.Tree?
    decreases left, 0
  {
    if key in left.fields && key in right.fields then AgreeOnInherited(left.fields[key], right.fields[key])
    else left.list || !InheritedName(key)
  }

  lemma {:induction false} AgreesWithItself(doc: Doc)
    ensures AgreeOnInherited(doc, doc)
  {
    hide InheritedName;
    if doc.Tree? {
      forall key | key in doc.fields ensures AgreeOnInherited(doc.fields[key], doc.fields[key]) {
        AgreesWithItself(doc.fields[key]);
      }
    }
  }

  /**
    For all JSON documents: the edits of a diff, applied in order to the left side, give the right side exactly
    when the two agree on inherited names.
   */
  lemma {:induction false} RebuildsExactly(left: Doc, right: Doc)
    requires IsJson(left) && IsJson(right)
    ensures ApplyAll(left, Diff(left, right)) == right <==> AgreeOnInherited(left, right)
  {
    hide InheritedName, Diff;
    if left == right {
      AgreesWithItself(left);
      SameDiff(left);
    } else if left.Tree? && right.Tree? && left.list == right.list {
      var result := ApplyAll(left, Diff(left, right));
      DiffApplied(left, right);
      forall key | key in left.fields.Keys + right.fields.Keys
        ensures Field(result, key) == Field(right, key) <==> KeyAgrees(left, right, key)
      {
        if key in left.fields && key in right.fields {
          RebuildsExactly(left.fields[key], right.fields[key]);
        }
        OutcomeIsRight(left, right, key);
      }
      if AgreeOnInherited(left, right) {
        SameFieldsOf(result, right);
      }
    } else {
      Replaced(left, right);
    }
  }

  lemma SameDiff(doc: Doc)
    ensures ApplyAll(doc, Diff(doc, doc)) == doc
  {
  }

  lemma Replaced(left: Doc, right: Doc)
    requires left != right && !Compared(left, right)
    ensures ApplyAll(left, Diff(left, right)) == right
  {
    var edit := Edit([], Replace(right));
    assert [edit][..0] == [] && ApplyAll(left, [edit]) == Apply(left, [], Replace(right));
  }

  lemma OutcomeIsRight(left: Doc, right: Doc, key: Text)
    requires left.Tree? && right.Tree? && left.list == right.list
    requires key in left.fields.Keys + right.fields.Keys
    requires key in left.fields && key in right.fields ==>
               (ApplyAll(left.fields[key], Diff(left.fields[key], right.fields[key])) == right.fields[key] <==>
                AgreeOnInherited(left.fields[key], right.fields[key]))
    ensures Outcome(left, right, key) == Field(right, key) <==> KeyAgrees(left, right, key)
  {
    hide InheritedName, Diff, ApplyAll, AgreeOnInherited;
  }

  lemma SameFieldsOf(result: Doc, right: Doc)
    requires result.Tree? && right.Tree? && result.list == right.list
    requires forall key :: Field(result, key) == Field(right, key)
    ensures result == right
  {
    forall key ensures key in result.fields <==> key in right.fields {
      assert Field(result, key) == Field(right, key);
    }
    forall key | key in result.fields ensures result.fields[key] == right.fields[key] {
      assert Field(result, key) == Field(right, key);
    }
  }

  /** No object in the document has an inherited name as a key of its own. */
  predicate Ordinary(doc: Doc) {
    doc.Tree? ==>
      forall key :: key in doc.fields ==> (doc.list || !InheritedName(key)) && Ordinary(doc.fields[key])
  }

  lemma {:induction false} OrdinaryAgree(left: Doc, right: Doc)
    requires Ordinary(left) && Ordinary(right)
    ensures AgreeOnInherited(left, right)
  {
    hide InheritedName;
    if left.Tree? && right.Tree? && left.list == right.list {
      forall key | key in left.fields.Keys + right.fields.Keys ensures KeyAgrees(left, right, key) {
        if key in left.fields && key in right.fields {
          OrdinaryAgree(left.fields[key], right.fields[key]);
        }
      }
    }
  }

  /** So between documents without such names a diff always rebuilds. */
  lemma OrdinaryRebuilds(left: Doc, right: Doc)
    requires IsJson(left) && IsJson(right) && Ordinary(left) && Ordinary(right)
    ensures ApplyAll(left, Diff(left, right)) == right
  {
    hide *;
    OrdinaryAgree(left, right);
    RebuildsExactly(left, right);
  }

  // ------------------------------------------------------------------------- witnesses

  lemma OneKeySorted(key: Text)
    ensures SortedKeys({key} + {}) == [key] && SortedKeys({} + {key}) == [key]
  {
    hide Least;
    var none: set<Text> := {};
    assert {key} + none == {key} && none + {key} == {key} && {key} - {key} == none;
    assert LeastKey({key}) in {key} by { LeastIn({key}); }
    assert SortedKeys(none) == [];
  }

  lemma LeastIn(keys: set<Text>)
    requires keys != {}
    ensures LeastKey(keys) in keys
  {
  }

  lemma OneKeyDiff(left: Doc, right: Doc, key: Text)
    requires left.Tree? && right.Tree? && left.list == right.list
    requires || (left.fields.Keys == {key} && right.fields == map[])
             || (left.fields == map[] && right.fields.Keys == {key})
    ensures Diff(left, right) == KeyEdits(left, right, key)
  {
    hide KeyEdits, SortedKeys;
    OneKeySorted(key);
    assert key in left.fields.Keys <==> key !in right.fields.Keys;
    assert right.fields == map[] ==> right.fields.Keys == {};
    assert left.fields == map[] ==> left.fields.Keys == {};
    assert KeysOf(left, right) == [key];
    assert [key][..0] == [];
    assert FieldEdits(left, right, []) == [];
  }

  /** Against an object without the key, "constructor" is replaced, by a function or where it is not there. */
  lemma ConstructorReplaced()
    ensures var key := Ascii("constructor");
            var with, without := Tree(false, map[key := Leaf(1)]), Tree(false, map[]);
            && Diff(with, without) == [Edit([key], Replace(Function(key)))]
            && Diff(without, with) == [Edit([key], Replace(Leaf(1)))]
            && ApplyAll(with, Diff(with, without)) != without && ApplyAll(without, Diff(without, with)) != with
  {
    hide Diff, SortedKeys, ApplyAll;
    var key := Ascii("constructor");
    assert Spells(key, "constructor") && !Proto(key);
    var with, without := Tree(false, map[key := Leaf(1)]), Tree(false, map[]);
    OneKeyDiff(with, without, key);
    OneKeyDiff(without, with, key);
    ReplacedDiff(Leaf(1), Function(key));
    ReplacedDiff(Function(key), Leaf(1));
    PrefixedRoot(key, Replace(Function(key)));
    PrefixedRoot(key, Replace(Leaf(1)));
    assert !KeyAgrees(with, without, key) && !KeyAgrees(without, with, key);
    RebuildsExactly(with, without);
    RebuildsExactly(without, with);
  }

  lemma PrefixedRoot(key: Text, change: Change)
    ensures Prefixed([key], [Edit([], change)]) == [Edit([key], change)]
  {
    var path: seq<Text> := [key] + [];
    assert path == [key];
  }

  lemma ReplacedDiff(left: Doc, right: Doc)
    requires left != right && !Compared(left, right)
    ensures Diff(left, right) == [Edit([], Replace(right))]
  {
  }

  /** An own "__proto__" that holds an empty object is not seen at all. */
  lemma EmptyProtoUnseen()
    ensures var key, empty := Ascii("__proto__"), Tree(false, map[]);
            var with := Tree(false, map[key := empty]);
            key in with.fields && key !in empty.fields && Diff(with, empty) == [] && Diff(empty, with) == []
  {
    hide Diff, SortedKeys;
    var key, empty := Ascii("__proto__"), Tree(false, map[]);
    assert Proto(key);
    var with := Tree(false, map[key := empty]);
    OneKeyDiff(with, empty, key);
    OneKeyDiff(empty, with, key);
    NothingCompared(empty, ObjectPrototype);
    NothingCompared(ObjectPrototype, empty);
  }

  lemma NothingCompared(left: Doc, right: Doc)
    requires Compared(left, right) && Own(left) == map[] && Own(right) == map[]
    ensures Diff(left, right) == []
  {
    assert Own(left).Keys + Own(right).Keys == {};
  }

  // ----------------------------------------------------------------------------- text

  type Line = Text

  datatype Hunk = Hunk(startLine: nat, removed: seq<Line>, added: seq<Line>)

  /** Replaces the removed lines by the added ones. */
  function Patch(lines: seq<Line>, hunk: Hunk): seq<Line>
    requires 1 <= hunk.startLine && hunk.startLine - 1 + |hunk.removed| <= |lines|
  {
    lines[..hunk.startLine - 1] + hunk.added + lines[hunk.startLine - 1 + |hunk.removed|..]
  }

  /** Common lines at the front first, then common lines at the end of what is left. */
  ghost predicate Stripped(left: seq<Line>, right: seq<Line>, prefix: nat, suffix: nat) {
    && prefix + suffix <= |left| && prefix + suffix <= |right|
    && left[..prefix] == right[..prefix]
    && left[|left| - suffix..] == right[|right| - suffix..]
    && (prefix < |left| && prefix < |right| ==> left[prefix] != right[prefix])
    && (prefix + suffix < |left| && prefix + suffix < |right| ==>
          left[|left| - 1 - suffix] != right[|right| - 1 - suffix])
  }

  /** What a hunk is for: it says from which line on which lines are replaced by which, and no more than needed. */
  ghost predicate Rewrites(h: Hunk, left: seq<Line>, right: seq<Line>) {
    && 1 <= h.startLine && h.startLine - 1 + |h.removed| <= |left|
    && left[h.startLine - 1..h.startLine - 1 + |h.removed|] == h.removed
    && Patch(left, h) == right
    && (h.startLine <= |left| && h.startLine <= |right| ==> left[h.startLine - 1] != right[h.startLine - 1])
    && (h.removed != [] && h.added != [] ==>
          h.removed[0] != h.added[0] && h.removed[|h.removed| - 1] != h.added[|h.added| - 1])
  }

  lemma StrippedRewrites(left: seq<Line>, right: seq<Line>, prefix: nat, suffix: nat)
    requires Stripped(left, right, prefix, suffix)
    ensures Rewrites(Hunk(prefix + 1, left[prefix..|left| - suffix], right[prefix..|right| - suffix]), left, right)
  {
    var removed, added := left[prefix..|left| - suffix], right[prefix..|right| - suffix];
    assert right == right[..prefix] + added + right[|right| - suffix..];
    if removed != [] && added != [] {
      assert removed[0] == left[prefix] && added[0] == right[prefix];
      assert removed[|removed| - 1] == left[|left| - 1 - suffix] && added[|added| - 1] == right[|right| - 1 - suffix];
    }
  }

  /** One hunk, with nothing in common left at either end, that turns the left lines into the right ones. */
  method DiffText(left: seq<Line>, right: seq<Line>) returns (hunks: seq<Hunk>)
    ensures left == right <==> hunks == []
    ensures left != right ==> |hunks| == 1 && Rewrites(hunks[0], left, right)
  {
    hide Rewrites;
    if left == right {
      return [];
    }
    var prefix := 0;
    while prefix < |left| && prefix < |right| && left[prefix] == right[prefix]
      invariant prefix <= |left| && prefix <= |right| && left[..prefix] == right[..prefix]
    {
      prefix := prefix + 1;
    }
    var suffix := 0;
    while suffix < |left| - prefix && suffix < |right| - prefix
          && left[|left| - 1 - suffix] == right[|right| - 1 - suffix]
      invariant prefix + suffix <= |left| && prefix + suffix <= |right|
      invariant left[|left| - suffix..] == right[|right| - suffix..]
    {
      assert left[|left| - suffix - 1..] == [left[|left| - suffix - 1]] + left[|left| - suffix..];
      assert right[|right| - suffix - 1..] == [right[|right| - suffix - 1]] + right[|right| - suffix..];
      suffix := suffix + 1;
    }
    var removed, added := left[prefix..|left| - suffix], right[prefix..|right| - suffix];
    StrippedRewrites(left, right, prefix, suffix);
    hunks := [Hunk(prefix + 1, removed, added)];
  }
}
