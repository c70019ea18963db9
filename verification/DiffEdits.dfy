/**
  What the edits of a JSON diff are (packages/artifacts/src/diff.ts:1-43), between documents without inherited
  names as keys: one for every place where the documents differ, as deep as it can be, and in order.
 */
module DiffEdits {
  import opened Tables
  import opened CanonicalText
  import opened CanonicalJson
  import opened Diffs

  /** What a document has at a path. */
  function Part(doc: Doc, path: seq<Text>): Option<Doc>
    decreases |path|
  {
    if path == [] then Some(doc)
    else if doc.Tree? && path[0] in doc.fields then Part(doc.fields[path[0]], path[1..])
    else None
  }

  /** Both lists, or both plain objects. */
  predicate SameKind(left: Doc, right: Doc) {
    left.Tree? && right.Tree? && left.list == right.list
  }

  /** Both documents have containers of one kind directly above the path. */
  predicate SharedAbove(left: Doc, right: Doc, path: seq<Text>) {
    path != [] &&
    var l, r := Part(left, path[..|path| - 1]), Part(right, path[..|path| - 1]);
    l.Some? && r.Some? && SameKind(l.value, r.value)
  }

  /** The edit says what differs at its path, and the difference cannot be told further down. */
  predicate Exact(left: Doc, right: Doc, edit: Edit) {
    var l, r := Part(left, edit.path), Part(right, edit.path);
    match edit.change
    case Add(after) => l == None && r == Some(after) && SharedAbove(left, right, edit.path)
    case Remove => l.Some? && r == None && SharedAbove(left, right, edit.path)
    case Replace(after) =>
      && l.Some? && r == Some(after) && l.value != after && !SameKind(l.value, after)
      && (edit.path != [] ==> SharedAbove(left, right, edit.path))
  }

  /** The first path comes before the second where they part; so neither lies below the other. */
  predicate Earlier(p: seq<Text>, q: seq<Text>) {
    exists n :: 0 <= n < |p| && n < |q| && p[..n] == q[..n] && TextLess(p[n], q[n])
  }

  ghost predicate InOrder(edits: seq<Edit>) {
    forall i, j :: 0 <= i < j < |edits| ==> Earlier(edits[i].path, edits[j].path)
  }

  ghost predicate AllExact(left: Doc, right: Doc, edits: seq<Edit>) {
    forall k :: 0 <= k < |edits| ==> Exact(left, right, edits[k])
  }

  // ------------------------------------------------------------------------------ one key

  lemma PartBelow(doc: Doc, key: Text, path: seq<Text>)
    requires doc.Tree? && key in doc.fields
    ensures Part(doc, [key] + path) == Part(doc.fields[key], path)
    ensures path != [] ==> ([key] + path)[..|path|] == [key] + path[..|path| - 1]
  {
    assert ([key] + path)[1..] == path;
  }

  lemma ExactBelow(left: Doc, right: Doc, key: Text, edit: Edit)
    requires SameKind(left, right) && key in left.fields && key in right.fields
    requires Exact(left.fields[key], right.fields[key], edit)
    ensures Exact(left, right, Edit([key] + edit.path, edit.change))
  {
    hide Part;
    PartBelow(left, key, edit.path);
    PartBelow(right, key, edit.path);
    var path := [key] + edit.path;
    if edit.path == [] {
      assert path[..0] == [];
      PartOfAll(left);
      PartOfAll(right);
    } else {
      PartBelow(left, key, edit.path[..|edit.path| - 1]);
      PartBelow(right, key, edit.path[..|edit.path| - 1]);
      assert path[..|path| - 1] == [key] + edit.path[..|edit.path| - 1];
    }
  }

  lemma PartOfAll(doc: Doc)
    ensures Part(doc, []) == Some(doc)
  {
  }

  lemma EarlierBelow(key: Text, p: seq<Text>, q: seq<Text>)
    requires Earlier(p, q)
    ensures Earlier([key] + p, [key] + q)
  {
    hide TextLess;
    var n :| 0 <= n < |p| && n < |q| && p[..n] == q[..n] && TextLess(p[n], q[n]);
    assert ([key] + p)[..n + 1] == [key] + p[..n] && ([key] + q)[..n + 1] == [key] + q[..n];
    assert ([key] + p)[n + 1] == p[n] && ([key] + q)[n + 1] == q[n];
  }

  /** Without inherited names, `in` asks for the keys an object really has. */
  lemma HasIsOwn(left: Doc, right: Doc, key: Text)
    requires SameKind(left, right) && Ordinary(left) && Ordinary(right)
    requires key in left.fields || key in right.fields
    ensures Has(left, key) <==> key in left.fields
    ensures Has(right, key) <==> key in right.fields
    ensures key in left.fields ==> Get(left, key) == left.fields[key] && Ordinary(left.fields[key])
    ensures key in right.fields ==> Get(right, key) == right.fields[key] && Ordinary(right.fields[key])
  {
    hide InheritedName;
  }

  lemma {:induction false} KeyEditsExact(left: Doc, right: Doc, key: Text)
    requires IsJson(left) && IsJson(right) && Ordinary(left) && Ordinary(right) && SameKind(left, right)
    requires key in left.fields || key in right.fields
    ensures var edits := KeyEdits(left, right, key);
            && AllExact(left, right, edits) && InOrder(edits)
            && (forall k :: 0 <= k < |edits| ==> edits[k].path != [] && edits[k].path[0] == key)
            && (edits == [] <==> Field(left, key) == Field(right, key))
    decreases left, 0, 0
  {
    hide Diff, InheritedName, IsJson, Earlier, Exact;
    HasIsOwn(left, right, key);
    if key in left.fields && key in right.fields {
      FieldsAreJson(left, right, key);
      var below := Diff(left.fields[key], right.fields[key]);
      EditsExact(left.fields[key], right.fields[key]);
      forall k | 0 <= k < |below| ensures Exact(left, right, Edit([key] + below[k].path, below[k].change)) {
        ExactBelow(left, right, key, below[k]);
      }
      forall i, j | 0 <= i < j < |below| ensures Earlier([key] + below[i].path, [key] + below[j].path) {
        EarlierBelow(key, below[i].path, below[j].path);
      }
    } else {
      OneSided(left, right, key);
    }
  }

  lemma FieldsAreJson(left: Doc, right: Doc, key: Text)
    requires IsJson(left) && IsJson(right) && SameKind(left, right) && key in left.fields && key in right.fields
    ensures IsJson(left.fields[key]) && IsJson(right.fields[key])
  {
  }

  lemma OneSided(left: Doc, right: Doc, key: Text)
    requires SameKind(left, right)
    ensures key !in left.fields && key in right.fields ==> Exact(left, right, Edit([key], Add(right.fields[key])))
    ensures key in left.fields && key !in right.fields ==> Exact(left, right, Edit([key], Remove))
  {
    assert [key][..0] == [] && [key][1..] == [];
  }

  // ------------------------------------------------------------------------------ all keys

  lemma ByKeys(keys: seq<Text>, a: seq<Edit>, b: seq<Edit>)
    requires keys != [] && forall i, j :: 0 <= i < j < |keys| ==> TextLess(keys[i], keys[j])
    requires forall k :: 0 <= k < |a| ==> a[k].path != [] && a[k].path[0] in keys[..|keys| - 1]
    requires forall k :: 0 <= k < |b| ==> b[k].path != [] && b[k].path[0] == keys[|keys| - 1]
    requires InOrder(a) && InOrder(b)
    ensures InOrder(a + b)
    ensures forall k :: 0 <= k < |a + b| ==> (a + b)[k].path != [] && (a + b)[k].path[0] in keys
  {
    hide TextLess;
    var all := a + b;
    forall i, j | 0 <= i < j < |all| ensures Earlier(all[i].path, all[j].path) {
      if i < |a| <= j {
        var first := all[i].path[0];
        var n :| 0 <= n < |keys| - 1 && keys[n] == first;
        assert all[i].path[..0] == all[j].path[..0];
        assert TextLess(all[i].path[0], all[j].path[0]);
      }
    }
  }

  lemma {:induction false} FieldEditsExact(left: Doc, right: Doc, keys: seq<Text>)
    requires IsJson(left) && IsJson(right) && Ordinary(left) && Ordinary(right) && SameKind(left, right)
    requires forall key :: key in keys ==> key in left.fields || key in right.fields
    requires forall i, j :: 0 <= i < j < |keys| ==> TextLess(keys[i], keys[j])
    ensures var edits := FieldEdits(left, right, keys);
            && AllExact(left, right, edits) && InOrder(edits)
            && (forall k :: 0 <= k < |edits| ==> edits[k].path != [] && edits[k].path[0] in keys)
            && (edits == [] <==> forall key :: key in keys ==> Field(left, key) == Field(right, key))
    decreases left, 0, 1, |keys|
  {
    hide KeyEdits, Exact, Earlier, Ordinary, IsJson, InOrder;
    if keys == [] {
      NoneInOrder();
    } else {
      var init, last := keys[..|keys| - 1], keys[|keys| - 1];
      assert keys == init + [last];
      FieldEditsExact(left, right, init);
      KeyEditsExact(left, right, last);
      ByKeys(keys, FieldEdits(left, right, init), KeyEdits(left, right, last));
    }
  }

  lemma NoneInOrder()
    ensures InOrder([])
  {
  }

  /**
    Between documents without inherited names: every edit of a diff tells, at its path, what differs there, as an
    addition, a removal, or a replacement of things that are not containers of one kind; the edits are in the
    order of their paths, none below another; and there is none exactly between equal documents.
   */
  lemma {:induction false} EditsExact(left: Doc, right: Doc)
    requires IsJson(left) && IsJson(right) && Ordinary(left) && Ordinary(right)
    ensures AllExact(left, right, Diff(left, right)) && InOrder(Diff(left, right))
    ensures Diff(left, right) == [] <==> left == right
    decreases left, 1
  {
    hide FieldEdits, Ordinary, SortedKeys, IsJson, TextLess;
    if left != right && SameKind(left, right) {
      SortedKeysMembers(left.fields.Keys + right.fields.Keys);
      SortedKeysIncrease(left.fields.Keys + right.fields.Keys);
      FieldEditsExact(left, right, KeysOf(left, right));
      if forall key :: key in KeysOf(left, right) ==> Field(left, key) == Field(right, key) {
        forall key ensures Field(left, key) == Field(right, key) {
        }
        SameFieldsOf(left, right);
      }
    } else if left != right {
      JsonContainers(left, right);
      PartOfAll(left);
      PartOfAll(right);
    }
  }

  lemma JsonContainers(left: Doc, right: Doc)
    requires IsJson(left) && IsJson(right)
    ensures Compared(left, right) <==> SameKind(left, right)
  {
  }
}
