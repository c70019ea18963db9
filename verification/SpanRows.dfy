/**
  The rows of a span tree (apps/web/src/lib/span-tree.ts:47-57): what is listed, how deep, and in which order.
 */
module SpanRows {
  import opened Tables
  import opened SpanForest

  datatype Row = Row(id: SpanId, depth: nat)

  /** Siblings at one depth, below what is already open. */
  ghost predicate Layer(byId: Index, ids: seq<SpanId>, depth: nat, above: set<SpanId>) {
    && (forall x :: x in ids ==> x in byId && Depth(byId, x) == depth && x !in above)
    && (forall a :: a in above ==> a in byId && Depth(byId, a) < depth)
  }

  lemma KidDeeper(byId: Index, f: Forest, p: SpanId, x: SpanId)
    requires Shape(byId, f) && x in Kids(f, p)
    ensures x in byId && ParentOf(byId, x) == Some(p) && Depth(byId, x) == Depth(byId, p) + 1
  {
    hide Depth, ParentOf, Distinct;
    ParentDepth(byId, x);
  }

  lemma NextLayer(byId: Index, f: Forest, ids: seq<SpanId>, depth: nat, above: set<SpanId>)
    requires Shape(byId, f) && Layer(byId, ids, depth, above) && ids != []
    ensures Layer(byId, ids[..|ids| - 1], depth, above)
    ensures Layer(byId, Kids(f, ids[|ids| - 1]), depth + 1, above + {ids[|ids| - 1]})
    ensures |byId.Keys - (above + {ids[|ids| - 1]})| < |byId.Keys - above|
  {
    hide Depth, ParentOf, Shape, Kids;
    var last := ids[|ids| - 1];
    assert last in ids;
    forall x | x in Kids(f, last) ensures x in byId && Depth(byId, x) == depth + 1 {
      KidDeeper(byId, f, last, x);
    }
    Fewer(byId.Keys - (above + {last}), byId.Keys - above, last);
  }

  /** The visit, parent before children, siblings in order. */
  function Rows(f: Forest, ids: seq<SpanId>, depth: nat, ghost above: set<SpanId>, ghost byId: Index): seq<Row>
    requires Shape(byId, f) && Layer(byId, ids, depth, above)
    decreases |byId.Keys - above|, |ids|
  {
    if ids == [] then []
    else
      NextLayer(byId, f, ids, depth, above);
      var last := ids[|ids| - 1];
      Rows(f, ids[..|ids| - 1], depth, above, byId)
      + [Row(last, depth)]
      + Rows(f, Kids(f, last), depth + 1, above + {last}, byId)
  }

  lemma RowsStep(f: Forest, ids: seq<SpanId>, k: nat, depth: nat, above: set<SpanId>, byId: Index)
    requires Shape(byId, f) && Layer(byId, ids, depth, above) && k < |ids|
    ensures Layer(byId, ids[..k], depth, above) && Layer(byId, ids[..k + 1], depth, above)
    ensures Layer(byId, Kids(f, ids[k]), depth + 1, above + {ids[k]})
    ensures |byId.Keys - (above + {ids[k]})| < |byId.Keys - above|
    ensures Rows(f, ids[..k + 1], depth, above, byId)
         == Rows(f, ids[..k], depth, above, byId) + [Row(ids[k], depth)]
            + Rows(f, Kids(f, ids[k]), depth + 1, above + {ids[k]}, byId)
  {
    PrefixLayer(byId, ids, depth, above);
    hide Layer, Shape, Kids;
    assert ids[..k + 1][..k] == ids[..k];
    NextLayer(byId, f, ids[..k + 1], depth, above);
  }

  method Visit(f: Forest, ids: seq<SpanId>, depth: nat, rows: seq<Row>, ghost above: set<SpanId>, ghost byId: Index)
    returns (more: seq<Row>)
    requires Shape(byId, f) && Layer(byId, ids, depth, above)
    ensures more == rows + Rows(f, ids, depth, above, byId)
    decreases |byId.Keys - above|
  {
    hide *;
    more := rows;
    assert ids[..0] == [];
    NoRows(f, depth, above, byId);
    for k := 0 to |ids|
      invariant Layer(byId, ids[..k], depth, above)
      invariant more == rows + Rows(f, ids[..k], depth, above, byId)
    {
      RowsStep(f, ids, k, depth, above, byId);
      ghost var before := Rows(f, ids[..k], depth, above, byId);
      ghost var below := Rows(f, Kids(f, ids[k]), depth + 1, above + {ids[k]}, byId);
      more := Visit(f, Kids(f, ids[k]), depth + 1, more + [Row(ids[k], depth)], above + {ids[k]}, byId);
      Regroup(rows, before, [Row(ids[k], depth)], below);
    }
    assert ids[..|ids|] == ids;
  }

  lemma Regroup(a: seq<Row>, b: seq<Row>, c: seq<Row>, d: seq<Row>)
    ensures a + b + c + d == a + (b + c + d)
  {
  }

  lemma NoRows(f: Forest, depth: nat, above: set<SpanId>, byId: Index)
    requires Shape(byId, f) && exists ids :: Layer(byId, ids, depth, above)
    ensures Layer(byId, [], depth, above) && Rows(f, [], depth, above, byId) == []
  {
  }

  lemma PrefixLayer(byId: Index, ids: seq<SpanId>, depth: nat, above: set<SpanId>)
    requires Layer(byId, ids, depth, above)
    ensures forall k :: 0 <= k <= |ids| ==> Layer(byId, ids[..k], depth, above)
  {
    hide Depth;
  }

  // --------------------------------------------------------------------------- theorems

  /** `x` is `c` or hangs somewhere below it. */
  ghost predicate Under(byId: Index, x: SpanId, c: SpanId)
    decreases Depth(byId, x)
  {
    ParentDepth(byId, x);
    x == c || (ParentOf(byId, x).Some? && Under(byId, ParentOf(byId, x).value, c))
  }

  lemma {:induction false} UnderDepth(byId: Index, x: SpanId, c: SpanId)
    requires Under(byId, x, c)
    ensures x == c || Depth(byId, c) < Depth(byId, x)
    decreases Depth(byId, x)
  {
    hide Depth, ParentOf;
    ParentDepth(byId, x);
    if x != c {
      UnderDepth(byId, ParentOf(byId, x).value, c);
    }
  }

  /** Two spans at one depth have nothing in common below them. */
  lemma {:induction false} UnderUnique(byId: Index, x: SpanId, c: SpanId, d: SpanId)
    requires Under(byId, x, c) && Under(byId, x, d) && Depth(byId, c) == Depth(byId, d)
    ensures c == d
    decreases Depth(byId, x)
  {
    hide Depth, ParentOf;
    ParentDepth(byId, x);
    UnderDepth(byId, x, c);
    UnderDepth(byId, x, d);
    if x != c && x != d {
      UnderUnique(byId, ParentOf(byId, x).value, c, d);
    }
  }

  /** What hangs below `c` hangs under one of its children. */
  lemma {:induction false} UnderChild(byId: Index, x: SpanId, c: SpanId)
    requires x in byId
    ensures Under(byId, x, c) && x != c <==> exists y :: y in byId && ParentOf(byId, y) == Some(c) && Under(byId, x, y)
    decreases Depth(byId, x)
  {
    hide Depth, ParentOf;
    ParentDepth(byId, x);
    if ParentOf(byId, x).Some? {
      var p := ParentOf(byId, x).value;
      UnderChild(byId, p, c);
      if Under(byId, x, c) && x != c && p == c {
        assert Under(byId, x, x);
      }
    }
    forall y | y in byId && ParentOf(byId, y) == Some(c) && Under(byId, x, y) ensures Under(byId, x, c) && x != c {
      ParentDepth(byId, y);
      UnderDepth(byId, x, y);
      ThroughParent(byId, x, y);
    }
  }

  lemma {:induction false} ThroughParent(byId: Index, x: SpanId, y: SpanId)
    requires Under(byId, x, y) && ParentOf(byId, y).Some?
    ensures Under(byId, x, ParentOf(byId, y).value)
    decreases Depth(byId, x)
  {
    hide Depth, ParentOf;
    ParentDepth(byId, x);
    if x != y {
      ThroughParent(byId, ParentOf(byId, x).value, y);
    } else {
      assert Under(byId, ParentOf(byId, x).value, ParentOf(byId, x).value);
    }
  }

  lemma {:induction false} UnderRoot(byId: Index, x: SpanId)
    requires x in byId
    ensures exists r :: r in byId && ParentOf(byId, r).None? && Under(byId, x, r)
    decreases Depth(byId, x)
  {
    hide Depth, ParentOf;
    ParentDepth(byId, x);
    if ParentOf(byId, x).Some? {
      UnderRoot(byId, ParentOf(byId, x).value);
    } else {
      assert Under(byId, x, x);
    }
  }

  ghost predicate DistinctRows(rows: seq<Row>) {
    forall i, j :: 0 <= i < j < |rows| ==> rows[i].id != rows[j].id
  }

  ghost predicate UnderAny(byId: Index, x: SpanId, ids: seq<SpanId>) {
    exists c :: c in ids && Under(byId, x, c)
  }

  /** Rows that list exactly what hangs under some siblings, each once, at its depth. */
  ghost predicate Exact(byId: Index, rows: seq<Row>, ids: seq<SpanId>) {
    && DistinctRows(rows)
    && forall row :: row in rows <==>
         row.id in byId && UnderAny(byId, row.id, ids) && row.depth == Depth(byId, row.id)
  }

  lemma {:induction false} RowsExact(f: Forest, ids: seq<SpanId>, depth: nat, above: set<SpanId>, byId: Index)
    requires Shape(byId, f) && Layer(byId, ids, depth, above) && Distinct(ids)
    ensures Exact(byId, Rows(f, ids, depth, above, byId), ids)
    decreases |byId.Keys - above|, |ids|
  {
    hide *;
    if ids == [] {
      NoExactRows(f, depth, above, byId);
    } else {
      var n := |ids| - 1;
      var last := ids[n];
      NextLayer(byId, f, ids, depth, above);
      RowsStep(f, ids, n, depth, above, byId);
      assert ids[..n + 1] == ids;
      DistinctParts(byId, f, ids);
      RowsExact(f, ids[..n], depth, above, byId);
      RowsExact(f, Kids(f, last), depth + 1, above + {last}, byId);
      JoinExact(f, ids, depth, above, byId,
                Rows(f, ids[..n], depth, above, byId), Rows(f, Kids(f, last), depth + 1, above + {last}, byId));
    }
  }

  lemma NoExactRows(f: Forest, depth: nat, above: set<SpanId>, byId: Index)
    requires Shape(byId, f) && Layer(byId, [], depth, above)
    ensures Exact(byId, Rows(f, [], depth, above, byId), [])
  {
  }

  lemma DistinctParts(byId: Index, f: Forest, ids: seq<SpanId>)
    requires Shape(byId, f) && ids != [] && Distinct(ids)
    ensures Distinct(ids[..|ids| - 1]) && Distinct(Kids(f, ids[|ids| - 1]))
  {
    hide ParentOf;
  }

  /** Below a sibling: itself, then what hangs under its children. */
  lemma UnderAnySplits(byId: Index, f: Forest, ids: seq<SpanId>, x: SpanId)
    requires Shape(byId, f) && ids != [] && x in byId
    ensures var last := ids[|ids| - 1];
            UnderAny(byId, x, ids) <==>
            UnderAny(byId, x, ids[..|ids| - 1]) || x == last || UnderAny(byId, x, Kids(f, last))
  {
    hide ParentOf, Depth, Distinct;
    var last := ids[|ids| - 1];
    assert ids == ids[..|ids| - 1] + [last];
    UnderChild(byId, x, last);
    assert Under(byId, last, last);
  }

  /** Nothing is under two different siblings, nor under one and under a child of another. */
  lemma Apart(byId: Index, f: Forest, ids: seq<SpanId>, depth: nat, above: set<SpanId>, x: SpanId)
    requires Shape(byId, f) && Layer(byId, ids, depth, above) && Distinct(ids) && ids != []
    requires UnderAny(byId, x, ids[..|ids| - 1])
    ensures x != ids[|ids| - 1] && !UnderAny(byId, x, Kids(f, ids[|ids| - 1]))
  {
    hide ParentOf, Depth, Shape;
    var last := ids[|ids| - 1];
    assert Under(byId, last, last);
    var c :| c in ids[..|ids| - 1] && Under(byId, x, c);
    assert c != last;
    if x == last {
      UnderUnique(byId, x, c, last);
    }
    forall y | y in Kids(f, last) && Under(byId, x, y) ensures false {
      KidDeeper(byId, f, last, y);
      ThroughParent(byId, x, y);
      UnderUnique(byId, x, c, last);
    }
  }

  lemma NotUnderOwnKids(byId: Index, f: Forest, c: SpanId)
    requires Shape(byId, f)
    ensures !UnderAny(byId, c, Kids(f, c))
  {
    hide ParentOf, Depth, Shape;
    forall y | y in Kids(f, c) && Under(byId, c, y) ensures false {
      KidDeeper(byId, f, c, y);
      UnderDepth(byId, c, y);
    }
  }

  lemma JoinExact(f: Forest, ids: seq<SpanId>, depth: nat, above: set<SpanId>, byId: Index,
                  front: seq<Row>, below: seq<Row>)
    requires Shape(byId, f) && Layer(byId, ids, depth, above) && Distinct(ids) && ids != []
    requires Exact(byId, front, ids[..|ids| - 1]) && Exact(byId, below, Kids(f, ids[|ids| - 1]))
    ensures Exact(byId, front + [Row(ids[|ids| - 1], depth)] + below, ids)
  {
    hide Shape, Layer, Depth, UnderAny, Kids, Distinct;
    var last := ids[|ids| - 1];
    LastInLayer(byId, ids, depth, above);
    var rows := front + [Row(last, depth)] + below;
    forall row: Row ensures row in rows <==>
                        row.id in byId && UnderAny(byId, row.id, ids) && row.depth == Depth(byId, row.id)
    {
      assert row in rows <==> row in front || row == Row(last, depth) || row in below;
      if row.id in byId {
        UnderAnySplits(byId, f, ids, row.id);
      }
    }
    forall i | 0 <= i < |front| ensures front[i].id != last && forall j :: 0 <= j < |below| ==> front[i].id != below[j].id {
      assert front[i] in front;
      Apart(byId, f, ids, depth, above, front[i].id);
      assert forall j :: 0 <= j < |below| ==> below[j] in below;
    }
    NotUnderOwnKids(byId, f, last);
    assert forall j :: 0 <= j < |below| ==> below[j] in below;
  }

  lemma LastInLayer(byId: Index, ids: seq<SpanId>, depth: nat, above: set<SpanId>)
    requires ids != [] && Layer(byId, ids, depth, above)
    ensures ids[|ids| - 1] in byId && Depth(byId, ids[|ids| - 1]) == depth
  {
  }

  lemma RootsLayer(byId: Index, f: Forest)
    requires Shape(byId, f)
    ensures Layer(byId, f.roots, 0, {}) && Distinct(f.roots)
    ensures forall x :: x in byId ==> UnderAny(byId, x, f.roots)
  {
    hide ParentOf, Depth;
    forall x | x in f.roots ensures x in byId && Depth(byId, x) == 0 {
      ParentDepth(byId, x);
    }
    forall x | x in byId ensures UnderAny(byId, x, f.roots) {
      UnderRoot(byId, x);
    }
  }

  // --------------------------------------------------------------------------- the order

  /** An ancestor precedes what hangs below it, and an earlier sibling with all below it precedes a later one. */
  ghost predicate Precedes(byId: Index, x: SpanId, y: SpanId) {
    || (x != y && Under(byId, y, x))
    || exists c: SpanId, d: SpanId :: EarlierSibling(byId, c, d) && Under(byId, x, c) && Under(byId, y, d)
  }

  ghost predicate EarlierSibling(byId: Index, c: SpanId, d: SpanId) {
    c != d && ParentOf(byId, c) == ParentOf(byId, d) && Before(byId, c, d)
  }

  ghost predicate Ordered(byId: Index, rows: seq<Row>) {
    forall i, j :: 0 <= i < j < |rows| ==> Precedes(byId, rows[i].id, rows[j].id)
  }

  ghost predicate Siblings(byId: Index, ids: seq<SpanId>) {
    && Distinct(ids) && InTime(byId, ids)
    && forall i, j :: 0 <= i < j < |ids| ==> ParentOf(byId, ids[i]) == ParentOf(byId, ids[j])
  }

  ghost predicate SortedForest(byId: Index, f: Forest) {
    Shape(byId, f) && forall p :: InTime(byId, Kids(f, p))
  }

  lemma KidsAreSiblings(byId: Index, f: Forest, ids: seq<SpanId>)
    requires SortedForest(byId, f) && Siblings(byId, ids) && ids != []
    ensures Siblings(byId, ids[..|ids| - 1]) && Siblings(byId, Kids(f, ids[|ids| - 1]))
  {
    hide ParentOf, Before;
    var kids := Kids(f, ids[|ids| - 1]);
    forall i | 0 <= i < |kids| ensures ParentOf(byId, kids[i]) == Some(ids[|ids| - 1]) {
      assert kids[i] in kids;
    }
  }

  lemma {:induction false} RowsOrdered(f: Forest, ids: seq<SpanId>, depth: nat, above: set<SpanId>, byId: Index)
    requires SortedForest(byId, f) && Layer(byId, ids, depth, above) && Siblings(byId, ids)
    ensures Ordered(byId, Rows(f, ids, depth, above, byId))
    decreases |byId.Keys - above|, |ids|
  {
    hide Shape, Layer, Distinct, InTime, Kids, ParentOf, Rows, Ordered, Exact;
    if ids == [] {
      NoExactRows(f, depth, above, byId);
      NothingOrdered(byId, f, depth, above);
    } else {
      var n := |ids| - 1;
      var last := ids[n];
      NextLayer(byId, f, ids, depth, above);
      RowsStep(f, ids, n, depth, above, byId);
      assert ids[..n + 1] == ids;
      DistinctParts(byId, f, ids);
      KidsAreSiblings(byId, f, ids);
      RowsOrdered(f, ids[..n], depth, above, byId);
      RowsOrdered(f, Kids(f, last), depth + 1, above + {last}, byId);
      RowsExact(f, ids[..n], depth, above, byId);
      RowsExact(f, Kids(f, last), depth + 1, above + {last}, byId);
      JoinOrdered(f, ids, Row(last, depth), byId,
                  Rows(f, ids[..n], depth, above, byId), Rows(f, Kids(f, last), depth + 1, above + {last}, byId));
    }
  }

  lemma NothingOrdered(byId: Index, f: Forest, depth: nat, above: set<SpanId>)
    requires Shape(byId, f) && Layer(byId, [], depth, above)
    ensures Ordered(byId, Rows(f, [], depth, above, byId))
  {
  }

  /** What hangs below one of the siblings in front precedes the last sibling and everything below it. */
  lemma FrontPrecedes(byId: Index, ids: seq<SpanId>, x: SpanId, y: SpanId)
    requires Siblings(byId, ids) && ids != [] && UnderAny(byId, x, ids[..|ids| - 1])
    requires Under(byId, y, ids[|ids| - 1])
    ensures Precedes(byId, x, y)
  {
    hide Under, ParentOf, Before;
    var c :| c in ids[..|ids| - 1] && Under(byId, x, c);
    var i :| 0 <= i < |ids| - 1 && ids[i] == c;
    assert EarlierSibling(byId, c, ids[|ids| - 1]);
  }

  lemma UnderItself(byId: Index, x: SpanId)
    ensures Under(byId, x, x)
  {
  }

  lemma BelowLast(byId: Index, f: Forest, last: SpanId, y: SpanId)
    requires Shape(byId, f) && UnderAny(byId, y, Kids(f, last))
    ensures Under(byId, y, last) && Precedes(byId, last, y)
  {
    hide Under, ParentOf, Shape;
    NotUnderOwnKids(byId, f, last);
    var kid :| kid in Kids(f, last) && Under(byId, y, kid);
    KidDeeper(byId, f, last, kid);
    ThroughParent(byId, y, kid);
  }

  lemma JoinOrdered(f: Forest, ids: seq<SpanId>, row: Row, byId: Index, front: seq<Row>, below: seq<Row>)
    requires SortedForest(byId, f) && Siblings(byId, ids) && ids != [] && row.id == ids[|ids| - 1]
    requires Exact(byId, front, ids[..|ids| - 1]) && Exact(byId, below, Kids(f, row.id))
    requires Ordered(byId, front) && Ordered(byId, below)
    ensures Ordered(byId, front + [row] + below)
  {
    hide Siblings, Under, UnderAny, Kids, DistinctRows, Depth, Shape, Precedes;
    var last := row.id;
    UnderItself(byId, last);
    forall j | 0 <= j < |below| ensures Under(byId, below[j].id, last) && Precedes(byId, last, below[j].id) {
      assert below[j] in below;
      BelowLast(byId, f, last, below[j].id);
    }
    forall i, y: SpanId | 0 <= i < |front| && Under(byId, y, last) ensures Precedes(byId, front[i].id, y) {
      assert front[i] in front;
      FrontPrecedes(byId, ids, front[i].id, y);
    }
  }

  // ------------------------------------------------------------- the order leaves no choice

  lemma {:induction false} UnderTransitive(byId: Index, x: SpanId, y: SpanId, z: SpanId)
    requires Under(byId, x, y) && Under(byId, y, z)
    ensures Under(byId, x, z)
    decreases Depth(byId, x)
  {
    hide Depth, ParentOf;
    ParentDepth(byId, x);
    if x != y {
      UnderTransitive(byId, ParentOf(byId, x).value, y, z);
    }
  }

  /** Of two ancestors the deeper one hangs below the other. */
  lemma {:induction false} Comparable(byId: Index, x: SpanId, c: SpanId, e: SpanId)
    requires Under(byId, x, c) && Under(byId, x, e) && Depth(byId, c) <= Depth(byId, e)
    ensures Under(byId, e, c)
    decreases Depth(byId, x)
  {
    hide Depth, ParentOf;
    ParentDepth(byId, x);
    UnderDepth(byId, x, e);
    UnderDepth(byId, x, c);
    if x != e && x != c {
      Comparable(byId, ParentOf(byId, x).value, c, e);
    }
  }

  lemma SiblingDepth(byId: Index, c: SpanId, d: SpanId)
    requires ParentOf(byId, c) == ParentOf(byId, d)
    ensures Depth(byId, c) == Depth(byId, d)
  {
    hide Depth, ParentOf;
    ParentDepth(byId, c);
    ParentDepth(byId, d);
  }

  /** A pair of siblings stands under an ancestor together. */
  lemma SiblingsTogether(byId: Index, c: SpanId, e: SpanId, g: SpanId)
    requires Under(byId, e, c) && e != c && ParentOf(byId, e) == ParentOf(byId, g)
    ensures Under(byId, g, c)
  {
    hide Depth, ParentOf;
    ParentDepth(byId, e);
    ParentDepth(byId, g);
  }

  /** An ancestor of one is not a later sibling's descendant of the other. */
  lemma AncestorNotApart(byId: Index, x: SpanId, y: SpanId, c: SpanId, d: SpanId)
    requires Under(byId, y, x) && EarlierSibling(byId, c, d)
    ensures !(Under(byId, x, c) && Under(byId, y, d)) && !(Under(byId, x, d) && Under(byId, y, c))
  {
    hide Depth, ParentOf, Under, Before;
    SiblingDepth(byId, c, d);
    if Under(byId, x, c) && Under(byId, y, d) {
      UnderTransitive(byId, y, x, c);
      UnderUnique(byId, y, c, d);
    }
    if Under(byId, x, d) && Under(byId, y, c) {
      UnderTransitive(byId, y, x, d);
      UnderUnique(byId, y, c, d);
    }
  }

  /** Two pairs of siblings cannot order two spans in both ways. */
  lemma OneFork(byId: Index, x: SpanId, y: SpanId, c: SpanId, d: SpanId, e: SpanId, g: SpanId)
    requires EarlierSibling(byId, c, d) && Under(byId, x, c) && Under(byId, y, d)
    requires EarlierSibling(byId, e, g)
    ensures !(Under(byId, y, e) && Under(byId, x, g))
  {
    hide Depth, Under, ParentOf, Before;
    SiblingDepth(byId, c, d);
    SiblingDepth(byId, e, g);
    if !Under(byId, y, e) || !Under(byId, x, g) {
      return;
    }
    if Depth(byId, c) == Depth(byId, g) {
      UnderUnique(byId, x, c, g);
      UnderUnique(byId, y, d, e);
      BeforeAntisymmetric(byId, c, d);
    } else if Depth(byId, c) < Depth(byId, g) {
      Comparable(byId, x, c, g);
      SiblingsTogether(byId, c, g, e);
      UnderTransitive(byId, y, e, c);
      UnderUnique(byId, y, c, d);
    } else {
      Comparable(byId, x, g, c);
      SiblingsTogether(byId, g, c, d);
      UnderTransitive(byId, y, d, g);
      UnderUnique(byId, y, e, g);
    }
  }

  lemma BeforeAntisymmetric(byId: Index, c: SpanId, d: SpanId)
    requires Before(byId, c, d) && Before(byId, d, c)
    ensures c == d
  {
  }

  /** No two spans precede each other. */
  lemma PrecedesOneWay(byId: Index, x: SpanId, y: SpanId)
    requires Precedes(byId, x, y)
    ensures !Precedes(byId, y, x)
  {
    hide Depth, Under, EarlierSibling;
    if Precedes(byId, y, x) {
      if x != y && Under(byId, y, x) {
        if Under(byId, x, y) {
          UnderDepth(byId, x, y);
          UnderDepth(byId, y, x);
          return;
        }
        var c, d :| EarlierSibling(byId, c, d) && Under(byId, y, c) && Under(byId, x, d);
        AncestorNotApart(byId, x, y, c, d);
        return;
      }
      var c: SpanId, d: SpanId :| EarlierSibling(byId, c, d) && Under(byId, x, c) && Under(byId, y, d);
      if Under(byId, x, y) {
        AncestorNotApart(byId, y, x, c, d);
        return;
      }
      var e: SpanId, g: SpanId :| EarlierSibling(byId, e, g) && Under(byId, y, e) && Under(byId, x, g);
      OneFork(byId, x, y, c, d, e, g);
    }
  }

  lemma SameFirstRow(byId: Index, a: seq<Row>, b: seq<Row>)
    requires Ordered(byId, a) && Ordered(byId, b) && a != [] && b != []
    requires a[0] in b && b[0] in a
    ensures a[0] == b[0]
  {
    hide Precedes;
    var j :| 0 <= j < |b| && b[j] == a[0];
    var i :| 0 <= i < |a| && a[i] == b[0];
    if i > 0 && j > 0 {
      PrecedesOneWay(byId, a[0].id, b[0].id);
    }
  }

  lemma WithoutFirstRow(rows: seq<Row>)
    requires rows != [] && DistinctRows(rows)
    ensures DistinctRows(rows[1..])
    ensures forall row :: row in rows[1..] <==> row in rows && row != rows[0]
  {
    assert rows == [rows[0]] + rows[1..];
  }

  /** So there is only one ordered list of given rows. */
  lemma {:induction false} OrderedUnique(byId: Index, a: seq<Row>, b: seq<Row>)
    requires DistinctRows(a) && DistinctRows(b) && Ordered(byId, a) && Ordered(byId, b)
    requires forall row :: row in a <==> row in b
    ensures a == b
  {
    hide Precedes, DistinctRows;
    if |a| > 0 {
      assert a[0] in b;
    }
    if |b| > 0 {
      assert b[0] in a;
    }
    if |a| == 0 || |b| == 0 {
      return;
    }
    SameFirstRow(byId, a, b);
    WithoutFirstRow(a);
    WithoutFirstRow(b);
    OrderedUnique(byId, a[1..], b[1..]);
    assert a == [a[0]] + a[1..] && b == [b[0]] + b[1..];
  }

  // --------------------------------------------------------------------------- flattening

  /**
    Whatever the parent pointers, dangling or cyclic, flattening the forest ends and lists every distinct
    span id exactly once, at the length of its chain of known ancestors, or 0 when that chain is cyclic;
    ancestors come before what hangs below them, and siblings with all below them in order.
   */
  method FlattenSpanTree(spans: seq<Span>) returns (rows: seq<Row>, byId: Index)
    ensures Indexes(byId, spans)
    ensures DistinctRows(rows) && Ordered(byId, rows)
    ensures forall row :: row in rows <==> row.id in byId && row.depth == Depth(byId, row.id)
  {
    hide *;
    var f;
    f, byId := BuildSpanForest(spans);
    RootsLayer(byId, f);
    RootsAreSiblings(byId, f);
    rows := Visit(f, f.roots, 0, [], {}, byId);
    RowsExact(f, f.roots, 0, {}, byId);
    RowsOrdered(f, f.roots, 0, {}, byId);
    assert [] + Rows(f, f.roots, 0, {}, byId) == Rows(f, f.roots, 0, {}, byId);
    ExactRoots(byId, f, rows);
  }

  lemma RootsAreSiblings(byId: Index, f: Forest)
    requires Shape(byId, f) && InTime(byId, f.roots) && forall p :: InTime(byId, Kids(f, p))
    ensures SortedForest(byId, f) && Siblings(byId, f.roots)
  {
    hide ParentOf, Before;
    forall i | 0 <= i < |f.roots| ensures ParentOf(byId, f.roots[i]).None? {
      assert f.roots[i] in f.roots;
    }
  }

  lemma ExactRoots(byId: Index, f: Forest, rows: seq<Row>)
    requires Exact(byId, rows, f.roots) && forall x :: x in byId ==> UnderAny(byId, x, f.roots)
    ensures DistinctRows(rows) && forall row :: row in rows <==> row.id in byId && row.depth == Depth(byId, row.id)
  {
    hide Depth, UnderAny, DistinctRows;
  }
}
