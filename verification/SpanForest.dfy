/**
  Span trees (apps/web/src/lib/span-tree.ts:11-45): a forest built from arbitrary parent pointers, with
  dangling and cyclic ones cut.
 */
module SpanForest {
  import opened Tables

  type SpanId = nat

  /** An empty or missing parent id is None; `startedAt` is the parsed time, None when there is none. */
  datatype Span = Span(id: SpanId, parent: Option<SpanId>, startedAt: Option<int>)

  type Index = map<SpanId, Span>

  const MAX_SAFE_INTEGER := 9007199254740991

  // --------------------------------------------------------------------------- ancestors

  /** The parent of a span, if it is known. */
  function Known(byId: Index, id: SpanId): Option<SpanId> {
    if id in byId && byId[id].parent.Some? && byId[id].parent.value in byId then byId[id].parent else None
  }

  /** The ancestor `n` steps up. */
  function Climb(byId: Index, id: SpanId, n: nat): Option<SpanId> {
    if n == 0 then Some(id)
    else
      var below := Climb(byId, id, n - 1);
      if below.Some? then Known(byId, below.value) else None
  }

  /** The chain of known ancestors never ends. */
  ghost predicate Cyclic(byId: Index, id: SpanId) {
    forall n :: Climb(byId, id, n).Some?
  }

  lemma {:induction false} ClimbFromParent(byId: Index, id: SpanId, n: nat)
    requires Known(byId, id).Some?
    ensures Climb(byId, id, n + 1) == Climb(byId, Known(byId, id).value, n)
  {
    if n == 0 {
      assert Climb(byId, id, 0) == Some(id);
    } else {
      ClimbFromParent(byId, id, n - 1);
    }
  }

  lemma {:induction false} ClimbEnds(byId: Index, id: SpanId, m: nat, n: nat)
    requires m <= n && Climb(byId, id, m).None?
    ensures Climb(byId, id, n).None?
  {
    if m < n {
      ClimbEnds(byId, id, m, n - 1);
    }
  }

  /** A chain that comes back to where it was goes on for ever. */
  lemma {:induction false} Repeats(byId: Index, id: SpanId, a: nat, b: nat, n: nat)
    requires a < b && Climb(byId, id, a).Some? && Climb(byId, id, a) == Climb(byId, id, b)
    ensures Climb(byId, id, n).Some?
    decreases n
  {
    if n > b {
      Repeats(byId, id, a, b, n - (b - a));
      Shifted(byId, id, a, b, n - b);
    } else if Climb(byId, id, n).None? {
      ClimbEnds(byId, id, n, b);
    }
  }

  lemma {:induction false} Shifted(byId: Index, id: SpanId, a: nat, b: nat, k: nat)
    requires Climb(byId, id, a).Some? && Climb(byId, id, a) == Climb(byId, id, b)
    ensures Climb(byId, id, a + k) == Climb(byId, id, b + k)
  {
    if k > 0 {
      Shifted(byId, id, a, b, k - 1);
    }
  }

  /** The length of a chain that ends. */
  ghost function Length(byId: Index, id: SpanId): (n: nat)
    requires !Cyclic(byId, id)
    ensures Climb(byId, id, n).Some? && Climb(byId, id, n + 1).None?
  {
    var end :| Climb(byId, id, end).None?;
    LastStep(byId, id, end);
    var n: nat :| Climb(byId, id, n).Some? && Climb(byId, id, n + 1).None?;
    n
  }

  lemma {:induction false} LastStep(byId: Index, id: SpanId, end: nat)
    requires Climb(byId, id, end).None?
    ensures exists n: nat :: Climb(byId, id, n).Some? && Climb(byId, id, n + 1).None?
  {
    if Climb(byId, id, end - 1).None? {
      LastStep(byId, id, end - 1);
    } else {
      assert Climb(byId, id, (end - 1) + 1).None?;
    }
  }

  lemma LengthUnique(byId: Index, id: SpanId, n: nat)
    requires !Cyclic(byId, id) && Climb(byId, id, n).Some? && Climb(byId, id, n + 1).None?
    ensures n == Length(byId, id)
  {
    var m := Length(byId, id);
    if n < m {
      ClimbEnds(byId, id, n + 1, m);
    } else if m < n {
      ClimbEnds(byId, id, m + 1, n);
    }
  }

  /** The row depth the source promises: the ancestor chain's length, or 0 when it runs into a cycle. */
  ghost function Depth(byId: Index, id: SpanId): nat {
    if Cyclic(byId, id) then 0 else Length(byId, id)
  }

  /** The parent a span hangs under in the forest. */
  ghost function ParentOf(byId: Index, id: SpanId): Option<SpanId> {
    if Cyclic(byId, id) then None else Known(byId, id)
  }

  lemma ParentDepth(byId: Index, id: SpanId)
    ensures ParentOf(byId, id).None? ==> Depth(byId, id) == 0
    ensures ParentOf(byId, id).Some? ==>
              && ParentOf(byId, id).value in byId
              && Depth(byId, id) == Depth(byId, ParentOf(byId, id).value) + 1
  {
    if !Cyclic(byId, id) {
      var known := Known(byId, id);
      if known.None? {
        assert Climb(byId, id, 0) == Some(id);
        assert Climb(byId, id, 0 + 1).None?;
        LengthUnique(byId, id, 0);
      } else {
        var n := Length(byId, id);
        assert n != 0 by {
          assert Climb(byId, id, 0) == Some(id);
          assert Climb(byId, id, 1) == known;
        }
        ClimbFromParent(byId, id, n - 1);
        ClimbFromParent(byId, id, n);
        LengthUnique(byId, known.value, n - 1);
      }
    }
  }

  // --------------------------------------------------------------------------- building

  /** The walk of wouldCreateCycle. */
  method WouldCreateCycle(span: Span, byId: Index) returns (cycle: bool)
    requires span.id in byId && byId[span.id] == span
    ensures cycle <==> Cyclic(byId, span.id)
  {
    var seen := {span.id};
    var parent := span.parent;
    ghost var n := 0;
    assert Climb(byId, span.id, 0) == Some(span.id);
    while parent.Some?
      invariant Climb(byId, span.id, n).Some?
      invariant Climb(byId, span.id, n).value in byId ==> parent == byId[Climb(byId, span.id, n).value].parent
      invariant Climb(byId, span.id, n).value in byId
      invariant forall x :: x in seen ==> exists m :: 0 <= m <= n && Climb(byId, span.id, m) == Some(x)
      invariant seen <= byId.Keys
      decreases |byId.Keys - seen|
    {
      ghost var here := Climb(byId, span.id, n).value;
      if parent.value in seen {
        ghost var m :| 0 <= m <= n && Climb(byId, span.id, m) == Some(parent.value);
        assert Climb(byId, span.id, n + 1) == Some(parent.value);
        forall k ensures Climb(byId, span.id, k).Some? {
          Repeats(byId, span.id, m, n + 1, k);
        }
        return true;
      }
      if parent.value !in byId {
        assert Climb(byId, span.id, n + 1).None?;
        return false;
      }
      ghost var before := seen;
      assert Climb(byId, span.id, n + 1) == Some(parent.value);
      seen := seen + {parent.value};
      Fewer(byId.Keys - seen, byId.Keys - before, parent.value);
      parent := byId[parent.value].parent;
      n := n + 1;
    }
    assert Climb(byId, span.id, n + 1).None?;
    cycle := false;
  }

  lemma Fewer(small: set<SpanId>, large: set<SpanId>, x: SpanId)
    requires small <= large && x in large && x !in small
    ensures |small| < |large|
  {
    assert large == small + (large - small);
    assert x in large - small;
  }

  datatype Forest = Forest(roots: seq<SpanId>, children: map<SpanId, seq<SpanId>>)

  function Kids(f: Forest, id: SpanId): seq<SpanId> {
    if id in f.children then f.children[id] else []
  }

  ghost predicate Distinct(ids: seq<SpanId>) {
    forall i, j :: 0 <= i < j < |ids| ==> ids[i] != ids[j]
  }

  /** Every known span is in its one place: under its parent, or among the roots. */
  ghost predicate Placed(byId: Index, f: Forest, done: set<SpanId>) {
    && Distinct(f.roots)
    && (forall x :: x in f.roots <==> x in done && ParentOf(byId, x).None?)
    && (forall p :: Distinct(Kids(f, p)))
    && (forall p: SpanId, x: SpanId :: x in Kids(f, p) <==> x in done && ParentOf(byId, x) == Some(p))
  }

  ghost predicate Shape(byId: Index, f: Forest) {
    Placed(byId, f, byId.Keys)
  }

  /** Earlier by start time, then by id; a span without a start time comes last. */
  predicate Before(byId: Index, a: SpanId, b: SpanId) {
    var s := if a in byId && byId[a].startedAt.Some? then byId[a].startedAt.value else MAX_SAFE_INTEGER;
    var t := if b in byId && byId[b].startedAt.Some? then byId[b].startedAt.value else MAX_SAFE_INTEGER;
    s < t || (s == t && a <= b)
  }

  /** Of two spans with a start time the earlier one comes first, of two that start together the smaller id. */
  lemma StartedFirst(byId: Index, a: SpanId, b: SpanId)
    requires a in byId && b in byId
    ensures byId[a].startedAt.Some? && byId[b].startedAt.Some? ==>
              var s, t := byId[a].startedAt.value, byId[b].startedAt.value;
              (Before(byId, a, b) <==> if s == t then a <= b else s < t)
    ensures byId[a].startedAt.None? && byId[b].startedAt.None? ==> (Before(byId, a, b) <==> a <= b)
    ensures byId[a].startedAt.Some? && byId[b].startedAt.None? && byId[a].startedAt.value < MAX_SAFE_INTEGER ==>
              Before(byId, a, b) && !Before(byId, b, a)
  {
  }

  function InsertSibling(byId: Index, x: SpanId, sorted: seq<SpanId>): seq<SpanId> {
    if sorted == [] || Before(byId, x, sorted[0]) then [x] + sorted
    else [sorted[0]] + InsertSibling(byId, x, sorted[1..])
  }

  function SortSiblings(byId: Index, ids: seq<SpanId>): seq<SpanId> {
    if ids == [] then [] else InsertSibling(byId, ids[0], SortSiblings(byId, ids[1..]))
  }

  predicate InTime(byId: Index, ids: seq<SpanId>) {
    forall i, j :: 0 <= i < j < |ids| ==> Before(byId, ids[i], ids[j])
  }

  lemma {:induction false} InsertKeeps(byId: Index, x: SpanId, sorted: seq<SpanId>)
    ensures forall y :: y in InsertSibling(byId, x, sorted) <==> y == x || y in sorted
    ensures Distinct(sorted) && x !in sorted ==> Distinct(InsertSibling(byId, x, sorted))
  {
    hide Before;
    if sorted != [] {
      InsertKeeps(byId, x, sorted[1..]);
      assert sorted == [sorted[0]] + sorted[1..];
      var rest := InsertSibling(byId, x, sorted[1..]);
      if Distinct(sorted) && x !in sorted {
        assert forall j :: 0 <= j < |rest| ==> rest[j] in rest;
      }
    }
  }

  lemma {:induction false} InsertInTime(byId: Index, x: SpanId, sorted: seq<SpanId>)
    requires InTime(byId, sorted)
    ensures InTime(byId, InsertSibling(byId, x, sorted))
  {
    if sorted != [] && !Before(byId, x, sorted[0]) {
      InsertInTime(byId, x, sorted[1..]);
      InsertKeeps(byId, x, sorted[1..]);
      var rest := InsertSibling(byId, x, sorted[1..]);
      forall j | 0 <= j < |rest| ensures Before(byId, sorted[0], rest[j]) {
        assert rest[j] in rest;
      }
    }
  }

  lemma {:induction false} SortKeeps(byId: Index, ids: seq<SpanId>)
    ensures forall y :: y in SortSiblings(byId, ids) <==> y in ids
    ensures Distinct(ids) ==> Distinct(SortSiblings(byId, ids))
    ensures InTime(byId, SortSiblings(byId, ids))
  {
    hide Before;
    if ids != [] {
      SortKeeps(byId, ids[1..]);
      InsertKeeps(byId, ids[0], SortSiblings(byId, ids[1..]));
      InsertInTime(byId, ids[0], SortSiblings(byId, ids[1..]));
      assert ids == [ids[0]] + ids[1..];
    }
  }

  /** `k` is the first place of an id. */
  predicate FirstAt(spans: seq<Span>, k: nat, id: SpanId) {
    k < |spans| && spans[k].id == id && forall j :: 0 <= j < k ==> spans[j].id != id
  }

  /** Exactly the ids that occur, each with the first span that carries it. */
  ghost predicate Indexes(byId: Index, spans: seq<Span>) {
    && (forall k :: 0 <= k < |spans| ==> spans[k].id in byId)
    && (forall id :: id in byId ==> exists k: nat :: FirstAt(spans, k, id) && byId[id] == spans[k])
  }

  method FirstById(spans: seq<Span>) returns (byId: Index, order: seq<SpanId>)
    ensures Indexes(byId, spans)
    ensures Distinct(order) && forall id :: id in order <==> id in byId
  {
    byId, order := map[], [];
    for n := 0 to |spans|
      invariant forall k :: 0 <= k < n ==> spans[k].id in byId
      invariant forall id :: id in byId ==> exists k: nat :: k < n && FirstAt(spans, k, id) && byId[id] == spans[k]
      invariant Distinct(order) && forall id :: id in order <==> id in byId
    {
      if spans[n].id !in byId {
        assert FirstAt(spans, n, spans[n].id);
        byId := byId[spans[n].id := spans[n]];
        order := order + [spans[n].id];
      }
    }
  }

  method BuildSpanForest(spans: seq<Span>) returns (f: Forest, byId: Index)
    ensures Indexes(byId, spans)
    ensures Shape(byId, f)
    ensures InTime(byId, f.roots) && forall p :: InTime(byId, Kids(f, p))
  {
    hide InTime;
    var order;
    byId, order := FirstById(spans);
    f := Forest([], map[]);
    ghost var done: set<SpanId> := {};
    for n := 0 to |order|
      invariant Placed(byId, f, done) && done == Set(order[..n])
    {
      var span := byId[order[n]];
      assert order[..n + 1] == order[..n] + [order[n]];
      var cycle := WouldCreateCycle(span, byId);
      if span.parent.None? || span.parent.value !in byId || cycle {
        RootPlaced(byId, f, done, span.id);
        f := f.(roots := f.roots + [span.id]);
      } else {
        var p := span.parent.value;
        ChildPlaced(byId, f, done, span.id, p);
        f := f.(children := f.children[p := Kids(f, p) + [span.id]]);
      }
      done := done + {span.id};
    }
    assert order[..|order|] == order && done == byId.Keys;
    f := SortTree(byId, f);
  }

  ghost function Set(ids: seq<SpanId>): set<SpanId> {
    set x | x in ids
  }

  lemma RootPlaced(byId: Index, f: Forest, done: set<SpanId>, x: SpanId)
    requires Placed(byId, f, done) && x !in done && ParentOf(byId, x).None?
    ensures Placed(byId, f.(roots := f.roots + [x]), done + {x})
  {
    hide ParentOf;
    var g := f.(roots := f.roots + [x]);
    assert forall p :: Kids(g, p) == Kids(f, p);
  }

  lemma ChildPlaced(byId: Index, f: Forest, done: set<SpanId>, x: SpanId, p: SpanId)
    requires Placed(byId, f, done) && x !in done && ParentOf(byId, x) == Some(p)
    ensures Placed(byId, f.(children := f.children[p := Kids(f, p) + [x]]), done + {x})
  {
    hide ParentOf;
    var g := f.(children := f.children[p := Kids(f, p) + [x]]);
    assert forall q :: Kids(g, q) == if q == p then Kids(f, p) + [x] else Kids(f, q);
  }

  /** Sorts the roots and every list of children. */
  method SortTree(byId: Index, f: Forest) returns (g: Forest)
    requires Shape(byId, f)
    ensures Shape(byId, g)
    ensures InTime(byId, g.roots) && forall p :: InTime(byId, Kids(g, p))
  {
    hide InTime, ParentOf, SortSiblings;
    g := Forest(SortSiblings(byId, f.roots), map p | p in f.children :: SortSiblings(byId, f.children[p]));
    SortKeeps(byId, f.roots);
    SortKeeps(byId, []);
    forall p ensures Kids(g, p) == SortSiblings(byId, Kids(f, p)) {
      SortNothing(byId);
    }
    forall p {
      SortKeeps(byId, Kids(f, p));
    }
  }

  lemma SortNothing(byId: Index)
    ensures SortSiblings(byId, []) == []
  {
  }
}
