/**
  Component selectors (packages/lineage/src/selectors.ts): which parts of a version a change or a
  dependency talks about, and when two selectors may talk about the same part.
 */
module Selectors {
  import opened Tables

  /** Selectors after parsing; `tokens` is None when the JSONPath uses unsupported syntax. */
  datatype Selector =
    | Unknown
    | JsonPath(path: string, tokens: Option<seq<string>>)
    | File(file: string)
    | TableColumn(columns: seq<string>)
    | Symbol(symbol: string)
    | Record(record: string)

  // ------------------------------------------------------------------------ token lists

  predicate TokensMeet(left: string, right: string) {
    left == "*" || right == "*" || left == right
  }

  predicate PrefixTokensMeet(left: seq<string>, right: seq<string>) {
    forall k :: 0 <= k < |left| && k < |right| ==> TokensMeet(left[k], right[k])
  }

  method PrefixTokensIntersect(left: seq<string>, right: seq<string>) returns (meet: bool)
    ensures meet == PrefixTokensMeet(left, right)
  {
    var length := if |left| <= |right| then |left| else |right|;
    for k := 0 to length
      invariant forall j :: 0 <= j < k ==> TokensMeet(left[j], right[j])
    {
      if left[k] != "*" && right[k] != "*" && left[k] != right[k] {
        return false;
      }
    }
    meet := true;
  }

  predicate Concrete(path: seq<string>) {
    forall k :: 0 <= k < |path| ==> path[k] != "*"
  }

  predicate MatchesFrom(pattern: seq<string>, path: seq<string>) {
    forall k :: 0 <= k < |pattern| && k < |path| ==> TokensMeet(pattern[k], path[k])
  }

  /** A JSON path pattern covers every concrete path that starts with an instance of it. */
  predicate Covers(pattern: seq<string>, path: seq<string>) {
    |pattern| <= |path| && MatchesFrom(pattern, path)
  }

  /** A dotted name pattern names exactly the names of its own length that match token by token. */
  predicate Names(pattern: seq<string>, name: seq<string>) {
    |pattern| == |name| && MatchesFrom(pattern, name)
  }

  function CommonToken(left: string, right: string): (token: string)
    ensures token != "*" && TokensMeet(left, token)
    ensures TokensMeet(left, right) ==> TokensMeet(right, token)
  {
    if left != "*" then left else if right != "*" then right else "any"
  }

  /** Two token patterns intersect exactly when one concrete path lies under both. */
  lemma PrefixTokensSound(left: seq<string>, right: seq<string>)
    ensures PrefixTokensMeet(left, right) <==> exists path :: Concrete(path) && Covers(left, path) && Covers(right, path)
  {
    if PrefixTokensMeet(left, right) {
      var n := if |left| <= |right| then |right| else |left|;
      var path := seq(n, k requires 0 <= k < n =>
        if k >= |left| then CommonToken(right[k], right[k])
        else if k >= |right| then CommonToken(left[k], left[k])
        else CommonToken(left[k], right[k]));
      assert Concrete(path) && Covers(left, path) && Covers(right, path);
    }
    if path :| Concrete(path) && Covers(left, path) && Covers(right, path) {
      forall k | 0 <= k < |left| && k < |right| ensures TokensMeet(left[k], right[k]) {
        assert path[k] != "*";
      }
    }
  }

  predicate DottedMeet(left: seq<string>, right: seq<string>) {
    |left| == |right| && PrefixTokensMeet(left, right)
  }

  /** Two column patterns intersect exactly when one concrete column is named by both. */
  lemma DottedSound(left: seq<string>, right: seq<string>)
    ensures DottedMeet(left, right) <==> exists name :: Concrete(name) && Names(left, name) && Names(right, name)
  {
    if DottedMeet(left, right) {
      var name := seq(|left|, k requires 0 <= k < |left| => CommonToken(left[k], right[k]));
      assert Concrete(name) && Names(left, name) && Names(right, name);
    }
    if name :| Concrete(name) && Names(left, name) && Names(right, name) {
      forall k | 0 <= k < |left| && k < |right| ensures TokensMeet(left[k], right[k]) {
        assert name[k] != "*";
      }
    }
  }

  // ------------------------------------------------------------------------------ files

  predicate GlobChar(c: char) {
    c == '*' || c == '?' || c == '[' || c == ']' || c == '{' || c == '}'
  }

  predicate Glob(path: string) {
    exists k :: 0 <= k < |path| && GlobChar(path[k])
  }

  /** Backslashes become slashes. */
  function Slashed(path: string): (r: string)
    ensures |r| == |path|
  {
    seq(|path|, k requires 0 <= k < |path| => if path[k] == '\\' then '/' else path[k])
  }

  /** Runs of slashes become one. */
  function Squeezed(path: string): string {
    if |path| < 2 then path
    else if path[0] == '/' && path[1] == '/' then Squeezed(path[1..])
    else [path[0]] + Squeezed(path[1..])
  }

  function Normalized(path: string): string {
    var slashed := Slashed(path);
    Squeezed(if "./" <= slashed then slashed[2..] else slashed)
  }

  predicate Directory(path: string) {
    |path| > 0 && path[|path| - 1] == '/'
  }

  predicate FilesMeet(leftValue: string, rightValue: string) {
    var left, right := Normalized(leftValue), Normalized(rightValue);
    || Glob(left) || Glob(right) || left == right
    || (if Directory(left) then left <= right
        else Directory(right) && right <= left)
  }

  predicate ConcreteFile(path: string) {
    path != "" && !Directory(path)
  }

  predicate CoversBelow(selector: string) {
    selector == "" || Directory(selector)
  }

  /** What a normalized file selector names: a directory everything below it, the root everything, a file itself. */
  predicate CoversFile(selector: string, path: string) {
    if CoversBelow(selector) then selector <= path else selector == path
  }

  ghost predicate FilesOverlap(left: string, right: string) {
    exists path :: ConcreteFile(path) && CoversFile(left, path) && CoversFile(right, path)
  }

  /** The left directory lies strictly inside the right one, or one of them is the root, which loses its slash. */
  predicate Overlooked(left: string, right: string) {
    left != right && (left == "" || right == "" || (Directory(left) && Directory(right) && right <= left))
  }

  /** A path below both of two selectors, one of which is a prefix of the other. */
  lemma OverlapBelow(outer: string, inner: string)
    requires CoversBelow(outer) && outer <= inner
    ensures FilesOverlap(outer, inner) && FilesOverlap(inner, outer)
  {
    var path := if ConcreteFile(inner) then inner else inner + "x";
    assert inner <= path;
    assert ConcreteFile(path) && CoversFile(outer, path) && CoversFile(inner, path);
  }

  lemma OverlapIsPrefix(left: string, right: string)
    ensures FilesOverlap(left, right) <==>
              || (CoversBelow(left) && left <= right)
              || (CoversBelow(right) && right <= left)
              || left == right
  {
    if CoversBelow(left) && left <= right {
      OverlapBelow(left, right);
    } else if CoversBelow(right) && right <= left {
      OverlapBelow(right, left);
    } else if left == right {
      assert ConcreteFile(left) && CoversFile(left, left);
    }
  }

  /**
    Globs meet everything. Otherwise two file selectors meet exactly when they share a concrete file, unless
    the left directory lies strictly inside the right one or one of them is the root; so the order of the
    arguments matters exactly for one directory strictly inside the other.
   */
  lemma FilesMeetExactly(leftValue: string, rightValue: string)
    ensures var left, right := Normalized(leftValue), Normalized(rightValue);
            FilesMeet(leftValue, rightValue) <==>
              Glob(left) || Glob(right) || (FilesOverlap(left, right) && !Overlooked(left, right))
    ensures var left, right := Normalized(leftValue), Normalized(rightValue);
            FilesMeet(leftValue, rightValue) != FilesMeet(rightValue, leftValue) <==>
              && !Glob(left) && !Glob(right) && Directory(left) && Directory(right)
              && left != right && (left <= right || right <= left)
  {
    hide Normalized, Glob, FilesOverlap;
    var left, right := Normalized(leftValue), Normalized(rightValue);
    OverlapIsPrefix(left, right);
    if left <= right && right <= left {
      assert left == right;
    }
  }

  predicate Clean(path: string) {
    && !("./" <= path)
    && (forall k :: 0 <= k < |path| ==> path[k] != '\\')
    && (forall k :: 0 <= k < |path| - 1 ==> path[k] != '/' || path[k + 1] != '/')
  }

  lemma {:induction false} SqueezedClean(path: string)
    requires forall k :: 0 <= k < |path| - 1 ==> path[k] != '/' || path[k + 1] != '/'
    ensures Squeezed(path) == path
  {
    if |path| >= 2 {
      SqueezedClean(path[1..]);
      assert path == [path[0]] + path[1..];
    }
  }

  /** Normalisation rewrites nothing but backslashes, a leading "./" and repeated slashes. */
  lemma NormalizedClean(path: string)
    requires Clean(path)
    ensures Normalized(path) == path
  {
    assert Slashed(path) == path;
    SqueezedClean(path);
  }

  predicate Separator(c: char) {
    c == '/' || c == '\\'
  }

  /** The names a path is made of; `word` is the one being read. */
  function Parts(path: string, word: string): seq<string>
    decreases |path|
  {
    var done := if word == "" then [] else [word];
    if path == "" then done
    else if Separator(path[0]) then done + Parts(path[1..], "")
    else Parts(path[1..], word + [path[0]])
  }

  lemma {:induction false} SlashedParts(path: string, word: string)
    ensures Parts(Slashed(path), word) == Parts(path, word)
    decreases |path|
  {
    if path != "" {
      assert Slashed(path)[1..] == Slashed(path[1..]);
      SlashedParts(path[1..], if Separator(path[0]) then "" else word + [path[0]]);
    }
  }

  lemma {:induction false} SqueezedParts(path: string, word: string)
    ensures Parts(Squeezed(path), word) == Parts(path, word)
    decreases |path|
  {
    if |path| >= 2 {
      SqueezedParts(path[1..], word);
      if path[0] == '/' && path[1] == '/' {
        assert path[1..][0] == '/' && path[1..][1..] == path[2..];
        assert Parts(path[1..], "") == Parts(path[2..], "");
      } else {
        SqueezedParts(path[1..], if Separator(path[0]) then "" else word + [path[0]]);
        assert Squeezed(path)[1..] == Squeezed(path[1..]);
      }
    }
  }

  lemma SqueezedStep(path: string)
    ensures |path| < 2 ==> Squeezed(path) == path
    ensures |path| >= 2 ==>
              Squeezed(path) == (if path[0] == '/' && path[1] == '/' then [] else [path[0]]) + Squeezed(path[1..])
  {
  }

  lemma {:induction false} SqueezedEnds(path: string)
    requires path != ""
    ensures var r := Squeezed(path);
            && r != "" && r[0] == path[0] && r[|r| - 1] == path[|path| - 1]
            && (forall k :: 0 <= k < |r| ==> r[k] in path)
            && (forall k :: 0 <= k < |r| - 1 ==> r[k] != '/' || r[k + 1] != '/')
  {
    hide Squeezed;
    SqueezedStep(path);
    if |path| >= 2 {
      SqueezedEnds(path[1..]);
      var rest := Squeezed(path[1..]);
      assert forall c :: c in path[1..] ==> c in path;
      if !(path[0] == '/' && path[1] == '/') {
        assert Squeezed(path) == [path[0]] + rest && rest[0] == path[1];
        PutInFront(path[0], rest);
      }
    }
  }

  lemma PutInFront(c: char, rest: string)
    requires rest != "" && (c != '/' || rest[0] != '/')
    requires forall k :: 0 <= k < |rest| - 1 ==> rest[k] != '/' || rest[k + 1] != '/'
    ensures var r := [c] + rest;
            && (forall k :: 0 <= k < |r| - 1 ==> r[k] != '/' || r[k + 1] != '/')
            && (forall k :: 0 <= k < |r| ==> r[k] == c || r[k] in rest)
            && r[|r| - 1] == rest[|rest| - 1]
  {
    var r := [c] + rest;
    forall k | 0 <= k < |r| - 1 ensures r[k] != '/' || r[k + 1] != '/' {
      if k > 0 {
        assert r[k] == rest[k - 1] && r[k + 1] == rest[k];
      }
    }
  }

  lemma SqueezedEmpty()
    ensures Squeezed("") == ""
  {
  }

  /** What normalisation starts from: the path without one leading "./" or ".\\". */
  function Below(path: string): string {
    if |path| >= 2 && path[0] == '.' && Separator(path[1]) then path[2..] else path
  }

  /** A normalised path is made of the same names, with single slashes, and begins and ends as it did. */
  lemma NormalizedMeans(path: string)
    ensures var r, rest := Normalized(path), Below(path);
            && Parts(r, "") == Parts(rest, "")
            && (forall k :: 0 <= k < |r| ==> r[k] != '\\')
            && (forall k :: 0 <= k < |r| - 1 ==> r[k] != '/' || r[k + 1] != '/')
            && (rest == "" <==> r == "")
            && (rest != "" ==> (r[0] == '/' <==> Separator(rest[0])) && (Directory(r) <==> Separator(rest[|rest| - 1])))
  {
    hide Squeezed, Parts;
    var slashed, rest := Slashed(path), Below(path);
    var stripped := if "./" <= slashed then slashed[2..] else slashed;
    assert "./" <= slashed <==> |path| >= 2 && slashed[0] == '.' && slashed[1] == '/';
    assert stripped == Slashed(rest);
    SlashedParts(rest, "");
    SqueezedParts(stripped, "");
    if rest != "" {
      SqueezedEnds(stripped);
      forall k | 0 <= k < |Squeezed(stripped)| ensures Squeezed(stripped)[k] != '\\' {
        assert Squeezed(stripped)[k] in stripped;
      }
    } else {
      SqueezedEmpty();
    }
  }

  /** "./" becomes the empty text, which is no directory: a change of the root is seen by nothing below it. */
  lemma RootUnseen()
    ensures !SelectorsIntersect(File("./"), File("src/")) && !SelectorsIntersect(File("src/"), File("./"))
  {
    assert Slashed("./") == "./";
    assert Normalized("./") == Squeezed("") == "";
    var below := "src/";
    assert below[0] == 's';
    NormalizedClean(below);
  }

  lemma InnerDirectoryUnseen()
    ensures !SelectorsIntersect(File("src/lib/"), File("src/")) && SelectorsIntersect(File("src/"), File("src/lib/"))
  {
    hide Normalized;
    var inner, outer := "src/lib/", "src/";
    NormalizedClean(inner);
    NormalizedClean(outer);
    assert inner[..4] == outer;
    assert inner[0] == 's' && outer[0] == 's';
  }

  // -------------------------------------------------------------------------- selectors

  predicate SelectorsIntersect(left: Selector, right: Selector) {
    if left.Unknown? || right.Unknown? then true
    else
      match (left, right)
      case (JsonPath(_, l), JsonPath(_, r)) => l.None? || r.None? || PrefixTokensMeet(l.value, r.value)
      case (File(l), File(r)) => FilesMeet(l, r)
      case (TableColumn(l), TableColumn(r)) => DottedMeet(l, r)
      case (Symbol(l), Symbol(r)) => l == "*" || r == "*" || l == r
      case (Record(l), Record(r)) => l == "*" || r == "*" || l == r
      case _ => false
  }

  predicate SelectorSetsIntersect(left: set<Selector>, right: set<Selector>) {
    exists l, r :: l in left && r in right && SelectorsIntersect(l, r)
  }

  // ------------------------------------------------------------------- what selectors name

  /** A single part of a version. */
  datatype Thing =
    | Place(path: seq<string>)
    | Column(name: seq<string>)
    | Function(symbol: string)
    | Row(record: string)

  predicate Real(thing: Thing) {
    match thing
    case Place(path) => Concrete(path)
    case Column(name) => Concrete(name)
    case Function(symbol) => symbol != "*"
    case Row(record) => record != "*"
  }

  /** A path names everything below it, a column exactly the columns that fit, a star every symbol or record. */
  predicate NamesThing(selector: Selector, thing: Thing) {
    match (selector, thing)
    case (JsonPath(_, Some(tokens)), Place(path)) => Covers(tokens, path)
    case (TableColumn(columns), Column(name)) => Names(columns, name)
    case (Symbol(symbol), Function(name)) => symbol == "*" || symbol == name
    case (Record(record), Row(name)) => record == "*" || record == name
    case _ => false
  }

  ghost predicate ShareThing(left: Selector, right: Selector) {
    exists thing :: Real(thing) && NamesThing(left, thing) && NamesThing(right, thing)
  }

  predicate Unparsed(selector: Selector) {
    selector.JsonPath? && selector.tokens == None
  }

  predicate Wild(path: string) {
    exists k :: 0 <= k < |path| && path[k] in "*?[]{}"
  }

  lemma WildIsGlob(path: string)
    ensures Wild(path) <==> Glob(path)
  {
    if k :| 0 <= k < |path| && path[k] in "*?[]{}" {
      assert GlobChar(path[k]);
    }
    if k :| 0 <= k < |path| && GlobChar(path[k]) {
      assert "*?[]{}"[0] == '*' && "*?[]{}"[1] == '?' && "*?[]{}"[2] == '[';
      assert "*?[]{}"[3] == ']' && "*?[]{}"[4] == '{' && "*?[]{}"[5] == '}';
    }
  }

  /** Two file selectors that share a file, or may; not the two overlooked cases. */
  ghost predicate ShareFile(left: Selector, right: Selector) {
    && left.File? && right.File?
    && var l, r := Normalized(left.file), Normalized(right.file);
       Wild(l) || Wild(r) || (FilesOverlap(l, r) && !Overlooked(l, r))
  }

  /** What intersection is for: may a change of what one selector names be a change of what the other names? */
  ghost predicate Related(left: Selector, right: Selector) {
    || left == Unknown || right == Unknown
    || (left.JsonPath? && right.JsonPath? && (Unparsed(left) || Unparsed(right)))
    || ShareFile(left, right)
    || ShareThing(left, right)
  }

  lemma ShareName(left: Selector, right: Selector, thing: Thing)
    requires Real(thing) && NamesThing(left, thing) && NamesThing(right, thing)
    ensures ShareThing(left, right)
  {
  }

  /**
    Selectors intersect exactly when one is unknown, or both are paths of which one could not be parsed, or they
    share a file, or some real thing is named by both: a place below two paths, a column two patterns fit, a
    symbol, a record. Selectors of different known kinds share nothing.
   */
  lemma IntersectExactly(left: Selector, right: Selector)
    ensures SelectorsIntersect(left, right) <==> Related(left, right)
  {
    hide FilesMeet, Glob, Wild, Normalized, FilesOverlap, Overlooked, Covers, Names, PrefixTokensMeet, DottedMeet;
    match (left, right)
    case (JsonPath(_, Some(l)), JsonPath(_, Some(r))) =>
      PrefixTokensSound(l, r);
      if path :| Concrete(path) && Covers(l, path) && Covers(r, path) {
        ShareName(left, right, Place(path));
      }
    case (File(l), File(r)) =>
      FilesMeetExactly(l, r);
      WildIsGlob(Normalized(l));
      WildIsGlob(Normalized(r));
    case (TableColumn(l), TableColumn(r)) =>
      DottedSound(l, r);
      if name :| Concrete(name) && Names(l, name) && Names(r, name) {
        ShareName(left, right, Column(name));
      }
    case (Symbol(l), Symbol(r)) =>
      if l == "*" || r == "*" || l == r {
        var name := CommonToken(l, r);
        ShareName(left, right, Function(name));
      }
    case (Record(l), Record(r)) =>
      if l == "*" || r == "*" || l == r {
        var name := CommonToken(l, r);
        ShareName(left, right, Row(name));
      }
    case _ =>
  }
}
