/**
  Digests and evidence fingerprints (packages/contracts/src/digest.ts:84-91, 112-134) over an abstract hash
  of UTF-8 bytes: where the hash has no collisions, a digest identifies the scalars of its domain and its
  value, and a fingerprint the scope a record of evidence was produced in, dependencies as a collection.
 */
module Fingerprints {
  import opened Tables
  import opened CanonicalText
  import opened CanonicalJson
  import opened Utf8
  import opened JsonReader

  type Hash = seq<Byte> -> nat

  ghost predicate CollisionFree(hash: Hash) {
    forall p, q :: hash(p) == hash(q) ==> p == q
  }

  // ----------------------------------------------------------------- what text is printed

  /** No lone surrogate and no NUL. */
  predicate Sound(text: Text) {
    WellFormed(text) && 0 !in text
  }

  lemma SoundJoin(a: Text, b: Text)
    requires Sound(a) && Sound(b)
    ensures Sound(a + b)
  {
    WellFormedJoin(a, b);
  }

  lemma {:induction false} PlainUnitsSound(text: Text)
    requires forall k :: 0 <= k < |text| ==> 0 < text[k] < 0xD800
    ensures Sound(text)
  {
    if text != [] {
      PlainUnitsSound(text[1..]);
    }
  }

  lemma EscapedSound(u: CodeUnit)
    ensures Sound(Escaped(u))
  {
    if Raw(u) {
      assert Escaped(u)[1..] == [];
    } else {
      PlainUnitsSound(Escaped(u));
    }
  }

  lemma {:induction false} BodySound(text: Text)
    ensures Sound(Body(text))
  {
    hide Escaped, Sound;
    if text == [] {
      PlainUnitsSound([]);
    } else if Paired(text) {
      BodySound(text[2..]);
      assert Sound(text[..2]) by { PairSound(text); }
      SoundJoin(text[..2], Body(text[2..]));
    } else {
      BodySound(text[1..]);
      EscapedSound(text[0]);
      SoundJoin(Escaped(text[0]), Body(text[1..]));
    }
  }

  lemma PairSound(text: Text)
    requires Paired(text)
    ensures Sound(text[..2])
  {
    assert text[..2][2..] == [];
  }

  lemma QuotedSound(text: Text)
    ensures Sound(Quoted(text))
  {
    hide Sound, Body;
    BodySound(text);
    PlainUnitsSound([QUOTE]);
    SoundJoin([QUOTE], Body(text));
    SoundJoin([QUOTE] + Body(text), [QUOTE]);
  }

  lemma {:induction false} JoinSound(parts: seq<Text>)
    requires forall i :: 0 <= i < |parts| ==> Sound(parts[i])
    ensures Sound(Join(parts))
  {
    hide Sound;
    PlainUnitsSound([]);
    PlainUnitsSound([COMMA]);
    if |parts| > 1 {
      JoinSound(parts[1..]);
      SoundJoin(parts[0], [COMMA]);
      SoundJoin(parts[0] + [COMMA], Join(parts[1..]));
    }
  }

  lemma BracketsSound(open: CodeUnit, text: Text, close: CodeUnit)
    requires Sound(text) && 0 < open < 0xD800 && 0 < close < 0xD800
    ensures Sound([open] + (text + ([close] + [])))
  {
    hide Sound;
    PlainUnitsSound([open]);
    PlainUnitsSound([close] + []);
    SoundJoin(text, [close] + []);
    SoundJoin([open], text + ([close] + []));
  }

  /** Canonical text escapes every control character and every lone surrogate. */
  lemma {:induction false} PrintSound(v: Json)
    ensures Sound(Print(v))
  {
    hide Sound, Join, SortedKeys, Quoted;
    match v
    case String(text) => QuotedSound(text);
    case Array(items) =>
      forall i | 0 <= i < |items| ensures Sound(Parts(items)[i]) {
        PrintSound(items[i]);
      }
      JoinSound(Parts(items));
      PrintArray(items, []);
      assert Print(v) + [] == Print(v);
      BracketsSound(OPEN_BRACKET, Join(Parts(items)), CLOSE_BRACKET);
    case Object(fields) =>
      forall i | 0 <= i < |Members(fields)| ensures Sound(Members(fields)[i]) {
        var key := SortedKeys(fields.Keys)[i];
        PrintSound(fields[key]);
        QuotedSound(key);
        PlainUnitsSound([COLON]);
        SoundJoin(Quoted(key), [COLON]);
        SoundJoin(Quoted(key) + [COLON], Print(fields[key]));
      }
      JoinSound(Members(fields));
      PrintObject(fields, []);
      assert Print(v) + [] == Print(v);
      BracketsSound(OPEN_BRACE, Join(Members(fields)), CLOSE_BRACE);
    case Number(Finite(text)) => PlainUnitsSound(text);
    case _ => PlainUnitsSound(Print(v));
  }

  // ---------------------------------------------------------------------------- digests

  const VERSION: Text := Ascii("arcdb-canonical-v1") + [0]

  /** The bytes hashed, piece by piece. */
  function Preimage(domain: Text, v: Json): seq<Byte> {
    Bytes(VERSION) + (Bytes(domain) + ([0] + Bytes(Print(v))))
  }

  function Digest(hash: Hash, domain: Text, v: Json): nat {
    hash(Preimage(domain, v))
  }

  /** The last zero byte tells where the value starts, whatever the domain holds. */
  lemma ValueNotLonger(d: seq<Byte>, e: seq<Byte>, x: seq<Byte>, y: seq<Byte>)
    requires 0 !in x && d + ([0] + x) == e + ([0] + y)
    ensures |x| <= |y|
  {
    var bytes := d + ([0] + x);
    assert bytes[|e|] == 0;
  }

  function AsciiBytes(s: string): (bytes: seq<Byte>)
    requires forall k :: 0 <= k < |s| ==> s[k] as int < 128
    ensures |bytes| == |s| && forall k :: 0 <= k < |s| ==> bytes[k] as int == s[k] as int
  {
    seq(|s|, k requires 0 <= k < |s| => s[k] as int as Byte)
  }

  lemma {:induction false} PlainBytes(text: Text)
    requires forall k :: 0 <= k < |text| ==> text[k] < 0x80
    ensures |Bytes(text)| == |text| && forall k :: 0 <= k < |text| ==> Bytes(text)[k] as int == text[k] as int
  {
    if text != [] {
      PlainBytes(text[1..]);
      assert Scalars(text)[1..] == Scalars(text[1..]) && Scalars(text)[0] == text[0] as int;
      assert Bytes(text) == [text[0] as Byte] + Bytes(text[1..]);
    }
  }

  /**
    What is hashed can be taken apart again: the version up to the first zero byte, and behind the last one the
    UTF-8 of JSON text that reads back as the value.
   */
  lemma PreimageReads(domain: Text, v: Json)
    requires Canonicalize(v).Some?
    ensures var json := Bytes(Print(v));
            && Preimage(domain, v) == AsciiBytes("arcdb-canonical-v1") + [0] + Bytes(domain) + [0] + json
            && 0 !in AsciiBytes("arcdb-canonical-v1") && 0 !in json
            && Decode(json).Some? && ReadValue(Units(Decode(json).value)) == Expected(v, [])
  {
    hide Print, Decode, ReadValue, Normal, Gapless, Encode, Scalars, Units, Supported;
    PrintSound(v);
    BytesWithoutNul(Print(v));
    DecodesBack(Scalars(Print(v)));
    UnitsBack(Print(v));
    EmptyFollows();
    ReadsBack(v, []);
    assert Print(v) + [] == Print(v);
    PlainBytes(VERSION);
    var version := "arcdb-canonical-v1";
    assert forall k :: 0 <= k < |version| ==> version[k] as int != 0;
    assert Bytes(VERSION) == AsciiBytes(version) + [0];
  }

  /**
    A digest identifies its value up to key order, the sign of zero and a lone hole, and the scalars of its
    domain; a well-formed domain it identifies itself.
   */
  lemma DigestIdentifies(hash: Hash, d: Text, e: Text, a: Json, b: Json)
    requires CollisionFree(hash)
    requires Canonicalize(a).Some? && Canonicalize(b).Some?
    ensures Digest(hash, d, a) == Digest(hash, e, b) <==> Scalars(d) == Scalars(e) && Normal(a) == Normal(b)
    ensures WellFormed(d) && WellFormed(e) ==>
              (Digest(hash, d, a) == Digest(hash, e, b) <==> d == e && Normal(a) == Normal(b))
  {
    hide Print, Normal, Supported, Bytes, Scalars, WellFormed;
    CanonicalTextIdentifies(a, b);
    BytesIdentify(d, e);
    PrintSound(a);
    PrintSound(b);
    BytesIdentify(Print(a), Print(b));
    if Digest(hash, d, a) == Digest(hash, e, b) {
      var x, y := Bytes(Print(a)), Bytes(Print(b));
      SplitBytes(Bytes(VERSION), Bytes(VERSION), Bytes(d) + ([0] + x), Bytes(e) + ([0] + y));
      BytesWithoutNul(Print(a));
      BytesWithoutNul(Print(b));
      ValueNotLonger(Bytes(d), Bytes(e), x, y);
      ValueNotLonger(Bytes(e), Bytes(d), y, x);
      SplitBytes(Bytes(d), Bytes(e), [0] + x, [0] + y);
      SplitBytes([0], [0], x, y);
    }
  }

  /** Two different domains, each one lone surrogate, that no hash tells apart. */
  lemma LoneSurrogatesCollide(hash: Hash, v: Json)
    ensures var d: Text, e: Text := [0xD800], [0xD801];
            d != e && !WellFormed(d) && !WellFormed(e) && Digest(hash, d, v) == Digest(hash, e, v)
  {
    hide Print, Encode;
    var d: Text, e: Text := [0xD800], [0xD801];
    assert d[1..] == [] && e[1..] == [];
    assert d[0] != e[0];
    assert Scalars(d) == [REPLACEMENT] == Scalars(e);
  }

  // ----------------------------------------------------------------------- fingerprints

  datatype Scope = Scope(
    subject: Text,
    verifierType: Text,
    verifierVersion: Text,
    environment: Option<Text>,
    dependencies: seq<Text>,
    policyVersion: Option<Text>)

  function InsertText(t: Text, sorted: seq<Text>): seq<Text> {
    if sorted == [] || !TextLess(sorted[0], t) then [t] + sorted
    else [sorted[0]] + InsertText(t, sorted[1..])
  }

  function SortTexts(texts: seq<Text>): seq<Text> {
    if texts == [] then [] else InsertText(texts[0], SortTexts(texts[1..]))
  }

  predicate Ascending(texts: seq<Text>) {
    forall i, j :: 0 <= i < j < |texts| ==> !TextLess(texts[j], texts[i])
  }

  lemma {:induction false} InsertMembers(t: Text, sorted: seq<Text>)
    ensures multiset(InsertText(t, sorted)) == multiset(sorted) + multiset{t}
  {
    hide TextLess;
    if sorted != [] && TextLess(sorted[0], t) {
      assert sorted == [sorted[0]] + sorted[1..];
      InsertMembers(t, sorted[1..]);
    }
  }

  lemma {:induction false} InsertAscending(t: Text, sorted: seq<Text>)
    requires Ascending(sorted)
    ensures Ascending(InsertText(t, sorted))
  {
    hide TextLess;
    if sorted == [] {
    } else if !TextLess(sorted[0], t) {
      SmallestFirst(t, sorted);
    } else {
      InsertAscending(t, sorted[1..]);
      InsertMembers(t, sorted[1..]);
      TextTotal(sorted[0], t);
      var rest := InsertText(t, sorted[1..]);
      forall j | 0 <= j < |rest| ensures !TextLess(rest[j], sorted[0]) {
        assert rest[j] in multiset(sorted[1..]) + multiset{t};
      }
    }
  }

  lemma SmallestFirst(t: Text, sorted: seq<Text>)
    requires sorted != [] && Ascending(sorted) && !TextLess(sorted[0], t)
    ensures Ascending([t] + sorted)
  {
    hide TextLess;
    forall j | 0 <= j < |sorted| ensures !TextLess(sorted[j], t) {
      if TextLess(sorted[j], t) {
        TextTotal(sorted[0], sorted[j]);
        TextTotal(sorted[0], t);
        if TextLess(sorted[0], sorted[j]) {
          TextTransitive(sorted[0], sorted[j], t);
        }
      }
    }
  }

  lemma {:induction false} SortTextsKeeps(texts: seq<Text>)
    ensures multiset(SortTexts(texts)) == multiset(texts) && Ascending(SortTexts(texts))
  {
    hide TextLess;
    if texts != [] {
      SortTextsKeeps(texts[1..]);
      InsertMembers(texts[0], SortTexts(texts[1..]));
      InsertAscending(texts[0], SortTexts(texts[1..]));
      assert texts == [texts[0]] + texts[1..];
    }
  }

  /** Sorting forgets the order and nothing else. */
  lemma {:induction false} AscendingUnique(a: seq<Text>, b: seq<Text>)
    requires Ascending(a) && Ascending(b) && multiset(a) == multiset(b)
    ensures a == b
  {
    hide TextLess, Ascending;
    assert |a| == |multiset(a)| == |multiset(b)| == |b|;
    if a != [] {
      SameFirst(a, b);
      WithoutFirst(a);
      WithoutFirst(b);
      AscendingUnique(a[1..], b[1..]);
    }
  }

  lemma WithoutFirst(a: seq<Text>)
    requires a != [] && Ascending(a)
    ensures a == [a[0]] + a[1..] && Ascending(a[1..]) && multiset(a[1..]) == multiset(a) - multiset{a[0]}
  {
    assert a == [a[0]] + a[1..];
  }

  lemma SameFirst(a: seq<Text>, b: seq<Text>)
    requires a != [] && b != [] && Ascending(a) && Ascending(b) && multiset(a) == multiset(b)
    ensures a[0] == b[0]
  {
    hide TextLess;
    assert a[0] in multiset(b) && b[0] in multiset(a);
    var i :| 0 <= i < |b| && b[i] == a[0];
    var j :| 0 <= j < |a| && a[j] == b[0];
    TextTotal(a[0], b[0]);
  }

  function TextOrNull(text: Option<Text>): Json {
    if text.Some? then String(text.value) else Null
  }

  function Strings(texts: seq<Text>): Json {
    Array(seq(|texts|, i requires 0 <= i < |texts| => String(texts[i])))
  }

  const DEPENDENCIES := Ascii("dependencyDigests")
  const ENVIRONMENT := Ascii("environmentDigest")
  const POLICY := Ascii("policyVersion")
  const SUBJECT := Ascii("subjectVersionId")
  const VERIFIER_TYPE := Ascii("verifierType")
  const VERIFIER_VERSION := Ascii("verifierVersion")

  function ScopeJson(scope: Scope): Json {
    Object(map[
      DEPENDENCIES := Strings(SortTexts(scope.dependencies)),
      ENVIRONMENT := TextOrNull(scope.environment),
      POLICY := TextOrNull(scope.policyVersion),
      SUBJECT := String(scope.subject),
      VERIFIER_TYPE := String(scope.verifierType),
      VERIFIER_VERSION := String(scope.verifierVersion)])
  }

  function EvidenceFingerprint(hash: Hash, scope: Scope): nat {
    Digest(hash, Ascii("evidence-scope"), ScopeJson(scope))
  }

  lemma KeysDiffer()
    ensures DEPENDENCIES != ENVIRONMENT && DEPENDENCIES != POLICY && DEPENDENCIES != SUBJECT
    ensures DEPENDENCIES != VERIFIER_TYPE && DEPENDENCIES != VERIFIER_VERSION
    ensures ENVIRONMENT != POLICY && ENVIRONMENT != SUBJECT && ENVIRONMENT != VERIFIER_TYPE
    ensures ENVIRONMENT != VERIFIER_VERSION && POLICY != SUBJECT && POLICY != VERIFIER_TYPE
    ensures POLICY != VERIFIER_VERSION && SUBJECT != VERIFIER_TYPE && SUBJECT != VERIFIER_VERSION
    ensures VERIFIER_TYPE != VERIFIER_VERSION
  {
    assert DEPENDENCIES[0] == 100 && ENVIRONMENT[0] == 101;
  }

  lemma ScopeFields(scope: Scope)
    ensures var f := ScopeJson(scope).fields;
            && DEPENDENCIES in f && f[DEPENDENCIES] == Strings(SortTexts(scope.dependencies))
            && ENVIRONMENT in f && f[ENVIRONMENT] == TextOrNull(scope.environment)
            && POLICY in f && f[POLICY] == TextOrNull(scope.policyVersion)
            && SUBJECT in f && f[SUBJECT] == String(scope.subject)
            && VERIFIER_TYPE in f && f[VERIFIER_TYPE] == String(scope.verifierType)
            && VERIFIER_VERSION in f && f[VERIFIER_VERSION] == String(scope.verifierVersion)
  {
    hide Ascii, SortTexts, Strings, TextOrNull;
    KeysDiffer();
  }

  /** The names the fields are hashed under, and their values; dependencies come in ascending order. */
  lemma ScopeSpelled(scope: Scope)
    ensures var f := ScopeJson(scope).fields;
            && f.Keys == {Ascii("dependencyDigests"), Ascii("environmentDigest"), Ascii("policyVersion"),
                          Ascii("subjectVersionId"), Ascii("verifierType"), Ascii("verifierVersion")}
            && f[Ascii("subjectVersionId")] == String(scope.subject)
            && f[Ascii("verifierType")] == String(scope.verifierType)
            && f[Ascii("verifierVersion")] == String(scope.verifierVersion)
            && f[Ascii("environmentDigest")]
               == (if scope.environment == None then Null else String(scope.environment.value))
            && f[Ascii("policyVersion")]
               == (if scope.policyVersion == None then Null else String(scope.policyVersion.value))
            && f[Ascii("dependencyDigests")].Array?
            && exists sorted ::
                 && multiset(sorted) == multiset(scope.dependencies) && Ascending(sorted)
                 && f[Ascii("dependencyDigests")] == Strings(sorted)
  {
    hide SortTexts, Ascending;
    SortTextsKeeps(scope.dependencies);
    ScopeFields(scope);
  }

  /** A fingerprint is the hash of the version, the domain and the scope's text, separated by zero bytes. */
  lemma FingerprintHashes(hash: Hash, scope: Scope)
    ensures EvidenceFingerprint(hash, scope)
         == hash(AsciiBytes("arcdb-canonical-v1") + [0] + AsciiBytes("evidence-scope") + [0]
                 + Bytes(Print(ScopeJson(scope))))
  {
    hide Print, ScopeJson, Bytes;
    PlainBytes(VERSION);
    PlainBytes(Ascii("evidence-scope"));
    assert Bytes(VERSION) == AsciiBytes("arcdb-canonical-v1") + [0];
    assert Bytes(Ascii("evidence-scope")) == AsciiBytes("evidence-scope");
    assert Preimage(Ascii("evidence-scope"), ScopeJson(scope))
        == AsciiBytes("arcdb-canonical-v1") + [0] + AsciiBytes("evidence-scope") + [0] + Bytes(Print(ScopeJson(scope)));
  }

  predicate Plain(v: Json) {
    Supported(v) && Normal(v) == v
  }

  lemma StringsPlain(texts: seq<Text>)
    ensures Plain(Strings(texts))
  {
    var items := Strings(texts).items;
    assert forall i :: 0 <= i < |items| ==> Item(items[i]) && !items[i].Hole?;
    assert |items| == 1 ==> items[0] != Hole;
    NormalArray(items);
    assert seq(|items|, i requires 0 <= i < |items| => Normal(items[i])) == items;
  }

  lemma ScopePlain(scope: Scope)
    ensures Plain(ScopeJson(scope))
  {
    hide Ascii, SortTexts, Strings;
    StringsPlain(SortTexts(scope.dependencies));
    var fields := ScopeJson(scope).fields;
    forall k | k in fields ensures Plain(fields[k]) {
    }
    assert (map k | k in fields :: Normal(fields[k])) == fields;
  }

  lemma SameStrings(a: seq<Text>, b: seq<Text>)
    requires Strings(a) == Strings(b)
    ensures a == b
  {
    var x, y := Strings(a).items, Strings(b).items;
    forall i | 0 <= i < |a| ensures a[i] == b[i] {
      assert x[i] == y[i];
    }
  }

  lemma SameScopes(s: Scope, t: Scope)
    ensures ScopeJson(s) == ScopeJson(t)
       <==> s == t.(dependencies := s.dependencies) && multiset(s.dependencies) == multiset(t.dependencies)
  {
    hide Ascii, SortTexts, Strings;
    SortTextsKeeps(s.dependencies);
    SortTextsKeeps(t.dependencies);
    if ScopeJson(s) == ScopeJson(t) {
      ScopeFields(s);
      ScopeFields(t);
      SameStrings(SortTexts(s.dependencies), SortTexts(t.dependencies));
    } else if multiset(s.dependencies) == multiset(t.dependencies) {
      AscendingUnique(SortTexts(s.dependencies), SortTexts(t.dependencies));
    }
  }

  /** Two records carry one fingerprint exactly when their scopes agree, dependencies in any order. */
  lemma FingerprintIdentifies(hash: Hash, s: Scope, t: Scope)
    requires CollisionFree(hash)
    ensures EvidenceFingerprint(hash, s) == EvidenceFingerprint(hash, t)
       <==> s == t.(dependencies := s.dependencies) && multiset(s.dependencies) == multiset(t.dependencies)
  {
    hide Digest, SortTexts, ScopeJson, Normal, Supported;
    SameScopes(s, t);
    ScopePlain(s);
    ScopePlain(t);
    DigestIdentifies(hash, Ascii("evidence-scope"), Ascii("evidence-scope"), ScopeJson(s), ScopeJson(t));
  }
}
