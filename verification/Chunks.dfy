/** Splitting bytes into chunks, and putting them back together. */
module Chunks {
  type Byte = x: int | 0 <= x < 256
  type Bytes = seq<Byte>

  function Flatten(parts: seq<Bytes>): Bytes {
    if parts == [] then [] else Flatten(parts[..|parts| - 1]) + parts[|parts| - 1]
  }

  function Split(bytes: Bytes, size: nat): seq<Bytes>
    requires size > 0
  {
    if bytes == [] then []
    else if |bytes| <= size then [bytes]
    else [bytes[..size]] + Split(bytes[size..], size)
  }

  /** The chunks of an artifact: full ones and a remainder, and one empty chunk for nothing at all. */
  function ChunksOf(bytes: Bytes, size: nat): seq<Bytes>
    requires size > 0
  {
    if bytes == [] then [[]] else Split(bytes, size)
  }

  lemma {:induction false} FlattenConcat(a: seq<Bytes>, b: seq<Bytes>)
    ensures Flatten(a + b) == Flatten(a) + Flatten(b)
  {
    if b == [] {
      assert a + b == a;
    } else {
      var init, last := b[..|b| - 1], b[|b| - 1];
      assert a + b == (a + init) + [last];
      FlattenConcat(a, init);
    }
  }

  lemma FlattenOne(part: Bytes)
    ensures Flatten([part]) == part
  {
    assert Flatten([]) == [];
  }

  lemma {:induction false} SplitFlattens(bytes: Bytes, size: nat)
    requires size > 0
    ensures Flatten(Split(bytes, size)) == bytes
  {
    if 0 < |bytes| <= size {
      FlattenOne(bytes);
    } else if bytes != [] {
      SplitFlattens(bytes[size..], size);
      FlattenConcat([bytes[..size]], Split(bytes[size..], size));
      FlattenOne(bytes[..size]);
      assert bytes == bytes[..size] + bytes[size..];
    }
  }

  /** However bytes are chunked, the chunks flatten back to the bytes. */
  lemma ChunksFlatten(bytes: Bytes, size: nat)
    requires size > 0
    ensures Flatten(ChunksOf(bytes, size)) == bytes
  {
    SplitFlattens(bytes, size);
    FlattenOne([]);
  }

  predicate Full(parts: seq<Bytes>, size: nat) {
    forall k :: 0 <= k < |parts| ==> |parts[k]| == size
  }

  /** Full chunks in front of a short remainder are exactly what `Split` produces. */
  lemma {:induction false} SplitOfFull(parts: seq<Bytes>, rest: Bytes, size: nat)
    requires size > 0 && Full(parts, size) && |rest| < size
    ensures Split(Flatten(parts) + rest, size) == parts + if rest == [] then [] else [rest]
  {
    if parts == [] {
      assert Flatten(parts) + rest == rest;
    } else {
      var first, more := parts[0], parts[1..];
      assert parts == [first] + more;
      FlattenConcat([first], more);
      FlattenOne(first);
      var bytes := Flatten(parts) + rest;
      var tail := Flatten(more) + rest;
      assert bytes == first + tail;
      assert bytes[..size] == first && bytes[size..] == tail;
      SplitOfFull(more, rest, size);
      if tail == [] {
        assert bytes == first;
        assert Split(tail, size) == [];
      }
    }
  }

  lemma {:induction false} FlattenPrefix(parts: seq<Bytes>, k: nat)
    requires k <= |parts|
    ensures Flatten(parts[..k]) <= Flatten(parts)
  {
    assert parts == parts[..k] + parts[k..];
    FlattenConcat(parts[..k], parts[k..]);
  }

  /** All chunks but the last are full, and the last one is neither empty nor larger, unless there is nothing at all. */
  lemma {:induction false} ChunkSizes(bytes: Bytes, size: nat)
    requires size > 0
    ensures var chunks := ChunksOf(bytes, size);
            && chunks != []
            && Full(chunks[..|chunks| - 1], size)
            && (if bytes == [] then chunks == [[]] else 0 < |chunks[|chunks| - 1]| <= size)
  {
    if |bytes| > size {
      ChunkSizes(bytes[size..], size);
      var more := ChunksOf(bytes[size..], size);
      var chunks := ChunksOf(bytes, size);
      assert chunks == [bytes[..size]] + more;
      assert chunks[..|chunks| - 1] == [bytes[..size]] + more[..|more| - 1];
    }
  }
}
