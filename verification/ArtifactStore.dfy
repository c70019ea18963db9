/**
  The content-addressed artifact store (packages/artifacts/src/s3-store.ts) over an object store with
  put-if-absent. The hash and the manifest encoding are parameters.
 */
module ArtifactStore {
  import opened Tables
  import opened Chunks

  type TenantId = nat
  type Digest = nat

  datatype Key = ChunkKey(tenant: TenantId, digest: Digest) | ManifestKey(tenant: TenantId, digest: Digest)

  datatype Object = Object(bytes: Bytes, modified: int)

  datatype ChunkRef = ChunkRef(digest: Digest, length: nat)

  /** `details` stands for the type, media type, names and metadata. */
  datatype Manifest = Manifest(
    tenant: TenantId, byteLength: nat, original: Digest, chunks: seq<ChunkRef>, details: nat)

  datatype Ref = Ref(tenant: TenantId, digest: Digest)

  datatype Failure = NotFound | Corrupt | TooLarge

  /** The largest body that is collected in memory: a manifest, or one side of a diff. */
  const COLLECT_LIMIT := 16 * 1024 * 1024

  const MIN_CHUNK := 64 * 1024
  const MAX_CHUNK := 64 * 1024 * 1024

  type Hash = Bytes -> Digest
  type Encoder = Manifest -> Bytes
  type Decoder = Bytes -> Option<Manifest>

  ghost predicate CollisionFree(hash: Hash) {
    forall a, b :: hash(a) == hash(b) ==> a == b
  }

  ghost predicate RoundTrips(encode: Encoder, decode: Decoder) {
    forall m :: decode(encode(m)) == Some(m)
  }

  function ChunkRefs(hash: Hash, parts: seq<Bytes>): (refs: seq<ChunkRef>)
    ensures |refs| == |parts|
    ensures forall k :: 0 <= k < |parts| ==> refs[k] == ChunkRef(hash(parts[k]), |parts[k]|)
  {
    seq(|parts|, k requires 0 <= k < |parts| => ChunkRef(hash(parts[k]), |parts[k]|))
  }

  /** A manifest describes the bytes of some parts. */
  ghost predicate Describes(hash: Hash, m: Manifest, parts: seq<Bytes>) {
    && m.chunks == ChunkRefs(hash, parts)
    && m.byteLength == |Flatten(parts)|
    && m.original == hash(Flatten(parts))
  }

  /** The manifest of some content: it depends on the bytes and the options, not on how they arrived. */
  function ManifestOf(hash: Hash, tenant: TenantId, size: nat, content: Bytes, details: nat): Manifest
    requires size > 0
  {
    Manifest(tenant, |content|, hash(content), ChunkRefs(hash, ChunksOf(content, size)), details)
  }

  lemma ManifestDescribes(hash: Hash, tenant: TenantId, size: nat, content: Bytes, details: nat)
    requires size > 0
    ensures Describes(hash, ManifestOf(hash, tenant, size, content, details), ChunksOf(content, size))
    ensures Flatten(ChunksOf(content, size)) == content
  {
    ChunksFlatten(content, size);
  }

  /** A listed chunk takes at least the 64 hexadecimal digits of its digest. */
  ghost predicate SpellsDigests(encode: Encoder) {
    forall m :: |encode(m)| >= 64 * |m.chunks|
  }

  lemma {:induction false} ChunksNeeded(bytes: Bytes, size: nat)
    requires size > 0
    ensures |bytes| <= |Split(bytes, size)| * size
  {
    if |bytes| > size {
      ChunksNeeded(bytes[size..], size);
    }
  }

  /**
    Content of more than 262,144 chunks, 16 GiB in the smallest ones, has a manifest above the limit: `PutBytes`
    stores it intact, and `Read` refuses it.
   */
  lemma ManifestTooLarge(hash: Hash, encode: Encoder, tenant: TenantId, size: nat, content: Bytes, details: nat)
    requires SpellsDigests(encode) && size > 0 && |content| > 262_144 * size
    ensures |encode(ManifestOf(hash, tenant, size, content, details))| > COLLECT_LIMIT
  {
    ChunksNeeded(content, size);
  }

  class S3ArtifactStore {
    const hash: Hash
    const encode: Encoder
    const decode: Decoder
    var objects: map<Key, Object>

    constructor (hash: Hash, encode: Encoder, decode: Decoder)
      ensures this.hash == hash && this.encode == encode && this.decode == decode && objects == map[]
    {
      this.hash, this.encode, this.decode, this.objects := hash, encode, decode, map[];
    }

    // ------------------------------------------------------------------------ writing

    /** Every object lies under the digest of its bytes. */
    ghost predicate Addressed()
      reads this
    {
      forall key :: key in objects ==> hash(objects[key].bytes) == key.digest
    }

    /** A write changes nothing that was there. */
    twostate predicate Extends()
      reads this
    {
      && (forall key :: key in old(objects) ==> key in objects && objects[key] == old(objects[key]))
      && (old(Addressed()) ==> Addressed())
    }

    /** Put-if-absent: a precondition failure means the object is there, and is not an error. */
    method PutImmutable(key: Key, bytes: Bytes, now: int)
      requires key.digest == hash(bytes)
      modifies this
      ensures Extends() && key in objects
      ensures objects == if key in old(objects) then old(objects) else old(objects)[key := Object(bytes, now)]
    {
      if key !in objects {
        objects := objects[key := Object(bytes, now)];
      }
    }

    ghost predicate HoldsChunks(tenant: TenantId, parts: seq<Bytes>)
      reads this
    {
      forall k :: 0 <= k < |parts| ==> ChunkKey(tenant, hash(parts[k])) in objects
    }

    method Persist(tenant: TenantId, bytes: Bytes, now: int, chunks: seq<ChunkRef>, ghost parts: seq<Bytes>)
      returns (more: seq<ChunkRef>)
      requires chunks == ChunkRefs(hash, parts) && HoldsChunks(tenant, parts)
      modifies this
      ensures Extends() && HoldsChunks(tenant, parts + [bytes])
      ensures more == ChunkRefs(hash, parts + [bytes])
    {
      PutImmutable(ChunkKey(tenant, hash(bytes)), bytes, now);
      more := chunks + [ChunkRef(hash(bytes), |bytes|)];
    }

    /** Takes full chunks off the front of the pending bytes. */
    method Drain(tenant: TenantId, size: nat, now: int, pending: Bytes, chunks: seq<ChunkRef>, ghost parts: seq<Bytes>)
      returns (rest: Bytes, more: seq<ChunkRef>, ghost done: seq<Bytes>)
      requires size > 0 && chunks == ChunkRefs(hash, parts) && HoldsChunks(tenant, parts) && Full(parts, size)
      modifies this
      ensures Extends() && HoldsChunks(tenant, done) && more == ChunkRefs(hash, done)
      ensures Full(done, size) && |rest| < size && Flatten(done) + rest == Flatten(parts) + pending
    {
      rest, more, done := pending, chunks, parts;
      while |rest| >= size
        invariant Extends() && HoldsChunks(tenant, done) && more == ChunkRefs(hash, done)
        invariant Full(done, size) && Flatten(done) + rest == Flatten(parts) + pending
      {
        more := Persist(tenant, rest[..size], now, more, done);
        FlattenConcat(done, [rest[..size]]);
        FlattenOne(rest[..size]);
        assert rest == rest[..size] + rest[size..];
        done := done + [rest[..size]];
        rest := rest[size..];
      }
    }

    /** Chunks a stream of any granularity; the staged manifest depends only on the bytes in it. */
    method PutStream(tenant: TenantId, size: nat, input: seq<Bytes>, details: nat, now: int)
      returns (staged: Option<Manifest>)
      modifies this
      ensures Extends()
      ensures staged.Some? <==> 0x1_0000 <= size <= 0x400_0000
      ensures staged.None? ==> objects == old(objects)
      ensures staged.Some? ==>
                && staged.value == ManifestOf(hash, tenant, size, Flatten(input), details)
                && HoldsChunks(tenant, ChunksOf(Flatten(input), size))
    {
      if size < MIN_CHUNK || MAX_CHUNK < size {
        return None;
      }
      var chunks: seq<ChunkRef>, pending: Bytes, seen: Bytes := [], [], [];
      ghost var parts: seq<Bytes> := [];
      assert Flatten(input[..0]) == [];
      for k := 0 to |input|
        invariant Extends() && HoldsChunks(tenant, parts) && chunks == ChunkRefs(hash, parts)
        invariant Full(parts, size) && |pending| < size
        invariant seen == Flatten(input[..k]) == Flatten(parts) + pending
      {
        assert input[..k + 1][..k] == input[..k];
        seen := seen + input[k];
        pending, chunks, parts := Drain(tenant, size, now, pending + input[k], chunks, parts);
      }
      assert input[..|input|] == input;
      SplitOfFull(parts, pending, size);
      if |pending| > 0 || |chunks| == 0 {
        chunks := Persist(tenant, pending, now, chunks, parts);
        parts := parts + [pending];
      }
      staged := Some(Manifest(tenant, |seen|, hash(seen), chunks, details));
    }

    method Finalize(staged: Manifest, now: int) returns (ref: Ref)
      modifies this
      ensures Extends() && ref == RefOf(staged)
      ensures ManifestKey(ref.tenant, ref.digest) in objects
    {
      var bytes := encode(staged);
      PutImmutable(ManifestKey(staged.tenant, hash(bytes)), bytes, now);
      ref := Ref(staged.tenant, hash(bytes));
    }

    function RefOf(m: Manifest): Ref {
      Ref(m.tenant, hash(encode(m)))
    }

    // ------------------------------------------------------------------------ reading

    method GetManifest(ref: Ref) returns (result: Option<Manifest>, failure: Failure)
      ensures result.Some? ==> decode(BytesAt(ManifestKey(ref.tenant, ref.digest))) == result
      ensures result.Some? <==> CanParse(ref)
      ensures result.Some? ==>
                && result.value.tenant == ref.tenant && hash(BytesAt(ManifestKey(ref.tenant, ref.digest))) == ref.digest
                && |BytesAt(ManifestKey(ref.tenant, ref.digest))| <= 0x100_0000
      ensures ManifestKey(ref.tenant, ref.digest) !in objects <==> result.None? && failure == NotFound
      ensures result.None? ==>
                failure == (if ManifestKey(ref.tenant, ref.digest) !in objects then NotFound
                            else if |BytesAt(ManifestKey(ref.tenant, ref.digest))| > COLLECT_LIMIT then TooLarge
                            else Corrupt)
    {
      failure := Corrupt;
      var key := ManifestKey(ref.tenant, ref.digest);
      if key !in objects {
        return None, NotFound;
      }
      var bytes := objects[key].bytes;
      if |bytes| > COLLECT_LIMIT {
        return None, TooLarge;
      }
      if hash(bytes) != ref.digest {
        return None, Corrupt;
      }
      result := decode(bytes);
      if result.Some? && result.value.tenant != ref.tenant {
        result := None;
      }
    }

    function BytesAt(key: Key): Bytes
      reads this
    {
      if key in objects then objects[key].bytes else []
    }

    predicate CanParse(ref: Ref)
      reads this
    {
      var key := ManifestKey(ref.tenant, ref.digest);
      && key in objects
      && |BytesAt(key)| <= COLLECT_LIMIT
      && hash(BytesAt(key)) == ref.digest
      && decode(BytesAt(key)).Some?
      && decode(BytesAt(key)).value.tenant == ref.tenant
    }

    /** The objects behind a reference are there, with the right bytes. */
    ghost predicate Intact(m: Manifest, parts: seq<Bytes>)
      reads this
    {
      && ManifestKey(m.tenant, RefOf(m).digest) in objects
      && BytesAt(ManifestKey(m.tenant, RefOf(m).digest)) == encode(m)
      && forall k :: 0 <= k < |parts| ==>
           var key := ChunkKey(m.tenant, hash(parts[k]));
           key in objects && BytesAt(key) == parts[k]
    }

    ghost predicate Names(ref: Ref, m: Manifest, parts: seq<Bytes>) {
      ref == RefOf(m) && Describes(hash, m, parts)
    }

    /** A verified chunk of a described artifact is the part it describes. */
    lemma VerifiedChunk(m: Manifest, parts: seq<Bytes>, k: nat, bytes: Bytes)
      requires CollisionFree(hash) && Describes(hash, m, parts) && k < |m.chunks|
      requires hash(bytes) == m.chunks[k].digest
      ensures k < |parts| && bytes == parts[k]
      ensures Flatten(parts[..k + 1]) == Flatten(parts[..k]) + bytes && Flatten(parts[..k + 1]) <= Flatten(parts)
    {
      assert parts[..k + 1][..k] == parts[..k];
      FlattenPrefix(parts, k + 1);
    }

    lemma OneManifest(m: Manifest, found: Manifest, ref: Ref)
      requires CollisionFree(hash) && RoundTrips(encode, decode) && ref == RefOf(m)
      requires CanParse(ref) && decode(BytesAt(ManifestKey(ref.tenant, ref.digest))) == Some(found)
      ensures found == m
    {
    }

    lemma IntactManifest(m: Manifest, parts: seq<Bytes>)
      requires RoundTrips(encode, decode) && Intact(m, parts)
      ensures CanParse(RefOf(m)) <==> |encode(m)| <= COLLECT_LIMIT
    {
    }

    lemma IntactChunk(m: Manifest, parts: seq<Bytes>, k: nat)
      requires Intact(m, parts) && Describes(hash, m, parts) && k < |m.chunks|
      ensures var key := ChunkKey(m.tenant, m.chunks[k].digest);
              && key in objects && |BytesAt(key)| == m.chunks[k].length
              && hash(BytesAt(key)) == m.chunks[k].digest
    {
    }

    /** What is wrong with the first chunk that is not stored as the manifest lists it. */
    function FirstTrouble(tenant: TenantId, chunks: seq<ChunkRef>): Option<Failure>
      reads this
    {
      if chunks == [] then None
      else
        var earlier, chunk := FirstTrouble(tenant, chunks[..|chunks| - 1]), chunks[|chunks| - 1];
        var key := ChunkKey(tenant, chunk.digest);
        if earlier.Some? then earlier
        else if key in objects && |BytesAt(key)| == chunk.length && hash(BytesAt(key)) == chunk.digest then None
        else if key in objects && |BytesAt(key)| >= chunk.length + 2 then Some(TooLarge)
        else Some(Corrupt)
    }

    lemma NoTrouble(tenant: TenantId)
      ensures FirstTrouble(tenant, []).None?
    {
    }

    /** Behind chunks without trouble, the next one decides. */
    lemma TroubleAt(tenant: TenantId, chunks: seq<ChunkRef>, k: nat)
      requires k < |chunks| && FirstTrouble(tenant, chunks[..k]).None?
      ensures var key := ChunkKey(tenant, chunks[k].digest);
              var large := key in objects && |BytesAt(key)| >= chunks[k].length + 2;
              if key in objects && |BytesAt(key)| == chunks[k].length && hash(BytesAt(key)) == chunks[k].digest
              then FirstTrouble(tenant, chunks[..k + 1]).None?
              else FirstTrouble(tenant, chunks) == Some(if large then TooLarge else Corrupt)
    {
      assert chunks[..k + 1][..k] == chunks[..k];
      if FirstTrouble(tenant, chunks[..k + 1]).Some? {
        TroubleStays(tenant, chunks, k + 1);
      }
    }

    lemma TroubleStays(tenant: TenantId, chunks: seq<ChunkRef>, k: nat)
      requires k <= |chunks| && FirstTrouble(tenant, chunks[..k]).Some?
      ensures FirstTrouble(tenant, chunks) == FirstTrouble(tenant, chunks[..k])
      decreases |chunks|
    {
      if k == |chunks| {
        assert chunks[..k] == chunks;
      } else {
        assert chunks[..|chunks| - 1][..k] == chunks[..k];
        TroubleStays(tenant, chunks[..|chunks| - 1], k);
      }
    }

    /**
      Streams an artifact, verifying each chunk before it is yielded. On any store, however corrupted, what
      a reference to some content yields is a prefix of that content, and success yields all of it. On an
      intact store it succeeds exactly when the manifest itself fits the limit on collected bodies.
     */
    method Read(ref: Ref, ghost m: Manifest, ghost parts: seq<Bytes>) returns (yielded: Bytes, failure: Option<Failure>)
      requires CollisionFree(hash) && RoundTrips(encode, decode)
      ensures ref == RefOf(m) && Describes(hash, m, parts) ==>
                && yielded <= Flatten(parts)
                && (failure.None? ==> yielded == Flatten(parts))
                && (Intact(m, parts) ==> (failure.None? <==> |encode(m)| <= 0x100_0000))
      ensures failure == Some(NotFound) <==> ManifestKey(ref.tenant, ref.digest) !in objects
      ensures CanParse(ref) ==>
                var trouble := FirstTrouble(ref.tenant, decode(BytesAt(ManifestKey(ref.tenant, ref.digest))).value.chunks);
                if trouble.Some? then failure == trouble else failure in {None, Some(Corrupt)}
    {
      hide Intact, CanParse, Describes, CollisionFree, RoundTrips, FirstTrouble;
      ghost var known := ref == RefOf(m) && Describes(hash, m, parts);
      yielded := [];
      var manifest, why := GetManifest(ref);
      if known && Intact(m, parts) {
        IntactManifest(m, parts);
      }
      if manifest.None? {
        return [], Some(why);
      }
      var found := manifest.value;
      if known {
        OneManifest(m, found, ref);
      }
      assert parts[..0] == [];
      NoTrouble(ref.tenant);
      for k := 0 to |found.chunks|
        invariant FirstTrouble(ref.tenant, found.chunks[..k]).None?
        invariant known ==> k <= |parts| && yielded == Flatten(parts[..k]) && yielded <= Flatten(parts)
      {
        var chunk := found.chunks[k];
        var key := ChunkKey(ref.tenant, chunk.digest);
        TroubleAt(ref.tenant, found.chunks, k);
        if known && Intact(m, parts) {
          IntactChunk(m, parts, k);
        }
        if key !in objects {
          return yielded, Some(Corrupt);
        }
        var bytes := objects[key].bytes;
        if |bytes| > chunk.length + 1 {
          return yielded, Some(TooLarge);
        }
        if |bytes| != chunk.length || hash(bytes) != chunk.digest {
          return yielded, Some(Corrupt);
        }
        if known {
          VerifiedChunk(m, parts, k, bytes);
        }
        yielded := yielded + bytes;
      }
      assert found.chunks[..|found.chunks|] == found.chunks;
      if known {
        WholeArtifact(m, parts);
      }
      if |yielded| != found.byteLength || hash(yielded) != found.original {
        return yielded, Some(Corrupt);
      }
      failure := None;
    }

    lemma WholeArtifact(m: Manifest, parts: seq<Bytes>)
      requires Describes(hash, m, parts)
      ensures |m.chunks| == |parts| && parts[..|parts|] == parts
      ensures m.byteLength == |Flatten(parts)| && m.original == hash(Flatten(parts))
    {
    }

    // --------------------------------------------------------------------- round trip

    /** In an addressed store, objects lie where they are looked for only with the right bytes. */
    lemma AddressedIsIntact(m: Manifest, parts: seq<Bytes>)
      requires CollisionFree(hash) && Addressed() && HoldsChunks(m.tenant, parts)
      requires ManifestKey(m.tenant, RefOf(m).digest) in objects
      ensures Intact(m, parts)
    {
    }

    /** putBytes: stage, then finalize; the reference then reads back as the bytes that were put. */
    method PutBytes(tenant: TenantId, size: nat, input: seq<Bytes>, details: nat, now: int) returns (ref: Option<Ref>)
      requires CollisionFree(hash) && Addressed()
      modifies this
      ensures Addressed() && Extends()
      ensures ref.Some? <==> 0x1_0000 <= size <= 0x400_0000
      ensures ref.Some? ==>
                var m := ManifestOf(hash, tenant, size, Flatten(input), details);
                var parts := ChunksOf(Flatten(input), size);
                && ref.value == RefOf(m) && Describes(hash, m, parts) && Intact(m, parts)
                && Flatten(parts) == Flatten(input)
    {
      hide Intact, CollisionFree;
      var staged := PutStream(tenant, size, input, details, now);
      if staged.None? {
        return None;
      }
      var finalized := Finalize(staged.value, now);
      ManifestDescribes(hash, tenant, size, Flatten(input), details);
      AddressedIsIntact(staged.value, ChunksOf(Flatten(input), size));
      ref := Some(finalized);
    }

    // -------------------------------------------------------------- garbage collection

    /** A chunk that a stored manifest of the tenant lists. */
    ghost predicate Reachable(tenant: TenantId, digest: Digest)
      reads this
    {
      exists key :: key in objects && key.ManifestKey? && key.tenant == tenant && Lists(key, digest)
    }

    predicate Lists(key: Key, digest: Digest)
      reads this
    {
      && Parses(key)
      && exists k :: 0 <= k < |decode(BytesAt(key)).value.chunks| && decode(BytesAt(key)).value.chunks[k].digest == digest
    }

    /** Listing reads manifests without checking their digests; one that does not parse stops the pass. */
    predicate Parses(key: Key)
      reads this
    {
      && |BytesAt(key)| <= COLLECT_LIMIT
      && decode(BytesAt(key)).Some?
      && decode(BytesAt(key)).value.tenant == key.tenant
    }

    /** It stops at a manifest that is too large, does not decode, or belongs to somebody else. */
    lemma ParsesExactly(key: Key)
      requires key in objects
      ensures !Parses(key) <==>
                || |objects[key].bytes| > 0x100_0000
                || decode(objects[key].bytes).None?
                || decode(objects[key].bytes).value.tenant != key.tenant
    {
    }

    ghost predicate Doomed(tenant: TenantId, cutoff: int, key: Key)
      reads this
    {
      && key in objects && key.ChunkKey? && key.tenant == tenant
      && !Reachable(tenant, key.digest) && objects[key].modified < cutoff
    }

    method ScanManifests(tenant: TenantId) returns (reachable: Option<set<Digest>>)
      ensures reachable.None? <==> exists key :: key in objects && key.ManifestKey? && key.tenant == tenant && !Parses(key)
      ensures reachable.Some? ==> forall d :: d in reachable.value <==> Reachable(tenant, d)
    {
      var keys := set key | key in objects && key.ManifestKey? && key.tenant == tenant;
      var rest, found := keys, {};
      while rest != {}
        invariant rest <= keys
        invariant forall key :: key in keys && key !in rest ==> Parses(key)
        invariant forall d :: d in found <==> exists key :: key in keys && key !in rest && Lists(key, d)
        decreases rest
      {
        var key :| key in rest;
        rest := rest - {key};
        if !Parses(key) {
          return None;
        }
        var chunks := decode(BytesAt(key)).value.chunks;
        found := found + set k | 0 <= k < |chunks| :: chunks[k].digest;
      }
      reachable := Some(found);
    }

    /**
      One pass. It deletes exactly the old unreachable chunks of its tenant, and whatever artifact was intact
      stays intact. The answer is the number of chunks scanned and deleted, or none when a
      manifest is unreadable.
     */
    method CollectGarbage(tenant: TenantId, cutoff: int, dryRun: bool, ghost m: Manifest, ghost parts: seq<Bytes>)
      returns (report: Option<(nat, nat)>)
      requires RoundTrips(encode, decode)
      modifies this
      ensures report.None? ==> objects == old(objects)
      ensures report.None? <==>
                old(exists key :: key in objects && key.ManifestKey? && key.tenant == tenant && !Parses(key))
      ensures forall key :: key in objects ==> key in old(objects) && objects[key] == old(objects[key])
      ensures report.Some? ==>
                forall key :: key in old(objects) ==>
                  (key !in objects <==> !dryRun && old(Doomed(tenant, cutoff, key)))
      ensures report.Some? ==>
                && report.value.0 == |set key | key in old(objects) && key.ChunkKey? && key.tenant == tenant|
                && report.value.1 == |old(objects).Keys - objects.Keys|
      ensures Describes(hash, m, parts) && old(Intact(m, parts)) ==> Intact(m, parts)
    {
      hide Lists, Parses, RoundTrips, Describes;
      ghost var known := Describes(hash, m, parts) && Intact(m, parts);
      var reachable := ScanManifests(tenant);
      if reachable.None? {
        return None;
      }
      var scanned := set key | key in objects && key.ChunkKey? && key.tenant == tenant;
      var candidates := set key | key in scanned && key.digest !in reachable.value && objects[key].modified < cutoff;
      if dryRun {
        assert objects.Keys - objects.Keys == {};
        return Some((|scanned|, 0));
      }
      if known && m.tenant == tenant {
        IntactIsReachable(tenant, reachable.value, m, parts);
      }
      ghost var all := objects;
      objects := objects - candidates;
      assert all.Keys - objects.Keys == candidates;
      report := Some((|scanned|, |candidates|));
    }

    /** The chunks of an intact artifact of the tenant are among those its readable manifests list. */
    lemma IntactIsReachable(tenant: TenantId, reachable: set<Digest>, m: Manifest, parts: seq<Bytes>)
      requires RoundTrips(encode, decode) && Describes(hash, m, parts) && Intact(m, parts) && m.tenant == tenant
      requires forall d :: Reachable(tenant, d) ==> d in reachable
      requires forall key :: key in objects && key.ManifestKey? && key.tenant == tenant ==> Parses(key)
      ensures forall k :: 0 <= k < |parts| ==> hash(parts[k]) in reachable
    {
      forall k | 0 <= k < |parts| ensures hash(parts[k]) in reachable {
        assert Lists(ManifestKey(m.tenant, RefOf(m).digest), m.chunks[k].digest);
      }
    }
  }
}
