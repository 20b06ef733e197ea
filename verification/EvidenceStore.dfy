/** The forensic evidence store (app/evidence/raw_store.py): its tables, and each operation on them.

    Hashing is injective, compression is lossless, and a ciphertext opens only under the key and the
    associated data it was sealed with. */
module EvidenceStore {
  import opened Wrappers
  import opened Sorting
  import opened Merkle

  type Bytes = seq<bv8>
  type Key = nat
  type KeyId = nat
  type ScanId = nat

  datatype Crypto = Crypto(
    sha: Bytes -> Digest,
    deflate: Bytes -> Bytes,
    inflate: Bytes -> Option<Bytes>,
    pair: PairHash)

  ghost predicate Ideal(c: Crypto) {
    && (forall a, b :: c.sha(a) == c.sha(b) ==> a == b)
    && (forall a :: c.inflate(c.deflate(a)) == Some(a))
    && CollisionFree(c.pair)
  }

  datatype Aad = Aad(scan: ScanId, digest: Digest, index: nat)

  datatype Blob = Blob(key: Key, aad: Aad, payload: Bytes)

  datatype Wrapped = Wrapped(key: Key, scan: ScanId, keyId: KeyId)

  datatype KeyRow = KeyRow(scan: ScanId, keyId: KeyId, wrapped: Option<Wrapped>, active: bool, destroyed: bool)

  datatype ChunkRow = ChunkRow(index: nat, blob: Blob, plainSize: nat, compressedSize: nat, sha: Digest)

  datatype Artifact = Artifact(
    sha: Digest, size: nat, scan: ScanId, keyId: KeyId, chunkCount: nat, tombstoned: bool, chunks: seq<ChunkRow>)

  datatype RootRow = RootRow(scan: ScanId, root: Digest, leafCount: nat)

  datatype FlowRow = FlowRow(scan: ScanId, digest: Digest)

  datatype Action = Create | Access | Export | Delete | ScanSealed(root: Digest, leafCount: nat) | ScanDeleted

  datatype Custody = Custody(action: Action, scan: ScanId, digest: Digest)

  /** The tables, rows in id order. */
  datatype Store = Store(
    keys: seq<KeyRow>,
    artifacts: seq<Artifact>,
    flows: seq<FlowRow>,
    roots: seq<RootRow>,
    custody: seq<Custody>)

  datatype Error =
    | NotFound | Ambiguous | KeyMissing | KeyDestroyed | BadTag
    | CountMismatch | BadCompressedSize | BadChunk | BadContent | Integrity

  // ----- Lookups -----

  function FindArtifact(artifacts: seq<Artifact>, scan: ScanId, digest: Digest): (r: Option<nat>)
    ensures r.Some? ==> r.value < |artifacts| && artifacts[r.value].scan == scan && artifacts[r.value].sha == digest
    ensures r.None? ==> forall i | 0 <= i < |artifacts| :: !(artifacts[i].scan == scan && artifacts[i].sha == digest)
  {
    if artifacts == [] then None
    else
      var last := |artifacts| - 1;
      if artifacts[last].scan == scan && artifacts[last].sha == digest then Some(last)
      else FindArtifact(artifacts[..last], scan, digest)
  }

  function FindKey(keys: seq<KeyRow>, scan: ScanId, keyId: KeyId): (r: Option<nat>)
    ensures r.Some? ==> r.value < |keys| && keys[r.value].scan == scan && keys[r.value].keyId == keyId
    ensures r.None? ==> forall i | 0 <= i < |keys| :: !(keys[i].scan == scan && keys[i].keyId == keyId)
  {
    if keys == [] then None
    else
      var last := |keys| - 1;
      if keys[last].scan == scan && keys[last].keyId == keyId then Some(last)
      else FindKey(keys[..last], scan, keyId)
  }

  /** The newest active key of a scan. */
  function ActiveKey(keys: seq<KeyRow>, scan: ScanId): (r: Option<nat>)
    ensures r.Some? ==> r.value < |keys| && keys[r.value].scan == scan && keys[r.value].active
    ensures r.None? ==> forall i | 0 <= i < |keys| :: !(keys[i].scan == scan && keys[i].active)
  {
    if keys == [] then None
    else
      var last := |keys| - 1;
      if keys[last].scan == scan && keys[last].active then Some(last)
      else ActiveKey(keys[..last], scan)
  }

  // ----- Keys -----

  function Retired(keys: seq<KeyRow>, scan: ScanId): seq<KeyRow> {
    seq(|keys|, i requires 0 <= i < |keys| =>
      if keys[i].scan == scan && keys[i].active then keys[i].(active := false) else keys[i])
  }

  /** `ScanKeyring.rotate`: retire the active key and insert a fresh one; key ids are unique. */
  function RotateKey(s: Store, scan: ScanId, key: Key, keyId: KeyId): Result<Store, Error> {
    if exists i | 0 <= i < |s.keys| :: s.keys[i].keyId == keyId then Failure(Integrity)
    else Success(s.(keys := Retired(s.keys, scan) + [KeyRow(scan, keyId, Some(Wrapped(key, scan, keyId)), true, false)]))
  }

  function Unwrap(row: KeyRow): Result<Key, Error> {
    if row.destroyed || row.wrapped.None? then Failure(KeyDestroyed)
    else if row.wrapped.value.scan != row.scan || row.wrapped.value.keyId != row.keyId then Failure(BadTag)
    else Success(row.wrapped.value.key)
  }

  /** `ScanKeyring.ensure`: the active key, or a fresh one made with the given random values. */
  function EnsureKey(s: Store, scan: ScanId, key: Key, keyId: KeyId): Result<(Store, KeyId, Key), Error> {
    var row := ActiveKey(s.keys, scan);
    if row.Some? then
      var unwrapped := Unwrap(s.keys[row.value]);
      if unwrapped.Failure? then Failure(unwrapped.error)
      else Success((s, s.keys[row.value].keyId, unwrapped.value))
    else
      var rotated := RotateKey(s, scan, key, keyId);
      if rotated.Failure? then Failure(rotated.error) else Success((rotated.value, keyId, key))
  }

  /** `ScanKeyring.get` */
  function GetKey(s: Store, scan: ScanId, keyId: KeyId): Result<Key, Error> {
    var row := FindKey(s.keys, scan, keyId);
    if row.None? then Failure(KeyMissing) else Unwrap(s.keys[row.value])
  }

  function DestroyedKeys(keys: seq<KeyRow>, scan: ScanId): seq<KeyRow> {
    seq(|keys|, i requires 0 <= i < |keys| =>
      if keys[i].scan == scan && !keys[i].destroyed
      then keys[i].(wrapped := None, destroyed := true, active := false) else keys[i])
  }

  // ----- Chunks -----

  /** Fixed-size pieces; empty content is one empty piece. */
  function Split(raw: Bytes, n: nat): (chunks: seq<Bytes>)
    requires n >= 1
    ensures |chunks| >= 1
    decreases |raw|
  {
    if |raw| <= n then [raw] else [raw[..n]] + Split(raw[n..], n)
  }

  function Concat(chunks: seq<Bytes>): Bytes {
    if chunks == [] then [] else chunks[0] + Concat(chunks[1..])
  }

  lemma {:induction false} ConcatSplit(raw: Bytes, n: nat)
    requires n >= 1
    ensures Concat(Split(raw, n)) == raw
    decreases |raw|
  {
    if |raw| > n {
      ConcatSplit(raw[n..], n);
      assert Split(raw, n)[1..] == Split(raw[n..], n);
      assert raw == raw[..n] + raw[n..];
    } else {
      assert Split(raw, n)[1..] == [];
    }
  }

  lemma {:induction false} ConcatLast(chunks: seq<Bytes>, last: Bytes)
    ensures Concat(chunks + [last]) == Concat(chunks) + last
  {
    if chunks == [] {
      assert (chunks + [last])[1..] == [];
    } else {
      assert (chunks + [last])[1..] == chunks[1..] + [last];
      ConcatLast(chunks[1..], last);
    }
  }

  function EncodeChunk(c: Crypto, key: Key, scan: ScanId, digest: Digest, index: nat, chunk: Bytes): ChunkRow {
    var compressed := c.deflate(chunk);
    ChunkRow(index, Blob(key, Aad(scan, digest, index), compressed), |chunk|, |compressed|, c.sha(chunk))
  }

  function Encode(c: Crypto, key: Key, scan: ScanId, digest: Digest, chunks: seq<Bytes>): seq<ChunkRow> {
    seq(|chunks|, i requires 0 <= i < |chunks| => EncodeChunk(c, key, scan, digest, i, chunks[i]))
  }

  /** Opens one stored chunk, checking tag, sizes and chunk hash. */
  function DecodeChunk(c: Crypto, key: Key, scan: ScanId, digest: Digest, row: ChunkRow): Result<Bytes, Error> {
    if row.blob.key != key || row.blob.aad != Aad(scan, digest, row.index) then Failure(BadTag)
    else if |row.blob.payload| != row.compressedSize then Failure(BadCompressedSize)
    else
      var chunk := c.inflate(row.blob.payload);
      if chunk.None? || |chunk.value| != row.plainSize || c.sha(chunk.value) != row.sha then Failure(BadChunk)
      else Success(chunk.value)
  }

  function Decode(c: Crypto, key: Key, scan: ScanId, digest: Digest, rows: seq<ChunkRow>): Result<Bytes, Error> {
    if rows == [] then Success([])
    else
      var front := Decode(c, key, scan, digest, rows[..|rows| - 1]);
      if front.Failure? then front
      else
        var chunk := DecodeChunk(c, key, scan, digest, rows[|rows| - 1]);
        if chunk.Failure? then chunk else Success(front.value + chunk.value)
  }

  lemma {:induction false} DecodeStops(c: Crypto, key: Key, scan: ScanId, digest: Digest, rows: seq<ChunkRow>, k: nat)
    requires k <= |rows| && Decode(c, key, scan, digest, rows[..k]).Failure?
    ensures Decode(c, key, scan, digest, rows) == Decode(c, key, scan, digest, rows[..k])
    decreases |rows|
  {
    if k < |rows| {
      assert rows[..|rows| - 1][..k] == rows[..k];
      DecodeStops(c, key, scan, digest, rows[..|rows| - 1], k);
    } else {
      assert rows[..k] == rows;
    }
  }

  /** Decrypting, decompressing and joining the stored chunks gives back what was encoded. */
  lemma {:induction false} DecodeEncode(c: Crypto, key: Key, scan: ScanId, digest: Digest, chunks: seq<Bytes>)
    requires Ideal(c)
    ensures Decode(c, key, scan, digest, Encode(c, key, scan, digest, chunks)) == Success(Concat(chunks))
    decreases |chunks|
  {
    if chunks != [] {
      var last := |chunks| - 1;
      var rows := Encode(c, key, scan, digest, chunks);
      assert rows[..last] == Encode(c, key, scan, digest, chunks[..last]);
      DecodeEncode(c, key, scan, digest, chunks[..last]);
      ConcatLast(chunks[..last], chunks[last]);
      assert chunks == chunks[..last] + [chunks[last]];
    }
  }

  // ----- Operations as functions on the tables -----

  /** The row and chunks that `put` seals for new content. */
  function NewArtifact(c: Crypto, chunkSize: nat, scan: ScanId, content: Bytes, keyId: KeyId, key: Key): Artifact
    requires chunkSize >= 1
  {
    var digest, chunks := c.sha(content), Split(content, chunkSize);
    Artifact(digest, |content|, scan, keyId, |chunks|, false, Encode(c, key, scan, digest, chunks))
  }

  /** The first part of `put`, up to the insert: an existing row is returned, else chunks are sealed under the scan's key. */
  function PreparePut(c: Crypto, chunkSize: nat, s: Store, scan: ScanId, content: Bytes, key: Key, keyId: KeyId)
    : Result<(Store, Option<Artifact>), Error>
    requires chunkSize >= 1
  {
    var digest := c.sha(content);
    if FindArtifact(s.artifacts, scan, digest).Some? then
      Success((s.(custody := s.custody + [Custody(Create, scan, digest)]), None))
    else
      var ensured := EnsureKey(s, scan, key, keyId);
      if ensured.Failure? then Failure(ensured.error)
      else
        var (t, id, k) := ensured.value;
        Success((t, Some(NewArtifact(c, chunkSize, scan, content, id, k))))
  }

  /** The second part of `put`: the insert, refused when the scan already has this hash. */
  function CommitPut(s: Store, a: Artifact): Result<Store, Error> {
    if FindArtifact(s.artifacts, a.scan, a.sha).Some? then Failure(Integrity)
    else Success(s.(artifacts := s.artifacts + [a], custody := s.custody + [Custody(Create, a.scan, a.sha)]))
  }

  function PutContent(c: Crypto, chunkSize: nat, s: Store, scan: ScanId, content: Bytes, key: Key,
                      keyId: KeyId): Result<Store, Error>
    requires chunkSize >= 1
  {
    var prepared := PreparePut(c, chunkSize, s, scan, content, key, keyId);
    if prepared.Failure? then Failure(prepared.error)
    else if prepared.value.1.None? then Success(prepared.value.0)
    else CommitPut(prepared.value.0, prepared.value.1.value)
  }

  function Matching(artifacts: seq<Artifact>, digest: Digest): seq<nat> {
    if artifacts == [] then []
    else
      var last := |artifacts| - 1;
      var earlier := Matching(artifacts[..last], digest);
      if artifacts[last].sha == digest then earlier + [last] else earlier
  }

  lemma MatchingBounded(artifacts: seq<Artifact>, digest: Digest)
    ensures forall i | i in Matching(artifacts, digest) :: i < |artifacts| && artifacts[i].sha == digest
  {
  }

  /** `_resolve_row`: without a scan the hash must be stored exactly once. */
  function Resolve(s: Store, digest: Digest, scan: Option<ScanId>): (r: Result<nat, Error>)
    ensures r.Success? ==> r.value < |s.artifacts| && s.artifacts[r.value].sha == digest
    ensures r.Success? && scan.Some? ==> s.artifacts[r.value].scan == scan.value
  {
    if scan.None? then
      var rows := Matching(s.artifacts, digest);
      MatchingBounded(s.artifacts, digest);
      if |rows| != 1 then Failure(Ambiguous) else assert rows[0] in rows; Success(rows[0])
    else
      var row := FindArtifact(s.artifacts, scan.value, digest);
      if row.None? then Failure(NotFound) else Success(row.value)
  }

  function ReadArtifact(c: Crypto, s: Store, a: Artifact, digest: Digest): Result<Bytes, Error> {
    var key := GetKey(s, a.scan, a.keyId);
    if key.Failure? then Failure(key.error)
    else if a.tombstoned then Failure(KeyDestroyed)
    else if |a.chunks| != a.chunkCount then Failure(CountMismatch)
    else
      var raw := Decode(c, key.value, a.scan, digest, a.chunks);
      if raw.Failure? then raw
      else if |raw.value| != a.size || c.sha(raw.value) != digest then Failure(BadContent)
      else raw
  }

  /** `_read_no_audit` */
  function Read(c: Crypto, s: Store, digest: Digest, scan: Option<ScanId>): Result<Bytes, Error> {
    var row := Resolve(s, digest, scan);
    if row.Failure? then Failure(row.error)
    else
      ReadArtifact(c, s, s.artifacts[row.value], digest)
  }

  function Tombstoned(artifacts: seq<Artifact>, scan: ScanId): seq<Artifact> {
    seq(|artifacts|, i requires 0 <= i < |artifacts| =>
      if artifacts[i].scan == scan then artifacts[i].(tombstoned := true) else artifacts[i])
  }

  function Deletions(artifacts: seq<Artifact>, scan: ScanId): seq<Custody> {
    if artifacts == [] then []
    else
      var last := artifacts[|artifacts| - 1];
      var earlier := Deletions(artifacts[..|artifacts| - 1], scan);
      if last.scan == scan && !last.tombstoned then earlier + [Custody(Delete, scan, last.sha)] else earlier
  }

  /** The first transaction of `delete_scan_evidence`, with its custody records. */
  function TombstoneScan(s: Store, scan: ScanId): Store {
    s.(artifacts := Tombstoned(s.artifacts, scan), custody := s.custody + Deletions(s.artifacts, scan))
  }

  /** The second, with the record of the whole deletion: the scan's keys are destroyed. */
  function DestroyScan(s: Store, scan: ScanId): Store {
    s.(keys := DestroyedKeys(s.keys, scan), custody := s.custody + [Custody(ScanDeleted, scan, 0)])
  }

  function DeleteScan(s: Store, scan: ScanId): Store {
    DestroyScan(TombstoneScan(s, scan), scan)
  }

  // ----- Sealing -----

  function LiveHashes(artifacts: seq<Artifact>, scan: ScanId): seq<Digest> {
    if artifacts == [] then []
    else
      var last := artifacts[|artifacts| - 1];
      var earlier := LiveHashes(artifacts[..|artifacts| - 1], scan);
      if last.scan == scan && !last.tombstoned then earlier + [last.sha] else earlier
  }

  function FlowHashes(flows: seq<FlowRow>, scan: ScanId): seq<Digest> {
    if flows == [] then []
    else
      var last := flows[|flows| - 1];
      var earlier := FlowHashes(flows[..|flows| - 1], scan);
      if last.scan == scan then earlier + [last.digest] else earlier
  }

  /** The rows of a scan's flows with this hash. */
  function FlowsAt(flows: seq<FlowRow>, scan: ScanId, digest: Digest): set<nat> {
    set i | 0 <= i < |flows| && flows[i] == FlowRow(scan, digest)
  }

  /** The rows of a scan's artifacts with this hash that are not tombstoned. */
  function LiveAt(artifacts: seq<Artifact>, scan: ScanId, digest: Digest): set<nat> {
    set i | 0 <= i < |artifacts| && artifacts[i].scan == scan && artifacts[i].sha == digest && !artifacts[i].tombstoned
  }

  /** The query over the flows lists each hash as often as the scan has rows with it. */
  lemma {:induction false} FlowCount(flows: seq<FlowRow>, scan: ScanId, digest: Digest)
    ensures multiset(FlowHashes(flows, scan))[digest] == |FlowsAt(flows, scan, digest)|
  {
    if flows != [] {
      var n := |flows| - 1;
      FlowCount(flows[..n], scan, digest);
      var before := FlowsAt(flows[..n], scan, digest);
      assert n !in before;
      assert FlowsAt(flows, scan, digest) == if flows[n] == FlowRow(scan, digest) then before + {n} else before;
    }
  }

  /** And so does the query over the artifacts, of the rows not tombstoned. */
  lemma {:induction false} LiveCount(artifacts: seq<Artifact>, scan: ScanId, digest: Digest)
    ensures multiset(LiveHashes(artifacts, scan))[digest] == |LiveAt(artifacts, scan, digest)|
  {
    if artifacts != [] {
      var n := |artifacts| - 1;
      LiveCount(artifacts[..n], scan, digest);
      var before := LiveAt(artifacts[..n], scan, digest);
      assert n !in before;
      assert LiveAt(artifacts, scan, digest)
          == if artifacts[n].scan == scan && artifacts[n].sha == digest
             && !artifacts[n].tombstoned then before + {n} else before;
    }
  }

  /** A deletion is recorded once for every live artifact of the scan, in order. */
  lemma {:induction false} DeletionsAreLive(artifacts: seq<Artifact>, scan: ScanId)
    ensures |Deletions(artifacts, scan)| == |LiveHashes(artifacts, scan)|
    ensures forall i | 0 <= i < |Deletions(artifacts, scan)| ::
              Deletions(artifacts, scan)[i] == Custody(Delete, scan, LiveHashes(artifacts, scan)[i])
  {
    if artifacts != [] { DeletionsAreLive(artifacts[..|artifacts| - 1], scan); }
  }

  /** What the two queries of `evidence_hashes` give together. */
  function Leaves(live: seq<Digest>, flows: seq<Digest>): seq<Digest> {
    Sort(live, DigestLe) + Sort(flows, DigestLe)
  }

  /** `evidence_hashes` */
  function EvidenceHashes(s: Store, scan: ScanId): seq<Digest> {
    Leaves(LiveHashes(s.artifacts, scan), FlowHashes(s.flows, scan))
  }

  function RootOf(c: Crypto, scan: ScanId, leaves: seq<Digest>): RootRow {
    RootRow(scan, Root(leaves, c.pair, c.sha([])), |leaves|)
  }

  /** The last part of `seal_scan`: the root of the leaves is recorded. */
  function RecordRoot(c: Crypto, s: Store, scan: ScanId, leaves: seq<Digest>): Store {
    var row := RootOf(c, scan, leaves);
    s.(roots := s.roots + [row],
       custody := s.custody + [Custody(ScanSealed(row.root, row.leafCount), scan, row.root)])
  }

  function Seal(c: Crypto, s: Store, scan: ScanId): Store {
    RecordRoot(c, s, scan, EvidenceHashes(s, scan))
  }

  function LastRoot(roots: seq<RootRow>, scan: ScanId): Option<RootRow> {
    if roots == [] then None
    else if roots[|roots| - 1].scan == scan then Some(roots[|roots| - 1])
    else LastRoot(roots[..|roots| - 1], scan)
  }

  predicate Matches(c: Crypto, row: Option<RootRow>, leaves: seq<Digest>) {
    row.Some? && |leaves| == row.value.leafCount && Root(leaves, c.pair, c.sha([])) == row.value.root
  }

  /** `verify_scan_root` */
  function VerifySeal(c: Crypto, s: Store, scan: ScanId): bool {
    Matches(c, LastRoot(s.roots, scan), EvidenceHashes(s, scan))
  }

  // ----- The store as an object over its tables -----

  class RawArtifactStore {
    const crypto: Crypto
    const chunkSize: nat
    var keys: seq<KeyRow>
    var artifacts: seq<Artifact>
    var flows: seq<FlowRow>
    var roots: seq<RootRow>
    var custody: seq<Custody>

    function Tables(): Store
      reads this
    {
      Store(keys, artifacts, flows, roots, custody)
    }

    /** An empty store; a chunk size below one is refused by the source, so it is required here. */
    constructor (crypto: Crypto, chunkSize: nat)
      requires chunkSize >= 1
      ensures this.crypto == crypto && this.chunkSize == chunkSize
      ensures Tables() == Store([], [], [], [], [])
    {
      this.crypto, this.chunkSize := crypto, chunkSize;
      keys, artifacts, flows, roots, custody := [], [], [], [], [];
    }

    /** `ScanKeyring.rotate` */
    method Rotate(scan: ScanId, key: Key, keyId: KeyId) returns (r: Result<(KeyId, Key), Error>)
      modifies this`keys
      ensures r.Success? <==> RotateKey(old(Tables()), scan, key, keyId).Success?
      ensures r.Success? ==> r.value == (keyId, key) && Tables() == RotateKey(old(Tables()), scan, key, keyId).value
      ensures r.Failure? ==> r.error == RotateKey(old(Tables()), scan, key, keyId).error && Tables() == old(Tables())
    {
      if exists i | 0 <= i < |keys| :: keys[i].keyId == keyId {
        return Failure(Integrity);
      }
      ghost var before := keys;
      for i := 0 to |keys|
        invariant |keys| == |before|
        invariant forall j | i <= j < |keys| :: keys[j] == before[j]
        invariant forall j | 0 <= j < i :: keys[j] == Retired(before, scan)[j]
      {
        if keys[i].scan == scan && keys[i].active {
          keys := keys[i := keys[i].(active := false)];
        }
      }
      assert keys == Retired(before, scan);
      keys := keys + [KeyRow(scan, keyId, Some(Wrapped(key, scan, keyId)), true, false)];
      return Success((keyId, key));
    }

    /** `ScanKeyring.ensure` */
    method Ensure(scan: ScanId, key: Key, keyId: KeyId) returns (r: Result<(KeyId, Key), Error>)
      modifies this`keys
      ensures var e := EnsureKey(old(Tables()), scan, key, keyId);
              if e.Success? then r == Success((e.value.1, e.value.2)) && Tables() == e.value.0
              else r == Failure(e.error) && Tables() == old(Tables())
    {
      var row := ActiveKey(keys, scan);
      if row.Some? {
        var unwrapped := Unwrap(keys[row.value]);
        if unwrapped.Failure? { return Failure(unwrapped.error); }
        return Success((keys[row.value].keyId, unwrapped.value));
      }
      r := Rotate(scan, key, keyId);
    }

    /** Slices the content and seals each slice under the key. */
    method SealChunks(key: Key, scan: ScanId, digest: Digest, raw: Bytes) returns (rows: seq<ChunkRow>)
      requires chunkSize >= 1
      ensures rows == Encode(crypto, key, scan, digest, Split(raw, chunkSize))
    {
      var chunks: seq<Bytes> := [];
      var rest := raw;
      while |rest| > chunkSize
        invariant Split(raw, chunkSize) == chunks + Split(rest, chunkSize)
        decreases |rest|
      {
        chunks := chunks + [rest[..chunkSize]];
        rest := rest[chunkSize..];
      }
      chunks := chunks + [rest];
      rows := [];
      for index := 0 to |chunks|
        invariant |rows| == index
        invariant forall i | 0 <= i < index :: rows[i] == EncodeChunk(crypto, key, scan, digest, i, chunks[i])
      {
        rows := rows + [EncodeChunk(crypto, key, scan, digest, index, chunks[index])];
      }
    }

    /** `put`: stores new content under the scan's active key, or returns the row that already has its hash. */
    method Put(scan: ScanId, content: Bytes, key: Key, keyId: KeyId) returns (r: Result<nat, Error>)
      requires chunkSize >= 1
      modifies this`keys, this`artifacts, this`custody
      ensures var p := PutContent(crypto, chunkSize, old(Tables()), scan, content, key, keyId);
              if p.Success? then r.Success? && Tables() == p.value else r == Failure(p.error) && Tables() == old(Tables())
      ensures r.Success? ==> FindArtifact(artifacts, scan, crypto.sha(content)) == Some(r.value)
    {
      var digest := crypto.sha(content);
      var row := FindArtifact(artifacts, scan, digest);
      if row.Some? {
        custody := custody + [Custody(Create, scan, digest)];
        return Success(row.value);
      }
      var ensured := Ensure(scan, key, keyId);
      if ensured.Failure? { return Failure(ensured.error); }
      var rows := SealChunks(ensured.value.1, scan, digest, content);
      artifacts := artifacts + [Artifact(digest, |content|, scan, ensured.value.0, |rows|, false, rows)];
      custody := custody + [Custody(Create, scan, digest)];
      return Success(|artifacts| - 1);
    }

    /** `_read_no_audit`: extends the output chunk by chunk, checking each. */
    method ReadNoAudit(digest: Digest, scan: Option<ScanId>) returns (r: Result<Bytes, Error>)
      ensures r == Read(crypto, Tables(), digest, scan)
    {
      var row := Resolve(Tables(), digest, scan);
      if row.Failure? { return Failure(row.error); }
      var item := artifacts[row.value];
      var key := GetKey(Tables(), item.scan, item.keyId);
      if key.Failure? { return Failure(key.error); }
      if item.tombstoned { return Failure(KeyDestroyed); }
      if |item.chunks| != item.chunkCount { return Failure(CountMismatch); }
      var output: Bytes := [];
      for i := 0 to |item.chunks|
        invariant Decode(crypto, key.value, item.scan, digest, item.chunks[..i]) == Success(output)
      {
        assert item.chunks[..i + 1][..i] == item.chunks[..i];
        var chunk := DecodeChunk(crypto, key.value, item.scan, digest, item.chunks[i]);
        if chunk.Failure? {
          DecodeStops(crypto, key.value, item.scan, digest, item.chunks, i + 1);
          return Failure(chunk.error);
        }
        output := output + chunk.value;
      }
      assert item.chunks[..|item.chunks|] == item.chunks;
      if |output| != item.size || crypto.sha(output) != digest { return Failure(BadContent); }
      return Success(output);
    }

    /** `read` and `export`: a successful read leaves a custody record, a failed one changes nothing. */
    method ReadFor(action: Action, digest: Digest, scan: Option<ScanId>) returns (r: Result<Bytes, Error>)
      requires action.Access? || action.Export?
      modifies this`custody
      ensures r == Read(crypto, old(Tables()), digest, scan)
      ensures r.Failure? ==> Tables() == old(Tables())
      ensures r.Success? ==> Resolve(old(Tables()), digest, scan).Success?
      ensures r.Success? ==>
                var owner := artifacts[Resolve(old(Tables()), digest, scan).value].scan;
                Tables() == old(Tables()).(custody := old(custody) + [Custody(action, owner, digest)])
    {
      r := ReadNoAudit(digest, scan);
      if r.Success? {
        var row := Resolve(Tables(), digest, scan);
        custody := custody + [Custody(action, artifacts[row.value].scan, digest)];
      }
    }

    /** `delete_scan_evidence`: tombstones, custody records, then key destruction. */
    method DeleteScanEvidence(scan: ScanId)
      modifies this`keys, this`artifacts, this`custody
      ensures Tables() == DeleteScan(old(Tables()), scan)
    {
      ghost var before := artifacts;
      var deletions: seq<Custody> := [];
      for i := 0 to |artifacts|
        invariant artifacts == before
        invariant deletions == Deletions(before[..i], scan)
      {
        assert before[..i + 1][..i] == before[..i];
        if artifacts[i].scan == scan && !artifacts[i].tombstoned {
          deletions := deletions + [Custody(Delete, scan, artifacts[i].sha)];
        }
      }
      assert before[..|before|] == before;
      artifacts := Tombstoned(artifacts, scan);
      custody := custody + deletions;
      keys := DestroyedKeys(keys, scan);
      custody := custody + [Custody(ScanDeleted, scan, 0)];
    }

    /** `seal_scan` */
    method SealScan(scan: ScanId) returns (root: Digest, leafCount: nat)
      modifies this`roots, this`custody
      ensures Tables() == Seal(crypto, old(Tables()), scan)
      ensures leafCount == |EvidenceHashes(old(Tables()), scan)|
      ensures root == Root(EvidenceHashes(old(Tables()), scan), crypto.pair, crypto.sha([]))
    {
      var leaves := EvidenceHashes(Tables(), scan);
      root := MerkleRoot(leaves, crypto.pair, crypto.sha([]));
      leafCount := |leaves|;
      custody := custody + [Custody(ScanSealed(root, leafCount), scan, root)];
      roots := roots + [RootRow(scan, root, leafCount)];
    }

    /** `verify_scan_root` */
    method VerifyScanRoot(scan: ScanId) returns (ok: bool)
      ensures ok == VerifySeal(crypto, Tables(), scan)
    {
      var row := LastRoot(roots, scan);
      if row.None? { return false; }
      var leaves := EvidenceHashes(Tables(), scan);
      var root := MerkleRoot(leaves, crypto.pair, crypto.sha([]));
      return |leaves| == row.value.leafCount && root == row.value.root;
    }
  }
}
