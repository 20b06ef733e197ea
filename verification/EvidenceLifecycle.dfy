/** Runs of the evidence store: what stays readable and what never reads again. */
module EvidenceLifecycle {
  import opened Wrappers
  import opened Merkle
  import opened EvidenceStore

  // ----- The invariant on the tables -----

  ghost predicate RowConsistent(row: KeyRow) {
    && (row.destroyed <==> row.wrapped.None?)
    && (row.wrapped.Some? ==> row.wrapped.value.scan == row.scan && row.wrapped.value.keyId == row.keyId)
    && (row.active ==> !row.destroyed)
  }

  ghost predicate KeysGood(keys: seq<KeyRow>) {
    && (forall i | 0 <= i < |keys| :: RowConsistent(keys[i]))
    && (forall i, j | 0 <= i < j < |keys| :: keys[i].keyId != keys[j].keyId)
    && (forall i, j | 0 <= i < j < |keys| :: keys[i].scan == keys[j].scan ==> !(keys[i].active && keys[j].active))
  }

  /** The chunks of `a` are `chunks` sealed under `k`, and its key row, unless destroyed, still holds `k`. */
  ghost predicate StoredAs(c: Crypto, keys: seq<KeyRow>, a: Artifact, chunks: seq<Bytes>, k: Key) {
    && c.sha(Concat(chunks)) == a.sha
    && a.size == |Concat(chunks)|
    && a.chunkCount == |chunks|
    && a.chunks == Encode(c, k, a.scan, a.sha, chunks)
    && HoldsKey(keys, a.scan, a.keyId, k)
  }

  ghost predicate HoldsKey(keys: seq<KeyRow>, scan: ScanId, keyId: KeyId, k: Key) {
    exists i | 0 <= i < |keys| ::
      keys[i].scan == scan && keys[i].keyId == keyId && (keys[i].wrapped.Some? ==> keys[i].wrapped.value.key == k)
  }

  ghost predicate WellStored(c: Crypto, keys: seq<KeyRow>, a: Artifact) {
    exists chunks, k :: StoredAs(c, keys, a, chunks, k)
  }

  ghost predicate ArtifactsGood(c: Crypto, s: Store) {
    && (forall i | 0 <= i < |s.artifacts| :: WellStored(c, s.keys, s.artifacts[i]))
    && (forall i, j | 0 <= i < j < |s.artifacts| ::
          s.artifacts[i].scan != s.artifacts[j].scan || s.artifacts[i].sha != s.artifacts[j].sha)
  }

  ghost predicate Good(c: Crypto, s: Store) {
    KeysGood(s.keys) && ArtifactsGood(c, s)
  }

  predicate KeyGone(s: Store, a: Artifact) {
    var row := FindKey(s.keys, a.scan, a.keyId);
    row.None? || s.keys[row.value].destroyed
  }

  /** No live artifact is left behind with a destroyed key. */
  ghost predicate NoOrphans(s: Store) {
    forall i | 0 <= i < |s.artifacts| && !s.artifacts[i].tombstoned :: !KeyGone(s, s.artifacts[i])
  }

  // ----- Reading back -----

  /** A well-stored artifact reads back its exact content, and only fails once tombstoned or with its key destroyed. */
  lemma ReadsBack(c: Crypto, s: Store, a: Artifact, content: Bytes)
    requires Ideal(c) && KeysGood(s.keys) && WellStored(c, s.keys, a) && c.sha(content) == a.sha
    ensures ReadArtifact(c, s, a, a.sha)
         == if a.tombstoned || KeyGone(s, a) then Failure(KeyDestroyed) else Success(content)
  {
    var chunks, k :| StoredAs(c, s.keys, a, chunks, k);
    DecodeEncode(c, k, a.scan, a.sha, chunks);
    assert Concat(chunks) == content;
    var i :| 0 <= i < |s.keys| && s.keys[i].scan == a.scan && s.keys[i].keyId == a.keyId
      && (s.keys[i].wrapped.Some? ==> s.keys[i].wrapped.value.key == k);
    var row := FindKey(s.keys, a.scan, a.keyId);
    assert row == Some(i);
    assert RowConsistent(s.keys[i]);
  }

  lemma FindUnique(s: Store, i: nat)
    requires i < |s.artifacts|
    requires forall i, j | 0 <= i < j < |s.artifacts| ::
          s.artifacts[i].scan != s.artifacts[j].scan || s.artifacts[i].sha != s.artifacts[j].sha
    ensures FindArtifact(s.artifacts, s.artifacts[i].scan, s.artifacts[i].sha) == Some(i)
  {
    var r := FindArtifact(s.artifacts, s.artifacts[i].scan, s.artifacts[i].sha);
    assert r.Some?;
  }

  /** What reading a scan's artifact by its hash must give: its content if the row is live and its key exists. */
  function Expected(s: Store, scan: ScanId, digest: Digest, content: Bytes): Result<Bytes, Error> {
    var row := FindArtifact(s.artifacts, scan, digest);
    if row.None? then Failure(NotFound)
    else if s.artifacts[row.value].tombstoned || KeyGone(s, s.artifacts[row.value]) then Failure(KeyDestroyed)
    else Success(content)
  }

  /** Reading one scan's artifact by hash: found and readable exactly when the row is live and its key exists. */
  lemma ReadByScan(c: Crypto, s: Store, scan: ScanId, content: Bytes)
    requires Ideal(c) && Good(c, s)
    ensures Read(c, s, c.sha(content), Some(scan)) == Expected(s, scan, c.sha(content), content)
  {
    var row := FindArtifact(s.artifacts, scan, c.sha(content));
    if row.Some? {
      ReadsBack(c, s, s.artifacts[row.value], content);
    }
  }

  /** Whatever the tables hold, corrupted or not, a read by a content's hash never returns anything else. */
  lemma SuccessIsExact(c: Crypto, s: Store, scan: Option<ScanId>, content: Bytes, raw: Bytes)
    requires Ideal(c) && Read(c, s, c.sha(content), scan) == Success(raw)
    ensures raw == content
  {
    assert c.sha(raw) == c.sha(content);
  }

  // ----- Steps -----

  /** Key rows only ever lose their key, their active mark or get company. */
  ghost predicate KeysEvolve(keys: seq<KeyRow>, later: seq<KeyRow>) {
    && |keys| <= |later|
    && (forall i | 0 <= i < |keys| ::
          && later[i].scan == keys[i].scan && later[i].keyId == keys[i].keyId
          && (later[i].wrapped == keys[i].wrapped || later[i].wrapped.None?)
          && (keys[i].destroyed ==> later[i].destroyed))
  }

  lemma StoredEvolves(c: Crypto, keys: seq<KeyRow>, later: seq<KeyRow>, a: Artifact)
    requires WellStored(c, keys, a) && KeysEvolve(keys, later)
    ensures WellStored(c, later, a) && WellStored(c, later, a.(tombstoned := true))
  {
    var chunks, k :| StoredAs(c, keys, a, chunks, k);
    var i :| 0 <= i < |keys| && keys[i].scan == a.scan && keys[i].keyId == a.keyId
      && (keys[i].wrapped.Some? ==> keys[i].wrapped.value.key == k);
    assert later[i].scan == a.scan && later[i].keyId == a.keyId;
    assert StoredAs(c, later, a, chunks, k);
    assert StoredAs(c, later, a.(tombstoned := true), chunks, k);
  }

  lemma KeysChange(c: Crypto, s: Store, keys: seq<KeyRow>)
    requires Good(c, s) && KeysGood(keys) && KeysEvolve(s.keys, keys)
    ensures Good(c, s.(keys := keys))
  {
    forall i | 0 <= i < |s.artifacts| ensures WellStored(c, keys, s.artifacts[i]) {
      StoredEvolves(c, s.keys, keys, s.artifacts[i]);
    }
  }

  lemma RotateGood(c: Crypto, s: Store, scan: ScanId, key: Key, keyId: KeyId)
    requires Good(c, s) && RotateKey(s, scan, key, keyId).Success?
    ensures Good(c, RotateKey(s, scan, key, keyId).value)
    ensures KeysEvolve(s.keys, RotateKey(s, scan, key, keyId).value.keys)
    ensures RotateKey(s, scan, key, keyId).value == s.(keys := RotateKey(s, scan, key, keyId).value.keys)
    ensures HoldsKey(RotateKey(s, scan, key, keyId).value.keys, scan, keyId, key)
  {
    var keys := RotateKey(s, scan, key, keyId).value.keys;
    assert keys[|s.keys|] == KeyRow(scan, keyId, Some(Wrapped(key, scan, keyId)), true, false);
    assert forall i | 0 <= i < |s.keys| :: keys[i] == Retired(s.keys, scan)[i];
    KeysChange(c, s, keys);
  }

  lemma DestroyGood(c: Crypto, s: Store, scan: ScanId)
    requires Good(c, s)
    ensures Good(c, DestroyScan(s, scan)) && KeysEvolve(s.keys, DestroyScan(s, scan).keys)
  {
    KeysChange(c, s, DestroyedKeys(s.keys, scan));
  }

  lemma TombstoneGood(c: Crypto, s: Store, scan: ScanId)
    requires Good(c, s)
    ensures Good(c, TombstoneScan(s, scan))
  {
    var t := TombstoneScan(s, scan);
    forall i | 0 <= i < |t.artifacts| ensures WellStored(c, t.keys, t.artifacts[i]) {
      StoredEvolves(c, s.keys, s.keys, s.artifacts[i]);
    }
  }

  lemma EnsureGood(c: Crypto, s: Store, scan: ScanId, key: Key, keyId: KeyId)
    requires Good(c, s) && EnsureKey(s, scan, key, keyId).Success?
    ensures var (t, id, k) := EnsureKey(s, scan, key, keyId).value;
            && Good(c, t) && KeysEvolve(s.keys, t.keys) && t == s.(keys := t.keys)
            && HoldsKey(t.keys, scan, id, k)
            && ActiveKey(t.keys, scan).Some? && t.keys[ActiveKey(t.keys, scan).value].keyId == id
  {
    var row := ActiveKey(s.keys, scan);
    if row.None? {
      RotateGood(c, s, scan, key, keyId);
    } else {
      assert RowConsistent(s.keys[row.value]);
    }
  }

  /** Getting a key never fails for a good table, except when the fresh key id is already taken. */
  lemma EnsureNeverFindsDestroyed(s: Store, scan: ScanId, key: Key, keyId: KeyId)
    requires KeysGood(s.keys)
    ensures EnsureKey(s, scan, key, keyId).Failure? ==>
              EnsureKey(s, scan, key, keyId).error.Integrity? && ActiveKey(s.keys, scan).None?
  {
    var row := ActiveKey(s.keys, scan);
    if row.Some? { assert RowConsistent(s.keys[row.value]); }
  }

  lemma NewWellStored(c: Crypto, n: nat, keys: seq<KeyRow>, scan: ScanId, content: Bytes, keyId: KeyId, key: Key)
    requires n >= 1 && HoldsKey(keys, scan, keyId, key)
    ensures WellStored(c, keys, NewArtifact(c, n, scan, content, keyId, key))
  {
    ConcatSplit(content, n);
    assert StoredAs(c, keys, NewArtifact(c, n, scan, content, keyId, key), Split(content, n), key);
  }

  lemma PreparedWellStored(c: Crypto, n: nat, s: Store, scan: ScanId, content: Bytes, key: Key, keyId: KeyId)
    requires Ideal(c) && n >= 1 && Good(c, s)
    requires PreparePut(c, n, s, scan, content, key, keyId).Success?
    ensures var (t, a) := PreparePut(c, n, s, scan, content, key, keyId).value;
            && Good(c, t) && KeysEvolve(s.keys, t.keys) && t.artifacts == s.artifacts
            && (a.Some? ==> && WellStored(c, t.keys, a.value) && !a.value.tombstoned
                            && a.value.scan == scan && a.value.sha == c.sha(content))
            && (a.Some? ==> ActiveKey(t.keys, scan).Some?
                            && t.keys[ActiveKey(t.keys, scan).value].keyId == a.value.keyId)
            && (a.None? ==> t.keys == s.keys)
  {
    var (t, a) := PreparePut(c, n, s, scan, content, key, keyId).value;
    if a.Some? {
      EnsureGood(c, s, scan, key, keyId);
      NewWellStored(c, n, t.keys, scan, content, EnsureKey(s, scan, key, keyId).value.1, EnsureKey(s, scan, key, keyId).value.2);
    }
  }

  lemma CommitGood(c: Crypto, s: Store, a: Artifact)
    requires Good(c, s) && WellStored(c, s.keys, a) && CommitPut(s, a).Success?
    ensures Good(c, CommitPut(s, a).value)
  {
    var t := CommitPut(s, a).value;
    assert forall i | 0 <= i < |s.artifacts| :: t.artifacts[i] == s.artifacts[i];
  }

  // ----- Runs, with operations cut at their transaction boundaries -----

  datatype Op =
    | ORotate(scan: ScanId, key: Key, keyId: KeyId)
    | OPut(scan: ScanId, content: Bytes, key: Key, keyId: KeyId)
    | ODelete(scan: ScanId)
    | OSeal(scan: ScanId)
    | OFlow(scan: ScanId, digest: Digest)
    // a put by its transactions: the row is looked up, the key is looked up or made, the row is inserted
    | OLookUp(scan: ScanId, content: Bytes)
    | OFindKey(which: nat)
    | OMakeKey(which: nat, key: Key, keyId: KeyId)
    | OInsert(which: nat)
    // a deletion: the records are for the rows its first query found
    | OTombstone(scan: ScanId, records: seq<Custody>)
    | ODestroy(scan: ScanId)
    // a seal: the artifacts' hashes are read, then the flows', then the root is recorded
    | OHashArtifacts(scan: ScanId)
    | OHashFlows(which: nat)
    | ORecord(which: nat)

  /** Where an operation under way stands. */
  datatype Call =
    | Absent(scan: ScanId, content: Bytes)      // no row has the content's hash yet
    | Keyless(scan: ScanId, content: Bytes)     // and the scan has no active key
    | Sealed(artifact: Artifact)                // chunks sealed, row not inserted
    | HalfHashed(scan: ScanId, live: seq<Digest>)
    | Hashed(scan: ScanId, leaves: seq<Digest>)
    | Ended

  datatype World = World(store: Store, calls: seq<Call>)

  function OrElse(r: Result<Store, Error>, s: Store): Store {
    if r.Success? then r.value else s
  }

  function Step(c: Crypto, n: nat, w: World, op: Op): World
    requires n >= 1
  {
    match op
    case ORotate(scan, key, keyId) => w.(store := OrElse(RotateKey(w.store, scan, key, keyId), w.store))
    case OPut(scan, content, key, keyId) => w.(store := OrElse(PutContent(c, n, w.store, scan, content, key, keyId), w.store))
    case ODelete(scan) => w.(store := DeleteScan(w.store, scan))
    case OSeal(scan) => w.(store := Seal(c, w.store, scan))
    case OFlow(scan, digest) => w.(store := w.store.(flows := w.store.flows + [FlowRow(scan, digest)]))
    case OLookUp(scan, content) =>
      if FindArtifact(w.store.artifacts, scan, c.sha(content)).Some?
      then w.(store := w.store.(custody := w.store.custody + [Custody(Create, scan, c.sha(content))]))
      else w.(calls := w.calls + [Absent(scan, content)])
    case OFindKey(which) =>
      if which < |w.calls| && w.calls[which].Absent? then w.(calls := w.calls[which := KeyFound(c, n, w.store, w.calls[which])])
      else w
    case OMakeKey(which, key, keyId) =>
      if which < |w.calls| && w.calls[which].Keyless? then MakeKey(c, n, w, which, key, keyId) else w
    case OInsert(which) =>
      if which < |w.calls| && w.calls[which].Sealed?
      then World(OrElse(CommitPut(w.store, w.calls[which].artifact), w.store), w.calls[which := Ended])
      else w
    case OTombstone(scan, records) =>
      w.(store := w.store.(artifacts := Tombstoned(w.store.artifacts, scan), custody := w.store.custody + records))
    case ODestroy(scan) => w.(store := DestroyScan(w.store, scan))
    case OHashArtifacts(scan) => w.(calls := w.calls + [HalfHashed(scan, LiveHashes(w.store.artifacts, scan))])
    case OHashFlows(which) =>
      if which < |w.calls| && w.calls[which].HalfHashed?
      then w.(calls := w.calls[which := Hashed(w.calls[which].scan,
                                               Leaves(w.calls[which].live, FlowHashes(w.store.flows, w.calls[which].scan)))])
      else w
    case ORecord(which) =>
      if which < |w.calls| && w.calls[which].Hashed?
      then World(RecordRoot(c, w.store, w.calls[which].scan, w.calls[which].leaves), w.calls[which := Ended])
      else w
  }

  /** The key half of a put that found no row: under the active key the chunks are sealed. */
  function KeyFound(c: Crypto, n: nat, s: Store, call: Call): Call
    requires n >= 1 && call.Absent?
  {
    var row := ActiveKey(s.keys, call.scan);
    if row.None? then Keyless(call.scan, call.content)
    else
      var key := Unwrap(s.keys[row.value]);
      if key.Failure? then Ended
      else Sealed(NewArtifact(c, n, call.scan, call.content, s.keys[row.value].keyId, key.value))
  }

  /** Without one it rotates, whatever other puts have done since. */
  function MakeKey(c: Crypto, n: nat, w: World, which: nat, key: Key, keyId: KeyId): World
    requires n >= 1 && which < |w.calls| && w.calls[which].Keyless?
  {
    var call := w.calls[which];
    var rotated := RotateKey(w.store, call.scan, key, keyId);
    if rotated.Failure? then w.(calls := w.calls[which := Ended])
    else World(rotated.value, w.calls[which := Sealed(NewArtifact(c, n, call.scan, call.content, keyId, key))])
  }

  function Run(c: Crypto, n: nat, w: World, ops: seq<Op>): World
    requires n >= 1
    decreases |ops|
  {
    if ops == [] then w else Run(c, n, Step(c, n, w, ops[0]), ops[1..])
  }

  const EMPTY := World(Store([], [], [], [], []), [])

  ghost predicate CallGood(c: Crypto, keys: seq<KeyRow>, call: Call) {
    call.Sealed? ==> WellStored(c, keys, call.artifact) && !call.artifact.tombstoned
  }

  ghost predicate CallsGood(c: Crypto, keys: seq<KeyRow>, calls: seq<Call>) {
    forall i | 0 <= i < |calls| :: CallGood(c, keys, calls[i])
  }

  ghost predicate WorldGood(c: Crypto, w: World) {
    Good(c, w.store) && CallsGood(c, w.store.keys, w.calls)
  }

  lemma CallsEvolve(c: Crypto, keys: seq<KeyRow>, later: seq<KeyRow>, calls: seq<Call>)
    requires CallsGood(c, keys, calls) && KeysEvolve(keys, later)
    ensures CallsGood(c, later, calls)
  {
    forall i | 0 <= i < |calls| ensures CallGood(c, later, calls[i]) {
      if calls[i].Sealed? { StoredEvolves(c, keys, later, calls[i].artifact); }
    }
  }

  lemma FindKeyGood(c: Crypto, n: nat, s: Store, call: Call)
    requires n >= 1 && call.Absent?
    ensures CallGood(c, s.keys, KeyFound(c, n, s, call))
  {
    var row := ActiveKey(s.keys, call.scan);
    if row.Some? && Unwrap(s.keys[row.value]).Success? {
      var keyId, key := s.keys[row.value].keyId, Unwrap(s.keys[row.value]).value;
      assert HoldsKey(s.keys, call.scan, keyId, key);
      NewWellStored(c, n, s.keys, call.scan, call.content, keyId, key);
    }
  }

  lemma MakeKeyGood(c: Crypto, n: nat, w: World, which: nat, key: Key, keyId: KeyId)
    requires n >= 1 && WorldGood(c, w) && which < |w.calls| && w.calls[which].Keyless?
    ensures WorldGood(c, MakeKey(c, n, w, which, key, keyId))
    ensures KeysEvolve(w.store.keys, MakeKey(c, n, w, which, key, keyId).store.keys)
    ensures MakeKey(c, n, w, which, key, keyId).store.artifacts == w.store.artifacts
  {
    var call := w.calls[which];
    if RotateKey(w.store, call.scan, key, keyId).Success? {
      RotateGood(c, w.store, call.scan, key, keyId);
      var t := RotateKey(w.store, call.scan, key, keyId).value;
      NewWellStored(c, n, t.keys, call.scan, call.content, keyId, key);
      CallsEvolve(c, w.store.keys, t.keys, w.calls);
    }
  }

  lemma TombstoneStepGood(c: Crypto, w: World, scan: ScanId, records: seq<Custody>)
    requires WorldGood(c, w)
    ensures WorldGood(c, w.(store := w.store.(artifacts := Tombstoned(w.store.artifacts, scan), custody := w.store.custody + records)))
  {
    TombstoneGood(c, w.store, scan);
  }

  lemma PutGood(c: Crypto, n: nat, s: Store, scan: ScanId, content: Bytes, key: Key, keyId: KeyId)
    requires Ideal(c) && n >= 1 && Good(c, s) && PutContent(c, n, s, scan, content, key, keyId).Success?
    ensures Good(c, PutContent(c, n, s, scan, content, key, keyId).value)
    ensures KeysEvolve(s.keys, PutContent(c, n, s, scan, content, key, keyId).value.keys)
  {
    PreparedWellStored(c, n, s, scan, content, key, keyId);
    var (t, a) := PreparePut(c, n, s, scan, content, key, keyId).value;
    if a.Some? { CommitGood(c, t, a.value); }
  }

  /** Tables that are good and evolved from the world's keep its calls good. */
  lemma StoreGood(c: Crypto, w: World, s: Store)
    requires WorldGood(c, w) && Good(c, s) && KeysEvolve(w.store.keys, s.keys)
    ensures WorldGood(c, w.(store := s))
  {
    CallsEvolve(c, w.store.keys, s.keys, w.calls);
  }

  lemma InsertGood(c: Crypto, n: nat, w: World, which: nat)
    requires n >= 1 && WorldGood(c, w)
    ensures WorldGood(c, Step(c, n, w, OInsert(which))) && Step(c, n, w, OInsert(which)).store.keys == w.store.keys
  {
    if which < |w.calls| && w.calls[which].Sealed? && CommitPut(w.store, w.calls[which].artifact).Success? {
      assert CallGood(c, w.store.keys, w.calls[which]);
      CommitGood(c, w.store, w.calls[which].artifact);
    }
  }

  lemma StepGood(c: Crypto, n: nat, w: World, op: Op)
    requires Ideal(c) && n >= 1 && WorldGood(c, w)
    ensures WorldGood(c, Step(c, n, w, op))
    ensures KeysEvolve(w.store.keys, Step(c, n, w, op).store.keys)
  {
    match op
    case ORotate(scan, key, keyId) =>
      if RotateKey(w.store, scan, key, keyId).Success? {
        RotateGood(c, w.store, scan, key, keyId);
        StoreGood(c, w, RotateKey(w.store, scan, key, keyId).value);
      }
    case OPut(scan, content, key, keyId) =>
      if PutContent(c, n, w.store, scan, content, key, keyId).Success? {
        PutGood(c, n, w.store, scan, content, key, keyId);
        StoreGood(c, w, PutContent(c, n, w.store, scan, content, key, keyId).value);
      }
    case ODelete(scan) =>
      DeleteGood(c, w.store, scan);
      StoreGood(c, w, DeleteScan(w.store, scan));
    case OFindKey(which) =>
      if which < |w.calls| && w.calls[which].Absent? { FindKeyGood(c, n, w.store, w.calls[which]); }
    case OMakeKey(which, key, keyId) =>
      if which < |w.calls| && w.calls[which].Keyless? { MakeKeyGood(c, n, w, which, key, keyId); }
    case OInsert(which) => InsertGood(c, n, w, which);
    case OTombstone(scan, records) => TombstoneStepGood(c, w, scan, records);
    case ODestroy(scan) =>
      DestroyGood(c, w.store, scan);
      StoreGood(c, w, DestroyScan(w.store, scan));
    case _ =>
  }

  lemma DeleteGood(c: Crypto, s: Store, scan: ScanId)
    requires Good(c, s)
    ensures Good(c, DeleteScan(s, scan)) && KeysEvolve(s.keys, DeleteScan(s, scan).keys)
  {
    TombstoneGood(c, s, scan);
    DestroyGood(c, TombstoneScan(s, scan), scan);
  }

  lemma {:induction false} RunGood(c: Crypto, n: nat, w: World, ops: seq<Op>)
    requires Ideal(c) && n >= 1 && WorldGood(c, w)
    ensures WorldGood(c, Run(c, n, w, ops))
    decreases |ops|
  {
    if ops != [] {
      StepGood(c, n, w, ops[0]);
      RunGood(c, n, Step(c, n, w, ops[0]), ops[1..]);
    }
  }

  /** In every run from the empty store, overlapping operations included: each scan has at most one active key,
      no hash is stored twice for a scan, and reading an artifact returns its exact content unless it is
      tombstoned or its key is destroyed. */
  lemma EveryRunReadsExactly(c: Crypto, n: nat, ops: seq<Op>, scan: ScanId, content: Bytes)
    requires Ideal(c) && n >= 1
    ensures var s := Run(c, n, EMPTY, ops).store;
            && (forall i, j | 0 <= i < j < |s.keys| && s.keys[i].scan == s.keys[j].scan ::
                  !(s.keys[i].active && s.keys[j].active))
            && (forall i, j | 0 <= i < j < |s.artifacts| ::
                  s.artifacts[i].scan != s.artifacts[j].scan || s.artifacts[i].sha != s.artifacts[j].sha)
            && Read(c, s, c.sha(content), Some(scan)) == Expected(s, scan, c.sha(content), content)
  {
    RunGood(c, n, EMPTY, ops);
    ReadByScan(c, Run(c, n, EMPTY, ops).store, scan, content);
  }

  // ----- Runs of whole operations -----

  /** A put that nothing overlaps is its transactions one after another. */
  lemma PutIsItsParts(c: Crypto, n: nat, w: World, scan: ScanId, content: Bytes, key: Key, keyId: KeyId)
    requires n >= 1
    ensures var k := |w.calls|;
            var found := Step(c, n, Step(c, n, w, OLookUp(scan, content)), OFindKey(k));
            var made := Step(c, n, found, OMakeKey(k, key, keyId));
            var ended := Step(c, n, made, OInsert(k));
            && ended.store == Step(c, n, w, OPut(scan, content, key, keyId)).store
            && ended.calls == if FindArtifact(w.store.artifacts, scan, c.sha(content)).Some? then w.calls
                              else w.calls + [Ended]
  {
    var k := |w.calls|;
    var looked := Step(c, n, w, OLookUp(scan, content));
    var found := Step(c, n, looked, OFindKey(k));
    var made := Step(c, n, found, OMakeKey(k, key, keyId));
    if FindArtifact(w.store.artifacts, scan, c.sha(content)).None? {
      assert looked.calls[k] == Absent(scan, content);
      assert found.calls[k] == KeyFound(c, n, w.store, looked.calls[k]);
      assert PreparePut(c, n, w.store, scan, content, key, keyId).Success? ==>
          made.store == PreparePut(c, n, w.store, scan, content, key, keyId).value.0
          && made.calls[k] == Sealed(PreparePut(c, n, w.store, scan, content, key, keyId).value.1.value);
    }
  }

  /** So is a deletion, with the records for the rows it found. */
  lemma DeleteIsItsParts(c: Crypto, n: nat, w: World, scan: ScanId)
    requires n >= 1
    ensures Step(c, n, Step(c, n, w, OTombstone(scan, Deletions(w.store.artifacts, scan))), ODestroy(scan))
            == Step(c, n, w, ODelete(scan))
  {
  }

  /** And a seal. */
  lemma SealIsItsParts(c: Crypto, n: nat, w: World, scan: ScanId)
    requires n >= 1
    ensures var k := |w.calls|;
            Step(c, n, Step(c, n, Step(c, n, w, OHashArtifacts(scan)), OHashFlows(k)), ORecord(k))
            == Step(c, n, w, OSeal(scan)).(calls := w.calls + [Ended])
  {
    var k := |w.calls|;
    var first := Step(c, n, w, OHashArtifacts(scan));
    var second := Step(c, n, first, OHashFlows(k));
    assert second.calls[k] == Hashed(scan, EvidenceHashes(w.store, scan));
    assert Step(c, n, second, ORecord(k)).calls == w.calls + [Ended];
  }

  predicate Whole(op: Op) {
    op.ORotate? || op.OPut? || op.ODelete? || op.OSeal? || op.OFlow?
  }

  lemma KeyStays(s: Store, t: Store, a: Artifact)
    requires KeysGood(s.keys) && KeysGood(t.keys) && KeysEvolve(s.keys, t.keys) && !KeyGone(s, a)
    requires forall i | 0 <= i < |s.keys| && s.keys[i].scan == a.scan :: t.keys[i].destroyed == s.keys[i].destroyed
    ensures !KeyGone(t, a)
  {
    var i := FindKey(s.keys, a.scan, a.keyId).value;
    assert t.keys[i].scan == a.scan && t.keys[i].keyId == a.keyId;
    var r := FindKey(t.keys, a.scan, a.keyId);
    assert r == Some(i);
  }

  predicate Deletes(op: Op, scan: ScanId) {
    (op.ODelete? || op.OTombstone? || op.ODestroy?) && op.scan == scan
  }

  /** No key of the scan is destroyed. */
  ghost predicate SparesKeys(keys: seq<KeyRow>, later: seq<KeyRow>, scan: ScanId) {
    |keys| <= |later| && forall i | 0 <= i < |keys| && keys[i].scan == scan :: later[i].destroyed == keys[i].destroyed
  }

  lemma StepSpares(c: Crypto, n: nat, w: World, op: Op, scan: ScanId)
    requires n >= 1 && !Deletes(op, scan)
    ensures SparesKeys(w.store.keys, Step(c, n, w, op).store.keys, scan)
  {
    if op.OPut? { PutSpares(c, n, w.store, op.scan, op.content, op.key, op.keyId, scan); }
  }

  lemma PutSpares(c: Crypto, n: nat, s: Store, scan: ScanId, content: Bytes, key: Key, keyId: KeyId, other: ScanId)
    requires n >= 1
    ensures SparesKeys(s.keys, OrElse(PutContent(c, n, s, scan, content, key, keyId), s).keys, other)
  {
  }

  /** An artifact row is never lost, and only a deletion of its own scan can tombstone it. */
  lemma StepKeepsRows(c: Crypto, n: nat, w: World, op: Op, i: nat)
    requires n >= 1 && i < |w.store.artifacts|
    ensures i < |Step(c, n, w, op).store.artifacts|
    ensures var a, b := w.store.artifacts[i], Step(c, n, w, op).store.artifacts[i];
            b == a || (b == a.(tombstoned := true) && (op.ODelete? || op.OTombstone?) && op.scan == a.scan)
  {
    match op
    case OPut(scan, content, key, keyId) => PutKeepsRows(c, n, w.store, scan, content, key, keyId, i);
    case _ =>
  }

  lemma PutKeepsRows(c: Crypto, n: nat, s: Store, scan: ScanId, content: Bytes, key: Key, keyId: KeyId, i: nat)
    requires n >= 1 && i < |s.artifacts|
    ensures i < |OrElse(PutContent(c, n, s, scan, content, key, keyId), s).artifacts|
    ensures OrElse(PutContent(c, n, s, scan, content, key, keyId), s).artifacts[i] == s.artifacts[i]
  {
  }

  /** Live content survives every run in which nothing deletes its own scan: rotations, other puts, seals and other
      scans' deletions, overlapping or not, leave it reading back exactly. */
  lemma {:induction false} ContentSurvives(c: Crypto, n: nat, w: World, ops: seq<Op>, i: nat, content: Bytes)
    requires Ideal(c) && n >= 1 && WorldGood(c, w) && i < |w.store.artifacts|
    requires c.sha(content) == w.store.artifacts[i].sha
    requires !w.store.artifacts[i].tombstoned && !KeyGone(w.store, w.store.artifacts[i])
    requires forall op | op in ops :: !Deletes(op, w.store.artifacts[i].scan)
    ensures Read(c, Run(c, n, w, ops).store, c.sha(content), Some(w.store.artifacts[i].scan)) == Success(content)
    decreases |ops|
  {
    if ops == [] {
      FindUnique(w.store, i);
      ReadByScan(c, w.store, w.store.artifacts[i].scan, content);
    } else {
      assert ops[0] in ops;
      StepGood(c, n, w, ops[0]);
      StepKeepsRows(c, n, w, ops[0], i);
      StepSpares(c, n, w, ops[0], w.store.artifacts[i].scan);
      KeyStays(w.store, Step(c, n, w, ops[0]).store, w.store.artifacts[i]);
      ContentSurvives(c, n, Step(c, n, w, ops[0]), ops[1..], i, content);
    }
  }

  /** Deleted content never reads again, whatever follows, re-putting the same bytes included. */
  lemma {:induction false} DeletedStaysDeleted(c: Crypto, n: nat, w: World, ops: seq<Op>, i: nat)
    requires Ideal(c) && n >= 1 && WorldGood(c, w)
    requires i < |w.store.artifacts| && w.store.artifacts[i].tombstoned
    ensures Read(c, Run(c, n, w, ops).store, w.store.artifacts[i].sha, Some(w.store.artifacts[i].scan)) == Failure(KeyDestroyed)
    decreases |ops|
  {
    if ops == [] {
      FindUnique(w.store, i);
      var chunks, k :| StoredAs(c, w.store.keys, w.store.artifacts[i], chunks, k);
      ReadByScan(c, w.store, w.store.artifacts[i].scan, Concat(chunks));
    } else {
      StepGood(c, n, w, ops[0]);
      StepKeepsRows(c, n, w, ops[0], i);
      DeletedStaysDeleted(c, n, Step(c, n, w, ops[0]), ops[1..], i);
    }
  }

  lemma StepNoOrphans(c: Crypto, n: nat, w: World, op: Op)
    requires Ideal(c) && n >= 1 && WorldGood(c, w) && Whole(op) && NoOrphans(w.store)
    ensures NoOrphans(Step(c, n, w, op).store)
  {
    var s, t := w.store, Step(c, n, w, op).store;
    StepGood(c, n, w, op);
    forall i | 0 <= i < |t.artifacts| && !t.artifacts[i].tombstoned ensures !KeyGone(t, t.artifacts[i]) {
      if i < |s.artifacts| {
        StepKeepsRows(c, n, w, op, i);
        if op.ODelete? { assert op.scan != s.artifacts[i].scan; }
        StepSpares(c, n, w, op, s.artifacts[i].scan);
        KeyStays(s, t, s.artifacts[i]);
      } else {
        NewRowHasKey(c, n, w, op, i);
      }
    }
  }

  lemma ActiveKeyThere(s: Store, a: Artifact)
    requires KeysGood(s.keys) && ActiveKey(s.keys, a.scan).Some?
             && s.keys[ActiveKey(s.keys, a.scan).value].keyId == a.keyId
    ensures !KeyGone(s, a)
  {
    var active := ActiveKey(s.keys, a.scan).value;
    assert RowConsistent(s.keys[active]);
    var row := FindKey(s.keys, a.scan, a.keyId);
    assert row == Some(active);
  }

  lemma NewRowHasKey(c: Crypto, n: nat, w: World, op: Op, i: nat)
    requires Ideal(c) && n >= 1 && WorldGood(c, w) && Whole(op)
    requires |w.store.artifacts| <= i < |Step(c, n, w, op).store.artifacts|
    ensures !KeyGone(Step(c, n, w, op).store, Step(c, n, w, op).store.artifacts[i])
  {
    PreparedWellStored(c, n, w.store, op.scan, op.content, op.key, op.keyId);
    ActiveKeyThere(Step(c, n, w, op).store, Step(c, n, w, op).store.artifacts[i]);
  }

  lemma {:induction false} RunNoOrphans(c: Crypto, n: nat, w: World, ops: seq<Op>)
    requires Ideal(c) && n >= 1 && WorldGood(c, w) && NoOrphans(w.store)
    requires forall op | op in ops :: Whole(op)
    ensures NoOrphans(Run(c, n, w, ops).store)
    decreases |ops|
  {
    if ops != [] {
      assert ops[0] in ops;
      StepGood(c, n, w, ops[0]);
      StepNoOrphans(c, n, w, ops[0]);
      RunNoOrphans(c, n, Step(c, n, w, ops[0]), ops[1..]);
    }
  }

  /** When operations do not overlap, an artifact reads back exactly until its scan is deleted: the key check
      never fails for a live row. */
  lemma LiveMeansReadable(c: Crypto, n: nat, ops: seq<Op>, scan: ScanId, content: Bytes)
    requires Ideal(c) && n >= 1 && forall op | op in ops :: Whole(op)
    ensures var s := Run(c, n, EMPTY, ops).store;
            var row := FindArtifact(s.artifacts, scan, c.sha(content));
            Read(c, s, c.sha(content), Some(scan)) == Success(content) <==> row.Some? && !s.artifacts[row.value].tombstoned
  {
    RunGood(c, n, EMPTY, ops);
    RunNoOrphans(c, n, EMPTY, ops);
    ReadByScan(c, Run(c, n, EMPTY, ops).store, scan, content);
  }

  /** Overlap breaks that: a put that took its key before a deletion and inserts after it leaves a live row,
      counted by the next seal, that can never be read. */
  lemma PutOverlappingDelete(c: Crypto, n: nat, scan: ScanId, content: Bytes, key: Key, keyId: KeyId)
    requires Ideal(c) && n >= 1
    ensures var w := Run(c, n, EMPTY, [OLookUp(scan, content), OFindKey(0), OMakeKey(0, key, keyId),
                                       OTombstone(scan, []), ODestroy(scan), OInsert(0)]);
            && |w.store.artifacts| == 1 && !w.store.artifacts[0].tombstoned
            && LiveHashes(w.store.artifacts, scan) == [c.sha(content)]
            && Read(c, w.store, c.sha(content), Some(scan)) == Failure(KeyDestroyed)
  {
    var a := NewArtifact(c, n, scan, content, keyId, key);
    var made, gone := KeyRow(scan, keyId, Some(Wrapped(key, scan, keyId)), true, false), KeyRow(scan, keyId, None, false, true);
    var w3 := World(Store([made], [], [], [], []), [Sealed(a)]);
    var w5 := World(Store([gone], [], [], [], [Custody(ScanDeleted, scan, 0)]), [Sealed(a)]);
    var w6 := World(Store([gone], [a], [], [], [Custody(ScanDeleted, scan, 0), Custody(Create, scan, a.sha)]), [Ended]);
    assert Step(c, n, EMPTY, OLookUp(scan, content)) == World(EMPTY.store, [Absent(scan, content)]);
    assert Step(c, n, World(EMPTY.store, [Absent(scan, content)]), OFindKey(0)) == World(EMPTY.store, [Keyless(scan, content)]);
    assert Step(c, n, World(EMPTY.store, [Keyless(scan, content)]), OMakeKey(0, key, keyId)) == w3;
    assert Step(c, n, w3, OTombstone(scan, [])) == w3;
    assert Step(c, n, w3, ODestroy(scan)) == w5;
    assert Step(c, n, w5, OInsert(0)) == w6;
    RunMore(c, n, w5, OInsert(0), []);
    RunMore(c, n, w3, ODestroy(scan), [OInsert(0)]);
    RunMore(c, n, w3, OTombstone(scan, []), [ODestroy(scan), OInsert(0)]);
    RunMore(c, n, World(EMPTY.store, [Keyless(scan, content)]), OMakeKey(0, key, keyId), [OTombstone(scan, []), ODestroy(scan), OInsert(0)]);
    RunMore(c, n, World(EMPTY.store, [Absent(scan, content)]), OFindKey(0),
            [OMakeKey(0, key, keyId), OTombstone(scan, []), ODestroy(scan), OInsert(0)]);
    RunMore(c, n, EMPTY, OLookUp(scan, content),
            [OFindKey(0), OMakeKey(0, key, keyId), OTombstone(scan, []), ODestroy(scan), OInsert(0)]);
    OneOrphan(c, w6.store, gone, a);
  }

  /** The only row is live, and its scan's only key is destroyed. */
  lemma OneOrphan(c: Crypto, s: Store, gone: KeyRow, a: Artifact)
    requires s.keys == [gone] && s.artifacts == [a] && !a.tombstoned
    requires gone == KeyRow(a.scan, a.keyId, None, false, true)
    ensures LiveHashes(s.artifacts, a.scan) == [a.sha] && Read(c, s, a.sha, Some(a.scan)) == Failure(KeyDestroyed)
  {
    assert FindKey(s.keys, a.scan, a.keyId) == Some(0);
    assert FindArtifact(s.artifacts, a.scan, a.sha) == Some(0);
    assert s.artifacts[..0] == [];
  }

  lemma RunMore(c: Crypto, n: nat, w: World, op: Op, ops: seq<Op>)
    requires n >= 1
    ensures Run(c, n, w, [op] + ops) == Run(c, n, Step(c, n, w, op), ops)
  {
    assert ([op] + ops)[1..] == ops;
  }

  // ----- Reads that other operations overlap -----

  /** `_read_no_audit` by its queries: the row is found in one state, its key in the next, its chunks in the last. */
  function ReadAcross(c: Crypto, found: Store, keyed: Store, last: Store, digest: Digest, scan: ScanId): Result<Bytes, Error>
    requires |found.artifacts| <= |last.artifacts|
  {
    var row := FindArtifact(found.artifacts, scan, digest);
    if row.None? then Failure(NotFound)
    else ReadArtifact(c, keyed, found.artifacts[row.value].(chunks := last.artifacts[row.value].chunks), digest)
  }

  lemma {:induction false} RunEvolves(c: Crypto, n: nat, w: World, ops: seq<Op>)
    requires Ideal(c) && n >= 1 && WorldGood(c, w)
    ensures KeysEvolve(w.store.keys, Run(c, n, w, ops).store.keys)
    decreases |ops|
  {
    if ops != [] {
      StepGood(c, n, w, ops[0]);
      RunEvolves(c, n, Step(c, n, w, ops[0]), ops[1..]);
    }
  }

  lemma {:induction false} RunKeepsRows(c: Crypto, n: nat, w: World, ops: seq<Op>, i: nat)
    requires n >= 1 && i < |w.store.artifacts|
    ensures i < |Run(c, n, w, ops).store.artifacts|
    ensures Run(c, n, w, ops).store.artifacts[i].chunks == w.store.artifacts[i].chunks
    decreases |ops|
  {
    if ops != [] {
      StepKeepsRows(c, n, w, ops[0], i);
      RunKeepsRows(c, n, Step(c, n, w, ops[0]), ops[1..], i);
    }
  }

  lemma RunKeepsCount(c: Crypto, n: nat, w: World, ops: seq<Op>)
    requires n >= 1
    ensures |w.store.artifacts| <= |Run(c, n, w, ops).store.artifacts|
  {
    if w.store.artifacts != [] { RunKeepsRows(c, n, w, ops, |w.store.artifacts| - 1); }
  }

  /** A read that other operations overlap gives the exact content exactly when the row was live when it was found and its
      key was there when it was looked up; what happens afterwards does not matter. */
  lemma OverlappedRead(c: Crypto, n: nat, w: World, beforeKey: seq<Op>, beforeChunks: seq<Op>, scan: ScanId, content: Bytes)
    requires Ideal(c) && n >= 1 && WorldGood(c, w)
    ensures |w.store.artifacts| <= |Run(c, n, Run(c, n, w, beforeKey), beforeChunks).store.artifacts|
    ensures var keyed := Run(c, n, w, beforeKey);
            var row := FindArtifact(w.store.artifacts, scan, c.sha(content));
            ReadAcross(c, w.store, keyed.store, Run(c, n, keyed, beforeChunks).store, c.sha(content), scan)
            == if row.None? then Failure(NotFound)
               else if w.store.artifacts[row.value].tombstoned || KeyGone(keyed.store, w.store.artifacts[row.value])
               then Failure(KeyDestroyed)
               else Success(content)
  {
    var keyed := Run(c, n, w, beforeKey);
    var last := Run(c, n, keyed, beforeChunks);
    RunKeepsCount(c, n, w, beforeKey);
    RunKeepsCount(c, n, keyed, beforeChunks);
    var row := FindArtifact(w.store.artifacts, scan, c.sha(content));
    if row.Some? {
      var a := w.store.artifacts[row.value];
      RunKeepsRows(c, n, w, beforeKey, row.value);
      RunKeepsRows(c, n, keyed, beforeChunks, row.value);
      assert a.(chunks := last.store.artifacts[row.value].chunks) == a;
      RunGood(c, n, w, beforeKey);
      RunEvolves(c, n, w, beforeKey);
      StoredEvolves(c, w.store.keys, keyed.store.keys, a);
      ReadsBack(c, keyed.store, a, content);
    }
  }
}
