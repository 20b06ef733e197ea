/** What a seal of a scan's evidence certifies, over runs of the store that overlap it. */
module EvidenceSeals {
  import opened Wrappers
  import opened Sorting
  import opened Merkle
  import opened EvidenceStore
  import opened EvidenceLifecycle

  lemma LastRootAppended(roots: seq<RootRow>, row: RootRow)
    ensures LastRoot(roots + [row], row.scan) == Some(row)
  {
  }

  /** How many rows of live evidence, artifacts and flows, hold this hash for the scan. */
  function Held(artifacts: seq<Artifact>, flows: seq<FlowRow>, scan: ScanId, digest: Digest): nat {
    |LiveAt(artifacts, scan, digest)| + |FlowsAt(flows, scan, digest)|
  }

  /** The scan's evidence is the same, hash by hash and row by row. */
  ghost predicate SameEvidence(artifacts: seq<Artifact>, flows: seq<FlowRow>, otherArtifacts: seq<Artifact>, otherFlows: seq<FlowRow>,
                               scan: ScanId) {
    forall digest :: Held(artifacts, flows, scan, digest) == Held(otherArtifacts, otherFlows, scan, digest)
  }

  lemma LeavesHeld(artifacts: seq<Artifact>, flows: seq<FlowRow>, scan: ScanId, digest: Digest)
    ensures multiset(Leaves(LiveHashes(artifacts, scan), FlowHashes(flows, scan)))[digest] == Held(artifacts, flows, scan, digest)
  {
    LeavesBag(LiveHashes(artifacts, scan), FlowHashes(flows, scan));
    LiveCount(artifacts, scan, digest);
    FlowCount(flows, scan, digest);
  }

  lemma SameLeaves(artifacts: seq<Artifact>, flows: seq<FlowRow>, otherArtifacts: seq<Artifact>, otherFlows: seq<FlowRow>, scan: ScanId)
    ensures multiset(Leaves(LiveHashes(artifacts, scan), FlowHashes(flows, scan)))
         == multiset(Leaves(LiveHashes(otherArtifacts, scan), FlowHashes(otherFlows, scan)))
       <==> SameEvidence(artifacts, flows, otherArtifacts, otherFlows, scan)
  {
    var a, b := multiset(Leaves(LiveHashes(artifacts, scan), FlowHashes(flows, scan))),
                multiset(Leaves(LiveHashes(otherArtifacts, scan), FlowHashes(otherFlows, scan)));
    forall digest
      ensures a[digest] == Held(artifacts, flows, scan, digest) && b[digest] == Held(otherArtifacts, otherFlows, scan, digest)
    {
      LeavesHeld(artifacts, flows, scan, digest);
      LeavesHeld(otherArtifacts, otherFlows, scan, digest);
    }
    if SameEvidence(artifacts, flows, otherArtifacts, otherFlows, scan) {
      forall digest ensures a[digest] == b[digest] {
        assert Held(artifacts, flows, scan, digest) == Held(otherArtifacts, otherFlows, scan, digest);
      }
      assert a == b;
    }
  }

  lemma LeavesBag(live: seq<Digest>, flows: seq<Digest>)
    ensures multiset(Leaves(live, flows)) == multiset(live) + multiset(flows)
  {
    DigestLeTotalOrder();
    SortSorts(live, DigestLe);
    SortSorts(flows, DigestLe);
  }

  /** The root of `leaves` matches other leaves exactly when those are the same multiset. */
  lemma RootCertifies(c: Crypto, leaves: seq<Digest>, now: seq<Digest>, scan: ScanId)
    requires Ideal(c)
    ensures Matches(c, Some(RootOf(c, scan, leaves)), now) <==> multiset(now) == multiset(leaves)
  {
    assert |multiset(leaves)| == |leaves| && |multiset(now)| == |now|;
    if |leaves| == |now| { RootFixesLeaves(leaves, now, c.pair, c.sha([])); }
  }

  /** No step of the run records a root for the scan. */
  ghost predicate Unsealed(c: Crypto, n: nat, w: World, ops: seq<Op>, scan: ScanId)
    requires n >= 1
    decreases |ops|
  {
    ops == [] || (!Seals(w, ops[0], scan) && Unsealed(c, n, Step(c, n, w, ops[0]), ops[1..], scan))
  }

  predicate Seals(w: World, op: Op, scan: ScanId) {
    || (op.OSeal? && op.scan == scan)
    || (op.ORecord? && op.which < |w.calls| && w.calls[op.which].Hashed? && w.calls[op.which].scan == scan)
  }

  lemma OtherRootAppended(roots: seq<RootRow>, row: RootRow, scan: ScanId)
    requires row.scan != scan
    ensures LastRoot(roots + [row], scan) == LastRoot(roots, scan)
  {
    assert (roots + [row])[..|roots|] == roots;
  }

  lemma StepKeepsRoot(c: Crypto, n: nat, w: World, op: Op, scan: ScanId)
    requires n >= 1 && !Seals(w, op, scan)
    ensures LastRoot(Step(c, n, w, op).store.roots, scan) == LastRoot(w.store.roots, scan)
  {
    match op
    case OSeal(other) => OtherRootAppended(w.store.roots, RootOf(c, other, EvidenceHashes(w.store, other)), scan);
    case ORecord(which) =>
      if which < |w.calls| && w.calls[which].Hashed? {
        OtherRootAppended(w.store.roots, RootOf(c, w.calls[which].scan, w.calls[which].leaves), scan);
      }
    case _ =>
  }

  lemma {:induction false} RunKeepsRoot(c: Crypto, n: nat, w: World, ops: seq<Op>, scan: ScanId)
    requires n >= 1 && Unsealed(c, n, w, ops, scan)
    ensures LastRoot(Run(c, n, w, ops).store.roots, scan) == LastRoot(w.store.roots, scan)
    decreases |ops|
  {
    if ops != [] {
      StepKeepsRoot(c, n, w, ops[0], scan);
      RunKeepsRoot(c, n, Step(c, n, w, ops[0]), ops[1..], scan);
    }
  }

  /** After a seal, and whatever follows without sealing the scan again, verification succeeds exactly when the scan has, for
      every hash, as many live artifact rows and flow rows as it had at the seal. */
  lemma VerifyMeansUnchanged(c: Crypto, n: nat, w: World, ops: seq<Op>, scan: ScanId)
    requires Ideal(c) && n >= 1 && Unsealed(c, n, Step(c, n, w, OSeal(scan)), ops, scan)
    ensures var s := Run(c, n, Step(c, n, w, OSeal(scan)), ops).store;
            VerifySeal(c, s, scan) <==> SameEvidence(s.artifacts, s.flows, w.store.artifacts, w.store.flows, scan)
  {
    var leaves := EvidenceHashes(w.store, scan);
    var t := Run(c, n, Step(c, n, w, OSeal(scan)), ops).store;
    SameLeaves(t.artifacts, t.flows, w.store.artifacts, w.store.flows, scan);
    LastRootAppended(w.store.roots, RootOf(c, scan, leaves));
    RunKeepsRoot(c, n, Step(c, n, w, OSeal(scan)), ops, scan);
    RootCertifies(c, leaves, EvidenceHashes(Run(c, n, Step(c, n, w, OSeal(scan)), ops).store, scan), scan);
  }

  /** The thread of call `which` does not move on. */
  predicate Waiting(op: Op, which: nat) {
    op != OHashFlows(which) && op != ORecord(which)
  }

  lemma SealWaitsStep(c: Crypto, n: nat, w: World, op: Op, which: nat)
    requires n >= 1 && which < |w.calls| && (w.calls[which].HalfHashed? || w.calls[which].Hashed?) && Waiting(op, which)
    ensures which < |Step(c, n, w, op).calls| && Step(c, n, w, op).calls[which] == w.calls[which]
  {}

  lemma {:induction false} SealWaits(c: Crypto, n: nat, w: World, ops: seq<Op>, which: nat)
    requires n >= 1 && which < |w.calls| && (w.calls[which].HalfHashed? || w.calls[which].Hashed?)
    requires forall op | op in ops :: Waiting(op, which)
    ensures which < |Run(c, n, w, ops).calls| && Run(c, n, w, ops).calls[which] == w.calls[which]
    decreases |ops|
  {
    if ops != [] {
      assert ops[0] in ops;
      SealWaitsStep(c, n, w, ops[0], which);
      SealWaits(c, n, Step(c, n, w, ops[0]), ops[1..], which);
    }
  }

  /** When a seal that began at `w` reads the flows, after other operations `a`. */
  function FlowsReadAt(c: Crypto, n: nat, w: World, a: seq<Op>, scan: ScanId): World
    requires n >= 1
  {
    Run(c, n, Step(c, n, w, OHashArtifacts(scan)), a)
  }

  /** When it has recorded its root, after further operations `b`. */
  function RecordedAt(c: Crypto, n: nat, w: World, a: seq<Op>, b: seq<Op>, scan: ScanId): World
    requires n >= 1
  {
    Step(c, n, Run(c, n, Step(c, n, FlowsReadAt(c, n, w, a, scan), OHashFlows(|w.calls|)), b), ORecord(|w.calls|))
  }

  lemma FlowsAreRead(c: Crypto, n: nat, w: World, a: seq<Op>, scan: ScanId)
    requires n >= 1 && forall op | op in a :: Waiting(op, |w.calls|)
    ensures var read := Step(c, n, FlowsReadAt(c, n, w, a, scan), OHashFlows(|w.calls|));
            && |w.calls| < |read.calls|
            && read.calls[|w.calls|] == Hashed(scan, Leaves(LiveHashes(w.store.artifacts, scan),
                                                            FlowHashes(FlowsReadAt(c, n, w, a, scan).store.flows, scan)))
  {
    SealWaits(c, n, Step(c, n, w, OHashArtifacts(scan)), a, |w.calls|);
  }

  lemma RecordedRoot(c: Crypto, n: nat, w: World, a: seq<Op>, b: seq<Op>, scan: ScanId)
    requires n >= 1 && forall op | op in a + b :: Waiting(op, |w.calls|)
    ensures LastRoot(RecordedAt(c, n, w, a, b, scan).store.roots, scan)
         == Some(RootOf(c, scan, Leaves(LiveHashes(w.store.artifacts, scan),
                                        FlowHashes(FlowsReadAt(c, n, w, a, scan).store.flows, scan))))
  {
    assert (forall op | op in a :: op in a + b) && (forall op | op in b :: op in a + b);
    FlowsAreRead(c, n, w, a, scan);
    var read := Step(c, n, FlowsReadAt(c, n, w, a, scan), OHashFlows(|w.calls|));
    SealWaits(c, n, read, b, |w.calls|);
    var y := Run(c, n, read, b);
    LastRootAppended(y.store.roots, RootOf(c, scan, y.calls[|w.calls|].leaves));
  }

  /** A seal that other operations overlap certifies the artifacts of one moment and the flows of a later one, and a
      verification that they overlap compares them with those of two moments of its own: it succeeds exactly when they are
      the same together, row by row. */
  lemma OverlappedSeal(c: Crypto, n: nat, w: World, a: seq<Op>, b: seq<Op>, beforeRoot: seq<Op>, beforeArtifacts: seq<Op>,
                       beforeFlows: seq<Op>, scan: ScanId)
    requires Ideal(c) && n >= 1 && forall op | op in a + b :: Waiting(op, |w.calls|)
    requires Unsealed(c, n, RecordedAt(c, n, w, a, b, scan), beforeRoot, scan)
    ensures var rootRead := Run(c, n, RecordedAt(c, n, w, a, b, scan), beforeRoot);
            var artifactsRead := Run(c, n, rootRead, beforeArtifacts);
            var flowsRead := Run(c, n, artifactsRead, beforeFlows);
            var live, flows := LiveHashes(artifactsRead.store.artifacts, scan), FlowHashes(flowsRead.store.flows, scan);
            Matches(c, LastRoot(rootRead.store.roots, scan), Leaves(live, flows))
            <==> SameEvidence(artifactsRead.store.artifacts, flowsRead.store.flows,
                              w.store.artifacts, FlowsReadAt(c, n, w, a, scan).store.flows, scan)
  {
    var sealed := RecordedAt(c, n, w, a, b, scan);
    var rootRead := Run(c, n, sealed, beforeRoot);
    var artifactsRead := Run(c, n, rootRead, beforeArtifacts);
    var flowsRead := Run(c, n, artifactsRead, beforeFlows);
    var was, then_ := LiveHashes(w.store.artifacts, scan), FlowHashes(FlowsReadAt(c, n, w, a, scan).store.flows, scan);
    var live, flows := LiveHashes(artifactsRead.store.artifacts, scan), FlowHashes(flowsRead.store.flows, scan);
    RecordedRoot(c, n, w, a, b, scan);
    RunKeepsRoot(c, n, sealed, beforeRoot, scan);
    RootCertifies(c, Leaves(was, then_), Leaves(live, flows), scan);
    SameLeaves(artifactsRead.store.artifacts, flowsRead.store.flows, w.store.artifacts, FlowsReadAt(c, n, w, a, scan).store.flows, scan);
  }

  predicate NoFlow(ops: seq<Op>, scan: ScanId) {
    forall op | op in ops :: !(op.OFlow? && op.scan == scan)
  }

  lemma FlowsStayStep(c: Crypto, n: nat, w: World, op: Op, scan: ScanId)
    requires n >= 1 && !(op.OFlow? && op.scan == scan)
    ensures FlowHashes(Step(c, n, w, op).store.flows, scan) == FlowHashes(w.store.flows, scan)
  {
    if op.OFlow? { assert (w.store.flows + [FlowRow(op.scan, op.digest)])[..|w.store.flows|] == w.store.flows; }
  }

  lemma {:induction false} FlowsStay(c: Crypto, n: nat, w: World, ops: seq<Op>, scan: ScanId)
    requires n >= 1 && NoFlow(ops, scan)
    ensures FlowHashes(Run(c, n, w, ops).store.flows, scan) == FlowHashes(w.store.flows, scan)
    decreases |ops|
  {
    if ops != [] {
      assert ops[0] in ops;
      FlowsStayStep(c, n, w, ops[0], scan);
      FlowsStay(c, n, Step(c, n, w, ops[0]), ops[1..], scan);
    }
  }

  /** When no flow of the scan is captured between its two queries, an overlapped seal certifies the evidence as it was
      when it began. */
  lemma UndisturbedSeal(c: Crypto, n: nat, w: World, a: seq<Op>, b: seq<Op>, ops: seq<Op>, scan: ScanId)
    requires Ideal(c) && n >= 1 && NoFlow(a, scan) && forall op | op in a + b :: Waiting(op, |w.calls|)
    requires Unsealed(c, n, RecordedAt(c, n, w, a, b, scan), ops, scan)
    ensures var s := Run(c, n, RecordedAt(c, n, w, a, b, scan), ops).store;
            VerifySeal(c, s, scan) <==> SameEvidence(s.artifacts, s.flows, w.store.artifacts, w.store.flows, scan)
  {
    var sealed := RecordedAt(c, n, w, a, b, scan);
    var t := Run(c, n, sealed, ops).store;
    SameLeaves(t.artifacts, t.flows, w.store.artifacts, w.store.flows, scan);
    FlowsStay(c, n, Step(c, n, w, OHashArtifacts(scan)), a, scan);
    RecordedRoot(c, n, w, a, b, scan);
    RunKeepsRoot(c, n, sealed, ops, scan);
    RootCertifies(c, EvidenceHashes(w.store, scan), EvidenceHashes(Run(c, n, sealed, ops).store, scan), scan);
  }

  lemma PutIntoEmpty(c: Crypto, n: nat, scan: ScanId, content: Bytes, key: Key, keyId: KeyId)
    requires n >= 1
    ensures var w := Step(c, n, EMPTY, OPut(scan, content, key, keyId));
            w.calls == [] && w.store.flows == [] && LiveHashes(w.store.artifacts, scan) == [c.sha(content)]
  {
    var w := Step(c, n, EMPTY, OPut(scan, content, key, keyId));
    assert w.store.artifacts == [NewArtifact(c, n, scan, content, keyId, key)] && w.store.artifacts[..0] == [];
  }

  lemma SingleLeaves(a: Digest, b: Digest)
    ensures Leaves([], []) == [] && Leaves([a], []) == [a] && Leaves([], [b]) == [b] && Leaves([a], [b]) == [a, b]
  {
    SortOfSorted([a], DigestLe);
    SortOfSorted([b], DigestLe);
    SortOfSorted<Digest>([], DigestLe);
  }

  /** Between the queries of a seal the artifact it read is deleted and a flow is captured. */
  lemma ReplacedMeanwhile(c: Crypto, n: nat, w: World, scan: ScanId, flow: Digest)
    requires n >= 1 && w.store.flows == []
    ensures var x := FlowsReadAt(c, n, w, [ODelete(scan), OFlow(scan, flow)], scan);
            LiveHashes(x.store.artifacts, scan) == [] && FlowHashes(x.store.flows, scan) == [flow]
  {
    var first := Step(c, n, w, OHashArtifacts(scan));
    var second := Step(c, n, first, ODelete(scan));
    RunMore(c, n, first, ODelete(scan), [OFlow(scan, flow)]);
    RunMore(c, n, second, OFlow(scan, flow), []);
    assert [ODelete(scan)] + [OFlow(scan, flow)] == [ODelete(scan), OFlow(scan, flow)];
    NothingLiveAfterTombstone(w.store.artifacts, scan);
    assert Step(c, n, second, OFlow(scan, flow)).store.flows == [FlowRow(scan, flow)];
    assert [FlowRow(scan, flow)][..0] == [];
  }

  /** A seal can certify what the scan's evidence never was: the artifact it read is deleted and a flow captured before it
      reads the flows. It does not verify, not even right after it was recorded. */
  lemma MixedSeal(c: Crypto, n: nat, scan: ScanId, content: Bytes, key: Key, keyId: KeyId, flow: Digest)
    requires Ideal(c) && n >= 1
    ensures var a, w := [ODelete(scan), OFlow(scan, flow)], Step(c, n, EMPTY, OPut(scan, content, key, keyId));
            var sealed := RecordedAt(c, n, w, a, [], scan).store;
            && LastRoot(sealed.roots, scan) == Some(RootOf(c, scan, [c.sha(content), flow]))
            && EvidenceHashes(w.store, scan) == [c.sha(content)]
            && EvidenceHashes(Step(c, n, w, ODelete(scan)).store, scan) == []
            && EvidenceHashes(sealed, scan) == [flow]
            && !VerifySeal(c, sealed, scan)
  {
    var a, w := [ODelete(scan), OFlow(scan, flow)], Step(c, n, EMPTY, OPut(scan, content, key, keyId));
    PutIntoEmpty(c, n, scan, content, key, keyId);
    SingleLeaves(c.sha(content), flow);
    ReplacedMeanwhile(c, n, w, scan, flow);
    NothingLiveAfterTombstone(w.store.artifacts, scan);
    RecordedRoot(c, n, w, a, [], scan);
    RecordKeepsEvidence(c, n, w, a, scan);
  }

  /** Recording a root changes no evidence. */
  lemma RecordKeepsEvidence(c: Crypto, n: nat, w: World, a: seq<Op>, scan: ScanId)
    requires n >= 1
    ensures RecordedAt(c, n, w, a, [], scan).store.artifacts == FlowsReadAt(c, n, w, a, scan).store.artifacts
    ensures RecordedAt(c, n, w, a, [], scan).store.flows == FlowsReadAt(c, n, w, a, scan).store.flows
  {
  }

  // ----- Evidence that comes or goes after a seal -----

  lemma {:induction false} RunKeepsEvidence(c: Crypto, n: nat, w: World, ops: seq<Op>, scan: ScanId, digest: Digest)
    requires n >= 1 && forall op | op in ops :: !Deletes(op, scan)
    ensures LiveAt(w.store.artifacts, scan, digest) <= LiveAt(Run(c, n, w, ops).store.artifacts, scan, digest)
    ensures w.store.flows <= Run(c, n, w, ops).store.flows
    decreases |ops|
  {
    if ops != [] {
      assert ops[0] in ops;
      forall i | i in LiveAt(w.store.artifacts, scan, digest)
        ensures i in LiveAt(Step(c, n, w, ops[0]).store.artifacts, scan, digest)
      {
        StepKeepsRows(c, n, w, ops[0], i);
      }
      StepKeepsFlows(c, n, w, ops[0]);
      RunKeepsEvidence(c, n, Step(c, n, w, ops[0]), ops[1..], scan, digest);
    }
  }

  lemma StepKeepsFlows(c: Crypto, n: nat, w: World, op: Op)
    requires n >= 1
    ensures w.store.flows <= Step(c, n, w, op).store.flows
  {}

  lemma SubsetSize<T>(a: set<T>, b: set<T>)
    requires a <= b
    ensures |a| <= |b| && (a != b ==> |a| < |b|)
  {
    if a != b { assert b == a + (b - a) && b - a != {}; }
    assert b == a + (b - a);
  }

  /** A flow captured after a seal makes verification fail as long as nothing of the scan is deleted and it is not sealed
      again, whatever else is put, captured or read. */
  lemma NewFlowBreaksSeal(c: Crypto, n: nat, w: World, before: seq<Op>, after: seq<Op>, scan: ScanId, flow: Digest)
    requires Ideal(c) && n >= 1 && forall op | op in before + [OFlow(scan, flow)] + after :: !Deletes(op, scan)
    requires Unsealed(c, n, Step(c, n, w, OSeal(scan)), before + [OFlow(scan, flow)] + after, scan)
    ensures !VerifySeal(c, Run(c, n, Step(c, n, w, OSeal(scan)), before + [OFlow(scan, flow)] + after).store, scan)
  {
    var ops, sealed := before + [OFlow(scan, flow)] + after, Step(c, n, w, OSeal(scan));
    var end := Run(c, n, sealed, ops).store;
    VerifyMeansUnchanged(c, n, w, ops, scan);
    RunKeepsEvidence(c, n, sealed, ops, scan, flow);
    FlowIsNew(c, n, sealed, before, after, scan, flow);
    SubsetSize(LiveAt(w.store.artifacts, scan, flow), LiveAt(end.artifacts, scan, flow));
    SubsetSize(FlowsAt(w.store.flows, scan, flow), FlowsAt(end.flows, scan, flow));
    assert Held(end.artifacts, end.flows, scan, flow) > Held(w.store.artifacts, w.store.flows, scan, flow);
  }

  lemma FlowIsNew(c: Crypto, n: nat, w: World, before: seq<Op>, after: seq<Op>, scan: ScanId, flow: Digest)
    requires n >= 1
    ensures var flows := Run(c, n, w, before + [OFlow(scan, flow)] + after).store.flows;
            FlowsAt(w.store.flows, scan, flow) <= FlowsAt(flows, scan, flow)
               && FlowsAt(w.store.flows, scan, flow) != FlowsAt(flows, scan, flow)
  {
    var mid := Run(c, n, w, before);
    var v := Step(c, n, mid, OFlow(scan, flow));
    RunParts(c, n, w, before, [OFlow(scan, flow)] + after);
    RunMore(c, n, mid, OFlow(scan, flow), after);
    assert before + [OFlow(scan, flow)] + after == before + ([OFlow(scan, flow)] + after);
    FlowsGrow(c, n, w, before);
    FlowsGrow(c, n, v, after);
    assert |mid.store.flows| in FlowsAt(Run(c, n, v, after).store.flows, scan, flow);
    assert |mid.store.flows| !in FlowsAt(w.store.flows, scan, flow);
  }

  lemma {:induction false} FlowsGrow(c: Crypto, n: nat, w: World, ops: seq<Op>)
    requires n >= 1
    ensures w.store.flows <= Run(c, n, w, ops).store.flows
    decreases |ops|
  {
    if ops != [] {
      StepKeepsFlows(c, n, w, ops[0]);
      FlowsGrow(c, n, Step(c, n, w, ops[0]), ops[1..]);
    }
  }

  lemma {:induction false} RunParts(c: Crypto, n: nat, w: World, a: seq<Op>, b: seq<Op>)
    requires n >= 1
    ensures Run(c, n, w, a + b) == Run(c, n, Run(c, n, w, a), b)
    decreases |a|
  {
    if a == [] {
      assert a + b == b;
    } else {
      assert (a + b)[0] == a[0] && (a + b)[1..] == a[1..] + b;
      RunParts(c, n, Step(c, n, w, a[0]), a[1..], b);
    }
  }

  /** Right after sealing, verification succeeds. */
  lemma SealVerifies(c: Crypto, s: Store, scan: ScanId)
    ensures VerifySeal(c, Seal(c, s, scan), scan)
  {
    LastRootAppended(s.roots, RootOf(c, scan, EvidenceHashes(s, scan)));
  }

  lemma {:induction false} NothingLiveAfterTombstone(artifacts: seq<Artifact>, scan: ScanId)
    ensures LiveHashes(Tombstoned(artifacts, scan), scan) == []
    decreases |artifacts|
  {
    if artifacts != [] {
      var front := artifacts[..|artifacts| - 1];
      assert Tombstoned(artifacts, scan)[..|artifacts| - 1] == Tombstoned(front, scan);
      NothingLiveAfterTombstone(front, scan);
    }
  }

  /** Deleting a sealed scan's evidence invalidates its seal exactly when a live artifact had been sealed. */
  lemma DeleteBreaksSeal(c: Crypto, s: Store, scan: ScanId)
    requires Ideal(c)
    ensures VerifySeal(c, DeleteScan(Seal(c, s, scan), scan), scan) <==> LiveHashes(s.artifacts, scan) == []
  {
    var sealed := Seal(c, s, scan);
    var t := DeleteScan(sealed, scan);
    LastRootAppended(s.roots, RootOf(c, scan, EvidenceHashes(s, scan)));
    RootCertifies(c, EvidenceHashes(s, scan), EvidenceHashes(t, scan), scan);
    NothingLiveAfterTombstone(s.artifacts, scan);
    DigestLeTotalOrder();
    SortSorts(LiveHashes(s.artifacts, scan), DigestLe);
    SortSorts(LiveHashes(t.artifacts, scan), DigestLe);
    assert |multiset(EvidenceHashes(s, scan))| == |EvidenceHashes(s, scan)|;
    assert |multiset(EvidenceHashes(t, scan))| == |EvidenceHashes(t, scan)|;
  }
}
