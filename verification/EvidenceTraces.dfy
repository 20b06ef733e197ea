/** When exactly a stored artifact can be read, in terms of the operations of a run that other operations overlap. */
module EvidenceTraces {
  import opened Wrappers
  import opened EvidenceStore
  import opened EvidenceLifecycle

  /** Of an artifact row: how many operations were done when its put had its key, and when it was inserted. */
  datatype Origin = Origin(taken: nat, inserted: nat)

  /** A world with the origins of its rows and, of its puts under way, when they had their key. */
  datatype Trace = Trace(world: World, origins: seq<Origin>, taken: seq<nat>)

  predicate Tombstones(op: Op, scan: ScanId) {
    (op.ODelete? || op.OTombstone?) && op.scan == scan
  }

  predicate Destroys(op: Op, scan: ScanId) {
    (op.ODelete? || op.ODestroy?) && op.scan == scan
  }

  ghost predicate TombstonedSince(ops: seq<Op>, from: nat, scan: ScanId) {
    exists d | from <= d < |ops| :: Tombstones(ops[d], scan)
  }

  ghost predicate DestroyedSince(ops: seq<Op>, from: nat, scan: ScanId) {
    exists d | from <= d < |ops| :: Destroys(ops[d], scan)
  }

  lemma OneMoreOp(ops: seq<Op>, op: Op, from: nat, scan: ScanId)
    ensures from <= |ops| ==>
              && (TombstonedSince(ops + [op], from, scan) <==> TombstonedSince(ops, from, scan) || Tombstones(op, scan))
              && (DestroyedSince(ops + [op], from, scan) <==> DestroyedSince(ops, from, scan) || Destroys(op, scan))
    ensures !TombstonedSince(ops, |ops|, scan) && !DestroyedSince(ops, |ops|, scan)
  {
    var more := ops + [op];
    assert more[|ops|] == op && forall d | 0 <= d < |ops| :: more[d] == ops[d];
  }

  predicate Sized(t: Trace) {
    |t.origins| == |t.world.store.artifacts| && |t.taken| == |t.world.calls|
  }

  /** The trace after one more operation, the `now`-th. */
  function NextTrace(c: Crypto, n: nat, t: Trace, op: Op, now: nat): Trace
    requires n >= 1 && Sized(t)
  {
    var w := Step(c, n, t.world, op);
    var taken := seq(|w.calls|, i requires 0 <= i < |w.calls| =>
      if i < |t.taken| && (t.world.calls[i].Sealed? || !w.calls[i].Sealed?) then t.taken[i] else now);
    var origins :=
      if |w.store.artifacts| == |t.origins| then t.origins
      else t.origins + [Origin(if op.OInsert? && op.which < |t.taken| then t.taken[op.which] else now, now)];
    Trace(w, origins, taken)
  }

  lemma {:induction false} RunAppended(c: Crypto, n: nat, w: World, ops: seq<Op>, op: Op)
    requires n >= 1
    ensures Run(c, n, w, ops + [op]) == Step(c, n, Run(c, n, w, ops), op)
    decreases |ops|
  {
    if ops == [] {
      RunMore(c, n, w, op, []);
      assert [op] + [] == [op] == ops + [op];
    } else {
      assert (ops + [op])[1..] == ops[1..] + [op];
      RunAppended(c, n, Step(c, n, w, ops[0]), ops[1..], op);
    }
  }

  lemma StepSized(c: Crypto, n: nat, w: World, op: Op)
    requires n >= 1
    ensures |w.store.artifacts| <= |Step(c, n, w, op).store.artifacts| <= |w.store.artifacts| + 1
    ensures |w.calls| <= |Step(c, n, w, op).calls|
  {}

  /** The trace of a run from the empty store. */
  function TraceOf(c: Crypto, n: nat, ops: seq<Op>): (t: Trace)
    requires n >= 1
    ensures t.world == Run(c, n, EMPTY, ops) && Sized(t)
    decreases |ops|
  {
    if ops == [] then Trace(EMPTY, [], [])
    else
      var front := ops[..|ops| - 1];
      var before := TraceOf(c, n, front);
      RunAppended(c, n, EMPTY, front, ops[|ops| - 1]);
      assert ops == front + [ops[|ops| - 1]];
      StepSized(c, n, before.world, ops[|ops| - 1]);
      NextTrace(c, n, before, ops[|ops| - 1], |ops|)
  }

  // ----- What one operation does to a row and to a key -----

  lemma TombstoneStep(c: Crypto, n: nat, w: World, op: Op, i: nat)
    requires n >= 1 && i < |w.store.artifacts|
    ensures i < |Step(c, n, w, op).store.artifacts|
    ensures var a, b := w.store.artifacts[i], Step(c, n, w, op).store.artifacts[i];
            b == if Tombstones(op, a.scan) then a.(tombstoned := true) else a
  {
    if op.OPut? { PutKeepsRows(c, n, w.store, op.scan, op.content, op.key, op.keyId, i); }
  }

  lemma DestroyedStep(c: Crypto, n: nat, w: World, op: Op, i: nat)
    requires n >= 1 && i < |w.store.keys|
    ensures i < |Step(c, n, w, op).store.keys|
    ensures Step(c, n, w, op).store.keys[i].destroyed <==> w.store.keys[i].destroyed || Destroys(op, w.store.keys[i].scan)
  {}

  /** The key of a stored artifact goes exactly when its scan's keys are destroyed. */
  lemma KeyGoneStep(c: Crypto, n: nat, w: World, op: Op, a: Artifact)
    requires Ideal(c) && n >= 1 && WorldGood(c, w) && WellStored(c, w.store.keys, a)
    ensures KeyGone(Step(c, n, w, op).store, a) <==> KeyGone(w.store, a) || Destroys(op, a.scan)
  {
    var chunks, k :| StoredAs(c, w.store.keys, a, chunks, k);
    var i := FindKey(w.store.keys, a.scan, a.keyId).value;
    StepGood(c, n, w, op);
    DestroyedStep(c, n, w, op, i);
    var row := FindKey(Step(c, n, w, op).store.keys, a.scan, a.keyId);
    assert row == Some(i);
  }

  lemma KeyTaken(c: Crypto, n: nat, w: World, op: Op, i: nat)
    requires Ideal(c) && n >= 1 && WorldGood(c, w)
    requires i < |Step(c, n, w, op).calls| && Step(c, n, w, op).calls[i].Sealed?
             && !(i < |w.calls| && w.calls[i].Sealed?)
    ensures !KeyGone(Step(c, n, w, op).store, Step(c, n, w, op).calls[i].artifact)
  {
    var v := Step(c, n, w, op);
    StepGood(c, n, w, op);
    if op.OMakeKey? { NewKeyActive(w.store, w.calls[i].scan, op.key, op.keyId); }
    ActiveKeyThere(v.store, v.calls[i].artifact);
  }

  lemma NewKeyActive(s: Store, scan: ScanId, key: Key, keyId: KeyId)
    requires RotateKey(s, scan, key, keyId).Success?
    ensures var keys := RotateKey(s, scan, key, keyId).value.keys;
            ActiveKey(keys, scan).Some? && keys[ActiveKey(keys, scan).value].keyId == keyId
  {
  }

  // ----- The invariant of traces -----

  ghost predicate RowTraced(s: Store, ops: seq<Op>, a: Artifact, o: Origin) {
    && o.taken <= |ops| && o.inserted <= |ops|
    && (a.tombstoned <==> TombstonedSince(ops, o.inserted, a.scan))
    && (KeyGone(s, a) <==> DestroyedSince(ops, o.taken, a.scan))
  }

  ghost predicate CallTraced(s: Store, ops: seq<Op>, call: Call, taken: nat) {
    taken <= |ops| && (call.Sealed? ==> (KeyGone(s, call.artifact) <==> DestroyedSince(ops, taken, call.artifact.scan)))
  }

  ghost predicate RowsTraced(t: Trace, ops: seq<Op>)
    requires Sized(t)
  {
    forall i | 0 <= i < |t.origins| :: RowTraced(t.world.store, ops, t.world.store.artifacts[i], t.origins[i])
  }

  ghost predicate CallsTraced(t: Trace, ops: seq<Op>)
    requires Sized(t)
  {
    forall i | 0 <= i < |t.taken| :: CallTraced(t.world.store, ops, t.world.calls[i], t.taken[i])
  }

  lemma OldRowTraced(c: Crypto, n: nat, w: World, ops: seq<Op>, op: Op, i: nat, o: Origin)
    requires Ideal(c) && n >= 1 && WorldGood(c, w) && i < |w.store.artifacts|
             && RowTraced(w.store, ops, w.store.artifacts[i], o)
    ensures i < |Step(c, n, w, op).store.artifacts|
    ensures RowTraced(Step(c, n, w, op).store, ops + [op], Step(c, n, w, op).store.artifacts[i], o)
  {
    var a := w.store.artifacts[i];
    TombstoneStep(c, n, w, op, i);
    KeyGoneStep(c, n, w, op, a);
    OneMoreOp(ops, op, o.taken, a.scan);
    OneMoreOp(ops, op, o.inserted, a.scan);
    assert KeyGone(Step(c, n, w, op).store, a.(tombstoned := true)) == KeyGone(Step(c, n, w, op).store, a);
  }

  lemma NewRowTraced(c: Crypto, n: nat, t: Trace, ops: seq<Op>, op: Op)
    requires Ideal(c) && n >= 1 && WorldGood(c, t.world) && Sized(t) && CallsTraced(t, ops)
    requires |Step(c, n, t.world, op).store.artifacts| == |t.origins| + 1
    ensures var u := NextTrace(c, n, t, op, |ops| + 1);
            |u.origins| == |t.origins| + 1 && RowTraced(u.world.store, ops + [op], u.world.store.artifacts[|t.origins|], u.origins[|t.origins|])
  {
    var w, u := t.world, NextTrace(c, n, t, op, |ops| + 1);
    var a, o := u.world.store.artifacts[|t.origins|], u.origins[|t.origins|];
    assert |ops + [op]| == |ops| + 1;
    OneMoreOp(ops + [op], op, 0, a.scan);
    if op.OInsert? {
      assert CallGood(c, w.store.keys, w.calls[op.which]) && CallTraced(w.store, ops, w.calls[op.which], t.taken[op.which]);
      KeyGoneStep(c, n, w, op, a);
      OneMoreOp(ops, op, o.taken, a.scan);
    } else {
      NewRowHasKey(c, n, w, op, |t.origins|);
    }
  }

  lemma CallStaysTraced(c: Crypto, n: nat, t: Trace, ops: seq<Op>, op: Op, i: nat)
    requires Ideal(c) && n >= 1 && WorldGood(c, t.world) && Sized(t) && CallsTraced(t, ops)
    requires i < |Step(c, n, t.world, op).calls|
    ensures var u := NextTrace(c, n, t, op, |ops| + 1);
            CallTraced(u.world.store, ops + [op], u.world.calls[i], u.taken[i])
  {
    var w, u := t.world, NextTrace(c, n, t, op, |ops| + 1);
    var call := u.world.calls[i];
    if i < |w.calls| { assert CallTraced(w.store, ops, w.calls[i], t.taken[i]); }
    if call.Sealed? {
      if i < |w.calls| && w.calls[i].Sealed? {
        assert call == w.calls[i] && CallGood(c, w.store.keys, call);
        KeyGoneStep(c, n, w, op, call.artifact);
        OneMoreOp(ops, op, t.taken[i], call.artifact.scan);
      } else {
        KeyTaken(c, n, w, op, i);
        OneMoreOp(ops + [op], op, 0, call.artifact.scan);
      }
    }
  }

  lemma {:induction false} TraceHolds(c: Crypto, n: nat, ops: seq<Op>)
    requires Ideal(c) && n >= 1
    ensures RowsTraced(TraceOf(c, n, ops), ops) && CallsTraced(TraceOf(c, n, ops), ops)
    decreases |ops|
  {
    if ops != [] {
      var front, op := ops[..|ops| - 1], ops[|ops| - 1];
      var t := TraceOf(c, n, front);
      TraceHolds(c, n, front);
      RunGood(c, n, EMPTY, front);
      assert ops == front + [op];
      TraceStep(c, n, t, front, op);
    }
  }

  lemma TraceStep(c: Crypto, n: nat, t: Trace, ops: seq<Op>, op: Op)
    requires Ideal(c) && n >= 1 && WorldGood(c, t.world) && Sized(t) && RowsTraced(t, ops) && CallsTraced(t, ops)
    ensures var u := NextTrace(c, n, t, op, |ops| + 1);
            Sized(u) && RowsTraced(u, ops + [op]) && CallsTraced(u, ops + [op])
  {
    var u := NextTrace(c, n, t, op, |ops| + 1);
    StepSized(c, n, t.world, op);
    forall i | 0 <= i < |u.origins|
      ensures RowTraced(u.world.store, ops + [op], u.world.store.artifacts[i], u.origins[i])
    {
      if i < |t.origins| {
        assert RowTraced(t.world.store, ops, t.world.store.artifacts[i], t.origins[i]);
        OldRowTraced(c, n, t.world, ops, op, i, t.origins[i]);
      } else {
        NewRowTraced(c, n, t, ops, op);
      }
    }
    forall i | 0 <= i < |u.taken| ensures CallTraced(u.world.store, ops + [op], u.world.calls[i], u.taken[i]) {
      CallStaysTraced(c, n, t, ops, op, i);
    }
  }

  /** In every run from the empty store, overlapping operations included: a stored content reads back exactly when no
      tombstoning of its scan came after its row was inserted and no destruction of its scan's keys after its put had the
      key. So a live row is unreadable exactly when the keys were destroyed after its put had taken one of them. */
  lemma ReadableExactly(c: Crypto, n: nat, ops: seq<Op>, scan: ScanId, content: Bytes)
    requires Ideal(c) && n >= 1
    ensures var t := TraceOf(c, n, ops);
            var row := FindArtifact(t.world.store.artifacts, scan, c.sha(content));
            && (row.Some? ==> (t.world.store.artifacts[row.value].tombstoned <==> TombstonedSince(ops, t.origins[row.value].inserted, scan)))
            && Read(c, t.world.store, c.sha(content), Some(scan))
            == if row.None? then Failure(NotFound)
               else if TombstonedSince(ops, t.origins[row.value].inserted, scan) || DestroyedSince(ops, t.origins[row.value].taken, scan)
               then Failure(KeyDestroyed)
               else Success(content)
  {
    var t := TraceOf(c, n, ops);
    TraceHolds(c, n, ops);
    RunGood(c, n, EMPTY, ops);
    ReadByScan(c, t.world.store, scan, content);
    var row := FindArtifact(t.world.store.artifacts, scan, c.sha(content));
    if row.Some? { assert RowTraced(t.world.store, ops, t.world.store.artifacts[row.value], t.origins[row.value]); }
  }
}
