/** The hash-chained audit log (app/security/audit.py).

    The digest of a record is any injective function of the previous digest and the record that never
    gives the genesis value; digests are unbounded numbers so that such a function exists. */
module AuditLog {
  import opened Wrappers
  import opened Text

  type Hash = nat

  const GENESIS: Hash := 0

  datatype Record<D> = Record(time: int, event: string, data: D, prev: Option<Hash>)

  /** One line of the file: empty, not a record with a hash, or a record. */
  datatype Line<D> = Empty | Garbled | Entry(record: Record<D>, hash: Hash)

  type Digest<!D> = (Hash, Record<D>) -> Hash

  ghost predicate Ideal<D(!new)>(h: Digest<D>) {
    && (forall p, r, q, t :: h(p, r) == h(q, t) ==> p == q && r == t)
    && (forall p, r :: h(p, r) != GENESIS)
  }

  function Entries<D>(lines: seq<Line<D>>): (es: seq<Line<D>>)
    ensures forall e | e in es :: e.Entry?
  {
    if lines == [] then []
    else
      var earlier := Entries(lines[..|lines| - 1]);
      if lines[|lines| - 1].Entry? then earlier + [lines[|lines| - 1]] else earlier
  }

  predicate AnyGarbled<D>(lines: seq<Line<D>>) {
    exists i | 0 <= i < |lines| :: lines[i].Garbled?
  }

  function HashBefore<D>(es: seq<Line<D>>, i: nat): Hash
    requires i <= |es| && forall e | e in es :: e.Entry?
  {
    if i == 0 then GENESIS else assert es[i - 1] in es; es[i - 1].hash
  }

  /** Each record names the digest before it and carries its own. */
  predicate Linked<D(==)>(h: Digest<D>, es: seq<Line<D>>, i: nat)
    requires i < |es| && forall e | e in es :: e.Entry?
  {
    assert es[i] in es;
    && es[i].record.prev == Some(HashBefore(es, i))
    && es[i].hash == h(HashBefore(es, i), es[i].record)
  }

  predicate Chained<D(==)>(h: Digest<D>, es: seq<Line<D>>)
    requires forall e | e in es :: e.Entry?
  {
    forall i | 0 <= i < |es| :: Linked(h, es, i)
  }

  predicate Verifies<D(==)>(h: Digest<D>, lines: seq<Line<D>>) {
    !AnyGarbled(lines) && Chained(h, Entries(lines))
  }

  function LastHash<D>(lines: seq<Line<D>>): Hash {
    HashBefore(Entries(lines), |Entries(lines)|)
  }

  /** The record that `append` writes. */
  function NewEntry<D>(h: Digest<D>, lines: seq<Line<D>>, time: int, event: string, data: D): Line<D> {
    var record := Record(time, Strip(event), data, Some(LastHash(lines)));
    Entry(record, h(LastHash(lines), record))
  }

  lemma EntriesAppended<D>(lines: seq<Line<D>>, line: Line<D>)
    ensures Entries(lines + [line]) == if line.Entry? then Entries(lines) + [line] else Entries(lines)
  {
    assert (lines + [line])[..|lines|] == lines;
  }

  lemma ChainedAppended<D>(h: Digest<D>, es: seq<Line<D>>, e: Line<D>)
    requires (forall x | x in es :: x.Entry?) && e.Entry?
    ensures Chained(h, es + [e])
       <==> Chained(h, es) && e.record.prev == Some(HashBefore(es, |es|)) && e.hash == h(HashBefore(es, |es|), e.record)
  {
    var longer := es + [e];
    forall i | 0 <= i < |es| ensures Linked(h, longer, i) <==> Linked(h, es, i) {
      assert longer[i] == es[i] && (i > 0 ==> longer[i - 1] == es[i - 1]);
    }
    assert HashBefore(longer, |es|) == HashBefore(es, |es|);
    assert Linked(h, longer, |es|) <==>
      e.record.prev == Some(HashBefore(es, |es|)) && e.hash == h(HashBefore(es, |es|), e.record);
  }

  lemma GarbledAppended<D>(lines: seq<Line<D>>, line: Line<D>)
    ensures AnyGarbled(lines + [line]) <==> AnyGarbled(lines) || line.Garbled?
  {
    var longer := lines + [line];
    assert longer[|lines|] == line;
    assert forall i | 0 <= i < |lines| :: longer[i] == lines[i];
  }

  /** Adding one line keeps a log verifying exactly when the line is empty or the next record of the chain. */
  lemma VerifiesAppended<D>(h: Digest<D>, lines: seq<Line<D>>, line: Line<D>)
    ensures Verifies(h, lines + [line])
       <==> Verifies(h, lines) && !line.Garbled?
            && (line.Entry? ==> line.record.prev == Some(LastHash(lines)) && line.hash == h(LastHash(lines), line.record))
  {
    GarbledAppended(lines, line);
    EntriesAppended(lines, line);
    if line.Entry? { ChainedAppended(h, Entries(lines), line); }
  }

  datatype AuditError = EmptyEvent | Corrupt

  class Log<D(==)> {
    const h: Digest<D>
    var lines: seq<Line<D>>

    constructor (h: Digest<D>)
      ensures this.h == h && lines == []
    {
      this.h, lines := h, [];
    }

    /** `_last_hash_unlocked`: None where the source answers "INVALID". */
    method LastHashUnlocked() returns (last: Option<Hash>)
      ensures last == if AnyGarbled(lines) then None else Some(LastHash(lines))
    {
      var current := GENESIS;
      for i := 0 to |lines|
        invariant current == LastHash(lines[..i])
        invariant !AnyGarbled(lines[..i])
      {
        assert lines[..i + 1] == lines[..i] + [lines[i]];
        EntriesAppended(lines[..i], lines[i]);
        GarbledAppended(lines[..i], lines[i]);
        match lines[i]
        case Empty =>
        case Garbled => return None;
        case Entry(_, hash) => current := hash;
      }
      assert lines[..|lines|] == lines;
      return Some(current);
    }

    /** `append`: refused for an empty event or an unreadable log; otherwise one linked record is added. */
    method Append(time: int, event: string, data: D) returns (r: Result<Hash, AuditError>)
      modifies this`lines
      ensures r == if Blank(event) then Failure(EmptyEvent)
                   else if AnyGarbled(old(lines)) then Failure(Corrupt)
                   else Success(NewEntry(h, old(lines), time, event, data).hash)
      ensures r.Success? ==> lines == old(lines) + [NewEntry(h, old(lines), time, event, data)]
      ensures r.Failure? ==> lines == old(lines)
    {
      StripOfBlank(event);
      var stripped := Strip(event);
      if stripped == [] { return Failure(EmptyEvent); }
      var previous := LastHashUnlocked();
      if previous.None? { return Failure(Corrupt); }
      var record := Record(time, stripped, data, Some(previous.value));
      var digest := h(previous.value, record);
      lines := lines + [Entry(record, digest)];
      return Success(digest);
    }

    /** `verify_chain`: succeeds exactly on a verifying log, and counts the records before the first fault. */
    method VerifyChain() returns (ok: bool, count: nat)
      ensures ok <==> Verifies(h, lines)
      ensures ok ==> count == |Entries(lines)|
      ensures !ok ==> exists j | 0 <= j < |lines| ::
                Verifies(h, lines[..j]) && !Verifies(h, lines[..j + 1]) && count == |Entries(lines[..j])|
    {
      var previous := GENESIS;
      count := 0;
      for i := 0 to |lines|
        invariant Verifies(h, lines[..i])
        invariant previous == LastHash(lines[..i]) && count == |Entries(lines[..i])|
      {
        assert lines[..i + 1] == lines[..i] + [lines[i]];
        EntriesAppended(lines[..i], lines[i]);
        VerifiesAppended(h, lines[..i], lines[i]);
        match lines[i]
        case Empty =>
        case Garbled =>
          FaultStays(h, lines, i + 1);
          return false, count;
        case Entry(record, hash) =>
          if record.prev != Some(previous) || h(previous, record) != hash {
            FaultStays(h, lines, i + 1);
            return false, count;
          }
          previous := hash;
          count := count + 1;
      }
      assert lines[..|lines|] == lines;
      return true, count;
    }
  }

  /** A log whose prefix does not verify does not verify: every prefix of a verifying log verifies. */
  lemma {:induction false} FaultStays<D>(h: Digest<D>, lines: seq<Line<D>>, k: nat)
    requires k <= |lines|
    ensures Verifies(h, lines) ==> Verifies(h, lines[..k])
    decreases |lines|
  {
    if k == |lines| {
      assert lines[..k] == lines;
    } else {
      var front, last := lines[..|lines| - 1], lines[|lines| - 1];
      assert lines == front + [last] && lines[..k] == front[..k];
      VerifiesAppended(h, front, last);
      FaultStays(h, front, k);
    }
  }

  datatype Request<D> = Request(time: int, event: string, data: D)

  /** The log after a series of append calls, refused ones included. */
  function AppendAll<D>(h: Digest<D>, lines: seq<Line<D>>, calls: seq<Request<D>>): seq<Line<D>> {
    if calls == [] then lines
    else
      var front := AppendAll(h, lines, calls[..|calls| - 1]);
      var call := calls[|calls| - 1];
      if Blank(call.event) || AnyGarbled(front) then front
      else front + [NewEntry(h, front, call.time, call.event, call.data)]
  }

  predicate NamesEvent<D>(call: Request<D>) { !Blank(call.event) }

  /** The positions of the calls that name an event, in order. */
  ghost predicate Named<D>(calls: seq<Request<D>>, at: seq<nat>) {
    && (forall k | 0 <= k < |at| :: at[k] < |calls| && NamesEvent(calls[at[k]]))
    && (forall k, m | 0 <= k < m < |at| :: at[k] < at[m])
    && (forall i | 0 <= i < |calls| && NamesEvent(calls[i]) :: i in at)
  }

  /** The line is the record of the call. */
  ghost predicate RecordOf<D>(call: Request<D>, line: Line<D>) {
    && line.Entry? && line.record.time == call.time && line.record.event == Strip(call.event)
    && line.record.data == call.data
  }

  /** The lines are the records of the calls at these positions. */
  ghost predicate RecordsAt<D>(calls: seq<Request<D>>, at: seq<nat>, added: seq<Line<D>>) {
    |added| == |at| && forall k | 0 <= k < |at| :: at[k] < |calls| && RecordOf(calls[at[k]], added[k])
  }

  ghost predicate Recorded<D>(calls: seq<Request<D>>, at: seq<nat>, added: seq<Line<D>>) {
    Named(calls, at) && RecordsAt(calls, at, added)
  }

  lemma NamedMore<D>(calls: seq<Request<D>>, at: seq<nat>)
    requires calls != [] && Named(calls[..|calls| - 1], at)
    ensures NamesEvent(calls[|calls| - 1]) ==> Named(calls, at + [|calls| - 1])
    ensures !NamesEvent(calls[|calls| - 1]) ==> Named(calls, at)
  {
    var n := |calls| - 1;
    assert forall i | 0 <= i < n :: calls[..n][i] == calls[i];
    assert (at + [n])[|at|] == n;
  }

  lemma RecordsMore<D>(calls: seq<Request<D>>, at: seq<nat>, added: seq<Line<D>>, line: Line<D>)
    requires calls != [] && RecordsAt(calls[..|calls| - 1], at, added)
    ensures RecordsAt(calls, at, added)
    ensures RecordOf(calls[|calls| - 1], line) ==> RecordsAt(calls, at + [|calls| - 1], added + [line])
  {
    var n := |calls| - 1;
    forall k | 0 <= k < |at| ensures at[k] < |calls| && RecordOf(calls[at[k]], added[k]) {
      assert calls[..n][at[k]] == calls[at[k]];
    }
  }

  /** A log built by any series of `append` calls verifies, and holds exactly one record, with its time, event and data, for
      every call that names an event, in the order of the calls. */
  lemma {:induction false} BuiltLogVerifies<D>(h: Digest<D>, calls: seq<Request<D>>) returns (at: seq<nat>)
    ensures Verifies(h, AppendAll(h, [], calls)) && Recorded(calls, at, AppendAll(h, [], calls))
    decreases |calls|
  {
    at := [];
    if calls != [] {
      var front := AppendAll(h, [], calls[..|calls| - 1]);
      var call := calls[|calls| - 1];
      var before := BuiltLogVerifies(h, calls[..|calls| - 1]);
      VerifiesAppended(h, front, NewEntry(h, front, call.time, call.event, call.data));
      NamedMore(calls, before);
      RecordsMore(calls, before, front, NewEntry(h, front, call.time, call.event, call.data));
      at := if Blank(call.event) then before else before + [|calls| - 1];
    }
  }

  /** Two verifying logs with the same last hash hold the same records: the last hash commits to the whole log. */
  lemma {:induction false} LastHashFixesLog<D(!new)>(h: Digest<D>, a: seq<Line<D>>, b: seq<Line<D>>)
    requires Ideal(h)
    requires (forall e | e in a :: e.Entry?) && (forall e | e in b :: e.Entry?)
    requires Chained(h, a) && Chained(h, b) && HashBefore(a, |a|) == HashBefore(b, |b|)
    ensures a == b
    decreases |a|
  {
    if a == [] || b == [] {
      NotGenesis(h, a);
      NotGenesis(h, b);
    } else {
      var fa, fb := a[..|a| - 1], b[..|b| - 1];
      var la, lb := a[|a| - 1], b[|b| - 1];
      assert a == fa + [la] && b == fb + [lb];
      assert la in a && lb in b;
      ChainedAppended(h, fa, la);
      ChainedAppended(h, fb, lb);
      LastHashFixesLog(h, fa, fb);
    }
  }

  lemma NotGenesis<D(!new)>(h: Digest<D>, es: seq<Line<D>>)
    requires Ideal(h) && (forall e | e in es :: e.Entry?) && Chained(h, es)
    ensures HashBefore(es, |es|) == GENESIS <==> es == []
  {
    if es != [] {
      assert Linked(h, es, |es| - 1);
      assert es[|es| - 1] in es;
      assert h(HashBefore(es, |es| - 1), es[|es| - 1].record) != GENESIS;
    }
  }

  lemma LastHashFixesRecords<D(!new)>(h: Digest<D>, a: seq<Line<D>>, b: seq<Line<D>>)
    requires Ideal(h) && Verifies(h, a) && Verifies(h, b) && LastHash(a) == LastHash(b)
    ensures Entries(a) == Entries(b)
  {
    LastHashFixesLog(h, Entries(a), Entries(b));
  }
}
