/** The replayable scan event log (`ScanEventLog` in app/v2_pipeline.py).

    A stored payload is sealed under its scan and sequence number and opens only under the same pair. */
module EventLog {
  import opened Wrappers
  import opened Sorting

  type ScanId = nat

  datatype Body = Body(scan: ScanId, seqNo: nat, eventType: string, data: string)

  datatype Sealed = Sealed(scan: ScanId, seqNo: nat, body: Body)

  datatype Row = Row(scan: ScanId, seqNo: nat, payload: Sealed)

  datatype Error = UnsupportedType | NegativeCursor | Gap(expected: int, found: nat) | BadTag

  const EXPORT_TYPES := {"finding", "progress", "log", "evidence", "chain", "ranked"}

  function RowsOf(rows: seq<Row>, scan: ScanId): seq<Row> {
    if rows == [] then []
    else
      var earlier := RowsOf(rows[..|rows| - 1], scan);
      if rows[|rows| - 1].scan == scan then earlier + [rows[|rows| - 1]] else earlier
  }

  /** `COALESCE(MAX(seq), 0)` */
  function MaxSeq(rows: seq<Row>, scan: ScanId): nat {
    if rows == [] then 0
    else
      var earlier := MaxSeq(rows[..|rows| - 1], scan);
      var last := rows[|rows| - 1];
      if last.scan == scan && last.seqNo > earlier then last.seqNo else earlier
  }

  const SeqLe: (Row, Row) -> bool := (a: Row, b: Row) => a.seqNo <= b.seqNo

  function Above(rows: seq<Row>, last: int): seq<Row> {
    if rows == [] then []
    else if rows[0].seqNo > last then [rows[0]] + Above(rows[1..], last)
    else Above(rows[1..], last)
  }

  /** SQL's LIMIT: a negative one takes everything. */
  function Limit(rows: seq<Row>, limit: int): seq<Row> {
    if limit < 0 || limit > |rows| then rows else rows[..limit]
  }

  /** The query of `list_after`. */
  function Selected(rows: seq<Row>, scan: ScanId, last: int, limit: int): seq<Row> {
    Limit(Sort(Above(RowsOf(rows, scan), last), SeqLe), limit)
  }

  function NewRow(rows: seq<Row>, sanitize: string -> string, scan: ScanId, eventType: string, data: string): Row {
    var seqNo := MaxSeq(rows, scan) + 1;
    Row(scan, seqNo, Sealed(scan, seqNo, Body(scan, seqNo, eventType, sanitize(data))))
  }

  class ScanEventLog {
    const sanitize: string -> string
    var rows: seq<Row>

    constructor (sanitize: string -> string)
      ensures this.sanitize == sanitize && rows == []
    {
      this.sanitize, rows := sanitize, [];
    }

    /** `append`: one transaction, the next number of its scan. */
    method Append(scan: ScanId, eventType: string, data: string) returns (r: Result<Body, Error>)
      modifies this`rows
      ensures r.Success? <==> eventType in EXPORT_TYPES
      ensures r.Success? ==> rows == old(rows) + [NewRow(old(rows), sanitize, scan, eventType, data)]
                             && r.value == NewRow(old(rows), sanitize, scan, eventType, data).payload.body
      ensures r.Failure? ==> r.error.UnsupportedType? && rows == old(rows)
    {
      if eventType !in EXPORT_TYPES { return Failure(UnsupportedType); }
      var seqNo := MaxSeq(rows, scan) + 1;
      var body := Body(scan, seqNo, eventType, sanitize(data));
      rows := rows + [Row(scan, seqNo, Sealed(scan, seqNo, body))];
      return Success(body);
    }

    /** `list_after`: checks that the numbers run on without a gap from the cursor, and opens each payload. */
    method ListAfter(scan: ScanId, last: int, limit: int) returns (r: Result<seq<Body>, Error>)
      ensures last < 0 ==> r == Failure(NegativeCursor)
      ensures last >= 0 ==> var selected := Selected(rows, scan, last, limit);
              r.Success? <==> forall i | 0 <= i < |selected| :: Opens(selected, scan, last, i)
      ensures r.Success? ==> r.value == BodiesOf(Selected(rows, scan, last, limit))
      ensures last >= 0 && r.Failure? ==> FirstFault(Selected(rows, scan, last, limit), scan, last, r.error)
      ensures r.Success? ==> forall i | 0 <= i < |r.value| :: Stored(rows, scan, last + 1 + i, r.value[i])
    {
      if last < 0 { return Failure(NegativeCursor); }
      var selected := Selected(rows, scan, last, limit);
      var events: seq<Body> := [];
      var expected := last + 1;
      for i := 0 to |selected|
        invariant expected == last + 1 + i
        invariant |events| == i && forall j | 0 <= j < i :: events[j] == selected[j].payload.body
        invariant forall j | 0 <= j < i :: Opens(selected, scan, last, j)
      {
        var row := selected[i];
        if row.seqNo != expected {
          assert !Opens(selected, scan, last, i);
          assert FaultAt(selected, scan, last, Gap(expected, row.seqNo), i);
          return Failure(Gap(expected, row.seqNo));
        }
        if row.payload.scan != scan || row.payload.seqNo != row.seqNo {
          assert !Opens(selected, scan, last, i);
          assert FaultAt(selected, scan, last, BadTag, i);
          return Failure(BadTag);
        }
        events := events + [row.payload.body];
        expected := expected + 1;
      }
      forall i | 0 <= i < |events| ensures Stored(rows, scan, last + 1 + i, events[i]) {
        SelectedIsStored(rows, scan, last, limit, i);
      }
      return Success(events);
    }
  }

  /** The scan has a row of this number whose payload was sealed for that scan and number and holds the body. */
  ghost predicate Stored(rows: seq<Row>, scan: ScanId, seqNo: nat, body: Body) {
    Row(scan, seqNo, Sealed(scan, seqNo, body)) in rows
  }

  lemma {:induction false} RowsOfMembers(rows: seq<Row>, scan: ScanId)
    ensures forall row :: row in RowsOf(rows, scan) <==> row in rows && row.scan == scan
  {
    if rows != [] {
      RowsOfMembers(rows[..|rows| - 1], scan);
      assert rows == rows[..|rows| - 1] + [rows[|rows| - 1]];
    }
  }

  lemma {:induction false} AboveMembers(rows: seq<Row>, last: int)
    ensures forall row :: row in Above(rows, last) <==> row in rows && row.seqNo > last
  {
    if rows != [] { AboveMembers(rows[1..], last); }
  }

  lemma SelectedIsStored(rows: seq<Row>, scan: ScanId, last: nat, limit: int, i: nat)
    requires i < |Selected(rows, scan, last, limit)| && Opens(Selected(rows, scan, last, limit), scan, last, i)
    ensures Stored(rows, scan, last + 1 + i, Selected(rows, scan, last, limit)[i].payload.body)
  {
    var row := Selected(rows, scan, last, limit)[i];
    assert row in Sort(Above(RowsOf(rows, scan), last), SeqLe);
    MemberOfSort(Above(RowsOf(rows, scan), last), SeqLe);
    AboveMembers(RowsOf(rows, scan), last);
    RowsOfMembers(rows, scan);
    assert row == Row(scan, last + 1 + i, Sealed(scan, last + 1 + i, row.payload.body));
  }

  /** The `i`-th selected row carries the number that follows the cursor and opens. */
  predicate Opens(selected: seq<Row>, scan: ScanId, last: int, i: nat)
    requires i < |selected|
  {
    selected[i].seqNo == last + 1 + i && selected[i].payload.scan == scan
       && selected[i].payload.seqNo == selected[i].seqNo
  }

  /** Row `i` is the first at fault, and the error tells how: a wrong number, or a payload sealed for another row. */
  ghost predicate FaultAt(selected: seq<Row>, scan: ScanId, last: int, error: Error, i: nat) {
    && i < |selected|
    && (forall j | 0 <= j < i :: Opens(selected, scan, last, j))
    && !Opens(selected, scan, last, i)
    && error == if selected[i].seqNo != last + 1 + i then Gap(last + 1 + i, selected[i].seqNo) else BadTag
  }

  ghost predicate FirstFault(selected: seq<Row>, scan: ScanId, last: int, error: Error)
    requires last >= 0
  {
    exists i: nat :: FaultAt(selected, scan, last, error, i)
  }

  function BodiesOf(rows: seq<Row>): seq<Body> {
    seq(|rows|, i requires 0 <= i < |rows| => rows[i].payload.body)
  }

  // ----- The log never has a gap -----

  /** Each scan's rows are numbered 1, 2, ... in the order they were appended. */
  ghost predicate Numbered(rows: seq<Row>, scan: ScanId) {
    var own := RowsOf(rows, scan);
    forall i | 0 <= i < |own| ::
          own[i].scan == scan && own[i].seqNo == i + 1 && own[i].payload == Sealed(scan, i + 1, own[i].payload.body)
  }

  lemma {:induction false} MaxIsCount(rows: seq<Row>, scan: ScanId)
    requires Numbered(rows, scan)
    ensures MaxSeq(rows, scan) == |RowsOf(rows, scan)|
  {
    if rows != [] {
      var front := rows[..|rows| - 1];
      var own := RowsOf(rows, scan);
      assert forall i | 0 <= i < |RowsOf(front, scan)| :: RowsOf(front, scan)[i] == own[i];
      MaxIsCount(front, scan);
      if rows[|rows| - 1].scan == scan { assert own[|own| - 1].seqNo == |own|; }
    }
  }

  lemma RowsAppended(rows: seq<Row>, row: Row, scan: ScanId)
    ensures RowsOf(rows + [row], scan) == if row.scan == scan then RowsOf(rows, scan) + [row] else RowsOf(rows, scan)
  {
    assert (rows + [row])[..|rows|] == rows;
  }

  /** Appending for any scan keeps every scan's numbering gapless, and numbers the new event one past the last. */
  lemma AppendKeepsNumbering(rows: seq<Row>, sanitize: string -> string, scan: ScanId, eventType: string,
                             data: string, other: ScanId)
    requires Numbered(rows, scan) && Numbered(rows, other)
    ensures Numbered(rows + [NewRow(rows, sanitize, scan, eventType, data)], other)
    ensures NewRow(rows, sanitize, scan, eventType, data).seqNo == |RowsOf(rows, scan)| + 1
  {
    MaxIsCount(rows, scan);
    RowsAppended(rows, NewRow(rows, sanitize, scan, eventType, data), other);
  }

  lemma {:induction false} AboveSuffix(own: seq<Row>, last: int, k: nat)
    requires forall i | 0 <= i < |own| :: own[i].seqNo == k + i + 1
    ensures Above(own, last) == if last <= k then own else if last - k >= |own| then [] else own[last - k..]
    decreases |own|
  {
    if own != [] {
      AboveSuffix(own[1..], last, k + 1);
      if last <= k {
        assert own == [own[0]] + own[1..];
      } else if last - k < |own| {
        assert own[1..][last - k - 1..] == own[last - k..];
      }
    }
  }

  lemma SortedBySeq(own: seq<Row>)
    requires forall i, j | 0 <= i < j < |own| :: own[i].seqNo < own[j].seqNo
    ensures Sort(own, SeqLe) == own
    decreases |own|
  {
    if own != [] {
      SortedBySeq(own[1..]);
      if |own| > 1 { assert own[0].seqNo < own[1].seqNo; }
      assert own == [own[0]] + own[1..];
    }
  }

  /** On a numbered log no read ever reports a gap: from any cursor it returns exactly the events after it, in
      order, up to the limit. */
  lemma ReadsAreExact(rows: seq<Row>, scan: ScanId, last: nat, limit: int)
    requires Numbered(rows, scan)
    ensures var own := RowsOf(rows, scan);
            var selected := Selected(rows, scan, last, limit);
            var backlog := if last >= |own| then 0 else |own| - last;
            && |selected| == (if 0 <= limit < backlog then limit else backlog)
            && forall i | 0 <= i < |selected| :: selected[i] == own[last + i] && Opens(selected, scan, last, i)
  {
    var own := RowsOf(rows, scan);
    AboveSuffix(own, last, 0);
    SortedBySeq(Above(own, last));
  }

  // ----- A reader that follows the log -----

  datatype Op =
    | Append(scan: ScanId, eventType: string, data: string)
    | Read(limit: nat)

  /** The log, and what one reader of one scan has received with the cursor it holds. */
  datatype World = World(rows: seq<Row>, cursor: nat, received: seq<Body>)

  function Step(w: World, sanitize: string -> string, scan: ScanId, op: Op): World {
    match op
    case Append(other, eventType, data) =>
      if eventType !in EXPORT_TYPES then w else w.(rows := w.rows + [NewRow(w.rows, sanitize, other, eventType, data)])
    case Read(limit) =>
      var batch := BodiesOf(Selected(w.rows, scan, w.cursor, limit));
      World(w.rows, w.cursor + |batch|, w.received + batch)
  }

  function Run(w: World, sanitize: string -> string, scan: ScanId, ops: seq<Op>): World {
    if ops == [] then w else Step(Run(w, sanitize, scan, ops[..|ops| - 1]), sanitize, scan, ops[|ops| - 1])
  }

  ghost predicate FollowsLog(w: World, scan: ScanId) {
    && (forall other :: Numbered(w.rows, other))
    && w.cursor <= |RowsOf(w.rows, scan)|
    && w.received == BodiesOf(RowsOf(w.rows, scan)[..w.cursor])
  }

  lemma StepFollows(w: World, sanitize: string -> string, scan: ScanId, op: Op)
    requires FollowsLog(w, scan)
    ensures FollowsLog(Step(w, sanitize, scan, op), scan)
    ensures op.Read? ==> Step(w, sanitize, scan, op).cursor == Least(w.cursor + op.limit, |RowsOf(w.rows, scan)|)
  {
    match op
    case Append(other, eventType, data) =>
      if eventType in EXPORT_TYPES {
        var row := NewRow(w.rows, sanitize, other, eventType, data);
        forall s
          ensures Numbered(w.rows + [row], s)
        {
          AppendKeepsNumbering(w.rows, sanitize, other, eventType, data, s);
        }
        RowsAppended(w.rows, row, scan);
        assert RowsOf(w.rows + [row], scan)[..w.cursor] == RowsOf(w.rows, scan)[..w.cursor];
      }
    case Read(limit) =>
      ReadsAreExact(w.rows, scan, w.cursor, limit);
  }

  function Least(a: nat, b: nat): nat { if a <= b then a else b }

  /** The events a run's calls asked to log for a scan: those of a supported type, numbered as they came. */
  function Asked(sanitize: string -> string, scan: ScanId, ops: seq<Op>): seq<Body> {
    if ops == [] then []
    else
      var earlier := Asked(sanitize, scan, ops[..|ops| - 1]);
      match ops[|ops| - 1]
      case Append(to, eventType, data) =>
        if to == scan && eventType in {"finding", "progress", "log", "evidence", "chain", "ranked"}
        then earlier + [Body(scan, |earlier| + 1, eventType, sanitize(data))]
        else earlier
      case Read(_) => earlier
  }

  lemma {:induction false} RunFollows(sanitize: string -> string, scan: ScanId, ops: seq<Op>)
    ensures FollowsLog(Run(World([], 0, []), sanitize, scan, ops), scan)
    decreases |ops|
  {
    if ops != [] {
      RunFollows(sanitize, scan, ops[..|ops| - 1]);
      StepFollows(Run(World([], 0, []), sanitize, scan, ops[..|ops| - 1]), sanitize, scan, ops[|ops| - 1]);
    }
  }

  lemma StepAsked(w: World, sanitize: string -> string, reader: ScanId, op: Op, scan: ScanId)
    requires Numbered(w.rows, scan)
    ensures var held := BodiesOf(RowsOf(w.rows, scan));
            BodiesOf(RowsOf(Step(w, sanitize, reader, op).rows, scan))
            == if op.Append? && op.scan == scan && op.eventType in {"finding", "progress", "log", "evidence", "chain", "ranked"}
               then held + [Body(scan, |held| + 1, op.eventType, sanitize(op.data))]
               else held
  {
    if op.Append? {
      RowsAppended(w.rows, NewRow(w.rows, sanitize, op.scan, op.eventType, op.data), scan);
      if op.scan == scan { MaxIsCount(w.rows, scan); }
    }
  }

  /** The log holds for every scan exactly what was asked, in order. */
  lemma {:induction false} LogHoldsAsked(sanitize: string -> string, reader: ScanId, ops: seq<Op>, scan: ScanId)
    ensures BodiesOf(RowsOf(Run(World([], 0, []), sanitize, reader, ops).rows, scan)) == Asked(sanitize, scan, ops)
    decreases |ops|
  {
    if ops != [] {
      var front := ops[..|ops| - 1];
      LogHoldsAsked(sanitize, reader, front, scan);
      RunFollows(sanitize, reader, front);
      StepAsked(Run(World([], 0, []), sanitize, reader, front), sanitize, reader, ops[|ops| - 1], scan);
    }
  }

  lemma PrefixOfBodies(rows: seq<Row>, k: nat)
    requires k <= |rows|
    ensures BodiesOf(rows[..k]) <= BodiesOf(rows)
    ensures k == |rows| ==> BodiesOf(rows[..k]) == BodiesOf(rows)
  {
  }

  /** The reader has received the first so many events of what was asked. */
  ghost predicate HasReceived(w: World, asked: seq<Body>) {
    w.received <= asked && |w.received| == w.cursor
  }

  lemma FollowsReceives(w: World, scan: ScanId, asked: seq<Body>)
    requires FollowsLog(w, scan) && BodiesOf(RowsOf(w.rows, scan)) == asked
    ensures HasReceived(w, asked) && |asked| == |RowsOf(w.rows, scan)|
  {
    PrefixOfBodies(RowsOf(w.rows, scan), w.cursor);
  }

  /** Whatever is appended to any scan between its reads, a reader receives what its scan's calls asked to log in order,
      each once, with nothing skipped. */
  lemma ReaderReceivesInOrder(sanitize: string -> string, scan: ScanId, ops: seq<Op>)
    ensures HasReceived(Run(World([], 0, []), sanitize, scan, ops), Asked(sanitize, scan, ops))
  {
    RunFollows(sanitize, scan, ops);
    LogHoldsAsked(sanitize, scan, ops, scan);
    FollowsReceives(Run(World([], 0, []), sanitize, scan, ops), scan, Asked(sanitize, scan, ops));
  }

  /** A read takes as many events as its limit allows; with a limit above the backlog it catches up completely. */
  lemma ReadTakesLimit(sanitize: string -> string, scan: ScanId, ops: seq<Op>, limit: nat)
    ensures var w := Run(World([], 0, []), sanitize, scan, ops);
            |Step(w, sanitize, scan, Read(limit)).received|
            == Least(|w.received| + limit, |Asked(sanitize, scan, ops)|)
  {
    var w := Run(World([], 0, []), sanitize, scan, ops);
    RunFollows(sanitize, scan, ops);
    LogHoldsAsked(sanitize, scan, ops, scan);
    StepFollows(w, sanitize, scan, Read(limit));
    FollowsReceives(w, scan, Asked(sanitize, scan, ops));
    FollowsReceives(Step(w, sanitize, scan, Read(limit)), scan, Asked(sanitize, scan, ops));
  }
}
