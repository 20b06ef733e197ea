/** The idempotent finding writer (`FindingBatchWriter` in app/v2_pipeline.py). */
module FindingWriter {
  import opened Wrappers
  import opened Sorting

  type Fingerprint = string
  type FindingId = nat

  /** A normalized finding: its fingerprint, the other sort keys, and the rest of its payload. */
  datatype Item = Item(fingerprint: Fingerprint, title: string, endpoint: string, payload: string)

  /** A row of `scan_findings`; the payload keeps the finding id it was stored with. */
  datatype Row = Row(scan: nat, run: nat, fingerprint: Fingerprint, findingId: FindingId, item: Item)

  /** `findings` maps each fingerprint to its row id; ids are handed out in order. */
  datatype Store = Store(findings: map<Fingerprint, FindingId>, nextId: FindingId, rows: seq<Row>)

  datatype Persisted = Persisted(item: Item, findingId: FindingId, created: bool)

  predicate Before(a: Item, b: Item) {
    if a.fingerprint != b.fingerprint then StringLe(a.fingerprint, b.fingerprint)
    else if a.title != b.title then StringLe(a.title, b.title)
    else StringLe(a.endpoint, b.endpoint)
  }

  const ItemLe: (Item, Item) -> bool := (a: Item, b: Item) => Before(a, b)

  /** `INSERT OR IGNORE INTO findings` for each item in turn. */
  function InsertAll(s: Store, items: seq<Item>): Store {
    if items == [] then s
    else
      var t := InsertAll(s, items[..|items| - 1]);
      var f := items[|items| - 1].fingerprint;
      if f in t.findings then t else t.(findings := t.findings[f := t.nextId], nextId := t.nextId + 1)
  }

  function RowIndex(rows: seq<Row>, scan: nat, run: nat, fingerprint: Fingerprint): (r: Option<nat>)
    ensures r.Some? ==> r.value < |rows| && rows[r.value].scan == scan && rows[r.value].run == run
                        && rows[r.value].fingerprint == fingerprint
    ensures r.None? ==> forall i | 0 <= i < |rows| ::
              !(rows[i].scan == scan && rows[i].run == run && rows[i].fingerprint == fingerprint)
  {
    if rows == [] then None
    else
      var last := rows[|rows| - 1];
      if last.scan == scan && last.run == run && last.fingerprint == fingerprint then Some(|rows| - 1)
      else RowIndex(rows[..|rows| - 1], scan, run, fingerprint)
  }

  /** `INSERT ... ON CONFLICT DO UPDATE` of one row. */
  function Upsert(rows: seq<Row>, row: Row): seq<Row> {
    var at := RowIndex(rows, row.scan, row.run, row.fingerprint);
    if at.Some? then rows[at.value := row] else rows + [row]
  }

  predicate AllKnown(findings: map<Fingerprint, FindingId>, items: seq<Item>) {
    forall i | 0 <= i < |items| :: items[i].fingerprint in findings
  }

  function RowFor(findings: map<Fingerprint, FindingId>, scan: nat, run: nat, item: Item): Row
    requires item.fingerprint in findings
  {
    Row(scan, run, item.fingerprint, findings[item.fingerprint], item)
  }

  function UpsertAll(rows: seq<Row>, findings: map<Fingerprint, FindingId>, scan: nat, run: nat,
                     items: seq<Item>): seq<Row>
    requires AllKnown(findings, items)
  {
    if items == [] then rows
    else
      Upsert(UpsertAll(rows, findings, scan, run, items[..|items| - 1]), RowFor(findings, scan, run, items[|items| - 1]))
  }

  lemma {:induction false} InsertedKnown(s: Store, items: seq<Item>)
    ensures AllKnown(InsertAll(s, items).findings, items)
    ensures forall f | f in s.findings ::
          f in InsertAll(s, items).findings && InsertAll(s, items).findings[f] == s.findings[f]
    ensures forall f | f in InsertAll(s, items).findings :: f in s.findings || exists i | 0 <= i < |items| :: items[i].fingerprint == f
  {
    if items != [] {
      var front := items[..|items| - 1];
      InsertedKnown(s, front);
      forall f | f in InsertAll(s, items).findings && f !in s.findings
        ensures exists i | 0 <= i < |items| :: items[i].fingerprint == f
      {
        if f in InsertAll(s, front).findings {
          var i :| 0 <= i < |front| && front[i].fingerprint == f;
          assert items[i].fingerprint == f;
        } else {
          assert items[|items| - 1].fingerprint == f;
        }
      }
    }
  }

  function Persist(s: Store, scan: nat, run: nat, batch: seq<Item>): Store {
    var items := Sort(batch, ItemLe);
    var t := InsertAll(s, items);
    InsertedKnown(s, items);
    t.(rows := UpsertAll(s.rows, t.findings, scan, run, items))
  }

  /** What `persist` returns: every item with its finding id, created exactly when no row of its key existed before. */
  predicate Reports(result: seq<Persisted>, items: seq<Item>, findings: map<Fingerprint, FindingId>, existing: seq<Row>,
                    scan: nat, run: nat)
  {
    |result| == |items| && forall i | 0 <= i < |items| ::
      && items[i].fingerprint in findings
      && result[i].item == items[i]
      && result[i].findingId == findings[items[i].fingerprint]
      && result[i].created == RowIndex(existing, scan, run, items[i].fingerprint).None?
  }

  class FindingBatchWriter {
    var findings: map<Fingerprint, FindingId>
    var nextId: FindingId
    var rows: seq<Row>

    function State(): Store
      reads this
    {
      Store(findings, nextId, rows)
    }

    constructor ()
      ensures State() == Store(map[], 1, [])
    {
      findings, nextId, rows := map[], 1, [];
    }

    /** The `INSERT OR IGNORE` statement for every item of the batch. */
    method InsertFindings(items: seq<Item>)
      modifies this
      ensures State() == InsertAll(old(State()), items)
    {
      ghost var start := State();
      for i := 0 to |items|
        invariant State() == InsertAll(start, items[..i])
      {
        assert items[..i + 1][..i] == items[..i];
        var f := items[i].fingerprint;
        if f !in findings {
          findings := findings[f := nextId];
          nextId := nextId + 1;
        }
      }
      assert items[..|items|] == items;
    }

    /** The upsert statement for every item of the batch. */
    method UpsertRows(scan: nat, run: nat, items: seq<Item>)
      requires AllKnown(findings, items)
      modifies this`rows
      ensures rows == UpsertAll(old(rows), findings, scan, run, items)
    {
      ghost var start := rows;
      for i := 0 to |items|
        invariant rows == UpsertAll(start, findings, scan, run, items[..i])
      {
        assert items[..i + 1][..i] == items[..i];
        rows := Upsert(rows, RowFor(findings, scan, run, items[i]));
      }
      assert items[..|items|] == items;
    }

    /** `persist`: one transaction; each returned item carries its finding id and whether this scan and run already
        held its fingerprint. */
    method PersistBatch(scan: nat, run: nat, batch: seq<Item>) returns (result: seq<Persisted>)
      modifies this
      ensures State() == Persist(old(State()), scan, run, batch)
      ensures Reports(result, Sort(batch, ItemLe), findings, old(rows), scan, run)
    {
      var items := Sort(batch, ItemLe);
      var existing := rows;
      InsertedKnown(State(), items);
      InsertKeepsRows(State(), items);
      InsertFindings(items);
      UpsertRows(scan, run, items);
      result := Report(existing, scan, run, items);
    }

    /** The annotation of the returned items with `finding_id` and `created`. */
    method Report(existing: seq<Row>, scan: nat, run: nat, items: seq<Item>) returns (result: seq<Persisted>)
      requires AllKnown(findings, items)
      ensures Reports(result, items, findings, existing, scan, run)
    {
      result := [];
      for i := 0 to |items|
        invariant Reports(result, items[..i], findings, existing, scan, run)
      {
        var known := RowIndex(existing, scan, run, items[i].fingerprint);
        result := result + [Persisted(items[i], findings[items[i].fingerprint], known.None?)];
      }
      assert items[..|items|] == items;
    }
  }

  lemma {:induction false} InsertKeepsRows(s: Store, items: seq<Item>)
    ensures InsertAll(s, items).rows == s.rows
  {
    if items != [] { InsertKeepsRows(s, items[..|items| - 1]); }
  }

  // ----- Over any series of batches -----

  ghost predicate Good(s: Store) {
    && (forall f | f in s.findings :: s.findings[f] < s.nextId)
    && (forall f, g | f in s.findings && g in s.findings && f != g :: s.findings[f] != s.findings[g])
    && RowsGood(s.rows, s.findings)
  }

  ghost predicate RowsGood(rows: seq<Row>, findings: map<Fingerprint, FindingId>) {
    && (forall i | 0 <= i < |rows| ::
          && rows[i].fingerprint in findings && rows[i].findingId == findings[rows[i].fingerprint]
          && rows[i].item.fingerprint == rows[i].fingerprint)
    && (forall i, j | 0 <= i < j < |rows| ::
          rows[i].scan != rows[j].scan || rows[i].run != rows[j].run || rows[i].fingerprint != rows[j].fingerprint)
  }

  lemma {:induction false} InsertGood(s: Store, items: seq<Item>)
    requires Good(s)
    ensures Good(InsertAll(s, items)) && InsertAll(s, items).nextId >= s.nextId
  {
    if items != [] {
      InsertGood(s, items[..|items| - 1]);
    }
  }

  lemma UpsertGood(rows: seq<Row>, findings: map<Fingerprint, FindingId>, row: Row)
    requires RowsGood(rows, findings) && row.fingerprint in findings && row.findingId == findings[row.fingerprint]
    requires row.item.fingerprint == row.fingerprint
    ensures RowsGood(Upsert(rows, row), findings)
    ensures RowIndex(Upsert(rows, row), row.scan, row.run, row.fingerprint).Some?
    ensures Upsert(rows, row)[RowIndex(Upsert(rows, row), row.scan, row.run, row.fingerprint).value] == row
  {
    var next := Upsert(rows, row);
    var at := RowIndex(rows, row.scan, row.run, row.fingerprint);
    var k := if at.Some? then at.value else |rows|;
    assert next[k] == row;
    forall i, j | 0 <= i < j < |next|
      ensures next[i].scan != next[j].scan || next[i].run != next[j].run || next[i].fingerprint != next[j].fingerprint
    {
      assert i != k ==> next[i] == rows[i];
      assert j != k ==> next[j] == rows[j];
    }
    var found := RowIndex(next, row.scan, row.run, row.fingerprint);
    assert found.Some?;
    assert found.value == k;
  }

  lemma {:induction false} UpsertAllGood(rows: seq<Row>, findings: map<Fingerprint, FindingId>, scan: nat,
                                         run: nat, items: seq<Item>)
    requires RowsGood(rows, findings) && AllKnown(findings, items)
    ensures RowsGood(UpsertAll(rows, findings, scan, run, items), findings)
  {
    if items != [] {
      UpsertAllGood(rows, findings, scan, run, items[..|items| - 1]);
      UpsertGood(UpsertAll(rows, findings, scan, run, items[..|items| - 1]), findings,
                 RowFor(findings, scan, run, items[|items| - 1]));
    }
  }

  ghost predicate Holds(rows: seq<Row>, row: Row) {
    exists i | 0 <= i < |rows| :: rows[i] == row
  }

  ghost predicate SameKey(a: Row, b: Row) {
    a.scan == b.scan && a.run == b.run && a.fingerprint == b.fingerprint
  }

  /** What the table holds after the upserts: the last item of each fingerprint, and every old row whose key no item has. */
  ghost predicate Upserted(rows: seq<Row>, findings: map<Fingerprint, FindingId>, scan: nat, run: nat, items: seq<Item>, after: seq<Row>)
    requires AllKnown(findings, items)
  {
    && (forall i | 0 <= i < |items| && LastOf(items, i) :: Holds(after, RowFor(findings, scan, run, items[i])))
    && (forall k | 0 <= k < |rows| && !(rows[k].scan == scan && rows[k].run == run && InBatch(items, rows[k].fingerprint)) :: Holds(after, rows[k]))
    && (forall k | 0 <= k < |after| :: Holds(rows, after[k]) || exists i | 0 <= i < |items| :: after[k] == RowFor(findings, scan, run, items[i]))
  }

  ghost predicate LastOf(items: seq<Item>, i: nat)
    requires i < |items|
  {
    forall j | i < j < |items| :: items[j].fingerprint != items[i].fingerprint
  }

  ghost predicate InBatch(items: seq<Item>, f: Fingerprint) {
    exists i | 0 <= i < |items| :: items[i].fingerprint == f
  }

  lemma UpsertReplaces(rows: seq<Row>, row: Row)
    ensures Holds(Upsert(rows, row), row)
    ensures forall k | 0 <= k < |rows| && !SameKey(rows[k], row) :: Holds(Upsert(rows, row), rows[k])
    ensures forall k | 0 <= k < |Upsert(rows, row)| :: Upsert(rows, row)[k] == row || Holds(rows, Upsert(rows, row)[k])
  {
    var after, at := Upsert(rows, row), RowIndex(rows, row.scan, row.run, row.fingerprint);
    assert after[if at.Some? then at.value else |rows|] == row;
    forall k | 0 <= k < |rows| && !SameKey(rows[k], row) ensures Holds(after, rows[k]) { assert after[k] == rows[k]; }
    forall k | 0 <= k < |after| ensures after[k] == row || Holds(rows, after[k]) {
      if k < |rows| && !(at.Some? && at.value == k) { assert after[k] == rows[k]; }
    }
  }

  lemma {:induction false} UpsertAllExact(rows: seq<Row>, findings: map<Fingerprint, FindingId>, scan: nat, run: nat, items: seq<Item>)
    requires AllKnown(findings, items)
    ensures Upserted(rows, findings, scan, run, items, UpsertAll(rows, findings, scan, run, items))
  {
    if items != [] {
      var n := |items| - 1;
      var front := items[..n];
      var before, row := UpsertAll(rows, findings, scan, run, front), RowFor(findings, scan, run, items[n]);
      UpsertAllExact(rows, findings, scan, run, front);
      UpsertReplaces(before, row);
      UpsertStep(rows, findings, scan, run, items, before, Upsert(before, row));
    }
  }

  lemma UpsertStep(rows: seq<Row>, findings: map<Fingerprint, FindingId>, scan: nat, run: nat, items: seq<Item>, before: seq<Row>,
                   after: seq<Row>)
    requires items != [] && AllKnown(findings, items) && Upserted(rows, findings, scan, run, items[..|items| - 1], before)
    requires var row := RowFor(findings, scan, run, items[|items| - 1]);
             && Holds(after, row) && (forall k | 0 <= k < |before| && !SameKey(before[k], row) :: Holds(after, before[k]))
             && (forall k | 0 <= k < |after| :: after[k] == row || Holds(before, after[k]))
    ensures Upserted(rows, findings, scan, run, items, after)
  {
    var n := |items| - 1;
    var front, row := items[..n], RowFor(findings, scan, run, items[n]);
    forall i | 0 <= i < |items| && LastOf(items, i) ensures Holds(after, RowFor(findings, scan, run, items[i])) {
      if i < n {
        assert LastOf(front, i) && items[n].fingerprint != items[i].fingerprint;
        var k :| 0 <= k < |before| && before[k] == RowFor(findings, scan, run, front[i]);
        assert !SameKey(before[k], row);
      }
    }
    forall k | 0 <= k < |rows| && !(rows[k].scan == scan && rows[k].run == run && InBatch(items, rows[k].fingerprint))
      ensures Holds(after, rows[k])
    {
      if InBatch(front, rows[k].fingerprint) {
        var i :| 0 <= i < |front| && front[i].fingerprint == rows[k].fingerprint;
        assert items[i].fingerprint == rows[k].fingerprint;
      }
      var m :| 0 <= m < |before| && before[m] == rows[k];
      assert items[n].fingerprint == rows[k].fingerprint ==> InBatch(items, rows[k].fingerprint);
      assert !SameKey(before[m], row);
    }
    forall k | 0 <= k < |after|
      ensures Holds(rows, after[k]) || exists i | 0 <= i < |items| :: after[k] == RowFor(findings, scan, run, items[i])
    {
      if after[k] != row {
        var m :| 0 <= m < |before| && before[m] == after[k];
        if !Holds(rows, before[m]) {
          var i :| 0 <= i < |front| && before[m] == RowFor(findings, scan, run, front[i]);
          assert items[i] == front[i];
        }
      } else {
        assert after[k] == RowFor(findings, scan, run, items[n]);
      }
    }
  }

  /** Persisting keeps the tables consistent, and no fingerprint ever changes its finding id. */
  lemma PersistGood(s: Store, scan: nat, run: nat, batch: seq<Item>)
    requires Good(s)
    ensures Good(Persist(s, scan, run, batch))
    ensures forall f | f in s.findings ::
              f in Persist(s, scan, run, batch).findings && Persist(s, scan, run, batch).findings[f] == s.findings[f]
  {
    var items := Sort(batch, ItemLe);
    InsertGood(s, items);
    InsertedKnown(s, items);
    InsertKeepsRows(s, items);
    UpsertAllGood(s.rows, InsertAll(s, items).findings, scan, run, items);
  }

  /** What `persist` leaves in the table of a scan and run: of every fingerprint of the batch the last item in sort order,
      its payload replacing what was there; and every other row as it was. */
  lemma PersistReplaces(s: Store, scan: nat, run: nat, batch: seq<Item>)
    ensures var t, items := Persist(s, scan, run, batch), Sort(batch, ItemLe);
            AllKnown(t.findings, items) && Upserted(s.rows, t.findings, scan, run, items, t.rows)
  {
    var items := Sort(batch, ItemLe);
    InsertedKnown(s, items);
    UpsertAllExact(s.rows, InsertAll(s, items).findings, scan, run, items);
  }

  // ----- Which item of a batch is kept -----

  /** Of two items of one fingerprint, a is written before b or has the same title and endpoint. */
  ghost predicate NotAfter(a: Item, b: Item) {
    if a.title == b.title then StringLe(a.endpoint, b.endpoint) else StringLe(a.title, b.title)
  }

  /** Item w has the greatest title and, among those, the greatest endpoint of its fingerprint, and is the last such. */
  ghost predicate Wins(batch: seq<Item>, w: nat) {
    && w < |batch|
    && (forall j | 0 <= j < |batch| && batch[j].fingerprint == batch[w].fingerprint :: NotAfter(batch[j], batch[w]))
    && forall j | w < j < |batch| :: !SortsWith(batch[w])(batch[j])
  }

  function SortsWith(a: Item): Item -> bool {
    (b: Item) => a.fingerprint == b.fingerprint && a.title == b.title && a.endpoint == b.endpoint
  }

  lemma ItemLePreorder()
    ensures TotalPreorder(ItemLe)
    ensures forall a, b :: ItemLe(a, b) && ItemLe(b, a) ==> SortsWith(a)(b)
  {
    StringLeTotalOrder();
  }

  lemma {:induction false} LastWith(batch: seq<Item>, kind: Item -> bool, k: nat) returns (w: nat)
    requires k < |batch| && kind(batch[k])
    ensures w < |batch| && kind(batch[w]) && forall j | w < j < |batch| :: !kind(batch[j])
  {
    w := |batch| - 1;
    if !kind(batch[w]) {
      w := LastWith(batch[..w], kind, k);
    }
  }

  /** In a sorted list nothing of a fingerprint comes after its last item. */
  lemma LastIsGreatest(items: seq<Item>, i: nat, x: Item)
    requires SortedBy(items, ItemLe) && i < |items| && LastOf(items, i) && x in items
             && x.fingerprint == items[i].fingerprint
    ensures NotAfter(x, items[i])
  {
    var k :| 0 <= k < |items| && items[k] == x;
    StringLeTotalOrder();
    assert k < i ==> ItemLe(items[k], items[i]);
  }

  lemma KindsEqual(a: Item)
    ensures forall y, z | SortsWith(a)(y) && SortsWith(a)(z) :: ItemLe(y, z)
  {
    StringLeTotalOrder();
  }

  /** The last item of a fingerprint in sort order is the winner of the batch. */
  lemma LastIsWinner(batch: seq<Item>, i: nat) returns (w: nat)
    requires i < |Sort(batch, ItemLe)| && LastOf(Sort(batch, ItemLe), i)
    ensures Wins(batch, w) && batch[w] == Sort(batch, ItemLe)[i]
  {
    var items := Sort(batch, ItemLe);
    var kind := SortsWith(items[i]);
    assert TotalPreorder(ItemLe) by { ItemLePreorder(); }
    SortSorts(batch, ItemLe);
    MemberOfSort(batch, ItemLe);
    assert items[i] in batch;
    var k :| 0 <= k < |batch| && batch[k] == items[i];
    w := LastWith(batch, kind, k);
    KindsEqual(items[i]);
    SortStable(batch, ItemLe, kind);
    OnlyLast(batch, kind, w);
    OnlyLast(items, kind, i);
    forall j | 0 <= j < |batch| && batch[j].fingerprint == batch[w].fingerprint ensures NotAfter(batch[j], batch[w]) {
      LastIsGreatest(items, i, batch[j]);
    }
  }

  lemma LastExists(items: seq<Item>, f: Fingerprint) returns (i: nat)
    requires InBatch(items, f)
    ensures i < |items| && items[i].fingerprint == f && LastOf(items, i)
  {
    var k :| 0 <= k < |items| && items[k].fingerprint == f;
    i := LastWith(items, (x: Item) => x.fingerprint == f, k);
  }

  /** The row of a scan and run that the winner of the batch for its fingerprint leaves. */
  ghost predicate WinnerStored(t: Store, scan: nat, run: nat, batch: seq<Item>, f: Fingerprint) {
    f in t.findings && exists w: nat :: Wins(batch, w) && batch[w].fingerprint == f
                                        && Holds(t.rows, Row(scan, run, f, t.findings[f], batch[w]))
  }

  /** What `persist` leaves in the table of a scan and run: of every fingerprint of the batch the winner, its payload
      replacing what was there; every row of another key as it was; and no further row. */
  lemma PersistStores(s: Store, scan: nat, run: nat, batch: seq<Item>)
    ensures var t := Persist(s, scan, run, batch);
            && (forall f | InBatch(batch, f) :: WinnerStored(t, scan, run, batch, f))
            && (forall k | 0 <= k < |s.rows| && !(s.rows[k].scan == scan && s.rows[k].run == run && InBatch(batch, s.rows[k].fingerprint)) ::
                  Holds(t.rows, s.rows[k]))
            && (forall k | 0 <= k < |t.rows| ::
                  Holds(s.rows, t.rows[k])
                  || (t.rows[k].scan == scan && t.rows[k].run == run && t.rows[k].item in batch))
  {
    var t, items := Persist(s, scan, run, batch), Sort(batch, ItemLe);
    PersistReplaces(s, scan, run, batch);
    ItemLePreorder();
    MemberOfSort(batch, ItemLe);
    forall f ensures InBatch(items, f) <==> InBatch(batch, f) { SameFingerprints(batch, f); }
    forall f | InBatch(batch, f) ensures WinnerStored(t, scan, run, batch, f) {
      var i := LastExists(items, f);
      var w := LastIsWinner(batch, i);
      assert Holds(t.rows, RowFor(t.findings, scan, run, items[i]));
    }
    forall k | 0 <= k < |t.rows| && !Holds(s.rows, t.rows[k])
      ensures t.rows[k].scan == scan && t.rows[k].run == run && t.rows[k].item in batch
    {
      var i :| 0 <= i < |items| && t.rows[k] == RowFor(t.findings, scan, run, items[i]);
      assert items[i] in items;
    }
  }

  lemma SameFingerprints(batch: seq<Item>, f: Fingerprint)
    ensures InBatch(Sort(batch, ItemLe), f) <==> InBatch(batch, f)
  {
    var items := Sort(batch, ItemLe);
    ItemLePreorder();
    MemberOfSort(batch, ItemLe);
    if i :| 0 <= i < |items| && items[i].fingerprint == f {
      assert items[i] in batch;
      var j :| 0 <= j < |batch| && batch[j] == items[i];
      assert batch[j].fingerprint == f;
    }
    if i :| 0 <= i < |batch| && batch[i].fingerprint == f {
      assert batch[i] in items;
      var j :| 0 <= j < |items| && items[j] == batch[i];
      assert items[j].fingerprint == f;
    }
  }

  /** Fingerprints found first in one batch get their ids in the order of the fingerprints. */
  ghost predicate IdsInOrder(s: Store, t: Store) {
    forall f, g | f in t.findings && g in t.findings && f !in s.findings && g !in s.findings && StringLe(f, g) ::
      t.findings[f] <= t.findings[g]
  }

  /** The next id goes to a fingerprint that none of the others found so far comes after. */
  lemma OneMoreInOrder(s: Store, t: Store, next: Fingerprint)
    requires IdsInOrder(s, t) && next !in t.findings && forall f | f in t.findings :: t.findings[f] < t.nextId
    requires forall g | g in t.findings && g !in s.findings :: StringLe(g, next)
    ensures IdsInOrder(s, t.(findings := t.findings[next := t.nextId], nextId := t.nextId + 1))
  {
    forall g | g in t.findings && g !in s.findings ensures !StringLe(next, g) { StringLeTotalOrder(); }
  }

  lemma FoundBefore(s: Store, items: seq<Item>, g: Fingerprint)
    requires items != [] && SortedBy(items, ItemLe)
    requires g in InsertAll(s, items[..|items| - 1]).findings && g !in s.findings
    ensures StringLe(g, items[|items| - 1].fingerprint)
  {
    var n := |items| - 1;
    InsertedKnown(s, items[..n]);
    var k :| 0 <= k < n && items[..n][k].fingerprint == g;
    assert ItemLe(items[k], items[n]);
    StringLeTotalOrder();
  }

  lemma {:induction false} InsertInOrder(s: Store, items: seq<Item>)
    requires Good(s) && SortedBy(items, ItemLe)
    ensures IdsInOrder(s, InsertAll(s, items))
  {
    if items != [] {
      var n := |items| - 1;
      var t := InsertAll(s, items[..n]);
      InsertInOrder(s, items[..n]);
      if items[n].fingerprint !in t.findings {
        InsertGood(s, items[..n]);
        forall g | g in t.findings && g !in s.findings
          ensures StringLe(g, items[n].fingerprint)
        {
          FoundBefore(s, items, g);
        }
        OneMoreInOrder(s, t, items[n].fingerprint);
      }
    }
  }

  lemma PersistInOrder(s: Store, scan: nat, run: nat, batch: seq<Item>)
    requires Good(s)
    ensures IdsInOrder(s, Persist(s, scan, run, batch))
  {
    ItemLePreorder();
    SortSorts(batch, ItemLe);
    InsertInOrder(s, Sort(batch, ItemLe));
  }

  datatype Batch = Batch(scan: nat, run: nat, items: seq<Item>)

  function PersistAll(s: Store, batches: seq<Batch>): Store {
    if batches == [] then s
    else
      var last := batches[|batches| - 1];
      Persist(PersistAll(s, batches[..|batches| - 1]), last.scan, last.run, last.items)
  }

  lemma KnownInBatch(s: Store, scan: nat, run: nat, batch: seq<Item>)
    ensures AllKnown(Persist(s, scan, run, batch).findings, batch)
  {
    var items := Sort(batch, ItemLe);
    InsertedKnown(s, items);
    forall i | 0 <= i < |batch| ensures batch[i].fingerprint in Persist(s, scan, run, batch).findings {
      assert InBatch(batch, batch[i].fingerprint);
      SameFingerprints(batch, batch[i].fingerprint);
      var k :| 0 <= k < |items| && items[k].fingerprint == batch[i].fingerprint;
    }
  }

  /** Across any series of batches a fingerprint keeps one finding id, and distinct fingerprints have distinct ids. */
  lemma {:induction false} IdsForever(s: Store, batches: seq<Batch>)
    requires Good(s)
    ensures Good(PersistAll(s, batches))
    ensures forall f | f in s.findings ::
          f in PersistAll(s, batches).findings && PersistAll(s, batches).findings[f] == s.findings[f]
    ensures forall k | 0 <= k < |batches| :: AllKnown(PersistAll(s, batches).findings, batches[k].items)
  {
    if batches != [] {
      var front, last := batches[..|batches| - 1], batches[|batches| - 1];
      IdsForever(s, front);
      PersistGood(PersistAll(s, front), last.scan, last.run, last.items);
      KnownInBatch(PersistAll(s, front), last.scan, last.run, last.items);
      forall k | 0 <= k < |front| ensures AllKnown(PersistAll(s, batches).findings, batches[k].items) {
        assert AllKnown(PersistAll(s, front).findings, front[k].items);
      }
    }
  }

  // ----- Persisting a batch again -----

  lemma {:induction false} InsertKnownAgain(s: Store, items: seq<Item>)
    requires AllKnown(s.findings, items)
    ensures InsertAll(s, items) == s
  {
    if items != [] { InsertKnownAgain(s, items[..|items| - 1]); }
  }

  lemma UpsertHolds(rows: seq<Row>, row: Row)
    ensures Holds(Upsert(rows, row), row)
  {
    var at := RowIndex(rows, row.scan, row.run, row.fingerprint);
    assert Upsert(rows, row)[if at.Some? then at.value else |rows|] == row;
  }

  ghost predicate SameKeys(a: seq<Row>, b: seq<Row>) {
    |a| == |b| && forall i | 0 <= i < |a| ::
          a[i].scan == b[i].scan && a[i].run == b[i].run && a[i].fingerprint == b[i].fingerprint
  }

  ghost predicate KeysPresent(rows: seq<Row>, scan: nat, run: nat, items: seq<Item>) {
    forall i | 0 <= i < |items| :: RowIndex(rows, scan, run, items[i].fingerprint).Some?
  }

  lemma IndexFound(rows: seq<Row>, i: nat)
    requires i < |rows|
    ensures RowIndex(rows, rows[i].scan, rows[i].run, rows[i].fingerprint).Some?
  {
  }

  lemma UpsertKeepsPresent(rows: seq<Row>, row: Row, scan: nat, run: nat, fingerprint: Fingerprint)
    requires RowIndex(rows, scan, run, fingerprint).Some?
    ensures RowIndex(Upsert(rows, row), scan, run, fingerprint).Some?
  {
    var i := RowIndex(rows, scan, run, fingerprint).value;
    var next := Upsert(rows, row);
    assert next[i].scan == scan && next[i].run == run && next[i].fingerprint == fingerprint;
    IndexFound(next, i);
  }

  lemma {:induction false} UpsertAllPresent(rows: seq<Row>, findings: map<Fingerprint, FindingId>, scan: nat,
                                            run: nat, items: seq<Item>)
    requires AllKnown(findings, items)
    ensures KeysPresent(UpsertAll(rows, findings, scan, run, items), scan, run, items)
  {
    if items != [] {
      var front, last := items[..|items| - 1], items[|items| - 1];
      UpsertAllPresent(rows, findings, scan, run, front);
      var before := UpsertAll(rows, findings, scan, run, front);
      var row := RowFor(findings, scan, run, last);
      var after := Upsert(before, row);
      forall i | 0 <= i < |items| ensures RowIndex(after, scan, run, items[i].fingerprint).Some? {
        if i < |front| {
          assert items[i] == front[i];
          UpsertKeepsPresent(before, row, scan, run, items[i].fingerprint);
        } else {
          UpsertHolds(before, row);
          var k :| 0 <= k < |after| && after[k] == row;
          IndexFound(after, k);
        }
      }
    }
  }

  lemma {:induction false} UpsertAllSameKeys(rows: seq<Row>, findings: map<Fingerprint, FindingId>, scan: nat,
                                             run: nat, items: seq<Item>)
    requires AllKnown(findings, items) && KeysPresent(rows, scan, run, items)
    ensures SameKeys(rows, UpsertAll(rows, findings, scan, run, items))
  {
    if items != [] {
      var front := items[..|items| - 1];
      assert forall i | 0 <= i < |front| :: front[i] == items[i];
      UpsertAllSameKeys(rows, findings, scan, run, front);
      var before := UpsertAll(rows, findings, scan, run, front);
      var f := items[|items| - 1].fingerprint;
      var k := RowIndex(rows, scan, run, f).value;
      assert before[k].scan == scan && before[k].run == run && before[k].fingerprint == f;
      IndexFound(before, k);
    }
  }

  /** Persisting a batch again for the same scan and run adds no finding and no row, whatever was persisted in
      between, and marks none of its items as created. */
  lemma PersistAgain(s: Store, scan: nat, run: nat, batch: seq<Item>, between: seq<Batch>)
    requires Good(s)
    ensures var t := PersistAll(Persist(s, scan, run, batch), between);
            var again := Persist(t, scan, run, batch);
            && again.findings == t.findings && again.nextId == t.nextId && SameKeys(t.rows, again.rows)
            && forall result: seq<Persisted>, i: nat | Reports(result, Sort(batch, ItemLe), again.findings, t.rows, scan, run) && 0 <= i < |result| ::
                 !result[i].created
  {
    var items := Sort(batch, ItemLe);
    var first := Persist(s, scan, run, batch);
    var t := PersistAll(first, between);
    PersistGood(s, scan, run, batch);
    InsertedKnown(s, items);
    UpsertAllPresent(s.rows, InsertAll(s, items).findings, scan, run, items);
    IdsForever(first, between);
    PresentForever(first, between, scan, run, items);
    InsertKnownAgain(t, items);
    UpsertAllSameKeys(t.rows, t.findings, scan, run, items);
  }

  lemma {:induction false} PresentForever(s: Store, batches: seq<Batch>, scan: nat, run: nat, items: seq<Item>)
    requires KeysPresent(s.rows, scan, run, items)
    ensures KeysPresent(PersistAll(s, batches).rows, scan, run, items)
  {
    if batches != [] {
      var last := batches[|batches| - 1];
      var t := PersistAll(s, batches[..|batches| - 1]);
      PresentForever(s, batches[..|batches| - 1], scan, run, items);
      var more := Sort(last.items, ItemLe);
      InsertedKnown(t, more);
      PresentAfterUpserts(t.rows, InsertAll(t, more).findings, last.scan, last.run, more, scan, run, items);
    }
  }

  lemma {:induction false} PresentAfterUpserts(rows: seq<Row>, findings: map<Fingerprint, FindingId>, s: nat,
                                               r: nat, more: seq<Item>,
                                               scan: nat, run: nat, items: seq<Item>)
    requires AllKnown(findings, more) && KeysPresent(rows, scan, run, items)
    ensures KeysPresent(UpsertAll(rows, findings, s, r, more), scan, run, items)
  {
    if more != [] {
      PresentAfterUpserts(rows, findings, s, r, more[..|more| - 1], scan, run, items);
      var before := UpsertAll(rows, findings, s, r, more[..|more| - 1]);
      forall i | 0 <= i < |items|
        ensures RowIndex(Upsert(before, RowFor(findings, s, r, more[|more| - 1])), scan, run, items[i].fingerprint).Some?
      {
        UpsertKeepsPresent(before, RowFor(findings, s, r, more[|more| - 1]), scan, run, items[i].fingerprint);
      }
    }
  }
}
