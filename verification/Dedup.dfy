/** The dedup stage over the stored findings of a scan (`dedup_stage`, `read_scan_findings` in app/v2_pipeline.py). */
module Dedup {
  import opened Sorting
  import opened FindingWriter

  datatype Duplicate = Duplicate(fingerprint: Fingerprint, primaryId: FindingId, duplicateId: FindingId)

  /** The key (string, number) order: by string, then by number. */
  predicate PairLe(a: string, m: nat, b: string, n: nat) {
    if a != b then StringLe(a, b) else m <= n
  }

  const ReadLe: (Row, Row) -> bool := (a: Row, b: Row) => PairLe(a.fingerprint, a.run, b.fingerprint, b.run)
  const RecordLe: (Row, Row) -> bool := (a: Row, b: Row) => PairLe(a.fingerprint, a.findingId, b.fingerprint, b.findingId)
  const DuplicateLe: (Duplicate, Duplicate) -> bool :=
    (a: Duplicate, b: Duplicate) => PairLe(a.fingerprint, a.duplicateId, b.fingerprint, b.duplicateId)

  function RowsOf(rows: seq<Row>, scan: nat): seq<Row> {
    if rows == [] then []
    else
      var earlier := RowsOf(rows[..|rows| - 1], scan);
      var last := rows[|rows| - 1];
      if last.scan == scan then earlier + [last] else earlier
  }

  /** A row of the scan. */
  predicate Of(rows: seq<Row>, scan: nat, row: Row) {
    row in rows && row.scan == scan
  }

  /** The query gives exactly the rows of the scan, each as often as the table holds it. */
  lemma {:induction false} RowsOfExact(rows: seq<Row>, scan: nat)
    ensures forall r :: multiset(RowsOf(rows, scan))[r] == if r.scan == scan then multiset(rows)[r] else 0
    ensures forall r :: r in RowsOf(rows, scan) <==> Of(rows, scan, r)
  {
    if rows != [] {
      var front, last := rows[..|rows| - 1], rows[|rows| - 1];
      RowsOfExact(front, scan);
      assert rows == front + [last];
    }
  }

  /** How many rows of the scan have this fingerprint. */
  function RowsAt(rows: seq<Row>, scan: nat, f: Fingerprint): set<nat> {
    set i | 0 <= i < |rows| && rows[i].scan == scan && rows[i].fingerprint == f
  }

  lemma RowsAtNext(rows: seq<Row>, scan: nat, f: Fingerprint)
    requires rows != []
    ensures var n := |rows| - 1; var before := RowsAt(rows[..n], scan, f);
            RowsAt(rows, scan, f) == if rows[n].scan == scan && rows[n].fingerprint == f then before + {n} else before
  {
  }

  lemma {:induction false} PrintCount(rows: seq<Row>, scan: nat, f: Fingerprint)
    ensures multiset(Mapped(RowsOf(rows, scan), PRINT))[f] == |RowsAt(rows, scan, f)|
  {
    if rows != [] {
      var n := |rows| - 1;
      PrintCount(rows[..n], scan, f);
      RowsAtNext(rows, scan, f);
      assert n !in RowsAt(rows[..n], scan, f);
      if rows[n].scan == scan { MappedLast(RowsOf(rows[..n], scan), rows[n], PRINT); }
    }
  }

  /** `read_scan_findings`: the rows of a scan by fingerprint and tool run. */
  function Read(rows: seq<Row>, scan: nat): seq<Row> {
    Sort(RowsOf(rows, scan), ReadLe)
  }

  // ----- The partition loop -----

  /** The dict `primary` after the first n records. */
  function Primaries(records: seq<Row>, n: nat): map<Fingerprint, Row>
    requires n <= |records|
  {
    if n == 0 then map[]
    else
      var earlier := Primaries(records, n - 1);
      var f := records[n - 1].fingerprint;
      if f in earlier then earlier else earlier[f := records[n - 1]]
  }

  /** The keys of `primary` in the order they were added. */
  function Keys(records: seq<Row>, n: nat): seq<Fingerprint>
    requires n <= |records|
  {
    if n == 0 then []
    else
      var f := records[n - 1].fingerprint;
      if f in Primaries(records, n - 1) then Keys(records, n - 1) else Keys(records, n - 1) + [f]
  }

  function DuplicatesOf(records: seq<Row>, n: nat): seq<Duplicate>
    requires n <= |records|
  {
    if n == 0 then []
    else
      var earlier := Primaries(records, n - 1);
      var item := records[n - 1];
      if item.fingerprint in earlier then
        DuplicatesOf(records, n - 1) + [Duplicate(item.fingerprint, earlier[item.fingerprint].findingId, item.findingId)]
      else
        DuplicatesOf(records, n - 1)
  }

  method Partition(records: seq<Row>) returns (primary: map<Fingerprint, Row>, keys: seq<Fingerprint>,
                   duplicates: seq<Duplicate>)
    ensures primary == Primaries(records, |records|)
    ensures keys == Keys(records, |records|)
    ensures duplicates == DuplicatesOf(records, |records|)
  {
    primary, keys, duplicates := map[], [], [];
    for i := 0 to |records|
      invariant primary == Primaries(records, i)
      invariant keys == Keys(records, i)
      invariant duplicates == DuplicatesOf(records, i)
    {
      var item := records[i];
      if item.fingerprint !in primary {
        primary, keys := primary[item.fingerprint := item], keys + [item.fingerprint];
      } else {
        duplicates := duplicates + [Duplicate(item.fingerprint, primary[item.fingerprint].findingId, item.findingId)];
      }
    }
  }

  /** The first of the n records with a fingerprint. */
  ghost predicate IsFirst(records: seq<Row>, n: nat, f: Fingerprint, row: Row)
    requires n <= |records|
  {
    exists i | 0 <= i < n :: records[i] == row && row.fingerprint == f && NoneBefore(records, i, f)
  }

  ghost predicate NoneBefore(records: seq<Row>, i: nat, f: Fingerprint)
    requires i <= |records|
  {
    forall j | 0 <= j < i :: records[j].fingerprint != f
  }

  lemma {:induction false} PrimariesAreFirst(records: seq<Row>, n: nat)
    requires n <= |records|
    ensures forall f | f in Primaries(records, n) :: IsFirst(records, n, f, Primaries(records, n)[f])
    ensures forall j | 0 <= j < n :: records[j].fingerprint in Primaries(records, n)
  {
    if n > 0 {
      PrimariesAreFirst(records, n - 1);
      var earlier, now := Primaries(records, n - 1), Primaries(records, n);
      var f := records[n - 1].fingerprint;
      forall g | g in now ensures IsFirst(records, n, g, now[g]) {
        if g in earlier {
          var i :| 0 <= i < n - 1 && records[i] == earlier[g] && earlier[g].fingerprint == g
             && NoneBefore(records, i, g);
        } else {
          assert NoneBefore(records, n - 1, f);
        }
      }
    }
  }

  lemma {:induction false} KeysAreDomain(records: seq<Row>, n: nat)
    requires n <= |records|
    ensures NoDup(Keys(records, n))
    ensures forall f :: f in Keys(records, n) <==> f in Primaries(records, n)
  {
    if n > 0 { KeysAreDomain(records, n - 1); }
  }

  const PRINT: Row -> Fingerprint := (r: Row) => r.fingerprint
  const DUPLICATED: Duplicate -> Fingerprint := (d: Duplicate) => d.fingerprint

  /** Every fingerprint read is either a new key or that of a duplicate. */
  ghost predicate Accounted(keys: seq<Fingerprint>, duplicates: seq<Duplicate>, records: seq<Row>) {
    multiset(keys) + multiset(Mapped(duplicates, DUPLICATED)) == multiset(Mapped(records, PRINT))
  }

  lemma KeyAccounted(keys: seq<Fingerprint>, duplicates: seq<Duplicate>, records: seq<Row>, item: Row)
    requires Accounted(keys, duplicates, records)
    ensures Accounted(keys + [item.fingerprint], duplicates, records + [item])
  {
    MappedLast(records, item, PRINT);
  }

  lemma DuplicateAccounted(keys: seq<Fingerprint>, duplicates: seq<Duplicate>, records: seq<Row>, item: Row, d: Duplicate)
    requires Accounted(keys, duplicates, records) && d.fingerprint == item.fingerprint
    ensures Accounted(keys, duplicates + [d], records + [item])
  {
    MappedLast(records, item, PRINT);
    MappedLast(duplicates, d, DUPLICATED);
  }

  lemma {:induction false} AllAccounted(records: seq<Row>, n: nat)
    requires n <= |records|
    ensures Accounted(Keys(records, n), DuplicatesOf(records, n), records[..n])
  {
    if n > 0 {
      AllAccounted(records, n - 1);
      var item, earlier := records[n - 1], Primaries(records, n - 1);
      assert records[..n] == records[..n - 1] + [item];
      if item.fingerprint in earlier {
        DuplicateAccounted(Keys(records, n - 1), DuplicatesOf(records, n - 1), records[..n - 1], item,
                           Duplicate(item.fingerprint, earlier[item.fingerprint].findingId, item.findingId));
      } else {
        KeyAccounted(Keys(records, n - 1), DuplicatesOf(records, n - 1), records[..n - 1], item);
      }
    }
  }

  /** Some record holds this fingerprint with this id. */
  ghost predicate Stored(records: seq<Row>, f: Fingerprint, id: FindingId) {
    exists j | 0 <= j < |records| :: records[j].fingerprint == f && records[j].findingId == id
  }

  lemma {:induction false} DuplicatesAreStored(records: seq<Row>, n: nat)
    requires n <= |records|
    ensures forall k | 0 <= k < |DuplicatesOf(records, n)| ::
              && Stored(records, DuplicatesOf(records, n)[k].fingerprint, DuplicatesOf(records, n)[k].primaryId)
              && Stored(records, DuplicatesOf(records, n)[k].fingerprint, DuplicatesOf(records, n)[k].duplicateId)
  {
    if n > 0 {
      DuplicatesAreStored(records, n - 1);
      PrimariesAreFirst(records, n - 1);
      var item := records[n - 1];
      if item.fingerprint in Primaries(records, n - 1) {
        var first := Primaries(records, n - 1)[item.fingerprint];
        var i :| 0 <= i < n - 1 && records[i] == first && first.fingerprint == item.fingerprint
           && NoneBefore(records, i, item.fingerprint);
        assert Stored(records, item.fingerprint, first.findingId);
        assert Stored(records, item.fingerprint, item.findingId);
      }
    }
  }

  // ----- The stage -----

  /** What `dedup_stage` promises of its two lists, given the stored rows. */
  ghost predicate Deduplicated(s: Store, scan: nat, findings: seq<Row>, duplicates: seq<Duplicate>) {
    && PrintsAddUp(s.rows, scan, findings, duplicates)
    && OnePerFingerprint(s.rows, scan, findings)
    && (forall i | 0 <= i < |findings| :: LowestRun(s.rows, scan, findings[i]))
    && SortedBy(duplicates, DuplicateLe)
    && forall d | d in duplicates ::
         d.fingerprint in s.findings && d.primaryId == d.duplicateId == s.findings[d.fingerprint]
  }

  /** Of every fingerprint there are as many primaries and duplicates together as the table has rows of the scan; as it has
      one primary, it has a duplicate for each further row. */
  ghost predicate PrintsAddUp(rows: seq<Row>, scan: nat, findings: seq<Row>, duplicates: seq<Duplicate>) {
    forall f :: multiset(Mapped(findings, PRINT))[f] + multiset(Mapped(duplicates, DUPLICATED))[f] == |RowsAt(rows, scan, f)|
  }

  /** The primaries are in strictly increasing fingerprint order and cover every stored fingerprint. */
  ghost predicate OnePerFingerprint(rows: seq<Row>, scan: nat, findings: seq<Row>) {
    && (forall i, j | 0 <= i < j < |findings| ::
          findings[i].fingerprint != findings[j].fingerprint && StringLe(findings[i].fingerprint, findings[j].fingerprint))
    && (forall r | Of(rows, scan, r) :: exists i | 0 <= i < |findings| :: findings[i].fingerprint == r.fingerprint)
  }

  /** A row of the scan no other row of which with its fingerprint has a lower tool run. */
  ghost predicate LowestRun(rows: seq<Row>, scan: nat, row: Row) {
    Of(rows, scan, row) && forall r | Of(rows, scan, r) && r.fingerprint == row.fingerprint :: row.run <= r.run
  }

  method Dedup(s: Store, scan: nat) returns (findings: seq<Row>, duplicates: seq<Duplicate>)
    requires Good(s)
    ensures Deduplicated(s, scan, findings, duplicates)
  {
    var records := Sort(Read(s.rows, scan), RecordLe);
    ReadInOrder(s, scan);
    var primary, keys, groups := Partition(records);
    PrimariesAreFirst(records, |records|);
    KeysAreDomain(records, |records|);
    KeysInOrder(records);
    RowsOfExact(s.rows, scan);
    findings := ListPrimaries(s.rows, scan, records, primary, Sort(keys, StringLe));
    duplicates := Sort(groups, DuplicateLe);
    GroupsRight(s, scan, records, duplicates);
    AddUp(s.rows, scan, records, findings, duplicates);
  }

  /** The list `[primary[key] for key in sorted(primary)]`. */
  method ListPrimaries(ghost rows: seq<Row>, ghost scan: nat, ghost records: seq<Row>, primary: map<Fingerprint, Row>,
                       keys: seq<Fingerprint>)
    returns (findings: seq<Row>)
    requires (forall r :: r in records <==> Of(rows, scan, r)) && SortedBy(records, ReadLe)
    requires forall f | f in primary :: IsFirst(records, |records|, f, primary[f])
    requires forall j | 0 <= j < |records| :: records[j].fingerprint in primary
    requires (forall f :: f in keys <==> f in primary) && NoDup(keys) && SortedBy(keys, StringLe)
    ensures Mapped(findings, PRINT) == keys
    ensures OnePerFingerprint(rows, scan, findings)
    ensures forall i | 0 <= i < |findings| :: LowestRun(rows, scan, findings[i])
  {
    findings := [];
    for i := 0 to |keys|
      invariant ArePicked(primary, keys[..i], findings)
    {
      assert keys[i] in keys;
      findings := findings + [primary[keys[i]]];
    }
    assert keys[..|keys|] == keys;
    PickedCover(rows, scan, records, primary, keys, findings);
    PickedLowest(rows, scan, records, primary, keys, findings);
  }

  lemma PairTotal(a: string, m: nat, b: string, n: nat)
    ensures PairLe(a, m, b, n) || PairLe(b, n, a, m)
  {
    StringLeTotalOrder();
  }

  lemma PairTransitive(a: string, m: nat, b: string, n: nat, c: string, k: nat)
    requires PairLe(a, m, b, n) && PairLe(b, n, c, k)
    ensures PairLe(a, m, c, k)
  {
    StringLeTotalOrder();
    assert StringLe(a, a);
    assert StringLe(a, b) && StringLe(b, c);
    assert StringLe(a, c);
    if a == c { assert a == b; }
  }

  lemma Orders()
    ensures TotalPreorder(ReadLe) && TotalPreorder(DuplicateLe)
  {
    forall x: Row, y: Row ensures ReadLe(x, y) || ReadLe(y, x) {
      PairTotal(x.fingerprint, x.run, y.fingerprint, y.run);
    }
    forall x: Row, y: Row, z: Row | ReadLe(x, y) && ReadLe(y, z) ensures ReadLe(x, z) {
      PairTransitive(x.fingerprint, x.run, y.fingerprint, y.run, z.fingerprint, z.run);
    }
    forall x: Duplicate, y: Duplicate ensures DuplicateLe(x, y) || DuplicateLe(y, x) {
      PairTotal(x.fingerprint, x.duplicateId, y.fingerprint, y.duplicateId);
    }
    forall x: Duplicate, y: Duplicate, z: Duplicate | DuplicateLe(x, y) && DuplicateLe(y, z) ensures DuplicateLe(x, z) {
      PairTransitive(x.fingerprint, x.duplicateId, y.fingerprint, y.duplicateId, z.fingerprint, z.duplicateId);
    }
  }

  lemma {:induction false} RowsOfGood(rows: seq<Row>, findings: map<Fingerprint, FindingId>, scan: nat)
    requires RowsGood(rows, findings)
    ensures forall r | r in RowsOf(rows, scan) :: r.fingerprint in findings && r.findingId == findings[r.fingerprint]
  {
    if rows != [] { RowsOfGood(rows[..|rows| - 1], findings, scan); }
  }

  /** The second sort of `dedup_stage` finds the rows already in order, so the tool run still decides within a
      fingerprint. */
  lemma ReadInOrder(s: Store, scan: nat)
    requires Good(s)
    ensures var records := Sort(Read(s.rows, scan), RecordLe);
            && records == Read(s.rows, scan) && SortedBy(records, ReadLe)
            && multiset(records) == multiset(RowsOf(s.rows, scan)) && |records| == |RowsOf(s.rows, scan)|
            && (forall r :: r in records <==> r in RowsOf(s.rows, scan))
  {
    var stored, records := RowsOf(s.rows, scan), Read(s.rows, scan);
    Orders();
    SortSorts(stored, ReadLe);
    MemberOfSort(stored, ReadLe);
    RowsOfGood(s.rows, s.findings, scan);
    forall i, j | 0 <= i < j < |records| ensures RecordLe(records[i], records[j]) {
      assert ReadLe(records[i], records[j]);
      assert records[i] in records && records[j] in records;
    }
    SortOfSorted(records, RecordLe);
  }

  lemma KeysInOrder(records: seq<Row>)
    ensures var keys := Sort(Keys(records, |records|), StringLe);
            && NoDup(keys) && SortedBy(keys, StringLe) && |keys| == |Keys(records, |records|)|
            && forall f :: f in keys <==> f in Keys(records, |records|)
  {
    KeysAreDomain(records, |records|);
    StringLeTotalOrder();
    SortSorts(Keys(records, |records|), StringLe);
    SortKeepsNoDup(Keys(records, |records|), StringLe);
    MemberOfSort(Keys(records, |records|), StringLe);
  }

  /** The findings are the primaries of the keys. */
  ghost predicate ArePicked(primary: map<Fingerprint, Row>, keys: seq<Fingerprint>, findings: seq<Row>) {
    |findings| == |keys| && forall i | 0 <= i < |keys| :: keys[i] in primary && findings[i] == primary[keys[i]]
  }

  lemma PickedCover(rows: seq<Row>, scan: nat, records: seq<Row>, primary: map<Fingerprint, Row>, keys: seq<Fingerprint>,
                    findings: seq<Row>)
    requires forall r :: r in records <==> Of(rows, scan, r)
    requires forall f | f in primary :: IsFirst(records, |records|, f, primary[f])
    requires forall j | 0 <= j < |records| :: records[j].fingerprint in primary
    requires (forall f :: f in keys <==> f in primary) && NoDup(keys) && SortedBy(keys, StringLe)
    requires ArePicked(primary, keys, findings)
    ensures OnePerFingerprint(rows, scan, findings) && Mapped(findings, PRINT) == keys
  {
    forall i | 0 <= i < |keys| ensures findings[i].fingerprint == keys[i] {
      assert IsFirst(records, |records|, keys[i], primary[keys[i]]);
    }
    forall r | Of(rows, scan, r) ensures exists i | 0 <= i < |findings| :: findings[i].fingerprint == r.fingerprint {
      var j :| 0 <= j < |records| && records[j] == r;
      assert r.fingerprint in keys;
      var i :| 0 <= i < |keys| && keys[i] == r.fingerprint;
      assert findings[i].fingerprint == r.fingerprint;
    }
  }

  lemma PickedLowest(rows: seq<Row>, scan: nat, records: seq<Row>, primary: map<Fingerprint, Row>, keys: seq<Fingerprint>,
                     findings: seq<Row>)
    requires (forall r :: r in records <==> Of(rows, scan, r)) && SortedBy(records, ReadLe)
    requires forall f | f in primary :: IsFirst(records, |records|, f, primary[f])
    requires ArePicked(primary, keys, findings)
    ensures forall i | 0 <= i < |findings| :: LowestRun(rows, scan, findings[i])
  {
    forall i | 0 <= i < |findings| ensures LowestRun(rows, scan, findings[i]) {
      FirstIsLowest(records, keys[i], primary[keys[i]]);
      assert primary[keys[i]] in records;
    }
  }

  lemma FirstIsLowest(records: seq<Row>, f: Fingerprint, row: Row)
    requires SortedBy(records, ReadLe) && IsFirst(records, |records|, f, row)
    ensures row.fingerprint == f && row in records && forall r | r in records && r.fingerprint == f :: row.run <= r.run
  {
    var i :| 0 <= i < |records| && records[i] == row && row.fingerprint == f && NoneBefore(records, i, f);
    forall r | r in records && r.fingerprint == f ensures row.run <= r.run {
      var j :| 0 <= j < |records| && records[j] == r;
      if i < j { assert ReadLe(records[i], records[j]); }
    }
  }

  lemma GroupsRight(s: Store, scan: nat, records: seq<Row>, duplicates: seq<Duplicate>)
    requires Good(s) && records == Sort(Read(s.rows, scan), RecordLe)
    requires duplicates == Sort(DuplicatesOf(records, |records|), DuplicateLe)
    ensures SortedBy(duplicates, DuplicateLe)
    ensures forall d | d in duplicates ::
          d.fingerprint in s.findings && d.primaryId == d.duplicateId == s.findings[d.fingerprint]
  {
    var groups := DuplicatesOf(records, |records|);
    SortedGroups(groups);
    ReadInOrder(s, scan);
    RowsOfGood(s.rows, s.findings, scan);
    DuplicatesAreStored(records, |records|);
    forall d | d in duplicates
      ensures d.fingerprint in s.findings && d.primaryId == d.duplicateId == s.findings[d.fingerprint]
    {
      var k :| 0 <= k < |groups| && groups[k] == d;
      StoredId(s, scan, records, d.fingerprint, d.primaryId);
      StoredId(s, scan, records, d.fingerprint, d.duplicateId);
    }
  }

  lemma AddUp(rows: seq<Row>, scan: nat, records: seq<Row>, findings: seq<Row>, duplicates: seq<Duplicate>)
    requires multiset(records) == multiset(RowsOf(rows, scan))
    requires Mapped(findings, PRINT) == Sort(Keys(records, |records|), StringLe)
    requires duplicates == Sort(DuplicatesOf(records, |records|), DuplicateLe)
    ensures PrintsAddUp(rows, scan, findings, duplicates)
  {
    var groups := DuplicatesOf(records, |records|);
    Orders();
    StringLeTotalOrder();
    SortSorts(Keys(records, |records|), StringLe);
    SortSorts(groups, DuplicateLe);
    MappedBag(duplicates, groups, DUPLICATED);
    AllAccounted(records, |records|);
    assert records[..|records|] == records;
    MappedBag(records, RowsOf(rows, scan), PRINT);
    forall f
      ensures multiset(Mapped(findings, PRINT))[f] + multiset(Mapped(duplicates, DUPLICATED))[f] == |RowsAt(rows, scan, f)|
    {
      PrintCount(rows, scan, f);
    }
  }

  lemma SortedGroups(groups: seq<Duplicate>)
    ensures SortedBy(Sort(groups, DuplicateLe), DuplicateLe) && |Sort(groups, DuplicateLe)| == |groups|
    ensures forall d :: d in Sort(groups, DuplicateLe) <==> d in groups
  {
    Orders();
    SortSorts(groups, DuplicateLe);
    MemberOfSort(groups, DuplicateLe);
  }

  lemma StoredId(s: Store, scan: nat, records: seq<Row>, f: Fingerprint, id: FindingId)
    requires forall r | r in RowsOf(s.rows, scan) ::
          r.fingerprint in s.findings && r.findingId == s.findings[r.fingerprint]
    requires (forall r :: r in records <==> r in RowsOf(s.rows, scan)) && Stored(records, f, id)
    ensures f in s.findings && id == s.findings[f]
  {
    var i :| 0 <= i < |records| && records[i].fingerprint == f && records[i].findingId == id;
    assert records[i] in RowsOf(s.rows, scan);
  }
}
