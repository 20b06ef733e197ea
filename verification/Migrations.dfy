/** Forward-only migrations with paired rollbacks (app/migrations.py).

    A script acts on the database as a partial function; running one inside a transaction either takes
    effect together with its ledger change or not at all.  Backups and timestamps are not modelled. */
module Migrations {
  import opened Wrappers
  import opened Sorting

  datatype File = File(version: nat, name: string, sql: string)

  datatype Row = Row(version: nat, name: string, checksum: nat)

  /** How scripts act, how files are hashed, which down scripts pass validation, and the down directory. */
  datatype Env<!Db> = Env(
    run: (string, Db) -> Option<Db>,
    sha: string -> nat,
    safe: string -> bool,
    downs: map<(nat, string), string>)

  /** The database and its ledger, ordered by version. */
  datatype Store<Db> = Store(db: Db, ledger: seq<Row>)

  ghost predicate Ascending(files: seq<File>) {
    forall i, j | 0 <= i < j < |files| :: files[i].version < files[j].version
  }

  ghost predicate LedgerAscending(ledger: seq<Row>) {
    forall i, j | 0 <= i < j < |ledger| :: ledger[i].version < ledger[j].version
  }

  /** `max(applied, default=0)` */
  function Current(ledger: seq<Row>): nat {
    if ledger == [] then 0 else ledger[|ledger| - 1].version
  }

  predicate Applied(ledger: seq<Row>, version: nat) {
    exists i | 0 <= i < |ledger| :: ledger[i].version == version
  }

  // ----- Discovery -----

  /** A file name that matched the pattern, or did not. */
  datatype Candidate = Candidate(parsed: Option<(nat, string)>, sql: string)

  datatype Error =
    | InvalidName | DuplicateVersion(version: nat)
    | ChecksumChanged(version: nat) | BehindCurrent
    | NegativeTarget | AheadOfCurrent | MissingDown(version: nat) | UnsafeDown(version: nat) | ScriptFailed

  const FileLe: (File, File) -> bool := (a: File, b: File) => a.version <= b.version

  ghost predicate DistinctVersions(found: seq<Candidate>) {
    forall i, j | 0 <= i < j < |found| && found[i].parsed.Some? && found[j].parsed.Some? ::
      found[i].parsed.value.0 != found[j].parsed.value.0
  }

  ghost predicate OccursTwice(found: seq<Candidate>, version: nat) {
    exists i, j | 0 <= i < j < |found| ::
      found[i].parsed.Some? && found[j].parsed.Some? && found[i].parsed.value.0 == version == found[j].parsed.value.0
  }

  /** `discover`: succeeds exactly on well-named files of distinct versions, and lists them in version order. */
  method Discover(found: seq<Candidate>) returns (r: Result<seq<File>, Error>)
    ensures r.Success? <==> (forall c | c in found :: c.parsed.Some?) && DistinctVersions(found)
    ensures r.Failure? ==> || (r.error == InvalidName && exists c | c in found :: c.parsed.None?)
                           || (r.error.DuplicateVersion? && OccursTwice(found, r.error.version))
    ensures r.Success? ==> Ascending(r.value) && |r.value| == |found|
    ensures r.Success? ==> forall f :: f in r.value <==>
              exists i | 0 <= i < |found| :: found[i].parsed == Some((f.version, f.name)) && found[i].sql == f.sql
  {
    var files: seq<File> := [];
    var seen: set<nat> := {};
    for i := 0 to |found|
      invariant |files| == i
      invariant forall j | 0 <= j < i ::
            found[j].parsed == Some((files[j].version, files[j].name)) && found[j].sql == files[j].sql
      invariant seen == set j | 0 <= j < i :: files[j].version
      invariant forall j, k | 0 <= j < k < i :: files[j].version != files[k].version
    {
      if found[i].parsed.None? {
        assert found[i] in found;
        return Failure(InvalidName);
      }
      var (version, name) := found[i].parsed.value;
      if version in seen {
        return Failure(DuplicateVersion(version));
      }
      seen := seen + {version};
      files := files + [File(version, name, found[i].sql)];
    }
    SortedFiles(files);
    return Success(Sort(files, FileLe));
  }

  lemma SortedFiles(files: seq<File>)
    requires forall j, k | 0 <= j < k < |files| :: files[j].version != files[k].version
    ensures Ascending(Sort(files, FileLe)) && |Sort(files, FileLe)| == |files|
    ensures forall f :: f in Sort(files, FileLe) <==> f in files
  {
    SortSorts(files, FileLe);
    MemberOfSort(files, FileLe);
    var sorted := Sort(files, FileLe);
    assert NoDup(files);
    SortKeepsNoDup(files, FileLe);
    forall i, j | 0 <= i < j < |sorted| ensures sorted[i].version < sorted[j].version {
      assert FileLe(sorted[i], sorted[j]);
      assert sorted[i] in files && sorted[j] in files && sorted[i] != sorted[j];
    }
  }

  // ----- Planning -----

  ghost predicate ChecksumsMatch<Db>(env: Env<Db>, files: seq<File>, ledger: seq<Row>) {
    forall i, j | 0 <= i < |files| && 0 <= j < |ledger| && files[i].version == ledger[j].version ::
      env.sha(files[i].sql) == ledger[j].checksum
  }

  ghost predicate NothingBehind(files: seq<File>, ledger: seq<Row>) {
    forall i | 0 <= i < |files| && files[i].version <= Current(ledger) :: Applied(ledger, files[i].version)
  }

  function Pending(files: seq<File>, current: nat): seq<File> {
    if files == [] then []
    else if files[0].version > current then [files[0]] + Pending(files[1..], current)
    else Pending(files[1..], current)
  }

  /** `plan`: refused for a changed checksum or a file behind the current version, else the files ahead of it. */
  method Plan<Db>(env: Env<Db>, files: seq<File>, ledger: seq<Row>) returns (r: Result<seq<File>, Error>)
    ensures r.Success? <==> ChecksumsMatch(env, files, ledger) && NothingBehind(files, ledger)
    ensures r.Success? ==> r.value == Pending(files, Current(ledger))
    ensures r.Failure? ==> if ChecksumsMatch(env, files, ledger) then r.error.BehindCurrent?
                           else r.error.ChecksumChanged? && Applied(ledger, r.error.version)
  {
    for j := 0 to |ledger|
      invariant forall i, k | 0 <= i < |files| && 0 <= k < j && files[i].version == ledger[k].version ::
                  env.sha(files[i].sql) == ledger[k].checksum
    {
      for i := 0 to |files|
        invariant forall m | 0 <= m < i && files[m].version == ledger[j].version ::
              env.sha(files[m].sql) == ledger[j].checksum
      {
        if files[i].version == ledger[j].version && env.sha(files[i].sql) != ledger[j].checksum {
          return Failure(ChecksumChanged(ledger[j].version));
        }
      }
    }
    var current := Current(ledger);
    var pending: seq<File> := [];
    for i := 0 to |files|
      invariant forall m | 0 <= m < i && files[m].version <= current :: Applied(ledger, files[m].version)
      invariant pending + Pending(files[i..], current) == Pending(files, current)
    {
      if files[i].version <= current && !Applied(ledger, files[i].version) {
        return Failure(BehindCurrent);
      }
      if files[i].version > current {
        pending := pending + [files[i]];
      }
    }
    return Success(pending);
  }

  // ----- Applying -----

  function RowOf<Db>(env: Env<Db>, f: File): Row {
    Row(f.version, f.name, env.sha(f.sql))
  }

  /** `_apply_one`: script and ledger row in one transaction. */
  function ApplyOne<Db>(env: Env<Db>, s: Store<Db>, f: File): Option<Store<Db>> {
    var next := env.run(f.sql, s.db);
    if next.None? then None else Some(Store(next.value, s.ledger + [RowOf(env, f)]))
  }

  /** Applies files until one fails or, as in a crash, the first `limit` are done. */
  function ApplySome<Db>(env: Env<Db>, s: Store<Db>, files: seq<File>, limit: nat): Store<Db>
    decreases |files|
  {
    if files == [] || limit == 0 then s
    else
      var next := ApplyOne(env, s, files[0]);
      if next.None? then s else ApplySome(env, next.value, files[1..], limit - 1)
  }

  // ----- Rolling back -----

  /** The applied rows above the target, newest first. */
  function Reverted(ledger: seq<Row>, target: int): seq<Row> {
    if ledger == [] then []
    else
      var last := ledger[|ledger| - 1];
      var earlier := Reverted(ledger[..|ledger| - 1], target);
      if last.version > target then [last] + earlier else earlier
  }

  function Remaining(ledger: seq<Row>, target: int): seq<Row> {
    if ledger == [] then []
    else
      var last := ledger[|ledger| - 1];
      var earlier := Remaining(ledger[..|ledger| - 1], target);
      if last.version > target then earlier else earlier + [last]
  }

  /** The first missing or rejected down script. */
  function DownFault<Db>(env: Env<Db>, rows: seq<Row>): Option<Error> {
    if rows == [] then None
    else if (rows[0].version, rows[0].name) !in env.downs then Some(MissingDown(rows[0].version))
    else if !env.safe(env.downs[(rows[0].version, rows[0].name)]) then Some(UnsafeDown(rows[0].version))
    else DownFault(env, rows[1..])
  }

  /** The down scripts, run in order inside one transaction. */
  function RunDowns<Db>(env: Env<Db>, db: Db, rows: seq<Row>): Option<Db>
    requires DownFault(env, rows).None?
  {
    if rows == [] then Some(db)
    else
      var next := env.run(env.downs[(rows[0].version, rows[0].name)], db);
      if next.None? then None else RunDowns(env, next.value, rows[1..])
  }

  function Rollback<Db>(env: Env<Db>, s: Store<Db>, target: int): Result<Store<Db>, Error> {
    if target < 0 then Failure(NegativeTarget)
    else if target > Current(s.ledger) then Failure(AheadOfCurrent)
    else
      var rows := Reverted(s.ledger, target);
      var fault := DownFault(env, rows);
      if fault.Some? then Failure(fault.value)
      else
        var db := RunDowns(env, s.db, rows);
        if db.None? then Failure(ScriptFailed) else Success(Store(db.value, Remaining(s.ledger, target)))
  }

  /** A version that the ledger holds above the target. */
  ghost predicate Above(ledger: seq<Row>, target: int, row: Row) {
    row in ledger && row.version > target
  }

  lemma {:induction false} RevertedAreAbove(ledger: seq<Row>, target: int)
    ensures forall row :: row in Reverted(ledger, target) <==> Above(ledger, target, row)
    ensures forall row :: row in Remaining(ledger, target) <==> row in ledger && row.version <= target
  {
    if ledger != [] { RevertedAreAbove(ledger[..|ledger| - 1], target); }
  }

  lemma {:induction false} FaultsAre<Db>(env: Env<Db>, rows: seq<Row>)
    ensures DownFault(env, rows).None? <==>
              forall row | row in rows :: (row.version, row.name) in env.downs && env.safe(env.downs[(row.version, row.name)])
    ensures DownFault(env, rows).Some? ==> match DownFault(env, rows).value
              case MissingDown(v) => exists row | row in rows :: row.version == v && (row.version, row.name) !in env.downs
              case UnsafeDown(v) => exists row | row in rows ::
                  row.version == v && (row.version, row.name) in env.downs
                     && !env.safe(env.downs[(row.version, row.name)])
              case _ => false
  {
    if rows != [] {
      FaultsAre(env, rows[1..]);
      assert rows == [rows[0]] + rows[1..];
    }
  }

  /** A rollback goes through only to a target within the ledger and only when every version above it has a down script
      that passes validation; and a refusal names what is wrong. */
  lemma RollbackChecks<Db>(env: Env<Db>, s: Store<Db>, target: int)
    ensures Rollback(env, s, target).Success? ==>
              && 0 <= target <= Current(s.ledger)
              && (forall row | Above(s.ledger, target, row) ::
                    (row.version, row.name) in env.downs && env.safe(env.downs[(row.version, row.name)]))
              && (forall row :: row in Rollback(env, s, target).value.ledger <==> row in s.ledger && row.version <= target)
    ensures Rollback(env, s, target).Failure? ==> match Rollback(env, s, target).error
              case NegativeTarget => target < 0
              case AheadOfCurrent => target > Current(s.ledger)
              case MissingDown(v) => exists row | Above(s.ledger, target, row) :: row.version == v && (row.version, row.name) !in env.downs
              case UnsafeDown(v) => exists row | Above(s.ledger, target, row) ::
                  row.version == v && (row.version, row.name) in env.downs
                     && !env.safe(env.downs[(row.version, row.name)])
              case ScriptFailed => 0 <= target <= Current(s.ledger) && forall row | Above(s.ledger, target, row) ::
                  (row.version, row.name) in env.downs && env.safe(env.downs[(row.version, row.name)])
              case _ => false
  {
    RevertedAreAbove(s.ledger, target);
    FaultsAre(env, Reverted(s.ledger, target));
  }

  class MigrationManager<Db> {
    const env: Env<Db>
    const files: seq<File>
    var db: Db
    var ledger: seq<Row>

    function State(): Store<Db>
      reads this
    {
      Store(db, ledger)
    }

    constructor (env: Env<Db>, files: seq<File>, db: Db)
      ensures this.env == env && this.files == files && State() == Store(db, [])
    {
      this.env, this.files, this.db, ledger := env, files, db, [];
    }

    /** `apply`: a failing script stops the run; what was applied before it stays. */
    method Apply() returns (r: Result<seq<File>, Error>)
      modifies this
      ensures r.Success? || r.error.ScriptFailed? ==>
                ChecksumsMatch(env, files, old(ledger)) && NothingBehind(files, old(ledger))
                && State() == ApplySome(env, old(State()), Pending(files, Current(old(ledger))), |files|)
      ensures r.Failure? && !r.error.ScriptFailed? ==> State() == old(State())
      ensures r.Success? ==> r.value == Pending(files, Current(old(ledger)))
      ensures r.Success? ==> |ledger| == |old(ledger)| + |r.value|
    {
      var plan := Plan(env, files, ledger);
      if plan.Failure? { return plan; }
      var pending := plan.value;
      PendingBounded(files, Current(ledger));
      ghost var start := State();
      for i := 0 to |pending|
        invariant ApplySome(env, State(), pending[i..], |files| - i) == ApplySome(env, start, pending, |files|)
        invariant |ledger| == |start.ledger| + i
      {
        assert pending[i..][1..] == pending[i + 1..];
        var next := env.run(pending[i].sql, db);
        if next.None? { return Failure(ScriptFailed); }
        db := next.value;
        ledger := ledger + [RowOf(env, pending[i])];
      }
      return Success(pending);
    }

    /** `rollback`: every check comes before anything runs, and the scripts run in one transaction. */
    method RollbackTo(target: int) returns (r: Result<seq<Row>, Error>)
      modifies this
      ensures r.Success? <==> Rollback(env, old(State()), target).Success?
      ensures r.Success? ==> State() == Rollback(env, old(State()), target).value && r.value == Reverted(old(ledger), target)
      ensures r.Failure? ==> State() == old(State()) && r.error == Rollback(env, old(State()), target).error
      ensures r.Success? ==> 0 <= target <= Current(old(ledger)) && forall row | Above(old(ledger), target, row) ::
                (row.version, row.name) in env.downs && env.safe(env.downs[(row.version, row.name)])
    {
      RollbackChecks(env, State(), target);
      if target < 0 { return Failure(NegativeTarget); }
      if target > Current(ledger) { return Failure(AheadOfCurrent); }
      var versions := Reverted(ledger, target);
      var fault := DownFault(env, versions);
      if fault.Some? { return Failure(fault.value); }
      var working := db;
      ghost var whole := RunDowns(env, db, versions);
      for i := 0 to |versions|
        invariant DownFault(env, versions[i..]).None?
        invariant RunDowns(env, working, versions[i..]) == whole
      {
        assert versions[i..][1..] == versions[i + 1..];
        var next := env.run(env.downs[(versions[i].version, versions[i].name)], working);
        if next.None? { return Failure(ScriptFailed); }
        working := next.value;
      }
      db := working;
      ledger := Remaining(ledger, target);
      return Success(versions);
    }
  }

  lemma PendingBounded(files: seq<File>, current: nat)
    ensures |Pending(files, current)| <= |files|
  {
  }

  // ----- Every reachable state -----

  /** The database that folding the first `k` up-scripts over `base` gives. */
  function Fold<Db>(env: Env<Db>, base: Db, files: seq<File>, k: nat): Option<Db>
    requires k <= |files|
  {
    if k == 0 then Some(base)
    else
      var before := Fold(env, base, files, k - 1);
      if before.None? then None else env.run(files[k - 1].sql, before.value)
  }

  lemma {:induction false} RowsAre<Db>(env: Env<Db>, files: seq<File>, k: nat)
    requires k <= |files|
    ensures |RowsOf(env, files, k)| == k && forall i | 0 <= i < k :: RowsOf(env, files, k)[i] == RowOf(env, files[i])
  {
    if k > 0 { RowsAre(env, files, k - 1); }
  }

  function RowsOf<Db>(env: Env<Db>, files: seq<File>, k: nat): seq<Row>
    requires k <= |files|
  {
    if k == 0 then [] else RowsOf(env, files, k - 1) + [RowOf(env, files[k - 1])]
  }

  /** A ledger that holds exactly the first `k` files. */
  ghost predicate LedgerAt<Db>(env: Env<Db>, files: seq<File>, ledger: seq<Row>, k: nat) {
    k <= |files| && ledger == RowsOf(env, files, k)
  }

  ghost predicate GoodFiles(files: seq<File>) {
    Ascending(files) && forall f | f in files :: f.version >= 1
  }

  lemma {:induction false} PendingFrom(files: seq<File>, current: nat, k: nat)
    requires Ascending(files) && k <= |files|
    requires k < |files| ==> files[k].version > current
    requires k > 0 ==> files[k - 1].version <= current
    ensures Pending(files, current) == files[k..]
    decreases |files|
  {
    if files != [] {
      if k > 0 {
        assert files[0].version <= files[k - 1].version;
        PendingFrom(files[1..], current, k - 1);
        assert files[1..][k - 1..] == files[k..];
      } else {
        if |files| > 1 { assert files[1].version > files[0].version; }
        PendingFrom(files[1..], current, 0);
        assert files == [files[0]] + files[1..];
      }
    }
  }

  /** With the ledger of the first `k` files nothing refuses the plan, and it is exactly the rest. */
  lemma PlanAtVersion<Db>(env: Env<Db>, files: seq<File>, ledger: seq<Row>, k: nat)
    requires GoodFiles(files) && LedgerAt(env, files, ledger, k)
    ensures ChecksumsMatch(env, files, ledger) && NothingBehind(files, ledger)
    ensures Pending(files, Current(ledger)) == files[k..]
    ensures LedgerAscending(ledger)
  {
    RowsAre(env, files, k);
    PendingAtVersion(env, files, ledger, k);
    LedgerMatchesFiles(env, files, ledger, k);
  }

  lemma PendingAtVersion<Db>(env: Env<Db>, files: seq<File>, ledger: seq<Row>, k: nat)
    requires GoodFiles(files) && LedgerOf(env, files, ledger, k)
    ensures Pending(files, Current(ledger)) == files[k..]
  {
    assert k < |files| ==> files[k] in files;
    PendingFrom(files, Current(ledger), k);
  }

  /** The ledger of the first `k` files. */
  ghost predicate LedgerOf<Db>(env: Env<Db>, files: seq<File>, ledger: seq<Row>, k: nat) {
    |ledger| == k <= |files| && forall i | 0 <= i < k :: ledger[i] == RowOf(env, files[i])
  }

  lemma LedgerMatchesFiles<Db>(env: Env<Db>, files: seq<File>, ledger: seq<Row>, k: nat)
    requires GoodFiles(files) && LedgerOf(env, files, ledger, k)
    ensures ChecksumsMatch(env, files, ledger) && NothingBehind(files, ledger) && LedgerAscending(ledger)
  {
    forall i, j | 0 <= i < |files| && 0 <= j < |ledger| && files[i].version == ledger[j].version
      ensures env.sha(files[i].sql) == ledger[j].checksum
    {
      assert i == j;
    }
    forall i | 0 <= i < |files| && files[i].version <= Current(ledger) ensures Applied(ledger, files[i].version) {
      assert files[i] in files;
      assert i < k;
      assert ledger[i].version == files[i].version;
    }
  }

  lemma {:induction false} FoldFails<Db>(env: Env<Db>, base: Db, files: seq<File>, k: nat)
    requires k <= |files| && Fold(env, base, files, k).None?
    ensures forall m | k <= m <= |files| :: Fold(env, base, files, m).None?
    decreases |files| - k
  {
    if k < |files| {
      FoldFails(env, base, files, k + 1);
    }
  }

  /** How many of the files are at or below the target. */
  function CountUpTo(files: seq<File>, target: int, k: nat): (m: nat)
    requires k <= |files|
    ensures m <= k
  {
    if k == 0 then 0
    else if files[k - 1].version > target then CountUpTo(files, target, k - 1)
    else k
  }

  lemma AllUpTo(files: seq<File>, target: int, k: nat)
    requires Ascending(files) && k < |files| && files[k].version <= target
    ensures CountUpTo(files, target, k) == k && CountUpTo(files, target, k + 1) == k + 1
  {
    if k > 0 { assert files[k - 1].version < files[k].version; }
  }

  /** How one more row, the newest, changes what a rollback keeps and reverts. */
  lemma OneMoreRow(front: seq<Row>, last: Row, target: int)
    ensures Remaining(front + [last], target)
            == if last.version > target then Remaining(front, target) else Remaining(front, target) + [last]
    ensures Reverted(front + [last], target)
            == if last.version > target then [last] + Reverted(front, target) else Reverted(front, target)
  {
    var all := front + [last];
    assert all[..|all| - 1] == front && all[|all| - 1] == last;
  }

  lemma {:induction false} RemainingRows<Db>(env: Env<Db>, files: seq<File>, target: int, k: nat)
    requires Ascending(files) && k <= |files|
    ensures Remaining(RowsOf(env, files, k), target) == RowsOf(env, files, CountUpTo(files, target, k))
  {
    if k > 0 {
      if files[k - 1].version <= target { AllUpTo(files, target, k - 1); }
      OneMoreRow(RowsOf(env, files, k - 1), RowOf(env, files[k - 1]), target);
      RemainingRows(env, files, target, k - 1);
    }
  }

  /** The rows of the files from `m` to `k`, newest first. */
  function Newest<Db>(env: Env<Db>, files: seq<File>, m: nat, k: nat): seq<Row>
    requires m <= k <= |files|
  {
    if m == k then [] else [RowOf(env, files[k - 1])] + Newest(env, files, m, k - 1)
  }

  lemma {:induction false} RevertedRows<Db>(env: Env<Db>, files: seq<File>, target: int, k: nat)
    requires Ascending(files) && k <= |files|
    ensures Reverted(RowsOf(env, files, k), target) == Newest(env, files, CountUpTo(files, target, k), k)
  {
    if k > 0 {
      if files[k - 1].version <= target { AllUpTo(files, target, k - 1); }
      OneMoreRow(RowsOf(env, files, k - 1), RowOf(env, files[k - 1]), target);
      RevertedRows(env, files, target, k - 1);
    }
  }

  lemma {:induction false} NewestLength<Db>(env: Env<Db>, files: seq<File>, m: nat, k: nat)
    requires m <= k <= |files|
    ensures |Newest(env, files, m, k)| == k - m
  {
    if m < k { NewestLength(env, files, m, k - 1); }
  }

  lemma {:induction false} DownFaults<Db>(env: Env<Db>, rows: seq<Row>)
    ensures DownFault(env, rows).Some? ==> DownFault(env, rows).value.MissingDown? || DownFault(env, rows).value.UnsafeDown?
  {
    if rows != [] { DownFaults(env, rows[1..]); }
  }

  // ----- Runs -----

  datatype Op<Db> = ApplyUntil(limit: nat) | RollbackOp(target: int) | Write(db: Db)

  /** An apply that is cut off after `limit` migrations, a rollback, or what the application writes in between; a
      refused operation changes nothing. */
  ghost function Step<Db>(env: Env<Db>, files: seq<File>, s: Store<Db>, op: Op<Db>): Store<Db> {
    match op
    case ApplyUntil(limit) =>
      if ChecksumsMatch(env, files, s.ledger) && NothingBehind(files, s.ledger)
      then ApplySome(env, s, Pending(files, Current(s.ledger)), limit) else s
    case RollbackOp(target) =>
      if Rollback(env, s, target).Success? then Rollback(env, s, target).value else s
    case Write(db) => s.(db := db)
  }

  ghost function Run<Db>(env: Env<Db>, files: seq<File>, s: Store<Db>, ops: seq<Op<Db>>): Store<Db> {
    if ops == [] then s else Step(env, files, Run(env, files, s, ops[..|ops| - 1]), ops[|ops| - 1])
  }

  // ----- The ledger of every run -----

  lemma {:induction false} ApplyLedger<Db>(env: Env<Db>, files: seq<File>, s: Store<Db>, k: nat, limit: nat) returns (m: nat)
    requires LedgerAt(env, files, s.ledger, k)
    ensures LedgerAt(env, files, ApplySome(env, s, files[k..], limit).ledger, m)
    decreases |files| - k
  {
    m := k;
    if k < |files| && limit > 0 {
      assert files[k..][1..] == files[k + 1..];
      var next := ApplyOne(env, s, files[k]);
      if next.Some? { m := ApplyLedger(env, files, next.value, k + 1, limit - 1); }
    }
  }

  lemma RollbackLedger<Db>(env: Env<Db>, files: seq<File>, s: Store<Db>, k: nat, target: int)
    requires Ascending(files) && LedgerAt(env, files, s.ledger, k) && Rollback(env, s, target).Success?
    ensures LedgerAt(env, files, Rollback(env, s, target).value.ledger, CountUpTo(files, target, k))
  {
    RemainingRows(env, files, target, k);
  }

  /** Whatever the scripts and the application do to the database: after any applies, crashes between migrations,
      re-applies and rollbacks the ledger holds exactly the first so many files. */
  lemma {:induction false} EveryLedgerIsPrefix<Db>(env: Env<Db>, base: Db, files: seq<File>, ops: seq<Op<Db>>) returns (k: nat)
    requires GoodFiles(files)
    ensures LedgerAt(env, files, Run(env, files, Store(base, []), ops).ledger, k)
    decreases |ops|
  {
    if ops == [] {
      k := 0;
    } else {
      k := EveryLedgerIsPrefix(env, base, files, ops[..|ops| - 1]);
      var s := Run(env, files, Store(base, []), ops[..|ops| - 1]);
      PlanAtVersion(env, files, s.ledger, k);
      match ops[|ops| - 1]
      case ApplyUntil(limit) => k := ApplyLedger(env, files, s, k, limit);
      case RollbackOp(target) =>
        if Rollback(env, s, target).Success? {
          RollbackLedger(env, files, s, k, target);
          k := CountUpTo(files, target, k);
        }
      case Write(db) =>
    }
  }

  /** So the ledger of a reachable state holds exactly the discovered versions up to the current one. */
  lemma LedgerIsPrefix<Db>(env: Env<Db>, base: Db, files: seq<File>, ops: seq<Op<Db>>, f: File)
    requires GoodFiles(files) && f in files
    ensures var ledger := Run(env, files, Store(base, []), ops).ledger;
            Applied(ledger, f.version) <==> f.version <= Current(ledger)
  {
    var k := EveryLedgerIsPrefix(env, base, files, ops);
    var ledger := Run(env, files, Store(base, []), ops).ledger;
    PlanAtVersion(env, files, ledger, k);
    if Applied(ledger, f.version) {
      var i :| 0 <= i < |ledger| && ledger[i].version == f.version;
      assert ledger[i].version <= ledger[|ledger| - 1].version;
    }
  }

  // ----- The database of every run, up to what a rollback may leave behind -----

  /** Which databases count as the same: a rollback may leave an empty table, the application may write its rows. */
  type Sameness<!Db> = (Db, Db) -> bool

  ghost predicate Equivalence<Db(!new)>(same: Sameness<Db>) {
    && (forall a :: same(a, a))
    && (forall a, b :: same(a, b) ==> same(b, a))
    && (forall a, b, c :: same(a, b) && same(b, c) ==> same(a, c))
  }

  /** The database counts as what the first `k` up scripts make of the base. */
  ghost predicate Near<Db>(env: Env<Db>, base: Db, files: seq<File>, same: Sameness<Db>, k: nat, db: Db) {
    k <= |files| && Fold(env, base, files, k).Some? && same(Fold(env, base, files, k).value, db)
  }

  /** On what counts as the fold so far, the next up script fails or succeeds as on the fold, with the same result. */
  ghost predicate UpsRespect<Db(!new)>(env: Env<Db>, base: Db, files: seq<File>, same: Sameness<Db>) {
    forall k: nat, db | k < |files| && Near(env, base, files, same, k, db) ::
      var up := env.run(files[k].sql, db);
      && (up.Some? <==> Fold(env, base, files, k + 1).Some?)
      && (up.Some? ==> Near(env, base, files, same, k + 1, up.value))
  }

  predicate HasDown<Db>(env: Env<Db>, f: File) {
    (f.version, f.name) in env.downs
  }

  function Down<Db>(env: Env<Db>, f: File, db: Db): Option<Db>
    requires HasDown(env, f)
  {
    env.run(env.downs[(f.version, f.name)], db)
  }

  /** A down script takes what counts as the result of its up script back to what counts as the fold before. */
  ghost predicate DownsReturn<Db(!new)>(env: Env<Db>, base: Db, files: seq<File>, same: Sameness<Db>) {
    forall k: nat, db | 0 < k <= |files| && HasDown(env, files[k - 1]) && Near(env, base, files, same, k, db) ::
      Down(env, files[k - 1], db).Some? ==> Near(env, base, files, same, k - 1, Down(env, files[k - 1], db).value)
  }

  /** And it never fails there. */
  ghost predicate DownsRun<Db(!new)>(env: Env<Db>, base: Db, files: seq<File>, same: Sameness<Db>) {
    forall k: nat, db | 0 < k <= |files| && HasDown(env, files[k - 1]) && Near(env, base, files, same, k, db) ::
      Down(env, files[k - 1], db).Some?
  }

  ghost predicate Tolerant<Db(!new)>(env: Env<Db>, base: Db, files: seq<File>, same: Sameness<Db>) {
    Equivalence(same) && UpsRespect(env, base, files, same) && DownsReturn(env, base, files, same)
  }

  /** The state after the first `k` migrations. */
  ghost predicate AtVersion<Db>(env: Env<Db>, base: Db, files: seq<File>, same: Sameness<Db>, s: Store<Db>, k: nat) {
    LedgerAt(env, files, s.ledger, k) && Near(env, base, files, same, k, s.db)
  }

  /** Where an apply of at most `limit` files from the state of the first `k` stops. */
  ghost predicate Stops<Db>(env: Env<Db>, base: Db, files: seq<File>, k: nat, limit: nat, m: nat) {
    && k <= m <= |files| && m - k <= limit && Fold(env, base, files, m).Some?
    && (m == |files| || m - k == limit || Fold(env, base, files, m + 1).None?)
  }

  lemma {:induction false} ApplyAtVersion<Db(!new)>(env: Env<Db>, base: Db, files: seq<File>, same: Sameness<Db>, s: Store<Db>,
                                                    k: nat, limit: nat)
    returns (m: nat)
    requires UpsRespect(env, base, files, same) && AtVersion(env, base, files, same, s, k)
    ensures Stops(env, base, files, k, limit, m)
    ensures AtVersion(env, base, files, same, ApplySome(env, s, files[k..], limit), m)
    decreases |files| - k
  {
    m := k;
    if k < |files| && limit > 0 {
      assert files[k..][1..] == files[k + 1..];
      var next := ApplyOne(env, s, files[k]);
      if next.Some? { m := ApplyAtVersion(env, base, files, same, next.value, k + 1, limit - 1); }
    }
  }

  /** Running the down scripts of the files above `m` takes what counts as the fold of `k` to what counts as that of `m`. */
  lemma {:induction false} DownsUndo<Db(!new)>(env: Env<Db>, base: Db, files: seq<File>, same: Sameness<Db>, m: nat, k: nat, db: Db)
    requires DownsReturn(env, base, files, same) && m <= k && Near(env, base, files, same, k, db)
    requires DownFault(env, Newest(env, files, m, k)).None?
    ensures var undone := RunDowns(env, db, Newest(env, files, m, k));
            && (undone.Some? ==> Near(env, base, files, same, m, undone.value))
            && (DownsRun(env, base, files, same) ==> undone.Some?)
    decreases k
  {
    if m < k {
      var f := files[k - 1];
      var rows := Newest(env, files, m, k);
      assert rows[0] == RowOf(env, f) && rows[1..] == Newest(env, files, m, k - 1);
      assert HasDown(env, f);
      var next := Down(env, f, db);
      if next.Some? { DownsUndo(env, base, files, same, m, k - 1, next.value); }
    }
  }

  /** A rollback from the state of `k` files reaches the state of those at or below the target, or changes nothing; where
      the down scripts run, only a missing or rejected one stops it. */
  lemma RollbackAtVersion<Db(!new)>(env: Env<Db>, base: Db, files: seq<File>, same: Sameness<Db>, s: Store<Db>, k: nat, target: int)
    requires Ascending(files) && DownsReturn(env, base, files, same) && AtVersion(env, base, files, same, s, k)
    ensures Rollback(env, s, target).Success? ==>
              AtVersion(env, base, files, same, Rollback(env, s, target).value, CountUpTo(files, target, k))
    ensures DownsRun(env, base, files, same) && Rollback(env, s, target).Failure? ==> !Rollback(env, s, target).error.ScriptFailed?
  {
    RemainingRows(env, files, target, k);
    RevertedRows(env, files, target, k);
    var rows := Reverted(s.ledger, target);
    DownFaults(env, rows);
    if DownFault(env, rows).None? {
      DownsUndo(env, base, files, same, CountUpTo(files, target, k), k, s.db);
    }
  }

  /** What the application writes in a run leaves the database the same. */
  ghost predicate LegalWrites<Db>(env: Env<Db>, files: seq<File>, s: Store<Db>, ops: seq<Op<Db>>, same: Sameness<Db>) {
    ops == []
    || (LegalWrites(env, files, s, ops[..|ops| - 1], same)
        && (ops[|ops| - 1].Write? ==> same(Run(env, files, s, ops[..|ops| - 1]).db, ops[|ops| - 1].db)))
  }

  /** After any applies, crashes between migrations, re-applies, rollbacks and writes of the application, the ledger is
      that of the first so many files and the database counts as their up scripts folded in order. */
  lemma {:induction false} EveryRunConsistent<Db(!new)>(env: Env<Db>, base: Db, files: seq<File>, same: Sameness<Db>, ops: seq<Op<Db>>)
    returns (k: nat)
    requires GoodFiles(files) && Tolerant(env, base, files, same) && LegalWrites(env, files, Store(base, []), ops, same)
    ensures AtVersion(env, base, files, same, Run(env, files, Store(base, []), ops), k)
    decreases |ops|
  {
    if ops == [] {
      k := 0;
    } else {
      k := EveryRunConsistent(env, base, files, same, ops[..|ops| - 1]);
      var s := Run(env, files, Store(base, []), ops[..|ops| - 1]);
      PlanAtVersion(env, files, s.ledger, k);
      match ops[|ops| - 1]
      case ApplyUntil(limit) => k := ApplyAtVersion(env, base, files, same, s, k, limit);
      case RollbackOp(target) =>
        RollbackAtVersion(env, base, files, same, s, k, target);
        if Rollback(env, s, target).Success? { k := CountUpTo(files, target, k); }
      case Write(db) => assert same(Fold(env, base, files, k).value, db);
    }
  }

  // ----- Re-applying after a rollback -----

  lemma ApplyStepAtVersion<Db(!new)>(env: Env<Db>, base: Db, files: seq<File>, same: Sameness<Db>, t: Store<Db>, m: nat, limit: nat)
    returns (n: nat)
    requires GoodFiles(files) && UpsRespect(env, base, files, same) && AtVersion(env, base, files, same, t, m)
    ensures Stops(env, base, files, m, limit, n)
    ensures AtVersion(env, base, files, same, Step(env, files, t, ApplyUntil(limit)), n)
  {
    PlanAtVersion(env, files, t.ledger, m);
    n := ApplyAtVersion(env, base, files, same, t, m, limit);
  }

  lemma RevertedCount<Db>(env: Env<Db>, files: seq<File>, ledger: seq<Row>, k: nat, target: int)
    requires Ascending(files) && LedgerAt(env, files, ledger, k)
    ensures |Reverted(ledger, target)| == k - CountUpTo(files, target, k)
  {
    RevertedRows(env, files, target, k);
    NewestLength(env, files, CountUpTo(files, target, k), k);
  }

  /** Two applies that pass the state of `k` files, one starting before it, stop at the same file. */
  lemma SameStop<Db>(env: Env<Db>, base: Db, files: seq<File>, m: nat, k: nat, n: nat, o: nat)
    requires m <= k && Fold(env, base, files, if k <= |files| then k else 0).Some?
    requires Stops(env, base, files, m, |files|, n) && Stops(env, base, files, k, |files|, o)
    ensures n == o
  {
    if n < o { FoldFails(env, base, files, n + 1); }
    if o < n { FoldFails(env, base, files, o + 1); }
  }

  /** Two states that count as one another. */
  ghost predicate Alike<Db>(same: Sameness<Db>, s: Store<Db>, t: Store<Db>) {
    s.ledger == t.ledger && same(s.db, t.db)
  }

  lemma AlikeAtVersion<Db(!new)>(env: Env<Db>, base: Db, files: seq<File>, same: Sameness<Db>, s: Store<Db>, t: Store<Db>, k: nat)
    requires Equivalence(same) && AtVersion(env, base, files, same, s, k) && AtVersion(env, base, files, same, t, k)
    ensures Alike(same, s, t)
  {
    var fold := Fold(env, base, files, k).value;
    assert same(fold, s.db) && same(fold, t.db) && same(s.db, fold);
  }

  /** A rollback loses nothing that counts: re-applying what it reverted restores the state it started from, and applying
      everything ends as it would have without the rollback, also when a later script fails. */
  lemma ApplyAfterRollbackRestores<Db(!new)>(env: Env<Db>, base: Db, files: seq<File>, same: Sameness<Db>, ops: seq<Op<Db>>, target: int)
    requires GoodFiles(files) && Tolerant(env, base, files, same) && LegalWrites(env, files, Store(base, []), ops, same)
    ensures var s := Run(env, files, Store(base, []), ops);
            Rollback(env, s, target).Success? ==>
              && Alike(same, s, Step(env, files, Rollback(env, s, target).value, ApplyUntil(|Reverted(s.ledger, target)|)))
              && Alike(same, Step(env, files, s, ApplyUntil(|files|)),
                       Step(env, files, Rollback(env, s, target).value, ApplyUntil(|files|)))
  {
    var k := EveryRunConsistent(env, base, files, same, ops);
    var s := Run(env, files, Store(base, []), ops);
    if Rollback(env, s, target).Success? {
      var t, m := Rollback(env, s, target).value, CountUpTo(files, target, k);
      RollbackAtVersion(env, base, files, same, s, k, target);
      RevertedCount(env, files, s.ledger, k, target);
      ReapplySome(env, base, files, same, t, s, m, k);
      ReapplyAll(env, base, files, same, t, s, m, k);
    }
  }

  lemma ReapplySome<Db(!new)>(env: Env<Db>, base: Db, files: seq<File>, same: Sameness<Db>, t: Store<Db>, s: Store<Db>, m: nat, k: nat)
    requires GoodFiles(files) && Tolerant(env, base, files, same) && m <= k
    requires AtVersion(env, base, files, same, t, m) && AtVersion(env, base, files, same, s, k)
    ensures Alike(same, s, Step(env, files, t, ApplyUntil(k - m)))
  {
    var n := ApplyStepAtVersion(env, base, files, same, t, m, k - m);
    if n < k { FoldFails(env, base, files, n + 1); }
    AlikeAtVersion(env, base, files, same, s, Step(env, files, t, ApplyUntil(k - m)), k);
  }

  lemma ReapplyAll<Db(!new)>(env: Env<Db>, base: Db, files: seq<File>, same: Sameness<Db>, t: Store<Db>, s: Store<Db>, m: nat, k: nat)
    requires GoodFiles(files) && Tolerant(env, base, files, same) && m <= k
    requires AtVersion(env, base, files, same, t, m) && AtVersion(env, base, files, same, s, k)
    ensures Alike(same, Step(env, files, s, ApplyUntil(|files|)), Step(env, files, t, ApplyUntil(|files|)))
  {
    var n := ApplyStepAtVersion(env, base, files, same, t, m, |files|);
    var o := ApplyStepAtVersion(env, base, files, same, s, k, |files|);
    SameStop(env, base, files, m, k, n, o);
    AlikeAtVersion(env, base, files, same, Step(env, files, s, ApplyUntil(|files|)), Step(env, files, t, ApplyUntil(|files|)), n);
  }

  // ----- Down scripts that undo their up scripts exactly -----

  ghost function Equal<Db>(): Sameness<Db> {
    (a, b) => a == b
  }

  /** Each available down script undoes its up script. */
  ghost predicate DownsInvert<Db(!new)>(env: Env<Db>, files: seq<File>) {
    forall i, db | 0 <= i < |files| && HasDown(env, files[i]) && env.run(files[i].sql, db).Some? ::
      Down(env, files[i], env.run(files[i].sql, db).value) == Some(db)
  }

  /** For those the database is exactly the fold: equality is tolerant of them. */
  lemma ExactCase<Db(!new)>(env: Env<Db>, base: Db, files: seq<File>)
    requires DownsInvert(env, files)
    ensures Tolerant(env, base, files, Equal()) && DownsRun(env, base, files, Equal())
  {
    forall k: nat, db | 0 < k <= |files| && HasDown(env, files[k - 1]) && Near(env, base, files, Equal(), k, db)
      ensures Down(env, files[k - 1], db).Some? && Near(env, base, files, Equal(), k - 1, Down(env, files[k - 1], db).value)
    {
      assert Fold(env, base, files, k) == env.run(files[k - 1].sql, Fold(env, base, files, k - 1).value);
    }
  }

  // ----- A down script that leaves its table behind -----

  /** What the newest migration touches: whether its table exists, and whether it holds the contract row. */
  datatype Contract = Contract(table: bool, row: bool)

  const UP_8 := "create table if not exists; insert or ignore"
  const DOWN_8 := "delete row"
  const FILES_8 := [File(8, "p8_schema_compatibility", UP_8)]

  /** The up script makes table and row if they are missing; the down script removes the row and keeps the table. */
  function Env8(): Env<Contract> {
    Env((sql, db: Contract) => if sql == UP_8 then Some(Contract(true, true)) else if db.table then Some(db.(row := false)) else None,
        sql => |sql|, sql => true, map[(8, "p8_schema_compatibility") := DOWN_8])
  }

  const SameRow: Sameness<Contract> := (a: Contract, b: Contract) => a.row == b.row

  /** That script does not undo its up script, but the theorems above hold of it when an empty table does not count. */
  lemma KeptTable()
    ensures !DownsInvert(Env8(), FILES_8)
    ensures Tolerant(Env8(), Contract(false, false), FILES_8, SameRow)
  {
    var env, base := Env8(), Contract(false, false);
    assert HasDown(env, FILES_8[0]) && env.run(FILES_8[0].sql, base) == Some(Contract(true, true));
    assert Down(env, FILES_8[0], Contract(true, true)) == Some(Contract(true, false));
    assert Fold(env, base, FILES_8, 0) == Some(base) && Fold(env, base, FILES_8, 1) == Some(Contract(true, true));
  }

  /** A file of version zero can never be applied: with nothing applied the current version counts as zero, so the
      file is refused as behind it, and every plan fails; only the application changes the database. */
  lemma VersionZeroBlocks<Db>(env: Env<Db>, files: seq<File>, base: Db, ops: seq<Op<Db>>)
    requires exists f | f in files :: f.version == 0
    ensures Run(env, files, Store(base, []), ops).ledger == []
    ensures (forall op | op in ops :: !op.Write?) ==> Run(env, files, Store(base, []), ops) == Store(base, [])
    decreases |ops|
  {
    if ops != [] {
      VersionZeroBlocks(env, files, base, ops[..|ops| - 1]);
      assert ops[|ops| - 1] in ops;
      assert !NothingBehind(files, []) by {
        var f :| f in files && f.version == 0;
        var i :| 0 <= i < |files| && files[i] == f;
        assert files[i].version <= Current([]);
      }
    }
  }
}
