/** The report submission lifecycle under concurrent callers (`ReportSubmissionTracker` in app/submissions.py).

    A call is cut at its transaction boundaries: `create` inserts, audits and records; `transition` reads,
    audits and commits.  Calls of any number of threads interleave, as do other users of the audit log. */
module ReportLifecycle {
  import opened Wrappers
  import opened Text
  import opened AuditLog

  datatype Status = Draft | Queued | Submitted | Acknowledged | Closed

  function NextStatus(s: Status): Option<Status> {
    match s
    case Draft => Some(Queued)
    case Queued => Some(Submitted)
    case Submitted => Some(Acknowledged)
    case Acknowledged => Some(Closed)
    case Closed => None
  }

  function Rank(s: Status): nat {
    match s case Draft => 0 case Queued => 1 case Submitted => 2 case Acknowledged => 3 case Closed => 4
  }

  /** The lifecycle in order. */
  function StageAt(i: nat): Status {
    if i == 0 then Draft else if i == 1 then Queued else if i == 2 then Submitted
    else if i == 3 then Acknowledged else Closed
  }

  type Id = nat

  datatype AuditData =
    | Transition(id: Id, platform: string, report: string, from: Option<Status>, to: Status)
    | Unrelated(text: string)

  type Lines = seq<Line<AuditData>>

  datatype Row = Row(platform: string, report: string, status: Status, externalId: Option<string>, externalUrl: Option<string>)

  datatype Event = Event(id: Id, from: Option<Status>, to: Status, auditHash: Hash)

  /** Where a thread is inside its call. `since` is the number of event rows when a transition read its submission. */
  datatype Call =
    | Inserted(id: Id)
    | CreateAudited(id: Id, hash: Hash)
    | HasRead(id: Id, previous: Status, next: Status, since: nat)
    | Audited(id: Id, previous: Status, next: Status, since: nat, hash: Hash)

  type Thread = nat

  datatype State = State(
    rows: map<Id, Row>,
    nextId: Id,
    events: seq<Event>,
    log: Lines,
    created: set<Id>,
    calls: map<Thread, Call>)

  datatype Step =
    | BeginCreate(t: Thread, platform: string, report: string)
    | AuditCreate(t: Thread, time: int)
    | AbandonCreate(t: Thread)              // the audit raised: the row is deleted again
    | RecordCreate(t: Thread)
    | BeginTransition(t: Thread, id: Id, next: Status)
    | AuditTransition(t: Thread, time: int)
    | AbandonTransition(t: Thread)          // the audit raised
    | Commit(t: Thread, externalId: Option<string>, externalUrl: Option<string>)
    | OtherAudit(time: int, event: string, text: string)

  const TOPIC := "p3.submission.transition"

  ghost predicate Enabled(s: State, step: Step) {
    match step
    case BeginCreate(t, _, _) => t !in s.calls
    case AuditCreate(t, _) => t in s.calls && s.calls[t].Inserted? && s.calls[t].id in s.rows
    case AbandonCreate(t) => t in s.calls && s.calls[t].Inserted?
    case RecordCreate(t) => t in s.calls && s.calls[t].CreateAudited?
    case BeginTransition(t, id, next) => t !in s.calls && id in s.created
    case AuditTransition(t, _) => t in s.calls && s.calls[t].HasRead? && s.calls[t].id in s.rows
    case AbandonTransition(t) => t in s.calls && s.calls[t].HasRead?
    case Commit(t, _, _) => t in s.calls && s.calls[t].Audited?
    case OtherAudit(_, event, _) => !Blank(event)
  }

  function LogEntry(h: Digest<AuditData>, s: State, time: int, id: Id, from: Option<Status>,
                    to: Status): Line<AuditData>
    requires id in s.rows
  {
    NewEntry(h, s.log, time, TOPIC, Transition(id, s.rows[id].platform, s.rows[id].report, from, to))
  }

  function Keep(new_: Option<string>, current: Option<string>): Option<string> {
    if new_.Some? then new_ else current
  }

  function Next(h: Digest<AuditData>, s: State, step: Step): State
    requires Enabled(s, step)
  {
    match step
    case BeginCreate(t, platform, report) =>
      s.(rows := s.rows[s.nextId := Row(platform, report, Draft, None, None)],
         nextId := s.nextId + 1, calls := s.calls[t := Inserted(s.nextId)])
    case AuditCreate(t, time) =>
      var entry := LogEntry(h, s, time, s.calls[t].id, None, Draft);
      s.(log := s.log + [entry], calls := s.calls[t := CreateAudited(s.calls[t].id, entry.hash)])
    case AbandonCreate(t) =>
      s.(rows := s.rows - {s.calls[t].id}, calls := s.calls - {t})
    case RecordCreate(t) =>
      s.(events := s.events + [Event(s.calls[t].id, None, Draft, s.calls[t].hash)],
         created := s.created + {s.calls[t].id}, calls := s.calls - {t})
    case BeginTransition(t, id, next) =>
      if id in s.rows && NextStatus(s.rows[id].status) == Some(next)
      then s.(calls := s.calls[t := HasRead(id, s.rows[id].status, next, |s.events|)])
      else s
    case AuditTransition(t, time) =>
      var c := s.calls[t];
      var entry := LogEntry(h, s, time, c.id, Some(c.previous), c.next);
      s.(log := s.log + [entry], calls := s.calls[t := Audited(c.id, c.previous, c.next, c.since, entry.hash)])
    case AbandonTransition(t) => s.(calls := s.calls - {t})
    case Commit(t, externalId, externalUrl) =>
      var c := s.calls[t];
      var done := s.(calls := s.calls - {t});
      if c.id !in s.rows || s.rows[c.id].status != c.previous then done
      else
        var row := s.rows[c.id];
        done.(rows := s.rows[c.id := row.(status := c.next,
                                           externalId := Keep(externalId, row.externalId),
                                           externalUrl := Keep(externalUrl, row.externalUrl))],
              events := s.events + [Event(c.id, Some(c.previous), c.next, c.hash)])
    case OtherAudit(time, event, text) =>
      s.(log := s.log + [NewEntry(h, s.log, time, event, Unrelated(text))])
  }

  function Init(): State {
    State(map[], 0, [], [], {}, map[])
  }

  ghost predicate ValidRun(h: Digest<AuditData>, s: State, steps: seq<Step>)
    decreases |steps|
  {
    steps == [] || (Enabled(s, steps[0]) && ValidRun(h, Next(h, s, steps[0]), steps[1..]))
  }

  ghost function After(h: Digest<AuditData>, s: State, steps: seq<Step>): State
    requires ValidRun(h, s, steps)
    decreases |steps|
  {
    if steps == [] then s else After(h, Next(h, s, steps[0]), steps[1..])
  }

  // ----- Histories -----

  /** `history`: the event rows of one submission in insertion order. */
  function History(events: seq<Event>, id: Id): seq<Event> {
    if events == [] then []
    else
      var earlier := History(events[..|events| - 1], id);
      if events[|events| - 1].id == id then earlier + [events[|events| - 1]] else earlier
  }

  lemma HistoryAppended(events: seq<Event>, e: Event, id: Id)
    ensures History(events + [e], id) == if e.id == id then History(events, id) + [e] else History(events, id)
  {
    assert (events + [e])[..|events|] == events;
  }

  /** The rows read draft, queued, ... without a gap, up to and including `status`. */
  ghost predicate Spells(history: seq<Event>, status: Status) {
    && |history| == Rank(status) + 1
    && (forall i | 0 <= i < |history| ::
          history[i].to == StageAt(i) && history[i].from == if i == 0 then None else Some(StageAt(i - 1)))
  }

  /** The hash is that of an audit record of exactly this move. */
  ghost predicate Names(log: Lines, hash: Hash, id: Id, from: Option<Status>, to: Status) {
    exists i | 0 <= i < |log| ::
      log[i].Entry? && log[i].hash == hash && log[i].record.data.Transition?
      && log[i].record.data.id == id && log[i].record.data.from == from && log[i].record.data.to == to
  }

  lemma NamesGrows(log: Lines, line: Line<AuditData>, hash: Hash, id: Id, from: Option<Status>, to: Status)
    requires Names(log, hash, id, from, to)
    ensures Names(log + [line], hash, id, from, to)
  {
    var i :| 0 <= i < |log| && log[i].Entry? && log[i].hash == hash && log[i].record.data.Transition?
      && log[i].record.data.id == id && log[i].record.data.from == from && log[i].record.data.to == to;
    assert (log + [line])[i] == log[i];
  }

  // ----- The invariant -----

  ghost predicate RowsGood(s: State) {
    && (forall id | id in s.rows :: id < s.nextId)
    && (forall id | id in s.created :: id in s.rows && Spells(History(s.events, id), s.rows[id].status))
    && (forall id | id !in s.created :: History(s.events, id) == [])
  }

  ghost predicate Creating(call: Call) {
    call.Inserted? || call.CreateAudited?
  }

  ghost predicate CallGood(s: State, call: Call) {
    match call
    case Inserted(id) => id in s.rows && id !in s.created
    case CreateAudited(id, hash) => id in s.rows && id !in s.created && s.rows[id].status == Draft
       && Names(s.log, hash, id, None, Draft)
    case HasRead(id, previous, next, since) =>
      id in s.created && NextStatus(previous) == Some(next) && ReadAt(s.events, id, previous, since)
    case Audited(id, previous, next, since, hash) =>
      id in s.created && NextStatus(previous) == Some(next) && Names(s.log, hash, id, Some(previous), next)
      && ReadAt(s.events, id, previous, since)
  }

  /** After the first `since` event rows the submission stood at this status. */
  ghost predicate ReadAt(events: seq<Event>, id: Id, previous: Status, since: nat) {
    since <= |events| && |History(events[..since], id)| == Rank(previous) + 1
  }

  lemma ReadStays(events: seq<Event>, e: Event, id: Id, previous: Status, since: nat)
    requires ReadAt(events, id, previous, since)
    ensures ReadAt(events + [e], id, previous, since)
  {
    assert (events + [e])[..since] == events[..since];
  }

  /** A call stays as good when an event row is added. */
  lemma CallStays(s: State, t: State, call: Call, e: Event)
    requires CallGood(s, call) && t.events == s.events + [e] && t.log == s.log && s.created <= t.created
    requires Creating(call) ==> call.id in t.rows && call.id !in t.created
    requires call.CreateAudited? ==> t.rows[call.id].status == Draft
    ensures CallGood(t, call)
  {
    match call
    case HasRead(id, previous, next, since) => ReadStays(s.events, e, id, previous, since);
    case Audited(id, previous, next, since, hash) => ReadStays(s.events, e, id, previous, since);
    case _ =>
  }

  ghost predicate CallsGood(s: State) {
    && (forall t | t in s.calls :: CallGood(s, s.calls[t]))
    && (forall t | t in s.calls && s.calls[t].Inserted? ::
          s.calls[t].id in s.rows && s.rows[s.calls[t].id].status == Draft)
    && (forall t, u | t in s.calls && u in s.calls && t != u && Creating(s.calls[t]) && Creating(s.calls[u]) ::
          s.calls[t].id != s.calls[u].id)
  }

  ghost predicate EventsNamed(s: State) {
    forall i | 0 <= i < |s.events| ::
          Names(s.log, s.events[i].auditHash, s.events[i].id, s.events[i].from, s.events[i].to)
  }

  ghost predicate Inv(h: Digest<AuditData>, s: State) {
    RowsGood(s) && CallsGood(s) && EventsNamed(s) && Verifies(h, s.log)
  }

  /** Only the log grows: everything it named it still names. */
  lemma LogGrows(h: Digest<AuditData>, s: State, time: int, event: string, data: AuditData)
    requires Inv(h, s)
    ensures Inv(h, s.(log := s.log + [NewEntry(h, s.log, time, event, data)]))
  {
    var entry := NewEntry(h, s.log, time, event, data);
    var t := s.(log := s.log + [entry]);
    VerifiesAppended(h, s.log, entry);
    forall i | 0 <= i < |s.events|
      ensures Names(t.log, s.events[i].auditHash, s.events[i].id, s.events[i].from, s.events[i].to)
    {
      NamesGrows(s.log, entry, s.events[i].auditHash, s.events[i].id, s.events[i].from, s.events[i].to);
    }
    forall u | u in s.calls ensures CallGood(t, s.calls[u]) {
      assert CallGood(s, s.calls[u]);
      match s.calls[u]
      case CreateAudited(id, hash) => NamesGrows(s.log, entry, hash, id, None, Draft);
      case Audited(id, previous, next, since, hash) => NamesGrows(s.log, entry, hash, id, Some(previous), next);
      case _ =>
    }
  }

  lemma EntryNamed(h: Digest<AuditData>, s: State, time: int, id: Id, from: Option<Status>, to: Status)
    requires id in s.rows
    ensures var entry := LogEntry(h, s, time, id, from, to); Names(s.log + [entry], entry.hash, id, from, to)
  {
    var entry := LogEntry(h, s, time, id, from, to);
    assert (s.log + [entry])[|s.log|] == entry;
  }

  lemma RecordRows(h: Digest<AuditData>, s: State, t: Thread)
    requires RowsGood(s) && Enabled(s, RecordCreate(t)) && CallGood(s, s.calls[t])
    ensures RowsGood(Next(h, s, RecordCreate(t)))
  {
    var c := s.calls[t];
    var e := Event(c.id, None, Draft, c.hash);
    var u := Next(h, s, RecordCreate(t));
    forall id
      ensures History(u.events, id) == if id == c.id then History(s.events, id) + [e] else History(s.events, id)
    {
      HistoryAppended(s.events, e, id);
    }
    assert Spells([] + [e], Draft);
  }

  lemma RecordCalls(h: Digest<AuditData>, s: State, t: Thread)
    requires CallsGood(s) && Enabled(s, RecordCreate(t))
    ensures CallsGood(Next(h, s, RecordCreate(t)))
  {
    var u := Next(h, s, RecordCreate(t));
    forall x | x in u.calls ensures CallGood(u, u.calls[x]) {
      assert CallGood(s, s.calls[x]);
      CallStays(s, u, s.calls[x], u.events[|s.events|]);
    }
  }

  lemma RecordCreateKeeps(h: Digest<AuditData>, s: State, t: Thread)
    requires Inv(h, s) && Enabled(s, RecordCreate(t))
    ensures Inv(h, Next(h, s, RecordCreate(t)))
  {
    assert CallGood(s, s.calls[t]);
    RecordRows(h, s, t);
    RecordCalls(h, s, t);
  }

  lemma RankNext(s: Status)
    ensures StageAt(Rank(s)) == s
    ensures NextStatus(s).Some? ==> Rank(NextStatus(s).value) == Rank(s) + 1
  {
    match s case Draft => case Queued => case Submitted => case Acknowledged => case Closed =>
  }

  lemma SpellsNext(history: seq<Event>, previous: Status, e: Event)
    requires Spells(history, previous) && NextStatus(previous) == Some(e.to) && e.from == Some(previous)
    ensures Spells(history + [e], e.to)
  {
    var longer := history + [e];
    var n := |history|;
    RankNext(previous);
    RankNext(e.to);
    assert longer[n] == e && StageAt(n) == e.to && StageAt(n - 1) == previous;
    assert forall i | 0 <= i < n :: longer[i] == history[i];
  }

  lemma CommitRows(h: Digest<AuditData>, s: State, t: Thread, externalId: Option<string>, externalUrl: Option<string>)
    requires RowsGood(s) && Enabled(s, Commit(t, externalId, externalUrl)) && CallGood(s, s.calls[t])
    ensures RowsGood(Next(h, s, Commit(t, externalId, externalUrl)))
  {
    var c := s.calls[t];
    var e := Event(c.id, Some(c.previous), c.next, c.hash);
    var u := Next(h, s, Commit(t, externalId, externalUrl));
    if u.events != s.events {
      forall id
        ensures History(u.events, id) == if id == c.id then History(s.events, id) + [e] else History(s.events, id)
      {
        HistoryAppended(s.events, e, id);
      }
      SpellsNext(History(s.events, c.id), c.previous, e);
    }
  }

  lemma CommitCalls(h: Digest<AuditData>, s: State, t: Thread, externalId: Option<string>, externalUrl: Option<string>)
    requires CallsGood(s) && Enabled(s, Commit(t, externalId, externalUrl))
    ensures CallsGood(Next(h, s, Commit(t, externalId, externalUrl)))
  {
    assert CallGood(s, s.calls[t]);
    var u := Next(h, s, Commit(t, externalId, externalUrl));
    forall x | x in u.calls ensures CallGood(u, u.calls[x]) {
      assert CallGood(s, s.calls[x]);
      if u.events != s.events { CallStays(s, u, s.calls[x], u.events[|s.events|]); }
    }
  }

  lemma CommitKeeps(h: Digest<AuditData>, s: State, t: Thread, externalId: Option<string>, externalUrl: Option<string>)
    requires Inv(h, s) && Enabled(s, Commit(t, externalId, externalUrl))
    ensures Inv(h, Next(h, s, Commit(t, externalId, externalUrl)))
  {
    var c := s.calls[t];
    assert CallGood(s, c);
    CommitRows(h, s, t, externalId, externalUrl);
    CommitCalls(h, s, t, externalId, externalUrl);
  }

  lemma BeginCreateKeeps(h: Digest<AuditData>, s: State, t: Thread, platform: string, report: string)
    requires Inv(h, s) && Enabled(s, BeginCreate(t, platform, report))
    ensures Inv(h, Next(h, s, BeginCreate(t, platform, report)))
  {
    var u := Next(h, s, BeginCreate(t, platform, report));
    forall x | x in u.calls ensures CallGood(u, u.calls[x]) { assert x in s.calls ==> CallGood(s, s.calls[x]); }
    assert forall x | x in s.calls && Creating(s.calls[x]) :: CallGood(s, s.calls[x]);
  }

  lemma AuditCreateKeeps(h: Digest<AuditData>, s: State, t: Thread, time: int)
    requires Inv(h, s) && Enabled(s, AuditCreate(t, time))
    ensures Inv(h, Next(h, s, AuditCreate(t, time)))
  {
    var c := s.calls[t];
    assert CallGood(s, c);
    var entry := LogEntry(h, s, time, c.id, None, Draft);
    LogGrows(h, s, time, TOPIC, Transition(c.id, s.rows[c.id].platform, s.rows[c.id].report, None, Draft));
    EntryNamed(h, s, time, c.id, None, Draft);
    CallMoves(h, s.(log := s.log + [entry]), t, CreateAudited(c.id, entry.hash));
  }

  /** A thread's record may move on within its call. */
  lemma CallMoves(h: Digest<AuditData>, s: State, t: Thread, call: Call)
    requires Inv(h, s) && t in s.calls && CallGood(s, call)
    requires call.CreateAudited? || call.Audited?
    requires Creating(s.calls[t]) == Creating(call) && s.calls[t].id == call.id
    ensures Inv(h, s.(calls := s.calls[t := call]))
  {
    var u := s.(calls := s.calls[t := call]);
    forall x | x in u.calls ensures CallGood(u, u.calls[x]) { assert CallGood(s, s.calls[x]); }
  }

  lemma AbandonCreateKeeps(h: Digest<AuditData>, s: State, t: Thread)
    requires Inv(h, s) && Enabled(s, AbandonCreate(t))
    ensures Inv(h, Next(h, s, AbandonCreate(t)))
  {
    assert CallGood(s, s.calls[t]);
    var u := Next(h, s, AbandonCreate(t));
    forall x | x in u.calls ensures CallGood(u, u.calls[x]) { assert CallGood(s, s.calls[x]); }
  }

  lemma BeginTransitionKeeps(h: Digest<AuditData>, s: State, t: Thread, id: Id, next: Status)
    requires Inv(h, s) && Enabled(s, BeginTransition(t, id, next))
    ensures Inv(h, Next(h, s, BeginTransition(t, id, next)))
  {
    var u := Next(h, s, BeginTransition(t, id, next));
    assert s.events[..|s.events|] == s.events;
    forall x | x in u.calls ensures CallGood(u, u.calls[x]) { assert x in s.calls ==> CallGood(s, s.calls[x]); }
  }

  lemma AuditTransitionKeeps(h: Digest<AuditData>, s: State, t: Thread, time: int)
    requires Inv(h, s) && Enabled(s, AuditTransition(t, time))
    ensures Inv(h, Next(h, s, AuditTransition(t, time)))
  {
    var c := s.calls[t];
    assert CallGood(s, c);
    var entry := LogEntry(h, s, time, c.id, Some(c.previous), c.next);
    LogGrows(h, s, time, TOPIC, Transition(c.id, s.rows[c.id].platform, s.rows[c.id].report, Some(c.previous), c.next));
    EntryNamed(h, s, time, c.id, Some(c.previous), c.next);
    CallMoves(h, s.(log := s.log + [entry]), t, Audited(c.id, c.previous, c.next, c.since, entry.hash));
  }

  lemma AbandonTransitionKeeps(h: Digest<AuditData>, s: State, t: Thread)
    requires Inv(h, s) && Enabled(s, AbandonTransition(t))
    ensures Inv(h, Next(h, s, AbandonTransition(t)))
  {
    var u := Next(h, s, AbandonTransition(t));
    forall x | x in u.calls ensures CallGood(u, u.calls[x]) { assert CallGood(s, s.calls[x]); }
  }

  lemma StepKeeps(h: Digest<AuditData>, s: State, step: Step)
    requires Inv(h, s) && Enabled(s, step)
    ensures Inv(h, Next(h, s, step))
  {
    match step
    case BeginCreate(t, platform, report) => BeginCreateKeeps(h, s, t, platform, report);
    case AuditCreate(t, time) => AuditCreateKeeps(h, s, t, time);
    case AbandonCreate(t) => AbandonCreateKeeps(h, s, t);
    case RecordCreate(t) => RecordCreateKeeps(h, s, t);
    case BeginTransition(t, id, next) => BeginTransitionKeeps(h, s, t, id, next);
    case AuditTransition(t, time) => AuditTransitionKeeps(h, s, t, time);
    case AbandonTransition(t) => AbandonTransitionKeeps(h, s, t);
    case Commit(t, externalId, externalUrl) => CommitKeeps(h, s, t, externalId, externalUrl);
    case OtherAudit(time, event, text) => LogGrows(h, s, time, event, Unrelated(text));
  }

  lemma {:induction false} RunKeeps(h: Digest<AuditData>, s: State, steps: seq<Step>)
    requires Inv(h, s) && ValidRun(h, s, steps)
    ensures Inv(h, After(h, s, steps))
    decreases |steps|
  {
    if steps != [] {
      StepKeeps(h, s, steps[0]);
      RunKeeps(h, Next(h, s, steps[0]), steps[1..]);
    }
  }

  /** In every interleaving, the history of a created submission spells the stages from draft to its stored
      status, each row's hash is that of an audit record of the same move, and the audit chain verifies. */
  lemma HistorySpellsStatus(h: Digest<AuditData>, steps: seq<Step>, id: Id)
    requires ValidRun(h, Init(), steps) && id in After(h, Init(), steps).created
    ensures var s := After(h, Init(), steps);
            && id in s.rows && Spells(History(s.events, id), s.rows[id].status)
            && (forall e | e in History(s.events, id) :: Names(s.log, e.auditHash, id, e.from, e.to))
            && Verifies(h, s.log)
  {
    RunKeeps(h, Init(), steps);
    var s := After(h, Init(), steps);
    forall e | e in History(s.events, id) ensures Names(s.log, e.auditHash, id, e.from, e.to) {
      HistoryMembers(s.events, id, e);
    }
  }

  lemma {:induction false} HistoryMembers(events: seq<Event>, id: Id, e: Event)
    requires e in History(events, id)
    ensures e in events && e.id == id
    decreases |events|
  {
    var last := events[|events| - 1];
    if e != last || last.id != id { HistoryMembers(events[..|events| - 1], id, e); }
  }

  /** No state is entered twice. */
  lemma NoStateTwice(h: Digest<AuditData>, steps: seq<Step>, id: Id, i: nat, j: nat)
    requires ValidRun(h, Init(), steps) && id in After(h, Init(), steps).created
    requires i < j < |History(After(h, Init(), steps).events, id)|
    ensures History(After(h, Init(), steps).events, id)[i].to != History(After(h, Init(), steps).events, id)[j].to
  {
    HistorySpellsStatus(h, steps, id);
    assert Rank(StageAt(i)) == i && Rank(StageAt(j)) == j;
  }

  /** One step moves a created submission by at most one stage, and never back. */
  lemma StatusMovesForward(h: Digest<AuditData>, s: State, step: Step, id: Id)
    requires Inv(h, s) && Enabled(s, step) && id in s.created
    ensures id in s.rows && id in Next(h, s, step).rows
    ensures Rank(s.rows[id].status) <= Rank(Next(h, s, step).rows[id].status) <= Rank(s.rows[id].status) + 1
  {
    match step
    case AbandonCreate(t) => assert CallGood(s, s.calls[t]);
    case Commit(t, _, _) => assert CallGood(s, s.calls[t]);
    case _ =>
  }

  // ----- Calls that nothing overlaps -----

  lemma ThreeSteps(h: Digest<AuditData>, s: State, first: Step, second: Step, third: Step)
    requires Enabled(s, first) && Enabled(Next(h, s, first), second)
             && Enabled(Next(h, Next(h, s, first), second), third)
    ensures ValidRun(h, s, [first, second, third])
    ensures After(h, s, [first, second, third]) == Next(h, Next(h, Next(h, s, first), second), third)
  {
    var s1 := Next(h, s, first);
    var s2 := Next(h, s1, second);
    var s3 := Next(h, s2, third);
    Extend(h, s2, third, [], s3);
    Extend(h, s1, second, [third], s3);
    Extend(h, s, first, [second, third], s3);
  }

  lemma TwoSteps(h: Digest<AuditData>, s: State, first: Step, second: Step)
    requires Enabled(s, first) && Enabled(Next(h, s, first), second)
    ensures ValidRun(h, s, [first, second]) && After(h, s, [first, second]) == Next(h, Next(h, s, first), second)
  {
    var s2 := Next(h, Next(h, s, first), second);
    Extend(h, Next(h, s, first), second, [], s2);
    Extend(h, s, first, [second], s2);
  }

  /** The log has one more record, with this hash and these data. */
  ghost predicate OneMore(before: Lines, after: Lines, hash: Hash, data: AuditData) {
    && |after| == |before| + 1 && after[..|before|] == before
    && after[|before|].Entry? && after[|before|].hash == hash && after[|before|].record.data == data
  }

  /** A whole `create` leaves a draft under a new id, one audit record and one event row that names it, and touches nothing
      else; when its audit raises, it leaves only a used id. */
  lemma WholeCreate(h: Digest<AuditData>, s: State, t: Thread, platform: string, report: string, time: int)
    requires t !in s.calls && s.nextId !in s.rows
    ensures var steps := [BeginCreate(t, platform, report), AuditCreate(t, time), RecordCreate(t)];
            && ValidRun(h, s, steps)
            && exists hash :: OneMore(s.log, After(h, s, steps).log, hash, Transition(s.nextId, platform, report, None, Draft))
                              && After(h, s, steps)
                                 == State(s.rows[s.nextId := Row(platform, report, Draft, None, None)], s.nextId + 1,
                                          s.events + [Event(s.nextId, None, Draft, hash)], After(h, s, steps).log,
                                          s.created + {s.nextId}, s.calls)
    ensures var steps := [BeginCreate(t, platform, report), AbandonCreate(t)];
            ValidRun(h, s, steps) && After(h, s, steps) == s.(nextId := s.nextId + 1)
  {
    var begin := BeginCreate(t, platform, report);
    var s1 := Next(h, s, begin);
    var entry := LogEntry(h, s1, time, s.nextId, None, Draft);
    ThreeSteps(h, s, begin, AuditCreate(t, time), RecordCreate(t));
    TwoSteps(h, s, begin, AbandonCreate(t));
    assert OneMore(s.log, s.log + [entry], entry.hash, Transition(s.nextId, platform, report, None, Draft));
    assert s1.calls[t := CreateAudited(s.nextId, entry.hash)] - {t} == s.calls;
    assert s1.rows - {s.nextId} == s.rows && s1.calls - {t} == s.calls;
  }

  /** The row after a transition: the next status, and an external id and URL kept where none is given. */
  ghost predicate Moved(row: Row, next: Status, externalId: Option<string>, externalUrl: Option<string>, after: Row) {
    && after.platform == row.platform && after.report == row.report && after.status == next
    && after.externalId == (if externalId.Some? then externalId else row.externalId)
    && after.externalUrl == (if externalUrl.Some? then externalUrl else row.externalUrl)
  }

  /** One row moved, with one audit record and one event row that names it, and nothing else. */
  ghost predicate OneMove(s: State, u: State, id: Id, next: Status, externalId: Option<string>, externalUrl: Option<string>, hash: Hash)
    requires id in s.rows
  {
    var row := s.rows[id];
    && id in u.rows && Moved(row, next, externalId, externalUrl, u.rows[id])
    && OneMore(s.log, u.log, hash, Transition(id, row.platform, row.report, Some(row.status), next))
    && u == s.(rows := s.rows[id := u.rows[id]], log := u.log, events := s.events + [Event(id, Some(row.status), next, hash)])
  }

  /** A whole `transition` of a created submission is refused exactly when the status asked for is not the next stage, and
      then changes nothing. Otherwise it moves the row, and leaves one audit record and one event row that names it. */
  lemma WholeTransition(h: Digest<AuditData>, s: State, t: Thread, id: Id, next: Status, time: int,
                        externalId: Option<string>, externalUrl: Option<string>)
    requires t !in s.calls && id in s.created && id in s.rows
    ensures Rank(next) != Rank(s.rows[id].status) + 1 ==> Next(h, s, BeginTransition(t, id, next)) == s
    ensures Rank(next) == Rank(s.rows[id].status) + 1 ==>
              var steps := [BeginTransition(t, id, next), AuditTransition(t, time), Commit(t, externalId, externalUrl)];
              ValidRun(h, s, steps) && exists hash :: OneMove(s, After(h, s, steps), id, next, externalId, externalUrl, hash)
  {
    var begin, row := BeginTransition(t, id, next), s.rows[id];
    NextIsOneOn(row.status, next);
    if Rank(next) == Rank(row.status) + 1 {
      var s1 := Next(h, s, begin);
      ThreeSteps(h, s, begin, AuditTransition(t, time), Commit(t, externalId, externalUrl));
      Committed(h, s, t, id, next, time, externalId, externalUrl);
    }
  }

  lemma NextIsOneOn(s: Status, next: Status)
    ensures NextStatus(s) == Some(next) <==> Rank(next) == Rank(s) + 1
  {
  }

  lemma Committed(h: Digest<AuditData>, s: State, t: Thread, id: Id, next: Status, time: int,
                  externalId: Option<string>, externalUrl: Option<string>)
    requires t !in s.calls && id in s.created && id in s.rows && NextStatus(s.rows[id].status) == Some(next)
    ensures var s2 := Next(h, Next(h, s, BeginTransition(t, id, next)), AuditTransition(t, time));
            exists hash :: OneMove(s, Next(h, s2, Commit(t, externalId, externalUrl)), id, next, externalId, externalUrl, hash)
  {
    var s1 := Next(h, s, BeginTransition(t, id, next));
    var u := Next(h, Next(h, s1, AuditTransition(t, time)), Commit(t, externalId, externalUrl));
    var row := s.rows[id];
    var entry := LogEntry(h, s1, time, id, Some(row.status), next);
    assert OneMore(s.log, s.log + [entry], entry.hash, Transition(id, row.platform, row.report, Some(row.status), next));
    assert s1.calls[t := Audited(id, row.status, next, |s.events|, entry.hash)] - {t} == s.calls;
    assert OneMove(s, u, id, next, externalId, externalUrl, entry.hash);
  }

  /** When its audit raises, nothing changes either. */
  lemma WholeAbandoned(h: Digest<AuditData>, s: State, t: Thread, id: Id, next: Status)
    requires t !in s.calls && id in s.created && id in s.rows && NextStatus(s.rows[id].status) == Some(next)
    ensures var steps := [BeginTransition(t, id, next), AbandonTransition(t)];
            ValidRun(h, s, steps) && After(h, s, steps) == s
  {
    var begin := BeginTransition(t, id, next);
    TwoSteps(h, s, begin, AbandonTransition(t));
    assert Next(h, s, begin).calls - {t} == s.calls;
  }

  /** No step changes what a created submission is for, or takes back an audit record or an event row; another user of the
      audit log adds its record and nothing else. */
  lemma StepSpares(h: Digest<AuditData>, s: State, step: Step, id: Id)
    requires Inv(h, s) && Enabled(s, step) && id in s.created
    ensures var u := Next(h, s, step);
            && s.log <= u.log && s.events <= u.events && id in u.created
            && id in s.rows && id in u.rows
            && u.rows[id].platform == s.rows[id].platform && u.rows[id].report == s.rows[id].report
            && (u.rows[id] != s.rows[id] ==> step.Commit? && step.t in s.calls && s.calls[step.t].id == id)
            && (step.OtherAudit? ==> u == s.(log := u.log) && exists hash :: OneMore(s.log, u.log, hash, Unrelated(step.text)))
  {
    match step
    case OtherAudit(time, event, text) =>
      var u := Next(h, s, step);
      assert OneMore(s.log, u.log, u.log[|s.log|].hash, Unrelated(text));
    case AbandonCreate(t) => assert CallGood(s, s.calls[t]);
    case Commit(t, _, _) => assert CallGood(s, s.calls[t]);
    case _ =>
  }

  // ----- Audited transitions and their event rows -----

  /** An event row of this submission was added after the first `since` rows. */
  ghost predicate TookEffect(events: seq<Event>, since: nat, id: Id) {
    exists i | since <= i < |events| :: events[i].id == id
  }

  lemma {:induction false} HistoryUnchanged(events: seq<Event>, since: nat, id: Id)
    requires since <= |events|
    ensures |History(events[..since], id)| <= |History(events, id)|
    ensures |History(events[..since], id)| == |History(events, id)| <==> !TookEffect(events, since, id)
    decreases |events|
  {
    if since == |events| {
      assert events[..since] == events;
    } else {
      var n := |events| - 1;
      var before := events[..n];
      HistoryUnchanged(before, since, id);
      assert before[..since] == events[..since];
      assert forall i | since <= i < n :: before[i] == events[i];
    }
  }

  /** What one commit leaves in the row of a submission: the next status, and an external id and URL replaced exactly when
      the call gives one; platform and report never change, and no other row does. */
  lemma CommitWritesRow(h: Digest<AuditData>, s: State, t: Thread, externalId: Option<string>, externalUrl: Option<string>)
    requires Enabled(s, Commit(t, externalId, externalUrl))
    ensures var c := s.calls[t]; var u := Next(h, s, Commit(t, externalId, externalUrl));
            && u.rows.Keys == s.rows.Keys && (forall id | id in s.rows && id != c.id :: u.rows[id] == s.rows[id])
            && (u.events != s.events ==> c.id in s.rows && s.rows[c.id].status == c.previous && u.rows[c.id].status == c.next)
            && (u.events == s.events ==> u.rows == s.rows)
            && (c.id in s.rows ==> u.rows[c.id].platform == s.rows[c.id].platform && u.rows[c.id].report == s.rows[c.id].report)
            && (u.events != s.events && externalId.Some? ==> u.rows[c.id].externalId == externalId)
            && (u.events != s.events && externalId.None? ==> u.rows[c.id].externalId == s.rows[c.id].externalId)
            && (u.events != s.events && externalUrl.Some? ==> u.rows[c.id].externalUrl == externalUrl)
            && (u.events != s.events && externalUrl.None? ==> u.rows[c.id].externalUrl == s.rows[c.id].externalUrl)
  {}

  /** A transition that was audited gets its event row exactly when no other commit of its submission took
      effect between its read and its commit; otherwise it is refused and leaves nothing but the audit record. */
  lemma CommitAddsRow(h: Digest<AuditData>, steps: seq<Step>, t: Thread, externalId: Option<string>, externalUrl: Option<string>)
    requires ValidRun(h, Init(), steps) && Enabled(After(h, Init(), steps), Commit(t, externalId, externalUrl))
    ensures var s := After(h, Init(), steps); var c := s.calls[t];
            var u := Next(h, s, Commit(t, externalId, externalUrl));
            && c.id in s.rows && c.since <= |s.events|
            && Names(s.log, c.hash, c.id, Some(c.previous), c.next)
            && (if TookEffect(s.events, c.since, c.id)
                then u.events == s.events && u.rows == s.rows
                else u.events == s.events + [Event(c.id, Some(c.previous), c.next, c.hash)]
                     && u.rows[c.id].status == c.next)
  {
    RunKeeps(h, Init(), steps);
    var s := After(h, Init(), steps);
    var c := s.calls[t];
    assert CallGood(s, c);
    HistoryUnchanged(s.events, c.since, c.id);
    RankNext(c.previous);
    RankNext(s.rows[c.id].status);
  }

  /** Transitions of this submission never overlap: one begins only when no thread is inside another. */
  ghost predicate AloneOn(h: Digest<AuditData>, s: State, steps: seq<Step>, id: Id)
    requires ValidRun(h, s, steps)
    decreases |steps|
  {
    steps == []
    || ((steps[0].BeginTransition? && steps[0].id == id ==> !Moving(s, id))
        && AloneOn(h, Next(h, s, steps[0]), steps[1..], id))
  }

  ghost predicate Moving(s: State, id: Id) {
    exists t | t in s.calls :: OnIt(s.calls[t], id)
  }

  ghost predicate OnIt(call: Call, id: Id) {
    !Creating(call) && call.id == id
  }

  /** At most one transition of the submission is under way, and nothing took effect since it read. */
  ghost predicate Alone(s: State, id: Id) {
    OneMover(s, id) && NothingSince(s, id)
  }

  ghost predicate OneMover(s: State, id: Id) {
    forall t, u | t in s.calls && u in s.calls && OnIt(s.calls[t], id) && OnIt(s.calls[u], id) :: t == u
  }

  ghost predicate NothingSince(s: State, id: Id) {
    forall t | t in s.calls && OnIt(s.calls[t], id) :: !TookEffect(s.events, s.calls[t].since, id)
  }

  lemma StepKeepsOneMover(h: Digest<AuditData>, s: State, step: Step, id: Id)
    requires Enabled(s, step) && OneMover(s, id)
    requires step.BeginTransition? && step.id == id ==> !Moving(s, id)
    ensures OneMover(Next(h, s, step), id)
  {}

  lemma StepKeepsNothingSince(h: Digest<AuditData>, s: State, step: Step, id: Id)
    requires Enabled(s, step) && Alone(s, id)
    requires forall t | t in s.calls :: CallGood(s, s.calls[t])
    ensures NothingSince(Next(h, s, step), id)
  {
    var u := Next(h, s, step);
    if step.RecordCreate? || step.Commit? { assert CallGood(s, s.calls[step.t]); }
    forall t | t in u.calls && OnIt(u.calls[t], id) ensures !TookEffect(u.events, u.calls[t].since, id) {
      assert t in s.calls ==> CallGood(s, s.calls[t]);
    }
  }

  lemma {:induction false} RunKeepsAlone(h: Digest<AuditData>, s: State, steps: seq<Step>, id: Id)
    requires Inv(h, s) && ValidRun(h, s, steps) && Alone(s, id) && AloneOn(h, s, steps, id)
    ensures Alone(After(h, s, steps), id)
    decreases |steps|
  {
    if steps != [] {
      StepKeepsOneMover(h, s, steps[0], id);
      StepKeepsNothingSince(h, s, steps[0], id);
      StepKeeps(h, s, steps[0]);
      RunKeepsAlone(h, Next(h, s, steps[0]), steps[1..], id);
    }
  }

  /** When transitions of a submission never overlap, every audited one that reaches its commit has its row. */
  lemma AloneAlwaysRecorded(h: Digest<AuditData>, steps: seq<Step>, t: Thread, externalId: Option<string>, externalUrl: Option<string>)
    requires ValidRun(h, Init(), steps) && Enabled(After(h, Init(), steps), Commit(t, externalId, externalUrl))
    requires AloneOn(h, Init(), steps, After(h, Init(), steps).calls[t].id)
    ensures var s := After(h, Init(), steps); var c := s.calls[t];
            Next(h, s, Commit(t, externalId, externalUrl)).events == s.events + [Event(c.id, Some(c.previous), c.next, c.hash)]
  {
    var s := After(h, Init(), steps);
    RunKeepsAlone(h, Init(), steps, s.calls[t].id);
    CommitAddsRow(h, steps, t, externalId, externalUrl);
    assert OnIt(s.calls[t], s.calls[t].id);
  }

  /** A refused transition may still have been audited: of two callers that read the same status both are
      audited, the first commit wins, and the second is refused without an event row. */
  lemma RefusedButAudited(h: Digest<AuditData>, s: State, t: Thread, u: Thread, id: Id, time: int)
    requires Inv(h, s) && t != u && t !in s.calls && u !in s.calls
    requires id in s.created && id in s.rows && s.rows[id].status == Draft
    ensures var steps := [BeginTransition(t, id, Queued), BeginTransition(u, id, Queued), AuditTransition(t, time),
                          AuditTransition(u, time), Commit(t, None, None), Commit(u, None, None)];
            && ValidRun(h, s, steps)
            && |After(h, s, steps).log| == |s.log| + 2 && |After(h, s, steps).events| == |s.events| + 1
            && id in After(h, s, steps).rows && After(h, s, steps).rows[id].status == Queued
  {
    var s1 := Next(h, s, BeginTransition(t, id, Queued));
    var s2 := Next(h, s1, BeginTransition(u, id, Queued));
    var s3 := Next(h, s2, AuditTransition(t, time));
    var s4 := Next(h, s3, AuditTransition(u, time));
    var s5 := Next(h, s4, Commit(t, None, None));
    var s6 := Next(h, s5, Commit(u, None, None));
    var f := Commit(u, None, None);
    Extend(h, s5, f, [], s6);
    Extend(h, s4, Commit(t, None, None), [f], s6);
    Extend(h, s3, AuditTransition(u, time), [Commit(t, None, None), f], s6);
    Extend(h, s2, AuditTransition(t, time), [AuditTransition(u, time), Commit(t, None, None), f], s6);
    Extend(h, s1, BeginTransition(u, id, Queued),
           [AuditTransition(t, time), AuditTransition(u, time), Commit(t, None, None), f], s6);
    Extend(h, s, BeginTransition(t, id, Queued),
           [BeginTransition(u, id, Queued), AuditTransition(t, time), AuditTransition(u, time), Commit(t, None, None), f], s6);
  }

  lemma CreateFirst(h: Digest<AuditData>, t: Thread, platform: string, report: string, time: int, rest: seq<Step>)
    returns (s: State, steps: seq<Step>)
    ensures Inv(h, s) && s.calls == map[] && |s.log| == 1 && |s.events| == 1
    ensures 0 in s.created && 0 in s.rows && s.rows[0].status == Draft
    ensures ValidRun(h, s, rest) ==> ValidRun(h, Init(), steps) && After(h, Init(), steps) == After(h, s, rest)
  {
    var s1 := Next(h, Init(), BeginCreate(t, platform, report));
    var s2 := Next(h, s1, AuditCreate(t, time));
    s := Next(h, s2, RecordCreate(t));
    StepKeeps(h, Init(), BeginCreate(t, platform, report));
    StepKeeps(h, s1, AuditCreate(t, time));
    StepKeeps(h, s2, RecordCreate(t));
    steps := [BeginCreate(t, platform, report)] + ([AuditCreate(t, time)] + ([RecordCreate(t)] + rest));
    if ValidRun(h, s, rest) {
      Extend(h, s2, RecordCreate(t), rest, After(h, s, rest));
      Extend(h, s1, AuditCreate(t, time), [RecordCreate(t)] + rest, After(h, s, rest));
      Extend(h, Init(), BeginCreate(t, platform, report), [AuditCreate(t, time)] + ([RecordCreate(t)] + rest), After(h, s, rest));
    }
  }

  /** That happens from the start: a submission is created, and two callers move it at once. */
  lemma RefusedFromStart(h: Digest<AuditData>, t: Thread, u: Thread, platform: string, report: string, time: int)
    returns (steps: seq<Step>)
    requires t != u
    ensures ValidRun(h, Init(), steps)
    ensures var s := After(h, Init(), steps);
            |s.log| == 3 && |s.events| == 2 && 0 in s.rows && s.rows[0].status == Queued
  {
    var rest := [BeginTransition(t, 0, Queued), BeginTransition(u, 0, Queued), AuditTransition(t, time),
                 AuditTransition(u, time), Commit(t, None, None), Commit(u, None, None)];
    var s;
    s, steps := CreateFirst(h, t, platform, report, time, rest);
    RefusedButAudited(h, s, t, u, 0, time);
  }

  lemma Extend(h: Digest<AuditData>, s: State, step: Step, rest: seq<Step>, end: State)
    requires Enabled(s, step) && ValidRun(h, Next(h, s, step), rest) && After(h, Next(h, s, step), rest) == end
    ensures ValidRun(h, s, [step] + rest) && After(h, s, [step] + rest) == end
  {
    assert ([step] + rest)[1..] == rest;
  }
}
