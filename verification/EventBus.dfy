/** Loss-tolerant fan-out (`EventBus` in app/engine/event_bus.py).

    The bus lock is never held across a suspension, so every call is one atomic step. Pattern matching is a parameter. */
module EventBus {
  import opened Wrappers

  /** `number` stands for the unique id: the count of events published before. */
  datatype Event = Event(number: nat, topic: string, payload: string)

  /** A subscriber's queue: `registered` while the bus lists it, `reading` while its consumer still iterates. */
  datatype Sub = Sub(pattern: string, queue: seq<Event>, registered: bool, reading: bool)

  datatype Bus = Bus(subs: seq<Sub>, published: nat, closed: bool)

  datatype Error = Closed | BadTopic

  const ALLOWED_ROOTS := {"scan", "tool", "finding", "log", "flow", "brain", "report"}

  /** `topic.split(".", 1)[0]` */
  function TopicRoot(topic: string): string {
    if topic == "" || topic[0] == '.' then "" else [topic[0]] + TopicRoot(topic[1..])
  }

  predicate ValidTopic(topic: string, allowWildcard: bool) {
    && '.' in topic
    && TopicRoot(topic) in ALLOWED_ROOTS
    && (allowWildcard || ('*' !in topic && '?' !in topic && '[' !in topic))
  }

  ghost predicate Under(topic: string, root: string) { root + "." <= topic }

  /** The rule a topic or a pattern must meet, without the split: it lies under one of the seven roots, and a topic to
      publish has no wildcard character. */
  ghost predicate Acceptable(topic: string, allowWildcard: bool) {
    && (exists root | root in {"scan", "tool", "finding", "log", "flow", "brain", "report"} :: Under(topic, root))
    && (allowWildcard || forall i | 0 <= i < |topic| :: topic[i] !in {'*', '?', '['})
  }

  lemma {:induction false} RootIsUnder(topic: string, root: string)
    requires '.' !in root
    ensures '.' in topic && TopicRoot(topic) == root <==> Under(topic, root)
  {
    assert (root + ".")[0] == if root == "" then '.' else root[0];
    if topic != "" && topic[0] != '.' && root != "" {
      RootIsUnder(topic[1..], root[1..]);
      assert topic == [topic[0]] + topic[1..];
      assert root == [root[0]] + root[1..];
      assert root + "." == [root[0]] + (root[1..] + ".");
      if Under(topic, root) {
        assert topic[1..][..|root|] == topic[..|root| + 1][1..];
        assert (root + ".")[1..] == root[1..] + ".";
        assert Under(topic[1..], root[1..]);
      }
    }
  }

  lemma TopicRule(topic: string, allowWildcard: bool)
    ensures ValidTopic(topic, allowWildcard) <==> Acceptable(topic, allowWildcard)
  {
    forall root | root in ALLOWED_ROOTS ensures '.' in topic && TopicRoot(topic) == root <==> Under(topic, root) {
      RootIsUnder(topic, root);
    }
  }

  /** `_put_loss_tolerant` on a queue of at most `size` events. */
  function Put(queue: seq<Event>, size: nat, e: Event): seq<Event>
    requires size >= 1
  {
    if |queue| < size then queue + [e] else queue[1..] + [e]
  }

  predicate Receives(sub: Sub, matches: (string, string) -> bool, topic: string) {
    sub.registered && matches(topic, sub.pattern)
  }

  function Offer(sub: Sub, matches: (string, string) -> bool, size: nat, e: Event): Sub
    requires size >= 1
  {
    if Receives(sub, matches, e.topic) then sub.(queue := Put(sub.queue, size, e)) else sub
  }

  function Published(bus: Bus, matches: (string, string) -> bool, size: nat, e: Event): Bus
    requires size >= 1
  {
    Bus(seq(|bus.subs|, i requires 0 <= i < |bus.subs| => Offer(bus.subs[i], matches, size, e)), bus.published + 1, bus.closed)
  }

  class EventBus {
    const queueSize: nat
    const matches: (string, string) -> bool
    var subs: seq<Sub>
    var published: nat
    var closed: bool

    ghost predicate Valid()
      reads this
    {
      queueSize >= 1
    }

    function State(): Bus
      reads this
    {
      Bus(subs, published, closed)
    }

    constructor (queueSize: nat, matches: (string, string) -> bool)
      requires queueSize >= 1
      ensures Valid() && this.queueSize == queueSize && this.matches == matches
      ensures State() == Bus([], 0, false)
    {
      this.queueSize, this.matches := queueSize, matches;
      subs, published, closed := [], 0, false;
    }

    /** `publish`: every matching registered queue gets the event, no other queue changes. */
    method Publish(topic: string, payload: string) returns (r: Result<Event, Error>)
      requires Valid()
      modifies this
      ensures Valid()
      ensures r.Success? <==> !old(closed) && ValidTopic(topic, false)
      ensures r.Success? ==> r.value == Event(old(published), topic, payload)
                             && State() == Published(old(State()), matches, queueSize, r.value)
      ensures r.Failure? ==> State() == old(State()) && (r.error.Closed? <==> old(closed))
    {
      if closed { return Failure(Closed); }
      if !ValidTopic(topic, false) { return Failure(BadTopic); }
      var e := Event(published, topic, payload);
      published := published + 1;
      for i := 0 to |subs|
        invariant |subs| == old(|subs|) && published == old(published) + 1 && closed == old(closed)
        invariant forall j | 0 <= j < i :: subs[j] == Offer(old(subs)[j], matches, queueSize, e)
        invariant forall j | i <= j < |subs| :: subs[j] == old(subs)[j]
      {
        if subs[i].registered && matches(topic, subs[i].pattern) {
          var queue := subs[i].queue;
          if |queue| >= queueSize { queue := queue[1..]; }
          subs := subs[i := subs[i].(queue := queue + [e])];
        }
      }
      return Success(e);
    }

    /** The registration done by `subscribe`. */
    method Subscribe(pattern: string) returns (r: Result<nat, Error>)
      requires Valid()
      modifies this`subs
      ensures r.Success? <==> !closed && ValidTopic(pattern, true)
      ensures r.Success? ==> r.value == old(|subs|) && subs == old(subs) + [Sub(pattern, [], true, true)]
      ensures r.Failure? ==> subs == old(subs) && (r.error.Closed? <==> closed)
    {
      if closed { return Failure(Closed); }
      if !ValidTopic(pattern, true) { return Failure(BadTopic); }
      subs := subs + [Sub(pattern, [], true, true)];
      return Success(|subs| - 1);
    }

    /** One `queue.get()` of a consumer; None when it would wait. */
    method Take(id: nat) returns (e: Option<Event>)
      requires id < |subs| && subs[id].reading
      modifies this`subs
      ensures e.None? <==> old(subs)[id].queue == []
      ensures e.None? ==> subs == old(subs)
      ensures e.Some? ==> subs == old(subs)[id := old(subs)[id].(queue := old(subs)[id].queue[1..])]
                          && e.value == old(subs)[id].queue[0]
    {
      if subs[id].queue == [] { return None; }
      e := Some(subs[id].queue[0]);
      subs := subs[id := subs[id].(queue := subs[id].queue[1..])];
    }

    /** The `finally` of `subscribe`. */
    method Unsubscribe(id: nat)
      requires id < |subs|
      modifies this`subs
      ensures subs == old(subs)[id := old(subs)[id].(registered := false, reading := false)]
    {
      subs := subs[id := subs[id].(registered := false, reading := false)];
    }

    /** `close`: no queue is listed any more, but what is queued can still be taken. */
    method Close()
      requires Valid()
      modifies this
      ensures Valid() && closed && published == old(published) && |subs| == old(|subs|)
      ensures forall i | 0 <= i < |subs| :: subs[i] == old(subs)[i].(registered := false)
    {
      closed := true;
      subs := seq(|subs|, i requires 0 <= i < |subs| reads this => subs[i].(registered := false));
    }
  }

  // ----- Runs, with each subscriber's history -----

  /** A subscriber and its history: the matching events published while it was registered, the ones it took and their
      positions among those, and how many were dropped from its full queue. */
  datatype View = View(sub: Sub, offered: seq<Event>, received: seq<Event>, positions: seq<nat>, dropped: nat)

  datatype State = State(views: seq<View>, published: nat, closed: bool)

  datatype Step =
    | Publish(topic: string, payload: string)
    | Subscribe(pattern: string)
    | Take(id: nat)
    | Unsubscribe(id: nat)
    | Close

  const START := State([], 0, false)

  function Erased(s: State): Bus {
    Bus(seq(|s.views|, i requires 0 <= i < |s.views| => s.views[i].sub), s.published, s.closed)
  }

  predicate Enabled(s: State, step: Step) {
    match step
    case Take(id) => id < |s.views| && s.views[id].sub.reading && s.views[id].sub.queue != []
    case Unsubscribe(id) => id < |s.views|
    case Publish(topic, _) => !s.closed && ValidTopic(topic, false)
    case Subscribe(pattern) => !s.closed && ValidTopic(pattern, true)
    case Close => true
  }

  function OfferView(v: View, matches: (string, string) -> bool, size: nat, e: Event): View
    requires size >= 1
  {
    if !Receives(v.sub, matches, e.topic) then v
    else v.(sub := Offer(v.sub, matches, size, e), offered := v.offered + [e],
            dropped := if |v.sub.queue| < size then v.dropped else v.dropped + 1)
  }

  function TakeView(v: View): View
    requires v.sub.queue != []
  {
    v.(sub := v.sub.(queue := v.sub.queue[1..]), received := v.received + [v.sub.queue[0]],
       positions := v.positions + [|v.received| + v.dropped])
  }

  function Next(s: State, matches: (string, string) -> bool, size: nat, step: Step): State
    requires size >= 1 && Enabled(s, step)
  {
    match step
    case Publish(topic, payload) =>
      var e := Event(s.published, topic, payload);
      s.(views := seq(|s.views|, i requires 0 <= i < |s.views| => OfferView(s.views[i], matches, size, e)),
         published := s.published + 1)
    case Subscribe(pattern) => s.(views := s.views + [View(Sub(pattern, [], true, true), [], [], [], 0)])
    case Take(id) => s.(views := s.views[id := TakeView(s.views[id])])
    case Unsubscribe(id) =>
      s.(views := s.views[id := s.views[id].(sub := s.views[id].sub.(registered := false, reading := false))])
    case Close =>
      s.(views := seq(|s.views|, i requires 0 <= i < |s.views| => s.views[i].(sub := s.views[i].sub.(registered := false))),
         closed := true)
  }

  /** What a step does to one listed subscriber: a matching publish offers it the event, its own take moves its oldest
      queued event to those it took, and no other step touches its history. */
  ghost predicate Told(v: View, w: View, i: nat, matches: (string, string) -> bool, e: Event, step: Step) {
    match step
    case Publish(topic, _) =>
      if v.sub.registered && matches(topic, v.sub.pattern)
      then w.offered == v.offered + [e] && w.received == v.received && w.sub == v.sub.(queue := w.sub.queue)
      else w == v
    case Take(id) =>
      if i == id
      then v.sub.queue != [] && w.sub == v.sub.(queue := v.sub.queue[1..])
           && w.received == v.received + [v.sub.queue[0]] && w.offered == v.offered && w.dropped == v.dropped
      else w == v
    case Subscribe(_) => w == v
    case Unsubscribe(id) => w == if i == id then v.(sub := v.sub.(registered := false, reading := false)) else v
    case Close => w == v.(sub := v.sub.(registered := false))
  }

  /** Every step is one call of the bus that succeeds, with the histories kept beside it. */
  lemma StepTold(s: State, matches: (string, string) -> bool, size: nat, step: Step)
    requires size >= 1
    ensures Enabled(s, step)
            <==> match step
                 case Publish(topic, _) => !s.closed && Acceptable(topic, false)
                 case Subscribe(pattern) => !s.closed && Acceptable(pattern, true)
                 case Take(id) => id < |s.views| && s.views[id].sub.reading && s.views[id].sub.queue != []
                 case Unsubscribe(id) => id < |s.views|
                 case Close => true
    ensures Enabled(s, step) ==>
              var t := Next(s, matches, size, step);
              && |t.views| == |s.views| + (if step.Subscribe? then 1 else 0)
              && (step.Subscribe? ==> t.views[|s.views|] == View(Sub(step.pattern, [], true, true), [], [], [], 0))
              && t.published == s.published + (if step.Publish? then 1 else 0)
              && t.closed == (s.closed || step.Close?)
              && forall i | 0 <= i < |s.views| ::
                   Told(s.views[i], t.views[i], i, matches, Event(s.published, if step.Publish? then step.topic else "",
                                                                  if step.Publish? then step.payload else ""), step)
  {
    if step.Publish? { TopicRule(step.topic, false); }
    if step.Subscribe? { TopicRule(step.pattern, true); }
  }

  /** Without the histories, a publishing step is what the bus does. */
  lemma PublishRefines(s: State, matches: (string, string) -> bool, size: nat, topic: string, payload: string)
    requires size >= 1 && Enabled(s, Publish(topic, payload))
    ensures Erased(Next(s, matches, size, Publish(topic, payload)))
            == Published(Erased(s), matches, size, Event(s.published, topic, payload))
  {
    var e := Event(s.published, topic, payload);
    var left := Erased(Next(s, matches, size, Publish(topic, payload)));
    var right := Published(Erased(s), matches, size, e);
    forall i | 0 <= i < |s.views| ensures left.subs[i] == right.subs[i] {}
    assert left.subs == right.subs;
  }

  ghost predicate Increasing(p: seq<nat>) {
    forall i, j | 0 <= i < j < |p| :: p[i] < p[j]
  }

  ghost predicate InOrder(events: seq<Event>, bound: nat) {
    && (forall i, j | 0 <= i < j < |events| :: events[i].number < events[j].number)
    && (forall i | 0 <= i < |events| :: events[i].number < bound)
  }

  /** What has left a queue: taken or dropped. */
  function Gone(v: View): nat { |v.received| + v.dropped }

  /** A queue is the newest block of its offered events; what was taken is theirs, in order; a lost event has a full
      queue's worth of newer ones. */
  ghost predicate ViewInv(v: View, size: nat, published: nat) {
    && Gone(v) <= |v.offered|
    && v.sub.queue == v.offered[Gone(v)..]
    && |v.sub.queue| <= size
    && InOrder(v.offered, published)
    && TakenInv(v)
    && (forall i | 0 <= i < Gone(v) && i !in v.positions :: i + size < |v.offered|)
  }

  ghost predicate TakenInv(v: View) {
    && |v.positions| == |v.received|
    && Increasing(v.positions)
    && (forall k | 0 <= k < |v.positions| ::
          v.positions[k] < Gone(v) && v.positions[k] < |v.offered| && v.received[k] == v.offered[v.positions[k]])
  }

  ghost predicate Inv(s: State, size: nat) {
    forall i | 0 <= i < |s.views| :: ViewInv(s.views[i], size, s.published)
  }

  lemma OfferKeeps(v: View, matches: (string, string) -> bool, size: nat, e: Event)
    requires size >= 1 && ViewInv(v, size, e.number)
    ensures ViewInv(OfferView(v, matches, size, e), size, e.number + 1)
  {
    var w := OfferView(v, matches, size, e);
    if Receives(v.sub, matches, e.topic) {
      OfferKeepsOrder(v.offered, e);
      OfferKeepsTaken(v, w, e);
      if |v.sub.queue| < size {
        assert w.offered[Gone(w)..] == v.offered[Gone(v)..] + [e];
      } else {
        assert w.offered[Gone(w)..] == v.offered[Gone(v)..][1..] + [e];
      }
    }
  }

  lemma OfferKeepsOrder(offered: seq<Event>, e: Event)
    requires InOrder(offered, e.number)
    ensures InOrder(offered + [e], e.number + 1)
  {
  }

  lemma OfferKeepsTaken(v: View, w: View, e: Event)
    requires TakenInv(v) && w.positions == v.positions && w.received == v.received && w.dropped >= v.dropped
    requires w.offered == v.offered + [e]
    ensures TakenInv(w)
  {
  }

  lemma TakeKeeps(v: View, size: nat, published: nat)
    requires ViewInv(v, size, published) && v.sub.queue != []
    ensures ViewInv(TakeView(v), size, published)
  {
    var w := TakeView(v);
    assert w.positions == v.positions + [Gone(v)];
    assert w.offered[Gone(w)..] == v.offered[Gone(v)..][1..];
    forall i | 0 <= i < Gone(w) && i !in w.positions ensures i + size < |w.offered| {
      assert i != Gone(v) && i !in v.positions;
    }
  }

  lemma StepInv(s: State, matches: (string, string) -> bool, size: nat, step: Step)
    requires size >= 1 && Enabled(s, step) && Inv(s, size)
    ensures Inv(Next(s, matches, size, step), size)
  {
    var t := Next(s, matches, size, step);
    forall i | 0 <= i < |t.views| ensures ViewInv(t.views[i], size, t.published) {
      match step
      case Publish(topic, payload) => OfferKeeps(s.views[i], matches, size, Event(s.published, topic, payload));
      case Take(id) => if i == id { TakeKeeps(s.views[i], size, s.published); }
      case _ =>
    }
  }

  ghost predicate ValidRun(steps: seq<Step>, matches: (string, string) -> bool, size: nat)
    requires size >= 1
    decreases |steps|, 0
  {
    steps == [] || (ValidRun(steps[..|steps| - 1], matches, size)
                    && Enabled(After(steps[..|steps| - 1], matches, size), steps[|steps| - 1]))
  }

  ghost function After(steps: seq<Step>, matches: (string, string) -> bool, size: nat): State
    requires size >= 1 && ValidRun(steps, matches, size)
    decreases |steps|, 1
  {
    if steps == [] then START else Next(After(steps[..|steps| - 1], matches, size), matches, size, steps[|steps| - 1])
  }

  /** Any step that can happen continues a run. */
  lemma Extend(steps: seq<Step>, matches: (string, string) -> bool, size: nat, step: Step)
    requires size >= 1 && ValidRun(steps, matches, size) && Enabled(After(steps, matches, size), step)
    ensures ValidRun(steps + [step], matches, size)
    ensures After(steps + [step], matches, size) == Next(After(steps, matches, size), matches, size, step)
  {
    assert (steps + [step])[..|steps|] == steps;
  }

  /** After any interleaving of publishes, subscriptions, takes and closing, for every subscriber: its queue is the
      newest contiguous block of the matching events, what it took is in publish order without repeats, and an event
      it lost is followed by a full queue of newer matching events. */
  lemma {:induction false} LossTolerantDelivery(steps: seq<Step>, matches: (string, string) -> bool, size: nat)
    requires size >= 1 && ValidRun(steps, matches, size)
    ensures Inv(After(steps, matches, size), size)
    ensures forall i | 0 <= i < |After(steps, matches, size).views| ::
              InOrder(After(steps, matches, size).views[i].received, After(steps, matches, size).published)
  {
    if steps != [] {
      LossTolerantDelivery(steps[..|steps| - 1], matches, size);
      StepInv(After(steps[..|steps| - 1], matches, size), matches, size, steps[|steps| - 1]);
    }
    var s := After(steps, matches, size);
    forall i | 0 <= i < |s.views| ensures InOrder(s.views[i].received, s.published) {
      ReceivedInOrder(s.views[i], size, s.published);
    }
  }

  lemma ReceivedInOrder(v: View, size: nat, published: nat)
    requires ViewInv(v, size, published)
    ensures InOrder(v.received, published)
  {
    forall i, j | 0 <= i < j < |v.received| ensures v.received[i].number < v.received[j].number {
      assert v.positions[i] < v.positions[j];
    }
  }

  /** An event leaves a queue untaken only when it was the oldest of a full queue and a newer matching event came. */
  lemma DropsOnlyWhenFull(v: View, matches: (string, string) -> bool, size: nat, e: Event)
    requires size >= 1 && ViewInv(v, size, e.number)
    ensures var w := OfferView(v, matches, size, e);
            && (w.dropped > v.dropped <==> Receives(v.sub, matches, e.topic) && |v.sub.queue| == size)
            && (w.dropped > v.dropped ==> v.offered[Gone(v)] == v.sub.queue[0] && |w.offered| == Gone(v) + size + 1)
            && (forall k | 0 <= k < |v.sub.queue| && (k > 0 || w.dropped == v.dropped) :: v.sub.queue[k] in w.sub.queue)
  {
    var w := OfferView(v, matches, size, e);
    forall k | 0 <= k < |v.sub.queue| && (k > 0 || w.dropped == v.dropped) ensures v.sub.queue[k] in w.sub.queue {
      assert v.sub.queue[k] == w.sub.queue[if w.dropped == v.dropped then k else k - 1];
    }
  }

  /** A subscriber whose queue never overflowed has taken or still holds every event offered to it, in order. */
  lemma KeptUpMissesNothing(v: View, size: nat, published: nat)
    requires ViewInv(v, size, published)
    ensures v.dropped == 0 ==> v.received + v.sub.queue == v.offered
    ensures |v.offered| <= size ==> v.dropped == 0
  {
    if v.dropped == 0 {
      forall k | 0 <= k < |v.positions| ensures v.positions[k] == k { DensePositions(v.positions, k); }
    }
    if |v.offered| <= size && v.dropped > 0 {
      assert forall i | 0 <= i < Gone(v) :: i in v.positions;
      FillsUp(v.positions, Gone(v), |v.positions|);
    }
  }

  /** An increasing sequence that holds every number below n has k at position k. */
  lemma {:induction false} FillsUp(p: seq<nat>, n: nat, k: nat)
    requires Increasing(p) && (forall i | 0 <= i < n :: i in p) && k < n
    ensures k < |p| && p[k] == k
  {
    if k > 0 { FillsUp(p, n, k - 1); }
    assert k in p;
    var j :| 0 <= j < |p| && p[j] == k;
    AtLeastIndex(p, j);
  }

  lemma {:induction false} AtLeastIndex(p: seq<nat>, k: nat)
    requires Increasing(p) && k < |p|
    ensures p[k] >= k
  {
    if k > 0 { AtLeastIndex(p, k - 1); }
  }

  lemma {:induction false} DensePositions(p: seq<nat>, k: nat)
    requires Increasing(p) && k < |p| && forall i | 0 <= i < |p| :: p[i] < |p|
    ensures p[k] == k
    decreases |p| - k
  {
    AtLeastIndex(p, k);
    if k + 1 < |p| { DensePositions(p, k + 1); }
  }
}
