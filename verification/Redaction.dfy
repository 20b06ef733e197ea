/** Span selection and text rebuild of the evidence redactor (app/evidence/redaction.py).

    The candidate spans are given: the regular expressions that find them are not modelled. */
module Redaction {
  import opened Sorting

  datatype Span = Span(start: int, end: int, rule: string)

  datatype Entry = Entry(rule: string, start: int, end: int, placeholder: string)

  /** The sort key: earlier start, then longer, then rule id. */
  predicate Before(a: Span, b: Span) {
    || a.start < b.start
    || (a.start == b.start && a.end > b.end)
    || (a.start == b.start && a.end == b.end && StringLe(a.rule, b.rule))
  }

  const SpanLe: (Span, Span) -> bool := (a, b) => Before(a, b)

  lemma SpanLeTotalOrder()
    ensures TotalOrder(SpanLe)
  {
    StringLeTotalOrder();
  }

  predicate Nonempty(s: Span) { s.start < s.end }

  /** `occupied_until` once the first `k` spans are taken. */
  function EndBefore(selected: seq<Span>, k: nat): int
    requires k <= |selected|
  {
    if k == 0 then -1 else selected[k - 1].end
  }

  /** `c` can still be taken when positions before `end` are occupied. */
  predicate Open(end: int, c: Span) {
    Nonempty(c) && c.start >= end
  }

  /** The greedy pass over sorted candidates. */
  function Greedy(sorted: seq<Span>): seq<Span> {
    if sorted == [] then []
    else
      var earlier := Greedy(sorted[..|sorted| - 1]);
      var c := sorted[|sorted| - 1];
      if Open(EndBefore(earlier, |earlier|), c) then earlier + [c] else earlier
  }

  function Chosen(candidates: seq<Span>): seq<Span> {
    Greedy(Sort(candidates, SpanLe))
  }

  /** Sorts the candidates and takes each that starts at or after the end of the last one taken. */
  method Select(candidates: seq<Span>) returns (selected: seq<Span>)
    ensures selected == Chosen(candidates)
  {
    var sorted := Sort(candidates, SpanLe);
    selected := [];
    var occupiedUntil := -1;
    for i := 0 to |sorted|
      invariant selected == Greedy(sorted[..i]) && occupiedUntil == EndBefore(selected, |selected|)
    {
      assert sorted[..i + 1][..i] == sorted[..i];
      var c := sorted[i];
      if !(c.start < occupiedUntil || c.end <= c.start) {
        selected := selected + [c];
        occupiedUntil := c.end;
      }
    }
    assert sorted[..|sorted|] == sorted;
  }

  // ----- What is chosen -----

  ghost predicate Disjoint(selected: seq<Span>) {
    && (forall i | 0 <= i < |selected| :: Nonempty(selected[i]))
    && (forall i, j | 0 <= i < j < |selected| :: selected[i].end <= selected[j].start)
  }

  /** The `i`-th choice is the first candidate, in sort order, of those still open at that point. */
  ghost predicate FirstOpen(candidates: seq<Span>, selected: seq<Span>, i: nat)
    requires i < |selected|
  {
    && selected[i] in candidates && Open(EndBefore(selected, i), selected[i])
    && (forall c | c in candidates && Open(EndBefore(selected, i), c) :: Before(selected[i], c))
  }

  /** Every choice is the first open candidate, and at the end none is open. */
  ghost predicate LeftmostLongest(candidates: seq<Span>, selected: seq<Span>) {
    && (forall i | 0 <= i < |selected| :: FirstOpen(candidates, selected, i))
    && (forall c | c in candidates :: !Open(EndBefore(selected, |selected|), c))
  }

  lemma KeptBefore(sorted: seq<Span>, front: seq<Span>, c: Span, e: Span)
    requires SortedBy(sorted, SpanLe) && sorted == front + [c] && e in front
    ensures Before(e, c)
  {
    var i :| 0 <= i < |front| && front[i] == e;
    assert SpanLe(sorted[i], sorted[|front|]);
  }

  lemma {:induction false} GreedyExact(sorted: seq<Span>)
    requires SortedBy(sorted, SpanLe)
    ensures Disjoint(Greedy(sorted)) && LeftmostLongest(sorted, Greedy(sorted))
  {
    if sorted != [] {
      var front, c := sorted[..|sorted| - 1], sorted[|sorted| - 1];
      assert sorted == front + [c];
      GreedyExact(front);
      NextChoice(sorted, front, c);
    }
  }

  lemma NextChoice(sorted: seq<Span>, front: seq<Span>, c: Span)
    requires SortedBy(sorted, SpanLe) && sorted == front + [c]
    requires Disjoint(Greedy(front)) && LeftmostLongest(front, Greedy(front))
    ensures Disjoint(Greedy(sorted)) && LeftmostLongest(sorted, Greedy(sorted))
  {
    var earlier := Greedy(front);
    assert sorted[..|sorted| - 1] == front;
    if Open(EndBefore(earlier, |earlier|), c) {
      EarlierEnds(earlier);
      TakenChoice(sorted, front, c, earlier);
    } else {
      forall i | 0 <= i < |earlier| ensures FirstOpen(sorted, earlier, i) {
        assert FirstOpen(front, earlier, i);
        KeptBefore(sorted, front, c, earlier[i]);
      }
    }
  }

  lemma TakenChoice(sorted: seq<Span>, front: seq<Span>, c: Span, earlier: seq<Span>)
    requires SortedBy(sorted, SpanLe) && sorted == front + [c]
    requires LeftmostLongest(front, earlier) && Open(EndBefore(earlier, |earlier|), c)
    ensures LeftmostLongest(sorted, earlier + [c])
  {
    var selected := earlier + [c];
    SpanLeTotalOrder();
    assert SpanLe(c, c);
    forall i | 0 <= i < |selected| ensures FirstOpen(sorted, selected, i) {
      assert EndBefore(selected, i) == EndBefore(earlier, i);
      if i < |earlier| {
        assert FirstOpen(front, earlier, i) && selected[i] == earlier[i];
        KeptBefore(sorted, front, c, earlier[i]);
      } else {
        forall d | d in sorted && Open(EndBefore(selected, i), d) ensures d == c { assert d !in front; }
      }
    }
    forall d | d in sorted ensures !Open(EndBefore(selected, |selected|), d) {
      if d in front { assert !Open(EndBefore(earlier, |earlier|), d); }
    }
  }

  lemma EarlierEnds(selected: seq<Span>)
    requires Disjoint(selected)
    ensures forall i | 0 <= i < |selected| :: selected[i].end <= EndBefore(selected, |selected|)
  {
    forall i | 0 <= i < |selected| ensures selected[i].end <= EndBefore(selected, |selected|) {
      if i < |selected| - 1 { assert selected[i].end <= selected[|selected| - 1].start; }
    }
  }

  /** The chosen spans are nonempty, in order and disjoint, and each is the leftmost longest candidate open after
      those before it. */
  lemma ChosenExact(candidates: seq<Span>)
    ensures Disjoint(Chosen(candidates)) && LeftmostLongest(candidates, Chosen(candidates))
  {
    SpanLeTotalOrder();
    SortSorts(candidates, SpanLe);
    MemberOfSort(candidates, SpanLe);
    var sorted := Sort(candidates, SpanLe);
    GreedyExact(sorted);
    forall i | 0 <= i < |Chosen(candidates)| ensures FirstOpen(candidates, Chosen(candidates), i) {
      assert FirstOpen(sorted, Chosen(candidates), i);
    }
  }

  ghost predicate Overlap(a: Span, b: Span) {
    a.start < b.end && b.start < a.end
  }

  /** Maximality: every nonempty candidate overlaps a chosen span. */
  lemma ChosenMaximal(candidates: seq<Span>, c: Span)
    requires c in candidates && Nonempty(c) && c.start >= 0
    ensures exists s | s in Chosen(candidates) :: Overlap(s, c)
  {
    ChosenExact(candidates);
    var selected := Chosen(candidates);
    var i := 0;
    while c.start >= selected[i].end
      invariant 0 <= i < |selected| && c.start >= EndBefore(selected, i)
      decreases |selected| - i
    {
      i := i + 1;
    }
    assert FirstOpen(candidates, selected, i);
    assert Overlap(selected[i], c);
  }

  /** The choice does not depend on the order in which the rules listed their candidates. */
  lemma ChosenIgnoresOrder(a: seq<Span>, b: seq<Span>)
    requires multiset(a) == multiset(b)
    ensures Chosen(a) == Chosen(b)
  {
    SpanLeTotalOrder();
    SortIgnoresOrder(a, b, SpanLe);
  }

  // ----- Rebuilding the text -----

  type Naming = (string, nat) -> string

  /** How many of the first `k` chosen spans are of this rule. */
  function Occurrences(selected: seq<Span>, rule: string, k: nat): nat
    requires k <= |selected|
  {
    if k == 0 then 0
    else Occurrences(selected, rule, k - 1) + if selected[k - 1].rule == rule then 1 else 0
  }

  /** The positions of the rule's spans among the first k. */
  function SpansOf(selected: seq<Span>, rule: string, k: nat): set<nat>
    requires k <= |selected|
  {
    set j: nat | j < k && selected[j].rule == rule
  }

  lemma SpansNext(selected: seq<Span>, rule: string, k: nat)
    requires k < |selected|
    ensures SpansOf(selected, rule, k + 1)
            == if selected[k].rule == rule then SpansOf(selected, rule, k) + {k} else SpansOf(selected, rule, k)
  {
  }

  lemma OneMoreOf(positions: set<nat>, k: nat)
    requires k !in positions
    ensures |positions + {k}| == |positions| + 1
  {
  }

  /** Occurrences are their number. */
  lemma {:induction false} OccurrencesCount(selected: seq<Span>, rule: string, k: nat)
    requires k <= |selected|
    ensures Occurrences(selected, rule, k) == |SpansOf(selected, rule, k)|
  {
    if k > 0 {
      var earlier := SpansOf(selected, rule, k - 1);
      OccurrencesCount(selected, rule, k - 1);
      SpansNext(selected, rule, k - 1);
      if selected[k - 1].rule == rule { OneMoreOf(earlier, k - 1); }
    }
  }

  /** The `i`-th map entry: its placeholder is numbered by its occurrence of the rule. */
  function EntryOf(selected: seq<Span>, name: Naming, i: nat): Entry
    requires i < |selected|
  {
    var s := selected[i];
    Entry(s.rule, s.start, s.end, name(s.rule, Occurrences(selected, s.rule, i + 1)))
  }

  function Entries(selected: seq<Span>, name: Naming): seq<Entry> {
    seq(|selected|, i requires 0 <= i < |selected| => EntryOf(selected, name, i))
  }

  ghost predicate PlacedAt(text: string, selected: seq<Span>, i: nat)
    requires i < |selected|
  {
    0 <= Cursor(selected, i) <= selected[i].start < selected[i].end <= |text|
  }

  ghost predicate Within(text: string, selected: seq<Span>) {
    forall i | 0 <= i < |selected| :: PlacedAt(text, selected, i)
  }

  /** `cursor` after the first `k` spans. */
  function Cursor(selected: seq<Span>, k: nat): int
    requires k <= |selected|
  {
    if k == 0 then 0 else selected[k - 1].end
  }

  lemma CursorWithin(text: string, selected: seq<Span>, k: nat)
    requires Within(text, selected) && k <= |selected|
    ensures 0 <= Cursor(selected, k) <= |text|
    ensures k < |selected| ==> Cursor(selected, k) <= selected[k].start < selected[k].end <= |text|
  {
    if k > 0 { assert PlacedAt(text, selected, k - 1); }
    if k < |selected| { assert PlacedAt(text, selected, k); }
  }

  lemma ChosenWithin(text: string, candidates: seq<Span>)
    requires forall c | c in candidates :: 0 <= c.start && c.end <= |text|
    ensures Within(text, Chosen(candidates))
  {
    ChosenExact(candidates);
    var selected := Chosen(candidates);
    forall i | 0 <= i < |selected|
      ensures PlacedAt(text, selected, i)
    {
      assert FirstOpen(candidates, selected, i);
      if i > 0 { assert FirstOpen(candidates, selected, i - 1); }
    }
  }

  /** The redacted text up to the end of the `k`-th span. */
  function Head(text: string, selected: seq<Span>, name: Naming, k: nat): string
    requires Within(text, selected) && k <= |selected|
  {
    if k == 0 then ""
    else
      CursorWithin(text, selected, k - 1);
      Head(text, selected, name, k - 1) + text[Cursor(selected, k - 1)..selected[k - 1].start]
        + EntryOf(selected, name, k - 1).placeholder
  }

  function Redacted(text: string, selected: seq<Span>, name: Naming): string
    requires Within(text, selected)
  {
    CursorWithin(text, selected, |selected|);
    Head(text, selected, name, |selected|) + text[Cursor(selected, |selected|)..]
  }

  /** The entry describes the i-th span, and its placeholder is numbered by how many spans of the rule there are up to it. */
  ghost predicate Names(selected: seq<Span>, name: Naming, i: nat, e: Entry)
    requires i < |selected|
  {
    var s := selected[i];
    && e.rule == s.rule && e.start == s.start && e.end == s.end
    && e.placeholder == name(s.rule, |SpansOf(selected, s.rule, i + 1)|)
  }

  lemma EntryNames(selected: seq<Span>, name: Naming, i: nat)
    requires i < |selected|
    ensures Names(selected, name, i, EntryOf(selected, name, i))
  {
    OccurrencesCount(selected, selected[i].rule, i + 1);
  }

  ghost predicate Counted(selected: seq<Span>, k: nat, counts: map<string, nat>)
    requires k <= |selected|
  {
    forall r :: Occurrences(selected, r, k) == if r in counts then counts[r] else 0
  }

  lemma CountedNext(selected: seq<Span>, k: nat, counts: map<string, nat>)
    requires k < |selected| && Counted(selected, k, counts)
    ensures var rule := selected[k].rule; var count := (if rule in counts then counts[rule] else 0) + 1;
            Counted(selected, k + 1, counts[rule := count]) && Occurrences(selected, rule, k + 1) == count
  {
  }

  ghost predicate AllNamed(selected: seq<Span>, name: Naming, entries: seq<Entry>) {
    |entries| == |selected| && forall i | 0 <= i < |entries| :: Names(selected, name, i, entries[i])
  }

  lemma EntriesNamed(selected: seq<Span>, name: Naming)
    ensures AllNamed(selected, name, Entries(selected, name))
  {
    forall i | 0 <= i < |selected| ensures Names(selected, name, i, EntryOf(selected, name, i)) { EntryNames(selected, name, i); }
  }

  /** `redact_artifact` from the candidate list on: the redacted text and the map entries. */
  method Redact(text: string, candidates: seq<Span>, name: Naming) returns (redacted: string, entries: seq<Entry>)
    requires forall c | c in candidates :: 0 <= c.start && c.end <= |text|
    ensures Within(text, Chosen(candidates))
    ensures redacted == Redacted(text, Chosen(candidates), name)
    ensures entries == Entries(Chosen(candidates), name)
    ensures AllNamed(Chosen(candidates), name, entries)
  {
    ChosenWithin(text, candidates);
    var selected := Select(candidates);
    var counts: map<string, nat> := map[];
    entries, redacted := [], "";
    var cursor := 0;
    for i := 0 to |selected|
      invariant cursor == Cursor(selected, i)
      invariant redacted == Head(text, selected, name, i)
      invariant |entries| == i && forall j | 0 <= j < i :: entries[j] == EntryOf(selected, name, j)
      invariant Counted(selected, i, counts)
    {
      CursorWithin(text, selected, i);
      CountedNext(selected, i, counts);
      var s := selected[i];
      redacted := redacted + text[cursor..s.start];
      counts := counts[s.rule := (if s.rule in counts then counts[s.rule] else 0) + 1];
      var placeholder := name(s.rule, counts[s.rule]);
      redacted := redacted + placeholder;
      entries := entries + [Entry(s.rule, s.start, s.end, placeholder)];
      cursor := s.end;
    }
    CursorWithin(text, selected, |selected|);
    redacted := redacted + text[cursor..];
    assert entries == Entries(selected, name);
    EntriesNamed(selected, name);
  }

  // ----- Undoing it -----

  /** Reads the redacted text by the entries alone, from the `k`-th on: copies the gap before each span, drops the
      placeholder and puts the removed piece back.  Empty if a placeholder is not where its entry says. */
  function Restore(redacted: string, entries: seq<Entry>, removed: seq<string>, k: nat): seq<string>
    requires |removed| == |entries| && k <= |entries|
    decreases |entries| - k
  {
    if k == |entries| then [redacted]
    else
      var e := entries[k];
      var gap := e.start - if k == 0 then 0 else entries[k - 1].end;
      var after := gap + |e.placeholder|;
      if gap < 0 || after > |redacted| || redacted[gap..after] != e.placeholder then []
      else
        var rest := Restore(redacted[after..], entries, removed, k + 1);
        if rest == [] then [] else [redacted[..gap] + removed[k] + rest[0]]
  }

  function Removed(text: string, selected: seq<Span>): seq<string>
    requires Within(text, selected)
  {
    seq(|selected|, i requires 0 <= i < |selected| =>
      CursorWithin(text, selected, i); text[selected[i].start..selected[i].end])
  }

  /** The redacted text from the end of the `k`-th span on. */
  function Tail(text: string, selected: seq<Span>, name: Naming, k: nat): string
    requires Within(text, selected) && k <= |selected|
    decreases |selected| - k
  {
    CursorWithin(text, selected, k);
    if k == |selected| then text[Cursor(selected, k)..]
    else text[Cursor(selected, k)..selected[k].start] + EntryOf(selected, name, k).placeholder + Tail(text, selected, name, k + 1)
  }

  lemma SpanMovesOver(text: string, selected: seq<Span>, name: Naming, k: nat)
    requires Within(text, selected) && k < |selected|
    ensures Head(text, selected, name, k + 1) + Tail(text, selected, name, k + 1)
         == Head(text, selected, name, k) + Tail(text, selected, name, k)
  {
    CursorWithin(text, selected, k);
    Regroup(Head(text, selected, name, k), text[Cursor(selected, k)..selected[k].start],
            EntryOf(selected, name, k).placeholder, Tail(text, selected, name, k + 1));
  }

  lemma {:induction false} HeadThenTail(text: string, selected: seq<Span>, name: Naming, k: nat)
    requires Within(text, selected) && k <= |selected|
    ensures Head(text, selected, name, |selected|) + Tail(text, selected, name, |selected|)
         == Head(text, selected, name, k) + Tail(text, selected, name, k)
    decreases |selected| - k
  {
    if k < |selected| {
      HeadThenTail(text, selected, name, k + 1);
      SpanMovesOver(text, selected, name, k);
    }
  }

  lemma Regroup(a: string, b: string, c: string, d: string)
    ensures a + b + c + d == a + (b + c + d)
  {
  }

  lemma RestoreOne(redacted: string, entries: seq<Entry>, removed: seq<string>, k: nat, gap: nat, after: nat,
                   rest: string)
    requires |removed| == |entries| && k < |entries| && gap <= after <= |redacted|
    requires gap == entries[k].start - (if k == 0 then 0 else entries[k - 1].end)
    requires after == gap + |entries[k].placeholder| && redacted[gap..after] == entries[k].placeholder
    requires Restore(redacted[after..], entries, removed, k + 1) == [rest]
    ensures Restore(redacted, entries, removed, k) == [redacted[..gap] + removed[k] + rest]
  {
  }

  lemma TailParts(text: string, selected: seq<Span>, name: Naming, k: nat)
    requires Within(text, selected) && k < |selected|
    ensures var gap, after := selected[k].start - Cursor(selected, k),
                              selected[k].start - Cursor(selected, k) + |EntryOf(selected, name, k).placeholder|;
            var tail := Tail(text, selected, name, k);
            && 0 <= Cursor(selected, k) <= selected[k].start <= |text|
            && 0 <= gap <= after <= |tail|
            && tail[..gap] == text[Cursor(selected, k)..selected[k].start]
            && tail[gap..after] == EntryOf(selected, name, k).placeholder
            && tail[after..] == Tail(text, selected, name, k + 1)
  {
    CursorWithin(text, selected, k);
  }

  lemma OneSpanRestores(text: string, selected: seq<Span>, name: Naming, k: nat)
    requires Within(text, selected) && k < |selected|
    requires 0 <= Cursor(selected, k + 1) <= |text|
    requires Restore(Tail(text, selected, name, k + 1), Entries(selected, name), Removed(text, selected), k + 1)
          == [text[Cursor(selected, k + 1)..]]
    ensures 0 <= Cursor(selected, k) <= selected[k].start <= selected[k].end <= |text|
    ensures Restore(Tail(text, selected, name, k), Entries(selected, name), Removed(text, selected), k)
         == [text[Cursor(selected, k)..selected[k].start] + text[selected[k].start..selected[k].end] + text[selected[k].end..]]
  {
    CursorWithin(text, selected, k);
    TailParts(text, selected, name, k);
    var gap := selected[k].start - Cursor(selected, k);
    RestoreOne(Tail(text, selected, name, k), Entries(selected, name), Removed(text, selected), k, gap,
               gap + |EntryOf(selected, name, k).placeholder|, text[selected[k].end..]);
  }

  lemma Rejoin(text: string, a: nat, b: nat, c: nat)
    requires a <= b <= c <= |text|
    ensures text[a..b] + text[b..c] + text[c..] == text[a..]
  {
  }

  lemma {:induction false} TailRestores(text: string, selected: seq<Span>, name: Naming, k: nat)
    requires Within(text, selected) && k <= |selected|
    ensures 0 <= Cursor(selected, k) <= |text|
    ensures Restore(Tail(text, selected, name, k), Entries(selected, name), Removed(text, selected), k)
         == [text[Cursor(selected, k)..]]
    decreases |selected| - k
  {
    CursorWithin(text, selected, k);
    if k < |selected| {
      TailRestores(text, selected, name, k + 1);
      OneSpanRestores(text, selected, name, k);
      Rejoin(text, Cursor(selected, k), selected[k].start, selected[k].end);
    }
  }

  /** The map entries and the removed pieces rebuild the original text from the redacted one, whatever the
      placeholders look like: everything outside the chosen spans was kept, in order. */
  lemma RedactionRestores(text: string, selected: seq<Span>, name: Naming)
    requires Within(text, selected)
    ensures Restore(Redacted(text, selected, name), Entries(selected, name), Removed(text, selected), 0) == [text]
  {
    HeadThenTail(text, selected, name, 0);
    assert Head(text, selected, name, 0) + Tail(text, selected, name, 0) == Tail(text, selected, name, 0);
    TailRestores(text, selected, name, 0);
  }
}
