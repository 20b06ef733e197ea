/** Finding chains (app/brain/chain_builder.py): the bounded search for simple paths, and the edge filter. */
module ChainBuilder {
  import opened Wrappers
  import opened Sorting
  import opened Arithmetic

  datatype Edge = Edge(source: int, target: int, edgeType: string, weight: real)

  datatype ChainPath = ChainPath(findingIds: seq<int>, edgeTypes: seq<string>, score: real)

  /** A chain is named by the positions of its edges in the kept edge list, so parallel edges stay distinct. */
  type Trace = seq<nat>

  function Kept(edges: seq<Edge>, minWeight: real): seq<Edge> {
    if edges == [] then []
    else
      var earlier := Kept(edges[..|edges| - 1], minWeight);
      if edges[|edges| - 1].weight >= minWeight then earlier + [edges[|edges| - 1]] else earlier
  }

  /** Positions of the edges that leave `node`, in order. */
  function Out(kept: seq<Edge>, node: int): seq<nat> {
    if kept == [] then []
    else
      var last := |kept| - 1;
      var earlier := Out(kept[..last], node);
      if kept[last].source == node then earlier + [last] else earlier
  }

  predicate Leaving(kept: seq<Edge>, node: int, outs: seq<nat>) {
    InRange(kept, outs) && forall i | 0 <= i < |outs| :: kept[outs[i]].source == node
  }

  lemma {:induction false} OutLeaves(kept: seq<Edge>, node: int)
    ensures Leaving(kept, node, Out(kept, node))
  {
    if kept != [] {
      OutLeaves(kept[..|kept| - 1], node);
    }
  }

  lemma OutComplete(kept: seq<Edge>, node: int)
    ensures NoDup(Out(kept, node))
    ensures forall k | 0 <= k < |kept| && kept[k].source == node :: k in Out(kept, node)
  {
    OutNoDup(kept, node);
    forall k | 0 <= k < |kept| && kept[k].source == node ensures k in Out(kept, node) { OutHas(kept, node, k); }
  }

  lemma {:induction false} OutNoDup(kept: seq<Edge>, node: int)
    ensures NoDup(Out(kept, node))
  {
    if kept != [] {
      var last := |kept| - 1;
      OutNoDup(kept[..last], node);
      OutLeaves(kept[..last], node);
      NoDupConcat(Out(kept[..last], node), [last]);
    }
  }

  lemma {:induction false} OutHas(kept: seq<Edge>, node: int, k: nat)
    requires k < |kept| && kept[k].source == node
    ensures k in Out(kept, node)
  {
    if k < |kept| - 1 { OutHas(kept[..|kept| - 1], node, k); }
  }

  predicate InRange(kept: seq<Edge>, trace: Trace) {
    forall i | 0 <= i < |trace| :: trace[i] < |kept|
  }

  function Ids(kept: seq<Edge>, start: int, trace: Trace): seq<int>
    requires InRange(kept, trace)
  {
    if trace == [] then [start]
    else Ids(kept, start, trace[..|trace| - 1]) + [kept[trace[|trace| - 1]].target]
  }

  function Types(kept: seq<Edge>, trace: Trace): seq<string>
    requires InRange(kept, trace)
  {
    if trace == [] then [] else Types(kept, trace[..|trace| - 1]) + [kept[trace[|trace| - 1]].edgeType]
  }

  /** How a chain's score grows by an edge and how it is rounded at the end; the search does not depend on either. */
  datatype Scoring = Scoring(extend: (real, real) -> real, rounded: real -> real)

  /** The product of the edge weights, rounded to four digits. */
  const MULTIPLICATIVE := Scoring((score, weight) => score * weight, score => RoundTo(score, 10000))

  function Score(g: Scoring, kept: seq<Edge>, trace: Trace): real
    requires InRange(kept, trace)
  {
    if trace == [] then 1.0 else g.extend(Score(g, kept, trace[..|trace| - 1]), kept[trace[|trace| - 1]].weight)
  }

  function Node(kept: seq<Edge>, start: int, trace: Trace): int
    requires InRange(kept, trace)
  {
    if trace == [] then start else kept[trace[|trace| - 1]].target
  }

  ghost predicate LinkedAt(kept: seq<Edge>, start: int, trace: Trace, i: nat)
    requires InRange(kept, trace) && i < |trace|
  {
    kept[trace[i]].source == if i == 0 then start else kept[trace[i - 1]].target
  }

  /** Each edge leaves the node the one before reached, and no finding is visited twice. */
  ghost predicate Simple(kept: seq<Edge>, start: int, trace: Trace) {
    && InRange(kept, trace)
    && (forall i | 0 <= i < |trace| :: LinkedAt(kept, start, trace, i))
    && NoDup(Ids(kept, start, trace))
  }

  /** The chains `find_paths` is meant to return. */
  ghost predicate Chain(kept: seq<Edge>, maxDepth: int, trace: Trace) {
    && |trace| >= 2
    && |trace| + 1 <= maxDepth
    && trace[0] < |kept|
    && Simple(kept, kept[trace[0]].source, trace)
  }

  function Render(g: Scoring, kept: seq<Edge>, start: int, trace: Trace): ChainPath
    requires InRange(kept, trace)
  {
    ChainPath(Ids(kept, start, trace), Types(kept, trace), g.rounded(Score(g, kept, trace)))
  }

  // ----- The search as a list of traces -----

  /** The traces that `walk` records below `trace`, in the order it records them. */
  function Explore(kept: seq<Edge>, maxDepth: int, start: int, trace: Trace): seq<Trace>
    requires InRange(kept, trace)
    decreases maxDepth - |trace|, 0
  {
    if |trace| + 1 >= maxDepth then []
    else
      OutLeaves(kept, Node(kept, start, trace));
      ExploreEach(kept, maxDepth, start, trace, Out(kept, Node(kept, start, trace)))
  }

  function ExploreEach(kept: seq<Edge>, maxDepth: int, start: int, trace: Trace, outs: seq<nat>): seq<Trace>
    requires InRange(kept, trace) && InRange(kept, outs) && |trace| + 1 < maxDepth
    decreases maxDepth - |trace|, 0, |outs|
  {
    if outs == [] then []
    else
      var earlier := ExploreEach(kept, maxDepth, start, trace, outs[..|outs| - 1]);
      var k := outs[|outs| - 1];
      if kept[k].target in Ids(kept, start, trace) then earlier
      else
        var longer := trace + [k];
        earlier + ((if |longer| >= 2 then [longer] else []) + Explore(kept, maxDepth, start, longer))
  }

  function ExploreAll(kept: seq<Edge>, maxDepth: int, sources: seq<int>): seq<Trace> {
    if sources == [] then []
    else ExploreAll(kept, maxDepth, sources[..|sources| - 1]) + Explore(kept, maxDepth, sources[|sources| - 1], [])
  }

  function RenderAll(g: Scoring, kept: seq<Edge>, traces: seq<Trace>): seq<ChainPath>
    requires forall i | 0 <= i < |traces| :: traces[i] != [] && InRange(kept, traces[i])
  {
    if traces == [] then []
    else
      var last := traces[|traces| - 1];
      assert InRange(kept, last);
      RenderAll(g, kept, traces[..|traces| - 1]) + [Render(g, kept, kept[last[0]].source, last)]
  }

  // ----- Soundness, completeness, no repetition -----

  lemma IdsLength(kept: seq<Edge>, start: int, trace: Trace)
    requires InRange(kept, trace)
    ensures |Ids(kept, start, trace)| == |trace| + 1
  {
  }

  lemma SimpleExtends(kept: seq<Edge>, start: int, trace: Trace, k: nat)
    requires InRange(kept, trace) && k < |kept|
    ensures InRange(kept, trace + [k])
    ensures Ids(kept, start, trace + [k]) == Ids(kept, start, trace) + [kept[k].target]
    ensures Simple(kept, start, trace + [k])
       <==> Simple(kept, start, trace) && kept[k].source == Node(kept, start, trace)
            && kept[k].target !in Ids(kept, start, trace)
  {
    var longer := trace + [k];
    assert longer[..|trace|] == trace;
    IdsLength(kept, start, trace);
    var ids, more := Ids(kept, start, trace), Ids(kept, start, longer);
    assert more == ids + [kept[k].target];
    forall i | 0 <= i < |trace| ensures LinkedAt(kept, start, longer, i) <==> LinkedAt(kept, start, trace, i) {
      assert longer[i] == trace[i] && (i > 0 ==> longer[i - 1] == trace[i - 1]);
    }
    if Simple(kept, start, longer) {
      forall i, j | 0 <= i < j < |ids| ensures ids[i] != ids[j] { assert more[i] != more[j]; }
      forall i | 0 <= i < |ids| ensures ids[i] != kept[k].target { assert more[i] != more[|ids|]; }
      assert LinkedAt(kept, start, longer, |trace|);
    }
  }

  /** Strictly below `trace`: what `Explore` lists under it. */
  ghost predicate Below(kept: seq<Edge>, maxDepth: int, start: int, trace: Trace, t: Trace) {
    |t| > |trace| && t[..|trace|] == trace && |t| >= 2 && |t| + 1 <= maxDepth && Simple(kept, start, t)
  }

  lemma {:induction false} SimplePrefix(kept: seq<Edge>, start: int, t: Trace, k: nat)
    requires Simple(kept, start, t) && k <= |t|
    ensures Simple(kept, start, t[..k])
    decreases |t|
  {
    if k == |t| {
      assert t[..k] == t;
    } else {
      var front, last := t[..|t| - 1], t[|t| - 1];
      assert t == front + [last] && front[..k] == t[..k];
      SimpleExtends(kept, start, front, last);
      SimplePrefix(kept, start, front, k);
    }
  }

  lemma {:induction false} ExploreExact(kept: seq<Edge>, maxDepth: int, start: int, trace: Trace)
    requires Simple(kept, start, trace)
    ensures NoDup(Explore(kept, maxDepth, start, trace))
    ensures forall t :: t in Explore(kept, maxDepth, start, trace) <==> Below(kept, maxDepth, start, trace, t)
    decreases maxDepth - |trace|, 0
  {
    if |trace| + 1 < maxDepth {
      var outs := Out(kept, Node(kept, start, trace));
      OutComplete(kept, Node(kept, start, trace));
      OutLeaves(kept, Node(kept, start, trace));
      ExploreEachExact(kept, maxDepth, start, trace, outs);
      forall t | Below(kept, maxDepth, start, trace, t) ensures t[|trace|] in outs {
        SimplePrefix(kept, start, t, |trace| + 1);
        assert t[..|trace| + 1] == trace + [t[|trace|]];
        SimpleExtends(kept, start, trace, t[|trace|]);
      }
    }
  }

  /** `ExploreEach` lists the traces below `trace` whose next edge is one of `outs`. */
  lemma {:induction false} ExploreEachExact(kept: seq<Edge>, maxDepth: int, start: int, trace: Trace, outs: seq<nat>)
    requires Simple(kept, start, trace) && NoDup(outs) && |trace| + 1 < maxDepth
    requires Leaving(kept, Node(kept, start, trace), outs)
    ensures NoDup(ExploreEach(kept, maxDepth, start, trace, outs))
    ensures forall t :: t in ExploreEach(kept, maxDepth, start, trace, outs)
              <==> Below(kept, maxDepth, start, trace, t) && t[|trace|] in outs
    decreases maxDepth - |trace|, 0, |outs|
  {
    if outs != [] {
      var front, k := outs[..|outs| - 1], outs[|outs| - 1];
      assert outs == front + [k];
      ExploreEachExact(kept, maxDepth, start, trace, front);
      SimpleExtends(kept, start, trace, k);
      var longer := trace + [k];
      if kept[k].target in Ids(kept, start, trace) {
        NothingBelowRepeat(kept, maxDepth, start, trace, k);
      } else {
        ExploreExact(kept, maxDepth, start, longer);
        OneEdgeExact(kept, maxDepth, start, trace, front, k);
      }
    }
  }

  /** No chain goes on with an edge back to a finding already visited. */
  lemma NothingBelowRepeat(kept: seq<Edge>, maxDepth: int, start: int, trace: Trace, k: nat)
    requires Simple(kept, start, trace) && k < |kept| && |trace| + 1 < maxDepth
    requires kept[k].target in Ids(kept, start, trace) && kept[k].source == Node(kept, start, trace)
    ensures forall t | Below(kept, maxDepth, start, trace, t) :: t[|trace|] != k
  {
    SimpleExtends(kept, start, trace, k);
    forall t | Below(kept, maxDepth, start, trace, t) ensures t[|trace|] != k {
      SimplePrefix(kept, start, t, |trace| + 1);
      assert t[..|trace| + 1] == trace + [t[|trace|]];
    }
  }

  lemma OneEdgeExact(kept: seq<Edge>, maxDepth: int, start: int, trace: Trace, front: seq<nat>, k: nat)
    requires InRange(kept, trace) && |trace| + 1 < maxDepth && k < |kept| && k !in front
    requires InRange(kept, front)
    requires Simple(kept, start, trace + [k])
    requires var a := ExploreEach(kept, maxDepth, start, trace, front);
             NoDup(a) && forall t :: t in a <==> Below(kept, maxDepth, start, trace, t) && t[|trace|] in front
    requires var b := Explore(kept, maxDepth, start, trace + [k]);
             NoDup(b) && forall t :: t in b <==> Below(kept, maxDepth, start, trace + [k], t)
    ensures var a := ExploreEach(kept, maxDepth, start, trace, front);
            var c := (if |trace| + 1 >= 2 then [trace + [k]] else []) + Explore(kept, maxDepth, start, trace + [k]);
            NoDup(a + c) && forall t ::
                  t in a + c <==> Below(kept, maxDepth, start, trace, t) && (t[|trace|] in front || t[|trace|] == k)
  {
    var a := ExploreEach(kept, maxDepth, start, trace, front);
    var b := Explore(kept, maxDepth, start, trace + [k]);
    var longer := trace + [k];
    var c := (if |trace| + 1 >= 2 then [longer] else []) + b;
    assert longer !in b;
    assert NoDup(c);
    forall t ensures t in c <==> Below(kept, maxDepth, start, trace, t) && t[|trace|] == k {
      if Below(kept, maxDepth, start, trace, t) && t[|trace|] == k {
        assert t[..|longer|] == longer;
        if |t| == |longer| { assert t == longer; }
      }
      if t in b {
        assert t[..|trace|] == t[..|longer|][..|trace|] == trace;
        assert t[|trace|] == t[..|longer|][|trace|] == k;
      }
      assert longer[..|trace|] == trace;
    }
    NoDupConcat(a, c);
  }

  ghost predicate FromOneOf(kept: seq<Edge>, maxDepth: int, sources: seq<int>, t: Trace) {
    Chain(kept, maxDepth, t) && kept[t[0]].source in sources
  }

  /** Searching from every source lists exactly the chains, each once. */
  lemma {:induction false} ExploreAllExact(kept: seq<Edge>, maxDepth: int, sources: seq<int>)
    requires NoDup(sources)
    ensures NoDup(ExploreAll(kept, maxDepth, sources))
    ensures forall t :: t in ExploreAll(kept, maxDepth, sources) <==> FromOneOf(kept, maxDepth, sources, t)
    decreases |sources|
  {
    if sources != [] {
      var front, source := sources[..|sources| - 1], sources[|sources| - 1];
      assert sources == front + [source];
      ExploreAllExact(kept, maxDepth, front);
      ExploreExact(kept, maxDepth, source, []);
      var a, b := ExploreAll(kept, maxDepth, front), Explore(kept, maxDepth, source, []);
      forall t ensures t in b <==> Chain(kept, maxDepth, t) && kept[t[0]].source == source {
        if t in b { assert LinkedAt(kept, source, t, 0); }
        if Chain(kept, maxDepth, t) && kept[t[0]].source == source { assert t[..0] == []; assert Below(kept, maxDepth, source, [], t); }
      }
      NoDupConcat(a, b);
    }
  }

  lemma ProductShrinks(a: real, w: real)
    requires 0.0 <= a <= 1.0 && 0.0 <= w <= 1.0
    ensures 0.0 <= MULTIPLICATIVE.extend(a, w) <= a
  {
    assert 0.0 <= a * w <= a;
  }

  lemma LastEdgeShrinks(kept: seq<Edge>, trace: Trace)
    requires InRange(kept, trace) && trace != []
    requires forall i | 0 <= i < |kept| :: 0.0 <= kept[i].weight <= 1.0
    requires 0.0 <= Score(MULTIPLICATIVE, kept, trace[..|trace| - 1]) <= 1.0
    ensures 0.0 <= Score(MULTIPLICATIVE, kept, trace) <= Score(MULTIPLICATIVE, kept, trace[..|trace| - 1])
  {
    ProductShrinks(Score(MULTIPLICATIVE, kept, trace[..|trace| - 1]), kept[trace[|trace| - 1]].weight);
  }

  lemma {:induction false} ProductsShrink(kept: seq<Edge>, trace: Trace, k: nat)
    requires InRange(kept, trace) && k <= |trace|
    requires forall i | 0 <= i < |kept| :: 0.0 <= kept[i].weight <= 1.0
    ensures 0.0 <= Score(MULTIPLICATIVE, kept, trace) <= Score(MULTIPLICATIVE, kept, trace[..k]) <= 1.0
    decreases |trace|
  {
    if k == |trace| {
      assert trace[..k] == trace;
    }
    if trace != [] {
      var front := trace[..|trace| - 1];
      if k < |trace| { assert trace[..k] == front[..k]; }
      ProductsShrink(kept, front, if k < |trace| then k else |trace| - 1);
      LastEdgeShrinks(kept, trace);
    }
  }

  /** With weights in 0..1 the rounded score that a path carries lies in 0..1 and is never above that of a chain it
      extends. */
  lemma ScoresShrink(kept: seq<Edge>, start: int, trace: Trace, k: nat)
    requires InRange(kept, trace) && k <= |trace|
    requires forall i | 0 <= i < |kept| :: 0.0 <= kept[i].weight <= 1.0
    ensures 0.0 <= Render(MULTIPLICATIVE, kept, start, trace).score
            <= Render(MULTIPLICATIVE, kept, start, trace[..k]).score <= 1.0
  {
    ProductsShrink(kept, trace, k);
    var long, short := Score(MULTIPLICATIVE, kept, trace), Score(MULTIPLICATIVE, kept, trace[..k]);
    RoundToInteger(0, 10000);
    RoundToInteger(1, 10000);
    RoundToMonotone(0.0, long, 10000);
    RoundToMonotone(long, short, 10000);
    RoundToMonotone(short, 1.0, 10000);
  }

  // ----- What a returned path says -----

  lemma OneEdgeScore(kept: seq<Edge>, k: nat)
    requires k < |kept|
    ensures Score(MULTIPLICATIVE, kept, [k]) == kept[k].weight
  {
    assert [k][..0] == [];
  }

  /** Scores can be joined in any grouping, and the empty one does not count. */
  ghost predicate Groups(g: Scoring) {
    && (forall x, y, z :: g.extend(g.extend(x, y), z) == g.extend(x, g.extend(y, z)))
    && (forall x :: g.extend(x, 1.0) == x)
  }

  lemma {:induction false} JoinedBy(g: Scoring, kept: seq<Edge>, a: Trace, b: Trace)
    requires Groups(g) && InRange(kept, a) && InRange(kept, b)
    ensures InRange(kept, a + b)
    ensures Score(g, kept, a + b) == g.extend(Score(g, kept, a), Score(g, kept, b))
    decreases |b|
  {
    if b == [] {
      assert a + b == a;
    } else {
      var front := b[..|b| - 1];
      JoinedBy(g, kept, a, front);
      assert (a + b)[..|a + b| - 1] == a + front;
    }
  }

  lemma ProductsGroup()
    ensures Groups(MULTIPLICATIVE)
  {
    forall x: real, y: real, z: real
      ensures MULTIPLICATIVE.extend(MULTIPLICATIVE.extend(x, y), z) == MULTIPLICATIVE.extend(x, MULTIPLICATIVE.extend(y, z))
    {
      Associative(x, y, z);
    }
  }

  lemma Associative(x: real, y: real, z: real)
    ensures (x * y) * z == x * (y * z)
  {}

  /** The score of a chain is that of its parts joined, down to the weights of its edges ... */
  lemma JoinedScore(kept: seq<Edge>, a: Trace, b: Trace)
    requires InRange(kept, a) && InRange(kept, b)
    ensures InRange(kept, a + b)
    ensures Score(MULTIPLICATIVE, kept, a + b) == MULTIPLICATIVE.extend(Score(MULTIPLICATIVE, kept, a), Score(MULTIPLICATIVE, kept, b))
  {
    ProductsGroup();
    JoinedBy(MULTIPLICATIVE, kept, a, b);
  }

  /** ... and joining is multiplying. */
  lemma JoiningIsMultiplying(x: real, y: real)
    ensures MULTIPLICATIVE.extend(x, y) == x * y
  {}

  /** The product of the weights of the first n edges. */
  function Product(kept: seq<Edge>, trace: Trace, n: nat): real
    requires InRange(kept, trace) && n <= |trace|
  {
    if n == 0 then 1.0 else Product(kept, trace, n - 1) * kept[trace[n - 1]].weight
  }

  lemma {:induction false} ScoreIsProduct(kept: seq<Edge>, trace: Trace, n: nat)
    requires InRange(kept, trace) && n <= |trace|
    ensures Score(MULTIPLICATIVE, kept, trace[..n]) == Product(kept, trace, n)
  {
    if n > 0 {
      ScoreIsProduct(kept, trace, n - 1);
      assert trace[..n][..n - 1] == trace[..n - 1];
    }
  }

  /** A path that spells a chain of the kept edges: the source of its first edge and the target of every one, their types,
      and the product of their weights rounded to the nearest multiple of 1/10000. */
  ghost predicate Spells(kept: seq<Edge>, maxDepth: int, trace: Trace, p: ChainPath) {
    && Chain(kept, maxDepth, trace)
    && |p.findingIds| == |trace| + 1 && p.findingIds[0] == kept[trace[0]].source
    && (forall i | 0 <= i < |trace| :: p.findingIds[i + 1] == kept[trace[i]].target)
    && |p.edgeTypes| == |trace| && (forall i | 0 <= i < |trace| :: p.edgeTypes[i] == kept[trace[i]].edgeType)
    && (p.score * 10000.0).Floor as real == p.score * 10000.0
    && -0.5 <= (p.score - Product(kept, trace, |trace|)) * 10000.0 <= 0.5
  }

  lemma {:induction false} IdsAre(kept: seq<Edge>, start: int, trace: Trace)
    requires InRange(kept, trace)
    ensures |Ids(kept, start, trace)| == |trace| + 1 && Ids(kept, start, trace)[0] == start
    ensures forall i | 0 <= i < |trace| :: Ids(kept, start, trace)[i + 1] == kept[trace[i]].target
  {
    if trace != [] { IdsAre(kept, start, trace[..|trace| - 1]); }
  }

  lemma {:induction false} TypesAre(kept: seq<Edge>, trace: Trace)
    requires InRange(kept, trace)
    ensures |Types(kept, trace)| == |trace|
    ensures forall i | 0 <= i < |trace| :: Types(kept, trace)[i] == kept[trace[i]].edgeType
  {
    if trace != [] { TypesAre(kept, trace[..|trace| - 1]); }
  }

  lemma RenderSpells(kept: seq<Edge>, maxDepth: int, trace: Trace)
    requires Chain(kept, maxDepth, trace)
    ensures Spells(kept, maxDepth, trace, Render(MULTIPLICATIVE, kept, kept[trace[0]].source, trace))
  {
    IdsAre(kept, kept[trace[0]].source, trace);
    TypesAre(kept, trace);
    ScoreIsProduct(kept, trace, |trace|);
    assert trace[..|trace|] == trace;
    RoundToNearest(Score(MULTIPLICATIVE, kept, trace), 10000);
  }

  lemma {:induction false} RenderedAt(g: Scoring, kept: seq<Edge>, traces: seq<Trace>)
    requires Renderable(kept, traces)
    ensures |RenderAll(g, kept, traces)| == |traces|
    ensures forall i | 0 <= i < |traces| :: RenderAll(g, kept, traces)[i] == Render(g, kept, kept[traces[i][0]].source, traces[i])
  {
    if traces != [] { RenderedAt(g, kept, traces[..|traces| - 1]); }
  }

  /** The positions of the edges that are kept: all of sufficient weight, in order. */
  ghost predicate KeptAt(edges: seq<Edge>, minWeight: real, kept: seq<Edge>, at: seq<nat>) {
    && |at| == |kept|
    && (forall k | 0 <= k < |at| :: at[k] < |edges| && edges[at[k]].weight >= minWeight && kept[k] == edges[at[k]])
    && (forall k, m | 0 <= k < m < |at| :: at[k] < at[m])
    && (forall i | 0 <= i < |edges| && edges[i].weight >= minWeight :: i in at)
  }

  lemma KeptOneMore(edges: seq<Edge>, minWeight: real, kept: seq<Edge>, at: seq<nat>)
    requires edges != [] && KeptAt(edges[..|edges| - 1], minWeight, kept, at)
    ensures var n := |edges| - 1;
            if edges[n].weight >= minWeight then KeptAt(edges, minWeight, kept + [edges[n]], at + [n]) else KeptAt(edges, minWeight, kept, at)
  {
    var n := |edges| - 1;
    var more := if edges[n].weight >= minWeight then at + [n] else at;
    forall i | 0 <= i < |edges| && edges[i].weight >= minWeight ensures i in more {
      if i < n { assert edges[..n][i] == edges[i] && i in at; }
    }
  }

  lemma {:induction false} KeptExact(edges: seq<Edge>, minWeight: real) returns (at: seq<nat>)
    ensures KeptAt(edges, minWeight, Kept(edges, minWeight), at)
  {
    at := [];
    if edges != [] {
      var n := |edges| - 1;
      var before := KeptExact(edges[..n], minWeight);
      KeptOneMore(edges, minWeight, Kept(edges[..n], minWeight), before);
      at := if edges[n].weight >= minWeight then before + [n] else before;
    }
  }

  // ----- The imperative search -----

  type Graph = map<int, seq<Edge>>

  ghost predicate ListOf(kept: seq<Edge>, graph: Graph, node: int)
    requires node in graph
  {
    OutLeaves(kept, node);
    |graph[node]| == |Out(kept, node)| && forall j | 0 <= j < |graph[node]| ::
          graph[node][j] == kept[Out(kept, node)[j]]
  }

  /** Each node's list holds exactly the kept edges that leave it, in order. */
  ghost predicate GraphOf(kept: seq<Edge>, graph: Graph) {
    && (forall node :: node in graph <==> Out(kept, node) != [])
    && (forall node | node in graph :: ListOf(kept, graph, node))
  }

  /** What `graph.get(node, [])` gives. */
  function EdgesAt(graph: Graph, node: int): seq<Edge> {
    if node in graph then graph[node] else []
  }

  lemma NodeEdges(kept: seq<Edge>, graph: Graph, node: int)
    requires GraphOf(kept, graph)
    ensures InRange(kept, Out(kept, node)) && |EdgesAt(graph, node)| == |Out(kept, node)|
    ensures forall j | 0 <= j < |Out(kept, node)| ::
              EdgesAt(graph, node)[j] == kept[Out(kept, node)[j]] && EdgesAt(graph, node)[j].source == node
  {
    OutLeaves(kept, node);
  }

  lemma ChainAppended(g: Scoring, kept: seq<Edge>, a: seq<Trace>, b: seq<Trace>)
    requires forall i | 0 <= i < |a| :: a[i] != [] && InRange(kept, a[i])
    requires forall i | 0 <= i < |b| :: b[i] != [] && InRange(kept, b[i])
    ensures forall i | 0 <= i < |a + b| :: (a + b)[i] != [] && InRange(kept, (a + b)[i])
    ensures RenderAll(g, kept, a + b) == RenderAll(g, kept, a) + RenderAll(g, kept, b)
    decreases |b|
  {
    if b == [] {
      assert a + b == a;
    } else {
      var front := b[..|b| - 1];
      ChainAppended(g, kept, a, front);
      assert (a + b)[..|a + b| - 1] == a + front;
    }
  }

  ghost predicate Renderable(kept: seq<Edge>, traces: seq<Trace>) {
    forall i | 0 <= i < |traces| :: traces[i] != [] && InRange(kept, traces[i])
  }

  lemma {:induction false} ExploreRenderable(kept: seq<Edge>, maxDepth: int, start: int, trace: Trace)
    requires InRange(kept, trace)
    ensures Renderable(kept, Explore(kept, maxDepth, start, trace))
    decreases maxDepth - |trace|, 0
  {
    if |trace| + 1 < maxDepth {
      OutLeaves(kept, Node(kept, start, trace));
      ExploreEachRenderable(kept, maxDepth, start, trace, Out(kept, Node(kept, start, trace)));
    }
  }

  lemma {:induction false} ExploreEachRenderable(kept: seq<Edge>, maxDepth: int, start: int, trace: Trace,
                                                 outs: seq<nat>)
    requires InRange(kept, trace) && InRange(kept, outs) && |trace| + 1 < maxDepth
    ensures Renderable(kept, ExploreEach(kept, maxDepth, start, trace, outs))
    decreases maxDepth - |trace|, 0, |outs|
  {
    if outs != [] {
      ExploreEachRenderable(kept, maxDepth, start, trace, outs[..|outs| - 1]);
      if kept[outs[|outs| - 1]].target !in Ids(kept, start, trace) {
        ExploreRenderable(kept, maxDepth, start, trace + [outs[|outs| - 1]]);
      }
    }
  }

  /** The paths that `walk` appends below `trace` ... */
  function Listed(g: Scoring, kept: seq<Edge>, maxDepth: int, start: int, trace: Trace): seq<ChainPath>
    requires InRange(kept, trace)
    decreases maxDepth - |trace|, 2, 0
  {
    if |trace| + 1 >= maxDepth then []
    else
      OutLeaves(kept, Node(kept, start, trace));
      Through(g, kept, maxDepth, start, trace, Out(kept, Node(kept, start, trace)))
  }

  /** ... those of them that go on with one of `outs` ... */
  function Through(g: Scoring, kept: seq<Edge>, maxDepth: int, start: int, trace: Trace, outs: seq<nat>): seq<ChainPath>
    requires InRange(kept, trace) && InRange(kept, outs) && |trace| + 1 < maxDepth
    decreases maxDepth - |trace|, 1, |outs|
  {
    if outs == [] then []
    else Through(g, kept, maxDepth, start, trace, outs[..|outs| - 1]) + Piece(g, kept, maxDepth, start, trace, outs[|outs| - 1])
  }

  lemma ThroughNext(g: Scoring, kept: seq<Edge>, maxDepth: int, start: int, trace: Trace, outs: seq<nat>, j: nat)
    requires InRange(kept, trace) && InRange(kept, outs) && |trace| + 1 < maxDepth && j < |outs|
    ensures Through(g, kept, maxDepth, start, trace, outs[..j + 1])
         == Through(g, kept, maxDepth, start, trace, outs[..j]) + Piece(g, kept, maxDepth, start, trace, outs[j])
  {
    assert outs[..j + 1][..j] == outs[..j];
  }

  /** ... and those that go on with edge `k`: the longer chain itself, if it has two edges, and what lies below it. */
  function Piece(g: Scoring, kept: seq<Edge>, maxDepth: int, start: int, trace: Trace, k: nat): seq<ChainPath>
    requires InRange(kept, trace) && k < |kept| && |trace| + 1 < maxDepth
    decreases maxDepth - |trace|, 0, 0
  {
    var longer := trace + [k];
    if kept[k].target in Ids(kept, start, trace) then []
    else if |longer| >= 2 then [Render(g, kept, start, longer)] + Listed(g, kept, maxDepth, start, longer)
    else Listed(g, kept, maxDepth, start, longer)
  }

  /** The appended paths are the renderings of the explored traces. */
  lemma {:induction false} ListedIsRendered(g: Scoring, kept: seq<Edge>, maxDepth: int, start: int, trace: Trace)
    requires InRange(kept, trace) && (trace != [] ==> kept[trace[0]].source == start)
    ensures Renderable(kept, Explore(kept, maxDepth, start, trace))
    ensures Listed(g, kept, maxDepth, start, trace) == RenderAll(g, kept, Explore(kept, maxDepth, start, trace))
    decreases maxDepth - |trace|, 2, 0
  {
    ExploreRenderable(kept, maxDepth, start, trace);
    if |trace| + 1 < maxDepth {
      OutLeaves(kept, Node(kept, start, trace));
      ThroughIsRendered(g, kept, maxDepth, start, trace, Out(kept, Node(kept, start, trace)));
    }
  }

  lemma {:induction false} ThroughIsRendered(g: Scoring, kept: seq<Edge>, maxDepth: int, start: int, trace: Trace,
                                             outs: seq<nat>)
    requires InRange(kept, trace) && |trace| + 1 < maxDepth && Leaving(kept, Node(kept, start, trace), outs)
    requires trace != [] ==> kept[trace[0]].source == start
    ensures Renderable(kept, ExploreEach(kept, maxDepth, start, trace, outs))
    ensures Through(g, kept, maxDepth, start, trace, outs) == RenderAll(g, kept, ExploreEach(kept, maxDepth, start, trace, outs))
    decreases maxDepth - |trace|, 1, |outs|
  {
    ExploreEachRenderable(kept, maxDepth, start, trace, outs);
    if outs != [] {
      var front, k := outs[..|outs| - 1], outs[|outs| - 1];
      ThroughIsRendered(g, kept, maxDepth, start, trace, front);
      PieceIsRendered(g, kept, maxDepth, start, trace, outs, front, k);
    }
  }

  lemma {:induction false} PieceIsRendered(g: Scoring, kept: seq<Edge>, maxDepth: int, start: int, trace: Trace,
                                           outs: seq<nat>, front: seq<nat>, k: nat)
    requires InRange(kept, trace) && |trace| + 1 < maxDepth && InRange(kept, outs) && k < |kept|
    requires outs != [] && front == outs[..|outs| - 1] && k == outs[|outs| - 1]
             && kept[k].source == Node(kept, start, trace)
    requires trace != [] ==> kept[trace[0]].source == start
    requires Renderable(kept, ExploreEach(kept, maxDepth, start, trace, front))
    requires Renderable(kept, ExploreEach(kept, maxDepth, start, trace, outs))
    ensures RenderAll(g, kept, ExploreEach(kept, maxDepth, start, trace, outs))
         == RenderAll(g, kept, ExploreEach(kept, maxDepth, start, trace, front)) + Piece(g, kept, maxDepth, start, trace, k)
    decreases maxDepth - |trace|, 0, 0
  {
    if kept[k].target !in Ids(kept, start, trace) {
      var longer := trace + [k];
      var below := Explore(kept, maxDepth, start, longer);
      var here: seq<Trace> := if |longer| >= 2 then [longer] else [];
      assert kept[longer[0]].source == start;
      ListedIsRendered(g, kept, maxDepth, start, longer);
      HereRendered(g, kept, start, longer, below);
      ChainAppended(g, kept, ExploreEach(kept, maxDepth, start, trace, front), here + below);
      assert ExploreEach(kept, maxDepth, start, trace, outs)
          == ExploreEach(kept, maxDepth, start, trace, front) + (here + below);
      assert Piece(g, kept, maxDepth, start, trace, k) == RenderAll(g, kept, here + below);
    }
  }

  lemma HereRendered(g: Scoring, kept: seq<Edge>, start: int, longer: Trace, below: seq<Trace>)
    requires Renderable(kept, below) && longer != [] && InRange(kept, longer) && kept[longer[0]].source == start
    ensures var here: seq<Trace> := if |longer| >= 2 then [longer] else [];
            Renderable(kept, here + below)
            && RenderAll(g, kept, here + below)
            == (if |longer| >= 2 then [Render(g, kept, start, longer)] else []) + RenderAll(g, kept, below)
  {
    if |longer| >= 2 {
      OneRendered(g, kept, start, longer);
      ChainAppended(g, kept, [longer], below);
    } else {
      assert [] + below == below;
    }
  }

  lemma OneRendered(g: Scoring, kept: seq<Edge>, start: int, longer: Trace)
    requires longer != [] && InRange(kept, longer) && kept[longer[0]].source == start
    ensures RenderAll(g, kept, [longer]) == [Render(g, kept, start, longer)]
  {
    assert [longer][..0] == [];
  }

  lemma Extended(g: Scoring, kept: seq<Edge>, start: int, trace: Trace, k: nat, longer: Trace)
    requires InRange(kept, trace) && k < |kept| && longer == trace + [k]
    ensures InRange(kept, longer)
    ensures Ids(kept, start, longer) == Ids(kept, start, trace) + [kept[k].target]
    ensures Types(kept, longer) == Types(kept, trace) + [kept[k].edgeType]
    ensures Score(g, kept, longer) == g.extend(Score(g, kept, trace), kept[k].weight)
    ensures Node(kept, start, longer) == kept[k].target
    ensures |Types(kept, longer)| == |longer|
    ensures longer[0] == if trace == [] then k else trace[0]
  {
    assert longer[..|trace|] == trace;
    TypesLength(kept, trace);
  }

  lemma TypesLength(kept: seq<Edge>, trace: Trace)
    requires InRange(kept, trace)
    ensures |Types(kept, trace)| == |trace|
  {
  }

  /** The closure of `find_paths`: the adjacency lists and the shared list that `walk` appends to. */
  class PathSearch {
    const g: Scoring
    const kept: seq<Edge>
    const graph: Graph
    const maxDepth: int
    var paths: seq<ChainPath>

    constructor (g: Scoring, kept: seq<Edge>, graph: Graph, maxDepth: int)
      ensures this.g == g && this.kept == kept && this.graph == graph && this.maxDepth == maxDepth && paths == []
    {
      this.g, this.kept, this.graph, this.maxDepth := g, kept, graph, maxDepth;
      paths := [];
    }

    /** `walk`: appends, in order, the chains that extend the current one. */
    method Walk(node: int, ids: seq<int>, types: seq<string>, score: real, ghost start: int, ghost trace: Trace)
      requires GraphOf(kept, graph) && Current(node, ids, types, score, start, trace)
      modifies this`paths
      ensures paths == old(paths) + Listed(g, kept, maxDepth, start, trace)
      decreases maxDepth - |trace|, 2
    {
      IdsLength(kept, start, trace);
      if |ids| >= maxDepth {
        return;
      }
      NodeEdges(kept, graph, node);
      FollowEach(EdgesAt(graph, node), node, ids, types, score, start, trace, Out(kept, node));
    }

    /** The loop of `walk` over the edges that leave the node. */
    method FollowEach(edges: seq<Edge>, node: int, ids: seq<int>, types: seq<string>, score: real,
                      ghost start: int, ghost trace: Trace, ghost outs: seq<nat>)
      requires GraphOf(kept, graph) && Current(node, ids, types, score, start, trace) && |trace| + 1 < maxDepth
      requires InRange(kept, outs) && |edges| == |outs|
      requires forall j | 0 <= j < |outs| :: edges[j] == kept[outs[j]] && edges[j].source == node
      modifies this`paths
      ensures paths == old(paths) + Through(g, kept, maxDepth, start, trace, outs)
      decreases maxDepth - |trace|, 1
    {
      for j := 0 to |edges|
        invariant paths == old(paths) + Through(g, kept, maxDepth, start, trace, outs[..j])
      {
        ThroughNext(g, kept, maxDepth, start, trace, outs, j);
        Follow(edges[j], node, ids, types, score, start, trace, outs[j]);
      }
      assert outs[..|outs|] == outs;
    }

    /** The arguments of `walk` describe the chain walked so far. */
    ghost predicate Current(node: int, ids: seq<int>, types: seq<string>, score: real, start: int, trace: Trace) {
      && InRange(kept, trace) && (trace != [] ==> kept[trace[0]].source == start)
      && node == Node(kept, start, trace) && ids == Ids(kept, start, trace)
      && types == Types(kept, trace) && score == Score(g, kept, trace)
    }

    /** The body of the loop in `walk`, for one outgoing edge. */
    method Follow(edge: Edge, node: int, ids: seq<int>, types: seq<string>, score: real,
                  ghost start: int, ghost trace: Trace, ghost k: nat)
      requires GraphOf(kept, graph) && Current(node, ids, types, score, start, trace)
      requires k < |kept| && edge == kept[k] && edge.source == node && |trace| + 1 < maxDepth
      modifies this`paths
      ensures paths == old(paths) + Piece(g, kept, maxDepth, start, trace, k)
      decreases maxDepth - |trace|, 0
    {
      if edge.target in ids {
        return;
      }
      ghost var longer := trace + [k];
      Extended(g, kept, start, trace, k, longer);
      var nextIds := ids + [edge.target];
      var nextTypes := types + [edge.edgeType];
      var nextScore := g.extend(score, edge.weight);
      if |nextTypes| >= 2 {
        paths := paths + [ChainPath(nextIds, nextTypes, g.rounded(nextScore))];
      }
      Walk(edge.target, nextIds, nextTypes, nextScore, start, longer);
    }
  }

  // ----- The whole method -----

  /** The distinct sources of the kept edges, in the order a dict would list them. */
  function Sources(kept: seq<Edge>): seq<int> {
    if kept == [] then []
    else
      var earlier := Sources(kept[..|kept| - 1]);
      var source := kept[|kept| - 1].source;
      if source in earlier then earlier else earlier + [source]
  }

  lemma SourcesDistinct(kept: seq<Edge>)
    ensures NoDup(Sources(kept))
    ensures forall node :: node in Sources(kept) <==> Out(kept, node) != []
  {
    if kept != [] {
      SourcesDistinct(kept[..|kept| - 1]);
    }
  }

  const IntLe: (int, int) -> bool := (a, b) => a <= b

  /** The ranking: best score first, then by finding ids. */
  predicate RanksBefore(a: ChainPath, b: ChainPath) {
    a.score > b.score || (a.score == b.score && LexLe(a.findingIds, b.findingIds, (x: int) => x))
  }

  const PathLe: (ChainPath, ChainPath) -> bool := (a, b) => RanksBefore(a, b)

  lemma PathLePreorder()
    ensures TotalPreorder(PathLe)
  {
    forall a, b ensures PathLe(a, b) || PathLe(b, a) { LexTotal(a.findingIds, b.findingIds, (x: int) => x); }
    forall a, b, c | PathLe(a, b) && PathLe(b, c) ensures PathLe(a, c) {
      if a.score == b.score == c.score {
        LexTransitive(a.findingIds, b.findingIds, c.findingIds, (x: int) => x);
      }
    }
  }

  /** All chains of the kept edges, each named once, source by source. */
  function AllChains(kept: seq<Edge>, maxDepth: int): seq<Trace> {
    ExploreAll(kept, maxDepth, Sort(Sources(kept), IntLe))
  }

  /** The search is sound and complete: its traces are exactly the chains of at least two edges that visit no
      finding twice and hold at most `maxDepth` findings, each once. */
  lemma AllChainsExact(kept: seq<Edge>, maxDepth: int)
    ensures NoDup(AllChains(kept, maxDepth))
    ensures forall t :: t in AllChains(kept, maxDepth) <==> Chain(kept, maxDepth, t)
    ensures Renderable(kept, AllChains(kept, maxDepth))
  {
    var sources := Sort(Sources(kept), IntLe);
    SourcesDistinct(kept);
    SortKeepsNoDup(Sources(kept), IntLe);
    MemberOfSort(Sources(kept), IntLe);
    ExploreAllExact(kept, maxDepth, sources);
    forall t | Chain(kept, maxDepth, t) ensures kept[t[0]].source in sources {
      OutComplete(kept, kept[t[0]].source);
    }
    var all := AllChains(kept, maxDepth);
    forall i | 0 <= i < |all| ensures all[i] != [] && InRange(kept, all[i]) {
      assert all[i] in all;
    }
  }

  lemma OutGrows(kept: seq<Edge>, edge: Edge, node: int)
    ensures Out(kept + [edge], node) == if node == edge.source then Out(kept, node) + [|kept|] else Out(kept, node)
  {
    assert (kept + [edge])[..|kept|] == kept;
  }

  lemma ListGrows(kept: seq<Edge>, graph: Graph, bigger: Graph, edge: Edge, node: int)
    requires GraphOf(kept, graph) && node in bigger
    requires bigger == graph[edge.source := (if edge.source in graph then graph[edge.source] else []) + [edge]]
    ensures ListOf(kept + [edge], bigger, node)
  {
    OutGrows(kept, edge, node);
    OutLeaves(kept, node);
    assert node !in graph ==> Out(kept, node) == [];
  }

  lemma GraphGrows(kept: seq<Edge>, graph: Graph, edge: Edge)
    requires GraphOf(kept, graph)
    ensures GraphOf(kept + [edge], graph[edge.source := (if edge.source in graph then graph[edge.source] else []) + [edge]])
    ensures Sources(kept + [edge]) == if edge.source in graph then Sources(kept) else Sources(kept) + [edge.source]
  {
    var bigger := graph[edge.source := (if edge.source in graph then graph[edge.source] else []) + [edge]];
    SourcesDistinct(kept);
    assert (kept + [edge])[..|kept|] == kept;
    forall node ensures node in bigger <==> Out(kept + [edge], node) != [] { OutGrows(kept, edge, node); }
    forall node | node in bigger
      ensures ListOf(kept + [edge], bigger, node)
    {
      ListGrows(kept, graph, bigger, edge, node);
    }
  }

  lemma KeptNext(edges: seq<Edge>, minWeight: real, i: nat)
    requires i < |edges|
    ensures Kept(edges[..i + 1], minWeight)
         == if edges[i].weight >= minWeight then Kept(edges[..i], minWeight) + [edges[i]] else Kept(edges[..i], minWeight)
  {
    assert edges[..i + 1][..i] == edges[..i];
  }

  /** Groups the kept edges by source, as the `defaultdict` loop does. */
  method BuildGraph(edges: seq<Edge>, minWeight: real) returns (kept: seq<Edge>, graph: Graph, sources: seq<int>)
    ensures kept == Kept(edges, minWeight) && GraphOf(kept, graph) && sources == Sources(kept)
  {
    kept, graph, sources := [], map[], [];
    for i := 0 to |edges|
      invariant kept == Kept(edges[..i], minWeight) && GraphOf(kept, graph) && sources == Sources(kept)
    {
      KeptNext(edges, minWeight, i);
      var edge := edges[i];
      if edge.weight >= minWeight {
        GraphGrows(kept, graph, edge);
        if edge.source !in graph {
          graph := graph[edge.source := []];
          sources := sources + [edge.source];
        }
        graph := graph[edge.source := graph[edge.source] + [edge]];
        kept := kept + [edge];
      }
    }
    assert edges[..|edges|] == edges;
  }

  datatype PathError = DepthTooSmall

  lemma {:induction false} ExploreAllRenderable(kept: seq<Edge>, maxDepth: int, sources: seq<int>)
    ensures Renderable(kept, ExploreAll(kept, maxDepth, sources))
  {
    if sources != [] {
      ExploreAllRenderable(kept, maxDepth, sources[..|sources| - 1]);
      ExploreRenderable(kept, maxDepth, sources[|sources| - 1], []);
    }
  }

  function FromSources(g: Scoring, kept: seq<Edge>, maxDepth: int, sources: seq<int>): seq<ChainPath> {
    ExploreAllRenderable(kept, maxDepth, sources);
    RenderAll(g, kept, ExploreAll(kept, maxDepth, sources))
  }

  lemma FromNextSource(g: Scoring, kept: seq<Edge>, maxDepth: int, sources: seq<int>, i: nat)
    requires i < |sources|
    ensures FromSources(g, kept, maxDepth, sources[..i + 1])
         == FromSources(g, kept, maxDepth, sources[..i]) + Listed(g, kept, maxDepth, sources[i], [])
  {
    assert sources[..i + 1][..i] == sources[..i];
    ExploreAllRenderable(kept, maxDepth, sources[..i]);
    ListedIsRendered(g, kept, maxDepth, sources[i], []);
    ChainAppended(g, kept, ExploreAll(kept, maxDepth, sources[..i]), Explore(kept, maxDepth, sources[i], []));
  }

  /** Every path spells a chain, and every chain is spelled by a path. */
  ghost predicate SpellChains(kept: seq<Edge>, maxDepth: int, paths: seq<ChainPath>) {
    && (forall p | p in paths :: SpellsSome(kept, maxDepth, p))
    && (forall trace | Chain(kept, maxDepth, trace) :: SpelledBySome(kept, maxDepth, trace, paths))
  }

  ghost predicate SpellsSome(kept: seq<Edge>, maxDepth: int, p: ChainPath) {
    exists trace :: Spells(kept, maxDepth, trace, p)
  }

  ghost predicate SpelledBySome(kept: seq<Edge>, maxDepth: int, trace: Trace, paths: seq<ChainPath>) {
    exists p | p in paths :: Spells(kept, maxDepth, trace, p)
  }

  lemma RenderedSpell(kept: seq<Edge>, maxDepth: int, traces: seq<Trace>, paths: seq<ChainPath>)
    requires Renderable(kept, traces) && |paths| == |traces|
    requires forall t :: t in traces <==> Chain(kept, maxDepth, t)
    requires forall i | 0 <= i < |traces| :: paths[i] == Render(MULTIPLICATIVE, kept, kept[traces[i][0]].source, traces[i])
    ensures SpellChains(kept, maxDepth, paths)
  {
    forall p | p in paths ensures SpellsSome(kept, maxDepth, p) {
      var i :| 0 <= i < |paths| && paths[i] == p;
      assert traces[i] in traces;
      RenderSpells(kept, maxDepth, traces[i]);
    }
    forall trace | Chain(kept, maxDepth, trace) ensures SpelledBySome(kept, maxDepth, trace, paths) {
      var i :| 0 <= i < |traces| && traces[i] == trace;
      RenderSpells(kept, maxDepth, trace);
      assert paths[i] in paths;
    }
  }

  /** The rendered paths are the chains, one each. */
  lemma AllSpell(kept: seq<Edge>, maxDepth: int)
    ensures Renderable(kept, AllChains(kept, maxDepth))
    ensures |RenderAll(MULTIPLICATIVE, kept, AllChains(kept, maxDepth))| == |AllChains(kept, maxDepth)|
    ensures SpellChains(kept, maxDepth, RenderAll(MULTIPLICATIVE, kept, AllChains(kept, maxDepth)))
  {
    AllChainsExact(kept, maxDepth);
    RenderedAt(MULTIPLICATIVE, kept, AllChains(kept, maxDepth));
    RenderedSpell(kept, maxDepth, AllChains(kept, maxDepth), RenderAll(MULTIPLICATIVE, kept, AllChains(kept, maxDepth)));
  }

  lemma SortedStillSpells(kept: seq<Edge>, maxDepth: int, paths: seq<ChainPath>)
    requires SpellChains(kept, maxDepth, paths)
    ensures SpellChains(kept, maxDepth, Sort(paths, PathLe))
  {
    PathLePreorder();
    MemberOfSort(paths, PathLe);
    forall trace | Chain(kept, maxDepth, trace) ensures SpelledBySome(kept, maxDepth, trace, Sort(paths, PathLe)) {
      assert SpelledBySome(kept, maxDepth, trace, paths);
      var p :| p in paths && Spells(kept, maxDepth, trace, p);
    }
  }

  /** `find_paths`: refused below depth two, else the ranked rendering of exactly the chains. */
  method FindPaths(edges: seq<Edge>, maxDepth: int, minWeight: real) returns (r: Result<seq<ChainPath>, PathError>)
    ensures r.Failure? <==> maxDepth < 2
    ensures Renderable(Kept(edges, minWeight), AllChains(Kept(edges, minWeight), maxDepth))
    ensures r.Success? ==> SortedBy(r.value, PathLe)
    ensures r.Success? ==>
      multiset(r.value) == multiset(RenderAll(MULTIPLICATIVE, Kept(edges, minWeight), AllChains(Kept(edges, minWeight), maxDepth)))
    ensures r.Success? ==> |r.value| == |AllChains(Kept(edges, minWeight), maxDepth)|
    ensures r.Success? ==> SpellChains(Kept(edges, minWeight), maxDepth, r.value)
  {
    AllChainsExact(Kept(edges, minWeight), maxDepth);
    if maxDepth < 2 {
      return Failure(DepthTooSmall);
    }
    var kept, graph, keys := BuildGraph(edges, minWeight);
    var search := new PathSearch(MULTIPLICATIVE, kept, graph, maxDepth);
    var sources := Sort(keys, IntLe);
    for i := 0 to |sources|
      invariant search.g == MULTIPLICATIVE && search.kept == kept && search.graph == graph
                && search.maxDepth == maxDepth
      invariant search.paths == FromSources(MULTIPLICATIVE, kept, maxDepth, sources[..i])
    {
      FromNextSource(MULTIPLICATIVE, kept, maxDepth, sources, i);
      search.Walk(sources[i], [sources[i]], [], 1.0, sources[i], []);
    }
    assert sources[..|sources|] == sources;
    PathLePreorder();
    SortSorts(search.paths, PathLe);
    AllSpell(kept, maxDepth);
    SortedStillSpells(kept, maxDepth, search.paths);
    return Success(Sort(search.paths, PathLe));
  }

  // ----- The edge filter -----

  /** A raw item that parsed into a valid edge, or did not. */
  type Item = Option<Edge>

  predicate Admissible(item: Item, known: set<int>) {
    item.Some? && item.value.source != item.value.target && item.value.source in known && item.value.target in known
  }

  function KeyOf(e: Edge): (int, int, string) {
    (e.source, e.target, e.edgeType)
  }

  /** The first admissible item with its key. */
  ghost predicate FirstOfKey(items: seq<Item>, known: set<int>, i: nat)
    requires i < |items|
  {
    && Admissible(items[i], known)
    && (forall j | 0 <= j < i && Admissible(items[j], known) :: KeyOf(items[j].value) != KeyOf(items[i].value))
  }

  /** An edge of the same source, target and type was taken. */
  ghost predicate SameEdge(result: seq<Edge>, e: Edge) {
    exists k | 0 <= k < |result| :: result[k].source == e.source && result[k].target == e.target && result[k].edgeType == e.edgeType
  }

  /** No edge leads a finding to itself or names an unknown one, and no two have the same source, target and type. */
  ghost predicate GoodEdges(result: seq<Edge>, known: set<int>) {
    && (forall k | 0 <= k < |result| :: result[k].source != result[k].target && result[k].source in known && result[k].target in known)
    && (forall k, m | 0 <= k < m < |result| ::
          result[k].source != result[m].source || result[k].target != result[m].target || result[k].edgeType != result[m].edgeType)
  }

  /** Every valid item among the first n is there, or another with its source, target and type. */
  ghost predicate Covered(items: seq<Item>, known: set<int>, n: int, result: seq<Edge>) {
    forall i | 0 <= i < |items| && i < n && items[i].Some? && items[i].value.source != items[i].value.target
        && items[i].value.source in known && items[i].value.target in known :: SameEdge(result, items[i].value)
  }

  ghost predicate Picked(items: seq<Item>, known: set<int>, picks: seq<nat>, result: seq<Edge>) {
    |result| == |picks| && forall k | 0 <= k < |picks| ::
      picks[k] < |items| && FirstOfKey(items, known, picks[k]) && items[picks[k]] == Some(result[k])
  }

  lemma PickedAreGood(items: seq<Item>, known: set<int>, picks: seq<nat>, result: seq<Edge>)
    requires Picked(items, known, picks, result) && forall k, m | 0 <= k < m < |picks| :: picks[k] < picks[m]
    ensures GoodEdges(result, known) && forall k, m | 0 <= k < m < |result| :: KeyOf(result[k]) != KeyOf(result[m])
  {
    forall k, m | 0 <= k < m < |result| ensures KeyOf(result[k]) != KeyOf(result[m]) {
      assert FirstOfKey(items, known, picks[k]) && FirstOfKey(items, known, picks[m]);
    }
  }

  lemma PickedCover(items: seq<Item>, known: set<int>, n: int, picks: seq<nat>, result: seq<Edge>)
    requires Picked(items, known, picks, result)
    requires forall i | 0 <= i < |items| && i < n && FirstOfKey(items, known, i) :: i in picks
    ensures Covered(items, known, n, result)
  {
    forall i | 0 <= i < |items| && i < n && Admissible(items[i], known) ensures SameEdge(result, items[i].value) {
      var j := FirstBefore(items, known, i);
      var k :| 0 <= k < |picks| && picks[k] == j;
      assert items[picks[k]] == Some(result[k]);
    }
  }

  /** Every admissible item up to here is preceded by, or is, the first of its key. */
  lemma {:induction false} FirstBefore(items: seq<Item>, known: set<int>, i: nat) returns (j: nat)
    requires i < |items| && Admissible(items[i], known)
    ensures j <= i && FirstOfKey(items, known, j) && KeyOf(items[j].value) == KeyOf(items[i].value)
  {
    j := i;
    if !FirstOfKey(items, known, i) {
      var k :| 0 <= k < i && Admissible(items[k], known) && KeyOf(items[k].value) == KeyOf(items[i].value);
      j := FirstBefore(items, known, k);
    }
  }

  /** The keys of the admissible items among the first n. */
  ghost predicate SeenAre(items: seq<Item>, known: set<int>, n: nat, seen: set<(int, int, string)>)
    requires n <= |items|
  {
    forall key :: key in seen <==> exists j | 0 <= j < n :: Admissible(items[j], known) && KeyOf(items[j].value) == key
  }

  lemma SeenNext(items: seq<Item>, known: set<int>, n: nat, seen: set<(int, int, string)>)
    requires n < |items| && SeenAre(items, known, n, seen)
    ensures SeenAre(items, known, n + 1, if Admissible(items[n], known) then seen + {KeyOf(items[n].value)} else seen)
    ensures FirstOfKey(items, known, n) <==> Admissible(items[n], known) && KeyOf(items[n].value) !in seen
  {
    var more := if Admissible(items[n], known) then seen + {KeyOf(items[n].value)} else seen;
    forall key
      ensures key in more <==> exists j | 0 <= j < n + 1 :: Admissible(items[j], known) && KeyOf(items[j].value) == key
    {
      if key in seen {
        var j :| 0 <= j < n && Admissible(items[j], known) && KeyOf(items[j].value) == key;
      }
    }
  }

  /** The first items of their keys among the first n are all picked, in order. */
  ghost predicate PickedUpTo(items: seq<Item>, known: set<int>, n: nat, picks: seq<nat>)
    requires n <= |items|
  {
    && (forall i | 0 <= i < n && FirstOfKey(items, known, i) :: i in picks)
    && (forall k | 0 <= k < |picks| :: picks[k] < n)
    && (forall k, m | 0 <= k < m < |picks| :: picks[k] < picks[m])
  }

  lemma PickNext(items: seq<Item>, known: set<int>, n: nat, picks: seq<nat>, result: seq<Edge>)
    requires n < |items| && PickedUpTo(items, known, n, picks) && Picked(items, known, picks, result)
    ensures !FirstOfKey(items, known, n) ==> PickedUpTo(items, known, n + 1, picks)
    ensures FirstOfKey(items, known, n) ==>
              PickedUpTo(items, known, n + 1, picks + [n]) && Picked(items, known, picks + [n], result + [items[n].value])
  {
    forall i | 0 <= i < n + 1 && FirstOfKey(items, known, i) ensures i in picks + [n] {
      assert i == n ==> (picks + [n])[|picks|] == i;
    }
  }

  /** `_normalize`: of the first `2 * maxEdges` items, the first admissible one of each key, in order, until
      `maxEdges` are taken.  `picks` are the positions taken. */
  method Normalize(items: seq<Item>, known: set<int>, maxEdges: nat) returns (result: seq<Edge>, ghost picks: seq<nat>)
    requires maxEdges >= 1
    ensures |result| <= maxEdges && Picked(items, known, picks, result)
    ensures (forall k | 0 <= k < |picks| :: picks[k] < 2 * maxEdges) && forall k, m | 0 <= k < m < |picks| :: picks[k] < picks[m]
    ensures GoodEdges(result, known)
    ensures |result| < maxEdges ==> Covered(items, known, 2 * maxEdges, result)
    ensures forall i | 0 <= i < |items| && i < 2 * maxEdges && FirstOfKey(items, known, i) ::
              i in picks || (|result| == maxEdges && picks[|picks| - 1] < i)
  {
    result, picks := [], [];
    var seen: set<(int, int, string)> := {};
    var limit := if |items| < 2 * maxEdges then |items| else 2 * maxEdges;
    ghost var done := 0;
    for i := 0 to limit
      invariant done == i && |result| < maxEdges
      invariant Picked(items, known, picks, result) && PickedUpTo(items, known, i, picks)
                && SeenAre(items, known, i, seen)
    {
      SeenNext(items, known, i, seen);
      PickNext(items, known, i, picks, result);
      done := i + 1;
      if Admissible(items[i], known) {
        var edge := items[i].value;
        if KeyOf(edge) !in seen {
          seen := seen + {KeyOf(edge)};
          result := result + [edge];
          picks := picks + [i];
          if |result| >= maxEdges {
            assert picks[|picks| - 1] == i;
            break;
          }
        }
      }
    }
    PickedAreGood(items, known, picks, result);
    if |result| < maxEdges { PickedCover(items, known, 2 * maxEdges, picks, result); }
  }
}
