/** The Merkle root over a scan's evidence hashes (`_merkle_root` in app/evidence/raw_store.py).

    A digest is an unbounded number, ordered as its hex text is, and the pair hash is any injective
    function: SHA-256 with collisions ruled out.  A bounded digest type would make that assumption empty. */
module Merkle {
  import opened Sorting

  type Digest = nat
  type PairHash = (Digest, Digest) -> Digest

  ghost predicate CollisionFree(h: PairHash) {
    forall a, b, c, d :: h(a, b) == h(c, d) ==> a == c && b == d
  }

  const DigestLe: (Digest, Digest) -> bool := (a, b) => a <= b

  lemma DigestLeTotalOrder()
    ensures TotalOrder(DigestLe)
  {
  }

  /** An odd layer repeats its last node. */
  function Padded(nodes: seq<Digest>): seq<Digest> {
    if |nodes| % 2 == 1 then nodes + [nodes[|nodes| - 1]] else nodes
  }

  function Layer(nodes: seq<Digest>, h: PairHash): (up: seq<Digest>)
    ensures |up| == (|nodes| + 1) / 2
  {
    var padded := Padded(nodes);
    seq(|padded| / 2, i requires 0 <= i < |padded| / 2 => h(padded[2 * i], padded[2 * i + 1]))
  }

  /** The top of the layers above a nonempty list of nodes. */
  function Top(nodes: seq<Digest>, h: PairHash): Digest
    requires nodes != []
    decreases |nodes|
  {
    if |nodes| == 1 then nodes[0] else Top(Layer(nodes, h), h)
  }

  function Root(leaves: seq<Digest>, h: PairHash, empty: Digest): Digest {
    if leaves == [] then empty
    else
      SortSorts(leaves, DigestLe);
      Top(Sort(leaves, DigestLe), h)
  }

  /** One pass of the loop: pad, then hash neighbours. */
  method NextLayer(nodes: seq<Digest>, h: PairHash) returns (next: seq<Digest>)
    ensures next == Layer(nodes, h)
  {
    var padded := nodes;
    if |nodes| % 2 == 1 {
      padded := nodes + [nodes[|nodes| - 1]];
    }
    next := [];
    for index := 0 to |padded| / 2
      invariant |next| == index
      invariant forall i | 0 <= i < index :: next[i] == h(padded[2 * i], padded[2 * i + 1])
    {
      next := next + [h(padded[2 * index], padded[2 * index + 1])];
    }
  }

  /** `_merkle_root`: the layer loop terminates and computes the top of the sorted leaves. */
  method MerkleRoot(leaves: seq<Digest>, h: PairHash, empty: Digest) returns (root: Digest)
    ensures root == Root(leaves, h, empty)
  {
    var nodes := Sort(leaves, DigestLe);
    SortSorts(leaves, DigestLe);
    if nodes == [] {
      return empty;
    }
    while |nodes| > 1
      invariant nodes != []
      invariant Top(nodes, h) == Root(leaves, h, empty)
      decreases |nodes|
    {
      nodes := NextLayer(nodes, h);
    }
    return nodes[0];
  }

  lemma LayerInjective(a: seq<Digest>, b: seq<Digest>, h: PairHash)
    requires CollisionFree(h) && |a| == |b| && Layer(a, h) == Layer(b, h)
    ensures a == b
  {
    var pa, pb := Padded(a), Padded(b);
    forall k | 0 <= k < |a| ensures a[k] == b[k] {
      assert Layer(a, h)[k / 2] == h(pa[2 * (k / 2)], pa[2 * (k / 2) + 1]);
      assert Layer(b, h)[k / 2] == h(pb[2 * (k / 2)], pb[2 * (k / 2) + 1]);
      assert k == 2 * (k / 2) || k == 2 * (k / 2) + 1;
    }
  }

  lemma {:induction false} TopInjective(a: seq<Digest>, b: seq<Digest>, h: PairHash)
    requires CollisionFree(h) && a != [] && |a| == |b| && Top(a, h) == Top(b, h)
    ensures a == b
    decreases |a|
  {
    if |a| > 1 {
      TopInjective(Layer(a, h), Layer(b, h), h);
      LayerInjective(a, b, h);
    }
  }

  /** For lists of the same length the root is the same exactly when the leaves are the same up to order. */
  lemma RootFixesLeaves(a: seq<Digest>, b: seq<Digest>, h: PairHash, empty: Digest)
    requires CollisionFree(h) && |a| == |b|
    ensures Root(a, h, empty) == Root(b, h, empty) <==> multiset(a) == multiset(b)
  {
    DigestLeTotalOrder();
    SortSorts(a, DigestLe);
    SortSorts(b, DigestLe);
    if multiset(a) == multiset(b) {
      SortIgnoresOrder(a, b, DigestLe);
    }
    if a != [] && Root(a, h, empty) == Root(b, h, empty) {
      TopInjective(Sort(a, DigestLe), Sort(b, DigestLe), h);
    }
  }

  lemma SortedRoot(leaves: seq<Digest>, h: PairHash, empty: Digest)
    requires leaves != [] && SortedBy(leaves, DigestLe)
    ensures Root(leaves, h, empty) == Top(leaves, h)
  {
    SortOfSorted(leaves, DigestLe);
  }

  /** The length has to be compared too: repeating the greatest of three leaves leaves the root unchanged. */
  lemma RootAloneIsNotEnough(a: Digest, b: Digest, c: Digest, h: PairHash, empty: Digest)
    requires a <= b <= c
    ensures Root([a, b, c], h, empty) == Root([a, b, c, c], h, empty)
  {
    SortedRoot([a, b, c], h, empty);
    SortedRoot([a, b, c, c], h, empty);
    assert Padded([a, b, c]) == [a, b, c, c];
    assert Layer([a, b, c], h) == Layer([a, b, c, c], h);
  }
}
