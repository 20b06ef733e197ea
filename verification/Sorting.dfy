/** What Python's `sorted` promises: a stable rearrangement in non-decreasing key order. */
module Sorting {

  ghost predicate TotalPreorder<T(!new)>(le: (T, T) -> bool) {
    && (forall x, y :: le(x, y) || le(y, x))
    && (forall x, y, z :: le(x, y) && le(y, z) ==> le(x, z))
  }

  ghost predicate TotalOrder<T(!new)>(le: (T, T) -> bool) {
    && TotalPreorder(le)
    && (forall x, y :: le(x, y) && le(y, x) ==> x == y)
  }

  ghost predicate SortedBy<T>(s: seq<T>, le: (T, T) -> bool) {
    forall i, j | 0 <= i < j < |s| :: le(s[i], s[j])
  }

  function Insert<T>(x: T, s: seq<T>, le: (T, T) -> bool): seq<T> {
    if s == [] then [x]
    else if le(x, s[0]) then [x] + s
    else [s[0]] + Insert(x, s[1..], le)
  }

  function Sort<T>(s: seq<T>, le: (T, T) -> bool): seq<T> {
    if s == [] then [] else Insert(s[0], Sort(s[1..], le), le)
  }

  lemma {:induction false} InsertBag<T>(x: T, s: seq<T>, le: (T, T) -> bool)
    ensures multiset(Insert(x, s, le)) == multiset(s) + multiset{x}
  {
    if s != [] {
      assert s == [s[0]] + s[1..];
      InsertBag(x, s[1..], le);
    }
  }

  lemma {:induction false} InsertSorted<T(!new)>(x: T, s: seq<T>, le: (T, T) -> bool)
    requires TotalPreorder(le) && SortedBy(s, le)
    ensures SortedBy(Insert(x, s, le), le)
  {
    if s != [] && !le(x, s[0]) {
      var rest := Insert(x, s[1..], le);
      InsertSorted(x, s[1..], le);
      InsertBag(x, s[1..], le);
      forall k | 0 <= k < |rest| ensures le(s[0], rest[k]) {
        assert rest[k] in multiset(rest);
        assert rest[k] == x || rest[k] in s[1..];
      }
    }
  }

  /** Sorting rearranges its input into non-decreasing order. */
  lemma {:induction false} SortSorts<T(!new)>(s: seq<T>, le: (T, T) -> bool)
    requires TotalPreorder(le)
    ensures SortedBy(Sort(s, le), le)
    ensures multiset(Sort(s, le)) == multiset(s)
    ensures |Sort(s, le)| == |s|
  {
    if s != [] {
      SortSorts(s[1..], le);
      InsertSorted(s[0], Sort(s[1..], le), le);
      InsertBag(s[0], Sort(s[1..], le), le);
      assert s == [s[0]] + s[1..];
      assert |multiset(Sort(s, le))| == |multiset(s)|;
    }
  }

  /** Under a total order there is only one sorted arrangement of a multiset. */
  lemma {:induction false} SortedUnique<T(!new)>(s: seq<T>, t: seq<T>, le: (T, T) -> bool)
    requires TotalOrder(le) && SortedBy(s, le) && SortedBy(t, le)
    requires multiset(s) == multiset(t)
    ensures s == t
  {
    assert |multiset(s)| == |s| && |multiset(t)| == |t|;
    if s != [] {
      SameHead(s, t, le);
      RestSorted(s, le);
      RestSorted(t, le);
      SortedUnique(s[1..], t[1..], le);
      ConsEqual(s, t);
    }
  }

  lemma SameHead<T(!new)>(s: seq<T>, t: seq<T>, le: (T, T) -> bool)
    requires TotalOrder(le) && SortedBy(s, le) && SortedBy(t, le) && s != [] && t != []
    requires multiset(s) == multiset(t)
    ensures s[0] == t[0]
  {
    assert s[0] in multiset(t) && t[0] in multiset(s);
    var i :| 0 <= i < |t| && t[i] == s[0];
    var j :| 0 <= j < |s| && s[j] == t[0];
    assert le(t[0], t[0]) && le(s[0], s[0]);
    assert le(t[0], s[0]) && le(s[0], t[0]);
  }

  lemma RestSorted<T>(s: seq<T>, le: (T, T) -> bool)
    requires s != [] && SortedBy(s, le)
    ensures SortedBy(s[1..], le) && multiset(s[1..]) == multiset(s) - multiset{s[0]}
  {
    assert s == [s[0]] + s[1..];
  }

  lemma ConsEqual<T>(s: seq<T>, t: seq<T>)
    requires s != [] && t != [] && s[0] == t[0] && s[1..] == t[1..]
    ensures s == t
  {
    assert s == [s[0]] + s[1..] && t == [t[0]] + t[1..];
  }

  /** The order in which the items arrive does not change the sorted list. */
  lemma SortIgnoresOrder<T(!new)>(s: seq<T>, t: seq<T>, le: (T, T) -> bool)
    requires TotalOrder(le) && multiset(s) == multiset(t)
    ensures Sort(s, le) == Sort(t, le)
  {
    SortSorts(s, le);
    SortSorts(t, le);
    SortedUnique(Sort(s, le), Sort(t, le), le);
  }

  /** The elements of a kind, in order. */
  function Only<T>(s: seq<T>, kind: T -> bool): seq<T> {
    if s == [] then [] else if kind(s[0]) then [s[0]] + Only(s[1..], kind) else Only(s[1..], kind)
  }

  lemma {:induction false} InsertStable<T(!new)>(x: T, s: seq<T>, le: (T, T) -> bool, kind: T -> bool)
    requires forall y, z | kind(y) && kind(z) :: le(y, z)
    ensures Only(Insert(x, s, le), kind) == if kind(x) then [x] + Only(s, kind) else Only(s, kind)
  {
    if s != [] {
      if le(x, s[0]) {
        assert ([x] + s)[1..] == s;
      } else {
        InsertStable(x, s[1..], le, kind);
        assert ([s[0]] + Insert(x, s[1..], le))[1..] == Insert(x, s[1..], le);
      }
    }
  }

  /** Sorting is stable: elements that compare equal keep their order. */
  lemma {:induction false} SortStable<T(!new)>(s: seq<T>, le: (T, T) -> bool, kind: T -> bool)
    requires forall y, z | kind(y) && kind(z) :: le(y, z)
    ensures Only(Sort(s, le), kind) == Only(s, kind)
  {
    if s != [] {
      SortStable(s[1..], le, kind);
      InsertStable(s[0], Sort(s[1..], le), le, kind);
    }
  }

  lemma {:induction false} OnlyLast<T>(s: seq<T>, kind: T -> bool, i: nat)
    requires i < |s| && kind(s[i]) && forall j | i < j < |s| :: !kind(s[j])
    ensures Only(s, kind) != [] && Only(s, kind)[|Only(s, kind)| - 1] == s[i]
  {
    if i > 0 {
      OnlyLast(s[1..], kind, i - 1);
    } else {
      NoneOnly(s[1..], kind);
    }
  }

  lemma {:induction false} NoneOnly<T>(s: seq<T>, kind: T -> bool)
    requires forall x | x in s :: !kind(x)
    ensures Only(s, kind) == []
  {
    if s != [] { NoneOnly(s[1..], kind); }
  }

  /** What is already in order stays as it is, equal keys included. */
  lemma {:induction false} SortOfSorted<T(!new)>(s: seq<T>, le: (T, T) -> bool)
    requires SortedBy(s, le)
    ensures Sort(s, le) == s
  {
    if s != [] {
      assert SortedBy(s[1..], le);
      SortOfSorted(s[1..], le);
      assert s == [s[0]] + s[1..];
      if |s| > 1 { assert le(s[0], s[1]); }
    }
  }

  lemma MemberOfSort<T(!new)>(s: seq<T>, le: (T, T) -> bool)
    requires TotalPreorder(le)
    ensures forall x :: x in Sort(s, le) <==> x in s
  {
    SortSorts(s, le);
    forall x ensures x in Sort(s, le) <==> x in s {
      assert x in Sort(s, le) <==> x in multiset(Sort(s, le));
      assert x in s <==> x in multiset(s);
    }
  }

  ghost predicate NoDup<T>(s: seq<T>) {
    forall i, j | 0 <= i < j < |s| :: s[i] != s[j]
  }

  lemma NoDupConcat<T>(a: seq<T>, b: seq<T>)
    requires NoDup(a) && NoDup(b) && forall x | x in a :: x !in b
    ensures NoDup(a + b)
  {
    var c := a + b;
    forall i, j | 0 <= i < j < |c| ensures c[i] != c[j] {
      if i < |a| && j >= |a| { assert a[i] !in b && c[j] == b[j - |a|]; }
    }
  }

  lemma {:induction false} NoDupCounts<T>(s: seq<T>)
    requires NoDup(s)
    ensures forall x | x in multiset(s) :: multiset(s)[x] == 1
  {
    if s != [] {
      assert s == [s[0]] + s[1..];
      assert s[0] !in s[1..];
      NoDupCounts(s[1..]);
    }
  }

  lemma CountsNoDup<T>(s: seq<T>)
    requires forall x | x in multiset(s) :: multiset(s)[x] == 1
    ensures NoDup(s)
  {
    forall i, j | 0 <= i < j < |s| && s[i] == s[j] ensures multiset(s)[s[j]] >= 2 {
      RepeatCounted(s, i, j);
    }
  }

  lemma RepeatCounted<T>(s: seq<T>, i: nat, j: nat)
    requires i < j < |s| && s[i] == s[j]
    ensures multiset(s)[s[j]] >= 2
  {
    assert s == s[..j] + [s[j]] + s[j + 1..];
    assert s[i] == s[..j][i];
    assert s[j] in multiset(s[..j]);
  }

  /** Sorting keeps a duplicate-free list duplicate-free. */
  lemma SortKeepsNoDup<T(!new)>(s: seq<T>, le: (T, T) -> bool)
    requires TotalPreorder(le)
    ensures NoDup(Sort(s, le)) <==> NoDup(s)
  {
    SortSorts(s, le);
    if NoDup(s) {
      NoDupCounts(s);
      CountsNoDup(Sort(s, le));
    }
    if NoDup(Sort(s, le)) {
      NoDupCounts(Sort(s, le));
      CountsNoDup(s);
    }
  }

  function Mapped<T, U>(s: seq<T>, f: T -> U): seq<U> {
    seq(|s|, i requires 0 <= i < |s| => f(s[i]))
  }

  lemma MappedLast<T, U>(s: seq<T>, x: T, f: T -> U)
    ensures multiset(Mapped(s + [x], f)) == multiset(Mapped(s, f)) + multiset{f(x)}
  {
    assert Mapped(s + [x], f) == Mapped(s, f) + [f(x)];
  }

  lemma MappedParts<T, U>(s: seq<T>, i: nat, f: T -> U)
    requires i < |s|
    ensures multiset(s) == multiset{s[i]} + multiset(s[..i] + s[i + 1..])
    ensures multiset(Mapped(s, f)) == multiset{f(s[i])} + multiset(Mapped(s[..i] + s[i + 1..], f))
  {
    var m := Mapped(s, f);
    assert s == s[..i] + [s[i]] + s[i + 1..];
    assert m == m[..i] + [m[i]] + m[i + 1..];
    assert Mapped(s[..i] + s[i + 1..], f) == m[..i] + m[i + 1..];
  }

  /** Lists with the same members have the same images. */
  lemma {:induction false} MappedBag<T, U>(s: seq<T>, t: seq<T>, f: T -> U)
    requires multiset(s) == multiset(t)
    ensures multiset(Mapped(s, f)) == multiset(Mapped(t, f))
    decreases |s|
  {
    assert |multiset(s)| == |s| && |multiset(t)| == |t|;
    if s != [] {
      assert s[0] in multiset(t);
      var i :| 0 <= i < |t| && t[i] == s[0];
      MappedParts(s, 0, f);
      MappedParts(t, i, f);
      var rest, others := s[..0] + s[1..], t[..i] + t[i + 1..];
      assert multiset(rest) == multiset(s) - multiset{s[0]} == multiset(others);
      MappedBag(rest, others, f);
    }
  }

  /** Python compares strings and tuples position by position; a proper prefix comes first. */
  predicate LexLe<T>(a: seq<T>, b: seq<T>, rank: T -> int) {
    if a == [] then true
    else if b == [] then false
    else if rank(a[0]) != rank(b[0]) then rank(a[0]) < rank(b[0])
    else LexLe(a[1..], b[1..], rank)
  }

  /** So a comes first when b starts with it, or when it is lower where they first differ. */
  lemma {:induction false} LexMeans<T>(a: seq<T>, b: seq<T>, rank: T -> int)
    requires forall x, y | (x in a || x in b) && (y in a || y in b) && rank(x) == rank(y) :: x == y
    ensures LexLe(a, b, rank) <==> a <= b || exists i: nat :: Differ(a, b, i) && rank(a[i]) < rank(b[i])
  {
    if a != [] && b != [] && rank(a[0]) == rank(b[0]) {
      LexMeans(a[1..], b[1..], rank);
      assert a == [a[0]] + a[1..] && b == [b[0]] + b[1..];
      forall i: nat ensures Differ(a[1..], b[1..], i) <==> Differ(a, b, i + 1) { DifferNext(a, b, i); }
      if i: nat :| Differ(a, b, i) && rank(a[i]) < rank(b[i]) { assert Differ(a[1..], b[1..], i - 1); }
    } else if a != [] && b != [] {
      assert Differ(a, b, 0);
    }
  }

  ghost predicate Differ<T>(a: seq<T>, b: seq<T>, i: nat) {
    i < |a| && i < |b| && a[i] != b[i] && forall j | 0 <= j < i :: a[j] == b[j]
  }

  lemma DifferNext<T>(a: seq<T>, b: seq<T>, i: nat)
    requires a != [] && b != [] && a[0] == b[0]
    ensures Differ(a[1..], b[1..], i) <==> Differ(a, b, i + 1)
  {
    if Differ(a[1..], b[1..], i) {
      forall j | 0 <= j < i + 1 ensures a[j] == b[j] { assert j > 0 ==> a[1..][j - 1] == b[1..][j - 1]; }
    }
    if Differ(a, b, i + 1) {
      assert forall j | 0 <= j < i :: a[1..][j] == a[j + 1] && b[1..][j] == b[j + 1];
    }
  }

  ghost predicate InjectiveRank<T(!new)>(rank: T -> int) {
    forall x, y :: rank(x) == rank(y) ==> x == y
  }

  lemma {:induction false} LexTotal<T>(a: seq<T>, b: seq<T>, rank: T -> int)
    ensures LexLe(a, b, rank) || LexLe(b, a, rank)
  {
    if a != [] && b != [] && rank(a[0]) == rank(b[0]) {
      LexTotal(a[1..], b[1..], rank);
    }
  }

  lemma {:induction false} LexTransitive<T>(a: seq<T>, b: seq<T>, c: seq<T>, rank: T -> int)
    requires LexLe(a, b, rank) && LexLe(b, c, rank)
    ensures LexLe(a, c, rank)
  {
    if a != [] && rank(a[0]) == rank(b[0]) && rank(b[0]) == rank(c[0]) {
      LexTransitive(a[1..], b[1..], c[1..], rank);
    }
  }

  lemma {:induction false} LexAntisymmetric<T(!new)>(a: seq<T>, b: seq<T>, rank: T -> int)
    requires InjectiveRank(rank)
    requires LexLe(a, b, rank) && LexLe(b, a, rank)
    ensures a == b
  {
    if a != [] {
      LexAntisymmetric(a[1..], b[1..], rank);
      assert a == [a[0]] + a[1..] && b == [b[0]] + b[1..];
    }
  }

  lemma LexTotalOrder<T(!new)>(rank: T -> int)
    requires InjectiveRank(rank)
    ensures TotalOrder((a: seq<T>, b: seq<T>) => LexLe(a, b, rank))
  {
    forall a: seq<T>, b: seq<T> ensures LexLe(a, b, rank) || LexLe(b, a, rank) {
      LexTotal(a, b, rank);
    }
    forall a: seq<T>, b: seq<T>, c: seq<T> | LexLe(a, b, rank) && LexLe(b, c, rank) ensures LexLe(a, c, rank) {
      LexTransitive(a, b, c, rank);
    }
    forall a: seq<T>, b: seq<T> | LexLe(a, b, rank) && LexLe(b, a, rank) ensures a == b {
      LexAntisymmetric(a, b, rank);
    }
  }

  const StringLe: (string, string) -> bool := (a, b) => LexLe(a, b, (c: char) => c as int)

  lemma StringLeTotalOrder()
    ensures TotalOrder(StringLe)
  {
    var rank := (c: char) => c as int;
    LexTotalOrder(rank);
    forall a, b ensures StringLe(a, b) || StringLe(b, a) { LexTotal(a, b, (c: char) => c as int); }
    forall a, b, c | StringLe(a, b) && StringLe(b, c)
      ensures StringLe(a, c)
    {
      LexTransitive(a, b, c, (c: char) => c as int);
    }
    forall a, b | StringLe(a, b) && StringLe(b, a) ensures a == b { LexAntisymmetric(a, b, (c: char) => c as int); }
  }
}
