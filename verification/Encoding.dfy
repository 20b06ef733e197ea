/** The assumptions on hashes and compression can be met: numbers that encode pairs, sequences and records injectively. */
module Encoding {
  import opened Wrappers
  import Merkle
  import EvidenceStore
  import AuditLog

  /** Cantor's pairing. */
  function Cantor(a: nat, b: nat): nat {
    (a + b) * (a + b + 1) / 2 + b
  }

  lemma {:induction false} Triangle(n: nat, m: nat)
    requires n < m
    ensures n * (n + 1) / 2 + n < m * (m + 1) / 2
    decreases m - n
  {
    assert (n + 1) * (n + 2) == n * (n + 1) + 2 * (n + 1);
    if n + 1 < m {
      Triangle(n + 1, m);
    }
  }

  lemma CantorInjective(a: nat, b: nat, c: nat, d: nat)
    requires Cantor(a, b) == Cantor(c, d)
    ensures a == c && b == d
  {
    if a + b < c + d { Triangle(a + b, c + d); }
    if c + d < a + b { Triangle(c + d, a + b); }
  }

  ghost predicate Injective<T(!new)>(code: T -> nat) {
    forall a, b :: code(a) == code(b) ==> a == b
  }

  function SeqCode<T>(s: seq<T>, code: T -> nat): nat {
    if s == [] then 0 else 1 + Cantor(code(s[0]), SeqCode(s[1..], code))
  }

  lemma {:induction false} SeqCodeInjective<T(!new)>(s: seq<T>, t: seq<T>, code: T -> nat)
    requires Injective(code) && SeqCode(s, code) == SeqCode(t, code)
    ensures s == t
  {
    if s != [] && t != [] {
      CantorInjective(code(s[0]), SeqCode(s[1..], code), code(t[0]), SeqCode(t[1..], code));
      SeqCodeInjective(s[1..], t[1..], code);
      assert s == [s[0]] + s[1..] && t == [t[0]] + t[1..];
    }
  }

  const BYTE: bv8 -> nat := b => b as nat
  const CHAR: char -> nat := c => c as nat
  const PAIR: Merkle.PairHash := (a, b) => Cantor(a, b)

  lemma BytesInjective()
    ensures Injective(BYTE)
  {
    forall a, b | BYTE(a) == BYTE(b) ensures a == b {
      assert (a as nat) as bv8 == a && (b as nat) as bv8 == b;
    }
  }

  lemma PairingExists()
    ensures Merkle.CollisionFree(PAIR)
  {
    forall a: nat, b: nat, c: nat, d: nat | PAIR(a, b) == PAIR(c, d) ensures a == c && b == d {
      CantorInjective(a, b, c, d);
    }
  }

  /** An injective hash of bytes, a lossless compression and a collision-free pair hash exist together. */
  lemma StoreIdealExists()
    ensures exists c: EvidenceStore.Crypto :: EvidenceStore.Ideal(c)
  {
    var c := EvidenceStore.Crypto(s => SeqCode(s, BYTE), s => s, s => Some(s), PAIR);
    BytesInjective();
    PairingExists();
    forall a: EvidenceStore.Bytes, b: EvidenceStore.Bytes | c.sha(a) == c.sha(b) ensures a == b {
      SeqCodeInjective(a, b, BYTE);
    }
    assert EvidenceStore.Ideal(c);
  }

  function IntCode(i: int): nat {
    if i >= 0 then 2 * i else -2 * i - 1
  }

  function PrevCode(prev: Option<AuditLog.Hash>): nat {
    if prev.None? then 0 else 1 + prev.value
  }

  function RecordCode<D>(r: AuditLog.Record<D>, code: D -> nat): nat {
    Cantor(IntCode(r.time), Cantor(SeqCode(r.event, CHAR), Cantor(code(r.data), PrevCode(r.prev))))
  }

  lemma RecordCodeInjective<D(!new)>(r: AuditLog.Record<D>, t: AuditLog.Record<D>, code: D -> nat)
    requires Injective(code) && RecordCode(r, code) == RecordCode(t, code)
    ensures r == t
  {
    var rest, tail := Cantor(code(r.data), PrevCode(r.prev)), Cantor(code(t.data), PrevCode(t.prev));
    CantorInjective(IntCode(r.time), Cantor(SeqCode(r.event, CHAR), rest), IntCode(t.time), Cantor(SeqCode(t.event, CHAR), tail));
    CantorInjective(SeqCode(r.event, CHAR), rest, SeqCode(t.event, CHAR), tail);
    CantorInjective(code(r.data), PrevCode(r.prev), code(t.data), PrevCode(t.prev));
    SeqCodeInjective(r.event, t.event, CHAR);
  }

  /** For records whose data can be written as text, or any other data that can be numbered, a digest as the audit log
      needs it exists. */
  lemma LogIdealExists<D(!new)>(code: D -> nat)
    requires Injective(code)
    ensures exists h: AuditLog.Digest<D> :: AuditLog.Ideal(h)
  {
    var h: AuditLog.Digest<D> := (prev, record) => 1 + Cantor(prev, RecordCode(record, code));
    forall p, r, q, t | h(p, r) == h(q, t) ensures p == q && r == t {
      CantorInjective(p, RecordCode(r, code), q, RecordCode(t, code));
      RecordCodeInjective(r, t, code);
    }
    assert AuditLog.Ideal(h);
  }

  lemma TextLogIdealExists()
    ensures exists h: AuditLog.Digest<string> :: AuditLog.Ideal(h)
  {
    var code: string -> nat := s => SeqCode(s, CHAR);
    forall a, b | code(a) == code(b) ensures a == b { SeqCodeInjective(a, b, CHAR); }
    LogIdealExists(code);
  }
}
