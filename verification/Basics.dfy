/** Small things every part of the model uses. */
module Basics {

  datatype Option<T> = None | Some(value: T)

  type Byte = bv8

  const U32: nat := 0x1_0000_0000

  function Bit(c: bool): nat {
    if c then 1 else 0
  }

  ghost predicate Distinct(q: seq<nat>) {
    forall i, j :: 0 <= i < j < |q| ==> q[i] != q[j]
  }

  lemma {:induction false} FreshId(keys: set<nat>) returns (id: nat)
    ensures forall b :: b in keys ==> b < id
  {
    id := 0;
    var rest := keys;
    while rest != {}
      invariant rest <= keys
      invariant forall b :: b in keys && b !in rest ==> b < id
    {
      var b :| b in rest;
      rest := rest - {b};
      if b >= id { id := b + 1; }
    }
  }
}

/** Lists of waiting threads, and how often something happened to a thread. */
module Queues {
  import opened Basics

  function Without(q: seq<nat>, w: nat): seq<nat> {
    if q == [] then [] else if q[0] == w then q[1..] else [q[0]] + Without(q[1..], w)
  }

  lemma {:induction false} WithoutOk(q: seq<nat>, w: nat)
    requires Distinct(q)
    ensures Distinct(Without(q, w))
    ensures forall t :: t in Without(q, w) <==> t in q && t != w
  {
    if q != [] {
      var rest := q[1..];
      assert forall i :: 0 <= i < |rest| ==> rest[i] == q[i + 1];
      assert q[0] !in rest;
      WithoutOk(rest, w);
      assert forall t :: t in q <==> t == q[0] || t in rest;
    }
  }

  function Times(m: map<nat, nat>, t: nat): nat {
    if t in m then m[t] else 0
  }

  function Bump(m: map<nat, nat>, t: nat): map<nat, nat> {
    m[t := Times(m, t) + 1]
  }
}

/** Rings: a fixed number of slots, used from some position on. */
module Rings {

  /** Position i of a ring of n slots that begins at start. */
  function At(start: nat, i: nat, n: nat): nat {
    if start + i < n then start + i else start + i - n
  }

  /** The n elements of a ring in order. */
  function Ring<T>(a: seq<T>, start: nat, n: nat): (s: seq<T>)
    requires start < |a| && n <= |a|
    ensures |s| == n
  {
    seq(n, i requires 0 <= i < n => a[At(start, i, |a|)])
  }

  lemma RingAtZero<T>(a: seq<T>, n: nat)
    requires 0 < |a| && n <= |a|
    ensures Ring(a, 0, n) == a[..n]
  {
  }

  lemma RingSet<T>(a: seq<T>, start: nat, n: nat, i: nat, r: T)
    requires start < |a| && i < n <= |a|
    ensures At(start, i, |a|) < |a|
    ensures Ring(a[At(start, i, |a|) := r], start, n) == Ring(a, start, n)[i := r]
  {
  }

  lemma RingPush<T>(a: seq<T>, start: nat, n: nat, r: T)
    requires start < |a| && n < |a|
    ensures At(start, n, |a|) < |a|
    ensures Ring(a[At(start, n, |a|) := r], start, n + 1) == Ring(a, start, n) + [r]
  {
  }

  lemma RingPop<T>(a: seq<T>, start: nat, n: nat)
    requires start < |a| && 0 < n <= |a|
    ensures At(start, 1, |a|) < |a|
    ensures Ring(a, At(start, 1, |a|), n - 1) == Ring(a, start, n)[1..]
    ensures Ring(a, start, n - 1) == Ring(a, start, n)[..n - 1]
    ensures Ring(a, start, n)[0] == a[start]
  {
  }
}
