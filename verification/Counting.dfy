/** Counting the activities of a step machine that satisfy a predicate.

    Every concurrent protocol in this project keeps a finite map from activity
    to program counter, and every step rewrites one entry of it.  The lemma
    below says how such a rewrite moves a count. */
module Counting {
  import opened Basics

  /** The activities whose program counter satisfies p. */
  ghost function Those<P>(m: map<nat, P>, p: P -> bool): set<nat> {
    set a | a in m && p(m[a])
  }

  ghost function Count<P>(m: map<nat, P>, p: P -> bool): nat {
    |Those(m, p)|
  }

  /** Rewriting the entry of a changes the count by what a contributes. */
  lemma CountMoves<P>(m: map<nat, P>, a: nat, pc: P, p: P -> bool)
    ensures a in m && p(m[a]) ==> Count(m, p) > 0
    ensures Count(m[a := pc], p) == Count(m, p) - Bit(a in m && p(m[a])) + Bit(p(pc))
  {
    var rest := Those(m, p) - {a};
    assert Those(m[a := pc], p) == if p(pc) then rest + {a} else rest;
    assert a in m && p(m[a]) ==> Those(m, p) == rest + {a};
    assert !(a in m && p(m[a])) ==> Those(m, p) == rest;
  }

  /** A count is zero exactly when no activity satisfies the predicate. */
  lemma CountZero<P>(m: map<nat, P>, p: P -> bool)
    ensures Count(m, p) == 0 <==> forall a :: a in m ==> !p(m[a])
  {
    if Count(m, p) == 0 {
      forall a | a in m ensures !p(m[a]) {
        assert a in Those(m, p) <==> p(m[a]);
      }
    } else {
      var a :| a in Those(m, p);
    }
  }

  /** A positive count has a witness. */
  lemma Witness<P>(m: map<nat, P>, p: P -> bool) returns (a: nat)
    requires Count(m, p) > 0
    ensures a in m && p(m[a])
  {
    a :| a in Those(m, p);
  }

  /** A count of one for a known member leaves no other member. */
  lemma CountOne<P>(m: map<nat, P>, p: P -> bool, a: nat, b: nat)
    requires a in m && p(m[a]) && b in m && p(m[b]) && Count(m, p) <= 1
    ensures a == b
  {
    if a != b {
      assert {a, b} <= Those(m, p);
      SubsetSize({a, b}, Those(m, p));
    }
  }

  lemma {:induction false} SubsetSize(x: set<nat>, y: set<nat>)
    requires x <= y
    ensures |x| <= |y|
  {
    if x != {} {
      var e :| e in x;
      SubsetSize(x - {e}, y - {e});
    }
  }
}
