/** Butexes: lists of waiters, each waiter's container pointer, and all that
    may take a waiter off a list: wake, wake_n, wake_except, requeue, a timer
    or an interrupt through erase_from_butex, and a pthread's own timeout. */
module Butex {
  import opened Basics
  import opened Queues

  /** How a critical section under waiter_lock empties a list. */
  datatype How = One | UpTo(n: nat) | Except(x: nat)

  datatype Pc =
    | Idle
    // butex_wait: the check without the lock, then the one under it
    | Check(b: nat, e: int, pthread: bool)
    | Enqueue(b: nat, e: int, pthread: bool)
    | Sleeping(b: nat, e: int, pthread: bool)
    // wait_pthread after a timeout: erase_from_butex of its own waiter
    | SelfLoad(b: nat, e: int)
    | SelfLock(b: nat, e: int, c: nat)
    | SelfFail(b: nat, e: int)
    // a waker with the waiters it has taken off a list
    | Waking(hand: seq<nat>)
    // erase_from_butex: the load of container, then the recheck under the lock
    | Load(w: nat)
    | Lock(w: nat, c: nat)

  /** signalled waiters were made runnable and have not run yet; slept and
      woken count how often a waiter was queued and made runnable. */
  datatype State = State(
    value: map<nat, int>, lists: map<nat, seq<nat>>, container: map<nat, Option<nat>>,
    threads: map<nat, Pc>, signalled: set<nat>, slept: map<nat, nat>, woken: map<nat, nat>)

  const Init := State(map[], map[], map[], map[], {}, map[], map[])

  datatype Action =
    | SetValue(b: nat, v: int)
    | Wait(a: nat, b: nat, e: int, pthread: bool)
    | Wake(a: nat, b: nat, how: How)
    | Requeue(a: nat, b: nat, m: nat)
    | Erase(a: nat, w: nat)
    | TimeOut(a: nat)
    // front: prepended; interrupted: not queued
    | Step(a: nat, front: bool, interrupted: bool)

  function PcOf(s: State, a: nat): Pc {
    if a in s.threads then s.threads[a] else Idle
  }

  function ListOf(s: State, b: nat): seq<nat> {
    if b in s.lists then s.lists[b] else []
  }

  function ContainerOf(s: State, w: nat): Option<nat> {
    if w in s.container then s.container[w] else None
  }

  function ValueOf(s: State, b: nat): int {
    if b in s.value then s.value[b] else 0
  }

  /** Inside butex_wait and queued, taken or made runnable. */
  predicate Waiting(pc: Pc) {
    pc.Sleeping? || pc.SelfLoad? || pc.SelfLock? || pc.SelfFail?
  }

  predicate IsPthread(pc: Pc) {
    Waiting(pc) && (pc.Sleeping? ==> pc.pthread)
  }

  function HandOf(pc: Pc): seq<nat> {
    if pc.Waking? then pc.hand else []
  }

  predicate Enabled(s: State, act: Action) {
    match act
    case SetValue(_, _) => true
    case Wait(a, _, _, _) => PcOf(s, a).Idle?
    case Wake(a, _, _) => PcOf(s, a).Idle?
    case Requeue(a, b, m) => PcOf(s, a).Idle? && b != m
    case Erase(a, _) => PcOf(s, a).Idle?
    case TimeOut(a) => PcOf(s, a).Sleeping? && PcOf(s, a).pthread
    case Step(a, _, _) => var pc := PcOf(s, a); !pc.Idle? && (pc.Sleeping? ==> a in s.signalled)
  }

  function Go(s: State, a: nat, pc: Pc): State {
    s.(threads := s.threads[a := pc])
  }

  // ---- Taking waiters off a list -----------------------------------------------------

  function Reverse(q: seq<nat>): (r: seq<nat>)
    ensures |r| == |q|
  {
    if q == [] then [] else Reverse(q[1..]) + [q[0]]
  }

  /** The pthread waiters of a list, and the others, in order. */
  function Pick(s: State, q: seq<nat>, pthread: bool): seq<nat> {
    if q == [] then []
    else (if IsPthread(PcOf(s, q[0])) == pthread then [q[0]] else []) + Pick(s, q[1..], pthread)
  }

  /** The waiters butex_wake, butex_wake_n and butex_wake_except take. */
  function Taken(q: seq<nat>, how: How): seq<nat> {
    match how
    case One => if q == [] then [] else q[..1]
    case UpTo(n) => if n == 0 || n >= |q| then q else q[..n]
    case Except(x) => Without(q, x)
  }

  function Left(q: seq<nat>, how: How): seq<nat> {
    match how
    case One => if q == [] then [] else q[1..]
    case UpTo(n) => if n == 0 || n >= |q| then [] else q[n..]
    case Except(x) => if x in q then [x] else []
  }

  /** The order in which they are woken: pthreads first, bthreads from the
      back; butex_wake_n runs the first bthread last. */
  function Order(s: State, taken: seq<nat>, how: How): seq<nat> {
    var p, t := Pick(s, taken, true), Pick(s, taken, false);
    if how.Except? then p + Reverse(t)
    else if t == [] then p else p + (Reverse(t[1..]) + [t[0]])
  }

  /** container = NULL for the waiters taken. */
  function Cleared(container: map<nat, Option<nat>>, ws: seq<nat>): map<nat, Option<nat>> {
    map w | w in container :: if w in ws then None else container[w]
  }

  function TakeFrom(s: State, a: nat, b: nat, hand: seq<nat>, left: seq<nat>): State {
    s.(lists := s.lists[b := left], container := Cleared(s.container, hand), threads := s.threads[a := Waking(hand)])
  }

  function WakeStep(s: State, a: nat, b: nat, how: How): State {
    var q := ListOf(s, b);
    if q == [] then s else TakeFrom(s, a, b, Order(s, Taken(q, how), how), Left(q, how))
  }

  /** butex_requeue: the first waiter is taken, the others move to m. */
  function RequeueStep(s: State, a: nat, b: nat, m: nat): State {
    var q := ListOf(s, b);
    if q == [] then s
    else
      s.(lists := s.lists[b := []][m := ListOf(s, m) + q[1..]],
         container := map w | w in s.container :: if w == q[0] then None else if w in q then Some(m) else s.container[w],
         threads := s.threads[a := Waking([q[0]])])
  }

  function Next(s: State, act: Action): State
    requires Enabled(s, act)
  {
    match act
    case SetValue(b, v) => s.(value := s.value[b := v])
    case Wait(a, b, e, pthread) => Go(s, a, Check(b, e, pthread))
    case Wake(a, b, how) => WakeStep(s, a, b, how)
    case Requeue(a, b, m) => RequeueStep(s, a, b, m)
    case Erase(a, w) => Go(s, a, Load(w))
    case TimeOut(a) => Go(s, a, SelfLoad(PcOf(s, a).b, PcOf(s, a).e))
    case Step(a, front, interrupted) => StepOf(s, a, PcOf(s, a), front, interrupted)
  }

  function StepOf(s: State, a: nat, pc: Pc, front: bool, interrupted: bool): State {
    match pc
    case Idle => s
    case Check(b, e, pthread) => Go(s, a, if ValueOf(s, b) == e then Enqueue(b, e, pthread) else Idle)
    case Enqueue(b, e, pthread) =>
      if ValueOf(s, b) != e || interrupted then Go(s, a, Idle)
      else
        Go(s.(lists := s.lists[b := if front then [a] + ListOf(s, b) else ListOf(s, b) + [a]],
              container := s.container[a := Some(b)], slept := Bump(s.slept, a)), a, Sleeping(b, e, pthread))
    case Sleeping(_, _, _) => Runs(s, a)
    case SelfLoad(b, e) =>
      var c := ContainerOf(s, a);
      Go(s, a, if c.Some? then SelfLock(b, e, c.value) else SelfFail(b, e))
    case SelfLock(b, e, c) =>
      if ContainerOf(s, a) == Some(c)
      then Go(s.(lists := s.lists[c := Without(ListOf(s, c), a)], container := s.container[a := None], woken := Bump(s.woken, a)), a, Idle)
      else Go(s, a, SelfLoad(b, e))
    // it does not time out again
    case SelfFail(b, e) => if a in s.signalled then Runs(s, a) else Go(s, a, Sleeping(b, e, false))
    case Waking(hand) =>
      if hand == [] then Go(s, a, Idle)
      else Go(s.(signalled := s.signalled + {hand[0]}, woken := Bump(s.woken, hand[0])), a, Waking(hand[1..]))
    case Load(w) =>
      var c := ContainerOf(s, w);
      Go(s, a, if c.Some? then Lock(w, c.value) else Idle)
    case Lock(w, c) =>
      if ContainerOf(s, w) == Some(c) then TakeFrom(s, a, c, [w], Without(ListOf(s, c), w)) else Go(s, a, Load(w))
  }

  /** The waiter returns from butex_wait. */
  function Runs(s: State, a: nat): State {
    Go(s.(signalled := s.signalled - {a}), a, Idle)
  }

  // ---- Invariant -------------------------------------------------------------------

  /** A waiter's container is the butex in whose list it is, once, and NULL if
      it is in none. */
  ghost predicate ListsOk(s: State) {
    && (forall b :: Distinct(ListOf(s, b)))
    && (forall b: nat, w: nat :: w in ListOf(s, b) <==> ContainerOf(s, w) == Some(b))
  }

  predicate Has(s: State, a: nat, w: nat) {
    w in HandOf(PcOf(s, a))
  }

  /** Taken off its list, and not yet made runnable. */
  predicate Off(s: State, w: nat) {
    ContainerOf(s, w) == None && w !in s.signalled && Waiting(PcOf(s, w))
  }

  ghost predicate HandsOk(s: State) {
    && (forall a :: Distinct(HandOf(PcOf(s, a))))
    && (forall a, w :: Has(s, a, w) ==> Off(s, w))
    && (forall a, b, w :: Has(s, a, w) && Has(s, b, w) ==> a == b)
    && (forall w :: Off(s, w) ==> exists a :: Has(s, a, w))
  }

  predicate Asleep(s: State, w: nat) {
    Waiting(PcOf(s, w)) && w !in s.signalled
  }

  ghost predicate WaitOk(s: State) {
    && (forall w :: ContainerOf(s, w).Some? ==> Asleep(s, w))
    && (forall w :: w in s.signalled ==> Waiting(PcOf(s, w)))
  }

  ghost predicate LedgerOk(s: State) {
    forall w :: Times(s.slept, w) == Times(s.woken, w) + Bit(Asleep(s, w))
  }

  ghost predicate Inv(s: State) {
    ListsOk(s) && HandsOk(s) && WaitOk(s) && LedgerOk(s)
  }

  // ---- Every step keeps the invariant ------------------------------------------------

  lemma HandsKept(s: State, t: State)
    requires HandsOk(s) && (forall a :: HandOf(PcOf(t, a)) == HandOf(PcOf(s, a))) && forall w :: Off(t, w) == Off(s, w)
    ensures HandsOk(t)
  {
    assert forall a, w :: Has(t, a, w) <==> Has(s, a, w);
    forall w | Off(t, w) ensures exists a :: Has(t, a, w) {
      assert Off(s, w);
      var a :| Has(s, a, w);
      assert Has(t, a, w);
    }
  }

  /** A thread moves on inside or outside butex_wait, and nothing else. */
  lemma MoveKeepsInv(s: State, t: State, a: nat)
    requires Inv(s) && t == s.(value := t.value, threads := s.threads[a := PcOf(t, a)])
    requires Waiting(PcOf(s, a)) == Waiting(PcOf(t, a)) && HandOf(PcOf(s, a)) == HandOf(PcOf(t, a))
    ensures Inv(t)
  {
    assert forall b :: ListOf(t, b) == ListOf(s, b);
    assert forall w :: ContainerOf(t, w) == ContainerOf(s, w) && Waiting(PcOf(t, w)) == Waiting(PcOf(s, w));
    hide HandOf;
    HandsKept(s, t);
    hide HandsOk;
    forall w ensures Times(t.slept, w) == Times(t.woken, w) + Bit(Asleep(t, w)) {
      assert Times(s.slept, w) == Times(s.woken, w) + Bit(Asleep(s, w));
    }
  }

  lemma EnqueueKeepsLists(s: State, t: State, a: nat, b: nat)
    requires ListsOk(s) && ContainerOf(s, a) == None && ContainerOf(t, a) == Some(b)
    requires ListOf(t, b) == [a] + ListOf(s, b) || ListOf(t, b) == ListOf(s, b) + [a]
    requires forall c :: c != b ==> ListOf(t, c) == ListOf(s, c)
    requires forall w :: w != a ==> ContainerOf(t, w) == ContainerOf(s, w)
    ensures ListsOk(t)
  {
    assert a !in ListOf(s, b);
    assert forall w :: w in ListOf(t, b) <==> w == a || w in ListOf(s, b);
    forall c: nat, w: nat ensures w in ListOf(t, c) <==> ContainerOf(t, w) == Some(c) {
      assert w in ListOf(s, c) <==> ContainerOf(s, w) == Some(c);
    }
  }

  lemma EnqueueKeepsInv(s: State, a: nat, pc: Pc, front: bool)
    requires Inv(s) && PcOf(s, a) == pc && pc.Enqueue? && ValueOf(s, pc.b) == pc.e
    ensures Inv(StepOf(s, a, pc, front, false))
  {
    var t := StepOf(s, a, pc, front, false);
    assert ContainerOf(s, a) == None && a !in s.signalled;
    assert forall w :: w != a ==> ContainerOf(t, w) == ContainerOf(s, w) && PcOf(t, w) == PcOf(s, w);
    assert forall c :: HandOf(PcOf(t, c)) == HandOf(PcOf(s, c));
    assert forall w :: Off(t, w) == Off(s, w);
    hide ListsOk, HandsOk, HandOf, Off;
    EnqueueKeepsLists(s, t, a, pc.b);
    HandsKept(s, t);
    forall w ensures Times(t.slept, w) == Times(t.woken, w) + Bit(Asleep(t, w)) {
      assert Times(s.slept, w) == Times(s.woken, w) + Bit(Asleep(s, w));
    }
  }

  /** hand and left share out the list. */
  ghost predicate Parts(q: seq<nat>, hand: seq<nat>, left: seq<nat>) {
    && Distinct(hand) && Distinct(left)
    && (forall w :: w in q <==> w in hand || w in left)
    && (forall w :: !(w in hand && w in left))
  }

  lemma TakeKeepsInv(s: State, a: nat, b: nat, hand: seq<nat>, left: seq<nat>)
    requires Inv(s) && !Waiting(PcOf(s, a)) && HandOf(PcOf(s, a)) == [] && Parts(ListOf(s, b), hand, left)
    ensures Inv(TakeFrom(s, a, b, hand, left))
  {
    var t, q := TakeFrom(s, a, b, hand, left), ListOf(s, b);
    forall w ensures ContainerOf(t, w) == if w in hand then None else ContainerOf(s, w) {
      assert w in hand ==> w in q;
    }
    assert forall c :: c != b ==> ListOf(t, c) == ListOf(s, c);
    assert ListOf(t, b) == left;
    assert forall w :: w != a ==> PcOf(t, w) == PcOf(s, w);
    forall w | w in hand ensures w != a && Asleep(s, w) && Off(t, w) && !Off(s, w) {
      assert w in q && ContainerOf(s, w) == Some(b);
      assert Asleep(s, w);
    }
    hide Cleared;
    TakeKeepsLists(s, t, b, hand, left);
    TakeKeepsHands(s, t, a, hand);
    hide HandsOk, ListsOk;
    forall w ensures Times(t.slept, w) == Times(t.woken, w) + Bit(Asleep(t, w)) {
      assert Times(s.slept, w) == Times(s.woken, w) + Bit(Asleep(s, w));
    }
  }

  lemma TakeKeepsLists(s: State, t: State, b: nat, hand: seq<nat>, left: seq<nat>)
    requires ListsOk(s) && Parts(ListOf(s, b), hand, left) && ListOf(t, b) == left
    requires forall c :: c != b ==> ListOf(t, c) == ListOf(s, c)
    requires forall w :: ContainerOf(t, w) == if w in hand then None else ContainerOf(s, w)
    ensures ListsOk(t)
  {
    forall c: nat, w: nat ensures w in ListOf(t, c) <==> ContainerOf(t, w) == Some(c) {
      assert w in ListOf(s, c) <==> ContainerOf(s, w) == Some(c);
      assert w in ListOf(s, b) <==> ContainerOf(s, w) == Some(b);
    }
  }

  lemma TakeKeepsHands(s: State, t: State, a: nat, hand: seq<nat>)
    requires HandsOk(s) && Distinct(hand) && HandOf(PcOf(s, a)) == [] && HandOf(PcOf(t, a)) == hand
    requires forall b :: b != a ==> HandOf(PcOf(t, b)) == HandOf(PcOf(s, b))
    requires forall w :: w in hand ==> Off(t, w) && !Off(s, w)
    requires forall w :: w !in hand ==> Off(t, w) == Off(s, w)
    ensures HandsOk(t)
  {
    forall c, w ensures Has(t, c, w) <==> if c == a then w in hand else Has(s, c, w) {
    }
    forall w | Off(t, w) ensures exists c :: Has(t, c, w) {
      if w in hand {
        assert Has(t, a, w);
      } else {
        var c :| Has(s, c, w);
        assert c != a;
        assert Has(t, c, w);
      }
    }
  }

  /** The waiters of b but the first move to the list of m. */
  lemma RequeueKeepsLists(s: State, a: nat, b: nat, m: nat)
    requires ListsOk(s) && b != m && ListOf(s, b) != []
    ensures ListsOk(RequeueStep(s, a, b, m))
  {
    var t, q, rest := RequeueStep(s, a, b, m), ListOf(s, b), ListOf(s, b)[1..];
    assert forall i :: 0 <= i < |rest| ==> rest[i] == q[i + 1];
    assert q[0] !in rest && forall w :: w in q <==> w == q[0] || w in rest;
    assert ListOf(t, b) == [] && ListOf(t, m) == ListOf(s, m) + rest;
    assert forall c :: c != b && c != m ==> ListOf(t, c) == ListOf(s, c);
    forall w ensures ContainerOf(t, w) == if w == q[0] then None else if w in q then Some(m) else ContainerOf(s, w) {
      assert w in q ==> ContainerOf(s, w) == Some(b);
    }
    hide RequeueStep;
    forall i, j | 0 <= i < j < |ListOf(t, m)| ensures ListOf(t, m)[i] != ListOf(t, m)[j] {
      var k := |ListOf(s, m)|;
      assert i < k ==> ContainerOf(s, ListOf(s, m)[i]) == Some(m) by { assert i < k ==> ListOf(s, m)[i] in ListOf(s, m); }
      assert j >= k ==> ContainerOf(s, rest[j - k]) == Some(b) by { assert j >= k ==> rest[j - k] in q; }
    }
    forall c: nat, w: nat ensures w in ListOf(t, c) <==> ContainerOf(t, w) == Some(c) {
      assert w in ListOf(s, c) <==> ContainerOf(s, w) == Some(c);
      assert w in q <==> ContainerOf(s, w) == Some(b);
    }
  }

  lemma RequeueContainer(s: State, a: nat, b: nat, m: nat, w: nat)
    requires ListsOk(s) && b != m && ListOf(s, b) != []
    ensures var q := ListOf(s, b);
      ContainerOf(RequeueStep(s, a, b, m), w) == if w == q[0] then None else if w in q then Some(m) else ContainerOf(s, w)
  {
    assert w in ListOf(s, b) ==> ContainerOf(s, w) == Some(b);
  }

  lemma RequeueWaiter(s: State, a: nat, b: nat, m: nat, w: nat)
    requires ListsOk(s) && WaitOk(s) && PcOf(s, a).Idle? && b != m && ListOf(s, b) != []
    ensures var t, first := RequeueStep(s, a, b, m), ListOf(s, b)[0];
      && Asleep(t, w) == Asleep(s, w) && (ContainerOf(t, w).Some? ==> Asleep(t, w))
      && (w in t.signalled ==> Waiting(PcOf(t, w)))
      && (if w == first then Off(t, w) && !Off(s, w) else Off(t, w) == Off(s, w))
  {
    var q := ListOf(s, b);
    RequeueContainer(s, a, b, m, w);
    assert q[0] in q;
    assert w in q ==> ContainerOf(s, w) == Some(b);
    assert ContainerOf(s, w).Some? ==> Asleep(s, w);
    assert w in s.signalled ==> Waiting(PcOf(s, w));
  }

  lemma RequeueKeepsInv(s: State, a: nat, b: nat, m: nat)
    requires Inv(s) && PcOf(s, a).Idle? && b != m && ListOf(s, b) != []
    ensures Inv(RequeueStep(s, a, b, m))
  {
    hide ListsOk, WaitOk, HandsOk, LedgerOk;
    var t, first := RequeueStep(s, a, b, m), ListOf(s, b)[0];
    RequeueKeepsLists(s, a, b, m);
    assert t.threads == s.threads[a := Waking([first])] && t.slept == s.slept && t.woken == s.woken;
    hide RequeueStep;
    forall w ensures Asleep(t, w) == Asleep(s, w) && (ContainerOf(t, w).Some? ==> Asleep(t, w))
        && (w in t.signalled ==> Waiting(PcOf(t, w)))
        && (if w == first then Off(t, w) && !Off(s, w) else Off(t, w) == Off(s, w)) {
      RequeueWaiter(s, a, b, m, w);
    }
    hide Asleep, Off;
    TakeKeepsHands(s, t, a, [first]);
    WaitFrom(t);
    LedgerSame(s, t);
  }

  lemma WaitFrom(t: State)
    requires forall w :: ContainerOf(t, w).Some? ==> Asleep(t, w)
    requires forall w :: w in t.signalled ==> Waiting(PcOf(t, w))
    ensures WaitOk(t)
  {
  }

  lemma LedgerSame(s: State, t: State)
    requires LedgerOk(s) && t.slept == s.slept && t.woken == s.woken && forall w :: Asleep(t, w) == Asleep(s, w)
    ensures LedgerOk(t)
  {
    forall w ensures Times(t.slept, w) == Times(t.woken, w) + Bit(Asleep(t, w)) {
      assert Times(s.slept, w) == Times(s.woken, w) + Bit(Asleep(s, w));
    }
  }

  /** The first waiter in the hand becomes runnable. */
  lemma SignalKeepsInv(s: State, a: nat, hand: seq<nat>)
    requires Inv(s) && PcOf(s, a) == Waking(hand) && hand != []
    ensures Inv(StepOf(s, a, Waking(hand), false, false))
  {
    var t, w := StepOf(s, a, Waking(hand), false, false), hand[0];
    assert Has(s, a, w) && Off(s, w) && w != a;
    assert forall x :: PcOf(t, x) == if x == a then Waking(hand[1..]) else PcOf(s, x);
    assert forall b :: ListOf(t, b) == ListOf(s, b);
    assert forall x :: ContainerOf(t, x) == ContainerOf(s, x);
    SignalKeepsHands(s, t, a, hand);
    hide HandsOk;
    forall x ensures Times(t.slept, x) == Times(t.woken, x) + Bit(Asleep(t, x)) {
      assert Times(s.slept, x) == Times(s.woken, x) + Bit(Asleep(s, x));
    }
  }

  lemma SignalKeepsHands(s: State, t: State, a: nat, hand: seq<nat>)
    requires HandsOk(s) && HandOf(PcOf(s, a)) == hand != [] && HandOf(PcOf(t, a)) == hand[1..]
    requires forall b :: b != a ==> HandOf(PcOf(t, b)) == HandOf(PcOf(s, b))
    requires forall x :: Off(t, x) == (Off(s, x) && x != hand[0])
    ensures HandsOk(t)
  {
    var rest := hand[1..];
    assert forall i :: 0 <= i < |rest| ==> rest[i] == hand[i + 1];
    assert Distinct(HandOf(PcOf(s, a)));
    assert hand[0] !in rest && forall x :: x in hand <==> x == hand[0] || x in rest;
    assert Has(s, a, hand[0]);
    forall c, x ensures Has(t, c, x) <==> Has(s, c, x) && !(c == a && x == hand[0]) {
    }
    forall x | Off(t, x) ensures exists c :: Has(t, c, x) {
      var c :| Has(s, c, x);
      assert Has(t, c, x);
    }
  }

  /** A signalled waiter returns. */
  lemma RunsKeepsInv(s: State, a: nat)
    requires Inv(s) && a in s.signalled
    ensures Inv(Runs(s, a))
  {
    var t := Runs(s, a);
    assert Waiting(PcOf(s, a)) && !Off(s, a);
    assert forall b :: ListOf(t, b) == ListOf(s, b);
    assert forall x :: ContainerOf(t, x) == ContainerOf(s, x) && (x != a ==> PcOf(t, x) == PcOf(s, x));
    HandsKept(s, t);
    hide HandsOk;
    forall x ensures Times(t.slept, x) == Times(t.woken, x) + Bit(Asleep(t, x)) {
      assert Times(s.slept, x) == Times(s.woken, x) + Bit(Asleep(s, x));
    }
  }

  /** A pthread takes its own waiter off the list. */
  lemma SelfEraseKeepsInv(s: State, a: nat, pc: Pc)
    requires Inv(s) && PcOf(s, a) == pc && pc.SelfLock? && ContainerOf(s, a) == Some(pc.c)
    ensures Inv(StepOf(s, a, pc, false, false))
  {
    var t, c := StepOf(s, a, pc, false, false), pc.c;
    WithoutOk(ListOf(s, c), a);
    assert forall b :: b != c ==> ListOf(t, b) == ListOf(s, b);
    assert forall x :: x != a ==> ContainerOf(t, x) == ContainerOf(s, x) && PcOf(t, x) == PcOf(s, x);
    assert Asleep(s, a) && !Off(s, a) && !Off(t, a);
    HandsKept(s, t);
    hide HandsOk, Without, Distinct;
    forall x ensures Times(t.slept, x) == Times(t.woken, x) + Bit(Asleep(t, x)) {
      assert Times(s.slept, x) == Times(s.woken, x) + Bit(Asleep(s, x));
    }
    forall b: nat, x: nat ensures x in ListOf(t, b) <==> ContainerOf(t, x) == Some(b) {
      assert x in ListOf(s, b) <==> ContainerOf(s, x) == Some(b);
    }
  }

  // ---- What a waker takes ------------------------------------------------------------

  lemma DistinctRest(q: seq<nat>)
    requires Distinct(q) && q != []
    ensures Distinct(q[1..]) && q[0] !in q[1..] && forall w :: w in q <==> w == q[0] || w in q[1..]
  {
    assert forall i :: 0 <= i < |q[1..]| ==> q[1..][i] == q[i + 1];
  }

  lemma DistinctSum(x: seq<nat>, y: seq<nat>)
    requires Distinct(x) && Distinct(y) && forall w :: !(w in x && w in y)
    ensures Distinct(x + y) && forall w :: w in x + y <==> w in x || w in y
  {
    forall i, j | 0 <= i < j < |x + y| ensures (x + y)[i] != (x + y)[j] {
      assert i < |x| ==> x[i] in x;
      assert j >= |x| ==> y[j - |x|] in y;
    }
  }

  lemma {:induction false} ReverseSame(q: seq<nat>)
    requires Distinct(q)
    ensures Distinct(Reverse(q)) && forall w :: w in Reverse(q) <==> w in q
  {
    if q != [] {
      DistinctRest(q);
      ReverseSame(q[1..]);
      DistinctSum(Reverse(q[1..]), [q[0]]);
    }
  }

  lemma {:induction false} PickSame(s: State, q: seq<nat>, pthread: bool)
    requires Distinct(q)
    ensures Distinct(Pick(s, q, pthread))
    ensures forall w :: w in Pick(s, q, pthread) <==> w in q && IsPthread(PcOf(s, w)) == pthread
  {
    if q != [] {
      DistinctRest(q);
      PickSame(s, q[1..], pthread);
      if IsPthread(PcOf(s, q[0])) == pthread { DistinctSum([q[0]], Pick(s, q[1..], pthread)); }
    }
  }

  /** Everybody taken is woken, once. */
  lemma OrderSame(s: State, taken: seq<nat>, how: How)
    requires Distinct(taken)
    ensures Distinct(Order(s, taken, how)) && forall w :: w in Order(s, taken, how) <==> w in taken
  {
    hide Pick, Reverse, Distinct;
    var p, t := Pick(s, taken, true), Pick(s, taken, false);
    PickSame(s, taken, true);
    PickSame(s, taken, false);
    if how.Except? {
      ReverseSame(t);
      DistinctSum(p, Reverse(t));
    } else if t != [] {
      DistinctRest(t);
      ReverseSame(t[1..]);
      assert Distinct([t[0]]) by { OneIsDistinct(t[0]); }
      DistinctSum(Reverse(t[1..]), [t[0]]);
      DistinctSum(p, Reverse(t[1..]) + [t[0]]);
    }
  }

  lemma OneIsDistinct(w: nat)
    ensures Distinct([w])
  {
  }

  lemma TakenAndLeft(q: seq<nat>, how: How)
    requires Distinct(q)
    ensures Parts(q, Taken(q, how), Left(q, how))
  {
    match how
    case One => if q != [] { DistinctRest(q); assert q[..1] == [q[0]]; }
    case UpTo(n) =>
      if 0 < n < |q| {
        assert q == q[..n] + q[n..];
        assert forall i :: 0 <= i < |q[n..]| ==> q[n..][i] == q[n + i];
      }
    case Except(x) => WithoutOk(q, x);
  }

  lemma WakeKeepsInv(s: State, a: nat, b: nat, how: How)
    requires Inv(s) && PcOf(s, a).Idle?
    ensures Inv(WakeStep(s, a, b, how))
  {
    var q := ListOf(s, b);
    if q != [] {
      assert Distinct(q);
      TakenAndLeft(q, how);
      OrderSame(s, Taken(q, how), how);
      hide Inv, Order, Taken, Left;
      assert Parts(q, Order(s, Taken(q, how), how), Left(q, how));
      TakeKeepsInv(s, a, b, Order(s, Taken(q, how), how), Left(q, how));
    }
  }

  lemma EraseKeepsInv(s: State, a: nat, w: nat, c: nat)
    requires Inv(s) && PcOf(s, a) == Lock(w, c) && ContainerOf(s, w) == Some(c)
    ensures Inv(TakeFrom(s, a, c, [w], Without(ListOf(s, c), w)))
  {
    var q := ListOf(s, c);
    assert Distinct(q) && w in q;
    WithoutOk(q, w);
    hide Inv, Without;
    assert Parts(q, [w], Without(q, w));
    TakeKeepsInv(s, a, c, [w], Without(q, w));
  }

  lemma StepKeepsInv(s: State, a: nat, front: bool, interrupted: bool)
    requires Inv(s) && Enabled(s, Step(a, front, interrupted))
    ensures Inv(StepOf(s, a, PcOf(s, a), front, interrupted))
  {
    hide Inv;
    var pc := PcOf(s, a);
    if pc.Waking? && pc.hand != [] {
      SignalKeepsInv(s, a, pc.hand);
    } else if pc.Enqueue? && ValueOf(s, pc.b) == pc.e && !interrupted {
      EnqueueKeepsInv(s, a, pc, front);
    } else if pc.Lock? && ContainerOf(s, pc.w) == Some(pc.c) {
      EraseKeepsInv(s, a, pc.w, pc.c);
    } else if pc.SelfLock? && ContainerOf(s, a) == Some(pc.c) {
      SelfEraseKeepsInv(s, a, pc);
    } else if (pc.Sleeping? || pc.SelfFail?) && a in s.signalled {
      RunsKeepsInv(s, a);
    } else {
      QuietStepKeepsInv(s, a, front, interrupted);
    }
  }

  /** The next step neither queues nor takes nor wakes anybody. */
  predicate Quiet(s: State, a: nat, interrupted: bool) {
    var pc := PcOf(s, a);
    && !(pc.Waking? && pc.hand != []) && !(pc.Enqueue? && ValueOf(s, pc.b) == pc.e && !interrupted)
    && !(pc.Lock? && ContainerOf(s, pc.w) == Some(pc.c)) && !(pc.SelfLock? && ContainerOf(s, a) == Some(pc.c))
    && !((pc.Sleeping? || pc.SelfFail?) && a in s.signalled)
  }

  lemma QuietStepKeepsInv(s: State, a: nat, front: bool, interrupted: bool)
    requires Inv(s) && Enabled(s, Step(a, front, interrupted))
    requires Quiet(s, a, interrupted)
    ensures Inv(StepOf(s, a, PcOf(s, a), front, interrupted))
  {
    hide *;
    QuietStepMoves(s, a, front, interrupted);
    MoveKeepsInv(s, StepOf(s, a, PcOf(s, a), front, interrupted), a);
  }

  lemma QuietStepMoves(s: State, a: nat, front: bool, interrupted: bool)
    requires Enabled(s, Step(a, front, interrupted)) && Quiet(s, a, interrupted)
    ensures var t := StepOf(s, a, PcOf(s, a), front, interrupted);
      && t == s.(value := t.value, threads := s.threads[a := PcOf(t, a)])
      && Waiting(PcOf(s, a)) == Waiting(PcOf(t, a)) && HandOf(PcOf(s, a)) == HandOf(PcOf(t, a))
  {
    hide *;
    var pc := PcOf(s, a);
    var next := QuietPc(s, a, pc);
    assert StepOf(s, a, pc, front, interrupted) == Go(s, a, next) by { QuietStepIs(s, a, front, interrupted); }
    GoPc(s, a, next);
    QuietPcWaits(s, a, front, interrupted);
  }

  function QuietPc(s: State, a: nat, pc: Pc): Pc {
    match pc
    case Check(b, e, pthread) => if ValueOf(s, b) == e then Enqueue(b, e, pthread) else Idle
    case SelfLoad(b, e) => if ContainerOf(s, a).Some? then SelfLock(b, e, ContainerOf(s, a).value) else SelfFail(b, e)
    case SelfLock(b, e, _) => SelfLoad(b, e)
    case SelfFail(b, e) => Sleeping(b, e, false)
    case Load(w) => if ContainerOf(s, w).Some? then Lock(w, ContainerOf(s, w).value) else Idle
    case Lock(w, _) => Load(w)
    case _ => Idle
  }

  lemma QuietStepIs(s: State, a: nat, front: bool, interrupted: bool)
    requires Enabled(s, Step(a, front, interrupted)) && Quiet(s, a, interrupted)
    ensures StepOf(s, a, PcOf(s, a), front, interrupted) == Go(s, a, QuietPc(s, a, PcOf(s, a)))
  {
    hide Go, PcOf, ValueOf, ContainerOf, TakeFrom, Without, Bump, Runs, ListOf;
  }

  lemma GoPc(s: State, a: nat, pc: Pc)
    ensures Go(s, a, pc) == s.(threads := s.threads[a := pc]) && PcOf(Go(s, a, pc), a) == pc
  {
  }

  lemma QuietPcWaits(s: State, a: nat, front: bool, interrupted: bool)
    requires Enabled(s, Step(a, front, interrupted)) && Quiet(s, a, interrupted)
    ensures var pc := PcOf(s, a); var next := QuietPc(s, a, pc);
      Waiting(next) == Waiting(pc) && HandOf(next) == HandOf(pc)
  {
    hide PcOf, ValueOf, ContainerOf;
  }

  lemma NextKeepsInv(s: State, act: Action)
    requires Inv(s) && Enabled(s, act)
    ensures Inv(Next(s, act))
  {
    hide Inv;
    match act
    case SetValue(b, v) => ValueKeepsInv(s, b, v);
    case Wake(a, b, how) => WakeKeepsInv(s, a, b, how);
    case Requeue(a, b, m) => if ListOf(s, b) != [] { RequeueKeepsInv(s, a, b, m); }
    case Step(a, front, interrupted) => StepKeepsInv(s, a, front, interrupted);
    case _ => MoveKeepsInv(s, Next(s, act), act.a);
  }

  lemma ValueKeepsInv(s: State, b: nat, v: int)
    requires Inv(s)
    ensures Inv(s.(value := s.value[b := v]))
  {
    var t := s.(value := s.value[b := v]);
    assert forall c :: ListOf(t, c) == ListOf(s, c) && PcOf(t, c) == PcOf(s, c) && ContainerOf(t, c) == ContainerOf(s, c);
    HandsKept(s, t);
    LedgerSame(s, t);
  }

  // ---- Whole runs -----------------------------------------------------------------------

  predicate StepAt(run: seq<State>, acts: seq<Action>, i: nat)
    requires |run| == |acts| + 1 && i < |acts|
  {
    Enabled(run[i], acts[i]) && run[i + 1] == Next(run[i], acts[i])
  }

  ghost predicate IsRun(run: seq<State>, acts: seq<Action>) {
    && |run| == |acts| + 1
    && run[0] == Init
    && forall i: nat :: i < |acts| ==> StepAt(run, acts, i)
  }

  lemma {:induction false} RunKeepsInv(run: seq<State>, acts: seq<Action>, i: nat)
    requires IsRun(run, acts) && i < |run|
    ensures Inv(run[i])
  {
    if i > 0 {
      hide Inv;
      RunKeepsInv(run, acts, i - 1);
      assert StepAt(run, acts, i - 1);
      NextKeepsInv(run[i - 1], acts[i - 1]);
    }
  }

  /** In every run a waiter's container names a butex exactly when the waiter
      is in that butex's list, once and in no other. */
  lemma ContainerIsTheList(run: seq<State>, acts: seq<Action>, i: nat, b: nat, w: nat)
    requires IsRun(run, acts) && i < |run|
    ensures ContainerOf(run[i], w) == Some(b) <==> w in ListOf(run[i], b)
    ensures Distinct(ListOf(run[i], b))
  {
    RunKeepsInv(run, acts, i);
  }

  /** A waiter that is off its list and not yet runnable is in the hand of
      exactly one of all the wakers, requeuers and erasers that raced for it. */
  lemma RemovedByExactlyOne(run: seq<State>, acts: seq<Action>, i: nat, w: nat)
    requires IsRun(run, acts) && i < |run|
    ensures Off(run[i], w) <==> exists a :: Has(run[i], a, w)
    ensures forall a, b :: Has(run[i], a, w) && Has(run[i], b, w) ==> a == b
    ensures Waiting(PcOf(run[i], w)) ==> ContainerOf(run[i], w).Some? || w in run[i].signalled || Off(run[i], w)
    ensures ContainerOf(run[i], w).Some? ==> w !in run[i].signalled && forall a :: !Has(run[i], a, w)
  {
    RunKeepsInv(run, acts, i);
  }

  /** Each time a waiter was queued it is made runnable exactly once. */
  lemma WokenOncePerSleep(run: seq<State>, acts: seq<Action>, i: nat, w: nat)
    requires IsRun(run, acts) && i < |run|
    ensures Times(run[i].slept, w) == Times(run[i].woken, w) + Bit(Asleep(run[i], w))
  {
    RunKeepsInv(run, acts, i);
  }

  /** The butex and the value a waiter came for. */
  function Wants(pc: Pc): Option<(nat, int)> {
    if Waiting(pc) then Some((pc.b, pc.e)) else None
  }

  predicate Expects(pc: Pc, b: nat, e: int) {
    Wants(pc) == Some((b, e))
  }

  /** Nobody who came to wait on b for the value e is in its list. */
  ghost predicate NoneExpects(s: State, b: nat, e: int) {
    forall w :: w in ListOf(s, b) ==> !Expects(PcOf(s, w), b, e)
  }

  /** A waiter in the list of b after a step was there before, with the same
      expectation, or has just found the value it expects. */
  predicate Explained(s: State, t: State, b: nat, w: nat) {
    || (w in ListOf(s, b) && Wants(PcOf(t, w)) == Wants(PcOf(s, w)))
    || (Wants(PcOf(t, w)).Some? && Wants(PcOf(t, w)).value.1 == ValueOf(s, Wants(PcOf(t, w)).value.0))
  }

  lemma QueuedSince(s: State, act: Action, b: nat, w: nat)
    requires Inv(s) && Enabled(s, act) && !(act.Requeue? && act.m == b) && w in ListOf(Next(s, act), b)
    ensures Explained(s, Next(s, act), b, w)
  {
    ListWaits(s, b, w);
    if act.Step? {
      hide Inv;
      StepExplained(s, act.a, act.front, act.interrupted, b, w);
    } else {
      hide Inv, Order, Cleared, Bump;
      if act.Wake? { LeftIn(ListOf(s, act.b), act.how, w); }
    }
  }

  lemma StepExplained(s: State, a: nat, front: bool, interrupted: bool, b: nat, w: nat)
    requires Inv(s)
    requires w in ListOf(s, b) ==> Waiting(PcOf(s, w)) && w !in s.signalled
    requires Enabled(s, Step(a, front, interrupted)) && w in ListOf(StepOf(s, a, PcOf(s, a), front, interrupted), b)
    ensures Explained(s, StepOf(s, a, PcOf(s, a), front, interrupted), b, w)
  {
    hide Cleared, Bump, Without;
    var pc := PcOf(s, a);
    if pc.Lock? {
      WithoutIn(ListOf(s, pc.c), pc.w, w);
    } else if pc.SelfLock? {
      WithoutOk(ListOf(s, pc.c), a);
      assert w in ListOf(s, b) <==> ContainerOf(s, w) == Some(b);
    } else {
      hide Inv;
      OtherExplained(s, a, front, interrupted, b, w);
    }
  }

  lemma OtherExplained(s: State, a: nat, front: bool, interrupted: bool, b: nat, w: nat)
    requires w in ListOf(s, b) ==> Waiting(PcOf(s, w)) && w !in s.signalled
    requires Enabled(s, Step(a, front, interrupted)) && w in ListOf(StepOf(s, a, PcOf(s, a), front, interrupted), b)
    requires !PcOf(s, a).Lock? && !PcOf(s, a).SelfLock?
    ensures Explained(s, StepOf(s, a, PcOf(s, a), front, interrupted), b, w)
  {
    hide Cleared, Bump, Without;
    if PcOf(s, a).Enqueue? { assert w != a ==> w in ListOf(s, b); }
  }

  lemma LeftIn(q: seq<nat>, how: How, w: nat)
    ensures w in Left(q, how) ==> w in q
  {
    match how
    case One => assert q != [] ==> forall i :: 0 <= i < |q[1..]| ==> q[1..][i] == q[i + 1];
    case UpTo(n) => assert n < |q| ==> forall i :: 0 <= i < |q[n..]| ==> q[n..][i] == q[n + i];
    case Except(_) =>
  }

  lemma {:induction false} WithoutIn(q: seq<nat>, x: nat, w: nat)
    ensures w in Without(q, x) ==> w in q
  {
    if q != [] {
      WithoutIn(q[1..], x, w);
      assert forall i :: 0 <= i < |q[1..]| ==> q[1..][i] == q[i + 1];
    }
  }

  lemma NoneExpectsStays(s: State, act: Action, b: nat, e: int)
    requires Inv(s) && Enabled(s, act) && !(act.Requeue? && act.m == b)
    requires NoneExpects(s, b, e) && ValueOf(s, b) != e
    ensures NoneExpects(Next(s, act), b, e)
  {
    hide Inv, Next, Enabled;
    var t := Next(s, act);
    forall w | w in ListOf(t, b) ensures !Expects(PcOf(t, w), b, e) {
      QueuedSince(s, act, b, w);
      assert w in ListOf(s, b) ==> !Expects(PcOf(s, w), b, e);
    }
  }

  lemma ListWaits(s: State, b: nat, w: nat)
    requires Inv(s)
    ensures w in ListOf(s, b) ==> Waiting(PcOf(s, w)) && w !in s.signalled
  {
    assert w in ListOf(s, b) ==> ContainerOf(s, w) == Some(b);
    assert ContainerOf(s, w).Some? ==> Asleep(s, w);
  }

  /** From state i to state j the value of b is not e, and nobody moves waiters
      of other butexes to b. */
  ghost predicate Gone(run: seq<State>, acts: seq<Action>, b: nat, e: int, i: nat, j: nat)
    requires |run| == |acts| + 1 && j < |run|
  {
    forall k: nat :: i <= k < j ==> Away(run, acts, b, e, k)
  }

  predicate Away(run: seq<State>, acts: seq<Action>, b: nat, e: int, k: nat)
    requires |run| == |acts| + 1 && k < |acts|
  {
    ValueOf(run[k], b) != e && !(acts[k].Requeue? && acts[k].m == b)
  }

  lemma {:induction false} NoneExpectsLater(run: seq<State>, acts: seq<Action>, b: nat, e: int, i: nat, j: nat)
    requires IsRun(run, acts) && i <= j < |run| && Gone(run, acts, b, e, i, j) && NoneExpects(run[i], b, e)
    ensures NoneExpects(run[j], b, e)
    decreases j
  {
    hide NoneExpects, Inv, Next;
    if i < j {
      NoneExpectsLater(run, acts, b, e, i, j - 1);
      RunKeepsInv(run, acts, j - 1);
      assert StepAt(run, acts, j - 1) && Away(run, acts, b, e, j - 1);
      NoneExpectsStays(run[j - 1], acts[j - 1], b, e);
    }
  }

  /** butex_wake_all takes everybody, and while the value has changed nobody
      who waits for the old one is in the list, then or later. */
  lemma WakeAllLeavesNobody(run: seq<State>, acts: seq<Action>, i: nat, j: nat, a: nat, b: nat, e: int, w: nat)
    requires IsRun(run, acts) && i < j < |run| && acts[i] == Wake(a, b, UpTo(0))
    requires Gone(run, acts, b, e, i, j)
    ensures ListOf(run[i + 1], b) == []
    ensures w in ListOf(run[j], b) ==> !Expects(PcOf(run[j], w), b, e)
  {
    assert StepAt(run, acts, i);
    assert ListOf(run[i + 1], b) == [];
    assert NoneExpects(run[i + 1], b, e);
    hide Next;
    NoneExpectsLater(run, acts, b, e, i + 1, j);
  }

  // ---- What wake, requeue and erase take -------------------------------------------------

  /** Only a's hand and the lists of b and m changed. */
  ghost predicate OnlyTook(s: State, t: State, a: nat, b: nat, m: nat) {
    && (forall c :: c != b && c != m ==> ListOf(t, c) == ListOf(s, c))
    && (forall c :: c != a ==> PcOf(t, c) == PcOf(s, c))
  }

  lemma WakeTakes(run: seq<State>, acts: seq<Action>, i: nat, a: nat, b: nat, how: How)
    requires IsRun(run, acts) && i < |acts| && acts[i] == Wake(a, b, how)
    ensures var q, hand := ListOf(run[i], b), HandOf(PcOf(run[i + 1], a));
      && Distinct(hand) && (forall w :: w in hand <==> w in Taken(q, how))
      && hand == Order(run[i], Taken(q, how), how) && ListOf(run[i + 1], b) == Left(q, how)
    ensures OnlyTook(run[i], run[i + 1], a, b, b)
  {
    hide Order, Cleared;
    RunKeepsInv(run, acts, i);
    assert StepAt(run, acts, i);
    var q := ListOf(run[i], b);
    TakenAndLeft(q, how);
    OrderSame(run[i], Taken(q, how), how);
    assert q == [] ==> Order(run[i], [], how) == [] by { OrderIs(run[i], [], how); }
  }

  /** butex_wake takes the first waiter of the list, and nobody else. */
  lemma WakeOneTakesTheHead(run: seq<State>, acts: seq<Action>, i: nat, a: nat, b: nat)
    requires IsRun(run, acts) && i < |acts| && acts[i] == Wake(a, b, One) && ListOf(run[i], b) != []
    ensures HandOf(PcOf(run[i + 1], a)) == [ListOf(run[i], b)[0]] && ListOf(run[i + 1], b) == ListOf(run[i], b)[1..]
    ensures OnlyTook(run[i], run[i + 1], a, b, b)
  {
    hide StepAt, OnlyTook;
    WakeTakes(run, acts, i, a, b, One);
    var q := ListOf(run[i], b);
    assert q[..1] == [q[0]];
    OrderIs(run[i], [q[0]], One);
  }

  /** butex_wake_n takes exactly the first n waiters, or all when n is 0 or more
      than there are, and the others stay in order. */
  lemma WakeNTakesTheFirst(run: seq<State>, acts: seq<Action>, i: nat, a: nat, b: nat, n: nat)
    requires IsRun(run, acts) && i < |acts| && acts[i] == Wake(a, b, UpTo(n))
    ensures var q, hand := ListOf(run[i], b), HandOf(PcOf(run[i + 1], a));
      var k := if n == 0 || n > |q| then |q| else n;
      && Distinct(hand) && (forall w :: w in hand <==> w in q[..k]) && ListOf(run[i + 1], b) == q[k..]
    ensures OnlyTook(run[i], run[i + 1], a, b, b)
  {
    hide StepAt, OnlyTook, Order;
    WakeTakes(run, acts, i, a, b, UpTo(n));
    var q := ListOf(run[i], b);
    assert q[..|q|] == q && q[|q|..] == [];
  }

  /** butex_wake_except takes everybody but x, and only x may stay. */
  lemma WakeExceptLeavesOnly(run: seq<State>, acts: seq<Action>, i: nat, a: nat, b: nat, x: nat)
    requires IsRun(run, acts) && i < |acts| && acts[i] == Wake(a, b, Except(x))
    ensures var q, hand := ListOf(run[i], b), HandOf(PcOf(run[i + 1], a));
      && Distinct(hand) && (forall w :: w in hand <==> w in q && w != x)
      && ListOf(run[i + 1], b) == if x in q then [x] else []
    ensures OnlyTook(run[i], run[i + 1], a, b, b)
  {
    RunKeepsInv(run, acts, i);
    var q := ListOf(run[i], b);
    assert Distinct(q);
    hide StepAt, OnlyTook, Order, Inv, Without;
    WakeTakes(run, acts, i, a, b, Except(x));
    WithoutOk(q, x);
  }

  /** butex_requeue takes the first waiter of b; the others go to the end of
      the list of m in order. */
  lemma RequeueTakesTheHead(run: seq<State>, acts: seq<Action>, i: nat, a: nat, b: nat, m: nat)
    requires IsRun(run, acts) && i < |acts| && acts[i] == Requeue(a, b, m) && ListOf(run[i], b) != []
    ensures var q := ListOf(run[i], b);
      && HandOf(PcOf(run[i + 1], a)) == [q[0]]
      && ListOf(run[i + 1], b) == [] && ListOf(run[i + 1], m) == ListOf(run[i], m) + q[1..]
    ensures OnlyTook(run[i], run[i + 1], a, b, m)
  {
    assert StepAt(run, acts, i);
  }

  /** erase_from_butex takes the waiter from the list it is in, and gives up
      only on one that is in no list. */
  lemma EraseTakesOrIsLate(run: seq<State>, acts: seq<Action>, i: nat, a: nat, front: bool, interrupted: bool)
    requires IsRun(run, acts) && i < |acts| && acts[i] == Step(a, front, interrupted)
    requires PcOf(run[i], a).Load? || PcOf(run[i], a).Lock?
    ensures var from, w, pc := PcOf(run[i], a), PcOf(run[i], a).w, PcOf(run[i + 1], a);
      && (pc.Idle? ==> forall b :: w !in ListOf(run[i], b))
      && (pc.Waking? <==> from.Lock? && w in ListOf(run[i], from.c))
      && (pc.Waking? ==> pc.hand == [w] && ListOf(run[i + 1], from.c) == Without(ListOf(run[i], from.c), w))
  {
    hide Without, Cleared;
    RunKeepsInv(run, acts, i);
    assert StepAt(run, acts, i);
  }

  /** butex_wait queues its caller exactly when the value is the expected one
      under the lock and the caller is not interrupted, and returns otherwise. */
  lemma WaitQueuesOnTheExpectedValue(run: seq<State>, acts: seq<Action>, i: nat, a: nat, front: bool, interrupted: bool)
    requires IsRun(run, acts) && i < |acts| && acts[i] == Step(a, front, interrupted)
    requires PcOf(run[i], a).Check? || PcOf(run[i], a).Enqueue?
    ensures var s, t, pc := run[i], run[i + 1], PcOf(run[i], a);
      if ValueOf(s, pc.b) != pc.e || (pc.Enqueue? && interrupted) then PcOf(t, a).Idle? && t.lists == s.lists
      else if pc.Check? then PcOf(t, a) == Enqueue(pc.b, pc.e, pc.pthread)
      else
        && PcOf(t, a) == Sleeping(pc.b, pc.e, pc.pthread)
        && ListOf(t, pc.b) == if front then [a] + ListOf(s, pc.b) else ListOf(s, pc.b) + [a]
  {
    assert StepAt(run, acts, i);
  }

  // ---- In which order ---------------------------------------------------------------------

  lemma OrderIs(s: State, q: seq<nat>, how: How)
    ensures Order(s, q, how) == Pick(s, q, true) + Reverse(Pick(s, q, false))
  {
    var t := Pick(s, q, false);
    if t != [] {
      assert Reverse(t) == Reverse(t[1..]) + [t[0]];
    } else {
      assert Pick(s, q, true) + Reverse(t) == Pick(s, q, true);
    }
  }

  lemma OrderCons(s: State, q: seq<nat>, how: How)
    requires q != []
    ensures Order(s, q, how) ==
      if IsPthread(PcOf(s, q[0])) then [q[0]] + Order(s, q[1..], how) else Order(s, q[1..], how) + [q[0]]
  {
    hide Order;
    OrderIs(s, q, how);
    OrderIs(s, q[1..], how);
    var p, t := Pick(s, q, true), Pick(s, q, false);
    assert IsPthread(PcOf(s, q[0])) ==> p == [q[0]] + Pick(s, q[1..], true) && t == Pick(s, q[1..], false);
    assert !IsPthread(PcOf(s, q[0])) ==> p == Pick(s, q[1..], true);
    assert !IsPthread(PcOf(s, q[0])) ==> t == [q[0]] + Pick(s, q[1..], false) && t[1..] == Pick(s, q[1..], false);
  }

  lemma {:induction false} OrderOfTwo(s: State, q: seq<nat>, how: How, i: nat, j: nat) returns (x: nat, y: nat)
    requires i < j < |q|
    ensures x < |Order(s, q, how)| && y < |Order(s, q, how)| && x != y
    ensures Order(s, q, how)[x] == q[i] && Order(s, q, how)[y] == q[j]
    ensures x < y <==> IsPthread(PcOf(s, q[i]))
  {
    hide Order;
    OrderCons(s, q, how);
    var rest, d := q[1..], if IsPthread(PcOf(s, q[0])) then 1 else 0;
    if i == 0 {
      var k := PlaceOf(s, rest, how, j - 1);
      x, y := if d == 1 then 0 else |Order(s, rest, how)|, k + d;
    } else {
      var k, l := OrderOfTwo(s, rest, how, i - 1, j - 1);
      x, y := k + d, l + d;
    }
  }

  lemma {:induction false} PlaceOf(s: State, q: seq<nat>, how: How, i: nat) returns (x: nat)
    requires i < |q|
    ensures x < |Order(s, q, how)| && Order(s, q, how)[x] == q[i]
  {
    hide Order;
    OrderCons(s, q, how);
    var rest, d := q[1..], if IsPthread(PcOf(s, q[0])) then 1 else 0;
    if i == 0 {
      x := if d == 1 then 0 else |Order(s, rest, how)|;
    } else {
      var k := PlaceOf(s, rest, how, i - 1);
      x := k + d;
    }
  }

  lemma {:induction false} WithoutOrder(q: seq<nat>, w: nat, i: nat, j: nat) returns (x: nat, y: nat)
    requires i < j < |q| && q[i] != w && q[j] != w
    ensures x < y < |Without(q, w)| && Without(q, w)[x] == q[i] && Without(q, w)[y] == q[j]
  {
    if q[0] == w {
      x, y := i - 1, j - 1;
    } else if i > 0 {
      var k, l := WithoutOrder(q[1..], w, i - 1, j - 1);
      x, y := k + 1, l + 1;
    } else {
      var l := WithoutPlace(q[1..], w, j - 1);
      x, y := 0, l + 1;
    }
  }

  lemma {:induction false} WithoutPlace(q: seq<nat>, w: nat, i: nat) returns (x: nat)
    requires i < |q| && q[i] != w
    ensures x < |Without(q, w)| && Without(q, w)[x] == q[i]
  {
    if q[0] == w {
      x := i - 1;
    } else if i > 0 {
      var k := WithoutPlace(q[1..], w, i - 1);
      x := k + 1;
    } else {
      x := 0;
    }
  }

  /** A call takes two waiters in the order they have in the list. */
  lemma TakenOrder(q: seq<nat>, how: How, i: nat, j: nat) returns (x: nat, y: nat)
    requires Distinct(q) && i < j < |q| && q[i] in Taken(q, how) && q[j] in Taken(q, how)
    ensures x < y < |Taken(q, how)| && Taken(q, how)[x] == q[i] && Taken(q, how)[y] == q[j]
  {
    x, y := i, j;
    if how.Except? {
      hide Without;
      WithoutOk(q, how.x);
      x, y := WithoutOrder(q, how.x, i, j);
    }
  }

  /** Of two waiters of a list that a call takes together, the one in front is
      woken first if and only if it is a pthread: pthreads are woken in order,
      then the bthreads from the back. */
  lemma WokenInOrder(run: seq<State>, acts: seq<Action>, n: nat, a: nat, b: nat, how: How, i: nat, j: nat)
    returns (x: nat, y: nat)
    requires IsRun(run, acts) && n < |acts| && acts[n] == Wake(a, b, how) && i < j < |ListOf(run[n], b)|
    requires Has(run[n + 1], a, ListOf(run[n], b)[i]) && Has(run[n + 1], a, ListOf(run[n], b)[j])
    ensures var q, hand := ListOf(run[n], b), HandOf(PcOf(run[n + 1], a));
      && x < |hand| && y < |hand| && hand[x] == q[i] && hand[y] == q[j]
      && (x < y <==> IsPthread(PcOf(run[n], q[i]))) && x != y
  {
    hide StepAt, Order, Inv, OnlyTook, Taken, Left, HandOf, ListOf, IsPthread, Distinct;
    var q := ListOf(run[n], b);
    assert Distinct(q) by { ContainerIsTheList(run, acts, n, b, 0); }
    WakeTakes(run, acts, n, a, b, how);
    var k, l := TakenOrder(q, how, i, j);
    x, y := OrderOfTwo(run[n], Taken(q, how), how, k, l);
  }
}
