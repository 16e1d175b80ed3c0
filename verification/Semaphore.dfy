/** bthread_sem: a count in a butex. A post adds to the count and wakes as many
    waiters as the count was before, which for 0 means all of them. */
module Semaphore {
  import opened Basics
  import opened Queues

  datatype Pc =
    | Idle
    // bthread_sem_trywait
    | TryLoad
    | TryCas(num: nat)
    // bthread_sem_wait: load, compare-exchange, and butex_wait's two checks
    | Load(lifo: bool)
    | Cas(num: nat, lifo: bool)
    | Check(lifo: bool)
    | Enqueue(lifo: bool)
    | Asleep(lifo: bool)
    // butex_wake_n after the fetch_add returned n
    | Wake(n: nat)

  datatype State = State(count: nat, list: seq<nat>, threads: map<nat, Pc>)

  datatype Action =
    | TryWait(a: nat)
    | Wait(a: nat)
    | Post(a: nat, num: nat)
    | Interrupt(w: nat)
    | TimeOut(w: nat)
    | Step(a: nat, spurious: bool)

  function PcOf(s: State, a: nat): Pc {
    if a in s.threads then s.threads[a] else Idle
  }

  function Go(s: State, a: nat, pc: Pc): State {
    s.(threads := s.threads[a := pc])
  }

  predicate Enabled(s: State, act: Action) {
    match act
    case TryWait(a) => PcOf(s, a).Idle?
    case Wait(a) => PcOf(s, a).Idle?
    case Post(a, _) => PcOf(s, a).Idle?
    case Interrupt(w) => PcOf(s, w).Asleep?
    case TimeOut(w) => PcOf(s, w).Asleep?
    case Step(a, _) => !PcOf(s, a).Idle? && !PcOf(s, a).Asleep?
  }

  /** The waiters that butex_wake_n takes, and those it leaves. */
  function Taken(list: seq<nat>, n: nat): seq<nat> {
    if n == 0 || n >= |list| then list else list[..n]
  }

  function Left(list: seq<nat>, n: nat): seq<nat> {
    if n == 0 || n >= |list| then [] else list[n..]
  }

  /** Woken waiters go for another round, and from then on to the front. */
  function WakeN(s: State, n: nat): State {
    s.(list := Left(s.list, n),
       threads := map t | t in s.threads :: if t in Taken(s.list, n) then Load(true) else s.threads[t])
  }

  function Next(s: State, act: Action): State
    requires Enabled(s, act)
  {
    match act
    case TryWait(a) => Go(s, a, TryLoad)
    case Wait(a) => Go(s, a, Load(false))
    case Post(a, num) =>
      if num == 0 then s else Go(s.(count := s.count + num), a, Wake(s.count))
    case Interrupt(w) => Go(s.(list := Without(s.list, w)), w, Load(PcOf(s, w).lifo))
    case TimeOut(w) => Go(s.(list := Without(s.list, w)), w, Idle)
    case Step(a, spurious) => StepOf(s, a, PcOf(s, a), spurious)
  }

  /** A weak compare-exchange may fail for no reason. */
  function StepOf(s: State, a: nat, pc: Pc, spurious: bool): State {
    match pc
    case TryLoad => Go(s, a, if s.count == 0 then Idle else TryCas(s.count))
    case TryCas(num) =>
      if s.count == num && !spurious then Go(Take(s), a, Idle) else Go(s, a, TryLoad)
    case Load(lifo) => Go(s, a, if s.count > 0 then Cas(s.count, lifo) else Check(lifo))
    case Cas(num, lifo) =>
      if s.count == num && !spurious then Go(Take(s), a, Idle) else Go(s, a, Check(lifo))
    case Check(lifo) => Go(s, a, if s.count == 0 then Enqueue(lifo) else Load(lifo))
    case Enqueue(lifo) =>
      if s.count != 0 then Go(s, a, Load(lifo))
      else Go(s.(list := if lifo then [a] + s.list else s.list + [a]), a, Asleep(lifo))
    case Wake(n) => Go(WakeN(s, n), a, Idle)
    case _ => s
  }

  function Take(s: State): State {
    if s.count == 0 then s else s.(count := s.count - 1)
  }

  // ---- Invariant ---------------------------------------------------------------------

  /** On the way to wake everybody. */
  predicate WakesAll(s: State, a: nat) {
    PcOf(s, a) == Wake(0)
  }

  ghost predicate SomeWakesAll(s: State) {
    exists a :: WakesAll(s, a)
  }

  predicate NumOk(pc: Pc) {
    (pc.Cas? ==> pc.num > 0) && (pc.TryCas? ==> pc.num > 0)
  }

  ghost predicate ListOk(s: State) {
    Distinct(s.list) && forall t :: t in s.list <==> PcOf(s, t).Asleep?
  }

  /** Whoever sleeps while there are tokens has a poster on the way that found
      none. */
  ghost predicate Inv(s: State) {
    && ListOk(s) && (forall a :: NumOk(PcOf(s, a)))
    && (s.count > 0 && s.list != [] ==> SomeWakesAll(s))
  }

  lemma StillWakesAll(s: State, t: State, a: nat)
    requires SomeWakesAll(s) && !WakesAll(s, a) && forall b :: b != a ==> PcOf(t, b) == PcOf(s, b)
    ensures SomeWakesAll(t)
  {
    var b :| WakesAll(s, b);
    assert WakesAll(t, b);
  }

  /** Thread a moves, and nobody falls asleep or wakes up. */
  lemma MoveKeepsInv(s: State, t: State, a: nat)
    requires Inv(s) && t.list == s.list && t.threads == s.threads[a := PcOf(t, a)] && NumOk(PcOf(t, a))
    requires !PcOf(s, a).Asleep? && !PcOf(t, a).Asleep? && !WakesAll(s, a)
    requires t.count > s.count ==> s.count > 0 || WakesAll(t, a)
    ensures Inv(t)
  {
    assert forall b :: b != a ==> PcOf(t, b) == PcOf(s, b);
    if s.count > 0 && s.list != [] { StillWakesAll(s, t, a); }
  }

  /** Waiter w leaves the list by itself. */
  lemma LeaveKeepsInv(s: State, w: nat, pc: Pc)
    requires Inv(s) && PcOf(s, w).Asleep? && (pc.Idle? || pc.Load?)
    ensures Inv(Go(s.(list := Without(s.list, w)), w, pc))
  {
    var t := Go(s.(list := Without(s.list, w)), w, pc);
    WithoutOk(s.list, w);
    hide Without;
    assert w in s.list;
    assert forall b :: b != w ==> PcOf(t, b) == PcOf(s, b);
    if s.count > 0 { StillWakesAll(s, t, w); }
  }

  lemma EnqueueKeepsInv(s: State, a: nat, lifo: bool)
    requires Inv(s) && PcOf(s, a) == Enqueue(lifo) && s.count == 0
    ensures Inv(StepOf(s, a, Enqueue(lifo), false))
  {
    var t := StepOf(s, a, Enqueue(lifo), false);
    assert a !in s.list && forall w :: w in t.list <==> w == a || w in s.list;
    assert forall b :: b != a ==> PcOf(t, b) == PcOf(s, b);
  }

  lemma WakeNPc(s: State, n: nat, x: nat)
    requires ListOk(s)
    ensures PcOf(WakeN(s, n), x) == if x in Taken(s.list, n) then Load(true) else PcOf(s, x)
    ensures x in s.list <==> x in Taken(s.list, n) || x in Left(s.list, n)
    ensures !(x in Taken(s.list, n) && x in Left(s.list, n))
  {
    var q := s.list;
    if 0 < n < |q| && x in q {
      var i :| 0 <= i < |q| && q[i] == x;
      assert if i < n then q[..n][i] == x else q[n..][i - n] == x;
      assert forall j :: 0 <= j < |q[n..]| ==> q[n..][j] == q[n + j];
    }
  }

  lemma WakeKeepsInv(s: State, a: nat, n: nat)
    requires Inv(s) && PcOf(s, a) == Wake(n)
    ensures Inv(StepOf(s, a, Wake(n), false))
  {
    var u, t := WakeN(s, n), StepOf(s, a, Wake(n), false);
    forall x ensures PcOf(u, x) == (if x in Taken(s.list, n) then Load(true) else PcOf(s, x))
                  && (x in s.list <==> x in Taken(s.list, n) || x in Left(s.list, n))
                  && !(x in Taken(s.list, n) && x in Left(s.list, n)) {
      WakeNPc(s, n, x);
    }
    assert t == Go(u, a, Idle) && Distinct(Left(s.list, n));
    hide WakeN, Taken;
    forall b ensures NumOk(PcOf(t, b)) { assert NumOk(PcOf(s, b)); }
    if t.count > 0 && t.list != [] {
      var b :| WakesAll(s, b);
      assert n != 0 && b != a && WakesAll(t, b);
    }
  }

  lemma StepKeepsInv(s: State, a: nat, spurious: bool)
    requires Inv(s) && Enabled(s, Step(a, spurious))
    ensures Inv(StepOf(s, a, PcOf(s, a), spurious))
  {
    var pc := PcOf(s, a);
    if pc.Wake? {
      WakeKeepsInv(s, a, pc.n);
    } else if pc.Enqueue? && s.count == 0 {
      EnqueueKeepsInv(s, a, pc.lifo);
    } else {
      assert NumOk(pc);
      hide ListOk;
      MoveKeepsInv(s, StepOf(s, a, pc, spurious), a);
    }
  }

  /** Every step keeps it. */
  lemma NextKeepsInv(s: State, act: Action)
    requires Inv(s) && Enabled(s, act)
    ensures Inv(Next(s, act))
  {
    hide ListOk;
    match act
    case Interrupt(w) => LeaveKeepsInv(s, w, Load(PcOf(s, w).lifo));
    case TimeOut(w) => LeaveKeepsInv(s, w, Idle);
    case Step(a, spurious) => StepKeepsInv(s, a, spurious);
    case _ => if Next(s, act) != s { MoveKeepsInv(s, Next(s, act), act.a); }
  }

  // ---- Whole runs ------------------------------------------------------------------------

  ghost predicate StepAt(run: seq<State>, acts: seq<Action>, i: nat)
    requires |run| == |acts| + 1 && i < |acts|
  {
    Enabled(run[i], acts[i]) && run[i + 1] == Next(run[i], acts[i])
  }

  ghost predicate IsRun(run: seq<State>, acts: seq<Action>, value: nat) {
    && |run| == |acts| + 1
    && run[0] == State(value, [], map[])
    && forall i: nat :: i < |acts| ==> StepAt(run, acts, i)
  }

  lemma {:induction false} RunKeepsInv(run: seq<State>, acts: seq<Action>, value: nat, i: nat)
    requires IsRun(run, acts, value) && i < |run|
    ensures Inv(run[i])
  {
    if i > 0 {
      RunKeepsInv(run, acts, value, i - 1);
      assert StepAt(run, acts, i - 1);
      hide Inv;
      NextKeepsInv(run[i - 1], acts[i - 1]);
    }
  }

  /** What the first i actions posted. */
  function Posted(acts: seq<Action>, i: nat): nat
    requires i <= |acts|
  {
    if i == 0 then 0 else Posted(acts, i - 1) + if acts[i - 1].Post? then acts[i - 1].num else 0
  }

  /** At step k a wait or a trywait returns 0. */
  predicate GotAt(run: seq<State>, acts: seq<Action>, k: nat)
    requires |run| == |acts| + 1 && k < |acts|
  {
    var act := acts[k];
    act.Step? && (PcOf(run[k], act.a).Cas? || PcOf(run[k], act.a).TryCas?) && PcOf(run[k + 1], act.a).Idle?
  }

  /** How many did so in the first i steps. */
  function Got(run: seq<State>, acts: seq<Action>, i: nat): nat
    requires |run| == |acts| + 1 && i < |run|
  {
    if i == 0 then 0 else Got(run, acts, i - 1) + Bit(GotAt(run, acts, i - 1))
  }

  lemma TokenStep(run: seq<State>, acts: seq<Action>, value: nat, k: nat)
    requires IsRun(run, acts, value) && k < |acts|
    ensures run[k + 1].count + Bit(GotAt(run, acts, k)) == run[k].count + if acts[k].Post? then acts[k].num else 0
  {
    hide Without, WakeN;
    RunKeepsInv(run, acts, value, k);
    assert StepAt(run, acts, k);
    if acts[k].Step? {
      assert NumOk(PcOf(run[k], acts[k].a));
      if PcOf(run[k], acts[k].a).Wake? { WakeNKeepsCount(run[k], PcOf(run[k], acts[k].a).n); }
    }
  }

  lemma WakeNKeepsCount(s: State, n: nat)
    ensures WakeN(s, n).count == s.count
  {}

  /** Every wait that returned 0 took one of the tokens there were at first or
      that were posted, and what is left is the count. */
  lemma {:induction false} TokensAreConserved(run: seq<State>, acts: seq<Action>, value: nat, i: nat)
    requires IsRun(run, acts, value) && i < |run|
    ensures run[i].count + Got(run, acts, i) == value + Posted(acts, i)
  {
    hide StepAt, GotAt;
    if i > 0 {
      TokensAreConserved(run, acts, value, i - 1);
      TokenStep(run, acts, value, i - 1);
    }
  }

  /** bthread_sem_wait comes back on its own only with a token, which it gets
      whenever its compare-exchange finds the count it loaded. */
  lemma WaitReturnsWithAToken(run: seq<State>, acts: seq<Action>, value: nat, i: nat, a: nat, spurious: bool)
    requires IsRun(run, acts, value) && i < |acts| && acts[i] == Step(a, spurious)
    requires var pc := PcOf(run[i], a); pc.Load? || pc.Cas? || pc.Check? || pc.Enqueue?
    ensures var pc := PcOf(run[i], a);
      PcOf(run[i + 1], a).Idle? <==> pc.Cas? && run[i].count == pc.num && !spurious
    ensures PcOf(run[i + 1], a).Idle? ==> GotAt(run, acts, i)
    ensures PcOf(run[i + 1], a).Asleep? ==> run[i].count == 0 && a in run[i + 1].list
  {
    assert StepAt(run, acts, i);
  }

  /** bthread_sem_trywait refuses exactly when it finds no token. */
  lemma TryWaitRefusesOnlyAtZero(run: seq<State>, acts: seq<Action>, value: nat, i: nat, a: nat, spurious: bool)
    requires IsRun(run, acts, value) && i < |acts| && acts[i] == Step(a, spurious) && PcOf(run[i], a).TryLoad?
    ensures PcOf(run[i + 1], a).Idle? <==> run[i].count == 0
    ensures run[i].count > 0 ==> PcOf(run[i + 1], a) == TryCas(run[i].count)
  {
    assert StepAt(run, acts, i);
  }

  /** The wake of a post takes exactly the first n sleepers, n being the count
      it found, or all of them for 0; they go for another round. */
  lemma PostWakesTheFirst(run: seq<State>, acts: seq<Action>, value: nat, i: nat, a: nat, spurious: bool, w: nat)
    requires IsRun(run, acts, value) && i < |acts| && acts[i] == Step(a, spurious) && PcOf(run[i], a).Wake?
    ensures var q, n := run[i].list, PcOf(run[i], a).n; var k := if n == 0 || n > |q| then |q| else n;
      && run[i + 1].list == q[k..]
      && (w in q[..k] ==> PcOf(run[i + 1], w) == Load(true))
      && (w !in q[..k] && w != a ==> PcOf(run[i + 1], w) == PcOf(run[i], w))
  {
    RunKeepsInv(run, acts, value, i);
    assert StepAt(run, acts, i);
    var s, n := run[i], PcOf(run[i], a).n;
    WakeNPc(s, n, w);
    assert s.list[..|s.list|] == s.list && a !in s.list;
    var k := if n == 0 || n > |s.list| then |s.list| else n;
    assert Taken(s.list, n) == s.list[..k] && Left(s.list, n) == s.list[k..];
  }

  /** No wakeup is lost: while there are tokens and somebody sleeps, a poster
      that found no token is on its way to wake everybody. */
  lemma NoLostWakeup(run: seq<State>, acts: seq<Action>, value: nat, i: nat)
    requires IsRun(run, acts, value) && i < |run| && run[i].count > 0 && run[i].list != []
    ensures exists a :: WakesAll(run[i], a)
  {
    RunKeepsInv(run, acts, value, i);
  }

  /** When every call has returned or sleeps, nobody sleeps beside a token. */
  lemma QuietMeansNoToken(run: seq<State>, acts: seq<Action>, value: nat, i: nat)
    requires IsRun(run, acts, value) && i < |run|
    requires forall a :: PcOf(run[i], a).Idle? || PcOf(run[i], a).Asleep?
    ensures run[i].list == [] || run[i].count == 0
  {
    RunKeepsInv(run, acts, value, i);
  }
}
