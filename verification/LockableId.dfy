/** bthread_id: versions that tell live ids from dead ones and lock states
    apart, lockers that sleep on the butex, and errors that queue up while the
    id is locked. One slot, any number of threads; each step is a critical
    section under the id's mutex, a butex operation, or a whole creation. */
module LockableId {
  import opened Basics
  import opened Queues
  import opened Counting

  const ID_MAX_RANGE: nat := 1024

  datatype Error = Error(version: nat, code: int)

  /** What follows a butex_wake_except. */
  datatype Then = KeepHolding(v: nat) | GiveBack

  datatype Pc =
    | Idle
    // bthread_id_lock_and_reset_range: a pass of its loop, and butex_wait
    | Try(v: nat, range: int, ever: bool)
    | Check(v: nat, range: int, e: nat)
    | Enqueue(v: nat, range: int, e: nat)
    | Asleep(v: nat, range: int, e: nat)
    // locked by lock, trylock or on behalf of on_error
    | Holding(v: nat)
    // butex_wake after bthread_id_unlock
    | WakeOne
    // butex_wake_except after bthread_id_about_to_destroy or destroy
    | WakeAll(next: Then)
    // return_resource
    | Return
    | BadCheck

  /** delivered are the errors that on_error was called with in the present
      incarnation, and retired the versions that were valid once. */
  datatype State = State(
    first: nat, locked: nat, butex: nat, pending: seq<Error>, alive: bool, pooled: bool,
    list: seq<nat>, threads: map<nat, Pc>,
    delivered: seq<Error>, retired: set<nat>)

  const Init := State(0, 0, 0, [], false, true, [], map[], [], {})

  datatype Action =
    | Create(range: int)
    | LockCall(a: nat, v: nat, range: int)
    | TryLock(a: nat, v: nat)
    | RaiseError(a: nat, v: nat, code: int)
    | Unlock(a: nat)
    | AboutToDestroy(a: nat)
    | Destroy(a: nat)
    | Cancel(a: nat, v: nat)
    | Interrupt(w: nat)
    | Step(a: nat)

  function PcOf(s: State, a: nat): Pc {
    if a in s.threads then s.threads[a] else Idle
  }

  function Go(s: State, a: nat, pc: Pc): State {
    s.(threads := s.threads[a := pc])
  }

  predicate HasVersion(s: State, v: nat) {
    s.first <= v < s.locked
  }

  /** Calls on a locked id come from its holder. */
  predicate Enabled(s: State, act: Action) {
    match act
    case Create(_) => s.pooled
    case LockCall(a, _, _) => PcOf(s, a).Idle?
    case TryLock(a, _) => PcOf(s, a).Idle?
    case RaiseError(a, _, _) => PcOf(s, a).Idle? || PcOf(s, a).Holding?
    case Unlock(a) => PcOf(s, a).Holding?
    case AboutToDestroy(a) => PcOf(s, a).Holding?
    case Destroy(a) => PcOf(s, a).Holding?
    case Cancel(a, _) => PcOf(s, a).Idle?
    case Interrupt(w) => PcOf(s, w).Asleep?
    case Step(a) => var pc := PcOf(s, a); !pc.Idle? && !pc.Holding? && !pc.Asleep? && !pc.BadCheck?
  }

  ghost function Next(s: State, act: Action): State
    requires Enabled(s, act)
  {
    match act
    case Create(range) => CreateStep(s, range)
    case LockCall(a, v, range) => Go(s, a, Try(v, range, false))
    case TryLock(a, v) =>
      if HasVersion(s, v) && s.butex == s.first then Go(s.(butex := s.locked), a, Holding(v)) else s
    case RaiseError(a, v, code) => ErrorStep(s, a, v, code)
    case Unlock(a) => UnlockStep(s, a, PcOf(s, a).v)
    case AboutToDestroy(a) =>
      var v := PcOf(s, a).v;
      if !HasVersion(s, v) || s.butex == s.first then Go(s, a, BadCheck)
      else Go(s.(butex := s.locked + 2), a, if s.butex == s.locked + 1 then WakeAll(KeepHolding(v)) else Holding(v))
    case Destroy(a) =>
      var v := PcOf(s, a).v;
      if !HasVersion(s, v) || s.butex == s.first then Go(s, a, BadCheck) else Go(Retire(s), a, WakeAll(GiveBack))
    case Cancel(a, v) => if HasVersion(s, v) && s.butex == s.first then Go(Retire(s), a, Return) else s
    case Interrupt(w) => Awaken(s, w)
    case Step(a) => StepOf(s, a, PcOf(s, a))
  }

  /** Versions first to first + range - 1 become valid. At 0 and close to the
      end of 32 bits numbering starts again at 1. */
  predicate Restarts(s: State) {
    s.butex == 0 || (s.butex + ID_MAX_RANGE + 2) % U32 < s.butex
  }

  function CreateStep(s: State, range: int): State {
    if range < 1 || range > ID_MAX_RANGE then s
    else
      var b := if Restarts(s) then 1 else s.butex;
      s.(first := b, locked := b + range, butex := b, alive := true, pooled := false, delivered := [],
         retired := if Restarts(s) then {} else s.retired)
  }

  function ErrorStep(s: State, a: nat, v: nat, code: int): State {
    var e := Error(v, code);
    if !HasVersion(s, v) then s
    else if s.butex == s.first then
      Go(s.(butex := s.locked, delivered := s.delivered + [e]), a, Holding(v))
    else s.(pending := s.pending + [e])
  }

  /** bthread_id_unlock gives the oldest pending error to on_error, which goes
      on holding the id, or unlocks it. */
  function UnlockStep(s: State, a: nat, v: nat): State {
    if !HasVersion(s, v) || s.butex == s.first then Go(s, a, BadCheck)
    else if s.pending != [] then
      var e := s.pending[0];
      Go(s.(pending := s.pending[1..], delivered := s.delivered + [e]), a, Holding(e.version))
    else Go(s.(butex := s.first), a, if s.butex == s.locked + 1 then WakeOne else Idle)
  }

  ghost function Span(lo: nat, hi: nat): (vs: set<nat>)
    ensures forall v :: v in vs <==> lo <= v < hi
    decreases hi - lo
  {
    if lo >= hi then {} else {lo} + Span(lo + 1, hi)
  }

  /** Destroyed or cancelled: end_ver becomes the next first version. */
  ghost function Retire(s: State): State {
    var end := (s.locked + 3) % U32;
    s.(first := end, locked := end, butex := end, pending := [], alive := false,
       retired := s.retired + Span(s.first, s.locked))
  }

  function Retry(pc: Pc): Pc {
    if pc.Asleep? then Try(pc.v, pc.range, true) else pc
  }

  /** A sleeping locker goes for another pass. */
  function Awaken(s: State, w: nat): State {
    s.(list := Without(s.list, w), threads := s.threads[w := Retry(PcOf(s, w))])
  }

  function AwakenAll(s: State): State {
    s.(list := [], threads := map t | t in s.threads :: if t in s.list then Retry(s.threads[t]) else s.threads[t])
  }

  /** The range a lock asked for: it may only grow, up to the limit. */
  function NewLocked(s: State, range: int): nat {
    if 0 < range <= ID_MAX_RANGE && s.first + range > s.locked then s.first + range else s.locked
  }

  function StepOf(s: State, a: nat, pc: Pc): State {
    match pc
    case Try(v, range, ever) =>
      if !HasVersion(s, v) then Go(s, a, Idle)
      else if s.butex == s.first then
        var locked := NewLocked(s, range);
        Go(s.(locked := locked, butex := if ever then locked + 1 else locked), a, Holding(v))
      else if s.butex != s.locked + 2 then Go(s.(butex := s.locked + 1), a, Check(v, range, s.locked + 1))
      else Go(s, a, Idle)
    case Check(v, range, e) => Go(s, a, if s.butex == e then Enqueue(v, range, e) else Try(v, range, true))
    case Enqueue(v, range, e) =>
      if s.butex == e then Go(s.(list := s.list + [a]), a, Asleep(v, range, e)) else Go(s, a, Try(v, range, true))
    case WakeOne => Go(if s.list == [] then s else Awaken(s, s.list[0]), a, Idle)
    case WakeAll(next) => Go(AwakenAll(s), a, if next.KeepHolding? then Holding(next.v) else Return)
    case Return => Go(s.(pooled := true), a, Idle)
    case _ => s
  }

  // ---- Invariant -------------------------------------------------------------------

  /** The four lock states are four numbers in this order, without overflow;
      an id that is not alive has none. */
  predicate NumbersOk(s: State) {
    if s.alive then
      && 1 <= s.first < s.locked <= s.first + ID_MAX_RANGE && s.first + ID_MAX_RANGE + 2 < U32
      && (s.butex == s.first || s.butex == s.locked || s.butex == s.locked + 1 || s.butex == s.locked + 2)
    else s.first == s.locked == s.butex < U32
  }

  predicate Held(s: State) {
    s.alive && s.butex != s.first
  }

  /** Between locking the id and unlocking or destroying it. */
  predicate Holds(pc: Pc) {
    pc.Holding? || (pc.WakeAll? && pc.next.KeepHolding?)
  }

  function VersionOf(pc: Pc): nat
    requires Holds(pc)
  {
    if pc.Holding? then pc.v else pc.next.v
  }

  /** On the way to give the slot back to the pool. */
  predicate Returns(pc: Pc) {
    pc.Return? || (pc.WakeAll? && pc.next.GiveBack?)
  }

  ghost predicate HoldersOk(s: State) {
    && Count(s.threads, Holds) == Bit(Held(s))
    && (forall a :: Holds(PcOf(s, a)) ==> HasVersion(s, VersionOf(PcOf(s, a))))
    && (forall a :: !PcOf(s, a).BadCheck?)
  }

  ghost predicate PoolOk(s: State) {
    && Count(s.threads, Returns) == Bit(!s.alive && !s.pooled)
    && !(s.alive && s.pooled)
  }

  ghost predicate ErrorsOk(s: State) {
    && (!Held(s) ==> s.pending == [])
    && (forall k :: 0 <= k < |s.pending| ==> HasVersion(s, s.pending[k].version))
  }

  ghost predicate RetiredOk(s: State) {
    s.alive || s.butex != 0 ==> forall v :: v in s.retired ==> v < s.first
  }

  ghost predicate ListOk(s: State) {
    Distinct(s.list) && forall t :: t in s.list <==> PcOf(s, t).Asleep?
  }

  ghost predicate Inv(s: State) {
    NumbersOk(s) && HoldersOk(s) && PoolOk(s) && ErrorsOk(s) && RetiredOk(s) && ListOk(s)
  }

  // ---- Every step keeps the invariant ------------------------------------------------

  lemma HolderHas(s: State, a: nat)
    requires Inv(s) && Holds(PcOf(s, a))
    ensures Held(s) && HasVersion(s, VersionOf(PcOf(s, a)))
  {
    CountMoves(s.threads, a, Idle, Holds);
  }

  /** One thread moves, and the numbers with it. */
  lemma CountsKept(s: State, t: State, a: nat)
    requires HoldersOk(s) && PoolOk(s) && t.threads == s.threads[a := PcOf(t, a)]
    requires Bit(Held(t)) == Bit(Held(s)) - Bit(Holds(PcOf(s, a))) + Bit(Holds(PcOf(t, a)))
    requires Bit(!t.alive && !t.pooled) == Bit(!s.alive && !s.pooled) - Bit(Returns(PcOf(s, a))) + Bit(Returns(PcOf(t, a)))
    requires !(t.alive && t.pooled) && !PcOf(t, a).BadCheck?
    requires Holds(PcOf(t, a)) ==> HasVersion(t, VersionOf(PcOf(t, a)))
    requires (forall v :: HasVersion(s, v) ==> HasVersion(t, v)) || forall b :: b != a ==> !Holds(PcOf(s, b))
    ensures HoldersOk(t) && PoolOk(t)
  {
    CountMoves(s.threads, a, PcOf(t, a), Holds);
    CountMoves(s.threads, a, PcOf(t, a), Returns);
    hide Count;
    assert forall b :: b != a ==> PcOf(t, b) == PcOf(s, b);
  }

  lemma ListKept(s: State, t: State, a: nat)
    requires ListOk(s) && t.list == s.list && t.threads == s.threads[a := PcOf(t, a)]
    requires !PcOf(s, a).Asleep? && !PcOf(t, a).Asleep?
    ensures ListOk(t)
  {
  }

  /** The only holder. */
  lemma OnlyHolder(s: State, a: nat, b: nat)
    requires HoldersOk(s) && Holds(PcOf(s, a)) && Holds(PcOf(s, b))
    ensures a == b
  {
    CountOne(s.threads, Holds, a, b);
  }

  lemma CreateKeepsInv(s: State, range: int)
    requires Inv(s) && s.pooled
    ensures Inv(CreateStep(s, range))
  {
    var t := CreateStep(s, range);
    CountZero(s.threads, Holds);
    assert forall a :: Holds(PcOf(s, a)) ==> a in s.threads && Holds(s.threads[a]);
    assert forall a :: !Holds(PcOf(s, a));
    hide Count;
    assert t.threads == s.threads && forall a :: PcOf(t, a) == PcOf(s, a);
  }

  /** A locker's pass, and everything else that leaves the list alone. */
  lemma QuietKeepsInv(s: State, t: State, a: nat)
    requires Inv(s) && NumbersOk(t) && t.list == s.list && t.threads == s.threads[a := PcOf(t, a)]
    requires !PcOf(s, a).Asleep? && !PcOf(t, a).Asleep? && !PcOf(t, a).BadCheck?
    requires t.alive == s.alive && t.first == s.first && t.locked >= s.locked && t.retired == s.retired
    requires Bit(Held(t)) == Bit(Held(s)) - Bit(Holds(PcOf(s, a))) + Bit(Holds(PcOf(t, a)))
    requires Bit(!t.alive && !t.pooled) == Bit(!s.alive && !s.pooled) - Bit(Returns(PcOf(s, a))) + Bit(Returns(PcOf(t, a)))
    requires !(t.alive && t.pooled) && (Holds(PcOf(t, a)) ==> HasVersion(t, VersionOf(PcOf(t, a))))
    requires ErrorsOk(t)
    ensures Inv(t)
  {
    hide HoldersOk, PoolOk, ListOk;
    CountsKept(s, t, a);
    ListKept(s, t, a);
  }

  lemma CallKeepsInv(s: State, act: Action)
    requires Inv(s) && Enabled(s, act) && (act.LockCall? || act.TryLock? || act.AboutToDestroy?)
    ensures Inv(Next(s, act))
  {
    if act.AboutToDestroy? { HolderHas(s, act.a); }
    hide HoldersOk, PoolOk, ListOk;
    var t := Next(s, act);
    if t != s { QuietKeepsInv(s, t, act.a); }
  }

  lemma ErrorKeepsInv(s: State, a: nat, v: nat, code: int)
    requires Inv(s) && Enabled(s, RaiseError(a, v, code))
    ensures Inv(ErrorStep(s, a, v, code))
  {
    if PcOf(s, a).Holding? { HolderHas(s, a); }
    hide HoldersOk, PoolOk, ListOk;
    var t, e := ErrorStep(s, a, v, code), Error(v, code);
    if HasVersion(s, v) && s.butex == s.first {
      QuietKeepsInv(s, t, a);
    } else if HasVersion(s, v) {
      SameThreads(s, t);
    }
  }

  lemma SameThreads(s: State, t: State)
    requires Inv(s) && NumbersOk(t) && ErrorsOk(t)
    requires t == s.(pending := t.pending, delivered := t.delivered)
    ensures Inv(t)
  {
    assert forall a :: PcOf(t, a) == PcOf(s, a);
  }

  lemma UnlockKeepsInv(s: State, a: nat)
    requires Inv(s) && PcOf(s, a).Holding?
    ensures Inv(UnlockStep(s, a, PcOf(s, a).v))
  {
    HolderHas(s, a);
    hide HoldersOk, PoolOk, ListOk;
    var t := UnlockStep(s, a, PcOf(s, a).v);
    if s.pending != [] {
      assert forall k :: 0 <= k < |t.pending| ==> t.pending[k] == s.pending[k + 1];
    }
    QuietKeepsInv(s, t, a);
  }

  lemma RetireKeepsInv(s: State, a: nat, pc: Pc)
    requires Inv(s) && s.alive && !PcOf(s, a).Asleep? && Returns(pc)
    requires if Held(s) then Holds(PcOf(s, a)) else PcOf(s, a).Idle?
    ensures Inv(Go(Retire(s), a, pc))
  {
    var t := Go(Retire(s), a, pc);
    forall b | b != a ensures !Holds(PcOf(s, b)) {
      if Holds(PcOf(s, b)) {
        HolderHas(s, b);
        if Holds(PcOf(s, a)) { OnlyHolder(s, a, b); }
      }
    }
    hide HoldersOk, PoolOk, ListOk;
    CountsKept(s, t, a);
    ListKept(s, t, a);
  }

  lemma AwakenKeepsInv(s: State, w: nat)
    requires Inv(s) && PcOf(s, w).Asleep?
    ensures Inv(Awaken(s, w))
  {
    var t := Awaken(s, w);
    WithoutOk(s.list, w);
    assert ListOk(t) by { hide Without; }
    hide Without, ListOk;
    assert PcOf(t, w) == Retry(PcOf(s, w));
    CountsKept(s, t, w);
  }

  lemma AwakenAllPc(s: State, x: nat)
    requires ListOk(s)
    ensures PcOf(AwakenAll(s), x) == Retry(PcOf(s, x))
  {
  }

  lemma SameCount(m: map<nat, Pc>, n: map<nat, Pc>, p: Pc -> bool)
    requires m.Keys == n.Keys && forall a :: a in m ==> p(m[a]) == p(n[a])
    ensures Count(m, p) == Count(n, p)
  {
    assert Those(m, p) == Those(n, p);
  }

  lemma AwakenAllKeepsInv(s: State)
    requires Inv(s)
    ensures Inv(AwakenAll(s))
  {
    var t := AwakenAll(s);
    forall x ensures PcOf(t, x) == Retry(PcOf(s, x)) { AwakenAllPc(s, x); }
    SameCount(s.threads, t.threads, Holds);
    SameCount(s.threads, t.threads, Returns);
    hide Count, AwakenAll;
  }

  lemma EnqueueKeepsInv(s: State, a: nat, pc: Pc)
    requires Inv(s) && PcOf(s, a) == pc && pc.Enqueue? && s.butex == pc.e
    ensures Inv(StepOf(s, a, pc))
  {
    var t := StepOf(s, a, pc);
    assert forall w :: w in t.list <==> w == a || w in s.list;
    assert ListOk(t);
    hide ListOk;
    CountsKept(s, t, a);
  }

  lemma WakeStepKeepsInv(s: State, a: nat)
    requires Inv(s) && (PcOf(s, a).WakeAll? || (PcOf(s, a).WakeOne? && s.list != []))
    ensures Inv(StepOf(s, a, PcOf(s, a)))
  {
    var pc := PcOf(s, a);
    if pc.WakeOne? {
      assert s.list[0] in s.list;
      AwakenKeepsInv(s, s.list[0]);
      hide HoldersOk, PoolOk, ListOk;
      QuietKeepsInv(Awaken(s, s.list[0]), StepOf(s, a, pc), a);
    } else {
      AwakenAllKeepsInv(s);
      AwakenAllPc(s, a);
      if pc.next.KeepHolding? { HolderHas(s, a); } else { ReturnsOnce(s, a); }
      hide HoldersOk, PoolOk, ListOk, AwakenAll;
      QuietKeepsInv(AwakenAll(s), StepOf(s, a, pc), a);
    }
  }

  lemma PassKeepsInv(s: State, a: nat)
    requires Inv(s) && Enabled(s, Step(a)) && !PcOf(s, a).WakeAll? && !(PcOf(s, a).WakeOne? && s.list != [])
    requires !(PcOf(s, a).Enqueue? && s.butex == PcOf(s, a).e)
    ensures Inv(StepOf(s, a, PcOf(s, a)))
  {
    if PcOf(s, a).Return? { ReturnsOnce(s, a); }
    hide HoldersOk, PoolOk, ListOk;
    QuietKeepsInv(s, StepOf(s, a, PcOf(s, a)), a);
  }

  lemma StepKeepsInv(s: State, a: nat)
    requires Inv(s) && Enabled(s, Step(a))
    ensures Inv(StepOf(s, a, PcOf(s, a)))
  {
    hide Inv, StepOf;
    var pc := PcOf(s, a);
    if pc.Enqueue? && s.butex == pc.e {
      EnqueueKeepsInv(s, a, pc);
    } else if pc.WakeAll? || (pc.WakeOne? && s.list != []) {
      WakeStepKeepsInv(s, a);
    } else {
      PassKeepsInv(s, a);
    }
  }

  lemma ReturnsOnce(s: State, a: nat)
    requires Inv(s) && Returns(PcOf(s, a))
    ensures !s.alive && !s.pooled
  {
    CountMoves(s.threads, a, Idle, Returns);
  }

  lemma NextKeepsInv(s: State, act: Action)
    requires Inv(s) && Enabled(s, act)
    ensures Inv(Next(s, act))
  {
    match act
    case Create(range) => CreateKeepsInv(s, range);
    case RaiseError(a, v, code) => ErrorKeepsInv(s, a, v, code);
    case Unlock(a) => UnlockKeepsInv(s, a);
    case Destroy(a) => HolderHas(s, a); RetireKeepsInv(s, a, WakeAll(GiveBack));
    case Cancel(a, v) => if HasVersion(s, v) && s.butex == s.first { RetireKeepsInv(s, a, Return); }
    case Interrupt(w) => AwakenKeepsInv(s, w);
    case Step(a) => StepKeepsInv(s, a);
    case _ => CallKeepsInv(s, act);
  }

  // ---- Whole runs -----------------------------------------------------------------------

  ghost predicate StepAt(run: seq<State>, acts: seq<Action>, i: nat)
    requires |run| == |acts| + 1 && i < |acts|
  {
    Enabled(run[i], acts[i]) && run[i + 1] == Next(run[i], acts[i])
  }

  ghost predicate IsRun(run: seq<State>, acts: seq<Action>) {
    && |run| == |acts| + 1
    && run[0] == Init
    && forall i: nat :: i < |acts| ==> StepAt(run, acts, i)
  }

  lemma {:induction false} RunKeepsInv(run: seq<State>, acts: seq<Action>, i: nat)
    requires IsRun(run, acts) && i < |run|
    ensures Inv(run[i])
  {
    if i == 0 {
      CountZero(Init.threads, Holds);
      CountZero(Init.threads, Returns);
    } else {
      RunKeepsInv(run, acts, i - 1);
      assert StepAt(run, acts, i - 1);
      hide Inv, Next;
      NextKeepsInv(run[i - 1], acts[i - 1]);
    }
  }

  /** In every run at most one thread holds the id, and then the butex says
      that it is locked. */
  lemma AtMostOneHolder(run: seq<State>, acts: seq<Action>, i: nat, a: nat, b: nat)
    requires IsRun(run, acts) && i < |run| && Holds(PcOf(run[i], a)) && Holds(PcOf(run[i], b))
    ensures a == b && Held(run[i])
  {
    RunKeepsInv(run, acts, i);
    HolderHas(run[i], a);
    OnlyHolder(run[i], a, b);
  }

  /** The butex always is one of the four values of the present incarnation,
      which are in order and fit in 32 bits. */
  lemma StatesAreOrdered(run: seq<State>, acts: seq<Action>, i: nat)
    requires IsRun(run, acts) && i < |run| && run[i].alive
    ensures 0 < run[i].first < run[i].locked < run[i].locked + 1 < run[i].locked + 2 < U32
    ensures run[i].butex in {run[i].first, run[i].locked, run[i].locked + 1, run[i].locked + 2}
  {
    RunKeepsInv(run, acts, i);
  }

  /** The errors raised on the present incarnation by the first i actions: each
      bthread_id_error whose version was valid when it came. */
  function Raised(run: seq<State>, acts: seq<Action>, i: nat): seq<Error>
    requires |run| == |acts| + 1 && i < |run|
  {
    if i == 0 then []
    else
      var before := Raised(run, acts, i - 1);
      match acts[i - 1]
      case Create(range) => if 1 <= range <= ID_MAX_RANGE then [] else before
      case RaiseError(_, v, code) => if HasVersion(run[i - 1], v) then before + [Error(v, code)] else before
      case _ => before
  }

  /** One action on the errors: those delivered and pending together change only
      by a valid one that is raised, or start from none with a new incarnation. */
  lemma ErrorsStep(s: State, act: Action)
    requires Inv(s) && Enabled(s, act)
    ensures var t := Next(s, act);
      match act
      case Create(range) => 1 <= range <= ID_MAX_RANGE ==> t.delivered + t.pending == []
      case RaiseError(_, v, code) => HasVersion(s, v) ==> t.delivered + t.pending == s.delivered + s.pending + [Error(v, code)]
      case _ => s.alive && t.alive ==> t.delivered + t.pending == s.delivered + s.pending
    ensures act.Create? && !(1 <= act.range <= ID_MAX_RANGE) ==> Next(s, act) == s
    ensures act.RaiseError? && !HasVersion(s, act.v) ==> Next(s, act) == s
    ensures !act.Create? && !s.alive ==> !Next(s, act).alive && Next(s, act).delivered == s.delivered
    ensures s.alive && !Next(s, act).alive ==> Next(s, act).delivered == s.delivered
  {
    hide HoldersOk, RetiredOk, ListOk, Without, Count;
  }

  lemma RaisedStep(run: seq<State>, acts: seq<Action>, i: nat)
    requires IsRun(run, acts) && i < |acts| && Inv(run[i])
    requires run[i].alive ==> run[i].delivered + run[i].pending == Raised(run, acts, i)
    requires run[i].delivered <= Raised(run, acts, i)
    ensures run[i + 1].alive ==> run[i + 1].delivered + run[i + 1].pending == Raised(run, acts, i + 1)
    ensures run[i + 1].delivered <= Raised(run, acts, i + 1)
  {
    hide Inv, Next, Enabled;
    assert StepAt(run, acts, i);
    ErrorsStep(run[i], acts[i]);
  }

  lemma {:induction false} RaisedSoFar(run: seq<State>, acts: seq<Action>, i: nat)
    requires IsRun(run, acts) && i < |run|
    ensures run[i].alive ==> run[i].delivered + run[i].pending == Raised(run, acts, i)
    ensures run[i].delivered <= Raised(run, acts, i)
  {
    hide Inv, StepAt;
    if i > 0 {
      RaisedSoFar(run, acts, i - 1);
      RunKeepsInv(run, acts, i - 1);
      RaisedStep(run, acts, i - 1);
    }
  }

  /** Errors reach on_error in the order they were raised: those it was called
      with and those still pending are all that were raised, and when the id is
      not locked none is pending. */
  lemma ErrorsInOrderBeforeUnlock(run: seq<State>, acts: seq<Action>, i: nat)
    requires IsRun(run, acts) && i < |run|
    ensures run[i].alive ==> run[i].delivered + run[i].pending == Raised(run, acts, i)
    ensures run[i].alive && !Held(run[i]) ==> run[i].delivered == Raised(run, acts, i)
    ensures run[i].delivered <= Raised(run, acts, i)
  {
    hide StepAt, Raised;
    RaisedSoFar(run, acts, i);
    RunKeepsInv(run, acts, i);
  }

  /** on_error is called by the thread that then holds the id, with one error
      at a time, and the error's version. */
  lemma DeliveredToTheHolder(run: seq<State>, acts: seq<Action>, i: nat)
    requires IsRun(run, acts) && i < |acts| && !acts[i].Create? && run[i + 1].delivered != run[i].delivered
    ensures acts[i].RaiseError? || acts[i].Unlock?
    ensures exists e :: run[i + 1].delivered == run[i].delivered + [e] && PcOf(run[i + 1], acts[i].a) == Holding(e.version)
  {
    hide Without;
    assert StepAt(run, acts, i);
    var s, t := run[i], run[i + 1];
    var e := if acts[i].RaiseError? then Error(acts[i].v, acts[i].code) else s.pending[0];
    assert t.delivered == s.delivered + [e];
  }

  /** bthread_id_unlock unlocks the id if and only if every error raised so far
      has been delivered; otherwise the next one is. */
  lemma UnlockUnlocksOrDelivers(run: seq<State>, acts: seq<Action>, i: nat, a: nat)
    requires IsRun(run, acts) && i < |acts| && acts[i] == Unlock(a)
    ensures Held(run[i]) && run[i].delivered <= Raised(run, acts, i)
    ensures !Held(run[i + 1]) <==> run[i].delivered == Raised(run, acts, i)
    ensures run[i].delivered < Raised(run, acts, i) ==>
      run[i + 1].delivered == Raised(run, acts, i)[..|run[i].delivered| + 1]
  {
    ErrorsInOrderBeforeUnlock(run, acts, i);
    RunKeepsInv(run, acts, i);
    assert StepAt(run, acts, i);
    HolderHas(run[i], a);
  }

  /** bthread_id_trylock takes a valid id that nobody holds, and nothing else. */
  lemma TryLockTakesAFreeId(run: seq<State>, acts: seq<Action>, i: nat, a: nat, v: nat)
    requires IsRun(run, acts) && i < |acts| && acts[i] == TryLock(a, v)
    ensures PcOf(run[i + 1], a) == Holding(v) <==> HasVersion(run[i], v) && !Held(run[i])
    ensures PcOf(run[i + 1], a).Holding? || run[i + 1] == run[i]
  {
    RunKeepsInv(run, acts, i);
    assert StepAt(run, acts, i);
  }

  /** bthread_id_lock takes a valid id that nobody holds, returns with an error
      exactly from an invalid or about to be destroyed one, and goes to wait
      otherwise. */
  lemma LockTakesAFreeId(run: seq<State>, acts: seq<Action>, i: nat, a: nat)
    requires IsRun(run, acts) && i < |acts| && acts[i] == Step(a) && PcOf(run[i], a).Try?
    ensures var s, v, pc := run[i], PcOf(run[i], a).v, PcOf(run[i + 1], a);
      && (pc == Holding(v) <==> HasVersion(s, v) && !Held(s))
      && (pc.Idle? <==> !HasVersion(s, v) || s.butex == s.locked + 2)
      && (pc.Holding? || pc.Idle? || pc == Check(v, PcOf(s, a).range, run[i + 1].butex))
  {
    RunKeepsInv(run, acts, i);
    assert StepAt(run, acts, i);
  }

  /** bthread_id_create makes exactly range new versions valid, on an id that
      nobody holds and without errors. */
  lemma CreatedIsValid(run: seq<State>, acts: seq<Action>, i: nat, range: int, v: nat)
    requires IsRun(run, acts) && i < |acts| && acts[i] == Create(range) && 1 <= range <= ID_MAX_RANGE
    ensures run[i + 1].first > 0 && run[i + 1].alive && !Held(run[i + 1])
    ensures HasVersion(run[i + 1], v) <==> run[i + 1].first <= v < run[i + 1].first + range
    ensures HasVersion(run[i + 1], v) ==> v !in run[i + 1].retired
    ensures Raised(run, acts, i + 1) == [] && run[i + 1].delivered == []
  {
    RunKeepsInv(run, acts, i + 1);
    assert StepAt(run, acts, i);
  }

  predicate Releases(act: Action) {
    act.Unlock? || act.Destroy?
  }

  lemma AboutToDestroyMarks(s: State, a: nat)
    requires Inv(s) && Enabled(s, AboutToDestroy(a))
    ensures var t := Next(s, AboutToDestroy(a)); t.alive && t.butex == t.locked + 2
  {
    HolderHas(s, a);
  }

  lemma DoomedStep(s: State, act: Action)
    requires Inv(s) && Enabled(s, act) && s.alive && s.butex == s.locked + 2 && !Releases(act)
    ensures var t := Next(s, act); t.alive && t.butex == t.locked + 2
  {
    hide HoldersOk, RetiredOk, ListOk, Without, Count;
  }

  /** After bthread_id_about_to_destroy no lock succeeds or waits until the
      holder unlocks or destroys the id: LockTakesAFreeId says what the locks
      do then. */
  lemma {:induction false} AboutToDestroyStays(run: seq<State>, acts: seq<Action>, i: nat, j: nat)
    requires IsRun(run, acts) && i < j < |run| && acts[i].AboutToDestroy?
    requires forall k :: i <= k < j ==> !Releases(acts[k])
    ensures run[j].alive && run[j].butex == run[j].locked + 2
  {
    hide Inv, Next;
    RunKeepsInv(run, acts, j - 1);
    assert StepAt(run, acts, j - 1) && !Releases(acts[j - 1]);
    if i == j - 1 {
      AboutToDestroyMarks(run[i], acts[i].a);
    } else {
      AboutToDestroyStays(run, acts, i, j - 1);
      DoomedStep(run[j - 1], acts[j - 1]);
    }
  }

  /** The action destroys the id, or cancels it before anybody locked it. */
  predicate Ends(s: State, act: Action) {
    act.Destroy? || (act.Cancel? && HasVersion(s, act.v) && !Held(s))
  }

  predicate EndsAt(run: seq<State>, acts: seq<Action>, i: nat)
    requires |run| == |acts| + 1 && i < |acts|
  {
    Ends(run[i], acts[i])
  }

  predicate RestartsAt(run: seq<State>, acts: seq<Action>, i: nat)
    requires |run| == |acts| + 1 && i < |acts|
  {
    acts[i].Create? && Restarts(run[i])
  }

  lemma RetiredStays(s: State, act: Action, v: nat)
    requires Inv(s) && Enabled(s, act)
    requires (v in s.retired && !(act.Create? && Restarts(s))) || (Ends(s, act) && HasVersion(s, v))
    ensures v in Next(s, act).retired
  {
    hide PoolOk, RetiredOk, ListOk, Without;
    if act.Destroy? { HolderHas(s, act.a); }
  }

  lemma {:induction false} EndedIsRetired(run: seq<State>, acts: seq<Action>, i: nat, j: nat, v: nat)
    requires IsRun(run, acts) && i < j < |run| && EndsAt(run, acts, i) && HasVersion(run[i], v)
    requires forall k: nat :: i < k < j ==> !RestartsAt(run, acts, k)
    ensures v in run[j].retired
  {
    RunKeepsInv(run, acts, j - 1);
    assert StepAt(run, acts, j - 1);
    hide Inv, Next, Enabled;
    if i < j - 1 {
      EndedIsRetired(run, acts, i, j - 1, v);
      assert !RestartsAt(run, acts, j - 1);
    }
    RetiredStays(run[j - 1], acts[j - 1], v);
  }

  /** Every version of an id that was destroyed or cancelled is refused from
      then on, until numbering starts again. */
  lemma EndedIsRefused(run: seq<State>, acts: seq<Action>, i: nat, j: nat, v: nat)
    requires IsRun(run, acts) && i < j < |run| && EndsAt(run, acts, i) && HasVersion(run[i], v)
    requires forall k: nat :: i < k < j ==> !RestartsAt(run, acts, k)
    ensures !HasVersion(run[j], v)
  {
    EndedIsRetired(run, acts, i, j, v);
    RunKeepsInv(run, acts, j);
  }

  /** A destroyed slot goes back to the pool once, before it is used again. */
  lemma GivenBackOnce(run: seq<State>, acts: seq<Action>, i: nat, a: nat, b: nat)
    requires IsRun(run, acts) && i < |run| && Returns(PcOf(run[i], a)) && Returns(PcOf(run[i], b))
    ensures a == b && !run[i].alive && !run[i].pooled
  {
    RunKeepsInv(run, acts, i);
    ReturnsOnce(run[i], a);
    CountOne(run[i].threads, Returns, a, b);
  }

  /** The holder's calls never find the id invalid or unlocked. */
  lemma ChecksNeverFail(run: seq<State>, acts: seq<Action>, i: nat, a: nat)
    requires IsRun(run, acts) && i < |run|
    ensures !PcOf(run[i], a).BadCheck?
  {
    RunKeepsInv(run, acts, i);
  }

  // ---- Who wakes the sleepers --------------------------------------------------------

  predicate IsWakeOne(pc: Pc) {
    pc.WakeOne?
  }

  /** Wakeups of a single locker that are on their way. */
  ghost function Wakes(s: State): nat {
    Count(s.threads, IsWakeOne)
  }

  predicate WakesAll(s: State, a: nat) {
    PcOf(s, a).WakeAll?
  }

  ghost predicate SomeWakesAll(s: State) {
    exists a :: WakesAll(s, a)
  }

  predicate InWait(pc: Pc) {
    pc.Check? || pc.Enqueue?
  }

  /** Comparing e with the butex finds it contended, or else another value. */
  predicate Sure(s: State, e: nat) {
    e != s.first && e != s.locked && e != s.locked + 2
  }

  /** Bound to lock the id marked, to mark it, or to find it marked: a locker
      that waited before, or one that is about to compare a number that can only
      mean contended. */
  predicate Rescues(s: State, a: nat) {
    var pc := PcOf(s, a);
    && ((pc.Try? && pc.ever) || (InWait(pc) && Sure(s, pc.e)))
    && HasVersion(s, pc.v)
  }

  ghost predicate SomeRescues(s: State) {
    exists a :: Rescues(s, a)
  }

  /** Waits for a version of the present incarnation: once awake it goes on to
      see that the others wake up. A sleeper of a gone one just returns. */
  predicate Live(s: State, w: nat) {
    PcOf(s, w).Asleep? && HasVersion(s, PcOf(s, w).v)
  }

  /** The holder wakes somebody up, or everybody. */
  predicate Marked(s: State) {
    s.alive && (s.butex == s.locked + 1 || s.butex == s.locked + 2)
  }

  /** Of the first k sleepers some go on, and behind them none just returns. */
  ghost predicate LiveWithin(s: State, k: nat) {
    exists j :: 0 <= j < k && j < |s.list| && Live(s, s.list[j])
  }

  ghost predicate LiveBeyond(s: State, k: nat) {
    forall j :: k <= j < |s.list| ==> Live(s, s.list[j])
  }

  ghost predicate Helped(s: State) {
    Marked(s) || SomeRescues(s) || LiveWithin(s, Wakes(s))
  }

  /** More sleepers than wakeups on their way, and those whom the wakeups do not
      reach are waiting for an id that is gone, or for one that is not marked
      and with nobody on the way to mark it. */
  ghost predicate Stranded(s: State) {
    |s.list| > Wakes(s) && !SomeWakesAll(s) && !(LiveBeyond(s, Wakes(s)) && Helped(s))
  }

  /** An unlock after about_to_destroy overwrites the mark, with more sleepers
      than wakeups and nobody to mark the id again. */
  ghost predicate LosingUnlock(s: State, act: Action) {
    && act.Unlock? && PcOf(s, act.a).Holding? && s.pending == [] && s.butex == s.locked + 2
    && |s.list| > Wakes(s) && !SomeRescues(s) && !LiveWithin(s, Wakes(s))
  }

  /** A cancel with more sleepers than wakeups on their way. */
  ghost predicate LosingCancel(s: State, act: Action) {
    act.Cancel? && HasVersion(s, act.v) && s.butex == s.first && |s.list| > Wakes(s)
  }

  /** A locker goes to sleep without a wakeup of its own, for an id that is gone
      or for one that is not marked and that nobody is going to mark. */
  ghost predicate LosingSleep(s: State, act: Action) {
    && act.Step? && PcOf(s, act.a).Enqueue? && s.butex == PcOf(s, act.a).e
    && |s.list| >= Wakes(s) && !SomeWakesAll(s) && !(HasVersion(s, PcOf(s, act.a).v) && Helped(s))
  }

  /** A lock takes the id without a mark and grows its range, so that those who
      were about to compare the number for contended may be mistaken. */
  ghost predicate LosingGrowth(s: State, act: Action) {
    && act.Step? && Takes(s, act.a) && !PcOf(s, act.a).ever
    && |s.list| > Wakes(s) && !SomeWakesAll(s)
    && var grown := s.(locked := NewLocked(s, PcOf(s, act.a).range));
       grown.locked > s.locked && !SomeRescues(grown) && !LiveWithin(grown, Wakes(s))
  }

  /** A pass of lock's loop that gets the id. */
  predicate Takes(s: State, a: nat) {
    PcOf(s, a).Try? && HasVersion(s, PcOf(s, a).v) && s.butex == s.first
  }

  ghost predicate Losing(s: State, act: Action) {
    LosingUnlock(s, act) || LosingCancel(s, act) || LosingSleep(s, act) || LosingGrowth(s, act)
  }

  lemma WakesMove(s: State, t: State, a: nat)
    requires t.threads == s.threads[a := PcOf(t, a)]
    ensures Wakes(t) == Wakes(s) - Bit(PcOf(s, a).WakeOne?) + Bit(PcOf(t, a).WakeOne?)
    ensures forall b :: b != a ==> PcOf(t, b) == PcOf(s, b)
  {
    CountMoves(s.threads, a, PcOf(t, a), IsWakeOne);
  }

  lemma StillWakesAll(s: State, t: State, a: nat)
    requires SomeWakesAll(s) && !WakesAll(s, a) && forall b :: b != a ==> PcOf(t, b) == PcOf(s, b)
    ensures SomeWakesAll(t)
  {
    var b :| WakesAll(s, b);
    assert WakesAll(t, b);
  }

  lemma StillRescues(s: State, t: State, a: nat)
    requires SomeRescues(s) && !Rescues(s, a) && forall b :: b != a ==> PcOf(t, b) == PcOf(s, b)
    requires t.first == s.first && t.locked == s.locked
    ensures SomeRescues(t)
  {
    var b :| Rescues(s, b);
    assert Rescues(t, b);
  }

  lemma StillLive(s: State, t: State)
    requires t.list == s.list && forall w :: w in s.list && Live(s, w) ==> Live(t, w)
    ensures forall k: nat :: (LiveWithin(s, k) ==> LiveWithin(t, k)) && (LiveBeyond(s, k) ==> LiveBeyond(t, k))
  {
  }

  /** Thread a moves, nobody falls asleep or wakes up, and the id stays. */
  ghost predicate Moves(s: State, t: State, a: nat) {
    && t.list == s.list && t.alive == s.alive && t.first == s.first && t.locked == s.locked
    && t.threads == s.threads[a := PcOf(t, a)] && !PcOf(s, a).Asleep? && !PcOf(t, a).Asleep?
  }

  lemma MoveStrands(s: State, t: State, a: nat)
    requires !Stranded(s) && Moves(s, t, a) && !PcOf(s, a).WakeOne? && !WakesAll(s, a)
    requires s.list != [] && (Marked(s) || Rescues(s, a)) ==>
      Marked(t) || Rescues(t, a) || (Marked(s) && !Rescues(s, a) && PcOf(t, a).WakeOne?)
    ensures !Stranded(t)
  {
    WakesMove(s, t, a);
    StillLive(s, t);
    hide Wakes;
    if SomeWakesAll(s) {
      StillWakesAll(s, t, a);
    } else if |t.list| > Wakes(t) {
      assert LiveBeyond(t, Wakes(t)) by { assert LiveBeyond(t, Wakes(s)); }
      if PcOf(t, a).WakeOne? {
        assert Live(t, t.list[Wakes(s)]) by { assert LiveBeyond(t, Wakes(s)); }
        assert LiveWithin(t, Wakes(t));
      } else if Rescues(t, a) {
        assert SomeRescues(t);
      } else if SomeRescues(s) && !Rescues(s, a) {
        StillRescues(s, t, a);
      }
    }
  }

  lemma EmptyNotStranded(s: State)
    requires s.list == []
    ensures !Stranded(s)
  {
  }

  lemma PassStrands(s: State, a: nat)
    requires Inv(s) && !Stranded(s) && Enabled(s, Step(a)) && !PcOf(s, a).WakeAll?
    requires !(PcOf(s, a).WakeOne? && s.list != []) && !(PcOf(s, a).Enqueue? && s.butex == PcOf(s, a).e)
    requires Takes(s, a) ==> NewLocked(s, PcOf(s, a).range) == s.locked
    ensures !Stranded(StepOf(s, a, PcOf(s, a)))
  {
    if PcOf(s, a).Return? { ReturnsOnce(s, a); }
    hide HoldersOk, PoolOk, ListOk, Stranded;
    if PcOf(s, a).WakeOne? {
      EmptyNotStranded(StepOf(s, a, PcOf(s, a)));
    } else {
      MoveStrands(s, StepOf(s, a, PcOf(s, a)), a);
    }
  }

  lemma {:induction false} WithoutAt(q: seq<nat>, i: nat)
    requires Distinct(q) && i < |q|
    ensures Without(q, q[i]) == q[..i] + q[i + 1..]
  {
    if i > 0 {
      assert q[0] != q[i] && forall j :: 0 <= j < |q[1..]| ==> q[1..][j] == q[j + 1];
      WithoutAt(q[1..], i - 1);
    }
  }

  lemma AwakenIs(s: State, i: nat)
    requires ListOk(s) && i < |s.list|
    ensures var t := Awaken(s, s.list[i]);
      && PcOf(s, s.list[i]).Asleep? && PcOf(t, s.list[i]) == Retry(PcOf(s, s.list[i])) && Wakes(t) == Wakes(s)
      && (forall b :: b != s.list[i] ==> PcOf(t, b) == PcOf(s, b))
      && t.list == s.list[..i] + s.list[i + 1..]
      && (forall j :: 0 <= j < |t.list| ==> t.list[j] == s.list[if j < i then j else j + 1] != s.list[i])
  {
    var w, t := s.list[i], Awaken(s, s.list[i]);
    assert w in s.list;
    WithoutAt(s.list, i);
    WakesMove(s, t, w);
  }

  /** One sleeper wakes up, by interruption or by one of the wakeups. */
  lemma AwakenStrands(s: State, i: nat)
    requires ListOk(s) && !Stranded(s) && i < |s.list|
    ensures !Stranded(Awaken(s, s.list[i]))
  {
    var w, t, k := s.list[i], Awaken(s, s.list[i]), Wakes(s);
    AwakenIs(s, i);
    hide Awaken, Wakes, ListOk;
    if SomeWakesAll(s) {
      StillWakesAll(s, t, w);
    } else if |t.list| > k {
      forall j | k <= j < |t.list| ensures Live(t, t.list[j]) {
        assert Live(s, s.list[if j < i then j else j + 1]);
      }
      AwakenHelps(s, t, i);
    }
  }

  lemma AwakenHelps(s: State, t: State, i: nat)
    requires i < |s.list| && Helped(s) && Wakes(t) == Wakes(s) < |t.list|
    requires PcOf(s, s.list[i]).Asleep? && PcOf(t, s.list[i]) == Retry(PcOf(s, s.list[i]))
    requires forall b :: b != s.list[i] ==> PcOf(t, b) == PcOf(s, b)
    requires |t.list| == |s.list| - 1 && forall j :: 0 <= j < |t.list| ==> t.list[j] == s.list[if j < i then j else j + 1] != s.list[i]
    requires t.first == s.first && t.locked == s.locked && t.butex == s.butex && t.alive == s.alive
    ensures Helped(t)
  {
    var w, k := s.list[i], Wakes(s);
    if SomeRescues(s) {
      StillRescues(s, t, w);
    } else if LiveWithin(s, k) {
      var j :| 0 <= j < k && j < |s.list| && Live(s, s.list[j]);
      if j == i {
        assert Rescues(t, w);
      } else {
        var n := if j < i then j else j - 1;
        assert t.list[n] == s.list[j] && Live(t, t.list[n]);
      }
    }
  }

  lemma WakeStrands(s: State, a: nat)
    requires Inv(s) && !Stranded(s) && (PcOf(s, a).WakeAll? || (PcOf(s, a).WakeOne? && s.list != []))
    ensures !Stranded(StepOf(s, a, PcOf(s, a)))
  {
    if PcOf(s, a).WakeAll? {
      EmptyNotStranded(StepOf(s, a, PcOf(s, a)));
    } else {
      WakeOneStrands(s, a);
    }
  }

  /** The first sleeper wakes up, and the wakeup is used. */
  ghost predicate Pops(s: State, t: State, a: nat) {
    && s.list != [] && t.list == s.list[1..] && Wakes(t) == Wakes(s) - 1
    && PcOf(s, a).WakeOne? && PcOf(t, a).Idle? && a != s.list[0]
    && PcOf(s, s.list[0]).Asleep? && PcOf(t, s.list[0]) == Retry(PcOf(s, s.list[0]))
    && (forall b :: b != a && b != s.list[0] ==> PcOf(t, b) == PcOf(s, b))
    && (forall j :: 0 <= j < |t.list| ==> t.list[j] == s.list[j + 1] && t.list[j] != a && t.list[j] != s.list[0])
    && t.first == s.first && t.locked == s.locked && t.butex == s.butex && t.alive == s.alive
  }

  lemma WakeOnePops(s: State, a: nat)
    requires ListOk(s) && PcOf(s, a).WakeOne? && s.list != []
    ensures Pops(s, StepOf(s, a, WakeOne), a)
  {
    var u, t := Awaken(s, s.list[0]), StepOf(s, a, WakeOne);
    assert forall j :: 0 <= j < |s.list| ==> s.list[j] in s.list;
    AwakenIs(s, 0);
    hide Awaken, Wakes, Without, Distinct;
    assert t == Go(u, a, Idle);
    WakesMove(u, t, a);
    assert forall j :: 0 <= j < |s.list| ==> s.list[j] != a;
    hide ListOk;
  }

  lemma WakeOneStrands(s: State, a: nat)
    requires ListOk(s) && PcOf(s, a).WakeOne? && s.list != [] && !Stranded(s)
    ensures !Stranded(StepOf(s, a, WakeOne))
  {
    hide *;
    WakeOnePops(s, a);
    PopStrands(s, StepOf(s, a, WakeOne), a);
  }

  lemma PopStrands(s: State, t: State, a: nat)
    requires Pops(s, t, a) && !Stranded(s)
    ensures !Stranded(t)
  {
    hide Wakes;
    var k := Wakes(s);
    if SomeWakesAll(s) {
      var b :| WakesAll(s, b);
      assert WakesAll(t, b);
    } else if |t.list| > Wakes(t) {
      forall j | k - 1 <= j < |t.list| ensures Live(t, t.list[j]) {
        assert Live(s, s.list[j + 1]);
      }
      PopHelps(s, t, a);
    }
  }

  lemma PopHelps(s: State, t: State, a: nat)
    requires Pops(s, t, a) && Helped(s)
    ensures Helped(t)
  {
    hide Wakes;
    var k := Wakes(s);
    if SomeRescues(s) {
      var b :| Rescues(s, b);
      assert Rescues(t, b);
    } else if LiveWithin(s, k) {
      var j :| 0 <= j < k && j < |s.list| && Live(s, s.list[j]);
      if j == 0 {
        assert Rescues(t, s.list[0]);
      } else {
        assert t.list[j - 1] == s.list[j] && Live(t, t.list[j - 1]);
      }
    }
  }

  /** Going to sleep. */
  lemma EnqueueStrands(s: State, a: nat, pc: Pc)
    requires Inv(s) && !Stranded(s) && PcOf(s, a) == pc && pc.Enqueue? && s.butex == pc.e
    ensures Stranded(StepOf(s, a, pc)) <==> LosingSleep(s, Step(a))
  {
    var t, k := StepOf(s, a, pc), Wakes(s);
    assert PcOf(t, a) == Asleep(pc.v, pc.range, pc.e) && a !in s.list && (Rescues(s, a) ==> Marked(s));
    WakesMove(s, t, a);
    hide Wakes, Inv;
    if SomeWakesAll(s) {
      StillWakesAll(s, t, a);
    } else if |s.list| >= k {
      assert !SomeWakesAll(t) by { forall b ensures !WakesAll(t, b) { assert !WakesAll(s, b); } }
      assert forall j :: 0 <= j < |s.list| ==> t.list[j] == s.list[j] && (Live(t, t.list[j]) <==> Live(s, s.list[j]));
      assert LiveWithin(t, k) <==> LiveWithin(s, k);
      assert Marked(s) || (SomeRescues(t) <==> SomeRescues(s)) by { if !Marked(s) { SameRescues(s, t, a); } }
      assert t.list[|s.list|] == a && (Live(t, a) <==> HasVersion(s, pc.v));
      assert |s.list| > k ==> LiveBeyond(s, k);
      assert LiveBeyond(t, k) <==> HasVersion(s, pc.v);
    }
  }

  lemma SameRescues(s: State, t: State, a: nat)
    requires forall b :: b != a ==> PcOf(t, b) == PcOf(s, b)
    requires Rescues(s, a) == Rescues(t, a) && t.first == s.first && t.locked == s.locked
    ensures SomeRescues(t) <==> SomeRescues(s)
  {
    if SomeRescues(s) { var b :| Rescues(s, b); assert Rescues(t, b); }
    if SomeRescues(t) { var b :| Rescues(t, b); assert Rescues(s, b); }
  }

  /** Taking the id and growing its range. */
  lemma GrowthStrands(s: State, a: nat)
    requires Inv(s) && !Stranded(s) && Takes(s, a) && NewLocked(s, PcOf(s, a).range) > s.locked
    ensures Stranded(StepOf(s, a, PcOf(s, a))) <==> LosingGrowth(s, Step(a))
  {
    var t, g := StepOf(s, a, PcOf(s, a)), s.(locked := NewLocked(s, PcOf(s, a).range));
    assert s.alive;
    hide HoldersOk, PoolOk, ListOk, ErrorsOk, RetiredOk;
    WakesMove(s, t, a);
    StillLive(s, t);
    hide Wakes;
    if SomeWakesAll(s) {
      StillWakesAll(s, t, a);
    } else {
      forall b ensures !WakesAll(t, b) { assert !WakesAll(s, b); }
      assert t == Go(g, a, PcOf(t, a)).(butex := t.butex);
      assert forall b :: PcOf(g, b) == PcOf(s, b);
      if !PcOf(s, a).ever {
        SameRescues(g, t, a);
        assert forall j :: 0 <= j < |t.list| && t.list[j] == a ==> !Live(g, a) && !Live(t, a);
        assert forall j :: 0 <= j < |t.list| ==> (Live(t, t.list[j]) <==> Live(g, g.list[j]));
      }
    }
  }

  lemma StepStrands(s: State, a: nat)
    requires Inv(s) && !Stranded(s) && Enabled(s, Step(a))
    ensures Stranded(StepOf(s, a, PcOf(s, a))) <==> LosingSleep(s, Step(a)) || LosingGrowth(s, Step(a))
  {
    hide Inv, StepOf, Stranded, NewLocked;
    var pc := PcOf(s, a);
    if Takes(s, a) && NewLocked(s, pc.range) > s.locked {
      GrowthStrands(s, a);
    } else if pc.Enqueue? && s.butex == pc.e {
      EnqueueStrands(s, a, pc);
    } else if pc.WakeAll? || (pc.WakeOne? && s.list != []) {
      WakeStrands(s, a);
    } else {
      NewLockedGrows(s, pc);
      PassStrands(s, a);
    }
  }

  lemma NewLockedGrows(s: State, pc: Pc)
    ensures pc.Try? ==> NewLocked(s, pc.range) >= s.locked
  {
  }

  lemma HolderDoesNotWake(s: State, a: nat)
    requires Inv(s) && PcOf(s, a).Holding?
    ensures !SomeWakesAll(s) && Held(s) && HasVersion(s, PcOf(s, a).v)
  {
    HolderHas(s, a);
    forall b ensures !WakesAll(s, b) {
      if WakesAll(s, b) {
        if Holds(PcOf(s, b)) { OnlyHolder(s, a, b); } else { ReturnsOnce(s, b); }
      }
    }
  }

  /** Unlocking strands the sleepers in exactly one situation. */
  lemma UnlockStrands(s: State, a: nat)
    requires Inv(s) && !Stranded(s) && PcOf(s, a).Holding?
    ensures Stranded(UnlockStep(s, a, PcOf(s, a).v)) <==> LosingUnlock(s, Unlock(a))
  {
    HolderDoesNotWake(s, a);
    var t := UnlockStep(s, a, PcOf(s, a).v);
    hide HoldersOk, PoolOk, ListOk, ErrorsOk;
    if s.pending != [] || s.butex != s.locked + 2 {
      MoveStrands(s, t, a);
    } else {
      WakesMove(s, t, a);
      StillLive(s, t);
      StillLive(t, s);
      SameRescues(s, t, a);
      forall b ensures !WakesAll(t, b) { assert !WakesAll(s, b); }
      hide Wakes;
    }
  }

  /** Cancelling strands the sleepers if they are more than the wakeups. */
  lemma CancelStrands(s: State, a: nat, v: nat)
    requires Inv(s) && !Stranded(s) && Enabled(s, Cancel(a, v))
    ensures Stranded(Next(s, Cancel(a, v))) <==> LosingCancel(s, Cancel(a, v))
  {
    var t := Next(s, Cancel(a, v));
    if HasVersion(s, v) && s.butex == s.first {
      WakesMove(s, t, a);
      forall b ensures !WakesAll(t, b) {
        if WakesAll(s, b) {
          if Holds(PcOf(s, b)) { HolderHas(s, b); } else { ReturnsOnce(s, b); }
        }
      }
      hide Wakes;
      assert |t.list| > Wakes(t) ==> !Live(t, t.list[Wakes(t)]);
    }
  }

  lemma CreateStrands(s: State, range: int)
    requires Inv(s) && !Stranded(s) && s.pooled
    ensures !Stranded(CreateStep(s, range))
  {
    forall b ensures !WakesAll(s, b) {
      if WakesAll(s, b) {
        if Holds(PcOf(s, b)) { HolderHas(s, b); } else { ReturnsOnce(s, b); }
      }
    }
    assert |s.list| > Wakes(s) ==> !Live(s, s.list[Wakes(s)]);
    assert CreateStep(s, range).threads == s.threads;
  }

  lemma CallStrands(s: State, act: Action)
    requires Inv(s) && !Stranded(s) && Enabled(s, act)
    requires act.LockCall? || act.TryLock? || act.AboutToDestroy? || act.RaiseError?
    ensures !Stranded(Next(s, act))
  {
    if PcOf(s, act.a).Holding? { HolderHas(s, act.a); }
    hide HoldersOk, PoolOk, ListOk, Stranded;
    var t := Next(s, act);
    if t.threads != s.threads { MoveStrands(s, t, act.a); } else { SameSleepers(s, t); }
  }

  lemma SameSleepers(s: State, t: State)
    requires !Stranded(s) && t == s.(butex := t.butex, pending := t.pending, delivered := t.delivered)
    requires t.butex == s.butex || (s.alive && t.butex == s.locked + 2)
    ensures !Stranded(t)
  {
    assert forall b :: PcOf(t, b) == PcOf(s, b);
    StillLive(s, t);
    if SomeRescues(s) { var b :| Rescues(s, b); assert Rescues(t, b); }
    if SomeWakesAll(s) { var b :| WakesAll(s, b); assert WakesAll(t, b); }
  }

  lemma DestroyStrands(s: State, a: nat)
    requires Inv(s) && PcOf(s, a).Holding?
    ensures !Stranded(Next(s, Destroy(a)))
  {
    HolderHas(s, a);
    assert WakesAll(Next(s, Destroy(a)), a);
  }

  /** A step strands sleepers exactly when it is one of the three losing ones. */
  lemma StrandedExactlyWhen(s: State, act: Action)
    requires Inv(s) && !Stranded(s) && Enabled(s, act)
    ensures Stranded(Next(s, act)) <==> Losing(s, act)
  {
    if act.Interrupt? {
      assert act.w in s.list;
      var i :| 0 <= i < |s.list| && s.list[i] == act.w;
      AwakenStrands(s, i);
    } else {
      hide Inv, Stranded, Wakes, SomeRescues, SomeWakesAll, Helped;
      match act
      case Create(range) => CreateStrands(s, range);
      case Unlock(a) => UnlockStrands(s, a);
      case Destroy(a) => DestroyStrands(s, a);
      case Cancel(a, v) => CancelStrands(s, a, v);
      case Step(a) => StepStrands(s, a);
      case _ => CallStrands(s, act);
    }
  }

  ghost predicate Harmless(run: seq<State>, acts: seq<Action>, k: nat)
    requires |run| == |acts| + 1 && k < |acts|
  {
    !Losing(run[k], acts[k])
  }

  /** In a run without losing steps no locker is left asleep. */
  lemma {:induction false} NobodyIsLeftAsleep(run: seq<State>, acts: seq<Action>, i: nat)
    requires IsRun(run, acts) && i < |run| && forall k: nat :: k < i ==> Harmless(run, acts, k)
    ensures !Stranded(run[i])
    decreases i
  {
    if i > 0 {
      NobodyIsLeftAsleep(run, acts, i - 1);
      RunKeepsInv(run, acts, i - 1);
      assert StepAt(run, acts, i - 1) && Harmless(run, acts, i - 1);
      hide Inv, Stranded, Next, Losing;
      StrandedExactlyWhen(run[i - 1], acts[i - 1]);
    }
  }

  /** On the way to the sleepers: about to wake one or all, to mark the id, or
      to unlock or destroy an id that is marked. */
  predicate Helps(s: State, a: nat) {
    PcOf(s, a).WakeOne? || PcOf(s, a).WakeAll? || Rescues(s, a) || (Marked(s) && Holds(PcOf(s, a)))
  }

  /** While somebody sleeps and nobody is stranded, somebody is on the way. */
  lemma SleepersHaveHelp(run: seq<State>, acts: seq<Action>, i: nat)
    requires IsRun(run, acts) && i < |run| && run[i].list != [] && !Stranded(run[i])
    ensures exists a :: Helps(run[i], a)
  {
    var s := run[i];
    RunKeepsInv(run, acts, i);
    if Wakes(s) > 0 {
      var a := Witness(s.threads, IsWakeOne);
      assert Helps(s, a);
    } else if SomeWakesAll(s) {
      var a :| WakesAll(s, a);
      assert Helps(s, a);
    } else if SomeRescues(s) {
      var a :| Rescues(s, a);
      assert Helps(s, a);
    } else {
      var a := Witness(s.threads, Holds);
      assert Helps(s, a);
    }
  }

  /** A locker takes the id, marks it, or goes for another pass. */
  predicate TriesAgain(s: State, act: Action) {
    && act.Step?
    && var pc := PcOf(s, act.a);
       ((pc.Try? && s.butex != s.locked + 2) || (InWait(pc) && s.butex != pc.e)) && HasVersion(s, pc.v)
  }

  /** Thread b waits, or is about to, for one of the versions created. */
  predicate Reused(s: State, range: int, b: nat) {
    var pc := PcOf(s, b);
    (pc.Try? || InWait(pc) || pc.Asleep?) && HasVersion(CreateStep(s, range), pc.v)
  }

  /** What can bring help: a locker on its way, an unlock of a contended id,
      about_to_destroy, destroy, an interruption, or versions used again. */
  ghost predicate BringsHelp(s: State, act: Action) {
    || TriesAgain(s, act) || act.Destroy? || act.AboutToDestroy? || act.Interrupt?
    || (act.Unlock? && s.butex == s.locked + 1) || (act.Create? && exists b :: Reused(s, act.range, b))
  }

  /** Thread a moves on without becoming a help. */
  lemma MoveStaysStranded(s: State, t: State, a: nat)
    requires Stranded(s) && Moves(s, t, a) && (Marked(t) ==> Marked(s))
    requires !PcOf(s, a).WakeOne? && !PcOf(t, a).WakeOne? && !WakesAll(t, a) && (Rescues(t, a) ==> Rescues(s, a))
    ensures Stranded(t)
  {
    WakesMove(s, t, a);
    StillLive(t, s);
    hide Wakes;
    forall b ensures !WakesAll(t, b) { assert !WakesAll(s, b); }
    if SomeRescues(t) {
      var b :| Rescues(t, b);
      assert Rescues(s, b);
    }
  }

  lemma PopHelpsBack(s: State, t: State, a: nat)
    requires Pops(s, t, a)
    ensures LiveBeyond(t, Wakes(t)) ==> LiveBeyond(s, Wakes(s))
    ensures Helped(t) ==> Helped(s)
  {
    hide Wakes;
    var k := Wakes(s);
    if LiveBeyond(t, k - 1) {
      forall j | k <= j < |s.list| ensures Live(s, s.list[j]) { assert Live(t, t.list[j - 1]); }
    }
    if SomeRescues(t) {
      var b :| Rescues(t, b);
      if b == s.list[0] { assert Live(s, s.list[0]); } else { assert Rescues(s, b); }
    } else if LiveWithin(t, k - 1) {
      var j :| 0 <= j < k - 1 && j < |t.list| && Live(t, t.list[j]);
      assert Live(s, s.list[j + 1]);
    }
  }

  lemma PopStaysStranded(s: State, t: State, a: nat)
    requires Pops(s, t, a) && Stranded(s)
    ensures Stranded(t)
  {
    forall b ensures !WakesAll(t, b) { assert !WakesAll(s, b); }
    hide Wakes, Helped, LiveBeyond;
    PopHelpsBack(s, t, a);
  }

  lemma EnqueueStaysStranded(s: State, a: nat, pc: Pc)
    requires Inv(s) && Stranded(s) && PcOf(s, a) == pc && pc.Enqueue? && s.butex == pc.e
    ensures Stranded(StepOf(s, a, pc))
  {
    var t, k := StepOf(s, a, pc), Wakes(s);
    assert PcOf(t, a) == Asleep(pc.v, pc.range, pc.e) && a !in s.list;
    WakesMove(s, t, a);
    hide Wakes, Inv;
    forall b ensures !WakesAll(t, b) { assert !WakesAll(s, b); }
    assert forall j :: 0 <= j < |s.list| ==> t.list[j] == s.list[j] && (Live(t, t.list[j]) <==> Live(s, s.list[j]));
    if SomeRescues(t) {
      var b :| Rescues(t, b);
      assert Rescues(s, b);
    }
    if LiveBeyond(t, k) {
      forall j | k <= j < |s.list| ensures Live(s, s.list[j]) { assert Live(t, t.list[j]); }
    }
  }

  lemma StepStaysStranded(s: State, a: nat)
    requires Inv(s) && Stranded(s) && Enabled(s, Step(a)) && !TriesAgain(s, Step(a))
    ensures Stranded(StepOf(s, a, PcOf(s, a)))
  {
    var pc := PcOf(s, a);
    assert !WakesAll(s, a) && s.list != [];
    if pc.Return? { ReturnsOnce(s, a); }
    hide HoldersOk, PoolOk, Stranded;
    if pc.WakeOne? {
      WakeOnePops(s, a);
      PopStaysStranded(s, StepOf(s, a, pc), a);
    } else if pc.Enqueue? && s.butex == pc.e {
      EnqueueStaysStranded(s, a, pc);
    } else {
      MoveStaysStranded(s, StepOf(s, a, pc), a);
    }
  }

  lemma CallStaysStranded(s: State, act: Action)
    requires Inv(s) && Stranded(s) && Enabled(s, act) && (act.LockCall? || act.TryLock? || act.RaiseError?)
    ensures Stranded(Next(s, act))
  {
    hide HoldersOk, PoolOk, ListOk, Stranded;
    var t := Next(s, act);
    if t.threads != s.threads || t.butex != s.butex {
      assert t.threads == s.threads[act.a := PcOf(t, act.a)];
      MoveStaysStranded(s, t, act.a);
    } else {
      SameStaysStranded(s, t);
    }
  }

  lemma UnlockStaysStranded(s: State, a: nat)
    requires Inv(s) && Stranded(s) && PcOf(s, a).Holding? && s.butex != s.locked + 1
    ensures Stranded(UnlockStep(s, a, PcOf(s, a).v))
  {
    HolderHas(s, a);
    hide HoldersOk, PoolOk, ListOk, Stranded;
    MoveStaysStranded(s, UnlockStep(s, a, PcOf(s, a).v), a);
  }

  lemma SameStaysStranded(s: State, t: State)
    requires Stranded(s) && t == s.(pending := t.pending, delivered := t.delivered)
    ensures Stranded(t)
  {
    assert forall b :: PcOf(t, b) == PcOf(s, b);
    StillLive(t, s);
    if SomeRescues(t) { var b :| Rescues(t, b); assert Rescues(s, b); }
    if SomeWakesAll(t) { var b :| WakesAll(t, b); assert WakesAll(s, b); }
  }

  lemma CreateStaysStranded(s: State, range: int)
    requires Inv(s) && Stranded(s) && s.pooled && forall b :: !Reused(s, range, b)
    ensures Stranded(CreateStep(s, range))
  {
    var t := CreateStep(s, range);
    assert forall b :: PcOf(t, b) == PcOf(s, b);
    if SomeWakesAll(t) { var b :| WakesAll(t, b); assert WakesAll(s, b); }
    assert !Live(t, t.list[Wakes(s)]) by { assert !Reused(s, range, t.list[Wakes(s)]); }
  }

  lemma CancelStaysStranded(s: State, a: nat, v: nat)
    requires Inv(s) && Stranded(s) && Enabled(s, Cancel(a, v))
    ensures Stranded(Next(s, Cancel(a, v)))
  {
    var t := Next(s, Cancel(a, v));
    if HasVersion(s, v) && s.butex == s.first {
      WakesMove(s, t, a);
      forall b ensures !WakesAll(t, b) { assert !WakesAll(s, b); }
      hide Wakes;
      assert !Live(t, t.list[Wakes(t)]);
    }
  }

  /** Until then stranded sleepers stay stranded. */
  lemma StrandedUntilHelpComes(s: State, act: Action)
    requires Inv(s) && Stranded(s) && Enabled(s, act) && !BringsHelp(s, act)
    ensures Stranded(Next(s, act))
  {
    hide Inv, Stranded, TriesAgain;
    match act
    case Create(range) => CreateStaysStranded(s, range);
    case Unlock(a) => UnlockStaysStranded(s, a);
    case Cancel(a, v) => CancelStaysStranded(s, a, v);
    case Step(a) => StepStaysStranded(s, a);
    case _ => CallStaysStranded(s, act);
  }

  // ---- Numbers that keep their meaning -------------------------------------------------

  /** Locker x is about to compare e with the butex and to sleep on it. */
  predicate Awaits(s: State, x: nat, e: nat) {
    InWait(PcOf(s, x)) && PcOf(s, x).e == e
  }

  ghost predicate SomeAwaits(s: State, e: nat) {
    exists x :: Awaits(s, x, e)
  }

  /** A locker goes to sleep although the value it compares does not mean that
      its id is contended. */
  predicate WrongSleep(s: State, act: Action) {
    && act.Step? && PcOf(s, act.a).Enqueue? && s.butex == PcOf(s, act.a).e
    && !(s.alive && HasVersion(s, PcOf(s, act.a).v) && s.butex == s.locked + 1)
  }

  /** A lock grows the range by exactly one while somebody is about to compare
      the number that meant contended, and now means locked. */
  ghost predicate GrowsIntoWait(s: State, act: Action) {
    && act.Step? && PcOf(s, act.a).Try? && HasVersion(s, PcOf(s, act.a).v) && s.butex == s.first
    && NewLocked(s, PcOf(s, act.a).range) == s.locked + 1
    && SomeAwaits(s, s.locked + 1)
  }

  /** Numbering starts again while somebody is about to compare a number. */
  ghost predicate RestartsInWait(s: State, act: Action) {
    act.Create? && 1 <= act.range <= ID_MAX_RANGE && Restarts(s) && exists x :: InWait(PcOf(s, x))
  }

  ghost predicate Regular(s: State, act: Action) {
    !GrowsIntoWait(s, act) && !RestartsInWait(s, act)
  }

  /** Numbers that are compared are neither the smallest nor the largest. */
  predicate WaitOk(pc: Pc) {
    InWait(pc) ==> 3 <= pc.e <= U32 - 2
  }

  ghost predicate WaitsOk(s: State) {
    forall x :: WaitOk(PcOf(s, x))
  }

  lemma NextKeepsWaits(s: State, act: Action)
    requires Inv(s) && WaitsOk(s) && Enabled(s, act)
    ensures WaitsOk(Next(s, act))
  {
    var t := Next(s, act);
    forall x ensures WaitOk(PcOf(t, x)) {
      assert WaitOk(PcOf(s, x));
      if act.Step? {
        assert WaitOk(PcOf(s, act.a));
        hide Inv, Next, StepOf, WaitsOk;
        StepKeepsWait(s, act.a, x);
      } else {
        hide Inv, StepOf, WaitsOk, Retire, NewLocked, Without;
      }
    }
  }

  lemma StepKeepsWait(s: State, a: nat, x: nat)
    requires Inv(s) && WaitOk(PcOf(s, x)) && WaitOk(PcOf(s, a)) && Enabled(s, Step(a))
    ensures WaitOk(PcOf(Next(s, Step(a)), x))
  {
    hide HoldersOk, PoolOk, ErrorsOk, RetiredOk, Without, Distinct, NewLocked;
    if PcOf(s, a).WakeAll? {
      AwakenAllPc(s, x);
    } else if PcOf(s, a).Try? {
      hide ListOk, AwakenAll, Awaken;
    } else {
      hide ListOk, AwakenAll, NumbersOk;
    }
  }

  lemma {:induction false} RunWaits(run: seq<State>, acts: seq<Action>, i: nat)
    requires IsRun(run, acts) && i < |run|
    ensures WaitsOk(run[i])
  {
    if i > 0 {
      RunWaits(run, acts, i - 1);
      RunKeepsInv(run, acts, i - 1);
      assert StepAt(run, acts, i - 1);
      hide Inv, Next, WaitsOk;
      NextKeepsWaits(run[i - 1], acts[i - 1]);
    }
  }

  /** A number about to be compared means contended, or is one that the butex
      can never have again. */
  predicate CompareOk(s: State, pc: Pc) {
    InWait(pc) ==>
      || (s.alive && HasVersion(s, pc.v) && pc.e == s.locked + 1) || (s.alive && s.first < pc.e < s.locked)
      || pc.e < s.first || (!s.alive && s.first == 0)
  }

  ghost predicate ComparesOk(s: State) {
    forall t :: CompareOk(s, PcOf(s, t))
  }

  lemma RegularKeepsCompares(s: State, act: Action)
    requires Inv(s) && ComparesOk(s) && Enabled(s, act) && Regular(s, act)
    ensures ComparesOk(Next(s, act))
  {
    assert s.pooled ==> !s.alive;
    hide HoldersOk, PoolOk, ErrorsOk, RetiredOk, ListOk, Next;
    var t := Next(s, act);
    forall x ensures CompareOk(t, PcOf(t, x)) {
      assert CompareOk(s, PcOf(s, x));
      RegularKeepsCompare(s, act, x);
    }
  }

  lemma RegularKeepsCompare(s: State, act: Action, x: nat)
    requires s.pooled ==> !s.alive
    requires NumbersOk(s) && ListOk(s) && CompareOk(s, PcOf(s, x)) && Enabled(s, act) && Regular(s, act)
    ensures CompareOk(Next(s, act), PcOf(Next(s, act), x))
  {
    hide Without, Distinct;
    if act.Step? {
      assert !GrowsIntoWait(s, act);
      hide Regular, RestartsInWait;
      StepKeepsCompare(s, act.a, x);
    } else if act.Create? {
      assert Restarts(s) && 1 <= act.range <= ID_MAX_RANGE ==> !InWait(PcOf(s, x));
      CreateKeepsCompare(s, act.range, x);
    } else if s.alive && (act.Destroy? || act.Cancel?) {
      RetireKeepsCompare(s, PcOf(s, x));
    }
  }

  lemma CreateKeepsCompare(s: State, range: int, x: nat)
    requires NumbersOk(s) && CompareOk(s, PcOf(s, x)) && !s.alive
    requires Restarts(s) && 1 <= range <= ID_MAX_RANGE ==> !InWait(PcOf(s, x))
    ensures CompareOk(CreateStep(s, range), PcOf(CreateStep(s, range), x))
  {
  }

  lemma RetireKeepsCompare(s: State, pc: Pc)
    requires NumbersOk(s) && CompareOk(s, pc) && s.alive
    ensures CompareOk(Retire(s), pc)
  {
  }

  lemma StepKeepsCompare(s: State, a: nat, x: nat)
    requires NumbersOk(s) && ListOk(s) && CompareOk(s, PcOf(s, x)) && Enabled(s, Step(a)) && !GrowsIntoWait(s, Step(a))
    ensures CompareOk(StepOf(s, a, PcOf(s, a)), PcOf(StepOf(s, a, PcOf(s, a)), x))
  {
    hide Without, Distinct;
    if PcOf(s, a).WakeAll? {
      AwakenAllPc(s, x);
    } else if PcOf(s, a).Try? {
      TryKeepsCompare(s, a, x);
    } else if !PcOf(s, a).WakeOne? {
      hide Awaken;
    }
  }

  lemma TryKeepsCompare(s: State, a: nat, x: nat)
    requires NumbersOk(s) && CompareOk(s, PcOf(s, x)) && PcOf(s, a).Try? && !GrowsIntoWait(s, Step(a))
    ensures CompareOk(StepOf(s, a, PcOf(s, a)), PcOf(StepOf(s, a, PcOf(s, a)), x))
  {
    hide AwakenAll, Awaken;
    assert Awaits(s, x, s.locked + 1) <==> InWait(PcOf(s, x)) && PcOf(s, x).e == s.locked + 1;
  }

  lemma {:induction false} RegularRunCompares(run: seq<State>, acts: seq<Action>, i: nat)
    requires IsRun(run, acts) && i < |run| && forall k: nat :: k < i ==> RegularAt(run, acts, k)
    ensures ComparesOk(run[i])
    decreases i
  {
    if i > 0 {
      RegularRunCompares(run, acts, i - 1);
      RunKeepsInv(run, acts, i - 1);
      assert StepAt(run, acts, i - 1) && RegularAt(run, acts, i - 1);
      hide Inv, Next, ComparesOk, Regular;
      RegularKeepsCompares(run[i - 1], acts[i - 1]);
    }
  }

  ghost predicate RegularAt(run: seq<State>, acts: seq<Action>, k: nat)
    requires |run| == |acts| + 1 && k < |acts|
  {
    Regular(run[k], acts[k])
  }

  /** As long as no lock grows the range into a waiting locker's number and
      numbering does not start again under one, nobody goes to sleep on a number
      that does not mean contended. */
  lemma RegularRunsSleepRight(run: seq<State>, acts: seq<Action>, i: nat)
    requires IsRun(run, acts) && i < |acts| && forall k: nat :: k < i ==> RegularAt(run, acts, k)
    ensures !WrongSleep(run[i], acts[i])
  {
    RegularRunCompares(run, acts, i);
    RunKeepsInv(run, acts, i);
    RunWaits(run, acts, i);
    if acts[i].Step? { assert CompareOk(run[i], PcOf(run[i], acts[i].a)) && WaitOk(PcOf(run[i], acts[i].a)); }
  }

  // ---- And only then --------------------------------------------------------------------

  ghost predicate Follows(s: State, acts: seq<Action>)
    decreases |acts|
  {
    acts == [] || (Enabled(s, acts[0]) && Follows(Next(s, acts[0]), acts[1..]))
  }

  ghost function End(s: State, acts: seq<Action>): State
    requires Follows(s, acts)
    decreases |acts|
  {
    if acts == [] then s else End(Next(s, acts[0]), acts[1..])
  }

  ghost predicate SleepsWrong(s: State, acts: seq<Action>, x: nat) {
    Follows(s, acts) && Enabled(End(s, acts), Step(x)) && WrongSleep(End(s, acts), Step(x))
  }

  /** Some continuation ends with a locker that goes to sleep wrongly. */
  ghost predicate CanSleepWrong(s: State) {
    exists acts, x :: SleepsWrong(s, acts, x)
  }

  lemma Before(s: State, act: Action)
    requires Enabled(s, act) && CanSleepWrong(Next(s, act))
    ensures CanSleepWrong(s)
  {
    var acts, x :| SleepsWrong(Next(s, act), acts, x);
    var all := [act] + acts;
    assert all[1..] == acts;
    hide Next, Enabled, WrongSleep;
    assert SleepsWrong(s, all, x);
  }

  /** The butex has the number x compares, which does not mean contended. */
  lemma SleepsNow(s: State, x: nat)
    requires Awaits(s, x, s.butex) && !(s.alive && s.butex == s.locked + 1)
    ensures CanSleepWrong(s)
  {
    if PcOf(s, x).Enqueue? {
      assert SleepsWrong(s, [], x);
    } else {
      var t := Next(s, Step(x));
      assert SleepsWrong(t, [], x);
      Before(s, Step(x));
    }
  }

  lemma GrowthCanSleepWrong(s: State, a: nat)
    requires Inv(s) && Enabled(s, Step(a)) && GrowsIntoWait(s, Step(a))
    ensures CanSleepWrong(Next(s, Step(a)))
  {
    var x :| Awaits(s, x, s.locked + 1);
    var s1 := Next(s, Step(a));
    assert s.alive && s.pending == [] && Awaits(s1, x, s1.locked) && PcOf(s1, a) == Holding(PcOf(s, a).v);
    assert HasVersion(s1, PcOf(s, a).v) && s1.first < s1.locked && s1.list == s.list && ListOk(s1);
    hide *;
    AfterGrowth(s1, a, x, PcOf(s, a).v);
  }

  lemma AfterGrowth(s: State, a: nat, x: nat, v: nat)
    requires PcOf(s, a) == Holding(v) && HasVersion(s, v) && s.alive && s.pending == [] && Awaits(s, x, s.locked) && ListOk(s)
    requires s.first < s.locked && (s.butex == s.locked || s.butex == s.locked + 1)
    ensures CanSleepWrong(s)
  {
    if s.butex == s.locked {
      SleepsNow(s, x);
    } else {
      var s2 := Next(s, Unlock(a));
      assert PcOf(s2, a) == WakeOne && Awaits(s2, x, s2.locked) && s2.list == s.list && s2.alive && HasVersion(s2, v);
      assert PcOf(s2, x) == PcOf(s, x) && s2.butex == s2.first && ListOk(s2);
      assert Enabled(s, Unlock(a));
      AfterUnlock(s2, a, x, v);
      hide *;
      Before(s, Unlock(a));
    }
  }

  lemma AfterUnlock(s: State, a: nat, x: nat, v: nat)
    requires PcOf(s, a) == WakeOne && HasVersion(s, v) && s.alive && Awaits(s, x, s.locked) && ListOk(s) && s.butex == s.first
    ensures CanSleepWrong(s)
  {
    var s3 := Next(s, Step(a));
    assert s.list != [] ==> s.list[0] in s.list;
    assert PcOf(s3, a) == Idle && Awaits(s3, x, s3.locked) && s3.butex == s3.first && s3.locked == s.locked && s3.first == s.first;
    var s4 := Next(s3, TryLock(a, v));
    assert s4.butex == s4.locked && Awaits(s4, x, s4.locked) && Enabled(s3, TryLock(a, v));
    SleepsNow(s4, x);
    assert Enabled(s, Step(a));
    hide *;
    Before(s3, TryLock(a, v));
    Before(s, Step(a));
  }

  /** The slot is in the pool, x is about to compare its number, and y is free
      to use the id. */
  ghost predicate Ready(s: State, x: nat, y: nat) {
    Inv(s) && s.pooled && InWait(PcOf(s, x)) && WaitOk(PcOf(s, x)) && PcOf(s, y).Idle?
  }

  /** The version the next incarnation begins with. */
  function NextFirst(s: State): nat {
    if Restarts(s) then 1 else s.butex
  }

  /** An incarnation whose locked value, or the one above contended, is the
      number that x compares. */
  lemma HitNow(s: State, x: nat, y: nat)
    requires Ready(s, x, y) && NextFirst(s) < PcOf(s, x).e <= NextFirst(s) + ID_MAX_RANGE + 2
    ensures CanSleepWrong(s)
  {
    var b, e := NextFirst(s), PcOf(s, x).e;
    var direct := e <= b + ID_MAX_RANGE;
    var range := if direct then e - b else e - b - 2;
    var s1 := Next(s, Create(range));
    assert PcOf(s1, x) == PcOf(s, x) && PcOf(s1, y).Idle? && s1.first == s1.butex == b && s1.locked == b + range;
    var s2 := Next(s1, TryLock(y, b));
    assert PcOf(s2, x) == PcOf(s, x) && PcOf(s2, y) == Holding(b) && s2.butex == s2.locked == b + range;
    if direct {
      SleepsNow(s2, x);
    } else {
      var s3 := Next(s2, AboutToDestroy(y));
      assert PcOf(s3, x) == PcOf(s, x) && s3.butex == s3.locked + 2 == e;
      SleepsNow(s3, x);
      assert CanSleepWrong(s2) by { Before(s2, AboutToDestroy(y)); }
    }
    assert Enabled(s, Create(range)) && Enabled(s1, TryLock(y, b));
    hide *;
    Before(s1, TryLock(y, b));
    Before(s, Create(range));
  }

  /** An incarnation of one version comes and goes. */
  lemma OneMore(s: State, x: nat, y: nat) returns (t: State)
    requires Ready(s, x, y) && NextFirst(s) + 4 < U32
    ensures Ready(t, x, y) && t.butex == NextFirst(s) + 4 && PcOf(t, x) == PcOf(s, x)
    ensures CanSleepWrong(t) ==> CanSleepWrong(s)
  {
    var b := NextFirst(s);
    var s1 := Next(s, Create(1));
    assert PcOf(s1, x) == PcOf(s, x) && PcOf(s1, y).Idle? && s1.first == s1.butex == b && s1.locked == b + 1;
    assert Inv(s1) by { NextKeepsInv(s, Create(1)); }
    t := ComesAndGoes(s1, x, y, b);
    if CanSleepWrong(t) { Before(s, Create(1)); }
  }

  lemma ComesAndGoes(s: State, x: nat, y: nat, b: nat) returns (t: State)
    requires Inv(s) && s.alive && InWait(PcOf(s, x)) && WaitOk(PcOf(s, x)) && PcOf(s, y).Idle?
    requires s.first == s.butex == b && s.locked + 3 < U32
    ensures Ready(t, x, y) && t.butex == s.locked + 3 && PcOf(t, x) == PcOf(s, x)
    ensures CanSleepWrong(t) ==> CanSleepWrong(s)
  {
    var s2 := Next(s, TryLock(y, b));
    assert HasVersion(s, b);
    assert Enabled(s, TryLock(y, b)) && PcOf(s2, x) == PcOf(s, x) && PcOf(s2, y) == Holding(b) && s2.locked == s.locked;
    hide *;
    NextKeepsInv(s, TryLock(y, b));
    t := Dies(s2, x, y);
    if CanSleepWrong(t) { Before(s, TryLock(y, b)); }
  }

  lemma Dies(s: State, x: nat, y: nat) returns (t: State)
    requires Inv(s) && InWait(PcOf(s, x)) && WaitOk(PcOf(s, x)) && PcOf(s, y).Holding? && s.locked + 3 < U32
    ensures Ready(t, x, y) && t.butex == s.locked + 3 && PcOf(t, x) == PcOf(s, x)
    ensures CanSleepWrong(t) ==> CanSleepWrong(s)
  {
    HolderHas(s, y);
    var s3 := Next(s, Destroy(y));
    assert PcOf(s3, x) == PcOf(s, x) && PcOf(s3, y) == WakeAll(GiveBack) && s3.butex == s.locked + 3;
    hide *;
    NextKeepsInv(s, Destroy(y));
    t := Goes(s3, x, y);
    if CanSleepWrong(t) { Before(s, Destroy(y)); }
  }

  lemma Goes(s: State, x: nat, y: nat) returns (t: State)
    requires Inv(s) && InWait(PcOf(s, x)) && WaitOk(PcOf(s, x)) && PcOf(s, y) == WakeAll(GiveBack)
    ensures Ready(t, x, y) && t.butex == s.butex && PcOf(t, x) == PcOf(s, x)
    ensures CanSleepWrong(t) ==> CanSleepWrong(s)
  {
    var s4 := Next(s, Step(y));
    AwakenAllPc(s, x);
    assert PcOf(s4, x) == PcOf(s, x) && PcOf(s4, y) == Return;
    NextKeepsInv(s, Step(y));
    t := Next(s4, Step(y));
    NextKeepsInv(s4, Step(y));
    assert PcOf(t, x) == PcOf(s, x) && PcOf(t, y).Idle? && t.pooled && t.butex == s.butex;
    assert Enabled(s, Step(y)) && Enabled(s4, Step(y));
    hide Inv, CanSleepWrong, Next;
    if CanSleepWrong(t) {
      Before(s4, Step(y));
      Before(s, Step(y));
    }
  }

  /** From a version below e and one more than a multiple of four: four by four
      until e is in reach. */
  lemma {:induction false} ClimbTo(s: State, x: nat, y: nat)
    requires Ready(s, x, y) && NextFirst(s) < PcOf(s, x).e && NextFirst(s) % 4 == 1
    ensures CanSleepWrong(s)
    decreases PcOf(s, x).e - NextFirst(s)
  {
    var b, e := NextFirst(s), PcOf(s, x).e;
    hide Ready, CanSleepWrong;
    if e <= b + ID_MAX_RANGE + 2 {
      HitNow(s, x, y);
    } else {
      assert e <= U32 - 2 by { ReadyFacts(s, x, y); }
      var t := OneMore(s, x, y);
      assert NextFirst(t) == b + 4;
      ClimbTo(t, x, y);
    }
  }

  lemma ReadyFacts(s: State, x: nat, y: nat)
    requires Ready(s, x, y)
    ensures InWait(PcOf(s, x)) && 3 <= PcOf(s, x).e <= U32 - 2 && s.butex < U32
  {
  }

  /** From anywhere: first to the end of the numbers. */
  lemma {:induction false} PoolCanSleepWrong(s: State, x: nat, y: nat)
    requires Ready(s, x, y)
    ensures CanSleepWrong(s)
    decreases if Restarts(s) then 0 else U32 - s.butex
  {
    ReadyFacts(s, x, y);
    hide Ready, CanSleepWrong;
    if Restarts(s) {
      ClimbTo(s, x, y);
    } else {
      var t := OneMore(s, x, y);
      ReadyFacts(t, x, y);
      PoolCanSleepWrong(t, x, y);
    }
  }

  lemma RestartCanSleepWrong(s: State, range: int)
    requires Inv(s) && WaitsOk(s) && s.pooled && RestartsInWait(s, Create(range))
    ensures CanSleepWrong(Next(s, Create(range)))
  {
    var x :| InWait(PcOf(s, x));
    var y := FreshId(s.threads.Keys);
    var s1 := Next(s, Create(range));
    assert PcOf(s1, x) == PcOf(s, x) && WaitOk(PcOf(s, x)) && PcOf(s1, y).Idle? && s1.alive;
    assert s1.first == s1.butex == 1 && s1.locked == 1 + range;
    NextKeepsInv(s, Create(range));
    hide Inv, Ready, CanSleepWrong, Next, WaitsOk, RestartsInWait;
    var t := ComesAndGoes(s1, x, y, 1);
    PoolCanSleepWrong(t, x, y);
  }

  /** The other half: after such a step of any run, some continuation sends a
      locker to sleep on a number that does not mean contended. */
  lemma IrregularRunsCanSleepWrong(run: seq<State>, acts: seq<Action>, i: nat)
    requires IsRun(run, acts) && i < |acts| && !RegularAt(run, acts, i)
    ensures CanSleepWrong(run[i + 1])
  {
    RunKeepsInv(run, acts, i);
    RunWaits(run, acts, i);
    assert StepAt(run, acts, i);
    hide Inv, WaitsOk, CanSleepWrong, Next;
    match acts[i]
    case Create(range) => RestartCanSleepWrong(run[i], range);
    case Step(a) => GrowthCanSleepWrong(run[i], a);
    case _ =>
  }

  lemma RegularSleepDoesNotLose(s: State, act: Action)
    requires Enabled(s, act) && !WrongSleep(s, act)
    ensures !LosingSleep(s, act)
  {
  }

  lemma RegularGrowthDoesNotLose(s: State, act: Action)
    requires ComparesOk(s) && Regular(s, act) && Enabled(s, act) && Inv(s) && !Stranded(s)
    ensures !LosingGrowth(s, act)
  {
    if act.Step? && Takes(s, act.a) && |s.list| > Wakes(s) && !SomeWakesAll(s) {
      var g := s.(locked := NewLocked(s, PcOf(s, act.a).range));
      assert g.locked >= s.locked && forall b :: PcOf(g, b) == PcOf(s, b);
      StillLive(s, g);
      if SomeRescues(s) {
        var b :| Rescues(s, b);
        assert CompareOk(s, PcOf(s, b)) && !GrowsIntoWait(s, act);
        assert Awaits(s, b, s.locked + 1) ==> SomeAwaits(s, s.locked + 1);
        assert g.locked > s.locked ==> Rescues(g, b);
      }
    }
  }

  /** In a run without such steps, a step strands sleepers exactly when it is an
      unlock after about_to_destroy, or a cancel, of the losing kind. */
  lemma RegularRunsStrandExactlyWhen(run: seq<State>, acts: seq<Action>, i: nat)
    requires IsRun(run, acts) && i < |acts| && !Stranded(run[i]) && forall k: nat :: k <= i ==> RegularAt(run, acts, k)
    ensures Stranded(run[i + 1]) <==> LosingUnlock(run[i], acts[i]) || LosingCancel(run[i], acts[i])
  {
    RunKeepsInv(run, acts, i);
    RegularRunCompares(run, acts, i);
    RegularRunsSleepRight(run, acts, i);
    assert StepAt(run, acts, i) && RegularAt(run, acts, i);
    hide Inv, ComparesOk, Stranded, Regular, WrongSleep, LosingUnlock, LosingCancel, LosingSleep, LosingGrowth, Next;
    StrandedExactlyWhen(run[i], acts[i]);
    RegularSleepDoesNotLose(run[i], acts[i]);
    RegularGrowthDoesNotLose(run[i], acts[i]);
  }

  // ---- Runs that lose a sleeper ----------------------------------------------------------

  ghost predicate Reached(s: State) {
    exists run, acts :: IsRun(run, acts) && run[|acts|] == s
  }

  lemma AtStart()
    ensures Reached(Init)
  {
    assert IsRun([Init], []);
  }

  lemma Reach(s: State, act: Action, t: State) returns (r: State)
    requires Reached(s) && Enabled(s, act) && Next(s, act) == t
    ensures r == t && Reached(r)
  {
    r := t;
    var run, acts :| IsRun(run, acts) && run[|acts|] == s;
    var run', acts' := run + [t], acts + [act];
    forall i: nat | i < |acts'| ensures StepAt(run', acts', i) {
      if i < |acts| { assert StepAt(run, acts, i); }
    }
    assert IsRun(run', acts') && run'[|acts'|] == t;
  }

  lemma NobodyHelps(s: State)
    requires s.alive && s.list != [] && s.butex == s.first < s.locked
    requires forall a :: a in s.threads ==> s.threads[a].Idle? || s.threads[a].Asleep?
    ensures Stranded(s)
  {
    CountZero(s.threads, IsWakeOne);
    forall a ensures !Rescues(s, a) && !WakesAll(s, a) {
    }
  }

  lemma UnlockAfterAboutToDestroyLosesBegins()
    ensures Reached(State(1, 2, 3, [], true, false, [1], map[0 := Holding(1), 1 := Asleep(1, 0, 3)], [], {}))
  {
    hide Reached;
    AtStart();
    var s := Init;
    s := Reach(s, Create(1),
      State(1, 2, 1, [], true, false, [], map[], [], {}));
    s := Reach(s, LockCall(0, 1, 0),
      State(1, 2, 1, [], true, false, [], map[0 := Try(1, 0, false)], [], {}));
    s := Reach(s, Step(0),
      State(1, 2, 2, [], true, false, [], map[0 := Holding(1)], [], {}));
    s := Reach(s, LockCall(1, 1, 0),
      State(1, 2, 2, [], true, false, [], map[0 := Holding(1), 1 := Try(1, 0, false)], [], {}));
    s := Reach(s, Step(1),
      State(1, 2, 3, [], true, false, [], map[0 := Holding(1), 1 := Check(1, 0, 3)], [], {}));
    s := Reach(s, Step(1),
      State(1, 2, 3, [], true, false, [], map[0 := Holding(1), 1 := Enqueue(1, 0, 3)], [], {}));
    s := Reach(s, Step(1),
      State(1, 2, 3, [], true, false, [1], map[0 := Holding(1), 1 := Asleep(1, 0, 3)], [], {}));
  }

  lemma UnlockAfterAboutToDestroyLosesGoesOn()
    ensures Reached(State(1, 2, 3, [], true, false, [1, 2], map[0 := Holding(1), 1 := Asleep(1, 0, 3), 2 := Asleep(1, 0, 3)], [], {}))
  {
    hide Reached;
    UnlockAfterAboutToDestroyLosesBegins();
    var s := State(1, 2, 3, [], true, false, [1], map[0 := Holding(1), 1 := Asleep(1, 0, 3)], [], {});
    s := Reach(s, LockCall(2, 1, 0),
      State(1, 2, 3, [], true, false, [1], map[0 := Holding(1), 1 := Asleep(1, 0, 3), 2 := Try(1, 0, false)], [], {}));
    s := Reach(s, Step(2),
      State(1, 2, 3, [], true, false, [1], map[0 := Holding(1), 1 := Asleep(1, 0, 3), 2 := Check(1, 0, 3)], [], {}));
    s := Reach(s, Step(2),
      State(1, 2, 3, [], true, false, [1], map[0 := Holding(1), 1 := Asleep(1, 0, 3), 2 := Enqueue(1, 0, 3)], [], {}));
    s := Reach(s, Step(2),
      State(1, 2, 3, [], true, false, [1, 2], map[0 := Holding(1), 1 := Asleep(1, 0, 3), 2 := Asleep(1, 0, 3)], [], {}));
  }

  lemma UnlockAfterAboutToDestroyLosesContinues()
    ensures Reached(State(1, 2, 2, [], true, false, [2], map[0 := Idle, 1 := Try(1, 0, true), 2 := Asleep(1, 0, 3), 3 := Holding(1)], [], {}))
  {
    hide Reached;
    UnlockAfterAboutToDestroyLosesGoesOn();
    var s := State(1, 2, 3, [], true, false, [1, 2], map[0 := Holding(1), 1 := Asleep(1, 0, 3), 2 := Asleep(1, 0, 3)], [], {});
    s := Reach(s, Unlock(0),
      State(1, 2, 1, [], true, false, [1, 2], map[0 := WakeOne, 1 := Asleep(1, 0, 3), 2 := Asleep(1, 0, 3)], [], {}));
    s := Reach(s, Step(0),
      State(1, 2, 1, [], true, false, [2], map[0 := Idle, 1 := Try(1, 0, true), 2 := Asleep(1, 0, 3)], [], {}));
    s := Reach(s, TryLock(3, 1),
      State(1, 2, 2, [], true, false, [2], map[0 := Idle, 1 := Try(1, 0, true), 2 := Asleep(1, 0, 3), 3 := Holding(1)], [], {}));
  }

  /** about_to_destroy followed by unlock, which the interface allows, leaves a
      locker asleep on an unlocked id. */
  lemma UnlockAfterAboutToDestroyLoses() returns (s: State)
    ensures Reached(s) && Stranded(s) && s.butex == s.first
  {
    hide Reached;
    UnlockAfterAboutToDestroyLosesContinues();
    s := State(1, 2, 2, [], true, false, [2], map[0 := Idle, 1 := Try(1, 0, true), 2 := Asleep(1, 0, 3), 3 := Holding(1)], [], {});
    s := Reach(s, AboutToDestroy(3),
      State(1, 2, 4, [], true, false, [2], map[0 := Idle, 1 := Try(1, 0, true), 2 := Asleep(1, 0, 3), 3 := Holding(1)], [], {}));
    s := Reach(s, Step(1),
      State(1, 2, 4, [], true, false, [2], map[0 := Idle, 1 := Idle, 2 := Asleep(1, 0, 3), 3 := Holding(1)], [], {}));
    s := Reach(s, Unlock(3),
      State(1, 2, 1, [], true, false, [2], map[0 := Idle, 1 := Idle, 2 := Asleep(1, 0, 3), 3 := Idle], [], {}));
    NobodyHelps(s);
  }

  lemma CancelLosesBegins()
    ensures Reached(State(5, 5, 5, [], false, false, [1, 2], map[0 := WakeOne, 1 := Asleep(1, 0, 3), 2 := Asleep(1, 0, 3), 3 := Return], [], {1}))
  {
    hide Reached;
    UnlockAfterAboutToDestroyLosesGoesOn();
    var s := State(1, 2, 3, [], true, false, [1, 2], map[0 := Holding(1), 1 := Asleep(1, 0, 3), 2 := Asleep(1, 0, 3)], [], {});
    s := Reach(s, Unlock(0),
      State(1, 2, 1, [], true, false, [1, 2], map[0 := WakeOne, 1 := Asleep(1, 0, 3), 2 := Asleep(1, 0, 3)], [], {}));
    assert Span(1, 2) == {1};
    s := Reach(s, Cancel(3, 1),
      State(5, 5, 5, [], false, false, [1, 2], map[0 := WakeOne, 1 := Asleep(1, 0, 3), 2 := Asleep(1, 0, 3), 3 := Return], [], {1}));
  }

  /** Two lockers sleep, the holder unlocks and is about to wake one of them,
      and the id is cancelled: the other one is left. */
  lemma CancelLoses() returns (s: State)
    ensures Reached(s) && Stranded(s) && s.pooled && forall a :: a in s.threads ==> s.threads[a].Idle? || s.threads[a].Asleep?
  {
    hide Reached;
    CancelLosesBegins();
    s := State(5, 5, 5, [], false, false, [1, 2], map[0 := WakeOne, 1 := Asleep(1, 0, 3), 2 := Asleep(1, 0, 3), 3 := Return], [], {1});
    s := Reach(s, Step(0),
      State(5, 5, 5, [], false, false, [2], map[0 := Idle, 1 := Try(1, 0, true), 2 := Asleep(1, 0, 3), 3 := Return], [], {1}));
    s := Reach(s, Step(1),
      State(5, 5, 5, [], false, false, [2], map[0 := Idle, 1 := Idle, 2 := Asleep(1, 0, 3), 3 := Return], [], {1}));
    s := Reach(s, Step(3),
      State(5, 5, 5, [], false, true, [2], map[0 := Idle, 1 := Idle, 2 := Asleep(1, 0, 3), 3 := Idle], [], {1}));
    CountZero(s.threads, IsWakeOne);
    assert !Live(s, s.list[0]);
    forall a ensures !WakesAll(s, a) {}
  }

  lemma RangeResetLosesStarts()
    ensures Reached(State(1, 2, 2, [], true, false, [], map[0 := Holding(1), 1 := Try(1, 0, false)], [], {}))
  {
    hide Reached;
    AtStart();
    var s := Init;
    s := Reach(s, Create(1),
      State(1, 2, 1, [], true, false, [], map[], [], {}));
    s := Reach(s, TryLock(0, 1),
      State(1, 2, 2, [], true, false, [], map[0 := Holding(1)], [], {}));
    s := Reach(s, LockCall(1, 1, 0),
      State(1, 2, 2, [], true, false, [], map[0 := Holding(1), 1 := Try(1, 0, false)], [], {}));
  }

  lemma RangeResetLosesBegins()
    ensures Reached(State(1, 2, 1, [], true, false, [], map[0 := Idle, 1 := Check(1, 0, 3)], [], {}))
  {
    hide Reached;
    RangeResetLosesStarts();
    var s := State(1, 2, 2, [], true, false, [], map[0 := Holding(1), 1 := Try(1, 0, false)], [], {});
    s := Reach(s, Step(1),
      State(1, 2, 3, [], true, false, [], map[0 := Holding(1), 1 := Check(1, 0, 3)], [], {}));
    s := Reach(s, Unlock(0),
      State(1, 2, 1, [], true, false, [], map[0 := WakeOne, 1 := Check(1, 0, 3)], [], {}));
    s := Reach(s, Step(0),
      State(1, 2, 1, [], true, false, [], map[0 := Idle, 1 := Check(1, 0, 3)], [], {}));
  }

  lemma RangeResetLosesGoesOn()
    ensures Reached(State(1, 3, 3, [], true, false, [], map[0 := Idle, 1 := Enqueue(1, 0, 3), 2 := Holding(1)], [], {}))
  {
    hide Reached;
    RangeResetLosesBegins();
    var s := State(1, 2, 1, [], true, false, [], map[0 := Idle, 1 := Check(1, 0, 3)], [], {});
    s := Reach(s, LockCall(2, 1, 2),
      State(1, 2, 1, [], true, false, [], map[0 := Idle, 1 := Check(1, 0, 3), 2 := Try(1, 2, false)], [], {}));
    s := Reach(s, Step(2),
      State(1, 3, 3, [], true, false, [], map[0 := Idle, 1 := Check(1, 0, 3), 2 := Holding(1)], [], {}));
    s := Reach(s, Step(1),
      State(1, 3, 3, [], true, false, [], map[0 := Idle, 1 := Enqueue(1, 0, 3), 2 := Holding(1)], [], {}));
  }

  /** A lock that resets the range gives the number of contended a new meaning
      while another locker is about to compare it. */
  lemma RangeResetLoses() returns (s: State)
    ensures Reached(s) && Stranded(s) && s.butex == s.first
  {
    hide Reached;
    RangeResetLosesGoesOn();
    s := State(1, 3, 3, [], true, false, [], map[0 := Idle, 1 := Enqueue(1, 0, 3), 2 := Holding(1)], [], {});
    s := Reach(s, Step(1),
      State(1, 3, 3, [], true, false, [1], map[0 := Idle, 1 := Asleep(1, 0, 3), 2 := Holding(1)], [], {}));
    s := Reach(s, Unlock(2),
      State(1, 3, 1, [], true, false, [1], map[0 := Idle, 1 := Asleep(1, 0, 3), 2 := Idle], [], {}));
    NobodyHelps(s);
  }
}
