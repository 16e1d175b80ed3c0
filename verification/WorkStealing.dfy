/** WorkStealingQueue: one owner that pushes and pops, any number of thieves,
    one access of _top, _bottom or a buffer slot per step. */
module WorkStealing {
  import opened Basics
  import opened BitMask

  type Item = nat

  /** t and b are the values that the call has loaded so far. */
  datatype OwnerPc =
    | Idle
    | PushLoadTop(x: Item, b: nat)
    | PushWrite(x: Item, b: nat)
    | PushStore(x: Item, b: nat)
    | PopLoadTop(b: nat)
    | PopLower(b: nat)
    | PopReload(b: nat)
    | PopRestoreEmpty(b: nat)
    | PopRead(b: nat, t: nat)
    | PopCas(b: nat, v: Item)
    | PopRestore(b: nat)

  datatype ThiefPc =
    | Asleep
    | StealLoadBottom(t: nat)
    | StealLoop(t: nat)
    | StealRead(t: nat)
    | StealCas(t: nat, v: Item)

  datatype State = State(
    cap: nat,
    top: nat,
    bottom: nat,
    buffer: seq<Item>,
    owner: OwnerPc,
    thieves: map<nat, ThiefPc>)

  datatype Action = StartPush(x: Item) | StartPop | Owner | StartSteal(a: nat) | Thief(a: nat)

  /** init: the buffer's first contents are arbitrary. */
  predicate IsInit(s: State) {
    && PowerOfTwo(s.cap) && s.top == 1 && s.bottom == 1 && |s.buffer| == s.cap
    && s.owner == Idle && s.thieves == map[]
  }

  function Slot(cap: nat, i: nat): (k: nat)
    requires PowerOfTwo(cap)
    ensures k < cap
  {
    MaskIsRemainder(i, cap);
    And(i, cap - 1)
  }

  predicate Wf(s: State) {
    PowerOfTwo(s.cap) && |s.buffer| == s.cap
  }

  predicate Enabled(s: State, act: Action) {
    match act
    case StartPush(_) => s.owner.Idle?
    case StartPop => s.owner.Idle?
    case Owner => !s.owner.Idle? && OwnerSane(s.owner)
    case StartSteal(a) => a in s.thieves ==> s.thieves[a].Asleep?
    case Thief(a) => a in s.thieves && !s.thieves[a].Asleep?
  }

  /** b - 1 is only computed for a b above some _top. */
  predicate OwnerSane(pc: OwnerPc) {
    pc.PopLower? || pc.PopReload? || pc.PopRead? || pc.PopCas? ==> pc.b >= 1
  }

  /** What a completed call reports. */
  datatype Outcome = Nothing | Pushed(x: Item) | PushFull(x: Item) | Popped(x: Item) | PopEmpty | Stolen(x: Item) | StealEmpty

  function Next(s: State, act: Action): (State, Outcome)
    requires Wf(s) && Enabled(s, act)
  {
    match act
    case StartPush(x) => (s.(owner := PushLoadTop(x, s.bottom)), Nothing)
    case StartPop => (s.(owner := PopLoadTop(s.bottom)), Nothing)
    case Owner => OwnerStep(s, s.owner)
    case StartSteal(a) => (s.(thieves := s.thieves[a := StealLoadBottom(s.top)]), Nothing)
    case Thief(a) => ThiefStep(s, a, s.thieves[a])
  }

  function OwnerStep(s: State, pc: OwnerPc): (State, Outcome)
    requires Wf(s) && OwnerSane(pc)
  {
    match pc
    case Idle => (s, Nothing)
    case PushLoadTop(x, b) =>
      if b >= s.top + s.cap then (s.(owner := Idle), PushFull(x))
      else (s.(owner := PushWrite(x, b)), Nothing)
    case PushWrite(x, b) => (s.(buffer := s.buffer[Slot(s.cap, b) := x], owner := PushStore(x, b)), Nothing)
    case PushStore(x, b) => (s.(bottom := b + 1, owner := Idle), Pushed(x))
    case PopLoadTop(b) =>
      if s.top >= b then (s.(owner := Idle), PopEmpty)
      else (s.(owner := PopLower(b)), Nothing)
    case PopLower(b) => (s.(bottom := b - 1, owner := PopReload(b)), Nothing)
    case PopReload(b) =>
      if s.top > b - 1 then (s.(owner := PopRestoreEmpty(b)), PopEmpty)
      else (s.(owner := PopRead(b, s.top)), Nothing)
    case PopRestoreEmpty(b) => (s.(bottom := b, owner := Idle), Nothing)
    case PopRead(b, t) =>
      var v := s.buffer[Slot(s.cap, b - 1)];
      if t != b - 1 then (s.(owner := Idle), Popped(v))
      else (s.(owner := PopCas(b, v)), Nothing)
    case PopCas(b, v) =>
      if s.top == b - 1 then (s.(top := b, owner := PopRestore(b)), Popped(v))
      else (s.(owner := PopRestore(b)), PopEmpty)
    case PopRestore(b) => (s.(bottom := b, owner := Idle), Nothing)
  }

  function SetThief(s: State, a: nat, pc: ThiefPc): State {
    s.(thieves := s.thieves[a := pc])
  }

  function ThiefStep(s: State, a: nat, pc: ThiefPc): (State, Outcome)
    requires Wf(s)
  {
    match pc
    case Asleep => (s, Nothing)
    case StealLoadBottom(t) =>
      if t >= s.bottom then (SetThief(s, a, Asleep), StealEmpty) else (SetThief(s, a, StealLoop(t)), Nothing)
    case StealLoop(t) =>
      if t >= s.bottom then (SetThief(s, a, Asleep), StealEmpty) else (SetThief(s, a, StealRead(t)), Nothing)
    case StealRead(t) => (SetThief(s, a, StealCas(t, s.buffer[Slot(s.cap, t)])), Nothing)
    case StealCas(t, v) =>
      if s.top == t then (SetThief(s, a, Asleep).(top := t + 1), Stolen(v))
      else (SetThief(s, a, StealLoop(s.top)), Nothing)
  }

  // ---- The abstract bounded deque ---------------------------------------------

  /** Until a pop has decided, the element it lowered _bottom below is still
      in the queue. */
  function LogicalBottom(s: State): nat {
    match s.owner
    case PopReload(b) => b
    case PopRestoreEmpty(b) => b
    case PopRead(b, _) => b
    case PopCas(b, _) => b
    case PopRestore(b) => b
    case _ => s.bottom
  }

  /** The queue from the thieves' end to the owner's end. */
  ghost function Deque(s: State): seq<Item>
    requires Wf(s) && s.top <= LogicalBottom(s)
  {
    Range(s.cap, s.buffer, s.top, LogicalBottom(s))
  }

  ghost function Range(cap: nat, buffer: seq<Item>, lo: nat, hi: nat): seq<Item>
    requires PowerOfTwo(cap) && |buffer| == cap && lo <= hi
  {
    seq(hi - lo, k requires 0 <= k => buffer[Slot(cap, lo + k)])
  }

  /** The owner works at the back, thieves at the front; a pop that reports
      nothing found the deque empty, a refused push found it full. A steal that
      reports nothing may have missed one item, the one a pop has claimed. */
  predicate DequeStep(cap: nat, d: seq<Item>, out: Outcome, d': seq<Item>) {
    match out
    case Nothing => d' == d
    case Pushed(x) => |d| < cap && d' == d + [x]
    case PushFull(_) => |d| == cap && d' == d
    case Popped(x) => d == d' + [x]
    case PopEmpty => d == [] && d' == d
    case Stolen(x) => d == [x] + d'
    case StealEmpty => |d| <= 1 && d' == d
  }

  // ---- Invariant ----------------------------------------------------------------

  predicate OwnerOk(s: State) {
    match s.owner
    case Idle => true
    case PushLoadTop(_, b) => s.bottom == b
    case PushWrite(_, b) => s.bottom == b && b < s.top + s.cap
    case PushStore(x, b) => s.bottom == b && b < s.top + s.cap && Wf(s) && s.buffer[Slot(s.cap, b)] == x
    case PopLoadTop(b) => s.bottom == b
    case PopLower(b) => s.bottom == b && b >= 1
    case PopReload(b) => s.bottom == b - 1
    case PopRestoreEmpty(b) => s.bottom == b - 1 && s.top == b
    case PopRead(b, t) => s.bottom == b - 1 && t <= b - 1 && t <= s.top && (t < b - 1 ==> s.top <= b - 1)
    case PopCas(b, v) => s.bottom == b - 1 && b - 1 <= s.top && Wf(s) && v == s.buffer[Slot(s.cap, b - 1)]
    case PopRestore(b) => s.bottom == b - 1 && s.top == b
  }

  predicate HasIndex(pc: ThiefPc) {
    pc.StealRead? || pc.StealCas?
  }

  /** A thief whose exchange can still succeed has the index of an element that
      is in the deque, and not the one that a pop has already claimed. */
  predicate ThiefOk(s: State, pc: ThiefPc) {
    && (pc.Asleep? || pc.t <= s.top)
    && (HasIndex(pc) && pc.t == s.top ==>
          && pc.t < LogicalBottom(s)
          && (s.owner.PopRead? && s.owner.t + 1 < s.owner.b ==> pc.t + 1 < s.owner.b)
          && (pc.StealCas? ==> Wf(s) && pc.v == s.buffer[Slot(s.cap, pc.t)]))
  }

  predicate ThievesOk(s: State) {
    forall a :: a in s.thieves ==> ThiefOk(s, s.thieves[a])
  }

  predicate Inv(s: State) {
    && Wf(s)
    && s.top <= LogicalBottom(s) <= s.top + s.cap
    && OwnerOk(s)
    && ThievesOk(s)
  }

  lemma InitInv(s: State)
    requires IsInit(s)
    ensures Inv(s) && Deque(s) == []
  {
  }

  lemma SlotsDiffer(cap: nat, i: nat, j: nat)
    requires PowerOfTwo(cap) && i < j < i + cap
    ensures Slot(cap, i) != Slot(cap, j)
  {
    MaskIsRemainder(i, cap);
    MaskIsRemainder(j, cap);
    CloseSlotsDiffer(i, j, cap);
  }

  lemma RangeEnds(cap: nat, buffer: seq<Item>, lo: nat, hi: nat)
    requires PowerOfTwo(cap) && |buffer| == cap && lo < hi
    ensures Range(cap, buffer, lo, hi) == Range(cap, buffer, lo, hi - 1) + [buffer[Slot(cap, hi - 1)]]
    ensures Range(cap, buffer, lo, hi) == [buffer[Slot(cap, lo)]] + Range(cap, buffer, lo + 1, hi)
  {
  }

  // ---- Every step keeps the invariant and refines the deque -----------------------

  /** The write of a push touches no slot of an element in the deque. */
  lemma PushWriteIsOutside(s: State, x: Item, b: nat, i: nat)
    requires Inv(s) && s.owner == PushWrite(x, b) && s.top <= i < b
    ensures Slot(s.cap, i) != Slot(s.cap, b)
  {
    SlotsDiffer(s.cap, i, b);
  }

  lemma PushWriteKeeps(s: State, x: Item, b: nat)
    requires Inv(s) && s.owner == PushWrite(x, b)
    ensures var s' := OwnerStep(s, s.owner).0; Inv(s') && Deque(s') == Deque(s)
  {
    var s' := OwnerStep(s, s.owner).0;
    forall i: nat | s.top <= i < b ensures s'.buffer[Slot(s.cap, i)] == s.buffer[Slot(s.cap, i)] {
      PushWriteIsOutside(s, x, b, i);
    }
    forall a | a in s'.thieves ensures ThiefOk(s', s'.thieves[a]) { assert ThiefOk(s, s.thieves[a]); }
  }

  lemma PushStoreKeeps(s: State, x: Item, b: nat)
    requires Inv(s) && s.owner == PushStore(x, b)
    ensures var s' := OwnerStep(s, s.owner).0; Inv(s') && Deque(s') == Deque(s) + [x]
  {
    var s' := OwnerStep(s, s.owner).0;
    RangeEnds(s.cap, s.buffer, s.top, b + 1);
    forall a | a in s'.thieves ensures ThiefOk(s', s'.thieves[a]) { assert ThiefOk(s, s.thieves[a]); }
  }

  lemma PopReadKeeps(s: State, b: nat, t: nat)
    requires Inv(s) && s.owner == PopRead(b, t) && b >= 1
    ensures var (s', out) := OwnerStep(s, s.owner); Inv(s') && DequeStep(s.cap, Deque(s), out, Deque(s'))
  {
    var (s', out) := OwnerStep(s, s.owner);
    if t < b - 1 { RangeEnds(s.cap, s.buffer, s.top, b); }
    forall a | a in s'.thieves ensures ThiefOk(s', s'.thieves[a]) { assert ThiefOk(s, s.thieves[a]); }
  }

  lemma PopCasKeeps(s: State, b: nat, v: Item)
    requires Inv(s) && s.owner == PopCas(b, v) && b >= 1
    ensures var (s', out) := OwnerStep(s, s.owner); Inv(s') && DequeStep(s.cap, Deque(s), out, Deque(s'))
  {
    var (s', out) := OwnerStep(s, s.owner);
    if s.top == b - 1 { RangeEnds(s.cap, s.buffer, s.top, b); }
    forall a | a in s'.thieves ensures ThiefOk(s', s'.thieves[a]) { assert ThiefOk(s, s.thieves[a]); }
  }

  /** A thief that changes nothing but its own program counter. */
  lemma ThiefMoves(s: State, a: nat, pc: ThiefPc)
    requires Inv(s) && ThiefOk(s, pc)
    ensures var s' := SetThief(s, a, pc); Inv(s') && Deque(s') == Deque(s)
  {
    var s' := SetThief(s, a, pc);
    forall c | c in s'.thieves ensures ThiefOk(s', s'.thieves[c]) {
      assert c != a ==> ThiefOk(s, s.thieves[c]);
    }
  }

  lemma StealCasKeeps(s: State, a: nat, v: Item)
    requires Inv(s) && a in s.thieves && s.thieves[a] == StealCas(s.top, v)
    ensures var s' := ThiefStep(s, a, s.thieves[a]).0; Inv(s') && Deque(s) == [v] + Deque(s')
  {
    var s' := ThiefStep(s, a, s.thieves[a]).0;
    assert ThiefOk(s, s.thieves[a]);
    RangeEnds(s.cap, s.buffer, s.top, LogicalBottom(s));
    forall c | c in s'.thieves ensures ThiefOk(s', s'.thieves[c]) {
      assert c != a ==> ThiefOk(s, s.thieves[c]);
    }
  }

  lemma ThiefKeeps(s: State, a: nat)
    requires Inv(s) && Enabled(s, Thief(a))
    ensures var (s', out) := ThiefStep(s, a, s.thieves[a]); Inv(s') && DequeStep(s.cap, Deque(s), out, Deque(s'))
  {
    var pc := s.thieves[a];
    assert ThiefOk(s, pc);
    if pc.StealCas? && pc.t == s.top {
      StealCasKeeps(s, a, pc.v);
    } else {
      ThiefMoves(s, a, ThiefStep(s, a, pc).0.thieves[a]);
    }
  }

  /** Owner steps that leave the deque and every thief's claim alone. */
  lemma PlainOwnerKeeps(s: State)
    requires Inv(s) && Enabled(s, Owner)
    requires !s.owner.PushWrite? && !s.owner.PushStore? && !s.owner.PopRead? && !s.owner.PopCas?
    ensures var (s', out) := OwnerStep(s, s.owner); Inv(s') && DequeStep(s.cap, Deque(s), out, Deque(s'))
  {
    hide Slot;
    var s' := OwnerStep(s, s.owner).0;
    assert LogicalBottom(s') == LogicalBottom(s) && s'.top == s.top;
    forall a | a in s'.thieves ensures ThiefOk(s', s'.thieves[a]) { assert ThiefOk(s, s.thieves[a]); }
  }

  lemma OwnerKeeps(s: State)
    requires Inv(s) && Enabled(s, Owner)
    ensures var (s', out) := OwnerStep(s, s.owner); Inv(s') && DequeStep(s.cap, Deque(s), out, Deque(s'))
  {
    if s.owner.PushWrite? { PushWriteKeeps(s, s.owner.x, s.owner.b); }
    else if s.owner.PushStore? { PushStoreKeeps(s, s.owner.x, s.owner.b); }
    else if s.owner.PopRead? { PopReadKeeps(s, s.owner.b, s.owner.t); }
    else if s.owner.PopCas? { PopCasKeeps(s, s.owner.b, s.owner.v); }
    else { PlainOwnerKeeps(s); }
  }

  lemma StartKeeps(s: State, act: Action)
    requires Inv(s) && Enabled(s, act) && (act.StartPush? || act.StartPop?)
    ensures var (s', out) := Next(s, act); Inv(s') && DequeStep(s.cap, Deque(s), out, Deque(s'))
  {
    var (s', _) := Next(s, act);
    forall c | c in s'.thieves ensures ThiefOk(s', s'.thieves[c]) { assert ThiefOk(s, s.thieves[c]); }
  }

  /** OwnerSane is no restriction: in a reachable state a call in progress
      can always take its next step. */
  lemma OwnerNeverStuck(s: State)
    requires Inv(s) && !s.owner.Idle?
    ensures Enabled(s, Owner)
  {
  }

  /** Every step keeps the invariant and does to the deque exactly what its
      outcome reports. */
  lemma NextRefines(s: State, act: Action)
    requires Inv(s) && Enabled(s, act)
    ensures var (s', out) := Next(s, act); Inv(s') && s'.cap == s.cap && DequeStep(s.cap, Deque(s), out, Deque(s'))
  {
    match act {
      case Owner => OwnerKeeps(s);
      case Thief(a) => ThiefKeeps(s, a);
      case StartSteal(a) => ThiefMoves(s, a, StealLoadBottom(s.top));
      case StartPush(_) => StartKeeps(s, act);
      case StartPop => StartKeeps(s, act);
    }
  }

  // ---- Whole runs -------------------------------------------------------------------

  predicate StepAt(run: seq<State>, acts: seq<Action>, outs: seq<Outcome>, i: nat)
    requires |run| == |acts| + 1 == |outs| + 1 && i < |acts|
  {
    Wf(run[i]) && Enabled(run[i], acts[i]) && (run[i + 1], outs[i]) == Next(run[i], acts[i])
  }

  ghost predicate IsRun(run: seq<State>, acts: seq<Action>, outs: seq<Outcome>) {
    && |run| == |acts| + 1 == |outs| + 1
    && IsInit(run[0])
    && forall i: nat :: i < |acts| ==> StepAt(run, acts, outs, i)
  }

  lemma {:induction false} RunKeepsInv(run: seq<State>, acts: seq<Action>, outs: seq<Outcome>, i: nat)
    requires IsRun(run, acts, outs) && i < |run|
    ensures Inv(run[i]) && run[i].cap == run[0].cap
  {
    if i == 0 {
      InitInv(run[0]);
    } else {
      RunKeepsInv(run, acts, outs, i - 1);
      assert StepAt(run, acts, outs, i - 1);
      NextRefines(run[i - 1], acts[i - 1]);
    }
  }

  /** The items that successful pushes put in, and that successful pops and
      steals gave out, in a log of outcomes. */
  function PushedItems(outs: seq<Outcome>): multiset<Item> {
    if outs == [] then multiset{}
    else PushedItems(outs[..|outs| - 1]) +
         var o := outs[|outs| - 1]; if o.Pushed? then multiset{o.x} else multiset{}
  }

  function ReturnedItems(outs: seq<Outcome>): multiset<Item> {
    if outs == [] then multiset{}
    else ReturnedItems(outs[..|outs| - 1]) +
         var o := outs[|outs| - 1]; if o.Popped? || o.Stolen? then multiset{o.x} else multiset{}
  }

  /** One more outcome keeps the balance between log and deque. */
  lemma OutcomeKeepsBalance(cap: nat, outs: seq<Outcome>, d: seq<Item>, out: Outcome, d': seq<Item>)
    requires DequeStep(cap, d, out, d')
    requires PushedItems(outs) == ReturnedItems(outs) + multiset(d)
    ensures PushedItems(outs + [out]) == ReturnedItems(outs + [out]) + multiset(d')
  {
    assert (outs + [out])[..|outs|] == outs;
  }

  lemma RunStepRefines(run: seq<State>, acts: seq<Action>, outs: seq<Outcome>, i: nat)
    requires IsRun(run, acts, outs) && i < |acts|
    ensures Inv(run[i]) && Inv(run[i + 1])
    ensures DequeStep(run[0].cap, Deque(run[i]), outs[i], Deque(run[i + 1]))
  {
    RunKeepsInv(run, acts, outs, i);
    assert StepAt(run, acts, outs, i);
    NextRefines(run[i], acts[i]);
  }

  /** ds are the successive contents of a sequential bounded deque on which
      the calls of the log are executed one after the other. */
  predicate IsHistory(cap: nat, ds: seq<seq<Item>>, outs: seq<Outcome>) {
    && |ds| == |outs| + 1
    && ds[0] == []
    && forall i :: 0 <= i < |outs| ==> DequeStep(cap, ds[i], outs[i], ds[i + 1])
  }

  lemma {:induction false} HistoryBalance(cap: nat, ds: seq<seq<Item>>, outs: seq<Outcome>)
    requires IsHistory(cap, ds, outs)
    ensures PushedItems(outs) == ReturnedItems(outs) + multiset(ds[|outs|])
    decreases |outs|
  {
    var n := |outs|;
    if n > 0 {
      HistoryBalance(cap, ds[..n], outs[..n - 1]);
      OutcomeKeepsBalance(cap, outs[..n - 1], ds[n - 1], outs[n - 1], ds[n]);
      assert outs == outs[..n - 1] + [outs[n - 1]];
    }
  }

  ghost predicate Reachable(run: seq<State>) {
    forall i :: 0 <= i < |run| ==> Inv(run[i])
  }

  ghost function Deques(run: seq<State>): (ds: seq<seq<Item>>)
    requires Reachable(run)
    ensures |ds| == |run| && forall i :: 0 <= i < |run| ==> ds[i] == Deque(run[i])
  {
    seq(|run|, i requires 0 <= i < |run| => Deque(run[i]))
  }

  /** Every interleaved run reports, call by call, what a sequential bounded
      deque would: pushes and pops at one end, steals at the other. */
  lemma RunIsADequeHistory(run: seq<State>, acts: seq<Action>, outs: seq<Outcome>)
    requires IsRun(run, acts, outs)
    ensures Reachable(run) && IsHistory(run[0].cap, Deques(run), outs)
  {
    forall i | 0 <= i < |run| ensures Inv(run[i]) { RunKeepsInv(run, acts, outs, i); }
    InitInv(run[0]);
    forall i | 0 <= i < |outs| ensures DequeStep(run[0].cap, Deques(run)[i], outs[i], Deques(run)[i + 1]) {
      RunStepRefines(run, acts, outs, i);
    }
  }

  /** In every run what was pushed is what was returned plus what is queued:
      no item is lost and none is given out twice. */
  lemma PushedIsReturnedPlusQueued(run: seq<State>, acts: seq<Action>, outs: seq<Outcome>)
    requires IsRun(run, acts, outs)
    ensures Reachable(run)
    ensures PushedItems(outs) == ReturnedItems(outs) + multiset(Deques(run)[|outs|])
  {
    RunIsADequeHistory(run, acts, outs);
    HistoryBalance(run[0].cap, Deques(run), outs);
  }

  /** Each item that was pushed once is returned at most once. */
  lemma ReturnedAtMostOnce(run: seq<State>, acts: seq<Action>, outs: seq<Outcome>, x: Item)
    requires IsRun(run, acts, outs) && PushedItems(outs)[x] <= 1
    ensures ReturnedItems(outs)[x] <= 1
    ensures x in ReturnedItems(outs) ==> Reachable(run) && x !in Deques(run)[|outs|]
  {
    PushedIsReturnedPlusQueued(run, acts, outs);
    assert x in multiset(Deques(run)[|outs|]) <==> x in Deques(run)[|outs|];
  }

  /** A pop has lowered _bottom below an item and has not decided yet. */
  predicate PopClaims(pc: OwnerPc) {
    pc.PopReload? || pc.PopRead? || pc.PopCas?
  }

  /** A steal reports nothing only when the deque is empty, or holds just the
      item that a pop in progress has claimed. */
  lemma StealMissesOnlyAClaimedItem(run: seq<State>, acts: seq<Action>, outs: seq<Outcome>, i: nat)
    requires IsRun(run, acts, outs) && i < |acts| && outs[i].StealEmpty?
    ensures Inv(run[i]) && run[i].bottom <= run[i].top
    ensures Deque(run[i]) == [] || (|Deque(run[i])| == 1 && PopClaims(run[i].owner))
  {
    var s := run[i];
    RunKeepsInv(run, acts, outs, i);
    assert StepAt(run, acts, outs, i);
    assert ThiefOk(s, s.thieves[acts[i].a]);
  }

  // ---- Every call reports once --------------------------------------------------------

  /** The items of the first i calls of push, and of those that have reported. */
  function Begun(acts: seq<Action>, i: nat): seq<Item>
    requires i <= |acts|
  {
    if i == 0 then [] else Begun(acts, i - 1) + if acts[i - 1].StartPush? then [acts[i - 1].x] else []
  }

  function Reported(outs: seq<Outcome>, i: nat): seq<Item>
    requires i <= |outs|
  {
    if i == 0 then []
    else Reported(outs, i - 1) + if outs[i - 1].Pushed? || outs[i - 1].PushFull? then [outs[i - 1].x] else []
  }

  function Unreported(pc: OwnerPc): seq<Item> {
    if pc.PushLoadTop? || pc.PushWrite? || pc.PushStore? then [pc.x] else []
  }

  /** Every push reports once, in order and about its own item. */
  lemma {:induction false} PushesReportOnce(run: seq<State>, acts: seq<Action>, outs: seq<Outcome>, i: nat)
    requires IsRun(run, acts, outs) && i < |run|
    ensures Begun(acts, i) == Reported(outs, i) + Unreported(run[i].owner)
  {
    hide Slot;
    if i > 0 {
      PushesReportOnce(run, acts, outs, i - 1);
      assert StepAt(run, acts, outs, i - 1);
    }
  }

  /** Has not reported yet. */
  predicate Undecided(pc: OwnerPc) {
    pc.PopLoadTop? || pc.PopLower? || PopClaims(pc)
  }

  function PopCalls(acts: seq<Action>, i: nat): nat
    requires i <= |acts|
  {
    if i == 0 then 0 else PopCalls(acts, i - 1) + Bit(acts[i - 1].StartPop?)
  }

  function PopReports(outs: seq<Outcome>, i: nat): nat
    requires i <= |outs|
  {
    if i == 0 then 0 else PopReports(outs, i - 1) + Bit(outs[i - 1].Popped? || outs[i - 1].PopEmpty?)
  }

  /** Every pop reports once. */
  lemma {:induction false} PopsReportOnce(run: seq<State>, acts: seq<Action>, outs: seq<Outcome>, i: nat)
    requires IsRun(run, acts, outs) && i < |run|
    ensures PopCalls(acts, i) == PopReports(outs, i) + Bit(Undecided(run[i].owner))
  {
    hide Slot;
    if i > 0 {
      PopsReportOnce(run, acts, outs, i - 1);
      assert StepAt(run, acts, outs, i - 1);
    }
  }

  function StealCalls(acts: seq<Action>, i: nat, a: nat): nat
    requires i <= |acts|
  {
    if i == 0 then 0 else StealCalls(acts, i - 1, a) + Bit(acts[i - 1] == StartSteal(a))
  }

  function StealReports(acts: seq<Action>, outs: seq<Outcome>, i: nat, a: nat): nat
    requires i <= |acts| == |outs|
  {
    if i == 0 then 0
    else StealReports(acts, outs, i - 1, a)
         + Bit(acts[i - 1] == Thief(a) && (outs[i - 1].Stolen? || outs[i - 1].StealEmpty?))
  }

  /** Every steal of a thief reports once. */
  lemma {:induction false} StealsReportOnce(run: seq<State>, acts: seq<Action>, outs: seq<Outcome>, i: nat, a: nat)
    requires IsRun(run, acts, outs) && i < |run|
    ensures StealCalls(acts, i, a) ==
      StealReports(acts, outs, i, a) + Bit(a in run[i].thieves && !run[i].thieves[a].Asleep?)
  {
    hide Slot;
    if i > 0 {
      StealsReportOnce(run, acts, outs, i - 1, a);
      assert StepAt(run, acts, outs, i - 1);
    }
  }

  /** A push never overwrites the slot of a thief that can still win. */
  lemma NoOverwriteUnderAWinningThief(run: seq<State>, acts: seq<Action>, outs: seq<Outcome>, i: nat, a: nat)
    requires IsRun(run, acts, outs) && i < |run|
    requires run[i].owner.PushWrite? && a in run[i].thieves
    requires HasIndex(run[i].thieves[a]) && run[i].thieves[a].t == run[i].top
    ensures PowerOfTwo(run[i].cap) && Slot(run[i].cap, run[i].thieves[a].t) != Slot(run[i].cap, run[i].owner.b)
  {
    RunKeepsInv(run, acts, outs, i);
    var s := run[i];
    assert ThiefOk(s, s.thieves[a]);
    PushWriteIsOutside(s, s.owner.x, s.owner.b, s.top);
  }

  /** The value a thief has read is the oldest item whenever its exchange
      can still succeed. */
  lemma WinningThiefHasTheFront(run: seq<State>, acts: seq<Action>, outs: seq<Outcome>, i: nat, a: nat)
    requires IsRun(run, acts, outs) && i < |run| && a in run[i].thieves
    requires run[i].thieves[a].StealCas? && run[i].thieves[a].t == run[i].top
    ensures Inv(run[i]) && Deque(run[i]) != [] && Deque(run[i])[0] == run[i].thieves[a].v
  {
    RunKeepsInv(run, acts, outs, i);
    assert ThiefOk(run[i], run[i].thieves[a]);
  }
}
