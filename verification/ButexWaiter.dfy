/** How long a butex waiter lives: it is on the stack of butex_wait, and wakers,
    the timer and interrupters use it through a pointer. One bthread, any number
    of wakers and interrupters; waiter w is that of the bthread's w-th wait. */
module ButexWaiter {
  import opened Basics
  import opened Counting

  /** butex_wait of the bthread: before wait_for_butex, switched out, spinning in
      unsleep_if_necessary, and spinning for current_waiter. */
  datatype Task = Out | Queueing(timed: bool) | Waiting | Unsleep | Exchange

  /** erase_from_butex_and_wakeup in the timer thread. */
  datatype Timer = Scheduled | RunErase | RunWake | RunEnd | Finished | Cancelled

  datatype Pc =
    | Idle
    // a waker that took the waiter off the list
    | Taken(w: nat)
    | Ready(w: nat)
    // TaskGroup::interrupt
    | IErase(w: nat)
    | IWake(w: nat)
    | IBack(w: nat)
    // somebody uses a waiter that is gone
    | Dangling

  datatype State = State(
    call: nat, task: Task, queued: bool, current: Option<nat>, sleepId: bool,
    timers: map<nat, Timer>, threads: map<nat, Pc>, bad: bool)

  const Init := State(0, Out, false, None, false, map[], map[], false)

  datatype Action =
    | Begin(timed: bool)
    | Queue(matches: bool)
    | TaskStep
    | Wake(a: nat)
    | Interrupt(a: nat)
    | Step(a: nat)
    | Fire(w: nat)
    | TimerStep(w: nat)

  function PcOf(s: State, a: nat): Pc {
    if a in s.threads then s.threads[a] else Idle
  }

  function Go(s: State, a: nat, pc: Pc): State {
    s.(threads := s.threads[a := pc])
  }

  function TimerOf(s: State, w: nat): Timer {
    if w in s.timers then s.timers[w] else Finished
  }

  predicate Running(t: Timer) {
    t.RunErase? || t.RunWake? || t.RunEnd?
  }

  predicate Enabled(s: State, act: Action) {
    match act
    case Begin(_) => s.task.Out?
    case Queue(_) => s.task.Queueing?
    case TaskStep => s.task.Unsleep? || s.task.Exchange?
    case Wake(a) => PcOf(s, a).Idle? && s.queued
    case Interrupt(a) => PcOf(s, a).Idle?
    case Step(a) => !PcOf(s, a).Idle? && !PcOf(s, a).Dangling?
    case Fire(w) => TimerOf(s, w).Scheduled?
    case TimerStep(w) => Running(TimerOf(s, w))
  }

  /** The waiter is still on the stack. */
  predicate Alive(s: State, w: nat) {
    w == s.call && !s.task.Out?
  }

  /** unschedule: a task that has not begun is cancelled; the answer tells
      whether it is running. */
  function Unschedule(s: State, w: nat): State {
    if TimerOf(s, w).Scheduled? then s.(timers := s.timers[w := Cancelled], sleepId := false)
    else if Running(TimerOf(s, w)) then s
    else s.(sleepId := false)
  }

  function Next(s: State, act: Action): State
    requires Enabled(s, act)
  {
    match act
    case Begin(timed) => s.(call := s.call + 1, task := Queueing(timed), queued := false, current := Some(s.call + 1), sleepId := false)
    case Queue(matches) =>
      if !matches then s.(task := Unsleep)
      else if !s.task.timed then s.(task := Waiting, queued := true)
      else s.(task := Waiting, queued := true, sleepId := true, timers := s.timers[s.call := Scheduled])
    case TaskStep =>
      if s.task.Exchange? then if s.current == None then s else s.(current := None, task := Out)
      else if !s.sleepId then s.(task := Exchange)
      else var t := Unschedule(s, s.call); if t.sleepId then t else t.(task := Exchange)
    case Wake(a) => Go(s.(queued := false), a, Taken(s.call))
    case Interrupt(a) => if s.current == None then s else Go(s.(current := None), a, IErase(s.current.value))
    case Step(a) => StepOf(s, a, PcOf(s, a))
    case Fire(w) => s.(timers := s.timers[w := RunErase])
    case TimerStep(w) => TimerNext(s, w)
  }

  /** Wakers and interrupters; each step reads or writes the waiter. */
  function StepOf(s: State, a: nat, pc: Pc): State {
    match pc
    case Taken(w) => if !Alive(s, w) then Go(s, a, Dangling) else Go(if s.sleepId then Unschedule(s, w) else s, a, Ready(w))
    case Ready(w) => if !Alive(s, w) then Go(s, a, Dangling) else Go(s.(task := Unsleep), a, Idle)
    case IErase(w) =>
      if !Alive(s, w) then Go(s, a, Dangling)
      else if s.queued then Go(s.(queued := false), a, IWake(w)) else Go(s, a, IBack(w))
    case IWake(w) => if !Alive(s, w) then Go(s, a, Dangling) else Go(s.(task := Unsleep), a, IBack(w))
    case IBack(w) => if !Alive(s, w) then Go(s, a, Dangling) else Go(s.(current := Some(w)), a, Idle)
    case _ => s
  }

  function TimerNext(s: State, w: nat): State {
    if !Alive(s, w) then s.(bad := true)
    else match TimerOf(s, w)
      case RunErase =>
        if s.queued then s.(queued := false, timers := s.timers[w := RunWake]) else s.(timers := s.timers[w := RunEnd])
      case RunWake => s.(task := Unsleep, timers := s.timers[w := RunEnd])
      case RunEnd => s.(timers := s.timers[w := Finished])
      case _ => s
  }

  // ---- Invariant ---------------------------------------------------------------------

  /** Uses a waiter. */
  predicate Uses(pc: Pc) {
    pc.Taken? || pc.Ready? || pc.IErase? || pc.IWake? || pc.IBack?
  }

  predicate Interrupts(pc: Pc) {
    pc.IErase? || pc.IWake? || pc.IBack?
  }

  /** Took the waiter off the list and will make the bthread runnable. */
  predicate Wakes(pc: Pc) {
    pc.Taken? || pc.Ready? || pc.IWake?
  }

  ghost predicate PcsOk(s: State) {
    forall a :: !PcOf(s, a).Dangling? && (Uses(PcOf(s, a)) ==> Alive(s, PcOf(s, a).w))
  }

  predicate TimerOk(s: State, w: nat) {
    TimerOf(s, w).Scheduled? || Running(TimerOf(s, w)) ==> w == s.call && s.sleepId && (s.task.Waiting? || s.task.Unsleep?)
  }

  ghost predicate TimersOk(s: State) {
    && (forall w :: TimerOk(s, w)) && (s.sleepId ==> s.task.Waiting? || s.task.Unsleep?) && !s.bad
  }

  /** current_waiter is there, or exactly one interrupter has it. */
  ghost predicate CurrentOk(s: State) {
    && (s.current.Some? ==> Alive(s, s.current.value))
    && Count(s.threads, Interrupts) == Bit(!s.task.Out? && s.current == None)
  }

  /** A bthread that is switched out is in the list or in one hand. */
  ghost predicate WaitOk(s: State) {
    Bit(s.queued) + Count(s.threads, Wakes) + Bit(TimerOf(s, s.call).RunWake?) == Bit(s.task.Waiting?)
  }

  ghost predicate Inv(s: State) {
    PcsOk(s) && TimersOk(s) && CurrentOk(s) && WaitOk(s)
  }

  lemma CountsMove(s: State, a: nat, pc: Pc)
    ensures var m := s.threads[a := pc];
      && Count(m, Interrupts) == Count(s.threads, Interrupts) - Bit(Interrupts(PcOf(s, a))) + Bit(Interrupts(pc))
      && Count(m, Wakes) == Count(s.threads, Wakes) - Bit(Wakes(PcOf(s, a))) + Bit(Wakes(pc))
      && (Interrupts(PcOf(s, a)) ==> Count(s.threads, Interrupts) > 0) && (Wakes(PcOf(s, a)) ==> Count(s.threads, Wakes) > 0)
  {
    CountMoves(s.threads, a, pc, Interrupts);
    CountMoves(s.threads, a, pc, Wakes);
  }

  /** With nobody interrupting or waking, nobody uses the waiter. */
  lemma NobodyUses(s: State)
    requires Count(s.threads, Interrupts) == 0 && Count(s.threads, Wakes) == 0
    ensures forall a :: !Uses(PcOf(s, a))
  {
    CountZero(s.threads, Interrupts);
    CountZero(s.threads, Wakes);
  }

  lemma StepKeepsInv(s: State, a: nat)
    requires Inv(s) && Enabled(s, Step(a))
    ensures Inv(Next(s, Step(a)))
  {
    var pc, t := PcOf(s, a), Next(s, Step(a));
    assert Alive(s, pc.w);
    CountsMove(s, a, PcOf(t, a));
    assert t.threads == s.threads[a := PcOf(t, a)] && forall b :: b != a ==> PcOf(t, b) == PcOf(s, b);
    hide Count;
    assert TimerOk(s, s.call);
    forall w ensures TimerOk(t, w) { assert TimerOk(s, w); }
  }

  lemma CallKeepsInv(s: State, act: Action)
    requires Inv(s) && Enabled(s, act) && (act.Wake? || act.Interrupt?)
    ensures Inv(Next(s, act))
  {
    var t := Next(s, act);
    if t != s {
      CountsMove(s, act.a, PcOf(t, act.a));
      assert t.threads == s.threads[act.a := PcOf(t, act.a)] && forall b :: b != act.a ==> PcOf(t, b) == PcOf(s, b);
      hide Count;
      forall w ensures TimerOk(t, w) { assert TimerOk(s, w); }
    }
  }

  lemma TaskKeepsInv(s: State, act: Action)
    requires Inv(s) && Enabled(s, act) && (act.Begin? || act.Queue? || act.TaskStep?)
    ensures Inv(Next(s, act))
  {
    var t := Next(s, act);
    assert forall b :: PcOf(t, b) == PcOf(s, b);
    assert TimerOk(s, s.call);
    if t.task.Out? || s.task.Out? { NobodyUses(s); }
    hide Count;
    forall w ensures TimerOk(t, w) { assert TimerOk(s, w); }
    assert act.Begin? ==> TimerOk(s, t.call);
  }

  lemma TimerKeepsInv(s: State, act: Action)
    requires Inv(s) && Enabled(s, act) && (act.Fire? || act.TimerStep?)
    ensures Inv(Next(s, act))
  {
    var t := Next(s, act);
    assert forall b :: PcOf(t, b) == PcOf(s, b);
    assert TimerOk(s, act.w);
    hide Count;
    forall w ensures TimerOk(t, w) { assert TimerOk(s, w); }
  }

  lemma NextKeepsInv(s: State, act: Action)
    requires Inv(s) && Enabled(s, act)
    ensures Inv(Next(s, act))
  {
    hide Inv;
    match act
    case Step(a) => StepKeepsInv(s, a);
    case Wake(_) => CallKeepsInv(s, act);
    case Interrupt(_) => CallKeepsInv(s, act);
    case Fire(_) => TimerKeepsInv(s, act);
    case TimerStep(_) => TimerKeepsInv(s, act);
    case _ => TaskKeepsInv(s, act);
  }

  // ---- Whole runs ------------------------------------------------------------------------

  ghost predicate StepAt(run: seq<State>, acts: seq<Action>, i: nat)
    requires |run| == |acts| + 1 && i < |acts|
  {
    Enabled(run[i], acts[i]) && run[i + 1] == Next(run[i], acts[i])
  }

  ghost predicate IsRun(run: seq<State>, acts: seq<Action>) {
    && |run| == |acts| + 1
    && run[0] == Init
    && forall i: nat :: i < |acts| ==> StepAt(run, acts, i)
  }

  lemma {:induction false} RunKeepsInv(run: seq<State>, acts: seq<Action>, i: nat)
    requires IsRun(run, acts) && i < |run|
    ensures Inv(run[i])
  {
    if i == 0 {
      CountZero(Init.threads, Interrupts);
      CountZero(Init.threads, Wakes);
    } else {
      RunKeepsInv(run, acts, i - 1);
      assert StepAt(run, acts, i - 1);
      hide Inv, Next;
      NextKeepsInv(run[i - 1], acts[i - 1]);
    }
  }

  /** The timer's callback uses waiter w, or another thread does. */
  predicate InUse(s: State, w: nat, a: nat) {
    Running(TimerOf(s, w)) || (Uses(PcOf(s, a)) && PcOf(s, a).w == w)
  }

  /** No waker, timer or interrupter uses a waiter after its butex_wait returned,
      and none ever finds it gone. */
  lemma NobodyOutlivesTheWait(run: seq<State>, acts: seq<Action>, i: nat, w: nat, a: nat)
    requires IsRun(run, acts) && i < |run|
    ensures InUse(run[i], w, a) ==> Alive(run[i], w)
    ensures !PcOf(run[i], a).Dangling? && !run[i].bad
  {
    RunKeepsInv(run, acts, i);
    assert TimerOk(run[i], w);
  }

  /** Between two waits current_waiter is empty, as the CHECKs on new tasks
      ask, and no timer is pending for a waiter that is gone. */
  lemma NothingIsLeftBehind(run: seq<State>, acts: seq<Action>, i: nat, w: nat)
    requires IsRun(run, acts) && i < |run| && run[i].task.Out?
    ensures run[i].current == None && !TimerOf(run[i], w).Scheduled?
  {
    RunKeepsInv(run, acts, i);
    assert TimerOk(run[i], w);
  }

  predicate WokenBy(s: State, a: nat) {
    Wakes(PcOf(s, a))
  }

  /** A bthread that is switched out is in the list, or one waker, interrupter
      or the timer, and no second one, is on the way to make it runnable. */
  lemma SleeperHasOneWaker(run: seq<State>, acts: seq<Action>, i: nat)
    requires IsRun(run, acts) && i < |run|
    ensures run[i].task.Waiting? ==>
      run[i].queued || TimerOf(run[i], run[i].call).RunWake? || exists a :: WokenBy(run[i], a)
    ensures !run[i].task.Waiting? ==> !run[i].queued
    ensures forall a, b :: WokenBy(run[i], a) && WokenBy(run[i], b) ==> a == b
    ensures run[i].queued ==> forall a :: !WokenBy(run[i], a)
  {
    var s := run[i];
    RunKeepsInv(run, acts, i);
    if Count(s.threads, Wakes) > 0 {
      var a := Witness(s.threads, Wakes);
      assert WokenBy(s, a);
    } else {
      CountZero(s.threads, Wakes);
    }
    forall a, b | WokenBy(s, a) && WokenBy(s, b) ensures a == b {
      CountMoves(s.threads, a, Idle, Wakes);
      CountOne(s.threads, Wakes, a, b);
    }
  }

  /** An interruption or a time-out that finds the bthread in the list takes it
      off and makes it runnable; one that comes late leaves it alone. */
  lemma EraseWakesAQueuedWaiter(run: seq<State>, acts: seq<Action>, i: nat)
    requires IsRun(run, acts) && i < |acts|
    ensures acts[i].Interrupt? && run[i].current.Some? ==> PcOf(run[i + 1], acts[i].a) == IErase(run[i].current.value)
    ensures acts[i].Step? && PcOf(run[i], acts[i].a).IErase? ==>
      !run[i + 1].queued && (WokenBy(run[i + 1], acts[i].a) <==> run[i].queued)
    ensures acts[i].TimerStep? && TimerOf(run[i], acts[i].w).RunErase? ==>
      !run[i + 1].queued && (TimerOf(run[i + 1], acts[i].w).RunWake? <==> run[i].queued)
    ensures acts[i].Step? && (PcOf(run[i], acts[i].a).Ready? || PcOf(run[i], acts[i].a).IWake?) ==> run[i + 1].task.Unsleep?
    ensures acts[i].TimerStep? && TimerOf(run[i], acts[i].w).RunWake? ==> run[i + 1].task.Unsleep?
  {
    if acts[i].Step? { NobodyOutlivesTheWait(run, acts, i + 1, 0, acts[i].a); }
    NobodyOutlivesTheWait(run, acts, i + 1, 0, 0);
    assert StepAt(run, acts, i);
  }
}
