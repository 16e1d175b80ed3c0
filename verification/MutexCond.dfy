/** The three-state mutex over a butex and the condition variable that requeues
    its waiters on the mutex: threads step through butex_wait, butex_wake and
    butex_requeue. */
module MutexCond {
  import opened Basics
  import opened Queues
  import opened Counting

  /** The lock word's two bytes: 0, LOCKED and CONTENDED. */
  datatype Word = Word(locked: bool, contended: bool)

  const LOCKED := Word(true, false)
  const CONTENDED := Word(true, true)

  datatype Pc =
    | Idle
    | Holding
    // bthread_mutex_lock and mutex_lock_contended_impl
    | Try
    | Contend
    | MWait
    | MEnqueue
    | MQueued
    // Taken off a waiter list by somebody who is about to make it runnable.
    | Popped
    // bthread_mutex_unlock
    | UWake
    | UHand(w: nat)
    // bthread_cond_wait; e is the sequence number it read.
    | CUnlock(e: nat)
    | CWake(e: nat)
    | CHand(e: nat, w: nat)
    | CWait(e: nat)
    | CEnqueue(e: nat)
    | CQueued(e: nat)
    // bthread_cond_signal and bthread_cond_broadcast, with or without the mutex
    | SigInc(held: bool)
    | SigWake(held: bool)
    | SigHand(held: bool, w: nat)
    | BcInc(held: bool)
    | BcRequeue(held: bool)
    | BcHand(held: bool, w: nat)
    // TaskGroup::interrupt through erase_from_butex: the load of container,
    // the recheck under that butex's lock, and the wakeup
    | ILoad(w: nat)
    | ILock(w: nat, onMutex: bool)
    | IHand(w: nat)

  /** slept and woken count how often a thread was queued and made runnable. */
  datatype State = State(
    word: Word, sequence: nat, bound: bool, mq: seq<nat>, cq: seq<nat>,
    threads: map<nat, Pc>, slept: map<nat, nat>, woken: map<nat, nat>)

  const Init := State(Word(false, false), 0, false, [], [], map[], map[], map[])

  datatype Action =
    | Lock(a: nat)
    | TryLock(a: nat)
    | Unlock(a: nat)
    | CondWait(a: nat)
    | Signal(a: nat)
    | Broadcast(a: nat)
    | Interrupt(a: nat, w: nat)
    // front: queued at the head; interrupted: not queued at all
    | Step(a: nat, front: bool, interrupted: bool)

  function PcOf(s: State, a: nat): Pc {
    if a in s.threads then s.threads[a] else Idle
  }

  function Go(s: State, a: nat, pc: Pc): State {
    s.(threads := s.threads[a := pc])
  }

  /** Takes w, which is in one of the lists, off it. */
  function Take(s: State, w: nat): State {
    s.(mq := Without(s.mq, w), cq := Without(s.cq, w), threads := s.threads[w := Popped])
  }

  /** ready_to_run of the waiter in hand: it goes on to contend for the mutex. */
  function Wake(s: State, w: nat): State {
    s.(threads := s.threads[w := Contend], woken := Bump(s.woken, w))
  }

  function Held(held: bool): Pc {
    if held then Holding else Idle
  }

  predicate Queued(pc: Pc) {
    pc.MQueued? || pc.CQueued?
  }

  predicate Enabled(s: State, act: Action) {
    var pc := PcOf(s, act.a);
    match act
    case Lock(_) => pc.Idle?
    case TryLock(_) => pc.Idle?
    case Unlock(_) => pc.Holding?
    case CondWait(_) => pc.Holding?
    case Signal(_) => pc.Idle? || pc.Holding?
    case Broadcast(_) => pc.Idle? || pc.Holding?
    case Interrupt(_, _) => pc.Idle?
    case Step(_, _, _) => !pc.Idle? && !pc.Holding? && !pc.Popped? && !Queued(pc)
  }

  function Next(s: State, act: Action): State
    requires Enabled(s, act)
  {
    var a, pc := act.a, PcOf(s, act.a);
    match act
    case Lock(_) => Go(s, a, Try)
    case TryLock(_) => if s.word.locked then Go(s, a, Idle) else Go(s.(word := s.word.(locked := true)), a, Holding)
    case Unlock(_) => Go(s.(word := Word(false, false)), a, if s.word == LOCKED then Idle else UWake)
    case CondWait(_) => Go(s.(bound := true), a, CUnlock(s.sequence))
    case Signal(_) => Go(s, a, SigInc(pc.Holding?))
    case Broadcast(_) => Go(s, a, BcInc(pc.Holding?))
    case Interrupt(_, w) => Go(s, a, ILoad(w))
    case Step(_, front, interrupted) => StepOf(s, a, pc, front, interrupted)
  }

  function StepOf(s: State, a: nat, pc: Pc, front: bool, interrupted: bool): State {
    match pc
    case Try => if s.word.locked then Go(s, a, Contend) else Go(s.(word := s.word.(locked := true)), a, Holding)
    case Contend => Go(s.(word := CONTENDED), a, if s.word.locked then MWait else Holding)
    case MWait => Go(s, a, if s.word == CONTENDED then MEnqueue else Contend)
    case MEnqueue =>
      if s.word != CONTENDED || interrupted then Go(s, a, Contend)
      else Go(s.(mq := if front then [a] + s.mq else s.mq + [a], slept := Bump(s.slept, a)), a, MQueued)
    case UWake => if s.mq == [] then Go(s, a, Idle) else Go(Take(s, s.mq[0]), a, UHand(s.mq[0]))
    case UHand(w) => Go(Wake(s, w), a, Idle)
    case CUnlock(e) => Go(s.(word := Word(false, false)), a, if s.word == LOCKED then CWait(e) else CWake(e))
    case CWake(e) => if s.mq == [] then Go(s, a, CWait(e)) else Go(Take(s, s.mq[0]), a, CHand(e, s.mq[0]))
    case CHand(e, w) => Go(Wake(s, w), a, CWait(e))
    case CWait(e) => Go(s, a, if s.sequence == e then CEnqueue(e) else Contend)
    case CEnqueue(e) =>
      if s.sequence != e || interrupted then Go(s, a, Contend)
      else Go(s.(cq := s.cq + [a], slept := Bump(s.slept, a)), a, CQueued(e))
    case SigInc(held) => Go(s.(sequence := s.sequence + 1), a, SigWake(held))
    case SigWake(held) => if s.cq == [] then Go(s, a, Held(held)) else Go(Take(s, s.cq[0]), a, SigHand(held, s.cq[0]))
    case SigHand(held, w) => Go(Wake(s, w), a, Held(held))
    case BcInc(held) => if s.bound then Go(s.(sequence := s.sequence + 1), a, BcRequeue(held)) else Go(s, a, Held(held))
    case BcRequeue(held) => if s.cq == [] then Go(s, a, Held(held)) else Go(Requeue(s), a, BcHand(held, s.cq[0]))
    case BcHand(held, w) => Go(Wake(s, w), a, Held(held))
    case ILoad(w) =>
      Go(s, a, if PcOf(s, w).MQueued? then ILock(w, true) else if PcOf(s, w).CQueued? then ILock(w, false) else Idle)
    case ILock(w, onMutex) =>
      if (if onMutex then PcOf(s, w).MQueued? else PcOf(s, w).CQueued?) then Go(Take(s, w), a, IHand(w))
      else Go(s, a, ILoad(w))
    case IHand(w) => Go(Wake(s, w), a, Idle)
    case _ => s
  }

  /** butex_requeue: the first waiter is taken, the others move to the mutex. */
  function Requeue(s: State): State
    requires s.cq != []
  {
    var moved := map t | t in s.threads :: if t in s.cq then (if t == s.cq[0] then Popped else MQueued) else s.threads[t];
    s.(mq := s.mq + s.cq[1..], cq := [], threads := moved)
  }

  // ---- Invariant -------------------------------------------------------------------

  /** Between taking the mutex and giving it up. */
  predicate Holds(pc: Pc) {
    match pc
    case Holding => true
    case CUnlock(_) => true
    case SigInc(held) => held
    case SigWake(held) => held
    case SigHand(held, _) => held
    case BcInc(held) => held
    case BcRequeue(held) => held
    case BcHand(held, _) => held
    case _ => false
  }

  /** The waiter somebody took off a list and has not yet made runnable. */
  function InHand(pc: Pc): Option<nat> {
    match pc
    case UHand(w) => Some(w)
    case CHand(_, w) => Some(w)
    case SigHand(_, w) => Some(w)
    case BcHand(_, w) => Some(w)
    case IHand(w) => Some(w)
    case _ => None
  }

  /** Bound to wake a mutex waiter or to mark the word contended. */
  predicate Rescues(pc: Pc) {
    pc.UWake? || pc.CWake? || pc.Contend? || pc.Popped?
  }

  predicate Asleep(pc: Pc) {
    Queued(pc) || pc.Popped?
  }

  /** A thread is in a list exactly when its state says so, and then once. */
  ghost predicate ListsOk(s: State) {
    && Distinct(s.mq) && Distinct(s.cq)
    && (forall t :: t in s.mq <==> PcOf(s, t).MQueued?)
    && (forall t :: t in s.cq <==> PcOf(s, t).CQueued?)
  }

  predicate HasInHand(s: State, a: nat, w: nat) {
    InHand(PcOf(s, a)) == Some(w)
  }

  /** Each waiter off the lists but not runnable is in exactly one hand. */
  ghost predicate HandsOk(s: State) {
    && (forall a, w :: HasInHand(s, a, w) ==> PcOf(s, w).Popped?)
    && (forall a, b, w :: HasInHand(s, a, w) && HasInHand(s, b, w) ==> a == b)
    && (forall w :: PcOf(s, w).Popped? ==> exists a :: HasInHand(s, a, w))
  }

  ghost predicate LockOk(s: State) {
    && Count(s.threads, Holds) == Bit(s.word.locked)
    && (s.word.contended ==> s.word.locked)
  }

  predicate RescuedBy(s: State, a: nat) {
    a in s.threads && Rescues(s.threads[a])
  }

  ghost predicate RescueOk(s: State) {
    s.mq != [] && !s.word.contended ==> exists a :: RescuedBy(s, a)
  }

  ghost predicate LedgerOk(s: State) {
    forall t :: Times(s.slept, t) == Times(s.woken, t) + Bit(Asleep(PcOf(s, t)))
  }

  predicate SeqOk(pc: Pc, sequence: nat) {
    (pc.CUnlock? || pc.CWake? || pc.CHand? || pc.CWait? || pc.CEnqueue? || pc.CQueued?) ==> pc.e <= sequence
  }

  ghost predicate SeqsOk(s: State) {
    forall t :: SeqOk(PcOf(s, t), s.sequence)
  }

  ghost predicate Inv(s: State) {
    ListsOk(s) && HandsOk(s) && LockOk(s) && RescueOk(s) && LedgerOk(s) && SeqsOk(s)
  }

  // ---- Every step keeps the invariant ------------------------------------------------

  lemma RescueKept(s: State, t: State, a: nat)
    requires RescueOk(s) && t.threads == s.threads[a := PcOf(t, a)] && (t.mq == s.mq || t.mq == [])
    requires t.mq == [] || t.word.contended || Rescues(PcOf(t, a)) || (!Rescues(PcOf(s, a)) && !s.word.contended)
    ensures RescueOk(t)
  {
    if t.mq != [] && !t.word.contended {
      if Rescues(PcOf(t, a)) {
        assert RescuedBy(t, a);
      } else {
        var b :| RescuedBy(s, b);
        assert RescuedBy(t, b);
      }
    }
  }

  lemma LockKept(s: State, t: State, a: nat)
    requires LockOk(s) && t.threads == s.threads[a := PcOf(t, a)]
    requires Bit(t.word.locked) == Bit(s.word.locked) - Bit(Holds(PcOf(s, a))) + Bit(Holds(PcOf(t, a)))
    requires t.word.contended ==> t.word.locked
    ensures LockOk(t)
  {
    CountMoves(s.threads, a, PcOf(t, a), Holds);
  }

  lemma HoldingMeansLocked(s: State, a: nat)
    requires LockOk(s) && Holds(PcOf(s, a))
    ensures s.word.locked
  {
    CountMoves(s.threads, a, Idle, Holds);
  }

  lemma HandsKept(s: State, t: State, a: nat)
    requires HandsOk(s) && t.threads == s.threads[a := PcOf(t, a)]
    requires InHand(PcOf(s, a)) == None == InHand(PcOf(t, a)) && !PcOf(s, a).Popped? && !PcOf(t, a).Popped?
    ensures HandsOk(t)
  {
    assert forall b, w :: HasInHand(t, b, w) <==> HasInHand(s, b, w);
    forall w | PcOf(t, w).Popped? ensures exists b :: HasInHand(t, b, w) {
      assert PcOf(s, w).Popped?;
      var b :| HasInHand(s, b, w);
      assert HasInHand(t, b, w);
    }
  }

  /** One thread moves and neither a list nor a hand is involved. */
  ghost predicate Plain(s: State, t: State, a: nat) {
    && t == s.(word := t.word, sequence := t.sequence, bound := t.bound, threads := s.threads[a := PcOf(t, a)])
    && t.sequence >= s.sequence
    && !Asleep(PcOf(s, a)) && !Asleep(PcOf(t, a))
    && InHand(PcOf(s, a)) == None == InHand(PcOf(t, a))
  }

  lemma PlainKeepsInv(s: State, t: State, a: nat)
    requires Inv(s) && Plain(s, t, a) && SeqOk(PcOf(t, a), t.sequence)
    requires Bit(t.word.locked) == Bit(s.word.locked) - Bit(Holds(PcOf(s, a))) + Bit(Holds(PcOf(t, a)))
    requires t.word.contended ==> t.word.locked
    requires t.mq == [] || t.word.contended || Rescues(PcOf(t, a)) || (!Rescues(PcOf(s, a)) && !s.word.contended)
    ensures Inv(t)
  {
    hide LockOk, RescueOk, HandsOk;
    LockKept(s, t, a);
    RescueKept(s, t, a);
    HandsKept(s, t, a);
    forall x ensures SeqOk(PcOf(t, x), t.sequence) { assert SeqOk(PcOf(s, x), s.sequence); }
    forall x ensures Times(t.slept, x) == Times(t.woken, x) + Bit(Asleep(PcOf(t, x))) {
      assert Times(s.slept, x) == Times(s.woken, x) + Bit(Asleep(PcOf(s, x)));
    }
  }

  /** Waiter w goes from its list into the hand of a. */
  lemma TakeKeepsInv(s: State, w: nat, a: nat, pc: Pc)
    requires Inv(s) && Queued(PcOf(s, w)) && a != w
    requires !Asleep(PcOf(s, a)) && InHand(PcOf(s, a)) == None && InHand(pc) == Some(w)
    requires Holds(pc) == Holds(PcOf(s, a)) && SeqOk(pc, s.sequence)
    ensures Inv(Go(Take(s, w), a, pc))
  {
    var t := Go(Take(s, w), a, pc);
    assert RescuedBy(t, w);
    hide HandsOk, ListsOk, LockOk, LedgerOk, SeqsOk;
    TakeKeepsLists(s, w, a, pc);
    TakeKeepsHands(s, w, a, pc);
    TakeKeepsRest(s, w, a, pc);
  }

  lemma TakeKeepsLists(s: State, w: nat, a: nat, pc: Pc)
    requires ListsOk(s) && Queued(PcOf(s, w)) && a != w && !Asleep(PcOf(s, a)) && InHand(pc) == Some(w)
    ensures ListsOk(Go(Take(s, w), a, pc))
  {
    WithoutOk(s.mq, w);
    WithoutOk(s.cq, w);
    hide Distinct, Without;
  }

  lemma TakeKeepsRest(s: State, w: nat, a: nat, pc: Pc)
    requires LockOk(s) && LedgerOk(s) && SeqsOk(s) && Queued(PcOf(s, w)) && a != w
    requires !Asleep(PcOf(s, a)) && InHand(pc) == Some(w) && Holds(pc) == Holds(PcOf(s, a)) && SeqOk(pc, s.sequence)
    ensures var t := Go(Take(s, w), a, pc); LockOk(t) && LedgerOk(t) && SeqsOk(t)
  {
    var t := Go(Take(s, w), a, pc);
    CountMoves(s.threads, w, Popped, Holds);
    CountMoves(s.threads[w := Popped], a, pc, Holds);
    hide Without, Count;
    forall x ensures SeqOk(PcOf(t, x), t.sequence) { assert SeqOk(PcOf(s, x), s.sequence); }
    forall x ensures Times(t.slept, x) == Times(t.woken, x) + Bit(Asleep(PcOf(t, x))) {
      assert Times(s.slept, x) == Times(s.woken, x) + Bit(Asleep(PcOf(s, x)));
    }
  }

  lemma TakeKeepsHands(s: State, w: nat, a: nat, pc: Pc)
    requires HandsOk(s) && Queued(PcOf(s, w)) && a != w
    requires !Asleep(PcOf(s, a)) && InHand(PcOf(s, a)) == None && InHand(pc) == Some(w)
    ensures HandsOk(Go(Take(s, w), a, pc))
  {
    hide Without;
    var t := Go(Take(s, w), a, pc);
    assert forall b, x :: b != a ==> (HasInHand(t, b, x) <==> HasInHand(s, b, x));
    assert HasInHand(t, a, w);
    assert forall b :: !HasInHand(s, b, w);
    forall x | PcOf(t, x).Popped? && x != w ensures exists b :: HasInHand(t, b, x) {
      assert PcOf(s, x).Popped?;
      var b :| HasInHand(s, b, x);
      assert HasInHand(t, b, x);
    }
  }

  /** The waiter in the hand of a becomes runnable. */
  lemma WakeKeepsInv(s: State, w: nat, a: nat, pc: Pc)
    requires Inv(s) && HasInHand(s, a, w) && InHand(pc) == None && !Asleep(pc)
    requires Holds(pc) == Holds(PcOf(s, a)) && SeqOk(pc, s.sequence)
    ensures Inv(Go(Wake(s, w), a, pc))
  {
    var t := Go(Wake(s, w), a, pc);
    assert PcOf(s, w).Popped? && a != w;
    WakeKeepsHands(s, w, a, pc);
    CountMoves(s.threads, w, Contend, Holds);
    CountMoves(s.threads[w := Contend], a, pc, Holds);
    assert RescuedBy(t, w);
    hide Distinct, HandsOk, Count;
    forall x ensures SeqOk(PcOf(t, x), t.sequence) { assert SeqOk(PcOf(s, x), s.sequence); }
    forall x ensures Times(t.slept, x) == Times(t.woken, x) + Bit(Asleep(PcOf(t, x))) {
      assert Times(s.slept, x) == Times(s.woken, x) + Bit(Asleep(PcOf(s, x)));
    }
  }

  lemma WakeKeepsHands(s: State, w: nat, a: nat, pc: Pc)
    requires HandsOk(s) && HasInHand(s, a, w) && InHand(pc) == None && !Asleep(pc)
    ensures HandsOk(Go(Wake(s, w), a, pc))
  {
    var t := Go(Wake(s, w), a, pc);
    assert PcOf(s, w).Popped? && a != w;
    assert forall b, x :: b != a ==> (HasInHand(t, b, x) <==> HasInHand(s, b, x));
    assert forall b :: HasInHand(s, b, w) ==> b == a;
    forall x | PcOf(t, x).Popped? ensures exists b :: HasInHand(t, b, x) {
      assert PcOf(s, x).Popped? && x != w;
      var b :| HasInHand(s, b, x);
      assert b != a;
      assert HasInHand(t, b, x);
    }
  }

  lemma EnqueueKeepsLists(s: State, t: State, a: nat)
    requires ListsOk(s) && !Queued(PcOf(s, a)) && t.threads == s.threads[a := PcOf(t, a)]
    requires if PcOf(t, a).MQueued? then (t.mq == [a] + s.mq || t.mq == s.mq + [a]) && t.cq == s.cq
             else PcOf(t, a).CQueued? && t.cq == s.cq + [a] && t.mq == s.mq
    ensures ListsOk(t)
  {
    assert a !in s.mq && a !in s.cq;
    assert forall x :: x in [a] + s.mq <==> x == a || x in s.mq;
    assert forall x :: x in s.mq + [a] <==> x == a || x in s.mq;
    assert forall x :: x in s.cq + [a] <==> x == a || x in s.cq;
  }

  /** A thread goes to sleep in one of the lists. */
  lemma EnqueueKeepsInv(s: State, a: nat, pc: Pc, front: bool)
    requires Inv(s) && PcOf(s, a) == pc && (pc.MEnqueue? || pc.CEnqueue?)
    requires if pc.MEnqueue? then s.word == CONTENDED else s.sequence == pc.e
    ensures Inv(StepOf(s, a, pc, front, false))
  {
    var t := StepOf(s, a, pc, front, false);
    EnqueueKeepsLists(s, t, a);
    hide ListsOk, LockOk, HandsOk;
    LockKept(s, t, a);
    HandsKept(s, t, a);
    if pc.CEnqueue? { RescueKept(s, t, a); }
    forall x ensures SeqOk(PcOf(t, x), t.sequence) { assert SeqOk(PcOf(s, x), s.sequence); }
    forall x ensures Times(t.slept, x) == Times(t.woken, x) + Bit(Asleep(PcOf(t, x))) {
      assert Times(s.slept, x) == Times(s.woken, x) + Bit(Asleep(PcOf(s, x)));
    }
  }

  lemma SameHolders(m: map<nat, Pc>, n: map<nat, Pc>)
    requires m.Keys == n.Keys && forall a :: a in m ==> Holds(m[a]) == Holds(n[a])
    ensures Count(m, Holds) == Count(n, Holds)
  {
    assert Those(m, Holds) == Those(n, Holds);
  }

  lemma RequeuePcs(s: State, x: nat)
    requires ListsOk(s) && s.cq != []
    ensures PcOf(Requeue(s), x) ==
      if x in s.cq then (if x == s.cq[0] then Popped else MQueued) else PcOf(s, x)
  {
  }

  lemma RequeueKeepsLists(s: State)
    requires ListsOk(s) && s.cq != []
    ensures ListsOk(Requeue(s))
  {
    var t, rest := Requeue(s), s.cq[1..];
    assert forall i :: 0 <= i < |rest| ==> rest[i] == s.cq[i + 1];
    assert s.cq[0] !in rest;
    assert forall x :: x in s.cq <==> x == s.cq[0] || x in rest;
    assert forall x :: x in s.mq + rest <==> x in s.mq || x in rest;
    forall x ensures (x in t.mq <==> PcOf(t, x).MQueued?) && (x in t.cq <==> PcOf(t, x).CQueued?) {
      RequeuePcs(s, x);
    }
    forall i, j | 0 <= i < j < |t.mq| ensures t.mq[i] != t.mq[j] {
      assert i < |s.mq| ==> s.mq[i] in s.mq;
      assert j >= |s.mq| ==> rest[j - |s.mq|] in s.cq;
    }
  }

  lemma ListsKept(s: State, t: State, a: nat)
    requires ListsOk(s) && t.mq == s.mq && t.cq == s.cq && t.threads == s.threads[a := PcOf(t, a)]
    requires !Queued(PcOf(s, a)) && !Queued(PcOf(t, a))
    ensures ListsOk(t)
  {
  }

  /** Waiters only change from the condition's list to the mutex's, and the
      first one into a hand. */
  lemma RequeueKeepsRest(s: State, a: nat, held: bool)
    requires ListsOk(s) && LedgerOk(s) && SeqsOk(s) && s.cq != [] && PcOf(s, a) == BcRequeue(held)
    ensures var t := Go(Requeue(s), a, BcHand(held, s.cq[0]));
      LedgerOk(t) && SeqsOk(t) && RescuedBy(t, s.cq[0])
  {
    var u, w := Requeue(s), s.cq[0];
    var t := Go(u, a, BcHand(held, w));
    assert w in s.cq;
    hide Distinct;
    assert RescuedBy(t, w) by { RequeuePcs(s, w); }
    forall x ensures SeqOk(PcOf(t, x), t.sequence) {
      RequeuePcs(s, x);
      assert SeqOk(PcOf(s, x), s.sequence);
    }
    forall x ensures Times(t.slept, x) == Times(t.woken, x) + Bit(Asleep(PcOf(t, x))) {
      RequeuePcs(s, x);
      assert Times(s.slept, x) == Times(s.woken, x) + Bit(Asleep(PcOf(s, x)));
    }
  }

  lemma RequeueKeepsLock(s: State, a: nat, held: bool)
    requires ListsOk(s) && LockOk(s) && s.cq != [] && PcOf(s, a) == BcRequeue(held)
    ensures LockOk(Go(Requeue(s), a, BcHand(held, s.cq[0])))
  {
    hide Distinct, Count;
    var u := Requeue(s);
    forall x | x in s.threads ensures Holds(s.threads[x]) == Holds(u.threads[x]) {
      assert x in s.cq ==> PcOf(s, x).CQueued?;
    }
    SameHolders(s.threads, u.threads);
    RequeuePcs(s, a);
    hide Requeue;
    LockKept(u, Go(u, a, BcHand(held, s.cq[0])), a);
  }

  lemma RequeueKeepsInv(s: State, a: nat, held: bool)
    requires Inv(s) && s.cq != [] && PcOf(s, a) == BcRequeue(held)
    ensures Inv(StepOf(s, a, PcOf(s, a), false, false))
  {
    var u, t := Requeue(s), Go(Requeue(s), a, BcHand(held, s.cq[0]));
    RequeuePcs(s, a);
    assert a !in s.cq;
    hide LockOk, LedgerOk, SeqsOk, HandsOk, ListsOk, Requeue;
    RequeueKeepsLists(s);
    ListsKept(u, t, a);
    RequeueKeepsHands(s, a, held);
    RequeueKeepsLock(s, a, held);
    RequeueKeepsRest(s, a, held);
  }

  lemma RequeueKeepsHands(s: State, a: nat, held: bool)
    requires ListsOk(s) && HandsOk(s) && s.cq != [] && PcOf(s, a) == BcRequeue(held)
    ensures HandsOk(Go(Requeue(s), a, BcHand(held, s.cq[0])))
  {
    var w := s.cq[0];
    var t := Go(Requeue(s), a, BcHand(held, w));
    forall x ensures PcOf(Requeue(s), x) == if x in s.cq then (if x == w then Popped else MQueued) else PcOf(s, x) {
      RequeuePcs(s, x);
    }
    assert PcOf(s, w).CQueued?;
    hide Requeue, Distinct;
    assert forall b, x :: b != a ==> (HasInHand(t, b, x) <==> HasInHand(s, b, x));
    assert HasInHand(t, a, w);
    assert forall b :: !HasInHand(s, b, w);
    forall x | PcOf(t, x).Popped? && x != w ensures exists b :: HasInHand(t, b, x) {
      assert PcOf(s, x).Popped?;
      var b :| HasInHand(s, b, x);
      assert HasInHand(t, b, x);
    }
  }

  lemma Parts(s: State, a: nat)
    requires Inv(s)
    ensures SeqOk(PcOf(s, a), s.sequence) && (s.word.contended ==> s.word.locked)
    ensures Holds(PcOf(s, a)) ==> s.word.locked
    ensures s.mq != [] ==> PcOf(s, s.mq[0]).MQueued?
    ensures s.cq != [] ==> PcOf(s, s.cq[0]).CQueued?
    ensures PcOf(s, a).MQueued? ==> s.mq != []
  {
    if Holds(PcOf(s, a)) { HoldingMeansLocked(s, a); }
    assert s.mq != [] ==> s.mq[0] in s.mq;
    assert s.cq != [] ==> s.cq[0] in s.cq;
  }

  /** Steps that leave the lists alone. */
  lemma LockStepKeepsInv(s: State, a: nat, pc: Pc, front: bool, interrupted: bool)
    requires Inv(s) && PcOf(s, a) == pc
    requires pc.Try? || pc.Contend? || pc.MWait? || (pc.MEnqueue? && (s.word != CONTENDED || interrupted))
    ensures Inv(StepOf(s, a, pc, front, interrupted))
  {
    hide Inv;
    Parts(s, a);
    PlainKeepsInv(s, StepOf(s, a, pc, front, interrupted), a);
  }

  lemma UnlockStepKeepsInv(s: State, a: nat, pc: Pc, front: bool, interrupted: bool)
    requires Inv(s) && PcOf(s, a) == pc
    requires pc.CUnlock? || pc.CWait? || (pc.CEnqueue? && (s.sequence != pc.e || interrupted))
      || ((pc.UWake? || pc.CWake?) && s.mq == [])
    ensures Inv(StepOf(s, a, pc, front, interrupted))
  {
    hide Inv;
    Parts(s, a);
    PlainKeepsInv(s, StepOf(s, a, pc, front, interrupted), a);
  }

  /** erase_from_butex finds the waiter in the list it looked up, or looks
      again. */
  lemma EraseStepKeepsInv(s: State, a: nat, pc: Pc)
    requires Inv(s) && PcOf(s, a) == pc && (pc.ILoad? || pc.ILock?)
    ensures Inv(StepOf(s, a, pc, false, false))
  {
    hide Inv;
    Parts(s, a);
    var t := StepOf(s, a, pc, false, false);
    if pc.ILock? && (if pc.onMutex then PcOf(s, pc.w).MQueued? else PcOf(s, pc.w).CQueued?) {
      TakeKeepsInv(s, pc.w, a, IHand(pc.w));
    } else {
      PlainKeepsInv(s, t, a);
    }
  }

  lemma CondStepKeepsInv(s: State, a: nat, pc: Pc, front: bool, interrupted: bool)
    requires Inv(s) && PcOf(s, a) == pc
    requires pc.SigInc? || pc.BcInc? || ((pc.SigWake? || pc.BcRequeue?) && s.cq == [])
    ensures Inv(StepOf(s, a, pc, front, interrupted))
  {
    hide Inv, StepOf;
    Parts(s, a);
    var more := pc.SigInc? || (pc.BcInc? && s.bound);
    var pc' := if pc.SigInc? then SigWake(pc.held) else if more then BcRequeue(pc.held) else Held(pc.held);
    CondStepIs(s, a, pc, front, interrupted);
    PlainKeepsInv(s, Go(s.(sequence := s.sequence + Bit(more)), a, pc'), a);
  }

  lemma CondStepIs(s: State, a: nat, pc: Pc, front: bool, interrupted: bool)
    requires pc.SigInc? || pc.BcInc? || ((pc.SigWake? || pc.BcRequeue?) && s.cq == [])
    ensures var more := pc.SigInc? || (pc.BcInc? && s.bound);
      var pc' := if pc.SigInc? then SigWake(pc.held) else if more then BcRequeue(pc.held) else Held(pc.held);
      StepOf(s, a, pc, front, interrupted) == Go(s.(sequence := s.sequence + Bit(more)), a, pc')
  {
  }

  lemma StepKeepsInv(s: State, a: nat, pc: Pc, front: bool, interrupted: bool)
    requires Inv(s) && PcOf(s, a) == pc && Enabled(s, Step(a, front, interrupted))
    ensures Inv(StepOf(s, a, pc, front, interrupted))
  {
    hide Inv, Without, Count, Times;
    Parts(s, a);
    match pc {
      case UWake =>
        if s.mq != [] { TakeKeepsInv(s, s.mq[0], a, UHand(s.mq[0])); }
        else { UnlockStepKeepsInv(s, a, pc, front, interrupted); }
      case CWake(e) =>
        if s.mq != [] { TakeKeepsInv(s, s.mq[0], a, CHand(e, s.mq[0])); }
        else { UnlockStepKeepsInv(s, a, pc, front, interrupted); }
      case SigWake(h) =>
        if s.cq != [] { TakeKeepsInv(s, s.cq[0], a, SigHand(h, s.cq[0])); }
        else { CondStepKeepsInv(s, a, pc, front, interrupted); }
      case BcRequeue(h) =>
        if s.cq != [] { RequeueKeepsInv(s, a, h); }
        else { CondStepKeepsInv(s, a, pc, front, interrupted); }
      case SigInc(_) => CondStepKeepsInv(s, a, pc, front, interrupted);
      case BcInc(_) => CondStepKeepsInv(s, a, pc, front, interrupted);
      case UHand(w) => WakeKeepsInv(s, w, a, Idle);
      case CHand(e, w) => WakeKeepsInv(s, w, a, CWait(e));
      case SigHand(h, w) => WakeKeepsInv(s, w, a, Held(h));
      case BcHand(h, w) => WakeKeepsInv(s, w, a, Held(h));
      case IHand(w) => WakeKeepsInv(s, w, a, Idle);
      case ILoad(_) => EraseStepKeepsInv(s, a, pc);
      case ILock(_, _) => EraseStepKeepsInv(s, a, pc);
      case MEnqueue =>
        if s.word == CONTENDED && !interrupted { EnqueueKeepsInv(s, a, pc, front); }
        else { LockStepKeepsInv(s, a, pc, front, interrupted); }
      case CEnqueue(e) =>
        if s.sequence == e && !interrupted { EnqueueKeepsInv(s, a, pc, front); }
        else { UnlockStepKeepsInv(s, a, pc, front, interrupted); }
      case CUnlock(_) => UnlockStepKeepsInv(s, a, pc, front, interrupted);
      case CWait(_) => UnlockStepKeepsInv(s, a, pc, front, interrupted);
      case _ => LockStepKeepsInv(s, a, pc, front, interrupted);
    }
  }

  lemma NextKeepsInv(s: State, act: Action)
    requires Inv(s) && Enabled(s, act)
    ensures Inv(Next(s, act))
  {
    hide Inv;
    Parts(s, act.a);
    match act {
      case Step(a, front, interrupted) => StepKeepsInv(s, a, PcOf(s, a), front, interrupted);
      case _ => CallKeepsInv(s, act);
    }
  }

  lemma CallKeepsInv(s: State, act: Action)
    requires Inv(s) && Enabled(s, act) && !act.Step?
    ensures Inv(Next(s, act))
  {
    hide Inv, StepOf;
    Parts(s, act.a);
    PlainKeepsInv(s, Next(s, act), act.a);
  }

  // ---- Whole runs -----------------------------------------------------------------------

  predicate StepAt(run: seq<State>, acts: seq<Action>, i: nat)
    requires |run| == |acts| + 1 && i < |acts|
  {
    Enabled(run[i], acts[i]) && run[i + 1] == Next(run[i], acts[i])
  }

  ghost predicate IsRun(run: seq<State>, acts: seq<Action>) {
    && |run| == |acts| + 1
    && run[0] == Init
    && forall i: nat :: i < |acts| ==> StepAt(run, acts, i)
  }

  lemma {:induction false} RunKeepsInv(run: seq<State>, acts: seq<Action>, i: nat)
    requires IsRun(run, acts) && i < |run|
    ensures Inv(run[i])
  {
    if i == 0 {
      CountZero(Init.threads, Holds);
    } else {
      RunKeepsInv(run, acts, i - 1);
      assert StepAt(run, acts, i - 1);
      hide Inv;
      NextKeepsInv(run[i - 1], acts[i - 1]);
    }
  }

  /** Two threads never hold the mutex at the same time. */
  lemma AtMostOneHolder(run: seq<State>, acts: seq<Action>, i: nat, a: nat, b: nat)
    requires IsRun(run, acts) && i < |run| && Holds(PcOf(run[i], a)) && Holds(PcOf(run[i], b))
    ensures a == b && run[i].word.locked
  {
    RunKeepsInv(run, acts, i);
    HoldingMeansLocked(run[i], a);
    CountOne(run[i].threads, Holds, a, b);
  }

  /** No wakeup is lost: while a thread sleeps on the mutex, moved there by a
      broadcast or not, either the word is CONTENDED, so that the holder's
      unlock wakes a waiter, or somebody is already on the way to wake one or
      to mark the word. */
  lemma NoLostWakeup(run: seq<State>, acts: seq<Action>, i: nat, w: nat)
    requires IsRun(run, acts) && i < |run| && PcOf(run[i], w).MQueued?
    ensures run[i].word == CONTENDED || exists a :: RescuedBy(run[i], a)
  {
    RunKeepsInv(run, acts, i);
    assert w in run[i].mq;
  }

  /** Somebody can move, or is inside its critical section. */
  predicate Moves(s: State, a: nat) {
    a in s.threads && (s.threads[a].Holding? || Enabled(s, Step(a, false, false)))
  }

  /** A sleeping mutex waiter never waits for nobody. */
  lemma WaiterIsNotStranded(run: seq<State>, acts: seq<Action>, i: nat, w: nat)
    requires IsRun(run, acts) && i < |run| && PcOf(run[i], w).MQueued?
    ensures exists a :: Moves(run[i], a)
  {
    var s := run[i];
    NoLostWakeup(run, acts, i, w);
    RunKeepsInv(run, acts, i);
    var a: nat;
    if s.word == CONTENDED {
      a := Witness(s.threads, Holds);
    } else {
      a :| RescuedBy(s, a);
      if s.threads[a].Popped? {
        assert PcOf(s, a).Popped?;
        var b :| HasInHand(s, b, a);
        a := b;
      }
    }
    assert Moves(s, a);
  }

  /** A thread is in at most one list, at one place, and a thread taken off a
      list is in the hand of exactly one waker. */
  lemma RemovedByExactlyOne(run: seq<State>, acts: seq<Action>, i: nat, w: nat)
    requires IsRun(run, acts) && i < |run|
    ensures Queued(PcOf(run[i], w)) <==> (w in run[i].mq || w in run[i].cq)
    ensures !(w in run[i].mq && w in run[i].cq) && Distinct(run[i].mq) && Distinct(run[i].cq)
    ensures PcOf(run[i], w).Popped? <==> exists a :: HasInHand(run[i], a, w)
    ensures forall a, b :: HasInHand(run[i], a, w) && HasInHand(run[i], b, w) ==> a == b
  {
    RunKeepsInv(run, acts, i);
  }

  /** Each time a thread goes to sleep it is made runnable exactly once. */
  lemma WokenOncePerSleep(run: seq<State>, acts: seq<Action>, i: nat, w: nat)
    requires IsRun(run, acts) && i < |run|
    ensures Times(run[i].slept, w) == Times(run[i].woken, w) + Bit(Asleep(PcOf(run[i], w)))
  {
    RunKeepsInv(run, acts, i);
  }

  /** Everybody still queued on the condition read its sequence at n or later. */
  ghost predicate NoneBefore(s: State, n: nat) {
    n <= s.sequence && forall t :: PcOf(s, t).CQueued? ==> n <= PcOf(s, t).e
  }

  /** Who sleeps on the condition did so before or has just read the sequence. */
  lemma Sleeper(s: State, act: Action, x: nat)
    requires Enabled(s, act)
    ensures Next(s, act).sequence >= s.sequence
    ensures PcOf(Next(s, act), x).CQueued? ==>
      PcOf(Next(s, act), x) == PcOf(s, x) || PcOf(Next(s, act), x).e == s.sequence
  {
    hide Without, Bump;
    if act.Step? { StepSleeper(s, act.a, PcOf(s, act.a), act.front, act.interrupted, x); }
  }

  predicate IsMutexPc(pc: Pc) {
    pc.Try? || pc.Contend? || pc.MWait? || pc.MEnqueue? || pc.UWake? || pc.UHand? || pc.CUnlock? || pc.CWake? || pc.CHand?
  }

  lemma StepSleeper(s: State, a: nat, pc: Pc, front: bool, interrupted: bool, x: nat)
    ensures StepOf(s, a, pc, front, interrupted).sequence >= s.sequence
    ensures var pc' := PcOf(StepOf(s, a, pc, front, interrupted), x);
      pc'.CQueued? ==> pc' == PcOf(s, x) || pc'.e == s.sequence
  {
    hide StepOf;
    if IsMutexPc(pc) { MutexSleeper(s, a, pc, front, interrupted, x); } else { CondSleeper(s, a, pc, front, interrupted, x); }
  }

  lemma MutexSleeper(s: State, a: nat, pc: Pc, front: bool, interrupted: bool, x: nat)
    requires IsMutexPc(pc)
    ensures StepOf(s, a, pc, front, interrupted).sequence >= s.sequence
    ensures var pc' := PcOf(StepOf(s, a, pc, front, interrupted), x); pc'.CQueued? ==> pc' == PcOf(s, x)
  {
    hide Without, Bump;
  }

  lemma CondSleeper(s: State, a: nat, pc: Pc, front: bool, interrupted: bool, x: nat)
    requires !IsMutexPc(pc)
    ensures StepOf(s, a, pc, front, interrupted).sequence >= s.sequence
    ensures var pc' := PcOf(StepOf(s, a, pc, front, interrupted), x);
      pc'.CQueued? ==> pc' == PcOf(s, x) || pc'.e == s.sequence
  {
    hide Without, Bump;
  }

  lemma NoneBeforeStays(s: State, act: Action, n: nat)
    requires Enabled(s, act) && NoneBefore(s, n)
    ensures NoneBefore(Next(s, act), n)
  {
    hide Next, Enabled;
    var t := Next(s, act);
    Sleeper(s, act, act.a);
    forall x | PcOf(t, x).CQueued? ensures n <= PcOf(t, x).e {
      Sleeper(s, act, x);
    }
  }

  lemma {:induction false} NoneBeforeLater(run: seq<State>, acts: seq<Action>, i: nat, j: nat, n: nat)
    requires IsRun(run, acts) && i <= j < |run| && NoneBefore(run[i], n)
    ensures NoneBefore(run[j], n)
    decreases j
  {
    hide NoneBefore, Inv, Next;
    if i < j {
      NoneBeforeLater(run, acts, i, j - 1, n);
      RunKeepsInv(run, acts, j - 1);
      assert StepAt(run, acts, j - 1);
      NoneBeforeStays(run[j - 1], acts[j - 1], n);
    }
  }

  /** After a broadcast no thread that began to wait before it sleeps on the
      condition, then or ever. */
  lemma BroadcastLeavesNobody(run: seq<State>, acts: seq<Action>, i: nat, j: nat, w: nat)
    requires IsRun(run, acts) && i < j < |run| && acts[i].Step? && PcOf(run[i], acts[i].a).BcRequeue?
    requires PcOf(run[j], w).CQueued?
    ensures PcOf(run[j], w).e >= run[i].sequence
  {
    RunKeepsInv(run, acts, i + 1);
    assert StepAt(run, acts, i);
    RequeueEmpties(run[i], acts[i]);
    NobodyQueued(run[i + 1], run[i].sequence);
    hide NoneBefore, Next;
    NoneBeforeLater(run, acts, i + 1, j, run[i].sequence);
    ReadLater(run[j], run[i].sequence, w);
  }

  lemma RequeueEmpties(s: State, act: Action)
    requires Enabled(s, act) && act.Step? && PcOf(s, act.a).BcRequeue?
    ensures Next(s, act).cq == [] && Next(s, act).sequence == s.sequence
  {
  }

  lemma NobodyQueued(s: State, n: nat)
    requires ListsOk(s) && s.cq == [] && n <= s.sequence
    ensures NoneBefore(s, n)
  {
  }

  lemma ReadLater(s: State, n: nat, w: nat)
    requires NoneBefore(s, n) && PcOf(s, w).CQueued?
    ensures PcOf(s, w).e >= n
  {
  }

  // ---- What the calls do ------------------------------------------------------------------

  ghost predicate Free(s: State) {
    forall b :: !Holds(PcOf(s, b))
  }

  lemma FreeMeansUnlocked(s: State)
    requires LockOk(s)
    ensures Free(s) <==> !s.word.locked
  {
    if s.word.locked {
      var b := Witness(s.threads, Holds);
      assert Holds(PcOf(s, b));
    } else {
      forall b ensures !Holds(PcOf(s, b)) {
        if Holds(PcOf(s, b)) { HoldingMeansLocked(s, b); }
      }
    }
  }

  /** bthread_mutex_trylock takes the mutex exactly when nobody holds it. */
  lemma TryLockTakesAFreeMutex(run: seq<State>, acts: seq<Action>, i: nat, a: nat)
    requires IsRun(run, acts) && i < |acts| && acts[i] == TryLock(a)
    ensures PcOf(run[i + 1], a) == if Free(run[i]) then Holding else Idle
  {
    RunKeepsInv(run, acts, i);
    FreeMeansUnlocked(run[i]);
    assert StepAt(run, acts, i);
  }

  /** bthread_mutex_lock, at its first try and each time it comes back, takes
      the mutex exactly when nobody holds it. */
  lemma LockTakesAFreeMutex(run: seq<State>, acts: seq<Action>, i: nat, a: nat)
    requires IsRun(run, acts) && i < |acts| && acts[i].Step? && acts[i].a == a
    requires PcOf(run[i], a).Try? || PcOf(run[i], a).Contend?
    ensures PcOf(run[i + 1], a).Holding? <==> Free(run[i])
  {
    RunKeepsInv(run, acts, i);
    FreeMeansUnlocked(run[i]);
    assert StepAt(run, acts, i);
  }

  /** bthread_mutex_unlock leaves the mutex to others. */
  lemma UnlockFreesTheMutex(run: seq<State>, acts: seq<Action>, i: nat, a: nat)
    requires IsRun(run, acts) && i < |acts| && acts[i] == Unlock(a)
    ensures Free(run[i + 1])
  {
    hide Inv, LockOk;
    assert LockOk(run[i + 1]) by { RunKeepsInv(run, acts, i + 1); HasLockOk(run[i + 1]); }
    assert StepAt(run, acts, i);
    FreeMeansUnlocked(run[i + 1]);
  }

  lemma HasLockOk(s: State)
    requires Inv(s)
    ensures LockOk(s)
  {}

  /** Inside lock or cond_wait. */
  predicate Acquires(pc: Pc) {
    || pc.Try? || pc.Contend? || pc.MWait? || pc.MEnqueue? || pc.MQueued? || pc.Popped?
    || pc.CUnlock? || pc.CWake? || pc.CHand? || pc.CWait? || pc.CEnqueue? || pc.CQueued?
  }

  lemma OwnStepAcquires(s: State, a: nat, pc: Pc, front: bool, interrupted: bool)
    requires Acquires(pc) && !Queued(pc) && !pc.Popped?
    ensures var pc' := PcOf(StepOf(s, a, pc, front, interrupted), a); Acquires(pc') || pc'.Holding?
  {
    hide Without, Bump;
  }

  /** What others do to a thread: they take it off a list, move it to the other
      one or make it runnable. */
  lemma OthersAcquire(s: State, act: Action, a: nat)
    requires Enabled(s, act) && act.a != a && Acquires(PcOf(s, a))
    ensures Acquires(PcOf(Next(s, act), a))
  {
    hide StepOf;
    if act.Step? { OthersStep(s, act.a, PcOf(s, act.a), act.front, act.interrupted, a); }
  }

  lemma OthersStep(s: State, b: nat, pc: Pc, front: bool, interrupted: bool, a: nat)
    requires a != b
    ensures Touched(PcOf(s, a), PcOf(StepOf(s, b, pc, front, interrupted), a))
  {
    hide StepOf, Touched;
    if IsMutexPc(pc) {
      MutexTouches(s, b, pc, front, interrupted, a);
    } else if pc.BcRequeue? {
      RequeueTouches(s, b, pc, front, interrupted, a);
    } else {
      CondTouches(s, b, pc, front, interrupted, a);
    }
  }

  predicate Touched(pc: Pc, pc': Pc) {
    pc' == pc || pc'.Popped? || pc'.Contend? || pc'.MQueued?
  }

  lemma MutexTouches(s: State, b: nat, pc: Pc, front: bool, interrupted: bool, a: nat)
    requires a != b && IsMutexPc(pc)
    ensures Touched(PcOf(s, a), PcOf(StepOf(s, b, pc, front, interrupted), a))
  {
    hide Without, Bump, Requeue;
  }

  lemma RequeueTouches(s: State, b: nat, pc: Pc, front: bool, interrupted: bool, a: nat)
    requires a != b && pc.BcRequeue?
    ensures Touched(PcOf(s, a), PcOf(StepOf(s, b, pc, front, interrupted), a))
  {}

  lemma CondTouches(s: State, b: nat, pc: Pc, front: bool, interrupted: bool, a: nat)
    requires a != b && !IsMutexPc(pc) && !pc.BcRequeue?
    ensures Touched(PcOf(s, a), PcOf(StepOf(s, b, pc, front, interrupted), a))
  {
    hide Without, Bump, Requeue;
  }

  /** Neither bthread_mutex_lock nor bthread_cond_wait comes back without the
      mutex, whatever others do in between. */
  lemma LockAndWaitReturnHolding(run: seq<State>, acts: seq<Action>, i: nat, a: nat)
    requires IsRun(run, acts) && i < |acts| && Acquires(PcOf(run[i], a))
    ensures Acquires(PcOf(run[i + 1], a)) || PcOf(run[i + 1], a).Holding?
  {
    hide StepOf;
    assert StepAt(run, acts, i);
    if acts[i].a == a {
      OwnStepAcquires(run[i], a, PcOf(run[i], a), acts[i].front, acts[i].interrupted);
    } else {
      OthersAcquire(run[i], acts[i], a);
    }
  }

  lemma {:induction false} WithoutAbsent(q: seq<nat>, w: nat)
    requires w !in q
    ensures Without(q, w) == q
  {
    if q != [] { WithoutAbsent(q[1..], w); }
  }

  /** An unlock that found the word contended takes the first mutex waiter, and
      goes on without one only when there is none. */
  lemma UnlockTakesTheHead(run: seq<State>, acts: seq<Action>, i: nat, a: nat)
    requires IsRun(run, acts) && i < |acts| && acts[i].Step? && acts[i].a == a
    requires PcOf(run[i], a).UWake? || PcOf(run[i], a).CWake?
    ensures var s, t := run[i], run[i + 1];
      if s.mq == [] then InHand(PcOf(t, a)) == None && t.mq == []
      else InHand(PcOf(t, a)) == Some(s.mq[0]) && t.mq == s.mq[1..]
    ensures run[i + 1].cq == run[i].cq
  {
    RunKeepsInv(run, acts, i);
    assert StepAt(run, acts, i);
    var s := run[i];
    if s.mq != [] {
      assert s.mq[0] in s.mq;
      WithoutAbsent(s.cq, s.mq[0]);
    }
  }

  /** bthread_cond_signal takes the first waiter of the condition, and returns
      without one only when nobody is queued. */
  lemma SignalTakesTheHead(run: seq<State>, acts: seq<Action>, i: nat, a: nat)
    requires IsRun(run, acts) && i < |acts| && acts[i].Step? && acts[i].a == a && PcOf(run[i], a).SigWake?
    ensures var s, t := run[i], run[i + 1];
      if s.cq == [] then InHand(PcOf(t, a)) == None && t.cq == []
      else InHand(PcOf(t, a)) == Some(s.cq[0]) && t.cq == s.cq[1..]
    ensures run[i + 1].mq == run[i].mq
  {
    RunKeepsInv(run, acts, i);
    assert StepAt(run, acts, i);
    var s := run[i];
    if s.cq != [] {
      assert s.cq[0] in s.cq;
      WithoutAbsent(s.mq, s.cq[0]);
    }
  }

  /** bthread_cond_broadcast takes the first waiter of the condition, and the
      others go to the end of the mutex's list in order. */
  lemma BroadcastMovesEverybody(run: seq<State>, acts: seq<Action>, i: nat, a: nat)
    requires IsRun(run, acts) && i < |acts| && acts[i].Step? && acts[i].a == a && PcOf(run[i], a).BcRequeue?
    ensures var s, t := run[i], run[i + 1];
      if s.cq == [] then InHand(PcOf(t, a)) == None && t.mq == s.mq
      else InHand(PcOf(t, a)) == Some(s.cq[0]) && t.mq == s.mq + s.cq[1..]
    ensures run[i + 1].cq == []
  {
    assert StepAt(run, acts, i);
  }

  /** An interruption takes the sleeper off its list, and gives up only on a
      thread that is in none. */
  lemma InterruptTakesOrIsLate(run: seq<State>, acts: seq<Action>, i: nat, a: nat)
    requires IsRun(run, acts) && i < |acts| && acts[i].Step? && acts[i].a == a
    requires PcOf(run[i], a).ILoad? || PcOf(run[i], a).ILock?
    ensures var s, from, pc, w := run[i], PcOf(run[i], a), PcOf(run[i + 1], a), PcOf(run[i], a).w;
      && (pc.Idle? ==> w !in s.mq && w !in s.cq)
      && (pc == IHand(w) <==> from.ILock? && w in (if from.onMutex then s.mq else s.cq))
  {
    RunKeepsInv(run, acts, i);
    assert StepAt(run, acts, i);
  }

  predicate InCondWait(pc: Pc) {
    pc.CUnlock? || pc.CWake? || pc.CHand? || pc.CWait? || pc.CEnqueue? || pc.CQueued?
  }

  /** The condition knows its mutex as soon as anybody waits. */
  ghost predicate BoundOk(s: State) {
    s.bound || forall a :: !InCondWait(PcOf(s, a))
  }

  lemma StepKeepsUnbound(s: State, a: nat, pc: Pc, front: bool, interrupted: bool, x: nat)
    requires !InCondWait(pc) && !InCondWait(PcOf(s, x))
    ensures !InCondWait(PcOf(StepOf(s, a, pc, front, interrupted), x))
  {
    hide StepOf;
    if x == a { OwnUnbound(s, a, pc, front, interrupted); } else { OthersStep(s, a, pc, front, interrupted, x); }
  }

  lemma OwnUnbound(s: State, a: nat, pc: Pc, front: bool, interrupted: bool)
    requires !InCondWait(pc) && !InCondWait(PcOf(s, a))
    ensures !InCondWait(PcOf(StepOf(s, a, pc, front, interrupted), a))
  {
    hide Without, Bump, Take, Wake, Requeue;
  }

  lemma StepKeepsBound(s: State, a: nat, pc: Pc, front: bool, interrupted: bool)
    ensures StepOf(s, a, pc, front, interrupted).bound == s.bound
  {
    hide Without, Bump;
  }

  lemma NextUnbound(s: State, act: Action, x: nat)
    requires Enabled(s, act) && !act.CondWait? && !InCondWait(PcOf(s, x)) && !InCondWait(PcOf(s, act.a))
    ensures !InCondWait(PcOf(Next(s, act), x)) && Next(s, act).bound == s.bound
  {
    hide StepOf;
    if act.Step? {
      StepKeepsUnbound(s, act.a, PcOf(s, act.a), act.front, act.interrupted, x);
      StepKeepsBound(s, act.a, PcOf(s, act.a), act.front, act.interrupted);
    }
  }

  lemma NextStaysBound(s: State, act: Action)
    requires Enabled(s, act) && (s.bound || act.CondWait?)
    ensures Next(s, act).bound
  {
    hide StepOf;
    if act.Step? { StepKeepsBound(s, act.a, PcOf(s, act.a), act.front, act.interrupted); }
  }

  lemma NextKeepsBound(s: State, act: Action)
    requires Enabled(s, act) && BoundOk(s)
    ensures BoundOk(Next(s, act))
  {
    hide Next, InCondWait;
    if s.bound || act.CondWait? {
      NextStaysBound(s, act);
    } else {
      forall x ensures !InCondWait(PcOf(Next(s, act), x)) {
        NextUnbound(s, act, x);
      }
    }
  }

  lemma {:induction false} RunKeepsBound(run: seq<State>, acts: seq<Action>, i: nat)
    requires IsRun(run, acts) && i < |run|
    ensures BoundOk(run[i])
  {
    hide Next;
    if i > 0 {
      RunKeepsBound(run, acts, i - 1);
      assert StepAt(run, acts, i - 1);
      NextKeepsBound(run[i - 1], acts[i - 1]);
    }
  }

  /** A broadcast that returns at once misses nobody: no thread is inside
      bthread_cond_wait at that moment. */
  lemma BroadcastSkipsNobody(run: seq<State>, acts: seq<Action>, i: nat, a: nat, w: nat)
    requires IsRun(run, acts) && i < |acts| && acts[i].Step? && acts[i].a == a && PcOf(run[i], a).BcInc?
    ensures PcOf(run[i + 1], a).BcRequeue? ==> run[i + 1].sequence == run[i].sequence + 1
    ensures !PcOf(run[i + 1], a).BcRequeue? ==> !InCondWait(PcOf(run[i], w))
  {
    RunKeepsBound(run, acts, i);
    assert StepAt(run, acts, i);
  }
}
