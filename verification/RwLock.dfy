/** bthread_rwlock_t, untimed and try operations: any number of threads, one
    atomic access per step.  The semaphores and the writers' mutex are taken as
    the counters and the lock that they implement. */
module RwLock {
  import opened Basics
  import opened Counting

  const MAX_READERS: int := 0x4000_0000

  datatype Pc =
    | Idle
    // readers
    | RdStart                   // before fetch_add(1) on reader_count
    | RdWait                    // in bthread_sem_timedwait(reader_sema)
    | TryRdLoad
    | TryRdCas(seen: int)
    | Reading
    | RdUnlock                  // in rwlock_unlock, before reading wlock_flag
    | RdLeave                   // before fetch_add(-1) on reader_count
    | RdDepart                  // a writer is pending: before fetch_add(-1) on reader_wait
    | RdPost                    // last reader: before posting writer_sema
    // writers
    | WrStart                   // waiting for write_queue_mutex
    | TryWrStart                // before trylock of write_queue_mutex
    | TryWrCas
    | WrAnnounce                // before fetch_add(-MAX_READERS) on reader_count
    | WrAddWait(readers: int)   // before adding the readers it saw to reader_wait
    | WrWaitSema
    | WrSetFlag
    | Writing
    | WrUnlock                  // in rwlock_unlock, before reading wlock_flag
    | WrClear
    | WrRestore                 // before fetch_add(+MAX_READERS) on reader_count
    | WrPost(readers: int)
    | WrRelease
    // CHECK branches
    | BadCount | BadUnrdlock | BadUnwrlock

  /** The lock's fields beside write_queue_mutex. */
  datatype Lock = Lock(
    readerCount: int,
    readerWait: int,
    wlockFlag: bool,
    readerSema: nat,
    writerSema: nat)

  datatype State = State(lock: Lock, mutex: Option<nat>, threads: map<nat, Pc>)

  const Init := State(Lock(0, 0, false, 0, 0), None, map[])

  datatype Action =
    | RdLock(a: nat)
    | TryRdLock(a: nat)
    | WrLock(a: nat)
    | TryWrLock(a: nat)
    | Unlock(a: nat)
    | SpuriousFailure(a: nat)   // compare_exchange_weak
    | Step(a: nat)

  function PcOf(s: State, a: nat): Pc {
    if a in s.threads then s.threads[a] else Idle
  }

  predicate Enabled(s: State, act: Action) {
    var pc := PcOf(s, act.a);
    match act
    case Unlock(_) => pc.Reading? || pc.Writing?
    case SpuriousFailure(_) => pc.TryRdCas?
    case Step(_) => CanStep(s.lock, s.mutex == None, pc)
    case _ => pc.Idle?
  }

  /** Blocking calls wait; a thread that holds the lock acts by Unlock. */
  predicate CanStep(l: Lock, free: bool, pc: Pc) {
    match pc
    case Idle => false
    case Reading => false
    case Writing => false
    case BadCount => false
    case BadUnrdlock => false
    case BadUnwrlock => false
    case RdWait => l.readerSema > 0
    case WrStart => free
    case WrWaitSema => l.writerSema > 0
    case _ => true
  }

  datatype MutexOp = Keep | Take | Drop

  datatype Effect = Effect(lock: Lock, pc: Pc, op: MutexOp)

  function Next(s: State, act: Action): State
    requires Enabled(s, act)
  {
    var pc := PcOf(s, act.a);
    match act
    case RdLock(a) => s.(threads := s.threads[a := RdStart])
    case TryRdLock(a) => s.(threads := s.threads[a := TryRdLoad])
    case WrLock(a) => s.(threads := s.threads[a := WrStart])
    case TryWrLock(a) => s.(threads := s.threads[a := TryWrStart])
    case Unlock(a) => s.(threads := s.threads[a := if pc.Reading? then RdUnlock else WrUnlock])
    case SpuriousFailure(a) => s.(threads := s.threads[a := TryRdLoad])
    case Step(a) => Apply(s, a, Act(s.lock, s.mutex == None, pc))
  }

  function Apply(s: State, a: nat, e: Effect): State {
    State(e.lock,
          match e.op { case Keep => s.mutex case Take => Some(a) case Drop => None },
          s.threads[a := e.pc])
  }

  /** One atomic access by a thread at pc. */
  function Act(l: Lock, free: bool, pc: Pc): Effect
    requires CanStep(l, free, pc)
  {
    match pc
    case RdStart =>
      var n := l.readerCount + 1;
      Effect(l.(readerCount := n), if n < 0 then RdWait else if n < MAX_READERS then Reading else BadCount, Keep)
    case RdWait => Effect(l.(readerSema := l.readerSema - 1), Reading, Keep)
    case TryRdLoad => Effect(l, if l.readerCount < 0 then Idle else TryRdCas(l.readerCount), Keep)
    case TryRdCas(seen) =>
      if l.readerCount == seen then Effect(l.(readerCount := seen + 1), Reading, Keep)
      else Effect(l, TryRdLoad, Keep)
    case RdUnlock => Effect(l, if l.wlockFlag then WrClear else RdLeave, Keep)
    case RdLeave =>
      var n := l.readerCount - 1;
      Effect(l.(readerCount := n),
             if n >= 0 then Idle
             else if n + 1 == 0 || n + 1 == -MAX_READERS then BadUnrdlock else RdDepart, Keep)
    case RdDepart =>
      var n := l.readerWait - 1;
      Effect(l.(readerWait := n), if n != 0 then Idle else RdPost, Keep)
    case RdPost => Effect(l.(writerSema := l.writerSema + 1), Idle, Keep)
    case WrStart => Effect(l, WrAnnounce, Take)
    case TryWrStart => if free then Effect(l, TryWrCas, Take) else Effect(l, Idle, Keep)
    case TryWrCas =>
      if l.readerCount == 0 then Effect(l.(readerCount := -MAX_READERS), WrSetFlag, Keep)
      else Effect(l, WrRelease, Keep)
    case WrAnnounce =>
      var n := l.readerCount;
      Effect(l.(readerCount := n - MAX_READERS), if n != 0 then WrAddWait(n) else WrSetFlag, Keep)
    case WrAddWait(n) =>
      Effect(l.(readerWait := l.readerWait + n), if l.readerWait + n != 0 then WrWaitSema else WrSetFlag, Keep)
    case WrWaitSema => Effect(l.(writerSema := l.writerSema - 1), WrSetFlag, Keep)
    case WrSetFlag => Effect(l.(wlockFlag := true), Writing, Keep)
    case WrUnlock => Effect(l, if l.wlockFlag then WrClear else RdLeave, Keep)
    case WrClear => Effect(l.(wlockFlag := false), WrRestore, Keep)
    case WrRestore =>
      var n := l.readerCount + MAX_READERS;
      Effect(l.(readerCount := n), if n >= MAX_READERS then BadUnwrlock else WrPost(n), Keep)
    case WrPost(n) => Effect(l.(readerSema := l.readerSema + if n > 0 then n else 0), WrRelease, Keep)
    case WrRelease => Effect(l, Idle, Drop)
  }

  // ---- Invariant ----------------------------------------------------------------

  /** Readers that are counted in reader_count and hold the lock. */
  predicate Active(pc: Pc) {
    pc.Reading? || pc.RdUnlock? || pc.RdLeave?
  }

  predicate Waiting(pc: Pc) {
    pc.RdWait?
  }

  predicate Departing(pc: Pc) {
    pc.RdDepart?
  }

  predicate Posting(pc: Pc) {
    pc.RdPost?
  }

  /** Between taking and releasing write_queue_mutex. */
  predicate OwnsMutex(pc: Pc) {
    pc.WrAnnounce? || pc.TryWrCas? || Announced(pc) || pc.WrPost? || pc.WrRelease?
  }

  /** reader_count carries the offset -MAX_READERS. */
  predicate Announced(w: Pc) {
    w.WrAddWait? || w.WrWaitSema? || Inside(w)
  }

  /** The writer has passed all readers. */
  predicate Inside(w: Pc) {
    w.WrSetFlag? || w.Writing? || w.WrUnlock? || w.WrClear? || w.WrRestore?
  }

  function TokensToCome(w: Pc): int {
    if w.WrPost? then w.readers else 0
  }

  /** Numbers of threads by kind. */
  datatype Tally = Tally(active: nat, waiting: nat, departing: nat, posting: nat)

  /** Readers that hold the lock or have a semaphore token waiting for them.
      A token may be taken by a later reader than the one it was posted for;
      the sum does not notice. */
  function Granted(l: Lock, n: Tally): nat {
    n.active + l.readerSema
  }

  /** What the writer w, the owner of write_queue_mutex or Idle, may rely on.
      Before it has added the readers it saw, departing readers drive
      reader_wait below zero; afterwards it is the number still to depart, and
      reaching zero stands for exactly one token or one reader about to post. */
  predicate Gate(l: Lock, n: Tally, w: Pc) {
    if w.WrAddWait? then
      && l.readerWait <= 0 < w.readers
      && l.readerWait + w.readers == Granted(l, n) + n.departing
      && n.posting == 0 && l.writerSema == 0
    else if w.WrWaitSema? then
      && l.readerWait == Granted(l, n) + n.departing
      && n.posting + l.writerSema == Bit(l.readerWait == 0)
    else
      && l.readerWait == 0 && n.departing == 0 && n.posting == 0 && l.writerSema == 0
      && if Inside(w) then Granted(l, n) == 0
         else TokensToCome(w) >= 0 && n.waiting == l.readerSema + TokensToCome(w)
  }

  predicate Ledger(l: Lock, n: Tally, w: Pc) {
    && l.readerCount == n.active + n.waiting - (if Announced(w) then MAX_READERS else 0)
    && l.wlockFlag == (w.Writing? || w.WrUnlock? || w.WrClear?)
    && n.waiting >= l.readerSema
    && Gate(l, n, w)
  }

  predicate PcOk(mutex: Option<nat>, a: nat, pc: Pc) {
    && !pc.BadCount? && !pc.BadUnrdlock? && !pc.BadUnwrlock?
    && (OwnsMutex(pc) <==> mutex == Some(a))
    && (pc.TryRdCas? ==> pc.seen >= 0)
  }

  ghost function TallyOf(m: map<nat, Pc>): Tally {
    Tally(Count(m, Active), Count(m, Waiting), Count(m, Departing), Count(m, Posting))
  }

  /** The phase of the thread that owns write_queue_mutex. */
  function Writer(s: State): Pc {
    if s.mutex.Some? then PcOf(s, s.mutex.value) else Idle
  }

  ghost predicate PcsOk(s: State) {
    && (s.mutex.Some? ==> s.mutex.value in s.threads)
    && (forall a :: a in s.threads ==> PcOk(s.mutex, a, s.threads[a]))
  }

  ghost predicate Inv(s: State) {
    PcsOk(s) && Ledger(s.lock, TallyOf(s.threads), Writer(s))
  }

  /** Fewer than 2^30 readers are registered. */
  predicate Fits(n: Tally) {
    n.active + n.waiting + 1 < MAX_READERS
  }

  // ---- Every step keeps the invariant ----------------------------------------------

  predicate Tallied(n: Tally, pc: Pc) {
    && (Active(pc) ==> n.active > 0) && (Waiting(pc) ==> n.waiting > 0)
    && (Departing(pc) ==> n.departing > 0) && (Posting(pc) ==> n.posting > 0)
  }

  function Move(n: Tally, was: Pc, pc: Pc): Tally
    requires Tallied(n, was)
  {
    Tally(n.active + Bit(Active(pc)) - Bit(Active(was)),
          n.waiting + Bit(Waiting(pc)) - Bit(Waiting(was)),
          n.departing + Bit(Departing(pc)) - Bit(Departing(was)),
          n.posting + Bit(Posting(pc)) - Bit(Posting(was)))
  }

  lemma TallyMoves(s: State, a: nat, pc: Pc)
    ensures Tallied(TallyOf(s.threads), PcOf(s, a))
    ensures TallyOf(s.threads[a := pc]) == Move(TallyOf(s.threads), PcOf(s, a), pc)
  {
    hide Counting.Count;
    CountMoves(s.threads, a, pc, Active);
    CountMoves(s.threads, a, pc, Waiting);
    CountMoves(s.threads, a, pc, Departing);
    CountMoves(s.threads, a, pc, Posting);
  }

  /** pc needs no more than PcOk of a thread. */
  predicate Sound(pc: Pc) {
    !pc.BadCount? && !pc.BadUnrdlock? && !pc.BadUnwrlock? && (pc.TryRdCas? ==> pc.seen >= 0)
  }

  /** Accesses by threads that do not own the mutex keep the ledger. */
  lemma EnteringKeepsLedger(l: Lock, n: Tally, w: Pc, pc: Pc)
    requires Ledger(l, n, w) && Fits(n) && Tallied(n, pc) && Sound(pc) && CanStep(l, w.Idle?, pc)
    requires pc.RdStart? || pc.RdWait? || pc.TryRdLoad? || pc.TryRdCas?
    ensures var e := Act(l, w.Idle?, pc);
      && e.op.Keep? && !OwnsMutex(e.pc) && Sound(e.pc)
      && Ledger(e.lock, Move(n, pc, e.pc), w)
  {
  }

  lemma LeavingKeepsLedger(l: Lock, n: Tally, w: Pc, pc: Pc)
    requires Ledger(l, n, w) && Fits(n) && Tallied(n, pc)
    requires pc.RdUnlock? || pc.RdLeave? || pc.RdDepart? || pc.RdPost?
    ensures var e := Act(l, w.Idle?, pc);
      && e.op.Keep? && !OwnsMutex(e.pc) && Sound(e.pc)
      && Ledger(e.lock, Move(n, pc, e.pc), w)
  {
  }

  lemma StartingKeepsLedger(l: Lock, n: Tally, w: Pc, pc: Pc)
    requires Ledger(l, n, w) && CanStep(l, w.Idle?, pc) && (pc.WrStart? || pc.TryWrStart?)
    ensures var e := Act(l, w.Idle?, pc);
      && !e.op.Drop? && (e.op.Take? ==> w.Idle?) && (OwnsMutex(e.pc) <==> e.op.Take?) && Sound(e.pc)
      && Ledger(e.lock, Move(n, pc, e.pc), if e.op.Take? then e.pc else w)
  {
  }

  /** Accesses by the mutex owner keep it too. */
  lemma WriterKeepsLedger(l: Lock, n: Tally, w: Pc)
    requires Ledger(l, n, w) && Fits(n) && CanStep(l, false, w) && OwnsMutex(w)
    ensures var e := Act(l, false, w);
      && !e.op.Take? && (OwnsMutex(e.pc) <==> e.op.Keep?) && Sound(e.pc)
      && Ledger(e.lock, Move(n, w, e.pc), if e.op.Drop? then Idle else e.pc)
  {
  }

  predicate MutexOk(mutex: Option<nat>, a: nat, e: Effect) {
    && (e.op.Take? ==> mutex == None)
    && (e.op.Drop? ==> mutex == Some(a))
    && (OwnsMutex(e.pc) <==> e.op.Take? || (e.op.Keep? && mutex == Some(a)))
  }

  lemma ApplyKeepsPcs(s: State, a: nat, e: Effect)
    requires PcsOk(s) && Sound(e.pc) && MutexOk(s.mutex, a, e)
    ensures PcsOk(Apply(s, a, e))
  {
    var t := Apply(s, a, e);
    forall b | b in t.threads ensures PcOk(t.mutex, b, t.threads[b]) {
      assert b != a ==> PcOk(s.mutex, b, s.threads[b]);
    }
  }

  function WriterAfter(s: State, a: nat, e: Effect): Pc {
    if e.op.Take? then e.pc else if e.op.Drop? then Idle
    else if s.mutex == Some(a) then e.pc else Writer(s)
  }

  lemma ApplyKeepsInv(s: State, a: nat, e: Effect)
    requires PcsOk(s) && Sound(e.pc) && MutexOk(s.mutex, a, e)
    requires Tallied(TallyOf(s.threads), PcOf(s, a))
    requires Ledger(e.lock, Move(TallyOf(s.threads), PcOf(s, a), e.pc), WriterAfter(s, a, e))
    ensures Inv(Apply(s, a, e))
  {
    hide TallyOf;
    ApplyKeepsPcs(s, a, e);
    TallyMoves(s, a, e.pc);
    assert Writer(Apply(s, a, e)) == WriterAfter(s, a, e);
  }

  lemma OwnerIsWriter(s: State, a: nat)
    requires PcsOk(s)
    ensures OwnsMutex(PcOf(s, a)) <==> s.mutex == Some(a)
    ensures s.mutex == Some(a) ==> Writer(s) == PcOf(s, a)
    ensures s.mutex == None <==> Writer(s).Idle?
    ensures Sound(PcOf(s, a))
  {
    if a in s.threads { assert PcOk(s.mutex, a, s.threads[a]); }
    if s.mutex.Some? { assert PcOk(s.mutex, s.mutex.value, s.threads[s.mutex.value]); }
  }

  lemma StepKeepsInv(s: State, a: nat)
    requires Inv(s) && Fits(TallyOf(s.threads)) && Enabled(s, Step(a))
    ensures Inv(Next(s, Step(a)))
  {
    hide TallyOf;
    var pc, w, n := PcOf(s, a), Writer(s), TallyOf(s.threads);
    OwnerIsWriter(s, a);
    TallyMoves(s, a, Idle);
    if OwnsMutex(pc) { WriterKeepsLedger(s.lock, n, w); }
    else if pc.WrStart? || pc.TryWrStart? { StartingKeepsLedger(s.lock, n, w, pc); }
    else if pc.RdStart? || pc.RdWait? || pc.TryRdLoad? || pc.TryRdCas? { EnteringKeepsLedger(s.lock, n, w, pc); }
    else { LeavingKeepsLedger(s.lock, n, w, pc); }
    ApplyKeepsInv(s, a, Act(s.lock, s.mutex == None, pc));
  }

  /** The first program counter of a call. */
  function Begin(act: Action, pc: Pc): Pc {
    match act
    case RdLock(_) => RdStart
    case WrLock(_) => WrStart
    case TryWrLock(_) => TryWrStart
    case Unlock(_) => if pc.Reading? then RdUnlock else WrUnlock
    case _ => TryRdLoad
  }

  lemma CallKeepsInv(s: State, act: Action)
    requires Inv(s) && Enabled(s, act) && !act.Step?
    ensures Inv(Next(s, act))
  {
    hide TallyOf;
    var a, pc := act.a, PcOf(s, act.a);
    OwnerIsWriter(s, a);
    TallyMoves(s, a, Idle);
    assert Next(s, act) == Apply(s, a, Effect(s.lock, Begin(act, pc), Keep));
    ApplyKeepsInv(s, a, Effect(s.lock, Begin(act, pc), Keep));
  }

  lemma NextKeepsInv(s: State, act: Action)
    requires Inv(s) && Fits(TallyOf(s.threads)) && Enabled(s, act)
    ensures Inv(Next(s, act))
  {
    if act.Step? { StepKeepsInv(s, act.a); } else { CallKeepsInv(s, act); }
  }

  // ---- Whole runs -------------------------------------------------------------------

  ghost predicate StepAt(run: seq<State>, acts: seq<Action>, i: nat)
    requires |run| == |acts| + 1 && i < |acts|
  {
    Fits(TallyOf(run[i].threads)) && Enabled(run[i], acts[i]) && run[i + 1] == Next(run[i], acts[i])
  }

  ghost predicate IsRun(run: seq<State>, acts: seq<Action>) {
    && |run| == |acts| + 1
    && run[0] == Init
    && forall i: nat :: i < |acts| ==> StepAt(run, acts, i)
  }

  lemma {:induction false} RunKeepsInv(run: seq<State>, acts: seq<Action>, i: nat)
    requires IsRun(run, acts) && i < |run|
    ensures Inv(run[i])
  {
    if i == 0 {
      CountZero(Init.threads, Active);
      CountZero(Init.threads, Waiting);
      CountZero(Init.threads, Departing);
      CountZero(Init.threads, Posting);
    } else {
      RunKeepsInv(run, acts, i - 1);
      assert StepAt(run, acts, i - 1);
      NextKeepsInv(run[i - 1], acts[i - 1]);
    }
  }

  /** The caller has been told that it holds the lock, or is about to be. */
  predicate HoldsWrite(pc: Pc) {
    Inside(pc) && !pc.WrRestore?
  }

  /** A writer never coexists with a reader or with another writer. */
  lemma Exclusion(run: seq<State>, acts: seq<Action>, i: nat, a: nat, b: nat)
    requires IsRun(run, acts) && i < |run| && a != b
    requires HoldsWrite(PcOf(run[i], a))
    ensures !Active(PcOf(run[i], b)) && !HoldsWrite(PcOf(run[i], b))
  {
    var s := run[i];
    RunKeepsInv(run, acts, i);
    assert PcOk(s.mutex, a, s.threads[a]);
    CountZero(s.threads, Active);
    if b in s.threads { assert PcOk(s.mutex, b, s.threads[b]); }
  }

  /** rwlock_unlock takes the branch of the kind of lock its caller holds. */
  lemma UnlockPicksTheRightBranch(run: seq<State>, acts: seq<Action>, i: nat, a: nat)
    requires IsRun(run, acts) && i < |run|
    ensures PcOf(run[i], a).RdUnlock? ==> !run[i].lock.wlockFlag
    ensures PcOf(run[i], a).WrUnlock? ==> run[i].lock.wlockFlag
  {
    var s := run[i];
    RunKeepsInv(run, acts, i);
    if a in s.threads { assert PcOk(s.mutex, a, s.threads[a]); }
    CountZero(s.threads, Active);
  }

  /** No CHECK of the lock fails in any run. */
  lemma ChecksNeverFail(run: seq<State>, acts: seq<Action>, i: nat, a: nat)
    requires IsRun(run, acts) && i < |run|
    ensures var pc := PcOf(run[i], a); !pc.BadCount? && !pc.BadUnrdlock? && !pc.BadUnwrlock?
  {
    RunKeepsInv(run, acts, i);
    if a in run[i].threads { assert PcOk(run[i].mutex, a, run[i].threads[a]); }
  }

  /** Each announced writer gets at most one token, and only once every reader
      that was granted the lock before it has departed. */
  lemma AtMostOneToken(run: seq<State>, acts: seq<Action>, i: nat)
    requires IsRun(run, acts) && i < |run|
    ensures run[i].lock.writerSema + TallyOf(run[i].threads).posting <= 1
    ensures run[i].lock.writerSema + TallyOf(run[i].threads).posting == 1 ==>
      && Writer(run[i]).WrWaitSema?
      && Granted(run[i].lock, TallyOf(run[i].threads)) == 0
      && TallyOf(run[i].threads).departing == 0
  {
    RunKeepsInv(run, acts, i);
  }

  predicate Runnable(s: State, a: nat) {
    a in s.threads && CanStep(s.lock, s.mutex == None, s.threads[a])
  }

  /** While a writer waits for the readers before it, one of those readers is
      still there to move, unless it is inside its critical section. */
  lemma WaitingWriterIsServed(s: State) returns (a: nat)
    requires Inv(s) && Writer(s).WrWaitSema?
    ensures Runnable(s, a) || (a in s.threads && s.threads[a].Reading?)
  {
    var n := TallyOf(s.threads);
    if s.lock.writerSema > 0 { a := s.mutex.value; }
    else if n.posting > 0 { a := Witness(s.threads, Posting); }
    else if n.departing > 0 { a := Witness(s.threads, Departing); }
    else if n.active > 0 { a := Witness(s.threads, Active); }
    else { a := Witness(s.threads, Waiting); }
  }

  /** No wakeup is lost: if nobody can move, then nobody waits for the lock or
      somebody is inside its critical section. */
  lemma NoDeadlock(run: seq<State>, acts: seq<Action>, i: nat, b: nat)
    requires IsRun(run, acts) && i < |run|
    requires b in run[i].threads && run[i].threads[b] != Idle
    ensures exists a :: a in run[i].threads &&
                        (Runnable(run[i], a) || run[i].threads[a].Reading? || run[i].threads[a].Writing?)
  {
    hide TallyOf;
    var s := run[i];
    RunKeepsInv(run, acts, i);
    var a := b;
    OwnerIsWriter(s, b);
    TallyMoves(s, b, Idle);
    if !Runnable(s, a) {
      if Writer(s).WrWaitSema? {
        a := WaitingWriterIsServed(s);
      } else if s.mutex.Some? {
        a := s.mutex.value;
        assert PcOk(s.mutex, a, s.threads[a]);
      }
    }
    assert a in s.threads && (Runnable(s, a) || s.threads[a].Reading? || s.threads[a].Writing?);
  }

  // ---- How the calls return -----------------------------------------------------------

  predicate HasAnnounced(s: State, b: nat) {
    Announced(PcOf(s, b))
  }

  /** A writer has announced itself and has not given the lock back. */
  ghost predicate WriterPending(s: State) {
    exists b :: HasAnnounced(s, b)
  }

  predicate Registered(s: State, b: nat) {
    Active(PcOf(s, b)) || Waiting(PcOf(s, b))
  }

  /** Some reader holds the lock or waits for it. */
  ghost predicate ReaderPresent(s: State) {
    exists b :: Registered(s, b)
  }

  predicate OwnsQueue(s: State, b: nat) {
    OwnsMutex(PcOf(s, b))
  }

  lemma WriterIsPending(s: State)
    requires PcsOk(s)
    ensures Announced(Writer(s)) <==> WriterPending(s)
  {
    if Announced(Writer(s)) { assert HasAnnounced(s, s.mutex.value); }
    if b :| HasAnnounced(s, b) {
      assert PcOk(s.mutex, b, s.threads[b]);
      assert Writer(s) == PcOf(s, b);
    }
  }

  lemma CountIsNegativeForAWriter(s: State)
    requires Inv(s) && Fits(TallyOf(s.threads))
    ensures s.lock.readerCount < 0 <==> WriterPending(s)
  {
    hide PcsOk, WriterPending, TallyOf, Announced, Gate, Writer;
    WriterIsPending(s);
  }

  lemma CountIsZeroWithoutReaders(s: State)
    requires Inv(s) && !Announced(Writer(s))
    ensures s.lock.readerCount == 0 <==> !ReaderPresent(s)
  {
    if s.lock.readerCount != 0 {
      var b: nat;
      if TallyOf(s.threads).active > 0 { b := Witness(s.threads, Active); } else { b := Witness(s.threads, Waiting); }
      assert Registered(s, b);
    }
    if b :| Registered(s, b) {
      CountMoves(s.threads, b, Idle, Active);
      CountMoves(s.threads, b, Idle, Waiting);
    }
  }

  /** rdlock gets the lock at once exactly when no writer is pending, and comes
      back only with it. */
  lemma ReadLockReturnsReading(run: seq<State>, acts: seq<Action>, i: nat, a: nat)
    requires IsRun(run, acts) && i < |acts| && acts[i] == Step(a) && (PcOf(run[i], a).RdStart? || PcOf(run[i], a).RdWait?)
    ensures PcOf(run[i + 1], a).Reading? || PcOf(run[i + 1], a).RdWait?
    ensures PcOf(run[i], a).RdStart? ==> (PcOf(run[i + 1], a).Reading? <==> !WriterPending(run[i]))
    ensures PcOf(run[i], a).RdWait? ==> PcOf(run[i + 1], a).Reading?
  {
    RunKeepsInv(run, acts, i);
    assert StepAt(run, acts, i);
    CountIsNegativeForAWriter(run[i]);
  }

  /** tryrdlock refuses exactly while a writer is pending, and otherwise reads
      as soon as its compare-exchange finds the count it loaded. */
  lemma TryReadRefusesOnlyForAWriter(run: seq<State>, acts: seq<Action>, i: nat, a: nat)
    requires IsRun(run, acts) && i < |acts| && acts[i] == Step(a) && (PcOf(run[i], a).TryRdLoad? || PcOf(run[i], a).TryRdCas?)
    ensures PcOf(run[i + 1], a).Idle? <==> PcOf(run[i], a).TryRdLoad? && WriterPending(run[i])
    ensures PcOf(run[i + 1], a).Reading? <==> PcOf(run[i], a) == TryRdCas(run[i].lock.readerCount)
    ensures PcOf(run[i], a).TryRdLoad? && !WriterPending(run[i]) ==> PcOf(run[i + 1], a) == TryRdCas(run[i].lock.readerCount)
  {
    RunKeepsInv(run, acts, i);
    assert StepAt(run, acts, i);
    CountIsNegativeForAWriter(run[i]);
  }

  /** trywrlock refuses exactly when another thread is between taking and giving
      back the writers' mutex, or a reader has the lock or waits for it. */
  lemma TryWriteRefusesOnlyForOthers(run: seq<State>, acts: seq<Action>, i: nat, a: nat)
    requires IsRun(run, acts) && i < |acts| && acts[i] == Step(a) && (PcOf(run[i], a).TryWrStart? || PcOf(run[i], a).TryWrCas?)
    ensures PcOf(run[i], a).TryWrStart? ==>
      PcOf(run[i + 1], a) == if exists b :: OwnsQueue(run[i], b) then Idle else TryWrCas
    ensures PcOf(run[i], a).TryWrCas? ==>
      PcOf(run[i + 1], a) == if ReaderPresent(run[i]) then WrRelease else WrSetFlag
  {
    var s := run[i];
    RunKeepsInv(run, acts, i);
    assert StepAt(run, acts, i);
    if s.threads[a].TryWrCas? {
      assert PcOk(s.mutex, a, s.threads[a]) && Writer(s) == TryWrCas;
      CountIsZeroWithoutReaders(s);
    } else {
      MutexHasAnOwner(s);
    }
  }

  lemma MutexHasAnOwner(s: State)
    requires PcsOk(s)
    ensures s.mutex.Some? <==> exists b :: OwnsQueue(s, b)
  {
    if s.mutex.Some? {
      assert PcOk(s.mutex, s.mutex.value, s.threads[s.mutex.value]);
      assert OwnsQueue(s, s.mutex.value);
    }
    if b :| OwnsQueue(s, b) { assert PcOk(s.mutex, b, s.threads[b]); }
  }

  predicate WriteLocks(pc: Pc) {
    pc.WrStart? || pc.WrAnnounce? || pc.WrAddWait? || pc.WrWaitSema? || pc.WrSetFlag?
  }

  predicate Unlocks(pc: Pc) {
    || pc.RdUnlock? || pc.RdLeave? || pc.RdDepart? || pc.RdPost?
    || pc.WrUnlock? || pc.WrClear? || pc.WrRestore? || pc.WrPost? || pc.WrRelease?
  }

  /** wrlock comes back only with the lock; unlock comes back, and without it. */
  lemma WriteLockAndUnlockReturn(run: seq<State>, acts: seq<Action>, i: nat, a: nat)
    requires IsRun(run, acts) && i < |acts| && acts[i].a == a
    ensures WriteLocks(PcOf(run[i], a)) ==> WriteLocks(PcOf(run[i + 1], a)) || PcOf(run[i + 1], a).Writing?
    ensures Unlocks(PcOf(run[i], a)) ==> Unlocks(PcOf(run[i + 1], a)) || PcOf(run[i + 1], a).Idle?
    ensures acts[i].WrLock? ==> WriteLocks(PcOf(run[i + 1], a))
    ensures acts[i].Unlock? ==> Unlocks(PcOf(run[i + 1], a))
  {
    ChecksNeverFail(run, acts, i + 1, a);
    assert StepAt(run, acts, i);
  }
}
