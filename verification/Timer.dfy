/** The timer thread: buckets, the nearest-time and signal protocol that lets
    it sleep, and the version word that decides between running a task and
    unscheduling it. */
module Timer {

  import opened Basics

  /** A time in microseconds; None is the largest one, "never". */
  type Time = Option<nat>

  predicate Le(x: Time, y: Time) {
    y.None? || (x.Some? && x.value <= y.value)
  }

  predicate Lt(x: Time, y: Time) {
    !Le(y, x)
  }

  /** Where a task is: in the pool, in a bucket, in the list just pulled from a
      bucket, in the timer thread's heap, or in its hands. */
  datatype Home = Free | Bucket(b: nat) | Batch | Heap | Picked | Running | Done

  /** id is the version the task was scheduled with. */
  datatype Task = Task(version: nat, id: nat, runTime: nat, home: Home)

  datatype Id = Id(slot: nat, version: nat)

  datatype TimerPc =
    | Clear
    | Pull(b: nat)
    | Delete(b: nat)
    | Loop
    | Check(slot: nat)
    | Run(slot: nat)
    | Call(slot: nat)
    | Return(slot: nat)
    | Commit(next: Time)
    | Wait(next: Time, expected: nat)
    | Asleep(next: Time, expected: nat)
    | BadCheck

  /** A caller of schedule after its bucket insert, and before futex_wake. */
  datatype SchedPc = Quiet | Update(b: nat, runTime: nat) | Wake

  /** What callers were told and what happened, for the theorems. */
  datatype Log = Log(issued: map<Id, nat>, ran: map<Id, nat>, cancelled: set<Id>, returned: map<Id, nat>)

  datatype State = State(
    clock: nat, tasks: map<nat, Task>, nearest: seq<Time>, global: Time, signals: nat,
    timer: TimerPc, scheds: map<nat, SchedPc>, log: Log)

  datatype Action =
    | Tick
    | Schedule(a: nat, b: nat, slot: nat, runTime: nat)
    | SchedStep(a: nat)
    | Unschedule(id: Id)
    // slot: the task the timer thread looks at
    | TimerStep(slot: nat)
    // the futex returns: timeout, signal or spurious
    | Awake

  function Times(m: map<Id, nat>, id: Id): nat {
    if id in m then m[id] else 0
  }

  function Bump(m: map<Id, nat>, id: Id): map<Id, nat> {
    m[id := Times(m, id) + 1]
  }

  function SchedOf(s: State, a: nat): SchedPc {
    if a in s.scheds then s.scheds[a] else Quiet
  }

  /** A slot fresh from the pool has version 2. */
  function TaskAt(s: State, slot: nat): Task {
    if slot in s.tasks then s.tasks[slot] else Task(2, 0, 0, Free)
  }

  ghost predicate IsTop(s: State, slot: nat) {
    && TaskAt(s, slot).home == Heap
    && forall x :: TaskAt(s, x).home == Heap ==> TaskAt(s, slot).runTime <= TaskAt(s, x).runTime
  }

  ghost predicate NoneAt(s: State, home: Home) {
    forall x :: TaskAt(s, x).home != home
  }

  ghost predicate Enabled(s: State, act: Action) {
    match act
    case Tick => true
    case Schedule(a, b, slot, _) => SchedOf(s, a).Quiet? && b < |s.nearest| && TaskAt(s, slot).home.Free?
    case SchedStep(a) => !SchedOf(s, a).Quiet?
    case Unschedule(id) => id in s.log.issued
    case TimerStep(slot) =>
      (match s.timer
       case Delete(_) => TaskAt(s, slot).home.Batch? || NoneAt(s, Batch)
       case Loop => IsTop(s, slot) || NoneAt(s, Heap)
       case Asleep(_, _) => false
       case BadCheck => false
       case _ => true)
    case Awake => s.timer.Asleep?
  }

  function SetTask(s: State, slot: nat, t: Task): State {
    s.(tasks := s.tasks[slot := t])
  }

  ghost function Next(s: State, act: Action): State
    requires Enabled(s, act)
  {
    match act
    case Tick => s.(clock := s.clock + 1)
    case Schedule(a, b, slot, runTime) => Insert(s, a, b, slot, runTime)
    case SchedStep(a) => SchedNext(s, a, SchedOf(s, a))
    case Unschedule(id) =>
      var t := TaskAt(s, id.slot);
      if t.version == id.version
      then SetTask(s, id.slot, t.(version := id.version + 2)).(log := s.log.(cancelled := s.log.cancelled + {id}))
      else s
    case TimerStep(slot) => TimerNext(s, slot)
    case Awake => s.(timer := Clear)
  }

  /** Bucket::schedule: the task goes into the bucket; an earlier one than all
      there makes its caller update the global time. */
  function Insert(s: State, a: nat, b: nat, slot: nat, runTime: nat): State
    requires b < |s.nearest|
  {
    var t := TaskAt(s, slot);
    var id := Id(slot, t.version);
    var earlier := Lt(Some(runTime), s.nearest[b]);
    s.(tasks := s.tasks[slot := Task(t.version, t.version, runTime, Bucket(b))],
       nearest := if earlier then s.nearest[b := Some(runTime)] else s.nearest,
       scheds := s.scheds[a := if earlier then Update(b, runTime) else Quiet],
       log := s.log.(issued := s.log.issued[id := runTime]))
  }

  function SchedNext(s: State, a: nat, pc: SchedPc): State {
    match pc
    case Quiet => s
    case Update(b, runTime) =>
      if Lt(Some(runTime), s.global)
      then s.(global := Some(runTime), signals := s.signals + 1, scheds := s.scheds[a := Wake])
      else s.(scheds := s.scheds[a := Quiet])
    case Wake => s.(scheds := s.scheds[a := Quiet], timer := if s.timer.Asleep? then Clear else s.timer)
  }

  /** consume_tasks takes the whole list of the bucket. */
  function Consume(s: State, b: nat): State
    requires b < |s.nearest|
  {
    s.(tasks := map x | x in s.tasks :: if s.tasks[x].home == Bucket(b) then s.tasks[x].(home := Batch) else s.tasks[x],
       nearest := s.nearest[b := None], timer := Delete(b))
  }

  function GiveBack(s: State, slot: nat, timer: TimerPc): State {
    var t := TaskAt(s, slot);
    SetTask(s, slot, t.(home := Free)).(timer := timer, log := s.log.(returned := Bump(s.log.returned, Id(slot, t.id))))
  }

  ghost function TimerNext(s: State, slot: nat): State
    requires Enabled(s, TimerStep(slot))
  {
    match s.timer
    case Clear => s.(global := None, timer := Pull(0))
    case Pull(b) =>
      if b >= |s.nearest| then s.(timer := Loop)
      else Consume(s, b)
    case Delete(b) =>
      var t := TaskAt(s, slot);
      if !t.home.Batch? then s.(timer := Pull(b + 1))
      else if t.version == t.id then SetTask(s, slot, t.(home := Heap))
      else if t.version == t.id + 2 then GiveBack(s, slot, Delete(b))
      else s.(timer := BadCheck)
    case Loop =>
      var t := TaskAt(s, slot);
      if !t.home.Heap? then s.(timer := Commit(None))
      else if s.clock < t.runTime then s.(timer := Commit(Some(t.runTime)))
      else s.(timer := Check(slot))
    case Check(top) =>
      if Lt(s.global, Some(TaskAt(s, top).runTime)) then s.(timer := Clear)
      else SetTask(s, top, TaskAt(s, top).(home := Picked)).(timer := Run(top))
    case Run(x) =>
      var t := TaskAt(s, x);
      if t.version == t.id
      then SetTask(s, x, t.(version := t.id + 1, home := Running)).(timer := Call(x), log := s.log.(ran := Bump(s.log.ran, Id(x, t.id))))
      else if t.version == t.id + 2 then SetTask(s, x, t.(home := Done)).(timer := Return(x))
      else s.(timer := BadCheck)
    case Call(x) =>
      var t := TaskAt(s, x);
      SetTask(s, x, t.(version := t.id + 2, home := Done)).(timer := Return(x))
    case Return(x) => GiveBack(s, x, Loop)
    case Commit(next) =>
      if Lt(s.global, next) then s.(timer := Clear)
      else s.(global := next, timer := Wait(next, s.signals))
    case Wait(next, expected) => s.(timer := if s.signals == expected then Asleep(next, expected) else Clear)
    case _ => s
  }

  // ---- The deadline invariant --------------------------------------------------------

  /** A bucket remembers a time no later than any task in it. */
  ghost predicate BucketsOk(s: State) {
    forall x :: TaskAt(s, x).home.Bucket? ==> InBucket(s.nearest, TaskAt(s, x).home.b, TaskAt(s, x).runTime)
  }

  predicate InBucket(nearest: seq<Time>, b: nat, runTime: nat) {
    b < |nearest| && Le(nearest[b], Some(runTime))
  }

  /** The timer thread will still look into bucket b before it sleeps. */
  predicate WillVisit(timer: TimerPc, b: nat) {
    (timer.Pull? && timer.b <= b) || (timer.Delete? && timer.b < b)
  }

  /** Its caller is between the bucket insert and the global update. */
  predicate Updates(s: State, a: nat, b: nat, runTime: nat) {
    SchedOf(s, a) == Update(b, runTime)
  }

  ghost predicate Announced(s: State, b: nat)
    requires b < |s.nearest|
  {
    s.nearest[b].Some? ==>
      || Le(s.global, s.nearest[b])
      || WillVisit(s.timer, b)
      || exists a :: Updates(s, a, b, s.nearest[b].value)
  }

  ghost predicate AnnouncedOk(s: State) {
    forall b :: 0 <= b < |s.nearest| ==> Announced(s, b)
  }

  predicate Signals(s: State, a: nat) {
    SchedOf(s, a).Wake?
  }

  /** A time below what the sleeper waits for came with a signal, and a signal
      the sleeper has not seen has a caller on its way to wake it. */
  ghost predicate SleepOk(s: State) {
    && (s.timer.Wait? || s.timer.Asleep? ==>
         && Le(s.global, s.timer.next) && s.timer.expected <= s.signals
         && (s.global != s.timer.next ==> s.timer.expected < s.signals))
    && (s.timer.Asleep? && s.signals != s.timer.expected ==> exists a :: Signals(s, a))
  }

  /** Nothing in the heap is due before the chosen time. */
  ghost predicate HeapOk(s: State) {
    s.timer.Commit? || s.timer.Wait? || s.timer.Asleep? ==>
      forall x :: TaskAt(s, x).home.Heap? ==> Le(s.timer.next, Some(TaskAt(s, x).runTime))
  }

  ghost predicate BatchOk(s: State) {
    forall x :: TaskAt(s, x).home.Batch? ==> s.timer.Delete?
  }

  ghost predicate DeadlineInv(s: State) {
    BucketsOk(s) && AnnouncedOk(s) && SleepOk(s) && HeapOk(s) && BatchOk(s)
  }

  lemma InsertKeepsDeadlines(s: State, a: nat, b: nat, slot: nat, runTime: nat)
    requires DeadlineInv(s) && Enabled(s, Schedule(a, b, slot, runTime))
    ensures DeadlineInv(Insert(s, a, b, slot, runTime))
  {
    var t := Insert(s, a, b, slot, runTime);
    forall c | 0 <= c < |t.nearest| ensures Announced(t, c) {
      assert Announced(s, c);
      if t.nearest[c] == s.nearest[c] {
        if s.nearest[c].Some? && exists d :: Updates(s, d, c, s.nearest[c].value) {
          var d :| Updates(s, d, c, s.nearest[c].value);
          assert Updates(t, d, c, t.nearest[c].value);
        }
      } else {
        assert Updates(t, a, c, t.nearest[c].value);
      }
    }
    assert forall x :: x != slot ==> TaskAt(t, x) == TaskAt(s, x);
    if t.timer.Asleep? && t.signals != t.timer.expected {
      var d :| Signals(s, d);
      assert Signals(t, d);
    }
  }

  lemma UpdateKeepsDeadlines(s: State, a: nat, b: nat, runTime: nat)
    requires DeadlineInv(s) && SchedOf(s, a) == Update(b, runTime)
    ensures DeadlineInv(SchedNext(s, a, Update(b, runTime)))
  {
    var t := SchedNext(s, a, Update(b, runTime));
    assert t.tasks == s.tasks && forall x :: TaskAt(t, x) == TaskAt(s, x);
    assert Le(t.global, Some(runTime)) && Le(t.global, s.global);
    forall c | 0 <= c < |t.nearest| ensures Announced(t, c) {
      assert Announced(s, c);
      if s.nearest[c].Some? && exists d :: Updates(s, d, c, s.nearest[c].value) {
        var d :| Updates(s, d, c, s.nearest[c].value);
        assert d != a ==> Updates(t, d, c, t.nearest[c].value);
      }
    }
    if t.timer.Asleep? && t.signals != t.timer.expected {
      if Lt(Some(runTime), s.global) {
        assert Signals(t, a);
      } else {
        var d :| Signals(s, d);
        assert Signals(t, d);
      }
    }
  }

  lemma WakeKeepsDeadlines(s: State, a: nat)
    requires DeadlineInv(s) && SchedOf(s, a) == Wake
    ensures DeadlineInv(SchedNext(s, a, Wake))
  {
    var t := SchedNext(s, a, Wake);
    assert t.tasks == s.tasks && forall x :: TaskAt(t, x) == TaskAt(s, x);
    forall c | 0 <= c < |t.nearest| ensures Announced(t, c) {
      assert Announced(s, c);
      if s.nearest[c].Some? && exists d :: Updates(s, d, c, s.nearest[c].value) {
        var d :| Updates(s, d, c, s.nearest[c].value);
        assert Updates(t, d, c, t.nearest[c].value);
      }
    }
  }

  /** The announcements do not depend on tasks, and survive an earlier time or
      a timer thread that still visits the same buckets. */
  lemma AnnouncedFrame(s: State, t: State)
    requires AnnouncedOk(s) && t.nearest == s.nearest && t.scheds == s.scheds
    requires forall b :: 0 <= b < |s.nearest| && s.nearest[b].Some? ==>
      (Le(s.global, s.nearest[b]) || WillVisit(s.timer, b) ==> Le(t.global, s.nearest[b]) || WillVisit(t.timer, b))
    ensures AnnouncedOk(t)
  {
    forall c | 0 <= c < |t.nearest| ensures Announced(t, c) {
      assert Announced(s, c);
      if s.nearest[c].Some? && exists d :: Updates(s, d, c, s.nearest[c].value) {
        var d :| Updates(s, d, c, s.nearest[c].value);
        assert Updates(t, d, c, t.nearest[c].value);
      }
    }
  }

  /** Timer steps that touch one task at most, outside the buckets. */
  lemma QuietKeepsDeadlines(s: State, t: State)
    requires DeadlineInv(s) && t.nearest == s.nearest && t.scheds == s.scheds && t.signals == s.signals
    requires forall x :: TaskAt(t, x) == TaskAt(s, x) || (!TaskAt(t, x).home.Bucket? && !TaskAt(t, x).home.Batch?)
    requires s.timer.Delete? ==> t.timer == s.timer || NoneAt(t, Batch)
    requires forall b :: 0 <= b < |s.nearest| && s.nearest[b].Some? ==>
      (Le(s.global, s.nearest[b]) || WillVisit(s.timer, b) ==> Le(t.global, s.nearest[b]) || WillVisit(t.timer, b))
    requires SleepOk(t) && HeapOk(t)
    ensures DeadlineInv(t)
  {
    hide SleepOk, HeapOk;
    AnnouncedFrame(s, t);
  }

  lemma ConsumeKeepsDeadlines(s: State, b: nat)
    requires DeadlineInv(s) && s.timer == Pull(b) && b < |s.nearest|
    ensures DeadlineInv(Consume(s, b))
  {
    var t := Consume(s, b);
    forall x ensures TaskAt(t, x) == if TaskAt(s, x).home == Bucket(b) then TaskAt(s, x).(home := Batch) else TaskAt(s, x) {
    }
    hide Consume;
    forall c | 0 <= c < |t.nearest| ensures Announced(t, c) {
      assert Announced(s, c);
      if c != b && s.nearest[c].Some? && exists d :: Updates(s, d, c, s.nearest[c].value) {
        var d :| Updates(s, d, c, s.nearest[c].value);
        assert Updates(t, d, c, t.nearest[c].value);
      }
    }
  }

  lemma PullKeepsDeadlines(s: State, slot: nat)
    requires DeadlineInv(s) && TasksOk(s) && Enabled(s, TimerStep(slot))
    requires s.timer.Clear? || s.timer.Delete? || s.timer.Pull?
    ensures DeadlineInv(TimerNext(s, slot))
  {
    if s.timer.Pull? && s.timer.b < |s.nearest| {
      ConsumeKeepsDeadlines(s, s.timer.b);
    } else {
      assert TaskOk(TaskAt(s, slot), s.timer, slot);
      QuietKeepsDeadlines(s, TimerNext(s, slot));
    }
  }

  lemma RunKeepsDeadlines(s: State, slot: nat)
    requires DeadlineInv(s) && Enabled(s, TimerStep(slot))
    requires s.timer.Check? || s.timer.Run? || s.timer.Call? || s.timer.Return?
    ensures DeadlineInv(TimerNext(s, slot))
  {
    QuietKeepsDeadlines(s, TimerNext(s, slot));
  }

  lemma SleepKeepsDeadlines(s: State, slot: nat)
    requires DeadlineInv(s) && Enabled(s, TimerStep(slot)) && (s.timer.Loop? || s.timer.Commit? || s.timer.Wait?)
    ensures DeadlineInv(TimerNext(s, slot))
  {
    QuietKeepsDeadlines(s, TimerNext(s, slot));
  }

  /** Every step keeps the deadline invariant. */
  lemma NextKeepsDeadlines(s: State, act: Action)
    requires DeadlineInv(s) && TasksOk(s) && Enabled(s, act)
    ensures DeadlineInv(Next(s, act))
  {
    match act
    case Tick => SameProtocol(s, Next(s, act));
    case Awake => QuietKeepsDeadlines(s, Next(s, act));
    case Unschedule(id) => SameProtocol(s, Next(s, act));
    case Schedule(a, b, slot, runTime) => InsertKeepsDeadlines(s, a, b, slot, runTime);
    case SchedStep(a) =>
      if SchedOf(s, a).Wake? { WakeKeepsDeadlines(s, a); }
      else { UpdateKeepsDeadlines(s, a, SchedOf(s, a).b, SchedOf(s, a).runTime); }
    case TimerStep(slot) =>
      hide DeadlineInv, TasksOk;
      match s.timer
      case Clear => PullKeepsDeadlines(s, slot);
      case Pull(_) => PullKeepsDeadlines(s, slot);
      case Delete(_) => PullKeepsDeadlines(s, slot);
      case Loop => SleepKeepsDeadlines(s, slot);
      case Commit(_) => SleepKeepsDeadlines(s, slot);
      case Wait(_, _) => SleepKeepsDeadlines(s, slot);
      case _ => RunKeepsDeadlines(s, slot);
  }

  /** Versions, the clock and the log play no part in the protocol. */
  lemma SameProtocol(s: State, t: State)
    requires DeadlineInv(s) && t.nearest == s.nearest && t.global == s.global && t.signals == s.signals
    requires t.timer == s.timer && t.scheds == s.scheds
    requires forall x :: TaskAt(t, x).home == TaskAt(s, x).home && TaskAt(t, x).runTime == TaskAt(s, x).runTime
    ensures DeadlineInv(t)
  {
    AnnouncedFrame(s, t);
    if t.timer.Asleep? && t.signals != t.timer.expected {
      var d :| Signals(s, d);
      assert Signals(t, d);
    }
  }

  // ---- The task invariant ------------------------------------------------------------

  /** The version says what has happened to the task since it was scheduled. */
  predicate TaskOk(t: Task, timer: TimerPc, slot: nat) {
    match t.home
    case Free => t.version == t.id + 2
    case Bucket(_) => t.version == t.id || t.version == t.id + 2
    case Batch => t.version == t.id || t.version == t.id + 2
    case Heap => t.version == t.id || t.version == t.id + 2
    case Picked => timer == Run(slot) && (t.version == t.id || t.version == t.id + 2)
    case Running => timer == Call(slot) && t.version == t.id + 1
    case Done => timer == Return(slot) && t.version == t.id + 2
  }

  ghost predicate TasksOk(s: State) {
    forall x :: TaskOk(TaskAt(s, x), s.timer, x)
  }

  /** What the timer thread holds is where it should be. */
  ghost predicate TimerOk(s: State) {
    match s.timer
    case Check(x) => TaskAt(s, x).home.Heap? && TaskAt(s, x).runTime <= s.clock
    case Run(x) => TaskAt(s, x).home.Picked? && TaskAt(s, x).runTime <= s.clock
    case Call(x) => TaskAt(s, x).home.Running?
    case Return(x) => TaskAt(s, x).home.Done?
    case BadCheck => false
    case _ => true
  }

  /** An id that was handed out, and the fate of its task: not decided while
      the version still equals the id, then either run once or cancelled. */
  predicate IdOk(s: State, id: Id)
    requires id in s.log.issued
  {
    var t, ran := TaskAt(s, id.slot), Times(s.log.ran, id);
    && id.version <= t.id
    && (id.version == t.id ==> s.log.issued[id] == t.runTime)
    && (id.version < t.id ==> id.version + 2 <= t.id)
    && (t.version == id.version ==> ran == 0 && id !in s.log.cancelled)
    && (t.version == id.version + 1 ==> ran == 1 && id !in s.log.cancelled)
    && (t.version >= id.version + 2 ==> ran == Bit(id !in s.log.cancelled))
    && (ran > 0 ==> s.log.issued[id] <= s.clock)
    && (ran > 0 && id.version == t.id ==> t.home.Running? || t.home.Done? || t.home.Free?)
    && Times(s.log.returned, id) == Bit(id.version < t.id || t.home.Free?)
  }

  ghost predicate IdsOk(s: State) {
    forall id :: id in s.log.issued ==> IdOk(s, id)
  }

  /** Only ids that were handed out appear in the log, and every task that is
      not in the pool has one. */
  ghost predicate LogOk(s: State) {
    && (forall id :: Times(s.log.ran, id) > 0 || id in s.log.cancelled || Times(s.log.returned, id) > 0 ==> id in s.log.issued)
    && (forall x :: !TaskAt(s, x).home.Free? ==> Id(x, TaskAt(s, x).id) in s.log.issued)
  }

  ghost predicate TaskInv(s: State) {
    TasksOk(s) && TimerOk(s) && IdsOk(s) && LogOk(s)
  }

  /** Nobody but x is in the timer thread's hands. */
  predicate HoldsOnly(timer: TimerPc, x: nat) {
    timer.Run? || timer.Call? || timer.Return? ==> timer.slot == x
  }

  /** Task x moves on in the timer thread, and only its current id is logged. */
  lemma OneTaskKeepsTasks(s: State, t: State, x: nat)
    requires TaskInv(s) && !TaskAt(s, x).home.Free? && HoldsOnly(s.timer, x)
    requires t.tasks == s.tasks[x := TaskAt(t, x)] && t.clock == s.clock
    requires t.log == s.log.(ran := t.log.ran, returned := t.log.returned)
    requires TaskAt(t, x).id == TaskAt(s, x).id && TaskAt(t, x).runTime == TaskAt(s, x).runTime
    requires forall id :: id != Id(x, TaskAt(s, x).id) ==>
      Times(t.log.ran, id) == Times(s.log.ran, id) && Times(t.log.returned, id) == Times(s.log.returned, id)
    requires TaskOk(TaskAt(t, x), t.timer, x) && TimerOk(t)
    requires Id(x, TaskAt(s, x).id) in s.log.issued ==> IdOk(t, Id(x, TaskAt(s, x).id))
    ensures TaskInv(t)
  {
    assert forall y :: y != x ==> TaskAt(t, y) == TaskAt(s, y);
    forall y ensures TaskOk(TaskAt(t, y), t.timer, y) { assert TaskOk(TaskAt(s, y), s.timer, y); }
    forall id | id in t.log.issued ensures IdOk(t, id) {
      assert IdOk(s, id) && TaskOk(TaskAt(s, id.slot), s.timer, id.slot);
    }
  }

  lemma DeleteKeepsTasks(s: State, slot: nat)
    requires TaskInv(s) && Enabled(s, TimerStep(slot)) && s.timer.Delete? && TaskAt(s, slot).home.Batch?
    ensures TaskInv(TimerNext(s, slot))
  {
    assert TaskOk(TaskAt(s, slot), s.timer, slot);
    assert IdOk(s, Id(slot, TaskAt(s, slot).id));
    OneTaskKeepsTasks(s, TimerNext(s, slot), slot);
  }

  lemma RunKeepsTasks(s: State, slot: nat)
    requires TaskInv(s) && Enabled(s, TimerStep(slot))
    requires s.timer.Run? || s.timer.Call? || s.timer.Return?
    ensures TaskInv(TimerNext(s, slot))
  {
    var x := s.timer.slot;
    assert TaskOk(TaskAt(s, x), s.timer, x);
    assert IdOk(s, Id(x, TaskAt(s, x).id));
    OneTaskKeepsTasks(s, TimerNext(s, slot), x);
  }

  lemma CheckKeepsTasks(s: State, slot: nat)
    requires TaskInv(s) && Enabled(s, TimerStep(slot)) && s.timer.Check?
    ensures TaskInv(TimerNext(s, slot))
  {
    var x := s.timer.slot;
    assert TaskOk(TaskAt(s, x), s.timer, x);
    assert IdOk(s, Id(x, TaskAt(s, x).id));
    if Lt(s.global, Some(TaskAt(s, x).runTime)) {
      PcKeepsTasks(s, TimerNext(s, slot));
    } else {
      OneTaskKeepsTasks(s, TimerNext(s, slot), x);
    }
  }

  /** Steps of the protocol that leave every task alone. */
  lemma PcKeepsTasks(s: State, t: State)
    requires TaskInv(s) && t.tasks == s.tasks && t.log == s.log && t.clock >= s.clock && TimerOk(t)
    requires t.timer == s.timer || (!s.timer.Run? && !s.timer.Call? && !s.timer.Return?)
    ensures TaskInv(t)
  {
    assert forall y :: TaskAt(t, y) == TaskAt(s, y);
    forall y ensures TaskOk(TaskAt(t, y), t.timer, y) { assert TaskOk(TaskAt(s, y), s.timer, y); }
    forall id | id in t.log.issued ensures IdOk(t, id) { assert IdOk(s, id); }
  }

  lemma ConsumeKeepsTasks(s: State, b: nat)
    requires TaskInv(s) && s.timer == Pull(b) && b < |s.nearest|
    ensures TaskInv(Consume(s, b))
  {
    var t := Consume(s, b);
    forall x ensures SameButHome(TaskAt(s, x), TaskAt(t, x)) {
    }
    assert t.log == s.log && t.clock == s.clock && t.timer == Delete(b);
    hide Consume;
    forall y ensures TaskOk(TaskAt(t, y), t.timer, y) { assert TaskOk(TaskAt(s, y), s.timer, y) && SameButHome(TaskAt(s, y), TaskAt(t, y)); }
    forall y ensures TaskAt(t, y).home.Free? == TaskAt(s, y).home.Free? && TaskAt(t, y).id == TaskAt(s, y).id {
      assert SameButHome(TaskAt(s, y), TaskAt(t, y));
    }
    forall id | id in t.log.issued ensures IdOk(t, id) {
      assert IdOk(s, id) && SameButHome(TaskAt(s, id.slot), TaskAt(t, id.slot));
    }
  }

  /** At most moved from a bucket to the batch. */
  predicate SameButHome(t: Task, u: Task) {
    u == t || (t.home.Bucket? && u == t.(home := Batch))
  }

  lemma NextIdIsNew(s: State, slot: nat)
    requires TasksOk(s) && IdsOk(s) && TaskAt(s, slot).home.Free?
    ensures Id(slot, TaskAt(s, slot).version) !in s.log.issued
  {
    var id := Id(slot, TaskAt(s, slot).version);
    assert TaskOk(TaskAt(s, slot), s.timer, slot);
    assert id in s.log.issued ==> IdOk(s, id);
  }

  lemma InsertKeepsIds(s: State, a: nat, b: nat, slot: nat, runTime: nat, id: Id)
    requires TaskInv(s) && Enabled(s, Schedule(a, b, slot, runTime)) && id in Insert(s, a, b, slot, runTime).log.issued
    ensures IdOk(Insert(s, a, b, slot, runTime), id)
  {
    NextIdIsNew(s, slot);
    assert TaskOk(TaskAt(s, slot), s.timer, slot);
    assert id in s.log.issued ==> IdOk(s, id);
  }

  lemma InsertKeepsTasks(s: State, a: nat, b: nat, slot: nat, runTime: nat)
    requires TaskInv(s) && Enabled(s, Schedule(a, b, slot, runTime))
    ensures TaskInv(Insert(s, a, b, slot, runTime))
  {
    var t := Insert(s, a, b, slot, runTime);
    assert TaskOk(TaskAt(s, slot), s.timer, slot);
    assert forall y :: y != slot ==> TaskAt(t, y) == TaskAt(s, y);
    hide IdOk;
    forall y ensures TaskOk(TaskAt(t, y), t.timer, y) { assert TaskOk(TaskAt(s, y), s.timer, y); }
    forall id | id in t.log.issued ensures IdOk(t, id) { InsertKeepsIds(s, a, b, slot, runTime, id); }
  }

  /** Every step keeps the task invariant. */
  lemma NextKeepsTasks(s: State, act: Action)
    requires TaskInv(s) && Enabled(s, act)
    ensures TaskInv(Next(s, act))
  {
    hide TasksOk, IdsOk, LogOk;
    match act
    case Tick => PcKeepsTasks(s, Next(s, act));
    case Awake => PcKeepsTasks(s, Next(s, act));
    case Unschedule(id) => UnscheduleKeepsTasks(s, id);
    case Schedule(a, b, slot, runTime) => InsertKeepsTasks(s, a, b, slot, runTime);
    case SchedStep(a) => PcKeepsTasks(s, Next(s, act));
    case TimerStep(slot) => TimerKeepsTasks(s, slot);
  }

  lemma TimerKeepsTasks(s: State, slot: nat)
    requires TaskInv(s) && Enabled(s, TimerStep(slot))
    ensures TaskInv(TimerNext(s, slot))
  {
    hide TasksOk, IdsOk, LogOk;
    if s.timer.Pull? && s.timer.b < |s.nearest| {
      ConsumeKeepsTasks(s, s.timer.b);
    } else if s.timer.Delete? && TaskAt(s, slot).home.Batch? {
      DeleteKeepsTasks(s, slot);
    } else if s.timer.Check? {
      CheckKeepsTasks(s, slot);
    } else if s.timer.Run? || s.timer.Call? || s.timer.Return? {
      RunKeepsTasks(s, slot);
    } else {
      PcKeepsTasks(s, TimerNext(s, slot));
    }
  }

  lemma UnscheduleKeepsTasks(s: State, id: Id)
    requires TaskInv(s) && Enabled(s, Unschedule(id))
    ensures TaskInv(Next(s, Unschedule(id)))
  {
    var t, x := Next(s, Unschedule(id)), id.slot;
    assert IdOk(s, id) && TaskOk(TaskAt(s, x), s.timer, x);
    if TaskAt(s, x).version == id.version {
      assert forall y :: y != x ==> TaskAt(t, y) == TaskAt(s, y);
      forall y ensures TaskOk(TaskAt(t, y), t.timer, y) { assert TaskOk(TaskAt(s, y), s.timer, y); }
      forall other | other in t.log.issued ensures IdOk(t, other) {
        assert IdOk(s, other);
      }
    }
  }

  // ---- Whole runs -----------------------------------------------------------------------

  ghost predicate Inv(s: State) {
    DeadlineInv(s) && TaskInv(s)
  }

  ghost predicate IsInit(s: State) {
    && s.tasks == map[] && s.global == None && s.timer == Clear && s.scheds == map[]
    && (forall b :: 0 <= b < |s.nearest| ==> s.nearest[b] == None)
    && s.log == Log(map[], map[], {}, map[])
  }

  ghost predicate StepAt(run: seq<State>, acts: seq<Action>, i: nat)
    requires |run| == |acts| + 1 && i < |acts|
  {
    Enabled(run[i], acts[i]) && run[i + 1] == Next(run[i], acts[i])
  }

  ghost predicate IsRun(run: seq<State>, acts: seq<Action>) {
    && |run| == |acts| + 1
    && IsInit(run[0])
    && forall i: nat :: i < |acts| ==> StepAt(run, acts, i)
  }

  lemma {:induction false} RunKeepsInv(run: seq<State>, acts: seq<Action>, i: nat)
    requires IsRun(run, acts) && i < |run|
    ensures Inv(run[i])
  {
    if i > 0 {
      RunKeepsInv(run, acts, i - 1);
      assert StepAt(run, acts, i - 1);
      hide DeadlineInv, TasksOk, IdsOk, LogOk, TimerOk, Next, Enabled;
      NextKeepsDeadlines(run[i - 1], acts[i - 1]);
      NextKeepsTasks(run[i - 1], acts[i - 1]);
    }
  }

  /** Its caller will lower the global time to what the task needs, or will
      wake the timer thread. */
  predicate HelpComes(s: State, a: nat, runTime: nat) {
    SchedOf(s, a).Wake? || (SchedOf(s, a).Update? && SchedOf(s, a).runTime <= runTime)
  }

  /** No deadline is missed: while the timer thread sleeps, every task that
      waits to be run is due no earlier than the thread wakes up, or a caller
      of schedule is still on its way to update the time or to wake it. */
  lemma NoMissedDeadline(run: seq<State>, acts: seq<Action>, i: nat, x: nat)
    requires IsRun(run, acts) && i < |run| && run[i].timer.Asleep?
    requires !TaskAt(run[i], x).home.Free?
    ensures Le(run[i].timer.next, Some(TaskAt(run[i], x).runTime)) || exists a :: HelpComes(run[i], a, TaskAt(run[i], x).runTime)
  {
    RunKeepsInv(run, acts, i);
    var s, t := run[i], TaskAt(run[i], x);
    assert TaskOk(t, s.timer, x);
    assert t.home.Bucket? || t.home.Heap?;
    if t.home.Bucket? {
      var b := t.home.b;
      assert InBucket(s.nearest, b, t.runTime) && Announced(s, b);
      if !Le(s.global, s.nearest[b]) {
        var a :| Updates(s, a, b, s.nearest[b].value);
        assert HelpComes(s, a, t.runTime);
      } else if s.signals != s.timer.expected {
        var a :| Signals(s, a);
        assert HelpComes(s, a, t.runTime);
      }
    }
  }

  // ---- What happened, read off the steps ------------------------------------------------

  /** Step k hands id out for a task to be run at runTime. */
  predicate ScheduledAt(run: seq<State>, acts: seq<Action>, k: nat, id: Id, runTime: nat)
    requires |run| == |acts| + 1 && k < |acts|
  {
    var act := acts[k];
    act.Schedule? && act.slot == id.slot && act.runTime == runTime && TaskAt(run[k], id.slot).version == id.version
  }

  /** Step k enters the function of the task with this id. */
  predicate EntersAt(run: seq<State>, acts: seq<Action>, k: nat, id: Id)
    requires |run| == |acts| + 1 && k < |acts|
  {
    acts[k].TimerStep? && run[k + 1].timer == Call(id.slot) && TaskAt(run[k + 1], id.slot).id == id.version
  }

  /** How often the function was entered in the first i steps. */
  function Entered(run: seq<State>, acts: seq<Action>, i: nat, id: Id): nat
    requires |run| == |acts| + 1 && i < |run|
  {
    if i == 0 then 0 else Entered(run, acts, i - 1, id) + Bit(EntersAt(run, acts, i - 1, id))
  }

  /** Step k is an unschedule whose exchange finds the version unchanged. */
  predicate CancelsAt(run: seq<State>, acts: seq<Action>, k: nat, id: Id)
    requires |run| == |acts| + 1 && k < |acts|
  {
    acts[k] == Unschedule(id) && TaskAt(run[k], id.slot).version == id.version
  }

  ghost predicate Cancelled(run: seq<State>, acts: seq<Action>, i: nat, id: Id)
    requires |run| == |acts| + 1 && i < |run|
  {
    exists k: nat :: k < i && CancelsAt(run, acts, k, id)
  }

  predicate Returns(s: State, t: State, id: Id) {
    var task := TaskAt(s, id.slot);
    task.id == id.version && !task.home.Free? && TaskAt(t, id.slot).home.Free?
  }

  /** Step k gives the slot of the task back to the pool. */
  predicate ReturnsAt(run: seq<State>, acts: seq<Action>, k: nat, id: Id)
    requires |run| == |acts| + 1 && k < |acts|
  {
    Returns(run[k], run[k + 1], id)
  }

  function Returned(run: seq<State>, acts: seq<Action>, i: nat, id: Id): nat
    requires |run| == |acts| + 1 && i < |run|
  {
    if i == 0 then 0 else Returned(run, acts, i - 1, id) + Bit(ReturnsAt(run, acts, i - 1, id))
  }

  lemma ConsumeFreesNothing(s: State, b: nat, slot: nat)
    requires b < |s.nearest|
    ensures TaskAt(Consume(s, b), slot).home.Free? <==> TaskAt(s, slot).home.Free?
  {}

  lemma TimerReturns(s: State, slot: nat, id: Id)
    requires TimerOk(s) && Enabled(s, TimerStep(slot))
    ensures var t := TimerNext(s, slot);
      Times(t.log.returned, id) == Times(s.log.returned, id) + Bit(Returns(s, t, id))
  {
    if s.timer.Pull? && s.timer.b < |s.nearest| {
      ConsumeFreesNothing(s, s.timer.b, id.slot);
      hide Consume;
      assert TimerNext(s, slot).log == s.log;
    }
  }

  lemma OthersReturnNothing(s: State, act: Action, id: Id)
    requires Enabled(s, act) && !act.TimerStep?
    ensures Next(s, act).log.returned == s.log.returned && !Returns(s, Next(s, act), id)
  {}

  lemma ReturnStep(run: seq<State>, acts: seq<Action>, k: nat, id: Id)
    requires IsRun(run, acts) && k < |acts|
    ensures Times(run[k + 1].log.returned, id) == Times(run[k].log.returned, id) + Bit(ReturnsAt(run, acts, k, id))
  {
    hide DeadlineInv, TasksOk, IdsOk, LogOk, TimerNext, TimerOk, Returns, IsInit, Insert, SchedNext;
    RunKeepsInv(run, acts, k);
    assert StepAt(run, acts, k);
    if acts[k].TimerStep? {
      TimerReturns(run[k], acts[k].slot, id);
    } else {
      OthersReturnNothing(run[k], acts[k], id);
    }
  }

  lemma LogStep(run: seq<State>, acts: seq<Action>, k: nat, id: Id)
    requires IsRun(run, acts) && k < |acts|
    ensures Times(run[k + 1].log.ran, id) == Times(run[k].log.ran, id) + Bit(EntersAt(run, acts, k, id))
    ensures id in run[k + 1].log.cancelled <==> id in run[k].log.cancelled || CancelsAt(run, acts, k, id)
  {
    assert StepAt(run, acts, k);
  }

  /** The log tells what the steps did. */
  lemma {:induction false} LogIsTheRun(run: seq<State>, acts: seq<Action>, i: nat, id: Id)
    requires IsRun(run, acts) && i < |run|
    ensures Times(run[i].log.ran, id) == Entered(run, acts, i, id)
    ensures id in run[i].log.cancelled <==> Cancelled(run, acts, i, id)
    ensures Times(run[i].log.returned, id) == Returned(run, acts, i, id)
  {
    hide StepAt, EntersAt, CancelsAt, ReturnsAt;
    if i > 0 {
      LogIsTheRun(run, acts, i - 1, id);
      LogStep(run, acts, i - 1, id);
      ReturnStep(run, acts, i - 1, id);
      assert Cancelled(run, acts, i, id) <==> Cancelled(run, acts, i - 1, id) || CancelsAt(run, acts, i - 1, id);
    }
  }

  lemma IssuedStep(s: State, act: Action, id: Id)
    requires Inv(s) && Enabled(s, act) && id in s.log.issued
    ensures id in Next(s, act).log.issued && Next(s, act).log.issued[id] == s.log.issued[id]
  {
    if act.Schedule? { NextIdIsNew(s, act.slot); }
    hide Inv;
  }

  lemma {:induction false} IssuedStays(run: seq<State>, acts: seq<Action>, k: nat, i: nat, id: Id, runTime: nat)
    requires IsRun(run, acts) && k < i < |run| && ScheduledAt(run, acts, k, id, runTime)
    ensures id in run[i].log.issued && run[i].log.issued[id] == runTime
  {
    hide Inv;
    assert StepAt(run, acts, i - 1);
    if k < i - 1 {
      IssuedStays(run, acts, k, i - 1, id, runTime);
      RunKeepsInv(run, acts, i - 1);
      IssuedStep(run[i - 1], acts[i - 1], id);
    }
  }

  /** Waits in a bucket, in a batch or in the heap, or is about to be run. */
  predicate Waits(s: State, id: Id, runTime: nat) {
    var t := TaskAt(s, id.slot);
    && t.id == id.version && t.version == id.version && t.runTime == runTime
    && (t.home.Bucket? || t.home.Batch? || t.home.Heap? || t.home.Picked?)
  }

  /** No task is forgotten: at any time after schedule handed an id out, either
      its function was entered once, or unschedule cancelled it, or it still
      waits for its time, and only one of these. */
  lemma ScheduledRunsUnlessCancelled(run: seq<State>, acts: seq<Action>, k: nat, i: nat, id: Id, runTime: nat)
    requires IsRun(run, acts) && k < i < |run| && ScheduledAt(run, acts, k, id, runTime)
    ensures Bit(Cancelled(run, acts, i, id)) + Bit(Waits(run[i], id, runTime)) + Entered(run, acts, i, id) == 1
  {
    RunKeepsInv(run, acts, i);
    LogIsTheRun(run, acts, i, id);
    IssuedStays(run, acts, k, i, id, runTime);
    hide Cancelled, Entered, ScheduledAt, StepAt;
    assert IdOk(run[i], id) && TaskOk(TaskAt(run[i], id.slot), run[i].timer, id.slot);
  }

  /** A scheduled function runs at most once, never early, and never when
      unschedule has returned 0. */
  lemma RunsOnceOnTimeOrNever(run: seq<State>, acts: seq<Action>, k: nat, i: nat, id: Id, runTime: nat)
    requires IsRun(run, acts) && k < i < |run| && ScheduledAt(run, acts, k, id, runTime)
    ensures Entered(run, acts, i, id) <= 1
    ensures Entered(run, acts, i, id) == 1 ==> runTime <= run[i].clock
    ensures Cancelled(run, acts, i, id) ==> Entered(run, acts, i, id) == 0
  {
    RunKeepsInv(run, acts, i);
    LogIsTheRun(run, acts, i, id);
    IssuedStays(run, acts, k, i, id, runTime);
    hide Cancelled, Entered, ScheduledAt, StepAt;
    assert IdOk(run[i], id);
  }

  // ---- The timer thread runs what is due -------------------------------------------------

  predicate Due(s: State, x: nat) {
    TaskAt(s, x).home.Heap? && TaskAt(s, x).runTime <= s.clock
  }

  lemma TopIsDueFirst(s: State, top: nat)
    requires IsTop(s, top)
    ensures Due(s, top) || forall x :: !Due(s, x)
  {
    forall x ensures Due(s, x) ==> Due(s, top) {
      assert TaskAt(s, x).home == Heap ==> TaskAt(s, top).runTime <= TaskAt(s, x).runTime;
    }
  }

  /** The timer thread stops running tasks exactly when none in the heap is due;
      otherwise it turns to one, and to the earliest. */
  lemma StopsOnlyWhenNothingIsDue(run: seq<State>, acts: seq<Action>, i: nat, slot: nat)
    requires IsRun(run, acts) && i < |acts| && acts[i] == TimerStep(slot) && run[i].timer.Loop?
    ensures run[i + 1].timer.Commit? <==> forall x :: !Due(run[i], x)
    ensures !run[i + 1].timer.Commit? ==>
      run[i + 1].timer == Check(slot) && Due(run[i], slot) && IsTop(run[i], slot)
  {
    assert StepAt(run, acts, i);
    if IsTop(run[i], slot) { TopIsDueFirst(run[i], slot); }
  }

  predicate Announces(s: State, act: Action, runTime: nat) {
    act.SchedStep? && SchedOf(s, act.a).Update? && SchedOf(s, act.a).runTime == runTime
  }

  predicate AnnouncesAt(run: seq<State>, acts: seq<Action>, m: nat, runTime: nat)
    requires |run| == |acts| + 1 && m < |acts|
  {
    Announces(run[m], acts[m], runTime)
  }

  /** Between clearing the global time and choosing the next one. */
  predicate Busy(timer: TimerPc) {
    timer.Pull? || timer.Delete? || timer.Loop? || timer.Check? || timer.Run? || timer.Call? || timer.Return?
  }

  predicate BusyAt(run: seq<State>, m: nat) {
    m < |run| && Busy(run[m].timer)
  }

  lemma BusyStep(s: State, act: Action)
    requires Enabled(s, act) && Busy(Next(s, act).timer) && Next(s, act).global.Some?
    ensures Busy(s.timer) && (Next(s, act).global == s.global || Announces(s, act, Next(s, act).global.value))
  {}

  /** While the timer thread is busy the global time is one that a caller of
      schedule announced since the thread cleared it. */
  lemma {:induction false} BusyTimeWasAnnounced(run: seq<State>, acts: seq<Action>, i: nat) returns (m: nat)
    requires IsRun(run, acts) && i < |run| && Busy(run[i].timer) && run[i].global.Some?
    ensures m < i && AnnouncesAt(run, acts, m, run[i].global.value)
    ensures forall n: nat :: m <= n <= i ==> BusyAt(run, n)
  {
    hide Next, Enabled;
    assert i > 0 && StepAt(run, acts, i - 1);
    BusyStep(run[i - 1], acts[i - 1]);
    if run[i - 1].global == run[i].global {
      m := BusyTimeWasAnnounced(run, acts, i - 1);
      assert BusyAt(run, i);
    } else {
      m := i - 1;
    }
  }

  /** A due task the thread turned to is put off only when an earlier time was
      announced since the thread last pulled the buckets; otherwise it is the
      one that is run or found cancelled next. */
  lemma PutOffOnlyForAnEarlierTask(run: seq<State>, acts: seq<Action>, i: nat, slot: nat) returns (m: nat)
    requires IsRun(run, acts) && i < |acts| && acts[i] == TimerStep(slot) && run[i].timer.Check?
    ensures var x := run[i].timer.slot;
      if run[i + 1].timer.Clear? then
        && m < i && run[i].global.Some? && run[i].global.value < TaskAt(run[i], x).runTime
        && AnnouncesAt(run, acts, m, run[i].global.value)
        && forall n: nat :: m <= n <= i ==> BusyAt(run, n)
      else run[i + 1].timer == Run(x) && TaskAt(run[i + 1], x) == TaskAt(run[i], x).(home := Picked)
  {
    assert StepAt(run, acts, i);
    m := 0;
    if run[i + 1].timer.Clear? { m := BusyTimeWasAnnounced(run, acts, i); }
  }

  /** The exchange before a run: a task that was not cancelled before it has its
      function entered, now and for the first time; a cancelled one has not. */
  lemma ExchangeRunsOrSkips(run: seq<State>, acts: seq<Action>, i: nat, slot: nat)
    requires IsRun(run, acts) && i < |acts| && acts[i] == TimerStep(slot) && run[i].timer.Run?
    ensures var x := run[i].timer.slot; var id := Id(x, TaskAt(run[i], x).id);
      if Cancelled(run, acts, i, id) then run[i + 1].timer == Return(x) && Entered(run, acts, i + 1, id) == 0
      else run[i + 1].timer == Call(x) && EntersAt(run, acts, i, id) && Entered(run, acts, i + 1, id) == 1
  {
    var x := run[i].timer.slot;
    var id := Id(x, TaskAt(run[i], x).id);
    RunKeepsInv(run, acts, i);
    LogIsTheRun(run, acts, i, id);
    assert StepAt(run, acts, i);
    hide Cancelled, DeadlineInv;
    assert Entered(run, acts, i + 1, id) == Entered(run, acts, i, id) + Bit(EntersAt(run, acts, i, id));
    assert id in run[i].log.issued;
    assert IdOk(run[i], id) && TaskOk(TaskAt(run[i], x), run[i].timer, x);
  }

  /** A task's slot goes back to the pool exactly once, after the task was run
      or cancelled and before the slot is used again. */
  lemma ReturnedExactlyOnce(run: seq<State>, acts: seq<Action>, k: nat, i: nat, id: Id, runTime: nat)
    requires IsRun(run, acts) && k < i < |run| && ScheduledAt(run, acts, k, id, runTime)
    ensures Returned(run, acts, i, id) <= 1
    ensures Returned(run, acts, i, id) == 1 ==> Entered(run, acts, i, id) == 1 || Cancelled(run, acts, i, id)
    ensures TaskAt(run[i], id.slot).home.Free? ==> Returned(run, acts, i, id) == 1
    ensures TaskAt(run[i], id.slot).id != id.version ==> Returned(run, acts, i, id) == 1
  {
    RunKeepsInv(run, acts, i);
    LogIsTheRun(run, acts, i, id);
    IssuedStays(run, acts, k, i, id, runTime);
    hide Cancelled, Entered, Returned, ScheduledAt, StepAt;
    assert IdOk(run[i], id) && TaskOk(TaskAt(run[i], id.slot), run[i].timer, id.slot);
  }

  /** What unschedule returns, from the version its exchange saw. */
  function Result(s: State, id: Id): int {
    var version := TaskAt(s, id.slot).version;
    if version == id.version then 0 else if version == id.version + 1 then 1 else -1
  }

  /** unschedule tells the truth: 0 means never run, and cancelled now; 1 means
      running right now; -1 means run or cancelled before. */
  lemma UnscheduleTellsTheTruth(run: seq<State>, acts: seq<Action>, i: nat, id: Id)
    requires IsRun(run, acts) && i < |acts| && acts[i] == Unschedule(id)
    ensures Result(run[i], id) == 0 ==> Entered(run, acts, i, id) == 0 && Cancelled(run, acts, i + 1, id)
    ensures Result(run[i], id) == 1 ==> run[i].timer == Call(id.slot) && Entered(run, acts, i, id) == 1
    ensures Result(run[i], id) == -1 ==>
      run[i + 1] == run[i] && (Entered(run, acts, i, id) == 1 || Cancelled(run, acts, i, id))
  {
    RunKeepsInv(run, acts, i);
    LogIsTheRun(run, acts, i, id);
    assert StepAt(run, acts, i);
    assert Result(run[i], id) == 0 ==> CancelsAt(run, acts, i, id);
    assert IdOk(run[i], id) && TaskOk(TaskAt(run[i], id.slot), run[i].timer, id.slot);
  }

  /** try_delete's CHECK and the impossible branch of run_and_delete are never
      reached. */
  lemma ChecksNeverFail(run: seq<State>, acts: seq<Action>, i: nat)
    requires IsRun(run, acts) && i < |run|
    ensures !run[i].timer.BadCheck?
  {
    RunKeepsInv(run, acts, i);
  }
}
