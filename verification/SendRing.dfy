/** The send ring of the control queue pair with everybody at work: the writer
    that posts, the network card that executes, and the thread that polls
    completions, releases buffers and sends acknowledgements of its own. */
module SendRing {
  import opened Basics
  import opened BitMask

  const RESERVED_WR_NUM: nat := 3
  const MIN_QP_SIZE: nat := 16

  /** A work request on the queue: the d-th data send, signalled for a batch of
      sends if batch is not 0, or an immediate-only send, always signalled. */
  datatype Wr = Data(d: nat, batch: nat) | Imm

  predicate Signalled(wr: Wr) {
    wr.Imm? || wr.batch > 0
  }

  /** CutFromIOBufList; wnd is the cached send window. */
  datatype Writer =
    | WIdle
    | WLoop(wnd: nat)
    | WFilled(wnd: nat)
    | WPosted(wnd: nat)
    | WAdvanced(wnd: nat)
    | WBad

  /** HandleCompletion and SendAck. */
  datatype Poller =
    | PIdle
    | PRelease(total: nat, left: nat)
    | PAdd(total: nat)
    | PImmAdd
    | PImmPost
    | PImmSub

  /** out: work requests on the queue, up to the last completion that was
      polled; the first executed of them are done. wc: completions polled and
      not yet handled. advanced, released, restored, polled and base count data
      sends: ring advances, slots cleared, window restored, completions polled,
      and the first data send that may still be in out. */
  datatype State = State(
    capacity: nat, slots: seq<Option<nat>>, current: nat, sent: nat, unsignaled: nat, sqWindow: int, immWindow: int,
    out: seq<Wr>, executed: nat, wc: seq<Wr>, writer: Writer, poller: Poller,
    advanced: nat, released: nat, restored: nat, polled: nat, base: nat)

  datatype Action =
    | Write(stop: bool)
    | Execute
    | Poll(k: nat)
    | Handle
    | SendAck

  predicate Enabled(s: State, act: Action) {
    match act
    case Write(_) => !s.writer.WBad?
    case Execute => s.executed < |s.out|
    case Poll(k) =>
      s.poller.PIdle? && k < s.executed <= |s.out| && Signalled(s.out[k]) && forall j :: 0 <= j < k ==> !Signalled(s.out[j])
    case Handle => !s.poller.PIdle? || s.wc != []
    case SendAck => s.poller.PIdle?
  }

  function Wrap(i: nat, n: nat): nat {
    if i + 1 == n then 0 else i + 1
  }

  /** The signal flag of the next data send: a batch of sends, or 0. */
  function Batch(s: State): nat {
    if s.unsignaled + 1 >= s.capacity / 4 then s.unsignaled + 1 else 0
  }

  function WriteStep(s: State, stop: bool): State
    requires s.current < |s.slots|
  {
    match s.writer
    case WIdle => if s.sqWindow < 0 then s.(writer := WBad) else s.(writer := WLoop(s.sqWindow))
    case WLoop(wnd) =>
      if wnd == 0 || stop then s.(writer := WIdle)
      else if s.slots[s.current].Some? then s.(writer := WBad)
      else s.(slots := s.slots[s.current := Some(s.advanced)], writer := WFilled(wnd))
    case WFilled(wnd) =>
      s.(out := s.out + [Data(s.advanced, Batch(s))], unsignaled := if Batch(s) > 0 then 0 else s.unsignaled + 1,
         writer := WPosted(wnd))
    case WPosted(wnd) => s.(current := Wrap(s.current, |s.slots|), advanced := s.advanced + 1, writer := WAdvanced(wnd))
    case WAdvanced(wnd) =>
      if s.sqWindow < 1 then s.(writer := WBad) else s.(sqWindow := s.sqWindow - 1, writer := WLoop(s.sqWindow - 1))
    case WBad => s
  }

  function DataIn(out: seq<Wr>): nat {
    if out == [] then 0 else Bit(out[0].Data?) + DataIn(out[1..])
  }

  function ImmIn(out: seq<Wr>): nat {
    if out == [] then 0 else Bit(out[0].Imm?) + ImmIn(out[1..])
  }

  /** The sends that the completions stand for. */
  function Sum(wc: seq<Wr>): nat {
    if wc == [] then 0 else (if wc[0].Data? then wc[0].batch else 0) + Sum(wc[1..])
  }

  /** Polling a completion takes its request, and all before it, off the queue. */
  function PollStep(s: State, k: nat): State
    requires k < s.executed <= |s.out|
  {
    var wr := s.out[k];
    s.(out := s.out[k + 1..], executed := s.executed - (k + 1), wc := s.wc + [wr],
       polled := if wr.Data? then wr.d + 1 else s.polled,
       base := if wr.Data? then wr.d + 1 else s.base + DataIn(s.out[..k]))
  }

  function HandleStep(s: State): State
    requires s.sent < |s.slots|
  {
    match s.poller
    case PIdle =>
      if s.wc == [] then s
      else if s.wc[0].Data? then s.(wc := s.wc[1..], poller := PRelease(s.wc[0].batch, s.wc[0].batch))
      else s.(wc := s.wc[1..], poller := PImmAdd)
    case PRelease(total, left) =>
      if left == 0 then s.(poller := PAdd(total))
      else s.(slots := s.slots[s.sent := None], sent := Wrap(s.sent, |s.slots|), released := s.released + 1,
              poller := PRelease(total, left - 1))
    case PAdd(total) => s.(sqWindow := s.sqWindow + total, restored := s.restored + total, poller := PIdle)
    case PImmAdd => s.(immWindow := s.immWindow + 1, poller := PIdle)
    case PImmPost => s.(out := s.out + [Imm], poller := PImmSub)
    case PImmSub => s.(immWindow := s.immWindow - 1, poller := PIdle)
  }

  function Next(s: State, act: Action): State
    requires Enabled(s, act) && s.current < |s.slots| && s.sent < |s.slots|
  {
    match act
    case Write(stop) => WriteStep(s, stop)
    case Execute => s.(executed := s.executed + 1)
    case Poll(k) => PollStep(s, k)
    case Handle => HandleStep(s)
    case SendAck => if s.immWindow > 0 then s.(poller := PImmPost) else s
  }

  // ---- Invariant -------------------------------------------------------------------

  /** Data sends whose slot was filled, that were posted, and whose window was
      taken. */
  function Filled(s: State): nat {
    s.advanced + Bit(s.writer.WFilled? || s.writer.WPosted?)
  }

  function Posted(s: State): nat {
    s.advanced + Bit(s.writer.WPosted?)
  }

  function Subtracted(s: State): int {
    s.advanced - Bit(s.writer.WAdvanced?)
  }

  /** The ring slot of data send p. */
  function Slot(p: nat, n: nat): (q: nat)
    requires n > 0
    ensures q < n
  {
    p % n
  }

  lemma SlotsDiffer(i: nat, j: nat, n: nat)
    requires n >= 1 && i < j < i + n
    ensures Slot(i, n) != Slot(j, n)
  {
    CloseSlotsDiffer(i, j, n);
  }

  predicate SizesOk(s: State) {
    && MIN_QP_SIZE - RESERVED_WR_NUM <= s.capacity <= |s.slots|
    && s.current == Slot(s.advanced, |s.slots|) && s.sent == Slot(s.released, |s.slots|)
    && s.unsignaled < s.capacity / 4 && s.executed <= |s.out|
  }

  /** The window is what is not yet taken, and the cached one is no larger. */
  predicate WindowOk(s: State) {
    && s.sqWindow == s.capacity - Subtracted(s) + s.restored && s.sqWindow >= 0
    && !s.writer.WBad?
    && (!s.writer.WIdle? ==> s.writer.wnd <= s.sqWindow)
    && (s.writer.WFilled? || s.writer.WPosted? || s.writer.WAdvanced? ==> s.writer.wnd >= 1)
    && (s.writer.WAdvanced? ==> s.advanced >= 1)
  }

  /** Completions polled are released and then restored, in this order. */
  predicate ReleaseOk(s: State) {
    && s.restored <= s.released <= s.polled <= s.base <= Posted(s)
    && s.released + (if s.poller.PRelease? then s.poller.left else 0) + Sum(s.wc) == s.polled
    && (match s.poller
        case PRelease(total, left) => left <= total && s.restored + (total - left) == s.released
        case PAdd(total) => s.restored + total == s.released
        case _ => s.restored == s.released)
  }

  /** Slot q holds data send p. */
  predicate Holds(s: State, q: nat, p: nat)
    requires q < |s.slots|
  {
    s.slots[q] == Some(p)
  }

  ghost predicate SlotsOk(s: State)
    requires |s.slots| > 0
  {
    && Filled(s) <= s.released + |s.slots|
    && (forall p: nat :: s.released <= p < Filled(s) ==> Holds(s, Slot(p, |s.slots|), p))
    && (forall q: nat :: q < |s.slots| && s.slots[q].Some? ==>
         s.released <= s.slots[q].value < Filled(s) && Slot(s.slots[q].value, |s.slots|) == q)
  }

  /** From the d-th data send on, with a batch that began at q, the queue holds
      consecutive sends whose signalled ones cover all sends before them; at
      its end end sends are posted, the last few unsignalled. */
  predicate Walk(out: seq<Wr>, q: nat, d: nat, end: nat, unsignaled: nat)
    decreases |out|
  {
    if out == [] then d == end && q + unsignaled == end
    else match out[0]
      case Imm => Walk(out[1..], q, d, end, unsignaled)
      case Data(i, b) =>
        i == d && (b > 0 ==> q + b == d + 1) && Walk(out[1..], if b > 0 then d + 1 else q, d + 1, end, unsignaled)
  }

  predicate ImmOk(s: State) {
    ImmIn(s.out) + ImmIn(s.wc) + Bit(s.poller.PImmAdd?) + s.immWindow == RESERVED_WR_NUM + Bit(s.poller.PImmSub?)
    && s.immWindow >= 0 && (s.poller.PImmPost? || s.poller.PImmSub? ==> s.immWindow >= 1)
  }

  ghost predicate Inv(s: State) {
    && SizesOk(s) && WindowOk(s) && ReleaseOk(s) && SlotsOk(s)
    && Walk(s.out, s.polled, s.base, Posted(s), s.unsignaled) && ImmOk(s)
  }

  // ---- The queue ---------------------------------------------------------------------

  lemma {:induction false} WalkSnoc(out: seq<Wr>, q: nat, d: nat, end: nat, u: nat, b: nat)
    requires Walk(out, q, d, end, u) && (b == 0 || b == u + 1)
    ensures Walk(out + [Data(end, b)], q, d, end + 1, if b > 0 then 0 else u + 1)
    decreases |out|
  {
    if out == [] {
      assert (out + [Data(end, b)])[1..] == [];
    } else {
      assert (out + [Data(end, b)])[1..] == out[1..] + [Data(end, b)];
      match out[0]
      case Imm => WalkSnoc(out[1..], q, d, end, u, b);
      case Data(i, c) => WalkSnoc(out[1..], if c > 0 then d + 1 else q, d + 1, end, u, b);
    }
  }

  lemma {:induction false} WalkImm(out: seq<Wr>, q: nat, d: nat, end: nat, u: nat)
    requires Walk(out, q, d, end, u)
    ensures Walk(out + [Imm], q, d, end, u)
    decreases |out|
  {
    if out == [] {
      assert (out + [Imm])[1..] == [];
    } else {
      assert (out + [Imm])[1..] == out[1..] + [Imm];
      match out[0]
      case Imm => WalkImm(out[1..], q, d, end, u);
      case Data(i, c) => WalkImm(out[1..], if c > 0 then d + 1 else q, d + 1, end, u);
    }
  }

  /** Dropping everything up to the first signalled request. */
  lemma {:induction false} WalkDrop(out: seq<Wr>, q: nat, d: nat, end: nat, u: nat, k: nat)
    requires Walk(out, q, d, end, u) && q <= d && k < |out| && Signalled(out[k]) && forall j :: 0 <= j < k ==> !Signalled(out[j])
    ensures if out[k].Data? then
        out[k].d == d + k && q + out[k].batch == d + k + 1 && Walk(out[k + 1..], d + k + 1, d + k + 1, end, u)
      else Walk(out[k + 1..], q, d + k, end, u)
    ensures DataIn(out[..k]) == k && ImmIn(out[..k]) == 0 && Sum(out[..k]) == 0
    decreases k
  {
    if k > 0 {
      assert !Signalled(out[0]) && out[1..][k - 1] == out[k] && out[1..][k..] == out[k + 1..];
      assert forall j :: 0 <= j < k - 1 ==> out[1..][j] == out[j + 1];
      WalkDrop(out[1..], q, d + 1, end, u, k - 1);
      assert out[..k][1..] == out[1..][..k - 1];
    } else {
      assert out[..0] == [];
    }
  }

  lemma {:induction false} WalkCounts(out: seq<Wr>, q: nat, d: nat, end: nat, u: nat)
    requires Walk(out, q, d, end, u)
    ensures DataIn(out) + d == end && DataIn(out) + ImmIn(out) == |out| && q <= end
    ensures q + u < end ==> exists k :: 0 <= k < |out| && out[k].Data? && out[k].batch > 0
    decreases |out|
  {
    if out != [] {
      match out[0]
      case Imm => WalkCounts(out[1..], q, d, end, u);
      case Data(i, c) => WalkCounts(out[1..], if c > 0 then d + 1 else q, d + 1, end, u);
      if q + u < end && !(out[0].Data? && out[0].batch > 0) {
        var k :| 0 <= k < |out[1..]| && out[1..][k].Data? && out[1..][k].batch > 0;
        assert out[k + 1] == out[1..][k];
      }
    }
  }

  // ---- Every step keeps the invariant ------------------------------------------------

  lemma WrapIsRemainder(i: nat, n: nat)
    requires n > 0
    ensures Wrap(Slot(i, n), n) == Slot(i + 1, n)
  {
    var q, r := i / n, i % n;
    assert i == q * n + r;
    if r + 1 == n {
      assert i + 1 == (q + 1) * n + 0;
      Remainder(i + 1, n, q + 1, 0);
    } else {
      Remainder(i + 1, n, q, r + 1);
    }
  }

  /** The slot the writer is about to fill is free. */
  lemma NextSlotIsFree(s: State)
    requires Inv(s) && s.writer.WLoop? && s.writer.wnd > 0
    ensures s.current < |s.slots| && s.slots[s.current] == None && s.advanced < s.released + |s.slots|
  {
    hide Slot;
    var n := |s.slots|;
    assert s.current < n;
    assert s.advanced < s.released + n;
    var q := s.current;
    if s.slots[q].Some? {
      var p := s.slots[q].value;
      SlotsDiffer(p, s.advanced, n);
      assert false;
    }
  }

  lemma FillKeepsSlots(s: State, t: State)
    requires |s.slots| == |t.slots| > 0 && SlotsOk(s) && s.released <= Filled(s) == s.advanced < s.released + |s.slots|
    requires t.released == s.released && Filled(t) == s.advanced + 1
    requires t.slots == s.slots[Slot(s.advanced, |s.slots|) := Some(s.advanced)]
    ensures SlotsOk(t)
  {
    hide Slot;
    var n := |s.slots|;
    forall p: nat | t.released <= p < Filled(t) ensures Holds(t, Slot(p, n), p) {
      if p < s.advanced {
        assert Holds(s, Slot(p, n), p);
        SlotsDiffer(p, s.advanced, n);
      }
    }
    forall q: nat | q < n && t.slots[q].Some?
      ensures t.released <= t.slots[q].value < Filled(t) && Slot(t.slots[q].value, n) == q {
      assert q != Slot(s.advanced, n) ==> s.slots[q] == t.slots[q];
    }
  }

  lemma ClearKeepsSlots(s: State, t: State)
    requires |s.slots| == |t.slots| > 0 && SlotsOk(s) && s.released < Filled(s) == Filled(t)
    requires t.released == s.released + 1 && t.slots == s.slots[Slot(s.released, |s.slots|) := None]
    ensures SlotsOk(t)
  {
    hide Slot;
    var n := |s.slots|;
    forall p: nat | t.released <= p < Filled(t) ensures Holds(t, Slot(p, n), p) {
      assert Holds(s, Slot(p, n), p);
      SlotsDiffer(s.released, p, n);
    }
    assert Holds(s, Slot(s.released, n), s.released);
    forall q: nat | q < n && t.slots[q].Some?
      ensures t.released <= t.slots[q].value < Filled(t) && Slot(t.slots[q].value, n) == q {
      assert s.slots[q] == t.slots[q];
    }
  }

  lemma SameSlots(s: State, t: State)
    requires |s.slots| > 0 && SlotsOk(s) && t.slots == s.slots && t.released == s.released && Filled(t) == Filled(s)
    ensures SlotsOk(t)
  {
    hide Slot;
    forall p: nat | t.released <= p < Filled(t) ensures Holds(t, Slot(p, |t.slots|), p) { assert Holds(s, Slot(p, |s.slots|), p); }
  }

  lemma FillKeepsInv(s: State)
    requires Inv(s) && s.writer.WLoop? && s.writer.wnd > 0
    ensures s.current < |s.slots| && Inv(WriteStep(s, false))
  {
    hide Slot, Walk, ImmIn, Sum;
    NextSlotIsFree(s);
    FillKeepsSlots(s, WriteStep(s, false));
  }

  lemma WriteKeepsInv(s: State, stop: bool)
    requires Inv(s)
    ensures s.current < |s.slots| && Inv(WriteStep(s, stop))
  {
    hide Slot;
    assert s.current < |s.slots|;
    var t := WriteStep(s, stop);
    if s.writer.WLoop? && s.writer.wnd > 0 && !stop {
      FillKeepsInv(s);
    } else {
      hide ImmIn, Sum;
      assert SlotsOk(t) by { SameSlots(s, t); }
      if s.writer.WPosted? { WrapIsRemainder(s.advanced, |s.slots|); }
      if s.writer.WFilled? { PostKeepsQueue(s); }
      hide Walk, SlotsOk;
    }
  }

  lemma {:induction false} ImmSnoc(out: seq<Wr>, wr: Wr)
    ensures ImmIn(out + [wr]) == ImmIn(out) + Bit(wr.Imm?) && Sum(out + [wr]) == Sum(out) + (if wr.Data? then wr.batch else 0)
  {
    if out == [] {
      assert (out + [wr])[1..] == [];
    } else {
      assert (out + [wr])[1..] == out[1..] + [wr];
      ImmSnoc(out[1..], wr);
    }
  }

  lemma {:induction false} ImmConcat(x: seq<Wr>, y: seq<Wr>)
    ensures ImmIn(x + y) == ImmIn(x) + ImmIn(y)
  {
    if x == [] {
      assert x + y == y;
    } else {
      assert (x + y)[1..] == x[1..] + y;
      ImmConcat(x[1..], y);
    }
  }

  lemma PostKeepsQueue(s: State)
    requires Inv(s) && s.writer.WFilled?
    ensures var wr := Data(s.advanced, Batch(s));
      && Walk(s.out + [wr], s.polled, s.base, s.advanced + 1, if Batch(s) > 0 then 0 else s.unsignaled + 1)
      && ImmIn(s.out + [wr]) == ImmIn(s.out)
  {
    WalkSnoc(s.out, s.polled, s.base, s.advanced, s.unsignaled, Batch(s));
    ImmSnoc(s.out, Data(s.advanced, Batch(s)));
  }

  lemma PollKeepsQueue(s: State, k: nat)
    requires Inv(s) && Enabled(s, Poll(k))
    ensures var t := PollStep(s, k);
      Walk(t.out, t.polled, t.base, Posted(t), t.unsignaled) && ReleaseOk(t)
  {
    hide SizesOk, WindowOk, SlotsOk, ImmOk;
    var t, wr := PollStep(s, k), s.out[k];
    WalkDrop(s.out, s.polled, s.base, Posted(s), s.unsignaled, k);
    hide Walk;
    WalkCounts(t.out, t.polled, t.base, Posted(s), s.unsignaled);
    ImmSnoc(s.wc, wr);
    hide Sum, DataIn, ImmIn;
  }

  lemma PollKeepsImm(s: State, k: nat)
    requires Inv(s) && Enabled(s, Poll(k))
    ensures ImmOk(PollStep(s, k))
  {
    hide SizesOk, WindowOk, SlotsOk;
    var wr := s.out[k];
    WalkDrop(s.out, s.polled, s.base, Posted(s), s.unsignaled, k);
    hide Walk, ReleaseOk, Sum, DataIn;
    ImmSnoc(s.wc, wr);
    assert s.out == (s.out[..k] + [wr]) + s.out[k + 1..];
    ImmConcat(s.out[..k] + [wr], s.out[k + 1..]);
    ImmSnoc(s.out[..k], wr);
    hide ImmIn;
  }

  lemma PollKeepsInv(s: State, k: nat)
    requires Inv(s) && Enabled(s, Poll(k))
    ensures Inv(PollStep(s, k))
  {
    PollKeepsQueue(s, k);
    PollKeepsImm(s, k);
    hide Walk, ReleaseOk, ImmOk, Slot, SlotsOk, Signalled;
    SameSlots(s, PollStep(s, k));
  }

  lemma ReleaseKeepsInv(s: State)
    requires Inv(s) && s.poller.PRelease? && s.poller.left > 0
    ensures s.sent < |s.slots| && Inv(HandleStep(s))
  {
    hide Walk, ImmIn, Sum, Slot;
    assert s.sent < |s.slots|;
    WrapIsRemainder(s.released, |s.slots|);
    ClearKeepsSlots(s, HandleStep(s));
    hide SlotsOk;
  }

  lemma HandleKeepsQueue(s: State)
    requires Inv(s) && Enabled(s, Handle) && !(s.poller.PRelease? && s.poller.left > 0) && s.sent < |s.slots|
    ensures var t := HandleStep(s);
      Walk(t.out, t.polled, t.base, Posted(t), t.unsignaled) && ReleaseOk(t) && ImmOk(t)
  {
    hide SizesOk, WindowOk, SlotsOk;
    if s.poller.PImmPost? {
      WalkImm(s.out, s.polled, s.base, Posted(s), s.unsignaled);
      ImmSnoc(s.out, Imm);
    }
    hide Walk;
  }

  lemma HandleKeepsInv(s: State)
    requires Inv(s) && Enabled(s, Handle)
    ensures s.sent < |s.slots| && Inv(HandleStep(s))
  {
    hide Walk, Slot, SlotsOk, ImmIn, Sum;
    assert s.sent < |s.slots|;
    if s.poller.PRelease? && s.poller.left > 0 {
      ReleaseKeepsInv(s);
    } else {
      HandleKeepsQueue(s);
      hide ReleaseOk, ImmOk;
      SameSlots(s, HandleStep(s));
    }
  }

  lemma NextKeepsInv(s: State, act: Action)
    requires Inv(s) && Enabled(s, act)
    ensures s.current < |s.slots| && s.sent < |s.slots| && Inv(Next(s, act))
  {
    hide Slot, Walk;
    assert s.current < |s.slots| && s.sent < |s.slots|;
    match act
    case Write(stop) => WriteKeepsInv(s, stop);
    case Execute => SameSlots(s, Next(s, act));
    case Poll(k) => PollKeepsInv(s, k);
    case Handle => HandleKeepsInv(s);
    case SendAck => SameSlots(s, Next(s, act));
  }

  // ---- Whole runs -----------------------------------------------------------------------

  /** After the handshake: the window is the smaller queue less the reserved
      requests, and the ring has a slot for every other request. */
  ghost predicate IsInit(s: State, sqSize: nat, remoteRqSize: nat) {
    && sqSize >= MIN_QP_SIZE && remoteRqSize >= MIN_QP_SIZE
    && s.capacity == (if sqSize < remoteRqSize then sqSize else remoteRqSize) - RESERVED_WR_NUM
    && |s.slots| == sqSize - RESERVED_WR_NUM && (forall q :: 0 <= q < |s.slots| ==> s.slots[q] == None)
    && s == State(s.capacity, s.slots, 0, 0, 0, s.capacity, RESERVED_WR_NUM, [], 0, [], WIdle, PIdle, 0, 0, 0, 0, 0)
  }

  ghost predicate StepAt(run: seq<State>, acts: seq<Action>, i: nat)
    requires |run| == |acts| + 1 && i < |acts|
  {
    && Enabled(run[i], acts[i]) && run[i].current < |run[i].slots| && run[i].sent < |run[i].slots|
    && run[i + 1] == Next(run[i], acts[i])
  }

  ghost predicate IsRun(run: seq<State>, acts: seq<Action>, sqSize: nat, remoteRqSize: nat) {
    && |run| == |acts| + 1
    && IsInit(run[0], sqSize, remoteRqSize)
    && forall i: nat :: i < |acts| ==> StepAt(run, acts, i)
  }

  lemma InitInv(s: State, sqSize: nat, remoteRqSize: nat)
    requires IsInit(s, sqSize, remoteRqSize)
    ensures Inv(s) && |s.slots| == sqSize - RESERVED_WR_NUM
  {}

  lemma StepKeepsInv(run: seq<State>, acts: seq<Action>, i: nat)
    requires |run| == |acts| + 1 && i < |acts| && StepAt(run, acts, i) && Inv(run[i])
    ensures Inv(run[i + 1]) && |run[i + 1].slots| == |run[i].slots|
  {
    NextKeepsInv(run[i], acts[i]);
    hide Inv;
  }

  lemma {:induction false} RunKeepsInv(run: seq<State>, acts: seq<Action>, sqSize: nat, remoteRqSize: nat, i: nat)
    requires IsRun(run, acts, sqSize, remoteRqSize) && i < |run|
    ensures Inv(run[i]) && |run[i].slots| == sqSize - RESERVED_WR_NUM
  {
    hide Inv, StepAt, IsInit;
    if i == 0 {
      InitInv(run[0], sqSize, remoteRqSize);
    } else {
      RunKeepsInv(run, acts, sqSize, remoteRqSize, i - 1);
      StepKeepsInv(run, acts, i - 1);
    }
  }

  /** The writer never picks a slot whose buffers are still in use: no run
      reaches the bad state, and whenever a slot is picked it is empty. */
  lemma PickedSlotIsFree(run: seq<State>, acts: seq<Action>, sqSize: nat, remoteRqSize: nat, i: nat)
    requires IsRun(run, acts, sqSize, remoteRqSize) && i < |run|
    ensures !run[i].writer.WBad?
    ensures run[i].writer.WLoop? && run[i].writer.wnd > 0 ==>
      run[i].current < |run[i].slots| && run[i].slots[run[i].current] == None
  {
    RunKeepsInv(run, acts, sqSize, remoteRqSize, i);
    if run[i].writer.WLoop? && run[i].writer.wnd > 0 { NextSlotIsFree(run[i]); }
  }

  /** A data send stays in its slot as long as its work request is on the
      queue: buffers are released only after the card is done with them. */
  lemma BuffersOutliveTheirRequests(run: seq<State>, acts: seq<Action>, sqSize: nat, remoteRqSize: nat, i: nat, k: nat)
    requires IsRun(run, acts, sqSize, remoteRqSize) && i < |run| && k < |run[i].out| && run[i].out[k].Data?
    ensures exists q: nat :: q < |run[i].slots| && run[i].slots[q] == Some(run[i].out[k].d)
  {
    var s := run[i];
    RunKeepsInv(run, acts, sqSize, remoteRqSize, i);
    WalkIndices(s.out, s.polled, s.base, Posted(s), s.unsignaled, k);
    var d := s.out[k].d;
    assert Holds(s, Slot(d, |s.slots|), d);
  }

  lemma {:induction false} WalkIndices(out: seq<Wr>, q: nat, d: nat, end: nat, u: nat, k: nat)
    requires Walk(out, q, d, end, u) && k < |out| && out[k].Data?
    ensures d <= out[k].d < end
    decreases |out|
  {
    WalkCounts(out, q, d, end, u);
    if k > 0 {
      match out[0]
      case Imm => WalkIndices(out[1..], q, d, end, u, k - 1);
      case Data(i, c) => WalkIndices(out[1..], if c > 0 then d + 1 else q, d + 1, end, u, k - 1);
    } else {
      WalkCounts(out[1..], if out[0].batch > 0 then d + 1 else q, d + 1, end, u);
    }
  }

  /** Data sends and immediate-only sends together never outgrow the send
      queue, at no moment of any run. */
  lemma QueueNeverOverflows(run: seq<State>, acts: seq<Action>, sqSize: nat, remoteRqSize: nat, i: nat)
    requires IsRun(run, acts, sqSize, remoteRqSize) && i < |run|
    ensures |run[i].out| <= sqSize && ImmIn(run[i].out) <= RESERVED_WR_NUM
  {
    var s := run[i];
    RunKeepsInv(run, acts, sqSize, remoteRqSize, i);
    WalkCounts(s.out, s.polled, s.base, Posted(s), s.unsignaled);
  }

  predicate IsBatch(s: State, k: nat) {
    k < |s.out| && s.out[k].Data? && s.out[k].batch > 0
  }

  /** While the send window is closed, a signalled data send is on the queue or
      its completion is being handled: the window will open again. */
  lemma ClosedWindowReopens(run: seq<State>, acts: seq<Action>, sqSize: nat, remoteRqSize: nat, i: nat)
    requires IsRun(run, acts, sqSize, remoteRqSize) && i < |run| && run[i].sqWindow == 0
    ensures
      || (exists k: nat :: IsBatch(run[i], k))
      || Sum(run[i].wc) > 0 || run[i].poller.PRelease? || run[i].poller.PAdd?
  {
    var s := run[i];
    RunKeepsInv(run, acts, sqSize, remoteRqSize, i);
    WalkCounts(s.out, s.polled, s.base, Posted(s), s.unsignaled);
    if s.polled + s.unsignaled < Posted(s) {
      var k :| 0 <= k < |s.out| && s.out[k].Data? && s.out[k].batch > 0;
      assert IsBatch(s, k);
    }
  }

  /** The slots that still hold buffers are those of sends from p on. */
  ghost predicate HeldFrom(s: State, p: nat) {
    forall q: nat :: q < |s.slots| && s.slots[q].Some? ==> p <= s.slots[q].value < s.advanced
  }

  /** When everybody is done and the queue is empty, the window is open again
      but for the last sends that asked for no completion, only they keep their
      buffers, and every immediate-only send is free again. */
  lemma DrainedWindowIsOpen(run: seq<State>, acts: seq<Action>, sqSize: nat, remoteRqSize: nat, i: nat)
    requires IsRun(run, acts, sqSize, remoteRqSize) && i < |run|
    requires run[i].writer.WIdle? && run[i].poller.PIdle? && run[i].out == [] && run[i].wc == []
    ensures run[i].sqWindow == run[i].capacity - run[i].unsignaled && run[i].unsignaled < run[i].capacity / 4
    ensures run[i].unsignaled <= run[i].advanced && HeldFrom(run[i], run[i].advanced - run[i].unsignaled)
    ensures run[i].immWindow == RESERVED_WR_NUM
  {
    RunKeepsInv(run, acts, sqSize, remoteRqSize, i);
  }

  /** The writer stops only at a closed window or when it has nothing to send:
      otherwise the next send goes onto the queue, behind all others. */
  lemma WriterPostsWhileTheWindowIsOpen(run: seq<State>, acts: seq<Action>, sqSize: nat, remoteRqSize: nat, i: nat)
    requires IsRun(run, acts, sqSize, remoteRqSize) && i < |acts| && acts[i].Write?
    ensures var s, t := run[i], run[i + 1];
      && (s.writer.WIdle? ==> t.writer.WLoop? && t.writer.wnd == s.sqWindow)
      && (s.writer.WLoop? ==> (t.writer.WIdle? <==> s.writer.wnd == 0 || acts[i].stop) && (!t.writer.WIdle? ==> t.writer.WFilled?))
      && (s.writer.WFilled? ==> t.writer.WPosted? && |t.out| == |s.out| + 1 && s.out <= t.out && t.out[|s.out|].Data?
                                && t.out[|s.out|].d == s.advanced)
      && (s.writer.WAdvanced? ==> t.writer.WLoop? && t.sqWindow == s.sqWindow - 1)
  {
    PickedSlotIsFree(run, acts, sqSize, remoteRqSize, i + 1);
    PickedSlotIsFree(run, acts, sqSize, remoteRqSize, i);
    assert StepAt(run, acts, i);
  }

  /** An acknowledgement is sent on its own exactly when one of the reserved
      requests is free, and it goes onto the queue. */
  lemma AckIsSentWhenReserved(run: seq<State>, acts: seq<Action>, sqSize: nat, remoteRqSize: nat, i: nat)
    requires IsRun(run, acts, sqSize, remoteRqSize) && i < |acts|
    ensures acts[i].SendAck? ==> (run[i + 1].poller.PImmPost? <==> run[i].immWindow > 0)
    ensures acts[i].Handle? && run[i].poller.PImmPost? ==> run[i + 1].out == run[i].out + [Imm]
  {
    assert StepAt(run, acts, i);
  }
}
