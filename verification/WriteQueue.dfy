/** The linked list of write requests, as the owner of the write right and the
    producers see it. */
module WriteList {
  import opened Basics

  datatype Link = Unconnected | Null | To(id: nat)

  /** _write_head and the next and data fields of the requests in use.

      u, bare, linked, revFrom and revEnd are history: u holds the requests
      published and not yet consumed, in exchange order.  Its first linked
      requests are chained forwards, [revFrom, revEnd) is the part that a running
      reversal has turned round, and every other request points back to the one
      exchanged before it or is not connected yet.  bare says that the only
      linked request has not stored its null link yet. */
  datatype Queue = Queue(
    head: Option<nat>,
    next: map<nat, Link>,
    data: map<nat, seq<Byte>>,
    u: seq<nat>,
    bare: bool,
    linked: nat,
    revFrom: nat,
    revEnd: nat)

  const Empty := Queue(None, map[], map[], [], false, 0, 0, 0)

  // ---- Accesses -----------------------------------------------------------------

  /** Fill a request, mark it unconnected and exchange it into the head. */
  function Push(k: Queue, id: nat, bytes: seq<Byte>): Queue {
    var j := k.(head := Some(id), next := k.next[id := Unconnected], data := k.data[id := bytes], u := k.u + [id]);
    if k.u == [] then j.(bare := true, linked := 1, revFrom := 1, revEnd := 1) else j
  }

  function SetLink(k: Queue, id: nat, l: Link): Queue {
    k.(next := k.next[id := l])
  }

  /** The front request leaves the queue. */
  function PopFront(k: Queue): Queue {
    k.(u := if k.u == [] then [] else k.u[1..], linked := Pred(k.linked), revFrom := Pred(k.revFrom), revEnd := Pred(k.revEnd))
  }

  function Forget(k: Queue, id: nat): Queue {
    k.(next := k.next - {id}, data := k.data - {id})
  }

  /** The link of a request in use. */
  function LinkOf(k: Queue, id: nat): Link {
    if id in k.next then k.next[id] else Null
  }

  function Pred(n: nat): nat {
    if n == 0 then 0 else n - 1
  }

  // ---- Bytes --------------------------------------------------------------------

  /** The requests DoWrite collects: at most n along next. */
  function Walk(next: map<nat, Link>, q: nat, n: nat): seq<nat>
    decreases n
  {
    if n == 0 then []
    else if q in next && next[q].To? then [q] + Walk(next, next[q].id, n - 1)
    else [q]
  }

  function DataOf(data: map<nat, seq<Byte>>, id: nat): seq<Byte> {
    if id in data then data[id] else []
  }

  function Bytes(data: map<nat, seq<Byte>>, ids: seq<nat>): seq<Byte> {
    if ids == [] then [] else DataOf(data, ids[0]) + Bytes(data, ids[1..])
  }

  /** Cut the first n bytes off the requests ids, front request first. */
  function Cut(data: map<nat, seq<Byte>>, ids: seq<nat>, n: nat): map<nat, seq<Byte>>
    decreases |ids|
  {
    if ids == [] then data
    else
      var d := DataOf(data, ids[0]);
      if n <= |d| then data[ids[0] := d[n..]]
      else Cut(data[ids[0] := []], ids[1..], n - |d|)
  }

  lemma {:induction false} BytesSame(d: map<nat, seq<Byte>>, e: map<nat, seq<Byte>>, ids: seq<nat>)
    requires forall i :: 0 <= i < |ids| ==> DataOf(d, ids[i]) == DataOf(e, ids[i])
    ensures Bytes(d, ids) == Bytes(e, ids)
  {
    if ids != [] {
      assert DataOf(d, ids[0]) == DataOf(e, ids[0]);
      assert forall i :: 0 <= i < |ids[1..]| ==> ids[1..][i] == ids[i + 1];
      BytesSame(d, e, ids[1..]);
    }
  }

  lemma {:induction false} BytesConcat(d: map<nat, seq<Byte>>, x: seq<nat>, y: seq<nat>)
    ensures Bytes(d, x + y) == Bytes(d, x) + Bytes(d, y)
  {
    if x == [] {
      assert x + y == y;
    } else {
      assert (x + y)[1..] == x[1..] + y;
      BytesConcat(d, x[1..], y);
    }
  }

  /** Emptying one request removes its bytes from the front of the stream. */
  lemma BytesSplit(d: map<nat, seq<Byte>>, ids: seq<nat>, rest: seq<Byte>)
    requires Distinct(ids) && ids != []
    ensures var e := d[ids[0] := rest];
      && Bytes(d, ids) == DataOf(d, ids[0]) + Bytes(e, ids[1..])
      && Bytes(e, ids) == rest + Bytes(e, ids[1..])
      && Distinct(ids[1..]) && ids[0] !in ids[1..]
  {
    var e := d[ids[0] := rest];
    assert forall i :: 0 <= i < |ids[1..]| ==> ids[1..][i] == ids[i + 1] && ids[i + 1] != ids[0];
    BytesSame(d, e, ids[1..]);
  }

  lemma PrefixOfSum(f: seq<Byte>, g: seq<Byte>, n: nat, left: seq<Byte>)
    requires |f| <= n <= |f| + |g| && g == g[..n - |f|] + left
    ensures f + g == (f + g)[..n] + left
  {
    assert (f + g)[..n] == f + g[..n - |f|];
  }

  lemma {:induction false} CutKeepsOthers(d: map<nat, seq<Byte>>, ids: seq<nat>, n: nat, q: nat)
    requires q !in ids
    ensures DataOf(Cut(d, ids, n), q) == DataOf(d, q)
    decreases |ids|
  {
    if ids != [] {
      assert ids[0] in ids && forall i :: 0 <= i < |ids[1..]| ==> ids[1..][i] == ids[i + 1];
      if n > |DataOf(d, ids[0])| {
        CutKeepsOthers(d[ids[0] := []], ids[1..], n - |DataOf(d, ids[0])|, q);
      }
    }
  }

  /** A cut that goes past the first request. */
  lemma CutPastFirst(d: map<nat, seq<Byte>>, ids: seq<nat>, n: nat)
    requires Distinct(ids) && ids != [] && n > |DataOf(d, ids[0])|
    ensures var f, e, rest := DataOf(d, ids[0]), d[ids[0] := []], ids[1..];
      && Bytes(d, ids) == f + Bytes(e, rest) && Distinct(rest)
      && Bytes(Cut(d, ids, n), ids) == Bytes(Cut(e, rest, n - |f|), rest)
  {
    var f, e, rest := DataOf(d, ids[0]), d[ids[0] := []], ids[1..];
    BytesSplit(d, ids, []);
    hide Distinct;
    CutKeepsOthers(e, rest, n - |f|, ids[0]);
    assert Bytes(Cut(e, rest, n - |f|), ids) == [] + Bytes(Cut(e, rest, n - |f|), rest);
  }

  /** Cutting takes the bytes off the front of the stream. */
  lemma {:induction false} CutTakesAPrefix(d: map<nat, seq<Byte>>, ids: seq<nat>, n: nat)
    requires Distinct(ids) && n <= |Bytes(d, ids)|
    ensures Bytes(d, ids) == Bytes(d, ids)[..n] + Bytes(Cut(d, ids, n), ids)
    decreases |ids|
  {
    if ids != [] {
      var f, rest := DataOf(d, ids[0]), ids[1..];
      if n <= |f| {
        BytesSplit(d, ids, f[n..]);
      } else {
        hide Distinct, Bytes, Cut, DataOf;
        CutPastFirst(d, ids, n);
        var e := d[ids[0] := []];
        CutTakesAPrefix(e, rest, n - |f|);
        PrefixOfSum(f, Bytes(e, rest), n, Bytes(Cut(e, rest, n - |f|), rest));
      }
    }
  }

  lemma {:induction false} CutKeepsKeys(d: map<nat, seq<Byte>>, ids: seq<nat>, n: nat)
    requires forall i :: 0 <= i < |ids| ==> ids[i] in d
    ensures Cut(d, ids, n).Keys == d.Keys
    decreases |ids|
  {
    if ids != [] && n > |DataOf(d, ids[0])| {
      assert forall i :: 0 <= i < |ids[1..]| ==> ids[1..][i] == ids[i + 1];
      CutKeepsKeys(d[ids[0] := []], ids[1..], n - |DataOf(d, ids[0])|);
    }
  }

  // ---- Shape ---------------------------------------------------------------------

  function Last(u: seq<nat>): Option<nat> {
    if u == [] then None else Some(u[|u| - 1])
  }

  /** Positions whose link still points backwards. */
  predicate Backward(k: Queue, i: nat) {
    k.linked <= i < |k.u| && !(k.revFrom <= i < k.revEnd)
  }

  predicate LinkOk(k: Queue, i: nat)
    requires i < |k.u| && k.u[i] in k.next && k.linked <= |k.u| && k.revEnd <= |k.u|
  {
    var l := k.next[k.u[i]];
    if i + 1 < k.linked then l == To(k.u[i + 1])
    else if i + 1 == k.linked then l == (if k.bare then Unconnected else Null)
    else if Backward(k, i) then i >= 1 && (l == Unconnected || l == To(k.u[i - 1]))
    else l == if i + 1 < k.revEnd then To(k.u[i + 1]) else Null
  }

  ghost predicate Shape(k: Queue) {
    && Distinct(k.u)
    && (forall i :: 0 <= i < |k.u| ==> k.u[i] in k.next && k.u[i] in k.data)
    && k.next.Keys == k.data.Keys
    && k.linked <= k.revFrom <= k.revEnd <= |k.u|
    && (k.u != [] ==> k.linked >= 1)
    && (k.bare ==> k.linked == k.revFrom == k.revEnd == 1)
    && k.head == Last(k.u)
    && (forall i: nat :: i < |k.u| ==> LinkOk(k, i))
  }

  /** No reversal is running. */
  predicate Steady(k: Queue) {
    k.linked == k.revFrom == k.revEnd
  }

  /** The request at position i is exchanged and its link not stored yet. */
  predicate LooseAt(k: Queue, i: nat) {
    Backward(k, i) && i >= 1 && LinkOf(k, k.u[i]) == Unconnected
  }

  /** A request and the one exchanged before it. */
  function PairAt(k: Queue, i: nat): (nat, nat) {
    if 1 <= i < |k.u| then (k.u[i], k.u[i - 1]) else (0, 0)
  }

  /** All links that are still to be stored. */
  ghost function Loose(k: Queue): set<(nat, nat)> {
    set i: nat | i < |k.u| && LooseAt(k, i) :: PairAt(k, i)
  }

  /** What the reversal has collected so far. */
  function Reversed(k: Queue): Link {
    if k.revFrom < k.revEnd <= |k.u| then To(k.u[k.revFrom]) else Null
  }

  lemma PushShape(k: Queue, id: nat, bytes: seq<Byte>)
    requires Shape(k) && id !in k.next
    ensures Shape(Push(k, id, bytes))
    ensures Loose(Push(k, id, bytes)) == Loose(k) + if k.u == [] then {} else {(id, k.u[|k.u| - 1])}
  {
    var j := Push(k, id, bytes);
    forall i: nat | i < |j.u| ensures LinkOk(j, i) {
      assert i < |k.u| ==> LinkOk(k, i);
    }
    PushLoose(k, id, bytes);
  }

  lemma PushLoose(k: Queue, id: nat, bytes: seq<Byte>)
    requires Shape(k) && id !in k.next
    ensures Loose(Push(k, id, bytes)) == Loose(k) + if k.u == [] then {} else {(id, k.u[|k.u| - 1])}
  {
    var j := Push(k, id, bytes);
    forall i: nat | i < |k.u| ensures LooseAt(j, i) == LooseAt(k, i) && PairAt(j, i) == PairAt(k, i) {
      assert k.u[i] != id;
    }
    assert LooseAt(j, |k.u|) == (k.u != []) && (k.u != [] ==> PairAt(j, |k.u|) == (id, k.u[|k.u| - 1]));
  }

  /** Positions keep their loose links when nothing about them changes. */
  lemma LooseSame(k: Queue, j: Queue)
    requires k.u == j.u
    requires forall i: nat :: i < |k.u| ==> LooseAt(k, i) == LooseAt(j, i)
    ensures Loose(k) == Loose(j)
  {
    assert forall i: nat :: PairAt(k, i) == PairAt(j, i);
  }

  lemma LinkShape(k: Queue, i: nat)
    requires Shape(k) && LooseAt(k, i)
    ensures var j := SetLink(k, k.u[i], To(k.u[i - 1])); Shape(j) && Loose(j) == Loose(k) - {PairAt(k, i)}
  {
    var j := SetLink(k, k.u[i], To(k.u[i - 1]));
    forall n: nat | n < |j.u| ensures LinkOk(j, n) { assert LinkOk(k, n); }
    assert !LooseAt(j, i);
    forall n: nat | n < |j.u| && n != i
      ensures LooseAt(j, n) == LooseAt(k, n) && PairAt(j, n) == PairAt(k, n) && PairAt(k, n) != PairAt(k, i)
    {
      assert k.u[n] != k.u[i];
    }
  }

  lemma NullShape(k: Queue)
    requires Shape(k) && k.bare
    ensures var j := SetLink(k, k.u[0], Null).(bare := false); Shape(j) && Loose(j) == Loose(k)
  {
    var j := SetLink(k, k.u[0], Null).(bare := false);
    forall n: nat | n < |j.u| ensures LinkOk(j, n) && LooseAt(j, n) == LooseAt(k, n) { assert LinkOk(k, n); }
    LooseSame(k, j);
  }

  lemma PopShape(k: Queue)
    requires Shape(k) && k.linked >= 2 && Steady(k)
    ensures var j := Forget(PopFront(k), k.u[0]); Shape(j) && Loose(j) == Loose(k)
  {
    var j := Forget(PopFront(k), k.u[0]);
    forall n: nat | n < |j.u| ensures LinkOk(j, n) { assert LinkOk(k, n + 1); }
    forall n: nat | n < |j.u|
      ensures LooseAt(j, n) == LooseAt(k, n + 1) && (LooseAt(j, n) ==> PairAt(j, n) == PairAt(k, n + 1))
    {
      assert LinkOk(k, n + 1);
    }
    forall x | x in Loose(k) ensures x in Loose(j) {
      var n: nat :| n < |k.u| && LooseAt(k, n) && PairAt(k, n) == x;
      assert LooseAt(j, n - 1) == LooseAt(k, n - 1 + 1);
    }
    forall x | x in Loose(j) ensures x in Loose(k) {
      var n: nat :| n < |j.u| && LooseAt(j, n) && PairAt(j, n) == x;
      assert LooseAt(k, n + 1);
    }
  }

  lemma LastPopShape(k: Queue)
    requires Shape(k) && |k.u| == 1 && !k.bare
    ensures var j := PopFront(k).(head := None); Shape(j) && Loose(j) == Loose(k)
  {
  }

  lemma ForgetShape(k: Queue, q: nat)
    requires Shape(k) && q !in k.u
    ensures Shape(Forget(k, q)) && Loose(Forget(k, q)) == Loose(k)
  {
    var j := Forget(k, q);
    forall n: nat | n < |j.u| ensures LinkOk(j, n) && LooseAt(j, n) == LooseAt(k, n) { assert LinkOk(k, n); }
    LooseSame(k, j);
  }

  lemma BeginReverseShape(k: Queue)
    requires Shape(k) && Steady(k) && !k.bare
    ensures var j := k.(revFrom := |k.u|, revEnd := |k.u|); Shape(j) && Loose(j) == Loose(k)
  {
    var j := k.(revFrom := |k.u|, revEnd := |k.u|);
    forall n: nat | n < |j.u| ensures LinkOk(j, n) && LooseAt(j, n) == LooseAt(k, n) { assert LinkOk(k, n); }
    LooseSame(k, j);
  }

  lemma ReverseShape(k: Queue)
    requires Shape(k) && !k.bare && k.linked < k.revFrom && LinkOf(k, k.u[k.revFrom - 1]) != Unconnected
    ensures var j := SetLink(k, k.u[k.revFrom - 1], Reversed(k)).(revFrom := k.revFrom - 1);
      Shape(j) && Loose(j) == Loose(k)
  {
    var j := SetLink(k, k.u[k.revFrom - 1], Reversed(k)).(revFrom := k.revFrom - 1);
    forall n: nat | n < |j.u| ensures LinkOk(j, n) && LooseAt(j, n) == LooseAt(k, n) { assert LinkOk(k, n); }
    LooseSame(k, j);
  }

  lemma JoinShape(k: Queue)
    requires Shape(k) && !k.bare && k.linked == k.revFrom < k.revEnd
    ensures var j := SetLink(k, k.u[k.linked - 1], Reversed(k)).(linked := k.revEnd, revFrom := k.revEnd);
      Shape(j) && Loose(j) == Loose(k)
  {
    var j := SetLink(k, k.u[k.linked - 1], Reversed(k)).(linked := k.revEnd, revFrom := k.revEnd);
    forall n: nat | n < |j.u| ensures LinkOk(j, n) && LooseAt(j, n) == LooseAt(k, n) { assert LinkOk(k, n); }
    LooseSame(k, j);
  }

  /** Walking along next yields the front of u. */
  lemma {:induction false} WalkIsPrefix(k: Queue, i: nat, n: nat)
    requires Shape(k) && !k.bare && Steady(k) && i < k.linked
    ensures Walk(k.next, k.u[i], n) == k.u[i..if i + n < k.linked then i + n else k.linked]
    decreases n
  {
    if n > 0 {
      assert LinkOk(k, i);
      if i + 1 < k.linked { WalkIsPrefix(k, i + 1, n - 1); }
    }
  }
}

/** The write queue of FastRdmaEndpoint: producers exchange their request into
    _write_head and link it afterwards; whoever found the head empty owns the
    write right until its compare-exchange of the head to null succeeds.

    One access of a shared word per step, any number of threads.  Requests are
    pool objects: an id is free again once it was returned. */
module WriteQueue {
  import opened Basics
  import opened Counting
  import opened WriteList

  /** Which caller IsWriteComplete returns to. */
  datatype Caller = FirstWriter | KeepWriter | Releaser

  datatype Pc =
    | Idle
    // StartWrite by a thread that did not find the head empty
    | PubLink(q: nat, prev: nat)
    // StartWrite by the thread that did
    | OwnNull(req: nat)                       // before req->next = nullptr
    | OwnCheck(req: nat)                      // before the second look at error()
    | OwnHandshake(req: nat)                  // before loading _handshake_ok
    | Park(req: nat)                          // before storing _pending_keepwrite_req
    | FirstWrite(req: nat)                    // before CutFromIOBufList
    | StartKeep(req: nat)                     // StartKeepWrite
    // KeepWrite
    | KwTop(req: nat, curTail: Option<nat>)
    | KwSkip(req: nat, curTail: Option<nat>)
    | KwWrite(req: nat, curTail: Option<nat>)
    | KwDrain(req: nat, curTail: Option<nat>)
    | KwTail(req: nat, curTail: Option<nat>)
    | KwWalk(req: nat, at: nat)
    // IsWriteComplete
    | Cas(req: nat, oldHead: nat, singular: bool, caller: Caller)
    | RevLoad(req: nat, oldHead: nat, newHead: nat, p: nat, tail: Link, caller: Caller)
    | RevStore(req: nat, oldHead: nat, newHead: nat, p: nat, tail: Link, caller: Caller, saved: Link)
    | LinkOld(req: nat, oldHead: nat, newHead: nat, tail: Link, caller: Caller)
    // FailWrite and ReleaseAllFailedWriteRequests
    | Failing(req: nat)                       // before SetFailed
    | RelLoop(req: nat)
    | RelClear(req: nat)
    // the write right was given up, one request is still to be returned
    | ReturnLast(req: nat, caller: Caller)
    // CHECK and DCHECK
    | BadCheck

  /** History: the exchanges and the bytes they brought, the requests consumed
      in order, those returned to the pool and those about to be, the bytes that
      went onto the QP, and whether unsent bytes were thrown away. */
  datatype Log = Log(
    published: seq<nat>,
    stream: seq<Byte>,
    consumed: seq<nat>,
    returned: multiset<nat>,
    retiring: set<nat>,
    wire: seq<Byte>,
    dropped: bool)

  datatype State = State(
    k: Queue,
    pending: Option<nat>,
    failed: bool,
    handshakeOk: bool,
    threads: map<nat, Pc>,
    log: Log)

  const Init := State(Empty, None, false, false, map[], Log([], [], [], multiset{}, {}, [], false))

  datatype Action =
    | Publish(a: nat, q: nat, bytes: seq<Byte>)
    | SetFailed
    | HandshakeDone
    | TakePending(a: nat, fail: bool)                 // handshake result, FailPendingWrite, BeforeRecycled
    | Write(a: nat, n: nat, fatal: bool, lost: nat)   // CutFromIOBufList sends n bytes, loses some on a fatal error
    | Stop(a: nat)                                    // KeepWrite sees _stop, or its thread cannot be started
    | Step(a: nat)

  const DATA_LIST_MAX: nat := 256

  function PcOf(s: State, a: nat): Pc {
    if a in s.threads then s.threads[a] else Idle
  }

  function WriteTargets(k: Queue, pc: Pc): seq<nat>
    requires pc.FirstWrite? || pc.KwWrite?
  {
    if pc.FirstWrite? then [pc.req] else Walk(k.next, pc.req, DATA_LIST_MAX)
  }

  predicate Enabled(s: State, act: Action) {
    match act
    case Publish(a, q, _) => PcOf(s, a).Idle? && q !in s.k.next
    case SetFailed => true
    case HandshakeDone => true
    case TakePending(a, _) => PcOf(s, a).Idle?
    case Write(a, n, fatal, lost) =>
      var pc := PcOf(s, a);
      && (pc.FirstWrite? || pc.KwWrite?)
      && n + lost <= |Bytes(s.k.data, WriteTargets(s.k, pc))|
      && (lost > 0 ==> fatal)
    case Stop(a) => PcOf(s, a).StartKeep? || (s.failed && (PcOf(s, a).KwTop? || PcOf(s, a).KwTail?))
    case Step(a) => CanStep(s.k, PcOf(s, a))
  }

  /** A reader of an unconnected link spins. */
  predicate CanStep(k: Queue, pc: Pc) {
    match pc
    case Idle => false
    case BadCheck => false
    case FirstWrite(_) => false
    case KwWrite(_, _) => false
    case RevLoad(_, _, _, p, _, _) => LinkOf(k, p) != Unconnected
    case _ => true
  }

  function Next(s: State, act: Action): State
    requires Enabled(s, act)
  {
    match act
    case Publish(a, q, bytes) =>
      var log := s.log.(published := s.log.published + [q], stream := s.log.stream + bytes);
      var pc := if s.k.head.Some? then PubLink(q, s.k.head.value) else OwnNull(q);
      s.(k := Push(s.k, q, bytes), threads := s.threads[a := pc], log := log)
    case SetFailed => s.(failed := true)
    case HandshakeDone => s.(handshakeOk := true)
    case TakePending(a, fail) =>
      if s.pending == None then s
      else
        var pc := if fail then Failing(s.pending.value) else StartKeep(s.pending.value);
        s.(threads := s.threads[a := pc], pending := None)
    case Write(a, n, fatal, lost) => WriteStep(s, a, PcOf(s, a), n, fatal, lost)
    case Stop(a) => s.(threads := s.threads[a := Failing(PcOf(s, a).req)])
    case Step(a) => StepOf(s, a, PcOf(s, a))
  }

  function WriteStep(s: State, a: nat, pc: Pc, n: nat, fatal: bool, lost: nat): State
    requires pc.FirstWrite? || pc.KwWrite?
    requires n + lost <= |Bytes(s.k.data, WriteTargets(s.k, pc))|
  {
    var ids := WriteTargets(s.k, pc);
    var pc' := if fatal then Failing(pc.req)
               else if pc.FirstWrite? then Cas(pc.req, pc.req, true, FirstWriter)
               else KwDrain(pc.req, pc.curTail);
    s.(k := s.k.(data := Cut(s.k.data, ids, n + lost)),
       threads := s.threads[a := pc'],
       log := s.log.(wire := s.log.wire + Bytes(s.k.data, ids)[..n], dropped := s.log.dropped || lost > 0))
  }

  /** Where IsWriteComplete returns false to. */
  function Incomplete(req: nat, newTail: nat, caller: Caller): Pc {
    match caller
    case FirstWriter => StartKeep(req)
    case KeepWriter => KwTop(req, Some(newTail))
    case Releaser => RelLoop(req)
  }

  function Go(s: State, a: nat, pc: Pc): State {
    s.(threads := s.threads[a := pc])
  }

  function GoWith(s: State, a: nat, pc: Pc, k: Queue): State {
    s.(threads := s.threads[a := pc], k := k)
  }

  function Consumed(s: State, q: nat): Log {
    s.log.(consumed := s.log.consumed + [q], dropped := s.log.dropped || DataOf(s.k.data, q) != [])
  }

  /** The front request q is returned to the pool while others follow it. */
  function ReturnFront(s: State, a: nat, q: nat, pc: Pc): State {
    var log := Consumed(s, q);
    State(Forget(PopFront(s.k), q), s.pending, s.failed, s.handshakeOk, s.threads[a := pc],
          log.(returned := log.returned + multiset{q}))
  }

  function StepOf(s: State, a: nat, pc: Pc): State {
    match pc
    case PubLink(q, prev) => GoWith(s, a, Idle, SetLink(s.k, q, To(prev)))
    case OwnNull(req) => GoWith(s, a, OwnCheck(req), SetLink(s.k, req, Null).(bare := false))
    case OwnCheck(req) => Go(s, a, if s.failed then Failing(req) else OwnHandshake(req))
    case OwnHandshake(req) => Go(s, a, if s.handshakeOk then FirstWrite(req) else Park(req))
    case Park(req) => Go(s, a, Idle).(pending := Some(req))
    case StartKeep(req) => Go(s, a, KwTop(req, None))
    case KwTop(req, t) => Go(s, a, KwSkip(req, t))
    case KwSkip(req, t) =>
      var l := LinkOf(s.k, req);
      if l.To? && DataOf(s.k.data, req) == [] then ReturnFront(s, a, req, KwWrite(l.id, t))
      else Go(s, a, KwWrite(req, t))
    case KwDrain(req, t) =>
      var l := LinkOf(s.k, req);
      if l.To? && DataOf(s.k.data, req) == [] then ReturnFront(s, a, req, KwDrain(l.id, t))
      else Go(s, a, KwTail(req, t))
    case KwTail(req, t) =>
      Go(s, a, if t.Some? then Cas(req, t.value, req == t.value, KeepWriter) else KwWalk(req, req))
    case KwWalk(req, at) =>
      var l := LinkOf(s.k, at);
      Go(s, a, if l.To? then KwWalk(req, l.id) else KwTail(req, Some(at)))
    case Cas(req, oldHead, singular, caller) => CasStep(s, a, req, oldHead, singular, caller)
    case RevLoad(req, oldHead, newHead, p, tail, caller) =>
      Go(s, a, RevStore(req, oldHead, newHead, p, tail, caller, LinkOf(s.k, p)))
    case RevStore(req, oldHead, newHead, p, tail, caller, saved) =>
      var pc' := if !saved.To? then BadCheck
                 else if saved.id == oldHead then LinkOld(req, oldHead, newHead, To(p), caller)
                 else RevLoad(req, oldHead, newHead, saved.id, To(p), caller);
      GoWith(s, a, pc', SetLink(s.k, p, tail).(revFrom := Pred(s.k.revFrom)))
    case LinkOld(req, oldHead, newHead, tail, caller) =>
      GoWith(s, a, Incomplete(req, newHead, caller),
             SetLink(s.k, oldHead, tail).(linked := s.k.revEnd, revFrom := s.k.revEnd))
    case Failing(req) => Go(s, a, RelLoop(req)).(failed := true)
    case RelLoop(req) =>
      var l := LinkOf(s.k, req);
      if l.To? then ReturnFront(s, a, req, RelLoop(l.id)) else Go(s, a, RelClear(req))
    case RelClear(req) =>
      GoWith(s, a, Cas(req, req, true, Releaser), s.k.(data := s.k.data[req := []])).
        (log := s.log.(dropped := s.log.dropped || DataOf(s.k.data, req) != []))
    case ReturnLast(req, caller) =>
      if DataOf(s.k.data, req) != [] && !caller.Releaser? then Go(s, a, BadCheck)
      else GoWith(s, a, Idle, Forget(s.k, req)).
             (log := s.log.(returned := s.log.returned + multiset{req}, retiring := s.log.retiring - {req}))
    case _ => s
  }

  function CasStep(s: State, a: nat, req: nat, oldHead: nat, singular: bool, caller: Caller): State {
    if LinkOf(s.k, oldHead) != Null then Go(s, a, BadCheck)
    else
      var noMore := DataOf(s.k.data, oldHead) == [] && singular;
      if s.k.head == Some(oldHead) then
        if noMore then
          var log := Consumed(s, req);
          GoWith(s, a, ReturnLast(req, caller), PopFront(s.k).(head := None)).
            (log := log.(retiring := log.retiring + {req}))
        else Go(s, a, Incomplete(req, oldHead, caller))
      else
        var newHead := if s.k.head.Some? then s.k.head.value else oldHead;
        GoWith(s, a, RevLoad(req, oldHead, newHead, newHead, Null, caller),
               s.k.(revFrom := |s.k.u|, revEnd := |s.k.u|))
  }

  // ---- Invariant -------------------------------------------------------------------

  predicate IsOwner(pc: Pc) {
    !pc.Idle? && !pc.PubLink? && !pc.ReturnLast? && !pc.BadCheck?
  }

  predicate CallerOf(pc: Pc, c: Caller) {
    (pc.Cas? || pc.RevLoad? || pc.RevStore? || pc.LinkOld?) && pc.caller == c
  }

  /** The owner is past the point where the endpoint was set failed. */
  predicate Releasing(pc: Pc) {
    pc.RelLoop? || pc.RelClear? || CallerOf(pc, Releaser)
  }

  /** The owner may still send. */
  predicate MaySend(pc: Pc) {
    IsOwner(pc) && !pc.OwnNull? && !pc.OwnCheck? && !pc.Failing? && !Releasing(pc)
  }

  predicate TailOk(k: Queue, t: Option<nat>) {
    t.Some? ==> 1 <= k.linked <= |k.u| && t.value == k.u[k.linked - 1]
  }

  /** What the owner knows of the queue. */
  predicate OwnerOk(k: Queue, pc: Pc)
    requires IsOwner(pc)
  {
    && k.u != [] && 1 <= k.linked <= k.revFrom <= k.revEnd <= |k.u|
    && pc.req == k.u[0]
    && k.bare == pc.OwnNull?
    && match pc {
         case OwnNull(_) => true
         case OwnCheck(_) => Steady(k) && k.linked == 1
         case OwnHandshake(_) => Steady(k) && k.linked == 1
         case FirstWrite(_) => Steady(k) && k.linked == 1
         case KwTop(_, t) => Steady(k) && TailOk(k, t)
         case KwSkip(_, t) => Steady(k) && TailOk(k, t)
         case KwWrite(_, t) => Steady(k) && TailOk(k, t)
         case KwDrain(_, t) => Steady(k) && TailOk(k, t)
         case KwTail(_, t) => Steady(k) && TailOk(k, t)
         case KwWalk(_, at) => Steady(k) && at in k.u[..k.linked]
         case Cas(_, oldHead, singular, caller) =>
           && Steady(k) && oldHead == k.u[k.linked - 1] && singular == (k.linked == 1)
           && (caller.Releaser? ==> k.linked == 1 && DataOf(k.data, pc.req) == [])
         case RevLoad(_, oldHead, newHead, p, tail, _) => RevOk(k, oldHead, newHead, p, tail)
         case RevStore(_, oldHead, newHead, p, tail, _, saved) =>
           && RevOk(k, oldHead, newHead, p, tail)
           && saved == To(k.u[k.revFrom - 2]) && LinkOf(k, p) == saved
         case LinkOld(_, oldHead, newHead, tail, _) =>
           && oldHead == k.u[k.linked - 1] && newHead == k.u[k.revEnd - 1] && tail == Reversed(k)
           && k.linked == k.revFrom < k.revEnd
         case RelClear(_) => Steady(k) && k.linked == 1
         case _ => Steady(k)
       }
  }

  predicate RevOk(k: Queue, oldHead: nat, newHead: nat, p: nat, tail: Link)
    requires 1 <= k.linked <= k.revFrom <= k.revEnd <= |k.u|
  {
    && oldHead == k.u[k.linked - 1] && newHead == k.u[k.revEnd - 1] && tail == Reversed(k)
    && k.linked < k.revFrom && p == k.u[k.revFrom - 1]
  }

  ghost predicate PcOk(k: Queue, retiring: set<nat>, failed: bool, pc: Pc) {
    && !pc.BadCheck?
    && (IsOwner(pc) ==> OwnerOk(k, pc))
    && (Releasing(pc) ==> failed)
    && (pc.PubLink? ==> (pc.q, pc.prev) in Loose(k))
    && (pc.ReturnLast? ==> pc.req in retiring && DataOf(k.data, pc.req) == [])
  }

  ghost predicate PcsOk(s: State) {
    forall a :: a in s.threads ==> PcOk(s.k, s.log.retiring, s.failed, s.threads[a])
  }

  predicate SameRequest(x: Pc, y: Pc) {
    || (x.PubLink? && y.PubLink? && x.q == y.q)
    || (x.ReturnLast? && y.ReturnLast? && x.req == y.req)
  }

  /** A request is linked, and returned at the end, by one thread only. */
  ghost predicate Unique(m: map<nat, Pc>) {
    forall a, b :: a in m && b in m && SameRequest(m[a], m[b]) ==> a == b
  }

  predicate Links(pc: Pc, x: (nat, nat)) {
    pc.PubLink? && (pc.q, pc.prev) == x
  }

  predicate Retires(pc: Pc, q: nat) {
    pc.ReturnLast? && pc.req == q
  }

  /** Nobody spins for ever on a link that no producer is about to store, and
      every request that left the queue is returned by somebody. */
  ghost predicate NothingStranded(s: State) {
    && (forall x :: x in Loose(s.k) ==> exists a :: a in s.threads && Links(s.threads[a], x))
    && (forall q :: q in s.log.retiring ==> exists a :: a in s.threads && Retires(s.threads[a], q))
  }

  ghost predicate Token(s: State) {
    && Count(s.threads, IsOwner) + Bit(s.pending.Some?) == Bit(s.k.u != [])
    && (s.pending.Some? ==> s.k.u != [] && s.pending.value == s.k.u[0] && Steady(s.k) && !s.k.bare)
  }

  ghost predicate Books(k: Queue, log: Log) {
    && log.published == log.consumed + k.u
    && multiset(log.consumed) == log.returned + multiset(log.retiring)
    && k.next.Keys == (set q | q in k.u) + log.retiring
    && (forall q :: q in log.retiring ==> q !in k.u)
  }

  ghost predicate Stream(k: Queue, log: Log) {
    && log.wire <= log.stream
    && (!log.dropped ==> log.wire + Bytes(k.data, k.u) == log.stream)
  }

  /** After bytes were thrown away nothing is sent any more. */
  ghost predicate DropSafe(s: State) {
    s.log.dropped ==>
      && (forall a :: a in s.threads ==> !MaySend(s.threads[a]) && (IsOwner(s.threads[a]) && !s.threads[a].Failing? ==> s.failed))
      && s.pending == None
      && (s.k.u == [] ==> s.failed)
  }

  ghost predicate Inv(s: State) {
    && Shape(s.k)
    && PcsOk(s)
    && Unique(s.threads)
    && NothingStranded(s)
    && Token(s)
    && Books(s.k, s.log)
    && Stream(s.k, s.log)
    && DropSafe(s)
  }

  // ---- Steps of the owner -------------------------------------------------------------

  /** The owner has no rival. */
  lemma OwnerIsAlone(s: State, a: nat, b: nat)
    requires Token(s) && a in s.threads && IsOwner(s.threads[a])
    ensures s.pending == None
    ensures b in s.threads && IsOwner(s.threads[b]) ==> b == a
  {
    CountMoves(s.threads, a, Idle, IsOwner);
    if b in s.threads && IsOwner(s.threads[b]) { CountOne(s.threads, IsOwner, a, b); }
  }

  /** What a step of the owner leaves behind for the write right. */
  predicate RightOk(t: State, pc: Pc) {
    if IsOwner(pc) then t.pending == None && t.k.u != []
    else if pc.Idle? then t.k.u != [] && t.pending == Some(t.k.u[0]) && Steady(t.k) && !t.k.bare
    else pc.ReturnLast? && t.pending == None && t.k.u == []
  }

  predicate RetiringOk(s: State, t: State, pc: Pc) {
    t.log.retiring == if pc.ReturnLast? then s.log.retiring + {pc.req} else s.log.retiring
  }

  predicate DropOk(t: State, pc: Pc) {
    t.log.dropped ==>
      !MaySend(pc) && (IsOwner(pc) && !pc.Failing? ==> t.failed) && t.pending == None && (t.k.u == [] ==> t.failed)
  }

  ghost predicate SameData(ids: set<nat>, d: map<nat, seq<Byte>>, e: map<nat, seq<Byte>>) {
    forall q :: q in ids ==> DataOf(e, q) == DataOf(d, q)
  }

  lemma OwnerKeepsPcs(s: State, t: State, a: nat, pc: Pc)
    requires Inv(s) && a in s.threads && IsOwner(s.threads[a]) && t.threads == s.threads[a := pc]
    requires Loose(t.k) == Loose(s.k) && PcOk(t.k, t.log.retiring, t.failed, pc) && RetiringOk(s, t, pc)
    requires SameData(s.log.retiring, s.k.data, t.k.data)
    requires s.failed ==> t.failed
    ensures PcsOk(t)
  {
    forall b | b in t.threads ensures PcOk(t.k, t.log.retiring, t.failed, t.threads[b]) {
      if b != a {
        assert PcOk(s.k, s.log.retiring, s.failed, s.threads[b]);
        OwnerIsAlone(s, a, b);
      }
    }
  }

  lemma OwnerKeepsStranded(s: State, t: State, a: nat, pc: Pc)
    requires NothingStranded(s) && a in s.threads && IsOwner(s.threads[a]) && t.threads == s.threads[a := pc]
    requires Loose(t.k) == Loose(s.k) && RetiringOk(s, t, pc)
    ensures NothingStranded(t)
  {
    forall x | x in Loose(t.k) ensures exists b :: b in t.threads && Links(t.threads[b], x) {
      var b :| b in s.threads && Links(s.threads[b], x);
      assert b in t.threads && Links(t.threads[b], x);
    }
    forall q | q in t.log.retiring ensures exists b :: b in t.threads && Retires(t.threads[b], q) {
      if q in s.log.retiring {
        var b :| b in s.threads && Retires(s.threads[b], q);
        assert b in t.threads && Retires(t.threads[b], q);
      } else {
        assert Retires(t.threads[a], q);
      }
    }
  }

  lemma OwnerKeepsInv(s: State, t: State, a: nat, pc: Pc)
    requires Inv(s) && a in s.threads && IsOwner(s.threads[a]) && t.threads == s.threads[a := pc]
    requires Shape(t.k) && Loose(t.k) == Loose(s.k)
    requires PcOk(t.k, t.log.retiring, t.failed, pc) && !pc.PubLink?
    requires RetiringOk(s, t, pc) && (pc.ReturnLast? ==> pc.req !in s.log.retiring)
    requires SameData(s.log.retiring, s.k.data, t.k.data)
    requires s.failed ==> t.failed
    requires RightOk(t, pc) && DropOk(t, pc)
    requires Books(t.k, t.log) && Stream(t.k, t.log)
    ensures Inv(t)
  {
    hide Loose;
    OwnerKeepsPcs(s, t, a, pc);
    OwnerKeepsStranded(s, t, a, pc);
    OwnerKeepsToken(s, t, a, pc);
    OwnerKeepsUnique(s, t, a, pc);
    OwnerKeepsDropSafe(s, t, a, pc);
  }

  lemma OwnerKeepsToken(s: State, t: State, a: nat, pc: Pc)
    requires Token(s) && a in s.threads && IsOwner(s.threads[a]) && t.threads == s.threads[a := pc]
    requires RightOk(t, pc)
    ensures Token(t)
  {
    hide Counting.Count;
    CountMoves(s.threads, a, pc, IsOwner);
  }

  lemma OwnerKeepsUnique(s: State, t: State, a: nat, pc: Pc)
    requires Inv(s) && a in s.threads && IsOwner(s.threads[a]) && t.threads == s.threads[a := pc]
    requires !pc.PubLink? && (pc.ReturnLast? ==> pc.req !in s.log.retiring)
    ensures Unique(t.threads)
  {
    forall x, y | x in t.threads && y in t.threads && SameRequest(t.threads[x], t.threads[y]) ensures x == y {
      if x != a { assert PcOk(s.k, s.log.retiring, s.failed, s.threads[x]); }
      if y != a { assert PcOk(s.k, s.log.retiring, s.failed, s.threads[y]); }
    }
  }

  lemma OwnerKeepsDropSafe(s: State, t: State, a: nat, pc: Pc)
    requires Inv(s) && a in s.threads && IsOwner(s.threads[a]) && t.threads == s.threads[a := pc]
    requires DropOk(t, pc)
    ensures DropSafe(t)
  {
    forall b | b in t.threads && b != a ensures !IsOwner(t.threads[b]) { OwnerIsAlone(s, a, b); }
  }

  ghost predicate Ready(s: State, a: nat, pc: Pc) {
    Inv(s) && a in s.threads && s.threads[a] == pc && IsOwner(pc)
  }

  lemma ReadyFacts(s: State, a: nat, pc: Pc)
    requires Ready(s, a, pc)
    ensures OwnerOk(s.k, pc) && (Releasing(pc) ==> s.failed) && s.pending == None
    ensures s.log.dropped ==> !MaySend(pc) && (!pc.Failing? ==> s.failed)
    ensures Shape(s.k) && Books(s.k, s.log) && Stream(s.k, s.log)
  {
    assert PcOk(s.k, s.log.retiring, s.failed, s.threads[a]);
    OwnerIsAlone(s, a, a);
  }

  /** Steps that only move the owner. */
  lemma QuietKeepsInv(s: State, a: nat, pc: Pc, pc': Pc)
    requires Ready(s, a, pc) && IsOwner(pc') && OwnerOk(s.k, pc') && (Releasing(pc') ==> s.failed)
    requires s.log.dropped ==> !MaySend(pc') && (!pc'.Failing? ==> s.failed)
    ensures Inv(Go(s, a, pc'))
  {
    hide Loose, Shape, Books, Stream;
    hide Inv;
    ReadyFacts(s, a, pc);
    OwnerKeepsInv(s, Go(s, a, pc'), a, pc');
  }

  /** The link of a request inside the forward chain. */
  lemma ChainLink(k: Queue, i: nat)
    requires Shape(k) && !k.bare && i < k.linked && k.linked <= |k.u|
    ensures LinkOf(k, k.u[i]) == if i + 1 < k.linked then To(k.u[i + 1]) else Null
  {
    assert LinkOk(k, i);
  }

  lemma EarlyStepKeepsInv(s: State, a: nat, pc: Pc)
    requires Ready(s, a, pc) && (pc.OwnCheck? || pc.OwnHandshake? || pc.StartKeep? || pc.KwTop?)
    ensures Inv(StepOf(s, a, pc))
  {
    hide Inv, Shape, Books, Stream, Loose;
    ReadyFacts(s, a, pc);
    QuietKeepsInv(s, a, pc, StepOf(s, a, pc).threads[a]);
  }

  lemma WalkStepOk(k: Queue, req: nat, at: nat)
    requires Shape(k) && OwnerOk(k, KwWalk(req, at))
    ensures var l := LinkOf(k, at); OwnerOk(k, if l.To? then KwWalk(req, l.id) else KwTail(req, Some(at)))
  {
    var i :| 0 <= i < k.linked && k.u[..k.linked][i] == at;
    ChainLink(k, i);
    assert i + 1 < k.linked ==> k.u[..k.linked][i + 1] == k.u[i + 1];
  }

  lemma WalkStepKeepsInv(s: State, a: nat, req: nat, at: nat)
    requires Ready(s, a, KwWalk(req, at))
    ensures Inv(StepOf(s, a, KwWalk(req, at)))
  {
    hide Inv, Shape, Books, Stream;
    ReadyFacts(s, a, KwWalk(req, at));
    WalkStepOk(s.k, req, at);
    hide OwnerOk;
    QuietKeepsInv(s, a, KwWalk(req, at), StepOf(s, a, KwWalk(req, at)).threads[a]);
  }

  lemma TailStepKeepsInv(s: State, a: nat, pc: Pc)
    requires Ready(s, a, pc) && pc.KwTail?
    ensures Inv(StepOf(s, a, pc))
  {
    hide Inv;
    ReadyFacts(s, a, pc);
    var k := s.k;
    assert k.linked == 1 <==> k.u[0] == k.u[k.linked - 1];
    assert k.u[..k.linked][0] == k.u[0];
    hide Shape, Books, Stream;
    QuietKeepsInv(s, a, pc, StepOf(s, a, pc).threads[a]);
  }

  lemma FailingKeepsInv(s: State, a: nat, req: nat)
    requires Ready(s, a, Failing(req))
    ensures Inv(StepOf(s, a, Failing(req)))
  {
    hide Loose, Shape, Books, Stream;
    hide Inv;
    ReadyFacts(s, a, Failing(req));
    OwnerKeepsInv(s, StepOf(s, a, Failing(req)), a, RelLoop(req));
  }

  lemma ParkKeepsInv(s: State, a: nat, req: nat)
    requires Ready(s, a, Park(req))
    ensures Inv(StepOf(s, a, Park(req)))
  {
    hide Loose, Shape, Books, Stream;
    hide Inv;
    ReadyFacts(s, a, Park(req));
    OwnerKeepsInv(s, StepOf(s, a, Park(req)), a, Idle);
  }

  /** Storing a link, or moving the history marks, touches neither the books
      nor the bytes. */
  lemma RelinkBooks(k: Queue, j: Queue, log: Log, i: nat, l: Link)
    requires Shape(k) && Books(k, log) && Stream(k, log) && i < |k.u|
    requires j.u == k.u && j.data == k.data && j.next == k.next[k.u[i] := l]
    ensures Books(j, log) && Stream(j, log)
  {
    assert j.next.Keys == k.next.Keys;
  }

  lemma OwnNullKeepsInv(s: State, a: nat, req: nat)
    requires Ready(s, a, OwnNull(req))
    ensures Inv(StepOf(s, a, OwnNull(req)))
  {
    hide Inv, Loose, Shape, Books, Stream;
    ReadyFacts(s, a, OwnNull(req));
    var t := StepOf(s, a, OwnNull(req));
    NullShape(s.k);
    RelinkBooks(s.k, t.k, s.log, 0, Null);
    OwnNullOk(s.k, t.k, req);
    hide OwnerOk;
    OwnerKeepsInv(s, t, a, OwnCheck(req));
  }

  lemma OwnNullOk(k: Queue, j: Queue, req: nat)
    requires Shape(k) && OwnerOk(k, OwnNull(req)) && j == SetLink(k, req, Null).(bare := false)
    ensures OwnerOk(j, OwnCheck(req))
  {
  }

  // Returning the front request.

  lemma FrontIds(u: seq<nat>)
    requires Distinct(u) && u != []
    ensures u == [u[0]] + u[1..] && u[0] !in u[1..]
    ensures (set q | q in u) == (set q | q in u[1..]) + {u[0]}
  {
    assert forall i :: 0 <= i < |u[1..]| ==> u[1..][i] == u[i + 1];
    forall q | q in u ensures q == u[0] || q in u[1..] {
      var i :| 0 <= i < |u| && u[i] == q;
      assert i > 0 ==> u[1..][i - 1] == q;
    }
  }

  lemma FrontKeys(k: Queue, j: Queue, retiring: set<nat>)
    requires Distinct(k.u) && k.u != [] && j == Forget(PopFront(k), k.u[0])
    requires k.next.Keys == (set q | q in k.u) + retiring && (forall q :: q in retiring ==> q !in k.u)
    ensures j.next.Keys == (set q | q in j.u) + retiring && (forall q :: q in retiring ==> q !in j.u)
    ensures k.u[0] !in retiring
  {
    FrontIds(k.u);
    assert k.u[0] in k.u;
    assert j.next.Keys == k.next.Keys - {k.u[0]};
    forall q | q in retiring ensures q !in j.u {
      assert q in j.u ==> q in k.u;
    }
  }

  lemma ReturnedOneMore(consumed: seq<nat>, q: nat, returned: multiset<nat>, retiring: multiset<nat>)
    requires multiset(consumed) == returned + retiring
    ensures multiset(consumed + [q]) == (returned + multiset{q}) + retiring
  {
  }

  lemma FrontBooks(k: Queue, log: Log, j: Queue)
    requires Distinct(k.u) && k.u != [] && Books(k, log) && j == Forget(PopFront(k), k.u[0])
    ensures Books(j, log.(consumed := log.consumed + [k.u[0]], returned := log.returned + multiset{k.u[0]}))
    ensures k.u[0] !in log.retiring
  {
    var q := k.u[0];
    FrontKeys(k, j, log.retiring);
    assert log.published == (log.consumed + [q]) + j.u by { FrontIds(k.u); }
    ReturnedOneMore(log.consumed, q, log.returned, multiset(log.retiring));
    hide Distinct, Forget, PopFront;
  }

  lemma FrontStream(k: Queue, log: Log, j: Queue)
    requires Shape(k) && Stream(k, log) && k.linked >= 2 && j == Forget(PopFront(k), k.u[0])
    ensures Stream(j, log.(dropped := log.dropped || DataOf(k.data, k.u[0]) != []))
  {
    forall i | 0 <= i < |j.u| ensures DataOf(k.data, j.u[i]) == DataOf(j.data, j.u[i]) {
      assert j.u[i] == k.u[i + 1];
    }
    BytesSame(k.data, j.data, j.u);
  }

  /** Where the owner goes on after returning the front request. */
  function AfterFront(k: Queue, pc: Pc): Pc
    requires |k.u| >= 2 && (pc.KwSkip? || pc.KwDrain? || pc.RelLoop?)
  {
    match pc
    case KwSkip(_, t) => KwWrite(k.u[1], t)
    case KwDrain(_, t) => KwDrain(k.u[1], t)
    case RelLoop(_) => RelLoop(k.u[1])
  }

  lemma AfterFrontOk(k: Queue, pc: Pc)
    requires Shape(k) && k.linked >= 2 && (pc.KwSkip? || pc.KwDrain? || pc.RelLoop?) && OwnerOk(k, pc)
    ensures OwnerOk(Forget(PopFront(k), k.u[0]), AfterFront(k, pc))
  {
  }

  lemma FrontData(k: Queue, log: Log)
    requires Shape(k) && Books(k, log) && k.u != []
    ensures SameData(log.retiring, k.data, Forget(PopFront(k), k.u[0]).data)
  {
  }

  lemma ReturnFrontKeepsInv(s: State, a: nat, pc: Pc)
    requires Ready(s, a, pc) && s.k.linked >= 2 && |s.k.u| >= 2
    requires pc.KwSkip? || pc.KwDrain? || pc.RelLoop?
    requires DataOf(s.k.data, s.k.u[0]) == [] || pc.RelLoop?
    ensures Inv(ReturnFront(s, a, s.k.u[0], AfterFront(s.k, pc)))
  {
    hide Inv, Loose, Shape, Books, Stream, SameData, OwnerOk, PopFront, Forget, Distinct, Bytes, DataOf;
    ReadyFacts(s, a, pc);
    var t := ReturnFront(s, a, s.k.u[0], AfterFront(s.k, pc));
    PopShape(s.k);
    FrontBooks(s.k, s.log, t.k);
    FrontStream(s.k, s.log, t.k);
    FrontData(s.k, s.log);
    AfterFrontOk(s.k, pc);
    FrontLog(s, a, AfterFront(s.k, pc));
    OwnerKeepsInv(s, t, a, AfterFront(s.k, pc));
  }

  lemma FrontLog(s: State, a: nat, pc: Pc)
    requires s.k.u != []
    requires Books(Forget(PopFront(s.k), s.k.u[0]),
               s.log.(consumed := s.log.consumed + [s.k.u[0]], returned := s.log.returned + multiset{s.k.u[0]}))
    requires Stream(Forget(PopFront(s.k), s.k.u[0]), s.log.(dropped := s.log.dropped || DataOf(s.k.data, s.k.u[0]) != []))
    ensures var t := ReturnFront(s, a, s.k.u[0], pc); Books(t.k, t.log) && Stream(t.k, t.log)
  {
  }

  lemma DrainStepKeepsInv(s: State, a: nat, pc: Pc)
    requires Ready(s, a, pc) && (pc.KwSkip? || pc.KwDrain? || pc.RelLoop?)
    ensures Inv(StepOf(s, a, pc))
  {
    hide Inv, Shape, Books, Stream, Loose;
    ReadyFacts(s, a, pc);
    ChainLink(s.k, 0);
    if s.k.linked >= 2 && (pc.RelLoop? || DataOf(s.k.data, pc.req) == []) {
      ReturnFrontKeepsInv(s, a, pc);
    } else {
      DrainedKeepsInv(s, a, pc);
    }
  }

  lemma DrainedKeepsInv(s: State, a: nat, pc: Pc)
    requires Ready(s, a, pc) && (pc.KwSkip? || pc.KwDrain? || pc.RelLoop?)
    requires s.k.linked < 2 || !(pc.RelLoop? || DataOf(s.k.data, pc.req) == [])
    ensures Inv(StepOf(s, a, pc))
  {
    hide Inv, Shape, Books, Stream, Loose;
    ReadyFacts(s, a, pc);
    ChainLink(s.k, 0);
    QuietKeepsInv(s, a, pc, StepOf(s, a, pc).threads[a]);
  }

  // IsWriteComplete.

  lemma IncompleteOk(k: Queue, req: nat, newTail: nat, caller: Caller)
    requires k.u != [] && 1 <= k.linked <= |k.u| && Steady(k) && !k.bare
    requires req == k.u[0] && newTail == k.u[k.linked - 1]
    ensures OwnerOk(k, Incomplete(req, newTail, caller))
  {
  }

  lemma NoNewRequestKeepsInv(s: State, a: nat, pc: Pc)
    requires Ready(s, a, pc) && pc.Cas? && s.k.head == Some(pc.oldHead)
    requires DataOf(s.k.data, pc.oldHead) != [] || !pc.singular
    ensures Inv(StepOf(s, a, pc))
  {
    hide Inv, Books, Stream;
    ReadyFacts(s, a, pc);
    ChainLink(s.k, s.k.linked - 1);
    IncompleteOk(s.k, pc.req, pc.oldHead, pc.caller);
    hide Shape, OwnerOk;
    QuietKeepsInv(s, a, pc, Incomplete(pc.req, pc.oldHead, pc.caller));
  }

  lemma LastBooks(k: Queue, log: Log)
    requires Shape(k) && Books(k, log) && |k.u| == 1
    ensures Books(PopFront(k).(head := None), log.(consumed := log.consumed + k.u, retiring := log.retiring + {k.u[0]}))
    ensures k.u[0] !in log.retiring
  {
    assert multiset(log.retiring + {k.u[0]}) == multiset(log.retiring) + multiset{k.u[0]};
  }

  /** The exchange to null: nothing that was published is left behind. */
  lemma CompleteKeepsInv(s: State, a: nat, pc: Pc)
    requires Ready(s, a, pc) && pc.Cas? && s.k.head == Some(pc.oldHead)
    requires DataOf(s.k.data, pc.oldHead) == [] && pc.singular
    ensures s.k.u == [pc.req] && Inv(StepOf(s, a, pc))
  {
    hide Inv, Loose;
    ReadyFacts(s, a, pc);
    ChainLink(s.k, s.k.linked - 1);
    assert s.k.u == [pc.req];
    LastPopShape(s.k);
    LastBooks(s.k, s.log);
    var t := StepOf(s, a, pc);
    assert Bytes(s.k.data, s.k.u) == DataOf(s.k.data, pc.req) + [];
    assert Stream(t.k, t.log);
    hide Shape, Books, Stream;
    OwnerKeepsInv(s, t, a, ReturnLast(pc.req, pc.caller));
  }

  lemma BeginReverseOk(k: Queue, pc: Pc)
    requires Shape(k) && pc.Cas? && OwnerOk(k, pc) && k.head != Some(pc.oldHead)
    ensures k.head.Some? && OwnerOk(k.(revFrom := |k.u|, revEnd := |k.u|),
                                   RevLoad(pc.req, pc.oldHead, k.head.value, k.head.value, Null, pc.caller))
  {
  }

  lemma BeginReverseQueue(k: Queue, log: Log, pc: Pc)
    requires Shape(k) && Books(k, log) && Stream(k, log) && pc.Cas? && OwnerOk(k, pc) && k.head != Some(pc.oldHead)
    ensures LinkOf(k, pc.oldHead) == Null && k.head.Some?
    ensures var j := k.(revFrom := |k.u|, revEnd := |k.u|);
      && Shape(j) && Loose(j) == Loose(k) && Books(j, log) && Stream(j, log)
      && OwnerOk(j, RevLoad(pc.req, pc.oldHead, k.head.value, k.head.value, Null, pc.caller))
  {
    hide Loose, Shape;
    ChainLink(k, k.linked - 1);
    BeginReverseShape(k);
    BeginReverseOk(k, pc);
  }

  lemma BeginReverseKeepsInv(s: State, a: nat, pc: Pc)
    requires Ready(s, a, pc) && pc.Cas? && s.k.head != Some(pc.oldHead)
    ensures Inv(StepOf(s, a, pc))
  {
    hide Inv, Loose, Shape, Books, Stream, OwnerOk;
    ReadyFacts(s, a, pc);
    BeginReverseQueue(s.k, s.log, pc);
    var t := StepOf(s, a, pc);
    OwnerKeepsInv(s, t, a, t.threads[a]);
  }

  lemma CasKeepsInv(s: State, a: nat, pc: Pc)
    requires Ready(s, a, pc) && pc.Cas?
    ensures Inv(StepOf(s, a, pc))
  {
    hide *;
    if s.k.head != Some(pc.oldHead) { BeginReverseKeepsInv(s, a, pc); }
    else if DataOf(s.k.data, pc.oldHead) == [] && pc.singular { CompleteKeepsInv(s, a, pc); }
    else { NoNewRequestKeepsInv(s, a, pc); }
  }

  lemma RevLoadOk(k: Queue, pc: Pc)
    requires Shape(k) && pc.RevLoad? && OwnerOk(k, pc) && LinkOf(k, pc.p) != Unconnected
    ensures OwnerOk(k, RevStore(pc.req, pc.oldHead, pc.newHead, pc.p, pc.tail, pc.caller, LinkOf(k, pc.p)))
  {
    assert LinkOk(k, k.revFrom - 1);
  }

  lemma RevLoadKeepsInv(s: State, a: nat, pc: Pc)
    requires Ready(s, a, pc) && pc.RevLoad? && CanStep(s.k, pc)
    ensures Inv(StepOf(s, a, pc))
  {
    hide Inv, Shape, Books, Stream;
    ReadyFacts(s, a, pc);
    RevLoadOk(s.k, pc);
    hide OwnerOk;
    QuietKeepsInv(s, a, pc, StepOf(s, a, pc).threads[a]);
  }

  function AfterReverse(pc: Pc): Pc
    requires pc.RevStore? && pc.saved.To?
  {
    if pc.saved.id == pc.oldHead then LinkOld(pc.req, pc.oldHead, pc.newHead, To(pc.p), pc.caller)
    else RevLoad(pc.req, pc.oldHead, pc.newHead, pc.saved.id, To(pc.p), pc.caller)
  }

  lemma AfterReverseOk(k: Queue, pc: Pc)
    requires Shape(k) && pc.RevStore? && OwnerOk(k, pc)
    ensures pc.saved.To?
    ensures OwnerOk(SetLink(k, pc.p, pc.tail).(revFrom := k.revFrom - 1), AfterReverse(pc))
    ensures k.linked < k.revFrom <= |k.u| && !k.bare && pc.p == k.u[k.revFrom - 1]
    ensures pc.tail == Reversed(k) && LinkOf(k, pc.p) != Unconnected
  {
    assert k.u[k.revFrom - 2] == k.u[k.linked - 1] <==> k.revFrom - 2 == k.linked - 1;
  }

  lemma ReverseQueue(k: Queue, log: Log, pc: Pc)
    requires Shape(k) && Books(k, log) && Stream(k, log) && pc.RevStore? && OwnerOk(k, pc)
    ensures pc.saved.To?
    ensures var j := SetLink(k, pc.p, pc.tail).(revFrom := Pred(k.revFrom));
      Shape(j) && Loose(j) == Loose(k) && OwnerOk(j, AfterReverse(pc)) && Books(j, log) && Stream(j, log)
  {
    hide Loose, Shape, Books, Stream, OwnerOk;
    AfterReverseOk(k, pc);
    ReverseShape(k);
    RelinkBooks(k, SetLink(k, pc.p, pc.tail).(revFrom := Pred(k.revFrom)), log, k.revFrom - 1, pc.tail);
  }

  lemma RevStoreKeepsInv(s: State, a: nat, pc: Pc)
    requires Ready(s, a, pc) && pc.RevStore?
    ensures Inv(StepOf(s, a, pc))
  {
    hide Inv, Loose, Shape, Books, Stream, OwnerOk;
    ReadyFacts(s, a, pc);
    ReverseQueue(s.k, s.log, pc);
    OwnerKeepsInv(s, StepOf(s, a, pc), a, AfterReverse(pc));
  }

  lemma JoinQueue(k: Queue, log: Log, pc: Pc)
    requires Shape(k) && Books(k, log) && Stream(k, log) && pc.LinkOld? && OwnerOk(k, pc)
    ensures var j := SetLink(k, pc.oldHead, pc.tail).(linked := k.revEnd, revFrom := k.revEnd);
      && Shape(j) && Loose(j) == Loose(k) && OwnerOk(j, Incomplete(pc.req, pc.newHead, pc.caller))
      && Books(j, log) && Stream(j, log)
  {
    hide Loose, Shape, Books, Stream;
    var j := SetLink(k, pc.oldHead, pc.tail).(linked := k.revEnd, revFrom := k.revEnd);
    JoinShape(k);
    RelinkBooks(k, j, log, k.linked - 1, pc.tail);
    IncompleteOk(j, pc.req, pc.newHead, pc.caller);
  }

  lemma LinkOldKeepsInv(s: State, a: nat, pc: Pc)
    requires Ready(s, a, pc) && pc.LinkOld?
    ensures Inv(StepOf(s, a, pc))
  {
    hide Inv, Loose, Shape, Books, Stream, OwnerOk;
    ReadyFacts(s, a, pc);
    JoinQueue(s.k, s.log, pc);
    assert OwnerOk(StepOf(s, a, pc).k, Incomplete(pc.req, pc.newHead, pc.caller));
    OwnerKeepsInv(s, StepOf(s, a, pc), a, Incomplete(pc.req, pc.newHead, pc.caller));
  }

  // Bytes.

  lemma ClearStream(k: Queue, log: Log, req: nat)
    requires Shape(k) && Stream(k, log) && k.u != [] && req == k.u[0]
    ensures Stream(k.(data := k.data[req := []]), log.(dropped := log.dropped || DataOf(k.data, req) != []))
  {
    BytesSplit(k.data, k.u, []);
  }

  lemma RelClearKeepsInv(s: State, a: nat, req: nat)
    requires Ready(s, a, RelClear(req))
    ensures Inv(StepOf(s, a, RelClear(req)))
  {
    hide Inv, Loose, Stream;
    ReadyFacts(s, a, RelClear(req));
    var t := StepOf(s, a, RelClear(req));
    ClearStream(s.k, s.log, req);
    DataOnlyShape(s.k, t.k);
    assert Books(t.k, t.log);
    hide Shape;
    OwnerKeepsInv(s, t, a, Cas(req, req, true, Releaser));
  }

  /** Links do not depend on the data. */
  lemma DataOnlyShape(k: Queue, j: Queue)
    requires Shape(k) && j == k.(data := j.data) && j.data.Keys == k.data.Keys
    ensures Shape(j) && Loose(j) == Loose(k)
  {
    forall n: nat | n < |j.u| ensures LinkOk(j, n) && LooseAt(j, n) == LooseAt(k, n) { assert LinkOk(k, n); }
    LooseSame(k, j);
  }

  lemma TargetsArePrefix(k: Queue, pc: Pc) returns (m: nat)
    requires Shape(k) && (pc.FirstWrite? || pc.KwWrite?) && OwnerOk(k, pc)
    ensures 1 <= m <= k.linked <= |k.u| && WriteTargets(k, pc) == k.u[..m]
  {
    if pc.FirstWrite? {
      m := 1;
    } else {
      WalkIsPrefix(k, 0, DATA_LIST_MAX);
      m := if DATA_LIST_MAX < k.linked then DATA_LIST_MAX else k.linked;
    }
  }

  /** Cutting the first requests leaves the bytes of the others alone. */
  lemma CutQueue(d: map<nat, seq<Byte>>, u: seq<nat>, m: nat, n: nat)
    requires Distinct(u) && m <= |u| && n <= |Bytes(d, u[..m])|
    ensures Bytes(d, u) == Bytes(d, u[..m])[..n] + Bytes(Cut(d, u[..m], n), u)
  {
    var ids, rest, e := u[..m], u[m..], Cut(d, u[..m], n);
    CutTakesAPrefix(d, ids, n);
    assert u == ids + rest;
    BytesConcat(d, ids, rest);
    BytesConcat(e, ids, rest);
    forall i | 0 <= i < |rest| ensures DataOf(d, rest[i]) == DataOf(e, rest[i]) {
      assert rest[i] == u[m + i];
      CutKeepsOthers(d, ids, n, rest[i]);
    }
    BytesSame(d, e, rest);
  }

  /** Sending takes bytes off the front of everything that is still queued. */
  lemma WriteStream(k: Queue, log: Log, m: nat, n: nat, lost: nat)
    requires Distinct(k.u) && Stream(k, log) && m <= |k.u| && n + lost <= |Bytes(k.data, k.u[..m])| && !log.dropped
    ensures Stream(k.(data := Cut(k.data, k.u[..m], n + lost)),
                   log.(wire := log.wire + Bytes(k.data, k.u[..m])[..n], dropped := lost > 0))
  {
    hide Bytes, Cut, Distinct;
    var b, all := Bytes(k.data, k.u[..m]), Bytes(k.data, k.u);
    CutQueue(k.data, k.u, m, n + lost);
    BytesPrefix(k.data, k.u, m);
    SentIsPrefix(log.wire, all, log.stream, b, n);
    if lost == 0 {
      SentAndRest(log.wire, b[..n], Bytes(Cut(k.data, k.u[..m], n), k.u), all, log.stream);
    }
  }

  lemma SentIsPrefix(wire: seq<Byte>, all: seq<Byte>, stream: seq<Byte>, b: seq<Byte>, n: nat)
    requires wire + all == stream && b <= all && n <= |b|
    ensures wire + b[..n] <= stream
  {
  }

  lemma SentAndRest(wire: seq<Byte>, sent: seq<Byte>, rest: seq<Byte>, all: seq<Byte>, stream: seq<Byte>)
    requires wire + all == stream && all == sent + rest
    ensures (wire + sent) + rest == stream
  {
  }

  lemma BytesPrefix(d: map<nat, seq<Byte>>, u: seq<nat>, m: nat)
    requires m <= |u|
    ensures Bytes(d, u[..m]) <= Bytes(d, u)
  {
    assert u == u[..m] + u[m..];
    BytesConcat(d, u[..m], u[m..]);
  }

  lemma CutFrame(k: Queue, log: Log, m: nat, n: nat)
    requires Shape(k) && Books(k, log) && m <= |k.u| && n <= |Bytes(k.data, k.u[..m])|
    ensures var j := k.(data := Cut(k.data, k.u[..m], n));
      && Shape(j) && Loose(j) == Loose(k) && Books(j, log)
      && SameData(log.retiring, k.data, j.data)
  {
    CutKeepsKeys(k.data, k.u[..m], n);
    forall q | q in log.retiring ensures DataOf(Cut(k.data, k.u[..m], n), q) == DataOf(k.data, q) {
      CutKeepsOthers(k.data, k.u[..m], n, q);
    }
    DataOnlyShape(k, k.(data := Cut(k.data, k.u[..m], n)));
  }

  /** Sending n bytes and losing more, then going to pc'. */
  function Sent(s: State, a: nat, pc': Pc, m: nat, n: nat, lost: nat): State
    requires m <= |s.k.u| && n <= |Bytes(s.k.data, s.k.u[..m])|
  {
    s.(k := s.k.(data := Cut(s.k.data, s.k.u[..m], n + lost)),
       threads := s.threads[a := pc'],
       log := s.log.(wire := s.log.wire + Bytes(s.k.data, s.k.u[..m])[..n], dropped := s.log.dropped || lost > 0))
  }

  lemma SentKeepsInv(s: State, a: nat, pc: Pc, pc': Pc, m: nat, n: nat, lost: nat)
    requires Ready(s, a, pc) && MaySend(pc) && m <= |s.k.u| && n + lost <= |Bytes(s.k.data, s.k.u[..m])|
    requires IsOwner(pc') && !Releasing(pc') && OwnerOk(s.k.(data := Cut(s.k.data, s.k.u[..m], n + lost)), pc')
    requires lost > 0 ==> pc'.Failing?
    ensures Inv(Sent(s, a, pc', m, n, lost))
  {
    hide Inv, Loose, Shape, Books, Stream, Bytes, Cut, OwnerOk, SameData;
    ReadyFacts(s, a, pc);
    var t := Sent(s, a, pc', m, n, lost);
    WriteStream(s.k, s.log, m, n, lost);
    CutFrame(s.k, s.log, m, n + lost);
    BooksFrame(t.k, s.log, t.log);
    OwnerKeepsInv(s, t, a, pc');
  }

  lemma WriteKeepsInv(s: State, a: nat, n: nat, fatal: bool, lost: nat)
    requires Inv(s) && Enabled(s, Write(a, n, fatal, lost))
    ensures Inv(Next(s, Write(a, n, fatal, lost)))
  {
    hide Inv, Loose, Shape, Books, Stream, Bytes, Cut, OwnerOk, SameData;
    var pc := s.threads[a];
    ReadyFacts(s, a, pc);
    var m := TargetsArePrefix(s.k, pc);
    var t := WriteStep(s, a, pc, n, fatal, lost);
    WriteOk(s.k, t.k, pc, t.threads[a]);
    assert t == Sent(s, a, t.threads[a], m, n, lost);
    SentKeepsInv(s, a, pc, t.threads[a], m, n, lost);
  }

  lemma BooksFrame(k: Queue, log: Log, log': Log)
    requires Books(k, log) && log' == log.(wire := log'.wire, dropped := log'.dropped)
    ensures Books(k, log')
  {
  }

  lemma WriteOk(k: Queue, j: Queue, pc: Pc, pc': Pc)
    requires (pc.FirstWrite? || pc.KwWrite?) && OwnerOk(k, pc) && j == k.(data := j.data)
    requires pc'.Failing? || (pc.FirstWrite? && pc' == Cas(pc.req, pc.req, true, FirstWriter)) || (pc.KwWrite? && pc' == KwDrain(pc.req, pc.curTail))
    requires pc'.Failing? ==> pc'.req == pc.req
    ensures OwnerOk(j, pc')
  {
  }

  // ---- Steps of the others ---------------------------------------------------------------

  lemma PushOwnerOk(k: Queue, q: nat, bytes: seq<Byte>, pc: Pc)
    requires Shape(k) && IsOwner(pc) && OwnerOk(k, pc) && q !in k.next
    ensures OwnerOk(Push(k, q, bytes), pc)
  {
    assert q !in k.u;
    var j := Push(k, q, bytes);
    assert forall i :: 0 <= i < |k.u| ==> j.u[i] == k.u[i];
    assert j.u[..k.linked] == k.u[..k.linked];
    if pc.RevStore? { assert pc.p in k.u; }
  }

  lemma PushBooks(k: Queue, log: Log, q: nat, bytes: seq<Byte>)
    requires Shape(k) && Books(k, log) && q !in k.next
    ensures Books(Push(k, q, bytes), log.(published := log.published + [q], stream := log.stream + bytes))
    ensures q !in log.retiring
  {
    hide Shape;
    assert (set x | x in Push(k, q, bytes).u) == (set x | x in k.u) + {q};
  }

  lemma PushBytes(d: map<nat, seq<Byte>>, u: seq<nat>, q: nat, bytes: seq<Byte>)
    requires q !in u
    ensures Bytes(d[q := bytes], u + [q]) == Bytes(d, u) + bytes
  {
    var e := d[q := bytes];
    BytesSame(d, e, u);
    BytesConcat(e, u, [q]);
    assert Bytes(e, [q]) == bytes;
  }

  lemma PushStream(k: Queue, log: Log, q: nat, bytes: seq<Byte>)
    requires q !in k.u && Stream(k, log)
    ensures Stream(Push(k, q, bytes), log.(published := log.published + [q], stream := log.stream + bytes))
  {
    hide Bytes;
    PushBytes(k.data, k.u, q, bytes);
    assert log.wire + (Bytes(k.data, k.u) + bytes) == (log.wire + Bytes(k.data, k.u)) + bytes;
  }

  lemma FreeIsUnqueued(k: Queue, q: nat)
    requires Shape(k) && q !in k.next
    ensures q !in k.u
  {
  }

  lemma Assemble(t: State)
    requires Shape(t.k) && PcsOk(t) && Unique(t.threads) && NothingStranded(t) && Token(t)
    requires Books(t.k, t.log) && Stream(t.k, t.log) && DropSafe(t)
    ensures Inv(t)
  {
  }

  lemma Parts(s: State)
    requires Inv(s)
    ensures Shape(s.k) && PcsOk(s) && Unique(s.threads) && NothingStranded(s) && Token(s)
    ensures Books(s.k, s.log) && Stream(s.k, s.log) && DropSafe(s)
  {
  }

  lemma LooseInQueue(k: Queue, x: (nat, nat))
    requires Shape(k) && x in Loose(k)
    ensures x.0 in k.u && x.0 in k.next
  {
    var i: nat :| i < |k.u| && LooseAt(k, i) && PairAt(k, i) == x;
  }

  lemma PushPcOk(k: Queue, log: Log, failed: bool, q: nat, bytes: seq<Byte>, pc: Pc)
    requires Shape(k) && Books(k, log) && q !in k.next && PcOk(k, log.retiring, failed, pc)
    ensures PcOk(Push(k, q, bytes), log.retiring, failed, pc)
  {
    hide Loose, Shape, Books, OwnerOk;
    PushShape(k, q, bytes);
    PushBooks(k, log, q, bytes);
    if IsOwner(pc) { PushOwnerOk(k, q, bytes, pc); }
  }

  lemma PublishKeepsPcs(s: State, t: State, a: nat, q: nat, bytes: seq<Byte>)
    requires Inv(s) && Enabled(s, Publish(a, q, bytes)) && t == Next(s, Publish(a, q, bytes))
    ensures PcsOk(t)
  {
    hide Inv, Loose, Shape, Books, Stream, Token, Unique, NothingStranded, DropSafe, OwnerOk;
    Parts(s);
    HeadIsLast(s.k);
    PushShape(s.k, q, bytes);
    if s.k.u == [] { FirstOwnerOk(t.k, q); }
    assert PcOk(t.k, t.log.retiring, t.failed, t.threads[a]);
    hide PcOk;
    forall b | b in s.threads && b != a ensures PcOk(t.k, t.log.retiring, t.failed, s.threads[b]) {
      PushPcOk(s.k, s.log, s.failed, q, bytes, s.threads[b]);
    }
  }

  lemma FirstOwnerOk(k: Queue, q: nat)
    requires k.u == [q] && k.bare && k.linked == k.revFrom == k.revEnd == 1
    ensures OwnerOk(k, OwnNull(q))
  {
  }

  lemma PublishKeepsDropSafe(s: State, t: State, a: nat, q: nat, bytes: seq<Byte>)
    requires Inv(s) && Enabled(s, Publish(a, q, bytes)) && t == Next(s, Publish(a, q, bytes))
    ensures DropSafe(t)
  {
    hide Inv, Loose, Shape, Books, Stream, Token, Unique, NothingStranded, PcsOk;
    Parts(s);
    HeadIsLast(s.k);
  }

  lemma PublishKeepsUnique(s: State, a: nat, q: nat, prev: nat)
    requires Inv(s) && PcOf(s, a).Idle? && q !in s.k.next
    ensures Unique(s.threads[a := PubLink(q, prev)]) && Unique(s.threads[a := OwnNull(q)])
  {
    forall b | b in s.threads && s.threads[b].PubLink? ensures s.threads[b].q != q {
      assert PcOk(s.k, s.log.retiring, s.failed, s.threads[b]);
      LooseInQueue(s.k, (s.threads[b].q, s.threads[b].prev));
    }
  }

  lemma PublishKeepsStranded(s: State, a: nat, q: nat, bytes: seq<Byte>)
    requires Inv(s) && Enabled(s, Publish(a, q, bytes))
    ensures NothingStranded(Next(s, Publish(a, q, bytes)))
  {
    hide Token, Books, Stream, DropSafe, Unique, PcsOk, Steady;
    var t := Next(s, Publish(a, q, bytes));
    PushShape(s.k, q, bytes);
    forall x | x in Loose(t.k) ensures exists b :: b in t.threads && Links(t.threads[b], x) {
      if x in Loose(s.k) {
        var b :| b in s.threads && Links(s.threads[b], x);
        assert b in t.threads && Links(t.threads[b], x);
      } else {
        assert Links(t.threads[a], x);
      }
    }
    forall x | x in t.log.retiring ensures exists b :: b in t.threads && Retires(t.threads[b], x) {
      var b :| b in s.threads && Retires(s.threads[b], x);
      assert b in t.threads && Retires(t.threads[b], x);
    }
  }

  lemma PublishKeepsToken(s: State, a: nat, pc: Pc, k: Queue)
    requires Token(s) && PcOf(s, a).Idle? && (s.k.u == [] <==> IsOwner(pc)) && k.u != []
    requires s.k.u != [] ==> k.u[0] == s.k.u[0] && Steady(k) == Steady(s.k) && k.bare == s.k.bare
    ensures Token(s.(threads := s.threads[a := pc], k := k))
  {
    hide Counting.Count;
    CountMoves(s.threads, a, pc, IsOwner);
  }

  lemma PublishKeepsInv(s: State, a: nat, q: nat, bytes: seq<Byte>)
    requires Inv(s) && Enabled(s, Publish(a, q, bytes))
    ensures Inv(Next(s, Publish(a, q, bytes)))
  {
    hide Inv, Loose, Shape, Books, Stream, Token, Unique, NothingStranded, PcsOk, DropSafe;
    Parts(s);
    var t := Next(s, Publish(a, q, bytes));
    HeadIsLast(s.k);
    PushShape(s.k, q, bytes);
    PushBooks(s.k, s.log, q, bytes);
    FreeIsUnqueued(s.k, q);
    PushStream(s.k, s.log, q, bytes);
    PublishKeepsDropSafe(s, t, a, q, bytes);
    PublishKeepsPcs(s, t, a, q, bytes);
    PublishKeepsUnique(s, a, q, if s.k.head.Some? then s.k.head.value else 0);
    PublishKeepsStranded(s, a, q, bytes);
    PublishKeepsToken(s, a, t.threads[a], t.k);
    TokenFrame(s.(threads := t.threads, k := t.k), t);
    Assemble(t);
  }

  lemma HeadIsLast(k: Queue)
    requires Shape(k)
    ensures k.head == Last(k.u)
  {
  }

  lemma TokenFrame(s: State, t: State)
    requires Token(s) && t.threads == s.threads && t.pending == s.pending && t.k == s.k
    ensures Token(t)
  {
    hide Counting.Count;
  }

  lemma LinkOwnerOk(k: Queue, i: nat, pc: Pc)
    requires Shape(k) && IsOwner(pc) && OwnerOk(k, pc) && LooseAt(k, i)
    ensures OwnerOk(SetLink(k, k.u[i], To(k.u[i - 1])), pc)
  {
  }

  lemma LinkKeepsPcs(s: State, t: State, a: nat, i: nat)
    requires Inv(s) && LooseAt(s.k, i) && a in s.threads && Links(s.threads[a], PairAt(s.k, i))
    requires t == s.(k := SetLink(s.k, s.k.u[i], To(s.k.u[i - 1])), threads := s.threads[a := Idle])
    ensures PcsOk(t)
  {
    hide Inv, Loose, Shape, Books, Stream, Token, NothingStranded, DropSafe, OwnerOk;
    Parts(s);
    LinkShape(s.k, i);
    forall b | b in s.threads && b != a ensures PcOk(t.k, t.log.retiring, t.failed, s.threads[b]) {
      var pc := s.threads[b];
      assert PcOk(s.k, s.log.retiring, s.failed, pc);
      if IsOwner(pc) { LinkOwnerOk(s.k, i, pc); }
      assert !SameRequest(s.threads[a], pc);
    }
  }

  /** A thread that owned nothing becomes idle. */
  lemma IdleKeepsDropSafe(s: State, t: State, a: nat)
    requires DropSafe(s) && t.threads == s.threads[a := Idle] && t.failed == s.failed && t.pending == s.pending
    requires t.log.dropped == s.log.dropped && t.k.u == s.k.u
    ensures DropSafe(t)
  {
  }

  lemma LinkKeepsInv(s: State, a: nat, pc: Pc)
    requires Inv(s) && a in s.threads && s.threads[a] == pc && pc.PubLink?
    ensures Inv(StepOf(s, a, pc))
  {
    hide Inv, Shape, Books, Stream, Token, Unique, NothingStranded, DropSafe;
    Parts(s);
    assert PcOk(s.k, s.log.retiring, s.failed, s.threads[a]);
    var i: nat :| i < |s.k.u| && LooseAt(s.k, i) && PairAt(s.k, i) == (pc.q, pc.prev);
    var t := StepOf(s, a, pc);
    hide Loose, PcsOk, PcOk;
    LinkShape(s.k, i);
    RelinkBooks(s.k, t.k, s.log, i, To(pc.prev));
    LinkKeepsRest(s, t, a, (pc.q, pc.prev));
    LinkKeepsPcs(s, t, a, i);
    IdleKeepsDropSafe(s, t, a);
    Assemble(t);
  }

  lemma LinkKeepsRest(s: State, t: State, a: nat, x: (nat, nat))
    requires Inv(s) && a in s.threads && Links(s.threads[a], x)
    requires t == s.(k := t.k, threads := s.threads[a := Idle]) && Loose(t.k) == Loose(s.k) - {x}
    requires t.k == s.k.(next := t.k.next)
    ensures Unique(t.threads) && NothingStranded(t) && Token(t)
  {
    hide Loose, Shape, Books, Stream, Counting.Count, PcsOk;
    CountMoves(s.threads, a, Idle, IsOwner);
    forall y | y in Loose(t.k) ensures exists b :: b in t.threads && Links(t.threads[b], y) {
      var b :| b in s.threads && Links(s.threads[b], y);
      assert b in t.threads && Links(t.threads[b], y);
    }
    forall q | q in t.log.retiring ensures exists b :: b in t.threads && Retires(t.threads[b], q) {
      var b :| b in s.threads && Retires(s.threads[b], q);
      assert b in t.threads && Retires(t.threads[b], q);
    }
  }

  lemma ForgetOwnerOk(k: Queue, q: nat, pc: Pc)
    requires Shape(k) && IsOwner(pc) && OwnerOk(k, pc) && q !in k.u
    ensures OwnerOk(Forget(k, q), pc)
  {
    assert pc.req in k.u;
    if pc.RevStore? { assert pc.p in k.u; }
  }

  lemma ForgetStream(k: Queue, log: Log, q: nat)
    requires Shape(k) && Stream(k, log) && q !in k.u
    ensures Stream(Forget(k, q), log)
  {
    assert forall i :: 0 <= i < |k.u| ==> DataOf(k.data, k.u[i]) == DataOf(Forget(k, q).data, k.u[i]);
    BytesSame(k.data, Forget(k, q).data, k.u);
  }

  lemma ForgetBooks(k: Queue, log: Log, q: nat)
    requires Books(k, log) && q in log.retiring
    ensures Books(Forget(k, q), log.(returned := log.returned + multiset{q}, retiring := log.retiring - {q}))
    ensures q !in k.u
  {
    assert multiset(log.retiring) == multiset(log.retiring - {q}) + multiset{q};
  }

  lemma ReturnLastKeepsPcs(s: State, t: State, a: nat, q: nat, c: Caller)
    requires Inv(s) && a in s.threads && s.threads[a] == ReturnLast(q, c)
    requires t.k == Forget(s.k, q) && t.log.retiring == s.log.retiring - {q}
    requires t.threads == s.threads[a := Idle] && t.failed == s.failed
    ensures PcsOk(t)
  {
    hide Inv, Loose, Shape, Books, Stream, Token, NothingStranded, DropSafe, OwnerOk;
    Parts(s);
    assert PcOk(s.k, s.log.retiring, s.failed, s.threads[a]);
    ForgetBooks(s.k, s.log, q);
    ForgetShape(s.k, q);
    forall b | b in s.threads && b != a ensures PcOk(t.k, t.log.retiring, t.failed, s.threads[b]) {
      var pc := s.threads[b];
      assert PcOk(s.k, s.log.retiring, s.failed, pc);
      if IsOwner(pc) { ForgetOwnerOk(s.k, q, pc); }
      assert !SameRequest(s.threads[a], pc);
    }
  }

  lemma ReturnLastKeepsRest(s: State, t: State, a: nat, q: nat, c: Caller)
    requires Inv(s) && a in s.threads && s.threads[a] == ReturnLast(q, c)
    requires t.threads == s.threads[a := Idle] && t.k == Forget(s.k, q) && t.pending == s.pending
    requires Loose(t.k) == Loose(s.k) && t.log.retiring == s.log.retiring - {q}
    ensures Unique(t.threads) && NothingStranded(t) && Token(t)
  {
    hide Loose, Shape, Books, Stream, Counting.Count, PcsOk;
    CountMoves(s.threads, a, Idle, IsOwner);
    forall y | y in Loose(t.k) ensures exists b :: b in t.threads && Links(t.threads[b], y) {
      var b :| b in s.threads && Links(s.threads[b], y);
      assert b in t.threads && Links(t.threads[b], y);
    }
    forall x | x in t.log.retiring ensures exists b :: b in t.threads && Retires(t.threads[b], x) {
      var b :| b in s.threads && Retires(s.threads[b], x);
      assert b in t.threads && Retires(t.threads[b], x);
    }
  }

  lemma ReturnLastKeepsInv(s: State, a: nat, q: nat, c: Caller)
    requires Inv(s) && a in s.threads && s.threads[a] == ReturnLast(q, c)
    ensures Inv(StepOf(s, a, ReturnLast(q, c)))
  {
    hide Inv, Loose, Shape, Books, Stream, Token, Unique, NothingStranded, DropSafe;
    Parts(s);
    assert PcOk(s.k, s.log.retiring, s.failed, s.threads[a]);
    hide PcsOk, PcOk;
    var t := StepOf(s, a, ReturnLast(q, c));
    ForgetBooks(s.k, s.log, q);
    ForgetShape(s.k, q);
    ForgetStream(s.k, s.log, q);
    StreamFrame(t.k, s.log, t.log);
    ReturnLastKeepsPcs(s, t, a, q, c);
    ReturnLastKeepsRest(s, t, a, q, c);
    IdleKeepsDropSafe(s, t, a);
    Assemble(t);
  }

  lemma StreamFrame(k: Queue, log: Log, log': Log)
    requires Stream(k, log) && log'.wire == log.wire && log'.stream == log.stream && log'.dropped == log.dropped
    ensures Stream(k, log')
  {
  }

  lemma TakeKeepsToken(s: State, a: nat, pc: Pc)
    requires Token(s) && PcOf(s, a).Idle? && s.pending.Some? && IsOwner(pc)
    ensures Token(s.(threads := s.threads[a := pc], pending := None))
  {
    hide Counting.Count;
    CountMoves(s.threads, a, pc, IsOwner);
  }

  lemma TakeKeepsInv(s: State, a: nat, fail: bool)
    requires Inv(s) && Enabled(s, TakePending(a, fail))
    ensures Inv(Next(s, TakePending(a, fail)))
  {
    if s.pending.Some? {
      var t := Next(s, TakePending(a, fail));
      TakeKeepsToken(s, a, t.threads[a]);
      TakeKeepsRest(s, t, a, t.threads[a]);
      hide *;
      Assemble(t);
    }
  }

  lemma TakeKeepsRest(s: State, t: State, a: nat, pc: Pc)
    requires Inv(s) && PcOf(s, a).Idle? && s.pending.Some?
    requires pc == Failing(s.pending.value) || pc == StartKeep(s.pending.value)
    requires t == s.(threads := s.threads[a := pc], pending := None)
    ensures Shape(t.k) && PcsOk(t) && Unique(t.threads) && NothingStranded(t)
    ensures Books(t.k, t.log) && Stream(t.k, t.log) && DropSafe(t)
  {
    hide Loose, Books, Stream;
    forall b | b in s.threads && b != a ensures PcOk(t.k, t.log.retiring, t.failed, s.threads[b]) {}
    assert OwnerOk(t.k, pc);
    forall y | y in Loose(t.k) ensures exists b :: b in t.threads && Links(t.threads[b], y) {
      var b :| b in s.threads && Links(s.threads[b], y);
      assert b in t.threads && Links(t.threads[b], y);
    }
    forall x | x in t.log.retiring ensures exists b :: b in t.threads && Retires(t.threads[b], x) {
      var b :| b in s.threads && Retires(s.threads[b], x);
      assert b in t.threads && Retires(t.threads[b], x);
    }
  }

  lemma FlagsKeepInv(s: State, t: State)
    requires Inv(s) && t == s.(failed := t.failed, handshakeOk := t.handshakeOk) && (s.failed ==> t.failed)
    ensures Inv(t)
  {
    hide Loose, Shape, Books, Stream;
    forall b | b in t.threads ensures PcOk(t.k, t.log.retiring, t.failed, t.threads[b]) {
      assert PcOk(s.k, s.log.retiring, s.failed, s.threads[b]);
    }
  }

  lemma StopKeepsInv(s: State, a: nat)
    requires Inv(s) && Enabled(s, Stop(a))
    ensures Inv(Next(s, Stop(a)))
  {
    hide Inv, Shape, Books, Stream;
    var pc := s.threads[a];
    ReadyFacts(s, a, pc);
    QuietKeepsInv(s, a, pc, Failing(pc.req));
  }

  lemma StepKeepsInv(s: State, a: nat, pc: Pc)
    requires Inv(s) && a in s.threads && s.threads[a] == pc && CanStep(s.k, pc)
    ensures Inv(StepOf(s, a, pc))
  {
    hide Inv, StepOf;
    match pc {
      case PubLink(_, _) => LinkKeepsInv(s, a, pc);
      case OwnNull(req) => OwnNullKeepsInv(s, a, req);
      case OwnCheck(_) => EarlyStepKeepsInv(s, a, pc);
      case OwnHandshake(_) => EarlyStepKeepsInv(s, a, pc);
      case StartKeep(_) => EarlyStepKeepsInv(s, a, pc);
      case KwTop(_, _) => EarlyStepKeepsInv(s, a, pc);
      case Park(req) => ParkKeepsInv(s, a, req);
      case KwSkip(_, _) => DrainStepKeepsInv(s, a, pc);
      case KwDrain(_, _) => DrainStepKeepsInv(s, a, pc);
      case RelLoop(_) => DrainStepKeepsInv(s, a, pc);
      case KwTail(_, _) => TailStepKeepsInv(s, a, pc);
      case KwWalk(req, at) => WalkStepKeepsInv(s, a, req, at);
      case Cas(_, _, _, _) => CasKeepsInv(s, a, pc);
      case RevLoad(_, _, _, _, _, _) => RevLoadKeepsInv(s, a, pc);
      case RevStore(_, _, _, _, _, _, _) => RevStoreKeepsInv(s, a, pc);
      case LinkOld(_, _, _, _, _) => LinkOldKeepsInv(s, a, pc);
      case Failing(req) => FailingKeepsInv(s, a, req);
      case RelClear(req) => RelClearKeepsInv(s, a, req);
      case ReturnLast(req, c) => ReturnLastKeepsInv(s, a, req, c);
    }
  }

  lemma NextKeepsInv(s: State, act: Action)
    requires Inv(s) && Enabled(s, act)
    ensures Inv(Next(s, act))
  {
    hide Inv, StepOf, WriteStep;
    match act {
      case Publish(a, q, bytes) => PublishKeepsInv(s, a, q, bytes);
      case SetFailed => FlagsKeepInv(s, Next(s, act));
      case HandshakeDone => FlagsKeepInv(s, Next(s, act));
      case TakePending(a, fail) => TakeKeepsInv(s, a, fail);
      case Write(a, n, fatal, lost) => WriteKeepsInv(s, a, n, fatal, lost);
      case Stop(a) => StopKeepsInv(s, a);
      case Step(a) => StepKeepsInv(s, a, s.threads[a]);
    }
  }

  // ---- Whole runs -----------------------------------------------------------------------

  predicate StepAt(run: seq<State>, acts: seq<Action>, i: nat)
    requires |run| == |acts| + 1 && i < |acts|
  {
    Enabled(run[i], acts[i]) && run[i + 1] == Next(run[i], acts[i])
  }

  ghost predicate IsRun(run: seq<State>, acts: seq<Action>) {
    && |run| == |acts| + 1
    && run[0] == Init
    && forall i: nat :: i < |acts| ==> StepAt(run, acts, i)
  }

  lemma InitInv()
    ensures Inv(Init)
  {
    CountZero(Init.threads, IsOwner);
    assert multiset(Init.log.consumed) == multiset{};
  }

  lemma {:induction false} RunKeepsInv(run: seq<State>, acts: seq<Action>, i: nat)
    requires IsRun(run, acts) && i < |run|
    ensures Inv(run[i])
  {
    hide Inv;
    if i == 0 {
      InitInv();
    } else {
      RunKeepsInv(run, acts, i - 1);
      assert StepAt(run, acts, i - 1);
      NextKeepsInv(run[i - 1], acts[i - 1]);
    }
  }

  /** At most one thread owns the write right, and none while it is parked in
      _pending_keepwrite_req. */
  lemma OneWriter(run: seq<State>, acts: seq<Action>, i: nat, a: nat, b: nat)
    requires IsRun(run, acts) && i < |run|
    requires IsOwner(PcOf(run[i], a)) && IsOwner(PcOf(run[i], b))
    ensures a == b && run[i].pending == None
  {
    RunKeepsInv(run, acts, i);
    OwnerIsAlone(run[i], a, b);
  }

  /** The requests exchanged into the queue by the first i actions, in order. */
  function Exchanged(acts: seq<Action>, i: nat): seq<nat>
    requires i <= |acts|
  {
    if i == 0 then []
    else Exchanged(acts, i - 1) + if acts[i - 1].Publish? then [acts[i - 1].q] else []
  }

  /** The bytes that those requests carried. */
  function Written(acts: seq<Action>, i: nat): seq<Byte>
    requires i <= |acts|
  {
    if i == 0 then []
    else Written(acts, i - 1) + if acts[i - 1].Publish? then acts[i - 1].bytes else []
  }

  /** How many bytes CutFromIOBufList reported as sent. */
  function Reported(acts: seq<Action>, i: nat): nat
    requires i <= |acts|
  {
    if i == 0 then 0
    else Reported(acts, i - 1) + if acts[i - 1].Write? then acts[i - 1].n else 0
  }

  lemma StepKeepsHistory(s: State, a: nat, pc: Pc)
    ensures StepOf(s, a, pc).log.stream == s.log.stream
    ensures StepOf(s, a, pc).log.published == s.log.published
    ensures StepOf(s, a, pc).log.wire == s.log.wire
  {
    hide SetLink, PopFront, Forget, LinkOf, DataOf, Pred;
  }

  lemma {:induction false} HistoryIsTheActions(run: seq<State>, acts: seq<Action>, i: nat)
    requires IsRun(run, acts) && i < |run|
    ensures run[i].log.published == Exchanged(acts, i)
    ensures run[i].log.stream == Written(acts, i)
    ensures |run[i].log.wire| == Reported(acts, i)
  {
    hide Push, Bytes, StepOf, CanStep;
    if i > 0 {
      HistoryIsTheActions(run, acts, i - 1);
      assert StepAt(run, acts, i - 1);
      var s, act := run[i - 1], acts[i - 1];
      if act.Step? { StepKeepsHistory(s, act.a, PcOf(s, act.a)); }
    }
  }

  /** Requests are consumed in exactly the order of their exchanges, and each
      goes back to the pool at most once. */
  lemma ConsumedInExchangeOrder(run: seq<State>, acts: seq<Action>, i: nat)
    requires IsRun(run, acts) && i < |run|
    ensures run[i].log.consumed <= Exchanged(acts, i)
    ensures run[i].log.returned <= multiset(run[i].log.consumed)
  {
    RunKeepsInv(run, acts, i);
    HistoryIsTheActions(run, acts, i);
  }

  /** What is on the wire is at every moment a prefix of the bytes of all
      requests in the order of their exchanges, as long as was reported sent. */
  lemma WireIsAPrefix(run: seq<State>, acts: seq<Action>, i: nat)
    requires IsRun(run, acts) && i < |run|
    ensures run[i].log.wire <= Written(acts, i)
    ensures |run[i].log.wire| == Reported(acts, i)
  {
    RunKeepsInv(run, acts, i);
    HistoryIsTheActions(run, acts, i);
  }

  predicate Quiescent(s: State) {
    s.pending == None && forall a :: a in s.threads ==> s.threads[a].Idle?
  }

  /** When every call has returned, every request is back in the pool, and
      unless the endpoint failed every byte was sent. */
  lemma QuiescentMeansDone(run: seq<State>, acts: seq<Action>, i: nat)
    requires IsRun(run, acts) && i < |run| && Quiescent(run[i])
    ensures run[i].k.head == None && run[i].k.next.Keys == {}
    ensures run[i].log.consumed == Exchanged(acts, i)
    ensures run[i].log.returned == multiset(Exchanged(acts, i))
    ensures !run[i].failed ==> run[i].log.wire == Written(acts, i)
  {
    var s := run[i];
    RunKeepsInv(run, acts, i);
    HistoryIsTheActions(run, acts, i);
    CountZero(s.threads, IsOwner);
    assert s.k.u == [];
    assert s.log.retiring == {};
  }

  /** The action fails the endpoint or reports an error to it. */
  predicate Harms(s: State, act: Action) {
    match act
    case SetFailed => true
    case TakePending(_, fail) => fail && s.pending.Some?
    case Write(_, _, fatal, _) => fatal
    case Stop(_) => true
    case _ => false
  }

  predicate HarmAt(run: seq<State>, acts: seq<Action>, j: nat)
    requires |run| == |acts| + 1 && j < |acts|
  {
    Harms(run[j], acts[j])
  }

  ghost predicate HarmlessUpTo(run: seq<State>, acts: seq<Action>, i: nat)
    requires |run| == |acts| + 1 && i <= |acts|
  {
    forall j: nat :: j < i ==> !HarmAt(run, acts, j)
  }

  predicate GivesUp(pc: Pc) {
    pc.Failing? || Releasing(pc)
  }

  ghost predicate Healthy(s: State) {
    && !s.failed && !s.log.dropped
    && forall a :: a in s.threads ==> !GivesUp(s.threads[a])
  }

  /** The exchange to null finds the last request sent. */
  lemma HealthyCas(s: State, a: nat, pc: Pc)
    requires !s.failed && !s.log.dropped && pc.Cas? && !GivesUp(pc)
    requires OwnerOk(s.k, pc)
    ensures var t := CasStep(s, a, pc.req, pc.oldHead, pc.singular, pc.caller);
      !t.failed && !t.log.dropped && a in t.threads && !GivesUp(t.threads[a])
  {
    hide SetLink, PopFront, Forget, Pred, LinkOf, Steady;
  }

  lemma HealthyOwnStep(s: State, a: nat, pc: Pc)
    requires !s.failed && !s.log.dropped && a in s.threads && s.threads[a] == pc && !GivesUp(pc)
    requires PcOk(s.k, s.log.retiring, s.failed, pc)
    ensures var t := StepOf(s, a, pc);
      !t.failed && !t.log.dropped && a in t.threads && !GivesUp(t.threads[a])
  {
    hide SetLink, PopFront, Forget, Pred, Loose, CasStep, OwnerOk, LinkOf;
    if pc.Cas? { HealthyCas(s, a, pc); }
  }

  lemma StepMovesItself(s: State, a: nat, pc: Pc, b: nat)
    requires a in s.threads
    ensures StepOf(s, a, pc).threads.Keys == s.threads.Keys
    ensures b in s.threads && b != a ==> StepOf(s, a, pc).threads[b] == s.threads[b]
  {
    hide SetLink, PopFront, Forget, LinkOf, DataOf, Pred;
  }

  lemma HealthyStep(s: State, a: nat)
    requires Inv(s) && Healthy(s) && a in s.threads
    ensures Healthy(StepOf(s, a, s.threads[a]))
  {
    var t := StepOf(s, a, s.threads[a]);
    assert PcOk(s.k, s.log.retiring, s.failed, s.threads[a]);
    HealthyOwnStep(s, a, s.threads[a]);
    hide StepOf, Inv;
    forall b | b in t.threads ensures !GivesUp(t.threads[b]) {
      StepMovesItself(s, a, s.threads[a], b);
    }
  }

  lemma HealthyNext(s: State, act: Action)
    requires Inv(s) && Healthy(s) && Enabled(s, act) && !Harms(s, act)
    ensures Healthy(Next(s, act))
  {
    hide Inv, StepOf, Push, Bytes;
    if act.Step? { HealthyStep(s, act.a); }
  }

  /** As long as nobody fails the endpoint and no error is reported to it, it
      never fails on its own and throws no byte away. */
  lemma {:induction false} HealthyEndpointNeverFails(run: seq<State>, acts: seq<Action>, i: nat)
    requires IsRun(run, acts) && i < |run| && HarmlessUpTo(run, acts, i)
    ensures !run[i].failed && !run[i].log.dropped && Healthy(run[i])
  {
    hide Inv, Next;
    if i > 0 {
      HealthyEndpointNeverFails(run, acts, i - 1);
      RunKeepsInv(run, acts, i - 1);
      assert StepAt(run, acts, i - 1) && !HarmAt(run, acts, i - 1);
      HealthyNext(run[i - 1], acts[i - 1]);
    }
  }

  /** When every call has returned on such an endpoint, the wire carries exactly
      the bytes of all the writes, in the order of their exchanges. */
  lemma HealthyEndpointSendsEverything(run: seq<State>, acts: seq<Action>, i: nat)
    requires IsRun(run, acts) && i < |run| && HarmlessUpTo(run, acts, i) && Quiescent(run[i])
    ensures run[i].log.wire == Written(acts, i)
  {
    HealthyEndpointNeverFails(run, acts, i);
    QuiescentMeansDone(run, acts, i);
  }

  predicate Fails(s: State, a: nat) {
    a in s.threads && s.threads[a].Failing?
  }

  /** The endpoint has failed or is about to. */
  ghost predicate Failed(s: State) {
    s.failed || exists a :: Fails(s, a)
  }

  lemma FailedStays(s: State, act: Action)
    requires Enabled(s, act) && (Failed(s) || Harms(s, act))
    ensures Failed(Next(s, act))
  {
    hide Push, Bytes, StepOf, CasStep;
    var t := Next(s, act);
    if Harms(s, act) {
      if !act.SetFailed? { assert Fails(t, act.a); }
    } else if s.failed {
      if act.Step? { StepKeepsFailed(s, act.a, PcOf(s, act.a)); }
    } else {
      var a :| Fails(s, a);
      if act == Step(a) {
        assert t.failed by { FailingFails(s, a); }
      } else {
        if act.Step? { StepMovesItself(s, act.a, s.threads[act.a], a); }
        assert Fails(t, a);
      }
    }
  }

  lemma FailingFails(s: State, a: nat)
    requires Fails(s, a)
    ensures StepOf(s, a, s.threads[a]).failed
  {}

  lemma StepKeepsFailed(s: State, a: nat, pc: Pc)
    requires s.failed
    ensures StepOf(s, a, pc).failed
  {
    hide SetLink, PopFront, Forget, LinkOf, DataOf, Pred;
  }

  lemma {:induction false} HarmIsNotForgotten(run: seq<State>, acts: seq<Action>, j: nat, i: nat)
    requires IsRun(run, acts) && j < i < |run| && HarmAt(run, acts, j)
    ensures Failed(run[i])
  {
    hide Failed, Enabled, Next;
    assert StepAt(run, acts, i - 1);
    if j < i - 1 { HarmIsNotForgotten(run, acts, j, i - 1); }
    FailedStays(run[i - 1], acts[i - 1]);
  }

  /** When every call has returned, the endpoint has failed if and only if
      somebody failed it or an error was reported to it. */
  lemma FailsExactlyWhenHarmed(run: seq<State>, acts: seq<Action>, i: nat)
    requires IsRun(run, acts) && i < |run| && Quiescent(run[i])
    ensures run[i].failed <==> exists j: nat :: j < i && HarmAt(run, acts, j)
  {
    hide Inv, HarmAt, StepAt;
    if j: nat :| j < i && HarmAt(run, acts, j) {
      HarmIsNotForgotten(run, acts, j, i);
    } else {
      HealthyEndpointNeverFails(run, acts, i);
    }
  }

  /** The endpoint has failed and nobody is past the second look at error(). */
  ghost predicate Mute(s: State) {
    && s.failed && s.pending == None
    && forall a :: a in s.threads ==> !MaySend(s.threads[a])
  }

  lemma MuteOwnStep(s: State, a: nat, pc: Pc)
    requires s.failed && s.pending == None && !MaySend(pc)
    requires a in s.threads && s.threads[a] == pc
    ensures var t := StepOf(s, a, pc);
      t.pending == None && a in t.threads && !MaySend(t.threads[a])
  {
    hide SetLink, PopFront, Forget, Pred, LinkOf, DataOf;
  }

  lemma MuteStep(s: State, act: Action)
    requires Mute(s) && Enabled(s, act)
    ensures Mute(Next(s, act)) && Next(s, act).log.wire == s.log.wire
  {
    hide Push, Bytes, StepOf, CasStep;
    var t := Next(s, act);
    if act.Step? {
      var pc := s.threads[act.a];
      StepKeepsFailed(s, act.a, pc);
      StepKeepsHistory(s, act.a, pc);
      MuteOwnStep(s, act.a, pc);
      forall b | b in t.threads ensures !MaySend(t.threads[b]) {
        StepMovesItself(s, act.a, pc, b);
      }
    }
  }

  /** Once the endpoint has failed and the calls of that time have returned,
      nothing is sent any more, whatever is written later. */
  lemma {:induction false} FailedEndpointIsMute(run: seq<State>, acts: seq<Action>, i: nat, j: nat)
    requires IsRun(run, acts) && i <= j < |run| && run[i].failed && Quiescent(run[i])
    ensures run[j].log.wire == run[i].log.wire && Mute(run[j])
  {
    hide Enabled, Next;
    if i < j {
      FailedEndpointIsMute(run, acts, i, j - 1);
      assert StepAt(run, acts, j - 1);
      MuteStep(run[j - 1], acts[j - 1]);
    }
  }

  lemma CasToReturnLast(s: State, a: nat, pc: Pc)
    requires pc.Cas? && PcOf(StepOf(s, a, pc), a).ReturnLast?
    ensures s.k.head == Some(pc.oldHead) && DataOf(s.k.data, pc.oldHead) == [] && pc.singular
    ensures StepOf(s, a, pc).k.u == PopFront(s.k).u
  {
  }

  predicate LinkPending(s: State, b: nat) {
    b in s.threads && s.threads[b].PubLink?
  }

  ghost predicate NoLinkPending(s: State) {
    forall b :: !LinkPending(s, b)
  }

  lemma EmptyMeansDone(s: State)
    requires Inv(s) && s.k.u == []
    ensures s.log.consumed == s.log.published
    ensures NoLinkPending(s)
  {
    hide Token, Stream, DropSafe, Unique, OwnerOk;
    forall b ensures !LinkPending(s, b) {
      if b in s.threads {
        assert PcOk(s.k, s.log.retiring, s.failed, s.threads[b]);
        assert Loose(s.k) == {};
      }
    }
  }

  /** IsWriteComplete gives the write right up only when everything that was
      published has been consumed and no producer still has a link to store. */
  lemma CompleteOnlyWhenEmpty(run: seq<State>, acts: seq<Action>, i: nat, a: nat)
    requires IsRun(run, acts) && i < |acts| && acts[i] == Step(a)
    requires PcOf(run[i], a).Cas? && PcOf(run[i + 1], a).ReturnLast?
    ensures run[i + 1].log.consumed == Exchanged(acts, i + 1)
    ensures NoLinkPending(run[i + 1])
  {
    hide Inv, StepOf;
    HistoryIsTheActions(run, acts, i + 1);
    var s, pc := run[i], PcOf(run[i], a);
    RunKeepsInv(run, acts, i);
    RunKeepsInv(run, acts, i + 1);
    assert StepAt(run, acts, i);
    assert run[i + 1] == StepOf(s, a, pc);
    CasToReturnLast(s, a, pc);
    CompleteKeepsInv(s, a, pc);
    assert run[i + 1].k.u == [];
    EmptyMeansDone(run[i + 1]);
  }

  /** No CHECK or DCHECK of the write queue fails. */
  lemma ChecksNeverFail(run: seq<State>, acts: seq<Action>, i: nat, a: nat)
    requires IsRun(run, acts) && i < |run| && a in run[i].threads
    ensures !run[i].threads[a].BadCheck?
  {
    RunKeepsInv(run, acts, i);
    assert PcOk(run[i].k, run[i].log.retiring, run[i].failed, run[i].threads[a]);
  }

  predicate LinksNext(s: State, b: nat, p: nat) {
    b in s.threads && s.threads[b].PubLink? && s.threads[b].q == p
  }

  /** The consumer spins on an unconnected link only while its producer is
      still between its exchange and its store. */
  lemma SpinHasAProducer(run: seq<State>, acts: seq<Action>, i: nat, a: nat)
    requires IsRun(run, acts) && i < |run| && a in run[i].threads
    requires run[i].threads[a].RevLoad? && !CanStep(run[i].k, run[i].threads[a])
    ensures exists b :: LinksNext(run[i], b, run[i].threads[a].p)
  {
    RunKeepsInv(run, acts, i);
    SpinnerHasAProducer(run[i], a);
  }

  lemma SpinnerHasAProducer(s: State, a: nat)
    requires Inv(s) && a in s.threads && s.threads[a].RevLoad? && !CanStep(s.k, s.threads[a])
    ensures exists b :: LinksNext(s, b, s.threads[a].p)
  {
    hide Books, Stream;
    var pc := s.threads[a];
    assert PcOk(s.k, s.log.retiring, s.failed, pc);
    assert LooseAt(s.k, s.k.revFrom - 1);
    assert PairAt(s.k, s.k.revFrom - 1) in Loose(s.k);
    var b :| b in s.threads && Links(s.threads[b], PairAt(s.k, s.k.revFrom - 1));
    assert LinksNext(s, b, pc.p);
  }
}
