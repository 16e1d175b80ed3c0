/** The control queue pair's send side: requests are cut into work requests of
    bounded size, whose buffers stay in a ring until they have completed. */
module Sender {
  import opened Basics
  import opened BlockRefs
  import opened Rings
  import opened BlockStore
  import opened IoBuf
  import opened IoBufs
  import SendRing

  /** Parts one after the other. */
  function Joined(parts: seq<seq<Byte>>): seq<Byte> {
    if parts == [] then [] else parts[0] + Joined(parts[1..])
  }

  lemma {:induction false} JoinedSnoc(parts: seq<seq<Byte>>, p: seq<Byte>)
    ensures Joined(parts + [p]) == Joined(parts) + p
  {
    if parts == [] {
      assert (parts + [p])[1..] == [];
    } else {
      assert (parts + [p])[1..] == parts[1..] + [p];
      JoinedSnoc(parts[1..], p);
    }
  }

  ghost predicate EmptyTo(parts: seq<seq<Byte>>, c: nat) {
    c <= |parts| && forall k :: 0 <= k < c ==> parts[k] == []
  }

  /** Behind empty parts, cutting part c takes bytes off the front. */
  lemma {:induction false} JoinedCut(parts: seq<seq<Byte>>, c: nat, n: nat)
    requires EmptyTo(parts, c) && c < |parts| && n <= |parts[c]|
    ensures Joined(parts) == parts[c][..n] + Joined(parts[c := parts[c][n..]])
  {
    var p := parts[c];
    if c == 0 {
      assert parts[0 := p[n..]][1..] == parts[1..];
      assert p == p[..n] + p[n..];
    } else {
      assert parts[0] == [];
      assert parts[c := p[n..]][1..] == parts[1..][c - 1 := p[n..]];
      JoinedCut(parts[1..], c - 1, n);
    }
  }

  lemma {:induction false} JoinedEmpty(parts: seq<seq<Byte>>)
    requires EmptyTo(parts, |parts|)
    ensures Joined(parts) == []
  {
    if parts != [] {
      assert parts[0] == [];
      JoinedEmpty(parts[1..]);
    }
  }

  lemma OthersKeepTrans(m: map<nat, Block>, v: seq<seq<Ref>>, m1: map<nat, Block>, v1: seq<seq<Ref>>,
                        m2: map<nat, Block>, v2: seq<seq<Ref>>, i: nat, j: nat)
    requires OthersKeep(m, v, m1, v1, i, j) && OthersKeep(m1, v1, m2, v2, i, j)
    ensures OthersKeep(m, v, m2, v2, i, j)
  {
    hide Bytes;
  }

  lemma ShapeOf(w: Buffers, i: nat)
    requires w.Valid() && i < |w.bufs|
    ensures i < |w.views| && w.bufs[i].Shape() && w.bufs[i].Valid() && w.bufs[i].Refs() == w.views[i]
    ensures (w.At(i) == []) <==> (w.bufs[i].Refs() == [])
  {
    w.Backs(i);
    w.bufs[i].LengthOfContents(w.store);
    TotalIsLength(w.store.blocks, w.views[i]);
  }

  /** cut_into_sglist_and_iobuf: whole or partial references of buffer i become
      gather entries and move to the buffer slot. Without a registered memory
      region the cut stops with an error. */
  method CutIntoSgList(w: Buffers, i: nat, slot: nat, sge: nat, maxSge: nat, maxLen: nat)
    returns (ok: bool, pieces: seq<seq<Byte>>, len: nat)
    requires w.Valid() && i < |w.bufs| && slot < |w.bufs| && i != slot && sge <= maxSge
    modifies w`views, w.store`blocks, w.bufs[i], w.bufs[i].ring, w.bufs[slot], w.bufs[slot].ring
    ensures w.Valid() && w.bufs == old(w.bufs)
    ensures len == |Joined(pieces)| <= maxLen && len <= |old(w.At(i))|
    ensures Joined(pieces) == old(w.At(i))[..len] && w.At(i) == old(w.At(i))[len..]
    ensures w.At(slot) == old(w.At(slot)) + Joined(pieces)
    ensures sge + |pieces| <= maxSge && forall k :: 0 <= k < |pieces| ==> pieces[k] != []
    ensures ok ==> len == maxLen || sge + |pieces| == maxSge || w.At(i) == []
    ensures OthersKeep(old(w.store.blocks), old(w.views), w.store.blocks, w.views, i, slot)
    ensures w.bufs[i].ring == null || w.bufs[i].ring == old(w.bufs[i].ring)
    ensures w.bufs[slot].ring == null || w.bufs[slot].ring == old(w.bufs[slot].ring) || fresh(w.bufs[slot].ring)
  {
    hide Bytes, OthersKeep, Slice, Joined, Buffers.Valid, IOBuf.Shape, IOBuf.Valid, IOBuf.Refs;
    ShapeOf(w, i);
    ShapeOf(w, slot);
    ghost var m0, v0, all, had := w.store.blocks, w.views, w.At(i), w.At(slot);
    OthersKeepRefl(m0, v0, i, slot);
    pieces, len := [], 0;
    NoParts();
    while sge + |pieces| < maxSge
      invariant w.Valid() && w.bufs == old(w.bufs)
      invariant len == |Joined(pieces)| <= maxLen && len <= |all|
      invariant Joined(pieces) == all[..len] && i < |w.views| && slot < |w.views|
      invariant w.At(i) == all[len..] && w.At(slot) == had + Joined(pieces)
      invariant sge + |pieces| <= maxSge && forall k :: 0 <= k < |pieces| ==> pieces[k] != []
      invariant OthersKeep(m0, v0, w.store.blocks, w.views, i, slot)
      invariant w.bufs[i].ring == null || w.bufs[i].ring == old(w.bufs[i].ring)
      invariant w.bufs[slot].ring == null || w.bufs[slot].ring == old(w.bufs[slot].ring) || fresh(w.bufs[slot].ring)
    {
      ShapeOf(w, i);
      if len >= maxLen || w.bufs[i].RefNum() == 0 { return true, pieces, len; }
      FrontIsPiece(w, i);
      var r := w.bufs[i].RefAt(0);
      var registered: bool := *;
      if !registered { return false, pieces, len; }
      var n := if len + r.length > maxLen then maxLen - len else r.length;
      ghost var m1, v1, part := w.store.blocks, w.views, w.At(i)[..n];
      var piece := Slice(w.store.blocks, Ref(r.offset, n, r.block));
      PieceIsPrefix(w, i, n);
      var k := w.CutInto(i, slot, n);
      ShapeOf(w, i);
      ShapeOf(w, slot);
      OthersKeepTrans(m0, v0, m1, v1, w.store.blocks, w.views, i, slot);
      JoinedSnoc(pieces, piece);
      NextPiece(all, had, len, n, Joined(pieces), piece);
      pieces, len := pieces + [piece], len + n;
    }
    ok := true;
  }

  lemma NoParts()
    ensures Joined([]) == []
  {
  }

  lemma NextPiece(all: seq<Byte>, had: seq<Byte>, len: nat, n: nat, joined: seq<Byte>, piece: seq<Byte>)
    requires len + n <= |all| && joined == all[..len] && piece == all[len..][..n]
    ensures joined + piece == all[..len + n] && all[len..][n..] == all[len + n..]
    ensures had + (joined + piece) == (had + joined) + piece
  {
  }

  lemma FrontIsPiece(w: Buffers, i: nat)
    requires w.Valid() && i < |w.bufs| && w.bufs[i].Shape() && w.bufs[i].Refs() != []
    ensures w.bufs[i].Valid() && i < |w.views| && 0 < w.bufs[i].Refs()[0].length <= |w.At(i)|
  {
    hide *;
    ShapeOf(w, i);
    w.bufs[i].FirstIsSound();
    SoundIsLong(w.bufs[i].Refs()[0]);
    PieceIsPrefix(w, i, 1);
  }

  lemma SoundIsLong(r: Ref)
    requires SoundRef(r)
    ensures r.length > 0
  {
  }

  lemma PieceIsPrefix(w: Buffers, i: nat, n: nat)
    requires w.Valid() && i < |w.bufs| && w.bufs[i].Shape() && w.bufs[i].Refs() != []
    requires 0 < n <= w.bufs[i].Refs()[0].length
    ensures i < |w.views| && w.bufs[i].Refs()[0].length <= |w.At(i)|
    ensures var r := w.bufs[i].Refs()[0];
      Slice(w.store.blocks, Ref(r.offset, n, r.block)) == w.At(i)[..n]
  {
    hide *;
    w.Backs(i);
    w.bufs[i].ContentsAre(w.store);
    FrontSlice(w.store.blocks, w.bufs[i].Refs(), n);
  }

  // ---- One work request -----------------------------------------------------------

  function Parts(m: map<nat, Block>, views: seq<seq<Ref>>, from: seq<nat>): (parts: seq<seq<Byte>>)
    requires forall k :: 0 <= k < |from| ==> from[k] < |views|
    ensures |parts| == |from|
  {
    seq(|from|, k requires 0 <= k < |from| => Bytes(m, views[from[k]]))
  }

  /** The requests' buffers are different ones, apart from the slot. */
  ghost predicate Requests(w: Buffers, from: seq<nat>, slot: nat)
    reads w
  {
    && |w.views| == |w.bufs| && slot < |w.bufs|
    && (forall k :: 0 <= k < |from| ==> from[k] < |w.bufs| && from[k] != slot)
    && (forall j, k :: 0 <= j < k < |from| ==> from[j] != from[k])
  }

  /** Only the requests and the slot changed. */
  ghost predicate KeepsBut(m: map<nat, Block>, v: seq<seq<Ref>>, m': map<nat, Block>, v': seq<seq<Ref>>,
                           from: seq<nat>, slot: nat) {
    |v'| == |v| && forall k :: 0 <= k < |v| && k != slot && k !in from ==> Bytes(m', v'[k]) == Bytes(m, v[k])
  }

  lemma KeepsButStep(m: map<nat, Block>, v: seq<seq<Ref>>, m1: map<nat, Block>, v1: seq<seq<Ref>>,
                     m2: map<nat, Block>, v2: seq<seq<Ref>>, from: seq<nat>, c: nat, slot: nat)
    requires KeepsBut(m, v, m1, v1, from, slot) && c < |from| && OthersKeep(m1, v1, m2, v2, from[c], slot) && |v2| == |v1|
    ensures KeepsBut(m, v, m2, v2, from, slot)
  {
    hide Bytes;
    assert from[c] in from;
  }

  lemma PartsAfterCut(m: map<nat, Block>, v: seq<seq<Ref>>, m': map<nat, Block>, v': seq<seq<Ref>>,
                      from: seq<nat>, c: nat, slot: nat, n: nat)
    requires forall k :: 0 <= k < |from| ==> from[k] < |v| && from[k] != slot
    requires forall j, k :: 0 <= j < k < |from| ==> from[j] != from[k]
    requires c < |from| && |v'| == |v| && OthersKeep(m, v, m', v', from[c], slot)
    requires n <= |Bytes(m, v[from[c]])| && Bytes(m', v'[from[c]]) == Bytes(m, v[from[c]])[n..]
    ensures Parts(m', v', from) == Parts(m, v, from)[c := Bytes(m, v[from[c]])[n..]]
  {
    hide Bytes;
    forall k | 0 <= k < |from| && k != c ensures Bytes(m', v'[from[k]]) == Bytes(m, v[from[k]]) {
      assert from[k] != from[c];
    }
  }

  /** What a work request was made of: the payload came off the front of the
      requests, in order, and c requests are used up. */
  ghost predicate Gathered(before: seq<Byte>, parts: seq<seq<Byte>>, c: nat, payload: seq<Byte>,
                           pieces: seq<seq<Byte>>, maxSge: nat, blockSize: nat) {
    && before == payload + Joined(parts) && EmptyTo(parts, c)
    && Joined(pieces) == payload && |payload| <= blockSize
    && |pieces| <= maxSge && forall k :: 0 <= k < |pieces| ==> pieces[k] != []
  }

  lemma GatheredSkip(before: seq<Byte>, parts: seq<seq<Byte>>, c: nat, payload: seq<Byte>,
                     pieces: seq<seq<Byte>>, maxSge: nat, blockSize: nat)
    requires Gathered(before, parts, c, payload, pieces, maxSge, blockSize) && c < |parts| && parts[c] == []
    ensures Gathered(before, parts, c + 1, payload, pieces, maxSge, blockSize)
  {
  }

  lemma GatheredMore(before: seq<Byte>, parts: seq<seq<Byte>>, c: nat, payload: seq<Byte>, pieces: seq<seq<Byte>>,
                     maxSge: nat, blockSize: nat, more: seq<seq<Byte>>, n: nat)
    requires Gathered(before, parts, c, payload, pieces, maxSge, blockSize) && c < |parts|
    requires n <= |parts[c]| && Joined(more) == parts[c][..n] && |payload| + n <= blockSize
    requires |pieces| + |more| <= maxSge && forall k :: 0 <= k < |more| ==> more[k] != []
    ensures Gathered(before, parts[c := parts[c][n..]], c, payload + Joined(more), pieces + more, maxSge, blockSize)
  {
    hide Joined;
    JoinedCut(parts, c, n);
    JoinedConcat(pieces, more);
    assert before == (payload + Joined(more)) + Joined(parts[c := parts[c][n..]]);
  }

  lemma {:induction false} JoinedConcat(x: seq<seq<Byte>>, y: seq<seq<Byte>>)
    ensures Joined(x + y) == Joined(x) + Joined(y)
  {
    if x == [] {
      assert x + y == y;
    } else {
      assert (x + y)[1..] == x[1..] + y;
      JoinedConcat(x[1..], y);
    }
  }

  /** The inner loop of CutFromIOBufList: one work request is filled from the
      requests until its gather list or the remote block is full. */
  method Gather(w: Buffers, from: seq<nat>, first: nat, slot: nat, maxSge: nat, blockSize: nat)
    returns (ok: bool, c: nat, pieces: seq<seq<Byte>>, len: nat)
    requires w.Valid() && Requests(w, from, slot) && first < |from|
    requires EmptyTo(Parts(w.store.blocks, w.views, from), first) && w.At(slot) == []
    modifies w`views, w.store`blocks, w.bufs, w.Rings()
    ensures w.Valid() && w.bufs == old(w.bufs) && Requests(w, from, slot)
    ensures len == |w.At(slot)| && first <= c <= |from|
    ensures Gathered(Joined(Parts(old(w.store.blocks), old(w.views), from)), Parts(w.store.blocks, w.views, from),
                     c, w.At(slot), pieces, maxSge, blockSize)
    ensures ok && len == 0 && maxSge > 0 && blockSize > 0 ==> c == |from|
    ensures KeepsBut(old(w.store.blocks), old(w.views), w.store.blocks, w.views, from, slot)
    ensures forall b :: b in w.bufs ==> b.ring == null || b.ring in old(w.Rings()) || fresh(b.ring)
  {
    hide Bytes, OthersKeep, KeepsBut, Gathered, EmptyTo, Joined, Buffers.Valid, IOBuf.Shape, IOBuf.Valid, IOBuf.Refs;
    ghost var m0, v0 := w.store.blocks, w.views;
    ghost var before := Joined(Parts(m0, v0, from));
    ok, c, pieces, len := true, first, [], 0;
    GatherStart(Parts(m0, v0, from), c, maxSge, blockSize);
    KeepsButRefl(m0, v0, from, slot);
    while |pieces| < maxSge && len < blockSize
      invariant w.Valid() && w.bufs == old(w.bufs) && Requests(w, from, slot)
      invariant first <= c < |from| && len == |w.At(slot)|
      invariant Gathered(before, Parts(w.store.blocks, w.views, from), c, w.At(slot), pieces, maxSge, blockSize)
      invariant KeepsBut(m0, v0, w.store.blocks, w.views, from, slot)
      invariant forall b :: b in w.bufs ==> b.ring == null || b.ring in old(w.Rings()) || fresh(b.ring)
      invariant len == 0 ==> |pieces| == 0
      decreases blockSize - len, |from| - c
    {
      var i := from[c];
      ShapeOf(w, i);
      ghost var parts := Parts(w.store.blocks, w.views, from);
      if w.bufs[i].RefNum() == 0 {
        GatheredSkip(before, parts, c, w.At(slot), pieces, maxSge, blockSize);
        c := c + 1;
        if c == |from| { break; }
      } else {
        ghost var m1, v1, had := w.store.blocks, w.views, w.At(slot);
        var more: seq<seq<Byte>>, n: nat;
        ok, more, n := CutIntoSgList(w, i, slot, |pieces|, maxSge, blockSize - len);
        SameViews(w, |v1|);
        PartsAfterCut(m1, v1, w.store.blocks, w.views, from, c, slot, n);
        GatheredMore(before, parts, c, had, pieces, maxSge, blockSize, more, n);
        KeepsButStep(m0, v0, m1, v1, w.store.blocks, w.views, from, c, slot);
        if ok { MadeProgress(more, n); }
        pieces, len := pieces + more, len + n;
        if !ok { return; }
      }
    }
  }

  lemma GatherStart(parts: seq<seq<Byte>>, c: nat, maxSge: nat, blockSize: nat)
    requires EmptyTo(parts, c)
    ensures Gathered(Joined(parts), parts, c, [], [], maxSge, blockSize)
  {
    assert [] + Joined(parts) == Joined(parts);
  }

  lemma KeepsButRefl(m: map<nat, Block>, v: seq<seq<Ref>>, from: seq<nat>, slot: nat)
    ensures KeepsBut(m, v, m, v, from, slot)
  {
  }

  lemma SameViews(w: Buffers, n: nat)
    requires w.Valid() && |w.bufs| == n
    ensures |w.views| == n
  {
  }

  lemma MadeProgress(more: seq<seq<Byte>>, n: nat)
    requires n == |Joined(more)| && forall k :: 0 <= k < |more| ==> more[k] != []
    ensures n == 0 <==> more == []
  {
  }

  // ---- The ring of posted buffers --------------------------------------------------

  /** Beginning at slot sent, the ring holds the payloads in flight, oldest
      first, and then empty buffers. */
  ghost predicate Laid(m: map<nat, Block>, v: seq<seq<Ref>>, slots: seq<nat>, sent: nat, flight: seq<seq<Byte>>) {
    && sent < |slots| && |flight| <= |slots|
    && (forall q :: 0 <= q < |slots| ==> slots[q] < |v|)
    && (forall p: nat :: p < |slots| ==> SlotHolds(m, v, slots, sent, flight, p))
  }

  predicate SlotHolds(m: map<nat, Block>, v: seq<seq<Ref>>, slots: seq<nat>, sent: nat, flight: seq<seq<Byte>>, p: nat) {
    var q := At(sent, p, |slots|);
    0 <= q < |slots| && slots[q] < |v| && Bytes(m, v[slots[q]]) == if p < |flight| then flight[p] else []
  }

  /** Filling the next empty slot and nothing else of the ring. */
  lemma LaidPush(m: map<nat, Block>, v: seq<seq<Ref>>, m': map<nat, Block>, v': seq<seq<Ref>>, slots: seq<nat>,
                 sent: nat, flight: seq<seq<Byte>>, from: seq<nat>, current: nat, payload: seq<Byte>)
    requires Laid(m, v, slots, sent, flight) && |flight| < |slots| && current == At(sent, |flight|, |slots|)
    requires Distinct(slots) && current < |slots| && forall q :: 0 <= q < |slots| ==> slots[q] !in from
    requires KeepsBut(m, v, m', v', from, slots[current]) && Bytes(m', v'[slots[current]]) == payload
    ensures Laid(m', v', slots, sent, flight + [payload])
  {
    hide Bytes;
    var flight' := flight + [payload];
    forall p: nat | p < |slots| ensures SlotHolds(m', v', slots, sent, flight', p) {
      var q := At(sent, p, |slots|);
      assert SlotHolds(m, v, slots, sent, flight, p);
      if p != |flight| {
        assert q != current;
        assert slots[q] != slots[current];
      }
    }
  }

  /** Emptying the oldest slot. */
  lemma LaidPop(m: map<nat, Block>, v: seq<seq<Ref>>, m': map<nat, Block>, v': seq<seq<Ref>>, slots: seq<nat>,
                sent: nat, flight: seq<seq<Byte>>)
    requires Laid(m, v, slots, sent, flight) && flight != [] && Distinct(slots) && |v'| == |v|
    requires OthersKeep(m, v, m', v', slots[sent], slots[sent]) && Bytes(m', v'[slots[sent]]) == []
    ensures Laid(m', v', slots, At(sent, 1, |slots|), flight[1..])
  {
    hide Bytes;
    var n, rest := |slots|, flight[1..];
    var sent' := At(sent, 1, n);
    forall p: nat | p < n ensures SlotHolds(m', v', slots, sent', rest, p) {
      var q := At(sent', p, n);
      if p == n - 1 {
        assert q == sent;
      } else {
        assert q == At(sent, p + 1, n) && q != sent;
        assert SlotHolds(m, v, slots, sent, flight, p + 1);
        assert slots[q] != slots[sent];
      }
    }
  }

  function Sum(batches: seq<nat>): nat {
    if batches == [] then 0 else batches[0] + Sum(batches[1..])
  }

  lemma {:induction false} SumSnoc(batches: seq<nat>, n: nat)
    ensures Sum(batches + [n]) == Sum(batches) + n
  {
    if batches == [] {
      assert (batches + [n])[1..] == [];
    } else {
      assert (batches + [n])[1..] == batches[1..] + [n];
      SumSnoc(batches[1..], n);
    }
  }

  /** EAGAIN is Again; Broken is a failed registration or post, after which
      the endpoint fails. */
  datatype Status = Sent(total: nat) | Again | Broken

  /** Posted gather lists, each within the limits. */
  ghost predicate WithinLimits(wrs: seq<seq<seq<Byte>>>, maxSge: nat, blockSize: nat) {
    forall k :: 0 <= k < |wrs| ==> 0 < |wrs[k]| <= maxSge && 0 < |Joined(wrs[k])| <= blockSize
  }

  function Payloads(wrs: seq<seq<seq<Byte>>>): (p: seq<seq<Byte>>)
    ensures |p| == |wrs|
  {
    seq(|wrs|, k requires 0 <= k < |wrs| => Joined(wrs[k]))
  }

  lemma NothingYet(flight: seq<seq<Byte>>, before: seq<Byte>, maxSge: nat, blockSize: nat)
    ensures WithinLimits([], maxSge, blockSize) && flight + Payloads([]) == flight
    ensures Joined(Payloads([])) == [] && before == [] + before
  {
  }

  lemma NoneUsed(parts: seq<seq<Byte>>)
    ensures EmptyTo(parts, 0)
  {
  }

  lemma AllUsed(parts: seq<seq<Byte>>, c: nat)
    requires EmptyTo(parts, c)
    ensures c == |parts| ==> Joined(parts) == []
  {
    hide Joined;
    if c == |parts| { JoinedEmpty(parts); }
  }

  lemma GatheredFacts(before: seq<Byte>, parts: seq<seq<Byte>>, c: nat, payload: seq<Byte>,
                      pieces: seq<seq<Byte>>, maxSge: nat, blockSize: nat)
    requires Gathered(before, parts, c, payload, pieces, maxSge, blockSize)
    ensures Joined(pieces) == payload && before == payload + Joined(parts) && EmptyTo(parts, c)
    ensures |payload| <= blockSize && |pieces| <= maxSge && (payload != [] ==> pieces != [])
  {
  }

  lemma OneMore(wrs: seq<seq<seq<Byte>>>, pieces: seq<seq<Byte>>, rest: seq<Byte>, flight: seq<seq<Byte>>,
                maxSge: nat, blockSize: nat)
    requires WithinLimits(wrs, maxSge, blockSize)
    requires 0 < |pieces| <= maxSge && 0 < |Joined(pieces)| <= blockSize
    ensures WithinLimits(wrs + [pieces], maxSge, blockSize)
    ensures Joined(Payloads(wrs + [pieces])) == Joined(Payloads(wrs)) + Joined(pieces)
    ensures Joined(Payloads(wrs)) + (Joined(pieces) + rest) == Joined(Payloads(wrs + [pieces])) + rest
    ensures flight + Payloads(wrs + [pieces]) == flight + Payloads(wrs) + [Joined(pieces)]
  {
    hide Joined;
    assert Payloads(wrs + [pieces]) == Payloads(wrs) + [Joined(pieces)];
    JoinedSnoc(Payloads(wrs), Joined(pieces));
    assert Joined(Payloads(wrs)) + (Joined(pieces) + rest) == (Joined(Payloads(wrs)) + Joined(pieces)) + rest;
  }

  /** Nothing went into the slot. */
  lemma LaidSame(m: map<nat, Block>, v: seq<seq<Ref>>, m': map<nat, Block>, v': seq<seq<Ref>>, slots: seq<nat>,
                 sent: nat, flight: seq<seq<Byte>>, from: seq<nat>, current: nat)
    requires Laid(m, v, slots, sent, flight) && |flight| < |slots| && current == At(sent, |flight|, |slots|)
    requires Distinct(slots) && current < |slots| && forall q :: 0 <= q < |slots| ==> slots[q] !in from
    requires KeepsBut(m, v, m', v', from, slots[current]) && Bytes(m', v'[slots[current]]) == []
    ensures Laid(m', v', slots, sent, flight)
  {
    hide Bytes;
    forall p: nat | p < |slots| ensures SlotHolds(m', v', slots, sent, flight, p) {
      var q := At(sent, p, |slots|);
      assert SlotHolds(m, v, slots, sent, flight, p);
      if p != |flight| {
        assert q != current;
        assert slots[q] != slots[current];
      }
    }
  }

  class SendQueue {
    const w: Buffers
    const slots: seq<nat>
    const capacity: nat
    const maxSge: nat
    const blockSize: nat

    var current: nat
    var sent: nat
    var unsignaled: nat
    var sqWindow: nat
    var remoteWindow: nat

    /** Payloads posted and not yet released, oldest first. */
    ghost var flight: seq<seq<Byte>>
    /** wr_id of the signalled work requests that have not completed. */
    ghost var batches: seq<nat>

    /** Ring and window agree, and unsignalled requests are few. */
    ghost predicate Windows()
      reads this
    {
      && SendRing.MIN_QP_SIZE - SendRing.RESERVED_WR_NUM <= capacity <= |slots| && maxSge > 0 && blockSize > 0
      && |flight| + sqWindow == capacity
      && Sum(batches) + unsignaled == |flight| && unsignaled < capacity / 4
      && sent < |slots| && current == At(sent, |flight|, |slots|)
    }

    ghost predicate Valid()
      reads this, w, w.store, w.bufs, w.Rings()
    {
      && w.Valid() && Windows() && Distinct(slots)
      && Laid(w.store.blocks, w.views, slots, sent, flight)
    }

    /** The windows both sides agreed on in the handshake. */
    constructor (w: Buffers, slots: seq<nat>, sqSize: nat, remoteRqSize: nat, maxSge: nat, remoteBlockSize: nat)
      requires w.Valid() && Distinct(slots) && |slots| == sqSize - SendRing.RESERVED_WR_NUM
      requires sqSize >= SendRing.MIN_QP_SIZE && remoteRqSize >= SendRing.MIN_QP_SIZE && maxSge > 0 && remoteBlockSize > 0
      requires |w.views| == |w.bufs| && forall q :: 0 <= q < |slots| ==> slots[q] < |w.views| && w.At(slots[q]) == []
      ensures Valid() && flight == [] && sqWindow == capacity && this.w == w && this.slots == slots
    {
      this.w, this.slots, this.maxSge, this.blockSize := w, slots, maxSge, remoteBlockSize;
      var size := (if sqSize < remoteRqSize then sqSize else remoteRqSize) - SendRing.RESERVED_WR_NUM;
      capacity, sqWindow, remoteWindow := size, size, size;
      current, sent, unsignaled, flight, batches := 0, 0, 0, [], [];
      new;
      hide Buffers.Valid, Bytes, Distinct;
      forall p: nat | p < |slots| ensures SlotHolds(w.store.blocks, w.views, slots, sent, flight, p) {
        assert At(sent, p, |slots|) == p;
        assert w.At(slots[p]) == [];
      }
    }

    lemma SlotIsEmpty()
      requires Valid() && sqWindow > 0
      ensures current < |slots| && |flight| < |slots| && slots[current] < |w.views|
      ensures w.At(slots[current]) == []
    {
      assert SlotHolds(w.store.blocks, w.views, slots, sent, flight, |flight|);
    }

    /** The requests are not slots of the ring. */
    lemma NotSlots(from: seq<nat>)
      requires forall q :: 0 <= q < |slots| ==> Requests(w, from, slots[q])
      ensures forall q :: 0 <= q < |slots| ==> slots[q] !in from
    {
    }

    /** The work request in the current slot is posted. */
    method Post(from: seq<nat>, pieces: seq<seq<Byte>>, ghost m: map<nat, Block>, ghost v: seq<seq<Ref>>)
      requires w.Valid() && Windows() && Distinct(slots) && sqWindow > 0 && remoteWindow > 0
      requires current < |slots| && slots[current] < |w.views|
      requires Laid(m, v, slots, sent, flight) && forall q :: 0 <= q < |slots| ==> slots[q] !in from
      requires KeepsBut(m, v, w.store.blocks, w.views, from, slots[current])
      requires w.At(slots[current]) == Joined(pieces)
      modifies this
      ensures Valid() && flight == old(flight) + [Joined(pieces)]
      ensures sqWindow == old(sqWindow) - 1 && remoteWindow == old(remoteWindow) - 1
    {
      hide Joined, Bytes, Laid, KeepsBut, Distinct, Fitting, Counted, StoreOk, At, Sum;
      hide IOBuf.Valid, IOBuf.Shape, IOBuf.Refs;
      Room();
      LaidPush(m, v, w.store.blocks, w.views, slots, sent, flight, from, current, Joined(pieces));
      Advance(Joined(pieces));
    }

    lemma Room()
      requires Windows() && sqWindow > 0
      ensures |flight| < |slots| && current == At(sent, |flight|, |slots|)
    {
    }

    /** Selective signalling, the ring index and the windows. */
    method Advance(ghost payload: seq<Byte>)
      requires Windows() && sqWindow > 0 && remoteWindow > 0
      modifies this
      ensures Windows() && flight == old(flight) + [payload] && sent == old(sent)
      ensures sqWindow == old(sqWindow) - 1 && remoteWindow == old(remoteWindow) - 1
    {
      unsignaled := unsignaled + 1;
      if unsignaled >= capacity / 4 {
        SumSnoc(batches, unsignaled);
        batches := batches + [unsignaled];
        unsignaled := 0;
      }
      flight := flight + [payload];
      current := current + 1;
      if current == |slots| { current := 0; }
      remoteWindow, sqWindow := remoteWindow - 1, sqWindow - 1;
    }

    /** CutFromIOBufList: sends the requests' bytes in order as long as both
        windows are open. */
    method CutFrom(from: seq<nat>) returns (status: Status, wrs: seq<seq<seq<Byte>>>)
      requires Valid() && (forall k :: 0 <= k < |from| ==> from[k] < |w.views|)
      requires forall q :: 0 <= q < |slots| ==> Requests(w, from, slots[q])
      modifies this, w`views, w.store`blocks, w.bufs, w.Rings()
      ensures w.Valid() && w.bufs == old(w.bufs) && |w.views| == |old(w.views)|
      ensures WithinLimits(wrs, maxSge, blockSize) && flight == old(flight) + Payloads(wrs)
      ensures !status.Broken? ==> Valid()
      ensures !status.Broken? ==>
        Joined(Parts(old(w.store.blocks), old(w.views), from)) ==
        Joined(Payloads(wrs)) + Joined(Parts(w.store.blocks, w.views, from))
      ensures status.Sent? ==> status.total == |Joined(Payloads(wrs))|
      ensures status.Sent? ==>
        Joined(Parts(w.store.blocks, w.views, from)) == [] || sqWindow == 0 || remoteWindow == 0
      ensures status.Again? ==> wrs == [] && (sqWindow == 0 || remoteWindow == 0)
      ensures forall b :: b in w.bufs ==> b.ring == null || b.ring in old(w.Rings()) || fresh(b.ring)
    {
      hide Joined, Gathered, Buffers.Valid, Bytes, Laid, KeepsBut, EmptyTo, Payloads, WithinLimits, Distinct;
      wrs := [];
      var c, total := 0, 0;
      ghost var before := Joined(Parts(w.store.blocks, w.views, from));
      NothingYet(flight, before, maxSge, blockSize);
      NoneUsed(Parts(w.store.blocks, w.views, from));
      while c < |from|
        invariant c <= |from| && Valid() && w.bufs == old(w.bufs) && |w.views| == |old(w.views)|
        invariant (forall k :: 0 <= k < |from| ==> from[k] < |w.views|)
        invariant forall q :: 0 <= q < |slots| ==> Requests(w, from, slots[q])
        invariant EmptyTo(Parts(w.store.blocks, w.views, from), c)
        invariant WithinLimits(wrs, maxSge, blockSize) && flight == old(flight) + Payloads(wrs)
        invariant before == Joined(Payloads(wrs)) + Joined(Parts(w.store.blocks, w.views, from))
        invariant total == |Joined(Payloads(wrs))| && (wrs != [] ==> total > 0)
        invariant forall b :: b in w.bufs ==> b.ring == null || b.ring in old(w.Rings()) || fresh(b.ring)
        decreases |before| - total, |from| - c
      {
        if remoteWindow == 0 || sqWindow == 0 {
          if total > 0 { break; }
          return Again, wrs;
        }
        var slot := slots[current];
        ghost var m, v, parts := w.store.blocks, w.views, Parts(w.store.blocks, w.views, from);
        SlotIsEmpty();
        NotSlots(from);
        assert Requests(w, from, slot);
        var ok, next, pieces, len := Gather(w, from, c, slot, maxSge, blockSize);
        if !ok { return Broken, wrs; }
        GatheredFacts(Joined(parts), Parts(w.store.blocks, w.views, from), next, w.At(slot), pieces, maxSge, blockSize);
        c := next;
        if len != 0 {
          var posted: bool := *;
          if !posted { return Broken, wrs; }
          Post(from, pieces, m, v);
          OneMore(wrs, pieces, Joined(Parts(w.store.blocks, w.views, from)), old(flight), maxSge, blockSize);
          wrs, total := wrs + [pieces], total + len;
        } else {
          LaidSame(m, v, w.store.blocks, w.views, slots, sent, flight, from, current);
        }
      }
      AllUsed(Parts(w.store.blocks, w.views, from), c);
      status := Sent(total);
    }

    /** HandleCompletion of the oldest signalled request: its batch of buffers
        is released and the window opens by as much. */
    method Complete(wrId: nat)
      requires Valid() && batches != [] && wrId == batches[0]
      modifies this, w`views, w.store`blocks, w.bufs
      ensures Valid() && w.bufs == old(w.bufs)
      ensures wrId <= |old(flight)| && flight == old(flight)[wrId..]
      ensures sqWindow == old(sqWindow) + wrId && batches == old(batches)[1..]
    {
      hide Bytes, Laid, Distinct, Buffers.Valid, At;
      ghost var flown := flight;
      for i := 0 to wrId
        invariant w.Valid() && w.bufs == old(w.bufs) && Distinct(slots) && sent < |slots| && |flown| <= |slots|
        invariant flight == flown[i..] && current == At(sent, |flight|, |slots|)
        invariant Laid(w.store.blocks, w.views, slots, sent, flight)
        invariant batches == old(batches) && unsignaled == old(unsignaled) && sqWindow == old(sqWindow)
      {
        ReleaseOldest();
      }
      Finish(wrId);
    }

    /** One slot of the ring is cleared. */
    method ReleaseOldest()
      requires w.Valid() && Distinct(slots) && Laid(w.store.blocks, w.views, slots, sent, flight) && flight != []
      requires sent < |slots| && |flight| <= |slots| && current == At(sent, |flight|, |slots|)
      modifies `sent, `flight, w`views, w.store`blocks, w.bufs
      ensures w.Valid() && w.bufs == old(w.bufs) && sent < |slots|
      ensures flight == old(flight)[1..] && current == At(sent, |flight|, |slots|)
      ensures Laid(w.store.blocks, w.views, slots, sent, flight)
    {
      hide Bytes, Laid, Distinct, OthersKeep, Fitting, Counted, StoreOk, IOBuf.Valid, IOBuf.Shape, IOBuf.Refs;
      ghost var m, v := w.store.blocks, w.views;
      InRing(m, v);
      w.Clear(slots[sent]);
      NoneLeft(w.store.blocks, []);
      LaidPop(m, v, w.store.blocks, w.views, slots, sent, flight);
      sent := sent + 1;
      if sent == |slots| { sent := 0; }
      flight := flight[1..];
    }

    /** The window opens by the completed batch. */
    method Finish(wrId: nat)
      requires w.Valid() && Distinct(slots) && Laid(w.store.blocks, w.views, slots, sent, flight)
      requires batches != [] && wrId == batches[0]
      requires SendRing.MIN_QP_SIZE - SendRing.RESERVED_WR_NUM <= capacity <= |slots| && maxSge > 0 && blockSize > 0
      requires |flight| + wrId + sqWindow == capacity && unsignaled < capacity / 4
      requires Sum(batches) + unsignaled == |flight| + wrId
      requires sent < |slots| && current == At(sent, |flight|, |slots|)
      modifies `sqWindow, `batches
      ensures Valid() && sqWindow == old(sqWindow) + wrId && batches == old(batches)[1..]
    {
      hide Bytes, Laid, Distinct, Fitting, Counted, StoreOk, At, IOBuf.Valid, IOBuf.Shape, IOBuf.Refs;
      sqWindow := sqWindow + wrId;
      batches := batches[1..];
    }

    lemma InRing(m: map<nat, Block>, v: seq<seq<Ref>>)
      requires Laid(m, v, slots, sent, flight)
      ensures slots[sent] < |v|
    {
    }
  }
}
