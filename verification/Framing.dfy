/** Cutting the control stream into frames, whatever chunks it arrives in. */
module Framing {
  import opened Basics
  import opened BlockRefs
  import opened BlockStore
  import opened IoBuf
  import opened IoBufs
  import opened Sender

  const FRAME_HEADER_BYTES: nat := 12

  function U8(b: Byte): nat {
    b as nat
  }

  /** ntohl of the first four bytes. */
  function Be32(h: seq<Byte>): nat
    requires |h| >= 4
  {
    ((U8(h[0]) * 256 + U8(h[1])) * 256 + U8(h[2])) * 256 + U8(h[3])
  }

  /** A frame carries its own length in front. */
  predicate FrameOk(f: seq<Byte>) {
    |f| >= FRAME_HEADER_BYTES && Be32(f) == |f|
  }

  datatype Parse = NeedMore | Bad | Frame(frame: seq<Byte>, rest: seq<Byte>)

  /** What CutInputMessage makes of the bytes read so far. */
  function ParseFrame(bytes: seq<Byte>): Parse {
    if |bytes| < 4 then NeedMore
    else if Be32(bytes) < FRAME_HEADER_BYTES then Bad
    else if |bytes| < Be32(bytes) then NeedMore
    else Frame(bytes[..Be32(bytes)], bytes[Be32(bytes)..])
  }

  /** The frames of a stream, what is left of it, and whether it is broken. */
  datatype Stream = Stream(frames: seq<seq<Byte>>, rest: seq<Byte>, broken: bool)

  function Deframe(bytes: seq<Byte>): Stream
    decreases |bytes|
  {
    match ParseFrame(bytes)
    case NeedMore => Stream([], bytes, false)
    case Bad => Stream([], bytes, true)
    case Frame(f, rest) =>
      var s := Deframe(rest);
      s.(frames := [f] + s.frames)
  }

  /** Bytes behind a decided frame do not change the decision. */
  lemma ParseMore(a: seq<Byte>, b: seq<Byte>)
    ensures ParseFrame(a).Bad? ==> ParseFrame(a + b).Bad?
    ensures ParseFrame(a).Frame? ==>
      ParseFrame(a + b) == Frame(ParseFrame(a).frame, ParseFrame(a).rest + b)
  {
    hide U8;
    if |a| >= 4 {
      assert (a + b)[..4] == a[..4];
      assert Be32(a + b) == Be32(a);
      if ParseFrame(a).Frame? {
        var n := Be32(a);
        assert (a + b)[..n] == a[..n] && (a + b)[n..] == a[n..] + b;
      }
    }
  }

  lemma DeframeStep(bytes: seq<Byte>)
    ensures ParseFrame(bytes).NeedMore? ==> Deframe(bytes) == Stream([], bytes, false)
    ensures ParseFrame(bytes).Bad? ==> Deframe(bytes) == Stream([], bytes, true)
    ensures ParseFrame(bytes).Frame? ==>
      && |ParseFrame(bytes).rest| < |bytes|
      && Deframe(bytes) ==
         Deframe(ParseFrame(bytes).rest).(frames := [ParseFrame(bytes).frame] + Deframe(ParseFrame(bytes).rest).frames)
  {
    hide Be32;
  }

  lemma FrameInFront(f: seq<Byte>, x: seq<seq<Byte>>, y: seq<seq<Byte>>)
    ensures [f] + (x + y) == ([f] + x) + y
  {
  }

  /** Deframing can stop anywhere and go on with what was left. */
  lemma {:induction false} DeframeMore(a: seq<Byte>, b: seq<Byte>)
    ensures var s := Deframe(a);
      if s.broken
      then Deframe(a + b).broken && Deframe(a + b).frames == s.frames
      else Deframe(a + b) == Deframe(s.rest + b).(frames := s.frames + Deframe(s.rest + b).frames)
    decreases |a|
  {
    hide *;
    ParseMore(a, b);
    DeframeStep(a);
    DeframeStep(a + b);
    match ParseFrame(a)
    case NeedMore => assert [] + Deframe(a + b).frames == Deframe(a + b).frames;
    case Bad =>
    case Frame(f, rest) =>
      DeframeMore(rest, b);
      FrameInFront(f, Deframe(rest).frames, Deframe(Deframe(rest).rest + b).frames);
  }

  /** Chunks are read one by one: each is appended to what was left and as
      many frames as possible are cut. After a broken header nothing more is
      cut. */
  function Feed(s: Stream, chunks: seq<seq<Byte>>): Stream
    decreases |chunks|
  {
    if chunks == [] || s.broken then s
    else
      var t := Deframe(s.rest + chunks[0]);
      Feed(t.(frames := s.frames + t.frames), chunks[1..])
  }

  lemma {:induction false} FeedIsDeframe(s: Stream, chunks: seq<seq<Byte>>, all: seq<Byte>)
    requires s == Deframe(all)
    ensures Feed(s, chunks).frames == Deframe(all + Joined(chunks)).frames
    ensures Feed(s, chunks).broken == Deframe(all + Joined(chunks)).broken
    ensures !s.broken && !Feed(s, chunks).broken ==> Feed(s, chunks).rest == Deframe(all + Joined(chunks)).rest
    decreases |chunks|
  {
    hide Deframe;
    if chunks == [] {
      assert all + Joined(chunks) == all;
    } else if s.broken {
      DeframeMore(all, Joined(chunks));
    } else {
      var t := Deframe(s.rest + chunks[0]);
      DeframeMore(all, chunks[0]);
      var next := t.(frames := s.frames + t.frames);
      assert all + Joined(chunks) == (all + chunks[0]) + Joined(chunks[1..]);
      FeedIsDeframe(next, chunks[1..], all + chunks[0]);
    }
  }

  /** However the stream is cut into chunks, the same frames come out. */
  lemma ChunkingDoesNotMatter(xs: seq<seq<Byte>>, ys: seq<seq<Byte>>)
    requires Joined(xs) == Joined(ys)
    ensures Feed(Stream([], [], false), xs).frames == Feed(Stream([], [], false), ys).frames
    ensures Feed(Stream([], [], false), xs).broken == Feed(Stream([], [], false), ys).broken
  {
    FeedIsDeframe(Deframe([]), xs, []);
    FeedIsDeframe(Deframe([]), ys, []);
    assert [] + Joined(xs) == [] + Joined(ys);
  }

  lemma ParseWhole(f: seq<Byte>)
    requires FrameOk(f)
    ensures ParseFrame(f) == Frame(f, [])
  {
    hide Be32;
    assert f[..Be32(f)] == f && f[Be32(f)..] == [];
  }

  lemma {:induction false} DeframeOfFrames(frames: seq<seq<Byte>>, tail: seq<Byte>)
    requires forall k :: 0 <= k < |frames| ==> FrameOk(frames[k])
    requires ParseFrame(tail).NeedMore?
    ensures Deframe(Joined(frames) + tail) == Stream(frames, tail, false)
    decreases |frames|
  {
    hide Deframe, ParseFrame, FrameOk;
    DeframeStep(Joined(frames) + tail);
    if frames == [] {
      assert Joined(frames) + tail == tail;
    } else {
      var f, rest := frames[0], frames[1..];
      ParseWhole(f);
      var more := Joined(rest) + tail;
      ParseMore(f, more);
      assert Joined(frames) + tail == f + more && [] + more == more;
      DeframeOfFrames(rest, tail);
      assert [f] + rest == frames;
    }
  }

  /** Any chunking of well-formed frames, followed by the beginning of one
      more, gives back exactly those frames in order. */
  lemma FramesComeBack(frames: seq<seq<Byte>>, tail: seq<Byte>, chunks: seq<seq<Byte>>)
    requires forall k :: 0 <= k < |frames| ==> FrameOk(frames[k])
    requires ParseFrame(tail).NeedMore? && Joined(chunks) == Joined(frames) + tail
    ensures Feed(Stream([], [], false), chunks) == Stream(frames, tail, false)
  {
    hide ParseFrame;
    assert ParseFrame([]) == NeedMore by { Nothing(); }
    FeedIsDeframe(Deframe([]), chunks, []);
    assert [] + Joined(chunks) == Joined(chunks);
    DeframeOfFrames(frames, tail);
  }

  lemma Nothing()
    ensures ParseFrame([]) == NeedMore
  {
  }

  // ---- The dispatcher --------------------------------------------------------------

  /** CutInputMessage: 1 with a frame, 0 if more bytes are needed, -1 on a
      length that cannot be; only a whole frame is taken off the buffer. */
  method CutInputMessage(w: Buffers, read: nat, frame: nat) returns (rc: int)
    requires w.Valid() && read < |w.bufs| && frame < |w.bufs| && read != frame && |w.views| == |w.bufs|
    requires w.At(frame) == []
    modifies w`views, w.store`blocks, w.bufs[read], w.bufs[read].ring, w.bufs[frame], w.bufs[frame].ring
    ensures w.Valid() && w.bufs == old(w.bufs) && |w.views| == |w.bufs|
    ensures match ParseFrame(old(w.At(read)))
      case NeedMore => rc == 0 && w.At(read) == old(w.At(read)) && w.At(frame) == []
      case Bad => rc == -1 && w.At(read) == old(w.At(read)) && w.At(frame) == []
      case Frame(f, rest) => rc == 1 && w.At(read) == rest && w.At(frame) == f
    ensures OthersKeep(old(w.store.blocks), old(w.views), w.store.blocks, w.views, read, frame)
    ensures w.bufs[read].ring == null || w.bufs[read].ring == old(w.bufs[read].ring)
    ensures w.bufs[frame].ring == null || w.bufs[frame].ring == old(w.bufs[frame].ring) || fresh(w.bufs[frame].ring)
  {
    hide Bytes, OthersKeep, Be32, Buffers.Valid, IOBuf.Valid, IOBuf.Shape, IOBuf.Refs;
    OthersKeepRefl(w.store.blocks, w.views, read, frame);
    LengthAt(w, read);
    ghost var all := w.At(read);
    if w.bufs[read].Length() < 4 { return 0; }
    var header := w.CopyTo(read, 4, 0);
    SameHeader(header, all);
    var total := Be32(header);
    if total < FRAME_HEADER_BYTES { return -1; }
    if w.bufs[read].Length() < total { return 0; }
    var k := w.CutInto(read, frame, total);
    SameViews(w, |w.bufs|);
    assert [] + all[..total] == all[..total];
    rc := 1;
  }

  lemma SameHeader(header: seq<Byte>, all: seq<Byte>)
    requires |all| >= 4 && header == Window(all, 0, 4)
    ensures |header| == 4 && Be32(header) == Be32(all)
  {
  }

  lemma LengthAt(w: Buffers, i: nat)
    requires w.Valid() && i < |w.bufs|
    ensures i < |w.views| && w.bufs[i].Valid() && w.bufs[i].Length() == |w.At(i)|
  {
    w.Backs(i);
    w.bufs[i].LengthOfContents(w.store);
  }

  /** The buffers handed out hold the frames. */
  ghost predicate Handed(m: map<nat, Block>, views: seq<seq<Ref>>, read: nat, ids: seq<nat>, frames: seq<seq<Byte>>) {
    |ids| == |frames| && forall k :: 0 <= k < |ids| ==> ids[k] < |views| && ids[k] != read && Bytes(m, views[ids[k]]) == frames[k]
  }

  lemma HandedKeeps(m: map<nat, Block>, v: seq<seq<Ref>>, m': map<nat, Block>, v': seq<seq<Ref>>, read: nat, at: nat,
                    ids: seq<nat>, frames: seq<seq<Byte>>)
    requires Handed(m, v, read, ids, frames) && OthersKeep(m, v, m', v', read, at)
    requires forall k :: 0 <= k < |ids| ==> ids[k] != at
    ensures Handed(m', v', read, ids, frames)
  {
    hide Bytes;
  }

  lemma AfterNew(m: map<nat, Block>, v: seq<seq<Ref>>, m': map<nat, Block>, v': seq<seq<Ref>>, read: nat, at: nat,
                 ids: seq<nat>, frames: seq<seq<Byte>>)
    requires Handed(m, v, read, ids, frames) && OthersKeep(m, v, m', v', at, at) && at == |v| && read < |v|
    ensures Handed(m', v', read, ids, frames) && |v'| >= |v| && Bytes(m', v'[read]) == Bytes(m, v[read])
    ensures forall k :: 0 <= k < |ids| ==> ids[k] != at
  {
    hide Bytes;
  }

  lemma HandedMore(m: map<nat, Block>, v: seq<seq<Ref>>, read: nat, at: nat, ids: seq<nat>, frames: seq<seq<Byte>>)
    requires Handed(m, v, read, ids, frames) && at < |v| && at != read
    ensures Handed(m, v, read, ids + [at], frames + [Bytes(m, v[at])])
  {
    hide Bytes;
  }

  /** done frames of all were cut off, and rest is what follows. */
  ghost predicate Cutting(all: seq<Byte>, done: seq<seq<Byte>>, rest: seq<Byte>) {
    Deframe(all) == Deframe(rest).(frames := done + Deframe(rest).frames)
  }

  lemma CuttingStart(all: seq<Byte>)
    ensures Cutting(all, [], all)
  {
    hide Deframe;
    assert [] + Deframe(all).frames == Deframe(all).frames;
  }

  lemma CuttingMore(all: seq<Byte>, done: seq<seq<Byte>>, bytes: seq<Byte>)
    requires Cutting(all, done, bytes) && ParseFrame(bytes).Frame?
    ensures Cutting(all, done + [ParseFrame(bytes).frame], ParseFrame(bytes).rest)
    ensures |ParseFrame(bytes).rest| < |bytes|
  {
    hide Deframe, ParseFrame;
    DeframeStep(bytes);
    var f, rest := ParseFrame(bytes).frame, ParseFrame(bytes).rest;
    assert done + ([f] + Deframe(rest).frames) == (done + [f]) + Deframe(rest).frames;
  }

  lemma CuttingEnd(all: seq<Byte>, done: seq<seq<Byte>>, bytes: seq<Byte>)
    requires Cutting(all, done, bytes) && !ParseFrame(bytes).Frame?
    ensures Deframe(all) == Stream(done, bytes, ParseFrame(bytes).Bad?)
  {
    hide Deframe, ParseFrame;
    DeframeStep(bytes);
    assert done + [] == done;
  }

  lemma CuttingPrefix(all: seq<Byte>, done: seq<seq<Byte>>, bytes: seq<Byte>)
    requires Cutting(all, done, bytes)
    ensures done <= Deframe(all).frames
  {
    hide Deframe;
  }

  /** ProcessNewMessage: every whole frame of the buffer is handed to a
      handler of its own, in order. The endpoint may fail or run out of
      threads on the way. */
  method ProcessNewMessage(w: Buffers, read: nat, handler: bool) returns (rc: int, ids: seq<nat>, ghost frames: seq<seq<Byte>>)
    requires w.Valid() && read < |w.bufs| && |w.views| == |w.bufs|
    modifies w, w.store`blocks, w.bufs, w.Rings()
    ensures w.Valid() && |w.bufs| >= |old(w.bufs)| && |w.views| == |w.bufs|
    ensures !handler ==> rc == 0 && ids == [] && w.At(read) == old(w.At(read))
    ensures Handed(w.store.blocks, w.views, read, ids, frames)
    ensures frames <= Deframe(old(w.At(read))).frames
    ensures handler && rc >= 0 ==> rc == |ids| && Deframe(old(w.At(read))) == Stream(frames, w.At(read), false)
    ensures handler && Deframe(old(w.At(read))).broken ==> rc == -1
  {
    hide Bytes, OthersKeep, Be32, Deframe, ParseFrame, Handed, Cutting, Buffers.Valid, IOBuf.Valid, IOBuf.Shape, IOBuf.Refs;
    ids, frames := [], [];
    ghost var all := w.At(read);
    NoneHanded(w.store.blocks, w.views, read, all);
    if !handler { return 0, ids, frames; }
    while true
      invariant w.Valid() && |w.bufs| >= |old(w.bufs)| && |w.views| == |w.bufs|
      invariant Handed(w.store.blocks, w.views, read, ids, frames) && Cutting(all, frames, w.At(read))
      invariant forall b :: b in w.bufs ==> b in old(w.bufs) || fresh(b)
      invariant forall b :: b in w.bufs ==> b.ring == null || b.ring in old(w.Rings()) || fresh(b.ring)
      decreases |w.At(read)|
    {
      ghost var m0, v0 := w.store.blocks, w.views;
      ghost var bufs := w.bufs;
      assert bufs[read] in bufs;
      var frame := w.New();
      SameViews(w, |w.bufs|);
      AfterNew(m0, v0, w.store.blocks, w.views, read, frame, ids, frames);
      assert w.bufs[read] == bufs[read];
      ghost var m, v, bytes := w.store.blocks, w.views, w.At(read);
      rc := CutInputMessage(w, read, frame);
      HandedKeeps(m, v, w.store.blocks, w.views, read, frame, ids, frames);
      CuttingPrefix(all, frames, bytes);
      if rc <= 0 {
        CuttingEnd(all, frames, bytes);
        if rc == 0 { rc := |ids|; }
        return;
      }
      CuttingMore(all, frames, bytes);
      var failed: bool := *;
      if failed { return -1, ids, frames; }
      HandedMore(w.store.blocks, w.views, read, frame, ids, frames);
      ids, frames := ids + [frame], frames + [w.At(frame)];
    }
  }

  lemma NoneHanded(m: map<nat, Block>, v: seq<seq<Ref>>, read: nat, all: seq<Byte>)
    ensures Handed(m, v, read, [], []) && Cutting(all, [], all) && [] <= Deframe(all).frames
  {
    CuttingStart(all);
  }
}
