/** IOBuf: a two-slot view or a growable ring of block references, standing
    for a sequence of bytes. */
module IoBuf {
  import opened BitMask
  import opened Basics
  import opened BlockRefs
  import opened Rings
  import opened BlockStore

  const INITIAL_CAP: nat := 32

  /** append_user_data_with_meta takes no more. */
  const MAX_USER_DATA: nat := 0xFFFF_FFFF - 100
  const MAGIC: nat := 0xFFFF_FFFF

  /** Taking 2 GiB off a reference to 3 GiB: the first word is taken for the
      big view's, and there is no ring. */
  method TagLost() returns (b: IOBuf)
    ensures b.ring == null && !b.Small()
  {
    b := new IOBuf();
    b.SetFirst(Ref(0, 0xC000_0000, 0));
    b.SkipSmall(SIGN);
  }

  class IOBuf {
    var word: nat
    var length0: nat
    var block0: Option<nat>
    var ref1: Option<Ref>

    var start: nat
    var ring: array?<Ref>
    var nref: nat
    var capMask: nat
    /** A 64-bit sum, kept here without its modulus. */
    var nbytes: int

    predicate Small()
      reads this
    {
      word < SIGN
    }

    ghost predicate Shape()
      reads this
    {
      && (Small() <==> ring == null)
      && (ring == null ==> (block0 == None ==> length0 == 0 && ref1 == None))
      && (ring != null ==>
        && word == MAGIC && PowerOfTwo(ring.Length) && capMask == ring.Length - 1
        && start < ring.Length && 3 <= nref <= ring.Length)
    }

    ghost function Refs(): seq<Ref>
      requires Shape()
      reads this, ring
    {
      if ring != null then Ring(ring[..], start, nref)
      else if block0 == None then []
      else if ref1 == None then [Ref(word, length0, block0.value)]
      else [Ref(word, length0, block0.value), ref1.value]
    }

    ghost predicate Valid()
      reads this, ring
    {
      && Shape()
      && Sound(Refs())
      && (ring != null ==> nbytes == Total(Refs()) || nbytes == Total(Refs()) - U32)
    }

    /** length() tells the truth. */
    ghost predicate Exact()
      requires Shape()
      reads this, ring
    {
      if ring == null then Total(Refs()) < U32 else nbytes == Total(Refs())
    }

    constructor ()
      ensures Valid() && Refs() == [] && ring == null
    {
      word, length0, block0, ref1, ring := 0, 0, None, None, null;
    }

    function RefNum(): nat
      requires Shape()
      reads this, ring
      ensures RefNum() == |Refs()|
    {
      if Small() then Bit(block0.Some?) + Bit(ref1.Some?) else nref
    }

    function RefAt(i: nat): (r: Ref)
      requires Valid() && i < RefNum()
      reads this, ring
      ensures r == Refs()[i]
    {
      if Small() then if i == 0 then Ref(word, length0, block0.value) else ref1.value
      else
        MaskIsAt(start, i, ring.Length);
        ring[And(start + i, capMask)]
    }

    /** The small view adds two 32-bit lengths, the big view keeps a sum. */
    function Length(): (n: int)
      requires Valid()
      reads this, ring
      ensures n == Total(Refs()) <==> Exact()
    {
      if Small() then
        SmallTotal();
        (length0 + if ref1.Some? then ref1.value.length else 0) % U32
      else nbytes
    }

    lemma SmallTotal()
      requires Valid() && ring == null
      ensures Total(Refs()) == length0 + (if ref1.Some? then ref1.value.length else 0) <= U32
    {
      TwoTotal(Refs());
      assert forall i :: 0 <= i < |Refs()| ==> SoundRef(Refs()[i]);
      assert block0.Some? ==> Refs()[0].length == length0;
      assert ref1.Some? ==> Refs()[1] == ref1.value;
    }

    /** Two references to 2 GiB each: a buffer of 4 GiB says that it holds
        nothing, and yet that it is not empty. */
    lemma FourGigabytesLookLikeNone()
      requires Valid() && ring == null && Refs() == [Ref(0, SIGN, 0), Ref(0, SIGN, 1)]
      ensures Length() == 0 && !Empty() && !Exact()
    {
      SmallTotal();
      assert Refs()[0].length == length0 && Refs()[1] == ref1.value;
    }

    predicate Empty()
      requires Valid()
      reads this, ring
    {
      if Small() then block0 == None else nbytes == 0
    }

    lemma ExactBigIsNotEmpty()
      requires Valid() && Exact()
      ensures ring == null || nbytes != 0
    {
      if ring != null { assert SoundRef(Refs()[0]); }
    }

    /** Two or three lengths that do not add up in 32 bits. */
    ghost predicate Overflows()
      requires Shape()
      reads this, ring
    {
      |Refs()| <= 3 && Total(Refs()) >= U32
    }

    /** Blocks of up to a third of 4 GiB never make that happen. */
    lemma NoOverflow(store: Store)
      requires Shape() && store.Valid() && AllFit(store.blocks, Refs())
      ensures store.limit <= THIRD ==> !Overflows()
    {
      if store.limit <= THIRD && |Refs()| <= 3 {
        forall i | 0 <= i < |Refs()| ensures Refs()[i].length <= THIRD {
          assert Fits(store.blocks, Refs()[i]) && BlockOk(store.blocks[Refs()[i].block], store.limit);
        }
        ShortTotal(Refs());
      }
    }

    // ---- Pushing a reference ---------------------------------------------------

    /** The first reference also decides which view this is. */
    method SetFirst(r: Ref)
      modifies `word, `length0, `block0
      ensures word == r.offset && length0 == r.length && block0 == Some(r.block)
      ensures Small() <==> r.offset < SIGN
    {
      word, length0, block0 := r.offset, r.length, Some(r.block);
    }

    method ToBigView(r: Ref)
      requires Valid() && ring == null && ref1.Some? && SoundRef(r)
      modifies this
      ensures Valid() && Refs() == old(Refs()) + [r] && fresh(ring) && ring.Length == INITIAL_CAP
      ensures Exact() <==> Total(Refs()) < U32
    {
      SmallTotal();
      Snoc(Refs(), r);
      hide Total, Uses, Ring;
      var first := new Ref[INITIAL_CAP];
      first[0] := RefAt(0);
      first[1] := RefAt(1);
      first[2] := r;
      var total := (length0 + ref1.value.length + r.length) % U32;
      UseRing(first, 3, total, Refs() + [r]);
    }

    method PushSmall(store: Store, r: Ref, move: bool)
      requires Valid() && ring == null && store.Valid() && SoundRef(r)
      requires r.block in store.blocks
      requires move ==> Uses(Refs(), r.block) + 1 <= Others(store.blocks, store.kept, r.block)
      modifies this, store`blocks
      ensures Valid() && store.Valid()
      ensures Refs() == PushRef(old(Refs()), r)
      ensures Exact() <==> Total(Refs()) < U32
      ensures forall b :: Shared(store.blocks, b) == Shared(old(store.blocks), b)
                + Bit(b == r.block && !Merges(old(Refs()), r)) - Bit(b == r.block && move)
      ensures Survive(old(store.blocks), store.blocks)
      ensures ring == null || (fresh(ring) && ring.Length == INITIAL_CAP)
    {
      PushSound(Refs(), r);
      hide Total, Uses, PowerOfTwo, Ring;
      ghost var pushed := PushRef(Refs(), r);
      if block0 == None {
        SetFirst(r);
        assert Refs() == pushed;
        if !move { store.IncRef(r.block); }
      } else if ref1 == None {
        if Adjacent(Ref(word, length0, block0.value), r) {
          length0 := length0 + r.length;
          assert Refs() == pushed;
          if move { store.DecRef(r.block); }
        } else {
          ref1 := Some(r);
          assert Refs() == pushed;
          if !move { store.IncRef(r.block); }
        }
      } else if Adjacent(ref1.value, r) {
        ref1 := Some(Merged(ref1.value, r));
        assert Refs() == pushed;
        if move { store.DecRef(r.block); }
      } else {
        ToBigView(r);
        if !move { store.IncRef(r.block); }
      }
    }

    method PushBig(store: Store, r: Ref, move: bool)
      requires Valid() && ring != null && store.Valid() && SoundRef(r)
      requires r.block in store.blocks
      requires move ==> Uses(Refs(), r.block) + 1 <= Others(store.blocks, store.kept, r.block)
      modifies this, ring, store`blocks
      ensures Valid() && store.Valid()
      ensures Refs() == PushRef(old(Refs()), r)
      ensures ring != null && (Exact() <==> old(Exact()))
      ensures if |Refs()| > old(ring.Length) then fresh(ring) && ring.Length == 2 * old(ring.Length) else ring == old(ring)
      ensures forall b :: Shared(store.blocks, b) == Shared(old(store.blocks), b)
                + Bit(b == r.block && !Merges(old(Refs()), r)) - Bit(b == r.block && move)
      ensures Survive(old(store.blocks), store.blocks)
      ensures ring == old(ring) || fresh(ring)
    {
      hide Total, Uses, PowerOfTwo, Ring, Sound, And;
      if Adjacent(RefAt(nref - 1), r) {
        MergeBack(r);
        if move { store.DecRef(r.block); }
      } else if nref != capMask + 1 {
        PushInPlace(r);
        if !move { store.IncRef(r.block); }
      } else {
        Grow(r);
        if !move { store.IncRef(r.block); }
      }
    }

    method MergeBack(r: Ref)
      requires Valid() && ring != null && SoundRef(r) && Merges(Refs(), r)
      modifies this, ring
      ensures Valid() && Refs() == PushRef(old(Refs()), r) && ring == old(ring)
      ensures Exact() <==> old(Exact())
    {
      PushSound(Refs(), r);
      PushSums(Refs(), r);
      SetAt(nref - 1, Merged(RefAt(nref - 1), r));
      nbytes := nbytes + r.length;
    }

    method SetAt(i: nat, r: Ref)
      requires Shape() && ring != null && i < nref
      modifies ring
      ensures Shape() && Refs() == old(Refs())[i := r]
    {
      hide PowerOfTwo, Ring;
      MaskIsAt(start, i, ring.Length);
      RingSet(ring[..], start, nref, i, r);
      ring[And(start + i, capMask)] := r;
    }

    method PushInPlace(r: Ref)
      requires Valid() && ring != null && nref < ring.Length && SoundRef(r)
      modifies this, ring
      ensures Valid() && Refs() == old(Refs()) + [r] && ring == old(ring)
      ensures Exact() <==> old(Exact())
    {
      hide PowerOfTwo, And, Ring, Total, Uses;
      Snoc(Refs(), r);
      MaskIsAt(start, nref, ring.Length);
      RingPush(ring[..], start, nref, r);
      ring[And(start + nref, capMask)] := r;
      nref, nbytes := nref + 1, nbytes + r.length;
    }

    /** A full ring moves to one of twice the capacity that begins at 0. */
    method Grow(r: Ref)
      requires Valid() && ring != null && nref == ring.Length && SoundRef(r)
      modifies this
      ensures Valid() && Refs() == old(Refs()) + [r] && fresh(ring) && ring.Length == 2 * old(ring.Length)
      ensures Exact() <==> old(Exact())
    {
      Snoc(Refs(), r);
      var newCap := 2 * (capMask + 1);
      assert PowerOfTwo(newCap);
      hide Total, Uses, PowerOfTwo, Ring;
      var bigger := new Ref[newCap];
      CopyRefs(bigger);
      bigger[nref] := r;
      UseRing(bigger, nref + 1, nbytes + r.length, Refs() + [r]);
    }

    /** Makes the first n references of an array the big view. */
    method UseRing(a: array<Ref>, n: nat, total: int, ghost refs: seq<Ref>)
      requires PowerOfTwo(a.Length) && 3 <= n <= a.Length
      requires a[..n] == refs && Sound(refs) && (total == Total(refs) || total == Total(refs) - U32)
      modifies this
      ensures Valid() && Refs() == refs && ring == a && (Exact() <==> total == Total(refs))
    {
      hide Total, Uses, PowerOfTwo, Ring;
      RingAtZero(a[..], n);
      word, start, ring, nref, capMask, nbytes := MAGIC, 0, a, n, a.Length - 1, total;
    }

    /** Copies the references in order to the front of an array. */
    method CopyRefs(a: array<Ref>)
      requires Valid() && RefNum() <= a.Length && a != ring
      modifies a
      ensures a[..RefNum()] == Refs()
    {
      hide Total, Uses, PowerOfTwo, Ring;
      var n := RefNum();
      for i := 0 to n
        invariant Valid() && n == RefNum()
        invariant a[..i] == Refs()[..i]
      {
        a[i] := RefAt(i);
      }
    }

    /** _push_back_ref counts a new reference to the block, _move_back_ref
        takes over the caller's. */
    method PushBackRef(store: Store, r: Ref, move: bool)
      requires Valid() && store.Valid() && SoundRef(r)
      requires r.block in store.blocks
      requires move ==> Uses(Refs(), r.block) + 1 <= Others(store.blocks, store.kept, r.block)
      modifies this, ring, store`blocks
      ensures Valid() && store.Valid()
      ensures Refs() == PushRef(old(Refs()), r)
      ensures Exact() <==> if old(ring) == null then Total(Refs()) < U32 else old(Exact())
      ensures old(Exact()) ==> Exact() || Overflows()
      ensures Pushed(old(store.blocks), store.blocks, old(Refs()), r, move)
      ensures if old(ring) == null then ring == null || (fresh(ring) && ring.Length == INITIAL_CAP)
        else if |Refs()| > old(ring.Length) then ring != null && fresh(ring) && ring.Length == 2 * old(ring.Length)
        else ring == old(ring)
    {
      PushSums(Refs(), r);
      if Small() { PushSmall(store, r, move); } else { PushBig(store, r, move); }
    }

    // ---- Popping a reference ---------------------------------------------------

    method ToSmallView(r0: Ref, r1: Ref)
      requires SoundRef(r0) && SoundRef(r1)
      modifies this
      ensures Valid() && Refs() == [r0, r1] && ring == null
    {
      SetFirst(r0);
      ref1, ring := Some(r1), null;
    }

    /** _pop_front_ref gives the reference up, _moveout_front_ref leaves its
        count to somebody else. */
    method PopFrontRef(store: Store, moveout: bool) returns (ok: bool)
      requires Valid() && store.Valid()
      requires !moveout && Refs() != [] ==> Others(store.blocks, store.kept, Refs()[0].block) > 0
      modifies this, store`blocks
      ensures Valid() && store.Valid()
      ensures ok <==> old(Refs()) != []
      ensures Refs() == if ok then old(Refs())[1..] else []
      ensures Exact() <==> if ring == null then Total(Refs()) < U32 else old(Exact())
      ensures old(Exact()) ==> Exact() || Overflows()
      ensures moveout || !ok ==> store.blocks == old(store.blocks)
      ensures !moveout && ok ==> Released(old(store.blocks), store.blocks, old(Refs())[0].block)
      ensures ring == null || ring == old(ring)
    {
      hide Uses, PowerOfTwo, Ring, And;
      if Small() {
        if block0 == None { return false; }
        if !moveout { store.DecRef(block0.value); }
        if ref1.Some? {
          SetFirst(ref1.value);
          ref1 := None;
        } else {
          word, length0, block0 := 0, 0, None;
        }
        return true;
      }
      if !moveout { store.DecRef(RefAt(0).block); }
      if nref - 1 > 2 { DropFront(); } else { ToSmallView(RefAt(1), RefAt(2)); }
      ok := true;
    }

    method DropFront()
      requires Valid() && ring != null && nref > 3
      modifies this
      ensures Valid() && Refs() == old(Refs())[1..] && ring == old(ring)
      ensures Exact() <==> old(Exact())
    {
      hide PowerOfTwo, Uses, And;
      RingPop(ring[..], start, nref);
      MaskIsAt(start, 1, ring.Length);
      assert forall i :: 0 <= i < |Refs()[1..]| ==> Refs()[1..][i] == Refs()[i + 1];
      var first := RefAt(0);
      start, nref, nbytes := And(start + 1, capMask), nref - 1, nbytes - first.length;
    }

    method PopBackRef(store: Store) returns (ok: bool)
      requires Valid() && store.Valid()
      requires Refs() != [] ==> Others(store.blocks, store.kept, Refs()[|Refs()| - 1].block) > 0
      modifies this, store`blocks
      ensures Valid() && store.Valid()
      ensures ok <==> old(Refs()) != []
      ensures Refs() == if ok then old(Refs())[..|old(Refs())| - 1] else []
      ensures Exact() <==> if ring == null then Total(Refs()) < U32 else old(Exact())
      ensures old(Exact()) ==> Exact() || Overflows()
      ensures !ok ==> store.blocks == old(store.blocks)
      ensures ok ==> Released(old(store.blocks), store.blocks, old(Refs())[|old(Refs())| - 1].block)
      ensures ring == null || ring == old(ring)
    {
      hide Uses, PowerOfTwo, Ring, And;
      if Small() {
        if ref1.Some? {
          store.DecRef(ref1.value.block);
          ref1 := None;
          return true;
        } else if block0.Some? {
          store.DecRef(block0.value);
          word, length0, block0 := 0, 0, None;
          return true;
        }
        return false;
      }
      store.DecRef(RefAt(nref - 1).block);
      if nref - 1 > 2 { DropBack(); } else { ToSmallView(RefAt(0), RefAt(1)); }
      ok := true;
    }

    method DropBack()
      requires Valid() && ring != null && nref > 3
      modifies this
      ensures Valid() && Refs() == old(Refs())[..|old(Refs())| - 1] && ring == old(ring)
      ensures Exact() <==> old(Exact())
    {
      RingPop(ring[..], start, nref);
      DropBackSums(Refs());
      var last := RefAt(nref - 1);
      nref, nbytes := nref - 1, nbytes - last.length;
    }

    // ---- Bytes -----------------------------------------------------------------

    ghost function Contents(store: Store): seq<Byte>
      requires Shape()
      reads this, ring, store
    {
      Bytes(store.blocks, Refs())
    }

    /** The references point at written bytes and are counted, beside the
        chain's own. */
    ghost predicate Backed(store: Store)
      reads this, ring, store
    {
      && Shape() && Valid() && store.Valid()
      && AllFit(store.blocks, Refs())
      && Covered(store.blocks, store.kept, Refs())
    }

    /** length() and empty() against the bytes. */
    lemma LengthOfContents(store: Store)
      requires Backed(store)
      ensures Length() == |Contents(store)| <==> Exact()
      ensures ring == null || nbytes != 0 ==> (Empty() <==> Contents(store) == [])
    {
      TotalIsLength(store.blocks, Refs());
      if Refs() != [] {
        assert SoundRef(Refs()[0]);
      }
    }

    /** dec_ref for every reference. */
    method ReleaseAll(store: Store)
      requires Valid() && store.Valid() && Covered(store.blocks, store.kept, Refs())
      modifies store`blocks
      ensures store.Valid() && Survive(old(store.blocks), store.blocks)
      ensures forall b :: Shared(store.blocks, b) == Shared(old(store.blocks), b) - Uses(Refs(), b)
    {
      hide PowerOfTwo, Ring, And, Total, Sound, Bytes;
      var n := RefNum();
      ghost var refs := Refs();
      for i := 0 to n
        invariant Valid() && Refs() == refs && store.Valid()
        invariant Survive(old(store.blocks), store.blocks)
        invariant forall b :: Shared(store.blocks, b) == Shared(old(store.blocks), b) - Uses(refs[..i], b)
      {
        UsesPrefix(refs, i);
        assert Uses(refs, refs[i].block) <= Others(old(store.blocks), store.kept, refs[i].block);
        store.DecRef(RefAt(i).block);
      }
      assert refs[..n] == refs;
    }

    /** inc_ref for every reference. */
    method CountAll(store: Store)
      requires Valid() && store.Valid() && AllFit(store.blocks, Refs())
      modifies store`blocks
      ensures store.Valid() && Survive(old(store.blocks), store.blocks)
      ensures forall b :: Shared(store.blocks, b) == Shared(old(store.blocks), b) + Uses(Refs(), b)
    {
      hide PowerOfTwo, Ring, And, Total, Sound, Bytes;
      var n := RefNum();
      ghost var refs := Refs();
      for i := 0 to n
        invariant Valid() && Refs() == refs && store.Valid()
        invariant Survive(old(store.blocks), store.blocks)
        invariant forall b :: Shared(store.blocks, b) == Shared(old(store.blocks), b) + Uses(refs[..i], b)
      {
        UsesPrefix(refs, i);
        assert Fits(old(store.blocks), refs[i]);
        assert Shared(store.blocks, refs[i].block) > 0;
        store.IncRef(RefAt(i).block);
      }
      assert refs[..n] == refs;
    }

    method Clear(store: Store)
      requires Backed(store)
      modifies this, store`blocks
      ensures Backed(store) && Refs() == [] && ring == null
      ensures Conserves(old(store.blocks), old(Refs()), store.blocks, Refs())
      ensures Exact()
    {
      hide *;
      Facts(store);
      ContentsAre(store);
      ghost var was, refs := store.blocks, Refs();
      ReleaseAll(store);
      Reset();
      ValidShape();
      AfterClear(was, store.blocks, store.kept, refs);
      Back(store);
    }

    method Reset()
      modifies this
      ensures Valid() && Refs() == [] && ring == null && Exact()
    {
      word, length0, block0, ref1, ring := 0, 0, None, None, null;
    }

    method DropFrontRef(store: Store)
      requires Backed(store) && Refs() != []
      modifies this, store`blocks
      ensures Backed(store)
      ensures old(Contents(store)) == Slice(old(store.blocks), old(Refs())[0]) + Contents(store)
      ensures |Slice(old(store.blocks), old(Refs())[0])| == old(Refs())[0].length
      ensures Conserves(old(store.blocks), old(Refs()), store.blocks, Refs())
      ensures ring == null || ring == old(ring)
      ensures old(Exact()) && store.limit <= THIRD ==> Exact()
    {
      ghost var refs, was := Refs(), store.blocks;
      assert Uses(refs, refs[0].block) > 0 by { Used(refs, 0); }
      hide PowerOfTwo, Ring, And, Total, Sound, AllFit, Bytes, Slice, Uses;
      assert Uses(refs, refs[0].block) <= Others(was, store.kept, refs[0].block);
      var ok := PopFrontRef(store, false);
      hide Covered, SameSlack;
      AfterDropFront(was, store.blocks, store.kept, refs);
      NoOverflow(store);
    }

    method DropBackRef(store: Store)
      requires Backed(store) && Refs() != []
      modifies this, store`blocks
      ensures Backed(store)
      ensures var r := old(Refs())[|old(Refs())| - 1];
        && old(Contents(store)) == Contents(store) + Slice(old(store.blocks), r)
        && |Slice(old(store.blocks), r)| == r.length
      ensures Conserves(old(store.blocks), old(Refs()), store.blocks, Refs())
      ensures ring == null || ring == old(ring)
      ensures old(Exact()) && store.limit <= THIRD ==> Exact()
    {
      ghost var refs, was, k := Refs(), store.blocks, |Refs()| - 1;
      assert Uses(refs, refs[k].block) > 0 by { Used(refs, k); }
      hide PowerOfTwo, Ring, And, Total, Sound, AllFit, Bytes, Slice, Uses;
      assert Uses(refs, refs[k].block) <= Others(was, store.kept, refs[k].block);
      var ok := PopBackRef(store);
      hide Covered, SameSlack;
      AfterDropBack(was, store.blocks, store.kept, refs, k);
      NoOverflow(store);
    }

    /** Takes n bytes off the only or first of two references. The first word
        still tells the small view if and only if the new offset stays below
        2^31: taking 2 GiB off a reference to 3 GiB turns the buffer into a big
        view without a ring. */
    method SkipSmall(n: nat)
      requires Shape() && ring == null && Refs() != [] && 0 < n < Refs()[0].length
      modifies `word, `length0
      ensures Shape() <==> old(Refs())[0].offset + n < SIGN
      ensures Shape() ==> Refs() == old(Refs())[0 := Skip(old(Refs())[0], n)]
    {
      word, length0 := word + n, length0 - n;
    }

    /** Takes n bytes off the first reference. */
    method SkipFirst(n: nat)
      requires Valid() && Refs() != [] && 0 < n < Refs()[0].length
      modifies this, ring
      ensures Valid() && Refs() == old(Refs())[0 := Skip(old(Refs())[0], n)] && ring == old(ring)
      ensures Exact() <==> if ring == null then Total(Refs()) < U32 else old(Exact())
      ensures old(Exact()) ==> Exact() || Overflows()
    {
      ghost var refs := Refs();
      SkipFrontSums(refs, n);
      assert SoundRef(refs[0]);
      hide Total, Uses, PowerOfTwo, Ring, And;
      if Small() {
        SkipSmall(n);
      } else {
        SetAt(0, Skip(RefAt(0), n));
        nbytes := nbytes - n;
      }
    }

    /** Takes n bytes off the last reference. */
    method ShortenLast(n: nat)
      requires Valid() && Refs() != [] && 0 < n < Refs()[|Refs()| - 1].length
      modifies this, ring
      ensures Valid() && Refs() == Shortened(old(Refs()), n) && ring == old(ring)
      ensures Exact() <==> if ring == null then Total(Refs()) < U32 else old(Exact())
      ensures old(Exact()) ==> Exact() || Overflows()
    {
      hide Total, Uses, PowerOfTwo, Ring, And, Sound, Shortened;
      ShortenedSums(Refs(), n);
      if Small() { ShortenSmall(n); } else { ShortenBig(n); }
    }

    method ShortenBig(n: nat)
      requires Valid() && ring != null && n < Refs()[nref - 1].length
      modifies `nbytes, ring
      ensures Shape() && Refs() == Shortened(old(Refs()), n) && ring == old(ring) && nbytes == old(nbytes) - n
    {
      hide PowerOfTwo, And, Ring;
      var r := RefAt(nref - 1);
      SetAt(nref - 1, r.(length := r.length - n));
      nbytes := nbytes - n;
    }

    method ShortenSmall(n: nat)
      requires Shape() && ring == null && Refs() != [] && n < Refs()[|Refs()| - 1].length
      modifies `length0, `ref1
      ensures Shape() && Refs() == Shortened(old(Refs()), n)
    {
      if ref1.Some? {
        ref1 := Some(ref1.value.(length := ref1.value.length - n));
      } else {
        length0 := length0 - n;
      }
    }

    method SkipFirstBytes(store: Store, n: nat)
      requires Backed(store) && Refs() != [] && 0 < n < Refs()[0].length
      modifies this, ring
      ensures Backed(store) && ring == old(ring)
      ensures var r := old(Refs())[0];
        && old(Contents(store)) == Slice(store.blocks, Ref(r.offset, n, r.block)) + Contents(store)
        && |Slice(store.blocks, Ref(r.offset, n, r.block))| == n
      ensures Conserves(store.blocks, old(Refs()), store.blocks, Refs())
      ensures old(Exact()) && store.limit <= THIRD ==> Exact()
    {
      ghost var refs := Refs();
      assert Fits(store.blocks, refs[0]);
      SkipFront(store.blocks, refs, n);
      SkipFrontSums(refs, n);
      hide Ring, PowerOfTwo, And, Total, Uses, Bytes, Sound;
      SkipFirst(n);
      NoOverflow(store);
    }

    // ---- Public operations -----------------------------------------------------

    method PopFront(store: Store, n: nat) returns (k: nat)
      requires Backed(store)
      requires Exact()
      modifies this, ring, store`blocks
      ensures Backed(store)
      ensures k == if n < |old(Contents(store))| then n else |old(Contents(store))|
      ensures Contents(store) == old(Contents(store))[k..]
      ensures Conserves(old(store.blocks), old(Refs()), store.blocks, Refs())
      ensures ring == null || ring == old(ring)
      ensures store.limit <= THIRD ==> Exact()
    {
      hide *;
      Facts(store);
      LengthOfContents(store);
      var len := Length();
      if n >= len {
        Clear(store);
        Facts(store);
        EmptyContents(store);
        return len;
      }
      ghost var all, was, refs := Contents(store), store.blocks, Refs();
      ConservesRefl(was, refs);
      var left: nat := n;
      while left > 0
        invariant Shape() && Valid() && Backed(store) && (ring == null || ring == old(ring))
        invariant left <= n < |all| && Contents(store) == all[n - left..]
        invariant Conserves(was, refs, store.blocks, Refs())
        invariant store.limit <= THIRD ==> Exact()
      {
        ghost var m1, x1 := store.blocks, Refs();
        NonEmpty(store);
        var r := RefAt(0);
        if r.length > left {
          SkipFirstBytes(store, left);
          Facts(store);
          SuffixStep(all, n - left, Slice(m1, Ref(r.offset, left, r.block)), Contents(store));
          ConservesTrans(was, refs, m1, x1, store.blocks, Refs());
          return n;
        }
        DropFrontRef(store);
        Facts(store);
        SuffixStep(all, n - left, Slice(m1, r), Contents(store));
        ConservesTrans(was, refs, m1, x1, store.blocks, Refs());
        left := left - r.length;
      }
      return n;
    }

    lemma Facts(store: Store)
      requires Backed(store)
      ensures Shape() && Valid() && store.Valid()
    {
    }

    lemma EmptyContents(store: Store)
      requires Shape() && Refs() == []
      ensures Contents(store) == []
    {
    }

    lemma NonEmpty(store: Store)
      requires Backed(store) && Contents(store) != []
      ensures Shape() && Refs() != [] && Refs()[0].length > 0 && Refs()[|Refs()| - 1].length > 0
    {
    }

    method PopBack(store: Store, n: nat) returns (k: nat)
      requires Backed(store)
      requires Exact()
      modifies this, ring, store`blocks
      ensures Backed(store)
      ensures k == if n < |old(Contents(store))| then n else |old(Contents(store))|
      ensures Contents(store) == old(Contents(store))[..|old(Contents(store))| - k]
      ensures Conserves(old(store.blocks), old(Refs()), store.blocks, Refs())
      ensures ring == null || ring == old(ring)
      ensures store.limit <= THIRD ==> Exact()
    {
      hide *;
      Facts(store);
      LengthOfContents(store);
      var len := Length();
      if n >= len {
        Clear(store);
        Facts(store);
        EmptyContents(store);
        return len;
      }
      ghost var all, was, refs := Contents(store), store.blocks, Refs();
      ConservesRefl(was, refs);
      var left: nat := n;
      while left > 0
        invariant Shape() && Valid() && Backed(store) && (ring == null || ring == old(ring))
        invariant left <= n < |all| && Contents(store) == all[..|all| - (n - left)]
        invariant Conserves(was, refs, store.blocks, Refs())
        invariant store.limit <= THIRD ==> Exact()
      {
        ghost var m1, x1 := store.blocks, Refs();
        NonEmpty(store);
        var r := RefAt(RefNum() - 1);
        if r.length > left {
          ShortenLastBytes(store, left);
          Facts(store);
          PrefixOfPrefix(all, |all| - (n - left), left, Contents(store));
          ConservesTrans(was, refs, m1, x1, store.blocks, Refs());
          return n;
        }
        DropBackRef(store);
        Facts(store);
        PrefixStep(all, |all| - (n - left), Slice(m1, r), Contents(store));
        ConservesTrans(was, refs, m1, x1, store.blocks, Refs());
        left := left - r.length;
      }
      return n;
    }

    method ShortenLastBytes(store: Store, n: nat)
      requires Backed(store) && Refs() != [] && 0 < n < Refs()[|Refs()| - 1].length
      modifies this, ring
      ensures Backed(store) && ring == old(ring)
      ensures Contents(store) <= old(Contents(store)) && |Contents(store)| == |old(Contents(store))| - n
      ensures Conserves(store.blocks, old(Refs()), store.blocks, Refs())
      ensures old(Exact()) && store.limit <= THIRD ==> Exact()
    {
      ghost var refs := Refs();
      ShortenedBytes(store.blocks, refs, n);
      ShortenedSums(refs, n);
      TotalIsLength(store.blocks, refs);
      TotalIsLength(store.blocks, Shortened(refs, n));
      hide Ring, PowerOfTwo, And, Total, Uses, Bytes, Sound, Shortened, AllFit;
      ShortenLast(n);
      NoOverflow(store);
    }

    // ---- Two buffers -------------------------------------------------------------

    /** Both buffers are backed and their references are counted together. */
    ghost predicate PairBacked(store: Store, other: IOBuf)
      reads this, ring, other, other.ring, store
    {
      && this != other && (ring == null || ring != other.ring) && Shape() && other.Shape() && Valid() && other.Valid() && store.Valid()
      && AllFit(store.blocks, Refs()) && AllFit(store.blocks, other.Refs())
      && Covered(store.blocks, store.kept, Refs() + other.Refs())
    }

    lemma PairFacts(store: Store, other: IOBuf)
      requires PairBacked(store, other)
      ensures this != other && (ring == null || ring != other.ring) && Shape() && other.Shape() && Valid() && other.Valid() && store.Valid()
      ensures Backed(store) && other.Backed(store)
    {
      UsesOfBoth(Refs(), other.Refs());
      hide Uses, AllFit, Ring, PowerOfTwo, Total, Sound;
      forall b ensures Uses(Refs(), b) <= Others(store.blocks, store.kept, b)
                    && Uses(other.Refs(), b) <= Others(store.blocks, store.kept, b) {
        assert Uses(Refs() + other.Refs(), b) <= Others(store.blocks, store.kept, b);
      }
    }

    /** The first reference moves to the end of out, which takes over its count. */
    method MoveFront(store: Store, out: IOBuf)
      requires PairBacked(store, out) && Refs() != []
      modifies this, out, out.ring, store`blocks
      ensures PairBacked(store, out)
      ensures var part := Slice(old(store.blocks), old(Refs())[0]);
        && |part| == old(Refs())[0].length
        && old(Contents(store)) == part + Contents(store)
        && out.Contents(store) == old(out.Contents(store)) + part
      ensures Conserves(old(store.blocks), old(Refs() + out.Refs()), store.blocks, Refs() + out.Refs())
      ensures ring == null || ring == old(ring)
      ensures out.ring == null || out.ring == old(out.ring) || fresh(out.ring)
      ensures old(Exact()) && store.limit <= THIRD ==> Exact()
      ensures old(out.Exact()) && store.limit <= THIRD ==> out.Exact()
    {
      hide *;
      PairParts(store, out);
      ghost var was, x, y := store.blocks, Refs(), out.Refs();
      MayMove(was, store.kept, x, y);
      FirstIsSound();
      var r := RefAt(0);
      out.PushBackRef(store, r, true);
      var ok := PopFrontRef(store, true);
      AfterMove(was, store.blocks, store.kept, x, y);
      ValidShape();
      out.ValidShape();
      PairAssemble(store, out);
      NoOverflow(store);
      out.NoOverflow(store);
    }

    lemma ValidShape()
      requires Valid()
      ensures Shape()
    {
    }

    lemma FirstIsSound()
      requires Valid() && Refs() != []
      ensures SoundRef(Refs()[0])
    {
    }

    /** What the pair's predicate says, piece by piece. */
    lemma PairParts(store: Store, other: IOBuf)
      requires PairBacked(store, other)
      ensures this != other && (ring == null || ring != other.ring) && Shape() && other.Shape()
      ensures Valid() && other.Valid() && store.Valid()
      ensures AllFit(store.blocks, Refs()) && AllFit(store.blocks, other.Refs())
      ensures Covered(store.blocks, store.kept, Refs() + other.Refs())
      ensures Contents(store) == Bytes(store.blocks, Refs())
      ensures other.Contents(store) == Bytes(store.blocks, other.Refs())
    {
    }

    lemma PairAssemble(store: Store, other: IOBuf)
      requires this != other && (ring == null || ring != other.ring) && Shape() && other.Shape()
      requires Valid() && other.Valid() && store.Valid()
      requires AllFit(store.blocks, Refs()) && AllFit(store.blocks, other.Refs())
      requires Covered(store.blocks, store.kept, Refs() + other.Refs())
      ensures PairBacked(store, other)
      ensures Contents(store) == Bytes(store.blocks, Refs())
      ensures other.Contents(store) == Bytes(store.blocks, other.Refs())
    {
    }

    /** Appends a copy of n bytes of the first reference to out. */
    method ShareFront(store: Store, out: IOBuf, n: nat)
      requires PairBacked(store, out) && Refs() != [] && 0 < n < Refs()[0].length
      modifies this, ring, out, out.ring, store`blocks
      ensures PairBacked(store, out)
      ensures n <= |old(Contents(store))| && old(Contents(store)) == old(Contents(store))[..n] + Contents(store)
      ensures out.Contents(store) == old(out.Contents(store)) + old(Contents(store))[..n]
      ensures Conserves(old(store.blocks), old(Refs() + out.Refs()), store.blocks, Refs() + out.Refs())
      ensures ring == null || ring == old(ring)
      ensures out.ring == null || out.ring == old(out.ring) || fresh(out.ring)
      ensures old(Exact()) && store.limit <= THIRD ==> Exact()
      ensures old(out.Exact()) && store.limit <= THIRD ==> out.Exact()
    {
      hide *;
      PairParts(store, out);
      ghost var was, x, y := store.blocks, Refs(), out.Refs();
      var first := RefAt(0);
      var r := Ref(first.offset, n, first.block);
      PartFits(store, n);
      out.PushBackRef(store, r, false);
      ghost var now := store.blocks;
      AfterShare(was, now, store.kept, x, y, r);
      SkipFirst(n);
      AfterSkip(was, now, store.kept, x, y, PushRef(y, r), n);
      ValidShape();
      out.ValidShape();
      PairAssemble(store, out);
      NoOverflow(store);
      out.NoOverflow(store);
    }

    lemma PartFits(store: Store, n: nat)
      requires Valid() && AllFit(store.blocks, Refs()) && Refs() != [] && 0 < n < Refs()[0].length
      ensures var r := Ref(Refs()[0].offset, n, Refs()[0].block);
        SoundRef(r) && Fits(store.blocks, r) && r.block in store.blocks
    {
      assert SoundRef(Refs()[0]) && Fits(store.blocks, Refs()[0]);
    }

    /** One round of cutn: the first reference moves, or n of its bytes are
        shared. */
    method MoveSome(store: Store, out: IOBuf, n: nat) returns (k: nat)
      requires PairBacked(store, out) && Contents(store) != [] && n > 0
      modifies this, ring, out, out.ring, store`blocks
      ensures PairBacked(store, out) && 0 < k <= n && k <= |old(Contents(store))|
      ensures Contents(store) == old(Contents(store))[k..]
      ensures out.Contents(store) == old(out.Contents(store)) + old(Contents(store))[..k]
      ensures Conserves(old(store.blocks), old(Refs() + out.Refs()), store.blocks, Refs() + out.Refs())
      ensures ring == null || ring == old(ring)
      ensures out.ring == null || out.ring == old(out.ring) || fresh(out.ring)
      ensures old(Exact()) && store.limit <= THIRD ==> Exact()
      ensures old(out.Exact()) && store.limit <= THIRD ==> out.Exact()
    {
      hide *;
      PairFacts(store, out);
      NonEmpty(store);
      var r := RefAt(0);
      if r.length <= n {
        k := r.length;
        MoveFront(store, out);
      } else {
        k := n;
        ShareFront(store, out, n);
      }
    }

    /** cutn: the first n bytes go to the end of out. */
    method CutInto(store: Store, out: IOBuf, n: nat) returns (k: nat)
      requires PairBacked(store, out)
      requires Exact()
      modifies this, ring, out, out.ring, store`blocks
      ensures PairBacked(store, out)
      ensures k == if n < |old(Contents(store))| then n else |old(Contents(store))|
      ensures Contents(store) == old(Contents(store))[k..]
      ensures out.Contents(store) == old(out.Contents(store)) + old(Contents(store))[..k]
      ensures Conserves(old(store.blocks), old(Refs() + out.Refs()), store.blocks, Refs() + out.Refs())
      ensures ring == null || ring == old(ring)
      ensures out.ring == null || out.ring == old(out.ring) || fresh(out.ring)
      ensures store.limit <= THIRD ==> Exact()
      ensures old(out.Exact()) && store.limit <= THIRD ==> out.Exact()
    {
      hide *;
      PairFacts(store, out);
      LengthOfContents(store);
      var len := Length();
      k := if n > len then len else n;
      ghost var all, had, was, refs := Contents(store), out.Contents(store), store.blocks, Refs() + out.Refs();
      ConservesRefl(was, refs);
      var left: nat := k;
      while left > 0
        invariant Shape() && Valid() && out.Shape() && PairBacked(store, out)
        invariant ring == null || ring == old(ring)
        invariant out.ring == null || out.ring == old(out.ring) || fresh(out.ring)
        invariant left <= k <= |all| && Contents(store) == all[k - left..]
        invariant out.Contents(store) == had + all[..k - left]
        invariant Conserves(was, refs, store.blocks, Refs() + out.Refs())
        invariant store.limit <= THIRD ==> Exact() && (old(out.Exact()) ==> out.Exact())
      {
        ghost var m1, x1 := store.blocks, Refs() + out.Refs();
        var c := MoveSome(store, out, left);
        PairFacts(store, out);
        MovedSome(all, had, k - left, c);
        ConservesTrans(was, refs, m1, x1, store.blocks, Refs() + out.Refs());
        left := left - c;
      }
    }

    /** One round of cutn into raw memory: the first reference, or n of its
        bytes. */
    method CutSome(store: Store, n: nat) returns (part: seq<Byte>)
      requires Backed(store) && Contents(store) != [] && n > 0
      modifies this, ring, store`blocks
      ensures Backed(store) && 0 < |part| <= n
      ensures old(Contents(store)) == part + Contents(store)
      ensures Conserves(old(store.blocks), old(Refs()), store.blocks, Refs())
      ensures ring == null || ring == old(ring)
      ensures old(Exact()) && store.limit <= THIRD ==> Exact()
    {
      hide *;
      NonEmpty(store);
      Facts(store);
      var r := RefAt(0);
      if r.length <= n {
        part := Slice(store.blocks, r);
        DropFrontRef(store);
      } else {
        part := Slice(store.blocks, Ref(r.offset, n, r.block));
        SkipFirstBytes(store, n);
      }
    }

    /** cutn into raw memory: the first n bytes are copied out and dropped. */
    method CutBytes(store: Store, n: nat) returns (bytes: seq<Byte>)
      requires Backed(store)
      requires Exact()
      modifies this, ring, store`blocks
      ensures Backed(store)
      ensures old(Contents(store)) == bytes + Contents(store)
      ensures |bytes| == if n < |old(Contents(store))| then n else |old(Contents(store))|
      ensures Conserves(old(store.blocks), old(Refs()), store.blocks, Refs())
      ensures ring == null || ring == old(ring)
      ensures store.limit <= THIRD ==> Exact()
    {
      hide *;
      Facts(store);
      LengthOfContents(store);
      var len := Length();
      ghost var all, was, refs := Contents(store), store.blocks, Refs();
      ConservesRefl(was, refs);
      var left: nat := if n > len then len else n;
      ghost var k := left;
      bytes := [];
      while left > 0
        invariant Shape() && Valid() && Backed(store) && (ring == null || ring == old(ring))
        invariant left + |bytes| == k <= |all| && all == bytes + Contents(store)
        invariant Conserves(was, refs, store.blocks, Refs())
        invariant store.limit <= THIRD ==> Exact()
      {
        ghost var m1, x1 := store.blocks, Refs();
        var part := CutSome(store, left);
        Facts(store);
        Assoc(bytes, part, Contents(store));
        ConservesTrans(was, refs, m1, x1, store.blocks, Refs());
        bytes, left := bytes + part, left - |part|;
      }
    }

    /** copy_to: up to n bytes from position pos, leaving the buffer alone. */
    method CopyTo(store: Store, n: nat, pos: nat) returns (d: seq<Byte>)
      requires Backed(store)
      ensures d == Window(Contents(store), pos, n)
    {
      hide *;
      Facts(store);
      ContentsAre(store);
      ghost var all, m, refs := Contents(store), store.blocks, Refs();
      SkipStart(m, refs, all, pos);
      var nref := RefNum();
      var i: nat, offset: nat := 0, pos;
      while offset != 0 && i < nref
        invariant i <= nref && Skipping(m, refs, all, pos, i, offset)
      {
        var r := RefAt(i);
        if offset < r.length { break; }
        SkipOne(m, refs, all, pos, i, offset);
        offset := offset - r.length;
        i := i + 1;
      }
      CopyStart(m, refs, all, pos, n, i, offset);
      d := [];
      var left: nat := n;
      while left != 0 && i < nref
        invariant i <= nref && left + |d| == n && Copying(m, refs, all, pos, n, i, offset, d)
      {
        var r := RefAt(i);
        MoreToCopy(m, refs, all, pos, n, i, offset, d);
        var nc := if left < r.length - offset then left else r.length - offset;
        CopyOne(m, refs, all, pos, n, i, offset, d, nc);
        d := d + Slice(store.blocks, r)[offset..offset + nc];
        offset := 0;
        left := left - nc;
        i := i + 1;
      }
      CopyDone(m, refs, all, pos, n, i, offset, d);
    }

    lemma ContentsAre(store: Store)
      requires Backed(store)
      ensures Shape() && Contents(store) == Bytes(store.blocks, Refs()) && AllFit(store.blocks, Refs())
      ensures Covered(store.blocks, store.kept, Refs())
    {
    }

    /** append of another buffer shares its blocks. */
    method AppendBuf(store: Store, other: IOBuf)
      requires other.PairBacked(store, this)
      modifies this, ring, store`blocks
      ensures other.PairBacked(store, this)
      ensures Contents(store) == old(Contents(store)) + old(other.Contents(store))
      ensures other.Refs() == old(other.Refs()) && other.Contents(store) == old(other.Contents(store))
      ensures Conserves(old(store.blocks), old(other.Refs() + Refs()), store.blocks, other.Refs() + Refs())
      ensures ring == null || ring == old(ring) || fresh(ring)
      ensures old(Exact()) && store.limit <= THIRD ==> Exact()
    {
      hide *;
      other.PairParts(store, this);
      ghost var had, was, x, refs := Contents(store), store.blocks, other.Refs(), other.Refs() + Refs();
      ConservesRefl(was, refs);
      NoneYet(was, x, had);
      var n := other.RefNum();
      for i := 0 to n
        invariant other.Shape() && Shape() && Valid() && other.PairBacked(store, this) && other.Refs() == x
        invariant ring == null || ring == old(ring) || fresh(ring)
        invariant Contents(store) == had + Bytes(store.blocks, x[..i])
        invariant Bytes(store.blocks, x) == Bytes(was, x)
        invariant old(Exact()) && store.limit <= THIRD ==> Exact()
        invariant Conserves(was, refs, store.blocks, other.Refs() + Refs())
      {
        other.PairParts(store, this);
        ghost var m1, y1 := store.blocks, Refs();
        other.IsSound(store, i);
        PushBackRef(store, other.RefAt(i), false);
        AfterShareAt(m1, store.blocks, store.kept, x, y1, i);
        ValidShape();
        other.PairAssemble(store, this);
        NoOverflow(store);
        ConservesTrans(was, refs, m1, x + y1, store.blocks, x + Refs());
        Assoc(had, Bytes(m1, x[..i]), Slice(m1, x[i]));
      }
      assert x[..n] == x;
      other.PairParts(store, this);
    }

    /** Pushing r moves the ring. */
    predicate MustGrow(r: Ref)
      requires Valid()
      reads this, ring
      ensures MustGrow(r) <==> ring != null && |PushRef(Refs(), r)| > ring.Length
    {
      !Small() && !Adjacent(RefAt(nref - 1), r) && nref == capMask + 1
    }

    lemma RefCount()
      requires Valid()
      ensures if ring == null then 2 * |Refs()| <= INITIAL_CAP else |Refs()| <= ring.Length
    {
    }

    /** append of the buffer to itself: the references are taken one by one
        from the buffer that grows. When a push moves the ring, the rest of
        that push reads the reference in the ring just released; dangling
        tells that, and here the reference is still what it was. */
    method AppendSelf(store: Store) returns (dangling: bool)
      requires Backed(store)
      modifies this, ring, store`blocks
      ensures Backed(store)
      ensures Refs() == Selfed(old(Refs()), 0, |old(Refs())|)
      ensures Contents(store) == old(Contents(store)) + old(Contents(store)) <==>
        old(Refs()) == [] || !Adjacent(old(Refs())[|old(Refs())| - 1], old(Refs())[0])
      ensures dangling <==> old(ring) != null && |Refs()| > old(ring.Length)
      ensures Conserves(old(store.blocks), old(Refs()), store.blocks, Refs())
      ensures ring == null || ring == old(ring) || fresh(ring)
      ensures old(Exact()) && store.limit <= THIRD ==> Exact()
    {
      hide *;
      Facts(store);
      ContentsAre(store);
      RefCount();
      ghost var was, x := store.blocks, Refs();
      ConservesRefl(was, x);
      SelfedNone(x);
      dangling := false;
      var n := RefNum();
      for i := 0 to n
        invariant Shape() && Valid() && Backed(store) && n <= |Refs()| <= n + i
        invariant Refs() == Selfed(x, 0, i)
        invariant old(ring) == null ==> !dangling && (ring == null || ring.Length == INITIAL_CAP)
        invariant old(ring) != null && !dangling ==> ring == old(ring) && |Refs()| <= ring.Length
        invariant old(ring) != null && dangling ==> ring != null && ring.Length == 2 * old(ring.Length) && |Refs()| > old(ring.Length)
        invariant ring == null || ring == old(ring) || fresh(ring)
        invariant Conserves(was, x, store.blocks, Refs())
        invariant old(Exact()) && store.limit <= THIRD ==> Exact()
      {
        ghost var m1, x1 := store.blocks, Refs();
        var full := PushOwn(store, i);
        Facts(store);
        dangling := dangling || full;
        SelfedSnoc(x, 0, i);
        ConservesTrans(was, x, m1, x1, store.blocks, Refs());
      }
      ContentsAre(store);
      SelfedKeeps(was, store.blocks, store.kept, x);
      SelfAppendDoubles(was, x);
    }

    /** One round of append to itself. */
    method PushOwn(store: Store, i: nat) returns (full: bool)
      requires Backed(store) && i < |Refs()|
      modifies this, ring, store`blocks
      ensures Backed(store)
      ensures Refs() == PushRef(old(Refs()), old(Refs())[i])
      ensures |old(Refs())| <= |Refs()| <= |old(Refs())| + 1
      ensures full <==> old(ring) != null && |Refs()| > old(ring.Length)
      ensures Conserves(old(store.blocks), old(Refs()), store.blocks, Refs())
      ensures if old(ring) == null then ring == null || (fresh(ring) && ring.Length == INITIAL_CAP)
        else if full then ring != null && fresh(ring) && ring.Length == 2 * old(ring.Length)
        else ring == old(ring)
      ensures old(Exact()) && store.limit <= THIRD ==> Exact()
    {
      hide *;
      Facts(store);
      ContentsAre(store);
      ghost var was, x := store.blocks, Refs();
      var r := RefAt(i);
      IsSound(store, i);
      PushLength(x, r);
      full := MustGrow(r);
      PushBackRef(store, r, false);
      AfterShareOwn(was, store.blocks, store.kept, x, r);
      ValidShape();
      NoOverflow(store);
      Back(store);
    }

    lemma IsSound(store: Store, i: nat)
      requires Valid() && AllFit(store.blocks, Refs()) && i < |Refs()|
      ensures SoundRef(Refs()[i]) && Refs()[i].block in store.blocks && Fits(store.blocks, Refs()[i])
    {
      assert Fits(store.blocks, Refs()[i]);
    }

    /** Assignment of the whole union. */
    method CopyView(src: IOBuf)
      requires src.Valid()
      modifies this
      ensures Valid() && Refs() == old(src.Refs()) && ring == old(src.ring)
      ensures Exact() <==> old(src.Exact())
    {
      hide Ring, PowerOfTwo, Total, Sound;
      word, length0, block0, ref1 := src.word, src.length0, src.block0, src.ref1;
      start, ring, nref, capMask, nbytes := src.start, src.ring, src.nref, src.capMask, src.nbytes;
    }

    method Swap(other: IOBuf)
      requires Valid() && other.Valid() && this != other
      modifies this, other
      ensures ring == old(other.ring) && other.ring == old(ring)
      ensures Valid() && Refs() == old(other.Refs())
      ensures other.Valid() && other.Refs() == old(Refs())
      ensures (Exact() <==> old(other.Exact())) && (other.Exact() <==> old(Exact()))
    {
      hide *;
      var tmp := new IOBuf();
      tmp.CopyView(other);
      other.CopyView(this);
      this.CopyView(tmp);
    }

    /** append of a movable buffer takes its references and their counts. */
    method AppendMovable(store: Store, other: IOBuf)
      requires other.PairBacked(store, this)
      requires ring == null || nbytes != 0
      modifies this, ring, other, store`blocks
      ensures other.PairBacked(store, this)
      ensures Contents(store) == old(Contents(store)) + old(other.Contents(store))
      ensures other.Contents(store) == []
      ensures Conserves(old(store.blocks), old(other.Refs() + Refs()), store.blocks, other.Refs() + Refs())
      ensures ring == null || ring == old(ring) || ring == old(other.ring) || fresh(ring)
      ensures other.ring == null || other.ring == old(ring)
      ensures old(Exact()) && old(other.Exact()) && store.limit <= THIRD ==> Exact() && other.Exact()
    {
      hide *;
      other.PairParts(store, this);
      other.PairFacts(store, this);
      LengthOfContents(store);
      ghost var had, was, x, y := Contents(store), store.blocks, other.Refs(), Refs();
      if Empty() {
        EmptyRefs(store);
        Swap(other);
        ValidShape();
        other.ValidShape();
        SwapCounts(was, store.kept, x, y);
        other.PairAssemble(store, this);
        NoneYet(was, y, had);
        return;
      }
      ConservesRefl(was, x + y);
      assert x[0..] == x;
      NoneYet(was, x, had);
      var n := other.RefNum();
      for i := 0 to n
        invariant Shape() && Valid() && other.Shape() && other.Valid() && store.Valid()
        invariant other.Refs() == x && other.ring == old(other.ring)
        invariant ring == null || ring == old(ring) || fresh(ring)
        invariant AllFit(store.blocks, x[i..]) && AllFit(store.blocks, Refs())
        invariant Covered(store.blocks, store.kept, x[i..] + Refs())
        invariant Bytes(store.blocks, Refs()) + Bytes(store.blocks, x[i..]) == had + Bytes(was, x)
        invariant Conserves(was, x + y, store.blocks, x[i..] + Refs())
        invariant old(Exact()) && store.limit <= THIRD ==> Exact()
      {
        ghost var m1, y1, z := store.blocks, Refs(), x[i..];
        assert z[0] == x[i] && z[1..] == x[i + 1..];
        MayMove(m1, store.kept, z, y1);
        other.RefIsSound(i);
        PushBackRef(store, other.RefAt(i), true);
        AfterMove(m1, store.blocks, store.kept, z, y1);
        ValidShape();
        NoOverflow(store);
        ConservesTrans(was, x + y, m1, z + y1, store.blocks, x[i + 1..] + Refs());
        Assoc(Bytes(m1, y1), Slice(m1, z[0]), Bytes(store.blocks, z[1..]));
      }
      assert x[n..] == [];
      other.Reset();
      other.ValidShape();
      other.PairAssemble(store, this);
      NoneLeft(store.blocks, Refs());
    }

    lemma RefIsSound(i: nat)
      requires Valid() && i < |Refs()|
      ensures SoundRef(Refs()[i])
    {
    }

    lemma EmptyRefs(store: Store)
      requires Backed(store) && Contents(store) == []
      ensures Shape() && Refs() == []
    {
      NoBytesNoRefs(store.blocks, Refs());
    }

    /** append of raw memory: the bytes go behind the last byte of the
        thread's current block. Without memory for a new block the bytes
        already copied stay appended. */
    method AppendBytes(store: Store, t: nat, bytes: seq<Byte>) returns (ok: bool)
      requires Backed(store)
      modifies this, ring, store
      ensures Backed(store)
      ensures ok ==> Contents(store) == old(Contents(store)) + bytes
      ensures old(Contents(store)) <= Contents(store) <= old(Contents(store)) + bytes
      ensures Grows(old(store.blocks), old(store.kept), old(Refs()), store.blocks, store.kept, Refs())
      ensures ring == null || ring == old(ring) || fresh(ring)
      ensures old(Exact()) && store.limit <= THIRD ==> Exact()
    {
      hide *;
      Facts(store);
      ghost var had, m, c, x := Contents(store), store.blocks, store.kept, Refs();
      GrowsRefl(m, c, x);
      assert had + bytes[..0] == had;
      var done: nat := 0;
      while done < |bytes|
        invariant done <= |bytes| && Shape() && Valid() && store.Valid() && Backed(store)
        invariant ring == null || ring == old(ring) || fresh(ring)
        invariant Contents(store) == had + bytes[..done]
        invariant old(Exact()) && store.limit <= THIRD ==> Exact()
        invariant Grows(m, c, x, store.blocks, store.kept, Refs())
      {
        ghost var m1, c1, x1 := store.blocks, store.kept, Refs();
        var nc := AppendSome(store, t, bytes[done..]);
        Facts(store);
        GrowsTrans(m, c, x, m1, c1, x1, store.blocks, store.kept, Refs());
        assert bytes[..done + nc] == bytes[..done] + bytes[done..][..nc];
        Assoc(had, bytes[..done], bytes[done..][..nc]);
        if nc == 0 {
          return false;
        }
        done := done + nc;
      }
      assert bytes[..done] == bytes;
      ok := true;
    }

    /** One round of append; 0 means that there was no block. */
    method AppendSome(store: Store, t: nat, bytes: seq<Byte>) returns (nc: nat)
      requires Backed(store) && bytes != []
      modifies this, ring, store
      ensures Backed(store)
      ensures nc <= |bytes| && Contents(store) == old(Contents(store)) + bytes[..nc]
      ensures Grows(old(store.blocks), old(store.kept), old(Refs()), store.blocks, store.kept, Refs())
      ensures ring == null || ring == old(ring) || fresh(ring)
      ensures old(Exact()) && store.limit <= THIRD ==> Exact()
    {
      hide *;
      Facts(store);
      ContentsAre(store);
      ghost var m, c, x := store.blocks, store.kept, Refs();
      var b := store.ShareTlsBlock(t);
      if b == None {
        StillBacked(store, m, c, x);
        return 0;
      }
      var at := b.value;
      RoomIn(store, at);
      var size := |store.blocks[at].data|;
      var room := store.blocks[at].cap - size;
      nc := if |bytes| < room then |bytes| else room;
      ghost var m1 := store.blocks;
      store.Write(at, bytes[..nc]);
      SoundSpace(m1, store.blocks, at, bytes[..nc]);
      PushBackRef(store, Ref(size, nc, at), false);
      AfterAppend(m, c, x, m1, store.kept, at, bytes[..nc], store.blocks);
      ValidShape();
      NoOverflow(store);
      Back(store);
    }

    /** append_user_data_with_meta: the user's memory becomes a block of its
        own. Too much of it is refused, and nothing is left alone. */
    method AppendUserData(store: Store, bytes: seq<Byte>) returns (rc: int)
      requires Backed(store) && (|bytes| <= store.limit || |bytes| > MAX_USER_DATA)
      modifies this, ring, store`blocks
      ensures Backed(store) && (rc == 0 || rc == -1) && (|bytes| > MAX_USER_DATA ==> rc == -1)
      ensures Contents(store) == if rc == 0 then old(Contents(store)) + bytes else old(Contents(store))
      ensures Grows(old(store.blocks), store.kept, old(Refs()), store.blocks, store.kept, Refs())
      ensures ring == null || ring == old(ring) || fresh(ring)
      ensures old(Exact()) && store.limit <= THIRD ==> Exact()
    {
      hide *;
      Facts(store);
      ContentsAre(store);
      ghost var m, c, x := store.blocks, store.kept, Refs();
      GrowsRefl(m, c, x);
      if |bytes| > MAX_USER_DATA { return -1; }
      if |bytes| == 0 { return 0; }
      LimitIs(store);
      var b := store.AdoptBlock(bytes);
      if b == None { return -1; }
      MayAdopt(m, c, x, b.value, bytes);
      PushBackRef(store, Ref(0, |bytes|, b.value), true);
      AfterAdopt(m, c, x, b.value, bytes, store.blocks);
      ValidShape();
      NoOverflow(store);
      Back(store);
      rc := 0;
    }

    lemma LimitIs(store: Store)
      requires store.Valid()
      ensures store.limit <= SIGN && forall b :: b in store.kept ==> b in store.blocks
    {
    }

    lemma MayAdopt(m: map<nat, Block>, c: set<nat>, x: seq<Ref>, b: nat, bytes: seq<Byte>)
      requires Covered(m, c, x) && b !in m && b !in c && 0 < |bytes| <= SIGN
      ensures SoundRef(Ref(0, |bytes|, b)) && Uses(x, b) + 1 <= Others(m[b := Block(|bytes|, bytes, 1)], c, b)
    {
      assert Uses(x, b) <= Others(m, c, b);
    }

    lemma RoomIn(store: Store, b: nat)
      requires store.Valid() && b in store.blocks && !Full(store.blocks[b])
      ensures |store.blocks[b].data| < store.blocks[b].cap <= SIGN
    {
      assert BlockOk(store.blocks[b], store.limit);
    }

    lemma SoundSpace(m1: map<nat, Block>, now: map<nat, Block>, b: nat, bytes: seq<Byte>)
      requires b in m1 && bytes != [] && now == Extended(m1, b, bytes) && |m1[b].data| + |bytes| <= SIGN
      ensures SoundRef(Ref(|m1[b].data|, |bytes|, b)) && b in now
    {
    }

    lemma Back(store: Store)
      requires Shape() && Valid() && store.Valid() && AllFit(store.blocks, Refs()) && Covered(store.blocks, store.kept, Refs())
      ensures Backed(store) && Contents(store) == Bytes(store.blocks, Refs())
    {
    }

    /** Nothing a buffer refers to is disturbed by share_tls_block. */
    lemma StillBacked(store: Store, m: map<nat, Block>, c: set<nat>, x: seq<Ref>)
      requires Shape() && Valid() && Refs() == x && store.Valid() && AllFit(m, x) && Covered(m, c, x)
      requires Undisturbed(m, c, store.blocks, store.kept)
      ensures Backed(store) && Contents(store) == Bytes(m, x) + []
      ensures Grows(m, c, x, store.blocks, store.kept, x)
    {
      hide Ring, PowerOfTwo, Total, Sound, Uses, Bytes, AllFit, Shared;
      forall b | Uses(x, b) > 0 ensures b in m && b in store.blocks && m[b].data <= store.blocks[b].data {
        assert Uses(x, b) <= Others(m, c, b);
      }
      forall b ensures Uses(x, b) <= Others(store.blocks, store.kept, b) {
        assert Uses(x, b) <= Others(m, c, b);
      }
      BytesSame(m, store.blocks, x);
    }

    /** equals: byte-wise equality, however the bytes are spread over blocks. */
    method Equals(store: Store, other: IOBuf) returns (same: bool)
      requires Backed(store) && other.Backed(store)
      requires Exact() && other.Exact()
      ensures same <==> Contents(store) == other.Contents(store)
    {
      hide *;
      Facts(store);
      other.Facts(store);
      ContentsAre(store);
      other.ContentsAre(store);
      LengthOfContents(store);
      other.LengthOfContents(store);
      if Length() != other.Length() { return false; }
      if Length() == 0 { return true; }
      ghost var m, x, y := store.blocks, Refs(), other.Refs();
      NonEmpty(store);
      other.NonEmpty(store);
      CursorStart(m, x);
      CursorStart(m, y);
      ghost var p := [];
      var d1, d2 := Slice(store.blocks, RefAt(0)), Slice(store.blocks, other.RefAt(0));
      var i: nat, j: nat := 1, 1;
      while true
        invariant i <= |x| && j <= |y| && d1 != [] && d2 != []
        invariant Cursor(m, x, p, d1, i) && Cursor(m, y, p, d2, j)
        decreases |Bytes(m, x)| - |p|
      {
        var cmplen := if |d1| < |d2| then |d1| else |d2|;
        if d1[..cmplen] != d2[..cmplen] {
          CursorDiffers(m, x, y, p, d1, i, d2, j, cmplen);
          return false;
        }
        CursorLong(m, x, p, d1, i);
        CursorPass(m, x, p, d1, i, cmplen);
        CursorPass(m, y, p, d2, j, cmplen);
        p := p + d1[..cmplen];
        d1, d2 := d1[cmplen..], d2[cmplen..];
        CursorLong(m, x, p, d1, i);
        CursorLong(m, y, p, d2, j);
        if d1 == [] {
          if i >= RefNum() {
            CursorEnd(m, x, p, i);
            return true;
          }
          CursorNext(m, x, p, i);
          d1, i := Slice(store.blocks, RefAt(i)), i + 1;
        }
        if d2 == [] {
          if j >= other.RefNum() {
            CursorEnd(m, y, p, j);
            return true;
          }
          CursorNext(m, y, p, j);
          d2, j := Slice(store.blocks, other.RefAt(j)), j + 1;
        }
      }
    }

    // ---- Copying -----------------------------------------------------------------

    lemma ViewFacts()
      requires Valid()
      ensures Small() <==> ring == null
      ensures ring != null ==>
        && PowerOfTwo(ring.Length) && ring.Length == capMask + 1 && 3 <= nref <= ring.Length
        && (nbytes == Total(Refs()) || nbytes == Total(Refs()) - U32) && (Exact() <==> nbytes == Total(Refs()))
        && nref == RefNum() == |Refs()|
      ensures Sound(Refs())
    {
    }

    /** The copy constructor's body. */
    method InitCopy(store: Store, rhs: IOBuf)
      requires rhs.Backed(store) && this != rhs
      modifies this, store`blocks
      ensures PairBacked(store, rhs)
      ensures Contents(store) == rhs.Contents(store) == old(rhs.Contents(store)) && rhs.Refs() == old(rhs.Refs())
      ensures Conserves(old(store.blocks), old(rhs.Refs()), store.blocks, Refs() + rhs.Refs())
      ensures ring == null || fresh(ring)
      ensures Exact() <==> rhs.Exact()
    {
      hide *;
      rhs.Facts(store);
      rhs.ContentsAre(store);
      rhs.ViewFacts();
      ghost var was, x := store.blocks, rhs.Refs();
      if rhs.Small() {
        CopyView(rhs);
      } else {
        var a := new Ref[rhs.capMask + 1];
        rhs.CopyRefs(a);
        UseRing(a, rhs.nref, rhs.nbytes, x);
      }
      CountAll(store);
      AfterCopy(was, store.blocks, store.kept, x);
      ValidShape();
      rhs.ValidShape();
      PairAssemble(store, rhs);
    }

    constructor Copy(store: Store, rhs: IOBuf)
      requires rhs.Backed(store)
      modifies store`blocks
      ensures PairBacked(store, rhs)
      ensures Contents(store) == rhs.Contents(store) == old(rhs.Contents(store)) && rhs.Refs() == old(rhs.Refs())
      ensures Conserves(old(store.blocks), old(rhs.Refs()), store.blocks, Refs() + rhs.Refs())
      ensures ring == null || fresh(ring)
      ensures Exact() <==> rhs.Exact()
    {
      word, length0, block0, ref1, ring := 0, 0, None, None, null;
      new;
      hide *;
      InitCopy(store, rhs);
    }

    /** Assignment gives up the old references and counts the new ones; a ring
        of the same capacity is used again. */
    method Assign(store: Store, rhs: IOBuf)
      requires if this == rhs then Backed(store) else PairBacked(store, rhs)
      modifies this, ring, store`blocks
      ensures if this == rhs then Backed(store) else PairBacked(store, rhs)
      ensures Contents(store) == rhs.Contents(store) == old(rhs.Contents(store))
      ensures rhs.Refs() == old(rhs.Refs())
      ensures if this == rhs then store.blocks == old(store.blocks)
        else Conserves(old(store.blocks), old(Refs() + rhs.Refs()), store.blocks, Refs() + rhs.Refs())
      ensures ring == null || ring == old(ring) || fresh(ring)
      ensures Exact() <==> rhs.Exact()
    {
      hide *;
      if this == rhs {
        Facts(store);
        return;
      }
      PairParts(store, rhs);
      PairFacts(store, rhs);
      ContentsAre(store);
      ViewFacts();
      rhs.ViewFacts();
      ghost var was, x, y := store.blocks, Refs(), rhs.Refs();
      if !rhs.Small() && !Small() && capMask == rhs.capMask {
        ReleaseAll(store);
        ghost var mid := store.blocks;
        AfterClear(was, mid, store.kept, x);
        Frame(was, mid, store.kept, x, [], y);
        assert [] + y == y;
        rhs.CopyRefs(ring);
        UseRing(ring, rhs.nref, rhs.nbytes, y);
        CountAll(store);
        AfterCopy(mid, store.blocks, store.kept, y);
        ConservesTrans(was, x + y, mid, y, store.blocks, y + y);
        ValidShape();
        PairAssemble(store, rhs);
      } else {
        Clear(store);
        ghost var mid := store.blocks;
        Facts(store);
        Frame(was, mid, store.kept, x, [], y);
        assert [] + y == y;
        rhs.Back(store);
        InitCopy(store, rhs);
        PairParts(store, rhs);
        ConservesTrans(was, x + y, mid, y, store.blocks, Refs() + rhs.Refs());
      }
    }
  }
}
