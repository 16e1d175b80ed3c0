/** All buffers over one block store: every counter is exactly the number of
    references plus the thread's hold, and an operation on one buffer never
    changes what another one contains. */
module IoBufs {
  import opened Basics
  import opened BlockRefs
  import opened BlockStore
  import opened IoBuf

  /** References to block b in all buffers. */
  function AllUses(views: seq<seq<Ref>>, b: nat): nat {
    if views == [] then 0 else Uses(views[0], b) + AllUses(views[1..], b)
  }

  ghost predicate Counted(m: map<nat, Block>, chain: set<nat>, views: seq<seq<Ref>>) {
    forall b :: Shared(m, b) == AllUses(views, b) + Bit(b in chain)
  }

  ghost predicate Fitting(m: map<nat, Block>, views: seq<seq<Ref>>) {
    forall k :: 0 <= k < |views| ==> AllFit(m, views[k])
  }

  /** The buffers other than i and j contain what they did. */
  ghost predicate OthersKeep(was: map<nat, Block>, views: seq<seq<Ref>>, now: map<nat, Block>, views': seq<seq<Ref>>,
                             i: nat, j: nat) {
    && |views'| >= |views|
    && (forall k :: 0 <= k < |views| && k != i && k != j ==> Bytes(now, views'[k]) == Bytes(was, views[k]))
  }

  lemma OthersKeepRefl(m: map<nat, Block>, v: seq<seq<Ref>>, i: nat, j: nat)
    ensures OthersKeep(m, v, m, v, i, j)
  {
  }

  lemma {:induction false} UsesUpdate(views: seq<seq<Ref>>, i: nat, v: seq<Ref>, b: nat)
    requires i < |views|
    ensures AllUses(views[i := v], b) == AllUses(views, b) - Uses(views[i], b) + Uses(v, b)
    ensures Uses(views[i], b) <= AllUses(views, b)
  {
    hide Uses;
    if i == 0 {
      assert views[0 := v][1..] == views[1..];
    } else {
      assert views[i := v][1..] == views[1..][i - 1 := v];
      UsesUpdate(views[1..], i - 1, v, b);
    }
  }

  lemma UsesPair(views: seq<seq<Ref>>, i: nat, j: nat, b: nat)
    requires i < |views| && j < |views| && i != j
    ensures Uses(views[i] + views[j], b) <= AllUses(views, b)
  {
    hide Uses, AllUses;
    UsesUpdate(views, i, [], b);
    UsesUpdate(views[i := []], j, [], b);
    ConcatUses(views[i], views[j], b);
    assert Uses([], b) == 0 by { NoUses(b); }
  }

  lemma NoUses(b: nat)
    ensures Uses([], b) == 0
  {
  }

  lemma CountedCovers(m: map<nat, Block>, chain: set<nat>, views: seq<seq<Ref>>, i: nat)
    requires Counted(m, chain, views) && i < |views|
    ensures Covered(m, chain, views[i])
  {
    hide Uses, AllUses;
    forall b ensures Uses(views[i], b) <= Others(m, chain, b) { UsesUpdate(views, i, [], b); }
  }

  lemma CountedCoversPair(m: map<nat, Block>, chain: set<nat>, views: seq<seq<Ref>>, i: nat, j: nat)
    requires Counted(m, chain, views) && i < |views| && j < |views| && i != j
    ensures Covered(m, chain, views[i] + views[j])
  {
    hide Uses, AllUses;
    forall b ensures Uses(views[i] + views[j], b) <= Others(m, chain, b) { UsesPair(views, i, j, b); }
  }

  /** Blocks that keep their bytes keep the contents of every counted buffer. */
  lemma AllKeep(was: map<nat, Block>, now: map<nat, Block>, chain: set<nat>, views: seq<seq<Ref>>, k: nat)
    requires k < |views| && Counted(now, chain, views) && AllFit(was, views[k]) && Survive(was, now)
    ensures AllFit(now, views[k]) && Bytes(now, views[k]) == Bytes(was, views[k])
  {
    hide Uses, AllUses, Bytes, AllFit, Survive;
    forall b ensures Uses(views[k], b) <= Shared(now, b) { UsesUpdate(views, k, [], b); }
    SurviveBytes(was, now, views[k]);
  }

  lemma StepOne(was: map<nat, Block>, now: map<nat, Block>, chain: set<nat>, views: seq<seq<Ref>>, i: nat, v: seq<Ref>)
    requires i < |views| && Counted(was, chain, views) && Fitting(was, views)
    requires Conserves(was, views[i], now, v) && AllFit(now, v)
    ensures Counted(now, chain, views[i := v]) && Fitting(now, views[i := v])
    ensures OthersKeep(was, views, now, views[i := v], i, i)
  {
    hide Uses, AllUses, Bytes, AllFit, Survive;
    var views' := views[i := v];
    forall b ensures Shared(now, b) == AllUses(views', b) + Bit(b in chain) { UsesUpdate(views, i, v, b); }
    forall k | 0 <= k < |views| && k != i
      ensures AllFit(now, views'[k]) && Bytes(now, views'[k]) == Bytes(was, views[k]) {
      AllKeep(was, now, chain, views', k);
    }
  }

  lemma StepTwo(was: map<nat, Block>, now: map<nat, Block>, chain: set<nat>, views: seq<seq<Ref>>,
                i: nat, j: nat, v: seq<Ref>, w: seq<Ref>)
    requires i < |views| && j < |views| && i != j && Counted(was, chain, views) && Fitting(was, views)
    requires Conserves(was, views[i] + views[j], now, v + w) && AllFit(now, v) && AllFit(now, w)
    ensures Counted(now, chain, views[i := v][j := w]) && Fitting(now, views[i := v][j := w])
    ensures OthersKeep(was, views, now, views[i := v][j := w], i, j)
  {
    hide Uses, AllUses, Bytes, AllFit, Survive;
    var views' := views[i := v][j := w];
    forall b ensures Shared(now, b) == AllUses(views', b) + Bit(b in chain) {
      UsesUpdate(views, i, v, b);
      UsesUpdate(views[i := v], j, w, b);
      ConcatUses(views[i], views[j], b);
      ConcatUses(v, w, b);
    }
    forall k | 0 <= k < |views| && k != i && k != j
      ensures AllFit(now, views'[k]) && Bytes(now, views'[k]) == Bytes(was, views[k]) {
      AllKeep(was, now, chain, views', k);
    }
  }

  /** Appending into the thread's shared block leaves every other buffer that
      refers to that block as it was. */
  lemma StepGrow(m: map<nat, Block>, c: set<nat>, views: seq<seq<Ref>>, m': map<nat, Block>, c': set<nat>,
                 i: nat, v: seq<Ref>)
    requires i < |views| && Counted(m, c, views) && Fitting(m, views)
    requires Grows(m, c, views[i], m', c', v) && AllFit(m', v)
    ensures Counted(m', c', views[i := v]) && Fitting(m', views[i := v])
    ensures OthersKeep(m, views, m', views[i := v], i, i)
  {
    hide Uses, AllUses, Bytes, AllFit, Shared;
    var views' := views[i := v];
    forall b ensures Shared(m', b) == AllUses(views', b) + Bit(b in c') {
      assert Others(m', c', b) - Uses(v, b) == Others(m, c, b) - Uses(views[i], b);
      UsesUpdate(views, i, v, b);
    }
    forall k | 0 <= k < |views| && k != i
      ensures AllFit(m', views'[k]) && Bytes(m', views'[k]) == Bytes(m, views[k]) {
      forall b | Uses(views[k], b) > 0 ensures b in m && b in m' && m[b].data <= m'[b].data {
        UsesUpdate(views, k, [], b);
        assert Others(m, c, b) > 0;
      }
      BytesSame(m, m', views[k]);
    }
  }

  lemma StepShare(m: map<nat, Block>, c: set<nat>, views: seq<seq<Ref>>, m': map<nat, Block>, c': set<nat>)
    requires Counted(m, c, views) && Fitting(m, views) && Undisturbed(m, c, m', c')
    ensures Counted(m', c', views) && Fitting(m', views)
    ensures OthersKeep(m, views, m', views, |views|, |views|)
  {
    hide Uses, AllUses, Bytes, AllFit, Shared;
    forall b ensures Shared(m', b) == AllUses(views, b) + Bit(b in c') {
      assert Others(m', c', b) == Others(m, c, b);
    }
    forall k | 0 <= k < |views|
      ensures AllFit(m', views[k]) && Bytes(m', views[k]) == Bytes(m, views[k]) {
      forall b | Uses(views[k], b) > 0 ensures b in m && b in m' && m[b].data <= m'[b].data {
        UsesUpdate(views, k, [], b);
        assert Others(m', c', b) > 0;
      }
      BytesSame(m, m', views[k]);
    }
  }

  lemma {:induction false} UsesNew(views: seq<seq<Ref>>, v: seq<Ref>, b: nat)
    ensures AllUses(views + [v], b) == AllUses(views, b) + Uses(v, b)
  {
    hide Uses;
    if views == [] {
      assert (views + [v])[1..] == [];
    } else {
      assert (views + [v])[1..] == views[1..] + [v];
      UsesNew(views[1..], v, b);
    }
  }

  lemma {:induction false} NoViewsNoUses(views: seq<seq<Ref>>, b: nat)
    requires forall k :: 0 <= k < |views| ==> views[k] == []
    ensures AllUses(views, b) == 0
  {
    if views != [] {
      assert views[0] == [];
      NoViewsNoUses(views[1..], b);
    }
  }

  /** When every buffer is empty and no thread has a chain, every block was
      given back. */
  lemma NothingLeaks(m: map<nat, Block>, chains: map<nat, seq<nat>>, limit: nat, views: seq<seq<Ref>>)
    requires Counted(m, {}, views) && StoreOk(m, chains, limit)
    requires forall k :: 0 <= k < |views| ==> views[k] == []
    ensures m == map[]
  {
    assert forall b :: b in m ==> Shared(m, b) > 0;
    forall b ensures Shared(m, b) == 0 {
      NoViewsNoUses(views, b);
    }
  }

  /** The buffers of a program. */
  class Buffers {
    const store: Store
    var bufs: seq<IOBuf>
    ghost var views: seq<seq<Ref>>

    /** The rings of the big views. */
    ghost function Rings(): set<array?<Ref>>
      reads this, bufs
    {
      set k | k in bufs :: k.ring
    }

    ghost predicate Separate()
      reads this, bufs
    {
      forall i, j :: 0 <= i < j < |bufs| ==>
        bufs[i] != bufs[j] && (bufs[i].ring == null || bufs[i].ring != bufs[j].ring)
    }

    ghost predicate Viewed()
      reads this, bufs, Rings()
    {
      && |views| == |bufs|
      && (forall i :: 0 <= i < |bufs| ==> bufs[i].Shape() && bufs[i].Valid() && bufs[i].Refs() == views[i] && bufs[i].Exact())
    }

    ghost predicate Valid()
      reads this, store, bufs, Rings()
    {
      && Separate() && Viewed() && store.Valid() && store.limit <= THIRD
      && Fitting(store.blocks, views) && Counted(store.blocks, store.kept, views)
    }

    /** What buffer i contains. */
    ghost function At(i: nat): seq<Byte>
      requires i < |views|
      reads this, store
    {
      Bytes(store.blocks, views[i])
    }

    constructor (limit: nat)
      requires DEFAULT_CAP <= limit <= THIRD
      ensures Valid() && bufs == [] && views == []
    {
      store := new Store(limit);
      bufs, views := [], [];
    }

    method New() returns (i: nat)
      requires Valid()
      modifies this
      ensures Valid() && |bufs| == i + 1 && bufs[..i] == old(bufs) && At(i) == []
      ensures fresh(bufs[i]) && bufs[i].ring == null
      ensures OthersKeep(old(store.blocks), old(views), store.blocks, views, i, i)
    {
      hide Uses, AllUses, StoreOk, Shared;
      i := |bufs|;
      var b := new IOBuf();
      forall q ensures AllUses(views + [[]], q) == AllUses(views, q) { UsesNew(views, [], q); NoUses(q); }
      bufs, views := bufs + [b], views + [[]];
    }

    method PopFront(i: nat, n: nat) returns (k: nat)
      requires Valid() && i < |bufs|
      modifies `views, store`blocks, bufs[i], bufs[i].ring
      ensures Valid() && bufs == old(bufs)
      ensures k == if n < |old(At(i))| then n else |old(At(i))|
      ensures At(i) == old(At(i))[k..]
      ensures OthersKeep(old(store.blocks), old(views), store.blocks, views, i, i)
    {
      hide Fitting, Counted, Conserves, OthersKeep, Bytes, AllFit, StoreOk, Covered;
      hide IOBuf.Shape, IOBuf.Exact, IOBuf.Valid, IOBuf.Refs, IOBuf.Contents;
      Backs(i);
      ghost var was := store.blocks;
      k := bufs[i].PopFront(store, n);
      Settle(i, was);
    }

    method PopBack(i: nat, n: nat) returns (k: nat)
      requires Valid() && i < |bufs|
      modifies `views, store`blocks, bufs[i], bufs[i].ring
      ensures Valid() && bufs == old(bufs)
      ensures k == if n < |old(At(i))| then n else |old(At(i))|
      ensures At(i) == old(At(i))[..|old(At(i))| - k]
      ensures OthersKeep(old(store.blocks), old(views), store.blocks, views, i, i)
    {
      hide Fitting, Counted, Conserves, OthersKeep, Bytes, AllFit, StoreOk, Covered;
      hide IOBuf.Shape, IOBuf.Exact, IOBuf.Valid, IOBuf.Refs, IOBuf.Contents;
      Backs(i);
      ghost var was := store.blocks;
      k := bufs[i].PopBack(store, n);
      Settle(i, was);
    }

    method CutBytes(i: nat, n: nat) returns (bytes: seq<Byte>)
      requires Valid() && i < |bufs|
      modifies `views, store`blocks, bufs[i], bufs[i].ring
      ensures Valid() && bufs == old(bufs)
      ensures old(At(i)) == bytes + At(i)
      ensures |bytes| == if n < |old(At(i))| then n else |old(At(i))|
      ensures OthersKeep(old(store.blocks), old(views), store.blocks, views, i, i)
    {
      hide Fitting, Counted, Conserves, OthersKeep, Bytes, AllFit, StoreOk, Covered;
      hide IOBuf.Shape, IOBuf.Exact, IOBuf.Valid, IOBuf.Refs, IOBuf.Contents;
      Backs(i);
      ghost var was := store.blocks;
      bytes := bufs[i].CutBytes(store, n);
      Settle(i, was);
    }

    method Clear(i: nat)
      requires Valid() && i < |bufs|
      modifies `views, store`blocks, bufs[i]
      ensures Valid() && bufs == old(bufs) && views[i] == [] && bufs[i].ring == null
      ensures OthersKeep(old(store.blocks), old(views), store.blocks, views, i, i)
    {
      hide Fitting, Counted, Conserves, OthersKeep, Bytes, AllFit, StoreOk, Covered;
      hide IOBuf.Shape, IOBuf.Exact, IOBuf.Valid, IOBuf.Refs, IOBuf.Contents;
      Backs(i);
      ghost var was := store.blocks;
      bufs[i].Clear(store);
      Settle(i, was);
    }

    method AppendBytes(t: nat, i: nat, bytes: seq<Byte>) returns (ok: bool)
      requires Valid() && i < |bufs|
      modifies `views, store, bufs[i], bufs[i].ring
      ensures Valid() && bufs == old(bufs)
      ensures ok ==> At(i) == old(At(i)) + bytes
      ensures old(At(i)) <= At(i) <= old(At(i)) + bytes
      ensures OthersKeep(old(store.blocks), old(views), store.blocks, views, i, i)
    {
      hide Grows;
      hide Fitting, Counted, Conserves, OthersKeep, Bytes, AllFit, StoreOk, Covered;
      hide IOBuf.Shape, IOBuf.Exact, IOBuf.Valid, IOBuf.Refs, IOBuf.Contents;
      Backs(i);
      ghost var was, chain := store.blocks, store.kept;
      ok := bufs[i].AppendBytes(store, t, bytes);
      SettleGrow(i, was, chain);
    }

    /** cutn: buffer j receives what buffer i loses. */
    method CutInto(i: nat, j: nat, n: nat) returns (k: nat)
      requires Valid() && i < |bufs| && j < |bufs| && i != j
      modifies `views, store`blocks, bufs[i], bufs[i].ring, bufs[j], bufs[j].ring
      ensures Valid() && bufs == old(bufs)
      ensures k == if n < |old(At(i))| then n else |old(At(i))|
      ensures At(i) == old(At(i))[k..] && At(j) == old(At(j)) + old(At(i))[..k]
      ensures bufs[i].ring == null || bufs[i].ring == old(bufs[i].ring)
      ensures bufs[j].ring == null || bufs[j].ring == old(bufs[j].ring) || fresh(bufs[j].ring)
      ensures OthersKeep(old(store.blocks), old(views), store.blocks, views, i, j)
    {
      hide Fitting, Counted, Conserves, OthersKeep, Bytes, AllFit, StoreOk, Covered;
      hide IOBuf.Shape, IOBuf.Exact, IOBuf.Valid, IOBuf.Refs, IOBuf.Contents;
      BacksPair(i, j);
      ghost var was := store.blocks;
      k := bufs[i].CutInto(store, bufs[j], n);
      SettleTwo(i, j, was);
    }

    /** append_user_data_with_meta. */
    method AppendUserData(i: nat, bytes: seq<Byte>) returns (rc: int)
      requires Valid() && i < |bufs| && (|bytes| <= store.limit || |bytes| > MAX_USER_DATA)
      modifies `views, store`blocks, bufs[i], bufs[i].ring
      ensures Valid() && bufs == old(bufs) && (rc == 0 || rc == -1) && (|bytes| > MAX_USER_DATA ==> rc == -1)
      ensures At(i) == if rc == 0 then old(At(i)) + bytes else old(At(i))
      ensures OthersKeep(old(store.blocks), old(views), store.blocks, views, i, i)
    {
      hide Grows;
      hide Fitting, Counted, Conserves, OthersKeep, Bytes, AllFit, StoreOk, Covered;
      hide IOBuf.Shape, IOBuf.Exact, IOBuf.Valid, IOBuf.Refs, IOBuf.Contents;
      Backs(i);
      ghost var was := store.blocks;
      rc := bufs[i].AppendUserData(store, bytes);
      SettleGrow(i, was, store.kept);
    }

    /** append of a buffer to another one or to itself. */
    method AppendBuf(i: nat, j: nat) returns (dangling: bool)
      requires Valid() && i < |bufs| && j < |bufs|
      modifies `views, store`blocks, bufs[i], bufs[i].ring
      ensures Valid() && bufs == old(bufs)
      ensures i != j ==> At(i) == old(At(i)) + old(At(j)) && At(j) == old(At(j)) && !dangling
      ensures i == j ==> views[i] == Selfed(old(views[i]), 0, |old(views[i])|)
      ensures i == j ==> (At(i) == old(At(i)) + old(At(i)) <==> old(views[i]) == [] || !Adjacent(old(views[i])[|old(views[i])| - 1], old(views[i])[0]))
      ensures i == j ==> (dangling <==> old(bufs[i].ring) != null && |views[i]| > old(bufs[i].ring.Length))
      ensures OthersKeep(old(store.blocks), old(views), store.blocks, views, j, i)
    {
      hide Fitting, Counted, Conserves, OthersKeep, Bytes, AllFit, StoreOk, Covered, Selfed;
      hide IOBuf.Shape, IOBuf.Exact, IOBuf.Valid, IOBuf.Refs, IOBuf.Contents;
      ghost var was := store.blocks;
      if i == j {
        Backs(i);
        dangling := bufs[i].AppendSelf(store);
        Settle(i, was);
      } else {
        BacksPair(j, i);
        bufs[i].AppendBuf(store, bufs[j]);
        dangling := false;
        SettleTwo(j, i, was);
      }
    }

    method AppendMovable(i: nat, j: nat)
      requires Valid() && i < |bufs| && j < |bufs| && i != j
      modifies `views, store`blocks, bufs[i], bufs[i].ring, bufs[j]
      ensures Valid() && bufs == old(bufs)
      ensures At(i) == old(At(i)) + old(At(j)) && At(j) == []
      ensures OthersKeep(old(store.blocks), old(views), store.blocks, views, j, i)
    {
      hide Fitting, Counted, Conserves, OthersKeep, Bytes, AllFit, StoreOk, Covered;
      hide IOBuf.Shape, IOBuf.Exact, IOBuf.Valid, IOBuf.Refs, IOBuf.Contents;
      BacksPair(j, i);
      ghost var was := store.blocks;
      Backs(i);
      bufs[i].Facts(store);
      bufs[i].ExactBigIsNotEmpty();
      bufs[i].AppendMovable(store, bufs[j]);
      SettleTwo(j, i, was);
    }

    method Assign(i: nat, j: nat)
      requires Valid() && i < |bufs| && j < |bufs|
      modifies `views, store`blocks, bufs[i], bufs[i].ring
      ensures Valid() && bufs == old(bufs)
      ensures At(i) == At(j) == old(At(j))
      ensures OthersKeep(old(store.blocks), old(views), store.blocks, views, i, j)
    {
      hide Fitting, Counted, Conserves, OthersKeep, Bytes, AllFit, StoreOk, Covered;
      OthersKeepRefl(store.blocks, views, i, j);
      if i == j { return; }
      hide IOBuf.Shape, IOBuf.Exact, IOBuf.Valid, IOBuf.Refs, IOBuf.Contents;
      BacksPair(i, j);
      ghost var was := store.blocks;
      bufs[i].Assign(store, bufs[j]);
      SettleTwo(i, j, was);
    }

    /** At the exit of thread t its chain is given up; once every buffer is
        empty and no thread has a chain, no block is left. */
    method ThreadExit(t: nat)
      requires Valid()
      modifies store
      ensures Valid() && ChainOf(store.chains, t) == []
      ensures forall u :: u != t ==> ChainOf(store.chains, u) == ChainOf(old(store.chains), u)
      ensures OthersKeep(old(store.blocks), views, store.blocks, views, |views|, |views|)
      ensures store.kept == {} && (forall k :: 0 <= k < |views| ==> views[k] == []) ==> store.blocks == map[]
    {
      hide Fitting, Counted, OthersKeep, Bytes, AllFit, Undisturbed, AllUses;
      hide IOBuf.Shape, IOBuf.Exact, IOBuf.Valid, IOBuf.Refs, IOBuf.Contents;
      ghost var was, chain := store.blocks, store.kept;
      store.ClearChain(t);
      StepShare(was, chain, views, store.blocks, store.kept);
      if store.kept == {} && forall k :: 0 <= k < |views| ==> views[k] == [] {
        NothingLeaks(store.blocks, store.chains, store.limit, views);
      }
    }

    /** The buffers other than i and j are as the ghost state has them. */
    ghost predicate ViewedBut(i: nat, j: nat)
      reads this, bufs, Rings()
    {
      && |views| == |bufs|
      && (forall k :: 0 <= k < |bufs| && k != i && k != j ==>
           bufs[k].Shape() && bufs[k].Valid() && bufs[k].Refs() == views[k] && bufs[k].Exact())
    }

    /** The ghost state follows a step of buffer i. */
    ghost method Settle(i: nat, was: map<nat, Block>)
      requires i < |bufs| && Separate() && ViewedBut(i, i) && store.Valid()
      requires Fitting(was, views) && Counted(was, store.kept, views)
      requires store.limit <= THIRD && bufs[i].Backed(store) && bufs[i].Exact() && Conserves(was, views[i], store.blocks, bufs[i].Refs())
      modifies `views
      ensures Valid() && At(i) == bufs[i].Contents(store)
      ensures OthersKeep(was, old(views), store.blocks, views, i, i)
    {
      hide Conserves, Counted, OthersKeep, Bytes, AllFit, StoreOk;
      StepOne(was, store.blocks, store.kept, views, i, bufs[i].Refs());
      views := views[i := bufs[i].Refs()];
    }

    ghost method SettleGrow(i: nat, was: map<nat, Block>, chain: set<nat>)
      requires i < |bufs| && Separate() && ViewedBut(i, i) && store.Valid()
      requires Fitting(was, views) && Counted(was, chain, views)
      requires store.limit <= THIRD && bufs[i].Backed(store) && bufs[i].Exact() && Grows(was, chain, views[i], store.blocks, store.kept, bufs[i].Refs())
      modifies `views
      ensures Valid() && At(i) == bufs[i].Contents(store)
      ensures OthersKeep(was, old(views), store.blocks, views, i, i)
    {
      hide Grows, Counted, OthersKeep, Bytes, AllFit, StoreOk;
      StepGrow(was, chain, views, store.blocks, store.kept, i, bufs[i].Refs());
      views := views[i := bufs[i].Refs()];
    }

    ghost method SettleTwo(i: nat, j: nat, was: map<nat, Block>)
      requires i < |bufs| && j < |bufs| && i != j && Separate() && ViewedBut(i, j) && store.Valid()
      requires Fitting(was, views) && Counted(was, store.kept, views)
      requires store.limit <= THIRD && bufs[i].PairBacked(store, bufs[j]) && bufs[i].Exact() && bufs[j].Exact()
      requires Conserves(was, views[i] + views[j], store.blocks, bufs[i].Refs() + bufs[j].Refs())
      modifies `views
      ensures Valid() && At(i) == bufs[i].Contents(store) && At(j) == bufs[j].Contents(store)
      ensures OthersKeep(was, old(views), store.blocks, views, i, j)
    {
      hide Conserves, Counted, OthersKeep, Bytes, AllFit, StoreOk, Covered;
      hide IOBuf.Shape, IOBuf.Exact, IOBuf.Valid, IOBuf.Refs;
      StepTwo(was, store.blocks, store.kept, views, i, j, bufs[i].Refs(), bufs[j].Refs());
      views := views[i := bufs[i].Refs()][j := bufs[j].Refs()];
    }

    lemma BacksPair(i: nat, j: nat)
      requires Valid() && i < |bufs| && j < |bufs| && i != j
      ensures bufs[i].PairBacked(store, bufs[j]) && bufs[i].Exact() && bufs[j].Exact()
      ensures bufs[i].Contents(store) == At(i) && bufs[j].Contents(store) == At(j)
    {
      hide AllFit, Bytes, StoreOk, IOBuf.Exact, IOBuf.Shape, IOBuf.Valid, IOBuf.Refs;
      CountedCoversPair(store.blocks, store.kept, views, i, j);
    }

    /** copy_to of buffer i. */
    method CopyTo(i: nat, n: nat, pos: nat) returns (d: seq<Byte>)
      requires Valid() && i < |bufs|
      ensures Valid() && i < |views| && d == Window(At(i), pos, n)
    {
      hide Fitting, Counted, Conserves, OthersKeep, Bytes, AllFit, StoreOk, Covered, Window;
      hide IOBuf.Shape, IOBuf.Exact, IOBuf.Valid, IOBuf.Refs, IOBuf.Contents;
      Backs(i);
      d := bufs[i].CopyTo(store, n, pos);
    }

    lemma Backs(i: nat)
      requires Valid() && i < |bufs|
      ensures i < |views| && bufs[i].Backed(store) && bufs[i].Exact() && bufs[i].Contents(store) == At(i)
    {
      hide AllFit, Bytes, StoreOk, IOBuf.Exact, IOBuf.Shape, IOBuf.Valid, IOBuf.Refs;
      CountedCovers(store.blocks, store.kept, views, i);
    }
  }
}
