/** The reference-counted blocks behind all buffers, and the chain of partly
    filled blocks a thread keeps for appending. */
module BlockStore {
  import opened Basics
  import opened BlockRefs

  /** Payload of a block of DEFAULT_BLOCK_SIZE behind its 32-byte header. */
  const DEFAULT_CAP: nat := 8192 - 32

  predicate Full(k: Block) {
    |k.data| >= k.cap
  }

  /** A block's counter; 0 once its memory was given back. */
  function Shared(m: map<nat, Block>, b: nat): nat {
    if b in m then m[b].nshared else 0
  }

  /** The counter's share of everybody but a chain. */
  function Others(m: map<nat, Block>, chain: set<nat>, b: nat): int {
    Shared(m, b) - Bit(b in chain)
  }

  predicate BlockOk(k: Block, limit: nat) {
    |k.data| <= k.cap && 0 < k.cap <= limit && k.nshared > 0
  }

  /** The blocks in the chains of all threads. */
  ghost function Held(chains: map<nat, seq<nat>>): set<nat> {
    set t, i | t in chains && 0 <= i < |chains[t]| :: chains[t][i]
  }

  function ChainOf(chains: map<nat, seq<nat>>, t: nat): seq<nat> {
    if t in chains then chains[t] else []
  }

  ghost predicate StoreOk(m: map<nat, Block>, chains: map<nat, seq<nat>>, limit: nat) {
    && (forall b :: b in m ==> BlockOk(m[b], limit))
    && (forall b :: b in Held(chains) ==> b in m)
    && (forall t, u, i, j :: t in chains && u in chains && 0 <= i < |chains[t]| && 0 <= j < |chains[u]| ==>
         chains[t][i] == chains[u][j] ==> t == u && i == j)
  }

  /** A thread's chain loses its first block, which nobody else's has. */
  lemma ChainPop(m: map<nat, Block>, chains: map<nat, seq<nat>>, limit: nat, t: nat)
    requires StoreOk(m, chains, limit) && ChainOf(chains, t) != []
    ensures var front, chains' := chains[t][0], chains[t := chains[t][1..]];
      && StoreOk(m, chains', limit) && front !in Held(chains') && front in m
      && Held(chains) == Held(chains') + {front}
  {
    var front, chains' := chains[t][0], chains[t := chains[t][1..]];
    assert forall i :: 0 <= i < |chains'[t]| ==> chains'[t][i] == chains[t][i + 1];
    assert front in Held(chains);
    forall b | b in Held(chains) ensures b == front || b in Held(chains') {
      var u, i :| u in chains && 0 <= i < |chains[u]| && chains[u][i] == b;
      if u == t && i > 0 { assert chains'[t][i - 1] == b; } else if u != t { assert chains'[u][i] == b; }
    }
    forall b | b in Held(chains') ensures b in Held(chains) && b != front {
      var u, i :| u in chains' && 0 <= i < |chains'[u]| && chains'[u][i] == b;
      if u == t { assert chains[t][i + 1] == b; } else { assert chains[u][i] == b; }
    }
  }

  /** A thread without a chain starts one with a new block. */
  lemma ChainStart(m: map<nat, Block>, chains: map<nat, seq<nat>>, limit: nat, t: nat, b: nat)
    requires StoreOk(m, chains, limit) && ChainOf(chains, t) == [] && b in m && b !in Held(chains)
    ensures StoreOk(m, chains[t := [b]], limit) && Held(chains[t := [b]]) == Held(chains) + {b}
  {
    var chains' := chains[t := [b]];
    assert chains'[t][0] == b;
    forall q | q in Held(chains) ensures q in Held(chains') {
      var u, i :| u in chains && 0 <= i < |chains[u]| && chains[u][i] == q;
      assert chains'[u][i] == q;
    }
    forall q | q in Held(chains') ensures q == b || q in Held(chains) {
      var u, i :| u in chains' && 0 <= i < |chains'[u]| && chains'[u][i] == q;
      if u != t { assert chains[u][i] == q; }
    }
  }

  /** The memory of the blocks that are left is what it was. */
  ghost predicate Survive(was: map<nat, Block>, now: map<nat, Block>) {
    forall b :: b in now ==> b in was && now[b].data == was[b].data && now[b].cap == was[b].cap
  }

  /** References whose blocks are still counted keep their bytes. */
  lemma SurviveBytes(was: map<nat, Block>, now: map<nat, Block>, refs: seq<Ref>)
    requires AllFit(was, refs) && Survive(was, now)
    requires forall b :: Uses(refs, b) <= Shared(now, b)
    ensures AllFit(now, refs) && Bytes(now, refs) == Bytes(was, refs)
  {
    hide Bytes, AllFit;
    forall b | Uses(refs, b) > 0 ensures b in was && b in now && was[b].data <= now[b].data {
      assert Shared(now, b) > 0;
    }
    BytesSame(was, now, refs);
  }

  /** The references of refs are counted in m, beside the chain's own. */
  ghost predicate Covered(m: map<nat, Block>, chain: set<nat>, refs: seq<Ref>) {
    forall b :: Uses(refs, b) <= Others(m, chain, b)
  }

  /** Whatever is not counted for refs stays as it was. */
  ghost predicate SameSlack(was: map<nat, Block>, refs: seq<Ref>, now: map<nat, Block>, refs': seq<Ref>) {
    forall b :: Shared(was, b) - Uses(refs, b) == Shared(now, b) - Uses(refs', b)
  }

  /** A step of the holder of refs: everybody else keeps their counts and
      no block's memory changes. */
  ghost predicate Conserves(was: map<nat, Block>, refs: seq<Ref>, now: map<nat, Block>, refs': seq<Ref>) {
    SameSlack(was, refs, now, refs') && Survive(was, now)
  }

  lemma ConservesRefl(m: map<nat, Block>, refs: seq<Ref>)
    ensures Conserves(m, refs, m, refs)
  {
  }

  lemma ConservesTrans(m: map<nat, Block>, x: seq<Ref>, m1: map<nat, Block>, x1: seq<Ref>, m2: map<nat, Block>, x2: seq<Ref>)
    requires Conserves(m, x, m1, x1) && Conserves(m1, x1, m2, x2)
    ensures Conserves(m, x, m2, x2)
  {
    hide Uses, Shared;
  }

  /** One reference to block c is given up. */
  ghost predicate Released(was: map<nat, Block>, now: map<nat, Block>, c: nat) {
    Survive(was, now) && forall b :: Shared(now, b) == Shared(was, b) - Bit(b == c)
  }

  lemma CoveredKeeps(was: map<nat, Block>, now: map<nat, Block>, chain: set<nat>, refs: seq<Ref>, refs': seq<Ref>)
    requires AllFit(was, refs') && Covered(was, chain, refs) && Survive(was, now) && SameSlack(was, refs, now, refs')
    ensures AllFit(now, refs') && Covered(now, chain, refs') && Bytes(now, refs') == Bytes(was, refs')
  {
    hide AllFit, Bytes, Uses;
    forall b ensures Uses(refs', b) <= Others(now, chain, b) {
      assert Uses(refs, b) <= Others(was, chain, b);
    }
    SurviveBytes(was, now, refs');
  }

  lemma AfterDropFront(was: map<nat, Block>, now: map<nat, Block>, chain: set<nat>, refs: seq<Ref>)
    requires refs != [] && AllFit(was, refs) && Covered(was, chain, refs) && Released(was, now, refs[0].block)
    ensures SameSlack(was, refs, now, refs[1..])
    ensures AllFit(now, refs[1..]) && Covered(now, chain, refs[1..])
    ensures |Slice(was, refs[0])| == refs[0].length
    ensures Bytes(was, refs) == Slice(was, refs[0]) + Bytes(now, refs[1..])
  {
    DropFrontBytes(was, refs);
    assert SameSlack(was, refs, now, refs[1..]);
    hide AllFit, Bytes, Uses, Covered, SameSlack;
    CoveredKeeps(was, now, chain, refs, refs[1..]);
  }

  lemma AfterDropBack(was: map<nat, Block>, now: map<nat, Block>, chain: set<nat>, refs: seq<Ref>, k: nat)
    requires |refs| == k + 1 && AllFit(was, refs) && Covered(was, chain, refs) && Released(was, now, refs[k].block)
    ensures SameSlack(was, refs, now, refs[..k])
    ensures AllFit(now, refs[..k]) && Covered(now, chain, refs[..k])
    ensures |Slice(was, refs[k])| == refs[k].length
    ensures Bytes(was, refs) == Bytes(now, refs[..k]) + Slice(was, refs[k])
  {
    DropBackBytes(was, refs);
    DropBackSums(refs);
    hide AllFit, Bytes, Uses;
    assert SameSlack(was, refs, now, refs[..k]);
    hide Covered, SameSlack;
    CoveredKeeps(was, now, chain, refs, refs[..k]);
  }

  lemma UsesOfBoth(x: seq<Ref>, y: seq<Ref>)
    ensures forall b :: Uses(x + y, b) == Uses(x, b) + Uses(y, b)
  {
    hide Uses;
    forall b ensures Uses(x + y, b) == Uses(x, b) + Uses(y, b) {
      ConcatUses(x, y, b);
    }
  }

  lemma FrontUses(x: seq<Ref>)
    requires x != []
    ensures forall b :: Uses(x, b) == Bit(x[0].block == b) + Uses(x[1..], b)
  {
  }

  /** Two holders keep their bytes as long as together they are counted. */
  lemma BothKeep(was: map<nat, Block>, now: map<nat, Block>, chain: set<nat>,
                 x: seq<Ref>, y: seq<Ref>, x': seq<Ref>, y': seq<Ref>)
    requires Covered(was, chain, x + y) && Conserves(was, x + y, now, x' + y')
    requires AllFit(was, x') && AllFit(was, y')
    ensures Covered(now, chain, x' + y')
    ensures AllFit(now, x') && Bytes(now, x') == Bytes(was, x')
    ensures AllFit(now, y') && Bytes(now, y') == Bytes(was, y')
  {
    hide AllFit, Bytes, Uses;
    UsesOfBoth(x', y');
    forall b ensures Uses(x' + y', b) <= Others(now, chain, b) {
      assert Uses(x + y, b) <= Others(was, chain, b);
    }
    SurviveBytes(was, now, x');
    SurviveBytes(was, now, y');
  }

  /** Reference r went to the end of y, with a new count or with its own. */
  ghost predicate Pushed(was: map<nat, Block>, now: map<nat, Block>, y: seq<Ref>, r: Ref, move: bool) {
    && Survive(was, now)
    && (forall b :: Shared(now, b) - Uses(PushRef(y, r), b) == Shared(was, b) - Uses(y, b) - Bit(move && b == r.block))
  }

  lemma AfterMove(was: map<nat, Block>, now: map<nat, Block>, chain: set<nat>, x: seq<Ref>, y: seq<Ref>)
    requires x != [] && AllFit(was, x) && AllFit(was, y) && Covered(was, chain, x + y) && Pushed(was, now, y, x[0], true)
    ensures var x', y' := x[1..], PushRef(y, x[0]);
      && Conserves(was, x + y, now, x' + y') && Covered(now, chain, x' + y')
      && AllFit(now, x') && AllFit(now, y')
      && Bytes(was, x) == Slice(was, x[0]) + Bytes(now, x') && |Slice(was, x[0])| == x[0].length
      && Bytes(now, y') == Bytes(was, y) + Slice(was, x[0])
  {
    var x', y' := x[1..], PushRef(y, x[0]);
    DropFrontBytes(was, x);
    assert Fits(was, x[0]);
    PushBytes(was, y, x[0]);
    FrontUses(x);
    UsesOfBoth(x, y);
    UsesOfBoth(x', y');
    hide AllFit, Bytes, Uses, Slice, Fits, PushRef, Shared, Survive;
    assert Conserves(was, x + y, now, x' + y');
    hide Conserves, Covered;
    BothKeep(was, now, chain, x, y, x', y');
  }

  lemma AfterShare(was: map<nat, Block>, now: map<nat, Block>, chain: set<nat>, x: seq<Ref>, y: seq<Ref>, r: Ref)
    requires Fits(was, r) && AllFit(was, x) && AllFit(was, y) && Covered(was, chain, x + y) && Pushed(was, now, y, r, false)
    ensures var y' := PushRef(y, r);
      && Conserves(was, x + y, now, x + y') && Covered(now, chain, x + y')
      && AllFit(now, x) && AllFit(now, y')
      && Bytes(now, x) == Bytes(was, x)
      && Bytes(now, y') == Bytes(was, y) + Slice(was, r)
  {
    var y' := PushRef(y, r);
    PushBytes(was, y, r);
    UsesOfBoth(x, y);
    UsesOfBoth(x, y');
    hide AllFit, Bytes, Uses, Slice, Fits, PushRef, Shared, Survive;
    assert Conserves(was, x + y, now, x + y');
    hide Conserves, Covered;
    BothKeep(was, now, chain, x, y, x, y');
  }

  lemma AfterShareOwn(was: map<nat, Block>, now: map<nat, Block>, chain: set<nat>, y: seq<Ref>, r: Ref)
    requires Fits(was, r) && AllFit(was, y) && Covered(was, chain, y) && Pushed(was, now, y, r, false)
    ensures var y' := PushRef(y, r);
      && Conserves(was, y, now, y') && Covered(now, chain, y') && AllFit(now, y')
      && Bytes(now, y') == Bytes(was, y) + Slice(was, r)
  {
    assert AllFit(was, []);
    hide *;
    assert [] + y == y && [] + PushRef(y, r) == PushRef(y, r);
    AfterShare(was, now, chain, [], y, r);
  }

  lemma SelfedKeeps(was: map<nat, Block>, now: map<nat, Block>, chain: set<nat>, x: seq<Ref>)
    requires AllFit(was, x) && Conserves(was, x, now, Selfed(x, 0, |x|)) && Covered(now, chain, Selfed(x, 0, |x|))
    ensures Bytes(now, Selfed(x, 0, |x|)) == Bytes(was, Selfed(x, 0, |x|))
  {
    hide Bytes, AllFit, Uses, Selfed;
    SelfedFits(was, x, 0, |x|);
    forall b ensures Uses(Selfed(x, 0, |x|), b) <= Shared(now, b) {
      OthersBelow(now, chain, Selfed(x, 0, |x|), b);
    }
    SurviveBytes(was, now, Selfed(x, 0, |x|));
  }

  lemma MayMove(was: map<nat, Block>, chain: set<nat>, x: seq<Ref>, y: seq<Ref>)
    requires x != [] && AllFit(was, x) && Covered(was, chain, x + y)
    ensures x[0].block in was && Uses(y, x[0].block) + 1 <= Others(was, chain, x[0].block)
  {
    assert Fits(was, x[0]);
    UsesOfBoth(x, y);
    FrontUses(x);
    assert Uses(x + y, x[0].block) <= Others(was, chain, x[0].block);
  }

  /** A copy of reference i of x went to the end of y. */
  lemma AfterShareAt(was: map<nat, Block>, now: map<nat, Block>, chain: set<nat>, x: seq<Ref>, y: seq<Ref>, i: nat)
    requires i < |x| && AllFit(was, x) && AllFit(was, y) && Covered(was, chain, x + y) && Pushed(was, now, y, x[i], false)
    ensures var y' := PushRef(y, x[i]);
      && Conserves(was, x + y, now, x + y') && Covered(now, chain, x + y')
      && AllFit(now, x) && AllFit(now, y')
      && Bytes(now, x) == Bytes(was, x)
      && Bytes(now, y') == Bytes(was, y) + Slice(was, x[i])
      && Bytes(now, x[..i + 1]) == Bytes(was, x[..i]) + Slice(was, x[i])
  {
    assert Fits(was, x[i]) && AllFit(was, x[..i + 1]);
    hide *;
    AfterShare(was, now, chain, x, y, x[i]);
    PushedSurvive(was, now, y, x[i]);
    PrefixKeeps(was, now, chain, x, PushRef(y, x[i]), i);
  }

  lemma PushedSurvive(was: map<nat, Block>, now: map<nat, Block>, y: seq<Ref>, r: Ref)
    requires Pushed(was, now, y, r, false)
    ensures Survive(was, now)
  {
  }

  lemma PrefixKeeps(was: map<nat, Block>, now: map<nat, Block>, chain: set<nat>, x: seq<Ref>, y: seq<Ref>, i: nat)
    requires i < |x| && AllFit(was, x[..i + 1]) && Survive(was, now) && Covered(now, chain, x + y)
    ensures Bytes(now, x[..i + 1]) == Bytes(was, x[..i]) + Slice(was, x[i])
  {
    hide Bytes, Uses, Slice, AllFit, Survive, Shared;
    UsesPrefix(x, i);
    UsesOfBoth(x, y);
    assert x[..i + 1] == x[..i] + [x[i]];
    SnocBytes(was, x[..i], x[i]);
    forall b ensures Uses(x[..i + 1], b) <= Shared(now, b) {
      assert Uses(x + y, b) <= Others(now, chain, b);
    }
    SurviveBytes(was, now, x[..i + 1]);
  }

  /** A step that appends new bytes: everybody else keeps their counts, and
      every block that somebody refers to keeps the bytes it has. */
  ghost predicate Grows(m: map<nat, Block>, chain: set<nat>, x: seq<Ref>, m': map<nat, Block>, chain': set<nat>, x': seq<Ref>) {
    && (forall b :: Others(m', chain', b) - Uses(x', b) == Others(m, chain, b) - Uses(x, b) && Uses(x, b) <= Uses(x', b))
    && (forall b :: Others(m, chain, b) > 0 ==> b in m && b in m' && m[b].data <= m'[b].data)
  }

  lemma GrowsRefl(m: map<nat, Block>, chain: set<nat>, x: seq<Ref>)
    ensures Grows(m, chain, x, m, chain, x)
  {
  }

  lemma GrowsTrans(m: map<nat, Block>, c: set<nat>, x: seq<Ref>, m1: map<nat, Block>, c1: set<nat>, x1: seq<Ref>,
                   m2: map<nat, Block>, c2: set<nat>, x2: seq<Ref>)
    requires Grows(m, c, x, m1, c1, x1) && Grows(m1, c1, x1, m2, c2, x2)
    ensures Grows(m, c, x, m2, c2, x2)
  {
    hide Uses, Others;
    forall b | Others(m, c, b) > 0 ensures b in m && b in m2 && m[b].data <= m2[b].data {
      assert Uses(x, b) <= Uses(x1, b);
      assert Others(m1, c1, b) > 0;
    }
  }

  /** What share_tls_block leaves alone. */
  ghost predicate Undisturbed(m: map<nat, Block>, c: set<nat>, m1: map<nat, Block>, c1: set<nat>) {
    && (forall x :: Others(m1, c1, x) == Others(m, c, x))
    && (forall x :: Others(m1, c1, x) > 0 ==> x in m && x in m1 && m1[x].data == m[x].data)
  }

  lemma SurviveUndisturbed(m: map<nat, Block>, c: set<nat>, m1: map<nat, Block>, c1: set<nat>)
    requires Survive(m, m1) && forall x :: Others(m1, c1, x) == Others(m, c, x)
    ensures Undisturbed(m, c, m1, c1)
  {
  }

  lemma UndisturbedTrans(m: map<nat, Block>, c: set<nat>, m1: map<nat, Block>, c1: set<nat>, m2: map<nat, Block>, c2: set<nat>)
    requires Undisturbed(m, c, m1, c1) && Undisturbed(m1, c1, m2, c2)
    ensures Undisturbed(m, c, m2, c2)
  {
  }

  function Extended(m: map<nat, Block>, b: nat, bytes: seq<Byte>): map<nat, Block>
    requires b in m
  {
    m[b := m[b].(data := m[b].data + bytes)]
  }

  lemma AfterAppend(m: map<nat, Block>, c: set<nat>, x: seq<Ref>, m1: map<nat, Block>, c1: set<nat>, b: nat,
                    bytes: seq<Byte>, m2: map<nat, Block>)
    requires AllFit(m, x) && Covered(m, c, x) && Undisturbed(m, c, m1, c1) && b in m1 && bytes != []
    requires Pushed(Extended(m1, b, bytes), m2, x, Ref(|m1[b].data|, |bytes|, b), false)
    ensures var x' := PushRef(x, Ref(|m1[b].data|, |bytes|, b));
      && Grows(m, c, x, m2, c1, x') && Covered(m2, c1, x')
      && AllFit(m2, x') && Bytes(m2, x') == Bytes(m, x) + bytes
  {
    var r, k := Ref(|m1[b].data|, |bytes|, b), Extended(m1, b, bytes);
    var x' := PushRef(x, r);
    assert Slice(k, r) == bytes;
    assert Fits(k, r);
    forall q | Uses(x, q) > 0 ensures q in m && q in k && m[q].data <= k[q].data {
      assert Others(m, c, q) > 0;
    }
    BytesSame(m, k, x);
    PushBytes(k, x, r);
    PushSums(x, r);
    AppendCounts(m, c, x, m1, c1, b, bytes, m2, x');
    hide Bytes, AllFit, Uses, Slice, Fits, Covered, Others, Grows;
    forall q ensures Uses(x', q) <= Shared(m2, q) {
      OthersBelow(m2, c1, x', q);
    }
    SurviveBytes(k, m2, x');
  }

  /** A new block came with its only reference. */
  lemma AfterAdopt(m: map<nat, Block>, c: set<nat>, x: seq<Ref>, b: nat, bytes: seq<Byte>, m2: map<nat, Block>)
    requires AllFit(m, x) && Covered(m, c, x) && b !in m && bytes != []
    requires Pushed(m[b := Block(|bytes|, bytes, 1)], m2, x, Ref(0, |bytes|, b), true)
    ensures var x' := PushRef(x, Ref(0, |bytes|, b));
      && Grows(m, c, x, m2, c, x') && Covered(m2, c, x')
      && AllFit(m2, x') && Bytes(m2, x') == Bytes(m, x) + bytes
  {
    var r, k := Ref(0, |bytes|, b), m[b := Block(|bytes|, bytes, 1)];
    var x' := PushRef(x, r);
    assert Slice(k, r) == bytes && Fits(k, r);
    forall q | Uses(x, q) > 0 ensures q in m && q in k && m[q].data <= k[q].data {
      assert Uses(x, q) <= Others(m, c, q);
    }
    BytesSame(m, k, x);
    PushBytes(k, x, r);
    PushSums(x, r);
    AdoptCounts(m, c, x, b, bytes, m2, x');
    hide Bytes, AllFit, Uses, Slice, Fits, Covered, Others, Grows;
    forall q ensures Uses(x', q) <= Shared(m2, q) {
      OthersBelow(m2, c, x', q);
    }
    SurviveBytes(k, m2, x');
  }

  lemma AdoptCounts(m: map<nat, Block>, c: set<nat>, x: seq<Ref>, b: nat, bytes: seq<Byte>, m2: map<nat, Block>, x': seq<Ref>)
    requires Covered(m, c, x) && b !in m && Survive(m[b := Block(|bytes|, bytes, 1)], m2)
    requires forall q :: Shared(m2, q) - Uses(x', q) == Shared(m[b := Block(|bytes|, bytes, 1)], q) - Uses(x, q) - Bit(q == b)
    requires forall q :: Uses(x, q) <= Uses(x', q)
    ensures Grows(m, c, x, m2, c, x') && Covered(m2, c, x')
  {
    hide Uses;
    forall q ensures Others(m2, c, q) - Uses(x', q) == Others(m, c, q) - Uses(x, q) && Uses(x, q) <= Uses(x', q) {
      assert Shared(m[b := Block(|bytes|, bytes, 1)], q) == Shared(m, q) + Bit(q == b);
    }
    forall q | Others(m, c, q) > 0 ensures q in m && q in m2 && m[q].data <= m2[q].data {
      assert Others(m2, c, q) > 0;
    }
    forall q ensures Uses(x', q) <= Others(m2, c, q) {
      assert Uses(x, q) <= Others(m, c, q);
    }
  }

  lemma OthersBelow(m: map<nat, Block>, c: set<nat>, x: seq<Ref>, b: nat)
    requires Covered(m, c, x)
    ensures Uses(x, b) <= Shared(m, b)
  {
    assert Uses(x, b) <= Others(m, c, b);
  }

  lemma AppendCounts(m: map<nat, Block>, c: set<nat>, x: seq<Ref>, m1: map<nat, Block>, c1: set<nat>, b: nat,
                     bytes: seq<Byte>, m2: map<nat, Block>, x': seq<Ref>)
    requires Covered(m, c, x) && Undisturbed(m, c, m1, c1) && b in m1
    requires Survive(Extended(m1, b, bytes), m2)
    requires forall q :: Shared(m2, q) - Uses(x', q) == Shared(Extended(m1, b, bytes), q) - Uses(x, q)
    requires forall q :: Uses(x, q) <= Uses(x', q)
    ensures Grows(m, c, x, m2, c1, x') && Covered(m2, c1, x')
  {
    hide Uses;
    forall q ensures Others(m2, c1, q) - Uses(x', q) == Others(m, c, q) - Uses(x, q) && Uses(x, q) <= Uses(x', q) {
      assert Shared(Extended(m1, b, bytes), q) == Shared(m1, q);
    }
    forall q | Others(m, c, q) > 0 ensures q in m && q in m2 && m[q].data <= m2[q].data {
      assert Others(m1, c1, q) > 0;
      assert Others(m2, c1, q) > 0;
    }
    forall q ensures Uses(x', q) <= Others(m2, c1, q) {
      assert Uses(x, q) <= Others(m, c, q);
    }
  }

  /** The bytes shared out are taken off the front. */
  lemma AfterSkip(was: map<nat, Block>, now: map<nat, Block>, chain: set<nat>, x: seq<Ref>, y: seq<Ref>, y': seq<Ref>, n: nat)
    requires x != [] && 0 < n < x[0].length && AllFit(was, x) && AllFit(now, x) && Bytes(now, x) == Bytes(was, x)
    requires Conserves(was, x + y, now, x + y') && Covered(now, chain, x + y')
    ensures var x' := x[0 := Skip(x[0], n)];
      && Conserves(was, x + y, now, x' + y') && Covered(now, chain, x' + y')
      && AllFit(now, x') && Bytes(was, x) == Slice(was, Ref(x[0].offset, n, x[0].block)) + Bytes(now, x')
      && n <= |Bytes(was, x)| && Slice(was, Ref(x[0].offset, n, x[0].block)) == Bytes(was, x)[..n]
  {
    var x' := x[0 := Skip(x[0], n)];
    assert Fits(was, x[0]) && Fits(now, x[0]);
    SkipFront(now, x, n);
    SkipFront(was, x, n);
    SkipFrontSums(x, n);
    UsesOfBoth(x, y');
    UsesOfBoth(x', y');
    assert |Slice(was, Ref(x[0].offset, n, x[0].block))| == n;
    assert |Slice(now, Ref(x[0].offset, n, x[0].block))| == n;
    hide Bytes, Uses, AllFit, Slice, Survive, Shared;
    assert Conserves(was, x + y, now, x' + y');
    assert Covered(now, chain, x' + y');
  }

  lemma Assoc(a: seq<Byte>, b: seq<Byte>, c: seq<Byte>)
    ensures a + b + c == a + (b + c)
  {
  }

  lemma NoneYet(m: map<nat, Block>, x: seq<Ref>, had: seq<Byte>)
    ensures had + Bytes(m, x[..0]) == had && Bytes(m, []) == []
  {
  }

  lemma NoneLeft(m: map<nat, Block>, x: seq<Ref>)
    ensures Bytes(m, x) + Bytes(m, []) == Bytes(m, x) && Bytes(m, []) == [] && AllFit(m, [])
  {
  }

  lemma SwapCounts(m: map<nat, Block>, chain: set<nat>, x: seq<Ref>, y: seq<Ref>)
    ensures Conserves(m, x + y, m, y + x)
    ensures Covered(m, chain, x + y) ==> Covered(m, chain, y + x)
  {
    UsesOfBoth(x, y);
    UsesOfBoth(y, x);
  }

  lemma AfterClear(was: map<nat, Block>, now: map<nat, Block>, chain: set<nat>, refs: seq<Ref>)
    requires Covered(was, chain, refs) && Survive(was, now)
    requires forall b :: Shared(now, b) == Shared(was, b) - Uses(refs, b)
    ensures Conserves(was, refs, now, []) && Covered(now, chain, []) && AllFit(now, [])
  {
    forall b ensures Uses([], b) <= Others(now, chain, b) {
      assert Uses(refs, b) <= Others(was, chain, b);
    }
  }

  /** What the holder of x does leaves the holder of y alone. */
  lemma Frame(was: map<nat, Block>, now: map<nat, Block>, chain: set<nat>, x: seq<Ref>, x': seq<Ref>, y: seq<Ref>)
    requires Covered(was, chain, x + y) && AllFit(was, y) && Conserves(was, x, now, x')
    ensures Conserves(was, x + y, now, x' + y) && Covered(now, chain, x' + y)
    ensures AllFit(now, y) && Bytes(now, y) == Bytes(was, y)
  {
    hide Bytes, AllFit, Uses;
    UsesOfBoth(x, y);
    UsesOfBoth(x', y);
    forall b ensures Uses(x' + y, b) <= Others(now, chain, b) {
      assert Uses(x + y, b) <= Others(was, chain, b);
    }
    SurviveBytes(was, now, y);
  }

  lemma AfterCopy(was: map<nat, Block>, now: map<nat, Block>, chain: set<nat>, x: seq<Ref>)
    requires AllFit(was, x) && Covered(was, chain, x) && Survive(was, now)
    requires forall b :: Shared(now, b) == Shared(was, b) + Uses(x, b)
    ensures Conserves(was, x, now, x + x) && Covered(now, chain, x + x)
    ensures AllFit(now, x) && Bytes(now, x) == Bytes(was, x)
  {
    hide Bytes, AllFit, Uses;
    UsesOfBoth(x, x);
    forall b ensures Uses(x + x, b) <= Others(now, chain, b) {
      assert Uses(x, b) <= Others(was, chain, b);
    }
    SurviveBytes(was, now, x);
  }

  lemma NoBytesNoRefs(m: map<nat, Block>, x: seq<Ref>)
    requires AllFit(m, x) && Bytes(m, x) == []
    ensures x == []
  {
    TotalIsLength(m, x);
  }

  class Store {
    /** What the largest block can hold. */
    const limit: nat
    var blocks: map<nat, Block>
    /** Each thread's block_head and its portal_next links. */
    var chains: map<nat, seq<nat>>
    /** The blocks in some thread's chain. */
    ghost var kept: set<nat>

    ghost predicate Valid()
      reads this
    {
      DEFAULT_CAP <= limit <= SIGN && StoreOk(blocks, chains, limit) && kept == Held(chains)
    }

    constructor (limit: nat)
      requires DEFAULT_CAP <= limit <= SIGN
      ensures Valid() && blocks == map[] && chains == map[] && kept == {} && this.limit == limit
    {
      this.limit, blocks, chains, kept := limit, map[], map[], {};
    }

    method IncRef(b: nat)
      requires Valid() && b in blocks
      modifies `blocks
      ensures Valid() && Survive(old(blocks), blocks)
      ensures forall x :: Shared(blocks, x) == Shared(old(blocks), x) + Bit(x == b)
    {
      hide Held;
      blocks := blocks[b := blocks[b].(nshared := blocks[b].nshared + 1)];
    }

    /** Dropping the last reference gives the block's memory back. */
    method DecRef(b: nat)
      requires Valid() && Others(blocks, kept, b) > 0
      modifies `blocks
      ensures Valid() && Survive(old(blocks), blocks)
      ensures forall x :: Shared(blocks, x) == Shared(old(blocks), x) - Bit(x == b)
    {
      hide Held;
      if blocks[b].nshared == 1 {
        blocks := blocks - {b};
      } else {
        blocks := blocks[b := blocks[b].(nshared := blocks[b].nshared - 1)];
      }
    }

    method CreateBlock() returns (b: Option<nat>)
      requires Valid()
      modifies `blocks
      ensures b == None ==> blocks == old(blocks)
      ensures b.Some? ==> b.value !in old(blocks) && blocks == old(blocks)[b.value := Block(DEFAULT_CAP, [], 1)]
      ensures Valid()
    {
      b := Allocate(Block(DEFAULT_CAP, [], 1));
    }

    /** A block for memory that the user hands over, full from the start. */
    method AdoptBlock(bytes: seq<Byte>) returns (b: Option<nat>)
      requires Valid() && 0 < |bytes| <= limit
      modifies `blocks
      ensures b == None ==> blocks == old(blocks)
      ensures b.Some? ==> b.value !in old(blocks) && blocks == old(blocks)[b.value := Block(|bytes|, bytes, 1)]
      ensures Valid()
    {
      b := Allocate(Block(|bytes|, bytes, 1));
    }

    method Allocate(k: Block) returns (b: Option<nat>)
      requires Valid() && BlockOk(k, limit)
      modifies `blocks
      ensures b == None ==> blocks == old(blocks)
      ensures b.Some? ==> b.value !in old(blocks) && blocks == old(blocks)[b.value := k]
      ensures Valid()
    {
      hide Held;
      var memory: bool := *;
      if memory {
        ghost var unused := FreshId(blocks.Keys);
        assert unused !in blocks;
        var id: nat :| id !in blocks;
        b := Some(id);
        blocks := blocks[id := k];
      } else {
        b := None;
      }
    }

    /** remove_tls_block_chain's step: the thread gives its first block up. */
    method DropHead(t: nat)
      requires Valid() && ChainOf(chains, t) != []
      modifies this
      ensures Valid() && Survive(old(blocks), blocks) && chains == old(chains)[t := old(chains)[t][1..]]
      ensures forall x :: Others(blocks, kept, x) == Others(old(blocks), old(kept), x)
    {
      hide Held;
      ChainPop(blocks, chains, limit, t);
      var front := chains[t][0];
      chains := chains[t := chains[t][1..]];
      kept := kept - {front};
      DecRef(front);
    }

    method DropFull(t: nat)
      requires Valid()
      modifies this
      ensures Valid() && Survive(old(blocks), blocks)
      ensures forall x :: Others(blocks, kept, x) == Others(old(blocks), old(kept), x)
      ensures ChainOf(chains, t) == [] || (Head(t) in blocks && !Full(blocks[Head(t)]))
      ensures forall u :: u != t ==> ChainOf(chains, u) == ChainOf(old(chains), u)
    {
      hide Held;
      if ChainOf(chains, t) != [] { HeadIn(t); }
      while ChainOf(chains, t) != [] && Full(blocks[Head(t)])
        invariant Valid() && Survive(old(blocks), blocks)
        invariant ChainOf(chains, t) != [] ==> Head(t) in blocks
        invariant forall x :: Others(blocks, kept, x) == Others(old(blocks), old(kept), x)
        invariant forall u :: u != t ==> ChainOf(chains, u) == ChainOf(old(chains), u)
        decreases |ChainOf(chains, t)|
      {
        DropHead(t);
        if ChainOf(chains, t) != [] { HeadIn(t); }
      }
    }

    function Head(t: nat): nat
      requires ChainOf(chains, t) != []
      reads this
    {
      chains[t][0]
    }

    lemma HeadIn(t: nat)
      requires Valid() && ChainOf(chains, t) != []
      ensures Head(t) in blocks && Head(t) in kept
    {
      assert chains[t][0] in Held(chains);
    }

    /** clear_tls_block_chain, at the exit of thread t. */
    method ClearChain(t: nat)
      requires Valid()
      modifies this
      ensures Valid() && ChainOf(chains, t) == [] && Undisturbed(old(blocks), old(kept), blocks, kept)
      ensures forall u :: u != t ==> ChainOf(chains, u) == ChainOf(old(chains), u)
    {
      hide Held;
      while ChainOf(chains, t) != []
        invariant Valid() && Survive(old(blocks), blocks)
        invariant forall x :: Others(blocks, kept, x) == Others(old(blocks), old(kept), x)
        invariant forall u :: u != t ==> ChainOf(chains, u) == ChainOf(old(chains), u)
        decreases |ChainOf(chains, t)|
      {
        DropHead(t);
      }
    }

    /** share_tls_block: the head of the thread's chain if it has room, after
        dropping the full blocks before it, or else a new block. Nobody else's
        blocks are touched, and no other thread's chain is. */
    method ShareTlsBlock(t: nat) returns (b: Option<nat>)
      requires Valid()
      modifies this
      ensures Valid()
      ensures b.Some? ==> ChainOf(chains, t) != [] && Head(t) == b.value && b.value in blocks && !Full(blocks[b.value])
      ensures Undisturbed(old(blocks), old(kept), blocks, kept)
      ensures forall u :: u != t ==> ChainOf(chains, u) == ChainOf(old(chains), u)
    {
      hide Held;
      if ChainOf(chains, t) != [] {
        HeadIn(t);
        if !Full(blocks[Head(t)]) { return Some(Head(t)); }
      }
      DropFull(t);
      hide StoreOk, Survive, Undisturbed, Others;
      if ChainOf(chains, t) == [] {
        ghost var m1, c1 := blocks, kept;
        SurviveUndisturbed(old(blocks), old(kept), m1, c1);
        b := StartChain(t);
        UndisturbedTrans(old(blocks), old(kept), m1, c1, blocks, kept);
      } else {
        b := Some(Head(t));
        SurviveUndisturbed(old(blocks), old(kept), blocks, kept);
      }
    }

    method StartChain(t: nat) returns (b: Option<nat>)
      requires Valid() && ChainOf(chains, t) == []
      modifies this
      ensures Valid()
      ensures b.Some? ==> ChainOf(chains, t) != [] && Head(t) == b.value && b.value in blocks && !Full(blocks[b.value])
      ensures Undisturbed(old(blocks), old(kept), blocks, kept)
      ensures forall u :: u != t ==> ChainOf(chains, u) == ChainOf(old(chains), u)
    {
      hide Held;
      b := CreateBlock();
      if b.Some? {
        ChainStart(blocks, chains, limit, t, b.value);
        chains, kept := chains[t := [b.value]], kept + {b.value};
      }
    }

    /** Writing behind a block's last byte. */
    method Write(b: nat, bytes: seq<Byte>)
      requires Valid() && b in blocks && |blocks[b].data| + |bytes| <= blocks[b].cap
      modifies `blocks
      ensures Valid()
      ensures blocks == Extended(old(blocks), b, bytes)
    {
      hide Held;
      blocks := blocks[b := blocks[b].(data := blocks[b].data + bytes)];
    }
  }
}
