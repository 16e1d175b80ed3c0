/** The pool of registered memory: regions cut into blocks of three sizes, with
    idle lists in four buckets per size, spare lists for new regions and a
    cache per thread. */
module BlockPool {
  import opened Basics
  import opened BitMask

  const BUCKETS: nat := 4
  const MAX_REGIONS: nat := 16
  const TLS_CACHE_NUM: nat := 128
  const BYTES_IN_MB: nat := 1048576
  const REGION_MB: nat := 1024
  const KINDS: nat := 3

  /** 8 KB, 64 KB and 2 MB. */
  function Size(kind: nat): (n: nat)
    ensures n > 0
  {
    if kind == 0 then 8192 else if kind == 1 then 65536 else 2 * BYTES_IN_MB
  }

  datatype Node = Node(start: nat, len: nat)
  datatype Region = Region(start: nat, size: nat, kind: nat)

  predicate Over(n: Node, p: nat) {
    n.start <= p < n.start + n.len
  }

  predicate Contains(r: Region, p: nat) {
    r.start <= p < r.start + r.size
  }

  /** How many nodes of a list, and of several lists, lie over address p. */
  function Covers(nodes: seq<Node>, p: nat): nat {
    if nodes == [] then 0 else Bit(Over(nodes[0], p)) + Covers(nodes[1..], p)
  }

  function AllCover(lists: seq<seq<Node>>, p: nat): nat {
    if lists == [] then 0 else Covers(lists[0], p) + AllCover(lists[1..], p)
  }

  lemma {:induction false} CoversConcat(x: seq<Node>, y: seq<Node>, p: nat)
    ensures Covers(x + y, p) == Covers(x, p) + Covers(y, p)
  {
    if x == [] {
      assert x + y == y;
    } else {
      assert (x + y)[1..] == x[1..] + y;
      CoversConcat(x[1..], y, p);
    }
  }

  lemma CoversOne(n: Node, p: nat)
    ensures Covers([n], p) == Bit(Over(n, p)) && Covers([], p) == 0
  {
  }

  lemma CoversFront(n: Node, x: seq<Node>, p: nat)
    ensures Covers([n] + x, p) == Bit(Over(n, p)) + Covers(x, p)
  {
    assert ([n] + x)[1..] == x;
  }

  lemma {:induction false} CoversAt(x: seq<Node>, i: nat, p: nat)
    requires i < |x|
    ensures Bit(Over(x[i], p)) <= Covers(x, p)
    ensures forall j :: i < j < |x| ==> Bit(Over(x[i], p)) + Bit(Over(x[j], p)) <= Covers(x, p)
  {
    if i == 0 {
      forall j | 0 < j < |x| ensures Bit(Over(x[0], p)) + Bit(Over(x[j], p)) <= Covers(x, p) {
        CoversAt(x[1..], j - 1, p);
      }
    } else {
      CoversAt(x[1..], i - 1, p);
      forall j | i < j < |x| ensures Bit(Over(x[i], p)) + Bit(Over(x[j], p)) <= Covers(x, p) {
        assert x[1..][j - 1] == x[j];
      }
    }
  }

  lemma CoversRemove(x: seq<Node>, i: nat, p: nat)
    requires i < |x|
    ensures Covers(x[..i] + x[i + 1..], p) == Covers(x, p) - Bit(Over(x[i], p))
  {
    assert x == x[..i] + ([x[i]] + x[i + 1..]);
    CoversConcat(x[..i], [x[i]] + x[i + 1..], p);
    CoversFront(x[i], x[i + 1..], p);
    CoversConcat(x[..i], x[i + 1..], p);
  }

  lemma {:induction false} AllCoverUpdate(lists: seq<seq<Node>>, k: nat, l: seq<Node>, p: nat)
    requires k < |lists|
    ensures AllCover(lists[k := l], p) == AllCover(lists, p) - Covers(lists[k], p) + Covers(l, p)
    ensures Covers(lists[k], p) <= AllCover(lists, p)
  {
    hide Covers;
    if k == 0 {
      assert lists[0 := l][1..] == lists[1..];
    } else {
      assert lists[k := l][1..] == lists[1..][k - 1 := l];
      AllCoverUpdate(lists[1..], k - 1, l, p);
    }
  }

  // ---- Nodes and regions -----------------------------------------------------------

  /** Node n is made of whole blocks of region j. */
  predicate NodeIn(regions: seq<Region>, n: Node, j: nat) {
    && j < |regions| && n.len > 0
    && regions[j].start <= n.start && n.start + n.len <= regions[j].start + regions[j].size
    && (n.start - regions[j].start) % Size(regions[j].kind) == 0 && n.len % Size(regions[j].kind) == 0
  }

  ghost predicate NodeOk(regions: seq<Region>, n: Node, kind: nat) {
    exists j: nat :: NodeIn(regions, n, j) && regions[j].kind == kind
  }

  ghost predicate ListOk(regions: seq<Region>, nodes: seq<Node>, kind: nat) {
    forall i :: 0 <= i < |nodes| ==> NodeOk(regions, nodes[i], kind)
  }

  /** The list of bucket i of a kind. */
  function Slot(kind: nat, i: nat): nat {
    BUCKETS * kind + i
  }

  function KindOf(slot: nat): nat {
    slot / BUCKETS
  }

  ghost predicate ListsOk(regions: seq<Region>, lists: seq<seq<Node>>) {
    |lists| == BUCKETS * KINDS && forall k :: 0 <= k < |lists| ==> ListOk(regions, lists[k], KindOf(k))
  }

  /** A cache holds single blocks of the smallest kind. */
  ghost predicate CacheOk(regions: seq<Region>, nodes: seq<Node>) {
    ListOk(regions, nodes, 0) && forall i :: 0 <= i < |nodes| ==> nodes[i].len == Size(0)
  }

  /** A block in use: one block of the region it came from. */
  ghost predicate BlockOf(regions: seq<Region>, n: Node, kind: nat) {
    NodeOk(regions, n, kind) && n.len == Size(kind) && kind < KINDS
  }

  ghost predicate SomeBlock(regions: seq<Region>, n: Node) {
    exists kind: nat :: BlockOf(regions, n, kind)
  }

  ghost predicate InUseOk(regions: seq<Region>, nodes: seq<Node>) {
    forall i :: 0 <= i < |nodes| ==> SomeBlock(regions, nodes[i])
  }

  predicate Apart(r: Region, q: Region) {
    r.start + r.size <= q.start || q.start + q.size <= r.start
  }

  ghost predicate RegionsOk(regions: seq<Region>) {
    && |regions| <= MAX_REGIONS
    && (forall i :: 0 <= i < |regions| ==>
         regions[i].start > 0 && regions[i].start % 4096 == 0 && regions[i].size > 0 && regions[i].kind < KINDS
         && regions[i].size % (BUCKETS * Size(regions[i].kind)) == 0)
    && (forall i, j :: 0 <= i < j < |regions| ==> Apart(regions[i], regions[j]))
  }

  lemma NodeKeeps(regions: seq<Region>, r: Region, n: Node, kind: nat)
    requires NodeOk(regions, n, kind)
    ensures NodeOk(regions + [r], n, kind)
  {
    var j: nat :| NodeIn(regions, n, j) && regions[j].kind == kind;
    assert NodeIn(regions + [r], n, j);
  }

  lemma ListKeeps(regions: seq<Region>, r: Region, nodes: seq<Node>, kind: nat)
    requires ListOk(regions, nodes, kind)
    ensures ListOk(regions + [r], nodes, kind)
  {
    hide NodeOk;
    forall i | 0 <= i < |nodes| ensures NodeOk(regions + [r], nodes[i], kind) { NodeKeeps(regions, r, nodes[i], kind); }
  }

  /** An address lies in one region only. */
  lemma OneRegion(regions: seq<Region>, i: nat, j: nat, p: nat)
    requires RegionsOk(regions) && i < |regions| && j < |regions|
    requires Contains(regions[i], p) && Contains(regions[j], p)
    ensures i == j
  {
  }

  lemma ModSum(a: nat, b: nat, n: nat)
    requires n > 0 && a % n == 0 && b % n == 0
    ensures (a + b) % n == 0 && (a >= b ==> (a - b) % n == 0)
  {
    assert a == (a / n) * n && b == (b / n) * n;
    assert a + b == (a / n + b / n) * n;
    Multiple(a / n + b / n, n);
    if a >= b {
      assert a - b == (a / n - b / n) * n;
      Multiple(a / n - b / n, n);
    }
  }

  lemma Multiple(q: int, n: nat)
    requires n > 0
    ensures (q * n) % n == 0
  {
    Remainder(q * n, n, q, 0);
  }

  /** A node of more than one block is one block and a node. */
  lemma SplitNode(regions: seq<Region>, n: Node, kind: nat)
    requires NodeOk(regions, n, kind) && n.len > Size(kind)
    ensures var s := Size(kind); NodeOk(regions, Node(n.start, s), kind) && NodeOk(regions, Node(n.start + s, n.len - s), kind)
    ensures forall p: nat :: Bit(Over(n, p)) == Bit(Over(Node(n.start, Size(kind)), p)) + Bit(Over(Node(n.start + Size(kind), n.len - Size(kind)), p))
  {
    var j: nat :| NodeIn(regions, n, j) && regions[j].kind == kind;
    var s := Size(kind);
    Multiple(1, s);
    ModSum(n.start - regions[j].start, s, s);
    ModSum(n.len, s, s);
    assert NodeIn(regions, Node(n.start, s), j) && NodeIn(regions, Node(n.start + s, n.len - s), j);
  }

  lemma SmallIsOne(regions: seq<Region>, n: Node, kind: nat)
    requires NodeOk(regions, n, kind) && n.len <= Size(kind)
    ensures n.len == Size(kind)
  {
    var j: nat :| NodeIn(regions, n, j) && regions[j].kind == kind;
    assert n.len == (n.len / Size(kind)) * Size(kind);
  }

  // ---- The pool -------------------------------------------------------------------------

  /** Everything the pool knows. */
  ghost predicate PoolOk(regions: seq<Region>, idle: seq<seq<Node>>, spare: seq<seq<Node>>, tls: seq<seq<Node>>, used: seq<Node>) {
    && RegionsOk(regions) && ListsOk(regions, idle) && ListsOk(regions, spare)
    && (forall t :: 0 <= t < |tls| ==> CacheOk(regions, tls[t])) && InUseOk(regions, used)
  }

  /** How often address p is on a list, in a cache or in use. */
  function Owners(idle: seq<seq<Node>>, spare: seq<seq<Node>>, tls: seq<seq<Node>>, used: seq<Node>, p: nat): nat {
    AllCover(idle, p) + AllCover(spare, p) + AllCover(tls, p) + Covers(used, p)
  }

  /** The part of a region that bucket i gets. */
  function Part(r: Region, i: nat): Node {
    Node(r.start + i * (r.size / BUCKETS), r.size / BUCKETS)
  }

  lemma PartIn(regions: seq<Region>, j: nat, i: nat)
    requires RegionsOk(regions) && j < |regions| && i < BUCKETS
    ensures NodeOk(regions, Part(regions[j], i), regions[j].kind)
  {
    var r := regions[j];
    var s, q := Size(r.kind), r.size / (BUCKETS * Size(r.kind));
    assert r.size == q * (BUCKETS * s);
    assert r.size == (q * s) * BUCKETS;
    assert r.size / BUCKETS == q * s;
    Multiple(q, s);
    assert i * (q * s) == (i * q) * s;
    Multiple(i * q, s);
    assert q > 0;
    PartEnds(q * s, i);
    assert NodeIn(regions, Part(r, i), j);
  }

  lemma PartEnds(x: nat, i: nat)
    requires i < BUCKETS
    ensures i * x + x <= BUCKETS * x
  {
  }

  /** The four parts lie over the region, each address under one of them. */
  lemma PartsCover(r: Region, p: nat)
    requires r.size % BUCKETS == 0
    ensures Bit(Over(Part(r, 0), p)) + Bit(Over(Part(r, 1), p)) + Bit(Over(Part(r, 2), p)) + Bit(Over(Part(r, 3), p))
      == Bit(Contains(r, p))
  {
  }

  ghost predicate Placed(regions: seq<Region>, n: Node) {
    exists j: nat :: NodeIn(regions, n, j)
  }

  lemma OkIsPlaced(regions: seq<Region>, n: Node, kind: nat)
    requires NodeOk(regions, n, kind)
    ensures Placed(regions, n)
  {
  }

  lemma ListIsPlaced(regions: seq<Region>, nodes: seq<Node>, kind: nat)
    requires ListOk(regions, nodes, kind)
    ensures forall i :: 0 <= i < |nodes| ==> Placed(regions, nodes[i])
  {
    hide NodeOk, Placed;
    forall i | 0 <= i < |nodes| ensures Placed(regions, nodes[i]) { OkIsPlaced(regions, nodes[i], kind); }
  }

  lemma {:induction false} CoveredByRegion(regions: seq<Region>, nodes: seq<Node>, p: nat)
    requires forall i :: 0 <= i < |nodes| ==> Placed(regions, nodes[i])
    requires Covers(nodes, p) > 0
    ensures exists j: nat :: j < |regions| && Contains(regions[j], p)
  {
    if Over(nodes[0], p) {
      var j: nat :| NodeIn(regions, nodes[0], j);
      assert Contains(regions[j], p);
    } else {
      CoveredByRegion(regions, nodes[1..], p);
    }
  }

  lemma {:induction false} SomeListCovers(lists: seq<seq<Node>>, p: nat) returns (k: nat)
    requires AllCover(lists, p) > 0
    ensures k < |lists| && Covers(lists[k], p) > 0
  {
    if Covers(lists[0], p) > 0 {
      k := 0;
    } else {
      k := SomeListCovers(lists[1..], p);
      k := k + 1;
    }
  }

  /** Whatever the pool has or handed out lies in a region. */
  lemma OwnedIsInRegion(regions: seq<Region>, idle: seq<seq<Node>>, spare: seq<seq<Node>>, tls: seq<seq<Node>>,
                        used: seq<Node>, p: nat)
    requires PoolOk(regions, idle, spare, tls, used) && Owners(idle, spare, tls, used, p) > 0
    ensures exists j: nat :: j < |regions| && Contains(regions[j], p)
  {
    hide Covers, AllCover, NodeOk, RegionsOk, Placed;
    if AllCover(idle, p) > 0 {
      var k := SomeListCovers(idle, p);
      assert ListOk(regions, idle[k], KindOf(k));
      ListIsPlaced(regions, idle[k], KindOf(k));
      CoveredByRegion(regions, idle[k], p);
    } else if AllCover(spare, p) > 0 {
      var k := SomeListCovers(spare, p);
      assert ListOk(regions, spare[k], KindOf(k));
      ListIsPlaced(regions, spare[k], KindOf(k));
      CoveredByRegion(regions, spare[k], p);
    } else if AllCover(tls, p) > 0 {
      var k := SomeListCovers(tls, p);
      assert CacheOk(regions, tls[k]);
      ListIsPlaced(regions, tls[k], 0);
      CoveredByRegion(regions, tls[k], p);
    } else {
      forall i | 0 <= i < |used| ensures Placed(regions, used[i]) {
        assert SomeBlock(regions, used[i]);
        var kind: nat :| BlockOf(regions, used[i], kind);
        OkIsPlaced(regions, used[i], kind);
      }
      CoveredByRegion(regions, used, p);
    }
  }

  /** A region of 1 GiB, cut down to whole blocks for every bucket. */
  function RegionSize(kind: nat): nat {
    REGION_MB * BYTES_IN_MB / Size(kind) / BUCKETS * (Size(kind) * BUCKETS)
  }

  lemma RegionSizeOk(kind: nat)
    requires kind < KINDS
    ensures RegionSize(kind) == 0x4000_0000 && RegionSize(kind) % (BUCKETS * Size(kind)) == 0
  {
  }

  /** Memory that nobody else has, as posix_memalign promises. */
  ghost predicate FreshMemory(regions: seq<Region>, base: nat, size: nat) {
    && base > 0 && base % 4096 == 0
    && forall i :: 0 <= i < |regions| ==> Apart(regions[i], Region(base, size, 0))
  }

  lemma NewRegionOk(regions: seq<Region>, base: nat, kind: nat)
    requires RegionsOk(regions) && |regions| < MAX_REGIONS && kind < KINDS && FreshMemory(regions, base, RegionSize(kind))
    ensures RegionsOk(regions + [Region(base, RegionSize(kind), kind)])
  {
    RegionSizeOk(kind);
    var r := Region(base, RegionSize(kind), kind);
    forall i | 0 <= i < |regions| ensures Apart(regions[i], r) {
      assert Apart(regions[i], Region(base, RegionSize(kind), 0));
    }
  }

  /** The spare lists with the four parts of a region in front. */
  function WithParts(spare: seq<seq<Node>>, r: Region): (lists: seq<seq<Node>>)
    requires |spare| == BUCKETS * KINDS && r.kind < KINDS
    ensures |lists| == |spare|
  {
    var k := Slot(r.kind, 0);
    spare[k := [Part(r, 0)] + spare[k]][k + 1 := [Part(r, 1)] + spare[k + 1]]
         [k + 2 := [Part(r, 2)] + spare[k + 2]][k + 3 := [Part(r, 3)] + spare[k + 3]]
  }

  lemma WithPartsCovers(spare: seq<seq<Node>>, r: Region, p: nat)
    requires |spare| == BUCKETS * KINDS && r.kind < KINDS && r.size % BUCKETS == 0
    ensures AllCover(WithParts(spare, r), p) == AllCover(spare, p) + Bit(Contains(r, p))
  {
    hide AllCover, Covers, Part, Over, Contains;
    var k := Slot(r.kind, 0);
    var s1 := spare[k := [Part(r, 0)] + spare[k]];
    var s2 := s1[k + 1 := [Part(r, 1)] + spare[k + 1]];
    var s3 := s2[k + 2 := [Part(r, 2)] + spare[k + 2]];
    AllCoverUpdate(spare, k, [Part(r, 0)] + spare[k], p);
    AllCoverUpdate(s1, k + 1, [Part(r, 1)] + spare[k + 1], p);
    AllCoverUpdate(s2, k + 2, [Part(r, 2)] + spare[k + 2], p);
    AllCoverUpdate(s3, k + 3, [Part(r, 3)] + spare[k + 3], p);
    CoversFront(Part(r, 0), spare[k], p);
    CoversFront(Part(r, 1), spare[k + 1], p);
    CoversFront(Part(r, 2), spare[k + 2], p);
    CoversFront(Part(r, 3), spare[k + 3], p);
    PartsCover(r, p);
  }

  lemma WithPartsOk(regions: seq<Region>, spare: seq<seq<Node>>, r: Region)
    requires ListsOk(regions, spare) && RegionsOk(regions + [r]) && r.kind < KINDS
    ensures ListsOk(regions + [r], WithParts(spare, r))
  {
    hide NodeOk, RegionsOk, Part;
    var all, lists := regions + [r], WithParts(spare, r);
    forall k | 0 <= k < |lists| ensures ListOk(all, lists[k], KindOf(k)) {
      ListKeeps(regions, r, spare[k], KindOf(k));
      if KindOf(k) == r.kind {
        var i := k - Slot(r.kind, 0);
        assert lists[k] == [Part(r, i)] + spare[k];
        PartIn(all, |regions|, i);
      }
    }
  }

  lemma LastRegion(regions: seq<Region>, r: Region)
    requires RegionsOk(regions + [r])
    ensures r.kind < KINDS && r.size % BUCKETS == 0
  {
    assert (regions + [r])[|regions|] == r;
    var s := Size(r.kind);
    var q := r.size / (BUCKETS * s);
    assert r.size == q * (BUCKETS * s) == (q * s) * BUCKETS;
    Multiple(q * s, BUCKETS);
  }

  // ---- Steps on values ----------------------------------------------------------------

  lemma SetList(regions: seq<Region>, lists: seq<seq<Node>>, k: nat, l: seq<Node>)
    requires ListsOk(regions, lists) && k < |lists| && ListOk(regions, l, KindOf(k))
    ensures ListsOk(regions, lists[k := l])
  {
    hide ListOk;
  }

  lemma FrontOk(regions: seq<Region>, n: Node, l: seq<Node>, kind: nat)
    requires NodeOk(regions, n, kind) && ListOk(regions, l, kind)
    ensures ListOk(regions, [n] + l, kind)
  {
    hide NodeOk;
  }

  lemma CutOk(regions: seq<Region>, l: seq<Node>, kind: nat, i: nat)
    requires ListOk(regions, l, kind) && i <= |l|
    ensures ListOk(regions, l[..i], kind) && ListOk(regions, l[i..], kind)
  {
    hide NodeOk;
  }

  lemma JoinOk(regions: seq<Region>, x: seq<Node>, y: seq<Node>, kind: nat)
    requires ListOk(regions, x, kind) && ListOk(regions, y, kind)
    ensures ListOk(regions, x + y, kind)
  {
    hide NodeOk;
  }

  lemma UseMore(regions: seq<Region>, used: seq<Node>, n: Node, kind: nat)
    requires InUseOk(regions, used) && BlockOf(regions, n, kind)
    ensures InUseOk(regions, used + [n])
  {
    assert SomeBlock(regions, n);
    hide SomeBlock;
  }

  lemma UseLess(regions: seq<Region>, used: seq<Node>, h: nat)
    requires InUseOk(regions, used) && h < |used|
    ensures InUseOk(regions, used[..h] + used[h + 1..])
  {
    hide SomeBlock;
  }

  lemma SlotIs(kind: nat, i: nat)
    requires kind < KINDS && i < BUCKETS
    ensures Slot(kind, i) < BUCKETS * KINDS && KindOf(Slot(kind, i)) == kind
  {
  }

  /** A list without its first block. */
  function Rest(list: seq<Node>, kind: nat): seq<Node>
    requires list != []
  {
    var n := list[0];
    if n.len > Size(kind) then [Node(n.start + Size(kind), n.len - Size(kind))] + list[1..] else list[1..]
  }

  /** What filling a cache loses: everything behind a first node of more than
      one block. */
  function Dropped(list: seq<Node>): seq<Node> {
    if |list| >= 2 && list[0].len > Size(0) then list[1..] else []
  }

  /** Taking a block from this list loses others: the cache has to be filled,
      and after the block comes a larger node that is not the last one. */
  predicate LosesBlocks(kind: nat, cache: seq<Node>, list: seq<Node>) {
    kind == 0 && cache == [] && list != [] && Dropped(Rest(list, 0)) != []
  }

  /** The list the next block of a bucket comes from, if no region is added. */
  function Supply(idle: seq<seq<Node>>, spare: seq<seq<Node>>, k: nat): seq<Node>
    requires k < |idle| && k < |spare|
  {
    if idle[k] != [] then idle[k] else spare[k]
  }

  /** Where a drained bucket gets its list from: its spare list, or its part of
      a new region. */
  ghost predicate Supplied(regions: seq<Region>, spare: seq<seq<Node>>, regions': seq<Region>, spare': seq<seq<Node>>,
                           kind: nat, i: nat, base: Option<nat>, list: seq<Node>)
    requires kind < KINDS && i < BUCKETS && |spare| == BUCKETS * KINDS
  {
    var k := Slot(kind, i);
    if spare[k] != [] then regions' == regions && spare' == spare[k := []] && list == spare[k]
    else
      && base.Some? && regions' == regions + [Region(base.value, RegionSize(kind), kind)]
      && spare' == WithParts(spare, Region(base.value, RegionSize(kind), kind))[k := []]
      && list == [Part(Region(base.value, RegionSize(kind), kind), i)]
  }

  class Pool {
    var regions: seq<Region>
    /** idle_list and expansion_list, by kind and bucket. */
    var idle: seq<seq<Node>>
    var spare: seq<seq<Node>>
    /** Each thread's tls_idle_list and tls_idle_num. */
    var tls: seq<seq<Node>>
    var tlsNum: seq<nat>
    /** Blocks handed out and not yet returned. */
    ghost var used: seq<Node>

    ghost predicate Consistent()
      reads this
    {
      && PoolOk(regions, idle, spare, tls, used)
      && |tlsNum| == |tls| && forall t :: 0 <= t < |tls| ==> tlsNum[t] == |tls[t]|
    }

    ghost function Owned(p: nat): nat
      reads this
    {
      Owners(idle, spare, tls, used, p)
    }

    /** No address is on two lists, or on a list and in use, or in use twice. */
    ghost predicate Valid()
      reads this
    {
      Consistent() && forall p: nat :: Owned(p) <= 1
    }

    lemma Sizes()
      requires Valid()
      ensures |idle| == |spare| == BUCKETS * KINDS
    {
    }

    constructor (threads: nat)
      ensures Valid() && regions == [] && used == [] && |tls| == threads && |idle| == |spare| == BUCKETS * KINDS
      ensures (forall k :: 0 <= k < |idle| ==> idle[k] == spare[k] == []) && forall t :: 0 <= t < threads ==> tls[t] == []
    {
      regions, used := [], [];
      idle, spare := seq(BUCKETS * KINDS, _ => []), seq(BUCKETS * KINDS, _ => []);
      tls, tlsNum := seq(threads, _ => []), seq(threads, _ => 0);
      new;
      forall p: nat ensures Owned(p) <= 1 {
        NothingCovered(idle, p);
        NothingCovered(tls, p);
        assert idle == spare;
      }
    }

    /** ExtendBlockPool: a new region, one part for every bucket. */
    method Extend(kind: nat, base: Option<nat>, registered: bool) returns (ok: bool)
      requires Valid() && kind < KINDS
      requires base.Some? ==> FreshMemory(regions, base.value, RegionSize(kind))
      modifies `regions, `spare
      ensures Valid() && (ok <==> base.Some? && |old(regions)| < MAX_REGIONS && registered)
      ensures !ok ==> regions == old(regions) && spare == old(spare)
      ensures ok ==>
        && regions == old(regions) + [Region(base.value, RegionSize(kind), kind)]
        && |old(spare)| == BUCKETS * KINDS && spare == WithParts(old(spare), Region(base.value, RegionSize(kind), kind))
        && forall p: nat :: Owned(p) == old(Owned(p)) + Bit(Contains(regions[|old(regions)|], p))
    {
      if base == None { return false; }
      if |regions| == MAX_REGIONS || !registered { return false; }
      var r := Region(base.value, RegionSize(kind), kind);
      NewRegionOk(regions, base.value, kind);
      ExtendOk(r);
      hide PoolOk, Owners, RegionsOk, FreshMemory, WithParts, Contains;
      regions := regions + [r];
      AddParts(r);
      ok := true;
    }

    method AddParts(r: Region)
      requires |spare| == BUCKETS * KINDS && r.kind < KINDS
      modifies `spare
      ensures spare == WithParts(old(spare), r)
    {
      ghost var had := spare;
      var i := 0;
      while i < BUCKETS
        invariant i <= BUCKETS && |spare| == BUCKETS * KINDS
        invariant forall k :: 0 <= k < |spare| ==>
          spare[k] == if Slot(r.kind, 0) <= k < Slot(r.kind, i) then [Part(r, k - Slot(r.kind, 0))] + had[k] else had[k]
      {
        spare := spare[Slot(r.kind, i) := [Part(r, i)] + spare[Slot(r.kind, i)]];
        i := i + 1;
      }
    }

    lemma ExtendOk(r: Region)
      requires Valid() && RegionsOk(regions + [r]) && r.kind < KINDS
      ensures PoolOk(regions + [r], idle, WithParts(spare, r), tls, used)
      ensures forall p: nat ::
        Owners(idle, WithParts(spare, r), tls, used, p) == Owned(p) + Bit(Contains(r, p)) <= 1
    {
      hide NodeOk, Covers, AllCover, RegionsOk, Contains, Placed, WithParts;
      var all := regions + [r];
      WithPartsOk(regions, spare, r);
      LastRegion(regions, r);
      forall k | 0 <= k < |idle| ensures ListOk(all, idle[k], KindOf(k)) { ListKeeps(regions, r, idle[k], KindOf(k)); }
      forall t | 0 <= t < |tls| ensures CacheOk(all, tls[t]) { ListKeeps(regions, r, tls[t], 0); }
      forall i | 0 <= i < |used| ensures SomeBlock(all, used[i]) {
        assert SomeBlock(regions, used[i]);
        var kind: nat :| BlockOf(regions, used[i], kind);
        NodeKeeps(regions, r, used[i], kind);
        assert BlockOf(all, used[i], kind);
      }
      forall p: nat ensures Owners(idle, WithParts(spare, r), tls, used, p) == Owned(p) + Bit(Contains(r, p)) <= 1 {
        WithPartsCovers(spare, r, p);
        if Contains(r, p) && Owned(p) > 0 {
          OwnedIsInRegion(regions, idle, spare, tls, used, p);
          var j: nat :| j < |regions| && Contains(regions[j], p);
          OneRegion(all, j, |regions|, p);
        }
      }
    }

    /** MoveExpansionList2EmptyIdleList. */
    method MoveSpare(kind: nat, i: nat)
      requires Valid() && kind < KINDS && i < BUCKETS && |idle| == BUCKETS * KINDS && idle[Slot(kind, i)] == []
      modifies `idle, `spare
      ensures Valid() && forall p: nat :: Owned(p) == old(Owned(p))
      ensures |old(spare)| == BUCKETS * KINDS && idle == old(idle)[Slot(kind, i) := old(spare)[Slot(kind, i)]]
      ensures spare == old(spare)[Slot(kind, i) := []]
    {
      hide NodeOk, Covers, AllCover, RegionsOk;
      var k := Slot(kind, i);
      SlotIs(kind, i);
      SetList(regions, idle, k, spare[k]);
      SetList(regions, spare, k, []);
      ghost var idle0, spare0 := idle, spare;
      idle, spare := idle[k := spare[k]], spare[k := []];
      forall p: nat ensures Owned(p) == old(Owned(p)) {
        AllCoverUpdate(idle0, k, spare0[k], p);
        AllCoverUpdate(spare0, k, [], p);
        CoversOne(Node(0, 0), p);
      }
    }

    /** The first block of an idle list; what is left of its node stays. */
    method TakeFirst(kind: nat, i: nat) returns (ptr: nat)
      requires Valid() && kind < KINDS && i < BUCKETS && |idle| == BUCKETS * KINDS && idle[Slot(kind, i)] != []
      modifies `idle, `used
      ensures Valid() && forall p: nat :: Owned(p) == old(Owned(p))
      ensures used == old(used) + [Node(ptr, Size(kind))] && BlockOf(regions, Node(ptr, Size(kind)), kind)
      ensures idle == old(idle)[Slot(kind, i) := Rest(old(idle)[Slot(kind, i)], kind)]
    {
      hide NodeOk, Covers, AllCover, RegionsOk, Over, Size;
      var k := Slot(kind, i);
      SlotIs(kind, i);
      var node, rest := idle[k][0], idle[k][1..];
      assert ListOk(regions, idle[k], kind) && NodeOk(regions, node, kind);
      CutOk(regions, idle[k], kind, 1);
      ptr := node.start;
      ghost var b, idle0, used0 := Node(ptr, Size(kind)), idle, used;
      var left := rest;
      if node.len > Size(kind) {
        SplitNode(regions, node, kind);
        left := [Node(node.start + Size(kind), node.len - Size(kind))] + rest;
        FrontOk(regions, left[0], rest, kind);
      } else {
        SmallIsOne(regions, node, kind);
      }
      SetList(regions, idle, k, left);
      UseMore(regions, used, b, kind);
      idle, used := idle[k := left], used + [b];
      assert idle0[k] == [node] + rest;
      forall p: nat ensures Owned(p) == old(Owned(p)) {
        AllCoverUpdate(idle0, k, left, p);
        CoversFront(node, rest, p);
        if node.len > Size(kind) { CoversFront(left[0], rest, p); }
        CoversConcat(used0, [b], p);
        CoversOne(b, p);
      }
    }

    /** The blocks at the front of a bucket go to the thread's empty cache, half
        a cache of them at most and single blocks only. If the first node is
        not a single block, it loses its successors. */
    method CacheMore(t: nat, i: nat) returns (ghost lost: seq<Node>)
      requires Valid() && t < |tls| && tls[t] == [] && i < BUCKETS && |idle| == BUCKETS * KINDS
      modifies `idle, `tls, `tlsNum
      ensures Valid() && |idle| == BUCKETS * KINDS && |tls| == |old(tls)|
      ensures forall p: nat :: Owned(p) + Covers(lost, p) == old(Owned(p))
      ensures lost == Dropped(old(idle)[i])
      ensures tls[t] + idle[i] + lost == old(idle)[i] && idle == old(idle)[i := idle[i]]
      ensures old(idle)[i] != [] && old(idle)[i][0].len > Size(0) ==> tls[t] == []
    {
      hide NodeOk, Covers, AllCover, RegionsOk, Size;
      SlotIs(0, i);
      var list, c := idle[i], 0;
      while c < |list| && c < TLS_CACHE_NUM / 2 && list[c].len <= Size(0)
        invariant c <= |list| && c <= TLS_CACHE_NUM / 2 && forall j :: 0 <= j < c ==> list[j].len <= Size(0)
      {
        c := c + 1;
      }
      ghost var idle0, tls0 := idle, tls;
      var cache, left := list[..c], if c > 0 then list[c..] else if |list| > 1 then list[..1] else list;
      lost := list[c + |left|..];
      CacheOkFor(list, c, |left|);
      SetList(regions, idle, i, left);
      idle, tls, tlsNum := idle[i := left], tls[t := cache], tlsNum[t := c];
      forall p: nat ensures Owned(p) + Covers(lost, p) == old(Owned(p)) {
        AllCoverUpdate(idle0, i, left, p);
        AllCoverUpdate(tls0, t, cache, p);
        assert list == cache + left + lost;
        CoversConcat(cache + left, lost, p);
        CoversConcat(cache, left, p);
        CoversOne(Node(0, 0), p);
      }
    }

    lemma CacheOkFor(list: seq<Node>, c: nat, n: nat)
      requires ListOk(regions, list, 0) && c + n <= |list| && forall j :: 0 <= j < c ==> list[j].len <= Size(0)
      ensures CacheOk(regions, list[..c]) && ListOk(regions, list[c..c + n], 0)
    {
      hide NodeOk;
      forall j | 0 <= j < c ensures list[j].len == Size(0) {
        assert NodeOk(regions, list[j], 0);
        SmallIsOne(regions, list[j], 0);
      }
    }

    method PopCached(t: nat) returns (ptr: nat)
      requires Valid() && t < |tls| && tls[t] != []
      modifies `tls, `tlsNum, `used
      ensures Valid() && |tls| == |old(tls)| && forall p: nat :: Owned(p) == old(Owned(p))
      ensures used == old(used) + [Node(ptr, Size(0))] && BlockOf(regions, Node(ptr, Size(0)), 0)
      ensures tls == old(tls)[t := old(tls)[t][1..]]
    {
      hide NodeOk, Covers, AllCover, RegionsOk, Over, Size;
      var node, rest := tls[t][0], tls[t][1..];
      assert CacheOk(regions, tls[t]) && NodeOk(regions, node, 0);
      CutOk(regions, tls[t], 0, 1);
      ptr := node.start;
      ghost var tls0, used0 := tls, used;
      UseMore(regions, used, node, 0);
      assert tls0[t] == [node] + rest;
      tls, tlsNum, used := tls[t := rest], tlsNum[t := tlsNum[t] - 1], used + [node];
      forall p: nat ensures Owned(p) == old(Owned(p)) {
        AllCoverUpdate(tls0, t, rest, p);
        CoversFront(node, rest, p);
        CoversConcat(used0, [node], p);
        CoversOne(node, p);
      }
    }

    /** A bucket with something idle: from its spare list, or from a new
        region. */
    method Refill(kind: nat, i: nat, base: Option<nat>, registered: bool) returns (ok: bool)
      requires Valid() && kind < KINDS && i < BUCKETS && |idle| == BUCKETS * KINDS && |spare| == BUCKETS * KINDS
      requires idle[Slot(kind, i)] == []
      requires base.Some? ==> FreshMemory(regions, base.value, RegionSize(kind))
      modifies `regions, `idle, `spare
      ensures Valid() && |idle| == BUCKETS * KINDS && |regions| >= |old(regions)| && regions[..|old(regions)|] == old(regions)
      ensures ok ==> idle[Slot(kind, i)] != [] && idle == old(idle)[Slot(kind, i) := idle[Slot(kind, i)]]
      ensures old(spare)[Slot(kind, i)] != [] || (base.Some? && registered && |old(regions)| < MAX_REGIONS) ==> ok
      ensures ok ==> Supplied(old(regions), old(spare), regions, spare, kind, i, base, idle[Slot(kind, i)])
      ensures !ok ==> regions == old(regions) && idle == old(idle) && spare == old(spare)
      ensures forall p: nat :: Owned(p) == old(Owned(p)) + Bit(|regions| > |old(regions)| && Contains(regions[|old(regions)|], p))
    {
      SlotIs(kind, i);
      hide PoolOk, Owners, RegionsOk, FreshMemory, Contains, Slot, RegionSize;
      if spare[Slot(kind, i)] == [] {
        ok := Extend(kind, base, registered);
        if !ok { return; }
        PartsInFront(old(spare), Region(base.value, RegionSize(kind), kind), i);
        assert [Part(Region(base.value, RegionSize(kind), kind), i)] + [] == [Part(Region(base.value, RegionSize(kind), kind), i)];
      }
      hide WithParts;
      MoveSpare(kind, i);
      ok := true;
    }

    /** AllocBlockFrom: a block from the thread's cache, or the first one of a
        bucket. */
    method AllocateKind(t: nat, kind: nat, i: nat, base: Option<nat>, registered: bool)
      returns (ptr: Option<nat>, ghost lost: seq<Node>, ghost list: seq<Node>)
      requires Valid() && t < |tls| && kind < KINDS && i < BUCKETS && |idle| == |spare| == BUCKETS * KINDS
      requires base.Some? ==> FreshMemory(regions, base.value, RegionSize(kind))
      modifies this
      ensures Valid() && |tls| == |old(tls)| && |regions| >= |old(regions)| && regions[..|old(regions)|] == old(regions)
      ensures ptr == None ==> used == old(used) && lost == []
      ensures ptr.Some? ==> used == old(used) + [Node(ptr.value, Size(kind))] && BlockOf(regions, Node(ptr.value, Size(kind)), kind)
      ensures forall p: nat ::
        Owned(p) + Covers(lost, p) == old(Owned(p)) + Bit(|regions| > |old(regions)| && Contains(regions[|old(regions)|], p))
      ensures old(Supply(idle, spare, Slot(kind, i))) != [] || (base.Some? && registered && |old(regions)| < MAX_REGIONS) ==> ptr.Some?
      ensures lost != [] <==> ptr.Some? && LosesBlocks(kind, old(tls[t]), old(Supply(idle, spare, Slot(kind, i))))
      ensures lost != [] ==> lost == Dropped(Rest(old(Supply(idle, spare, Slot(kind, i))), kind))
      ensures kind == 0 && old(tls[t]) != [] ==>
        ptr.Some? && regions == old(regions) && idle == old(idle) && spare == old(spare) && tls[t] == old(tls[t])[1..]
      ensures !(kind == 0 && old(tls[t]) != []) && ptr.Some? ==>
        && list != [] && (kind == 0 ==> tls[t] + idle[i] + lost == Rest(list, 0))
        && (kind == 0 && Rest(list, 0) != [] && Rest(list, 0)[0].len > Size(0) ==> tls[t] == [])
        && idle == old(idle)[Slot(kind, i) := idle[Slot(kind, i)]]
        && (if old(idle)[Slot(kind, i)] != [] then list == old(idle)[Slot(kind, i)] && regions == old(regions) && spare == old(spare)
            else Supplied(old(regions), old(spare), regions, spare, kind, i, base, list))
    {
      lost, list := [], [];
      hide PoolOk, Owners, RegionsOk, FreshMemory, Contains, Slot, RegionSize, Size, BlockOf, Supplied, Rest, Dropped;
      if kind == 0 && tls[t] != [] {
        var b := PopCached(t);
        ptr := Some(b);
      } else {
        ptr, lost, list := FromBucket(t, kind, i, base, registered);
      }
    }

    method FromBucket(t: nat, kind: nat, i: nat, base: Option<nat>, registered: bool)
      returns (ptr: Option<nat>, ghost lost: seq<Node>, ghost list: seq<Node>)
      requires Valid() && t < |tls| && kind < KINDS && i < BUCKETS && |idle| == |spare| == BUCKETS * KINDS
      requires kind == 0 ==> tls[t] == []
      requires base.Some? ==> FreshMemory(regions, base.value, RegionSize(kind))
      modifies this
      ensures Valid() && |tls| == |old(tls)| && |regions| >= |old(regions)| && regions[..|old(regions)|] == old(regions)
      ensures ptr == None ==> used == old(used) && lost == []
      ensures ptr.Some? ==> used == old(used) + [Node(ptr.value, Size(kind))] && BlockOf(regions, Node(ptr.value, Size(kind)), kind)
      ensures forall p: nat ::
        Owned(p) + Covers(lost, p) == old(Owned(p)) + Bit(|regions| > |old(regions)| && Contains(regions[|old(regions)|], p))
      ensures old(Supply(idle, spare, Slot(kind, i))) != [] || (base.Some? && registered && |old(regions)| < MAX_REGIONS) ==> ptr.Some?
      ensures lost != [] <==> ptr.Some? && LosesBlocks(kind, [], old(Supply(idle, spare, Slot(kind, i))))
      ensures lost != [] ==> lost == Dropped(Rest(old(Supply(idle, spare, Slot(kind, i))), kind))
      ensures ptr.Some? ==>
        && list != [] && (kind == 0 ==> tls[t] + idle[i] + lost == Rest(list, 0))
        && (kind == 0 && Rest(list, 0) != [] && Rest(list, 0)[0].len > Size(0) ==> tls[t] == [])
        && idle == old(idle)[Slot(kind, i) := idle[Slot(kind, i)]]
        && (if old(idle)[Slot(kind, i)] != [] then list == old(idle)[Slot(kind, i)] && regions == old(regions) && spare == old(spare)
            else Supplied(old(regions), old(spare), regions, spare, kind, i, base, list))
    {
      lost, list := [], [];
      SlotIs(kind, i);
      hide PoolOk, Owners, RegionsOk, FreshMemory, Contains, RegionSize, Size, BlockOf, Supplied, Slot, Rest, Dropped;
      if idle[Slot(kind, i)] == [] {
        var ok := Refill(kind, i, base, registered);
        if !ok { return None, [], []; }
        SuppliedList(old(regions), old(spare), regions, spare, kind, i, base, idle[Slot(kind, i)]);
      }
      list := idle[Slot(kind, i)];
      if kind == 0 && |list| == 1 { OneNodeLosesNone(list); }
      var b;
      b, lost := TakeAndCache(t, kind, i);
      ptr := Some(b);
    }

    method TakeAndCache(t: nat, kind: nat, i: nat) returns (ptr: nat, ghost lost: seq<Node>)
      requires Valid() && t < |tls| && kind < KINDS && i < BUCKETS && |idle| == BUCKETS * KINDS
      requires idle[Slot(kind, i)] != [] && (kind == 0 ==> tls[t] == [])
      modifies `idle, `tls, `tlsNum, `used
      ensures Valid() && |tls| == |old(tls)| && |idle| == BUCKETS * KINDS
      ensures used == old(used) + [Node(ptr, Size(kind))] && BlockOf(regions, Node(ptr, Size(kind)), kind)
      ensures forall p: nat :: Owned(p) + Covers(lost, p) == old(Owned(p))
      ensures lost == if kind == 0 then Dropped(Rest(old(idle)[Slot(kind, i)], 0)) else []
      ensures kind == 0 ==> tls[t] + idle[i] + lost == Rest(old(idle)[Slot(kind, i)], 0)
      ensures kind == 0 && Rest(old(idle)[Slot(kind, i)], 0) != [] && Rest(old(idle)[Slot(kind, i)], 0)[0].len > Size(0) ==> tls[t] == []
      ensures idle == old(idle)[Slot(kind, i) := idle[Slot(kind, i)]]
    {
      lost := [];
      SlotIs(kind, i);
      hide PoolOk, Owners, RegionsOk, Size, BlockOf, Rest, Dropped;
      ptr := TakeFirst(kind, i);
      if kind == 0 {
        lost := CacheMore(t, i);
      }
    }

    /** BlockAllocate: the smallest kind that fits, and nothing for no bytes or
        for more than 2 MB. */
    method Allocate(t: nat, len: nat, i: nat, base: Option<nat>, registered: bool)
      returns (ptr: Option<nat>, ghost lost: seq<Node>, ghost kind: nat)
      requires Valid() && t < |tls| && i < BUCKETS
      requires base.Some? ==> forall k: nat :: k < KINDS ==> FreshMemory(regions, base.value, RegionSize(k))
      modifies this
      ensures Valid() && |tls| == |old(tls)|
      ensures len == 0 || len > Size(KINDS - 1) ==> ptr == None
      ensures ptr == None ==> used == old(used) && lost == []
      ensures ptr.Some? ==>
        && used == old(used) + [Node(ptr.value, Size(kind))] && BlockOf(regions, Node(ptr.value, Size(kind)), kind)
        && len <= Size(kind) && (kind > 0 ==> Size(kind - 1) < len)
      ensures |regions| >= |old(regions)| && forall p: nat ::
        Owned(p) + Covers(lost, p) == old(Owned(p)) + Bit(|regions| > |old(regions)| && Contains(regions[|old(regions)|], p))
    {
      lost, kind := [], 0;
      Sizes();
      if len == 0 || len > Size(KINDS - 1) { return None, [], 0; }
      var k := 0;
      while k < KINDS && len > Size(k)
        invariant k < KINDS && (k > 0 ==> Size(k - 1) < len)
        decreases KINDS - k
      {
        k := k + 1;
      }
      hide Size, RegionSize, BlockOf, PoolOk, Owners;
      kind := k;
      ghost var list;
      ptr, lost, list := AllocateKind(t, k, i, base, registered);
    }

    /** GetRegion: the region an address lies in. */
    method FindRegion(p: nat) returns (found: Option<nat>)
      ensures found.Some? ==> found.value < |regions| && Contains(regions[found.value], p)
      ensures found == None ==> forall j :: 0 <= j < |regions| ==> !Contains(regions[j], p)
    {
      var j := 0;
      while j < |regions|
        invariant j <= |regions| && forall q :: 0 <= q < j ==> !Contains(regions[q], p)
      {
        if Contains(regions[j], p) { return Some(j); }
        j := j + 1;
      }
      found := None;
    }

    /** The bucket of an address, from its place in the region. */
    function Bucket(p: nat, j: nat): (i: nat)
      requires j < |regions| && Contains(regions[j], p)
      reads this
      ensures i < BUCKETS
    {
      BucketBound(p - regions[j].start, regions[j].size);
      (p - regions[j].start) * BUCKETS / regions[j].size
    }

    /** The block in use that begins at ptr is of the kind of its region. */
    lemma UsedKind(h: nat, j: nat)
      requires Valid() && h < |used| && j < |regions| && Contains(regions[j], used[h].start)
      ensures BlockOf(regions, used[h], regions[j].kind)
    {
      assert SomeBlock(regions, used[h]);
      var kind: nat :| BlockOf(regions, used[h], kind);
      var q: nat :| NodeIn(regions, used[h], q) && regions[q].kind == kind;
      OneRegion(regions, q, j, used[h].start);
    }

    /** BlockDeallocate: back to the thread's cache, or to the bucket of the
        block together with half of a full cache. An address outside all
        regions is refused. */
    method Deallocate(t: nat, ptr: nat, ghost h: nat)
      requires Valid() && t < |tls|
      requires (exists j :: 0 <= j < |regions| && Contains(regions[j], ptr)) ==> h < |used| && used[h].start == ptr
      modifies `idle, `tls, `tlsNum, `used
      ensures Valid() && |tls| == |old(tls)| && forall p: nat :: Owned(p) == old(Owned(p))
      ensures if exists j :: 0 <= j < |regions| && Contains(regions[j], ptr)
        then used == old(used)[..h] + old(used)[h + 1..]
        else used == old(used) && idle == old(idle) && tls == old(tls)
    {
      Sizes();
      var found := FindRegion(ptr);
      if found == None { return; }
      var j := found.value;
      UsedKind(h, j);
      var kind, i := regions[j].kind, Bucket(ptr, j);
      var node := Node(ptr, Size(kind));
      assert node == used[h];
      if kind == 0 && tlsNum[t] < TLS_CACHE_NUM {
        Cache(t, node, h);
      } else if kind == 0 {
        Flush(t, i, node, h);
      } else {
        GiveBack(kind, i, node, h);
      }
    }

    method Cache(t: nat, node: Node, ghost h: nat)
      requires Valid() && t < |tls| && h < |used| && used[h] == node && BlockOf(regions, node, 0)
      modifies `tls, `tlsNum, `used
      ensures Valid() && |tls| == |old(tls)| && forall p: nat :: Owned(p) == old(Owned(p))
      ensures used == old(used)[..h] + old(used)[h + 1..]
    {
      hide NodeOk, Covers, AllCover, RegionsOk, Over, Size;
      ghost var tls0, used0 := tls, used;
      FrontOk(regions, node, tls[t], 0);
      UseLess(regions, used, h);
      tls, tlsNum, used := tls[t := [node] + tls[t]], tlsNum[t := tlsNum[t] + 1], used[..h] + used[h + 1..];
      forall p: nat ensures Owned(p) == old(Owned(p)) {
        AllCoverUpdate(tls0, t, [node] + tls0[t], p);
        CoversFront(node, tls0[t], p);
        CoversRemove(used0, h, p);
      }
    }

    method Flush(t: nat, i: nat, node: Node, ghost h: nat)
      requires Valid() && t < |tls| && tlsNum[t] >= TLS_CACHE_NUM && i < BUCKETS && |idle| == BUCKETS * KINDS
      requires h < |used| && used[h] == node && BlockOf(regions, node, 0)
      modifies `idle, `tls, `tlsNum, `used
      ensures Valid() && |tls| == |old(tls)| && forall p: nat :: Owned(p) == old(Owned(p))
      ensures used == old(used)[..h] + old(used)[h + 1..]
    {
      hide NodeOk, Covers, AllCover, RegionsOk, Over, Size;
      SlotIs(0, i);
      var half := TLS_CACHE_NUM / 2;
      var first, rest, list := tls[t][..half], tls[t][half..], idle[i];
      ghost var idle0, tls0, used0 := idle, tls, used;
      assert CacheOk(regions, tls[t]) && ListOk(regions, list, 0);
      CutOk(regions, tls[t], 0, half);
      FrontOk(regions, node, list, 0);
      JoinOk(regions, first, [node] + list, 0);
      SetList(regions, idle, i, first + ([node] + list));
      UseLess(regions, used, h);
      assert tls0[t] == first + rest;
      idle, tls, tlsNum := idle[i := first + ([node] + list)], tls[t := rest], tlsNum[t := tlsNum[t] - half];
      used := used[..h] + used[h + 1..];
      forall p: nat ensures Owned(p) == old(Owned(p)) {
        AllCoverUpdate(idle0, i, first + ([node] + list), p);
        AllCoverUpdate(tls0, t, rest, p);
        CoversConcat(first, [node] + list, p);
        CoversConcat(first, rest, p);
        CoversFront(node, list, p);
        CoversRemove(used0, h, p);
      }
    }

    method GiveBack(kind: nat, i: nat, node: Node, ghost h: nat)
      requires Valid() && 0 < kind < KINDS && i < BUCKETS && |idle| == BUCKETS * KINDS
      requires h < |used| && used[h] == node && BlockOf(regions, node, kind)
      modifies `idle, `used
      ensures Valid() && forall p: nat :: Owned(p) == old(Owned(p))
      ensures used == old(used)[..h] + old(used)[h + 1..]
    {
      hide NodeOk, Covers, AllCover, RegionsOk, Over, Size;
      SlotIs(kind, i);
      var k := Slot(kind, i);
      ghost var idle0, used0 := idle, used;
      FrontOk(regions, node, idle[k], kind);
      SetList(regions, idle, k, [node] + idle[k]);
      UseLess(regions, used, h);
      idle, used := idle[k := [node] + idle[k]], used[..h] + used[h + 1..];
      forall p: nat ensures Owned(p) == old(Owned(p)) {
        AllCoverUpdate(idle0, k, [node] + idle0[k], p);
        CoversFront(node, idle0[k], p);
        CoversRemove(used0, h, p);
      }
    }

    /** RecycleAll, at the exit of thread t: its cache goes back to the
        buckets. */
    method RecycleAll(t: nat)
      requires Valid() && t < |tls|
      modifies `idle, `tls, `tlsNum
      ensures Valid() && |tls| == |old(tls)| && tls[t] == [] && forall p: nat :: Owned(p) == old(Owned(p))
    {
      Sizes();
      hide PoolOk, Owners;
      while tls[t] != []
        invariant Valid() && |idle| == BUCKETS * KINDS && |tls| == |old(tls)| && t < |tls|
        invariant forall p: nat :: Owned(p) == old(Owned(p))
        decreases |tls[t]|
      {
        RecycleOne(t);
      }
    }

    method RecycleOne(t: nat)
      requires Valid() && t < |tls| && tls[t] != [] && |idle| == BUCKETS * KINDS
      modifies `idle, `tls, `tlsNum
      ensures Valid() && |idle| == BUCKETS * KINDS && tls == old(tls)[t := old(tls)[t][1..]]
      ensures forall p: nat :: Owned(p) == old(Owned(p))
    {
      var node, rest := tls[t][0], tls[t][1..];
      assert CacheOk(regions, tls[t]) && NodeOk(regions, node, 0);
      CutOk(regions, tls[t], 0, 1);
      var found := FindRegion(node.start);
      assert found.Some?;
      var i := Bucket(node.start, found.value);
      hide NodeOk, Covers, AllCover, RegionsOk, Over, Size;
      SlotIs(0, i);
      ghost var idle0, tls0 := idle, tls;
      FrontOk(regions, node, idle[i], 0);
      SetList(regions, idle, i, [node] + idle[i]);
      assert tls0[t] == [node] + rest;
      idle, tls, tlsNum := idle[i := [node] + idle[i]], tls[t := rest], tlsNum[t := tlsNum[t] - 1];
      forall p: nat ensures Owned(p) == old(Owned(p)) {
        AllCoverUpdate(idle0, i, [node] + idle0[i], p);
        AllCoverUpdate(tls0, t, rest, p);
        CoversFront(node, idle0[i], p);
        CoversFront(node, rest, p);
      }
    }

    /** A block in use is nowhere on a list or in a cache. */
    lemma UsedIsNotListed(x: nat, p: nat)
      requires Valid() && x < |used| && Over(used[x], p)
      ensures AllCover(idle, p) == AllCover(spare, p) == AllCover(tls, p) == 0
    {
      hide PoolOk;
      CoversAt(used, x, p);
      assert Owned(p) <= 1;
    }

    /** It begins on a page and is one block of a region of its kind. */
    lemma UsedIsAligned(x: nat)
      requires Valid() && x < |used|
      ensures used[x].start % 4096 == 0
      ensures exists j: nat :: NodeIn(regions, used[x], j) && used[x].len == Size(regions[j].kind)
    {
      hide Owners, Size;
      assert SomeBlock(regions, used[x]);
      var kind: nat :| BlockOf(regions, used[x], kind);
      var j: nat :| NodeIn(regions, used[x], j) && regions[j].kind == kind;
      var off := used[x].start - regions[j].start;
      PageAligned(off, kind);
      ModSum(off, regions[j].start, 4096);
    }

    /** Blocks in use never overlap. */
    lemma BlocksInUseAreApart(x: nat, y: nat)
      requires Valid() && x < y < |used|
      ensures used[x].start + used[x].len <= used[y].start || used[y].start + used[y].len <= used[x].start
    {
      var p := if used[x].start < used[y].start then used[y].start else used[x].start;
      CoversAt(used, x, p);
      assert SomeBlock(regions, used[x]) && SomeBlock(regions, used[y]);
      assert Owned(p) <= 1;
      assert Bit(Over(used[x], p)) + Bit(Over(used[y], p)) <= Covers(used, p);
    }
  }

  lemma PageAligned(x: nat, kind: nat)
    requires x % Size(kind) == 0
    ensures x % 4096 == 0
  {
    var q := x / Size(kind);
    assert x == q * Size(kind);
    var c := Size(kind) / 4096;
    assert Size(kind) == c * 4096;
    assert x == (q * c) * 4096;
    Multiple(q * c, 4096);
  }

  lemma BucketBound(x: nat, size: nat)
    requires x < size
    ensures x * BUCKETS / size < BUCKETS
  {
    var q := x * BUCKETS / size;
    assert x * BUCKETS == q * size + x * BUCKETS % size;
    assert q >= BUCKETS ==> q * size >= BUCKETS * size;
  }

  lemma PartsInFront(spare: seq<seq<Node>>, r: Region, i: nat)
    requires |spare| == BUCKETS * KINDS && r.kind < KINDS && i < BUCKETS
    ensures WithParts(spare, r)[Slot(r.kind, i)] == [Part(r, i)] + spare[Slot(r.kind, i)]
  {
  }

  lemma {:induction false} NothingCovered(lists: seq<seq<Node>>, p: nat)
    requires forall k :: 0 <= k < |lists| ==> lists[k] == []
    ensures AllCover(lists, p) == 0
  {
    if lists != [] {
      assert lists[0] == [];
      NothingCovered(lists[1..], p);
    }
  }

  lemma SuppliedList(regions: seq<Region>, spare: seq<seq<Node>>, regions': seq<Region>, spare': seq<seq<Node>>,
                     kind: nat, i: nat, base: Option<nat>, list: seq<Node>)
    requires kind < KINDS && i < BUCKETS && |spare| == BUCKETS * KINDS
    requires Supplied(regions, spare, regions', spare', kind, i, base, list)
    ensures if spare[Slot(kind, i)] != [] then list == spare[Slot(kind, i)] else |list| == 1
  {
  }

  lemma OneNodeLosesNone(list: seq<Node>)
    requires |list| == 1
    ensures Dropped(Rest(list, 0)) == []
  {
  }

  /** What is left for a thread that uses one bucket. */
  function Left(cache: seq<Node>, list: seq<Node>): nat {
    |cache| + if list == [] then 0 else list[0].len
  }

  const FIRST := Region(0x4000_0000, 0x4000_0000, 0)
  const SECOND := Region(0x8000_0000, 0x4000_0000, 0)

  /** One thread has used bucket 1 only, while there is one region, and when the
      second one has just come. */
  ghost predicate OneBucket(regions: seq<Region>, idle: seq<seq<Node>>, spare: seq<seq<Node>>, cache: seq<Node>) {
    && |idle| == |spare| == BUCKETS * KINDS && idle[0] == [] && (idle[1] == [] || spare[1] == [])
    && (if |regions| == 1
        then regions == [FIRST] && spare[0] == [Part(FIRST, 0)]
             && (var list := Supply(idle, spare, 1); list == [] || (|list| == 1 && list[0].len > 0))
        else regions == [FIRST, SECOND] && spare[0] == [Part(SECOND, 0), Part(FIRST, 0)] && cache == [])
  }

  ghost predicate OnlyBucketOne(pool: Pool)
    reads pool
  {
    pool.Valid() && |pool.tls| == 1 && OneBucket(pool.regions, pool.idle, pool.spare, pool.tls[0])
  }

  /** A block from the only node of bucket 1. */
  lemma UseNode(idle: seq<seq<Node>>, spare: seq<seq<Node>>, idle': seq<seq<Node>>, spare': seq<seq<Node>>, cache': seq<Node>)
    requires OneBucket([FIRST], idle, spare, []) && Supply(idle, spare, 1) != []
    requires |idle'| == |idle| && idle' == idle[1 := idle'[1]] && spare' == spare[1 := []]
    requires cache' + idle'[1] == Rest(Supply(idle, spare, 1), 0)
    ensures OneBucket([FIRST], idle', spare', cache')
    ensures Left(cache', Supply(idle', spare', 1)) < Left([], Supply(idle, spare, 1))
  {
    var list := Supply(idle, spare, 1);
    assert |cache'| + |idle'[1]| <= 1;
    assert cache' == [] ==> idle'[1] == Rest(list, 0);
    assert idle'[0] == idle[0];
  }

  /** Bucket 1 is drained. */
  lemma UseRegion(idle: seq<seq<Node>>, spare: seq<seq<Node>>, idle': seq<seq<Node>>, spare': seq<seq<Node>>)
    requires OneBucket([FIRST], idle, spare, []) && Supply(idle, spare, 1) == []
    requires |idle'| == |idle| && idle' == idle[1 := idle'[1]] && spare' == WithParts(spare, SECOND)[1 := []]
    ensures OneBucket([FIRST, SECOND], idle', spare', [])
  {
    PartsInFront(spare, SECOND, 0);
    assert idle'[0] == idle[0];
  }

  lemma SecondIsFresh(kind: nat)
    requires kind < KINDS
    ensures FreshMemory([FIRST], 0x8000_0000, RegionSize(kind))
  {
    RegionSizeOk(kind);
  }

  /** One thread allocates from bucket 1 until it is drained and a second region
      is added. The first allocation from bucket 0 then loses a quarter of the
      first region. */
  method LosingRun() returns (ghost lost: seq<Node>)
    ensures lost == [Node(0x4000_0000, 0x1000_0000)]
  {
    hide Pool.Valid;
    var pool := Started();
    while |pool.regions| == 1
      invariant fresh(pool) && OnlyBucketOne(pool)
      decreases 2 - |pool.regions|, Left(pool.tls[0], Supply(pool.idle, pool.spare, 1))
    {
      UseBucketOne(pool);
    }
    ghost var list;
    var ptr: Option<nat>;
    ptr, lost, list := pool.AllocateKind(0, 0, 0, None, true);
    LosesFirst();
  }

  lemma LosesFirst()
    ensures var list := [Part(SECOND, 0), Part(FIRST, 0)];
      LosesBlocks(0, [], list) && Dropped(Rest(list, 0)) == [Node(0x4000_0000, 0x1000_0000)]
  {
    var list := [Part(SECOND, 0), Part(FIRST, 0)];
    assert Rest(list, 0)[1..] == [Part(FIRST, 0)];
  }

  /** InitBlockPool. */
  method Started() returns (pool: Pool)
    ensures fresh(pool) && OnlyBucketOne(pool) && |pool.regions| == 1
  {
    pool := new Pool(1);
    RegionSizeOk(0);
    var ok := pool.Extend(0, Some(0x4000_0000), true);
    pool.Sizes();
    hide Pool.Valid, RegionSize;
    assert pool.spare[0] == [Part(FIRST, 0)] && pool.spare[1] == [Part(FIRST, 1)];
  }

  method UseBucketOne(pool: Pool)
    requires OnlyBucketOne(pool) && |pool.regions| == 1
    modifies pool
    ensures OnlyBucketOne(pool)
    ensures |pool.regions| == 1 ==>
      Left(pool.tls[0], Supply(pool.idle, pool.spare, 1)) < old(Left(pool.tls[0], Supply(pool.idle, pool.spare, 1)))
  {
    SecondIsFresh(0);
    RegionSizeOk(0);
    hide PoolOk, Owners, FreshMemory, RegionSize, LosesBlocks, Part, WithParts, Left;
    ghost var cache, idle, spare := pool.tls[0], pool.idle, pool.spare;
    ghost var lost, list;
    var ptr: Option<nat>;
    if Supply(idle, spare, 1) != [] { OneNodeLosesNone(Supply(idle, spare, 1)); }
    ptr, lost, list := pool.AllocateKind(0, 0, 1, Some(0x8000_0000), true);
    AfterUse(idle, spare, cache, pool.regions, pool.idle, pool.spare, pool.tls[0], list, lost);
  }

  /** What one allocation from bucket 1 leaves. */
  lemma AfterUse(idle: seq<seq<Node>>, spare: seq<seq<Node>>, cache: seq<Node>, regions': seq<Region>,
                 idle': seq<seq<Node>>, spare': seq<seq<Node>>, cache': seq<Node>, list: seq<Node>, lost: seq<Node>)
    requires OneBucket([FIRST], idle, spare, cache)
    requires cache != [] ==> regions' == [FIRST] && idle' == idle && spare' == spare && cache' == cache[1..]
    requires cache == [] ==>
      && list != [] && |idle'| == |idle| && cache' + idle'[1] + lost == Rest(list, 0) && idle' == idle[1 := idle'[1]]
      && (Rest(list, 0) != [] && Rest(list, 0)[0].len > Size(0) ==> cache' == [])
      && (if idle[1] != [] then list == idle[1] && regions' == [FIRST] && spare' == spare
          else Supplied([FIRST], spare, regions', spare', 0, 1, Some(0x8000_0000), list))
    requires lost != [] ==> Supply(idle, spare, 1) != [] && lost == Dropped(Rest(Supply(idle, spare, 1), 0))
    ensures OneBucket(regions', idle', spare', cache')
    ensures |regions'| == 1 ==> Left(cache', Supply(idle', spare', 1)) < Left(cache, Supply(idle, spare, 1))
  {
    RegionSizeOk(0);
    if cache == [] {
      hide RegionSize;
      if Supply(idle, spare, 1) != [] {
        OneNodeLosesNone(Supply(idle, spare, 1));
        assert spare[1 := []] == spare' && cache' + idle'[1] + [] == cache' + idle'[1];
        UseNode(idle, spare, idle', spare', cache');
      } else {
        UseRegion(idle, spare, idle', spare');
        assert Rest([Part(SECOND, 1)], 0)[0].len > Size(0);
      }
    }
  }
}
