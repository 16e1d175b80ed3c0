/** ListOfABAFreeId: ids are added where an empty or dead one stood, by
    splitting and scattering a crowded block, or after a garbage collection. */
module IdList {
  import opened Basics

  const BLOCK_SIZE: nat := 63
  const MAX_ENTRIES: nat := 100000
  const INIT_GC_SIZE: nat := 4096

  /** The value of an unused position. */
  const ID_INIT: nat := 0

  /** Occurrences of x in a block, and in a chain of blocks. */
  function In(block: seq<nat>, x: nat): nat {
    if block == [] then 0 else Bit(block[0] == x) + In(block[1..], x)
  }

  function Occ(blocks: seq<seq<nat>>, x: nat): nat {
    if blocks == [] then 0 else In(blocks[0], x) + Occ(blocks[1..], x)
  }

  ghost predicate Shaped(blocks: seq<seq<nat>>) {
    forall b :: 0 <= b < |blocks| ==> |blocks[b]| == BLOCK_SIZE
  }

  /** A position: a block and an index in it. */
  datatype Pos = Pos(b: nat, i: nat)

  predicate Inside(blocks: seq<seq<nat>>, p: Pos) {
    p.b < |blocks| && p.i < |blocks[p.b]|
  }

  function Get(blocks: seq<seq<nat>>, p: Pos): nat
    requires Inside(blocks, p)
  {
    blocks[p.b][p.i]
  }

  function Set(blocks: seq<seq<nat>>, p: Pos, v: nat): (r: seq<seq<nat>>)
    requires Inside(blocks, p)
    ensures |r| == |blocks| && forall b :: 0 <= b < |r| ==> |r[b]| == |blocks[b]|
  {
    var block: seq<nat> := blocks[p.b][p.i := v];
    blocks[p.b := block]
  }

  // ---- Counting ------------------------------------------------------------------

  lemma {:induction false} InConcat(x: seq<nat>, y: seq<nat>, v: nat)
    ensures In(x + y, v) == In(x, v) + In(y, v)
  {
    if x == [] {
      assert x + y == y;
    } else {
      assert (x + y)[1..] == x[1..] + y;
      InConcat(x[1..], y, v);
    }
  }

  lemma InSet(block: seq<nat>, i: nat, v: nat, x: nat)
    requires i < |block|
    ensures In(block[i := v], x) + Bit(block[i] == x) == In(block, x) + Bit(v == x)
  {
    assert block == block[..i] + ([block[i]] + block[i + 1..]);
    assert block[i := v] == block[..i] + ([v] + block[i + 1..]);
    InConcat(block[..i], [block[i]] + block[i + 1..], x);
    InConcat(block[..i], [v] + block[i + 1..], x);
    assert ([v] + block[i + 1..])[1..] == block[i + 1..] == ([block[i]] + block[i + 1..])[1..];
  }

  lemma {:induction false} OccConcat(x: seq<seq<nat>>, y: seq<seq<nat>>, v: nat)
    ensures Occ(x + y, v) == Occ(x, v) + Occ(y, v)
  {
    hide In;
    if x == [] {
      assert x + y == y;
    } else {
      assert (x + y)[1..] == x[1..] + y;
      OccConcat(x[1..], y, v);
    }
  }

  lemma OccAt(blocks: seq<seq<nat>>, b: nat, block: seq<nat>, x: nat)
    requires b < |blocks|
    ensures Occ(blocks, x) == Occ(blocks[..b], x) + (In(blocks[b], x) + Occ(blocks[b + 1..], x))
    ensures Occ(blocks[b := block], x) == Occ(blocks[..b], x) + (In(block, x) + Occ(blocks[b + 1..], x))
  {
    hide In;
    assert blocks == blocks[..b] + ([blocks[b]] + blocks[b + 1..]);
    assert blocks[b := block] == blocks[..b] + ([block] + blocks[b + 1..]);
    OccConcat(blocks[..b], [blocks[b]] + blocks[b + 1..], x);
    OccConcat(blocks[..b], [block] + blocks[b + 1..], x);
    assert ([block] + blocks[b + 1..])[1..] == blocks[b + 1..] == ([blocks[b]] + blocks[b + 1..])[1..];
  }

  /** Writing one position moves the counts of the old and the new value. */
  lemma OccSet(blocks: seq<seq<nat>>, p: Pos, v: nat)
    requires Inside(blocks, p)
    ensures forall x :: Occ(Set(blocks, p, v), x) + Bit(Get(blocks, p) == x) == Occ(blocks, x) + Bit(v == x)
  {
    hide In, Occ;
    forall x ensures Occ(Set(blocks, p, v), x) + Bit(Get(blocks, p) == x) == Occ(blocks, x) + Bit(v == x) {
      OccAt(blocks, p.b, blocks[p.b][p.i := v], x);
      InSet(blocks[p.b], p.i, v, x);
    }
  }

  // ---- Splitting a block -----------------------------------------------------------

  function Empties(n: nat): (r: seq<nat>)
    ensures |r| == n && forall i :: 0 <= i < n ==> r[i] == ID_INIT
  {
    seq(n, _ => ID_INIT)
  }

  lemma {:induction false} NoneInEmpties(n: nat, x: nat)
    requires x != ID_INIT
    ensures In(Empties(n), x) == 0
  {
    if n > 0 {
      assert Empties(n)[1..] == Empties(n - 1);
      NoneInEmpties(n - 1, x);
    }
  }

  /** Everything from the cursor on moves to a new block behind the current
      one, at the same index. */
  function Split(blocks: seq<seq<nat>>, p: Pos): (r: seq<seq<nat>>)
    requires Shaped(blocks) && Inside(blocks, p)
    ensures Shaped(r) && |r| == |blocks| + 1
  {
    var block := blocks[p.b];
    var here := block[..p.i] + Empties(BLOCK_SIZE - p.i);
    var there := Empties(p.i) + block[p.i..];
    blocks[..p.b] + ([here, there] + blocks[p.b + 1..])
  }

  lemma OccSplit(blocks: seq<seq<nat>>, p: Pos, x: nat)
    requires Shaped(blocks) && Inside(blocks, p) && x != ID_INIT
    ensures Occ(Split(blocks, p), x) == Occ(blocks, x)
  {
    var block := blocks[p.b];
    var here, there := block[..p.i] + Empties(BLOCK_SIZE - p.i), Empties(p.i) + block[p.i..];
    assert block == block[..p.i] + block[p.i..];
    InConcat(block[..p.i], block[p.i..], x);
    InConcat(block[..p.i], Empties(BLOCK_SIZE - p.i), x);
    InConcat(Empties(p.i), block[p.i..], x);
    NoneInEmpties(p.i, x);
    NoneInEmpties(BLOCK_SIZE - p.i, x);
    hide In;
    OccAt(blocks, p.b, [], x);
    var rest := blocks[p.b + 1..];
    OccConcat(blocks[..p.b], [here, there] + rest, x);
    assert ([here, there] + rest)[1..] == [there] + rest && ([there] + rest)[1..] == rest;
  }

  // ---- The cursor ------------------------------------------------------------------

  /** forward_index in a chain of n blocks. */
  function Forward(p: Pos, n: nat): (r: Pos)
    requires p.b < n && p.i < BLOCK_SIZE
    ensures r.b < n && r.i < BLOCK_SIZE
  {
    if p.i + 1 < BLOCK_SIZE then Pos(p.b, p.i + 1)
    else if p.b + 1 < n then Pos(p.b + 1, 0)
    else Pos(0, 0)
  }

  function Linear(p: Pos): nat {
    BLOCK_SIZE * p.b + p.i
  }

  predicate Within(p: Pos, n: nat) {
    p.b < n && p.i < BLOCK_SIZE
  }

  lemma ForwardLinear(p: Pos, n: nat)
    requires Within(p, n)
    ensures Linear(Forward(p, n)) == if Linear(p) + 1 < BLOCK_SIZE * n then Linear(p) + 1 else 0
    ensures Linear(p) < BLOCK_SIZE * n
  {
  }

  lemma SameLinear(p: Pos, q: Pos)
    requires p.i < BLOCK_SIZE && q.i < BLOCK_SIZE
    ensures Linear(p) == Linear(q) <==> p == q
    ensures p.b < q.b ==> Linear(p) < Linear(q)
  {
  }

  /** Where a position's memory is after a block was put behind block b. */
  function Moved(p: Pos, b: nat): Pos {
    if p.b > b then Pos(p.b + 1, p.i) else p
  }

  /** The four positions scanned before the cursor, across wrap-around. */
  datatype Scan = Scan(p0: Pos, p1: Pos, p2: Pos, p3: Pos, cur: Pos)

  function ScanFrom(c: Pos, n: nat): Scan
    requires Within(c, n)
  {
    var p1 := Forward(c, n);
    var p2 := Forward(p1, n);
    var p3 := Forward(p2, n);
    Scan(c, p1, p2, p3, Forward(p3, n))
  }

  /** A scanned position stays clear of the four positions that begin at the
      cursor after the split. */
  lemma Clear(p: Pos, cur: Pos, n: nat, k: nat)
    requires Within(p, n) && Within(cur, n) && 1 <= k <= 4
    requires Linear(cur) == if Linear(p) + k < BLOCK_SIZE * n then Linear(p) + k else Linear(p) + k - BLOCK_SIZE * n
    ensures var q := Moved(p, cur.b);
      Within(q, n + 1) && (Linear(q) < Linear(cur) || Linear(q) > Linear(cur) + 3)
  {
    if p.b > cur.b {
      SameLinear(cur, p);
    }
  }

  lemma Steps(c: Pos, n: nat)
    requires Within(c, n)
    ensures var s := ScanFrom(c, n); var N := BLOCK_SIZE * n; var l := Linear(c);
      && Linear(s.p1) == (if l + 1 < N then l + 1 else l + 1 - N)
      && Linear(s.p2) == (if l + 2 < N then l + 2 else l + 2 - N)
      && Linear(s.p3) == (if l + 3 < N then l + 3 else l + 3 - N)
      && Linear(s.cur) == (if l + 4 < N then l + 4 else l + 4 - N)
      && l < N
  {
    var s := ScanFrom(c, n);
    ForwardLinear(c, n);
    ForwardLinear(s.p1, n);
    ForwardLinear(s.p2, n);
    ForwardLinear(s.p3, n);
  }

  lemma MovedApart(p: Pos, q: Pos, b: nat)
    requires p != q
    ensures Moved(p, b) != Moved(q, b)
  {
  }

  /** The positions written by the scatter are different ones. */
  ghost predicate Apart(s: Scan, n: nat, c2: Pos, c3: Pos) {
    var q1, q2, q3 := Moved(s.p1, s.cur.b), Moved(s.p2, s.cur.b), Moved(s.p3, s.cur.b);
    && Within(q1, n + 1) && Within(q2, n + 1) && Within(q3, n + 1) && Within(s.cur, n + 1)
    && Within(c2, n + 1) && Within(c3, n + 1)
    && q1 != q2 && q1 != q3 && q2 != q3
    && q1 != s.cur && q1 != c2 && q1 != c3
    && q2 != s.cur && q2 != c2 && q2 != c3
    && q3 != s.cur && q3 != c2 && q3 != c3
    && s.cur != c2 && s.cur != c3 && c2 != c3
  }

  lemma CursorApart(cur: Pos, n: nat)
    requires Within(cur, n)
    ensures var c2 := Forward(Forward(cur, n + 1), n + 1);
      && Linear(c2) == Linear(cur) + 2 && Linear(Forward(c2, n + 1)) == Linear(cur) + 3
      && Within(c2, n + 1) && Within(cur, n + 1)
  {
    var c1 := Forward(cur, n + 1);
    ForwardLinear(cur, n);
    ForwardLinear(cur, n + 1);
    ForwardLinear(c1, n + 1);
    ForwardLinear(Forward(c1, n + 1), n + 1);
  }

  lemma ScannedApart(c: Pos, n: nat)
    requires Within(c, n)
    ensures var s := ScanFrom(c, n); s.p1 != s.p2 && s.p1 != s.p3 && s.p2 != s.p3
  {
    Steps(c, n);
  }

  lemma NotNear(q: Pos, cur: Pos, c2: Pos, c3: Pos)
    requires Linear(c2) == Linear(cur) + 2 && Linear(c3) == Linear(cur) + 3
    requires Linear(q) < Linear(cur) || Linear(q) > Linear(cur) + 3
    ensures q != cur && q != c2 && q != c3 && cur != c2 && cur != c3 && c2 != c3
  {
  }

  lemma ScatterApart(c: Pos, n: nat)
    requires Within(c, n)
    ensures var s := ScanFrom(c, n);
      var c2 := Forward(Forward(s.cur, n + 1), n + 1);
      Apart(s, n, c2, Forward(c2, n + 1))
  {
    var s := ScanFrom(c, n);
    Steps(c, n);
    ScannedApart(c, n);
    CursorApart(s.cur, n);
    var c2 := Forward(Forward(s.cur, n + 1), n + 1);
    var c3 := Forward(c2, n + 1);
    Clear(s.p1, s.cur, n, 3);
    Clear(s.p2, s.cur, n, 2);
    Clear(s.p3, s.cur, n, 1);
    hide Forward, ScanFrom, Linear, Moved;
    NotNear(Moved(s.p1, s.cur.b), s.cur, c2, c3);
    NotNear(Moved(s.p2, s.cur.b), s.cur, c2, c3);
    NotNear(Moved(s.p3, s.cur.b), s.cur, c2, c3);
    MovedApart(s.p1, s.p2, s.cur.b);
    MovedApart(s.p1, s.p3, s.cur.b);
    MovedApart(s.p2, s.p3, s.cur.b);
  }

  /** The first four positions from the cursor on are empty after the split. */
  lemma SplitIsEmptyAt(blocks: seq<seq<nat>>, cur: Pos, p: Pos)
    requires Shaped(blocks) && Within(cur, |blocks|) && Within(p, |blocks| + 1)
    requires Linear(cur) <= Linear(p) < Linear(cur) + BLOCK_SIZE
    ensures Inside(Split(blocks, cur), p) && Get(Split(blocks, cur), p) == ID_INIT
  {
    assert p.b == cur.b || p.b == cur.b + 1;
  }

  lemma GetSet(blocks: seq<seq<nat>>, p: Pos, v: nat, q: Pos)
    requires Inside(blocks, p) && Inside(blocks, q)
    ensures Inside(Set(blocks, p, v), q) && Get(Set(blocks, p, v), q) == if q == p then v else Get(blocks, q)
  {
  }

  // ---- Scattering ------------------------------------------------------------------

  /** The writes that spread the conflicting ids, in their order: an empty
      entry behind each of them, and the new id behind the last. */
  function Scatter(blocks: seq<seq<nat>>, q1: Pos, q2: Pos, q3: Pos, cur: Pos, c2: Pos, c3: Pos, id: nat): (r: seq<seq<nat>>)
    requires Inside(blocks, q1) && Inside(blocks, q2) && Inside(blocks, q3)
    requires Inside(blocks, cur) && Inside(blocks, c2) && Inside(blocks, c3)
    ensures |r| == |blocks| && forall b :: 0 <= b < |r| ==> |r[b]| == |blocks[b]|
  {
    var b1 := Set(blocks, cur, Get(blocks, q2));
    var b2 := Set(b1, q2, Get(b1, q1));
    var b3 := Set(b2, q1, ID_INIT);
    var b4 := Set(b3, c2, Get(b3, q3));
    var b5 := Set(b4, q3, ID_INIT);
    Set(b5, c3, id)
  }

  /** One write into a position whose value is known. */
  lemma Write(blocks: seq<seq<nat>>, p: Pos, v: nat, x: nat)
    requires Inside(blocks, p)
    ensures Occ(Set(blocks, p, v), x) + Bit(Get(blocks, p) == x) == Occ(blocks, x) + Bit(v == x)
    ensures forall q :: Inside(blocks, q) ==>
      Inside(Set(blocks, p, v), q) && Get(Set(blocks, p, v), q) == if q == p then v else Get(blocks, q)
  {
    hide Occ;
    OccSet(blocks, p, v);
    forall q | Inside(blocks, q)
      ensures Inside(Set(blocks, p, v), q) && Get(Set(blocks, p, v), q) == if q == p then v else Get(blocks, q) {
      GetSet(blocks, p, v, q);
    }
  }

  lemma ScatterOcc(blocks: seq<seq<nat>>, q1: Pos, q2: Pos, q3: Pos, cur: Pos, c2: Pos, c3: Pos, id: nat, x: nat)
    requires Inside(blocks, q1) && Inside(blocks, q2) && Inside(blocks, q3)
    requires Inside(blocks, cur) && Inside(blocks, c2) && Inside(blocks, c3)
    requires q1 != q2 && q1 != q3 && q2 != q3 && cur != c2 && cur != c3 && c2 != c3
    requires q1 != cur && q1 != c2 && q1 != c3 && q2 != cur && q2 != c2 && q2 != c3 && q3 != cur && q3 != c2 && q3 != c3
    requires Get(blocks, cur) == Get(blocks, c2) == Get(blocks, c3) == ID_INIT && x != ID_INIT
    ensures Occ(Scatter(blocks, q1, q2, q3, cur, c2, c3, id), x) == Occ(blocks, x) + Bit(x == id)
  {
    hide Occ, Set, Get, Inside;
    var b1 := Set(blocks, cur, Get(blocks, q2));
    Write(blocks, cur, Get(blocks, q2), x);
    var b2 := Set(b1, q2, Get(b1, q1));
    Write(b1, q2, Get(b1, q1), x);
    var b3 := Set(b2, q1, ID_INIT);
    Write(b2, q1, ID_INIT, x);
    var b4 := Set(b3, c2, Get(b3, q3));
    Write(b3, c2, Get(b3, q3), x);
    var b5 := Set(b4, q3, ID_INIT);
    Write(b4, q3, ID_INIT, x);
    Write(b5, c3, id, x);
  }

  lemma ShapedInside(blocks: seq<seq<nat>>, p: Pos)
    requires Shaped(blocks) && Within(p, |blocks|)
    ensures Inside(blocks, p)
  {
  }

  /** What add leaves behind when the four positions from c on are all taken. */
  function SplitAndScatter(blocks: seq<seq<nat>>, c: Pos, id: nat): (r: seq<seq<nat>>)
    requires Shaped(blocks) && Within(c, |blocks|)
    ensures Shaped(r) && |r| == |blocks| + 1
  {
    var s, n := ScanFrom(c, |blocks|), |blocks|;
    var c2 := Forward(Forward(s.cur, n + 1), n + 1);
    ScatterApart(c, n);
    Scatter(Split(blocks, s.cur), Moved(s.p1, s.cur.b), Moved(s.p2, s.cur.b), Moved(s.p3, s.cur.b),
            s.cur, c2, Forward(c2, n + 1), id)
  }

  lemma ScanWithin(c: Pos, n: nat)
    requires Within(c, n)
    ensures Within(ScanFrom(c, n).cur, n)
  {
  }

  /** Splitting and scattering adds the new id and loses nothing, wherever the
      cursor is: across blocks, around the chain and around a single block. */
  lemma SplitAddsExactlyOne(blocks: seq<seq<nat>>, c: Pos, id: nat, x: nat)
    requires Shaped(blocks) && Within(c, |blocks|) && x != ID_INIT
    ensures Occ(SplitAndScatter(blocks, c, id), x) == Occ(blocks, x) + Bit(x == id)
  {
    hide Occ, Split, Linear, Get, Scatter, Forward, Moved, ScanFrom, Shaped;
    var s, n := ScanFrom(c, |blocks|), |blocks|;
    ScanWithin(c, n);
    ShapedInside(blocks, s.cur);
    var c2 := Forward(Forward(s.cur, n + 1), n + 1);
    var c3 := Forward(c2, n + 1);
    ScatterApart(c, n);
    CursorApart(s.cur, n);
    SplitIsEmptyAt(blocks, s.cur, s.cur);
    SplitIsEmptyAt(blocks, s.cur, c2);
    SplitIsEmptyAt(blocks, s.cur, c3);
    ShapedInside(Split(blocks, s.cur), Moved(s.p1, s.cur.b));
    ShapedInside(Split(blocks, s.cur), Moved(s.p2, s.cur.b));
    ShapedInside(Split(blocks, s.cur), Moved(s.p3, s.cur.b));
    OccSplit(blocks, s.cur, x);
    ScatterOcc(Split(blocks, s.cur), Moved(s.p1, s.cur.b), Moved(s.p2, s.cur.b), Moved(s.p3, s.cur.b),
               s.cur, c2, c3, id, x);
  }

  // ---- Live ids in order -----------------------------------------------------------

  /** A position is taken if it holds an id that still exists. */
  predicate Taken(alive: nat -> bool, v: nat) {
    v != ID_INIT && alive(v)
  }

  function Filter(ids: seq<nat>, alive: nat -> bool): seq<nat> {
    if ids == [] then []
    else (if Taken(alive, ids[0]) then [ids[0]] else []) + Filter(ids[1..], alive)
  }

  function Flat(blocks: seq<seq<nat>>): seq<nat> {
    if blocks == [] then [] else blocks[0] + Flat(blocks[1..])
  }

  /** The ids the list stands for, in order. */
  function Live(blocks: seq<seq<nat>>, alive: nat -> bool): seq<nat> {
    Filter(Flat(blocks), alive)
  }

  lemma {:induction false} FilterConcat(x: seq<nat>, y: seq<nat>, alive: nat -> bool)
    ensures Filter(x + y, alive) == Filter(x, alive) + Filter(y, alive)
  {
    if x == [] {
      assert x + y == y;
    } else {
      FilterConcat(x[1..], y, alive);
      var head := if Taken(alive, x[0]) then [x[0]] else [];
      assert (x + y)[0] == x[0] && (x + y)[1..] == x[1..] + y;
      assert Filter(x + y, alive) == head + Filter(x[1..] + y, alive);
      assert Filter(x, alive) == head + Filter(x[1..], alive);
      hide Filter, Taken;
      assert head + (Filter(x[1..], alive) + Filter(y, alive)) == (head + Filter(x[1..], alive)) + Filter(y, alive);
    }
  }

  lemma {:induction false} FlatConcat(x: seq<seq<nat>>, y: seq<seq<nat>>)
    ensures Flat(x + y) == Flat(x) + Flat(y)
  {
    if x == [] {
      assert x + y == y;
    } else {
      assert (x + y)[1..] == x[1..] + y;
      FlatConcat(x[1..], y);
    }
  }

  lemma {:induction false} FilterEmpties(n: nat, alive: nat -> bool)
    ensures Filter(Empties(n), alive) == []
  {
    if n > 0 {
      assert Empties(n)[1..] == Empties(n - 1);
      FilterEmpties(n - 1, alive);
    }
  }

  lemma {:induction false} OccIsIn(blocks: seq<seq<nat>>, x: nat)
    ensures Occ(blocks, x) == In(Flat(blocks), x)
  {
    if blocks != [] {
      OccIsIn(blocks[1..], x);
      InConcat(blocks[0], Flat(blocks[1..]), x);
    }
  }

  lemma {:induction false} InFilter(ids: seq<nat>, alive: nat -> bool, x: nat)
    ensures In(Filter(ids, alive), x) == if Taken(alive, x) then In(ids, x) else 0
  {
    if ids != [] {
      InFilter(ids[1..], alive, x);
      InConcat(if Taken(alive, ids[0]) then [ids[0]] else [], Filter(ids[1..], alive), x);
    }
  }

  /** How often an id is stored, from the ids in order. */
  lemma LiveCounts(blocks: seq<seq<nat>>, alive: nat -> bool, x: nat)
    ensures In(Live(blocks, alive), x) == if Taken(alive, x) then Occ(blocks, x) else 0
  {
    OccIsIn(blocks, x);
    InFilter(Flat(blocks), alive, x);
  }

  // ---- Garbage collection ----------------------------------------------------------

  /** Every id followed by an empty position. */
  function Spread(ids: seq<nat>): (r: seq<nat>)
    ensures |r| == 2 * |ids|
  {
    if ids == [] then [] else [ids[0], ID_INIT] + Spread(ids[1..])
  }

  lemma {:induction false} SpreadSnoc(ids: seq<nat>, x: nat)
    ensures Spread(ids + [x]) == Spread(ids) + [x] + [ID_INIT]
  {
    if ids == [] {
      assert (ids + [x])[1..] == [];
    } else {
      assert (ids + [x])[1..] == ids[1..] + [x];
      SpreadSnoc(ids[1..], x);
    }
  }

  lemma {:induction false} FilterSpread(ids: seq<nat>, alive: nat -> bool)
    requires forall k :: 0 <= k < |ids| ==> Taken(alive, ids[k])
    ensures Filter(Spread(ids), alive) == ids
  {
    if ids != [] {
      FilterConcat([ids[0], ID_INIT], Spread(ids[1..]), alive);
      FilterPair(ids[0], alive);
      FilterSpread(ids[1..], alive);
    }
  }

  lemma FilterPair(x: nat, alive: nat -> bool)
    requires Taken(alive, x)
    ensures Filter([x, ID_INIT], alive) == [x]
  {
    assert [x, ID_INIT][1..] == [ID_INIT] && [ID_INIT][1..] == [];
    assert Filter([ID_INIT], alive) == [] + Filter([], alive);
  }

  lemma {:induction false} FilterTaken(ids: seq<nat>, alive: nat -> bool)
    ensures forall k :: 0 <= k < |Filter(ids, alive)| ==> Taken(alive, Filter(ids, alive)[k])
  {
    if ids != [] { FilterTaken(ids[1..], alive); }
  }

  lemma FilterSnoc(ids: seq<nat>, x: nat, alive: nat -> bool)
    ensures Filter(ids + [x], alive) == Filter(ids, alive) + if Taken(alive, x) then [x] else []
  {
    FilterConcat(ids, [x], alive);
    assert [x][1..] == [];
  }

  lemma FlatSnoc(blocks: seq<seq<nat>>, block: seq<nat>)
    ensures Flat(blocks + [block]) == Flat(blocks) + block
  {
    FlatConcat(blocks, [block]);
    assert [block][1..] == [];
    assert Flat([block]) == block + [];
  }

  /** The new chain gc builds, filled from the front. */
  class TempList {
    var blocks: seq<seq<nat>>
    var index: nat
    ghost var written: seq<nat>

    ghost predicate Filled()
      reads this
    {
      && Shaped(blocks) && |blocks| >= 1 && index <= BLOCK_SIZE
      && |written| == BLOCK_SIZE * (|blocks| - 1) + index
      && Flat(blocks) == written + Empties(BLOCK_SIZE - index)
      && Flat(blocks[..|blocks| - 1]) + blocks[|blocks| - 1][..index] == written
      && blocks[|blocks| - 1][index..] == Empties(BLOCK_SIZE - index)
    }

    ghost predicate Valid()
      reads this
    {
      Filled() && index < BLOCK_SIZE
    }

    constructor ()
      ensures Valid() && written == []
    {
      blocks, index, written := [Empties(BLOCK_SIZE)], 0, [];
      new;
      assert blocks == [] + [Empties(BLOCK_SIZE)];
      FlatSnoc([], Empties(BLOCK_SIZE));
    }

    /** add_to_temp_list; false when there is no memory for the next block. */
    method Push(id: nat, plenty: bool) returns (ok: bool)
      requires Valid()
      modifies this
      ensures ok ==> Valid() && written == old(written) + [id]
      ensures plenty ==> ok
    {
      Write(id);
      ok := true;
      if index == BLOCK_SIZE {
        var memory: bool := *;
        if !memory && !plenty { return false; }
        NextBlock();
      }
    }

    method Write(id: nat)
      requires Valid()
      modifies this
      ensures Filled() && written == old(written) + [id]
    {
      hide Flat;
      var last := |blocks| - 1;
      ghost var done, tail := blocks[..last], blocks[last];
      assert blocks == done + [tail];
      var block: seq<nat> := blocks[last][index := id];
      blocks := blocks[last := block];
      assert blocks[..last] == done && blocks == done + [block];
      assert block[..index + 1] == tail[..index] + [id];
      assert block[index + 1..] == tail[index..][1..] == Empties(BLOCK_SIZE - index - 1);
      written := written + [id];
      index := index + 1;
      assert Flat(done) + block[..index] == written;
      assert block == block[..index] + block[index..];
      FlatSnoc(done, block);
    }

    method NextBlock()
      requires Filled() && index == BLOCK_SIZE
      modifies `blocks, `index
      ensures Valid()
    {
      hide Flat;
      FlatSnoc(blocks, Empties(BLOCK_SIZE));
      ghost var full := blocks;
      assert full == full[..|full| - 1] + [full[|full| - 1]] && full[|full| - 1][..index] == full[|full| - 1];
      FlatSnoc(full[..|full| - 1], full[|full| - 1]);
      blocks, index := blocks + [Empties(BLOCK_SIZE)], 0;
      assert blocks[..|blocks| - 1] == full;
      assert blocks[|blocks| - 1] == Empties(BLOCK_SIZE) && Empties(BLOCK_SIZE)[..0] == [];
      assert written + [] == written;
    }
  }

  // ---- The list --------------------------------------------------------------------

  datatype Code = Ok | TryAgain | NoMemory

  /** The four positions from the cursor on hold ids that still exist. */
  predicate Crowded(blocks: seq<seq<nat>>, c: Pos, alive: nat -> bool)
    requires Shaped(blocks) && Within(c, |blocks|)
  {
    var s := ScanFrom(c, |blocks|);
    && Taken(alive, Get(blocks, s.p0)) && Taken(alive, Get(blocks, s.p1))
    && Taken(alive, Get(blocks, s.p2)) && Taken(alive, Get(blocks, s.p3))
  }

  /** add collects garbage instead of adding. */
  predicate CollectsInstead(blocks: seq<seq<nat>>, c: Pos, gcSize: nat, alive: nat -> bool)
    requires Shaped(blocks) && Within(c, |blocks|)
  {
    Crowded(blocks, c, alive) && gcSize < |blocks| * BLOCK_SIZE <= MAX_ENTRIES
  }

  predicate SplitsInstead(blocks: seq<seq<nat>>, c: Pos, gcSize: nat, alive: nat -> bool)
    requires Shaped(blocks) && Within(c, |blocks|)
  {
    Crowded(blocks, c, alive) && |blocks| * BLOCK_SIZE <= gcSize && |blocks| * BLOCK_SIZE <= MAX_ENTRIES
  }

  class List {
    var blocks: seq<seq<nat>>
    var cur: Pos
    var gcSize: nat

    ghost predicate Valid()
      reads this
    {
      Shaped(blocks) && |blocks| >= 1 && Within(cur, |blocks|)
    }

    constructor ()
      ensures Valid() && |blocks| == 1 && gcSize == INIT_GC_SIZE && forall x :: x != ID_INIT ==> Occ(blocks, x) == 0
    {
      blocks, cur, gcSize := [Empties(BLOCK_SIZE)], Pos(0, 0), INIT_GC_SIZE;
      new;
      forall x | x != ID_INIT ensures Occ(blocks, x) == 0 {
        NoneInEmpties(BLOCK_SIZE, x);
        assert blocks[1..] == [];
      }
    }

    method ForwardIndex()
      requires Valid()
      modifies `cur
      ensures Valid() && cur == Forward(old(cur), |blocks|)
    {
      if cur.i + 1 >= BLOCK_SIZE {
        cur := if cur.b + 1 < |blocks| then Pos(cur.b + 1, 0) else Pos(0, 0);
      } else {
        cur := Pos(cur.b, cur.i + 1);
      }
    }

    /** gc keeps exactly the ids that exist, in order, behind an empty head
        block, each followed by an empty position. */
    method Collect(alive: nat -> bool, plenty: bool) returns (code: Code)
      requires Valid()
      modifies `blocks, `cur
      ensures Valid() && code != TryAgain && (plenty ==> code == Ok)
      ensures code == NoMemory ==> blocks == old(blocks) && cur == old(cur)
      ensures code == Ok ==> Live(blocks, alive) == Live(old(blocks), alive)
      ensures code == Ok ==> forall x :: x != ID_INIT && !Taken(alive, x) ==> Occ(blocks, x) == 0
      ensures code == Ok ==> |blocks| == 2 + 2 * |Live(old(blocks), alive)| / BLOCK_SIZE
    {
      hide Filter, Flat, Spread, Forward, Occ;
      var temp := new TempList();
      ghost var kept: seq<nat> := [];
      NothingYet(blocks, alive);
      for b := 0 to |blocks|
        invariant temp.Valid() && fresh(temp) && Valid()
        invariant blocks == old(blocks) && cur == old(cur)
        invariant kept == Filter(Flat(blocks[..b]), alive) && temp.written == Spread(kept)
      {
        ghost var before := Flat(blocks[..b]);
        assert before + blocks[b][..0] == before;
        for i := 0 to BLOCK_SIZE
          invariant temp.Valid() && fresh(temp) && Valid()
          invariant blocks == old(blocks) && cur == old(cur)
          invariant kept == Filter(before + blocks[b][..i], alive) && temp.written == Spread(kept)
        {
          var id := blocks[b][i];
          assert before + blocks[b][..i + 1] == (before + blocks[b][..i]) + [id];
          FilterSnoc(before + blocks[b][..i], id, alive);
          if Taken(alive, id) {
            var ok := temp.Push(id, plenty);
            if !ok { return NoMemory; }
            ok := temp.Push(ID_INIT, plenty);
            if !ok { return NoMemory; }
            SpreadSnoc(kept, id);
            kept := kept + [id];
          }
        }
        assert blocks[b][..BLOCK_SIZE] == blocks[b];
        assert blocks[..b + 1] == blocks[..b] + [blocks[b]];
        FlatSnoc(blocks[..b], blocks[b]);
      }
      assert blocks[..|blocks|] == blocks;
      Collected(blocks, temp.blocks, temp.index, kept, alive);
      blocks, cur := [Empties(BLOCK_SIZE)] + temp.blocks, Pos(|temp.blocks|, temp.index);
      code := Ok;
    }

    /** add puts the id where an empty or dead one stood among the next four
        positions; if these are taken it splits and scatters, gives up on a
        full list, or collects garbage and returns without adding. What exists
        is never lost. at is the position overwritten, and plenty says that
        memory will not run out. */
    method Add(id: nat, alive: nat -> bool, plenty: bool) returns (code: Code, ghost at: Pos)
      requires Valid()
      modifies this
      ensures Valid() && (plenty ==> code != NoMemory)
      ensures !CollectsInstead(old(blocks), old(cur), old(gcSize), alive) ==> gcSize == old(gcSize)
      ensures !Crowded(old(blocks), old(cur), alive) ==>
        && code == Ok && at in Scanned(old(cur), |old(blocks)|) && !Taken(alive, Get(old(blocks), at))
        && blocks == Set(old(blocks), at, id)
      ensures Crowded(old(blocks), old(cur), alive) && |old(blocks)| * BLOCK_SIZE > MAX_ENTRIES ==>
        code == TryAgain && blocks == old(blocks)
      ensures SplitsInstead(old(blocks), old(cur), old(gcSize), alive) ==>
        code == NoMemory || (code == Ok && blocks == SplitAndScatter(old(blocks), old(cur), id))
      ensures CollectsInstead(old(blocks), old(cur), old(gcSize), alive) ==>
        code == NoMemory || (code == Ok && Live(blocks, alive) == Live(old(blocks), alive))
      ensures code == NoMemory ==> blocks == old(blocks)
      ensures Keeps(old(blocks), blocks, alive)
      ensures code == Ok && id != ID_INIT && Occ(old(blocks), id) == 0 ==>
        (Occ(blocks, id) == 1 <==> !CollectsInstead(old(blocks), old(cur), old(gcSize), alive))
    {
      hide Occ, Live, SplitAndScatter, Get, Set, Keeps;
      at := cur;
      KeepsAll(blocks, alive);
      var saved: seq<Pos> := [];
      for k := 0 to 4
        invariant Valid() && blocks == old(blocks) && gcSize == old(gcSize) && |saved| == k
        invariant saved == Scanned(old(cur), |blocks|)[..k]
        invariant cur == (Scanned(old(cur), |blocks|) + [ScanFrom(old(cur), |blocks|).cur])[k]
        invariant forall j :: 0 <= j < k ==> Within(saved[j], |blocks|) && Taken(alive, Get(blocks, saved[j]))
      {
        at := cur;
        var pos := cur;
        ForwardIndex();
        if !Taken(alive, Get(blocks, pos)) {
          Replaced(blocks, pos, id, alive);
          assert at == Scanned(old(cur), |blocks|)[k];
          NotCrowded(blocks, old(cur), k, alive);
          blocks := Set(blocks, pos, id);
          return Ok, at;
        }
        saved := saved + [pos];
      }
      assert saved == Scanned(old(cur), |blocks|);
      AllTaken(blocks, old(cur), saved, alive);
      if |blocks| * BLOCK_SIZE > MAX_ENTRIES { return TryAgain, at; }
      if |blocks| * BLOCK_SIZE > gcSize {
        var before := |blocks|;
        code := Collect(alive, plenty);
        CollectedKeeps(old(blocks), blocks, code, alive, id);
        if ((before - |blocks|) * BLOCK_SIZE) % U32 < gcSize - gcSize / 4 {
          gcSize := (gcSize * 2) % U32;
          if gcSize >= MAX_ENTRIES { gcSize := MAX_ENTRIES - BLOCK_SIZE * 2; }
        }
        return;
      }
      var memory: bool := *;
      if !memory && !plenty { return NoMemory, at; }
      Scattered(blocks, old(cur), id, alive);
      ScatterInPlace(saved, id, old(cur));
      code := Ok;
    }

    /** *pos = v */
    method Put(p: Pos, v: nat)
      requires Shaped(blocks) && Within(p, |blocks|)
      modifies `blocks
      ensures Shaped(blocks) && |blocks| == |old(blocks)|
      ensures Inside(old(blocks), p) && blocks == Set(old(blocks), p, v)
    {
      blocks := Set(blocks, p, v);
    }

    /** *pos */
    function Peek(p: Pos): (v: nat)
      requires Shaped(blocks) && Within(p, |blocks|)
      reads this
      ensures Inside(blocks, p) && v == Get(blocks, p)
    {
      Get(blocks, p)
    }

    /** The new block and the writes around it. */
    method ScatterInPlace(saved: seq<Pos>, id: nat, ghost c: Pos)
      requires Valid() && IsScan(saved, cur, c, |blocks|)
      modifies `blocks, `cur
      ensures Valid() && blocks == SplitAndScatter(old(blocks), c, id)
    {
      hide *;
      ScanIs(saved, c);
      ghost var was, n, s := blocks, |blocks|, ScanFrom(c, |blocks|);
      ScatterApart(c, n);
      ApartWithin(s, n);
      var q1, q2, q3 := Moved(saved[1], cur.b), Moved(saved[2], cur.b), Moved(saved[3], cur.b);
      blocks := Split(blocks, cur);
      ghost var b0 := blocks;
      Put(cur, Peek(q2));
      ghost var b1 := blocks;
      Put(q2, Peek(q1));
      ghost var b2 := blocks;
      Put(q1, ID_INIT);
      ghost var b3 := blocks;
      Advance();
      Advance();
      Put(cur, Peek(q3));
      ghost var b4 := blocks;
      Put(q3, ID_INIT);
      ghost var b5 := blocks;
      Advance();
      Put(cur, id);
      ScatterSteps(was, c, id, b0, b1, b2, b3, b4, b5, blocks);
      Advance();
      BackToValid();
    }

    method Advance()
      requires Shaped(blocks) && Within(cur, |blocks|)
      modifies `cur
      ensures Within(cur, |blocks|) && cur == Forward(old(cur), |blocks|)
    {
      ForwardIndex();
    }

    lemma ScanIs(saved: seq<Pos>, c: Pos)
      requires Valid() && IsScan(saved, cur, c, |blocks|)
      ensures Shaped(blocks) && Within(cur, |blocks|) && Within(c, |blocks|) && Inside(blocks, cur) && |saved| == 4
      ensures var s := ScanFrom(c, |blocks|);
        saved[1] == s.p1 && saved[2] == s.p2 && saved[3] == s.p3 && cur == s.cur
    {
    }

    lemma BackToValid()
      requires Shaped(blocks) && Within(cur, |blocks|)
      ensures Valid()
    {
    }
  }

  lemma ApartWithin(s: Scan, n: nat)
    requires Within(s.cur, n)
    requires var c2 := Forward(Forward(s.cur, n + 1), n + 1); Apart(s, n, c2, Forward(c2, n + 1))
    ensures Within(s.cur, n + 1)
    ensures Within(Moved(s.p1, s.cur.b), n + 1) && Within(Moved(s.p2, s.cur.b), n + 1) && Within(Moved(s.p3, s.cur.b), n + 1)
  {
  }

  lemma ScatterSteps(blocks: seq<seq<nat>>, c: Pos, id: nat, b0: seq<seq<nat>>, b1: seq<seq<nat>>, b2: seq<seq<nat>>,
                     b3: seq<seq<nat>>, b4: seq<seq<nat>>, b5: seq<seq<nat>>, b6: seq<seq<nat>>)
    requires Shaped(blocks) && Within(c, |blocks|)
    requires var s, n := ScanFrom(c, |blocks|), |blocks|;
      var q1, q2, q3 := Moved(s.p1, s.cur.b), Moved(s.p2, s.cur.b), Moved(s.p3, s.cur.b);
      var c2 := Forward(Forward(s.cur, n + 1), n + 1);
      && b0 == Split(blocks, s.cur)
      && Inside(b0, s.cur) && Inside(b0, q2) && b1 == Set(b0, s.cur, Get(b0, q2))
      && Inside(b1, q2) && Inside(b1, q1) && b2 == Set(b1, q2, Get(b1, q1))
      && Inside(b2, q1) && b3 == Set(b2, q1, ID_INIT)
      && Inside(b3, c2) && Inside(b3, q3) && b4 == Set(b3, c2, Get(b3, q3))
      && Inside(b4, q3) && b5 == Set(b4, q3, ID_INIT)
      && Inside(b5, Forward(c2, n + 1)) && b6 == Set(b5, Forward(c2, n + 1), id)
    ensures b6 == SplitAndScatter(blocks, c, id)
  {
    hide Split, Set, Get, Forward, Moved, ScanFrom;
  }

  /** saved are the positions scanned from c, and cur the one behind them. */
  ghost predicate IsScan(saved: seq<Pos>, cur: Pos, c: Pos, n: nat) {
    Within(c, n) && saved == Scanned(c, n) && cur == ScanFrom(c, n).cur
  }

  function Scanned(c: Pos, n: nat): seq<Pos>
    requires Within(c, n)
  {
    var s := ScanFrom(c, n);
    [s.p0, s.p1, s.p2, s.p3]
  }

  lemma NotCrowded(blocks: seq<seq<nat>>, c: Pos, k: nat, alive: nat -> bool)
    requires Shaped(blocks) && Within(c, |blocks|) && k < 4
    requires !Taken(alive, Get(blocks, Scanned(c, |blocks|)[k]))
    ensures !Crowded(blocks, c, alive)
  {
  }

  lemma AllTaken(blocks: seq<seq<nat>>, c: Pos, saved: seq<Pos>, alive: nat -> bool)
    requires Shaped(blocks) && Within(c, |blocks|) && saved == Scanned(c, |blocks|)
    requires forall j :: 0 <= j < 4 ==> Taken(alive, Get(blocks, saved[j]))
    ensures Crowded(blocks, c, alive)
  {
    assert Taken(alive, Get(blocks, saved[0])) && Taken(alive, Get(blocks, saved[1]));
    assert Taken(alive, Get(blocks, saved[2])) && Taken(alive, Get(blocks, saved[3]));
  }

  /** No id that exists is lost. */
  ghost predicate Keeps(was: seq<seq<nat>>, now: seq<seq<nat>>, alive: nat -> bool) {
    forall x :: Taken(alive, x) ==> Occ(now, x) >= Occ(was, x)
  }

  lemma KeepsAll(blocks: seq<seq<nat>>, alive: nat -> bool)
    ensures Keeps(blocks, blocks, alive)
  {
  }

  lemma Replaced(blocks: seq<seq<nat>>, p: Pos, id: nat, alive: nat -> bool)
    requires Inside(blocks, p) && !Taken(alive, Get(blocks, p))
    ensures Keeps(blocks, Set(blocks, p, id), alive)
    ensures Occ(blocks, id) == 0 ==> Occ(Set(blocks, p, id), id) == 1
  {
    hide Occ, Set;
    OccSet(blocks, p, id);
    OccSet(blocks, p, id + 1);
  }

  lemma CollectedKeeps(was: seq<seq<nat>>, now: seq<seq<nat>>, code: Code, alive: nat -> bool, id: nat)
    requires code == NoMemory ==> now == was
    requires code == Ok ==> Live(now, alive) == Live(was, alive)
    requires code == Ok ==> forall x :: x != ID_INIT && !Taken(alive, x) ==> Occ(now, x) == 0
    requires code != TryAgain
    ensures Keeps(was, now, alive)
    ensures id != ID_INIT && Occ(was, id) == 0 ==> Occ(now, id) == 0
  {
    hide Occ, Live;
    forall x ensures code == Ok && Taken(alive, x) ==> Occ(now, x) == Occ(was, x) {
      LiveCounts(was, alive, x);
      LiveCounts(now, alive, x);
    }
  }

  lemma Scattered(blocks: seq<seq<nat>>, c: Pos, id: nat, alive: nat -> bool)
    requires Shaped(blocks) && Within(c, |blocks|)
    ensures Keeps(blocks, SplitAndScatter(blocks, c, id), alive)
    ensures id != ID_INIT ==> Occ(SplitAndScatter(blocks, c, id), id) == Occ(blocks, id) + 1
  {
    hide Occ, SplitAndScatter;
    forall x | x != ID_INIT ensures Occ(SplitAndScatter(blocks, c, id), x) == Occ(blocks, x) + Bit(x == id) {
      SplitAddsExactlyOne(blocks, c, id, x);
    }
  }

  predicate Exists(x: nat) {
    true
  }

  lemma {:induction false} InBound(block: seq<nat>, x: nat)
    ensures In(block, x) <= |block|
  {
    if block != [] { InBound(block[1..], x); }
  }

  lemma {:induction false} OccBound(blocks: seq<seq<nat>>, x: nat)
    requires Shaped(blocks)
    ensures Occ(blocks, x) <= BLOCK_SIZE * |blocks|
  {
    if blocks != [] {
      InBound(blocks[0], x);
      assert Shaped(blocks[1..]);
      OccBound(blocks[1..], x);
    }
  }

  /** One more id 7 among ids that all exist. */
  lemma OneMore(was: seq<seq<nat>>, now: seq<seq<nat>>, at: Pos, c: Pos)
    requires Shaped(was) && Within(c, |was|)
    requires (Inside(was, at) && !Taken(Exists, Get(was, at)) && now == Set(was, at, 7)) || now == SplitAndScatter(was, c, 7)
    ensures Shaped(now) && |was| <= |now| <= |was| + 1
    ensures forall x :: x != ID_INIT ==> Occ(now, x) == Occ(was, x) + Bit(x == 7)
  {
    hide Occ, SplitAndScatter, Set, Get;
    if now == SplitAndScatter(was, c, 7) {
      forall x | x != ID_INIT ensures Occ(now, x) == Occ(was, x) + Bit(x == 7) { SplitAddsExactlyOne(was, c, 7, x); }
    } else {
      OccSet(was, at, 7);
    }
  }

  /** add can succeed without adding: a new list is filled with ids that all
      exist until a crowded place comes up in a long list, and the next id, which
      was never added, is not there after adding it. */
  method AddForgets() returns (list: List, code: Code)
    ensures list.Valid() && code == Ok && Occ(list.blocks, 8) == 0
  {
    hide Occ, SplitAndScatter, Set, Get, Crowded, Live;
    list := new List();
    while !CollectsInstead(list.blocks, list.cur, list.gcSize, Exists)
      invariant list.Valid() && fresh(list) && list.gcSize == INIT_GC_SIZE && |list.blocks| <= 66
      invariant Occ(list.blocks, 8) == 0
      decreases BLOCK_SIZE * 66 - Occ(list.blocks, 7)
    {
      ghost var was, c := list.blocks, list.cur;
      ghost var at;
      code, at := list.Add(7, Exists, true);
      OneMore(was, list.blocks, at, c);
      OccBound(list.blocks, 7);
    }
    ghost var was := list.blocks;
    ghost var at;
    code, at := list.Add(8, Exists, true);
    LiveCounts(was, Exists, 8);
    LiveCounts(list.blocks, Exists, 8);
  }

  lemma NothingYet(blocks: seq<seq<nat>>, alive: nat -> bool)
    ensures Filter(Flat(blocks[..0]), alive) == [] && Spread([]) == []
  {
  }

  lemma Collected(blocks: seq<seq<nat>>, temp: seq<seq<nat>>, index: nat, kept: seq<nat>, alive: nat -> bool)
    requires Shaped(temp) && |temp| >= 1 && index < BLOCK_SIZE && kept == Live(blocks, alive)
    requires Flat(temp) == Spread(kept) + Empties(BLOCK_SIZE - index)
    requires 2 * |kept| == BLOCK_SIZE * (|temp| - 1) + index
    ensures var now := [Empties(BLOCK_SIZE)] + temp;
      && Live(now, alive) == kept && |now| == 2 + 2 * |kept| / BLOCK_SIZE
      && forall x :: x != ID_INIT && !Taken(alive, x) ==> Occ(now, x) == 0
  {
    var now := [Empties(BLOCK_SIZE)] + temp;
    assert now[1..] == temp;
    FilterConcat(Empties(BLOCK_SIZE), Flat(temp), alive);
    FilterEmpties(BLOCK_SIZE, alive);
    FilterEmpties(BLOCK_SIZE - index, alive);
    FilterConcat(Spread(kept), Empties(BLOCK_SIZE - index), alive);
    FilterTaken(Flat(blocks), alive);
    FilterSpread(kept, alive);
    forall x | x != ID_INIT && !Taken(alive, x) ensures Occ(now, x) == 0 {
      OccIsIn(now, x);
      InConcat(Empties(BLOCK_SIZE), Flat(temp), x);
      InConcat(Spread(kept), Empties(BLOCK_SIZE - index), x);
      NoneInEmpties(BLOCK_SIZE, x);
      NoneInEmpties(BLOCK_SIZE - index, x);
      NoneInSpread(kept, alive, x);
    }
  }

  lemma {:induction false} NoneInSpread(ids: seq<nat>, alive: nat -> bool, x: nat)
    requires x != ID_INIT && !Taken(alive, x) && forall k :: 0 <= k < |ids| ==> Taken(alive, ids[k])
    ensures In(Spread(ids), x) == 0
  {
    if ids != [] {
      assert Taken(alive, ids[0]);
      InConcat([ids[0], ID_INIT], Spread(ids[1..]), x);
      assert [ids[0], ID_INIT][1..] == [ID_INIT] && [ID_INIT][1..] == [];
      NoneInSpread(ids[1..], alive, x);
    }
  }
}
