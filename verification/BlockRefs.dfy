/** References into blocks, and the bytes a list of references stands for. */
module BlockRefs {
  import opened Basics
  import opened BitMask
  import opened Rings

  datatype Ref = Ref(offset: nat, length: nat, block: nat)

  /** A block: its capacity, the bytes written so far and its counter. */
  datatype Block = Block(cap: nat, data: seq<Byte>, nshared: nat)

  /** The first 32-bit word of a view is the offset of its first reference in
      the small view and a negative number in the big one. */
  const SIGN: nat := 0x8000_0000
  /** The largest length of which any three add up in 32 bits. */
  const THIRD: nat := 0x5555_5555

  predicate Fits(m: map<nat, Block>, r: Ref) {
    0 < r.length && r.block in m && r.offset + r.length <= |m[r.block].data|
  }

  ghost predicate AllFit(m: map<nat, Block>, refs: seq<Ref>) {
    forall i :: 0 <= i < |refs| ==> Fits(m, refs[i])
  }

  /** References whose offset can stand in the first word, also after their
      front was cut off. */
  ghost predicate Sound(refs: seq<Ref>) {
    forall i :: 0 <= i < |refs| ==> SoundRef(refs[i])
  }

  predicate SoundRef(r: Ref) {
    0 < r.length && r.offset + r.length <= SIGN
  }

  ghost predicate Short(refs: seq<Ref>) {
    forall i :: 0 <= i < |refs| ==> refs[i].length <= THIRD
  }

  function Slice(m: map<nat, Block>, r: Ref): seq<Byte> {
    if Fits(m, r) then m[r.block].data[r.offset..r.offset + r.length] else []
  }

  /** The bytes a list of references stands for. */
  function Bytes(m: map<nat, Block>, refs: seq<Ref>): seq<Byte> {
    if refs == [] then [] else Slice(m, refs[0]) + Bytes(m, refs[1..])
  }

  function Total(refs: seq<Ref>): nat {
    if refs == [] then 0 else refs[0].length + Total(refs[1..])
  }

  /** How many of the references are to block b. */
  function Uses(refs: seq<Ref>, b: nat): nat {
    if refs == [] then 0 else Bit(refs[0].block == b) + Uses(refs[1..], b)
  }

  /** r continues where s ends. */
  predicate Adjacent(s: Ref, r: Ref) {
    s.block == r.block && s.offset + s.length == r.offset
  }

  function Merged(s: Ref, r: Ref): Ref {
    s.(length := s.length + r.length)
  }

  predicate Merges(refs: seq<Ref>, r: Ref) {
    refs != [] && Adjacent(refs[|refs| - 1], r)
  }

  /** Appending a reference merges it with an adjacent last one. */
  function PushRef(refs: seq<Ref>, r: Ref): seq<Ref> {
    if Merges(refs, r)
    then refs[|refs| - 1 := Merged(refs[|refs| - 1], r)]
    else refs + [r]
  }

  function Skip(r: Ref, n: nat): Ref
    requires n <= r.length
  {
    Ref(r.offset + n, r.length - n, r.block)
  }

  // ---- Concatenation -------------------------------------------------------------

  lemma {:induction false} ConcatBytes(m: map<nat, Block>, x: seq<Ref>, y: seq<Ref>)
    ensures Bytes(m, x + y) == Bytes(m, x) + Bytes(m, y)
  {
    hide Slice;
    if x == [] {
      assert x + y == y;
    } else {
      assert (x + y)[1..] == x[1..] + y;
      ConcatBytes(m, x[1..], y);
    }
  }

  lemma {:induction false} ConcatTotal(x: seq<Ref>, y: seq<Ref>)
    ensures Total(x + y) == Total(x) + Total(y)
  {
    if x == [] {
      assert x + y == y;
    } else {
      assert (x + y)[1..] == x[1..] + y;
      ConcatTotal(x[1..], y);
    }
  }

  lemma {:induction false} ConcatUses(x: seq<Ref>, y: seq<Ref>, b: nat)
    ensures Uses(x + y, b) == Uses(x, b) + Uses(y, b)
  {
    if x == [] {
      assert x + y == y;
    } else {
      assert (x + y)[1..] == x[1..] + y;
      ConcatUses(x[1..], y, b);
    }
  }

  lemma SnocBytes(m: map<nat, Block>, x: seq<Ref>, r: Ref)
    ensures Bytes(m, x + [r]) == Bytes(m, x) + Slice(m, r)
  {
    ConcatBytes(m, x, [r]);
    assert [r][1..] == [];
    assert Slice(m, r) + [] == Slice(m, r);
  }

  lemma Snoc(x: seq<Ref>, r: Ref)
    ensures Total(x + [r]) == Total(x) + r.length
    ensures forall b :: Uses(x + [r], b) == Uses(x, b) + Bit(r.block == b)
  {
    ConcatTotal(x, [r]);
    assert [r][1..] == [];
    forall b ensures Uses(x + [r], b) == Uses(x, b) + Bit(r.block == b) {
      ConcatUses(x, [r], b);
    }
  }

  lemma UsesPrefix(refs: seq<Ref>, i: nat)
    requires i < |refs|
    ensures forall b :: Uses(refs[..i + 1], b) == Uses(refs[..i], b) + Bit(refs[i].block == b)
    ensures forall b :: Uses(refs[..i + 1], b) <= Uses(refs, b)
  {
    hide Uses;
    assert refs[..i + 1] == refs[..i] + [refs[i]];
    Snoc(refs[..i], refs[i]);
    assert refs == refs[..i + 1] + refs[i + 1..];
    forall b ensures Uses(refs[..i + 1], b) <= Uses(refs, b) {
      ConcatUses(refs[..i + 1], refs[i + 1..], b);
    }
  }

  /** A list whose last reference is changed. */
  lemma ChangeBack(m: map<nat, Block>, refs: seq<Ref>, r: Ref)
    requires refs != []
    ensures var k := |refs| - 1;
      && Bytes(m, refs) == Bytes(m, refs[..k]) + Slice(m, refs[k])
      && Bytes(m, refs[k := r]) == Bytes(m, refs[..k]) + Slice(m, r)
  {
    hide Slice, Bytes;
    var k := |refs| - 1;
    assert refs == refs[..k] + [refs[k]] && refs[k := r] == refs[..k] + [r];
    SnocBytes(m, refs[..k], refs[k]);
    SnocBytes(m, refs[..k], r);
  }

  lemma ChangeBackSums(refs: seq<Ref>, r: Ref)
    requires refs != [] && r.block == refs[|refs| - 1].block
    ensures Total(refs[|refs| - 1 := r]) == Total(refs) - refs[|refs| - 1].length + r.length
    ensures forall b :: Uses(refs[|refs| - 1 := r], b) == Uses(refs, b)
  {
    hide Total, Uses;
    var k := |refs| - 1;
    assert refs == refs[..k] + [refs[k]] && refs[k := r] == refs[..k] + [r];
    Snoc(refs[..k], refs[k]);
    Snoc(refs[..k], r);
  }

  lemma DropBackSums(refs: seq<Ref>)
    requires refs != []
    ensures Total(refs[..|refs| - 1]) == Total(refs) - refs[|refs| - 1].length
    ensures forall b :: Uses(refs[..|refs| - 1], b) == Uses(refs, b) - Bit(refs[|refs| - 1].block == b)
  {
    hide Total, Uses;
    var k := |refs| - 1;
    assert refs == refs[..k] + [refs[k]];
    Snoc(refs[..k], refs[k]);
  }

  lemma {:induction false} TotalIsLength(m: map<nat, Block>, refs: seq<Ref>)
    requires AllFit(m, refs)
    ensures |Bytes(m, refs)| == Total(refs)
  {
    if refs != [] {
      assert forall i :: 0 <= i < |refs[1..]| ==> refs[1..][i] == refs[i + 1];
      assert Fits(m, refs[0]);
      TotalIsLength(m, refs[1..]);
    }
  }

  /** Appending a reference appends its bytes, merged or not. */
  lemma PushBytes(m: map<nat, Block>, refs: seq<Ref>, r: Ref)
    requires AllFit(m, refs) && Fits(m, r)
    ensures AllFit(m, PushRef(refs, r))
    ensures Bytes(m, PushRef(refs, r)) == Bytes(m, refs) + Slice(m, r)
  {
    hide Bytes;
    if Merges(refs, r) {
      var s := refs[|refs| - 1];
      assert Fits(m, s);
      ChangeBack(m, refs, Merged(s, r));
      assert Slice(m, Merged(s, r)) == Slice(m, s) + Slice(m, r);
    } else {
      SnocBytes(m, refs, r);
    }
  }

  lemma PushSums(refs: seq<Ref>, r: Ref)
    ensures Total(PushRef(refs, r)) == Total(refs) + r.length
    ensures forall b :: Uses(PushRef(refs, r), b) == Uses(refs, b) + Bit(r.block == b && !Merges(refs, r))
  {
    hide Total, Uses;
    if Merges(refs, r) {
      ChangeBackSums(refs, Merged(refs[|refs| - 1], r));
    } else {
      Snoc(refs, r);
    }
  }

  lemma PushSound(refs: seq<Ref>, r: Ref)
    requires Sound(refs) && SoundRef(r)
    ensures Sound(PushRef(refs, r))
  {
    assert Merges(refs, r) ==> SoundRef(refs[|refs| - 1]);
  }

  lemma TwoTotal(refs: seq<Ref>)
    requires |refs| <= 2
    ensures Total(refs) == (if |refs| > 0 then refs[0].length else 0) + (if |refs| > 1 then refs[1].length else 0)
  {
    if |refs| == 2 {
      assert refs[1..][1..] == [];
    } else if |refs| == 1 {
      assert refs[1..] == [];
    }
  }

  lemma ShortTotal(refs: seq<Ref>)
    requires Short(refs) && |refs| <= 3
    ensures Total(refs) < U32
  {
    if |refs| == 3 {
      assert refs[1..][1..] == refs[2..] && refs[2..][1..] == [];
    } else {
      TwoTotal(refs);
    }
  }

  /** The bound on the references is exact: every way to cut the front off
      leaves the first word non-negative if and only if the reference ends
      within 2^31. */
  lemma TagIsSafe(r: Ref)
    requires 0 < r.length
    ensures (forall n: nat :: n < r.length ==> Skip(r, n).offset < SIGN) <==> SoundRef(r)
  {
    assert Skip(r, r.length - 1).offset == r.offset + r.length - 1;
  }

  /** The bound on the lengths is exact: any three of them add up in 32 bits if
      and only if it holds. */
  lemma ThirdIsExact(limit: nat)
    ensures (forall refs: seq<Ref> :: |refs| == 3 && (forall i :: 0 <= i < 3 ==> refs[i].length <= limit) ==> Total(refs) < U32)
      <==> limit <= THIRD
  {
    if limit <= THIRD {
      forall refs: seq<Ref> | |refs| == 3 && (forall i :: 0 <= i < 3 ==> refs[i].length <= limit)
        ensures Total(refs) < U32
      {
        ShortTotal(refs);
      }
    } else {
      var r := Ref(0, limit, 0);
      var refs := [r, r, r];
      TwoTotal([r, r]);
      Snoc([r, r], r);
      assert refs == [r, r] + [r] && Total(refs) == 3 * limit;
    }
  }

  /** Taking bytes off the first reference takes them off the front. */
  lemma SkipFront(m: map<nat, Block>, refs: seq<Ref>, n: nat)
    requires AllFit(m, refs) && refs != [] && 0 < n < refs[0].length
    ensures AllFit(m, refs[0 := Skip(refs[0], n)])
    ensures Bytes(m, refs) == Slice(m, Ref(refs[0].offset, n, refs[0].block)) + Bytes(m, refs[0 := Skip(refs[0], n)])
  {
    var r, t := refs[0], refs[0 := Skip(refs[0], n)];
    assert Fits(m, r) && t[1..] == refs[1..];
    var head := Ref(r.offset, n, r.block);
    assert Slice(m, r) == Slice(m, head) + Slice(m, Skip(r, n));
    hide Slice;
    assert Bytes(m, refs) == (Slice(m, head) + Slice(m, Skip(r, n))) + Bytes(m, refs[1..]);
  }

  lemma SkipFrontSums(refs: seq<Ref>, n: nat)
    requires refs != [] && n < refs[0].length
    ensures Total(refs[0 := Skip(refs[0], n)]) == Total(refs) - n
    ensures forall b :: Uses(refs[0 := Skip(refs[0], n)], b) == Uses(refs, b)
  {
    assert refs[0 := Skip(refs[0], n)][1..] == refs[1..];
  }

  lemma DropFrontBytes(m: map<nat, Block>, refs: seq<Ref>)
    requires AllFit(m, refs) && refs != []
    ensures AllFit(m, refs[1..]) && |Slice(m, refs[0])| == refs[0].length
    ensures Bytes(m, refs) == Slice(m, refs[0]) + Bytes(m, refs[1..])
  {
    assert forall i :: 0 <= i < |refs[1..]| ==> refs[1..][i] == refs[i + 1];
    assert Fits(m, refs[0]);
  }

  /** The first n bytes of the first reference are the first n bytes. */
  lemma FrontSlice(m: map<nat, Block>, refs: seq<Ref>, n: nat)
    requires AllFit(m, refs) && refs != [] && n <= refs[0].length
    ensures refs[0].length <= |Bytes(m, refs)| && Slice(m, Ref(refs[0].offset, n, refs[0].block)) == Bytes(m, refs)[..n]
  {
    assert Fits(m, refs[0]);
    DropFrontBytes(m, refs);
    hide Bytes;
  }

  lemma DropBackBytes(m: map<nat, Block>, refs: seq<Ref>)
    requires AllFit(m, refs) && refs != []
    ensures var k := |refs| - 1;
      && AllFit(m, refs[..k]) && |Slice(m, refs[k])| == refs[k].length
      && Bytes(m, refs) == Bytes(m, refs[..k]) + Slice(m, refs[k])
  {
    hide Bytes;
    assert Fits(m, refs[|refs| - 1]);
    ChangeBack(m, refs, refs[|refs| - 1]);
  }

  /** The list without the last n bytes of its last reference. */
  function Shortened(refs: seq<Ref>, n: nat): seq<Ref>
    requires refs != [] && n < refs[|refs| - 1].length
  {
    var r := refs[|refs| - 1];
    refs[|refs| - 1 := r.(length := r.length - n)]
  }

  lemma ShortenedBytes(m: map<nat, Block>, refs: seq<Ref>, n: nat)
    requires AllFit(m, refs) && refs != [] && n < refs[|refs| - 1].length
    ensures AllFit(m, Shortened(refs, n)) && Bytes(m, Shortened(refs, n)) <= Bytes(m, refs)
  {
    hide Bytes;
    var k := |refs| - 1;
    var r := refs[k].(length := refs[k].length - n);
    assert Fits(m, refs[k]);
    ChangeBack(m, refs, r);
    assert Slice(m, r) <= Slice(m, refs[k]);
  }

  lemma ShortenedSums(refs: seq<Ref>, n: nat)
    requires refs != [] && n < refs[|refs| - 1].length
    ensures Total(Shortened(refs, n)) == Total(refs) - n
    ensures forall b :: Uses(Shortened(refs, n), b) == Uses(refs, b)
    ensures Sound(refs) ==> Sound(Shortened(refs, n))
  {
    hide Total, Uses;
    var r := refs[|refs| - 1];
    ChangeBackSums(refs, r.(length := r.length - n));
    assert Sound(refs) ==> SoundRef(r);
  }

  /** Bytes depend only on the blocks that are used. */
  lemma {:induction false} BytesSame(m: map<nat, Block>, k: map<nat, Block>, refs: seq<Ref>)
    requires AllFit(m, refs)
    requires forall b :: Uses(refs, b) > 0 ==> b in m && b in k && m[b].data <= k[b].data
    ensures AllFit(k, refs) && Bytes(k, refs) == Bytes(m, refs)
  {
    if refs != [] {
      var r := refs[0];
      assert forall i :: 0 <= i < |refs[1..]| ==> refs[1..][i] == refs[i + 1];
      BytesSame(m, k, refs[1..]);
      assert Fits(m, r) && Uses(refs, r.block) > 0;
      assert Slice(k, r) == Slice(m, r);
      forall i | 0 <= i < |refs| ensures Fits(k, refs[i]) {
        if i > 0 { assert refs[i] == refs[1..][i - 1]; }
      }
    }
  }

  lemma {:induction false} Used(refs: seq<Ref>, i: nat)
    requires i < |refs|
    ensures Uses(refs, refs[i].block) > 0
  {
    if i > 0 { Used(refs[1..], i - 1); }
  }

  lemma SuffixStep(all: seq<Byte>, i: nat, f: seq<Byte>, rest: seq<Byte>)
    requires i <= |all| && all[i..] == f + rest
    ensures i + |f| <= |all| && rest == all[i + |f|..]
  {
    assert rest == all[i..][|f|..];
  }

  lemma MovedSome(all: seq<Byte>, had: seq<Byte>, i: nat, c: nat)
    requires i + c <= |all|
    ensures all[i..][c..] == all[i + c..] && (had + all[..i]) + all[i..][..c] == had + all[..i + c]
  {
    assert all[..i + c] == all[..i] + all[i..][..c];
  }

  lemma PrefixStep(all: seq<Byte>, i: nat, f: seq<Byte>, rest: seq<Byte>)
    requires i <= |all| && all[..i] == rest + f
    ensures |f| <= i && rest == all[..i - |f|]
  {
    assert rest == all[..i][..i - |f|];
  }

  lemma PrefixOfPrefix(all: seq<Byte>, i: nat, n: nat, rest: seq<Byte>)
    requires n <= i <= |all| && rest <= all[..i] && |rest| == i - n
    ensures rest == all[..i - n]
  {
  }

  // ---- A list appended to itself -----------------------------------------------------

  /** References i to n are pushed one by one, each as it is when its turn
      comes. */
  function Selfed(refs: seq<Ref>, i: nat, n: nat): seq<Ref>
    requires i <= n <= |refs|
    decreases n - i
  {
    if i == n then refs else Selfed(PushRef(refs, refs[i]), i + 1, n)
  }

  lemma PushLength(refs: seq<Ref>, r: Ref)
    ensures |refs| <= |PushRef(refs, r)| == |refs| + Bit(!Merges(refs, r)) <= |refs| + 1
  {
  }

  lemma SelfedNone(refs: seq<Ref>)
    ensures Selfed(refs, 0, 0) == refs
  {
  }

  lemma {:induction false} SelfedSnoc(refs: seq<Ref>, i: nat, n: nat)
    requires i <= n < |refs|
    ensures n < |Selfed(refs, i, n)| && Selfed(refs, i, n + 1) == PushRef(Selfed(refs, i, n), Selfed(refs, i, n)[n])
    decreases n - i
  {
    if i < n { SelfedSnoc(PushRef(refs, refs[i]), i + 1, n); }
  }

  /** From reference i on, as long as the first n are the original ones. */
  lemma {:induction false} SelfedBytes(m: map<nat, Block>, refs: seq<Ref>, x: seq<Ref>, i: nat)
    requires AllFit(m, refs) && AllFit(m, x) && i <= |x| <= |refs| && refs[..|x|] == x
    requires |refs| == |x| ==> i == 0 && (x == [] || !Adjacent(x[|x| - 1], x[0]))
    ensures Bytes(m, Selfed(refs, i, |x|)) == Bytes(m, refs) + Bytes(m, x[i..])
    decreases |x| - i
  {
    hide Bytes, Slice;
    if i == |x| {
      assert x[i..] == [];
      NoBytes(m);
    } else {
      assert refs[i] == x[i] && Fits(m, x[i]);
      PushBytes(m, refs, x[i]);
      assert |refs| > |x| ==> PushRef(refs, x[i])[..|x|] == x;
      assert |refs| == |x| ==> refs == x && PushRef(refs, x[i]) == x + [x[0]];
      SelfedBytes(m, PushRef(refs, x[i]), x, i + 1);
      TailBytes(m, x, i);
      assert (Bytes(m, refs) + Slice(m, x[i])) + Bytes(m, x[i + 1..]) == Bytes(m, refs) + (Slice(m, x[i]) + Bytes(m, x[i + 1..]));
    }
  }

  lemma NoBytes(m: map<nat, Block>)
    ensures Bytes(m, []) == []
  {
  }

  /** Once the last reference grew it is pushed grown, and the rest with it. */
  lemma {:induction false} SelfedTooLong(refs: seq<Ref>, x: seq<Ref>, i: nat)
    requires x != [] && i < |x| <= |refs| && refs[..|x| - 1] == x[..|x| - 1]
    requires refs[|x| - 1].length > x[|x| - 1].length
    ensures Total(Selfed(refs, i, |x|)) > Total(refs) + Total(x[i..])
    decreases |x| - i
  {
    hide Total, Uses;
    PushSums(refs, refs[i]);
    assert Total(x[i..]) == x[i].length + Total(x[i + 1..]) by { TailTotal(x, i); }
    if i == |x| - 1 {
      assert x[i + 1..] == [];
      NoTotal();
    } else {
      assert refs[i] == refs[..|x| - 1][i] == x[i];
      SelfedTooLong(PushRef(refs, refs[i]), x, i + 1);
    }
  }

  lemma TailTotal(x: seq<Ref>, i: nat)
    requires i < |x|
    ensures Total(x[i..]) == x[i].length + Total(x[i + 1..])
  {
    assert x[i..][1..] == x[i + 1..];
  }

  lemma NoTotal()
    ensures Total([]) == 0
  {
  }

  lemma {:induction false} SelfedFits(m: map<nat, Block>, refs: seq<Ref>, i: nat, n: nat)
    requires AllFit(m, refs) && i <= n <= |refs|
    ensures AllFit(m, Selfed(refs, i, n))
    decreases n - i
  {
    if i < n {
      assert Fits(m, refs[i]);
      PushBytes(m, refs, refs[i]);
      SelfedFits(m, PushRef(refs, refs[i]), i + 1, n);
    }
  }

  /** Appending a list to itself doubles its bytes if and only if its last
      reference does not end where the first one begins: if it does, the first
      push changes the last reference before it is pushed itself. */
  lemma SelfAppendDoubles(m: map<nat, Block>, x: seq<Ref>)
    requires AllFit(m, x)
    ensures Bytes(m, Selfed(x, 0, |x|)) == Bytes(m, x) + Bytes(m, x) <==> x == [] || !Adjacent(x[|x| - 1], x[0])
  {
    hide Bytes, Total, Slice;
    if x == [] || !Adjacent(x[|x| - 1], x[0]) {
      assert x[0..] == x;
      SelfedBytes(m, x, x, 0);
    } else {
      assert Fits(m, x[0]);
      PushSums(x, x[0]);
      TailTotal(x, 0);
      assert x[0..] == x;
      SelfedTooLong(PushRef(x, x[0]), x, 1);
      SelfedFits(m, x, 0, |x|);
      TotalIsLength(m, x);
      TotalIsLength(m, Selfed(x, 0, |x|));
    }
  }

  // ---- Copying a window ----------------------------------------------------------------

  /** Up to n bytes from position pos on. */
  function Window(all: seq<Byte>, pos: nat, n: nat): seq<Byte> {
    if pos > |all| then [] else if pos + n <= |all| then all[pos..pos + n] else all[pos..]
  }

  /** offset bytes are still to be skipped from reference i on. */
  ghost predicate Skipping(m: map<nat, Block>, refs: seq<Ref>, all: seq<Byte>, pos: nat, i: nat, offset: nat) {
    i <= |refs| && offset <= pos <= |all| + offset && Bytes(m, refs[i..]) == all[pos - offset..]
  }

  /** d was copied; reference i is next, from its byte offset on. */
  ghost predicate Copying(m: map<nat, Block>, refs: seq<Ref>, all: seq<Byte>, pos: nat, n: nat,
                          i: nat, offset: nat, d: seq<Byte>) {
    && |d| <= n && i <= |refs|
    && (pos > |all| ==> i == |refs| && d == [])
    && (pos <= |all| ==> pos + |d| <= |all| && d == all[pos..pos + |d|])
    && (pos <= |all| && |d| < n ==>
      && offset <= pos + |d| && Bytes(m, refs[i..]) == all[pos + |d| - offset..]
      && (if i < |refs| then offset < refs[i].length else offset == 0))
  }

  lemma TailBytes(m: map<nat, Block>, refs: seq<Ref>, i: nat)
    requires AllFit(m, refs) && i < |refs|
    ensures Bytes(m, refs[i..]) == Slice(m, refs[i]) + Bytes(m, refs[i + 1..])
    ensures |Slice(m, refs[i])| == refs[i].length > 0
  {
    assert Fits(m, refs[i]);
    assert refs[i..][1..] == refs[i + 1..];
  }

  lemma SkipStart(m: map<nat, Block>, refs: seq<Ref>, all: seq<Byte>, pos: nat)
    requires Bytes(m, refs) == all
    ensures Skipping(m, refs, all, pos, 0, pos)
  {
    assert refs[0..] == refs;
  }

  lemma SkipOne(m: map<nat, Block>, refs: seq<Ref>, all: seq<Byte>, pos: nat, i: nat, offset: nat)
    requires AllFit(m, refs) && Skipping(m, refs, all, pos, i, offset) && i < |refs| && refs[i].length <= offset
    ensures Skipping(m, refs, all, pos, i + 1, offset - refs[i].length)
  {
    TailBytes(m, refs, i);
    hide Bytes, Slice;
    SuffixStep(all, pos - offset, Slice(m, refs[i]), Bytes(m, refs[i + 1..]));
  }

  lemma CopyStart(m: map<nat, Block>, refs: seq<Ref>, all: seq<Byte>, pos: nat, n: nat, i: nat, offset: nat)
    requires AllFit(m, refs) && Skipping(m, refs, all, pos, i, offset)
    requires i < |refs| && offset > 0 ==> offset < refs[i].length
    ensures Copying(m, refs, all, pos, n, i, offset, [])
  {
    if i < |refs| {
      TailBytes(m, refs, i);
    } else {
      assert Bytes(m, refs[i..]) == [];
    }
  }

  lemma CopyOne(m: map<nat, Block>, refs: seq<Ref>, all: seq<Byte>, pos: nat, n: nat,
                i: nat, offset: nat, d: seq<Byte>, nc: nat)
    requires AllFit(m, refs) && Copying(m, refs, all, pos, n, i, offset, d) && |d| < n && i < |refs|
    requires nc == if n - |d| < refs[i].length - offset then n - |d| else refs[i].length - offset
    ensures offset + nc <= |Slice(m, refs[i])| && nc > 0
    ensures Copying(m, refs, all, pos, n, i + 1, 0, d + Slice(m, refs[i])[offset..offset + nc])
  {
    TailBytes(m, refs, i);
    hide Bytes, Slice, AllFit;
    var s, rest, at := Slice(m, refs[i]), Bytes(m, refs[i + 1..]), pos + |d| - offset;
    SuffixStep(all, at, s, rest);
    assert s == all[at..][..|s|];
    var part := s[offset..offset + nc];
    WindowStep(all, at, s, offset, nc, pos, d);
    if |d + part| < n && i + 1 < |refs| {
      assert refs[i + 1].length > 0 by { NextFits(m, refs, i + 1); }
    } else if |d + part| < n {
      assert pos + |d + part| == at + |s|;
    }
  }

  lemma WindowStep(all: seq<Byte>, at: nat, s: seq<Byte>, offset: nat, nc: nat, pos: nat, d: seq<Byte>)
    requires at + |s| <= |all| && s == all[at..][..|s|] && offset + nc <= |s|
    requires pos + |d| == at + offset && d == all[pos..pos + |d|]
    ensures var part := s[offset..offset + nc];
      pos + |d + part| <= |all| && d + part == all[pos..pos + |d + part|]
  {
    assert s[offset..offset + nc] == all[pos + |d|..pos + |d| + nc];
  }

  lemma MoreToCopy(m: map<nat, Block>, refs: seq<Ref>, all: seq<Byte>, pos: nat, n: nat, i: nat, offset: nat, d: seq<Byte>)
    requires Copying(m, refs, all, pos, n, i, offset, d) && |d| < n && i < |refs|
    ensures offset < refs[i].length
  {
  }

  lemma NextFits(m: map<nat, Block>, refs: seq<Ref>, i: nat)
    requires i < |refs| && AllFit(m, refs)
    ensures refs[i].length > 0
  {
  }

  lemma CopyDone(m: map<nat, Block>, refs: seq<Ref>, all: seq<Byte>, pos: nat, n: nat, i: nat, offset: nat, d: seq<Byte>)
    requires Copying(m, refs, all, pos, n, i, offset, d) && (|d| == n || i == |refs|)
    ensures d == Window(all, pos, n)
  {
    if pos <= |all| && |d| < n {
      assert Bytes(m, refs[i..]) == [];
    }
  }

  // ---- Comparing ------------------------------------------------------------------------

  /** p is behind us, d is the rest of the current reference, i the next one. */
  ghost predicate Cursor(m: map<nat, Block>, refs: seq<Ref>, p: seq<Byte>, d: seq<Byte>, i: nat) {
    i <= |refs| && Bytes(m, refs) == p + (d + Bytes(m, refs[i..]))
  }

  lemma CursorStart(m: map<nat, Block>, refs: seq<Ref>)
    requires AllFit(m, refs) && refs != []
    ensures Cursor(m, refs, [], Slice(m, refs[0]), 1) && Slice(m, refs[0]) != []
  {
    assert refs[0..] == refs;
    TailBytes(m, refs, 0);
  }

  lemma CursorPass(m: map<nat, Block>, refs: seq<Ref>, p: seq<Byte>, d: seq<Byte>, i: nat, c: nat)
    requires Cursor(m, refs, p, d, i) && c <= |d|
    ensures Cursor(m, refs, p + d[..c], d[c..], i)
  {
    hide Bytes;
    var rest := Bytes(m, refs[i..]);
    assert p + (d + rest) == (p + d[..c]) + (d[c..] + rest);
  }

  lemma CursorNext(m: map<nat, Block>, refs: seq<Ref>, p: seq<Byte>, i: nat)
    requires AllFit(m, refs) && Cursor(m, refs, p, [], i) && i < |refs|
    ensures Cursor(m, refs, p, Slice(m, refs[i]), i + 1) && Slice(m, refs[i]) != []
  {
    TailBytes(m, refs, i);
    assert [] + Bytes(m, refs[i..]) == Bytes(m, refs[i..]);
  }

  lemma CursorDiffers(m: map<nat, Block>, x: seq<Ref>, y: seq<Ref>, p: seq<Byte>,
                      d: seq<Byte>, i: nat, e: seq<Byte>, j: nat, c: nat)
    requires Cursor(m, x, p, d, i) && Cursor(m, y, p, e, j) && c <= |d| && c <= |e| && d[..c] != e[..c]
    ensures Bytes(m, x) != Bytes(m, y)
  {
    var k :| 0 <= k < c && d[k] != e[k];
    assert Bytes(m, x)[|p| + k] == d[k] && Bytes(m, y)[|p| + k] == e[k];
  }

  lemma CursorEnd(m: map<nat, Block>, refs: seq<Ref>, p: seq<Byte>, i: nat)
    requires Cursor(m, refs, p, [], i) && i == |refs|
    ensures Bytes(m, refs) == p
  {
    assert Bytes(m, refs[i..]) == [];
  }

  lemma CursorLong(m: map<nat, Block>, refs: seq<Ref>, p: seq<Byte>, d: seq<Byte>, i: nat)
    requires Cursor(m, refs, p, d, i)
    ensures |p| + |d| <= |Bytes(m, refs)| && p <= Bytes(m, refs)
  {
  }

  // ---- Rings ---------------------------------------------------------------------------

  lemma MaskIsAt(start: nat, i: nat, n: nat)
    requires PowerOfTwo(n) && start < n && i <= n
    ensures And(start + i, n - 1) == At(start, i, n) < n
  {
    MaskIsRemainder(start + i, n);
    Remainder(start + i, n, if start + i < n then 0 else 1, At(start, i, n));
  }
}
