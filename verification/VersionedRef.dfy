/** The packed word of VersionedRefWithId: an unsigned 32-bit version above a
    signed 32-bit reference count.

    The step machine works on the two halves.  Bits gives the 64-bit integer
    that the source keeps in one atomic, and the lemmas show that adding and
    subtracting one on that integer is exactly FetchAdd and FetchSub here, the
    carry between the halves included. */
module VRefWord {

  const TWO31: int := 0x8000_0000
  const TWO32: int := 0x1_0000_0000
  const TWO64: int := 0x1_0000_0000_0000_0000

  datatype Halves = Word(version: int, nref: int)

  type Word = w: Halves | 0 <= w.version < TWO32 && -TWO31 <= w.nref < TWO31
    witness Word(0, 0)

  type Ver = v: int | 0 <= v < TWO32

  /** uint32_t increment and decrement of a version. */
  function Up(v: Ver): Ver {
    if v + 1 == TWO32 then 0 else v + 1
  }

  function Down(v: Ver): Ver {
    if v == 0 then TWO32 - 1 else v - 1
  }

  function FetchAdd(w: Word): (r: Word) {
    if w.nref == -1 then Word(Up(w.version), 0)
    else if w.nref == TWO31 - 1 then Word(w.version, -TWO31)
    else Word(w.version, w.nref + 1)
  }

  function FetchSub(w: Word): (r: Word) {
    if w.nref == 0 then Word(Down(w.version), -1)
    else if w.nref == -TWO31 then Word(w.version, TWO31 - 1)
    else Word(w.version, w.nref - 1)
  }

  /** MakeVRef: the count is converted to uint32_t before it is or-ed in. */
  function Bits(w: Word): (b: nat)
    ensures b < TWO64
    ensures b / TWO32 == w.version
    ensures var low := b % TWO32; w.nref == if low < TWO31 then low else low - TWO32
  {
    w.version * TWO32 + if w.nref < 0 then w.nref + TWO32 else w.nref
  }

  /** Comparing packed words in a compare-exchange compares both halves. */
  lemma BitsInjective(w: Word, x: Word)
    ensures Bits(w) == Bits(x) <==> w == x
  {
  }

  lemma FetchAddIsAddition(w: Word)
    ensures Bits(FetchAdd(w)) == (Bits(w) + 1) % TWO64
  {
    if w.nref == -1 {
      assert Bits(w) + 1 == (w.version + 1) * TWO32;
    }
  }

  lemma FetchSubIsSubtraction(w: Word)
    ensures Bits(FetchSub(w)) == (Bits(w) - 1) % TWO64
  {
    if w.nref == 0 {
      assert Bits(w) - 1 == (w.version - 1) * TWO32 + (TWO32 - 1);
    }
  }
}

/** One slot of VersionedRefWithId as a step machine.

    An activity is a call in progress or one held VersionedRefWithIdUniquePtr,
    so a thread that keeps several pointers is several activities, and there
    are any number of them.  Each action is one atomic access of the slot. */
module VersionedRef {
  import opened VRefWord
  import opened Basics
  import opened Counting

  datatype Status = Using | Recycled

  /** gen is the even version under which the generation was created.  own
      says that the activity keeps a reference of its own beside the one it
      is about to drop (or beside none, in Fail*). */
  datatype Pc =
    | Done
    // Create
    | CreateTake                                   // slot taken from the pool, before fetch_add
    | CreateId(ver: Ver)                           // before storing _this_id
    | CreateStatus(ver: Ver)                       // before storing the status
    | CreateInit(ver: Ver)                         // inside OnCreated
    // AddressImpl
    | AddressStart(idVer: Ver, failedToo: bool)
    | AddressMiss(idVer: Ver, ver1: Ver)           // reference taken on a mismatched version
    | AddressCas(expected: Word)                   // saw the count fall 1 -> 0 on an odd version
    // A pointer held by the caller
    | Holder(gen: Ver)
    // SetFailedImpl and ReleaseAdditionalReference
    | FailRead(gen: Ver, own: bool)                // before reading _this_id
    | FailLoad(gen: Ver, own: bool, idVer: Ver)    // before loading the word
    | FailLoop(gen: Ver, own: bool, idVer: Ver, vref: Word)
    | FailRelease(gen: Ver, own: bool)             // won the version, before the status exchange
    // Dereference
    | DerefRead(gen: Ver, own: bool)               // before reading _this_id
    | DerefSub(gen: Ver, own: bool, idVer: Ver)
    | DerefCas(gen: Ver, own: bool, idVer: Ver, expected: Word)
    // BeforeRecycled, before return_resource
    | Recycling(gen: Ver)
    // The CHECK and LOG(FATAL) branches
    | BadRefVersion | OverDereferenced | InvalidId | LostRelease

  /** live and the last two fields are history: whether the current even
      version belongs to a created generation, the ids handed out by Create,
      and how often each generation was returned to the pool. */
  datatype State = State(
    word: Word,
    thisId: Ver,
    status: Status,
    pooled: bool,
    agents: map<nat, Pc>,
    live: bool,
    issued: set<Ver>,
    returned: multiset<Ver>)

  const Init := State(Word(0, 0), 0, Using, true, map[], false, {}, multiset{})

  datatype Action =
    | Take(a: nat)
    | Address(a: nat, idVer: Ver, failedToo: bool)
    | ReAddress(a: nat, b: nat)
    | BeginFail(a: nat)
    | BeginDrop(a: nat)
    | InitOk(a: nat)
    | InitFails(a: nat)
    | Advance(a: nat)

  predicate At(s: State, a: nat, p: Pc -> bool) {
    a in s.agents && p(s.agents[a])
  }

  predicate Fresh(s: State, a: nat) {
    a !in s.agents
  }

  /** Advance is every step that is decided by the program counter alone. */
  predicate Advances(pc: Pc) {
    match pc
    case Done => false
    case CreateInit(_) => false
    case Holder(_) => false
    case BadRefVersion => false
    case OverDereferenced => false
    case InvalidId => false
    case LostRelease => false
    case _ => true
  }

  /** A lookup by this id would succeed now. */
  predicate Matches(s: State, idVer: Ver, failedToo: bool) {
    s.word.version == idVer || (failedToo && s.word.version == Up(idVer))
  }

  /** Any id may be looked up, also one that Create never returned, as long as
      it does not match by accident. */
  predicate Genuine(s: State, pc: Pc) {
    pc.AddressStart? && Matches(s, pc.idVer, pc.failedToo) ==> pc.idVer in s.issued
  }

  predicate Enabled(s: State, act: Action) {
    match act
    case Take(a) => Fresh(s, a) && s.pooled
    case Address(a, _, _) => Fresh(s, a)
    case ReAddress(a, b) => At(s, a, (pc: Pc) => pc.Holder?) && Fresh(s, b)
    case BeginFail(a) => At(s, a, (pc: Pc) => pc.Holder?)
    case BeginDrop(a) => At(s, a, (pc: Pc) => pc.Holder?)
    case InitOk(a) => At(s, a, (pc: Pc) => pc.CreateInit?)
    case InitFails(a) => At(s, a, (pc: Pc) => pc.CreateInit?)
    case Advance(a) => At(s, a, Advances) && Genuine(s, s.agents[a])
  }

  function Go(s: State, a: nat, pc: Pc): State {
    s.(agents := s.agents[a := pc])
  }

  /** What an activity does after Dereference has returned to it. */
  function Return(gen: Ver, own: bool): Pc {
    if own then Holder(gen) else Done
  }

  function Next(s: State, act: Action): State
    requires Enabled(s, act)
  {
    match act
    case Take(a) => Go(s, a, CreateTake).(pooled := false)
    case Address(a, idVer, failedToo) => Go(s, a, AddressStart(idVer, failedToo))
    case ReAddress(a, b) => Go(s, b, Holder(s.agents[a].gen)).(word := FetchAdd(s.word))
    case BeginFail(a) => Go(s, a, FailRead(s.agents[a].gen, true))
    case BeginDrop(a) => Go(s, a, DerefRead(s.agents[a].gen, false))
    case InitOk(a) => Go(s, a, Done).(issued := s.issued + {s.agents[a].ver})
    case InitFails(a) => Go(s, a, FailRead(s.agents[a].ver, false))
    case Advance(a) => Step(s, a, s.agents[a])
  }

  function Step(s: State, a: nat, pc: Pc): State {
    match pc
    case CreateTake => Go(s, a, CreateId(s.word.version)).(word := FetchAdd(s.word), live := true)
    case CreateId(v) => Go(s, a, CreateStatus(v)).(thisId := v)
    case CreateStatus(v) => Go(s, a, CreateInit(v)).(status := Using)
    case AddressStart(idVer, failedToo) => AddressAdd(s, a, idVer, failedToo)
    case AddressMiss(_, ver1) => AddressSub(s, a, ver1)
    case AddressCas(expected) => AddressRecycle(s, a, expected)
    case FailRead(g, own) => Go(s, a, FailLoad(g, own, s.thisId))
    case FailLoad(g, own, idVer) => Go(s, a, FailLoop(g, own, idVer, s.word))
    case FailLoop(g, own, idVer, vref) => FailCas(s, a, g, own, idVer, vref)
    case FailRelease(g, own) =>
      if s.status == Using then Go(s, a, DerefRead(g, own)).(status := Recycled)
      else Go(s, a, LostRelease)
    case DerefRead(g, own) => Go(s, a, DerefSub(g, own, s.thisId))
    case DerefSub(g, own, idVer) => DerefFetchSub(s, a, g, own, idVer)
    case DerefCas(g, own, idVer, expected) => DerefRecycle(s, a, g, own, idVer, expected)
    case Recycling(g) => Go(s, a, Done).(pooled := true, returned := s.returned + multiset{g})
    case _ => s
  }

  function AddressRecycle(s: State, a: nat, expected: Word): State {
    if s.word == expected
    then Go(s, a, Recycling(Down(expected.version))).(word := Word(Up(expected.version), 0))
    else Go(s, a, Done)
  }

  function DerefRecycle(s: State, a: nat, g: Ver, own: bool, idVer: Ver, expected: Word): State {
    if s.word == expected
    then Go(s, a, Recycling(g)).(word := Word(Up(Up(idVer)), 0))
    else Go(s, a, Return(g, own))
  }

  function AddressAdd(s: State, a: nat, idVer: Ver, failedToo: bool): State {
    var t := s.(word := FetchAdd(s.word));
    if Matches(s, idVer, failedToo) then Go(t, a, Holder(idVer))
    else Go(t, a, AddressMiss(idVer, s.word.version))
  }

  function AddressSub(s: State, a: nat, ver1: Ver): State {
    var vref2 := s.word;
    var t := s.(word := FetchSub(s.word));
    if vref2.nref > 1 then Go(t, a, Done)
    else if vref2.nref == 1 then
      var ver2 := vref2.version;
      if ver2 % 2 == 1 then
        if ver1 == ver2 || Up(ver1) == ver2 then Go(t, a, AddressCas(t.word))
        else Go(t, a, BadRefVersion)
      else Go(t, a, Done)
    else Go(t, a, OverDereferenced)
  }

  /** A failed strong compare-exchange reloads the word and loops. */
  function FailCas(s: State, a: nat, g: Ver, own: bool, idVer: Ver, vref: Word): State {
    if vref.version != idVer then Go(s, a, Return(g, own))
    else if s.word == vref then
      Go(s, a, FailRelease(g, own)).(word := Word(Up(idVer), vref.nref), live := false)
    else Go(s, a, FailLoop(g, own, idVer, s.word))
  }

  function DerefFetchSub(s: State, a: nat, g: Ver, own: bool, idVer: Ver): State {
    var vref := s.word;
    var t := s.(word := FetchSub(s.word));
    if vref.nref > 1 then Go(t, a, Return(g, own))
    else if vref.nref == 1 then
      var ver := vref.version;
      if ver == idVer || ver == Up(idVer) then Go(t, a, DerefCas(g, own, idVer, t.word))
      else Go(t, a, InvalidId)
    else Go(t, a, OverDereferenced)
  }

  // ---- References -----------------------------------------------------------

  /** The activity has a reference that its next step does not give up, or a
      transient one taken by a mismatched Address. */
  predicate Keeps(pc: Pc) {
    match pc
    case Holder(_) => true
    case AddressMiss(_, _) => true
    case FailRead(_, own) => own
    case FailLoad(_, own, _) => own
    case FailLoop(_, own, _, _) => own
    case FailRelease(_, own) => own
    case DerefRead(_, own) => own
    case DerefSub(_, own, _) => own
    case DerefCas(_, own, _, _) => own
    case _ => false
  }

  /** The activity has a reference on its way to Dereference's fetch_sub. */
  predicate Drops(pc: Pc) {
    pc.FailRelease? || pc.DerefRead? || pc.DerefSub?
  }

  /** All references to the slot: those of activities and, until SetFailed
      wins, the additional one that Create added. */
  ghost function References(s: State): nat {
    Count(s.agents, Keeps) + Count(s.agents, Drops) + Bit(s.live)
  }

  /** Fewer than 2^31 references and no version wrap. */
  ghost predicate Bounded(s: State) {
    References(s) + 2 < TWO31 && s.word.version + 3 < TWO32
  }

  // ---- Invariant ------------------------------------------------------------

  /** gen is the generation now on the slot: created and not yet recycled. */
  predicate Current(s: State, gen: Ver) {
    && gen in s.issued
    && s.thisId == gen
    && ((s.live && s.word.version == gen) || s.word.version == gen + 1)
  }

  /** Activities that are alone with the slot. */
  predicate Solo(pc: Pc) {
    match pc
    case CreateTake => true
    case CreateId(_) => true
    case CreateStatus(_) => true
    case CreateInit(_) => true
    case FailRead(_, own) => !own
    case FailLoad(_, own, _) => !own
    case FailLoop(_, own, _, _) => !own
    case Recycling(_) => true
    case _ => false
  }

  predicate Unissued(s: State, v: Ver) {
    s.live && s.word.version == v && v !in s.issued
  }

  predicate FailOk(s: State, gen: Ver, own: bool) {
    if own then Current(s, gen)
    else Unissued(s, gen) && s.thisId == gen && s.status == Using
  }

  predicate PcOk(s: State, pc: Pc) {
    var v := s.word.version;
    match pc
    case Done => true
    case CreateTake => !s.live && v % 2 == 0
    case CreateId(ver) => Unissued(s, ver)
    case CreateStatus(ver) => Unissued(s, ver) && s.thisId == ver
    case CreateInit(ver) => Unissued(s, ver) && s.thisId == ver && s.status == Using
    case AddressStart(_, _) => true
    case AddressMiss(_, ver1) => ver1 == v || (v % 2 == 1 && ver1 + 1 == v)
    case AddressCas(expected) => expected.version % 2 == 1 && expected.version <= v && expected.nref == 0
    case Holder(g) => Current(s, g)
    case FailRead(g, own) => FailOk(s, g, own)
    case FailLoad(g, own, idVer) => FailOk(s, g, own) && idVer == g
    case FailLoop(g, own, idVer, vref) => FailOk(s, g, own) && idVer == g && (!own ==> vref.version == g)
    case FailRelease(g, own) => DropOk(s, g, own) && v == g + 1 && s.status == Using
    case DerefRead(g, own) => DropOk(s, g, own)
    case DerefSub(g, own, idVer) => DropOk(s, g, own) && idVer == g
    case DerefCas(g, own, idVer, expected) =>
      !own && idVer == g && g % 2 == 0 && g + 1 <= v && expected.version == g + 1 && expected.nref == 0
    case Recycling(g) => !s.live && !s.pooled && v == g + 2 && v % 2 == 0 && s.returned[g] == 0
    case _ => false
  }

  /** The generation a reference being dropped belongs to.  The generation of
      a Create that failed before its id was handed out has no other holder. */
  predicate DropOk(s: State, gen: Ver, own: bool) {
    if own then Current(s, gen)
    else Current(s, gen) || (s.thisId == gen && gen % 2 == 0 && s.word.version == gen + 1)
  }

  ghost predicate SoloAlone(s: State) {
    && Count(s.agents, Solo) <= 1
    && (s.pooled ==> Count(s.agents, Solo) == 0)
  }

  ghost predicate PoolOk(s: State) {
    && (s.pooled ==> !s.live && s.word.version % 2 == 0)
    && (s.live ==> s.word.version % 2 == 0)
    && (s.word.version % 2 == 1 ==> s.thisId + 1 == s.word.version)
    && (!s.live && s.word.version % 2 == 0 && !s.pooled ==> Count(s.agents, Solo) == 1)
  }

  ghost predicate IssuedOk(s: State) {
    && (forall g :: g in s.issued ==> g % 2 == 0 && g <= s.word.version && (g == s.word.version ==> s.live))
    && (s.live && s.word.version in s.issued ==> s.thisId == s.word.version && s.status == Using)
    && (s.live && s.word.version !in s.issued ==> Count(s.agents, Solo) == 1)
  }

  /** Somebody is about to try the recycling exchange on exactly this word. */
  predicate TriesRecycle(pc: Pc, w: Word) {
    (pc.AddressCas? || pc.DerefCas?) && pc.expected == w
  }

  ghost predicate NotStranded(s: State) {
    s.word.version % 2 == 1 && s.word.nref == 0 ==>
      exists a :: a in s.agents && TriesRecycle(s.agents[a], s.word)
  }

  predicate IsReturning(pc: Pc, g: Ver) {
    pc == Recycling(g)
  }

  /** Every generation below the current one was returned exactly once, or is
      being returned now; no other was. */
  ghost predicate ReturnedOk(s: State) {
    && (forall g :: g in s.returned ==> g % 2 == 0 && g + 2 <= s.word.version && s.returned[g] == 1)
    && (forall g: Ver :: g % 2 == 0 && g + 2 <= s.word.version ==>
          g in s.returned || exists a :: a in s.agents && IsReturning(s.agents[a], g))
  }

  ghost predicate OneWinner(s: State) {
    Count(s.agents, (pc: Pc) => pc.FailRelease?) <= 1
  }

  ghost predicate PcsOk(s: State) {
    forall a :: a in s.agents ==> PcOk(s, s.agents[a])
  }

  ghost predicate Inv(s: State) {
    && s.word.nref == References(s)
    && PcsOk(s)
    && SoloAlone(s)
    && PoolOk(s)
    && IssuedOk(s)
    && OneWinner(s)
    && NotStranded(s)
    && ReturnedOk(s)
  }

  // ---- Every step keeps the invariant ----------------------------------------

  lemma Counts(s: State, a: nat, pc: Pc)
    ensures var m := s.agents[a := pc]; var was := if a in s.agents then s.agents[a] else Done;
      && Count(m, Keeps) == Count(s.agents, Keeps) - Bit(Keeps(was)) + Bit(Keeps(pc))
      && Count(m, Drops) == Count(s.agents, Drops) - Bit(Drops(was)) + Bit(Drops(pc))
      && Count(m, Solo) == Count(s.agents, Solo) - Bit(Solo(was)) + Bit(Solo(pc))
      && Count(m, (pc: Pc) => pc.FailRelease?) ==
           Count(s.agents, (pc: Pc) => pc.FailRelease?) - Bit(was.FailRelease?) + Bit(pc.FailRelease?)
  {
    CountMoves(s.agents, a, pc, Keeps);
    CountMoves(s.agents, a, pc, Drops);
    CountMoves(s.agents, a, pc, Solo);
    CountMoves(s.agents, a, pc, (pc: Pc) => pc.FailRelease?);
  }

  /** A step of a that is not itself a recycling attempt keeps the witness. */
  lemma NotStrandedKept(s: State, t: State, a: nat, pc: Pc)
    requires NotStranded(s) && t.agents == s.agents[a := pc] && t.word == s.word
    requires a in s.agents ==> !TriesRecycle(s.agents[a], s.word)
    ensures NotStranded(t)
  {
    if s.word.version % 2 == 1 && s.word.nref == 0 {
      var b :| b in s.agents && TriesRecycle(s.agents[b], s.word);
      assert b in t.agents && TriesRecycle(t.agents[b], t.word);
    }
  }

  lemma ReturnedKept(s: State, t: State, a: nat, pc: Pc)
    requires ReturnedOk(s) && t.agents == s.agents[a := pc] && t.returned == s.returned
    requires t.word.version == s.word.version && (a in s.agents ==> !s.agents[a].Recycling?)
    ensures ReturnedOk(t)
  {
    forall g: Ver | g % 2 == 0 && g + 2 <= t.word.version && g !in t.returned
      ensures exists b :: b in t.agents && IsReturning(t.agents[b], g)
    {
      var b :| b in s.agents && IsReturning(s.agents[b], g);
      assert b in t.agents && IsReturning(t.agents[b], g);
    }
  }

  ghost function Was(s: State, a: nat): Pc {
    if a in s.agents then s.agents[a] else Done
  }

  /** A step that moves one activity and at most the count. */
  ghost predicate Quiet(s: State, t: State, a: nat, pc: Pc) {
    && t == s.(agents := s.agents[a := pc], word := Word(s.word.version, t.word.nref))
    && t.word.nref == s.word.nref + Bit(Keeps(pc)) + Bit(Drops(pc)) - Bit(Keeps(Was(s, a))) - Bit(Drops(Was(s, a)))
    && Solo(pc) == Solo(Was(s, a))
    && !pc.FailRelease?
    && !Was(s, a).Recycling?
  }

  /** What a program counter may assume does not depend on the count. */
  lemma PcOkFrame(s: State, t: State, pc: Pc)
    requires t == s.(agents := t.agents, word := Word(s.word.version, t.word.nref))
    ensures PcOk(t, pc) == PcOk(s, pc)
  {
  }

  lemma QuietKeepsPcs(s: State, t: State, a: nat, pc: Pc)
    requires PcsOk(s) && Quiet(s, t, a, pc) && PcOk(s, pc)
    ensures PcsOk(t)
  {
    forall b | b in t.agents ensures PcOk(t, t.agents[b]) {
      PcOkFrame(s, t, t.agents[b]);
    }
  }

  lemma QuietKeepsInv(s: State, t: State, a: nat, pc: Pc)
    requires Inv(s) && Quiet(s, t, a, pc) && PcOk(s, pc) && NotStranded(t)
    ensures Inv(t)
  {
    QuietKeepsPcs(s, t, a, pc);
    Counts(s, a, pc);
    ReturnedKept(s, t, a, pc);
  }

  // Steps that only move the count or nothing of the slot.

  lemma BeginKeepsInv(s: State, act: Action)
    requires Inv(s) && Bounded(s) && Enabled(s, act)
    requires act.Address? || act.BeginFail? || act.BeginDrop? || act.InitFails?
    ensures Inv(Next(s, act))
  {
    var t := Next(s, act);
    NotStrandedKept(s, t, act.a, t.agents[act.a]);
    assert PcOk(s, Was(s, act.a));
    hide Inv, References;
    QuietKeepsInv(s, t, act.a, t.agents[act.a]);
  }

  lemma ReAddressKeepsInv(s: State, a: nat, b: nat)
    requires Inv(s) && Bounded(s) && Enabled(s, ReAddress(a, b))
    ensures Inv(Next(s, ReAddress(a, b)))
  {
    var t := Next(s, ReAddress(a, b));
    assert PcOk(s, s.agents[a]);
    QuietKeepsInv(s, t, b, t.agents[b]);
  }

  ghost predicate Ready(s: State, a: nat, pc: Pc) {
    Inv(s) && Bounded(s) && a in s.agents && s.agents[a] == pc
  }

  lemma AddressAddKeepsInv(s: State, a: nat, idVer: Ver, failedToo: bool)
    requires Ready(s, a, AddressStart(idVer, failedToo)) && (Matches(s, idVer, failedToo) ==> idVer in s.issued)
    ensures Inv(AddressAdd(s, a, idVer, failedToo))
  {
    var t := AddressAdd(s, a, idVer, failedToo);
    assert PcOk(s, s.agents[a]);
    QuietKeepsInv(s, t, a, t.agents[a]);
  }

  lemma AddressSubKeepsInv(s: State, a: nat, idVer: Ver, ver1: Ver)
    requires Ready(s, a, AddressMiss(idVer, ver1))
    ensures Inv(AddressSub(s, a, ver1))
  {
    var t := AddressSub(s, a, ver1);
    assert PcOk(s, s.agents[a]);
    assert s.word.nref >= 1 by { CountZero(s.agents, Keeps); }
    assert t.agents[a].AddressCas? ==> TriesRecycle(t.agents[a], t.word);
    QuietKeepsInv(s, t, a, t.agents[a]);
  }

  lemma DerefSubKeepsInv(s: State, a: nat, g: Ver, own: bool, idVer: Ver)
    requires Ready(s, a, DerefSub(g, own, idVer))
    ensures Inv(DerefFetchSub(s, a, g, own, idVer))
  {
    var t := DerefFetchSub(s, a, g, own, idVer);
    assert PcOk(s, s.agents[a]);
    CountZero(s.agents, Drops);
    CountZero(s.agents, Keeps);
    assert s.word.nref >= 1 + Bit(own) + Bit(s.live);
    hide Inv, References;
    assert t.agents[a].DerefCas? ==> TriesRecycle(t.agents[a], t.word);
    QuietKeepsInv(s, t, a, t.agents[a]);
  }

  /** Reads, and compare-exchanges that fail. */
  lemma LocalKeepsInv(s: State, a: nat, pc: Pc)
    requires Ready(s, a, pc) && Step(s, a, pc).word == s.word && !Step(s, a, pc).agents[a].Recycling?
    requires pc.AddressCas? || pc.FailRead? || pc.FailLoad? || pc.FailLoop? || pc.DerefRead? || pc.DerefCas?
    ensures Inv(Step(s, a, pc))
  {
    hide Inv, References, NotStranded;
    var t := Step(s, a, pc);
    PcAt(s, a);
    NotStrandedKept(s, t, a, t.agents[a]);
    QuietKeepsInv(s, t, a, t.agents[a]);
  }

  lemma PcAt(s: State, a: nat)
    requires Inv(s) && a in s.agents
    ensures PcOk(s, s.agents[a]) && NotStranded(s)
  {
  }

  // Steps that move the slot from one phase to the next.

  lemma TakeKeepsInv(s: State, a: nat)
    requires Inv(s) && Bounded(s) && Enabled(s, Take(a))
    ensures Inv(Next(s, Take(a)))
  {
    var t := Next(s, Take(a));
    Counts(s, a, CreateTake);
    CountZero(s.agents, Solo);
    NotStrandedKept(s, t, a, CreateTake);
    ReturnedKept(s, t, a, CreateTake);
  }

  /** Only the activity that is alone with the slot sees it change phase. */
  lemma OthersNotSolo(s: State, a: nat, b: nat)
    requires Inv(s) && a in s.agents && Solo(s.agents[a]) && b in s.agents && b != a
    ensures !Solo(s.agents[b])
  {
    if Solo(s.agents[b]) { CountOne(s.agents, Solo, a, b); }
  }

  lemma CreateStepKeepsPcs(s: State, a: nat, b: nat, pc: Pc)
    requires Ready(s, a, pc) && (pc.CreateTake? || pc.CreateId? || pc.CreateStatus?)
    requires b in s.agents
    ensures var t := Step(s, a, pc); PcOk(t, t.agents[b])
  {
    assert PcOk(s, pc) && PcOk(s, s.agents[b]);
    if b != a { OthersNotSolo(s, a, b); }
  }

  lemma CreateStepKeepsInv(s: State, a: nat, pc: Pc)
    requires Ready(s, a, pc) && (pc.CreateTake? || pc.CreateId? || pc.CreateStatus?)
    ensures Inv(Step(s, a, pc))
  {
    var t := Step(s, a, pc);
    assert PcOk(s, pc);
    Counts(s, a, t.agents[a]);
    CountZero(s.agents, Solo);
    ReturnedKept(s, t, a, t.agents[a]);
    if !pc.CreateTake? { NotStrandedKept(s, t, a, t.agents[a]); }
    forall b | b in t.agents ensures PcOk(t, t.agents[b]) { CreateStepKeepsPcs(s, a, b, pc); }
  }

  lemma InitOkKeepsInv(s: State, a: nat)
    requires Inv(s) && Bounded(s) && Enabled(s, InitOk(a))
    ensures Inv(Next(s, InitOk(a)))
  {
    var t := Next(s, InitOk(a));
    assert PcOk(s, s.agents[a]);
    Counts(s, a, Done);
    CountZero(s.agents, Solo);
    NotStrandedKept(s, t, a, Done);
    ReturnedKept(s, t, a, Done);
    forall b | b in t.agents ensures PcOk(t, t.agents[b]) {
      if b != a { OthersNotSolo(s, a, b); }
      assert PcOk(s, s.agents[b]);
    }
  }

  // SetFailed wins the version.

  lemma WinKeepsPcs(s: State, a: nat, b: nat, g: Ver, own: bool)
    requires Ready(s, a, FailLoop(g, own, g, s.word)) && s.word.version == g && b in s.agents && b != a
    ensures PcOk(FailCas(s, a, g, own, g, s.word), s.agents[b])
  {
    assert PcOk(s, s.agents[a]) && PcOk(s, s.agents[b]);
    if !own { OthersNotSolo(s, a, b); }
  }

  lemma WinKeepsInv(s: State, a: nat, g: Ver, own: bool)
    requires Ready(s, a, FailLoop(g, own, g, s.word)) && s.word.version == g
    ensures Inv(FailCas(s, a, g, own, g, s.word))
  {
    var t := FailCas(s, a, g, own, g, s.word);
    assert PcOk(s, s.agents[a]);
    Counts(s, a, FailRelease(g, own));
    CountZero(s.agents, (pc: Pc) => pc.FailRelease?);
    forall b | b in s.agents ensures !s.agents[b].FailRelease? { assert PcOk(s, s.agents[b]); }
    forall b | b in t.agents ensures PcOk(t, t.agents[b]) {
      if b != a { WinKeepsPcs(s, a, b, g, own); }
    }
    ReturnedMonotone(s, t, a, FailRelease(g, own));
  }

  /** From even to odd no further generation becomes due. */
  lemma ReturnedMonotone(s: State, t: State, a: nat, pc: Pc)
    requires ReturnedOk(s) && t.agents == s.agents[a := pc] && t.returned == s.returned
    requires s.word.version % 2 == 0 && t.word.version == s.word.version + 1
    requires a in s.agents && !s.agents[a].Recycling?
    ensures ReturnedOk(t)
  {
    forall g: Ver | g % 2 == 0 && g + 2 <= t.word.version && g !in t.returned
      ensures exists b :: b in t.agents && IsReturning(t.agents[b], g)
    {
      var b :| b in s.agents && IsReturning(s.agents[b], g);
      assert b in t.agents && IsReturning(t.agents[b], g);
    }
  }

  lemma ReleaseKeepsInv(s: State, a: nat, g: Ver, own: bool)
    requires Ready(s, a, FailRelease(g, own))
    ensures Inv(Step(s, a, FailRelease(g, own)))
  {
    var t := Step(s, a, FailRelease(g, own));
    assert PcOk(s, s.agents[a]);
    Counts(s, a, DerefRead(g, own));
    NotStrandedKept(s, t, a, DerefRead(g, own));
    ReturnedKept(s, t, a, DerefRead(g, own));
    forall b | b in t.agents ensures PcOk(t, t.agents[b]) {
      assert PcOk(s, s.agents[b]);
      if b != a && s.agents[b].FailRelease? { CountOne(s.agents, (pc: Pc) => pc.FailRelease?, a, b); }
    }
  }

  // One of those who saw the count fall to zero recycles the slot.

  /** Nobody but bystanders can be there when the exchange succeeds. */
  lemma ZeroMeansBystanders(s: State, b: nat)
    requires Inv(s) && s.word.version % 2 == 1 && s.word.nref == 0 && b in s.agents
    ensures var pc := s.agents[b]; pc.Done? || pc.AddressStart? || pc.AddressCas? || pc.DerefCas?
  {
    assert PcOk(s, s.agents[b]);
    CountZero(s.agents, Keeps);
    CountZero(s.agents, Drops);
  }

  lemma RecycleKeepsInv(s: State, t: State, a: nat, g: Ver)
    requires Inv(s) && Bounded(s) && a in s.agents && s.word == Word(g + 1, 0) && g % 2 == 0
    requires t == s.(agents := s.agents[a := Recycling(g)], word := Word(g + 2, 0))
    ensures Inv(t)
  {
    ZeroMeansBystanders(s, a);
    Counts(s, a, Recycling(g));
    CountZero(s.agents, Solo);
    forall b | b in s.agents ensures !Solo(s.agents[b]) { ZeroMeansBystanders(s, b); }
    forall b | b in t.agents ensures PcOk(t, t.agents[b]) {
      if b != a { ZeroMeansBystanders(s, b); assert PcOk(s, s.agents[b]); }
    }
    RecycleKeepsReturned(s, t, a, g);
  }

  lemma RecycleKeepsReturned(s: State, t: State, a: nat, g: Ver)
    requires Inv(s) && a in s.agents && s.word == Word(g + 1, 0) && g % 2 == 0 && g + 2 < TWO32
    requires t == s.(agents := s.agents[a := Recycling(g)], word := Word(g + 2, 0))
    ensures ReturnedOk(t)
  {
    forall h: Ver | h % 2 == 0 && h + 2 <= t.word.version && h != g
      ensures h in t.returned
    {
      forall b | b in s.agents ensures !IsReturning(s.agents[b], h) { ZeroMeansBystanders(s, b); }
    }
    assert IsReturning(t.agents[a], g);
  }

  lemma ReturnKeepsInv(s: State, a: nat, g: Ver)
    requires Ready(s, a, Recycling(g))
    ensures Inv(Step(s, a, Recycling(g)))
  {
    var t := Step(s, a, Recycling(g));
    assert PcOk(s, s.agents[a]);
    Counts(s, a, Done);
    NotStrandedKept(s, t, a, Done);
    forall b | b in t.agents ensures PcOk(t, t.agents[b]) {
      assert PcOk(s, s.agents[b]);
      if b != a { OthersNotSolo(s, a, b); }
    }
    forall h: Ver | h % 2 == 0 && h + 2 <= t.word.version
      ensures h in t.returned
    {
      assert forall b :: b in s.agents && IsReturning(s.agents[b], h) ==> h == g;
    }
  }

  lemma StepKeepsInv(s: State, a: nat, pc: Pc)
    requires Ready(s, a, pc) && Advances(pc) && Genuine(s, pc)
    ensures Inv(Step(s, a, pc))
  {
    hide Inv, References;
    PcAt(s, a);
    match pc {
      case CreateTake => CreateStepKeepsInv(s, a, pc);
      case CreateId(_) => CreateStepKeepsInv(s, a, pc);
      case CreateStatus(_) => CreateStepKeepsInv(s, a, pc);
      case AddressStart(idVer, failedToo) => AddressAddKeepsInv(s, a, idVer, failedToo);
      case AddressMiss(idVer, ver1) => AddressSubKeepsInv(s, a, idVer, ver1);
      case AddressCas(expected) =>
        if s.word == expected { RecycleKeepsInv(s, Step(s, a, pc), a, expected.version - 1); }
        else { LocalKeepsInv(s, a, pc); }
      case FailLoop(g, own, idVer, vref) =>
        if vref.version == idVer && s.word == vref { WinKeepsInv(s, a, g, own); }
        else { LocalKeepsInv(s, a, pc); }
      case FailRelease(g, own) => ReleaseKeepsInv(s, a, g, own);
      case DerefSub(g, own, idVer) => DerefSubKeepsInv(s, a, g, own, idVer);
      case DerefCas(g, own, idVer, expected) =>
        if s.word == expected { RecycleKeepsInv(s, Step(s, a, pc), a, g); }
        else { LocalKeepsInv(s, a, pc); }
      case Recycling(g) => ReturnKeepsInv(s, a, g);
      case _ => LocalKeepsInv(s, a, pc);
    }
  }

  lemma NextKeepsInv(s: State, act: Action)
    requires Inv(s) && Bounded(s) && Enabled(s, act)
    ensures Inv(Next(s, act))
  {
    match act {
      case Take(a) => TakeKeepsInv(s, a);
      case ReAddress(a, b) => ReAddressKeepsInv(s, a, b);
      case InitOk(a) => InitOkKeepsInv(s, a);
      case Advance(a) => StepKeepsInv(s, a, s.agents[a]);
      case _ => BeginKeepsInv(s, act);
    }
  }

  /** Between the pool and a creation, on either way. */
  predicate InTransit(pc: Pc) {
    pc.CreateTake? || pc.Recycling?
  }

  /** A pointer to generation gen whose slot is in the pool, on its way there or
      out of it, or of another generation. */
  ghost predicate Astray(s: State, gen: Ver) {
    || s.pooled || (exists b :: b in s.agents && InTransit(s.agents[b]))
    || !(gen % 2 == 0 && (s.word.version == gen || s.word.version == gen + 1))
  }

  /** A lookup that matches gets a pointer that is not astray if and only if the
      id is even and, unless it is the id of a failed generation, a generation
      was created under it and is still there. */
  lemma LookupIsSafeExactly(s: State, a: nat, idVer: Ver, failedToo: bool)
    requires Ready(s, a, AddressStart(idVer, failedToo)) && Matches(s, idVer, failedToo)
    ensures var t := AddressAdd(s, a, idVer, failedToo);
      t.agents[a] == Holder(idVer) && (Astray(t, idVer) <==> !(idVer % 2 == 0 && (s.word.version == idVer ==> s.live)))
  {
    var t := AddressAdd(s, a, idVer, failedToo);
    assert s.word.version + 3 < TWO32;
    hide Inv, Bounded, References;
    if s.live || s.word.version % 2 == 1 {
      CreatedIsSettled(s);
      assert forall b :: b in t.agents ==> t.agents[b] == Holder(idVer) || (b in s.agents && t.agents[b] == s.agents[b]);
    } else if !s.pooled {
      var b := SomeInTransit(s);
      assert b != a && b in t.agents && InTransit(t.agents[b]);
    }
  }

  lemma CreatedIsSettled(s: State)
    requires Inv(s) && (s.live || s.word.version % 2 == 1)
    ensures !s.pooled && forall b :: b in s.agents ==> !InTransit(s.agents[b])
  {
    forall b | b in s.agents ensures !InTransit(s.agents[b]) { assert PcOk(s, s.agents[b]); }
  }

  lemma SomeInTransit(s: State) returns (b: nat)
    requires Inv(s) && !s.live && s.word.version % 2 == 0 && !s.pooled
    ensures b in s.agents && InTransit(s.agents[b])
  {
    b := Witness(s.agents, Solo);
    assert PcOk(s, s.agents[b]);
  }

  /** Looking the first version up before anybody created anything: the caller
      holds a slot that is still in the pool. */
  lemma ForgedIdHoldsAPooledSlot()
    ensures Enabled(Init, Address(1, 0, false))
    ensures var t := AddressAdd(Next(Init, Address(1, 0, false)), 1, 0, false);
      t.agents[1] == Holder(0) && t.pooled && t.issued == {}
  {
  }

  // ---- Whole runs -------------------------------------------------------------

  ghost predicate StepAt(run: seq<State>, acts: seq<Action>, i: nat)
    requires |run| == |acts| + 1 && i < |acts|
  {
    Bounded(run[i]) && Enabled(run[i], acts[i]) && run[i + 1] == Next(run[i], acts[i])
  }

  ghost predicate IsRun(run: seq<State>, acts: seq<Action>) {
    && |run| == |acts| + 1
    && run[0] == Init
    && forall i: nat :: i < |acts| ==> StepAt(run, acts, i)
  }

  lemma {:induction false} RunKeepsInv(run: seq<State>, acts: seq<Action>, i: nat)
    requires IsRun(run, acts) && i < |run|
    ensures Inv(run[i])
  {
    if i == 0 {
      assert Those(Init.agents, Keeps) == {} && Those(Init.agents, Drops) == {};
      assert Those(Init.agents, Solo) == {} && Those(Init.agents, (pc: Pc) => pc.FailRelease?) == {};
    } else {
      RunKeepsInv(run, acts, i - 1);
      assert StepAt(run, acts, i - 1);
      NextKeepsInv(run[i - 1], acts[i - 1]);
    }
  }

  /** The activity has a usable pointer to generation g. */
  predicate HoldsPointer(pc: Pc, g: Ver) {
    Keeps(pc) && !pc.AddressMiss? && pc.gen == g
  }

  /** While any pointer to a generation is held the slot is neither in the
      pool nor being recycled, it still carries that generation's id, and the
      generation was never returned. */
  lemma HeldIsNotRecycled(run: seq<State>, acts: seq<Action>, i: nat, a: nat, b: nat, g: Ver)
    requires IsRun(run, acts) && i < |run|
    requires a in run[i].agents && HoldsPointer(run[i].agents[a], g)
    ensures !run[i].pooled && run[i].thisId == g && g !in run[i].returned
    ensures b in run[i].agents ==> !run[i].agents[b].Recycling? && !run[i].agents[b].CreateTake?
  {
    var s := run[i];
    RunKeepsInv(run, acts, i);
    assert PcOk(s, s.agents[a]);
    if b in s.agents { assert PcOk(s, s.agents[b]); }
  }

  /** No generation is ever handed back twice. */
  lemma ReturnedAtMostOnce(run: seq<State>, acts: seq<Action>, i: nat, g: Ver)
    requires IsRun(run, acts) && i < |run|
    ensures run[i].returned[g] <= 1
  {
    RunKeepsInv(run, acts, i);
  }

  /** When the slot is handed back every remaining reference is a transient
      one of a mismatched Address. */
  lemma ReturnedUnreferenced(run: seq<State>, acts: seq<Action>, i: nat, a: nat, g: Ver)
    requires IsRun(run, acts) && i < |run| && a in run[i].agents && run[i].agents[a] == Recycling(g)
    ensures run[i].word.nref == Count(run[i].agents, (pc: Pc) => pc.AddressMiss?) && g !in run[i].returned
  {
    RunKeepsInv(run, acts, i);
    RecyclingIsUnreferenced(run[i], a, g);
  }

  lemma RecyclingIsUnreferenced(s: State, a: nat, g: Ver)
    requires Inv(s) && a in s.agents && s.agents[a] == Recycling(g)
    ensures s.word.nref == Count(s.agents, (pc: Pc) => pc.AddressMiss?) && g !in s.returned
  {
    assert PcOk(s, s.agents[a]);
    hide SoloAlone, PoolOk, IssuedOk, OneWinner, NotStranded, ReturnedOk;
    forall b | b in s.agents
      ensures !Drops(s.agents[b]) && (Keeps(s.agents[b]) ==> s.agents[b].AddressMiss?)
    {
      assert PcOk(s, s.agents[b]);
    }
    assert Those(s.agents, Keeps) == Those(s.agents, (pc: Pc) => pc.AddressMiss?);
    CountZero(s.agents, Drops);
  }

  lemma {:induction false} VersionsGrow(run: seq<State>, acts: seq<Action>, i: nat, j: nat)
    requires IsRun(run, acts) && i <= j < |run|
    ensures run[i].word.version <= run[j].word.version
  {
    if i < j {
      VersionsGrow(run, acts, i, j - 1);
      RunStepNeverGoesBack(run, acts, j - 1);
    }
  }

  lemma RunStepNeverGoesBack(run: seq<State>, acts: seq<Action>, i: nat)
    requires IsRun(run, acts) && i < |acts|
    ensures run[i].word.version <= run[i + 1].word.version
  {
    RunKeepsInv(run, acts, i);
    assert StepAt(run, acts, i);
    NextNeverGoesBack(run[i], acts[i]);
  }

  lemma NextNeverGoesBack(s: State, act: Action)
    requires Inv(s) && Bounded(s) && Enabled(s, act)
    ensures s.word.version <= Next(s, act).word.version
  {
    if act.Advance? {
      assert PcOk(s, s.agents[act.a]);
      CountZero(s.agents, Keeps);
      CountZero(s.agents, Drops);
    }
  }

  /** Inside SetFailed on generation g, before its outcome is known. */
  predicate Deciding(pc: Pc, g: Ver, version: int) {
    match pc
    case FailRead(gen, _) => gen == g
    case FailLoad(gen, _, idVer) => gen == g && idVer == g
    case FailLoop(gen, _, idVer, vref) => gen == g && idVer == g && g <= vref.version <= version
    case _ => false
  }

  lemma DecidingOwnStep(s: State, a: nat, g: Ver)
    requires a in s.agents && Deciding(s.agents[a], g, s.word.version) && PcOk(s, s.agents[a])
    requires s.word.version < TWO32 - 3
    ensures var t := Step(s, a, s.agents[a]);
      a in t.agents && (Deciding(t.agents[a], g, t.word.version) || t.word.version > g)
  {}

  lemma StepMovesItself(s: State, a: nat, pc: Pc, b: nat)
    requires b in s.agents && a != b
    ensures b in Step(s, a, pc).agents && Step(s, a, pc).agents[b] == s.agents[b]
  {
    hide FetchAdd, FetchSub, Matches, Up, Down, Return;
  }

  lemma OthersStay(s: State, act: Action, a: nat)
    requires Enabled(s, act) && a in s.agents && act.a != a
    ensures a in Next(s, act).agents && Next(s, act).agents[a] == s.agents[a]
  {
    hide Step, FetchAdd, Genuine, Advances;
    if act.Advance? { StepMovesItself(s, act.a, s.agents[act.a], a); }
  }

  lemma DecidingStep(s: State, act: Action, a: nat, g: Ver)
    requires Inv(s) && Bounded(s) && Enabled(s, act) && a in s.agents && Deciding(s.agents[a], g, s.word.version)
    ensures var t := Next(s, act);
      a in t.agents && (Deciding(t.agents[a], g, t.word.version) || t.word.version > g)
  {
    NextNeverGoesBack(s, act);
    assert PcOk(s, s.agents[a]);
    hide Inv, Bounded, PcOk, Step;
    if act.a != a {
      OthersStay(s, act, a);
    } else {
      DecidingOwnStep(s, a, g);
    }
  }

  /** At step i activity a calls SetFailed on generation g: it holds a pointer to
      it, or it is Create, whose initialisation of the object failed. */
  predicate FailBegins(run: seq<State>, acts: seq<Action>, i: nat, a: nat, g: Ver)
    requires |run| == |acts| + 1 && i < |acts|
  {
    a in run[i].agents
    && ((acts[i] == BeginFail(a) && run[i].agents[a] == Holder(g))
        || (acts[i] == InitFails(a) && run[i].agents[a] == CreateInit(g)))
  }

  lemma {:induction false} DecidedOrFailed(run: seq<State>, acts: seq<Action>, i: nat, j: nat, a: nat, g: Ver)
    requires IsRun(run, acts) && i < j < |run| && FailBegins(run, acts, i, a, g)
    ensures run[j].word.version > g || (a in run[j].agents && Deciding(run[j].agents[a], g, run[j].word.version))
  {
    assert StepAt(run, acts, j - 1);
    if j - 1 > i {
      DecidedOrFailed(run, acts, i, j - 1, a, g);
      RunKeepsInv(run, acts, j - 1);
      RunStepNeverGoesBack(run, acts, j - 1);
      hide Inv, Bounded, Next;
      if run[j - 1].word.version <= g { DecidingStep(run[j - 1], acts[j - 1], a, g); }
    }
  }

  /** The call has returned, to a caller that keeps its pointer or not. */
  predicate Returned(s: State, a: nat, g: Ver) {
    a in s.agents && (s.agents[a] == Holder(g) || s.agents[a] == Done)
  }

  /** SetFailed takes effect: when it has returned, the generation has failed,
      by this call or by another one. */
  lemma SetFailedFails(run: seq<State>, acts: seq<Action>, i: nat, j: nat, a: nat, g: Ver)
    requires IsRun(run, acts) && i < j < |run| && FailBegins(run, acts, i, a, g)
    requires Returned(run[j], a, g)
    ensures run[j].word.version > g
  {
    DecidedOrFailed(run, acts, i, j, a, g);
  }

  /** Step k of a run takes the slot's version from v to the next one: SetFailed
      on generation v when v is even, its recycling when v is odd. */
  predicate LeavesAt(run: seq<State>, acts: seq<Action>, k: nat, v: Ver)
    requires |run| == |acts| + 1 && k < |acts|
  {
    run[k].word.version == v && run[k + 1].word.version == v + 1
  }

  predicate NeverLeaves(run: seq<State>, acts: seq<Action>, i: nat, j: nat, v: Ver)
    requires |run| == |acts| + 1 && i <= j <= |acts|
  {
    forall k: nat :: i <= k < j ==> !LeavesAt(run, acts, k, v)
  }

  lemma RunStepOneVersion(run: seq<State>, acts: seq<Action>, k: nat)
    requires IsRun(run, acts) && k < |acts|
    ensures run[k + 1].word.version <= run[k].word.version + 1
  {
    RunKeepsInv(run, acts, k);
    assert StepAt(run, acts, k);
    hide Inv, Bounded, Enabled, Next;
    OneVersionAtATime(run[k], acts[k]);
  }

  lemma {:induction false} PassesThrough(run: seq<State>, acts: seq<Action>, i: nat, j: nat, g: Ver) returns (k: nat)
    requires IsRun(run, acts) && i <= j < |run| && run[i].word.version <= g < run[j].word.version
    ensures i <= k < j && LeavesAt(run, acts, k, g)
  {
    hide StepAt, Inv;
    if run[j - 1].word.version > g {
      k := PassesThrough(run, acts, i, j - 1, g);
    } else {
      RunStepOneVersion(run, acts, j - 1);
      k := j - 1;
    }
  }

  lemma OneVersionAtATime(s: State, act: Action)
    requires Inv(s) && Bounded(s) && Enabled(s, act)
    ensures Next(s, act).word.version <= s.word.version + 1
    ensures s.word.version % 2 == 0 && Next(s, act).word.version == s.word.version + 1 ==>
      act.Advance? && act.a in s.agents && act.a in Next(s, act).agents && s.agents[act.a].FailLoop? && s.agents[act.a].gen == s.word.version
      && Next(s, act).agents[act.a] == FailRelease(s.agents[act.a].gen, s.agents[act.a].own)
  {
    if act.Advance? {
      assert PcOk(s, s.agents[act.a]);
      CountZero(s.agents, Keeps);
      CountZero(s.agents, Drops);
    }
  }

  /** Of all the calls of SetFailed on a generation exactly one wins it, if any
      of them has returned, and that one goes on to give up the additional
      reference. */
  lemma ExactlyOneCallWins(run: seq<State>, acts: seq<Action>, i: nat, j: nat, a: nat, g: Ver) returns (k: nat)
    requires IsRun(run, acts) && i < j < |run| && FailBegins(run, acts, i, a, g)
    requires Returned(run[j], a, g)
    ensures k < j && LeavesAt(run, acts, k, g)
    ensures acts[k].Advance? && acts[k].a in run[k].agents && acts[k].a in run[k + 1].agents
    ensures run[k].agents[acts[k].a].FailLoop? && run[k].agents[acts[k].a].gen == g
    ensures run[k + 1].agents[acts[k].a].FailRelease?
    ensures forall m: nat :: m < |acts| && LeavesAt(run, acts, m, g) ==> m == k
  {
    SetFailedFails(run, acts, i, j, a, g);
    RunKeepsInv(run, acts, i);
    assert PcOk(run[i], run[i].agents[a]);
    k := PassesThrough(run, acts, 0, j, g);
    RunKeepsInv(run, acts, k);
    assert StepAt(run, acts, k);
    OneVersionAtATime(run[k], acts[k]);
    forall m: nat | m < |acts| && LeavesAt(run, acts, m, g) ensures m == k {
      LeavesOnce(run, acts, m, k, g);
    }
  }

  lemma LeavesOnce(run: seq<State>, acts: seq<Action>, m: nat, k: nat, g: Ver)
    requires IsRun(run, acts) && m < |acts| && k < |acts| && LeavesAt(run, acts, m, g) && LeavesAt(run, acts, k, g)
    ensures m == k
  {
    if m < k { VersionsGrow(run, acts, m + 1, k); }
    if k < m { VersionsGrow(run, acts, k + 1, m); }
  }

  /** Once a call of SetFailed on a generation has returned, no Address of its
      id that takes its reference later succeeds, however the activities
      interleave. */
  lemma NoAddressAfterSetFailed(run: seq<State>, acts: seq<Action>, i: nat, k: nat, j: nat, w: nat, a: nat, g: Ver)
    requires IsRun(run, acts) && i < k <= j < |acts| && FailBegins(run, acts, i, w, g)
    requires Returned(run[k], w, g)
    requires acts[j] == Advance(a) && a in run[j].agents && run[j].agents[a] == AddressStart(g, false)
    ensures a in run[j + 1].agents && run[j + 1].agents[a].AddressMiss?
  {
    SetFailedFails(run, acts, i, k, w, g);
    VersionsGrow(run, acts, k, j);
    assert StepAt(run, acts, j);
  }

  /** Create handed id g out at step i. */
  predicate CreatedAt(run: seq<State>, acts: seq<Action>, i: nat, g: Ver)
    requires |run| == |acts| + 1 && i < |acts|
  {
    acts[i].InitOk? && acts[i].a in run[i].agents && run[i].agents[acts[i].a] == CreateInit(g)
  }

  lemma CreatedVersion(run: seq<State>, acts: seq<Action>, i: nat, g: Ver)
    requires IsRun(run, acts) && i < |acts| && CreatedAt(run, acts, i, g)
    ensures run[i + 1].word.version == g && Up(g) == g + 1
  {
    RunKeepsInv(run, acts, i);
    assert PcOk(run[i], CreateInit(g)) && StepAt(run, acts, i);
  }

  lemma LookupStep(run: seq<State>, acts: seq<Action>, j: nat, a: nat, g: Ver, failedToo: bool)
    requires IsRun(run, acts) && j < |acts| && g <= run[j].word.version && Up(g) == g + 1
    requires acts[j] == Advance(a) && a in run[j].agents && run[j].agents[a] == AddressStart(g, failedToo)
    ensures a in run[j + 1].agents
    ensures run[j + 1].agents[a] ==
      if run[j].word.version <= (if failedToo then Up(g) else g) then Holder(g) else AddressMiss(g, run[j].word.version)
  {
    assert StepAt(run, acts, j);
  }

  /** After Create has returned an id, a lookup of it succeeds exactly as long as
      nobody has failed the generation; one that accepts failed objects too,
      exactly as long as the slot has not been recycled. */
  lemma AddressSucceedsUntilFailed(run: seq<State>, acts: seq<Action>, i: nat, j: nat, a: nat, g: Ver, failedToo: bool)
    requires IsRun(run, acts) && i < j < |acts| && CreatedAt(run, acts, i, g)
    requires acts[j] == Advance(a) && a in run[j].agents && run[j].agents[a] == AddressStart(g, failedToo)
    ensures a in run[j + 1].agents
    ensures run[j + 1].agents[a] == Holder(g) <==>
      NeverLeaves(run, acts, i + 1, j, if failedToo then Up(g) else g)
    ensures run[j + 1].agents[a] == Holder(g) || run[j + 1].agents[a].AddressMiss?
  {
    hide Inv, StepAt;
    var v := if failedToo then Up(g) else g;
    CreatedVersion(run, acts, i, g);
    VersionsGrow(run, acts, i + 1, j);
    LookupStep(run, acts, j, a, g, failedToo);
    if run[j].word.version > v {
      var k := PassesThrough(run, acts, i + 1, j, v);
      assert LeavesAt(run, acts, k, v);
    } else {
      forall k: nat | i < k < j ensures !LeavesAt(run, acts, k, v) {
        VersionsGrow(run, acts, k + 1, j);
      }
    }
  }

  /** The next step of a recycles the failed generation on the slot. */
  predicate Recycles(s: State, a: nat) {
    && a in s.agents && (s.agents[a].AddressCas? || s.agents[a].DerefCas?)
    && Step(s, a, s.agents[a]).agents[a] == Recycling(Down(s.word.version))
  }

  /** A failed generation without references is not stranded: somebody is
      about to try the recycling exchange on exactly the current word, and that
      attempt succeeds. */
  lemma FailedAndUnreferencedWillBeRecycled(run: seq<State>, acts: seq<Action>, i: nat)
    requires IsRun(run, acts) && i < |run|
    requires run[i].word.version % 2 == 1 && run[i].word.nref == 0
    ensures exists a :: Recycles(run[i], a)
  {
    var s := run[i];
    RunKeepsInv(run, acts, i);
    var a :| a in s.agents && TriesRecycle(s.agents[a], s.word);
    assert PcOk(s, s.agents[a]);
    assert Recycles(s, a);
  }

  /** No run reaches one of the CHECK or LOG(FATAL) branches. */
  lemma FatalBranchesUnreachable(run: seq<State>, acts: seq<Action>, i: nat, a: nat)
    requires IsRun(run, acts) && i < |run| && a in run[i].agents
    ensures var pc := run[i].agents[a];
      !pc.BadRefVersion? && !pc.OverDereferenced? && !pc.InvalidId? && !pc.LostRelease?
  {
    RunKeepsInv(run, acts, i);
    assert PcOk(run[i], run[i].agents[a]);
  }

  /** When every call has returned and every pointer was dropped, no failed
      generation is left on the slot: all generations but a live one were
      returned exactly once, and the slot is in the pool unless one is live. */
  lemma QuiescentSlotIsSettled(run: seq<State>, acts: seq<Action>, i: nat)
    requires IsRun(run, acts) && i < |run|
    requires forall a :: a in run[i].agents ==> run[i].agents[a].Done?
    ensures run[i].word.version % 2 == 0
    ensures run[i].word.nref == Bit(run[i].live) && run[i].pooled == !run[i].live
    ensures forall g: Ver :: run[i].returned[g] == Bit(g % 2 == 0 && g < run[i].word.version)
  {
    var s := run[i];
    RunKeepsInv(run, acts, i);
    CountZero(s.agents, Keeps);
    CountZero(s.agents, Drops);
    CountZero(s.agents, Solo);
    forall g: Ver ensures s.returned[g] == Bit(g % 2 == 0 && g < s.word.version) {
      assert forall a :: a in s.agents ==> !IsReturning(s.agents[a], g);
    }
  }
}
