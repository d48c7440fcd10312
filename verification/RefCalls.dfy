/**
 RefBase calls that run to completion with no other thread in between: the step machine
 of RefCount driven by a single thread.  Each call is then one change of the words, and
 what it does to the handles and to the two memory blocks can be said outright.
 */
module RefCalls {
  import opened RefCount

  /** A client holds a strong reference only where the bias is gone. */
  predicate BiasGone(w: Words) { w.strongHandles > 0 ==> w.removals == 1 }

  /** No call is under way and the books balance. */
  predicate Settled(w: Words) { Books(w, Share(Idle)) }

  /** What a thread read is still so. */
  predicate Current(w: Words, pc: Pc) {
    match pc
    case PromoteCas(cur) => cur == w.strong
    case PromoteHard(cur) => cur == w.strong && (cur <= 0 || cur == INITIAL_STRONG_VALUE)
    case PromoteHardCas(cur) => cur == w.strong
    case FixCas(cur) => cur == w.strong
    case TryWeakCas(_, cur) => cur == w.weak
    case _ => true
  }

  /** What a thread that runs alone knows at pc. */
  predicate Alone(w: Words, pc: Pc) { Ready(w, Share(pc), pc) && Current(w, pc) }

  function Rank(pc: Pc): nat {
    match pc
    case Idle => 0
    case Unbias | FixCas(_) | TryWeakCas(_, _) => 1
    case IncStrongInc(_, _) | FixRead | TryWeakRead(_) => 2
    case Dtor2(k) => if k.ThenDone? then 3 else 9
    case Dtor1(k) => if k.ThenDone? then 4 else 10
    case Dtor0(k) => if k.ThenDone? then 5 else 11
    case LastWeakNormal | LastWeakExtended => 6
    case LastWeak => 7
    case DropWeak => 8
    case LastStrong => 12
    case PromoteCas(_) | PromoteHardCas(_) | PromoteInc => 13
    case PromoteAsk | PromoteHardRead => 14
    case PromoteHard(_) => 15
    case PromoteRead => 16
  }

  /** A thread on its way to a strong reference has room for one below the bias. */
  predicate Room(w: Words, pc: Pc) {
    pc.IncStrongInc? || PhaseOf(pc).Promoting? ==> w.strongHandles + 1 < INITIAL_STRONG_VALUE
  }

  lemma {:induction false} CurrentStep(w: Words, pc: Pc, agree: bool, m: Moved)
    requires Current(w, pc) && !pc.Idle? && Room(w, pc) && m == Advance(w, pc, agree)
    ensures Current(m.w, m.pc) && Rank(m.pc) < Rank(pc) && Room(m.w, m.pc)
  {
  }

  lemma {:induction false} PinStep(w: Words, pc: Pc, a: Act, m: Moved)
    requires MayStart(w, pc, a) && m == Move(w, pc, a) && PinKept(w, pc)
    ensures PinKept(m.w, m.pc)
  {
  }

  /** A thread that is not on its way to a strong reference does not come to one. */
  lemma {:induction false} OtherRoom(w: Words, pc: Pc, a: Act, m: Moved)
    requires MayStart(w, pc, a) && m == Move(w, pc, a) && !PhaseOf(pc).Promoting? && !PhaseOf(pc).Counting?
    ensures m.w.strongHandles + Share(m.pc).strong <= w.strongHandles + Share(pc).strong
  {
  }

  lemma {:induction false} StrongRoom(w: Words, pc: Pc, agree: bool, m: Moved)
    requires m == Advance(w, pc, agree) && (PhaseOf(pc).Promoting? || PhaseOf(pc).Counting?)
    ensures m.w.strongHandles + Share(m.pc).strong <= w.strongHandles + 1
    ensures Share(pc).strong == 1 ==> m.w.strongHandles + Share(m.pc).strong == w.strongHandles + 1
  {
  }

  lemma {:induction false} RoomStep(w: Words, pc: Pc, a: Act, m: Moved)
    requires MayStart(w, pc, a) && m == Move(w, pc, a)
    requires w.strongHandles + Share(pc).strong < INITIAL_STRONG_VALUE && Room(w, pc)
    ensures m.w.strongHandles + Share(m.pc).strong < INITIAL_STRONG_VALUE
  {
    if PhaseOf(pc).Promoting? || PhaseOf(pc).Counting? {
      StrongRoom(w, pc, a.agree, m);
    } else {
      OtherRoom(w, pc, a, m);
    }
  }

  lemma {:induction false} ShareOrder(pc: Pc)
    ensures var t := Share(pc);
            t.window <= t.strong <= t.weak && t.last + t.kills <= t.weak &&
            Covers(t, t) && (pc.FixCas? ==> t.window == 0)
  {
  }

  lemma {:induction false} ReadyStep(w: Words, pc: Pc, a: Act, m: Moved)
    requires Ready(w, Share(pc), pc) && MayStart(w, pc, a) && m == Move(w, pc, a) && Room(w, pc)
    ensures Ready(m.w, Share(m.pc), m.pc)
  {
    var t, t' := Share(pc), Share(m.pc);
    PinStep(w, pc, a, m);
    RoomStep(w, pc, a, m);
    ShareOrder(m.pc);
    Steps(w, t, pc, a, m, t');
  }

  /** Whoever runs alone and takes the first strong reference removes the bias on the way. */
  lemma {:induction false} BiasGoneStep(w: Words, pc: Pc, a: Act, m: Moved)
    requires BiasGone(w) && Accounts(w, Share(pc)) && Local(w, pc) && MayStart(w, pc, a) && m == Move(w, pc, a)
    requires w.removals + Share(pc).window <= 1 && w.strongHandles + Share(pc).strong < INITIAL_STRONG_VALUE
    ensures BiasGone(m.w)
  {
  }

  lemma {:induction false} Steps(w: Words, t: Tally, pc: Pc, a: Act, m: Moved, t': Tally)
    requires Ready(w, t, pc) && Moves(w, t, pc, a, m, t') && PinKept(m.w, m.pc)
    ensures Accounts(m.w, t') && Endings(m.w, t') && m.w.removals + t'.window <= 1 && Local(m.w, m.pc)
  {
    AccountsMove(w, t, pc, a, m, t');
    EndingsMove(w, t, pc, a, m, t');
    LocalMove(w, t, pc, a, m, m.pc);
  }

  /** attemptIncStrong succeeds: there is a strong reference, or a strong-lifetime object
      never had one, or an extended-lifetime object agrees to be revived. */
  predicate CanPromote(w: Words, agree: bool) {
    if w.strong > 0 && w.strong != INITIAL_STRONG_VALUE then true
    else if w.extended then agree else w.strong > 0
  }

  /** The call under way at pc will hand its caller a strong reference. */
  predicate Gains(w: Words, pc: Pc, agree: bool) {
    match pc
    case PromoteRead | PromoteHard(_) => CanPromote(w, agree)
    case PromoteHardRead => w.strong > 0
    case PromoteAsk => agree
    case _ => pc.IncStrongInc? || PhaseOf(pc).Counting? || PhaseOf(pc).Promoting?
  }

  /** The call under way at pc will hand its caller a weak reference. */
  predicate GainsWeak(w: Words, pc: Pc) { pc.TryWeakCas? || (pc.TryWeakRead? && w.weak > 0) }

  /** The handles are unchanged, but for one more strong or weak handle if so gained. */
  predicate SameBut(w: Words, w': Words, gained: bool, weakGained: bool) {
    w'.strongHandles == w.strongHandles + (if gained then 1 else 0) &&
    w'.weakHandles == w.weakHandles + (if weakGained then 1 else 0) && w'.extended == w.extended &&
    w'.taken == w.taken && w'.removals >= w.removals
  }

  /** What one step does to the handles. */
  predicate HandlesKept(w: Words, pc: Pc, agree: bool, m: Moved) {
    SameBut(w, m.w, Gains(w, pc, agree) && !Gains(m.w, m.pc, agree), GainsWeak(w, pc) && !GainsWeak(m.w, m.pc)) &&
    (Gains(m.w, m.pc, agree) ==> Gains(w, pc, agree)) && (GainsWeak(m.w, m.pc) ==> GainsWeak(w, pc))
  }

  lemma {:induction false} PromoteHandles(w: Words, pc: Pc, agree: bool, m: Moved)
    requires Alone(w, pc) && PhaseOf(pc) == Promoting && m == Advance(w, pc, agree)
    ensures HandlesKept(w, pc, agree, m)
  {
  }

  lemma {:induction false} CountHandles(w: Words, pc: Pc, agree: bool, m: Moved)
    requires PhaseOf(pc) == Counting && Local(w, pc) && m == Advance(w, pc, agree)
    ensures HandlesKept(w, pc, agree, m)
  {
  }

  lemma {:induction false} EndHandles(w: Words, pc: Pc, agree: bool, m: Moved)
    requires PhaseOf(pc) == Ending && Current(w, pc) && (w.weak > 0 ==> w.taken) && m == Advance(w, pc, agree)
    requires pc.TryWeakCas? ==> w.weak > 0
    ensures HandlesKept(w, pc, agree, m)
  {
  }

  lemma {:induction false} HandlesStep(w: Words, pc: Pc, agree: bool, m: Moved)
    requires Alone(w, pc) && !pc.Idle? && m == Advance(w, pc, agree)
    ensures HandlesKept(w, pc, agree, m)
  {
    match PhaseOf(pc)
    case Promoting => PromoteHandles(w, pc, agree, m);
    case Counting => CountHandles(w, pc, agree, m);
    case Ending => EndHandles(w, pc, agree, m);
  }

  /** Everything Finish needs of one step. */
  lemma {:induction false} StepAlone(w: Words, pc: Pc, agree: bool, m: Moved)
    requires Alone(w, pc) && !pc.Idle? && Room(w, pc) && m == Advance(w, pc, agree)
    ensures Alone(m.w, m.pc) && Rank(m.pc) < Rank(pc) && Room(m.w, m.pc)
  {
    CurrentStep(w, pc, agree, m);
    ReadyStep(w, pc, Go(agree), m);
  }

  /** The words once the thread at pc has finished its call. */
  function Finish(w: Words, pc: Pc, agree: bool): (w': Words)
    requires Alone(w, pc) && Room(w, pc)
    ensures Settled(w') && (BiasGone(w) ==> BiasGone(w'))
    ensures SameBut(w, w', Gains(w, pc, agree), GainsWeak(w, pc))
    decreases Rank(pc)
  {
    if pc.Idle? then w
    else
      var m := Advance(w, pc, agree);
      StepAlone(w, pc, agree, m);
      assert BiasGone(w) ==> BiasGone(m.w) by { if BiasGone(w) { BiasGoneStep(w, pc, Go(agree), m); } }
      HandlesStep(w, pc, agree, m);
      Finish(m.w, m.pc, agree)
  }

  /** One whole call. */
  function Call(w: Words, a: Act, agree: bool): (w': Words)
    requires Settled(w) && MayStart(w, Idle, a) && Room(w, Move(w, Idle, a).pc)
    ensures Settled(w') && (BiasGone(w) ==> BiasGone(w'))
  {
    CallStarts(w, a);
    var m := Move(w, Idle, a);
    Finish(m.w, m.pc, agree)
  }

  lemma {:induction false} CallStarts(w: Words, a: Act)
    requires Settled(w) && MayStart(w, Idle, a) && Room(w, Move(w, Idle, a).pc)
    ensures var m := Move(w, Idle, a); Alone(m.w, m.pc) && Room(m.w, m.pc) && (BiasGone(w) ==> BiasGone(m.w))
  {
    ReadyStep(w, Idle, a, Move(w, Idle, a));
    if BiasGone(w) { BiasGoneStep(w, Idle, a, Move(w, Idle, a)); }
  }

  /** What each call does to the handles its clients hold. */
  predicate HandlesAfter(w: Words, a: Act, agree: bool, w': Words) {
    w'.strongHandles == w.strongHandles +
      (match a
       case IncStrong(_) | ForceIncStrong(_) => 1
       case DecStrong => -1
       case AttemptIncStrong(_) => if CanPromote(w, agree) then 1 else 0
       case _ => 0) &&
    w'.weakHandles == w.weakHandles + (if a.IncWeak? || a.AttemptIncWeak? then 1 else if a.DecWeak? then -1 else 0) &&
    w'.extended == (w.extended || a.ExtendLifetime?) && (w.taken || a.IncWeak? ==> w'.taken) &&
    w'.removals >= w.removals
  }

  lemma {:induction false} FirstMove(w: Words, a: Act, agree: bool, m: Moved, w': Words)
    requires MayStart(w, Idle, a) && m == Move(w, Idle, a) && (a.AttemptIncWeak? ==> w.weak > 0)
    requires SameBut(m.w, w', Gains(m.w, m.pc, agree), GainsWeak(m.w, m.pc))
    ensures HandlesAfter(w, a, agree, w')
  {
  }

  lemma {:induction false} CallHandles(w: Words, a: Act, agree: bool)
    requires Settled(w) && MayStart(w, Idle, a) && Room(w, Move(w, Idle, a).pc)
    ensures HandlesAfter(w, a, agree, Call(w, a, agree))
  {
    CallStarts(w, a);
    FirstMove(w, a, agree, Move(w, Idle, a), Call(w, a, agree));
  }

  /** Between calls the two blocks are exactly as the handles demand: the weakref_impl is
      deleted once nobody holds a handle, the object then or, in the strong lifetime, when
      the last strong handle went; neither twice. */
  lemma {:induction false} SettledBlocks(w: Words)
    requires Settled(w)
    ensures w.refsDeletes == (if w.taken && w.strongHandles + w.weakHandles == 0 then 1 else 0)
    ensures w.objDeletes == (if w.refsDeletes == 1 || (!w.extended && w.removals == 1 && w.strongHandles == 0) then 1 else 0)
    ensures w.weak == w.strongHandles + w.weakHandles
    ensures w.strong == w.strongHandles + (if w.removals == 0 then INITIAL_STRONG_VALUE else 0)
  {
  }
}
