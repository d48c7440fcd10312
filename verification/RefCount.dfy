/**
 The strong/weak reference-counting protocol of RefBase as a step machine.

 One object and its weakref_impl are shared by any number of threads.  A step is one
 atomic operation (or one plain read of a shared counter) by one thread, together with
 the thread-local work up to its next shared access.  Memory is released at the earliest
 point the code could release it, so that every later access by anybody counts.
 */
module RefCount {

  const INITIAL_STRONG_VALUE: int := 0x1000_0000

  /** What the caller of a running operation promises to keep until the operation has
      taken a reference of its own: a strong handle, a weak handle, or a bare pointer to
      an object that is not being destroyed. */
  datatype Pin = ByStrong | ByWeak | ByRaw

  /** Who runs ~RefBase: decStrong, which goes on to decWeak, or decWeak itself. */
  datatype After = ThenDropWeak | ThenDone

  /** Where a thread is.  Each constructor names the next shared access. */
  datatype Pc =
    | Idle
    | IncStrongInc(pin: Pin, force: bool)  // incStrong, forceIncStrong: increment mStrong
    | Unbias                               // subtract the bias that the increment found
    | LastStrong                           // decStrong took the count to zero: read mFlags
    | Dtor0(after: After)                  // ~RefBase: read mStrong
    | Dtor1(after: After)                  // ~RefBase: read mFlags
    | Dtor2(after: After)                  // ~RefBase: read mWeak
    | DropWeak                             // decWeak: decrement mWeak
    | LastWeak                             // decWeak took the count to zero: read mFlags
    | LastWeakNormal                       // ... strong lifetime: read mStrong
    | LastWeakExtended                     // ... extended lifetime: read mFlags again
    | PromoteRead                          // attemptIncStrong: read mStrong
    | PromoteCas(cur: int)                 // easy case
    | PromoteHard(cur: int)                // hard case: read mFlags
    | PromoteHardCas(cur: int)             // hard case, strong lifetime
    | PromoteHardRead
    | PromoteAsk                           // hard case, extended lifetime
    | PromoteInc
    | FixRead                              // fix-up loop
    | FixCas(cur: int)
    | TryWeakRead(pin: Pin)                // attemptIncWeak
    | TryWeakCas(pin: Pin, cur: int)

  /** A thread starts an operation, or takes the next step of the one it is in. `agree` is
      the answer of onIncStrongAttempted where that is asked. */
  datatype Act =
    | IncStrong(pin: Pin)
    | ForceIncStrong(pin: Pin)
    | DecStrong
    | AttemptIncStrong(pin: Pin)
    | IncWeak(pin: Pin)
    | DecWeak
    | AttemptIncWeak(pin: Pin)
    | ExtendLifetime(pin: Pin)
    | Go(agree: bool)

  /** The three shared words, then the bookkeeping: the handles clients hold outside any
      call, how often the bias was subtracted and what is left of it in mStrong, whether
      any reference was ever taken, whether mWeak has returned to zero, and how often each
      of the two memory blocks was deleted. */
  datatype Words = Words(
    strong: int,
    weak: int,
    extended: bool,
    strongHandles: nat,
    weakHandles: nat,
    removals: nat,
    bias: int,
    taken: bool,
    weakGone: bool,
    objDeletes: nat,
    refsDeletes: nat)

  datatype State = State(w: Words, pcs: seq<Pc>)

  /** The counters as the constructor of weakref_impl sets them. */
  predicate Fresh(w: Words) {
    w.strong == w.bias == INITIAL_STRONG_VALUE && w.weak == 0 && !w.extended &&
    w.strongHandles == w.weakHandles == w.removals == w.objDeletes == w.refsDeletes == 0 &&
    !w.taken && !w.weakGone
  }

  /** A freshly constructed object and any number of idle threads. */
  predicate Initial(s: State) {
    Fresh(s.w) && forall j :: 0 <= j < |s.pcs| ==> s.pcs[j].Idle?
  }

  // ---------- counting threads ----------

  /** What a set of threads holds or is about to do: strong and weak references, threads
      in the window of a first increment, threads ending the weakref_impl's life, threads
      at LastStrong, and threads in ~RefBase on behalf of decStrong. */
  datatype Tally = Tally(strong: nat, weak: nat, window: nat, ends: nat, last: nat, kills: nat)

  function Share(pc: Pc): Tally {
    match pc
    case Idle | TryWeakRead(_) | TryWeakCas(_, _) => Tally(0, 0, 0, 0, 0, 0)
    case Unbias => Tally(1, 1, 1, 0, 0, 0)
    case FixRead | FixCas(_) => Tally(1, 1, 0, 0, 0, 0)
    case LastStrong => Tally(0, 1, 0, 0, 1, 0)
    case Dtor0(k) => DtorShare(k)
    case Dtor1(k) => DtorShare(k)
    case Dtor2(k) => DtorShare(k)
    case LastWeak | LastWeakNormal | LastWeakExtended => Tally(0, 0, 0, 1, 0, 0)
    case _ => Tally(0, 1, 0, 0, 0, 0)
  }

  function DtorShare(k: After): Tally {
    if k.ThenDropWeak? then Tally(0, 1, 0, 0, 0, 1) else Tally(0, 0, 0, 1, 0, 0)
  }

  function Total(pcs: seq<Pc>): Tally {
    if pcs == [] then Tally(0, 0, 0, 0, 0, 0)
    else var t, u := Share(pcs[0]), Total(pcs[1..]);
         Tally(t.strong + u.strong, t.weak + u.weak, t.window + u.window,
               t.ends + u.ends, t.last + u.last, t.kills + u.kills)
  }

  /** Strong references taken and not yet given back. */
  function Refs(s: State): nat { s.w.strongHandles + Total(s.pcs).strong }

  /** Threads between an increment that found the bias and their subtraction of it. */
  function Windows(s: State): nat { Total(s.pcs).window }

  /** Subtractions of the bias that have happened or can no longer be avoided. */
  function Committed(s: State): nat { s.w.removals + Windows(s) }

  // ---------- the code ----------

  /** The words and the place of the moving thread after a step. */
  datatype Moved = Moved(w: Words, pc: Pc)

  function TakeWeak(w: Words): Words { w.(weak := w.weak + 1, taken := true) }

  function GiveWeak(w: Words): Moved {
    if w.weak == 1 then Moved(w.(weak := 0, weakGone := true), LastWeak)
    else Moved(w.(weak := w.weak - 1), Idle)
  }

  function RemoveBias(w: Words): Words {
    w.(strong := w.strong - INITIAL_STRONG_VALUE, removals := w.removals + 1,
       bias := w.bias - INITIAL_STRONG_VALUE)
  }

  function ReturnStrong(w: Words): Moved {
    Moved(w.(strongHandles := w.strongHandles + 1), Idle)
  }

  function EndDtor(w: Words, k: After, freesRefs: bool): Moved {
    Moved(w.(objDeletes := w.objDeletes + 1, refsDeletes := w.refsDeletes + if freesRefs then 1 else 0),
          if k.ThenDropWeak? then DropWeak else Idle)
  }

  /** A caller may use the object through `pin` now. */
  predicate PinHeld(w: Words, pin: Pin) {
    match pin
    case ByStrong => w.strongHandles > 0
    case ByWeak => w.weakHandles > 0
    case ByRaw => !w.weakGone && (w.extended || w.strong > 0)
  }

  /** incStrong asserts a positive count; forceIncStrong may also start from zero, but
      only on an object whose life does not depend on the strong count. */
  predicate MayIncStrong(w: Words, pin: Pin, force: bool) {
    PinHeld(w, pin) &&
    match pin
    case ByStrong => true
    case ByWeak => force && w.extended
    case ByRaw => w.strong > 0 || force
  }

  predicate MayStart(w: Words, pc: Pc, a: Act) {
    (a.Go? <==> !pc.Idle?) &&
    match a
    case IncStrong(pin) => MayIncStrong(w, pin, false)
    case ForceIncStrong(pin) => MayIncStrong(w, pin, true)
    case DecStrong => w.strongHandles > 0
    case AttemptIncStrong(pin) => PinHeld(w, pin)
    case IncWeak(pin) => PinHeld(w, pin)
    case DecWeak => w.weakHandles > 0
    case AttemptIncWeak(pin) => !pin.ByRaw? && PinHeld(w, pin)
    case ExtendLifetime(pin) => !pin.ByWeak? && PinHeld(w, pin)
    case Go(_) => true
  }

  function Move(w: Words, pc: Pc, a: Act): Moved
    requires MayStart(w, pc, a)
  {
    match a
    case IncStrong(pin) => Moved(TakeWeak(w), IncStrongInc(pin, false))
    case ForceIncStrong(pin) => Moved(TakeWeak(w), IncStrongInc(pin, true))
    case DecStrong =>
      Moved(w.(strong := w.strong - 1, strongHandles := w.strongHandles - 1),
            if w.strong == 1 then LastStrong else DropWeak)
    case AttemptIncStrong(_) => Moved(TakeWeak(w), PromoteRead)
    case IncWeak(_) => Moved(TakeWeak(w).(weakHandles := w.weakHandles + 1), Idle)
    case DecWeak => GiveWeak(w.(weakHandles := w.weakHandles - 1))
    case AttemptIncWeak(pin) => Moved(w, TryWeakRead(pin))
    case ExtendLifetime(_) => Moved(w.(extended := true), Idle)
    case Go(agree) => Advance(w, pc, agree)
  }

  function Advance(w: Words, pc: Pc, agree: bool): Moved {
    match pc
    case Idle => Moved(w, Idle)
    case IncStrongInc(_, _) =>
      var w1 := w.(strong := w.strong + 1);
      if w.strong == INITIAL_STRONG_VALUE then Moved(w1, Unbias) else ReturnStrong(w1)
    case Unbias =>
      ReturnStrong(RemoveBias(w))
    case LastStrong => Moved(w, if w.extended then DropWeak else Dtor0(ThenDropWeak))
    case Dtor0(k) =>
      if w.strong == INITIAL_STRONG_VALUE then EndDtor(w, k, true) else Moved(w, Dtor1(k))
    case Dtor1(k) => if w.extended then Moved(w, Dtor2(k)) else EndDtor(w, k, false)
    case Dtor2(k) => EndDtor(w, k, w.weak == 0)
    case DropWeak => GiveWeak(w)
    case LastWeak => Moved(w, if w.extended then LastWeakExtended else LastWeakNormal)
    case LastWeakNormal =>
      if w.strong == INITIAL_STRONG_VALUE then Moved(w, Dtor0(ThenDone))
      else Moved(w.(refsDeletes := w.refsDeletes + 1), Idle)
    case LastWeakExtended => Moved(w, if w.extended then Dtor0(ThenDone) else Idle)
    case PromoteRead =>
      Moved(w, if w.strong > 0 && w.strong != INITIAL_STRONG_VALUE then PromoteCas(w.strong)
               else PromoteHard(w.strong))
    case PromoteCas(cur) =>
      if w.strong == cur then Moved(w.(strong := cur + 1), FixRead) else Moved(w, PromoteRead)
    case PromoteHard(cur) =>
      Moved(w, if w.extended then PromoteAsk else if cur <= 0 then DropWeak else PromoteHardCas(cur))
    case PromoteHardCas(cur) =>
      if w.strong == cur then Moved(w.(strong := cur + 1), FixRead) else Moved(w, PromoteHardRead)
    case PromoteHardRead => Moved(w, if w.strong <= 0 then DropWeak else PromoteHardCas(w.strong))
    case PromoteAsk => Moved(w, if agree then PromoteInc else DropWeak)
    case PromoteInc => Moved(w.(strong := w.strong + 1), FixRead)
    case FixRead =>
      if w.strong >= INITIAL_STRONG_VALUE then Moved(w, FixCas(w.strong)) else ReturnStrong(w)
    case FixCas(cur) =>
      if w.strong == cur
      then ReturnStrong(RemoveBias(w))
      else Moved(w, FixRead)
    case TryWeakRead(pin) => Moved(w, if w.weak > 0 then TryWeakCas(pin, w.weak) else Idle)
    case TryWeakCas(pin, cur) =>
      if w.weak == cur
      then Moved(TakeWeak(w).(weakHandles := w.weakHandles + 1), Idle)
      else Moved(w, TryWeakRead(pin))
  }

  /** The step reads the object, calls one of its virtual functions or deletes it.  Every
      step reads or deletes the weakref_impl. */
  predicate TouchesObject(w: Words, pc: Pc, a: Act) {
    match a
    case IncStrong(_) | ForceIncStrong(_) | DecStrong | ExtendLifetime(_) => true
    case IncWeak(pin) => !pin.ByWeak?
    case AttemptIncStrong(_) | DecWeak | AttemptIncWeak(_) => false
    case Go(_) =>
      match pc
      case IncStrongInc(_, force) => force && w.strong == 0
      case Unbias | LastStrong | Dtor0(_) | Dtor1(_) | Dtor2(_) => true
      case LastWeakNormal => w.strong == INITIAL_STRONG_VALUE
      case LastWeakExtended | PromoteAsk => true
      case PromoteHardCas(cur) => w.strong == cur && cur < INITIAL_STRONG_VALUE
      case PromoteInc => 0 < w.strong < INITIAL_STRONG_VALUE
      case _ => false
  }

  // ---------- obligations of the callers and of the schedule ----------

  predicate PinKept(w: Words, pc: Pc) {
    match pc
    case IncStrongInc(pin, force) => MayIncStrong(w, pin, force)
    case TryWeakRead(pin) => !pin.ByRaw? && PinHeld(w, pin)
    case TryWeakCas(pin, _) => !pin.ByRaw? && PinHeld(w, pin)
    case _ => true
  }

  /** Callers keep what their running calls rely on, and the counts stay below the limits
      of the 32-bit words (the strong count below the bias itself). */
  predicate Respects(s: State) {
    (forall j :: 0 <= j < |s.pcs| ==> PinKept(s.w, s.pcs[j])) &&
    Refs(s) < INITIAL_STRONG_VALUE && s.w.weak < 0x8000_0000
  }

  predicate Enabled(s: State, i: nat, a: Act) {
    i < |s.pcs| && MayStart(s.w, s.pcs[i], a)
  }

  function Do(s: State, i: nat, a: Act): State
    requires Enabled(s, i, a)
  {
    var m := Move(s.w, s.pcs[i], a);
    State(m.w, s.pcs[i := m.pc])
  }

  predicate Legal(s: State, i: nat, a: Act) {
    Enabled(s, i, a) && Respects(Do(s, i, a))
  }

  /** A promotion's fix-up subtracts the bias while another thread stands between its
      first increment and its own subtraction. */
  predicate Clash(s: State, i: nat, a: Act) {
    Enabled(s, i, a) && s.pcs[i].FixCas? && s.w.strong == s.pcs[i].cur && Windows(s) > 0
  }

  // ---------- the invariant ----------

  /** Strong lifetime, and the last strong reference is gone. */
  predicate Dead(w: Words) { !w.extended && w.strong == 0 }

  predicate BiasCounted(w: Words) {
    if w.removals == 0 then w.bias == INITIAL_STRONG_VALUE
    else if w.removals == 1 then w.bias == 0
    else w.bias < 0
  }

  predicate Accounts(w: Words, t: Tally) {
    w.strong == w.strongHandles + t.strong + w.bias && BiasCounted(w) &&
    w.weak == w.strongHandles + w.weakHandles + t.weak
  }

  predicate Endings(w: Words, t: Tally) {
    (w.weakGone ==> w.weak == 0) &&
    (w.weak == 0 && w.taken ==> w.weakGone) &&
    (!w.taken ==> w.weak == 0 && !w.weakGone) &&
    t.ends + w.refsDeletes == (if w.weakGone then 1 else 0) &&
    (if Dead(w) then t.last + t.kills + w.objDeletes == 1
     else t.kills == 0 && w.objDeletes == w.refsDeletes && (!w.extended ==> t.last == 0))
  }

  predicate Local(w: Words, pc: Pc) {
    PinKept(w, pc) &&
    match pc
    case LastStrong => !w.extended ==> Dead(w)
    case Dtor0(k) => if k.ThenDropWeak? then Dead(w)
                     else w.weakGone && (w.extended || w.strong == INITIAL_STRONG_VALUE)
    case Dtor1(k) => if k.ThenDropWeak? then Dead(w) else w.weakGone && w.extended
    case Dtor2(k) => k.ThenDone? && w.weakGone && w.extended
    case LastWeak => w.weakGone
    case LastWeakNormal => w.weakGone && !w.extended
    case LastWeakExtended => w.weakGone && w.extended
    case PromoteCas(cur) => cur > 0
    case PromoteHard(cur) => cur <= 0 && !w.extended ==> Dead(w)
    case PromoteHardCas(cur) => cur > 0
    case PromoteAsk | PromoteInc => w.extended
    case FixCas(cur) => cur >= INITIAL_STRONG_VALUE
    case TryWeakCas(_, cur) => cur > 0
    case _ => true
  }

  /** The part of the invariant that speaks of the words and the tally only. */
  predicate Books(w: Words, t: Tally) {
    Accounts(w, t) && Endings(w, t) && w.removals + t.window <= 1 &&
    w.strongHandles + t.strong < INITIAL_STRONG_VALUE &&
    t.window <= t.strong <= t.weak && t.last + t.kills <= t.weak
  }

  predicate Inv(s: State) {
    Books(s.w, Total(s.pcs)) && forall j :: 0 <= j < |s.pcs| ==> Local(s.w, s.pcs[j])
  }

  // ---------- counting lemmas ----------

  /** t becomes t' when one thread's share changes from a to b. */
  predicate Shifts(t: Tally, t': Tally, a: Tally, b: Tally) {
    t'.strong == t.strong - a.strong + b.strong && t'.weak == t.weak - a.weak + b.weak &&
    t'.window == t.window - a.window + b.window && t'.ends == t.ends - a.ends + b.ends &&
    t'.last == t.last - a.last + b.last && t'.kills == t.kills - a.kills + b.kills
  }

  /** t has room for a share a. */
  predicate Covers(t: Tally, a: Tally) {
    t.strong >= a.strong && t.weak >= a.weak && t.window >= a.window &&
    t.ends >= a.ends && t.last >= a.last && t.kills >= a.kills
  }

  lemma {:induction false} TotalMoves(pcs: seq<Pc>, i: nat, pc: Pc)
    requires i < |pcs|
    ensures Shifts(Total(pcs), Total(pcs[i := pc]), Share(pcs[i]), Share(pc))
    ensures Covers(Total(pcs), Share(pcs[i]))
  {
    if i == 0 {
      assert pcs[i := pc][1..] == pcs[1..];
    } else {
      assert pcs[i := pc][1..] == pcs[1..][i - 1 := pc];
      TotalMoves(pcs[1..], i - 1, pc);
    }
  }

  lemma {:induction false} TotalOrder(pcs: seq<Pc>)
    ensures Total(pcs).window <= Total(pcs).strong <= Total(pcs).weak
    ensures Total(pcs).last + Total(pcs).kills <= Total(pcs).weak
  {
    if pcs != [] { TotalOrder(pcs[1..]); }
  }

  // ---------- one step ----------

  datatype Phase = Starting | Promoting | Counting | Ending

  function PhaseOf(pc: Pc): Phase {
    match pc
    case Idle => Starting
    case IncStrongInc(_, _) | Unbias | FixRead | FixCas(_) => Counting
    case PromoteRead | PromoteCas(_) | PromoteHard(_) | PromoteHardCas(_) => Promoting
    case PromoteHardRead | PromoteAsk | PromoteInc => Promoting
    case _ => Ending
  }

  /** Thread at pc makes the move m, which takes the tally from t to t'. */
  predicate Moves(w: Words, t: Tally, pc: Pc, a: Act, m: Moved, t': Tally) {
    MayStart(w, pc, a) && m == Move(w, pc, a) && Shifts(t, t', Share(pc), Share(m.pc))
  }

  lemma {:induction false} StartAccounts(w: Words, t: Tally, pc: Pc, a: Act, m: Moved, t': Tally)
    requires Moves(w, t, pc, a, m, t') && Accounts(w, t) && PhaseOf(pc) == Starting
    ensures Accounts(m.w, t') && m.w.removals + t'.window >= w.removals + t.window
  {
  }

  lemma {:induction false} PromoteAccounts(w: Words, t: Tally, pc: Pc, a: Act, m: Moved, t': Tally)
    requires Moves(w, t, pc, a, m, t') && Accounts(w, t) && PhaseOf(pc) == Promoting
    ensures Accounts(m.w, t') && m.w.removals + t'.window >= w.removals + t.window
  {
  }

  lemma {:induction false} FixReadAccounts(w: Words, t: Tally, pc: Pc, a: Act, m: Moved, t': Tally)
    requires Moves(w, t, pc, a, m, t') && Accounts(w, t) && pc.FixRead?
    ensures Accounts(m.w, t') && m.w.removals + t'.window >= w.removals + t.window
  {
  }

  lemma {:induction false} FixCasAccounts(w: Words, t: Tally, pc: Pc, a: Act, m: Moved, t': Tally)
    requires Moves(w, t, pc, a, m, t') && Accounts(w, t) && pc.FixCas?
    ensures Accounts(m.w, t') && m.w.removals + t'.window >= w.removals + t.window
  {
  }

  lemma {:induction false} IncAccounts(w: Words, t: Tally, pc: Pc, a: Act, m: Moved, t': Tally)
    requires Moves(w, t, pc, a, m, t') && Accounts(w, t) && (pc.IncStrongInc? || pc.Unbias?)
    ensures Accounts(m.w, t') && m.w.removals + t'.window >= w.removals + t.window
  {
  }

  lemma {:induction false} CountAccounts(w: Words, t: Tally, pc: Pc, a: Act, m: Moved, t': Tally)
    requires Moves(w, t, pc, a, m, t') && Accounts(w, t) && PhaseOf(pc) == Counting
    ensures Accounts(m.w, t') && m.w.removals + t'.window >= w.removals + t.window
  {
    if pc.FixRead? {
      FixReadAccounts(w, t, pc, a, m, t');
    } else if pc.FixCas? {
      FixCasAccounts(w, t, pc, a, m, t');
    } else {
      IncAccounts(w, t, pc, a, m, t');
    }
  }

  predicate Destroying(pc: Pc) { pc.Dtor0? || pc.Dtor1? || pc.Dtor2? }

  lemma {:induction false} DtorAccounts(w: Words, t: Tally, pc: Pc, a: Act, m: Moved, t': Tally)
    requires Moves(w, t, pc, a, m, t') && Accounts(w, t) && Destroying(pc)
    ensures Accounts(m.w, t') && m.w.removals + t'.window >= w.removals + t.window
  {
  }

  lemma {:induction false} DropAccounts(w: Words, t: Tally, pc: Pc, a: Act, m: Moved, t': Tally)
    requires Moves(w, t, pc, a, m, t') && Accounts(w, t) && PhaseOf(pc) == Ending && !Destroying(pc)
    ensures Accounts(m.w, t') && m.w.removals + t'.window >= w.removals + t.window
  {
  }

  lemma {:induction false} EndAccounts(w: Words, t: Tally, pc: Pc, a: Act, m: Moved, t': Tally)
    requires Moves(w, t, pc, a, m, t') && Accounts(w, t) && PhaseOf(pc) == Ending
    ensures Accounts(m.w, t') && m.w.removals + t'.window >= w.removals + t.window
  {
    if Destroying(pc) { DtorAccounts(w, t, pc, a, m, t'); } else { DropAccounts(w, t, pc, a, m, t'); }
  }

  lemma {:induction false} AccountsMove(w: Words, t: Tally, pc: Pc, a: Act, m: Moved, t': Tally)
    requires Moves(w, t, pc, a, m, t') && Accounts(w, t)
    ensures Accounts(m.w, t') && m.w.removals + t'.window >= w.removals + t.window
  {
    match PhaseOf(pc)
    case Starting => StartAccounts(w, t, pc, a, m, t');
    case Promoting => PromoteAccounts(w, t, pc, a, m, t');
    case Counting => CountAccounts(w, t, pc, a, m, t');
    case Ending => EndAccounts(w, t, pc, a, m, t');
  }

  /** What is known where a thread is about to move without a clash. */
  predicate Ready(w: Words, t: Tally, pc: Pc) {
    Books(w, t) && Local(w, pc) && Covers(t, Share(pc)) &&
    (pc.FixCas? && w.strong == pc.cur ==> t.window == 0)
  }

  lemma {:induction false} StartEndings(w: Words, t: Tally, pc: Pc, a: Act, m: Moved, t': Tally)
    requires Moves(w, t, pc, a, m, t') && Ready(w, t, pc) && PhaseOf(pc) == Starting
    ensures Endings(m.w, t') && m.w.removals + t'.window <= 1
  {
  }

  lemma {:induction false} PromoteEndings(w: Words, t: Tally, pc: Pc, a: Act, m: Moved, t': Tally)
    requires Moves(w, t, pc, a, m, t') && Ready(w, t, pc) && PhaseOf(pc) == Promoting
    ensures Endings(m.w, t') && m.w.removals + t'.window <= 1
  {
  }

  lemma {:induction false} CountEndings(w: Words, t: Tally, pc: Pc, a: Act, m: Moved, t': Tally)
    requires Moves(w, t, pc, a, m, t') && Ready(w, t, pc) && PhaseOf(pc) == Counting
    ensures Endings(m.w, t') && m.w.removals + t'.window <= 1
  {
  }

  lemma {:induction false} DtorEndings(w: Words, t: Tally, pc: Pc, a: Act, m: Moved, t': Tally)
    requires Moves(w, t, pc, a, m, t') && Ready(w, t, pc) && Destroying(pc)
    ensures Endings(m.w, t') && m.w.removals + t'.window <= 1
  {
  }

  predicate LastOne(pc: Pc) { pc.LastWeak? || pc.LastWeakNormal? || pc.LastWeakExtended? }

  lemma {:induction false} LastEndings(w: Words, t: Tally, pc: Pc, a: Act, m: Moved, t': Tally)
    requires Moves(w, t, pc, a, m, t') && Ready(w, t, pc) && LastOne(pc)
    ensures Endings(m.w, t') && m.w.removals + t'.window <= 1
  {
  }

  lemma {:induction false} DropEndings(w: Words, t: Tally, pc: Pc, a: Act, m: Moved, t': Tally)
    requires Moves(w, t, pc, a, m, t') && Ready(w, t, pc) && PhaseOf(pc) == Ending && !Destroying(pc) && !LastOne(pc)
    ensures Endings(m.w, t') && m.w.removals + t'.window <= 1
  {
  }

  lemma {:induction false} EndEndings(w: Words, t: Tally, pc: Pc, a: Act, m: Moved, t': Tally)
    requires Moves(w, t, pc, a, m, t') && Ready(w, t, pc) && PhaseOf(pc) == Ending
    ensures Endings(m.w, t') && m.w.removals + t'.window <= 1
  {
    if Destroying(pc) {
      DtorEndings(w, t, pc, a, m, t');
    } else if LastOne(pc) {
      LastEndings(w, t, pc, a, m, t');
    } else {
      DropEndings(w, t, pc, a, m, t');
    }
  }

  lemma {:induction false} EndingsMove(w: Words, t: Tally, pc: Pc, a: Act, m: Moved, t': Tally)
    requires Moves(w, t, pc, a, m, t') && Ready(w, t, pc)
    ensures Endings(m.w, t') && m.w.removals + t'.window <= 1
  {
    match PhaseOf(pc)
    case Starting => StartEndings(w, t, pc, a, m, t');
    case Promoting => PromoteEndings(w, t, pc, a, m, t');
    case Counting => CountEndings(w, t, pc, a, m, t');
    case Ending => EndEndings(w, t, pc, a, m, t');
  }

  /** The moving thread and every other thread keep their local facts. */
  lemma {:induction false} OwnLocal(w: Words, t: Tally, pc: Pc, a: Act, m: Moved)
    requires MayStart(w, pc, a) && m == Move(w, pc, a) && Ready(w, t, pc) && PinKept(m.w, m.pc)
    ensures Local(m.w, m.pc)
  {
  }

  /** How the words can change as far as a standing thread is concerned. */
  predicate Undisturbed(w: Words, w': Words) {
    (w.extended ==> w'.extended) && (w.weakGone ==> w'.weakGone && w'.extended == w.extended && w'.strong == w.strong) &&
    (Dead(w) ==> Dead(w'))
  }

  lemma {:induction false} WordsMove(w: Words, t: Tally, pc: Pc, a: Act, m: Moved)
    requires MayStart(w, pc, a) && m == Move(w, pc, a) && Ready(w, t, pc)
    ensures Undisturbed(w, m.w)
  {
  }

  lemma {:induction false} OtherLocal(w: Words, w': Words, other: Pc)
    requires Undisturbed(w, w') && Local(w, other) && PinKept(w', other)
    ensures Local(w', other)
  {
  }

  lemma {:induction false} LocalMove(w: Words, t: Tally, pc: Pc, a: Act, m: Moved, other: Pc)
    requires MayStart(w, pc, a) && m == Move(w, pc, a) && Ready(w, t, pc)
    requires other == m.pc || Local(w, other)
    requires PinKept(m.w, other)
    ensures Local(m.w, other)
  {
    if other == m.pc {
      OwnLocal(w, t, pc, a, m);
    } else {
      WordsMove(w, t, pc, a, m);
      OtherLocal(w, m.w, other);
    }
  }

  lemma {:induction false} StepKeepsInv(s: State, i: nat, a: Act)
    requires Inv(s) && Legal(s, i, a) && !Clash(s, i, a)
    ensures Inv(Do(s, i, a))
  {
    var s', m := Do(s, i, a), Move(s.w, s.pcs[i], a);
    var t, t' := Total(s.pcs), Total(s'.pcs);
    TotalMoves(s.pcs, i, m.pc);
    TotalOrder(s'.pcs);
    AccountsMove(s.w, t, s.pcs[i], a, m, t');
    EndingsMove(s.w, t, s.pcs[i], a, m, t');
    LocalsMove(s, i, a, m);
  }

  lemma {:induction false} LocalsMove(s: State, i: nat, a: Act, m: Moved)
    requires Inv(s) && Legal(s, i, a) && !Clash(s, i, a) && m == Move(s.w, s.pcs[i], a)
    ensures var s' := Do(s, i, a); forall j :: 0 <= j < |s'.pcs| ==> Local(s'.w, s'.pcs[j])
  {
    var s' := Do(s, i, a);
    TotalMoves(s.pcs, i, m.pc);
    forall j | 0 <= j < |s'.pcs| ensures Local(s'.w, s'.pcs[j]) {
      assert PinKept(s'.w, s'.pcs[j]);
      LocalMove(s.w, Total(s.pcs), s.pcs[i], a, m, s'.pcs[j]);
    }
  }

  // ---------- whole runs ----------

  datatype Turn = Turn(thread: nat, act: Act)

  function Exec(s: State, run: seq<Turn>): State
    requires LegalRun(s, run)
    decreases |run|
  {
    if run == [] then s else Exec(Do(s, run[0].thread, run[0].act), run[1..])
  }

  predicate LegalRun(s: State, run: seq<Turn>)
    decreases |run|
  {
    run == [] ||
    (Legal(s, run[0].thread, run[0].act) && LegalRun(Do(s, run[0].thread, run[0].act), run[1..]))
  }

  predicate ClashFree(s: State, run: seq<Turn>)
    requires LegalRun(s, run)
    decreases |run|
  {
    run == [] ||
    (!Clash(s, run[0].thread, run[0].act) && ClashFree(Do(s, run[0].thread, run[0].act), run[1..]))
  }

  lemma {:induction false} IdleTotal(pcs: seq<Pc>)
    requires forall j :: 0 <= j < |pcs| ==> pcs[j].Idle?
    ensures Total(pcs) == Tally(0, 0, 0, 0, 0, 0)
  {
    if pcs != [] { IdleTotal(pcs[1..]); }
  }

  lemma {:induction false} InitialBooks(w: Words, t: Tally)
    requires Fresh(w) && t == Tally(0, 0, 0, 0, 0, 0)
    ensures Books(w, t)
  {
  }

  lemma {:induction false} InitialInv(s: State)
    requires Initial(s)
    ensures Inv(s)
  {
    IdleTotal(s.pcs);
    InitialBooks(s.w, Total(s.pcs));
    forall j | 0 <= j < |s.pcs| ensures Local(s.w, s.pcs[j]) {
      assert s.pcs[j] == Idle;
    }
  }

  lemma {:induction false} RunKeepsInv(s: State, run: seq<Turn>)
    requires Inv(s) && LegalRun(s, run) && ClashFree(s, run)
    ensures Inv(Exec(s, run))
    decreases |run|
  {
    if run != [] {
      StepKeepsInv(s, run[0].thread, run[0].act);
      RunKeepsInv(Do(s, run[0].thread, run[0].act), run[1..]);
    }
  }

  lemma {:induction false} RunKeepsAccounts(s: State, run: seq<Turn>)
    requires Accounts(s.w, Total(s.pcs)) && LegalRun(s, run)
    ensures Accounts(Exec(s, run).w, Total(Exec(s, run).pcs))
    ensures Committed(Exec(s, run)) >= Committed(s)
    ensures !ClashFree(s, run) ==> Committed(Exec(s, run)) >= 2
    decreases |run|
  {
    if run != [] {
      var i, a := run[0].thread, run[0].act;
      var m := Move(s.w, s.pcs[i], a);
      TotalMoves(s.pcs, i, m.pc);
      AccountsMove(s.w, Total(s.pcs), s.pcs[i], a, m, Total(Do(s, i, a).pcs));
      RunKeepsAccounts(Do(s, i, a), run[1..]);
    }
  }

  /** In every interleaving mStrong is the references outstanding plus one bias less the
      biases subtracted; and the bias is subtracted at most once, now and whatever the
      threads do next, exactly when no fix-up ran inside another thread's window. */
  lemma {:induction false} BiasRemovedOnceIffNoClash(s: State, run: seq<Turn>)
    requires Initial(s) && LegalRun(s, run)
    ensures var s' := Exec(s, run);
            s'.w.strong == Refs(s') + s'.w.bias && BiasCounted(s'.w)
    ensures ClashFree(s, run) <==> Committed(Exec(s, run)) <= 1
  {
    InitialInv(s);
    RunKeepsAccounts(s, run);
    if ClashFree(s, run) { RunKeepsInv(s, run); }
  }

  // ---------- what the invariant gives a client ----------

  /** Where the thread that moves stands after its step. */
  function Next(s: State, i: nat, a: Act): Pc
    requires Enabled(s, i, a)
  {
    Do(s, i, a).pcs[i]
  }

  predicate Fixing(pc: Pc) { pc.FixRead? || pc.FixCas? }

  predicate Trying(pc: Pc) { pc.TryWeakRead? || pc.TryWeakCas? }

  /** The step by which a promotion takes its reference: the fix-up comes next. */
  predicate Promotes(s: State, i: nat, a: Act) {
    Enabled(s, i, a) && PhaseOf(s.pcs[i]).Promoting? && Fixing(Next(s, i, a))
  }

  /** The step that leaves the fix-up, wherever it leads. */
  predicate ReturnsTrue(s: State, i: nat, a: Act) {
    Enabled(s, i, a) && Fixing(s.pcs[i]) && !Fixing(Next(s, i, a))
  }

  /** The step that leaves a promotion for anything but the fix-up. */
  predicate ReturnsFalse(s: State, i: nat, a: Act) {
    Enabled(s, i, a) && PhaseOf(s.pcs[i]).Promoting? &&
    !PhaseOf(Next(s, i, a)).Promoting? && !Fixing(Next(s, i, a))
  }

  lemma {:induction false} PromotionTakes(s: State, i: nat, a: Act)
    requires Inv(s) && Promotes(s, i, a)
    ensures s.w.objDeletes == 0 && !Dead(s.w) && Refs(Do(s, i, a)) == Refs(s) + 1
  {
    TotalMoves(s.pcs, i, Next(s, i, a));
    assert Local(s.w, s.pcs[i]);
  }

  lemma {:induction false} PromotionSucceeds(s: State, i: nat, a: Act)
    requires Inv(s) && Legal(s, i, a) && !Clash(s, i, a) && ReturnsTrue(s, i, a)
    ensures Do(s, i, a).w.removals == 1 && Do(s, i, a).w.strong == Refs(Do(s, i, a)) > 0
    ensures Next(s, i, a).Idle? && Do(s, i, a).w.strongHandles == s.w.strongHandles + 1
  {
    TotalMoves(s.pcs, i, Next(s, i, a));
    assert Local(s.w, s.pcs[i]);
  }

  lemma {:induction false} PromotionFails(s: State, i: nat, a: Act)
    requires Inv(s) && ReturnsFalse(s, i, a)
    ensures Next(s, i, a).DropWeak? && Do(s, i, a).w == s.w
    ensures if !s.w.extended then Dead(s.w)
            else s.w.objDeletes == 0 &&
                 ((s.pcs[i].PromoteAsk? && !a.agree) || (s.pcs[i].PromoteHardRead? && s.w.strong == 0))
  {
    TotalMoves(s.pcs, i, Idle);
    assert Local(s.w, s.pcs[i]);
  }

  /** How every promotion of a clash-free run ends: it takes its reference on a living
      object and returns true only after the bias is gone.  It fails in the strong lifetime
      only if the last strong reference is gone for good; in the extended lifetime, on a
      living object, if that declines, or if it stood in the loop of the strong lifetime when
      the lifetime was extended and finds a count of zero there. */
  lemma {:induction false} PromotionOutcome(s: State, i: nat, a: Act)
    requires Inv(s) && Legal(s, i, a) && !Clash(s, i, a)
    ensures Promotes(s, i, a) ==> s.w.objDeletes == 0 && !Dead(s.w) && Refs(Do(s, i, a)) == Refs(s) + 1
    ensures ReturnsTrue(s, i, a) ==>
              Do(s, i, a).w.removals == 1 && Do(s, i, a).w.strong == Refs(Do(s, i, a)) > 0
    ensures ReturnsFalse(s, i, a) ==>
              if !s.w.extended then Dead(s.w)
              else s.w.objDeletes == 0 &&
                   ((s.pcs[i].PromoteAsk? && !a.agree) || (s.pcs[i].PromoteHardRead? && s.w.strong == 0))
  {
    if Promotes(s, i, a) {
      PromotionTakes(s, i, a);
    } else if ReturnsTrue(s, i, a) {
      PromotionSucceeds(s, i, a);
    } else if ReturnsFalse(s, i, a) {
      PromotionFails(s, i, a);
    }
  }

  /** The step is a compare-and-swap that finds another count than the thread read. */
  predicate LosesRace(s: State, i: nat)
    requires i < |s.pcs|
  {
    match s.pcs[i]
    case PromoteCas(cur) => s.w.strong != cur
    case PromoteHardCas(cur) => s.w.strong != cur
    case FixCas(cur) => s.w.strong != cur
    case TryWeakCas(_, cur) => s.w.weak != cur
    case _ => false
  }

  /** How a promotion goes on until then: it changes nothing; it reads the count again
      exactly if another thread has changed it meanwhile; and it looks at the lifetime only
      if it read the count while nobody had a strong reference. */
  lemma {:induction false} PromotionGoesOn(s: State, i: nat, a: Act)
    requires Inv(s) && Enabled(s, i, a) && PhaseOf(s.pcs[i]).Promoting?
    ensures PhaseOf(Next(s, i, a)).Promoting? ==> Do(s, i, a).w == s.w
    ensures Next(s, i, a).PromoteRead? || Next(s, i, a).PromoteHardRead? <==> LosesRace(s, i)
    ensures Next(s, i, a).PromoteCas? ==> s.pcs[i].PromoteRead? && Next(s, i, a).cur == s.w.strong && Refs(s) > 0
    ensures Next(s, i, a).PromoteHard? ==> s.pcs[i].PromoteRead? && Next(s, i, a).cur == s.w.strong && Refs(s) == 0
    ensures s.pcs[i].PromoteRead? ==> (Next(s, i, a).PromoteCas? <==> Refs(s) > 0)
    ensures Next(s, i, a).PromoteAsk? <==> s.pcs[i].PromoteHard? && s.w.extended
    ensures Next(s, i, a).PromoteInc? <==> s.pcs[i].PromoteAsk? && a.agree
  {
  }

  lemma {:induction false} FixMove(w: Words, t: Tally, pc: Pc, agree: bool, m: Moved)
    requires Books(w, t) && Covers(t, Share(pc)) && Fixing(pc) && m == Advance(w, pc, agree)
    ensures Fixing(m.pc) ==> m.w == w
    ensures m.pc.FixRead? <==> pc.FixCas? && w.strong != pc.cur
    ensures m.pc.FixCas? <==> pc.FixRead? && w.bias > 0
  {
  }

  /** The fix-up changes nothing until it returns, and it reads the count again exactly if
      another thread has changed it meanwhile. */
  lemma {:induction false} FixUpGoesOn(s: State, i: nat, a: Act)
    requires Inv(s) && Enabled(s, i, a) && Fixing(s.pcs[i])
    ensures Fixing(Next(s, i, a)) ==> Do(s, i, a).w == s.w
    ensures Next(s, i, a).FixRead? <==> LosesRace(s, i)
    ensures Next(s, i, a).FixCas? <==> s.pcs[i].FixRead? && s.w.bias > 0
  {
    TotalMoves(s.pcs, i, Idle);
    FixMove(s.w, Total(s.pcs), s.pcs[i], a.agree, Move(s.w, s.pcs[i], a));
  }

  /** attemptIncWeak, by one who keeps the weakref_impl: it reads again exactly if it lost a
      race, and it ends with a weak reference more. */
  lemma {:induction false} WeakAttemptOutcome(s: State, i: nat, a: Act)
    requires Inv(s) && Enabled(s, i, a) && Trying(s.pcs[i])
    ensures Next(s, i, a).TryWeakRead? <==> LosesRace(s, i)
    ensures if Trying(Next(s, i, a)) then Do(s, i, a).w == s.w
            else Next(s, i, a).Idle? && Do(s, i, a).w == TakeWeak(s.w).(weakHandles := s.w.weakHandles + 1)
  {
    assert Local(s.w, s.pcs[i]);
  }

  lemma {:induction false} DeadStaysDead(w: Words, t: Tally, pc: Pc, a: Act)
    requires MayStart(w, pc, a) && Books(w, t) && Local(w, pc) && Covers(t, Share(pc)) && Dead(w)
    ensures Dead(Move(w, pc, a).w)
  {
  }

  /** No run revives a strong-lifetime object whose last strong reference went. */
  lemma {:induction false} NeverRevived(s: State, run: seq<Turn>)
    requires Inv(s) && LegalRun(s, run) && ClashFree(s, run) && Dead(s.w)
    ensures Dead(Exec(s, run).w)
    decreases |run|
  {
    if run != [] {
      var i, a := run[0].thread, run[0].act;
      TotalMoves(s.pcs, i, Idle);
      assert Local(s.w, s.pcs[i]);
      DeadStaysDead(s.w, Total(s.pcs), s.pcs[i], a);
      StepKeepsInv(s, i, a);
      NeverRevived(Do(s, i, a), run[1..]);
    }
  }

  /** Neither block is used after it was deleted, and so neither is deleted twice. */
  lemma {:induction false} NothingTouchedAfterFree(s: State, i: nat, a: Act)
    requires Inv(s) && Enabled(s, i, a)
    ensures s.w.refsDeletes == 0
    ensures TouchesObject(s.w, s.pcs[i], a) ==> s.w.objDeletes == 0
  {
    TotalMoves(s.pcs, i, Idle);
    assert Local(s.w, s.pcs[i]);
  }

  predicate Quiet(s: State) { forall j :: 0 <= j < |s.pcs| ==> s.pcs[j].Idle? }

  /** What every clash-free run of legal calls leaves behind. */
  lemma {:induction false} CleanRun(s: State, run: seq<Turn>)
    requires Initial(s) && LegalRun(s, run) && ClashFree(s, run)
    ensures var s' := Exec(s, run); var w := s'.w;
      // the counters
      && w.removals <= 1
      && w.strong == Refs(s') + (if w.removals == 0 then INITIAL_STRONG_VALUE else 0)
      && w.weak == w.strongHandles + w.weakHandles + Total(s'.pcs).weak
      // a reference, a client's or a running call's, keeps alive what it must
      && w.objDeletes <= 1 && w.refsDeletes <= 1
      && (Refs(s') > 0 ==> w.objDeletes == 0)
      && (w.weak > 0 ==> w.refsDeletes == 0 && (w.extended ==> w.objDeletes == 0))
      // once all calls are over, what nobody needs is gone
      && (Quiet(s') ==>
            && (w.refsDeletes == 1 <==> w.taken && w.strongHandles + w.weakHandles == 0)
            && (w.objDeletes == 1 <==> w.refsDeletes == 1 || Dead(w)))
    ensures Inv(Exec(s, run))
  {
    InitialInv(s);
    RunKeepsInv(s, run);
    var s' := Exec(s, run);
    if Quiet(s') { IdleTotal(s'.pcs); }
  }

  // ---------- the clash ----------

  lemma {:induction false} TotalOfTwo(pcs: seq<Pc>)
    requires |pcs| == 2
    ensures Total(pcs).strong <= 2
  {
    assert Total(pcs[1..][1..]) == Tally(0, 0, 0, 0, 0, 0);
    assert Total(pcs[1..]).strong == Share(pcs[1]).strong;
  }

  lemma {:induction false} ExecSnoc(s: State, run: seq<Turn>, turn: Turn)
    requires LegalRun(s, run) && Legal(Exec(s, run), turn.thread, turn.act)
    ensures LegalRun(s, run + [turn]) && Exec(s, run + [turn]) == Do(Exec(s, run), turn.thread, turn.act)
    decreases |run|
  {
    if run == [] {
      assert ([] + [turn])[1..] == [];
    } else {
      assert (run + [turn])[1..] == run[1..] + [turn];
      ExecSnoc(Do(s, run[0].thread, run[0].act), run[1..], turn);
    }
  }

  /** One turn more of two threads, from t to t'. */
  lemma {:induction false} TurnOfTwo(s: State, run: seq<Turn>, t: State, turn: Turn, t': State)
    requires LegalRun(s, run) && Exec(s, run) == t && |t.pcs| == 2
    requires Enabled(t, turn.thread, turn.act) && t' == Do(t, turn.thread, turn.act)
    requires t'.w.strongHandles <= 2 && t'.w.weak <= 3 && PinKept(t'.w, t'.pcs[0]) && PinKept(t'.w, t'.pcs[1])
    ensures LegalRun(s, run + [turn]) && Exec(s, run + [turn]) == t'
  {
    TotalOfTwo(t'.pcs);
    ExecSnoc(s, run, turn);
  }

  /** Where two threads are, with the words that matter here. */
  predicate Stand(t: State, p0: Pc, p1: Pc, strong: int, weak: int, strongHandles: nat, removals: nat, extended: bool) {
    t.pcs == [p0, p1] && t.w.strong == strong && t.w.weak == weak && t.w.strongHandles == strongHandles &&
    t.w.weakHandles == 1 && t.w.removals == removals && t.w.extended == extended && !t.w.weakGone && t.w.objDeletes == 0
  }

  /** Thread 0 makes a weak reference from the bare pointer and thread 1 sets out to promote
      it. */
  lemma {:induction false} Opening(s: State) returns (run: seq<Turn>)
    requires Initial(s) && |s.pcs| == 2
    ensures LegalRun(s, run) && Stand(Exec(s, run), Idle, PromoteRead, INITIAL_STRONG_VALUE, 2, 0, 0, false)
  {
    var a1, a2 := IncWeak(ByRaw), AttemptIncStrong(ByWeak);
    var s1 := Do(s, 0, a1);
    assert s1.pcs == [Idle, Idle];
    TurnOfTwo(s, [], s, Turn(0, a1), s1);
    TurnOfTwo(s, [] + [Turn(0, a1)], s1, Turn(1, a2), Do(s1, 1, a2));
    run := [] + [Turn(0, a1)] + [Turn(1, a2)];
  }

  /** Thread 0 takes the first strong reference from the bare pointer, up to the moment it has
      found the bias. */
  lemma {:induction false} FirstStrong(s: State, run: seq<Turn>, p1: Pc) returns (run': seq<Turn>)
    requires LegalRun(s, run) && Stand(Exec(s, run), Idle, p1, INITIAL_STRONG_VALUE, 2, 0, 0, false)
    requires !p1.IncStrongInc? && !p1.TryWeakRead? && !p1.TryWeakCas?
    ensures LegalRun(s, run') && Stand(Exec(s, run'), Unbias, p1, INITIAL_STRONG_VALUE + 1, 3, 0, 0, false)
  {
    var t, a := Exec(s, run), IncStrong(ByRaw);
    var t1 := Do(t, 0, a);
    TurnOfTwo(s, run, t, Turn(0, a), t1);
    TurnOfTwo(s, run + [Turn(0, a)], t1, Turn(0, Go(false)), Do(t1, 0, Go(false)));
    run' := run + [Turn(0, a)] + [Turn(0, Go(false))];
  }

  /** Thread 1 promotes meanwhile, up to its fix-up. */
  lemma {:induction false} ToFixUp(s: State, run: seq<Turn>) returns (run': seq<Turn>)
    requires LegalRun(s, run) && Stand(Exec(s, run), Unbias, PromoteRead, INITIAL_STRONG_VALUE + 1, 3, 0, 0, false)
    ensures LegalRun(s, run')
    ensures Stand(Exec(s, run'), Unbias, FixCas(INITIAL_STRONG_VALUE + 2), INITIAL_STRONG_VALUE + 2, 3, 0, 0, false)
  {
    var t, g := Exec(s, run), Turn(1, Go(false));
    var t1 := Do(t, 1, g.act);
    var t2 := Do(t1, 1, g.act);
    TurnOfTwo(s, run, t, g, t1);
    TurnOfTwo(s, run + [g], t1, g, t2);
    TurnOfTwo(s, run + [g] + [g], t2, g, Do(t2, 1, g.act));
    run' := run + [g] + [g] + [g];
  }

  /** The promotion's fix-up and the pending subtraction both go through. */
  lemma {:induction false} BothSubtract(s: State, run: seq<Turn>) returns (run': seq<Turn>)
    requires LegalRun(s, run)
    requires Stand(Exec(s, run), Unbias, FixCas(INITIAL_STRONG_VALUE + 2), INITIAL_STRONG_VALUE + 2, 3, 0, 0, false)
    ensures LegalRun(s, run') && Stand(Exec(s, run'), Idle, Idle, 2 - INITIAL_STRONG_VALUE, 3, 2, 2, false)
  {
    var t, g, h := Exec(s, run), Turn(1, Go(false)), Turn(0, Go(false));
    var t1 := Do(t, 1, g.act);
    TurnOfTwo(s, run, t, g, t1);
    TurnOfTwo(s, run + [g], t1, h, Do(t1, 0, h.act));
    run' := run + [g] + [h];
  }

  /** Two threads: one makes a weak reference and then the first strong one from the bare
      pointer, the other promotes the weak reference meanwhile.  Both subtract the bias. */
  lemma {:induction false} ClashHappens(s: State) returns (run: seq<Turn>)
    requires Initial(s) && |s.pcs| == 2
    ensures LegalRun(s, run)
    ensures var s' := Exec(s, run);
            Quiet(s') && s'.w.removals == 2 && s'.w.strongHandles == 2 &&
            s'.w.strong == 2 - INITIAL_STRONG_VALUE
  {
    run := Opening(s);
    run := FirstStrong(s, run, PromoteRead);
    run := ToFixUp(s, run);
    run := BothSubtract(s, run);
  }

  // ---------- a refusal that asked nobody ----------

  /** Thread 1 gets to the compare-and-swap of the strong lifetime. */
  lemma {:induction false} AtHardCas(s: State, run: seq<Turn>) returns (run': seq<Turn>)
    requires LegalRun(s, run) && Stand(Exec(s, run), Idle, PromoteRead, INITIAL_STRONG_VALUE, 2, 0, 0, false)
    ensures LegalRun(s, run')
    ensures Stand(Exec(s, run'), Idle, PromoteHardCas(INITIAL_STRONG_VALUE), INITIAL_STRONG_VALUE, 2, 0, 0, false)
  {
    var t, g := Exec(s, run), Turn(1, Go(false));
    var t1 := Do(t, 1, g.act);
    TurnOfTwo(s, run, t, g, t1);
    TurnOfTwo(s, run + [g], t1, g, Do(t1, 1, g.act));
    run' := run + [g] + [g];
  }

  /** Thread 0 removes the bias and extends the lifetime. */
  lemma {:induction false} Extending(s: State, run: seq<Turn>, p1: Pc) returns (run': seq<Turn>)
    requires LegalRun(s, run) && Stand(Exec(s, run), Unbias, p1, INITIAL_STRONG_VALUE + 1, 3, 0, 0, false)
    requires !p1.IncStrongInc? && !p1.TryWeakRead? && !p1.TryWeakCas?
    ensures LegalRun(s, run') && Stand(Exec(s, run'), Idle, p1, 1, 3, 1, 1, true)
  {
    var t, g, h := Exec(s, run), Turn(0, Go(false)), Turn(0, ExtendLifetime(ByStrong));
    var t1 := Do(t, 0, g.act);
    TurnOfTwo(s, run, t, g, t1);
    TurnOfTwo(s, run + [g], t1, h, Do(t1, 0, h.act));
    run' := run + [g] + [h];
  }

  /** Thread 0 gives its strong reference back. */
  lemma {:induction false} GivingBack(s: State, run: seq<Turn>, p1: Pc) returns (run': seq<Turn>)
    requires LegalRun(s, run) && Stand(Exec(s, run), Idle, p1, 1, 3, 1, 1, true)
    requires !p1.IncStrongInc? && !p1.TryWeakRead? && !p1.TryWeakCas?
    ensures LegalRun(s, run') && Stand(Exec(s, run'), Idle, p1, 0, 2, 0, 1, true)
  {
    var t, d, g := Exec(s, run), Turn(0, DecStrong), Turn(0, Go(false));
    var t1 := Do(t, 0, d.act);
    var t2 := Do(t1, 0, g.act);
    TurnOfTwo(s, run, t, d, t1);
    TurnOfTwo(s, run + [d], t1, g, t2);
    TurnOfTwo(s, run + [d] + [g], t2, g, Do(t2, 0, g.act));
    run' := run + [d] + [g] + [g];
  }

  /** Thread 1 stands at the compare-and-swap of the strong lifetime while thread 0 takes the
      first strong reference, extends the lifetime and gives the reference back.  The
      promotion then finds a count of zero and fails, although the object lives and was not
      asked. */
  lemma {:induction false} RefusedUnasked(s: State) returns (run: seq<Turn>)
    requires Initial(s) && |s.pcs| == 2
    ensures LegalRun(s, run)
    ensures var s' := Exec(s, run);
            |s'.pcs| == 2 && s'.pcs[1] == PromoteHardRead && ReturnsFalse(s', 1, Go(true)) && s'.w.extended && s'.w.objDeletes == 0
  {
    var p1 := PromoteHardCas(INITIAL_STRONG_VALUE);
    run := Opening(s);
    run := AtHardCas(s, run);
    run := FirstStrong(s, run, p1);
    run := Extending(s, run, p1);
    run := GivingBack(s, run, p1);
    run := ReadsAgain(s, run);
  }

  /** Thread 1 loses the race. */
  lemma {:induction false} ReadsAgain(s: State, run: seq<Turn>) returns (run': seq<Turn>)
    requires LegalRun(s, run) && Stand(Exec(s, run), Idle, PromoteHardCas(INITIAL_STRONG_VALUE), 0, 2, 0, 1, true)
    ensures LegalRun(s, run') && Stand(Exec(s, run'), Idle, PromoteHardRead, 0, 2, 0, 1, true)
    ensures ReturnsFalse(Exec(s, run'), 1, Go(true))
  {
    var t, g := Exec(s, run), Turn(1, Go(true));
    TurnOfTwo(s, run, t, g, Do(t, 1, g.act));
    run' := run + [g];
  }
}
