/**
 The wake lock taken for unsolicited messages and handed from one release timer to the next.
 A message, with those that processRadioState sends on the way, and the firing of a timer
 are one step.
 */
module WakeLock {
  import opened Basics

  const RIL_ERRNO_INVALID_RESPONSE := -1

  /** UserCallbackInfo: a wake timer or one of the vendor library's own; a wake timer whose
      parameter is no longer null is cancelled.  `msg` numbers the message it belongs to. */
  datatype Info = Info(wake: bool, cancelled: bool, msg: nat)

  datatype RadioState =
    | Off | Unavailable
    | SimNotReady | SimLockedOrAbsent | SimReady
    | RuimNotReady | RuimReady | RuimLockedOrAbsent
    | NvNotReady | NvReady
    | On

  datatype Tech = Umts | OneXRtt

  datatype Source = RuimSim | Nv

  /** voiceRadioTech, cdmaSubscriptionSource and simRuimStatus; None where it is negative. */
  datatype Radio = Radio(tech: Option<Tech>, source: Option<Source>, sim: Option<RadioState>)

  /** The lock; s_last_wake_timeout_info; the records not yet freed; the next address; how
      many wake messages went through; and what is known of the radio. */
  datatype State = State(locked: bool, last: Option<nat>, live: map<nat, Info>, next: nat, good: nat, radio: Radio)

  /** A message of a known code: that the radio state changed, or any other, with its entry
      of the table and what its response function returns for the data given. */
  datatype Msg = RadioStateChanged(state: RadioState) | Other(wake: bool, ret: int)

  datatype Step = Message(m: Msg) | RequestTimer | Fire(id: nat)

  predicate Start(s: State) { !s.locked && s.last.None? && s.live == map[] && s.good == 0 }

  // ---------- the radio state ----------

  /** responseInts, as far as its result goes. */
  function ResponseInts(isNull: bool, len: nat): int {
    if (isNull && len != 0) || len % 4 != 0 then RIL_ERRNO_INVALID_RESPONSE else 0
  }

  function ResponseVoid(isNull: bool, len: nat): int { 0 }

  /** The state of a radio that does not know RADIO_STATE_ON. */
  predicate OldState(state: RadioState) { !state.Off? && !state.Unavailable? && !state.On? }

  function DecodeTech(state: RadioState): Option<Tech> {
    match state
    case SimNotReady | SimLockedOrAbsent | SimReady => Some(Umts)
    case RuimNotReady | RuimReady | RuimLockedOrAbsent | NvNotReady | NvReady => Some(OneXRtt)
    case _ => None
  }

  function DecodeSource(state: RadioState): Option<Source> {
    match state
    case NvNotReady | NvReady => Some(Nv)
    case Off | Unavailable | On => None
    case _ => Some(RuimSim)
  }

  function DecodeSim(state: RadioState): Option<RadioState> {
    match state
    case SimLockedOrAbsent | SimReady | RuimReady | RuimLockedOrAbsent => Some(state)
    case _ => None
  }

  predicate TechChanged(r: Radio, state: RadioState) { OldState(state) && DecodeTech(state) != r.tech }

  predicate SourceChanged(r: Radio, state: RadioState) {
    OldState(state) && DecodeTech(state) == Some(OneXRtt) && DecodeSource(state) != r.source
  }

  predicate SimChanged(r: Radio, state: RadioState) { OldState(state) && DecodeSim(state) != r.sim }

  /** What processRadioState stores, value after value. */
  function TechNoted(r: Radio, state: RadioState): Radio {
    if TechChanged(r, state) then r.(tech := DecodeTech(state)) else r
  }

  function SourceNoted(r: Radio, state: RadioState): Radio {
    if SourceChanged(r, state) then TechNoted(r, state).(source := DecodeSource(state)) else TechNoted(r, state)
  }

  function Noted(r: Radio, state: RadioState): Radio {
    if SimChanged(r, state) then SourceNoted(r, state).(sim := DecodeSim(state)) else SourceNoted(r, state)
  }

  /** The messages it sends in all. */
  function Notices(r: Radio, state: RadioState): seq<Msg> {
    (if TechChanged(r, state) then [Other(true, ResponseInts(false, 4))] else []) +
    (if SourceChanged(r, state) then [Other(true, ResponseInts(false, 4))] else []) +
    (if SimChanged(r, state) then [Other(true, ResponseVoid(true, 0))] else [])
  }

  /** What each radio state says of the radio. */
  lemma RadioDecoded(r: Radio, state: RadioState)
    ensures state in {Off, Unavailable, On} ==> Noted(r, state) == r
    ensures state in {SimNotReady, SimLockedOrAbsent, SimReady} ==>
              Noted(r, state) == Radio(Some(Umts), r.source, if state == SimNotReady then None else Some(state))
    ensures state in {RuimNotReady, RuimReady, RuimLockedOrAbsent} ==>
              Noted(r, state) == Radio(Some(OneXRtt), Some(RuimSim), if state == RuimNotReady then None else Some(state))
    ensures state in {NvNotReady, NvReady} ==> Noted(r, state) == Radio(Some(OneXRtt), Some(Nv), None)
  {
  }

  /** There is one message for each value that is not what it was. */
  lemma NoticesCount(r: Radio, state: RadioState)
    ensures var n := Noted(r, state);
            |Notices(r, state)| ==
            (if n.tech != r.tech then 1 else 0) + (if n.source != r.source then 1 else 0) + (if n.sim != r.sim then 1 else 0)
  {
    var n := Noted(r, state);
    assert TechChanged(r, state) <==> n.tech != r.tech;
    assert SourceChanged(r, state) <==> n.source != r.source;
    assert SimChanged(r, state) <==> n.sim != r.sim;
  }

  // ---------- the steps ----------

  /** The record of the last wake message is cancelled and a new one takes its place. */
  function Schedule(s: State): State {
    var live := if s.last.Some? && s.last.value in s.live
                then s.live[s.last.value := s.live[s.last.value].(cancelled := true)] else s.live;
    s.(last := Some(s.next), live := live[s.next := Info(true, false, s.good + 1)], next := s.next + 1, good := s.good + 1)
  }

  /** A message that sends no other. */
  function ReceiveOther(s: State, wake: bool, ret: int): State {
    var a := if wake then s.(locked := true) else s;
    if ret != 0 then (if wake then a.(locked := false) else a)
    else if wake then Schedule(a) else a
  }

  function ReceiveAll(s: State, ms: seq<Msg>): State {
    if ms == [] then s
    else
      var t := ReceiveAll(s, ms[..|ms| - 1]);
      if ms[|ms| - 1].Other? then ReceiveOther(t, ms[|ms| - 1].wake, ms[|ms| - 1].ret) else t
  }

  /** A value that changed is stored and announced. */
  function Announced(s: State, changed: bool, r: Radio, ret: int): State {
    if changed then ReceiveOther(s.(radio := r), true, ret) else s
  }

  /** processRadioState: one value after the other.  All three codes wake; the first two
      carry one int, the last one nothing. */
  function Processed(s: State, state: RadioState): State {
    var r := s.radio;
    var a := Announced(s, TechChanged(r, state), TechNoted(r, state), ResponseInts(false, 4));
    var b := Announced(a, SourceChanged(r, state), SourceNoted(r, state), ResponseInts(false, 4));
    Announced(b, SimChanged(r, state), Noted(r, state), ResponseVoid(true, 0))
  }

  /** For a change of the radio state the lock is taken first, then come the messages of
      processRadioState, then the timer; its own response function is responseVoid. */
  function Receive(s: State, m: Msg): State {
    match m
    case Other(wake, ret) => ReceiveOther(s, wake, ret)
    case RadioStateChanged(state) =>
      Schedule(Processed(s.(locked := true), state))
  }

  function Fired(s: State, id: nat): State
    requires id in s.live
  {
    var releases := s.live[id].wake && !s.live[id].cancelled;
    s.(locked := s.locked && !releases, last := if s.last == Some(id) then None else s.last, live := s.live - {id})
  }

  /** The event loop fires only timers that exist. */
  predicate Legal(s: State, step: Step) { step.Fire? ==> step.id in s.live }

  function Do(s: State, step: Step): State
    requires Legal(s, step)
  {
    match step
    case Message(m) => Receive(s, m)
    case RequestTimer => s.(live := s.live[s.next := Info(false, false, 0)], next := s.next + 1)
    case Fire(id) => Fired(s, id)
  }

  predicate LegalRun(s: State, steps: seq<Step>)
    decreases |steps|, 0
  {
    steps == [] || (LegalRun(s, steps[..|steps| - 1]) && Legal(Run(s, steps[..|steps| - 1]), steps[|steps| - 1]))
  }

  function Run(s: State, steps: seq<Step>): State
    requires LegalRun(s, steps)
    decreases |steps|, 1
  {
    if steps == [] then s else Do(Run(s, steps[..|steps| - 1]), steps[|steps| - 1])
  }

  // ---------- the invariant ----------

  /** The record pointed at exists, is not cancelled and belongs to the latest wake message
      that went through; every other wake timer is cancelled. */
  ghost predicate Shape(s: State) {
    (forall id :: id in s.live ==> id < s.next) &&
    (forall id :: id in s.live && s.live[id].wake && !s.live[id].cancelled ==> s.last == Some(id)) &&
    (s.last.Some? ==> s.last.value in s.live && s.live[s.last.value] == Info(true, false, s.good))
  }

  /** While the lock is held, that record is there to release it. */
  ghost predicate Guarded(s: State) { s.locked ==> s.last.Some? }

  lemma AnnouncedKeeps(s: State, changed: bool, r: Radio, ret: int)
    requires Shape(s)
    ensures Shape(Announced(s, changed, r, ret))
  {
  }

  lemma ProcessKeeps(s: State, state: RadioState)
    requires Shape(s)
    ensures Shape(Processed(s, state))
  {
    var r := s.radio;
    var a := Announced(s, TechChanged(r, state), TechNoted(r, state), ResponseInts(false, 4));
    var b := Announced(a, SourceChanged(r, state), SourceNoted(r, state), ResponseInts(false, 4));
    AnnouncedKeeps(s, TechChanged(r, state), TechNoted(r, state), ResponseInts(false, 4));
    AnnouncedKeeps(a, SourceChanged(r, state), SourceNoted(r, state), ResponseInts(false, 4));
    AnnouncedKeeps(b, SimChanged(r, state), Noted(r, state), ResponseVoid(true, 0));
  }

  /** A message, with those nested in it. */
  lemma {:induction false} ReceiveKeeps(s: State, m: Msg)
    requires Shape(s)
    ensures Shape(Receive(s, m)) && (Guarded(s) ==> Guarded(Receive(s, m)))
  {
    if m.RadioStateChanged? { ProcessKeeps(s.(locked := true), m.state); }
  }

  lemma StepKeeps(s: State, step: Step)
    requires Shape(s) && Guarded(s) && Legal(s, step)
    ensures Shape(Do(s, step)) && Guarded(Do(s, step))
  {
    if step.Message? { ReceiveKeeps(s, step.m); }
  }

  lemma {:induction false} RunKeeps(s: State, steps: seq<Step>)
    requires Start(s) && LegalRun(s, steps)
    ensures Shape(Run(s, steps)) && Guarded(Run(s, steps))
  {
    if steps != [] {
      RunKeeps(s, steps[..|steps| - 1]);
      StepKeeps(Run(s, steps[..|steps| - 1]), steps[|steps| - 1]);
    }
  }

  // ---------- messages within messages ----------

  /** None of the messages nested in another leaves by the error exit. */
  lemma NoticesSucceed(r: Radio, state: RadioState)
    ensures forall i :: 0 <= i < |Notices(r, state)| ==> Notices(r, state)[i] == Other(true, 0)
  {
  }

  /** Messages that wake and go through leave the lock held, if there are any, and do to
      everything else what they do whoever holds the lock. */
  lemma {:induction false} AllGoThrough(s: State, b: bool, ms: seq<Msg>)
    requires forall i :: 0 <= i < |ms| ==> ms[i] == Other(true, 0)
    ensures ReceiveAll(s, ms).locked == (s.locked || ms != [])
    ensures ReceiveAll(s.(locked := b), ms) == ReceiveAll(s, ms).(locked := b || ms != [])
  {
    if ms != [] { AllGoThrough(s, b, ms[..|ms| - 1]); }
  }

  /** A message does not look at the radio. */
  lemma {:induction false} RadioApart(s: State, r: Radio, ms: seq<Msg>)
    requires forall i :: 0 <= i < |ms| ==> ms[i] == Other(true, 0)
    ensures ReceiveAll(s.(radio := r), ms) == ReceiveAll(s, ms).(radio := r)
  {
    if ms != [] { RadioApart(s, r, ms[..|ms| - 1]); }
  }

  /** One announcement more at the end of a list of messages. */
  lemma AnnouncedLast(s: State, ms: seq<Msg>, r: Radio, changed: bool, r': Radio, ms': seq<Msg>)
    requires ms' == ms + if changed then [Other(true, 0)] else []
    ensures Announced(ReceiveAll(s, ms).(radio := r), changed, r', 0) ==
            ReceiveAll(s, ms').(radio := if changed then r' else r)
  {
    if changed {
      assert ms'[..|ms'| - 1] == ms;
    } else {
      assert ms' == ms;
    }
  }

  function One(changed: bool): seq<Msg> { if changed then [Other(true, 0)] else [] }

  lemma ThreeAnnounced(s: State, c1: bool, r1: Radio, c2: bool, r2: Radio, c3: bool, r3: Radio)
    requires (!c1 ==> r1 == s.radio) && (!c2 ==> r2 == r1) && (!c3 ==> r3 == r2)
    ensures Announced(Announced(Announced(s, c1, r1, 0), c2, r2, 0), c3, r3, 0) ==
            ReceiveAll(s, One(c1) + One(c2) + One(c3)).(radio := r3)
  {
    assert [] + One(c1) == One(c1);
    AnnouncedLast(s, [], s.radio, c1, r1, One(c1));
    AnnouncedLast(s, One(c1), r1, c2, r2, One(c1) + One(c2));
    AnnouncedLast(s, One(c1) + One(c2), r2, c3, r3, One(c1) + One(c2) + One(c3));
  }

  /** Storing and announcing one value after the other is storing all and then announcing. */
  lemma ProcessIsNotices(s: State, state: RadioState)
    ensures Processed(s, state) == ReceiveAll(s.(radio := Noted(s.radio, state)), Notices(s.radio, state))
  {
    var r := s.radio;
    ThreeAnnounced(s, TechChanged(r, state), TechNoted(r, state), SourceChanged(r, state), SourceNoted(r, state),
                   SimChanged(r, state), Noted(r, state));
    RadioApart(s, Noted(r, state), Notices(r, state));
  }

  /** A change of the radio state, with what processRadioState sends in the middle of it, is
      the same as those messages one after the other and then a message of its own. */
  lemma NestedIsSequential(s: State, state: RadioState)
    ensures Receive(s, RadioStateChanged(state)) ==
            Receive(ReceiveAll(s.(radio := Noted(s.radio, state)), Notices(s.radio, state)), Other(true, 0))
  {
    NoticesSucceed(s.radio, state);
    ProcessIsNotices(s.(locked := true), state);
    AllGoThrough(s.(radio := Noted(s.radio, state)), true, Notices(s.radio, state));
    assert s.(locked := true).(radio := Noted(s.radio, state)) == s.(radio := Noted(s.radio, state)).(locked := true);
  }

  // ---------- who releases the lock ----------

  /** What a message leaves of the lock: an error exit drops it, whoever took it, and any
      other message that wakes holds it. */
  lemma LockAfter(s: State, m: Msg)
    ensures Receive(s, m).locked == if m.Other? && m.wake then m.ret == 0 else s.locked || m.RadioStateChanged?
  {
    if m.RadioStateChanged? { NestedIsSequential(s, m.state); }
  }

  /** In every run, the lock goes with the timer of the latest wake message that went
      through, and with a wake message that leaves by the error exit, and with nothing
      else. */
  lemma ReleasedIff(s: State, steps: seq<Step>, step: Step)
    requires Start(s) && LegalRun(s, steps) && Legal(Run(s, steps), step) && Run(s, steps).locked
    ensures !Do(Run(s, steps), step).locked <==>
            (step.Fire? && Run(s, steps).last == Some(step.id)) ||
            (step.Message? && step.m.Other? && step.m.wake && step.m.ret != 0)
    ensures var t := Run(s, steps);
            t.last.Some? && t.last.value in t.live && t.live[t.last.value] == Info(true, false, t.good)
  {
    RunKeeps(s, steps);
    if step.Message? { LockAfter(Run(s, steps), step.m); }
  }

  /** A message goes through and takes the lock; the next one fails and drops it, with the
      first one's timer still running. */
  lemma ErrorExitDropsEarlier(s: State)
    requires Start(s)
    ensures var steps := [Message(Other(true, 0)), Message(Other(true, RIL_ERRNO_INVALID_RESPONSE))];
            LegalRun(s, steps) && Run(s, steps[..1]).locked && !Run(s, steps).locked &&
            Run(s, steps).last == Some(s.next) && Run(s, steps).live[s.next] == Info(true, false, 1)
  {
    var one, two := Message(Other(true, 0)), Message(Other(true, RIL_ERRNO_INVALID_RESPONSE));
    var steps := [one, two];
    assert steps[..1] == [one] && [one][..0] == [];
    assert Run(s, []) == s && LegalRun(s, [one]) && Run(s, [one]) == Do(s, one);
    assert Run(s, steps) == Do(Do(s, one), two);
  }

  /** At most one wake timer is in force, and no firing of a cancelled one matters. */
  lemma OneInForce(s: State, steps: seq<Step>, a: nat, b: nat)
    requires Start(s) && LegalRun(s, steps)
    requires var live := Run(s, steps).live; a in live && b in live && live[a].wake && live[b].wake
    ensures var live := Run(s, steps).live; a == b || live[a].cancelled || live[b].cancelled
    ensures var t := Run(s, steps); t.live[a].cancelled ==> Fired(t, a).locked == t.locked && Fired(t, a).last == t.last
  {
    RunKeeps(s, steps);
  }

  // ---------- the records in the history ----------

  /** A message that does not wake changes nothing, whatever its response function says. */
  lemma QuietMessage(s: State, ret: int)
    ensures Receive(s, Other(false, ret)) == s
  {
  }

  /** The step is a wake message that goes through; it may send others on its way. */
  predicate GoesThrough(step: Step) {
    step.Message? && (step.m.RadioStateChanged? || (step.m.wake && step.m.ret == 0))
  }

  /** How many wake messages go through in it, with a radio of which r is known. */
  function Through(r: Radio, step: Step): nat {
    if !GoesThrough(step) then 0
    else if step.m.Other? then 1
    else
      var n := Noted(r, step.m.state);
      1 + (if n.tech != r.tech then 1 else 0) + (if n.source != r.source then 1 else 0) + (if n.sim != r.sim then 1 else 0)
  }

  /** What is known of the radio after a history. */
  function RadioAfter(r: Radio, steps: seq<Step>): Radio {
    if steps == [] then r
    else
      var q, step := RadioAfter(r, steps[..|steps| - 1]), steps[|steps| - 1];
      if step.Message? && step.m.RadioStateChanged? then Noted(q, step.m.state) else q
  }

  /** How many wake messages went through in it. */
  function Wakes(r: Radio, steps: seq<Step>): nat {
    if steps == [] then 0
    else
      var before := steps[..|steps| - 1];
      Wakes(r, before) + Through(RadioAfter(r, before), steps[|steps| - 1])
  }

  /** How many timers of its own the vendor library asked for. */
  function Requests(steps: seq<Step>): nat {
    if steps == [] then 0
    else Requests(steps[..|steps| - 1]) + if steps[|steps| - 1].RequestTimer? then 1 else 0
  }

  /** From s to t there are n wake records more, the last of them pointed at. */
  ghost predicate Adds(s: State, t: State, n: nat) {
    t.next == s.next + n && t.good == s.good + n && t.last == (if n > 0 then Some(t.next - 1) else s.last) &&
    forall id :: id in t.live <==> id in s.live || s.next <= id < t.next
  }

  lemma AddsBoth(s: State, t: State, u: State, m: nat, n: nat)
    requires Adds(s, t, m) && Adds(t, u, n)
    ensures Adds(s, u, m + n)
  {
  }

  lemma AnnouncedAdds(s: State, changed: bool, r: Radio)
    requires Shape(s)
    ensures Adds(s, Announced(s, changed, r, 0), if changed then 1 else 0)
    ensures Announced(s, changed, r, 0).radio == if changed then r else s.radio
    ensures Shape(Announced(s, changed, r, 0))
  {
    AnnouncedKeeps(s, changed, r, 0);
  }

  lemma ProcessAdds(s: State, state: RadioState)
    requires Shape(s)
    ensures Adds(s, Processed(s, state), |Notices(s.radio, state)|) && Processed(s, state).radio == Noted(s.radio, state)
  {
    var r := s.radio;
    var a := Announced(s, TechChanged(r, state), TechNoted(r, state), 0);
    var b := Announced(a, SourceChanged(r, state), SourceNoted(r, state), 0);
    AnnouncedAdds(s, TechChanged(r, state), TechNoted(r, state));
    AnnouncedAdds(a, SourceChanged(r, state), SourceNoted(r, state));
    AnnouncedAdds(b, SimChanged(r, state), Noted(r, state));
    AddsBoth(s, a, b, if TechChanged(r, state) then 1 else 0, if SourceChanged(r, state) then 1 else 0);
    AddsBoth(s, b, Processed(s, state),
             (if TechChanged(r, state) then 1 else 0) + (if SourceChanged(r, state) then 1 else 0),
             if SimChanged(r, state) then 1 else 0);
  }

  /** A message adds a record for itself and for each one sent on its way, if it wakes and
      goes through, and none otherwise. */
  lemma ReceiveAdds(s: State, m: Msg)
    requires Shape(s)
    ensures Adds(s, Receive(s, m), Through(s.radio, Message(m)))
    ensures Receive(s, m).radio == if m.RadioStateChanged? then Noted(s.radio, m.state) else s.radio
  {
    if m.RadioStateChanged? {
      var a := s.(locked := true);
      ProcessKeeps(a, m.state);
      ProcessAdds(a, m.state);
      NoticesCount(s.radio, m.state);
      AddsBoth(a, Processed(a, m.state), Receive(s, m), |Notices(s.radio, m.state)|, 1);
    }
  }

  lemma InSnoc(steps: seq<Step>, before: seq<Step>, step: Step, x: Step)
    requires steps == before + [step]
    ensures x in steps <==> x in before || x == step
  {
  }

  /** After every run the books are the history: what is known of the radio, how many wake
      messages went through, and how many records were made in all. */
  lemma {:induction false} History(s: State, steps: seq<Step>)
    requires Start(s) && LegalRun(s, steps)
    ensures Run(s, steps).radio == RadioAfter(s.radio, steps) && Run(s, steps).good == Wakes(s.radio, steps)
    ensures Run(s, steps).next == s.next + Wakes(s.radio, steps) + Requests(steps)
  {
    if steps != [] {
      var before, step := steps[..|steps| - 1], steps[|steps| - 1];
      History(s, before);
      RunKeeps(s, before);
      if step.Message? { ReceiveAdds(Run(s, before), step.m); }
    }
  }

  /** No timer fires before it is made. */
  lemma {:induction false} NotAhead(s: State, steps: seq<Step>, id: nat)
    requires Start(s) && LegalRun(s, steps) && Fire(id) in steps
    ensures id < Run(s, steps).next
  {
    var before, step := steps[..|steps| - 1], steps[|steps| - 1];
    InSnoc(steps, before, step, Fire(id));
    RunKeeps(s, before);
    if Fire(id) in before { NotAhead(s, before, id); }
    if step.Message? { ReceiveAdds(Run(s, before), step.m); }
  }

  /** The records that exist are those made and not fired. */
  lemma {:induction false} RecordLives(s: State, steps: seq<Step>, id: nat)
    requires Start(s) && LegalRun(s, steps)
    ensures id in Run(s, steps).live <==> s.next <= id < Run(s, steps).next && Fire(id) !in steps
  {
    if steps != [] {
      var before, step := steps[..|steps| - 1], steps[|steps| - 1];
      InSnoc(steps, before, step, Fire(id));
      RecordLives(s, before, id);
      RunKeeps(s, before);
      History(s, before);
      if Fire(id) in before { NotAhead(s, before, id); }
      if step.Message? { ReceiveAdds(Run(s, before), step.m); }
    }
  }

  /** The last step by which a wake message went through. */
  ghost predicate LatestWake(steps: seq<Step>, i: int) {
    0 <= i < |steps| && GoesThrough(steps[i]) && forall j :: i < j < |steps| ==> !GoesThrough(steps[j])
  }

  /** What a step does to the pointer. */
  lemma LastAfter(t: State, step: Step, u: State)
    requires Shape(t) && Legal(t, step) && u == Do(t, step)
    ensures if GoesThrough(step) then u.next > 0 && u.last == Some(u.next - 1)
            else u.last == if step.Fire? && t.last == Some(step.id) then None else t.last
  {
    if step.Message? { ReceiveAdds(t, step.m); }
  }

  /** The record that step i of the run made last. */
  ghost predicate MadeAt(s: State, steps: seq<Step>, i: nat, id: nat)
    requires i < |steps|
  {
    LegalRun(s, steps[..i + 1]) && Run(s, steps[..i + 1]).next == id + 1
  }

  lemma MadeBefore(s: State, steps: seq<Step>, n: nat, i: nat, id: nat)
    requires i < n <= |steps|
    ensures MadeAt(s, steps[..n], i, id) <==> MadeAt(s, steps, i, id)
  {
    assert steps[..n][..i + 1] == steps[..i + 1];
  }

  lemma MadeNow(s: State, steps: seq<Step>)
    requires steps != [] && LegalRun(s, steps) && Run(s, steps).next > 0
    ensures MadeAt(s, steps, |steps| - 1, Run(s, steps).next - 1)
  {
    assert steps[..|steps| - 1 + 1] == steps;
  }

  /** The timer has not fired since step i. */
  predicate Unfired(steps: seq<Step>, i: nat, id: nat)
    requires i < |steps|
  {
    Fire(id) !in steps[i + 1..]
  }

  lemma UnfiredStep(steps: seq<Step>, n: nat, i: nat, id: nat)
    requires i < n == |steps| - 1
    ensures Unfired(steps, i, id) <==> Unfired(steps[..n], i, id) && steps[n] != Fire(id)
  {
    assert steps[i + 1..] == steps[..n][i + 1..] + [steps[n]];
  }

  /** The record pointed at is the one made by the latest wake message that went through, by
      its place in the history, and it is pointed at exactly until it fires. */
  lemma {:induction false} LastIsLatest(s: State, steps: seq<Step>, i: nat) returns (id: nat)
    requires Start(s) && LegalRun(s, steps) && LatestWake(steps, i)
    ensures MadeAt(s, steps, i, id) && Run(s, steps).last == if Unfired(steps, i, id) then Some(id) else None
  {
    var n := |steps| - 1;
    var t := Run(s, steps[..n]);
    RunKeeps(s, steps[..n]);
    LastAfter(t, steps[n], Run(s, steps));
    if i == n {
      MadeNow(s, steps);
      id := Run(s, steps).next - 1;
    } else {
      id := LastIsLatest(s, steps[..n], i);
      MadeBefore(s, steps, n, i, id);
      UnfiredStep(steps, n, i, id);
    }
  }

  /** Without one nothing is pointed at. */
  lemma {:induction false} NoneWithoutWake(s: State, steps: seq<Step>)
    requires Start(s) && LegalRun(s, steps) && forall j :: 0 <= j < |steps| ==> !GoesThrough(steps[j])
    ensures Run(s, steps).last.None? && !Run(s, steps).locked
  {
    if steps != [] {
      var n := |steps| - 1;
      NoneWithoutWake(s, steps[..n]);
      RunKeeps(s, steps);
      RunKeeps(s, steps[..n]);
      LastAfter(Run(s, steps[..n]), steps[n], Run(s, steps));
    }
  }

  lemma {:induction false} SomeLatest(steps: seq<Step>, j: nat) returns (i: nat)
    requires j < |steps| && GoesThrough(steps[j])
    ensures LatestWake(steps, i)
    decreases |steps| - j
  {
    if k :| j < k < |steps| && GoesThrough(steps[k]) {
      i := SomeLatest(steps, k);
    } else {
      i := j;
    }
  }

  /** While the lock is held, the timer that will release it is that of the latest wake
      message, and it has not fired since. */
  lemma HeldForLatest(s: State, steps: seq<Step>) returns (i: nat, id: nat)
    requires Start(s) && LegalRun(s, steps) && Run(s, steps).locked
    ensures LatestWake(steps, i) && MadeAt(s, steps, i, id) && Unfired(steps, i, id) && Run(s, steps).last == Some(id)
  {
    var j := SomeWake(s, steps);
    i := SomeLatest(steps, j);
    id := LastIsLatest(s, steps, i);
    RunKeeps(s, steps);
  }

  lemma SomeWake(s: State, steps: seq<Step>) returns (j: nat)
    requires Start(s) && LegalRun(s, steps) && Run(s, steps).locked
    ensures j < |steps| && GoesThrough(steps[j])
  {
    if forall k :: 0 <= k < |steps| ==> !GoesThrough(steps[k]) { NoneWithoutWake(s, steps); }
    j :| 0 <= j < |steps| && GoesThrough(steps[j]);
  }

  // ---------- the code ----------

  class UserCallbackInfo {
    /** Its address, and the message it belongs to. */
    ghost const id: nat
    ghost const msg: nat
    const wake: bool
    var cancelled: bool

    constructor (ghost id: nat, wake: bool, ghost msg: nat)
      ensures this.id == id && this.wake == wake && this.msg == msg && !cancelled
    {
      this.id, this.wake, this.msg, cancelled := id, wake, msg, false;
    }
  }

  class Unsolicited {
    var locked: bool
    var last: UserCallbackInfo?
    var radio: Radio
    ghost var next: nat
    ghost var good: nat
    ghost var infos: map<nat, UserCallbackInfo>
    ghost var live: map<nat, Info>

    constructor (radio: Radio)
      ensures Valid() && Start(View())
    {
      locked, last, next, good, infos, live := false, null, 0, 0, map[], map[];
      this.radio := radio;
    }

    /** The records that exist, and the values in them. */
    ghost predicate Valid()
      reads this, infos.Values
    {
      infos.Keys == live.Keys && (last != null ==> last.id in infos && infos[last.id] == last) &&
      forall id :: id in infos ==>
        id < next && infos[id].id == id && live[id] == Info(infos[id].wake, infos[id].cancelled, infos[id].msg)
    }

    ghost function View(): State
      reads this
    {
      State(locked, if last == null then None else Some(last.id), live, next, good, radio)
    }

    /** Records are added, never replaced. */
    twostate predicate Grows()
      reads this
    {
      (forall id :: id in infos && id !in old(infos) ==> fresh(infos[id])) &&
      forall id :: id in old(infos) ==> id in infos && infos[id] == old(infos)[id]
    }

    /** internalRequestTimedCallback. */
    method TimedCallback(wake: bool, ghost msg: nat) returns (info: UserCallbackInfo)
      requires Valid()
      modifies this`next, this`infos, this`live
      ensures Valid() && fresh(info) && info.id == old(next) && next == old(next) + 1
      ensures infos == old(infos)[info.id := info] && live == old(live)[info.id := Info(wake, false, msg)]
    {
      info := new UserCallbackInfo(next, wake, msg);
      next, infos, live := next + 1, infos[next := info], live[next := Info(wake, false, msg)];
    }

    /** RIL_requestTimedCallback. */
    method RequestTimedCallback()
      requires Valid()
      modifies this`next, this`infos, this`live
      ensures Valid() && View() == Do(old(View()), RequestTimer)
    {
      var info := TimedCallback(false, 0);
    }

    /** s_last_wake_timeout_info->userParam = (void *)1. */
    method CancelLast()
      requires Valid() && last != null
      modifies this`live, last`cancelled
      ensures Valid() && live == old(live)[last.id := old(live)[last.id].(cancelled := true)]
    {
      last.cancelled := true;
      live := live[last.id := live[last.id].(cancelled := true)];
    }

    /** The end of RIL_onUnsolicitedResponse for a message that wakes. */
    method ScheduleTimeout()
      requires Valid()
      modifies this, infos.Values
      ensures Valid() && View() == Schedule(old(View())) && Grows()
    {
      if last != null { CancelLast(); }
      good := good + 1;
      last := TimedCallback(true, good);
    }

    /** RIL_onUnsolicitedResponse for a message that sends no other. */
    method OnOther(wake: bool, ret: int)
      requires Valid()
      modifies this, infos.Values
      ensures Valid() && View() == ReceiveOther(old(View()), wake, ret) && Grows()
    {
      if wake { locked := true; }
      if ret != 0 {
        if wake { locked := false; }
        return;
      }
      if wake { ScheduleTimeout(); }
    }

    method Announce(changed: bool, r: Radio, ret: int)
      requires Valid()
      modifies this, infos.Values
      ensures Valid() && View() == Announced(old(View()), changed, r, ret) && Grows()
      ensures radio == if changed then r else old(radio)
    {
      if changed {
        radio := r;
        OnOther(true, ret);
      }
    }

    method ProcessRadioState(state: RadioState)
      requires Valid()
      modifies this, infos.Values
      ensures Valid() && View() == Processed(old(View()), state) && Grows()
    {
      Announce(TechChanged(radio, state), radio.(tech := DecodeTech(state)), ResponseInts(false, 4));
      Announce(SourceChanged(radio, state), radio.(source := DecodeSource(state)), ResponseInts(false, 4));
      Announce(SimChanged(radio, state), radio.(sim := DecodeSim(state)), ResponseVoid(true, 0));
    }

    /** RIL_onUnsolicitedResponse for a message of a known code. */
    method OnUnsolicitedResponse(m: Msg)
      requires Valid()
      modifies this, infos.Values
      ensures Valid() && View() == Receive(old(View()), m) && Grows()
    {
      match m {
        case Other(wake, ret) => OnOther(wake, ret);
        case RadioStateChanged(state) =>
          locked := true;
          ProcessRadioState(state);
          ScheduleTimeout();
      }
    }

    /** userTimerCallback, with wakeTimeoutCallback for a wake timer. */
    method UserTimerCallback(info: UserCallbackInfo)
      requires Valid() && info.id in infos && infos[info.id] == info
      modifies this
      ensures Valid() && View() == Fired(old(View()), info.id)
    {
      if info.wake {
        if !info.cancelled { locked := false; }
      }
      if last != null && last == info { last := null; }
      infos, live := infos - {info.id}, live - {info.id};
    }
  }
}
