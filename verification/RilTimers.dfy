/**
 Timer arithmetic and the deadline-ordered timer list of the RIL event loop, on values.
 */
module RilTimers {

  /** struct timeval. */
  datatype Time = Time(sec: int, usec: int)

  /** timercmp(a, b, <). */
  predicate Less(a: Time, b: Time) {
    if a.sec == b.sec then a.usec < b.usec else a.sec < b.sec
  }

  predicate Normal(t: Time) { 0 <= t.usec < 1000000 }

  function Micros(t: Time): int { t.sec * 1000000 + t.usec }

  /** timeradd. */
  function Plus(a: Time, b: Time): (r: Time)
    ensures Micros(r) == Micros(a) + Micros(b)
    ensures Normal(a) && Normal(b) ==> Normal(r)
  {
    if a.usec + b.usec >= 1000000
    then Time(a.sec + b.sec + 1, a.usec + b.usec - 1000000)
    else Time(a.sec + b.sec, a.usec + b.usec)
  }

  /** timersub. */
  function Minus(a: Time, b: Time): (r: Time)
    ensures Micros(r) == Micros(a) - Micros(b)
    ensures Normal(a) && Normal(b) ==> Normal(r)
  {
    if a.usec - b.usec < 0
    then Time(a.sec - b.sec - 1, a.usec - b.usec + 1000000)
    else Time(a.sec - b.sec, a.usec - b.usec)
  }

  /** On normal times the comparison of fields is the comparison of instants. */
  lemma LessIsEarlier(a: Time, b: Time)
    requires Normal(a) && Normal(b)
    ensures Less(a, b) <==> Micros(a) < Micros(b)
  {
  }

  datatype Timer<E> = Timer(ev: E, due: Time)

  ghost predicate Ordered<E>(s: seq<Timer<E>>) {
    forall i, j :: 0 <= i < j < |s| ==> !Less(s[j].due, s[i].due)
  }

  /** The end of the run of timers due before t, starting at i. */
  ghost function FirstNotBefore<E>(s: seq<Timer<E>>, t: Time, i: nat): (k: nat)
    requires i <= |s|
    ensures i <= k <= |s| && (k < |s| ==> !Less(s[k].due, t))
    decreases |s| - i
  {
    if i < |s| && Less(s[i].due, t) then FirstNotBefore(s, t, i + 1) else i
  }

  lemma {:induction false} EarlierBefore<E>(s: seq<Timer<E>>, t: Time, i: nat)
    requires i <= |s|
    ensures forall j :: i <= j < FirstNotBefore(s, t, i) ==> Less(s[j].due, t)
    decreases |s| - i
  {
    if i < |s| && Less(s[i].due, t) { EarlierBefore(s, t, i + 1); }
  }

  ghost function Scheduled<E>(s: seq<Timer<E>>, t: Timer<E>): seq<Timer<E>> {
    var k := FirstNotBefore(s, t.due, 0);
    s[..k] + [t] + s[k..]
  }

  lemma OrderedWith<E>(s: seq<Timer<E>>, t: Timer<E>, k: nat, r: seq<Timer<E>>)
    requires Ordered(s) && k <= |s| && r == s[..k] + [t] + s[k..]
    requires forall j :: 0 <= j < k ==> Less(s[j].due, t.due)
    requires k < |s| ==> !Less(s[k].due, t.due)
    ensures Ordered(r) && forall j :: k <= j < |s| ==> !Less(s[j].due, t.due)
  {
    forall j | k <= j < |s| ensures !Less(s[j].due, t.due) {
      assert k < j ==> !Less(s[j].due, s[k].due);
    }
    forall i, j | 0 <= i < j < |r| ensures !Less(r[j].due, r[i].due) {
      var a, b := if i < k then i else i - 1, if j < k then j else j - 1;
      assert i != k ==> r[i] == s[a];
      assert j != k ==> r[j] == s[b];
    }
  }

  /** A new timer keeps the order and goes before every timer that is due no earlier: the
      newest comes first among equals. */
  lemma {:induction false} ScheduledInOrder<E>(s: seq<Timer<E>>, t: Timer<E>)
    requires Ordered(s)
    ensures Ordered(Scheduled(s, t)) && multiset(Scheduled(s, t)) == multiset(s) + multiset{t}
    ensures var k := FirstNotBefore(s, t.due, 0);
            Scheduled(s, t)[k] == t &&
            (forall j :: 0 <= j < k ==> Less(s[j].due, t.due)) && (forall j :: k <= j < |s| ==> !Less(s[j].due, t.due))
  {
    var k := FirstNotBefore(s, t.due, 0);
    EarlierBefore(s, t.due, 0);
    OrderedWith(s, t, k, Scheduled(s, t));
    MembersWith(s, t, k);
  }

  lemma MembersWith<E>(s: seq<Timer<E>>, t: Timer<E>, k: nat)
    requires k <= |s|
    ensures multiset(s[..k] + [t] + s[k..]) == multiset(s) + multiset{t}
  {
    MembersSplit(s, k);
  }

  /** The scan of a prefix finds exactly the expired timers of the whole list. */
  lemma PrefixIsAllExpired<E>(s: seq<Timer<E>>, now: Time, j: nat)
    requires Ordered(s) && j < |s|
    ensures j < FirstNotBefore(s, now, 0) <==> Less(s[j].due, now)
  {
    EarlierBefore(s, now, 0);
  }

  /** What calcNextTimeout answers is the time left to the least deadline of all, or zero. */
  lemma NextGap<E>(s: seq<Timer<E>>, now: Time, j: nat)
    requires Ordered(s) && j < |s| && Normal(now) && Normal(s[0].due) && Normal(s[j].due)
    ensures Micros(s[0].due) <= Micros(s[j].due)
    ensures Micros(Wait(s[0].due, now)) == if Micros(s[0].due) > Micros(now) then Micros(s[0].due) - Micros(now) else 0
  {
    LessIsEarlier(now, s[0].due);
    LessIsEarlier(s[j].due, s[0].due);
  }

  function Wait(due: Time, now: Time): Time {
    if Less(now, due) then Minus(due, now) else Time(0, 0)
  }

  // ---------- runs ----------

  datatype Op<E> = Add(t: Timer<E>) | Scan(now: Time)

  /** The list, and everything the scans have taken out of it, in order. */
  datatype Agenda<E> = Agenda(list: seq<Timer<E>>, taken: seq<Timer<E>>)

  ghost function Do<E>(a: Agenda<E>, op: Op<E>): Agenda<E> {
    match op
    case Add(t) => a.(list := Scheduled(a.list, t))
    case Scan(now) =>
      var k := FirstNotBefore(a.list, now, 0);
      Agenda(a.list[k..], a.taken + a.list[..k])
  }

  ghost function Run<E>(a: Agenda<E>, ops: seq<Op<E>>): Agenda<E> {
    if ops == [] then a else Do(Run(a, ops[..|ops| - 1]), ops[|ops| - 1])
  }

  ghost function Added<E>(ops: seq<Op<E>>): multiset<Timer<E>> {
    if ops == [] then multiset{}
    else Added(ops[..|ops| - 1]) + match ops[|ops| - 1] case Add(t) => multiset{t} case Scan(_) => multiset{}
  }

  /** A scan takes all the expired timers and no other, in the order of the list. */
  lemma ScanTakes<E>(a: Agenda<E>, now: Time)
    requires Ordered(a.list)
    ensures var k := FirstNotBefore(a.list, now, 0);
            Do(a, Scan(now)).taken == a.taken + a.list[..k] && Do(a, Scan(now)).list == a.list[k..] &&
            (forall j :: 0 <= j < k ==> Less(a.list[j].due, now)) &&
            (forall j :: k <= j < |a.list| ==> !Less(a.list[j].due, now))
  {
    EarlierBefore(a.list, now, 0);
    forall j | FirstNotBefore(a.list, now, 0) <= j < |a.list| ensures !Less(a.list[j].due, now) {
      PrefixIsAllExpired(a.list, now, j);
    }
  }

  lemma OrderedRest<E>(s: seq<Timer<E>>, k: nat)
    requires Ordered(s) && k <= |s|
    ensures Ordered(s[k..])
  {
  }

  lemma MembersSplit<E>(s: seq<E>, k: nat)
    requires k <= |s|
    ensures multiset(s) == multiset(s[..k]) + multiset(s[k..])
  {
    assert s == s[..k] + s[k..];
  }

  /** In every run the list stays ordered and each added timer is either listed or taken,
      once. */
  lemma {:induction false} RunKeepsAgenda<E>(ops: seq<Op<E>>)
    ensures var a := Run(Agenda([], []), ops);
            Ordered(a.list) && multiset(a.list) + multiset(a.taken) == Added(ops)
  {
    if ops != [] {
      var before, op := ops[..|ops| - 1], ops[|ops| - 1];
      RunKeepsAgenda(before);
      var a := Run(Agenda([], []), before);
      match op {
        case Add(t) => ScheduledInOrder(a.list, t);
        case Scan(now) =>
          OrderedRest(a.list, FirstNotBefore(a.list, now, 0));
          MembersSplit(a.list, FirstNotBefore(a.list, now, 0));
      }
    }
  }
}
