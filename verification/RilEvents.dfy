/**
 The RIL event loop: timers and ready watches on circular doubly linked lists, and the
 table of watched file descriptors.
 */
module RilEvents {
  import opened Basics
  import opened RilTimers

  const MAX_FD_EVENTS: nat := 8

  /** struct ril_event.  What its callback does is in EventLoop.Callback. */
  class Event {
    var next: Event?
    var prev: Event?
    var fd: int
    var index: int
    var persist: bool
    var timeout: Time

    /** Memory for an event, not set up. */
    constructor (next: Event?, prev: Event?, fd: int, index: int, persist: bool, timeout: Time)
    {
      this.next, this.prev, this.fd := next, prev, fd;
      this.index, this.persist, this.timeout := index, persist, timeout;
    }

    method Set(fd: int, persist: bool)
      modifies this
      ensures next == null && prev == null && index == -1
      ensures this.fd == fd && this.persist == persist && timeout == Time(0, 0)
    {
      next, prev, index := null, null, -1;
      this.fd, this.persist, timeout := fd, persist, Time(0, 0);
    }

    /** init_list. */
    constructor Sentinel()
      ensures next == this && prev == this && fd == -1
    {
      next, prev, fd := this, this, -1;
      index, persist, timeout := 0, false, Time(0, 0);
    }
  }

  // ---------- circular lists ----------

  /** The i-th place of the list with sentinel `head` and nodes s, counted from the sentinel
      all the way round to it. */
  ghost function At(head: Event, s: seq<Event>, i: int): Event {
    if 1 <= i <= |s| then s[i - 1] else head
  }

  ghost predicate Distinct(head: Event, s: seq<Event>) {
    head !in s && forall i, j :: 0 <= i < j < |s| ==> s[i] != s[j]
  }

  /** Each place links to the next one and back. */
  ghost predicate Ring(head: Event, s: seq<Event>)
    reads head`next, head`prev, s`next, s`prev
  {
    Distinct(head, s) &&
    forall i :: 0 <= i <= |s| ==> At(head, s, i).next == At(head, s, i + 1) && At(head, s, i + 1).prev == At(head, s, i)
  }

  lemma AtInserted(head: Event, s: seq<Event>, k: nat, ev: Event)
    requires k <= |s|
    ensures forall i :: 0 <= i <= |s| + 2 ==>
              At(head, s[..k] + [ev] + s[k..], i) ==
              if i <= k then At(head, s, i) else if i == k + 1 then ev else At(head, s, i - 1)
  {
  }

  lemma AtRemoved(head: Event, s: seq<Event>, k: nat)
    requires k < |s|
    ensures forall i :: 0 <= i <= |s| ==>
              At(head, s[..k] + s[k + 1..], i) == if i <= k then At(head, s, i) else At(head, s, i + 1)
  {
    var r := s[..k] + s[k + 1..];
    forall i | 0 <= i <= |s| ensures At(head, r, i) == if i <= k then At(head, s, i) else At(head, s, i + 1) {
      assert 1 <= i <= |r| ==> r[i - 1] == if i <= k then s[i - 1] else s[i];
    }
  }

  lemma DistinctInserted(head: Event, s: seq<Event>, k: nat, ev: Event)
    requires Distinct(head, s) && k <= |s| && ev != head && ev !in s
    ensures Distinct(head, s[..k] + [ev] + s[k..])
  {
  }

  lemma Linked(head: Event, s: seq<Event>)
    requires Ring(head, s)
    ensures forall e :: e in s ==> e.next != null
  {
    forall e | e in s ensures e.next != null {
      var j :| 0 <= j < |s| && s[j] == e;
      assert At(head, s, j + 1) == e && At(head, s, j + 1).next == At(head, s, j + 2);
    }
  }

  /** addToList: in front of the node at place k + 1, which may be the sentinel. */
  method AddToList(ev: Event, list: Event, ghost head: Event, ghost s: seq<Event>, ghost k: nat)
    requires Ring(head, s) && ev != head && ev !in s && k <= |s| && list == At(head, s, k + 1)
    modifies ev`next, ev`prev, list`prev, At(head, s, k)`next
    ensures Ring(head, s[..k] + [ev] + s[k..])
  {
    ghost var before := At(head, s, k);
    assert list.prev == before;
    ev.next := list;
    ev.prev := list.prev;
    ev.prev.next := ev;
    list.prev := ev;
    ghost var r := s[..k] + [ev] + s[k..];
    DistinctInserted(head, s, k, ev);
    AtInserted(head, s, k, ev);
    forall i | 0 <= i <= |r| ensures At(head, r, i).next == At(head, r, i + 1) && At(head, r, i + 1).prev == At(head, r, i) {
      if i < k {
        LinkKept(head, s, i, k);
      } else if i > k + 1 {
        LinkKept(head, s, i - 1, k);
      }
    }
  }

  lemma LinkKept(head: Event, s: seq<Event>, i: nat, k: nat)
    requires Distinct(head, s) && i <= |s| && k <= |s| && i != k
    ensures At(head, s, i) != At(head, s, k) && At(head, s, i + 1) != At(head, s, k + 1)
  {
  }

  /** removeFromList: the node at place k + 1. */
  method RemoveFromList(ev: Event, ghost head: Event, ghost s: seq<Event>, ghost k: nat)
    requires Ring(head, s) && k < |s| && ev == s[k]
    modifies ev`next, ev`prev, At(head, s, k)`next, At(head, s, k + 2)`prev
    ensures Ring(head, s[..k] + s[k + 1..]) && ev.next == null && ev.prev == null
  {
    assert At(head, s, k + 1) == ev;
    assert ev.next == At(head, s, k + 2) && ev.prev == At(head, s, k);
    ev.next.prev := ev.prev;
    ev.prev.next := ev.next;
    ev.next := null;
    ev.prev := null;
    ghost var r := s[..k] + s[k + 1..];
    AtRemoved(head, s, k);
    forall i | 0 <= i <= |r| ensures At(head, r, i).next == At(head, r, i + 1) && At(head, r, i + 1).prev == At(head, r, i) {
      if i < k {
        LinkKept(head, s, i, k);
        LinkKept(head, s, i, k + 1);
      } else if i > k {
        LinkKept(head, s, i + 1, k);
        LinkKept(head, s, i + 1, k + 1);
      }
    }
  }

  lemma DropOne<T>(s: seq<T>, k: nat)
    requires k < |s|
    ensures s[k..][0] == s[k] && s[k..][1..] == s[k + 1..]
  {
  }

  lemma MoveOne<T>(s: seq<T>, q: seq<T>)
    requires q != []
    ensures s + [q[0]] + q[1..] == s + q
  {
  }

  lemma TakeOne<T>(q: seq<T>, s: seq<T>, k: nat)
    requires k < |s|
    ensures q + s[..k] + [s[k]] == q + s[..k + 1]
  {
  }

  ghost function Nodes(agenda: seq<Timer<Event>>): (s: seq<Event>)
    ensures |s| == |agenda|
  {
    seq(|agenda|, i requires 0 <= i < |agenda| => agenda[i].ev)
  }

  lemma NodesOfAll(agenda: seq<Timer<Event>>)
    ensures forall t :: t in agenda ==> t.ev in Nodes(agenda)
  {
    forall t | t in agenda ensures t.ev in Nodes(agenda) {
      var i :| 0 <= i < |agenda| && agenda[i] == t;
      assert Nodes(agenda)[i] == t.ev;
    }
  }

  lemma NodesScheduled(agenda: seq<Timer<Event>>, t: Timer<Event>)
    requires Ordered(agenda)
    ensures Ordered(Scheduled(agenda, t)) && forall u :: u in Scheduled(agenda, t) ==> u == t || u in agenda
    ensures var k := FirstNotBefore(agenda, t.due, 0);
            Nodes(Scheduled(agenda, t)) == Nodes(agenda)[..k] + [t.ev] + Nodes(agenda)[k..]
  {
    ScheduledInOrder(agenda, t);
    SpliceMembers(agenda, FirstNotBefore(agenda, t.due, 0), t);
    SpliceNodes(agenda, FirstNotBefore(agenda, t.due, 0), t);
  }

  lemma SpliceMembers<T>(s: seq<T>, k: nat, t: T)
    requires k <= |s|
    ensures forall u :: u in s[..k] + [t] + s[k..] ==> u == t || u in s
  {
  }

  lemma SpliceNodes(agenda: seq<Timer<Event>>, k: nat, t: Timer<Event>)
    requires k <= |agenda|
    ensures Nodes(agenda[..k] + [t] + agenda[k..]) == Nodes(agenda)[..k] + [t.ev] + Nodes(agenda)[k..]
  {
  }

  // ---------- the watch table ----------

  datatype Slot = Free | Watch(ev: Event, fd: int, persist: bool)

  ghost predicate DistinctFds(slots: seq<Slot>) {
    forall i, j :: 0 <= i < j < |slots| && slots[i].Watch? && slots[j].Watch? ==> slots[i].fd != slots[j].fd
  }

  ghost function FdsOf(slots: seq<Slot>): set<int> {
    set i | 0 <= i < |slots| && slots[i].Watch? :: slots[i].fd
  }

  /** One above the largest watched descriptor; 0 or 1 when there is none. */
  ghost predicate Exact(slots: seq<Slot>, nfds: int) {
    0 <= nfds && (forall i :: 0 <= i < |slots| && slots[i].Watch? ==> slots[i].fd < nfds) &&
    (nfds > 1 ==> exists i :: 0 <= i < |slots| && slots[i].Watch? && slots[i].fd + 1 == nfds)
  }

  ghost predicate IsReady(slot: Slot, rfds: set<int>) { slot.Watch? && slot.fd in rfds }

  /** The ready events among the first k slots, in table order. */
  ghost function Ready(slots: seq<Slot>, rfds: set<int>, k: nat): seq<Event>
    requires k <= |slots|
  {
    if k == 0 then []
    else Ready(slots, rfds, k - 1) + if IsReady(slots[k - 1], rfds) then [slots[k - 1].ev] else []
  }

  /** A one-shot watch goes when it becomes ready. */
  ghost function Swept(slot: Slot, rfds: set<int>): Slot {
    if IsReady(slot, rfds) && !slot.persist then Free else slot
  }

  lemma WatchAdded(slots: seq<Slot>, nfds: int, k: nat, ev: Event, fd: int, persist: bool)
    requires k < |slots| && slots[k].Free? && DistinctFds(slots) && Exact(slots, nfds) && 0 <= fd && fd !in FdsOf(slots)
    ensures var r := slots[k := Watch(ev, fd, persist)];
            DistinctFds(r) && FdsOf(r) == FdsOf(slots) + {fd} && Exact(r, if fd >= nfds then fd + 1 else nfds)
  {
    var r := slots[k := Watch(ev, fd, persist)];
    forall i | 0 <= i < |slots| && slots[i].Watch? ensures slots[i].fd != fd && r[i] == slots[i] {
      assert slots[i].fd in FdsOf(slots);
    }
    assert r[k].fd == fd;
    assert FdsOf(r) == FdsOf(slots) + {fd} by {
      forall x | x in FdsOf(slots) ensures x in FdsOf(r) {
        var i :| 0 <= i < |slots| && slots[i].Watch? && slots[i].fd == x;
        assert r[i].fd == x;
      }
    }
    if fd < nfds && nfds > 1 {
      var i :| 0 <= i < |slots| && slots[i].Watch? && slots[i].fd + 1 == nfds;
      assert r[i].fd + 1 == nfds;
    }
  }

  lemma WatchRemoved(slots: seq<Slot>, nfds: int, k: nat)
    requires k < |slots| && slots[k].Watch? && DistinctFds(slots) && Exact(slots, nfds)
    ensures var r := slots[k := Free];
            DistinctFds(r) && FdsOf(r) == FdsOf(slots) - {slots[k].fd} &&
            (slots[k].fd + 1 != nfds ==> Exact(r, nfds))
  {
    var r := slots[k := Free];
    forall x | x in FdsOf(slots) && x != slots[k].fd ensures x in FdsOf(r) {
      var i :| 0 <= i < |slots| && slots[i].Watch? && slots[i].fd == x;
      assert r[i].fd == x;
    }
    assert slots[k].fd !in FdsOf(r);
    if slots[k].fd + 1 != nfds && nfds > 1 {
      var i :| 0 <= i < |slots| && slots[i].Watch? && slots[i].fd + 1 == nfds;
      assert r[i].fd + 1 == nfds;
    }
  }

  /** Clearing the bit of one slot's descriptor leaves exactly the watched ones set if and
      only if no other slot watches the same. */
  lemma ClearIsExactIff(slots: seq<Slot>, k: nat)
    requires k < |slots| && slots[k].Watch?
    ensures FdsOf(slots[k := Free]) == FdsOf(slots) - {slots[k].fd} <==>
            forall i :: 0 <= i < |slots| && i != k && slots[i].Watch? ==> slots[i].fd != slots[k].fd
  {
    var r := slots[k := Free];
    forall x | x in FdsOf(slots) && x != slots[k].fd ensures x in FdsOf(r) {
      var i :| 0 <= i < |slots| && slots[i].Watch? && slots[i].fd == x;
      assert r[i].fd == x;
    }
    forall i | 0 <= i < |slots| && i != k && slots[i].Watch? ensures slots[i].fd in FdsOf(r) {
      assert r[i] == slots[i];
    }
  }

  class EventLoop {
    const timerList: Event
    const pendingList: Event
    const table: array<Event?>
    var readFds: set<int>
    var nfds: int

    /** Every event that was set up; the nodes of the two lists; what the timer list and the
        table hold; the callbacks made. */
    ghost var events: set<Event>
    ghost var timers: seq<Event>
    ghost var pending: seq<Event>
    ghost var agenda: seq<Timer<Event>>
    ghost var slots: seq<Slot>
    ghost var fired: seq<Event>

    /** ril_event_init. */
    constructor ()
      ensures Valid() && fresh(timerList) && fresh(pendingList) && fresh(table)
      ensures events == {} && agenda == [] && pending == [] && fired == [] && readFds == {}
    {
      var t := new Event.Sentinel();
      var p := new Event.Sentinel();
      timerList, pendingList := t, p;
      table := new Event?[MAX_FD_EVENTS](_ => null);
      readFds, nfds, events, timers, pending, fired := {}, 0, {}, [], [], [];
      agenda, slots := [], seq(MAX_FD_EVENTS, _ => Free);
    }

    ghost predicate Lists()
      reads this`events, this`timers, this`pending, timerList, pendingList, events`next, events`prev
    {
      timerList != pendingList && timerList !in events && pendingList !in events &&
      (forall e :: e in timers ==> e in events && e !in pending) &&
      (forall e :: e in pending ==> e in events) &&
      (forall e :: e in events ==> (e.next != null <==> e in timers || e in pending)) &&
      Ring(timerList, timers) && Ring(pendingList, pending)
    }

    ghost predicate Table()
      reads this`events, this`slots, table, events`fd, events`persist, events`index
    {
      table.Length == |slots| == MAX_FD_EVENTS &&
      (forall i :: 0 <= i < MAX_FD_EVENTS ==>
        if table[i] == null then slots[i] == Free
        else table[i] in events && table[i].index == i && 0 <= table[i].fd &&
             slots[i] == Watch(table[i], table[i].fd, table[i].persist)) &&
      (forall e :: e in events ==> e.index == -1 || (0 <= e.index < MAX_FD_EVENTS && table[e.index] == e))
    }

    ghost predicate Deadlines()
      reads this`events, this`timers, this`agenda, events`fd, events`timeout
    {
      timers == Nodes(agenda) && Ordered(agenda) &&
      forall t :: t in agenda ==> t.ev in events && t.ev.fd == -1 && t.due == t.ev.timeout
    }

    ghost predicate Watches()
      reads this`events, this`slots, this`readFds, this`nfds, table, events`fd, events`persist, events`index
    {
      Table() && DistinctFds(slots) && readFds == FdsOf(slots) && Exact(slots, nfds)
    }

    ghost predicate Valid()
      reads this, timerList, pendingList, table, events
    {
      Lists() && Watches() && Deadlines()
    }

    /** ril_event_set, on memory of any content that is in no list and no slot: a new event or
        one used before. */
    method EventSet(ev: Event, fd: int, persist: bool)
      requires Valid() && ev != timerList && ev != pendingList
      requires ev in events ==> ev.next == null && ev.index == -1
      modifies this`events, ev
      ensures Valid() && events == old(events) + {ev}
      ensures ev.fd == fd && ev.persist == persist && ev.index == -1 && ev.next == null && ev.prev == null
    {
      NodesOfAll(agenda);
      Linked(timerList, timers);
      Linked(pendingList, pending);
      assert ev !in timers && ev !in pending;
      ev.Set(fd, persist);
      events := events + {ev};
    }

    method Occupy(i: nat, ev: Event)
      requires Table() && i < MAX_FD_EVENTS && slots[i].Free? && ev in events && ev.index == -1 && 0 <= ev.fd
      modifies this`slots, table, ev`index
      ensures Table() && slots == old(slots)[i := Watch(ev, ev.fd, ev.persist)] && ev.index == i
    {
      table[i] := ev;
      ev.index := i;
      slots := slots[i := Watch(ev, ev.fd, ev.persist)];
    }

    method Vacate(i: nat, ev: Event)
      requires Table() && i < MAX_FD_EVENTS && table[i] == ev
      modifies this`slots, table, ev`index
      ensures Table() && slots == old(slots)[i := Free] && ev.index == -1
    {
      table[i] := null;
      ev.index := -1;
      slots := slots[i := Free];
    }

    method AddWatch(ev: Event)
      requires Watches() && ev in events && ev.index == -1 && 0 <= ev.fd && ev.fd !in readFds
      modifies this`readFds, this`nfds, this`slots, table, ev`index
      ensures Watches()
      ensures (exists i :: 0 <= i < MAX_FD_EVENTS && old(slots)[i].Free?) ==>
                0 <= ev.index < MAX_FD_EVENTS && slots == old(slots)[ev.index := Watch(ev, ev.fd, ev.persist)] &&
                old(slots)[ev.index].Free? && forall j :: 0 <= j < ev.index ==> !old(slots)[j].Free?
      ensures (forall i :: 0 <= i < MAX_FD_EVENTS ==> !old(slots)[i].Free?) ==> slots == old(slots) && ev.index == -1
    {
      var i := 0;
      while i < MAX_FD_EVENTS && table[i] != null
        invariant 0 <= i <= MAX_FD_EVENTS && forall j :: 0 <= j < i ==> !slots[j].Free?
      {
        i := i + 1;
      }
      if i < MAX_FD_EVENTS {
        WatchAdded(slots, nfds, i, ev, ev.fd, ev.persist);
        Occupy(i, ev);
        readFds := readFds + {ev.fd};
        if ev.fd >= nfds { nfds := ev.fd + 1; }
      }
    }

    /** removeWatch. */
    method RemoveWatch(ev: Event, index: nat)
      requires Watches() && index < MAX_FD_EVENTS && table[index] == ev
      modifies this`readFds, this`nfds, this`slots, table, ev`index
      ensures Watches() && slots == old(slots)[index := Free] && ev.index == -1
    {
      WatchRemoved(slots, nfds, index);
      Vacate(index, ev);
      readFds := readFds - {ev.fd};
      if ev.fd + 1 == nfds {
        var n, i := 0, 0;
        while i < MAX_FD_EVENTS
          invariant 0 <= i <= MAX_FD_EVENTS && 0 <= n
          invariant forall j :: 0 <= j < i && slots[j].Watch? ==> slots[j].fd <= n
          invariant n > 0 ==> exists j :: 0 <= j < i && slots[j].Watch? && slots[j].fd == n
        {
          var rev := table[i];
          if rev != null && rev.fd > n {
            assert slots[i].fd == rev.fd;
            n := rev.fd;
          }
          i := i + 1;
        }
        nfds := n + 1;
      }
    }

    /** ril_event_add.  With no free slot the event is dropped without a word. */
    method EventAdd(ev: Event)
      requires Valid() && ev in events && ev.index == -1 && 0 <= ev.fd && ev.fd !in readFds
      modifies this`readFds, this`nfds, this`slots, table, ev`index
      ensures Valid()
      ensures (exists i :: 0 <= i < MAX_FD_EVENTS && old(slots)[i].Free?) ==>
                0 <= ev.index < MAX_FD_EVENTS && slots == old(slots)[ev.index := Watch(ev, ev.fd, ev.persist)] &&
                old(slots)[ev.index].Free? && forall j :: 0 <= j < ev.index ==> !old(slots)[j].Free?
      ensures (forall i :: 0 <= i < MAX_FD_EVENTS ==> !old(slots)[i].Free?) ==> slots == old(slots) && ev.index == -1
    {
      AddWatch(ev);
    }

    /** ril_event_del. */
    method EventDel(ev: Event)
      requires Valid() && ev in events
      modifies this`readFds, this`nfds, this`slots, table, ev`index
      ensures Valid() && ev.index == -1
      ensures slots == if old(ev.index) == -1 then old(slots) else old(slots)[old(ev.index) := Free]
    {
      if ev.index < 0 || ev.index >= MAX_FD_EVENTS { return; }
      RemoveWatch(ev, ev.index);
    }

    // ---------- the two lists ----------

    method LinkTimer(ev: Event, node: Event, ghost k: nat)
      requires Lists() && ev in events && ev.next == null && k <= |timers| && node == At(timerList, timers, k + 1)
      modifies this`timers, timerList`next, timerList`prev, events`next, events`prev
      ensures Lists() && timers == old(timers)[..k] + [ev] + old(timers)[k..]
    {
      AddToList(ev, node, timerList, timers, k);
      timers := timers[..k] + [ev] + timers[k..];
      Linked(timerList, timers);
    }

    /** Out of the timer list, with next and prev cleared. */
    method UnlinkTimer(ev: Event)
      requires Lists() && timers != [] && ev == timers[0]
      modifies this`timers, timerList`next, timerList`prev, events`next, events`prev
      ensures Lists() && timers == old(timers)[1..] && ev.next == null
    {
      assert At(timerList, timers, 2) == timerList || At(timerList, timers, 2) in timers;
      RemoveFromList(ev, timerList, timers, 0);
      timers := timers[1..];
      assert timers == old(timers)[..0] + old(timers)[1..];
      Linked(timerList, timers);
    }

    method LinkPending(ev: Event)
      requires Lists() && ev in events && ev.next == null
      modifies this`pending, pendingList`next, pendingList`prev, events`next, events`prev
      ensures Lists() && pending == old(pending) + [ev]
    {
      AddToList(ev, pendingList, pendingList, pending, |pending|);
      pending := pending + [ev];
      assert pending == old(pending)[..|old(pending)|] + [ev] + old(pending)[|old(pending)|..];
      Linked(pendingList, pending);
    }

    method UnlinkPending(ev: Event)
      requires Lists() && pending != [] && ev == pending[0]
      modifies this`pending, pendingList`next, pendingList`prev, events`next, events`prev
      ensures Lists() && pending == old(pending)[1..] && ev.next == null
    {
      assert At(pendingList, pending, 2) == pendingList || At(pendingList, pending, 2) in pending;
      RemoveFromList(ev, pendingList, pending, 0);
      pending := pending[1..];
      assert pending == old(pending)[..0] + old(pending)[1..];
      Linked(pendingList, pending);
    }

    // ---------- timers ----------

    /** Along the list to the first timer not due before this one, and in front of it. */
    method PlaceTimer(ev: Event)
      requires Lists() && Deadlines() && ev in events && ev.next == null && ev.fd == -1
      modifies this`timers, this`agenda, timerList`next, timerList`prev, events`next, events`prev
      ensures Lists() && Deadlines() && agenda == Scheduled(old(agenda), Timer(ev, ev.timeout))
    {
      assert At(timerList, timers, 0).next == At(timerList, timers, 1);
      var node := timerList.next;
      ghost var k := 0;
      while Less(node.timeout, ev.timeout) && node != timerList
        invariant k <= |timers| && node == At(timerList, timers, k + 1)
        invariant FirstNotBefore(agenda, ev.timeout, 0) == FirstNotBefore(agenda, ev.timeout, k)
        decreases |timers| - k
      {
        assert At(timerList, timers, k + 1).next == At(timerList, timers, k + 2);
        node, k := node.next, k + 1;
      }
      LinkDeadline(ev, node, k);
    }

    method LinkDeadline(ev: Event, node: Event, ghost k: nat)
      requires Lists() && Deadlines() && ev in events && ev.next == null && ev.fd == -1
      requires k == FirstNotBefore(agenda, ev.timeout, 0) && node == At(timerList, timers, k + 1)
      modifies this`timers, this`agenda, timerList`next, timerList`prev, events`next, events`prev
      ensures Lists() && Deadlines() && agenda == Scheduled(old(agenda), Timer(ev, ev.timeout))
    {
      LinkTimer(ev, node, k);
      NodesScheduled(agenda, Timer(ev, ev.timeout));
      agenda := Scheduled(agenda, Timer(ev, ev.timeout));
    }

    /** ril_timer_add, at the time `now`. */
    method TimerAdd(ev: Event, tv: Option<Time>, now: Time)
      requires Valid() && ev in events && ev.next == null && ev.index == -1
      modifies this`timers, this`agenda, timerList`next, timerList`prev, events`next, events`prev, ev`fd, ev`timeout
      ensures Valid()
      ensures tv.None? ==> agenda == old(agenda) && unchanged(ev)
      ensures tv.Some? ==> agenda == Scheduled(old(agenda), Timer(ev, Plus(now, tv.value)))
    {
      if tv.Some? {
        NodesOfAll(agenda);
        ev.fd := -1;
        ev.timeout := Plus(now, tv.value);
        assert Deadlines() && Watches();
        PlaceTimer(ev);
      }
    }

    method ExpireFirst(ev: Event) returns (next: Event)
      requires Lists() && Deadlines() && timers != [] && ev == timers[0]
      modifies this`timers, this`pending, this`agenda, timerList`next, timerList`prev, pendingList`next, pendingList`prev,
               events`next, events`prev
      ensures Lists() && Deadlines()
      ensures timers == old(timers)[1..] && agenda == old(agenda)[1..] && pending == old(pending) + [ev]
      ensures next == At(timerList, timers, 1)
    {
      assert At(timerList, timers, 1).next == At(timerList, timers, 2);
      next := ev.next;
      UnlinkTimer(ev);
      agenda := agenda[1..];
      LinkPending(ev);
    }

    method ExpireAll(now: Time)
      requires Lists() && Deadlines()
      modifies this`timers, this`pending, this`agenda, timerList`next, timerList`prev, pendingList`next, pendingList`prev,
               events`next, events`prev
      ensures Lists() && Deadlines()
      ensures var k := FirstNotBefore(old(agenda), now, 0);
              agenda == old(agenda)[k..] && timers == old(timers)[k..] && pending == old(pending) + old(timers)[..k]
    {
      assert At(timerList, timers, 0).next == At(timerList, timers, 1);
      var tev := timerList.next;
      ghost var k, due, nodes, before := 0, agenda, timers, pending;
      while tev != timerList && Less(tev.timeout, now)
        invariant Lists() && Deadlines() && k <= |nodes| == |due| && tev == At(timerList, timers, 1)
        invariant agenda == due[k..] && timers == nodes[k..] && pending == before + nodes[..k]
        invariant FirstNotBefore(due, now, 0) == FirstNotBefore(due, now, k)
        decreases |timers|
      {
        DropOne(due, k);
        DropOne(nodes, k);
        TakeOne(before, nodes, k);
        tev := ExpireFirst(tev);
        k := k + 1;
      }
    }

    /** processTimeouts: the expired timers go to the pending list, in deadline order. */
    method ProcessTimeouts(now: Time)
      requires Valid()
      modifies this`timers, this`pending, this`agenda, timerList`next, timerList`prev, pendingList`next, pendingList`prev,
               events`next, events`prev
      ensures Valid()
      ensures var k := FirstNotBefore(old(agenda), now, 0);
              agenda == old(agenda)[k..] && timers == old(timers)[k..] && pending == old(pending) + old(timers)[..k]
    {
      ExpireAll(now);
    }

    /** calcNextTimeout: none without timers, else how long until the first is due. */
    method CalcNextTimeout(now: Time) returns (tv: Option<Time>)
      requires Valid()
      ensures tv == if agenda == [] then None else Some(Wait(agenda[0].due, now))
    {
      var tev := timerList.next;
      assert tev == At(timerList, timers, 0).next == At(timerList, timers, 1);
      if tev == timerList { return None; }
      tv := Some(if Less(now, tev.timeout) then Minus(tev.timeout, now) else Time(0, 0));
    }

    // ---------- ready watches ----------

    /** No watched event is waiting to be fired. */
    ghost predicate Quiet()
      reads this`slots, this`pending
    {
      forall i :: 0 <= i < |slots| && slots[i].Watch? ==> slots[i].ev !in pending
    }

    method TakeReady(rev: Event, i: nat)
      requires Lists() && Watches() && i < MAX_FD_EVENTS && table[i] == rev && rev.next == null
      modifies this`pending, pendingList`next, pendingList`prev, events`next, events`prev
      modifies this`readFds, this`nfds, this`slots, table, rev`index
      ensures Lists() && Watches() && pending == old(pending) + [rev]
      ensures slots == if rev.persist then old(slots) else old(slots)[i := Free]
    {
      LinkPending(rev);
      if !rev.persist {
        RemoveWatch(rev, i);
      }
    }

    /** The table so far and the events taken from its first i slots. */
    ghost predicate SweptUpTo(before: seq<Slot>, queue: seq<Event>, rfds: set<int>, i: nat)
      reads this`slots, this`pending
    {
      i <= |before| == |slots| && pending == queue + Ready(before, rfds, i) &&
      (forall j :: 0 <= j < i ==> slots[j] == Swept(before[j], rfds)) && slots[i..] == before[i..]
    }

    /** The events of the slots still to come are in no list, and each in one slot only. */
    ghost predicate Untaken(before: seq<Slot>, i: nat)
      reads this`pending, this`timers, set j | 0 <= j < |before| && before[j].Watch? :: before[j].ev
    {
      forall j :: i <= j < |before| && before[j].Watch? ==>
        before[j].ev !in pending && before[j].ev !in timers && before[j].ev.index == j
    }

    method Sweep(rfds: set<int>, i: nat, ghost before: seq<Slot>, ghost queue: seq<Event>) returns (hit: bool)
      requires Lists() && Watches() && i < MAX_FD_EVENTS && SweptUpTo(before, queue, rfds, i) && Untaken(before, i)
      modifies this`pending, pendingList`next, pendingList`prev, events`next, events`prev
      modifies this`readFds, this`nfds, this`slots, table, events`index
      ensures Lists() && Watches() && SweptUpTo(before, queue, rfds, i + 1)
      ensures Untaken(before, i + 1)
      ensures |Ready(before, rfds, i + 1)| == |Ready(before, rfds, i)| + if hit then 1 else 0
    {
      assert slots[i] == slots[i..][0] == before[i..][0] == before[i];
      assert slots[i + 1..] == slots[i..][1..] && before[i + 1..] == before[i..][1..];
      var rev := table[i];
      hit := rev != null && rev.fd in rfds;
      if hit {
        TakeReady(rev, i);
        assert slots[i + 1..] == old(slots)[i + 1..];
      }
    }

    /** processReadReadies: up to n ready watches, in table order, and where it stopped. */
    method ProcessReadReadies(rfds: set<int>, n: int) returns (ghost stop: nat)
      requires Lists() && Watches() && Quiet()
      requires forall e :: e in timers ==> e.fd == -1
      modifies this`pending, pendingList`next, pendingList`prev, events`next, events`prev
      modifies this`readFds, this`nfds, this`slots, table, events`index
      ensures Lists() && Watches() && SweptUpTo(old(slots), old(pending), rfds, stop)
      ensures stop == MAX_FD_EVENTS || |Ready(old(slots), rfds, stop)| >= n
      ensures if n <= 0 then stop == 0 else |Ready(old(slots), rfds, stop)| <= n
    {
      var i, m := 0, n;
      ghost var before, queue := slots, pending;
      while i < MAX_FD_EVENTS && m > 0
        invariant 0 <= i <= MAX_FD_EVENTS && Lists() && Watches() && SweptUpTo(before, queue, rfds, i)
        invariant m == n - |Ready(before, rfds, i)| && if n <= 0 then i == 0 else m >= 0
        invariant Untaken(before, i)
      {
        var hit := Sweep(rfds, i, before, queue);
        if hit { m := m - 1; }
        i := i + 1;
      }
      stop := i;
    }

    // ---------- one pass ----------

    /** Every ready watch becomes pending, and leaves the table unless it is persistent:
        select reports n descriptors of those it was asked about. */
    method SweepAll(rfds: set<int>, n: nat)
      requires Valid() && Quiet() && rfds <= readFds && n == |rfds|
      modifies this`pending, pendingList`next, pendingList`prev, events`next, events`prev
      modifies this`readFds, this`nfds, this`slots, table, events`index
      ensures Valid() && pending == old(pending) + Ready(old(slots), rfds, MAX_FD_EVENTS)
      ensures forall i :: 0 <= i < MAX_FD_EVENTS ==>
                slots[i] == var was := old(slots)[i]; if was.Watch? && was.fd in rfds && !was.persist then Free else was
    {
      ReadyCount(slots, rfds);
      TimersIdle();
      ghost var stop := ProcessReadReadies(rfds, n);
      NoneMissed(old(slots), rfds, stop, MAX_FD_EVENTS);
      forall i | stop <= i < MAX_FD_EVENTS ensures slots[i] == old(slots)[i] {
        assert slots[stop..][i - stop] == old(slots)[stop..][i - stop];
      }
    }

    /** A timer has no descriptor, so it is not watched. */
    lemma TimersIdle()
      requires Table() && Deadlines()
      ensures forall e :: e in timers ==> e.fd == -1
      ensures forall i :: 0 <= i < |slots| && slots[i].Watch? ==> slots[i].ev !in timers
    {
      forall e | e in timers ensures e.fd == -1 {
        var i :| 0 <= i < |timers| && timers[i] == e;
        assert agenda[i] in agenda && agenda[i].ev == e;
      }
    }

    /** What a pass puts on the pending list: the expired timers, then the ready watches. */
    method Collect(now: Time, rfds: set<int>, n: nat)
      requires Valid() && pending == [] && rfds <= readFds && n == |rfds|
      modifies this`timers, this`pending, this`agenda, timerList`next, timerList`prev, pendingList`next, pendingList`prev,
               events`next, events`prev
      modifies this`readFds, this`nfds, this`slots, table, events`index
      ensures Valid()
      ensures var k := FirstNotBefore(old(agenda), now, 0);
              agenda == old(agenda)[k..] && pending == old(timers)[..k] + Ready(old(slots), rfds, MAX_FD_EVENTS)
      ensures forall i :: 0 <= i < MAX_FD_EVENTS ==>
                slots[i] == var was := old(slots)[i]; if was.Watch? && was.fd in rfds && !was.persist then Free else was
    {
      TimersIdle();
      ghost var expired := timers[..FirstNotBefore(agenda, now, 0)];
      ProcessTimeouts(now);
      assert pending == expired && Quiet();
      SweepAll(rfds, n);
    }

    /** Some call of the API on ev that does not touch the links of an event waiting to be
        fired.  Which one is not determined. */
    method SomeCall(ev: Event)
      requires Valid() && ev in events
      modifies this`events, this`timers, this`agenda, this`readFds, this`nfds, this`slots
      modifies timerList`next, timerList`prev, table, events
      ensures Valid() && events == old(events)
    {
      var choice: nat, tv: Option<Time>, now: Time := *, *, *;
      if choice == 0 && ev.index == -1 && 0 <= ev.fd && ev.fd !in readFds {
        EventAdd(ev);
      } else if choice == 1 {
        EventDel(ev);
      } else if choice == 2 && ev.next == null && ev.index == -1 {
        TimerAdd(ev, tv, now);
      } else if choice == 3 && ev.next == null && ev.index == -1 {
        var fd: int, persist: bool := *, *;
        EventSet(ev, fd, persist);
      }
    }

    /** A callback: any number of such calls, on known events and on new ones. */
    method Callback(pool: set<Event>)
      requires Valid() && pool <= events
      modifies this`events, this`timers, this`agenda, this`readFds, this`nfds, this`slots
      modifies timerList`next, timerList`prev, table, events
      ensures Valid() && old(events) <= events && fresh(events - old(events))
    {
      var calls: nat, known := *, pool;
      while calls > 0
        invariant Valid() && known <= events && old(events) <= events && fresh(events - old(events))
      {
        var fd: int, persist: bool := *, *;
        var ev := new Event(null, null, fd, 0, persist, Time(0, 0));
        EventSet(ev, fd, persist);
        known := known + {ev};
        ev :| ev in known;
        SomeCall(ev);
        calls := calls - 1;
      }
    }

    method DequeueFirst(ev: Event) returns (next: Event)
      requires Valid() && pending != [] && ev == pending[0]
      modifies this`pending, pendingList`next, pendingList`prev, events`next, events`prev
      ensures Valid() && pending == old(pending)[1..] && next == At(pendingList, pending, 1)
    {
      assert At(pendingList, pending, 1).next == At(pendingList, pending, 2);
      next := ev.next;
      UnlinkPending(ev);
    }

    method FireFirst(ev: Event, pool: set<Event>) returns (next: Event)
      requires Valid() && pool <= events && pending != [] && ev == pending[0]
      modifies this`events, this`timers, this`pending, this`agenda, this`readFds, this`nfds, this`slots, this`fired, table
      modifies timerList`next, timerList`prev, pendingList`next, pendingList`prev
      modifies events
      ensures Valid() && pending == old(pending)[1..] && fired == old(fired) + [ev] && next == At(pendingList, pending, 1)
      ensures old(events) <= events && fresh(events - old(events))
    {
      next := DequeueFirst(ev);
      Callback(pool);
      fired := fired + [ev];
    }

    /** firePending: every pending event, first to last, whatever the callbacks do. */
    method FirePending(pool: set<Event>)
      requires Valid() && pool <= events
      modifies this`events, this`timers, this`pending, this`agenda, this`readFds, this`nfds, this`slots, this`fired, table
      modifies timerList`next, timerList`prev, pendingList`next, pendingList`prev
      modifies events
      ensures Valid() && pending == [] && fired == old(fired) + old(pending)
    {
      assert At(pendingList, pending, 0).next == At(pendingList, pending, 1);
      var ev := pendingList.next;
      ghost var all := fired + pending;
      while ev != pendingList
        invariant Valid() && ev == At(pendingList, pending, 1) && fired + pending == all
        invariant old(events) <= events && fresh(events - old(events))
        decreases |pending|
      {
        MoveOne(fired, pending);
        ev := FireFirst(ev, pool);
      }
    }

    /** One pass of ril_event_loop.  A failed select fires nothing. */
    method Pass(now: Time, rfds: set<int>, n: int, pool: set<Event>)
      requires Valid() && pool <= events && pending == [] && rfds <= readFds && (n >= 0 ==> n == |rfds|)
      modifies this`events, this`timers, this`pending, this`agenda, this`readFds, this`nfds, this`slots, this`fired, table
      modifies timerList`next, timerList`prev, pendingList`next, pendingList`prev
      modifies events
      ensures Valid() && pending == []
      ensures n < 0 ==> fired == old(fired)
      ensures n >= 0 ==>
                fired == old(fired) +
                         (old(timers)[..FirstNotBefore(old(agenda), now, 0)] + Ready(old(slots), rfds, MAX_FD_EVENTS))
      ensures forall i, j :: |old(fired)| <= i < j < |fired| ==> fired[i] != fired[j]
    {
      if n >= 0 {
        Collect(now, rfds, n);
        assert Distinct(pendingList, pending);
        FirePending(pool);
      }
    }
  }

  // ---------- what is ready ----------

  /** An event is among the ready ones exactly if it has a slot whose descriptor is. */
  lemma {:induction false} ReadyMembers(slots: seq<Slot>, rfds: set<int>, k: nat, ev: Event)
    requires k <= |slots|
    ensures ev in Ready(slots, rfds, k) <==>
            exists i :: 0 <= i < k && slots[i].Watch? && slots[i].fd in rfds && slots[i].ev == ev
  {
    if k > 0 { ReadyMembers(slots, rfds, k - 1, ev); }
  }

  /** The ready ones stand in the order of their slots. */
  lemma {:induction false} ReadyInOrder(slots: seq<Slot>, rfds: set<int>, k: nat, i: nat, j: nat) returns (p: nat, q: nat)
    requires i < j < k <= |slots| && slots[i].Watch? && slots[i].fd in rfds && slots[j].Watch? && slots[j].fd in rfds
    ensures p < q < |Ready(slots, rfds, k)| &&
            Ready(slots, rfds, k)[p] == slots[i].ev && Ready(slots, rfds, k)[q] == slots[j].ev
  {
    if j == k - 1 {
      ReadyMembers(slots, rfds, j, slots[i].ev);
      p :| 0 <= p < |Ready(slots, rfds, j)| && Ready(slots, rfds, j)[p] == slots[i].ev;
      q := |Ready(slots, rfds, j)|;
    } else {
      p, q := ReadyInOrder(slots, rfds, k - 1, i, j);
    }
  }

  // ---------- the early stop ----------

  ghost function ReadyFds(slots: seq<Slot>, rfds: set<int>, k: nat): set<int>
    requires k <= |slots|
  {
    set i | 0 <= i < k && IsReady(slots[i], rfds) :: slots[i].fd
  }

  lemma {:induction false} ReadyUpTo(slots: seq<Slot>, rfds: set<int>, k: nat)
    requires DistinctFds(slots) && k <= |slots|
    ensures |Ready(slots, rfds, k)| == |ReadyFds(slots, rfds, k)|
  {
    if k > 0 {
      ReadyUpTo(slots, rfds, k - 1);
      var s := ReadyFds(slots, rfds, k - 1);
      if IsReady(slots[k - 1], rfds) {
        assert ReadyFds(slots, rfds, k) == s + {slots[k - 1].fd};
        assert slots[k - 1].fd !in s;
      } else {
        assert ReadyFds(slots, rfds, k) == s;
      }
    }
  }

  /** With distinct descriptors, as many watches are ready as descriptors are reported. */
  lemma ReadyCount(slots: seq<Slot>, rfds: set<int>)
    requires DistinctFds(slots) && rfds <= FdsOf(slots)
    ensures |Ready(slots, rfds, |slots|)| == |rfds|
  {
    ReadyUpTo(slots, rfds, |slots|);
    forall fd | fd in rfds ensures fd in ReadyFds(slots, rfds, |slots|) {
      var i :| 0 <= i < |slots| && slots[i].Watch? && slots[i].fd == fd;
      assert IsReady(slots[i], rfds);
    }
    assert ReadyFds(slots, rfds, |slots|) == rfds;
  }

  /** A sweep that stops once it has as many events as there are in all has missed none. */
  lemma {:induction false} NoneMissed(slots: seq<Slot>, rfds: set<int>, stop: nat, k: nat)
    requires stop <= k <= |slots| && |Ready(slots, rfds, stop)| >= |Ready(slots, rfds, k)|
    ensures Ready(slots, rfds, stop) == Ready(slots, rfds, k)
    ensures forall i :: stop <= i < k ==> !IsReady(slots[i], rfds)
  {
    if stop < k {
      ReadyGrows(slots, rfds, stop, k - 1);
      NoneMissed(slots, rfds, stop, k - 1);
    }
  }

  lemma {:induction false} ReadyGrows(slots: seq<Slot>, rfds: set<int>, i: nat, k: nat)
    requires i <= k <= |slots|
    ensures |Ready(slots, rfds, i)| <= |Ready(slots, rfds, k)|
  {
    if i < k { ReadyGrows(slots, rfds, i, k - 1); }
  }
}
