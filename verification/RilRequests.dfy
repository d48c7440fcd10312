/**
 Solicited requests: what arrives on the command socket, what the vendor library completes,
 and what is answered.  Each callback is one step.
 */
module RilRequests {
  import opened Basics
  import opened SocketQueue

  const RESPONSE_SOLICITED := 0
  const RIL_E_GENERIC_FAILURE := 2

  /** RequestInfo.  `id` stands for its address: no two requests have the same. */
  datatype Request = Request(id: nat, token: int, local: bool, cancelled: bool)

  /** A response function's result and what it wrote. */
  datatype Payload = Payload(ret: int, words: seq<int>)

  datatype Event =
    | Receive(words: seq<int>, id: nat)
    | IssueLocal(id: nat)
    | Complete(id: nat, error: int, response: Option<Payload>)
    | Close

  /** One packet on the socket of connection `conn`; `id` names the request it completes. */
  datatype Packet = Packet(conn: nat, id: Option<nat>, words: seq<int>)

  /** How a request came in, and on which connection. */
  datatype Birth = Birth(token: int, local: bool, conn: nat)

  /** The pending list; the number of connections closed; every packet written; and, for the
      record, the requests ever taken in and on which connection each one was completed. */
  datatype State = State(pending: seq<Request>, conn: nat, sent: seq<Packet>, born: map<nat, Birth>, done: map<nat, nat>)

  predicate Start(s: State) { s.pending == [] && s.sent == [] && s.born == map[] && s.done == map[] }

  function SameId(id: nat): Request -> bool { (r: Request) => r.id == id }

  function Cancel(r: Request): Request { r.(cancelled := true) }

  /** A command that the table knows. */
  predicate Supported(commands: set<int>, request: int) { request >= 1 && request in commands }

  /** The error word is overwritten when the response function fails. */
  function Answer(token: int, error: int, response: Option<Payload>): seq<int> {
    match response
    case None => [RESPONSE_SOLICITED, token, error]
    case Some(p) => [RESPONSE_SOLICITED, token, if p.ret != 0 then p.ret else error] + p.words
  }

  ghost function Taken(s: State, r: Request): State {
    s.(pending := [r] + s.pending, born := s.born[r.id := Birth(r.token, r.local, s.conn)])
  }

  ghost function Do(commands: set<int>, s: State, e: Event): State {
    match e
    case Receive(words, id) =>
      if |words| < 2 then s
      else if !Supported(commands, words[0]) then
        s.(sent := s.sent + [Packet(s.conn, None, [RESPONSE_SOLICITED, words[1], RIL_E_GENERIC_FAILURE])])
      else Taken(s, Request(id, words[1], false, false))
    case IssueLocal(id) => Taken(s, Request(id, 0xffffffff, true, false))
    case Complete(id, error, response) =>
      var k := FirstMatch(s.pending, SameId(id), 0);
      if k == |s.pending| then s
      else
        var r := s.pending[k];
        s.(pending := Without(s.pending, k), done := s.done[id := s.conn],
           sent := s.sent + if r.local || r.cancelled then [] else [Packet(s.conn, Some(id), Answer(r.token, error, response))])
    case Close => s.(pending := Mapped(Cancel, s.pending), conn := s.conn + 1)
  }

  ghost function Run(commands: set<int>, s: State, events: seq<Event>): State {
    if events == [] then s else Do(commands, Run(commands, s, events[..|events| - 1]), events[|events| - 1])
  }

  /** The identity a step gives to a new request. */
  function NewId(commands: set<int>, e: Event): Option<nat> {
    match e
    case Receive(words, id) => if |words| >= 2 && Supported(commands, words[0]) then Some(id) else None
    case IssueLocal(id) => Some(id)
    case Complete(_, _, _) => None
    case Close => None
  }

  ghost predicate FreshIds(commands: set<int>, events: seq<Event>) {
    forall i, j :: 0 <= i < j < |events| && NewId(commands, events[i]).Some? ==>
      NewId(commands, events[i]) != NewId(commands, events[j])
  }

  // ---------- the invariant ----------

  /** A pending request is as it came in, and cancelled exactly if its connection is gone. */
  ghost predicate PendingOk(s: State, r: Request) {
    r.id in s.born && r.id !in s.done && s.born[r.id].conn <= s.conn &&
    r.token == s.born[r.id].token && r.local == s.born[r.id].local && (r.cancelled <==> s.born[r.id].conn < s.conn)
  }

  /** A packet that completes a request bears its token and went out on its connection. */
  ghost predicate PacketOk(s: State, p: Packet) {
    p.id.Some? ==>
      p.id.value in s.born && p.id.value in s.done && !s.born[p.id.value].local &&
      p.conn == s.born[p.id.value].conn == s.done[p.id.value] &&
      |p.words| >= 3 && p.words[0] == RESPONSE_SOLICITED && p.words[1] == s.born[p.id.value].token
  }

  ghost predicate Answered(s: State, id: nat) {
    exists i :: 0 <= i < |s.sent| && s.sent[i].id == Some(id)
  }

  ghost predicate ListOk(s: State) {
    (forall i :: 0 <= i < |s.pending| ==> PendingOk(s, s.pending[i])) &&
    (forall i, j :: 0 <= i < j < |s.pending| ==> s.pending[i].id != s.pending[j].id) &&
    (forall id :: id in s.born && id !in s.done ==> Listed(s.pending, id))
  }

  ghost predicate Listed(pending: seq<Request>, id: nat) {
    exists i :: 0 <= i < |pending| && pending[i].id == id
  }

  ghost predicate WireOk(s: State) {
    (forall i :: 0 <= i < |s.sent| ==> PacketOk(s, s.sent[i])) &&
    (forall i, j :: 0 <= i < j < |s.sent| && s.sent[i].id.Some? ==> s.sent[i].id != s.sent[j].id)
  }

  /** A completed request was answered exactly if it was not local and its connection was
      still there. */
  ghost predicate DoneOk(s: State) {
    forall id :: id in s.done ==>
      id in s.born && s.born[id].conn <= s.done[id] <= s.conn &&
      (Answered(s, id) <==> !s.born[id].local && s.born[id].conn == s.done[id])
  }

  ghost predicate Inv(s: State) { ListOk(s) && WireOk(s) && DoneOk(s) }

  lemma ListedMore(pending: seq<Request>, r: Request, id: nat)
    requires id == r.id || Listed(pending, id)
    ensures Listed([r] + pending, id)
  {
    if id == r.id {
      assert ([r] + pending)[0].id == id;
    } else {
      var i :| 0 <= i < |pending| && pending[i].id == id;
      assert ([r] + pending)[i + 1].id == id;
    }
  }

  lemma TakenKeepsList(s: State, r: Request)
    requires ListOk(s) && r.id !in s.born && r.id !in s.done && !r.cancelled
    ensures ListOk(Taken(s, r))
  {
    var t := Taken(s, r);
    forall id | id in t.born && id !in t.done ensures Listed(t.pending, id) { ListedMore(s.pending, r, id); }
    forall i | 0 <= i < |t.pending| ensures PendingOk(t, t.pending[i]) {
      if i > 0 { assert t.pending[i] == s.pending[i - 1] && PendingOk(s, s.pending[i - 1]); }
    }
  }

  lemma TakenKeepsInv(s: State, r: Request)
    requires Inv(s) && r.id !in s.born && !r.cancelled
    ensures Inv(Taken(s, r))
  {
    var t := Taken(s, r);
    TakenKeepsList(s, r);
    forall i | 0 <= i < |t.sent| ensures PacketOk(t, t.sent[i]) { assert PacketOk(s, s.sent[i]); }
    forall id | id in t.done ensures Answered(t, id) <==> Answered(s, id) { }
  }

  /** A packet more, and what it says about the requests answered. */
  lemma SentMore(s: State, p: Packet, t: State)
    requires t.sent == s.sent + [p]
    ensures forall id: nat :: Answered(t, id) <==> Answered(s, id) || p.id == Some(id)
  {
    forall id: nat ensures Answered(t, id) <==> Answered(s, id) || p.id == Some(id) {
      if Answered(s, id) {
        var i :| 0 <= i < |s.sent| && s.sent[i].id == Some(id);
        assert t.sent[i].id == Some(id);
      }
      assert t.sent[|s.sent|] == p;
    }
  }

  lemma RefuseKeepsInv(s: State, p: Packet, t: State)
    requires Inv(s) && p.id.None? && t == s.(sent := s.sent + [p])
    ensures Inv(t)
  {
    SentMore(s, p, t);
    forall i | 0 <= i < |t.sent| ensures PacketOk(t, t.sent[i]) {
      if i < |s.sent| { assert PacketOk(s, s.sent[i]); }
    }
    forall i | 0 <= i < |t.pending| ensures PendingOk(t, t.pending[i]) { assert PendingOk(s, s.pending[i]); }
  }

  /** Only the request at k leaves the list. */
  lemma ListWithout(s: State, k: nat, t: State)
    requires ListOk(s) && k < |s.pending| && t.pending == Without(s.pending, k)
    requires t.born == s.born && t.conn == s.conn && t.done == s.done[s.pending[k].id := s.conn]
    ensures ListOk(t)
  {
    DistinctIds(s.pending, k);
    forall i | 0 <= i < |t.pending| ensures PendingOk(t, t.pending[i]) {
      assert PendingOk(s, s.pending[if i < k then i else i + 1]);
    }
    forall id | id in t.born && id !in t.done ensures Listed(t.pending, id) { ListedWithout(s.pending, k, id); }
  }

  lemma ListedWithout(pending: seq<Request>, k: nat, id: nat)
    requires Listed(pending, id) && k < |pending| && pending[k].id != id
    ensures Listed(Without(pending, k), id)
  {
    var i :| 0 <= i < |pending| && pending[i].id == id;
    assert Without(pending, k)[if i < k then i else i - 1].id == id;
  }

  lemma DistinctIds(pending: seq<Request>, k: nat)
    requires k < |pending| && forall i, j :: 0 <= i < j < |pending| ==> pending[i].id != pending[j].id
    ensures var r := Without(pending, k);
            (forall i, j :: 0 <= i < j < |r| ==> r[i].id != r[j].id) && forall i :: 0 <= i < |r| ==> r[i].id != pending[k].id
  {
  }

  lemma CompleteKeepsWire(s: State, k: nat, words: seq<int>, t: State)
    requires Inv(s) && k < |s.pending| && t.born == s.born && t.done == s.done[s.pending[k].id := s.conn]
    requires var r := s.pending[k];
             t.sent == s.sent + if r.local || r.cancelled then [] else [Packet(s.conn, Some(r.id), words)]
    requires |words| >= 3 && words[0] == RESPONSE_SOLICITED && words[1] == s.pending[k].token
    ensures WireOk(t)
  {
    var r := s.pending[k];
    assert PendingOk(s, r);
    forall i | 0 <= i < |t.sent| ensures PacketOk(t, t.sent[i]) {
      if i < |s.sent| { assert PacketOk(s, s.sent[i]); }
    }
  }

  lemma CompleteKeepsDone(s: State, k: nat, words: seq<int>, t: State)
    requires Inv(s) && k < |s.pending| && t.born == s.born && t.conn == s.conn && t.done == s.done[s.pending[k].id := s.conn]
    requires var r := s.pending[k];
             t.sent == s.sent + if r.local || r.cancelled then [] else [Packet(s.conn, Some(r.id), words)]
    ensures DoneOk(t)
  {
    var r := s.pending[k];
    assert PendingOk(s, r);
    forall i | 0 <= i < |s.sent| ensures s.sent[i].id != Some(r.id) { assert PacketOk(s, s.sent[i]); }
    if r.local || r.cancelled {
      assert t.sent == s.sent;
      assert !Answered(t, r.id);
    } else {
      SentMore(s, Packet(s.conn, Some(r.id), words), t);
    }
    forall id | id in t.done && id != r.id ensures Answered(t, id) <==> Answered(s, id) { }
  }

  lemma CloseKeepsInv(s: State, t: State)
    requires Inv(s) && t == s.(pending := Mapped(Cancel, s.pending), conn := s.conn + 1)
    ensures Inv(t)
  {
    forall i | 0 <= i < |t.pending| ensures PendingOk(t, t.pending[i]) { assert PendingOk(s, s.pending[i]); }
    forall id | id in t.born && id !in t.done ensures Listed(t.pending, id) {
      var i :| 0 <= i < |s.pending| && s.pending[i].id == id;
      assert t.pending[i].id == id;
    }
    forall i | 0 <= i < |t.sent| ensures PacketOk(t, t.sent[i]) { assert PacketOk(s, s.sent[i]); }
    forall id | id in t.done ensures Answered(t, id) <==> Answered(s, id) { }
  }

  lemma {:induction false} StepKeepsInv(commands: set<int>, s: State, e: Event)
    requires Inv(s) && (NewId(commands, e).Some? ==> NewId(commands, e).value !in s.born)
    ensures Inv(Do(commands, s, e))
  {
    var t := Do(commands, s, e);
    match e {
      case Receive(words, id) =>
        if |words| >= 2 {
          if Supported(commands, words[0]) {
            TakenKeepsInv(s, Request(id, words[1], false, false));
          } else {
            RefuseKeepsInv(s, Packet(s.conn, None, [RESPONSE_SOLICITED, words[1], RIL_E_GENERIC_FAILURE]), t);
          }
        }
      case IssueLocal(id) => TakenKeepsInv(s, Request(id, 0xffffffff, true, false));
      case Complete(id, error, response) =>
        var k := FirstMatch(s.pending, SameId(id), 0);
        if k < |s.pending| {
          ListWithout(s, k, t);
          CompleteKeepsWire(s, k, Answer(s.pending[k].token, error, response), t);
          CompleteKeepsDone(s, k, Answer(s.pending[k].token, error, response), t);
        }
      case Close => CloseKeepsInv(s, t);
    }
  }

  ghost function Closes(events: seq<Event>): nat {
    if events == [] then 0 else Closes(events[..|events| - 1]) + if events[|events| - 1].Close? then 1 else 0
  }

  /** The request that step i brought in, on the connection of that time. */
  ghost predicate BornAt(commands: set<int>, conn: nat, events: seq<Event>, i: nat, id: nat, b: Birth)
    requires i < |events|
  {
    NewId(commands, events[i]) == Some(id) && b.conn == conn + Closes(events[..i]) && (b.local <==> events[i].IssueLocal?) &&
    (events[i].Receive? ==> b.token == events[i].words[1])
  }

  lemma BornEarlier(commands: set<int>, conn: nat, events: seq<Event>, i: nat, id: nat, b: Birth)
    requires i < |events| - 1
    ensures BornAt(commands, conn, events, i, id, b) <==> BornAt(commands, conn, events[..|events| - 1], i, id, b)
  {
    assert events[..|events| - 1][..i] == events[..i];
  }

  ghost predicate AllBorn(commands: set<int>, conn: nat, events: seq<Event>, born: map<nat, Birth>) {
    forall id :: id in born ==> exists i :: 0 <= i < |events| && BornAt(commands, conn, events, i, id, born[id])
  }

  /** What a step adds to the record. */
  lemma BornStep(commands: set<int>, s: State, e: Event)
    ensures var b, id := Do(commands, s, e).born, NewId(commands, e);
            if id.None? then b == s.born
            else exists x: Birth :: b == s.born[id.value := x] && x.conn == s.conn && (x.local <==> e.IssueLocal?) &&
                                    (e.Receive? ==> x.token == e.words[1])
  {
    var id := NewId(commands, e);
    if id.Some? {
      var x := Do(commands, s, e).born[id.value];
      assert Do(commands, s, e).born == s.born[id.value := x];
    }
  }

  lemma BornKept(commands: set<int>, conn: nat, events: seq<Event>, born: map<nat, Birth>, s: State)
    requires events != [] && AllBorn(commands, conn, events[..|events| - 1], s.born)
    requires s.conn == conn + Closes(events[..|events| - 1]) && born == Do(commands, s, events[|events| - 1]).born
    ensures AllBorn(commands, conn, events, born)
  {
    var n := |events| - 1;
    BornStep(commands, s, events[n]);
    forall id | id in born ensures exists i :: 0 <= i < |events| && BornAt(commands, conn, events, i, id, born[id]) {
      if NewId(commands, events[n]) == Some(id) {
        assert BornAt(commands, conn, events, n, id, born[id]);
      } else {
        var i :| 0 <= i < n && BornAt(commands, conn, events[..n], i, id, s.born[id]);
        BornEarlier(commands, conn, events, i, id, born[id]);
      }
    }
  }

  lemma FreshBefore(commands: set<int>, events: seq<Event>, n: nat)
    requires FreshIds(commands, events) && n <= |events|
    ensures FreshIds(commands, events[..n])
  {
    assert forall k :: 0 <= k < n ==> events[..n][k] == events[k];
  }

  lemma NotBornYet(commands: set<int>, conn: nat, events: seq<Event>, born: map<nat, Birth>)
    requires events != [] && FreshIds(commands, events) && AllBorn(commands, conn, events[..|events| - 1], born)
    ensures NewId(commands, events[|events| - 1]).Some? ==> NewId(commands, events[|events| - 1]).value !in born
  {
    var n := |events| - 1;
    assert forall k :: 0 <= k < n ==> events[..n][k] == events[k];
  }

  lemma {:induction false} ConnAfter(commands: set<int>, s: State, events: seq<Event>)
    ensures Run(commands, s, events).conn == s.conn + Closes(events)
  {
    if events != [] { ConnAfter(commands, s, events[..|events| - 1]); }
  }

  lemma StartInv(s: State)
    requires Start(s)
    ensures Inv(s)
  {
  }

  lemma {:induction false} RunKeepsInv(commands: set<int>, s: State, events: seq<Event>)
    requires Start(s) && FreshIds(commands, events)
    ensures Inv(Run(commands, s, events)) && Run(commands, s, events).conn == s.conn + Closes(events)
    ensures AllBorn(commands, s.conn, events, Run(commands, s, events).born)
  {
    ConnAfter(commands, s, events);
    if events == [] {
      StartInv(s);
    } else {
      var n := |events| - 1;
      var before, e := events[..n], events[n];
      FreshBefore(commands, events, n);
      RunKeepsInv(commands, s, before);
      var t := Run(commands, s, before);
      NotBornYet(commands, s.conn, events, t.born);
      StepKeepsInv(commands, t, e);
      BornKept(commands, s.conn, events, Do(commands, t, e).born, t);
    }
  }

  // ---------- what follows for every run ----------

  /** Every answer belongs to one received request: it bears that request's token and went
      out on the connection the request came in on.  No other answer belongs to it. */
  lemma {:induction false} AnswersAreOwn(commands: set<int>, s: State, events: seq<Event>, j: nat)
    requires Start(s) && FreshIds(commands, events)
    requires var sent := Run(commands, s, events).sent; j < |sent| && sent[j].id.Some?
    ensures var sent := Run(commands, s, events).sent;
            (exists i :: 0 <= i < |events| && events[i].Receive? && NewId(commands, events[i]) == sent[j].id &&
              |sent[j].words| >= 3 && sent[j].words[1] == events[i].words[1] && sent[j].conn == s.conn + Closes(events[..i])) &&
            (forall k :: 0 <= k < |sent| && k != j ==> sent[k].id != sent[j].id)
  {
    RunKeepsInv(commands, s, events);
    var t := Run(commands, s, events);
    var p := t.sent[j];
    assert PacketOk(t, p);
    var i :| 0 <= i < |events| && BornAt(commands, s.conn, events, i, p.id.value, t.born[p.id.value]);
  }

  // ---------- completions in the history ----------

  predicate Completes(e: Event, id: nat) { e.Complete? && e.id == id }

  /** Step i brought the request in and step j is the first after it to complete it. */
  ghost predicate FirstCompletion(commands: set<int>, events: seq<Event>, i: int, j: int, id: nat) {
    0 <= i < j < |events| && NewId(commands, events[i]) == Some(id) && Completes(events[j], id) &&
    forall k :: i < k < j ==> !Completes(events[k], id)
  }

  /** If a request is completed at all after it came in, there is a first time. */
  lemma {:induction false} SomeFirst(commands: set<int>, events: seq<Event>, i: nat, j: nat, id: nat) returns (f: nat)
    requires i < j < |events| && NewId(commands, events[i]) == Some(id) && Completes(events[j], id)
    ensures f <= j && FirstCompletion(commands, events, i, f, id)
    decreases j
  {
    if k :| i < k < j && Completes(events[k], id) {
      f := SomeFirst(commands, events, i, k, id);
    } else {
      f := j;
    }
  }

  lemma FirstIsOne(commands: set<int>, events: seq<Event>, i: int, j: int, i': int, j': int, id: nat)
    requires FreshIds(commands, events)
    requires FirstCompletion(commands, events, i, j, id) && FirstCompletion(commands, events, i', j', id)
    ensures i == i' && j == j'
  {
  }

  lemma FirstEarlier(commands: set<int>, events: seq<Event>, n: nat, i: int, j: int, id: nat)
    requires n <= |events| && j < n
    ensures FirstCompletion(commands, events, i, j, id) <==> FirstCompletion(commands, events[..n], i, j, id)
  {
    assert forall k :: 0 <= k < n ==> events[..n][k] == events[k];
  }

  lemma {:induction false} TakenIn(commands: set<int>, s: State, events: seq<Event>, i: nat, id: nat)
    requires i < |events| && NewId(commands, events[i]) == Some(id)
    ensures id in Run(commands, s, events).born
  {
    var n := |events| - 1;
    if i < n { TakenIn(commands, s, events[..n], i, id); }
    BornStep(commands, Run(commands, s, events[..n]), events[n]);
  }

  /** The record of completions, told by the history alone. */
  ghost predicate DoneAt(commands: set<int>, conn: nat, events: seq<Event>, done: map<nat, nat>, id: nat) {
    (id in done <==> exists i, j :: FirstCompletion(commands, events, i, j, id)) &&
    forall i, j :: FirstCompletion(commands, events, i, j, id) ==> id in done && done[id] == conn + Closes(events[..j])
  }

  /** The step that is not the first to complete the request leaves its record alone. */
  lemma DoneKept(commands: set<int>, conn: nat, events: seq<Event>, n: nat, done: map<nat, nat>, done': map<nat, nat>, id: nat)
    requires n == |events| - 1 && DoneAt(commands, conn, events[..n], done, id)
    requires forall i :: !FirstCompletion(commands, events, i, n, id)
    requires (id in done' <==> id in done) && (id in done ==> done'[id] == done[id])
    ensures DoneAt(commands, conn, events, done', id)
  {
    forall i, j ensures FirstCompletion(commands, events, i, j, id) <==> FirstCompletion(commands, events[..n], i, j, id) {
      if j < n { FirstEarlier(commands, events, n, i, j, id); }
    }
    forall i, j | FirstCompletion(commands, events, i, j, id) ensures events[..j] == events[..n][..j] { }
  }

  lemma OtherDone(commands: set<int>, t: State, e: Event, id: nat)
    requires !Completes(e, id)
    ensures var d := Do(commands, t, e).done; (id in d <==> id in t.done) && (id in d ==> d[id] == t.done[id])
  {
  }

  lemma {:induction false} RunDone(commands: set<int>, s: State, events: seq<Event>, id: nat)
    requires Start(s) && FreshIds(commands, events)
    ensures DoneAt(commands, s.conn, events, Run(commands, s, events).done, id)
  {
    if events != [] {
      var n := |events| - 1;
      var before, e := events[..n], events[n];
      FreshBefore(commands, events, n);
      RunDone(commands, s, before, id);
      RunKeepsInv(commands, s, before);
      if Completes(e, id) {
        if id in Run(commands, s, before).born && id !in Run(commands, s, before).done {
          FirstNow(commands, s, events, id);
        } else {
          NotNow(commands, s, events, id);
        }
      } else {
        OtherDone(commands, Run(commands, s, before), e, id);
        DoneKept(commands, s.conn, events, n, Run(commands, s, before).done, Run(commands, s, events).done, id);
      }
    }
  }

  lemma PendingIsFirst(commands: set<int>, s: State, events: seq<Event>, id: nat) returns (i: nat)
    requires Start(s) && FreshIds(commands, events) && events != [] && Completes(events[|events| - 1], id)
    requires var t := Run(commands, s, events[..|events| - 1]);
             AllBorn(commands, s.conn, events[..|events| - 1], t.born) && id in t.born && id !in t.done &&
             DoneAt(commands, s.conn, events[..|events| - 1], t.done, id)
    ensures FirstCompletion(commands, events, i, |events| - 1, id)
    ensures BornAt(commands, s.conn, events, i, id, Run(commands, s, events[..|events| - 1]).born[id])
  {
    var n := |events| - 1;
    var before := events[..n];
    var b := Run(commands, s, before).born[id];
    i :| 0 <= i < n && BornAt(commands, s.conn, before, i, id, b);
    BornEarlier(commands, s.conn, events, i, id, b);
    forall k | i < k < n ensures !Completes(events[k], id) {
      assert before[k] == events[k];
      if Completes(before[k], id) {
        var f := SomeFirst(commands, before, i, k, id);
      }
    }
  }

  /** A completion that finds the request pending is its first. */
  lemma FirstNow(commands: set<int>, s: State, events: seq<Event>, id: nat)
    requires Start(s) && FreshIds(commands, events) && events != [] && Completes(events[|events| - 1], id)
    requires var t := Run(commands, s, events[..|events| - 1]);
             Inv(t) && AllBorn(commands, s.conn, events[..|events| - 1], t.born) &&
             t.conn == s.conn + Closes(events[..|events| - 1]) && id in t.born && id !in t.done &&
             DoneAt(commands, s.conn, events[..|events| - 1], t.done, id)
    ensures DoneAt(commands, s.conn, events, Run(commands, s, events).done, id)
  {
    var n := |events| - 1;
    PendingFound(Run(commands, s, events[..n]), id);
    var i := PendingIsFirst(commands, s, events, id);
    forall i', j' | FirstCompletion(commands, events, i', j', id) ensures j' == n {
      FirstIsOne(commands, events, i, n, i', j', id);
    }
  }

  lemma PendingFound(t: State, id: nat)
    requires Inv(t) && id in t.born && id !in t.done
    ensures FirstMatch(t.pending, SameId(id), 0) < |t.pending|
  {
    var i :| 0 <= i < |t.pending| && t.pending[i].id == id;
    if i < FirstMatch(t.pending, SameId(id), 0) { NoMatchBefore(t.pending, SameId(id), 0, i); }
  }

  /** One that does not is not, and changes nothing. */
  lemma NotNow(commands: set<int>, s: State, events: seq<Event>, id: nat)
    requires Start(s) && FreshIds(commands, events) && events != [] && Completes(events[|events| - 1], id)
    requires var t := Run(commands, s, events[..|events| - 1]);
             Inv(t) && !(id in t.born && id !in t.done) && DoneAt(commands, s.conn, events[..|events| - 1], t.done, id)
    ensures DoneAt(commands, s.conn, events, Run(commands, s, events).done, id)
  {
    var n := |events| - 1;
    var before := events[..n];
    var t := Run(commands, s, before);
    NotPending(t, id);
    forall i ensures !FirstCompletion(commands, events, i, n, id) {
      if FirstCompletion(commands, events, i, n, id) {
        assert before[i] == events[i];
        TakenIn(commands, s, before, i, id);
        var i', j' :| FirstCompletion(commands, before, i', j', id);
        FirstEarlier(commands, events, n, i', j', id);
        FirstIsOne(commands, events, i, n, i', j', id);
      }
    }
    DoneKept(commands, s.conn, events, n, t.done, Run(commands, s, events).done, id);
  }

  lemma NotPending(t: State, id: nat)
    requires Inv(t) && !(id in t.born && id !in t.done)
    ensures FirstMatch(t.pending, SameId(id), 0) == |t.pending|
  {
    forall k | 0 <= k < |t.pending| ensures t.pending[k].id != id { assert PendingOk(t, t.pending[k]); }
    NoMatch(t.pending, id, 0);
  }

  lemma {:induction false} ClosesBetween(events: seq<Event>, i: nat, j: nat)
    requires i <= j <= |events|
    ensures Closes(events[..i]) <= Closes(events[..j])
    ensures Closes(events[..i]) == Closes(events[..j]) <==> forall k :: i <= k < j ==> !events[k].Close?
    decreases j
  {
    if i < j {
      ClosesBetween(events, i, j - 1);
      assert events[..j][..j - 1] == events[..j - 1] && events[..j][j - 1] == events[j - 1];
    }
  }

  /** Received at i, completed for the first time at j, and the connection not closed between. */
  ghost predicate CompletedInTime(commands: set<int>, events: seq<Event>, i: int, j: int, id: nat) {
    FirstCompletion(commands, events, i, j, id) && events[i].Receive? && forall k :: i < k < j ==> !events[k].Close?
  }

  /** The books say a request was answered exactly if its first completion was in time. */
  lemma InTime(commands: set<int>, conn: nat, events: seq<Event>, i: int, j: int, id: nat, b: Birth, at: nat)
    requires FirstCompletion(commands, events, i, j, id) && BornAt(commands, conn, events, i, id, b)
    requires at == conn + Closes(events[..j])
    ensures CompletedInTime(commands, events, i, j, id) <==> !b.local && b.conn == at
  {
    ClosesBetween(events, i, j);
  }

  /** In every run a request is answered if and only if it was received, not issued locally,
      and the first step that completes it comes before its connection is closed. */
  lemma AnsweredIff(commands: set<int>, s: State, events: seq<Event>, id: nat)
    requires Start(s) && FreshIds(commands, events)
    ensures Answered(Run(commands, s, events), id) <==> exists i, j :: CompletedInTime(commands, events, i, j, id)
  {
    RunKeepsInv(commands, s, events);
    RunDone(commands, s, events, id);
    var t := Run(commands, s, events);
    if Answered(t, id) {
      var i :| 0 <= i < |t.sent| && t.sent[i].id == Some(id);
      assert PacketOk(t, t.sent[i]);
    }
    if i, j :| FirstCompletion(commands, events, i, j, id) {
      TakenIn(commands, s, events, i, id);
      var i' :| 0 <= i' < |events| && BornAt(commands, s.conn, events, i', id, t.born[id]);
      assert i' == i;
      InTime(commands, s.conn, events, i, j, id, t.born[id], t.done[id]);
      forall i2, j2 | FirstCompletion(commands, events, i2, j2, id) ensures i2 == i && j2 == j {
        FirstIsOne(commands, events, i, j, i2, j2, id);
      }
    }
  }

  // ---------- what the packets say ----------

  /** The words of an answer: the token of the request, the error of its completion or what
      the response function made of it, and what that function wrote. */
  ghost predicate AnswerTo(token: int, completed: Event, words: seq<int>) {
    completed.Complete? && |words| >= 3 && words[0] == 0 && words[1] == token &&
    match completed.response
    case None => |words| == 3 && words[2] == completed.error
    case Some(p) => words[2] == (if p.ret == 0 then completed.error else p.ret) && words[3..] == p.words
  }

  /** A packet that completes a request says what the first completion of it gave. */
  ghost predicate SaysFirst(commands: set<int>, events: seq<Event>, p: Packet) {
    p.id.Some? ==>
      exists i, j :: CompletedInTime(commands, events, i, j, p.id.value) && AnswerTo(events[i].words[1], events[j], p.words)
  }

  lemma SaysEarlier(commands: set<int>, events: seq<Event>, n: nat, p: Packet)
    requires n <= |events| && SaysFirst(commands, events[..n], p)
    ensures SaysFirst(commands, events, p)
  {
    if p.id.Some? {
      var i, j :| CompletedInTime(commands, events[..n], i, j, p.id.value) &&
                  AnswerTo(events[..n][i].words[1], events[..n][j], p.words);
      FirstEarlier(commands, events, n, i, j, p.id.value);
      assert forall k :: 0 <= k < n ==> events[..n][k] == events[k];
      assert CompletedInTime(commands, events, i, j, p.id.value);
    }
  }

  /** A new packet for a request comes from a completion that finds it pending, in time. */
  lemma NewPacket(commands: set<int>, t: State, e: Event, u: State, p: Packet)
    requires Inv(t) && u == Do(commands, t, e) && p in u.sent && p !in t.sent && p.id.Some?
    ensures Completes(e, p.id.value) && p.id.value in t.born && p.id.value !in t.done
    ensures var b := t.born[p.id.value]; !b.local && b.conn == t.conn && AnswerTo(b.token, e, p.words)
  {
    assert e.Complete?;
    var k := FirstMatch(t.pending, SameId(e.id), 0);
    var r := t.pending[k];
    assert PendingOk(t, r);
    assert u.sent == t.sent + [Packet(t.conn, Some(e.id), Answer(r.token, e.error, e.response))];
    AnswerWords(r.token, e);
  }

  lemma AnswerWords(token: int, e: Event)
    requires e.Complete?
    ensures AnswerTo(token, e, Answer(token, e.error, e.response))
  {
  }

  /** The packet that the last event sends for a request. */
  lemma SaysNow(commands: set<int>, s: State, events: seq<Event>, p: Packet)
    requires Start(s) && FreshIds(commands, events) && events != [] && p.id.Some?
    requires p in Run(commands, s, events).sent && p !in Run(commands, s, events[..|events| - 1]).sent
    ensures SaysFirst(commands, events, p)
  {
    var n := |events| - 1;
    var before := events[..n];
    FreshBefore(commands, events, n);
    var t, id := Run(commands, s, before), p.id.value;
    RunKeepsInv(commands, s, before);
    RunDone(commands, s, before, id);
    NewPacket(commands, t, events[n], Run(commands, s, events), p);
    var i := PendingIsFirst(commands, s, events, id);
    InTime(commands, s.conn, events, i, n, id, t.born[id], t.conn);
  }

  /** In every run each answer says what its request's first completion gave. */
  lemma {:induction false} AnswersSayFirst(commands: set<int>, s: State, events: seq<Event>, p: Packet)
    requires Start(s) && FreshIds(commands, events) && p in Run(commands, s, events).sent
    ensures SaysFirst(commands, events, p)
  {
    if events != [] && p.id.Some? {
      var n := |events| - 1;
      if p in Run(commands, s, events[..n]).sent {
        FreshBefore(commands, events, n);
        AnswersSayFirst(commands, s, events[..n], p);
        SaysEarlier(commands, events, n, p);
      } else {
        SaysNow(commands, s, events, p);
      }
    }
  }

  /** The packets that answer no request. */
  ghost function Unowned(sent: seq<Packet>): seq<Packet> {
    if sent == [] then []
    else Unowned(sent[..|sent| - 1]) + if sent[|sent| - 1].id.None? then [sent[|sent| - 1]] else []
  }

  /** A command that is refused: at least two words, and a code below one or not in the table. */
  predicate Unknown(commands: set<int>, e: Event) {
    e.Receive? && |e.words| >= 2 && (e.words[0] < 1 || e.words[0] !in commands)
  }

  /** What is sent back for the commands refused, in their order. */
  ghost function Refusals(commands: set<int>, conn: nat, events: seq<Event>): seq<Packet> {
    if events == [] then []
    else
      var before, e := events[..|events| - 1], events[|events| - 1];
      Refusals(commands, conn, before) +
      if Unknown(commands, e) then [Packet(conn + Closes(before), None, [0, e.words[1], 2])] else []
  }

  lemma UnownedLast(sent: seq<Packet>, p: Packet)
    ensures Unowned(sent + [p]) == Unowned(sent) + if p.id.None? then [p] else []
  {
    assert (sent + [p])[..|sent|] == sent;
  }

  /** What one command does: too short, nothing; unknown, a refusal and nothing else; known,
      a request in front of the list. */
  lemma ReceiveCases(commands: set<int>, s: State, words: seq<int>, id: nat)
    ensures var t := Do(commands, s, Receive(words, id));
            if |words| < 2 then t == s
            else if Unknown(commands, Receive(words, id)) then
              t == s.(sent := s.sent + [Packet(s.conn, None, [0, words[1], 2])])
            else
              t.pending == [Request(id, words[1], false, false)] + s.pending && t.sent == s.sent && t.conn == s.conn
  {
  }

  lemma UnownedStep(commands: set<int>, t: State, e: Event, u: State)
    requires u == Do(commands, t, e)
    ensures Unowned(u.sent) ==
            Unowned(t.sent) + if Unknown(commands, e) then [Packet(t.conn, None, [0, e.words[1], 2])] else []
  {
    if e.Receive? {
      ReceiveCases(commands, t, e.words, e.id);
      if Unknown(commands, e) { UnownedLast(t.sent, Packet(t.conn, None, [0, e.words[1], 2])); }
    } else if e.Complete? {
      assert t.sent + [] == t.sent;
      var k := FirstMatch(t.pending, SameId(e.id), 0);
      if k < |t.pending| {
        UnownedLast(t.sent, Packet(t.conn, Some(e.id), Answer(t.pending[k].token, e.error, e.response)));
      }
    }
  }

  /** In every run exactly the commands refused are answered without a request, each with its
      own token, in the order they came. */
  lemma {:induction false} RefusalsInOrder(commands: set<int>, s: State, events: seq<Event>)
    requires Start(s)
    ensures Unowned(Run(commands, s, events).sent) == Refusals(commands, s.conn, events)
  {
    if events != [] {
      var n := |events| - 1;
      ConnAfter(commands, s, events[..n]);
      RefusalsInOrder(commands, s, events[..n]);
      UnownedStep(commands, Run(commands, s, events[..n]), events[n], Run(commands, s, events));
    }
  }

  lemma {:induction false} NoMatch(pending: seq<Request>, id: nat, i: nat)
    requires i <= |pending| && forall k :: i <= k < |pending| ==> pending[k].id != id
    ensures FirstMatch(pending, SameId(id), i) == |pending|
    decreases |pending| - i
  {
    if i < |pending| { NoMatch(pending, id, i + 1); }
  }

  /** Completing a request again changes nothing. */
  lemma SecondCompletion(commands: set<int>, s: State, first: Event, again: Event)
    requires Inv(s) && first.Complete? && again.Complete? && again.id == first.id
    ensures var t := Do(commands, s, first); Do(commands, t, again) == t
  {
    var k := FirstMatch(s.pending, SameId(first.id), 0);
    var t := Do(commands, s, first);
    if k < |s.pending| {
      forall i | 0 <= i < |t.pending| ensures t.pending[i].id != first.id {
        assert t.pending[i] == s.pending[if i < k then i else i + 1];
      }
      NoMatch(t.pending, first.id, 0);
    }
  }

  /** Any number of completions of one request is as good as the first alone. */
  lemma {:induction false} Completions(commands: set<int>, s: State, events: seq<Event>, id: nat)
    requires Inv(s) && forall i :: 0 <= i < |events| ==> events[i].Complete? && events[i].id == id
    ensures Run(commands, s, events) == if events == [] then s else Do(commands, s, events[0])
  {
    if |events| > 1 {
      Completions(commands, s, events[..|events| - 1], id);
      SecondCompletion(commands, s, events[0], events[|events| - 1]);
    } else if |events| == 1 {
      assert Run(commands, s, events[..0]) == s;
    }
  }

  // ---------- a handler that completes twice ----------

  const RIL_E_SUCCESS := 0
  const RIL_E_RADIO_NOT_AVAILABLE := 1

  /** The radio states dispatchVoiceRadioTech tells apart; `tech` is what the state decodes
      to, negative if to nothing. */
  datatype RadioState = Unavailable | Off | On | Older(tech: int)

  /** The completions it makes itself; a radio that is on is asked instead. */
  function VoiceRadioTech(state: RadioState, id: nat): seq<Event> {
    var tech := if state.Older? then state.tech else -1;
    (if state.Unavailable? || state.Off? then [Complete(id, RIL_E_RADIO_NOT_AVAILABLE, None)] else []) +
    if state.On? then []
    else if tech < 0 then [Complete(id, RIL_E_GENERIC_FAILURE, None)]
    else [Complete(id, RIL_E_SUCCESS, Some(Payload(0, [1, tech])))]
  }

  /** However often it completes the request, only the first time counts. */
  lemma VoiceRadioTechAnswersOnce(commands: set<int>, s: State, state: RadioState, id: nat)
    requires Inv(s)
    ensures var events := VoiceRadioTech(state, id);
            Run(commands, s, events) ==
            match state
            case Unavailable | Off => Do(commands, s, Complete(id, RIL_E_RADIO_NOT_AVAILABLE, None))
            case On => s
            case Older(tech) =>
              Do(commands, s, if tech < 0 then Complete(id, RIL_E_GENERIC_FAILURE, None)
                              else Complete(id, RIL_E_SUCCESS, Some(Payload(0, [1, tech]))))
  {
    Completions(commands, s, VoiceRadioTech(state, id), id);
  }

  // ---------- the code ----------

  class Dispatcher {
    const commands: set<int>
    const pending: Queue<Request>
    var conn: nat
    var sent: seq<Packet>
    ghost var born: map<nat, Birth>
    ghost var done: map<nat, nat>

    constructor (commands: set<int>)
      ensures Start(View()) && Valid() && this.commands == commands && fresh(pending)
    {
      this.commands := commands;
      pending := new Queue<Request>();
      conn, sent, born, done := 0, [], map[], map[];
    }

    ghost predicate Valid()
      reads pending, pending.nodes
    {
      pending.Valid()
    }

    ghost function View(): State
      reads this, pending
    {
      State(pending.items, conn, sent, born, done)
    }

    /** The request goes to the front of the list. */
    method Take(r: Request)
      requires Valid()
      modifies this`born, pending
      ensures Valid() && View() == Taken(old(View()), r)
      ensures fresh(set n | n in pending.nodes && n !in old(pending.nodes))
    {
      var node := new Node(r);
      pending.Enqueue(node);
      born := born[r.id := Birth(r.token, r.local, conn)];
    }

    /** processCommandBuffer, up to the dispatch function.  Only the second read's status is
        looked at. */
    method ProcessCommandBuffer(words: seq<int>, id: nat)
      requires Valid()
      modifies this, pending
      ensures Valid() && View() == Do(commands, old(View()), Receive(words, id))
    {
      if |words| < 2 { return; }
      var request, token := words[0], words[1];
      if request < 1 || request !in commands {
        sent := sent + [Packet(conn, None, [RESPONSE_SOLICITED, token, RIL_E_GENERIC_FAILURE])];
        return;
      }
      Take(Request(id, token, false, false));
    }

    method IssueLocalRequest(id: nat)
      requires Valid()
      modifies this, pending
      ensures Valid() && View() == Do(commands, old(View()), IssueLocal(id))
    {
      Take(Request(id, 0xffffffff, true, false));
    }

    /** RIL_onRequestComplete. */
    method OnRequestComplete(id: nat, error: int, response: Option<Payload>)
      requires Valid()
      modifies this, pending, pending.nodes`next
      ensures Valid() && View() == Do(commands, old(View()), Complete(id, error, response))
    {
      var node := pending.Unlink(SameId(id));
      if node == null { return; }
      var r := node.item;
      done := done[id := conn];
      if !r.local && !r.cancelled {
        var err := error;
        var words := [];
        if response.Some? {
          words := response.value.words;
          if response.value.ret != 0 { err := response.value.ret; }
        }
        assert [RESPONSE_SOLICITED, r.token, err] + words == Answer(r.token, error, response);
        sent := sent + [Packet(conn, Some(id), [RESPONSE_SOLICITED, r.token, err] + words)];
      }
    }

    /** onCommandsSocketClosed. */
    method OnCommandsSocketClosed()
      requires Valid()
      modifies this, pending, pending.nodes`item
      ensures Valid() && View() == Do(commands, old(View()), Close)
    {
      pending.Update(Cancel);
      conn := conn + 1;
    }
  }
}
