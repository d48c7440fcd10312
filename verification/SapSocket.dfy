/**
 SIM access requests on their way through the SAP socket: decoded headers and the nodes
 that carry them, from the dispatch queue through the request loop to the queue of pending
 responses, and who frees what.
 */
module SapSocket {
  import opened SocketQueue

  /** MsgHeader.  `serial` stands for its address. */
  datatype Header = Header(serial: nat, id: int, token: int)

  /** SapSocketRequest, likewise. */
  datatype Request = Request(serial: nat, hdr: Header)

  /** The request loop between dequeue and free(req): what it took, and whether the header
      has been passed on. */
  datatype Transit = Idle | Carrying(req: Request, passed: bool)

  /** The two queues and the loop; everything ever allocated; everything freed, as often as
      it was freed. */
  datatype State = State(dispatch: seq<Request>, transit: Transit, pending: seq<Request>,
                         headers: set<nat>, nodes: set<nat>, freedHeaders: multiset<nat>, freedNodes: multiset<nat>)

  datatype Step =
    | Push(hdr: Header, node: nat, headerOk: bool, decodeOk: bool, nodeOk: bool)
    | Fetch
    | Dispatch(node: nat, nodeOk: bool)
    | Release
    | Complete(req: Request)

  predicate Start(s: State) {
    s.dispatch == [] && s.transit.Idle? && s.pending == [] && s.headers == {} && s.nodes == {} &&
    s.freedHeaders == multiset{} && s.freedNodes == multiset{}
  }

  predicate SameKey(a: Header, b: Header) { a.id == b.id && a.token == b.token }

  function KeyOf(h: Header): Request -> bool { (r: Request) => r.hdr.token == h.token && r.hdr.id == h.id }

  /** What the program does: allocation gives new addresses, and the loop handles one request
      at a time.  The vendor library may complete anything it was ever given. */
  ghost predicate Legal(s: State, step: Step) {
    match step
    case Push(hdr, node, headerOk, decodeOk, nodeOk) => hdr.serial !in s.headers && node !in s.nodes
    case Fetch => s.transit.Idle? && s.dispatch != []
    case Dispatch(node, nodeOk) => s.transit.Carrying? && !s.transit.passed && node !in s.nodes
    case Release => s.transit.Carrying? && s.transit.passed
    case Complete(req) => true
  }

  ghost function Do(s: State, step: Step): State
    requires Legal(s, step)
  {
    match step
    case Push(hdr, node, headerOk, decodeOk, nodeOk) =>
      if !headerOk then s
      else if !decodeOk || !nodeOk then
        s.(headers := s.headers + {hdr.serial}, freedHeaders := s.freedHeaders + multiset{hdr.serial})
      else
        s.(headers := s.headers + {hdr.serial}, nodes := s.nodes + {node}, dispatch := [Request(node, hdr)] + s.dispatch)
    case Fetch => s.(dispatch := s.dispatch[1..], transit := Carrying(s.dispatch[0], false))
    case Dispatch(node, nodeOk) =>
      var hdr := s.transit.req.hdr;
      var t := s.(transit := s.transit.(passed := true));
      if !nodeOk then t.(freedHeaders := s.freedHeaders + multiset{hdr.serial})
      else t.(nodes := s.nodes + {node}, pending := [Request(node, hdr)] + s.pending)
    case Release => s.(transit := Idle, freedNodes := s.freedNodes + multiset{s.transit.req.serial})
    case Complete(req) =>
      var k := FirstMatch(s.pending, KeyOf(req.hdr), 0);
      var t := s.(freedHeaders := s.freedHeaders + multiset{req.hdr.serial});
      if k == |s.pending| then t
      else t.(pending := Without(s.pending, k), freedNodes := s.freedNodes + multiset{s.pending[k].serial})
  }

  ghost predicate LegalRun(s: State, steps: seq<Step>)
    decreases |steps|, 0
  {
    steps == [] || (LegalRun(s, steps[..|steps| - 1]) && Legal(Run(s, steps[..|steps| - 1]), steps[|steps| - 1]))
  }

  ghost function Run(s: State, steps: seq<Step>): State
    requires LegalRun(s, steps)
    decreases |steps|, 1
  {
    if steps == [] then s else Do(Run(s, steps[..|steps| - 1]), steps[|steps| - 1])
  }

  // ---------- where everything is ----------

  ghost function HeaderSeq(q: seq<Request>): seq<nat> { seq(|q|, i requires 0 <= i < |q| => q[i].hdr.serial) }

  ghost function NodeSeq(q: seq<Request>): seq<nat> { seq(|q|, i requires 0 <= i < |q| => q[i].serial) }

  ghost function HeadersIn(q: seq<Request>): multiset<nat> { multiset(HeaderSeq(q)) }

  ghost function NodesIn(q: seq<Request>): multiset<nat> { multiset(NodeSeq(q)) }

  ghost function HeaderCarried(t: Transit): multiset<nat> {
    if t.Carrying? && !t.passed then multiset{t.req.hdr.serial} else multiset{}
  }

  ghost function NodeCarried(t: Transit): multiset<nat> {
    if t.Carrying? then multiset{t.req.serial} else multiset{}
  }

  /** In how many places a header is: the queues, the loop, and as often as it was freed. */
  ghost function HeaderPlaces(s: State, x: nat): nat {
    HeadersIn(s.dispatch)[x] + HeaderCarried(s.transit)[x] + HeadersIn(s.pending)[x] + s.freedHeaders[x]
  }

  ghost function NodePlaces(s: State, x: nat): nat {
    NodesIn(s.dispatch)[x] + NodeCarried(s.transit)[x] + NodesIn(s.pending)[x] + s.freedNodes[x]
  }

  /** Each header and each node that was ever allocated is in exactly one place. */
  ghost predicate Conserved(s: State) {
    (forall x: nat :: HeaderPlaces(s, x) == if x in s.headers then 1 else 0) &&
    (forall x: nat :: NodePlaces(s, x) == if x in s.nodes then 1 else 0)
  }

  lemma WithoutOne(q: seq<Request>, k: nat)
    requires k < |q|
    ensures HeadersIn(q) == HeadersIn(Without(q, k)) + multiset{q[k].hdr.serial}
    ensures NodesIn(q) == NodesIn(Without(q, k)) + multiset{q[k].serial}
  {
    assert HeaderSeq(Without(q, k)) == Without(HeaderSeq(q), k);
    WithoutIsSplice(HeaderSeq(q), k);
    assert NodeSeq(Without(q, k)) == Without(NodeSeq(q), k);
    WithoutIsSplice(NodeSeq(q), k);
  }

  lemma WithFirst(q: seq<Request>, r: Request)
    ensures HeadersIn([r] + q) == multiset{r.hdr.serial} + HeadersIn(q)
    ensures NodesIn([r] + q) == multiset{r.serial} + NodesIn(q)
  {
    assert HeaderSeq([r] + q) == [r.hdr.serial] + HeaderSeq(q);
    assert NodeSeq([r] + q) == [r.serial] + NodeSeq(q);
  }

  /** No two pending requests have the same message id and token. */
  ghost predicate DistinctKeys(q: seq<Request>) {
    forall i, j :: 0 <= i < j < |q| ==> !SameKey(q[i].hdr, q[j].hdr)
  }

  /** The place a completion unlinks: its own exactly if no request in front of it has its
      key. */
  lemma {:induction false} OwnPlace(q: seq<Request>, k: nat, i: nat)
    requires i <= k < |q|
    ensures FirstMatch(q, KeyOf(q[k].hdr), i) == k <==>
            forall j :: i <= j < k ==> q[j].hdr.id != q[k].hdr.id || q[j].hdr.token != q[k].hdr.token
    decreases |q| - i
  {
    if i < k {
      if SameKey(q[i].hdr, q[k].hdr) {
        assert FirstMatch(q, KeyOf(q[k].hdr), i) == i;
      } else {
        OwnPlace(q, k, i + 1);
      }
    }
  }

  /** What the steps of the run must respect: a header is passed on only while no pending one
      has its key, and only pending requests are completed. */
  ghost predicate Respects(s: State, step: Step) {
    (step.Dispatch? && step.nodeOk && s.transit.Carrying? ==>
      forall i :: 0 <= i < |s.pending| ==> !SameKey(s.pending[i].hdr, s.transit.req.hdr)) &&
    (step.Complete? ==> step.req in s.pending)
  }

  ghost predicate RespectsRun(s: State, steps: seq<Step>)
    requires LegalRun(s, steps)
  {
    steps == [] ||
    (RespectsRun(s, steps[..|steps| - 1]) && Respects(Run(s, steps[..|steps| - 1]), steps[|steps| - 1]))
  }

  // ---------- every step but a completion, whatever the keys ----------

  lemma PushKeeps(s: State, step: Step)
    requires Conserved(s) && Legal(s, step) && step.Push?
    ensures Conserved(Do(s, step))
  {
    var t := Do(s, step);
    if step.headerOk {
      if step.decodeOk && step.nodeOk {
        QueuedKeeps(s, Request(step.node, step.hdr), t);
      } else {
        forall x: nat ensures HeaderPlaces(t, x) == if x in t.headers then 1 else 0 { assert HeaderPlaces(s, x) <= 1; }
        forall x: nat ensures NodePlaces(t, x) == NodePlaces(s, x) { }
      }
    }
  }

  lemma QueuedKeeps(s: State, r: Request, t: State)
    requires Conserved(s) && r.hdr.serial !in s.headers && r.serial !in s.nodes
    requires t == s.(headers := s.headers + {r.hdr.serial}, nodes := s.nodes + {r.serial}, dispatch := [r] + s.dispatch)
    ensures Conserved(t)
  {
    WithFirst(s.dispatch, r);
    forall x: nat ensures HeaderPlaces(t, x) == if x in t.headers then 1 else 0 { assert HeaderPlaces(s, x) <= 1; }
    forall x: nat ensures NodePlaces(t, x) == if x in t.nodes then 1 else 0 { assert NodePlaces(s, x) <= 1; }
  }

  lemma FetchKeeps(s: State)
    requires Conserved(s) && Legal(s, Fetch)
    ensures Conserved(Do(s, Fetch))
  {
    var t := Do(s, Fetch);
    WithFirst(s.dispatch[1..], s.dispatch[0]);
    assert s.dispatch == [s.dispatch[0]] + s.dispatch[1..];
    forall x: nat ensures HeaderPlaces(t, x) == HeaderPlaces(s, x) && NodePlaces(t, x) == NodePlaces(s, x) { }
  }

  lemma DispatchKeeps(s: State, step: Step)
    requires Conserved(s) && Legal(s, step) && step.Dispatch?
    ensures Conserved(Do(s, step))
  {
    var t := Do(s, step);
    if step.nodeOk {
      PassedKeeps(s, step.node, t);
    } else {
      forall x: nat ensures HeaderPlaces(t, x) == HeaderPlaces(s, x) && NodePlaces(t, x) == NodePlaces(s, x) { }
    }
  }

  lemma PassedKeeps(s: State, node: nat, t: State)
    requires Conserved(s) && s.transit.Carrying? && !s.transit.passed && node !in s.nodes
    requires t == s.(transit := s.transit.(passed := true), nodes := s.nodes + {node},
                     pending := [Request(node, s.transit.req.hdr)] + s.pending)
    ensures Conserved(t)
  {
    WithFirst(s.pending, Request(node, s.transit.req.hdr));
    forall x: nat ensures HeaderPlaces(t, x) == HeaderPlaces(s, x) { }
    forall x: nat ensures NodePlaces(t, x) == if x in t.nodes then 1 else 0 { assert NodePlaces(s, x) <= 1; }
  }

  lemma ReleaseKeeps(s: State)
    requires Conserved(s) && Legal(s, Release)
    ensures Conserved(Do(s, Release))
  {
    var t := Do(s, Release);
    forall x: nat ensures HeaderPlaces(t, x) == HeaderPlaces(s, x) && NodePlaces(t, x) == NodePlaces(s, x) { }
  }

  lemma OtherStepsKeep(s: State, step: Step)
    requires Conserved(s) && Legal(s, step) && !step.Complete?
    ensures Conserved(Do(s, step))
  {
    match step {
      case Push(_, _, _, _, _) => PushKeeps(s, step);
      case Fetch => FetchKeeps(s);
      case Dispatch(_, _) => DispatchKeeps(s, step);
      case Release => ReleaseKeeps(s);
    }
  }

  // ---------- completions ----------

  /** A completion that finds its own place moves its header and its node to the freed ones. */
  lemma OwnCompletion(s: State, k: nat)
    requires Conserved(s) && k < |s.pending| && FirstMatch(s.pending, KeyOf(s.pending[k].hdr), 0) == k
    ensures Conserved(Do(s, Complete(s.pending[k])))
  {
    var t := Do(s, Complete(s.pending[k]));
    WithoutOne(s.pending, k);
    forall x: nat ensures HeaderPlaces(t, x) == HeaderPlaces(s, x) && NodePlaces(t, x) == NodePlaces(s, x) { }
  }

  /** One that finds another leaves its own node pending, with a header that is freed. */
  lemma ForeignCompletion(s: State, k: nat, m: nat)
    requires Conserved(s) && m < k < |s.pending| && FirstMatch(s.pending, KeyOf(s.pending[k].hdr), 0) == m
    ensures !Conserved(Do(s, Complete(s.pending[k])))
  {
    var t := Do(s, Complete(s.pending[k]));
    WithoutOne(s.pending, m);
    OncePending(s, m, k);
    var x := s.pending[k].hdr.serial;
    assert HeaderPlaces(t, x) == HeaderPlaces(s, x) + 1;
    assert HeaderSeq(s.pending)[k] == x;
    assert HeaderPlaces(s, x) >= 1;
  }

  /** A completion unlinks the first pending request with its key and frees that node, but
      its own header: all is well exactly if no request in front of its own has the key. */
  lemma CompleteKeepsIff(s: State, k: nat)
    requires Conserved(s) && k < |s.pending|
    ensures Conserved(Do(s, Complete(s.pending[k]))) <==>
            forall j :: 0 <= j < k ==>
              s.pending[j].hdr.id != s.pending[k].hdr.id || s.pending[j].hdr.token != s.pending[k].hdr.token
  {
    OwnPlace(s.pending, k, 0);
    var m := FirstMatch(s.pending, KeyOf(s.pending[k].hdr), 0);
    if m == k {
      OwnCompletion(s, k);
    } else {
      NotBeyond(s.pending, k, 0);
      ForeignCompletion(s, k, m);
    }
  }

  /** Completing a request that is not pending any more frees its header a second time,
      whether or not the queue finds its key. */
  lemma StaleCompletion(s: State, req: Request)
    requires Conserved(s) && req.hdr.serial in s.headers
    requires forall i :: 0 <= i < |s.pending| ==> s.pending[i].hdr.serial != req.hdr.serial
    ensures !Conserved(Do(s, Complete(req)))
  {
    var t, x := Do(s, Complete(req)), req.hdr.serial;
    var m := FirstMatch(s.pending, KeyOf(req.hdr), 0);
    if m < |s.pending| { WithoutOne(s.pending, m); }
    assert HeaderPlaces(t, x) == HeaderPlaces(s, x) + 1;
  }

  lemma {:induction false} NotBeyond(q: seq<Request>, k: nat, i: nat)
    requires i <= k < |q|
    ensures FirstMatch(q, KeyOf(q[k].hdr), i) <= k
    decreases |q| - i
  {
    if i < k && !KeyOf(q[k].hdr)(q[i]) { NotBeyond(q, k, i + 1); }
  }

  /** Two pending requests carry different headers. */
  lemma OncePending(s: State, i: nat, j: nat)
    requires Conserved(s) && i < |s.pending| && j < |s.pending| && i != j
    ensures s.pending[i].hdr.serial != s.pending[j].hdr.serial
  {
    var q, x := HeaderSeq(s.pending), s.pending[j].hdr.serial;
    WithoutIsSplice(q, i);
    assert Without(q, i)[if j < i then j else j - 1] == x;
    assert HeaderPlaces(s, x) <= 1;
  }

  // ---------- every run that keeps the keys apart ----------

  lemma DistinctStep(s: State, step: Step)
    requires DistinctKeys(s.pending) && Legal(s, step) && Respects(s, step)
    ensures DistinctKeys(Do(s, step).pending)
  {
    var t := Do(s, step);
    if step.Dispatch? && step.nodeOk {
      forall i, j | 0 <= i < j < |t.pending| ensures !SameKey(t.pending[i].hdr, t.pending[j].hdr) {
        assert t.pending[j] == s.pending[j - 1] && (i > 0 ==> t.pending[i] == s.pending[i - 1]);
      }
    }
  }

  lemma {:induction false} RunConserves(s: State, steps: seq<Step>)
    requires Start(s) && LegalRun(s, steps) && RespectsRun(s, steps)
    ensures Conserved(Run(s, steps)) && DistinctKeys(Run(s, steps).pending)
  {
    if steps != [] {
      var before, step := steps[..|steps| - 1], steps[|steps| - 1];
      RunConserves(s, before);
      var t := Run(s, before);
      DistinctStep(t, step);
      if step.Complete? {
        var k :| 0 <= k < |t.pending| && t.pending[k] == step.req;
        CompleteKeepsIff(t, k);
      } else {
        OtherStepsKeep(t, step);
      }
    } else {
      forall x: nat ensures HeaderPlaces(s, x) == 0 && NodePlaces(s, x) == 0 { }
    }
  }

  /** Nothing is freed twice. */
  lemma FreedOnce(s: State, steps: seq<Step>, x: nat)
    requires Start(s) && LegalRun(s, steps) && RespectsRun(s, steps)
    ensures Run(s, steps).freedHeaders[x] <= 1 && Run(s, steps).freedNodes[x] <= 1
  {
    RunConserves(s, steps);
    assert HeaderPlaces(Run(s, steps), x) <= 1 && NodePlaces(Run(s, steps), x) <= 1;
  }

  predicate MakesHeader(step: Step, x: nat) { step.Push? && step.headerOk && step.hdr.serial == x }

  predicate MakesNode(step: Step, x: nat) {
    (step.Push? && step.headerOk && step.decodeOk && step.nodeOk && step.node == x) ||
    (step.Dispatch? && step.nodeOk && step.node == x)
  }

  ghost predicate HeaderMade(steps: seq<Step>, x: nat) { exists i :: 0 <= i < |steps| && MakesHeader(steps[i], x) }

  ghost predicate NodeMade(steps: seq<Step>, x: nat) { exists i :: 0 <= i < |steps| && MakesNode(steps[i], x) }

  lemma MadeLast(steps: seq<Step>, n: nat, x: nat)
    requires n == |steps| - 1
    ensures HeaderMade(steps, x) <==> HeaderMade(steps[..n], x) || MakesHeader(steps[n], x)
    ensures NodeMade(steps, x) <==> NodeMade(steps[..n], x) || MakesNode(steps[n], x)
  {
    if i :| 0 <= i < n && MakesHeader(steps[..n][i], x) { assert MakesHeader(steps[i], x); }
    if i :| 0 <= i < n && MakesNode(steps[..n][i], x) { assert MakesNode(steps[i], x); }
    if i :| 0 <= i < n && MakesHeader(steps[i], x) { assert MakesHeader(steps[..n][i], x); }
    if i :| 0 <= i < n && MakesNode(steps[i], x) { assert MakesNode(steps[..n][i], x); }
  }

  lemma AllocatedByStep(t: State, step: Step, x: nat)
    requires Legal(t, step)
    ensures x in Do(t, step).headers <==> x in t.headers || MakesHeader(step, x)
    ensures x in Do(t, step).nodes <==> x in t.nodes || MakesNode(step, x)
  {
  }

  /** In every run exactly these were allocated: a header for each record there was memory
      for, and a node for each header queued or passed on. */
  lemma {:induction false} AllocatedIff(s: State, steps: seq<Step>, x: nat)
    requires Start(s) && LegalRun(s, steps)
    ensures x in Run(s, steps).headers <==> HeaderMade(steps, x)
    ensures x in Run(s, steps).nodes <==> NodeMade(steps, x)
  {
    if steps != [] {
      var n := |steps| - 1;
      AllocatedIff(s, steps[..n], x);
      MadeLast(steps, n, x);
      AllocatedByStep(Run(s, steps[..n]), steps[n], x);
    }
  }

  /** The step gives up a header: one whose record cannot be decoded or queued, one that
      cannot be passed on, or that of a request completed. */
  ghost predicate FreesHeader(t: State, step: Step, x: nat) {
    match step
    case Push(hdr, _, headerOk, decodeOk, nodeOk) => headerOk && !(decodeOk && nodeOk) && hdr.serial == x
    case Dispatch(_, nodeOk) => !nodeOk && t.transit.Carrying? && t.transit.req.hdr.serial == x
    case Complete(req) => req.hdr.serial == x
    case _ => false
  }

  /** The step gives up a node: the one the loop is done with, or one of a pending request
      with the key that is completed. */
  ghost predicate FreesNode(t: State, step: Step, x: nat) {
    match step
    case Release => t.transit.Carrying? && t.transit.req.serial == x
    case Complete(req) =>
      exists k :: 0 <= k < |t.pending| && t.pending[k].serial == x &&
                  t.pending[k].hdr.id == req.hdr.id && t.pending[k].hdr.token == req.hdr.token
    case _ => false
  }

  lemma FreedByStep(t: State, step: Step, x: nat)
    requires Legal(t, step)
    ensures x in Do(t, step).freedHeaders ==> x in t.freedHeaders || FreesHeader(t, step, x)
    ensures x in Do(t, step).freedNodes ==> x in t.freedNodes || FreesNode(t, step, x)
  {
  }

  /** In every run whatever was freed was given up by some step, for one of these reasons and
      no other; everything else that was allocated is still in a queue or in the loop. */
  lemma {:induction false} FreedForReason(s: State, steps: seq<Step>, x: nat)
    requires Start(s) && LegalRun(s, steps)
    ensures x in Run(s, steps).freedHeaders ==>
              exists i :: 0 <= i < |steps| && LegalRun(s, steps[..i]) && FreesHeader(Run(s, steps[..i]), steps[i], x)
    ensures x in Run(s, steps).freedNodes ==>
              exists i :: 0 <= i < |steps| && LegalRun(s, steps[..i]) && FreesNode(Run(s, steps[..i]), steps[i], x)
  {
    if steps != [] {
      var n := |steps| - 1;
      var before := steps[..n];
      FreedForReason(s, before, x);
      FreedByStep(Run(s, before), steps[n], x);
      assert forall i :: 0 <= i < n ==> before[..i] == steps[..i] && before[i] == steps[i];
    }
  }

  /** A completion takes its own request off the queue and frees its node and its header. */
  lemma CompletionFreesOwn(s: State, steps: seq<Step>, k: nat)
    requires Start(s) && LegalRun(s, steps) && RespectsRun(s, steps) && k < |Run(s, steps).pending|
    ensures var t := Run(s, steps);
            var u := Do(t, Complete(t.pending[k]));
            u.pending == Without(t.pending, k) && u.freedNodes == t.freedNodes + multiset{t.pending[k].serial} &&
            u.freedHeaders == t.freedHeaders + multiset{t.pending[k].hdr.serial}
  {
    RunConserves(s, steps);
    OwnFreed(Run(s, steps), k);
  }

  lemma OwnFreed(t: State, k: nat)
    requires DistinctKeys(t.pending) && k < |t.pending|
    ensures var u := Do(t, Complete(t.pending[k]));
            u.pending == Without(t.pending, k) && u.freedNodes == t.freedNodes + multiset{t.pending[k].serial} &&
            u.freedHeaders == t.freedHeaders + multiset{t.pending[k].hdr.serial}
  {
    OwnPlace(t.pending, k, 0);
  }

  // ---------- a run that does not ----------

  lemma Extend(s: State, steps: seq<Step>, step: Step)
    requires LegalRun(s, steps) && Legal(Run(s, steps), step)
    ensures LegalRun(s, steps + [step]) && Run(s, steps + [step]) == Do(Run(s, steps), step)
  {
    assert (steps + [step])[..|steps|] == steps;
  }

  /** One request all the way from the socket to the pending queue. */
  lemma Handled(s: State, steps: seq<Step>, hdr: Header, a: nat, b: nat) returns (steps': seq<Step>)
    requires LegalRun(s, steps) && a != b
    requires var t := Run(s, steps);
             t.transit.Idle? && t.dispatch == [] && hdr.serial !in t.headers && a !in t.nodes && b !in t.nodes
    ensures LegalRun(s, steps')
    ensures var t, u := Run(s, steps), Run(s, steps');
            u.transit.Idle? && u.dispatch == [] && u.pending == [Request(b, hdr)] + t.pending &&
            u.headers == t.headers + {hdr.serial} && u.nodes == t.nodes + {a, b}
  {
    var one, three := Push(hdr, a, true, true, true), Dispatch(b, true);
    Extend(s, steps, one);
    Extend(s, steps + [one], Fetch);
    Extend(s, steps + [one] + [Fetch], three);
    Extend(s, steps + [one] + [Fetch] + [three], Release);
    steps' := steps + [one] + [Fetch] + [three] + [Release];
  }

  /** Two requests with one key, and the first to arrive is completed: its header is freed,
      but the other one's node goes, and its own stays pending. */
  lemma SharedKeyGoesWrong(s: State) returns (steps: seq<Step>)
    requires Start(s)
    ensures LegalRun(s, steps) && Run(s, steps).pending == [Request(3, Header(1, 5, 7)), Request(1, Header(0, 5, 7))]
    ensures var older := Request(1, Header(0, 5, 7));
            Legal(Run(s, steps), Complete(older)) &&
            Do(Run(s, steps), Complete(older)).pending == [older] &&
            older.hdr.serial in Do(Run(s, steps), Complete(older)).freedHeaders
  {
    steps := Handled(s, [], Header(0, 5, 7), 0, 1);
    steps := Handled(s, steps, Header(1, 5, 7), 2, 3);
    var t, older := Run(s, steps), Request(1, Header(0, 5, 7));
    assert t.pending[1] == older;
    assert FirstMatch(t.pending, KeyOf(older.hdr), 0) == 0;
  }

  // ---------- the code ----------

  class RilSapSocket {
    const dispatchQueue: Queue<Request>
    const pendingResponseQueue: Queue<Request>
    var req: Node?<Request>
    var passed: bool
    ghost var headers: set<nat>
    ghost var nodes: set<nat>
    ghost var freedHeaders: multiset<nat>
    ghost var freedNodes: multiset<nat>

    constructor ()
      ensures Valid() && Start(View()) && fresh(dispatchQueue) && fresh(pendingResponseQueue)
    {
      dispatchQueue := new Queue<Request>();
      pendingResponseQueue := new Queue<Request>();
      req, passed := null, false;
      headers, nodes, freedHeaders, freedNodes := {}, {}, multiset{}, multiset{};
    }

    ghost predicate Valid()
      reads this, dispatchQueue, pendingResponseQueue, dispatchQueue.nodes, pendingResponseQueue.nodes
    {
      dispatchQueue != pendingResponseQueue && dispatchQueue.Valid() && pendingResponseQueue.Valid() &&
      forall n :: n in dispatchQueue.nodes ==> n !in pendingResponseQueue.nodes
    }

    ghost function View(): State
      reads this, dispatchQueue, pendingResponseQueue, req
    {
      State(dispatchQueue.items, if req == null then Idle else Carrying(req.item, passed), pendingResponseQueue.items,
            headers, nodes, freedHeaders, freedNodes)
    }

    /** pushRecord. */
    method PushRecord(hdr: Header, node: nat, headerOk: bool, decodeOk: bool, nodeOk: bool)
      requires Valid() && Legal(View(), Push(hdr, node, headerOk, decodeOk, nodeOk))
      modifies this, dispatchQueue
      ensures Valid() && View() == Do(old(View()), Push(hdr, node, headerOk, decodeOk, nodeOk))
    {
      if !headerOk { return; }
      headers := headers + {hdr.serial};
      if !decodeOk {
        freedHeaders := freedHeaders + multiset{hdr.serial};
      } else {
        if !nodeOk {
          freedHeaders := freedHeaders + multiset{hdr.serial};
          return;
        }
        var recv := new Node(Request(node, hdr));
        nodes := nodes + {node};
        dispatchQueue.Enqueue(recv);
      }
    }

    /** processRequestsLoop: the next request. */
    method FetchRequest()
      requires Valid() && Legal(View(), Fetch)
      modifies this, dispatchQueue
      ensures Valid() && View() == Do(old(View()), Fetch)
    {
      req := dispatchQueue.Dequeue();
      passed := false;
    }

    /** dispatchRequest(req->curr), up to the vendor library's onRequest. */
    method DispatchRequest(node: nat, nodeOk: bool)
      requires Valid() && Legal(View(), Dispatch(node, nodeOk))
      modifies this, pendingResponseQueue
      ensures Valid() && View() == Do(old(View()), Dispatch(node, nodeOk))
    {
      var hdr := req.item.hdr;
      passed := true;
      if !nodeOk {
        freedHeaders := freedHeaders + multiset{hdr.serial};
        return;
      }
      var currRequest := new Node(Request(node, hdr));
      nodes := nodes + {node};
      pendingResponseQueue.Enqueue(currRequest);
    }

    /** processRequestsLoop: free(req). */
    method ReleaseRequest()
      requires Valid() && Legal(View(), Release)
      modifies this
      ensures Valid() && View() == Do(old(View()), Release)
    {
      freedNodes := freedNodes + multiset{req.item.serial};
      req := null;
    }

    /** checkAndDequeue on the pending queue, which frees the node it finds. */
    method CheckAndDequeue(hdr: Header)
      requires Valid()
      modifies this`freedNodes, pendingResponseQueue, pendingResponseQueue.nodes`next
      ensures Valid()
      ensures var items := old(pendingResponseQueue.items);
              var k := FirstMatch(items, KeyOf(hdr), 0);
              pendingResponseQueue.items == (if k == |items| then items else Without(items, k)) &&
              freedNodes == if k == |items| then old(freedNodes) else old(freedNodes) + multiset{items[k].serial}
    {
      var victim := pendingResponseQueue.Unlink(KeyOf(hdr));
      assert forall n :: n in dispatchQueue.nodes ==> n.next == old(n.next) && n.item == old(n.item);
      if victim != null { freedNodes := freedNodes + multiset{victim.item.serial}; }
    }

    /** onRequestComplete. */
    method OnRequestComplete(request: Request)
      requires Valid()
      modifies this, pendingResponseQueue, pendingResponseQueue.nodes`next
      ensures Valid() && View() == Do(old(View()), Complete(request))
    {
      CheckAndDequeue(request.hdr);
      freedHeaders := freedHeaders + multiset{request.hdr.serial};
    }
  }
}
