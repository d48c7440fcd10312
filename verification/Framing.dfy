/**
 The command socket's wire format: length-prefixed packets, written piecewise by senders
 that take turns holding the write mutex.
 */
module Framing {
  import opened Basics

  const MAX_COMMAND_BYTES: nat := 8 * 1024

  // ---------- frames ----------

  /** htonl. */
  function BigEndian(n: nat): (b: seq<byte>)
    requires n < 0x1_0000_0000
    ensures |b| == 4
  {
    [n / 0x100_0000, n / 0x1_0000 % 256, n / 256 % 256, n % 256]
  }

  function FromBigEndian(b: seq<byte>): nat
    requires |b| == 4
  {
    ((b[0] as int * 256 + b[1]) * 256 + b[2]) * 256 + b[3]
  }

  lemma BigEndianBack(n: nat)
    requires n < 0x1_0000_0000
    ensures FromBigEndian(BigEndian(n)) == n
    ensures var b := BigEndian(n); n == b[0] as int * 0x100_0000 + b[1] as int * 0x1_0000 + b[2] as int * 0x100 + b[3]
  {
    var a, b := n / 256, n / 0x1_0000;
    assert n == a * 256 + n % 256;
    assert a / 256 == b && a == b * 256 + a % 256;
    assert b / 256 == n / 0x100_0000 && b == b / 256 * 256 + b % 256;
  }

  type payload = s: seq<byte> | |s| <= MAX_COMMAND_BYTES

  function Frame(p: payload): (f: seq<byte>)
    ensures |f| == 4 + |p|
  {
    BigEndian(|p|) + p
  }

  function Frames(ps: seq<payload>): seq<byte> {
    if ps == [] then [] else Frame(ps[0]) + Frames(ps[1..])
  }

  /** What a reader makes of the bytes: whole packets, and what is left over. */
  function Decode(w: seq<byte>): (seq<seq<byte>>, seq<byte>) {
    if |w| < 4 then ([], w)
    else
      var n := FromBigEndian(w[..4]);
      if |w| < 4 + n then ([], w)
      else
        var (ps, rest) := Decode(w[4 + n..]);
        ([w[4..4 + n]] + ps, rest)
  }

  lemma DecodeOne(p: payload, w: seq<byte>)
    ensures var (ps, rest) := Decode(w); Decode(Frame(p) + w) == ([p] + ps, rest)
  {
    var v := Frame(p) + w;
    BigEndianBack(|p|);
    assert v[..4] == BigEndian(|p|) && v[4..4 + |p|] == p && v[4 + |p|..] == w;
  }

  lemma DecodeNext(ps: seq<payload>, w: seq<byte>, rest: seq<byte>, wire: seq<byte>)
    requires ps != [] && Decode(w) == (ps[1..], rest) && wire == Frame(ps[0]) + w
    ensures Decode(wire) == (ps, rest)
  {
    DecodeOne(ps[0], w);
    assert [ps[0]] + ps[1..] == ps;
  }

  /** The beginning of a frame, but not all of it. */
  ghost predicate Partial(p: payload, part: seq<byte>) { |part| < 4 + |p| && part == Frame(p)[..|part|] }

  lemma DecodePartial(p: payload, part: seq<byte>)
    requires Partial(p, part)
    ensures Decode(part) == ([], part)
  {
    BigEndianBack(|p|);
    assert |part| >= 4 ==> part[..4] == BigEndian(|p|);
  }

  lemma FirstFrame(ps: seq<payload>, rest: seq<byte>, w: seq<byte>, wire: seq<byte>)
    requires ps != [] && w == Frames(ps[1..]) + rest && wire == Frames(ps) + rest
    ensures wire == Frame(ps[0]) + w
  {
  }

  /** A reader recovers the packets from their frames, and the unfinished rest. */
  lemma {:induction false} DecodeFrames(ps: seq<payload>, rest: seq<byte>, wire: seq<byte>)
    requires Decode(rest) == ([], rest) && wire == Frames(ps) + rest
    ensures Decode(wire) == (ps, rest)
  {
    if ps == [] {
      assert wire == rest;
    } else {
      var w := Frames(ps[1..]) + rest;
      DecodeFrames(ps[1..], rest, w);
      FirstFrame(ps, rest, w, wire);
      DecodeNext(ps, w, rest, wire);
    }
  }

  lemma {:induction false} FramesSnoc(ps: seq<payload>, p: payload)
    ensures Frames(ps + [p]) == Frames(ps) + Frame(p)
  {
    if ps == [] {
      assert Frames([p]) == Frame(p) + Frames([p][1..]);
    } else {
      FramesSnoc(ps[1..], p);
      assert (ps + [p])[1..] == ps[1..] + [p];
    }
  }

  // ---------- any number of senders ----------

  /** The sender that holds the mutex, its packet, and how much of the frame is written. */
  datatype Holder = Nobody | Holder(who: nat, p: payload, off: nat)

  /** The bytes on the socket; the mutex; the packets whose senders returned success; and
      whether a write has failed for good and closed the socket. */
  datatype Line = Line(wire: seq<byte>, holder: Holder, sent: seq<payload>, broken: bool)

  datatype Step =
    | Begin(who: nat, data: seq<byte>, fd: int)
    | Write(who: nat, n: nat)
    | Again(who: nat)
    | Fail(who: nat)
    | End(who: nat)

  predicate Start(s: Line) { s.wire == [] && s.holder.Nobody? && s.sent == [] && !s.broken }

  /** Sent back at once, without the mutex. */
  predicate Refused(data: seq<byte>, fd: int) { fd < 0 || |data| > MAX_COMMAND_BYTES }

  predicate Holds(s: Line, who: nat) {
    s.holder.Holder? && s.holder.who == who && s.holder.off <= 4 + |s.holder.p|
  }

  /** Where the current call of blockingWrite ends: header first, then data. */
  function Limit(h: Holder): nat
    requires h.Holder?
  {
    if h.off < 4 then 4 else 4 + |h.p|
  }

  /** What the senders may do: the mutex goes to one at a time, only its holder writes, a
      write takes at most what it was offered, and none succeeds on a closed socket. */
  predicate Legal(s: Line, step: Step) {
    match step
    case Begin(_, data, fd) => Refused(data, fd) || s.holder.Nobody?
    case Write(who, n) => Holds(s, who) && !s.broken && s.holder.off + n <= Limit(s.holder)
    case Again(who) => Holds(s, who)
    case Fail(who) => Holds(s, who) && s.holder.off < 4 + |s.holder.p|
    case End(who) => Holds(s, who) && s.holder.off == 4 + |s.holder.p|
  }

  function Do(s: Line, step: Step): Line
    requires Legal(s, step)
  {
    match step
    case Begin(who, data, fd) => if Refused(data, fd) then s else s.(holder := Holder(who, data, 0))
    case Write(who, n) =>
      var h := s.holder;
      s.(wire := s.wire + Frame(h.p)[h.off..h.off + n], holder := h.(off := h.off + n))
    case Again(who) => s
    case Fail(who) => s.(holder := Nobody, broken := true)
    case End(who) => s.(holder := Nobody, sent := s.sent + [s.holder.p])
  }

  predicate LegalRun(s: Line, steps: seq<Step>)
    decreases |steps|, 0
  {
    steps == [] || (LegalRun(s, steps[..|steps| - 1]) && Legal(Run(s, steps[..|steps| - 1]), steps[|steps| - 1]))
  }

  function Run(s: Line, steps: seq<Step>): Line
    requires LegalRun(s, steps)
    decreases |steps|, 1
  {
    if steps == [] then s else Do(Run(s, steps[..|steps| - 1]), steps[|steps| - 1])
  }

  /** The bytes after the last frame that was sent. */
  ghost predicate TailOk(s: Line, tail: seq<byte>) {
    s.wire == Frames(s.sent) + tail &&
    if s.broken then (s.holder.Holder? ==> s.holder.off == 0) && exists p :: Partial(p, tail)
    else if s.holder.Holder? then s.holder.off <= 4 + |s.holder.p| && tail == Frame(s.holder.p)[..s.holder.off]
    else tail == []
  }

  lemma StepKeepsTail(s: Line, tail: seq<byte>, step: Step) returns (tail': seq<byte>)
    requires TailOk(s, tail) && Legal(s, step)
    ensures TailOk(Do(s, step), tail')
  {
    tail' := tail;
    match step {
      case Begin(who, data, fd) =>
      case Write(who, n) =>
        var h := s.holder;
        tail' := Frame(h.p)[..h.off + n];
        Joined(Frames(s.sent), Frame(h.p), h.off, n);
      case Again(who) =>
      case Fail(who) =>
        if !s.broken { assert Partial(s.holder.p, tail); }
      case End(who) =>
        tail' := [];
        FramesSnoc(s.sent, s.holder.p);
    }
  }

  lemma {:induction false} RunKeepsTail(s: Line, steps: seq<Step>) returns (tail: seq<byte>)
    requires Start(s) && LegalRun(s, steps)
    ensures TailOk(Run(s, steps), tail)
  {
    if steps == [] {
      tail := [];
    } else {
      tail := RunKeepsTail(s, steps[..|steps| - 1]);
      tail := StepKeepsTail(Run(s, steps[..|steps| - 1]), tail, steps[|steps| - 1]);
    }
  }

  /** The packets whose frames are complete: those sent, and the holder's own if all of it is
      on the wire. */
  function Whole(s: Line): seq<payload> {
    s.sent + if s.holder.Holder? && s.holder.off == 4 + |s.holder.p| then [s.holder.p] else []
  }

  /** In every run, however the writes are cut up and the senders take turns, a reader of the
      socket gets exactly the packets sent, in order, and then at most the beginning of one
      frame. */
  lemma ReaderGetsPackets(s: Line, steps: seq<Step>)
    requires Start(s) && LegalRun(s, steps)
    ensures var t := Run(s, steps);
            Decode(t.wire).0 == Whole(t) && (Decode(t.wire).1 == [] || exists p :: Partial(p, Decode(t.wire).1))
  {
    var t := Run(s, steps);
    var tail := RunKeepsTail(s, steps);
    if !t.broken && t.holder.Holder? && t.holder.off == 4 + |t.holder.p| {
      FramesSnoc(t.sent, t.holder.p);
      assert t.wire == Frames(Whole(t)) + [];
      DecodeFrames(Whole(t), [], t.wire);
    } else {
      if p :| Partial(p, tail) {
        DecodePartial(p, tail);
      } else if t.holder.Holder? && !t.broken {
        assert Partial(t.holder.p, tail);
      }
      DecodeFrames(t.sent, tail, t.wire);
    }
  }

  // ---------- the code of one sender ----------

  /** What one call of write returns. */
  datatype Written = Wrote(n: nat) | Retry | Failed

  datatype Result = Sent | Error | Blocked

  /** How much so many calls of write take if nothing stops them. */
  function Total(calls: seq<Written>): nat {
    if calls == [] then 0
    else Total(calls[..|calls| - 1]) + if calls[|calls| - 1].Wrote? then calls[|calls| - 1].n else 0
  }

  /** It takes exactly the first `used` calls to write n bytes. */
  predicate Takes(calls: seq<Written>, n: nat, used: nat) {
    used <= |calls| && Failed !in calls[..used] && Total(calls[..used]) >= n &&
    (used > 0 ==> Total(calls[..used - 1]) < n)
  }

  /** How a writer of n bytes ends, and after how many calls: all is written; or a call
      failed before that, as all do on a closed socket; or the calls have run out. */
  predicate Ends(calls: seq<Written>, n: nat, closed: bool, r: Result, used: nat) {
    match r
    case Sent => Takes(calls, n, used) && (n == 0 || !closed)
    case Error =>
      0 < used <= |calls| && Failed !in calls[..used - 1] && Total(calls[..used - 1]) < n &&
      (if closed then used == 1 else calls[used - 1].Failed?)
    case Blocked => used == |calls| && Failed !in calls && Total(calls) < n && (closed ==> calls == [])
  }

  /** What a writer that does not get done has written. */
  function Part(calls: seq<Written>, n: nat, closed: bool, r: Result, used: nat): (k: nat)
    requires Ends(calls, n, closed, r, used) && !r.Sent?
    ensures k < n
  {
    Total(if r.Error? then calls[..used - 1] else calls)
  }

  lemma {:induction false} TotalGrows(calls: seq<Written>, i: nat, j: nat)
    requires i <= j <= |calls|
    ensures Total(calls[..i]) <= Total(calls[..j])
    decreases j
  {
    if i < j {
      assert calls[..j][..j - 1] == calls[..j - 1];
      TotalGrows(calls, i, j - 1);
    }
  }

  /** A writer of n bytes after so many calls, none of which failed. */
  predicate Underway(calls: seq<Written>, n: nat, closed: bool, used: nat, offset: nat) {
    used <= |calls| && Failed !in calls[..used] && (closed ==> used == 0) &&
    offset == (if Total(calls[..used]) < n then Total(calls[..used]) else n) &&
    (used > 0 ==> Total(calls[..used - 1]) < n)
  }

  /** How far it is after the next call, if that does not fail. */
  function Further(call: Written, n: nat, offset: nat): nat
    requires offset <= n
  {
    if !call.Wrote? then offset else if call.n <= n - offset then offset + call.n else n
  }

  lemma UnderwayStep(calls: seq<Written>, n: nat, closed: bool, used: nat, offset: nat)
    requires Underway(calls, n, closed, used, offset) && offset < n && used < |calls|
    ensures if closed || calls[used].Failed? then Ends(calls, n, closed, Error, used + 1)
            else Underway(calls, n, closed, used + 1, Further(calls[used], n, offset))
    ensures closed || calls[used].Failed? ==> Part(calls, n, closed, Error, used + 1) == offset
  {
    assert calls[..used + 1][..used] == calls[..used] && calls[..used + 1][used] == calls[used];
    assert calls[..used + 1] == calls[..used] + [calls[used]];
  }

  lemma UnderwayOver(calls: seq<Written>, n: nat, closed: bool, used: nat, offset: nat)
    requires Underway(calls, n, closed, used, offset)
    ensures offset == n ==> Ends(calls, n, closed, Sent, used)
    ensures offset < n && used == |calls| ==>
              Ends(calls, n, closed, Blocked, used) && Part(calls, n, closed, Blocked, used) == offset
  {
    assert calls[..|calls|] == calls;
  }

  /** Only one ending is possible. */
  lemma EndsOnce(calls: seq<Written>, n: nat, closed: bool, r: Result, used: nat, r': Result, used': nat)
    requires Ends(calls, n, closed, r, used) && Ends(calls, n, closed, r', used') && used <= used'
    ensures r == r' && used == used'
  {
    assert calls[..|calls|] == calls;
    TotalGrows(calls, used, used');
    if used < used' { TotalGrows(calls, used, used' - 1); }
    if used > 0 { assert calls[used - 1] in calls[..used]; }
  }

  /** A frame goes out exactly if the calls are enough for its header and then for its data. */
  lemma BothParts(calls: seq<Written>, n: nat, closed: bool, header: Result, used: nat, r: Result, more: nat)
    requires Ends(calls, 4, closed, header, used)
    requires if header.Sent? then Ends(calls[used..], n, closed, r, more) else r == header
    ensures r.Sent? <==> !closed && exists k: nat, l: nat :: Takes(calls, 4, k) && Takes(calls[k..], n, l)
    ensures r.Error? ==> closed || Failed in calls
    ensures r.Blocked? ==> Failed !in calls && (closed ==> calls == [])
  {
    if k: nat, l: nat :| !closed && Takes(calls, 4, k) && Takes(calls[k..], n, l) {
      OneEnding(calls, 4, closed, header, used, Sent, k);
      OneEnding(calls[k..], n, closed, r, more, Sent, l);
    }
    assert used <= |calls| && calls == calls[..used] + calls[used..];
  }

  lemma OneEnding(calls: seq<Written>, n: nat, closed: bool, r: Result, used: nat, r': Result, used': nat)
    requires Ends(calls, n, closed, r, used) && Ends(calls, n, closed, r', used')
    ensures r == r' && used == used'
  {
    if used <= used' {
      EndsOnce(calls, n, closed, r, used, r', used');
    } else {
      EndsOnce(calls, n, closed, r', used', r, used);
    }
  }

  lemma Extend(s: Line, steps: seq<Step>, step: Step)
    requires LegalRun(s, steps) && Legal(Run(s, steps), step)
    ensures LegalRun(s, steps + [step]) && Run(s, steps + [step]) == Do(Run(s, steps), step)
  {
    assert (steps + [step])[..|steps|] == steps;
  }

  /** The sender holds the mutex and is about to write this part of its frame: the header, or
      the packet. */
  ghost predicate AtPart(s: Line, who: nat, data: seq<byte>) {
    Holds(s, who) && Limit(s.holder) == s.holder.off + |data| &&
    data == Frame(s.holder.p)[s.holder.off..s.holder.off + |data|]
  }

  /** So many bytes of the part further. */
  function Advanced(h: Holder, n: nat): Holder
    requires h.Holder?
  {
    h.(off := h.off + n)
  }

  lemma Joined(w: seq<byte>, data: seq<byte>, offset: nat, n: nat)
    requires offset + n <= |data|
    ensures w + data[..offset] + data[offset..offset + n] == w + data[..offset + n]
  {
  }

  lemma FramePart(first: seq<byte>, data: payload, k: nat)
    requires k <= |data|
    ensures first + BigEndian(|data|) + data[..k] == first + Frame(data)[..4 + k]
    ensures data[..|data|] == data && Frame(data)[..4 + |data|] == Frame(data)
  {
  }

  lemma SliceOfSlice(f: seq<byte>, off: nat, n: nat, offset: nat, m: nat)
    requires off + n <= |f| && offset + m <= n
    ensures f[off..off + n][offset..offset + m] == f[off + offset..off + offset + m]
  {
    var g, h := f[off..off + n][offset..offset + m], f[off + offset..off + offset + m];
    forall i | 0 <= i < m ensures g[i] == h[i] { assert g[i] == f[off..off + n][offset + i] == f[off + (offset + i)]; }
  }

  lemma WriteStep(s: Line, t: Line, who: nat, data: seq<byte>, offset: nat, m: nat)
    requires AtPart(s, who, data) && offset + m <= |data| && offset < |data| && !t.broken
    requires t.holder == Advanced(s.holder, offset)
    ensures Legal(t, Write(who, m))
    ensures Do(t, Write(who, m)) ==
            t.(wire := t.wire + data[offset..offset + m], holder := Advanced(s.holder, offset + m))
  {
    SliceOfSlice(Frame(s.holder.p), s.holder.off, |data|, offset, m);
  }

  class Socket {
    const fd: int
    var wire: seq<byte>
    var closed: bool

    constructor (fd: int)
      ensures this.fd == fd && wire == [] && !closed
    {
      this.fd, wire, closed := fd, [], false;
    }

    /** The socket as the machine sees it. */
    ghost predicate Shows(s: Line)
      reads this
    {
      wire == s.wire && closed == s.broken
    }

    /** One call of write, with what it returns: it takes at most what it is offered, and on a
        closed socket it fails. */
    method Write(data: seq<byte>, offset: nat, call: Written, ghost s: Line, ghost t: Line, ghost who: nat)
      returns (written: Written, ghost step: Step)
      requires Shows(t) && AtPart(s, who, data) && offset < |data| && t.holder == Advanced(s.holder, offset)
      modifies this
      ensures Legal(t, step) && Shows(Do(t, step)) && Do(t, step).sent == t.sent
      ensures written.Failed? <==> old(closed) || call.Failed?
      ensures written.Wrote? ==> call.Wrote? && written.n == Further(call, |data|, offset) - offset
      ensures written.Retry? ==> call.Retry?
      ensures written.Wrote? ==>
                offset + written.n <= |data| && wire == old(wire) + data[offset..offset + written.n] &&
                closed == old(closed) && Do(t, step).holder == Advanced(s.holder, offset + written.n)
      ensures !written.Wrote? ==> wire == old(wire)
      ensures written.Retry? ==> Do(t, step) == t
      ensures written.Failed? ==> closed && Do(t, step).holder.Nobody?
    {
      if closed || call.Failed? {
        closed := true;
        return Failed, Fail(who);
      }
      match call {
        case Wrote(n) =>
          var m := if n <= |data| - offset then n else |data| - offset;
          WriteStep(s, t, who, data, offset, m);
          wire := wire + data[offset..offset + m];
          return Wrote(m), Step.Write(who, m);
        case Retry => return Retry, Again(who);
      }
    }

    /** The first `offset` bytes of the data follow what was there before, w, and the steps
        made since `before` are those of the machine. */
    ghost predicate Writing(data: seq<byte>, w: seq<byte>, start: Line, before: seq<Step>, steps: seq<Step>, s: Line,
                            offset: nat)
      reads this
    {
      offset <= |data| && wire == w + data[..offset] && LegalRun(start, steps) && before <= steps &&
      Shows(Run(start, steps)) && Run(start, steps).sent == s.sent && s.holder.Holder? &&
      Run(start, steps).holder == Advanced(s.holder, offset)
    }

    /** One turn of the loop. */
    method WriteOnce(data: seq<byte>, call: Written, offset: nat, ghost w: seq<byte>, ghost start: Line,
                     ghost before: seq<Step>, ghost steps: seq<Step>, ghost s: Line, ghost who: nat)
      returns (written: Written, ghost steps': seq<Step>)
      requires Writing(data, w, start, before, steps, s, offset) && AtPart(s, who, data) && offset < |data|
      modifies this
      ensures written.Failed? <==> old(closed) || call.Failed?
      ensures written.Wrote? ==> call.Wrote? && written.n == Further(call, |data|, offset) - offset
      ensures written.Retry? ==> call.Retry?
      ensures written.Failed? ==>
                LegalRun(start, steps') && before <= steps' && Shows(Run(start, steps')) && wire == w + data[..offset] &&
                Run(start, steps').sent == s.sent && Run(start, steps').holder.Nobody? && closed
      ensures !written.Failed? ==>
                Writing(data, w, start, before, steps', s, Further(call, |data|, offset)) && closed == old(closed)
    {
      ghost var step;
      written, step := Write(data, offset, call, s, Run(start, steps), who);
      Extend(start, steps, step);
      steps' := steps + [step];
      if written.Wrote? { Joined(w, data, offset, written.n); }
    }

    /** blockingWrite.  `calls` is how the calls of write turn out; when they run out the
        writer is still in its loop.  `steps` is what it does as steps of the machine, after
        those done before. */
    method BlockingWrite(data: seq<byte>, calls: seq<Written>, ghost start: Line, ghost before: seq<Step>, ghost who: nat)
      returns (r: Result, used: nat, ghost steps: seq<Step>)
      requires LegalRun(start, before) && Shows(Run(start, before)) && AtPart(Run(start, before), who, data)
      modifies this
      ensures LegalRun(start, steps) && before <= steps && Shows(Run(start, steps))
      ensures Run(start, steps).sent == Run(start, before).sent && Ends(calls, |data|, old(closed), r, used)
      ensures r.Sent? ==>
                wire == old(wire) + data && closed == old(closed) &&
                Run(start, steps).holder == Advanced(Run(start, before).holder, |data|)
      ensures !r.Sent? ==> wire == old(wire) + data[..Part(calls, |data|, old(closed), r, used)]
      ensures r.Error? ==> closed && Run(start, steps).holder.Nobody?
      ensures r.Blocked? ==> closed == old(closed) && Run(start, steps).holder.Holder?
    {
      var offset: nat := 0;
      used, steps := 0, before;
      ghost var s := Run(start, before);
      while offset < |data|
        invariant Writing(data, old(wire), start, before, steps, s, offset) && closed == old(closed)
        invariant Underway(calls, |data|, closed, used, offset)
        decreases |calls| - used
      {
        UnderwayOver(calls, |data|, closed, used, offset);
        if used == |calls| { return Blocked, used, steps; }
        UnderwayStep(calls, |data|, closed, used, offset);
        var written;
        written, steps := WriteOnce(data, calls[used], offset, old(wire), start, before, steps, s, who);
        used := used + 1;
        if written.Wrote? {
          offset := offset + written.n;
        } else if written.Failed? {
          return Error, used, steps;
        }
      }
      UnderwayOver(calls, |data|, closed, used, offset);
      r := Sent;
    }

    method SendHeader(data: payload, calls: seq<Written>, ghost start: Line, ghost before: seq<Step>, ghost who: nat)
      returns (r: Result, used: nat, ghost steps: seq<Step>)
      requires LegalRun(start, before) && Shows(Run(start, before)) && Run(start, before).holder == Holder(who, data, 0)
      modifies this
      ensures LegalRun(start, steps) && before <= steps && Shows(Run(start, steps)) && Ends(calls, 4, old(closed), r, used)
      ensures Run(start, steps).sent == Run(start, before).sent
      ensures r.Sent? ==>
                wire == old(wire) + BigEndian(|data|) && closed == old(closed) && Run(start, steps).holder == Holder(who, data, 4)
      ensures !r.Sent? ==> exists k :: 0 <= k < 4 + |data| && wire == old(wire) + Frame(data)[..k]
      ensures Run(start, steps).holder.Nobody? <==> r.Error?
    {
      var header := BigEndian(|data|);
      assert Frame(data)[0..4] == header;
      r, used, steps := BlockingWrite(header, calls, start, before, who);
      if !r.Sent? {
        ghost var k := Part(calls, 4, old(closed), r, used);
        assert Frame(data)[..k] == header[..k];
      }
    }

    method SendPacket(data: payload, calls: seq<Written>, ghost start: Line, ghost before: seq<Step>, ghost who: nat,
                      ghost first: seq<byte>)
      returns (r: Result, used: nat, ghost steps: seq<Step>)
      requires LegalRun(start, before) && Shows(Run(start, before)) && Run(start, before).holder == Holder(who, data, 4)
      requires wire == first + BigEndian(|data|)
      modifies this
      ensures LegalRun(start, steps) && before <= steps && Shows(Run(start, steps))
      ensures Ends(calls, |data|, old(closed), r, used)
      ensures r.Sent? ==>
                wire == first + Frame(data) && closed == old(closed) &&
                Run(start, steps).sent == Run(start, before).sent + [data]
      ensures !r.Sent? ==>
                Run(start, steps).sent == Run(start, before).sent &&
                exists k :: 0 <= k < 4 + |data| && wire == first + Frame(data)[..k]
      ensures Run(start, steps).holder.Nobody? <==> !r.Blocked?
    {
      assert Frame(data)[4..4 + |data|] == data;
      r, used, steps := BlockingWrite(data, calls, start, before, who);
      if r.Sent? {
        FramePart(first, data, |data|);
        Extend(start, steps, End(who));
        steps := steps + [End(who)];
      } else {
        FramePart(first, data, Part(calls, |data|, old(closed), r, used));
      }
    }

    /** sendResponseRaw by `who`, from the lock of the mutex to its release.  It makes exactly
        the steps `steps` of the machine after those done before. */
    method SendResponseRaw(data: seq<byte>, calls: seq<Written>, ghost start: Line, ghost before: seq<Step>, ghost who: nat)
      returns (r: Result, ghost steps: seq<Step>)
      requires LegalRun(start, before) && Shows(Run(start, before)) && Run(start, before).holder.Nobody?
      modifies this
      ensures LegalRun(start, steps) && before <= steps && Shows(Run(start, steps))
      ensures fd < 0 || |data| > 8192 ==> r.Error? && unchanged(this)
      ensures r.Sent? ==>
                |data| <= MAX_COMMAND_BYTES && wire == old(wire) + Frame(data) && closed == old(closed) &&
                Run(start, steps).sent == Run(start, before).sent + [data]
      ensures r.Sent? <==>
                fd >= 0 && |data| <= 8192 && !old(closed) &&
                exists k: nat, l: nat :: Takes(calls, 4, k) && Takes(calls[k..], |data|, l)
      ensures r.Error? ==> fd < 0 || |data| > 8192 || old(closed) || Failed in calls
      ensures r.Blocked? ==> fd >= 0 && |data| <= 8192 && Failed !in calls && (old(closed) ==> calls == [])
      ensures !r.Sent? ==> Run(start, steps).sent == Run(start, before).sent
      ensures !r.Sent? && !Refused(data, fd) ==> exists k :: 0 <= k < 4 + |data| && wire == old(wire) + Frame(data)[..k]
      ensures Run(start, steps).holder.Nobody? <==> !r.Blocked?
    {
      Extend(start, before, Begin(who, data, fd));
      steps := before + [Begin(who, data, fd)];
      if fd < 0 { return Error, steps; }
      if |data| > MAX_COMMAND_BYTES { return Error, steps; }
      var used;
      r, used, steps := SendHeader(data, calls, start, steps, who);
      ghost var header, more := r, 0;
      if r.Sent? { r, more, steps := SendPacket(data, calls[used..], start, steps, who, old(wire)); }
      BothParts(calls, |data|, old(closed), header, used, r, more);
    }
  }
}
