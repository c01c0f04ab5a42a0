/**
 Two connection objects joined by a network, driven in any order by their own methods. Every call is
 one step of the link of Delivery, so what is proved there about runs holds of the objects.
 */
module Channel {
  import opened Buffers
  import opened Bytes
  import opened Delivery
  import opened Framing
  import opened Protocol
  import opened Sequences
  import opened Sockets
  import opened Transport

  lemma LeadsSnoc(f: Framer<Byte>, s: Link, steps: seq<Step>, t: Link, step: Step)
    requires Lawful(f) && Leads(f, s, steps, t) && Enabled(t, step)
    ensures Leads(f, s, steps + [step], Apply(f, t, step))
    decreases |steps|
  {
    if steps == [] {
      assert [] + [step] == [step] && [step][1..] == [];
    } else {
      ConsAppend(steps, [step]);
      LeadsSnoc(f, Apply(f, s, steps[0]), steps[1..], t, step);
    }
  }

  lemma {:induction false} RequestedSnoc(steps: seq<Step>, step: Step)
    ensures Requested(steps + [step]) == Requested(steps) + Added(step)
  {
    if steps == [] {
      EmptyUnit(Added(step));
      assert [] + [step] == [step] && [step][1..] == [];
    } else {
      ConsAppend(steps, [step]);
      RequestedSnoc(steps[1..], step);
      AppendAssoc(Added(steps[0]), Requested(steps[1..]), Added(step));
    }
  }

  /** The bytes of the network that arrive in chunks of these sizes, and how the reads end. */
  function Arrivals(network: seq<Byte>, sizes: seq<nat>, ending: ReadEvent): (events: seq<ReadEvent>)
    requires !ending.Chunk?
    ensures RealChunks(events) && Lead(events) <= network && ReadEnding(events) == ending
    decreases |sizes|
  {
    if sizes == [] || sizes[0] == 0 || sizes[0] > |network| then [ending]
    else
      var later := Arrivals(network[sizes[0]..], sizes[1..], ending);
      [Chunk(network[..sizes[0]])] + later
  }

  function Total(sizes: seq<nat>): nat {
    if sizes == [] then 0 else sizes[0] + Total(sizes[1..])
  }

  /** Data in pieces of these sizes, and then the ending. */
  predicate InPieces(events: seq<ReadEvent>, sizes: seq<nat>, ending: ReadEvent) {
    if sizes == [] then events == [ending]
    else
      && events != [] && events[0].Chunk? && |events[0].bytes| == sizes[0]
      && InPieces(events[1..], sizes[1..], ending)
  }

  lemma TakeInTwo<T>(s: seq<T>, n: nat, k: nat, both: nat)
    requires both == n + k <= |s|
    ensures s[..both] == s[..n] + s[n..][..k]
  {
  }

  /** The bytes come in exactly these pieces, in order, and then the ending is reported. */
  lemma {:induction false} ArrivalsAre(network: seq<Byte>, sizes: seq<nat>, ending: ReadEvent, total: nat)
    requires !ending.Chunk? && (forall size <- sizes :: size > 0) && total == Total(sizes) <= |network|
    ensures Lead(Arrivals(network, sizes, ending)) == network[..total]
    ensures InPieces(Arrivals(network, sizes, ending), sizes, ending)
    decreases |sizes|
  {
    if sizes != [] {
      var first, rest := sizes[0], network[sizes[0]..];
      var more := Total(sizes[1..]);
      assert first in sizes && forall size <- sizes[1..] :: size in sizes;
      ArrivalsAre(rest, sizes[1..], ending, more);
      TakeInTwo(network, first, more, total);
      ChunkFirst(network[..first], Arrivals(rest, sizes[1..], ending));
    }
  }

  lemma ChunkFirst(bytes: seq<Byte>, later: seq<ReadEvent>)
    ensures Lead([Chunk(bytes)] + later) == bytes + Lead(later) && ([Chunk(bytes)] + later)[1..] == later
  {
  }

  /** One call on either end, with everything the kernel may do meanwhile. */
  datatype Call =
    | Enqueue(request: seq<Byte>, copyData: bool)
    | Flush(script: seq<WriteEvent>)
    | Deliver(sizes: seq<nat>, ending: ReadEvent)

  ghost predicate RealCall(call: Call) {
    match call
    case Enqueue(_, _) => true
    case Flush(script) => RealRoom(script)
    case Deliver(_, ending) => !ending.Chunk?
  }

  ghost predicate RealCalls(calls: seq<Call>) {
    forall i :: 0 <= i < |calls| ==> RealCall(calls[i])
  }

  /** Two ends that share no memory. */
  ghost predicate Apart(a: Connection, b: Connection)
    reads a, b
  {
    a != b && b.rBuf !in a.Buffers()
  }

  ghost predicate Ready(a: Connection, b: Connection)
    reads a, b, b.rBuf, set r | r in a.queue :: r.buffer
  {
    Apart(a, b) && a.Writable() && b.Readable()
  }

  /** The link that stands for the two ends and the bytes between them. */
  ghost function LinkOf(a: Connection, network: seq<Byte>, b: Connection): Link
    reads a, b, b.rBuf
    requires b.rData + b.rSize <= b.rBuf.Length
  {
    Link(a.unsent, network, b.State())
  }

  method Send(a: Connection, network: seq<Byte>, b: Connection, data: array<Byte>, copyData: bool)
    requires Ready(a, b) && data != b.rBuf
    modifies a
    ensures Ready(a, b)
    ensures LinkOf(a, network, b) == Apply(b.framer, old(LinkOf(a, network, b)), Step.Send(data[..]))
  {
    ghost var before, request := LinkOf(a, network, b), data[..];
    assert data[0..data.Length] == request;
    var size := a.SendData(data, 0, data.Length, copyData);
    assert b.State() == before.receiver && b.Readable();
    SendStep(b.framer, before, request, Link(a.unsent, network, before.receiver));
  }

  /** How handle_write ends on these requests and such a socket. */
  function WriteEnds(unsent: seq<seq<Byte>>, script: seq<WriteEvent>): (outcome: WriteOutcome)
    ensures Budget(script) < |Sendable(unsent)| ==>
              (outcome.WriteClosed? || outcome.WriteFailed? <==> !WriteEnding(script).WriteBlocks?)
    ensures Budget(script) >= |Sendable(unsent)| ==>
              (outcome.WriteClosed? || outcome.WriteFailed? <==> [] in unsent)
  {
    if Budget(script) < |Sendable(unsent)| then AfterWrite(WriteEnding(script))
    else if [] in unsent then WriteClosed
    else QueueEmpty
  }

  /** The sender is called with a socket that behaves as the script says. */
  method Depart(network: seq<Byte>, a: Connection, script: seq<WriteEvent>)
    returns (carried: seq<Byte>, outcome: WriteOutcome, ghost count: nat)
    requires a.Writable() && RealRoom(script)
    modifies a`queue, a`unsent
    ensures a.Writable() && a.Buffers() <= old(a.Buffers())
    ensures count <= |Concat(old(a.unsent))| && a.unsent == Transmit(old(a.unsent), count)
    ensures carried == network + Concat(old(a.unsent))[..count]
    ensures count == Min(|Sendable(old(a.unsent))|, Budget(script))
    ensures outcome == WriteEnds(old(a.unsent), script)
  {
    ghost var before := a.unsent;
    var sock := new OutSocket(script);
    outcome, count := a.HandleWrite(sock);
    EmptyUnit(Concat(before)[..count]);
    carried := network + sock.wire;
  }

  method Write(a: Connection, network: seq<Byte>, b: Connection, script: seq<WriteEvent>)
    returns (carried: seq<Byte>, outcome: WriteOutcome, ghost count: nat)
    requires Ready(a, b) && RealRoom(script)
    modifies a
    ensures Ready(a, b)
    ensures Enabled(old(LinkOf(a, network, b)), Step.Write(count))
    ensures LinkOf(a, carried, b) == Apply(b.framer, old(LinkOf(a, network, b)), Step.Write(count))
    ensures count == Min(|Sendable(old(a.unsent))|, Budget(script))
    ensures outcome == WriteEnds(old(a.unsent), script)
  {
    ghost var before := LinkOf(a, network, b);
    carried, outcome, count := Depart(network, a, script);
    assert b.State() == before.receiver && b.Readable();
    WriteStep(b.framer, before, count, Link(a.unsent, carried, before.receiver));
  }

  /** The receiver is called with some of the network's bytes; a full buffer leaves the rest there. */
  method Arrive(network: seq<Byte>, b: Connection, sizes: seq<nat>, ending: ReadEvent)
    returns (left: seq<Byte>, outcome: ReadOutcome, ghost count: nat)
    requires b.Readable() && !ending.Chunk?
    modifies b`rData, b`rSize, b`dispatched, b`journal, b.rBuf
    ensures b.Readable() && count <= |network| && left == network[count..]
    ensures b.State() == Receive(b.framer, old(b.State()), network[..count])
    ensures FoundRoom(b.framer, old(b.Pending()) + network[..count], b.bufSize)
    ensures outcome.Full? <==> |b.Pending()| == b.bufSize
    ensures outcome.Full? <==>
            !NeverFull(b.framer, old(b.Pending()) + Lead(Arrivals(network, sizes, ending)), b.bufSize)
    ensures !outcome.Full? ==> outcome == AfterRead(ending) && count == |Lead(Arrivals(network, sizes, ending))|
  {
    var events := Arrivals(network, sizes, ending);
    var offered := Lead(events);
    var sock := new InSocket(events);
    ghost var got;
    outcome, got := b.HandleRead(sock);
    var taken := CountTaken(offered, outcome.Full?, Lead(sock.input), network, got);
    left, count := network[taken..], taken;
  }

  method Read(a: Connection, network: seq<Byte>, b: Connection, sizes: seq<nat>, ending: ReadEvent)
    returns (left: seq<Byte>, outcome: ReadOutcome, ghost count: nat)
    requires Ready(a, b) && !ending.Chunk?
    modifies b, b.rBuf
    ensures Ready(a, b)
    ensures Enabled(old(LinkOf(a, network, b)), Step.Read(count)) && count <= |network|
    ensures LinkOf(a, left, b) == Apply(b.framer, old(LinkOf(a, network, b)), Step.Read(count))
    ensures FoundRoom(b.framer, old(b.Pending()) + network[..count], b.bufSize)
    ensures outcome.Full? <==> |b.Pending()| == b.bufSize
    ensures outcome.Full? <==>
            !NeverFull(b.framer, old(b.Pending()) + Lead(Arrivals(network, sizes, ending)), b.bufSize)
    ensures !outcome.Full? ==> outcome == AfterRead(ending) && count == |Lead(Arrivals(network, sizes, ending))|
  {
    ghost var before := LinkOf(a, network, b);
    left, outcome, count := Arrive(network, b, sizes, ending);
    assert a.unsent == before.queue && a.Writable();
    ReadStep(b.framer, before, count, network[..count], Link(before.queue, left, b.State()));
  }

  lemma SendStep(f: Framer<Byte>, s: Link, request: seq<Byte>, t: Link)
    requires Lawful(f) && t == Link(s.queue + [request], s.wire, s.receiver)
    ensures t == Apply(f, s, Step.Send(request))
  {
  }

  lemma WriteStep(f: Framer<Byte>, s: Link, count: nat, t: Link)
    requires Lawful(f) && count <= |Concat(s.queue)|
    requires t == Link(Transmit(s.queue, count), s.wire + Concat(s.queue)[..count], s.receiver)
    ensures Enabled(s, Step.Write(count)) && t == Apply(f, s, Step.Write(count))
  {
  }

  lemma ReadStep(f: Framer<Byte>, s: Link, count: nat, got: seq<Byte>, t: Link)
    requires Lawful(f) && count <= |s.wire| && got == s.wire[..count]
    requires t == Link(s.queue, s.wire[count..], Receive(f, s.receiver, got))
    ensures Enabled(s, Step.Read(count)) && t == Apply(f, s, Step.Read(count))
  {
  }

  /** How much of what arrived has been read. */
  method CountTaken(lead: seq<Byte>, full: bool, unread: seq<Byte>, network: seq<Byte>, ghost got: seq<Byte>)
    returns (count: nat)
    requires lead == got + (if full then unread else []) && lead <= network
    ensures count <= |network| && got == network[..count]
  {
    count := if full then |lead| - |unread| else |lead|;
    assert got == lead[..count];
  }

  // ---------------------------------------------------------------- whole runs

  function Asked(call: Call): seq<Byte> {
    if call.Enqueue? then call.request else []
  }

  /** All bytes the calls hand to send_data, in order. */
  function Handed(calls: seq<Call>): seq<Byte> {
    if calls == [] then [] else Handed(calls[..|calls| - 1]) + Asked(calls[|calls| - 1])
  }

  lemma {:induction false} HandedPrefix(calls: seq<Call>, n: nat)
    requires n <= |calls|
    ensures Handed(calls[..n]) <= Handed(calls)
    decreases |calls|
  {
    if n == |calls| {
      assert calls[..n] == calls;
    } else {
      TakeTake(calls, |calls| - 1, n);
      HandedPrefix(calls[..|calls| - 1], n);
    }
  }

  predicate HasEmpty(calls: seq<Call>) {
    exists i :: 0 <= i < |calls| && calls[i].Enqueue? && calls[i].request == []
  }

  /** The kernel reports something else than bytes and EAGAIN. */
  predicate Breaks(call: Call) {
    match call
    case Enqueue(_, _) => false
    case Flush(script) => !WriteEnding(script).WriteBlocks?
    case Deliver(_, ending) => !ending.ReadBlocks?
  }

  predicate HasBreak(calls: seq<Call>) {
    exists i :: 0 <= i < |calls| && Breaks(calls[i])
  }

  /** A call closes the connection if it gets as far as a report of the kernel that does, or to an empty request. */
  predicate Closes(call: Call, unsent: seq<seq<Byte>>, full: bool)
    ensures Closes(call, unsent, full) ==> Breaks(call) || [] in unsent
    ensures call.Deliver? ==> (Closes(call, unsent, full) <==> !full && !call.ending.ReadBlocks?)
    ensures call.Flush? && Budget(call.script) < |Sendable(unsent)| ==>
              (Closes(call, unsent, full) <==> !WriteEnding(call.script).WriteBlocks?)
    ensures call.Flush? && Budget(call.script) >= |Sendable(unsent)| ==>
              (Closes(call, unsent, full) <==> [] in unsent)
  {
    match call
    case Enqueue(_, _) => false
    case Flush(script) => WriteEnds(unsent, script).WriteClosed? || WriteEnds(unsent, script).WriteFailed?
    case Deliver(_, ending) => !full && !ending.ReadBlocks?
  }

  /** The bytes of the network a step hands to the receiver. */
  function Given(s: Link, step: Step): seq<Byte>
    requires Enabled(s, step)
  {
    if step.Read? then s.wire[..step.count] else []
  }

  /** One call. A connection is closed by the peer, by an error, or by an empty request. */
  method Perform(a: Connection, network: seq<Byte>, b: Connection, call: Call)
    returns (left: seq<Byte>, closed: bool, ghost step: Step)
    requires Ready(a, b) && RealCall(call)
    modifies a, b, b.rBuf
    ensures Ready(a, b)
    ensures Enabled(old(LinkOf(a, network, b)), step) && Added(step) == Asked(call)
    ensures step.Send? ==> call.Enqueue? && call.request == step.request
    ensures LinkOf(a, left, b) == Apply(b.framer, old(LinkOf(a, network, b)), step)
    ensures FoundRoom(b.framer, old(b.Pending()) + Given(old(LinkOf(a, network, b)), step), b.bufSize)
    ensures closed <==> Closes(call, old(a.unsent), |b.Pending()| == b.bufSize)
  {
    left, closed := network, false;
    ghost var pending := b.Pending();
    EmptyUnit(pending);
    PendingFoundRoom(b.framer, pending, b.bufSize);
    match call
    case Enqueue(request, copyData) =>
      var data := new Byte[|request|](i requires 0 <= i < |request| => request[i]);
      assert data[..] == request;
      step := Step.Send(request);
      Send(a, network, b, data, copyData);
    case Flush(script) =>
      var outcome;
      ghost var count;
      left, outcome, count := Write(a, network, b, script);
      closed, step := outcome.WriteClosed? || outcome.WriteFailed?, Step.Write(count);
    case Deliver(sizes, ending) =>
      var outcome;
      ghost var count;
      left, outcome, count := Read(a, network, b, sizes, ending);
      closed, step := outcome.PeerClosed? || outcome.ReadFailed?, Step.Read(count);
  }

  lemma {:induction false} TransmitKeepsNonEmpty(slices: seq<seq<Byte>>, n: nat)
    requires n <= |Concat(slices)| && [] in Transmit(slices, n)
    ensures [] in slices
  {
    if n > 0 {
      if n < |slices[0]| {
        var i :| 0 <= i < |Transmit(slices, n)| && Transmit(slices, n)[i] == [];
        assert slices[i] == [];
      } else {
        TransmitKeepsNonEmpty(slices[1..], n - |slices[0]|);
      }
    }
  }

  lemma {:induction false} EmptyStep(f: Framer<Byte>, now: Link, step: Step, calls: seq<Call>, n: nat)
    requires Lawful(f) && n < |calls| && Enabled(now, step)
    requires step.Send? ==> calls[n].Enqueue? && calls[n].request == step.request
    requires [] in now.queue ==> HasEmpty(calls[..n])
    ensures [] in now.queue || [] in Apply(f, now, step).queue ==> HasEmpty(calls[..n + 1])
  {
    if [] in now.queue || [] in Apply(f, now, step).queue {
      if step.Write? && [] !in now.queue { TransmitKeepsNonEmpty(now.queue, step.count); }
      if [] in now.queue {
        var i :| 0 <= i < |calls[..n]| && calls[..n][i].Enqueue? && calls[..n][i].request == [];
        assert calls[..n + 1][i] == calls[..n][i];
      } else {
        assert calls[..n + 1][n] == calls[n];
      }
    }
  }

  /** What the objects have done so far is a run of the link, and what was delivered found room. */
  ghost predicate Ran(f: Framer<Byte>, steps: seq<Step>, now: Link, calls: seq<Call>, delivered: seq<Byte>,
      bufSize: nat)
    requires Lawful(f)
  {
    && Leads(f, IDLE, steps, now) && Requested(steps) == Handed(calls)
    && Holds(f, now, Handed(calls), delivered)
    && FoundRoom(f, delivered, bufSize)
    && ([] in now.queue ==> HasEmpty(calls))
  }

  lemma {:induction false} StepRoom(f: Framer<Byte>, now: Link, step: Step, requested: seq<Byte>,
      delivered: seq<Byte>, bufSize: nat)
    requires Lawful(f) && Enabled(now, step) && Holds(f, now, requested, delivered)
    requires FoundRoom(f, delivered, bufSize) && FoundRoom(f, now.receiver.pending + Given(now, step), bufSize)
    ensures Holds(f, Apply(f, now, step), requested + Added(step), delivered + Given(now, step))
    ensures FoundRoom(f, delivered + Given(now, step), bufSize)
  {
    EmptyUnit(requested);
    EmptyUnit(delivered);
    match step
    case Send(request) => SendHolds(f, now, requested, delivered, request);
    case Write(count) => WriteHolds(f, now, requested, delivered, count);
    case Read(count) =>
      ReadHolds(f, now, requested, delivered, count);
      HoldsMeans(f, now, requested, delivered);
      MoreFoundRoom(f, delivered, now.wire[..count], bufSize);
  }

  lemma {:induction false} RanOn(f: Framer<Byte>, steps: seq<Step>, now: Link, step: Step, calls: seq<Call>, n: nat,
      delivered: seq<Byte>, bufSize: nat)
    requires Lawful(f) && n < |calls| && Ran(f, steps, now, calls[..n], delivered, bufSize)
    requires Enabled(now, step) && Added(step) == Asked(calls[n])
    requires step.Send? ==> calls[n].Enqueue? && calls[n].request == step.request
    requires FoundRoom(f, now.receiver.pending + Given(now, step), bufSize)
    ensures Ran(f, steps + [step], Apply(f, now, step), calls[..n + 1], delivered + Given(now, step), bufSize)
    ensures [] in now.queue ==> HasEmpty(calls[..n + 1])
  {
    var handed := Handed(calls[..n]);
    assert calls[..n + 1][..n] == calls[..n];
    assert Handed(calls[..n + 1]) == handed + Added(step);
    EmptyStep(f, now, step, calls, n);
    LeadsSnoc(f, IDLE, steps, now, step);
    RequestedSnoc(steps, step);
    StepRoom(f, now, step, handed, delivered, bufSize);
  }

  lemma {:induction false} RanFirst(f: Framer<Byte>, bufSize: nat)
    requires Lawful(f)
    ensures Ran(f, [], IDLE, [], [], bufSize)
  {
    IdleHolds(f);
  }

  lemma {:induction false} Concluded(f: Framer<Byte>, steps: seq<Step>, t: Link, calls: seq<Call>, n: nat,
      delivered: seq<Byte>, bufSize: nat)
    requires Lawful(f) && n <= |calls| && Ran(f, steps, t, calls[..n], delivered, bufSize)
    ensures t.receiver == Parsed(f, delivered) && delivered <= Handed(calls)
    ensures t.receiver.dispatched <= Frames(f, Handed(calls))
    ensures n == |calls| ==> Handed(calls) == delivered + (t.wire + Concat(t.queue))
    ensures [] in t.queue ==> HasEmpty(calls)
    ensures n == |calls| && Delivery.Drained(t) ==> delivered == Handed(calls)
    ensures NeverFull(f, Handed(calls), bufSize) ==> |t.receiver.pending| < bufSize
    ensures HasEmpty(calls[..n]) ==> HasEmpty(calls)
    ensures HasBreak(calls[..n]) ==> HasBreak(calls)
  {
    HoldsMeans(f, t, Handed(calls[..n]), delivered);
    HandedPrefix(calls, n);
    PrefixFrames(f, delivered, Handed(calls));
    assert n == |calls| ==> calls[..n] == calls;
    if NeverFull(f, Handed(calls), bufSize) {
      NeverFullPrefix(f, delivered, Handed(calls), bufSize);
      assert delivered[..|delivered|] == delivered;
    }
  }

  /**
   Delivery by the objects themselves: whatever calls are made in whatever order, and whatever the
   kernel does, the receiver's state is one pass over a part of the bytes handed to the sender, all of
   which found room in its buffer; once nothing is queued or in flight it is all of them.
   */
  method Drive(a: Connection, b: Connection, calls: seq<Call>)
    returns (network: seq<Byte>, closed: bool, ghost delivered: seq<Byte>)
    requires Ready(a, b) && a.unsent == [] && b.State() == IDLE.receiver && RealCalls(calls)
    modifies a, b, b.rBuf
    ensures Ready(a, b)
    ensures b.State() == Parsed(b.framer, delivered) && delivered <= Handed(calls)
    ensures b.dispatched <= Frames(b.framer, Handed(calls))
    ensures FoundRoom(b.framer, delivered, b.bufSize)
    ensures NeverFull(b.framer, Handed(calls), b.bufSize) ==> |b.Pending()| < b.bufSize
    ensures closed ==> HasEmpty(calls) || HasBreak(calls)
    ensures [] in a.unsent ==> HasEmpty(calls)
    ensures !closed ==> Handed(calls) == delivered + (network + Concat(a.unsent))
    ensures !closed && network == [] && Concat(a.unsent) == [] ==> delivered == Handed(calls)
  {
    ghost var f, steps := b.framer, [];
    var n := 0;
    network, closed, delivered := [], false, [];
    assert calls[..0] == [];
    RanFirst(f, b.bufSize);
    while n < |calls| && !closed
      invariant n <= |calls| && Ready(a, b)
      invariant Ran(f, steps, LinkOf(a, network, b), calls[..n], delivered, b.bufSize)
      invariant closed ==> HasEmpty(calls[..n]) || HasBreak(calls[..n])
      decreases |calls| - n
    {
      ghost var now := LinkOf(a, network, b);
      ghost var step;
      network, closed, step := Perform(a, network, b, calls[n]);
      RanOn(f, steps, now, step, calls, n, delivered, b.bufSize);
      assert calls[..n + 1][n] == calls[n];
      steps, delivered, n := steps + [step], delivered + Given(now, step), n + 1;
    }
    Concluded(f, steps, LinkOf(a, network, b), calls, n, delivered, b.bufSize);
  }

  /** A schedule in which nobody sends nothing and the kernel reports nothing but bytes and EAGAIN. */
  lemma {:induction false} QuietCalls(calls: seq<Call>)
    requires forall call <- calls :: match call
      case Enqueue(request, _) => request != []
      case Flush(script) => forall e <- script :: e.Room? || e.WriteBlocks?
      case Deliver(_, ending) => ending == ReadBlocks
    ensures !HasEmpty(calls) && !HasBreak(calls)
  {
    forall i | 0 <= i < |calls|
      ensures (calls[i].Enqueue? ==> calls[i].request != []) && !Breaks(calls[i])
    {
      assert calls[i] in calls;
      if calls[i].Flush? {
        QuietScript(calls[i].script);
      }
    }
  }

  lemma {:induction false} QuietScript(script: seq<WriteEvent>)
    requires forall e <- script :: e.Room? || e.WriteBlocks?
    ensures WriteEnding(script).WriteBlocks?
  {
    if script != [] {
      assert script[0] in script && forall e <- script[1..] :: e in script;
      QuietScript(script[1..]);
    }
  }

  lemma {:induction false} ParsedOn(f: Framer<Byte>, delivered: seq<Byte>, more: seq<Byte>)
    requires Lawful(f)
    ensures Receive(f, Parsed(f, delivered), more) == Parsed(f, delivered + more)
  {
    var rest := Rest(f, delivered) + more;
    FramesSplit(f, delivered, more);
    SavedAppend(f, Frames(f, delivered), Frames(f, rest));
    ProcessMeans(f, Parsed(f, delivered).(pending := rest));
  }

  /** Everything queued is written, for which the socket has room, and everything in flight arrives. */
  method Settle(a: Connection, network: seq<Byte>, b: Connection, room: nat) returns (left: seq<Byte>, closed: bool)
    requires Ready(a, b) && [] !in a.unsent && room > |Concat(a.unsent)|
    requires NeverFull(b.framer, b.Pending() + (network + Concat(a.unsent)), b.bufSize)
    modifies a, b, b.rBuf
    ensures Ready(a, b) && !closed && left == [] && Concat(a.unsent) == []
    ensures b.State() == Receive(b.framer, old(b.State()), network + Concat(old(a.unsent)))
  {
    ghost var unsent, all := a.unsent, network + Concat(a.unsent);
    SendableWhole(unsent);
    TransmitConserves(unsent, |Concat(unsent)|);
    assert Concat(unsent)[..|Concat(unsent)|] == Concat(unsent);
    var carried, wrote;
    ghost var count;
    carried, wrote, count := Write(a, network, b, [Room(room)]);
    assert carried == all;
    var sizes := if carried == [] then [] else [|carried|];
    assert |carried| == Total(sizes);
    ArrivalsAre(carried, sizes, ReadBlocks, |carried|);
    assert carried[..|carried|] == carried;
    var read;
    left, read, count := Read(a, carried, b, sizes, ReadBlocks);
    closed := wrote.WriteClosed? || wrote.WriteFailed? || read.PeerClosed? || read.ReadFailed?;
  }

  /**
   Delivery comes about: after any calls that leave the connection open, a socket with room and a network
   that delivers are all it takes for the receiver to have exactly one pass over everything handed over.
   */
  method DriveToEnd(a: Connection, b: Connection, calls: seq<Call>) returns (closed: bool)
    requires Ready(a, b) && a.unsent == [] && b.State() == IDLE.receiver && RealCalls(calls)
    requires !HasEmpty(calls) && !HasBreak(calls) && NeverFull(b.framer, Handed(calls), b.bufSize)
    modifies a, b, b.rBuf
    ensures Ready(a, b) && !closed
    ensures b.State() == Parsed(b.framer, Handed(calls))
  {
    var network;
    ghost var delivered;
    network, closed, delivered := Drive(a, b, calls);
    ghost var more := network + Concat(a.unsent);
    NeverFullBehind(b.framer, delivered, more, b.bufSize);
    ParsedOn(b.framer, delivered, more);
    network, closed := Settle(a, network, b, |Handed(calls)| + 1);
  }

  /**
   A list of messages handed over in any pieces. If each of them fits the buffer no read ever leaves
   it full; if one does not, no schedule ever drains the link.
   */
  method DriveMessages(a: Connection, b: Connection, calls: seq<Call>, ghost ms: seq<Message<Byte>>)
    returns (network: seq<Byte>, closed: bool, ghost delivered: seq<Byte>)
    requires Ready(a, b) && a.unsent == [] && b.State() == IDLE.receiver && RealCalls(calls)
    requires AllWellFormed(b.framer, ms) && Handed(calls) == Encode(ms) && b.bufSize > 0
    modifies a, b, b.rBuf
    ensures Ready(a, b)
    ensures b.State() == Parsed(b.framer, delivered) && delivered <= Encode(ms)
    ensures b.dispatched <= ms
    ensures AllFit(ms, b.bufSize) ==> |b.Pending()| < b.bufSize
    ensures closed ==> HasEmpty(calls) || HasBreak(calls)
    ensures !closed && network == [] && Concat(a.unsent) == [] ==>
              delivered == Encode(ms) && b.dispatched == ms && AllFit(ms, b.bufSize)
  {
    network, closed, delivered := Drive(a, b, calls);
    FramesOfEncode(b.framer, ms, []);
    EmptyUnit(Encode(ms));
    EmptyUnit(ms);
    assert Rest(b.framer, []) == [] && Frames(b.framer, []) == [];
    NeverFullIff(b.framer, ms, [], b.bufSize);
    NeverFullIsRoom(b.framer, Encode(ms), b.bufSize);
  }

  // ---------------------------------------------------------------- the two ends of this repository

  /**
   The server's reads stop only because the socket has no more, provided the buffer can hold a login:
   between reads the buffer is never full, whatever arrives.
   */
  lemma ServerNeverFull(c: Connection)
    requires c.Readable() && c.framer == SERVER && c.bufSize >= LOGIN_SIZE
    ensures |c.Pending()| < c.bufSize
  {
    ServerBufferSuffices(c.bufSize);
    assert SERVER.Size(c.Pending()) == ServerSize(c.Pending());
  }

  /** A full client buffer holds the start of one message that is longer than the buffer. */
  lemma ClientFull(c: Connection)
    requires c.Readable() && c.framer == CLIENT && |c.Pending()| == c.bufSize
    ensures c.bufSize < HEADER_SIZE || ClientNeeds(c.Pending()) > c.bufSize
  {
    assert CLIENT.Size(c.Pending()) == ClientSize(c.Pending());
    ClientBufferStuck(c.Pending());
  }

  /**
   The other way round: bytes that begin with a frame longer than the buffer fill it once enough of
   them have arrived, in any pieces, so by HandleRead's contract the reader ends with a full buffer.
   */
  lemma ClientFrameTooLong(data: seq<Byte>, bufSize: nat)
    requires HEADER_SIZE <= bufSize <= |data| && ClientNeeds(data) > bufSize
    ensures Lawful(CLIENT) && !NeverFull(CLIENT, data, bufSize)
  {
    FramersLawful();
    var full := data[..bufSize];
    assert full[..4] == data[..4];
    assert CLIENT.Size(full) == ClientSize(full) == 0;
    assert Rest(CLIENT, full) == full;
  }

  /**
   The server's side needs no luck: if its buffer can hold a login, no schedule leaves the buffer full,
   so every read ends for the socket's own reason.
   */
  method DriveToServer(a: Connection, b: Connection, calls: seq<Call>)
    returns (network: seq<Byte>, closed: bool, ghost delivered: seq<Byte>)
    requires Ready(a, b) && a.unsent == [] && b.State() == IDLE.receiver && RealCalls(calls)
    requires b.framer == SERVER && b.bufSize >= LOGIN_SIZE
    modifies a, b, b.rBuf
    ensures Ready(a, b) && |b.Pending()| < b.bufSize
    ensures b.State() == Parsed(b.framer, delivered) && delivered <= Handed(calls)
    ensures closed ==> HasEmpty(calls) || HasBreak(calls)
    ensures !closed && network == [] && Concat(a.unsent) == [] ==> delivered == Handed(calls)
  {
    network, closed, delivered := Drive(a, b, calls);
    ServerNeverFull(b);
  }
}
