/**
 A one-way link between two connections as a step system: requests are queued by send_data, written
 in arbitrary amounts by handle_write, carried in order by the network, and read in arbitrary amounts
 by handle_read. The steps use the same specification functions as the methods of Transport.
 */
module Delivery {
  import opened Bytes
  import opened Framing
  import opened Sequences
  import opened Transport

  datatype Link = Link(queue: seq<seq<Byte>>, wire: seq<Byte>, receiver: Receiver)

  const IDLE: Link := Link([], [], Receiver([], [], []))

  datatype Step =
    | Send(request: seq<Byte>)  // send_data
    | Write(count: nat)         // what one handle_write call managed to write
    | Read(count: nat)          // what one handle_read call managed to read

  predicate Enabled(s: Link, step: Step) {
    match step
    case Send(_) => true
    case Write(count) => count <= |Concat(s.queue)|
    case Read(count) => count <= |s.wire|
  }

  function Apply(f: Framer<Byte>, s: Link, step: Step): Link
    requires Lawful(f) && Enabled(s, step)
  {
    match step
    case Send(request) => s.(queue := s.queue + [request])
    case Write(count) => s.(queue := Transmit(s.queue, count), wire := s.wire + Concat(s.queue)[..count])
    case Read(count) => s.(wire := s.wire[count..], receiver := Receive(f, s.receiver, s.wire[..count]))
  }

  /** steps, in this order, lead from s to t. */
  ghost predicate Leads(f: Framer<Byte>, s: Link, steps: seq<Step>, t: Link)
    requires Lawful(f)
    decreases |steps|
  {
    if steps == [] then s == t
    else Enabled(s, steps[0]) && Leads(f, Apply(f, s, steps[0]), steps[1..], t)
  }

  function Added(step: Step): seq<Byte> {
    if step.Send? then step.request else []
  }

  /** All bytes handed to send_data, in order. */
  function Requested(steps: seq<Step>): seq<Byte> {
    if steps == [] then [] else Added(steps[0]) + Requested(steps[1..])
  }

  predicate Drained(s: Link) {
    s.wire == [] && Concat(s.queue) == []
  }

  /**
   The invariant: of the bytes requested, the receiver has been given a prefix, as if at once; the
   network holds what follows, and the queue holds the rest.
   */
  ghost predicate Holds(f: Framer<Byte>, s: Link, requested: seq<Byte>, delivered: seq<Byte>)
    requires Lawful(f)
  {
    && requested == delivered + (s.wire + Concat(s.queue))
    && s.receiver == Receive(f, IDLE.receiver, delivered)
  }

  lemma SendHolds(f: Framer<Byte>, s: Link, requested: seq<Byte>, delivered: seq<Byte>, request: seq<Byte>)
    requires Lawful(f) && Holds(f, s, requested, delivered)
    ensures Holds(f, Apply(f, s, Send(request)), requested + request, delivered)
  {
    ConcatSnoc(s.queue, request);
    AppendAssoc(s.wire, Concat(s.queue), request);
    AppendAssoc(delivered, s.wire + Concat(s.queue), request);
  }

  lemma WriteHolds(f: Framer<Byte>, s: Link, requested: seq<Byte>, delivered: seq<Byte>, count: nat)
    requires Lawful(f) && Holds(f, s, requested, delivered) && count <= |Concat(s.queue)|
    ensures Holds(f, Apply(f, s, Write(count)), requested, delivered)
  {
    TransmitConserves(s.queue, count);
    Regroup(s.wire, Concat(s.queue), count);
  }

  lemma ReadHolds(f: Framer<Byte>, s: Link, requested: seq<Byte>, delivered: seq<Byte>, count: nat)
    requires Lawful(f) && Holds(f, s, requested, delivered) && count <= |s.wire|
    ensures Holds(f, Apply(f, s, Read(count)), requested, delivered + s.wire[..count])
  {
    var got, left, queued := s.wire[..count], s.wire[count..], Concat(s.queue);
    ReceiveSplit(f, IDLE.receiver, delivered, got);
    assert s.wire == got + left;
    AppendAssoc(got, left, queued);
    AppendAssoc(delivered, got, left + queued);
  }

  lemma StepHolds(f: Framer<Byte>, s: Link, requested: seq<Byte>, delivered: seq<Byte>, step: Step)
    returns (delivered': seq<Byte>)
    requires Lawful(f) && Holds(f, s, requested, delivered) && Enabled(s, step)
    ensures Holds(f, Apply(f, s, step), requested + Added(step), delivered')
  {
    EmptyUnit(requested);
    match step
    case Send(request) =>
      SendHolds(f, s, requested, delivered, request);
      delivered' := delivered;
    case Write(count) =>
      WriteHolds(f, s, requested, delivered, count);
      delivered' := delivered;
    case Read(count) =>
      ReadHolds(f, s, requested, delivered, count);
      delivered' := delivered + s.wire[..count];
  }

  lemma {:induction false} LeadsHolds(f: Framer<Byte>, s: Link, steps: seq<Step>, t: Link, requested: seq<Byte>,
      delivered: seq<Byte>, total: seq<Byte>)
    returns (delivered': seq<Byte>)
    requires Lawful(f) && Leads(f, s, steps, t) && Holds(f, s, requested, delivered)
    requires total == requested + Requested(steps)
    ensures Holds(f, t, total, delivered')
    decreases |steps|
  {
    if steps == [] {
      delivered' := delivered;
      EmptyUnit(requested);
    } else {
      var next := StepHolds(f, s, requested, delivered, steps[0]);
      AppendAssoc(requested, Added(steps[0]), Requested(steps[1..]));
      delivered' := LeadsHolds(f, Apply(f, s, steps[0]), steps[1..], t, requested + Added(steps[0]), next, total);
    }
  }

  /** A receiver that has parsed this stream and nothing else. */
  ghost function Parsed(f: Framer<Byte>, data: seq<Byte>): Receiver
    requires Lawful(f)
  {
    Receiver(Rest(f, data), Frames(f, data), Saved(f, Frames(f, data)))
  }

  /** What the invariant says about the receiver, and about a link that has been drained. */
  lemma HoldsMeans(f: Framer<Byte>, s: Link, requested: seq<Byte>, delivered: seq<Byte>)
    requires Lawful(f) && Holds(f, s, requested, delivered)
    ensures s.receiver == Parsed(f, delivered)
    ensures delivered <= requested && (Drained(s) ==> delivered == requested)
  {
    EmptyUnit(delivered);
    ProcessMeans(f, IDLE.receiver.(pending := delivered));
    EmptyUnit(Frames(f, delivered));
    EmptyUnit(Saved(f, Frames(f, delivered)));
  }

  lemma IdleHolds(f: Framer<Byte>)
    requires Lawful(f)
    ensures Holds(f, IDLE, [], [])
  {
    ProcessMeans(f, IDLE.receiver);
    assert Rest(f, []) == [] && Frames(f, []) == [];
    assert IDLE.receiver.(pending := IDLE.receiver.pending + []) == IDLE.receiver;
  }

  lemma {:induction false} RunHolds(f: Framer<Byte>, steps: seq<Step>, t: Link) returns (delivered: seq<Byte>)
    requires Lawful(f) && Leads(f, IDLE, steps, t)
    ensures Holds(f, t, Requested(steps), delivered)
    ensures t.receiver == Parsed(f, delivered)
    ensures delivered <= Requested(steps) && (Drained(t) ==> delivered == Requested(steps))
  {
    IdleHolds(f);
    EmptyUnit(Requested(steps));
    delivered := LeadsHolds(f, IDLE, steps, t, [], [], Requested(steps));
    HoldsMeans(f, t, Requested(steps), delivered);
  }

  /**
   Delivery, over every interleaving: what has been dispatched is a prefix of what one pass over
   the whole stream dispatches, and once the link is drained it is all of it, with the same leftover.
   */
  lemma {:induction false} EndToEnd(f: Framer<Byte>, steps: seq<Step>, t: Link)
    requires Lawful(f) && Leads(f, IDLE, steps, t)
    ensures t.receiver.dispatched <= Frames(f, Requested(steps))
    ensures Drained(t) ==>
              && t.receiver.dispatched == Frames(f, Requested(steps))
              && t.receiver.pending == Rest(f, Requested(steps))
              && t.receiver.journal == Saved(f, Frames(f, Requested(steps)))
  {
    var delivered := RunHolds(f, steps, t);
    PrefixFrames(f, delivered, Requested(steps));
  }

  /** Encode a list, send it in any pieces, and the receiver gets the list. */
  lemma {:induction false} MessagesArrive(f: Framer<Byte>, steps: seq<Step>, t: Link, ms: seq<Message<Byte>>)
    requires Lawful(f) && Leads(f, IDLE, steps, t)
    requires AllWellFormed(f, ms) && Requested(steps) == Encode(ms)
    ensures t.receiver.dispatched <= ms
    ensures Drained(t) ==> t.receiver.dispatched == ms && t.receiver.pending == Rest(f, [])
  {
    EndToEnd(f, steps, t);
    FramesOfEncode(f, ms, []);
    assert Encode(ms) + [] == Encode(ms);
    assert Frames(f, []) == [] && ms + [] == ms;
  }

  /** How the stream was cut into requests, writes and reads leaves no trace. */
  lemma {:induction false} SegmentationInvisible(f: Framer<Byte>, steps1: seq<Step>, t1: Link, steps2: seq<Step>,
      t2: Link)
    requires Lawful(f) && Leads(f, IDLE, steps1, t1) && Leads(f, IDLE, steps2, t2)
    requires Requested(steps1) == Requested(steps2) && Drained(t1) && Drained(t2)
    ensures t1.receiver == t2.receiver
  {
    EndToEnd(f, steps1, t1);
    EndToEnd(f, steps2, t2);
  }

  // ---------------------------------------------------------------- streams cut inside a message

  /** How many messages lie wholly within the first n bytes of their encoding. */
  function WholeWithin<B>(ms: seq<Message<B>>, n: nat): (k: nat)
    ensures k <= |ms|
  {
    if ms == [] || n < |ms[0].body| then 0 else 1 + WholeWithin(ms[1..], n - |ms[0].body|)
  }

  lemma {:induction false} WholeWithinAll<B>(ms: seq<Message<B>>)
    ensures WholeWithin(ms, |Encode(ms)|) == |ms|
  {
    if ms != [] {
      WholeWithinAll(ms[1..]);
    }
  }

  lemma PartOfMessage<B(!new)>(f: Framer<B>, m: Message<B>, n: nat)
    requires Lawful(f) && WellFormed(f, m) && n < |m.body|
    ensures Frames(f, m.body[..n]) == []
  {
    var part, missing := m.body[..n], m.body[n..];
    assert Stable(f, part, missing);
    assert part + missing == m.body;
  }

  lemma WholeThenPart<B(!new)>(f: Framer<B>, m: Message<B>, tail: seq<B>)
    requires Lawful(f) && WellFormed(f, m)
    ensures Frames(f, m.body + tail) == [m] + Frames(f, tail)
  {
    assert Stable(f, m.body, tail);
    CutWhole(m.body, tail);
  }

  lemma TakeCons<T>(s: seq<T>, k: nat)
    requires k < |s|
    ensures s[..k + 1] == [s[0]] + s[1..][..k]
  {
  }

  lemma CutBehindHead<T>(a: seq<T>, b: seq<T>, n: nat, k: nat)
    requires n == |a| + k && k <= |b|
    ensures (a + b)[..n] == a + b[..k]
  {
  }

  /** A stream that ends inside a message yields exactly the messages before it. */
  lemma {:induction false} FramesOfPart<B(!new)>(f: Framer<B>, ms: seq<Message<B>>, n: nat)
    requires Lawful(f) && AllWellFormed(f, ms) && n <= |Encode(ms)|
    ensures Frames(f, Encode(ms)[..n]) == ms[..WholeWithin(ms, n)]
  {
    if ms != [] {
      var m, rest := ms[0], Encode(ms[1..]);
      assert WellFormed(f, m);
      if n < |m.body| {
        CutAppend(m.body, rest, n);
        PartOfMessage(f, m, n);
      } else {
        var later: nat := n - |m.body|;
        CutBehindHead(m.body, rest, n, later);
        WholeThenPart(f, m, rest[..later]);
        FramesOfPart(f, ms[1..], later);
        TakeCons(ms, WholeWithin(ms[1..], later));
      }
    }
  }

  // ---------------------------------------------------------------- streams that start or restart inside a file

  /** n is the end of some message of the encoding. */
  ghost predicate IsBoundary<B>(ms: seq<Message<B>>, n: nat) {
    exists j :: 0 <= j <= |ms| && |Encode(ms[..j])| == n
  }

  /** The stream parses as this list and nothing is left. */
  ghost predicate Reads<B(!new)>(f: Framer<B>, stream: seq<B>, ms: seq<Message<B>>)
    requires Lawful(f)
  {
    Frames(f, stream) == ms && Rest(f, stream) == []
  }

  lemma ReadsIff<B(!new)>(f: Framer<B>, stream: seq<B>, ms: seq<Message<B>>)
    requires Lawful(f) && AllWellFormed(f, ms)
    ensures Reads(f, stream, ms) <==> stream == Encode(ms)
  {
    FramesConserve(f, stream);
    EmptyUnit(Encode(ms));
    EmptyUnit(ms);
    FramesOfEncode(f, ms, []);
    assert Frames(f, []) == [];
  }

  lemma {:induction false} CutEncoding<B>(ms: seq<Message<B>>, j: nat)
    requires j <= |ms|
    ensures Encode(ms) == Encode(ms[..j]) + Encode(ms[j..])
  {
    EncodeAppend(ms[..j], ms[j..]);
    assert ms[..j] + ms[j..] == ms;
  }

  lemma AllPartsWellFormed<B(!new)>(f: Framer<B>, a: seq<Message<B>>, b: seq<Message<B>>, j: nat)
    requires AllWellFormed(f, a) && AllWellFormed(f, b) && j <= |b|
    ensures AllWellFormed(f, a + b[j..]) && AllWellFormed(f, a + b[..j] + b)
  {
    assert forall m <- b[j..] :: m in b;
    assert forall m <- b[..j] :: m in b;
  }

  /**
   A reader that comes in when p bytes of a file have gone by: after some replies it reads records of
   the file up to its end exactly if p is the end of a record.
   */
  lemma {:induction false} JoinsAlignedIff<B(!new)>(f: Framer<B>, replies: seq<Message<B>>, records: seq<Message<B>>,
      p: nat)
    requires Lawful(f) && AllWellFormed(f, replies) && AllWellFormed(f, records) && p <= |Encode(records)|
    ensures (exists j :: 0 <= j <= |records|
              && Reads(f, Encode(replies) + Encode(records)[p..], replies + records[j..]))
       <==> IsBoundary(records, p)
  {
    var stream := Encode(replies) + Encode(records)[p..];
    forall j | 0 <= j <= |records|
      ensures Reads(f, stream, replies + records[j..]) <==> |Encode(records[..j])| == p
    {
      AllPartsWellFormed(f, replies, records, j);
      ReadsIff(f, stream, replies + records[j..]);
      EncodeAppend(replies, records[j..]);
      CutEncoding(records, j);
      CutWhole(Encode(records[..j]), Encode(records[j..]));
    }
    if IsBoundary(records, p) {
      var j :| 0 <= j <= |records| && |Encode(records[..j])| == p;
      assert Reads(f, stream, replies + records[j..]);
    }
  }

  /**
   A reader that is sent n bytes of a file and then the file again reads some records and then all of
   them exactly if n is the end of a record.
   */
  lemma {:induction false} ReplayedAgainIff<B(!new)>(f: Framer<B>, replies: seq<Message<B>>, records: seq<Message<B>>,
      n: nat)
    requires Lawful(f) && AllWellFormed(f, replies) && AllWellFormed(f, records) && n <= |Encode(records)|
    ensures (exists j :: 0 <= j <= |records|
              && Reads(f, Encode(replies) + Encode(records)[..n] + Encode(records), replies + records[..j] + records))
       <==> IsBoundary(records, n)
  {
    var stream := Encode(replies) + Encode(records)[..n] + Encode(records);
    forall j | 0 <= j <= |records|
      ensures Reads(f, stream, replies + records[..j] + records) <==> |Encode(records[..j])| == n
    {
      AllPartsWellFormed(f, replies, records, j);
      ReadsIff(f, stream, replies + records[..j] + records);
      EncodeAppend(replies + records[..j], records);
      EncodeAppend(replies, records[..j]);
      CutEncoding(records, j);
      CutWhole(Encode(records[..j]), Encode(records[j..]));
    }
    if IsBoundary(records, n) {
      var j :| 0 <= j <= |records| && |Encode(records[..j])| == n;
      assert Reads(f, stream, replies + records[..j] + records);
    }
  }

  /** The two ways round of two pieces are the same bytes. */
  predicate Commute<B(==)>(a: seq<B>, b: seq<B>) {
    a + b == b + a
  }

  /** The bytes of a file between a position and the end of its first j messages. */
  function Between<B>(ms: seq<Message<B>>, p: nat, j: nat): seq<B>
    requires p <= |Encode(ms)| && j <= |ms| && |Encode(ms[..j])| <= |Encode(ms)|
  {
    var end := |Encode(ms[..j])|;
    if p <= end then Encode(ms)[p..end] else Encode(ms)[end..p]
  }

  /** An insertion can be moved without any change exactly if it commutes with what it is moved across. */
  lemma MovedInsertion<B>(s: seq<B>, middle: seq<B>, p: nat, q: nat)
    requires p <= q <= |s|
    ensures s[..p] + middle + s[p..] == s[..q] + middle + s[q..] <==> Commute(middle, s[p..q])
  {
    var a, x, b := s[..p], s[p..q], s[q..];
    assert s[p..] == x + b && s[..q] == a + x;
    var one, two := middle + x, x + middle;
    assert s[..p] + middle + s[p..] == a + (one + b);
    assert s[..q] + middle + s[q..] == a + (two + b);
    if a + (one + b) == a + (two + b) {
      assert one == (a + (one + b))[|a|..|a| + |one|];
      assert two == (a + (two + b))[|a|..|a| + |two|];
    }
  }

  lemma CutLengths<B>(ms: seq<Message<B>>, j: nat)
    requires j <= |ms|
    ensures |Encode(ms[..j])| <= |Encode(ms)|
    ensures Encode(ms)[..|Encode(ms[..j])|] == Encode(ms[..j]) && Encode(ms)[|Encode(ms[..j])|..] == Encode(ms[j..])
  {
    CutEncoding(ms, j);
    CutWhole(Encode(ms[..j]), Encode(ms[j..]));
  }

  /** Replies sent behind the first p bytes of a file are read behind its first j records, and those as they are. */
  ghost predicate ReadsAround<B(!new)>(f: Framer<B>, records: seq<Message<B>>, replies: seq<Message<B>>, p: nat, j: nat)
    requires Lawful(f) && p <= |Encode(records)| && j <= |records|
  {
    var file := Encode(records);
    Reads(f, file[..p] + Encode(replies) + file[p..], records[..j] + replies + records[j..])
  }

  lemma {:induction false} InsertedAt<B(!new)>(f: Framer<B>, records: seq<Message<B>>, replies: seq<Message<B>>,
      p: nat, j: nat)
    requires Lawful(f) && AllWellFormed(f, replies) && AllWellFormed(f, records)
    requires p <= |Encode(records)| && j <= |records|
    ensures |Encode(records[..j])| <= |Encode(records)|
    ensures ReadsAround(f, records, replies, p, j)
       <==> Commute(Encode(replies), Between(records, p, j))
  {
    var file, middle, end := Encode(records), Encode(replies), |Encode(records[..j])|;
    var ms := records[..j] + replies + records[j..];
    CutLengths(records, j);
    assert AllWellFormed(f, ms) by {
      assert forall m <- records[..j] :: m in records;
      assert forall m <- records[j..] :: m in records;
    }
    ReadsIff(f, file[..p] + middle + file[p..], ms);
    EncodeAppend(records[..j] + replies, records[j..]);
    EncodeAppend(records[..j], replies);
    if p <= end {
      MovedInsertion(file, middle, p, end);
    } else {
      MovedInsertion(file, middle, end, p);
    }
  }

  /**
   Whole replies sent between two slices of a file: the reader reads some records, the replies, and the
   other records exactly if the replies commute with the bytes between the cut and the end of a record;
   at the end of a record they do.
   */
  lemma {:induction false} RepliesBetweenIff<B(!new)>(f: Framer<B>, records: seq<Message<B>>, replies: seq<Message<B>>,
      p: nat)
    requires Lawful(f) && AllWellFormed(f, replies) && AllWellFormed(f, records) && p <= |Encode(records)|
    ensures forall j :: 0 <= j <= |records| ==> |Encode(records[..j])| <= |Encode(records)|
    ensures (exists j :: 0 <= j <= |records| && ReadsAround(f, records, replies, p, j))
       <==> (exists j :: 0 <= j <= |records| && Commute(Encode(replies), Between(records, p, j)))
    ensures IsBoundary(records, p) ==>
              exists j :: 0 <= j <= |records| && Commute(Encode(replies), Between(records, p, j))
  {
    forall j | 0 <= j <= |records|
      ensures |Encode(records[..j])| <= |Encode(records)|
      ensures ReadsAround(f, records, replies, p, j)
         <==> Commute(Encode(replies), Between(records, p, j))
    {
      InsertedAt(f, records, replies, p, j);
    }
    if IsBoundary(records, p) {
      var j :| 0 <= j <= |records| && |Encode(records[..j])| == p;
      EmptyUnit(Encode(replies));
      assert Between(records, p, j) == [];
      assert Commute(Encode(replies), Between(records, p, j));
    }
  }

  /** A list that stops within replies followed by records has stored only records. */
  lemma {:induction false} StoredRecords(f: Framer<Byte>, got: seq<Message<Byte>>, replies: seq<Message<Byte>>,
      records: seq<Message<Byte>>)
    returns (k: nat)
    requires forall m <- replies :: !f.Journals(m.kind)
    requires forall m <- records :: f.Journals(m.kind)
    requires got <= replies + records
    ensures k <= |records| && Saved(f, got) == Encode(records[..k])
    ensures |got| == |replies| + |records| ==> k == |records|
  {
    if |got| <= |replies| {
      k := 0;
      assert forall m <- got :: m in replies;
      SavedWhole(f, got);
    } else {
      k := |got| - |replies|;
      assert got == replies + records[..k];
      SavedAppend(f, replies, records[..k]);
      SavedWhole(f, replies);
      assert forall m <- records[..k] :: m in records;
      SavedWhole(f, records[..k]);
    }
  }

  /** What a stream of replies and part of a journal file dispatches. */
  lemma {:induction false} ReplayFrames(f: Framer<Byte>, stream: seq<Byte>, replies: seq<Message<Byte>>,
      records: seq<Message<Byte>>, n: nat)
    requires Lawful(f) && AllWellFormed(f, replies) && AllWellFormed(f, records)
    requires n <= |Encode(records)| && stream == Encode(replies) + Encode(records)[..n]
    ensures Frames(f, stream) == replies + records[..WholeWithin(records, n)]
    ensures n == |Encode(records)| ==> records[..WholeWithin(records, n)] == records
  {
    FramesOfEncode(f, replies, Encode(records)[..n]);
    FramesOfPart(f, records, n);
    WholeWithinAll(records);
    assert records[..|records|] == records;
  }

  /**
   Any part of a stream of replies and the first n bytes of a journal: what it stores is a whole
   number of the file's records, in order, from its start; for all of the stream it is every record
   sent completely.
   */
  lemma {:induction false} ReplayedPart(f: Framer<Byte>, part: seq<Byte>, stream: seq<Byte>,
      replies: seq<Message<Byte>>, records: seq<Message<Byte>>, n: nat)
    returns (k: nat)
    requires Lawful(f)
    requires AllWellFormed(f, replies) && (forall m <- replies :: !f.Journals(m.kind))
    requires AllWellFormed(f, records) && (forall m <- records :: f.Journals(m.kind))
    requires n <= |Encode(records)| && stream == Encode(replies) + Encode(records)[..n]
    requires part <= stream
    ensures k <= WholeWithin(records, n) && Saved(f, Frames(f, part)) == Encode(records[..k])
    ensures part == stream ==> k == WholeWithin(records, n)
    ensures part == stream && n == |Encode(records)| ==> records[..k] == records
  {
    ReplayFrames(f, stream, replies, records, n);
    var count := WholeWithin(records, n);
    var whole := records[..count];
    assert forall m <- whole :: m in records;
    PrefixFrames(f, part, stream);
    k := StoredRecords(f, Frames(f, part), replies, whole);
    TakeTake(records, count, k);
  }

  /**
   Journal replay: after some replies, the first n bytes of a file of journal records are sent in
   any pieces. The stored journal is always a whole number of the file's records, in order, from its
   start; once drained it is every record that was sent completely, and for a complete playback the
   file itself.
   */
  lemma {:induction false} ReplayedJournal(f: Framer<Byte>, steps: seq<Step>, t: Link, replies: seq<Message<Byte>>,
      records: seq<Message<Byte>>, n: nat)
    returns (k: nat)
    requires Lawful(f) && Leads(f, IDLE, steps, t)
    requires AllWellFormed(f, replies) && (forall m <- replies :: !f.Journals(m.kind))
    requires AllWellFormed(f, records) && (forall m <- records :: f.Journals(m.kind))
    requires n <= |Encode(records)| && Requested(steps) == Encode(replies) + Encode(records)[..n]
    ensures k <= WholeWithin(records, n) && t.receiver.journal == Encode(records[..k])
    ensures Drained(t) ==> k == WholeWithin(records, n)
    ensures Drained(t) && n == |Encode(records)| ==> t.receiver.journal == Encode(records)
  {
    var delivered := RunHolds(f, steps, t);
    k := ReplayedPart(f, delivered, Requested(steps), replies, records, n);
  }
}
