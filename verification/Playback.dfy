/**
 A playback from end to end: the Player decides what send_data is called with, those calls are made on
 a real connection among any other calls, and the client at the other end keeps its journal.
 */
module Playback {
  import opened Buffers
  import opened Bytes
  import opened Channel
  import opened Delivery
  import opened Framing
  import opened PlaybackLoops
  import opened Protocol
  import opened Replay
  import opened Sequences
  import opened Transport

  /** Calls that move bytes and add none. */
  predicate OnlyTraffic(calls: seq<Call>) {
    forall i :: 0 <= i < |calls| ==> !calls[i].Enqueue?
  }

  /** These requests in this order, with some other calls before each of them and after the last. */
  function Weave(requests: seq<seq<Byte>>, traffic: seq<seq<Call>>): (calls: seq<Call>)
    decreases |requests|
  {
    var between := if traffic == [] then [] else traffic[0];
    var later := if traffic == [] then [] else traffic[1..];
    if requests == [] then between else between + [Enqueue(requests[0], true)] + Weave(requests[1..], later)
  }

  lemma {:induction false} HandedAppend(a: seq<Call>, b: seq<Call>)
    ensures Handed(a + b) == Handed(a) + Handed(b)
    decreases |b|
  {
    if b == [] {
      EmptyUnit(a);
      EmptyUnit(Handed(a));
    } else {
      var init, last := b[..|b| - 1], b[|b| - 1];
      HandedAppend(a, init);
      assert (a + b)[..|a + b| - 1] == a + init;
      AppendAssoc(Handed(a), Handed(init), Asked(last));
    }
  }

  lemma {:induction false} TrafficHandsNothing(calls: seq<Call>)
    requires OnlyTraffic(calls)
    ensures Handed(calls) == []
    decreases |calls|
  {
    if calls != [] {
      TrafficHandsNothing(calls[..|calls| - 1]);
    }
  }

  predicate AllTraffic(traffic: seq<seq<Call>>) {
    forall i :: 0 <= i < |traffic| ==> OnlyTraffic(traffic[i])
  }

  /** Whatever the traffic between them, the requests are handed over in order, and nothing else is. */
  lemma {:induction false} WeaveHands(requests: seq<seq<Byte>>, traffic: seq<seq<Call>>)
    requires AllTraffic(traffic)
    ensures Handed(Weave(requests, traffic)) == Concat(requests)
    decreases |requests|
  {
    var between := if traffic == [] then [] else traffic[0];
    var later := if traffic == [] then [] else traffic[1..];
    TrafficHandsNothing(between);
    if requests != [] {
      var next := [Enqueue(requests[0], true)];
      WeaveHands(requests[1..], later);
      HandedAppend(between + next, Weave(requests[1..], later));
      HandedAppend(between, next);
      assert next[..0] == [] && Handed(next) == Handed([]) + requests[0];
      EmptyUnit(requests[0]);
    }
  }

  /** The calls that add no request. */
  function Others(calls: seq<Call>): seq<Call> {
    if calls == [] then [] else (if calls[0].Enqueue? then [] else [calls[0]]) + Others(calls[1..])
  }

  lemma {:induction false} OthersAppend(a: seq<Call>, b: seq<Call>)
    ensures Others(a + b) == Others(a) + Others(b)
  {
    if a == [] {
      assert a + b == b;
    } else {
      ConsAppend(a, b);
      OthersAppend(a[1..], b);
      AppendAssoc(if a[0].Enqueue? then [] else [a[0]], Others(a[1..]), Others(b));
    }
  }

  lemma {:induction false} OthersOfTraffic(calls: seq<Call>)
    requires OnlyTraffic(calls)
    ensures Others(calls) == calls
  {
    if calls != [] {
      OthersOfTraffic(calls[1..]);
    }
  }

  /** And the traffic is all made, in order, as far as there are requests to put it between. */
  lemma {:induction false} WeaveTraffic(requests: seq<seq<Byte>>, traffic: seq<seq<Call>>)
    requires AllTraffic(traffic) && |traffic| <= |requests| + 1
    ensures Others(Weave(requests, traffic)) == Concat(traffic)
    decreases |requests|
  {
    var between := if traffic == [] then [] else traffic[0];
    var later := if traffic == [] then [] else traffic[1..];
    OthersOfTraffic(between);
    if requests == [] {
      assert later == [];
      EmptyUnit(between);
    } else {
      var next := [Enqueue(requests[0], true)];
      WeaveTraffic(requests[1..], later);
      OthersAppend(between + next, Weave(requests[1..], later));
      OthersAppend(between, next);
      assert Others(next) == [] by { assert next[1..] == []; }
      EmptyUnit(between);
    }
  }

  /** Every call of the weaving is a call of the traffic or hands over one of the requests. */
  lemma {:induction false} WeaveMembers(requests: seq<seq<Byte>>, traffic: seq<seq<Call>>, call: Call)
    requires call in Weave(requests, traffic)
    ensures (exists i :: 0 <= i < |traffic| && call in traffic[i]) || (call.Enqueue? && call.request in requests)
    decreases |requests|
  {
    var between := if traffic == [] then [] else traffic[0];
    var later := if traffic == [] then [] else traffic[1..];
    if requests != [] && call !in between {
      var next := Enqueue(requests[0], true);
      if call == next {
        assert requests[0] in requests;
      } else {
        assert call in Weave(requests[1..], later);
        WeaveMembers(requests[1..], later, call);
        assert forall r <- requests[1..] :: r in requests;
        if i :| 0 <= i < |later| && call in later[i] {
          assert later[i] == traffic[i + 1];
        }
      }
    }
  }

  lemma WeaveReal(requests: seq<seq<Byte>>, traffic: seq<seq<Call>>)
    requires AllTraffic(traffic) && (forall i :: 0 <= i < |traffic| ==> RealCalls(traffic[i]))
    ensures RealCalls(Weave(requests, traffic))
    ensures [] !in requests ==> !HasEmpty(Weave(requests, traffic))
  {
    var calls := Weave(requests, traffic);
    forall n | 0 <= n < |calls|
      ensures RealCall(calls[n]) && (calls[n].Enqueue? ==> calls[n].request in requests)
    {
      WeaveMembers(requests, traffic, calls[n]);
    }
  }

  lemma WeaveBreaks(requests: seq<seq<Byte>>, traffic: seq<seq<Call>>)
    requires HasBreak(Weave(requests, traffic))
    ensures exists i :: 0 <= i < |traffic| && HasBreak(traffic[i])
  {
    var calls := Weave(requests, traffic);
    var n :| 0 <= n < |calls| && Breaks(calls[n]);
    WeaveMembers(requests, traffic, calls[n]);
    var i :| 0 <= i < |traffic| && calls[n] in traffic[i];
    var m :| 0 <= m < |traffic[i]| && traffic[i][m] == calls[n];
  }

  // ---------------------------------------------------------------- the playback

  /** One send_data call for each reply. */
  function Bodies(ms: seq<Message<Byte>>): seq<seq<Byte>> {
    if ms == [] then [] else [ms[0].body] + Bodies(ms[1..])
  }

  lemma {:induction false} BodiesMeans(ms: seq<Message<Byte>>)
    ensures Concat(Bodies(ms)) == Encode(ms)
    ensures (forall m <- ms :: m.body != []) ==> [] !in Bodies(ms)
  {
    if ms != [] {
      BodiesMeans(ms[1..]);
      assert ms[0] in ms && forall m <- ms[1..] :: m in ms;
    }
  }

  /** What the client's end of a playback is: the replies it got before, and the records of the file. */
  ghost predicate IsJournal(replies: seq<Message<Byte>>, records: seq<Message<Byte>>) {
    && AllWellFormed(CLIENT, replies) && (forall m <- replies :: IsReply(m.kind))
    && AllWellFormed(CLIENT, records) && (forall m <- records :: !IsReply(m.kind))
  }

  lemma DifferAt<B>(a: seq<B>, b: seq<B>, n: nat)
    requires n < |a + b| && (a + b)[n] != (b + a)[n]
    ensures !Commute(a, b)
  {
  }

  lemma EncodeOne(m: Message<Byte>)
    ensures Encode([m]) == m.body
  {
    EmptyUnit(m.body);
  }

  /** Cut behind its length field, a record of type 99 is torn by a login reply of the same length. */
  lemma {:induction false} TornRecord(records: seq<Message<Byte>>, replies: seq<Message<Byte>>)
    requires |records| == 1 && |replies| == 1 && Lawful(CLIENT)
    requires AllWellFormed(CLIENT, replies) && AllWellFormed(CLIENT, records)
    requires |records[0].body| == |replies[0].body| == 12
    requires records[0].body[3] == replies[0].body[3] && records[0].body[7] != replies[0].body[7]
    requires replies[0].body[3] != replies[0].body[7] && records[0].body[7] != replies[0].body[3]
    ensures Encode(records) == records[0].body && Encode(replies) == replies[0].body
    ensures forall j :: 0 <= j <= |records| ==> !ReadsAround(CLIENT, records, replies, 4, j)
  {
    var record, reply := records[0].body, replies[0].body;
    EncodeOne(records[0]);
    EncodeOne(replies[0]);
    assert records == [records[0]] && replies == [replies[0]];
    DifferAt(reply, record[..4], 7);
    DifferAt(reply, record[4..], 3);
    forall j | 0 <= j <= |records| ensures !ReadsAround(CLIENT, records, replies, 4, j) {
      InsertedAt(CLIENT, records, replies, 4, j);
      assert records[..0] == [] && records[..1] == records;
      assert Between(records, 4, j) == if j == 0 then record[..4] else record[4..];
    }
  }

  lemma TornBytes(record: seq<Byte>, reply: seq<Byte>)
    requires record == QueryReply(99, 0) && reply == LoginReply(FEED_LOGIN_TYPE, 0, 0)
    ensures |record| == |reply| == 12
    ensures record[3] == reply[3] == 8 && record[7] == 99 && reply[7] == 9
  {
    WireIsBigEndian(0, 8);
    WireIsBigEndian(0, 99);
    WireIsBigEndian(0, FEED_LOGIN_TYPE);
  }

  /** A journal record and a login reply as the server builds it. */
  lemma TornPair() returns (record: Message<Byte>, reply: Message<Byte>)
    ensures record.kind == 99 && reply.kind == FEED_LOGIN
    ensures WellFormed(CLIENT, record) && WellFormed(CLIENT, reply)
    ensures |record.body| == |reply.body| == 12
    ensures record.body[3] == reply.body[3] == 8 && record.body[7] == 99 && reply.body[7] == 9
  {
    record, reply := Message(99, QueryReply(99, 0)), Message(FEED_LOGIN, LoginReply(FEED_LOGIN_TYPE, 0, 0));
    RepliesAreFrames(99, 0, 0, 0);
    RepliesAreFrames(FEED_LOGIN_TYPE, 0, 0, 0);
    TornBytes(record.body, reply.body);
  }

  /** A reply that another thread queues between two slices can cut a record, and then is not read at all. */
  lemma {:induction false} ReplyCutsRecord() returns (records: seq<Message<Byte>>, replies: seq<Message<Byte>>, p: nat)
    ensures IsJournal(replies, records) && p <= |Encode(records)| && Lawful(CLIENT)
    ensures forall j :: 0 <= j <= |records| ==> !ReadsAround(CLIENT, records, replies, p, j)
  {
    FramersLawful();
    var record, reply := TornPair();
    records, replies, p := [record], [reply], 4;
    TornRecord(records, replies);
  }

  /** Replies that are not journalled, and records that are. */
  ghost predicate IsPlayback(f: Framer<Byte>, replies: seq<Message<Byte>>, records: seq<Message<Byte>>) {
    && AllWellFormed(f, replies) && (forall m <- replies :: !f.Journals(m.kind))
    && AllWellFormed(f, records) && (forall m <- records :: f.Journals(m.kind))
  }

  lemma JournalIsPlayback(replies: seq<Message<Byte>>, records: seq<Message<Byte>>)
    requires IsJournal(replies, records)
    ensures IsPlayback(CLIENT, replies, records) && Lawful(CLIENT)
    ensures forall m <- replies :: m.body != []
  {
    FramersLawful();
    assert forall kind: nat :: CLIENT.Journals(kind) == !IsReply(kind);
    forall m <- replies ensures m.body != [] {
      assert WellFormed(CLIENT, m);
    }
  }

  // ---------------------------------------------------------------- one window of a file

  lemma WindowOf(records: seq<Message<Byte>>, own: seq<Message<Byte>>, j: nat, p: nat, q: nat, n: nat)
    requires j <= |records| && own == records[j..] && n == q - p
    requires |Encode(records[..j])| == p <= q <= |Encode(records)|
    ensures n <= |Encode(own)| && Encode(records)[p..q] == Encode(own)[..n]
    ensures Encode(records)[p..] == Encode(own) && (q == |Encode(records)| ==> n == |Encode(own)|)
  {
    var file := Encode(records);
    CutLengths(records, j);
    assert file[p..][..n] == file[p..q];
  }

  lemma OwnRecords(f: Framer<Byte>, replies: seq<Message<Byte>>, records: seq<Message<Byte>>, own: seq<Message<Byte>>,
      j: nat)
    requires IsPlayback(f, replies, records) && j <= |records| && own == records[j..]
    ensures IsPlayback(f, replies, own) && forall m <- replies + own :: m in replies + records
  {
    assert forall m <- own :: m in records;
  }

  /** What is stored of a part of the first n bytes of some records, behind some replies. */
  lemma {:induction false} FirstStores(f: Framer<Byte>, replies: seq<Message<Byte>>, own: seq<Message<Byte>>, n: nat,
      window: seq<Byte>, part: seq<Byte>)
    returns (k: nat)
    requires Lawful(f) && IsPlayback(f, replies, own)
    requires n <= |Encode(own)| && window == Encode(own)[..n] && part <= Encode(replies) + window
    ensures k <= |own| && Saved(f, Frames(f, part)) == Encode(own[..k])
    ensures part == Encode(replies) + window ==> k == WholeWithin(own, n)
    ensures part == Encode(replies) + window && n == |Encode(own)| ==> own[..k] == own
  {
    k := ReplayedPart(f, part, Encode(replies) + window, replies, own, n);
  }

  /**
   The journal of a client that was sent the bytes p to q of a file, as far as they have arrived; all
   tells whether that is all of them. It holds k records, from the j-th on, which begins at p.
   */
  ghost predicate StoredFrom(r: Receiver, records: seq<Message<Byte>>, p: nat, q: nat, j: nat, k: nat, all: bool)
    requires p <= q <= |Encode(records)|
  {
    && j <= j + k <= |records| && |Encode(records[..j])| == p && r.journal == Encode(records[j..j + k])
    && (all ==> k == WholeWithin(records[j..], q - p))
    && (all && q == |Encode(records)| ==> r.journal == Encode(records)[p..])
  }

  /** A part of a window that begins at a record, behind some replies: what is stored. */
  lemma {:induction false} WindowStores(f: Framer<Byte>, replies: seq<Message<Byte>>, records: seq<Message<Byte>>,
      p: nat, q: nat, window: seq<Byte>, part: seq<Byte>, r: Receiver, all: bool)
    returns (j: nat, k: nat)
    requires Lawful(f) && IsPlayback(f, replies, records)
    requires p <= q <= |Encode(records)| && window == Encode(records)[p..q] && IsBoundary(records, p)
    requires part <= Encode(replies) + window && r == Parsed(f, part)
    requires all ==> part == Encode(replies) + window
    ensures StoredFrom(r, records, p, q, j, k, all)
  {
    j :| 0 <= j <= |records| && |Encode(records[..j])| == p;
    var own, n := records[j..], q - p;
    WindowOf(records, own, j, p, q, n);
    OwnRecords(f, replies, records, own, j);
    k := FirstStores(f, replies, own, n, window, part);
    CutTwice(records, j, k);
  }

  /** A part of a stream of messages that all fit the buffer never fills it. */
  lemma {:induction false} PartFits(f: Framer<Byte>, ms: seq<Message<Byte>>, stream: seq<Byte>, bufSize: nat)
    requires Lawful(f) && AllWellFormed(f, ms) && stream <= Encode(ms) && AllFit(ms, bufSize) && bufSize > 0
    ensures NeverFull(f, stream, bufSize)
  {
    EmptyUnit(Encode(ms));
    NeverFullIff(f, ms, [], bufSize);
    NeverFullPrefix(f, stream, Encode(ms), bufSize);
  }

  /** A window that begins at a record never fills a buffer that all frames fit. */
  lemma {:induction false} WindowFits(f: Framer<Byte>, replies: seq<Message<Byte>>, records: seq<Message<Byte>>,
      p: nat, q: nat, bufSize: nat)
    requires Lawful(f) && IsPlayback(f, replies, records)
    requires p <= q <= |Encode(records)| && IsBoundary(records, p)
    requires AllFit(replies + records, bufSize) && bufSize > 0
    ensures NeverFull(f, Encode(replies) + Encode(records)[p..q], bufSize)
  {
    var j :| 0 <= j <= |records| && |Encode(records[..j])| == p;
    var own, n := records[j..], q - p;
    WindowOf(records, own, j, p, q, n);
    OwnRecords(f, replies, records, own, j);
    EncodeAppend(replies, own);
    PartFits(f, replies + own, Encode(replies) + Encode(own)[..n], bufSize);
  }

  /** The client has handled its replies and then records of the file up to its end, and nothing is left. */
  ghost predicate Aligned(r: Receiver, replies: seq<Message<Byte>>, records: seq<Message<Byte>>) {
    r.pending == [] && exists i :: 0 <= i <= |records| && r.dispatched == replies + records[i..]
  }

  lemma {:induction false} AlignedIff(f: Framer<Byte>, replies: seq<Message<Byte>>, records: seq<Message<Byte>>,
      p: nat, r: Receiver)
    requires Lawful(f) && IsPlayback(f, replies, records) && p <= |Encode(records)|
    requires r == Parsed(f, Encode(replies) + Encode(records)[p..])
    ensures Aligned(r, replies, records) <==> IsBoundary(records, p)
  {
    var stream := Encode(replies) + Encode(records)[p..];
    JoinsAlignedIff(f, replies, records, p);
    if Aligned(r, replies, records) {
      var i :| 0 <= i <= |records| && r.dispatched == replies + records[i..];
      assert Reads(f, stream, replies + records[i..]);
    }
    if IsBoundary(records, p) {
      var i :| 0 <= i <= |records| && Reads(f, stream, replies + records[i..]);
      assert r.dispatched == replies + records[i..];
    }
  }

  /**
   A window that begins at a record is stored as records; one that ends with the file is read as records
   only exactly if it begins at one.
   */
  ghost predicate KeptJournal(r: Receiver, replies: seq<Message<Byte>>, records: seq<Message<Byte>>, p: nat, q: nat,
      j: nat, k: nat, all: bool)
    requires p <= q <= |Encode(records)|
  {
    && (IsBoundary(records, p) ==> StoredFrom(r, records, p, q, j, k, all))
    && (all && q == |Encode(records)| ==> (Aligned(r, replies, records) <==> IsBoundary(records, p)))
  }

  lemma {:induction false} WindowArrives(f: Framer<Byte>, replies: seq<Message<Byte>>, records: seq<Message<Byte>>,
      p: nat, q: nat, window: seq<Byte>, part: seq<Byte>, r: Receiver, all: bool)
    returns (j: nat, k: nat)
    requires Lawful(f) && IsPlayback(f, replies, records)
    requires p <= q <= |Encode(records)| && window == Encode(records)[p..q]
    requires part <= Encode(replies) + window && r == Parsed(f, part)
    requires all ==> part == Encode(replies) + window
    ensures KeptJournal(r, replies, records, p, q, j, k, all)
  {
    j, k := 0, 0;
    if IsBoundary(records, p) {
      j, k := WindowStores(f, replies, records, p, q, window, part, r, all);
    }
    if all && q == |Encode(records)| {
      assert window == Encode(records)[p..];
      AlignedIff(f, replies, records, p, r);
    }
  }

  lemma BoundaryAtStart(records: seq<Message<Byte>>)
    ensures IsBoundary(records, 0)
  {
    assert records[..0] == [] && |Encode(records[..0])| == 0;
  }

  /** The client is in the client set in every turn. */
  ghost predicate Faithful(fd: int, records: seq<Message<Byte>>, rate: int, turns: seq<Turn>) {
    forall s <- Schedule(Encode(records), rate, turns, 0) :: fd in s.clients
  }

  /** What a playback from the start has queued for a descriptor, and where each request went. */
  lemma SentFromFresh(before: Books, after: Books, actual: seq<Sending>, rate: int, used: nat, fd: int)
    requires Sent(before, after, actual, rate, used)
    requires before.past == 0 && before.world == before.script && before.requests == map[]
    ensures BytesOf(RequestsOf(after.requests, fd)) == SentTo(fd, actual)
    ensures InTurn(after.script, after.past, fd, RequestsOf(after.requests, fd))
    ensures forall request <- RequestsOf(after.requests, fd) :: request.bytes != []
  {
    EmptyUnit(SentTo(fd, actual));
    assert Got(after.requests, fd) == Got(before.requests, fd) + SentTo(fd, actual);
    assert before.script[0..] == before.script;
    assert NoEmpty(before.requests) && Logged(before);
  }

  /**
   The requests of a playback that went to one connection, behind some replies, as they are handed to it
   among any traffic: a window of what its descriptor is sent, all of that if nobody else had it.
   */
  method PlayerCalls(player: Player, fd: int, conn: nat, replies: seq<Message<Byte>>, file: seq<Byte>, rate: int,
      turns: seq<Turn>, traffic: seq<seq<Call>>)
    returns (finished: bool, calls: seq<Call>, ghost sent: seq<Byte>, ghost p: nat, ghost q: nat)
    requires player.Fresh() && NeverReused(player.script, fd)
    requires forall t <- turns :: Distinct(t.clients)
    requires forall m <- replies :: m.body != []
    requires AllTraffic(traffic) && (forall i :: 0 <= i < |traffic| ==> RealCalls(traffic[i]))
    modifies player
    ensures sent <= SentTo(fd, Schedule(file, rate, turns, 0))
    ensures finished ==> sent == SentTo(fd, Schedule(file, rate, turns, 0))
    ensures
      var schedule := Schedule(file, rate, turns, 0);
      AllSteady(schedule, rate, player.script) && |player.script| >= Work(schedule) ==> finished
    ensures p <= q <= |sent| && Handed(calls) == Encode(replies) + sent[p..q]
    ensures Keeps(player.script, fd, conn) ==> p == 0 && q == |sent|
    ensures RealCalls(calls) && !HasEmpty(calls)
    ensures HasBreak(calls) ==> exists i :: 0 <= i < |traffic| && HasBreak(traffic[i])
  {
    ghost var before, used, actual := player.Now(), 0, [];
    finished, used, actual := player.SendJnlFile(file, rate, turns);
    var requests := RequestsOf(player.requests, fd);
    sent := SentTo(fd, actual);
    SentFromFresh(before, player.Now(), actual, rate, used, fd);
    p, q := BytesWindow(player.script, player.past, fd, requests, conn);
    calls := WeaveOwn(replies, requests, conn, traffic);
  }

  /** The replies and the connection's own requests, woven into the traffic. */
  method WeaveOwn(replies: seq<Message<Byte>>, requests: seq<Request>, conn: nat, traffic: seq<seq<Call>>)
    returns (calls: seq<Call>)
    requires forall request <- requests :: request.bytes != []
    requires forall m <- replies :: m.body != []
    requires AllTraffic(traffic) && (forall i :: 0 <= i < |traffic| ==> RealCalls(traffic[i]))
    ensures Handed(calls) == Encode(replies) + BytesOf(For(requests, conn))
    ensures RealCalls(calls) && !HasEmpty(calls)
    ensures HasBreak(calls) ==> exists i :: 0 <= i < |traffic| && HasBreak(traffic[i])
  {
    var own := For(requests, conn);
    var all := Bodies(replies) + Payloads(own);
    calls := Weave(all, traffic);
    ForMembers(requests, conn);
    BodiesMeans(replies);
    PayloadsMeans(own);
    ConcatAppend(Bodies(replies), Payloads(own));
    WeaveHands(all, traffic);
    WeaveReal(all, traffic);
    if HasBreak(calls) {
      WeaveBreaks(all, traffic);
    }
  }

  /** What the descriptor is sent is a first part of the file, and the file after an undisturbed playback. */
  lemma {:induction false} SentOfFile(fd: int, records: seq<Message<Byte>>, rate: int, turns: seq<Turn>, finished: bool,
      sent: seq<Byte>)
    requires Faithful(fd, records, rate, turns)
    requires sent <= SentTo(fd, Schedule(Encode(records), rate, turns, 0))
    requires finished ==> sent == SentTo(fd, Schedule(Encode(records), rate, turns, 0))
    ensures sent <= Encode(records)
    ensures finished && Undisturbed(fd, turns) && |turns| >= |Encode(records)| ==> |sent| == |Encode(records)|
  {
    var file := Encode(records);
    FaithfulClient(fd, file, rate, turns, 0);
    assert file[0..] == file;
    if Undisturbed(fd, turns) && |turns| >= |file| {
      CompletePlayback(fd, file, rate, turns, 0);
    }
  }

  /** What a playback amounts to for the client of one connection. */
  lemma {:induction false} PlaybackEnds(f: Framer<Byte>, replies: seq<Message<Byte>>, records: seq<Message<Byte>>,
      sent: seq<Byte>, p: nat, q: nat, handed: seq<Byte>, delivered: seq<Byte>, bufSize: nat, r: Receiver, all: bool)
    returns (j: nat, k: nat)
    requires Lawful(f) && IsPlayback(f, replies, records) && bufSize > 0
    requires p <= q <= |sent| && sent <= Encode(records) && handed == Encode(replies) + sent[p..q]
    requires delivered <= handed && (all ==> delivered == handed) && r == Parsed(f, delivered)
    ensures KeptJournal(r, replies, records, p, q, j, k, all)
    ensures AllFit(replies + records, bufSize) && IsBoundary(records, p) ==> NeverFull(f, handed, bufSize)
  {
    var window := sent[p..q];
    assert window == Encode(records)[p..q];
    j, k := WindowArrives(f, replies, records, p, q, window, delivered, r, all);
    if AllFit(replies + records, bufSize) && IsBoundary(records, p) {
      WindowFits(f, replies, records, p, q, bufSize);
    }
  }

  /**
   Playback of a journal file to one of its clients, by the server's loops, two connections and the
   client's loop: reads of any size, slices, other clients that come and go, partial writes and reads,
   cancellation. The connection may be given the descriptor late and lose it early; it gets the bytes p
   to q of the playback. If p is the end of a record its journal holds whole records from there on, when
   everything handed to it has arrived all that were sent completely; at the end of the file it has read
   records only exactly if p is the end of a record. If nobody else has the descriptor p is 0, and after
   an undisturbed playback the journal is the file. Nothing else is sent to the connection meanwhile;
   RepliesBetweenIff tells what a reply between two slices does.
   */
  method PlayToClient(player: Player, fd: int, conn: nat, a: Connection, b: Connection, replies: seq<Message<Byte>>,
      records: seq<Message<Byte>>, rate: int, turns: seq<Turn>, traffic: seq<seq<Call>>)
    returns (finished: bool, network: seq<Byte>, closed: bool, ghost sent: seq<Byte>, ghost p: nat, ghost q: nat,
      ghost j: nat, ghost k: nat)
    requires Ready(a, b) && a.unsent == [] && b.State() == IDLE.receiver && b.framer == CLIENT && b.bufSize > 0
    requires player.Fresh() && NeverReused(player.script, fd)
    requires IsJournal(replies, records) && Faithful(fd, records, rate, turns)
    requires forall t <- turns :: Distinct(t.clients)
    requires AllTraffic(traffic) && (forall i :: 0 <= i < |traffic| ==> RealCalls(traffic[i]))
    modifies player, a, b, b.rBuf
    ensures Ready(a, b)
    ensures p <= q <= |sent| <= |Encode(records)|
    ensures Keeps(player.script, fd, conn) ==> p == 0 && q == |sent| && IsBoundary(records, p)
    ensures KeptJournal(b.State(), replies, records, p, q, j, k, !closed && network == [] && Concat(a.unsent) == [])
    ensures finished && Undisturbed(fd, turns) && |turns| >= |Encode(records)| ==> |sent| == |Encode(records)|
    ensures AllFit(replies + records, b.bufSize) && IsBoundary(records, p) ==> |b.Pending()| < b.bufSize
    ensures closed ==> exists i :: 0 <= i < |traffic| && HasBreak(traffic[i])
  {
    JournalIsPlayback(replies, records);
    BoundaryAtStart(records);
    var calls;
    finished, calls, sent, p, q := PlayerCalls(player, fd, conn, replies, Encode(records), rate, turns, traffic);
    ghost var handed, delivered := Handed(calls), [];
    network, closed, delivered := Drive(a, b, calls);
    ghost var all := !closed && network == [] && Concat(a.unsent) == [];
    SentOfFile(fd, records, rate, turns, finished, sent);
    j, k := PlaybackEnds(b.framer, replies, records, sent, p, q, handed, delivered, b.bufSize, b.State(), all);
  }

  /** What a whole playback leaves once all of it has been received. */
  lemma {:induction false} WholeStored(f: Framer<Byte>, replies: seq<Message<Byte>>, records: seq<Message<Byte>>,
      sent: seq<Byte>, p: nat, q: nat, handed: seq<Byte>, bufSize: nat, r: Receiver)
    requires Lawful(f) && IsPlayback(f, replies, records) && bufSize > 0
    requires p == 0 && q == |sent| && sent <= Encode(records) && handed == Encode(replies) + sent[p..q]
    requires r == Parsed(f, handed)
    ensures |sent| == |Encode(records)| ==> r.journal == Encode(records)
  {
    BoundaryAtStart(records);
    var j, k := PlaybackEnds(f, replies, records, sent, p, q, handed, handed, bufSize, r, true);
    assert Encode(records)[0..] == Encode(records);
  }

  lemma {:induction false} WholeFits(f: Framer<Byte>, replies: seq<Message<Byte>>, records: seq<Message<Byte>>,
      sent: seq<Byte>, p: nat, q: nat, handed: seq<Byte>, bufSize: nat)
    requires Lawful(f) && IsPlayback(f, replies, records) && bufSize > 0 && AllFit(replies + records, bufSize)
    requires p == 0 && q == |sent| && sent <= Encode(records) && handed == Encode(replies) + sent[p..q]
    ensures NeverFull(f, handed, bufSize)
  {
    BoundaryAtStart(records);
    assert sent[p..q] == Encode(records)[p..q];
    WindowFits(f, replies, records, p, q, bufSize);
  }

  /**
   The same for a client that nothing happens to: it keeps its connection, the kernel reports no failure and
   all frames fit its buffer. Once the loops are done and the sockets have let everything through, which
   nothing prevents, its journal is the file.
   */
  method PlayWholeFile(player: Player, fd: int, conn: nat, a: Connection, b: Connection, replies: seq<Message<Byte>>,
      records: seq<Message<Byte>>, rate: int, turns: seq<Turn>, traffic: seq<seq<Call>>)
    returns (finished: bool, closed: bool)
    requires Ready(a, b) && a.unsent == [] && b.State() == IDLE.receiver && b.framer == CLIENT && b.bufSize > 0
    requires player.Fresh() && NeverReused(player.script, fd) && Keeps(player.script, fd, conn)
    requires IsJournal(replies, records) && AllFit(replies + records, b.bufSize)
    requires Faithful(fd, records, rate, turns) && Undisturbed(fd, turns) && |turns| >= |Encode(records)|
    requires forall t <- turns :: Distinct(t.clients)
    requires AllTraffic(traffic) && (forall i :: 0 <= i < |traffic| ==> RealCalls(traffic[i]) && !HasBreak(traffic[i]))
    modifies player, a, b, b.rBuf
    ensures Ready(a, b) && !closed
    ensures finished ==> b.journal == Encode(records)
    ensures
      var schedule := Schedule(Encode(records), rate, turns, 0);
      AllSteady(schedule, rate, player.script) && |player.script| >= Work(schedule) ==> finished
  {
    JournalIsPlayback(replies, records);
    var calls;
    ghost var sent, p, q;
    finished, calls, sent, p, q := PlayerCalls(player, fd, conn, replies, Encode(records), rate, turns, traffic);
    SentOfFile(fd, records, rate, turns, finished, sent);
    WholeFits(b.framer, replies, records, sent, p, q, Handed(calls), b.bufSize);
    closed := DriveToEnd(a, b, calls);
    WholeStored(b.framer, replies, records, sent, p, q, Handed(calls), b.bufSize, b.State());
  }
}
