/**
 One connection of EpollNetTcp: the sliding receive buffer of handle_read, the request queue of
 send_data and handle_write, and the process_data loop, which is given by a framer.
 */
module Transport {
  import opened Buffers
  import opened Bytes
  import opened Framing
  import opened Sequences
  import opened Sockets

  // ---------------------------------------------------------------- specification

  /** The receiving state that matters to the peer: undispatched bytes, handler calls, stored bytes. */
  datatype Receiver = Receiver(pending: seq<Byte>, dispatched: seq<Message<Byte>>, journal: seq<Byte>)

  /** One message off the front. */
  function TakeHead(f: Framer<Byte>, r: Receiver): Receiver
    requires Lawful(f) && f.Size(r.pending) > 0
  {
    var n, kind := f.Size(r.pending), f.Kind(r.pending);
    var body := r.pending[..n];
    Receiver(r.pending[n..], r.dispatched + [Message(kind, body)], r.journal + if f.Journals(kind) then body else [])
  }

  /** One pass of the process_data loop. */
  function Process(f: Framer<Byte>, r: Receiver): (after: Receiver)
    requires Lawful(f)
    ensures f.Size(after.pending) == 0 && |after.pending| <= |r.pending|
    decreases |r.pending|
  {
    if f.Size(r.pending) == 0 then r else Process(f, TakeHead(f, r))
  }

  function Receive(f: Framer<Byte>, r: Receiver, got: seq<Byte>): Receiver
    requires Lawful(f)
  {
    Process(f, r.(pending := r.pending + got))
  }

  /** The loop computes what the theory of framing says: dispatched messages, stored bytes, leftover. */
  lemma {:induction false} ProcessMeans(f: Framer<Byte>, r: Receiver)
    requires Lawful(f)
    ensures Process(f, r).pending == Rest(f, r.pending)
    ensures Process(f, r).dispatched == r.dispatched + Frames(f, r.pending)
    ensures Process(f, r).journal == r.journal + Saved(f, Frames(f, r.pending))
    decreases |r.pending|
  {
    var n := f.Size(r.pending);
    if n == 0 {
      assert r.dispatched + [] == r.dispatched && r.journal + [] == r.journal;
    } else {
      var m, next := Message(f.Kind(r.pending), r.pending[..n]), TakeHead(f, r);
      ProcessMeans(f, next);
      AppendAssoc(r.dispatched, [m], Frames(f, next.pending));
      AppendAssoc(r.journal, if f.Journals(m.kind) then m.body else [], Saved(f, Frames(f, next.pending)));
      assert ([m] + Frames(f, next.pending))[1..] == Frames(f, next.pending);
    }
  }

  /** Receiving in two instalments is receiving at once: how the stream was cut into reads is invisible. */
  lemma ReceiveSplit(f: Framer<Byte>, r: Receiver, a: seq<Byte>, b: seq<Byte>)
    requires Lawful(f)
    ensures Receive(f, r, a + b) == Receive(f, Receive(f, r, a), b)
  {
    var mid := Receive(f, r, a);
    AppendAssoc(r.pending, a, b);
    ProcessMeans(f, r.(pending := r.pending + (a + b)));
    ProcessMeans(f, r.(pending := r.pending + a));
    ProcessMeans(f, mid.(pending := mid.pending + b));
    FramesSplit(f, r.pending + a, b);
    var first, second := Frames(f, r.pending + a), Frames(f, mid.pending + b);
    SavedAppend(f, first, second);
    AppendAssoc(r.dispatched, first, second);
    AppendAssoc(r.journal, Saved(f, first), Saved(f, second));
  }

  lemma ReceiveNothing(f: Framer<Byte>, r: Receiver)
    requires Lawful(f) && f.Size(r.pending) == 0
    ensures Receive(f, r, []) == r
  {
    assert r.pending + [] == r.pending;
  }

  /** The queue after n bytes have been written from its front. */
  function Transmit(slices: seq<seq<Byte>>, n: nat): seq<seq<Byte>>
    requires n <= |Concat(slices)|
  {
    if n == 0 then slices
    else if n < |slices[0]| then [slices[0][n..]] + slices[1..]
    else Transmit(slices[1..], n - |slices[0]|)
  }

  /** Writing takes bytes off the front and keeps the rest in order. */
  lemma {:induction false} TransmitConserves(slices: seq<seq<Byte>>, n: nat)
    requires n <= |Concat(slices)|
    ensures Concat(Transmit(slices, n)) == Concat(slices)[n..]
  {
    if n > 0 {
      if n < |slices[0]| {
        CutAppend(slices[0], Concat(slices[1..]), n);
        assert ([slices[0][n..]] + slices[1..])[1..] == slices[1..];
      } else {
        TransmitConserves(slices[1..], n - |slices[0]|);
      }
    }
  }

  lemma {:induction false} TransmitSplit(slices: seq<seq<Byte>>, a: nat, b: nat)
    requires a + b <= |Concat(slices)|
    ensures |Concat(Transmit(slices, a))| == |Concat(slices)| - a
    ensures Transmit(slices, a + b) == Transmit(Transmit(slices, a), b)
  {
    TransmitConserves(slices, a);
    if a > 0 && b > 0 {
      if a < |slices[0]| {
        var front := [slices[0][a..]] + slices[1..];
        assert front[1..] == slices[1..];
        assert slices[0][a..][|slices[0]| - a..] == [];
      } else {
        TransmitSplit(slices[1..], a - |slices[0]|, b);
      }
    }
  }

  /** Bytes that can be written before an empty request stands at the front of the queue. */
  function Sendable(slices: seq<seq<Byte>>): seq<Byte> {
    if slices == [] || slices[0] == [] then [] else slices[0] + Sendable(slices[1..])
  }

  lemma {:induction false} SendableWhole(slices: seq<seq<Byte>>)
    ensures |Sendable(slices)| <= |Concat(slices)|
    ensures [] !in slices ==> Sendable(slices) == Concat(slices)
  {
    if slices != [] {
      assert slices[0] in slices;
      SendableWhole(slices[1..]);
    }
  }

  /** One write takes bytes of the head request only. */
  lemma TransmitHead(slices: seq<seq<Byte>>, n: nat)
    requires slices != [] && 0 < n <= |slices[0]|
    ensures n <= |Concat(slices)| && Concat(slices)[..n] == slices[0][..n]
    ensures Transmit(slices, n) == (if n == |slices[0]| then [] else [slices[0][n..]]) + slices[1..]
    ensures |Sendable(slices)| == n + |Sendable(Transmit(slices, n))|
    ensures [] in slices <==> [] in Transmit(slices, n)
  {
    CutAppend(slices[0], Concat(slices[1..]), n);
    var left := (if n == |slices[0]| then [] else [slices[0][n..]]) + slices[1..];
    assert Transmit(slices, n) == left;
    assert slices == [slices[0]] + slices[1..];
    if n < |slices[0]| {
      assert left[0] == slices[0][n..] && left[1..] == slices[1..];
    }
  }

  // ---------------------------------------------------------------- the connection

  /** w_req: the unsent part is buffer[data..data + size]; copied says the buffer is the request's own in_buf. */
  datatype WriteRequest = WriteRequest(buffer: array<Byte>, copied: bool, data: nat, size: nat) {
    /** A copied request's remainder is always a suffix of its own buffer. */
    ghost predicate Valid() {
      data + size <= buffer.Length && (copied ==> data + size == buffer.Length)
    }

    function Remaining(): seq<Byte>
      reads buffer
      requires Valid()
    {
      buffer[data..data + size]
    }

    /** w_req->size -= count and w_req->data += count. */
    function Advanced(count: nat): (r: WriteRequest)
      requires Valid() && count <= size
      ensures r.Valid()
    {
      WriteRequest(buffer, copied, data + count, size - count)
    }

    lemma AdvancedRemaining(count: nat)
      requires Valid() && count <= size
      ensures Advanced(count).Remaining() == Remaining()[count..]
    {
      DropWindow(buffer[..], data, data + size, count);
    }
  }

  /** The queued requests still have exactly these bytes to send. */
  ghost predicate Queued(q: seq<WriteRequest>, unsent: seq<seq<Byte>>)
    reads set r | r in q :: r.buffer
  {
    && |unsent| == |q|
    && (forall i :: 0 <= i < |q| ==> q[i].Valid() && q[i].Remaining() == unsent[i])
  }

  lemma QueuedTail(q: seq<WriteRequest>, unsent: seq<seq<Byte>>)
    requires q != [] && Queued(q, unsent)
    ensures Queued(q[1..], unsent[1..])
  {
    assert forall i :: 0 <= i < |q[1..]| ==> q[1..][i] == q[i + 1] && unsent[1..][i] == unsent[i + 1];
  }

  lemma QueuedCons(head: WriteRequest, q: seq<WriteRequest>, bytes: seq<Byte>, unsent: seq<seq<Byte>>)
    requires head.Valid() && head.Remaining() == bytes && Queued(q, unsent)
    ensures Queued([head] + q, [bytes] + unsent)
  {
  }

  /** Why handle_read returned. */
  datatype ReadOutcome = Drained | Full | PeerClosed | ReadFailed

  function AfterRead(e: ReadEvent): (outcome: ReadOutcome)
    requires !e.Chunk?
    ensures outcome.Drained? <==> e.ReadBlocks?
    ensures outcome.PeerClosed? <==> e.PeerShut?
    ensures outcome.ReadFailed? <==> e.ReadFails?
  {
    match e case ReadBlocks => Drained case PeerShut => PeerClosed case ReadFails => ReadFailed
  }

  /** Why handle_write returned. */
  datatype WriteOutcome = QueueEmpty | SocketFull | WriteClosed | WriteFailed

  function AfterWrite(e: WriteEvent): (outcome: WriteOutcome)
    requires !e.Room?
    ensures outcome.SocketFull? <==> e.WriteBlocks?
    ensures outcome.WriteClosed? <==> e.WriteShut?
    ensures outcome.WriteFailed? <==> e.WriteFails?
  {
    match e case WriteBlocks => SocketFull case WriteShut => WriteClosed case WriteFails => WriteFailed
  }

  /** net_context with the application state its messages reach. */
  class Connection {
    const framer: Framer<Byte>
    const bufSize: nat
    const rBuf: array<Byte>
    var rData: nat
    var rSize: nat
    var queue: seq<WriteRequest>
    ghost var unsent: seq<seq<Byte>>  // what each queued request still has to send
    var writeInterest: bool  // EPOLLOUT is part of the registered events
    var dispatched: seq<Message<Byte>>
    var journal: seq<Byte>

    constructor (framer: Framer<Byte>, bufSize: nat)
      requires Lawful(framer)
      ensures Readable() && Writable() && fresh(rBuf)
      ensures this.framer == framer && this.bufSize == bufSize
      ensures State() == Receiver([], [], []) && unsent == [] && !writeInterest
    {
      this.framer, this.bufSize := framer, bufSize;
      rBuf := new Byte[bufSize];
      rData, rSize := 0, 0;
      queue, unsent, writeInterest := [], [], false;
      dispatched, journal := [], [];
    }

    /** Between calls the buffer holds no whole message. */
    ghost predicate Readable()
      reads this, rBuf
    {
      && Lawful(framer)
      && rBuf.Length == bufSize
      && rData + rSize <= bufSize
      && framer.Size(Pending()) == 0
    }

    ghost predicate Writable()
      reads this`queue, this`unsent, set r | r in queue :: r.buffer
    {
      Queued(queue, unsent)
    }

    /** Who may not be overwritten while requests are queued. */
    ghost function Buffers(): set<array<Byte>>
      reads this`queue
    {
      set r | r in queue :: r.buffer
    }

    function Pending(): seq<Byte>
      reads this, rBuf
      requires rData + rSize <= rBuf.Length
    {
      rBuf[rData..rData + rSize]
    }

    function State(): Receiver
      reads this, rBuf
      requires rData + rSize <= rBuf.Length
    {
      Receiver(Pending(), dispatched, journal)
    }

    /** The handler call for one message; the client's default handler is save_jnl. */
    method Dispatch(m: Message<Byte>)
      modifies this`dispatched, this`journal
      ensures dispatched == old(dispatched) + [m]
      ensures journal == old(journal) + if framer.Journals(m.kind) then m.body else []
    {
      dispatched := dispatched + [m];
      if framer.Journals(m.kind) {
        journal := journal + m.body;
      }
    }

    /** The process_data loop over the bytes it is given; returns how many it took. */
    method ProcessData(data: seq<Byte>) returns (sizeTotal: nat)
      requires Lawful(framer)
      modifies this`dispatched, this`journal
      ensures sizeTotal <= |data|
      ensures Receiver(data[sizeTotal..], dispatched, journal) ==
              Process(framer, Receiver(data, old(dispatched), old(journal)))
    {
      ghost var goal := Process(framer, Receiver(data, dispatched, journal));
      sizeTotal := 0;
      var sizeRemain: nat := |data|;
      while sizeRemain > 0
        invariant sizeTotal + sizeRemain == |data| && sizeTotal <= |data|
        invariant Process(framer, Receiver(data[sizeTotal..], dispatched, journal)) == goal
        decreases sizeRemain
      {
        var window := data[sizeTotal..];
        var sizeProcess := framer.Size(window);
        if sizeProcess == 0 {
          break;
        }
        ghost var next := TakeHead(framer, Receiver(window, dispatched, journal));
        Dispatch(Message(framer.Kind(window), window[..sizeProcess]));
        CutTwice(data, sizeTotal, sizeProcess);
        sizeTotal := sizeTotal + sizeProcess;
        sizeRemain := sizeRemain - sizeProcess;
        assert Receiver(data[sizeTotal..], dispatched, journal) == next;
      }
    }

    /** memmove(r_buf, r_data, r_size); the areas may overlap. */
    method Compact()
      requires rData + rSize <= rBuf.Length
      modifies this`rData, rBuf
      ensures rData == 0 && Pending() == old(Pending())
    {
      var from := rData;
      ghost var pending := Pending();
      for i := 0 to rSize
        invariant rData == from
        invariant forall k :: 0 <= k < i ==> rBuf[k] == pending[k]
        invariant forall k :: from + i <= k < from + rSize ==> rBuf[k] == pending[k - from]
      {
        rBuf[i] := rBuf[from + i];
      }
      rData := 0;
      assert rBuf[0..rSize] == pending;
    }

    /** The bytes process_data is shown once count more have been read behind the pending ones. */
    function Window(count: nat): seq<Byte>
      reads this, rBuf
      requires rData + rSize + count <= rBuf.Length
    {
      rBuf[rData..rData + rSize + count]
    }

    /** The read call of handle_read: new bytes land directly behind the pending ones. */
    method Fill(sock: InSocket, room: nat) returns (result: ReadResult, ghost bytes: seq<Byte>)
      requires RealChunks(sock.input)
      requires 0 < room && rData + rSize + room <= rBuf.Length
      modifies rBuf, sock
      ensures RealChunks(sock.input)
      ensures result.Got? ==>
                && 0 < result.count == |bytes| <= room
                && Window(result.count) == old(Pending()) + bytes
                && Lead(old(sock.input)) == bytes + Lead(sock.input)
                && ReadEnding(old(sock.input)) == ReadEnding(sock.input)
                && AfterReadEnding(old(sock.input)) == AfterReadEnding(sock.input)
      ensures !result.Got? ==>
                && Pending() == old(Pending())
                && Lead(old(sock.input)) == [] && sock.input == AfterReadEnding(old(sock.input))
      ensures result.ReadAgain? <==> !result.Got? && ReadEnding(old(sock.input)).ReadBlocks?
      ensures result.ReadEof? <==> !result.Got? && ReadEnding(old(sock.input)).PeerShut?
    {
      ghost var stored, pending := rBuf[..], Pending();
      result, bytes := sock.Read(rBuf, rData + rSize, room);
      WindowGrows(stored, rBuf[..], rData, rData + rSize, bytes);
      assert pending + [] == pending;
    }

    /** r_size and r_data after process_data took some of the pending bytes; data is what it was shown. */
    method Consume(taken: nat, room: nat, ghost data: seq<Byte>) returns (sizeRemain: nat)
      requires rBuf.Length == bufSize && rData + rSize + room == bufSize
      requires Pending() == data && taken <= |data|
      modifies this`rData, this`rSize
      ensures rData + rSize + sizeRemain == bufSize
      ensures Pending() == data[taken..]
    {
      sizeRemain := room;
      DropWindow(rBuf[..], rData, rData + rSize, taken);
      if taken == 0 {
        return;
      }
      rSize := rSize - taken;
      if rSize == 0 {
        rData := 0;
        sizeRemain := bufSize;
      } else {
        rData := rData + taken;
      }
    }

    /** The part of handle_read after count bytes have been read. */
    method Absorb(count: nat, room: nat) returns (sizeRemain: nat)
      requires Lawful(framer) && rBuf.Length == bufSize
      requires rData + rSize + count + room == bufSize
      modifies this`rData, this`rSize, this`dispatched, this`journal
      ensures rData + rSize + sizeRemain == bufSize
      ensures State() == Process(framer, old(Receiver(Window(count), dispatched, journal)))
    {
      var data := Window(count);
      rSize := rSize + count;
      assert Pending() == data;
      var taken := ProcessData(data);
      sizeRemain := Consume(taken, room, data);
    }

    /** One read into the room that is left, and process_data on what it brought. */
    method ReadTurn(sock: InSocket, room: nat) returns (result: ReadResult, sizeRemain: nat, ghost bytes: seq<Byte>)
      requires Readable() && RealChunks(sock.input) && 0 < room && rData + rSize + room == bufSize
      modifies this`rData, this`rSize, this`dispatched, this`journal, rBuf, sock
      ensures Readable() && RealChunks(sock.input) && rData + rSize + sizeRemain == bufSize
      ensures result.Got? ==>
                && 0 < |bytes| <= room && State() == Receive(framer, old(State()), bytes)
                && Lead(old(sock.input)) == bytes + Lead(sock.input)
                && ReadEnding(old(sock.input)) == ReadEnding(sock.input)
                && AfterReadEnding(old(sock.input)) == AfterReadEnding(sock.input)
      ensures !result.Got? ==>
                && State() == old(State()) && rSize == old(rSize)
                && Lead(old(sock.input)) == [] && sock.input == AfterReadEnding(old(sock.input))
      ensures result.ReadAgain? <==> !result.Got? && ReadEnding(old(sock.input)).ReadBlocks?
      ensures result.ReadEof? <==> !result.Got? && ReadEnding(old(sock.input)).PeerShut?
    {
      sizeRemain := room;
      result, bytes := Fill(sock, room);
      if result.Got? {
        sizeRemain := Absorb(result.count, room - result.count);
      }
    }

    /**
     handle_read. Every byte the socket had is received as if in one piece, unless the buffer fills
     up with a message it cannot hold, which is the only way to stop early.
     */
    method HandleRead(sock: InSocket) returns (outcome: ReadOutcome, ghost got: seq<Byte>)
      requires Readable() && RealChunks(sock.input)
      modifies this`rData, this`rSize, this`dispatched, this`journal, rBuf, sock
      ensures Readable() && RealChunks(sock.input)
      ensures State() == Receive(framer, old(State()), got)
      ensures outcome.Full? <==> |Pending()| == bufSize
      ensures outcome.Full? <==> !NeverFull(framer, old(Pending()) + Lead(old(sock.input)), bufSize)
      ensures FoundRoom(framer, old(Pending()) + got, bufSize)
      ensures old(rSize) == bufSize ==> outcome.Full? && got == []
      ensures Lead(old(sock.input)) == got + (if outcome.Full? then Lead(sock.input) else [])
      ensures !outcome.Full? ==>
                outcome == AfterRead(ReadEnding(old(sock.input))) && sock.input == AfterReadEnding(old(sock.input))
    {
      ghost var input, start := sock.input, State();
      ghost var offered, full := Lead(input), rSize == bufSize;
      var sizeRemain := bufSize - (rData + rSize);
      got := [];
      ReadingFirst(framer, start, offered, bufSize);
      while true
        invariant Readable() && RealChunks(sock.input)
        invariant rData + rSize + sizeRemain == bufSize
        invariant full ==> rSize == bufSize && got == []
        invariant Reading(framer, start, State(), offered, Lead(sock.input), got, bufSize)
        invariant ReadEnding(input) == ReadEnding(sock.input)
        invariant AfterReadEnding(input) == AfterReadEnding(sock.input)
        decreases |Lead(sock.input)|
      {
        if sizeRemain == 0 {
          if rData > 0 {
            Compact();
            sizeRemain := bufSize - rSize;
          } else {
            Ended(framer, start, State(), offered, Lead(sock.input), got, bufSize);
            return Full, got;
          }
        }
        ghost var mid, waiting := State(), Lead(sock.input);
        var result;
        ghost var bytes;
        result, sizeRemain, bytes := ReadTurn(sock, sizeRemain);
        if !result.Got? {
          Ended(framer, start, State(), offered, [], got, bufSize);
          outcome := if result.ReadAgain? then Drained else if result.ReadEof? then PeerClosed else ReadFailed;
          return outcome, got;
        }
        ghost var both := got + bytes;
        ReadingOn(framer, start, mid, State(), offered, waiting, Lead(sock.input), got, bytes, both, bufSize);
        got := both;
      }
    }

    /** The request send_data builds, with its own copy of the bytes or pointing at the caller's. */
    method BuildRequest(data: array<Byte>, at: nat, size: nat, copyData: bool) returns (request: WriteRequest)
      requires at + size <= data.Length
      ensures request.Valid() && request.copied == copyData
      ensures if copyData then fresh(request.buffer) else request.buffer == data
      ensures request.Remaining() == data[at..at + size]
    {
      if copyData {
        var inBuf := new Byte[size];
        forall i | 0 <= i < size {
          inBuf[i] := data[at + i];
        }
        request := WriteRequest(inBuf, true, 0, size);
      } else {
        request := WriteRequest(data, false, at, size);
      }
    }

    /** send_data for a connected fd: queue the bytes, then arm EPOLLOUT. */
    method SendData(data: array<Byte>, at: nat, size: nat, copyData: bool) returns (reqSize: nat)
      requires Writable() && at + size <= data.Length
      modifies this`queue, this`unsent, this`writeInterest
      ensures Writable() && writeInterest && reqSize == size
      ensures unsent == old(unsent) + [data[at..at + size]]
      ensures |queue| == |old(queue)| + 1 && queue[..|old(queue)|] == old(queue)
      ensures if copyData then fresh(queue[|old(queue)|].buffer) else queue[|old(queue)|].buffer == data
      ensures Buffers() == old(Buffers()) + {queue[|old(queue)|].buffer}
    {
      var request := BuildRequest(data, at, size, copyData);
      queue := queue + [request];
      unsent := unsent + [request.Remaining()];
      writeInterest := true;
      reqSize := size;
    }

    /** The write call of handle_write, on the head request. */
    method WriteHead(sock: OutSocket) returns (result: WriteResult)
      requires Writable() && queue != [] && RealRoom(sock.script)
      modifies sock
      ensures Writable() && RealRoom(sock.script)
      ensures result.Put? ==> 0 < result.count <= |unsent[0]| && sock.wire == old(sock.wire) + unsent[0][..result.count]
      ensures result.Put? ==>
                && Budget(old(sock.script)) == result.count + Budget(sock.script)
                && WriteEnding(old(sock.script)) == WriteEnding(sock.script)
      ensures !result.Put? ==> sock.wire == old(sock.wire)
      ensures !result.Put? ==> if unsent[0] == [] then result.WriteEof? else Budget(old(sock.script)) == 0
      ensures unsent[0] != [] ==> (result.WriteAgain? <==> !result.Put? && WriteEnding(old(sock.script)).WriteBlocks?)
      ensures unsent[0] != [] ==> (result.WriteEof? <==> !result.Put? && WriteEnding(old(sock.script)).WriteShut?)
    {
      var request := queue[0];
      assert request.Remaining() == unsent[0];
      result := sock.Write(request.buffer, request.data, request.size);
      if result.Put? {
        WindowTake(request.buffer[..], request.data, request.data + request.size, result.count);
      }
    }

    /** Account for count bytes of the head request having been written. */
    method Advance(count: nat)
      requires Writable() && queue != [] && 0 < count <= |unsent[0]|
      modifies this`queue, this`unsent
      ensures Writable() && Buffers() <= old(Buffers())
      ensures count <= |Concat(old(unsent))| && unsent == Transmit(old(unsent), count)
    {
      ghost var left := unsent;
      var request := queue[0];
      assert request.Remaining() == left[0];
      TransmitHead(left, count);
      QueuedTail(queue, left);
      if request.size == count {
        queue, unsent := queue[1..], left[1..];
      } else {
        request.AdvancedRemaining(count);
        QueuedCons(request.Advanced(count), queue[1..], left[0][count..], left[1..]);
        queue, unsent := [request.Advanced(count)] + queue[1..], [left[0][count..]] + left[1..];
      }
    }

    /** One turn of handle_write. */
    method WriteTurn(sock: OutSocket) returns (result: WriteResult)
      requires Writable() && queue != [] && RealRoom(sock.script)
      modifies this`queue, this`unsent, sock
      ensures Writable() && RealRoom(sock.script) && Buffers() <= old(Buffers())
      ensures result.Put? ==>
                var after := WriteRun(unsent, sock.wire, sock.script);
                old(WriteRun(unsent, sock.wire, sock.script)).Wrote(result.count, after)
      ensures !result.Put? ==> unsent == old(unsent) && sock.wire == old(sock.wire)
      ensures !result.Put? ==> Refused(result, unsent[0], old(sock.script))
    {
      result := WriteHead(sock);
      if result.Put? {
        Advance(result.count);
      }
    }

    /**
     handle_write. Bytes leave in the order they were queued, as many as the socket takes; the
     connection is dropped by an empty request as surely as by the peer.
     */
    method HandleWrite(sock: OutSocket) returns (outcome: WriteOutcome, ghost sent: nat)
      requires Writable() && RealRoom(sock.script)
      modifies this`queue, this`unsent, sock
      ensures Writable() && RealRoom(sock.script) && Buffers() <= old(Buffers())
      ensures sent == Min(|Sendable(old(unsent))|, Budget(old(sock.script))) <= |Concat(old(unsent))|
      ensures sock.wire == old(sock.wire) + Concat(old(unsent))[..sent]
      ensures unsent == Transmit(old(unsent), sent)
      ensures outcome ==
              if Budget(old(sock.script)) < |Sendable(old(unsent))| then AfterWrite(WriteEnding(old(sock.script)))
              else if [] in old(unsent) then WriteClosed
              else QueueEmpty
    {
      ghost var start := WriteRun(unsent, sock.wire, sock.script);
      ghost var at := start;
      sent := 0;
      SendableWhole(unsent);
      assert Concat(unsent)[..0] == [] && sock.wire + [] == sock.wire;
      while queue != []
        invariant Writable() && RealRoom(sock.script) && Buffers() <= old(Buffers())
        invariant sent <= |Concat(start.unsent)|
        invariant at == WriteRun(unsent, sock.wire, sock.script) && at.Now() == start.After(sent)
        decreases |Concat(unsent)|
      {
        var result := WriteTurn(sock);
        if !result.Put? {
          return if result.WriteAgain? then SocketFull else if result.WriteEof? then WriteClosed else WriteFailed, sent;
        }
        ghost var next := WriteRun(unsent, sock.wire, sock.script);
        ghost var more := sent + result.count;
        start.Extend(sent, at, result.count, more, next);
        sent, at := more, next;
      }
      outcome := QueueEmpty;
    }
  }

  /** Bytes that fit behind the pending ones found room. */
  lemma Grown(f: Framer<Byte>, start: Receiver, got: seq<Byte>, bytes: seq<Byte>, bufSize: nat)
    requires Lawful(f) && FoundRoom(f, start.pending + got, bufSize)
    requires |Receive(f, start, got).pending| + |bytes| <= bufSize
    ensures FoundRoom(f, start.pending + (got + bytes), bufSize)
  {
    ProcessMeans(f, start.(pending := start.pending + got));
    PendingFoundRoom(f, Rest(f, start.pending + got) + bytes, bufSize);
    MoreFoundRoom(f, start.pending + got, bytes, bufSize);
    AppendAssoc(start.pending, got, bytes);
  }

  /** How far a handle_read loop has got: what it has received, all of which found room, and what is still waiting. */
  ghost predicate Reading(f: Framer<Byte>, start: Receiver, now: Receiver, offered: seq<Byte>, waiting: seq<Byte>,
      got: seq<Byte>, bufSize: nat)
    requires Lawful(f)
  {
    && now == Receive(f, start, got) && offered == got + waiting
    && FoundRoom(f, start.pending + got, bufSize)
  }

  lemma ReadingFirst(f: Framer<Byte>, start: Receiver, offered: seq<Byte>, bufSize: nat)
    requires Lawful(f) && f.Size(start.pending) == 0 && |start.pending| <= bufSize
    ensures Reading(f, start, start, offered, offered, [], bufSize)
  {
    ReceiveNothing(f, start);
    EmptyUnit(start.pending);
    EmptyUnit(offered);
    PendingFoundRoom(f, start.pending, bufSize);
  }

  lemma ReadingOn(f: Framer<Byte>, start: Receiver, mid: Receiver, now: Receiver, offered: seq<Byte>,
      before: seq<Byte>, waiting: seq<Byte>, got: seq<Byte>, bytes: seq<Byte>, both: seq<Byte>, bufSize: nat)
    requires Lawful(f) && Reading(f, start, mid, offered, before, got, bufSize)
    requires before == bytes + waiting && both == got + bytes
    requires |mid.pending| + |bytes| <= bufSize && now == Receive(f, mid, bytes)
    ensures Reading(f, start, now, offered, waiting, both, bufSize)
  {
    AppendAssoc(got, bytes, waiting);
    ReceiveSplit(f, start, got, bytes);
    Grown(f, start, got, bytes, bufSize);
  }

  /** When a receiver stops with a full buffer or with everything it was offered. */
  lemma Ended(f: Framer<Byte>, start: Receiver, now: Receiver, offered: seq<Byte>, waiting: seq<Byte>, got: seq<Byte>,
      bufSize: nat)
    requires Lawful(f) && Reading(f, start, now, offered, waiting, got, bufSize)
    requires |now.pending| <= bufSize && (|now.pending| < bufSize ==> waiting == [])
    ensures |now.pending| == bufSize <==> !NeverFull(f, start.pending + offered, bufSize)
    ensures waiting == [] ==> offered == got
  {
    EmptyUnit(got);
    ProcessMeans(f, start.(pending := start.pending + got));
    FullExactly(f, start.pending, offered, got, |now.pending| == bufSize, bufSize);
  }

  ghost predicate Refused(result: WriteResult, head: seq<Byte>, script: seq<WriteEvent>) {
    if head == [] then result.WriteEof?
    else
      && Budget(script) == 0
      && (result.WriteAgain? <==> WriteEnding(script).WriteBlocks?)
      && (result.WriteEof? <==> WriteEnding(script).WriteShut?)
  }

  /** What a handle_write loop still has to do. */
  datatype Progress = Progress(
    unsent: seq<seq<Byte>>, wire: seq<Byte>, sendable: int, hasEmpty: bool, budget: int, ending: WriteEvent)

  datatype WriteRun = WriteRun(unsent: seq<seq<Byte>>, wire: seq<Byte>, script: seq<WriteEvent>) {
    ghost function Now(): Progress {
      Progress(unsent, wire, |Sendable(unsent)|, [] in unsent, Budget(script), WriteEnding(script))
    }

    /** The progress a run from here has made once it has written sent bytes. */
    ghost function After(sent: nat): Progress
      requires sent <= |Concat(unsent)|
    {
      Progress(Transmit(unsent, sent), wire + Concat(unsent)[..sent], |Sendable(unsent)| - sent, [] in unsent,
        Budget(script) - sent, WriteEnding(script))
    }

    /** One write of n bytes of the head request. */
    ghost predicate Wrote(n: nat, next: WriteRun) {
      && unsent != [] && 0 < n <= |unsent[0]| && n <= |Concat(unsent)|
      && next.unsent == Transmit(unsent, n)
      && next.wire == wire + unsent[0][..n]
      && Budget(script) == n + Budget(next.script)
      && WriteEnding(script) == WriteEnding(next.script)
    }

    lemma Extend(sent: nat, at: WriteRun, n: nat, more: nat, next: WriteRun)
      requires sent <= |Concat(unsent)| && at.Now() == After(sent)
      requires at.Wrote(n, next) && more == sent + n
      ensures |Concat(next.unsent)| < |Concat(at.unsent)|
      ensures more <= |Concat(unsent)| && next.Now() == After(more)
    {
      TransmitHead(at.unsent, n);
      TransmitConserves(at.unsent, n);
      TransmitConserves(unsent, sent);
      TransmitSplit(unsent, sent, n);
      assert Concat(unsent)[..sent + n] == Concat(unsent)[..sent] + Concat(at.unsent)[..n];
      AppendAssoc(wire, Concat(unsent)[..sent], Concat(at.unsent)[..n]);
    }
  }
}
