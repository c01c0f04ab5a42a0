/**
 The kernel's side of read and write, as scripts of results. A script is any finite sequence of
 events, so a method proved for every script is proved for every way the network behaves.
 */
module Sockets {
  import opened Bytes

  // ---------------------------------------------------------------- incoming

  /** Bytes that arrive together, or the result that ends a run of reads. */
  datatype ReadEvent = Chunk(bytes: seq<Byte>) | ReadBlocks | PeerShut | ReadFails

  /** read(2): a positive count, or -1 with EAGAIN, or 0, or -1 with another errno. */
  datatype ReadResult = Got(count: nat) | ReadAgain | ReadEof | ReadError

  ghost predicate RealChunks(events: seq<ReadEvent>) {
    forall e <- events :: e.Chunk? ==> e.bytes != []
  }

  /** The bytes available before the first event that is not data. */
  function Lead(events: seq<ReadEvent>): seq<Byte> {
    if events == [] || !events[0].Chunk? then [] else events[0].bytes + Lead(events[1..])
  }

  /** The first event that is not data; a quiet socket would block. */
  function ReadEnding(events: seq<ReadEvent>): (e: ReadEvent)
    ensures !e.Chunk?
  {
    if events == [] then ReadBlocks else if events[0].Chunk? then ReadEnding(events[1..]) else events[0]
  }

  function AfterReadEnding(events: seq<ReadEvent>): seq<ReadEvent> {
    if events == [] then [] else if events[0].Chunk? then AfterReadEnding(events[1..]) else events[1..]
  }

  class InSocket {
    var input: seq<ReadEvent>

    constructor (events: seq<ReadEvent>)
      ensures input == events
    {
      input := events;
    }

    /** One read into buf[at..at + room]. A length of zero is never asked for. */
    method Read(buf: array<Byte>, at: nat, room: nat) returns (r: ReadResult, ghost bytes: seq<Byte>)
      requires RealChunks(input)
      requires 0 < room && at + room <= buf.Length
      modifies this, buf
      ensures RealChunks(input)
      ensures r.Got? ==> |bytes| == r.count && 0 < r.count <= room
      ensures !r.Got? ==> bytes == []
      ensures at + |bytes| <= buf.Length && buf[..at] == old(buf[..at]) && buf[at..at + |bytes|] == bytes
      ensures buf[at + |bytes|..] == old(buf[at + |bytes|..])
      ensures r.Got? ==>
                && Lead(old(input)) == bytes + Lead(input)
                && ReadEnding(old(input)) == ReadEnding(input)
                && AfterReadEnding(old(input)) == AfterReadEnding(input)
      ensures !r.Got? ==> Lead(old(input)) == [] && input == AfterReadEnding(old(input))
      ensures r.ReadAgain? <==> !r.Got? && ReadEnding(old(input)).ReadBlocks?
      ensures r.ReadEof? <==> !r.Got? && ReadEnding(old(input)).PeerShut?
    {
      bytes := [];
      if input == [] {
        return ReadAgain, [];
      }
      var event := input[0];
      match event
      case ReadBlocks => r, input := ReadAgain, input[1..];
      case PeerShut => r, input := ReadEof, input[1..];
      case ReadFails => r, input := ReadError, input[1..];
      case Chunk(arrived) =>
        assert event in input;
        var n := if |arrived| <= room then |arrived| else room;
        forall i | 0 <= i < n {
          buf[at + i] := arrived[i];
        }
        bytes := arrived[..n];
        r := Got(n);
        if n == |arrived| {
          input := input[1..];
          assert arrived[..n] == arrived;
        } else {
          assert arrived + Lead(input[1..]) == arrived[..n] + (arrived[n..] + Lead(input[1..]));
          input := [Chunk(arrived[n..])] + input[1..];
        }
    }
  }

  // ---------------------------------------------------------------- outgoing

  /** Space for some bytes in the send buffer, or the result that ends a run of writes. */
  datatype WriteEvent = Room(bytes: nat) | WriteBlocks | WriteShut | WriteFails

  datatype WriteResult = Put(count: nat) | WriteAgain | WriteEof | WriteError

  ghost predicate RealRoom(events: seq<WriteEvent>) {
    forall e <- events :: e.Room? ==> e.bytes > 0
  }

  function Budget(events: seq<WriteEvent>): nat {
    if events == [] || !events[0].Room? then 0 else events[0].bytes + Budget(events[1..])
  }

  function WriteEnding(events: seq<WriteEvent>): (e: WriteEvent)
    ensures !e.Room?
  {
    if events == [] then WriteBlocks else if events[0].Room? then WriteEnding(events[1..]) else events[0]
  }

  class OutSocket {
    var script: seq<WriteEvent>
    var wire: seq<Byte>  // everything the kernel has accepted, in order

    constructor (events: seq<WriteEvent>)
      ensures script == events && wire == []
    {
      script, wire := events, [];
    }

    /** One write of buf[at..at + size]. Writing no bytes returns 0, as on any stream socket. */
    method Write(buf: array<Byte>, at: nat, size: nat) returns (r: WriteResult)
      requires RealRoom(script)
      requires at + size <= buf.Length
      modifies this
      ensures RealRoom(script)
      ensures r.Put? ==> 0 < r.count <= size && wire == old(wire) + buf[at..at + r.count]
      ensures !r.Put? ==> wire == old(wire)
      ensures r.Put? ==>
                Budget(old(script)) == r.count + Budget(script) && WriteEnding(old(script)) == WriteEnding(script)
      ensures size > 0 && !r.Put? ==> Budget(old(script)) == 0
      ensures size == 0 ==> r.WriteEof?
      ensures size > 0 ==> (r.WriteAgain? <==> !r.Put? && WriteEnding(old(script)).WriteBlocks?)
      ensures size > 0 ==> (r.WriteEof? <==> !r.Put? && WriteEnding(old(script)).WriteShut?)
    {
      if size == 0 {
        return WriteEof;
      }
      if script == [] {
        return WriteAgain;
      }
      var event := script[0];
      match event
      case WriteBlocks => r, script := WriteAgain, script[1..];
      case WriteShut => r, script := WriteEof, script[1..];
      case WriteFails => r, script := WriteError, script[1..];
      case Room(space) =>
        assert event in script;
        var n := if space <= size then space else size;
        wire := wire + buf[at..at + n];
        r := Put(n);
        script := if n == space then script[1..] else [Room(space - n)] + script[1..];
    }
  }
}
