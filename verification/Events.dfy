/**
 The handlers as the event loop calls them, by descriptor: a connection that is no longer known is left
 alone, and one that turns out to be closed or broken is removed from all tables in the same call.
 */
module Events {
  import opened Bytes
  import opened Framing
  import opened Registry
  import opened Sequences
  import opened Sockets
  import opened Transport

  /** Why a handler drops its connection. */
  predicate ReadBroke(outcome: ReadOutcome) {
    outcome.PeerClosed? || outcome.ReadFailed?
  }

  predicate WriteBroke(outcome: WriteOutcome) {
    outcome.WriteClosed? || outcome.WriteFailed?
  }

  /** NetContext_ with its contexts, beside the tables of the server. */
  class Network {
    const server: BseSimulator
    var contexts: map<int, Connection>

    constructor (server: BseSimulator)
      requires server.Valid() && server.netContext == {}
      ensures this.server == server && contexts == map[] && Valid()
    {
      this.server, contexts := server, map[];
    }

    ghost predicate Valid()
      reads this, server
    {
      server.Valid() && contexts.Keys == server.netContext
    }

    ghost function ReadBy(fd: int): set<object>
      reads this
    {
      if fd in contexts then {contexts[fd], contexts[fd].rBuf} else {}
    }

    ghost function WrittenBy(fd: int): set<object>
      reads this
    {
      if fd in contexts then {contexts[fd]} else {}
    }

    /** create_context and on_connect for an accepted descriptor. */
    method Accept(fd: int, framer: Framer<Byte>, bufSize: nat)
      requires Valid() && Lawful(framer) && Possible(server.State(), Event.Connect(fd))
      modifies this`contexts, server
      ensures Valid() && server.State() == After(server.accounts, old(server.State()), Event.Connect(fd))
      ensures fd in contexts && fresh(contexts[fd]) && contexts == old(contexts)[fd := contexts[fd]]
      ensures contexts[fd].Readable() && contexts[fd].Writable()
      ensures contexts[fd].State() == Receiver([], [], []) && contexts[fd].unsent == []
    {
      var c := new Connection(framer, bufSize);
      ghost var before := server.State();
      assert [fd][..0] == [] && [fd][..1] == [fd];
      assert Accepted(before, [fd][..0]) == before;
      server.HandleAccept([fd]);
      assert Accepted(before, [fd]) == Connected(Accepted(before, [fd][..0]), fd);
      contexts := contexts[fd := c];
    }

    /** The descriptor's entry goes from every table. */
    method Remove(fd: int)
      requires Valid()
      modifies this`contexts, server
      ensures Valid() && contexts == old(contexts) - {fd}
      ensures server.State() == After(server.accounts, old(server.State()), Event.Drop(fd))
    {
      server.Drop(fd);
      contexts := contexts - {fd};
    }

    /** handle_read: nothing for an unknown descriptor; a closed or failed connection is removed. */
    method OnReadable(fd: int, sock: InSocket) returns (ghost got: seq<Byte>)
      requires Valid() && RealChunks(sock.input) && (fd in contexts ==> contexts[fd].Readable())
      modifies this`contexts, server, sock, ReadBy(fd)
      ensures Valid()
      ensures fd !in old(contexts) ==>
                && got == [] && contexts == old(contexts)
                && server.State() == old(server.State()) && sock.input == old(sock.input)
      ensures fd in old(contexts) ==>
                var c := old(contexts[fd]);
                && c.Readable() && c.State() == Receive(c.framer, old(c.State()), got)
                && Lead(old(sock.input)) == got + (if |c.Pending()| == c.bufSize then Lead(sock.input) else [])
                && (if |c.Pending()| < c.bufSize && !ReadEnding(old(sock.input)).ReadBlocks?
                    then contexts == old(contexts) - {fd}
                      && server.State() == After(server.accounts, old(server.State()), Event.Drop(fd))
                    else contexts == old(contexts) && server.State() == old(server.State()))
    {
      got := [];
      if fd !in contexts {
        return;
      }
      var c, outcome := contexts[fd], Drained;
      ghost var input := sock.input;
      outcome, got := c.HandleRead(sock);
      assert ReadBroke(outcome) <==> |c.Pending()| < c.bufSize && !ReadEnding(input).ReadBlocks?;
      if ReadBroke(outcome) {
        Remove(fd);
      }
    }

    /** handle_write, likewise. */
    method OnWritable(fd: int, sock: OutSocket) returns (ghost sent: nat)
      requires Valid() && RealRoom(sock.script) && (fd in contexts ==> contexts[fd].Writable())
      modifies this`contexts, server, sock, WrittenBy(fd)
      ensures Valid()
      ensures fd !in old(contexts) ==>
                && sent == 0 && contexts == old(contexts)
                && server.State() == old(server.State()) && sock.wire == old(sock.wire)
      ensures fd in old(contexts) ==>
                var c := old(contexts[fd]);
                && c.Writable() && sent <= |Concat(old(c.unsent))| && c.unsent == Transmit(old(c.unsent), sent)
                && sock.wire == old(sock.wire) + Concat(old(c.unsent))[..sent]
                && (if (if Budget(old(sock.script)) < |Sendable(old(c.unsent))|
                        then !WriteEnding(old(sock.script)).WriteBlocks? else [] in old(c.unsent))
                    then contexts == old(contexts) - {fd}
                      && server.State() == After(server.accounts, old(server.State()), Event.Drop(fd))
                    else contexts == old(contexts) && server.State() == old(server.State()))
    {
      sent := 0;
      if fd !in contexts {
        return;
      }
      var outcome;
      outcome, sent := contexts[fd].HandleWrite(sock);
      if WriteBroke(outcome) {
        Remove(fd);
      }
    }

    /** send_data: nothing is accepted for a descriptor that is not connected. */
    method SendData(fd: int, data: array<Byte>, at: nat, size: nat, copyData: bool) returns (reqSize: nat)
      requires (fd in contexts ==> contexts[fd].Writable()) && at + size <= data.Length
      modifies WrittenBy(fd)
      ensures fd in contexts ==>
                && reqSize == size && contexts[fd].Writable() && contexts[fd].writeInterest
                && contexts[fd].unsent == old(contexts[fd].unsent) + [data[at..at + size]]
      ensures fd !in contexts ==> reqSize == 0
    {
      if fd !in contexts {
        return 0;
      }
      reqSize := contexts[fd].SendData(data, at, size, copyData);
    }
  }
}
