/**
 The message formats of venues/bse.h, the two concrete framers, and the replies the server builds.
 */
module Protocol {
  import opened Bytes
  import opened Framing
  import opened Sequences

  const FEED_LOGIN: nat := 1801
  const FEED_LOGOFF: nat := 1802
  const QUERY_REPLY_OK: nat := 2110
  const QUERY_REPLY_ERR: nat := 2111

  // The same types as 32-bit values, for the records that are written.
  const FEED_LOGIN_TYPE: bv32 := 1801
  const QUERY_REPLY_OK_TYPE: bv32 := 2110
  const QUERY_REPLY_ERR_TYPE: bv32 := 2111

  // sizeof the packed records and fields
  const TYPE_SIZE: nat := 4
  const HEADER_SIZE: nat := 8
  const LOGIN_SIZE: nat := 80
  const QUERY_SIZE: nat := 8
  const REPLY_SIZE: nat := 12

  // ---------------------------------------------------------------- BSESimulator::process_data

  function CalcMsgSize(kind: nat): nat {
    if kind == FEED_LOGIN || kind == FEED_LOGOFF then LOGIN_SIZE else QUERY_SIZE
  }

  function ServerKind(data: seq<Byte>): nat {
    if |data| < TYPE_SIZE then 0 else ReadNumber(data[..4])
  }

  function ServerSize(data: seq<Byte>): (n: nat)
    ensures n <= |data|
  {
    if |data| < TYPE_SIZE || |data| < CalcMsgSize(ServerKind(data)) then 0 else CalcMsgSize(ServerKind(data))
  }

  // ---------------------------------------------------------------- BSEClient::process_data

  /** size_expect: the length field is widened to size_t before the addition, so it cannot wrap. */
  function ClientNeeds(data: seq<Byte>): nat
    requires |data| >= HEADER_SIZE
  {
    ReadNumber(data[..4]) + 4
  }

  function ClientKind(data: seq<Byte>): nat {
    if |data| < HEADER_SIZE then 0 else ReadNumber(data[4..8])
  }

  function ClientSize(data: seq<Byte>): (n: nat)
    ensures n <= |data|
  {
    if |data| < HEADER_SIZE || |data| < ClientNeeds(data) then 0 else ClientNeeds(data)
  }

  /** The four types the client handles itself; every other message is a journal record. */
  predicate IsReply(kind: nat) {
    kind == FEED_LOGIN || kind == FEED_LOGOFF || kind == QUERY_REPLY_ERR || kind == QUERY_REPLY_OK
  }

  const SERVER: Framer<Byte> := Framer(ServerSize, ServerKind, (kind: nat) => false)
  const CLIENT: Framer<Byte> := Framer(ClientSize, ClientKind, (kind: nat) => !IsReply(kind))

  lemma ServerStable(a: seq<Byte>, b: seq<Byte>)
    requires ServerSize(a) > 0
    ensures ServerSize(a + b) == ServerSize(a) && ServerKind(a + b) == ServerKind(a)
  {
    assert (a + b)[..4] == a[..4];
  }

  lemma ClientStable(a: seq<Byte>, b: seq<Byte>)
    requires ClientSize(a) > 0
    ensures ClientSize(a + b) == ClientSize(a) && ClientKind(a + b) == ClientKind(a)
  {
    assert (a + b)[..4] == a[..4] && (a + b)[4..8] == a[4..8];
  }

  /** Both concrete loops are lawful framers, so the whole theory of framing applies to them. */
  lemma FramersLawful()
    ensures Lawful(SERVER)
    ensures Lawful(CLIENT)
  {
    forall a, b ensures Stable(SERVER, a, b) {
      if ServerSize(a) > 0 { ServerStable(a, b); }
    }
    forall a, b ensures Stable(CLIENT, a, b) {
      if ClientSize(a) > 0 { ClientStable(a, b); }
    }
  }

  // ---------------------------------------------------------------- what the framers take

  lemma HeaderFields(n: bv32, kind: bv32, payload: seq<Byte>)
    ensures
      var data := Wire32(n) + Wire32(kind) + payload;
      data[..4] == Wire32(n) && data[4..8] == Wire32(kind) && |data| == |payload| + 8
  {
    FourFields(Wire32(n), Wire32(kind), payload, []);
    EmptyUnit(Wire32(n) + Wire32(kind) + payload);
  }

  /**
   How the client cuts any bytes at all: without a header it waits; behind one it takes the four bytes
   of the length field and as many as that field says, in its full width, or waits for them.
   */
  lemma ClientTakes(n: bv32, kind: bv32, payload: seq<Byte>, short: seq<Byte>)
    requires |short| < 8
    ensures
      var data := Wire32(n) + Wire32(kind) + payload;
      && ClientSize(data) == (if n as int <= |payload| + 4 then n as int + 4 else 0)
      && ClientKind(data) == kind as int
    ensures ClientSize(short) == 0
  {
    HeaderFields(n, kind, payload);
    NumberRoundTrip(n);
    NumberRoundTrip(kind);
  }

  /** Bytes that are long enough begin with such a header. */
  lemma ClientHeader(data: seq<Byte>) returns (n: bv32, kind: bv32)
    requires |data| >= 8
    ensures data == Wire32(n) + Wire32(kind) + data[8..]
  {
    n, kind := Read32(data[..4]), Read32(data[4..8]);
    EveryFieldIsWritten(data[..4]);
    EveryFieldIsWritten(data[4..8]);
    assert data == data[..4] + data[4..8] + data[8..];
  }

  /** A record of any type and any length that its length field can hold is one whole frame of the client. */
  lemma RecordIsFrame(n: bv32, kind: bv32, payload: seq<Byte>)
    requires n as int == |payload| + 4
    ensures WellFormed(CLIENT, Message(kind as int, Wire32(n) + Wire32(kind) + payload))
  {
    ClientTakes(n, kind, payload, []);
    HeaderFields(n, kind, payload);
  }

  /** What the client stores of such a record: all of it, unless it is one of the four reply types. */
  lemma RecordStored(n: bv32, kind: bv32, payload: seq<Byte>)
    requires n as int == |payload| + 4
    ensures Lawful(CLIENT)
    ensures
      var record := Wire32(n) + Wire32(kind) + payload;
      && Frames(CLIENT, record) == [Message(kind as int, record)]
      && Saved(CLIENT, Frames(CLIENT, record)) == if kind as int in {1801, 1802, 2110, 2111} then [] else record
  {
    FramersLawful();
    RecordIsFrame(n, kind, payload);
    var record := Wire32(n) + Wire32(kind) + payload;
    OneMessage(CLIENT, Message(kind as int, record));
    assert CLIENT.Journals(kind as int) == !IsReply(kind as int);
    EmptyUnit(record);
  }

  lemma OneMessage(f: Framer<Byte>, m: Message<Byte>)
    requires Lawful(f) && WellFormed(f, m)
    ensures Frames(f, m.body) == [m] && Rest(f, m.body) == []
  {
    var n := |m.body|;
    assert m.body[..n] == m.body && m.body[n..] == [];
  }

  /** How the server cuts any bytes: 80 for a login or logoff, 8 for everything else, or it waits. */
  lemma ServerTakes(kind: bv32, payload: seq<Byte>, short: seq<Byte>)
    requires |short| < 4
    ensures
      var data, size := Wire32(kind) + payload, if kind as int in {1801, 1802} then 80 else 8;
      && ServerSize(data) == (if size <= |payload| + 4 then size else 0)
      && ServerKind(data) == kind as int
    ensures ServerSize(short) == 0
  {
    var data := Wire32(kind) + payload;
    assert data[..4] == Wire32(kind);
    NumberRoundTrip(kind);
  }

  // ---------------------------------------------------------------- buffers that are large enough

  function LoginPrefix(n: nat): (data: seq<Byte>)
    ensures |data| == n
  {
    if n <= 4 then Wire32(FEED_LOGIN_TYPE)[..n] else Wire32(FEED_LOGIN_TYPE) + Repeat(0, n - 4)
  }

  /** A full receive buffer always holds a whole request exactly when it has room for a login. */
  lemma ServerBufferSuffices(bufSize: nat)
    ensures (forall data :: |data| == bufSize ==> ServerSize(data) > 0) <==> bufSize >= LOGIN_SIZE
  {
    if bufSize < LOGIN_SIZE {
      var data := LoginPrefix(bufSize);
      if bufSize >= 4 {
        assert data[..4] == Wire32(FEED_LOGIN_TYPE);
        FieldRoundTrip(0, FEED_LOGIN_TYPE);
      }
      assert |data| == bufSize && ServerSize(data) == 0;
    }
  }

  /** A full client buffer is stuck exactly when its head frame is longer than the buffer. */
  lemma ClientBufferStuck(data: seq<Byte>)
    ensures ClientSize(data) == 0 <==> |data| < HEADER_SIZE || ClientNeeds(data) > |data|
  {
  }

  /** Every turn of either loop consumes at least four bytes. */
  lemma TurnsConsume(data: seq<Byte>)
    ensures ServerSize(data) == 0 || ServerSize(data) >= QUERY_SIZE
    ensures ClientSize(data) == 0 || ClientSize(data) >= 4
  {
  }

  // ---------------------------------------------------------------- replies built by the server

  function LoginReply(kind: bv32, code: bv16, flag: bv16): (reply: seq<Byte>)
    ensures |reply| == 12
  {
    Wire32(8) + Wire32(kind) + Wire16(code) + Wire16(flag)
  }

  function QueryReply(kind: bv32, result: bv32): (reply: seq<Byte>)
    ensures |reply| == 12
  {
    Wire32(8) + Wire32(kind) + Wire32(result)
  }

  /** What the client sees of a reply: one whole frame of twelve bytes with the type and fields that were sent. */
  lemma RepliesAreFrames(kind: bv32, code: bv16, flag: bv16, result: bv32)
    ensures WellFormed(CLIENT, Message(kind as int, LoginReply(kind, code, flag)))
    ensures WellFormed(CLIENT, Message(kind as int, QueryReply(kind, result)))
    ensures Read16(LoginReply(kind, code, flag)[8..10]) == code
    ensures Read16(LoginReply(kind, code, flag)[10..12]) == flag
    ensures Read32(QueryReply(kind, result)[8..12]) == result
  {
    var r, q := LoginReply(kind, code, flag), QueryReply(kind, result);
    AppendAssoc(Wire32(8) + Wire32(kind), Wire16(code), Wire16(flag));
    RecordIsFrame(8, kind, Wire16(code) + Wire16(flag));
    RecordIsFrame(8, kind, Wire32(result));
    FourFields(Wire32(8), Wire32(kind), Wire16(code), Wire16(flag));
    FourFields(Wire32(8), Wire32(kind), Wire32(result), []);
    assert q + [] == q;
    FieldRoundTrip(code, 0);
    FieldRoundTrip(flag, result);
  }

  /** What the client reads of a query reply, and that it is one frame. */
  lemma QueryReplyRead(kind: bv32, result: bv32)
    ensures
      var reply := QueryReply(kind, result);
      && Read32(reply[4..8]) == kind && Read32(reply[8..12]) == result
      && Lawful(CLIENT) && Frames(CLIENT, reply) == [Message(kind as int, reply)]
  {
    FramersLawful();
    RepliesAreFrames(kind, 0, 0, result);
    OneMessage(CLIENT, Message(kind as int, QueryReply(kind, result)));
    HeaderFields(8, kind, Wire32(result));
    FieldRoundTrip(0, kind);
  }

  // ---------------------------------------------------------------- queries sent by the client

  /** A query request for one message type, cleared but for its type. */
  function QueryRecord(kind: bv32): (record: seq<Byte>)
    ensures |record| == QUERY_SIZE
  {
    Wire32(kind) + Repeat(0, 4)
  }

  lemma QueryRecordIs(kind: bv32)
    ensures QueryRecord(kind) == Wire32(kind) + [0, 0, 0, 0]
  {
    assert Repeat(0, 4) == [0, 0, 0, 0];
  }

  /** The server takes a query record as one query exactly if its type is not that of a login or logoff. */
  lemma QueryIsMessageIff(kind: bv32)
    ensures WellFormed(SERVER, Message(kind as int, QueryRecord(kind))) <==> kind as int !in {1801, 1802}
  {
    ServerTakes(kind, Repeat(0, 4), []);
    assert SERVER.Size(QueryRecord(kind)) == ServerSize(QueryRecord(kind));
  }
}
