/**
 The two process_data loops as they are written, proved to be one pass of their framers. Each takes
 the bytes handle_read shows it and returns how many it used, with the handler calls it made.
 */
module MessageLoops {
  import opened Bytes
  import opened Framing
  import opened LoginCodec
  import opened Protocol
  import opened Sequences
  import opened Transport

  /** The server's handlers; which one runs is all that process_data decides about a message. */
  datatype Handler = LoginHandler | LogoffHandler | RequestHandler

  function HandlerOf(kind: nat): Handler {
    if kind == FEED_LOGIN then LoginHandler else if kind == FEED_LOGOFF then LogoffHandler else RequestHandler
  }

  function HandlersOf(ms: seq<Message<Byte>>): seq<Handler> {
    seq(|ms|, i requires 0 <= i < |ms| => HandlerOf(ms[i].kind))
  }

  lemma HandlersSnoc(ms: seq<Message<Byte>>, m: Message<Byte>)
    ensures HandlersOf(ms + [m]) == HandlersOf(ms) + [HandlerOf(m.kind)]
  {
  }

  /** The query records the client sends for these types. */
  function QueryRecords(kinds: seq<bv32>): seq<seq<Byte>> {
    if kinds == [] then [] else QueryRecords(kinds[..|kinds| - 1]) + [QueryRecord(kinds[|kinds| - 1])]
  }

  lemma HandlersCons(m: Message<Byte>, ms: seq<Message<Byte>>)
    ensures HandlersOf([m] + ms) == [HandlerOf(m.kind)] + HandlersOf(ms)
  {
  }

  /** One pass over a whole message and more of them dispatches all and leaves nothing. */
  lemma {:induction false} AllServed(f: Framer<Byte>, m: Message<Byte>, ms: seq<Message<Byte>>)
    requires Lawful(f) && WellFormed(f, m) && AllWellFormed(f, ms)
    requires !f.Journals(m.kind) && forall later <- ms :: !f.Journals(later.kind)
    ensures Process(f, Receiver(m.body + Encode(ms), [], [])) == Receiver([], [m] + ms, [])
  {
    var all, data := [m] + ms, m.body + Encode(ms);
    assert all[0] == m && all[1..] == ms;
    FramesOfEncode(f, all, []);
    EmptyUnit(data);
    EmptyUnit(all);
    assert Rest(f, []) == [] && Frames(f, []) == [];
    ProcessMeans(f, Receiver(data, [], []));
    SavedWhole(f, all);
  }

  /** What the server's loop makes of one whole request: it goes to its handler, and nothing is left. */
  lemma {:induction false} RequestServed(kind: bv32, payload: seq<Byte>)
    requires |payload| + 4 == if kind as int in {1801, 1802} then 80 else 8
    ensures Lawful(SERVER)
    ensures
      var data, request := Wire32(kind) + payload, Message(kind as int, Wire32(kind) + payload);
      && Process(SERVER, Receiver(data, [], [])) == Receiver([], [request], [])
      && HandlersOf([request])[0] ==
           if kind as int == 1801 then LoginHandler else if kind as int == 1802 then LogoffHandler else RequestHandler
  {
    FramersLawful();
    var request := Message(kind as int, Wire32(kind) + payload);
    ServerTakes(kind, payload, []);
    assert WellFormed(SERVER, request);
    AllServed(SERVER, request, []);
    EmptyUnit(request.body);
    EmptyUnit([request]);
  }

  /** Queries of these types, as messages. */
  function Queries(kinds: seq<bv32>): seq<Message<Byte>> {
    if kinds == [] then []
    else
      var last := kinds[|kinds| - 1];
      Queries(kinds[..|kinds| - 1]) + [Message(last as int, QueryRecord(last))]
  }

  /** They are what the client sends, each is one request, and each goes to the request handler. */
  lemma {:induction false} QueriesServed(kinds: seq<bv32>)
    requires forall kind <- kinds :: kind as int !in {1801, 1802}
    ensures |Queries(kinds)| == |kinds| && Encode(Queries(kinds)) == Concat(QueryRecords(kinds))
    ensures AllWellFormed(SERVER, Queries(kinds))
    ensures forall i :: 0 <= i < |kinds| ==> HandlersOf(Queries(kinds))[i] == RequestHandler
    decreases |kinds|
  {
    if kinds != [] {
      var init, last := kinds[..|kinds| - 1], kinds[|kinds| - 1];
      var query := Message(last as int, QueryRecord(last));
      assert last in kinds && forall kind <- init :: kind in kinds;
      QueriesServed(init);
      EncodeAppend(Queries(init), [query]);
      assert Encode([query]) == query.body by { EmptyUnit(query.body); }
      ConcatSnoc(QueryRecords(init), query.body);
      QueryIsMessageIff(last);
      HandlersSnoc(Queries(init), query);
    }
  }

  /**
   Client to server: what a client sends is dispatched as its login, to the login handler, and then each
   of its queries, in order, to the request handler.
   */
  lemma {:induction false} SessionServed(code: bv16, pwd: seq<Byte>, timestamp: seq<Byte>, kinds: seq<bv32>)
    requires forall kind <- kinds :: kind as int !in {1801, 1802}
    ensures Lawful(SERVER) && |Queries(kinds)| == |kinds|
    ensures
      var login := Message(1801, LoginRecord(code, pwd, timestamp));
      var sent, calls := login.body + Concat(QueryRecords(kinds)), [login] + Queries(kinds);
      && Process(SERVER, Receiver(sent, [], [])) == Receiver([], calls, [])
      && HandlersOf(calls)[0] == LoginHandler
      && forall i :: 1 <= i < |calls| ==> HandlersOf(calls)[i] == RequestHandler
  {
    FramersLawful();
    var login, queries := Message(1801, LoginRecord(code, pwd, timestamp)), Queries(kinds);
    RecordIsOneMessage(code, pwd, timestamp);
    QueriesServed(kinds);
    AllServed(SERVER, login, queries);
    HandlersCons(login, queries);
  }

  /** What one turn of a loop has to do: take nothing, or exactly the head message of the framer. */
  ghost predicate Turn(f: Framer<Byte>, window: seq<Byte>, sizeProcess: nat, msgType: nat) {
    sizeProcess == f.Size(window) && (sizeProcess > 0 ==> msgType == f.Kind(window))
  }

  /** The body of the loop of BSESimulator::process_data, up to the cursor updates. */
  method ServerTurn(window: seq<Byte>) returns (sizeProcess: nat, msgType: nat, handler: Handler)
    ensures Turn(SERVER, window, sizeProcess, msgType)
    ensures sizeProcess > 0 ==> handler == HandlerOf(msgType)
  {
    sizeProcess, msgType, handler := 0, 0, RequestHandler;
    if |window| >= TYPE_SIZE {
      msgType := ReadNumber(window[..4]);
      var sizeExpect := CalcMsgSize(msgType);
      if |window| >= sizeExpect {
        sizeProcess := sizeExpect;
        match msgType
        case 1801 => handler := LoginHandler;
        case 1802 => handler := LogoffHandler;
        case _ => handler := RequestHandler;
      }
    }
  }

  // ---------------------------------------------------------------- the client's queries

  /** SuccessFlag is 0 in the bytes from the head of a login reply on, which may end before the flag does. */
  predicate Succeeded(bytes: seq<Byte>)
    requires |bytes| >= REPLY_SIZE
  {
    Read16(bytes[10..12]) == 0
  }

  /** What the client sends in answer to a message; behind is what follows it in memory. */
  function Answer(m: Message<Byte>, behind: seq<Byte>, kinds: seq<bv32>): seq<seq<Byte>>
    requires |behind| >= REPLY_SIZE
  {
    if m.kind == FEED_LOGIN && Succeeded(m.body + behind) then QueryRecords(kinds) else []
  }

  function Answers(ms: seq<Message<Byte>>, behind: seq<Byte>, kinds: seq<bv32>): seq<seq<Byte>>
    requires |behind| >= REPLY_SIZE
  {
    if ms == [] then [] else Answer(ms[0], Encode(ms[1..]) + behind, kinds) + Answers(ms[1..], behind, kinds)
  }

  lemma {:induction false} AnswersSnoc(ms: seq<Message<Byte>>, m: Message<Byte>, behind: seq<Byte>, kinds: seq<bv32>)
    requires |behind| >= REPLY_SIZE
    ensures Answers(ms + [m], behind, kinds) == Answers(ms, m.body + behind, kinds) + Answer(m, behind, kinds)
  {
    if ms == [] {
      assert [] + [m] == [m] && [m][1..] == [] && Encode<Byte>([]) + behind == behind;
      EmptyUnit(Answer(m, behind, kinds));
    } else {
      ConsAppend(ms, [m]);
      AnswersSnoc(ms[1..], m, behind, kinds);
      EncodeAppend(ms[1..], [m]);
      assert Encode([m]) == m.body by { EmptyUnit(m.body); }
      AppendAssoc(Encode(ms[1..]), m.body, behind);
      AppendAssoc(Answer(ms[0], Encode(ms[1..]) + (m.body + behind), kinds), Answers(ms[1..], m.body + behind, kinds),
        Answer(m, behind, kinds));
    }
  }

  /** The server's reply to a login starts the queries exactly if it says success, whatever follows it. */
  lemma LoginStartsQueries(code: bv16, flag: bv16, behind: seq<Byte>, kinds: seq<bv32>)
    requires |behind| >= REPLY_SIZE
    ensures Answer(Message(1801, LoginReply(1801, code, flag)), behind, kinds)
         == if flag == 0 then QueryRecords(kinds) else []
  {
    var reply := LoginReply(FEED_LOGIN_TYPE, code, flag);
    RepliesAreFrames(FEED_LOGIN_TYPE, code, flag, 0);
    assert (reply + behind)[10..12] == reply[10..12];
  }

  /**
   A session seen by the client: the reply to its login, then messages that answer no login. It sends its
   queries once if the flag of the reply is 0, and nothing otherwise.
   */
  lemma {:induction false} SessionAsks(code: bv16, flag: bv16, later: seq<Message<Byte>>, behind: seq<Byte>,
      kinds: seq<bv32>)
    requires |behind| >= REPLY_SIZE && forall m <- later :: m.kind != 1801
    ensures Answers([Message(1801, LoginReply(1801, code, flag))] + later, behind, kinds)
         == if flag == 0 then QueryRecords(kinds) else []
  {
    var reply := Message(1801, LoginReply(1801, code, flag));
    var ms := [reply] + later;
    assert ms[0] == reply && ms[1..] == later;
    LoginStartsQueries(code, flag, Encode(later) + behind, kinds);
    OthersAskNothing(later, behind, kinds);
    EmptyUnit(Answer(reply, Encode(later) + behind, kinds));
  }

  lemma {:induction false} OthersAskNothing(ms: seq<Message<Byte>>, behind: seq<Byte>, kinds: seq<bv32>)
    requires |behind| >= REPLY_SIZE && forall m <- ms :: m.kind != 1801
    ensures Answers(ms, behind, kinds) == []
  {
    if ms != [] {
      assert ms[0] in ms && forall m <- ms[1..] :: m in ms;
      OthersAskNothing(ms[1..], behind, kinds);
    }
  }

  /** The for loop over query_msgs. */
  method SendQueries(kinds: seq<bv32>) returns (requests: seq<seq<Byte>>)
    ensures requests == QueryRecords(kinds) && |requests| == |kinds|
    ensures forall i :: 0 <= i < |kinds| ==> requests[i] == Wire32(kinds[i]) + [0, 0, 0, 0]
  {
    requests := [];
    for i := 0 to |kinds|
      invariant requests == QueryRecords(kinds[..i]) && |requests| == i
      invariant forall j :: 0 <= j < i ==> requests[j] == Wire32(kinds[j]) + [0, 0, 0, 0]
    {
      QueryRecordIs(kinds[i]);
      assert kinds[..i + 1][..i] == kinds[..i];
      requests := requests + [QueryRecord(kinds[i])];
    }
    assert kinds[..|kinds|] == kinds;
  }

  /** The body of the loop of BSEClient::process_data, up to the cursor updates; behind follows the window in memory. */
  method ClientTurn(window: seq<Byte>, behind: seq<Byte>)
    returns (sizeProcess: nat, msgType: nat, saves: bool, asks: bool)
    requires |behind| >= REPLY_SIZE
    ensures Turn(CLIENT, window, sizeProcess, msgType)
    ensures sizeProcess > 0 ==> saves == CLIENT.Journals(msgType)
    ensures asks == (sizeProcess > 0 && msgType == FEED_LOGIN && Succeeded(window + behind))
  {
    sizeProcess, msgType, saves, asks := 0, 0, false, false;
    if |window| >= HEADER_SIZE {
      var sizeExpect := ReadNumber(window[..4]) + 4;
      if |window| >= sizeExpect {
        sizeProcess := sizeExpect;
        msgType := ReadNumber(window[4..8]);
        match msgType
        case 1801 => asks := Succeeded(window + behind);
        case 1802 =>
        case 2111 =>
        case 2110 =>
        case _ => saves := true;
      }
    }
  }

  /** Where a loop stands: what it has not taken yet, and what it has handed over. */
  ghost predicate At(f: Framer<Byte>, goal: Receiver, pending: seq<Byte>, calls: seq<Message<Byte>>, journal: seq<Byte>)
    requires Lawful(f)
  {
    Process(f, Receiver(pending, calls, journal)) == goal
  }

  /** One turn moves the cursor from `at` to `next` and keeps the loop on its way to the goal. */
  lemma TurnTaken(f: Framer<Byte>, goal: Receiver, data: seq<Byte>, at: nat, next: nat, call: Message<Byte>,
      calls: seq<Message<Byte>>, journal: seq<Byte>)
    requires Lawful(f) && at < next <= |data| && Turn(f, data[at..], next - at, call.kind)
    requires call.body == data[at..next] && At(f, goal, data[at..], calls, journal)
    ensures At(f, goal, data[next..], calls + [call], journal + if f.Journals(call.kind) then call.body else [])
  {
    CutTwice(data, at, next - at);
  }

  lemma Stopped(f: Framer<Byte>, goal: Receiver, window: seq<Byte>, kind: nat, calls: seq<Message<Byte>>,
      journal: seq<Byte>)
    requires Lawful(f) && (window == [] || Turn(f, window, 0, kind)) && At(f, goal, window, calls, journal)
    ensures goal == Receiver(window, calls, journal)
  {
  }

  /** Appending what a message that is not journalled stores. */
  lemma StoresNothing(f: Framer<Byte>, m: Message<Byte>, journal: seq<Byte>)
    requires !f.Journals(m.kind)
    ensures journal + (if f.Journals(m.kind) then m.body else []) == journal
  {
  }

  /** BSESimulator::process_data */
  method ServerLoop(data: seq<Byte>) returns (sizeTotal: nat, calls: seq<Message<Byte>>, handlers: seq<Handler>)
    ensures Lawful(SERVER) && sizeTotal <= |data|
    ensures Process(SERVER, Receiver(data, [], [])) == Receiver(data[sizeTotal..], calls, [])
    ensures handlers == HandlersOf(calls)
  {
    FramersLawful();
    ghost var goal := Process(SERVER, Receiver(data, [], []));
    sizeTotal, calls, handlers := 0, [], [];
    var sizeRemain: nat := |data|;
    assert data[0..] == data;
    while sizeRemain > 0
      invariant sizeTotal + sizeRemain == |data| && sizeTotal <= |data|
      invariant At(SERVER, goal, data[sizeTotal..], calls, [])
      invariant handlers == HandlersOf(calls)
      decreases sizeRemain
    {
      var sizeProcess, msgType, handler := ServerTurn(data[sizeTotal..]);
      if sizeProcess == 0 {
        break;
      }
      var next := sizeTotal + sizeProcess;
      var call := Message(msgType, data[sizeTotal..next]);
      TurnTaken(SERVER, goal, data, sizeTotal, next, call, calls, []);
      StoresNothing(SERVER, call, []);
      HandlersSnoc(calls, call);
      calls, handlers := calls + [call], handlers + [handler];
      sizeTotal, sizeRemain := next, sizeRemain - sizeProcess;
    }
    Stopped(SERVER, goal, data[sizeTotal..], 0, calls, []);
  }

  /** What the client has sent so far, seen from where its loop stands. */
  ghost predicate Asked(requests: seq<seq<Byte>>, calls: seq<Message<Byte>>, pending: seq<Byte>, behind: seq<Byte>,
      kinds: seq<bv32>)
    requires |behind| >= REPLY_SIZE
  {
    requests == Answers(calls, pending + behind, kinds)
  }

  lemma AskedOn(requests: seq<seq<Byte>>, more: seq<seq<Byte>>, calls: seq<Message<Byte>>, call: Message<Byte>,
      pending: seq<Byte>, later: seq<Byte>, behind: seq<Byte>, kinds: seq<bv32>)
    requires |behind| >= REPLY_SIZE && Asked(requests, calls, pending, behind, kinds) && pending == call.body + later
    requires more == if call.kind == FEED_LOGIN && Succeeded(pending + behind) then QueryRecords(kinds) else []
    ensures Asked(requests + more, calls + [call], later, behind, kinds)
  {
    AppendAssoc(call.body, later, behind);
    AnswersSnoc(calls, call, later + behind, kinds);
  }

  /** The client's journal as it would be with the file open, and as it is. */
  function Stored(isOpen: bool, journal: seq<Byte>, full: seq<Byte>): seq<Byte> {
    if isOpen then full else journal
  }

  /** What the client's loop has produced; full is its journal as it would be with the file open. */
  datatype Output = Output(calls: seq<Message<Byte>>, full: seq<Byte>, stored: seq<Byte>, requests: seq<seq<Byte>>)

  /** What does not change while it runs. */
  datatype Setting = Setting(goal: Receiver, behind: seq<Byte>, journal: seq<Byte>, isOpen: bool, kinds: seq<bv32>)

  ghost predicate Underway(f: Framer<Byte>, s: Setting, pending: seq<Byte>, out: Output)
    requires Lawful(f) && |s.behind| >= REPLY_SIZE
  {
    && At(f, s.goal, pending, out.calls, out.full)
    && out.stored == Stored(s.isOpen, s.journal, out.full)
    && Asked(out.requests, out.calls, pending, s.behind, s.kinds)
  }

  /** What one message adds to the output. */
  function Extended(out: Output, call: Message<Byte>, saves: bool, isOpen: bool, queries: seq<seq<Byte>>): Output {
    Output(out.calls + [call], if saves then out.full + call.body else out.full,
      if saves && isOpen then out.stored + call.body else out.stored, out.requests + queries)
  }

  /** The journal as it would be with the file open, and as it is, after one message. */
  lemma StoredOn(f: Framer<Byte>, s: Setting, out: Output, call: Message<Byte>, saves: bool, queries: seq<seq<Byte>>)
    requires out.stored == Stored(s.isOpen, s.journal, out.full) && saves == f.Journals(call.kind)
    ensures var o := Extended(out, call, saves, s.isOpen, queries);
            && o.stored == Stored(s.isOpen, s.journal, o.full)
            && o.full == out.full + if f.Journals(call.kind) then call.body else []
  {
    if !saves {
      StoresNothing(f, call, out.full);
    }
  }

  lemma UnderwayOn(f: Framer<Byte>, s: Setting, data: seq<Byte>, at: nat, next: nat, out: Output, call: Message<Byte>,
      saves: bool, queries: seq<seq<Byte>>)
    requires Lawful(f) && |s.behind| >= REPLY_SIZE && at < next <= |data| && call.body == data[at..next]
    requires Underway(f, s, data[at..], out) && Turn(f, data[at..], next - at, call.kind)
    requires saves == f.Journals(call.kind)
    requires queries ==
             if call.kind == FEED_LOGIN && Succeeded(data[at..] + s.behind) then QueryRecords(s.kinds) else []
    ensures Underway(f, s, data[next..], Extended(out, call, saves, s.isOpen, queries))
  {
    var window, later := data[at..], data[next..];
    TurnTaken(f, s.goal, data, at, next, call, out.calls, out.full);
    StoredOn(f, s, out, call, saves, queries);
    DropSplit(data, at, next);
    AskedOn(out.requests, queries, out.calls, call, window, later, s.behind, s.kinds);
  }

  /** BSEClient::process_data; the default case is save_jnl, which does nothing without a file. */
  method ClientLoop(data: seq<Byte>, behind: seq<Byte>, journal: seq<Byte>, isOpen: bool, kinds: seq<bv32>)
    returns (sizeTotal: nat, out: Output)
    requires |behind| >= REPLY_SIZE
    ensures Lawful(CLIENT) && sizeTotal <= |data|
    ensures Process(CLIENT, Receiver(data, [], journal)) == Receiver(data[sizeTotal..], out.calls, out.full)
    ensures out.stored == if isOpen then out.full else journal
    ensures out.requests == Answers(out.calls, data[sizeTotal..] + behind, kinds)
  {
    FramersLawful();
    ghost var s := Setting(Process(CLIENT, Receiver(data, [], journal)), behind, journal, isOpen, kinds);
    sizeTotal, out := 0, Output([], journal, journal, []);
    var sizeRemain: nat := |data|;
    assert data[0..] == data;
    while sizeRemain > 0
      invariant sizeTotal + sizeRemain == |data| && sizeTotal <= |data|
      invariant Underway(CLIENT, s, data[sizeTotal..], out)
      decreases sizeRemain
    {
      var sizeProcess, msgType, saves, asks := ClientTurn(data[sizeTotal..], behind);
      if sizeProcess == 0 {
        break;
      }
      var next := sizeTotal + sizeProcess;
      var call := Message(msgType, data[sizeTotal..next]);
      var queries := [];
      if asks {
        queries := SendQueries(kinds);
      }
      UnderwayOn(CLIENT, s, data, sizeTotal, next, out, call, saves, queries);
      out := Extended(out, call, saves, isOpen, queries);
      sizeTotal, sizeRemain := next, sizeRemain - sizeProcess;
    }
    Stopped(CLIENT, s.goal, data[sizeTotal..], 0, out.calls, out.full);
  }
}
