/**
 The loops of send_jnl_file as they are written, for any clients, any rate, and connections that come
 and go while a slice loop sleeps.
 */
module PlaybackLoops {
  import opened Bytes
  import opened Replay
  import opened Sequences

  /**
   What the rest of the system does meanwhile: for each turn of a slice loop still to come, the
   connection each descriptor stands for then. Connections are numbered as they are accepted.
   */
  type World = seq<map<int, nat>>

  /** One accepted send_data call: in which turn, to the queue of which connection, and the bytes. */
  datatype Request = Request(turn: nat, conn: nat, bytes: seq<Byte>)

  // ---------------------------------------------------------------- requests

  function RequestsOf(requests: map<int, seq<Request>>, fd: int): seq<Request> {
    if fd in requests then requests[fd] else []
  }

  function BytesOf(requests: seq<Request>): seq<Byte> {
    if requests == [] then [] else requests[0].bytes + BytesOf(requests[1..])
  }

  /** All bytes queued for a descriptor so far, whoever had it. */
  function Got(requests: map<int, seq<Request>>, fd: int): seq<Byte> {
    BytesOf(RequestsOf(requests, fd))
  }

  function WithRequest(requests: map<int, seq<Request>>, fd: int, request: Request): map<int, seq<Request>> {
    requests[fd := RequestsOf(requests, fd) + [request]]
  }

  lemma {:induction false} BytesAppend(a: seq<Request>, b: seq<Request>)
    ensures BytesOf(a + b) == BytesOf(a) + BytesOf(b)
  {
    if a == [] {
      assert a + b == b;
    } else {
      ConsAppend(a, b);
      BytesAppend(a[1..], b);
      AppendAssoc(a[0].bytes, BytesOf(a[1..]), BytesOf(b));
    }
  }

  lemma WithRequestMeans(requests: map<int, seq<Request>>, fd: int, request: Request)
    ensures Got(WithRequest(requests, fd, request), fd) == Got(requests, fd) + request.bytes
    ensures forall g :: g != fd ==> RequestsOf(WithRequest(requests, fd, request), g) == RequestsOf(requests, g)
    ensures request.bytes != [] && NoEmpty(requests) ==> NoEmpty(WithRequest(requests, fd, request))
  {
    BytesAppend(RequestsOf(requests, fd), [request]);
    EmptyUnit(request.bytes);
    assert BytesOf([request]) == request.bytes + BytesOf([]);
  }

  /** send_data has never been asked to send nothing. */
  ghost predicate NoEmpty(requests: map<int, seq<Request>>) {
    forall fd :: forall request <- RequestsOf(requests, fd) :: request.bytes != []
  }

  /** Whether the client has a context in a turn, as long as the script goes. */
  function Presence(fd: int, world: World): nat -> bool {
    (n: nat) => n < |world| && fd in world[n]
  }

  lemma SliceJoins(got: seq<Byte>, chunk: seq<Byte>, from: nat, to: nat)
    requires from <= to <= |chunk|
    ensures (got + chunk[..from]) + chunk[from..to] == got + chunk[..to]
  {
  }

  /** 4 ms for each turn of a slice loop, if there is a rate. */
  function SleptFor(rate: int, turns: nat): (ms: nat)
    ensures ms == if rate > 0 then 4 * turns else 0
  {
    if rate > 0 then turns * SLEEP_MS else 0
  }

  lemma SleptJoin(rate: int, turns: nat, more: nat)
    requires more == turns + 1
    ensures SleptFor(rate, more) == SleptFor(rate, turns) + SleptFor(rate, 1)
  {
  }

  /** The slice loop of this chunk has come round so often and sent so much, and was not done before. */
  ghost predicate ChunkRun(fd: int, size: nat, rate: int, world: World, turns: nat, sent: nat) {
    && turns <= |world|
    && sent == Sliced(Presence(fd, world), rate, size, turns)
    && (forall m: nat :: m < turns ==> Sliced(Presence(fd, world), rate, size, m) < size)
  }

  lemma ChunkRunOn(fd: int, size: nat, rate: int, world: World, turns: nat, sent: nat, more: nat, next: nat)
    requires ChunkRun(fd, size, rate, world, turns, sent) && turns < |world| && sent < size && more == turns + 1
    requires next == sent + if fd in world[turns] then Min(SliceSize(rate), size - sent) else 0
    ensures ChunkRun(fd, size, rate, world, more, next)
  {
  }

  /** The fields of a playback at one moment: world is what is left of script after some turns. */
  datatype Books = Books(
    script: World, past: nat, world: World, requests: map<int, seq<Request>>, bytes: nat, slept: nat)

  predicate Entry(script: World, past: nat, fd: int, request: Request) {
    && request.turn < past && request.turn < |script|
    && fd in script[request.turn] && script[request.turn][fd] == request.conn
  }

  /** Every request was accepted by the connection that had the descriptor in its turn, one turn after the other. */
  ghost predicate InTurn(script: World, past: nat, fd: int, requests: seq<Request>) {
    && (forall k :: 0 <= k < |requests| ==> Entry(script, past, fd, requests[k]))
    && (forall i, k :: 0 <= i < k < |requests| ==> requests[i].turn < requests[k].turn)
  }

  ghost predicate Logged(b: Books) {
    && b.past <= |b.script| && b.world == b.script[b.past..]
    && (forall fd :: InTurn(b.script, b.past, fd, RequestsOf(b.requests, fd)))
  }

  lemma InTurnNext(script: World, past: nat, fd: int, requests: seq<Request>, next: nat, conn: nat, data: seq<Byte>)
    requires InTurn(script, past, fd, requests) && past < |script| && next == past + 1
    ensures InTurn(script, next, fd, requests)
    ensures fd in script[past] && script[past][fd] == conn ==>
              InTurn(script, next, fd, requests + [Request(past, conn, data)])
  {
    var more := requests + [Request(past, conn, data)];
    assert forall k :: 0 <= k < |requests| ==> more[k] == requests[k] && Entry(script, past, fd, requests[k]);
  }

  lemma LoggedOn(before: Books, after: Books, fd: int, data: seq<Byte>)
    requires Logged(before) && before.world != []
    requires after.script == before.script && after.past == before.past + 1 && after.world == before.world[1..]
    requires after.requests == before.requests
          || (fd in before.world[0]
              && after.requests == WithRequest(before.requests, fd, Request(before.past, before.world[0][fd], data)))
    ensures Logged(after)
  {
    assert before.world[0] == before.script[before.past];
    forall g ensures InTurn(after.script, after.past, g, RequestsOf(after.requests, g)) {
      var conn := if g in before.world[0] then before.world[0][g] else 0;
      InTurnNext(before.script, before.past, g, RequestsOf(before.requests, g), after.past, conn, data);
    }
  }

  /** What every turn keeps; world is the script it started with. */
  ghost predicate Kept(before: Books, after: Books, rate: int, turns: nat) {
    && turns <= |before.world| && after.world == before.world[turns..] && after.script == before.script
    && (Logged(before) ==> Logged(after))
    && (NoEmpty(before.requests) ==> NoEmpty(after.requests))
    && (WithinRate(before.bytes, before.slept, rate) ==> WithinRate(after.bytes, after.slept, rate))
  }

  lemma KeptJoin(b0: Books, b1: Books, b2: Books, rate: int, turns: nat, more: nat, total: nat)
    requires Kept(b0, b1, rate, turns) && Kept(b1, b2, rate, more) && total == turns + more
    ensures Kept(b0, b2, rate, total)
  {
  }

  /** Between two moments one client was sent data and nobody else anything, in so many turns. */
  ghost predicate Served(before: Books, after: Books, fd: int, data: seq<Byte>, rate: int, turns: nat) {
    && Kept(before, after, rate, turns)
    && Got(after.requests, fd) == Got(before.requests, fd) + data
    && (forall g :: g != fd ==> RequestsOf(after.requests, g) == RequestsOf(before.requests, g))
    && after.bytes == before.bytes + |data|
    && after.slept == before.slept + SleptFor(rate, turns)
  }

  lemma ServedOn(b0: Books, b1: Books, b2: Books, fd: int, chunk: seq<Byte>, rate: int, turns: nat, more: nat,
      from: nat, to: nat)
    requires from <= to <= |chunk| && more == turns + 1
    requires Served(b0, b1, fd, chunk[..from], rate, turns) && Served(b1, b2, fd, chunk[from..to], rate, 1)
    ensures Served(b0, b2, fd, chunk[..to], rate, more)
  {
    KeptJoin(b0, b1, b2, rate, turns, 1, more);
    SliceJoins(Got(b0.requests, fd), chunk, from, to);
    SleptJoin(rate, turns, more);
  }

  /** One turn of the slice loop, on the books. */
  lemma TurnServes(before: Books, after: Books, fd: int, data: seq<Byte>, rate: int, done: nat)
    requires before.world != [] && |data| <= SliceSize(rate) && done == if fd in before.world[0] then |data| else 0
    requires after.script == before.script && after.past == before.past + 1 && after.world == before.world[1..]
    requires after.requests ==
             if fd in before.world[0] && data != []
             then WithRequest(before.requests, fd, Request(before.past, before.world[0][fd], data)) else before.requests
    requires after.bytes == before.bytes + done && after.slept == before.slept + SleptFor(rate, 1)
    ensures Served(before, after, fd, data[..done], rate, 1)
  {
    if fd in before.world[0] {
      WithRequestMeans(before.requests, fd, Request(before.past, before.world[0][fd], data));
      assert data[..done] == data;
    }
    EmptyUnit(Got(before.requests, fd));
    if WithinRate(before.bytes, before.slept, rate) {
      SliceWithinRate(before.bytes, before.slept, rate, done);
    }
    if Logged(before) {
      LoggedOn(before, after, fd, data);
    }
  }

  lemma ServedNothing(b: Books, fd: int, chunk: seq<Byte>, rate: int)
    ensures Served(b, b, fd, chunk[..0], rate, 0)
  {
  }

  /** The slice loop of a chunk has come round so often, has sent so much of it, and nobody else was sent anything. */
  ghost predicate Slicing(before: Books, now: Books, fd: int, chunk: seq<Byte>, rate: int, turns: nat, sent: nat) {
    && sent <= |chunk|
    && ChunkRun(fd, |chunk|, rate, before.world, turns, sent)
    && Served(before, now, fd, chunk[..sent], rate, turns)
  }

  lemma SlicingOn(b0: Books, b1: Books, b2: Books, fd: int, chunk: seq<Byte>, rate: int, turns: nat, more: nat,
      sent: nat, next: nat)
    requires Slicing(b0, b1, fd, chunk, rate, turns, sent) && b1.world != [] && sent < |chunk| && more == turns + 1
    requires next == sent + if fd in b1.world[0] then Min(SliceSize(rate), |chunk| - sent) else 0
    requires Served(b1, b2, fd, chunk[sent..next], rate, 1)
    ensures Slicing(b0, b2, fd, chunk, rate, more, next)
  {
    ChunkRunOn(fd, |chunk|, rate, b0.world, turns, sent, more, next);
    ServedOn(b0, b1, b2, fd, chunk, rate, turns, more, sent, next);
  }

  /** Everyone has been sent, in addition, exactly their part of these sendings. */
  ghost predicate Carried(before: Books, after: Books, sendings: seq<Sending>) {
    forall fd :: Got(after.requests, fd) == Got(before.requests, fd) + SentTo(fd, sendings)
  }

  /** The sendings of some turns, on top of what every turn keeps. */
  ghost predicate Sent(before: Books, after: Books, sendings: seq<Sending>, rate: int, turns: nat) {
    Kept(before, after, rate, turns) && Carried(before, after, sendings)
  }

  /** A playback that starts afresh has never sent more than its rate allows at 800 ms a second. */
  lemma RateKept(before: Books, after: Books, sendings: seq<Sending>, rate: int, turns: nat)
    requires Sent(before, after, sendings, rate, turns) && before.bytes == before.slept == 0 && rate > 0
    ensures after.bytes * 800 <= after.slept * rate
  {
  }

  lemma NothingSent(b: Books, rate: int)
    ensures Sent(b, b, [], rate, 0)
  {
  }

  lemma CarriedJoin(b0: Books, b1: Books, b2: Books, first: seq<Sending>, second: seq<Sending>)
    requires Carried(b0, b1, first) && Carried(b1, b2, second)
    ensures Carried(b0, b2, first + second)
  {
    forall fd ensures Got(b2.requests, fd) == Got(b0.requests, fd) + SentTo(fd, first + second) {
      SentToAppend(fd, first, second);
      AppendAssoc(Got(b0.requests, fd), SentTo(fd, first), SentTo(fd, second));
    }
  }

  lemma SentOn(b0: Books, b1: Books, b2: Books, first: seq<Sending>, second: seq<Sending>, both: seq<Sending>,
      rate: int, turns: nat, more: nat, total: nat)
    requires Sent(b0, b1, first, rate, turns) && Sent(b1, b2, second, rate, more)
    requires both == first + second && total == turns + more
    ensures Sent(b0, b2, both, rate, total)
  {
    KeptJoin(b0, b1, b2, rate, turns, more, total);
    CarriedJoin(b0, b1, b2, first, second);
  }

  lemma SentOnce(fd: int, chunk: seq<Byte>, clients: seq<int>)
    ensures SentTo(fd, [Sending(chunk, clients)]) == if fd in clients then chunk else []
  {
    EmptyUnit(chunk);
  }

  lemma ServedCarries(before: Books, after: Books, fd: int, data: seq<Byte>, rate: int, turns: nat)
    requires Served(before, after, fd, data, rate, turns)
    ensures Sent(before, after, [Sending(data, [fd])], rate, turns)
  {
    forall g ensures Got(after.requests, g) == Got(before.requests, g) + SentTo(g, [Sending(data, [fd])]) {
      SentOnce(g, data, [fd]);
      EmptyUnit(Got(before.requests, g));
    }
  }

  // ---------------------------------------------------------------- the same sendings, or a part of them

  /** Everyone is sent the same by both. */
  ghost predicate SameSends(a: seq<Sending>, b: seq<Sending>) {
    forall fd :: SentTo(fd, a) == SentTo(fd, b)
  }

  /** Everyone is sent a first part by a of what b sends them, and somebody not all of it. */
  ghost predicate CutShort(a: seq<Sending>, b: seq<Sending>) {
    (forall fd :: SentTo(fd, a) <= SentTo(fd, b)) && exists fd :: |SentTo(fd, a)| < |SentTo(fd, b)|
  }

  lemma SameAppend(a: seq<Sending>, b: seq<Sending>, c: seq<Sending>)
    requires SameSends(b, c)
    ensures SameSends(a + b, a + c)
  {
    forall fd ensures SentTo(fd, a + b) == SentTo(fd, a + c) {
      SentToAppend(fd, a, b);
      SentToAppend(fd, a, c);
    }
  }

  lemma CutAppendShort(a: seq<Sending>, b: seq<Sending>, c: seq<Sending>, later: seq<Sending>)
    requires CutShort(b, c)
    ensures CutShort(a + b, a + (c + later))
  {
    forall fd
      ensures SentTo(fd, a + b) <= SentTo(fd, a + (c + later))
      ensures |SentTo(fd, a + (c + later))| - |SentTo(fd, a + b)| >= |SentTo(fd, c)| - |SentTo(fd, b)|
    {
      SentToAppend(fd, a, b);
      SentToAppend(fd, a, c + later);
      SentToAppend(fd, c, later);
    }
    var fd :| |SentTo(fd, b)| < |SentTo(fd, c)|;
    assert |SentTo(fd, a + b)| < |SentTo(fd, a + (c + later))|;
  }

  lemma FirstClients(clients: seq<int>, i: nat)
    requires i < |clients| && Distinct(clients)
    ensures Distinct(clients[..i]) && clients[i] !in clients[..i] && clients[i] in clients
    ensures forall fd :: fd in clients[..i] ==> fd in clients
    ensures forall fd :: fd in clients[..i + 1] <==> fd in clients[..i] || fd == clients[i]
    ensures i == |clients| - 1 ==> clients[..i + 1] == clients
  {
    assert clients[..i + 1] == clients[..i] + [clients[i]];
  }

  /** The chunk sent to one client after the other. */
  function OneByOne(chunk: seq<Byte>, clients: seq<int>): seq<Sending> {
    if clients == [] then []
    else OneByOne(chunk, clients[..|clients| - 1]) + [Sending(chunk, [clients[|clients| - 1]])]
  }

  lemma {:induction false} OneByOneMeans(fd: int, chunk: seq<Byte>, clients: seq<int>)
    requires Distinct(clients)
    ensures SentTo(fd, OneByOne(chunk, clients)) == if fd in clients then chunk else []
    decreases |clients|
  {
    if clients != [] {
      var init, last := clients[..|clients| - 1], clients[|clients| - 1];
      OneByOneMeans(fd, chunk, init);
      SentToAppend(fd, OneByOne(chunk, init), [Sending(chunk, [last])]);
      SentOnce(fd, chunk, [last]);
      FirstClients(clients, |clients| - 1);
      EmptyUnit(chunk);
    }
  }

  lemma OneByOneSame(chunk: seq<Byte>, clients: seq<int>)
    requires Distinct(clients)
    ensures SameSends(OneByOne(chunk, clients), [Sending(chunk, clients)])
  {
    forall fd ensures SentTo(fd, OneByOne(chunk, clients)) == SentTo(fd, [Sending(chunk, clients)]) {
      OneByOneMeans(fd, chunk, clients);
      SentOnce(fd, chunk, clients);
    }
  }

  lemma OneByOneNext(chunk: seq<Byte>, clients: seq<int>, i: nat)
    requires i < |clients|
    ensures OneByOne(chunk, clients[..i + 1]) == OneByOne(chunk, clients[..i]) + [Sending(chunk, [clients[i]])]
  {
    assert clients[..i + 1][..i] == clients[..i];
  }

  lemma StuckShare(fd: int, chunk: seq<Byte>, clients: seq<int>, i: nat, sent: nat)
    requires i < |clients| && Distinct(clients) && sent < |chunk|
    ensures SentTo(fd, OneByOne(chunk, clients[..i]) + [Sending(chunk[..sent], [clients[i]])])
         <= SentTo(fd, [Sending(chunk, clients)])
    ensures fd == clients[i] ==>
              |SentTo(fd, OneByOne(chunk, clients[..i]) + [Sending(chunk[..sent], [clients[i]])])|
              < |SentTo(fd, [Sending(chunk, clients)])|
  {
    var first, part := OneByOne(chunk, clients[..i]), chunk[..sent];
    FirstClients(clients, i);
    SentToAppend(fd, first, [Sending(part, [clients[i]])]);
    OneByOneMeans(fd, chunk, clients[..i]);
    SentOnce(fd, part, [clients[i]]);
    SentOnce(fd, chunk, clients);
    EmptyUnit(chunk);
    EmptyUnit(part);
  }

  /** The clients before one whose loop does not end have the chunk, it has a part of it, the others nothing. */
  lemma {:induction false} OneByOneStuck(chunk: seq<Byte>, clients: seq<int>, i: nat, sent: nat)
    requires i < |clients| && Distinct(clients) && sent < |chunk|
    ensures CutShort(OneByOne(chunk, clients[..i]) + [Sending(chunk[..sent], [clients[i]])], [Sending(chunk, clients)])
  {
    forall fd
      ensures SentTo(fd, OneByOne(chunk, clients[..i]) + [Sending(chunk[..sent], [clients[i]])])
           <= SentTo(fd, [Sending(chunk, clients)])
    {
      StuckShare(fd, chunk, clients, i, sent);
    }
    StuckShare(clients[i], chunk, clients, i, sent);
  }

  // ---------------------------------------------------------------- how many turns are enough

  /** If the clients stay, i of them have cost no more turns than their bytes. */
  ghost predicate Counted(clients: seq<int>, size: nat, rate: int, world: World, i: nat, turns: nat) {
    Steady(clients, rate, world) ==> turns <= i * size
  }

  lemma CountedOn(clients: seq<int>, size: nat, rate: int, world: World, i: nat, turns: nat, more: nat, sent: nat,
      total: nat)
    requires i < |clients| && turns <= |world| && total == turns + more
    requires Counted(clients, size, rate, world, i, turns)
    requires ChunkRun(clients[i], size, rate, world[turns..], more, sent)
    ensures Counted(clients, size, rate, world, i + 1, total)
    ensures sent < size && Steady(clients, rate, world) ==> total < |clients| * size
  {
    if Steady(clients, rate, world) {
      SteadyPart(clients, rate, world, i, turns);
      SteadyTurns(clients[i], size, rate, world[turns..], more, sent);
      OneMore(i, size);
      SlicesOrdered(i + 1, |clients|, size);
    }
  }

  /** Slice turns that are enough for a schedule of clients that stay. */
  function Work(schedule: seq<Sending>): nat {
    if schedule == [] then 0 else |schedule[0].clients| * |schedule[0].chunk| + Work(schedule[1..])
  }

  lemma {:induction false} WorkAppend(a: seq<Sending>, b: seq<Sending>)
    ensures Work(a + b) == Work(a) + Work(b)
  {
    if a == [] {
      assert a + b == b;
    } else {
      ConsAppend(a, b);
      WorkAppend(a[1..], b);
    }
  }

  ghost predicate AllSteady(schedule: seq<Sending>, rate: int, world: World) {
    forall i :: 0 <= i < |schedule| ==> Steady(schedule[i].clients, rate, world)
  }

  /** These clients keep their contexts, and the rate gives slices of at least one byte. */
  ghost predicate Steady(clients: seq<int>, rate: int, world: World) {
    (rate <= 0 || rate >= 200) && forall i, n :: 0 <= i < |clients| && 0 <= n < |world| ==> clients[i] in world[n]
  }

  /** In plain terms: the rate is not 1 to 199, and whoever is to be sent anything has a context in every turn. */
  lemma AllThere(schedule: seq<Sending>, rate: int, world: World)
    requires rate <= 0 || rate >= 200
    requires forall n, s, fd :: 0 <= n < |world| && s in schedule && fd in s.clients ==> fd in world[n]
    ensures AllSteady(schedule, rate, world)
  {
    forall i, j, n | 0 <= i < |schedule| && 0 <= j < |schedule[i].clients| && 0 <= n < |world|
      ensures schedule[i].clients[j] in world[n]
    {
      var s, fd := schedule[i], schedule[i].clients[j];
      assert s in schedule && fd in s.clients;
      assert fd in world[n];
    }
  }

  lemma {:induction false} ServedEachTurn(present: nat -> bool, rate: int, size: nat, turns: nat)
    requires SliceSize(rate) > 0 && forall n: nat :: n < turns ==> present(n)
    ensures Sliced(present, rate, size, turns) >= Min(size, turns)
  {
    if turns > 0 {
      ServedEachTurn(present, rate, size, turns - 1);
    }
  }

  /** A client that stays costs at most one turn for each byte of the chunk. */
  lemma {:induction false} SteadyTurns(fd: int, size: nat, rate: int, world: World, turns: nat, sent: nat)
    requires ChunkRun(fd, size, rate, world, turns, sent) && Steady([fd], rate, world)
    ensures turns <= size && (sent < size ==> turns < size)
  {
    assert [fd][0] == fd;
    ServedEachTurn(Presence(fd, world), rate, size, turns);
    if turns > 0 {
      var before: nat := turns - 1;
      ServedEachTurn(Presence(fd, world), rate, size, before);
    }
  }

  lemma SteadyPart(clients: seq<int>, rate: int, world: World, i: nat, used: nat)
    requires Steady(clients, rate, world) && i < |clients| && used <= |world|
    ensures Steady([clients[i]], rate, world[used..]) && Steady(clients, rate, world[used..])
  {
  }

  // ---------------------------------------------------------------- the loops

  /** The server side of a playback. A slice loop that is not done when the script ends is still going round. */
  class Player {
    const script: World
    var past: nat                         // turns of slice loops so far
    var world: World                      // the script still to come
    var requests: map<int, seq<Request>>  // the send_data calls that were accepted, for each descriptor
    var bytes: nat                        // sent to all clients together
    var slept: nat                        // milliseconds

    constructor (script: World)
      ensures this.script == script && Fresh()
    {
      this.script, past, world, requests, bytes, slept := script, 0, script, map[], 0, 0;
    }

    /** Nothing has been played yet. */
    predicate Fresh()
      reads this
    {
      past == 0 && world == script && requests == map[] && bytes == slept == 0
    }

    method SendData(fd: int, data: seq<Byte>, connected: map<int, nat>) returns (sent: nat)
      modifies this`requests, this`bytes
      ensures fd !in connected ==> sent == 0 && requests == old(requests) && bytes == old(bytes)
      ensures fd in connected ==>
                && sent == |data| && bytes == old(bytes) + |data|
                && requests == WithRequest(old(requests), fd, Request(past, connected[fd], data))
    {
      if fd !in connected {
        return 0;
      }
      requests := WithRequest(requests, fd, Request(past, connected[fd], data));
      bytes := bytes + |data|;
      sent := |data|;
    }

    /** The senddata lambda: repeat until everything is queued or nothing is accepted. */
    method SendSlice(fd: int, data: seq<Byte>, connected: map<int, nat>) returns (done: nat)
      modifies this`requests, this`bytes
      ensures done == if fd in connected then |data| else 0
      ensures bytes == old(bytes) + done
      ensures requests ==
              if fd in connected && data != [] then WithRequest(old(requests), fd, Request(past, connected[fd], data))
              else old(requests)
    {
      done := 0;
      while done < |data|
        invariant done == 0 || (done == |data| && fd in connected)
        invariant bytes == old(bytes) + done
        invariant requests ==
                  if done > 0 then WithRequest(old(requests), fd, Request(past, connected[fd], data)) else old(requests)
        decreases |data| - done
      {
        assert data[0..] == data;
        var sent := SendData(fd, data[done..], connected);
        if sent == 0 {
          break;
        }
        done := done + sent;
      }
    }

    function Now(): Books
      reads this
    {
      Books(script, past, world, requests, bytes, slept)
    }

    /** One turn of the slice loop: a slice if the client is there, and a sleep if there is a rate. */
    method SliceTurn(fd: int, chunk: seq<Byte>, sentSize: nat, rate: int) returns (next: nat)
      requires world != [] && sentSize < |chunk|
      modifies this
      ensures next == sentSize + if fd in old(world)[0] then Min(SliceSize(rate), |chunk| - sentSize) else 0
      ensures next <= |chunk| && Served(old(Now()), Now(), fd, chunk[sentSize..next], rate, 1)
    {
      ghost var before := Now();
      var sendRateSize := Min(|chunk| - sentSize, SliceSize(rate));
      var data := chunk[sentSize..sentSize + sendRateSize];
      var done := SendSlice(fd, data, world[0]);
      if rate > 0 {
        slept := slept + SLEEP_MS;
      }
      past, world := past + 1, world[1..];
      next := sentSize + done;
      TurnServes(before, Now(), fd, data, rate, done);
      assert chunk[sentSize..next] == data[..done];
    }

    /**
     The slice loop for one client. It sends what its turns allow, and no more or less: it stops exactly
     when the chunk is used up, and otherwise is still going round when the script ends.
     */
    method SendChunk(fd: int, chunk: seq<Byte>, rate: int) returns (finished: bool, ghost turns: nat, ghost sent: nat)
      modifies this
      ensures Slicing(old(Now()), Now(), fd, chunk, rate, turns, sent)
      ensures (finished <==> sent == |chunk|) && (!finished ==> world == [])
    {
      ghost var before := Now();
      var sentSize: nat := 0;
      turns := 0;
      ServedNothing(before, fd, chunk, rate);
      while sentSize < |chunk| && world != []
        invariant Slicing(before, Now(), fd, chunk, rate, turns, sentSize)
        decreases |world|
      {
        ghost var mid, more := Now(), turns + 1;
        var next := SliceTurn(fd, chunk, sentSize, rate);
        SlicingOn(before, mid, Now(), fd, chunk, rate, turns, more, sentSize, next);
        sentSize, turns := next, more;
      }
      finished, sent := sentSize == |chunk|, sentSize;
    }

    /** The for loop over the clients of one turn; a client whose loop does not end holds up the others. */
    method SendToAll(clients: seq<int>, chunk: seq<Byte>, rate: int)
      returns (finished: bool, ghost turns: nat, ghost actual: seq<Sending>)
      requires Distinct(clients)
      modifies this
      ensures Sent(old(Now()), Now(), actual, rate, turns)
      ensures finished ==> SameSends(actual, [Sending(chunk, clients)])
      ensures !finished ==> CutShort(actual, [Sending(chunk, clients)]) && world == []
      ensures Counted(clients, |chunk|, rate, old(world), |clients|, turns)
      ensures !finished && Steady(clients, rate, old(world)) ==> turns < |clients| * |chunk|
    {
      ghost var before := Now();
      var i := 0;
      turns, actual := 0, [];
      NothingSent(before, rate);
      assert clients[..0] == [];
      while i < |clients|
        invariant i <= |clients| && actual == OneByOne(chunk, clients[..i])
        invariant Sent(before, Now(), actual, rate, turns)
        invariant Counted(clients, |chunk|, rate, before.world, i, turns)
      {
        ghost var mid, sent := Now(), 0;
        ghost var more;
        finished, more, sent := SendChunk(clients[i], chunk, rate);
        ghost var sending := [Sending(chunk[..sent], [clients[i]])];
        ghost var total, both := turns + more, actual + sending;
        ServedCarries(mid, Now(), clients[i], chunk[..sent], rate, more);
        SentOn(before, mid, Now(), actual, sending, both, rate, turns, more, total);
        CountedOn(clients, |chunk|, rate, before.world, i, turns, more, sent, total);
        turns, actual := total, both;
        if !finished {
          OneByOneStuck(chunk, clients, i, sent);
          return;
        }
        assert chunk[..sent] == chunk;
        OneByOneNext(chunk, clients, i);
        i := i + 1;
      }
      finished := true;
      assert clients[..|clients|] == clients;
      OneByOneSame(chunk, clients);
    }

    /** SendToAll as the next step of a playback that has got as far as the stage given. */
    method PlayChunk(clients: seq<int>, chunk: seq<Byte>, rate: int, ghost before: Books, ghost whole: seq<Sending>,
        ghost p: Progress, ghost later: seq<Sending>)
      returns (finished: bool, ghost q: Progress)
      requires Distinct(clients) && p.left == [Sending(chunk, clients)] + later
      requires Playing(before, Now(), whole, p, rate)
      modifies this
      ensures finished ==> Playing(before, Now(), whole, q, rate) && q.left == later
      ensures !finished ==> Stopped(before, Now(), whole, q, rate)
    {
      ghost var mid, sending := Now(), Sending(chunk, clients);
      ghost var turns, extra;
      finished, turns, extra := SendToAll(clients, chunk, rate);
      ghost var total, both := p.used + turns, p.actual + extra;
      SentOn(before, mid, Now(), p.actual, extra, both, rate, p.used, turns, total);
      if finished {
        StageNext(whole, p, sending, later, extra, both, turns, total, rate, before.world);
      } else {
        StageStuck(whole, p, sending, later, extra, both, turns, total, rate, before.world);
      }
      q := Progress(p.done + [sending], later, both, total);
    }

    /**
     send_jnl_file. Every client is sent exactly its part of the schedule, or a first part of it while
     some client's slice loop still goes round; with clients that stay and a rate that is not 1 to 199
     it is done after a bounded number of turns; and the average over all clients keeps to the rate.
     */
    method SendJnlFile(file: seq<Byte>, rate: int, turns: seq<Turn>)
      returns (finished: bool, ghost used: nat, ghost actual: seq<Sending>)
      requires forall t <- turns :: Distinct(t.clients)
      modifies this
      ensures Sent(old(Now()), Now(), actual, rate, used)
      ensures finished ==> SameSends(actual, Schedule(file, rate, turns, 0))
      ensures !finished ==> CutShort(actual, Schedule(file, rate, turns, 0)) && world == []
      ensures
        var schedule := Schedule(file, rate, turns, 0);
        AllSteady(schedule, rate, old(world)) && |old(world)| >= Work(schedule) ==> finished
    {
      ghost var before, whole := Now(), Schedule(file, rate, turns, 0);
      ghost var p := Progress([], whole, [], 0);
      var processSize: nat, n: nat, stopped := 0, 0, false;
      RemainingFirst(file, rate, turns);
      NothingSent(before, rate);
      StageFirst(whole, rate, before.world);
      while processSize < |file| && n < |turns| && !stopped
        invariant if stopped then p.left == [] else Remaining(p.left, file, rate, turns, n, processSize)
        invariant Playing(before, Now(), whole, p, rate)
        decreases if stopped then 0 else 1 + |file| - processSize
      {
        var turn := turns[n];
        var rSize := ReadSize(file, rate, processSize, turn);
        var next: nat := processSize + rSize;
        ghost var later := RemainingNext(p.left, file, rate, turns, n, processSize, next);
        var chunk := file[processSize..next];
        processSize, n := next, n + 1;
        if rSize == 0 || turn.clients == [] {
          stopped := true;
        } else {
          finished, p := PlayChunk(turn.clients, chunk, rate, before, whole, p, later);
          if !finished {
            return false, p.used, p.actual;
          }
          stopped := turn.cancelled;
        }
      }
      if !stopped {
        RemainingLast(p.left, file, rate, turns, n, processSize);
      }
      finished, used, actual := true, p.used, p.actual;
      StageLast(whole, p, rate, before.world);
    }
  }

  /** How far a playback has got: sendings made and to come, what was really sent, and the turns that took. */
  datatype Progress = Progress(done: seq<Sending>, left: seq<Sending>, actual: seq<Sending>, used: nat)

  ghost predicate Playing(before: Books, now: Books, whole: seq<Sending>, p: Progress, rate: int) {
    Sent(before, now, p.actual, rate, p.used) && Stage(whole, p, rate, before.world)
  }

  /** The script has ended while some slice loop was still going round. */
  ghost predicate Stopped(before: Books, now: Books, whole: seq<Sending>, p: Progress, rate: int) {
    && Sent(before, now, p.actual, rate, p.used)
    && CutShort(p.actual, whole) && now.world == []
    && (AllSteady(whole, rate, before.world) ==> p.used < Work(whole))
  }

  /** What the outer loop has done so far, within the turns that are enough for it. */
  ghost predicate Stage(whole: seq<Sending>, p: Progress, rate: int, world: World) {
    && whole == p.done + p.left
    && SameSends(p.actual, p.done)
    && (AllSteady(whole, rate, world) ==> p.used <= Work(p.done))
  }

  lemma StageFirst(whole: seq<Sending>, rate: int, world: World)
    ensures Stage(whole, Progress([], whole, [], 0), rate, world)
  {
    EmptyUnit(whole);
  }

  lemma StageLast(whole: seq<Sending>, p: Progress, rate: int, world: World)
    requires Stage(whole, p, rate, world) && p.left == []
    ensures SameSends(p.actual, whole)
  {
    EmptyUnit(p.done);
  }

  lemma StageNext(whole: seq<Sending>, p: Progress, sending: Sending, later: seq<Sending>, extra: seq<Sending>,
      both: seq<Sending>, more: nat, total: nat, rate: int, world: World)
    requires Stage(whole, p, rate, world) && p.left == [sending] + later && p.used <= |world|
    requires both == p.actual + extra && total == p.used + more
    requires SameSends(extra, [sending])
    requires Steady(sending.clients, rate, world[p.used..]) ==> more <= |sending.clients| * |sending.chunk|
    ensures Stage(whole, Progress(p.done + [sending], later, both, total), rate, world)
  {
    AppendAssoc(p.done, [sending], later);
    SameAppend(p.actual, extra, [sending]);
    SameBefore(p.actual, p.done, [sending]);
    if AllSteady(whole, rate, world) {
      WorkSoFar(whole, p.done, sending, later, rate, world, p.used);
    }
  }

  lemma StageStuck(whole: seq<Sending>, p: Progress, sending: Sending, later: seq<Sending>, extra: seq<Sending>,
      both: seq<Sending>, more: nat, total: nat, rate: int, world: World)
    requires Stage(whole, p, rate, world) && p.left == [sending] + later && p.used <= |world|
    requires both == p.actual + extra && total == p.used + more
    requires CutShort(extra, [sending])
    requires Steady(sending.clients, rate, world[p.used..]) ==> more < |sending.clients| * |sending.chunk|
    ensures CutShort(both, whole)
    ensures AllSteady(whole, rate, world) ==> total < Work(whole)
  {
    CutAppendShort(p.done, extra, [sending], later);
    SameBefore(p.actual, p.done, extra);
    CutSame(p.actual + extra, p.done + extra, whole);
    if AllSteady(whole, rate, world) {
      WorkSoFar(whole, p.done, sending, later, rate, world, p.used);
    }
  }

  lemma SameBefore(a: seq<Sending>, b: seq<Sending>, c: seq<Sending>)
    requires SameSends(a, b)
    ensures SameSends(a + c, b + c)
  {
    forall fd ensures SentTo(fd, a + c) == SentTo(fd, b + c) {
      SentToAppend(fd, a, c);
      SentToAppend(fd, b, c);
    }
  }

  lemma CutSame(a: seq<Sending>, b: seq<Sending>, c: seq<Sending>)
    requires SameSends(a, b) && CutShort(b, c)
    ensures CutShort(a, c)
  {
    forall fd ensures SentTo(fd, a) <= SentTo(fd, c) {
      assert SentTo(fd, a) == SentTo(fd, b);
    }
    var fd :| |SentTo(fd, b)| < |SentTo(fd, c)|;
    assert |SentTo(fd, a)| < |SentTo(fd, c)|;
  }

  lemma WorkSoFar(whole: seq<Sending>, done: seq<Sending>, sending: Sending, later: seq<Sending>, rate: int,
      world: World, used: nat)
    requires whole == done + ([sending] + later) && AllSteady(whole, rate, world) && used <= |world|
    ensures Steady(sending.clients, rate, world[used..])
    ensures Work(done + [sending]) == Work(done) + |sending.clients| * |sending.chunk| <= Work(whole)
  {
    assert whole[|done|] == sending;
    WorkAppend(done, [sending]);
    WorkAppend(done + [sending], later);
    AppendAssoc(done, [sending], later);
    assert Work([sending]) == |sending.clients| * |sending.chunk| + Work([]);
  }

  // ---------------------------------------------------------------- the connections behind a descriptor

  /** The numbers mean something: a connection that has lost its descriptor does not get it back. */
  ghost predicate NeverReused(script: World, fd: int) {
    forall i, j, k ::
      0 <= i < j < k < |script| && fd in script[i] && fd in script[k] && script[i][fd] == script[k][fd] ==>
        fd in script[j] && script[j][fd] == script[i][fd]
  }

  /** Nobody but this connection has the descriptor during the playback; it may lose it. */
  ghost predicate Keeps(script: World, fd: int, conn: nat) {
    forall n :: 0 <= n < |script| && fd in script[n] ==> script[n][fd] == conn
  }

  /** The requests that went to one connection. */
  function For(requests: seq<Request>, conn: nat): seq<Request> {
    if requests == [] then []
    else (if requests[0].conn == conn then [requests[0]] else []) + For(requests[1..], conn)
  }

  /** The requests of one connection stand together. */
  ghost predicate Together(requests: seq<Request>, conn: nat) {
    forall i, j, k :: 0 <= i < j < k < |requests| && requests[i].conn == conn && requests[k].conn == conn ==>
      requests[j].conn == conn
  }

  lemma InTurnTogether(script: World, past: nat, fd: int, requests: seq<Request>, conn: nat)
    requires InTurn(script, past, fd, requests) && NeverReused(script, fd)
    ensures Together(requests, conn)
    ensures Keeps(script, fd, conn) ==> forall request <- requests :: request.conn == conn
  {
    forall i, j, k | 0 <= i < j < k < |requests| && requests[i].conn == conn && requests[k].conn == conn
      ensures requests[j].conn == conn
    {
      assert Entry(script, past, fd, requests[i]) && Entry(script, past, fd, requests[j]);
      assert Entry(script, past, fd, requests[k]);
      assert requests[i].turn < requests[j].turn < requests[k].turn;
    }
  }

  ghost predicate NoneFor(requests: seq<Request>, conn: nat) {
    forall request <- requests :: request.conn != conn
  }

  lemma NoneForAppend(a: seq<Request>, b: seq<Request>, conn: nat)
    requires NoneFor(a, conn) && NoneFor(b, conn)
    ensures NoneFor(a + b, conn)
  {
  }

  lemma {:induction false} AllOwn(requests: seq<Request>, conn: nat)
    requires forall request <- requests :: request.conn == conn
    ensures For(requests, conn) == requests
  {
    if requests != [] {
      assert requests[0] in requests && forall request <- requests[1..] :: request in requests;
      AllOwn(requests[1..], conn);
    }
  }

  lemma TogetherAt(requests: seq<Request>, conn: nat, j: nat, k: nat)
    requires Together(requests, conn) && 0 < j < k < |requests|
    requires requests[0].conn == conn && requests[k].conn == conn
    ensures requests[j].conn == conn
  {
  }

  /** If the first request went to the connection, nothing stands between it and the others that did. */
  lemma NothingBetween(head: Request, before: seq<Request>, own: seq<Request>, after: seq<Request>, conn: nat)
    requires Together([head] + before + own + after, conn) && head.conn == conn
    requires own != [] && own[0].conn == conn && NoneFor(before, conn)
    ensures before == []
  {
    var whole := [head] + before + own + after;
    assert before != [] ==> before[0] in before && whole[1] == before[0];
    assert whole[1 + |before|] == own[0];
    if before != [] {
      TogetherAt(whole, conn, 1, 1 + |before|);
    }
  }

  lemma TogetherTail(requests: seq<Request>, conn: nat)
    requires Together(requests, conn) && requests != []
    ensures Together(requests[1..], conn)
  {
    var tail := requests[1..];
    forall i, j, k | 0 <= i < j < k < |tail| && tail[i].conn == conn && tail[k].conn == conn
      ensures tail[j].conn == conn
    {
      assert tail[i] == requests[i + 1] && tail[j] == requests[j + 1] && tail[k] == requests[k + 1];
    }
  }

  lemma HeadBefore<T>(head: T, before: seq<T>, own: seq<T>, after: seq<T>)
    ensures [head] + (before + own + after) == ([head] + before) + ([] + own) + after
    ensures [head] + (before + own + after) == [head] + before + own + after
  {
  }

  lemma HeadAlone<T>(head: T, before: seq<T>, after: seq<T>)
    ensures [head] + (before + [] + after) == [] + ([head] + []) + (before + after)
  {
  }

  lemma HeadOwn<T>(head: T, own: seq<T>, after: seq<T>)
    ensures [head] + ([] + own + after) == [] + ([head] + own) + after
  {
  }

  /** What one connection gets is one window of what the descriptor is sent. */
  lemma {:induction false} ForWindow(requests: seq<Request>, conn: nat)
    returns (before: seq<Request>, after: seq<Request>)
    requires Together(requests, conn)
    ensures requests == before + For(requests, conn) + after
    ensures NoneFor(before, conn) && NoneFor(after, conn)
  {
    if requests == [] {
      before, after := [], [];
    } else {
      var head, tail := requests[0], requests[1..];
      TogetherTail(requests, conn);
      before, after := ForWindow(tail, conn);
      var own := For(tail, conn);
      ForMembers(tail, conn);
      assert requests == [head] + tail;
      HeadBefore(head, before, own, after);
      if head.conn != conn {
        NoneForAppend([head], before, conn);
        before := [head] + before;
      } else if own == [] {
        HeadAlone(head, before, after);
        NoneForAppend(before, after, conn);
        before, after := [], before + after;
      } else {
        assert own[0] in own;
        NothingBetween(head, before, own, after, conn);
        HeadOwn(head, own, after);
      }
    }
  }

  lemma {:induction false} ForMembers(requests: seq<Request>, conn: nat)
    ensures forall request <- For(requests, conn) :: request.conn == conn && request in requests
  {
    if requests != [] {
      ForMembers(requests[1..], conn);
      assert requests[0] in requests && forall request <- requests[1..] :: request in requests;
    }
  }

  function Payloads(requests: seq<Request>): seq<seq<Byte>> {
    if requests == [] then [] else [requests[0].bytes] + Payloads(requests[1..])
  }

  lemma {:induction false} PayloadsMeans(requests: seq<Request>)
    ensures Concat(Payloads(requests)) == BytesOf(requests)
    ensures (forall request <- requests :: request.bytes != []) ==> [] !in Payloads(requests)
  {
    if requests != [] {
      PayloadsMeans(requests[1..]);
      assert requests[0] in requests && forall request <- requests[1..] :: request in requests;
    }
  }

  /** The window in bytes: p were sent to earlier connections, and up to q to this one. */
  lemma {:induction false} BytesWindow(script: World, past: nat, fd: int, requests: seq<Request>, conn: nat)
    returns (p: nat, q: nat)
    requires InTurn(script, past, fd, requests) && NeverReused(script, fd)
    ensures p <= q <= |BytesOf(requests)| && BytesOf(For(requests, conn)) == BytesOf(requests)[p..q]
    ensures Keeps(script, fd, conn) ==> p == 0 && q == |BytesOf(requests)|
  {
    InTurnTogether(script, past, fd, requests, conn);
    var before, after := ForWindow(requests, conn);
    var own := For(requests, conn);
    BytesAppend(before + own, after);
    BytesAppend(before, own);
    p := |BytesOf(before)|;
    q := p + |BytesOf(own)|;
    CutWhole(BytesOf(before) + BytesOf(own), BytesOf(after));
    CutWhole(BytesOf(before), BytesOf(own));
    assert BytesOf(requests)[..q][p..] == BytesOf(requests)[p..q];
    if Keeps(script, fd, conn) {
      AllOwn(requests, conn);
    }
  }
}
