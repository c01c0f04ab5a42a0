/**
 Journal playback, BSESimulator::send_jnl_file: the file is read in chunks, and each chunk is sent in
 rate-limited slices to every client of the account, as the set of clients stands at that moment.
 */
module Replay {
  import opened Bytes
  import opened Delivery
  import opened Framing
  import opened Protocol
  import opened Registry
  import opened Sequences

  const DEFAULT_BUFFER: nat := 4194304
  const SLICES_PER_SECOND: nat := 200
  const SLEEP_MS: nat := 990 / SLICES_PER_SECOND

  function BufferSize(rate: int): nat {
    if rate > 0 then rate else DEFAULT_BUFFER
  }

  function SliceSize(rate: int): nat {
    if rate > 0 then rate / SLICES_PER_SECOND else DEFAULT_BUFFER
  }

  /**
   One turn of the outer loop as the rest of the system decides it: what read returns, the clients
   in clients_fd, and whether the task is being cancelled at the end of the turn.
   */
  datatype Turn = Turn(readResult: int, clients: seq<int>, cancelled: bool)

  datatype Sending = Sending(chunk: seq<Byte>, clients: seq<int>)

  /** A read returns no more than was asked for and no more than the file has. */
  function ReadSize(file: seq<Byte>, rate: int, pos: nat, turn: Turn): nat
    requires pos <= |file|
  {
    if turn.readResult <= 0 then 0 else Min(turn.readResult, Min(BufferSize(rate), |file| - pos))
  }

  /** The chunks a playback sends, in order, and to whom. */
  function Schedule(file: seq<Byte>, rate: int, turns: seq<Turn>, pos: nat): seq<Sending>
    requires pos <= |file|
    decreases |turns|
  {
    if pos == |file| || turns == [] || ReadSize(file, rate, pos, turns[0]) == 0 || turns[0].clients == [] then []
    else
      var n := ReadSize(file, rate, pos, turns[0]);
      [Sending(file[pos..pos + n], turns[0].clients)]
      + if turns[0].cancelled then [] else Schedule(file, rate, turns[1..], pos + n)
  }

  /** The sendings still to come when the file position is pos and n turns are over. */
  predicate Remaining(left: seq<Sending>, file: seq<Byte>, rate: int, turns: seq<Turn>, n: nat, pos: nat) {
    pos <= |file| && n <= |turns| && left == Schedule(file, rate, turns[n..], pos)
  }

  lemma RemainingFirst(file: seq<Byte>, rate: int, turns: seq<Turn>)
    ensures Remaining(Schedule(file, rate, turns, 0), file, rate, turns, 0, 0)
  {
    assert turns[0..] == turns;
  }

  /** What turn n does to them; next is where its read leaves the file position. */
  lemma RemainingNext(left: seq<Sending>, file: seq<Byte>, rate: int, turns: seq<Turn>, n: nat, pos: nat, next: nat)
    returns (later: seq<Sending>)
    requires Remaining(left, file, rate, turns, n, pos) && pos < |file| && n < |turns|
    requires next == pos + ReadSize(file, rate, pos, turns[n])
    ensures if next == pos || turns[n].clients == [] then left == []
            else left == [Sending(file[pos..next], turns[n].clients)] + later
    ensures if turns[n].cancelled then later == [] else Remaining(later, file, rate, turns, n + 1, next)
  {
    assert turns[n] == turns[n..][0] && turns[n..][1..] == turns[n + 1..];
    later := if turns[n].cancelled then [] else Schedule(file, rate, turns[n + 1..], next);
  }

  lemma RemainingLast(left: seq<Sending>, file: seq<Byte>, rate: int, turns: seq<Turn>, n: nat, pos: nat)
    requires Remaining(left, file, rate, turns, n, pos) && (pos == |file| || n == |turns|)
    ensures left == []
  {
  }

  /** What one client is sent. */
  function SentTo(fd: int, schedule: seq<Sending>): seq<Byte> {
    if schedule == [] then []
    else (if fd in schedule[0].clients then schedule[0].chunk else []) + SentTo(fd, schedule[1..])
  }

  lemma {:induction false} SentToAppend(fd: int, a: seq<Sending>, b: seq<Sending>)
    ensures SentTo(fd, a + b) == SentTo(fd, a) + SentTo(fd, b)
  {
    if a == [] {
      assert a + b == b;
    } else {
      SentToAppend(fd, a[1..], b);
      ConsAppend(a, b);
      AppendAssoc(if fd in a[0].clients then a[0].chunk else [], SentTo(fd, a[1..]), SentTo(fd, b));
    }
  }

  // ---------------------------------------------------------------- what a faithful client gets

  /** The chunks are consecutive pieces of the file, starting at pos. */
  predicate Follows(schedule: seq<Sending>, file: seq<Byte>, pos: nat)
    decreases |schedule|
  {
    schedule != [] ==>
      var next := pos + |schedule[0].chunk|;
      next <= |file| && schedule[0].chunk == file[pos..next] && Follows(schedule[1..], file, next)
  }

  lemma {:induction false} ScheduleFollows(file: seq<Byte>, rate: int, turns: seq<Turn>, pos: nat)
    requires pos <= |file|
    ensures Follows(Schedule(file, rate, turns, pos), file, pos)
    decreases |turns|
  {
    var schedule := Schedule(file, rate, turns, pos);
    if schedule != [] {
      var next: nat := pos + ReadSize(file, rate, pos, turns[0]);
      if turns[0].cancelled {
        assert schedule[1..] == [];
      } else {
        assert schedule[1..] == Schedule(file, rate, turns[1..], next);
        ScheduleFollows(file, rate, turns[1..], next);
      }
    }
  }

  lemma {:induction false} FaithfulFollows(fd: int, schedule: seq<Sending>, file: seq<Byte>, pos: nat)
    requires pos <= |file| && Follows(schedule, file, pos) && forall s <- schedule :: fd in s.clients
    ensures SentTo(fd, schedule) <= file[pos..]
  {
    if schedule != [] {
      var next := pos + |schedule[0].chunk|;
      assert schedule[0] in schedule && forall s <- schedule[1..] :: s in schedule;
      FaithfulFollows(fd, schedule[1..], file, next);
      assert file[pos..] == file[pos..next] + file[next..];
    }
  }

  /** A client that is there in every turn is sent the file from its start without gap or overlap. */
  lemma {:induction false} FaithfulClient(fd: int, file: seq<Byte>, rate: int, turns: seq<Turn>, pos: nat)
    requires pos <= |file|
    requires forall s <- Schedule(file, rate, turns, pos) :: fd in s.clients
    ensures SentTo(fd, Schedule(file, rate, turns, pos)) <= file[pos..]
  {
    ScheduleFollows(file, rate, turns, pos);
    FaithfulFollows(fd, Schedule(file, rate, turns, pos), file, pos);
  }

  /** The bytes of some chunks, whoever they were sent to. */
  function Chunks(schedule: seq<Sending>): seq<Byte> {
    if schedule == [] then [] else schedule[0].chunk + Chunks(schedule[1..])
  }

  /** The client is missing from the first j chunks and there for all others. */
  predicate JoinsAt(fd: int, schedule: seq<Sending>, j: nat) {
    && j <= |schedule|
    && (forall i :: 0 <= i < j ==> fd !in schedule[i].clients)
    && (forall i :: j <= i < |schedule| ==> fd in schedule[i].clients)
  }

  lemma {:induction false} LateFollows(fd: int, schedule: seq<Sending>, file: seq<Byte>, pos: nat, j: nat)
    returns (start: nat)
    requires pos <= |file| && Follows(schedule, file, pos) && JoinsAt(fd, schedule, j)
    ensures pos <= start <= |file| && Chunks(schedule[..j]) == file[pos..start]
    ensures SentTo(fd, schedule) <= file[start..]
  {
    if j == 0 {
      start := pos;
      FaithfulFollows(fd, schedule, file, pos);
    } else {
      var next := pos + |schedule[0].chunk|;
      start := LateFollows(fd, schedule[1..], file, next, j - 1);
      assert schedule[..j][1..] == schedule[1..][..j - 1];
      assert file[pos..start] == file[pos..next] + file[next..start];
    }
  }

  /** A client that joins after j chunks is sent the file from where the others were, without gap or overlap. */
  lemma LateClient(fd: int, file: seq<Byte>, rate: int, turns: seq<Turn>, j: nat) returns (start: nat)
    requires JoinsAt(fd, Schedule(file, rate, turns, 0), j)
    ensures start <= |file| && Chunks(Schedule(file, rate, turns, 0)[..j]) == file[..start]
    ensures SentTo(fd, Schedule(file, rate, turns, 0)) <= file[start..]
  {
    ScheduleFollows(file, rate, turns, 0);
    start := LateFollows(fd, Schedule(file, rate, turns, 0), file, 0, j);
  }

  /** Turns that neither fail, nor find the account without clients, nor cancel. */
  predicate Undisturbed(fd: int, turns: seq<Turn>) {
    forall t <- turns :: t.readResult > 0 && fd in t.clients && !t.cancelled
  }

  lemma UndisturbedRest(fd: int, turns: seq<Turn>)
    requires Undisturbed(fd, turns) && turns != []
    ensures turns[0].readResult > 0 && fd in turns[0].clients && !turns[0].cancelled && Undisturbed(fd, turns[1..])
  {
    assert turns[0] in turns && forall t <- turns[1..] :: t in turns;
  }

  /** An undisturbed playback with enough turns sends the whole file. */
  lemma {:induction false} CompletePlayback(fd: int, file: seq<Byte>, rate: int, turns: seq<Turn>, pos: nat)
    requires pos <= |file| && |turns| >= |file| - pos && Undisturbed(fd, turns)
    ensures SentTo(fd, Schedule(file, rate, turns, pos)) == file[pos..]
    ensures forall s <- Schedule(file, rate, turns, pos) :: fd in s.clients
    decreases |turns|
  {
    if pos < |file| {
      UndisturbedRest(fd, turns);
      var next: nat := pos + ReadSize(file, rate, pos, turns[0]);
      var later := Schedule(file, rate, turns[1..], next);
      CompletePlayback(fd, file, rate, turns[1..], next);
      ConsAppend([Sending(file[pos..next], turns[0].clients)], later);
      assert file[pos..] == file[pos..next] + file[next..];
    }
  }

  /** Where these reads, into a buffer of so many bytes, leave the position in a file of this size. */
  function ReadTo(size: nat, pos: nat, turns: seq<Turn>, buffer: nat): (end: nat)
    requires pos <= size
    ensures pos <= end <= size
    decreases |turns|
  {
    if turns == [] then pos
    else
      var bytes := if turns[0].readResult > 0 then Min(turns[0].readResult, buffer) else 0;
      ReadTo(size, Min(size, pos + bytes), turns[1..], buffer)
  }

  lemma ReadToNext(file: seq<Byte>, rate: int, turns: seq<Turn>, pos: nat, buffer: nat, next: nat)
    requires pos <= |file| && turns != [] && buffer == if rate > 0 then rate else 4194304
    requires next == pos + ReadSize(file, rate, pos, turns[0])
    ensures next <= |file| && ReadTo(|file|, pos, turns, buffer) == ReadTo(|file|, next, turns[1..], buffer)
  {
  }

  lemma PieceThenRest(file: seq<Byte>, pos: nat, next: nat, end: nat)
    requires pos <= next <= end <= |file|
    ensures file[pos..end] == file[pos..next] + file[next..end]
  {
  }

  lemma ScheduleHead(fd: int, file: seq<Byte>, rate: int, turns: seq<Turn>, pos: nat, next: nat)
    requires pos < |file| && turns != [] && Undisturbed(fd, turns)
    requires next == pos + ReadSize(file, rate, pos, turns[0])
    ensures pos < next <= |file|
    ensures SentTo(fd, Schedule(file, rate, turns, pos))
         == file[pos..next] + SentTo(fd, Schedule(file, rate, turns[1..], next))
  {
    UndisturbedRest(fd, turns);
    var first, later := Sending(file[pos..next], turns[0].clients), Schedule(file, rate, turns[1..], next);
    assert Schedule(file, rate, turns, pos) == [first] + later;
    SentFirst(fd, first, later);
  }

  lemma SentFirst(fd: int, first: Sending, later: seq<Sending>)
    requires fd in first.clients
    ensures SentTo(fd, [first] + later) == first.chunk + SentTo(fd, later)
  {
    assert ([first] + later)[1..] == later;
  }

  /** An undisturbed playback has sent just what its reads brought: a buffer of rate bytes, or of 4 MiB, at a time. */
  lemma {:induction false} PlaybackSends(fd: int, file: seq<Byte>, rate: int, turns: seq<Turn>, pos: nat, buffer: nat,
      end: nat)
    requires pos <= |file| && Undisturbed(fd, turns) && buffer == if rate > 0 then rate else 4194304
    requires end == ReadTo(|file|, pos, turns, buffer)
    ensures SentTo(fd, Schedule(file, rate, turns, pos)) == file[pos..end]
    decreases |turns|
  {
    if turns != [] {
      if pos < |file| {
        UndisturbedRest(fd, turns);
        var next: nat := pos + ReadSize(file, rate, pos, turns[0]);
        ReadToNext(file, rate, turns, pos, buffer, next);
        ScheduleHead(fd, file, rate, turns, pos, next);
        PlaybackSends(fd, file, rate, turns[1..], next, buffer, end);
        PieceThenRest(file, pos, next, end);
      }
    }
  }

  /** Each turn sends to its own clients, and one that fails, finds none or is cancelled is the last. */
  lemma {:induction false} PlaybackStops(file: seq<Byte>, rate: int, turns: seq<Turn>, pos: nat, n: nat)
    requires pos <= |file| && n < |turns|
    ensures |Schedule(file, rate, turns, pos)| <= |turns|
    ensures n < |Schedule(file, rate, turns, pos)| ==>
              Schedule(file, rate, turns, pos)[n].clients == turns[n].clients
    ensures turns[n].readResult <= 0 || turns[n].clients == [] ==> |Schedule(file, rate, turns, pos)| <= n
    ensures turns[n].cancelled ==> |Schedule(file, rate, turns, pos)| <= n + 1
    decreases |turns|
  {
    var schedule := Schedule(file, rate, turns, pos);
    if schedule != [] && n > 0 && !turns[0].cancelled {
      var next: nat := pos + ReadSize(file, rate, pos, turns[0]);
      PlaybackStops(file, rate, turns[1..], next, n - 1);
      assert schedule == [schedule[0]] + Schedule(file, rate, turns[1..], next);
    } else if schedule != [] && turns[1..] != [] && !turns[0].cancelled {
      var next: nat := pos + ReadSize(file, rate, pos, turns[0]);
      PlaybackStops(file, rate, turns[1..], next, 0);
    }
  }

  /** What is stored of a part of the replies and a first part of the file. */
  lemma {:induction false} PrefixStores(f: Framer<Byte>, replies: seq<Message<Byte>>, records: seq<Message<Byte>>,
      sent: seq<Byte>, part: seq<Byte>)
    returns (k: nat)
    requires Lawful(f) && AllWellFormed(f, replies) && AllWellFormed(f, records)
    requires (forall m <- replies :: !f.Journals(m.kind)) && (forall m <- records :: f.Journals(m.kind))
    requires sent <= Encode(records) && part <= Encode(replies) + sent
    ensures k <= |records| && Saved(f, Frames(f, part)) == Encode(records[..k])
    ensures part == Encode(replies) + sent ==> k == WholeWithin(records, |sent|)
    ensures part == Encode(replies) + sent && sent == Encode(records) ==> records[..k] == records
  {
    k := ReplayedPart(f, part, Encode(replies) + sent, replies, records, |sent|);
  }

  /**
   Playback round trip: a client present in every turn of the playback of a journal stores a whole
   number of its records from the start of the file, whatever part of the playback it was sent and
   whatever part of that has arrived; of all that was sent it stores the records sent completely, and
   of an undisturbed and finished playback the file itself.
   */
  lemma {:induction false} PlaybackStores(fd: int, records: seq<Message<Byte>>, replies: seq<Message<Byte>>, rate: int,
      turns: seq<Turn>, sent: seq<Byte>, part: seq<Byte>)
    returns (k: nat)
    requires AllWellFormed(CLIENT, replies) && (forall m <- replies :: IsReply(m.kind))
    requires AllWellFormed(CLIENT, records) && (forall m <- records :: !IsReply(m.kind))
    requires forall s <- Schedule(Encode(records), rate, turns, 0) :: fd in s.clients
    requires sent <= SentTo(fd, Schedule(Encode(records), rate, turns, 0)) && part <= Encode(replies) + sent
    ensures k <= |records| && Lawful(CLIENT) && Saved(CLIENT, Frames(CLIENT, part)) == Encode(records[..k])
    ensures part == Encode(replies) + sent ==> k == WholeWithin(records, |sent|)
    ensures Undisturbed(fd, turns) && |turns| >= |Encode(records)| ==>
              SentTo(fd, Schedule(Encode(records), rate, turns, 0)) == Encode(records)
    ensures part == Encode(replies) + sent && sent == Encode(records) ==> records[..k] == records
  {
    FramersLawful();
    var file := Encode(records);
    var whole := SentTo(fd, Schedule(file, rate, turns, 0));
    FaithfulClient(fd, file, rate, turns, 0);
    assert file[0..] == file;
    assert sent <= whole <= file;
    assert forall kind: nat :: CLIENT.Journals(kind) == !IsReply(kind);
    k := PrefixStores(CLIENT, replies, records, sent, part);
    if Undisturbed(fd, turns) && |turns| >= |file| {
      CompletePlayback(fd, file, rate, turns, 0);
    }
  }

  // ---------------------------------------------------------------- rate limit

  /** The average over all clients is at most rate bytes in 800 ms of sleep, so below rate bytes a second. */
  predicate WithinRate(bytes: nat, slept: nat, rate: int) {
    rate > 0 && bytes * 800 <= slept * rate
  }

  /** A full slice is a 200th of the rate rounded down, and from rate 200 on more than half of it; a sleep is 4 ms. */
  lemma SliceOfRate(rate: int)
    ensures rate <= 0 ==> SliceSize(rate) == 4194304
    ensures rate > 0 ==> 200 * SliceSize(rate) <= rate < 200 * SliceSize(rate) + 200
    ensures rate >= 200 ==> rate < 400 * SliceSize(rate)
    ensures SLEEP_MS == 4
  {
  }

  /** One slice and one sleep keep the average within the rate. */
  lemma SliceWithinRate(bytes: nat, slept: nat, rate: int, n: nat)
    requires WithinRate(bytes, slept, rate) && n <= SliceSize(rate)
    ensures WithinRate(bytes + n, slept + SLEEP_MS, rate)
  {
    assert n * 200 <= rate;
    assert (slept + 4) * rate == slept * rate + 4 * rate;
  }

  // ---------------------------------------------------------------- termination of the slice loop

  /**
   sent_size after some turns of the slice loop. The client may come and go while the loop sleeps:
   present(n) tells whether turn n finds its context; without one send_data accepts nothing.
   */
  function Sliced(present: nat -> bool, rate: int, size: nat, turns: nat): (sent: nat)
    ensures sent <= size
  {
    if turns == 0 then 0
    else
      var sent := Sliced(present, rate, size, turns - 1);
      if present(turns - 1) then sent + Min(SliceSize(rate), size - sent) else sent
  }

  /** How many of the first turns found the client. */
  function Meetings(present: nat -> bool, turns: nat): nat {
    if turns == 0 then 0 else Meetings(present, turns - 1) + if present(turns - 1) then 1 else 0
  }

  lemma OneMore(n: nat, slice: nat)
    ensures (n + 1) * slice == n * slice + slice
  {
  }

  /** Every turn that finds the client sends one slice, until the chunk is used up. */
  lemma {:induction false} SlicedIs(present: nat -> bool, rate: int, size: nat, turns: nat)
    ensures Sliced(present, rate, size, turns) == Min(size, Meetings(present, turns) * SliceSize(rate))
  {
    if turns > 0 {
      SlicedIs(present, rate, size, turns - 1);
      OneMore(Meetings(present, turns - 1), SliceSize(rate));
    }
  }

  /** The slice loop ends after some number of turns. */
  ghost predicate LoopEnds(present: nat -> bool, rate: int, size: nat) {
    exists turns: nat :: Sliced(present, rate, size, turns) == size
  }

  /** The loop of a chunk ends exactly if the client is there for enough turns, at a slice each. */
  lemma {:induction false} SliceLoopEndsIff(present: nat -> bool, rate: int, size: nat)
    ensures LoopEnds(present, rate, size) <==> exists turns: nat :: Meetings(present, turns) * SliceSize(rate) >= size
  {
    if LoopEnds(present, rate, size) {
      var turns: nat :| Sliced(present, rate, size, turns) == size;
      SlicedIs(present, rate, size, turns);
      assert Meetings(present, turns) * SliceSize(rate) >= size;
    }
    if turns: nat :| Meetings(present, turns) * SliceSize(rate) >= size {
      SlicedIs(present, rate, size, turns);
      assert Sliced(present, rate, size, turns) == size;
    }
  }

  lemma {:induction false} MeetingsGrow(present: nat -> bool, first: nat, later: nat)
    requires first <= later
    ensures Meetings(present, first) <= Meetings(present, later) <= Meetings(present, first) + (later - first)
    ensures (forall n :: first <= n < later ==> present(n)) ==>
              Meetings(present, later) == Meetings(present, first) + (later - first)
    ensures (forall n :: first <= n < later ==> !present(n)) ==> Meetings(present, later) == Meetings(present, first)
    decreases later
  {
    if first < later {
      MeetingsGrow(present, first, later - 1);
    }
  }

  lemma SlicesOrdered(a: nat, b: nat, slice: nat)
    requires a <= b
    ensures a * slice <= b * slice
  {
  }

  /** A client that is gone for good after some turns: they must have been enough. */
  lemma {:induction false} LostClientEndsIff(present: nat -> bool, rate: int, size: nat, last: nat)
    requires forall n: nat :: n >= last ==> !present(n)
    ensures LoopEnds(present, rate, size) <==> Meetings(present, last) * SliceSize(rate) >= size
  {
    SliceLoopEndsIff(present, rate, size);
    forall turns: nat ensures Meetings(present, turns) * SliceSize(rate) <= Meetings(present, last) * SliceSize(rate) {
      MeetingsGrow(present, Min(turns, last), last);
      MeetingsGrow(present, Min(turns, last), turns);
      SlicesOrdered(Meetings(present, turns), Meetings(present, last), SliceSize(rate));
    }
  }

  /** A client that stays: the loop ends exactly if the rate is not 1 to 199. */
  lemma {:induction false} StayingClientEndsIff(present: nat -> bool, rate: int, size: nat)
    requires size > 0 && forall n: nat :: present(n)
    ensures LoopEnds(present, rate, size) <==> rate <= 0 || rate >= 200
  {
    SliceLoopEndsIff(present, rate, size);
    MeetingsGrow(present, 0, size);
    if SliceSize(rate) > 0 {
      SlicesOrdered(1, SliceSize(rate), size);
      assert Meetings(present, size) * SliceSize(rate) >= size;
    }
  }

  /** A client that is connected when the loop starts and gone after the first slice: it never ends. */
  lemma LostDuringChunk() returns (present: nat -> bool, rate: int, size: nat)
    ensures present(0) && rate >= 200 && !LoopEnds(present, rate, size)
  {
    present, rate, size := n => n == 0, 200, 2;
    LostClientEndsIff(present, rate, size, 1);
    assert Meetings(present, 1) == 1;
  }

  // ---------------------------------------------------------------- stale clients

  /**
   Why playback can meet such a client: one that logged in under a second code and left stays in the
   first code's client set without being connected, so a playback to that account waits for it until
   its descriptor is used again.
   */
  lemma GhostStallsPlayback(accounts: map<int, Account>, s: Tables, fd: int, code: int, pwd: seq<Byte>, sys: Inotify,
      present: nat -> bool, rate: int, size: nat)
    requires Safe(accounts, s) && Possible(s, Login(fd, code, pwd, sys)) && Accepts(accounts, code, pwd)
    requires fd in s.sock && s.sock[fd] != -1 && s.sock[fd] != code
    requires size > 0 && forall n: nat :: present(n) <==>
        fd in Dropped(LoggedIn(accounts, s, fd, code, pwd, sys), fd).connections
    ensures
      var t := Dropped(LoggedIn(accounts, s, fd, code, pwd, sys), fd);
      && s.sock[fd] in t.contexts && fd in t.contexts[s.sock[fd]].clients && fd !in t.connections
      && !LoopEnds(present, rate, size)
  {
    SecondCodeLeavesGhost(accounts, s, fd, code, pwd, sys);
    LostClientEndsIff(present, rate, size, 0);
  }
}
