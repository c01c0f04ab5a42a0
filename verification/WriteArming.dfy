/**
 Who will write the queued requests of one live connection. Senders, the event loop, the pool and
 the write lock interleave freely; epoll is edge triggered, so an event that is missed does not come
 back. EPOLL_CTL_MOD reports a socket that is writable at that moment, and afterwards only a change
 from full to writable is reported.
 */
module WriteArming {
  import opened Bytes
  import opened Sequences
  import opened Transport

  /** Where the holder of w_mutex is in handle_write. */
  datatype Writer = None | AtLoop | Writing | Leaving

  datatype State = State(
    queue: seq<seq<Byte>>,   // w_req_q
    wire: seq<Byte>,         // bytes the socket has accepted
    writer: Writer,
    tasks: nat,              // handle_write calls committed to the pool or waiting for w_mutex
    registered: bool,        // the fd has been added to epoll
    edge: bool,              // an EPOLLOUT event that epoll_wait has not returned yet
    armed: bool,             // EPOLLOUT is part of the registered events
    writable: bool,          // the send buffer has room
    unarmed: nat,            // senders between enqueueing and modify_event
    requested: seq<Byte>     // everything enqueued so far
  )

  /** create_context has run; the fd is not in epoll yet. */
  const CREATED: State := State([], [], None, 0, false, false, false, true, 0, [])

  datatype Action =
    | Register                                 // add_event(fd, EPOLLIN)
    | Enqueue(request: seq<Byte>)              // send_data, under w_req_mutex
    | Arm                                      // its modify_event(EPOLLIN|EPOLLOUT)
    | Dispatch                                 // the loop commits handle_write for the event
    | DispatchAgain                            // another event on the fd also reports EPOLLOUT
    | Begin                                    // a task acquires w_mutex
    | Look                                     // while(!w_req_q.empty())
    | Put(count: nat, stillWritable: bool)     // write accepted count bytes
    | Block                                    // write returned EAGAIN
    | End                                      // handle_write returns
    | Room                                     // the peer made room in the send buffer

  predicate Enabled(s: State, a: Action) {
    match a
    case Register => !s.registered
    case Enqueue(request) => request != []
    case Arm => s.unarmed > 0
    case Dispatch => s.edge
    case DispatchAgain => s.armed && s.writable
    case Begin => s.writer.None? && s.tasks > 0
    case Look => s.writer.AtLoop?
    case Put(count, _) => s.writer.Writing? && s.writable && s.queue != [] && 0 < count <= |s.queue[0]|
    case Block => s.writer.Writing? && !s.writable
    case End => s.writer.Leaving?
    case Room => !s.writable
  }

  function Apply(s: State, a: Action): State
    requires Enabled(s, a)
  {
    match a
    case Register => s.(registered := true)
    case Enqueue(request) =>
      s.(queue := s.queue + [request], unarmed := s.unarmed + 1, requested := s.requested + request)
    case Arm =>  // EPOLL_CTL_MOD fails, and is only logged, while the fd is not registered
      if s.registered then s.(unarmed := s.unarmed - 1, armed := true, edge := s.edge || s.writable)
      else s.(unarmed := s.unarmed - 1)
    case Dispatch => s.(edge := false, tasks := s.tasks + 1)
    case DispatchAgain => s.(tasks := s.tasks + 1)
    case Begin => s.(writer := AtLoop, tasks := s.tasks - 1)
    case Look => s.(writer := if s.queue == [] then Leaving else Writing)
    case Put(count, stillWritable) =>
      s.(writer := AtLoop, writable := stillWritable, wire := s.wire + s.queue[0][..count],
         queue := (if count == |s.queue[0]| then [] else [s.queue[0][count..]]) + s.queue[1..])
    case Block => s.(writer := Leaving)
    case End => s.(writer := None)
    case Room => s.(writable := true, edge := s.edge || s.armed)
  }

  ghost predicate Leads(s: State, actions: seq<Action>, t: State)
    decreases |actions|
  {
    if actions == [] then s == t
    else Enabled(s, actions[0]) && Leads(Apply(s, actions[0]), actions[1..], t)
  }

  /** Somebody will still come to look at the queue. */
  predicate Attended(s: State) {
    s.unarmed > 0 || s.edge || s.tasks > 0 || s.writer.AtLoop? || s.writer.Writing?
  }

  /** A queued request has somebody coming, or waits for a full socket whose next change is reported. */
  predicate Unstranded(s: State) {
    s.queue != [] ==> Attended(s) || (s.armed && !s.writable)
  }

  /** What holds from creation on, registered or not. */
  ghost predicate Basic(s: State) {
    && (s.edge || s.tasks > 0 || !s.writer.None? ==> s.armed)
    && (s.armed ==> s.registered)
    && (s.writer.Writing? ==> s.queue != [])
    && [] !in s.queue
    && s.requested == s.wire + Concat(s.queue)
  }

  lemma ApplyKeeps(s: State, a: Action)
    requires Basic(s) && Enabled(s, a)
    ensures Basic(Apply(s, a))
    ensures s.registered && Unstranded(s) ==> Unstranded(Apply(s, a)) && Apply(s, a).registered
  {
    match a {
      case Enqueue(request) =>
        ConcatSnoc(s.queue, request);
        AppendAssoc(s.wire, Concat(s.queue), request);
      case Put(count, _) =>
        TransmitHead(s.queue, count);
        TransmitConserves(s.queue, count);
        Regroup(s.wire, Concat(s.queue), count);
      case _ =>
    }
  }

  lemma {:induction false} RunKeeps(s: State, actions: seq<Action>, t: State)
    requires Basic(s) && Leads(s, actions, t)
    ensures Basic(t)
    ensures s.registered && Unstranded(s) ==> Unstranded(t) && t.registered
    decreases |actions|
  {
    if actions != [] {
      ApplyKeeps(s, actions[0]);
      RunKeeps(Apply(s, actions[0]), actions[1..], t);
    }
  }

  /**
   Registering is safe exactly when nothing has been queued yet, or a sender has still to arm: on the
   server on_connect runs before add_event, so what it sends is left behind; the client adds the
   event first.
   */
  lemma RegisterSafely(before: seq<Action>, s: State)
    requires Leads(CREATED, before, s) && !s.registered
    ensures Unstranded(Apply(s, Register)) <==> s.queue == [] || s.unarmed > 0
  {
    RunKeeps(CREATED, before, s);
  }

  /** A request that on_connect sends before the fd is registered does strand. */
  lemma SentTooEarly(request: seq<Byte>) returns (before: seq<Action>, s: State)
    requires request != []
    ensures Leads(CREATED, before, s) && !s.registered && !Unstranded(Apply(s, Register))
  {
    before := [Enqueue(request), Arm];
    var s1 := Apply(CREATED, Enqueue(request));
    s := Apply(s1, Arm);
    assert Leads(s1, [Arm], s);
    assert before[1..] == [Arm];
  }

  /**
   No stranded write, over every interleaving that follows a safe registration: a request that is
   still queued has a sender about to arm, an event, a task or an active writer ahead of it, or waits
   for a full socket. Nothing is lost or reordered meanwhile.
   */
  lemma NoStrandedWrite(before: seq<Action>, s: State, actions: seq<Action>, t: State)
    requires Leads(CREATED, before, s) && !s.registered
    requires s.queue == [] || s.unarmed > 0
    requires Leads(Apply(s, Register), actions, t)
    ensures Unstranded(t)
    ensures t.requested == t.wire + Concat(t.queue)
  {
    RunKeeps(CREATED, before, s);
    ApplyKeeps(s, Register);
    RunKeeps(Apply(s, Register), actions, t);
  }

  /** When nothing more happens by itself and the socket has room, everything requested was written. */
  lemma QuietMeansSent(before: seq<Action>, s: State, actions: seq<Action>, t: State)
    requires Leads(CREATED, before, s) && !s.registered
    requires s.queue == [] || s.unarmed > 0
    requires Leads(Apply(s, Register), actions, t)
    requires !Attended(t) && t.writable
    ensures t.queue == [] && t.wire == t.requested
  {
    NoStrandedWrite(before, s, actions, t);
    EmptyUnit(t.wire);
  }

  // ---------------------------------------------------------------- progress

  /** What senders still arming, the loop, the pool, the writer and the peer do; nobody enqueues anything. */
  predicate Carries(a: Action) {
    a.Arm? || a.Dispatch? || a.Begin? || a.Look? || a.Put? || a.Block? || a.End? || a.Room?
  }

  function WriterRank(w: Writer): nat {
    match w case None => 0 case Leaving => 1 case Writing => 2 case AtLoop => 3
  }

  /** A bound on the steps that are still to come. */
  function StepsLeft(s: State): nat {
    8 * |Concat(s.queue)| + 6 * s.unarmed + (if s.writable then 0 else 6) + (if s.edge then 5 else 0) + 4 * s.tasks
    + WriterRank(s.writer)
  }

  /** Each such step uses something up: an event, a task, a turn of the writer, or bytes. */
  lemma CarryingStep(s: State, a: Action)
    requires Basic(s) && Enabled(s, a) && Carries(a)
    ensures StepsLeft(Apply(s, a)) < StepsLeft(s)
  {
    if a.Put? {
      TransmitHead(s.queue, a.count);
      TransmitConserves(s.queue, a.count);
    }
  }

  /** So no run of them goes on for ever. */
  lemma {:induction false} CarryingEnds(s: State, actions: seq<Action>, t: State)
    requires Basic(s) && Leads(s, actions, t) && forall a <- actions :: Carries(a)
    ensures |actions| + StepsLeft(t) <= StepsLeft(s)
    decreases |actions|
  {
    if actions != [] {
      assert actions[0] in actions && forall a <- actions[1..] :: a in actions;
      CarryingStep(s, actions[0]);
      ApplyKeeps(s, actions[0]);
      CarryingEnds(Apply(s, actions[0]), actions[1..], t);
    }
  }

  /** And none of them ends before everything requested is written. */
  lemma CarryOn(s: State) returns (a: Action)
    requires Basic(s)
    ensures (Carries(a) && Enabled(s, a)) || (!Attended(s) && s.writable)
  {
    a := if s.writer.AtLoop? then Look
         else if s.writer.Leaving? then End
         else if s.writer.Writing? then (if s.writable then Put(|s.queue[0]|, true) else Block)
         else if s.tasks > 0 then Begin
         else if s.edge then Dispatch
         else if s.unarmed > 0 then Arm
         else Room;
  }

  /**
   The promise is kept: from every state that a safe registration leads to, the attention the law speaks of is
   used up after boundedly many steps, whichever are taken, and some lead to where all is written.
   */
  lemma {:induction false} WritesComplete(before: seq<Action>, s: State, actions: seq<Action>, t: State)
    returns (more: seq<Action>, u: State)
    requires Leads(CREATED, before, s) && !s.registered
    requires s.queue == [] || s.unarmed > 0
    requires Leads(Apply(s, Register), actions, t)
    ensures Leads(t, more, u) && |more| <= StepsLeft(t) && forall a <- more :: Carries(a)
    ensures !Attended(u) && u.queue == [] && u.wire == t.requested == u.requested
  {
    RunKeeps(CREATED, before, s);
    ApplyKeeps(s, Register);
    RunKeeps(Apply(s, Register), actions, t);
    more, u := CarryThrough(t);
    CarryingEnds(t, more, u);
  }

  lemma {:induction false} CarryThrough(t: State) returns (more: seq<Action>, u: State)
    requires Basic(t) && t.registered && Unstranded(t)
    ensures Leads(t, more, u) && forall a <- more :: Carries(a)
    ensures !Attended(u) && u.queue == [] && u.wire == t.requested == u.requested
    decreases StepsLeft(t)
  {
    var a := CarryOn(t);
    if Carries(a) && Enabled(t, a) {
      CarryingStep(t, a);
      ApplyKeeps(t, a);
      var later;
      later, u := CarryThrough(Apply(t, a));
      ConsRun(a, later);
      more := [a] + later;
    } else {
      more, u := [], t;
      EmptyUnit(t.wire);
    }
  }

  lemma ConsRun(a: Action, more: seq<Action>)
    requires Carries(a) && forall b <- more :: Carries(b)
    ensures ([a] + more)[0] == a && ([a] + more)[1..] == more && forall b <- [a] + more :: Carries(b)
  {
  }
}
