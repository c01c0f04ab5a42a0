/**
 The worker pool of thread_pool.hpp as a transition system: any number of workers and committers,
 one mutex, one condition variable. Every action is one atomic step of the source, taken in any order.
 */
module ThreadPool {
  import opened Sequences

  /** Where a worker is in Work(). Tickets number the tasks in the order they leave the queue. */
  datatype Worker =
    | AtTop                            // while(Running_)
    | Locking                          // lock_guard guard(Mutex_)
    | Holding                          // has the mutex, about to test Tasks_.empty() or the wait predicate
    | Parking                          // has the mutex, predicate was false, about to block in wait
    | Waiting                          // blocked in wait, mutex released
    | Woken                            // notified, must take the mutex again
    | Busy(ticket: nat)                // task()
    | Exited

  datatype Stopper = NotStopping | FlagCleared | Joining | Joined

  datatype Pool<T> = Pool(
    running: bool,
    tasks: seq<T>,
    workers: seq<Worker>,
    owner: int,              // the worker that has the mutex, or -1
    owed: nat,               // committers between their push and their notify_one
    stopper: Stopper,
    committed: seq<T>,       // history: every task pushed
    taken: seq<T>,           // history: every task popped; a ticket is an index into it
    finished: seq<nat>       // history: tickets of completed tasks
  )

  function Fresh<T>(): Pool<T> {
    Pool(true, [], [], -1, 0, NotStopping, [], [], [])
  }

  datatype Action<T> =
    | Spawn                            // Start: one more thread
    | Push(task: T)                    // Commit, under the mutex
    | Notify(chosen: int)              // Commit: notify_one, of some waiting worker if there is one
    | Top(i: nat)
    | Acquire(i: nat)                  // from lock_guard or from wait
    | Examine(i: nat)                  // with the mutex: pop a task, or decide to wait, or go round again
    | Park(i: nat)                     // wait blocks and releases the mutex
    | Spurious(i: nat)                 // wait returns without a notification
    | Finish(i: nat)
    | ClearFlag                        // Stop: Running_ = false
    | NotifyAll
    | Join                             // the last join has returned; Threads_.clear()

  predicate AllExited(workers: seq<Worker>) {
    forall i :: 0 <= i < |workers| ==> workers[i].Exited?
  }

  predicate Enabled<T>(s: Pool<T>, a: Action<T>) {
    match a
    case Spawn => s.stopper.NotStopping?
    case Push(_) => s.owner == -1
    case Notify(chosen) => s.owed > 0 &&
      if 0 <= chosen < |s.workers| then s.workers[chosen].Waiting? else Waiting !in s.workers
    case Top(i) => i < |s.workers| && s.workers[i].AtTop?
    case Acquire(i) => i < |s.workers| && (s.workers[i].Locking? || s.workers[i].Woken?) && s.owner == -1
    case Examine(i) => i < |s.workers| && s.workers[i].Holding?
    case Park(i) => i < |s.workers| && s.workers[i].Parking?
    case Spurious(i) => i < |s.workers| && s.workers[i].Waiting?
    case Finish(i) => i < |s.workers| && s.workers[i].Busy?
    case ClearFlag => s.stopper.NotStopping?
    case NotifyAll => s.stopper.FlagCleared?
    case Join => s.stopper.Joining? && AllExited(s.workers)
  }

  function Moved<T>(s: Pool<T>, i: nat, w: Worker): Pool<T>
    requires i < |s.workers|
  {
    s.(workers := s.workers[i := w])
  }

  function WakeAll(workers: seq<Worker>): (woken: seq<Worker>)
    ensures |woken| == |workers|
    ensures forall i :: 0 <= i < |workers| ==> woken[i] == if workers[i].Waiting? then Woken else workers[i]
  {
    if workers == [] then [] else [if workers[0].Waiting? then Woken else workers[0]] + WakeAll(workers[1..])
  }

  function Apply<T>(s: Pool<T>, a: Action<T>): Pool<T>
    requires Enabled(s, a)
  {
    match a
    case Spawn => s.(workers := s.workers + [AtTop])
    case Push(task) => s.(tasks := s.tasks + [task], committed := s.committed + [task], owed := s.owed + 1)
    case Notify(chosen) =>
      if 0 <= chosen < |s.workers| then Moved(s, chosen, Woken).(owed := s.owed - 1) else s.(owed := s.owed - 1)
    case Top(i) => Moved(s, i, if s.running then Locking else Exited)
    case Acquire(i) => Moved(s, i, Holding).(owner := i)
    case Examine(i) =>
      if s.tasks != [] then
        Moved(s, i, Busy(|s.taken|)).(owner := -1, tasks := s.tasks[1..], taken := s.taken + [s.tasks[0]])
      else if s.running then Moved(s, i, Parking)
      else Moved(s, i, AtTop).(owner := -1)
    case Park(i) => Moved(s, i, Waiting).(owner := -1)
    case Spurious(i) => Moved(s, i, Woken)
    case Finish(i) => Moved(s, i, AtTop).(finished := s.finished + [s.workers[i].ticket])
    case ClearFlag => s.(running := false, stopper := FlagCleared)
    case NotifyAll => s.(workers := WakeAll(s.workers), stopper := Joining)
    case Join => s.(stopper := Joined)
  }

  ghost predicate Leads<T>(s: Pool<T>, actions: seq<Action<T>>, t: Pool<T>)
    decreases |actions|
  {
    if actions == [] then s == t
    else Enabled(s, actions[0]) && Leads(Apply(s, actions[0]), actions[1..], t)
  }

  lemma LeadsCons<T>(s: Pool<T>, a: Action<T>, rest: seq<Action<T>>, t: Pool<T>)
    requires Enabled(s, a) && Leads(Apply(s, a), rest, t)
    ensures Leads(s, [a] + rest, t)
  {
    var actions := [a] + rest;
    assert actions[0] == a && actions[1..] == rest;
  }

  // ---------------------------------------------------------------- counting workers

  /** On the way to look at the queue: it will pop a task if one is there. */
  predicate Heading(w: Worker) {
    w.AtTop? || w.Locking? || w.Holding? || w.Woken?
  }

  function Count(workers: seq<Worker>): nat {
    if workers == [] then 0 else (if Heading(workers[0]) then 1 else 0) + Count(workers[1..])
  }

  lemma {:induction false} CountUpdate(workers: seq<Worker>, i: nat, w: Worker)
    requires i < |workers|
    ensures Count(workers[i := w]) ==
            Count(workers) - (if Heading(workers[i]) then 1 else 0) + (if Heading(w) then 1 else 0)
  {
    if i == 0 {
      assert workers[i := w][1..] == workers[1..];
    } else {
      CountUpdate(workers[1..], i - 1, w);
      assert workers[i := w][1..] == workers[1..][i - 1 := w];
    }
  }

  lemma {:induction false} CountSpawn(workers: seq<Worker>, w: Worker)
    ensures Count(workers + [w]) == Count(workers) + if Heading(w) then 1 else 0
  {
    if workers == [] {
      assert [] + [w] == [w];
    } else {
      CountSpawn(workers[1..], w);
      ConsAppend(workers, [w]);
    }
  }

  // ---------------------------------------------------------------- mutual exclusion

  /** The mutex is held by exactly the worker that is inside the critical section. */
  ghost predicate Locked<T>(s: Pool<T>) {
    && -1 <= s.owner < |s.workers|
    && (forall i :: 0 <= i < |s.workers| ==> (s.workers[i].Holding? || s.workers[i].Parking? <==> s.owner == i))
  }

  /** One worker moves, and only that one may take or give back the mutex. */
  lemma LockedMove<T>(s: Pool<T>, t: Pool<T>, i: nat)
    requires Locked(s) && i < |s.workers| == |t.workers| && t.workers == s.workers[i := t.workers[i]]
    requires t.workers[i].Holding? || t.workers[i].Parking? <==> t.owner == i
    requires if t.owner == i then s.owner == i || s.owner == -1
             else if s.owner == i then t.owner == -1 else t.owner == s.owner
    ensures Locked(t)
  {
  }

  lemma LockedKept<T>(s: Pool<T>, a: Action<T>)
    requires Locked(s) && Enabled(s, a)
    ensures Locked(Apply(s, a))
  {
    var t := Apply(s, a);
    match a {
      case Notify(chosen) => if 0 <= chosen < |s.workers| { LockedMove(s, t, chosen); }
      case Top(i) => LockedMove(s, t, i);
      case Acquire(i) => LockedMove(s, t, i);
      case Examine(i) => LockedMove(s, t, i);
      case Park(i) => LockedMove(s, t, i);
      case Spurious(i) => LockedMove(s, t, i);
      case Finish(i) => LockedMove(s, t, i);
      case _ =>
    }
  }

  // ---------------------------------------------------------------- conservation

  /** Ticket n is in exactly one place: finished once, or in the hands of one worker. */
  ghost predicate Accounted<T>(s: Pool<T>) {
    && s.committed == s.taken + s.tasks
    && Distinct(s.finished)
    && (forall n <- s.finished :: n < |s.taken|)
    && (forall i :: 0 <= i < |s.workers| && s.workers[i].Busy? ==>
        s.workers[i].ticket < |s.taken| && s.workers[i].ticket !in s.finished)
    && (forall i, j :: 0 <= i < j < |s.workers| && s.workers[i].Busy? && s.workers[j].Busy? ==>
        s.workers[i].ticket != s.workers[j].ticket)
    && (forall n :: 0 <= n < |s.taken| ==> n in s.finished || Busy(n) in s.workers)
  }

  lemma BusyKept(workers: seq<Worker>, i: nat, w: Worker, n: nat)
    requires i < |workers| && Busy(n) in workers && workers[i] != Busy(n)
    ensures Busy(n) in workers[i := w]
  {
    var j :| 0 <= j < |workers| && workers[j] == Busy(n);
    assert workers[i := w][j] == Busy(n);
  }

  lemma AccountedMove<T>(s: Pool<T>, i: nat, w: Worker)
    requires Accounted(s) && i < |s.workers| && !s.workers[i].Busy? && !w.Busy?
    ensures Accounted(Moved(s, i, w))
  {
    forall n | 0 <= n < |s.taken| && n !in s.finished ensures Busy(n) in s.workers[i := w] {
      BusyKept(s.workers, i, w, n);
    }
  }

  lemma AccountedPop<T>(s: Pool<T>, i: nat)
    requires Accounted(s) && i < |s.workers| && s.workers[i].Holding? && s.tasks != []
    ensures Accounted(Apply(s, Examine(i)))
  {
    var t := Apply(s, Examine(i));
    Regroup(s.taken, s.tasks, 1);
    assert s.tasks[..1] == [s.tasks[0]];
    assert t.workers[i] == Busy(|s.taken|);
    forall n | 0 <= n < |t.taken| && n !in t.finished ensures Busy(n) in t.workers {
      if n < |s.taken| {
        BusyKept(s.workers, i, t.workers[i], n);
      }
    }
  }

  lemma AccountedFinish<T>(s: Pool<T>, i: nat)
    requires Accounted(s) && i < |s.workers| && s.workers[i].Busy?
    ensures Accounted(Apply(s, Finish(i)))
  {
    var t, done := Apply(s, Finish(i)), s.workers[i].ticket;
    DistinctParts(s.finished, done);
    assert t.finished[|s.finished|] == done;
    forall n | 0 <= n < |t.taken| && n !in t.finished ensures Busy(n) in t.workers {
      assert n !in s.finished && n != done;
      BusyKept(s.workers, i, AtTop, n);
    }
    forall n | 0 <= n < |t.taken| && n in s.finished ensures n in t.finished {
    }
  }

  /** Nothing is taken or finished, and the busy workers stay where they are. */
  lemma AccountedSame<T>(s: Pool<T>, t: Pool<T>)
    requires Accounted(s) && t.committed == t.taken + t.tasks && t.taken == s.taken && t.finished == s.finished
    requires |s.workers| <= |t.workers|
    requires forall i :: 0 <= i < |s.workers| && (s.workers[i].Busy? || t.workers[i].Busy?) ==>
               t.workers[i] == s.workers[i]
    requires forall i :: |s.workers| <= i < |t.workers| ==> !t.workers[i].Busy?
    ensures Accounted(t)
  {
    forall n | 0 <= n < |s.taken| && n !in s.finished ensures Busy(n) in t.workers {
      var j :| 0 <= j < |s.workers| && s.workers[j] == Busy(n);
      assert t.workers[j] == Busy(n);
    }
  }

  lemma AccountedKept<T>(s: Pool<T>, a: Action<T>)
    requires Accounted(s) && Enabled(s, a)
    ensures Accounted(Apply(s, a))
  {
    match a {
      case Spawn => AccountedSame(s, Apply(s, a));
      case Push(task) =>
        AppendAssoc(s.taken, s.tasks, [task]);
        AccountedSame(s, Apply(s, a));
      case Notify(chosen) => if 0 <= chosen < |s.workers| { AccountedMove(s, chosen, Woken); }
      case Top(i) => AccountedMove(s, i, if s.running then Locking else Exited);
      case Acquire(i) => AccountedMove(s, i, Holding);
      case Examine(i) =>
        if s.tasks != [] { AccountedPop(s, i); }
        else { AccountedMove(s, i, if s.running then Parking else AtTop); }
      case Park(i) => AccountedMove(s, i, Waiting);
      case Spurious(i) => AccountedMove(s, i, Woken);
      case Finish(i) => AccountedFinish(s, i);
      case _ => AccountedSame(s, Apply(s, a));
    }
  }

  // ---------------------------------------------------------------- wake-ups

  /**
   While the pool runs, nobody has exited, a worker about to block has seen an empty queue, and as
   long as anyone sleeps every queued task has its own worker heading for it or a notification due.
   */
  ghost predicate Awake<T>(s: Pool<T>) {
    && (s.running <==> s.stopper.NotStopping?)
    && (s.running ==> Exited !in s.workers)
    && (Parking in s.workers ==> s.tasks == [])
    && (s.running && Waiting in s.workers ==> |s.tasks| <= s.owed + Count(s.workers))
  }

  lemma Member(workers: seq<Worker>, i: nat, w: Worker)
    requires i < |workers|
    ensures w in workers[i := w]
    ensures forall v :: v in workers[i := w] ==> v in workers || v == w
    ensures forall v :: v in workers && v != workers[i] ==> v in workers[i := w]
  {
    assert workers[i := w][i] == w;
    forall v | v in workers && v != workers[i] ensures v in workers[i := w] {
      var j :| 0 <= j < |workers| && workers[j] == v;
      assert workers[i := w][j] == v;
    }
  }

  lemma AwakeKept<T>(s: Pool<T>, a: Action<T>)
    requires Awake(s) && Locked(s) && Enabled(s, a)
    ensures Awake(Apply(s, a))
  {
    var t := Apply(s, a);
    match a {
      case Spawn => CountSpawn(s.workers, AtTop);
      case Push(_) =>
      case Notify(chosen) =>
        if 0 <= chosen < |s.workers| { Member(s.workers, chosen, Woken); CountUpdate(s.workers, chosen, Woken); }
      case Top(i) => Member(s.workers, i, t.workers[i]); CountUpdate(s.workers, i, t.workers[i]);
      case Acquire(i) => Member(s.workers, i, Holding); CountUpdate(s.workers, i, Holding);
      case Examine(i) => Member(s.workers, i, t.workers[i]); CountUpdate(s.workers, i, t.workers[i]);
      case Park(i) =>
        Member(s.workers, i, Waiting);
        assert s.workers[i] in s.workers;
      case Spurious(i) => Member(s.workers, i, Woken); CountUpdate(s.workers, i, Woken);
      case Finish(i) => Member(s.workers, i, AtTop); CountUpdate(s.workers, i, AtTop);
      case _ =>
    }
  }

  ghost predicate Inv<T>(s: Pool<T>) {
    Locked(s) && Accounted(s) && Awake(s) && (s.stopper.Joined? ==> AllExited(s.workers))
  }

  lemma InvKept<T>(s: Pool<T>, a: Action<T>)
    requires Inv(s) && Enabled(s, a)
    ensures Inv(Apply(s, a))
  {
    LockedKept(s, a);
    AccountedKept(s, a);
    AwakeKept(s, a);
  }

  lemma {:induction false} InvOnRuns<T>(s: Pool<T>, actions: seq<Action<T>>, t: Pool<T>)
    requires Inv(s) && Leads(s, actions, t)
    ensures Inv(t)
    decreases |actions|
  {
    if actions != [] {
      InvKept(s, actions[0]);
      InvOnRuns(Apply(s, actions[0]), actions[1..], t);
    }
  }

  lemma FromFresh<T>(actions: seq<Action<T>>, t: Pool<T>)
    requires Leads(Fresh(), actions, t)
    ensures Inv(t)
  {
    InvOnRuns(Fresh(), actions, t);
  }

  // ---------------------------------------------------------------- main results

  /**
   Conservation and exactly-once, in every reachable state: tasks leave in the order they were
   committed, none is lost, and each one that has left is finished once or in the hands of one worker.
   */
  lemma ExactlyOnce<T>(actions: seq<Action<T>>, t: Pool<T>)
    requires Leads(Fresh(), actions, t)
    ensures t.committed == t.taken + t.tasks
    ensures Distinct(t.finished)
    ensures forall n :: 0 <= n < |t.taken| ==> (n in t.finished <==> Busy(n) !in t.workers)
    ensures forall i, j :: 0 <= i < j < |t.workers| && t.workers[i].Busy? ==> t.workers[i] != t.workers[j]
  {
    FromFresh(actions, t);
  }

  /** Once Stop has joined every thread, the finished tasks are exactly a prefix of those committed. */
  lemma StoppedPoolFinishedPrefix<T>(actions: seq<Action<T>>, t: Pool<T>)
    requires Leads(Fresh(), actions, t) && t.stopper.Joined?
    ensures t.taken <= t.committed
    ensures Distinct(t.finished) && (forall n :: n in t.finished <==> 0 <= n < |t.taken|)
  {
    FromFresh(actions, t);
    forall n | 0 <= n < |t.taken| ensures n in t.finished {
      if Busy(n) in t.workers {
        assert false;
      }
    }
  }

  lemma {:induction false} NoneHeading(workers: seq<Worker>)
    requires forall w <- workers :: w.Waiting?
    ensures Count(workers) == 0
  {
    if workers != [] {
      assert workers[0] in workers && forall w <- workers[1..] :: w in workers;
      NoneHeading(workers[1..]);
    }
  }

  /**
   No lost wake-up: while the pool runs, a queue that is not empty never faces only sleeping workers
   with no notification due. More: as long as any worker sleeps, each queued task has a worker of its
   own on the way, or a notification of its own.
   */
  lemma NoLostWakeup<T>(actions: seq<Action<T>>, t: Pool<T>)
    requires Leads(Fresh(), actions, t) && t.running
    ensures t.workers != [] && t.tasks != [] ==> t.owed > 0 || exists w <- t.workers :: !w.Waiting?
    ensures Waiting in t.workers ==> |t.tasks| <= t.owed + Count(t.workers)
  {
    FromFresh(actions, t);
    if t.workers != [] && t.tasks != [] && forall w <- t.workers :: w.Waiting? {
      NoneHeading(t.workers);
      assert t.workers[0] in t.workers;
    }
  }

  // ---------------------------------------------------------------- the life of a worker

  lemma LeadsOne<T>(s: Pool<T>, a: Action<T>)
    requires Enabled(s, a)
    ensures Leads(s, [a], Apply(s, a))
  {
    assert [a][1..] == [];
  }

  ghost predicate Moves<T>(s: Pool<T>, a: Action<T>, t: Pool<T>) {
    Enabled(s, a) && t == Apply(s, a)
  }

  lemma LeadsFour<T>(s: Pool<T>, a: Action<T>, s1: Pool<T>, b: Action<T>, s2: Pool<T>, c: Action<T>, s3: Pool<T>,
      d: Action<T>, t: Pool<T>)
    requires Moves(s, a, s1) && Moves(s1, b, s2) && Moves(s2, c, s3) && Moves(s3, d, t)
    ensures Leads(s, [a, b, c, d], t)
  {
    assert [a, b, c, d][1..] == [b, c, d] && [b, c, d][1..] == [c, d] && [c, d][1..] == [d];
    LeadsOne(s3, d);
    assert Leads(s2, [c, d], t);
    assert Leads(s1, [b, c, d], t);
  }

  /** The pool after the first task has been taken and finished. */
  function Served<T>(s: Pool<T>): Pool<T>
    requires s.tasks != []
  {
    s.(tasks := s.tasks[1..], taken := s.taken + [s.tasks[0]], finished := s.finished + [|s.taken|])
  }

  /** Once round the loop of a running pool: the first task is taken and finished, or the worker falls asleep. */
  lemma OnceRound<T>(s: Pool<T>, i: nat)
    requires i < |s.workers| && s.workers[i].AtTop? && s.running && s.owner == -1
    ensures s.tasks != [] ==> Leads(s, [Top(i), Acquire(i), Examine(i), Finish(i)], Served(s))
    ensures s.tasks == [] ==>
              Leads(s, [Top(i), Acquire(i), Examine(i), Park(i)], s.(workers := s.workers[i := Waiting]))
  {
    var s1 := Apply(s, Top(i));
    var s2 := Apply(s1, Acquire(i));
    var s3 := Apply(s2, Examine(i));
    var last := if s.tasks != [] then Finish(i) else Park(i);
    var t := Apply(s3, last);
    LeadsFour(s, Top(i), s1, Acquire(i), s2, Examine(i), s3, last, t);
    assert t.workers == s.workers[i := if s.tasks != [] then AtTop else Waiting];
    assert s.tasks != [] ==> t.workers == s.workers;
  }

  /**
   A sleeper that is woken, by a commit, by Stop or by chance, looks at the queue before it looks at the
   flag: it serves a task even of a stopped pool, and goes on without one only if there is none.
   */
  lemma WokenLooks<T>(s: Pool<T>, i: nat, wake: Action<T>) returns (t: Pool<T>)
    requires i < |s.workers| && s.workers[i].Waiting? && s.owner == -1
    requires Enabled(s, wake) && (wake == Notify(i) || wake == Spurious(i) || wake == NotifyAll)
    ensures |t.workers| == |s.workers|
    ensures s.tasks != [] ==> Leads(s, [wake, Acquire(i), Examine(i), Finish(i)], t) && t.workers[i].AtTop?
    ensures s.tasks != [] ==>
              t.tasks == s.tasks[1..] && t.taken == s.taken + [s.tasks[0]] && t.finished == s.finished + [|s.taken|]
    ensures s.tasks == [] && s.running ==>
              Leads(s, [wake, Acquire(i), Examine(i), Park(i)], t) && t.workers[i].Waiting?
    ensures s.tasks == [] && !s.running ==>
              Leads(s, [wake, Acquire(i), Examine(i), Top(i)], t) && t.workers[i].Exited?
  {
    var s1 := Apply(s, wake);
    var s2 := Apply(s1, Acquire(i));
    var s3 := Apply(s2, Examine(i));
    var last := if s.tasks != [] then Finish(i) else if s.running then Park(i) else Top(i);
    t := Apply(s3, last);
    LeadsFour(s, wake, s1, Acquire(i), s2, Examine(i), s3, last, t);
  }

  // ---------------------------------------------------------------- progress

  /** What workers and notifiers do by themselves; wait never returns by chance. */
  predicate Serves<T>(a: Action<T>) {
    a.Notify? || a.Top? || a.Acquire? || a.Examine? || a.Park? || a.Finish?
  }

  function Weight(w: Worker): nat {
    match w
    case Busy(_) => 5
    case AtTop => 4
    case Locking => 3
    case Woken => 3
    case Holding => 2
    case Parking => 1
    case Waiting => 0
    case Exited => 0
  }

  /** A bound on the steps that are still to come in a running pool. */
  function StepsLeft<T>(s: Pool<T>): nat {
    4 * |s.tasks| + 4 * s.owed + Sum(Weight, s.workers)
  }

  lemma ServingStep<T>(s: Pool<T>, a: Action<T>)
    requires s.running && Enabled(s, a) && Serves(a)
    ensures StepsLeft(Apply(s, a)) < StepsLeft(s)
    ensures Apply(s, a).running && Apply(s, a).committed == s.committed && |Apply(s, a).workers| == |s.workers|
  {
    var t := Apply(s, a);
    match a {
      case Notify(chosen) => if 0 <= chosen < |s.workers| { SumUpdate(Weight, s.workers, chosen, Woken); }
      case Top(i) => SumUpdate(Weight, s.workers, i, t.workers[i]);
      case Acquire(i) => SumUpdate(Weight, s.workers, i, t.workers[i]);
      case Examine(i) => SumUpdate(Weight, s.workers, i, t.workers[i]);
      case Park(i) => SumUpdate(Weight, s.workers, i, t.workers[i]);
      case Finish(i) => SumUpdate(Weight, s.workers, i, t.workers[i]);
      case _ =>
    }
  }

  /** Everything committed has been run, and everybody sleeps. */
  ghost predicate AllRun<T>(s: Pool<T>) {
    && s.tasks == [] && s.taken == s.committed && (forall n :: n in s.finished <==> 0 <= n < |s.committed|)
    && (forall w <- s.workers :: w.Waiting?)
  }

  /** A running pool with threads moves by itself until everything committed has been run. */
  lemma ServingMoves<T>(s: Pool<T>) returns (a: Action<T>)
    requires Inv(s) && s.running && s.workers != []
    ensures (Serves(a) && Enabled(s, a)) || AllRun(s)
  {
    a := Notify(0);
    if s.owner != -1 {
      a := if s.workers[s.owner].Holding? then Examine(s.owner) else Park(s.owner);
    } else if i :| 0 <= i < |s.workers| && !s.workers[i].Waiting? {
      assert s.workers[i] in s.workers;
      a := if s.workers[i].AtTop? then Top(i) else if s.workers[i].Busy? then Finish(i) else Acquire(i);
    } else if s.owed == 0 {
      NoneHeading(s.workers);
      assert s.workers[0] in s.workers;
      forall n | 0 <= n < |s.taken| ensures n in s.finished {
        assert Busy(n) !in s.workers;
      }
      EmptyUnit(s.taken);
    }
  }

  /**
   No lost wake-up, as progress: from every reachable state of a running pool with threads the workers and
   the notifications due take boundedly many steps, and some run of them alone finishes every task committed.
   */
  lemma {:induction false} EveryTaskRuns<T>(before: seq<Action<T>>, s: Pool<T>)
    returns (actions: seq<Action<T>>, t: Pool<T>)
    requires Leads(Fresh(), before, s) && s.running && s.workers != []
    ensures Leads(s, actions, t) && |actions| <= StepsLeft(s) && (forall a <- actions :: Serves(a))
    ensures AllRun(t) && t.committed == s.committed
  {
    FromFresh(before, s);
    actions, t := RunOut(s);
    ServingEnds(s, actions, t);
  }

  /** No run of these steps goes on for ever, so each that cannot go on has run everything. */
  lemma {:induction false} ServingEnds<T>(s: Pool<T>, actions: seq<Action<T>>, t: Pool<T>)
    requires s.running && Leads(s, actions, t) && forall a <- actions :: Serves(a)
    ensures |actions| + StepsLeft(t) <= StepsLeft(s)
    ensures t.running && t.committed == s.committed
    decreases |actions|
  {
    if actions != [] {
      assert actions[0] in actions && forall a <- actions[1..] :: a in actions;
      ServingStep(s, actions[0]);
      ServingEnds(Apply(s, actions[0]), actions[1..], t);
    }
  }

  lemma {:induction false} RunOut<T>(s: Pool<T>) returns (actions: seq<Action<T>>, t: Pool<T>)
    requires Inv(s) && s.running && s.workers != []
    ensures Leads(s, actions, t) && (forall a <- actions :: Serves(a)) && AllRun(t)
    decreases StepsLeft(s)
  {
    var a := ServingMoves(s);
    if Serves(a) && Enabled(s, a) {
      ServingStep(s, a);
      InvKept(s, a);
      var later;
      later, t := RunOut(Apply(s, a));
      LeadsCons(s, a, later, t);
      actions := [a] + later;
    } else {
      actions, t := [], s;
    }
  }

  // ---------------------------------------------------------------- stopping

  predicate IsWorkerAction<T>(a: Action<T>) {
    a.Top? || a.Acquire? || a.Examine? || a.Park? || a.Spurious? || a.Finish?
  }

  function Rank(w: Worker): nat {
    match w
    case Exited => 0
    case AtTop => 1
    case Busy(_) => 2
    case Holding => 3
    case Locking => 4
    case Woken => 4
    case Waiting => 5
    case Parking => 6
  }

  function Sum(weight: Worker -> nat, workers: seq<Worker>): nat {
    if workers == [] then 0 else weight(workers[0]) + Sum(weight, workers[1..])
  }

  function Ranks(workers: seq<Worker>): nat {
    Sum(Rank, workers)
  }

  lemma {:induction false} SumUpdate(weight: Worker -> nat, workers: seq<Worker>, i: nat, w: Worker)
    requires i < |workers|
    ensures Sum(weight, workers[i := w]) == Sum(weight, workers) - weight(workers[i]) + weight(w)
  {
    if i == 0 {
      assert workers[i := w][1..] == workers[1..];
    } else {
      SumUpdate(weight, workers[1..], i - 1, w);
      assert workers[i := w][1..] == workers[1..][i - 1 := w];
    }
  }

  lemma {:induction false} RanksWakeAll(workers: seq<Worker>)
    ensures Ranks(WakeAll(workers)) <= Ranks(workers)
  {
    if workers != [] {
      RanksWakeAll(workers[1..]);
    }
  }

  function WorkerActions<T>(actions: seq<Action<T>>): nat {
    if actions == [] then 0 else (if IsWorkerAction(actions[0]) then 1 else 0) + WorkerActions(actions[1..])
  }

  lemma RankStep<T>(s: Pool<T>, a: Action<T>)
    requires !s.running && !s.stopper.NotStopping? && Enabled(s, a)
    ensures !Apply(s, a).running && !Apply(s, a).stopper.NotStopping?
    ensures Ranks(Apply(s, a).workers) + (if IsWorkerAction(a) then 1 else 0) <= Ranks(s.workers)
  {
    var t := Apply(s, a);
    match a {
      case Notify(chosen) => if 0 <= chosen < |s.workers| { SumUpdate(Rank, s.workers, chosen, Woken); }
      case Top(i) => SumUpdate(Rank, s.workers, i, t.workers[i]);
      case Acquire(i) => SumUpdate(Rank, s.workers, i, t.workers[i]);
      case Examine(i) => SumUpdate(Rank, s.workers, i, t.workers[i]);
      case Park(i) => SumUpdate(Rank, s.workers, i, t.workers[i]);
      case Spurious(i) => SumUpdate(Rank, s.workers, i, t.workers[i]);
      case Finish(i) => SumUpdate(Rank, s.workers, i, t.workers[i]);
      case NotifyAll => RanksWakeAll(s.workers);
      case _ =>
    }
  }

  /** After Stop has cleared the flag, the workers take a bounded number of steps, whatever is committed. */
  lemma {:induction false} StopBounds<T>(s: Pool<T>, actions: seq<Action<T>>, t: Pool<T>)
    requires !s.running && !s.stopper.NotStopping? && Leads(s, actions, t)
    ensures WorkerActions(actions) + Ranks(t.workers) <= Ranks(s.workers)
    decreases |actions|
  {
    if actions != [] {
      RankStep(s, actions[0]);
      StopBounds(Apply(s, actions[0]), actions[1..], t);
    }
  }

  /** Nobody sleeps or is about to. */
  predicate Sleepless(workers: seq<Worker>) {
    Waiting !in workers && Parking !in workers
  }

  /** Without sleepers the pool cannot get stuck: all threads have exited, or one of them can move. */
  lemma SleeplessMoves<T>(s: Pool<T>) returns (a: Action<T>)
    requires Inv(s) && Sleepless(s.workers)
    ensures AllExited(s.workers) || (IsWorkerAction(a) && Enabled(s, a))
  {
    a := Join;
    if !AllExited(s.workers) {
      var i :| 0 <= i < |s.workers| && !s.workers[i].Exited?;
      assert s.workers[i] in s.workers;
      if s.owner >= 0 {
        assert s.workers[s.owner] in s.workers;
        a := Examine(s.owner);
      } else {
        a := if s.workers[i].AtTop? then Top(i) else if s.workers[i].Busy? then Finish(i) else Acquire(i);
      }
    }
  }

  /** Stop has notified and is joining while a worker sleeps and nobody is about to wake it. */
  predicate Stranded<T>(t: Pool<T>) {
    t.stopper.Joining? && Waiting in t.workers && t.owed == 0
  }

  /** Nothing is committed and wait never returns by chance. */
  ghost predicate NothingHappens<T(!new)>(actions: seq<Action<T>>) {
    forall a <- actions :: !a.Push? && !a.Spurious?
  }

  /** Whatever else the threads do, Stop then waits for that worker for ever. */
  lemma {:induction false} StrandedLasts<T(!new)>(s: Pool<T>, actions: seq<Action<T>>, t: Pool<T>)
    requires Stranded(s) && Leads(s, actions, t) && NothingHappens(actions)
    ensures Stranded(t)
    decreases |actions|
  {
    if actions != [] {
      var next := Apply(s, actions[0]);
      assert actions[0] in actions && forall a <- actions[1..] :: a in actions;
      var i :| 0 <= i < |s.workers| && s.workers[i].Waiting?;
      assert next.workers[i] == Waiting;
      StrandedLasts(next, actions[1..], t);
    }
  }

  /** Some run from here ends in such a state. */
  ghost predicate CanStrand<T(!new)>(s: Pool<T>) {
    exists actions: seq<Action<T>>, t: Pool<T> :: Leads(s, actions, t) && Stranded(t)
  }

  /** Stop has begun and nobody is between its test and its wait; sleepers are still to be notified. */
  ghost predicate Clearing<T>(s: Pool<T>) {
    && !s.running && !s.stopper.NotStopping?
    && Parking !in s.workers
    && (s.stopper.FlagCleared? || Waiting !in s.workers)
  }

  lemma {:induction false} ClearingKept<T>(s: Pool<T>, actions: seq<Action<T>>, t: Pool<T>)
    requires Clearing(s) && Leads(s, actions, t)
    ensures Clearing(t)
    decreases |actions|
  {
    if actions != [] {
      var next := Apply(s, actions[0]);
      assert Clearing(next);
      ClearingKept(next, actions[1..], t);
    }
  }

  /** From such a state every run can be carried on until Stop's joins have returned. */
  lemma {:induction false} StopFinishes<T>(s: Pool<T>) returns (actions: seq<Action<T>>, t: Pool<T>)
    requires Inv(s) && Clearing(s) && s.stopper.Joining?
    ensures Leads(s, actions, t) && t.stopper.Joined?
    decreases Ranks(s.workers)
  {
    var a := Join;
    if AllExited(s.workers) {
      t, actions := Apply(s, a), [];
    } else {
      a := SleeplessMoves(s);
      RankStep(s, a);
      InvKept(s, a);
      actions, t := StopFinishes(Apply(s, a));
    }
    LeadsCons(s, a, actions, t);
    actions := [a] + actions;
  }

  /** The notifications still due can all be given first. */
  lemma {:induction false} Discharge<T>(s: Pool<T>) returns (actions: seq<Action<T>>, t: Pool<T>)
    requires Inv(s)
    ensures Leads(s, actions, t) && Inv(t) && Spawn !in actions
    ensures t.owed == 0 && t.running == s.running && t.stopper == s.stopper && |t.workers| == |s.workers|
    ensures forall i :: 0 <= i < |s.workers| && s.workers[i].Parking? ==> t.workers[i].Parking?
    decreases s.owed
  {
    if s.owed == 0 {
      actions, t := [], s;
    } else {
      var a: Action<T> := Notify(-1);
      if Waiting in s.workers {
        var chosen :| 0 <= chosen < |s.workers| && s.workers[chosen] == Waiting;
        a := Notify(chosen);
      }
      InvKept(s, a);
      actions, t := Discharge(Apply(s, a));
      LeadsCons(s, a, actions, t);
      actions := [a] + actions;
    }
  }

  /** A parking worker falls asleep behind Stop's back, with no notification left to wake it. */
  lemma ParkAfterNotify<T>(s: Pool<T>, i: nat) returns (actions: seq<Action<T>>, t: Pool<T>)
    requires i < |s.workers| && s.workers[i].Parking? && (s.stopper.FlagCleared? || s.stopper.Joining?) && s.owed == 0
    ensures Leads(s, actions, t) && Stranded(t) && Spawn !in actions
  {
    var notified := if s.stopper.FlagCleared? then Apply(s, NotifyAll) else s;
    t := Apply(notified, Park(i));
    assert t.workers[i] == Waiting;
    LeadsCons(notified, Park(i), [], t);
    actions := [Park(i)] + [];
    if s.stopper.FlagCleared? {
      LeadsCons(s, NotifyAll, actions, t);
      actions := [NotifyAll] + actions;
    }
  }

  lemma {:induction false} ParkingStrands<T>(s: Pool<T>, i: nat) returns (actions: seq<Action<T>>, t: Pool<T>)
    requires Inv(s) && i < |s.workers| && s.workers[i].Parking? && (s.stopper.FlagCleared? || s.stopper.Joining?)
    ensures Leads(s, actions, t) && Stranded(t) && Spawn !in actions
  {
    var first, mid := Discharge(s);
    var second;
    second, t := ParkAfterNotify(mid, i);
    LeadsJoin(s, first, mid, second, t);
    actions := first + second;
  }

  /**
   Stop does not take the mutex, so notify_all can fall between a worker's test of the predicate and
   its wait. From the moment Stop has cleared the flag, a run can leave a worker asleep with nobody to
   wake it exactly if one is parking; otherwise no run does, and by StopBounds and StopFinishes every join returns.
   */
  lemma {:induction false} StopStrandsIffParking<T(!new)>(s: Pool<T>)
    requires Inv(s) && (s.stopper.FlagCleared? || (s.stopper.Joining? && Waiting !in s.workers))
    ensures CanStrand(s) <==> Parking in s.workers
  {
    if Parking in s.workers {
      var i :| 0 <= i < |s.workers| && s.workers[i].Parking?;
      var actions, t := ParkingStrands(s, i);
    } else {
      forall actions: seq<Action<T>>, t: Pool<T> | Leads(s, actions, t) ensures !Stranded(t) {
        ClearingKept(s, actions, t);
      }
    }
  }

  // ---------------------------------------------------------------- before Stop is called

  /** How far worker 0 is from having the mutex, while nobody has it. */
  function Distance(w: Worker): nat {
    match w
    case Locking => 1
    case Woken => 1
    case Busy(_) => 3
    case _ => 2
  }

  function Effort<T>(s: Pool<T>): nat {
    if s.owner != -1 || s.workers == [] then 0 else Distance(s.workers[0])
  }

  /** The next action towards a worker that finds the queue empty. */
  function Towards<T>(s: Pool<T>): Action<T>
    requires s.workers != [] && -1 <= s.owner
  {
    if s.owner != -1 then Examine(s.owner)
    else
      match s.workers[0]
      case AtTop => Top(0)
      case Waiting => Spurious(0)
      case Busy(_) => Finish(0)
      case _ => Acquire(0)
  }

  lemma TowardsProgress<T>(s: Pool<T>)
    requires Inv(s) && s.running && s.workers != [] && Parking !in s.workers
    ensures Enabled(s, Towards(s))
    ensures
      var next := Apply(s, Towards(s));
      && next.running && next.workers != []
      && (Parking in next.workers || |next.tasks| < |s.tasks| || (next.tasks == s.tasks && Effort(next) < Effort(s)))
  {
    assert s.workers[0] in s.workers;
    if s.owner != -1 {
      assert s.workers[s.owner] in s.workers;
      Member(s.workers, s.owner, Apply(s, Towards(s)).workers[s.owner]);
    }
  }

  /**
   In a running pool that has a worker, the workers alone can bring one of them to the point of blocking;
   wait may have to return without a notification for that.
   */
  lemma {:induction false} ReachParking<T>(s: Pool<T>) returns (actions: seq<Action<T>>, t: Pool<T>)
    requires Inv(s) && s.running && s.workers != []
    ensures Leads(s, actions, t) && Spawn !in actions
    ensures Inv(t) && t.running && Parking in t.workers
    decreases |s.tasks|, Effort(s)
  {
    if Parking in s.workers {
      actions, t := [], s;
    } else {
      var a := Towards(s);
      TowardsProgress(s);
      InvKept(s, a);
      var next := Apply(s, a);
      var rest: seq<Action<T>>;
      if Parking in next.workers {
        rest, t := [], next;
      } else {
        rest, t := ReachParking(next);
      }
      LeadsCons(s, a, rest, t);
      actions := [a] + rest;
    }
  }

  lemma {:induction false} LeadsJoin<T>(s: Pool<T>, first: seq<Action<T>>, mid: Pool<T>, second: seq<Action<T>>,
      t: Pool<T>)
    requires Leads(s, first, mid) && Leads(mid, second, t)
    ensures Leads(s, first + second, t)
    decreases |first|
  {
    if first == [] {
      assert first + second == second;
    } else {
      ConsAppend(first, second);
      LeadsJoin(Apply(s, first[0]), first[1..], mid, second, t);
    }
  }

  lemma {:induction false} NoWorkersKept<T>(s: Pool<T>, actions: seq<Action<T>>, t: Pool<T>)
    requires s.workers == [] && Leads(s, actions, t) && Spawn !in actions
    ensures t.workers == []
    decreases |actions|
  {
    if actions != [] {
      assert actions[0] in actions;
      NoWorkersKept(Apply(s, actions[0]), actions[1..], t);
    }
  }

  /** Some way for Stop to be called and to run, without new threads, leaves a worker asleep. */
  ghost predicate StopMayHang<T(!new)>(s: Pool<T>) {
    exists actions: seq<Action<T>>, t: Pool<T> :: Leads(s, actions, t) && Spawn !in actions && Stranded(t)
  }

  /**
   What a caller of Stop can check: in whatever state a running pool is, Stop may hang exactly if the
   pool has threads. No queue, load or number of threads above none makes the call safe. By
   StrandedLasts it then hangs until something is committed or wait returns by chance.
   */
  lemma {:induction false} StopMayHangIffThreads<T(!new)>(s: Pool<T>)
    requires Inv(s) && s.running
    ensures StopMayHang(s) <==> s.workers != []
  {
    if s.workers != [] {
      var first, mid := ReachParking(s);
      var i :| 0 <= i < |mid.workers| && mid.workers[i].Parking?;
      InvKept(mid, ClearFlag);
      var second, t := ParkingStrands(Apply(mid, ClearFlag), i);
      LeadsCons(mid, ClearFlag, second, t);
      var stop: seq<Action<T>> := [ClearFlag] + second;
      LeadsJoin(s, first, mid, stop, t);
      assert Spawn !in first + stop;
    } else {
      forall actions: seq<Action<T>>, t: Pool<T> | Leads(s, actions, t) && Spawn !in actions ensures !Stranded(t) {
        NoWorkersKept(s, actions, t);
      }
    }
  }

  /** A worker that missed Stop's notification stays asleep, and Stop waits for it, until it is woken by chance. */
  lemma {:induction false} StrandedForGood<T>(s: Pool<T>, i: nat, actions: seq<Action<T>>, t: Pool<T>)
    requires s.stopper.Joining? && i < |s.workers| && s.workers[i].Waiting? && Leads(s, actions, t)
    requires Notify(i) !in actions && Spurious(i) !in actions
    ensures t.stopper.Joining? && i < |t.workers| && t.workers[i].Waiting?
    decreases |actions|
  {
    if actions != [] {
      assert actions[0] in actions;
      StrandedForGood(Apply(s, actions[0]), i, actions[1..], t);
    }
  }

  /** With one sleeping worker and nothing due, only a new commit or a spurious wake-up can happen. */
  predicate Hung<T>(t: Pool<T>) {
    t.stopper.Joining? && t.workers == [Waiting] && t.owed == 0 && t.tasks == []
  }

  lemma HungMoves<T>(t: Pool<T>, a: Action<T>)
    requires Hung(t) && Enabled(t, a)
    ensures a.Push? || a == Spurious(0)
  {
    assert t.workers[0].Waiting?;
  }

  /** The schedule: the only worker finds the queue empty, Stop runs, the worker blocks. */
  lemma StopCanHang<T>() returns (actions: seq<Action<T>>, t: Pool<T>)
    ensures Leads(Fresh(), actions, t) && Hung(t)
  {
    var s1: Pool<T> := Apply(Fresh(), Spawn);
    var s2 := Apply(s1, Top(0));
    var s3 := Apply(s2, Acquire(0));
    var s4 := Apply(s3, Examine(0));
    var s5 := Apply(s4, ClearFlag);
    var s6 := Apply(s5, NotifyAll);
    t := Apply(s6, Park(0));
    LeadsCons(s6, Park(0), [], t);
    LeadsCons(s5, NotifyAll, [Park(0)] + [], t);
    actions := [NotifyAll] + ([Park(0)] + []);
    LeadsCons(s4, ClearFlag, actions, t);
    actions := [ClearFlag] + actions;
    LeadsCons(s3, Examine(0), actions, t);
    actions := [Examine(0)] + actions;
    LeadsCons(s2, Acquire(0), actions, t);
    actions := [Acquire(0)] + actions;
    LeadsCons(s1, Top(0), actions, t);
    actions := [Top(0)] + actions;
    LeadsCons(Fresh(), Spawn, actions, t);
    actions := [Spawn] + actions;
  }
}
