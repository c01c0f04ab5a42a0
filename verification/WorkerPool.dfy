/**
 The ThreadPool object itself. A method is one atomic step of Commit, Work or Stop, so a schedule of
 calls is a run of the transition system, and every call keeps what the runs of ThreadPool keep.
 */
module WorkerPool {
  import opened Sequences
  import opened ThreadPool

  /** What the scheduler picks next. */
  datatype Turn<T> =
    | StartThread
    | CommitTask(task: T)   // a committer gets as far as its closing brace
    | NotifyCommit          // a committer that has pushed calls notify_one
    | Run(i: nat)           // thread i goes on inside Work()
    | WakeByChance(i: nat)  // wait returns without a notification
    | ClearRunning
    | NotifyThreads
    | JoinAll

  /** A step thread i takes by itself. */
  predicate OwnStep<T>(a: Action<T>, i: nat) {
    (a.Top? || a.Acquire? || a.Examine? || a.Park? || a.Finish?) && a.i == i
  }

  class Workers<T> {
    var running: bool
    var tasks: seq<T>
    var threads: seq<Worker>
    var owner: int
    var owed: nat
    var stopper: Stopper
    var committed: seq<T>
    var taken: seq<T>
    var finished: seq<nat>

    constructor ()
      ensures Valid() && State() == Fresh()
    {
      running, tasks, threads, owner, owed, stopper := true, [], [], -1, 0, NotStopping;
      committed, taken, finished := [], [], [];
    }

    function State(): Pool<T>
      reads this
    {
      Pool(running, tasks, threads, owner, owed, stopper, committed, taken, finished)
    }

    ghost predicate Valid()
      reads this
    {
      Inv(State())
    }

    /** Start: the new threads begin at the top of Work(). */
    method Start(threadCount: nat)
      requires Valid() && stopper.NotStopping?
      modifies this`threads
      ensures Valid()
      ensures threads == old(threads) + seq(threadCount, _ => AtTop)
    {
      for i := 0 to threadCount
        invariant Valid() && stopper.NotStopping?
        invariant threads == old(threads) + seq(i, _ => AtTop)
      {
        InvKept(State(), Spawn);
        threads := threads + [AtTop];
      }
    }

    /** Commit up to the closing brace of its guard. */
    method PushTask(task: T)
      requires Valid() && owner == -1
      modifies this
      ensures Valid() && State() == Apply(old(State()), Push(task))
    {
      InvKept(State(), Push(task));
      tasks, committed := tasks + [task], committed + [task];
      owed := owed + 1;
    }

    /** Commit's notify_one. The condition variable wakes some waiting thread if there is one. */
    method NotifyOne() returns (chosen: int)
      requires Valid() && owed > 0
      modifies this
      ensures Enabled(old(State()), Action<T>.Notify(chosen))
      ensures Valid() && State() == Apply(old(State()), Action<T>.Notify(chosen))
    {
      chosen := 0;
      while chosen < |threads| && !threads[chosen].Waiting?
        invariant 0 <= chosen <= |threads| && Waiting !in threads[..chosen]
      {
        chosen := chosen + 1;
      }
      assert threads[..|threads|] == threads;
      InvKept(State(), Notify(chosen));
      if chosen < |threads| {
        threads := threads[chosen := Woken];
      }
      owed := owed - 1;
    }

    /** Thread i can take its next step: it is alive, not asleep, and does not need a mutex that is held. */
    predicate CanMove(i: nat)
      reads this
      requires i < |threads|
    {
      match threads[i]
      case Exited => false
      case Waiting => false
      case Locking => owner == -1
      case Woken => owner == -1
      case _ => true
    }

    function NextAction(i: nat): Action<T>
      reads this
      requires i < |threads|
    {
      match threads[i]
      case AtTop => Top(i)
      case Locking => Acquire(i)
      case Woken => Acquire(i)
      case Holding => Examine(i)
      case Parking => Park(i)
      case Busy(_) => Finish(i)
      case _ => Spurious(i)
    }

    /** It can exactly if one of its own steps is enabled, and then that is its next one. */
    lemma CanMoveIff(i: nat)
      requires i < |threads|
      ensures CanMove(i) <==> exists a: Action<T> :: OwnStep(a, i) && Enabled(State(), a)
      ensures forall a: Action<T> :: OwnStep(a, i) && Enabled(State(), a) ==> a == NextAction(i)
    {
      if CanMove(i) {
        assert OwnStep(NextAction(i), i) && Enabled(State(), NextAction(i));
      }
    }

    /** The next step of thread i inside Work(). */
    method WorkStep(i: nat) returns (moved: bool)
      requires Valid() && i < |threads|
      modifies this
      ensures Valid()
      ensures moved == old(CanMove(i)) && (!moved ==> State() == old(State()))
      ensures moved ==> Enabled(old(State()), old(NextAction(i))) && State() == Apply(old(State()), old(NextAction(i)))
    {
      moved := CanMove(i);
      if !moved {
        return;
      }
      InvKept(State(), NextAction(i));
      match threads[i] {
        case AtTop =>
          threads := threads[i := if running then Locking else Exited];
        case Holding =>
          if tasks != [] {
            threads := threads[i := Busy(|taken|)];
            taken, tasks := taken + [tasks[0]], tasks[1..];
            owner := -1;
          } else if running {
            threads := threads[i := Parking];
          } else {
            threads := threads[i := AtTop];
            owner := -1;
          }
        case Parking =>
          threads, owner := threads[i := Waiting], -1;
        case Busy(ticket) =>
          finished := finished + [ticket];
          threads := threads[i := AtTop];
        case Locking =>
          threads, owner := threads[i := Holding], i;
        case Woken =>
          threads, owner := threads[i := Holding], i;
      }
    }

    /** wait may return although nobody has notified. */
    method WakeSpuriously(i: nat)
      requires Valid() && i < |threads| && threads[i].Waiting?
      modifies this`threads
      ensures Valid() && State() == Apply(old(State()), Action<T>.Spurious(i))
    {
      InvKept(State(), Spurious(i));
      threads := threads[i := Woken];
    }

    /** Stop: the flag is cleared without the mutex. */
    method StopRunning()
      requires Valid() && stopper.NotStopping?
      modifies this
      ensures Valid() && State() == Apply(old(State()), Action<T>.ClearFlag)
    {
      InvKept(State(), ClearFlag);
      running, stopper := false, FlagCleared;
    }

    /** Stop's notify_all. */
    method NotifyAllThreads()
      requires Valid() && stopper.FlagCleared?
      modifies this`threads, this`stopper
      ensures Valid() && State() == Apply(old(State()), Action<T>.NotifyAll)
    {
      InvKept(State(), NotifyAll);
      ghost var before := threads;
      var i := 0;
      while i < |threads|
        invariant i <= |threads| == |before| && stopper.FlagCleared?
        invariant forall k :: 0 <= k < i ==> threads[k] == if before[k].Waiting? then Woken else before[k]
        invariant forall k :: i <= k < |before| ==> threads[k] == before[k]
      {
        if threads[i].Waiting? {
          threads := threads[i := Woken];
        }
        i := i + 1;
      }
      assert threads == WakeAll(before);
      stopper := Joining;
    }

    /** Stop's joins have returned; what was run by then is exactly a prefix of what was committed. */
    method JoinThreads() returns (joined: bool)
      requires Valid() && stopper.Joining?
      modifies this
      ensures Valid() && joined == AllExited(old(threads))
      ensures State() == if joined then Apply(old(State()), Action<T>.Join) else old(State())
      ensures joined ==> taken <= committed && forall n :: n in finished <==> 0 <= n < |taken|
    {
      joined := AllExited(threads);
      if joined {
        InvKept(State(), Join);
        stopper := Joined;
        assert forall n :: 0 <= n < |taken| ==> Busy(n) !in threads;
      }
    }

    /** The source lets this happen now. */
    predicate CanTake(turn: Turn<T>)
      reads this
    {
      match turn
      case StartThread => stopper.NotStopping?
      case CommitTask(_) => owner == -1
      case NotifyCommit => owed > 0
      case Run(i) => i < |threads| && CanMove(i)
      case WakeByChance(i) => i < |threads| && threads[i].Waiting?
      case ClearRunning => stopper.NotStopping?
      case NotifyThreads => stopper.FlagCleared?
      case JoinAll => stopper.Joining? && AllExited(threads)
    }

    /** One turn of the scheduler; exactly those turns that cannot be taken are skipped. */
    method Take(turn: Turn<T>) returns (ghost step: seq<Action<T>>)
      requires Valid()
      modifies this
      ensures Valid() && Leads(old(State()), step, State())
      ensures |step| == if old(CanTake(turn)) then 1 else 0
      ensures turn.CommitTask? && old(owner) == -1 ==> committed == old(committed) + [turn.task]
      ensures turn.ClearRunning? ==> !running
    {
      step := [];
      ghost var before := State();
      match turn {
        case StartThread =>
          if stopper.NotStopping? {
            step := [Spawn];
            Start(1);
          }
        case CommitTask(task) =>
          if owner == -1 {
            step := [Push(task)];
            PushTask(task);
          }
        case NotifyCommit =>
          if owed > 0 {
            var chosen := NotifyOne();
            step := [Notify(chosen)];
          }
        case Run(i) =>
          if i < |threads| {
            ghost var next := NextAction(i);
            var moved := WorkStep(i);
            step := if moved then [next] else [];
          }
        case WakeByChance(i) =>
          if i < |threads| && threads[i].Waiting? {
            step := [Spurious(i)];
            WakeSpuriously(i);
          }
        case ClearRunning =>
          if stopper.NotStopping? {
            step := [ClearFlag];
            StopRunning();
          }
        case NotifyThreads =>
          if stopper.FlagCleared? {
            step := [NotifyAll];
            NotifyAllThreads();
          }
        case JoinAll =>
          if stopper.Joining? {
            var joined := JoinThreads();
            step := if joined then [Join] else [];
          }
      }
      OneStep(before, step, State());
    }

    /**
     Whatever the scheduler does, the object has made a run of the transition system: tasks have left in
     commit order, none is lost or run twice, and after the joins the finished ones are exactly a prefix.
     */
    method Drive(turns: seq<Turn<T>>) returns (ghost actions: seq<Action<T>>)
      requires Valid()
      modifies this
      ensures Valid() && Leads(old(State()), actions, State())
      ensures committed == taken + tasks && Distinct(finished)
      ensures forall n :: 0 <= n < |taken| ==> (n in finished <==> Busy(n) !in threads)
      ensures stopper.Joined? ==> forall n :: n in finished <==> 0 <= n < |taken|
    {
      ghost var start := State();
      actions := [];
      for i := 0 to |turns|
        invariant Valid() && Leads(start, actions, State())
      {
        ghost var mid := State();
        ghost var step := Take(turns[i]);
        LeadsJoin(start, actions, mid, step, State());
        actions := actions + step;
      }
      assert stopper.Joined? ==> forall n :: 0 <= n < |taken| ==> Busy(n) !in threads;
    }
  }

  lemma OneStep<T>(s: Pool<T>, step: seq<Action<T>>, t: Pool<T>)
    requires if step == [] then s == t else |step| == 1 && Enabled(s, step[0]) && t == Apply(s, step[0])
    ensures Leads(s, step, t)
  {
    if step != [] {
      LeadsCons(s, step[0], [], t);
      assert [step[0]] + [] == step;
    }
  }
}
