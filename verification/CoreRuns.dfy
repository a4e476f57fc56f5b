/** Whole runs: any number of cores, any interleaving of their critical sections. */
module CoreRuns {
  import opened Process
  import opened Scheduling
  import opened Cores
  import opened CoreInvariants

  /** No task of the run is given the `tpidr` with which some core is still entering. */
  ghost predicate Unclashed(s: State, steps: seq<Step>)
    decreases |steps|
  {
    steps == [] || (!Clashes(s, steps[0]) && Unclashed(Apply(s, steps[0]), steps[1..]))
  }

  lemma {:induction false} RunKeeps(s: State, steps: seq<Step>)
    requires Inv(s) && Unclashed(s, steps)
    ensures Inv(Exec(s, steps))
    decreases |steps|
  {
    if steps != [] {
      StepInv(s, steps[0]);
      RunKeeps(Apply(s, steps[0]), steps[1..]);
    }
  }

  /** Pids start at 2, so a core that enters with a smaller `tpidr` never clashes. */
  lemma {:induction false} SmallEntriesUnclashed(s: State, steps: seq<Step>)
    requires s.lastId.Last? ==> s.lastId.id >= 2
    requires forall c :: 0 <= c < |s.cores| && s.cores[c].mode.Entering? ==> s.cores[c].ctx.tpidr < 2
    ensures Unclashed(s, steps)
    decreases |steps|
  {
    if steps != [] {
      SmallEntriesUnclashed(Apply(s, steps[0]), steps[1..]);
    }
  }

  /** Mutual exclusion: whatever the cores do, in whatever order, a running task is held by one core
      and a held task is running, provided the cores entered with a nonzero `tpidr` that no task got. */
  lemma MutualExclusion(entries: seq<Context>, steps: seq<Step>)
    requires forall c :: 0 <= c < |entries| ==> entries[c].tpidr != 0
    requires Unclashed(Init(entries), steps)
    ensures Exclusive(Exec(Init(entries), steps))
  {
    InitInv(entries);
    RunKeeps(Init(entries), steps);
  }

  /** Conservation: pids 2 to the last one allocated are queued, each once, and the stacks are freed
      exactly once, at exit. */
  lemma Conservation(entries: seq<Context>, steps: seq<Step>, p: nat)
    requires forall c :: 0 <= c < |entries| ==> entries[c].tpidr != 0
    requires Unclashed(Init(entries), steps)
    ensures var s := Exec(Init(entries), steps);
            && Count(s.queue, p) == (if 2 <= p <= LastPid(s) then 1 else 0)
            && !s.doubleFree && multiset(s.freed)[p] == (if IsZombie(s, p) then 1 else 0)
            && (Lookup(s.queue, p).Present? && !IsZombie(s, p) ==> Lookup(s.queue, p).task.stack in s.live)
  {
    InitInv(entries);
    RunKeeps(Init(entries), steps);
    var s := Exec(Init(entries), steps);
    assert OwnsStack(s, p) ==> StackOf(s, p) in s.live;
  }

  // ----- Bounded bypass ----------------------------------------------------------------------

  /** The tasks in front of the first with this pid that are not running. */
  ghost function Idle(q: seq<Task>): nat {
    if q == [] then 0 else (if q[0].state.Running? then 0 else 1) + Idle(q[1..])
  }

  ghost function Ahead(q: seq<Task>, pid: nat): nat {
    Idle(q[..IndexOf(q, pid)])
  }

  ghost predicate IsReady(s: State, p: nat) {
    Lookup(s.queue, p).Present? && Lookup(s.queue, p).task.state.Ready?
  }

  /** The pid that the step dispatches, 0 if it dispatches none. */
  ghost function Dispatches(s: State, step: Step): nat {
    if Enabled(s, step) && step.Attempt? && Chosen(s).Present? then Chosen(s).task.pid else 0
  }

  /** How many attempts of the run dispatch a task. */
  ghost function Dispatched(s: State, steps: seq<Step>): nat
    decreases |steps|
  {
    if steps == [] then 0
    else (if Dispatches(s, steps[0]) > 0 then 1 else 0) + Dispatched(Apply(s, steps[0]), steps[1..])
  }

  ghost predicate Served(s: State, steps: seq<Step>, pid: nat)
    decreases |steps|
  {
    steps != [] && (Dispatches(s, steps[0]) == pid || Served(Apply(s, steps[0]), steps[1..], pid))
  }

  lemma {:induction false} IdleConcat(a: seq<Task>, b: seq<Task>)
    ensures Idle(a + b) == Idle(a) + Idle(b)
  {
    if a == [] {
      assert a + b == b;
    } else {
      assert (a + b)[1..] == a[1..] + b;
      IdleConcat(a[1..], b);
    }
  }

  /** Everything in front of a pid, then the pid. */
  lemma {:induction false} IndexIn(a: seq<Task>, t: Task, b: seq<Task>)
    requires forall i :: 0 <= i < |a| ==> a[i].pid != t.pid
    ensures IndexOf(a + [t] + b, t.pid) == |a|
    ensures Ahead(a + [t] + b, t.pid) == Idle(a)
  {
    if a != [] {
      assert (a + [t] + b)[1..] == a[1..] + [t] + b;
      IndexIn(a[1..], t, b);
    }
    assert (a + [t] + b)[..|a|] == a;
  }

  lemma IdleMiddle(a: seq<Task>, x: Task, b: seq<Task>)
    ensures Idle(a + [x] + b) == Idle(a + b) + (if x.state.Running? then 0 else 1)
  {
    assert a + [x] + b == a + ([x] + b);
    assert ([x] + b)[1..] == b;
    IdleConcat(a, [x] + b);
    IdleConcat(a, b);
  }

  lemma SplitTwo(q: seq<Task>, i: nat, j: nat)
    requires i < j < |q|
    ensures q[..j] == q[..i] + [q[i]] + q[i+1..j]
    ensures q[i+1..] == q[i+1..j] + [q[j]] + q[j+1..]
  {
    assert q[..j] == q[..i] + q[i..j];
    assert q[i..j] == [q[i]] + q[i+1..j];
    assert q[i+1..] == q[i+1..j] + q[j..];
    assert q[j..] == [q[j]] + q[j+1..];
  }

  /** Removing a running task and putting it back at the end lets nobody overtake. */
  lemma AheadMoved(q: seq<Task>, i: nat, t': Task, pid: nat)
    requires i < |q| && q[i].state.Running? && q[i].pid != pid && IndexOf(q, pid) < |q|
    ensures Ahead(q[..i] + q[i+1..] + [t'], pid) == Ahead(q, pid)
  {
    var j := IndexOf(q, pid);
    if i < j {
      SplitTwo(q, i, j);
      assert q[..i] + q[i+1..] + [t'] == (q[..i] + q[i+1..j]) + [q[j]] + (q[j+1..] + [t']);
      IndexIn(q[..i] + q[i+1..j], q[j], q[j+1..] + [t']);
      IdleMiddle(q[..i], q[i], q[i+1..j]);
    } else {
      SplitTwo(q, j, i);
      assert q[..i] + q[i+1..] + [t'] == q[..j] + [q[j]] + (q[j+1..i] + q[i+1..] + [t']);
      IndexIn(q[..j], q[j], q[j+1..i] + q[i+1..] + [t']);
    }
  }

  lemma AheadAdded(q: seq<Task>, t: Task, pid: nat)
    requires IndexOf(q, pid) < |q|
    ensures Ahead(q + [t], pid) == Ahead(q, pid)
  {
    var j := IndexOf(q, pid);
    assert q + [t] == q[..j] + [q[j]] + (q[j+1..] + [t]);
    IndexIn(q[..j], q[j], q[j+1..] + [t]);
  }

  /** A ready task is dispatched, or one task in front of it is and it has fewer to wait for. */
  lemma AheadScheduled(q: seq<Task>, now: nat, pid: nat)
    requires IndexOf(q, pid) < |q| && q[IndexOf(q, pid)].state.Ready?
    ensures FirstRunnable(q, now) <= IndexOf(q, pid)
    ensures FirstRunnable(q, now) < IndexOf(q, pid) ==> Ahead(Scheduled(q, now).0, pid) < Ahead(q, pid)
  {
    var j, k := IndexOf(q, pid), FirstRunnable(q, now);
    if k < j {
      var d := Scheduled(q, now).1.task;
      SplitTwo(q, k, j);
      Rotated(d, q[k+1..j], q[j], q[j+1..], PassOver(q[..k]));
      IndexIn([d] + q[k+1..j], q[j], q[j+1..] + PassOver(q[..k]));
      IdleMiddle([], d, q[k+1..j]);
      assert [] + [d] + q[k+1..j] == [d] + q[k+1..j] && [] + q[k+1..j] == q[k+1..j];
      IdleMiddle(q[..k], q[k], q[k+1..j]);
      IdleConcat(q[..k], q[k+1..j]);
    }
  }

  lemma Rotated(d: Task, a: seq<Task>, t: Task, b: seq<Task>, c: seq<Task>)
    ensures [d] + (a + [t] + b) + c == ([d] + a) + [t] + (b + c)
  {}

  lemma ReadyIndex(s: State, pid: nat)
    requires IsReady(s, pid)
    ensures IndexOf(s.queue, pid) < |s.queue| && s.queue[IndexOf(s.queue, pid)] == Lookup(s.queue, pid).task
  {}

  lemma BypassSwitch(s: State, c: nat, update: TaskState, pid: nat)
    requires Inv(s) && IsReady(s, pid) && c < |s.cores| && s.cores[c].mode.Holding? && !update.Running? && !update.Zombie?
    ensures IsReady(Switch(s, c, update), pid) && Ahead(Switch(s, c, update).queue, pid) == Ahead(s.queue, pid)
  {
    var t := SwitchStep(s, c, update);
    var t1 := HeldTask(s, c);
    AheadMoved(s.queue, IndexOf(s.queue, t.pid), PutBack(t, update, s.cores[c].ctx), pid);
  }

  lemma ExitQueue(q: seq<Task>, ec: Context, i: nat)
    requires i < |q| && IndexOf(q, ec.tpidr) == i
    ensures Descheduled(ExitMarked(q, ec.tpidr), Zombie, ec).0 == q[..i] + q[i+1..] + [PutBack(q[i], Zombie, ec)]
  {
    var q' := q[i := Exited(q[i])];
    SameIndex(q, q', ec.tpidr);
    Updated(q, i, Exited(q[i]));
    assert q'[i].(counter := 1, state := Zombie, context := ec) == PutBack(q[i], Zombie, ec);
  }

  lemma Updated(q: seq<Task>, i: nat, t: Task)
    requires i < |q|
    ensures q[i := t][..i] == q[..i] && q[i := t][i+1..] == q[i+1..]
  {}

  lemma BypassExit(s: State, c: nat, pid: nat)
    requires Inv(s) && IsReady(s, pid) && c < |s.cores| && s.cores[c].mode.Holding?
    ensures IsReady(Exit(s, c), pid) && Ahead(Exit(s, c).queue, pid) == Ahead(s.queue, pid)
  {
    var t := ExitStep(s, c);
    var t1 := HeldTask(s, c);
    var i := IndexOf(s.queue, t.pid);
    ExitQueue(s.queue, s.cores[c].ctx, i);
    AheadMoved(s.queue, i, PutBack(t, Zombie, s.cores[c].ctx), pid);
  }

  lemma SameIndex(q: seq<Task>, q': seq<Task>, p: nat)
    requires |q| == |q'| && forall i :: 0 <= i < |q| ==> q[i].pid == q'[i].pid
    ensures IndexOf(q', p) == IndexOf(q, p)
  {}

  lemma BypassAttempt(s: State, c: nat, pid: nat)
    requires Inv(s) && IsReady(s, pid) && c < |s.cores| && s.cores[c].mode.Seeking? && (Chosen(s).Present? ==> Chosen(s).task.pid != pid)
    ensures IsReady(Attempted(s, c), pid)
    ensures Ahead(Attempted(s, c).queue, pid) + (if Chosen(s).Present? then 1 else 0) <= Ahead(s.queue, pid)
  {
    ReadyIndex(s, pid);
    AttemptStep(s, c);
    AheadScheduled(s.queue, s.now, pid);
  }

  lemma BypassAdd(s: State, context: Context, stack: nat, pid: nat)
    requires Inv(s) && !Clashes(s, Add(context, stack)) && IsReady(s, pid) && Enabled(s, Add(context, stack))
    ensures IsReady(Apply(s, Add(context, stack)), pid) && Ahead(Apply(s, Add(context, stack)).queue, pid) == Ahead(s.queue, pid)
  {
    ReadyIndex(s, pid);
    AddStep(s, context, stack);
    AheadAdded(s.queue, Initial(s, context, stack), pid);
  }

  lemma BypassTick(s: State, c: nat, pid: nat)
    requires Inv(s) && !Clashes(s, Tick(c)) && IsReady(s, pid) && Enabled(s, Tick(c))
    ensures IsReady(Apply(s, Tick(c)), pid) && Ahead(Apply(s, Tick(c)).queue, pid) == Ahead(s.queue, pid)
  {
    if s.cores[c].mode.Holding? { BypassSwitch(s, c, Ready, pid); } else { EnterStep(s, c); }
  }

  lemma BypassStep(s: State, step: Step, pid: nat)
    requires Inv(s) && !Clashes(s, step) && IsReady(s, pid) && Dispatches(s, step) != pid
    ensures IsReady(Apply(s, step), pid)
    ensures Ahead(Apply(s, step).queue, pid) + (if Dispatches(s, step) > 0 then 1 else 0) <= Ahead(s.queue, pid)
  {
    if Enabled(s, step) {
      match step
      case Add(context, stack) => BypassAdd(s, context, stack, pid);
      case Tick(c) => BypassTick(s, c, pid);
      case Syscall(c) =>
        if s.cores[c].ctx.gpr[8] == 1 { BypassSwitch(s, c, SleepUntil(s, c), pid); } else { BypassExit(s, c, pid); }
      case Attempt(c) => BypassAttempt(s, c, pid);
      case User(_, _) =>
      case Clock(_) =>
    }
  }

  /** Bounded bypass: a ready task with m idle tasks in front of it is dispatched by one of the next
      m + 1 attempts that dispatch anything, whatever the other cores do in between. */
  lemma {:induction false} BoundedBypass(s: State, steps: seq<Step>, pid: nat)
    requires Inv(s) && Unclashed(s, steps) && IsReady(s, pid)
    ensures Served(s, steps, pid) || (IsReady(Exec(s, steps), pid) && Dispatched(s, steps) + Ahead(Exec(s, steps).queue, pid) <= Ahead(s.queue, pid))
    ensures Dispatched(s, steps) > Ahead(s.queue, pid) ==> Served(s, steps, pid)
    decreases |steps|
  {
    if steps != [] && Dispatches(s, steps[0]) != pid {
      StepInv(s, steps[0]);
      BypassStep(s, steps[0], pid);
      BoundedBypass(Apply(s, steps[0]), steps[1..], pid);
    }
  }

  /** An attempt finds nothing exactly when nothing is runnable, and then it changes nothing at all:
      not the order of the queue, not a counter. */
  lemma IdleAttempt(s: State, c: nat)
    requires Inv(s) && c < |s.cores| && s.cores[c].mode.Seeking?
    ensures Attempted(s, c).cores[c].mode.Seeking? <==> forall p: nat :: Lookup(s.queue, p).Present? ==> !Runnable(Lookup(s.queue, p).task, s.now)
    ensures Attempted(s, c).cores[c].mode.Seeking? ==> Attempted(s, c) == s
  {
    AttemptStep(s, c);
    if Chosen(s).Absent? {
      forall p: nat
        ensures Lookup(s.queue, p).Present? ==> !Runnable(Lookup(s.queue, p).task, s.now)
      {
        ScheduleLookup(s.queue, s.now, p);
      }
      forall i | 0 <= i < |s.queue|
        ensures PassedOver(s.queue[i]) == s.queue[i]
      {
        InQueue(s, i);
      }
      assert PassOver(s.queue) == s.queue;
    } else {
      assert Lookup(s.queue, Chosen(s).task.pid) == Chosen(s);
    }
  }

  lemma InQueue(s: State, i: nat)
    requires Labelled(s) && i < |s.queue|
    ensures Lookup(s.queue, s.queue[i].pid) == Present(s.queue[i])
  {
    AtIndex(s.queue, i, s.queue[i].pid);
  }
}
