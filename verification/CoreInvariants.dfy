/** What every step of every core keeps, and what follows for whole runs. */
module CoreInvariants {
  import opened Process
  import opened Scheduling
  import opened Cores

  function LastPid(s: State): nat {
    if s.lastId.NoneYet? then 1 else s.lastId.id
  }

  /** Exactly the pids allocated so far, 2 to the last one, are queued, each of them once, and every
      saved context carries the pid of its task. */
  ghost predicate Labelled(s: State) {
    && (s.lastId.Last? ==> s.lastId.id >= 2)
    && (forall p: nat :: Count(s.queue, p) == if 2 <= p <= LastPid(s) then 1 else 0)
    && (forall p: nat :: Lookup(s.queue, p).Present? ==> Lookup(s.queue, p).task.context.tpidr == p)
  }

  ghost predicate IsRunning(s: State, p: nat) {
    Lookup(s.queue, p).Present? && Lookup(s.queue, p).task.state.Running?
  }

  ghost predicate IsZombie(s: State, p: nat) {
    Lookup(s.queue, p).Present? && Lookup(s.queue, p).task.state.Zombie?
  }

  ghost predicate Holds(s: State, c: nat, p: nat) {
    c < |s.cores| && s.cores[c].mode.Holding? && s.cores[c].ctx.tpidr == p
  }

  ghost predicate IsHeld(s: State, p: nat) {
    exists c: nat :: Holds(s, c, p)
  }

  /** No task is held by two cores, and the running tasks are exactly the held ones. */
  ghost predicate Exclusive(s: State) {
    && (forall c: nat, d: nat, p: nat :: Holds(s, c, p) && Holds(s, d, p) ==> c == d)
    && (forall p: nat :: IsRunning(s, p) <==> IsHeld(s, p))
  }

  /** A core that holds nothing has a nonzero `tpidr`, and an entering one has nobody's. */
  ghost predicate Entered(s: State) {
    forall c :: 0 <= c < |s.cores| && !s.cores[c].mode.Holding? ==>
      && s.cores[c].ctx.tpidr != 0
      && (s.cores[c].mode.Entering? ==> Lookup(s.queue, s.cores[c].ctx.tpidr).Absent?)
  }

  /** Resting counters stay in 0..1: the `i8` arithmetic never overflows. */
  ghost predicate Rested(s: State) {
    forall p: nat :: Lookup(s.queue, p).Present? ==> AtRest(Lookup(s.queue, p).task)
  }

  predicate AtRest(t: Task) {
    && 0 <= t.counter <= 1
    && t.priority == (if t.state.Zombie? then 0 else 1)
    && (t.state.Waiting? ==> t.counter == 1)
  }

  ghost predicate OwnsStack(s: State, p: nat) {
    Lookup(s.queue, p).Present? && !Lookup(s.queue, p).task.state.Zombie?
  }

  /** The stack a task owns; a task that owns none gets a number no stack has. */
  ghost function StackOf(s: State, p: nat): int {
    if OwnsStack(s, p) then Lookup(s.queue, p).task.stack else -1 - p
  }

  /** A stack is freed exactly when its task exits, and once; every other task owns a live stack
      that it shares with nobody. */
  ghost predicate StacksOwned(s: State) {
    && !s.doubleFree
    && (forall p: nat :: multiset(s.freed)[p] == if IsZombie(s, p) then 1 else 0)
    && (forall p: nat :: OwnsStack(s, p) ==> StackOf(s, p) in s.live)
    && (forall p: nat, r: nat :: StackOf(s, p) == StackOf(s, r) ==> p == r)
  }

  ghost predicate Inv(s: State) {
    Labelled(s) && Exclusive(s) && Entered(s) && Rested(s) && StacksOwned(s)
  }

  lemma InitInv(entries: seq<Context>)
    requires forall c :: 0 <= c < |entries| ==> entries[c].tpidr != 0
    ensures Inv(Init(entries))
  {}

  lemma SameHeld(s: State, s': State)
    requires forall c: nat, p: nat :: Holds(s', c, p) <==> Holds(s, c, p)
    ensures forall p: nat :: IsHeld(s', p) <==> IsHeld(s, p)
  {
    forall p: nat
      ensures IsHeld(s', p) <==> IsHeld(s, p)
    {
      if IsHeld(s, p) {
        var c: nat :| Holds(s, c, p);
        assert Holds(s', c, p);
      }
    }
  }

  /** No task changes hands. */
  lemma SameStacks(s: State, s': State)
    requires StacksOwned(s) && s'.live == s.live && s'.freed == s.freed && s'.doubleFree == s.doubleFree
    requires forall p: nat :: (IsZombie(s', p) <==> IsZombie(s, p)) && (OwnsStack(s', p) <==> OwnsStack(s, p)) && StackOf(s', p) == StackOf(s, p)
    ensures StacksOwned(s')
  {}

  /** Core `c` gives up the task `t`, which is put back as `t'`. */
  ghost predicate Retires(s: State, c: nat, t: Task, t': Task, s': State) {
    && Holds(s, c, t.pid) && Lookup(s.queue, t.pid) == Present(t)
    && t'.pid == t.pid && t'.context == s.cores[c].ctx && t'.stack == t.stack && AtRest(t')
    && !t'.state.Running?
    && s'.cores == s.cores[c := s.cores[c].(mode := Seeking)] && s'.lastId == s.lastId
    && (forall p: nat :: Count(s'.queue, p) == Count(s.queue, p))
    && (forall p: nat :: Lookup(s'.queue, p) == if p == t.pid then Present(t') else Lookup(s.queue, p))
    && (if t'.state.Zombie? then s'.live == s.live - {t.stack} && s'.freed == s.freed + [t.pid] && s'.doubleFree == (s.doubleFree || t.stack !in s.live)
        else s'.live == s.live && s'.freed == s.freed && s'.doubleFree == s.doubleFree)
  }

  lemma RetiresExclusive(s: State, c: nat, t: Task, t': Task, s': State)
    requires Labelled(s) && Exclusive(s) && Entered(s) && Rested(s) && Retires(s, c, t, t', s')
    ensures Labelled(s') && Exclusive(s') && Entered(s') && Rested(s')
  {
    forall p: nat, d: nat
      ensures Holds(s', d, p) <==> Holds(s, d, p) && d != c
    {}
    forall p: nat
      ensures IsRunning(s', p) <==> IsHeld(s', p)
    {
      if p != t.pid && IsHeld(s, p) {
        var d: nat :| Holds(s, d, p);
        assert Holds(s', d, p);
      }
    }
  }

  lemma RetiresStacks(s: State, c: nat, t: Task, t': Task, s': State)
    requires StacksOwned(s) && IsRunning(s, t.pid) && Retires(s, c, t, t', s')
    ensures StacksOwned(s')
  {
    assert OwnsStack(s, t.pid) && StackOf(s, t.pid) == t.stack;
    if t'.state.Zombie? {
      forall p: nat
        ensures IsZombie(s', p) <==> p == t.pid || IsZombie(s, p)
        ensures OwnsStack(s', p) <==> p != t.pid && OwnsStack(s, p)
        ensures p != t.pid ==> StackOf(s', p) == StackOf(s, p)
      {}
      assert multiset(s'.freed) == multiset(s.freed) + multiset{t.pid};
    } else {
      SameStacks(s, s');
    }
  }

  lemma RetiresInv(s: State, c: nat, t: Task, t': Task, s': State)
    requires Inv(s) && Retires(s, c, t, t', s')
    ensures Inv(s')
  {
    assert IsHeld(s, t.pid);
    RetiresExclusive(s, c, t, t', s');
    RetiresStacks(s, c, t, t', s');
  }

  lemma HeldTask(s: State, c: nat) returns (t: Task)
    requires Labelled(s) && Exclusive(s) && Rested(s) && c < |s.cores| && s.cores[c].mode.Holding?
    ensures Holds(s, c, t.pid) && Lookup(s.queue, t.pid) == Present(t) && t.pid == s.cores[c].ctx.tpidr
    ensures t.state.Running? && AtRest(t)
    ensures Count(s.queue, t.pid) == 1 && IndexOf(s.queue, t.pid) < |s.queue| && s.queue[IndexOf(s.queue, t.pid)] == t
  {
    var p := s.cores[c].ctx.tpidr;
    assert Holds(s, c, p) && IsHeld(s, p) && IsRunning(s, p);
    t := Lookup(s.queue, p).task;
  }

  /** The task that `switch` and `exit_task` put back. */
  ghost function PutBack(t: Task, update: TaskState, ctx: Context): Task {
    t.(counter := 1, state := update, context := ctx, priority := if update.Zombie? then 0 else t.priority)
  }

  /** A timer tick or a sleep takes the held task off the core, whatever its counter says: with
      resting counters the early return in `deschedule` is never taken. */
  lemma SwitchStep(s: State, c: nat, update: TaskState) returns (t: Task)
    requires Inv(s) && c < |s.cores| && s.cores[c].mode.Holding? && !update.Running? && !update.Zombie?
    ensures Inv(Switch(s, c, update))
    ensures Retires(s, c, t, PutBack(t, update, s.cores[c].ctx), Switch(s, c, update))
  {
    t := HeldTask(s, c);
    var s' := Switch(s, c, update);
    forall p: nat
      ensures Count(s'.queue, p) == Count(s.queue, p)
      ensures Lookup(s'.queue, p) == if p == t.pid then Present(PutBack(t, update, s.cores[c].ctx)) else Lookup(s.queue, p)
    {
      DescheduleLookup(s.queue, update, s.cores[c].ctx, p);
    }
    RetiresInv(s, c, t, PutBack(t, update, s.cores[c].ctx), s');
  }

  lemma EnterStep(s: State, c: nat)
    requires Inv(s) && c < |s.cores| && s.cores[c].mode.Entering?
    ensures Inv(Switch(s, c, Ready))
    ensures Switch(s, c, Ready) == s.(cores := s.cores[c := s.cores[c].(mode := Seeking)])
  {
    var s' := Switch(s, c, Ready);
    SameHeld(s, s');
    assert forall p: nat :: IsRunning(s', p) <==> IsRunning(s, p);
    SameStacks(s, s');
  }

  lemma ExitStep(s: State, c: nat) returns (t: Task)
    requires Inv(s) && c < |s.cores| && s.cores[c].mode.Holding?
    ensures Inv(Exit(s, c))
    ensures Retires(s, c, t, PutBack(t, Zombie, s.cores[c].ctx), Exit(s, c))
  {
    t := HeldTask(s, c);
    var s' := Exit(s, c);
    var q := ExitMarked(s.queue, t.pid);
    forall p: nat
      ensures Count(s'.queue, p) == Count(s.queue, p)
      ensures Lookup(s'.queue, p) == if p == t.pid then Present(PutBack(t, Zombie, s.cores[c].ctx)) else Lookup(s.queue, p)
    {
      ExitMarkLookup(s.queue, t.pid, p);
      DescheduleLookup(q, Zombie, s.cores[c].ctx, p);
    }
    RetiresInv(s, c, t, PutBack(t, Zombie, s.cores[c].ctx), s');
  }

  /** What a queue operation may do to a task that it does not dispatch. */
  ghost predicate Kept(e: Entry, e': Entry) {
    e' == e || (e.Present? && e' == Present(PassedOver(e.task)))
  }

  /** Core `c` is given the task `u`, which was runnable. */
  ghost predicate Serves(s: State, c: nat, u: Task, s': State) {
    && c < |s.cores| && s.cores[c].mode.Seeking?
    && Lookup(s.queue, u.pid) == Present(u) && Runnable(u, s.now)
    && s'.cores == s.cores[c := Core(Holding, Polled(u, s.now).context)]
    && s'.lastId == s.lastId && s'.live == s.live && s'.freed == s.freed && s'.doubleFree == s.doubleFree
    && (forall p: nat :: Count(s'.queue, p) == Count(s.queue, p))
    && (forall p: nat :: if p == u.pid then Lookup(s'.queue, p) == Present(Polled(u, s.now).(state := Running))
                         else Kept(Lookup(s.queue, p), Lookup(s'.queue, p)))
  }

  lemma ServesQueue(s: State, c: nat, u: Task, s': State)
    requires Labelled(s) && Entered(s) && Rested(s) && Serves(s, c, u, s')
    ensures Labelled(s') && Entered(s') && Rested(s')
  {}

  lemma ServesExclusive(s: State, c: nat, u: Task, s': State)
    requires Exclusive(s) && Serves(s, c, u, s') && Polled(u, s.now).context.tpidr == u.pid
    ensures Exclusive(s')
  {
    assert !IsRunning(s, u.pid) && !IsHeld(s, u.pid);
    forall p: nat, e: nat
      ensures Holds(s', e, p) <==> (e == c && p == u.pid) || Holds(s, e, p)
    {}
    assert Holds(s', c, u.pid);
    forall p: nat
      ensures IsRunning(s', p) <==> IsHeld(s', p)
    {
      if IsHeld(s, p) {
        var e: nat :| Holds(s, e, p);
        assert Holds(s', e, p);
      }
    }
  }

  lemma ServesInv(s: State, c: nat, u: Task, s': State)
    requires Inv(s) && Serves(s, c, u, s')
    ensures Inv(s')
  {
    assert Lookup(s.queue, u.pid).Present?;
    ServesQueue(s, c, u, s');
    ServesExclusive(s, c, u, s');
    SameStacks(s, s');
  }

  lemma PassesInv(s: State, s': State)
    requires Inv(s) && s' == s.(queue := s'.queue)
    requires forall p: nat :: Count(s'.queue, p) == Count(s.queue, p) && Kept(Lookup(s.queue, p), Lookup(s'.queue, p))
    ensures Inv(s')
  {
    SameHeld(s, s');
    assert forall p: nat :: IsRunning(s', p) <==> IsRunning(s, p);
    SameStacks(s, s');
  }

  /** The runnable task an attempt dispatches, if any. */
  ghost function Chosen(s: State): Entry {
    var k := FirstRunnable(s.queue, s.now);
    if k < |s.queue| then Present(s.queue[k]) else Absent
  }

  lemma AttemptStep(s: State, c: nat)
    requires Inv(s) && c < |s.cores| && s.cores[c].mode.Seeking?
    ensures Inv(Attempted(s, c))
    ensures Chosen(s).Present? ==> Serves(s, c, Chosen(s).task, Attempted(s, c))
    ensures Chosen(s).Absent? ==>
              && Attempted(s, c) == s.(queue := PassOver(s.queue))
              && forall p: nat :: Kept(Lookup(s.queue, p), Lookup(Attempted(s, c).queue, p))
  {
    var s' := Attempted(s, c);
    forall p: nat
      ensures Count(s'.queue, p) == Count(s.queue, p)
      ensures if Chosen(s).Present? && p == Chosen(s).task.pid
              then Lookup(s.queue, p) == Chosen(s) && Lookup(s'.queue, p) == Present(Polled(Chosen(s).task, s.now).(state := Running))
              else Kept(Lookup(s.queue, p), Lookup(s'.queue, p))
    {
      ScheduleLookup(s.queue, s.now, p);
      if Chosen(s).Present? {
        AtIndex(s.queue, FirstRunnable(s.queue, s.now), p);
      }
    }
    if Chosen(s).Present? {
      ServesInv(s, c, Chosen(s).task, s');
    } else {
      assert s'.cores == s.cores;
      PassesInv(s, s');
    }
  }

  /** Does the step give a new task the `tpidr` some core came up with? */
  ghost predicate Clashes(s: State, step: Step) {
    step.Add? && exists c :: 0 <= c < |s.cores| && s.cores[c].mode.Entering? && s.cores[c].ctx.tpidr == NextId(s.lastId)
  }

  ghost predicate Adds(s: State, t: Task, s': State) {
    && t.pid == NextId(s.lastId) && t.context.tpidr == t.pid && t.state.Ready? && t.counter == 0 && t.priority == 1
    && t.stack !in s.live && s'.live == s.live + {t.stack} && s'.lastId == Last(t.pid)
    && s'.cores == s.cores && s'.freed == s.freed && s'.doubleFree == s.doubleFree
    && (forall p: nat :: Count(s'.queue, p) == Count(s.queue, p) + if p == t.pid then 1 else 0)
    && (forall p: nat :: Lookup(s'.queue, p) == if p == t.pid then Present(t) else Lookup(s.queue, p))
  }

  lemma AddsExclusive(s: State, t: Task, s': State)
    requires Labelled(s) && Exclusive(s) && Entered(s) && Rested(s) && Adds(s, t, s')
    requires forall c :: 0 <= c < |s.cores| && s.cores[c].mode.Entering? ==> s.cores[c].ctx.tpidr != t.pid
    ensures Labelled(s') && Exclusive(s') && Entered(s') && Rested(s')
  {
    assert Lookup(s.queue, t.pid).Absent? && !IsRunning(s, t.pid);
    SameHeld(s, s');
    assert forall p: nat :: IsRunning(s', p) <==> IsRunning(s, p);
  }

  lemma AddsStacks(s: State, t: Task, s': State)
    requires Labelled(s) && StacksOwned(s) && Adds(s, t, s')
    ensures StacksOwned(s')
  {
    assert Lookup(s.queue, t.pid).Absent?;
    forall p: nat
      ensures IsZombie(s', p) <==> IsZombie(s, p)
      ensures OwnsStack(s', p) <==> p == t.pid || OwnsStack(s, p)
      ensures StackOf(s', p) == if p == t.pid then t.stack else StackOf(s, p)
    {}
  }

  lemma AddStep(s: State, context: Context, stack: nat)
    requires Inv(s) && stack !in s.live && !Clashes(s, Add(context, stack))
    ensures Inv(Apply(s, Add(context, stack)))
    ensures Adds(s, Initial(s, context, stack), Apply(s, Add(context, stack)))
  {
    var s' := Apply(s, Add(context, stack));
    var t := Initial(s, context, stack);
    assert Count(s.queue, t.pid) == 0;
    forall p: nat
      ensures Count(s'.queue, p) == Count(s.queue, p) + if p == t.pid then 1 else 0
      ensures Lookup(s'.queue, p) == if p == t.pid then Present(t) else Lookup(s.queue, p)
    {
      Concat(s.queue, [t], p);
      Single(t, p);
    }
    AddsExclusive(s, t, s');
    AddsStacks(s, t, s');
  }

  lemma OtherStep(s: State, step: Step)
    requires Inv(s) && Enabled(s, step) && (step.User? || step.Clock?)
    ensures Inv(Apply(s, step))
  {
    var s' := Apply(s, step);
    SameHeld(s, s');
    assert forall p: nat :: IsRunning(s', p) <==> IsRunning(s, p);
    SameStacks(s, s');
  }

  lemma StepInv(s: State, step: Step)
    requires Inv(s) && !Clashes(s, step)
    ensures Inv(Apply(s, step))
  {
    if Enabled(s, step) {
      match step
      case Add(context, stack) => AddStep(s, context, stack);
      case Tick(c) => TickStep(s, c);
      case Syscall(c) => SyscallStep(s, c);
      case Attempt(c) => AttemptStep(s, c);
      case User(_, _) => OtherStep(s, step);
      case Clock(_) => OtherStep(s, step);
    }
  }

  lemma TickStep(s: State, c: nat)
    requires Inv(s) && Enabled(s, Tick(c))
    ensures Inv(Switch(s, c, Ready))
  {
    if s.cores[c].mode.Holding? { var _ := SwitchStep(s, c, Ready); } else { EnterStep(s, c); }
  }

  lemma SyscallStep(s: State, c: nat)
    requires Inv(s) && Enabled(s, Syscall(c))
    ensures Inv(Apply(s, Syscall(c)))
  {
    if s.cores[c].ctx.gpr[8] == 1 {
      var _ := SwitchStep(s, c, SleepUntil(s, c));
    } else {
      var _ := ExitStep(s, c);
    }
  }
}
