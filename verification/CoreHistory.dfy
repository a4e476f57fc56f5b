/** What a task gets back when it is dispatched, told from the history of the run. */
module CoreHistory {
  import opened Process
  import opened Scheduling
  import opened Cores
  import opened CoreInvariants
  import opened CoreRuns
  import opened CoreEntries

  /** The registers a task was last seen with, those of the core it was taken off or those it was created with,
      and when that was. */
  datatype LastSeen = LastSeen(ctx: Context, at: nat)

  type Saved = map<nat, LastSeen>

  ghost function Remember(s: State, m: Saved, step: Step): Saved {
    if !Enabled(s, step) then m else
    match step
    case Add(context, _) => m[NextId(s.lastId) := LastSeen(context.(tpidr := NextId(s.lastId)), s.now)]
    case Tick(c) => if s.cores[c].mode.Holding? then m[s.cores[c].ctx.tpidr := LastSeen(s.cores[c].ctx, s.now)] else m
    case Syscall(c) => m[s.cores[c].ctx.tpidr := LastSeen(s.cores[c].ctx, s.now)]
    case _ => m
  }

  ghost function SavedAfter(s: State, m: Saved, steps: seq<Step>): Saved
    decreases |steps|
  {
    if steps == [] then m else SavedAfter(Apply(s, steps[0]), Remember(s, m, steps[0]), steps[1..])
  }

  ghost predicate FaithfulTask(t: Task, m: Saved, now: nat) {
    && (t.state.Ready? || t.state.Waiting? ==> t.pid in m && t.context == m[t.pid].ctx)
    && (t.state.Waiting? ==> t.state.begin == m[t.pid].at <= now && t.state.target == m[t.pid].at + 1000 * m[t.pid].ctx.gpr[0])
  }

  ghost predicate Faithful(s: State, m: Saved) {
    forall p: nat :: Lookup(s.queue, p).Present? ==> FaithfulTask(Lookup(s.queue, p).task, m, s.now)
  }

  lemma FaithfulRetires(s: State, m: Saved, c: nat, t: Task, update: TaskState, s': State)
    requires c < |s.cores| && Faithful(s, m) && Retires(s, c, t, PutBack(t, update, s.cores[c].ctx), s') && s'.now == s.now
    requires update.Ready? || update.Zombie? || update == SleepUntil(s, c)
    ensures Faithful(s', m[t.pid := LastSeen(s.cores[c].ctx, s.now)])
  {}

  lemma FaithfulServes(s: State, m: Saved, c: nat, u: Task, s': State)
    requires Faithful(s, m) && Serves(s, c, u, s') && s'.now == s.now
    ensures Faithful(s', m)
  {
    forall p: nat | Lookup(s'.queue, p).Present?
      ensures FaithfulTask(Lookup(s'.queue, p).task, m, s'.now)
    {
      assert p != u.pid ==> Kept(Lookup(s.queue, p), Lookup(s'.queue, p));
    }
  }

  lemma FaithfulSwitch(s: State, m: Saved, c: nat, update: TaskState)
    requires Inv(s) && Faithful(s, m) && c < |s.cores| && s.cores[c].mode.Holding?
    requires update.Ready? || update == SleepUntil(s, c)
    ensures Faithful(Switch(s, c, update), m[s.cores[c].ctx.tpidr := LastSeen(s.cores[c].ctx, s.now)])
  {
    var t := SwitchStep(s, c, update);
    FaithfulRetires(s, m, c, t, update, Switch(s, c, update));
  }

  lemma FaithfulExit(s: State, m: Saved, c: nat)
    requires Inv(s) && Faithful(s, m) && c < |s.cores| && s.cores[c].mode.Holding?
    ensures Faithful(Exit(s, c), m[s.cores[c].ctx.tpidr := LastSeen(s.cores[c].ctx, s.now)])
  {
    var t := ExitStep(s, c);
    FaithfulRetires(s, m, c, t, Zombie, Exit(s, c));
  }

  lemma FaithfulAttempt(s: State, m: Saved, c: nat)
    requires Inv(s) && Faithful(s, m) && c < |s.cores| && s.cores[c].mode.Seeking?
    ensures Faithful(Attempted(s, c), m)
  {
    AttemptStep(s, c);
    if Chosen(s).Present? {
      FaithfulServes(s, m, c, Chosen(s).task, Attempted(s, c));
    }
  }

  lemma FaithfulAdd(s: State, m: Saved, t: Task, s': State)
    requires Faithful(s, m) && Adds(s, t, s') && s'.now == s.now
    ensures Faithful(s', m[t.pid := LastSeen(t.context, s.now)])
  {}

  lemma FaithfulStep(s: State, m: Saved, step: Step)
    requires Inv(s) && Faithful(s, m) && !Clashes(s, step)
    ensures Faithful(Apply(s, step), Remember(s, m, step))
  {
    if Enabled(s, step) {
      match step
      case Add(context, stack) =>
        AddStep(s, context, stack);
        FaithfulAdd(s, m, Initial(s, context, stack), Apply(s, step));
      case Tick(c) => if s.cores[c].mode.Holding? { FaithfulSwitch(s, m, c, Ready); } else { EnterStep(s, c); }
      case Syscall(c) =>
        if s.cores[c].ctx.gpr[8] == 1 { FaithfulSwitch(s, m, c, SleepUntil(s, c)); } else { FaithfulExit(s, m, c); }
      case Attempt(c) => FaithfulAttempt(s, m, c);
      case User(_, _) =>
      case Clock(_) =>
    }
  }

  lemma {:induction false} FaithfulRun(s: State, m: Saved, steps: seq<Step>)
    requires Inv(s) && Faithful(s, m) && Unclashed(s, steps)
    ensures Inv(Exec(s, steps)) && Faithful(Exec(s, steps), SavedAfter(s, m, steps))
    decreases |steps|
  {
    if steps != [] {
      FaithfulStep(s, m, steps[0]);
      StepInv(s, steps[0]);
      FaithfulRun(Apply(s, steps[0]), Remember(s, m, steps[0]), steps[1..]);
    }
  }

  /** The same registers but for x0 and x7. */
  predicate SameButX0X7(a: Context, b: Context) {
    && (forall i :: 0 <= i < 30 && i != 0 && i != 7 ==> a.gpr[i] == b.gpr[i])
    && a.lr == b.lr && a.elr == b.elr && a.sp == b.sp && a.tpidr == b.tpidr && a.spsr == b.spsr
  }

  lemma PolledRegisters(t: Task, now: nat)
    requires t.state.Waiting? && now > t.state.target && now >= t.state.begin
    ensures var c := Polled(t, now).context;
            SameButX0X7(c, t.context) && c.gpr[7] == 0 && 1000 * c.gpr[0] <= now - t.state.begin < 1000 * (c.gpr[0] + 1)
  {}

  /** Context fidelity: a dispatched task resumes with exactly the registers it was last seen with.
      Only a sleeper sees registers changed: it is never dispatched before the time it asked for has passed since
      its call, x7 is 0, and x0 holds the whole milliseconds since the call, at least as many as it asked for. */
  lemma DispatchRestores(entries: seq<Context>, steps: seq<Step>, c: nat)
    requires forall d :: 0 <= d < |entries| ==> entries[d].tpidr != 0
    requires Unclashed(Init(entries), steps)
    requires var s := Exec(Init(entries), steps); c < |s.cores| && s.cores[c].mode.Seeking? && Chosen(s).Present?
    ensures var s := Exec(Init(entries), steps);
            var u := Chosen(s).task;
            var m := SavedAfter(Init(entries), map[], steps);
            var got := Attempted(s, c).cores[c].ctx;
            && u.pid in m && got.tpidr == u.pid
            && (u.state.Ready? ==> got == m[u.pid].ctx)
            && (u.state.Waiting? ==>
                  var was, slept := m[u.pid].ctx, s.now - m[u.pid].at;
                  && slept > 1000 * was.gpr[0]
                  && SameButX0X7(got, was) && got.gpr[7] == 0
                  && 1000 * got.gpr[0] <= slept < 1000 * (got.gpr[0] + 1) && got.gpr[0] >= was.gpr[0])
            && (u.state.Ready? || u.state.Waiting?)
  {
    InitInv(entries);
    FaithfulRun(Init(entries), map[], steps);
    var s := Exec(Init(entries), steps);
    AttemptStep(s, c);
    var u := Chosen(s).task;
    assert Lookup(s.queue, u.pid) == Present(u);
    if u.state.Waiting? {
      PolledRegisters(u, s.now);
    }
  }

  /** A seeking core stays without a task exactly if no task is ready and no sleeper has slept for longer than it
      asked. */
  lemma IdleExactly(entries: seq<Context>, steps: seq<Step>, c: nat)
    requires forall d :: 0 <= d < |entries| ==> entries[d].tpidr != 0
    requires Unclashed(Init(entries), steps)
    requires var s := Exec(Init(entries), steps); c < |s.cores| && s.cores[c].mode.Seeking?
    ensures var s := Exec(Init(entries), steps);
            var m := SavedAfter(Init(entries), map[], steps);
            Attempted(s, c).cores[c].mode.Seeking? <==>
              forall p: nat :: Lookup(s.queue, p).Present? ==>
                var t := Lookup(s.queue, p).task;
                !t.state.Ready? && (t.state.Waiting? ==> p in m && s.now - m[p].at <= 1000 * m[p].ctx.gpr[0])
  {
    InitInv(entries);
    FaithfulRun(Init(entries), map[], steps);
    var s := Exec(Init(entries), steps);
    var m := SavedAfter(Init(entries), map[], steps);
    IdleAttempt(s, c);
    forall p: nat | Lookup(s.queue, p).Present?
      ensures var t := Lookup(s.queue, p).task;
              !Runnable(t, s.now) <==> !t.state.Ready? && (t.state.Waiting? ==> p in m && s.now - m[p].at <= 1000 * m[p].ctx.gpr[0])
    {
      assert FaithfulTask(Lookup(s.queue, p).task, m, s.now);
    }
  }

  /** A task that has exited stays a zombie. */
  lemma {:induction false} ZombieStays(s: State, steps: seq<Step>, p: nat)
    requires Inv(s) && Unclashed(s, steps) && IsZombie(s, p)
    ensures IsZombie(Exec(s, steps), p)
    decreases |steps|
  {
    if steps != [] {
      StepInv(s, steps[0]);
      ZombieStep(s, steps[0], p);
      ZombieStays(Apply(s, steps[0]), steps[1..], p);
    }
  }

  lemma ZombieStep(s: State, step: Step, p: nat)
    requires Inv(s) && !Clashes(s, step) && IsZombie(s, p)
    ensures IsZombie(Apply(s, step), p)
  {
    if Enabled(s, step) {
      match step
      case Add(context, stack) => AddStep(s, context, stack);
      case Tick(c) => if s.cores[c].mode.Holding? { var _ := SwitchStep(s, c, Ready); } else { EnterStep(s, c); }
      case Syscall(c) =>
        if s.cores[c].ctx.gpr[8] == 1 { var _ := SwitchStep(s, c, SleepUntil(s, c)); } else { var _ := ExitStep(s, c); }
      case Attempt(c) => AttemptStep(s, c);
      case User(_, _) =>
      case Clock(_) =>
    }
  }

  // ----- A running task that no core executes ------------------------------------------------

  ghost predicate Orphan(s: State, p: nat) {
    IsRunning(s, p) && forall c :: 0 <= c < |s.cores| ==> s.cores[c].ctx.tpidr != p
  }

  /** Every queue operation keeps an orphan, since none finds its pid. */
  lemma OrphanSwitch(s: State, update: TaskState, ec: Context, s': State, p: nat)
    requires Labelled(s) && Orphan(s, p) && ec.tpidr != p && s'.lastId == s.lastId
    requires s'.queue == Descheduled(s.queue, update, ec).0
    requires |s'.cores| == |s.cores| && forall c :: 0 <= c < |s.cores| ==> s'.cores[c].ctx == s.cores[c].ctx
    ensures Labelled(s') && Orphan(s', p)
  {
    forall r: nat { DescheduleLookup(s.queue, update, ec, r); }
  }

  lemma OrphanExit(s: State, c: nat, p: nat)
    requires Labelled(s) && Orphan(s, p) && c < |s.cores|
    ensures Labelled(Exit(s, c)) && Orphan(Exit(s, c), p)
  {
    var pid := s.cores[c].ctx.tpidr;
    var s1 := s.(queue := ExitMarked(s.queue, pid));
    forall r: nat { ExitMarkLookup(s.queue, pid, r); }
    OrphanSwitch(s1, Zombie, s.cores[c].ctx, Exit(s, c), p);
  }

  lemma OrphanAttempt(s: State, c: nat, p: nat)
    requires Labelled(s) && Orphan(s, p) && c < |s.cores|
    ensures Labelled(Attempted(s, c)) && Orphan(Attempted(s, c), p)
  {
    var s' := Attempted(s, c);
    forall r: nat
      ensures Count(s'.queue, r) == Count(s.queue, r)
      ensures Lookup(s'.queue, r).Present? ==> Lookup(s'.queue, r).task.context.tpidr == r
    {
      ScheduleLookup(s.queue, s.now, r);
    }
    ScheduleLookup(s.queue, s.now, p);
    if Scheduled(s.queue, s.now).1.Dispatched? {
      ScheduleLookup(s.queue, s.now, Scheduled(s.queue, s.now).1.task.pid);
    }
  }

  lemma OrphanAdd(s: State, context: Context, stack: nat, p: nat)
    requires Labelled(s) && Orphan(s, p) && stack !in s.live
    ensures Labelled(Apply(s, Add(context, stack))) && Orphan(Apply(s, Add(context, stack)), p)
  {
    var t := Initial(s, context, stack);
    forall r: nat
      ensures Count(s.queue + [t], r) == Count(s.queue, r) + if r == t.pid then 1 else 0
      ensures Lookup(s.queue + [t], r) == OrElse(Lookup(s.queue, r), if r == t.pid then Present(t) else Absent)
    {
      Concat(s.queue, [t], r);
      Single(t, r);
    }
  }

  lemma OrphanStep(s: State, step: Step, p: nat)
    requires Labelled(s) && Orphan(s, p)
    ensures Labelled(Apply(s, step)) && Orphan(Apply(s, step), p)
  {
    if Enabled(s, step) {
      match step
      case Add(context, stack) => OrphanAdd(s, context, stack, p);
      case Tick(c) => OrphanSwitch(s, Ready, s.cores[c].ctx, Apply(s, step), p);
      case Syscall(c) =>
        if s.cores[c].ctx.gpr[8] == 1 { OrphanSwitch(s, SleepUntil(s, c), s.cores[c].ctx, Apply(s, step), p); } else { OrphanExit(s, c, p); }
      case Attempt(c) => OrphanAttempt(s, c, p);
      case User(_, _) =>
      case Clock(_) =>
    }
  }

  /** A task in that state is lost: no continuation ever runs it, wakes it or lets it exit. */
  lemma {:induction false} OrphanStays(s: State, steps: seq<Step>, p: nat)
    requires Labelled(s) && Orphan(s, p)
    ensures Orphan(Exec(s, steps), p)
    decreases |steps|
  {
    if steps != [] {
      OrphanStep(s, steps[0], p);
      OrphanStays(Apply(s, steps[0]), steps[1..], p);
    }
  }

  /** The task that a core entering with `tpidr` 0 was given first is lost for good. */
  lemma LostForever(entries: seq<Context>, c: nat, steps: seq<Step>)
    requires forall d :: 0 <= d < |entries| ==> entries[d].tpidr < 2
    requires c < |entries| && entries[c].tpidr == 0
    ensures var s := Exec(Init(entries), LosingRun(c, entries[c]) + steps);
            IsRunning(s, 2) && !IsHeld(s, 2)
  {
    ZeroEntryLoses(entries, c);
    var s := Exec(Init(entries), LosingRun(c, entries[c]));
    ExecAppend(Init(entries), LosingRun(c, entries[c]), steps);
    OrphanStays(s, steps, 2);
  }
}
