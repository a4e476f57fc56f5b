/** What goes wrong when a core enters with the wrong `tpidr`, and exactly when nothing does. */
module CoreEntries {
  import opened Process
  import opened Scheduling
  import opened Cores
  import opened CoreInvariants
  import opened CoreRuns

  // ----- A core that enters with tpidr 0 loses a task ----------------------------------------

  /** Two tasks arrive and core `c` takes its first timer tick. `schedule` returns the old `tpidr`,
      0, so the loop around it goes on and gives the core a second task. */
  function LosingRun(c: nat, context: Context): seq<Step> {
    [Add(context, 0), Add(context, 1), Tick(c), Attempt(c), Attempt(c)]
  }

  lemma ExecStep(s: State, step: Step, steps: seq<Step>)
    ensures Exec(s, [step] + steps) == Exec(Apply(s, step), steps)
  {
    assert ([step] + steps)[1..] == steps;
  }

  lemma TwoArrive(entries: seq<Context>, x: Context) returns (s: State)
    ensures s == Exec(Init(entries), [Add(x, 0), Add(x, 1)])
    ensures s == Init(entries).(queue := [Numbered(x, 2, 0), Numbered(x, 3, 1)], lastId := Last(3), live := {0, 1})
  {
    var s1 := Apply(Init(entries), Add(x, 0));
    s := Apply(s1, Add(x, 1));
    ExecStep(s1, Add(x, 1), []);
    ExecStep(Init(entries), Add(x, 0), [Add(x, 1)]);
    assert s.queue == [Numbered(x, 2, 0), Numbered(x, 3, 1)];
  }

  function Numbered(x: Context, pid: nat, stack: nat): Task {
    NewTask(x.(tpidr := pid), stack).(pid := pid)
  }

  /** A core whose `tpidr` is 0 goes on seeking after it was given the first of two tasks. */
  lemma FirstAttempt(s: State, c: nat, t: Task, u: Task)
    requires c < |s.cores| && s.cores[c].ctx.tpidr == 0 && s.queue == [t, u] && t.state.Ready?
    ensures Attempted(s, c) == s.(queue := [t.(state := Running), u], cores := s.cores[c := Core(Seeking, t.context)])
  {
    assert FirstRunnable(s.queue, s.now) == 0;
    assert Scheduled(s.queue, s.now).0 == [t.(state := Running), u];
  }

  lemma SecondAttempt(s: State, c: nat, t: Task, u: Task)
    requires c < |s.cores| && s.cores[c].ctx.tpidr != 0 && s.queue == [t, u] && t.state.Running? && u.state.Ready?
    ensures Attempted(s, c) == s.(queue := [u.(state := Running), t], cores := s.cores[c := Core(Holding, u.context)])
  {
    assert s.queue[1..] == [u];
    assert FirstRunnable(s.queue, s.now) == 1;
    assert PassOver(s.queue[..1]) == [t];
    assert Scheduled(s.queue, s.now).0 == [u.(state := Running), t];
  }

  lemma ZeroEntryLoses(entries: seq<Context>, c: nat)
    requires c < |entries| && entries[c].tpidr == 0
    ensures var s := Exec(Init(entries), LosingRun(c, entries[c]));
            && IsRunning(s, 2) && !IsHeld(s, 2) && !Exclusive(s)
            && |s.cores| == |entries|
            && Labelled(s)
            && forall d :: 0 <= d < |entries| ==> s.cores[d].ctx.tpidr == (if d == c then 3 else entries[d].tpidr)
  {
    var x := entries[c];
    var t2, t3 := Numbered(x, 2, 0), Numbered(x, 3, 1);
    var s2 := TwoArrive(entries, x);
    ExecAppend(Init(entries), [Add(x, 0), Add(x, 1)], [Tick(c), Attempt(c), Attempt(c)]);
    assert LosingRun(c, x) == [Add(x, 0), Add(x, 1)] + [Tick(c), Attempt(c), Attempt(c)];
    var s3 := Apply(s2, Tick(c));
    assert IndexOf(s2.queue, 0) == 2;
    assert s3 == s2.(cores := s2.cores[c := Core(Seeking, x)]);
    var s4 := Apply(s3, Attempt(c));
    FirstAttempt(s3, c, t2, t3);
    var s5 := Apply(s4, Attempt(c));
    SecondAttempt(s4, c, t2.(state := Running), t3);
    ExecStep(s4, Attempt(c), []);
    ExecStep(s3, Attempt(c), [Attempt(c)]);
    ExecStep(s2, Tick(c), [Attempt(c), Attempt(c)]);
    assert s5.queue == [t3.(state := Running)] + [t2.(state := Running)];
    forall p: nat
      ensures Count(s5.queue, p) == if p == 2 || p == 3 then 1 else 0
      ensures Lookup(s5.queue, p) == if p == 2 then Present(t2.(state := Running)) else if p == 3 then Present(t3.(state := Running)) else Absent
    {
      Concat([t3.(state := Running)], [t2.(state := Running)], p);
      Single(t2.(state := Running), p);
      Single(t3.(state := Running), p);
    }
    assert !IsHeld(s5, 2);
  }

  lemma {:induction false} ExecAppend(s: State, a: seq<Step>, b: seq<Step>)
    ensures Exec(s, a + b) == Exec(Exec(s, a), b)
    decreases |a|
  {
    if a == [] {
      assert a + b == b;
    } else {
      assert (a + b)[1..] == a[1..] + b;
      ExecAppend(Apply(s, a[0]), a[1..], b);
    }
  }

  // ----- A core that enters with a pid takes a task off another core ---------------------------

  /** Core `d` holds task `k`, the last one added; all others have exited. Core `c` is still to enter. */
  ghost predicate OneBusy(s: State, c: nat, d: nat, k: nat) {
    && c < |s.cores| && d < |s.cores| && c != d && s.cores[c].mode.Entering? && Holds(s, d, k)
    && k >= 2 && s.lastId == Last(k) && s.live == {0}
    && s.queue != [] && s.queue[0].pid == k && s.queue[0].state.Running? && s.queue[0].counter == 0 && s.queue[0].stack == 0
    && s.queue[0].priority == 1
    && forall i :: 1 <= i < |s.queue| ==> s.queue[i].state.Zombie?
  }

  /** When all queued tasks have exited, a new task goes straight to a seeking core. */
  lemma ServeNew(s: State, c: nat, d: nat, x: Context)
    requires c < |s.cores| && d < |s.cores| && c != d && s.cores[c].mode.Entering? && s.cores[d].mode.Seeking?
    requires s.cores[d].ctx.tpidr != 0 && s.live == {} && NextId(s.lastId) >= 2
    requires forall i :: 0 <= i < |s.queue| ==> s.queue[i].state.Zombie?
    ensures var s' := Apply(Apply(s, Add(x, 0)), Attempt(d));
            OneBusy(s', c, d, NextId(s.lastId)) && s'.cores[c] == s.cores[c]
  {
    var n := |s.queue|;
    var s1 := Apply(s, Add(x, 0));
    var t := Initial(s, x, 0);
    assert s1.queue == s.queue + [t];
    assert FirstRunnable(s1.queue, s1.now) == n by {
      assert Runnable(s1.queue[n], s1.now);
    }
    assert s1.queue[..n] == s.queue && s1.queue[n+1..] == [];
    assert Scheduled(s1.queue, s1.now).0 == [t.(state := Running)] + PassOver(s.queue);
  }

  /** The held task exits and leaves the queue to zombies. */
  lemma LastExits(s: State, c: nat, d: nat, k: nat)
    requires OneBusy(s, c, d, k)
    ensures var s' := Exit(s, d);
            && |s'.cores| == |s.cores| && s'.cores[c] == s.cores[c] && s'.cores[d].mode.Seeking? && s'.cores[d].ctx == s.cores[d].ctx
            && s'.live == {} && s'.lastId == s.lastId && forall i :: 0 <= i < |s'.queue| ==> s'.queue[i].state.Zombie?
  {
    assert IndexOf(s.queue, k) == 0;
    var q := ExitMarked(s.queue, k);
    assert q == s.queue[0 := Exited(s.queue[0])];
    assert IndexOf(q, k) == 0;
    assert q[..0] + q[1..] == s.queue[1..];
  }

  ghost function ExitAndAdd(d: nat, ctx: Context): seq<Step> {
    [User(d, ctx), Syscall(d), Add(ctx, 0), Attempt(d)]
  }

  lemma NextBusy(s: State, c: nat, d: nat, k: nat) returns (steps: seq<Step>)
    requires OneBusy(s, c, d, k)
    ensures OneBusy(Exec(s, steps), c, d, k + 1) && Exec(s, steps).cores[c] == s.cores[c]
  {
    var ctx := s.cores[d].ctx.(gpr := s.cores[d].ctx.gpr[8 := 2]);
    steps := ExitAndAdd(d, ctx);
    var s1 := Apply(s, User(d, ctx));
    assert OneBusy(s1, c, d, k);
    var s2 := Apply(s1, Syscall(d));
    assert s2 == Exit(s1, d);
    LastExits(s1, c, d, k);
    ServeNew(s2, c, d, ctx);
    var s3 := Apply(s2, Add(ctx, 0));
    ExecStep(s3, Attempt(d), []);
    ExecStep(s2, Add(ctx, 0), [Attempt(d)]);
    ExecStep(s1, Syscall(d), [Add(ctx, 0), Attempt(d)]);
    ExecStep(s, User(d, ctx), [Syscall(d), Add(ctx, 0), Attempt(d)]);
  }

  /** Another core gets to hold any pid while core `c` is still to enter. */
  lemma {:induction false} BusyWith(entries: seq<Context>, c: nat, d: nat, k: nat) returns (steps: seq<Step>)
    requires c < |entries| && d < |entries| && c != d && entries[d].tpidr != 0 && k >= 2
    ensures OneBusy(Exec(Init(entries), steps), c, d, k) && Exec(Init(entries), steps).cores[c].ctx == entries[c]
    decreases k
  {
    var s := Init(entries);
    if k == 2 {
      var x := entries[d];
      steps := [Tick(d), Add(x, 0), Attempt(d)];
      var s1 := Apply(s, Tick(d));
      ServeNew(s1, c, d, x);
      ExecStep(Apply(s1, Add(x, 0)), Attempt(d), []);
      ExecStep(s1, Add(x, 0), [Attempt(d)]);
      ExecStep(s, Tick(d), [Add(x, 0), Attempt(d)]);
    } else {
      var first := BusyWith(entries, c, d, k - 1);
      var more := NextBusy(Exec(s, first), c, d, k - 1);
      ExecAppend(s, first, more);
      steps := first + more;
    }
  }

  /** When core `c` enters with a pid that another core holds, its first tick takes the task off that core,
      which goes on executing it. */
  lemma AllocatedEntryBreaks(entries: seq<Context>, c: nat, d: nat) returns (steps: seq<Step>)
    requires c < |entries| && d < |entries| && c != d && entries[c].tpidr >= 2 && entries[d].tpidr != 0
    ensures var s := Exec(Init(entries), steps);
            IsHeld(s, entries[c].tpidr) && !IsRunning(s, entries[c].tpidr)
  {
    var p := entries[c].tpidr;
    var before := BusyWith(entries, c, d, p);
    var s := Exec(Init(entries), before);
    steps := before + [Tick(c)];
    ExecAppend(Init(entries), before, [Tick(c)]);
    ExecStep(s, Tick(c), []);
    var s' := Apply(s, Tick(c));
    assert IndexOf(s.queue, p) == 0;
    assert s'.queue == s.queue[1..] + [s.queue[0].(counter := 1, state := Ready, context := s.cores[c].ctx)];
    assert Holds(s', d, p);
    assert forall t :: t in s'.queue ==> !t.state.Running?;
  }

  // ----- A single core ---------------------------------------------------------------------------

  /** The state as if its only core had come up with 1. */
  ghost function Masked(s: State): State
    requires |s.cores| == 1
  {
    s.(cores := [Core(s.cores[0].mode, s.cores[0].ctx.(tpidr := 1))])
  }

  /** The only core is still to enter, so no task has run. */
  ghost predicate Alone(s: State) {
    && |s.cores| == 1 && s.cores[0].mode.Entering? && s.cores[0].ctx.tpidr != 0 && Inv(Masked(s))
    && forall p: nat :: Lookup(s.queue, p).Present? ==> Fresh(Lookup(s.queue, p).task)
  }

  predicate Fresh(t: Task) {
    t.state.Ready? && t.counter == 0
  }

  lemma NothingHeld(s: State)
    requires |s.cores| == 1 && !s.cores[0].mode.Holding?
    ensures forall p: nat :: !IsHeld(s, p)
  {}

  /** The first tick finds at most a fresh task, and leaves it ready. */
  lemma AloneSwitch(s: State, p: nat)
    requires |s.cores| == 1 && s.cores[0].ctx.tpidr != 0 && Labelled(s) && Rested(s)
    requires Lookup(s.queue, s.cores[0].ctx.tpidr).Present? ==> Fresh(Lookup(s.queue, s.cores[0].ctx.tpidr).task)
    ensures var s' := Switch(s, 0, Ready);
            && s'.cores == [s.cores[0].(mode := Seeking)]
            && Count(s'.queue, p) == Count(s.queue, p)
            && Lookup(s'.queue, p) == (if p == s.cores[0].ctx.tpidr && Lookup(s.queue, p).Present? then
                                         Present(Lookup(s.queue, p).task.(counter := 1, context := s.cores[0].ctx))
                                       else Lookup(s.queue, p))
  {
    var r := s.cores[0].ctx.tpidr;
    DescheduleLookup(s.queue, Ready, s.cores[0].ctx, p);
    DescheduleLookup(s.queue, Ready, s.cores[0].ctx, r);
    assert Lookup(s.queue, r).Present? ==> WrapI8(Lookup(s.queue, r).task.counter - 1) == -1;
  }

  lemma AloneEnters(s: State)
    requires Alone(s)
    ensures Inv(Switch(s, 0, Ready)) && Switch(s, 0, Ready).cores[0].mode.Seeking?
  {
    var s' := Switch(s, 0, Ready);
    forall p: nat { AloneSwitch(s, p); }
    NothingHeld(Masked(s));
    NothingHeld(s');
    AloneQueue(Masked(s), s', s.cores[0].ctx);
    SameStacks(Masked(s), s');
  }

  lemma AloneQueue(s: State, s': State, ctx: Context)
    requires Labelled(s) && Rested(s) && s'.lastId == s.lastId
    requires forall p: nat :: Count(s'.queue, p) == Count(s.queue, p)
    requires forall p: nat :: Lookup(s'.queue, p) == (if p == ctx.tpidr && Lookup(s.queue, p).Present? then
                                                        Present(Lookup(s.queue, p).task.(counter := 1, context := ctx))
                                                      else Lookup(s.queue, p))
    ensures Labelled(s') && Rested(s')
    ensures forall p: nat :: (IsZombie(s', p) <==> IsZombie(s, p)) && (OwnsStack(s', p) <==> OwnsStack(s, p)) && StackOf(s', p) == StackOf(s, p)
    ensures forall p: nat :: IsRunning(s', p) <==> IsRunning(s, p)
  {}

  lemma AloneAdds(s: State, context: Context, stack: nat)
    requires Alone(s) && stack !in s.live
    ensures Alone(Apply(s, Add(context, stack)))
  {
    AddStep(Masked(s), context, stack);
    assert Masked(Apply(s, Add(context, stack))) == Apply(Masked(s), Add(context, stack));
    assert Adds(Masked(s), Initial(Masked(s), context, stack), Apply(Masked(s), Add(context, stack)));
  }

  lemma {:induction false} AloneRun(s: State, steps: seq<Step>)
    requires Alone(s)
    ensures Exclusive(Exec(s, steps))
    decreases |steps|
  {
    NothingHeld(s);
    NothingHeld(Masked(s));
    if steps != [] {
      var s' := Apply(s, steps[0]);
      match steps[0]
      case Tick(c) =>
        if c == 0 {
          AloneEnters(s);
          NeverClashes(s', steps[1..]);
          RunKeeps(s', steps[1..]);
        } else {
          AloneRun(s, steps[1..]);
        }
      case Add(context, stack) =>
        if stack !in s.live { AloneAdds(s, context, stack); }
        AloneRun(s', steps[1..]);
      case Clock(us) =>
        OtherStep(Masked(s), steps[0]);
        assert Masked(s') == Apply(Masked(s), steps[0]);
        AloneRun(s', steps[1..]);
      case _ =>
        AloneRun(s, steps[1..]);
    }
  }

  lemma {:induction false} NeverClashes(s: State, steps: seq<Step>)
    requires forall c :: 0 <= c < |s.cores| ==> !s.cores[c].mode.Entering?
    ensures Unclashed(s, steps)
    decreases |steps|
  {
    if steps != [] {
      NeverClashes(Apply(s, steps[0]), steps[1..]);
    }
  }

  // ----- Exactly when ------------------------------------------------------------------------------

  /** Mutual exclusion holds on all runs exactly when no core enters with 0 and, if there are several, all of
      them enter with 1, the only number that is neither 0 nor ever allocated. */
  lemma ExclusionExactly(entries: seq<Context>)
    ensures (forall steps :: Exclusive(Exec(Init(entries), steps))) <==>
            forall c :: 0 <= c < |entries| ==> entries[c].tpidr == 1 || (|entries| == 1 && entries[c].tpidr != 0)
  {
    if c :| 0 <= c < |entries| && entries[c].tpidr == 0 {
      ZeroEntryLoses(entries, c);
    } else if c :| 0 <= c < |entries| && entries[c].tpidr != 1 && |entries| > 1 {
      var d := if c == 0 then 1 else 0;
      var steps := AllocatedEntryBreaks(entries, c, d);
      assert !Exclusive(Exec(Init(entries), steps));
    } else {
      forall steps
        ensures Exclusive(Exec(Init(entries), steps))
      {
        if |entries| == 1 {
          InitInv([entries[0].(tpidr := 1)]);
          assert Masked(Init(entries)) == Init([entries[0].(tpidr := 1)]);
          AloneRun(Init(entries), steps);
        } else {
          SmallEntriesUnclashed(Init(entries), steps);
          MutualExclusion(entries, steps);
        }
      }
    }
  }
}
