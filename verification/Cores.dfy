/** Cores sharing the scheduler. Each step is one critical section of one core, or something that
    happens outside any: user code changing registers, the clock advancing. `switch` and
    `exit_task` give up the lock between the deschedule part and every `schedule` attempt, so
    those are separate steps and cores interleave between them (src/sched.rs lines 31-89). */
module Cores {
  import opened Process
  import opened Scheduling

  /** Entering: has not been given a task yet. Seeking: between deschedule and dispatch.
      Holding: executes the task whose pid is in `ctx.tpidr`. */
  datatype Mode = Entering | Seeking | Holding

  datatype Core = Core(mode: Mode, ctx: Context)

  /** `live` are the stacks the allocator has handed out, `freed` the pids whose stack was given
      back, in order; `doubleFree` records that a stack was given back that was not live. */
  datatype State = State(queue: seq<Task>, lastId: LastId, cores: seq<Core>, now: nat,
                         live: set<nat>, freed: seq<nat>, doubleFree: bool)

  datatype Step =
    | Add(context: Context, stack: nat)
    | Tick(core: nat)
    | Syscall(core: nat)
    | Attempt(core: nat)
    | User(core: nat, ctx: Context)
    | Clock(us: nat)

  function Init(entries: seq<Context>): State {
    State([], NoneYet, seq(|entries|, i requires 0 <= i < |entries| => Core(Entering, entries[i])), 0, {}, [], false)
  }

  /** `switch`: deschedule, and look for another task unless the current one keeps the core. */
  function Switch(s: State, c: nat, update: TaskState): State
    requires c < |s.cores|
  {
    var (q, sched) := Descheduled(s.queue, update, s.cores[c].ctx);
    s.(queue := q, cores := if sched then s.cores[c := s.cores[c].(mode := Seeking)] else s.cores)
  }

  /** `sleep_task`: x0 holds the milliseconds to sleep, time is in microseconds. */
  function SleepUntil(s: State, c: nat): TaskState
    requires c < |s.cores|
  {
    Waiting(s.now, s.now + 1000 * s.cores[c].ctx.gpr[0])
  }

  function Exit(s: State, c: nat): State
    requires c < |s.cores|
  {
    var pid := s.cores[c].ctx.tpidr;
    var i := IndexOf(s.queue, pid);
    var s1 :=
      if i == |s.queue| then s
      else s.(live := s.live - {s.queue[i].stack}, freed := s.freed + [pid],
                  doubleFree := s.doubleFree || s.queue[i].stack !in s.live);
    s1.(queue := Descheduled(ExitMarked(s.queue, pid), Zombie, s.cores[c].ctx).0,
        cores := s.cores[c := s.cores[c].(mode := Seeking)])
  }

  /** One `schedule` attempt. The loop around it ends when it returns a nonzero pid, which is the
      `tpidr` the core had before, not the one it was given. */
  function Attempted(s: State, c: nat): State
    requires c < |s.cores|
  {
    var (q, d) := Scheduled(s.queue, s.now);
    var mode := if d.Dispatched? && s.cores[c].ctx.tpidr > 0 then Holding else Seeking;
    s.(queue := q, cores := s.cores[c := Core(mode, if d.Dispatched? then d.task.context else s.cores[c].ctx)])
  }

  predicate Enabled(s: State, step: Step) {
    match step
    case Add(_, stack) => stack !in s.live
    case Tick(c) => c < |s.cores| && !s.cores[c].mode.Seeking?
    case Syscall(c) => c < |s.cores| && s.cores[c].mode.Holding? && s.cores[c].ctx.gpr[8] in {1, 2}
    case Attempt(c) => c < |s.cores| && s.cores[c].mode.Seeking?
    case User(c, ctx) => c < |s.cores| && s.cores[c].mode.Holding? && ctx.tpidr == s.cores[c].ctx.tpidr
    case Clock(_) => true
  }

  /** A step that is not enabled changes nothing, so a run is any sequence of steps. */
  function Apply(s: State, step: Step): State {
    if !Enabled(s, step) then s else
    match step
    case Add(context, stack) =>
      var id := NextId(s.lastId);
      s.(queue := s.queue + [Initial(s, context, stack)], lastId := Last(id), live := s.live + {stack})
    case Tick(c) => Switch(s, c, Ready)
    case Syscall(c) =>
      if s.cores[c].ctx.gpr[8] == 1 then Switch(s, c, SleepUntil(s, c))
      else Exit(s, c)
    case Attempt(c) => Attempted(s, c)
    case User(c, ctx) => s.(cores := s.cores[c := Core(Holding, ctx)])
    case Clock(us) => s.(now := s.now + us)
  }

  function Initial(s: State, context: Context, stack: nat): Task {
    NewTask(context.(tpidr := NextId(s.lastId)), stack).(pid := NextId(s.lastId))
  }

  function Exec(s: State, steps: seq<Step>): State
    decreases |steps|
  {
    if steps == [] then s else Exec(Apply(s, steps[0]), steps[1..])
  }

  // ----- The queue as a table from pids to tasks ---------------------------------------------

  /** How often a pid is queued. */
  ghost function Count(q: seq<Task>, p: nat): (n: nat)
    ensures n > 0 <==> IndexOf(q, p) < |q|
  {
    if q == [] then 0 else (if q[0].pid == p then 1 else 0) + Count(q[1..], p)
  }

  datatype Entry = Absent | Present(task: Task)

  ghost function Lookup(q: seq<Task>, p: nat): (e: Entry)
    ensures e.Present? ==> e.task in q && e.task.pid == p
    ensures e.Present? <==> Count(q, p) > 0
  {
    if IndexOf(q, p) < |q| then Present(q[IndexOf(q, p)]) else Absent
  }

  ghost function OrElse(a: Entry, b: Entry): Entry {
    if a.Present? then a else b
  }

  lemma {:induction false} Concat(a: seq<Task>, b: seq<Task>, p: nat)
    ensures Count(a + b, p) == Count(a, p) + Count(b, p)
    ensures Lookup(a + b, p) == OrElse(Lookup(a, p), Lookup(b, p))
  {
    if a == [] {
      assert a + b == b;
    } else {
      assert (a + b)[1..] == a[1..] + b;
      Concat(a[1..], b, p);
    }
  }

  lemma Single(t: Task, p: nat)
    ensures Count([t], p) == if t.pid == p then 1 else 0
    ensures Lookup([t], p) == if t.pid == p then Present(t) else Absent
  {
    assert [t][1..] == [];
  }

  lemma Parts(a: seq<Task>, t: Task, b: seq<Task>, p: nat)
    ensures Count(a + [t] + b, p) == Count(a, p) + (if t.pid == p then 1 else 0) + Count(b, p)
    ensures Lookup(a + [t] + b, p) == OrElse(OrElse(Lookup(a, p), if t.pid == p then Present(t) else Absent), Lookup(b, p))
  {
    Concat(a + [t], b, p);
    Concat(a, [t], p);
    Single(t, p);
  }

  lemma AtIndex(q: seq<Task>, i: nat, p: nat)
    requires i < |q|
    ensures Count(q, p) == Count(q[..i], p) + (if q[i].pid == p then 1 else 0) + Count(q[i+1..], p)
    ensures Lookup(q, p) == OrElse(OrElse(Lookup(q[..i], p), if q[i].pid == p then Present(q[i]) else Absent), Lookup(q[i+1..], p))
  {
    assert q == q[..i] + [q[i]] + q[i+1..];
    Parts(q[..i], q[i], q[i+1..], p);
  }

  /** Moving one task to the back, replaced by a version with the same pid. */
  lemma Moved(a: seq<Task>, t: Task, b: seq<Task>, t': Task, p: nat)
    requires t.pid == t'.pid
    requires Count(a + [t] + b, p) <= 1
    ensures Count(a + b + [t'], p) == Count(a + [t] + b, p)
    ensures Lookup(a + b + [t'], p) == if p == t.pid then Present(t') else Lookup(a + [t] + b, p)
  {
    Parts(a, t, b, p);
    Concat(a + b, [t'], p);
    Concat(a, b, p);
    Single(t', p);
  }

  lemma Replaced(q: seq<Task>, i: nat, t: Task, p: nat)
    requires i < |q| && q[i].pid == t.pid && Count(q, p) <= 1
    ensures Count(q[i := t], p) == Count(q, p)
    ensures Lookup(q[i := t], p) == if p == t.pid then Present(t) else Lookup(q, p)
  {
    AtIndex(q, i, p);
    AtIndex(q[i := t], i, p);
  }

  lemma TakenOff(q: seq<Task>, update: TaskState, ec: Context, p: nat)
    requires Count(q, p) <= 1 && IndexOf(q, ec.tpidr) < |q| && Descheduled(q, update, ec).1
    ensures Count(Descheduled(q, update, ec).0, p) == Count(q, p)
    ensures Lookup(Descheduled(q, update, ec).0, p) ==
            if p != ec.tpidr then Lookup(q, p) else Present(q[IndexOf(q, ec.tpidr)].(counter := 1, state := update, context := ec))
  {
    var i := IndexOf(q, ec.tpidr);
    assert q == q[..i] + [q[i]] + q[i+1..];
    Moved(q[..i], q[i], q[i+1..], q[i].(counter := 1, state := update, context := ec), p);
  }

  /** Taking the task `ec` belongs to off its core changes that task only and keeps every pid. */
  lemma DescheduleLookup(q: seq<Task>, update: TaskState, ec: Context, p: nat)
    requires Count(q, p) <= 1
    ensures Count(Descheduled(q, update, ec).0, p) == Count(q, p)
    ensures Lookup(Descheduled(q, update, ec).0, p) ==
            (if p != ec.tpidr || Lookup(q, p).Absent? then Lookup(q, p)
             else if Descheduled(q, update, ec).1 then Present(Lookup(q, p).task.(counter := 1, state := update, context := ec))
             else Present(Lookup(q, p).task.(counter := WrapI8(Lookup(q, p).task.counter - 1))))
  {
    var i := IndexOf(q, ec.tpidr);
    if i < |q| {
      if Descheduled(q, update, ec).1 {
        TakenOff(q, update, ec, p);
      } else {
        Replaced(q, i, q[i].(counter := WrapI8(q[i].counter - 1)), p);
      }
    }
  }

  lemma PassOverLookup(q: seq<Task>, p: nat)
    ensures Count(PassOver(q), p) == Count(q, p)
    ensures Lookup(PassOver(q), p) == if Lookup(q, p).Absent? then Absent else Present(PassedOver(Lookup(q, p).task))
  {
    if q != [] {
      assert PassOver(q)[1..] == PassOver(q[1..]);
      PassOverLookup(q[1..], p);
    }
  }

  lemma LookupRunnable(q: seq<Task>, now: nat, p: nat)
    requires forall t :: t in q ==> !Runnable(t, now)
    ensures Lookup(q, p).Present? ==> !Runnable(Lookup(q, p).task, now)
  {}

  lemma ToFront(a: seq<Task>, t: Task, b: seq<Task>, t': Task, p: nat)
    requires t.pid == t'.pid
    requires Count(a + [t] + b, p) <= 1
    ensures Count([t'] + b + PassOver(a), p) == Count(a + [t] + b, p)
    ensures p == t.pid ==> Lookup([t'] + b + PassOver(a), p) == Present(t')
    ensures p != t.pid ==> var e := Lookup(a + [t] + b, p);
                           Lookup([t'] + b + PassOver(a), p) == e
                           || (e.Present? && Lookup([t'] + b + PassOver(a), p) == Present(PassedOver(e.task)))
  {
    Parts(a, t, b, p);
    PassOverLookup(a, p);
    Concat([t'] + b, PassOver(a), p);
    Concat([t'], b, p);
    Single(t', p);
  }

  /** A schedule attempt keeps every pid. It dispatches one runnable task, and may pass over others;
      when it dispatches nothing, nothing is runnable. */
  lemma ScheduleLookup(q: seq<Task>, now: nat, p: nat)
    requires Count(q, p) <= 1
    ensures Count(Scheduled(q, now).0, p) == Count(q, p)
    ensures var (q', d) := Scheduled(q, now);
            && (d.Dispatched? && d.task.pid == p ==>
                  && Lookup(q, p).Present? && Runnable(Lookup(q, p).task, now)
                  && Lookup(q', p) == Present(d.task)
                  && d.task == Polled(Lookup(q, p).task, now).(state := Running))
            && (!(d.Dispatched? && d.task.pid == p) ==>
                  Lookup(q', p) == Lookup(q, p)
                  || (Lookup(q, p).Present? && Lookup(q', p) == Present(PassedOver(Lookup(q, p).task))))
            && (d.Nothing? && Lookup(q, p).Present? ==> !Runnable(Lookup(q, p).task, now))
  {
    var k := FirstRunnable(q, now);
    if k == |q| {
      PassOverLookup(q, p);
      LookupRunnable(q, now, p);
    } else {
      assert q == q[..k] + [q[k]] + q[k+1..];
      ToFront(q[..k], q[k], q[k+1..], Scheduled(q, now).1.task, p);
      AtIndex(q, k, p);
    }
  }

  lemma ExitMarkLookup(q: seq<Task>, pid: nat, p: nat)
    ensures Count(ExitMarked(q, pid), p) == Count(q, p)
    ensures Lookup(ExitMarked(q, pid), p) == if p == pid && Lookup(q, p).Present? then Present(Exited(Lookup(q, p).task)) else Lookup(q, p)
  {
    var i := IndexOf(q, pid);
    if i < |q| {
      AtIndex(q, i, p);
      AtIndex(ExitMarked(q, pid), i, p);
    }
  }
}
