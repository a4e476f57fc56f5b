/** The scheduler's queue operations (src/sched.rs). Each one runs under the global lock. */
module Scheduling {
  import opened Process

  // ----- What one critical section does to the queue ---------------------------------------

  function IndexOf(q: seq<Task>, pid: nat): (i: nat)
    ensures i <= |q|
    ensures forall j :: 0 <= j < i ==> q[j].pid != pid
    ensures i < |q| ==> q[i].pid == pid
  {
    if q == [] || q[0].pid == pid then 0 else 1 + IndexOf(q[1..], pid)
  }

  function FirstRunnable(q: seq<Task>, now: nat): (i: nat)
    ensures i <= |q|
    ensures forall j :: 0 <= j < i ==> !Runnable(q[j], now)
    ensures i < |q| ==> Runnable(q[i], now)
  {
    if q == [] || Runnable(q[0], now) then 0 else 1 + FirstRunnable(q[1..], now)
  }

  function PassOver(q: seq<Task>): (r: seq<Task>)
    ensures |r| == |q|
    ensures forall i :: 0 <= i < |q| ==> r[i] == PassedOver(q[i])
  {
    seq(|q|, i requires 0 <= i < |q| => PassedOver(q[i]))
  }

  /** Take the task `ec` belongs to off its core; `false` keeps it running. */
  function Descheduled(q: seq<Task>, update: TaskState, ec: Context): (seq<Task>, bool) {
    var i := IndexOf(q, ec.tpidr);
    if i == |q| then (q, true)
    else if update.Ready? && WrapI8(q[i].counter - 1) > 0 then
      (q[i := q[i].(counter := WrapI8(q[i].counter - 1))], false)
    else
      (q[..i] + q[i+1..] + [q[i].(counter := 1, state := update, context := ec)], true)
  }

  /** A task keeps its core exactly if it is still ready and its `i8` counter, less one, is positive: from 2 on, or at
      -128, where it wraps around. */
  lemma KeepsCoreExactly(q: seq<Task>, update: TaskState, ec: Context)
    requires forall i :: 0 <= i < |q| ==> -128 <= q[i].counter < 128
    ensures !Descheduled(q, update, ec).1 <==>
            update.Ready? && exists i :: 0 <= i < |q| && q[i].pid == ec.tpidr && (forall j :: 0 <= j < i ==> q[j].pid != ec.tpidr)
                                         && (q[i].counter >= 2 || q[i].counter == -128)
  {
    var i := IndexOf(q, ec.tpidr);
  }

  datatype Dispatch = Nothing | Dispatched(task: Task)

  /** Rotate the queue to its first runnable task, which becomes the running head. */
  function Scheduled(q: seq<Task>, now: nat): (seq<Task>, Dispatch) {
    var k := FirstRunnable(q, now);
    if k == |q| then (PassOver(q), Nothing)
    else
      var t := Polled(q[k], now).(state := Running);
      ([t] + q[k+1..] + PassOver(q[..k]), Dispatched(t))
  }

  function ExitMarked(q: seq<Task>, pid: nat): seq<Task> {
    var i := IndexOf(q, pid);
    if i == |q| then q else q[i := Exited(q[i])]
  }

  /** The queue after the first `i` tasks were passed over. */
  ghost predicate Rotated(q: seq<Task>, i: nat, p: seq<Task>) {
    i <= |q| && p == q[i..] + PassOver(q[..i])
  }

  lemma RotateOne(q: seq<Task>, i: nat, p: seq<Task>)
    requires Rotated(q, i, p) && i < |q|
    ensures p != [] && p[0] == q[i] && Rotated(q, i + 1, p[1..] + [PassedOver(q[i])])
  {
    var a, b := q[i+1..], PassOver(q[..i]);
    assert q[i..] == [q[i]] + a;
    assert p[1..] == a + b;
    assert PassOver(q[..i+1]) == b + [PassedOver(q[i])];
    assert (a + b) + [PassedOver(q[i])] == a + (b + [PassedOver(q[i])]);
  }

  lemma RotatedDispatch(q: seq<Task>, i: nat, p: seq<Task>, now: nat)
    requires Rotated(q, i, p) && i < |q| && Runnable(q[i], now) && forall j :: 0 <= j < i ==> !Runnable(q[j], now)
    ensures var t := Polled(q[i], now).(state := Running);
            p != [] && Scheduled(q, now) == ([t] + p[1..], Dispatched(t))
  {
    assert FirstRunnable(q, now) == i;
    var a, b := q[i+1..], PassOver(q[..i]);
    assert q[i..] == [q[i]] + a;
    assert p[1..] == a + b;
    var t := Polled(q[i], now).(state := Running);
    assert [t] + (a + b) == [t] + a + b;
  }

  lemma RotatedAll(q: seq<Task>, p: seq<Task>, now: nat)
    requires Rotated(q, |q|, p) && forall j :: 0 <= j < |q| ==> !Runnable(q[j], now)
    ensures Scheduled(q, now) == (p, Nothing)
  {
    assert q[..|q|] == q && q[|q|..] == [];
    assert [] + PassOver(q) == PassOver(q);
    assert FirstRunnable(q, now) == |q|;
    assert p == PassOver(q);
  }

  // ----- The scheduler object ----------------------------------------------------------------

  datatype LastId = NoneYet | Last(id: nat)

  function NextId(last: LastId): nat {
    (if last.NoneYet? then 1 else last.id) + 1
  }

  class Scheduler {
    var processes: seq<Task>
    var lastId: LastId

    constructor ()
      ensures processes == [] && lastId == NoneYet
    {
      processes, lastId := [], NoneYet;
    }

    method AddTask(task: Task) returns (id: nat)
      modifies this
      ensures id == NextId(old(lastId)) && lastId == Last(id)
      ensures processes == old(processes) + [task.(pid := id, context := task.context.(tpidr := id))]
    {
      if lastId.NoneYet? {
        lastId := Last(1);
      }
      lastId := Last(lastId.id + 1);
      id := lastId.id;
      var added := task.(context := task.context.(tpidr := id));
      added := added.(pid := added.context.tpidr);
      processes := processes + [added];
    }

    method Deschedule(update: TaskState, ec: Context) returns (sched: bool)
      modifies this`processes
      ensures (processes, sched) == Descheduled(old(processes), update, ec)
    {
      var ind := 0;
      while ind < |processes|
        invariant 0 <= ind <= |processes| && processes == old(processes)
        invariant forall j :: 0 <= j < ind ==> processes[j].pid != ec.tpidr
      {
        var task := processes[ind];
        if task.pid == ec.tpidr {
          task := task.(counter := WrapI8(task.counter - 1));
          processes := processes[ind := task];
          if update.Ready? && task.counter > 0 {
            return false;
          }
          processes := processes[..ind] + processes[ind+1..];
          task := task.(counter := 1);
          task := task.(state := update);
          task := task.(context := ec);
          processes := processes + [task];
          break;
        }
        ind := ind + 1;
      }
      return true;
    }

    /** Returns the previous `tpidr` when a task was dispatched and 0 otherwise. */
    method Schedule(ec: Context, now: nat) returns (pid: nat, ec': Context)
      modifies this`processes
      ensures var (q, d) := Scheduled(old(processes), now);
              processes == q
              && (d.Nothing? ==> pid == 0 && ec' == ec)
              && (d.Dispatched? ==> pid == ec.tpidr && ec' == d.task.context)
    {
      ghost var q := processes;
      var n := |processes|;
      var i := 0;
      while i < n
        invariant 0 <= i <= n == |q|
        invariant forall j :: 0 <= j < i ==> !Runnable(q[j], now)
        invariant Rotated(q, i, processes)
      {
        RotateOne(q, i, processes);
        if Runnable(q[i], now) { RotatedDispatch(q, i, processes, now); }
        var task := processes[0];
        processes := processes[1..];
        if Runnable(task, now) {
          task := Polled(task, now);
          ec' := task.context;
          task := task.(state := Running);
          processes := [task] + processes;
          return ec.tpidr, ec';
        } else if task.state.Waiting? {
          task := task.(counter := WrapI8(task.counter / 2 + task.priority));
        }
        processes := processes + [task];
        i := i + 1;
      }
      RotatedAll(q, processes, now);
      return 0, ec;
    }

    method ExitTask(ec: Context)
      modifies this`processes
      ensures processes == Descheduled(ExitMarked(old(processes), ec.tpidr), Zombie, ec).0
    {
      var ind := 0;
      while ind < |processes|
        invariant 0 <= ind <= |processes| && processes == old(processes)
        invariant forall j :: 0 <= j < ind ==> processes[j].pid != ec.tpidr
      {
        if processes[ind].pid == ec.tpidr {
          processes := processes[ind := Exited(processes[ind])];
          break;
        }
        ind := ind + 1;
      }
      var _ := Deschedule(Zombie, ec);
    }
  }
}
