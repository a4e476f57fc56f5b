/** Tasks, their saved registers and their states (src/process.rs, src/syscall.rs). */
module Process {

  /** The thirty general purpose registers x0..x29. */
  type Registers = r: seq<nat> | |r| == 30 witness seq(30, _ => 0)

  /** The exception context as it is stored on the stack on exception entry. */
  datatype Context = Context(gpr: Registers, lr: nat, elr: nat, sp: nat, tpidr: nat, spsr: nat)

  /** A waiting task carries the polling closure of the sleep system call, which captures the time
      the call began and the time it waits for, both in microseconds. */
  datatype TaskState = Running | Waiting(begin: nat, target: nat) | Ready | Zombie

  /** `counter` and `priority` are `i8`; `stack` is an opaque token for the owned stack. */
  datatype Task = Task(context: Context, state: TaskState, counter: int, priority: int, pid: nat, stack: nat)

  /** Two's complement wrap-around of an `i8`. */
  function WrapI8(x: int): (r: int)
    ensures -128 <= r < 128 && (r - x) % 256 == 0
    ensures -128 <= x < 128 ==> r == x
  {
    (x + 128) % 256 - 128
  }

  function NewTask(context: Context, stack: nat): Task {
    Task(context, Ready, 0, 1, 0, stack)
  }

  predicate Runnable(t: Task, now: nat) {
    t.state.Ready? || (t.state.Waiting? && now > t.state.target)
  }

  /** What a successful poll writes: x7 := 0 and x0 := elapsed milliseconds. */
  function Woken(c: Context, elapsed: nat): Context {
    c.(gpr := c.gpr[7 := 0][0 := elapsed / 1000])
  }

  /** The task after `is_ready`: a waiting task whose closure succeeds becomes ready. */
  function Polled(t: Task, now: nat): Task {
    if t.state.Waiting? && now > t.state.target then
      t.(state := Ready, context := Woken(t.context, if now > t.state.begin then now - t.state.begin else 0))
    else t
  }

  /** A task that is passed over by the scheduler: the counter of a waiting one is halved, rounding down, and raised
      by its priority. */
  function PassedOver(t: Task): (r: Task)
    ensures !t.state.Waiting? ==> r == t
    ensures t.state.Waiting? && -64 <= t.priority < 64 && -128 <= t.counter < 128 ==>
              r == t.(counter := r.counter) && 2 * (r.counter - t.priority) <= t.counter <= 2 * (r.counter - t.priority) + 1
  {
    if t.state.Waiting? then t.(counter := WrapI8(t.counter / 2 + t.priority)) else t
  }

  /** `Task::exit`; the stack itself goes back to the allocator. */
  function Exited(t: Task): Task {
    t.(state := Zombie, counter := 0, priority := 0)
  }
}
