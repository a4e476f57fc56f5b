/** Kernel timers (ext/uspi/env/lib/timer.c). */
module KernelTimers {
  import opened Words

  const KERNEL_TIMERS := 20
  const HZ := 10
  const HALF := 0x8000_0000

  /** A slot holds the handler of a pending timer, here by its number, and the tick at which it elapses. */
  datatype Slot = Empty | Pending(id: nat, elapsesAt: nat)

  /** What became of a timer. */
  datatype Fate = Waiting | Fired(tick: nat) | Cancelled

  /** A timer as it was accepted: the tick count at that moment, its delay, its slot, and whether a handler started
      it while the poll of that tick had still to come to its slot. */
  datatype Accepted = Accepted(at: nat, delay: nat, slot: nat, ahead: bool, fate: Fate)

  /** `ticks` and `time` are 32 bit. The history is `now`, the ticks since the start, `cursor`, the slots that the
      poll has come to (all of them between polls), `accepted`, the timers in order of acceptance, and `fired`, the
      calls of handlers: timer and tick. */
  datatype Timers = Timers(slots: seq<Slot>, ticks: nat, time: nat, now: nat, cursor: nat, accepted: seq<Accepted>, fired: seq<(nat, nat)>)

  /** What a handler, or anybody else, does with timers. Handles are 1 to 20. */
  datatype Action = Start(delay: nat) | Cancel(handle: nat)

  predicate Proper(a: Action) {
    if a.Start? then a.delay < 0x1_0000_0000 else 1 <= a.handle <= KERNEL_TIMERS
  }

  /** What each slot's handler would do, should it be called. */
  type Scripts = s: seq<seq<Action>> | |s| == KERNEL_TIMERS && forall i, j :: 0 <= i < |s| && 0 <= j < |s[i]| ==> Proper(s[i][j])
    witness seq(KERNEL_TIMERS, _ => [])

  function FirstEmpty(slots: seq<Slot>): (i: nat)
    ensures i <= |slots|
    ensures forall j :: 0 <= j < i ==> slots[j].Pending?
    ensures i < |slots| ==> slots[i].Empty?
  {
    if slots == [] || slots[0].Empty? then 0 else 1 + FirstEmpty(slots[1..])
  }

  /** `StartKernelTimer`; the handle is 0 when there is no free slot. */
  function Started(t: Timers, delay: nat): (Timers, nat)
    requires |t.slots| == KERNEL_TIMERS
  {
    var i := FirstEmpty(t.slots);
    if i == KERNEL_TIMERS then (t, 0)
    else
      (t.(slots := t.slots[i := Pending(|t.accepted|, U32(t.ticks + delay))],
          accepted := t.accepted + [Accepted(t.now, delay, i, i >= t.cursor, Waiting)]), i + 1)
  }

  function Settle(t: Timers, i: nat, fate: Fate): Timers
    requires i < |t.slots|
  {
    var s := t.slots[i];
    t.(slots := t.slots[i := Empty],
       accepted := if s.Pending? && s.id < |t.accepted| then t.accepted[s.id := t.accepted[s.id].(fate := fate)] else t.accepted)
  }

  function Cancelling(t: Timers, handle: nat): Timers
    requires |t.slots| == KERNEL_TIMERS && 1 <= handle <= KERNEL_TIMERS
  {
    Settle(t, handle - 1, Cancelled)
  }

  function Acted(t: Timers, a: Action): (r: Timers)
    requires |t.slots| == KERNEL_TIMERS && Proper(a)
    ensures |r.slots| == KERNEL_TIMERS
  {
    if a.Start? then Started(t, a.delay).0 else Cancelling(t, a.handle)
  }

  function ActedAll(t: Timers, script: seq<Action>): (r: Timers)
    requires |t.slots| == KERNEL_TIMERS && forall i :: 0 <= i < |script| ==> Proper(script[i])
    ensures |r.slots| == KERNEL_TIMERS
    decreases |script|
  {
    if script == [] then t else ActedAll(Acted(t, script[0]), script[1..])
  }

  /** `(int) (elapsesAt - ticks) <= 0` */
  predicate Elapsed(elapsesAt: nat, ticks: nat) {
    var d := U32(elapsesAt - ticks);
    d == 0 || d >= HALF
  }

  /** The slot is emptied before its handler is called. */
  function Fire(t: Timers, i: nat, script: seq<Action>): (r: Timers)
    requires |t.slots| == KERNEL_TIMERS && i < KERNEL_TIMERS && t.slots[i].Pending?
    requires forall j :: 0 <= j < |script| ==> Proper(script[j])
    ensures |r.slots| == KERNEL_TIMERS
  {
    ActedAll(Settle(t, i, Fired(t.now)).(fired := t.fired + [(t.slots[i].id, t.now)]), script)
  }

  /** `TimerPollKernelTimers`, from slot `i` on. */
  function PolledFrom(t: Timers, i: nat, scripts: Scripts): (r: Timers)
    requires |t.slots| == KERNEL_TIMERS && i <= KERNEL_TIMERS
    ensures |r.slots| == KERNEL_TIMERS
    decreases KERNEL_TIMERS - i, t
  {
    if i == KERNEL_TIMERS then t
    else if t.slots[i].Pending? && Elapsed(t.slots[i].elapsesAt, t.ticks) then PolledFrom(Fire(t.(cursor := i + 1), i, scripts[i]), i + 1, scripts)
    else PolledFrom(t.(cursor := i + 1), i + 1, scripts)
  }

  /** `TimerInterruptHandler` */
  function Ticked(t: Timers, scripts: Scripts): (r: Timers)
    requires |t.slots| == KERNEL_TIMERS
    ensures |r.slots| == KERNEL_TIMERS
  {
    PolledFrom(Advanced(t), 0, scripts)
  }

  function Advanced(t: Timers): Timers {
    var ticks := U32(t.ticks + 1);
    t.(ticks := ticks, time := if ticks % HZ == 0 then U32(t.time + 1) else t.time, now := t.now + 1, cursor := 0)
  }

  function Init(): Timers {
    Timers(seq(KERNEL_TIMERS, _ => Empty), 0, 0, 0, KERNEL_TIMERS, [], [])
  }

  // ----- The invariant ------------------------------------------------------------------------------------

  ghost function Times(log: seq<(nat, nat)>, id: nat): nat {
    if log == [] then 0 else Times(log[..|log|-1], id) + if log[|log|-1].0 == id then 1 else 0
  }

  /** The tick on which a timer fires if it is not cancelled. One that the poll has still to come to is seen first on
      the tick it is accepted on, any other on the next one; the sign test takes differences from 2^31 on for
      negative. */
  function FireTick(a: Accepted): nat {
    if a.ahead then (if a.delay < HALF then a.at + a.delay else a.at)
    else if 1 <= a.delay <= HALF then a.at + a.delay
    else a.at + 1
  }

  /** A timer that waits sits in its slot; one that does not sits nowhere. */
  ghost predicate Placed(t: Timers, id: nat, a: Accepted)
    requires |t.slots| == KERNEL_TIMERS
  {
    && a.slot < KERNEL_TIMERS && a.at <= t.now
    && (a.fate.Waiting? ==> t.slots[a.slot] == Pending(id, U32(a.at + a.delay)))
    && Times(t.fired, id) == (if a.fate.Fired? then 1 else 0)
  }

  /** While the poll has reached slot `i` of this tick: timers in slots it has passed are due later, those in
      slots ahead of it are due now or later, and those that fired did so when they were due. */
  ghost predicate OnTime(t: Timers, id: nat, a: Accepted, i: nat) {
    && a.delay < 0x1_0000_0000
    && (a.fate.Waiting? ==> t.now <= FireTick(a) && (a.slot < i ==> t.now < FireTick(a)) && (a.slot >= i && !a.ahead ==> a.at < t.now))
    && (a.fate.Fired? ==> a.fate.tick == FireTick(a) <= t.now && (id, a.fate.tick) in t.fired)
  }

  /** A pending slot holds a timer that waits there. */
  ghost predicate SlotsOk(t: Timers) {
    && |t.slots| == KERNEL_TIMERS && t.ticks == U32(t.now)
    && (forall j :: 0 <= j < KERNEL_TIMERS && t.slots[j].Pending? ==>
          && t.slots[j].id < |t.accepted|
          && t.accepted[t.slots[j].id].slot == j && t.accepted[t.slots[j].id].fate.Waiting?)
    && (forall id: nat :: id >= |t.accepted| ==> Times(t.fired, id) == 0)
  }

  ghost predicate Inv(t: Timers, i: nat) {
    SlotsOk(t) && t.cursor == i && forall id: nat :: id < |t.accepted| ==> Placed(t, id, t.accepted[id]) && OnTime(t, id, t.accepted[id], i)
  }

  lemma InitInv()
    ensures Inv(Init(), KERNEL_TIMERS)
  {}

  /** Modular arithmetic: a timer is found elapsed exactly when it is due, whatever has wrapped around. */
  lemma ElapsedWhenDue(a: Accepted, now: nat)
    requires a.delay < 0x1_0000_0000 && a.at <= now <= FireTick(a) && (!a.ahead ==> a.at < now)
    ensures Elapsed(U32(a.at + a.delay), U32(now)) <==> now == FireTick(a)
  {
    assert U32(U32(a.at + a.delay) - U32(now)) == U32(a.at + a.delay - now);
  }

  lemma StartKeeps(t: Timers, delay: nat, i: nat)
    requires Inv(t, i) && delay < 0x1_0000_0000
    ensures Inv(Started(t, delay).0, i)
  {
    var t' := Started(t, delay).0;
    if FirstEmpty(t.slots) < KERNEL_TIMERS {
      assert U32(U32(t.now) + delay) == U32(t.now + delay);
      forall id: nat | id < |t'.accepted|
        ensures Placed(t', id, t'.accepted[id]) && OnTime(t', id, t'.accepted[id], i)
      {
        if id < |t.accepted| {
          assert Placed(t, id, t.accepted[id]) && OnTime(t, id, t.accepted[id], i);
        }
      }
    }
  }

  /** Emptying a slot settles the timer in it and no other. */
  lemma SettleKeeps(t: Timers, j: nat, i: nat)
    requires Inv(t, i) && j < KERNEL_TIMERS
    ensures Inv(Settle(t, j, Cancelled), i)
  {
    var t' := Settle(t, j, Cancelled);
    forall id: nat | id < |t'.accepted|
      ensures Placed(t', id, t'.accepted[id]) && OnTime(t', id, t'.accepted[id], i)
    {
      assert Placed(t, id, t.accepted[id]) && OnTime(t, id, t.accepted[id], i);
    }
  }

  lemma {:induction false} ActedAllKeeps(t: Timers, script: seq<Action>, i: nat)
    requires Inv(t, i) && forall k :: 0 <= k < |script| ==> Proper(script[k])
    ensures Inv(ActedAll(t, script), i)
    decreases |script|
  {
    if script != [] {
      if script[0].Start? {
        StartKeeps(t, script[0].delay, i);
      } else {
        SettleKeeps(t, script[0].handle - 1, i);
      }
      ActedAllKeeps(Acted(t, script[0]), script[1..], i);
    }
  }

  /** The timer in slot `j` is due and fires; everything the poll has passed is due later. */
  lemma FiringKeeps(t: Timers, j: nat)
    requires Inv(t, j) && j < KERNEL_TIMERS && t.slots[j].Pending? && Elapsed(t.slots[j].elapsesAt, t.ticks)
    ensures Inv(Settle(t, j, Fired(t.now)).(fired := t.fired + [(t.slots[j].id, t.now)], cursor := j + 1), j + 1)
  {
    var me := t.slots[j].id;
    var t' := Settle(t, j, Fired(t.now)).(fired := t.fired + [(me, t.now)], cursor := j + 1);
    assert t'.fired[..|t.fired|] == t.fired && t'.fired[|t.fired|] == (me, t.now);
    assert forall id: nat :: Times(t'.fired, id) == Times(t.fired, id) + if id == me then 1 else 0;
    assert Placed(t, me, t.accepted[me]) && OnTime(t, me, t.accepted[me], j);
    ElapsedWhenDue(t.accepted[me], t.now);
    forall id: nat | id < |t'.accepted|
      ensures Placed(t', id, t'.accepted[id]) && OnTime(t', id, t'.accepted[id], j + 1)
    {
      assert Placed(t, id, t.accepted[id]) && OnTime(t, id, t.accepted[id], j);
      if id != me && t.accepted[id].fate.Waiting? {
        assert t.accepted[id].slot != j;
      }
    }
  }

  lemma PassKeeps(t: Timers, j: nat)
    requires Inv(t, j) && j < KERNEL_TIMERS && !(t.slots[j].Pending? && Elapsed(t.slots[j].elapsesAt, t.ticks))
    ensures Inv(t.(cursor := j + 1), j + 1)
  {
    var t' := t.(cursor := j + 1);
    forall id: nat | id < |t'.accepted|
      ensures Placed(t', id, t'.accepted[id]) && OnTime(t', id, t'.accepted[id], j + 1)
    {
      assert Placed(t, id, t.accepted[id]) && OnTime(t, id, t.accepted[id], j);
      var a := t.accepted[id];
      if a.fate.Waiting? && a.slot == j {
        ElapsedWhenDue(a, t.now);
      }
    }
  }

  lemma {:induction false} PollKeeps(t: Timers, j: nat, scripts: Scripts)
    requires Inv(t, j) && j <= KERNEL_TIMERS
    ensures Inv(PolledFrom(t, j, scripts), KERNEL_TIMERS)
    decreases KERNEL_TIMERS - j
  {
    if j < KERNEL_TIMERS {
      if t.slots[j].Pending? && Elapsed(t.slots[j].elapsesAt, t.ticks) {
        FiringKeeps(t, j);
        var t1 := Settle(t, j, Fired(t.now)).(fired := t.fired + [(t.slots[j].id, t.now)], cursor := j + 1);
        assert t1 == Settle(t.(cursor := j + 1), j, Fired(t.now)).(fired := t.fired + [(t.slots[j].id, t.now)]);
        ActedAllKeeps(t1, scripts[j], j + 1);
        PollKeeps(Fire(t.(cursor := j + 1), j, scripts[j]), j + 1, scripts);
      } else {
        PassKeeps(t, j);
        PollKeeps(t.(cursor := j + 1), j + 1, scripts);
      }
    }
  }

  lemma AdvanceKeeps(t: Timers)
    requires Inv(t, KERNEL_TIMERS)
    ensures Inv(Advanced(t), 0)
  {
    var t' := Advanced(t);
    forall id: nat | id < |t'.accepted|
      ensures Placed(t', id, t'.accepted[id]) && OnTime(t', id, t'.accepted[id], 0)
    {
      assert Placed(t, id, t.accepted[id]) && OnTime(t, id, t.accepted[id], KERNEL_TIMERS);
    }
  }

  // ----- Whole runs -----------------------------------------------------------------------------------------

  datatype Event = Act(action: Action) | Tick(scripts: Scripts)

  predicate ProperEvent(e: Event) {
    e.Act? ==> Proper(e.action)
  }

  type Events = es: seq<Event> | forall i :: 0 <= i < |es| ==> ProperEvent(es[i])

  function Exec(t: Timers, events: Events): (r: Timers)
    requires |t.slots| == KERNEL_TIMERS
    ensures |r.slots| == KERNEL_TIMERS
    decreases |events|
  {
    if events == [] then t
    else Exec(if events[0].Act? then Acted(t, events[0].action) else Ticked(t, events[0].scripts), events[1..])
  }

  lemma {:induction false} RunKeeps(t: Timers, events: Events)
    requires Inv(t, KERNEL_TIMERS)
    ensures Inv(Exec(t, events), KERNEL_TIMERS)
    decreases |events|
  {
    if events != [] {
      if events[0].Act? {
        var a := events[0].action;
        if a.Start? {
          StartKeeps(t, a.delay, KERNEL_TIMERS);
        } else {
          SettleKeeps(t, a.handle - 1, KERNEL_TIMERS);
        }
        RunKeeps(Acted(t, a), events[1..]);
      } else {
        AdvanceKeeps(t);
        PollKeeps(Advanced(t), 0, events[0].scripts);
        RunKeeps(Ticked(t, events[0].scripts), events[1..]);
      }
    }
  }

  /** Every accepted timer that is not cancelled fires exactly once, on its `FireTick`; whatever handlers start and
      cancel while the timers are polled, and across the wrap-around of the 32 bit tick count. */
  lemma FiresOnce(events: Events, id: nat)
    requires id < |Exec(Init(), events).accepted|
    ensures var t := Exec(Init(), events);
            var a := t.accepted[id];
            match a.fate
            case Cancelled => Times(t.fired, id) == 0
            case Waiting => t.now < FireTick(a) && Times(t.fired, id) == 0
            case Fired(tick) => tick == FireTick(a) <= t.now && Times(t.fired, id) == 1 && (id, tick) in t.fired
  {
    InitInv();
    RunKeeps(Init(), events);
    var t := Exec(Init(), events);
    assert Placed(t, id, t.accepted[id]) && OnTime(t, id, t.accepted[id], KERNEL_TIMERS);
  }

  /** A timer that fires does so on the tick that its delay says exactly if the delay is from 1 to 2^31; or, when the
      poll had still to come to its slot, below 2^31. */
  lemma FiresWhenDueExactly(events: Events, id: nat)
    requires id < |Exec(Init(), events).accepted| && Exec(Init(), events).accepted[id].fate.Fired?
    ensures var a := Exec(Init(), events).accepted[id];
            a.fate.tick == a.at + a.delay <==> if a.ahead then a.delay < HALF else 1 <= a.delay <= HALF
  {
    FiresOnce(events, id);
    InitInv();
    RunKeeps(Init(), events);
    var t := Exec(Init(), events);
    assert OnTime(t, id, t.accepted[id], KERNEL_TIMERS);
  }

  /** A timer accepted with a delay from 1 to 2^31 - 1 fires exactly once, on the tick that is as many after
      its acceptance as its delay says, unless it is cancelled before. */
  lemma FiresOnceWhenDue(events: Events, id: nat)
    requires var t := Exec(Init(), events); id < |t.accepted| && 1 <= t.accepted[id].delay < HALF
    ensures var t := Exec(Init(), events);
            var a := t.accepted[id];
            match a.fate
            case Cancelled => Times(t.fired, id) == 0
            case Waiting => t.now < a.at + a.delay && Times(t.fired, id) == 0
            case Fired(tick) => tick == a.at + a.delay <= t.now && Times(t.fired, id) == 1 && (id, tick) in t.fired
  {
    FiresOnce(events, id);
  }

  // ----- Timers that fire on the wrong tick ---------------------------------------------------------------------

  const NO_SCRIPTS: Scripts := seq(KERNEL_TIMERS, _ => [])

  /** Handlers that do nothing cancel nothing and start nothing. */
  lemma {:induction false} IdlePoll(t: Timers, i: nat, scripts: Scripts, id: nat)
    requires |t.slots| == KERNEL_TIMERS && i <= KERNEL_TIMERS && forall j :: i <= j < KERNEL_TIMERS ==> scripts[j] == []
    requires id < |t.accepted| && !t.accepted[id].fate.Cancelled?
    ensures var t' := PolledFrom(t, i, scripts);
            && t'.now == t.now && id < |t'.accepted| && !t'.accepted[id].fate.Cancelled?
            && t'.accepted[id].(fate := Waiting) == t.accepted[id].(fate := Waiting)
    decreases KERNEL_TIMERS - i
  {
    if i < KERNEL_TIMERS {
      var t1 := t.(cursor := i + 1);
      if t.slots[i].Pending? && Elapsed(t.slots[i].elapsesAt, t.ticks) {
        IdlePoll(Fire(t1, i, []), i + 1, scripts, id);
      } else {
        IdlePoll(t1, i + 1, scripts, id);
      }
    }
  }

  /** With delay 0, and with delays above 2^31, a timer started between polls fires on the next tick, which is not
      the one its delay says. */
  lemma WrongTick(delay: nat)
    requires delay == 0 || HALF < delay < 0x1_0000_0000
    ensures var t := Exec(Init(), [Act(Start(delay)), Tick(NO_SCRIPTS)]);
            && |t.accepted| > 0 && t.accepted[0].at == 0 && t.accepted[0].delay == delay
            && t.accepted[0].fate == Fired(1) && (0, 1) in t.fired && 1 != delay
  {
    var events := [Act(Start(delay)), Tick(NO_SCRIPTS)];
    var t1 := Acted(Init(), Start(delay));
    assert t1.accepted == [Accepted(0, delay, 0, false, Waiting)];
    assert events[1..] == [Tick(NO_SCRIPTS)] && events[1..][1..] == [];
    assert Exec(Init(), events) == Exec(t1, [Tick(NO_SCRIPTS)]) == Exec(Ticked(t1, NO_SCRIPTS), []) == Ticked(t1, NO_SCRIPTS);
    IdlePoll(Advanced(t1), 0, NO_SCRIPTS, 0);
    FiresOnce(events, 0);
  }

  /** The handler of the timer in slot 0 starts two timers. The first gets slot 0 again, the second slot 1, which is
      still ahead of the poll. */
  lemma SecondIsAhead(t: Timers, delay: nat)
    requires |t.slots| == KERNEL_TIMERS && t.slots[0] == Pending(0, 1) && t.slots[1].Empty? && |t.accepted| == 1 && t.cursor == 1 && t.now == 1
    requires delay < 0x1_0000_0000
    ensures var t' := Fire(t, 0, [Start(0), Start(delay)]);
            t'.now == 1 && |t'.accepted| == 3 && t'.accepted[2] == Accepted(1, delay, 1, true, Waiting)
  {
    var t1 := Settle(t, 0, Fired(1)).(fired := t.fired + [(0, 1)]);
    var t2 := Acted(t1, Start(0));
    assert FirstEmpty(t1.slots) == 0;
    assert t2.slots == t1.slots[0 := t2.slots[0]] && t2.slots[0].Pending? && t2.slots[1].Empty?;
    assert FirstEmpty(t2.slots) == 1;
    var t3 := Acted(t2, Start(delay));
    assert [Start(0), Start(delay)][1..] == [Start(delay)] && [Start(delay)][1..] == [];
    assert ActedAll(t3, []) == t3;
    assert ActedAll(t2, [Start(delay)]) == t3;
  }

  /** With a delay of 2^31 or more, a timer that a handler starts in a slot ahead of the poll fires at once, on
      the tick it was accepted on. */
  lemma WrongTickAhead(delay: nat) returns (scripts: Scripts)
    requires HALF <= delay < 0x1_0000_0000
    ensures var t := Exec(Init(), [Act(Start(1)), Tick(scripts)]);
            && |t.accepted| > 2 && t.accepted[2].ahead && t.accepted[2].at == t.now == 1 && t.accepted[2].delay == delay
            && t.accepted[2].fate == Fired(1)
  {
    var s := NO_SCRIPTS[0 := [Start(0), Start(delay)]];
    assert forall i, j :: 0 <= i < |s| && 0 <= j < |s[i]| ==> Proper(s[i][j]);
    scripts := s;
    var events := [Act(Start(1)), Tick(scripts)];
    var t1 := Acted(Init(), Start(1));
    assert events[1..] == [Tick(scripts)] && events[1..][1..] == [];
    var t2 := Advanced(t1);
    assert FirstEmpty(Init().slots) == 0;
    assert t2.slots[0] == Pending(0, 1) && t2.ticks == 1 && t2.slots[1].Empty?;
    var t3 := t2.(cursor := 1);
    SecondIsAhead(t3, delay);
    var t4 := Fire(t3, 0, [Start(0), Start(delay)]);
    assert scripts[0] == [Start(0), Start(delay)];
    assert Ticked(t1, scripts) == PolledFrom(t2, 0, scripts) == PolledFrom(t4, 1, scripts);
    IdlePoll(t4, 1, scripts, 2);
    assert Exec(Init(), events) == Exec(t1, [Tick(scripts)]) == Exec(Ticked(t1, scripts), []);
    FiresOnce(events, 2);
  }

  /** No handle is given out exactly when all slots are taken, and a handle that is given out is that of a
      free slot. */
  lemma HandleExactly(t: Timers, delay: nat)
    requires |t.slots| == KERNEL_TIMERS
    ensures var (t', h) := Started(t, delay);
            && (h == 0 <==> forall i :: 0 <= i < KERNEL_TIMERS ==> t.slots[i].Pending?)
            && (h != 0 ==> h <= KERNEL_TIMERS && t.slots[h-1].Empty? && t'.slots[h-1].Pending?
                           && forall i :: 0 <= i < KERNEL_TIMERS && i != h - 1 ==> t'.slots[i] == t.slots[i])
  {}

  // ----- Cancelling -------------------------------------------------------------------------------------------------

  /** Cancelling empties the slot of the handle and no other, and settles the timer in it and no other. */
  lemma CancelExactly(t: Timers, i: nat, handle: nat)
    requires Inv(t, i) && 1 <= handle <= KERNEL_TIMERS
    ensures var t' := Cancelling(t, handle);
            && |t'.slots| == KERNEL_TIMERS && t'.slots[handle-1].Empty? && |t'.accepted| == |t.accepted| && t'.fired == t.fired
            && (forall j :: 0 <= j < KERNEL_TIMERS && j != handle - 1 ==> t'.slots[j] == t.slots[j])
            && (t.slots[handle-1].Pending? ==> t.slots[handle-1].id < |t.accepted| && t'.accepted[t.slots[handle-1].id].fate.Cancelled?)
            && (forall id :: 0 <= id < |t.accepted| && !(t.slots[handle-1].Pending? && t.slots[handle-1].id == id) ==> t'.accepted[id] == t.accepted[id])
  {}

  /** What has become of a timer once it no longer waits. */
  ghost predicate Over(t: Timers, id: nat, a: Accepted) {
    id < |t.accepted| && t.accepted[id] == a && !a.fate.Waiting?
  }

  lemma OverSettles(t: Timers, j: nat, i: nat, fate: Fate, id: nat, a: Accepted)
    requires Inv(t, i) && j < KERNEL_TIMERS && Over(t, id, a)
    ensures Over(Settle(t, j, fate), id, a)
  {}

  lemma {:induction false} OverActs(t: Timers, script: seq<Action>, i: nat, id: nat, a: Accepted)
    requires Inv(t, i) && Over(t, id, a) && forall k :: 0 <= k < |script| ==> Proper(script[k])
    ensures Over(ActedAll(t, script), id, a)
    decreases |script|
  {
    if script != [] {
      if script[0].Start? {
        StartKeeps(t, script[0].delay, i);
      } else {
        SettleKeeps(t, script[0].handle - 1, i);
        OverSettles(t, script[0].handle - 1, i, Cancelled, id, a);
      }
      OverActs(Acted(t, script[0]), script[1..], i, id, a);
    }
  }

  lemma {:induction false} OverPolls(t: Timers, j: nat, scripts: Scripts, id: nat, a: Accepted)
    requires Inv(t, j) && j <= KERNEL_TIMERS && Over(t, id, a)
    ensures Over(PolledFrom(t, j, scripts), id, a)
    decreases KERNEL_TIMERS - j
  {
    if j < KERNEL_TIMERS {
      var t0 := t.(cursor := j + 1);
      if t.slots[j].Pending? && Elapsed(t.slots[j].elapsesAt, t.ticks) {
        FiringKeeps(t, j);
        OverSettles(t, j, j, Fired(t.now), id, a);
        var t1 := Settle(t, j, Fired(t.now)).(fired := t.fired + [(t.slots[j].id, t.now)], cursor := j + 1);
        assert t1 == Settle(t0, j, Fired(t.now)).(fired := t.fired + [(t.slots[j].id, t.now)]);
        ActedAllKeeps(t1, scripts[j], j + 1);
        OverActs(t1, scripts[j], j + 1, id, a);
        OverPolls(Fire(t0, j, scripts[j]), j + 1, scripts, id, a);
      } else {
        PassKeeps(t, j);
        OverPolls(t0, j + 1, scripts, id, a);
      }
    }
  }

  lemma {:induction false} OverRuns(t: Timers, events: Events, id: nat, a: Accepted)
    requires Inv(t, KERNEL_TIMERS) && Over(t, id, a)
    ensures Inv(Exec(t, events), KERNEL_TIMERS) && Over(Exec(t, events), id, a)
    decreases |events|
  {
    if events != [] {
      RunKeeps(t, [events[0]]);
      var t' := if events[0].Act? then Acted(t, events[0].action) else Ticked(t, events[0].scripts);
      assert [events[0]][1..] == [] && Exec(t', []) == t' && Exec(t, [events[0]]) == t';
      if events[0].Act? {
        OverActs(t, [events[0].action], KERNEL_TIMERS, id, a);
        assert [events[0].action][1..] == [];
        assert ActedAll(t', []) == t';
      } else {
        AdvanceKeeps(t);
        OverPolls(Advanced(t), 0, events[0].scripts, id, a);
      }
      OverRuns(t', events[1..], id, a);
    }
  }

  /** A timer that is cancelled while it is pending never fires, whatever happens before and after. */
  lemma CancelledNeverFires(before: Events, handle: nat, later: Events, id: nat)
    requires 1 <= handle <= KERNEL_TIMERS
    requires Exec(Init(), before).slots[handle-1].Pending? && Exec(Init(), before).slots[handle-1].id == id
    ensures var t := Exec(Cancelling(Exec(Init(), before), handle), later);
            id < |t.accepted| && t.accepted[id].fate.Cancelled? && Times(t.fired, id) == 0
  {
    InitInv();
    RunKeeps(Init(), before);
    var t := Exec(Init(), before);
    SettleKeeps(t, handle - 1, KERNEL_TIMERS);
    var t1 := Cancelling(t, handle);
    OverRuns(t1, later, id, t1.accepted[id]);
    var t2 := Exec(t1, later);
    assert Placed(t2, id, t2.accepted[id]);
  }

  // ----- Seconds -----------------------------------------------------------------------------------------------------

  predicate SameClock(t: Timers, t': Timers) {
    t'.now == t.now && t'.time == t.time && t'.ticks == t.ticks
  }

  lemma {:induction false} ActsKeepClock(t: Timers, script: seq<Action>)
    requires |t.slots| == KERNEL_TIMERS && forall k :: 0 <= k < |script| ==> Proper(script[k])
    ensures SameClock(t, ActedAll(t, script))
    decreases |script|
  {
    if script != [] {
      ActsKeepClock(Acted(t, script[0]), script[1..]);
    }
  }

  lemma {:induction false} PollKeepsClock(t: Timers, j: nat, scripts: Scripts)
    requires |t.slots| == KERNEL_TIMERS && j <= KERNEL_TIMERS
    ensures SameClock(t, PolledFrom(t, j, scripts))
    decreases KERNEL_TIMERS - j
  {
    if j < KERNEL_TIMERS {
      var t0 := t.(cursor := j + 1);
      if t.slots[j].Pending? && Elapsed(t.slots[j].elapsesAt, t.ticks) {
        ActsKeepClock(Settle(t0, j, Fired(t.now)).(fired := t.fired + [(t.slots[j].id, t.now)]), scripts[j]);
        PollKeepsClock(Fire(t0, j, scripts[j]), j + 1, scripts);
      } else {
        PollKeepsClock(t0, j + 1, scripts);
      }
    }
  }

  /** Until the tick count wraps around, ten ticks are counted as one second. */
  lemma {:induction false} SecondsAreTenTicks(t: Timers, events: Events)
    requires |t.slots| == KERNEL_TIMERS && t.ticks == U32(t.now) && (t.now < 0x1_0000_0000 ==> t.time == t.now / 10)
    ensures var t' := Exec(t, events);
            t'.ticks == U32(t'.now) && (t'.now < 0x1_0000_0000 ==> t'.time == t'.now / 10)
    decreases |events|
  {
    if events != [] {
      if events[0].Act? {
        SecondsAreTenTicks(Acted(t, events[0].action), events[1..]);
      } else {
        PollKeepsClock(Advanced(t), 0, events[0].scripts);
        SecondsAreTenTicks(Ticked(t, events[0].scripts), events[1..]);
      }
    }
  }

  // ----- The timer object -----------------------------------------------------------------------------------

  class Timer {
    var slots: seq<Slot>
    var ticks: nat
    var time: nat
    var accepted: seq<Accepted>        // observed
    var fired: seq<(nat, nat)>         // observed
    var now: nat                       // observed
    var cursor: nat                    // observed

    ghost function View(): Timers
      reads this
    {
      Timers(slots, ticks, time, now, cursor, accepted, fired)
    }

    constructor ()
      ensures View() == Init()
    {
      slots, ticks, time, now, cursor, accepted, fired := seq(KERNEL_TIMERS, _ => Empty), 0, 0, 0, KERNEL_TIMERS, [], [];
    }

    method StartKernelTimer(delay: nat) returns (handle: nat)
      requires |slots| == KERNEL_TIMERS && delay < 0x1_0000_0000
      modifies this
      ensures (View(), handle) == Started(old(View()), delay)
    {
      var h := 0;
      while h < KERNEL_TIMERS
        invariant h <= KERNEL_TIMERS
        invariant FirstEmpty(slots) == h + FirstEmpty(slots[h..])
      {
        if slots[h].Empty? {
          break;
        }
        h := h + 1;
      }
      if h >= KERNEL_TIMERS {
        return 0;
      }
      slots := slots[h := Pending(|accepted|, U32(ticks + delay))];
      accepted := accepted + [Accepted(now, delay, h, h >= cursor, Waiting)];
      return h + 1;
    }

    method CancelKernelTimer(handle: nat)
      requires |slots| == KERNEL_TIMERS && 1 <= handle <= KERNEL_TIMERS
      modifies this
      ensures View() == Cancelling(old(View()), handle)
    {
      Record(handle - 1, Cancelled);
      slots := slots[handle - 1 := Empty];
    }

    /** Observation only: notes what becomes of the timer in a slot. */
    method Record(i: nat, fate: Fate)
      requires i < |slots|
      modifies this`accepted
      ensures View() == Settle(old(View()), i, fate).(slots := old(slots))
    {
      if slots[i].Pending? && slots[i].id < |accepted| {
        accepted := accepted[slots[i].id := accepted[slots[i].id].(fate := fate)];
      }
    }

    /** A handler is called: it starts and cancels timers. */
    method CallHandler(script: seq<Action>)
      requires |slots| == KERNEL_TIMERS && forall i :: 0 <= i < |script| ==> Proper(script[i])
      modifies this
      ensures View() == ActedAll(old(View()), script)
    {
      var i := 0;
      while i < |script|
        invariant i <= |script| && |slots| == KERNEL_TIMERS
        invariant ActedAll(View(), script[i..]) == ActedAll(old(View()), script)
      {
        ghost var rest := script[i..];
        assert rest[0] == script[i] && rest[1..] == script[i+1..];
        match script[i] {
          case Start(delay) => var _ := StartKernelTimer(delay);
          case Cancel(handle) => CancelKernelTimer(handle);
        }
        i := i + 1;
      }
    }

    method PollKernelTimers(scripts: Scripts)
      requires |slots| == KERNEL_TIMERS
      modifies this
      ensures View() == PolledFrom(old(View()), 0, scripts)
    {
      var h := 0;
      while h < KERNEL_TIMERS
        invariant h <= KERNEL_TIMERS && |slots| == KERNEL_TIMERS
        invariant PolledFrom(View(), h, scripts) == PolledFrom(old(View()), 0, scripts)
      {
        cursor := h + 1;
        if slots[h].Pending? && Elapsed(slots[h].elapsesAt, ticks) {
          var id := slots[h].id;
          Record(h, Fired(now));
          slots := slots[h := Empty];
          fired := fired + [(id, now)];
          CallHandler(scripts[h]);
        }
        h := h + 1;
      }
    }

    method InterruptHandler(scripts: Scripts)
      requires |slots| == KERNEL_TIMERS
      modifies this
      ensures View() == Ticked(old(View()), scripts)
    {
      now, cursor := now + 1, 0;
      ticks := U32(ticks + 1);
      if ticks % HZ == 0 {
        time := U32(time + 1);
      }
      PollKernelTimers(scripts);
    }
  }
}
