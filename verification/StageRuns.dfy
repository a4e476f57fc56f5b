/** What becomes of one blocking stage, from its submission to the call of its completion routine, while
    interrupts, timers and other stages go on (ext/uspi/lib/dwhcidevice.c lines 707-738). */
module StageRuns {
  import opened FrameSchedulers
  import opened UsbEndpoints
  import opened TransferStages
  import opened HostControllers
  import opened HostRuns
  import opened ToggleRuns

  /** An acknowledged transaction as it appears on the bus. */
  datatype Sent = Sent(pid: Pid, isIn: bool, statusStage: bool)

  /** The transaction on endpoint `e` that the step accounts, if any. */
  ghost function SentIn(d: Device, step: Step, e: nat): seq<Sent>
    requires d.WellFormed() && Legal(d, step)
  {
    if e < |d.pids| && CountsFor(d, step, e) then
      var r := d.stages[step.channel].request;
      [Sent(PidFor(d.pids[e], r.statusStage), r.isIn, r.statusStage)]
    else []
  }

  ghost function Log(d: Device, steps: seq<Step>, e: nat): seq<Sent>
    requires d.WellFormed() && LegalRun(d, steps)
    decreases |steps|
  {
    if steps == [] then [] else SentIn(d, steps[0], e) + Log(Apply(d, steps[0]), steps[1..], e)
  }

  /** No stage of endpoint `e` is in flight. */
  ghost predicate Unused(d: Device, e: nat) {
    d.WellFormed() && forall c: nat :: c < MAX_CHANNELS && c in d.inUse ==> d.stages[c].request.endpoint != e
  }

  /** A control endpoint is used by blocking requests only, and its toggle is never reset. */
  predicate ControlStep(step: Step, e: nat) {
    (step.Submit? && step.request.endpoint == e ==> step.request.blocking) && step != ResetPid(e)
  }

  predicate ControlSteps(steps: seq<Step>, e: nat) {
    forall i :: 0 <= i < |steps| ==> ControlStep(steps[i], e)
  }

  /** The steps that happen until the driver no longer waits. */
  ghost predicate Awaits(d: Device, events: seq<Step>)
    requires d.WellFormed()
    decreases |events|
  {
    if events == [] then !d.waiting
    else d.waiting && Legal(d, events[0]) && Awaits(Apply(d, events[0]), events[1..])
  }

  lemma {:induction false} AwaitsLegal(d: Device, events: seq<Step>)
    requires d.WellFormed() && Awaits(d, events)
    ensures LegalRun(d, events)
    decreases |events|
  {
    if events != [] {
      AwaitsLegal(Apply(d, events[0]), events[1..]);
    }
  }

  // ----- The toggle during a stage --------------------------------------------------------------------------

  /** From `first` on, the acknowledged transactions `log` of a stage lead to the PID `next`. */
  predicate Chain(r: Request, first: Pid, log: seq<Sent>, next: Pid) {
    && (forall i :: 0 <= i < |log| ==> log[i].isIn == r.isIn && log[i].statusStage == r.statusStage)
    && (log == [] ==> next == first)
    && (log != [] ==> log[0].pid == PidFor(first, r.statusStage) && (next.Setup? <==> r.statusStage))
    && (|log| == 1 && first.Setup? && !r.statusStage ==> next.Data1?)
  }

  lemma ChainGrows(r: Request, first: Pid, log: seq<Sent>, next: Pid, packets: nat)
    requires Chain(r, first, log, next)
    ensures Chain(r, first, log + [Sent(PidFor(next, r.statusStage), r.isIn, r.statusStage)], Skipped(next, packets, r.statusStage))
  {}

  function IsSplit(r: Request): bool {
    r.hubAddress != 0 && !r.speed.High?
  }

  /** The packets of a stage that is submitted when the endpoint's next PID is `first`. */
  function StagePackets(r: Request, first: Pid): nat
    requires r.maxPacket > 0
  {
    if r.statusStage then 1 else PacketCount(StageSize(r, first), r.maxPacket)
  }

  /** The stage is in flight on channel `c`, alone on its endpoint, and `log` was acknowledged so far. */
  ghost predicate InProgress(d: Device, c: nat, id: nat, r: Request, first: Pid, log: seq<Sent>) {
    && Inv(d) && Carries(d, c, id) && d.stages[c].request == r && r.blocking && r.maxPacket > 0
    && (forall e: nat :: e < MAX_CHANNELS && e in d.inUse && e != c ==> d.stages[e].request.endpoint != r.endpoint)
    && r.endpoint < |d.pids| && Chain(r, first, log, d.pids[r.endpoint])
    && d.stages[c].transferSize == StageSize(r, first) && d.stages[c].split == IsSplit(r)
    && (if IsSplit(r) then |log| + d.stages[c].packets == StagePackets(r, first) else log == [])
  }

  /** How a stage ends: a stage that succeeds has had all its packets acknowledged if it is split, and its
      transaction if it is not, unless it ended on a NAK or NYET; nothing of a failed stage that is not split was
      acknowledged. */
  ghost predicate Ended(d: Device, id: nat, r: Request, first: Pid, log: seq<Sent>, nak: bool)
    requires r.maxPacket > 0
  {
    && Inv(d) && Unused(d, r.endpoint) && !d.waiting
    && r.endpoint < |d.pids| && Chain(r, first, log, d.pids[r.endpoint])
    && d.completed != []
    && var last := d.completed[|d.completed|-1];
       && last.id == id && last.length <= last.size == StageSize(r, first)
       && (if IsSplit(r) then last.ok ==> !nak && |log| == StagePackets(r, first)
           else last.ok ==> |log| == if nak then 0 else 1)
       && (!last.ok ==> if IsSplit(r) then |log| < StagePackets(r, first) else log == [])
  }

  lemma Waiting(d: Device, c: nat)
    requires Inv(d) && c < MAX_CHANNELS && c in d.inUse && d.stages[c].request.blocking
    ensures d.waiting
  {
    assert Blocks(d, c);
  }

  /** Work on another channel leaves the stage alone. */
  lemma Elsewhere(d: Device, d': Device, b: nat, c: nat, id: nat, r: Request, first: Pid, log: seq<Sent>)
    requires InProgress(d, c, id, r, first, log) && Inv(d') && OthersSame(d, d', b) && b != c && b < MAX_CHANNELS
    requires d'.pids[r.endpoint] == d.pids[r.endpoint]
    requires b in d'.inUse ==> d'.stages[b].request.endpoint != r.endpoint
    ensures InProgress(d', c, id, r, first, log)
  {}

  lemma OtherInterrupt(d: Device, b: nat, hw: Hardware, c: nat, id: nat, r: Request, first: Pid, log: seq<Sent>)
    requires InProgress(d, c, id, r, first, log) && Legal(d, ChannelInterrupt(b, hw)) && b != c
    ensures InProgress(Handled(d, b, hw), c, id, r, first, log) && SentIn(d, ChannelInterrupt(b, hw), r.endpoint) == []
  {
    assert ChannelOk(d, b);
    HandledOk(d, b, hw);
    StepInv(d, ChannelInterrupt(b, hw));
    HandledPids(d, b, hw);
    Elsewhere(d, Handled(d, b, hw), b, c, id, r, first, log);
  }

  lemma OtherStep(d: Device, step: Step, c: nat, id: nat, r: Request, first: Pid, log: seq<Sent>)
    requires InProgress(d, c, id, r, first, log) && Legal(d, step) && ControlStep(step, r.endpoint) && !step.ChannelInterrupt?
    ensures InProgress(Apply(d, step), c, id, r, first, log)
  {
    StepInv(d, step);
    OtherPids(d, step);
    match step
    case Submit(q, hw) =>
      Waiting(d, c);
      SubmittedOk(d, q, hw);
      if FirstFree(d, 0) < d.channels {
        Elsewhere(d, Apply(d, step), FirstFree(d, 0), c, id, r, first, log);
      }
    case Timer(b, hw) =>
      assert ChannelOk(d, b);
      DelayedOk(d, b, hw);
      if b == c {
        DelayedSame(d, c, hw);
      } else {
        Elsewhere(d, Apply(d, step), b, c, id, r, first, log);
      }
    case ResetPid(_) =>
  }

  lemma DelayedSame(d: Device, c: nat, hw: Hardware)
    requires d.WellFormed() && c < MAX_CHANNELS
    ensures var s, t := d.stages[c], Delayed(d, c, hw).stages[c];
            t.packets == s.packets && t.transferSize == s.transferSize && t.split == s.split
  {}

  // ----- An interrupt on the channel of the stage ------------------------------------------------------------

  lemma OwnContinues(d: Device, d': Device, c: nat, id: nat, r: Request, first: Pid, log: seq<Sent>, log': seq<Sent>)
    requires InProgress(d, c, id, r, first, log) && Inv(d') && OthersSame(d, d', c) && c in d'.inUse
    requires d'.stages[c].id == id && d'.stages[c].request == r && d'.stages[c].transferSize == d.stages[c].transferSize && d'.stages[c].split == d.stages[c].split
    requires Chain(r, first, log', d'.pids[r.endpoint])
    requires if IsSplit(r) then |log'| + d'.stages[c].packets == StagePackets(r, first) else log' == []
    ensures InProgress(d', c, id, r, first, log')
  {}

  lemma OwnEnds(d: Device, d': Device, c: nat, id: nat, r: Request, first: Pid, log: seq<Sent>, log': seq<Sent>, ok: bool, nak: bool)
    requires InProgress(d, c, id, r, first, log) && Inv(d') && Ends(d, c, d') && Completes(d, c, ok, d')
    requires Chain(r, first, log', d'.pids[r.endpoint])
    requires if IsSplit(r) then ok ==> !nak && |log'| == StagePackets(r, first) else ok ==> |log'| == if nak then 0 else 1
    requires !ok ==> if IsSplit(r) then |log'| < StagePackets(r, first) else log' == []
    ensures Ended(d', id, r, first, log', nak)
  {
    Waiting(d, c);
    assert forall e: nat :: e < MAX_CHANNELS && e in d'.inUse ==> e in d.inUse && e != c;
  }

  /** An answer that is not accounted. */
  lemma OwnUnaccounted(d: Device, c: nat, hw: Hardware, id: nat, r: Request, first: Pid, log: seq<Sent>)
    requires InProgress(d, c, id, r, first, log) && Legal(d, ChannelInterrupt(c, hw)) && d.masks[c].Armed?
    requires hw.status != NO_STATUS.(halted := true) && !Accounting(d.stages[c], hw.status)
    ensures var d' := Handled(d, c, hw);
            InProgress(d', c, id, r, first, log) || Ended(d', id, r, first, log, hw.status.nak || hw.status.nyet)
  {
    var d' := Handled(d, c, hw);
    assert ChannelOk(d, c);
    HandledOk(d, c, hw);
    StepInv(d, ChannelInterrupt(c, hw));
    AnswerOutcome(d, c, hw);
    if Continues(d, c, d') {
      assert GoesOn(d, c, d.stages[c].packets, d');
      OwnContinues(d, d', c, id, r, first, log, log);
    } else if Completes(d, c, false, d') {
      OwnEnds(d, d', c, id, r, first, log, log, false, hw.status.nak || hw.status.nyet);
    } else {
      OwnEnds(d, d', c, id, r, first, log, log, true, hw.status.nak || hw.status.nyet);
    }
  }

  /** An answer that is accounted. */
  lemma OwnAccounted(d: Device, c: nat, hw: Hardware, id: nat, r: Request, first: Pid, log: seq<Sent>)
    requires InProgress(d, c, id, r, first, log) && Legal(d, ChannelInterrupt(c, hw)) && d.masks[c].Armed?
    requires hw.status != NO_STATUS.(halted := true) && Accounting(d.stages[c], hw.status)
    ensures var d' := Handled(d, c, hw);
            var log' := log + SentIn(d, ChannelInterrupt(c, hw), r.endpoint);
            InProgress(d', c, id, r, first, log') || Ended(d', id, r, first, log', hw.status.nak || hw.status.nyet)
  {
    var d' := Handled(d, c, hw);
    var s := d.stages[c];
    assert ChannelOk(d, c);
    HandledOk(d, c, hw);
    StepInv(d, ChannelInterrupt(c, hw));
    AnswerOutcome(d, c, hw);
    var log' := log + [Sent(PidFor(d.pids[r.endpoint], r.statusStage), r.isIn, r.statusStage)];
    assert SentIn(d, ChannelInterrupt(c, hw), r.endpoint) == [Sent(PidFor(d.pids[r.endpoint], r.statusStage), r.isIn, r.statusStage)];
    ChainGrows(r, first, log, d.pids[r.endpoint], PacketsMoved(s, hw.packetsLeft));
    if s.split && s.packets > 1 {
      OwnContinues(d, d', c, id, r, first, log, log');
    } else {
      OwnEnds(d, d', c, id, r, first, log, log', true, false);
    }
  }

  lemma OwnHalted(d: Device, c: nat, hw: Hardware, id: nat, r: Request, first: Pid, log: seq<Sent>)
    requires InProgress(d, c, id, r, first, log) && Legal(d, ChannelInterrupt(c, hw))
    requires d.masks[c].HaltedOnly? || hw.status == NO_STATUS.(halted := true)
    ensures InProgress(Handled(d, c, hw), c, id, r, first, log)
  {
    assert ChannelOk(d, c);
    HandledOk(d, c, hw);
    StepInv(d, ChannelInterrupt(c, hw));
    StartGoesOn(SetMask(d, c, Off), c, hw);
    OwnContinues(d, Handled(d, c, hw), c, id, r, first, log, log);
  }

  predicate IsNak(step: Step) {
    step.ChannelInterrupt? && (step.hw.status.nak || step.hw.status.nyet)
  }

  /** Every step goes on with the stage or ends it. */
  lemma StageStep(d: Device, step: Step, c: nat, id: nat, r: Request, first: Pid, log: seq<Sent>)
    requires InProgress(d, c, id, r, first, log) && Legal(d, step) && ControlStep(step, r.endpoint)
    ensures var d' := Apply(d, step);
            var log' := log + SentIn(d, step, r.endpoint);
            InProgress(d', c, id, r, first, log') || Ended(d', id, r, first, log', IsNak(step))
  {
    if !step.ChannelInterrupt? {
      OtherStep(d, step, c, id, r, first, log);
      assert log + [] == log;
    } else {
      assert step == ChannelInterrupt(step.channel, step.hw);
      OwnOrOther(d, step.channel, step.hw, c, id, r, first, log);
    }
  }

  lemma OwnOrOther(d: Device, b: nat, hw: Hardware, c: nat, id: nat, r: Request, first: Pid, log: seq<Sent>)
    requires InProgress(d, c, id, r, first, log) && Legal(d, ChannelInterrupt(b, hw))
    ensures var d' := Handled(d, b, hw);
            var log' := log + SentIn(d, ChannelInterrupt(b, hw), r.endpoint);
            InProgress(d', c, id, r, first, log') || Ended(d', id, r, first, log', hw.status.nak || hw.status.nyet)
  {
    assert log + [] == log;
    if b != c {
      OtherInterrupt(d, b, hw, c, id, r, first, log);
    } else if d.masks[c].HaltedOnly? || hw.status == NO_STATUS.(halted := true) {
      OwnHalted(d, c, hw, id, r, first, log);
    } else if Accounting(d.stages[c], hw.status) {
      OwnAccounted(d, c, hw, id, r, first, log);
    } else {
      OwnUnaccounted(d, c, hw, id, r, first, log);
    }
  }

  /** Did the last of these events report a NAK or NYET? */
  predicate EndsOnNak(events: seq<Step>) {
    events != [] && IsNak(events[|events|-1])
  }

  lemma AwaitsStep(d: Device, events: seq<Step>, e: nat, log: seq<Sent>)
    requires d.WellFormed() && events != [] && Awaits(d, events)
    ensures var d' := Apply(d, events[0]);
            && LegalRun(d, events) && LegalRun(d', events[1..]) && Exec(d, events) == Exec(d', events[1..])
            && log + Log(d, events, e) == log + SentIn(d, events[0], e) + Log(d', events[1..], e)
  {
    AwaitsLegal(d, events);
  }

  lemma LastNak(events: seq<Step>)
    requires events != []
    ensures EndsOnNak(events) == if events[1..] == [] then IsNak(events[0]) else EndsOnNak(events[1..])
  {}

  lemma NoMoreEvents(d: Device, events: seq<Step>)
    requires d.WellFormed() && Awaits(d, events) && !d.waiting
    ensures events == [] && LegalRun(d, events) && Exec(d, events) == d && forall e: nat :: Log(d, events, e) == []
  {}

  /** The wait for a stage in flight ends when the stage does. */
  lemma {:induction false} StageRun(d: Device, events: seq<Step>, c: nat, id: nat, r: Request, first: Pid, log: seq<Sent>)
    requires InProgress(d, c, id, r, first, log) && Awaits(d, events) && ControlSteps(events, r.endpoint)
    ensures LegalRun(d, events) && Ended(Exec(d, events), id, r, first, log + Log(d, events, r.endpoint), EndsOnNak(events))
    decreases |events|
  {
    Waiting(d, c);
    var step, rest := events[0], events[1..];
    var d' := Apply(d, step);
    var log' := log + SentIn(d, step, r.endpoint);
    StageStep(d, step, c, id, r, first, log);
    AwaitsStep(d, events, r.endpoint, log);
    LastNak(events);
    if InProgress(d', c, id, r, first, log') {
      Waiting(d', c);
      StageRun(d', rest, c, id, r, first, log');
    } else {
      NoMoreEvents(d', rest);
      assert log' + [] == log';
    }
  }

  // ----- A whole stage -----------------------------------------------------------------------------------------

  /** What the environment does while a stage is carried out: the hardware at its submission, and the steps that
      happen until the driver no longer waits. */
  datatype Script = Script(hw: Hardware, events: seq<Step>)

  /** The script fits: the stage may be submitted and, if a channel is free for it, the steps are those of the
      wait. */
  ghost predicate Plays(d: Device, r: Request, script: Script)
    requires d.WellFormed()
  {
    && r.blocking && Legal(d, Submit(r, script.hw)) && ControlSteps(script.events, r.endpoint)
    && var (d1, accepted) := Submitted(d, r, script.hw);
       if accepted then Awaits(d1, script.events) else script.events == []
  }

  ghost function StageAfter(d: Device, r: Request, script: Script): (d': Device)
    requires d.WellFormed() && Plays(d, r, script)
    ensures d'.WellFormed()
  {
    var d1 := Submitted(d, r, script.hw).0;
    AwaitsLegal2(d1, script.events, Submitted(d, r, script.hw).1);
    Exec(d1, script.events)
  }

  lemma AwaitsLegal2(d: Device, events: seq<Step>, accepted: bool)
    requires d.WellFormed() && if accepted then Awaits(d, events) else events == []
    ensures LegalRun(d, events)
  {
    if accepted {
      AwaitsLegal(d, events);
    }
  }

  /** Does the stage succeed? */
  ghost function Succeeds(d: Device, r: Request, script: Script): bool
    requires d.WellFormed() && Plays(d, r, script)
  {
    Submitted(d, r, script.hw).1 &&
    var done := StageAfter(d, r, script).completed;
    done != [] && done[|done|-1].ok
  }

  ghost function StageLog(d: Device, r: Request, script: Script): seq<Sent>
    requires d.WellFormed() && Plays(d, r, script)
  {
    var d1 := Submitted(d, r, script.hw).0;
    AwaitsLegal2(d1, script.events, Submitted(d, r, script.hw).1);
    Log(d1, script.events, r.endpoint)
  }

  ghost function StageLength(d: Device, r: Request, script: Script): nat
    requires d.WellFormed() && Plays(d, r, script)
  {
    var done := StageAfter(d, r, script).completed;
    if done == [] then 0 else done[|done|-1].length
  }

  lemma StageBegins(d: Device, r: Request, hw: Hardware)
    requires Inv(d) && Legal(d, Submit(r, hw)) && r.blocking && Unused(d, r.endpoint) && FirstFree(d, 0) < d.channels
    ensures InProgress(Submitted(d, r, hw).0, FirstFree(d, 0), d.accepted, r, d.pids[r.endpoint], [])
  {
    var c := FirstFree(d, 0);
    var d' := Submitted(d, r, hw).0;
    SubmittedOk(d, r, hw);
    StepInv(d, Submit(r, hw));
    OtherPids(d, Submit(r, hw));
    var s := FirstStage(d.accepted, r, d.pids[r.endpoint]);
    assert d'.stages[c].packets == s.packets && d'.stages[c].transferSize == s.transferSize && d'.stages[c].split == s.split;
    assert Carries(d', c, d.accepted);
    assert forall e: nat :: e < MAX_CHANNELS && e in d'.inUse && e != c ==> e in d.inUse && d'.stages[e] == d.stages[e];
  }

  /** What a blocking stage comes to. It is rejected without a trace when no channel is free. Otherwise it ends,
      alone on its endpoint, having advanced the toggle by what was acknowledged. */
  ghost predicate Outcome(d: Device, r: Request, script: Script, d': Device, log: seq<Sent>, ok: bool, length: nat)
    requires r.maxPacket > 0
  {
    && Inv(d') && Unused(d', r.endpoint) && !d'.waiting && r.endpoint < |d'.pids| == |d.pids|
    && Chain(r, d.pids[r.endpoint], log, d'.pids[r.endpoint])
    && (ok ==> length <= StageSize(r, d.pids[r.endpoint]))
    && (ok && EndsOnNak(script.events) ==> log == [] && !IsSplit(r))
    && (ok && !EndsOnNak(script.events) ==> |log| == if IsSplit(r) then StagePackets(r, d.pids[r.endpoint]) else 1)
    && (!ok ==> |log| < if IsSplit(r) then StagePackets(r, d.pids[r.endpoint]) else 1)
  }

  lemma StageOutcome(d: Device, r: Request, script: Script)
    requires Inv(d) && Unused(d, r.endpoint) && Plays(d, r, script) && r.maxPacket > 0 && r.endpoint < |d.pids|
    ensures Outcome(d, r, script, StageAfter(d, r, script), StageLog(d, r, script), Succeeds(d, r, script), StageLength(d, r, script))
  {
    SubmittedOk(d, r, script.hw);
    var d1 := Submitted(d, r, script.hw).0;
    if FirstFree(d, 0) < d.channels {
      StageBegins(d, r, script.hw);
      StageRun(d1, script.events, FirstFree(d, 0), d.accepted, r, d.pids[r.endpoint], []);
      assert [] + StageLog(d, r, script) == StageLog(d, r, script);
      SamePids(d1, script.events);
      OtherPids(d, Submit(r, script.hw));
    } else {
      Packets(StageSize(r, d.pids[r.endpoint]), r.maxPacket, 0);
    }
  }

  lemma {:induction false} SamePids(d: Device, steps: seq<Step>)
    requires Inv(d) && LegalRun(d, steps)
    ensures |Exec(d, steps).pids| == |d.pids|
    decreases |steps|
  {
    if steps != [] {
      StepInv(d, steps[0]);
      if steps[0].ChannelInterrupt? {
        HandledPids(d, steps[0].channel, steps[0].hw);
      } else {
        OtherPids(d, steps[0]);
      }
      SamePids(Apply(d, steps[0]), steps[1..]);
    }
  }
}
