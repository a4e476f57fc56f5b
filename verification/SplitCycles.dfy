/** Split cycles on a channel, over whole runs of the host controller driver: one start-split and the
    complete-splits that follow it. */
module SplitCycles {
  import opened FrameSchedulers
  import opened UsbEndpoints
  import opened TransferStages
  import opened HostControllers
  import opened HostRuns

  /** A complete-split as it is issued: after how many answers in its cycle, and in which microframe. */
  datatype Issue = Issue(after: nat, frame: nat)

  /** The last cycle of a channel: the microframe of its start-split, the complete-splits answered, those that
      were only halted and had to be restarted, and those issued. */
  datatype Cycle = Cycle(periodic: bool, start: nat, answered: nat, restarts: nat, issues: seq<Issue>)

  const NO_CYCLE := Cycle(false, 0, 0, 0, [])

  /** How many answers a cycle takes at most. */
  function Most(cy: Cycle): nat {
    if cy.periodic && cy.start == 5 then 3 else 4
  }

  ghost predicate InComplete(d: Device, c: nat)
    requires d.WellFormed() && c < MAX_CHANNELS
  {
    c in d.inUse && d.stages[c].state.CompleteSplitState?
  }

  /** The cycle after an interrupt on channel `c`. */
  ghost function AfterInterrupt(d: Device, c: nat, hw: Hardware, cy: Cycle): Cycle
    requires d.WellFormed() && c < MAX_CHANNELS
  {
    var s, d' := d.stages[c], Handled(d, c, hw);
    var cy1 :=
      if d.masks[c].Armed? && s.state.StartSplitState? && InComplete(d', c) then Cycle(s.IsPeriodic(), s.sched.nextFrame, 0, 0, [])
      else if d.masks[c].Armed? && s.state.CompleteSplitState? then
        if hw.status == NO_STATUS.(halted := true) then cy.(restarts := cy.restarts + 1) else cy.(answered := cy.answered + 1)
      else cy;
    if InComplete(d', c) && d'.masks[c].Armed? then cy1.(issues := cy1.issues + [Issue(cy1.answered, d'.stages[c].sched.nextFrame)])
    else cy1
  }

  ghost function CycleAfter(d: Device, step: Step, c: nat, cy: Cycle): Cycle
    requires d.WellFormed() && c < MAX_CHANNELS
  {
    if step.ChannelInterrupt? && step.channel == c then AfterInterrupt(d, c, step.hw, cy) else cy
  }

  ghost function LastCycle(d: Device, steps: seq<Step>, c: nat, cy: Cycle): Cycle
    requires d.WellFormed() && LegalRun(d, steps) && c < MAX_CHANNELS
    decreases |steps|
  {
    if steps == [] then cy else LastCycle(Apply(d, steps[0]), steps[1..], c, CycleAfter(d, steps[0], c, cy))
  }

  // ----- The invariant ------------------------------------------------------------------------------------

  predicate IssueOk(cy: Cycle, i: nat)
    requires i < |cy.issues|
  {
    && cy.issues[i].after < Most(cy) && cy.issues[i].after <= i
    && (cy.restarts == 0 ==> cy.issues[i].after == i)
    && (cy.periodic ==> cy.issues[i].frame == (cy.start + 2 + cy.issues[i].after) % 8)
  }

  predicate CycleOk(cy: Cycle) {
    && cy.answered <= Most(cy) && (cy.periodic ==> cy.start < 8 && cy.start != 6)
    && forall i :: 0 <= i < |cy.issues| ==> IssueOk(cy, i)
  }

  /** A stage in a cycle has tries left for the answers still to come. */
  predicate InCycle(s: Stage, cy: Cycle) {
    && cy.periodic == s.IsPeriodic() && cy.answered + s.sched.tries + 1 <= Most(cy)
    && (cy.periodic ==> s.sched.nextFrame == (cy.start + 2 + cy.answered) % 8)
  }

  /** The frame of a start-split is still to be chosen, or it is not 6. */
  predicate FrameOk(s: Stage, m: Mask) {
    s.state.StartSplitState? && s.IsPeriodic() ==>
      && (s.sched.nextFrame == FRAME_UNSET || (s.sched.nextFrame < 8 && s.sched.nextFrame != 6))
      && (m.Armed? ==> s.sched.nextFrame != FRAME_UNSET)
  }

  ghost predicate Outstanding(d: Device, c: nat)
    requires d.WellFormed() && c < MAX_CHANNELS
  {
    InComplete(d, c) && d.masks[c].Armed?
  }

  ghost predicate Tracked(d: Device, c: nat, cy: Cycle) {
    && d.WellFormed() && c < MAX_CHANNELS && CycleOk(cy)
    && (InComplete(d, c) ==> InCycle(d.stages[c], cy))
    && (c in d.inUse ==> FrameOk(d.stages[c], d.masks[c]))
    && |cy.issues| == cy.answered + cy.restarts + (if Outstanding(d, c) then 1 else 0)
  }

  // ----- Each step keeps it --------------------------------------------------------------------------------

  /** The channel is about to go on with its cycle, which has nothing outstanding. */
  ghost predicate Ready(d: Device, c: nat, cy: Cycle) {
    && d.WellFormed() && c < MAX_CHANNELS && c in d.inUse && CycleOk(cy)
    && (d.stages[c].state.CompleteSplitState? ==> InCycle(d.stages[c], cy))
    && (d.stages[c].state.StartSplitState? || d.stages[c].state.CompleteSplitState? ==> d.stages[c].sched.kind == (if d.stages[c].IsPeriodic() then Periodic else NonPeriodic) && d.stages[c].schedulerUsed)
    && (d.stages[c].state.CompleteSplitState? ==> d.stages[c].sched.nextFrame < FRAME_UNSET || !d.stages[c].sched.kind.Periodic?)
    && FrameOk(d.stages[c], Off)
    && |cy.issues| == cy.answered + cy.restarts
  }

  /** The cycle when channel `c` may just have issued a complete-split. */
  ghost function Issued(d: Device, c: nat, cy: Cycle): Cycle
    requires d.WellFormed() && c < MAX_CHANNELS
  {
    if Outstanding(d, c) then cy.(issues := cy.issues + [Issue(cy.answered, d.stages[c].sched.nextFrame)]) else cy
  }

  lemma IssueKeeps(cy: Cycle, frame: nat)
    requires CycleOk(cy) && |cy.issues| == cy.answered + cy.restarts && cy.answered < Most(cy)
    requires cy.periodic ==> frame == (cy.start + 2 + cy.answered) % 8
    ensures CycleOk(cy.(issues := cy.issues + [Issue(cy.answered, frame)]))
  {
    var cy' := cy.(issues := cy.issues + [Issue(cy.answered, frame)]);
    forall i | 0 <= i < |cy'.issues|
      ensures IssueOk(cy', i)
    {
      assert i < |cy.issues| ==> IssueOk(cy, i) && cy'.issues[i] == cy.issues[i];
    }
  }

  lemma StartIssues(d: Device, c: nat, hw: Hardware, cy: Cycle)
    requires Ready(d, c, cy)
    ensures Tracked(StartTransaction(d, c, hw), c, Issued(StartTransaction(d, c, hw), c, cy))
    ensures Tracked(StartChannel(d, c, hw), c, Issued(StartChannel(d, c, hw), c, cy))
  {
    if d.stages[c].state.CompleteSplitState? {
      assert StartChannel(d, c, hw).stages[c].sched.nextFrame == d.stages[c].sched.nextFrame;
      IssueKeeps(cy, d.stages[c].sched.nextFrame);
    }
  }

  /** An answered start-split opens a cycle. */
  lemma StartAnswered(d1: Device, c: nat, hw: Hardware, cy: Cycle)
    requires d1.WellFormed() && c < MAX_CHANNELS && c in d1.inUse && c < d1.channels && Settled(d1.stages[c]) && SchedOk(d1.stages[c])
    requires d1.stages[c].state.StartSplitState? && FrameOk(d1.stages[c], Armed) && CycleOk(cy) && |cy.issues| == cy.answered + cy.restarts
    ensures var s, d' := d1.stages[c], Advanced(d1, c, hw);
            var cy1 := if InComplete(d', c) then Cycle(s.IsPeriodic(), s.sched.nextFrame, 0, 0, []) else cy;
            Tracked(d', c, Issued(d', c, cy1))
  {
    var s := d1.stages[c];
    if Counts(s.status) {
      var (sched, more) := NextSplit(Transacted(s.sched, s.status));
      var d2 := SetStage(d1, c, s.(state := CompleteSplitState, splitComplete := true, sched := sched));
      StartIssues(d2, c, hw, Cycle(s.IsPeriodic(), s.sched.nextFrame, 0, 0, []));
    }
  }

  lemma NextFrame(start: nat, k: nat)
    ensures ((start + 2 + k) % 8 + 1) % 8 == (start + 2 + (k + 1)) % 8
  {}

  lemma AnsweredKeeps(cy: Cycle)
    requires CycleOk(cy) && cy.answered < Most(cy)
    ensures CycleOk(cy.(answered := cy.answered + 1))
  {
    var cy' := cy.(answered := cy.answered + 1);
    forall i | 0 <= i < |cy'.issues|
      ensures IssueOk(cy', i)
    {
      assert IssueOk(cy, i);
    }
  }

  lemma RestartKeeps(cy: Cycle)
    requires CycleOk(cy)
    ensures CycleOk(cy.(restarts := cy.restarts + 1))
  {
    var cy' := cy.(restarts := cy.restarts + 1);
    forall i | 0 <= i < |cy'.issues|
      ensures IssueOk(cy', i)
    {
      assert IssueOk(cy, i);
    }
  }

  lemma NextInCycle(s: Stage, cy: Cycle)
    requires SchedOk(s) && s.split && s.sched.phase in {CompleteSplit, CompleteRetry} && InCycle(s, cy) && MayTransact(s.sched, s.status)
    requires NextSplit(Transacted(s.sched, s.status)).1
    ensures var sched := NextSplit(Transacted(s.sched, s.status)).0;
            && InCycle(s.(sched := sched), cy.(answered := cy.answered + 1)) && sched.kind == s.sched.kind
            && (sched.kind.Periodic? ==> sched.nextFrame < FRAME_UNSET)
  {
    AnotherSplit(s.sched, s.status);
    NextFrame(cy.start, cy.answered);
  }

  /** An answered complete-split uses up a try and a microframe, or ends the cycle. */
  lemma CompleteAnswered(d1: Device, c: nat, hw: Hardware, cy: Cycle)
    requires d1.WellFormed() && c < MAX_CHANNELS && c in d1.inUse && c < d1.channels && Settled(d1.stages[c]) && SchedOk(d1.stages[c])
    requires d1.stages[c].state.CompleteSplitState? && InCycle(d1.stages[c], cy) && CycleOk(cy) && |cy.issues| == cy.answered + cy.restarts + 1
    ensures var d' := Advanced(d1, c, hw);
            Tracked(d', c, Issued(d', c, cy.(answered := cy.answered + 1)))
  {
    var s := d1.stages[c];
    var cy1 := cy.(answered := cy.answered + 1);
    AnsweredKeeps(cy);
    if !s.status.error {
      var (sched, more) := NextSplit(Transacted(s.sched, s.status));
      var d2 := SetStage(d1, c, s.(sched := sched));
      if more {
        NextInCycle(s, cy);
        StartIssues(d2, c, hw, cy1);
      } else {
        LeaveTracked(d2, c, hw, cy1);
      }
    }
  }

  lemma LeaveTracked(d: Device, c: nat, hw: Hardware, cy: Cycle)
    requires d.WellFormed() && c < MAX_CHANNELS && c in d.inUse && c < d.channels && SchedOk(d.stages[c]) && d.stages[c].split
    requires CycleOk(cy) && |cy.issues| == cy.answered + cy.restarts
    ensures var d' := LeaveCompleteSplit(d, c, hw); Tracked(d', c, Issued(d', c, cy))
  {
    var s := d.stages[c];
    if !s.IsComplete() && !s.IsPeriodic() {
      StartIssues(SetStage(d, c, s.(state := StartSplitState, splitComplete := false, sched := Started(s.sched))), c, hw, cy);
    }
  }

  lemma PlainAnswered(d1: Device, c: nat, hw: Hardware, cy: Cycle)
    requires d1.WellFormed() && c < MAX_CHANNELS && c in d1.inUse && c < d1.channels && d1.stages[c].state.NoSplitTransfer?
    requires CycleOk(cy) && |cy.issues| == cy.answered + cy.restarts
    ensures Tracked(Advanced(d1, c, hw), c, cy)
  {}

  lemma AnsweredTracked(d: Device, c: nat, hw: Hardware, cy: Cycle)
    requires Inv(d) && Legal(d, ChannelInterrupt(c, hw)) && Tracked(d, c, cy)
    requires d.masks[c].Armed? && hw.status != NO_STATUS.(halted := true)
    ensures Tracked(Handled(d, c, hw), c, AfterInterrupt(d, c, hw, cy))
  {
    assert ChannelOk(d, c);
    var s := d.stages[c];
    AccountedSettles(s, d.masks[c], hw);
    var pid := PidAfter(s, d.pids[s.request.endpoint], hw.status, hw.packetsLeft);
    var d1 := SetStage(SetMask(d, c, Off), c, Accounted(s, hw.status, hw.packetsLeft, hw.bytesLeft)).(pids := d.pids[s.request.endpoint := pid]);
    assert Handled(d, c, hw) == Advanced(d1, c, hw);
    match s.state
    case NoSplitTransfer => PlainAnswered(d1, c, hw, cy);
    case StartSplitState => StartAnswered(d1, c, hw, cy);
    case CompleteSplitState => CompleteAnswered(d1, c, hw, cy);
    case _ =>
  }

  lemma HaltedTracked(d: Device, c: nat, hw: Hardware, cy: Cycle)
    requires Inv(d) && Legal(d, ChannelInterrupt(c, hw)) && Tracked(d, c, cy)
    requires d.masks[c].HaltedOnly? || hw.status == NO_STATUS.(halted := true)
    ensures Tracked(Handled(d, c, hw), c, AfterInterrupt(d, c, hw, cy))
  {
    assert ChannelOk(d, c);
    var d0 := SetMask(d, c, Off);
    RestartKeeps(cy);
    var cy1 := if d.masks[c].Armed? && d.stages[c].state.CompleteSplitState? then cy.(restarts := cy.restarts + 1) else cy;
    StartIssues(d0, c, hw, cy1);
  }

  lemma ElsewhereTracked(d: Device, d': Device, e: nat, c: nat, cy: Cycle)
    requires Tracked(d, c, cy) && OthersSame(d, d', e) && e != c
    ensures Tracked(d', c, cy)
  {}

  lemma SubmittedTracked(d: Device, r: Request, hw: Hardware, c: nat, cy: Cycle)
    requires Inv(d) && Legal(d, Submit(r, hw)) && Tracked(d, c, cy)
    ensures Tracked(Submitted(d, r, hw).0, c, cy)
  {
    SubmittedOk(d, r, hw);
    var f := FirstFree(d, 0);
    if f < d.channels && f == c {
      var s := FirstStage(d.accepted, r, d.pids[r.endpoint]);
      FirstStageMayStart(d.accepted, r, d.pids[r.endpoint]);
      var d1 := SetStage(d, c, s).(inUse := d.inUse + {c}, enabled := d.enabled + {c},
                                   accepted := d.accepted + 1, waiting := d.waiting || r.blocking);
      StartIssues(d1, c, hw, cy);
    } else if f < d.channels {
      ElsewhereTracked(d, Submitted(d, r, hw).0, f, c, cy);
    }
  }

  lemma DelayedTracked(d: Device, hw: Hardware, c: nat, cy: Cycle)
    requires Inv(d) && Legal(d, Timer(c, hw)) && Tracked(d, c, cy)
    ensures Tracked(Delayed(d, c, hw), c, cy)
  {
    assert ChannelOk(d, c);
    var d0 := d.(timers := d.timers - {c});
    var s := d0.stages[c];
    if s.split {
      StartIssues(SetStage(d0, c, s.(state := StartSplitState, splitComplete := false, sched := Started(s.sched))), c, hw, cy);
    } else {
      StartIssues(SetStage(d0, c, s.(state := NoSplitTransfer)), c, hw, cy);
    }
  }

  lemma StepTracked(d: Device, step: Step, c: nat, cy: Cycle)
    requires Inv(d) && Legal(d, step) && Tracked(d, c, cy)
    ensures Tracked(Apply(d, step), c, CycleAfter(d, step, c, cy))
  {
    match step
    case Submit(r, hw) => SubmittedTracked(d, r, hw, c, cy);
    case ChannelInterrupt(e, hw) =>
      if e != c {
        HandledOk(d, e, hw);
        ElsewhereTracked(d, Handled(d, e, hw), e, c, cy);
      } else if d.masks[c].HaltedOnly? || hw.status == NO_STATUS.(halted := true) {
        HaltedTracked(d, c, hw, cy);
      } else {
        AnsweredTracked(d, c, hw, cy);
      }
    case Timer(e, hw) =>
      if e != c {
        DelayedOk(d, e, hw);
        ElsewhereTracked(d, Delayed(d, e, hw), e, c, cy);
      } else {
        DelayedTracked(d, hw, c, cy);
      }
    case ResetPid(_) =>
  }

  lemma {:induction false} RunTracked(d: Device, steps: seq<Step>, c: nat, cy: Cycle)
    requires Inv(d) && LegalRun(d, steps) && Tracked(d, c, cy)
    ensures Tracked(Exec(d, steps), c, LastCycle(d, steps, c, cy))
    decreases |steps|
  {
    if steps != [] {
      StepInv(d, steps[0]);
      StepTracked(d, steps[0], c, cy);
      RunTracked(Apply(d, steps[0]), steps[1..], c, CycleAfter(d, steps[0], c, cy));
    }
  }

  /** Over every legal run and on every channel: a start-split is followed by at most 4 answered complete-splits,
      3 if it is periodic and went out in microframe 5; it never goes out in 6. Complete-splits issued beyond
      those answered are restarts of halted ones and at most one outstanding. A periodic one after k answers is
      issued in microframe start + 2 + k; so without restarts they use start + 2, start + 3, ... in turn. */
  lemma SplitCyclesOverRuns(channels: nat, stages: seq<Stage>, pids: seq<Pid>, steps: seq<Step>, c: nat, i: nat)
    requires channels <= MAX_CHANNELS && |stages| == MAX_CHANNELS && c < MAX_CHANNELS
    requires LegalRun(Init(channels, stages, pids), steps)
    ensures var cy := LastCycle(Init(channels, stages, pids), steps, c, NO_CYCLE);
            && cy.answered <= (if cy.periodic && cy.start == 5 then 3 else 4)
            && cy.answered + cy.restarts <= |cy.issues| <= cy.answered + cy.restarts + 1
            && |cy.issues| <= (if cy.periodic && cy.start == 5 then 3 else 4) + cy.restarts
            && (cy.periodic ==> cy.start < 8 && cy.start != 6)
            && (cy.periodic && i < |cy.issues| ==> cy.issues[i].frame == (cy.start + 2 + cy.issues[i].after) % 8)
            && (cy.periodic && cy.restarts == 0 && i < |cy.issues| ==> cy.issues[i].frame == (cy.start + 2 + i) % 8)
  {
    var d0 := Init(channels, stages, pids);
    RunTracked(d0, steps, c, NO_CYCLE);
    var cy := LastCycle(d0, steps, c, NO_CYCLE);
    if i < |cy.issues| {
      assert IssueOk(cy, i);
    }
  }

  /** A halted complete-split is issued again as it was: restarts use up no try and repeat the microframe, so
      nothing bounds them. */
  lemma RestartRepeats(d: Device, c: nat, hw: Hardware)
    requires Inv(d) && c < MAX_CHANNELS && Outstanding(d, c) && hw.status == NO_STATUS.(halted := true) && !hw.stillEnabled
    ensures Legal(d, ChannelInterrupt(c, hw))
    ensures var d' := Handled(d, c, hw);
            Outstanding(d', c) && d'.stages[c].sched.tries == d.stages[c].sched.tries
            && (d.stages[c].sched.nextFrame != FRAME_UNSET ==> d'.stages[c] == d.stages[c])
  {
    assert ChannelOk(d, c);
  }
}
