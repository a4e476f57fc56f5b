/** What every legal run of the host controller driver keeps. */
module HostRuns {
  import opened FrameSchedulers
  import opened UsbEndpoints
  import opened TransferStages
  import opened HostControllers

  ghost predicate SchedOk(s: Stage) {
    && s.sched.nextFrame <= 0x4000
    && (s.split ==> s.schedulerUsed && s.sched.kind == (if s.IsPeriodic() then Periodic else NonPeriodic) && s.sched.nextFrame <= FRAME_UNSET)
  }

  /** A stage in progress and the interrupt mask of its channel. */
  ghost predicate StageOk(s: Stage, m: Mask) {
    && SchedOk(s) && AtStart(s)
    && (match s.state
        case NoSplitTransfer => !s.split && !m.Off?
        case StartSplitState => s.split && !s.splitComplete && s.sched.phase.StartSplit? && !m.Off?
        case CompleteSplitState => s.split && s.splitComplete && s.sched.phase in {CompleteSplit, CompleteRetry} && s.sched.tries <= 3 && !m.Off?
        case PeriodicDelay => s.IsPeriodic() && m.Off?
        case UnknownState => false)
    && (m.HaltedOnly? ==> s.subState.WaitForChannelDisable?)
    && (m.Armed? ==> s.subState.WaitForTransactionComplete?)
  }

  /** A channel's bit is set and its interrupt enabled exactly while it carries a stage; only then can
      its mask be armed or a timer run for it, and never both. */
  ghost predicate ChannelOk(d: Device, c: nat)
    requires d.WellFormed() && c < MAX_CHANNELS
  {
    && (c in d.inUse <==> c in d.enabled)
    && (c in d.inUse ==> c < d.channels && StageOk(d.stages[c], d.masks[c]) && d.stages[c].request.endpoint < |d.pids|)
    && (c !in d.inUse ==> d.masks[c].Off? && c !in d.timers)
    && (c in d.timers ==> d.stages[c].state.PeriodicDelay?)
  }

  ghost predicate Carries(d: Device, c: nat, id: nat) {
    d.WellFormed() && c < MAX_CHANNELS && c in d.inUse && d.stages[c].id == id
  }

  ghost predicate InFlight(d: Device, id: nat) {
    exists c: nat :: Carries(d, c, id)
  }

  ghost predicate Blocks(d: Device, c: nat) {
    d.WellFormed() && c < MAX_CHANNELS && c in d.inUse && d.stages[c].request.blocking
  }

  ghost function Times(log: seq<Completion>, id: nat): nat {
    if log == [] then 0 else Times(log[..|log|-1], id) + if log[|log|-1].id == id then 1 else 0
  }

  /** Every accepted stage is either in flight, on one channel, or was completed, once. */
  ghost predicate Ids(d: Device) {
    && (forall c: nat, e: nat, id: nat :: Carries(d, c, id) && Carries(d, e, id) ==> c == e)
    && (forall id: nat :: InFlight(d, id) ==> id < d.accepted)
    && (forall id: nat :: Times(d.completed, id) == if id < d.accepted && !InFlight(d, id) then 1 else 0)
  }

  /** `m_bWaiting` is set exactly while a blocking stage is in flight, and there is at most one. */
  ghost predicate Waits(d: Device) {
    && (forall c: nat, e: nat :: Blocks(d, c) && Blocks(d, e) ==> c == e)
    && (d.waiting <==> exists c: nat :: Blocks(d, c))
  }

  ghost predicate Inv(d: Device) {
    && d.WellFormed() && !d.failed
    && (forall c: nat :: c < MAX_CHANNELS ==> ChannelOk(d, c))
    && (forall c :: c in d.inUse ==> c < d.channels)
    && Ids(d) && Waits(d)
    && (forall x :: x in d.completed ==> x.length <= x.size)
  }

  /** Channels other than `c` are left alone. */
  ghost predicate OthersSame(d: Device, d': Device, c: nat) {
    && d.WellFormed() && d'.WellFormed() && d'.channels == d.channels && |d'.pids| == |d.pids|
    && (forall e: nat :: e < MAX_CHANNELS && e != c ==>
          && (e in d'.inUse <==> e in d.inUse) && (e in d'.enabled <==> e in d.enabled) && (e in d'.timers <==> e in d.timers)
          && d'.masks[e] == d.masks[e] && d'.stages[e] == d.stages[e])
  }

  /** Channel `c` goes on with its stage. */
  ghost predicate Continues(d: Device, c: nat, d': Device) {
    && c < MAX_CHANNELS && OthersSame(d, d', c) && c in d.inUse && d'.inUse == d.inUse
    && d'.stages[c].id == d.stages[c].id && d'.stages[c].request == d.stages[c].request
    && d'.accepted == d.accepted && d'.completed == d.completed && d'.waiting == d.waiting && !d'.failed
    && ChannelOk(d', c)
  }

  /** The stage of channel `c` ends. */
  ghost predicate Ends(d: Device, c: nat, d': Device) {
    && c < MAX_CHANNELS && OthersSame(d, d', c) && c in d.inUse && d'.inUse == d.inUse - {c}
    && d'.accepted == d.accepted && !d'.failed && d'.waiting == (d.waiting && !d.stages[c].request.blocking)
    && (exists ok: bool, length: nat, size: nat :: length <= size && d'.completed == d.completed + [Completion(d.stages[c].id, ok, length, size)])
    && ChannelOk(d', c)
  }

  lemma ContinuesInv(d: Device, c: nat, d': Device)
    requires Inv(d) && Continues(d, c, d')
    ensures Inv(d')
  {
    forall e: nat | e < MAX_CHANNELS
      ensures ChannelOk(d', e)
    {
      assert ChannelOk(d, e);
    }
    assert forall e: nat, id: nat :: Carries(d', e, id) <==> Carries(d, e, id);
    forall id: nat
      ensures InFlight(d', id) <==> InFlight(d, id)
    {
      if InFlight(d, id) { var e: nat :| Carries(d, e, id); assert Carries(d', e, id); }
    }
    assert forall e: nat :: Blocks(d', e) <==> Blocks(d, e);
    if e: nat :| Blocks(d, e) { assert Blocks(d', e); }
  }

  lemma EndsIds(d: Device, c: nat, d': Device)
    requires Ids(d) && Ends(d, c, d')
    ensures Ids(d')
  {
    var me := d.stages[c].id;
    assert Carries(d, c, me) && InFlight(d, me);
    forall e: nat, id: nat
      ensures Carries(d', e, id) <==> Carries(d, e, id) && e != c
    {}
    forall id: nat
      ensures InFlight(d', id) <==> InFlight(d, id) && id != me
    {
      if InFlight(d, id) && id != me { var e: nat :| Carries(d, e, id); assert Carries(d', e, id); }
    }
    assert d'.completed[..|d'.completed|-1] == d.completed && d'.completed[|d'.completed|-1].id == me;
    assert forall id: nat :: Times(d'.completed, id) == Times(d.completed, id) + if id == me then 1 else 0;
  }

  lemma EndsWaits(d: Device, c: nat, d': Device)
    requires Waits(d) && Ends(d, c, d')
    ensures Waits(d')
  {
    assert forall e: nat :: Blocks(d', e) <==> Blocks(d, e) && e != c;
    if d.stages[c].request.blocking {
      assert Blocks(d, c);
    } else if e: nat :| Blocks(d, e) {
      assert Blocks(d', e);
    }
  }

  lemma EndsInv(d: Device, c: nat, d': Device)
    requires Inv(d) && Ends(d, c, d')
    ensures Inv(d')
  {
    forall e: nat | e < MAX_CHANNELS
      ensures ChannelOk(d', e)
    {
      assert ChannelOk(d, e);
    }
    EndsIds(d, c, d');
    EndsWaits(d, c, d');
  }

  // ----- Each handler either goes on with the stage or ends it -----------------------------------

  /** In the middle of a step that works on channel `c`, with its mask cleared. */
  ghost predicate Midway(d: Device, c: nat, d1: Device) {
    && d1.WellFormed() && c < MAX_CHANNELS && OthersSame(d, d1, c) && c in d.inUse && d1.inUse == d.inUse
    && d1.stages[c].id == d.stages[c].id && d1.stages[c].request == d.stages[c].request
    && d1.accepted == d.accepted && d1.completed == d.completed && d1.waiting == d.waiting && !d1.failed
    && c in d1.enabled && c !in d1.timers && c < d1.channels && d1.stages[c].request.endpoint < |d1.pids|
    && d1.masks[c].Off? && SchedOk(d1.stages[c])
  }

  ghost predicate MayStart(s: Stage) {
    AtStart(s) &&
    match s.state
    case NoSplitTransfer => !s.split
    case StartSplitState => s.split && !s.splitComplete && s.sched.phase.StartSplit?
    case CompleteSplitState => s.split && s.splitComplete && s.sched.phase in {CompleteSplit, CompleteRetry} && s.sched.tries <= 3
    case _ => false
  }

  lemma StartStage(s: Stage, frame: nat)
    requires MayStart(s) && SchedOk(s)
    ensures StageOk(s.(subState := WaitForTransactionComplete, sched := if s.schedulerUsed then Waited(s.sched, frame) else s.sched), Armed)
    ensures StageOk(s.(subState := WaitForChannelDisable), HaltedOnly)
  {}

  /** Replacing the stage and the mask of channel `c` by good ones goes on with it. */
  lemma PutContinues(d: Device, c: nat, d1: Device, s: Stage, m: Mask)
    requires Midway(d, c, d1) && s.id == d1.stages[c].id && s.request == d1.stages[c].request && StageOk(s, m)
    ensures Continues(d, c, SetMask(SetStage(d1, c, s), c, m))
  {}

  lemma StartContinues(d: Device, c: nat, hw: Hardware, d1: Device)
    requires Midway(d, c, d1) && MayStart(d1.stages[c])
    ensures Continues(d, c, StartTransaction(d1, c, hw))
    ensures Continues(d, c, StartChannel(d1, c, hw))
  {
    var s := d1.stages[c];
    StartStage(s, hw.frame);
    PutContinues(d, c, d1, s.(subState := WaitForTransactionComplete, sched := if s.schedulerUsed then Waited(s.sched, hw.frame) else s.sched), Armed);
    PutContinues(d, c, d1, s.(subState := WaitForChannelDisable), HaltedOnly);
  }

  lemma FinishEnds(d: Device, c: nat, ok: bool, d1: Device)
    requires Midway(d, c, d1)
    ensures Ends(d, c, Finish(d1, c, ok))
  {
    var s := d1.stages[c];
    var length := if ok && !s.request.statusStage then s.ResultLen() else 0;
    assert length <= s.transferSize && Finish(d1, c, ok).completed == d.completed + [Completion(d.stages[c].id, ok, length, s.transferSize)];
  }

  lemma DelayContinues(d: Device, c: nat, hw: Hardware, d1: Device)
    requires Midway(d, c, d1) && AtStart(d1.stages[c]) && d1.stages[c].IsPeriodic()
    ensures Continues(d, c, Delay(d1, c, hw))
  {}

  lemma LeaveOk(d: Device, c: nat, hw: Hardware, d1: Device)
    requires Midway(d, c, d1) && d1.stages[c].split && (d1.stages[c].packets > 0 ==> AtStart(d1.stages[c]))
    ensures Continues(d, c, LeaveCompleteSplit(d1, c, hw)) || Ends(d, c, LeaveCompleteSplit(d1, c, hw))
  {
    var s := d1.stages[c];
    if s.IsComplete() {
      FinishEnds(d, c, true, d1);
    } else if s.IsPeriodic() {
      DelayContinues(d, c, hw, d1);
    } else {
      StartContinues(d, c, hw, SetStage(d1, c, s.(state := StartSplitState, splitComplete := false, sched := Started(s.sched))));
    }
  }

  /** What accounting leaves behind, by the state of the stage. */
  ghost predicate Settled(s: Stage) {
    && (s.packets > 0 && (s.split || !Counts(s.status)) ==> AtStart(s))
    && (match s.state
        case NoSplitTransfer => !s.split && (!Counts(s.status) ==> s.packets > 0)
        case StartSplitState => s.split && !s.splitComplete && s.sched.phase.StartSplit? && s.packets > 0 && (Counts(s.status) ==> s.status.ack)
        case CompleteSplitState =>
          && s.split && s.splitComplete && s.sched.phase in {CompleteSplit, CompleteRetry} && s.sched.tries <= 3
          && (s.status.error || s.status.xferComplete || s.status.ack || s.status.nak || s.status.nyet)
          && (!s.status.error && !s.status.xferComplete ==> s.packets > 0 || s.sched.tries == 0)
        case _ => false)
  }

  lemma AdvancedPlain(d: Device, c: nat, hw: Hardware, d1: Device)
    requires Midway(d, c, d1) && Settled(d1.stages[c]) && d1.stages[c].state.NoSplitTransfer?
    ensures Continues(d, c, Advanced(d1, c, hw)) || Ends(d, c, Advanced(d1, c, hw))
  {
    var s := d1.stages[c];
    if !s.status.error && (s.status.nak || s.status.nyet) && s.IsPeriodic() {
      DelayContinues(d, c, hw, d1);
    } else {
      FinishEnds(d, c, !s.status.error, d1);
    }
  }

  lemma AdvancedStart(d: Device, c: nat, hw: Hardware, d1: Device)
    requires Midway(d, c, d1) && Settled(d1.stages[c]) && d1.stages[c].state.StartSplitState?
    ensures Continues(d, c, Advanced(d1, c, hw)) || Ends(d, c, Advanced(d1, c, hw))
  {
    var s := d1.stages[c];
    if Counts(s.status) {
      var (sched, more) := NextSplit(Transacted(s.sched, s.status));
      StartContinues(d, c, hw, SetStage(d1, c, s.(state := CompleteSplitState, splitComplete := true, sched := sched)));
    } else {
      FinishEnds(d, c, false, d1);
    }
  }

  lemma AdvancedComplete(d: Device, c: nat, hw: Hardware, d1: Device)
    requires Midway(d, c, d1) && Settled(d1.stages[c]) && d1.stages[c].state.CompleteSplitState?
    ensures Continues(d, c, Advanced(d1, c, hw)) || Ends(d, c, Advanced(d1, c, hw))
  {
    var s := d1.stages[c];
    if s.status.error {
      FinishEnds(d, c, false, d1);
    } else {
      var (sched, more) := NextSplit(Transacted(s.sched, s.status));
      var d2 := SetStage(d1, c, s.(sched := sched));
      if more {
        StartContinues(d, c, hw, d2);
      } else {
        LeaveOk(d, c, hw, d2);
      }
    }
  }

  lemma AdvancedOk(d: Device, c: nat, hw: Hardware, d1: Device)
    requires Midway(d, c, d1) && Settled(d1.stages[c])
    ensures Continues(d, c, Advanced(d1, c, hw)) || Ends(d, c, Advanced(d1, c, hw))
  {
    match d1.stages[c].state
    case NoSplitTransfer => AdvancedPlain(d, c, hw, d1);
    case StartSplitState => AdvancedStart(d, c, hw, d1);
    case CompleteSplitState => AdvancedComplete(d, c, hw, d1);
    case _ =>
  }

  lemma CompleteSplitSettles(s: Stage, hw: Hardware)
    requires AtStart(s) && SchedOk(s) && s.split && s.splitComplete && Possible(s, hw.status, hw.packetsLeft, hw.bytesLeft)
    requires s.state.CompleteSplitState? && s.sched.phase in {CompleteSplit, CompleteRetry} && s.sched.tries <= 3
    ensures MayAccount(s, hw.status, hw.packetsLeft, hw.bytesLeft)
    ensures Settled(Accounted(s, hw.status, hw.packetsLeft, hw.bytesLeft))
  {
    if Counts(hw.status) {
      CompleteSplitMoves(s, hw.status, hw.packetsLeft, hw.bytesLeft);
    }
  }

  lemma StartSplitSettles(s: Stage, hw: Hardware)
    requires AtStart(s) && SchedOk(s) && s.split && !s.splitComplete && Possible(s, hw.status, hw.packetsLeft, hw.bytesLeft)
    requires s.state.StartSplitState? && s.sched.phase.StartSplit?
    ensures MayAccount(s, hw.status, hw.packetsLeft, hw.bytesLeft)
    ensures Settled(Accounted(s, hw.status, hw.packetsLeft, hw.bytesLeft))
  {
    StartSplitMovesNothing(s, hw.status, hw.packetsLeft, hw.bytesLeft);
  }

  lemma AccountedSettles(s: Stage, m: Mask, hw: Hardware)
    requires StageOk(s, m) && m.Armed? && Possible(s, hw.status, hw.packetsLeft, hw.bytesLeft)
    ensures MayAccount(s, hw.status, hw.packetsLeft, hw.bytesLeft)
    ensures Settled(Accounted(s, hw.status, hw.packetsLeft, hw.bytesLeft))
    ensures SchedOk(Accounted(s, hw.status, hw.packetsLeft, hw.bytesLeft))
  {
    match s.state
    case NoSplitTransfer => PlainAccounting(s, hw.status, hw.packetsLeft, hw.bytesLeft);
    case StartSplitState => StartSplitSettles(s, hw);
    case CompleteSplitState => CompleteSplitSettles(s, hw);
    case _ =>
  }

  lemma HandledOk(d: Device, c: nat, hw: Hardware)
    requires Inv(d) && Legal(d, ChannelInterrupt(c, hw))
    ensures Continues(d, c, Handled(d, c, hw)) || Ends(d, c, Handled(d, c, hw))
  {
    assert ChannelOk(d, c);
    var d0 := SetMask(d, c, Off);
    var s := d0.stages[c];
    if s.subState.WaitForChannelDisable? || hw.status == NO_STATUS.(halted := true) {
      StartContinues(d, c, hw, d0);
    } else {
      AccountedSettles(s, d.masks[c], hw);
      var pid := PidAfter(s, d0.pids[s.request.endpoint], hw.status, hw.packetsLeft);
      var d1 := SetStage(d0, c, Accounted(s, hw.status, hw.packetsLeft, hw.bytesLeft));
      AdvancedOk(d, c, hw, d1.(pids := d1.pids[s.request.endpoint := pid]));
    }
  }

  lemma DelayedOk(d: Device, c: nat, hw: Hardware)
    requires Inv(d) && Legal(d, Timer(c, hw))
    ensures Continues(d, c, Delayed(d, c, hw))
  {
    assert ChannelOk(d, c);
    var d0 := d.(timers := d.timers - {c});
    var s := d0.stages[c];
    if s.split {
      StartContinues(d, c, hw, SetStage(d0, c, s.(state := StartSplitState, splitComplete := false, sched := Started(s.sched))));
    } else {
      StartContinues(d, c, hw, SetStage(d0, c, s.(state := NoSplitTransfer)));
    }
  }

  /** A new stage takes the free channel `c`. */
  ghost predicate Begins(d: Device, c: nat, r: Request, d': Device) {
    && c < MAX_CHANNELS && OthersSame(d, d', c) && c !in d.inUse && c < d.channels && d'.inUse == d.inUse + {c}
    && d'.stages[c].id == d.accepted && d'.stages[c].request == r
    && d'.accepted == d.accepted + 1 && d'.completed == d.completed && d'.waiting == (d.waiting || r.blocking) && !d'.failed
    && ChannelOk(d', c)
  }

  /** The stage as it is when its first transaction is started. */
  function FirstStage(id: nat, r: Request, next: Pid): Stage
    requires r.maxPacket > 0
  {
    var s := NewStage(id, r, next);
    if !s.split then s.(state := NoSplitTransfer) else s.(state := StartSplitState, sched := Started(s.sched))
  }

  lemma FirstStageMayStart(id: nat, r: Request, next: Pid)
    requires Sound(r, next)
    ensures MayStart(FirstStage(id, r, next)) && SchedOk(FirstStage(id, r, next))
  {
    NewStageStarts(id, r, next);
  }

  lemma StartBegins(d: Device, c: nat, r: Request, d1: Device, hw: Hardware)
    requires c < MAX_CHANNELS && OthersSame(d, d1, c) && c !in d.inUse && c < d.channels && d1.inUse == d.inUse + {c}
    requires d1.stages[c].id == d.accepted && d1.stages[c].request == r && r.endpoint < |d.pids|
    requires d1.accepted == d.accepted + 1 && d1.completed == d.completed && d1.waiting == (d.waiting || r.blocking) && !d1.failed
    requires c in d1.enabled && c !in d1.timers && MayStart(d1.stages[c]) && SchedOk(d1.stages[c])
    ensures Begins(d, c, r, StartTransaction(d1, c, hw))
  {}

  lemma SubmittedOk(d: Device, r: Request, hw: Hardware)
    requires Inv(d) && Legal(d, Submit(r, hw))
    ensures if FirstFree(d, 0) == d.channels then Submitted(d, r, hw) == (d, false)
            else Submitted(d, r, hw).1 && Begins(d, FirstFree(d, 0), r, Submitted(d, r, hw).0)
  {
    var c := FirstFree(d, 0);
    if c < d.channels {
      assert ChannelOk(d, c);
      var s := FirstStage(d.accepted, r, d.pids[r.endpoint]);
      FirstStageMayStart(d.accepted, r, d.pids[r.endpoint]);
      var d1 := SetStage(d, c, s).(inUse := d.inUse + {c}, enabled := d.enabled + {c},
                                   accepted := d.accepted + 1, waiting := d.waiting || r.blocking);
      StartBegins(d, c, r, d1, hw);
    }
  }

  lemma BeginsInv(d: Device, c: nat, r: Request, d': Device)
    requires Inv(d) && Begins(d, c, r, d') && (r.blocking ==> !d.waiting)
    ensures Inv(d')
  {
    forall e: nat | e < MAX_CHANNELS
      ensures ChannelOk(d', e)
    {
      assert ChannelOk(d, e);
    }
    BeginsIds(d, c, r, d');
    assert forall e: nat :: Blocks(d', e) <==> Blocks(d, e) || (e == c && r.blocking);
    if r.blocking {
      assert Blocks(d', c);
    } else if e: nat :| Blocks(d, e) {
      assert Blocks(d', e);
    }
  }

  lemma BeginsIds(d: Device, c: nat, r: Request, d': Device)
    requires Ids(d) && Begins(d, c, r, d')
    ensures Ids(d')
  {
    forall e: nat, id: nat
      ensures Carries(d', e, id) <==> (if e == c then id == d.accepted else Carries(d, e, id))
    {}
    assert Carries(d', c, d.accepted);
    assert !InFlight(d, d.accepted);
    assert forall e: nat :: !Carries(d, e, d.accepted);
    forall id: nat
      ensures InFlight(d', id) <==> InFlight(d, id) || id == d.accepted
    {
      if InFlight(d, id) { var e: nat :| Carries(d, e, id); assert Carries(d', e, id); }
    }
  }

  lemma StepInv(d: Device, step: Step)
    requires Inv(d) && Legal(d, step)
    ensures Inv(Apply(d, step))
  {
    var d' := Apply(d, step);
    match step
    case Submit(r, hw) =>
      SubmittedOk(d, r, hw);
      if FirstFree(d, 0) < d.channels {
        BeginsInv(d, FirstFree(d, 0), r, d');
      }
    case ChannelInterrupt(c, hw) =>
      HandledOk(d, c, hw);
      if Continues(d, c, d') { ContinuesInv(d, c, d'); } else { EndsInv(d, c, d'); }
    case Timer(c, hw) =>
      DelayedOk(d, c, hw);
      ContinuesInv(d, c, d');
    case ResetPid(e) => ResetInv(d, e);
  }

  lemma ResetInv(d: Device, e: nat)
    requires Inv(d) && e < |d.pids|
    ensures Inv(d.(pids := d.pids[e := Data0]))
  {
    var d' := d.(pids := d.pids[e := Data0]);
    forall c: nat | c < MAX_CHANNELS
      ensures ChannelOk(d', c)
    {
      assert ChannelOk(d, c);
    }
    assert forall c: nat, id: nat :: Carries(d', c, id) <==> Carries(d, c, id);
    forall id: nat
      ensures InFlight(d', id) <==> InFlight(d, id)
    {
      if InFlight(d, id) { var c: nat :| Carries(d, c, id); assert Carries(d', c, id); }
    }
    assert forall c: nat :: Blocks(d', c) <==> Blocks(d, c);
    if c: nat :| Blocks(d, c) { assert Blocks(d', c); }
  }

  // ----- Whole runs -------------------------------------------------------------------------------

  /** A fresh driver with `channels` channels and these endpoints. */
  function Init(channels: nat, stages: seq<Stage>, pids: seq<Pid>): Device {
    Device(channels, {}, {}, seq(MAX_CHANNELS, _ => Off), stages, {}, pids, false, 0, [], false)
  }

  ghost predicate LegalRun(d: Device, steps: seq<Step>)
    requires d.WellFormed()
    decreases |steps|
  {
    steps == [] || (Legal(d, steps[0]) && LegalRun(Apply(d, steps[0]), steps[1..]))
  }

  ghost function Exec(d: Device, steps: seq<Step>): (d': Device)
    requires d.WellFormed() && LegalRun(d, steps)
    ensures d'.WellFormed()
    decreases |steps|
  {
    if steps == [] then d else Exec(Apply(d, steps[0]), steps[1..])
  }

  /** The first step of a run. */
  lemma RunStep(d: Device, step: Step, steps: seq<Step>)
    requires d.WellFormed()
    ensures LegalRun(d, [step] + steps) <==> Legal(d, step) && LegalRun(Apply(d, step), steps)
    ensures LegalRun(d, [step] + steps) ==> Exec(d, [step] + steps) == Exec(Apply(d, step), steps)
  {
    assert ([step] + steps)[1..] == steps;
  }

  lemma {:induction false} RunKeeps(d: Device, steps: seq<Step>)
    requires Inv(d) && LegalRun(d, steps)
    ensures Inv(Exec(d, steps))
    decreases |steps|
  {
    if steps != [] {
      StepInv(d, steps[0]);
      RunKeeps(Apply(d, steps[0]), steps[1..]);
    }
  }

  /** Over every legal run no assertion of the driver fails, a channel's bit is set and its interrupt
      enabled exactly while it carries a stage, and its interrupt mask is armed only then. */
  lemma ChannelDiscipline(channels: nat, stages: seq<Stage>, pids: seq<Pid>, steps: seq<Step>, c: nat)
    requires channels <= MAX_CHANNELS && |stages| == MAX_CHANNELS && c < MAX_CHANNELS
    requires LegalRun(Init(channels, stages, pids), steps)
    ensures var d := Exec(Init(channels, stages, pids), steps);
            && !d.failed
            && (c in d.inUse <==> c in d.enabled) && (c in d.inUse <==> exists id: nat :: Carries(d, c, id))
            && (!d.masks[c].Off? ==> c in d.inUse && c !in d.timers)
            && (c in d.timers ==> c in d.inUse)
  {
    var d := Exec(Init(channels, stages, pids), steps);
    RunKeeps(Init(channels, stages, pids), steps);
    assert ChannelOk(d, c);
    assert c in d.inUse ==> Carries(d, c, d.stages[c].id);
  }

  /** Every accepted stage has its completion routine called at most once, and it was called exactly if
      the stage is no longer in flight. No stage reports more than its buffer holds. */
  lemma CompletedOnce(channels: nat, stages: seq<Stage>, pids: seq<Pid>, steps: seq<Step>, id: nat)
    requires channels <= MAX_CHANNELS && |stages| == MAX_CHANNELS
    requires LegalRun(Init(channels, stages, pids), steps)
    ensures var d := Exec(Init(channels, stages, pids), steps);
            && Times(d.completed, id) == (if id < d.accepted && !InFlight(d, id) then 1 else 0)
            && (forall x :: x in d.completed ==> x.length <= x.size)
            && (d.waiting <==> exists c: nat :: Blocks(d, c))
  {
    RunKeeps(Init(channels, stages, pids), steps);
  }

  /** Whenever a transaction of a data or setup stage is programmed, it moves at least one byte and stays
      inside the buffer; a split transaction moves min(max packet size, size - total). */
  lemma TransactionsStayInside(d: Device, c: nat)
    requires Inv(d) && c < MAX_CHANNELS && !d.masks[c].Off? && !d.stages[c].request.statusStage
    ensures var s := d.stages[c];
            && 0 < s.bytesPer && s.request.buffer <= s.pointer && s.pointer + s.bytesPer <= s.request.buffer + s.transferSize
            && (s.split ==> s.total < s.transferSize && s.bytesPer == Min(s.request.maxPacket, s.transferSize - s.total))
  {
    assert ChannelOk(d, c);
    Window(d.stages[c]);
  }

  /** When the completion routine is called the channel is free again, so the routine may submit a new
      stage, which is accepted. */
  lemma FreedBeforeCallback(d: Device, c: nat, hw: Hardware, r: Request, hw': Hardware)
    requires Inv(d) && Legal(d, ChannelInterrupt(c, hw)) && Handled(d, c, hw).completed != d.completed
    requires Legal(Handled(d, c, hw), Submit(r, hw'))
    ensures var d' := Handled(d, c, hw);
            && c !in d'.inUse && c !in d'.enabled && d'.masks[c].Off? && c !in d'.timers
            && Submitted(d', r, hw').1
  {
    var d' := Handled(d, c, hw);
    HandledOk(d, c, hw);
    assert ChannelOk(d', c);
    assert ChannelOk(d, c);
  }

  // ----- What an answered transaction comes to --------------------------------------------------------

  /** Does the driver account a transaction with this status? Start-splits are not accounted. */
  predicate Accounting(s: Stage, st: Status) {
    Counts(st) && (!s.split || s.splitComplete)
  }

  /** The stage of channel `c` is completed. */
  ghost predicate Completes(d: Device, c: nat, ok: bool, d': Device)
    requires d.WellFormed() && c < MAX_CHANNELS
  {
    c !in d'.inUse && exists length: nat ::
      d'.completed == d.completed + [Completion(d.stages[c].id, ok, length, d.stages[c].transferSize)] && length <= d.stages[c].transferSize
  }

  /** The stage of channel `c` goes on with `packets` packets to do. */
  ghost predicate GoesOn(d: Device, c: nat, packets: nat, d': Device)
    requires d.WellFormed() && c < MAX_CHANNELS
  {
    && d'.WellFormed() && c in d'.inUse && d'.completed == d.completed && d'.stages[c].packets == packets
    && d'.stages[c].transferSize == d.stages[c].transferSize && d'.stages[c].split == d.stages[c].split
  }

  lemma FinishCompletes(d: Device, c: nat, ok: bool)
    requires d.WellFormed() && c < d.channels && c < MAX_CHANNELS && c in d.inUse
    ensures Completes(d, c, ok, Finish(d, c, ok)) && Finish(d, c, ok).pids == d.pids
  {
    var s := d.stages[c];
    var length := if ok && !s.request.statusStage then s.ResultLen() else 0;
    assert Finish(d, c, ok).completed == d.completed + [Completion(s.id, ok, length, s.transferSize)];
  }

  lemma StartGoesOn(d: Device, c: nat, hw: Hardware)
    requires d.WellFormed() && c < MAX_CHANNELS && c in d.inUse
    ensures GoesOn(d, c, d.stages[c].packets, StartTransaction(d, c, hw)) && StartTransaction(d, c, hw).pids == d.pids
    ensures GoesOn(d, c, d.stages[c].packets, StartChannel(d, c, hw)) && StartChannel(d, c, hw).pids == d.pids
  {}

  /** An accounted transaction was the last one, unless it is one of several packets of a split stage. */
  lemma AccountedEnds(d: Device, c: nat, hw: Hardware)
    requires d.WellFormed() && c < MAX_CHANNELS && c in d.inUse && c < d.channels
    requires Settled(d.stages[c]) && SchedOk(d.stages[c]) && Accounting(d.stages[c], d.stages[c].status)
    ensures var d' := Advanced(d, c, hw);
            && d'.pids == d.pids
            && (if d.stages[c].split && d.stages[c].packets > 0 then GoesOn(d, c, d.stages[c].packets, d') else Completes(d, c, true, d'))
  {
    var s := d.stages[c];
    if s.split {
      var (sched, more) := NextSplit(Transacted(s.sched, s.status));
      var d2 := SetStage(d, c, s.(sched := sched));
      if more {
        StartGoesOn(d2, c, hw);
      } else {
        LeaveGoesOn(d2, c, hw);
      }
    } else {
      FinishCompletes(d, c, true);
    }
  }

  lemma LeaveGoesOn(d: Device, c: nat, hw: Hardware)
    requires d.WellFormed() && c < MAX_CHANNELS && c in d.inUse && c < d.channels && !d.stages[c].sched.kind.NoSplit?
    ensures var d' := LeaveCompleteSplit(d, c, hw);
            && d'.pids == d.pids
            && (if d.stages[c].packets > 0 then GoesOn(d, c, d.stages[c].packets, d') else Completes(d, c, true, d'))
  {
    var s := d.stages[c];
    if s.IsComplete() {
      FinishCompletes(d, c, true);
    } else if !s.IsPeriodic() {
      StartGoesOn(SetStage(d, c, s.(state := StartSplitState, splitComplete := false, sched := Started(s.sched))), c, hw);
    }
  }

  /** An answer that is not accounted: the stage goes on, or fails, or ends with success all the same. */
  ghost predicate Unaccounted(d: Device, c: nat, d': Device)
    requires d.WellFormed() && c < MAX_CHANNELS
  {
    var s := d.stages[c];
    && d'.pids == d.pids
    && (GoesOn(d, c, s.packets, d') || Completes(d, c, false, d')
        || (!s.split && (s.status.nak || s.status.nyet) && Completes(d, c, true, d')))
  }

  lemma UnaccountedPlain(d: Device, c: nat, hw: Hardware)
    requires d.WellFormed() && c < MAX_CHANNELS && c in d.inUse && c < d.channels && d.stages[c].packets > 0
    requires Settled(d.stages[c]) && SchedOk(d.stages[c]) && !Accounting(d.stages[c], d.stages[c].status)
    requires d.stages[c].state.NoSplitTransfer?
    ensures Unaccounted(d, c, Advanced(d, c, hw))
  {
    FinishCompletes(d, c, !d.stages[c].status.error);
  }

  lemma UnaccountedStart(d: Device, c: nat, hw: Hardware)
    requires d.WellFormed() && c < MAX_CHANNELS && c in d.inUse && c < d.channels && d.stages[c].packets > 0
    requires Settled(d.stages[c]) && SchedOk(d.stages[c]) && !Accounting(d.stages[c], d.stages[c].status)
    requires d.stages[c].state.StartSplitState?
    ensures Unaccounted(d, c, Advanced(d, c, hw))
  {
    var s := d.stages[c];
    FinishCompletes(d, c, false);
    if Counts(s.status) {
      var (sched, more) := NextSplit(Transacted(s.sched, s.status));
      StartGoesOn(SetStage(d, c, s.(state := CompleteSplitState, splitComplete := true, sched := sched)), c, hw);
    }
  }

  lemma UnaccountedComplete(d: Device, c: nat, hw: Hardware)
    requires d.WellFormed() && c < MAX_CHANNELS && c in d.inUse && c < d.channels && d.stages[c].packets > 0
    requires Settled(d.stages[c]) && SchedOk(d.stages[c]) && !Accounting(d.stages[c], d.stages[c].status)
    requires d.stages[c].state.CompleteSplitState?
    ensures Unaccounted(d, c, Advanced(d, c, hw))
  {
    var s := d.stages[c];
    if s.status.error {
      FinishCompletes(d, c, false);
    } else {
      CompleteAdvances(d, c, hw);
      var (sched, more) := NextSplit(Transacted(s.sched, s.status));
      var d2 := SetStage(d, c, s.(sched := sched));
      if more {
        StartGoesOn(d2, c, hw);
      } else {
        LeaveGoesOn(d2, c, hw);
      }
      SchedGoesOn(d, c, sched, s.packets, Advanced(d, c, hw));
    }
  }

  lemma CompleteAdvances(d: Device, c: nat, hw: Hardware)
    requires d.WellFormed() && c < MAX_CHANNELS && d.stages[c].state.CompleteSplitState? && !d.stages[c].status.error
    requires Settled(d.stages[c]) && SchedOk(d.stages[c])
    ensures var s := d.stages[c];
            && MayTransact(s.sched, s.status) && MayComplete(Transacted(s.sched, s.status))
            && var (sched, more) := NextSplit(Transacted(s.sched, s.status));
               var d2 := SetStage(d, c, s.(sched := sched));
               sched.kind == s.sched.kind && !sched.kind.NoSplit?
               && Advanced(d, c, hw) == if more then StartTransaction(d2, c, hw) else LeaveCompleteSplit(d2, c, hw)
  {}

  lemma SchedGoesOn(d: Device, c: nat, sched: Sched, packets: nat, d': Device)
    requires d.WellFormed() && c < MAX_CHANNELS
    requires GoesOn(SetStage(d, c, d.stages[c].(sched := sched)), c, packets, d')
    ensures GoesOn(d, c, packets, d')
  {}

  lemma UnaccountedEnds(d: Device, c: nat, hw: Hardware)
    requires d.WellFormed() && c < MAX_CHANNELS && c in d.inUse && c < d.channels && d.stages[c].packets > 0
    requires Settled(d.stages[c]) && SchedOk(d.stages[c]) && !Accounting(d.stages[c], d.stages[c].status)
    ensures Unaccounted(d, c, Advanced(d, c, hw))
  {
    match d.stages[c].state
    case NoSplitTransfer => UnaccountedPlain(d, c, hw);
    case StartSplitState => UnaccountedStart(d, c, hw);
    case CompleteSplitState => UnaccountedComplete(d, c, hw);
    case _ =>
  }

  /** What an answered transaction comes to. If it is accounted, the endpoint's PID advances; the stage then
      ends with success unless it is a split stage with packets to do. If it is not, the PID stays; the stage
      goes on, or fails, or, when it is not split and was answered with NAK or NYET, ends with success. */
  lemma AnswerOutcome(d: Device, c: nat, hw: Hardware)
    requires Inv(d) && Legal(d, ChannelInterrupt(c, hw)) && d.masks[c].Armed? && hw.status != NO_STATUS.(halted := true)
    ensures d.stages[c].request.endpoint < |d.pids|
    ensures var s := d.stages[c];
            var d' := Handled(d, c, hw);
            var e := s.request.endpoint;
            if Accounting(s, hw.status) then
              && d'.pids == d.pids[e := Skipped(d.pids[e], PacketsMoved(s, hw.packetsLeft), s.request.statusStage)]
              && (if s.split && s.packets > 1 then GoesOn(d, c, s.packets - 1, d') else Completes(d, c, true, d'))
            else
              && d'.pids == d.pids
              && (GoesOn(d, c, s.packets, d') || Completes(d, c, false, d')
                  || (!s.split && (hw.status.nak || hw.status.nyet) && Completes(d, c, true, d')))
  {
    assert ChannelOk(d, c);
    var s := d.stages[c];
    AccountedSettles(s, d.masks[c], hw);
    var pid := PidAfter(s, d.pids[s.request.endpoint], hw.status, hw.packetsLeft);
    var d1 := SetStage(SetMask(d, c, Off), c, Accounted(s, hw.status, hw.packetsLeft, hw.bytesLeft)).(pids := d.pids[s.request.endpoint := pid]);
    assert Handled(d, c, hw) == Advanced(d1, c, hw);
    if Accounting(s, hw.status) {
      if s.split {
        CompleteSplitMoves(s, hw.status, hw.packetsLeft, hw.bytesLeft);
      }
      AccountedEnds(d1, c, hw);
    } else {
      if Counts(hw.status) {
        StartSplitMovesNothing(s, hw.status, hw.packetsLeft, hw.bytesLeft);
      }
      UnaccountedEnds(d1, c, hw);
    }
  }

  /** A setup or status stage has one packet. It counts a transaction at most once: as soon as it does, it ends
      with success. Otherwise the endpoint's PID stays, and the stage ends with success only when it is not
      split and the controller reports a NAK or NYET. */
  lemma OnePacketStage(d: Device, c: nat, hw: Hardware)
    requires Inv(d) && Legal(d, ChannelInterrupt(c, hw)) && d.masks[c].Armed? && hw.status != NO_STATUS.(halted := true)
    requires d.stages[c].request.maxPacket > 0 && AllPackets(d.stages[c]) == 1
    ensures var s := d.stages[c];
            var d' := Handled(d, c, hw);
            var e := s.request.endpoint;
            if Accounting(s, hw.status) then
              && e < |d.pids| && d'.pids == d.pids[e := Skipped(d.pids[e], PacketsMoved(s, hw.packetsLeft), s.request.statusStage)]
              && Completes(d, c, true, d')
            else
              && d'.pids == d.pids
              && (Completes(d, c, true, d') ==> !s.split && (hw.status.nak || hw.status.nyet))
  {
    AnswerOutcome(d, c, hw);
    assert ChannelOk(d, c);
    var d' := Handled(d, c, hw);
    forall ok | Completes(d, c, ok, d')
      ensures d'.completed != d.completed && d'.completed[|d.completed|].ok == ok
    {
      CompletionTells(d, c, ok, d');
    }
  }

  lemma CompletionTells(d: Device, c: nat, ok: bool, d': Device)
    requires d.WellFormed() && c < MAX_CHANNELS && Completes(d, c, ok, d')
    ensures |d'.completed| == |d.completed| + 1 && d'.completed[|d.completed|].ok == ok
  {}

  /** The assertion of the split schedulers: a complete-split whose status has no error bit is accepted exactly
      if it names ACK, NAK, NYET or transfer complete. Nothing else in the switch on the stage's state can then
      fail. */
  lemma AnswerAccepted(d: Device, c: nat, hw: Hardware)
    requires d.WellFormed() && c < MAX_CHANNELS && c < d.channels && c in d.inUse && !d.failed
    requires d.stages[c].state.CompleteSplitState? && d.stages[c].sched.phase in {CompleteSplit, CompleteRetry} && !d.stages[c].sched.kind.NoSplit?
    ensures var st := d.stages[c].status;
            Advanced(d, c, hw).failed <==> st == NO_STATUS || st == NO_STATUS.(halted := true)
  {}

  // ----- One interrupt for several channels ---------------------------------------------------------

  /** A completion routine may submit another stage. */
  datatype Callback = Return | Resubmit(request: Request, hw: Hardware)

  /** What the interrupt handler does from channel `c` on: it goes through the channels that were pending
      when it looked, and their completion routines may submit stages while it is at it. */
  ghost function Sweep(d: Device, c: nat, pending: set<nat>, hws: seq<Hardware>, callbacks: seq<Callback>): seq<Step>
    requires |hws| == |callbacks| == MAX_CHANNELS && d.WellFormed()
    decreases MAX_CHANNELS - c, 1
  {
    if c >= MAX_CHANNELS then []
    else if c in pending && c < d.channels && Legal(d, ChannelInterrupt(c, hws[c])) then
      var d1 := Handled(d, c, hws[c]);
      [ChannelInterrupt(c, hws[c])] +
      (if callbacks[c].Resubmit? && d1.completed != d.completed && Legal(d1, Submit(callbacks[c].request, callbacks[c].hw)) then
         [Submit(callbacks[c].request, callbacks[c].hw)] + Sweep(Submitted(d1, callbacks[c].request, callbacks[c].hw).0, c + 1, pending, hws, callbacks)
       else Sweep(d1, c + 1, pending, hws, callbacks))
    else Sweep(d, c + 1, pending, hws, callbacks)
  }

  ghost function Handlings(steps: seq<Step>): set<nat> {
    set i | 0 <= i < |steps| && steps[i].ChannelInterrupt? :: steps[i].channel
  }

  /** The sweep from channel `c` on is good and leads to `end`. */
  ghost predicate Sweeps(d: Device, c: nat, pending: set<nat>, hws: seq<Hardware>, callbacks: seq<Callback>, end: Device) {
    && |hws| == |callbacks| == MAX_CHANNELS && Inv(d)
    && (forall e :: e in pending && c <= e ==> e < MAX_CHANNELS && Legal(d, ChannelInterrupt(e, hws[e])))
    && LegalRun(d, Sweep(d, c, pending, hws, callbacks)) && Exec(d, Sweep(d, c, pending, hws, callbacks)) == end
  }

  lemma StillLegal(d: Device, d': Device, c: nat, e: nat, hw: Hardware)
    requires OthersSame(d, d', c) && e != c && Legal(d, ChannelInterrupt(e, hw))
    ensures Legal(d', ChannelInterrupt(e, hw))
  {}

  /** The snapshot of pending channels stays good while the handler works through it: whatever the
      completion routines submit meanwhile, every channel in it is still armed with the same stage when its
      turn comes, so each is handled and the sweep is a legal run. */
  lemma {:induction false} SweepHandlesAll(d: Device, c: nat, pending: set<nat>, hws: seq<Hardware>, callbacks: seq<Callback>)
    requires |hws| == |callbacks| == MAX_CHANNELS && c <= MAX_CHANNELS && Inv(d)
    requires forall e :: e in pending && c <= e ==> e < MAX_CHANNELS && Legal(d, ChannelInterrupt(e, hws[e]))
    ensures LegalRun(d, Sweep(d, c, pending, hws, callbacks))
    ensures forall e :: e in pending && c <= e ==> e in Handlings(Sweep(d, c, pending, hws, callbacks))
    decreases MAX_CHANNELS - c
  {
    if c < MAX_CHANNELS {
      if c in pending {
        assert ChannelOk(d, c);
        var d1 := Handled(d, c, hws[c]);
        StillGood(d, c, pending, hws);
        var r := callbacks[c];
        if r.Resubmit? && d1.completed != d.completed && Legal(d1, Submit(r.request, r.hw)) {
          AfterCallback(d1, c, pending, hws, callbacks);
          Resubmits(d, c, pending, hws, callbacks);
        } else {
          SweepHandlesAll(d1, c + 1, pending, hws, callbacks);
          Returns(d, c, pending, hws, callbacks);
        }
      } else {
        SweepHandlesAll(d, c + 1, pending, hws, callbacks);
      }
    }
  }

  /** Handling one channel leaves the others in the snapshot good. */
  lemma StillGood(d: Device, c: nat, pending: set<nat>, hws: seq<Hardware>)
    requires |hws| == MAX_CHANNELS && c < MAX_CHANNELS && c in pending && Inv(d)
    requires forall e :: e in pending && c <= e ==> e < MAX_CHANNELS && Legal(d, ChannelInterrupt(e, hws[e]))
    ensures Inv(Handled(d, c, hws[c])) && Handled(d, c, hws[c]).channels == d.channels
    ensures forall e :: e in pending && c < e ==> Legal(Handled(d, c, hws[c]), ChannelInterrupt(e, hws[e]))
  {
    HandledOk(d, c, hws[c]);
    StepInv(d, ChannelInterrupt(c, hws[c]));
    forall e | e in pending && c < e
      ensures Legal(Handled(d, c, hws[c]), ChannelInterrupt(e, hws[e]))
    {
      StillLegal(d, Handled(d, c, hws[c]), c, e, hws[e]);
    }
  }

  lemma Returns(d: Device, c: nat, pending: set<nat>, hws: seq<Hardware>, callbacks: seq<Callback>)
    requires |hws| == |callbacks| == MAX_CHANNELS && c < MAX_CHANNELS && c in pending && c < d.channels && d.WellFormed() && Legal(d, ChannelInterrupt(c, hws[c]))
    requires var d1, r := Handled(d, c, hws[c]), callbacks[c];
             !(r.Resubmit? && d1.completed != d.completed && Legal(d1, Submit(r.request, r.hw))) && LegalRun(d1, Sweep(d1, c + 1, pending, hws, callbacks))
    ensures LegalRun(d, Sweep(d, c, pending, hws, callbacks)) && c in Handlings(Sweep(d, c, pending, hws, callbacks))
    ensures forall e :: e in Handlings(Sweep(Handled(d, c, hws[c]), c + 1, pending, hws, callbacks)) ==> e in Handlings(Sweep(d, c, pending, hws, callbacks))
  {
    var step := ChannelInterrupt(c, hws[c]);
    var rest := Sweep(Handled(d, c, hws[c]), c + 1, pending, hws, callbacks);
    assert Sweep(d, c, pending, hws, callbacks) == [step] + rest;
    RunStep(d, step, rest);
    HandlingsFirst(step, rest);
  }

  lemma Resubmits(d: Device, c: nat, pending: set<nat>, hws: seq<Hardware>, callbacks: seq<Callback>)
    requires |hws| == |callbacks| == MAX_CHANNELS && c < MAX_CHANNELS && c in pending && c < d.channels && d.WellFormed() && Legal(d, ChannelInterrupt(c, hws[c]))
    requires var d1, r := Handled(d, c, hws[c]), callbacks[c];
             && r.Resubmit? && d1.completed != d.completed && Legal(d1, Submit(r.request, r.hw))
             && var d2 := Submitted(d1, r.request, r.hw).0; LegalRun(d2, Sweep(d2, c + 1, pending, hws, callbacks))
    ensures LegalRun(d, Sweep(d, c, pending, hws, callbacks)) && c in Handlings(Sweep(d, c, pending, hws, callbacks))
    ensures var d2 := Submitted(Handled(d, c, hws[c]), callbacks[c].request, callbacks[c].hw).0;
            forall e :: e in Handlings(Sweep(d2, c + 1, pending, hws, callbacks)) ==> e in Handlings(Sweep(d, c, pending, hws, callbacks))
  {
    var step, submit := ChannelInterrupt(c, hws[c]), Submit(callbacks[c].request, callbacks[c].hw);
    var d1 := Handled(d, c, hws[c]);
    var rest := Sweep(Submitted(d1, callbacks[c].request, callbacks[c].hw).0, c + 1, pending, hws, callbacks);
    assert Sweep(d, c, pending, hws, callbacks) == [step] + ([submit] + rest);
    RunStep(d1, submit, rest);
    RunStep(d, step, [submit] + rest);
    HandlingsFirst(submit, rest);
    HandlingsFirst(step, [submit] + rest);
  }

  lemma HandlingsFirst(step: Step, steps: seq<Step>)
    ensures step.ChannelInterrupt? ==> step.channel in Handlings([step] + steps)
    ensures forall e :: e in Handlings(steps) ==> e in Handlings([step] + steps)
  {
    assert ([step] + steps)[0] == step && ([step] + steps)[1..] == steps;
    forall e | e in Handlings(steps)
      ensures e in Handlings([step] + steps)
    {
      HandlingsTail([step] + steps, e);
    }
  }

  lemma HandlingsTail(steps: seq<Step>, e: nat)
    requires steps != [] && e in Handlings(steps[1..])
    ensures e in Handlings(steps)
  {
    var i :| 0 <= i < |steps[1..]| && steps[1..][i].ChannelInterrupt? && steps[1..][i].channel == e;
    assert steps[i + 1] == steps[1..][i];
  }

  /** After a completion routine submitted a stage, the rest of the snapshot is still good. */
  lemma AfterCallback(d1: Device, c: nat, pending: set<nat>, hws: seq<Hardware>, callbacks: seq<Callback>)
    requires |hws| == |callbacks| == MAX_CHANNELS && c < MAX_CHANNELS && Inv(d1)
    requires callbacks[c].Resubmit? && Legal(d1, Submit(callbacks[c].request, callbacks[c].hw))
    requires forall e :: e in pending && c < e ==> e < MAX_CHANNELS && Legal(d1, ChannelInterrupt(e, hws[e]))
    ensures var d2 := Submitted(d1, callbacks[c].request, callbacks[c].hw).0;
            && LegalRun(d2, Sweep(d2, c + 1, pending, hws, callbacks))
            && (forall e :: e in pending && c < e ==> Legal(d2, ChannelInterrupt(e, hws[e])))
            && forall e :: e in pending && c < e ==> e in Handlings(Sweep(d2, c + 1, pending, hws, callbacks))
    decreases MAX_CHANNELS - c, 0
  {
    var r := callbacks[c];
    var d2 := Submitted(d1, r.request, r.hw).0;
    StepInv(d1, Submit(r.request, r.hw));
    SubmittedOk(d1, r.request, r.hw);
    var f := FirstFree(d1, 0);
    forall e | e in pending && c < e
      ensures Legal(d2, ChannelInterrupt(e, hws[e]))
    {
      assert ChannelOk(d1, e);
      if f < d1.channels {
        StillLegal(d1, d2, f, e, hws[e]);
      }
    }
    SweepHandlesAll(d2, c + 1, pending, hws, callbacks);
  }

  /** The sweep of a pending channel, step by step. */
  lemma SweepStep(d: Device, c: nat, pending: set<nat>, hws: seq<Hardware>, callbacks: seq<Callback>)
    requires |hws| == |callbacks| == MAX_CHANNELS && c in pending && c < d.channels && c < MAX_CHANNELS && d.WellFormed()
    requires Legal(d, ChannelInterrupt(c, hws[c])) && LegalRun(d, Sweep(d, c, pending, hws, callbacks))
    ensures var d1 := Handled(d, c, hws[c]);
            var r := callbacks[c];
            var d2 := if r.Resubmit? && d1.completed != d.completed && Legal(d1, Submit(r.request, r.hw)) then Submitted(d1, r.request, r.hw).0 else d1;
            && LegalRun(d2, Sweep(d2, c + 1, pending, hws, callbacks))
            && Exec(d, Sweep(d, c, pending, hws, callbacks)) == Exec(d2, Sweep(d2, c + 1, pending, hws, callbacks))
  {
    var d1 := Handled(d, c, hws[c]);
    var r := callbacks[c];
    var steps := Sweep(d, c, pending, hws, callbacks);
    if r.Resubmit? && d1.completed != d.completed && Legal(d1, Submit(r.request, r.hw)) {
      var d2 := Submitted(d1, r.request, r.hw).0;
      assert steps[1..] == [Submit(r.request, r.hw)] + Sweep(d2, c + 1, pending, hws, callbacks);
      assert steps[1..][1..] == Sweep(d2, c + 1, pending, hws, callbacks);
    } else {
      assert steps[1..] == Sweep(d1, c + 1, pending, hws, callbacks);
    }
  }

  /** The rest of the sweep after channel `c` was handled and its completion routine returned. */
  lemma SweepsOn(d: Device, c: nat, pending: set<nat>, hws: seq<Hardware>, callbacks: seq<Callback>, end: Device)
    requires Sweeps(d, c, pending, hws, callbacks, end) && c in pending && c < d.channels && c < MAX_CHANNELS
    ensures !Handled(d, c, hws[c]).failed && Inv(Handled(d, c, hws[c])) && Handled(d, c, hws[c]).channels == d.channels
    ensures Handled(d, c, hws[c]).completed == d.completed || |Handled(d, c, hws[c]).completed| == |d.completed| + 1
    ensures var d1, r := Handled(d, c, hws[c]), callbacks[c];
            if r.Resubmit? && d1.completed != d.completed && Legal(d1, Submit(r.request, r.hw)) then
              Submitted(d1, r.request, r.hw).0.channels == d.channels && Sweeps(Submitted(d1, r.request, r.hw).0, c + 1, pending, hws, callbacks, end)
            else Sweeps(d1, c + 1, pending, hws, callbacks, end)
  {
    var d1, r := Handled(d, c, hws[c]), callbacks[c];
    HandledOk(d, c, hws[c]);
    StepInv(d, ChannelInterrupt(c, hws[c]));
    forall e | e in pending && c < e
      ensures Legal(d1, ChannelInterrupt(e, hws[e]))
    {
      StillLegal(d, d1, c, e, hws[e]);
    }
    SweepStep(d, c, pending, hws, callbacks);
    if r.Resubmit? && d1.completed != d.completed && Legal(d1, Submit(r.request, r.hw)) {
      StepInv(d1, Submit(r.request, r.hw));
      SubmittedOk(d1, r.request, r.hw);
      AfterCallback(d1, c, pending, hws, callbacks);
    }
  }

  /** A channel that is not pending is skipped. */
  lemma SweepSkip(d: Device, c: nat, pending: set<nat>, hws: seq<Hardware>, callbacks: seq<Callback>)
    requires |hws| == |callbacks| == MAX_CHANNELS && d.WellFormed() && c < MAX_CHANNELS && c !in pending
    ensures Sweep(d, c, pending, hws, callbacks) == Sweep(d, c + 1, pending, hws, callbacks)
  {}

  /** Past the last channel there is nothing to do. */
  lemma {:induction false} SweepRest(d: Device, c: nat, pending: set<nat>, hws: seq<Hardware>, callbacks: seq<Callback>)
    requires |hws| == |callbacks| == MAX_CHANNELS && d.WellFormed() && d.channels <= c
    ensures Sweep(d, c, pending, hws, callbacks) == []
    decreases MAX_CHANNELS - c
  {
    if c < MAX_CHANNELS {
      SweepRest(d, c + 1, pending, hws, callbacks);
    }
  }

  lemma SweepsBegin(d: Device, pending: set<nat>, hws: seq<Hardware>, callbacks: seq<Callback>)
    requires |hws| == |callbacks| == MAX_CHANNELS && Inv(d) && forall e :: e in pending ==> e < MAX_CHANNELS && Legal(d, ChannelInterrupt(e, hws[e]))
    ensures LegalRun(d, Sweep(d, 0, pending, hws, callbacks))
    ensures Sweeps(d, 0, pending, hws, callbacks, Exec(d, Sweep(d, 0, pending, hws, callbacks)))
  {
    SweepHandlesAll(d, 0, pending, hws, callbacks);
  }

  lemma SweepsSkip(d: Device, c: nat, pending: set<nat>, hws: seq<Hardware>, callbacks: seq<Callback>, end: Device)
    requires Sweeps(d, c, pending, hws, callbacks, end) && c < MAX_CHANNELS && c !in pending
    ensures Sweeps(d, c + 1, pending, hws, callbacks, end)
  {
    SweepSkip(d, c, pending, hws, callbacks);
  }

  lemma SweepsEnd(d: Device, c: nat, pending: set<nat>, hws: seq<Hardware>, callbacks: seq<Callback>, end: Device)
    requires Sweeps(d, c, pending, hws, callbacks, end) && d.channels <= c
    ensures d == end && Inv(d)
  {
    SweepRest(d, c, pending, hws, callbacks);
  }
}
