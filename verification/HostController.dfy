/** The host controller driver as a machine whose steps are a submission, a channel interrupt and a
    delay timer running out (ext/uspi/lib/dwhcidevice.c). */
module HostControllers {
  import opened FrameSchedulers
  import opened UsbEndpoints
  import opened TransferStages

  const MAX_CHANNELS := 16

  /** A channel's interrupt mask: nothing, the halted bit only, or the status mask. */
  datatype Mask = Off | HaltedOnly | Armed

  /** What the completion routine is told about a stage: its number, success and reported length;
      `size` is the size of the stage's buffer. */
  datatype Completion = Completion(id: nat, ok: bool, length: nat, size: nat)

  /** `inUse` and `enabled` are the bits of the channel bitmap and of the channel interrupt mask
      register, `timers` the channels for which a kernel timer runs, `pids` the next PID per endpoint,
      `accepted` the number of stages accepted so far. `failed` is set when an assertion fails. */
  datatype Device = Device(channels: nat, inUse: set<nat>, enabled: set<nat>, masks: seq<Mask>, stages: seq<Stage>,
                           timers: set<nat>, pids: seq<Pid>, waiting: bool, accepted: nat, completed: seq<Completion>, failed: bool)
  {
    predicate WellFormed() {
      channels <= MAX_CHANNELS && |masks| == MAX_CHANNELS && |stages| == MAX_CHANNELS
    }
  }

  /** What the hardware shows to a step: the channel's enable bit and the frame number where a
      transaction is started, whether the kernel has a timer to spare, and the channel's registers. */
  datatype Hardware = Hardware(status: Status, packetsLeft: nat, bytesLeft: nat, stillEnabled: bool, frame: nat, timerFree: bool)

  function SetStage(d: Device, c: nat, s: Stage): (d': Device)
    requires d.WellFormed() && c < MAX_CHANNELS
    ensures d'.WellFormed()
  {
    d.(stages := d.stages[c := s])
  }

  function SetMask(d: Device, c: nat, m: Mask): (d': Device)
    requires d.WellFormed() && c < MAX_CHANNELS
    ensures d'.WellFormed()
  {
    d.(masks := d.masks[c := m])
  }

  function Fail(d: Device): Device {
    d.(failed := true)
  }

  /** `StartTransaction` and `StartChannel`: a channel that is still enabled is halted first. */
  function StartTransaction(d: Device, c: nat, hw: Hardware): (d': Device)
    requires d.WellFormed() && c < MAX_CHANNELS
    ensures d'.WellFormed()
  {
    if hw.stillEnabled then SetMask(SetStage(d, c, d.stages[c].(subState := WaitForChannelDisable)), c, HaltedOnly)
    else StartChannel(d, c, hw)
  }

  function StartChannel(d: Device, c: nat, hw: Hardware): (d': Device)
    requires d.WellFormed() && c < MAX_CHANNELS
    ensures d'.WellFormed()
  {
    var s := d.stages[c];
    var sched := if s.schedulerUsed then Waited(s.sched, hw.frame) else s.sched;
    SetMask(SetStage(d, c, s.(subState := WaitForTransactionComplete, sched := sched)), c, Armed)
  }

  /** The end of a stage: the interrupt is disabled and the channel freed before the completion routine
      is called, which for a blocking request ends the wait. */
  function Finish(d: Device, c: nat, ok: bool): (d': Device)
    requires d.WellFormed() && c < MAX_CHANNELS
    ensures d'.WellFormed()
  {
    var s := d.stages[c];
    if c >= d.channels || c !in d.inUse then Fail(d)
    else
      d.(inUse := d.inUse - {c}, enabled := d.enabled - {c},
         completed := d.completed + [Completion(s.id, ok, if ok && !s.request.statusStage then s.ResultLen() else 0, s.transferSize)],
         waiting := d.waiting && !s.request.blocking)
  }

  function Delay(d: Device, c: nat, hw: Hardware): (d': Device)
    requires d.WellFormed() && c < MAX_CHANNELS
    ensures d'.WellFormed()
  {
    if !d.stages[c].request.kind.Interrupt? then Fail(d)
    else
      var d1 := SetStage(d, c, d.stages[c].(state := PeriodicDelay));
      d1.(timers := if hw.timerFree then d1.timers + {c} else d1.timers)
  }

  function FirstFree(d: Device, c: nat): (f: nat)
    requires c <= d.channels
    ensures c <= f <= d.channels
    ensures forall e :: c <= e < f ==> e in d.inUse
    ensures f < d.channels ==> f !in d.inUse
    decreases d.channels - c
  {
    if c == d.channels || c !in d.inUse then c else FirstFree(d, c + 1)
  }

  /** `TransferStageAsync`: returns whether the stage was accepted. */
  function Submitted(d: Device, r: Request, hw: Hardware): (r': (Device, bool))
    requires d.WellFormed() && r.endpoint < |d.pids| && r.maxPacket > 0
    ensures r'.0.WellFormed()
  {
    var c := FirstFree(d, 0);
    if c == d.channels then (d, false)
    else
      var s := NewStage(d.accepted, r, d.pids[r.endpoint]);
      var s1 := if !s.split then s.(state := NoSplitTransfer) else s.(state := StartSplitState, sched := Started(s.sched));
      var d1 := SetStage(d, c, s1).(inUse := d.inUse + {c}, enabled := d.enabled + {c},
                                    accepted := d.accepted + 1, waiting := d.waiting || r.blocking);
      (StartTransaction(d1, c, hw), true)
  }

  /** After a complete-split cycle: finish the stage, begin another split, or wait for the next interval. */
  function LeaveCompleteSplit(d: Device, c: nat, hw: Hardware): (d': Device)
    requires d.WellFormed() && c < MAX_CHANNELS
    ensures d'.WellFormed()
  {
    var s := d.stages[c];
    if s.IsComplete() then Finish(d, c, true)
    else if s.IsPeriodic() then Delay(d, c, hw)
    else if s.sched.kind.NoSplit? then Fail(d)
    else StartTransaction(SetStage(d, c, s.(state := StartSplitState, splitComplete := false, sched := Started(s.sched))), c, hw)
  }

  /** The switch on the stage's state, after the transaction was accounted. */
  function Advanced(d: Device, c: nat, hw: Hardware): (d': Device)
    requires d.WellFormed() && c < MAX_CHANNELS
    ensures d'.WellFormed()
  {
    var s := d.stages[c];
    var st := s.status;
    match s.state
    case NoSplitTransfer =>
      if st.error then Finish(d, c, false)
      else if (st.nak || st.nyet) && s.IsPeriodic() then Delay(d, c, hw)
      else Finish(d, c, true)
    case StartSplitState =>
      if st.error || st.nak || st.nyet then Finish(d, c, false)
      else if !MayTransact(s.sched, st) || !MayComplete(Transacted(s.sched, st)) then Fail(d)
      else
        var (sched, more) := NextSplit(Transacted(s.sched, st));
        var d1 := SetStage(d, c, s.(state := CompleteSplitState, splitComplete := true, sched := sched));
        if more then StartTransaction(d1, c, hw) else LeaveCompleteSplit(d1, c, hw)
    case CompleteSplitState =>
      if st.error then Finish(d, c, false)
      else if !MayTransact(s.sched, st) || !MayComplete(Transacted(s.sched, st)) then Fail(d)
      else
        var (sched, more) := NextSplit(Transacted(s.sched, st));
        var d1 := SetStage(d, c, s.(sched := sched));
        if more then StartTransaction(d1, c, hw) else LeaveCompleteSplit(d1, c, hw)
    case _ => Fail(d)
  }

  /** The interrupt handler for one channel; it first clears the channel's interrupt mask. */
  function Handled(d: Device, c: nat, hw: Hardware): (d': Device)
    requires d.WellFormed() && c < MAX_CHANNELS
    ensures d'.WellFormed()
  {
    var d0 := SetMask(d, c, Off);
    var s := d0.stages[c];
    match s.subState
    case WaitForChannelDisable => StartChannel(d0, c, hw)
    case WaitForTransactionComplete =>
      if hw.status == NO_STATUS.(halted := true) then StartTransaction(d0, c, hw)
      else if hw.status == NO_STATUS || !MayAccount(s, hw.status, hw.packetsLeft, hw.bytesLeft) || s.request.endpoint >= |d.pids| then Fail(d0)
      else
        var pid := PidAfter(s, d0.pids[s.request.endpoint], hw.status, hw.packetsLeft);
        var d1 := SetStage(d0, c, Accounted(s, hw.status, hw.packetsLeft, hw.bytesLeft));
        Advanced(d1.(pids := d1.pids[s.request.endpoint := pid]), c, hw)
    case UnknownSubState => Fail(d0)
  }

  /** The delay timer of channel `c` runs out. */
  function Delayed(d: Device, c: nat, hw: Hardware): (d': Device)
    requires d.WellFormed() && c < MAX_CHANNELS
    ensures d'.WellFormed()
  {
    var d0 := d.(timers := d.timers - {c});
    var s := d0.stages[c];
    if !s.state.PeriodicDelay? then Fail(d0)
    else if !s.split then StartTransaction(SetStage(d0, c, s.(state := NoSplitTransfer)), c, hw)
    else if s.sched.kind.NoSplit? then Fail(d0)
    else StartTransaction(SetStage(d0, c, s.(state := StartSplitState, splitComplete := false, sched := Started(s.sched))), c, hw)
  }

  datatype Step =
    | Submit(request: Request, hw: Hardware)
    | ChannelInterrupt(channel: nat, hw: Hardware)
    | Timer(channel: nat, hw: Hardware)
    | ResetPid(endpoint: nat)

  predicate Acceptable(pids: seq<Pid>, waiting: bool, r: Request) {
    && r.endpoint < |pids| && Sound(r, pids[r.endpoint])
    && (pids[r.endpoint].Setup? ==> r.kind.Control?) && (r.blocking ==> !waiting)
  }

  /** What the callers and the hardware stick to: a blocking request is not submitted while another one
      blocks, an interrupt arrives only on a channel whose mask is armed and reports what is possible,
      and only a timer that runs can run out. */
  ghost predicate Legal(d: Device, step: Step)
    requires d.WellFormed()
  {
    match step
    case Submit(r, _) => Acceptable(d.pids, d.waiting, r)
    case ChannelInterrupt(c, hw) =>
      && c < MAX_CHANNELS && !d.masks[c].Off?
      && (d.masks[c].Armed? && hw.status != NO_STATUS.(halted := true) ==> Possible(d.stages[c], hw.status, hw.packetsLeft, hw.bytesLeft))
    case Timer(c, _) => c < MAX_CHANNELS && c in d.timers
    case ResetPid(e) => e < |d.pids|
  }

  ghost function Apply(d: Device, step: Step): (d': Device)
    requires d.WellFormed() && Legal(d, step)
    ensures d'.WellFormed()
  {
    match step
    case Submit(r, hw) => Submitted(d, r, hw).0
    case ChannelInterrupt(c, hw) => Handled(d, c, hw)
    case Timer(c, hw) => Delayed(d, c, hw)
    case ResetPid(e) => d.(pids := d.pids[e := Data0])
  }
}
