/** A control request that succeeds without keeping the discipline: the controller reports a NAK for its setup
    transaction. */
module ControlNaks {
  import opened Words
  import opened FrameSchedulers
  import opened UsbEndpoints
  import opened TransferStages
  import opened HostControllers
  import opened HostRuns
  import opened ToggleRuns
  import opened StageRuns
  import opened ControlTransfers

  const IDLE := Hardware(NO_STATUS, 0, 0, false, 0, true)

  /** The stage as its one transaction is answered. */
  function Started1(d: Device, r: Request): Stage
    requires r.maxPacket > 0 && r.endpoint < |d.pids|
  {
    FirstStage(d.accepted, r, d.pids[r.endpoint])
  }

  function OneAnswer(d: Device, hw: Hardware): Script
    requires d.WellFormed()
  {
    Script(IDLE, [ChannelInterrupt(FirstFree(d, 0), hw)])
  }

  /** A control stage that is not split, at the point where it is answered. */
  lemma StageArmed(d: Device, r: Request)
    requires Inv(d) && r.blocking && r.kind.Control? && !IsSplit(r) && Legal(d, Submit(r, IDLE)) && Unused(d, r.endpoint) && FirstFree(d, 0) < d.channels
    ensures var c := FirstFree(d, 0);
            var d1 := Submitted(d, r, IDLE).0;
            && Submitted(d, r, IDLE).1 && InProgress(d1, c, d.accepted, r, d.pids[r.endpoint], []) && d1.channels == d.channels && d1.pids == d.pids
            && d1.masks[c].Armed? && d1.stages[c].state.NoSplitTransfer? && d1.stages[c].subState.WaitForTransactionComplete?
            && d1.stages[c].bytesPer == Started1(d, r).bytesPer && d1.stages[c].packetsPer == Started1(d, r).packetsPer
  {
    StageBegins(d, r, IDLE);
    SubmittedOk(d, r, IDLE);
    OtherPids(d, Submit(r, IDLE));
  }

  lemma AnswerFinishes(d: Device, c: nat, hw: Hardware)
    requires Inv(d) && Legal(d, ChannelInterrupt(c, hw)) && c in d.inUse && d.masks[c].Armed? && d.stages[c].request.kind.Control?
    requires d.stages[c].state.NoSplitTransfer? && hw.status != NO_STATUS.(halted := true) && !hw.status.error
    ensures Completes(d, c, true, Handled(d, c, hw)) && Handled(d, c, hw).channels == d.channels
    ensures Handled(d, c, hw).waiting == (d.waiting && !d.stages[c].request.blocking)
  {
    assert ChannelOk(d, c);
    HandledOk(d, c, hw);
    var s := d.stages[c];
    AccountedSettles(s, d.masks[c], hw);
    var pid := PidAfter(s, d.pids[s.request.endpoint], hw.status, hw.packetsLeft);
    var d1 := SetStage(SetMask(d, c, Off), c, Accounted(s, hw.status, hw.packetsLeft, hw.bytesLeft)).(pids := d.pids[s.request.endpoint := pid]);
    assert Handled(d, c, hw) == Advanced(d1, c, hw) == Finish(d1, c, true);
    FinishCompletes(d1, c, true);
  }

  /** It succeeds with its first answer that is no error, and what is acknowledged depends on the status. */
  lemma AnsweredStage(d: Device, r: Request, hw: Hardware)
    requires Inv(d) && r.blocking && r.kind.Control? && !IsSplit(r) && Legal(d, Submit(r, IDLE)) && Unused(d, r.endpoint) && FirstFree(d, 0) < d.channels
    requires Possible(Started1(d, r), hw.status, hw.packetsLeft, hw.bytesLeft) && !hw.status.error
    ensures Plays(d, r, OneAnswer(d, hw)) && Succeeds(d, r, OneAnswer(d, hw))
    ensures StageAfter(d, r, OneAnswer(d, hw)).channels == d.channels
  {
    var c := FirstFree(d, 0);
    var d1 := Submitted(d, r, IDLE).0;
    StageArmed(d, r);
    Waiting(d1, c);
    var step := ChannelInterrupt(c, hw);
    assert Possible(d1.stages[c], hw.status, hw.packetsLeft, hw.bytesLeft);
    assert Legal(d1, step);
    AnswerFinishes(d1, c, hw);
    assert Awaits(Handled(d1, c, hw), []);
    assert [step][1..] == [];
    assert Awaits(d1, [step]);
    RunStep(d1, step, []);
    assert [step] == [step] + [];
  }

  // ----- The input ------------------------------------------------------------------------------------------------

  const TARGET := Target(0, 64, High, 0)
  const NAK := Hardware(NO_STATUS.(nak := true, halted := true), 1, 8, false, 0, true)
  const FOUR_BYTES := Hardware(NO_STATUS.(xferComplete := true, ack := true), 0, 4, false, 0, true)
  const NO_BYTES := Hardware(NO_STATUS.(xferComplete := true, ack := true), 0, 0, false, 0, true)

  /** The driver has one channel and one endpoint, and the endpoint is unused. */
  ghost predicate Small(d: Device) {
    Ready(d, TARGET) && d.channels == 1 && |d.pids| == 1 && !d.waiting
  }

  lemma SmallIsFree(d: Device)
    requires Small(d)
    ensures FirstFree(d, 0) == 0
  {
    assert ChannelOk(d, 0);
  }

  lemma SmallStage(d: Device, p: Part, hw: Hardware)
    requires Small(d) && !hw.status.error && (d.pids[0].Setup? || p.statusStage || d.pids == [Data1])
    requires Possible(Started1(d, StageRequest(TARGET, p, 0, 4)), hw.status, hw.packetsLeft, hw.bytesLeft)
    ensures var r := StageRequest(TARGET, p, 0, 4);
            var script := OneAnswer(d, hw);
            && Plays(d, r, script) && Succeeds(d, r, script) && Small(StageAfter(d, r, script))
            && PartOutcome(d, TARGET, p, 4, StageAfter(d, r, script), StageLog(d, r, script), true, !EndsOnNak(script.events), StageLength(d, r, script))
  {
    var r := StageRequest(TARGET, p, 0, 4);
    SmallIsFree(d);
    assert Legal(d, Submit(r, IDLE));
    AnsweredStage(d, r, hw);
    StageOutcome(d, r, OneAnswer(d, hw));
    OnePart(d, TARGET, p, 0, 4, OneAnswer(d, hw));
  }

  lemma Registers(d: Device)
    requires Small(d)
    ensures d.pids == [Setup] ==> Possible(Started1(d, StageRequest(TARGET, Part(false, false), 0, 4)), NAK.status, NAK.packetsLeft, NAK.bytesLeft)
    ensures d.pids == [Setup] ==> Possible(Started1(d, StageRequest(TARGET, Part(true, false), 0, 4)), FOUR_BYTES.status, FOUR_BYTES.packetsLeft, FOUR_BYTES.bytesLeft)
    ensures Possible(Started1(d, StageRequest(TARGET, Part(false, true), 0, 4)), NO_BYTES.status, NO_BYTES.packetsLeft, NO_BYTES.bytesLeft)
  {
    assert U32(8 + 64 - 1) / 64 == 1;
    assert 8 % BYTES_MASK == 8 && 1 % PACKETS_MASK == 1 && 0 % BYTES_MASK == 0;
  }

  function Of(p: Part): Request { StageRequest(TARGET, p, 0, 4) }

  const SETUP_PART := Part(false, false)
  const DATA_PART := Part(true, false)
  const STATUS_PART := Part(false, true)

  ghost predicate Success(d: Device, p: Part, script: Script) {
    d.WellFormed() && Plays(d, Of(p), script) && Succeeds(d, Of(p), script)
  }

  /** The setup transaction gets a NAK; the data stage goes out as another SETUP. */
  lemma TwoStages(d: Device) returns (s1: Script, s2: Script)
    requires Small(d) && d.pids == [Setup]
    ensures Success(d, SETUP_PART, s1) && EndsOnNak(s1.events) && StageLog(d, Of(SETUP_PART), s1) == []
    ensures var d1 := StageAfter(d, Of(SETUP_PART), s1);
            && Success(d1, DATA_PART, s2) && StageLog(d1, Of(DATA_PART), s2) == [Sent(Setup, true, false)]
            && var d2 := StageAfter(d1, Of(DATA_PART), s2); Small(d2) && d2.pids == [Data1]
  {
    Registers(d);
    SmallStage(d, SETUP_PART, NAK);
    s1 := OneAnswer(d, NAK);
    var d1 := StageAfter(d, Of(SETUP_PART), s1);
    assert d1.pids == [Setup];
    Registers(d1);
    SmallStage(d1, DATA_PART, FOUR_BYTES);
    s2 := OneAnswer(d1, FOUR_BYTES);
  }

  lemma ThirdStage(d: Device) returns (s3: Script)
    requires Small(d) && d.pids == [Data1]
    ensures Success(d, STATUS_PART, s3)
  {
    Registers(d);
    SmallStage(d, STATUS_PART, NO_BYTES);
    s3 := OneAnswer(d, NO_BYTES);
  }

  lemma ThreeStages(d: Device, s1: Script, s2: Script, s3: Script)
    requires Success(d, SETUP_PART, s1)
    requires Success(StageAfter(d, Of(SETUP_PART), s1), DATA_PART, s2)
    requires Success(StageAfter(StageAfter(d, Of(SETUP_PART), s1), Of(DATA_PART), s2), STATUS_PART, s3)
    ensures Playable(d, TARGET, 0, 4, Parts(true, 4), [s1, s2, s3])
    ensures var q := Requested(d, TARGET, true, 0, 4, [s1, s2, s3]);
            var d1 := StageAfter(d, Of(SETUP_PART), s1);
            && q.ok && (q.clean ==> !EndsOnNak(s1.events))
            && exists log3 :: q.log == StageLog(d, Of(SETUP_PART), s1) + (StageLog(d1, Of(DATA_PART), s2) + log3)
  {
    var p1, p2, p3 := SETUP_PART, DATA_PART, STATUS_PART;
    var d1 := StageAfter(d, Of(p1), s1);
    var d2 := StageAfter(d1, Of(p2), s2);
    var d3 := StageAfter(d2, Of(p3), s3);
    var n1, n2 := StageLength(d, Of(p1), s1), StageLength(d1, Of(p2), s2);
    CarryOne(d3, [], n2);
    CarryMore(d2, p3, [], s3, [], n2);
    assert [p3] == [p3] + [] && [s3] == [s3] + [];
    CarryMore(d1, p2, [p3], s2, [s3], n1);
    assert [p2, p3] == [p2] + [p3] && [s2, s3] == [s2] + [s3];
    CarryMore(d, p1, [p2, p3], s1, [s2, s3], 0);
    assert Parts(true, 4) == [p1] + [p2, p3] && [s1, s2, s3] == [s1] + [s2, s3];
  }

  /** An IN request for 4 bytes. The setup transaction gets a NAK, which the driver takes for success, so that the
      endpoint still stands at SETUP and the data stage goes out as SETUP. The request succeeds all the same. */
  lemma NakBreaksDiscipline(stages: seq<Stage>) returns (scripts: seq<Script>)
    requires |stages| == MAX_CHANNELS
    ensures var d := Init(1, stages, [Setup]);
            && Ready(d, TARGET) && Playable(d, TARGET, 0, 4, Parts(true, 4), scripts)
            && var q := Requested(d, TARGET, true, 0, 4, scripts);
               && q.ok && q.log != [] && q.log[0] == Sent(Setup, true, false)
               && TARGET.endpoint < |q.device.pids| && !Disciplined(true, 4, q.log, q.device.pids[0])
  {
    var d := Init(1, stages, [Setup]);
    var s1, s2 := TwoStages(d);
    var s3 := ThirdStage(StageAfter(StageAfter(d, Of(SETUP_PART), s1), Of(DATA_PART), s2));
    scripts := [s1, s2, s3];
    ThreeStages(d, s1, s2, s3);
    ControlDiscipline(d, TARGET, true, 0, 4, scripts);
  }

  lemma CarryOne(d: Device, scripts: seq<Script>, length: nat)
    requires d.WellFormed() && scripts == []
    ensures Playable(d, TARGET, 0, 4, [], scripts) && Carry(d, TARGET, 0, 4, [], scripts, length) == Result(d, true, [], length, true)
  {}

  lemma CarryMore(d: Device, p: Part, rest: seq<Part>, script: Script, scripts: seq<Script>, length: nat)
    requires d.WellFormed() && Plays(d, StageRequest(TARGET, p, 0, 4), script) && Succeeds(d, StageRequest(TARGET, p, 0, 4), script)
    requires Playable(StageAfter(d, StageRequest(TARGET, p, 0, 4), script), TARGET, 0, 4, rest, scripts)
    ensures Playable(d, TARGET, 0, 4, [p] + rest, [script] + scripts)
    ensures var r := StageRequest(TARGET, p, 0, 4);
            var d' := StageAfter(d, r, script);
            var q := Carry(d', TARGET, 0, 4, rest, scripts, if p.statusStage then length else StageLength(d, r, script));
            Carry(d, TARGET, 0, 4, [p] + rest, [script] + scripts, length)
            == q.(log := StageLog(d, r, script) + q.log, clean := !EndsOnNak(script.events) && q.clean)
  {
    assert ([p] + rest)[1..] == rest && ([script] + scripts)[1..] == scripts;
  }
}
