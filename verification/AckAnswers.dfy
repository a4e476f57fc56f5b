/** Complete-splits answered by ACK without transfer complete: why the controller's contract restricts them, and
    that it restricts no more than it must. */
module AckAnswers {
  import opened Words
  import opened FrameSchedulers
  import opened UsbEndpoints
  import opened TransferStages
  import opened HostControllers
  import opened HostRuns

  /** A complete-split on channel `c` has moved its packet and is answered by ACK without transfer complete. */
  ghost predicate AckOnly(d: Device, c: nat, hw: Hardware) {
    && d.WellFormed() && c < MAX_CHANNELS && d.masks[c].Armed? && d.stages[c].state.CompleteSplitState?
    && Counts(hw.status) && hw.status.ack && !hw.status.xferComplete
    && hw.packetsLeft == 0 && hw.bytesLeft <= d.stages[c].bytesPer % BYTES_MASK
  }

  /** Interrupts on channel `c`, all within the contract, lead to a failing assertion. */
  ghost predicate Breaks(d: Device, c: nat, hws: seq<Hardware>)
    requires d.WellFormed()
    decreases |hws|
  {
    hws != [] && Legal(d, ChannelInterrupt(c, hws[0])) &&
    (Handled(d, c, hws[0]).failed || Breaks(Handled(d, c, hws[0]), c, hws[1..]))
  }

  ghost predicate CanBreak(d: Device, c: nat)
    requires d.WellFormed()
  {
    exists hws :: Breaks(d, c, hws)
  }

  lemma {:induction false} InvNeverBreaks(d: Device, c: nat, hws: seq<Hardware>)
    requires Inv(d)
    ensures !Breaks(d, c, hws)
    decreases |hws|
  {
    if hws != [] && Legal(d, ChannelInterrupt(c, hws[0])) {
      StepInv(d, ChannelInterrupt(c, hws[0]));
      InvNeverBreaks(Handled(d, c, hws[0]), c, hws[1..]);
    }
  }

  lemma AckMoves(s: Stage, hw: Hardware)
    requires AtStart(s) && s.split && s.splitComplete && hw.packetsLeft == 0 && hw.bytesLeft <= s.bytesPer
    requires Counts(hw.status)
    ensures MayAccount(s, hw.status, hw.packetsLeft, hw.bytesLeft)
    ensures Accounted(s, hw.status, hw.packetsLeft, hw.bytesLeft).packets == s.packets - 1
  {
    var st := hw.status.(xferComplete := true);
    assert s.bytesPer <= s.request.maxPacket;
    assert s.request.maxPacket * (1 - 0) == s.request.maxPacket;
    CompleteSplitMoves(s, st, hw.packetsLeft, hw.bytesLeft);
    assert Accounted(s, hw.status, hw.packetsLeft, hw.bytesLeft) == Accounted(s, st, hw.packetsLeft, hw.bytesLeft).(status := hw.status);
  }

  /** What is left when the last packet was answered like that with tries left: a stage that is retried with no
      packets to do. */
  ghost predicate Spent(d: Device, c: nat) {
    && d.WellFormed() && c < MAX_CHANNELS && d.stages[c].split && d.stages[c].splitComplete
    && d.stages[c].packets == 0 && d.stages[c].packetsPer == 1
    && ((d.masks[c].Armed? && d.stages[c].subState.WaitForTransactionComplete?) || (d.masks[c].HaltedOnly? && d.stages[c].subState.WaitForChannelDisable?))
  }

  lemma LastAckSpends(d: Device, c: nat, hw: Hardware)
    requires Inv(d) && AckOnly(d, c, hw) && d.stages[c].packets == 1 && d.stages[c].sched.tries > 0
    ensures Spent(Handled(d, c, hw), c) && !Handled(d, c, hw).failed
  {
    assert ChannelOk(d, c);
    var s := d.stages[c];
    AckMoves(s, hw);
    var pid := PidAfter(s, d.pids[s.request.endpoint], hw.status, hw.packetsLeft);
    var d1 := SetStage(SetMask(d, c, Off), c, Accounted(s, hw.status, hw.packetsLeft, hw.bytesLeft)).(pids := d.pids[s.request.endpoint := pid]);
    assert Handled(d, c, hw) == Advanced(d1, c, hw);
  }

  /** The answer to the retry: the packet moved, and transfer complete. */
  function LastAnswer(s: Stage): Hardware {
    Hardware(NO_STATUS.(xferComplete := true), 0, s.bytesPer % BYTES_MASK, false, 0, true)
  }

  lemma {:induction false} SpentBreaks(d: Device, c: nat)
    requires Spent(d, c)
    ensures CanBreak(d, c)
  {
    var hw := LastAnswer(d.stages[c]);
    if d.masks[c].Armed? {
      assert Breaks(d, c, [hw]);
      assert PacketsMoved(d.stages[c], 0) == 1;
      assert Handled(d, c, hw).failed;
    } else {
      var d1 := Handled(d, c, hw);
      assert Spent(d1, c) && d1.masks[c].Armed? && d1.stages[c].bytesPer == d.stages[c].bytesPer;
      assert PacketsMoved(d1.stages[c], 0) == 1;
      assert Handled(d1, c, hw).failed;
      assert Breaks(d1, c, [hw]);
      assert [hw, hw][1..] == [hw];
      assert Breaks(d, c, [hw, hw]);
    }
  }

  lemma AckLegal(d: Device, c: nat, hw: Hardware)
    requires Inv(d) && AckOnly(d, c, hw)
    ensures d.stages[c].packets > 0
    ensures Legal(d, ChannelInterrupt(c, hw)) <==> !(d.stages[c].packets == 1 && d.stages[c].sched.tries > 0)
  {
    assert ChannelOk(d, c);
    var s := d.stages[c];
    assert 1 % PACKETS_MASK == 1;
    assert s.bytesPer % BYTES_MASK <= s.bytesPer <= s.request.maxPacket;
    assert s.request.maxPacket * (1 - 0) == s.request.maxPacket;
  }

  /** An ACK-only answer leads to a failing assertion, with nothing but answers within the contract after it,
      exactly if it is that of the last packet and there are tries left. */
  lemma AckAloneExactly(d: Device, c: nat, hw: Hardware)
    requires Inv(d) && AckOnly(d, c, hw)
    ensures CanBreak(Handled(d, c, hw), c) <==> d.stages[c].packets == 1 && d.stages[c].sched.tries > 0
    ensures Legal(d, ChannelInterrupt(c, hw)) <==> !(d.stages[c].packets == 1 && d.stages[c].sched.tries > 0)
  {
    AckLegal(d, c, hw);
    if d.stages[c].packets == 1 && d.stages[c].sched.tries > 0 {
      LastAckSpends(d, c, hw);
      SpentBreaks(Handled(d, c, hw), c);
    } else {
      OtherAckKeeps(d, c, hw);
    }
  }

  lemma OtherAckKeeps(d: Device, c: nat, hw: Hardware)
    requires Inv(d) && Legal(d, ChannelInterrupt(c, hw))
    ensures !CanBreak(Handled(d, c, hw), c)
  {
    StepInv(d, ChannelInterrupt(c, hw));
    forall hws
      ensures !Breaks(Handled(d, c, hw), c, hws)
    {
      InvNeverBreaks(Handled(d, c, hw), c, hws);
    }
  }

  // ----- Such a state is reached -------------------------------------------------------------------------

  const SMALL := Request(0, Bulk, 64, Full, 1, false, false, 0, 10, false)
  const ACK := Hardware(NO_STATUS.(ack := true), 1, 10, false, 0, true)
  const LAST_ACK := Hardware(NO_STATUS.(ack := true), 0, 0, false, 0, true)

  lemma FirstState(stages: seq<Stage>) returns (d: Device)
    requires |stages| == MAX_CHANNELS
    ensures Legal(Init(1, stages, [Data0]), Submit(SMALL, ACK)) && d == Apply(Init(1, stages, [Data0]), Submit(SMALL, ACK))
    ensures d.masks[0].Armed? && d.inUse == {0} && !d.failed && d.pids == [Data0] && d.channels == 1
    ensures var s := d.stages[0];
            && s.request == SMALL && s.split && !s.splitComplete && s.state.StartSplitState? && s.subState.WaitForTransactionComplete?
            && s.bytesPer == 10 && s.packetsPer == 1 && s.packets == 1 && s.total == 0 && s.transferSize == 10
            && s.sched.kind.NonPeriodic? && s.sched.phase.StartSplit?
  {
    var d0 := Init(1, stages, [Data0]);
    assert U32(10 + 64 - 1) / 64 == 1;
    assert FirstFree(d0, 0) == 0;
    d := Apply(d0, Submit(SMALL, ACK));
    assert d.inUse == {0};
  }

  lemma SecondState(d1: Device) returns (d: Device)
    requires Inv(d1) && d1.masks[0].Armed? && 0 in d1.inUse
    requires var s := d1.stages[0];
             && s.request == SMALL && s.split && !s.splitComplete && s.state.StartSplitState? && s.subState.WaitForTransactionComplete?
             && s.bytesPer == 10 && s.packetsPer == 1 && s.packets == 1 && s.sched.kind.NonPeriodic? && s.sched.phase.StartSplit?
    ensures Legal(d1, ChannelInterrupt(0, ACK)) && d == Apply(d1, ChannelInterrupt(0, ACK)) && Inv(d)
    ensures AckOnly(d, 0, LAST_ACK) && d.stages[0].packets == 1 && d.stages[0].sched.tries == 3
  {
    assert ChannelOk(d1, 0);
    var s := d1.stages[0];
    assert 10 % BYTES_MASK == 10 && 1 % PACKETS_MASK == 1;
    assert Possible(s, ACK.status, 1, 10);
    StartSplitMovesNothing(s, ACK.status, 1, 10);
    d := Apply(d1, ChannelInterrupt(0, ACK));
    StepInv(d1, ChannelInterrupt(0, ACK));
    var pid := d1.pids[0];
    assert d == Advanced(SetStage(SetMask(d1, 0, Off), 0, s.(status := ACK.status)).(pids := d1.pids[0 := pid]), 0, ACK);
  }

  lemma TwoSteps(d0: Device, a: Step, b: Step)
    requires d0.WellFormed() && Legal(d0, a) && Legal(Apply(d0, a), b)
    ensures LegalRun(d0, [a, b]) && Exec(d0, [a, b]) == Apply(Apply(d0, a), b)
  {
    RunStep(Apply(d0, a), b, []);
    RunStep(d0, a, [b]);
    assert [a, b] == [a] + [b] && [b] == [b] + [];
  }

  /** One split stage of a single packet, its start-split answered by ACK: the next ACK-only answer breaks the
      driver. */
  lemma AckAloneReached(stages: seq<Stage>)
    requires |stages| == MAX_CHANNELS
    ensures var d0 := Init(1, stages, [Data0]);
            && LegalRun(d0, [Submit(SMALL, ACK), ChannelInterrupt(0, ACK)])
            && var d := Exec(d0, [Submit(SMALL, ACK), ChannelInterrupt(0, ACK)]);
               Inv(d) && AckOnly(d, 0, LAST_ACK) && CanBreak(Handled(d, 0, LAST_ACK), 0)
  {
    var d0 := Init(1, stages, [Data0]);
    var d1 := FirstState(stages);
    StepInv(d0, Submit(SMALL, ACK));
    var d := SecondState(d1);
    TwoSteps(d0, Submit(SMALL, ACK), ChannelInterrupt(0, ACK));
    AckAloneExactly(d, 0, LAST_ACK);
  }
}
