/** The data toggle of a bulk or interrupt endpoint over whole runs of the host controller driver. */
module ToggleRuns {
  import opened Words
  import opened FrameSchedulers
  import opened UsbEndpoints
  import opened TransferStages
  import opened HostControllers
  import opened HostRuns

  /** Does the step account a transaction on endpoint `e`? */
  ghost predicate CountsFor(d: Device, step: Step, e: nat)
    requires d.WellFormed() && Legal(d, step)
  {
    step.ChannelInterrupt? && d.masks[step.channel].Armed? &&
    var s := d.stages[step.channel];
    s.request.endpoint == e && step.hw.status != NO_STATUS.(halted := true) && Accounting(s, step.hw.status)
  }

  /** The packets the driver accounts for endpoint `e` in this step. */
  ghost function AccountedIn(d: Device, step: Step, e: nat): nat
    requires d.WellFormed() && Legal(d, step)
  {
    if CountsFor(d, step, e) then PacketsMoved(d.stages[step.channel], step.hw.packetsLeft) else 0
  }

  ghost function AccountedAfter(d: Device, step: Step, e: nat, before: nat): nat
    requires d.WellFormed() && Legal(d, step)
  {
    if step == ResetPid(e) then 0 else before + AccountedIn(d, step, e)
  }

  /** The packets accounted for endpoint `e` since its toggle was reset; `before` of them before the run. */
  ghost function AccountedSinceReset(d: Device, steps: seq<Step>, e: nat, before: nat): nat
    requires d.WellFormed() && LegalRun(d, steps)
    decreases |steps|
  {
    if steps == [] then before
    else AccountedSinceReset(Apply(d, steps[0]), steps[1..], e, AccountedAfter(d, steps[0], e, before))
  }

  /** Endpoint `e` carries data stages only. */
  ghost predicate DataOnly(d: Device, e: nat) {
    d.WellFormed() && forall c :: 0 <= c < MAX_CHANNELS && c in d.inUse && d.stages[c].request.endpoint == e ==> !d.stages[c].request.statusStage
  }

  predicate DataStep(step: Step, e: nat) {
    step.Submit? && step.request.endpoint == e ==> !step.request.statusStage
  }

  lemma StartPids(d: Device, c: nat, hw: Hardware)
    requires d.WellFormed() && c < MAX_CHANNELS
    ensures StartTransaction(d, c, hw).pids == d.pids && StartChannel(d, c, hw).pids == d.pids
  {}

  /** An interrupt advances the toggle of its endpoint, if its transaction is accounted, and no other. */
  lemma HandledPids(d: Device, c: nat, hw: Hardware)
    requires Inv(d) && Legal(d, ChannelInterrupt(c, hw))
    ensures d.stages[c].request.endpoint < |d.pids|
    ensures var s := d.stages[c];
            Handled(d, c, hw).pids ==
            if CountsFor(d, ChannelInterrupt(c, hw), s.request.endpoint) then
              d.pids[s.request.endpoint := Skipped(d.pids[s.request.endpoint], PacketsMoved(s, hw.packetsLeft), s.request.statusStage)]
            else d.pids
  {
    assert ChannelOk(d, c);
    if d.masks[c].Armed? && hw.status != NO_STATUS.(halted := true) {
      AnswerOutcome(d, c, hw);
    } else {
      StartPids(SetMask(d, c, Off), c, hw);
    }
  }

  lemma ParityAdds(n: nat, k: nat)
    ensures Skipped(Parity(n), k, false) == Parity(n + k)
  {}

  lemma OtherPids(d: Device, step: Step)
    requires d.WellFormed() && Legal(d, step) && !step.ChannelInterrupt?
    ensures Apply(d, step).pids == if step.ResetPid? then d.pids[step.endpoint := Data0] else d.pids
  {
    match step
    case Submit(r, hw) => SubmittedPids(d, r, hw);
    case Timer(c, hw) => DelayedPids(d, c, hw);
    case ResetPid(_) =>
  }

  lemma SubmittedPids(d: Device, r: Request, hw: Hardware)
    requires d.WellFormed() && r.endpoint < |d.pids| && r.maxPacket > 0
    ensures Submitted(d, r, hw).0.pids == d.pids
  {}

  lemma DelayedPids(d: Device, c: nat, hw: Hardware)
    requires d.WellFormed() && c < MAX_CHANNELS
    ensures Delayed(d, c, hw).pids == d.pids
  {}

  lemma ToggleInterrupt(d: Device, step: Step, e: nat, n: nat)
    requires Inv(d) && Legal(d, step) && step.ChannelInterrupt? && DataOnly(d, e)
    requires e < |d.pids| && d.pids[e] == Parity(n)
    ensures e < |Apply(d, step).pids| && Apply(d, step).pids[e] == Parity(AccountedAfter(d, step, e, n))
  {
    var c := step.channel;
    var s := d.stages[c];
    assert Apply(d, step) == Handled(d, c, step.hw);
    assert step == ChannelInterrupt(c, step.hw);
    HandledPids(d, c, step.hw);
    if CountsFor(d, step, e) {
      assert ChannelOk(d, c);
      assert !s.request.statusStage;
      ParityAdds(n, PacketsMoved(s, step.hw.packetsLeft));
    } else if s.request.endpoint != e {
      assert Handled(d, c, step.hw).pids[e] == d.pids[e];
    }
  }

  lemma ToggleOther(d: Device, step: Step, e: nat, n: nat)
    requires d.WellFormed() && Legal(d, step) && !step.ChannelInterrupt?
    requires e < |d.pids| && d.pids[e] == Parity(n)
    ensures e < |Apply(d, step).pids| && Apply(d, step).pids[e] == Parity(AccountedAfter(d, step, e, n))
  {
    OtherPids(d, step);
  }

  /** One step keeps the toggle in step with the packets. */
  lemma ToggleStep(d: Device, step: Step, e: nat, n: nat)
    requires Inv(d) && Legal(d, step) && DataOnly(d, e)
    requires e < |d.pids| && d.pids[e] == Parity(n)
    ensures e < |Apply(d, step).pids| && Apply(d, step).pids[e] == Parity(AccountedAfter(d, step, e, n))
  {
    if step.ChannelInterrupt? {
      ToggleInterrupt(d, step, e, n);
    } else {
      ToggleOther(d, step, e, n);
    }
  }

  /** What a channel carries afterwards it carried before, or was submitted by the step. */
  lemma DataOnlyStep(d: Device, step: Step, e: nat)
    requires Inv(d) && Legal(d, step) && DataOnly(d, e) && DataStep(step, e)
    ensures DataOnly(Apply(d, step), e)
  {
    match step
    case ChannelInterrupt(c, hw) => HandledOk(d, c, hw);
    case Timer(c, hw) => DelayedOk(d, c, hw);
    case Submit(r, hw) => SubmittedOk(d, r, hw);
    case ResetPid(_) =>
  }

  lemma {:induction false} ToggleRun(d: Device, steps: seq<Step>, e: nat, n: nat)
    requires Inv(d) && LegalRun(d, steps) && DataOnly(d, e) && forall i :: 0 <= i < |steps| ==> DataStep(steps[i], e)
    requires e < |d.pids| && d.pids[e] == Parity(n)
    ensures e < |Exec(d, steps).pids| && Exec(d, steps).pids[e] == Parity(AccountedSinceReset(d, steps, e, n))
    decreases |steps|
  {
    if steps != [] {
      StepInv(d, steps[0]);
      ToggleStep(d, steps[0], e, n);
      DataOnlyStep(d, steps[0], e);
      ToggleRun(Apply(d, steps[0]), steps[1..], e, AccountedAfter(d, steps[0], e, n));
    }
  }

  /** Over every legal run of the driver the next PID of an endpoint that starts at DATA0 and carries no status
      stages is the parity of the packets accounted for it since its last reset, whatever happens on other
      endpoints and on however many channels its stages run. */
  lemma ToggleOverRuns(channels: nat, stages: seq<Stage>, pids: seq<Pid>, steps: seq<Step>, e: nat)
    requires channels <= MAX_CHANNELS && |stages| == MAX_CHANNELS && e < |pids| && pids[e] == Data0
    requires LegalRun(Init(channels, stages, pids), steps) && forall i :: 0 <= i < |steps| ==> DataStep(steps[i], e)
    ensures var d := Exec(Init(channels, stages, pids), steps);
            e < |d.pids| && d.pids[e] == Parity(AccountedSinceReset(Init(channels, stages, pids), steps, e, 0))
  {
    ToggleRun(Init(channels, stages, pids), steps, e, 0);
  }

  // ----- What the controller reports, and what the driver makes of it -------------------------------------

  /** The packets the controller reports to have moved on endpoint `e` in this step, whatever the status: those
      programmed into the register less those left. */
  ghost function ReportedIn(d: Device, step: Step, e: nat): nat
    requires d.WellFormed() && Legal(d, step)
  {
    if step.ChannelInterrupt? && d.masks[step.channel].Armed? && d.stages[step.channel].request.endpoint == e then
      var programmed := d.stages[step.channel].packetsPer % PACKETS_MASK;
      if step.hw.packetsLeft < programmed then programmed - step.hw.packetsLeft else 0
    else 0
  }

  ghost function ReportedAfter(d: Device, step: Step, e: nat, before: nat): nat
    requires d.WellFormed() && Legal(d, step)
  {
    if step == ResetPid(e) then 0 else before + ReportedIn(d, step, e)
  }

  ghost function ReportedSinceReset(d: Device, steps: seq<Step>, e: nat, before: nat): nat
    requires d.WellFormed() && LegalRun(d, steps)
    decreases |steps|
  {
    if steps == [] then before
    else ReportedSinceReset(Apply(d, steps[0]), steps[1..], e, ReportedAfter(d, steps[0], e, before))
  }

  /** The packets reported with a status that the driver does not account: errors, NAK, NYET, a bare halt. */
  ghost function LostIn(d: Device, step: Step, e: nat): nat
    requires d.WellFormed() && Legal(d, step)
  {
    if CountsFor(d, step, e) then 0 else ReportedIn(d, step, e)
  }

  ghost function LostAfter(d: Device, step: Step, e: nat, before: nat): nat
    requires d.WellFormed() && Legal(d, step)
  {
    if step == ResetPid(e) then 0 else before + LostIn(d, step, e)
  }

  ghost function LostSinceReset(d: Device, steps: seq<Step>, e: nat, before: nat): nat
    requires d.WellFormed() && LegalRun(d, steps)
    decreases |steps|
  {
    if steps == [] then before
    else LostSinceReset(Apply(d, steps[0]), steps[1..], e, LostAfter(d, steps[0], e, before))
  }

  /** The register holds 10 bits of the packet count, which does not change its parity. */
  lemma SameParity(packets: nat, left: nat)
    requires left <= packets % PACKETS_MASK
    ensures U32(packets - left) % 2 == (packets % PACKETS_MASK - left) % 2
  {
    LowBit10(packets);
    LowBit32(packets - left);
  }

  lemma LowBit10(x: nat)
    ensures x % PACKETS_MASK % 2 == x % 2
  {}

  lemma LowBit32(x: int)
    ensures U32(x) % 2 == x % 2
  {}

  lemma ReportedIsAccounted(d: Device, step: Step, e: nat)
    requires d.WellFormed() && Legal(d, step) && CountsFor(d, step, e)
    ensures ReportedIn(d, step, e) % 2 == AccountedIn(d, step, e) % 2
  {
    SameParity(d.stages[step.channel].packetsPer, step.hw.packetsLeft);
  }

  lemma SumParity(r: nat, a: nat, u: nat, x: nat, y: nat, z: nat)
    requires r % 2 == (a + u) % 2 && x % 2 == (y + z) % 2
    ensures (r + x) % 2 == ((a + y) + (u + z)) % 2
  {}

  lemma ReportedParts(d: Device, step: Step, e: nat, r: nat, a: nat, u: nat)
    requires d.WellFormed() && Legal(d, step) && r % 2 == (a + u) % 2
    ensures ReportedAfter(d, step, e, r) % 2 == (AccountedAfter(d, step, e, a) + LostAfter(d, step, e, u)) % 2
  {
    var x, y, z := ReportedIn(d, step, e), AccountedIn(d, step, e), LostIn(d, step, e);
    assert x % 2 == (y + z) % 2 by {
      if CountsFor(d, step, e) {
        ReportedIsAccounted(d, step, e);
      }
    }
    SumParity(r, a, u, x, y, z);
  }

  lemma {:induction false} ReportedAll(d: Device, steps: seq<Step>, e: nat, r: nat, a: nat, u: nat)
    requires d.WellFormed() && LegalRun(d, steps) && r % 2 == (a + u) % 2
    ensures ReportedSinceReset(d, steps, e, r) % 2 == (AccountedSinceReset(d, steps, e, a) + LostSinceReset(d, steps, e, u)) % 2
    decreases |steps|
  {
    if steps != [] {
      var step := steps[0];
      ReportedParts(d, step, e, r, a, u);
      ReportedAll(Apply(d, step), steps[1..], e, ReportedAfter(d, step, e, r), AccountedAfter(d, step, e, a), LostAfter(d, step, e, u));
    }
  }

  /** Over every legal run the next PID is the parity of the packets that were reported to have moved since the
      last reset exactly if an even number of them was reported with a status that the driver does not account. */
  lemma ToggleExactly(channels: nat, stages: seq<Stage>, pids: seq<Pid>, steps: seq<Step>, e: nat)
    requires channels <= MAX_CHANNELS && |stages| == MAX_CHANNELS && e < |pids| && pids[e] == Data0
    requires LegalRun(Init(channels, stages, pids), steps) && forall i :: 0 <= i < |steps| ==> DataStep(steps[i], e)
    ensures var d0 := Init(channels, stages, pids);
            var d := Exec(d0, steps);
            && e < |d.pids|
            && (d.pids[e] == Parity(ReportedSinceReset(d0, steps, e, 0)) <==> LostSinceReset(d0, steps, e, 0) % 2 == 0)
  {
    var d0 := Init(channels, stages, pids);
    ToggleOverRuns(channels, stages, pids, steps, e);
    ReportedAll(d0, steps, e, 0, 0, 0);
  }

  const TWO_PACKETS := Request(0, Bulk, 64, High, 0, true, false, 0, 128, false)

  /** One packet of two moved, then an error. */
  const HALFWAY := Hardware(NO_STATUS.(error := true, halted := true), 1, 64, false, 0, true)

  lemma TwoPacketsStart(stages: seq<Stage>)
    requires |stages| == MAX_CHANNELS
    ensures var d0 := Init(1, stages, [Data0]);
            && Legal(d0, Submit(TWO_PACKETS, HALFWAY))
            && var d := Apply(d0, Submit(TWO_PACKETS, HALFWAY));
               && d.masks[0].Armed? && d.stages[0].request == TWO_PACKETS && !d.stages[0].split
               && d.stages[0].packetsPer == 2 && d.stages[0].bytesPer == 128 && d.pids == [Data0]
  {
    var d0 := Init(1, stages, [Data0]);
    assert U32(128 + 64 - 1) / 64 == 2;
    assert FirstFree(d0, 0) == 0;
  }

  /** The input for which the toggle is wrong: one packet of a transfer of two is reported to have moved before
      an error, and the next PID is still DATA0. */
  lemma ErrorLosesPackets(stages: seq<Stage>)
    requires |stages| == MAX_CHANNELS
    ensures var d0 := Init(1, stages, [Data0]);
            var steps := [Submit(TWO_PACKETS, HALFWAY), ChannelInterrupt(0, HALFWAY)];
            && LegalRun(d0, steps) && ReportedSinceReset(d0, steps, 0, 0) == 1
            && Exec(d0, steps).pids == [Data0] && Data0 != Parity(1)
  {
    var d0 := Init(1, stages, [Data0]);
    var first, second := Submit(TWO_PACKETS, HALFWAY), ChannelInterrupt(0, HALFWAY);
    TwoPacketsStart(stages);
    StepInv(d0, first);
    var d := Apply(d0, first);
    assert 128 % BYTES_MASK == 128 && 2 % PACKETS_MASK == 2;
    assert Legal(d, second);
    AnswerOutcome(d, 0, HALFWAY);
    RunStep(Apply(d, second), second, []);
    RunStep(d, second, []);
    RunStep(d0, first, [second]);
    assert [first, second] == [first] + [second] && [second] == [second] + [];
    assert [first, second][1..] == [second] && [second][1..] == [];
    assert ReportedIn(d, second, 0) == 1 && ReportedIn(d0, first, 0) == 0;
    assert ReportedSinceReset(d, [second], 0, 0) == ReportedSinceReset(Apply(d, second), [], 0, 1) == 1;
  }
}
