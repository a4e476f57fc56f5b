/** What each step of the host controller driver does to the channel it works on, case by case. */
module Transitions {
  import opened FrameSchedulers
  import opened UsbEndpoints
  import opened TransferStages
  import opened HostControllers
  import opened HostRuns

  /** The bytes the stage has moved after the answer. */
  function TotalAfter(s: Stage, hw: Hardware): nat {
    if Accounting(s, hw.status) then s.total + TransactionBytes(s, hw.bytesLeft) else s.total
  }

  /** The packets the stage has to do after the answer to a split transaction. */
  function PacketsAfter(s: Stage, hw: Hardware): int {
    if Accounting(s, hw.status) then s.packets - 1 else s.packets
  }

  /** The stage of channel `c` is over and reports what it moved, up to its size; the channel is free and quiet. */
  ghost predicate Over(d: Device, c: nat, ok: bool, total: nat, d': Device)
    requires d.WellFormed() && c < MAX_CHANNELS
  {
    var s := d.stages[c];
    && d'.WellFormed() && c !in d'.inUse && c !in d'.enabled && d'.masks[c].Off? && c !in d'.timers && !d'.failed
    && d'.completed == d.completed + [Completion(s.id, ok, if ok && !s.request.statusStage then Min(total, s.transferSize) else 0, s.transferSize)]
  }

  ghost predicate StillThere(d: Device, c: nat, d': Device)
    requires d.WellFormed() && c < MAX_CHANNELS
  {
    && d'.WellFormed() && c in d'.inUse && c in d'.enabled && d'.completed == d.completed && !d'.failed
    && d'.stages[c].id == d.stages[c].id && d'.stages[c].request == d.stages[c].request
    && d'.stages[c].transferSize == d.stages[c].transferSize && d'.stages[c].split == d.stages[c].split
  }

  /** The stage goes on in the given state with a transaction: its channel is armed, or, when it is still enabled, is
      halted first. */
  ghost predicate Runs(d: Device, c: nat, state: StageState, stillEnabled: bool, total: nat, d': Device)
    requires d.WellFormed() && c < MAX_CHANNELS
  {
    && StillThere(d, c, d') && c !in d'.timers && d'.stages[c].state == state && d'.stages[c].total == total
    && (d'.stages[c].split ==> (d'.stages[c].splitComplete <==> state.CompleteSplitState?))
    && d'.masks[c] == (if stillEnabled then HaltedOnly else Armed)
    && d'.stages[c].subState == (if stillEnabled then WaitForChannelDisable else WaitForTransactionComplete)
  }

  /** The stage waits for its next interval: its channel is quiet, and a timer runs for it if the kernel had one. */
  ghost predicate Rests(d: Device, c: nat, timerFree: bool, total: nat, d': Device)
    requires d.WellFormed() && c < MAX_CHANNELS
  {
    && StillThere(d, c, d') && d'.masks[c].Off? && d'.stages[c].state.PeriodicDelay? && d'.stages[c].total == total
    && (c in d'.timers <==> timerFree)
  }

  // ----- After accounting ----------------------------------------------------------------------------------

  /** In the middle of handling an answer on channel `c`: accounted, with the mask cleared. */
  ghost predicate Answered(d: Device, c: nat, hw: Hardware, d1: Device)
    requires d.WellFormed() && c < MAX_CHANNELS
  {
    && d1.WellFormed() && c in d1.inUse && c in d1.enabled && c < d1.channels && c !in d1.timers && d1.masks[c].Off? && !d1.failed
    && d1.completed == d.completed
    && var s, t := d.stages[c], d1.stages[c];
       && t.id == s.id && t.request == s.request && t.transferSize == s.transferSize && t.split == s.split && t.splitComplete == s.splitComplete
       && t.state == s.state && t.sched == s.sched && t.schedulerUsed == s.schedulerUsed && t.status == hw.status
       && t.total == TotalAfter(s, hw) && (s.split ==> t.packets == PacketsAfter(s, hw))
  }

  lemma AnswerAccounted(d: Device, c: nat, hw: Hardware) returns (d1: Device)
    requires Inv(d) && Legal(d, ChannelInterrupt(c, hw)) && d.masks[c].Armed? && hw.status != NO_STATUS.(halted := true)
    ensures Answered(d, c, hw, d1) && Handled(d, c, hw) == Advanced(d1, c, hw) && Settled(d1.stages[c]) && SchedOk(d1.stages[c])
  {
    assert ChannelOk(d, c);
    var s := d.stages[c];
    AccountedSettles(s, d.masks[c], hw);
    var pid := PidAfter(s, d.pids[s.request.endpoint], hw.status, hw.packetsLeft);
    d1 := SetStage(SetMask(d, c, Off), c, Accounted(s, hw.status, hw.packetsLeft, hw.bytesLeft)).(pids := d.pids[s.request.endpoint := pid]);
    StageAccounted(s, d.masks[c], hw);
  }

  lemma StageAccounted(s: Stage, m: Mask, hw: Hardware)
    requires StageOk(s, m) && m.Armed? && Possible(s, hw.status, hw.packetsLeft, hw.bytesLeft)
    ensures var t := Accounted(s, hw.status, hw.packetsLeft, hw.bytesLeft);
            && t.total == TotalAfter(s, hw) && (s.split ==> t.packets == PacketsAfter(s, hw))
  {
    if Counts(hw.status) {
      if !s.split {
        PlainAccounting(s, hw.status, hw.packetsLeft, hw.bytesLeft);
      } else if s.splitComplete {
        CompleteSplitMoves(s, hw.status, hw.packetsLeft, hw.bytesLeft);
      } else {
        StartSplitMovesNothing(s, hw.status, hw.packetsLeft, hw.bytesLeft);
      }
    }
  }

  lemma Finishes(d: Device, c: nat, hw: Hardware, d1: Device, ok: bool)
    requires d.WellFormed() && c < MAX_CHANNELS && Answered(d, c, hw, d1)
    ensures Over(d, c, ok, TotalAfter(d.stages[c], hw), Finish(d1, c, ok))
  {}

  lemma Starts(d: Device, c: nat, hw: Hardware, d1: Device, t: Stage)
    requires d.WellFormed() && c < MAX_CHANNELS && Answered(d, c, hw, d1)
    requires t.id == d1.stages[c].id && t.request == d1.stages[c].request && t.transferSize == d1.stages[c].transferSize && t.split == d1.stages[c].split
    requires t.total == d1.stages[c].total && (t.split ==> (t.splitComplete <==> t.state.CompleteSplitState?))
    ensures Runs(d, c, t.state, hw.stillEnabled, TotalAfter(d.stages[c], hw), StartTransaction(SetStage(d1, c, t), c, hw))
    ensures StartTransaction(SetStage(d1, c, t), c, hw).stages[c].packets == t.packets
    ensures !t.sched.kind.NoSplit? ==> StartTransaction(SetStage(d1, c, t), c, hw).stages[c].sched.tries == t.sched.tries
  {}

  lemma Delays(d: Device, c: nat, hw: Hardware, d1: Device)
    requires d.WellFormed() && c < MAX_CHANNELS && Answered(d, c, hw, d1) && d1.stages[c].request.kind.Interrupt?
    ensures Rests(d, c, hw.timerFree, TotalAfter(d.stages[c], hw), Delay(d1, c, hw))
    ensures Delay(d1, c, hw).stages[c].packets == d1.stages[c].packets
  {}

  // ----- The answer to a transaction, case by case -------------------------------------------------------------

  /** A stage that is not split: an error ends it in failure; a NAK or NYET makes an interrupt endpoint wait for its next
      interval; anything else ends it with success. */
  lemma PlainAnswer(d: Device, c: nat, hw: Hardware)
    requires Inv(d) && Legal(d, ChannelInterrupt(c, hw)) && d.masks[c].Armed? && hw.status != NO_STATUS.(halted := true)
    requires !d.stages[c].split
    ensures var s, d' := d.stages[c], Handled(d, c, hw);
            if hw.status.error then Over(d, c, false, s.total, d')
            else if (hw.status.nak || hw.status.nyet) && s.request.kind.Interrupt? then Rests(d, c, hw.timerFree, s.total, d') && d'.stages[c].packets == s.packets
            else Over(d, c, true, TotalAfter(s, hw), d')
  {
    assert ChannelOk(d, c);
    var d1 := AnswerAccounted(d, c, hw);
    var s := d.stages[c];
    if hw.status.error {
      Finishes(d, c, hw, d1, false);
    } else if (hw.status.nak || hw.status.nyet) && s.request.kind.Interrupt? {
      Delays(d, c, hw, d1);
      PlainPackets(d, c, hw);
    } else {
      Finishes(d, c, hw, d1, true);
    }
  }

  /** A status that is not accounted leaves the packets. */
  lemma PlainPackets(d: Device, c: nat, hw: Hardware)
    requires Inv(d) && Legal(d, ChannelInterrupt(c, hw)) && d.masks[c].Armed? && hw.status != NO_STATUS.(halted := true)
    requires !d.stages[c].split && !hw.status.error && (hw.status.nak || hw.status.nyet) && d.stages[c].request.kind.Interrupt?
    ensures Handled(d, c, hw).stages[c].packets == d.stages[c].packets
  {
    assert ChannelOk(d, c);
    AccountedSettles(d.stages[c], d.masks[c], hw);
  }

  /** A start-split: an error, NAK or NYET ends the stage in failure; otherwise a complete-split follows. */
  lemma StartSplitAnswer(d: Device, c: nat, hw: Hardware)
    requires Inv(d) && Legal(d, ChannelInterrupt(c, hw)) && d.masks[c].Armed? && hw.status != NO_STATUS.(halted := true)
    requires d.stages[c].state.StartSplitState?
    ensures var s, d' := d.stages[c], Handled(d, c, hw);
            if hw.status.error || hw.status.nak || hw.status.nyet then Over(d, c, false, s.total, d')
            else Runs(d, c, CompleteSplitState, hw.stillEnabled, s.total, d') && d'.stages[c].packets == s.packets
  {
    assert ChannelOk(d, c);
    var d1 := AnswerAccounted(d, c, hw);
    if hw.status.error || hw.status.nak || hw.status.nyet {
      Finishes(d, c, hw, d1, false);
    } else {
      var t := d1.stages[c];
      var sched := NextSplit(Transacted(t.sched, t.status)).0;
      Starts(d, c, hw, d1, t.(state := CompleteSplitState, splitComplete := true, sched := sched));
    }
  }

  /** Does the driver repeat the complete-split? As long as there are tries, after NYET or ACK, and, unless the endpoint
      is an interrupt endpoint, after NAK. */
  predicate Repeats(s: Stage, st: Status) {
    !st.xferComplete && s.sched.tries > 0 && (st.nyet || st.ack || !s.request.kind.Interrupt?)
  }

  /** A complete-split: an error ends the stage in failure; it is repeated while `Repeats` says so; then the stage ends
      with success if no packets are left, an interrupt endpoint waits for its next interval, and any other begins
      another split. */
  lemma CompleteSplitAnswer(d: Device, c: nat, hw: Hardware)
    requires Inv(d) && Legal(d, ChannelInterrupt(c, hw)) && d.masks[c].Armed? && hw.status != NO_STATUS.(halted := true)
    requires d.stages[c].state.CompleteSplitState?
    ensures var s, d' := d.stages[c], Handled(d, c, hw);
            var total, packets := TotalAfter(s, hw), PacketsAfter(s, hw);
            if hw.status.error then Over(d, c, false, s.total, d')
            else if Repeats(s, hw.status) then
              Runs(d, c, CompleteSplitState, hw.stillEnabled, total, d') && d'.stages[c].packets == packets && d'.stages[c].sched.tries == s.sched.tries - 1
            else if packets == 0 then Over(d, c, true, total, d')
            else if s.request.kind.Interrupt? then Rests(d, c, hw.timerFree, total, d') && d'.stages[c].packets == packets
            else Runs(d, c, StartSplitState, hw.stillEnabled, total, d') && d'.stages[c].packets == packets
  {
    assert ChannelOk(d, c);
    var d1 := AnswerAccounted(d, c, hw);
    if hw.status.error {
      assert Advanced(d1, c, hw) == Finish(d1, c, false);
      Finishes(d, c, hw, d1, false);
    } else {
      CompleteSplitGoesOn(d, c, hw, d1);
    }
  }

  lemma CompleteSplitGoesOn(d: Device, c: nat, hw: Hardware, d1: Device)
    requires d.WellFormed() && c < MAX_CHANNELS && Answered(d, c, hw, d1) && Settled(d1.stages[c]) && SchedOk(d1.stages[c])
    requires d.stages[c].state.CompleteSplitState? && d.stages[c].split && d.stages[c].splitComplete && !hw.status.error && d.stages[c].sched.tries <= 3
    ensures var s, d' := d.stages[c], Advanced(d1, c, hw);
            var total, packets := TotalAfter(s, hw), PacketsAfter(s, hw);
            if Repeats(s, hw.status) then
              Runs(d, c, CompleteSplitState, hw.stillEnabled, total, d') && d'.stages[c].packets == packets && d'.stages[c].sched.tries == s.sched.tries - 1
            else if packets == 0 then Over(d, c, true, total, d')
            else if s.request.kind.Interrupt? then Rests(d, c, hw.timerFree, total, d') && d'.stages[c].packets == packets
            else Runs(d, c, StartSplitState, hw.stillEnabled, total, d') && d'.stages[c].packets == packets
  {
    var t := d1.stages[c];
    var (sched, more) := NextSplit(Transacted(t.sched, t.status));
    var d2 := SetStage(d1, c, t.(sched := sched));
    assert more <==> Repeats(d.stages[c], hw.status);
    if more {
      Starts(d, c, hw, d1, t.(sched := sched));
    } else if t.packets == 0 {
      FinishesSched(d, c, hw, d1, sched);
    } else if t.request.kind.Interrupt? {
      DelaysSched(d, c, hw, d1, sched);
    } else {
      var next := t.(sched := Started(sched), state := StartSplitState, splitComplete := false);
      assert Advanced(d1, c, hw) == StartTransaction(SetStage(d1, c, next), c, hw);
      Starts(d, c, hw, d1, next);
    }
  }

  lemma FinishesSched(d: Device, c: nat, hw: Hardware, d1: Device, sched: Sched)
    requires d.WellFormed() && c < MAX_CHANNELS && Answered(d, c, hw, d1)
    ensures Over(d, c, true, TotalAfter(d.stages[c], hw), Finish(SetStage(d1, c, d1.stages[c].(sched := sched)), c, true))
  {}

  lemma DelaysSched(d: Device, c: nat, hw: Hardware, d1: Device, sched: Sched)
    requires d.WellFormed() && c < MAX_CHANNELS && Answered(d, c, hw, d1) && d1.stages[c].request.kind.Interrupt?
    ensures var d' := Delay(SetStage(d1, c, d1.stages[c].(sched := sched)), c, hw);
            Rests(d, c, hw.timerFree, TotalAfter(d.stages[c], hw), d') && d'.stages[c].packets == d1.stages[c].packets
  {}

  // ----- The other steps ---------------------------------------------------------------------------------------

  /** A bare halt starts the same transaction again; when the channel was being halted for a transaction, that is now
      started. */
  lemma HaltAnswer(d: Device, c: nat, hw: Hardware)
    requires Inv(d) && Legal(d, ChannelInterrupt(c, hw)) && (d.masks[c].HaltedOnly? || hw.status == NO_STATUS.(halted := true))
    ensures var s, d' := d.stages[c], Handled(d, c, hw);
            && Runs(d, c, s.state, d.masks[c].Armed? && hw.stillEnabled, s.total, d')
            && d'.stages[c].packets == s.packets && (s.split ==> d'.stages[c].sched.tries == s.sched.tries)
  {
    assert ChannelOk(d, c);
  }

  /** A start-split of an interrupt endpoint that goes out at once does so in the first microframe after the current one
      that is not 6. */
  predicate InNextFrame(s: Stage, frame: nat) {
    var f := s.sched.nextFrame;
    f < 8 && f != 6 && (f == (frame + 1) % 8 || ((frame + 1) % 8 == 6 && f == (frame + 2) % 8))
  }

  /** When its delay is over, a stage starts its transaction, a split one with a new start-split. */
  lemma TimerAnswer(d: Device, c: nat, hw: Hardware)
    requires Inv(d) && Legal(d, Timer(c, hw))
    ensures var s, d' := d.stages[c], Delayed(d, c, hw);
            && Runs(d, c, if s.split then StartSplitState else NoSplitTransfer, hw.stillEnabled, s.total, d')
            && d'.stages[c].packets == s.packets && (s.split ==> d'.stages[c].sched.phase.StartSplit?)
            && (s.split && !hw.stillEnabled ==> InNextFrame(d'.stages[c], hw.frame))
  {
    assert ChannelOk(d, c);
  }

  /** A stage that is accepted takes a free channel, which is quiet until then, and starts its first transaction. */
  lemma SubmitAnswer(d: Device, r: Request, hw: Hardware)
    requires Inv(d) && Legal(d, Submit(r, hw)) && Submitted(d, r, hw).1
    ensures exists c: nat ::
              && c < d.channels && c !in d.inUse && (forall e :: 0 <= e < c ==> e in d.inUse)
              && var d' := Submitted(d, r, hw).0;
                 var s := d'.stages[c];
                 && c in d'.inUse && c in d'.enabled && s.id == d.accepted && s.request == r && d'.completed == d.completed
                 && s.total == 0 && s.state == (if s.split then StartSplitState else NoSplitTransfer) && !s.splitComplete
                 && d'.masks[c] == (if hw.stillEnabled then HaltedOnly else Armed)
                 && (s.split && r.kind.Interrupt? && !hw.stillEnabled ==> InNextFrame(s, hw.frame))
  {
    SubmittedOk(d, r, hw);
    assert ChannelOk(Submitted(d, r, hw).0, FirstFree(d, 0));
  }
}
