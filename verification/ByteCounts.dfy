/** The length a stage reports, over whole runs of the host controller driver. */
module ByteCounts {
  import opened FrameSchedulers
  import opened UsbEndpoints
  import opened TransferStages
  import opened HostControllers
  import opened HostRuns
  import opened Transitions

  /** The bytes moved so far for each stage, by its number. */
  type Counts = map<nat, nat>

  function Of(b: Counts, id: nat): nat {
    if id in b then b[id] else 0
  }

  /** An accounted transaction adds the bytes its registers tell. */
  ghost function CountIn(d: Device, step: Step, b: Counts): Counts
    requires d.WellFormed() && Legal(d, step)
  {
    if step.ChannelInterrupt? && d.masks[step.channel].Armed? && step.hw.status != NO_STATUS.(halted := true)
       && Accounting(d.stages[step.channel], step.hw.status) then
      var s := d.stages[step.channel];
      b[s.id := Of(b, s.id) + TransactionBytes(s, step.hw.bytesLeft)]
    else b
  }

  ghost function CountAll(d: Device, steps: seq<Step>, b: Counts): Counts
    requires d.WellFormed() && LegalRun(d, steps)
    decreases |steps|
  {
    if steps == [] then b else CountAll(Apply(d, steps[0]), steps[1..], CountIn(d, steps[0], b))
  }

  // ----- The invariant ---------------------------------------------------------------------------------------

  ghost predicate TotalOk(d: Device, b: Counts, c: nat)
    requires d.WellFormed() && c < MAX_CHANNELS
  {
    c in d.inUse ==> d.stages[c].total == Of(b, d.stages[c].id)
  }

  /** What a completion reports. */
  predicate Reports(x: Completion, b: Counts) {
    x.length == if x.ok then Min(Of(b, x.id), x.size) else 0
  }

  ghost predicate Counted(d: Device, b: Counts) {
    && Inv(d) && (forall c: nat :: c < MAX_CHANNELS ==> TotalOk(d, b, c))
    && (forall x :: x in d.completed ==> Reports(x, b))
    && (forall id: nat :: id >= d.accepted ==> Of(b, id) == 0)
    && (forall c: nat :: c < MAX_CHANNELS && c in d.inUse && d.stages[c].request.statusStage ==> d.stages[c].transferSize == 0)
  }

  lemma {:induction false} CompletedCounts(log: seq<Completion>, x: Completion)
    requires x in log
    ensures Times(log, x.id) > 0
    decreases |log|
  {
    if log[|log|-1].id != x.id {
      assert x in log[..|log|-1];
      CompletedCounts(log[..|log|-1], x);
    }
  }

  /** A stage in flight has not been completed. */
  lemma NotCompleted(d: Device, c: nat, x: Completion)
    requires Inv(d) && c < MAX_CHANNELS && c in d.inUse && x in d.completed
    ensures x.id != d.stages[c].id
  {
    CompletedCounts(d.completed, x);
    assert Carries(d, c, d.stages[c].id);
  }

  /** The step goes on with the stage of channel `c`, having moved `n` more bytes, or ends it. */
  ghost predicate Moves(d: Device, c: nat, n: nat, d': Device)
    requires d.WellFormed() && c < MAX_CHANNELS
  {
    && OthersSame(d, d', c) && d'.accepted == d.accepted
    && (if c in d'.inUse then StillThere(d, c, d') && d'.stages[c].total == d.stages[c].total + n
        else Over(d, c, true, d.stages[c].total + n, d') || Over(d, c, false, d.stages[c].total, d'))
  }

  lemma OverMoves(d: Device, c: nat, ok: bool, total: nat, n: nat, d': Device)
    requires d.WellFormed() && c < MAX_CHANNELS && OthersSame(d, d', c) && d'.accepted == d.accepted && Over(d, c, ok, total, d')
    requires total == d.stages[c].total + if ok then n else 0
    ensures Moves(d, c, n, d')
  {}

  lemma RestsMoves(d: Device, c: nat, timerFree: bool, n: nat, d': Device)
    requires d.WellFormed() && c < MAX_CHANNELS && OthersSame(d, d', c) && d'.accepted == d.accepted
    requires Rests(d, c, timerFree, d.stages[c].total + n, d')
    ensures Moves(d, c, n, d')
  {}

  lemma RunsMoves(d: Device, c: nat, state: StageState, stillEnabled: bool, n: nat, d': Device)
    requires d.WellFormed() && c < MAX_CHANNELS && OthersSame(d, d', c) && d'.accepted == d.accepted
    requires Runs(d, c, state, stillEnabled, d.stages[c].total + n, d')
    ensures Moves(d, c, n, d')
  {}

  lemma MovesCounted(d: Device, c: nat, n: nat, d': Device, b: Counts, b': Counts)
    requires Counted(d, b) && Inv(d') && c < MAX_CHANNELS && c in d.inUse && Moves(d, c, n, d')
    requires b' == b[d.stages[c].id := Of(b, d.stages[c].id) + n] || (n == 0 && b' == b)
    ensures Counted(d', b')
  {
    var id := d.stages[c].id;
    assert Carries(d, c, id);
    assert TotalOk(d, b, c);
    assert InFlight(d, id) && id < d.accepted;
    assert forall i: nat :: i >= d.accepted ==> Of(b', i) == Of(b, i);
    forall e: nat | e < MAX_CHANNELS
      ensures TotalOk(d', b', e)
    {
      assert TotalOk(d, b, e);
      if e != c && e in d.inUse {
        assert Carries(d, e, d.stages[e].id);
      }
    }
    forall x | x in d'.completed
      ensures Reports(x, b')
    {
      if x in d.completed {
        assert Reports(x, b);
        NotCompleted(d, c, x);
      }
    }
  }

  lemma BeginsCounted(d: Device, c: nat, r: Request, d': Device, b: Counts)
    requires Counted(d, b) && Inv(d') && Begins(d, c, r, d') && d'.stages[c].total == 0
    requires r.statusStage ==> d'.stages[c].transferSize == 0
    ensures Counted(d', b)
  {
    forall e: nat | e < MAX_CHANNELS
      ensures TotalOk(d', b, e)
    {
      assert TotalOk(d, b, e);
    }
  }

  // ----- The steps ----------------------------------------------------------------------------------------------

  /** The bytes the interrupt accounts. */
  function BytesIn(d: Device, c: nat, hw: Hardware): nat
    requires d.WellFormed() && c < MAX_CHANNELS
  {
    if d.masks[c].Armed? && hw.status != NO_STATUS.(halted := true) && Accounting(d.stages[c], hw.status) then TransactionBytes(d.stages[c], hw.bytesLeft) else 0
  }

  lemma HaltMoves(d: Device, c: nat, hw: Hardware)
    requires Inv(d) && Legal(d, ChannelInterrupt(c, hw)) && (d.masks[c].HaltedOnly? || hw.status == NO_STATUS.(halted := true))
    requires OthersSame(d, Handled(d, c, hw), c) && Handled(d, c, hw).accepted == d.accepted
    ensures Moves(d, c, BytesIn(d, c, hw), Handled(d, c, hw))
  {
    HaltAnswer(d, c, hw);
  }

  lemma PlainMoves(d: Device, c: nat, hw: Hardware)
    requires Inv(d) && Legal(d, ChannelInterrupt(c, hw)) && d.masks[c].Armed? && hw.status != NO_STATUS.(halted := true)
    requires OthersSame(d, Handled(d, c, hw), c) && Handled(d, c, hw).accepted == d.accepted
    requires !d.stages[c].split
    ensures Moves(d, c, BytesIn(d, c, hw), Handled(d, c, hw))
  {
    PlainAnswer(d, c, hw);
    var s, d', n := d.stages[c], Handled(d, c, hw), BytesIn(d, c, hw);
    if hw.status.error {
      OverMoves(d, c, false, s.total, n, d');
    } else if (hw.status.nak || hw.status.nyet) && s.request.kind.Interrupt? {
      RestsMoves(d, c, hw.timerFree, n, d');
    } else {
      OverMoves(d, c, true, TotalAfter(s, hw), n, d');
    }
  }

  lemma StartSplitMoves(d: Device, c: nat, hw: Hardware)
    requires Inv(d) && Legal(d, ChannelInterrupt(c, hw)) && d.masks[c].Armed? && hw.status != NO_STATUS.(halted := true)
    requires OthersSame(d, Handled(d, c, hw), c) && Handled(d, c, hw).accepted == d.accepted
    requires d.stages[c].state.StartSplitState? && !d.stages[c].splitComplete && d.stages[c].split
    ensures Moves(d, c, BytesIn(d, c, hw), Handled(d, c, hw))
  {
    StartSplitAnswer(d, c, hw);
    var s, d', n := d.stages[c], Handled(d, c, hw), BytesIn(d, c, hw);
    if hw.status.error || hw.status.nak || hw.status.nyet {
      OverMoves(d, c, false, s.total, n, d');
    } else {
      RunsMoves(d, c, CompleteSplitState, hw.stillEnabled, n, d');
    }
  }

  lemma CompleteSplitMovesOn(d: Device, c: nat, hw: Hardware)
    requires Inv(d) && Legal(d, ChannelInterrupt(c, hw)) && d.masks[c].Armed? && hw.status != NO_STATUS.(halted := true)
    requires OthersSame(d, Handled(d, c, hw), c) && Handled(d, c, hw).accepted == d.accepted
    requires d.stages[c].state.CompleteSplitState?
    ensures Moves(d, c, BytesIn(d, c, hw), Handled(d, c, hw))
  {
    CompleteSplitAnswer(d, c, hw);
    var s, d', n := d.stages[c], Handled(d, c, hw), BytesIn(d, c, hw);
    if hw.status.error {
      OverMoves(d, c, false, s.total, n, d');
    } else if Repeats(s, hw.status) {
      RunsMoves(d, c, CompleteSplitState, hw.stillEnabled, n, d');
    } else if PacketsAfter(s, hw) == 0 {
      OverMoves(d, c, true, TotalAfter(s, hw), n, d');
    } else if s.request.kind.Interrupt? {
      RestsMoves(d, c, hw.timerFree, n, d');
    } else {
      RunsMoves(d, c, StartSplitState, hw.stillEnabled, n, d');
    }
  }

  lemma AnswerMoves(d: Device, c: nat, hw: Hardware)
    requires Inv(d) && Legal(d, ChannelInterrupt(c, hw)) && d.masks[c].Armed? && hw.status != NO_STATUS.(halted := true)
    requires OthersSame(d, Handled(d, c, hw), c) && Handled(d, c, hw).accepted == d.accepted
    ensures Moves(d, c, BytesIn(d, c, hw), Handled(d, c, hw))
  {
    assert ChannelOk(d, c);
    match d.stages[c].state
    case NoSplitTransfer => PlainMoves(d, c, hw);
    case StartSplitState => StartSplitMoves(d, c, hw);
    case CompleteSplitState => CompleteSplitMovesOn(d, c, hw);
    case _ =>
  }

  lemma InterruptMoves(d: Device, c: nat, hw: Hardware)
    requires Inv(d) && Legal(d, ChannelInterrupt(c, hw))
    ensures c in d.inUse && Moves(d, c, BytesIn(d, c, hw), Handled(d, c, hw))
  {
    assert ChannelOk(d, c);
    HandledOk(d, c, hw);
    if d.masks[c].HaltedOnly? || hw.status == NO_STATUS.(halted := true) {
      HaltMoves(d, c, hw);
    } else {
      AnswerMoves(d, c, hw);
    }
  }

  lemma StepCounted(d: Device, step: Step, b: Counts)
    requires Counted(d, b) && Legal(d, step)
    ensures Counted(Apply(d, step), CountIn(d, step, b))
  {
    StepInv(d, step);
    match step
    case ChannelInterrupt(c, hw) => InterruptCounted(d, c, hw, b);
    case Timer(c, hw) =>
      assert ChannelOk(d, c);
      DelayedOk(d, c, hw);
      TimerAnswer(d, c, hw);
      MovesCounted(d, c, 0, Delayed(d, c, hw), b, b);
    case Submit(r, hw) => SubmitCounted(d, r, hw, b);
    case ResetPid(e) => ResetCounted(d, e, b);
  }

  lemma InterruptCounted(d: Device, c: nat, hw: Hardware, b: Counts)
    requires Counted(d, b) && Legal(d, ChannelInterrupt(c, hw)) && Inv(Handled(d, c, hw))
    ensures Counted(Handled(d, c, hw), CountIn(d, ChannelInterrupt(c, hw), b))
  {
    InterruptMoves(d, c, hw);
    MovesCounted(d, c, BytesIn(d, c, hw), Handled(d, c, hw), b, CountIn(d, ChannelInterrupt(c, hw), b));
  }

  lemma SubmitCounted(d: Device, r: Request, hw: Hardware, b: Counts)
    requires Counted(d, b) && Legal(d, Submit(r, hw)) && Inv(Submitted(d, r, hw).0)
    ensures Counted(Submitted(d, r, hw).0, b)
  {
    SubmittedOk(d, r, hw);
    if FirstFree(d, 0) < d.channels {
      var d' := Submitted(d, r, hw).0;
      var s := FirstStage(d.accepted, r, d.pids[r.endpoint]);
      assert d'.stages[FirstFree(d, 0)].total == s.total == 0 && d'.stages[FirstFree(d, 0)].transferSize == s.transferSize;
      BeginsCounted(d, FirstFree(d, 0), r, d', b);
    }
  }

  lemma ResetCounted(d: Device, e: nat, b: Counts)
    requires Counted(d, b) && e < |d.pids| && Inv(d.(pids := d.pids[e := Data0]))
    ensures Counted(d.(pids := d.pids[e := Data0]), b)
  {
    var d' := d.(pids := d.pids[e := Data0]);
    forall c: nat | c < MAX_CHANNELS
      ensures TotalOk(d', b, c)
    {
      assert TotalOk(d, b, c);
    }
  }

  lemma {:induction false} RunCounted(d: Device, steps: seq<Step>, b: Counts)
    requires Counted(d, b) && LegalRun(d, steps)
    ensures Counted(Exec(d, steps), CountAll(d, steps, b))
    decreases |steps|
  {
    if steps != [] {
      StepCounted(d, steps[0], b);
      RunCounted(Apply(d, steps[0]), steps[1..], CountIn(d, steps[0], b));
    }
  }

  /** Over every legal run a stage that succeeds, split or not, reports the bytes that its accounted transactions moved,
      up to its size; one that fails reports none. */
  lemma ReportsWhatMoved(channels: nat, stages: seq<Stage>, pids: seq<Pid>, steps: seq<Step>, x: Completion)
    requires channels <= MAX_CHANNELS && |stages| == MAX_CHANNELS && LegalRun(Init(channels, stages, pids), steps)
    requires x in Exec(Init(channels, stages, pids), steps).completed
    ensures x.length == if x.ok then Min(Of(CountAll(Init(channels, stages, pids), steps, map[]), x.id), x.size) else 0
  {
    RunCounted(Init(channels, stages, pids), steps, map[]);
    assert Reports(x, CountAll(Init(channels, stages, pids), steps, map[]));
  }
}
