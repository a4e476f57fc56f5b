/** The driver object (ext/uspi/lib/dwhcidevice.c). Its methods do what the steps of the machine in
    HostControllers say. */
module Controllers {
  import opened Words
  import opened FrameSchedulers
  import opened UsbEndpoints
  import opened TransferStages
  import opened HostControllers
  import opened HostRuns
  import opened StageRuns
  import opened ControlTransfers

  /** The channels whose bit is set in a word. */
  ghost function Channels(w: nat): set<nat> {
    set c: nat | c < MAX_CHANNELS && Bit(w, c)
  }

  lemma ChannelsOfSet(w: nat, c: nat)
    requires c < MAX_CHANNELS
    ensures Channels(SetBit(w, c)) == Channels(w) + {c}
  {
    forall e: nat { BitOfSet(w, c, e); }
  }

  lemma ChannelsOfClear(w: nat, c: nat)
    ensures Channels(ClearBit(w, c)) == Channels(w) - {c}
  {
    forall e: nat { BitOfClear(w, c, e); }
  }

  class Controller {
    var channels: nat
    var channelAllocated: nat       // bit mask
    var interruptMask: nat          // the register that enables channel interrupts
    var masks: seq<Mask>            // the interrupt mask register of each channel
    var stageData: seq<Stage>       // embedded, one per channel
    var timers: set<nat>
    var pids: seq<Pid>
    var waiting: bool
    var accepted: nat               // observed: stages accepted so far
    var completed: seq<Completion>  // observed: calls of completion routines

    ghost function View(): Device
      reads this
    {
      Device(channels, Channels(channelAllocated), Channels(interruptMask), masks, stageData, timers, pids, waiting, accepted, completed, false)
    }

    /** The lowest free channel is taken; MAX_CHANNELS when there is none. */
    method AllocateChannel() returns (c: nat)
      requires channels <= MAX_CHANNELS
      modifies this`channelAllocated
      ensures FirstFree(old(View()), 0) < channels ==>
                c == FirstFree(old(View()), 0) && View() == old(View()).(inUse := old(View()).inUse + {c})
      ensures FirstFree(old(View()), 0) == channels ==> c == MAX_CHANNELS && View() == old(View())
    {
      ghost var d := View();
      var n := 0;
      while n < channels
        invariant n <= channels && View() == d && channelAllocated == old(channelAllocated)
        invariant FirstFree(d, 0) == FirstFree(d, n)
      {
        if !Bit(channelAllocated, n) {
          ChannelsOfSet(channelAllocated, n);
          channelAllocated := SetBit(channelAllocated, n);
          return n;
        }
        n := n + 1;
      }
      return MAX_CHANNELS;
    }

    method FreeChannel(c: nat)
      requires c < channels <= MAX_CHANNELS && c in View().inUse
      modifies this`channelAllocated
      ensures View() == old(View()).(inUse := old(View()).inUse - {c})
    {
      ChannelsOfClear(channelAllocated, c);
      channelAllocated := ClearBit(channelAllocated, c);
    }

    method EnableChannelInterrupt(c: nat)
      requires c < MAX_CHANNELS
      modifies this`interruptMask
      ensures View() == old(View()).(enabled := old(View()).enabled + {c})
    {
      ChannelsOfSet(interruptMask, c);
      interruptMask := SetBit(interruptMask, c);
    }

    method DisableChannelInterrupt(c: nat)
      requires c < MAX_CHANNELS
      modifies this`interruptMask
      ensures View() == old(View()).(enabled := old(View()).enabled - {c})
    {
      ChannelsOfClear(interruptMask, c);
      interruptMask := ClearBit(interruptMask, c);
    }

    method BeginTransaction(c: nat, hw: Hardware)
      requires View().WellFormed() && c < MAX_CHANNELS
      modifies this`stageData, this`masks
      ensures View() == StartTransaction(old(View()), c, hw)
    {
      if hw.stillEnabled {
        stageData := stageData[c := stageData[c].(subState := WaitForChannelDisable)];
        masks := masks[c := HaltedOnly];
      } else {
        BeginChannel(c, hw);
      }
    }

    method BeginChannel(c: nat, hw: Hardware)
      requires View().WellFormed() && c < MAX_CHANNELS
      modifies this`stageData, this`masks
      ensures View() == StartChannel(old(View()), c, hw)
    {
      stageData := stageData[c := stageData[c].(subState := WaitForTransactionComplete)];
      if stageData[c].schedulerUsed {
        stageData := stageData[c := stageData[c].(sched := Waited(stageData[c].sched, hw.frame))];
      }
      masks := masks[c := Armed];
    }

    /** The three lines that end every stage, and the call of the completion routine. */
    method EndStage(c: nat, ok: bool)
      requires View().WellFormed() && c < channels && c in View().inUse
      modifies this
      ensures View() == Finish(old(View()), c, ok)
    {
      var s := stageData[c];
      var length := if ok && !s.request.statusStage then s.ResultLen() else 0;
      DisableChannelInterrupt(c);
      FreeChannel(c);
      completed := completed + [Completion(s.id, ok, length, s.transferSize)];
      if s.request.blocking {
        waiting := false;
      }
    }

    method BeginDelay(c: nat, hw: Hardware)
      requires View().WellFormed() && c < MAX_CHANNELS && stageData[c].request.kind.Interrupt?
      modifies this`stageData, this`timers
      ensures View() == Delay(old(View()), c, hw)
    {
      stageData := stageData[c := stageData[c].(state := PeriodicDelay)];
      if hw.timerFree {
        timers := timers + {c};
      }
    }

    method TransferStageAsync(r: Request, hw: Hardware) returns (ok: bool)
      requires View().WellFormed() && r.endpoint < |pids| && r.maxPacket > 0
      modifies this
      ensures (View(), ok) == Submitted(old(View()), r, hw)
    {
      ghost var d := View();
      var c := AllocateChannel();
      if c >= channels {
        return false;
      }
      var s := NewStage(accepted, r, pids[r.endpoint]);
      EnableChannelInterrupt(c);
      if !s.split {
        s := s.(state := NoSplitTransfer);
      } else {
        s := s.(state := StartSplitState, splitComplete := false);
        s := s.(sched := Started(s.sched));
      }
      assert s == FirstStage(d.accepted, r, d.pids[r.endpoint]);
      stageData := stageData[c := s];
      accepted := accepted + 1;
      waiting := waiting || r.blocking;
      assert View() == SetStage(d, c, FirstStage(d.accepted, r, d.pids[r.endpoint])).(
                         inUse := d.inUse + {c}, enabled := d.enabled + {c}, accepted := d.accepted + 1, waiting := d.waiting || r.blocking);
      BeginTransaction(c, hw);
      return true;
    }

    method ChannelInterruptHandler(c: nat, hw: Hardware)
      requires View().WellFormed() && c < MAX_CHANNELS && !Handled(View(), c, hw).failed
      modifies this
      ensures View() == Handled(old(View()), c, hw)
    {
      masks := masks[c := Off];
      match stageData[c].subState
      case WaitForChannelDisable =>
        BeginChannel(c, hw);
      case WaitForTransactionComplete =>
        if hw.status == NO_STATUS.(halted := true) {
          BeginTransaction(c, hw);
          return;
        }
        var s := stageData[c];
        pids := pids[s.request.endpoint := PidAfter(s, pids[s.request.endpoint], hw.status, hw.packetsLeft)];
        stageData := stageData[c := Accounted(s, hw.status, hw.packetsLeft, hw.bytesLeft)];
        AdvanceStage(c, hw);
      case UnknownSubState =>
    }

    method AdvanceStage(c: nat, hw: Hardware)
      requires View().WellFormed() && c < MAX_CHANNELS && !Advanced(View(), c, hw).failed
      modifies this
      ensures View() == Advanced(old(View()), c, hw)
    {
      var s := stageData[c];
      match s.state
      case NoSplitTransfer =>
        if s.status.error {
          EndStage(c, false);
        } else if (s.status.nak || s.status.nyet) && s.IsPeriodic() {
          BeginDelay(c, hw);
        } else {
          EndStage(c, true);
        }
      case StartSplitState =>
        if s.status.error || s.status.nak || s.status.nyet {
          EndStage(c, false);
          return;
        }
        var (sched, more) := NextSplit(Transacted(s.sched, s.status));
        stageData := stageData[c := s.(state := CompleteSplitState, splitComplete := true, sched := sched)];
        if more {
          BeginTransaction(c, hw);
        } else {
          AfterCompleteSplit(c, hw);
        }
      case CompleteSplitState =>
        if s.status.error {
          EndStage(c, false);
          return;
        }
        var (sched, more) := NextSplit(Transacted(s.sched, s.status));
        stageData := stageData[c := s.(sched := sched)];
        if more {
          BeginTransaction(c, hw);
        } else {
          AfterCompleteSplit(c, hw);
        }
      case _ =>
    }

    method AfterCompleteSplit(c: nat, hw: Hardware)
      requires View().WellFormed() && c < MAX_CHANNELS && !LeaveCompleteSplit(View(), c, hw).failed
      modifies this
      ensures View() == LeaveCompleteSplit(old(View()), c, hw)
    {
      var s := stageData[c];
      if !s.IsComplete() {
        if !s.IsPeriodic() {
          stageData := stageData[c := s.(state := StartSplitState, splitComplete := false, sched := Started(s.sched))];
          BeginTransaction(c, hw);
        } else {
          BeginDelay(c, hw);
        }
      } else {
        EndStage(c, true);
      }
    }

    method TimerHandler(c: nat, hw: Hardware)
      requires View().WellFormed() && c < MAX_CHANNELS && !Delayed(View(), c, hw).failed
      modifies this
      ensures View() == Delayed(old(View()), c, hw)
    {
      timers := timers - {c};
      var s := stageData[c];
      if s.split {
        stageData := stageData[c := s.(state := StartSplitState, splitComplete := false, sched := Started(s.sched))];
      } else {
        stageData := stageData[c := s.(state := NoSplitTransfer)];
      }
      BeginTransaction(c, hw);
    }

    /** One interrupt: all channels pending in the register `pending` when it was read are handled, in
        ascending order, with what their completion routines submit in between. */
    method InterruptHandler(pending: nat, hws: seq<Hardware>, callbacks: seq<Callback>)
      requires |hws| == |callbacks| == MAX_CHANNELS && Inv(View())
      requires forall e :: e in Channels(pending) ==> Legal(View(), ChannelInterrupt(e, hws[e]))
      modifies this
      ensures LegalRun(old(View()), Sweep(old(View()), 0, Channels(pending), hws, callbacks))
      ensures View() == Exec(old(View()), Sweep(old(View()), 0, Channels(pending), hws, callbacks))
      ensures Inv(View())
    {
      ghost var p := Channels(pending);
      ghost var d0 := View();
      SweepsBegin(d0, p, hws, callbacks);
      ghost var result := Exec(d0, Sweep(d0, 0, p, hws, callbacks));
      var n := 0;
      while n < channels
        invariant n <= channels <= MAX_CHANNELS && Sweeps(View(), n, p, hws, callbacks, result)
      {
        if Bit(pending, n) {
          HandleChannel(n, p, hws, callbacks, result);
        } else {
          SweepsSkip(View(), n, p, hws, callbacks, result);
        }
        n := n + 1;
      }
      SweepsEnd(View(), n, p, hws, callbacks, result);
    }

    /** One channel of the loop above. */
    method HandleChannel(c: nat, ghost p: set<nat>, hws: seq<Hardware>, callbacks: seq<Callback>, ghost end: Device)
      requires Sweeps(View(), c, p, hws, callbacks, end) && c in p && c < channels
      modifies this
      ensures channels == old(channels) && Sweeps(View(), c + 1, p, hws, callbacks, end)
    {
      SweepsOn(View(), c, p, hws, callbacks, end);
      var before := |completed|;
      ChannelInterruptHandler(c, hws[c]);
      if |completed| != before && callbacks[c].Resubmit? && Acceptable(pids, waiting, callbacks[c].request) {
        var _ := TransferStageAsync(callbacks[c].request, callbacks[c].hw);
      }
    }

    // ----- Blocking requests --------------------------------------------------------------------------

    /** One step of the driver or its environment. */
    method Perform(step: Step)
      requires Inv(View()) && Legal(View(), step)
      modifies this
      ensures View() == Apply(old(View()), step) && Inv(View())
    {
      StepInv(View(), step);
      match step
      case Submit(r, hw) => var _ := TransferStageAsync(r, hw);
      case ChannelInterrupt(c, hw) => ChannelInterruptHandler(c, hw);
      case Timer(c, hw) => TimerHandler(c, hw);
      case ResetPid(e) => pids := pids[e := Data0];
    }

    /** `TransferStage`: submits the stage and waits for the completion routine, while interrupts, timers and other
        submissions happen. */
    method TransferStage(r: Request, script: Script) returns (ok: bool, length: nat)
      requires Inv(View()) && Plays(View(), r, script)
      modifies this
      ensures Inv(View()) && View() == StageAfter(old(View()), r, script)
      ensures ok == Succeeds(old(View()), r, script) && length == StageLength(old(View()), r, script)
    {
      PlaysOut(View(), r, script);
      StageTells(View(), r, script);
      ok := TransferStageAsync(r, script.hw);
      if ok {
        WaitForCompletion(script.events);
        ok := completed != [] && completed[|completed|-1].ok;
      }
      length := if completed == [] then 0 else completed[|completed|-1].length;
    }

    method WaitForCompletion(events: seq<Step>)
      requires Inv(View()) && Awaits(View(), events)
      modifies this
      ensures LegalRun(old(View()), events) && View() == Exec(old(View()), events) && Inv(View())
    {
      AwaitsLegal(View(), events);
      ghost var end := Exec(View(), events);
      var i := 0;
      assert events[0..] == events;
      while waiting
        invariant i <= |events| && Inv(View()) && Awaits(View(), events[i..])
        invariant LegalRun(View(), events[i..]) && Exec(View(), events[i..]) == end
        decreases |events| - i
      {
        assert events[i..][0] == events[i] && events[i..][1..] == events[i+1..];
        Perform(events[i]);
        i := i + 1;
      }
    }

    /** `SubmitBlockingRequest` for a control endpoint. */
    method SubmitControlRequest(t: Target, isIn: bool, buffer: nat, bufLen: nat, scripts: seq<Script>) returns (ok: bool, length: nat)
      requires Ready(View(), t) && (isIn ==> bufLen > 0) && Playable(View(), t, buffer, bufLen, Parts(isIn, bufLen), scripts)
      modifies this
      ensures var q := Requested(old(View()), t, isIn, buffer, bufLen, scripts);
              ok == q.ok && View() == q.device && (ok ==> length == q.length)
    {
      if isIn {
        ok, length := ThreeTransfers(t, Part(false, false), Part(true, false), Part(false, true), buffer, bufLen, scripts);
      } else if bufLen == 0 {
        ok, length := TwoTransfers(t, Part(false, false), Part(true, true), buffer, bufLen, scripts, 0);
        assert Parts(isIn, bufLen) == [Part(false, false)] + [Part(true, true)];
      } else {
        ok, length := ThreeTransfers(t, Part(false, false), Part(false, false), Part(true, true), buffer, bufLen, scripts);
      }
    }

    /** Two stages, one after the other if the first succeeds; the second is a status stage. */
    method TwoTransfers(t: Target, p1: Part, p2: Part, buffer: nat, bufLen: nat, scripts: seq<Script>, ghost n: nat) returns (ok: bool, length: nat)
      requires Ready(View(), t) && Playable(View(), t, buffer, bufLen, [p1] + [p2], scripts) && !p1.statusStage && p2.statusStage
      modifies this
      ensures var q := Carry(old(View()), t, buffer, bufLen, [p1] + [p2], scripts, n);
              ok == q.ok && View() == q.device && (ok ==> length == q.length)
    {
      ghost var d := View();
      ghost var s1, s2 := LastTwo(d, t, p1, p2, buffer, bufLen, scripts, n);
      PartPlays(d, t, p1, [p2], buffer, bufLen, scripts);
      ok, length := TransferStage(StageRequest(t, p1, buffer, bufLen), scripts[0]);
      if ok {
        PartPlays(View(), t, p2, [], buffer, bufLen, scripts[1..]);
        assert [p2] == [p2] + [];
        var done, _ := TransferStage(StageRequest(t, p2, buffer, bufLen), scripts[1]);
        ok := done;
      }
    }

    method ThreeTransfers(t: Target, p1: Part, p2: Part, p3: Part, buffer: nat, bufLen: nat, scripts: seq<Script>) returns (ok: bool, length: nat)
      requires Ready(View(), t) && Playable(View(), t, buffer, bufLen, [p1, p2, p3], scripts) && !p1.statusStage && !p2.statusStage && p3.statusStage
      modifies this
      ensures var q := Carry(old(View()), t, buffer, bufLen, [p1, p2, p3], scripts, 0);
              ok == q.ok && View() == q.device && (ok ==> length == q.length)
    {
      ghost var d := View();
      assert [p1, p2, p3] == [p1] + ([p2] + [p3]);
      PartPlays(d, t, p1, [p2] + [p3], buffer, bufLen, scripts);
      ok, length := TransferStage(StageRequest(t, p1, buffer, bufLen), scripts[0]);
      if ok {
        ok, length := TwoTransfers(t, p2, p3, buffer, bufLen, scripts[1..], length);
      }
    }
  }

  lemma StageTells(d: Device, r: Request, script: Script)
    requires d.WellFormed() && Plays(d, r, script)
    ensures var done := StageAfter(d, r, script).completed;
            && Succeeds(d, r, script) == (Submitted(d, r, script.hw).1 && done != [] && done[|done|-1].ok)
            && StageLength(d, r, script) == if done == [] then 0 else done[|done|-1].length
  {}

  lemma PlaysOut(d: Device, r: Request, script: Script)
    requires Inv(d) && Plays(d, r, script)
    ensures d.WellFormed() && r.endpoint < |d.pids| && r.maxPacket > 0
    ensures var (d1, accepted) := Submitted(d, r, script.hw);
            && Inv(d1) && LegalRun(d1, script.events) && StageAfter(d, r, script) == Exec(d1, script.events)
            && (if accepted then Awaits(d1, script.events) else script.events == [] && StageAfter(d, r, script) == d1)
  {
    StepInv(d, Submit(r, script.hw));
    AwaitsLegal2(Submitted(d, r, script.hw).0, script.events, Submitted(d, r, script.hw).1);
  }

  /** The first stage of a request that is being carried out. */
  lemma PartPlays(d: Device, t: Target, p: Part, rest: seq<Part>, buffer: nat, bufLen: nat, scripts: seq<Script>)
    requires Ready(d, t) && Playable(d, t, buffer, bufLen, [p] + rest, scripts)
    ensures var r := StageRequest(t, p, buffer, bufLen);
            && Plays(d, r, scripts[0]) && Ready(StageAfter(d, r, scripts[0]), t)
            && (Succeeds(d, r, scripts[0]) ==> Playable(StageAfter(d, r, scripts[0]), t, buffer, bufLen, rest, scripts[1..]))
    ensures forall n: nat ::
              var r := StageRequest(t, p, buffer, bufLen);
              var d' := StageAfter(d, r, scripts[0]);
              var q := Carry(d, t, buffer, bufLen, [p] + rest, scripts, n);
              if !Succeeds(d, r, scripts[0]) then !q.ok && q.device == d'
              else
                var q' := Carry(d', t, buffer, bufLen, rest, scripts[1..], if p.statusStage then n else StageLength(d, r, scripts[0]));
                q.ok == q'.ok && q.device == q'.device && q.length == q'.length
  {
    assert ([p] + rest)[0] == p && ([p] + rest)[1..] == rest;
    OnePart(d, t, p, buffer, bufLen, scripts[0]);
  }
}
