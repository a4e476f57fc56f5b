/** Blocking control requests, carried out by the host controller driver while interrupts, timers and the stages of
    other endpoints go on (ext/uspi/lib/dwhcidevice.c lines 287-342, ext/uspi/lib/usbendpoint.c). */
module ControlTransfers {
  import opened Words
  import opened FrameSchedulers
  import opened UsbEndpoints
  import opened TransferStages
  import opened HostControllers
  import opened HostRuns
  import opened ToggleRuns
  import opened StageRuns

  /** The control endpoint of a device. */
  datatype Target = Target(endpoint: nat, maxPacket: nat, speed: Speed, hubAddress: nat)

  /** A stage of a request: its direction and whether it is the status stage. */
  datatype Part = Part(isIn: bool, statusStage: bool)

  /** The stages of a control transfer. */
  function Parts(isIn: bool, bufLen: nat): seq<Part> {
    if isIn then [Part(false, false), Part(true, false), Part(false, true)]
    else if bufLen == 0 then [Part(false, false), Part(true, true)]
    else [Part(false, false), Part(false, false), Part(true, true)]
  }

  function StageRequest(t: Target, p: Part, buffer: nat, bufLen: nat): Request {
    Request(t.endpoint, Control, t.maxPacket, t.speed, t.hubAddress, p.isIn, p.statusStage, buffer, bufLen, true)
  }

  /** What a request comes to: the driver after it, its success, what was acknowledged on the bus, the length
      reported, and whether none of its stages ended on a NAK or NYET. */
  datatype Result = Result(device: Device, ok: bool, log: seq<Sent>, length: nat, clean: bool)

  /** The scripts fit the stages, as far as they are carried out. */
  ghost predicate Playable(d: Device, t: Target, buffer: nat, bufLen: nat, parts: seq<Part>, scripts: seq<Script>)
    requires d.WellFormed()
    decreases |parts|
  {
    |scripts| == |parts| &&
    (parts == [] ||
     var r := StageRequest(t, parts[0], buffer, bufLen);
     && Plays(d, r, scripts[0])
     && (Succeeds(d, r, scripts[0]) ==> Playable(StageAfter(d, r, scripts[0]), t, buffer, bufLen, parts[1..], scripts[1..])))
  }

  /** Stages are carried out in order until one does not succeed. The length reported is that of the last stage
      that is not a status stage. */
  ghost function Carry(d: Device, t: Target, buffer: nat, bufLen: nat, parts: seq<Part>, scripts: seq<Script>, length: nat): (r: Result)
    requires d.WellFormed() && Playable(d, t, buffer, bufLen, parts, scripts)
    ensures r.device.WellFormed()
    decreases |parts|
  {
    if parts == [] then Result(d, true, [], length, true)
    else
      var r := StageRequest(t, parts[0], buffer, bufLen);
      var d' := StageAfter(d, r, scripts[0]);
      var log := StageLog(d, r, scripts[0]);
      var clean := !EndsOnNak(scripts[0].events);
      if !Succeeds(d, r, scripts[0]) then Result(d', false, log, length, clean)
      else
        var rest := Carry(d', t, buffer, bufLen, parts[1..], scripts[1..], if parts[0].statusStage then length else StageLength(d, r, scripts[0]));
        rest.(log := log + rest.log, clean := clean && rest.clean)
  }

  ghost function Requested(d: Device, t: Target, isIn: bool, buffer: nat, bufLen: nat, scripts: seq<Script>): Result
    requires d.WellFormed() && Playable(d, t, buffer, bufLen, Parts(isIn, bufLen), scripts)
  {
    Carry(d, t, buffer, bufLen, Parts(isIn, bufLen), scripts, 0)
  }

  // ----- The discipline -------------------------------------------------------------------------------------

  /** What USB 2.0 section 8.5.3 asks of a control transfer: one SETUP transaction, then data transactions in the
      direction of the request, the first as DATA1, if there are data, and last one status transaction as DATA1 in
      the other direction, IN when there are no data. The next PID is SETUP again. */
  predicate Disciplined(isIn: bool, bufLen: nat, log: seq<Sent>, next: Pid) {
    var n := |log|;
    && n >= (if bufLen > 0 then 3 else 2)
    && log[0] == Sent(Setup, false, false)
    && log[n-1] == Sent(Data1, if bufLen > 0 then !isIn else true, true)
    && (if bufLen > 0 then log[1] == Sent(Data1, isIn, false) else n == 2)
    && (forall i :: 0 < i < n - 1 ==> log[i].isIn == isIn && !log[i].statusStage)
    && next == Setup
  }

  /** The endpoint is ready for a request. */
  ghost predicate Ready(d: Device, t: Target) {
    && Inv(d) && Unused(d, t.endpoint) && t.endpoint < |d.pids| && 0 < t.maxPacket
    && (t.hubAddress != 0 && !t.speed.High? ==> t.maxPacket >= SETUP_SIZE)
  }

  function Split(t: Target): bool {
    t.hubAddress != 0 && !t.speed.High?
  }

  /** What one stage comes to, in terms of the request. */
  ghost predicate PartOutcome(d: Device, t: Target, p: Part, bufLen: nat, d': Device, log: seq<Sent>, ok: bool, clean: bool, length: nat) {
    && Ready(d, t) && Ready(d', t)
    && PartChain(p, d.pids[t.endpoint], log, d'.pids[t.endpoint])
    && (ok ==> length <= if p.statusStage then 0 else if d.pids[t.endpoint].Setup? then SETUP_SIZE else bufLen)
    && (ok && !clean ==> log == [] && !Split(t))
    && (ok && clean ==> log != [])
    && (!Split(t) || p.statusStage || d.pids[t.endpoint].Setup? ==> |log| == if ok && clean then 1 else 0)
  }

  predicate PartChain(p: Part, first: Pid, log: seq<Sent>, next: Pid) {
    && (forall i :: 0 <= i < |log| ==> log[i].isIn == p.isIn && log[i].statusStage == p.statusStage)
    && (log == [] ==> next == first)
    && (log != [] ==> log[0].pid == PidFor(first, p.statusStage) && (next.Setup? <==> p.statusStage))
    && (|log| == 1 && first.Setup? && !p.statusStage ==> next.Data1?)
  }

  lemma OnePart(d: Device, t: Target, p: Part, buffer: nat, bufLen: nat, script: Script)
    requires Ready(d, t) && Plays(d, StageRequest(t, p, buffer, bufLen), script)
    ensures var r := StageRequest(t, p, buffer, bufLen);
            PartOutcome(d, t, p, bufLen, StageAfter(d, r, script), StageLog(d, r, script), Succeeds(d, r, script), !EndsOnNak(script.events), StageLength(d, r, script))
  {
    var r := StageRequest(t, p, buffer, bufLen);
    var first := d.pids[t.endpoint];
    StageOutcome(d, r, script);
    Packets(StageSize(r, first), r.maxPacket, 0);
    if Split(t) && !p.statusStage && first.Setup? {
      SetupIsOnePacket(t.maxPacket);
    }
  }

  /** A request of two stages. */
  lemma TwoParts(d: Device, t: Target, bufLen: nat, p1: Part, d1: Device, log1: seq<Sent>, clean1: bool, n1: nat,
                 p2: Part, d2: Device, log2: seq<Sent>, clean2: bool, n2: nat)
    requires d.WellFormed() && PartOutcome(d, t, p1, bufLen, d1, log1, true, clean1, n1) && PartOutcome(d1, t, p2, bufLen, d2, log2, true, clean2, n2)
    requires p1 == Part(false, false) && p2 == Part(true, true) && bufLen == 0 && d.pids[t.endpoint] == Setup
    ensures Disciplined(false, bufLen, log1 + log2, d2.pids[t.endpoint]) <==> clean1 && clean2
  {
    var log := log1 + log2;
    if clean1 && clean2 {
      assert log1 == [Sent(Setup, false, false)] && log2 == [Sent(Data1, true, true)];
    }
  }

  /** A request of three stages. */
  lemma ThreeParts(d: Device, t: Target, bufLen: nat, isIn: bool, d1: Device, log1: seq<Sent>, clean1: bool, n1: nat,
                   d2: Device, log2: seq<Sent>, clean2: bool, n2: nat, d3: Device, log3: seq<Sent>, clean3: bool, n3: nat)
    requires d.WellFormed() && PartOutcome(d, t, Part(false, false), bufLen, d1, log1, true, clean1, n1)
    requires PartOutcome(d1, t, Part(isIn, false), bufLen, d2, log2, true, clean2, n2)
    requires PartOutcome(d2, t, Part(!isIn, true), bufLen, d3, log3, true, clean3, n3)
    requires bufLen > 0 && d.pids[t.endpoint] == Setup
    ensures Disciplined(isIn, bufLen, log1 + (log2 + log3), d3.pids[t.endpoint]) <==> clean1 && clean2 && clean3
  {
    var log := log1 + (log2 + log3);
    if clean1 && clean2 && clean3 {
      assert log1 == [Sent(Setup, false, false)] && log3 == [Sent(Data1, !isIn, true)];
      assert log2[0] == Sent(Data1, isIn, false);
      assert log[0] == log1[0] && log[1] == log2[0] && log[|log|-1] == log3[0];
      assert forall i :: 0 < i < |log| - 1 ==> log[i] == log2[i-1];
    } else {
      assert !Split(t) && |log| <= 2;
    }
  }

  /** A stage of a request as it was carried out. */
  datatype Done = Done(device: Device, log: seq<Sent>, ok: bool, clean: bool, length: nat)

  ghost predicate PartDone(d: Device, t: Target, p: Part, bufLen: nat, s: Done) {
    PartOutcome(d, t, p, bufLen, s.device, s.log, s.ok, s.clean, s.length)
  }

  /** One stage of a request after the other. */
  lemma CarryStep(d: Device, t: Target, buffer: nat, bufLen: nat, p: Part, rest: seq<Part>, scripts: seq<Script>, length: nat) returns (s: Done)
    requires Ready(d, t) && Playable(d, t, buffer, bufLen, [p] + rest, scripts)
    ensures PartDone(d, t, p, bufLen, s) && s.clean == !EndsOnNak(scripts[0].events)
    ensures Plays(d, StageRequest(t, p, buffer, bufLen), scripts[0]) && s.length == StageLength(d, StageRequest(t, p, buffer, bufLen), scripts[0])
    ensures s.ok ==> Playable(s.device, t, buffer, bufLen, rest, scripts[1..])
    ensures Carry(d, t, buffer, bufLen, [p] + rest, scripts, length) ==
            if !s.ok then Result(s.device, false, s.log, length, s.clean)
            else
              var q := Carry(s.device, t, buffer, bufLen, rest, scripts[1..], if p.statusStage then length else s.length);
              q.(log := s.log + q.log, clean := s.clean && q.clean)
  {
    var r := StageRequest(t, p, buffer, bufLen);
    assert ([p] + rest)[0] == p && ([p] + rest)[1..] == rest;
    OnePart(d, t, p, buffer, bufLen, scripts[0]);
    s := Done(StageAfter(d, r, scripts[0]), StageLog(d, r, scripts[0]), Succeeds(d, r, scripts[0]),
              !EndsOnNak(scripts[0].events), StageLength(d, r, scripts[0]));
  }

  lemma StatusStage(d: Device, t: Target, p: Part, buffer: nat, bufLen: nat, scripts: seq<Script>, length: nat) returns (s: Done)
    requires Ready(d, t) && Playable(d, t, buffer, bufLen, [p], scripts) && p.statusStage
    ensures PartDone(d, t, p, bufLen, s)
    ensures Carry(d, t, buffer, bufLen, [p], scripts, length) == Result(s.device, s.ok, s.log, length, s.clean)
  {
    assert [p] == [p] + [];
    s := CarryStep(d, t, buffer, bufLen, p, [], scripts, length);
    assert s.log + [] == s.log;
  }

  function Combined2(s1: Done, s2: Done, length: nat): Result {
    if !s1.ok then Result(s1.device, false, s1.log, length, s1.clean)
    else Result(s2.device, s2.ok, s1.log + s2.log, s1.length, s1.clean && s2.clean)
  }

  /** The last two stages of a request. */
  lemma LastTwo(d: Device, t: Target, p1: Part, p2: Part, buffer: nat, bufLen: nat, scripts: seq<Script>, length: nat) returns (s1: Done, s2: Done)
    requires Ready(d, t) && Playable(d, t, buffer, bufLen, [p1] + [p2], scripts) && !p1.statusStage && p2.statusStage
    ensures PartDone(d, t, p1, bufLen, s1) && s1.clean == !EndsOnNak(scripts[0].events)
    ensures Plays(d, StageRequest(t, p1, buffer, bufLen), scripts[0]) && s1.length == StageLength(d, StageRequest(t, p1, buffer, bufLen), scripts[0])
    ensures s1.ok ==> PartDone(s1.device, t, p2, bufLen, s2)
    ensures Carry(d, t, buffer, bufLen, [p1] + [p2], scripts, length) == Combined2(s1, s2, length)
  {
    s1 := CarryStep(d, t, buffer, bufLen, p1, [p2], scripts, length);
    s2 := s1;
    if s1.ok {
      s2 := StatusStage(s1.device, t, p2, buffer, bufLen, scripts[1..], s1.length);
    }
  }

  lemma LastOf(a: seq<Sent>, b: seq<Sent>)
    ensures b != [] ==> (a + b)[|a + b|-1] == b[|b|-1]
    ensures b == [] ==> a + b == a
  {}

  /** A request without data. */
  lemma NoDataRequest(d: Device, t: Target, buffer: nat, scripts: seq<Script>)
    requires Ready(d, t) && d.pids[t.endpoint] == Setup && Playable(d, t, buffer, 0, Parts(false, 0), scripts)
    ensures var q := Requested(d, t, false, buffer, 0, scripts);
            && Ready(q.device, t)
            && (q.ok ==> (Disciplined(false, 0, q.log, q.device.pids[t.endpoint]) <==> q.clean) && (Split(t) ==> q.clean))
            && (q.device.pids[t.endpoint] == Setup <==> q.log == [] || q.log[|q.log|-1].statusStage)
    ensures Plays(d, StageRequest(t, Part(false, false), buffer, 0), scripts[0])
    ensures var q := Requested(d, t, false, buffer, 0, scripts);
            q.ok ==> q.length == StageLength(d, StageRequest(t, Part(false, false), buffer, 0), scripts[0]) <= SETUP_SIZE
  {
    var p1, p2 := Part(false, false), Part(true, true);
    assert Parts(false, 0) == [p1] + [p2];
    var s1, s2 := LastTwo(d, t, p1, p2, buffer, 0, scripts, 0);
    if s1.ok {
      LastOf(s1.log, s2.log);
      if s2.ok {
        TwoParts(d, t, 0, p1, s1.device, s1.log, s1.clean, s1.length, p2, s2.device, s2.log, s2.clean, s2.length);
      }
    }
  }

  /** The result of a request with data, from its stages. */
  function Combined(s1: Done, s2: Done, s3: Done): Result {
    if !s1.ok then Result(s1.device, false, s1.log, 0, s1.clean)
    else if !s2.ok then Result(s2.device, false, s1.log + s2.log, s1.length, s1.clean && s2.clean)
    else Result(s3.device, s3.ok, s1.log + (s2.log + s3.log), s2.length, s1.clean && (s2.clean && s3.clean))
  }

  lemma DataStages(d: Device, t: Target, isIn: bool, buffer: nat, bufLen: nat, scripts: seq<Script>)
    returns (s1: Done, s2: Done, s3: Done)
    requires Ready(d, t) && bufLen > 0 && Playable(d, t, buffer, bufLen, Parts(isIn, bufLen), scripts)
    ensures PartDone(d, t, Part(false, false), bufLen, s1) && s1.clean == !EndsOnNak(scripts[0].events)
    ensures s1.ok ==> PartDone(s1.device, t, Part(isIn, false), bufLen, s2)
    ensures s1.ok && s2.ok ==> PartDone(s2.device, t, Part(!isIn, true), bufLen, s3)
    ensures Requested(d, t, isIn, buffer, bufLen, scripts) == Combined(s1, s2, s3)
  {
    var p1, p2, p3 := Part(false, false), Part(isIn, false), Part(!isIn, true);
    assert Parts(isIn, bufLen) == [p1] + ([p2] + [p3]);
    s1 := CarryStep(d, t, buffer, bufLen, p1, [p2] + [p3], scripts, 0);
    s2, s3 := s1, s1;
    if s1.ok {
      s2, s3 := LastTwo(s1.device, t, p2, p3, buffer, bufLen, scripts[1..], s1.length);
    }
  }

  /** A request with data. */
  lemma DataRequest(d: Device, t: Target, isIn: bool, buffer: nat, bufLen: nat, scripts: seq<Script>)
    requires Ready(d, t) && d.pids[t.endpoint] == Setup && bufLen > 0
    requires Playable(d, t, buffer, bufLen, Parts(isIn, bufLen), scripts)
    ensures var q := Requested(d, t, isIn, buffer, bufLen, scripts);
            && Ready(q.device, t) && (q.ok ==> q.length <= if EndsOnNak(scripts[0].events) then SETUP_SIZE else bufLen)
            && (q.ok ==> (Disciplined(isIn, bufLen, q.log, q.device.pids[t.endpoint]) <==> q.clean) && (Split(t) ==> q.clean))
  {
    var s1, s2, s3 := DataStages(d, t, isIn, buffer, bufLen, scripts);
    if s1.ok && s2.ok && s3.ok {
      ThreeParts(d, t, bufLen, isIn, s1.device, s1.log, s1.clean, s1.length, s2.device, s2.log, s2.clean, s2.length, s3.device, s3.log, s3.clean, s3.length);
    }
  }

  lemma DataRequestEnds(d: Device, t: Target, isIn: bool, buffer: nat, bufLen: nat, scripts: seq<Script>)
    requires Ready(d, t) && d.pids[t.endpoint] == Setup && bufLen > 0
    requires Playable(d, t, buffer, bufLen, Parts(isIn, bufLen), scripts)
    ensures var q := Requested(d, t, isIn, buffer, bufLen, scripts);
            && Ready(q.device, t) && (q.device.pids[t.endpoint] == Setup <==> q.log == [] || q.log[|q.log|-1].statusStage)
  {
    var s1, s2, s3 := DataStages(d, t, isIn, buffer, bufLen, scripts);
    if s1.ok {
      LastOf(s1.log, s2.log);
      if s2.ok {
        LastOf(s2.log, s3.log);
        LastOf(s1.log, s2.log + s3.log);
      }
    }
  }

  /** A control request on an endpoint that stands at SETUP and whose stages all succeed keeps the discipline
      exactly if none of its stages ended on a NAK or NYET. (A split stage never does.) */
  lemma ControlDiscipline(d: Device, t: Target, isIn: bool, buffer: nat, bufLen: nat, scripts: seq<Script>)
    requires Ready(d, t) && d.pids[t.endpoint] == Setup && (isIn ==> bufLen > 0)
    requires Playable(d, t, buffer, bufLen, Parts(isIn, bufLen), scripts)
    requires Requested(d, t, isIn, buffer, bufLen, scripts).ok
    ensures var q := Requested(d, t, isIn, buffer, bufLen, scripts);
            && Ready(q.device, t)
            && (Disciplined(isIn, bufLen, q.log, q.device.pids[t.endpoint]) <==> q.clean)
            && (Split(t) ==> q.clean)
  {
    if bufLen == 0 {
      NoDataRequest(d, t, buffer, scripts);
    } else {
      DataRequest(d, t, isIn, buffer, bufLen, scripts);
    }
  }

  /** However a control request ends, the endpoint is back at SETUP, where the next one needs it, exactly if
      nothing was acknowledged or the status stage was. */
  lemma BackAtSetupExactly(d: Device, t: Target, isIn: bool, buffer: nat, bufLen: nat, scripts: seq<Script>)
    requires Ready(d, t) && d.pids[t.endpoint] == Setup && (isIn ==> bufLen > 0)
    requires Playable(d, t, buffer, bufLen, Parts(isIn, bufLen), scripts)
    ensures var q := Requested(d, t, isIn, buffer, bufLen, scripts);
            && Ready(q.device, t)
            && (q.device.pids[t.endpoint] == Setup <==> q.log == [] || q.log[|q.log|-1].statusStage)
  {
    if bufLen == 0 {
      NoDataRequest(d, t, buffer, scripts);
    } else {
      DataRequestEnds(d, t, isIn, buffer, bufLen, scripts);
    }
  }

  /** The length that a successful request reports: within the buffer if there are data, unless the setup stage ended
      on a NAK and the data stage went out as another setup stage; a request without data reports what its setup
      stage moved. */
  lemma ReportedLength(d: Device, t: Target, isIn: bool, buffer: nat, bufLen: nat, scripts: seq<Script>)
    requires Ready(d, t) && d.pids[t.endpoint] == Setup && (isIn ==> bufLen > 0)
    requires Playable(d, t, buffer, bufLen, Parts(isIn, bufLen), scripts)
    requires Requested(d, t, isIn, buffer, bufLen, scripts).ok
    ensures var q := Requested(d, t, isIn, buffer, bufLen, scripts);
            if bufLen > 0 then q.length <= if EndsOnNak(scripts[0].events) then SETUP_SIZE else bufLen
            else q.length == StageLength(d, StageRequest(t, Part(false, false), buffer, 0), scripts[0]) <= SETUP_SIZE
  {
    if bufLen == 0 {
      NoDataRequest(d, t, buffer, scripts);
    } else {
      DataRequest(d, t, isIn, buffer, bufLen, scripts);
    }
  }

  // ----- Sequences of requests ----------------------------------------------------------------------------------

  /** A request, and what happens between the request before it and it. */
  datatype Call = Call(idle: seq<Step>, isIn: bool, buffer: nat, bufLen: nat, scripts: seq<Script>)

  /** Endpoint `e` is left alone. */
  predicate LeavesAlone(steps: seq<Step>, e: nat) {
    forall i :: 0 <= i < |steps| ==> steps[i] != ResetPid(e) && (steps[i].Submit? ==> steps[i].request.endpoint != e)
  }

  /** All requests are carried out one after the other, and each succeeds with no stage that ended on a NAK. */
  ghost predicate AllSucceed(d: Device, t: Target, calls: seq<Call>)
    requires d.WellFormed()
    decreases |calls|
  {
    calls == [] ||
    var c := calls[0];
    && LegalRun(d, c.idle) && LeavesAlone(c.idle, t.endpoint) && (c.isIn ==> c.bufLen > 0)
    && Playable(Exec(d, c.idle), t, c.buffer, c.bufLen, Parts(c.isIn, c.bufLen), c.scripts)
    && var q := Requested(Exec(d, c.idle), t, c.isIn, c.buffer, c.bufLen, c.scripts);
       q.ok && q.clean && AllSucceed(q.device, t, calls[1..])
  }

  /** The driver when request number `i` begins. */
  ghost function Before(d: Device, t: Target, calls: seq<Call>, i: nat): (d': Device)
    requires d.WellFormed() && AllSucceed(d, t, calls) && i < |calls|
    ensures d'.WellFormed()
    decreases |calls|
  {
    var c := calls[0];
    if i == 0 then Exec(d, c.idle)
    else Before(Requested(Exec(d, c.idle), t, c.isIn, c.buffer, c.bufLen, c.scripts).device, t, calls[1..], i - 1)
  }

  lemma IdleStep(d: Device, step: Step, t: Target)
    requires Ready(d, t) && Legal(d, step) && step != ResetPid(t.endpoint) && (step.Submit? ==> step.request.endpoint != t.endpoint)
    ensures Ready(Apply(d, step), t) && Apply(d, step).pids[t.endpoint] == d.pids[t.endpoint]
  {
    StepInv(d, step);
    match step
    case ChannelInterrupt(c, hw) =>
      assert ChannelOk(d, c);
      HandledOk(d, c, hw);
      HandledPids(d, c, hw);
    case Timer(c, hw) =>
      assert ChannelOk(d, c);
      DelayedOk(d, c, hw);
      OtherPids(d, step);
    case Submit(r, hw) =>
      SubmittedOk(d, r, hw);
      OtherPids(d, step);
    case ResetPid(_) =>
  }

  lemma {:induction false} IdleRun(d: Device, steps: seq<Step>, t: Target)
    requires Ready(d, t) && LegalRun(d, steps) && LeavesAlone(steps, t.endpoint)
    ensures Ready(Exec(d, steps), t) && Exec(d, steps).pids[t.endpoint] == d.pids[t.endpoint]
    decreases |steps|
  {
    if steps != [] {
      IdleStep(d, steps[0], t);
      IdleRun(Apply(d, steps[0]), steps[1..], t);
    }
  }

  /** In any sequence of such requests, with any traffic on other endpoints between and during them, each one begins
      at SETUP and keeps the discipline. */
  lemma {:induction false} EachIsDisciplined(d: Device, t: Target, calls: seq<Call>, i: nat)
    requires Ready(d, t) && d.pids[t.endpoint] == Setup && AllSucceed(d, t, calls) && i < |calls|
    ensures var before := Before(d, t, calls, i);
            var c := calls[i];
            && Ready(before, t) && before.pids[t.endpoint] == Setup
            && Playable(before, t, c.buffer, c.bufLen, Parts(c.isIn, c.bufLen), c.scripts)
            && var q := Requested(before, t, c.isIn, c.buffer, c.bufLen, c.scripts);
               t.endpoint < |q.device.pids| && Disciplined(c.isIn, c.bufLen, q.log, q.device.pids[t.endpoint])
    decreases |calls|
  {
    var c := calls[0];
    IdleRun(d, c.idle, t);
    ControlDiscipline(Exec(d, c.idle), t, c.isIn, c.buffer, c.bufLen, c.scripts);
    if i > 0 {
      EachIsDisciplined(Requested(Exec(d, c.idle), t, c.isIn, c.buffer, c.bufLen, c.scripts).device, t, calls[1..], i - 1);
    }
  }
}
