/** The split transaction schedulers (ext/uspi/lib/dwhciframeschedper.c, dwhciframeschednper.c and
    dwhciframeschednsplit.c). */
module FrameSchedulers {
  import opened Words

  /** The channel interrupt bits; `error` stands for any bit of the error mask. */
  datatype Status = Status(xferComplete: bool, halted: bool, error: bool, nak: bool, ack: bool, nyet: bool)

  datatype Phase = StartSplit | StartSplitComplete | CompleteSplit | CompleteRetry | CompleteSplitComplete | CompleteSplitFailed | Unknown

  const FRAME_UNSET := 8

  datatype Kind = Periodic | NonPeriodic | NoSplit

  datatype Sched = Sched(kind: Kind, phase: Phase, tries: nat, nextFrame: nat)

  // ----- The three operations, and when their assertions hold ---------------------------------

  function Started(s: Sched): Sched
    requires !s.kind.NoSplit?
  {
    if s.kind.Periodic? then s.(phase := StartSplit, nextFrame := FRAME_UNSET) else s.(phase := StartSplit)
  }

  predicate MayComplete(s: Sched) {
    !s.kind.NoSplit? && (s.phase in {StartSplitComplete, CompleteRetry, CompleteSplitComplete, CompleteSplitFailed} || (s.kind.NonPeriodic? && s.phase.CompleteSplit?))
  }

  /** `CompleteSplit`: is there another complete-split to do? */
  function NextSplit(s: Sched): (Sched, bool)
    requires MayComplete(s)
  {
    if s.phase.StartSplitComplete? then
      (if s.kind.Periodic? then s.(phase := CompleteSplit, tries := if s.nextFrame != 5 then 3 else 2, nextFrame := (s.nextFrame + 2) % 8)
       else s.(phase := CompleteSplit, tries := 3), true)
    else if s.phase.CompleteRetry? || s.phase.CompleteSplit? then
      (if s.kind.Periodic? then s.(nextFrame := (s.nextFrame + 1) % 8) else s, true)
    else (s, false)
  }

  predicate MayTransact(s: Sched, st: Status) {
    !s.kind.NoSplit? &&
    ((s.phase.StartSplit? && st.ack)
     || (s.phase in {CompleteSplit, CompleteRetry} && (st.xferComplete || st.nyet || st.ack || st.nak)))
  }

  /** `TransactionComplete` */
  function Transacted(s: Sched, st: Status): Sched
    requires MayTransact(s, st)
  {
    if s.phase.StartSplit? then s.(phase := StartSplitComplete)
    else if st.xferComplete then s.(phase := CompleteSplitComplete)
    else if st.nyet || st.ack || s.kind.NonPeriodic? then
      s.(phase := if s.tries == 0 then CompleteSplitFailed else CompleteRetry, tries := U32(s.tries - 1))
    else s.(phase := CompleteSplitFailed)
  }

  /** `WaitForFrame`, called with the current microframe number. */
  function Waited(s: Sched, frame: nat): Sched {
    match s.kind
    case Periodic =>
      if s.nextFrame != FRAME_UNSET then s
      else if (frame + 1) % 8 == 6 then s.(nextFrame := 7)
      else s.(nextFrame := (frame + 1) % 8)
    case NonPeriodic => s
    case NoSplit => s.(nextFrame := (frame + 1) % 0x4000)
  }

  // ----- The scheduler objects -----------------------------------------------------------------

  class PeriodicScheduler {
    var state: Phase
    var tries: nat
    var nextFrame: nat

    ghost function View(): Sched
      reads this
    {
      Sched(Periodic, state, tries, nextFrame)
    }

    constructor ()
      ensures state == Unknown && nextFrame == FRAME_UNSET
    {
      state, nextFrame := Unknown, FRAME_UNSET;
    }

    method BeginSplit()
      modifies this
      ensures View() == Started(old(View()))
    {
      state := StartSplit;
      nextFrame := FRAME_UNSET;
    }

    method CompleteSplits() returns (result: bool)
      requires MayComplete(View())
      modifies this
      ensures (View(), result) == NextSplit(old(View()))
    {
      result := false;
      match state
      case StartSplitComplete =>
        state := CompleteSplit;
        tries := if nextFrame != 5 then 3 else 2;
        nextFrame := (nextFrame + 2) % 8;
        result := true;
      case CompleteRetry =>
        result := true;
        nextFrame := (nextFrame + 1) % 8;
      case _ =>
    }

    method TransactionComplete(st: Status)
      requires MayTransact(View(), st)
      modifies this
      ensures View() == Transacted(old(View()), st)
    {
      if state == StartSplit {
        state := StartSplitComplete;
      } else if st.xferComplete {
        state := CompleteSplitComplete;
      } else if st.nyet || st.ack {
        var last := tries == 0;
        tries := U32(tries - 1);
        state := if last then CompleteSplitFailed else CompleteRetry;
      } else {
        state := CompleteSplitFailed;
      }
    }

    /** A start-split goes out in the first microframe after the current one that is not 6. */
    method WaitForFrame(frame: nat)
      modifies this
      ensures View() == Waited(old(View()), frame)
      ensures old(nextFrame) == FRAME_UNSET ==>
                && nextFrame < 8 && nextFrame != 6
                && (nextFrame == (frame + 1) % 8 || ((frame + 1) % 8 == 6 && nextFrame == (frame + 2) % 8))
    {
      if nextFrame == FRAME_UNSET {
        nextFrame := (frame + 1) % 8;
        if nextFrame == 6 {
          nextFrame := nextFrame + 1;
        }
      }
    }
  }

  class NonPeriodicScheduler {
    var state: Phase
    var tries: nat

    ghost function View(): Sched
      reads this
    {
      Sched(NonPeriodic, state, tries, FRAME_UNSET)
    }

    constructor ()
      ensures state == Unknown
    {
      state := Unknown;
    }

    method BeginSplit()
      modifies this
      ensures View() == Started(old(View()))
    {
      state := StartSplit;
    }

    method CompleteSplits() returns (result: bool)
      requires MayComplete(View())
      modifies this
      ensures (View(), result) == NextSplit(old(View()))
    {
      result := false;
      match state
      case StartSplitComplete =>
        state := CompleteSplit;
        tries := 3;
        result := true;
      case CompleteSplit => result := true;
      case CompleteRetry => result := true;
      case _ =>
    }

    method TransactionComplete(st: Status)
      requires MayTransact(View(), st)
      modifies this
      ensures View() == Transacted(old(View()), st)
    {
      if state == StartSplit {
        state := StartSplitComplete;
      } else if st.xferComplete {
        state := CompleteSplitComplete;
      } else {
        // NYET, ACK and NAK are retried alike; after a NAK only the failing case waits longer
        var last := tries == 0;
        tries := U32(tries - 1);
        state := if last then CompleteSplitFailed else CompleteRetry;
      }
    }
  }

  // ----- One start-split and the complete-splits that follow it ---------------------------------

  /** The microframes of the complete-splits done from `s` on, which is about to do one, when the
      controller answers them with `answers`. */
  ghost function Splits(s: Sched, answers: seq<Status>): seq<nat>
    decreases |answers|
  {
    [if s.kind.Periodic? then s.nextFrame else 0] +
    if answers == [] || !MayTransact(s, answers[0]) || !MayComplete(Transacted(s, answers[0])) then []
    else
      var (s', more) := NextSplit(Transacted(s, answers[0]));
      if more then Splits(s', answers[1..]) else []
  }

  /** Another complete-split uses up a try and goes out in the next microframe. */
  lemma AnotherSplit(s: Sched, st: Status)
    requires s.phase in {CompleteSplit, CompleteRetry} && MayTransact(s, st) && MayComplete(Transacted(s, st))
    requires NextSplit(Transacted(s, st)).1 && s.nextFrame <= 8
    ensures var s' := NextSplit(Transacted(s, st)).0;
            && s'.kind == s.kind && s'.phase.CompleteRetry? && s'.tries < s.tries
            && s'.nextFrame == (if s.kind.Periodic? then (s.nextFrame + 1) % 8 else s.nextFrame)
  {}

  lemma {:induction false} SplitsBounded(s: Sched, answers: seq<Status>, i: nat)
    requires !s.kind.NoSplit? && s.phase in {CompleteSplit, CompleteRetry} && s.nextFrame <= 8
    ensures 1 <= |Splits(s, answers)| <= s.tries + 1
    ensures s.kind.Periodic? && s.nextFrame < 8 && i < |Splits(s, answers)| ==> Splits(s, answers)[i] == (s.nextFrame + i) % 8
    decreases |answers|
  {
    if answers != [] && MayTransact(s, answers[0]) && MayComplete(Transacted(s, answers[0])) {
      var (s', more) := NextSplit(Transacted(s, answers[0]));
      if more {
        AnotherSplit(s, answers[0]);
        assert Splits(s, answers) == [if s.kind.Periodic? then s.nextFrame else 0] + Splits(s', answers[1..]);
        if i > 0 && s.kind.Periodic? {
          Mod8(s.nextFrame + 1, i - 1);
        }
        SplitsBounded(s', answers[1..], if i > 0 then i - 1 else 0);
      }
    }
  }

  /** Every start-split, answered by ACK, is followed by at most 4 complete-splits. A periodic one never
      goes out in microframe 6, its complete-splits use the microframes start + 2, start + 3, ..., and
      there are at most 3 of them when it went out in microframe 5. No assertion fails on the way. */
  lemma SplitCycle(s: Sched, frame: nat, ack: Status, answers: seq<Status>, i: nat)
    requires !s.kind.NoSplit? && s.nextFrame <= 8 && ack.ack
    ensures var start := Waited(Started(s), frame);
            && MayTransact(start, ack) && MayComplete(Transacted(start, ack)) && NextSplit(Transacted(start, ack)).1
            && var splits := Splits(NextSplit(Transacted(start, ack)).0, answers);
               && |splits| <= 4
               && (s.kind.Periodic? ==>
                     && start.nextFrame < 8 && start.nextFrame != 6
                     && (start.nextFrame == 5 ==> |splits| <= 3)
                     && (i < |splits| ==> splits[i] == (start.nextFrame + 2 + i) % 8))
  {
    var start := Waited(Started(s), frame);
    var first := NextSplit(Transacted(start, ack)).0;
    SplitsBounded(first, answers, i);
    if s.kind.Periodic? {
      assert first.nextFrame == (start.nextFrame + 2) % 8;
      Mod8(start.nextFrame + 2, i);
    }
  }

  /** The first microframe after the current one that is not 6; without splits, the next frame. */
  lemma WaitsForNext(s: Sched, frame: nat)
    ensures s.kind.Periodic? && s.nextFrame == FRAME_UNSET ==>
              var f := Waited(s, frame).nextFrame;
              f < 8 && f != 6 && (f == (frame + 1) % 8 || ((frame + 1) % 8 == 6 && f == (frame + 2) % 8))
    ensures s.kind.Periodic? && s.nextFrame != FRAME_UNSET ==> Waited(s, frame) == s
    ensures s.kind.NoSplit? ==> Waited(s, frame).nextFrame == (frame + 1) % 0x4000
  {}

  /** While the controller answers NYET, all tries are used up: a complete-split is repeated as often as there are
      tries. */
  lemma {:induction false} AllTriesUsed(s: Sched, answers: seq<Status>)
    requires !s.kind.NoSplit? && s.phase in {CompleteSplit, CompleteRetry} && s.nextFrame <= 8 && s.tries < 0x1_0000_0000
    requires |answers| > s.tries && forall i :: 0 <= i < |answers| ==> answers[i].nyet && !answers[i].xferComplete
    ensures |Splits(s, answers)| == s.tries + 1
    decreases |answers|
  {
    assert MayTransact(s, answers[0]);
    var t := Transacted(s, answers[0]);
    if s.tries > 0 {
      var (s', more) := NextSplit(t);
      assert more && s'.tries == s.tries - 1;
      AllTriesUsed(s', answers[1..]);
    }
  }

  /** The bound is met: a start-split whose complete-splits are all answered by NYET is followed by 4 of them, by 3 if it
      is periodic and went out in microframe 5. */
  lemma CycleOfNyets(s: Sched, frame: nat, ack: Status, answers: seq<Status>)
    requires !s.kind.NoSplit? && s.nextFrame <= 8 && ack.ack
    requires |answers| >= 4 && forall i :: 0 <= i < |answers| ==> answers[i].nyet && !answers[i].xferComplete
    ensures var start := Waited(Started(s), frame);
            && MayTransact(start, ack) && MayComplete(Transacted(start, ack))
            && |Splits(NextSplit(Transacted(start, ack)).0, answers)| == if s.kind.Periodic? && start.nextFrame == 5 then 3 else 4
  {
    var start := Waited(Started(s), frame);
    AllTriesUsed(NextSplit(Transacted(start, ack)).0, answers);
  }

  lemma Mod8(a: nat, i: nat)
    ensures (a % 8 + i) % 8 == (a + i) % 8
  {}
}
