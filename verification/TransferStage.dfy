/** The bookkeeping of one transfer stage (ext/uspi/lib/dwhcixferstagedata.c). */
module TransferStages {
  import opened Words
  import opened FrameSchedulers
  import opened UsbEndpoints

  datatype Speed = Low | Full | High

  /** A request for one stage. The buffer begins at address `buffer`. */
  datatype Request = Request(endpoint: nat, kind: EndpointType, maxPacket: nat, speed: Speed, hubAddress: nat,
                             isIn: bool, statusStage: bool, buffer: nat, bufLen: nat, blocking: bool)

  datatype StageState = NoSplitTransfer | StartSplitState | CompleteSplitState | PeriodicDelay | UnknownState

  datatype SubState = WaitForChannelDisable | WaitForTransactionComplete | UnknownSubState

  datatype Stage = Stage(id: nat, request: Request, split: bool, splitComplete: bool,
                         transferSize: nat, packets: nat, bytesPer: nat, packetsPer: nat, total: nat, pointer: nat,
                         state: StageState, subState: SubState, status: Status, schedulerUsed: bool, sched: Sched)
  {
    predicate IsPeriodic() {
      request.kind.Interrupt?
    }

    predicate IsComplete() {
      packets == 0
    }

    function ResultLen(): nat {
      if total > transferSize then transferSize else total
    }
  }

  const SETUP_SIZE := 8
  const NO_STATUS := Status(false, false, false, false, false, false)

  /** Number of packets; the addition is 32 bit. */
  function PacketCount(size: nat, maxPacket: nat): nat
    requires maxPacket > 0
  {
    U32(size + maxPacket - 1) / maxPacket
  }

  function StageSize(r: Request, next: Pid): nat {
    if r.statusStage then 0 else if next.Setup? then SETUP_SIZE else r.bufLen
  }

  /** The constructor, for an endpoint whose next PID is `next`. */
  function NewStage(id: nat, r: Request, next: Pid): Stage
    requires r.maxPacket > 0
  {
    var split := r.hubAddress != 0 && !r.speed.High?;
    var size := StageSize(r, next);
    var packets := if r.statusStage then 1 else PacketCount(size, r.maxPacket);
    Stage(id, r, split, false, size, packets,
          if split && size > r.maxPacket then r.maxPacket else size,
          if split then 1 else packets,
          0, r.buffer, UnknownState, UnknownSubState, NO_STATUS,
          split || (r.hubAddress == 0 && !r.speed.High?),
          Sched(if !split then NoSplit else if r.kind.Interrupt? then Periodic else NonPeriodic, Unknown, 0, FRAME_UNSET))
  }

  /** Nothing is accounted for a transaction that reports an error, NAK or NYET. */
  predicate Counts(st: Status) {
    !st.error && !st.nak && !st.nyet
  }

  function PacketsMoved(s: Stage, packetsLeft: nat): nat {
    U32(s.packetsPer - packetsLeft)
  }

  /** A complete-split that reports no bytes is taken to have moved full packets. */
  function BytesMoved(s: Stage, packetsLeft: nat, bytesLeft: nat): nat {
    var moved := U32(s.bytesPer - bytesLeft);
    if s.split && s.splitComplete && moved == 0 && s.bytesPer > 0 then U32(s.request.maxPacket * PacketsMoved(s, packetsLeft)) else moved
  }

  /** Do the assertions in `TransactionComplete` hold? */
  predicate MayAccount(s: Stage, st: Status, packetsLeft: nat, bytesLeft: nat) {
    Counts(st) ==>
      var total := U32(s.total + BytesMoved(s, packetsLeft, bytesLeft));
      && PacketsMoved(s, packetsLeft) <= s.packets
      && (U32(s.transferSize - total) < s.bytesPer ==> total <= s.transferSize)
  }

  /** `DWHCITransferStageDataTransactionComplete` */
  function Accounted(s: Stage, st: Status, packetsLeft: nat, bytesLeft: nat): Stage {
    if !Counts(st) then s.(status := st)
    else
      var bytes := BytesMoved(s, packetsLeft, bytesLeft);
      var total := U32(s.total + bytes);
      s.(status := st, total := total, pointer := s.pointer + bytes,
         packets := U32(s.packets - PacketsMoved(s, packetsLeft)),
         bytesPer := if U32(s.transferSize - total) < s.bytesPer then U32(s.transferSize - total) else s.bytesPer)
  }

  /** The endpoint's next PID after the transaction. */
  function PidAfter(s: Stage, next: Pid, st: Status, packetsLeft: nat): Pid {
    if Counts(st) && (!s.split || s.splitComplete) then Skipped(next, PacketsMoved(s, packetsLeft), s.request.statusStage)
    else next
  }

  // ----- The object ----------------------------------------------------------------------------

  class TransferStageData {
    const request: Request
    const split: bool
    const transferSize: nat
    const endpoint: Endpoint
    var splitComplete: bool
    var packets: nat
    var bytesPer: nat
    var packetsPer: nat
    var total: nat
    var pointer: nat
    var status: Status
    ghost var rest: Stage   // the fields the bookkeeping does not touch

    ghost function View(): Stage
      reads this
    {
      rest.(request := request, split := split, transferSize := transferSize, splitComplete := splitComplete,
            packets := packets, bytesPer := bytesPer, packetsPer := packetsPer, total := total, pointer := pointer, status := status)
    }

    constructor (id: nat, r: Request, e: Endpoint)
      requires r.maxPacket > 0
      ensures View() == NewStage(id, r, e.nextPid) && endpoint == e
    {
      var isSplit := r.hubAddress != 0 && !r.speed.High?;
      var size, count, bytes, per;
      if !r.statusStage {
        size := if PidFor(e.nextPid, false).Setup? then SETUP_SIZE else r.bufLen;
        count := PacketCount(size, r.maxPacket);
        if isSplit {
          bytes := if size > r.maxPacket then r.maxPacket else size;
          per := 1;
        } else {
          bytes, per := size, count;
        }
      } else {
        size, bytes, count, per := 0, 0, 1, 1;
      }
      request, split, transferSize, endpoint := r, isSplit, size, e;
      splitComplete, packets, bytesPer, packetsPer := false, count, bytes, per;
      total, pointer, status := 0, r.buffer, NO_STATUS;
      rest := NewStage(id, r, e.nextPid);
      new;
      ghost var made := NewStage(id, r, e.nextPid);
      assert transferSize == made.transferSize && packets == made.packets && bytesPer == made.bytesPer && packetsPer == made.packetsPer;
    }

    method TransactionComplete(st: Status, packetsLeft: nat, bytesLeft: nat)
      requires MayAccount(View(), st, packetsLeft, bytesLeft)
      requires request.statusStage ==> endpoint.kind.Control?
      modifies this, endpoint
      ensures View() == Accounted(old(View()), st, packetsLeft, bytesLeft)
      ensures endpoint.nextPid == PidAfter(old(View()), old(endpoint.nextPid), st, packetsLeft)
    {
      status := st;
      if st.error || st.nak || st.nyet {
        return;
      }
      var packetsMoved := U32(packetsPer - packetsLeft);
      var bytesMoved := U32(bytesPer - bytesLeft);
      if split && splitComplete && bytesMoved == 0 && bytesPer > 0 {
        bytesMoved := U32(request.maxPacket * packetsMoved);
      }
      total := U32(total + bytesMoved);
      pointer := pointer + bytesMoved;
      if !split || splitComplete {
        endpoint.SkipPid(packetsMoved, request.statusStage);
      }
      packets := U32(packets - packetsMoved);
      if U32(transferSize - total) < bytesPer {
        bytesPer := U32(transferSize - total);
      }
    }
  }

  // ----- What the controller may report --------------------------------------------------------

  const BYTES_MASK := 0x8_0000
  const PACKETS_MASK := 0x400

  /** The contract of the controller for a transaction that was programmed from `s`. The transfer size
      register holds 19 bits of bytes and 10 bits of packets. */
  ghost predicate Possible(s: Stage, st: Status, packetsLeft: nat, bytesLeft: nat) {
    var bytes, packets := s.bytesPer % BYTES_MASK, s.packetsPer % PACKETS_MASK;
    && st != NO_STATUS && st != NO_STATUS.(halted := true)
    && packetsLeft <= packets && bytesLeft <= bytes
    && bytes - bytesLeft <= s.request.maxPacket * (packets - packetsLeft)
    && (s.split && !s.splitComplete ==> packetsLeft == packets && bytesLeft == bytes && (Counts(st) ==> st.ack))
    && (s.split && s.splitComplete && Counts(st) ==>
          packetsLeft == 0 && (st.xferComplete || (st.ack && (s.packets > 1 || s.sched.tries == 0))))
  }

  // ----- The accounting invariant --------------------------------------------------------------

  function Min(a: nat, b: nat): nat { if a < b then a else b }

  /** What the callers assert: there is something to transfer, and status stages are for control
      endpoints. The maximum packet size is a nonzero 16 bit number, and the sum in the packet count
      fits into 32 bits. */
  predicate Sound(r: Request, next: Pid) {
    && 0 < r.maxPacket < 0x1_0000
    && (r.statusStage ==> r.kind.Control?)
    && (!r.statusStage ==> 0 < StageSize(r, next) && StageSize(r, next) + r.maxPacket - 1 < 0x1_0000_0000)
  }

  ghost function AllPackets(s: Stage): nat
    requires s.request.maxPacket > 0
  {
    if s.request.statusStage then 1 else PacketCount(s.transferSize, s.request.maxPacket)
  }

  /** What holds of a stage for as long as it lasts. A split stage has moved at most a full packet for
      every packet it has ticked off, and counts at most one more packet than fits exactly. */
  ghost predicate Accounts(s: Stage) {
    && 0 < s.request.maxPacket < 0x1_0000
    && (s.request.statusStage ==> s.transferSize == 0 && s.request.kind.Control?)
    && (!s.request.statusStage ==> 0 < s.transferSize && s.transferSize + s.request.maxPacket - 1 < 0x1_0000_0000)
    && s.pointer == s.request.buffer + s.total
    && s.packets <= AllPackets(s)
    && (if s.split then
          && s.packetsPer == 1
          && (if s.request.statusStage then s.total == s.bytesPer == 0
              else s.total <= s.request.maxPacket * (AllPackets(s) - s.packets))
        else s.total <= s.transferSize)
  }

  /** What holds when a transaction is started: something is left to transfer, the transaction is for
      as much of it as fits into one packet, and it stays inside the caller's buffer. */
  ghost predicate AtStart(s: Stage) {
    && Accounts(s) && s.packets > 0
    && (if s.split then !s.request.statusStage ==> s.total < s.transferSize && s.bytesPer == Min(s.request.maxPacket, s.transferSize - s.total)
        else s.total == 0 && s.bytesPer == s.transferSize && s.packetsPer == s.packets == AllPackets(s))
  }

  lemma Packets(size: nat, m: nat, k: nat)
    requires m > 0 && size + m - 1 < 0x1_0000_0000
    ensures k < PacketCount(size, m) ==> m * k < size
    ensures k <= PacketCount(size, m) ==> m * k <= size + m - 1
    ensures size > 0 ==> PacketCount(size, m) > 0
  {
    var n := PacketCount(size, m);
    assert m * n <= size + m - 1;
    if k < n {
      assert m * (k + 1) <= m * n by { Monotone(m, k + 1, n); }
    } else if k == n {
    }
  }

  lemma {:induction false} Monotone(m: nat, a: nat, b: nat)
    requires a <= b
    ensures m * a <= m * b
  {
    assert m * b == m * a + m * (b - a);
  }

  /** Enough packets are counted for the whole transfer exactly when the 32 bit sum does not overflow. */
  lemma PacketCountExact(size: nat, m: nat)
    requires 0 < size < 0x1_0000_0000 && 0 < m < 0x1_0000
    ensures size + m - 1 < 0x1_0000_0000 <==> PacketCount(size, m) * m >= size
  {
    if size + m - 1 >= 0x1_0000_0000 {
      var w := size + m - 1 - 0x1_0000_0000;
      assert U32(size + m - 1) == w;
      assert w / m * m <= w;
    }
  }

  lemma NewStageStarts(id: nat, r: Request, next: Pid)
    requires Sound(r, next)
    ensures AtStart(NewStage(id, r, next))
  {
    if !r.statusStage {
      Packets(StageSize(r, next), r.maxPacket, 0);
    }
  }

  /** The fields of a new stage: split exactly behind a hub's translator and below high speed; the setup data, the whole
      buffer or nothing to transfer; as few packets as hold it; the first transaction for one packet of a split stage
      and for everything otherwise. */
  lemma NewStageFields(id: nat, r: Request, next: Pid)
    requires Sound(r, next)
    ensures var s := NewStage(id, r, next);
            && s.id == id && s.request == r && !s.splitComplete && s.total == 0 && s.pointer == r.buffer
            && (s.split <==> r.hubAddress > 0 && (r.speed.Low? || r.speed.Full?))
            && s.transferSize == (if r.statusStage then 0 else if next.Setup? then 8 else r.bufLen)
            && (!r.statusStage ==> r.maxPacket * (s.packets - 1) < s.transferSize <= r.maxPacket * s.packets)
            && (r.statusStage ==> s.packets == 1 && s.bytesPer == 0 && s.packetsPer == 1)
            && (!r.statusStage && s.split ==> s.packetsPer == 1 && s.bytesPer <= r.maxPacket && (s.bytesPer == r.maxPacket || s.bytesPer == s.transferSize) && s.bytesPer <= s.transferSize)
            && (!s.split ==> s.packetsPer == s.packets && s.bytesPer == s.transferSize)
            && (s.schedulerUsed <==> !r.speed.High?) && (s.split ==> s.sched.kind == if r.kind.Interrupt? then Periodic else NonPeriodic)
  {
    if !r.statusStage {
      var size := StageSize(r, next);
      Packets(size, r.maxPacket, PacketCount(size, r.maxPacket) - 1);
      Covers(size, r.maxPacket);
    }
  }

  lemma Covers(size: nat, m: nat)
    requires 0 < m && size + m - 1 < 0x1_0000_0000
    ensures size <= m * PacketCount(size, m)
  {
    var x := size + m - 1;
    assert x == m * (x / m) + x % m;
  }

  /** At every transaction start of a stage that moves data, the bytes programmed are positive and lie in
      the buffer; a split transaction programs min(max packet size, size - total) of them. */
  lemma Window(s: Stage)
    requires AtStart(s) && !s.request.statusStage
    ensures 0 < s.bytesPer && s.request.buffer <= s.pointer && s.pointer + s.bytesPer <= s.request.buffer + s.transferSize
  {}

  lemma TotalFits(s: Stage)
    requires Accounts(s) && s.split
    ensures s.total < 0x1_0000_0000
  {
    if !s.request.statusStage {
      Packets(s.transferSize, s.request.maxPacket, AllPackets(s) - s.packets);
    }
  }

  lemma NothingMoved(s: Stage, st: Status)
    requires s.total < 0x1_0000_0000 && s.packets < 0x1_0000_0000 && s.bytesPer < 0x1_0000_0000 && s.split && !s.splitComplete
    requires s.bytesPer <= s.transferSize - s.total || s.bytesPer == 0
    requires s.transferSize < 0x1_0000_0000
    ensures MayAccount(s, st, s.packetsPer, s.bytesPer)
    ensures Accounted(s, st, s.packetsPer, s.bytesPer) == s.(status := st)
  {
    assert PacketsMoved(s, s.packetsPer) == 0 && BytesMoved(s, s.packetsPer, s.bytesPer) == 0;
  }

  /** A start-split moves nothing. */
  lemma StartSplitMovesNothing(s: Stage, st: Status, packetsLeft: nat, bytesLeft: nat)
    requires AtStart(s) && s.split && !s.splitComplete && Possible(s, st, packetsLeft, bytesLeft)
    ensures MayAccount(s, st, packetsLeft, bytesLeft)
    ensures Accounted(s, st, packetsLeft, bytesLeft) == s.(status := st)
  {
    assert s.bytesPer < BYTES_MASK;
    TotalFits(s);
    Packets(s.transferSize, s.request.maxPacket, 0);
    NothingMoved(s, st);
  }

  /** The arithmetic of one more packet: `done` packets are ticked off and `bytes` more have moved. */
  lemma OneMore(size: nat, m: nat, total: nat, done: nat, bytes: nat)
    requires 0 < m < 0x1_0000 && 0 < size && size + m - 1 < 0x1_0000_0000
    requires done < PacketCount(size, m) && total <= m * done && bytes <= m
    ensures total + bytes <= m * (done + 1) && total + bytes <= size + m - 1
    ensures done + 1 < PacketCount(size, m) ==> total + bytes < size
    ensures total + bytes > size ==> U32(size - (total + bytes)) >= 0x1_0000
  {
    assert m * (done + 1) == m * done + m;
    Packets(size, m, done + 1);
  }

  /** The bytes a transaction moved, as its registers tell: those programmed less those left; a split transaction that
      reports none of its bytes moved counts as a full packet. */
  function TransactionBytes(s: Stage, bytesLeft: nat): nat {
    if bytesLeft < s.bytesPer then s.bytesPer - bytesLeft
    else if s.split && s.bytesPer > 0 then s.request.maxPacket
    else 0
  }

  /** The transaction advances the total and the pointer by what it moved. */
  predicate Advances(s: Stage, s': Stage, bytesLeft: nat) {
    s'.total == s.total + TransactionBytes(s, bytesLeft) && s'.pointer == s.pointer + TransactionBytes(s, bytesLeft)
  }

  /** A complete-split without error, NAK or NYET ticks off one packet, and total and pointer advance by the bytes it
      moved. The total may pass the size only when no packets remain. */
  lemma CompleteSplitMoves(s: Stage, st: Status, packetsLeft: nat, bytesLeft: nat)
    requires AtStart(s) && s.split && s.splitComplete && Counts(st) && Possible(s, st, packetsLeft, bytesLeft)
    ensures MayAccount(s, st, packetsLeft, bytesLeft)
    ensures var s' := Accounted(s, st, packetsLeft, bytesLeft);
            Accounts(s') && s'.packets == s.packets - 1 && (s'.packets > 0 ==> AtStart(s')) && Advances(s, s', bytesLeft)
  {
    assert PacketsMoved(s, packetsLeft) == 1;
    if !s.request.statusStage {
      var m := s.request.maxPacket;
      assert m * 1 == m;
      var bytes := BytesMoved(s, packetsLeft, bytesLeft);
      assert bytes <= m && s.bytesPer <= m;
      OneMore(s.transferSize, m, s.total, AllPackets(s) - s.packets, bytes);
      assert U32(s.total + bytes) == s.total + bytes;
      CompleteSplitStep(s, st, packetsLeft, bytesLeft, bytes);
      assert bytes == TransactionBytes(s, bytesLeft);
    }
  }

  lemma CompleteSplitStep(s: Stage, st: Status, packetsLeft: nat, bytesLeft: nat, bytes: nat)
    requires Accounts(s) && !s.request.statusStage && s.split && Counts(st) && s.packets > 0
    requires PacketsMoved(s, packetsLeft) == 1 && BytesMoved(s, packetsLeft, bytesLeft) == bytes
    requires s.total < s.transferSize && s.bytesPer == Min(s.request.maxPacket, s.transferSize - s.total)
    requires U32(s.total + bytes) == s.total + bytes
    requires s.total + bytes <= s.request.maxPacket * (AllPackets(s) - s.packets + 1)
    requires s.packets > 1 ==> s.total + bytes < s.transferSize
    requires s.total + bytes > s.transferSize ==> U32(s.transferSize - (s.total + bytes)) >= 0x1_0000
    ensures MayAccount(s, st, packetsLeft, bytesLeft)
    ensures var s' := Accounted(s, st, packetsLeft, bytesLeft);
            Accounts(s') && s'.packets == s.packets - 1 && (s'.packets > 0 ==> AtStart(s'))
            && s'.total == s.total + bytes && s'.pointer == s.pointer + bytes
  {
    assert s.packets <= AllPackets(s) < 0x1_0000_0000 by {
      Packets(s.transferSize, s.request.maxPacket, 0);
    }
  }

  lemma SplitAccounting(s: Stage, st: Status, packetsLeft: nat, bytesLeft: nat)
    requires AtStart(s) && s.split && Possible(s, st, packetsLeft, bytesLeft)
    ensures MayAccount(s, st, packetsLeft, bytesLeft)
    ensures Accounts(Accounted(s, st, packetsLeft, bytesLeft))
    ensures Accounted(s, st, packetsLeft, bytesLeft).packets > 0 ==> AtStart(Accounted(s, st, packetsLeft, bytesLeft))
  {
    if Counts(st) {
      if s.splitComplete {
        CompleteSplitMoves(s, st, packetsLeft, bytesLeft);
      } else {
        StartSplitMovesNothing(s, st, packetsLeft, bytesLeft);
      }
    }
  }

  /** A transfer without splits is accounted once, and for no more than it was programmed with. */
  lemma PlainAccounting(s: Stage, st: Status, packetsLeft: nat, bytesLeft: nat)
    requires AtStart(s) && !s.split && Possible(s, st, packetsLeft, bytesLeft)
    ensures MayAccount(s, st, packetsLeft, bytesLeft)
    ensures Accounts(Accounted(s, st, packetsLeft, bytesLeft))
    ensures !Counts(st) ==> AtStart(Accounted(s, st, packetsLeft, bytesLeft))
    ensures Counts(st) ==> Accounted(s, st, packetsLeft, bytesLeft).ResultLen() == s.transferSize - bytesLeft
    ensures Counts(st) ==> Advances(s, Accounted(s, st, packetsLeft, bytesLeft), bytesLeft)
  {
    if Counts(st) {
      Packets(s.transferSize, s.request.maxPacket, 0);
      PlainCounts(s, st, packetsLeft, bytesLeft);
    }
  }

  lemma PlainCounts(s: Stage, st: Status, packetsLeft: nat, bytesLeft: nat)
    requires AtStart(s) && !s.split && Counts(st) && packetsLeft <= s.packets && bytesLeft <= s.bytesPer
    requires AllPackets(s) < 0x1_0000_0000 && s.transferSize < 0x1_0000_0000
    ensures MayAccount(s, st, packetsLeft, bytesLeft)
    ensures Accounts(Accounted(s, st, packetsLeft, bytesLeft))
    ensures Accounted(s, st, packetsLeft, bytesLeft).ResultLen() == s.transferSize - bytesLeft
    ensures Advances(s, Accounted(s, st, packetsLeft, bytesLeft), bytesLeft)
  {
    var moved := BytesMoved(s, packetsLeft, bytesLeft);
    assert PacketsMoved(s, packetsLeft) == s.packets - packetsLeft;
    assert moved == s.transferSize - bytesLeft;
    assert U32(s.total + moved) == moved;
  }

  /** The setup data go out in one packet exactly when the endpoint takes packets of 8 bytes, as every
      control endpoint must. */
  lemma SetupIsOnePacket(m: nat)
    requires 0 < m < 0x1_0000
    ensures PacketCount(SETUP_SIZE, m) == 1 <==> m >= 8
  {
    if m < 8 {
      assert m * 1 == m;
      Packets(SETUP_SIZE, m, 1);
      assert SETUP_SIZE + m - 1 >= 2 * m;
    }
  }
}
