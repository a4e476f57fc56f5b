/** The configuration descriptor parser (ext/uspi/lib/usbconfigparser.c). */
module ConfigParsers {

  type byte = b: nat | b < 256

  const CONFIGURATION: byte := 2
  const INTERFACE: byte := 4
  const ENDPOINT: byte := 5
  const AUDIO_CLASS: byte := 1

  /** A descriptor in the buffer. */
  datatype Desc = Desc(pos: nat, len: nat, kind: byte)

  /** The byte at `i`. The class of a truncated interface descriptor is read before its length is checked,
      possibly past the end; such a descriptor is rejected whatever the byte is. */
  function At(buf: seq<byte>, i: nat): byte {
    if i < |buf| then buf[i] else 0
  }

  function DescAt(buf: seq<byte>, pos: nat): Desc {
    Desc(pos, At(buf, pos), At(buf, pos + 1))
  }

  /** The length a descriptor must have, 0 for any, and whether it may follow one of kind `last`, which is
      0 at the beginning. */
  function ExpectedLen(kind: byte, audio: bool): nat {
    if kind == CONFIGURATION || kind == INTERFACE then 9
    else if kind == ENDPOINT then (if audio then 9 else 7)
    else 0
  }

  predicate MayFollow(kind: byte, last: byte) {
    && (kind == CONFIGURATION ==> last == 0)
    && (kind == INTERFACE ==> last != 0)
    && (kind == ENDPOINT ==> last != 0 && last != CONFIGURATION)
  }

  /** Do endpoints after descriptor `d` have the audio layout? */
  function AudioAfter(buf: seq<byte>, d: Desc, audio: bool): bool {
    if d.kind == INTERFACE then At(buf, d.pos + 5) == AUDIO_CLASS else audio
  }

  predicate Proper(buf: seq<byte>, d: Desc, last: byte, audio: bool) {
    MayFollow(d.kind, last) && (ExpectedLen(d.kind, AudioAfter(buf, d, audio)) != 0 ==> d.len == ExpectedLen(d.kind, AudioAfter(buf, d, audio)))
  }

  // ----- What acceptance means ------------------------------------------------------------------------

  /** The kind of the descriptor before number `i`. */
  function LastBefore(ds: seq<Desc>, i: nat, last: byte): byte
    requires i <= |ds|
  {
    if i == 0 then last else ds[i-1].kind
  }

  function AudioBefore(buf: seq<byte>, ds: seq<Desc>, i: nat, audio: bool): bool
    requires i <= |ds|
  {
    if i == 0 then audio else AudioAfter(buf, ds[i-1], AudioBefore(buf, ds, i - 1, audio))
  }

  /** Descriptor number `i` is what the buffer holds where it stands, of nonzero length, proper in its
      place, and ends where the next one begins. */
  ghost predicate InPlace(buf: seq<byte>, end: nat, last: byte, audio: bool, ds: seq<Desc>, i: nat)
    requires i < |ds|
  {
    && ds[i] == DescAt(buf, ds[i].pos) && ds[i].len > 0
    && ds[i].pos + ds[i].len == (if i == |ds| - 1 then end else ds[i+1].pos)
    && Proper(buf, ds[i], LastBefore(ds, i, last), AudioBefore(buf, ds, i, audio))
  }

  /** The bytes from `pos` to `end` are exactly the descriptors `ds`, one after the other. */
  ghost predicate Chain(buf: seq<byte>, pos: nat, end: nat, last: byte, audio: bool, ds: seq<Desc>) {
    && (forall i: nat :: i < |ds| ==> InPlace(buf, end, last, audio, ds, i))
    && (if ds == [] then pos == end else ds[0].pos == pos)
  }

  /** The same, and the last one is longer than two bytes. */
  ghost predicate Layout(buf: seq<byte>, pos: nat, end: nat, last: byte, audio: bool, ds: seq<Desc>) {
    Chain(buf, pos, end, last, audio, ds) && (ds != [] ==> ds[|ds|-1].len > 2)
  }

  /** A descriptor is at least as long as its header, the length and the kind. */
  predicate WellSized(ds: seq<Desc>) {
    forall i :: 0 <= i < |ds| ==> ds[i].len >= 2
  }

  // ----- The validation loop --------------------------------------------------------------------------

  /** `Hangs`: the loop meets a descriptor of length 0 and never gets past it. */
  datatype Verdict = Accepted(ds: seq<Desc>) | Rejected(pos: nat) | Hangs(pos: nat)

  function Check(buf: seq<byte>, pos: nat, end: nat, last: byte, audio: bool): Verdict
    decreases end - pos
  {
    if pos + 2 >= end then (if pos == end then Accepted([]) else Rejected(pos))
    else
      var d := DescAt(buf, pos);
      if pos + d.len > end || !Proper(buf, d, last, audio) then Rejected(pos)
      else if d.len == 0 then Hangs(pos)
      else
        var rest := Check(buf, pos + d.len, end, d.kind, AudioAfter(buf, d, audio));
        if rest.Accepted? then Accepted([d] + rest.ds) else rest
  }

  lemma TailInPlace(buf: seq<byte>, end: nat, last: byte, audio: bool, ds: seq<Desc>, i: nat)
    requires i + 1 < |ds|
    ensures InPlace(buf, end, last, audio, ds, i + 1) <==> InPlace(buf, end, ds[0].kind, AudioAfter(buf, ds[0], audio), ds[1..], i)
  {
    AudioShift(buf, ds, i, audio);
    assert ds[1..][i] == ds[i+1];
    assert i > 0 ==> ds[1..][i-1] == ds[i];
    assert i + 2 < |ds| ==> ds[1..][i+1] == ds[i+2];
  }

  lemma ChainTail(buf: seq<byte>, pos: nat, end: nat, last: byte, audio: bool, ds: seq<Desc>)
    requires ds != []
    ensures Chain(buf, pos, end, last, audio, ds) <==>
            && ds[0] == DescAt(buf, pos) && ds[0].len > 0 && Proper(buf, ds[0], last, audio)
            && Chain(buf, pos + ds[0].len, end, ds[0].kind, AudioAfter(buf, ds[0], audio), ds[1..])
  {
    forall i: nat | i + 1 < |ds|
      ensures InPlace(buf, end, last, audio, ds, i + 1) <==> InPlace(buf, end, ds[0].kind, AudioAfter(buf, ds[0], audio), ds[1..], i)
    {
      TailInPlace(buf, end, last, audio, ds, i);
    }
    if Chain(buf, pos, end, last, audio, ds) {
      assert InPlace(buf, end, last, audio, ds, 0);
      forall i: nat | i < |ds[1..]|
        ensures InPlace(buf, end, ds[0].kind, AudioAfter(buf, ds[0], audio), ds[1..], i)
      {
        assert InPlace(buf, end, last, audio, ds, i + 1);
      }
    }
    if ds[0] == DescAt(buf, pos) && ds[0].len > 0 && Proper(buf, ds[0], last, audio)
       && Chain(buf, pos + ds[0].len, end, ds[0].kind, AudioAfter(buf, ds[0], audio), ds[1..]) {
      forall i: nat | i < |ds|
        ensures InPlace(buf, end, last, audio, ds, i)
      {
        if i > 0 {
          assert InPlace(buf, end, ds[0].kind, AudioAfter(buf, ds[0], audio), ds[1..], i - 1);
        }
      }
    }
  }

  lemma LayoutTail(buf: seq<byte>, pos: nat, end: nat, last: byte, audio: bool, ds: seq<Desc>)
    requires ds != []
    ensures Layout(buf, pos, end, last, audio, ds) <==>
            && ds[0] == DescAt(buf, pos) && ds[0].len > 0 && Proper(buf, ds[0], last, audio)
            && (|ds| == 1 ==> ds[0].len > 2)
            && Layout(buf, pos + ds[0].len, end, ds[0].kind, AudioAfter(buf, ds[0], audio), ds[1..])
  {
    ChainTail(buf, pos, end, last, audio, ds);
  }

  lemma {:induction false} AudioShift(buf: seq<byte>, ds: seq<Desc>, i: nat, audio: bool)
    requires i < |ds|
    ensures AudioBefore(buf, ds[1..], i, AudioAfter(buf, ds[0], audio)) == AudioBefore(buf, ds, i + 1, audio)
  {
    if i > 0 {
      AudioShift(buf, ds, i - 1, audio);
    }
  }

  lemma {:induction false} LayoutLong(buf: seq<byte>, pos: nat, end: nat, last: byte, audio: bool, ds: seq<Desc>)
    requires Layout(buf, pos, end, last, audio, ds)
    ensures pos <= end && (ds != [] ==> pos + 2 < end && pos + ds[0].len <= end)
    decreases |ds|
  {
    if ds != [] {
      LayoutTail(buf, pos, end, last, audio, ds);
      LayoutLong(buf, pos + ds[0].len, end, ds[0].kind, AudioAfter(buf, ds[0], audio), ds[1..]);
    }
  }

  lemma {:induction false} CheckSound(buf: seq<byte>, pos: nat, end: nat, last: byte, audio: bool)
    requires Check(buf, pos, end, last, audio).Accepted?
    ensures Layout(buf, pos, end, last, audio, Check(buf, pos, end, last, audio).ds)
    decreases end - pos
  {
    if pos + 2 < end {
      var d := DescAt(buf, pos);
      CheckSound(buf, pos + d.len, end, d.kind, AudioAfter(buf, d, audio));
      var ds := Check(buf, pos, end, last, audio).ds;
      assert ds[1..] == Check(buf, pos + d.len, end, d.kind, AudioAfter(buf, d, audio)).ds;
      LayoutTail(buf, pos, end, last, audio, ds);
    }
  }

  lemma {:induction false} CheckComplete(buf: seq<byte>, pos: nat, end: nat, last: byte, audio: bool, ds: seq<Desc>)
    requires Layout(buf, pos, end, last, audio, ds)
    ensures Check(buf, pos, end, last, audio) == Accepted(ds)
    decreases |ds|
  {
    LayoutLong(buf, pos, end, last, audio, ds);
    if ds != [] {
      LayoutTail(buf, pos, end, last, audio, ds);
      CheckComplete(buf, pos + ds[0].len, end, ds[0].kind, AudioAfter(buf, ds[0], audio), ds[1..]);
      assert [ds[0]] + ds[1..] == ds;
    }
  }

  /** The validation loop accepts exactly the buffers that are a concatenation of descriptors, and then there
      is only one way to read them. */
  lemma AcceptsExactly(buf: seq<byte>, end: nat)
    ensures Check(buf, 0, end, 0, false).Accepted? <==> exists ds :: Layout(buf, 0, end, 0, false, ds)
    ensures forall ds :: Layout(buf, 0, end, 0, false, ds) ==> Check(buf, 0, end, 0, false) == Accepted(ds)
  {
    if Check(buf, 0, end, 0, false).Accepted? {
      CheckSound(buf, 0, end, 0, false);
    }
    forall ds | Layout(buf, 0, end, 0, false, ds)
      ensures Check(buf, 0, end, 0, false) == Accepted(ds)
    {
      CheckComplete(buf, 0, end, 0, false, ds);
    }
  }

  // ----- What a layout is, in the terms of USB 2.0 sections 9.6.3, 9.6.5 and 9.6.6 ---------------------------

  /** The last interface before descriptor number `i` has the audio class. */
  ghost predicate InAudio(buf: seq<byte>, ds: seq<Desc>, i: nat)
    requires i <= |ds|
  {
    exists j :: 0 <= j < i && ds[j].kind == 4 && At(buf, ds[j].pos + 5) == 1 && forall k :: j < k < i ==> ds[k].kind != 4
  }

  /** Descriptor number `i` is what the buffer holds, ends where the next one begins, has the length of its kind and
      follows what it may: a configuration comes first, or after one of kind 0; an interface does not; an endpoint comes
      after something that is neither. */
  ghost predicate WellPlaced(buf: seq<byte>, end: nat, ds: seq<Desc>, i: nat)
    requires i < |ds|
  {
    var d := ds[i];
    && d.len == At(buf, d.pos) > 0 && d.kind == At(buf, d.pos + 1) && d.pos + d.len == (if i + 1 < |ds| then ds[i+1].pos else end)
    && (d.kind == 2 ==> d.len == 9 && (i == 0 || ds[i-1].kind == 0))
    && (d.kind == 4 ==> d.len == 9 && i > 0 && ds[i-1].kind != 0)
    && (d.kind == 5 ==> d.len == (if InAudio(buf, ds, i) then 9 else 7) && i > 0 && ds[i-1].kind != 0 && ds[i-1].kind != 2)
  }

  lemma {:induction false} AudioIs(buf: seq<byte>, ds: seq<Desc>, i: nat)
    requires i <= |ds|
    ensures AudioBefore(buf, ds, i, false) <==> InAudio(buf, ds, i)
  {
    if i > 0 {
      AudioIs(buf, ds, i - 1);
      if ds[i-1].kind == 4 {
        if At(buf, ds[i-1].pos + 5) == 1 {
          assert InAudio(buf, ds, i);
        }
      } else {
        if InAudio(buf, ds, i - 1) {
          var j :| 0 <= j < i - 1 && ds[j].kind == 4 && At(buf, ds[j].pos + 5) == 1 && forall k :: j < k < i - 1 ==> ds[k].kind != 4;
          assert InAudio(buf, ds, i);
        }
        if InAudio(buf, ds, i) {
          var j :| 0 <= j < i && ds[j].kind == 4 && At(buf, ds[j].pos + 5) == 1 && forall k :: j < k < i ==> ds[k].kind != 4;
          assert j < i - 1;
          assert InAudio(buf, ds, i - 1);
        }
      }
    }
  }

  /** An accepted buffer is one that begins with a descriptor, each of which is well-placed, the last one being longer than
      two bytes. */
  lemma LayoutMeans(buf: seq<byte>, end: nat, ds: seq<Desc>)
    ensures Layout(buf, 0, end, 0, false, ds) <==>
            && (forall i: nat :: i < |ds| ==> WellPlaced(buf, end, ds, i))
            && if ds == [] then end == 0 else ds[0].pos == 0 && ds[|ds|-1].len > 2
  {
    forall i: nat | i < |ds|
      ensures InPlace(buf, end, 0, false, ds, i) <==> WellPlaced(buf, end, ds, i)
    {
      AudioIs(buf, ds, i);
    }
  }

  /** An accepted buffer is a concatenation of descriptors with whole headers exactly if none of them has length 1;
      the header of one of length 1 reaches into the next. */
  lemma WellSizedExactly(buf: seq<byte>, end: nat)
    ensures (exists ds :: Layout(buf, 0, end, 0, false, ds) && WellSized(ds)) <==>
            var v := Check(buf, 0, end, 0, false); v.Accepted? && forall i :: 0 <= i < |v.ds| ==> v.ds[i].len != 1
  {
    AcceptsExactly(buf, end);
    var v := Check(buf, 0, end, 0, false);
    if v.Accepted? {
      CheckSound(buf, 0, end, 0, false);
      assert Layout(buf, 0, end, 0, false, v.ds);
      forall i: nat | i < |v.ds|
        ensures v.ds[i].len > 0
      {
        assert InPlace(buf, end, 0, false, v.ds, i);
      }
    }
  }

  const OVERLAPPING: seq<byte> := [9, 2, 13, 0, 1, 1, 0, 0, 0, 1, 3, 0x21, 0]

  /** Such a buffer is accepted: the kind of the descriptor at 9 is the length of the one at 10. */
  lemma AcceptsOverlap()
    ensures Check(OVERLAPPING, 0, 13, 0, false) == Accepted([Desc(0, 9, 2), Desc(9, 1, 3), Desc(10, 3, 0x21)])
    ensures HeaderOk(OVERLAPPING) && TotalLength(OVERLAPPING) == 13
  {
    assert Check(OVERLAPPING, 13, 13, 0x21, false) == Accepted([]);
    assert Check(OVERLAPPING, 10, 13, 3, false) == Accepted([Desc(10, 3, 0x21)]);
    assert Check(OVERLAPPING, 9, 13, 2, false) == Accepted([Desc(9, 1, 3), Desc(10, 3, 0x21)]);
  }

  // ----- When the loop does not return -----------------------------------------------------------------

  /** At `p` the loop meets a descriptor of length 0 of a kind without a prescribed length. */
  predicate Stuck(buf: seq<byte>, end: nat, p: nat) {
    p + 2 < end && At(buf, p) == 0 && At(buf, p + 1) !in {CONFIGURATION, INTERFACE, ENDPOINT}
  }

  lemma {:induction false} HangsOnlyAtZero(buf: seq<byte>, pos: nat, end: nat, last: byte, audio: bool) returns (ds: seq<Desc>)
    requires Check(buf, pos, end, last, audio).Hangs?
    ensures var p := Check(buf, pos, end, last, audio).pos;
            pos <= p && Stuck(buf, end, p) && Chain(buf, pos, p, last, audio, ds)
    decreases end - pos
  {
    var d := DescAt(buf, pos);
    ds := [];
    if d.len != 0 {
      var rest := HangsOnlyAtZero(buf, pos + d.len, end, d.kind, AudioAfter(buf, d, audio));
      ds := [d] + rest;
      assert ds[1..] == rest;
      ChainTail(buf, pos, Check(buf, pos, end, last, audio).pos, last, audio, ds);
    }
  }

  lemma {:induction false} StuckHangs(buf: seq<byte>, pos: nat, end: nat, last: byte, audio: bool, ds: seq<Desc>, p: nat)
    requires Chain(buf, pos, p, last, audio, ds) && Stuck(buf, end, p)
    ensures pos <= p && Check(buf, pos, end, last, audio) == Hangs(p)
    decreases |ds|
  {
    if ds != [] {
      ChainTail(buf, pos, p, last, audio, ds);
      StuckHangs(buf, pos + ds[0].len, end, ds[0].kind, AudioAfter(buf, ds[0], audio), ds[1..], p);
    }
  }

  /** The loop never gets past position `p` exactly if proper descriptors of nonzero length lead there and it holds
      one of length 0 of a kind without a prescribed length. */
  lemma HangsExactly(buf: seq<byte>, end: nat, p: nat)
    ensures Check(buf, 0, end, 0, false) == Hangs(p) <==> Stuck(buf, end, p) && exists ds :: Chain(buf, 0, p, 0, false, ds)
  {
    if Check(buf, 0, end, 0, false) == Hangs(p) {
      var ds := HangsOnlyAtZero(buf, 0, end, 0, false);
    }
    if Stuck(buf, end, p) {
      forall ds | Chain(buf, 0, p, 0, false, ds)
        ensures Check(buf, 0, end, 0, false) == Hangs(p)
      {
        StuckHangs(buf, 0, end, 0, false, ds, p);
      }
    }
  }

  const ENDLESS: seq<byte> := [9, 2, 13, 0, 1, 1, 0, 0, 0, 0, 0x21, 0, 0]

  /** A buffer on which the constructor does not return. */
  lemma EndlessHangs()
    ensures HeaderOk(ENDLESS) && TotalLength(ENDLESS) == 13 && Check(ENDLESS, 0, TotalLength(ENDLESS), 0, false) == Hangs(9)
  {
    assert Check(ENDLESS, 9, 13, 2, false) == Hangs(9);
  }

  // ----- Fetching descriptors --------------------------------------------------------------------------

  datatype Fetched = Missing | Got(index: nat)

  /** What `GetDescriptor` does to the list: `k` is the number of the next descriptor. */
  function Fetch(ds: seq<Desc>, k: nat, kind: byte): (nat, Fetched)
    requires k <= |ds|
    decreases |ds| - k
  {
    if k == |ds| || (kind == ENDPOINT && ds[k].kind == INTERFACE) then (k, Missing)
    else if ds[k].kind == kind then (k + 1, Got(k))
    else Fetch(ds, k + 1, kind)
  }

  /** The first descriptor from `k` on that a fetch of this kind does not pass. */
  function Barrier(ds: seq<Desc>, k: nat, kind: byte): (b: nat)
    requires k <= |ds|
    ensures k <= b <= |ds|
    ensures kind != ENDPOINT ==> b == |ds|
    ensures kind == ENDPOINT ==> (forall i :: k <= i < b ==> ds[i].kind != INTERFACE) && (b < |ds| ==> ds[b].kind == INTERFACE)
    decreases |ds| - k
  {
    if k == |ds| || (kind == ENDPOINT && ds[k].kind == INTERFACE) then k else Barrier(ds, k + 1, kind)
  }

  function Filter(ds: seq<Desc>, from: nat, until: nat, kind: byte): seq<nat>
    requires from <= until <= |ds|
    decreases until - from
  {
    if from == until then [] else (if ds[from].kind == kind then [from] else []) + Filter(ds, from + 1, until, kind)
  }

  /** A fetch gives the next descriptor of its kind, and an endpoint fetch never passes an interface. */
  lemma {:induction false} FetchMeaning(ds: seq<Desc>, k: nat, kind: byte)
    requires k <= |ds|
    ensures var (k', r) := Fetch(ds, k, kind);
            var b := Barrier(ds, k, kind);
            match r
            case Got(j) => k <= j < b && ds[j].kind == kind && k' == j + 1 && forall i :: k <= i < j ==> ds[i].kind != kind
            case Missing => k' == b && forall i :: k <= i < b ==> ds[i].kind != kind
    decreases |ds| - k
  {
    if !(k == |ds| || (kind == ENDPOINT && ds[k].kind == INTERFACE)) && ds[k].kind != kind {
      FetchMeaning(ds, k + 1, kind);
    }
  }

  /** What calls for one kind return until one returns nothing. */
  function Drain(ds: seq<Desc>, k: nat, kind: byte): seq<nat>
    requires k <= |ds|
    decreases |ds| - k
  {
    FetchMeaning(ds, k, kind);
    var (k', r) := Fetch(ds, k, kind);
    if r.Missing? then [] else [r.index] + Drain(ds, k', kind)
  }

  /** Repeated fetches return exactly what a filter over the list returns: over all that is left of it, or for
      endpoints over what is left of the current interface. */
  lemma {:induction false} DrainIsFilter(ds: seq<Desc>, k: nat, kind: byte)
    requires k <= |ds|
    ensures Drain(ds, k, kind) == Filter(ds, k, Barrier(ds, k, kind), kind)
    decreases |ds| - k
  {
    FetchMeaning(ds, k, kind);
    var (k', r) := Fetch(ds, k, kind);
    var b := Barrier(ds, k, kind);
    if r.Missing? {
      FilterSkips(ds, k, b, b, kind);
    } else {
      DrainIsFilter(ds, k', kind);
      FilterSkips(ds, k, r.index, b, kind);
      BarrierSame(ds, k, k', kind);
    }
  }

  lemma {:induction false} FilterSkips(ds: seq<Desc>, from: nat, mid: nat, until: nat, kind: byte)
    requires from <= mid <= until <= |ds| && forall i :: from <= i < mid ==> ds[i].kind != kind
    ensures Filter(ds, from, until, kind) == Filter(ds, mid, until, kind)
    decreases mid - from
  {
    if from < mid {
      FilterSkips(ds, from + 1, mid, until, kind);
    }
  }

  lemma {:induction false} BarrierSame(ds: seq<Desc>, k: nat, k': nat, kind: byte)
    requires k <= |ds| && k <= k' <= Barrier(ds, k, kind)
    ensures Barrier(ds, k', kind) == Barrier(ds, k, kind)
    decreases k' - k
  {
    if k < k' {
      BarrierSame(ds, k + 1, k', kind);
    }
  }

  // ----- The parser object -----------------------------------------------------------------------------

  const MAX_LENGTH := 512

  /** The end of the descriptors as the header announces it. */
  function TotalLength(buf: seq<byte>): nat {
    At(buf, 2) + 256 * At(buf, 3)
  }

  predicate HeaderOk(buf: seq<byte>) {
    4 <= |buf| <= MAX_LENGTH && buf[0] == 9 && buf[1] == CONFIGURATION && TotalLength(buf) <= |buf|
  }

  /** The verdict on the whole buffer, from the descriptors seen so far and the verdict on the rest. */
  ghost predicate Whole(verdict: Verdict, seen: seq<Desc>, rest: Verdict) {
    if rest.Accepted? then verdict == Accepted(seen + rest.ds) else verdict == rest
  }

  lemma WholeStep(buf: seq<byte>, pos: nat, end: nat, last: byte, audio: bool, verdict: Verdict, seen: seq<Desc>)
    requires pos + 2 < end && Whole(verdict, seen, Check(buf, pos, end, last, audio)) && !verdict.Hangs?
    requires pos + At(buf, pos) <= end && Proper(buf, DescAt(buf, pos), last, audio)
    ensures var d := DescAt(buf, pos);
            d.len > 0 && Whole(verdict, seen + [d], Check(buf, pos + d.len, end, d.kind, AudioAfter(buf, d, audio)))
  {
    var d := DescAt(buf, pos);
    var rest := Check(buf, pos + d.len, end, d.kind, AudioAfter(buf, d, audio));
    assert rest.Accepted? ==> seen + ([d] + rest.ds) == seen + [d] + rest.ds;
  }

  datatype Position = Nowhere | Somewhere(pos: nat)

  class Parser {
    const buffer: seq<byte>
    var valid: bool
    var endPosition: nat
    var nextPosition: nat
    var currentDescriptor: Position
    var errorPosition: nat
    ghost var ds: seq<Desc>
    ghost var k: nat      // the number of the next descriptor

    ghost predicate Valid()
      reads this
    {
      valid ==>
        && endPosition <= |buffer| && Layout(buffer, 0, endPosition, 0, false, ds)
        && k <= |ds| && nextPosition == if k < |ds| then ds[k].pos else endPosition
    }

    /** The constructor, for a buffer on which it returns. */
    constructor (buffer: seq<byte>)
      requires HeaderOk(buffer) ==> !Check(buffer, 0, TotalLength(buffer), 0, false).Hangs?
      ensures Valid() && this.buffer == buffer && nextPosition == 0 && k == 0
      ensures valid <==> HeaderOk(buffer) && Check(buffer, 0, TotalLength(buffer), 0, false).Accepted?
      ensures valid ==> 4 <= |buffer| <= 512 && buffer[0] == 9 && buffer[1] == 2 && endPosition == buffer[2] + 256 * buffer[3] <= |buffer|
      ensures valid ==> endPosition == TotalLength(buffer) && Check(buffer, 0, endPosition, 0, false) == Accepted(ds)
    {
      this.buffer := buffer;
      valid, endPosition, nextPosition, currentDescriptor, errorPosition := false, |buffer|, 0, Nowhere, 0;
      ds, k := [], 0;
      new;
      if |buffer| < 4 || |buffer| > MAX_LENGTH {
        return;
      }
      if buffer[0] != 9 || buffer[1] != CONFIGURATION || TotalLength(buffer) > |buffer| {
        return;
      }
      if TotalLength(buffer) < |buffer| {
        endPosition := TotalLength(buffer);
      }
      Validate();
      if valid {
        CheckSound(buffer, 0, endPosition, 0, false);
        LayoutLong(buffer, 0, endPosition, 0, false, ds);
      }
    }

    /** Does the descriptor at `pos` fit, follow one it may follow and have the length its kind requires? */
    method CheckDescriptor(pos: nat, last: byte, audio: bool) returns (proper: bool, audio': bool)
      requires pos + 2 < endPosition <= |buffer|
      ensures proper <==> pos + buffer[pos] <= endPosition && Proper(buffer, DescAt(buffer, pos), last, audio)
      ensures proper ==> audio' == AudioAfter(buffer, DescAt(buffer, pos), audio)
    {
      var len, kind := buffer[pos], buffer[pos+1];
      proper, audio' := false, audio;
      if pos + len > endPosition {
        return;
      }
      var expected: byte := 0;
      if kind == CONFIGURATION {
        if last != 0 {
          return;
        }
        expected := 9;
      } else if kind == INTERFACE {
        if last == 0 {
          return;
        }
        expected := 9;
        audio' := At(buffer, pos + 5) == AUDIO_CLASS;
      } else if kind == ENDPOINT {
        if last == 0 || last == CONFIGURATION {
          return;
        }
        expected := if audio then 9 else 7;
      }
      proper := expected == 0 || len == expected;
    }

    method Validate()
      requires endPosition <= |buffer| && !valid && nextPosition == 0 && k == 0
      requires !Check(buffer, 0, endPosition, 0, false).Hangs?
      modifies this`valid, this`errorPosition, this`ds
      ensures valid <==> Check(buffer, 0, endPosition, 0, false).Accepted?
      ensures valid ==> Check(buffer, 0, endPosition, 0, false) == Accepted(ds)
    {
      var pos := 0;
      var last: byte, audio := 0, false;
      ghost var seen: seq<Desc> := [];
      ghost var verdict := Check(buffer, 0, endPosition, 0, false);
      while pos + 2 < endPosition
        invariant pos <= endPosition && !valid
        invariant Whole(verdict, seen, Check(buffer, pos, endPosition, last, audio))
        decreases endPosition - pos
      {
        var len, kind := buffer[pos], buffer[pos+1];
        var proper, audio' := CheckDescriptor(pos, last, audio);
        if !proper {
          errorPosition := pos;
          return;
        }
        WholeStep(buffer, pos, endPosition, last, audio, verdict, seen);
        seen := seen + [DescAt(buffer, pos)];
        last, audio := kind, audio';
        pos := pos + len;
      }
      if pos != endPosition {
        errorPosition := pos;
        return;
      }
      assert seen + [] == seen;
      valid := true;
      ds := seen;
    }

    /** `GetDescriptor`: returns what `Fetch` finds in the list of descriptors. Every descriptor it looks at
        lies in the buffer. */
    method GetDescriptor(kind: byte) returns (result: Position)
      requires Valid() && valid
      modifies this
      ensures Valid() && valid && ds == old(ds)
      ensures k == Fetch(ds, old(k), kind).0
      ensures match Fetch(ds, old(k), kind).1
              case Missing => result == Nowhere
              case Got(j) => j < |ds| && result == Somewhere(ds[j].pos)
      ensures currentDescriptor == result && errorPosition == (if result.Nowhere? then old(errorPosition) else result.pos)
    {
      result := Nowhere;
      FetchMeaning(ds, k, kind);
      while nextPosition < endPosition
        invariant Valid() && valid && ds == old(ds) && result.Nowhere? && errorPosition == old(errorPosition)
        invariant Fetch(ds, k, kind) == Fetch(ds, old(k), kind)
        decreases |ds| - k
      {
        NextInBuffer(buffer, endPosition, ds, k);
        var len, ucType := buffer[nextPosition], buffer[nextPosition+1];
        assert nextPosition + len <= endPosition;
        if kind == ENDPOINT && ucType == INTERFACE {
          break;
        }
        var pos := nextPosition;
        nextPosition := nextPosition + len;
        k := k + 1;
        if ucType == kind {
          result := Somewhere(pos);
          break;
        }
      }
      NextInBuffer(buffer, endPosition, ds, k);
      if result.Somewhere? {
        errorPosition := result.pos;
      }
      currentDescriptor := result;
    }
  }

  /** The next descriptor lies in the buffer, header and all. */
  lemma NextInBuffer(buf: seq<byte>, end: nat, ds: seq<Desc>, k: nat)
    requires Layout(buf, 0, end, 0, false, ds) && k <= |ds|
    ensures k < |ds| ==> ds[k].pos + 2 < end && ds[k].pos + ds[k].len <= end && ds[k].len > 0 && ds[k] == DescAt(buf, ds[k].pos)
    ensures k < |ds| ==> ds[k].pos + ds[k].len == (if k + 1 < |ds| then ds[k+1].pos else end)
  {
    if k < |ds| {
      assert InPlace(buf, end, 0, false, ds, k);
      PosBounds(buf, 0, end, 0, false, ds, k);
    }
  }

  lemma {:induction false} PosBounds(buf: seq<byte>, pos: nat, end: nat, last: byte, audio: bool, ds: seq<Desc>, k: nat)
    requires Layout(buf, pos, end, last, audio, ds) && k < |ds|
    ensures ds[k].pos + 2 < end && ds[k].pos + ds[k].len <= end
    decreases k
  {
    LayoutLong(buf, pos, end, last, audio, ds);
    if k > 0 {
      LayoutTail(buf, pos, end, last, audio, ds);
      PosBounds(buf, pos + ds[0].len, end, ds[0].kind, AudioAfter(buf, ds[0], audio), ds[1..], k - 1);
    }
  }
}
