/** Iteration over pending interrupts (src/bsp/device_driver/bcm/interrupt_controller.rs and
    interrupt_controller/peripheral_ic.rs). */
module PendingInterrupts {
  import opened Words

  const NUM_IRQS := 64

  /** Count trailing zeros of a 64 bit word; 64 for 0. */
  function Cttz(w: nat, limit: nat): (n: nat)
    ensures n <= limit
    ensures forall j: nat :: j < n ==> !Bit(w, j)
    ensures n < limit ==> Bit(w, n)
  {
    if limit == 0 || w % 2 == 1 then 0
    else
      1 + Cttz(w / 2, limit - 1)
  }

  /** The set bits of a word from `from` on, in ascending order. */
  ghost function Ascending(w: nat, from: nat): seq<nat>
    decreases NUM_IRQS - from, w
  {
    if from >= NUM_IRQS then [] else (if Bit(w, from) then [from] else []) + Ascending(w, from + 1)
  }

  lemma {:induction false} AscendingExactly(w: nat, from: nat, i: nat)
    ensures i in Ascending(w, from) <==> from <= i < NUM_IRQS && Bit(w, i)
    ensures forall j, k :: 0 <= j < k < |Ascending(w, from)| ==> Ascending(w, from)[j] < Ascending(w, from)[k]
    ensures forall j :: 0 <= j < |Ascending(w, from)| ==> from <= Ascending(w, from)[j]
    decreases NUM_IRQS - from
  {
    if from < NUM_IRQS {
      AscendingExactly(w, from + 1, i);
    }
  }

  lemma {:induction false} AscendingSkips(w: nat, from: nat, until: nat)
    requires from <= until <= NUM_IRQS && forall j :: from <= j < until ==> !Bit(w, j)
    ensures Ascending(w, from) == Ascending(w, until)
    decreases until - from
  {
    if from < until {
      AscendingSkips(w, from + 1, until);
    }
  }

  lemma {:induction false} AscendingSame(w: nat, w': nat, from: nat)
    requires forall j: nat :: from <= j < NUM_IRQS ==> (Bit(w, j) <==> Bit(w', j))
    ensures Ascending(w, from) == Ascending(w', from)
    decreases NUM_IRQS - from
  {
    if from < NUM_IRQS {
      AscendingSame(w, w', from + 1);
    }
  }

  lemma DropLowest(w: nat, next: nat)
    requires next < NUM_IRQS && Bit(w, next) && forall j: nat :: j < next ==> !Bit(w, j)
    ensures Ascending(w, next) == [next] + Ascending(ClearBit(w, next), 0)
  {
    forall j: nat { BitOfClear(w, next, j); }
    AscendingSkips(ClearBit(w, next), 0, next + 1);
    AscendingSame(w, ClearBit(w, next), next + 1);
  }

  datatype Item = Done | Number(irq: nat)

  class PendingIRQs {
    var bitmask: nat

    constructor (bitmask: nat)
      ensures this.bitmask == bitmask
    {
      this.bitmask := bitmask;
    }

    /** The interrupts still to be yielded. */
    ghost function Remaining(): seq<nat>
      reads this
    {
      Ascending(bitmask, 0)
    }

    /** Yields the lowest pending interrupt and drops it. */
    method Next() returns (item: Item)
      modifies this
      ensures item.Done? <==> old(Remaining()) == []
      ensures item.Done? ==> Remaining() == []
      ensures item.Number? ==> item.irq < NUM_IRQS && old(Remaining()) == [item.irq] + Remaining()
    {
      var next := Cttz(bitmask, NUM_IRQS);
      AscendingSkips(bitmask, 0, next);
      if next == NUM_IRQS {
        return Done;
      }
      DropLowest(bitmask, next);
      bitmask := ClearBit(bitmask, next);
      return Number(next);
    }
  }

  /** The register and the bit in it that stand for an interrupt, for PENDING, ENABLE and DISABLE alike. */
  function Register(irq: nat): nat { if irq <= 31 then 1 else 2 }
  function RegisterBit(irq: nat): nat { irq % 32 }

  /** The two 32 bit pending registers as one word. */
  function PendingWord(pending1: nat, pending2: nat): nat {
    pending1 + 0x1_0000_0000 * pending2
  }

  lemma PendingBits(pending1: nat, pending2: nat, irq: nat)
    requires pending1 < 0x1_0000_0000 && irq < NUM_IRQS
    ensures Bit(PendingWord(pending1, pending2), irq) <==> Bit(if Register(irq) == 1 then pending1 else pending2, RegisterBit(irq))
  {
    assert Pow2(8) == 256;
    assert Pow2(16) == 0x1_0000;
    assert Pow2(24) == 0x100_0000;
    assert Pow2(32) == 0x1_0000_0000;
    BitsOfPair(pending1, pending2, 32, irq);
  }

  datatype Handler = None | Some(id: nat)

  /** The handlers called for a list of interrupts, and whether one of them has no handler. */
  ghost function Calls(table: seq<Handler>, irqs: seq<nat>): (seq<nat>, bool)
    requires |table| == NUM_IRQS
  {
    if irqs == [] then ([], false)
    else if irqs[0] >= NUM_IRQS || table[irqs[0]].None? then ([], true)
    else
      var rest := Calls(table, irqs[1..]);
      ([table[irqs[0]].id] + rest.0, rest.1)
  }

  /** The handlers that are called are those of the first interrupts, in order, and it stops at the first interrupt
      without a handler, if there is one. */
  lemma {:induction false} CallsExactly(table: seq<Handler>, irqs: seq<nat>)
    requires |table| == NUM_IRQS && forall i :: 0 <= i < |irqs| ==> irqs[i] < NUM_IRQS
    ensures var (called, panicked) := Calls(table, irqs);
            && |called| <= |irqs| && (panicked <==> |called| < |irqs|)
            && (forall i :: 0 <= i < |called| ==> table[irqs[i]] == Some(called[i]))
            && (panicked ==> table[irqs[|called|]].None?)
    decreases |irqs|
  {
    if irqs != [] && table[irqs[0]].Some? {
      CallsExactly(table, irqs[1..]);
      var called := Calls(table, irqs).0;
      assert called[1..] == Calls(table, irqs[1..]).0;
      forall i | 0 <= i < |called|
        ensures table[irqs[i]] == Some(called[i])
      {
        assert i > 0 ==> called[i] == called[1..][i-1] && irqs[i] == irqs[1..][i-1];
      }
    }
  }

  class PeripheralIC {
    var handlerTable: seq<Handler>
    var pending1: nat
    var pending2: nat
    // the controller's enable state, changed by writes to ENABLE_1/2 and DISABLE_1/2
    var enabled1: nat
    var enabled2: nat

    ghost predicate IsEnabled(irq: nat)
      reads this
    {
      Bit(if Register(irq) == 1 then enabled1 else enabled2, RegisterBit(irq))
    }

    /** Enables this interrupt and no other; only one register is written. */
    method Enable(irq: nat)
      requires irq < NUM_IRQS
      modifies this`enabled1, this`enabled2
      ensures forall j: nat :: j < NUM_IRQS ==> (IsEnabled(j) <==> j == irq || old(IsEnabled(j)))
    {
      if irq <= 31 {
        forall j: nat { BitOfSet(enabled1, irq % 32, j); }
        enabled1 := SetBit(enabled1, irq % 32);
      } else {
        forall j: nat { BitOfSet(enabled2, irq % 32, j); }
        enabled2 := SetBit(enabled2, irq % 32);
      }
    }

    method Disable(irq: nat)
      requires irq < NUM_IRQS
      modifies this`enabled1, this`enabled2
      ensures forall j: nat :: j < NUM_IRQS ==> (IsEnabled(j) <==> j != irq && old(IsEnabled(j)))
    {
      if irq <= 31 {
        forall j: nat { BitOfClear(enabled1, irq % 32, j); }
        enabled1 := ClearBit(enabled1, irq % 32);
      } else {
        forall j: nat { BitOfClear(enabled2, irq % 32, j); }
        enabled2 := ClearBit(enabled2, irq % 32);
      }
    }

    ghost predicate Valid()
      reads this
    {
      |handlerTable| == NUM_IRQS && pending1 < 0x1_0000_0000 && pending2 < 0x1_0000_0000
    }

    method GetPending() returns (p: PendingIRQs)
      requires Valid()
      ensures fresh(p) && p.bitmask == PendingWord(pending1, pending2)
    {
      p := new PendingIRQs(0x1_0000_0000 * pending2 + pending1);
    }

    method RegisterHandler(irq: nat, handler: nat) returns (ok: bool)
      requires Valid() && irq < NUM_IRQS
      modifies this`handlerTable
      ensures Valid() && ok == old(handlerTable[irq]).None?
      ensures handlerTable == if ok then old(handlerTable)[irq := Some(handler)] else old(handlerTable)
    {
      if handlerTable[irq].Some? {
        return false;
      }
      handlerTable := handlerTable[irq := Some(handler)];
      return true;
    }

    /** The handlers of all pending interrupts are called, in ascending order and once each, up to the
        first interrupt without a handler, where the kernel panics. */
    method HandlePendingIrqs() returns (called: seq<nat>, panicked: bool)
      requires Valid()
      ensures (called, panicked) == Calls(handlerTable, Ascending(PendingWord(pending1, pending2), 0))
    {
      var it := GetPending();
      called, panicked := [], false;
      ghost var all := Calls(handlerTable, it.Remaining());
      assert [] + all.0 == all.0;
      while true
        invariant var rest := Calls(handlerTable, it.Remaining());
                  all == (called + rest.0, rest.1)
        decreases |it.Remaining()|
      {
        ghost var remaining := it.Remaining();
        var item := it.Next();
        if item.Done? {
          break;
        }
        assert remaining[1..] == it.Remaining();
        if handlerTable[item.irq].None? {
          panicked := true;
          break;
        }
        ghost var rest := Calls(handlerTable, it.Remaining()).0;
        assert called + ([handlerTable[item.irq].id] + rest) == called + [handlerTable[item.irq].id] + rest;
        called := called + [handlerTable[item.irq].id];
      }
      assert called + [] == called;
    }
  }

  /** An interrupt is handled exactly when its bit is set in the register that `enable` and `disable`
      use for it. */
  lemma HandledExactly(pending1: nat, pending2: nat, irq: nat)
    requires pending1 < 0x1_0000_0000 && pending2 < 0x1_0000_0000
    ensures irq in Ascending(PendingWord(pending1, pending2), 0) <==>
            irq < NUM_IRQS && Bit(if Register(irq) == 1 then pending1 else pending2, RegisterBit(irq))
  {
    AscendingExactly(PendingWord(pending1, pending2), 0, irq);
    if irq < NUM_IRQS {
      PendingBits(pending1, pending2, irq);
    }
  }
}
