/**
 * Interrupt demultiplexing: the GPIO service-register handler, the
 * draining of a pending word highest bit first, the muxed wake-up handler
 * for EINT 16..31, and the per-pin chained handler for EINT 0..15.
 */
module ExynosDemux {
  import opened Optional
  import opened ExynosRegs
  import opened ExynosModel

  datatype IrqReturn = IrqNone | IrqHandled

  /** `EXYNOS_SVC_GROUP(svc)`: the 1-based bank group of the pending GPIO interrupt, 0 for none. */
  function SvcGroup(c: EintConsts, svc: Word): nat
    requires c.svcGroupShift < 32
  {
    ToNat(FieldAt(svc, c.svcGroupShift, c.svcGroupMask))
  }

  /** `svc & EXYNOS_SVC_NUM_MASK`: the pin within the group. */
  function SvcPin(c: EintConsts, svc: Word): nat
  {
    ToNat(And(svc, c.svcNumMask))
  }

  /**
   * The service register's group and pin fields decode back to the group and
   * pin the hardware encodes, provided the pin field lies below the group
   * field and both values fit their fields.
   */
  lemma SvcDecodeRoundTrip(c: EintConsts, group: Word, pin: Word, groupLen: nat, pinLen: nat)
    requires c.svcGroupShift < 32 && pinLen <= c.svcGroupShift && c.svcGroupShift + groupLen <= 32
    requires c.svcGroupMask == LowOnes(groupLen) && c.svcNumMask == LowOnes(pinLen)
    requires Fits(group, groupLen) && Fits(pin, pinLen)
    ensures SvcGroup(c, Or(Shl(group, c.svcGroupShift), pin)) == ToNat(group)
    ensures SvcPin(c, Or(Shl(group, c.svcGroupShift), pin)) == ToNat(pin)
  {
    var svc := Or(Shl(group, c.svcGroupShift), pin);
    assert FieldAt(svc, c.svcGroupShift, c.svcGroupMask) == group;
    assert And(svc, c.svcNumMask) == pin;
  }

  /**
   * `exynos_eint_gpio_irq`: group 0 means nothing is pending and is
   * reported handled; otherwise the pin is looked up in the group's bank
   * domain (the group is not range-checked, hence the requirement), an
   * unmapped pin is reported as not handled, and a mapped one is dispatched
   * once.
   */
  method EintGpioIrq(c: EintConsts, d: PinCtrl, layer: IrqLayer) returns (r: IrqReturn)
    requires c.svcGroupShift < 32
    requires var g := SvcGroup(c, Read(d.regs, c.svcOffset));
      g != 0 ==> g - 1 < |d.banks| && d.banks[g - 1].irqDomain.Some? && d.banks[g - 1].irqDomain.value in layer.domains
    modifies layer`trace
    ensures var svc := Read(d.regs, c.svcOffset);
      SvcGroup(c, svc) == 0 ==> r == IrqHandled && layer.trace == old(layer.trace)
    ensures var svc := Read(d.regs, c.svcOffset);
      var g := SvcGroup(c, svc);
      g != 0 ==>
        var virq := Revmap(layer.domains[d.banks[g - 1].irqDomain.value], SvcPin(c, svc));
        && (virq == 0 ==> r == IrqNone && layer.trace == old(layer.trace))
        && (virq != 0 ==> r == IrqHandled && layer.trace == old(layer.trace) + [Dispatch(virq)])
  {
    var svc := Read(d.regs, c.svcOffset);
    var group := SvcGroup(c, svc);
    var pin := SvcPin(c, svc);
    if group == 0 {
      return IrqHandled;
    }
    var bank := d.banks[group - 1];
    var virq := Revmap(layer.domains[bank.irqDomain.value], pin);
    if virq == 0 {
      return IrqNone;
    }
    layer.Emit(Dispatch(virq));
    r := IrqHandled;
  }

  /** The index of the highest set bit below `n`. */
  function HighestSetBit(p: Word, n: nat): (h: nat)
    requires n <= 32 && exists j :: 0 <= j < n && p[j]
    ensures h < n && p[h]
    ensures forall j :: h < j < n ==> !p[j]
  {
    if p[n - 1] then n - 1 else HighestSetBit(p, n - 1)
  }

  /** The kernel's `fls`: 1 + the index of the most significant set bit, 0 for a zero word. */
  function Fls(p: Word): (r: nat)
    ensures r <= 32
    ensures r == 0 <==> p == Zero
    ensures r > 0 ==> p[r - 1] && forall j :: r - 1 < j < 32 ==> !p[j]
  {
    if p == Zero then 0
    else
      NonZeroHasBit(p);
      HighestSetBit(p, 32) + 1
  }

  lemma NonZeroHasBit(p: Word)
    requires p != Zero
    ensures exists j :: 0 <= j < 32 && p[j]
  {
  }

  /** `p & ~(1 << k)`. */
  function ClearBit(p: Word, k: nat): Word
    requires k < 32
  {
    And(p, Not(BitWord(k)))
  }

  /** The set bits of `p` below `n`, highest first. */
  function SetBitsBelow(p: Word, n: nat): seq<nat>
    requires n <= 32
  {
    if n == 0 then [] else (if p[n - 1] then [n - 1] else []) + SetBitsBelow(p, n - 1)
  }

  /** The set bits of a whole word, highest first. */
  function SetBits(p: Word): seq<nat>
  {
    SetBitsBelow(p, |p|)
  }

  /** `SetBitsBelow` lists exactly the set bits below `n`. */
  lemma {:induction false} SetBitsBelowMembers(p: Word, n: nat)
    requires n <= 32
    ensures forall k: nat :: k in SetBitsBelow(p, n) <==> k < n && p[k]
  {
    if n > 0 {
      SetBitsBelowMembers(p, n - 1);
    }
  }

  /** Each element of `s` is larger than every later one. */
  predicate StrictlyDescending(s: seq<nat>)
  {
    forall i, j :: 0 <= i < j < |s| ==> s[i] > s[j]
  }

  /** Putting an element above all of a strictly descending list in front keeps it strictly descending. */
  lemma DescendingCons(h: nat, rest: seq<nat>)
    requires StrictlyDescending(rest) && forall k :: k in rest ==> k < h
    ensures StrictlyDescending([h] + rest)
  {
    var s := [h] + rest;
    forall i, j | 0 <= i < j < |s|
      ensures s[i] > s[j]
    {
      assert s[j] == rest[j - 1];
      if i > 0 {
        assert s[i] == rest[i - 1];
      } else {
        assert rest[j - 1] in rest;
      }
    }
  }

  /** `SetBitsBelow` lists the set bits in strictly descending order, hence each once. */
  lemma {:induction false} SetBitsBelowDescending(p: Word, n: nat)
    requires n <= 32
    ensures StrictlyDescending(SetBitsBelow(p, n))
  {
    if n > 0 {
      SetBitsBelowDescending(p, n - 1);
      SetBitsBelowMembers(p, n - 1);
      if p[n - 1] {
        DescendingCons(n - 1, SetBitsBelow(p, n - 1));
      } else {
        assert SetBitsBelow(p, n) == SetBitsBelow(p, n - 1);
      }
    }
  }

  /** Words agreeing below `n` have the same set bits below `n`. */
  lemma {:induction false} SetBitsAgree(p: Word, q: Word, n: nat)
    requires n <= 32 && forall i :: 0 <= i < n ==> p[i] == q[i]
    ensures SetBitsBelow(p, n) == SetBitsBelow(q, n)
  {
    if n > 0 {
      SetBitsAgree(p, q, n - 1);
    }
  }

  /** With no bit set in [m, n), the set bits below `n` are those below `m`. */
  lemma {:induction false} SetBitsNoneAbove(p: Word, m: nat, n: nat)
    requires m <= n <= 32 && forall i :: m <= i < n ==> !p[i]
    ensures SetBitsBelow(p, n) == SetBitsBelow(p, m)
    decreases n - m
  {
    if m < n {
      SetBitsNoneAbove(p, m, n - 1);
      assert SetBitsBelow(p, n) == [] + SetBitsBelow(p, n - 1);
    }
  }

  /**
   * Draining one step: the set bits of a non-zero word are its highest set
   * bit followed by the set bits of the word with that bit cleared.
   */
  lemma SetBitsPeel(p: Word)
    requires p != Zero
    ensures var h := Fls(p) - 1;
      SetBits(p) == [h] + SetBits(ClearBit(p, h))
  {
    var h := Fls(p) - 1;
    var q := ClearBit(p, h);
    SetBitsNoneAbove(p, h + 1, 32);
    assert SetBitsBelow(p, h + 1) == [h] + SetBitsBelow(p, h);
    SetBitsNoneAbove(q, h, 32);
    SetBitsAgree(p, q, h);
  }

  /** The dispatch of each listed pin through a domain, in order. */
  function DispatchEvents(dom: map<nat, nat>, bits: seq<nat>): seq<Event>
  {
    if bits == [] then [] else [Dispatch(Revmap(dom, bits[0]))] + DispatchEvents(dom, bits[1..])
  }

  /** One draining step, on the dispatched events; the list of remaining bits shrinks. */
  lemma DispatchPeel(dom: map<nat, nat>, p: Word)
    requires p != Zero
    ensures var h := Fls(p) - 1;
      && DispatchEvents(dom, SetBits(p))
           == [Dispatch(Revmap(dom, h))] + DispatchEvents(dom, SetBits(ClearBit(p, h)))
      && |SetBits(ClearBit(p, h))| < |SetBits(p)|
  {
    SetBitsPeel(p);
  }

  /**
   * `exynos_irq_demux_eint`: every set bit of `pend` is dispatched exactly
   * once, highest first, through the domain; an unmapped pin dispatches
   * virq 0, as the code does not test the lookup.
   */
  method DemuxEint(layer: IrqLayer, pend: Word, domain: nat)
    requires domain in layer.domains
    modifies layer`trace
    ensures layer.trace == old(layer.trace) + DispatchEvents(layer.domains[domain], SetBits(pend))
  {
    ghost var dom := layer.domains[domain];
    var p := pend;
    while p != Zero
      invariant old(layer.trace) + DispatchEvents(dom, SetBits(pend))
        == layer.trace + DispatchEvents(dom, SetBits(p))
      decreases |SetBits(p)|
    {
      var irq := Fls(p) - 1;
      DispatchPeel(dom, p);
      layer.Emit(Dispatch(Revmap(layer.domains[domain], irq)));
      p := ClearBit(p, irq);
    }
    SetBitsNoneAbove(p, 0, 32);
  }

  /** `pend & ~mask` for a bank: its pending, unmasked pins. */
  function PendingBits(c: EintConsts, regs: RegFile, eintOffset: nat): Word
  {
    And(Read(regs, c.ependOffset + eintOffset), Not(Read(regs, c.emaskOffset + eintOffset)))
  }

  /** A bank of a muxed group as the handler uses it: its EINT offset and its domain. */
  datatype MuxTarget = MuxTarget(eintOffset: nat, domain: nat)

  /** The muxed group's banks, in order. */
  function MuxTargets(group: seq<PinBank>): (ts: seq<MuxTarget>)
    reads group
    requires forall i :: 0 <= i < |group| ==> group[i].irqDomain.Some?
    ensures |ts| == |group|
    ensures forall i :: 0 <= i < |group| ==> ts[i] == MuxTarget(group[i].desc.eintOffset, group[i].irqDomain.value)
  {
    seq(|group|, i requires 0 <= i < |group| && group[i].irqDomain.Some? reads group =>
      MuxTarget(group[i].desc.eintOffset, group[i].irqDomain.value))
  }

  /**
   * What draining one bank of the group dispatches; a domain that is not
   * registered maps no pin (the handler is only installed once every
   * bank of the group has one).
   */
  function BankEvents(c: EintConsts, regs: RegFile, domains: map<nat, map<nat, nat>>, t: MuxTarget): seq<Event>
  {
    DispatchEvents(if t.domain in domains then domains[t.domain] else map[], SetBits(PendingBits(c, regs, t.eintOffset)))
  }

  /** The first `n` banks of the group, in order, each drained through its own domain. */
  function MuxedEvents(c: EintConsts, regs: RegFile, domains: map<nat, map<nat, nat>>, ts: seq<MuxTarget>, n: nat): seq<Event>
    requires n <= |ts|
  {
    if n == 0 then [] else MuxedEvents(c, regs, domains, ts, n - 1) + BankEvents(c, regs, domains, ts[n - 1])
  }

  /** One iteration of the muxed handler: read a bank's pending and mask registers and drain them. */
  method DemuxBank(c: EintConsts, regs: RegFile, layer: IrqLayer, t: MuxTarget)
    requires t.domain in layer.domains
    modifies layer`trace
    ensures layer.trace == old(layer.trace) + BankEvents(c, regs, layer.domains, t)
  {
    var pend := Read(regs, c.ependOffset + t.eintOffset);
    var mask := Read(regs, c.emaskOffset + t.eintOffset);
    DemuxEint(layer, And(pend, Not(mask)), t.domain);
  }

  /** The loop of the muxed handler: the banks described by `ts`, drained in order. */
  method DemuxGroup(c: EintConsts, regs: RegFile, layer: IrqLayer, ts: seq<MuxTarget>)
    requires forall i :: 0 <= i < |ts| ==> ts[i].domain in layer.domains
    modifies layer`trace
    ensures layer.trace == old(layer.trace) + MuxedEvents(c, regs, layer.domains, ts, |ts|)
  {
    var i := 0;
    while i < |ts|
      invariant 0 <= i <= |ts|
      invariant layer.trace == old(layer.trace) + MuxedEvents(c, regs, layer.domains, ts, i)
    {
      DemuxBank(c, regs, layer, ts[i]);
      i := i + 1;
    }
  }

  /**
   * `exynos_irq_demux_eint16_31`: between chained enter and exit, each bank
   * of the group in turn has its pending and unmasked pins drained.
   */
  method Demux16To31(c: EintConsts, d: PinCtrl, layer: IrqLayer, irq: nat, group: seq<PinBank>)
    requires |group| > 0
    requires forall i :: 0 <= i < |group| ==> group[i].irqDomain.Some? && group[i].irqDomain.value in layer.domains
    modifies layer`trace
    ensures layer.trace == old(layer.trace) + [ChainedEnter(irq)]
      + MuxedEvents(c, d.regs, layer.domains, MuxTargets(group), |group|) + [ChainedExit(irq)]
  {
    layer.Emit(ChainedEnter(irq));
    var ts := MuxTargets(group);
    DemuxGroup(c, d.regs, layer, ts);
    layer.Emit(ChainedExit(irq));
  }

  /** `struct exynos_weint_data`: the pin a dedicated wake-up line belongs to. */
  datatype WeintData = WeintData(irq: nat, bank: PinBank)

  /**
   * `exynos_irq_eint0_15`: between chained enter and exit, the parent line
   * is masked, acked when its chip has an ack callback, the pin's virq is
   * dispatched (0 if the pin has no mapping, which the code does not check), and the
   * parent line is unmasked.
   */
  method Eint0To15(layer: IrqLayer, irq: nat, eintd: WeintData, parentHasAck: bool)
    requires eintd.bank.irqDomain.Some? && eintd.bank.irqDomain.value in layer.domains
    modifies layer`trace
    ensures layer.trace == old(layer.trace) + [ChainedEnter(irq), ParentMask(irq)]
      + (if parentHasAck then [ParentAck(irq)] else [])
      + [Dispatch(Revmap(layer.domains[eintd.bank.irqDomain.value], eintd.irq)), ParentUnmask(irq), ChainedExit(irq)]
  {
    layer.Emit(ChainedEnter(irq));
    layer.Emit(ParentMask(irq));
    if parentHasAck {
      layer.Emit(ParentAck(irq));
    }
    var eintIrq := Revmap(layer.domains[eintd.bank.irqDomain.value], eintd.irq);
    layer.Emit(Dispatch(eintIrq));
    layer.Emit(ParentUnmask(irq));
    layer.Emit(ChainedExit(irq));
  }
}
