/**
 * The irq_chip callbacks shared by the GPIO and wake-up interrupt chips
 * (mask, ack, unmask, set_type, request/release resources), the domain
 * map callbacks, and the wake-up mask with its set_wake callback.
 */
module ExynosChip {
  import opened Optional
  import opened ExynosRegs
  import opened ExynosModel

  /** The bank's EINT mask register for this chip. */
  function MaskReg(irqd: IrqData): nat { irqd.chip.eintMask + irqd.bank.desc.eintOffset }

  /** The bank's EINT pending register for this chip. */
  function PendReg(irqd: IrqData): nat { irqd.chip.eintPend + irqd.bank.desc.eintOffset }

  /** The bank's EINT trigger-configuration register for this chip. */
  function ConReg(irqd: IrqData): nat { irqd.chip.eintCon + irqd.bank.desc.eintOffset }

  /** The bank's pin-function register. */
  function FuncReg(desc: BankDesc): nat { desc.pctlOffset + desc.funcRegOffset }

  /** The trigger encodings `exynos_irq_set_type` accepts; `None` for every other type. */
  function TriggerCode(c: EintConsts, t: nat): (r: Option<Word>)
    ensures r.Some? <==> t in {IrqTypeEdgeRising, IrqTypeEdgeFalling, IrqTypeEdgeBoth, IrqTypeLevelHigh, IrqTypeLevelLow}
    ensures r.Some? && c.Valid() ==> Fits(r.value, c.conLen)
  {
    if t == IrqTypeEdgeRising then Some(c.edgeRising)
    else if t == IrqTypeEdgeFalling then Some(c.edgeFalling)
    else if t == IrqTypeEdgeBoth then Some(c.edgeBoth)
    else if t == IrqTypeLevelHigh then Some(c.levelHigh)
    else if t == IrqTypeLevelLow then Some(c.levelLow)
    else None
  }

  /** The flow handler `exynos_irq_set_type` installs: edge whenever any edge bit is set. */
  function FlowFor(t: nat): Flow
  {
    if HasEdgeBit(t) then EdgeFlow else LevelFlow
  }

  /**
   * Among the accepted trigger types the three edge types, and only they,
   * get the edge flow handler; the level types get the level handler.
   */
  lemma FlowOfAcceptedTypes(c: EintConsts, t: nat)
    requires TriggerCode(c, t).Some?
    ensures FlowFor(t) == EdgeFlow <==> t in {IrqTypeEdgeRising, IrqTypeEdgeFalling, IrqTypeEdgeBoth}
    ensures FlowFor(t) == LevelFlow <==> t in {IrqTypeLevelHigh, IrqTypeLevelLow}
    ensures HasLevelBit(t) <==> t in {IrqTypeLevelHigh, IrqTypeLevelLow}
  {
  }

  /** `exynos_irq_mask`: under the bank lock, set the pin's bit in the mask register. */
  method IrqMask(d: PinCtrl, layer: IrqLayer, irqd: IrqData)
    requires irqd.hwirq < 32
    modifies d`regs, layer`trace
    ensures d.regs == old(d.regs)[MaskReg(irqd) := Or(Read(old(d.regs), MaskReg(irqd)), BitWord(irqd.hwirq))]
    ensures layer.trace == old(layer.trace) +
      [BankLock(irqd.bank), MmioWrite(MaskReg(irqd), d.regs[MaskReg(irqd)]), BankUnlock(irqd.bank)]
  {
    layer.Emit(BankLock(irqd.bank));
    var mask := Read(d.regs, MaskReg(irqd));
    mask := Or(mask, BitWord(irqd.hwirq));
    Writel(d, layer, MaskReg(irqd), mask);
    layer.Emit(BankUnlock(irqd.bank));
  }

  /** Masking an already masked pin leaves the register file as it was. */
  lemma MaskIdempotent(regs: RegFile, irqd: IrqData)
    requires irqd.hwirq < 32
    ensures var once := regs[MaskReg(irqd) := Or(Read(regs, MaskReg(irqd)), BitWord(irqd.hwirq))];
      once[MaskReg(irqd) := Or(Read(once, MaskReg(irqd)), BitWord(irqd.hwirq))] == once
  {
    var w := Read(regs, MaskReg(irqd));
    assert Or(Or(w, BitWord(irqd.hwirq)), BitWord(irqd.hwirq)) == Or(w, BitWord(irqd.hwirq));
  }

  /** `exynos_irq_ack`: write the pin's bit alone to the pending register, without the lock. */
  method IrqAck(d: PinCtrl, layer: IrqLayer, irqd: IrqData)
    requires irqd.hwirq < 32
    modifies d`regs, layer`trace
    ensures d.regs == old(d.regs)[PendReg(irqd) := BitWord(irqd.hwirq)]
    ensures layer.trace == old(layer.trace) + [MmioWrite(PendReg(irqd), BitWord(irqd.hwirq))]
  {
    Writel(d, layer, PendReg(irqd), BitWord(irqd.hwirq));
  }

  /** The writes `exynos_irq_unmask` does before clearing the mask bit: one ack for level types. */
  function UnmaskAck(irqd: IrqData): Writes
    requires irqd.hwirq < 32
  {
    if HasLevelBit(irqd.trigger) then [(PendReg(irqd), BitWord(irqd.hwirq))] else []
  }

  /**
   * `exynos_irq_unmask`: a level-triggered pin is acked first; then, under
   * the bank lock, the pin's bit in the mask register is cleared.
   */
  method IrqUnmask(d: PinCtrl, layer: IrqLayer, irqd: IrqData)
    requires irqd.hwirq < 32
    modifies d`regs, layer`trace
    ensures var acked := ApplyWrites(old(d.regs), UnmaskAck(irqd));
      d.regs == acked[MaskReg(irqd) := And(Read(acked, MaskReg(irqd)), Not(BitWord(irqd.hwirq)))]
    ensures layer.trace == old(layer.trace) + WriteEvents(UnmaskAck(irqd)) +
      [BankLock(irqd.bank), MmioWrite(MaskReg(irqd), d.regs[MaskReg(irqd)]), BankUnlock(irqd.bank)]
  {
    if HasLevelBit(irqd.trigger) {
      IrqAck(d, layer, irqd);
    }
    ghost var acked := d.regs;
    ghost var mid := layer.trace;
    assert mid == old(layer.trace) + WriteEvents(UnmaskAck(irqd));
    layer.Emit(BankLock(irqd.bank));
    var mask := Read(d.regs, MaskReg(irqd));
    mask := And(mask, Not(BitWord(irqd.hwirq)));
    Writel(d, layer, MaskReg(irqd), mask);
    layer.Emit(BankUnlock(irqd.bank));
  }

  /**
   * Masking and then unmasking a pin restores its mask register whenever
   * the pin was unmasked before. A level-triggered pin is acked on the
   * way, so its pending register holds the pin's bit alone; every other
   * register keeps its value.
   */
  lemma MaskUnmaskRoundTrip(regs: RegFile, irqd: IrqData)
    requires irqd.hwirq < 32 && irqd.chip.eintPend != irqd.chip.eintMask
    requires !Read(regs, MaskReg(irqd))[irqd.hwirq]
    ensures var masked := regs[MaskReg(irqd) := Or(Read(regs, MaskReg(irqd)), BitWord(irqd.hwirq))];
      var acked := ApplyWrites(masked, UnmaskAck(irqd));
      var unmasked := acked[MaskReg(irqd) := And(Read(acked, MaskReg(irqd)), Not(BitWord(irqd.hwirq)))];
      && Read(unmasked, MaskReg(irqd)) == Read(regs, MaskReg(irqd))
      && Read(unmasked, PendReg(irqd)) == (if HasLevelBit(irqd.trigger) then BitWord(irqd.hwirq) else Read(regs, PendReg(irqd)))
      && forall off :: off != MaskReg(irqd) && off != PendReg(irqd) ==> Read(unmasked, off) == Read(regs, off)
  {
    var masked := regs[MaskReg(irqd) := Or(Read(regs, MaskReg(irqd)), BitWord(irqd.hwirq))];
    ApplyWritesElsewhere(masked, UnmaskAck(irqd), MaskReg(irqd));
    forall off | off != MaskReg(irqd) && off != PendReg(irqd)
      ensures Read(ApplyWrites(masked, UnmaskAck(irqd)), off) == Read(regs, off)
    {
      ApplyWritesElsewhere(masked, UnmaskAck(irqd), off);
    }
    if !HasLevelBit(irqd.trigger) {
      ApplyWritesElsewhere(masked, UnmaskAck(irqd), PendReg(irqd));
    }
    SetThenClear(Read(regs, MaskReg(irqd)), irqd.hwirq);
  }

  /**
   * `exynos_irq_set_type`: an unsupported type returns -EINVAL and changes
   * nothing; otherwise the flow handler is chosen by the edge bits and the
   * pin's trigger field in the configuration register is rewritten. This
   * read-modify-write is not done under the bank lock.
   */
  method IrqSetType(c: EintConsts, d: PinCtrl, layer: IrqLayer, irqd: IrqData, t: nat) returns (ret: int)
    requires c.Valid() && (irqd.hwirq + 1) * c.conLen <= 32
    modifies d`regs, layer`trace
    ensures TriggerCode(c, t).None? ==>
      ret == -EINVAL && d.regs == old(d.regs) && layer.trace == old(layer.trace)
    ensures TriggerCode(c, t).Some? ==> ret == 0
    ensures TriggerCode(c, t).Some? ==>
      var con := ReplaceField(Read(old(d.regs), ConReg(irqd)), c.conLen * irqd.hwirq, c.conMask, TriggerCode(c, t).value);
      && d.regs == old(d.regs)[ConReg(irqd) := con]
      && layer.trace == old(layer.trace) + [SetHandler(irqd.virq, FlowFor(t)), MmioWrite(ConReg(irqd), con)]
  {
    var shift := c.conLen * irqd.hwirq;
    var code := TriggerCode(c, t);
    if code.None? {
      return -EINVAL;
    }
    layer.Emit(SetHandler(irqd.virq, FlowFor(t)));
    var con := Read(d.regs, ConReg(irqd));
    con := ReplaceField(con, shift, c.conMask, code.value);
    Writel(d, layer, ConReg(irqd), con);
    ret := 0;
  }

  /**
   * After `exynos_irq_set_type` accepts a type, the pin's trigger field
   * reads back as that type's encoding and every other pin's field of the
   * same register is unchanged.
   */
  lemma SetTypeFields(c: EintConsts, w: Word, hw: nat, t: nat, other: nat)
    requires c.Valid() && (hw + 1) * c.conLen <= 32 && (other + 1) * c.conLen <= 32 && other != hw
    requires TriggerCode(c, t).Some?
    ensures var con := ReplaceField(w, c.conLen * hw, c.conMask, TriggerCode(c, t).value);
      && FieldAt(con, c.conLen * hw, c.conMask) == TriggerCode(c, t).value
      && FieldAt(con, c.conLen * other, c.conMask) == FieldAt(w, c.conLen * other, c.conMask)
  {
    MulSucc(hw, c.conLen);
    MulSucc(other, c.conLen);
    if other < hw {
      MulMono(other + 1, hw, c.conLen);
    } else {
      MulMono(hw + 1, other, c.conLen);
    }
    FieldReadback(w, c.conLen * hw, c.conLen, TriggerCode(c, t).value);
    OtherField(w, c.conLen * other, c.conLen * hw, c.conLen, TriggerCode(c, t).value);
  }

  /** The pin-function field write shared by request and release: `func` into the pin's field. */
  function FuncWrite(d: BankDesc, hw: nat, w: Word, func: Word): Word
    requires (hw + 1) * d.funcWidth <= 32 && 1 <= d.funcWidth
  {
    ReplaceField(w, hw * d.funcWidth, LowOnes(d.funcWidth), func)
  }

  /**
   * `exynos_irq_request_resources`: `lockRet` is what gpiochip_lock_as_irq
   * returns. On failure it is returned and nothing is written; otherwise,
   * under the bank lock, the pin is switched to the EINT function.
   */
  method IrqRequestResources(c: EintConsts, d: PinCtrl, layer: IrqLayer, irqd: IrqData, lockRet: int)
    returns (ret: int)
    requires (irqd.hwirq + 1) * irqd.bank.desc.funcWidth <= 32 && 1 <= irqd.bank.desc.funcWidth
    modifies d`regs, layer`trace
    ensures lockRet != 0 ==> ret == lockRet && d.regs == old(d.regs) && layer.trace == old(layer.trace)
    ensures lockRet == 0 ==> ret == 0
    ensures lockRet == 0 ==>
      var r := FuncReg(irqd.bank.desc);
      var con := FuncWrite(irqd.bank.desc, irqd.hwirq, Read(old(d.regs), r), c.eintFunc);
      && d.regs == old(d.regs)[r := con]
      && layer.trace == old(layer.trace) +
        [GpioLockAsIrq(irqd.bank, irqd.hwirq), BankLock(irqd.bank), MmioWrite(r, con), BankUnlock(irqd.bank)]
  {
    if lockRet != 0 {
      return lockRet;
    }
    layer.Emit(GpioLockAsIrq(irqd.bank, irqd.hwirq));
    var r := FuncReg(irqd.bank.desc);
    layer.Emit(BankLock(irqd.bank));
    var con := Read(d.regs, r);
    con := FuncWrite(irqd.bank.desc, irqd.hwirq, con, c.eintFunc);
    Writel(d, layer, r, con);
    layer.Emit(BankUnlock(irqd.bank));
    ret := 0;
  }

  /**
   * `exynos_irq_release_resources`: under the bank lock, the pin is switched
   * back to plain input; then the GPIO line is unlocked.
   */
  method IrqReleaseResources(c: EintConsts, d: PinCtrl, layer: IrqLayer, irqd: IrqData)
    requires (irqd.hwirq + 1) * irqd.bank.desc.funcWidth <= 32 && 1 <= irqd.bank.desc.funcWidth
    modifies d`regs, layer`trace
    ensures var r := FuncReg(irqd.bank.desc);
      var con := FuncWrite(irqd.bank.desc, irqd.hwirq, Read(old(d.regs), r), c.funcInput);
      && d.regs == old(d.regs)[r := con]
      && layer.trace == old(layer.trace) +
        [BankLock(irqd.bank), MmioWrite(r, con), BankUnlock(irqd.bank), GpioUnlockAsIrq(irqd.bank, irqd.hwirq)]
  {
    var r := FuncReg(irqd.bank.desc);
    layer.Emit(BankLock(irqd.bank));
    var con := Read(d.regs, r);
    con := FuncWrite(irqd.bank.desc, irqd.hwirq, con, c.funcInput);
    Writel(d, layer, r, con);
    layer.Emit(BankUnlock(irqd.bank));
    layer.Emit(GpioUnlockAsIrq(irqd.bank, irqd.hwirq));
  }

  /**
   * Requesting and then releasing a pin leaves its function field at plain
   * input (not at whatever it held before the request), and leaves every
   * bit outside the pin's field as it was.
   */
  lemma RequestReleaseFunction(c: EintConsts, desc: BankDesc, hw: nat, w: Word)
    requires (hw + 1) * desc.funcWidth <= 32 && 1 <= desc.funcWidth
    requires Fits(c.eintFunc, desc.funcWidth) && Fits(c.funcInput, desc.funcWidth)
    ensures var requested := FuncWrite(desc, hw, w, c.eintFunc);
      var released := FuncWrite(desc, hw, requested, c.funcInput);
      && FieldAt(requested, hw * desc.funcWidth, LowOnes(desc.funcWidth)) == c.eintFunc
      && FieldAt(released, hw * desc.funcWidth, LowOnes(desc.funcWidth)) == c.funcInput
      && forall i :: 0 <= i < 32 && !(hw * desc.funcWidth <= i < hw * desc.funcWidth + desc.funcWidth) ==>
           released[i] == w[i]
  {
    var s := hw * desc.funcWidth;
    assert s + desc.funcWidth <= 32 by { assert (hw + 1) * desc.funcWidth == s + desc.funcWidth; }
    var requested := FuncWrite(desc, hw, w, c.eintFunc);
    FieldReadback(w, s, desc.funcWidth, c.eintFunc);
    FieldReadback(requested, s, desc.funcWidth, c.funcInput);
    FieldFrame(w, s, desc.funcWidth, c.eintFunc);
    FieldFrame(requested, s, desc.funcWidth, c.funcInput);
  }

  /** `exynos_gpio_irq_map`: chip data, the GPIO chip with the level flow, and the valid flag. */
  method GpioIrqMap(layer: IrqLayer, bank: PinBank, virq: nat, hw: nat) returns (ret: int)
    modifies layer`trace
    ensures ret == 0
    ensures layer.trace == old(layer.trace) +
      [SetChipData(virq, bank), SetChipAndHandler(virq, GpioChip, LevelFlow), SetValid(virq)]
  {
    layer.Emit(SetChipData(virq, bank));
    layer.Emit(SetChipAndHandler(virq, GpioChip, LevelFlow));
    layer.Emit(SetValid(virq));
    ret := 0;
  }

  /** `exynos_wkup_irq_map`: the wake-up chip with the level flow, chip data, and the valid flag. */
  method WkupIrqMap(layer: IrqLayer, bank: PinBank, virq: nat, hw: nat) returns (ret: int)
    modifies layer`trace
    ensures ret == 0
    ensures layer.trace == old(layer.trace) +
      [SetChipAndHandler(virq, WkupChip, LevelFlow), SetChipData(virq, bank), SetValid(virq)]
  {
    layer.Emit(SetChipAndHandler(virq, WkupChip, LevelFlow));
    layer.Emit(SetChipData(virq, bank));
    layer.Emit(SetValid(virq));
    ret := 0;
  }

  /** The bit index `exynos_wkup_irq_set_wake` computes for a pin. */
  function WakeBitIndex(eintOffset: nat, hwirq: nat): nat
  {
    2 * eintOffset + hwirq
  }

  /**
   * The new 32-bit wake mask after set_wake: a cleared bit enables wake-up.
   * The bit is computed in an unsigned long, so an index of 32 or more
   * selects no bit of the 32-bit mask and leaves it unchanged.
   */
  function WakeUpdate(mask: Word, idx: nat, on: bool): (r: Word)
    ensures idx < 32 ==> r[idx] == !on
    ensures forall i :: 0 <= i < 32 && i != idx ==> r[i] == mask[i]
    ensures idx >= 32 ==> r == mask
  {
    if idx >= 32 then mask
    else if on then And(mask, Not(BitWord(idx)))
    else Or(mask, BitWord(idx))
  }

  /** Enabling and then disabling wake-up on a pin restores a mask in which the pin was disabled. */
  lemma WakeOnOffRoundTrip(mask: Word, idx: nat)
    requires idx >= 32 || mask[idx]
    ensures WakeUpdate(WakeUpdate(mask, idx, true), idx, false) == mask
  {
    if idx < 32 {
      var r := WakeUpdate(WakeUpdate(mask, idx, true), idx, false);
      assert forall i :: 0 <= i < 32 ==> r[i] == mask[i];
    }
  }

  /** The driver-wide wake-up mask (`exynos_eint_wake_mask`). */
  class WakeMask {
    var mask: Word

    /** At load time every wake-up source is disabled. */
    constructor ()
      ensures mask == AllOnes
    {
      mask := AllOnes;
    }

    /** `exynos_get_eint_wake_mask`. */
    method Get() returns (m: Word)
      ensures m == mask
    {
      m := mask;
    }

    /**
     * `exynos_wkup_irq_set_wake`: enabling clears the pin's bit, disabling
     * sets it; it always returns 0. The bit index must be below 64, the
     * width of the unsigned long the shift is done in.
     */
    method SetWake(irqd: IrqData, on: bool) returns (ret: int)
      requires WakeBitIndex(irqd.bank.desc.eintOffset, irqd.hwirq) < 64
      modifies this
      ensures ret == 0
      ensures mask == WakeUpdate(old(mask), WakeBitIndex(irqd.bank.desc.eintOffset, irqd.hwirq), on)
    {
      var idx := WakeBitIndex(irqd.bank.desc.eintOffset, irqd.hwirq);
      if idx < 32 {
        if !on {
          mask := Or(mask, BitWord(idx));
        } else {
          mask := And(mask, Not(BitWord(idx)));
        }
      }
      ret := 0;
    }
  }
}
