/**
 * The state an Exynos external-interrupt (EINT) controller driver works on:
 * the SoC constants, the pin banks, the driver data holding the register
 * window, and the parts of the kernel's generic IRQ layer the driver
 * drives (IRQ domains, flow handlers, dispatch).
 */
module ExynosModel {
  import opened Optional
  import opened ExynosRegs

  /**
   * The register layout and field encodings of the EINT block. Their
   * values live in the SoC header, which is not part of this model, so
   * they are parameters, constrained only by what the driver relies on.
   */
  datatype EintConsts = EintConsts(
    econOffset: nat,           // EXYNOS_GPIO_ECON_OFFSET
    efltconOffset: nat,        // EXYNOS_GPIO_EFLTCON_OFFSET
    emaskOffset: nat,          // EXYNOS_GPIO_EMASK_OFFSET
    ependOffset: nat,          // EXYNOS_GPIO_EPEND_OFFSET
    svcOffset: nat,            // EXYNOS_SVC_OFFSET
    conLen: nat,               // EXYNOS_EINT_CON_LEN
    conMask: Word,             // EXYNOS_EINT_CON_MASK
    edgeRising: Word,          // EXYNOS_EINT_EDGE_RISING
    edgeFalling: Word,         // EXYNOS_EINT_EDGE_FALLING
    edgeBoth: Word,            // EXYNOS_EINT_EDGE_BOTH
    levelHigh: Word,           // EXYNOS_EINT_LEVEL_HIGH
    levelLow: Word,            // EXYNOS_EINT_LEVEL_LOW
    svcGroupShift: nat,        // EXYNOS_SVC_GROUP_SHIFT
    svcGroupMask: Word,        // EXYNOS_SVC_GROUP_MASK
    svcNumMask: Word,          // EXYNOS_SVC_NUM_MASK
    fltLen: nat,               // EXYNOS_EINT_FLTCON_LEN
    fltMask: Word,             // EXYNOS_EINT_FLTCON_MASK
    fltEn: Word,               // EXYNOS_EINT_FLTCON_EN
    fltSel: Word,              // EXYNOS_EINT_FLTCON_SEL
    fltWidthMask: Word,        // the mask applied by EXYNOS_EINT_FLTCON_WIDTH
    eintFunc: Word,            // EXYNOS_EINT_FUNC, the pin function "external interrupt"
    funcInput: Word)           // FUNC_INPUT, the pin function "plain input"
  {
    /** Masks are the all-ones masks of their fields and every code fits its field. */
    predicate Valid()
    {
      ConValid() && svcGroupShift < 32 && FltValid()
    }

    /** The trigger field: its mask and the five trigger encodings. */
    predicate ConValid()
    {
      && 1 <= conLen <= 32 && conMask == LowOnes(conLen)
      && Fits(edgeRising, conLen) && Fits(edgeFalling, conLen) && Fits(edgeBoth, conLen)
      && Fits(levelHigh, conLen) && Fits(levelLow, conLen)
    }

    /** The filter field: its mask and the flag and width encodings. */
    predicate FltValid()
    {
      && 1 <= fltLen <= 32 && fltMask == LowOnes(fltLen)
      && Fits(fltEn, fltLen) && Fits(fltSel, fltLen) && Fits(fltWidthMask, fltLen)
    }
  }

  /** The kernel's generic IRQ_TYPE_* trigger codes. */
  const IrqTypeEdgeRising: nat := 1
  const IrqTypeEdgeFalling: nat := 2
  const IrqTypeEdgeBoth: nat := 3
  const IrqTypeLevelHigh: nat := 4
  const IrqTypeLevelLow: nat := 8

  /** `type & IRQ_TYPE_EDGE_BOTH` (0x3) is non-zero. */
  predicate HasEdgeBit(t: nat) { t % 4 != 0 }

  /** `type & IRQ_TYPE_LEVEL_MASK` (0xc) is non-zero. */
  predicate HasLevelBit(t: nat) { (t / 4) % 4 != 0 }

  /** Kernel error numbers, returned negated. */
  const EINVAL: int := 22
  const ENXIO: int := 6
  const ENOMEM: int := 12
  const ENODEV: int := 19

  datatype EintType = EintNone | EintGpio | EintWkup | EintWkupMux

  /** The constant description of a pin bank, from the SoC's bank table. */
  datatype BankDesc = BankDesc(
    name: string,
    nrPins: nat,
    pctlOffset: nat,
    eintOffset: nat,
    funcRegOffset: nat,     // bank type's reg_offset[PINCFG_TYPE_FUNC]
    funcWidth: nat,         // bank type's fld_width[PINCFG_TYPE_FUNC]
    hasInterrupts: bool)    // the bank's device-tree node has an "interrupts" property

  /** `struct exynos_eint_gpio_save`: the registers a GPIO bank keeps across suspend. */
  datatype GpioSave = GpioSave(eintCon: Word, fltcon0: Word, fltcon1: Word)

  /** `struct samsung_pin_bank`: the fields the EINT code reads and updates. */
  class PinBank {
    const desc: BankDesc
    var eintType: EintType
    var irqDomain: Option<nat>       // irq_domain, as an id into IrqLayer.domains
    var socPriv: Option<GpioSave>    // soc_priv

    constructor (desc: BankDesc, eintType: EintType)
      ensures this.desc == desc && this.eintType == eintType
      ensures irqDomain == None && socPriv == None
    {
      this.desc := desc;
      this.eintType := eintType;
      irqDomain := None;
      socPriv := None;
    }
  }

  /** `struct samsung_pinctrl_drv_data` with its controller's bank array. */
  class PinCtrl {
    var regs: RegFile
    const banks: seq<PinBank>
    const irq: nat

    constructor (regs: RegFile, banks: seq<PinBank>, irq: nat)
      ensures this.regs == regs && this.banks == banks && this.irq == irq
    {
      this.regs := regs;
      this.banks := banks;
      this.irq := irq;
    }

    /** The bank array holds each bank once. */
    ghost predicate Distinct()
    {
      forall i, j :: 0 <= i < j < |banks| ==> banks[i] != banks[j]
    }

    /** The bank descriptions, in table order. */
    function Descs(): (r: seq<BankDesc>)
      ensures |r| == |banks|
      ensures forall i :: 0 <= i < |banks| ==> r[i] == banks[i].desc
    {
      seq(|banks|, i requires 0 <= i < |banks| => banks[i].desc)
    }

    /** The banks' current EINT types, in table order. */
    function Types(): (r: seq<EintType>)
      reads banks
      ensures |r| == |banks|
      ensures forall i :: 0 <= i < |banks| ==> r[i] == banks[i].eintType
    {
      seq(|banks|, i requires 0 <= i < |banks| reads banks => banks[i].eintType)
    }
  }

  /** The flow handlers the driver installs. */
  datatype Flow = LevelFlow | EdgeFlow | ChainedEint0To15 | ChainedDemux16To31

  datatype ChipKind = GpioChip | WkupChip

  /** `struct exynos_irq_chip`: an irq_chip with the offsets of its three banks of registers. */
  datatype ExynosChip = ExynosChip(kind: ChipKind, eintCon: nat, eintMask: nat, eintPend: nat)

  function GpioIrqChip(c: EintConsts): ExynosChip
  {
    ExynosChip(GpioChip, c.econOffset, c.emaskOffset, c.ependOffset)
  }

  /** The wake-up chip uses the same register offsets as the GPIO chip. */
  function WkupIrqChip(c: EintConsts): ExynosChip
  {
    ExynosChip(WkupChip, c.econOffset, c.emaskOffset, c.ependOffset)
  }

  /** `struct irq_data` as the chip callbacks see it. */
  datatype IrqData = IrqData(virq: nat, hwirq: nat, bank: PinBank, chip: ExynosChip, trigger: nat)

  /** What the driver does that is observable outside its register writes. */
  datatype Event =
    | MmioWrite(off: nat, val: Word)                 // writel
    | BankLock(bank: PinBank)                        // spin_lock_irqsave(&bank->slock)
    | BankUnlock(bank: PinBank)                      // spin_unlock_irqrestore(&bank->slock)
    | GpioLockAsIrq(bank: PinBank, pin: nat)
    | GpioUnlockAsIrq(bank: PinBank, pin: nat)
    | SetHandler(virq: nat, flow: Flow)              // __irq_set_handler_locked
    | SetChipData(virq: nat, bank: PinBank)          // irq_set_chip_data
    | SetChipAndHandler(virq: nat, chip: ChipKind, flow: Flow)
    | SetValid(virq: nat)                            // set_irq_flags(virq, IRQF_VALID)
    | RequestIrq(irq: nat)                           // devm_request_irq of the GPIO demux
    | SetChainedEint0To15(irq: nat, bank: PinBank, pin: nat)
    | SetChainedDemux16To31(irq: nat, banks: seq<PinBank>)
    | ChainedEnter(irq: nat)
    | ChainedExit(irq: nat)
    | ParentMask(irq: nat)                           // chip->irq_mask on the parent line
    | ParentAck(irq: nat)
    | ParentUnmask(irq: nat)
    | Dispatch(virq: nat)                            // generic_handle_irq(virq)

  /** `irq_linear_revmap` / `irq_find_mapping`: 0 when the pin has no mapping. */
  function Revmap(dom: map<nat, nat>, hw: nat): nat
  {
    if hw in dom then dom[hw] else 0
  }

  /**
   * The kernel's IRQ layer: the live linear domains (id -> hwirq -> virq),
   * the next domain id to hand out, and the trace of observable events.
   */
  class IrqLayer {
    var domains: map<nat, map<nat, nat>>
    var nextDomain: nat
    var trace: seq<Event>

    constructor ()
      ensures domains == map[] && nextDomain == 0 && trace == []
      ensures Valid()
    {
      domains := map[];
      nextDomain := 0;
      trace := [];
    }

    /** Every live domain id was handed out before. */
    ghost predicate Valid()
      reads this`domains, this`nextDomain
    {
      forall id :: id in domains ==> id < nextDomain
    }

    /** `irq_domain_add_linear`; `ok` is whether the allocation succeeds. */
    method AddLinear(ok: bool) returns (id: Option<nat>)
      requires Valid()
      modifies this`domains, this`nextDomain
      ensures Valid()
      ensures ok ==> id == Some(old(nextDomain)) && old(nextDomain) !in old(domains)
      ensures ok ==> domains == old(domains)[old(nextDomain) := map[]] && nextDomain == old(nextDomain) + 1
      ensures !ok ==> id == None && domains == old(domains) && nextDomain == old(nextDomain)
    {
      if ok {
        id := Some(nextDomain);
        domains := domains[nextDomain := map[]];
        nextDomain := nextDomain + 1;
      } else {
        id := None;
      }
    }

    /** `irq_domain_remove`. */
    method Remove(id: nat)
      requires Valid()
      modifies this`domains
      ensures Valid()
      ensures domains == old(domains) - {id}
    {
      domains := domains - {id};
    }

    method Emit(e: Event)
      modifies this`trace
      ensures trace == old(trace) + [e]
    {
      trace := trace + [e];
    }
  }

  /** `readl` followed by the register file; `writel` updates it and is traced. */
  method Writel(d: PinCtrl, layer: IrqLayer, off: nat, v: Word)
    modifies d`regs, layer`trace
    ensures d.regs == old(d.regs)[off := v]
    ensures layer.trace == old(layer.trace) + [MmioWrite(off, v)]
  {
    d.regs := d.regs[off := v];
    layer.trace := layer.trace + [MmioWrite(off, v)];
  }

  /** A list of register writes, in order. */
  type Writes = seq<(nat, Word)>

  function ApplyWrites(regs: RegFile, ws: Writes): RegFile
    decreases |ws|
  {
    if ws == [] then regs else ApplyWrites(regs[ws[0].0 := ws[0].1], ws[1..])
  }

  function WriteEvents(ws: Writes): (r: seq<Event>)
  {
    if ws == [] then [] else [MmioWrite(ws[0].0, ws[0].1)] + WriteEvents(ws[1..])
  }

  lemma {:induction false} WriteEventsAppend(a: Writes, b: Writes)
    ensures WriteEvents(a + b) == WriteEvents(a) + WriteEvents(b)
    decreases |a|
  {
    if a == [] {
      assert a + b == b;
    } else {
      assert (a + b)[1..] == a[1..] + b;
      WriteEventsAppend(a[1..], b);
    }
  }

  /** Applying two write lists in turn is applying their concatenation. */
  lemma {:induction false} ApplyWritesAppend(regs: RegFile, a: Writes, b: Writes)
    ensures ApplyWrites(regs, a + b) == ApplyWrites(ApplyWrites(regs, a), b)
    decreases |a|
  {
    if a != [] {
      assert (a + b)[1..] == a[1..] + b;
      ApplyWritesAppend(regs[a[0].0 := a[0].1], a[1..], b);
    } else {
      assert a + b == b;
    }
  }

  /** Every write in the list goes to `a` or to `b`. */
  predicate WritesOnly(ws: Writes, a: nat, b: nat)
  {
    forall i :: 0 <= i < |ws| ==> ws[i].0 == a || ws[i].0 == b
  }

  lemma WritesOnlyAppend(x: Writes, y: Writes, a: nat, b: nat)
    requires WritesOnly(x, a, b) && WritesOnly(y, a, b)
    ensures WritesOnly(x + y, a, b)
  {
    forall i | 0 <= i < |x + y|
      ensures (x + y)[i].0 == a || (x + y)[i].0 == b
    {
      if i >= |x| {
        assert (x + y)[i] == y[i - |x|];
      }
    }
  }

  /** A location no write in the list targets keeps its value. */
  lemma {:induction false} ApplyWritesElsewhere(regs: RegFile, ws: Writes, off: nat)
    requires forall i :: 0 <= i < |ws| ==> ws[i].0 != off
    ensures Read(ApplyWrites(regs, ws), off) == Read(regs, off)
    decreases |ws|
  {
    if ws != [] {
      ApplyWritesElsewhere(regs[ws[0].0 := ws[0].1], ws[1..], off);
    }
  }

  /** A location holds the value of the last write to it. */
  lemma {:induction false} ApplyWritesLast(regs: RegFile, ws: Writes, k: nat)
    requires k < |ws|
    requires forall i :: k < i < |ws| ==> ws[i].0 != ws[k].0
    ensures Read(ApplyWrites(regs, ws), ws[k].0) == ws[k].1
    decreases |ws|
  {
    if k == 0 {
      ApplyWritesElsewhere(regs[ws[0].0 := ws[0].1], ws[1..], ws[0].0);
    } else {
      ApplyWritesLast(regs[ws[0].0 := ws[0].1], ws[1..], k - 1);
    }
  }
}
