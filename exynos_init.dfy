/**
 * Probe-time setup of the GPIO EINT controller: one demultiplexed parent
 * line, one linear IRQ domain and one register save area per GPIO bank,
 * with the domains already created removed again when a later bank
 * fails. The wake-up controller's setup is in module ExynosWkup.
 *
 * What the kernel may refuse (requesting the parent line, adding a
 * domain, allocating memory) is an input.
 */
module ExynosInit {
  import opened Optional
  import opened ExynosRegs
  import opened ExynosModel
  import opened ExynosFilter

  /** How many of the first `n` banks have type `t`. */
  function CountType(types: seq<EintType>, t: EintType, n: nat): (r: nat)
    requires n <= |types|
    ensures r <= n
  {
    if n == 0 then 0 else CountType(types, t, n - 1) + (if types[n - 1] == t then 1 else 0)
  }

  /** The save area `devm_kzalloc` hands out: all registers zero. */
  const ZeroSave: GpioSave := GpioSave(Zero, Zero, Zero)

  /** The filter value both init routines program: enabled, filter selected, width 0. */
  function InitFlt(c: EintConsts): Word
  {
    FltConWord(c, true, true, Zero)
  }

  /**
   * The register writes of programming the filter, in bank order, of
   * every bank of type `t` among the first `n`; each bank's writes start
   * from the registers the previous banks left.
   */
  function FltWritesOfType(c: EintConsts, regs: RegFile, descs: seq<BankDesc>, types: seq<EintType>,
                           t: EintType, flt: Word, n: nat): Writes
    requires n <= |descs| == |types|
    requires forall j :: 0 <= j < |types| && types[j] == t ==> FltFitsWord(c, descs[j])
  {
    if n == 0 then []
    else
      var prev := FltWritesOfType(c, regs, descs, types, t, flt, n - 1);
      if types[n - 1] == t then prev + FltConfigWrites(c, ApplyWrites(regs, prev), descs[n - 1], flt)
      else prev
  }

  /**
   * Where the GPIO init loop stops: the first GPIO bank at or after `k`
   * whose domain or save area cannot be allocated, or `|types|` when
   * there is none.
   */
  function GpioStop(types: seq<EintType>, domainOk: seq<bool>, allocOk: seq<bool>, k: nat): (f: nat)
    requires |domainOk| == |types| && |allocOk| == |types| && k <= |types|
    ensures k <= f <= |types|
    ensures forall j :: k <= j < f && types[j] == EintGpio ==> domainOk[j] && allocOk[j]
    ensures f < |types| ==> types[f] == EintGpio && !(domainOk[f] && allocOk[f])
    decreases |types| - k
  {
    if k == |types| then k
    else if types[k] == EintGpio && !(domainOk[k] && allocOk[k]) then k
    else GpioStop(types, domainOk, allocOk, k + 1)
  }

  /** The live domains `doms` together with fresh, empty domains numbered `lo` to `hi - 1`. */
  function WithFresh(doms: map<nat, map<nat, nat>>, lo: nat, hi: nat): map<nat, map<nat, nat>>
    decreases hi
  {
    if hi <= lo then doms else WithFresh(doms, lo, hi - 1)[hi - 1 := map[]]
  }

  /** The ids live after handing out `lo` to `hi - 1` are the old ones and the fresh ones; the old ones keep their domains. */
  lemma {:induction false} WithFreshKeys(doms: map<nat, map<nat, nat>>, lo: nat, hi: nat)
    ensures forall id :: id in WithFresh(doms, lo, hi) <==> id in doms || lo <= id < hi
    ensures forall id :: id in doms && !(lo <= id < hi) ==> WithFresh(doms, lo, hi)[id] == doms[id]
    decreases hi
  {
    if hi > lo {
      WithFreshKeys(doms, lo, hi - 1);
    }
  }

  /** Removing the top fresh id, which no live domain uses, shrinks the fresh range by one. */
  lemma WithFreshDrop(doms: map<nat, map<nat, nat>>, lo: nat, hi: nat)
    requires lo <= hi && forall id :: id in doms ==> id < lo
    ensures WithFresh(doms, lo, hi + 1) - {hi} == WithFresh(doms, lo, hi)
  {
    WithFreshKeys(doms, lo, hi);
    assert hi !in WithFresh(doms, lo, hi);
  }

  /**
   * One iteration of the GPIO init loop for a GPIO bank: add its domain,
   * allocate its save area (removing the domain again when that fails)
   * and program its filter.
   */
  method InitGpioBank(c: EintConsts, d: PinCtrl, layer: IrqLayer, bank: PinBank, domainOk: bool, allocOk: bool)
    returns (ret: int)
    requires layer.Valid() && FltFitsWord(c, bank.desc)
    modifies d`regs, layer`trace, layer`domains, layer`nextDomain, bank`irqDomain, bank`socPriv
    ensures layer.Valid()
    ensures ret == (if !domainOk then -ENXIO else if !allocOk then -ENOMEM else 0)
    ensures layer.nextDomain == old(layer.nextDomain) + (if domainOk then 1 else 0)
    ensures layer.domains == if ret == 0 then old(layer.domains)[old(layer.nextDomain) := map[]] else old(layer.domains)
    ensures bank.irqDomain == if domainOk then Some(old(layer.nextDomain)) else None
    ensures bank.socPriv == if !domainOk then old(bank.socPriv) else if !allocOk then None else Some(ZeroSave)
    ensures var ws := if ret == 0 then FltConfigWrites(c, old(d.regs), bank.desc, InitFlt(c)) else [];
      d.regs == ApplyWrites(old(d.regs), ws) && layer.trace == old(layer.trace) + WriteEvents(ws)
  {
    var id := layer.AddLinear(domainOk);
    bank.irqDomain := id;
    if id.None? {
      return -ENXIO;
    }
    if !allocOk {
      layer.Remove(id.value);
      assert layer.domains == old(layer.domains);
      bank.socPriv := None;
      return -ENOMEM;
    }
    bank.socPriv := Some(ZeroSave);
    FltConfig(c, d, layer, true, true, Zero, bank);
    ret := 0;
  }

  /**
   * One step of the unwinding loop: bank `k`, when it is a GPIO bank,
   * holds the most recently handed-out domain, and `irq_domain_remove`
   * drops it.
   */
  method RemoveBankDomain(d: PinCtrl, layer: IrqLayer, k: nat, ghost types: seq<EintType>,
                          ghost doms: map<nat, map<nat, nat>>, ghost lo: nat)
    requires k < |d.banks| && k < |types| && d.banks[k].eintType == types[k] && layer.Valid()
    requires forall id :: id in doms ==> id < lo
    requires layer.domains == WithFresh(doms, lo, lo + CountType(types, EintGpio, k + 1))
    requires types[k] == EintGpio ==> d.banks[k].irqDomain == Some(lo + CountType(types, EintGpio, k))
    modifies layer`domains
    ensures layer.Valid() && layer.domains == WithFresh(doms, lo, lo + CountType(types, EintGpio, k))
  {
    var bank := d.banks[k];
    if bank.eintType == EintGpio {
      WithFreshDrop(doms, lo, lo + CountType(types, EintGpio, k));
      layer.Remove(bank.irqDomain.value);
    }
  }

  /**
   * The unwinding loop of the GPIO init: the domains of the GPIO banks
   * before `n`, handed out in bank order from `lo`, are removed, last
   * bank first, which leaves the domains that were live before.
   */
  method RemoveGpioDomains(d: PinCtrl, layer: IrqLayer, n: nat, ghost types: seq<EintType>,
                           ghost doms: map<nat, map<nat, nat>>, ghost lo: nat)
    requires n <= |d.banks| && n <= |types| && layer.Valid()
    requires forall id :: id in doms ==> id < lo
    requires layer.domains == WithFresh(doms, lo, lo + CountType(types, EintGpio, n))
    requires forall j :: 0 <= j < n ==> d.banks[j].eintType == types[j]
    requires forall j :: 0 <= j < n && types[j] == EintGpio ==>
      d.banks[j].irqDomain == Some(lo + CountType(types, EintGpio, j))
    modifies layer`domains
    ensures layer.Valid() && layer.domains == doms
  {
    var k := n;
    ghost var hi := lo + CountType(types, EintGpio, n);
    while k > 0
      invariant 0 <= k <= n && layer.Valid()
      invariant hi == lo + CountType(types, EintGpio, k)
      invariant layer.domains == WithFresh(doms, lo, hi)
    {
      k := k - 1;
      RemoveBankDomain(d, layer, k, types, doms, lo);
      hi := lo + CountType(types, EintGpio, k);
    }
  }

  /** A bank's domain after a GPIO init loop that stopped at bank `stop`, handing out ids from `lo`. */
  function GpioDomainAfter(types: seq<EintType>, domainOk: seq<bool>, lo: nat, stop: nat, j: nat, before: Option<nat>)
    : Option<nat>
    requires j < |types| == |domainOk|
  {
    if types[j] != EintGpio || j > stop then before
    else if j < stop || domainOk[j] then Some(lo + CountType(types, EintGpio, j))
    else None
  }

  /** A bank's save area after a GPIO init loop that stopped at bank `stop`. */
  function GpioSaveAfter(types: seq<EintType>, domainOk: seq<bool>, stop: nat, j: nat, before: Option<GpioSave>)
    : Option<GpioSave>
    requires j < |types| == |domainOk|
  {
    if types[j] != EintGpio || j > stop then before
    else if j < stop then Some(ZeroSave)
    else if domainOk[j] then None
    else before
  }

  /** The error `exynos_eint_gpio_init` returns once its parent line is requested. */
  function GpioInitResult(types: seq<EintType>, domainOk: seq<bool>, stop: nat): int
    requires stop <= |types| == |domainOk|
  {
    if stop == |types| then 0 else if !domainOk[stop] then -ENXIO else -ENOMEM
  }

  /** A bank's domain once the GPIO banks before `i` are set up. */
  function GpioDomainSoFar(types: seq<EintType>, lo: nat, i: nat, j: nat, before: Option<nat>): Option<nat>
    requires j < |types|
  {
    if j < i && types[j] == EintGpio then Some(lo + CountType(types, EintGpio, j)) else before
  }

  /** A bank's save area once the GPIO banks before `i` are set up. */
  function GpioSaveSoFar(types: seq<EintType>, i: nat, j: nat, before: Option<GpioSave>): Option<GpioSave>
    requires j < |types|
  {
    if j < i && types[j] == EintGpio then Some(ZeroSave) else before
  }

  /** The fields of every bank once the GPIO banks before `i` are set up; `ods`, `oss` hold them from before. */
  ghost predicate GpioBanksSoFar(d: PinCtrl, types: seq<EintType>, lo: nat, i: nat,
                                 ods: seq<Option<nat>>, oss: seq<Option<GpioSave>>)
    reads d, d.banks
  {
    && |ods| == |d.banks| && |oss| == |d.banks| && |types| == |d.banks|
    && (forall j :: 0 <= j < |d.banks| ==> d.banks[j].irqDomain == GpioDomainSoFar(types, lo, i, j, ods[j]))
    && (forall j :: 0 <= j < |d.banks| ==> d.banks[j].socPriv == GpioSaveSoFar(types, i, j, oss[j]))
  }

  /**
   * One GPIO bank in the GPIO init loop: on success the banks before
   * `i + 1` are set up; on failure bank `i` holds what the failed
   * allocation left and the banks are as the whole routine leaves them.
   */
  method GpioInitBankStep(c: EintConsts, d: PinCtrl, layer: IrqLayer, i: nat, domainOk: seq<bool>, allocOk: seq<bool>,
                          ghost types: seq<EintType>, ghost lo: nat,
                          ghost ods: seq<Option<nat>>, ghost oss: seq<Option<GpioSave>>)
    returns (ret: int)
    requires d.Distinct() && i < |d.banks| == |domainOk| == |allocOk| && d.banks[i].eintType == EintGpio
    requires layer.Valid() && FltFitsWord(c, d.banks[i].desc)
    requires GpioBanksSoFar(d, types, lo, i, ods, oss) && types[i] == EintGpio
    requires layer.nextDomain == lo + CountType(types, EintGpio, i)
    modifies d`regs, layer`trace, layer`domains, layer`nextDomain, {d.banks[i]}`irqDomain, {d.banks[i]}`socPriv
    ensures layer.Valid()
    ensures ret == (if !domainOk[i] then -ENXIO else if !allocOk[i] then -ENOMEM else 0)
    ensures layer.nextDomain == old(layer.nextDomain) + (if domainOk[i] then 1 else 0)
    ensures layer.domains == if ret == 0 then old(layer.domains)[old(layer.nextDomain) := map[]] else old(layer.domains)
    ensures var ws := if ret == 0 then FltConfigWrites(c, old(d.regs), d.banks[i].desc, InitFlt(c)) else [];
      d.regs == ApplyWrites(old(d.regs), ws) && layer.trace == old(layer.trace) + WriteEvents(ws)
    ensures ret == 0 ==> GpioBanksSoFar(d, types, lo, i + 1, ods, oss)
    ensures ret != 0 ==> forall j :: 0 <= j < |d.banks| ==>
      && d.banks[j].irqDomain == GpioDomainAfter(types, domainOk, lo, i, j, ods[j])
      && d.banks[j].socPriv == GpioSaveAfter(types, domainOk, i, j, oss[j])
  {
    ret := InitGpioBank(c, d, layer, d.banks[i], domainOk[i], allocOk[i]);
  }

  /** The banks' domain fields, in table order. */
  ghost function BankDomains(banks: seq<PinBank>): (r: seq<Option<nat>>)
    reads banks
    ensures |r| == |banks| && forall j :: 0 <= j < |banks| ==> r[j] == banks[j].irqDomain
  {
    seq(|banks|, j requires 0 <= j < |banks| reads banks => banks[j].irqDomain)
  }

  /** The banks' save-area fields, in table order. */
  ghost function BankSaves(banks: seq<PinBank>): (r: seq<Option<GpioSave>>)
    reads banks
    ensures |r| == |banks| && forall j :: 0 <= j < |banks| ==> r[j] == banks[j].socPriv
  {
    seq(|banks|, j requires 0 <= j < |banks| reads banks => banks[j].socPriv)
  }

  /** A bank that is not a GPIO bank is skipped: nothing of it changes. */
  lemma GpioSkipBank(d: PinCtrl, types: seq<EintType>, lo: nat, i: nat,
                     ods: seq<Option<nat>>, oss: seq<Option<GpioSave>>)
    requires GpioBanksSoFar(d, types, lo, i, ods, oss) && i < |types| && types[i] != EintGpio
    ensures GpioBanksSoFar(d, types, lo, i + 1, ods, oss)
    ensures CountType(types, EintGpio, i + 1) == CountType(types, EintGpio, i)
  {
  }

  /** The writes of the first `i + 1` banks: those of the first `i`, then bank `i`'s if it has type `t`. */
  lemma FltWritesOfTypeStep(c: EintConsts, regs: RegFile, descs: seq<BankDesc>, types: seq<EintType>,
                            t: EintType, flt: Word, i: nat)
    requires i < |descs| == |types|
    requires forall j :: 0 <= j < |types| && types[j] == t ==> FltFitsWord(c, descs[j])
    ensures var prev := FltWritesOfType(c, regs, descs, types, t, flt, i);
      var mid := ApplyWrites(regs, prev);
      var ws := if types[i] == t then FltConfigWrites(c, mid, descs[i], flt) else [];
      && ApplyWrites(regs, FltWritesOfType(c, regs, descs, types, t, flt, i + 1)) == ApplyWrites(mid, ws)
      && WriteEvents(FltWritesOfType(c, regs, descs, types, t, flt, i + 1)) == WriteEvents(prev) + WriteEvents(ws)
  {
    var prev := FltWritesOfType(c, regs, descs, types, t, flt, i);
    var mid := ApplyWrites(regs, prev);
    var ws := if types[i] == t then FltConfigWrites(c, mid, descs[i], flt) else [];
    assert FltWritesOfType(c, regs, descs, types, t, flt, i + 1) == prev + ws;
    ApplyWritesAppend(regs, prev, ws);
    WriteEventsAppend(prev, ws);
  }

  /** What the GPIO init loop starts from: the bank table and the state once the parent line is requested. */
  datatype GpioStart = GpioStart(
    types: seq<EintType>, descs: seq<BankDesc>,
    lo: nat, doms: map<nat, map<nat, nat>>,        // the next domain id and the live domains
    regs: RegFile, trace: seq<Event>,
    ods: seq<Option<nat>>, oss: seq<Option<GpioSave>>)  // the banks' domain and save-area fields

  /** The inputs agree in length, every GPIO bank's filter fits a word, and live ids are below `lo`. */
  ghost predicate GpioStartOk(c: EintConsts, s: GpioStart, domainOk: seq<bool>, allocOk: seq<bool>)
  {
    && |s.descs| == |s.types| == |s.ods| == |s.oss| == |domainOk| == |allocOk|
    && (forall j :: 0 <= j < |s.types| && s.types[j] == EintGpio ==> FltFitsWord(c, s.descs[j]))
    && (forall id :: id in s.doms ==> id < s.lo)
  }

  /** The state once the banks before `i` have been through the GPIO init loop. */
  ghost predicate GpioLoopInv(c: EintConsts, d: PinCtrl, layer: IrqLayer, s: GpioStart, i: nat)
    reads d, d.banks, layer
  {
    && |s.descs| == |s.types| && (forall j :: 0 <= j < |s.types| && s.types[j] == EintGpio ==> FltFitsWord(c, s.descs[j]))
    && i <= |s.types| && |d.banks| == |s.types|
    && (forall j :: 0 <= j < |s.types| ==> d.banks[j].eintType == s.types[j] && d.banks[j].desc == s.descs[j])
    && layer.Valid() && layer.nextDomain == s.lo + CountType(s.types, EintGpio, i)
    && layer.domains == WithFresh(s.doms, s.lo, layer.nextDomain)
    && (var ws := FltWritesOfType(c, s.regs, s.descs, s.types, EintGpio, InitFlt(c), i);
        d.regs == ApplyWrites(s.regs, ws) && layer.trace == s.trace + WriteEvents(ws))
    && GpioBanksSoFar(d, s.types, s.lo, i, s.ods, s.oss)
  }

  /**
   * The state `exynos_eint_gpio_init` leaves once its parent line is
   * requested: the loop stopped at the first failing GPIO bank (or ran
   * through), the filters of the GPIO banks before it are programmed,
   * the banks' fields are set as far as the loop got, and the live
   * domains are the fresh ones added to those from before on success
   * and exactly those from before on failure.
   */
  ghost predicate GpioInitOutcome(c: EintConsts, d: PinCtrl, layer: IrqLayer, s: GpioStart,
                                  domainOk: seq<bool>, allocOk: seq<bool>, ret: int)
    reads d, d.banks, layer
  {
    && GpioStartOk(c, s, domainOk, allocOk)
    && var stop := GpioStop(s.types, domainOk, allocOk, 0);
    var ws := FltWritesOfType(c, s.regs, s.descs, s.types, EintGpio, InitFlt(c), stop);
    && ret == GpioInitResult(s.types, domainOk, stop)
    && layer.Valid()
    && d.regs == ApplyWrites(s.regs, ws) && layer.trace == s.trace + WriteEvents(ws)
    && (ret == 0 ==> layer.nextDomain == s.lo + CountType(s.types, EintGpio, |s.types|)
                     && layer.domains == WithFresh(s.doms, s.lo, layer.nextDomain))
    && (ret != 0 ==> layer.domains == s.doms)
    && |d.banks| == |s.types|
    && (forall j :: 0 <= j < |d.banks| ==>
          d.banks[j].irqDomain == GpioDomainAfter(s.types, domainOk, s.lo, stop, j, s.ods[j]))
    && (forall j :: 0 <= j < |d.banks| ==>
          d.banks[j].socPriv == GpioSaveAfter(s.types, domainOk, stop, j, s.oss[j]))
  }

  /**
   * A failed GPIO bank: the domains of the GPIO banks before it are
   * removed, so the routine's outcome is reached.
   */
  method GpioInitUnwind(c: EintConsts, d: PinCtrl, layer: IrqLayer, ghost s: GpioStart,
                        domainOk: seq<bool>, allocOk: seq<bool>, i: nat, ret: int)
    requires GpioStartOk(c, s, domainOk, allocOk) && i == GpioStop(s.types, domainOk, allocOk, 0) < |s.types|
    requires ret == (if !domainOk[i] then -ENXIO else -ENOMEM)
    requires |d.banks| == |s.types| && forall j :: 0 <= j < |s.types| ==> d.banks[j].eintType == s.types[j]
    requires layer.Valid() && layer.domains == WithFresh(s.doms, s.lo, s.lo + CountType(s.types, EintGpio, i))
    requires var ws := FltWritesOfType(c, s.regs, s.descs, s.types, EintGpio, InitFlt(c), i);
        d.regs == ApplyWrites(s.regs, ws) && layer.trace == s.trace + WriteEvents(ws)
    requires |d.banks| == |s.types| && forall j :: 0 <= j < |d.banks| ==>
      && d.banks[j].irqDomain == GpioDomainAfter(s.types, domainOk, s.lo, i, j, s.ods[j])
      && d.banks[j].socPriv == GpioSaveAfter(s.types, domainOk, i, j, s.oss[j])
    modifies layer`domains
    ensures GpioInitOutcome(c, d, layer, s, domainOk, allocOk, ret)
  {
    RemoveGpioDomains(d, layer, i, s.types, s.doms, s.lo);
  }

  /** A GPIO bank in the GPIO init loop: it is set up, or the routine ends with its outcome. */
  method GpioInitGpioStep(c: EintConsts, d: PinCtrl, layer: IrqLayer, ghost s: GpioStart,
                          domainOk: seq<bool>, allocOk: seq<bool>, i: nat)
    returns (ret: int)
    requires d.Distinct() && GpioStartOk(c, s, domainOk, allocOk)
    requires i < |s.types| && i <= GpioStop(s.types, domainOk, allocOk, 0) && s.types[i] == EintGpio
    requires GpioLoopInv(c, d, layer, s, i)
    modifies d`regs, layer`trace, layer`domains, layer`nextDomain, {d.banks[i]}`irqDomain, {d.banks[i]}`socPriv
    ensures ret == 0 ==> i + 1 <= GpioStop(s.types, domainOk, allocOk, 0) && GpioLoopInv(c, d, layer, s, i + 1)
    ensures ret != 0 ==> GpioInitOutcome(c, d, layer, s, domainOk, allocOk, ret)
  {
    ghost var regs0, trace0, doms0, next0 := d.regs, layer.trace, layer.domains, layer.nextDomain;
    ret := GpioInitBankStep(c, d, layer, i, domainOk, allocOk, s.types, s.lo, s.ods, s.oss);
    if ret != 0 {
      GpioInitUnwind(c, d, layer, s, domainOk, allocOk, i, ret);
    } else {
      GpioLoopAdvance(c, d, layer, s, i, regs0, trace0, doms0, next0);
    }
  }

  /** The state after a GPIO bank was set up, from the loop state before it, is the loop state after it. */
  lemma GpioLoopAdvance(c: EintConsts, d: PinCtrl, layer: IrqLayer, s: GpioStart, i: nat,
                        regs0: RegFile, trace0: seq<Event>, doms0: map<nat, map<nat, nat>>, next0: nat)
    requires |s.descs| == |s.types| && forall j :: 0 <= j < |s.types| && s.types[j] == EintGpio ==> FltFitsWord(c, s.descs[j])
    requires i < |s.types| && s.types[i] == EintGpio && |d.banks| == |s.types|
    requires forall j :: 0 <= j < |s.types| ==> d.banks[j].eintType == s.types[j] && d.banks[j].desc == s.descs[j]
    requires next0 == s.lo + CountType(s.types, EintGpio, i) && doms0 == WithFresh(s.doms, s.lo, next0)
    requires var ws := FltWritesOfType(c, s.regs, s.descs, s.types, EintGpio, InitFlt(c), i);
      regs0 == ApplyWrites(s.regs, ws) && trace0 == s.trace + WriteEvents(ws)
    requires layer.Valid() && layer.nextDomain == next0 + 1 && layer.domains == doms0[next0 := map[]]
    requires var ws := FltConfigWrites(c, regs0, s.descs[i], InitFlt(c));
      d.regs == ApplyWrites(regs0, ws) && layer.trace == trace0 + WriteEvents(ws)
    requires GpioBanksSoFar(d, s.types, s.lo, i + 1, s.ods, s.oss)
    ensures GpioLoopInv(c, d, layer, s, i + 1)
  {
    FltWritesOfTypeStep(c, s.regs, s.descs, s.types, EintGpio, InitFlt(c), i);
    assert CountType(s.types, EintGpio, i + 1) == CountType(s.types, EintGpio, i) + 1;
  }

  /** A bank that is not a GPIO bank is passed over by the GPIO init loop. */
  lemma GpioInitSkipStep(c: EintConsts, d: PinCtrl, layer: IrqLayer, s: GpioStart, i: nat)
    requires |s.descs| == |s.types| && forall j :: 0 <= j < |s.types| && s.types[j] == EintGpio ==> FltFitsWord(c, s.descs[j])
    requires i < |s.types| && s.types[i] != EintGpio
    requires GpioLoopInv(c, d, layer, s, i)
    ensures GpioLoopInv(c, d, layer, s, i + 1)
  {
    FltWritesOfTypeStep(c, s.regs, s.descs, s.types, EintGpio, InitFlt(c), i);
    GpioSkipBank(d, s.types, s.lo, i, s.ods, s.oss);
  }

  /** One iteration of the GPIO init loop: bank `i` is set up or passed over, or the routine ends. */
  method GpioInitStep(c: EintConsts, d: PinCtrl, layer: IrqLayer, ghost s: GpioStart,
                      domainOk: seq<bool>, allocOk: seq<bool>, i: nat)
    returns (ret: int)
    requires d.Distinct() && GpioStartOk(c, s, domainOk, allocOk)
    requires i < |s.types| && i <= GpioStop(s.types, domainOk, allocOk, 0)
    requires GpioLoopInv(c, d, layer, s, i)
    modifies d`regs, layer`trace, layer`domains, layer`nextDomain, {d.banks[i]}`irqDomain, {d.banks[i]}`socPriv
    ensures ret == 0 ==> i + 1 <= GpioStop(s.types, domainOk, allocOk, 0) && GpioLoopInv(c, d, layer, s, i + 1)
    ensures ret != 0 ==> GpioInitOutcome(c, d, layer, s, domainOk, allocOk, ret)
  {
    if d.banks[i].eintType == EintGpio {
      ret := GpioInitGpioStep(c, d, layer, s, domainOk, allocOk, i);
    } else {
      GpioInitSkipStep(c, d, layer, s, i);
      ret := 0;
    }
  }

  /** The GPIO init loop over the whole bank table, from the state once the parent line is requested. */
  method GpioInitLoop(c: EintConsts, d: PinCtrl, layer: IrqLayer, ghost s: GpioStart, domainOk: seq<bool>, allocOk: seq<bool>)
    returns (ret: int)
    requires d.Distinct() && GpioStartOk(c, s, domainOk, allocOk) && GpioLoopInv(c, d, layer, s, 0)
    modifies d`regs, layer`trace, layer`domains, layer`nextDomain
    modifies (set b | b in d.banks)`irqDomain, (set b | b in d.banks)`socPriv
    ensures GpioInitOutcome(c, d, layer, s, domainOk, allocOk, ret)
  {
    var i := 0;
    while i < |d.banks|
      invariant i <= GpioStop(s.types, domainOk, allocOk, 0)
      invariant GpioLoopInv(c, d, layer, s, i)
    {
      ret := GpioInitStep(c, d, layer, s, domainOk, allocOk, i);
      if ret != 0 {
        return;
      }
      i := i + 1;
    }
    GpioLoopDone(c, d, layer, s, domainOk, allocOk);
    ret := 0;
  }

  /** A loop that ran through every bank reaches the successful outcome. */
  lemma GpioLoopDone(c: EintConsts, d: PinCtrl, layer: IrqLayer, s: GpioStart, domainOk: seq<bool>, allocOk: seq<bool>)
    requires GpioStartOk(c, s, domainOk, allocOk) && GpioLoopInv(c, d, layer, s, |s.types|)
    requires |s.types| <= GpioStop(s.types, domainOk, allocOk, 0)
    ensures GpioInitOutcome(c, d, layer, s, domainOk, allocOk, 0)
  {
  }

  /**
   * `exynos_eint_gpio_init`. Without a parent line it fails with
   * -EINVAL and changes nothing; when requesting the line fails it fails
   * with -ENXIO and changes nothing. Otherwise every GPIO bank, in
   * order, gets a fresh linear domain, a zeroed save area and its filter
   * programmed, until a domain or a save area cannot be allocated; then
   * the domains of the earlier GPIO banks are removed again and the
   * error is returned (`GpioInitOutcome`).
   */
  method EintGpioInit(c: EintConsts, d: PinCtrl, layer: IrqLayer, requestOk: bool, domainOk: seq<bool>, allocOk: seq<bool>)
    returns (ret: int)
    requires layer.Valid() && d.Distinct()
    requires |domainOk| == |d.banks| && |allocOk| == |d.banks|
    requires forall j :: 0 <= j < |d.banks| && d.banks[j].eintType == EintGpio ==> FltFitsWord(c, d.banks[j].desc)
    modifies d`regs, layer`trace, layer`domains, layer`nextDomain
    modifies (set b | b in d.banks)`irqDomain, (set b | b in d.banks)`socPriv
    ensures layer.Valid()
    ensures d.irq == 0 ==> ret == -EINVAL
    ensures d.irq != 0 && !requestOk ==> ret == -ENXIO
    ensures d.irq == 0 || !requestOk ==>
      && d.regs == old(d.regs) && layer.trace == old(layer.trace) && layer.domains == old(layer.domains)
      && BankDomains(d.banks) == old(BankDomains(d.banks)) && BankSaves(d.banks) == old(BankSaves(d.banks))
    ensures d.irq != 0 && requestOk ==>
      var s := GpioStart(old(d.Types()), d.Descs(), old(layer.nextDomain), old(layer.domains),
                         old(d.regs), old(layer.trace) + [RequestIrq(d.irq)],
                         old(BankDomains(d.banks)), old(BankSaves(d.banks)));
      GpioStartOk(c, s, domainOk, allocOk) && GpioInitOutcome(c, d, layer, s, domainOk, allocOk, ret)
  {
    if d.irq == 0 {
      return -EINVAL;
    }
    if !requestOk {
      return -ENXIO;
    }
    layer.Emit(RequestIrq(d.irq));
    ghost var s := GpioStart(d.Types(), d.Descs(), layer.nextDomain, layer.domains,
                             d.regs, layer.trace, BankDomains(d.banks), BankSaves(d.banks));
    assert GpioLoopInv(c, d, layer, s, 0);
    ret := GpioInitLoop(c, d, layer, s, domainOk, allocOk);
  }
}
