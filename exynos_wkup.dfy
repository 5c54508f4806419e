/**
 * `exynos_eint_wkup_init`: probe-time setup of the wake-up EINT
 * controller. Every wake-up bank gets its digital filter programmed and
 * a linear IRQ domain; a bank whose device-tree node has its own parent
 * lines gets the `eint0_15` chained handler on each of them, and a bank
 * without them is retyped to a muxed wake-up bank, served by one shared
 * parent line whose chained handler is the muxed demultiplexer.
 *
 * The bank loop is specified in two parts: a fold (`WkupCtlLoop`) over
 * the control state it changes (domains, the banks' fields, the muxed
 * counter, the error), and the registers and trace it leaves, which
 * follow from that fold. Lemmas state what the fold computes in closed
 * form.
 */
module ExynosWkup {
  import opened Optional
  import opened ExynosRegs
  import opened ExynosModel
  import opened ExynosFilter
  import opened ExynosInit

  /** What the device tree holds and what the kernel may refuse. */
  datatype WkupOracles = WkupOracles(
    nodePresent: bool,          // a child node matches the wake-up controller ids
    domainOk: seq<bool>,        // irq_domain_add_linear succeeds for bank i
    weintOk: seq<bool>,         // the per-pin handler data of bank i can be allocated
    pinIrqs: seq<seq<nat>>,     // irq_of_parse_and_map(bank i, pin); 0 when the line is missing
    muxedIrq: nat,              // irq_of_parse_and_map(wake-up node, 0)
    muxedAllocOk: bool)         // the muxed handler data can be allocated

  /** One answer per bank, and one parent line per pin of a bank. */
  predicate OraclesFit(o: WkupOracles, descs: seq<BankDesc>)
  {
    && |o.domainOk| == |descs| && |o.weintOk| == |descs| && |o.pinIrqs| == |descs|
    && forall j :: 0 <= j < |descs| ==> |o.pinIrqs[j]| == descs[j].nrPins
  }

  /** The filter of every wake-up bank fits in one register. */
  predicate WkupFits(c: EintConsts, descs: seq<BankDesc>, types0: seq<EintType>)
  {
    |descs| == |types0| && forall j :: 0 <= j < |types0| && types0[j] == EintWkup ==> FltFitsWord(c, descs[j])
  }

  /** The control state the bank loop changes, as a value. */
  datatype WkupCtl = WkupCtl(
    domains: map<nat, map<nat, nat>>, next: nat,   // the live domains and the next id
    ods: seq<Option<nat>>,                         // the banks' irq_domain fields
    mux: set<nat>,                                 // the banks retyped to WKUP_MUX so far
    muxed: nat,                                    // the muxed_banks counter
    ret: int)

  /** The type of bank `j` once the banks in `mux` have been retyped. */
  function CurType(types0: seq<EintType>, mux: set<nat>, j: nat): EintType
    requires j < |types0|
  {
    if j in mux then EintWkupMux else types0[j]
  }

  /** One iteration of the bank loop, for bank `i`, on the control state. */
  function WkupCtlStep(descs: seq<BankDesc>, types0: seq<EintType>, o: WkupOracles, st: WkupCtl, i: nat): WkupCtl
    requires |types0| == |descs| && OraclesFit(o, descs) && i < |descs| && |st.ods| == |descs|
  {
    if CurType(types0, st.mux, i) != EintWkup then st
    else if !o.domainOk[i] then st.(ods := st.ods[i := None], ret := -ENXIO)
    else
      var added := st.(domains := st.domains[st.next := map[]], next := st.next + 1, ods := st.ods[i := Some(st.next)]);
      if !descs[i].hasInterrupts then added.(mux := st.mux + {i}, muxed := st.muxed + 1)
      else if !o.weintOk[i] then added.(ret := -ENOMEM)
      else added
  }

  /** The control state after the bank loop has looked at the first `n` banks; an error stops it. */
  function WkupCtlLoop(descs: seq<BankDesc>, types0: seq<EintType>, o: WkupOracles, st0: WkupCtl, n: nat): (r: WkupCtl)
    requires |types0| == |descs| && OraclesFit(o, descs) && n <= |descs| && |st0.ods| == |descs|
    ensures |r.ods| == |descs|
  {
    if n == 0 then st0
    else
      var st := WkupCtlLoop(descs, types0, o, st0, n - 1);
      if st.ret != 0 then st else WkupCtlStep(descs, types0, o, st, n - 1)
  }

  /** The chained handlers set for the first `n` pins of a bank with its own parent lines. */
  function PinHandlerEvents(bank: PinBank, irqs: seq<nat>, n: nat): seq<Event>
    requires n <= |irqs|
  {
    if n == 0 then []
    else PinHandlerEvents(bank, irqs, n - 1) + (if irqs[n - 1] == 0 then [] else [SetChainedEint0To15(irqs[n - 1], bank, n - 1)])
  }

  /** What bank `i`'s iteration emits, from registers `regs`: its filter writes, then its pins' handlers. */
  function WkupBankTrace(c: EintConsts, banks: seq<PinBank>, descs: seq<BankDesc>, types0: seq<EintType>,
                         o: WkupOracles, regs: RegFile, st: WkupCtl, i: nat): seq<Event>
    requires WkupFits(c, descs, types0) && OraclesFit(o, descs) && |banks| == |descs| && i < |descs|
  {
    if CurType(types0, st.mux, i) != EintWkup then []
    else
      WriteEvents(FltConfigWrites(c, regs, descs[i], InitFlt(c)))
      + (if o.domainOk[i] && descs[i].hasInterrupts && o.weintOk[i]
         then PinHandlerEvents(banks[i], o.pinIrqs[i], |o.pinIrqs[i]|) else [])
  }

  /** The filter writes of the first `n` banks' iterations: those of the wake-up banks among them. */
  function WkupFltWrites(c: EintConsts, regs0: RegFile, descs: seq<BankDesc>, types0: seq<EintType>, n: nat): Writes
    requires WkupFits(c, descs, types0) && n <= |descs|
  {
    FltWritesOfType(c, regs0, descs, types0, EintWkup, InitFlt(c), n)
  }

  /** What the bank loop emits over the first `n` banks; an error stops it. */
  function WkupTraceLoop(c: EintConsts, banks: seq<PinBank>, descs: seq<BankDesc>, types0: seq<EintType>,
                         o: WkupOracles, regs0: RegFile, st0: WkupCtl, n: nat): seq<Event>
    requires WkupFits(c, descs, types0) && OraclesFit(o, descs) && |banks| == |descs|
    requires n <= |descs| && |st0.ods| == |descs|
  {
    if n == 0 then []
    else
      var st := WkupCtlLoop(descs, types0, o, st0, n - 1);
      if st.ret != 0 then WkupTraceLoop(c, banks, descs, types0, o, regs0, st0, n - 1)
      else
        WkupTraceLoop(c, banks, descs, types0, o, regs0, st0, n - 1)
        + WkupBankTrace(c, banks, descs, types0, o, ApplyWrites(regs0, WkupFltWrites(c, regs0, descs, types0, n - 1)), st, n - 1)
  }

  /** Bank `j`'s iteration, for a wake-up bank, does not fail. */
  predicate WkupBankOk(descs: seq<BankDesc>, o: WkupOracles, j: nat)
    requires OraclesFit(o, descs) && j < |descs|
  {
    o.domainOk[j] && (!descs[j].hasInterrupts || o.weintOk[j])
  }

  /** The first wake-up bank from `k` on whose iteration fails, or the table size when none does. */
  function WkupStop(descs: seq<BankDesc>, types0: seq<EintType>, o: WkupOracles, k: nat): (f: nat)
    requires |types0| == |descs| && OraclesFit(o, descs) && k <= |descs|
    ensures k <= f <= |descs|
    ensures forall j :: k <= j < f && types0[j] == EintWkup ==> WkupBankOk(descs, o, j)
    ensures f < |descs| ==> types0[f] == EintWkup && !WkupBankOk(descs, o, f)
    decreases |descs| - k
  {
    if k == |descs| then k
    else if types0[k] == EintWkup && !WkupBankOk(descs, o, k) then k
    else WkupStop(descs, types0, o, k + 1)
  }

  /** How many of the first `n` banks the loop entered: all of them, or up to the failing one. */
  function WkupEntered(descs: seq<BankDesc>, types0: seq<EintType>, o: WkupOracles, n: nat): nat
    requires |types0| == |descs| && OraclesFit(o, descs) && n <= |descs|
  {
    var stop := WkupStop(descs, types0, o, 0);
    if n <= stop then n else stop + 1
  }

  /** Bank `j` is a wake-up bank without parent lines of its own. */
  predicate Converts(descs: seq<BankDesc>, types0: seq<EintType>, j: nat)
    requires j < |descs| == |types0|
  {
    types0[j] == EintWkup && !descs[j].hasInterrupts
  }

  /** How many of the first `n` banks are wake-up banks without parent lines of their own. */
  function CountConverts(descs: seq<BankDesc>, types0: seq<EintType>, n: nat): (r: nat)
    requires n <= |descs| == |types0|
    ensures r <= n
  {
    if n == 0 then 0 else CountConverts(descs, types0, n - 1) + (if Converts(descs, types0, n - 1) then 1 else 0)
  }

  /** The error the bank loop returns when bank `stop` fails. */
  function WkupErr(o: WkupOracles, descs: seq<BankDesc>, stop: nat): int
    requires OraclesFit(o, descs) && stop < |descs|
  {
    if !o.domainOk[stop] then -ENXIO else -ENOMEM
  }

  /** The control state the routine starts from: no error, nothing retyped, no muxed bank counted. */
  predicate WkupFresh(st0: WkupCtl)
  {
    st0.ret == 0 && st0.mux == {} && st0.muxed == 0
  }

  /**
   * After `n` banks, the loop has failed exactly when it reached the
   * first failing wake-up bank, with -ENXIO when its domain could not be
   * added and -ENOMEM otherwise; the banks retyped to WKUP_MUX are the
   * wake-up banks without parent lines before the stopping point, and
   * `muxed_banks` counts them.
   */
  lemma {:induction false} WkupLoopMux(descs: seq<BankDesc>, types0: seq<EintType>, o: WkupOracles, st0: WkupCtl, n: nat)
    requires |types0| == |descs| && OraclesFit(o, descs) && |st0.ods| == |descs|
    requires n <= |descs| && WkupFresh(st0)
    ensures var r := WkupCtlLoop(descs, types0, o, st0, n);
      var stop := WkupStop(descs, types0, o, 0);
      var k := if n < stop then n else stop;
      && r.ret == (if n <= stop then 0 else WkupErr(o, descs, stop))
      && (forall j :: j in r.mux ==> j < k)
      && (forall j :: 0 <= j < |descs| ==> (j in r.mux <==> j < k && Converts(descs, types0, j)))
      && r.muxed == CountConverts(descs, types0, k)
  {
    if n > 0 {
      WkupLoopMux(descs, types0, o, st0, n - 1);
      var prev := WkupCtlLoop(descs, types0, o, st0, n - 1);
      var stop := WkupStop(descs, types0, o, 0);
      if prev.ret == 0 {
        assert n - 1 !in prev.mux;
        if n - 1 < stop && types0[n - 1] == EintWkup {
          assert WkupBankOk(descs, o, n - 1);
        }
      }
    }
  }

  /** After `n` banks the loop has failed exactly when it got past the first failing wake-up bank. */
  lemma WkupLoopRet(descs: seq<BankDesc>, types0: seq<EintType>, o: WkupOracles, st0: WkupCtl, n: nat)
    requires |types0| == |descs| && OraclesFit(o, descs) && |st0.ods| == |descs| && n <= |descs| && WkupFresh(st0)
    ensures var stop := WkupStop(descs, types0, o, 0);
      WkupCtlLoop(descs, types0, o, st0, n).ret == (if n <= stop then 0 else WkupErr(o, descs, stop))
  {
    WkupLoopMux(descs, types0, o, st0, n);
  }

  /**
   * Every wake-up bank whose domain was added took the next id: after
   * `n` banks the counter has advanced by one per wake-up bank before
   * the stopping point, and by one more when the failing bank's domain
   * was added.
   */
  lemma {:induction false} WkupLoopNext(descs: seq<BankDesc>, types0: seq<EintType>, o: WkupOracles, st0: WkupCtl, n: nat)
    requires |types0| == |descs| && OraclesFit(o, descs) && |st0.ods| == |descs|
    requires n <= |descs| && WkupFresh(st0)
    ensures var stop := WkupStop(descs, types0, o, 0);
      WkupCtlLoop(descs, types0, o, st0, n).next
        == st0.next + CountType(types0, EintWkup, if n < stop then n else stop)
           + (if n > stop && o.domainOk[stop] then 1 else 0)
  {
    if n > 0 {
      WkupLoopNext(descs, types0, o, st0, n - 1);
      WkupNotYetMux(descs, types0, o, st0, n - 1);
      WkupLoopRet(descs, types0, o, st0, n - 1);
    }
  }

  /** The live domains are the old ones and one fresh, empty domain per id the loop handed out. */
  lemma {:induction false} WkupLoopDomains(descs: seq<BankDesc>, types0: seq<EintType>, o: WkupOracles, st0: WkupCtl, n: nat)
    requires |types0| == |descs| && OraclesFit(o, descs) && |st0.ods| == |descs| && n <= |descs|
    ensures var r := WkupCtlLoop(descs, types0, o, st0, n);
      st0.next <= r.next && r.domains == WithFresh(st0.domains, st0.next, r.next)
  {
    if n > 0 {
      WkupLoopDomains(descs, types0, o, st0, n - 1);
    }
  }

  /** The domain field of bank `j` after the loop has looked at the first `n` banks. */
  function WkupOdAfter(descs: seq<BankDesc>, types0: seq<EintType>, o: WkupOracles, st0: WkupCtl, n: nat, j: nat)
    : Option<nat>
    requires |types0| == |descs| && OraclesFit(o, descs) && |st0.ods| == |descs| && n <= |descs| && j < |descs|
  {
    if types0[j] == EintWkup && j < WkupEntered(descs, types0, o, n) then
      (if o.domainOk[j] then Some(st0.next + CountType(types0, EintWkup, j)) else None)
    else st0.ods[j]
  }

  /**
   * Every wake-up bank the loop entered holds its fresh domain, numbered
   * in bank order from the first free id, or none when adding it failed;
   * every other bank keeps its domain field.
   */
  lemma {:induction false} WkupLoopOd(descs: seq<BankDesc>, types0: seq<EintType>, o: WkupOracles, st0: WkupCtl, n: nat, j: nat)
    requires |types0| == |descs| && OraclesFit(o, descs) && |st0.ods| == |descs|
    requires n <= |descs| && j < |descs| && WkupFresh(st0)
    ensures WkupCtlLoop(descs, types0, o, st0, n).ods[j] == WkupOdAfter(descs, types0, o, st0, n, j)
  {
    if n > 0 {
      WkupLoopOd(descs, types0, o, st0, n - 1, j);
      WkupLoopRet(descs, types0, o, st0, n - 1);
      var prev := WkupCtlLoop(descs, types0, o, st0, n - 1);
      if prev.ret == 0 {
        WkupNotYetMux(descs, types0, o, st0, n - 1);
        if j == n - 1 && types0[j] == EintWkup && o.domainOk[j] {
          WkupLoopNext(descs, types0, o, st0, n - 1);
        }
      }
    }
  }

  /** Once an iteration fails, neither the control state nor the trace changes any more. */
  lemma {:induction false} WkupLoopSticky(c: EintConsts, banks: seq<PinBank>, descs: seq<BankDesc>, types0: seq<EintType>,
                                          o: WkupOracles, regs0: RegFile, st0: WkupCtl, k: nat, n: nat)
    requires WkupFits(c, descs, types0) && OraclesFit(o, descs) && |banks| == |descs| && |st0.ods| == |descs|
    requires k <= n <= |descs| && WkupCtlLoop(descs, types0, o, st0, k).ret != 0
    ensures WkupCtlLoop(descs, types0, o, st0, n) == WkupCtlLoop(descs, types0, o, st0, k)
    ensures WkupTraceLoop(c, banks, descs, types0, o, regs0, st0, n) == WkupTraceLoop(c, banks, descs, types0, o, regs0, st0, k)
    decreases n
  {
    if n > k {
      WkupLoopSticky(c, banks, descs, types0, o, regs0, st0, k, n - 1);
    }
  }

  /** The banks among the first `n` that are muxed wake-up banks, in table order. */
  function MuxBanks(banks: seq<PinBank>, types0: seq<EintType>, mux: set<nat>, n: nat): seq<PinBank>
    requires n <= |banks| == |types0|
  {
    if n == 0 then []
    else MuxBanks(banks, types0, mux, n - 1) + (if CurType(types0, mux, n - 1) == EintWkupMux then [banks[n - 1]] else [])
  }

  /** With no bank muxed on entry, the muxed group lists one bank per retyped bank. */
  lemma {:induction false} MuxBanksCount(banks: seq<PinBank>, descs: seq<BankDesc>, types0: seq<EintType>,
                                         mux: set<nat>, k: nat, n: nat)
    requires n <= |banks| == |descs| == |types0| && k <= |descs|
    requires forall j :: 0 <= j < |types0| ==> types0[j] != EintWkupMux
    requires forall j :: 0 <= j < |descs| ==> (j in mux <==> j < k && Converts(descs, types0, j))
    ensures |MuxBanks(banks, types0, mux, n)| == CountConverts(descs, types0, if n < k then n else k)
  {
    if n > 0 {
      MuxBanksCount(banks, descs, types0, mux, k, n - 1);
    }
  }

  /** After the bank loop: the error the routine returns. */
  function WkupFinishRet(o: WkupOracles, st: WkupCtl): int
  {
    if st.ret != 0 || st.muxed == 0 || o.muxedIrq == 0 then st.ret
    else if !o.muxedAllocOk then -ENOMEM
    else 0
  }

  /** After the bank loop: the shared parent line of the muxed banks gets the muxed demultiplexer, if there are any. */
  function WkupFinishEvents(banks: seq<PinBank>, types0: seq<EintType>, o: WkupOracles, st: WkupCtl): seq<Event>
    requires |banks| == |types0|
  {
    if st.ret != 0 || st.muxed == 0 || o.muxedIrq == 0 || !o.muxedAllocOk then []
    else [SetChainedDemux16To31(o.muxedIrq, MuxBanks(banks, types0, st.mux, |banks|))]
  }

  /**
   * When the routine sets the muxed demultiplexer, its group holds
   * exactly `muxed_banks` banks and a bank is in it exactly when it is a
   * wake-up bank without parent lines of its own, so the handler data
   * sized for `muxed_banks` entries is filled and not overrun, provided
   * no bank was muxed on entry.
   */
  lemma WkupMuxedGroup(banks: seq<PinBank>, descs: seq<BankDesc>, types0: seq<EintType>, o: WkupOracles, st0: WkupCtl)
    requires |types0| == |descs| && OraclesFit(o, descs) && |banks| == |descs| && |st0.ods| == |descs|
    requires WkupFresh(st0) && forall j :: 0 <= j < |types0| ==> types0[j] != EintWkupMux
    ensures var r := WkupCtlLoop(descs, types0, o, st0, |banks|);
      && (r.ret == 0 ==> |MuxBanks(banks, types0, r.mux, |banks|)| == r.muxed)
      && (r.ret == 0 ==> forall j :: 0 <= j < |banks| ==> (CurType(types0, r.mux, j) == EintWkupMux <==> Converts(descs, types0, j)))
  {
    var r := WkupCtlLoop(descs, types0, o, st0, |banks|);
    WkupLoopMux(descs, types0, o, st0, |banks|);
    var stop := WkupStop(descs, types0, o, 0);
    if r.ret == 0 {
      MuxBanksCount(banks, descs, types0, r.mux, stop, |banks|);
    }
  }

  /** The controller and the IRQ layer hold the control state `st`. */
  ghost predicate WkupMirrors(d: PinCtrl, layer: IrqLayer, types0: seq<EintType>, st: WkupCtl)
    reads d.banks, layer`domains, layer`nextDomain
  {
    && layer.domains == st.domains && layer.nextDomain == st.next
    && |d.banks| == |types0| && |st.ods| == |types0|
    && (forall j :: 0 <= j < |d.banks| ==> d.banks[j].eintType == CurType(types0, st.mux, j))
    && (forall j :: 0 <= j < |d.banks| ==> d.banks[j].irqDomain == st.ods[j])
  }

  /** The per-pin loop: every pin with a parent line gets the `eint0_15` chained handler. */
  method SetPinHandlers(layer: IrqLayer, bank: PinBank, irqs: seq<nat>)
    requires |irqs| == bank.desc.nrPins
    modifies layer`trace
    ensures layer.trace == old(layer.trace) + PinHandlerEvents(bank, irqs, |irqs|)
  {
    var idx := 0;
    while idx < bank.desc.nrPins
      invariant idx <= |irqs|
      invariant layer.trace == old(layer.trace) + PinHandlerEvents(bank, irqs, idx)
    {
      var irq := irqs[idx];
      if irq != 0 {
        layer.Emit(SetChainedEint0To15(irq, bank, idx));
      }
      idx := idx + 1;
    }
  }

  /**
   * The domain part of a wake-up bank's iteration: add its linear domain,
   * then either retype it to a muxed bank or set its pins' handlers.
   */
  method WkupBankDomain(d: PinCtrl, layer: IrqLayer, o: WkupOracles,
                        ghost types0: seq<EintType>, ghost st: WkupCtl, i: nat, muxed: nat)
    returns (ret: int, muxedOut: nat)
    requires d.Distinct() && OraclesFit(o, d.Descs()) && i < |d.banks|
    requires layer.Valid() && WkupMirrors(d, layer, types0, st) && st.muxed == muxed && st.ret == 0
    requires CurType(types0, st.mux, i) == EintWkup
    modifies layer`trace, layer`domains, layer`nextDomain, {d.banks[i]}`irqDomain, {d.banks[i]}`eintType
    ensures layer.Valid()
    ensures var st' := WkupCtlStep(d.Descs(), types0, o, st, i);
      WkupMirrors(d, layer, types0, st') && ret == st'.ret && muxedOut == st'.muxed
    ensures layer.trace == old(layer.trace)
      + (if o.domainOk[i] && d.banks[i].desc.hasInterrupts && o.weintOk[i]
         then PinHandlerEvents(d.banks[i], o.pinIrqs[i], |o.pinIrqs[i]|) else [])
  {
    var bank := d.banks[i];
    muxedOut := muxed;
    var id := layer.AddLinear(o.domainOk[i]);
    bank.irqDomain := id;
    if id.None? {
      return -ENXIO, muxedOut;
    }
    if !bank.desc.hasInterrupts {
      bank.eintType := EintWkupMux;
      return 0, muxedOut + 1;
    }
    if !o.weintOk[i] {
      return -ENOMEM, muxedOut;
    }
    SetPinHandlers(layer, bank, o.pinIrqs[i]);
    ret := 0;
  }

  /** One iteration of the bank loop: the control state becomes `WkupCtlStep`'s. */
  method WkupInitBank(c: EintConsts, d: PinCtrl, layer: IrqLayer, o: WkupOracles,
                      ghost types0: seq<EintType>, ghost st: WkupCtl, i: nat, muxed: nat)
    returns (ret: int, muxedOut: nat)
    requires d.Distinct() && WkupFits(c, d.Descs(), types0) && OraclesFit(o, d.Descs()) && i < |d.banks|
    requires layer.Valid() && WkupMirrors(d, layer, types0, st) && st.muxed == muxed && st.ret == 0
    modifies d`regs, layer`trace, layer`domains, layer`nextDomain, {d.banks[i]}`irqDomain, {d.banks[i]}`eintType
    ensures layer.Valid()
    ensures var st' := WkupCtlStep(d.Descs(), types0, o, st, i);
      WkupMirrors(d, layer, types0, st') && ret == st'.ret && muxedOut == st'.muxed
    ensures var ws := if CurType(types0, st.mux, i) == EintWkup then FltConfigWrites(c, old(d.regs), d.banks[i].desc, InitFlt(c)) else [];
      d.regs == ApplyWrites(old(d.regs), ws)
    ensures layer.trace == old(layer.trace) + WkupBankTrace(c, d.banks, d.Descs(), types0, o, old(d.regs), st, i)
  {
    var bank := d.banks[i];
    if bank.eintType != EintWkup {
      return 0, muxed;
    }
    FltConfig(c, d, layer, true, true, Zero, bank);
    ret, muxedOut := WkupBankDomain(d, layer, o, types0, st, i, muxed);
  }

  /** The state the bank loop keeps while no iteration has failed, after `i` banks. */
  ghost predicate WkupLoopInv(c: EintConsts, d: PinCtrl, layer: IrqLayer, o: WkupOracles, types0: seq<EintType>,
                              regs0: RegFile, trace0: seq<Event>, st0: WkupCtl, i: nat)
    reads d, d.banks, layer
  {
    && WkupFits(c, d.Descs(), types0) && OraclesFit(o, d.Descs()) && |st0.ods| == |d.banks| && i <= |d.banks|
    && var st := WkupCtlLoop(d.Descs(), types0, o, st0, i);
    && st.ret == 0 && WkupMirrors(d, layer, types0, st) && layer.Valid()
    && d.regs == ApplyWrites(regs0, WkupFltWrites(c, regs0, d.Descs(), types0, i))
    && layer.trace == trace0 + WkupTraceLoop(c, d.banks, d.Descs(), types0, o, regs0, st0, i)
  }

  /** The state the bank loop leaves: that of the banks it entered. */
  ghost predicate WkupLoopOutcome(c: EintConsts, d: PinCtrl, layer: IrqLayer, o: WkupOracles, types0: seq<EintType>,
                                  regs0: RegFile, trace0: seq<Event>, st0: WkupCtl, ret: int, muxed: nat)
    reads d, d.banks, layer
  {
    && WkupFits(c, d.Descs(), types0) && OraclesFit(o, d.Descs()) && |st0.ods| == |d.banks|
    && var st := WkupCtlLoop(d.Descs(), types0, o, st0, |d.banks|);
    && ret == st.ret && muxed == st.muxed && WkupMirrors(d, layer, types0, st) && layer.Valid()
    && d.regs == ApplyWrites(regs0, WkupFltWrites(c, regs0, d.Descs(), types0, WkupEntered(d.Descs(), types0, o, |d.banks|)))
    && layer.trace == trace0 + WkupTraceLoop(c, d.banks, d.Descs(), types0, o, regs0, st0, |d.banks|)
  }

  /** While no iteration has failed, bank `i` is not yet retyped when the loop reaches it. */
  lemma WkupNotYetMux(descs: seq<BankDesc>, types0: seq<EintType>, o: WkupOracles, st0: WkupCtl, i: nat)
    requires |types0| == |descs| && OraclesFit(o, descs) && |st0.ods| == |descs| && i <= |descs| && WkupFresh(st0)
    ensures i !in WkupCtlLoop(descs, types0, o, st0, i).mux
  {
    WkupLoopMux(descs, types0, o, st0, i);
  }

  /** The loop entered every bank up to and including the first one that failed. */
  lemma WkupEnteredAt(descs: seq<BankDesc>, types0: seq<EintType>, o: WkupOracles, st0: WkupCtl, n: nat)
    requires |types0| == |descs| && OraclesFit(o, descs) && |st0.ods| == |descs| && n <= |descs| && WkupFresh(st0)
    requires WkupCtlLoop(descs, types0, o, st0, n).ret == 0 ==> n == |descs|
    requires WkupCtlLoop(descs, types0, o, st0, n).ret != 0 ==> 0 < n && WkupCtlLoop(descs, types0, o, st0, n - 1).ret == 0
    ensures WkupEntered(descs, types0, o, |descs|) == n
  {
    WkupLoopMux(descs, types0, o, st0, n);
    if WkupCtlLoop(descs, types0, o, st0, n).ret != 0 {
      WkupLoopMux(descs, types0, o, st0, n - 1);
    }
  }

  /** The filter writes of bank `i`'s iteration extend those of the first `i` banks. */
  lemma WkupRegsStep(c: EintConsts, regs0: RegFile, descs: seq<BankDesc>, types0: seq<EintType>, mux: set<nat>,
                     i: nat, regsI: RegFile, regsN: RegFile)
    requires WkupFits(c, descs, types0) && i < |descs| && i !in mux
    requires regsI == ApplyWrites(regs0, WkupFltWrites(c, regs0, descs, types0, i))
    requires regsN == ApplyWrites(regsI, if CurType(types0, mux, i) == EintWkup then FltConfigWrites(c, regsI, descs[i], InitFlt(c)) else [])
    ensures regsN == ApplyWrites(regs0, WkupFltWrites(c, regs0, descs, types0, i + 1))
  {
    FltWritesOfTypeStep(c, regs0, descs, types0, EintWkup, InitFlt(c), i);
  }

  /** The events of bank `i`'s iteration follow those of the first `i` banks, when none of them failed. */
  lemma WkupTraceUnfold(c: EintConsts, banks: seq<PinBank>, descs: seq<BankDesc>, types0: seq<EintType>,
                        o: WkupOracles, regs0: RegFile, st0: WkupCtl, i: nat)
    requires WkupFits(c, descs, types0) && OraclesFit(o, descs) && |banks| == |descs| && |st0.ods| == |descs| && i < |descs|
    requires WkupCtlLoop(descs, types0, o, st0, i).ret == 0
    ensures WkupTraceLoop(c, banks, descs, types0, o, regs0, st0, i + 1)
         == WkupTraceLoop(c, banks, descs, types0, o, regs0, st0, i)
            + WkupBankTrace(c, banks, descs, types0, o, ApplyWrites(regs0, WkupFltWrites(c, regs0, descs, types0, i)),
                            WkupCtlLoop(descs, types0, o, st0, i), i)
  {
  }

  /** A trace that held the first `i` banks' events and then got bank `i`'s holds the first `i + 1` banks' events. */
  lemma WkupTraceStep(c: EintConsts, banks: seq<PinBank>, descs: seq<BankDesc>, types0: seq<EintType>,
                      o: WkupOracles, regs0: RegFile, trace0: seq<Event>, st0: WkupCtl, i: nat,
                      traceI: seq<Event>, bt: seq<Event>)
    requires WkupFits(c, descs, types0) && OraclesFit(o, descs) && |banks| == |descs| && |st0.ods| == |descs| && i < |descs|
    requires WkupCtlLoop(descs, types0, o, st0, i).ret == 0
    requires traceI == trace0 + WkupTraceLoop(c, banks, descs, types0, o, regs0, st0, i)
    requires bt == WkupBankTrace(c, banks, descs, types0, o, ApplyWrites(regs0, WkupFltWrites(c, regs0, descs, types0, i)),
                                 WkupCtlLoop(descs, types0, o, st0, i), i)
    ensures traceI + bt == trace0 + WkupTraceLoop(c, banks, descs, types0, o, regs0, st0, i + 1)
  {
    WkupTraceUnfold(c, banks, descs, types0, o, regs0, st0, i);
    var prev := WkupTraceLoop(c, banks, descs, types0, o, regs0, st0, i);
    assert traceI + bt == trace0 + (prev + bt);
  }

  /** One iteration of the bank loop, from the loop state after `i` banks. */
  method WkupInitIter(c: EintConsts, d: PinCtrl, layer: IrqLayer, o: WkupOracles, ghost types0: seq<EintType>,
                      ghost regs0: RegFile, ghost trace0: seq<Event>, ghost st0: WkupCtl, i: nat, muxed: nat)
    returns (ret: int, muxedOut: nat)
    requires d.Distinct() && WkupFresh(st0) && i < |d.banks|
    requires WkupLoopInv(c, d, layer, o, types0, regs0, trace0, st0, i)
    requires muxed == WkupCtlLoop(d.Descs(), types0, o, st0, i).muxed
    modifies d`regs, layer`trace, layer`domains, layer`nextDomain, {d.banks[i]}`irqDomain, {d.banks[i]}`eintType
    ensures ret == 0 ==> WkupLoopInv(c, d, layer, o, types0, regs0, trace0, st0, i + 1)
                         && muxedOut == WkupCtlLoop(d.Descs(), types0, o, st0, i + 1).muxed
    ensures ret != 0 ==> WkupLoopOutcome(c, d, layer, o, types0, regs0, trace0, st0, ret, muxedOut)
  {
    ghost var descs := d.Descs();
    ghost var st := WkupCtlLoop(descs, types0, o, st0, i);
    ghost var regsI, traceI := d.regs, layer.trace;
    ghost var stN := WkupCtlLoop(descs, types0, o, st0, i + 1);
    WkupNotYetMux(descs, types0, o, st0, i);
    assert stN == WkupCtlStep(descs, types0, o, st, i);
    ret, muxedOut := WkupInitBank(c, d, layer, o, types0, st, i, muxed);
    assert ret == stN.ret;
    WkupRegsStep(c, regs0, descs, types0, st.mux, i, regsI, d.regs);
    WkupTraceStep(c, d.banks, descs, types0, o, regs0, trace0, st0, i, traceI,
                  WkupBankTrace(c, d.banks, descs, types0, o, regsI, st, i));
    if ret != 0 {
      WkupEnteredAt(descs, types0, o, st0, i + 1);
      WkupLoopSticky(c, d.banks, descs, types0, o, regs0, st0, i + 1, |descs|);
    }
  }

  /** The bank loop of `exynos_eint_wkup_init`. */
  method WkupInitLoop(c: EintConsts, d: PinCtrl, layer: IrqLayer, o: WkupOracles, ghost types0: seq<EintType>,
                      ghost regs0: RegFile, ghost trace0: seq<Event>, ghost st0: WkupCtl)
    returns (ret: int, muxed: nat)
    requires d.Distinct() && WkupFresh(st0)
    requires WkupLoopInv(c, d, layer, o, types0, regs0, trace0, st0, 0)
    modifies d`regs, layer`trace, layer`domains, layer`nextDomain
    modifies (set b | b in d.banks)`irqDomain, (set b | b in d.banks)`eintType
    ensures WkupLoopOutcome(c, d, layer, o, types0, regs0, trace0, st0, ret, muxed)
  {
    var i := 0;
    muxed := 0;
    while i < |d.banks|
      invariant WkupLoopInv(c, d, layer, o, types0, regs0, trace0, st0, i)
      invariant muxed == WkupCtlLoop(d.Descs(), types0, o, st0, i).muxed
    {
      ret, muxed := WkupInitIter(c, d, layer, o, types0, regs0, trace0, st0, i, muxed);
      if ret != 0 {
        return;
      }
      i := i + 1;
    }
    WkupEnteredAt(d.Descs(), types0, o, st0, i);
    ret := 0;
  }

  /** After the bank loop: the shared parent line gets the muxed demultiplexer, over the muxed banks in table order. */
  method WkupInitMuxed(d: PinCtrl, layer: IrqLayer, o: WkupOracles, muxed: nat,
                       ghost types0: seq<EintType>, ghost st: WkupCtl)
    returns (ret: int)
    requires WkupMirrors(d, layer, types0, st) && st.ret == 0 && st.muxed == muxed
    modifies layer`trace
    ensures ret == WkupFinishRet(o, st)
    ensures layer.trace == old(layer.trace) + WkupFinishEvents(d.banks, types0, o, st)
  {
    if muxed == 0 {
      return 0;
    }
    if o.muxedIrq == 0 {
      return 0;
    }
    if !o.muxedAllocOk {
      return -ENOMEM;
    }
    var group: seq<PinBank> := [];
    var i := 0;
    while i < |d.banks|
      invariant i <= |d.banks|
      invariant group == MuxBanks(d.banks, types0, st.mux, i)
    {
      if d.banks[i].eintType == EintWkupMux {
        group := group + [d.banks[i]];
      }
      i := i + 1;
    }
    layer.Emit(SetChainedDemux16To31(o.muxedIrq, group));
    ret := 0;
  }

  /**
   * `exynos_eint_wkup_init`. Without a wake-up node it fails with
   * -ENODEV and changes nothing. Otherwise the bank loop leaves the
   * control state of `WkupCtlLoop`, the filters of the banks it entered
   * and their events in the trace, and, when it did not fail, the muxed
   * banks' parent line is set up.
   */
  method EintWkupInit(c: EintConsts, d: PinCtrl, layer: IrqLayer, o: WkupOracles) returns (ret: int)
    requires layer.Valid() && d.Distinct() && WkupFits(c, d.Descs(), d.Types()) && OraclesFit(o, d.Descs())
    modifies d`regs, layer`trace, layer`domains, layer`nextDomain
    modifies (set b | b in d.banks)`irqDomain, (set b | b in d.banks)`eintType
    ensures layer.Valid()
    ensures !o.nodePresent ==>
      && ret == -ENODEV && d.regs == old(d.regs) && layer.trace == old(layer.trace)
      && layer.domains == old(layer.domains) && layer.nextDomain == old(layer.nextDomain)
      && d.Types() == old(d.Types()) && BankDomains(d.banks) == old(BankDomains(d.banks))
    ensures o.nodePresent ==>
      var st0 := WkupCtl(old(layer.domains), old(layer.nextDomain), old(BankDomains(d.banks)), {}, 0, 0);
      var st := WkupCtlLoop(d.Descs(), old(d.Types()), o, st0, |d.banks|);
      && WkupMirrors(d, layer, old(d.Types()), st)
      && ret == WkupFinishRet(o, st)
      && d.regs == ApplyWrites(old(d.regs), WkupFltWrites(c, old(d.regs), d.Descs(), old(d.Types()),
                                                          WkupEntered(d.Descs(), old(d.Types()), o, |d.banks|)))
      && layer.trace == old(layer.trace) + WkupTraceLoop(c, d.banks, d.Descs(), old(d.Types()), o, old(d.regs), st0, |d.banks|)
                        + WkupFinishEvents(d.banks, old(d.Types()), o, st)
  {
    if !o.nodePresent {
      return -ENODEV;
    }
    ghost var types0 := d.Types();
    ghost var st0 := WkupCtl(layer.domains, layer.nextDomain, BankDomains(d.banks), {}, 0, 0);
    var muxed;
    ret, muxed := WkupInitLoop(c, d, layer, o, types0, d.regs, layer.trace, st0);
    if ret != 0 {
      return;
    }
    ret := WkupInitMuxed(d, layer, o, muxed, types0, WkupCtlLoop(d.Descs(), types0, o, st0, |d.banks|));
  }
}
