/**
 * `exynos_pinctrl_suspend` and `exynos_pinctrl_resume`: on suspend every
 * GPIO bank saves its EINT configuration register and its two filter
 * registers, and every wake-up bank (plain or muxed) switches its filters
 * to the analog filter; on resume the GPIO banks write the saved values
 * back and the wake-up banks switch to the digital filter again. Banks of
 * any other type are skipped both times.
 */
module ExynosPm {
  import opened Optional
  import opened ExynosRegs
  import opened ExynosModel
  import opened ExynosFilter
  import opened ExynosInit

  /** A wake-up bank, plain or muxed: the banks whose filters suspend and resume switch. */
  predicate IsWake(t: EintType)
  {
    t == EintWkup || t == EintWkupMux
  }

  /** The type list with muxed wake-up banks counted as wake-up banks. */
  function WakeView(types: seq<EintType>): (r: seq<EintType>)
    ensures |r| == |types|
    ensures forall j :: 0 <= j < |types| ==> (r[j] == EintWkup <==> IsWake(types[j]))
  {
    seq(|types|, j requires 0 <= j < |types| => if IsWake(types[j]) then EintWkup else types[j])
  }

  /** The filter of every wake-up bank fits in one register. */
  predicate PmFits(c: EintConsts, descs: seq<BankDesc>, types: seq<EintType>)
  {
    |descs| == |types| && forall j :: 0 <= j < |types| && IsWake(types[j]) ==> FltFitsWord(c, descs[j])
  }

  /** Every GPIO bank has its save area (the routines dereference it unchecked). */
  predicate GpioSaved(types: seq<EintType>, saves: seq<Option<GpioSave>>)
  {
    |saves| == |types| && forall j :: 0 <= j < |types| && types[j] == EintGpio ==> saves[j].Some?
  }

  /** The analog filter: `EXYNOS_EINT_FLTCON_EN`, no filter select, width 0. */
  function AnalogFlt(c: EintConsts): Word
  {
    FltConWord(c, true, false, Zero)
  }

  /** The analog filter is the enable bit alone; the digital filter adds the select bit. */
  lemma FilterModes(c: EintConsts)
    ensures AnalogFlt(c) == c.fltEn
    ensures InitFlt(c) == Or(c.fltEn, c.fltSel)
  {
    assert And(Zero, c.fltWidthMask) == Zero;
    assert Or(c.fltEn, Zero) == c.fltEn;
    assert Or(Or(c.fltEn, c.fltSel), Zero) == Or(c.fltEn, c.fltSel);
  }

  /** The GPIO bank's three registers: EINT configuration, then the two filter registers. */
  function SaveOf(c: EintConsts, regs: RegFile, desc: BankDesc): GpioSave
  {
    GpioSave(Read(regs, c.econOffset + desc.eintOffset), Read(regs, FltReg(c, desc)), Read(regs, FltReg(c, desc) + 4))
  }

  /** `exynos_pinctrl_resume_bank`: the saved values written back, in the same order. */
  function RestoreWrites(c: EintConsts, desc: BankDesc, save: GpioSave): (ws: Writes)
  {
    [(c.econOffset + desc.eintOffset, save.eintCon), (FltReg(c, desc), save.fltcon0), (FltReg(c, desc) + 4, save.fltcon1)]
  }

  /** Every write of `ws` stores the value `regs` already holds at its offset. */
  predicate WritesBack(regs: RegFile, ws: Writes)
  {
    forall k :: 0 <= k < |ws| ==> ws[k].1 == Read(regs, ws[k].0)
  }

  /** Writing back values that are already there changes no register's value. */
  lemma {:induction false} WriteBackIdentity(regs: RegFile, ws: Writes)
    requires WritesBack(regs, ws)
    ensures forall off :: Read(ApplyWrites(regs, ws), off) == Read(regs, off)
    decreases |ws|
  {
    if ws != [] {
      var regs' := regs[ws[0].0 := ws[0].1];
      assert forall off :: Read(regs', off) == Read(regs, off);
      assert WritesBack(regs', ws[1..]) by {
        forall k | 0 <= k < |ws[1..]|
          ensures ws[1..][k].1 == Read(regs', ws[1..][k].0)
        {
          assert ws[1..][k] == ws[k + 1];
        }
      }
      WriteBackIdentity(regs', ws[1..]);
    }
  }

  /**
   * Suspend then resume of one GPIO bank, with nothing written in
   * between, leaves every register reading as before.
   */
  lemma RestoreAfterSave(c: EintConsts, regs: RegFile, desc: BankDesc)
    ensures forall off :: Read(ApplyWrites(regs, RestoreWrites(c, desc, SaveOf(c, regs, desc))), off) == Read(regs, off)
  {
    WriteBackIdentity(regs, RestoreWrites(c, desc, SaveOf(c, regs, desc)));
  }

  // ---------------------------------------------------------------- suspend

  /** The register writes of suspending the first `n` banks: the analog filters of the wake-up banks. */
  function SuspendWrites(c: EintConsts, regs0: RegFile, descs: seq<BankDesc>, types: seq<EintType>, n: nat): Writes
    requires PmFits(c, descs, types) && n <= |descs|
  {
    FltWritesOfType(c, regs0, descs, WakeView(types), EintWkup, AnalogFlt(c), n)
  }

  /** The save areas after suspending the first `n` banks: each GPIO bank's registers as they were when it was reached. */
  function SavesAfterSuspend(c: EintConsts, regs0: RegFile, descs: seq<BankDesc>, types: seq<EintType>,
                             saves0: seq<Option<GpioSave>>, n: nat): (r: seq<Option<GpioSave>>)
    requires PmFits(c, descs, types) && |saves0| == |types| && n <= |descs|
    ensures |r| == |saves0|
  {
    seq(|saves0|, j requires 0 <= j < |saves0| =>
      if j < n && types[j] == EintGpio then Some(SaveOf(c, ApplyWrites(regs0, SuspendWrites(c, regs0, descs, types, j)), descs[j]))
      else saves0[j])
  }

  /** `exynos_pinctrl_suspend_bank`: the bank's three registers are read into its save area. */
  method SuspendBank(c: EintConsts, d: PinCtrl, bank: PinBank)
    requires bank.socPriv.Some?
    modifies bank`socPriv
    ensures bank.socPriv == Some(SaveOf(c, d.regs, bank.desc))
  {
    var con := Read(d.regs, c.econOffset + bank.desc.eintOffset);
    var flt0 := Read(d.regs, FltReg(c, bank.desc));
    var flt1 := Read(d.regs, FltReg(c, bank.desc) + 4);
    bank.socPriv := Some(GpioSave(con, flt0, flt1));
  }

  /** The state of the suspend loop after `i` banks. */
  ghost predicate SuspendInv(c: EintConsts, d: PinCtrl, layer: IrqLayer, types: seq<EintType>, regs0: RegFile,
                             trace0: seq<Event>, saves0: seq<Option<GpioSave>>, i: nat)
    reads d, d.banks, layer`trace
  {
    && PmFits(c, d.Descs(), types) && GpioSaved(types, saves0) && i <= |d.banks|
    && (forall j :: 0 <= j < |d.banks| ==> d.banks[j].eintType == types[j])
    && d.regs == ApplyWrites(regs0, SuspendWrites(c, regs0, d.Descs(), types, i))
    && layer.trace == trace0 + WriteEvents(SuspendWrites(c, regs0, d.Descs(), types, i))
    && (forall j :: 0 <= j < |d.banks| ==> d.banks[j].socPriv == SavesAfterSuspend(c, regs0, d.Descs(), types, saves0, i)[j])
  }

  /** The writes of bank `i`'s iteration extend those of the first `i` banks. */
  lemma SuspendWritesStep(c: EintConsts, regs0: RegFile, descs: seq<BankDesc>, types: seq<EintType>, i: nat)
    requires PmFits(c, descs, types) && i < |descs|
    ensures var prev := SuspendWrites(c, regs0, descs, types, i);
      SuspendWrites(c, regs0, descs, types, i + 1)
        == prev + if IsWake(types[i]) then FltConfigWrites(c, ApplyWrites(regs0, prev), descs[i], AnalogFlt(c)) else []
  {
    assert WakeView(types)[i] == EintWkup <==> IsWake(types[i]);
  }

  /** Bank `i`'s writes, applied after those of the first `i` banks, in registers and in the trace. */
  lemma SuspendStateStep(c: EintConsts, regs0: RegFile, trace0: seq<Event>, descs: seq<BankDesc>, types: seq<EintType>,
                         i: nat, regsI: RegFile, traceI: seq<Event>, ws: Writes)
    requires PmFits(c, descs, types) && i < |descs|
    requires regsI == ApplyWrites(regs0, SuspendWrites(c, regs0, descs, types, i))
    requires traceI == trace0 + WriteEvents(SuspendWrites(c, regs0, descs, types, i))
    requires ws == if IsWake(types[i]) then FltConfigWrites(c, regsI, descs[i], AnalogFlt(c)) else []
    ensures ApplyWrites(regsI, ws) == ApplyWrites(regs0, SuspendWrites(c, regs0, descs, types, i + 1))
    ensures traceI + WriteEvents(ws) == trace0 + WriteEvents(SuspendWrites(c, regs0, descs, types, i + 1))
  {
    var prev := SuspendWrites(c, regs0, descs, types, i);
    SuspendWritesStep(c, regs0, descs, types, i);
    ApplyWritesAppend(regs0, prev, ws);
    WriteEventsAppend(prev, ws);
    assert traceI + WriteEvents(ws) == trace0 + (WriteEvents(prev) + WriteEvents(ws));
  }

  /** The save areas after bank `i`'s iteration. */
  lemma SuspendSavesStep(c: EintConsts, regs0: RegFile, descs: seq<BankDesc>, types: seq<EintType>,
                         saves0: seq<Option<GpioSave>>, i: nat, j: nat)
    requires PmFits(c, descs, types) && |saves0| == |types| && i < |descs| && j < |descs|
    ensures SavesAfterSuspend(c, regs0, descs, types, saves0, i + 1)[j]
         == if j == i && types[i] == EintGpio then Some(SaveOf(c, ApplyWrites(regs0, SuspendWrites(c, regs0, descs, types, i)), descs[i]))
            else SavesAfterSuspend(c, regs0, descs, types, saves0, i)[j]
  {
  }

  /** One iteration of the suspend loop. */
  method SuspendStep(c: EintConsts, d: PinCtrl, layer: IrqLayer, ghost types: seq<EintType>, ghost regs0: RegFile,
                     ghost trace0: seq<Event>, ghost saves0: seq<Option<GpioSave>>, i: nat)
    requires d.Distinct() && i < |d.banks| && SuspendInv(c, d, layer, types, regs0, trace0, saves0, i)
    modifies d`regs, layer`trace, {d.banks[i]}`socPriv
    ensures SuspendInv(c, d, layer, types, regs0, trace0, saves0, i + 1)
  {
    ghost var descs := d.Descs();
    ghost var regsI, traceI := d.regs, layer.trace;
    ghost var ws := if IsWake(types[i]) then FltConfigWrites(c, regsI, descs[i], AnalogFlt(c)) else [];
    SuspendStateStep(c, regs0, trace0, descs, types, i, regsI, traceI, ws);
    forall j | 0 <= j < |descs| {
      SuspendSavesStep(c, regs0, descs, types, saves0, i, j);
    }
    var bank := d.banks[i];
    if bank.eintType == EintGpio {
      assert bank.socPriv == saves0[i];
      SuspendBank(c, d, bank);
    } else if bank.eintType == EintWkup || bank.eintType == EintWkupMux {
      FltConfig(c, d, layer, true, false, Zero, bank);
    }
  }

  /**
   * `exynos_pinctrl_suspend`. The registers take the analog filters of
   * the wake-up banks, in bank order, and nothing else; every GPIO bank's
   * save area holds its three registers as they were when the loop
   * reached it; no other bank's save area and no bank's type changes.
   */
  method Suspend(c: EintConsts, d: PinCtrl, layer: IrqLayer)
    requires d.Distinct() && PmFits(c, d.Descs(), d.Types()) && GpioSaved(d.Types(), BankSaves(d.banks))
    modifies d`regs, layer`trace, (set b | b in d.banks)`socPriv
    ensures d.regs == ApplyWrites(old(d.regs), SuspendWrites(c, old(d.regs), d.Descs(), d.Types(), |d.banks|))
    ensures layer.trace == old(layer.trace) + WriteEvents(SuspendWrites(c, old(d.regs), d.Descs(), d.Types(), |d.banks|))
    ensures BankSaves(d.banks) == SavesAfterSuspend(c, old(d.regs), d.Descs(), d.Types(), old(BankSaves(d.banks)), |d.banks|)
  {
    ghost var types := d.Types();
    ghost var saves0 := BankSaves(d.banks);
    ghost var regs0, trace0 := d.regs, layer.trace;
    var i := 0;
    while i < |d.banks|
      invariant SuspendInv(c, d, layer, types, regs0, trace0, saves0, i)
    {
      SuspendStep(c, d, layer, types, regs0, trace0, saves0, i);
      i := i + 1;
    }
    assert d.Types() == types;
    assert BankSaves(d.banks) == SavesAfterSuspend(c, regs0, d.Descs(), types, saves0, i);
  }

  // ---------------------------------------------------------------- resume

  /** The writes of resuming one bank, from registers `regs`. */
  function ResumeBankWrites(c: EintConsts, regs: RegFile, desc: BankDesc, t: EintType, save: Option<GpioSave>): Writes
    requires t == EintGpio ==> save.Some?
    requires IsWake(t) ==> FltFitsWord(c, desc)
  {
    if t == EintGpio then RestoreWrites(c, desc, save.value)
    else if IsWake(t) then FltConfigWrites(c, regs, desc, InitFlt(c))
    else []
  }

  /** The register writes of resuming the first `n` banks. */
  function ResumeWrites(c: EintConsts, regs0: RegFile, descs: seq<BankDesc>, types: seq<EintType>,
                        saves: seq<Option<GpioSave>>, n: nat): Writes
    requires PmFits(c, descs, types) && GpioSaved(types, saves) && n <= |descs|
  {
    if n == 0 then []
    else
      var prev := ResumeWrites(c, regs0, descs, types, saves, n - 1);
      prev + ResumeBankWrites(c, ApplyWrites(regs0, prev), descs[n - 1], types[n - 1], saves[n - 1])
  }

  /** `exynos_pinctrl_resume_bank`: the saved values go back to the bank's three registers. */
  method ResumeBank(c: EintConsts, d: PinCtrl, layer: IrqLayer, bank: PinBank)
    requires bank.socPriv.Some?
    modifies d`regs, layer`trace
    ensures d.regs == ApplyWrites(old(d.regs), RestoreWrites(c, bank.desc, bank.socPriv.value))
    ensures layer.trace == old(layer.trace) + WriteEvents(RestoreWrites(c, bank.desc, bank.socPriv.value))
  {
    var save := bank.socPriv.value;
    Writel(d, layer, c.econOffset + bank.desc.eintOffset, save.eintCon);
    Writel(d, layer, FltReg(c, bank.desc), save.fltcon0);
    Writel(d, layer, FltReg(c, bank.desc) + 4, save.fltcon1);
    RestoreEffect(c, old(d.regs), bank.desc, save);
  }

  /** Writing back a save: three register writes and three MMIO events, in register order. */
  lemma RestoreEffect(c: EintConsts, regs: RegFile, desc: BankDesc, save: GpioSave)
    ensures var con, f0 := c.econOffset + desc.eintOffset, FltReg(c, desc);
      && WriteEvents(RestoreWrites(c, desc, save))
         == [MmioWrite(con, save.eintCon), MmioWrite(f0, save.fltcon0), MmioWrite(f0 + 4, save.fltcon1)]
      && ApplyWrites(regs, RestoreWrites(c, desc, save)) == regs[con := save.eintCon][f0 := save.fltcon0][f0 + 4 := save.fltcon1]
  {
    var ws := RestoreWrites(c, desc, save);
    var last: Writes := ws[1..][1..][1..];
    assert last == [];
    assert WriteEvents(ws[1..][1..]) == [MmioWrite(ws[2].0, ws[2].1)] + WriteEvents(last);
    assert ApplyWrites(regs, ws) == ApplyWrites(regs[ws[0].0 := ws[0].1], ws[1..]);
    assert ApplyWrites(regs[ws[0].0 := ws[0].1], ws[1..]) == ApplyWrites(regs[ws[0].0 := ws[0].1][ws[1].0 := ws[1].1], ws[1..][1..]);
    assert ApplyWrites(regs[ws[0].0 := ws[0].1][ws[1].0 := ws[1].1], ws[1..][1..])
        == ApplyWrites(regs[ws[0].0 := ws[0].1][ws[1].0 := ws[1].1][ws[2].0 := ws[2].1], last);
  }

  /** The writes of bank `i`'s iteration extend those of the first `i` banks, in registers and in the trace. */
  lemma ResumeWritesStep(c: EintConsts, regs0: RegFile, trace0: seq<Event>, descs: seq<BankDesc>, types: seq<EintType>,
                         saves: seq<Option<GpioSave>>, i: nat, regsI: RegFile, traceI: seq<Event>, ws: Writes)
    requires PmFits(c, descs, types) && GpioSaved(types, saves) && i < |descs|
    requires regsI == ApplyWrites(regs0, ResumeWrites(c, regs0, descs, types, saves, i))
    requires traceI == trace0 + WriteEvents(ResumeWrites(c, regs0, descs, types, saves, i))
    requires ws == ResumeBankWrites(c, regsI, descs[i], types[i], saves[i])
    ensures ApplyWrites(regsI, ws) == ApplyWrites(regs0, ResumeWrites(c, regs0, descs, types, saves, i + 1))
    ensures traceI + WriteEvents(ws) == trace0 + WriteEvents(ResumeWrites(c, regs0, descs, types, saves, i + 1))
  {
    var prev := ResumeWrites(c, regs0, descs, types, saves, i);
    assert ResumeWrites(c, regs0, descs, types, saves, i + 1) == prev + ws;
    ApplyWritesAppend(regs0, prev, ws);
    WriteEventsAppend(prev, ws);
    assert traceI + WriteEvents(ws) == trace0 + (WriteEvents(prev) + WriteEvents(ws));
  }

  /** The state of the resume loop after `i` banks. */
  ghost predicate ResumeInv(c: EintConsts, d: PinCtrl, layer: IrqLayer, types: seq<EintType>, saves: seq<Option<GpioSave>>,
                            regs0: RegFile, trace0: seq<Event>, i: nat)
    reads d, d.banks, layer`trace
  {
    && PmFits(c, d.Descs(), types) && GpioSaved(types, saves) && i <= |d.banks|
    && (forall j :: 0 <= j < |d.banks| ==> d.banks[j].eintType == types[j] && d.banks[j].socPriv == saves[j])
    && d.regs == ApplyWrites(regs0, ResumeWrites(c, regs0, d.Descs(), types, saves, i))
    && layer.trace == trace0 + WriteEvents(ResumeWrites(c, regs0, d.Descs(), types, saves, i))
  }

  /** One iteration of the resume loop. */
  method ResumeStep(c: EintConsts, d: PinCtrl, layer: IrqLayer, ghost types: seq<EintType>, ghost saves: seq<Option<GpioSave>>,
                    ghost regs0: RegFile, ghost trace0: seq<Event>, i: nat)
    requires i < |d.banks| && ResumeInv(c, d, layer, types, saves, regs0, trace0, i)
    modifies d`regs, layer`trace
    ensures ResumeInv(c, d, layer, types, saves, regs0, trace0, i + 1)
  {
    ghost var descs := d.Descs();
    ghost var regsI, traceI := d.regs, layer.trace;
    ResumeWritesStep(c, regs0, trace0, descs, types, saves, i, regsI, traceI,
                     ResumeBankWrites(c, regsI, descs[i], types[i], saves[i]));
    var bank := d.banks[i];
    if bank.eintType == EintGpio {
      ResumeBank(c, d, layer, bank);
    } else if bank.eintType == EintWkup || bank.eintType == EintWkupMux {
      FltConfig(c, d, layer, true, true, Zero, bank);
    }
  }

  /**
   * `exynos_pinctrl_resume`. The registers take, bank by bank, the saved
   * values of the GPIO banks and the digital filters of the wake-up banks,
   * and nothing else.
   */
  method Resume(c: EintConsts, d: PinCtrl, layer: IrqLayer)
    requires PmFits(c, d.Descs(), d.Types()) && GpioSaved(d.Types(), BankSaves(d.banks))
    modifies d`regs, layer`trace
    ensures d.regs == ApplyWrites(old(d.regs), ResumeWrites(c, old(d.regs), d.Descs(), d.Types(), BankSaves(d.banks), |d.banks|))
    ensures layer.trace == old(layer.trace) + WriteEvents(ResumeWrites(c, old(d.regs), d.Descs(), d.Types(), BankSaves(d.banks), |d.banks|))
  {
    ghost var types := d.Types();
    ghost var saves := BankSaves(d.banks);
    ghost var regs0, trace0 := d.regs, layer.trace;
    var i := 0;
    while i < |d.banks|
      invariant ResumeInv(c, d, layer, types, saves, regs0, trace0, i)
    {
      ResumeStep(c, d, layer, types, saves, regs0, trace0, i);
      i := i + 1;
    }
    assert d.Types() == types && BankSaves(d.banks) == saves;
  }

  // ---------------------------------------------------------------- round trip

  /** Without wake-up banks, suspend writes nothing. */
  lemma {:induction false} NoWakeNoWrites(c: EintConsts, regs0: RegFile, descs: seq<BankDesc>, types: seq<EintType>, n: nat)
    requires PmFits(c, descs, types) && n <= |descs|
    requires forall j :: 0 <= j < |types| ==> !IsWake(types[j])
    ensures SuspendWrites(c, regs0, descs, types, n) == []
  {
    if n > 0 {
      NoWakeNoWrites(c, regs0, descs, types, n - 1);
    }
  }

  /** Without wake-up banks, resuming from the saves taken at `regs0` writes back only what `regs0` holds. */
  lemma {:induction false} ResumeWritesBack(c: EintConsts, regs0: RegFile, descs: seq<BankDesc>, types: seq<EintType>,
                                            saves: seq<Option<GpioSave>>, n: nat)
    requires PmFits(c, descs, types) && GpioSaved(types, saves) && n <= |descs|
    requires forall j :: 0 <= j < |types| ==> !IsWake(types[j])
    requires forall j :: 0 <= j < |types| && types[j] == EintGpio ==> saves[j] == Some(SaveOf(c, regs0, descs[j]))
    ensures WritesBack(regs0, ResumeWrites(c, regs0, descs, types, saves, n))
  {
    if n > 0 {
      ResumeWritesBack(c, regs0, descs, types, saves, n - 1);
      var prev := ResumeWrites(c, regs0, descs, types, saves, n - 1);
      var ws := ResumeBankWrites(c, ApplyWrites(regs0, prev), descs[n - 1], types[n - 1], saves[n - 1]);
      assert WritesBack(regs0, ws);
      assert ResumeWrites(c, regs0, descs, types, saves, n) == prev + ws;
      forall k | 0 <= k < |prev + ws|
        ensures (prev + ws)[k].1 == Read(regs0, (prev + ws)[k].0)
      {
        if k >= |prev| {
          assert (prev + ws)[k] == ws[k - |prev|];
        }
      }
    }
  }

  /**
   * On a controller without wake-up banks, suspend followed by resume
   * leaves every register reading as it did before suspend.
   */
  lemma SuspendResumeRoundTrip(c: EintConsts, regs0: RegFile, descs: seq<BankDesc>, types: seq<EintType>,
                               saves0: seq<Option<GpioSave>>)
    requires PmFits(c, descs, types) && GpioSaved(types, saves0)
    requires forall j :: 0 <= j < |types| ==> !IsWake(types[j])
    ensures var regs1 := ApplyWrites(regs0, SuspendWrites(c, regs0, descs, types, |descs|));
      var saves1 := SavesAfterSuspend(c, regs0, descs, types, saves0, |descs|);
      GpioSaved(types, saves1)
      && forall off :: Read(ApplyWrites(regs1, ResumeWrites(c, regs1, descs, types, saves1, |descs|)), off) == Read(regs0, off)
  {
    var saves1 := SavesAfterSuspend(c, regs0, descs, types, saves0, |descs|);
    NoWakeNoWrites(c, regs0, descs, types, |descs|);
    forall j | 0 <= j < |descs| && types[j] == EintGpio
      ensures saves1[j] == Some(SaveOf(c, regs0, descs[j]))
    {
      NoWakeNoWrites(c, regs0, descs, types, j);
    }
    ResumeWritesBack(c, regs0, descs, types, saves1, |descs|);
    WriteBackIdentity(regs0, ResumeWrites(c, regs0, descs, types, saves1, |descs|));
  }
}
