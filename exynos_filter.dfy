/**
 * `exynos_eint_flt_config`: programming the per-pin noise filter of a
 * bank. Each filter register holds one field per pin pair; the driver
 * rewrites the first `nr_pins / 2` fields of the first filter register and
 * copies the whole word to the second one after each field.
 */
module ExynosFilter {
  import opened ExynosRegs
  import opened ExynosModel

  /** The filter field value: enable and select flags, and the masked width. */
  function FltConWord(c: EintConsts, en: bool, sel: bool, width: Word): (r: Word)
    ensures c.FltValid() ==> Fits(r, c.fltLen)
    ensures c.FltValid() && en ==> forall i :: 0 <= i < 32 && c.fltEn[i] ==> r[i]
    ensures c.FltValid() && sel ==> forall i :: 0 <= i < 32 && c.fltSel[i] ==> r[i]
  {
    Or(Or(if en then c.fltEn else Zero, if sel then c.fltSel else Zero), And(width, c.fltWidthMask))
  }

  /** The first filter register of a bank (`EXYNOS_GPIO_EFLTCON_OFFSET + 2 * eint_offset`). */
  function FltReg(c: EintConsts, desc: BankDesc): nat
  {
    c.efltconOffset + 2 * desc.eintOffset
  }

  /** How many filter fields the loop writes (`nr_pins >> 1`). */
  function FltFields(desc: BankDesc): nat
  {
    desc.nrPins / 2
  }

  /** The bank's filter fields fit in one 32-bit register. */
  predicate FltFitsWord(c: EintConsts, desc: BankDesc)
  {
    c.FltValid() && FltFields(desc) * c.fltLen <= 32
  }

  /** The first register after `n` loop iterations, starting from `w`. */
  function FltFold(c: EintConsts, w: Word, flt: Word, n: nat): Word
    requires c.FltValid() && n * c.fltLen <= 32
  {
    if n == 0 then w
    else ReplaceField(FltFold(c, w, flt, n - 1), (n - 1) * c.fltLen, c.fltMask, flt)
  }

  /** The writes of `exynos_eint_flt_config` when the first register initially holds `w`. */
  function FltWrites(c: EintConsts, desc: BankDesc, w: Word, flt: Word, n: nat): (ws: Writes)
    requires c.FltValid() && n * c.fltLen <= 32
    ensures |ws| == 2 * n
  {
    if n == 0 then []
    else
      var v := FltFold(c, w, flt, n);
      FltWrites(c, desc, w, flt, n - 1) + [(FltReg(c, desc), v), (FltReg(c, desc) + 4, v)]
  }

  /** The whole effect of the routine on the register file, as a write list. */
  function FltConfigWrites(c: EintConsts, regs: RegFile, desc: BankDesc, flt: Word): Writes
    requires FltFitsWord(c, desc)
  {
    FltWrites(c, desc, Read(regs, FltReg(c, desc)), flt, FltFields(desc))
  }

  /** Fields below `n` hold `flt` after `n` iterations. */
  lemma {:induction false} FltFoldWritten(c: EintConsts, w: Word, flt: Word, n: nat, j: nat)
    requires c.FltValid() && n * c.fltLen <= 32 && Fits(flt, c.fltLen) && j < n
    ensures FieldAt(FltFold(c, w, flt, n), j * c.fltLen, c.fltMask) == flt
  {
    var len := c.fltLen;
    if j == n - 1 {
      FieldReadback(FltFold(c, w, flt, n - 1), j * len, len, flt);
    } else {
      FltFoldWritten(c, w, flt, n - 1, j);
      MulMono(j + 1, n - 1, len);
      MulSucc(j, len);
      OtherField(FltFold(c, w, flt, n - 1), j * len, (n - 1) * len, len, flt);
    }
  }

  /** Fields at or above `n` keep their initial value after `n` iterations. */
  lemma {:induction false} FltFoldKept(c: EintConsts, w: Word, flt: Word, n: nat, j: nat)
    requires c.FltValid() && n * c.fltLen <= 32 && Fits(flt, c.fltLen) && n <= j && (j + 1) * c.fltLen <= 32
    ensures FieldAt(FltFold(c, w, flt, n), j * c.fltLen, c.fltMask) == FieldAt(w, j * c.fltLen, c.fltMask)
  {
    var len := c.fltLen;
    if n > 0 {
      FltFoldKept(c, w, flt, n - 1, j);
      MulMono(n, j, len);
      MulSucc(n - 1, len);
      OtherField(FltFold(c, w, flt, n - 1), j * len, (n - 1) * len, len, flt);
    }
  }

  /** The routine writes no register other than the bank's two filter registers. */
  lemma FltConfigOthers(c: EintConsts, regs: RegFile, desc: BankDesc, flt: Word, off: nat)
    requires FltFitsWord(c, desc)
    requires off != FltReg(c, desc) && off != FltReg(c, desc) + 4
    ensures Read(ApplyWrites(regs, FltConfigWrites(c, regs, desc, flt)), off) == Read(regs, off)
  {
    var ws := FltConfigWrites(c, regs, desc, flt);
    FltWritesTargets(c, desc, Read(regs, FltReg(c, desc)), flt, FltFields(desc));
    ApplyWritesElsewhere(regs, ws, off);
  }

  /** Both filter registers end up holding the first register's value after the last iteration. */
  lemma FltConfigLast(c: EintConsts, regs: RegFile, desc: BankDesc, flt: Word)
    requires FltFitsWord(c, desc) && FltFields(desc) > 0
    ensures var r := FltReg(c, desc);
      var after := ApplyWrites(regs, FltConfigWrites(c, regs, desc, flt));
      var v := FltFold(c, Read(regs, r), flt, FltFields(desc));
      Read(after, r) == v && Read(after, r + 4) == v
  {
    var r := FltReg(c, desc);
    var n := FltFields(desc);
    var ws := FltConfigWrites(c, regs, desc, flt);
    var v := FltFold(c, Read(regs, r), flt, n);
    assert ws == FltWrites(c, desc, Read(regs, r), flt, n - 1) + [(r, v), (r + 4, v)];
    assert ws[2 * n - 2] == (r, v) && ws[2 * n - 1] == (r + 4, v);
    ApplyWritesLast(regs, ws, 2 * n - 2);
    ApplyWritesLast(regs, ws, 2 * n - 1);
  }

  /**
   * After the routine: the first `nr_pins / 2` fields of the first filter
   * register hold the new filter value, the remaining fields keep the
   * first register's old contents, the second register is an exact copy of
   * the first (its own previous contents are lost), and no other register
   * is written. A bank with fewer than two pins is left untouched.
   */
  lemma FltConfigEffect(c: EintConsts, regs: RegFile, desc: BankDesc, flt: Word)
    requires FltFitsWord(c, desc) && Fits(flt, c.fltLen)
    ensures var r := FltReg(c, desc);
      var after := ApplyWrites(regs, FltConfigWrites(c, regs, desc, flt));
      && (FltFields(desc) == 0 ==> after == regs)
      && (FltFields(desc) > 0 ==>
        && (forall j :: 0 <= j < FltFields(desc) ==> FieldAt(Read(after, r), j * c.fltLen, c.fltMask) == flt)
        && (forall j :: FltFields(desc) <= j && (j + 1) * c.fltLen <= 32 ==>
              FieldAt(Read(after, r), j * c.fltLen, c.fltMask) == FieldAt(Read(regs, r), j * c.fltLen, c.fltMask))
        && Read(after, r + 4) == Read(after, r))
      && (forall off :: off != r && off != r + 4 ==> Read(after, off) == Read(regs, off))
  {
    var r := FltReg(c, desc);
    var n := FltFields(desc);
    var w := Read(regs, r);
    var after := ApplyWrites(regs, FltConfigWrites(c, regs, desc, flt));
    forall off | off != r && off != r + 4
      ensures Read(after, off) == Read(regs, off)
    {
      FltConfigOthers(c, regs, desc, flt, off);
    }
    if n > 0 {
      FltConfigLast(c, regs, desc, flt);
      forall j | 0 <= j < n
        ensures FieldAt(Read(after, r), j * c.fltLen, c.fltMask) == flt
      {
        FltFoldWritten(c, w, flt, n, j);
      }
      forall j | n <= j && (j + 1) * c.fltLen <= 32
        ensures FieldAt(Read(after, r), j * c.fltLen, c.fltMask) == FieldAt(w, j * c.fltLen, c.fltMask)
      {
        FltFoldKept(c, w, flt, n, j);
      }
    }
  }

  /** The routine writes only the bank's two filter registers. */
  lemma {:induction false} FltWritesTargets(c: EintConsts, desc: BankDesc, w: Word, flt: Word, n: nat)
    requires c.FltValid() && n * c.fltLen <= 32
    ensures WritesOnly(FltWrites(c, desc, w, flt, n), FltReg(c, desc), FltReg(c, desc) + 4)
  {
    if n > 0 {
      FltWritesTargets(c, desc, w, flt, n - 1);
      var v := FltFold(c, w, flt, n);
      WritesOnlyAppend(FltWrites(c, desc, w, flt, n - 1), [(FltReg(c, desc), v), (FltReg(c, desc) + 4, v)],
        FltReg(c, desc), FltReg(c, desc) + 4);
    }
  }

  /** One more iteration appends the two writes of the next field's value. */
  lemma FltWritesStep(c: EintConsts, desc: BankDesc, w: Word, flt: Word, i: nat, regs: RegFile)
    requires c.FltValid() && (i + 1) * c.fltLen <= 32
    ensures var v := FltFold(c, w, flt, i + 1);
      var r := FltReg(c, desc);
      && ApplyWrites(regs, FltWrites(c, desc, w, flt, i + 1))
           == ApplyWrites(regs, FltWrites(c, desc, w, flt, i))[r := v][r + 4 := v]
      && WriteEvents(FltWrites(c, desc, w, flt, i + 1))
           == WriteEvents(FltWrites(c, desc, w, flt, i)) + [MmioWrite(r, v), MmioWrite(r + 4, v)]
  {
    var v := FltFold(c, w, flt, i + 1);
    var r := FltReg(c, desc);
    var prev := FltWrites(c, desc, w, flt, i);
    var step: Writes := [(r, v), (r + 4, v)];
    assert FltWrites(c, desc, w, flt, i + 1) == prev + step;
    ApplyWritesAppend(regs, prev, step);
    WriteEventsAppend(prev, step);
    assert WriteEvents(step) == [MmioWrite(r, v)] + WriteEvents(step[1..]);
    assert WriteEvents(step[1..]) == [MmioWrite(r + 4, v)] + WriteEvents(step[1..][1..]);
    var mid := ApplyWrites(regs, prev);
    assert |step[1..][1..]| == 0;
    assert ApplyWrites(mid, step) == ApplyWrites(mid[r := v], step[1..]);
    assert ApplyWrites(mid[r := v], step[1..]) == ApplyWrites(mid[r := v][r + 4 := v], step[1..][1..]);
  }

  /** The register file after `n` iterations, in closed form. */
  function FltAfter(c: EintConsts, regs: RegFile, desc: BankDesc, w: Word, flt: Word, n: nat): RegFile
    requires c.FltValid() && n * c.fltLen <= 32
  {
    if n == 0 then regs
    else regs[FltReg(c, desc) := FltFold(c, w, flt, n)][FltReg(c, desc) + 4 := FltFold(c, w, flt, n)]
  }

  /** Applying the write list of `n` iterations gives the closed form. */
  lemma {:induction false} FltWritesClosed(c: EintConsts, regs: RegFile, desc: BankDesc, w: Word, flt: Word, n: nat)
    requires c.FltValid() && n * c.fltLen <= 32
    ensures ApplyWrites(regs, FltWrites(c, desc, w, flt, n)) == FltAfter(c, regs, desc, w, flt, n)
  {
    if n > 0 {
      FltWritesClosed(c, regs, desc, w, flt, n - 1);
      FltWritesStep(c, desc, w, flt, n - 1, regs);
    }
  }

  /**
   * `exynos_eint_flt_config(en, sel, width, d, bank)`: each iteration
   * re-reads the first filter register, replaces field i, and writes the
   * word to both filter registers.
   */
  method FltConfig(c: EintConsts, d: PinCtrl, layer: IrqLayer, en: bool, sel: bool, width: Word, bank: PinBank)
    requires FltFitsWord(c, bank.desc)
    modifies d`regs, layer`trace
    ensures var ws := FltConfigWrites(c, old(d.regs), bank.desc, FltConWord(c, en, sel, width));
      d.regs == ApplyWrites(old(d.regs), ws) && layer.trace == old(layer.trace) + WriteEvents(ws)
  {
    var fltCon := FltConWord(c, en, sel, width);
    var fltReg := FltReg(c, bank.desc);
    ghost var w0 := Read(d.regs, fltReg);
    var i := 0;
    while i < bank.desc.nrPins / 2
      invariant 0 <= i <= FltFields(bank.desc)
      invariant d.regs == FltAfter(c, old(d.regs), bank.desc, w0, fltCon, i)
      invariant layer.trace == old(layer.trace) + WriteEvents(FltWrites(c, bank.desc, w0, fltCon, i))
    {
      MulMono(i + 1, FltFields(bank.desc), c.fltLen);
      FltWritesStep(c, bank.desc, w0, fltCon, i, old(d.regs));
      var shift := i * c.fltLen;
      var v := Read(d.regs, fltReg);
      v := ReplaceField(v, shift, c.fltMask, fltCon);
      Writel(d, layer, fltReg, v);
      Writel(d, layer, fltReg + 4, v);
      i := i + 1;
    }
    FltWritesClosed(c, old(d.regs), bank.desc, w0, fltCon, i);
  }
}
