/**
 * Exynos 7880 helpers: the number of GPIOs over all pin controllers,
 * the conversion of a wake-up EINT number to a global pin number, and
 * the layout of the ALIVE controller's bank table (pin offset and
 * wake-mask bits).
 *
 * The conversion skips the banks in front of the first "gpa" bank, as
 * the 7880 table lists them, but adds up their pin counts from the
 * 7870 ALIVE table; `EintToPinNum` takes the table it reads names from
 * and the table it reads pin counts from as separate arguments.
 */
module Exynos7880 {
  import opened ExynosModel
  import opened ExynosChip

  /** One entry of a SoC bank table (`EXYNOS_PIN_BANK_EINTN/EINTG/EINTW`). */
  datatype TableBank = TableBank(
    name: string,
    nrPins: nat,
    pctlOffset: nat,
    eintType: EintType,
    eintOffset: nat)        // zero for EINTN banks, which set none

  /** One entry of a SoC's `samsung_pin_ctrl` array: its label, and its banks (`nr_banks` is their number). */
  datatype CtrlTable = CtrlTable(ident: string, banks: seq<TableBank>)

  const U32Mod: nat := 0x1_0000_0000

  /** `exynos7870_pin_banks0`: the 7870 ALIVE controller. */
  const Alive7870: seq<TableBank> := [
    TableBank("etc0", 6, 0x000, EintWkup, 0x00),
    TableBank("etc1", 3, 0x020, EintWkup, 0x00),
    TableBank("gpa0", 8, 0x040, EintWkup, 0x00),
    TableBank("gpa1", 8, 0x060, EintWkup, 0x04),
    TableBank("gpa2", 8, 0x080, EintWkup, 0x08),
    TableBank("gpq0", 2, 0x0c0, EintWkup, 0x00)]

  /** `exynos7880_pin_banks0`: the 7880 ALIVE controller. */
  const Alive7880: seq<TableBank> := [
    TableBank("etc0", 6, 0x000, EintNone, 0x00),
    TableBank("etc1", 3, 0x020, EintNone, 0x00),
    TableBank("gpa0", 8, 0x040, EintWkup, 0x00),
    TableBank("gpa1", 8, 0x060, EintWkup, 0x04),
    TableBank("gpa2", 8, 0x080, EintWkup, 0x08),
    TableBank("gpa3", 5, 0x0a0, EintWkup, 0x0c),
    TableBank("gpq0", 2, 0x0c0, EintNone, 0x00)]

  // ---------------------------------------------------------------------
  // GPIO count
  // ---------------------------------------------------------------------

  /** The pins of a list of banks. */
  function BankPins(banks: seq<TableBank>): nat
  {
    if |banks| == 0 then 0 else BankPins(banks[..|banks| - 1]) + banks[|banks| - 1].nrPins
  }

  /** The pins of every bank of every controller, controller by controller. */
  function TotalPins(ctrls: seq<CtrlTable>): nat
  {
    if |ctrls| == 0 then 0 else TotalPins(ctrls[..|ctrls| - 1]) + BankPins(ctrls[|ctrls| - 1].banks)
  }

  /** All banks of all controllers in one list, in table order. */
  function AllBanks(ctrls: seq<CtrlTable>): seq<TableBank>
  {
    if |ctrls| == 0 then [] else AllBanks(ctrls[..|ctrls| - 1]) + ctrls[|ctrls| - 1].banks
  }

  /** Counting pins distributes over concatenation of bank lists. */
  lemma {:induction false} BankPinsAppend(a: seq<TableBank>, b: seq<TableBank>)
    ensures BankPins(a + b) == BankPins(a) + BankPins(b)
    decreases |b|
  {
    if |b| > 0 {
      assert (a + b)[..|a + b| - 1] == a + b[..|b| - 1];
      BankPinsAppend(a, b[..|b| - 1]);
    } else {
      assert a + b == a;
    }
  }

  /** Counting controller by controller counts every bank of every controller once. */
  lemma {:induction false} TotalPinsAllBanks(ctrls: seq<CtrlTable>)
    ensures TotalPins(ctrls) == BankPins(AllBanks(ctrls))
    decreases |ctrls|
  {
    if |ctrls| > 0 {
      TotalPinsAllBanks(ctrls[..|ctrls| - 1]);
      BankPinsAppend(AllBanks(ctrls[..|ctrls| - 1]), ctrls[|ctrls| - 1].banks);
    }
  }

  /**
   * `exynos7880_secgpio_get_nr_gpio`: the number of pins of every bank of
   * every controller.
   */
  method SecGpioNrGpio(ctrls: seq<CtrlTable>) returns (nrGpio: nat)
    ensures nrGpio == BankPins(AllBanks(ctrls))
  {
    nrGpio := 0;
    var i := 0;
    while i < |ctrls|
      invariant 0 <= i <= |ctrls|
      invariant nrGpio == TotalPins(ctrls[..i])
    {
      var banks := ctrls[i].banks;
      var j := 0;
      while j < |banks|
        invariant 0 <= j <= |banks|
        invariant nrGpio == TotalPins(ctrls[..i]) + BankPins(banks[..j])
      {
        assert banks[..j + 1][..j] == banks[..j];
        nrGpio := nrGpio + banks[j].nrPins;
        j := j + 1;
      }
      assert banks[..j] == banks;
      assert ctrls[..i + 1][..i] == ctrls[..i];
      i := i + 1;
    }
    assert ctrls[..i] == ctrls;
    TotalPinsAllBanks(ctrls);
  }

  /** The 7880 ALIVE controller alone holds 40 pins. */
  lemma Alive7880Pins()
    ensures BankPins(Alive7880) == 40
  {
    PrefixPins(Alive7880, 0);
    PrefixPins(Alive7880, 1);
    PrefixPins(Alive7880, 2);
    PrefixPins(Alive7880, 3);
    PrefixPins(Alive7880, 4);
    PrefixPins(Alive7880, 5);
    PrefixPins(Alive7880, 6);
    assert Alive7880[..7] == Alive7880;
  }

  /** One more bank of a table adds its pins. */
  lemma PrefixPins(t: seq<TableBank>, k: nat)
    requires k < |t|
    ensures BankPins(t[..k + 1]) == BankPins(t[..k]) + t[k].nrPins
  {
    assert t[..k + 1][..k] == t[..k];
  }

  // ---------------------------------------------------------------------
  // EINT number to pin number
  // ---------------------------------------------------------------------

  /** `strncmp(name, "gpa", 3) == 0`. */
  predicate IsGpaBank(name: string)
  {
    |name| >= 3 && name[..3] == "gpa"
  }

  /** The number of banks in front of the first "gpa" bank (all of them if there is none). */
  function EtcBanks(banks: seq<TableBank>): (r: nat)
    ensures r <= |banks|
    ensures forall j :: 0 <= j < r ==> !IsGpaBank(banks[j].name)
    ensures r < |banks| ==> IsGpaBank(banks[r].name)
  {
    if |banks| == 0 || IsGpaBank(banks[0].name) then 0 else 1 + EtcBanks(banks[1..])
  }

  /**
   * `exynos_eint_to_pin_num` (7880): the controller's pin base plus the
   * EINT number plus the pins of the banks in front of the first "gpa"
   * bank, in u32 arithmetic. Bank names come from `names`, pin counts
   * from `pins`; every bank the loop reads must exist in `pins`.
   */
  method EintToPinNum(base: nat, eint: int, names: seq<TableBank>, pins: seq<TableBank>)
      returns (pin: nat)
    requires EtcBanks(names) <= |pins|
    ensures pin < U32Mod
    ensures pin == (base + eint + BankPins(pins[..EtcBanks(names)])) % U32Mod
  {
    var etcOffset := 0;
    var i := 0;
    while i < |names| && !IsGpaBank(names[i].name)
      invariant 0 <= i <= EtcBanks(names)
      invariant etcOffset == BankPins(pins[..i])
    {
      assert pins[..i + 1][..i] == pins[..i];
      etcOffset := etcOffset + pins[i].nrPins;
      i := i + 1;
    }
    pin := (base + eint + etcOffset) % U32Mod;
  }

  /** Two tables that agree on the pin counts of their first `n` banks give the same offset. */
  lemma {:induction false} BankPinsAgree(a: seq<TableBank>, b: seq<TableBank>, n: nat)
    requires n <= |a| && n <= |b|
    requires forall j :: 0 <= j < n ==> a[j].nrPins == b[j].nrPins
    ensures BankPins(a[..n]) == BankPins(b[..n])
  {
    if n > 0 {
      assert a[..n][..n - 1] == a[..n - 1];
      assert b[..n][..n - 1] == b[..n - 1];
      BankPinsAgree(a, b, n - 1);
    }
  }

  /**
   * On the real tables, reading pin counts from the 7870 ALIVE table
   * gives the same offset as the 7880 one: both list "etc0" (6 pins)
   * and "etc1" (3 pins) in front of "gpa0".
   */
  lemma AliveEtcOffset()
    ensures EtcBanks(Alive7880) == 2
    ensures BankPins(Alive7870[..2]) == BankPins(Alive7880[..2]) == 9
  {
    assert Alive7880[0].name[0] != 'g' && Alive7880[1].name[0] != 'g';
    assert Alive7880[2].name[..3] == "gpa";
    assert EtcBanks(Alive7880[2..]) == 0;
    assert EtcBanks(Alive7880[1..]) == 1 by {
      assert Alive7880[1..][1..] == Alive7880[2..];
    }
    BankPinsAgree(Alive7870, Alive7880, 2);
    PrefixPins(Alive7880, 0);
    PrefixPins(Alive7880, 1);
  }

  /**
   * The 7880 build of `exynos_eint_to_pin_num`, with the tables it uses:
   * EINT `eint` of the ALIVE controller is pin `base + eint + 9`.
   */
  method Exynos7880EintToPinNum(base: nat, eint: int) returns (pin: nat)
    ensures pin == (base + eint + 9) % U32Mod
    ensures pin == (base + eint + BankPins(Alive7880[..EtcBanks(Alive7880)])) % U32Mod
  {
    AliveEtcOffset();
    pin := EintToPinNum(base, eint, Alive7880, Alive7870);
  }

  // ---------------------------------------------------------------------
  // Wake-mask bits of a bank table
  // ---------------------------------------------------------------------

  /** The bits `2 * eint_offset + hwirq` of the table's wake-up banks fit the 32-bit mask and do not overlap. */
  predicate WakeBitsLaidOut(t: seq<TableBank>)
  {
    (forall i :: 0 <= i < |t| && t[i].eintType == EintWkup ==>
       2 * t[i].eintOffset + t[i].nrPins <= 32)
    && (forall i, j :: 0 <= i < j < |t| && t[i].eintType == EintWkup && t[j].eintType == EintWkup ==>
       2 * t[i].eintOffset + t[i].nrPins <= 2 * t[j].eintOffset
       || 2 * t[j].eintOffset + t[j].nrPins <= 2 * t[i].eintOffset)
  }

  /** The 7880 ALIVE table lays out its wake-up banks "gpa0".."gpa3" on bits 0-7, 8-15, 16-23 and 24-28. */
  lemma Alive7880WakeBits()
    ensures WakeBitsLaidOut(Alive7880)
  {
  }

  /**
   * In a laid-out table every pin of a wake-up bank has its own bit of
   * the wake mask, below 32, so set_wake on it changes exactly that bit.
   */
  lemma WakeBitsDistinct(t: seq<TableBank>, i: nat, p: nat, j: nat, q: nat)
    requires WakeBitsLaidOut(t)
    requires i < |t| && j < |t| && t[i].eintType == EintWkup && t[j].eintType == EintWkup
    requires p < t[i].nrPins && q < t[j].nrPins
    ensures WakeBitIndex(t[i].eintOffset, p) < 32
    ensures WakeBitIndex(t[i].eintOffset, p) == WakeBitIndex(t[j].eintOffset, q) <==> i == j && p == q
  {
    if i < j {
      assert 2 * t[i].eintOffset + t[i].nrPins <= 2 * t[j].eintOffset
        || 2 * t[j].eintOffset + t[j].nrPins <= 2 * t[i].eintOffset;
    } else if j < i {
      assert 2 * t[j].eintOffset + t[j].nrPins <= 2 * t[i].eintOffset
        || 2 * t[i].eintOffset + t[i].nrPins <= 2 * t[j].eintOffset;
    }
  }
}
