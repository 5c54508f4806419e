/**
 * Transmit-power clamping and the RCPI value of a link measurement
 * report.
 *
 * `rrmGetMinOfMaxTxPower` takes the smaller of the regulatory maximum
 * and the AP's advertised power, both signed dBm values, and stores it
 * in an unsigned byte before clamping it into the RRM power caps: a
 * negative power wraps to a value of 128 or more and comes out as the
 * upper cap. `ClampedTxPower` is the signed clamp the function is
 * evidently meant to compute.
 */
module RrmPower {
  import opened RrmTypes

  /** `rrmGetMinOfMaxTxPower`, as written. */
  function MinOfMaxTxPower(c: RrmConsts, regMax: S8, apTxPower: S8): (r: Byte)
    ensures c.minTxPwrCap <= c.maxTxPwrCap ==> c.minTxPwrCap <= r <= c.maxTxPwrCap
    ensures c.minTxPwrCap <= ToU8(Min(regMax, apTxPower)) <= c.maxTxPwrCap ==>
      r == ToU8(Min(regMax, apTxPower))
  {
    var txPower := ToU8(Min(regMax, apTxPower));
    if c.minTxPwrCap <= txPower && txPower <= c.maxTxPwrCap then txPower
    else if txPower < c.minTxPwrCap then c.minTxPwrCap
    else c.maxTxPwrCap
  }

  /**
   * With a negative regulatory maximum, a positive lower cap and an upper
   * cap below 128, the as-written clamp returns the upper cap, while a
   * regulatory maximum of 0 gives the lower cap: lowering the regulatory
   * limit raises the power.
   */
  lemma NegativePowerRaisesClamp(c: RrmConsts)
    requires 0 < c.minTxPwrCap < c.maxTxPwrCap < 0x80
    ensures MinOfMaxTxPower(c, -1, 0x7F) == c.maxTxPwrCap
    ensures MinOfMaxTxPower(c, 0, 0x7F) == c.minTxPwrCap
    ensures MinOfMaxTxPower(c, -1, 0x7F) > MinOfMaxTxPower(c, 0, 0x7F)
  {
    assert ToU8(Min(-1, 0x7F)) == 0xFF;
  }

  /** The clamp of the signed minimum into the caps. */
  function ClampedTxPower(c: RrmConsts, regMax: S8, apTxPower: S8): (r: int)
    requires c.minTxPwrCap <= c.maxTxPwrCap
    ensures c.minTxPwrCap <= r <= c.maxTxPwrCap
    ensures c.minTxPwrCap <= Min(regMax, apTxPower) <= c.maxTxPwrCap ==> r == Min(regMax, apTxPower)
    ensures Min(regMax, apTxPower) < c.minTxPwrCap ==> r == c.minTxPwrCap
  {
    var txPower := Min(regMax, apTxPower);
    if c.minTxPwrCap <= txPower && txPower <= c.maxTxPwrCap then txPower
    else if txPower < c.minTxPwrCap then c.minTxPwrCap
    else c.maxTxPwrCap
  }

  /** The signed clamp never answers a lower limit with a higher power. */
  lemma ClampedTxPowerMonotone(c: RrmConsts, reg1: S8, reg2: S8, ap1: S8, ap2: S8)
    requires c.minTxPwrCap <= c.maxTxPwrCap
    requires reg1 <= reg2 && ap1 <= ap2
    ensures ClampedTxPower(c, reg1, ap1) <= ClampedTxPower(c, reg2, ap2)
  {
  }

  /** For non-negative powers the as-written clamp and the signed clamp agree. */
  lemma ClampAgreesOnNonNegative(c: RrmConsts, regMax: S8, apTxPower: S8)
    requires c.minTxPwrCap <= c.maxTxPwrCap
    requires 0 <= regMax && 0 <= apTxPower
    ensures MinOfMaxTxPower(c, regMax, apTxPower) == ClampedTxPower(c, regMax, apTxPower)
  {
  }

  /**
   * The RCPI branch of `rrmProcessLinkMeasurementRequest` (clause
   * 18.4.8.5 of IEEE 802.11k-2008): 0 at or below the low-RSSI bound,
   * the maximum above 0 dBm, and `CALCULATE_RCPI` of the RSSI in between.
   * `calcRcpi` stands for that macro.
   */
  function Rcpi(c: RrmConsts, rssi: S8, calcRcpi: int -> int): (r: int)
    ensures rssi <= c.rcpiLowRssi ==> r == 0
    ensures rssi > 0 && rssi > c.rcpiLowRssi ==> r == c.rcpiMax
    ensures c.rcpiLowRssi < rssi <= 0 ==> r == calcRcpi(rssi)
  {
    if rssi <= c.rcpiLowRssi then 0
    else if rssi <= 0 then calcRcpi(rssi)
    else c.rcpiMax
  }

  /** `calcRcpi` maps the measured range into [0, RCPI_MAX_VALUE] and does not decrease. */
  predicate RcpiCalcSound(c: RrmConsts, calcRcpi: int -> int)
  {
    (forall x :: c.rcpiLowRssi < x <= 0 ==> 0 <= calcRcpi(x) <= c.rcpiMax)
    && (forall x, y :: c.rcpiLowRssi < x <= y <= 0 ==> calcRcpi(x) <= calcRcpi(y))
  }

  /** With a sound `CALCULATE_RCPI`, the RCPI is a byte in range and grows with the RSSI. */
  lemma RcpiMonotone(c: RrmConsts, calcRcpi: int -> int, rssi1: S8, rssi2: S8)
    requires RcpiCalcSound(c, calcRcpi)
    requires rssi1 <= rssi2
    ensures 0 <= Rcpi(c, rssi1, calcRcpi) <= c.rcpiMax
    ensures Rcpi(c, rssi1, calcRcpi) <= Rcpi(c, rssi2, calcRcpi)
  {
    if c.rcpiLowRssi < rssi1 <= 0 {
      assert 0 <= calcRcpi(rssi1) <= c.rcpiMax;
    }
    if c.rcpiLowRssi < rssi2 <= 0 {
      assert 0 <= calcRcpi(rssi2) <= c.rcpiMax;
    }
  }
}
