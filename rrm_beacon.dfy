/**
 * `rrmProcessBeaconReportReq`: admission of a beacon measurement request
 * from the AP and the beacon report request it becomes for SME.
 *
 * A request with a non-zero reporting condition is not supported. A
 * requested duration above the maximum the station advertised (clause
 * 11.10.8.1 and Table 7-29g of IEEE 802.11k-2008:
 * `2^(nonOperatingChanMax - 4)` beacon intervals) is refused when it is
 * mandatory and cut to that maximum otherwise. The channel lists of the
 * AP channel reports are summed into a byte and copied one after the
 * other into the fixed-size channel array of the indication, stopping at
 * the first list that does not fit. `SYS_TU_TO_MS` is the parameter
 * `tuToMs`.
 */
module RrmBeacon {
  import opened Optional
  import opened RrmTypes
  import opened RrmContext
  import RrmIes

  function Pow2(k: nat): (r: nat)
    ensures r >= 1
  {
    if k == 0 then 1 else 2 * Pow2(k - 1)
  }

  /**
   * The maximum measurement duration in TUs: `beaconInterval` shifted by
   * `nonOperatingChanMax - 4`, the product truncated to 16 bits as
   * `maxMeasduration` is.
   */
  function MaxMeasDuration(nonOpMax: U3, beaconInterval: U16): (r: U16)
  {
    var e := nonOpMax - 4;
    if e >= 0 then ToU16(Pow2(e) * beaconInterval) else Shrink(beaconInterval, Pow2(-e))
  }

  /** `beaconInterval / maxDuration`, which stays a 16-bit value. */
  function Shrink(bi: U16, d: nat): (r: U16)
    requires d >= 1
    ensures r == bi / d
  {
    DivLe(bi, d);
    bi / d
  }

  lemma DivLe(x: nat, d: nat)
    requires d >= 1
    ensures x / d <= x
  {
    var q := x / d;
    assert x == d * q + x % d;
    assert d * q == q + (d - 1) * q;
  }

  /** The duration grows by one step of the channel maximum, while the product fits 16 bits. */
  lemma MaxMeasDurationStep(n: U3, bi: U16)
    requires n < 7 && (n + 1 >= 4 ==> Pow2(n + 1 - 4) * bi < 0x1_0000)
    ensures MaxMeasDuration(n, bi) <= MaxMeasDuration(n + 1, bi)
  {
    if n >= 4 {
      var m := Pow2(n - 4) * bi;
      assert Pow2(n + 1 - 4) * bi == 2 * m;
      assert MaxMeasDuration(n, bi) == m;
    } else if n == 3 {
      assert MaxMeasDuration(3, bi) == bi / 2 && MaxMeasDuration(4, bi) == bi;
    } else if n == 2 {
      assert MaxMeasDuration(2, bi) == bi / 4 && MaxMeasDuration(3, bi) == bi / 2;
    } else if n == 1 {
      assert MaxMeasDuration(1, bi) == bi / 8 && MaxMeasDuration(2, bi) == bi / 4;
    } else {
      assert MaxMeasDuration(0, bi) == bi / 16 && MaxMeasDuration(1, bi) == bi / 8;
    }
  }

  /** A larger advertised channel maximum never shortens the maximum duration, while the product fits. */
  lemma {:induction false} MaxMeasDurationMonotone(n1: U3, n2: U3, bi: U16)
    requires n1 <= n2 && (n2 >= 4 ==> Pow2(n2 - 4) * bi < 0x1_0000)
    ensures MaxMeasDuration(n1, bi) <= MaxMeasDuration(n2, bi)
    decreases n2 - n1
  {
    if n1 < n2 {
      if n2 - 1 >= 4 {
        assert Pow2(n2 - 4) == 2 * Pow2(n2 - 1 - 4);
      }
      MaxMeasDurationMonotone(n1, n2 - 1, bi);
      MaxMeasDurationStep(n2 - 1, bi);
    }
  }

  /** At the channel maximum 4 the limit is one beacon interval; at 3, which `rrmInitialize` sets, half of one. */
  lemma MaxMeasDurationAnchors(bi: U16)
    ensures MaxMeasDuration(4, bi) == bi
    ensures MaxMeasDuration(InitialCaps.nonOperatingChanMax, bi) == bi / 2
  {
    assert Pow2(1) == 2;
  }

  /** What the admission checks decide: measure for `measDuration` TUs, or stop with `status`. */
  datatype Verdict = Admit(measDuration: U16) | Deny(status: RrmStatus)

  function Admission(nonOpMax: U3, beaconInterval: U16, r: MeasurementRequestIe): Verdict
  {
    var b := r.beacon;
    if b.reportingCondition.Some? && b.reportingCondition.value != 0 then Deny(RrmIncapable)
    else
      var maxDur := MaxMeasDuration(nonOpMax, beaconInterval);
      if maxDur < b.measDuration then (if r.durationMandatory then Deny(RrmRefused) else Admit(maxDur))
      else Admit(b.measDuration)
  }

  /**
   * The admission rule: a reporting condition other than 0 makes the
   * station incapable; a duration above the maximum is refused exactly
   * when it is mandatory; an admitted duration is the requested one cut
   * to the maximum.
   */
  lemma AdmissionRule(nonOpMax: U3, bi: U16, r: MeasurementRequestIe)
    ensures var a := Admission(nonOpMax, bi, r);
      && (a == Deny(RrmIncapable) <==> r.beacon.reportingCondition.Some? && r.beacon.reportingCondition.value != 0)
      && (a == Deny(RrmRefused) <==>
            !(r.beacon.reportingCondition.Some? && r.beacon.reportingCondition.value != 0)
            && MaxMeasDuration(nonOpMax, bi) < r.beacon.measDuration && r.durationMandatory)
      && (a.Admit? ==> a.measDuration == Min(r.beacon.measDuration, MaxMeasDuration(nonOpMax, bi)))
  {
  }

  /** The reporting detail cached for the report: the requested one, or all fixed fields and elements. */
  function ReportingDetail(b: BeaconRequest): Byte
  {
    if b.reportingDetail.Some? then b.reportingDetail.value else DetailAllFfIe
  }

  /** The current request after an admitted request was cached in it, with or without its token. */
  function Cached(cur: RrmReq, r: MeasurementRequestIe, withToken: bool): RrmReq
  {
    cur.(reportingDetail := ReportingDetail(r.beacon),
         reqIes := if r.beacon.requestedEids.Some? then Some(r.beacon.requestedEids.value) else cur.reqIes,
         token := if withToken then r.measurementToken else cur.token)
  }

  // ---------------------------------------------------------------------
  // Channel lists
  // ---------------------------------------------------------------------

  /** The total number of channels in the lists. */
  function SumLens(reports: seq<ByteList>): nat
  {
    if |reports| == 0 then 0 else SumLens(reports[..|reports| - 1]) + |reports[|reports| - 1]|
  }

  /** The lists one after the other. */
  function Flatten(reports: seq<ByteList>): seq<Byte>
  {
    if |reports| == 0 then [] else Flatten(reports[..|reports| - 1]) + reports[|reports| - 1]
  }

  /** How many lists the copy takes, in order, into `room` bytes: up to the first that does not fit. */
  function CopiedCount(reports: seq<ByteList>, room: nat): (k: nat)
    ensures k <= |reports|
  {
    if |reports| == 0 || |reports[0]| > room then 0
    else 1 + CopiedCount(reports[1..], room - |reports[0]|)
  }

  /** The channels the copy takes into `room` bytes. */
  function Copied(reports: seq<ByteList>, room: nat): (r: seq<Byte>)
    ensures |r| <= room
  {
    if |reports| == 0 || |reports[0]| > room then []
    else reports[0] + Copied(reports[1..], room - |reports[0]|)
  }

  lemma {:induction false} FlattenLength(reports: seq<ByteList>)
    ensures |Flatten(reports)| == SumLens(reports)
    decreases |reports|
  {
    if |reports| > 0 {
      FlattenLength(reports[..|reports| - 1]);
    }
  }

  lemma {:induction false} SumLensPrefix(reports: seq<ByteList>, k: nat)
    requires k <= |reports|
    ensures SumLens(reports[..k]) <= SumLens(reports)
    decreases |reports|
  {
    if k < |reports| {
      assert reports[..|reports| - 1][..k] == reports[..k];
      SumLensPrefix(reports[..|reports| - 1], k);
    } else {
      assert reports[..k] == reports;
    }
  }

  /** The `num_channels` loop: the channel count of all lists, in a byte. */
  method NumChannels(reports: seq<ByteList>) returns (n: Byte)
    ensures n == ToU8(SumLens(reports))
  {
    n := 0;
    var i := 0;
    while i < |reports|
      invariant 0 <= i <= |reports|
      invariant n == ToU8(SumLens(reports[..i]))
    {
      assert reports[..i + 1][..i] == reports[..i];
      ByteSumStep(SumLens(reports[..i]), |reports[i]|);
      n := ToU8(n + |reports[i]|);
      i := i + 1;
    }
    assert reports[..i] == reports;
  }

  /** One list copied behind the lists before it, on values. */
  lemma CopyStep(reports: seq<ByteList>, room: nat, k: nat, ctr: nat, written: seq<Byte>, total: seq<Byte>)
    requires k < |reports| && ctr + |reports[k]| <= room
    requires written == Flatten(reports[..k]) && ctr == |written|
    requires written + Copied(reports[k..], room - ctr) == total
    requires CopiedCount(reports, room) == k + CopiedCount(reports[k..], room - ctr)
    ensures written + reports[k] == Flatten(reports[..k + 1])
    ensures written + reports[k] + Copied(reports[k + 1..], room - (ctr + |reports[k]|)) == total
    ensures CopiedCount(reports, room) == k + 1 + CopiedCount(reports[k + 1..], room - (ctr + |reports[k]|))
  {
    assert reports[k..][1..] == reports[k + 1..];
    assert reports[..k + 1][..k] == reports[..k];
    var rest := Copied(reports[k + 1..], room - (ctr + |reports[k]|));
    assert written + reports[k] + rest == written + (reports[k] + rest);
  }

  /**
   * The channel-list copy: the lists are copied contiguously and in order
   * to the front of `chLst` up to the first that would overflow it, and
   * nothing is written past its end. `k` lists and `ctr` bytes are copied.
   */
  method CopyChannelList(chLst: array<Byte>, reports: seq<ByteList>) returns (k: nat, ctr: nat)
    requires |reports| < 0x100 && chLst.Length < 0x1_0000
    modifies chLst
    ensures k == CopiedCount(reports, chLst.Length)
    ensures ctr == |Flatten(reports[..k])| <= chLst.Length
    ensures Flatten(reports[..k]) == Copied(reports, chLst.Length)
    ensures k < |reports| ==> ctr + |reports[k]| > chLst.Length
    ensures chLst[..] == Copied(reports, chLst.Length) + old(chLst[..])[ctr..]
  {
    ghost var old0 := chLst[..];
    ghost var total := Copied(reports, chLst.Length);
    ghost var written: seq<Byte> := [];
    ctr := 0;
    k := 0;
    assert reports[k..] == reports;
    while k < |reports|
      invariant k <= |reports| && ctr <= chLst.Length
      invariant written == Flatten(reports[..k]) && ctr == |written|
      invariant chLst[..] == [] + written + old0[ctr..]
      invariant written + Copied(reports[k..], chLst.Length - ctr) == total
      invariant CopiedCount(reports, chLst.Length) == k + CopiedCount(reports[k..], chLst.Length - ctr)
    {
      var len := |reports[k]|;
      if ctr + len > chLst.Length {
        break;
      }
      CopyStep(reports, chLst.Length, k, ctr, written, total);
      RrmIes.CopyBytes(chLst, ctr, reports[k]);
      RrmIes.BufferAfterCopy([], written, reports[k], old0, chLst[..]);
      written := written + reports[k];
      ctr := ctr + len;
      k := k + 1;
    }
    if k == |reports| {
      assert reports[k..] == [];
    }
  }

  /** The channel list of the indication: the copied channels, the rest of the array zero. */
  function ChannelListOf(c: RrmConsts, reports: seq<ByteList>): ChannelList
  {
    var copied := Copied(reports, c.chanListSize);
    ChannelList(ToU8(SumLens(reports)), copied + seq(c.chanListSize - |copied|, _ => 0))
  }

  /** The channel count covers the lists that were not copied as well. */
  lemma NumChannelsCountsAll(c: RrmConsts, reports: seq<ByteList>)
    requires CopiedCount(reports, c.chanListSize) < |reports|
    requires |Flatten(reports[..CopiedCount(reports, c.chanListSize)])|
      + |reports[CopiedCount(reports, c.chanListSize)]| > c.chanListSize
    ensures SumLens(reports) > c.chanListSize
  {
    var k := CopiedCount(reports, c.chanListSize);
    assert reports[..k + 1][..k] == reports[..k];
    FlattenLength(reports[..k]);
    SumLensPrefix(reports, k + 1);
  }

  /** `tSirBeaconReportReqInd` for an admitted request measuring `measDuration` TUs. */
  function BeaconReqInd(c: RrmConsts, bssId: MacAddr, r: MeasurementRequestIe, measDuration: U16,
                        tuToMs: int -> int): BeaconReportReqInd
  {
    var b := r.beacon;
    BeaconReportReqInd(bssId, r.measurementToken, tuToMs(b.randomization), b.regClass, b.channel,
                       tuToMs(measDuration), b.measMode, b.bssid,
                       if b.ssid.Some? then Some(b.ssid.value) else None,
                       ChannelListOf(c, b.apChannelReports))
  }

  /**
   * What the allocations and the message post of one beacon request come
   * to; `failAllocOk` is the allocation of the refusal or incapability
   * report sent when the request fails.
   */
  datatype BeaconEnv = BeaconEnv(iesAllocOk: bool, indAllocOk: bool, postStatus: RrmStatus, failAllocOk: bool)

  /**
   * `rrmProcessBeaconReportReq`, on the request installed as current.
   * A denied request changes nothing. An admitted one caches its
   * reporting detail, then its element-id list, then its token in the
   * current request, stopping with eRRM_FAILURE where an allocation
   * fails, and otherwise hands SME the indication; the result is what
   * posting it returned.
   */
  method ProcessBeaconReportReq(ctx: RrmPeContext, c: RrmConsts, r: MeasurementRequestIe, session: PeSession,
                                env: BeaconEnv, tuToMs: int -> int)
      returns (status: RrmStatus)
    requires ctx.currentReq.Some?
    requires |r.beacon.apChannelReports| < 0x100 && c.chanListSize < 0x1_0000
    modifies ctx`currentReq, ctx`sent
    ensures Admission(ctx.caps.nonOperatingChanMax, session.beaconInterval, r).Deny? ==>
      && status == Admission(ctx.caps.nonOperatingChanMax, session.beaconInterval, r).status
      && ctx.currentReq == old(ctx.currentReq) && ctx.sent == old(ctx.sent)
    ensures Admission(ctx.caps.nonOperatingChanMax, session.beaconInterval, r).Admit? ==>
      && ctx.currentReq.Some?
      && (r.beacon.requestedEids.Some? && !env.iesAllocOk ==>
            status == RrmFailure && ctx.sent == old(ctx.sent)
            && ctx.currentReq.value == old(ctx.currentReq.value).(reportingDetail := ReportingDetail(r.beacon)))
      && ((r.beacon.requestedEids.None? || env.iesAllocOk) && !env.indAllocOk ==>
            status == RrmFailure && ctx.sent == old(ctx.sent)
            && ctx.currentReq.value == Cached(old(ctx.currentReq.value), r, false))
      && ((r.beacon.requestedEids.None? || env.iesAllocOk) && env.indAllocOk ==>
            status == env.postStatus
            && ctx.currentReq.value == Cached(old(ctx.currentReq.value), r, true)
            && ctx.sent == old(ctx.sent) + [SmeBeaconReportReq(BeaconReqInd(c, session.bssId, r,
                 Admission(ctx.caps.nonOperatingChanMax, session.beaconInterval, r).measDuration, tuToMs))])
  {
    var b := r.beacon;
    if b.reportingCondition.Some? && b.reportingCondition.value != 0 {
      return RrmIncapable;
    }
    var maxMeasDuration := MaxMeasDuration(ctx.caps.nonOperatingChanMax, session.beaconInterval);
    var measDuration := b.measDuration;
    if maxMeasDuration < measDuration {
      if r.durationMandatory {
        return RrmRefused;
      }
      measDuration := maxMeasDuration;
    }
    ghost var cur := ctx.currentReq.value;
    ctx.currentReq := Some(ctx.currentReq.value.(reportingDetail := ReportingDetail(b)));
    if b.requestedEids.Some? {
      if !env.iesAllocOk {
        return RrmFailure;
      }
      ctx.currentReq := Some(ctx.currentReq.value.(reqIes := Some(b.requestedEids.value)));
    }
    var numChannels := NumChannels(b.apChannelReports);
    if !env.indAllocOk {
      return RrmFailure;
    }
    var ssid := if b.ssid.Some? then Some(b.ssid.value) else None;
    ctx.currentReq := Some(ctx.currentReq.value.(token := r.measurementToken));
    var chLst := new Byte[c.chanListSize](_ => 0);
    assert chLst[..] == seq(c.chanListSize, _ => 0);
    var k, ctr := CopyChannelList(chLst, b.apChannelReports);
    assert chLst[..] == ChannelListOf(c, b.apChannelReports).channelNumber;
    var ind := BeaconReportReqInd(session.bssId, r.measurementToken, tuToMs(b.randomization), b.regClass,
                                  b.channel, tuToMs(measDuration), b.measMode, b.bssid, ssid,
                                  ChannelList(numChannels, chLst[..]));
    ctx.sent := ctx.sent + [SmeBeaconReportReq(ind)];
    status := env.postStatus;
  }
}
