/**
 * `rrmProcessBeaconReportXmit`: the beacon report SME hands back after
 * scanning, turned into a radio measurement report frame to the AP.
 *
 * One report entry is built per BSS description (at least
 * `RRM_BCN_RPT_MIN_RPT` when SME reports "no BSS info"). An entry carries
 * the token SME passed back, the beacon type, and, when the indication is
 * long enough, the regulatory class; the entries of present descriptions
 * also carry the scan result and, unless the reporting detail asks for
 * no elements, the fixed fields and the elements selected by
 * `rrmFillBeaconIes`. An empty report is sent at most once per request.
 *
 * Whether a description is present is remembered across entries: once
 * one is, every later entry is read as present, and an absent one after
 * it would be dereferenced as a null pointer. The descriptions SME passes
 * are therefore taken to be absent ones first and present ones after
 * them (`DescsOk`).
 */
module RrmXmit {
  import opened Optional
  import opened RrmTypes
  import opened RrmContext
  import opened RrmIes

  /** `tSirBeaconReportXmitInd`. */
  datatype XmitInd = XmitInd(
    bssId: MacAddr,
    uDialogToken: Byte,
    regClass: Byte,
    duration: U32,
    length: nat,
    numBssDesc: Byte,
    bssDescs: seq<Option<BssDesc>>,
    fMeasureDone: bool)

  /** How many report entries are built. */
  function NumDescs(c: RrmConsts, numBssDesc: Byte): Byte
  {
    if numBssDesc == c.bcnRptNoBssInfo then c.bcnRptMinRpt else numBssDesc
  }

  /** Whether a report frame is sent for this indication. */
  predicate Sends(cur: RrmReq, ind: XmitInd)
  {
    ind.numBssDesc != 0 || cur.sendEmptyBcnRpt
  }

  /** The descriptions SME passes: enough of them, with no absent one after a present one. */
  predicate DescsOk(c: RrmConsts, ind: XmitInd)
  {
    var n := NumDescs(c, ind.numBssDesc);
    && n <= |ind.bssDescs|
    && (forall i, j :: 0 <= i < j < n && ind.bssDescs[i].Some? ==> ind.bssDescs[j].Some?)
  }

  /** The element filter of the current request: its requested ids, or all elements without a list. */
  function RequestedFilter(cur: RrmReq, stray: Byte): Filter
  {
    match cur.reqIes
    case None => FilterOf(None, 0, stray)
    case Some(ids) => FilterOf(Some(ids), |ids|, stray)
  }

  /** The element filter of a reporting detail: requested elements for 1, all elements otherwise. */
  function DetailFilter(cur: RrmReq, stray: Byte): Filter
  {
    if cur.reportingDetail == DetailAllFfReqIe then RequestedFilter(cur, stray) else AllIes
  }

  /** The bytes `rrmFillBeaconIes` puts in front of an entry's IE buffer. */
  function ReportIes(d: BssDesc, f: Filter, maxIes: Byte): (r: seq<Byte>)
    requires 12 <= maxIes
    ensures 12 <= |r| <= maxIes
  {
    FillBound(BcnIes(d), f, maxIes, 12);
    FixedFields(d) + Fill(BcnIes(d), f, maxIes, 12)
  }

  /** The beacon-report body built from a present description. */
  function ScanBody(c: RrmConsts, cur: RrmReq, ind: XmitInd, d: BssDesc, stray: Byte, msToTu: int -> int): (b: BeaconReport)
    requires 12 <= c.beaconReportMaxIes
  {
    var b1 := ZeroBeaconReport(c.beaconReportMaxIes).(
      regClass := ind.regClass, channel := d.channelId, measStartTime := d.startTSF,
      measDuration := msToTu(ind.duration), phyType := d.nwType, bcnProbeRsp := 1,
      rsni := d.sinr, rcpi := d.rssi, antennaId := 0, parentTSF := d.parentTSF, bssid := d.bssId);
    if cur.reportingDetail == DetailNoFfIe then b1
    else
      var ies := ReportIes(d, DetailFilter(cur, stray), c.beaconReportMaxIes);
      b1.(numIes := |ies|, ies := ies + b1.ies[|ies|..])
  }

  /** The report entry of one description. */
  function XmitEntry(c: RrmConsts, cur: RrmReq, ind: XmitInd, d: Option<BssDesc>, stray: Byte, msToTu: int -> int): MeasureReport
    requires 12 <= c.beaconReportMaxIes
  {
    var base := ZeroReport(c.beaconReportMaxIes).(token := ind.uDialogToken, mtype := c.beaconType);
    if ind.length < c.xmitIndSize then base
    else if d.None? then base.(beacon := base.beacon.(regClass := ind.regClass))
    else base.(beacon := ScanBody(c, cur, ind, d.value, stray, msToTu))
  }

  /** The report entries of an indication, one per description. */
  function XmitEntries(c: RrmConsts, cur: RrmReq, ind: XmitInd, stray: Byte, msToTu: int -> int): seq<MeasureReport>
    requires DescsOk(c, ind) && 12 <= c.beaconReportMaxIes
  {
    seq(NumDescs(c, ind.numBssDesc), k requires 0 <= k < NumDescs(c, ind.numBssDesc) =>
      XmitEntry(c, cur, ind, ind.bssDescs[k], stray, msToTu))
  }

  /**
   * Every entry is an accepted beacon report carrying the token SME passed
   * back, and there is one entry per description, at least the minimum
   * count when SME reports "no BSS info".
   */
  lemma XmitEntriesShape(c: RrmConsts, cur: RrmReq, ind: XmitInd, stray: Byte, msToTu: int -> int)
    requires DescsOk(c, ind) && 12 <= c.beaconReportMaxIes
    ensures |XmitEntries(c, cur, ind, stray, msToTu)| == NumDescs(c, ind.numBssDesc)
    ensures ind.numBssDesc == c.bcnRptNoBssInfo ==> |XmitEntries(c, cur, ind, stray, msToTu)| == c.bcnRptMinRpt
    ensures ind.numBssDesc != c.bcnRptNoBssInfo ==> |XmitEntries(c, cur, ind, stray, msToTu)| == ind.numBssDesc
    ensures forall m :: m in XmitEntries(c, cur, ind, stray, msToTu) ==>
      m.token == ind.uDialogToken && m.mtype == c.beaconType && !m.refused && !m.incapable
  {
    var es := XmitEntries(c, cur, ind, stray, msToTu);
    forall m | m in es
      ensures m.token == ind.uDialogToken && m.mtype == c.beaconType && !m.refused && !m.incapable
    {
      var k :| 0 <= k < |es| && es[k] == m;
      var d := ind.bssDescs[k];
      assert m == XmitEntry(c, cur, ind, d, stray, msToTu);
    }
  }

  /**
   * The elements of an entry built from a present description: the fixed
   * fields, then a well-formed run of elements of the BSS's own list, in
   * its order, each passing the reporting detail's filter, within the IE
   * buffer; none at all for detail 0.
   */
  lemma EntryElements(c: RrmConsts, cur: RrmReq, ind: XmitInd, d: BssDesc, stray: Byte, msToTu: int -> int)
    requires 12 <= c.beaconReportMaxIes && c.xmitIndSize <= ind.length
    ensures var b := XmitEntry(c, cur, ind, Some(d), stray, msToTu).beacon;
      && b.bssid == d.bssId && b.channel == d.channelId && b.regClass == ind.regClass
      && |b.ies| == c.beaconReportMaxIes
      && (cur.reportingDetail == DetailNoFfIe ==> b.numIes == 0)
      && (cur.reportingDetail != DetailNoFfIe ==>
            && 12 <= b.numIes <= c.beaconReportMaxIes
            && b.ies[..12] == FixedFields(d)
            && WellFormedIes(b.ies[12..b.numIes])
            && AllWanted(b.ies[12..b.numIes], DetailFilter(cur, stray))
            && IsSubseq(IeList(b.ies[12..b.numIes]), IeList(BcnIes(d))))
  {
    var b := XmitEntry(c, cur, ind, Some(d), stray, msToTu).beacon;
    if cur.reportingDetail != DetailNoFfIe {
      var f := DetailFilter(cur, stray);
      var fill := Fill(BcnIes(d), f, c.beaconReportMaxIes, 12);
      var ies := ReportIes(d, f, c.beaconReportMaxIes);
      assert b.ies[..b.numIes] == ies == FixedFields(d) + fill;
      assert b.ies[12..b.numIes] == fill;
      FillSelects(BcnIes(d), f, c.beaconReportMaxIes, 12);
    }
  }

  /** With all elements asked for and room for them, an entry carries the BSS's whole element list. */
  lemma EntryAllElements(c: RrmConsts, cur: RrmReq, ind: XmitInd, d: BssDesc, stray: Byte, msToTu: int -> int)
    requires 12 <= c.beaconReportMaxIes && c.xmitIndSize <= ind.length
    requires cur.reportingDetail != DetailNoFfIe && cur.reportingDetail != DetailAllFfReqIe
    requires 12 + |BcnIes(d)| < c.beaconReportMaxIes
    ensures var b := XmitEntry(c, cur, ind, Some(d), stray, msToTu).beacon;
      b.numIes == 12 + |BcnIes(d)| && b.ies[..b.numIes] == FixedFields(d) + BcnIes(d)
  {
    FillAllFits(BcnIes(d), c.beaconReportMaxIes, 12);
  }

  /** One entry, built as the loop body does: `flag` is the remembered presence of a description. */
  method BuildEntry(c: RrmConsts, cur: RrmReq, ind: XmitInd, d: Option<BssDesc>, flag: bool, stray: Byte, msToTu: int -> int)
      returns (m: MeasureReport)
    requires flag == d.Some?
    requires 12 <= c.beaconReportMaxIes
    ensures m == XmitEntry(c, cur, ind, d, stray, msToTu)
  {
    m := ZeroReport(c.beaconReportMaxIes);
    m := m.(token := ind.uDialogToken, refused := false, incapable := false, mtype := c.beaconType);
    if ind.length >= c.xmitIndSize {
      var b := m.beacon.(regClass := ind.regClass);
      if flag {
        var bd := d.value;
        b := b.(channel := bd.channelId, measStartTime := bd.startTSF, measDuration := msToTu(ind.duration),
                phyType := bd.nwType, bcnProbeRsp := 1, rsni := bd.sinr, rcpi := bd.rssi, antennaId := 0,
                parentTSF := bd.parentTSF, bssid := bd.bssId);
      }
      if cur.reportingDetail == DetailNoFfIe {
      } else if flag {
        var buf := new Byte[c.beaconReportMaxIes](_ => 0);
        var eids: Option<seq<Byte>> := None;
        var numEids: Byte := 0;
        if cur.reportingDetail == DetailAllFfReqIe && cur.reqIes.Some? {
          eids, numEids := Some(cur.reqIes.value), |cur.reqIes.value|;
        }
        var numIes := FillBeaconIes(buf, 0, c.beaconReportMaxIes, eids, numEids, stray, d);
        assert buf[..] == buf[..numIes] + buf[numIes..];
        b := b.(numIes := numIes, ies := buf[..]);
      }
      m := m.(beacon := b);
    }
  }

  /** The report entries, built in a zeroed array of `NumDescs` entries. */
  method BuildEntries(c: RrmConsts, cur: RrmReq, ind: XmitInd, stray: Byte, msToTu: int -> int)
      returns (reports: seq<MeasureReport>)
    requires DescsOk(c, ind) && 12 <= c.beaconReportMaxIes
    ensures reports == XmitEntries(c, cur, ind, stray, msToTu)
  {
    var n := NumDescs(c, ind.numBssDesc);
    var pReport := new MeasureReport[n](_ => ZeroReport(c.beaconReportMaxIes));
    var flag := false;
    var k := 0;
    while k < n
      invariant 0 <= k <= n
      invariant flag == (k > 0 && ind.bssDescs[k - 1].Some?)
      invariant forall j :: 0 <= j < k ==> pReport[j] == XmitEntry(c, cur, ind, ind.bssDescs[j], stray, msToTu)
    {
      if ind.bssDescs[k].Some? {
        flag := true;
      }
      var m := BuildEntry(c, cur, ind, ind.bssDescs[k], flag, stray, msToTu);
      pReport[k] := m;
      k := k + 1;
    }
    reports := pReport[..];
  }

  /**
   * `rrmProcessBeaconReportXmit`. `ind` is None for a NULL indication;
   * `sessionFound` is whether a session exists for its BSSID and `allocOk`
   * whether the report array could be allocated.
   */
  method ProcessBeaconReportXmit(ctx: RrmPeContext, c: RrmConsts, ind: Option<XmitInd>, sessionFound: bool,
                                 allocOk: bool, stray: Byte, msToTu: int -> int)
      returns (status: SirStatus)
    requires ind.Some? ==> DescsOk(c, ind.value)
    requires 12 <= c.beaconReportMaxIes
    modifies ctx`currentReq, ctx`sent
    ensures ind.None? || old(ctx.currentReq).None? ==>
      status == SirFailure && ctx.currentReq == old(ctx.currentReq) && ctx.sent == old(ctx.sent)
    ensures ind.Some? && old(ctx.currentReq).Some? ==>
      var cur := old(ctx.currentReq).value;
      var i := ind.value;
      && (Sends(cur, i) && !(sessionFound && allocOk) ==>
            status == SirFailure && ctx.currentReq == old(ctx.currentReq) && ctx.sent == old(ctx.sent))
      && (Sends(cur, i) && sessionFound && allocOk ==>
            && status == SirSuccess
            && ctx.sent == old(ctx.sent) + [RadioMeasureReportFrame(cur.dialogToken, XmitEntries(c, cur, i, stray, msToTu), i.bssId)]
            && ctx.currentReq == (if i.fMeasureDone then None else Some(cur.(sendEmptyBcnRpt := false))))
      && (!Sends(cur, i) ==>
            && status == SirSuccess && ctx.sent == old(ctx.sent)
            && ctx.currentReq == (if i.fMeasureDone then None else old(ctx.currentReq)))
  {
    if ind.None? || ctx.currentReq.None? {
      return SirFailure;
    }
    var i := ind.value;
    var cur := ctx.currentReq.value;
    if Sends(cur, i) {
      if !sessionFound || !allocOk {
        return SirFailure;
      }
      var reports := BuildEntries(c, cur, i, stray, msToTu);
      ctx.sent := ctx.sent + [RadioMeasureReportFrame(cur.dialogToken, reports, i.bssId)];
      ctx.currentReq := Some(cur.(sendEmptyBcnRpt := false));
    }
    if i.fMeasureDone {
      var _ := ctx.Cleanup();
    }
    return SirSuccess;
  }
}
