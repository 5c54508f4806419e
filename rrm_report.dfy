/**
 * `rrmProcessRadioMeasurementRequest` and `rrmProcessBeaconRequestFailure`:
 * the reply to a radio measurement request from the AP.
 *
 * A frame without measurement requests, or one asking for repetitions,
 * is answered with a single incapable report. Otherwise each request is
 * looked at in turn: the first beacon request while none is pending
 * becomes the current request and is handed on to SME; a beacon request
 * while one is pending, including one started earlier in the same frame,
 * is refused; LCI, civic-location and fine-timing requests are left to
 * user space; any other type is answered as incapable. The report array
 * is allocated when the first report is needed, with room for the
 * requests not yet looked at.
 */
module RrmReport {
  import opened Optional
  import opened RrmTypes
  import opened RrmContext
  import RrmBeacon

  /** A zeroed report entry for a request that is refused. */
  function RefusedReport(c: RrmConsts, r: MeasurementRequestIe): MeasureReport
  {
    ZeroReport(c.beaconReportMaxIes).(refused := true, mtype := c.beaconType, token := r.measurementToken)
  }

  /** A zeroed report entry for a request the station cannot serve. */
  function IncapableReport(c: RrmConsts, r: MeasurementRequestIe): MeasureReport
  {
    ZeroReport(c.beaconReportMaxIes).(incapable := true, mtype := r.measurementType, token := r.measurementToken)
  }

  /** Whether the type is one of those handed to user space. */
  predicate UserSpaceType(c: RrmConsts, t: Byte)
  {
    t == c.lciType || t == c.civicType || t == c.ftmType
  }

  /** The report entries one request adds, given whether a beacon request is pending. */
  function Emitted(c: RrmConsts, r: MeasurementRequestIe, pending: bool): seq<MeasureReport>
  {
    if r.measurementType == c.beaconType then (if pending then [RefusedReport(c, r)] else [])
    else if UserSpaceType(c, r.measurementType) then []
    else [IncapableReport(c, r)]
  }

  /** Whether a beacon request is pending after this request. */
  function PendingAfter(c: RrmConsts, r: MeasurementRequestIe, pending: bool): bool
  {
    pending || r.measurementType == c.beaconType
  }

  /** The report entries of a list of requests, in order. */
  function Reports(c: RrmConsts, reqs: seq<MeasurementRequestIe>, pending: bool): seq<MeasureReport>
  {
    if |reqs| == 0 then []
    else Emitted(c, reqs[0], pending) + Reports(c, reqs[1..], PendingAfter(c, reqs[0], pending))
  }

  /** Whether some request of the list is a beacon request. */
  predicate HasBeacon(c: RrmConsts, reqs: seq<MeasurementRequestIe>)
  {
    exists j :: 0 <= j < |reqs| && reqs[j].measurementType == c.beaconType
  }

  /** The index of the first beacon request of the list. */
  function FirstBeacon(c: RrmConsts, reqs: seq<MeasurementRequestIe>): (j: nat)
    requires HasBeacon(c, reqs)
    ensures j < |reqs| && reqs[j].measurementType == c.beaconType
    ensures forall k :: 0 <= k < j ==> reqs[k].measurementType != c.beaconType
    decreases |reqs|
  {
    if reqs[0].measurementType == c.beaconType then 0
    else
      var k :| 0 <= k < |reqs| && reqs[k].measurementType == c.beaconType;
      assert reqs[1..][k - 1] == reqs[k];
      1 + FirstBeacon(c, reqs[1..])
  }

  /** A report entry the loop can produce: a refused beacon report or an incapable report of an unhandled type. */
  predicate LoopReport(c: RrmConsts, m: MeasureReport)
  {
    || (m.refused && !m.incapable && m.mtype == c.beaconType)
    || (m.incapable && !m.refused && m.mtype != c.beaconType && !UserSpaceType(c, m.mtype))
  }

  /**
   * There is at most one entry per request, each entry is a refused
   * beacon report or an incapable report of a type the station does not
   * handle and carries the token and type of a request of the frame,
   * and with no beacon request pending the first beacon request is never
   * refused.
   */
  lemma {:induction false} ReportsShape(c: RrmConsts, reqs: seq<MeasurementRequestIe>, pending: bool)
    ensures |Reports(c, reqs, pending)| <= |reqs|
    ensures forall m :: m in Reports(c, reqs, pending) ==> LoopReport(c, m)
    ensures forall m :: m in Reports(c, reqs, pending) ==>
      exists r :: r in reqs && m.token == r.measurementToken && m.mtype == r.measurementType
    ensures !pending && |reqs| > 0 && reqs[0].measurementType == c.beaconType ==>
      Reports(c, reqs, pending) == Reports(c, reqs[1..], true)
    decreases |reqs|
  {
    if |reqs| > 0 {
      ReportsShape(c, reqs[1..], PendingAfter(c, reqs[0], pending));
      var e := Emitted(c, reqs[0], pending);
      var rest := Reports(c, reqs[1..], PendingAfter(c, reqs[0], pending));
      forall m | m in e + rest
        ensures LoopReport(c, m)
        ensures exists r :: r in reqs && m.token == r.measurementToken && m.mtype == r.measurementType
      {
        if m in e {
          assert m == e[0];
          assert reqs[0] in reqs;
        } else {
          var r :| r in reqs[1..] && m.token == r.measurementToken && m.mtype == r.measurementType;
          assert r in reqs;
        }
      }
    }
  }

  /** With a beacon request pending, every beacon request of the frame is refused. */
  lemma {:induction false} PendingRefusesAll(c: RrmConsts, reqs: seq<MeasurementRequestIe>)
    ensures |Reports(c, reqs, true)| == |reqs| - UserSpaceCount(c, reqs)
    decreases |reqs|
  {
    if |reqs| > 0 {
      PendingRefusesAll(c, reqs[1..]);
    }
  }

  /** How many requests are of the types handed to user space. */
  function UserSpaceCount(c: RrmConsts, reqs: seq<MeasurementRequestIe>): nat
  {
    if |reqs| == 0 then 0
    else
      var here := if reqs[0].measurementType != c.beaconType && UserSpaceType(c, reqs[0].measurementType) then 1 else 0;
      here + UserSpaceCount(c, reqs[1..])
  }

  /** One request of the loop, on values: the entries written so far and the pending flag after it. */
  lemma ReportsStep(c: RrmConsts, reqs: seq<MeasurementRequestIe>, i: nat, pending: bool,
                    written: seq<MeasureReport>, total: seq<MeasureReport>,
                    written2: seq<MeasureReport>, pending2: bool)
    requires i < |reqs|
    requires written + Reports(c, reqs[i..], pending) == total
    requires written2 == written + Emitted(c, reqs[i], pending) && pending2 == PendingAfter(c, reqs[i], pending)
    ensures written2 + Reports(c, reqs[i + 1..], pending2) == total
  {
    assert reqs[i..][1..] == reqs[i + 1..];
    var e := Emitted(c, reqs[i], pending);
    var rest := Reports(c, reqs[i + 1..], pending2);
    assert written + e + rest == written + (e + rest);
  }

  /** The report sent when a frame carries no measurement request. */
  function NoRequestReport(c: RrmConsts): MeasureReport
  {
    ZeroReport(c.beaconReportMaxIes).(incapable := true)
  }

  /** The report sent when repetitions are asked for: incapable, of the first request's type, token 0. */
  function RepetitionsReport(c: RrmConsts, r: MeasurementRequestIe): MeasureReport
  {
    ZeroReport(c.beaconReportMaxIes).(incapable := true, mtype := r.measurementType)
  }

  /** The report `rrmProcessBeaconRequestFailure` sends for a refused or incapable beacon request. */
  function FailureReport(c: RrmConsts, token: Byte, status: RrmStatus): MeasureReport
  {
    ZeroReport(c.beaconReportMaxIes).(token := token, mtype := c.beaconType,
                                      refused := status == RrmRefused, incapable := status == RrmIncapable)
  }

  /**
   * `rrmProcessBeaconRequestFailure`: a refused or incapable beacon
   * request is reported to the peer with the current request's tokens;
   * any other status, or a failed allocation, sends nothing.
   */
  method ProcessBeaconRequestFailure(ctx: RrmPeContext, c: RrmConsts, peer: MacAddr, status: RrmStatus, allocOk: bool)
    requires ctx.currentReq.Some?
    modifies ctx`sent
    ensures allocOk && (status == RrmRefused || status == RrmIncapable) ==>
      ctx.sent == old(ctx.sent) + [RadioMeasureReportFrame(ctx.currentReq.value.dialogToken,
                                     [FailureReport(c, ctx.currentReq.value.token, status)], peer)]
    ensures !(allocOk && (status == RrmRefused || status == RrmIncapable)) ==> ctx.sent == old(ctx.sent)
  {
    if !allocOk {
      return;
    }
    var cur := ctx.currentReq.value;
    var report := ZeroReport(c.beaconReportMaxIes).(token := cur.token, mtype := c.beaconType);
    match status {
      case RrmRefused =>
        report := report.(refused := true);
      case RrmIncapable =>
        report := report.(incapable := true);
      case _ =>
        return;
    }
    ctx.sent := ctx.sent + [RadioMeasureReportFrame(cur.dialogToken, [report], peer)];
  }

  /** What starting a beacon request comes to: the request left current and what is sent, in order. */
  datatype BeaconStart = BeaconStart(current: Option<RrmReq>, out: seq<Outgoing>)

  /**
   * The outcome of starting beacon request `r`: a request the admission
   * rule denies is reported to the peer as refused or incapable; an
   * admitted one whose allocations succeed is handed to SME, and stays
   * current only when that post succeeds, a post refused or incapable
   * being reported to the peer as well, when the report can be allocated;
   * in every other case the request is dropped.
   */
  function StartOutcome(c: RrmConsts, nonOpMax: U3, peer: MacAddr, dialogToken: Byte, r: MeasurementRequestIe,
                        beaconInterval: U16, bssId: MacAddr, env: RrmBeacon.BeaconEnv, tuToMs: int -> int): (s: BeaconStart)
    ensures s.current.Some? ==>
      && s.current.value.dialogToken == dialogToken && s.current.value.token == r.measurementToken
      && s.current.value.sendEmptyBcnRpt && s.current.value.reportingDetail == RrmBeacon.ReportingDetail(r.beacon)
    ensures s.current.Some? ==> |s.out| == 1 && s.out[0].SmeBeaconReportReq?
    ensures |s.out| <= 2 && forall o :: o in s.out ==> o.SmeBeaconReportReq? || o.RadioMeasureReportFrame?
    ensures !env.failAllocOk ==> forall o :: o in s.out ==> o.SmeBeaconReportReq?
  {
    var adm := RrmBeacon.Admission(nonOpMax, beaconInterval, r);
    var cur := ZeroReq.(dialogToken := dialogToken, token := r.measurementToken, sendEmptyBcnRpt := true);
    var passed := adm.Admit? && (r.beacon.requestedEids.None? || env.iesAllocOk) && env.indAllocOk;
    var st := if adm.Deny? then adm.status else if passed then env.postStatus else RrmFailure;
    BeaconStart(
      if st == RrmSuccess then Some(RrmBeacon.Cached(cur, r, true)) else None,
      (if passed then [SmeBeaconReportReq(RrmBeacon.BeaconReqInd(c, bssId, r, adm.measDuration, tuToMs))] else [])
      + (if env.failAllocOk && (st == RrmRefused || st == RrmIncapable)
         then [RadioMeasureReportFrame(dialogToken, [FailureReport(c, r.measurementToken, st)], peer)] else []))
  }

  /**
   * The first beacon request while none is pending: install it, pass it
   * on, and on any result but success report a refusal or incapability
   * to the peer and clean the request up. It stays current exactly when
   * it was admitted and handed to SME with success.
   */
  method StartBeaconRequest(ctx: RrmPeContext, c: RrmConsts, peer: MacAddr, dialogToken: Byte,
                            r: MeasurementRequestIe, session: PeSession, env: RrmBeacon.BeaconEnv, tuToMs: int -> int)
    requires |r.beacon.apChannelReports| < 0x100 && c.chanListSize < 0x1_0000
    modifies ctx`currentReq, ctx`sent
    ensures var o := StartOutcome(c, ctx.caps.nonOperatingChanMax, peer, dialogToken, r, session.beaconInterval, session.bssId, env, tuToMs);
      ctx.currentReq == o.current && ctx.sent == old(ctx.sent) + o.out
  {
    ctx.currentReq := Some(ZeroReq.(dialogToken := dialogToken, token := r.measurementToken, sendEmptyBcnRpt := true));
    var st := RrmBeacon.ProcessBeaconReportReq(ctx, c, r, session, env, tuToMs);
    if st != RrmSuccess {
      ProcessBeaconRequestFailure(ctx, c, peer, st, env.failAllocOk);
      var _ := ctx.Cleanup();
    }
  }

  /**
   * Stores the next report entry of the frame being built, allocating the
   * report array with room for `room` entries when it does not exist yet.
   */
  method AddReport(a: array?<MeasureReport>, n: nat, m: MeasureReport, room: nat, ghost written: seq<MeasureReport>)
      returns (a2: array<MeasureReport>, n2: nat)
    requires a == null ==> n == 0 && written == [] && 0 < room
    requires a != null ==> 0 < n < a.Length && a[..n] == written
    modifies a
    ensures n2 == n + 1 && n2 <= a2.Length && a2[..n2] == written + [m]
    ensures a == null ==> fresh(a2) && a2.Length == room
    ensures a != null ==> a2 == a
  {
    if a == null {
      a2 := new MeasureReport[room](_ => ZeroReport(0));
    } else {
      a2 := a;
    }
    a2[n] := m;
    n2 := n + 1;
    assert a2[..n2] == a2[..n] + [m];
  }

  /**
   * `rrmProcessRadioMeasurementRequest`. `envs[i]` is what the
   * allocations and the message post of request `i` come to when it is
   * passed on as a beacon request; the allocations of this function
   * itself succeed. `reports` are the entries of the report frame sent at
   * the end, if any.
   */
  method ProcessRadioMeasurementRequest(ctx: RrmPeContext, c: RrmConsts, peer: MacAddr, req: RadioMeasurementReq,
                                        session: PeSession, envs: seq<RrmBeacon.BeaconEnv>, tuToMs: int -> int)
      returns (status: SirStatus, reports: seq<MeasureReport>)
    requires |envs| == |req.requests| && |req.requests| < 0x100 && c.chanListSize < 0x1_0000
    requires forall i :: 0 <= i < |req.requests| ==> |req.requests[i].beacon.apChannelReports| < 0x100
    modifies ctx`currentReq, ctx`sent
    ensures |req.requests| == 0 ==>
      && status == SirFailure && reports == [NoRequestReport(c)] && ctx.currentReq == old(ctx.currentReq)
      && ctx.sent == old(ctx.sent) + [RadioMeasureReportFrame(req.dialogToken, reports, peer)]
    ensures |req.requests| > 0 && req.repetitions > 0 ==>
      && status == SirSuccess && reports == [RepetitionsReport(c, req.requests[0])]
      && ctx.currentReq == old(ctx.currentReq)
      && ctx.sent == old(ctx.sent) + [RadioMeasureReportFrame(req.dialogToken, reports, peer)]
    ensures |req.requests| > 0 && req.repetitions == 0 ==>
      && status == SirSuccess
      && reports == Reports(c, req.requests, old(ctx.currentReq).Some?)
      && old(ctx.sent) <= ctx.sent
      && (|reports| > 0 ==> |ctx.sent| > 0 && ctx.sent[|ctx.sent| - 1] == RadioMeasureReportFrame(req.dialogToken, reports, peer))
      && (old(ctx.currentReq).Some? || !HasBeacon(c, req.requests) ==>
            ctx.currentReq == old(ctx.currentReq)
            && ctx.sent == old(ctx.sent) + (if |reports| > 0 then [RadioMeasureReportFrame(req.dialogToken, reports, peer)] else []))
      && (old(ctx.currentReq).None? && HasBeacon(c, req.requests) ==>
            var j := FirstBeacon(c, req.requests);
            var o := StartOutcome(c, ctx.caps.nonOperatingChanMax, peer, req.dialogToken, req.requests[j],
                                  session.beaconInterval, session.bssId, envs[j], tuToMs);
            && ctx.currentReq == o.current
            && ctx.sent == old(ctx.sent) + o.out
                 + (if |reports| > 0 then [RadioMeasureReportFrame(req.dialogToken, reports, peer)] else []))
  {
    var reqs := req.requests;
    if |reqs| == 0 {
      reports := [NoRequestReport(c)];
      ctx.sent := ctx.sent + [RadioMeasureReportFrame(req.dialogToken, reports, peer)];
      return SirFailure, reports;
    }
    status := SirSuccess;
    if req.repetitions > 0 {
      reports := [RepetitionsReport(c, reqs[0])];
      ctx.sent := ctx.sent + [RadioMeasureReportFrame(req.dialogToken, reports, peer)];
      return;
    }
    reports := MeasureEach(ctx, c, peer, req.dialogToken, reqs, session, envs, tuToMs);
  }

  /**
   * One request of the loop of `rrmProcessRadioMeasurementRequest`:
   * `pending` says whether a beacon request is pending, `a` and `n` are the
   * report array (not allocated yet when null) and its entry count, and
   * `room` the number of requests not yet looked at, this one included.
   */
  method MeasureOne(ctx: RrmPeContext, c: RrmConsts, peer: MacAddr, dialogToken: Byte, r: MeasurementRequestIe,
                    session: PeSession, env: RrmBeacon.BeaconEnv, tuToMs: int -> int,
                    pending: bool, a: array?<MeasureReport>, n: nat, room: nat, ghost written: seq<MeasureReport>)
      returns (pending2: bool, a2: array?<MeasureReport>, n2: nat, ghost written2: seq<MeasureReport>)
    requires |r.beacon.apChannelReports| < 0x100 && c.chanListSize < 0x1_0000
    requires a == null ==> n == 0 && written == [] && 0 < room
    requires a != null ==> 0 < n < a.Length && a[..n] == written
    modifies ctx`currentReq, ctx`sent, a
    ensures pending2 == PendingAfter(c, r, pending) && written2 == written + Emitted(c, r, pending)
    ensures a2 == null ==> a == null && n2 == 0 && written2 == []
    ensures a2 != null ==> 0 < n2 <= n + 1 && n2 <= a2.Length && a2[..n2] == written2
    ensures a2 != null && a == null ==> fresh(a2) && a2.Length == room
    ensures a != null ==> a2 == a
    ensures old(ctx.sent) <= ctx.sent
    ensures !pending2 || pending ==> ctx.currentReq == old(ctx.currentReq) && ctx.sent == old(ctx.sent)
    ensures !pending && r.measurementType == c.beaconType ==>
      var o := StartOutcome(c, ctx.caps.nonOperatingChanMax, peer, dialogToken, r, session.beaconInterval, session.bssId, env, tuToMs);
      ctx.currentReq == o.current && ctx.sent == old(ctx.sent) + o.out
  {
    pending2, a2, n2, written2 := pending, a, n, written;
    if r.measurementType == c.beaconType {
      if pending {
        a2, n2 := AddReport(a, n, RefusedReport(c, r), room, written);
        written2 := written + [RefusedReport(c, r)];
      } else {
        StartBeaconRequest(ctx, c, peer, dialogToken, r, session, env, tuToMs);
        pending2 := true;
      }
    } else if UserSpaceType(c, r.measurementType) {
    } else {
      a2, n2 := AddReport(a, n, IncapableReport(c, r), room, written);
      written2 := written + [IncapableReport(c, r)];
    }
  }

  /**
   * The loop of `rrmProcessRadioMeasurementRequest` over the requests of
   * a frame that has some and asks for no repetitions, followed by the
   * report frame when some entry was written.
   */
  method MeasureEach(ctx: RrmPeContext, c: RrmConsts, peer: MacAddr, dialogToken: Byte, reqs: seq<MeasurementRequestIe>,
                     session: PeSession, envs: seq<RrmBeacon.BeaconEnv>, tuToMs: int -> int)
      returns (reports: seq<MeasureReport>)
    requires |envs| == |reqs| && |reqs| < 0x100 && c.chanListSize < 0x1_0000
    requires forall i :: 0 <= i < |reqs| ==> |reqs[i].beacon.apChannelReports| < 0x100
    modifies ctx`currentReq, ctx`sent
    ensures reports == Reports(c, reqs, old(ctx.currentReq).Some?)
    ensures old(ctx.sent) <= ctx.sent
    ensures |reports| > 0 ==> |ctx.sent| > 0 && ctx.sent[|ctx.sent| - 1] == RadioMeasureReportFrame(dialogToken, reports, peer)
    ensures old(ctx.currentReq).Some? || !HasBeacon(c, reqs) ==>
      && ctx.currentReq == old(ctx.currentReq)
      && ctx.sent == old(ctx.sent) + (if |reports| > 0 then [RadioMeasureReportFrame(dialogToken, reports, peer)] else [])
    ensures old(ctx.currentReq).None? && HasBeacon(c, reqs) ==>
      var j := FirstBeacon(c, reqs);
      var o := StartOutcome(c, ctx.caps.nonOperatingChanMax, peer, dialogToken, reqs[j],
                            session.beaconInterval, session.bssId, envs[j], tuToMs);
      && ctx.currentReq == o.current
      && ctx.sent == old(ctx.sent) + o.out + (if |reports| > 0 then [RadioMeasureReportFrame(dialogToken, reports, peer)] else [])
  {
    ghost var pending0 := ctx.currentReq.Some?;
    var pending, pReport, numReport, first, o := MeasureLoop(ctx, c, peer, dialogToken, reqs, session, envs, tuToMs);
    if pending && !pending0 {
      assert first == FirstBeacon(c, reqs);
    }
    if !pending {
      assert !HasBeacon(c, reqs);
    }
    reports := [];
    if pReport != null {
      reports := pReport[..numReport];
      ctx.sent := ctx.sent + [RadioMeasureReportFrame(dialogToken, reports, peer)];
    }
  }

  /**
   * What the loop has done to the current request and to the messages
   * sent: nothing unless it started a beacon request, and otherwise what
   * starting that request came to.
   */
  ghost predicate LoopEffect(pending0: bool, pending: bool, o: BeaconStart,
                             cur0: Option<RrmReq>, sent0: seq<Outgoing>, cur: Option<RrmReq>, sent: seq<Outgoing>)
  {
    if !pending0 && pending then cur == o.current && sent == sent0 + o.out
    else cur == cur0 && sent == sent0
  }

  /** One request of the loop keeps `LoopEffect`, on the values before and after it. */
  lemma LoopEffectStep(pending0: bool, pending1: bool, pending2: bool, o1: BeaconStart, o2: BeaconStart,
                       cur0: Option<RrmReq>, sent0: seq<Outgoing>, cur1: Option<RrmReq>, sent1: seq<Outgoing>,
                       cur2: Option<RrmReq>, sent2: seq<Outgoing>)
    requires pending0 ==> pending1
    requires pending1 ==> pending2
    requires LoopEffect(pending0, pending1, o1, cur0, sent0, cur1, sent1)
    requires pending1 ==> o2 == o1
    requires !pending2 || pending1 ==> cur2 == cur1 && sent2 == sent1
    requires !pending1 && pending2 ==> cur2 == o2.current && sent2 == sent1 + o2.out
    ensures LoopEffect(pending0, pending2, o2, cur0, sent0, cur2, sent2)
  {
  }

  /**
   * Whether a beacon request was looked at among the first `i` requests
   * exactly when one is pending that was not before, and `first` is then
   * the first beacon request.
   */
  ghost predicate FirstSeen(c: RrmConsts, reqs: seq<MeasurementRequestIe>, i: nat, pending0: bool, pending: bool, first: nat)
  {
    && (!pending ==> forall k :: 0 <= k < i && k < |reqs| ==> reqs[k].measurementType != c.beaconType)
    && (!pending0 && pending ==>
          && first < i && first < |reqs| && reqs[first].measurementType == c.beaconType
          && (forall k :: 0 <= k < first ==> reqs[k].measurementType != c.beaconType))
  }

  /**
   * The loop itself. `pending` ends true when a beacon request was pending
   * or started; `first` is then the request started and `o` what starting
   * it came to.
   */
  method MeasureLoop(ctx: RrmPeContext, c: RrmConsts, peer: MacAddr, dialogToken: Byte, reqs: seq<MeasurementRequestIe>,
                     session: PeSession, envs: seq<RrmBeacon.BeaconEnv>, tuToMs: int -> int)
      returns (pending: bool, pReport: array?<MeasureReport>, numReport: nat, ghost first: nat, ghost o: BeaconStart)
    requires |envs| == |reqs| && |reqs| < 0x100 && c.chanListSize < 0x1_0000
    requires forall i :: 0 <= i < |reqs| ==> |reqs[i].beacon.apChannelReports| < 0x100
    modifies ctx`currentReq, ctx`sent
    ensures pReport == null ==> Reports(c, reqs, old(ctx.currentReq).Some?) == []
    ensures pReport != null ==> 0 < numReport <= pReport.Length && pReport[..numReport] == Reports(c, reqs, old(ctx.currentReq).Some?)
    ensures old(ctx.currentReq).Some? ==> pending
    ensures FirstSeen(c, reqs, |reqs|, old(ctx.currentReq).Some?, pending, first)
    ensures old(ctx.currentReq).None? && pending ==>
      o == StartOutcome(c, ctx.caps.nonOperatingChanMax, peer, dialogToken, reqs[first],
                        session.beaconInterval, session.bssId, envs[first], tuToMs)
    ensures LoopEffect(old(ctx.currentReq).Some?, pending, o, old(ctx.currentReq), old(ctx.sent), ctx.currentReq, ctx.sent)
  {
    ghost var pending0 := ctx.currentReq.Some?;
    ghost var total := Reports(c, reqs, pending0);
    ghost var written: seq<MeasureReport> := [];
    pending := ctx.currentReq.Some?;   // the local pCurrentReq is not NULL
    pReport := null;
    numReport := 0;
    ghost var allocAt: nat := 0;
    first := 0;
    o := BeaconStart(None, []);
    var i := 0;
    assert reqs[i..] == reqs;
    while i < |reqs|
      invariant 0 <= i <= |reqs|
      invariant written + Reports(c, reqs[i..], pending) == total
      invariant pReport == null ==> written == [] && numReport == 0
      invariant pReport != null ==>
        && fresh(pReport) && allocAt <= i && pReport.Length == |reqs| - allocAt
        && numReport <= i - allocAt && pReport[..numReport] == written && numReport > 0
      invariant pending0 ==> pending
      invariant FirstSeen(c, reqs, i, pending0, pending, first)
      invariant !pending0 && pending ==>
        o == StartOutcome(c, ctx.caps.nonOperatingChanMax, peer, dialogToken, reqs[first],
                          session.beaconInterval, session.bssId, envs[first], tuToMs)
      invariant LoopEffect(pending0, pending, o, old(ctx.currentReq), old(ctx.sent), ctx.currentReq, ctx.sent)
    {
      pending, pReport, numReport, written, allocAt, first, o :=
        MeasureStep(ctx, c, peer, dialogToken, reqs, session, envs, tuToMs, i, pending, pReport, numReport,
                    written, total, allocAt, first, o, pending0, old(ctx.currentReq), old(ctx.sent));
      i := i + 1;
    }
    assert reqs[i..] == [];
  }

  /** One iteration of the loop of MeasureLoop: request `i` is looked at and the loop's record advances. */
  method MeasureStep(ctx: RrmPeContext, c: RrmConsts, peer: MacAddr, dialogToken: Byte, reqs: seq<MeasurementRequestIe>,
                     session: PeSession, envs: seq<RrmBeacon.BeaconEnv>, tuToMs: int -> int,
                     i: nat, pending: bool, pReport: array?<MeasureReport>, numReport: nat,
                     ghost written: seq<MeasureReport>, ghost total: seq<MeasureReport>, ghost allocAt: nat,
                     ghost first: nat, ghost o: BeaconStart,
                     ghost pending0: bool, ghost cur0: Option<RrmReq>, ghost sent0: seq<Outgoing>)
      returns (pending2: bool, pReport2: array?<MeasureReport>, numReport2: nat,
               ghost written2: seq<MeasureReport>, ghost allocAt2: nat, ghost first2: nat, ghost o2: BeaconStart)
    requires |envs| == |reqs| && i < |reqs| && c.chanListSize < 0x1_0000
    requires |reqs[i].beacon.apChannelReports| < 0x100
    requires written + Reports(c, reqs[i..], pending) == total
    requires pReport == null ==> written == [] && numReport == 0
    requires pReport != null ==>
      && allocAt <= i && pReport.Length == |reqs| - allocAt
      && numReport <= i - allocAt && pReport[..numReport] == written && numReport > 0
    requires pending0 ==> pending
    requires FirstSeen(c, reqs, i, pending0, pending, first)
    requires !pending0 && pending ==>
      o == StartOutcome(c, ctx.caps.nonOperatingChanMax, peer, dialogToken, reqs[first],
                        session.beaconInterval, session.bssId, envs[first], tuToMs)
    requires LoopEffect(pending0, pending, o, cur0, sent0, ctx.currentReq, ctx.sent)
    modifies ctx`currentReq, ctx`sent, pReport
    ensures written2 + Reports(c, reqs[i + 1..], pending2) == total
    ensures pReport2 == null ==> written2 == [] && numReport2 == 0
    ensures pReport2 != null ==>
      && allocAt2 <= i + 1 && pReport2.Length == |reqs| - allocAt2
      && numReport2 <= i + 1 - allocAt2 && pReport2[..numReport2] == written2 && numReport2 > 0
    ensures pReport != null ==> pReport2 == pReport
    ensures pReport == null && pReport2 != null ==> fresh(pReport2)
    ensures pending0 ==> pending2
    ensures FirstSeen(c, reqs, i + 1, pending0, pending2, first2)
    ensures !pending0 && pending2 ==>
      o2 == StartOutcome(c, ctx.caps.nonOperatingChanMax, peer, dialogToken, reqs[first2],
                         session.beaconInterval, session.bssId, envs[first2], tuToMs)
    ensures LoopEffect(pending0, pending2, o2, cur0, sent0, ctx.currentReq, ctx.sent)
  {
    ghost var cur1, sent1 := ctx.currentReq, ctx.sent;
    allocAt2, first2, o2 := allocAt, first, o;
    if pReport == null {
      allocAt2 := i;
    }
    if !pending {
      first2 := i;
      o2 := StartOutcome(c, ctx.caps.nonOperatingChanMax, peer, dialogToken, reqs[i],
                         session.beaconInterval, session.bssId, envs[i], tuToMs);
    }
    pending2, pReport2, numReport2, written2 :=
      MeasureOne(ctx, c, peer, dialogToken, reqs[i], session, envs[i], tuToMs, pending, pReport, numReport, |reqs| - i, written);
    ReportsStep(c, reqs, i, pending, written, total, written2, pending2);
    LoopEffectStep(pending0, pending, pending2, o, o2, cur0, sent0, cur1, sent1, ctx.currentReq, ctx.sent);
  }
}
