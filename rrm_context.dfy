/**
 * The RRM part of the PE global context (`pMac->rrm.rrmPEContext`), the
 * sessions it consults, and the handlers that only touch that state:
 * initialisation and cleanup, the management tx-power and start-TSF
 * caches, the WDA_SET_MAX_TX_POWER_RSP handler, and the neighbor report
 * request and response.
 *
 * Frames and messages handed to the transmit path or to SME are appended
 * to `sent`, in order; what those calls return is a parameter of the
 * handler. The session lookup by BSSID is a parameter too: the session it
 * found, or null.
 */
module RrmContext {
  import opened Optional
  import opened RrmTypes

  /** The fields of `tPESession` this logic reads or writes. */
  class PeSession {
    var valid: bool
    var bssId: MacAddr
    var smeSessionId: Byte
    var beaconInterval: U16
    var txMgmtPower: S8
  }

  /** The two words of a TSF value. */
  type Tsf = s: seq<U32> | |s| == 2 witness [0, 0]

  /** `tRrmPEContext`, plus what the engine has sent so far. */
  class RrmPeContext {
    var currentReq: Option<RrmReq>    // pCurrentReq, None while NULL
    var txMgmtPower: S8
    var dialogToken: Byte             // DialogToken
    var startTSF: Tsf
    var rrmEnable: bool
    var caps: RrmCaps                 // rrmEnabledCaps
    var sent: seq<Outgoing>

    /** `rrmInitialize`: no request, power and token zero, RRM off, the engine's own capabilities. */
    method Initialize() returns (status: SirStatus)
      modifies this`currentReq, this`txMgmtPower, this`dialogToken, this`rrmEnable, this`caps
      ensures currentReq == None && txMgmtPower == 0 && dialogToken == 0 && !rrmEnable
      ensures caps == InitialCaps
      ensures status == SirSuccess
    {
      currentReq := None;
      txMgmtPower := 0;
      dialogToken := 0;
      rrmEnable := false;
      caps := InitialCaps;
      status := SirSuccess;
    }

    /** `rrmCleanup`: the pending request, with its id list, is released. */
    method Cleanup() returns (status: SirStatus)
      modifies this`currentReq
      ensures currentReq == None && status == SirSuccess
    {
      currentReq := None;
      status := SirSuccess;
    }

    /** `rrmUpdateStartTSF`: the two words of `tsf` are stored. */
    method UpdateStartTSF(tsf: seq<U32>)
      requires |tsf| >= 2
      modifies this`startTSF
      ensures startTSF == tsf[..2]
    {
      startTSF := [tsf[0], tsf[1]];
    }

    /** `rrmGetStartTSF`: the stored words are written to `out`, and nothing else. */
    method GetStartTSF(out: array<U32>)
      requires out.Length >= 2
      modifies out
      ensures out[..2] == startTSF && out[2..] == old(out[2..])
    {
      out[0] := startTSF[0];
      out[1] := startTSF[1];
    }
  }

  /**
   * The capabilities `rrmInitialize` enables: link measurement, neighbor
   * report, passive, active and table beacon measurement, AP channel
   * report, fine timing measurement and LCI; both channel maxima 3.
   */
  const InitialCaps := RrmCaps(true, true, true, true, true, true, true, true, 3, 3)

  /** `rrmGetMgmtTxPower`: the session's power, or the global one without a session. */
  function GetMgmtTxPower(ctx: RrmPeContext, session: PeSession?): S8
    reads ctx, session
  {
    if session == null then ctx.txMgmtPower else session.txMgmtPower
  }

  /**
   * `rrmCacheMgmtTxPower`: the power is stored in the session, or in the
   * global context when there is none, and reads back from the same place.
   */
  method CacheMgmtTxPower(ctx: RrmPeContext, txPower: S8, session: PeSession?)
    modifies ctx`txMgmtPower, (if session == null then {} else {session})`txMgmtPower
    ensures GetMgmtTxPower(ctx, session) == txPower
    ensures session != null ==> ctx.txMgmtPower == old(ctx.txMgmtPower)
  {
    if session == null {
      ctx.txMgmtPower := txPower;
    } else {
      session.txMgmtPower := txPower;
    }
  }

  /**
   * `rrmSetMaxTxPowerRsp`. For the broadcast BSSID every valid session
   * caches the power and the others keep theirs. Otherwise the session
   * found for the BSSID caches it; without one the result is a failure
   * and nothing changes. `sessions` is `gpSession[0..maxBssId)`, one
   * distinct entry each, and `found` is what the lookup by BSSID returned.
   */
  method SetMaxTxPowerRsp(ctx: RrmPeContext, sessions: seq<PeSession>, power: S8, bssId: MacAddr, found: PeSession?)
      returns (status: SirStatus)
    requires forall i, j :: 0 <= i < j < |sessions| ==> sessions[i] != sessions[j]
    requires found != null ==> found in sessions
    modifies ctx`txMgmtPower, (set s | s in sessions)`txMgmtPower
    ensures ctx.txMgmtPower == old(ctx.txMgmtPower)
    ensures bssId == BroadcastAddr ==> status == SirSuccess
    ensures bssId == BroadcastAddr ==> forall i :: 0 <= i < |sessions| ==>
      sessions[i].txMgmtPower == if sessions[i].valid then power else old(sessions[i].txMgmtPower)
    ensures bssId != BroadcastAddr ==> (status == SirFailure <==> found == null)
    ensures bssId != BroadcastAddr ==> forall i :: 0 <= i < |sessions| ==>
      sessions[i].txMgmtPower == if sessions[i] == found then power else old(sessions[i].txMgmtPower)
  {
    status := SirSuccess;
    if bssId == BroadcastAddr {
      var i := 0;
      while i < |sessions|
        invariant 0 <= i <= |sessions| && ctx.txMgmtPower == old(ctx.txMgmtPower)
        invariant forall k :: 0 <= k < |sessions| ==>
          sessions[k].txMgmtPower == if k < i && sessions[k].valid then power else old(sessions[k].txMgmtPower)
      {
        if sessions[i].valid {
          CacheMgmtTxPower(ctx, power, sessions[i]);
        }
        i := i + 1;
      }
    } else if found == null {
      status := SirFailure;
    } else {
      CacheMgmtTxPower(ctx, power, found);
    }
  }

  /** The dialog token after `++DialogToken` on a byte. */
  function NextToken(t: Byte): (r: Byte)
    ensures r != t
    ensures t < 0xFF ==> r == t + 1
    ensures t == 0xFF ==> r == 0
  {
    (t + 1) % 0x100
  }

  /** The token after `k` neighbor report requests. */
  function TokenAfter(t: Byte, k: nat): Byte
  {
    if k == 0 then t else NextToken(TokenAfter(t, k - 1))
  }

  /** `k` requests advance the token by `k`, modulo 256. */
  lemma {:induction false} TokenAfterValue(t: Byte, k: nat)
    ensures TokenAfter(t, k) == (t + k) % 0x100
  {
    if k > 0 {
      TokenAfterValue(t, k - 1);
      ByteSumStep(t + k - 1, 1);
    }
  }

  /** The tokens of up to 256 consecutive requests are all different. */
  lemma TokensDistinct(t: Byte, j: nat, k: nat)
    requires j < k < j + 0x100
    ensures TokenAfter(t, j) != TokenAfter(t, k)
  {
    TokenAfterValue(t, j);
    TokenAfterValue(t, k);
  }

  /**
   * `rrmProcessNeighborReportReq`. Without a request or a session for its
   * BSSID it fails and changes nothing; otherwise the dialog token is
   * advanced, the request frame carries the new token, and the SSID
   * exactly when SME did not say there is none.
   */
  method ProcessNeighborReportReq(ctx: RrmPeContext, req: Option<NeighborReportReqInd>, found: PeSession?,
                                  sendStatus: SirStatus)
      returns (status: SirStatus)
    modifies ctx`dialogToken, ctx`sent
    ensures req.None? || found == null ==>
      status == SirFailure && ctx.dialogToken == old(ctx.dialogToken) && ctx.sent == old(ctx.sent)
    ensures req.Some? && found != null ==>
      && ctx.dialogToken == NextToken(old(ctx.dialogToken))
      && ctx.sent == old(ctx.sent) + [NeighborReportRequestFrame(
           ctx.dialogToken, if req.value.noSSID then None else Some(req.value.ssid), req.value.bssId)]
      && status == sendStatus
  {
    if req.None? || found == null {
      return SirFailure;
    }
    ctx.dialogToken := NextToken(ctx.dialogToken);
    var ssid := if req.value.noSSID then None else Some(req.value.ssid);
    ctx.sent := ctx.sent + [NeighborReportRequestFrame(ctx.dialogToken, ssid, req.value.bssId)];
    status := sendStatus;
  }

  /** Whether `rrmProcessNeighborReportResponse` gets past its checks. */
  predicate NeighborResponseAccepted(dialogToken: Byte, rep: Option<NeighborReportResponse>, hasSession: bool)
  {
    rep.Some? && hasSession && rep.value.dialogToken == dialogToken && |rep.value.reports| > 0
  }

  /** A response to an earlier request than the newest of the last 256 is turned away. */
  lemma StaleResponseRejected(t: Byte, j: nat, k: nat, rep: NeighborReportResponse, hasSession: bool)
    requires j < k < j + 0x100
    requires rep.dialogToken == TokenAfter(t, j)
    ensures !NeighborResponseAccepted(TokenAfter(t, k), Some(rep), hasSession)
  {
    TokensDistinct(t, j, k);
  }

  /** One neighbor report element as SME receives it. */
  function ToNeighborBss(r: NeighborReportIe): NeighborBss
  {
    NeighborBss(r.bssid, r.apReachability, r.security, r.keyScope, r.specMgmtCap, r.qosCap,
                r.apsd, r.rrm, r.delayedBA, r.immBA, r.mobilityDomain, r.regulatoryClass, r.channel, r.phyType)
  }

  function NeighborList(reports: seq<NeighborReportIe>): seq<NeighborBss>
  {
    if |reports| == 0 then [] else NeighborList(reports[..|reports| - 1]) + [ToNeighborBss(reports[|reports| - 1])]
  }

  /** Entry `k` of the list SME receives is report `k`, field by field. */
  lemma {:induction false} NeighborListEntries(reports: seq<NeighborReportIe>, k: nat)
    requires k < |reports|
    ensures |NeighborList(reports)| == |reports|
    ensures NeighborList(reports)[k].bssId == reports[k].bssid
    ensures NeighborList(reports)[k].channel == reports[k].channel
    ensures NeighborList(reports)[k] == ToNeighborBss(reports[k])
    decreases |reports|
  {
    var n := |reports| - 1;
    if k < n {
      NeighborListEntries(reports[..n], k);
      assert reports[..n][k] == reports[k];
    } else if n > 0 {
      NeighborListEntries(reports[..n], 0);
    }
  }

  /** The `length` of the neighbor report indication: one description is part of the header. */
  function NeighborIndLength(c: RrmConsts, num: nat): U16
    requires num > 0
  {
    ToU16(c.neighborIndSize + c.neighborBssSize * (num - 1))
  }

  /**
   * `rrmProcessNeighborReportResponse`. A missing frame or session, a
   * dialog token other than the last one sent, or no neighbor at all
   * gives a failure; a failed allocation gives eSIR_MEM_ALLOC_FAILED;
   * otherwise SME receives every neighbor of the frame, in order, for the
   * session's SME id and BSSID. `allocOk` is the outcome of the
   * allocation and `postStatus` what posting the message returned.
   */
  method ProcessNeighborReportResponse(ctx: RrmPeContext, c: RrmConsts, rep: Option<NeighborReportResponse>,
                                       session: PeSession?, allocOk: bool, postStatus: SirStatus)
      returns (status: SirStatus)
    requires rep.Some? ==> |rep.value.reports| < 0x100
    modifies ctx`sent
    ensures !NeighborResponseAccepted(ctx.dialogToken, rep, session != null) ==>
      status == SirFailure && ctx.sent == old(ctx.sent)
    ensures NeighborResponseAccepted(ctx.dialogToken, rep, session != null) && !allocOk ==>
      status == SirMemAllocFailed && ctx.sent == old(ctx.sent)
    ensures NeighborResponseAccepted(ctx.dialogToken, rep, session != null) && allocOk ==>
      && status == postStatus
      && ctx.sent == old(ctx.sent) + [SmeNeighborReportInd(NeighborIndLength(c, |rep.value.reports|),
           session.smeSessionId, session.bssId, NeighborList(rep.value.reports))]
  {
    if rep.None? || session == null {
      return SirFailure;
    }
    var r := rep.value;
    if ctx.dialogToken != r.dialogToken {
      return SirFailure;
    }
    if |r.reports| == 0 {
      return SirFailure;
    }
    var length := NeighborIndLength(c, |r.reports|);
    if !allocOk {
      return SirMemAllocFailed;
    }
    var neighbors: seq<NeighborBss> := [];
    var i := 0;
    while i < |r.reports|
      invariant 0 <= i <= |r.reports|
      invariant neighbors == NeighborList(r.reports[..i])
    {
      assert r.reports[..i + 1][..i] == r.reports[..i];
      neighbors := neighbors + [ToNeighborBss(r.reports[i])];
      i := i + 1;
    }
    assert r.reports[..i] == r.reports;
    ctx.sent := ctx.sent + [SmeNeighborReportInd(length, session.smeSessionId, session.bssId, neighbors)];
    status := postStatus;
  }
}
