/**
 * Values shared by the 802.11k Radio Resource Measurement (RRM) logic of
 * the WLAN protocol engine: fixed-width integers, the header constants
 * the code is compiled against (taken as parameters), status codes, the
 * current measurement request, the report entries and the frames and
 * messages the engine hands to the transmit path or to SME.
 */
module RrmTypes {
  import opened Optional

  type Byte = x: int | 0 <= x < 0x100
  type U16 = x: int | 0 <= x < 0x1_0000
  type U32 = x: int | 0 <= x < 0x1_0000_0000
  /** `tANI_S8`, also the type of `tPowerdBm` and `v_S7_t`. */
  type S8 = x: int | -0x80 <= x < 0x80
  /** A 3-bit field of `tRRMCaps`. */
  type U3 = x: int | 0 <= x < 8

  /** A byte array whose length is held in a byte (an SSID, an id list, a channel list). */
  type ByteList = s: seq<Byte> | |s| < 0x100

  /** Conversion to an unsigned 8-bit value, wrapping as C does. */
  function ToU8(x: int): (r: Byte)
    ensures 0 <= x < 0x100 ==> r == x
  {
    x % 0x100
  }

  /** `ToU8` of a running sum may be taken at every step. */
  lemma ByteSumStep(a: int, b: int)
    ensures ToU8(ToU8(a) + b) == ToU8(a + b)
  {
    var q := a / 0x100;
    assert a == 0x100 * q + ToU8(a);
    assert ToU8(a) + b == a + b - 0x100 * q;
  }

  function ToU16(x: int): (r: U16)
    ensures 0 <= x < 0x1_0000 ==> r == x
  {
    x % 0x1_0000
  }

  function Min(a: int, b: int): int { if a < b then a else b }

  /** A 6-byte MAC address (`tSirMacAddr`). */
  type MacAddr = s: seq<Byte> | |s| == 6 witness [0, 0, 0, 0, 0, 0]

  const BroadcastAddr: MacAddr := [0xFF, 0xFF, 0xFF, 0xFF, 0xFF, 0xFF]

  /** Constants of the RRM headers, which are not part of this model. */
  datatype RrmConsts = RrmConsts(
    minTxPwrCap: Byte,            // RRM_MIN_TX_PWR_CAP
    maxTxPwrCap: Byte,            // RRM_MAX_TX_PWR_CAP
    rcpiLowRssi: int,             // RCPI_LOW_RSSI_VALUE
    rcpiMax: Byte,                // RCPI_MAX_VALUE
    beaconReportMaxIes: Byte,     // BEACON_REPORT_MAX_IES
    bcnRptNoBssInfo: Byte,        // RRM_BCN_RPT_NO_BSS_INFO
    bcnRptMinRpt: Byte,           // RRM_BCN_RPT_MIN_RPT
    beaconType: Byte,             // SIR_MAC_RRM_BEACON_TYPE
    lciType: Byte,                // SIR_MAC_RRM_LCI_TYPE
    civicType: Byte,              // SIR_MAC_RRM_LOCATION_CIVIC_TYPE
    ftmType: Byte,                // SIR_MAC_RRM_FINE_TIME_MEAS_TYPE
    chanListSize: nat,            // sizeof(channelList.channelNumber)
    xmitIndSize: nat,             // sizeof(tSirBeaconReportXmitInd)
    neighborIndSize: nat,         // sizeof(tSirNeighborReportInd)
    neighborBssSize: nat)         // sizeof(tSirNeighborBssDescription)

  /** Reporting detail values (`BEACON_REPORTING_DETAIL_*`). */
  const DetailNoFfIe: Byte := 0
  const DetailAllFfReqIe: Byte := 1
  const DetailAllFfIe: Byte := 2

  /** `tSirRetStatus`, as far as this code produces or inspects it. */
  datatype SirStatus = SirSuccess | SirFailure | SirMemAllocFailed

  /** `tRrmRetStatus`. */
  datatype RrmStatus = RrmSuccess | RrmIncapable | RrmRefused | RrmFailure

  /**
   * `tRRMReq`: the beacon measurement in progress. `reqIes` is the
   * requested element-id list (`pElementIds`, with `num` its length), or
   * None while no list was allocated.
   */
  datatype RrmReq = RrmReq(
    dialogToken: Byte,
    token: Byte,
    sendEmptyBcnRpt: bool,
    reportingDetail: Byte,
    reqIes: Option<ByteList>)

  /** The request `vos_mem_set` to zero, as it is allocated. */
  const ZeroReq: RrmReq := RrmReq(0, 0, false, 0, None)

  /** The part of `tRRMCaps` the engine sets itself. */
  datatype RrmCaps = RrmCaps(
    linkMeasurement: bool,
    neighborRpt: bool,
    beaconPassive: bool,
    beaconActive: bool,
    beaconTable: bool,
    apChanReport: bool,
    fineTimeMeasRpt: bool,
    lciCapability: bool,
    operatingChanMax: U3,
    nonOperatingChanMax: U3)

  /** The beacon part of a received measurement request element. */
  datatype BeaconRequest = BeaconRequest(
    regClass: Byte,
    channel: Byte,
    randomization: U16,
    measDuration: U16,
    measMode: Byte,
    bssid: MacAddr,
    ssid: Option<ByteList>,
    reportingCondition: Option<Byte>,       // BeaconReporting, when present
    reportingDetail: Option<Byte>,          // BcnReportingDetail, when present
    requestedEids: Option<ByteList>,        // RequestedInfo, when present
    apChannelReports: seq<ByteList>)        // the channel list of each AP channel report

  /** One measurement request element of a radio measurement request frame. */
  datatype MeasurementRequestIe = MeasurementRequestIe(
    measurementToken: Byte,
    measurementType: Byte,
    durationMandatory: bool,
    beacon: BeaconRequest)

  /** A radio measurement request frame. */
  datatype RadioMeasurementReq = RadioMeasurementReq(
    dialogToken: Byte,
    repetitions: U16,
    requests: seq<MeasurementRequestIe>)

  /** One neighbor report element of a neighbor report response frame. */
  datatype NeighborReportIe = NeighborReportIe(
    bssid: MacAddr,
    apReachability: Byte,
    security: bool,
    keyScope: bool,
    specMgmtCap: bool,
    qosCap: bool,
    apsd: bool,
    rrm: bool,
    delayedBA: bool,
    immBA: bool,
    mobilityDomain: bool,
    regulatoryClass: Byte,
    channel: Byte,
    phyType: Byte)

  /** A neighbor report response frame. */
  datatype NeighborReportResponse = NeighborReportResponse(dialogToken: Byte, reports: seq<NeighborReportIe>)

  /** `tSirNeighborReportReqInd`, SME's request for a neighbor report. */
  datatype NeighborReportReqInd = NeighborReportReqInd(bssId: MacAddr, noSSID: bool, ssid: ByteList)

  /** The beacon-report body of one report entry (`tSirMacBeaconReport`). */
  datatype BeaconReport = BeaconReport(
    regClass: Byte,
    channel: Byte,
    measStartTime: seq<U32>,
    measDuration: int,
    phyType: int,
    bcnProbeRsp: Byte,
    rsni: int,
    rcpi: int,
    antennaId: Byte,
    parentTSF: U32,
    bssid: seq<Byte>,
    numIes: Byte,
    ies: seq<Byte>)

  /** A beacon report as `vos_mem_zero` leaves it, with an IE buffer of `maxIes` bytes. */
  function ZeroBeaconReport(maxIes: nat): (r: BeaconReport)
    ensures |r.ies| == maxIes && r.numIes == 0
  {
    BeaconReport(0, 0, [0, 0], 0, 0, 0, 0, 0, 0, 0, [0, 0, 0, 0, 0, 0], 0, seq(maxIes, _ => 0))
  }

  /** One entry of a radio measurement report frame (`tSirMacRadioMeasureReport`). */
  datatype MeasureReport = MeasureReport(
    token: Byte,
    refused: bool,
    incapable: bool,
    mtype: Byte,
    beacon: BeaconReport)

  /** A zeroed report entry. */
  function ZeroReport(maxIes: nat): MeasureReport
  {
    MeasureReport(0, false, false, 0, ZeroBeaconReport(maxIes))
  }

  /** The channel list of a beacon-report request to SME. */
  datatype ChannelList = ChannelList(numChannels: Byte, channelNumber: seq<Byte>)

  /** `tSirBeaconReportReqInd`, the beacon-report request handed to SME. */
  datatype BeaconReportReqInd = BeaconReportReqInd(
    bssId: MacAddr,
    dialogToken: Byte,
    randomizationInterval: int,
    regulatoryClass: Byte,
    channelNum: Byte,
    measurementDuration: int,
    measurementType: Byte,
    macaddrBssid: MacAddr,
    ssid: Option<seq<Byte>>,
    channelList: ChannelList)

  /** One neighbor BSS of a neighbor report as forwarded to SME (`tSirNeighborBssDescription`). */
  datatype NeighborBss = NeighborBss(
    bssId: MacAddr,
    apReachability: Byte,
    security: bool,
    keyScope: bool,
    specMgmtCap: bool,
    qosCap: bool,
    apsd: bool,
    rrm: bool,
    delayedBA: bool,
    immBA: bool,
    mobilityDomain: bool,
    regClass: Byte,
    channel: Byte,
    phyType: Byte)

  /** What the engine sends: action frames to a peer and messages to SME. */
  datatype Outgoing =
    | RadioMeasureReportFrame(dialogToken: Byte, reports: seq<MeasureReport>, peer: MacAddr)
    | NeighborReportRequestFrame(dialogToken: Byte, ssid: Option<seq<Byte>>, bssId: MacAddr)
    | SmeBeaconReportReq(ind: BeaconReportReqInd)
    | SmeNeighborReportInd(length: U16, sessionId: Byte, bssId: MacAddr, neighbors: seq<NeighborBss>)
}
