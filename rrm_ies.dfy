/**
 * `rrmFillBeaconIes`: the fixed fields and the information elements of a
 * scanned BSS, copied into the IE buffer of a beacon report.
 *
 * The buffer receives 12 bytes of fixed fields (two timestamp words,
 * the beacon interval and the capability field, in the little-endian
 * byte order of the host), then every element of the BSS's IE list, in
 * order, whose id is requested and which still fits: an element of
 * `len` bytes is copied only while `numIes + len < maxSize`.
 *
 * The code trusts the element lengths: it computes each element's size
 * and the remaining count in bytes, starting from the IE length
 * truncated to a byte, and walks until that count reaches 0. A list of
 * 256 bytes or more is walked through the wrapped count, a length byte
 * of 254 gives a size of 0 and the loop never advances, a length byte of
 * 255 gives a size of 1, and an element running past the end of the
 * list goes on reading behind it. That walk is `WalkU8`. The walk of
 * this model (`WalkFit`) takes the same steps on the same byte counter
 * and stops, in addition, at the first element that does not fit in the
 * description's IE fields; it copies from the whole elements before it.
 * When an element-id list is given with zero entries, the loop still
 * compares against its first entry; `stray` is the byte found there
 * when the list has no storage at all.
 */
module RrmIes {
  import opened Optional
  import opened RrmTypes

  /** The parts of `tSirBssDescription` a beacon report reads. */
  datatype BssDesc = BssDesc(
    bssId: MacAddr,
    channelId: Byte,
    startTSF: seq<U32>,
    nwType: int,
    sinr: int,
    rssi: int,
    parentTSF: U32,
    timeStamp0: U32,
    timeStamp1: U32,
    beaconInterval: U16,
    capabilityInfo: U16,
    ieLen: nat,               // GET_IE_LEN_IN_BSS(length)
    ieFields: seq<Byte>)

  // ---------------------------------------------------------------------
  // Element lists
  // ---------------------------------------------------------------------

  /** Each element is id, length and `length` bytes, with `length + 2` fitting a byte. */
  predicate WellFormedIes(ies: seq<Byte>)
    decreases |ies|
  {
    |ies| == 0
    || (|ies| >= 2 && ies[1] <= 253 && ies[1] + 2 <= |ies| && WellFormedIes(ies[ies[1] + 2..]))
  }

  /**
   * The element list the walk goes through: the whole elements the code
   * visits in `ieFields`, counting down `BcnNumIes` from the IE length
   * truncated to a byte, up to the first element that does not fit.
   */
  function BcnIes(d: BssDesc): (r: seq<Byte>)
    ensures WellFormedIes(r) && r <= d.ieFields
  {
    WalkRegion(d.ieFields, ToU8(d.ieLen))
  }

  /** The elements of a well-formed list, one byte string each. */
  function IeList(ies: seq<Byte>): seq<seq<Byte>>
    requires WellFormedIes(ies)
    decreases |ies|
  {
    if |ies| == 0 then [] else [ies[..ies[1] + 2]] + IeList(ies[ies[1] + 2..])
  }

  /** `a` is `b` with some elements left out, the rest in the same order. */
  predicate IsSubseq(a: seq<seq<Byte>>, b: seq<seq<Byte>>)
    decreases |b|
  {
    |a| == 0 || (|b| > 0 && (if a[0] == b[0] then IsSubseq(a[1..], b[1..]) else IsSubseq(a, b[1..])))
  }

  // ---------------------------------------------------------------------
  // The walk as written, on byte-wide counters
  // ---------------------------------------------------------------------

  /** Where the code's walk stands: the offset `pBcnIes` has reached and the counter `BcnNumIes`. */
  datatype WalkState = WalkState(pos: nat, remaining: Byte)

  /** `len = *(pBcnIes + 1) + 2`, computed in `tANI_U8`. */
  function ElementLenU8(lenByte: Byte): (r: Byte)
    ensures lenByte <= 253 ==> r == lenByte + 2
    ensures lenByte == 254 ==> r == 0
    ensures lenByte == 255 ==> r == 1
  {
    ToU8(lenByte + 2)
  }

  /** One iteration of the code's walk: `pBcnIes += len; BcnNumIes -= len;` in bytes. */
  function WalkStepU8(ies: seq<Byte>, s: WalkState): WalkState
    requires s.pos + 1 < |ies|
  {
    var len := ElementLenU8(ies[s.pos + 1]);
    WalkState(s.pos + len, ToU8(s.remaining - len))
  }

  /**
   * The state after at most `k` iterations of `while (BcnNumIes > 0)`,
   * followed while the length byte of the current element is in the list.
   */
  function WalkU8(ies: seq<Byte>, s: WalkState, k: nat): WalkState
    decreases k
  {
    if k == 0 || s.remaining == 0 || s.pos + 1 >= |ies| then s
    else WalkU8(ies, WalkStepU8(ies, s), k - 1)
  }

  /**
   * An element whose length byte is 254 gets `len == 0`: the walk stays
   * where it is with the counter still positive, however many iterations
   * it makes, so the loop never ends.
   */
  lemma {:induction false} LengthByte254Stalls(ies: seq<Byte>, s: WalkState, k: nat)
    requires s.pos + 1 < |ies| && ies[s.pos + 1] == 254 && s.remaining > 0
    ensures WalkU8(ies, s, k) == s && WalkU8(ies, s, k).remaining > 0
    decreases k
  {
    if k > 0 {
      assert WalkStepU8(ies, s) == s;
      LengthByte254Stalls(ies, s, k - 1);
    }
  }

  /**
   * The two-byte list `[0, 254]`, an SSID element claiming 254 bytes,
   * keeps the code's loop at its first element forever; the walk of this
   * model stops there and copies nothing.
   */
  lemma SsidOf254Bytes(k: nat)
    ensures WalkU8([0, 254], WalkState(0, 2), k) == WalkState(0, 2)
    ensures WalkRegion([0, 254], 2) == []
  {
    LengthByte254Stalls([0, 254], WalkState(0, 2), k);
  }

  /** The element at `pos` lies whole inside `ies` and its size fits a byte. */
  predicate ElementFits(ies: seq<Byte>, pos: nat)
  {
    pos + 2 <= |ies| && ies[pos + 1] <= 253 && pos + ies[pos + 1] + 2 <= |ies|
  }

  /**
   * The walk of this model: the code's steps on its byte-wide counter,
   * stopped when the counter reaches 0 or at the first element that does
   * not fit, where the code would stall, lose its alignment or read past
   * the list.
   */
  function WalkFit(ies: seq<Byte>, s: WalkState): (t: WalkState)
    requires s.pos <= |ies|
    ensures s.pos <= t.pos <= |ies| && WellFormedIes(ies[s.pos..t.pos])
    ensures t.remaining == 0 || !ElementFits(ies, t.pos)
    decreases |ies| - s.pos
  {
    if s.remaining == 0 || !ElementFits(ies, s.pos) then s
    else
      var len := ies[s.pos + 1] + 2;
      var t := WalkFit(ies, WalkStepU8(ies, s));
      assert ies[s.pos..t.pos][len..] == ies[s.pos + len..t.pos];
      t
  }

  /** The bytes of the whole elements the walk visits from offset 0 with counter `count`. */
  function WalkRegion(ies: seq<Byte>, count: Byte): (r: seq<Byte>)
    ensures WellFormedIes(r) && r <= ies
  {
    ies[..WalkFit(ies, WalkState(0, count)).pos]
  }

  /**
   * Where the walk ends because the counter reaches 0, the code's own
   * loop, given enough iterations, ends in the same state: on such lists
   * the model walks exactly the elements the code walks.
   */
  lemma {:induction false} WalkFitAgrees(ies: seq<Byte>, s: WalkState, k: nat)
    requires s.pos <= |ies| && WalkFit(ies, s).remaining == 0
    requires k >= |ies| - s.pos
    ensures WalkU8(ies, s, k) == WalkFit(ies, s)
    decreases k
  {
    if s.remaining != 0 {
      WalkFitAgrees(ies, WalkStepU8(ies, s), k - 1);
    }
  }

  /**
   * A list longer than 255 bytes: with `ieLen == 260` the counter starts
   * at 4 and wraps to 5 after a 255-byte element, so the 5-byte element
   * behind it is walked as well, and the whole list is the region.
   */
  lemma WrappedCounterWalksOn(d: BssDesc)
    requires d.ieLen == 260 && |d.ieFields| == 260
    requires d.ieFields[1] == 253 && d.ieFields[256] == 3
    ensures BcnIes(d) == d.ieFields
    ensures WalkU8(d.ieFields, WalkState(0, ToU8(d.ieLen)), 2) == WalkState(260, 0)
  {
    var ies := d.ieFields;
    assert ToU8(d.ieLen) == 4;
    assert WalkStepU8(ies, WalkState(0, 4)) == WalkState(255, 5);
    assert WalkStepU8(ies, WalkState(255, 5)) == WalkState(260, 0);
    assert WalkFit(ies, WalkState(255, 5)) == WalkState(260, 0);
    assert WalkFit(ies, WalkState(0, 4)) == WalkState(260, 0);
  }

  // ---------------------------------------------------------------------
  // Element-id filter
  // ---------------------------------------------------------------------

  /** The id at position `k` of the element-id list, as the loop reads it. */
  function EidAt(eids: seq<Byte>, k: int, stray: Byte): Byte
  {
    if 0 <= k < |eids| then eids[k] else stray
  }

  /** How many ids the do-while compares against: at least one. */
  function EidsTried(numEids: Byte): nat
  {
    if numEids == 0 then 1 else numEids
  }

  /** The ids the do-while compares an element against. */
  function EidsRead(eids: seq<Byte>, numEids: Byte, stray: Byte): (r: seq<Byte>)
    ensures |r| == EidsTried(numEids)
  {
    seq(EidsTried(numEids), k => EidAt(eids, k, stray))
  }

  /** Which elements are wanted: all of them (no id list), or those whose id is read from the list. */
  datatype Filter = AllIes | Requested(ids: seq<Byte>)

  function FilterOf(eids: Option<seq<Byte>>, numEids: Byte, stray: Byte): Filter
  {
    match eids
    case None => AllIes
    case Some(e) => Requested(EidsRead(e, numEids, stray))
  }

  predicate Wanted(f: Filter, id: Byte)
  {
    f.AllIes? || id in f.ids
  }

  // ---------------------------------------------------------------------
  // Specification of the copy
  // ---------------------------------------------------------------------

  /** The elements appended after `n` bytes are in the buffer. */
  function Fill(ies: seq<Byte>, f: Filter, maxSize: nat, n: nat): seq<Byte>
    requires WellFormedIes(ies)
    decreases |ies|
  {
    if |ies| == 0 then []
    else
      var len := ies[1] + 2;
      if Wanted(f, ies[0]) && n + len < maxSize then ies[..len] + Fill(ies[len..], f, maxSize, n + len)
      else Fill(ies[len..], f, maxSize, n)
  }

  function U16Le(x: U16): seq<Byte> { [x % 0x100, x / 0x100] }

  function U32Le(x: U32): seq<Byte>
  {
    [x % 0x100, x / 0x100 % 0x100, x / 0x1_0000 % 0x100, x / 0x100_0000]
  }

  /** The 12 bytes of fixed fields at the head of the buffer. */
  function FixedFields(d: BssDesc): (r: seq<Byte>)
    ensures |r| == 12
  {
    U32Le(d.timeStamp0) + U32Le(d.timeStamp1) + U16Le(d.beaconInterval) + U16Le(d.capabilityInfo)
  }

  /** Reading a little-endian word back. */
  function LeValue(b: seq<Byte>): nat
  {
    if |b| == 0 then 0 else b[0] + 0x100 * LeValue(b[1..])
  }

  /** The fixed fields read back as the values they were built from. */
  lemma FixedFieldsRoundTrip(d: BssDesc)
    ensures LeValue(FixedFields(d)[0..4]) == d.timeStamp0
    ensures LeValue(FixedFields(d)[4..8]) == d.timeStamp1
    ensures LeValue(FixedFields(d)[8..10]) == d.beaconInterval
    ensures LeValue(FixedFields(d)[10..12]) == d.capabilityInfo
  {
    var r := FixedFields(d);
    assert r[0..4] == U32Le(d.timeStamp0);
    assert r[4..8] == U32Le(d.timeStamp1);
    assert r[8..10] == U16Le(d.beaconInterval);
    assert r[10..12] == U16Le(d.capabilityInfo);
    U32LeRoundTrip(d.timeStamp0);
    U32LeRoundTrip(d.timeStamp1);
    U16LeRoundTrip(d.beaconInterval);
    U16LeRoundTrip(d.capabilityInfo);
  }

  lemma U16LeRoundTrip(x: U16)
    ensures LeValue(U16Le(x)) == x
  {
    var b := U16Le(x);
    assert b[1..][1..] == [];
    assert LeValue(b[1..]) == x / 0x100;
  }

  lemma U32LeRoundTrip(x: U32)
    ensures LeValue(U32Le(x)) == x
  {
    var b := U32Le(x);
    var q1 := x / 0x100;
    var q2 := x / 0x1_0000;
    var q3 := x / 0x100_0000;
    DivByteTwice(x);
    DivByteTwice(q1);
    assert b[1..][1..][1..][1..] == [];
    assert LeValue(b[1..][1..][1..]) == q3;
    assert LeValue(b[1..][1..]) == q2 % 0x100 + 0x100 * q3 == q2;
    assert LeValue(b[1..]) == q1 % 0x100 + 0x100 * q2 == q1;
  }

  /** Dividing by 2^16 is dividing by 2^8 twice. */
  lemma DivByteTwice(x: nat)
    ensures x / 0x1_0000 == x / 0x100 / 0x100
    ensures x / 0x100_0000 == x / 0x100 / 0x1_0000
  {
    var q1 := x / 0x100;
    assert x == 0x1_0000 * (q1 / 0x100) + (0x100 * (q1 % 0x100) + x % 0x100);
    assert x == 0x100_0000 * (q1 / 0x1_0000) + (0x100 * (q1 % 0x1_0000) + x % 0x100);
  }

  // ---------------------------------------------------------------------
  // Properties of the copy
  // ---------------------------------------------------------------------

  /** Nothing is appended past the size limit: the count stays below `maxSize` once anything is added. */
  lemma {:induction false} FillBound(ies: seq<Byte>, f: Filter, maxSize: nat, n: nat)
    requires WellFormedIes(ies)
    ensures |Fill(ies, f, maxSize, n)| == 0 || n + |Fill(ies, f, maxSize, n)| < maxSize
    decreases |ies|
  {
    if |ies| > 0 {
      var len := ies[1] + 2;
      FillBound(ies[len..], f, maxSize, n + len);
      FillBound(ies[len..], f, maxSize, n);
    }
  }

  /** Every element of a well-formed list passes the filter. */
  predicate AllWanted(ies: seq<Byte>, f: Filter)
    requires WellFormedIes(ies)
    decreases |ies|
  {
    |ies| == 0 || (Wanted(f, ies[0]) && AllWanted(ies[ies[1] + 2..], f))
  }

  /** Prefixing one element to a well-formed list. */
  lemma ConsIe(e: seq<Byte>, rest: seq<Byte>)
    requires |e| >= 2 && e[1] <= 253 && |e| == e[1] + 2
    requires WellFormedIes(rest)
    ensures WellFormedIes(e + rest)
    ensures (e + rest)[..e[1] + 2] == e && (e + rest)[e[1] + 2..] == rest
    ensures IeList(e + rest) == [e] + IeList(rest)
  {
    assert (e + rest)[e[1] + 2..] == rest;
  }

  /**
   * The appended bytes are themselves a well-formed element list, made
   * of wanted elements only, each an element of the source list, in
   * source order and at most once.
   */
  lemma {:induction false} FillSelects(ies: seq<Byte>, f: Filter, maxSize: nat, n: nat)
    requires WellFormedIes(ies)
    ensures WellFormedIes(Fill(ies, f, maxSize, n))
    ensures AllWanted(Fill(ies, f, maxSize, n), f)
    ensures IsSubseq(IeList(Fill(ies, f, maxSize, n)), IeList(ies))
    decreases |ies|
  {
    FillWanted(ies, f, maxSize, n);
    if |ies| > 0 {
      var len := ies[1] + 2;
      var rest := ies[len..];
      if Wanted(f, ies[0]) && n + len < maxSize {
        FillSelects(rest, f, maxSize, n + len);
        CopiedSubseq(ies, len, rest, f, maxSize, n);
      } else {
        FillSelects(rest, f, maxSize, n);
        SkippedSubseq(ies, len, rest, f, maxSize, n);
      }
    }
  }

  /** A copied head element stays in front of the elements copied after it. */
  lemma CopiedSubseq(ies: seq<Byte>, len: nat, rest: seq<Byte>, f: Filter, maxSize: nat, n: nat)
    requires |ies| > 0 && WellFormedIes(ies) && len == ies[1] + 2 && rest == ies[len..]
    requires Wanted(f, ies[0]) && n + len < maxSize
    requires WellFormedIes(rest) && WellFormedIes(Fill(rest, f, maxSize, n + len))
    requires IsSubseq(IeList(Fill(rest, f, maxSize, n + len)), IeList(rest))
    ensures WellFormedIes(Fill(ies, f, maxSize, n))
    ensures IsSubseq(IeList(Fill(ies, f, maxSize, n)), IeList(ies))
  {
    var e := ies[..len];
    assert |e| == len && e[1] == ies[1] <= 253;
    var tail := Fill(rest, f, maxSize, n + len);
    var fill := Fill(ies, f, maxSize, n);
    assert fill == e + tail;
    ConsIe(e, tail);
    assert IeList(fill) == [e] + IeList(tail);
    assert IeList(ies) == [e] + IeList(rest);
    SubseqConsBoth(e, IeList(tail), IeList(rest));
  }

  /** A skipped head element leaves the elements copied after it a subsequence. */
  lemma SkippedSubseq(ies: seq<Byte>, len: nat, rest: seq<Byte>, f: Filter, maxSize: nat, n: nat)
    requires |ies| > 0 && WellFormedIes(ies) && len == ies[1] + 2 && rest == ies[len..]
    requires !(Wanted(f, ies[0]) && n + len < maxSize)
    requires WellFormedIes(rest) && WellFormedIes(Fill(rest, f, maxSize, n))
    requires IsSubseq(IeList(Fill(rest, f, maxSize, n)), IeList(rest))
    ensures WellFormedIes(Fill(ies, f, maxSize, n))
    ensures IsSubseq(IeList(Fill(ies, f, maxSize, n)), IeList(ies))
  {
    SubseqDropHead(IeList(Fill(rest, f, maxSize, n)), ies[..len], IeList(rest));
  }

  /** Putting the same element in front of both lists keeps a subsequence. */
  lemma SubseqConsBoth(x: seq<Byte>, a: seq<seq<Byte>>, b: seq<seq<Byte>>)
    requires IsSubseq(a, b)
    ensures IsSubseq([x] + a, [x] + b)
  {
    assert ([x] + a)[1..] == a && ([x] + b)[1..] == b;
  }

  /** Only wanted elements are appended. */
  lemma {:induction false} FillWanted(ies: seq<Byte>, f: Filter, maxSize: nat, n: nat)
    requires WellFormedIes(ies)
    ensures WellFormedIes(Fill(ies, f, maxSize, n)) && AllWanted(Fill(ies, f, maxSize, n), f)
    decreases |ies|
  {
    if |ies| > 0 {
      var len := ies[1] + 2;
      var e, rest := ies[..len], ies[len..];
      if Wanted(f, ies[0]) && n + len < maxSize {
        var tail := Fill(rest, f, maxSize, n + len);
        FillWanted(rest, f, maxSize, n + len);
        assert Fill(ies, f, maxSize, n) == e + tail;
        ConsIe(e, tail);
        assert (e + tail)[0] == ies[0] && (e + tail)[1] == ies[1];
        assert AllWanted(e + tail, f);
      } else {
        FillWanted(rest, f, maxSize, n);
      }
    }
  }

  /** A subsequence of `b` is one of `b` with an element put in front. */
  lemma {:induction false} SubseqDropHead(a: seq<seq<Byte>>, x: seq<Byte>, b: seq<seq<Byte>>)
    requires IsSubseq(a, b)
    ensures IsSubseq(a, [x] + b)
    decreases |b|, 1
  {
    if |a| > 0 && a[0] == x {
      SubseqCons(a, b);
    }
    assert ([x] + b)[1..] == b;
  }

  /** Dropping the first element of a subsequence leaves a subsequence. */
  lemma {:induction false} SubseqCons(a: seq<seq<Byte>>, b: seq<seq<Byte>>)
    requires |a| > 0 && IsSubseq(a, b)
    ensures IsSubseq(a[1..], b)
    decreases |b|, 0
  {
    if a[0] == b[0] {
      SubseqDropHead(a[1..], b[0], b[1..]);
      assert [b[0]] + b[1..] == b;
    } else {
      SubseqCons(a, b[1..]);
      SubseqDropHead(a[1..], b[0], b[1..]);
      assert [b[0]] + b[1..] == b;
    }
  }

  /** Without an id list and with room for everything, the whole list is copied. */
  lemma {:induction false} FillAllFits(ies: seq<Byte>, maxSize: nat, n: nat)
    requires WellFormedIes(ies)
    requires n + |ies| < maxSize
    ensures Fill(ies, AllIes, maxSize, n) == ies
    decreases |ies|
  {
    if |ies| > 0 {
      var len := ies[1] + 2;
      FillAllFits(ies[len..], maxSize, n + len);
      assert ies[..len] + ies[len..] == ies;
    }
  }

  // ---------------------------------------------------------------------
  // The copy, in place
  // ---------------------------------------------------------------------

  /** `vos_mem_copy` of `bytes` into the buffer at `off`. */
  method CopyBytes(buf: array<Byte>, off: nat, bytes: seq<Byte>)
    requires off + |bytes| <= buf.Length
    modifies buf
    ensures buf[..] == old(buf[..])[..off] + bytes + old(buf[..])[off + |bytes|..]
  {
    forall k | 0 <= k < |bytes| {
      buf[off + k] := bytes[k];
    }
    assert buf[..] == old(buf[..])[..off] + bytes + old(buf[..])[off + |bytes|..];
  }

  /**
   * One step of the walk, on values: the element at the head of `rest`
   * appended to what was written, or skipped, leaves the written bytes
   * plus what is still to come unchanged, and keeps the size bound.
   */
  lemma WalkStep(rest: seq<Byte>, f: Filter, maxSize: nat, n: nat, copied: bool,
                 written: seq<Byte>, total: seq<Byte>, n2: nat, written2: seq<Byte>)
    requires |rest| > 0 && WellFormedIes(rest)
    requires copied <==> Wanted(f, rest[0]) && n + rest[1] + 2 < maxSize
    requires written + Fill(rest, f, maxSize, n) == total
    requires n2 == if copied then n + rest[1] + 2 else n
    requires written2 == if copied then written + rest[..rest[1] + 2] else written
    ensures WellFormedIes(rest[rest[1] + 2..])
    ensures written2 + Fill(rest[rest[1] + 2..], f, maxSize, n2) == total
    ensures |Fill(rest[rest[1] + 2..], f, maxSize, n2)| == 0
      || n2 + |Fill(rest[rest[1] + 2..], f, maxSize, n2)| < maxSize
  {
    var len := rest[1] + 2;
    if copied {
      assert written + rest[..len] + Fill(rest[len..], f, maxSize, n2)
        == written + (rest[..len] + Fill(rest[len..], f, maxSize, n2));
    }
    FillBound(rest[len..], f, maxSize, n2);
  }

  /**
   * One step of the walk through `ies`: `WalkStep` on the elements from
   * `pos` to where the walk ends, and the walk from the next element
   * ends at the same place.
   */
  lemma WalkRegionStep(ies: seq<Byte>, pos: nat, count: Byte, end: nat, next: nat, count2: Byte,
                       f: Filter, maxSize: nat, n: nat,
                       copied: bool, written: seq<Byte>, total: seq<Byte>, n2: nat, written2: seq<Byte>)
    requires pos <= |ies| && count > 0 && ElementFits(ies, pos)
    requires next == pos + ies[pos + 1] + 2 && count2 == ToU8(count - (ies[pos + 1] + 2))
    requires WalkFit(ies, WalkState(pos, count)).pos == end
    requires copied <==> Wanted(f, ies[pos]) && n + ies[pos + 1] + 2 < maxSize
    requires written + Fill(ies[pos..end], f, maxSize, n) == total
    requires n2 == if copied then n + ies[pos + 1] + 2 else n
    requires written2 == if copied then written + ies[pos..next] else written
    ensures next <= end && WalkFit(ies, WalkState(next, count2)).pos == end
    ensures written2 + Fill(ies[next..end], f, maxSize, n2) == total
    ensures |Fill(ies[next..end], f, maxSize, n2)| == 0 || n2 + |Fill(ies[next..end], f, maxSize, n2)| < maxSize
  {
    WalkFitNext(ies, pos, count, next, count2);
    FillNext(ies, pos, end, next, f, maxSize, n, copied, written, total, n2, written2);
  }

  /** The walk from the element after `pos`, with the counter stepped, ends where the walk from `pos` ends. */
  lemma WalkFitNext(ies: seq<Byte>, pos: nat, count: Byte, next: nat, count2: Byte)
    requires pos <= |ies| && count > 0 && ElementFits(ies, pos)
    requires next == pos + ies[pos + 1] + 2 && count2 == ToU8(count - (ies[pos + 1] + 2))
    ensures next <= WalkFit(ies, WalkState(pos, count)).pos
    ensures WalkFit(ies, WalkState(next, count2)) == WalkFit(ies, WalkState(pos, count))
  {
    assert WalkStepU8(ies, WalkState(pos, count)) == WalkState(next, count2);
  }

  /** `WalkStep` on the elements of `ies` from `pos` to `end`. */
  lemma FillNext(ies: seq<Byte>, pos: nat, end: nat, next: nat, f: Filter, maxSize: nat, n: nat,
                 copied: bool, written: seq<Byte>, total: seq<Byte>, n2: nat, written2: seq<Byte>)
    requires pos + 2 <= next <= end <= |ies| && next == pos + ies[pos + 1] + 2
    requires WellFormedIes(ies[pos..end])
    requires copied <==> Wanted(f, ies[pos]) && n + ies[pos + 1] + 2 < maxSize
    requires written + Fill(ies[pos..end], f, maxSize, n) == total
    requires n2 == if copied then n + ies[pos + 1] + 2 else n
    requires written2 == if copied then written + ies[pos..next] else written
    ensures written2 + Fill(ies[next..end], f, maxSize, n2) == total
    ensures |Fill(ies[next..end], f, maxSize, n2)| == 0 || n2 + |Fill(ies[next..end], f, maxSize, n2)| < maxSize
  {
    var rest := ies[pos..end];
    assert rest[0] == ies[pos] && rest[1] == ies[pos + 1];
    assert rest[..rest[1] + 2] == ies[pos..next];
    assert rest[rest[1] + 2..] == ies[next..end];
    WalkStep(rest, f, maxSize, n, copied, written, total, n2, written2);
  }

  /** The buffer after copying `bytes` behind the fixed fields and what was already written. */
  lemma BufferAfterCopy(fixed: seq<Byte>, written: seq<Byte>, bytes: seq<Byte>, orig: seq<Byte>, buf: seq<Byte>)
    requires |fixed| + |written| + |bytes| <= |orig|
    requires buf == (fixed + written + orig[|fixed| + |written|..])[..|fixed| + |written|] + bytes
      + (fixed + written + orig[|fixed| + |written|..])[|fixed| + |written| + |bytes|..]
    ensures buf == fixed + (written + bytes) + orig[|fixed| + |written + bytes|..]
  {
    var old1 := fixed + written + orig[|fixed| + |written|..];
    assert old1[..|fixed| + |written|] == fixed + written;
    assert old1[|fixed| + |written| + |bytes|..] == orig[|fixed| + |written| + |bytes|..];
  }

  /**
   * The do-while over the id list: true exactly when the element with id
   * `id` is wanted and fits.
   */
  method MatchAndFits(eids: Option<seq<Byte>>, numEids: Byte, stray: Byte, id: Byte, fits: bool)
      returns (hit: bool)
    requires eids.Some? ==> numEids <= |eids.value|
    ensures hit <==> Wanted(FilterOf(eids, numEids, stray), id) && fits
  {
    var n := if eids.None? then 0 else numEids;
    var i := 0;
    hit := false;
    while true
      invariant 0 <= i < EidsTried(n)
      invariant eids.Some? ==> forall k :: 0 <= k < i ==> EidAt(eids.value, k, stray) != id || !fits
      invariant !hit
      decreases EidsTried(n) - i
    {
      if (eids.None? || id == EidAt(eids.value, i, stray)) && fits {
        hit := true;
        break;
      }
      i := i + 1;
      if !(i < n) {
        break;
      }
    }
    if eids.Some? {
      var ids := EidsRead(eids.value, numEids, stray);
      if hit {
        assert ids[i] == id;
      } else {
        assert forall k :: 0 <= k < |ids| ==> ids[k] != id || !fits;
      }
    }
  }

  /**
   * `rrmFillBeaconIes`. With no BSS description it returns at once and
   * the count keeps its value; otherwise the buffer starts with the fixed
   * fields followed by the wanted elements that fit, the count is the
   * number of bytes written, and the rest of the buffer is untouched.
   */
  method FillBeaconIes(buf: array<Byte>, numIesIn: Byte, maxSize: Byte,
                       eids: Option<seq<Byte>>, numEids: Byte, stray: Byte, desc: Option<BssDesc>)
      returns (numIes: Byte)
    requires 12 <= buf.Length && maxSize <= buf.Length
    requires eids.Some? ==> numEids <= |eids.value|
    modifies buf
    ensures desc.None? ==> numIes == numIesIn && buf[..] == old(buf[..])
    ensures desc.Some? ==>
      && numIes <= buf.Length
      && numIes as int == 12 + |Fill(BcnIes(desc.value), FilterOf(eids, numEids, stray), maxSize, 12)|
      && buf[..numIes] == FixedFields(desc.value) + Fill(BcnIes(desc.value), FilterOf(eids, numEids, stray), maxSize, 12)
      && buf[numIes..] == old(buf[numIes..])
  {
    if desc.None? {
      return numIesIn;
    }
    var d := desc.value;
    CopyBytes(buf, 0, FixedFields(d));
    numIes := WalkIes(buf, d.ieFields, ToU8(d.ieLen), maxSize, eids, numEids, stray, FixedFields(d));
  }

  /**
   * The element walk of `rrmFillBeaconIes`, behind the fixed fields
   * already in the buffer: `ies` is what `pBcnIes` points at and
   * `bcnNumIes` the counter it starts from.
   */
  method WalkIes(buf: array<Byte>, ies: seq<Byte>, bcnNumIes: Byte, maxSize: Byte,
                 eids: Option<seq<Byte>>, numEids: Byte, stray: Byte, ghost fixed: seq<Byte>)
      returns (numIes: Byte)
    requires maxSize <= buf.Length && |fixed| == 12 <= buf.Length
    requires eids.Some? ==> numEids <= |eids.value|
    requires buf[..12] == fixed
    modifies buf
    ensures numIes as int == 12 + |Fill(WalkRegion(ies, bcnNumIes), FilterOf(eids, numEids, stray), maxSize, 12)| <= buf.Length
    ensures buf[..] == fixed + Fill(WalkRegion(ies, bcnNumIes), FilterOf(eids, numEids, stray), maxSize, 12) + old(buf[numIes..])
  {
    ghost var f := FilterOf(eids, numEids, stray);
    ghost var old0 := buf[..];
    ghost var region := WalkRegion(ies, bcnNumIes);
    assert old0 == fixed + [] + old0[12..];
    assert ies[0..|region|] == region;
    FillBound(region, f, maxSize, 12);
    ghost var written;
    numIes, written := WalkRest(buf, ies, 0, bcnNumIes, 12, maxSize, eids, numEids, stray,
                                fixed, [], Fill(region, f, maxSize, 12), old0);
  }

  /**
   * What the walk from offset `pos` with the counter at `count` still has
   * to append: the elements up to `end`, where the walk stops, behind the
   * `written` bytes, making up `total`, and never past `maxSize`.
   */
  ghost predicate WalkInv(ies: seq<Byte>, pos: nat, count: Byte, end: nat, f: Filter, maxSize: nat,
                          n: nat, written: seq<Byte>, total: seq<Byte>)
  {
    && pos <= end <= |ies| && WalkFit(ies, WalkState(pos, count)).pos == end
    && written + Fill(ies[pos..end], f, maxSize, n) == total
    && (|Fill(ies[pos..end], f, maxSize, n)| == 0 || n + |Fill(ies[pos..end], f, maxSize, n)| < maxSize)
  }

  /**
   * The loop of the walk, from offset `pos0` of `ies` with the counter at
   * `bcnNumIes0`, after `written` bytes of elements have been appended
   * behind `fixed`. The loop also stops at an element that does not fit.
   */
  method WalkRest(buf: array<Byte>, ies: seq<Byte>, pos0: nat, bcnNumIes0: Byte, numIes0: Byte, maxSize: Byte,
                  eids: Option<seq<Byte>>, numEids: Byte, stray: Byte,
                  ghost fixed: seq<Byte>, ghost written0: seq<Byte>, ghost total: seq<Byte>, ghost old0: seq<Byte>)
      returns (numIes: Byte, ghost written: seq<Byte>)
    requires pos0 <= |ies|
    requires maxSize <= buf.Length == |old0|
    requires eids.Some? ==> numEids <= |eids.value|
    requires numIes0 as int == |fixed| + |written0| <= buf.Length
    requires buf[..] == fixed + written0 + old0[numIes0..]
    requires var rest := ies[pos0..WalkFit(ies, WalkState(pos0, bcnNumIes0)).pos];
      && written0 + Fill(rest, FilterOf(eids, numEids, stray), maxSize, numIes0) == total
      && (|Fill(rest, FilterOf(eids, numEids, stray), maxSize, numIes0)| == 0
          || numIes0 + |Fill(rest, FilterOf(eids, numEids, stray), maxSize, numIes0)| < maxSize)
    modifies buf
    ensures written == total && numIes as int == |fixed| + |total| <= buf.Length
    ensures buf[..] == fixed + total + old0[numIes..]
  {
    ghost var f := FilterOf(eids, numEids, stray);
    ghost var end := WalkFit(ies, WalkState(pos0, bcnNumIes0)).pos;
    numIes, written := numIes0, written0;
    var pos, bcnNumIes := pos0, bcnNumIes0;
    while bcnNumIes > 0 && ElementFits(ies, pos)
      invariant WalkInv(ies, pos, bcnNumIes, end, f, maxSize, numIes, written, total)
      invariant numIes as int == |fixed| + |written| <= buf.Length
      invariant buf[..] == fixed + written + old0[numIes..]
      decreases |ies| - pos
    {
      pos, bcnNumIes, numIes, written := WalkNext(buf, ies, pos, bcnNumIes, numIes, maxSize, eids, numEids, stray,
                                                  fixed, written, total, old0, end);
    }
  }

  /**
   * One iteration of the walk: the element at `pos` copied behind what
   * was written or skipped, `pBcnIes` moved past it and the counter
   * stepped down in bytes.
   */
  method WalkNext(buf: array<Byte>, ies: seq<Byte>, pos: nat, bcnNumIes: Byte, numIes: Byte, maxSize: Byte,
                  eids: Option<seq<Byte>>, numEids: Byte, stray: Byte,
                  ghost fixed: seq<Byte>, ghost written: seq<Byte>, ghost total: seq<Byte>, ghost old0: seq<Byte>,
                  ghost end: nat)
      returns (pos2: nat, bcnNumIes2: Byte, numIes2: Byte, ghost written2: seq<Byte>)
    requires bcnNumIes > 0 && ElementFits(ies, pos)
    requires WalkInv(ies, pos, bcnNumIes, end, FilterOf(eids, numEids, stray), maxSize, numIes, written, total)
    requires maxSize <= buf.Length == |old0|
    requires eids.Some? ==> numEids <= |eids.value|
    requires numIes as int == |fixed| + |written| <= buf.Length
    requires buf[..] == fixed + written + old0[numIes..]
    modifies buf
    ensures pos < pos2
    ensures WalkInv(ies, pos2, bcnNumIes2, end, FilterOf(eids, numEids, stray), maxSize, numIes2, written2, total)
    ensures numIes2 as int == |fixed| + |written2| <= buf.Length
    ensures buf[..] == fixed + written2 + old0[numIes2..]
  {
    var len := ies[pos + 1] + 2;
    var copied;
    numIes2, written2, copied := NextIe(buf, ies[pos..pos + len], numIes, maxSize, eids, numEids, stray,
                                        fixed, written, old0);
    pos2, bcnNumIes2 := pos + len, ToU8(bcnNumIes as int - len);
    WalkRegionStep(ies, pos, bcnNumIes, end, pos2, bcnNumIes2, FilterOf(eids, numEids, stray), maxSize, numIes,
                   copied, written, total, numIes2, written2);
  }

  /** One pass of the walk: the element `e` copied behind what was written, or skipped. */
  method NextIe(buf: array<Byte>, e: seq<Byte>, numIes: Byte, maxSize: Byte,
                eids: Option<seq<Byte>>, numEids: Byte, stray: Byte,
                ghost fixed: seq<Byte>, ghost written: seq<Byte>, ghost orig: seq<Byte>)
      returns (numIes2: Byte, ghost written2: seq<Byte>, copied: bool)
    requires |e| >= 2 && e[1] <= 253 && |e| == e[1] + 2
    requires maxSize <= buf.Length == |orig|
    requires eids.Some? ==> numEids <= |eids.value|
    requires numIes as int == |fixed| + |written| <= buf.Length
    requires buf[..] == fixed + written + orig[numIes..]
    modifies buf
    ensures copied <==> Wanted(FilterOf(eids, numEids, stray), e[0]) && numIes + |e| < maxSize
    ensures numIes2 as int == if copied then numIes + |e| else numIes
    ensures written2 == if copied then written + e else written
    ensures numIes2 as int == |fixed| + |written2| <= buf.Length
    ensures buf[..] == fixed + written2 + orig[numIes2..]
  {
    var len := e[1] + 2;
    copied := MatchAndFits(eids, numEids, stray, e[0], numIes + len < maxSize);
    numIes2, written2 := numIes, written;
    if copied {
      CopyBytes(buf, numIes, e);
      BufferAfterCopy(fixed, written, e, orig, buf[..]);
      written2 := written + e;
      numIes2 := numIes + len;
    }
  }
}
