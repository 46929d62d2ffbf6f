/**
  The wire format of a request: a 276-byte header and a body of type-length-value records,
  standard ones with a 4-byte head and extended ones with a 40-byte head that names them.
  */
module MsgLayout {
  import opened Bytes

  const HEADER_LEN := 276
  const PROC_NAME_LEN := 256
  const TLV_LEN := 4
  const EXT_LEN := 40
  const NAME_LEN := 32
  const MAX_MSG_TOTAL_LENGTH := 64 * 1024
  const MAX_TLV_COUNT := 128
  const MAGIC: u32 := 0xEF20_1234
  const INVALID_OFFSET: u32 := 0xFFFF_FFFF
  const DATA_TYPE_STRING: u16 := 1

  const TLV_BUNDLE_INFO := 0
  const TLV_MSG_FLAGS := 1
  const TLV_DAC_INFO := 2
  const TLV_DOMAIN_INFO := 3
  const TLV_OWNER_INFO := 4
  const TLV_ACCESS_TOKEN_INFO := 5
  const TLV_PERMISSION := 6
  const TLV_INTERNET_INFO := 7
  const TLV_RENDER_TERMINATION_INFO := 8
  const TLV_CHECK_POINT_INFO := 9
  const TLV_MAX := 10

  const DAC_INFO_LEN := 332
  const BUNDLE_NAME_LEN := 256
  const OWNER_ID_LEN := 64
  const APL_LEN := 32

  const MSG_APP_SPAWN: u32 := 0
  const MSG_GET_RENDER_TERMINATION_STATUS: u32 := 1
  const MSG_SPAWN_NATIVE_PROCESS: u32 := 2
  const MSG_DEVICE_DEBUG: u32 := 8
  const MSG_SPAWN_IMAGE_PROCESS: u32 := 14
  const MSG_SPAWN_WORKER_PROCESS: u32 := 15

  // ------------------------------------------------------------------------- header

  function HeaderBytes(msgType: u32, msgLen: u32, msgId: u32, tlvCount: u32, processName: Bytes): (h: Bytes)
    requires |processName| < PROC_NAME_LEN
    ensures |h| == HEADER_LEN
  {
    LE32(MAGIC) + LE32(msgType) + LE32(msgLen) + LE32(msgId) + LE32(tlvCount)
    + processName + Zeros(PROC_NAME_LEN - |processName|)
  }

  function Magic(h: Bytes): u32 requires |h| >= HEADER_LEN { U32(h, 0) }
  function MsgType(h: Bytes): u32 requires |h| >= HEADER_LEN { U32(h, 4) }
  function MsgLen(h: Bytes): u32 requires |h| >= HEADER_LEN { U32(h, 8) }
  function TlvCount(h: Bytes): u32 requires |h| >= HEADER_LEN { U32(h, 16) }

  lemma HeaderFields(msgType: u32, msgLen: u32, msgId: u32, tlvCount: u32, processName: Bytes)
    requires |processName| < PROC_NAME_LEN
    ensures var h := HeaderBytes(msgType, msgLen, msgId, tlvCount, processName);
            && Magic(h) == MAGIC && MsgType(h) == msgType && MsgLen(h) == msgLen && TlvCount(h) == tlvCount
            && U32(h, 12) == msgId
            && (IsText(processName) ==> TextAt(h, 20, processName))
  {
    var h := HeaderBytes(msgType, msgLen, msgId, tlvCount, processName);
    assert h[0..4] == LE32(MAGIC);
    assert h[4..8] == LE32(msgType);
    assert h[8..12] == LE32(msgLen);
    assert h[12..16] == LE32(msgId);
    assert h[16..20] == LE32(tlvCount);
    U32OfLE32(h, 0, MAGIC);
    U32OfLE32(h, 4, msgType);
    U32OfLE32(h, 8, msgLen);
    U32OfLE32(h, 12, msgId);
    U32OfLE32(h, 16, tlvCount);
  }

  // ------------------------------------------------------------------------- records

  /** A record as its writer sees it; the bytes on the wire are padded to a multiple of four. */
  datatype Tlv = Std(tlvType: nat, payload: Bytes) | Ext(name: Bytes, data: Bytes, dataType: u16)

  /** The data of an extended record with the terminator a string carries. */
  function ExtPayload(t: Tlv): Bytes
    requires t.Ext?
  {
    if t.dataType == DATA_TYPE_STRING then t.data + [0] else t.data
  }

  function TlvSize(t: Tlv): (n: nat)
    ensures n >= TLV_LEN
  {
    match t
    case Std(_, payload) => TLV_LEN + Align4(|payload|)
    case Ext(_, _, _) => EXT_LEN + Align4(|ExtPayload(t)|)
  }

  /** The writer's conditions: the length fields are 16 bits wide and the name field holds the
      name and its terminator. */
  predicate Encodable(t: Tlv) {
    && TlvSize(t) < 0x1_0000
    && (t.Std? ==> t.tlvType < TLV_MAX)
    && (t.Ext? ==> |t.name| < NAME_LEN && IsText(t.name))
  }

  function TlvBytes(t: Tlv): (r: Bytes)
    requires Encodable(t)
    ensures |r| == TlvSize(t)
  {
    match t
    case Std(tlvType, payload) => LE16(TlvSize(t)) + LE16(tlvType) + Padded(payload)
    case Ext(name, data, dataType) =>
      LE16(TlvSize(t)) + LE16(TLV_MAX) + LE16(|data|) + LE16(dataType)
      + (name + Zeros(NAME_LEN - |name|)) + Padded(ExtPayload(t))
  }

  ghost predicate AllEncodable(ts: seq<Tlv>) {
    forall i :: 0 <= i < |ts| ==> Encodable(ts[i])
  }

  function BodySize(ts: seq<Tlv>): (n: nat)
  {
    if ts == [] then 0 else BodySize(ts[..|ts| - 1]) + TlvSize(ts[|ts| - 1])
  }

  function BodyBytes(ts: seq<Tlv>): (r: Bytes)
    requires AllEncodable(ts)
    ensures |r| == BodySize(ts)
  {
    if ts == [] then [] else BodyBytes(ts[..|ts| - 1]) + TlvBytes(ts[|ts| - 1])
  }

  lemma BodyAppend(ts: seq<Tlv>, t: Tlv)
    ensures BodySize(ts + [t]) == BodySize(ts) + TlvSize(t)
    ensures AllEncodable(ts) && Encodable(t) ==>
              AllEncodable(ts + [t]) && BodyBytes(ts + [t]) == BodyBytes(ts) + TlvBytes(t)
  {
    assert (ts + [t])[..|ts|] == ts;
  }

  /** Where record i starts in the body. */
  function Offset(ts: seq<Tlv>, i: nat): nat
    requires i <= |ts|
  {
    BodySize(ts[..i])
  }

  lemma OffsetStep(ts: seq<Tlv>, i: nat)
    requires i < |ts|
    ensures Offset(ts, i + 1) == Offset(ts, i) + TlvSize(ts[i])
  {
    assert ts[..i + 1][..i] == ts[..i];
  }

  lemma OffsetInPrefix(ts: seq<Tlv>, n: nat, i: nat)
    requires i <= n <= |ts|
    ensures Offset(ts[..n], i) == Offset(ts, i)
  {
    assert ts[..n][..i] == ts[..i];
  }

  lemma OffsetsIncrease(ts: seq<Tlv>, i: nat, j: nat)
    requires i <= j <= |ts|
    ensures Offset(ts, i) <= Offset(ts, j)
    decreases j - i
  {
    if i < j {
      OffsetsIncrease(ts, i, j - 1);
      OffsetStep(ts, j - 1);
    }
  }

  lemma OffsetBound(ts: seq<Tlv>, i: nat)
    requires i < |ts|
    ensures Offset(ts, i) + TlvSize(ts[i]) <= BodySize(ts)
  {
    OffsetStep(ts, i);
    OffsetsIncrease(ts, i + 1, |ts|);
    assert ts[..|ts|] == ts;
  }

  /** Records are multiples of four long. */
  lemma {:induction false} BodyAligned(ts: seq<Tlv>)
    ensures BodySize(ts) % 4 == 0
  {
    if ts != [] {
      BodyAligned(ts[..|ts| - 1]);
    }
  }

  predicate StandsAt(mem: Bytes, at: nat, part: Bytes) {
    at + |part| <= |mem| && mem[at..at + |part|] == part
  }

  lemma StandsInLonger(mem: Bytes, at: nat, part: Bytes, more: Bytes)
    requires StandsAt(mem, at, part)
    ensures StandsAt(mem + more, at, part)
  {
  }

  lemma StandsLast(mem: Bytes, part: Bytes)
    ensures StandsAt(mem + part, |mem|, part)
  {
  }

  /** Record i stands in the body at its offset. */
  lemma {:induction false} RecordInBody(ts: seq<Tlv>, i: nat)
    requires AllEncodable(ts) && i < |ts|
    ensures StandsAt(BodyBytes(ts), Offset(ts, i), TlvBytes(ts[i]))
    decreases |ts|
  {
    var n := |ts| - 1;
    if i == n {
      StandsLast(BodyBytes(ts[..n]), TlvBytes(ts[n]));
    } else {
      OffsetInPrefix(ts, n, i);
      RecordInBody(ts[..n], i);
      StandsInLonger(BodyBytes(ts[..n]), Offset(ts, i), TlvBytes(ts[i]), TlvBytes(ts[n]));
    }
  }

  // ------------------------------------------------------------------------- reading records

  /** A byte range as the C string it starts with. */
  function CString(b: Bytes): (s: Bytes)
    ensures |s| <= |b| && s == b[..|s|] && IsText(s)
    ensures |s| < |b| ==> b[|s|] == 0
  {
    if b == [] || b[0] == 0 then [] else [b[0]] + CString(b[1..])
  }

  function LenAt(mem: Bytes, at: nat): u16 requires at + TLV_LEN <= |mem| { U16(mem, at) }
  function TypeAt(mem: Bytes, at: nat): u16 requires at + TLV_LEN <= |mem| { U16(mem, at + 2) }
  function DataLenAt(mem: Bytes, at: nat): u16 requires at + 8 <= |mem| { U16(mem, at + 4) }

  /** A record stands at `at` and all its readers look at lies in memory: of an extended one the head, and as
      much data as the head says, which need not end where the record does. */
  predicate RecordAt(mem: Bytes, at: nat) {
    && at + TLV_LEN <= |mem|
    && LenAt(mem, at) >= TLV_LEN
    && at + LenAt(mem, at) <= |mem|
    && (TypeAt(mem, at) >= TLV_MAX ==>
          && TypeAt(mem, at) == TLV_MAX
          && at + EXT_LEN <= |mem| && at + EXT_LEN + DataLenAt(mem, at) <= |mem|)
  }

  /** The record at an address, as its reader sees it; a name without a terminator fills its field. */
  function ReadTlv(mem: Bytes, at: nat): Tlv
    requires RecordAt(mem, at)
  {
    if TypeAt(mem, at) < TLV_MAX then Std(TypeAt(mem, at), mem[at + TLV_LEN..at + LenAt(mem, at)])
    else Ext(CString(mem[at + 8..at + EXT_LEN]), mem[at + EXT_LEN..at + EXT_LEN + DataLenAt(mem, at)],
             U16(mem, at + 6))
  }

  /** What a reader sees of a written record: a standard payload comes back with its padding. */
  function AsRead(t: Tlv): Tlv {
    match t
    case Std(tlvType, payload) => Std(tlvType, Padded(payload))
    case Ext(_, _, _) => t
  }

  lemma CStringOf(name: Bytes, rest: Bytes)
    requires IsText(name)
    ensures CString(name + [0] + rest) == name
    decreases |name|
  {
    if name == [] {
      assert name + [0] + rest == [0] + rest;
    } else {
      assert (name + [0] + rest)[1..] == name[1..] + [0] + rest;
      CStringOf(name[1..], rest);
    }
  }

  lemma StdHead(t: Tlv)
    requires Encodable(t) && t.Std?
    ensures LenAt(TlvBytes(t), 0) == TlvSize(t) && TypeAt(TlvBytes(t), 0) == t.tlvType
    ensures TlvBytes(t)[TLV_LEN..] == Padded(t.payload)
  {
    var b := TlvBytes(t);
    assert b[0..2] == LE16(TlvSize(t)) && b[2..4] == LE16(t.tlvType);
    U16OfLE16(b, 0, TlvSize(t));
    U16OfLE16(b, 2, t.tlvType);
  }

  lemma ExtHead(t: Tlv)
    requires Encodable(t) && t.Ext?
    ensures var b := TlvBytes(t);
            && LenAt(b, 0) == TlvSize(t) && TypeAt(b, 0) == TLV_MAX
            && DataLenAt(b, 0) == |t.data| && U16(b, 6) == t.dataType
            && b[8..EXT_LEN] == t.name + Zeros(NAME_LEN - |t.name|)
            && b[EXT_LEN..] == Padded(ExtPayload(t))
  {
    var b := TlvBytes(t);
    assert b[0..2] == LE16(TlvSize(t)) && b[2..4] == LE16(TLV_MAX);
    assert b[4..6] == LE16(|t.data|) && b[6..8] == LE16(t.dataType);
    U16OfLE16(b, 0, TlvSize(t));
    U16OfLE16(b, 2, TLV_MAX);
    U16OfLE16(b, 4, |t.data|);
    U16OfLE16(b, 6, t.dataType);
  }

  lemma NameReadBack(name: Bytes)
    requires IsText(name) && |name| < NAME_LEN
    ensures CString(name + Zeros(NAME_LEN - |name|)) == name
  {
    var k := NAME_LEN - |name|;
    assert Zeros(k) == [0] + Zeros(k - 1);
    assert name + Zeros(k) == name + [0] + Zeros(k - 1);
    CStringOf(name, Zeros(k - 1));
  }

  /** Writing a record and reading it back. */
  lemma ReadWritten(t: Tlv)
    requires Encodable(t)
    ensures RecordAt(TlvBytes(t), 0) && LenAt(TlvBytes(t), 0) == TlvSize(t)
    ensures ReadTlv(TlvBytes(t), 0) == AsRead(t)
  {
    hide CString, TlvBytes;
    var b := TlvBytes(t);
    if t.Std? {
      StdHead(t);
    } else {
      ExtHead(t);
      NameReadBack(t.name);
      assert b[EXT_LEN..EXT_LEN + |t.data|] == b[EXT_LEN..][..|t.data|];
      assert Padded(ExtPayload(t))[..|t.data|] == t.data;
    }
  }

  /** A record is read alike wherever its bytes stand. */
  lemma ReadMoved(mem: Bytes, at: nat, part: Bytes)
    requires StandsAt(mem, at, part)
    requires RecordAt(part, 0) && LenAt(part, 0) == |part|
    ensures RecordAt(mem, at) && LenAt(mem, at) == |part| && TypeAt(mem, at) == TypeAt(part, 0)
    ensures ReadTlv(mem, at) == ReadTlv(part, 0)
  {
    U16Inside(mem, at, part, 0);
    U16Inside(mem, at, part, 2);
    if TypeAt(part, 0) < TLV_MAX {
      SliceOfSlice(mem, at, part, TLV_LEN, |part|);
    } else {
      U16Inside(mem, at, part, 4);
      U16Inside(mem, at, part, 6);
      SliceOfSlice(mem, at, part, 8, EXT_LEN);
      SliceOfSlice(mem, at, part, EXT_LEN, EXT_LEN + DataLenAt(part, 0));
    }
  }

  /** Every record of a written body reads back where it was written, whatever follows the body. */
  lemma ReadBody(ts: seq<Tlv>, after: Bytes, i: nat)
    requires AllEncodable(ts) && i < |ts|
    ensures var mem := BodyBytes(ts) + after;
            && RecordAt(mem, Offset(ts, i)) && LenAt(mem, Offset(ts, i)) == TlvSize(ts[i])
            && ReadTlv(mem, Offset(ts, i)) == AsRead(ts[i])
  {
    RecordInBody(ts, i);
    StandsInLonger(BodyBytes(ts), Offset(ts, i), TlvBytes(ts[i]), after);
    ReadWritten(ts[i]);
    ReadMoved(BodyBytes(ts) + after, Offset(ts, i), TlvBytes(ts[i]));
  }
}
