/** The client's request under construction, written in place into a chain of blocks. */
module ClientMsg {
  import opened Bytes
  import opened MsgLayout
  import opened BlockChain
  import opened ClientRequest
  import opened PackedFlags
  import opened Wrappers

  const OK := 0
  const ARG_INVALID := -1
  const MSG_INVALID := -2
  const TLV_NOT_SUPPORT := -3
  const PERMISSION_NOT_SUPPORT := -4
  const BUFFER_NOT_ENOUGH := -5
  const SYSTEM_ERROR := -6

  const FIXED_LAYOUTS := {TLV_DAC_INFO, TLV_ACCESS_TOKEN_INFO, TLV_INTERNET_INFO, TLV_RENDER_TERMINATION_INFO,
                          TLV_CHECK_POINT_INFO}

  /** CheckInputString on a C string. */
  predicate InputFits(s: Bytes, maxLen: nat) {
    0 < |s| < maxLen
  }

  /** The kinds of message that carry permission flags. */
  predicate CarriesPermissions(msgType: u32) {
    msgType in {MSG_APP_SPAWN, MSG_SPAWN_NATIVE_PROCESS, MSG_SPAWN_IMAGE_PROCESS, MSG_SPAWN_WORKER_PROCESS}
  }

  /** CheckMsg: what may still be added to a request. */
  predicate CanAdd(r: Request, t: Tlv)
    requires WordsFit(r.flags) && (r.permissions.Some? ==> WordsFit(r.permissions.value))
  {
    && Size(r) + TlvSize(t) <= MAX_MSG_TOTAL_LENGTH
    && (r.msgType == MSG_GET_RENDER_TERMINATION_STATUS ==> t.Std? && t.tlvType == TLV_RENDER_TERMINATION_INFO)
  }

  /** The outcome of an add: the record is behind the others, or nothing changed. */
  predicate Added(before: Request, after: Request, t: Tlv, ret: int)
    requires WordsFit(before.flags) && (before.permissions.Some? ==> WordsFit(before.permissions.value))
  {
    && (ret == OK <==> CanAdd(before, t))
    && after == if ret == OK then before.(added := before.added + [t]) else before
  }

  /** What this comes to: the record is behind the others exactly if the message still fits and, for a query of a
      termination status, the record is its pid. */
  lemma AddedTells(before: Request, after: Request, t: Tlv, ret: int)
    requires WordsFit(before.flags) && (before.permissions.Some? ==> WordsFit(before.permissions.value))
    requires Added(before, after, t, ret)
    ensures ret == 0 <==> Size(before) + TlvSize(t) <= 65536 && (before.msgType == 1 ==> t.Std? && t.tlvType == 8)
    ensures after == if ret == 0 then before.(added := before.added + [t]) else before
  {
    hide Size, TlvSize;
  }

  function ZeroWords(n: nat): (words: seq<u32>)
    ensures |words| == n
  {
    seq(n, _ => 0)
  }

  lemma {:induction false} ZeroWordsAreZeros(n: nat)
    ensures Words(ZeroWords(n)) == Zeros(4 * n)
  {
    if n > 0 {
      ZeroWordsAreZeros(n - 1);
      assert ZeroWords(n)[1..] == ZeroWords(n - 1);
    }
  }

  lemma NewFlags(kind: nat, units: u32)
    requires kind < TLV_MAX && 0 < units < 1000
    ensures var t := FlagsTlv(kind, ZeroWords(units));
            && Encodable(t) && TlvSize(t) == TLV_LEN + 4 + 4 * units
            && TlvBytes(t) == LE16(TlvSize(t)) + LE16(kind) + LE32(units) + Zeros(4 * units)
  {
    AlignedRecord(kind, Words(MsgFlags(ZeroWords(units))));
    assert MsgFlags(ZeroWords(units))[1..] == ZeroWords(units);
    ZeroWordsAreZeros(units);
  }

  lemma NewFlagsPiece(kind: u16, units: u32, record: Bytes)
    requires kind < TLV_MAX && 0 < units < 1000
    requires record == LE16(TLV_LEN + 4 + 4 * units) + LE16(kind) + LE32(units) + Zeros(4 * units)
    ensures WordsFit(ZeroWords(units)) && Encodable(FlagsTlv(kind, ZeroWords(units)))
    ensures record == TlvBytes(FlagsTlv(kind, ZeroWords(units))) == Padded(Stored(Piece(record, false)))
    ensures |record| == Align4(|Stored(Piece(record, false))|) == TLV_LEN + 4 + 4 * units
    ensures TlvSize(FlagsTlv(kind, ZeroWords(units))) == |record|
  {
    hide TlvBytes, TlvSize, LE16, LE32, FlagsTlv, Padded, Align4, Zeros;
    NewFlags(kind, units);
    PaddedAligned(record);
  }

  /** A new flag record behind a message with so far only such records. */
  lemma NewFlagsTlv(msgType: u32, name: Bytes, ts: seq<Tlv>, t: Tlv, record: Bytes)
    requires |name| < PROC_NAME_LEN && AllEncodable(ts) && |ts| < 2
    requires Encodable(t) && TlvBytes(t) == record && BodySize(ts) + |record| < 0x1_0000
    ensures AllEncodable(ts + [t]) && BodySize(ts + [t]) == BodySize(ts) + |record|
    ensures MessageBytes(msgType, name, |ts|, ts) + record ==
            HeaderBytes(msgType, HEADER_LEN + BodySize(ts), 0, |ts|, name) + BodyBytes(ts + [t])
    ensures MessageBytes(msgType, name, |ts| + 1, ts + [t]) ==
            HeaderBytes(msgType, HEADER_LEN + BodySize(ts) + |record|, 0, |ts| + 1, name) + BodyBytes(ts + [t])
  {
    hide TlvBytes, BodyBytes, BodySize, TlvSize, HeaderBytes;
    AppendedRecord(msgType, name, |ts|, ts, t);
  }

  /** What CreateBaseMsg needs: room in the first block for as many permission flags as there
      are permissions. */
  predicate CanCreate(msgType: u32, maxCount: int) {
    CarriesPermissions(msgType) ==>
      0 < maxCount && HEADER_LEN + 16 + TLV_LEN + 4 + 4 * CalcFlagsUnits(maxCount) < BLOCK_SIZE
  }

  /** A request as it is created: no flag set, nothing added. */
  function NewRequest(msgType: u32, processName: Bytes, maxCount: int): Request
    requires CanCreate(msgType, maxCount)
  {
    Request(msgType, processName, ZeroWords(CalcFlagsUnits(MAX_FLAGS_INDEX)),
            if CarriesPermissions(msgType) then Some(ZeroWords(CalcFlagsUnits(maxCount))) else None, [])
  }

  lemma HeaderAlone(msgType: u32, name: Bytes)
    requires |name| < PROC_NAME_LEN
    ensures MessageBytes(msgType, name, 0, []) == HeaderBytes(msgType, HEADER_LEN, 0, 0, name)
    ensures BodySize([]) == 0 && Padded(HeaderBytes(msgType, HEADER_LEN, 0, 0, name)) == MessageBytes(msgType, name, 0, [])
  {
    PaddedAligned(HeaderBytes(msgType, HEADER_LEN, 0, 0, name));
    assert BodyBytes([]) == [];
  }

  lemma NewRequestBytes(msgType: u32, name: Bytes, maxCount: int)
    requires CanCreate(msgType, maxCount) && 0 < |name| < PROC_NAME_LEN && IsText(name)
    ensures var r := NewRequest(msgType, name, maxCount);
            && Fits(r) && r.permissions.Some? == CarriesPermissions(msgType)
            && Records(r) == [FlagsTlv(TLV_MSG_FLAGS, ZeroWords(2))]
                             + (if r.permissions.Some? then [FlagsTlv(TLV_PERMISSION, r.permissions.value)] else [])
            && AllEncodable(Records(r)) && RequestBytes(r) == MessageBytes(msgType, name, |Records(r)|, Records(r))
            && Size(r) == FlagsAt(r, r.permissions.Some?) + 4
                          + if r.permissions.Some? then 4 * |r.permissions.value| else 4 * |r.flags|
  {
    var r := NewRequest(msgType, name, maxCount);
    NewFlags(TLV_MSG_FLAGS, 2);
    if r.permissions.Some? {
      NewFlags(TLV_PERMISSION, CalcFlagsUnits(maxCount));
    }
    hide TlvSize, TlvBytes, FlagsTlv, MessageBytes;
    OneOrTwo(Records(r));
  }

  lemma OneOrTwo(ts: seq<Tlv>)
    ensures |ts| == 1 ==> BodySize(ts) == TlvSize(ts[0])
    ensures |ts| == 2 ==> BodySize(ts) == TlvSize(ts[0]) + TlvSize(ts[1])
  {
    if |ts| == 2 {
      assert ts[..1] == [ts[0]];
    }
  }

  function ExtTlv(name: Bytes, data: Piece): Tlv {
    Ext(name, data.data, if data.isString then DATA_TYPE_STRING else 0)
  }

  lemma StdRecord(kind: nat, data: seq<Piece>)
    requires kind < TLV_MAX && PayloadFits(kind, |Encoded(data)|)
    ensures var t, len := Std(kind, Encoded(data)), TLV_LEN + |Encoded(data)|;
            && Addable(t) && TlvSize(t) == len
            && Encoded([Piece(LE16(len) + LE16(kind), false)] + data) == TlvBytes(t)
  {
    var head := Piece(LE16(TLV_LEN + |Encoded(data)|) + LE16(kind), false);
    EncodedAligned(data);
    AlignedRecord(kind, Encoded(data));
    hide Encoded, TlvBytes, TlvSize, LE16;
    PaddedAligned(Stored(head));
    EncodedCons(head, data);
  }

  lemma ExtRecord(name: Bytes, data: Piece, head: Bytes)
    requires |name| < NAME_LEN && IsText(name) && 0 < |data.data| && |Stored(data)| <= EXTRAINFO_TOTAL_LENGTH_MAX
    requires var len := EXT_LEN + Align4(|Stored(data)|);
             head == LE16(len) + LE16(TLV_MAX) + LE16(|data.data|) + LE16(if data.isString then 1 else 0)
                     + name + Zeros(NAME_LEN - |name|)
    ensures var t := ExtTlv(name, data);
            && Addable(t) && TlvSize(t) == EXT_LEN + Align4(|Stored(data)|)
            && Encoded([Piece(head, false), data]) == TlvBytes(t)
  {
    hide LE16, Encoded, Padded, Zeros, IsText;
    var t := ExtTlv(name, data);
    assert ExtPayload(t) == Stored(data);
    TwoPieces(Piece(head, false), data);
    PaddedAligned(head);
    assert TlvBytes(t) == head + Padded(Stored(data));
  }

  lemma TwoPieces(p: Piece, q: Piece)
    ensures Encoded([p, q]) == Padded(Stored(p)) + Padded(Stored(q))
  {
    hide Padded, Stored;
    assert [p, q][..1] == [p];
    assert Encoded([p]) == [] + Padded(Stored(p));
  }

  /** The count word and the flag words, as loads from the message see them. */
  lemma ReadFlagWord(r: Request, permission: bool, j: nat)
    requires Fits(r) && (permission ==> r.permissions.Some?) && j <= |FlagWords(r, permission)|
    ensures FlagsAt(r, permission) + 4 * j + 4 <= |RequestBytes(r)|
    ensures U32(RequestBytes(r), FlagsAt(r, permission) + 4 * j) ==
            if j == 0 then |FlagWords(r, permission)| else FlagWords(r, permission)[j - 1]
  {
    hide RequestBytes, LE32, U32, FlagsAt;
    FlagWordStands(r, permission, j);
    U32OfLE32(RequestBytes(r), FlagsAt(r, permission) + 4 * j, MsgFlags(FlagWords(r, permission))[j]);
  }

  /** The outcome of a setter: bad input is refused, good input may be added. */
  predicate Answered(good: bool, before: Request, after: Request, t: Tlv, ret: int)
    requires WordsFit(before.flags) && (before.permissions.Some? ==> WordsFit(before.permissions.value))
  {
    if good then Added(before, after, t, ret) else ret == ARG_INVALID && after == before
  }

  lemma OnePiece(p: Piece)
    ensures Encoded([p]) == Padded(Stored(p))
  {
    assert Encoded([p]) == [] + Padded(Stored(p));
  }

  lemma OneString(s: Bytes)
    ensures Encoded([Piece(s, true)]) == Padded(s + [0]) && |s| < |Encoded([Piece(s, true)])| <= |s| + 4
    ensures |Encoded([Piece(s, true)])| % 4 == 0
  {
    OnePiece(Piece(s, true));
  }

  lemma WordAndString(w: u32, s: Bytes)
    ensures Encoded([Piece(LE32(w), false), Piece(s, true)]) == LE32(w) + Padded(s + [0])
    ensures 4 + |s| < |Encoded([Piece(LE32(w), false), Piece(s, true)])| <= 4 + |s| + 4
    ensures |Encoded([Piece(LE32(w), false), Piece(s, true)])| % 4 == 0
  {
    TwoPieces(Piece(LE32(w), false), Piece(s, true));
    PaddedAligned(LE32(w));
  }

  /** The length AddAppData announces. */
  method RealLen(data: seq<Piece>) returns (realLen: nat)
    ensures realLen == TLV_LEN + |Encoded(data)|
  {
    realLen := TLV_LEN;
    assert data[..|data|] == data;
    for index := 0 to |data|
      invariant realLen == TLV_LEN + |Encoded(data[..index])|
    {
      EncodedStep(data, index);
      realLen := realLen + if data[index].isString then Align4(|data[index].data| + 1) else Align4(|data[index].data|);
    }
  }

  class ReqNode {
    const msgBlocks: BlockChain
    var msgFlags: Option<nat>
    var permissionFlags: Option<nat>
    ghost var request: Request

    ghost predicate Valid()
      reads this, msgBlocks, msgBlocks.Repr
    {
      && msgBlocks.Valid() && this !in msgBlocks.Repr && msgBlocks.blocks != []
      && Fits(request)
      && msgBlocks.Contents() == RequestBytes(request)
      && FlagsAt(request, false) + 4 + 4 * |request.flags| <= msgBlocks.HeadLen()
      && msgFlags == Some(FlagsAt(request, false))
      && match request.permissions
         case None => permissionFlags == None
         case Some(words) =>
           && permissionFlags == Some(FlagsAt(request, true))
           && FlagsAt(request, true) + 4 + 4 * |words| <= msgBlocks.HeadLen()
    }

    lemma HasWords()
      requires Valid()
      ensures WordsFit(request.flags) && (request.permissions.Some? ==> WordsFit(request.permissions.value))
    {
      hide Size, Counted, RequestBytes;
    }

    constructor Empty()
      ensures msgBlocks.Valid() && fresh(msgBlocks) && fresh(msgBlocks.Repr) && msgBlocks.blocks == []
      ensures msgBlocks.Contents() == [] && this !in msgBlocks.Repr
    {
      msgBlocks := new BlockChain();
      msgFlags, permissionFlags := None, None;
    }

    /** `msgLen += len` and `tlvCount += count` */
    method AddToHeader(ghost oldLen: u32, ghost oldCount: u32, len: nat, count: nat, ghost msgType: u32,
                       ghost name: Bytes, ghost body: Bytes)
      requires msgBlocks.Valid() && HEADER_LEN <= msgBlocks.HeadLen() && |name| < PROC_NAME_LEN
      requires msgBlocks.Contents() == HeaderBytes(msgType, oldLen, 0, oldCount, name) + body
      requires oldLen + len < 0x1_0000_0000 && oldCount + count < 0x1_0000_0000
      modifies msgBlocks.Repr
      ensures msgBlocks.Valid() && msgBlocks.Repr == old(msgBlocks.Repr) && msgBlocks.blocks == old(msgBlocks.blocks)
      ensures msgBlocks.HeadLen() == old(msgBlocks.HeadLen())
      ensures msgBlocks.Contents() == HeaderBytes(msgType, oldLen + len, 0, oldCount + count, name) + body
    {
      hide HeaderBytes, PutU32;
      HeaderStands(msgBlocks.Contents(), msgType, oldLen, oldCount, name, body);
      StoredHeader(msgBlocks.Contents(), msgType, oldLen, oldCount, name, body, oldLen + len, oldCount + count);
      var msgLen := msgBlocks.LoadField(8);
      var tlvCount := msgBlocks.LoadField(16);
      msgBlocks.StoreField(8, msgLen + len);
      if count > 0 {
        msgBlocks.StoreField(16, tlvCount + count);
      }
    }

    /** SetFlagsTlv: a flag record with all bits clear, counted in the header. It wants strictly
        more room in the first block than it uses. */
    method SetFlagsTlv(kind: nat, maxCount: nat, ghost msgType: u32, ghost name: Bytes, ghost ts: seq<Tlv>)
      returns (ret: int, at: nat)
      requires msgBlocks.Valid() && |msgBlocks.blocks| == 1 && this !in msgBlocks.Repr
      requires kind < TLV_MAX && maxCount > 0
      requires |name| < PROC_NAME_LEN && AllEncodable(ts) && HEADER_LEN + BodySize(ts) <= BLOCK_SIZE
      requires |ts| < 2 && msgBlocks.Contents() == MessageBytes(msgType, name, |ts|, ts)
      modifies msgBlocks.Repr
      ensures msgBlocks.Valid() && msgBlocks.Repr == old(msgBlocks.Repr) && |msgBlocks.blocks| == 1
      ensures ret == OK <==> HEADER_LEN + BodySize(ts) + TLV_LEN + 4 + 4 * CalcFlagsUnits(maxCount) < BLOCK_SIZE
      ensures ret == OK ==>
                && WordsFit(ZeroWords(CalcFlagsUnits(maxCount))) && at == HEADER_LEN + BodySize(ts) + TLV_LEN
                && var ts' := ts + [FlagsTlv(kind, ZeroWords(CalcFlagsUnits(maxCount)))];
                   && AllEncodable(ts') && HEADER_LEN + BodySize(ts') <= BLOCK_SIZE
                   && msgBlocks.Contents() == MessageBytes(msgType, name, |ts'|, ts')
    {
      msgBlocks.OneBlock();
      var units := CalcFlagsUnits(maxCount);
      var flagsLen := TLV_LEN + 4 + 4 * units;
      var room := msgBlocks.TailRoom();
      at := BLOCK_SIZE - room + TLV_LEN;
      if room <= flagsLen {
        return BUFFER_NOT_ENOUGH, at;
      }
      WriteFlagsTlv(flagsLen, kind, units, msgType, name, ts);
      ret := OK;
    }

    /** The record itself, in the room that is there for it. */
    method WriteFlagsTlv(flagsLen: u16, kind: u16, units: u32, ghost msgType: u32, ghost name: Bytes, ghost ts: seq<Tlv>)
      requires msgBlocks.Valid() && |msgBlocks.blocks| == 1 && this !in msgBlocks.Repr
      requires kind < TLV_MAX && 0 < units && flagsLen == TLV_LEN + 4 + 4 * units < msgBlocks.Room()
      requires |name| < PROC_NAME_LEN && AllEncodable(ts) && HEADER_LEN + BodySize(ts) <= BLOCK_SIZE
      requires |ts| < 2 && msgBlocks.Contents() == MessageBytes(msgType, name, |ts|, ts)
      modifies msgBlocks.Repr
      ensures msgBlocks.Valid() && msgBlocks.Repr == old(msgBlocks.Repr) && |msgBlocks.blocks| == 1
      ensures WordsFit(ZeroWords(units))
      ensures var ts' := ts + [FlagsTlv(kind, ZeroWords(units))];
              && AllEncodable(ts') && HEADER_LEN + BodySize(ts') <= BLOCK_SIZE
              && msgBlocks.Contents() == MessageBytes(msgType, name, |ts'|, ts')
    {
      hide TlvBytes, BodyBytes, BodySize, TlvSize, HeaderBytes, MessageBytes, LE16, LE32, FlagsTlv, Padded, Align4, Zeros;
      msgBlocks.OneBlock();
      var record := LE16(flagsLen) + LE16(kind) + LE32(units) + Zeros(4 * units);
      NewFlagsPiece(kind, units, record);
      NewFlagsTlv(msgType, name, ts, FlagsTlv(kind, ZeroWords(units)), record);
      msgBlocks.AppendToLast(Piece(record, false));
      AddToHeader(HEADER_LEN + BodySize(ts), |ts|, flagsLen, 1, msgType, name,
                  BodyBytes(ts + [FlagsTlv(kind, ZeroWords(units))]));
    }

    /** The header at the start of the first block. */
    method WriteHeader(msgType: u32, processName: Bytes)
      requires msgBlocks.Valid() && msgBlocks.blocks == [] && msgBlocks.Contents() == [] && this !in msgBlocks.Repr
      requires |processName| < PROC_NAME_LEN
      modifies msgBlocks.Repr
      ensures msgBlocks.Valid() && fresh(msgBlocks.Repr - old(msgBlocks.Repr)) && |msgBlocks.blocks| == 1
      ensures msgBlocks.Contents() == MessageBytes(msgType, processName, 0, [])
    {
      hide MessageBytes, HeaderBytes;
      msgBlocks.CreateAppSpawnMsgBlock();
      HeaderAlone(msgType, processName);
      msgBlocks.AppendToLast(Piece(HeaderBytes(msgType, HEADER_LEN, 0, 0, processName), false));
    }

    /** CreateBaseMsg: the header, the flag records, and nothing else. */
    method CreateBaseMsg(msgType: u32, processName: Bytes, maxCount: int) returns (ret: int)
      requires msgBlocks.Valid() && msgBlocks.blocks == [] && msgBlocks.Contents() == [] && this !in msgBlocks.Repr
      requires 0 < |processName| < PROC_NAME_LEN && IsText(processName)
      modifies this, msgBlocks.Repr
      ensures fresh(msgBlocks.Repr - old(msgBlocks.Repr))
      ensures ret == OK <==> CanCreate(msgType, maxCount)
      ensures ret == OK ==> Valid() && request == NewRequest(msgType, processName, maxCount)
    {
      hide MessageBytes, HeaderBytes, BodyBytes, BodySize, TlvBytes, TlvSize, RequestBytes, FlagsTlv;
      WriteHeader(msgType, processName);
      HeaderAlone(msgType, processName);
      var flagsAt, permissionsAt;
      ret, flagsAt := SetFlagsTlv(TLV_MSG_FLAGS, MAX_FLAGS_INDEX, msgType, processName, []);
      ghost var ts := [FlagsTlv(TLV_MSG_FLAGS, ZeroWords(2))];
      assert [] + ts == ts;
      NewFlags(TLV_MSG_FLAGS, 2);
      OneOrTwo(ts);
      if CarriesPermissions(msgType) {
        if maxCount <= 0 {
          return SYSTEM_ERROR;
        }
        ret, permissionsAt := SetFlagsTlv(TLV_PERMISSION, maxCount, msgType, processName, ts);
        if ret != OK {
          return;
        }
        ts := ts + [FlagsTlv(TLV_PERMISSION, ZeroWords(CalcFlagsUnits(maxCount)))];
      } else {
        permissionsAt := 0;
      }
      msgBlocks.OneBlock();
      NewRequestBytes(msgType, processName, maxCount);
      assert Records(NewRequest(msgType, processName, maxCount)) == ts;
      Created(flagsAt, if CarriesPermissions(msgType) then Some(permissionsAt) else None,
              NewRequest(msgType, processName, maxCount));
    }

    method Created(flagsAt: nat, permissionsAt: Option<nat>, ghost r: Request)
      requires msgBlocks.Valid() && |msgBlocks.blocks| == 1 && this !in msgBlocks.Repr
      requires Fits(r) && msgBlocks.Contents() == RequestBytes(r) && msgBlocks.HeadLen() == Size(r)
      requires flagsAt == FlagsAt(r, false) && FlagsAt(r, false) + 4 + 4 * |r.flags| <= Size(r)
      requires permissionsAt == if r.permissions.Some? then Some(FlagsAt(r, true)) else None
      requires r.permissions.Some? ==> FlagsAt(r, true) + 4 + 4 * |r.permissions.value| <= Size(r)
      modifies this
      ensures Valid() && request == r
    {
      hide RequestBytes, Size;
      msgFlags, permissionFlags := Some(flagsAt), permissionsAt;
      request := r;
    }

    /** CheckMsg */
    method CheckMsg(tlvLen: nat, tlvType: nat) returns (ret: int)
      requires Valid()
      ensures ret == OK <==>
                && Size(request) + tlvLen <= MAX_MSG_TOTAL_LENGTH
                && (request.msgType == MSG_GET_RENDER_TERMINATION_STATUS ==> tlvType == TLV_RENDER_TERMINATION_INFO)
    {
      hide RequestBytes, Size, U32;
      RequestHeader(request);
      var msgLen := msgBlocks.LoadField(8);
      var msgType := msgBlocks.LoadField(4);
      if msgLen + tlvLen > MAX_MSG_TOTAL_LENGTH {
        return MSG_INVALID;
      }
      if msgType == MSG_GET_RENDER_TERMINATION_STATUS {
        if tlvType != TLV_RENDER_TERMINATION_INFO {
          return TLV_NOT_SUPPORT;
        }
      }
      ret := OK;
    }

    /** The checked record at the end of the message. */
    method WriteTlv(tlvLen: nat, count: nat, pieces: seq<Piece>, ghost t: Tlv) returns (ret: int)
      requires Valid() && Addable(t) && Size(request) + TlvSize(t) <= MAX_MSG_TOTAL_LENGTH
      requires tlvLen == TlvSize(t) && count == (if t.Ext? then 1 else 0) && Encoded(pieces) == TlvBytes(t)
      requires forall i :: 0 <= i < |pieces| ==> Stored(pieces[i]) != []
      modifies this`request, msgBlocks.Repr
      ensures Valid() && fresh(msgBlocks.Repr - old(msgBlocks.Repr))
      ensures ret == OK && request == old(request).(added := old(request).added + [t])
    {
      hide RequestBytes, TlvBytes, TlvSize, Size, Encoded, Counted;
      ghost var r := request;
      ret := msgBlocks.AddRecord(tlvLen, pieces);
      AddToRequest(tlvLen, count, r, t);
      request := r.(added := r.added + [t]);
    }

    method AddToRequest(len: nat, count: nat, ghost r: Request, ghost t: Tlv)
      requires msgBlocks.Valid() && HEADER_LEN <= msgBlocks.HeadLen()
      requires Fits(r) && Addable(t) && Size(r) + TlvSize(t) <= MAX_MSG_TOTAL_LENGTH
      requires msgBlocks.Contents() == RequestBytes(r) + TlvBytes(t)
      requires len == TlvSize(t) && count == (if t.Ext? then 1 else 0)
      modifies msgBlocks.Repr
      ensures msgBlocks.Valid() && msgBlocks.Repr == old(msgBlocks.Repr) && msgBlocks.blocks == old(msgBlocks.blocks)
      ensures msgBlocks.HeadLen() == old(msgBlocks.HeadLen())
      ensures var r' := r.(added := r.added + [t]);
              Fits(r') && msgBlocks.Contents() == RequestBytes(r')
    {
      hide HeaderBytes, BodyBytes, TlvBytes, TlvSize, Size, Counted, RequestBytes;
      AddedRecord(r, t);
      AddToHeader(Size(r), Counted(r), len, count, r.msgType, r.processName,
                  BodyBytes(Records(r.(added := r.added + [t]))));
    }

    /** AddAppData: a standard record of some pieces of data. */
    method AddAppData(tlvType: nat, data: seq<Piece>) returns (ret: int)
      requires Valid() && data != [] && forall i :: 0 <= i < |data| ==> Stored(data[i]) != []
      requires tlvType < TLV_MAX && PayloadFits(tlvType, |Encoded(data)|)
      modifies this`request, msgBlocks.Repr
      ensures Valid() && fresh(msgBlocks.Repr - old(msgBlocks.Repr))
      ensures Added(old(request), request, Std(tlvType, Encoded(data)), ret)
    {
      hide RequestBytes, TlvBytes, TlvSize, Size, Encoded, PayloadFits;
      var realLen := RealLen(data);
      StdRecord(tlvType, data);
      ret := CheckMsg(realLen, tlvType);
      if ret == OK {
        ret := WriteTlv(realLen, 0, [Piece(LE16(realLen) + LE16(tlvType), false)] + data, Std(tlvType, Encoded(data)));
      }
    }

    /** AddAppDataEx: an extended record. */
    method AddAppDataEx(name: Bytes, data: Piece) returns (ret: int)
      requires Valid() && |name| < NAME_LEN && IsText(name)
      requires 0 < |data.data| && |Stored(data)| <= EXTRAINFO_TOTAL_LENGTH_MAX
      modifies this`request, msgBlocks.Repr
      ensures Valid() && fresh(msgBlocks.Repr - old(msgBlocks.Repr))
      ensures Added(old(request), request, ExtTlv(name, data), ret)
    {
      hide RequestBytes, TlvBytes, Size;
      var tlvLen := EXT_LEN + if data.isString then Align4(|data.data| + 1) else Align4(|data.data|);
      var head := LE16(tlvLen) + LE16(TLV_MAX) + LE16(|data.data|) + LE16(if data.isString then 1 else 0)
                  + name + Zeros(NAME_LEN - |name|);
      ExtRecord(name, data, head);
      ret := CheckMsg(tlvLen, TLV_MAX);
      if ret == OK {
        ret := WriteTlv(tlvLen, 1, [Piece(head, false), data], ExtTlv(name, data));
      }
    }

    /** `flags[k] = w` */
    method StoreFlagWord(at: nat, permission: bool, k: nat, w: u32)
      requires Valid() && (permission ==> request.permissions.Some?) && at == FlagsAt(request, permission)
      requires k < |FlagWords(request, permission)|
      modifies this`request, msgBlocks.Repr
      ensures Valid() && msgBlocks.Repr == old(msgBlocks.Repr)
      ensures request == WithWords(old(request), permission, FlagWords(old(request), permission)[k := w])
    {
      hide RequestBytes, Size, PutU32;
      StoredFlagWord(request, permission, k, w);
      msgBlocks.StoreField(at + 4 * (k + 1), w);
      request := WithWords(request, permission, FlagWords(request, permission)[k := w]);
    }

    /** SetAppSpawnMsgFlags on one of the two flag records, in place. */
    method SetAppSpawnMsgFlags(at: nat, permission: bool, index: nat) returns (ret: int)
      requires Valid() && (permission ==> request.permissions.Some?) && at == FlagsAt(request, permission)
      modifies this`request, msgBlocks.Repr
      ensures Valid() && msgBlocks.Repr == old(msgBlocks.Repr) && ret == OK
      ensures request == WithWords(old(request), permission, With(FlagWords(old(request), permission), index))
    {
      hide RequestBytes, OrWord, Size, U32, FlagsAt;
      var blockIndex, bitIndex := index / WORD_BITS, index % WORD_BITS;
      var count := LoadFlagWord(at, permission, 0);
      if blockIndex < count {
        var word := LoadFlagWord(at, permission, blockIndex + 1);
        StoreFlagWord(at, permission, blockIndex, OrWord(word, bitIndex));
      }
      ret := OK;
    }

    method LoadFlagWord(at: nat, permission: bool, j: nat) returns (w: u32)
      requires Valid() && (permission ==> request.permissions.Some?) && at == FlagsAt(request, permission)
      requires j <= |FlagWords(request, permission)|
      ensures w == if j == 0 then |FlagWords(request, permission)| else FlagWords(request, permission)[j - 1]
    {
      hide RequestBytes, Size, U32;
      ReadFlagWord(request, permission, j);
      w := msgBlocks.LoadField(at + 4 * j);
    }

    // ----------------------------------------------------------------------- the interface

    method AppSpawnReqMsgSetBundleInfo(bundleIndex: u32, bundleName: Bytes) returns (ret: int)
      requires Valid()
      modifies this`request, msgBlocks.Repr
      ensures Valid() && fresh(msgBlocks.Repr - old(msgBlocks.Repr))
      ensures Answered(InputFits(bundleName, BUNDLE_NAME_LEN), old(request), request,
                       Std(TLV_BUNDLE_INFO, LE32(bundleIndex) + Padded(bundleName + [0])), ret)
      ensures ret == 0 <==> 0 < |bundleName| < 256 && Size(old(request)) + TlvSize(Std(0, LE32(bundleIndex) + Padded(bundleName + [0]))) <= 65536 && old(request).msgType != 1
      ensures request == if ret == 0 then old(request).(added := old(request).added + [Std(0, LE32(bundleIndex) + Padded(bundleName + [0]))]) else old(request)
    {
      if !InputFits(bundleName, BUNDLE_NAME_LEN) {
        return ARG_INVALID;
      }
      hide Encoded, LE32, Added, RequestBytes, Size, Padded, Align4, TlvSize, Fits, WordsFit, Valid;
      WordAndString(bundleIndex, bundleName);
      HasWords();
      ret := AddAppData(TLV_BUNDLE_INFO, [Piece(LE32(bundleIndex), false), Piece(bundleName, true)]);
      AddedTells(old(request), request, Std(TLV_BUNDLE_INFO, LE32(bundleIndex) + Padded(bundleName + [0])), ret);
    }

    method AppSpawnReqMsgSetAppDomainInfo(hapFlags: u32, apl: Bytes) returns (ret: int)
      requires Valid()
      modifies this`request, msgBlocks.Repr
      ensures Valid() && fresh(msgBlocks.Repr - old(msgBlocks.Repr))
      ensures Answered(InputFits(apl, APL_LEN), old(request), request,
                       Std(TLV_DOMAIN_INFO, LE32(hapFlags) + Padded(apl + [0])), ret)
      ensures ret == 0 <==> 0 < |apl| < 32 && Size(old(request)) + TlvSize(Std(3, LE32(hapFlags) + Padded(apl + [0]))) <= 65536 && old(request).msgType != 1
      ensures request == if ret == 0 then old(request).(added := old(request).added + [Std(3, LE32(hapFlags) + Padded(apl + [0]))]) else old(request)
    {
      if !InputFits(apl, APL_LEN) {
        return ARG_INVALID;
      }
      hide Encoded, LE32, Added, RequestBytes, Size, Padded, Align4, TlvSize, Fits, WordsFit, Valid;
      WordAndString(hapFlags, apl);
      HasWords();
      ret := AddAppData(TLV_DOMAIN_INFO, [Piece(LE32(hapFlags), false), Piece(apl, true)]);
      AddedTells(old(request), request, Std(TLV_DOMAIN_INFO, LE32(hapFlags) + Padded(apl + [0])), ret);
    }

    method AppSpawnReqMsgSetAppOwnerId(ownerId: Bytes) returns (ret: int)
      requires Valid()
      modifies this`request, msgBlocks.Repr
      ensures Valid() && fresh(msgBlocks.Repr - old(msgBlocks.Repr))
      ensures Answered(InputFits(ownerId, OWNER_ID_LEN), old(request), request,
                       Std(TLV_OWNER_INFO, Padded(ownerId + [0])), ret)
      ensures ret == 0 <==> 0 < |ownerId| < 64 && Size(old(request)) + TlvSize(Std(4, Padded(ownerId + [0]))) <= 65536 && old(request).msgType != 1
      ensures request == if ret == 0 then old(request).(added := old(request).added + [Std(4, Padded(ownerId + [0]))]) else old(request)
    {
      if !InputFits(ownerId, OWNER_ID_LEN) {
        return ARG_INVALID;
      }
      hide Encoded, Added, RequestBytes, Size, Padded, Align4, TlvSize, Fits, WordsFit, Valid;
      OneString(ownerId);
      HasWords();
      ret := AddAppData(TLV_OWNER_INFO, [Piece(ownerId, true)]);
      AddedTells(old(request), request, Std(TLV_OWNER_INFO, Padded(ownerId + [0])), ret);
    }

    /** The setters of a record with a fixed layout: AppDacInfo, AppSpawnMsgAccessToken,
        AppSpawnMsgInternetInfo, AppSpawnCheckpointInfo and the pid of a termination query. */
    method SetFixedInfo(tlvType: nat, info: Bytes) returns (ret: int)
      requires Valid() && tlvType in FIXED_LAYOUTS
      requires |info| == match tlvType case 2 => 332 case 5 => 8 case 9 => 268 case _ => 4
      modifies this`request, msgBlocks.Repr
      ensures Valid() && fresh(msgBlocks.Repr - old(msgBlocks.Repr))
      ensures Added(old(request), request, Std(tlvType, info), ret)
      ensures ret == 0 <==>
                Size(old(request)) + TlvSize(Std(tlvType, info)) <= 65536 && (old(request).msgType == 1 ==> tlvType == 8)
      ensures request == if ret == 0 then old(request).(added := old(request).added + [Std(tlvType, info)]) else old(request)
    {
      OnePiece(Piece(info, false));
      PaddedAligned(info);
      hide Encoded, Added, RequestBytes, Size, TlvSize, Fits, WordsFit, Valid;
      HasWords();
      ret := AddAppData(tlvType, [Piece(info, false)]);
      AddedTells(old(request), request, Std(tlvType, info), ret);
    }

    method AppSpawnReqMsgAddExtInfo(name: Bytes, value: Bytes) returns (ret: int)
      requires Valid() && IsText(name)
      modifies this`request, msgBlocks.Repr
      ensures Valid() && fresh(msgBlocks.Repr - old(msgBlocks.Repr))
      ensures Answered(InputFits(name, NAME_LEN) && 0 < |value| <= EXTRAINFO_TOTAL_LENGTH_MAX, old(request), request,
                       Ext(name, value, 0), ret)
      ensures ret == 0 <==> 0 < |name| < 32 && 0 < |value| <= 32768 && Size(old(request)) + TlvSize(Ext(name, value, 0)) <= 65536 && old(request).msgType != 1
      ensures request == if ret == 0 then old(request).(added := old(request).added + [Ext(name, value, 0)]) else old(request)
    {
      if !InputFits(name, NAME_LEN) || !(0 < |value| <= EXTRAINFO_TOTAL_LENGTH_MAX) {
        return ARG_INVALID;
      }
      hide Added, RequestBytes, Size, TlvSize, Fits, WordsFit, Valid;
      HasWords();
      ret := AddAppDataEx(name, Piece(value, false));
      AddedTells(old(request), request, Ext(name, value, 0), ret);
    }

    method AppSpawnReqMsgAddStringInfo(name: Bytes, value: Bytes) returns (ret: int)
      requires Valid() && IsText(name)
      modifies this`request, msgBlocks.Repr
      ensures Valid() && fresh(msgBlocks.Repr - old(msgBlocks.Repr))
      ensures Answered(InputFits(name, NAME_LEN) && InputFits(value, EXTRAINFO_TOTAL_LENGTH_MAX), old(request), request,
                       Ext(name, value, DATA_TYPE_STRING), ret)
      ensures ret == 0 <==> 0 < |name| < 32 && 0 < |value| < 32768 && Size(old(request)) + TlvSize(Ext(name, value, 1)) <= 65536 && old(request).msgType != 1
      ensures request == if ret == 0 then old(request).(added := old(request).added + [Ext(name, value, 1)]) else old(request)
    {
      if !InputFits(name, NAME_LEN) || !InputFits(value, EXTRAINFO_TOTAL_LENGTH_MAX) {
        return ARG_INVALID;
      }
      hide Added, RequestBytes, Size, TlvSize, Fits, WordsFit, Valid;
      HasWords();
      ret := AddAppDataEx(name, Piece(value, true));
      AddedTells(old(request), request, Ext(name, value, DATA_TYPE_STRING), ret);
    }

    method AppSpawnReqMsgSetAppFlag(flagIndex: nat) returns (ret: int)
      requires Valid()
      modifies this`request, msgBlocks.Repr
      ensures Valid() && msgBlocks.Repr == old(msgBlocks.Repr)
      ensures ret == if flagIndex < 63 then 0 else -1
      ensures request == if ret == 0 then old(request).(flags := With(old(request).flags, flagIndex)) else old(request)
    {
      if msgFlags == None || flagIndex >= MAX_FLAGS_INDEX {
        return ARG_INVALID;
      }
      ret := SetAppSpawnMsgFlags(msgFlags.value, false, flagIndex);
    }

    /** AppSpawnReqMsgAddPermission, after the name has been looked up. */
    method AppSpawnReqMsgAddPermission(index: int, maxIndex: int) returns (ret: int)
      requires Valid()
      modifies this`request, msgBlocks.Repr
      ensures Valid() && msgBlocks.Repr == old(msgBlocks.Repr)
      ensures ret == OK <==> request.permissions.Some? && 0 <= index < maxIndex
      ensures request == if ret == OK then
                           old(request).(permissions := Some(With(old(request).permissions.value, index)))
                         else old(request)
    {
      if permissionFlags == None {
        return ARG_INVALID;
      }
      if index < 0 || maxIndex <= index {
        return PERMISSION_NOT_SUPPORT;
      }
      ret := SetAppSpawnMsgFlags(permissionFlags.value, true, index);
    }
  }

  /** When a request can be created, and what it is then: no flag is set, and for the four kinds of spawn there is
      room for as many permission flags as there are permissions. */
  lemma WhatIsCreated(msgType: u32, processName: Bytes, maxCount: int)
    ensures var spawns := msgType == 0 || msgType == 2 || msgType == 14 || msgType == 15;
            && (CanCreate(msgType, maxCount) <==> (spawns ==> 0 < maxCount && 300 + 4 * ((maxCount + 31) / 32) < 4072))
            && (CanCreate(msgType, maxCount) ==>
                  var r := NewRequest(msgType, processName, maxCount);
                  && r.msgType == msgType && r.processName == processName && r.flags == [0, 0] && r.added == []
                  && r.permissions == if spawns then Some(seq((maxCount + 31) / 32, _ => 0)) else None)
  {
    if 0 < maxCount {
      Rounded(maxCount);
      assert CalcFlagsUnits(maxCount) == (maxCount + 31) / 32;
    }
  }

  lemma Rounded(n: nat)
    ensures n / 32 + (if n % 32 == 0 then 0 else 1) == (n + 31) / 32
  {
  }

  /** AppSpawnReqMsgCreate */
  method AppSpawnReqMsgCreate(msgType: u32, processName: Bytes, maxCount: int) returns (ret: int, node: ReqNode?)
    requires IsText(processName)
    ensures ret == OK <==>
              msgType < MAX_TYPE_INVALID && InputFits(processName, PROC_NAME_LEN) && CanCreate(msgType, maxCount)
    ensures ret == 0 <==>
              && msgType < 16 && 0 < |processName| < 256
              && (msgType == 0 || msgType == 2 || msgType == 14 || msgType == 15 ==>
                    0 < maxCount && 300 + 4 * ((maxCount + 31) / 32) < 4072)
    ensures node != null <==> ret == 0
    ensures node != null ==>
              && fresh(node) && fresh(node.msgBlocks.Repr) && node.Valid()
              && node.request == NewRequest(msgType, processName, maxCount)
  {
    hide CanCreate, NewRequest, RequestBytes, IsText, ReqNode.Valid;
    WhatIsCreated(msgType, processName, maxCount);
    if msgType >= MAX_TYPE_INVALID {
      return MSG_INVALID, null;
    }
    if !InputFits(processName, PROC_NAME_LEN) {
      return ARG_INVALID, null;
    }
    var reqNode := new ReqNode.Empty();
    ret := reqNode.CreateBaseMsg(msgType, processName, maxCount);
    if ret != OK {
      return SYSTEM_ERROR, null;
    }
    node := reqNode;
  }

  /** AppSpawnTerminateMsgCreate: the one message that asks for a termination status. */
  method AppSpawnTerminateMsgCreate(processName: Bytes, pid: u32) returns (ret: int, node: ReqNode?)
    requires 0 < |processName| < PROC_NAME_LEN && IsText(processName)
    ensures ret == OK && node != null && fresh(node) && fresh(node.msgBlocks.Repr) && node.Valid()
    ensures node.request == NewRequest(MSG_GET_RENDER_TERMINATION_STATUS, processName, 0)
                            .(added := [Std(TLV_RENDER_TERMINATION_INFO, LE32(pid))])
  {
    hide LE32, TlvSize, Size, RequestBytes, WordsFit, Proper, Fits, CarriesPermissions;
    TerminateFits(processName, pid);
    node := new ReqNode.Empty();
    ret := node.CreateBaseMsg(MSG_GET_RENDER_TERMINATION_STATUS, processName, 0);
    ret := node.SetFixedInfo(TLV_RENDER_TERMINATION_INFO, LE32(pid));
  }

  lemma TerminateFits(name: Bytes, pid: u32)
    requires 0 < |name| < PROC_NAME_LEN && IsText(name)
    ensures CanCreate(MSG_GET_RENDER_TERMINATION_STATUS, 0)
    ensures var r := NewRequest(MSG_GET_RENDER_TERMINATION_STATUS, name, 0);
            && WordsFit(r.flags) && r.permissions == None
            && CanAdd(r, Std(TLV_RENDER_TERMINATION_INFO, LE32(pid)))
  {
    NewRequestBytes(MSG_GET_RENDER_TERMINATION_STATUS, name, 0);
    hide Size, RequestBytes, LE32;
    AlignedRecord(TLV_RENDER_TERMINATION_INFO, LE32(pid));
  }
}
