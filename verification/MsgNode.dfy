/** A message as the server holds it: header, body buffer and offset table, updated in place. */
module MsgNode {
  import opened Bytes
  import opened MsgLayout
  import opened MsgDecode
  import opened Wrappers

  /** CheckRecvMsg */
  predicate CheckRecvMsg(h: Bytes)
    requires |h| >= HEADER_LEN
  {
    && Magic(h) == MAGIC
    && MsgLen(h) < MAX_MSG_TOTAL_LENGTH
    && MsgLen(h) >= HEADER_LEN
    && TlvCount(h) < MAX_TLV_COUNT
    && TlvCount(h) < MsgLen(h) / TLV_LEN
  }

  /** A header of which only the first bytes have arrived; the rest is still zero. */
  function PartialHeader(b: Bytes): (h: Bytes)
    ensures |h| == HEADER_LEN
  {
    if |b| < HEADER_LEN then b + Zeros(HEADER_LEN - |b|) else b[..HEADER_LEN]
  }

  /** `a - b` on uint32_t. */
  function SubU32(a: u32, b: u32): u32 {
    if a >= b then a - b else a - b + 0x1_0000_0000
  }

  class MsgNode {
    const header: array<byte>
    var buffer: array?<byte>
    var tlvOffset: array?<u32>
    var tlvCount: nat

    /** CreateAppSpawnMsg */
    constructor ()
      ensures fresh(header) && header.Length == HEADER_LEN && header[..] == Zeros(HEADER_LEN)
      ensures buffer == null && tlvOffset == null && tlvCount == 0
    {
      header := new byte[HEADER_LEN](_ => 0);
      buffer, tlvOffset, tlvCount := null, null, 0;
    }

    ghost predicate Valid()
      reads this, header
    {
      && header.Length == HEADER_LEN
      && header != buffer
      && (buffer == null <==> tlvOffset == null)
    }

    function Head(): Bytes
      reads header
    {
      header[..]
    }

    function Body(): Bytes
      reads this, buffer
    {
      if buffer == null then [] else buffer[..]
    }

    /** The checks made once the header is there, then room for the body and the table. */
    method AppSpawnMsgRebuild() returns (ret: int)
      requires Valid() && buffer == null
      modifies this
      ensures Valid() && tlvCount == old(tlvCount)
      ensures ret == 0 <==> CheckRecvMsg(Head())
      ensures ret != 0 || MsgLen(Head()) == HEADER_LEN ==> buffer == null && tlvOffset == null
      ensures ret == 0 && MsgLen(Head()) > HEADER_LEN ==>
                && buffer != null && fresh(buffer) && tlvOffset != null && fresh(tlvOffset)
                && buffer[..] == Zeros(MsgLen(Head()) - HEADER_LEN)
                && tlvOffset[..] == EmptyTable(TlvCount(Head()))
    {
      var h := header[..];
      if !CheckRecvMsg(h) {
        return -1;
      }
      if MsgLen(h) == HEADER_LEN {
        return 0;
      }
      buffer := new byte[MsgLen(h) - HEADER_LEN](_ => 0);
      tlvOffset := new u32[TLV_MAX + TlvCount(h)](_ => INVALID_OFFSET);
      assert buffer[..] == Zeros(MsgLen(h) - HEADER_LEN);
      assert tlvOffset[..] == EmptyTable(TlvCount(h));
      ret := 0;
    }

    /** DecodeAppSpawnMsg on a message whose body has fully arrived; `beyond` is what lies behind
        the buffer. */
    method DecodeAppSpawnMsg(beyond: Bytes) returns (ret: int)
      requires Valid() && |beyond| >= REACH
      requires buffer != null ==>
                 && tlvOffset != null && buffer.Length == MsgLen(Head()) - HEADER_LEN
                 && tlvOffset[..] == EmptyTable(TlvCount(Head())) && buffer.Length < INVALID_OFFSET
      modifies this`tlvCount, tlvOffset
      ensures Valid()
      ensures buffer == null ==>
                (ret == 0 <==> MsgLen(Head()) == HEADER_LEN)
      ensures buffer != null ==>
                var r := Decode(Body() + beyond, |Body()|, TlvCount(Head()));
                && (ret == 0 <==> r.ok) && tlvOffset[..] == r.table
                && tlvCount == if r.ok then r.count else old(tlvCount)
    {
      var h := header[..];
      var bufferLen := SubU32(MsgLen(h), HEADER_LEN);
      if buffer == null {
        // the first record would be read at the null address
        if bufferLen > 0 {
          return -1;
        }
        tlvCount := 0;
        return 0;
      }
      var ok, count := DecodeRecords(buffer[..] + beyond, bufferLen, TlvCount(h), tlvOffset);
      if !ok {
        return -1;
      }
      tlvCount := count;
      ret := 0;
    }

    /** The loop of DecodeAppSpawnMsg. */
    static method DecodeRecords(mem: Bytes, bufferLen: nat, headerCount: nat, table: array<u32>)
      returns (ok: bool, count: nat)
      requires bufferLen + REACH <= |mem| && bufferLen < INVALID_OFFSET
      requires table[..] == EmptyTable(headerCount)
      modifies table
      ensures var r := Decode(mem, bufferLen, headerCount);
              ok == r.ok && count == r.count && table[..] == r.table
    {
      var currLen: u32 := 0;
      count := 0;
      while currLen < bufferLen
        invariant 0 <= currLen <= bufferLen && count <= headerCount
        invariant table.Length == TLV_MAX + headerCount
        invariant Decode(mem, bufferLen, headerCount) ==
                  DecodeFrom(mem, bufferLen, headerCount, currLen, table[..], count)
      {
        var len, kind := LenAt(mem, currLen), TypeAt(mem, currLen);
        if len == 0 {
          return false, count;
        }
        if len > bufferLen - currLen || !Acceptable(mem, currLen) {
          break;
        }
        if kind >= TLV_MAX && count >= headerCount {
          break;
        }
        var index := if kind < TLV_MAX then kind else TLV_MAX + count;
        ghost var before := table[..];
        table[index] := currLen;
        assert table[..] == before[index := currLen];
        if kind >= TLV_MAX {
          count := count + 1;
        }
        currLen := currLen + len;
      }
      ok := currLen >= bufferLen;
    }

    /** The address, inside the body, of the payload of a standard record. */
    method GetAppSpawnMsgInfo(kind: nat) returns (at: Option<nat>)
      requires tlvOffset != null ==> tlvOffset.Length >= TLV_MAX
      ensures at == if buffer == null || tlvOffset == null then None else FindInfo(tlvOffset[..], kind)
    {
      if kind >= TLV_MAX || buffer == null || tlvOffset == null || tlvOffset[kind] == INVALID_OFFSET {
        return None;
      }
      at := Some(tlvOffset[kind] + TLV_LEN);
    }

    /** The address and the length of the data of the first extended record of a name. */
    method GetAppSpawnMsgExtInfo(name: Bytes, beyond: Bytes) returns (info: Option<ExtInfo>)
      requires buffer != null && tlvOffset != null ==> EntriesInside(Body() + beyond, tlvOffset[..], tlvCount)
      ensures info == if buffer == null || tlvOffset == null then None
                      else FindExt(Body() + beyond, tlvOffset[..], tlvCount, name, 0)
    {
      if buffer == null || tlvOffset == null {
        return None;
      }
      var mem := buffer[..] + beyond;
      ghost var table := tlvOffset[..];
      var index := TLV_MAX;
      while index < TLV_MAX + tlvCount
        invariant TLV_MAX <= index <= TLV_MAX + tlvCount
        invariant FindExt(mem, table, tlvCount, name, 0) == FindExt(mem, table, tlvCount, name, index - TLV_MAX)
      {
        assert table[index] == tlvOffset[index];
        if tlvOffset[index] == INVALID_OFFSET {
          return None;
        }
        var at := tlvOffset[index];
        if TypeAt(mem, at) == TLV_MAX && TextAt(mem, at + 8, name) {
          return Some(ExtInfo(at + EXT_LEN, DataLenAt(mem, at)));
        }
        index := index + 1;
      }
      info := None;
    }
  }
}
