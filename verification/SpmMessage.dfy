/** The two-phase rebuild of a message in the spawner: collect the entries, write a new message. */
module SpmMessage {
  import opened Bytes
  import opened MsgLayout
  import opened MsgDecode
  import opened MsgNode
  import opened Rebuild
  import opened RebuiltValues
  import opened TlvBuilder
  import opened Wrappers

  const SPM_ERROR_NO_MEMORY := -2
  const SPM_ERROR_TLV_BUILD_FAILED := -8

  /** A decoded message: its records are `ts`, at `cuts`, and the table is the decoder's. */
  ghost predicate OldMessage(mem: Bytes, bodyLen: nat, headerCount: nat, ts: seq<Tlv>, cuts: seq<nat>, table: seq<u32>)
  {
    && bodyLen + REACH <= |mem| && bodyLen < INVALID_OFFSET
    && Laid(mem, bodyLen, ts, cuts)
    && IsTableOf(table, mem, cuts[..|ts|], headerCount)
  }

  // ------------------------------------------------------------------------- reading the old message

  /** The records the rebuild reads through the table lie inside the memory; the last four bytes
      of a DAC record may lie behind it. */
  predicate Readable(mem: Bytes, table: seq<u32>) {
    && |table| >= TLV_MAX
    && (forall k :: 0 <= k < TLV_MAX && table[k] != INVALID_OFFSET ==>
          table[k] + 8 <= |mem| && LenAt(mem, table[k]) >= TLV_LEN && table[k] + LenAt(mem, table[k]) <= |mem|)
    && (table[TLV_DAC_INFO] != INVALID_OFFSET ==> table[TLV_DAC_INFO] + TLV_LEN + DAC_INFO_LEN <= |mem|)
  }

  function OldDac(mem: Bytes, table: seq<u32>): (r: Option<Bytes>)
    requires Readable(mem, table)
    ensures r.Some? ==> |r.value| == DAC_INFO_LEN
  {
    var at := table[TLV_DAC_INFO];
    if at == INVALID_OFFSET then None else Some(mem[at + TLV_LEN..at + TLV_LEN + DAC_INFO_LEN])
  }

  function OldHapFlags(mem: Bytes, table: seq<u32>): u32
    requires Readable(mem, table)
  {
    var at := table[TLV_DOMAIN_INFO];
    if at == INVALID_OFFSET then 0 else U32(mem, at + TLV_LEN)
  }

  /** The rebuilt payloads; in nweb mode and for isolated sandboxes the DAC record is copied. */
  function Derive(mem: Bytes, table: seq<u32>, spm: SpmData, special: bool): Derived
    requires Readable(mem, table)
    requires spm.granted.Some? ==> |spm.granted.value| < 0x4000
  {
    Derived(BundlePayload(spm),
            if special then None else Some(DacPayload(spm, OldDac(mem, table))),
            DomainPayload(spm, OldHapFlags(mem, table)),
            OwnerPayload(spm),
            match spm.granted case Some(words) => Some(PermissionPayload(words)) case None => None,
            spm.jitJson,
            DistributionName(spm),
            LE32(spm.idType))
  }

  lemma StdOfTable(mem: Bytes, bodyLen: nat, headerCount: nat, ts: seq<Tlv>, cuts: seq<nat>, table: seq<u32>, kind: nat)
    requires OldMessage(mem, bodyLen, headerCount, ts, cuts, table) && kind < TLV_MAX
    ensures |table| >= TLV_MAX
    ensures match LastStd(ts, kind)
            case None => table[kind] == INVALID_OFFSET
            case Some(payload) =>
              var s := table[kind];
              && s < bodyLen < INVALID_OFFSET && RecordAt(mem, s) && TypeAt(mem, s) == kind && ReadTlv(mem, s) == Std(kind, payload)
              && s + LenAt(mem, s) <= bodyLen && Acceptable(mem, s)
  {
    assert ts[..|ts|] == ts;
    LastStartIsLastStd(mem, bodyLen, ts, cuts, |ts|, kind);
    assert table[kind] == StdEntry(mem, cuts[..|ts|], kind);
    LastStartIsTile(mem, bodyLen, cuts, |ts|, kind);
  }

  lemma {:induction false} LastStartIsTile(mem: Bytes, bodyLen: nat, cuts: seq<nat>, n: nat, kind: nat)
    requires bodyLen + REACH <= |mem| && Tiles(mem, bodyLen, cuts) && n < |cuts|
    ensures match LastStart(mem, cuts[..n], kind)
            case None => true
            case Some(s) => s + REACH <= |mem| && s + LenAt(mem, s) <= bodyLen && Acceptable(mem, s)
  {
    if n > 0 {
      LastStartIsTile(mem, bodyLen, cuts, n - 1, kind);
      assert Tile(mem, bodyLen, cuts[n - 1], cuts[n]);
      assert cuts[..n][..n - 1] == cuts[..n - 1];
    }
  }

  lemma DecodedIsReadable(mem: Bytes, bodyLen: nat, headerCount: nat, ts: seq<Tlv>, cuts: seq<nat>, table: seq<u32>)
    requires OldMessage(mem, bodyLen, headerCount, ts, cuts, table)
    ensures Readable(mem, table)
  {
    hide Laid, IsTableOf, RecordAt;
    StdOfTable(mem, bodyLen, headerCount, ts, cuts, table, TLV_DAC_INFO);
    forall k | 0 <= k < TLV_MAX
      ensures table[k] != INVALID_OFFSET ==>
                && table[k] + 8 <= |mem| && LenAt(mem, table[k]) >= TLV_LEN
                && table[k] + LenAt(mem, table[k]) <= |mem|
    {
      StdOfTable(mem, bodyLen, headerCount, ts, cuts, table, k);
      if LastStd(ts, k).Some? {
        RecordIsLongEnough(mem, table[k]);
      }
    }
  }

  lemma RecordIsLongEnough(mem: Bytes, at: nat)
    requires RecordAt(mem, at)
    ensures at + TLV_LEN <= |mem| && LenAt(mem, at) >= TLV_LEN && at + LenAt(mem, at) <= |mem|
  {
  }

  lemma DerivedIs(mem: Bytes, table: seq<u32>, spm: SpmData, special: bool)
    requires Readable(mem, table) && (spm.granted.Some? ==> |spm.granted.value| < 0x4000)
    ensures var d := Derive(mem, table, spm, special);
            && d.jit == spm.jitJson && d.distribution == DistributionName(spm) && d.xpm == LE32(spm.idType)
            && (d.permission.None? <==> spm.granted.None?)
  {
  }

  /** What a lookup of a standard type finds among the new records. */
  lemma InfoTells(mem: Bytes, bodyLen: nat, headerCount: nat, ts: seq<Tlv>, cuts: seq<nat>, table: seq<u32>, spm: SpmData,
                  special: bool, kind: nat)
    requires OldMessage(mem, bodyLen, headerCount, ts, cuts, table) && Readable(mem, table) && kind < TLV_MAX
    requires (spm.granted.Some? ==> |spm.granted.value| < 0x4000) && Rebuilt(ts, Derive(mem, table, spm, special)).Some?
    ensures TellsInfo(mem, table, spm, special, kind, LastStd(Rebuilt(ts, Derive(mem, table, spm, special)).value, kind))
  {
    hide OldMessage, LastStd, Rebuilt, TellsInfo, Readable;
    var d := Derive(mem, table, spm, special);
    InfoOfRebuilt(ts, kind, d);
    FormerPayload(mem, bodyLen, headerCount, ts, cuts, table, kind);
    if LastStd(ts, kind).Some? {
      if kind == TLV_PERMISSION {
        var i := LastIsMember(ts, kind);
        BuildsUnlessBlocked(ts, spm, d);
        assert !Blocks(spm, ts[i]);
      }
      DerivedTells(mem, table, spm, special, kind, LastStd(ts, kind).value);
    } else {
      NothingTells(mem, table, spm, special, kind);
    }
  }

  lemma FormerPayload(mem: Bytes, bodyLen: nat, headerCount: nat, ts: seq<Tlv>, cuts: seq<nat>, table: seq<u32>, kind: nat)
    requires OldMessage(mem, bodyLen, headerCount, ts, cuts, table) && kind < TLV_MAX
    ensures |table| >= TLV_MAX && (LastStd(ts, kind).Some? <==> table[kind] != INVALID_OFFSET)
    ensures LastStd(ts, kind).Some? ==> Copied(mem, table[kind], LastStd(ts, kind).value)
  {
    hide OldMessage, LastStd, Acceptable;
    StdOfTable(mem, bodyLen, headerCount, ts, cuts, table, kind);
  }

  lemma NothingTells(mem: Bytes, table: seq<u32>, spm: SpmData, special: bool, kind: nat)
    requires kind < |table| && table[kind] == INVALID_OFFSET
    ensures TellsInfo(mem, table, spm, special, kind, None)
  {
  }

  /** The derived payloads, and the copied one, are what a lookup should find. */
  lemma DerivedTells(mem: Bytes, table: seq<u32>, spm: SpmData, special: bool, kind: nat, former: Bytes)
    requires Readable(mem, table) && kind < TLV_MAX && (spm.granted.Some? ==> |spm.granted.value| < 0x4000)
    requires table[kind] != INVALID_OFFSET && Copied(mem, table[kind], former)
    requires kind == TLV_PERMISSION ==> spm.granted.Some?
    ensures var d := Derive(mem, table, spm, special);
            TellsInfo(mem, table, spm, special, kind,
                      if kind == TLV_BUNDLE_INFO then Some(d.bundle)
                      else if kind == TLV_DAC_INFO && d.dac.Some? then d.dac
                      else if kind == TLV_DOMAIN_INFO then Some(d.domain)
                      else if kind == TLV_OWNER_INFO then Some(d.owner)
                      else if kind == TLV_PERMISSION then d.permission else Some(former))
  {
    hide BundlePayload, DacPayload, DomainPayload, OwnerPayload, PermissionPayload, Writes, EndsWith, Copied, U32;
    match kind
    case 0 => BundleTells(spm);
    case 2 => {
      DacTells(spm, OldDac(mem, table).value);
      assert OldDac(mem, table).value[4..332] == mem[table[2] + 8..table[2] + 336];
    }
    case 3 => DomainTells(spm, OldHapFlags(mem, table));
    case 4 => OwnerTells(spm);
    case 6 => PermissionTells(spm.granted.value);
    case _ => {}
  }

  // ------------------------------------------------------------------------- collecting

  /** CopyStandardTlv: whichever record of its type the walk has come to, the last one is copied. */
  method CopyStandardTlv(mem: Bytes, bodyLen: nat, table: seq<u32>, tlvType: nat, ghost headerCount: nat,
                         ghost ts: seq<Tlv>, ghost cuts: seq<nat>) returns (entry: Option<Tlv>)
    requires OldMessage(mem, bodyLen, headerCount, ts, cuts, table) && tlvType < TLV_MAX
    ensures entry == match LastStd(ts, tlvType) case None => None case Some(payload) => Some(Std(tlvType, payload))
  {
    hide OldMessage, LastStd, Acceptable;
    StdOfTable(mem, bodyLen, headerCount, ts, cuts, table, tlvType);
    if table[tlvType] == INVALID_OFFSET {
      return None;
    }
    var at := table[tlvType];
    entry := Some(Std(tlvType, mem[at + TLV_LEN..at + LenAt(mem, at)]));
  }

  /** CollectExtTlvByName and CopyOtherExtTlv. */
  method CollectExtTlvByName(mem: Bytes, at: nat, spm: SpmData, ghost d: Derived) returns (entry: Option<Tlv>)
    requires RecordAt(mem, at) && TypeAt(mem, at) == TLV_MAX
    requires d.jit == spm.jitJson && d.distribution == DistributionName(spm)
    ensures ReadTlv(mem, at).Ext? && entry == NewExt(ReadTlv(mem, at), d)
  {
    hide DistributionName, CString, U16;
    NamesAreText();
    TextAtName(mem, at, JIT_PERMISSIONS);
    TextAtName(mem, at, APP_DISTRIBUTION_TYPE);
    var dataLen: nat, dataType := DataLenAt(mem, at), U16(mem, at + 6);
    var name := CString(mem[at + 8..at + EXT_LEN]);
    if TextAt(mem, at + 8, JIT_PERMISSIONS) {
      if spm.jitJson == None {
        return None;
      }
      return Some(Ext(name, spm.jitJson.value, DATA_TYPE_STRING));
    }
    if TextAt(mem, at + 8, APP_DISTRIBUTION_TYPE) {
      return Some(Ext(name, DistributionName(spm), DATA_TYPE_STRING));
    }
    var allocLen := if dataType == DATA_TYPE_STRING then dataLen + 1 else dataLen;
    if allocLen == 0 {
      // no data is allocated, and AddExtTlv refuses that
      return None;
    }
    entry := Some(Ext(name, mem[at + EXT_LEN..at + EXT_LEN + dataLen], dataType));
  }

  /** One turn of CollectTlvsInOrder. */
  method CollectTlv(mem: Bytes, bodyLen: nat, at: nat, table: seq<u32>, spm: SpmData, special: bool,
                    ghost headerCount: nat, ghost ts: seq<Tlv>, ghost cuts: seq<nat>, ghost i: nat)
    returns (entry: Option<Tlv>)
    requires OldMessage(mem, bodyLen, headerCount, ts, cuts, table) && i < |ts| && at == cuts[i]
    requires Readable(mem, table) && (spm.granted.Some? ==> |spm.granted.value| < 0x4000)
    ensures entry == NewRecord(ts, ts[i], Derive(mem, table, spm, special))
  {
    hide Laid, IsTableOf, LastStd, NewExt, BundlePayload, DomainPayload, OwnerPayload, DacPayload, OldDac, OldHapFlags,
      PermissionPayload, DistributionName, Readable, Acceptable;
    LaidRecord(mem, bodyLen, ts, cuts, i);
    var kind := TypeAt(mem, at);
    StdOfTable(mem, bodyLen, headerCount, ts, cuts, table, if kind < TLV_MAX then kind else 0);
    if kind < TLV_MAX {
      LastStdOfMember(ts, i);
    }
    match kind {
      case 0 => entry := Some(Std(kind, BundlePayload(spm)));
      case 2 =>
        if special {
          entry := CopyStandardTlv(mem, bodyLen, table, kind, headerCount, ts, cuts);
        } else {
          entry := Some(Std(kind, DacPayload(spm, OldDac(mem, table))));
        }
      case 3 => entry := Some(Std(kind, DomainPayload(spm, OldHapFlags(mem, table))));
      case 4 => entry := Some(Std(kind, OwnerPayload(spm)));
      case 6 =>
        if spm.granted == None {
          return None;
        }
        entry := Some(Std(kind, PermissionPayload(spm.granted.value)));
      case 10 => entry := CollectExtTlvByName(mem, at, spm, Derive(mem, table, spm, special));
      case _ => entry := CopyStandardTlv(mem, bodyLen, table, kind, headerCount, ts, cuts);
    }
  }

  lemma NamesAreText()
    ensures IsText(JIT_PERMISSIONS) && IsText(APP_DISTRIBUTION_TYPE) && IsText(XPM_ID_TYPE)
    ensures |JIT_PERMISSIONS| == 11 && |APP_DISTRIBUTION_TYPE| == 19 && |XPM_ID_TYPE| == 9
  {
  }

  lemma {:induction false} NoneStaysNone(ts: seq<Tlv>, n: nat, d: Derived)
    requires n <= |ts| && NewRecords(ts, n, d) == None
    ensures Rebuilt(ts, d) == None
    decreases |ts| - n
  {
    if n < |ts| {
      NoneStaysNone(ts, n + 1, d);
    }
  }

  lemma TileHere(mem: Bytes, bodyLen: nat, ts: seq<Tlv>, cuts: seq<nat>, i: nat)
    requires bodyLen + REACH <= |mem| && Laid(mem, bodyLen, ts, cuts) && i <= |ts|
    ensures |cuts| == |ts| + 1
    ensures i < |ts| ==> cuts[i + 1] == cuts[i] + LenAt(mem, cuts[i]) <= bodyLen
                         && RecordAt(mem, cuts[i]) && cuts[i] < bodyLen
    ensures i == |ts| ==> cuts[i] == bodyLen
    ensures cuts[0] == 0
  {
    if i < |ts| {
      assert Tile(mem, bodyLen, cuts[i], cuts[i + 1]);
    }
  }

  /** When the new records can be built, and what all lookups find among them. */
  lemma RecordsTell(mem: Bytes, bodyLen: nat, headerCount: nat, ts: seq<Tlv>, cuts: seq<nat>, table: seq<u32>, spm: SpmData,
                    special: bool)
    requires OldMessage(mem, bodyLen, headerCount, ts, cuts, table) && Readable(mem, table)
    requires spm.granted.Some? ==> |spm.granted.value| < 0x4000
    ensures var es := Rebuilt(ts, Derive(mem, table, spm, special));
            && (es.Some? <==> forall i :: 0 <= i < |ts| ==> !Blocks(spm, ts[i]))
            && (es.Some? ==>
                  && (forall kind :: 0 <= kind < TLV_MAX ==>
                        TellsInfo(mem, table, spm, special, kind, LastStd(es.value, kind)))
                  && forall name :: TellsExt(spm, name, FirstExt(ts, name), FirstExt(es.value, name)))
  {
    hide OldMessage, Rebuilt, Derive, Readable, Blocks, TellsInfo, TellsExt, LastStd, FirstExt;
    var d := Derive(mem, table, spm, special);
    DerivedIs(mem, table, spm, special);
    BuildsUnlessBlocked(ts, spm, d);
    LongTable(mem, table);
    if Rebuilt(ts, d).Some? {
      forall kind | 0 <= kind < TLV_MAX
        ensures TellsInfo(mem, table, spm, special, kind, LastStd(Rebuilt(ts, d).value, kind))
      {
        InfoTells(mem, bodyLen, headerCount, ts, cuts, table, spm, special, kind);
      }
      forall name
        ensures TellsExt(spm, name, FirstExt(ts, name), FirstExt(Rebuilt(ts, d).value, name))
      {
        ExtTells(ts, name, spm, d);
      }
    }
  }

  lemma LongTable(mem: Bytes, table: seq<u32>)
    requires Readable(mem, table)
    ensures |table| >= TLV_MAX
  {
  }

  /** CollectTlvsInOrder: walks the old body and appends the new id type. */
  method CollectTlvsInOrder(mem: Bytes, bufferLen: nat, table: seq<u32>, spm: SpmData, special: bool,
                            ghost headerCount: nat, ghost ts: seq<Tlv>, ghost cuts: seq<nat>)
    returns (ret: int, entries: seq<Tlv>)
    requires OldMessage(mem, bufferLen, headerCount, ts, cuts, table)
    requires Readable(mem, table) && (spm.granted.Some? ==> |spm.granted.value| < 0x4000)
    ensures ret == 0 <==> Rebuilt(ts, Derive(mem, table, spm, special)).Some?
    ensures ret == 0 <==> forall i :: 0 <= i < |ts| ==> !Blocks(spm, ts[i])
    ensures ret == 0 ==>
              && entries == Rebuilt(ts, Derive(mem, table, spm, special)).value
              && (forall kind :: 0 <= kind < TLV_MAX ==> TellsInfo(mem, table, spm, special, kind, LastStd(entries, kind)))
              && forall name :: TellsExt(spm, name, FirstExt(ts, name), FirstExt(entries, name))
  {
    hide Laid, IsTableOf, RecordAt, Readable, Derive, NewRecord, Blocks, TellsInfo, TellsExt, LastStd, FirstExt;
    RecordsTell(mem, bufferLen, headerCount, ts, cuts, table, spm, special);
    ghost var d, i := Derive(mem, table, spm, special), 0;
    var currLen := 0;
    entries := [];
    TileHere(mem, bufferLen, ts, cuts, 0);
    while currLen < bufferLen
      invariant i <= |ts| && |cuts| == |ts| + 1 && currLen == cuts[i] && currLen <= bufferLen
      invariant NewRecords(ts, i, d) == Some(entries)
    {
      TileHere(mem, bufferLen, ts, cuts, i);
      RecordIsLongEnough(mem, currLen);
      if currLen + TLV_LEN > bufferLen {
        return -1, entries;
      }
      var tlvLen := LenAt(mem, currLen);
      if tlvLen < TLV_LEN || currLen + tlvLen > bufferLen {
        return -1, entries;
      }
      var entry := CollectTlv(mem, bufferLen, currLen, table, spm, special, headerCount, ts, cuts, i);
      if entry == None {
        NoneStaysNone(ts, i + 1, d);
        return -1, entries;
      }
      entries := entries + [entry.value];
      currLen := currLen + tlvLen;
      i := i + 1;
    }
    TileHere(mem, bufferLen, ts, cuts, i);
    entries := entries + [Ext(XPM_ID_TYPE, LE32(spm.idType), 0)];
    assert d.xpm == LE32(spm.idType) by { XpmOf(mem, table, spm, special); }
    ret := 0;
  }

  lemma XpmOf(mem: Bytes, table: seq<u32>, spm: SpmData, special: bool)
    requires Readable(mem, table) && (spm.granted.Some? ==> |spm.granted.value| < 0x4000)
    ensures Derive(mem, table, spm, special).xpm == LE32(spm.idType)
  {
  }

  // ------------------------------------------------------------------------- the new message

  /** The size of the new body and the number of extended entries. */
  method Measure(entries: seq<Tlv>) returns (exactBufSize: nat, extTlvCount: nat)
    ensures exactBufSize == BodySize(entries) && extTlvCount == ExtCount(entries)
  {
    exactBufSize, extTlvCount := 0, 0;
    assert entries[..0] == [] && entries[..|entries|] == entries;
    assert BodySize([]) == 0 && ExtCount([]) == 0;
    for index := 0 to |entries|
      invariant exactBufSize == BodySize(entries[..index]) && extTlvCount == ExtCount(entries[..index])
    {
      assert entries[..index + 1][..index] == entries[..index];
      exactBufSize := exactBufSize + TlvSize(entries[index]);
      if entries[index].Ext? {
        extTlvCount := extTlvCount + 1;
      }
    }
  }

  /** WriteTlvsToNewMsg: the old header with the new length, an exact-size body, a table; `room` tells
      whether memory for them can be had. */
  method WriteTlvsToNewMsg(oldMsg: MsgNode, entries: seq<Tlv>, room: bool, ghost after: Bytes)
    returns (ret: int, newMsg: MsgNode?)
    requires oldMsg.Valid() && entries != []
    requires AllWritable(entries) && HEADER_LEN + BodySize(entries) < INVALID_OFFSET
    ensures ret == 0 <==> room && NamesEnd(entries)
    ensures ret == 0 ==> newMsg != null && IsNewMessage(newMsg, oldMsg.Head(), entries, after)
    ensures newMsg != null ==> fresh(newMsg) && (newMsg.buffer == null || fresh(newMsg.buffer))
  {
    hide BodyBytes, BodySize, TlvSize, IsTableOf, ExtCount, PutU32, AllWritable, AllEncodable;
    if !room {
      return SPM_ERROR_NO_MEMORY, null;
    }
    var exactBufSize, extTlvCount := Measure(entries);
    newMsg := new MsgNode();
    assert Zeros(HEADER_LEN)[..0] + oldMsg.header[..] + Zeros(HEADER_LEN)[HEADER_LEN..] == oldMsg.header[..];
    MemCpy(newMsg.header, 0, oldMsg.header[..]);
    newMsg.tlvOffset := new u32[TLV_MAX + extTlvCount](_ => INVALID_OFFSET);
    newMsg.buffer := new byte[exactBufSize](_ => 0);
    assert newMsg.buffer[..] == Zeros(exactBufSize) && newMsg.tlvOffset[..] == EmptyTable(extTlvCount);
    var currentOffset;
    ret, currentOffset := WriteTlvEntriesToBuffer(newMsg, entries, after);
    if ret != 0 {
      return SPM_ERROR_TLV_BUILD_FAILED, null;
    }
    StoreU32(newMsg.header, 8, HEADER_LEN + currentOffset);
  }

  /** A message of these records under the old header, with their table. */
  ghost predicate IsNewMessage(message: MsgNode, head: Bytes, es: seq<Tlv>, after: Bytes)
    requires |head| >= HEADER_LEN
    reads message, message.header, message.buffer, message.tlvOffset
  {
    && message.Valid() && message.buffer != null && message.tlvOffset != null
    && AllEncodable(es) && HEADER_LEN + BodySize(es) < INVALID_OFFSET
    && message.Head() == PutU32(head, 8, HEADER_LEN + BodySize(es))
    && message.Body() == BodyBytes(es) && message.tlvCount == ExtCount(es)
    && IsTableOf(message.tlvOffset[..], BodyBytes(es) + after, Cuts(es)[..|es|], ExtCount(es))
  }

  /** BuildAndReplaceMessage: the new message; the old one when collecting or writing fails. */
  method BuildAndReplaceMessage(oldMsg: MsgNode, beyond: Bytes, spm: SpmData, special: bool, room: bool,
                                ghost ts: seq<Tlv>, ghost cuts: seq<nat>, ghost after: Bytes)
    returns (message: MsgNode)
    requires oldMsg.Valid() && oldMsg.buffer != null && oldMsg.tlvOffset != null
    requires OldMessage(oldMsg.Body() + beyond, |oldMsg.Body()|, TlvCount(oldMsg.Head()), ts, cuts, oldMsg.tlvOffset[..])
    requires Readable(oldMsg.Body() + beyond, oldMsg.tlvOffset[..])
    requires spm.granted.Some? ==> |spm.granted.value| < 0x4000
    requires FitsLengthFields(ts, Derive(oldMsg.Body() + beyond, oldMsg.tlvOffset[..], spm, special))
    ensures var es := Rebuilt(ts, Derive(oldMsg.Body() + beyond, oldMsg.tlvOffset[..], spm, special));
            if es.Some? && NamesEnd(es.value) && room
            then fresh(message) && IsNewMessage(message, oldMsg.Head(), es.value, after)
            else message == oldMsg
    // replaced exactly when no record blocks it and all names end within their 32 bytes
    ensures message != oldMsg <==>
              room && forall i :: 0 <= i < |ts| ==> !Blocks(spm, ts[i]) && (ts[i].Ext? ==> |ts[i].name| < 32)
    // of the header only the length is new, and every lookup among the new records finds what it should
    ensures message != oldMsg ==>
              && U32(message.Head(), 8) == 276 + |message.Body()|
              && (forall j :: 0 <= j < 276 && !(8 <= j < 12) ==> message.Head()[j] == oldMsg.Head()[j])
              && var mem, es := oldMsg.Body() + beyond, Rebuilt(ts, Derive(oldMsg.Body() + beyond, oldMsg.tlvOffset[..], spm, special));
                 && es.Some?
                 && (forall kind :: 0 <= kind < TLV_MAX ==>
                       TellsInfo(mem, oldMsg.tlvOffset[..], spm, special, kind, LastStd(es.value, kind)))
                 && forall name :: TellsExt(spm, name, FirstExt(ts, name), FirstExt(es.value, name))
    ensures oldMsg.Head() == old(oldMsg.Head()) && oldMsg.Body() == old(oldMsg.Body())
  {
    hide OldMessage, Readable, Derive, Rebuilt, BodyBytes, BodySize, IsTableOf, ExtCount, PutU32, AllEncodable, AllWritable,
      IsNewMessage, NamesEnd, TlvSize, Blocks, TellsInfo, TellsExt, LastStd, FirstExt, U32;
    ghost var d := Derive(oldMsg.Body() + beyond, oldMsg.tlvOffset[..], spm, special);
    RecordsTell(oldMsg.Body() + beyond, |oldMsg.Body()|, TlvCount(oldMsg.Head()), ts, cuts, oldMsg.tlvOffset[..], spm, special);
    LongTable(oldMsg.Body() + beyond, oldMsg.tlvOffset[..]);
    NamesWithinField(ts, spm, d);
    RebuiltIsNotEmpty(ts, d);
    var ret, entries := CollectTlvsInOrder(oldMsg.buffer[..] + beyond, oldMsg.buffer.Length, oldMsg.tlvOffset[..], spm,
                                           special, TlvCount(oldMsg.header[..]), ts, cuts);
    if ret != 0 {
      return oldMsg;
    }
    var newMsg;
    KindsOfOld(oldMsg.Body() + beyond, |oldMsg.Body()|, TlvCount(oldMsg.Head()), ts, cuts, oldMsg.tlvOffset[..]);
    RebuiltIsWritable(ts, d);
    ret, newMsg := WriteTlvsToNewMsg(oldMsg, entries, room, after);
    message := if ret == 0 then newMsg else oldMsg;
    if ret == 0 {
      OnlyLengthIsNew(newMsg, oldMsg.Head(), entries, after);
    }
  }

  lemma OnlyLengthIsNew(message: MsgNode, head: Bytes, es: seq<Tlv>, after: Bytes)
    requires |head| == HEADER_LEN && IsNewMessage(message, head, es, after)
    ensures |message.Head()| == HEADER_LEN && U32(message.Head(), 8) == 276 + |message.Body()|
    ensures forall j :: 0 <= j < 276 && !(8 <= j < 12) ==> message.Head()[j] == head[j]
  {
    hide BodyBytes, BodySize, IsTableOf;
    var n: u32 := HEADER_LEN + BodySize(es);
    assert message.Head()[8..12] == LE32(n);
    U32OfLE32(message.Head(), 8, n);
  }

  /** Which messages whose records can be built can also be written. */
  lemma NamesWithinField(ts: seq<Tlv>, spm: SpmData, d: Derived)
    requires Rebuilt(ts, d).Some? <==> forall i :: 0 <= i < |ts| ==> !Blocks(spm, ts[i])
    ensures Rebuilt(ts, d).Some? && NamesEnd(Rebuilt(ts, d).value) <==>
            forall i :: 0 <= i < |ts| ==> !Blocks(spm, ts[i]) && (ts[i].Ext? ==> |ts[i].name| < 32)
  {
    hide Rebuilt, Blocks;
    if Rebuilt(ts, d).Some? {
      NamesOfRebuilt(ts, d);
    }
  }

  /** The new records fit the 16-bit length fields, and the message its 32-bit one. */
  ghost predicate FitsLengthFields(ts: seq<Tlv>, d: Derived) {
    Rebuilt(ts, d).Some? ==>
      var es := Rebuilt(ts, d).value;
      && (forall i :: 0 <= i < |es| ==> TlvSize(es[i]) < 0x1_0000)
      && HEADER_LEN + BodySize(es) < INVALID_OFFSET
  }

  /** The old message is replaced: all records could be built, and their lengths and names fit the fields. */
  ghost predicate Replaced(ts: seq<Tlv>, d: Derived) {
    && Rebuilt(ts, d).Some? && AllEncodable(Rebuilt(ts, d).value)
    && HEADER_LEN + BodySize(Rebuilt(ts, d).value) < INVALID_OFFSET
  }

  /** What every reader sees: a standard type below the limit, a name without a zero. */
  ghost predicate Kinds(ts: seq<Tlv>) {
    forall i :: 0 <= i < |ts| ==> (ts[i].Std? ==> ts[i].tlvType < TLV_MAX) && (ts[i].Ext? ==> IsText(ts[i].name))
  }

  lemma KindsOfOld(mem: Bytes, bodyLen: nat, headerCount: nat, ts: seq<Tlv>, cuts: seq<nat>, table: seq<u32>)
    requires OldMessage(mem, bodyLen, headerCount, ts, cuts, table)
    ensures Kinds(ts)
  {
    hide RecordAt, Acceptable, IsTableOf;
    forall i | 0 <= i < |ts|
      ensures (ts[i].Std? ==> ts[i].tlvType < TLV_MAX) && (ts[i].Ext? ==> IsText(ts[i].name))
    {
      assert ReadTlv(mem, cuts[i]) == ts[i];
    }
  }

  lemma RebuiltIsWritable(ts: seq<Tlv>, d: Derived)
    requires Kinds(ts) && Rebuilt(ts, d).Some? && FitsLengthFields(ts, d)
    ensures AllWritable(Rebuilt(ts, d).value)
  {
    hide NewRecord, NewRecords, TlvSize, BodySize;
    NamesAreText();
    var es := Rebuilt(ts, d).value;
    forall i | 0 <= i < |es|
      ensures Writable(es[i])
    {
      if i < |ts| {
        NewRecordsAt(ts, |ts|, d, i);
        NewRecordKind(ts, ts[i], d);
      }
    }
  }

  /** The names of the new records are those of the old ones, and one that fits. */
  lemma NamesOfRebuilt(ts: seq<Tlv>, d: Derived)
    requires Rebuilt(ts, d).Some?
    ensures NamesEnd(Rebuilt(ts, d).value) <==> NamesEnd(ts)
  {
    hide NewRecord, NewRecords;
    NamesAreText();
    var es := Rebuilt(ts, d).value;
    forall i | 0 <= i < |es|
      ensures if i < |ts| then es[i].Ext? == ts[i].Ext? && (ts[i].Ext? ==> es[i].name == ts[i].name)
              else es[i].Ext? && |es[i].name| < NAME_LEN
    {
      if i < |ts| {
        NewRecordsAt(ts, |ts|, d, i);
        NewRecordKind(ts, ts[i], d);
      }
    }
  }

  /** When a message that could be collected is replaced: every name ends within its field. */
  lemma ReplacedIff(mem: Bytes, bodyLen: nat, headerCount: nat, ts: seq<Tlv>, cuts: seq<nat>, table: seq<u32>, d: Derived)
    requires OldMessage(mem, bodyLen, headerCount, ts, cuts, table)
    requires Rebuilt(ts, d).Some? && FitsLengthFields(ts, d)
    ensures Replaced(ts, d) <==> NamesEnd(ts)
  {
    hide Rebuilt, BodySize, OldMessage, AllWritable;
    KindsOfOld(mem, bodyLen, headerCount, ts, cuts, table);
    RebuiltIsWritable(ts, d);
    NamesOfRebuilt(ts, d);
    EncodableIff(Rebuilt(ts, d).value);
  }

  lemma RebuiltIsNotEmpty(ts: seq<Tlv>, d: Derived)
    ensures Rebuilt(ts, d).Some? ==> Rebuilt(ts, d).value != []
  {
  }
}
