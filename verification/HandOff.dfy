/** The way of a message to a pre-forked child: through shared memory, and decoded once more. */
module HandOff {
  import opened Bytes
  import opened MsgLayout
  import opened MsgDecode
  import opened MsgNode
  import opened Framing
  import opened Receive
  import opened Written
  import opened Rebuild
  import opened SpmMessage
  import opened TlvBuilder
  import opened RebuildMeaning
  import opened ClientRequest
  import opened RoundTrip
  import opened SpawnCheck
  import opened Wrappers

  const MAX_MSG_BLOCK_LEN := 4096

  /** The size of the mapping, which parent and child each compute from the message length. */
  function MemSize(msgLen: nat): (size: nat)
    ensures msgLen < size <= msgLen + 4096 && size % 4096 == 0
  {
    (msgLen / MAX_MSG_BLOCK_LEN + 1) * MAX_MSG_BLOCK_LEN
  }

  /** WritePreforkMsg: header and body, one behind the other. */
  method WritePreforkMsg(message: MsgNode, shared: array<byte>)
    requires message.Valid() && message.buffer != null && shared != message.header && shared != message.buffer
    requires |message.Body()| == MsgLen(message.Head()) - HEADER_LEN && shared.Length == MemSize(MsgLen(message.Head()))
    modifies shared
    ensures shared[..MsgLen(message.Head())] == message.Head() + message.Body()
  {
    var header, body := message.header[..], message.buffer[..];
    MemCpy(shared, 0, header);
    assert shared[..HEADER_LEN] == header;
    ghost var was := shared[..];
    MemCpy(shared, HEADER_LEN, body);
    assert shared[..] == was[..HEADER_LEN] + body + was[HEADER_LEN + |body|..];
    assert was[..HEADER_LEN] == header;
  }

  /** What a child takes: a message that passes the checks on its header, decodes, and can be spawned. */
  ghost predicate Taken(m: Bytes, beyond: Bytes)
    requires |m| >= HEADER_LEN && |beyond| >= REACH
  {
    && CheckRecvMsg(m) && |m| == MsgLen(m) && BodyDecodes(m, beyond)
    && |DecodedTable(m, beyond)| >= TLV_MAX && Spawnable(m, m[HEADER_LEN..] + beyond, DecodedTable(m, beyond))
  }

  function DecodedTable(m: Bytes, beyond: Bytes): seq<u32>
    requires HEADER_LEN <= |m| < INVALID_OFFSET && |beyond| >= REACH
  {
    Decode(m[HEADER_LEN..] + beyond, |m| - HEADER_LEN, TlvCount(m)).table
  }

  /** The first half of GetAppSpawnMsg: takes the message out of the mapping and decodes it; `beyond` is
      what lies behind the child's copy of the body. */
  method DecodeShared(shared: array<byte>, beyond: Bytes) returns (ret: int, message: MsgNode?)
    requires |beyond| >= REACH && shared.Length >= HEADER_LEN && MsgLen(shared[..]) <= shared.Length
    requires HEADER_LEN < MsgLen(shared[..])
    ensures var m := shared[..MsgLen(shared[..])];
            && |m| == MsgLen(m)
            && (ret == 0 <==> CheckRecvMsg(m) && BodyDecodes(m, beyond))
            && (message != null <==> ret == 0)
            && (message != null ==>
                  && fresh(message) && message.Valid() && message.buffer != null && message.tlvOffset != null
                  && message.Head() == m[..HEADER_LEN] && message.Body() == m[HEADER_LEN..]
                  && var d := Decode(m[HEADER_LEN..] + beyond, |m| - HEADER_LEN, TlvCount(m));
                     message.tlvOffset[..] == d.table && message.tlvCount == d.count)
  {
    hide Decode, Magic, MsgLen, TlvCount, CheckRecvMsg, Zeros;
    var msgLen := MsgLen(shared[..]);
    var m := shared[..msgLen];
    HeadSame(shared[..], msgLen);
    var node := new MsgNode();
    assert Holds(node, []);
    var recvLen, reminder;
    assert [] + m == m;
    ret, recvLen, reminder := GetAppSpawnMsgFromBuffer(node, m, 0, []);
    if ret != 0 {
      return -1, null;
    }
    assert m[..msgLen] == m;
    CheckedIsShort(m);
    WholeDecodes(m, node.header[..], node.buffer[..], beyond);
    ret := node.DecodeAppSpawnMsg(beyond);
    if ret != 0 {
      return -1, null;
    }
    message := node;
  }

  lemma CheckedIsShort(h: Bytes)
    requires |h| >= HEADER_LEN && CheckRecvMsg(h)
    ensures MsgLen(h) < MAX_MSG_TOTAL_LENGTH
  {
  }

  /** GetAppSpawnMsg: takes the message out of the mapping, decodes and checks it. */
  method GetAppSpawnMsg(shared: array<byte>, beyond: Bytes) returns (ret: int, message: MsgNode?)
    requires |beyond| >= REACH && shared.Length >= HEADER_LEN && MsgLen(shared[..]) <= shared.Length
    requires HEADER_LEN < MsgLen(shared[..])
    ensures var m := shared[..MsgLen(shared[..])];
            && (ret == 0 <==> Taken(m, beyond))
            && (message != null <==> ret == 0)
            && (message != null ==>
                  && fresh(message) && message.Valid() && message.buffer != null && message.tlvOffset != null
                  && message.Head() == m[..HEADER_LEN] && message.Body() == m[HEADER_LEN..]
                  && var d := Decode(m[HEADER_LEN..] + beyond, |m| - HEADER_LEN, TlvCount(m));
                     message.tlvOffset[..] == d.table && message.tlvCount == d.count)
  {
    hide Decode, Magic, MsgLen, TlvCount, Slashed;
    ret, message := DecodeShared(shared, beyond);
    if ret != 0 {
      return;
    }
    EntryInBody(message.Body() + beyond, |message.Body()|, TlvCount(shared[..MsgLen(shared[..])]), TLV_BUNDLE_INFO);
    ret := CheckAppSpawnMsg(message, beyond);
    if ret != 0 {
      return -1, null;
    }
  }

  lemma HeadSame(b: Bytes, n: nat)
    requires HEADER_LEN <= n <= |b|
    ensures var m := b[..n];
            && MsgLen(m) == MsgLen(b) && MsgLen(PartialHeader(m)) == MsgLen(b) && TlvCount(PartialHeader(m)) == TlvCount(m)
            && (CheckRecvMsg(PartialHeader(m)) <==> CheckRecvMsg(m))
  {
  }

  /** Whoever decodes these records, of which the header counts `count`, finds this payload of a
      standard type and this record of a name. */
  ghost predicate Finds(es: seq<Tlv>, count: nat, behind: Bytes, kind: nat, name: Bytes, info: Option<Bytes>,
                        ext: Option<Tlv>)
    requires AllEncodable(es) && BodySize(es) < INVALID_OFFSET && |behind| >= REACH
  {
    var mem := BodyBytes(es) + behind;
    var d := Decode(mem, BodySize(es), count);
    && d.ok && |d.table| >= TLV_MAX && EntriesInside(mem, d.table, d.count)
    && InfoIs(mem, d.table, kind, info) && ExtInfoIs(mem, d.table, d.count, name, ext)
  }

  /** A header and records a child is handed. It takes them exactly when they stay below the limit on a
      message, the process has a name, and the mandatory records are there, with no slash or backslash in
      the bundle name; and then it finds what they hold. */
  lemma ChildFinds(h: Bytes, es: seq<Tlv>, beyond: Bytes, kind: nat, name: Bytes)
    requires |h| == HEADER_LEN && AllSound(es) && |beyond| >= REACH && kind < TLV_MAX && IsText(name)
    requires Magic(h) == MAGIC && MsgLen(h) == HEADER_LEN + BodySize(es) < INVALID_OFFSET
    requires ExtCount(es) <= TlvCount(h) <= ExtCount(es) + 1 && TlvCount(h) < MAX_TLV_COUNT
    ensures var m := h + BodyBytes(es);
            && m[HEADER_LEN..] == BodyBytes(es)
            && (Terminated(LastStd(es, TLV_BUNDLE_INFO)) ==>
                  (Taken(m, beyond) <==> 276 + BodySize(es) < 65536 && CanSpawn(h, es)))
    ensures Finds(es, TlvCount(h), beyond, kind, name, LastStd(es, kind), FirstExt(es, name))
  {
    hide BodyBytes, BodySize, Decode, InfoIs, ExtInfoIs, EntriesInside, Magic, MsgLen, TlvCount, LastStd, FirstExt, ExtCount,
      Sound, Spawnable, CanSpawn;
    HeadOfMessage(h, BodyBytes(es));
    CountIsSmall(es);
    BodyAligned(es);
    WrittenLookups(es, beyond, TlvCount(h), kind, name);
    WrittenSpawns(h, es, beyond, TlvCount(h));
  }

  /** A process name, and the mandatory records with a plain bundle name. */
  predicate CanSpawn(h: Bytes, es: seq<Tlv>)
    requires |h| >= HEADER_LEN
  {
    h[20] != 0 && HasMandatory(es) && PlainName(LastStd(es, TLV_BUNDLE_INFO))
  }

  lemma WrittenSpawns(h: Bytes, es: seq<Tlv>, beyond: Bytes, count: nat)
    requires |h| == HEADER_LEN && AllSound(es) && |beyond| >= REACH && BodySize(es) < INVALID_OFFSET
    requires ExtCount(es) <= count
    ensures var m, d := h + BodyBytes(es), Decode(BodyBytes(es) + beyond, BodySize(es), count);
            && |d.table| >= TLV_MAX
            && (Terminated(LastStd(es, TLV_BUNDLE_INFO)) ==>
                  (Spawnable(m, BodyBytes(es) + beyond, d.table) <==> CanSpawn(h, es)))
  {
    hide BodyBytes, BodySize, Decode, InfoIs, ExtInfoIs, EntriesInside, LastStd, FirstExt, ExtCount, Sound, Spawnable,
      PlainName, Terminated, IsTableOf;
    var mem, d := BodyBytes(es) + beyond, Decode(BodyBytes(es) + beyond, BodySize(es), count);
    WrittenLookups(es, beyond, count, 0, []);
    TableIsLong(mem, Cuts(es)[..|es|], d.table, count);
    forall k | 0 <= k < TLV_MAX
      ensures InfoIs(mem, d.table, k, LastStd(es, k))
    {
      WrittenLookups(es, beyond, count, k, []);
    }
    if Terminated(LastStd(es, TLV_BUNDLE_INFO)) {
      SpawnableByLookups(h + BodyBytes(es), mem, d.table, es);
    }
  }

  lemma TableIsLong(mem: Bytes, starts: seq<nat>, table: seq<u32>, count: nat)
    requires IsTableOf(table, mem, starts, count)
    ensures |table| >= TLV_MAX
  {
  }

  lemma HeadStored(h: Bytes, n: u32)
    requires |h| == HEADER_LEN
    ensures var h' := PutU32(h, 8, n);
            Magic(h') == Magic(h) && MsgLen(h') == n && TlvCount(h') == TlvCount(h) && MsgType(h') == MsgType(h)
  {
    var h' := PutU32(h, 8, n);
    assert h'[8..12] == LE32(n);
    U32OfLE32(h', 8, n);
  }

  /** A client's message as the server holds it decoded. */
  lemma RequestIsOldMessage(r: Request, beyond: Bytes)
    requires Sendable(r, false) && |beyond| >= REACH
    ensures AllEncodable(Records(r)) && RequestBytes(r)[HEADER_LEN..] == BodyBytes(Records(r))
    ensures OldMessage(BodyBytes(Records(r)) + beyond, BodySize(Records(r)), Counted(r), Records(r), Cuts(Records(r)),
                       ServerView(r, beyond).table)
    ensures FlagsHoldTheirCount(Records(r)) && ExtCount(Records(r)) + 1 <= Counted(r) <= ExtCount(Records(r)) + 2
  {
    hide BodyBytes, BodySize, Decode, Laid, IsTableOf, Sound, AsRead, RequestBytes, BaseRecords, ExtCount;
    RequestHead(r);
    RecordsAreSound(r);
    WrittenIsLaid(Records(r), beyond);
    SizeOfPrefix(BaseRecords(r), r.added);
    NoExtInBase(r);
    WrittenLookups(Records(r), beyond, Counted(r), 0, []);
    SoundFlagsHoldTheirCount(Records(r));
  }

  lemma SoundFlagsHoldTheirCount(ts: seq<Tlv>)
    requires AllSound(ts) && AsReadAll(ts) == ts
    ensures FlagsHoldTheirCount(ts)
  {
    hide Padded;
    assert forall i :: 0 <= i < |ts| ==> AsRead(ts[i]) == ts[i];
  }

  /** What the rebuild of a client's request works with. */
  ghost function DerivedFor(r: Request, beyond: Bytes, spm: SpmData, special: bool): Derived
    requires Sendable(r, false) && |beyond| >= REACH && SpmOk(spm)
  {
    RequestIsOldMessage(r, beyond);
    var mem := BodyBytes(Records(r)) + beyond;
    DecodedIsReadable(mem, BodySize(Records(r)), Counted(r), Records(r), Cuts(Records(r)), ServerView(r, beyond).table);
    Derive(mem, ServerView(r, beyond).table, spm, special)
  }

  /** The message is replaced by one of these records. */
  ghost predicate IsRebuilt(ts: seq<Tlv>, d: Derived, es: seq<Tlv>) {
    Replaced(ts, d) && es == Rebuilt(ts, d).value
  }

  /** The names of a client's records all fit, so only their lengths can keep a collected request from being
      replaced. */
  lemma RequestIsReplaced(r: Request, beyond: Bytes, spm: SpmData, special: bool)
    requires Sendable(r, false) && |beyond| >= REACH && SpmOk(spm)
    ensures var d := DerivedFor(r, beyond, spm, special);
            Replaced(Records(r), d) <==> Rebuilt(Records(r), d).Some? && FitsLengthFields(Records(r), d)
  {
    hide BodyBytes, BodySize, Decode, Laid, IsTableOf, RequestBytes, Derive, Rebuilt, OldMessage, Readable, Records, TlvSize,
      Encodable;
    var ts, d := Records(r), DerivedFor(r, beyond, spm, special);
    RequestIsOldMessage(r, beyond);
    NamesOfEncodable(ts);
    if Rebuilt(ts, d).Some? && FitsLengthFields(ts, d) {
      ReplacedIff(BodyBytes(ts) + beyond, BodySize(ts), Counted(r), ts, Cuts(ts), ServerView(r, beyond).table, d);
    } else if Replaced(ts, d) {
      SizesOfEncodable(Rebuilt(ts, d).value);
    }
  }

  lemma NamesOfEncodable(ts: seq<Tlv>)
    requires AllEncodable(ts)
    ensures NamesEnd(ts)
  {
    EncodableIff(ts);
  }

  lemma SizesOfEncodable(ts: seq<Tlv>)
    requires AllEncodable(ts)
    ensures forall i :: 0 <= i < |ts| ==> TlvSize(ts[i]) < 0x1_0000
  {
  }

  /** The bundle name of the SPM data, as it is cut and terminated, holds no slash or backslash. */
  predicate PlainSpmName(spm: SpmData) {
    PlainName(Some(BundlePayload(spm)))
  }

  /** A client's request, rebuilt from SPM data by the server and handed to a pre-forked child: the header's
      count, which also counts the flag records, still covers the added record. So the child takes the
      message exactly when it has not outgrown the limit, the client named the process and set the
      mandatory records, and the bundle name of the SPM data is a plain one; and its lookups find the
      SPM-derived values, the id type and everything else the client set. */
  lemma RebuiltRequestReachesTheChild(r: Request, beyond: Bytes, spm: SpmData, special: bool, behind: Bytes, kind: nat,
                                      name: Bytes, d: Derived, es: seq<Tlv>, h: Bytes)
    requires Sendable(r, false) && |beyond| >= REACH && |behind| >= REACH && SpmOk(spm)
    requires kind < TLV_MAX && IsText(name)
    requires d == DerivedFor(r, beyond, spm, special) && IsRebuilt(Records(r), d, es)
    requires h == PutU32(RequestBytes(r)[..HEADER_LEN], 8, HEADER_LEN + BodySize(es))
    ensures Taken(h + BodyBytes(es), behind) <==>
            && 276 + BodySize(es) < 65536
            && RequestBytes(r)[20] != 0 && HasMandatory(Records(r)) && PlainSpmName(spm)
    ensures Finds(es, TlvCount(h), behind, kind, name, InfoAfter(Records(r), kind, d), ExtAfter(Records(r), name, d))
  {
    hide RequestBytes, Decode, BodyBytes, BodySize, Readable, Derive, Rebuilt, InfoAfter, ExtAfter, Records, OldMessage,
      PutU32, Magic, MsgLen, TlvCount, MsgType, ExtCount, FlagsHoldTheirCount, Sound, Encodable, LastStd, FirstExt, Counted,
      Finds, Taken, HasMandatory, PlainName, BundlePayload, Terminated;
    var ts, table := Records(r), ServerView(r, beyond).table;
    RequestHead(r);
    RequestIsOldMessage(r, beyond);
    var mem := BodyBytes(ts) + beyond;
    DecodedIsReadable(mem, BodySize(ts), Counted(r), ts, Cuts(ts), table);
    RebuiltIsSound(mem, BodySize(ts), Counted(r), ts, Cuts(ts), table, spm, special);
    InfoOfRebuilt(ts, kind, d);
    ExtOfRebuilt(ts, name, d);
    HeadOfPrefix(RequestBytes(r));
    HeadStored(RequestBytes(r)[..HEADER_LEN], HEADER_LEN + BodySize(es));
    ChildFinds(h, es, behind, kind, name);
    HeadKept(RequestBytes(r), HEADER_LEN + BodySize(es));
    BundleOf(mem, table, spm, special);
    RebuiltCanSpawn(ts, d, es);
    BundleEnds(spm);
  }

  /** A client's request names its process. */
  lemma NameStarts(r: Request)
    requires Fits(r)
    ensures RequestBytes(r)[20] != 0
  {
    hide BodyBytes, BodySize, LE32;
    ProperRecords(r);
    var h := HeaderBytes(r.msgType, Size(r), 0, Counted(r), r.processName);
    assert h[20] == r.processName[0];
  }

  /** The server's own check of a client's request, before the rebuild: it takes a request for which the client has
      set bundle, DAC, domain and access token, with a plain bundle name. */
  lemma RequestCanSpawn(r: Request, beyond: Bytes)
    requires Sendable(r, false) && |beyond| >= REACH && Terminated(LastStd(Records(r), TLV_BUNDLE_INFO))
    ensures |ServerView(r, beyond).table| >= TLV_MAX
    ensures Spawnable(RequestBytes(r), RequestBytes(r)[HEADER_LEN..] + beyond, ServerView(r, beyond).table) <==>
            CanSpawn(RequestBytes(r), Records(r))
    ensures CanSpawn(RequestBytes(r), Records(r)) <==>
            && LastStd(r.added, 0).Some? && LastStd(r.added, 2).Some? && LastStd(r.added, 3).Some?
            && LastStd(r.added, 5).Some? && PlainName(LastStd(r.added, 0))
  {
    hide RequestBytes, Decode, BodyBytes, BodySize, Records, Magic, MsgLen, TlvCount, MsgType, ExtCount, Counted, Sound,
      Spawnable, PlainName, Terminated, LastStd;
    LastStdOfRecords(r, 0);
    LastStdOfRecords(r, 1);
    LastStdOfRecords(r, 2);
    LastStdOfRecords(r, 3);
    LastStdOfRecords(r, 5);
    NameStarts(r);
    var m := RequestBytes(r);
    RequestHead(r);
    RecordsAreSound(r);
    RequestCounts(r);
    assert m == m[..HEADER_LEN] + BodyBytes(Records(r));
    WrittenSpawns(m[..HEADER_LEN], Records(r), beyond, Counted(r));
  }

  /** A request that has passed the server's check may still be refused by the child: exactly when the
      bundle name of the SPM data is not a plain one, or the rebuilt message is too long. */
  lemma CheckedRequestIsTaken(r: Request, beyond: Bytes, spm: SpmData, special: bool, behind: Bytes, d: Derived,
                              es: seq<Tlv>, h: Bytes)
    requires Sendable(r, false) && |beyond| >= REACH && |behind| >= REACH && SpmOk(spm)
    requires d == DerivedFor(r, beyond, spm, special) && IsRebuilt(Records(r), d, es)
    requires h == PutU32(RequestBytes(r)[..HEADER_LEN], 8, HEADER_LEN + BodySize(es))
    requires Terminated(LastStd(Records(r), TLV_BUNDLE_INFO)) && |ServerView(r, beyond).table| >= TLV_MAX
    requires Spawnable(RequestBytes(r), RequestBytes(r)[HEADER_LEN..] + beyond, ServerView(r, beyond).table)
    ensures Taken(h + BodyBytes(es), behind) <==> 276 + BodySize(es) < 65536 && PlainSpmName(spm)
  {
    hide RequestBytes, Decode, BodyBytes, BodySize, Readable, Derive, Rebuilt, Records, PutU32, LastStd, Taken, HasMandatory,
      PlainName, Terminated, Spawnable, FitsLengthFields, DerivedFor, PlainSpmName, Finds, OldMessage;
    RequestCanSpawn(r, beyond);
    RebuiltRequestReachesTheChild(r, beyond, spm, special, behind, 0, [], d, es, h);
  }

  /** That is: no slash and no backslash among its first 255 bytes, up to a zero if there is one. */
  lemma WhichNamesArePlain(spm: SpmData)
    ensures PlainSpmName(spm) <==>
            var name := CString(spm.name[..if |spm.name| < 256 then |spm.name| else 255]);
            forall j :: 0 <= j < |name| ==> name[j] != 47 && name[j] != 92
  {
    hide LE32, CString;
    var cut := spm.name[..if |spm.name| < 256 then |spm.name| else 255];
    var field := BundlePayload(spm)[4..];
    assert field == cut + [0];
    var s := CString(cut);
    assert field[..|s|] == s && field[|s|] == 0;
    CStringIs(field, |s|);
  }

  /** Such a name: `a/b`. */
  lemma SlashedSpmName(spm: SpmData)
    requires spm.name == [97, SLASH, 98]
    ensures !PlainSpmName(spm)
  {
    hide LE32;
    var field := BundlePayload(spm)[BUNDLE_NAME_AT..];
    assert field == [97, SLASH, 98, 0];
    ReachesText(field, 1);
  }

  lemma HeadKept(m: Bytes, n: u32)
    requires |m| >= HEADER_LEN
    ensures PutU32(m[..HEADER_LEN], 8, n)[PROC_NAME_AT] == m[PROC_NAME_AT]
  {
  }

  lemma BundleOf(mem: Bytes, table: seq<u32>, spm: SpmData, special: bool)
    requires Readable(mem, table) && SpmOk(spm)
    ensures Derive(mem, table, spm, special).bundle == BundlePayload(spm)
  {
  }

  lemma BundleEnds(spm: SpmData)
    ensures Terminated(Some(BundlePayload(spm))) && Terminated(None)
  {
    hide LE32;
    var p := BundlePayload(spm);
    assert p[BUNDLE_NAME_AT..][|p| - BUNDLE_NAME_AT - 1] == 0;
  }

  /** A rebuild keeps the mandatory records, and brings its own bundle name. */
  lemma RebuiltCanSpawn(ts: seq<Tlv>, d: Derived, es: seq<Tlv>)
    requires Rebuilt(ts, d) == Some(es)
    ensures HasMandatory(es) <==> HasMandatory(ts)
    ensures LastStd(ts, TLV_BUNDLE_INFO).Some? ==> LastStd(es, TLV_BUNDLE_INFO) == Some(d.bundle)
    ensures LastStd(ts, TLV_BUNDLE_INFO).None? ==> LastStd(es, TLV_BUNDLE_INFO) == None && !HasMandatory(ts)
  {
    hide Rebuilt, LastStd;
    forall k | 0 <= k < TLV_MAX
      ensures LastStd(es, k) == InfoAfter(ts, k, d)
    {
      InfoOfRebuilt(ts, k, d);
    }
    assert Must(TLV_BUNDLE_INFO);
  }

  lemma HeadOfPrefix(m: Bytes)
    requires |m| >= HEADER_LEN
    ensures var h := m[..HEADER_LEN];
            Magic(h) == Magic(m) && MsgLen(h) == MsgLen(m) && TlvCount(h) == TlvCount(m) && MsgType(h) == MsgType(m)
  {
  }
}
