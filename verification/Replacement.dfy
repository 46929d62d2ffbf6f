/** Replacing the message of a context: what the life cycle keeps of a message, and why a rebuild leaves it alone. */
module Replacement {
  import opened AppMgr
  import opened Books
  import opened Bytes
  import opened MsgDecode
  import opened MsgLayout
  import opened MsgNode
  import opened Rebuild
  import opened RebuiltValues
  import opened RebuildMeaning
  import opened SpmMessage
  import opened TlvBuilder
  import opened Wrappers
  import opened Written

  /** A table whose entries for the token and the DAC record lead to where eight bytes can be read. */
  predicate Reaches(mem: Bytes, table: seq<u32>) {
    && |table| >= TLV_MAX
    && (forall k :: 0 <= k < TLV_MAX && table[k] != INVALID_OFFSET ==> table[k] + TLV_LEN + 8 <= |mem|)
  }

  /** The 32-bit word at `skip` in the payload a standard lookup finds. */
  function WordOf(mem: Bytes, table: seq<u32>, kind: nat, skip: nat): (w: Option<int>)
    requires Reaches(mem, table) && kind < TLV_MAX && skip <= 4
    ensures w.Some? <==> table[kind] != INVALID_OFFSET
    ensures w.Some? ==> 0 <= w.value < 0x1_0000_0000
  {
    match FindInfo(table, kind) case None => None case Some(at) => Some(U32(mem, at + skip))
  }

  /** GetTokenidAndUidFromMsg: the life cycle keeps of a decoded message the low word of its access token id,
      the uid of its DAC record, and its body. */
  function MessageOf(request: nat, connection: nat, mem: Bytes, bodyLen: nat, table: seq<u32>): Message
    requires Reaches(mem, table) && bodyLen <= |mem|
  {
    Message(request, connection, WordOf(mem, table, TLV_ACCESS_TOKEN_INFO, 0), WordOf(mem, table, TLV_DAC_INFO, 0),
            mem[..bodyLen])
  }

  /** In bytes: the first word behind the head of the access token record, the first behind that of the DAC record. */
  lemma WhatIsKept(request: nat, connection: nat, mem: Bytes, bodyLen: nat, table: seq<u32>)
    requires Reaches(mem, table) && bodyLen <= |mem|
    ensures var m, token: int, dac: int := MessageOf(request, connection, mem, bodyLen, table), table[5], table[2];
            && m.request == request && m.connection == connection && m.body == mem[..bodyLen]
            && (token == 0xFFFF_FFFF ==> m.token.None?)
            && (token != 0xFFFF_FFFF ==> token + 8 <= |mem| && m.token == Some(U32(mem, token + 4)))
            && (dac == 0xFFFF_FFFF ==> m.uid.None?)
            && (dac != 0xFFFF_FFFF ==> dac + 8 <= |mem| && m.uid == Some(U32(mem, dac + 4)))
  {
    hide U32;
  }

  lemma OldReaches(mem: Bytes, bodyLen: nat, headerCount: nat, ts: seq<Tlv>, cuts: seq<nat>, table: seq<u32>)
    requires OldMessage(mem, bodyLen, headerCount, ts, cuts, table)
    ensures bodyLen + REACH <= |mem| && Reaches(mem, table)
  {
    hide Laid, IsTableOf, RecordAt, Acceptable, ReadTlv, LastStd;
    StdOfTable(mem, bodyLen, headerCount, ts, cuts, table, 0);
    forall k | 0 <= k < TLV_MAX
      ensures table[k] != INVALID_OFFSET ==> table[k] + TLV_LEN + 8 <= |mem|
    {
      StdOfTable(mem, bodyLen, headerCount, ts, cuts, table, k);
    }
  }

  /** A word read through the table is a word of the payload the record holds. */
  lemma WordOfRecord(mem: Bytes, bodyLen: nat, headerCount: nat, ts: seq<Tlv>, cuts: seq<nat>, table: seq<u32>, kind: nat)
    requires OldMessage(mem, bodyLen, headerCount, ts, cuts, table) && Reaches(mem, table)
    requires kind in {TLV_ACCESS_TOKEN_INFO, TLV_DAC_INFO}
    ensures match LastStd(ts, kind)
            case None => WordOf(mem, table, kind, 0) == None
            case Some(p) => |p| >= 4 && WordOf(mem, table, kind, 0) == Some(U32(p, 0))
  {
    hide Laid, IsTableOf, U32, LastStd;
    StdOfTable(mem, bodyLen, headerCount, ts, cuts, table, kind);
    if LastStd(ts, kind).Some? {
      U32Inside(mem, table[kind] + TLV_LEN, LastStd(ts, kind).value, 0);
    }
  }

  /** The new message, as its own table shows it, is a decoded message like the old one. */
  lemma NewIsOldMessage(es: seq<Tlv>, beyond: Bytes, written: seq<u32>)
    requires AllSound(es) && |beyond| >= REACH && BodySize(es) < INVALID_OFFSET
    requires IsTableOf(written, BodyBytes(es) + beyond, Cuts(es)[..|es|], ExtCount(es))
    ensures OldMessage(BodyBytes(es) + beyond, BodySize(es), ExtCount(es), AsReadAll(es), Cuts(es), written)
  {
    hide Laid, IsTableOf, BodyBytes, BodySize, AllSound, ExtCount;
    WrittenIsLaid(es, beyond);
  }

  lemma PaddedWord(p: Bytes)
    requires |p| >= 4
    ensures |Padded(p)| >= 4 && U32(Padded(p), 0) == U32(p, 0)
  {
  }

  lemma NewWord(es: seq<Tlv>, beyond: Bytes, written: seq<u32>, kind: nat)
    requires AllSound(es) && |beyond| >= REACH && BodySize(es) < INVALID_OFFSET
    requires IsTableOf(written, BodyBytes(es) + beyond, Cuts(es)[..|es|], ExtCount(es))
    requires kind in {TLV_ACCESS_TOKEN_INFO, TLV_DAC_INFO}
    ensures Reaches(BodyBytes(es) + beyond, written)
    ensures match LastStd(es, kind)
            case None => WordOf(BodyBytes(es) + beyond, written, kind, 0) == None
            case Some(p) => |p| >= 4 ==> WordOf(BodyBytes(es) + beyond, written, kind, 0) == Some(U32(p, 0))
  {
    hide OldMessage, IsTableOf, BodyBytes, BodySize, Sound, ExtCount, LastStd, WordOf, U32, Padded, Reaches;
    NewIsOldMessage(es, beyond, written);
    OldReaches(BodyBytes(es) + beyond, BodySize(es), ExtCount(es), AsReadAll(es), Cuts(es), written);
    WordOfRecord(BodyBytes(es) + beyond, BodySize(es), ExtCount(es), AsReadAll(es), Cuts(es), written, kind);
    InfoAsRead(es, kind);
    if LastStd(es, kind).Some? && |LastStd(es, kind).value| >= 4 {
      PaddedWord(LastStd(es, kind).value);
    }
  }

  /** The rebuild is a replacement the life cycle allows: the new message serves the same request and names the
      token and the uid whose counts were raised for the old one. */
  lemma RebuildServesTheSameRequest(request: nat, connection: nat, mem: Bytes, bodyLen: nat, headerCount: nat,
                                    ts: seq<Tlv>, cuts: seq<nat>, table: seq<u32>, spm: SpmData, special: bool,
                                    attr: u32, beyond: Bytes, written: seq<u32>)
    requires OldMessage(mem, bodyLen, headerCount, ts, cuts, table) && FlagsHoldTheirCount(ts)
    requires Readable(mem, table) && Reaches(mem, table) && SpmOk(spm) && |beyond| >= REACH && bodyLen <= |mem|
    requires var m := MessageOf(request, connection, mem, bodyLen, table);
             m.token.Some? && m.uid.Some? && Consistent(spm, attr, m.uid.value, special)
    requires Replaced(ts, Derive(mem, table, spm, special))
    requires var es := Rebuilt(ts, Derive(mem, table, spm, special)).value;
             IsTableOf(written, BodyBytes(es) + beyond, Cuts(es)[..|es|], ExtCount(es))
    ensures var es := Rebuilt(ts, Derive(mem, table, spm, special)).value;
            && Reaches(BodyBytes(es) + beyond, written)
            && var m := MessageOf(request, connection, mem, bodyLen, table);
               var m' := MessageOf(request, connection, BodyBytes(es) + beyond, BodySize(es), written);
               SameRequest(m, m') && m'.body == BodyBytes(es)
  {
    hide OldMessage, Readable, Derive, Rebuilt, BodyBytes, BodySize, IsTableOf, ExtCount, FlagsHoldTheirCount, LastStd,
      WordOf, U32, Reaches, InfoAfter, AllSound, TlvSize;
    var d := Derive(mem, table, spm, special);
    var es := Rebuilt(ts, d).value;
    var uid: u32 := MessageOf(request, connection, mem, bodyLen, table).uid.value;
    RebuiltIsSound(mem, bodyLen, headerCount, ts, cuts, table, spm, special);
    WordOfRecord(mem, bodyLen, headerCount, ts, cuts, table, TLV_ACCESS_TOKEN_INFO);
    WordOfRecord(mem, bodyLen, headerCount, ts, cuts, table, TLV_DAC_INFO);
    TokenAndUidSurvive(mem, table, ts, spm, special, attr, uid);
    InfoOfRebuilt(ts, TLV_ACCESS_TOKEN_INFO, d);
    InfoOfRebuilt(ts, TLV_DAC_INFO, d);
    NewWord(es, beyond, written, TLV_ACCESS_TOKEN_INFO);
    NewWord(es, beyond, written, TLV_DAC_INFO);
    assert (BodyBytes(es) + beyond)[..BodySize(es)] == BodyBytes(es);
  }

  /** What a context keeps of a message node. */
  ghost predicate Shows(m: Message, node: MsgNode, beyond: Bytes)
    reads node, node.header, node.buffer, node.tlvOffset
  {
    && node.Valid() && node.buffer != null && node.tlvOffset != null
    && Reaches(node.Body() + beyond, node.tlvOffset[..])
    && m == MessageOf(m.request, m.connection, node.Body() + beyond, |node.Body()|, node.tlvOffset[..])
  }

  lemma TokenIsThere(m: Message, mem: Bytes, table: seq<u32>)
    requires Reaches(mem, table) && m.token.Some? && m.token == WordOf(mem, table, TLV_ACCESS_TOKEN_INFO, 0)
    ensures |table| >= 10 && table[TLV_ACCESS_TOKEN_INFO] != INVALID_OFFSET
  {
  }

  /** A decoded message the rebuild can read. */
  ghost predicate Rebuildable(mem: Bytes, bodyLen: nat, headerCount: nat, table: seq<u32>, ts: seq<Tlv>, cuts: seq<nat>) {
    && OldMessage(mem, bodyLen, headerCount, ts, cuts, table) && FlagsHoldTheirCount(ts)
    && Readable(mem, table) && Reaches(mem, table)
  }

  /** SPM data whose records fit the length fields. */
  ghost predicate Fitting(spm: SpmData, mem: Bytes, table: seq<u32>, ts: seq<Tlv>, special: bool) {
    SpmOk(spm) && Readable(mem, table) && FitsLengthFields(ts, Derive(mem, table, spm, special))
  }

  /** When the new message takes the place of the old one, which names this uid: the upper word of its access token
      is the attribute of the SPM data, the uid is theirs too unless the process is a special one, and every
      record can be built and written, which takes names that end within their 32 bytes. */
  ghost predicate Agrees(spm: SpmData, mem: Bytes, table: seq<u32>, ts: seq<Tlv>, special: bool, uid: int) {
    && |table| >= 10 && (var at: int := table[5]; at + 12 <= |mem| && spm.tokenidAttr == U32(mem, at + 8))
    && (spm.uid == uid || special)
    && forall j :: 0 <= j < |ts| ==> !Blocks(spm, ts[j]) && (ts[j].Ext? ==> |ts[j].name| < 32)
  }

  /** What the comparison of the attributes and uids comes to. */
  lemma WhenConsistent(spm: SpmData, mem: Bytes, table: seq<u32>, uid: u32, special: bool)
    requires Reaches(mem, table) && table[TLV_ACCESS_TOKEN_INFO] != INVALID_OFFSET
    ensures var attr, at: int := WordOf(mem, table, TLV_ACCESS_TOKEN_INFO, 4), table[5];
            && attr.Some? && at + 12 <= |mem|
            && (Consistent(spm, attr.value, uid, special) <==>
                  spm.tokenidAttr == U32(mem, at + 8) && (spm.uid == uid || special))
  {
    hide U32;
  }

  /** BuildAndReplaceMessage with consistent SPM data: the node the context is left with, and what it shows. */
  method BuildNode(m: Message, oldMsg: MsgNode, beyond: Bytes, spm: SpmData, special: bool, room: bool, attr: u32,
                   after: Bytes, ghost ts: seq<Tlv>, ghost cuts: seq<nat>) returns (message: MsgNode)
    requires Shows(m, oldMsg, beyond) && m.token.Some? && m.uid.Some? && |after| >= REACH
    requires Rebuildable(oldMsg.Body() + beyond, |oldMsg.Body()|, TlvCount(oldMsg.Head()), oldMsg.tlvOffset[..], ts, cuts)
    requires Fitting(spm, oldMsg.Body() + beyond, oldMsg.tlvOffset[..], ts, special)
    requires Consistent(spm, attr, m.uid.value, special)
    ensures message != oldMsg <==>
              room && forall j :: 0 <= j < |ts| ==> !Blocks(spm, ts[j]) && (ts[j].Ext? ==> |ts[j].name| < 32)
    ensures message == oldMsg ==> Shows(m, oldMsg, beyond)
    ensures message != oldMsg ==> message.buffer != null && Shows(m.(body := message.buffer[..]), message, after)
  {
    hide OldMessage, Readable, Derive, Rebuilt, BodyBytes, BodySize, IsTableOf, ExtCount, FlagsHoldTheirCount, LastStd,
      WordOf, Reaches, PutU32, FitsLengthFields, NamesEnd, TlvSize;
    ghost var mem, table := oldMsg.Body() + beyond, oldMsg.tlvOffset[..];
    ghost var d := Derive(mem, table, spm, special);
    if Rebuilt(ts, d).Some? {
      NamesOfRebuilt(ts, d);
      if NamesEnd(ts) {
        ReplacedIff(mem, |oldMsg.Body()|, TlvCount(oldMsg.Head()), ts, cuts, table, d);
      }
    }
    message := BuildAndReplaceMessage(oldMsg, beyond, spm, special, room, ts, cuts, after);
    if message != oldMsg {
      RebuildServesTheSameRequest(m.request, m.connection, mem, |oldMsg.Body()|, TlvCount(oldMsg.Head()), ts, cuts, table,
                                  spm, special, attr, after, message.tlvOffset[..]);
    }
  }

  /** RebuildMessageFromSPM from the SPM data on, `counts` being what ValidateUidRefCount says: the context ends
      up with the message its node shows, for the same request, token and uid. */
  method ReplaceFromSpm(mgr: AppSpawnMgr, i: nat, oldMsg: MsgNode, beyond: Bytes, spm: Option<SpmData>, special: bool,
                        counts: bool, room: bool, after: Bytes, ghost ts: seq<Tlv>, ghost cuts: seq<nat>)
    returns (message: MsgNode)
    requires i < |mgr.appSpawnQueue| && mgr.appSpawnQueue[i].message.Some? && |after| >= REACH
    requires Shows(mgr.appSpawnQueue[i].message.value, oldMsg, beyond)
    requires mgr.appSpawnQueue[i].message.value.token.Some? && mgr.appSpawnQueue[i].message.value.uid.Some?
    requires Rebuildable(oldMsg.Body() + beyond, |oldMsg.Body()|, TlvCount(oldMsg.Head()), oldMsg.tlvOffset[..], ts, cuts)
    requires spm.Some? ==> Fitting(spm.value, oldMsg.Body() + beyond, oldMsg.tlvOffset[..], ts, special)
    requires mgr.Valid()
    modifies mgr`appSpawnQueue
    ensures |mgr.appSpawnQueue| == old(|mgr.appSpawnQueue|) && mgr.appSpawnQueue[i].message.Some?
    ensures var m, m' := old(mgr.appSpawnQueue)[i].message.value, mgr.appSpawnQueue[i].message.value;
            && mgr.appSpawnQueue == old(mgr.appSpawnQueue)[i := old(mgr.appSpawnQueue)[i].(message := Some(m'))]
            && SameRequest(m, m') && m.uid.Some? && Shows(m', message, if message == oldMsg then beyond else after)
            && (message != oldMsg <==>
                  && spm.Some? && counts && room
                  && Agrees(spm.value, oldMsg.Body() + beyond, oldMsg.tlvOffset[..], ts, special, m.uid.value))
    ensures mgr.Valid()
  {
    hide OldMessage, Readable, Derive, Rebuilt, FlagsHoldTheirCount, mgr.Valid, FitsLengthFields, NamesEnd, Reaches,
      Consistent, SpmOk, Blocks, U32;
    message := oldMsg;
    var mem, table := oldMsg.buffer[..] + beyond, oldMsg.tlvOffset[..];
    var m := mgr.appSpawnQueue[i].message.value;
    var attr := WordOf(mem, table, TLV_ACCESS_TOKEN_INFO, 4);
    TokenIsThere(m, mem, table);
    if spm.Some? {
      WhenConsistent(spm.value, mem, table, m.uid.value, special);
    }
    if spm.None? || !Consistent(spm.value, attr.value, m.uid.value, special) || !counts {
      return;
    }
    hide WordOf;
    message := BuildNode(m, oldMsg, beyond, spm.value, special, room, attr.value, after, ts, cuts);
    if message != oldMsg {
      mgr.ReplaceMessage(i, m.(body := message.buffer[..]));
    }
  }
}
