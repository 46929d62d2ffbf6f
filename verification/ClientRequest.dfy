/**
  A request as its client means it, and the bytes it stands for: a header, the message flags,
  the permission flags of spawn requests, and the records added by the setters in call order.
*/
module ClientRequest {
  import opened Bytes
  import opened MsgLayout
  import opened MsgDecode
  import opened Wrappers

  const MAX_FLAGS_INDEX := 63
  const MAX_TYPE_INVALID := 16
  const EXTRAINFO_TOTAL_LENGTH_MAX := 32 * 1024
  const CHECKPOINT_INFO_LEN := 268

  datatype Request = Request(msgType: u32, processName: Bytes, flags: seq<u32>, permissions: Option<seq<u32>>,
                             added: seq<Tlv>)

  /** AppSpawnMsgFlags: the count and then the words. */
  function MsgFlags(words: seq<u32>): (ws: seq<u32>)
    requires WordsFit(words)
    ensures |ws| == |words| + 1
  {
    [|words|] + words
  }

  lemma MsgFlagsPut(words: seq<u32>, k: nat, w: u32)
    requires WordsFit(words) && k < |words|
    ensures MsgFlags(words)[k + 1 := w] == MsgFlags(words[k := w])
  {
  }

  /** A flag record. */
  function FlagsTlv(kind: nat, words: seq<u32>): Tlv
    requires WordsFit(words)
  {
    Std(kind, Words(MsgFlags(words)))
  }

  /** What the setters can add: for each standard type the lengths they let through. */
  predicate Addable(t: Tlv) {
    && Encodable(t)
    && (t.Ext? ==> t.data != [] && t.dataType <= 1)
    && (t.Std? ==> |t.payload| % 4 == 0 && PayloadFits(t.tlvType, |t.payload|))
  }

  predicate PayloadFits(kind: nat, len: nat) {
    match kind
    case 0 => 0 < len <= 4 + BUNDLE_NAME_LEN
    case 2 => len == DAC_INFO_LEN
    case 3 => 0 < len <= 4 + APL_LEN
    case 4 => 0 < len <= OWNER_ID_LEN
    case 5 => len == 8
    case 7 => len == 4
    case 8 => len == 4
    case 9 => len == CHECKPOINT_INFO_LEN
    case _ => false
  }

  predicate WordsFit(words: seq<u32>) {
    0 < |words| < 1000
  }

  ghost predicate Proper(r: Request) {
    && 0 < |r.processName| < PROC_NAME_LEN && IsText(r.processName)
    && WordsFit(r.flags)
    && (r.permissions.Some? ==> WordsFit(r.permissions.value))
    && (forall i :: 0 <= i < |r.added| ==> Addable(r.added[i]))
  }

  /** The flag records every request starts with. */
  function BaseRecords(r: Request): (ts: seq<Tlv>)
    requires WordsFit(r.flags) && (r.permissions.Some? ==> WordsFit(r.permissions.value))
    ensures |ts| == if r.permissions.Some? then 2 else 1
  {
    [FlagsTlv(TLV_MSG_FLAGS, r.flags)]
    + match r.permissions case Some(words) => [FlagsTlv(TLV_PERMISSION, words)] case None => []
  }

  function Records(r: Request): seq<Tlv>
    requires WordsFit(r.flags) && (r.permissions.Some? ==> WordsFit(r.permissions.value))
  {
    BaseRecords(r) + r.added
  }

  lemma ProperRecords(r: Request)
    requires Proper(r)
    ensures AllEncodable(Records(r))
  {
  }

  /** What the header counts: the flag records and the extended ones. */
  function Counted(r: Request): nat {
    ExtCount(r.added) + if r.permissions.Some? then 2 else 1
  }

  function Size(r: Request): nat
    requires WordsFit(r.flags) && (r.permissions.Some? ==> WordsFit(r.permissions.value))
  {
    HEADER_LEN + BodySize(Records(r))
  }

  ghost predicate Fits(r: Request) {
    Proper(r) && Size(r) <= MAX_MSG_TOTAL_LENGTH && Counted(r) <= MAX_MSG_TOTAL_LENGTH
  }

  /** A header that counts `count` records, and the records. */
  ghost function MessageBytes(msgType: u32, name: Bytes, count: u32, ts: seq<Tlv>): (b: Bytes)
    requires |name| < PROC_NAME_LEN && AllEncodable(ts) && BodySize(ts) < 0x1_0000
    ensures |b| == HEADER_LEN + BodySize(ts)
  {
    HeaderBytes(msgType, HEADER_LEN + BodySize(ts), 0, count, name) + BodyBytes(ts)
  }

  ghost function RequestBytes(r: Request): (b: Bytes)
    requires Fits(r)
    ensures |b| == Size(r)
  {
    ProperRecords(r);
    MessageBytes(r.msgType, r.processName, Counted(r), Records(r))
  }

  /** The records do not outnumber the bytes: the header count can never be the part of
      CheckRecvMsg that compares it with the length. */
  lemma {:induction false} CountIsSmall(ts: seq<Tlv>)
    ensures TLV_LEN * ExtCount(ts) <= BodySize(ts)
    decreases |ts|
  {
    if ts != [] {
      CountIsSmall(ts[..|ts| - 1]);
    }
  }

  lemma {:induction false} SizeOfPrefix(a: seq<Tlv>, b: seq<Tlv>)
    ensures BodySize(a + b) == BodySize(a) + BodySize(b)
    ensures ExtCount(a + b) == ExtCount(a) + ExtCount(b)
    decreases |b|
  {
    if b == [] {
      assert a + b == a;
    } else {
      SizeOfPrefix(a, b[..|b| - 1]);
      assert (a + b)[..|a + b| - 1] == a + b[..|b| - 1];
    }
  }

  // ------------------------------------------------------------------------- header fields

  lemma PutMsgLen(msgType: u32, msgLen: u32, tlvCount: u32, name: Bytes, body: Bytes, n: u32)
    requires |name| < PROC_NAME_LEN
    ensures PutU32(HeaderBytes(msgType, msgLen, 0, tlvCount, name) + body, 8, n) ==
            HeaderBytes(msgType, n, 0, tlvCount, name) + body
  {
    var front := LE32(MAGIC) + LE32(msgType);
    var rest := LE32(0) + LE32(tlvCount) + name + Zeros(PROC_NAME_LEN - |name|) + body;
    PutBetween(front, LE32(msgLen), rest, n);
    assert front + LE32(msgLen) + rest == HeaderBytes(msgType, msgLen, 0, tlvCount, name) + body;
    assert front + LE32(n) + rest == HeaderBytes(msgType, n, 0, tlvCount, name) + body;
  }

  lemma PutTlvCount(msgType: u32, msgLen: u32, tlvCount: u32, name: Bytes, body: Bytes, n: u32)
    requires |name| < PROC_NAME_LEN
    ensures PutU32(HeaderBytes(msgType, msgLen, 0, tlvCount, name) + body, 16, n) ==
            HeaderBytes(msgType, msgLen, 0, n, name) + body
  {
    var front := LE32(MAGIC) + LE32(msgType) + LE32(msgLen) + LE32(0);
    var rest := name + Zeros(PROC_NAME_LEN - |name|) + body;
    PutBetween(front, LE32(tlvCount), rest, n);
    assert front + LE32(tlvCount) + rest == HeaderBytes(msgType, msgLen, 0, tlvCount, name) + body;
    assert front + LE32(n) + rest == HeaderBytes(msgType, msgLen, 0, n, name) + body;
  }

  lemma HeaderStands(b: Bytes, msgType: u32, len: u32, count: u32, name: Bytes, body: Bytes)
    requires |name| < PROC_NAME_LEN && b == HeaderBytes(msgType, len, 0, count, name) + body
    ensures |b| >= HEADER_LEN && U32(b, 4) == msgType && U32(b, 8) == len && U32(b, 16) == count
  {
    var h := HeaderBytes(msgType, len, 0, count, name);
    assert h[4..8] == LE32(msgType) && h[8..12] == LE32(len) && h[16..20] == LE32(count);
    hide HeaderBytes;
    assert b[4..8] == h[4..8] && b[8..12] == h[8..12] && b[16..20] == h[16..20];
    hide LE32;
    U32OfLE32(b, 4, msgType);
    U32OfLE32(b, 8, len);
    U32OfLE32(b, 16, count);
  }

  lemma RequestHeader(r: Request)
    requires Fits(r)
    ensures var b := RequestBytes(r);
            |b| >= HEADER_LEN && U32(b, 4) == r.msgType && U32(b, 8) == Size(r) && U32(b, 16) == Counted(r)
  {
    hide HeaderBytes, BodyBytes, U32, Records, Counted;
    ProperRecords(r);
    HeaderStands(RequestBytes(r), r.msgType, Size(r), Counted(r), r.processName, BodyBytes(Records(r)));
  }

  // ------------------------------------------------------------------------- flag words

  lemma AlignedRecord(kind: nat, payload: Bytes)
    requires kind < TLV_MAX && |payload| % 4 == 0 && TLV_LEN + |payload| < 0x1_0000
    ensures var t := Std(kind, payload);
            && Encodable(t) && TlvSize(t) == TLV_LEN + |payload|
            && TlvBytes(t) == LE16(TlvSize(t)) + LE16(kind) + payload
  {
    PaddedAligned(payload);
  }

  lemma PutInRecord(kind: nat, ws: seq<u32>, k: nat, w: u32)
    requires kind < TLV_MAX && |ws| < 0x3FF0 && k < |ws|
    ensures Encodable(Std(kind, Words(ws))) && Encodable(Std(kind, Words(ws[k := w])))
    ensures TLV_LEN + 4 * k + 4 <= TlvSize(Std(kind, Words(ws)))
    ensures PutU32(TlvBytes(Std(kind, Words(ws))), TLV_LEN + 4 * k, w) == TlvBytes(Std(kind, Words(ws[k := w])))
  {
    AlignedRecord(kind, Words(ws));
    AlignedRecord(kind, Words(ws[k := w]));
    WordsPut(ws, k, w);
    PutInSuffix(LE16(TlvSize(Std(kind, Words(ws)))) + LE16(kind), Words(ws), 4 * k, w);
  }

  lemma WordInRecord(kind: nat, ws: seq<u32>, k: nat)
    requires kind < TLV_MAX && |ws| < 0x3FF0 && k < |ws|
    ensures Encodable(Std(kind, Words(ws))) && TLV_LEN + 4 * k + 4 <= TlvSize(Std(kind, Words(ws)))
    ensures TlvBytes(Std(kind, Words(ws)))[TLV_LEN + 4 * k..TLV_LEN + 4 * k + 4] == LE32(ws[k])
  {
    hide TlvBytes, TlvSize, Words, LE32, LE16;
    AlignedRecord(kind, Words(ws));
    WordsAt(ws, k);
    SliceLater(LE16(TlvSize(Std(kind, Words(ws)))) + LE16(kind), Words(ws), 4 * k, 4 * k + 4);
  }

  lemma {:induction false} BodyConcat(a: seq<Tlv>, b: seq<Tlv>)
    requires AllEncodable(a) && AllEncodable(b)
    ensures AllEncodable(a + b) && BodyBytes(a + b) == BodyBytes(a) + BodyBytes(b)
    decreases |b|
  {
    hide TlvBytes, Encodable, BodyBytes;
    if b == [] {
      EmptyBody();
      assert a + b == a;
    } else {
      var n := |b| - 1;
      BodyConcat(a, b[..n]);
      assert a + b == (a + b[..n]) + [b[n]] && b == b[..n] + [b[n]];
      BodyAppend(a + b[..n], b[n]);
      BodyAppend(b[..n], b[n]);
      Associate(BodyBytes(a), BodyBytes(b[..n]), TlvBytes(b[n]));
    }
  }

  lemma EmptyBody()
    ensures AllEncodable([]) && BodyBytes([]) == []
  {
  }

  lemma BodyAround(pre: seq<Tlv>, t: Tlv, post: seq<Tlv>)
    requires AllEncodable(pre) && Encodable(t) && AllEncodable(post)
    ensures AllEncodable(pre + [t] + post)
    ensures BodyBytes(pre + [t] + post) == BodyBytes(pre) + TlvBytes(t) + BodyBytes(post)
  {
    BodyAppend(pre, t);
    BodyConcat(pre + [t], post);
  }

  lemma PutAround(b: Bytes, pre: Bytes, mid: Bytes, mid': Bytes, post: Bytes, at: nat, w: u32, b': Bytes)
    requires b == pre + mid + post && b' == pre + mid' + post
    requires |pre| <= at && at + 4 <= |pre| + |mid| && PutU32(mid, at - |pre|, w) == mid'
    ensures at + 4 <= |b| && PutU32(b, at, w) == b'
  {
    PutInSuffix(pre, mid, at - |pre|, w);
    PutInPrefix(pre + mid, post, at, w);
  }

  lemma Around(ts: seq<Tlv>, i: nat, t: Tlv)
    requires AllEncodable(ts) && i < |ts| && Encodable(t)
    ensures AllEncodable(ts[..i]) && AllEncodable(ts[i + 1..]) && AllEncodable(ts[i := t])
    ensures BodyBytes(ts[i := t]) == BodyBytes(ts[..i]) + TlvBytes(t) + BodyBytes(ts[i + 1..])
  {
    assert ts[i := t] == ts[..i] + [t] + ts[i + 1..];
    BodyAround(ts[..i], t, ts[i + 1..]);
  }

  /** A store into record `i` changes that record and disturbs no other. */
  lemma PutInBody(ts: seq<Tlv>, i: nat, t: Tlv, at: nat, w: u32)
    requires AllEncodable(ts) && i < |ts| && Encodable(t)
    requires at + 4 <= TlvSize(ts[i]) && PutU32(TlvBytes(ts[i]), at, w) == TlvBytes(t)
    ensures AllEncodable(ts[i := t]) && Offset(ts, i) + at + 4 <= BodySize(ts)
    ensures PutU32(BodyBytes(ts), Offset(ts, i) + at, w) == BodyBytes(ts[i := t])
  {
    OffsetBound(ts, i);
    hide BodyBytes, TlvBytes, PutU32;
    assert ts[i := ts[i]] == ts;
    Around(ts, i, ts[i]);
    Around(ts, i, t);
    PutAround(BodyBytes(ts), BodyBytes(ts[..i]), TlvBytes(ts[i]), TlvBytes(t), BodyBytes(ts[i + 1..]),
              Offset(ts, i) + at, w, BodyBytes(ts[i := t]));
  }

  // ------------------------------------------------------------------------- steps

  lemma AddedSizes(r: Request, t: Tlv)
    requires Fits(r) && Addable(t) && Size(r) + TlvSize(t) <= MAX_MSG_TOTAL_LENGTH
    ensures var r' := r.(added := r.added + [t]);
            && Fits(r') && Size(r') == Size(r) + TlvSize(t) && Records(r') == Records(r) + [t]
            && Counted(r') == Counted(r) + (if t.Ext? then 1 else 0)
  {
    hide Encodable, TlvSize, BodySize, BaseRecords, BodyBytes, WordsFit, PayloadFits;
    var r' := r.(added := r.added + [t]);
    assert BaseRecords(r') == BaseRecords(r) by { SameBase(r, r'); }
    assert BaseRecords(r) + (r.added + [t]) == BaseRecords(r) + r.added + [t];
    BodyAppend(Records(r), t);
    assert (r.added + [t])[..|r.added|] == r.added;
    CountIsSmall(r'.added);
    SizeOfPrefix(BaseRecords(r), r'.added);
  }

  lemma SameBase(r: Request, r': Request)
    requires r'.flags == r.flags && r'.permissions == r.permissions
    requires WordsFit(r.flags) && (r.permissions.Some? ==> WordsFit(r.permissions.value))
    ensures BaseRecords(r') == BaseRecords(r)
  {
  }

  /** A record written behind a message, before the header has been brought up to date. */
  lemma AppendedRecord(msgType: u32, name: Bytes, count: u32, ts: seq<Tlv>, t: Tlv)
    requires |name| < PROC_NAME_LEN && AllEncodable(ts) && Encodable(t) && BodySize(ts) + TlvSize(t) < 0x1_0000
    ensures AllEncodable(ts + [t]) && BodySize(ts + [t]) == BodySize(ts) + TlvSize(t)
    ensures MessageBytes(msgType, name, count, ts) + TlvBytes(t) ==
            HeaderBytes(msgType, HEADER_LEN + BodySize(ts), 0, count, name) + BodyBytes(ts + [t])
  {
    BodyAppend(ts, t);
    hide HeaderBytes, BodyBytes, TlvBytes, BodySize, TlvSize;
    Associate(HeaderBytes(msgType, HEADER_LEN + BodySize(ts), 0, count, name), BodyBytes(ts), TlvBytes(t));
  }

  /** The length and the count stored into the header. */
  lemma StoredHeader(b: Bytes, msgType: u32, len: u32, count: u32, name: Bytes, body: Bytes, len': u32, count': u32)
    requires |name| < PROC_NAME_LEN && b == HeaderBytes(msgType, len, 0, count, name) + body
    ensures PutU32(PutU32(b, 16, count'), 8, len') == HeaderBytes(msgType, len', 0, count', name) + body
    ensures PutU32(PutU32(b, 8, len'), 16, count') == HeaderBytes(msgType, len', 0, count', name) + body
    ensures PutU32(b, 8, len') == HeaderBytes(msgType, len', 0, count, name) + body
  {
    hide PutU32, HeaderBytes;
    PutTlvCount(msgType, len, count, name, body, count');
    PutMsgLen(msgType, len, count', name, body, len');
    PutMsgLen(msgType, len, count, name, body, len');
    PutTlvCount(msgType, len', count, name, body, count');
  }

  /** A record behind the message, before the header has been brought up to date, and after. */
  lemma AddedRecord(r: Request, t: Tlv)
    requires Fits(r) && Addable(t) && Size(r) + TlvSize(t) <= MAX_MSG_TOTAL_LENGTH
    ensures var r' := r.(added := r.added + [t]);
            && Fits(r') && AllEncodable(Records(r'))
            && Size(r') == Size(r) + TlvSize(t) && Counted(r') == Counted(r) + (if t.Ext? then 1 else 0)
            && RequestBytes(r) + TlvBytes(t) ==
               HeaderBytes(r.msgType, Size(r), 0, Counted(r), r.processName) + BodyBytes(Records(r'))
            && RequestBytes(r') ==
               HeaderBytes(r.msgType, Size(r'), 0, Counted(r'), r.processName) + BodyBytes(Records(r'))
  {
    hide HeaderBytes, BodyBytes, TlvBytes, BodySize, TlvSize, Counted, ExtCount, BaseRecords;
    AddedSizes(r, t);
    ProperRecords(r);
    AppendedRecord(r.msgType, r.processName, Counted(r), Records(r), t);
  }

  function FlagKind(permission: bool): nat {
    if permission then TLV_PERMISSION else TLV_MSG_FLAGS
  }

  function FlagWords(r: Request, permission: bool): seq<u32>
    requires permission ==> r.permissions.Some?
  {
    if permission then r.permissions.value else r.flags
  }

  function WithWords(r: Request, permission: bool, words: seq<u32>): Request {
    if permission then r.(permissions := Some(words)) else r.(flags := words)
  }

  /** Where the count word of a flag record stands in the message. */
  function FlagsAt(r: Request, permission: bool): nat {
    HEADER_LEN + TLV_LEN + if permission then TLV_LEN + 4 + 4 * |r.flags| else 0
  }

  lemma FlagRecordHere(r: Request, permission: bool) returns (i: nat)
    requires Proper(r) && (permission ==> r.permissions.Some?)
    ensures i == (if permission then 1 else 0) < |Records(r)|
    ensures Records(r)[i] == FlagsTlv(FlagKind(permission), FlagWords(r, permission))
    ensures FlagsAt(r, permission) == HEADER_LEN + (Offset(Records(r), i) + TLV_LEN)
  {
    i := if permission then 1 else 0;
    OffsetStep(Records(r), 0);
    AlignedRecord(TLV_MSG_FLAGS, Words(MsgFlags(r.flags)));
  }

  /** A word of a flag record as it stands in the message: the count, then the flag words. */
  lemma FlagWordStands(r: Request, permission: bool, j: nat)
    requires Fits(r) && (permission ==> r.permissions.Some?) && j <= |FlagWords(r, permission)|
    ensures StandsAt(RequestBytes(r), FlagsAt(r, permission) + 4 * j, LE32(MsgFlags(FlagWords(r, permission))[j]))
  {
    hide BodyBytes, TlvBytes, TlvSize, BodySize, LE32, HeaderBytes, Words;
    ProperRecords(r);
    var ws, lo := MsgFlags(FlagWords(r, permission)), TLV_LEN + 4 * j;
    var i := FlagRecordHere(r, permission);
    var body, at := BodyBytes(Records(r)), Offset(Records(r), i);
    WordInRecord(FlagKind(permission), ws, j);
    RecordInBody(Records(r), i);
    SliceOfSlice(body, at, TlvBytes(Records(r)[i]), lo, lo + 4);
    SliceLater(HeaderBytes(r.msgType, Size(r), 0, Counted(r), r.processName), body, at + lo, at + lo + 4);
  }

  lemma StoredInBody(r: Request, permission: bool, k: nat, w: u32)
    requires Proper(r) && (permission ==> r.permissions.Some?) && k < |FlagWords(r, permission)|
    ensures var r' := WithWords(r, permission, FlagWords(r, permission)[k := w]);
            var at := FlagsAt(r, permission) - HEADER_LEN + 4 * (k + 1);
            && Proper(r') && AllEncodable(Records(r)) && AllEncodable(Records(r')) && at + 4 <= |BodyBytes(Records(r))|
            && PutU32(BodyBytes(Records(r)), at, w) == BodyBytes(Records(r'))
  {
    hide BodyBytes, TlvBytes, PutU32, Words;
    ProperRecords(r);
    var words, kind := FlagWords(r, permission), FlagKind(permission);
    var i := FlagRecordHere(r, permission);
    MsgFlagsPut(words, k, w);
    PutInRecord(kind, MsgFlags(words), k + 1, w);
    PutInBody(Records(r), i, FlagsTlv(kind, words[k := w]), TLV_LEN + 4 * (k + 1), w);
    SameSize(r, permission, words[k := w]);
  }

  /** A flag word stored in place: one word of one flag record changes and nothing else. */
  lemma StoredFlagWord(r: Request, permission: bool, k: nat, w: u32)
    requires Fits(r) && (permission ==> r.permissions.Some?) && k < |FlagWords(r, permission)|
    ensures var r' := WithWords(r, permission, FlagWords(r, permission)[k := w]);
            && Fits(r') && FlagsAt(r, permission) + 4 * (k + 1) + 4 <= |RequestBytes(r)|
            && PutU32(RequestBytes(r), FlagsAt(r, permission) + 4 * (k + 1), w) == RequestBytes(r')
  {
    hide BodyBytes, HeaderBytes, PutU32, Counted;
    StoredInBody(r, permission, k, w);
    SameSize(r, permission, FlagWords(r, permission)[k := w]);
    PutInSuffix(HeaderBytes(r.msgType, Size(r), 0, Counted(r), r.processName), BodyBytes(Records(r)),
                FlagsAt(r, permission) - HEADER_LEN + 4 * (k + 1), w);
  }

  lemma SameSize(r: Request, permission: bool, words: seq<u32>)
    requires Proper(r) && (permission ==> r.permissions.Some?) && |words| == |FlagWords(r, permission)|
    ensures var r' := WithWords(r, permission, words);
            && Proper(r') && Size(r') == Size(r) && Counted(r') == Counted(r)
            && var i := if permission then 1 else 0;
               Records(r') == Records(r)[i := FlagsTlv(FlagKind(permission), words)]
  {
    var r' := WithWords(r, permission, words);
    SizeOfPrefix(BaseRecords(r), r.added);
    SizeOfPrefix(BaseRecords(r'), r'.added);
    var base, base' := BaseRecords(r), BaseRecords(r');
    assert base[..|base| - 1] == if |base| == 2 then [base[0]] else [];
    assert base'[..|base| - 1] == if |base| == 2 then [base'[0]] else [];
  }
}
