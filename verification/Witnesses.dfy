/** Messages at which the promises of the framing and of the round trip fail. */
module Witnesses {
  import opened Bytes
  import opened ClientRequest
  import opened Framing
  import opened HandOff
  import opened MsgDecode
  import opened MsgLayout
  import opened Rebuild
  import opened RebuildMeaning
  import opened RoundTrip
  import opened SpawnCheck
  import opened SpmMessage
  import opened Wrappers

  /** A message of one record with `n` zero bytes. */
  function Sample(n: nat): (m: Bytes)
    requires n < 1000
    ensures |m| == HEADER_LEN + TLV_LEN + n
  {
    HeaderBytes(MSG_APP_SPAWN, HEADER_LEN + TLV_LEN + n, 0, 0, [97])
    + (LE16(TLV_LEN + n) + LE16(TLV_INTERNET_INFO) + Zeros(n))
  }

  lemma SampleHead(n: nat)
    requires n < 1000
    ensures var m := Sample(n);
            && Magic(m) == MAGIC && MsgLen(m) == |m| && TlvCount(m) == 0 && MsgType(m) == MSG_APP_SPAWN
            && m[HEADER_LEN..] == LE16(TLV_LEN + n) + LE16(TLV_INTERNET_INFO) + Zeros(n)
  {
    hide HeaderBytes, Magic, MsgLen, TlvCount, MsgType, LE16;
    var len := HEADER_LEN + TLV_LEN + n;
    HeaderFields(MSG_APP_SPAWN, len, 0, 0, [97]);
    HeadOfMessage(HeaderBytes(MSG_APP_SPAWN, len, 0, 0, [97]), LE16(TLV_LEN + n) + LE16(TLV_INTERNET_INFO) + Zeros(n));
  }

  lemma SampleDecodes(n: nat, after: Bytes)
    requires n < 1000 && |after| >= REACH
    ensures Decode(LE16(TLV_LEN + n) + LE16(TLV_INTERNET_INFO) + Zeros(n) + after, TLV_LEN + n, 0).ok
  {
    var mem := LE16(TLV_LEN + n) + LE16(TLV_INTERNET_INFO) + Zeros(n) + after;
    assert mem[0..2] == LE16(TLV_LEN + n) && mem[2..4] == LE16(TLV_INTERNET_INFO);
    U16OfLE16(mem, 0, TLV_LEN + n);
    U16OfLE16(mem, 2, TLV_INTERNET_INFO);
    hide U16, LE16;
    assert LenAt(mem, 0) == TLV_LEN + n && TypeAt(mem, 0) == TLV_INTERNET_INFO && Acceptable(mem, 0);
    var table := EmptyTable(0);
    assert DecodeFrom(mem, TLV_LEN + n, 0, TLV_LEN + n, table[TLV_INTERNET_INFO := 0], 0).ok;
  }

  lemma SampleAccepted(n: nat, beyond: Bytes)
    requires n < 1000 && |beyond| >= REACH
    ensures Accepted(Sample(n), beyond, false)
  {
    hide Sample, Decode, Magic, MsgLen, TlvCount, MsgType, LE16;
    SampleHead(n);
    SampleDecodes(n, beyond);
  }

  /** A message of 521 bytes: accepted as a whole, and the connection closed when its first nine bytes arrive
      on their own. */
  lemma NinthByteWitness(beyond: Bytes)
    requires |beyond| >= REACH
    ensures var m := Sample(241);
            && |m| == 521 && Accepted(m, beyond, false)
            && ReceiveAll([], [m], beyond, false) == Rx([m], [], true)
            && ReceiveAll([], [m[..9], m[9..]], beyond, false) == CLOSED
  {
    hide Sample, Accepted, ReceiveAll, MsgLen;
    SampleAccepted(241, beyond);
    SampleHead(241);
    NinthByteCloses(Sample(241), beyond, false);
  }

  /** A message that is only a header, and a good one: both are handed on when they arrive one by one, the
      second is lost when they arrive together. */
  lemma HeaderOnlyWitness(beyond: Bytes)
    requires |beyond| >= REACH
    ensures var h, m := HeaderBytes(MSG_APP_SPAWN, HEADER_LEN, 0, 0, [97]), Sample(0);
            && Good(m, beyond, false)
            && ReceiveAll([], [h, m], beyond, false) == Rx([h, m], [], true)
            && ReceiveAll([], [h + m], beyond, false) == Rx([h], [], true)
  {
    hide Sample, HeaderBytes, Deliver, Good, ReceiveAll;
    var h, m := HeaderBytes(MSG_APP_SPAWN, HEADER_LEN, 0, 0, [97]), Sample(0);
    GoodSample(beyond);
    HeaderAlone([], beyond);
    HeaderAlone(m, beyond);
    assert h + [] == h;
    OneByOne(h, m, beyond);
    OneChunk(h, h + m, beyond);
  }

  lemma GoodSample(beyond: Bytes)
    requires |beyond| >= REACH
    ensures Good(Sample(0), beyond, false) && Deliver([], Sample(0), beyond, false) == Rx([Sample(0)], [], true)
  {
    hide Sample, MsgLen, Deliver, Accepted, NeverMisread;
    SampleAccepted(0, beyond);
    SampleHead(0);
    AlignedIsNeverMisread(Sample(0));
    WholeMessage(Sample(0), beyond, false);
  }

  lemma HeaderAlone(rest: Bytes, beyond: Bytes)
    requires |beyond| >= REACH
    ensures var h := HeaderBytes(MSG_APP_SPAWN, HEADER_LEN, 0, 0, [97]);
            Deliver([], h + rest, beyond, false) == Rx([h], [], true)
  {
    hide HeaderBytes, Magic, MsgLen, TlvCount, MsgType, Deliver;
    HeaderFields(MSG_APP_SPAWN, HEADER_LEN, 0, 0, [97]);
    HeaderOnlyDropsTheRest(HeaderBytes(MSG_APP_SPAWN, HEADER_LEN, 0, 0, [97]), rest, beyond, false);
  }

  lemma OneChunk(h: Bytes, chunk: Bytes, beyond: Bytes)
    requires |beyond| >= REACH && |chunk| < MAX_MSG_TOTAL_LENGTH && Deliver([], chunk, beyond, false) == Rx([h], [], true)
    ensures ReceiveAll([], [chunk], beyond, false) == Rx([h], [], true)
  {
    assert [chunk][1..] == [] && [h] + [] == [h];
  }

  lemma OneByOne(h: Bytes, m: Bytes, beyond: Bytes)
    requires |beyond| >= REACH && |h| < MAX_MSG_TOTAL_LENGTH && |m| < MAX_MSG_TOTAL_LENGTH
    requires Deliver([], h, beyond, false) == Rx([h], [], true) && Deliver([], m, beyond, false) == Rx([m], [], true)
    ensures ReceiveAll([], [h, m], beyond, false) == Rx([h, m], [], true)
  {
    OneChunk(m, m, beyond);
    assert [h, m][1..] == [m] && [h] + [m] == [h, m];
  }

  // ------------------------------------------------------------------------- requests that are refused

  function Copies(t: Tlv, n: nat): (ts: seq<Tlv>)
    ensures |ts| == n && forall i :: 0 <= i < n ==> ts[i] == t
  {
    seq(n, _ => t)
  }

  lemma {:induction false} CopiesCount(t: Tlv, n: nat)
    ensures BodySize(Copies(t, n)) == n * TlvSize(t)
    ensures t.Ext? ==> ExtCount(Copies(t, n)) == n
  {
    if n > 0 {
      assert Copies(t, n)[..n - 1] == Copies(t, n - 1);
      CopiesCount(t, n - 1);
    }
  }

  /** A request of one flag word and `n` records of a name with `len` bytes each. */
  function Many(n: nat, len: nat): Request {
    Request(MSG_APP_SPAWN, [97], [0], None, Copies(Ext([120], Zeros(len), 0), n))
  }

  lemma ManyCounts(n: nat, len: nat)
    requires 0 < len && len % 4 == 0 && EXT_LEN + len < 0x1_0000
    ensures Proper(Many(n, len)) && Size(Many(n, len)) == 288 + n * (EXT_LEN + len) && Counted(Many(n, len)) == n + 1
  {
    hide Words, TlvBytes;
    var t := Ext([120], Zeros(len), 0);
    var r := Many(n, len);
    PaddedAligned(t.data);
    assert TlvSize(t) == EXT_LEN + len && Addable(t);
    CopiesCount(t, n);
    SizeOfPrefix(BaseRecords(r), r.added);
    AlignedRecord(TLV_MSG_FLAGS, Words(MsgFlags([0])));
    var base := BaseRecords(r);
    assert base[..0] == [] && |base| == 1;
    assert BodySize(base) == 12;
  }

  /** A request of 65536 bytes, and one that counts 128 records: the client builds both, the server takes
      neither. */
  lemma RefusedRequests(beyond: Bytes)
    requires |beyond| >= REACH
    ensures Fits(Many(2, 32584)) && Size(Many(2, 32584)) == MAX_MSG_TOTAL_LENGTH && Counted(Many(2, 32584)) == 3
    ensures !Accepted(RequestBytes(Many(2, 32584)), beyond, false)
    ensures Fits(Many(127, 4)) && Size(Many(127, 4)) < MAX_MSG_TOTAL_LENGTH && Counted(Many(127, 4)) == MAX_TLV_COUNT
    ensures !Accepted(RequestBytes(Many(127, 4)), beyond, false)
  {
    hide Many, Size, Counted, RequestBytes, Accepted;
    ManyCounts(2, 32584);
    ManyCounts(127, 4);
    ServerAccepts(Many(2, 32584), beyond, false);
    ServerAccepts(Many(127, 4), beyond, false);
  }

  // ------------------------------------------------------------------------- a request the child refuses

  /** The setters of an ordinary request: bundle `a`, DAC, domain and token records. */
  function Added(): (ts: seq<Tlv>)
    ensures |ts| == 4 && forall i :: 0 <= i < 4 ==> ts[i].Std?
  {
    [Std(TLV_BUNDLE_INFO, [0, 0, 0, 0, 97, 0, 0, 0]), Std(TLV_DAC_INFO, Zeros(DAC_INFO_LEN)),
     Std(TLV_DOMAIN_INFO, Zeros(8)), Std(TLV_ACCESS_TOKEN_INFO, Zeros(8))]
  }

  function Ordinary(): Request {
    Request(MSG_APP_SPAWN, [97], [0], None, Added())
  }

  /** What SPM knows of its token, with a slash in the bundle name: `a/b`. */
  function Slashed(): SpmData {
    SpmData(0, 0, 0, [97, SLASH, 98], 0, 0, 0, 0, None, None)
  }

  predicate Small(t: Tlv) {
    t.Std? && |t.payload| <= 400 && t.tlvType in {TLV_BUNDLE_INFO, TLV_MSG_FLAGS, TLV_DAC_INFO, TLV_DOMAIN_INFO, TLV_ACCESS_TOKEN_INFO}
  }

  ghost predicate AllSmall(ts: seq<Tlv>) {
    forall i :: 0 <= i < |ts| ==> Small(ts[i])
  }

  lemma SmallSize(t: Tlv)
    requires Small(t)
    ensures TlvSize(t) <= 404
  {
  }

  lemma {:induction false} BodyBelow(ts: seq<Tlv>, bound: nat)
    requires forall i :: 0 <= i < |ts| ==> TlvSize(ts[i]) <= bound
    ensures BodySize(ts) <= bound * |ts|
  {
    hide TlvSize;
    if ts != [] {
      BodyBelow(ts[..|ts| - 1], bound);
    }
  }

  lemma OrdinaryRecords()
    ensures var r := Ordinary();
            && Proper(r) && |Records(r)| == 5 && AllSmall(Records(r)) && Counted(r) == 1
            && Records(r)[0] == FlagsTlv(TLV_MSG_FLAGS, [0])
            && forall i :: 1 <= i < 5 ==> Records(r)[i] == Added()[i - 1]
  {
    var r := Ordinary();
    var ts := Added();
    assert |Words(MsgFlags([0]))| == 8;
    hide Words, TlvBytes;
    forall i | 0 <= i < 4
      ensures Addable(ts[i]) && Small(ts[i])
    {
      PaddedAligned(ts[i].payload);
    }
    NoneExtended(ts);
  }

  lemma {:induction false} NoneExtended(ts: seq<Tlv>)
    requires forall i :: 0 <= i < |ts| ==> ts[i].Std?
    ensures ExtCount(ts) == 0
  {
    if ts != [] {
      NoneExtended(ts[..|ts| - 1]);
    }
  }

  lemma OrdinaryIsSendable()
    ensures Sendable(Ordinary(), false) && Records(Ordinary()) != []
  {
    hide Records, BodySize;
    OrdinaryRecords();
    var ts := Records(Ordinary());
    forall i | 0 <= i < |ts|
      ensures TlvSize(ts[i]) <= 404
    {
      SmallSize(ts[i]);
    }
    BodyBelow(ts, 404);
  }

  lemma OrdinaryCanSpawn()
    ensures var ts := Records(Ordinary());
            && HasMandatory(ts) && Terminated(LastStd(ts, TLV_BUNDLE_INFO)) && PlainName(LastStd(ts, TLV_BUNDLE_INFO))
  {
    hide Records, LastStd;
    OrdinaryRecords();
    var ts := Records(Ordinary());
    forall i | 0 <= i < 5
      ensures LastStd(ts, ts[i].tlvType).Some?
    {
      LastStdOfMember(ts, i);
    }
    assert ts[1] == Added()[0] && ts[2] == Added()[1] && ts[3] == Added()[2] && ts[4] == Added()[3];
    var i := LastIsMember(ts, TLV_BUNDLE_INFO);
    var payload := LastStd(ts, TLV_BUNDLE_INFO).value;
    assert payload == ts[1].payload;
    assert payload[BUNDLE_NAME_AT..] == [97, 0, 0, 0];
    assert payload[BUNDLE_NAME_AT..][1] == 0;
    assert payload[BUNDLE_NAME_AT..][..1] == [97];
    CStringIs(payload[BUNDLE_NAME_AT..], 1);
  }

  /** The records such a message is rebuilt to: all of them small. */
  lemma SmallRebuild(ts: seq<Tlv>, d: Derived)
    requires AllSmall(ts) && |d.bundle| <= 400 && |d.domain| <= 400 && |d.xpm| <= 400
    requires d.dac.Some? && |d.dac.value| <= 400
    ensures Rebuilt(ts, d).Some?
    ensures forall i :: 0 <= i < |Rebuilt(ts, d).value| ==> TlvSize(Rebuilt(ts, d).value[i]) <= 444
    ensures |Rebuilt(ts, d).value| == |ts| + 1
  {
    hide NewRecords, LastStd;
    RebuiltExactly(ts, d);
    var es := Rebuilt(ts, d).value;
    forall i | 0 <= i < |ts|
      ensures TlvSize(es[i]) <= 444
    {
      NewRecordsAt(ts, |ts|, d, i);
      LastStdOfMember(ts, i);
      var j := LastIsMember(ts, ts[i].tlvType);
      assert Small(es[i]);
      SmallSize(es[i]);
    }
  }

  lemma SlashedSizes(mem: Bytes, table: seq<u32>)
    requires Readable(mem, table)
    ensures SpmOk(Slashed())
    ensures var d := Derive(mem, table, Slashed(), false);
            && |d.bundle| <= 400 && |d.domain| <= 400 && |d.xpm| <= 400 && d.dac.Some? && |d.dac.value| <= 400
  {
    assert |APL_NAME_MAP[0]| == 6;
  }

  lemma RebuiltOrdinary(beyond: Bytes) returns (es: seq<Tlv>)
    requires |beyond| >= REACH && Sendable(Ordinary(), false) && SpmOk(Slashed())
    ensures IsRebuilt(Records(Ordinary()), DerivedFor(Ordinary(), beyond, Slashed(), false), es)
    ensures HEADER_LEN + BodySize(es) < MAX_MSG_TOTAL_LENGTH
  {
    hide Records, Ordinary, Slashed, Derive, Rebuilt, BodySize, BodyBytes, OldMessage, Readable, Decode, RequestBytes,
      TlvSize, Replaced;
    var r := Ordinary();
    OrdinaryRecords();
    var ts, table := Records(r), ServerView(r, beyond).table;
    RequestIsOldMessage(r, beyond);
    var mem := BodyBytes(ts) + beyond;
    DecodedIsReadable(mem, BodySize(ts), Counted(r), ts, Cuts(ts), table);
    SlashedSizes(mem, table);
    var d := DerivedFor(r, beyond, Slashed(), false);
    SmallRebuild(ts, d);
    es := Rebuilt(ts, d).value;
    BodyBelow(es, 444);
    RequestIsReplaced(r, beyond, Slashed(), false);
  }

  /** A request that the server accepts, checks and rebuilds, and that the child refuses for its new bundle
      name alone. */
  lemma RefusedByTheChild(beyond: Bytes, behind: Bytes) returns (es: seq<Tlv>, h: Bytes)
    requires |beyond| >= REACH && |behind| >= REACH
    ensures Sendable(Ordinary(), false) && SpmOk(Slashed())
    ensures var r := Ordinary();
            var m := RequestBytes(r);
            && Accepted(m, beyond, false) && |ServerView(r, beyond).table| >= TLV_MAX
            && Spawnable(m, m[HEADER_LEN..] + beyond, ServerView(r, beyond).table)
            && IsRebuilt(Records(r), DerivedFor(r, beyond, Slashed(), false), es)
            && HEADER_LEN + BodySize(es) < MAX_MSG_TOTAL_LENGTH
            && h == PutU32(m[..HEADER_LEN], 8, HEADER_LEN + BodySize(es))
            && !Taken(h + BodyBytes(es), behind)
  {
    hide Records, Ordinary, Derive, Rebuilt, BodySize, BodyBytes, OldMessage, Readable, Decode, RequestBytes, Accepted,
      Spawnable, Taken, PutU32, DerivedFor, IsRebuilt, HasMandatory, PlainName, Terminated, LastStd, ServerView, PlainSpmName;
    var r := Ordinary();
    OrdinaryIsSendable();
    assert SpmOk(Slashed());
    OrdinaryCanSpawn();
    ServerAccepts(r, beyond, false);
    NameInHeader(r);
    RequestCanSpawn(r, beyond);
    es := RebuiltOrdinary(beyond);
    h := PutU32(RequestBytes(r)[..HEADER_LEN], 8, HEADER_LEN + BodySize(es));
    SlashedSpmName(Slashed());
    CheckedRequestIsTaken(r, beyond, Slashed(), false, behind, DerivedFor(r, beyond, Slashed(), false), es, h);
  }

  /** The process name is in the header. */
  lemma NameInHeader(r: Request)
    requires Fits(r)
    ensures RequestBytes(r)[PROC_NAME_AT] == r.processName[0]
  {
    hide BodyBytes, Records, Counted, Size, LE32;
    ProperRecords(r);
  }
}
