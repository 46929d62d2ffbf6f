/**
  From the client's calls to the server's lookups: the bytes a request stands for are accepted,
  survive any cutting into receives, and every lookup finds what was set.
*/
module RoundTrip {
  import opened Bytes
  import opened MsgLayout
  import opened MsgDecode
  import opened Framing
  import opened ClientRequest
  import opened ClientMsg
  import opened PackedFlags
  import opened Wrappers
  import opened Written

  // ------------------------------------------------------------------------- one record

  /** A flag record whose count fits its words. */
  predicate IsFlags(t: Tlv) {
    && t.Std? && t.tlvType in {TLV_MSG_FLAGS, TLV_PERMISSION}
    && |t.payload| >= 4 && |t.payload| % 4 == 0
    && U32(t.payload, 0) * 4 < |t.payload|
  }

  lemma FlagsAreFlags(kind: nat, words: seq<u32>)
    requires WordsFit(words) && kind in {TLV_MSG_FLAGS, TLV_PERMISSION}
    ensures IsFlags(FlagsTlv(kind, words))
  {
    hide LE32, Words, U32;
    WordsAt(MsgFlags(words), 0);
    U32OfLE32(Words(MsgFlags(words)), 0, |words|);
  }

  /** The limits the setters enforce are at least as strict as those the server checks. */
  lemma SetRecordsAreSound(t: Tlv)
    requires Addable(t) || IsFlags(t)
    ensures AsRead(t) == t && Sound(t)
  {
    hide U32;
    if t.Std? {
      PaddedAligned(t.payload);
    }
  }

  lemma RecordsAreSound(r: Request)
    requires Proper(r)
    ensures AllSound(Records(r)) && AsReadAll(Records(r)) == Records(r)
  {
    hide Addable, IsFlags, FlagsTlv, Sound, AsRead;
    ProperRecords(r);
    forall i | 0 <= i < |Records(r)|
      ensures AsRead(Records(r)[i]) == Records(r)[i] && Sound(Records(r)[i])
    {
      var t := Records(r)[i];
      if i >= |BaseRecords(r)| {
        assert t == r.added[i - |BaseRecords(r)|];
      } else {
        FlagsAreFlags(FlagKind(i == 1), FlagWords(r, i == 1));
      }
      SetRecordsAreSound(t);
    }
  }

  // ------------------------------------------------------------------------- one message

  lemma RequestCounts(r: Request)
    requires Fits(r)
    ensures HEADER_LEN < Size(r) && Size(r) % 4 == 0
    ensures ExtCount(Records(r)) <= Counted(r) && TLV_LEN * Counted(r) < Size(r)
  {
    hide BodySize, ExtCount, BaseRecords;
    BodyAligned(Records(r));
    CountIsSmall(r.added);
    SizeOfPrefix(BaseRecords(r), r.added);
    NoExtInBase(r);
  }

  /** What the server finds in the header of a client's message. */
  lemma RequestHead(r: Request)
    requires Fits(r)
    ensures var m := RequestBytes(r);
            && Magic(m) == MAGIC && MsgLen(m) == |m| == Size(r) && TlvCount(m) == Counted(r)
            && MsgType(m) == r.msgType
            && AllEncodable(Records(r)) && m[HEADER_LEN..] == BodyBytes(Records(r))
  {
    hide HeaderBytes, BodyBytes, BodySize, Magic, MsgLen, TlvCount, MsgType, Counted, Records;
    ProperRecords(r);
    HeaderFields(r.msgType, Size(r), 0, Counted(r), r.processName);
    HeadOfMessage(HeaderBytes(r.msgType, Size(r), 0, Counted(r), r.processName), BodyBytes(Records(r)));
  }

  lemma HeadOfMessage(h: Bytes, body: Bytes)
    requires |h| == HEADER_LEN
    ensures var m := h + body;
            && m[HEADER_LEN..] == body && Magic(m) == Magic(h) && MsgLen(m) == MsgLen(h)
            && TlvCount(m) == TlvCount(h) && MsgType(m) == MsgType(h)
  {
  }

  lemma NoExtInBase(r: Request)
    requires Proper(r)
    ensures ExtCount(BaseRecords(r)) == 0
    ensures BodySize(BaseRecords(r)) >= if r.permissions.Some? then 16 else 8
  {
    hide Words;
    AlignedRecord(TLV_MSG_FLAGS, Words(MsgFlags(r.flags)));
    var base := BaseRecords(r);
    if r.permissions.Some? {
      AlignedRecord(TLV_PERMISSION, Words(MsgFlags(r.permissions.value)));
    }
    assert base[..1] == [base[0]] && [base[0]][..0] == [];
    assert ExtCount([base[0]]) == 0;
    hide TlvSize, TlvBytes;
    OneOrTwo(base);
  }

  /** Exactly when the server takes a client's message: the client itself checks neither the
      count nor the last byte of the length. */
  lemma ServerAccepts(r: Request, beyond: Bytes, shell: bool)
    requires Fits(r) && |beyond| >= REACH
    ensures Accepted(RequestBytes(r), beyond, shell) <==>
              Size(r) < 65536 && Counted(r) < 128 && (shell ==> r.msgType == 8)
    ensures Accepted(RequestBytes(r), beyond, shell) ==> Good(RequestBytes(r), beyond, shell)
  {
    hide RequestBytes, BodyBytes, Decode, Records, Magic, MsgLen, TlvCount, MsgType, Counted, Laid, BodySize, ExtCount,
      NeverMisread, IsTableOf;
    RequestHead(r);
    RequestCounts(r);
    RecordsAreSound(r);
    var m := RequestBytes(r);
    if Size(r) < MAX_MSG_TOTAL_LENGTH {
      WrittenLookups(Records(r), beyond, Counted(r), 0, []);
      AlignedIsNeverMisread(m);
    }
  }

  // ------------------------------------------------------------------------- lookups

  /** What the setters have left for each standard type. */
  function SetInfo(r: Request, kind: nat): Option<Bytes>
    requires WordsFit(r.flags) && (r.permissions.Some? ==> WordsFit(r.permissions.value))
  {
    if kind == TLV_MSG_FLAGS then Some(Words(MsgFlags(r.flags)))
    else if kind == TLV_PERMISSION then
      match r.permissions case Some(words) => Some(Words(MsgFlags(words))) case None => None
    else LastStd(r.added, kind)
  }

  lemma {:induction false} LastStdOfConcat(a: seq<Tlv>, b: seq<Tlv>, kind: nat)
    ensures LastStd(a + b, kind) == if LastStd(b, kind).Some? then LastStd(b, kind) else LastStd(a, kind)
    decreases |b|
  {
    if b == [] {
      assert a + b == a;
    } else {
      LastStdOfConcat(a, b[..|b| - 1], kind);
      assert (a + b)[..|a + b| - 1] == a + b[..|b| - 1];
    }
  }

  lemma {:induction false} FirstExtOfConcat(a: seq<Tlv>, b: seq<Tlv>, name: Bytes)
    ensures FirstExt(a + b, name) == if FirstExt(a, name).Some? then FirstExt(a, name) else FirstExt(b, name)
    decreases |b|
  {
    if b == [] {
      assert a + b == a;
    } else {
      FirstExtOfConcat(a, b[..|b| - 1], name);
      assert (a + b)[..|a + b| - 1] == a + b[..|b| - 1];
    }
  }

  lemma {:induction false} NoFlagsAdded(added: seq<Tlv>, kind: nat)
    requires (forall i :: 0 <= i < |added| ==> Addable(added[i])) && kind in {TLV_MSG_FLAGS, TLV_PERMISSION}
    ensures LastStd(added, kind) == None
    decreases |added|
  {
    if added != [] {
      NoFlagsAdded(added[..|added| - 1], kind);
      assert Addable(added[|added| - 1]);
    }
  }

  lemma LastStdOfRecords(r: Request, kind: nat)
    requires Proper(r)
    ensures LastStd(Records(r), kind) == SetInfo(r, kind)
  {
    hide Words, MsgFlags;
    LastStdOfConcat(BaseRecords(r), r.added, kind);
    if kind in {TLV_MSG_FLAGS, TLV_PERMISSION} {
      NoFlagsAdded(r.added, kind);
    }
    LastOfBase(BaseRecords(r), kind);
  }

  lemma LastOfBase(base: seq<Tlv>, kind: nat)
    requires 1 <= |base| <= 2 && forall i :: 0 <= i < |base| ==> base[i].Std?
    ensures LastStd(base, kind) ==
            if |base| == 2 && base[1].tlvType == kind then Some(base[1].payload)
            else if base[0].tlvType == kind then Some(base[0].payload) else None
    ensures forall name :: FirstExt(base, name) == None
  {
    assert base[..1] == [base[0]] && [base[0]][..0] == [];
    forall name
      ensures FirstExt(base, name) == None
    {
      assert FirstExt([base[0]], name) == None;
    }
  }

  lemma FirstExtOfRecords(r: Request, name: Bytes)
    requires Proper(r)
    ensures FirstExt(Records(r), name) == FirstExt(r.added, name)
  {
    hide Words, MsgFlags;
    FirstExtOfConcat(BaseRecords(r), r.added, name);
    LastOfBase(BaseRecords(r), 0);
  }

  /** The decoded message a server has of a request. */
  ghost function ServerView(r: Request, beyond: Bytes): Decoded
    requires Fits(r) && |beyond| >= REACH
  {
    RequestHead(r);
    Decode(RequestBytes(r)[HEADER_LEN..] + beyond, Size(r) - HEADER_LEN, Counted(r))
  }

  /** Every lookup on the decoded message finds what the client set: of a standard type the last
      payload, of a name the data and exact length of the first record so named. */
  lemma LookupsFindWhatWasSet(r: Request, beyond: Bytes, kind: nat, name: Bytes)
    requires Fits(r) && |beyond| >= REACH && kind < TLV_MAX && IsText(name)
    ensures var mem, d := RequestBytes(r)[HEADER_LEN..] + beyond, ServerView(r, beyond);
            && d.ok && |d.table| == TLV_MAX + Counted(r) && EntriesInside(mem, d.table, d.count)
            && InfoIs(mem, d.table, kind, SetInfo(r, kind))
            && ExtInfoIs(mem, d.table, d.count, name, FirstExt(r.added, name))
  {
    hide RequestBytes, BodyBytes, Decode, Records, InfoIs, ExtInfoIs, EntriesInside, BodySize, ExtCount, Sound;
    RequestHead(r);
    RequestCounts(r);
    RecordsAreSound(r);
    LastStdOfRecords(r, kind);
    FirstExtOfRecords(r, name);
    WrittenLookups(Records(r), beyond, Counted(r), kind, name);
  }

  // ------------------------------------------------------------------------- flags

  /** CheckAppSpawnMsgFlagsSet on the flag record a lookup points at. */
  predicate FlagSetAt(mem: Bytes, at: nat, index: nat)
    requires at + 4 <= |mem| && at + 4 + 4 * U32(mem, at) <= |mem|
  {
    && index / WORD_BITS < U32(mem, at)
    && TestBit(U32(mem, at + 4 + 4 * (index / WORD_BITS)), index % WORD_BITS)
  }

  lemma PartStands(mem: Bytes, at: nat, whole: Bytes, from: nat, part: Bytes, lo: nat)
    requires StandsAt(mem, at, whole) && StandsAt(whole, from, part) && lo == at + from
    ensures StandsAt(mem, lo, part)
  {
    SliceOfSlice(mem, at, whole, from, from + |part|);
  }

  lemma WordStands(mem: Bytes, at: nat, ws: seq<u32>, k: nat, lo: nat)
    requires StandsAt(mem, at, Words(ws)) && k < |ws| && lo == at + 4 * k
    ensures lo + 4 <= |mem| && U32(mem, lo) == ws[k]
  {
    hide Words, U32, LE32;
    WordsAt(ws, k);
    hide StandsAt;
    PartStands(mem, at, Words(ws), 4 * k, LE32(ws[k]), lo);
    WordRead(mem, lo, ws[k]);
  }

  lemma WordRead(mem: Bytes, at: nat, w: u32)
    requires StandsAt(mem, at, LE32(w))
    ensures at + 4 <= |mem| && U32(mem, at) == w
  {
    hide LE32, U32;
    U32OfLE32(mem, at, w);
  }

  lemma FlagsStand(mem: Bytes, at: nat, words: seq<u32>, index: nat)
    requires WordsFit(words) && StandsAt(mem, at, Words(MsgFlags(words)))
    ensures at + 4 <= |mem| && U32(mem, at) == |words| && at + 4 + 4 * |words| <= |mem|
    ensures FlagSetAt(mem, at, index) <==> Has(words, index)
  {
    hide Words, U32, TestBit;
    WordStands(mem, at, MsgFlags(words), 0, at);
    if index / WORD_BITS < |words| {
      WordStands(mem, at, MsgFlags(words), index / WORD_BITS + 1, at + 4 + 4 * (index / WORD_BITS));
    }
  }

  /** The server's test of a flag answers for the client's words. */
  lemma ServerTestsTheClientsFlags(r: Request, beyond: Bytes, permission: bool, index: nat)
    requires Fits(r) && |beyond| >= REACH && (permission ==> r.permissions.Some?)
    ensures var mem, d := RequestBytes(r)[HEADER_LEN..] + beyond, ServerView(r, beyond);
            && |d.table| >= TLV_MAX && FindInfo(d.table, FlagKind(permission)).Some?
            && var at := FindInfo(d.table, FlagKind(permission)).value;
               && at + 4 <= |mem| && at + 4 + 4 * U32(mem, at) <= |mem|
               && (FlagSetAt(mem, at, index) <==> Has(FlagWords(r, permission), index))
  {
    hide RequestBytes, Words, Decode, FlagSetAt, Has, MsgFlags, Records;
    LookupsFindWhatWasSet(r, beyond, FlagKind(permission), []);
    var mem, d := RequestBytes(r)[HEADER_LEN..] + beyond, ServerView(r, beyond);
    FlagsStand(mem, FindInfo(d.table, FlagKind(permission)).value, FlagWords(r, permission), index);
  }

  // ------------------------------------------------------------------------- end to end

  ghost predicate Sendable(r: Request, shell: bool) {
    && Fits(r) && Size(r) < MAX_MSG_TOTAL_LENGTH && Counted(r) < MAX_TLV_COUNT
    && (shell ==> r.msgType == MSG_DEVICE_DEBUG)
  }

  ghost function Messages(rs: seq<Request>, shell: bool): (ms: seq<Bytes>)
    requires forall i :: 0 <= i < |rs| ==> Sendable(rs[i], shell)
    ensures |ms| == |rs|
  {
    seq(|rs|, i requires 0 <= i < |rs| && Sendable(rs[i], shell) => RequestBytes(rs[i]))
  }

  /** End to end: whatever requests clients build, however their bytes are cut into receives, the
      server hands on those requests in that order and nothing else, waits with nothing, and
      keeps the connection open. */
  lemma RequestsArrive(rs: seq<Request>, chunks: seq<Bytes>, beyond: Bytes, shell: bool)
    requires forall i :: 0 <= i < |rs| ==> Sendable(rs[i], shell)
    requires |beyond| >= REACH && Chunking(chunks) && Concat(chunks) == Concat(Messages(rs, shell))
    ensures ReceiveAll([], chunks, beyond, shell) == Rx(Messages(rs, shell), [], true)
  {
    hide RequestBytes, ReceiveAll, Accepted, NeverMisread, Concat, Fits, Size, Counted;
    var ms := Messages(rs, shell);
    forall i | 0 <= i < |ms|
      ensures Good(ms[i], beyond, shell)
    {
      ServerAccepts(rs[i], beyond, shell);
    }
    if ms != [] {
      assert Good(ms[0], beyond, shell);
      RequestHead(rs[0]);
      RequestCounts(rs[0]);
    }
    assert [] + Concat(chunks) == Concat(chunks) == Concat(ms) + [];
    ChunkingDoesNotMatter([], chunks, ms, [], beyond, shell);
  }

  /** The same of a client's request object: its blocks, sent one after another and received in
      any pieces, arrive as one message whose lookups find what the setters were given. */
  lemma RequestArrives(node: ReqNode, chunks: seq<Bytes>, beyond: Bytes, kind: nat, name: Bytes)
    requires node.Valid() && Sendable(node.request, false)
    requires |beyond| >= REACH && Chunking(chunks) && Concat(chunks) == Concat(node.msgBlocks.parts)
    requires kind < TLV_MAX && IsText(name)
    ensures var r := node.request;
            var m := RequestBytes(r);
            && ReceiveAll([], chunks, beyond, false) == Rx([m], [], true)
            && Accepted(m, beyond, false)
            && var mem, d := m[HEADER_LEN..] + beyond, ServerView(r, beyond);
               && d.ok && |d.table| == TLV_MAX + Counted(r) && EntriesInside(mem, d.table, d.count)
               && InfoIs(mem, d.table, kind, SetInfo(r, kind))
               && ExtInfoIs(mem, d.table, d.count, name, FirstExt(r.added, name))
  {
    hide RequestBytes, ReceiveAll, Accepted, InfoIs, ExtInfoIs, EntriesInside, ServerView, Fits;
    var r := node.request;
    var ms := Messages([r], false);
    assert ms == [RequestBytes(r)] && Concat(ms) == RequestBytes(r) + Concat(ms[1..]);
    assert Concat(ms) == RequestBytes(r);
    RequestsArrive([r], chunks, beyond, false);
    ServerAccepts(r, beyond, false);
    LookupsFindWhatWasSet(r, beyond, kind, name);
  }
}
