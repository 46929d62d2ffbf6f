/**
  The wire format byte by byte: where the fields of a request stand, in which order their bytes come,
  and which records and messages the server lets through, with all numbers written out.
*/
module WireFormat {
  import opened Bytes
  import opened ClientRequest
  import opened Framing
  import opened MsgDecode
  import opened MsgLayout
  import opened MsgNode
  import opened RoundTrip
  import opened Wrappers

  /** A number of some bytes, the lowest first. */
  function Number(m: Bytes, at: nat, width: nat): (n: nat)
    requires at + width <= |m|
    decreases width
  {
    if width == 0 then 0 else var low: int := m[at]; low + 256 * Number(m, at + 1, width - 1)
  }

  lemma Numbers(m: Bytes, at: nat)
    ensures at + 2 <= |m| ==> Number(m, at, 2) == U16(m, at)
    ensures at + 4 <= |m| ==> Number(m, at, 4) == U32(m, at)
  {
    if at + 2 <= |m| {
      assert Number(m, at + 2, 0) == 0;
      assert Number(m, at + 1, 1) == var b: int := m[at + 1]; b;
    }
    if at + 4 <= |m| {
      assert Number(m, at + 4, 0) == 0;
      assert Number(m, at + 3, 1) == var b: int := m[at + 3]; b;
      assert Number(m, at + 2, 2) == (var b: int := m[at + 2]; b) + 256 * Number(m, at + 3, 1);
      assert Number(m, at + 1, 3) == (var b: int := m[at + 1]; b) + 256 * Number(m, at + 2, 2);
    }
  }

  // ------------------------------------------------------------------------- a client's request

  /** The header: the magic, the type, the length, an id of 0, how many records are counted, and the process name
      with zeros to the end. */
  lemma HeaderOnTheWire(r: Request)
    requires Fits(r)
    ensures var m, n := RequestBytes(r), |r.processName|;
            && |m| >= 276 && m[0..4] == [0x34, 0x12, 0x20, 0xEF]
            && Number(m, 4, 4) == r.msgType && Number(m, 8, 4) == |m| && Number(m, 12, 4) == 0
            && Number(m, 16, 4) == ExtCount(r.added) + (if r.permissions.Some? then 2 else 1)
            && m[20..20 + n] == r.processName && (forall i :: 20 + n <= i < 276 ==> m[i] == 0)
  {
    hide BodyBytes, BodySize, Records, U32, Number;
    RequestHead(r);
    ProperRecords(r);
    var h := HeaderBytes(r.msgType, Size(r), 0, Counted(r), r.processName);
    HeaderFields(r.msgType, Size(r), 0, Counted(r), r.processName);
    var m := RequestBytes(r);
    assert m == h + BodyBytes(Records(r));
    HeaderStart(r.msgType, Size(r), Counted(r), r.processName, BodyBytes(Records(r)));
    Numbers(m, 4);
    Numbers(m, 8);
    Numbers(m, 12);
    Numbers(m, 16);
    U32Inside(m, 0, h, 12);
  }

  lemma HeaderStart(msgType: u32, msgLen: u32, tlvCount: u32, name: Bytes, body: Bytes)
    requires |name| < PROC_NAME_LEN
    ensures var m, n := HeaderBytes(msgType, msgLen, 0, tlvCount, name) + body, |name|;
            && m[0..4] == [0x34, 0x12, 0x20, 0xEF]
            && m[20..20 + n] == name && (forall i :: 20 + n <= i < 276 ==> m[i] == 0)
  {
    assert LE32(MAGIC) == [0x34, 0x12, 0x20, 0xEF];
  }

  /** A standard record: its length and its type in two bytes each, the payload, zeros up to a multiple of four. */
  ghost predicate StdStands(m: Bytes, at: nat, kind: nat, payload: Bytes) {
    var used := 4 + |payload|;
    var len := (used + 3) / 4 * 4;
    && at + len <= |m| && Number(m, at, 2) == len && Number(m, at + 2, 2) == kind < 10
    && m[at + 4..at + used] == payload && forall j :: at + used <= j < at + len ==> m[j] == 0
  }

  /** A named record: its length, type 10, the length of the data and a word that tells a string; 32 bytes for the name,
      filled with zeros; the data, a string with a terminator, and zeros up to a multiple of four. */
  ghost predicate ExtStands(m: Bytes, at: nat, name: Bytes, data: Bytes, dataType: nat) {
    var used := 40 + |data| + if dataType == 1 then 1 else 0;
    var len := (used + 3) / 4 * 4;
    && at + len <= |m| && Number(m, at, 2) == len && Number(m, at + 2, 2) == 10
    && Number(m, at + 4, 2) == |data| && Number(m, at + 6, 2) == dataType
    && |name| < 32 && m[at + 8..at + 8 + |name|] == name && (forall j :: at + 8 + |name| <= j < at + 40 ==> m[j] == 0)
    && m[at + 40..at + 40 + |data|] == data && forall j :: at + 40 + |data| <= j < at + len ==> m[j] == 0
  }

  /** The records stand behind the header one after another. */
  lemma RecordOnTheWire(r: Request, i: nat) returns (at: nat)
    requires Fits(r) && i < |Records(r)|
    ensures match Records(r)[i]
            case Std(kind, payload) => StdStands(RequestBytes(r), at, kind, payload)
            case Ext(name, data, dataType) => ExtStands(RequestBytes(r), at, name, data, dataType)
    ensures at == 276 + Offset(Records(r), i)
  {
    hide BodyBytes, BodySize, RequestBytes, TlvBytes, Offset, Records, StdStands, ExtStands;
    at := 276 + Offset(Records(r), i);
    RequestHead(r);
    var ts, m := Records(r), RequestBytes(r);
    RecordInBody(ts, i);
    StandsBehind(m, 276, BodyBytes(ts), Offset(ts, i), TlvBytes(ts[i]));
    assert Encodable(ts[i]);
    if ts[i].Std? {
      StdOnTheWire(ts[i], m, at);
    } else {
      ExtOnTheWire(ts[i], m, at);
    }
  }

  lemma StandsBehind(m: Bytes, n: nat, body: Bytes, at: nat, part: Bytes)
    requires n <= |m| && m[n..] == body && StandsAt(body, at, part)
    ensures StandsAt(m, n + at, part)
  {
    SliceOfSlice(m, n, body, at, at + |part|);
  }

  lemma StdOnTheWire(t: Tlv, m: Bytes, at: nat)
    requires Encodable(t) && t.Std? && StandsAt(m, at, TlvBytes(t))
    ensures StdStands(m, at, t.tlvType, t.payload)
  {
    var b := TlvBytes(t);
    StdHead(t);
    hide TlvBytes, Number, U16;
    NumberStands(m, at, b, 0);
    NumberStands(m, at, b, 2);
    PayloadStands(m, at, b, 4, t.payload);
  }

  /** Padded bytes at the end of a part. */
  lemma PayloadStands(m: Bytes, at: nat, part: Bytes, from: nat, data: Bytes)
    requires StandsAt(m, at, part) && from <= |part| && part[from..] == Padded(data)
    ensures at + from + |data| <= at + |part| <= |m| && m[at + from..at + from + |data|] == data
    ensures forall j :: at + from + |data| <= j < at + |part| ==> m[j] == 0
  {
    var p := Padded(data);
    assert p[..|data|] == data;
    forall j | at + from <= j < at + |part|
      ensures m[j] == p[j - at - from]
    {
      assert m[at..at + |part|][j - at] == part[j - at] == part[from..][j - at - from];
    }
    assert forall k :: 0 <= k < |data| ==> m[at + from..at + from + |data|][k] == m[at + from + k] == p[k] == data[k];
  }

  lemma ExtOnTheWire(t: Tlv, m: Bytes, at: nat)
    requires Encodable(t) && t.Ext? && StandsAt(m, at, TlvBytes(t))
    ensures ExtStands(m, at, t.name, t.data, t.dataType)
  {
    hide CString;
    var b, payload := TlvBytes(t), ExtPayload(t);
    ExtHead(t);
    hide TlvBytes, Number, U16, Padded, Zeros;
    NumberStands(m, at, b, 0);
    NumberStands(m, at, b, 2);
    NumberStands(m, at, b, 4);
    NumberStands(m, at, b, 6);
    NameStands(m, at, b, t.name);
    PayloadStands(m, at, b, 40, payload);
    TerminatedData(m, at + 40, t.data, payload);
  }

  lemma NumberStands(m: Bytes, at: nat, part: Bytes, from: nat)
    requires StandsAt(m, at, part) && from + 2 <= |part|
    ensures at + from + 2 <= |m| && Number(m, at + from, 2) == U16(part, from)
  {
    hide Number, U16;
    Numbers(m, at + from);
    U16Inside(m, at, part, from);
  }

  lemma NameStands(m: Bytes, at: nat, part: Bytes, name: Bytes)
    requires StandsAt(m, at, part) && 40 <= |part| && |name| < 32 && part[8..40] == name + Zeros(32 - |name|)
    ensures m[at + 8..at + 8 + |name|] == name && forall j :: at + 8 + |name| <= j < at + 40 ==> m[j] == 0
  {
    var field := part[8..40];
    forall j | at + 8 <= j < at + 40
      ensures m[j] == field[j - at - 8]
    {
      assert m[at..at + |part|][j - at] == part[j - at];
    }
  }

  lemma TerminatedData(m: Bytes, at: nat, data: Bytes, payload: Bytes)
    requires StandsAt(m, at, payload) && (payload == data || payload == data + [0])
    ensures m[at..at + |data|] == data
    ensures forall j :: at + |data| <= j < at + |payload| ==> m[j] == 0
  {
    forall j | at <= j < at + |payload|
      ensures m[j] == payload[j - at]
    {
      assert m[at..at + |payload|][j - at] == payload[j - at];
    }
  }

  /** The first record holds the message flags; of a request that carries permissions the second holds these. Either is a
      count and then the words. */
  lemma FlagsOnTheWire(r: Request, permission: bool)
    requires Fits(r) && (permission ==> r.permissions.Some?)
    ensures var ts, i := Records(r), if permission then 1 else 0;
            var words := if permission then r.permissions.value else r.flags;
            && i < |ts| && ts[i].Std? && ts[i].tlvType == (if permission then 6 else 1)
            && |ts[i].payload| == 4 + 4 * |words| && Number(ts[i].payload, 0, 4) == |words|
            && forall j :: 0 <= j < |words| ==> Number(ts[i].payload, 4 + 4 * j, 4) == words[j]
  {
    hide Words, Number, U32, LE32, BodySize;
    var words := if permission then r.permissions.value else r.flags;
    var p := Words(MsgFlags(words));
    forall k | 0 <= k <= |words|
      ensures Number(p, 4 * k, 4) == MsgFlags(words)[k]
    {
      WordsAt(MsgFlags(words), k);
      U32OfLE32(p, 4 * k, MsgFlags(words)[k]);
      Numbers(p, 4 * k);
    }
    assert Number(p, 4 * 0, 4) == MsgFlags(words)[0];
    forall j | 0 <= j < |words|
      ensures Number(p, 4 + 4 * j, 4) == words[j]
    {
      assert Number(p, 4 * (j + 1), 4) == MsgFlags(words)[j + 1];
      assert MsgFlags(words)[j + 1] == words[j];
    }
  }

  // ------------------------------------------------------------------------- which record a lookup is about

  /** No record of the type, or the payload of one that has none of its type behind it. */
  lemma {:induction false} LastStdIs(ts: seq<Tlv>, kind: nat)
    ensures match LastStd(ts, kind)
            case None => forall i :: 0 <= i < |ts| && ts[i].Std? ==> ts[i].tlvType != kind
            case Some(payload) =>
              exists i :: 0 <= i < |ts| && ts[i] == Std(kind, payload)
                          && forall j :: i < j < |ts| && ts[j].Std? ==> ts[j].tlvType != kind
    decreases |ts|
  {
    if ts != [] {
      var n := |ts| - 1;
      LastStdIs(ts[..n], kind);
      assert LastStd(ts, kind) ==
             if ts[n].Std? && ts[n].tlvType == kind then Some(ts[n].payload) else LastStd(ts[..n], kind);
      hide LastStd;
      if ts[n].Std? && ts[n].tlvType == kind {
        assert ts[n] == Std(kind, ts[n].payload);
      } else if LastStd(ts[..n], kind).Some? {
        var i :| 0 <= i < n && ts[..n][i] == Std(kind, LastStd(ts[..n], kind).value)
                 && forall j :: i < j < n && ts[..n][j].Std? ==> ts[..n][j].tlvType != kind;
        assert ts[i] == Std(kind, LastStd(ts, kind).value) && forall j :: i < j < n ==> ts[j] == ts[..n][j];
      } else {
        assert forall i :: 0 <= i < n ==> ts[i] == ts[..n][i];
      }
    }
  }

  /** No record of the name, or the one that has none of its name before it. */
  lemma {:induction false} FirstExtIs(ts: seq<Tlv>, name: Bytes)
    ensures match FirstExt(ts, name)
            case None => forall i :: 0 <= i < |ts| && ts[i].Ext? ==> ts[i].name != name
            case Some(t) =>
              exists i :: 0 <= i < |ts| && ts[i] == t && t.Ext? && t.name == name
                          && forall j :: 0 <= j < i && ts[j].Ext? ==> ts[j].name != name
    decreases |ts|
  {
    if ts != [] {
      var n := |ts| - 1;
      FirstExtIs(ts[..n], name);
      assert forall i :: 0 <= i < n ==> ts[i] == ts[..n][i];
      if FirstExt(ts[..n], name).Some? {
        var t := FirstExt(ts[..n], name).value;
        var i :| 0 <= i < n && ts[..n][i] == t && forall j :: 0 <= j < i && ts[..n][j].Ext? ==> ts[..n][j].name != name;
        assert ts[i] == t;
      }
    }
  }

  // ------------------------------------------------------------------------- what the server lets through

  /** Which records the decoder accepts, of whatever is behind the length it announces. Lengths are compared without a
      sign: a record that is shorter than its head passes for a long one. */
  lemma AcceptedRecords(mem: Bytes, at: nat)
    requires at + 8 <= |mem|
    ensures var len, kind := Number(mem, at, 2), Number(mem, at + 2, 2);
            Acceptable(mem, at) <==>
              && (kind == 0 ==> 4 <= len <= 264)
              && (kind == 1 ==> 4 * Number(mem, at + 4, 4) % 0x1_0000_0000 <= len)
              && (kind == 2 ==> 332 <= len)
              && (kind == 3 ==> 4 <= len <= 40)
              && (kind == 4 ==> 4 <= len <= 68)
              && (kind == 5 ==> 8 <= len)
              && (kind == 10 ==> len < 40 || Number(mem, at + 4, 2) <= len - 40)
  {
    hide Number, U16, U32;
    Numbers(mem, at);
    Numbers(mem, at + 2);
    Numbers(mem, at + 4);
  }

  /** Which headers are checked as good. */
  lemma CheckedHeaders(h: Bytes)
    requires |h| >= 276
    ensures CheckRecvMsg(h) <==>
            && h[0..4] == [0x34, 0x12, 0x20, 0xEF] && 276 <= Number(h, 8, 4) < 65536
            && Number(h, 16, 4) < 128 && Number(h, 16, 4) < Number(h, 8, 4) / 4
  {
    hide Number;
    Numbers(h, 8);
    Numbers(h, 16);
    assert h[0] == h[0..4][0] && h[1] == h[0..4][1] && h[2] == h[0..4][2] && h[3] == h[0..4][3];
    assert h[0..4] == [h[0], h[1], h[2], h[3]];
  }

  /** A message as it is handed on: the magic, a length that is its own, few enough records, a body that decodes, and
      from a peer running as the shell user only the type for device debugging. */
  ghost predicate WellFormed(m: Bytes, beyond: Bytes, shell: bool)
    requires |beyond| >= REACH
  {
    && 276 <= |m| < 65536 && m[0..4] == [0x34, 0x12, 0x20, 0xEF] && Number(m, 8, 4) == |m|
    && Number(m, 16, 4) < 128 && Number(m, 16, 4) < |m| / 4 && (shell ==> Number(m, 4, 4) == 8)
    && (276 < |m| ==> BodyDecodes(m, beyond))
  }

  lemma CompleteIsWellFormed(pending: Bytes, chunk: Bytes, beyond: Bytes, shell: bool)
    requires PendingOk(pending) && |beyond| >= REACH && OneTurn(pending, chunk, beyond, shell).Complete?
    ensures WellFormed(OneTurn(pending, chunk, beyond, shell).message, beyond, shell)
  {
    hide Number, U32, BodyDecodes;
    var all, m := pending + chunk, OneTurn(pending, chunk, beyond, shell).message;
    var h := PartialHeader(all);
    assert |pending| >= HEADER_LEN ==> h == PartialHeader(pending);
    SameHeader(all, m);
    CheckedHeaders(m);
    Numbers(m, 4);
    Numbers(m, 8);
  }

  lemma SameHeader(all: Bytes, m: Bytes)
    requires |all| >= HEADER_LEN && |m| >= HEADER_LEN
    ensures m[..HEADER_LEN] == PartialHeader(all) ==>
              && MsgLen(m) == MsgLen(PartialHeader(all)) && MsgType(m) == MsgType(PartialHeader(all))
              && CheckRecvMsg(m) == CheckRecvMsg(PartialHeader(all))
  {
    if m[..HEADER_LEN] == PartialHeader(all) {
      assert forall j :: 0 <= j < HEADER_LEN ==> m[j] == m[..HEADER_LEN][j];
    }
  }

  lemma {:induction false} DeliveredAreWellFormed(pending: Bytes, chunk: Bytes, beyond: Bytes, shell: bool)
    requires PendingOk(pending) && |beyond| >= REACH
    ensures forall m :: m in Deliver(pending, chunk, beyond, shell).dispatched ==> WellFormed(m, beyond, shell)
    decreases |chunk|
  {
    hide OneTurn, WellFormed;
    if OneTurn(pending, chunk, beyond, shell).Complete? {
      CompleteIsWellFormed(pending, chunk, beyond, shell);
      var rest := OneTurn(pending, chunk, beyond, shell).rest;
      if rest != [] {
        DeliveredAreWellFormed([], rest, beyond, shell);
      }
    }
  }

  /** Whatever bytes come in, in whatever pieces: only well-formed messages are handed on. */
  lemma {:induction false} OnlyWellFormedMessages(pending: Bytes, chunks: seq<Bytes>, beyond: Bytes, shell: bool)
    requires PendingOk(pending) && |beyond| >= REACH
    ensures forall m :: m in ReceiveAll(pending, chunks, beyond, shell).dispatched ==> WellFormed(m, beyond, shell)
    decreases |chunks|
  {
    hide Deliver, WellFormed;
    if chunks != [] {
      DeliveredAreWellFormed(pending, chunks[0], beyond, shell);
      var first := OnReceive(pending, chunks[0], beyond, shell);
      if first.open {
        OnlyWellFormedMessages(first.pending, chunks[1..], beyond, shell);
      }
    }
  }
}
