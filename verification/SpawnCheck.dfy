/** CheckAppSpawnMsg: what a decoded message must hold before anything is spawned for it. */
module SpawnCheck {
  import opened Bytes
  import opened MsgDecode
  import opened MsgLayout
  import opened MsgNode
  import opened Wrappers

  const PROC_NAME_AT := 20
  /** The name in a bundle record, behind the index. */
  const BUNDLE_NAME_AT := 4
  const SLASH: byte := 47
  const BACKSLASH: byte := 92

  predicate Must(kind: nat) {
    kind in {TLV_BUNDLE_INFO, TLV_MSG_FLAGS, TLV_ACCESS_TOKEN_INFO, TLV_DOMAIN_INFO, TLV_DAC_INFO}
  }

  /** The string at an address holds a slash or a backslash. */
  predicate Slashed(mem: Bytes, at: nat) {
    at <= |mem| && (BACKSLASH in CString(mem[at..]) || SLASH in CString(mem[at..]))
  }

  predicate Spawnable(head: Bytes, mem: Bytes, table: seq<u32>)
    requires |head| >= HEADER_LEN && |table| >= TLV_MAX
  {
    && head[PROC_NAME_AT] != 0
    && (forall k :: 0 <= k < TLV_MAX && Must(k) ==> table[k] != INVALID_OFFSET)
    && !Slashed(mem, table[TLV_BUNDLE_INFO] + TLV_LEN + BUNDLE_NAME_AT)
  }

  lemma {:induction false} CStringIs(b: Bytes, n: nat)
    requires n <= |b| && IsText(b[..n]) && (n < |b| ==> b[n] == 0)
    ensures CString(b) == b[..n]
  {
    if 0 < n {
      assert b[0] == b[..n][0] && b[1..][..n - 1] == b[..n][1..];
      CStringIs(b[1..], n - 1);
    }
  }

  lemma {:induction false} CStringEnds(b: Bytes)
    requires 0 in b
    ensures |CString(b)| < |b|
  {
    if b[0] != 0 {
      CStringEnds(b[1..]);
    }
  }

  /** `strstr` for a single character, in the string at an address. */
  method StrStr(mem: Bytes, at: nat, c: byte) returns (found: bool)
    requires at <= |mem| && c != 0
    ensures found <==> c in CString(mem[at..])
  {
    var i := at;
    while i < |mem| && mem[i] != 0 && mem[i] != c
      invariant at <= i <= |mem| && forall j :: at <= j < i ==> mem[j] != 0 && mem[j] != c
    {
      i := i + 1;
    }
    found := i < |mem| && mem[i] == c;
    var b := mem[at..];
    assert forall j :: 0 <= j < i - at ==> b[j] == mem[at + j];
    if found {
      assert IsText(b[..i - at]);
      ReachesText(b, i - at);
    } else {
      CStringIs(b, i - at);
    }
  }

  lemma {:induction false} ReachesText(b: Bytes, n: nat)
    requires n < |b| && IsText(b[..n]) && b[n] != 0
    ensures b[n] in CString(b)
  {
    if 0 < n {
      assert b[0] == b[..n][0] && b[1..][..n - 1] == b[..n][1..];
      ReachesText(b[1..], n - 1);
    }
  }

  lemma {:induction false} LastStartInBody(mem: Bytes, bodyLen: nat, cuts: seq<nat>, n: nat, kind: nat)
    requires bodyLen + REACH <= |mem| && Tiles(mem, bodyLen, cuts) && n < |cuts|
    ensures LastStart(mem, cuts[..n], kind).Some? ==> LastStart(mem, cuts[..n], kind).value < bodyLen
  {
    if 0 < n {
      LastStartInBody(mem, bodyLen, cuts, n - 1, kind);
      assert Tile(mem, bodyLen, cuts[n - 1], cuts[n]);
      assert cuts[..n][..n - 1] == cuts[..n - 1];
    }
  }

  lemma StdEntryOf(table: seq<u32>, mem: Bytes, starts: seq<nat>, headerCount: nat, kind: nat)
    requires IsTableOf(table, mem, starts, headerCount) && kind < TLV_MAX
    ensures |table| >= TLV_MAX && table[kind] == StdEntry(mem, starts, kind)
  {
  }

  /** The records the table of a decoded message leads to start inside the body. */
  lemma EntryInBody(mem: Bytes, bodyLen: nat, headerCount: nat, kind: nat)
    requires bodyLen + REACH <= |mem| && bodyLen < INVALID_OFFSET && kind < TLV_MAX
    requires Decode(mem, bodyLen, headerCount).ok
    ensures |Decode(mem, bodyLen, headerCount).table| >= TLV_MAX
    ensures var at := Decode(mem, bodyLen, headerCount).table[kind]; at == INVALID_OFFSET || at < bodyLen
  {
    hide Decode, Tiles, LastStart, IsTableOf;
    var cuts := DecodedTiling(mem, bodyLen, headerCount);
    LastStartInBody(mem, bodyLen, cuts, |cuts| - 1, kind);
    StdEntryOf(Decode(mem, bodyLen, headerCount).table, mem, cuts[..|cuts| - 1], headerCount, kind);
  }

  /** CheckAppSpawnMsg */
  method CheckAppSpawnMsg(message: MsgNode, beyond: Bytes) returns (ret: int)
    requires message.Valid() && (message.tlvOffset != null ==> message.tlvOffset.Length >= TLV_MAX)
    requires message.tlvOffset != null && message.tlvOffset[TLV_BUNDLE_INFO] != INVALID_OFFSET ==>
               message.tlvOffset[TLV_BUNDLE_INFO] + TLV_LEN + BUNDLE_NAME_AT <= |message.Body()| + |beyond|
    ensures ret == 0 <==> message.tlvOffset != null && message.buffer != null
                          && Spawnable(message.Head(), message.Body() + beyond, message.tlvOffset[..])
    // a process name; a record of each of the types 0, 1, 2, 3 and 5; no slash and no backslash in the bundle name
    ensures ret == 0 <==>
              && message.tlvOffset != null && message.buffer != null && message.header[20] != 0
              && message.tlvOffset[0] != 0xFFFF_FFFF && message.tlvOffset[1] != 0xFFFF_FFFF
              && message.tlvOffset[2] != 0xFFFF_FFFF && message.tlvOffset[3] != 0xFFFF_FFFF
              && message.tlvOffset[5] != 0xFFFF_FFFF
              && var name := CString((message.Body() + beyond)[message.tlvOffset[0] + 8..]);
                 forall j :: 0 <= j < |name| ==> name[j] != 47 && name[j] != 92
  {
    hide CString;
    var table := message.tlvOffset;
    if message.header[PROC_NAME_AT] == 0 || table == null || message.buffer == null {
      return -1;
    }
    if table[TLV_BUNDLE_INFO] == INVALID_OFFSET || table[TLV_MSG_FLAGS] == INVALID_OFFSET
       || table[TLV_ACCESS_TOKEN_INFO] == INVALID_OFFSET || table[TLV_DOMAIN_INFO] == INVALID_OFFSET
       || table[TLV_DAC_INFO] == INVALID_OFFSET {
      return -1;
    }
    var bundleInfo := message.GetAppSpawnMsgInfo(TLV_BUNDLE_INFO);
    if bundleInfo.Some? {
      var mem := message.buffer[..] + beyond;
      var backslash := StrStr(mem, bundleInfo.value + BUNDLE_NAME_AT, BACKSLASH);
      var slash := StrStr(mem, bundleInfo.value + BUNDLE_NAME_AT, SLASH);
      if backslash || slash {
        return -1;
      }
    }
    ret := 0;
  }

  // ------------------------------------------------------------------------- said of the records

  /** The mandatory records are there: bundle, message flags, DAC, domain and access token. */
  predicate HasMandatory(ts: seq<Tlv>) {
    && LastStd(ts, 0).Some? && LastStd(ts, 1).Some? && LastStd(ts, 2).Some? && LastStd(ts, 3).Some?
    && LastStd(ts, 5).Some?
  }

  /** A bundle record holds its name with the terminator. */
  predicate Terminated(bundle: Option<Bytes>) {
    bundle.Some? ==> |bundle.value| > 4 && 0 in bundle.value[4..]
  }

  predicate PlainName(bundle: Option<Bytes>) {
    bundle.Some? && |bundle.value| >= 4 ==>
      var name := CString(bundle.value[4..]);
      forall j :: 0 <= j < |name| ==> name[j] != 47 && name[j] != 92
  }

  /** A terminated string is the same string wherever its bytes stand. */
  lemma SameString(mem: Bytes, at: nat, part: Bytes, from: nat)
    requires StandsAt(mem, at, part) && from <= |part| && 0 in part[from..]
    ensures at + from <= |mem| && CString(mem[at + from..]) == CString(part[from..])
  {
    var field, b := part[from..], mem[at + from..];
    CStringEnds(field);
    assert forall j :: 0 <= j < |field| ==> b[j] == mem[at..at + |part|][from + j] == field[j];
    assert b[..|CString(field)|] == CString(field);
    CStringIs(b, |CString(field)|);
  }

  /** Whether a decoded message can be spawned, told from its lookups. */
  lemma SpawnableByLookups(head: Bytes, mem: Bytes, table: seq<u32>, ts: seq<Tlv>)
    requires |head| >= HEADER_LEN && |table| >= TLV_MAX
    requires forall k :: 0 <= k < TLV_MAX ==> InfoIs(mem, table, k, LastStd(ts, k))
    requires Terminated(LastStd(ts, TLV_BUNDLE_INFO))
    ensures Spawnable(head, mem, table) <==>
            && head[20] != 0
            && LastStd(ts, 0).Some? && LastStd(ts, 1).Some? && LastStd(ts, 2).Some? && LastStd(ts, 3).Some?
            && LastStd(ts, 5).Some? && PlainName(LastStd(ts, 0))
  {
    hide LastStd, CString, InfoIs;
    var bundle := LastStd(ts, TLV_BUNDLE_INFO);
    forall k | 0 <= k < TLV_MAX
      ensures LastStd(ts, k).Some? <==> table[k] != INVALID_OFFSET
    {
      EntryTells(mem, table, k, LastStd(ts, k));
    }
    assert Must(0) && Must(1) && Must(2) && Must(3) && Must(5);
    assert forall k :: Must(k) ==> k == 0 || k == 1 || k == 2 || k == 3 || k == 5;
    if bundle.Some? {
      EntryTells(mem, table, 0, bundle);
      SameString(mem, table[TLV_BUNDLE_INFO] + TLV_LEN, bundle.value, BUNDLE_NAME_AT);
    }
  }

  lemma EntryTells(mem: Bytes, table: seq<u32>, kind: nat, payload: Option<Bytes>)
    requires |table| >= TLV_MAX && kind < TLV_MAX && InfoIs(mem, table, kind, payload)
    ensures payload.Some? <==> table[kind] != INVALID_OFFSET
    ensures payload.Some? ==> StandsAt(mem, table[kind] + TLV_LEN, payload.value)
  {
  }

  /** Each of the five types is missed: a message without a record of it is refused. */
  lemma RefusedWithout(head: Bytes, mem: Bytes, table: seq<u32>, kind: nat)
    requires |head| >= HEADER_LEN && |table| >= TLV_MAX && kind in {0, 1, 2, 3, 5} && InfoIs(mem, table, kind, None)
    ensures !Spawnable(head, mem, table)
  {
    assert Must(kind);
  }
}
