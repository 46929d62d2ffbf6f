/**
  The server's decoder and the lookups over its offset table.

  A length in a message may send the decoder past the end of its buffer before the length is
  checked. Such reads are modelled: `beyond` is whatever lies behind the buffer, and no result
  below depends on it being anything in particular.
  */
module MsgDecode {
  import opened Bytes
  import opened MsgLayout
  import opened Wrappers

  /** How far behind the buffer a record head can reach. */
  const REACH := 44

  const SIZE_MAX := 0x1_0000_0000_0000_0000

  /** `a - b` on size_t. */
  function SubSize(a: nat, b: nat): int {
    if a >= b then a - b else a - b + SIZE_MAX
  }

  /** CheckMsgTlv and CheckExtTlvInfo, with their unsigned subtractions and the truncation of
      `count * sizeof(uint32_t)` to 32 bits. */
  predicate Acceptable(mem: Bytes, at: nat)
    requires at + 8 <= |mem|
  {
    var len := LenAt(mem, at);
    match TypeAt(mem, at)
    case 0 => SubSize(len, TLV_LEN) <= 4 + BUNDLE_NAME_LEN
    case 1 => U32(mem, at + TLV_LEN) * 4 % 0x1_0000_0000 <= len
    case 2 => DAC_INFO_LEN <= len
    case 3 => SubSize(len, TLV_LEN) <= APL_LEN + 4
    case 4 => SubSize(len, TLV_LEN) <= OWNER_ID_LEN
    case 5 => 8 <= len
    case 10 => DataLenAt(mem, at) <= SubSize(len, EXT_LEN)
    case _ => true
  }

  /** The outcome of decoding: the table is written as the records pass, the extended count is
      stored only on success. */
  datatype Decoded = Decoded(ok: bool, table: seq<u32>, count: nat)

  function DecodeFrom(mem: Bytes, bodyLen: nat, headerCount: nat, at: nat, table: seq<u32>, count: nat): Decoded
    requires bodyLen + REACH <= |mem| && bodyLen < INVALID_OFFSET
    requires |table| == TLV_MAX + headerCount && count <= headerCount
    decreases bodyLen - at
  {
    if at >= bodyLen then Decoded(true, table, count)
    else
      var len, kind := LenAt(mem, at), TypeAt(mem, at);
      if len == 0 || len > bodyLen - at || !Acceptable(mem, at) then Decoded(false, table, count)
      else if kind < TLV_MAX then
        DecodeFrom(mem, bodyLen, headerCount, at + len, table[kind := at], count)
      else if count < headerCount then
        DecodeFrom(mem, bodyLen, headerCount, at + len, table[TLV_MAX + count := at], count + 1)
      else Decoded(false, table, count)
  }

  function EmptyTable(headerCount: nat): (t: seq<u32>)
    ensures |t| == TLV_MAX + headerCount
  {
    seq(TLV_MAX + headerCount, _ => INVALID_OFFSET)
  }

  function Decode(mem: Bytes, bodyLen: nat, headerCount: nat): Decoded
    requires bodyLen + REACH <= |mem| && bodyLen < INVALID_OFFSET
  {
    DecodeFrom(mem, bodyLen, headerCount, 0, EmptyTable(headerCount), 0)
  }

  // ----------------------------------------------------------------- what decoding means

  /** Accepted records tile the body: `cuts` are their boundaries from 0 to the body length. */
  ghost predicate Tiles(mem: Bytes, bodyLen: nat, cuts: seq<nat>)
    requires bodyLen + REACH <= |mem|
  {
    && |cuts| > 0 && cuts[0] == 0 && cuts[|cuts| - 1] == bodyLen
    && (forall i :: 0 <= i < |cuts| - 1 ==> Tile(mem, bodyLen, cuts[i], cuts[i + 1]))
  }

  predicate Tile(mem: Bytes, bodyLen: nat, from: nat, to: nat)
    requires bodyLen + REACH <= |mem|
  {
    from < to <= bodyLen && to == from + LenAt(mem, from) && Acceptable(mem, from)
  }

  predicate IsExt(mem: Bytes, at: nat) {
    at + TLV_LEN <= |mem| && TypeAt(mem, at) >= TLV_MAX
  }

  /** The starts of extended records, in order. */
  function ExtStarts(mem: Bytes, starts: seq<nat>): (r: seq<nat>)
    ensures |r| <= |starts|
    ensures forall s :: s in r ==> s in starts
  {
    if starts == [] then []
    else
      var n := |starts| - 1;
      ExtStarts(mem, starts[..n]) + if IsExt(mem, starts[n]) then [starts[n]] else []
  }

  /** The start of the last record of a standard type. */
  function LastStart(mem: Bytes, starts: seq<nat>, kind: nat): Option<nat> {
    if starts == [] then None
    else
      var n := |starts| - 1;
      if starts[n] + TLV_LEN <= |mem| && TypeAt(mem, starts[n]) == kind then Some(starts[n])
      else LastStart(mem, starts[..n], kind)
  }

  ghost predicate StartsFit(starts: seq<nat>) {
    forall i :: 0 <= i < |starts| ==> starts[i] < INVALID_OFFSET
  }

  function StdEntry(mem: Bytes, starts: seq<nat>, kind: nat): int {
    match LastStart(mem, starts, kind) case Some(s) => s case None => INVALID_OFFSET
  }

  function ExtEntry(mem: Bytes, starts: seq<nat>, k: nat): int {
    if k < |ExtStarts(mem, starts)| then ExtStarts(mem, starts)[k] else INVALID_OFFSET
  }

  /** The offset table a tiling calls for: each standard type at its last record, the extended
      records in order, everything else invalid. */
  ghost predicate IsTableOf(table: seq<u32>, mem: Bytes, starts: seq<nat>, headerCount: nat) {
    && |table| == TLV_MAX + headerCount
    && (forall j :: 0 <= j < TLV_MAX ==> table[j] == StdEntry(mem, starts, j))
    && (forall j :: TLV_MAX <= j < |table| ==> table[j] == ExtEntry(mem, starts, j - TLV_MAX))
  }

  /** The table entry a record is stored in, given the extended records before it. */
  function Slot(mem: Bytes, starts: seq<nat>, at: nat): nat
    requires at + TLV_LEN <= |mem|
  {
    if TypeAt(mem, at) < TLV_MAX then TypeAt(mem, at) else TLV_MAX + |ExtStarts(mem, starts)|
  }

  lemma EntriesStep(mem: Bytes, starts: seq<nat>, at: nat)
    requires at + TLV_LEN <= |mem|
    ensures forall j :: 0 <= j < TLV_MAX ==>
              StdEntry(mem, starts + [at], j) == if j == Slot(mem, starts, at) then at else StdEntry(mem, starts, j)
    ensures ExtStarts(mem, starts + [at]) ==
            ExtStarts(mem, starts) + if TypeAt(mem, at) >= TLV_MAX then [at] else []
  {
    assert (starts + [at])[..|starts|] == starts;
  }

  lemma TableStep(table: seq<u32>, mem: Bytes, starts: seq<nat>, headerCount: nat, at: nat)
    requires IsTableOf(table, mem, starts, headerCount)
    requires at + TLV_LEN <= |mem| && at < INVALID_OFFSET && Slot(mem, starts, at) < |table|
    ensures IsTableOf(table[Slot(mem, starts, at) := at], mem, starts + [at], headerCount)
  {
    EntriesStep(mem, starts, at);
  }

  lemma ExtStartsGrow(mem: Bytes, starts: seq<nat>, i: nat)
    requires i <= |starts|
    ensures |ExtStarts(mem, starts[..i])| <= |ExtStarts(mem, starts)|
    decreases |starts| - i
  {
    if i < |starts| {
      assert starts[..i + 1][..i] == starts[..i];
      ExtStartsGrow(mem, starts, i + 1);
    } else {
      assert starts[..i] == starts;
    }
  }

  /** One turn of the decoding loop over an accepted record. */
  lemma DecodeTile(mem: Bytes, bodyLen: nat, headerCount: nat, starts: seq<nat>, at: nat, to: nat, table: seq<u32>)
    requires bodyLen + REACH <= |mem| && bodyLen < INVALID_OFFSET && Tile(mem, bodyLen, at, to)
    requires |table| == TLV_MAX + headerCount
    requires |ExtStarts(mem, starts)| <= headerCount && |ExtStarts(mem, starts + [at])| <= headerCount
    ensures Slot(mem, starts, at) < |table|
    ensures DecodeFrom(mem, bodyLen, headerCount, at, table, |ExtStarts(mem, starts)|) ==
            DecodeFrom(mem, bodyLen, headerCount, to, table[Slot(mem, starts, at) := at], |ExtStarts(mem, starts + [at])|)
  {
    EntriesStep(mem, starts, at);
  }

  /** A tiling with few enough extended records decodes, and to the table it calls for. */
  lemma {:induction false} TilingDecodes(mem: Bytes, bodyLen: nat, headerCount: nat, cuts: seq<nat>, i: nat,
                                         table: seq<u32>)
    requires bodyLen + REACH <= |mem| && bodyLen < INVALID_OFFSET && Tiles(mem, bodyLen, cuts) && i < |cuts|
    requires |ExtStarts(mem, cuts[..|cuts| - 1])| <= headerCount
    requires IsTableOf(table, mem, cuts[..i], headerCount)
    requires |ExtStarts(mem, cuts[..i])| <= headerCount
    ensures var r := DecodeFrom(mem, bodyLen, headerCount, cuts[i], table, |ExtStarts(mem, cuts[..i])|);
            r.ok && IsTableOf(r.table, mem, cuts[..|cuts| - 1], headerCount)
            && r.count == |ExtStarts(mem, cuts[..|cuts| - 1])|
    decreases |cuts| - i
  {
    var last := |cuts| - 1;
    if i < last {
      assert Tile(mem, bodyLen, cuts[i], cuts[i + 1]);
      assert cuts[..i + 1] == cuts[..i] + [cuts[i]];
      assert cuts[..last][..i + 1] == cuts[..i + 1];
      ExtStartsGrow(mem, cuts[..last], i + 1);
      DecodeTile(mem, bodyLen, headerCount, cuts[..i], cuts[i], cuts[i + 1], table);
      TableStep(table, mem, cuts[..i], headerCount, cuts[i]);
      TilingDecodes(mem, bodyLen, headerCount, cuts, i + 1, table[Slot(mem, cuts[..i], cuts[i]) := cuts[i]]);
    }
  }

  /** Decoding succeeds only over a tiling, and this is it from `at` on. */
  lemma {:induction false} DecodedTiles(mem: Bytes, bodyLen: nat, headerCount: nat, at: nat, table: seq<u32>,
                                        count: nat) returns (cuts: seq<nat>)
    requires bodyLen + REACH <= |mem| && bodyLen < INVALID_OFFSET && at <= bodyLen
    requires |table| == TLV_MAX + headerCount && count <= headerCount
    requires DecodeFrom(mem, bodyLen, headerCount, at, table, count).ok
    ensures |cuts| > 0 && cuts[0] == at && cuts[|cuts| - 1] == bodyLen
    ensures forall i :: 0 <= i < |cuts| - 1 ==> Tile(mem, bodyLen, cuts[i], cuts[i + 1])
    ensures count + |ExtStarts(mem, cuts[..|cuts| - 1])| <= headerCount
    decreases bodyLen - at
  {
    hide Acceptable, U16;
    if at == bodyLen {
      cuts := [at];
    } else {
      var len, kind := LenAt(mem, at), TypeAt(mem, at);
      var rest;
      if kind < TLV_MAX {
        rest := DecodedTiles(mem, bodyLen, headerCount, at + len, table[kind := at], count);
      } else {
        rest := DecodedTiles(mem, bodyLen, headerCount, at + len, table[TLV_MAX + count := at], count + 1);
      }
      cuts := [at] + rest;
      assert cuts[..|cuts| - 1] == [at] + rest[..|rest| - 1];
      ExtStartsCons(mem, at, rest[..|rest| - 1]);
    }
  }

  lemma {:induction false} ExtStartsCons(mem: Bytes, at: nat, starts: seq<nat>)
    ensures ExtStarts(mem, [at] + starts) == (if IsExt(mem, at) then [at] else []) + ExtStarts(mem, starts)
    decreases |starts|
  {
    var n := |starts| - 1;
    if starts == [] {
      assert [at] + starts == [at] && [at][..0] == [];
    } else {
      ExtStartsCons(mem, at, starts[..n]);
      assert ([at] + starts)[..n + 1] == [at] + starts[..n];
    }
  }

  /** The decoder exactly, for any bytes: it succeeds if and only if accepted records tile the
      body with no more extended ones than the header counts, and then the table holds the
      boundaries of that tiling. */
  lemma DecodeIsTiling(mem: Bytes, bodyLen: nat, headerCount: nat)
    requires bodyLen + REACH <= |mem| && bodyLen < INVALID_OFFSET
    ensures Decode(mem, bodyLen, headerCount).ok <==>
            exists cuts :: Tiles(mem, bodyLen, cuts) && |ExtStarts(mem, cuts[..|cuts| - 1])| <= headerCount
    ensures forall cuts :: Tiles(mem, bodyLen, cuts) && |ExtStarts(mem, cuts[..|cuts| - 1])| <= headerCount ==>
              var r := Decode(mem, bodyLen, headerCount);
              IsTableOf(r.table, mem, cuts[..|cuts| - 1], headerCount)
              && r.count == |ExtStarts(mem, cuts[..|cuts| - 1])|
  {
    forall cuts | Tiles(mem, bodyLen, cuts) && |ExtStarts(mem, cuts[..|cuts| - 1])| <= headerCount
      ensures var r := Decode(mem, bodyLen, headerCount);
              r.ok && IsTableOf(r.table, mem, cuts[..|cuts| - 1], headerCount)
              && r.count == |ExtStarts(mem, cuts[..|cuts| - 1])|
    {
      assert cuts[..0] == [];
      TilingDecodes(mem, bodyLen, headerCount, cuts, 0, EmptyTable(headerCount));
    }
    if Decode(mem, bodyLen, headerCount).ok {
      var cuts := DecodedTiles(mem, bodyLen, headerCount, 0, EmptyTable(headerCount), 0);
      assert Tiles(mem, bodyLen, cuts);
    }
  }

  /** The tiling of a body that was decoded. */
  lemma DecodedTiling(mem: Bytes, bodyLen: nat, headerCount: nat) returns (cuts: seq<nat>)
    requires bodyLen + REACH <= |mem| && bodyLen < INVALID_OFFSET && Decode(mem, bodyLen, headerCount).ok
    ensures |cuts| > 0 && Tiles(mem, bodyLen, cuts)
    ensures IsTableOf(Decode(mem, bodyLen, headerCount).table, mem, cuts[..|cuts| - 1], headerCount)
  {
    cuts := DecodedTiles(mem, bodyLen, headerCount, 0, EmptyTable(headerCount), 0);
    hide DecodeFrom, Tile, ExtStarts, StdEntry, ExtEntry;
    assert Tiles(mem, bodyLen, cuts) && cuts[..0] == [];
    assert ExtStarts(mem, []) == [] by { NoExts(mem); }
    hide Tiles;
    EmptyIsTable(mem, headerCount);
    hide IsTableOf;
    TilingDecodes(mem, bodyLen, headerCount, cuts, 0, EmptyTable(headerCount));
  }

  lemma NoExts(mem: Bytes)
    ensures ExtStarts(mem, []) == []
  {
  }

  lemma EmptyIsTable(mem: Bytes, headerCount: nat)
    ensures IsTableOf(EmptyTable(headerCount), mem, [], headerCount)
  {
  }

  ghost predicate Increasing(s: seq<nat>, below: nat) {
    && (forall i, j :: 0 <= i < j < |s| ==> s[i] < s[j])
    && (forall i :: 0 <= i < |s| ==> s[i] < below)
  }

  /** The extended entries are strictly increasing offsets inside the body. */
  lemma {:induction false} ExtOffsetsIncrease(mem: Bytes, bodyLen: nat, cuts: seq<nat>, n: nat)
    requires bodyLen + REACH <= |mem| && Tiles(mem, bodyLen, cuts) && n < |cuts|
    ensures cuts[n] <= bodyLen && Increasing(ExtStarts(mem, cuts[..n]), cuts[n])
    decreases n
  {
    if n > 0 {
      ExtOffsetsIncrease(mem, bodyLen, cuts, n - 1);
      assert Tile(mem, bodyLen, cuts[n - 1], cuts[n]);
      assert cuts[..n] == cuts[..n - 1] + [cuts[n - 1]];
      EntriesStep(mem, cuts[..n - 1], cuts[n - 1]);
    }
  }

  // ----------------------------------------------------------------- records of a message

  /** The records of a body are `ts`, standing at `cuts`. */
  ghost predicate Laid(mem: Bytes, bodyLen: nat, ts: seq<Tlv>, cuts: seq<nat>)
    requires bodyLen + REACH <= |mem|
  {
    && |cuts| == |ts| + 1
    && Tiles(mem, bodyLen, cuts)
    && (forall i :: 0 <= i < |ts| ==> RecordAt(mem, cuts[i]) && ReadTlv(mem, cuts[i]) == ts[i])
  }

  /** As far as the data an extended record can announce reaches. */
  const FAR_REACH := EXT_LEN + 0x1_0000

  /** A record as long as its head, of a type that exists. */
  predicate Ordinary(mem: Bytes, at: nat) {
    at + TLV_LEN <= |mem| && LenAt(mem, at) >= TLV_LEN && TypeAt(mem, at) <= TLV_MAX
  }

  /** Exactly which accepted records a reader of records cannot make out: those shorter than their own head,
      and those of a type that does not exist. The decoder refuses neither. */
  lemma ReadableIff(mem: Bytes, bodyLen: nat, from: nat, to: nat)
    requires bodyLen + FAR_REACH <= |mem| && Tile(mem, bodyLen, from, to)
    ensures RecordAt(mem, from) <==> Ordinary(mem, from)
  {
    hide Acceptable, U16;
  }

  /** So an accepted message can be read record by record exactly when it has no such one. */
  lemma MessageReadableIff(mem: Bytes, bodyLen: nat, cuts: seq<nat>)
    requires bodyLen + FAR_REACH <= |mem| && Tiles(mem, bodyLen, cuts)
    ensures (exists ts :: Laid(mem, bodyLen, ts, cuts)) <==>
            forall i :: 0 <= i < |cuts| - 1 ==> Ordinary(mem, cuts[i])
  {
    hide Acceptable, Ordinary, RecordAt, ReadTlv;
    forall i | 0 <= i < |cuts| - 1
      ensures RecordAt(mem, cuts[i]) <==> Ordinary(mem, cuts[i])
    {
      assert Tile(mem, bodyLen, cuts[i], cuts[i + 1]);
      ReadableIff(mem, bodyLen, cuts[i], cuts[i + 1]);
    }
    if forall i :: 0 <= i < |cuts| - 1 ==> RecordAt(mem, cuts[i]) {
      var ts := seq(|cuts| - 1, i requires 0 <= i < |cuts| - 1 && RecordAt(mem, cuts[i]) => ReadTlv(mem, cuts[i]));
      assert Laid(mem, bodyLen, ts, cuts);
    }
  }

  /** Such records: one of type 11, and one of two bytes. */
  lemma UnreadableAccepted(after: Bytes)
    requires |after| >= REACH
    ensures Decode([4, 0, 11, 0] + after, 4, 1).ok && !RecordAt([4, 0, 11, 0] + after, 0)
    ensures Decode([2, 0] + ([7, 0] + after), 2, 0).ok && !RecordAt([2, 0] + ([7, 0] + after), 0)
  {
    var mem := [4, 0, 11, 0] + after;
    assert mem[0] == 4 && mem[1] == 0 && mem[2] == 11 && mem[3] == 0;
    assert LenAt(mem, 0) == 4 && TypeAt(mem, 0) == 11;
    mem := [2, 0] + ([7, 0] + after);
    assert mem[0] == 2 && mem[1] == 0 && mem[2] == 7 && mem[3] == 0;
    assert LenAt(mem, 0) == 2 && TypeAt(mem, 0) == 7;
  }

  /** The boundaries of records written one after another. */
  ghost function Cuts(ts: seq<Tlv>): (cuts: seq<nat>)
    ensures |cuts| == |ts| + 1
  {
    seq(|ts| + 1, i requires 0 <= i <= |ts| => Offset(ts, i))
  }

  function ExtCount(ts: seq<Tlv>): nat {
    if ts == [] then 0 else ExtCount(ts[..|ts| - 1]) + if ts[|ts| - 1].Ext? then 1 else 0
  }

  /** The payload of the last record of a standard type. */
  function LastStd(ts: seq<Tlv>, kind: nat): Option<Bytes> {
    if ts == [] then None
    else
      var n := |ts| - 1;
      if ts[n].Std? && ts[n].tlvType == kind then Some(ts[n].payload) else LastStd(ts[..n], kind)
  }

  /** The first extended record of a name. */
  function FirstExt(ts: seq<Tlv>, name: Bytes): (r: Option<Tlv>)
    ensures r.Some? ==> r.value.Ext? && r.value.name == name
  {
    if ts == [] then None
    else
      var n := |ts| - 1;
      match FirstExt(ts[..n], name)
      case Some(t) => Some(t)
      case None => if ts[n].Ext? && ts[n].name == name then Some(ts[n]) else None
  }

  lemma {:induction false} LaidStarts(mem: Bytes, bodyLen: nat, ts: seq<Tlv>, cuts: seq<nat>, n: nat)
    requires bodyLen + REACH <= |mem| && Laid(mem, bodyLen, ts, cuts) && n <= |ts|
    ensures |ExtStarts(mem, cuts[..n])| == ExtCount(ts[..n])
    decreases n
  {
    hide Laid, TypeAt, RecordAt, ReadTlv, IsExt;
    BoundaryCount(mem, bodyLen, ts, cuts);
    if n > 0 {
      LaidStarts(mem, bodyLen, ts, cuts, n - 1);
      LaidRecord(mem, bodyLen, ts, cuts, n - 1);
      assert ts[..n][..n - 1] == ts[..n - 1];
    }
  }

  lemma BoundaryCount(mem: Bytes, bodyLen: nat, ts: seq<Tlv>, cuts: seq<nat>)
    requires bodyLen + REACH <= |mem| && Laid(mem, bodyLen, ts, cuts)
    ensures |cuts| == |ts| + 1
  {
  }

  lemma ReadKind(mem: Bytes, at: nat)
    requires RecordAt(mem, at)
    ensures ReadTlv(mem, at).Ext? <==> TypeAt(mem, at) == TLV_MAX
    ensures ReadTlv(mem, at).Std? <==> TypeAt(mem, at) < TLV_MAX
    ensures ReadTlv(mem, at).Std? ==> ReadTlv(mem, at).tlvType == TypeAt(mem, at)
  {
  }

  lemma LaidRecord(mem: Bytes, bodyLen: nat, ts: seq<Tlv>, cuts: seq<nat>, i: nat)
    requires bodyLen + REACH <= |mem| && Laid(mem, bodyLen, ts, cuts) && i < |ts|
    ensures cuts[i] < bodyLen && RecordAt(mem, cuts[i]) && ReadTlv(mem, cuts[i]) == ts[i]
    ensures ts[i].Ext? <==> TypeAt(mem, cuts[i]) == TLV_MAX
    ensures ts[i].Std? <==> TypeAt(mem, cuts[i]) < TLV_MAX
    ensures ExtStarts(mem, cuts[..i + 1]) == ExtStarts(mem, cuts[..i]) + if ts[i].Ext? then [cuts[i]] else []
  {
    hide Acceptable, RecordAt, ReadTlv;
    assert cuts[..i + 1][..i] == cuts[..i];
    assert Tile(mem, bodyLen, cuts[i], cuts[i + 1]);
    ReadKind(mem, cuts[i]);
  }

  lemma LastStep(mem: Bytes, ts: seq<Tlv>, cuts: seq<nat>, n: nat, kind: nat)
    requires n < |ts| && n < |cuts| && cuts[n] + TLV_LEN <= |mem|
    ensures LastStart(mem, cuts[..n + 1], kind) ==
            if TypeAt(mem, cuts[n]) == kind then Some(cuts[n]) else LastStart(mem, cuts[..n], kind)
    ensures LastStd(ts[..n + 1], kind) ==
            if ts[n].Std? && ts[n].tlvType == kind then Some(ts[n].payload) else LastStd(ts[..n], kind)
  {
    assert cuts[..n + 1][..n] == cuts[..n] && ts[..n + 1][..n] == ts[..n];
  }

  /** The table's entry for a standard type points at the payload of its last record. */
  lemma {:induction false} LastStartIsLastStd(mem: Bytes, bodyLen: nat, ts: seq<Tlv>, cuts: seq<nat>, n: nat,
                                              kind: nat)
    requires bodyLen + REACH <= |mem| && Laid(mem, bodyLen, ts, cuts) && n <= |ts| && kind < TLV_MAX
    ensures match LastStart(mem, cuts[..n], kind)
            case None => LastStd(ts[..n], kind) == None
            case Some(s) => s < bodyLen && RecordAt(mem, s) && TypeAt(mem, s) == kind
                            && LastStd(ts[..n], kind) == Some(ReadTlv(mem, s).payload)
    decreases n
  {
    if n > 0 {
      LastStartIsLastStd(mem, bodyLen, ts, cuts, n - 1, kind);
      LaidRecord(mem, bodyLen, ts, cuts, n - 1);
      LastStep(mem, ts, cuts, n - 1, kind);
    }
  }

  // ----------------------------------------------------------------- lookups

  /** An address in the message: the offset of what a returned pointer points at. */
  function FindInfo(table: seq<u32>, kind: nat): Option<nat>
    requires |table| >= TLV_MAX
  {
    if kind >= TLV_MAX || table[kind] == INVALID_OFFSET then None else Some(table[kind] + TLV_LEN)
  }

  datatype ExtInfo = ExtInfo(data: nat, len: nat)

  /** Entries of a table that are set point at record heads inside the memory. */
  ghost predicate EntriesInside(mem: Bytes, table: seq<u32>, count: nat) {
    && TLV_MAX + count <= |table|
    && (forall j :: TLV_MAX <= j < TLV_MAX + count ==> table[j] == INVALID_OFFSET || table[j] + 8 <= |mem|)
  }

  /** The search of GetAppSpawnMsgExtInfo from table entry TLV_MAX + k on. */
  function FindExt(mem: Bytes, table: seq<u32>, count: nat, name: Bytes, k: nat): Option<ExtInfo>
    requires k <= count && EntriesInside(mem, table, count)
    decreases count - k
  {
    if k == count || table[TLV_MAX + k] == INVALID_OFFSET then None
    else
      var at := table[TLV_MAX + k];
      if TypeAt(mem, at) == TLV_MAX && TextAt(mem, at + 8, name) then Some(ExtInfo(at + EXT_LEN, DataLenAt(mem, at)))
      else FindExt(mem, table, count, name, k + 1)
  }

  /** A name is shorter than the field, or the record's own name leaves room for its terminator. */
  predicate NameFits(t: Tlv, name: Bytes) {
    t.Ext? ==> |name| < NAME_LEN || |t.name| < NAME_LEN
  }

  ghost predicate NamesFit(ts: seq<Tlv>, name: Bytes) {
    forall i :: 0 <= i < |ts| ==> NameFits(ts[i], name)
  }

  /** `strcmp` with a field of memory, when the text is shorter than the field or the field holds a terminator. */
  lemma TextInField(mem: Bytes, from: nat, field: Bytes, name: Bytes)
    requires StandsAt(mem, from, field) && IsText(name) && (|name| < |field| || |CString(field)| < |field|)
    ensures TextAt(mem, from, name) <==> CString(field) == name
  {
    hide CString;
    var s := CString(field);
    assert forall i :: 0 <= i < |field| ==> field[i] == mem[from + i];
    if s == name {
      assert mem[from..from + |name| + 1] == field[..|name| + 1] == name + [0];
    }
    if TextAt(mem, from, name) {
      var t := mem[from..from + |name| + 1];
      assert forall i :: 0 <= i < |t| ==> mem[from + i] == t[i];
      assert forall i :: 0 <= i < |field| && i <= |name| ==> field[i] == t[i];
      assert t[|name|] == 0 && forall i :: 0 <= i < |name| ==> t[i] == name[i];
      assert |s| == |name|;
      assert s == name;
    }
  }

  /** `strcmp` with a terminated name field compares with the name in it. */
  lemma TextAtName(mem: Bytes, at: nat, name: Bytes)
    requires RecordAt(mem, at) && TypeAt(mem, at) == TLV_MAX && IsText(name) && NameFits(ReadTlv(mem, at), name)
    ensures TextAt(mem, at + 8, name) <==> CString(mem[at + 8..at + EXT_LEN]) == name
  {
    hide CString, U16, IsText, TextAt;
    TextInField(mem, at + 8, mem[at + 8..at + EXT_LEN], name);
  }

  predicate Named(mem: Bytes, at: nat, name: Bytes) {
    RecordAt(mem, at) && TypeAt(mem, at) == TLV_MAX && ReadTlv(mem, at).name == name
  }

  /** The position of the first record of a name in a list of extended records. */
  function FirstNamed(mem: Bytes, starts: seq<nat>, name: Bytes): (k: nat)
    ensures k <= |starts|
    ensures forall i :: 0 <= i < k ==> !Named(mem, starts[i], name)
    ensures k < |starts| ==> Named(mem, starts[k], name)
  {
    hide Named;
    if starts == [] then 0
    else
      var n := |starts| - 1;
      var k := FirstNamed(mem, starts[..n], name);
      if k < n || Named(mem, starts[n], name) then k else n + 1
  }

  ghost predicate ExtsAt(mem: Bytes, bodyLen: nat, starts: seq<nat>, name: Bytes) {
    forall i :: 0 <= i < |starts| ==>
      && starts[i] < bodyLen && RecordAt(mem, starts[i]) && TypeAt(mem, starts[i]) == TLV_MAX
      && NameFits(ReadTlv(mem, starts[i]), name)
  }

  lemma FirstNamedStep(mem: Bytes, e: seq<nat>, at: nat, name: Bytes)
    ensures FirstNamed(mem, e + [at], name) ==
            if FirstNamed(mem, e, name) < |e| then FirstNamed(mem, e, name)
            else if Named(mem, at, name) then |e| else |e| + 1
  {
    assert (e + [at])[..|e|] == e;
  }

  /** What the first record of a name should be, told from the extended records. */
  function FirstRead(mem: Bytes, e: seq<nat>, name: Bytes): Option<Tlv> {
    var k := FirstNamed(mem, e, name);
    if k < |e| then assert Named(mem, e[k], name); Some(ReadTlv(mem, e[k])) else None
  }

  lemma FirstReadStep(mem: Bytes, e: seq<nat>, at: nat, name: Bytes, t: Tlv)
    requires RecordAt(mem, at) && ReadTlv(mem, at) == t && t.Ext?
    ensures FirstRead(mem, e + [at], name) ==
            if FirstRead(mem, e, name).Some? then FirstRead(mem, e, name)
            else if t.name == name then Some(t) else None
  {
    FirstNamedStep(mem, e, at, name);
  }

  lemma FirstExtStep(ts: seq<Tlv>, n: nat, name: Bytes)
    requires n < |ts|
    ensures FirstExt(ts[..n + 1], name) ==
            if FirstExt(ts[..n], name).Some? then FirstExt(ts[..n], name)
            else if ts[n].Ext? && ts[n].name == name then Some(ts[n]) else None
  {
    assert ts[..n + 1][..n] == ts[..n];
  }

  lemma {:induction false} ExtsStand(mem: Bytes, bodyLen: nat, ts: seq<Tlv>, cuts: seq<nat>, n: nat, name: Bytes)
    requires bodyLen + REACH <= |mem| && Laid(mem, bodyLen, ts, cuts) && n <= |ts| && NamesFit(ts, name)
    ensures ExtsAt(mem, bodyLen, ExtStarts(mem, cuts[..n]), name)
    decreases n
  {
    if n > 0 {
      ExtsStand(mem, bodyLen, ts, cuts, n - 1, name);
      LaidRecord(mem, bodyLen, ts, cuts, n - 1);
    }
  }

  lemma FirstAmongStep(mem: Bytes, ts: seq<Tlv>, n: nat, e: seq<nat>, at: nat, name: Bytes)
    requires n < |ts| && FirstExt(ts[..n], name) == FirstRead(mem, e, name)
    requires ts[n].Ext? ==> RecordAt(mem, at) && ReadTlv(mem, at) == ts[n]
    ensures FirstExt(ts[..n + 1], name) == FirstRead(mem, e + if ts[n].Ext? then [at] else [], name)
  {
    FirstExtStep(ts, n, name);
    if ts[n].Ext? {
      FirstReadStep(mem, e, at, name, ts[n]);
    } else {
      assert e + [] == e;
    }
  }

  /** The first record of a name is the first of the name among the extended ones. */
  lemma {:induction false} FirstAmongExts(mem: Bytes, bodyLen: nat, ts: seq<Tlv>, cuts: seq<nat>, n: nat, name: Bytes)
    requires bodyLen + REACH <= |mem| && Laid(mem, bodyLen, ts, cuts) && n <= |ts|
    ensures FirstExt(ts[..n], name) == FirstRead(mem, ExtStarts(mem, cuts[..n]), name)
    decreases n
  {
    if n > 0 {
      FirstAmongExts(mem, bodyLen, ts, cuts, n - 1, name);
      LaidRecord(mem, bodyLen, ts, cuts, n - 1);
      FirstAmongStep(mem, ts, n - 1, ExtStarts(mem, cuts[..n - 1]), cuts[n - 1], name);
    }
  }

  /** One turn of the search. */
  lemma FindExtStep(mem: Bytes, table: seq<u32>, count: nat, name: Bytes, k: nat, at: nat)
    requires k < count && EntriesInside(mem, table, count) && table[TLV_MAX + k] == at < INVALID_OFFSET
    requires RecordAt(mem, at) && TypeAt(mem, at) == TLV_MAX && IsText(name) && NameFits(ReadTlv(mem, at), name)
    ensures FindExt(mem, table, count, name, k) ==
            if Named(mem, at, name) then Some(ExtInfo(at + EXT_LEN, |ReadTlv(mem, at).data|))
            else FindExt(mem, table, count, name, k + 1)
  {
    TextAtName(mem, at, name);
  }

  lemma {:induction false} FindExtIsFirst(mem: Bytes, bodyLen: nat, table: seq<u32>, e: seq<nat>, name: Bytes, k: nat)
    requires ExtsAt(mem, bodyLen, e, name) && bodyLen + REACH <= |mem| && bodyLen < INVALID_OFFSET && IsText(name)
    requires EntriesInside(mem, table, |e|) && (forall j :: TLV_MAX <= j < TLV_MAX + |e| ==> table[j] == e[j - TLV_MAX])
    requires k <= FirstNamed(mem, e, name)
    ensures FindExt(mem, table, |e|, name, k) ==
            var f := FirstNamed(mem, e, name);
            if f < |e| then Some(ExtInfo(e[f] + EXT_LEN, |ReadTlv(mem, e[f]).data|)) else None
    decreases |e| - k
  {
    hide Named, TypeAt, IsText, FirstNamed, EntriesInside;
    if k < |e| {
      FindExtStep(mem, table, |e|, name, k, e[k]);
      if k < FirstNamed(mem, e, name) {
        assert !Named(mem, e[k], name);
        FindExtIsFirst(mem, bodyLen, table, e, name, k + 1);
      }
    }
  }

  // ----------------------------------------------------------------- the decoded message

  /** A message whose records are `ts` decodes when the header counts enough extended ones; then
      the lookup of a standard type finds the payload of its last record and the lookup of a name
      finds the data and length of the first record so named. */
  lemma LaidDecodes(mem: Bytes, bodyLen: nat, headerCount: nat, ts: seq<Tlv>, cuts: seq<nat>)
    requires bodyLen + REACH <= |mem| && bodyLen < INVALID_OFFSET && Laid(mem, bodyLen, ts, cuts)
    ensures ExtCount(ts) <= headerCount ==>
              var r := Decode(mem, bodyLen, headerCount);
              r.ok && r.count == ExtCount(ts) && IsTableOf(r.table, mem, cuts[..|ts|], headerCount)
  {
    assert ts[..|ts|] == ts;
    LaidStarts(mem, bodyLen, ts, cuts, |ts|);
    if ExtCount(ts) <= headerCount {
      DecodeIsTiling(mem, bodyLen, headerCount);
    }
  }

  /** The payload a standard lookup answers with. */
  ghost predicate InfoIs(mem: Bytes, table: seq<u32>, kind: nat, payload: Option<Bytes>)
    requires |table| >= TLV_MAX
  {
    match FindInfo(table, kind)
    case None => payload == None
    case Some(at) => payload.Some? && StandsAt(mem, at, payload.value)
  }

  /** The data and the length a named lookup answers with. */
  ghost predicate ExtInfoIs(mem: Bytes, table: seq<u32>, count: nat, name: Bytes, found: Option<Tlv>)
    requires EntriesInside(mem, table, count)
  {
    match FindExt(mem, table, count, name, 0)
    case None => found == None
    case Some(info) => found.Some? && found.value.Ext? && info.len == |found.value.data|
                       && StandsAt(mem, info.data, found.value.data)
  }

  lemma LookupInfo(mem: Bytes, bodyLen: nat, headerCount: nat, ts: seq<Tlv>, cuts: seq<nat>, table: seq<u32>, kind: nat)
    requires bodyLen + REACH <= |mem| && bodyLen < INVALID_OFFSET && Laid(mem, bodyLen, ts, cuts)
    requires IsTableOf(table, mem, cuts[..|ts|], headerCount) && kind < TLV_MAX
    ensures InfoIs(mem, table, kind, LastStd(ts, kind))
  {
    hide Laid, LastStart, LastStd, Acceptable, U16;
    BoundaryCount(mem, bodyLen, ts, cuts);
    assert ts[..|ts|] == ts;
    LastStartIsLastStd(mem, bodyLen, ts, cuts, |ts|, kind);
    assert table[kind] == StdEntry(mem, cuts[..|ts|], kind);
  }

  lemma ExtEntriesInside(mem: Bytes, bodyLen: nat, headerCount: nat, starts: seq<nat>, table: seq<u32>, name: Bytes)
    requires bodyLen + REACH <= |mem| && IsTableOf(table, mem, starts, headerCount)
    requires ExtsAt(mem, bodyLen, ExtStarts(mem, starts), name) && |ExtStarts(mem, starts)| <= headerCount
    ensures EntriesInside(mem, table, |ExtStarts(mem, starts)|)
    ensures forall j :: TLV_MAX <= j < TLV_MAX + |ExtStarts(mem, starts)| ==>
              table[j] == ExtStarts(mem, starts)[j - TLV_MAX]
  {
  }

  lemma FoundExt(mem: Bytes, bodyLen: nat, table: seq<u32>, e: seq<nat>, name: Bytes, found: Option<Tlv>)
    requires ExtsAt(mem, bodyLen, e, name) && bodyLen + REACH <= |mem| && bodyLen < INVALID_OFFSET && IsText(name)
    requires EntriesInside(mem, table, |e|) && (forall j :: TLV_MAX <= j < TLV_MAX + |e| ==> table[j] == e[j - TLV_MAX])
    requires found == FirstRead(mem, e, name)
    ensures ExtInfoIs(mem, table, |e|, name, found)
  {
    FindExtIsFirst(mem, bodyLen, table, e, name, 0);
    var k := FirstNamed(mem, e, name);
    if k < |e| {
      assert Named(mem, e[k], name);
    }
  }

  lemma LookupExt(mem: Bytes, bodyLen: nat, headerCount: nat, ts: seq<Tlv>, cuts: seq<nat>, table: seq<u32>, name: Bytes)
    requires bodyLen + REACH <= |mem| && bodyLen < INVALID_OFFSET && Laid(mem, bodyLen, ts, cuts)
    requires IsTableOf(table, mem, cuts[..|ts|], headerCount) && ExtCount(ts) <= headerCount
    requires IsText(name) && NamesFit(ts, name)
    ensures EntriesInside(mem, table, ExtCount(ts))
    ensures ExtInfoIs(mem, table, ExtCount(ts), name, FirstExt(ts, name))
  {
    assert ts[..|ts|] == ts;
    LaidStarts(mem, bodyLen, ts, cuts, |ts|);
    FirstAmongExts(mem, bodyLen, ts, cuts, |ts|, name);
    ExtsStand(mem, bodyLen, ts, cuts, |ts|, name);
    ExtEntriesInside(mem, bodyLen, headerCount, cuts[..|ts|], table, name);
    FoundExt(mem, bodyLen, table, ExtStarts(mem, cuts[..|ts|]), name, FirstExt(ts, name));
  }
}
