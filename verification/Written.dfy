/**
  Records written one after another, read by the decoder: when it accepts them, and what the
  lookups then find.
*/
module Written {
  import opened Bytes
  import opened MsgLayout
  import opened MsgDecode
  import opened Wrappers

  /** What CheckMsgTlv asks of a record, said about the record alone. */
  predicate Sound(t: Tlv) {
    t.Std? ==>
      match t.tlvType
      case 0 => |t.payload| <= 4 + BUNDLE_NAME_LEN
      case 1 => |t.payload| >= 4 && U32(t.payload, 0) * 4 % 0x1_0000_0000 <= TLV_LEN + |t.payload|
      case 2 => DAC_INFO_LEN <= TLV_LEN + |t.payload|
      case 3 => |t.payload| <= APL_LEN + 4
      case 4 => |t.payload| <= OWNER_ID_LEN
      case 5 => 8 <= TLV_LEN + |t.payload|
      case _ => true
  }

  lemma RecordHead(mem: Bytes, at: nat, t: Tlv)
    requires RecordAt(mem, at) && ReadTlv(mem, at) == t && at + REACH <= |mem|
    ensures t.Std? ==> TypeAt(mem, at) == t.tlvType < TLV_MAX && |t.payload| == LenAt(mem, at) - TLV_LEN
    ensures t.Std? && |t.payload| >= 4 ==> U32(mem, at + TLV_LEN) == U32(t.payload, 0)
    ensures t.Ext? ==> TypeAt(mem, at) == TLV_MAX && DataLenAt(mem, at) == |t.data|
  {
    if t.Std? && |t.payload| >= 4 {
      U32Inside(mem, at + TLV_LEN, t.payload, 0);
    }
  }

  /** Wherever a record stands, the decoder accepts it if and only if it is sound and the data of an extended
      one fits what is left of its length behind the head, subtracted without a sign; of a message flag
      record too short for its count it would have to look at the bytes behind it. */
  lemma AcceptableIffSound(mem: Bytes, at: nat, t: Tlv)
    requires RecordAt(mem, at) && ReadTlv(mem, at) == t && at + REACH <= |mem|
    requires t.Std? && t.tlvType == TLV_MSG_FLAGS ==> |t.payload| >= 4
    ensures Acceptable(mem, at) <==> Sound(t) && (t.Ext? ==> |t.data| <= SubSize(LenAt(mem, at), EXT_LEN))
  {
    hide LenAt, TypeAt, DataLenAt, U32, ReadTlv, RecordAt;
    RecordHead(mem, at, t);
  }

  // ------------------------------------------------------------------------- as read

  function AsReadAll(ts: seq<Tlv>): (r: seq<Tlv>)
    ensures |r| == |ts|
    ensures forall i :: 0 <= i < |ts| ==> r[i] == AsRead(ts[i])
  {
    seq(|ts|, i requires 0 <= i < |ts| => AsRead(ts[i]))
  }

  lemma AsReadPrefix(ts: seq<Tlv>)
    requires ts != []
    ensures AsReadAll(ts)[..|ts| - 1] == AsReadAll(ts[..|ts| - 1])
  {
  }

  lemma {:induction false} CountAsRead(ts: seq<Tlv>)
    ensures ExtCount(AsReadAll(ts)) == ExtCount(ts)
  {
    if ts != [] {
      AsReadPrefix(ts);
      CountAsRead(ts[..|ts| - 1]);
    }
  }

  lemma {:induction false} InfoAsRead(ts: seq<Tlv>, kind: nat)
    ensures LastStd(AsReadAll(ts), kind) ==
            match LastStd(ts, kind) case Some(p) => Some(Padded(p)) case None => None
  {
    hide Padded;
    if ts != [] {
      AsReadPrefix(ts);
      InfoAsRead(ts[..|ts| - 1], kind);
    }
  }

  lemma {:induction false} ExtAsRead(ts: seq<Tlv>, name: Bytes)
    ensures FirstExt(AsReadAll(ts), name) == FirstExt(ts, name)
  {
    hide Padded;
    if ts != [] {
      AsReadPrefix(ts);
      ExtAsRead(ts[..|ts| - 1], name);
    }
  }

  // ------------------------------------------------------------------------- tiling

  ghost predicate AllSound(ts: seq<Tlv>) {
    AllEncodable(ts) && forall i :: 0 <= i < |ts| ==> Sound(AsRead(ts[i]))
  }

  lemma DataFits(t: Tlv)
    ensures t.Ext? ==> AsRead(t) == t && |t.data| <= TlvSize(t) - EXT_LEN
  {
  }

  lemma WrittenTile(ts: seq<Tlv>, beyond: Bytes, i: nat)
    requires AllSound(ts) && |beyond| >= REACH && i < |ts|
    ensures var mem := BodyBytes(ts) + beyond;
            && RecordAt(mem, Offset(ts, i)) && ReadTlv(mem, Offset(ts, i)) == AsRead(ts[i])
            && Tile(mem, BodySize(ts), Offset(ts, i), Offset(ts, i + 1))
  {
    hide BodyBytes, TlvBytes, TlvSize, BodySize, Acceptable, ReadTlv, RecordAt, LenAt, Encodable;
    ReadBody(ts, beyond, i);
    OffsetBound(ts, i);
    OffsetStep(ts, i);
    DataFits(ts[i]);
    AcceptableIffSound(BodyBytes(ts) + beyond, Offset(ts, i), AsRead(ts[i]));
  }

  lemma WrittenIsLaid(ts: seq<Tlv>, beyond: Bytes)
    requires AllSound(ts) && |beyond| >= REACH
    ensures Laid(BodyBytes(ts) + beyond, BodySize(ts), AsReadAll(ts), Cuts(ts))
  {
    hide BodyBytes, TlvBytes, TlvSize, Tile, ReadTlv, RecordAt, Sound, AsRead;
    assert ts[..0] == [] && ts[..|ts|] == ts;
    assert BodySize([]) == 0;
    forall i | 0 <= i < |ts|
      ensures RecordAt(BodyBytes(ts) + beyond, Offset(ts, i))
      ensures ReadTlv(BodyBytes(ts) + beyond, Offset(ts, i)) == AsRead(ts[i])
      ensures Tile(BodyBytes(ts) + beyond, BodySize(ts), Offset(ts, i), Offset(ts, i + 1))
    {
      WrittenTile(ts, beyond, i);
    }
  }

  // ------------------------------------------------------------------------- lookups

  /** Records laid out in a message of which the header counts enough: they decode, the table is
      the one their boundaries call for, and every lookup finds the last payload or the first
      record. */
  lemma LaidLookups(mem: Bytes, bodyLen: nat, count: nat, ts: seq<Tlv>, cuts: seq<nat>, kind: nat, name: Bytes)
    requires bodyLen + REACH <= |mem| && bodyLen < INVALID_OFFSET && Laid(mem, bodyLen, ts, cuts)
    requires ExtCount(ts) <= count && kind < TLV_MAX && IsText(name) && NamesFit(ts, name)
    ensures var d := Decode(mem, bodyLen, count);
            && d.ok && d.count == ExtCount(ts) && IsTableOf(d.table, mem, cuts[..|ts|], count)
            && EntriesInside(mem, d.table, d.count)
            && InfoIs(mem, d.table, kind, LastStd(ts, kind))
            && ExtInfoIs(mem, d.table, d.count, name, FirstExt(ts, name))
  {
    hide Decode, InfoIs, ExtInfoIs, EntriesInside, ExtCount;
    LaidDecodes(mem, bodyLen, count, ts, cuts);
    var d := Decode(mem, bodyLen, count);
    LookupInfo(mem, bodyLen, count, ts, cuts, d.table, kind);
    LookupExt(mem, bodyLen, count, ts, cuts, d.table, name);
  }

  lemma WrittenNamesFit(ts: seq<Tlv>, name: Bytes)
    requires AllEncodable(ts)
    ensures NamesFit(AsReadAll(ts), name)
  {
    hide Padded, TlvSize;
    forall i | 0 <= i < |ts|
      ensures NameFits(AsRead(ts[i]), name)
    {
      assert Encodable(ts[i]);
    }
  }

  /** The same of written records: a standard payload is found where it was written, with its
      padding behind it. */
  lemma WrittenLookups(ts: seq<Tlv>, beyond: Bytes, count: nat, kind: nat, name: Bytes)
    requires AllSound(ts) && |beyond| >= REACH && BodySize(ts) < INVALID_OFFSET
    requires ExtCount(ts) <= count && kind < TLV_MAX && IsText(name)
    ensures var mem := BodyBytes(ts) + beyond;
            var d := Decode(mem, BodySize(ts), count);
            && d.ok && d.count == ExtCount(ts) && IsTableOf(d.table, mem, Cuts(ts)[..|ts|], count)
            && EntriesInside(mem, d.table, d.count)
            && InfoIs(mem, d.table, kind, LastStd(ts, kind))
            && ExtInfoIs(mem, d.table, d.count, name, FirstExt(ts, name))
  {
    hide BodyBytes, BodySize, Decode, IsTableOf, ExtInfoIs, EntriesInside, ExtCount, LastStd, FirstExt, Laid, Sound;
    WrittenIsLaid(ts, beyond);
    CountAsRead(ts);
    InfoAsRead(ts, kind);
    ExtAsRead(ts, name);
    WrittenNamesFit(ts, name);
    LaidLookups(BodyBytes(ts) + beyond, BodySize(ts), count, AsReadAll(ts), Cuts(ts), kind, name);
  }
}
