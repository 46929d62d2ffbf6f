/**
  The writer of a rebuilt message: entries into a zeroed buffer of exactly their size, and the
  offset table filled along the way.
*/
module TlvBuilder {
  import opened Bytes
  import opened MsgLayout
  import opened MsgDecode
  import opened MsgNode

  /** Bytes copied over zeros, perhaps leaving a gap. */
  lemma WrittenOver(pre: Bytes, zeros: nat, gap: nat, part: Bytes)
    requires gap + |part| <= zeros
    ensures var was, at := pre + Zeros(zeros), |pre| + gap;
            was[..at] + part + was[at + |part|..] == pre + Zeros(gap) + part + Zeros(zeros - gap - |part|)
  {
  }

  lemma ZerosSplit(a: nat, b: nat)
    ensures Zeros(a + b) == Zeros(a) + Zeros(b)
  {
  }

  lemma StdWritten(pre: Bytes, t: Tlv, room: nat)
    requires Encodable(t) && t.Std? && TlvSize(t) <= room
    ensures var head := LE16(TlvSize(t)) + LE16(t.tlvType);
            pre + head + t.payload + Zeros(room - |head| - |t.payload|) == pre + TlvBytes(t) + Zeros(room - TlvSize(t))
  {
    hide LE16;
    ZerosSplit(Align4(|t.payload|) - |t.payload|, room - TlvSize(t));
  }

  lemma ExtWritten(pre: Bytes, t: Tlv, room: nat)
    requires Encodable(t) && t.Ext? && TlvSize(t) <= room
    ensures var head := LE16(TlvSize(t)) + LE16(TLV_MAX) + LE16(|t.data|) + LE16(t.dataType);
            pre + head + (t.name + [0]) + Zeros(NAME_LEN - |t.name| - 1) + ExtPayload(t)
            + Zeros(room - EXT_LEN - |ExtPayload(t)|)
            == pre + TlvBytes(t) + Zeros(room - TlvSize(t))
  {
    hide LE16;
    ZerosSplit(Align4(|ExtPayload(t)|) - |ExtPayload(t)|, room - TlvSize(t));
    ZerosSplit(1, NAME_LEN - |t.name| - 1);
    assert Zeros(1) == [0];
  }

  /** A standard entry: head, then data; the padding is there already. */
  method WriteStandard(buffer: array<byte>, at: nat, t: Tlv, ghost pre: Bytes)
    requires Encodable(t) && t.Std? && |pre| == at && at + TlvSize(t) <= buffer.Length
    requires buffer[..] == pre + Zeros(buffer.Length - at)
    modifies buffer
    ensures buffer[..] == pre + TlvBytes(t) + Zeros(buffer.Length - at - TlvSize(t))
  {
    hide LE16, TlvBytes;
    var head := LE16(TlvSize(t)) + LE16(t.tlvType);
    ghost var room := buffer.Length - at;
    WrittenOver(pre, room, 0, head);
    MemCpy(buffer, at, head);
    assert buffer[..] == pre + head + Zeros(room - |head|);
    WrittenOver(pre + head, room - |head|, 0, t.payload);
    MemCpy(buffer, at + TLV_LEN, t.payload);
    assert buffer[..] == pre + head + t.payload + Zeros(room - |head| - |t.payload|);
    StdWritten(pre, t, room);
  }

  /** An extended entry: head, name, data, and the terminator of a string. */
  method WriteExtended(buffer: array<byte>, at: nat, t: Tlv, ghost pre: Bytes)
    requires Encodable(t) && t.Ext? && |pre| == at && at + TlvSize(t) <= buffer.Length
    requires buffer[..] == pre + Zeros(buffer.Length - at)
    modifies buffer
    ensures buffer[..] == pre + TlvBytes(t) + Zeros(buffer.Length - at - TlvSize(t))
  {
    hide LE16, TlvBytes;
    var head := LE16(TlvSize(t)) + LE16(TLV_MAX) + LE16(|t.data|) + LE16(t.dataType);
    ghost var room := buffer.Length - at;
    WrittenOver(pre, room, 0, head);
    MemCpy(buffer, at, head);
    assert buffer[..] == pre + head + Zeros(room - |head|);
    WrittenOver(pre + head, room - |head|, 0, t.name + [0]);
    MemCpy(buffer, at + 8, t.name + [0]);
    ghost var front, gap := pre + head + (t.name + [0]), NAME_LEN - |t.name| - 1;
    assert buffer[..] == front + Zeros(room - 8 - |t.name| - 1);
    WriteData(buffer, at + EXT_LEN, t, front, gap);
    ExtWritten(pre, t, room);
  }

  method WriteData(buffer: array<byte>, at: nat, t: Tlv, ghost front: Bytes, ghost gap: nat)
    requires t.Ext? && at == |front| + gap && at + |ExtPayload(t)| <= buffer.Length
    requires buffer[..] == front + Zeros(buffer.Length - |front|)
    modifies buffer
    ensures buffer[..] == front + Zeros(gap) + ExtPayload(t) + Zeros(buffer.Length - at - |ExtPayload(t)|)
  {
    WrittenOver(front, buffer.Length - |front|, gap, t.data);
    MemCpy(buffer, at, t.data);
    if t.dataType == DATA_TYPE_STRING {
      ghost var was := buffer[..];
      buffer[at + |t.data|] := 0;
      assert buffer[..] == was;
      ZerosSplit(1, buffer.Length - at - |t.data| - 1);
      assert Zeros(1) == [0];
    }
  }

  lemma KindWritten(es: seq<Tlv>, after: Bytes, i: nat)
    requires AllEncodable(es) && i < |es|
    ensures var mem, at := BodyBytes(es) + after, Offset(es, i);
            && at + TLV_LEN <= |mem| && at + TLV_LEN <= BodySize(es)
            && (es[i].Std? ==> TypeAt(mem, at) == es[i].tlvType < TLV_MAX)
            && (es[i].Ext? ==> TypeAt(mem, at) == TLV_MAX)
  {
    hide BodyBytes, TlvBytes, BodySize, TypeAt, LenAt;
    ReadBody(es, after, i);
    OffsetBound(es, i);
  }

  lemma CutsStep(es: seq<Tlv>, i: nat)
    requires i < |es|
    ensures Cuts(es)[..i + 1] == Cuts(es)[..i] + [Offset(es, i)]
    ensures ExtCount(es[..i + 1]) == ExtCount(es[..i]) + if es[i].Ext? then 1 else 0
  {
    assert es[..i + 1][..i] == es[..i];
  }

  lemma ExtCountGrows(es: seq<Tlv>, i: nat)
    requires i <= |es|
    ensures ExtCount(es[..i]) <= ExtCount(es)
    decreases |es| - i
  {
    if i < |es| {
      CutsStep(es, i);
      ExtCountGrows(es, i + 1);
    } else {
      assert es[..i] == es;
    }
  }

  lemma {:induction false} ExtStartsWritten(es: seq<Tlv>, after: Bytes, i: nat)
    requires AllEncodable(es) && i <= |es|
    ensures |ExtStarts(BodyBytes(es) + after, Cuts(es)[..i])| == ExtCount(es[..i])
  {
    hide BodyBytes, BodySize, TlvSize, TypeAt, Offset, Encodable;
    if i > 0 {
      ExtStartsWritten(es, after, i - 1);
      CutsStep(es, i - 1);
      KindWritten(es, after, i - 1);
      EntriesStep(BodyBytes(es) + after, Cuts(es)[..i - 1], Offset(es, i - 1));
    } else {
      assert es[..0] == [] && Cuts(es)[..0] == [];
    }
  }

  /** The buffer and the offset table after `i` entries. */
  ghost predicate BytesSoFar(buffer: Bytes, es: seq<Tlv>, i: nat)
    requires AllEncodable(es) && i <= |es|
  {
    Offset(es, i) <= BodySize(es) && buffer == BodyBytes(es[..i]) + Zeros(BodySize(es) - Offset(es, i))
  }

  ghost predicate TableSoFar(table: seq<u32>, count: nat, es: seq<Tlv>, after: Bytes, i: nat)
    requires AllEncodable(es) && i <= |es|
  {
    IsTableOf(table, BodyBytes(es) + after, Cuts(es)[..i], ExtCount(es)) && count == ExtCount(es[..i])
  }

  lemma NothingYet(es: seq<Tlv>)
    ensures Offset(es, 0) == 0 && AllEncodable(es[..0]) && BodyBytes(es[..0]) == [] && ExtCount(es[..0]) == 0
  {
    assert es[..0] == [];
  }

  lemma NothingWritten(es: seq<Tlv>, after: Bytes)
    requires AllEncodable(es)
    ensures BytesSoFar(Zeros(BodySize(es)), es, 0) && TableSoFar(EmptyTable(ExtCount(es)), 0, es, after, 0)
  {
    NothingYet(es);
    hide BodySize, BodyBytes, ExtCount;
    assert Cuts(es)[..0] == [];
    assert [] + Zeros(BodySize(es)) == Zeros(BodySize(es));
  }

  lemma AllWritten(buffer: Bytes, table: seq<u32>, count: nat, es: seq<Tlv>, after: Bytes)
    requires AllEncodable(es) && BytesSoFar(buffer, es, |es|) && TableSoFar(table, count, es, after, |es|)
    ensures Offset(es, |es|) == BodySize(es) && buffer == BodyBytes(es) && count == ExtCount(es)
    ensures IsTableOf(table, BodyBytes(es) + after, Cuts(es)[..|es|], ExtCount(es))
  {
    assert es[..|es|] == es;
  }

  lemma EntryOffsets(es: seq<Tlv>, i: nat)
    requires i < |es|
    ensures Offset(es, i + 1) == Offset(es, i) + TlvSize(es[i]) <= BodySize(es)
  {
    hide TlvSize;
    OffsetBound(es, i);
    OffsetStep(es, i);
  }

  /** The bytes of one more entry. */
  lemma BytesNext(es: seq<Tlv>, i: nat, buffer: Bytes)
    requires AllEncodable(es) && i < |es| && Offset(es, i) + TlvSize(es[i]) <= BodySize(es)
    requires buffer == BodyBytes(es[..i]) + TlvBytes(es[i]) + Zeros(BodySize(es) - Offset(es, i) - TlvSize(es[i]))
    ensures BytesSoFar(buffer, es, i + 1)
  {
    hide TlvBytes, TlvSize, BodySize, Encodable, Offset;
    assert es[..i + 1][..i] == es[..i];
    EntryOffsets(es, i);
  }

  /** The table entry an entry is stored in. */
  lemma SlotOf(es: seq<Tlv>, after: Bytes, i: nat)
    requires AllEncodable(es) && i < |es| && BodySize(es) < INVALID_OFFSET
    ensures var mem, at := BodyBytes(es) + after, Offset(es, i);
            && at + TLV_LEN <= |mem| && at < INVALID_OFFSET
            && Slot(mem, Cuts(es)[..i], at) == (if es[i].Std? then es[i].tlvType else TLV_MAX + ExtCount(es[..i]))
            && Slot(mem, Cuts(es)[..i], at) < TLV_MAX + ExtCount(es)
  {
    hide BodyBytes, BodySize, TypeAt, ExtCount, TlvSize, Encodable, Offset, ExtStarts, Cuts, AllEncodable;
    KindWritten(es, after, i);
    ExtStartsWritten(es, after, i);
    CutsStep(es, i);
    ExtCountGrows(es, i + 1);
  }

  /** The table entry of one more entry. */
  lemma TableNext(table: seq<u32>, count: nat, es: seq<Tlv>, after: Bytes, i: nat)
    requires AllEncodable(es) && i < |es| && BodySize(es) < INVALID_OFFSET && TableSoFar(table, count, es, after, i)
    ensures Offset(es, i) < INVALID_OFFSET
    ensures var slot := if es[i].Std? then es[i].tlvType else TLV_MAX + count;
            slot < |table|
            && TableSoFar(table[slot := Offset(es, i)], count + (if es[i].Ext? then 1 else 0), es, after, i + 1)
  {
    hide BodyBytes, BodySize, TypeAt, ExtCount, TlvSize, Encodable, Offset, ExtStarts, Cuts, AllEncodable, IsTableOf, Slot;
    SlotOf(es, after, i);
    CutsStep(es, i);
    TableLength(table, BodyBytes(es) + after, Cuts(es)[..i], ExtCount(es));
    TableStep(table, BodyBytes(es) + after, Cuts(es)[..i], ExtCount(es), Offset(es, i));
  }

  lemma TableLength(table: seq<u32>, mem: Bytes, starts: seq<nat>, headerCount: nat)
    requires IsTableOf(table, mem, starts, headerCount)
    ensures |table| == TLV_MAX + headerCount
  {
  }

  // ------------------------------------------------------------------------- names

  /** Entries the 16-bit length fields hold; a name may still be too long for its field. */
  predicate Writable(t: Tlv) {
    && TlvSize(t) < 0x1_0000
    && (t.Std? ==> t.tlvType < TLV_MAX)
    && (t.Ext? ==> IsText(t.name))
  }

  ghost predicate AllWritable(es: seq<Tlv>) {
    forall i :: 0 <= i < |es| ==> Writable(es[i])
  }

  /** Every name has room for its terminator. */
  predicate NamesEnd(es: seq<Tlv>) {
    forall i :: 0 <= i < |es| && es[i].Ext? ==> |es[i].name| < NAME_LEN
  }

  lemma EncodableIff(es: seq<Tlv>)
    ensures AllEncodable(es) <==> AllWritable(es) && NamesEnd(es)
  {
    hide TlvSize, IsText;
    forall i | 0 <= i < |es|
      ensures Encodable(es[i]) <==> Writable(es[i]) && (es[i].Ext? ==> |es[i].name| < NAME_LEN)
    {
    }
  }

  function Shortened(t: Tlv): Tlv {
    if t.Ext? && |t.name| >= NAME_LEN then t.(name := []) else t
  }

  /** The entries with the names that do not fit left out: as long as the writer has met none of them, it
      writes these. */
  function AllShortened(es: seq<Tlv>): (r: seq<Tlv>)
    ensures |r| == |es| && forall i :: 0 <= i < |es| ==> r[i] == Shortened(es[i])
  {
    seq(|es|, i requires 0 <= i < |es| => Shortened(es[i]))
  }

  lemma {:induction false} ShortenedCounts(es: seq<Tlv>)
    ensures BodySize(AllShortened(es)) == BodySize(es) && ExtCount(AllShortened(es)) == ExtCount(es)
  {
    if es != [] {
      var n := |es| - 1;
      assert AllShortened(es)[..n] == AllShortened(es[..n]);
      ShortenedCounts(es[..n]);
      SameSize(es[n]);
    }
  }

  lemma SameSize(t: Tlv)
    ensures TlvSize(Shortened(t)) == TlvSize(t) && (Shortened(t).Ext? <==> t.Ext?)
    ensures Writable(t) ==> Encodable(Shortened(t))
  {
    hide Align4;
    if t.Ext? {
      assert ExtPayload(Shortened(t)) == ExtPayload(t);
    }
  }

  lemma ShortenedAreEncodable(es: seq<Tlv>)
    requires AllWritable(es)
    ensures AllEncodable(AllShortened(es))
    ensures NamesEnd(es) ==> AllShortened(es) == es
  {
    hide Writable, Encodable;
    forall i | 0 <= i < |es|
      ensures Encodable(AllShortened(es)[i])
    {
      SameSize(es[i]);
    }
  }

  /** WriteTlvEntriesToBuffer: it gives up at a name that does not fit its field. */
  method WriteTlvEntriesToBuffer(newMsg: MsgNode, entries: seq<Tlv>, ghost after: Bytes)
    returns (ret: int, currentOffset: u32)
    requires newMsg.Valid() && newMsg.buffer != null && newMsg.tlvOffset != null && newMsg.tlvCount == 0
    requires AllWritable(entries) && BodySize(entries) < INVALID_OFFSET
    requires newMsg.buffer[..] == Zeros(BodySize(entries)) && newMsg.tlvOffset[..] == EmptyTable(ExtCount(entries))
    modifies newMsg`tlvCount, newMsg.buffer, newMsg.tlvOffset
    ensures ret == 0 <==> NamesEnd(entries)
    ensures ret == 0 ==>
              && AllEncodable(entries)
              && currentOffset == BodySize(entries) && newMsg.buffer[..] == BodyBytes(entries)
              && newMsg.tlvCount == ExtCount(entries)
              && IsTableOf(newMsg.tlvOffset[..], BodyBytes(entries) + after, Cuts(entries)[..|entries|], ExtCount(entries))
  {
    hide BytesSoFar, TableSoFar, TlvBytes, BodyBytes, BodySize, TlvSize, ExtCount, Writable, Offset, Encodable;
    ghost var es := AllShortened(entries);
    ShortenedCounts(entries);
    ShortenedAreEncodable(entries);
    NothingWritten(es, after);
    currentOffset := 0;
    NothingYet(es);
    for index := 0 to |entries|
      invariant NamesEnd(entries[..index]) && currentOffset == Offset(es, index)
      invariant BytesSoFar(newMsg.buffer[..], es, index)
      invariant TableSoFar(newMsg.tlvOffset[..], newMsg.tlvCount, es, after, index)
    {
      var entry := entries[index];
      if entry.Ext? && |entry.name| >= NAME_LEN {
        return -1, currentOffset;
      }
      currentOffset := WriteEntry(newMsg, entry, es, after, index, currentOffset);
      assert entries[..index + 1] == entries[..index] + [entry];
    }
    ret := 0;
    assert entries[..|entries|] == entries;
    AllWritten(newMsg.buffer[..], newMsg.tlvOffset[..], newMsg.tlvCount, es, after);
  }

  /** One turn of the loop. */
  method WriteEntry(newMsg: MsgNode, entry: Tlv, ghost entries: seq<Tlv>, ghost after: Bytes, ghost index: nat,
                    currentOffset: u32) returns (newOffset: u32)
    requires newMsg.buffer != null && newMsg.tlvOffset != null && newMsg.buffer != newMsg.header
    requires AllEncodable(entries) && BodySize(entries) < INVALID_OFFSET && index < |entries| && entry == entries[index]
    requires currentOffset == Offset(entries, index)
    requires BytesSoFar(newMsg.buffer[..], entries, index)
    requires TableSoFar(newMsg.tlvOffset[..], newMsg.tlvCount, entries, after, index)
    modifies newMsg`tlvCount, newMsg.buffer, newMsg.tlvOffset
    ensures newOffset == Offset(entries, index + 1)
    ensures BytesSoFar(newMsg.buffer[..], entries, index + 1)
    ensures TableSoFar(newMsg.tlvOffset[..], newMsg.tlvCount, entries, after, index + 1)
  {
    hide TlvBytes, BodyBytes, BodySize, TableSoFar, ExtCount;
    ghost var pre, table, count := BodyBytes(entries[..index]), newMsg.tlvOffset[..], newMsg.tlvCount;
    EntryOffsets(entries, index);
    TableNext(table, count, entries, after, index);
    if entry.Std? {
      WriteStandard(newMsg.buffer, currentOffset, entry, pre);
      newMsg.tlvOffset[entry.tlvType] := currentOffset;
      assert newMsg.tlvOffset[..] == table[entry.tlvType := currentOffset];
    } else {
      WriteExtended(newMsg.buffer, currentOffset, entry, pre);
      newMsg.tlvOffset[TLV_MAX + newMsg.tlvCount] := currentOffset;
      newMsg.tlvCount := newMsg.tlvCount + 1;
      assert newMsg.tlvOffset[..] == table[TLV_MAX + count := currentOffset];
    }
    BytesNext(entries, index, newMsg.buffer[..]);
    newOffset := currentOffset + TlvSize(entry);
  }
}
