/** What the rebuild preserves: the new message decodes, and every lookup on it is accounted for. */
module RebuildMeaning {
  import opened Bytes
  import opened MsgLayout
  import opened MsgDecode
  import opened Rebuild
  import opened RebuiltValues
  import opened SpmMessage
  import opened Written

  // ------------------------------------------------------------------------- the new records are sound

  /** Message flag records hold their count. */
  ghost predicate FlagsHoldTheirCount(ts: seq<Tlv>) {
    forall i :: 0 <= i < |ts| && ts[i].Std? && ts[i].tlvType == TLV_MSG_FLAGS ==> |ts[i].payload| >= 4
  }

  /** Every record of a decoded message passed the server's checks. */
  lemma DecodedIsSound(mem: Bytes, bodyLen: nat, ts: seq<Tlv>, cuts: seq<nat>, i: nat)
    requires bodyLen + REACH <= |mem| && Laid(mem, bodyLen, ts, cuts) && FlagsHoldTheirCount(ts) && i < |ts|
    ensures Sound(ts[i])
  {
    hide ReadTlv, RecordAt, Acceptable, Sound;
    assert Tile(mem, bodyLen, cuts[i], cuts[i + 1]);
    AcceptableIffSound(mem, cuts[i], ts[i]);
  }

  /** Padding keeps a copied record sound: only the rebuilt types have an upper limit. */
  lemma PaddedIsSound(kind: nat, payload: Bytes)
    requires Sound(Std(kind, payload)) && kind !in {TLV_BUNDLE_INFO, TLV_DOMAIN_INFO, TLV_OWNER_INFO}
    ensures Sound(Std(kind, Padded(payload)))
  {
    hide U32, Padded;
    if |payload| >= 4 {
      U32Inside(Padded(payload), 0, payload, 0);
    }
  }

  predicate SpmOk(spm: SpmData) {
    && spm.ownerid < 0x1_0000_0000_0000_0000
    && (spm.granted.Some? ==> |spm.granted.value| < 0x4000)
  }

  lemma BundleIsSound(spm: SpmData)
    ensures Sound(Std(TLV_BUNDLE_INFO, Padded(BundlePayload(spm))))
  {
    hide LE32;
  }

  lemma DomainIsSound(spm: SpmData, hapFlags: u32)
    ensures Sound(Std(TLV_DOMAIN_INFO, Padded(DomainPayload(spm, hapFlags))))
  {
    hide LE32;
    assert forall i :: 0 <= i < |APL_NAME_MAP| ==> |APL_NAME_MAP[i]| <= 12;
  }

  lemma OwnerIsSound(spm: SpmData)
    requires SpmOk(spm)
    ensures Sound(Std(TLV_OWNER_INFO, Padded(OwnerPayload(spm))))
  {
    hide Decimal;
    assert Pow10(5) == 100_000 && Pow10(10) == 10_000_000_000;
    assert Pow10(15) == 1_000_000_000_000_000 && Pow10(20) == 100_000_000_000_000_000_000;
    DecimalLength(spm.ownerid, 20);
  }

  lemma NewRecordIsSound(mem: Bytes, bodyLen: nat, headerCount: nat, ts: seq<Tlv>, cuts: seq<nat>, table: seq<u32>,
                         spm: SpmData, special: bool, i: nat)
    requires OldMessage(mem, bodyLen, headerCount, ts, cuts, table) && FlagsHoldTheirCount(ts)
    requires Readable(mem, table) && SpmOk(spm) && i < |ts|
    requires NewRecord(ts, ts[i], Derive(mem, table, spm, special)).Some?
    ensures Sound(AsRead(NewRecord(ts, ts[i], Derive(mem, table, spm, special)).value))
  {
    hide Sound, Padded, NewExt, BundlePayload, DomainPayload, OwnerPayload, DacPayload, OldDac, OldHapFlags, LastStd,
      PermissionPayload, DistributionName, Readable, Laid, IsTableOf;
    var t, d := ts[i], Derive(mem, table, spm, special);
    BundleIsSound(spm);
    DomainIsSound(spm, OldHapFlags(mem, table));
    OwnerIsSound(spm);
    if t.Ext? {
      ExtIsSound(AsRead(NewExt(t, d).value));
    } else if t.tlvType == TLV_DAC_INFO && d.dac.Some? {
      DacIsSound(d.dac.value);
    } else if t.tlvType == TLV_PERMISSION {
      PermissionIsSound(d.permission.value);
    } else if t.tlvType !in {TLV_BUNDLE_INFO, TLV_DOMAIN_INFO, TLV_OWNER_INFO} {
      var j := LastIsMember(ts, t.tlvType);
      DecodedIsSound(mem, bodyLen, ts, cuts, j);
      PaddedIsSound(t.tlvType, LastStd(ts, t.tlvType).value);
    }
  }

  lemma ExtIsSound(t: Tlv)
    requires t.Ext?
    ensures Sound(t)
  {
  }

  lemma DacIsSound(payload: Bytes)
    requires |payload| == DAC_INFO_LEN
    ensures Sound(Std(TLV_DAC_INFO, Padded(payload)))
  {
  }

  lemma PermissionIsSound(payload: Bytes)
    ensures Sound(Std(TLV_PERMISSION, Padded(payload)))
  {
  }

  lemma RebuiltIsSound(mem: Bytes, bodyLen: nat, headerCount: nat, ts: seq<Tlv>, cuts: seq<nat>, table: seq<u32>,
                       spm: SpmData, special: bool)
    requires OldMessage(mem, bodyLen, headerCount, ts, cuts, table) && FlagsHoldTheirCount(ts)
    requires Readable(mem, table) && SpmOk(spm)
    requires var d := Derive(mem, table, spm, special);
             Replaced(ts, d)
    ensures AllSound(Rebuilt(ts, Derive(mem, table, spm, special)).value)
  {
    hide Derive, NewRecord, NewRecords, Sound, AsRead, OldMessage, Readable, LastStd;
    var d := Derive(mem, table, spm, special);
    var es := Rebuilt(ts, d).value;
    forall i | 0 <= i < |es|
      ensures Sound(AsRead(es[i]))
    {
      if i < |ts| {
        NewRecordsAt(ts, |ts|, d, i);
        NewRecordIsSound(mem, bodyLen, headerCount, ts, cuts, table, spm, special, i);
      } else {
        XpmIsSound(d.xpm);
      }
    }
  }

  lemma XpmIsSound(data: Bytes)
    ensures Sound(AsRead(Ext(XPM_ID_TYPE, data, 0)))
  {
  }

  // ------------------------------------------------------------------------- tilings are unique

  lemma {:induction false} SameCuts(mem: Bytes, bodyLen: nat, a: seq<nat>, b: seq<nat>, i: nat)
    requires bodyLen + REACH <= |mem| && Tiles(mem, bodyLen, a) && Tiles(mem, bodyLen, b) && i < |a|
    ensures i < |b| && a[i] == b[i] && (i == |a| - 1 ==> i == |b| - 1)
  {
    if i > 0 {
      SameCuts(mem, bodyLen, a, b, i - 1);
      assert Tile(mem, bodyLen, a[i - 1], a[i]);
      assert i < |b| ==> Tile(mem, bodyLen, b[i - 1], b[i]);
    }
    assert i < |b| - 1 ==> Tile(mem, bodyLen, b[i], b[i + 1]);
  }

  lemma TilingIsUnique(mem: Bytes, bodyLen: nat, a: seq<nat>, b: seq<nat>)
    requires bodyLen + REACH <= |mem| && Tiles(mem, bodyLen, a) && Tiles(mem, bodyLen, b)
    ensures a == b
  {
    forall i | 0 <= i < |a|
      ensures i < |b| && a[i] == b[i] && (i == |a| - 1 ==> i == |b| - 1)
    {
      SameCuts(mem, bodyLen, a, b, i);
    }
  }

  /** Written sound records decode exactly when the header counts the extended ones. */
  lemma DecodesIffCounted(ts: seq<Tlv>, beyond: Bytes, count: nat)
    requires AllSound(ts) && |beyond| >= REACH && BodySize(ts) < INVALID_OFFSET
    ensures Decode(BodyBytes(ts) + beyond, BodySize(ts), count).ok <==> ExtCount(ts) <= count
  {
    hide BodyBytes, BodySize, Decode, Sound, AsRead;
    var mem := BodyBytes(ts) + beyond;
    WrittenIsLaid(ts, beyond);
    CountAsRead(ts);
    LaidStarts(mem, BodySize(ts), AsReadAll(ts), Cuts(ts), |ts|);
    assert AsReadAll(ts)[..|ts|] == AsReadAll(ts);
    if ExtCount(ts) <= count {
      WrittenLookups(ts, beyond, count, 0, []);
    } else if Decode(mem, BodySize(ts), count).ok {
      DecodeIsTiling(mem, BodySize(ts), count);
      var cuts :| Tiles(mem, BodySize(ts), cuts) && |ExtStarts(mem, cuts[..|cuts| - 1])| <= count;
      TilingIsUnique(mem, BodySize(ts), cuts, Cuts(ts));
    }
  }

  // ------------------------------------------------------------------------- the main results

  /** The rebuilt message decodes again exactly when the header's count, which is not brought up
      to date, still covers the one extended record that was added. */
  lemma RebuiltDecodesIff(mem: Bytes, bodyLen: nat, headerCount: nat, ts: seq<Tlv>, cuts: seq<nat>, table: seq<u32>,
                          spm: SpmData, special: bool, beyond: Bytes)
    requires OldMessage(mem, bodyLen, headerCount, ts, cuts, table) && FlagsHoldTheirCount(ts)
    requires Readable(mem, table) && SpmOk(spm) && |beyond| >= REACH
    requires var d := Derive(mem, table, spm, special);
             Replaced(ts, d)
    ensures var es := Rebuilt(ts, Derive(mem, table, spm, special)).value;
            Decode(BodyBytes(es) + beyond, BodySize(es), headerCount).ok <==> ExtCount(ts) + 1 <= headerCount
  {
    hide Derive, Rebuilt, AllSound, Decode, BodyBytes, BodySize, ExtCount, OldMessage, Readable, FlagsHoldTheirCount;
    var d := Derive(mem, table, spm, special);
    RebuiltIsSound(mem, bodyLen, headerCount, ts, cuts, table, spm, special);
    ExtOfRebuilt(ts, [], d);
    DecodesIffCounted(Rebuilt(ts, d).value, beyond, headerCount);
  }

  /** The table the writer left and the table a decoder makes of the same bytes agree: as far as
      the writer's goes they are equal, and beyond it nothing is set. */
  predicate SameTable(written: seq<u32>, decoded: seq<u32>) {
    && |written| <= |decoded|
    && (forall j :: 0 <= j < |decoded| ==> decoded[j] == if j < |written| then written[j] else INVALID_OFFSET)
  }

  lemma TablesAgree(written: seq<u32>, decoded: seq<u32>, mem: Bytes, starts: seq<nat>, count: nat, headerCount: nat)
    requires IsTableOf(written, mem, starts, count) && IsTableOf(decoded, mem, starts, headerCount)
    requires count <= headerCount && |ExtStarts(mem, starts)| <= count
    ensures SameTable(written, decoded)
  {
  }

  /** The rebuild preserves meaning. Whoever decodes the new message with the old header finds,
      for every standard type and every name: the SPM-derived value of a sensitive one, the new
      id type, and of everything else what the old message held; `TellsInfo` and `TellsExt` say byte by byte
      which values these are. */
  lemma RebuildPreservesMeaning(mem: Bytes, bodyLen: nat, headerCount: nat, ts: seq<Tlv>, cuts: seq<nat>,
                                table: seq<u32>, spm: SpmData, special: bool, beyond: Bytes, written: seq<u32>,
                                kind: nat, name: Bytes)
    requires OldMessage(mem, bodyLen, headerCount, ts, cuts, table) && FlagsHoldTheirCount(ts)
    requires Readable(mem, table) && SpmOk(spm) && |beyond| >= REACH && kind < TLV_MAX && IsText(name)
    requires var d := Derive(mem, table, spm, special);
             Replaced(ts, d)
    requires ExtCount(ts) + 1 <= headerCount
    requires var es := Rebuilt(ts, Derive(mem, table, spm, special)).value;
             IsTableOf(written, BodyBytes(es) + beyond, Cuts(es)[..|es|], ExtCount(es))
    ensures var d := Derive(mem, table, spm, special);
            var es := Rebuilt(ts, d).value;
            var mem', r := BodyBytes(es) + beyond, Decode(BodyBytes(es) + beyond, BodySize(es), headerCount);
            && r.ok && r.count == ExtCount(ts) + 1 && SameTable(written, r.table)
            && EntriesInside(mem', r.table, r.count)
            && InfoIs(mem', r.table, kind, InfoAfter(ts, kind, d))
            && TellsInfo(mem, table, spm, special, kind, InfoAfter(ts, kind, d))
            && ExtInfoIs(mem', r.table, r.count, name, ExtAfter(ts, name, d))
            && TellsExt(spm, name, FirstExt(ts, name), ExtAfter(ts, name, d))
  {
    hide Derive, Rebuilt, Decode, BodyBytes, BodySize, ExtCount, OldMessage, Readable, FlagsHoldTheirCount, InfoIs,
      ExtInfoIs, EntriesInside, InfoAfter, ExtAfter, LastStd, FirstExt, IsTableOf, SameTable, Sound, Encodable, TellsInfo,
      TellsExt;
    LongTable(mem, table);
    InfoTells(mem, bodyLen, headerCount, ts, cuts, table, spm, special, kind);
    DerivedIs(mem, table, spm, special);
    ExtTells(ts, name, spm, Derive(mem, table, spm, special));
    var d := Derive(mem, table, spm, special);
    var es := Rebuilt(ts, d).value;
    RebuiltIsSound(mem, bodyLen, headerCount, ts, cuts, table, spm, special);
    InfoOfRebuilt(ts, kind, d);
    ExtOfRebuilt(ts, name, d);
    WrittenLookups(es, beyond, headerCount, kind, name);
    StartsOfWritten(es, beyond);
    TablesAgree(written, Decode(BodyBytes(es) + beyond, BodySize(es), headerCount).table, BodyBytes(es) + beyond,
                Cuts(es)[..|es|], ExtCount(es), headerCount);
  }

  lemma StartsOfWritten(es: seq<Tlv>, beyond: Bytes)
    requires AllSound(es) && |beyond| >= REACH
    ensures |ExtStarts(BodyBytes(es) + beyond, Cuts(es)[..|es|])| == ExtCount(es)
  {
    hide BodyBytes, BodySize, Sound, AsRead;
    WrittenIsLaid(es, beyond);
    LaidStarts(BodyBytes(es) + beyond, BodySize(es), AsReadAll(es), Cuts(es), |es|);
    assert AsReadAll(es)[..|es|] == AsReadAll(es);
    CountAsRead(es);
  }

  /** ValidateSpmDataConsistency: the token attributes agree, and so does the uid, unless the
      process is an nweb or an isolated one. */
  predicate Consistent(spm: SpmData, tokenidAttr: u32, uid: u32, special: bool) {
    spm.tokenidAttr == tokenidAttr && (spm.uid == uid || special)
  }

  /** The token and the uid a later release looks up are those that were taken: the token record
      is copied, and the uid of the new DAC record is the old one, because a message whose uid
      differs is only rebuilt where the DAC record is copied too. */
  lemma TokenAndUidSurvive(mem: Bytes, table: seq<u32>, ts: seq<Tlv>, spm: SpmData, special: bool, tokenidAttr: u32,
                           uid: u32)
    requires Readable(mem, table) && SpmOk(spm) && Consistent(spm, tokenidAttr, uid, special)
    requires LastStd(ts, TLV_DAC_INFO).Some? && |LastStd(ts, TLV_DAC_INFO).value| >= 4
    requires U32(LastStd(ts, TLV_DAC_INFO).value, 0) == uid
    ensures var d := Derive(mem, table, spm, special);
            && InfoAfter(ts, TLV_ACCESS_TOKEN_INFO, d) == LastStd(ts, TLV_ACCESS_TOKEN_INFO)
            && InfoAfter(ts, TLV_DAC_INFO, d).Some? && |InfoAfter(ts, TLV_DAC_INFO, d).value| >= 4
            && U32(InfoAfter(ts, TLV_DAC_INFO, d).value, 0) == uid
  {
    hide BundlePayload, DomainPayload, OwnerPayload, PermissionPayload, DistributionName, OldDac, OldHapFlags, U32, LE32;
    if !special {
      var p := DacPayload(spm, OldDac(mem, table));
      assert p[0..4] == LE32(spm.uid);
      U32OfLE32(p, 0, spm.uid);
    }
  }
}
