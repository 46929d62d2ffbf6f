/**
  What a lookup should find after the rebuild, told byte by byte from the SPM data and the old
  message: no function the rebuild computes with is named here but the lookups themselves.
*/
module RebuiltValues {
  import opened Bytes
  import opened MsgDecode
  import opened MsgLayout
  import opened Rebuild
  import opened Wrappers

  // ------------------------------------------------------------------------- texts and numbers

  /** Bytes that spell a string. */
  predicate Spells(b: Bytes, s: string) {
    |b| == |s| && forall i :: 0 <= i < |s| ==> b[i] == s[i] as int
  }

  /** A string with its terminator, from `at` to the end. */
  predicate EndsWith(p: Bytes, at: nat, s: string) {
    at + |s| + 1 == |p| && Spells(p[at..at + |s|], s) && p[at + |s|] == 0
  }

  /** The value of decimal digits, read from the left. */
  function ValueOf(digits: Bytes): int {
    if digits == [] then 0
    else
      var last: int := digits[|digits| - 1];
      10 * ValueOf(digits[..|digits| - 1]) + last - 48
  }

  /** A terminated decimal number without leading zeros. */
  predicate Writes(p: Bytes, n: nat) {
    && 2 <= |p| && p[|p| - 1] == 0 && (forall i :: 0 <= i < |p| - 1 ==> 48 <= p[i] <= 57)
    && ValueOf(p[..|p| - 1]) == n && (2 < |p| ==> p[0] != 48)
  }

  // ------------------------------------------------------------------------- what is found

  /** The payload of the record at an address of the old message. */
  predicate Copied(mem: Bytes, at: nat, p: Bytes) {
    at + 4 <= |mem| && 4 <= U16(mem, at) && at + U16(mem, at) <= |mem| && p == mem[at + 4..at + U16(mem, at)]
  }

  /** What the lookup of a standard type finds after the rebuild: something exactly if it did before, and
      - bundle (0): index and name of the SPM data, of the name no more than 255 bytes, and a terminator;
      - DAC (2): the uid of the SPM data, and then what the old record holds behind its uid, group ids
        and all; the old record of a special process;
      - domain (3): the flags of the old record, and the name of the APL;
      - owner (4): the owner id in decimal;
      - permission (6): how many words there are, and the granted words;
      - of any other type the old payload. */
  ghost predicate TellsInfo(mem: Bytes, table: seq<u32>, spm: SpmData, special: bool, kind: nat, found: Option<Bytes>)
    requires kind < |table|
  {
    && (found.Some? <==> table[kind] != 0xFFFF_FFFF)
    && (found.Some? ==>
          var at, p := table[kind], found.value;
          match kind
          case 0 =>
            var n := if |spm.name| < 256 then |spm.name| else 255;
            && |p| == 4 + n + 1 && U32(p, 0) == spm.index && p[4..4 + n] == spm.name[..n] && p[4 + n] == 0
          case 2 =>
            if special then Copied(mem, at, p)
            else at + 336 <= |mem| && |p| == 332 && U32(p, 0) == spm.uid && p[4..332] == mem[at + 8..at + 336]
          case 3 =>
            && at + 8 <= |mem| && 4 <= |p| && U32(p, 0) == U32(mem, at + 4)
            && EndsWith(p, 4, if spm.apl == 2 then "system_basic" else if spm.apl == 3 then "system_core" else "normal")
          case 4 => Writes(p, spm.ownerid)
          case 6 =>
            && spm.granted.Some? && |p| == 4 + 4 * |spm.granted.value| && U32(p, 0) == |spm.granted.value|
            && forall i :: 0 <= i < |spm.granted.value| ==> U32(p, 4 + 4 * i) == spm.granted.value[i]
          case _ => Copied(mem, at, p))
  }

  function DistributionText(distributionType: int): string {
    match distributionType
    case 1 => "app_gallery"
    case 2 => "enterprise"
    case 3 => "os_integration"
    case 4 => "crowdtesting"
    case 5 => "enterprise_normal"
    case 6 => "enterprise_mdm"
    case 7 => "internaltesting"
    case _ => "none"
  }

  /** What the lookup of a name finds after the rebuild, `former` being what it found before: for Permissions the text
      built from the granted permissions, for AppDistributionType the name of the type, for XpmIdType, unless the
      client had sent one, the four bytes of the id type; and of any other name the old record. */
  predicate TellsExt(spm: SpmData, name: Bytes, former: Option<Tlv>, found: Option<Tlv>) {
    if Spells(name, "Permissions") then
      if former.None? then found.None? else spm.jitJson.Some? && found == Some(Ext(name, spm.jitJson.value, 1))
    else if Spells(name, "AppDistributionType") then
      if former.None? then found.None?
      else
        && found.Some? && found.value.Ext? && found.value.name == name && found.value.dataType == 1
        && Spells(found.value.data, DistributionText(spm.distributionType))
    else if Spells(name, "XpmIdType") && former.None? then
      && found.Some? && found.value.Ext? && found.value.name == name && found.value.dataType == 0
      && |found.value.data| == 4 && U32(found.value.data, 0) == spm.idType
    else found == former
  }

  /** Which record cannot be built: one of permissions that could not be queried, binary or as text; and one of
      another name that is binary and has no data. */
  predicate Blocks(spm: SpmData, t: Tlv) {
    match t
    case Std(kind, _) => kind == 6 && spm.granted.None?
    case Ext(name, data, dataType) =>
      if Spells(name, "Permissions") then spm.jitJson.None?
      else !Spells(name, "AppDistributionType") && data == [] && dataType != 1
  }

  // ------------------------------------------------------------------------- the payloads tell it

  lemma SpellsAscii(b: Bytes, s: string)
    requires forall i :: 0 <= i < |s| ==> s[i] as int < 256
    ensures Spells(b, s) <==> b == Ascii(s)
  {
  }

  lemma NamesSpelt(name: Bytes)
    ensures Spells(name, "Permissions") <==> name == JIT_PERMISSIONS
    ensures Spells(name, "AppDistributionType") <==> name == APP_DISTRIBUTION_TYPE
    ensures Spells(name, "XpmIdType") <==> name == XPM_ID_TYPE
  {
    SpellsAscii(name, "Permissions");
    SpellsAscii(name, "AppDistributionType");
    SpellsAscii(name, "XpmIdType");
  }

  lemma BundleTells(spm: SpmData)
    ensures var p, n := BundlePayload(spm), if |spm.name| < 256 then |spm.name| else 255;
            |p| == 4 + n + 1 && U32(p, 0) == spm.index && p[4..4 + n] == spm.name[..n] && p[4 + n] == 0
  {
    hide LE32;
    var p := BundlePayload(spm);
    assert p[0..4] == LE32(spm.index);
    U32OfLE32(p, 0, spm.index);
  }

  lemma DacTells(spm: SpmData, former: Bytes)
    requires |former| == 332
    ensures var p := DacPayload(spm, Some(former)); U32(p, 0) == spm.uid && p[4..332] == former[4..332]
  {
    hide LE32;
    var p := DacPayload(spm, Some(former));
    assert p[0..4] == LE32(spm.uid);
    U32OfLE32(p, 0, spm.uid);
  }

  lemma DomainTells(spm: SpmData, hapFlags: u32)
    ensures var p := DomainPayload(spm, hapFlags);
            && 4 <= |p| && U32(p, 0) == hapFlags
            && EndsWith(p, 4, if spm.apl == 2 then "system_basic" else if spm.apl == 3 then "system_core" else "normal")
  {
    hide LE32;
    var p := DomainPayload(spm, hapFlags);
    assert p[0..4] == LE32(hapFlags);
    U32OfLE32(p, 0, hapFlags);
    var s := if spm.apl == 2 then "system_basic" else if spm.apl == 3 then "system_core" else "normal";
    assert s == if spm.apl < |APL_NAME_MAP| then APL_NAME_MAP[spm.apl] else "normal";
    assert p[4..4 + |s|] == Ascii(s);
    SpellsAscii(p[4..4 + |s|], s);
  }

  predicate Digits(d: Bytes) {
    d != [] && forall i :: 0 <= i < |d| ==> 48 <= d[i] <= 57
  }

  lemma LastDigit(digits: Bytes)
    requires digits != []
    ensures var last: int := digits[|digits| - 1]; ValueOf(digits) == 10 * ValueOf(digits[..|digits| - 1]) + last - 48
  {
  }

  lemma OneDigitMore(front: Bytes, digit: byte)
    requires 48 <= digit <= 57
    ensures var last: int := digit; ValueOf(front + [digit]) == 10 * ValueOf(front) + last - 48
    ensures front == [] || Digits(front) ==> Digits(front + [digit])
  {
    hide ValueOf;
    LastDigit(front + [digit]);
    assert (front + [digit])[..|front|] == front;
  }

  lemma DecimalIs(n: nat)
    ensures Decimal(n) == (if n < 10 then [] else Decimal(n / 10)) + [48 + n % 10]
  {
  }

  /** Decimal digits read back. */
  lemma {:induction false} DigitsTell(n: nat)
    ensures Digits(Decimal(n)) && ValueOf(Decimal(n)) == n && (0 < n ==> Decimal(n)[0] != 48)
    ensures |Decimal(n)| == 1 <==> n < 10
    decreases n
  {
    hide Decimal, ValueOf, Digits;
    DecimalIs(n);
    if n < 10 {
      OneDigitMore([], 48 + n);
      assert [] + [48 + n] == [48 + n];
      assert ValueOf([]) == 0 by { NoDigits(); }
    } else {
      DigitsTell(n / 10);
      OneDigitMore(Decimal(n / 10), 48 + n % 10);
    }
  }

  lemma NoDigits()
    ensures ValueOf([]) == 0
  {
  }

  lemma OwnerTells(spm: SpmData)
    ensures Writes(OwnerPayload(spm), spm.ownerid)
  {
    hide Decimal, ValueOf;
    DigitsTell(spm.ownerid);
    var p := OwnerPayload(spm);
    assert p[..|p| - 1] == Decimal(spm.ownerid);
  }

  lemma PermissionTells(words: seq<u32>)
    requires |words| < 0x1_0000_0000
    ensures var p := PermissionPayload(words);
            && |p| == 4 + 4 * |words| && U32(p, 0) == |words|
            && forall i :: 0 <= i < |words| ==> U32(p, 4 + 4 * i) == words[i]
  {
    var all := [|words|] + words;
    forall k | 0 <= k < |all|
      ensures U32(Words(all), 4 * k) == all[k]
    {
      WordsAt(all, k);
      U32OfLE32(Words(all), 4 * k, all[k]);
    }
    forall i | 0 <= i < |words|
      ensures U32(PermissionPayload(words), 4 + 4 * i) == words[i]
    {
      assert all[i + 1] == words[i];
    }
    assert all[0] == |words|;
  }

  lemma DistributionTells(spm: SpmData)
    ensures Spells(DistributionName(spm), DistributionText(spm.distributionType))
  {
    var s := DistributionText(spm.distributionType);
    assert s == if spm.distributionType < |DISTRIBUTION_TYPE_MAP| then DISTRIBUTION_TYPE_MAP[spm.distributionType] else "none";
    SpellsAscii(Ascii(s), s);
  }

  /** What a lookup by name finds. */
  lemma ExtTells(ts: seq<Tlv>, name: Bytes, spm: SpmData, d: Derived)
    requires d.jit == spm.jitJson && d.distribution == DistributionName(spm) && d.xpm == LE32(spm.idType)
    requires Rebuilt(ts, d).Some?
    ensures TellsExt(spm, name, FirstExt(ts, name), FirstExt(Rebuilt(ts, d).value, name))
  {
    hide Rebuilt, FirstExt, DistributionName, Spells, LE32;
    ExtOfRebuilt(ts, name, d);
    NamesSpelt(name);
    DistributionTells(spm);
    assert LE32(spm.idType)[0..4] == LE32(spm.idType);
    U32OfLE32(LE32(spm.idType), 0, spm.idType);
    if FirstExt(ts, name).Some? {
      FirstIsBuilt(ts, name, d);
    }
  }

  /** The first record of a name has become one. */
  lemma FirstIsBuilt(ts: seq<Tlv>, name: Bytes, d: Derived)
    requires Rebuilt(ts, d).Some? && FirstExt(ts, name).Some?
    ensures NewExt(FirstExt(ts, name).value, d).Some?
  {
    assert ts[..|ts|] == ts;
    NewOfFirst(ts, name, |ts|, ts, d);
  }

  /** When all records can be built. */
  lemma BuildsUnlessBlocked(ts: seq<Tlv>, spm: SpmData, d: Derived)
    requires d.jit == spm.jitJson && (d.permission.None? <==> spm.granted.None?)
    ensures Rebuilt(ts, d).Some? <==> forall i :: 0 <= i < |ts| ==> !Blocks(spm, ts[i])
  {
    hide Rebuilt, Spells;
    RebuiltExactly(ts, d);
    forall i | 0 <= i < |ts|
      ensures Blocks(spm, ts[i]) <==> Unbuildable(ts[i], d)
    {
      if ts[i].Ext? {
        NamesSpelt(ts[i].name);
      }
    }
  }
}
