/**
  The rebuild of a decoded message from SPM data: which records the new message gets, and what
  every lookup on it finds.
*/
module Rebuild {
  import opened Bytes
  import opened MsgLayout
  import opened MsgDecode
  import opened Wrappers

  function Ascii(s: string): (b: Bytes)
    ensures |b| == |s|
  {
    seq(|s|, i requires 0 <= i < |s| => s[i] as int % 256)
  }

  const JIT_PERMISSIONS := Ascii("Permissions")
  const APP_DISTRIBUTION_TYPE := Ascii("AppDistributionType")
  const XPM_ID_TYPE := Ascii("XpmIdType")

  const APL_NAME_MAP: seq<string> := ["normal", "normal", "system_basic", "system_core"]
  const DISTRIBUTION_TYPE_MAP: seq<string> :=
    ["none", "app_gallery", "enterprise", "os_integration", "crowdtesting", "enterprise_normal", "enterprise_mdm",
     "internaltesting"]

  /** What the kernel knows about a token; the permission words and the JSON text stand for the
      results of two further queries, which may fail. */
  datatype SpmData = SpmData(tokenidAttr: u32, uid: u32, index: u32, name: Bytes, apl: u32, ownerid: nat, idType: u32,
                             distributionType: u32, granted: Option<seq<u32>>, jitJson: Option<Bytes>)

  function Pow10(k: nat): nat {
    if k == 0 then 1 else 10 * Pow10(k - 1)
  }

  /** `%llu` */
  function Decimal(n: nat): (d: Bytes)
    ensures |d| > 0
  {
    (if n < 10 then [] else Decimal(n / 10)) + [48 + n % 10]
  }

  lemma {:induction false} DecimalLength(n: nat, k: nat)
    requires 0 < k && n < Pow10(k)
    ensures |Decimal(n)| <= k
  {
    if n >= 10 {
      DecimalLength(n / 10, k - 1);
    }
  }

  // ------------------------------------------------------------------------- payloads

  function BundlePayload(spm: SpmData): Bytes {
    LE32(spm.index) + (if |spm.name| >= BUNDLE_NAME_LEN then spm.name[..BUNDLE_NAME_LEN - 1] else spm.name) + [0]
  }

  function DomainPayload(spm: SpmData, hapFlags: u32): Bytes {
    LE32(hapFlags) + Ascii(if spm.apl < |APL_NAME_MAP| then APL_NAME_MAP[spm.apl] else "normal") + [0]
  }

  function OwnerPayload(spm: SpmData): Bytes {
    Decimal(spm.ownerid) + [0]
  }

  function PermissionPayload(words: seq<u32>): Bytes
    requires |words| < 0x1_0000_0000
  {
    Words([|words|] + words)
  }

  /** The old AppDacInfo, or zeros, with the uid of the SPM data. */
  function DacPayload(spm: SpmData, former: Option<Bytes>): (p: Bytes)
    requires former.Some? ==> |former.value| == DAC_INFO_LEN
    ensures |p| == DAC_INFO_LEN
  {
    LE32(spm.uid) + match former case Some(b) => b[4..] case None => Zeros(DAC_INFO_LEN - 4)
  }

  function DistributionName(spm: SpmData): Bytes {
    Ascii(if spm.distributionType < |DISTRIBUTION_TYPE_MAP| then DISTRIBUTION_TYPE_MAP[spm.distributionType] else "none")
  }

  /** The rebuilt payloads; `None` is a query that failed, for DAC a record that is copied. */
  datatype Derived = Derived(bundle: Bytes, dac: Option<Bytes>, domain: Bytes, owner: Bytes, permission: Option<Bytes>,
                             jit: Option<Bytes>, distribution: Bytes, xpm: Bytes)

  // ------------------------------------------------------------------------- records

  /** What becomes of an extended record. */
  function NewExt(t: Tlv, d: Derived): (e: Option<Tlv>)
    requires t.Ext?
    ensures e.Some? ==> e.value.Ext? && e.value.name == t.name
  {
    if t.name == JIT_PERMISSIONS then
      match d.jit case Some(json) => Some(Ext(t.name, json, DATA_TYPE_STRING)) case None => None
    else if t.name == APP_DISTRIBUTION_TYPE then Some(Ext(t.name, d.distribution, DATA_TYPE_STRING))
    else if t.data == [] && t.dataType != DATA_TYPE_STRING then None
    else Some(t)
  }

  /** The record the new message gets for a record of the old one. */
  function NewRecord(ts: seq<Tlv>, t: Tlv, d: Derived): Option<Tlv> {
    match t
    case Std(kind, payload) =>
      if kind == TLV_BUNDLE_INFO then Some(Std(kind, d.bundle))
      else if kind == TLV_DAC_INFO && d.dac.Some? then Some(Std(kind, d.dac.value))
      else if kind == TLV_DOMAIN_INFO then Some(Std(kind, d.domain))
      else if kind == TLV_OWNER_INFO then Some(Std(kind, d.owner))
      else if kind == TLV_PERMISSION then
        if d.permission.Some? then Some(Std(kind, d.permission.value)) else None
      else
        // the offset table leads to the last record of the type
        (match LastStd(ts, kind) case Some(last) => Some(Std(kind, last)) case None => None)
    case Ext(_, _, _) => NewExt(t, d)
  }

  function NewRecords(ts: seq<Tlv>, n: nat, d: Derived): (r: Option<seq<Tlv>>)
    requires n <= |ts|
    ensures r.Some? ==> |r.value| == n
  {
    if n == 0 then Some([])
    else
      match NewRecords(ts, n - 1, d)
      case None => None
      case Some(es) =>
        match NewRecord(ts, ts[n - 1], d)
        case None => None
        case Some(e) => Some(es + [e])
  }

  /** All records of the new message: one for each old one, in order, and the id type. */
  function Rebuilt(ts: seq<Tlv>, d: Derived): Option<seq<Tlv>> {
    match NewRecords(ts, |ts|, d)
    case None => None
    case Some(es) => Some(es + [Ext(XPM_ID_TYPE, d.xpm, 0)])
  }

  // ------------------------------------------------------------------------- lookups

  /** What a standard lookup finds after the rebuild: the SPM-derived payload where there is one,
      otherwise what it found before; a type the old message lacks is still missing. */
  function InfoAfter(ts: seq<Tlv>, kind: nat, d: Derived): Option<Bytes> {
    if LastStd(ts, kind) == None then None
    else if kind == TLV_BUNDLE_INFO then Some(d.bundle)
    else if kind == TLV_DAC_INFO && d.dac.Some? then d.dac
    else if kind == TLV_DOMAIN_INFO then Some(d.domain)
    else if kind == TLV_OWNER_INFO then Some(d.owner)
    else if kind == TLV_PERMISSION then d.permission
    else LastStd(ts, kind)
  }

  /** What a named lookup finds after the rebuild: what has become of the first record of the
      name, or the id type that only the new message has. */
  function ExtAfter(ts: seq<Tlv>, name: Bytes, d: Derived): Option<Tlv> {
    match FirstExt(ts, name)
    case Some(t) => NewExt(t, d)
    case None => if name == XPM_ID_TYPE then Some(Ext(XPM_ID_TYPE, d.xpm, 0)) else None
  }

  lemma LastStdPrefix(ts: seq<Tlv>, n: nat, kind: nat)
    requires n <= |ts| && LastStd(ts[..n], kind).Some?
    ensures LastStd(ts, kind).Some?
    decreases |ts| - n
  {
    if n == |ts| {
      assert ts[..n] == ts;
    } else {
      assert ts[..n + 1][..n] == ts[..n];
      LastStdPrefix(ts, n + 1, kind);
    }
  }

  lemma NewRecordKind(ts: seq<Tlv>, t: Tlv, d: Derived)
    requires NewRecord(ts, t, d).Some?
    ensures var e := NewRecord(ts, t, d).value;
            && e.Std? == t.Std? && (t.Ext? ==> e.name == t.name)
            && (t.Std? ==> e.tlvType == t.tlvType
                           && (LastStd(ts, t.tlvType).Some? ==> InfoAfter(ts, t.tlvType, d) == Some(e.payload)))
  {
    hide LastStd;
  }

  lemma {:induction false} NewRecordsAt(ts: seq<Tlv>, n: nat, d: Derived, i: nat)
    requires n <= |ts| && i < n && NewRecords(ts, n, d).Some?
    ensures NewRecord(ts, ts[i], d) == Some(NewRecords(ts, n, d).value[i])
  {
    hide NewRecord;
    if i < n - 1 {
      NewRecordsAt(ts, n - 1, d, i);
    }
  }

  lemma {:induction false} InfoOfPrefix(ts: seq<Tlv>, n: nat, kind: nat, d: Derived)
    requires n <= |ts| && NewRecords(ts, n, d).Some?
    ensures LastStd(NewRecords(ts, n, d).value, kind) ==
            if LastStd(ts[..n], kind).Some? then InfoAfter(ts, kind, d) else None
  {
    hide NewRecord, InfoAfter;
    if n > 0 {
      var es := NewRecords(ts, n - 1, d).value;
      var e := NewRecord(ts, ts[n - 1], d).value;
      NewRecordKind(ts, ts[n - 1], d);
      InfoOfPrefix(ts, n - 1, kind, d);
      assert (es + [e])[..n - 1] == es && ts[..n][..n - 1] == ts[..n - 1];
      if LastStd(ts[..n], kind).Some? {
        LastStdPrefix(ts, n, kind);
      }
    }
  }

  /** A lookup of a standard type on the new records. */
  lemma InfoOfRebuilt(ts: seq<Tlv>, kind: nat, d: Derived)
    requires Rebuilt(ts, d).Some?
    ensures LastStd(Rebuilt(ts, d).value, kind) == InfoAfter(ts, kind, d)
  {
    var es := NewRecords(ts, |ts|, d).value;
    InfoOfPrefix(ts, |ts|, kind, d);
    assert ts[..|ts|] == ts;
    assert (es + [Ext(XPM_ID_TYPE, d.xpm, 0)])[..|es|] == es;
  }

  lemma {:induction false} ExtOfPrefix(ts: seq<Tlv>, n: nat, name: Bytes, d: Derived)
    requires n <= |ts| && NewRecords(ts, n, d).Some?
    ensures FirstExt(NewRecords(ts, n, d).value, name) ==
            match FirstExt(ts[..n], name) case Some(t) => NewExt(t, d) case None => None
    ensures ExtCount(NewRecords(ts, n, d).value) == ExtCount(ts[..n])
  {
    hide NewExt;
    if n > 0 {
      var es := NewRecords(ts, n - 1, d).value;
      var e := NewRecord(ts, ts[n - 1], d).value;
      NewRecordKind(ts, ts[n - 1], d);
      ExtOfPrefix(ts, n - 1, name, d);
      assert (es + [e])[..n - 1] == es && ts[..n][..n - 1] == ts[..n - 1];
      NewOfFirst(ts[..n - 1], name, n - 1, ts, d);
    }
  }

  /** A record that was first of its name in a buildable list is buildable. */
  lemma NewOfFirst(front: seq<Tlv>, name: Bytes, n: nat, ts: seq<Tlv>, d: Derived)
    requires n <= |ts| && front == ts[..n] && NewRecords(ts, n, d).Some?
    ensures FirstExt(front, name).Some? ==> NewExt(FirstExt(front, name).value, d).Some?
    decreases n
  {
    hide NewExt;
    if n > 0 {
      assert front[..n - 1] == ts[..n - 1];
      NewOfFirst(front[..n - 1], name, n - 1, ts, d);
    }
  }

  /** A lookup by name on the new records, and how many extended ones there are. */
  lemma ExtOfRebuilt(ts: seq<Tlv>, name: Bytes, d: Derived)
    requires Rebuilt(ts, d).Some?
    ensures FirstExt(Rebuilt(ts, d).value, name) == ExtAfter(ts, name, d)
    ensures ExtCount(Rebuilt(ts, d).value) == ExtCount(ts) + 1
  {
    var es := NewRecords(ts, |ts|, d).value;
    ExtOfPrefix(ts, |ts|, name, d);
    assert ts[..|ts|] == ts;
    NewOfFirst(ts, name, |ts|, ts, d);
    assert (es + [Ext(XPM_ID_TYPE, d.xpm, 0)])[..|es|] == es;
  }

  /** The rebuild fails exactly when the message has a permission record, a JIT record or an empty
      binary record that cannot be built. */
  predicate Unbuildable(t: Tlv, d: Derived) {
    || (t.Std? && t.tlvType == TLV_PERMISSION && d.permission == None)
    || (t.Ext? && t.name == JIT_PERMISSIONS && d.jit == None)
    || (t.Ext? && t.name != JIT_PERMISSIONS && t.name != APP_DISTRIBUTION_TYPE && t.data == []
        && t.dataType != DATA_TYPE_STRING)
  }

  lemma {:induction false} LastStdOfMember(ts: seq<Tlv>, i: nat)
    requires i < |ts| && ts[i].Std?
    ensures LastStd(ts, ts[i].tlvType).Some?
    decreases |ts|
  {
    if i < |ts| - 1 {
      LastStdOfMember(ts[..|ts| - 1], i);
    }
  }

  lemma {:induction false} LastIsMember(ts: seq<Tlv>, kind: nat) returns (i: nat)
    requires LastStd(ts, kind).Some?
    ensures i < |ts| && ts[i] == Std(kind, LastStd(ts, kind).value)
    decreases |ts|
  {
    var n := |ts| - 1;
    if ts[n].Std? && ts[n].tlvType == kind {
      i := n;
    } else {
      i := LastIsMember(ts[..n], kind);
    }
  }

  lemma {:induction false} BuildsPrefix(ts: seq<Tlv>, n: nat, d: Derived)
    requires n <= |ts|
    ensures NewRecords(ts, n, d).Some? <==> forall i :: 0 <= i < n ==> !Unbuildable(ts[i], d)
  {
    if n > 0 {
      BuildsPrefix(ts, n - 1, d);
      if ts[n - 1].Std? {
        LastStdOfMember(ts, n - 1);
      }
      assert NewRecord(ts, ts[n - 1], d).Some? <==> !Unbuildable(ts[n - 1], d);
    }
  }

  lemma RebuiltExactly(ts: seq<Tlv>, d: Derived)
    ensures Rebuilt(ts, d).Some? <==> forall i :: 0 <= i < |ts| ==> !Unbuildable(ts[i], d)
  {
    BuildsPrefix(ts, |ts|, d);
  }
}
