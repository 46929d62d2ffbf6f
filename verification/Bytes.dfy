/** Bytes, little-endian integers inside byte sequences, and C strings. */
module Bytes {

  type byte = x: int | 0 <= x < 256
  type u16 = x: int | 0 <= x < 0x1_0000
  type u32 = x: int | 0 <= x < 0x1_0000_0000
  type Bytes = seq<byte>

  /** `memset(…, 0, n)` */
  function Zeros(n: nat): (z: Bytes)
    ensures |z| == n
    ensures forall i :: 0 <= i < n ==> z[i] == 0
  {
    seq(n, _ => 0)
  }

  /** APPSPAWN_ALIGN: the next multiple of four. */
  function Align4(n: nat): (r: nat)
    ensures n <= r < n + 4 && r % 4 == 0
  {
    (n + 3) / 4 * 4
  }

  /** A payload followed by the zero bytes that take it to a multiple of four. */
  function Padded(data: Bytes): (r: Bytes)
    ensures |r| == Align4(|data|)
    ensures data <= r
  {
    data + Zeros(Align4(|data|) - |data|)
  }

  lemma PaddedAligned(data: Bytes)
    requires |data| % 4 == 0
    ensures Align4(|data|) == |data| && Padded(data) == data
  {
  }

  function LE16(n: u16): (r: Bytes)
    ensures |r| == 2
  {
    [n % 256, n / 256]
  }

  function LE32(n: u32): (r: Bytes)
    ensures |r| == 4
  {
    [n % 256, n / 256 % 256, n / 0x1_0000 % 256, n / 0x100_0000]
  }

  function U16(b: Bytes, at: nat): u16
    requires at + 2 <= |b|
  {
    var lo: int, hi: int := b[at], b[at + 1];
    lo + 256 * hi
  }

  function U32(b: Bytes, at: nat): u32
    requires at + 4 <= |b|
  {
    var b0: int, b1: int, b2: int, b3: int := b[at], b[at + 1], b[at + 2], b[at + 3];
    b0 + 256 * b1 + 0x1_0000 * b2 + 0x100_0000 * b3
  }

  /** Overwrites four bytes: the store through a `uint32_t *`. */
  function PutU32(b: Bytes, at: nat, n: u32): (r: Bytes)
    requires at + 4 <= |b|
    ensures |r| == |b|
    ensures forall i :: 0 <= i < |b| && !(at <= i < at + 4) ==> r[i] == b[i]
  {
    b[at := LE32(n)[0]][at + 1 := LE32(n)[1]][at + 2 := LE32(n)[2]][at + 3 := LE32(n)[3]]
  }

  lemma PutInPrefix(a: Bytes, b: Bytes, at: nat, n: u32)
    requires at + 4 <= |a|
    ensures PutU32(a + b, at, n) == PutU32(a, at, n) + b
  {
  }

  lemma PutInSuffix(a: Bytes, b: Bytes, at: nat, n: u32)
    requires at + 4 <= |b|
    ensures PutU32(a + b, |a| + at, n) == a + PutU32(b, at, n)
  {
  }

  lemma PutBetween(a: Bytes, w: Bytes, c: Bytes, n: u32)
    requires |w| == 4
    ensures PutU32(a + w + c, |a|, n) == a + LE32(n) + c
  {
  }

  /** Little-endian words one after another. */
  function Words(ws: seq<u32>): (r: Bytes)
    ensures |r| == 4 * |ws|
  {
    if ws == [] then [] else LE32(ws[0]) + Words(ws[1..])
  }

  lemma {:induction false} WordsAt(ws: seq<u32>, k: nat)
    requires k < |ws|
    ensures 4 * k + 4 <= |Words(ws)| && Words(ws)[4 * k..4 * k + 4] == LE32(ws[k])
  {
    if k > 0 {
      WordsAt(ws[1..], k - 1);
      SliceLater(LE32(ws[0]), Words(ws[1..]), 4 * (k - 1), 4 * (k - 1) + 4);
    }
  }

  lemma {:induction false} WordsPut(ws: seq<u32>, k: nat, w: u32)
    requires k < |ws|
    ensures PutU32(Words(ws), 4 * k, w) == Words(ws[k := w])
  {
    if k == 0 {
      assert ws[0 := w][1..] == ws[1..];
      PutBetween([], LE32(ws[0]), Words(ws[1..]), w);
      assert [] + LE32(ws[0]) + Words(ws[1..]) == Words(ws);
      assert [] + LE32(w) + Words(ws[1..]) == Words(ws[0 := w]);
    } else {
      WordsPut(ws[1..], k - 1, w);
      assert ws[k := w][1..] == ws[1..][k - 1 := w];
      PutInSuffix(LE32(ws[0]), Words(ws[1..]), 4 * (k - 1), w);
    }
  }

  lemma U16OfLE16(b: Bytes, at: nat, n: u16)
    requires at + 2 <= |b| && b[at..at + 2] == LE16(n)
    ensures U16(b, at) == n
  {
    assert b[at] == b[at..at + 2][0] && b[at + 1] == b[at..at + 2][1];
  }

  lemma U32OfLE32(b: Bytes, at: nat, n: u32)
    requires at + 4 <= |b| && b[at..at + 4] == LE32(n)
    ensures U32(b, at) == n
  {
    var w := b[at..at + 4];
    assert b[at] == w[0] && b[at + 1] == w[1] && b[at + 2] == w[2] && b[at + 3] == w[3];
    FourDigits(n);
  }

  lemma FourDigits(n: u32)
    ensures n % 256 + 256 * (n / 256 % 256) + 0x1_0000 * (n / 0x1_0000 % 256) + 0x100_0000 * (n / 0x100_0000) == n as int
  {
    var q := n / 256;
    var r := q / 256;
    assert r == n / 0x1_0000;
    assert r / 256 == n / 0x100_0000;
  }

  /** Reading inside a part of a sequence is reading the part. */
  lemma U16Inside(b: Bytes, from: nat, part: Bytes, at: nat)
    requires from + |part| <= |b| && b[from..from + |part|] == part && at + 2 <= |part|
    ensures U16(b, from + at) == U16(part, at)
  {
    assert b[from..from + |part|][at] == b[from + at];
    assert b[from..from + |part|][at + 1] == b[from + at + 1];
  }

  lemma U32Inside(b: Bytes, from: nat, part: Bytes, at: nat)
    requires from + |part| <= |b| && b[from..from + |part|] == part && at + 4 <= |part|
    ensures U32(b, from + at) == U32(part, at)
  {
    assert b[from..from + |part|][at] == b[from + at];
    assert b[from..from + |part|][at + 1] == b[from + at + 1];
    assert b[from..from + |part|][at + 2] == b[from + at + 2];
    assert b[from..from + |part|][at + 3] == b[from + at + 3];
  }

  lemma SliceOfSlice(b: Bytes, from: nat, part: Bytes, lo: nat, hi: nat)
    requires from + |part| <= |b| && b[from..from + |part|] == part && lo <= hi <= |part|
    ensures b[from + lo..from + hi] == part[lo..hi]
  {
    forall k | 0 <= k < hi - lo
      ensures b[from + lo..from + hi][k] == part[lo..hi][k]
    {
      assert b[from..from + |part|][lo + k] == part[lo + k];
    }
  }

  lemma SliceLater(a: Bytes, b: Bytes, lo: nat, hi: nat)
    requires lo <= hi <= |b|
    ensures (a + b)[|a| + lo..|a| + hi] == b[lo..hi]
  {
  }

  lemma Associate(a: Bytes, b: Bytes, c: Bytes)
    ensures a + (b + c) == a + b + c
  {
  }

  function Concat(parts: seq<Bytes>): Bytes {
    if parts == [] then [] else parts[0] + Concat(parts[1..])
  }

  lemma {:induction false} ConcatLast(parts: seq<Bytes>, more: Bytes)
    requires parts != []
    ensures Concat(parts[|parts| - 1 := parts[|parts| - 1] + more]) == Concat(parts) + more
    decreases |parts|
  {
    var longer := parts[|parts| - 1 := parts[|parts| - 1] + more];
    if |parts| == 1 {
      assert longer[1..] == parts[1..] == [];
    } else {
      ConcatLast(parts[1..], more);
      assert longer[1..] == parts[1..][|parts| - 2 := parts[1..][|parts| - 2] + more];
      assert parts[0] + (Concat(parts[1..]) + more) == parts[0] + Concat(parts[1..]) + more;
    }
  }

  lemma {:induction false} ConcatEmpty(parts: seq<Bytes>)
    ensures Concat(parts + [[]]) == Concat(parts)
    decreases |parts|
  {
    if parts == [] {
      assert Concat((parts + [[]])[1..]) == [];
    } else {
      ConcatEmpty(parts[1..]);
      assert (parts + [[]])[1..] == parts[1..] + [[]];
    }
  }

  /** `memcpy(dst + at, src, |src|)` */
  method MemCpy(dst: array<byte>, at: nat, src: Bytes)
    requires at + |src| <= dst.Length
    modifies dst
    ensures dst[..] == old(dst[..])[..at] + src + old(dst[..])[at + |src|..]
  {
    ghost var was := dst[..];
    for i := 0 to |src|
      invariant dst[..] == was[..at] + src[..i] + was[at + i..]
    {
      dst[at + i] := src[i];
    }
  }

  /** The store through a `uint32_t *`. */
  method StoreU32(dst: array<byte>, at: nat, n: u32)
    requires at + 4 <= dst.Length
    modifies dst
    ensures dst[..] == PutU32(old(dst[..]), at, n)
  {
    var w := LE32(n);
    dst[at], dst[at + 1], dst[at + 2], dst[at + 3] := w[0], w[1], w[2], w[3];
  }

  // ------------------------------------------------------------------------- C strings

  /** Text a `char *` can carry: no byte is zero. */
  predicate IsText(s: Bytes) {
    forall i :: 0 <= i < |s| ==> s[i] != 0
  }

  /** The sign of `strcmp` on two texts: bytes compared as unsigned, the shorter first. */
  function StrCmp(a: Bytes, b: Bytes): (r: int)
    ensures -1 <= r <= 1
    ensures r == 0 <==> a == b
  {
    if a == [] then if b == [] then 0 else -1
    else if b == [] then 1
    else if a[0] < b[0] then -1
    else if a[0] > b[0] then 1
    else
      assert a == [a[0]] + a[1..] && b == [b[0]] + b[1..];
      StrCmp(a[1..], b[1..])
  }

  lemma {:induction false} StrCmpAntisymmetric(a: Bytes, b: Bytes)
    ensures StrCmp(a, b) == -StrCmp(b, a)
    decreases |a|
  {
    if a != [] && b != [] && a[0] == b[0] {
      StrCmpAntisymmetric(a[1..], b[1..]);
    }
  }

  /** The first difference is at `i`, and `a` has the smaller byte there. */
  predicate SmallerAt(a: Bytes, b: Bytes, i: nat) {
    i < |a| && i < |b| && a[i] < b[i] && a[..i] == b[..i]
  }

  /** One text comes before another if it is the beginning of it, or smaller where they first differ. */
  lemma {:induction false} StrCmpIs(a: Bytes, b: Bytes)
    ensures StrCmp(a, b) < 0 <==> a < b || exists i :: SmallerAt(a, b, i)
    decreases |a|
  {
    if a != [] && b != [] {
      if a[0] == b[0] {
        StrCmpIs(a[1..], b[1..]);
        OneFurther(a, b);
      } else {
        assert SmallerAt(a, b, 0) <==> a[0] < b[0];
        assert forall i :: 0 < i < |a| && i < |b| ==> a[..i][0] != b[..i][0];
      }
    }
  }

  lemma OneFurther(a: Bytes, b: Bytes)
    requires a != [] && b != [] && a[0] == b[0]
    ensures a < b <==> a[1..] < b[1..]
    ensures (exists i :: SmallerAt(a, b, i)) <==> exists i :: SmallerAt(a[1..], b[1..], i)
  {
    forall i: nat | SmallerAt(a, b, i)
      ensures 0 < i && SmallerAt(a[1..], b[1..], i - 1)
    {
      assert a[..i][1..] == a[1..][..i - 1] && b[..i][1..] == b[1..][..i - 1];
    }
    forall i: nat | SmallerAt(a[1..], b[1..], i)
      ensures SmallerAt(a, b, i + 1)
    {
      assert a[..i + 1] == [a[0]] + a[1..][..i] && b[..i + 1] == [b[0]] + b[1..][..i];
    }
  }

  lemma {:induction false} StrCmpTransitive(a: Bytes, b: Bytes, c: Bytes)
    requires StrCmp(a, b) < 0 && StrCmp(b, c) < 0
    ensures StrCmp(a, c) < 0
    decreases |a|
  {
    if a != [] && b != [] && c != [] && a[0] == b[0] == c[0] {
      StrCmpTransitive(a[1..], b[1..], c[1..]);
    }
  }

  /** `strcmp(mem + at, text) == 0`: the text and its terminator stand at that address. */
  predicate TextAt(mem: Bytes, at: nat, text: Bytes) {
    at + |text| + 1 <= |mem| && mem[at..at + |text| + 1] == text + [0]
  }
}
