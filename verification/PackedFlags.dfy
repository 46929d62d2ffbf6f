/**
  Flag sets packed into 32-bit words: the client's message flags and permission bits, the
  server's test and in-place update, and the recomputation from the kernel's bitmap.

  `flags[i] |= (1 << k)` and `(flags[i] >> k) & 1` are written on the binary digits of a word.
  */
module PackedFlags {
  import opened Bytes
  import opened Permission

  const WORD_BITS := 32
  const OPCODE_INVALID: u32 := 0xFFFF_FFFF

  /** `((w >> k) & 0x1) == 0x1` */
  predicate TestBit(w: nat, k: nat) {
    if k == 0 then w % 2 == 1 else TestBit(w / 2, k - 1)
  }

  /** `w | (1 << k)` */
  function OrBit(w: nat, k: nat): nat {
    if k == 0 then (if w % 2 == 1 then w else w + 1) else 2 * OrBit(w / 2, k - 1) + w % 2
  }

  function Pow2(n: nat): nat {
    if n == 0 then 1 else 2 * Pow2(n - 1)
  }

  lemma {:induction false} TestOrBit(w: nat, k: nat, j: nat)
    ensures TestBit(OrBit(w, k), j) <==> j == k || TestBit(w, j)
  {
    if k > 0 {
      assert OrBit(w, k) / 2 == OrBit(w / 2, k - 1) && OrBit(w, k) % 2 == w % 2;
      if j > 0 {
        TestOrBit(w / 2, k - 1, j - 1);
      }
    } else if j > 0 {
      assert OrBit(w, 0) / 2 == w / 2;
    }
  }

  lemma {:induction false} OrBitFits(w: nat, k: nat, bits: nat)
    requires k < bits && w < Pow2(bits)
    ensures w <= OrBit(w, k) < Pow2(bits)
  {
    if k > 0 {
      OrBitFits(w / 2, k - 1, bits - 1);
    }
  }

  function OrWord(w: u32, k: nat): u32
    requires k < WORD_BITS
  {
    assert Pow2(32) == 0x1_0000_0000 by {
      assert Pow2(8) == 256;
      assert Pow2(16) == 0x1_0000;
      assert Pow2(24) == 0x100_0000;
    }
    OrBitFits(w, k, 32);
    OrBit(w, k)
  }

  /** CheckAppSpawnMsgFlagsSet: an index beyond the words reads as clear. */
  predicate Has(words: seq<u32>, index: nat) {
    index / WORD_BITS < |words| && TestBit(words[index / WORD_BITS], index % WORD_BITS)
  }

  /** SetAppSpawnMsgFlags and SetSpawnMsgFlags: an index beyond the words is dropped. */
  function With(words: seq<u32>, index: nat): (r: seq<u32>)
    ensures |r| == |words|
  {
    var block := index / WORD_BITS;
    if block < |words| then words[block := OrWord(words[block], index % WORD_BITS)] else words
  }

  /** CalcFlagsUnits */
  function CalcFlagsUnits(maxIndex: nat): nat {
    maxIndex / WORD_BITS + if maxIndex % WORD_BITS == 0 then 0 else 1
  }

  /** The words are exactly a set: setting an index adds it alone, unless there is no word for
      it, and then nothing changes. */
  lemma WithAddsOne(words: seq<u32>, index: nat, other: nat)
    ensures Has(With(words, index), other) <==>
            Has(words, other) || (other == index && index / WORD_BITS < |words|)
  {
    if index / WORD_BITS == other / WORD_BITS && index / WORD_BITS < |words| {
      TestOrBit(words[index / WORD_BITS], index % WORD_BITS, other % WORD_BITS);
    }
  }

  lemma {:induction false} ZeroHasNoBits(k: nat)
    ensures !TestBit(0, k)
  {
    if k > 0 { ZeroHasNoBits(k - 1); }
  }

  function WithAll(words: seq<u32>, indexes: seq<nat>): (r: seq<u32>)
    ensures |r| == |words|
  {
    if indexes == [] then words else With(WithAll(words, indexes[..|indexes| - 1]), indexes[|indexes| - 1])
  }

  /** With one word per 32 indices no index below the maximum is dropped: after any run of
      sets, in any order, the server's test answers true for exactly the indices set. */
  lemma {:induction false} ServerSeesWhatClientSet(maxIndex: nat, indexes: seq<nat>, index: nat)
    requires forall i :: 0 <= i < |indexes| ==> indexes[i] < maxIndex
    ensures Has(WithAll(seq(CalcFlagsUnits(maxIndex), _ => 0), indexes), index) <==> index in indexes
    decreases |indexes|
  {
    var zeros := seq(CalcFlagsUnits(maxIndex), _ => 0);
    if indexes == [] {
      ZeroHasNoBits(index % WORD_BITS);
    } else {
      var n := |indexes| - 1;
      ServerSeesWhatClientSet(maxIndex, indexes[..n], index);
      WithAddsOne(WithAll(zeros, indexes[..n]), indexes[n], index);
      assert indexes == indexes[..n] + [indexes[n]];
    }
  }

  // ------------------------------------------------- permission flags from the kernel bitmap

  /** A permission the kernel grants: its opcode is a bit of the bitmap. */
  predicate Granted(node: Node, perms: seq<u32>) {
    node.opcode != OPCODE_INVALID && Has(perms, node.opcode)
  }

  /** The flag words after the first nodes of the queue have been looked at. */
  function GrantAll(nodes: seq<Node>, perms: seq<u32>, words: seq<u32>): (r: seq<u32>)
    ensures |r| == |words|
  {
    if nodes == [] then words
    else
      var n := |nodes| - 1;
      var before := GrantAll(nodes[..n], perms, words);
      if Granted(nodes[n], perms) then With(before, nodes[n].permissionIndex % 0x1_0000_0000) else before
  }

  /** `flagIndexes` may be longer than the `flagCount` words in use. */
  method GetSpawnFlagIndexesFromPermissionBitmap(queue: SandboxQueue, perms: seq<u32>,
                                                 flagIndexes: array<u32>, flagCount: nat)
    returns (ret: int)
    requires flagCount <= flagIndexes.Length
    modifies flagIndexes
    ensures ret == if flagCount > 0 then 0 else -1
    ensures flagIndexes[..flagCount] == GrantAll(queue.nodes, perms, old(flagIndexes[..flagCount]))
            || (flagCount == 0 && flagIndexes[..] == old(flagIndexes[..]))
    ensures flagIndexes[flagCount..] == old(flagIndexes[flagCount..])
  {
    if flagCount == 0 {
      return -1;
    }
    var nodes := queue.nodes;
    var i := 0;
    assert nodes[..0] == [];
    while i < |nodes|
      invariant 0 <= i <= |nodes|
      invariant flagIndexes[..flagCount] == GrantAll(nodes[..i], perms, old(flagIndexes[..flagCount]))
      invariant flagIndexes[flagCount..] == old(flagIndexes[flagCount..])
    {
      var node := nodes[i];
      assert nodes[..i + 1][..i] == nodes[..i];
      ghost var before := flagIndexes[..flagCount];
      if node.opcode != OPCODE_INVALID {
        var bitmapIndex, bitIndex := node.opcode / WORD_BITS, node.opcode % WORD_BITS;
        if bitmapIndex < |perms| && TestBit(perms[bitmapIndex], bitIndex) {
          var index := node.permissionIndex % 0x1_0000_0000;
          var wordIdx, bitIdx := index / WORD_BITS, index % WORD_BITS;
          if wordIdx < flagCount {
            assert flagIndexes[wordIdx] == before[wordIdx];
            flagIndexes[wordIdx] := OrWord(flagIndexes[wordIdx], bitIdx);
          }
          assert flagIndexes[..flagCount] == With(before, index);
        }
      }
      i := i + 1;
    }
    assert nodes[..|nodes|] == nodes;
    ret := 0;
  }

  lemma NothingGranted(units: nat, index: nat)
    ensures !Has(seq(units, _ => 0), index)
  {
    ZeroHasNoBits(index % WORD_BITS);
  }

  /** `w / (p * 2)` is `w / 2 / p`. */
  lemma HalfFirst(w: nat, p: nat)
    requires 0 < p
    ensures w / (2 * p) == w / 2 / p
  {
    var q, r := w / 2 / p, w / 2 % p;
    assert w / 2 == p * q + r;
    assert w == 2 * p * q + (2 * r + w % 2) && 2 * r + w % 2 < 2 * p;
    QuotientIs(w, 2 * p, q, 2 * r + w % 2);
  }

  lemma QuotientIs(n: nat, d: nat, q: nat, r: nat)
    requires r < d && n == d * q + r
    ensures n / d == q
  {
    var other := n / d;
    assert n == d * other + n % d;
    assert d * (q - other) == n % d - r;
    Multiples(d, q - other);
  }

  lemma Multiples(d: int, x: int)
    requires 0 < d
    ensures 1 <= x ==> d <= d * x
    ensures x <= -1 ==> d * x <= -d
  {
    if 1 <= x {
      assert d * x == d + d * (x - 1);
    }
    if x <= -1 {
      assert d * x == -d + d * (x + 1);
    }
  }

  lemma {:induction false} TestBitIs(w: nat, k: nat)
    ensures 0 < Pow2(k) && (TestBit(w, k) <==> w / Pow2(k) % 2 == 1)
  {
    if k > 0 {
      TestBitIs(w / 2, k - 1);
      HalfFirst(w, Pow2(k - 1));
    }
  }

  /** A member of a packed set is a binary digit: of word `index / 32` the one of weight two to the power of the rest. */
  lemma HasIs(words: seq<u32>, index: nat)
    ensures 0 < Pow2(index % 32)
    ensures Has(words, index) <==> index / 32 < |words| && words[index / 32] / Pow2(index % 32) % 2 == 1
  {
    TestBitIs(0, index % 32);
    if index / 32 < |words| {
      TestBitIs(words[index / 32], index % 32);
    }
  }

  /** On a numbered queue with ceil(n / 32) zero words, bit i ends up set exactly when node i
      has an opcode and the kernel bitmap holds it. */
  lemma {:induction false} GrantedFlags(nodes: seq<Node>, perms: seq<u32>, units: nat, index: nat)
    requires Numbered(nodes) && |nodes| <= 0x1_0000_0000
    requires CalcFlagsUnits(|nodes|) <= units
    ensures Has(GrantAll(nodes, perms, seq(units, _ => 0)), index) <==>
            && index < |nodes| && nodes[index].opcode != 0xFFFF_FFFF
            && Has(perms, nodes[index].opcode)
    decreases |nodes|
  {
    hide Has, With;
    if nodes == [] {
      NothingGranted(units, index);
    } else {
      var n := |nodes| - 1;
      GrantedFlags(nodes[..n], perms, units, index);
      WithAddsOne(GrantAll(nodes[..n], perms, seq(units, _ => 0)), n, index);
    }
  }

  /** A name without an opcode keeps opcode 0, not OPCODE_INVALID, so it is not skipped: it
      counts as granted exactly when the kernel grants opcode 0. */
  lemma NoOpcodeFollowsBitZero(name: Bytes, index: int, perms: seq<u32>)
    ensures Granted(Node(name, index, 0), perms) <==> |perms| > 0 && perms[0] % 2 == 1
  {
  }
}
