/**
  How a connection cuts its byte stream into messages.

  `Deliver` is what one receive does, branch for branch; the class that carries it out is in
  Receive.dfy. The reference is plain concatenation: a stream is messages one after another and
  perhaps the beginning of one more.
  */
module Framing {
  import opened Bytes
  import opened MsgLayout
  import opened MsgDecode
  import opened MsgNode

  /** MsgDevicedebugCheck: a peer running as the shell user may only send device-debug messages. */
  predicate Allowed(h: Bytes, shell: bool)
    requires |h| >= HEADER_LEN
  {
    shell ==> MsgType(h) == MSG_DEVICE_DEBUG
  }

  predicate BodyDecodes(m: Bytes, beyond: Bytes)
    requires HEADER_LEN <= |m| < MAX_MSG_TOTAL_LENGTH && |beyond| >= REACH
  {
    Decode(m[HEADER_LEN..] + beyond, |m| - HEADER_LEN, TlvCount(m)).ok
  }

  /** What a connection has after a receive: the messages handed on, the bytes of the message
      that is still incomplete, and whether it is still open. */
  datatype Rx = Rx(dispatched: seq<Bytes>, pending: Bytes, open: bool)

  const CLOSED := Rx([], [], false)

  /** Bytes a connection can be holding: a header that passed its checks, if a whole one is
      there, and less than the message it announces. */
  predicate PendingOk(b: Bytes) {
    |b| >= HEADER_LEN ==>
      var h := PartialHeader(b);
      CheckRecvMsg(h) && HEADER_LEN < MsgLen(h) && |b| < MsgLen(h)
  }

  lemma PartialHeaderGrows(a: Bytes, b: Bytes)
    requires |a| >= HEADER_LEN
    ensures PartialHeader(a + b) == PartialHeader(a)
  {
  }

  /** How one turn of the receive loop ends. */
  datatype Progress = Failed | Incomplete | Complete(message: Bytes, rest: Bytes)

  /** One turn: GetAppSpawnMsgFromBuffer, and the checks when the message looks complete. */
  function OneTurn(pending: Bytes, chunk: Bytes, beyond: Bytes, shell: bool): (r: Progress)
    requires PendingOk(pending) && |beyond| >= REACH
    ensures r.Incomplete? ==> PendingOk(pending + chunk)
    ensures r.Complete? ==> r.rest == [] || |r.rest| < |chunk|
  {
    var all := pending + chunk;
    var h := PartialHeader(all);
    if |all| < HEADER_LEN then
      // taken for complete when the length read so far happens to match; decoding it fails
      if |all| == MsgLen(h) then Failed else Incomplete
    else
      assert |pending| >= HEADER_LEN ==> h == PartialHeader(pending);
      if |pending| < HEADER_LEN && !CheckRecvMsg(h) then Failed
      else if MsgLen(h) == HEADER_LEN then
        // only a header: whatever follows it in this chunk is dropped
        if Allowed(h, shell) then Complete(h, []) else Failed
      else if |all| < MsgLen(h) then Incomplete
      else
        var m := all[..MsgLen(h)];
        if Allowed(h, shell) && BodyDecodes(m, beyond) then Complete(m, all[MsgLen(h)..]) else Failed
  }

  /** One receive: turns until the chunk is used up. */
  function Deliver(pending: Bytes, chunk: Bytes, beyond: Bytes, shell: bool): (r: Rx)
    requires PendingOk(pending) && |beyond| >= REACH
    ensures PendingOk(r.pending)
    decreases |chunk|
  {
    match OneTurn(pending, chunk, beyond, shell)
    case Failed => CLOSED
    case Incomplete => Rx([], pending + chunk, true)
    case Complete(m, rest) =>
      if rest == [] then Rx([m], [], true)
      else
        var r := Deliver([], rest, beyond, shell);
        Rx([m] + r.dispatched, r.pending, r.open)
  }

  /** OnReceiveRequest: a chunk may not be as long as the longest message. */
  function OnReceive(pending: Bytes, chunk: Bytes, beyond: Bytes, shell: bool): (r: Rx)
    requires PendingOk(pending) && |beyond| >= REACH
    ensures PendingOk(r.pending)
    ensures |chunk| >= 65536 ==> !r.open && r.dispatched == [] && r.pending == []
  {
    if |chunk| >= MAX_MSG_TOTAL_LENGTH then CLOSED else Deliver(pending, chunk, beyond, shell)
  }

  /** A run of receives, until the connection closes. */
  function ReceiveAll(pending: Bytes, chunks: seq<Bytes>, beyond: Bytes, shell: bool): Rx
    requires PendingOk(pending) && |beyond| >= REACH
    decreases |chunks|
  {
    if chunks == [] then Rx([], pending, true)
    else
      var first := OnReceive(pending, chunks[0], beyond, shell);
      if !first.open then first
      else
        var r := ReceiveAll(first.pending, chunks[1..], beyond, shell);
        Rx(first.dispatched + r.dispatched, r.pending, r.open)
  }

  // ------------------------------------------------------------------------- the reference

  /** No cut inside the header leaves a beginning that reads as a complete message. */
  ghost predicate NeverMisread(m: Bytes) {
    forall n :: 0 < n <= |m| && n < HEADER_LEN ==> MsgLen(PartialHeader(m[..n])) != n
  }

  /** A message the server accepts: it has a body and decodes. */
  ghost predicate Accepted(m: Bytes, beyond: Bytes, shell: bool) {
    && HEADER_LEN < |m| < MAX_MSG_TOTAL_LENGTH && |beyond| >= REACH
    && CheckRecvMsg(m) && MsgLen(m) == |m|
    && Allowed(m, shell) && BodyDecodes(m, beyond)
  }

  ghost predicate Good(m: Bytes, beyond: Bytes, shell: bool) {
    Accepted(m, beyond, shell) && NeverMisread(m)
  }

  ghost predicate AllGood(ms: seq<Bytes>, beyond: Bytes, shell: bool) {
    forall i :: 0 <= i < |ms| ==> Good(ms[i], beyond, shell)
  }

  ghost predicate ProperPrefix(t: Bytes, m: Bytes) {
    |t| < |m| && t == m[..|t|]
  }

  /** The beginning of some good message, perhaps empty, but not all of it. */
  ghost predicate Beginning(t: Bytes, beyond: Bytes, shell: bool) {
    t == [] || exists m :: Good(m, beyond, shell) && ProperPrefix(t, m)
  }

  /** Exactly when a cut is misread: nine bytes into a message whose length ends in byte 9. */
  lemma MisreadExactly(m: Bytes, n: nat)
    requires |m| >= HEADER_LEN && HEADER_LEN <= MsgLen(m) < MAX_MSG_TOTAL_LENGTH && 0 < n < HEADER_LEN
    ensures MsgLen(PartialHeader(m[..n])) == n <==> n == 9 && MsgLen(m) % 256 == 9
  {
    var h := PartialHeader(m[..n]);
    assert forall i :: 0 <= i < HEADER_LEN ==> h[i] == if i < n then m[i] else 0;
    assert MsgLen(m) % 256 == m[8] && MsgLen(m) / 0x1_0000 == 0;
    assert m[10] == 0 && m[11] == 0;
  }

  /** A length that is a multiple of four, as every client writes it, is never misread. */
  lemma AlignedIsNeverMisread(m: Bytes)
    requires |m| >= HEADER_LEN && HEADER_LEN <= MsgLen(m) < MAX_MSG_TOTAL_LENGTH
    ensures NeverMisread(m) <==> MsgLen(m) % 256 != 9
    ensures MsgLen(m) % 4 == 0 ==> NeverMisread(m)
  {
    forall n | 0 < n <= |m| && n < HEADER_LEN
      ensures MsgLen(PartialHeader(m[..n])) == n <==> n == 9 && MsgLen(m) % 256 == 9
    {
      MisreadExactly(m, n);
    }
    if MsgLen(m) % 256 == 9 {
      assert MsgLen(PartialHeader(m[..9])) == 9;
    }
  }

  lemma MsgLenOfPrefix(m: Bytes)
    requires |m| >= HEADER_LEN
    ensures var h := PartialHeader(m);
            && MsgLen(h) == MsgLen(m) && MsgType(h) == MsgType(m) && TlvCount(h) == TlvCount(m)
            && (CheckRecvMsg(h) <==> CheckRecvMsg(m))
  {
  }

  lemma PrefixIsPending(t: Bytes, m: Bytes, beyond: Bytes, shell: bool)
    requires Accepted(m, beyond, shell) && ProperPrefix(t, m)
    ensures PendingOk(t)
  {
    if |t| >= HEADER_LEN {
      PartialHeaderGrows(t, m[|t|..]);
      assert t + m[|t|..] == m;
      MsgLenOfPrefix(m);
    }
  }

  lemma BeginningIsPending(t: Bytes, beyond: Bytes, shell: bool)
    requires Beginning(t, beyond, shell)
    ensures PendingOk(t)
    ensures t != [] && |t| < HEADER_LEN ==> MsgLen(PartialHeader(t)) != |t|
  {
    if t != [] {
      var m :| Good(m, beyond, shell) && ProperPrefix(t, m);
      PrefixIsPending(t, m, beyond, shell);
    }
  }

  /** A first message followed by anything is handed on, and the rest is delivered from scratch. */
  lemma DeliverFirst(pending: Bytes, chunk: Bytes, m: Bytes, rest: Bytes, beyond: Bytes, shell: bool)
    requires Accepted(m, beyond, shell) && ProperPrefix(pending, m) && pending + chunk == m + rest
    ensures PendingOk(pending)
    ensures var r := Deliver(pending, chunk, beyond, shell);
            if rest == [] then r == Rx([m], [], true)
            else var d := Deliver([], rest, beyond, shell);
                 r == Rx([m] + d.dispatched, d.pending, d.open)
  {
    PrefixIsPending(pending, m, beyond, shell);
    PartialHeaderGrows(m, rest);
    MsgLenOfPrefix(m);
    assert (m + rest)[..|m|] == m && (m + rest)[|m|..] == rest;
  }

  lemma DeliverNone(pending: Bytes, chunk: Bytes, t: Bytes, beyond: Bytes, shell: bool)
    requires Beginning(pending, beyond, shell) && Beginning(t, beyond, shell) && |beyond| >= REACH
    requires chunk != [] && pending + chunk == t
    ensures PendingOk(pending) && Deliver(pending, chunk, beyond, shell) == Rx([], t, true)
  {
    BeginningIsPending(pending, beyond, shell);
    BeginningIsPending(t, beyond, shell);
  }

  lemma GoodParts(ms: seq<Bytes>, beyond: Bytes, shell: bool)
    requires AllGood(ms, beyond, shell) && ms != []
    ensures Good(ms[0], beyond, shell) && ms[0] != [] && AllGood(ms[1..], beyond, shell)
  {
  }

  lemma ConcatHead(ms: seq<Bytes>, t: Bytes)
    requires ms != []
    ensures Concat(ms) + t == ms[0] + (Concat(ms[1..]) + t)
    ensures [ms[0]] + ms[1..] == ms
  {
  }

  lemma ConcatNonEmpty(ms: seq<Bytes>, t: Bytes, beyond: Bytes, shell: bool)
    requires AllGood(ms, beyond, shell) && Concat(ms) + t == []
    ensures ms == [] && t == []
  {
    if ms != [] {
      GoodParts(ms, beyond, shell);
      ConcatHead(ms, t);
    }
  }

  /** One receive over messages and a beginning: those messages, and that beginning kept. */
  lemma {:induction false} DeliverMessages(pending: Bytes, chunk: Bytes, ms: seq<Bytes>, t: Bytes, beyond: Bytes,
                                           shell: bool)
    requires AllGood(ms, beyond, shell) && Beginning(t, beyond, shell) && |beyond| >= REACH
    requires Beginning(pending, beyond, shell) && (ms != [] ==> ProperPrefix(pending, ms[0]))
    requires chunk != [] && pending + chunk == Concat(ms) + t
    ensures PendingOk(pending) && Deliver(pending, chunk, beyond, shell) == Rx(ms, t, true)
    decreases |ms|, 0
  {
    if ms == [] {
      assert Concat(ms) + t == t;
      DeliverNone(pending, chunk, t, beyond, shell);
    } else {
      var rest := Concat(ms[1..]) + t;
      GoodParts(ms, beyond, shell);
      ConcatHead(ms, t);
      DeliverFirst(pending, chunk, ms[0], rest, beyond, shell);
      if rest == [] {
        ConcatNonEmpty(ms[1..], t, beyond, shell);
      } else {
        DeliverRest(rest, ms[1..], t, beyond, shell);
      }
    }
  }

  lemma {:induction false} DeliverRest(rest: Bytes, ms: seq<Bytes>, t: Bytes, beyond: Bytes, shell: bool)
    requires AllGood(ms, beyond, shell) && Beginning(t, beyond, shell) && |beyond| >= REACH
    requires rest != [] && rest == Concat(ms) + t
    ensures Deliver([], rest, beyond, shell) == Rx(ms, t, true)
    decreases |ms|, 1
  {
    if ms != [] {
      GoodParts(ms, beyond, shell);
      assert ProperPrefix([], ms[0]);
    }
    assert [] + rest == rest;
    DeliverMessages([], rest, ms, t, beyond, shell);
  }

  /** Cutting a stream at any point: whole messages, then the beginning of the next. */
  lemma {:induction false} CutStream(ms: seq<Bytes>, t: Bytes, n: nat) returns (k: nat, cut: Bytes)
    requires n <= |Concat(ms) + t|
    ensures k <= |ms| && (Concat(ms) + t)[..n] == Concat(ms[..k]) + cut
    ensures if k < |ms| then ProperPrefix(cut, ms[k]) else cut <= t
    ensures cut + (Concat(ms) + t)[n..] == Concat(ms[k..]) + t
    decreases |ms|
  {
    if ms == [] {
      k, cut := 0, t[..n];
      assert Concat(ms) + t == t;
    } else {
      var rest := Concat(ms[1..]) + t;
      ConcatHead(ms, t);
      if n < |ms[0]| {
        k, cut := 0, ms[0][..n];
        SplitEarlier(ms[0], rest, n);
        assert Concat(ms[..0]) + cut == cut;
      } else {
        var k', cut' := CutStream(ms[1..], t, n - |ms[0]|);
        k, cut := k' + 1, cut';
        assert ms[..k][1..] == ms[1..][..k'] && ms[k..] == ms[1..][k'..];
        SplitLater(ms[0], rest, n);
        Associate(ms[0], Concat(ms[1..][..k']), cut);
      }
    }
  }

  lemma SplitEarlier(a: Bytes, b: Bytes, n: nat)
    requires n <= |a|
    ensures (a + b)[..n] == a[..n] && a[..n] + (a + b)[n..] == a + b
  {
  }

  lemma SplitLater(a: Bytes, b: Bytes, n: nat)
    requires |a| <= n <= |a| + |b|
    ensures (a + b)[..n] == a + b[..n - |a|] && (a + b)[n..] == b[n - |a|..]
  {
  }

  lemma CutIsBeginning(cut: Bytes, m: Bytes, t: Bytes, beyond: Bytes, shell: bool)
    requires (Good(m, beyond, shell) && ProperPrefix(cut, m)) || (Beginning(t, beyond, shell) && cut <= t)
    ensures Beginning(cut, beyond, shell)
  {
    if !(Good(m, beyond, shell) && ProperPrefix(cut, m)) && cut != [] {
      var g :| Good(g, beyond, shell) && ProperPrefix(t, g);
      assert ProperPrefix(cut, g);
    }
  }

  /** A cutting into receives: none empty, none too long for one receive. */
  ghost predicate Chunking(chunks: seq<Bytes>) {
    forall i :: 0 <= i < |chunks| ==> 0 < |chunks[i]| < MAX_MSG_TOTAL_LENGTH
  }

  /** What one receive of a longer run does. */
  lemma DeliverChunk(pending: Bytes, chunk: Bytes, after: Bytes, ms: seq<Bytes>, t: Bytes, beyond: Bytes, shell: bool)
    returns (k: nat, cut: Bytes)
    requires AllGood(ms, beyond, shell) && Beginning(t, beyond, shell) && |beyond| >= REACH
    requires Beginning(pending, beyond, shell) && (ms != [] ==> ProperPrefix(pending, ms[0]))
    requires chunk != [] && pending + (chunk + after) == Concat(ms) + t
    ensures PendingOk(pending) && k <= |ms| && Deliver(pending, chunk, beyond, shell) == Rx(ms[..k], cut, true)
    ensures Beginning(cut, beyond, shell) && (k < |ms| ==> ProperPrefix(cut, ms[k]))
    ensures cut + after == Concat(ms[k..]) + t
  {
    hide Concat, Beginning, Deliver;
    var stream, n := Concat(ms) + t, |pending| + |chunk|;
    assert stream == (pending + chunk) + after;
    k, cut := CutStream(ms, t, n);
    assert stream[..n] == pending + chunk && stream[n..] == after;
    CutIsBeginning(cut, if k < |ms| then ms[k] else [], t, beyond, shell);
    if k > 0 { assert ms[..k][0] == ms[0]; }
    DeliverMessages(pending, chunk, ms[..k], cut, beyond, shell);
  }

  /** Framing does not depend on chunking: whatever the receives a stream of good messages
      arrives in, the same messages are handed on in the same order, exactly the unfinished
      beginning is kept, and the connection stays open. */
  lemma {:induction false} ChunkingDoesNotMatter(pending: Bytes, chunks: seq<Bytes>, ms: seq<Bytes>, t: Bytes,
                                                 beyond: Bytes, shell: bool)
    requires AllGood(ms, beyond, shell) && Beginning(t, beyond, shell) && |beyond| >= REACH
    requires Beginning(pending, beyond, shell) && (ms != [] ==> ProperPrefix(pending, ms[0]))
    requires Chunking(chunks) && pending + Concat(chunks) == Concat(ms) + t
    ensures PendingOk(pending) && ReceiveAll(pending, chunks, beyond, shell) == Rx(ms, t, true)
    decreases |chunks|
  {
    BeginningIsPending(pending, beyond, shell);
    if chunks == [] {
      StreamIsPending(pending, ms, t);
    } else {
      var k, cut := DeliverChunk(pending, chunks[0], Concat(chunks[1..]), ms, t, beyond, shell);
      assert ms[k..] != [] ==> ProperPrefix(cut, ms[k..][0]);
      AllGoodFrom(ms, k, beyond, shell);
      ChunkingDoesNotMatter(cut, chunks[1..], ms[k..], t, beyond, shell);
      ReceiveStep(pending, chunks, ms, k, cut, t, beyond, shell);
    }
  }

  lemma AllGoodFrom(ms: seq<Bytes>, k: nat, beyond: Bytes, shell: bool)
    requires AllGood(ms, beyond, shell) && k <= |ms|
    ensures AllGood(ms[k..], beyond, shell)
  {
  }

  lemma ReceiveStep(pending: Bytes, chunks: seq<Bytes>, ms: seq<Bytes>, k: nat, cut: Bytes, t: Bytes, beyond: Bytes,
                    shell: bool)
    requires PendingOk(pending) && PendingOk(cut) && |beyond| >= REACH && k <= |ms|
    requires chunks != [] && |chunks[0]| < MAX_MSG_TOTAL_LENGTH
    requires Deliver(pending, chunks[0], beyond, shell) == Rx(ms[..k], cut, true)
    requires ReceiveAll(cut, chunks[1..], beyond, shell) == Rx(ms[k..], t, true)
    ensures ReceiveAll(pending, chunks, beyond, shell) == Rx(ms, t, true)
  {
    assert ms[..k] + ms[k..] == ms;
  }

  lemma StreamIsPending(pending: Bytes, ms: seq<Bytes>, t: Bytes)
    requires pending + [] == Concat(ms) + t && (ms != [] ==> ProperPrefix(pending, ms[0]))
    ensures ms == [] && pending == t
  {
    assert pending + [] == pending;
    assert |Concat(ms)| <= |pending|;
  }

  /** The same promise without the body: a header-only message loses everything that arrives in
      its chunk after it, so there the chunking does matter. */
  lemma HeaderOnlyDropsTheRest(h: Bytes, rest: Bytes, beyond: Bytes, shell: bool)
    requires |h| == HEADER_LEN && CheckRecvMsg(h) && MsgLen(h) == HEADER_LEN && Allowed(h, shell) && |beyond| >= REACH
    ensures Deliver([], h + rest, beyond, shell) == Rx([h], [], true)
  {
    PartialHeaderGrows(h, rest);
    assert [] + (h + rest) == h + rest;
    assert PartialHeader(h) == h;
  }

  /** And a message whose length ends in byte 9 closes the connection when a receive happens to
      end nine bytes into it, though it is accepted when it arrives whole. */
  lemma NinthByteCloses(m: Bytes, beyond: Bytes, shell: bool)
    requires Accepted(m, beyond, shell) && MsgLen(m) % 256 == 9
    ensures ReceiveAll([], [m], beyond, shell) == Rx([m], [], true)
    ensures ReceiveAll([], [m[..9], m[9..]], beyond, shell) == CLOSED
  {
    WholeMessage(m, beyond, shell);
    assert [m][1..] == [] && [m] + [] == [m];
    MisreadExactly(m, 9);
    assert [] + m[..9] == m[..9];
    assert Deliver([], m[..9], beyond, shell) == CLOSED;
  }

  lemma WholeMessage(m: Bytes, beyond: Bytes, shell: bool)
    requires Accepted(m, beyond, shell)
    ensures Deliver([], m, beyond, shell) == Rx([m], [], true)
  {
    assert [] + m == m == m + [] && ProperPrefix([], m);
    DeliverFirst([], m, m, [], beyond, shell);
  }
}
