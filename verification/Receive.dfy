/** The receiving side of a connection, updated in place, proved to do what `OnReceive` says. */
module Receive {
  import opened Bytes
  import opened MsgLayout
  import opened MsgDecode
  import opened MsgNode
  import opened Framing

  ghost function Objects(node: MsgNode): set<object>
    reads node
  {
    {node, node.header} + (if node.buffer == null then {} else {node.buffer})
    + (if node.tlvOffset == null then {} else {node.tlvOffset})
  }

  /** The message node holds the bytes `b`: its header is filled as far as they go, and once the
      header is whole and checked the body behind them is still zero. */
  ghost predicate Holds(node: MsgNode, b: Bytes)
    reads node, node.header, node.buffer, node.tlvOffset
  {
    && node.Valid()
    && node.Head() == PartialHeader(b)
    && if |b| < HEADER_LEN then node.buffer == null
       else
         && node.buffer != null && node.tlvOffset != null
         && CheckRecvMsg(node.Head())
         && HEADER_LEN < MsgLen(node.Head()) && |b| <= MsgLen(node.Head())
         && node.Body() == b[HEADER_LEN..] + Zeros(MsgLen(node.Head()) - |b|)
         && node.tlvOffset[..] == EmptyTable(TlvCount(node.Head()))
  }

  /** The header part of GetAppSpawnMsgFromBuffer: the header bytes still missing. */
  method TakeHeader(node: MsgNode, chunk: Bytes, ghost b: Bytes) returns (ret: int)
    requires Holds(node, b) && |b| < HEADER_LEN && |b| + |chunk| == HEADER_LEN
    modifies node, node.header
    ensures node.Valid() && node.Head() == b + chunk
    ensures ret == 0 <==> CheckRecvMsg(b + chunk)
    ensures ret != 0 || MsgLen(b + chunk) == HEADER_LEN ==> node.buffer == null
    ensures ret == 0 && MsgLen(b + chunk) > HEADER_LEN ==>
              Holds(node, b + chunk) && fresh(node.buffer) && fresh(node.tlvOffset)
  {
    MemCpy(node.header, HEADER_LEN - |chunk|, chunk);
    assert node.Head() == b + chunk;
    ret := node.AppSpawnMsgRebuild();
    assert (b + chunk)[HEADER_LEN..] == [];
  }

  /** Adds body bytes to a message whose header is there. */
  method TakeBody(node: MsgNode, chunk: Bytes, msgRecvLen: nat, ghost b: Bytes)
    requires Holds(node, b) && HEADER_LEN <= |b| == msgRecvLen
    requires |b| + |chunk| <= MsgLen(node.Head())
    modifies node.buffer
    ensures Holds(node, b + chunk)
  {
    ghost var len := MsgLen(node.Head());
    PartialHeaderGrows(b, chunk);
    MemCpy(node.buffer, msgRecvLen - HEADER_LEN, chunk);
    BodyGrows(b[HEADER_LEN..], chunk, len - |b|);
    assert (b + chunk)[HEADER_LEN..] == b[HEADER_LEN..] + chunk;
  }

  lemma BodyGrows(body: Bytes, chunk: Bytes, room: nat)
    requires |chunk| <= room
    ensures var was := body + Zeros(room);
            was[..|body|] + chunk + was[|body| + |chunk|..] == body + chunk + Zeros(room - |chunk|)
  {
  }

  /** The body part: as much as the message still lacks, and how much of the chunk is left over. */
  method TakeMissing(node: MsgNode, chunk: Bytes, msgRecvLen: nat, ghost b: Bytes)
    returns (newRecvLen: nat, reminder: nat)
    requires Holds(node, b) && HEADER_LEN <= |b| == msgRecvLen
    modifies node.buffer
    ensures var total := MsgLen(node.Head());
            && newRecvLen == (if |b + chunk| < total then |b + chunk| else total)
            && reminder == |b + chunk| - newRecvLen
            && Holds(node, (b + chunk)[..newRecvLen])
  {
    var total := MsgLen(node.header[..]);
    var realCopy := if |chunk| + msgRecvLen > total then total - msgRecvLen else |chunk|;
    TakeBody(node, chunk[..realCopy], msgRecvLen, b);
    newRecvLen := msgRecvLen + realCopy;
    assert b + chunk[..realCopy] == (b + chunk)[..newRecvLen];
    reminder := if realCopy < |chunk| then |chunk| - realCopy else 0;
  }

  /** GetAppSpawnMsgFromBuffer: as much of the chunk as belongs to this message. */
  method GetAppSpawnMsgFromBuffer(node: MsgNode, chunk: Bytes, msgRecvLen: nat, ghost b: Bytes)
    returns (ret: int, newRecvLen: nat, reminder: nat)
    requires Holds(node, b) && PendingOk(b) && msgRecvLen == |b|
    modifies node, node.header, node.buffer
    ensures node.Valid() && fresh(Objects(node) - old(Objects(node)))
    ensures ret != 0 ==> node.buffer == null
    ensures var all := b + chunk;
            var h := PartialHeader(all);
            if |all| < HEADER_LEN then ret == 0 && newRecvLen == |all| && reminder == 0 && Holds(node, all)
            else if |b| < HEADER_LEN && !CheckRecvMsg(h) then ret != 0
            else if MsgLen(h) == HEADER_LEN then
              ret == 0 && newRecvLen == HEADER_LEN && reminder == 0 && node.Head() == h && node.buffer == null
            else
              var n := if |all| < MsgLen(h) then |all| else MsgLen(h);
              ret == 0 && newRecvLen == n && reminder == |all| - n && Holds(node, all[..n])
  {
    ghost var all := b + chunk;
    reminder := 0;
    newRecvLen := msgRecvLen;
    var remaining := chunk;
    ghost var got := b;
    if msgRecvLen < HEADER_LEN {
      if |chunk| + msgRecvLen >= HEADER_LEN {
        var missing := HEADER_LEN - msgRecvLen;
        got := b + chunk[..missing];
        assert got == all[..HEADER_LEN] == PartialHeader(all);
        ret := TakeHeader(node, chunk[..missing], b);
        if ret != 0 {
          return;
        }
        remaining := chunk[missing..];
        newRecvLen := HEADER_LEN;
      } else {
        MemCpy(node.header, msgRecvLen, chunk);
        assert node.Head() == PartialHeader(all);
        return 0, msgRecvLen + |chunk|, 0;
      }
    } else {
      PartialHeaderGrows(b, chunk);
    }
    assert got + remaining == all;
    if node.buffer != null {
      newRecvLen, reminder := TakeMissing(node, remaining, newRecvLen, got);
    }
    ret := 0;
  }

  /** One turn of the loop of OnReceiveRequest, without handing the message on. */
  method ReceiveOne(node: MsgNode, chunk: Bytes, msgRecvLen: nat, shell: bool, beyond: Bytes, ghost b: Bytes)
    returns (progress: Progress, newRecvLen: nat)
    requires Holds(node, b) && PendingOk(b) && msgRecvLen == |b| && |beyond| >= REACH
    modifies Objects(node)
    ensures fresh(Objects(node) - old(Objects(node)))
    ensures progress == OneTurn(b, chunk, beyond, shell)
    ensures progress.Incomplete? ==> Holds(node, b + chunk) && newRecvLen == |b + chunk|
    ensures progress.Complete? ==> newRecvLen == 0
  {
    var ret, reminder;
    ghost var all := b + chunk;
    ret, newRecvLen, reminder := GetAppSpawnMsgFromBuffer(node, chunk, msgRecvLen, b);
    progress := Failed;
    if ret == 0 {
      if newRecvLen != MsgLen(node.header[..]) {
        assert all[..|all|] == all;
        progress := Incomplete;
      } else {
        assert node.buffer != null ==> chunk[|chunk| - reminder..] == all[newRecvLen..];
        var ok, message := CheckWhole(node, shell, beyond, all[..newRecvLen]);
        newRecvLen := 0;
        progress := if ok then Complete(message, chunk[|chunk| - reminder..]) else Failed;
      }
    }
  }

  /** The checks on a complete message and its decoding. */
  method CheckWhole(node: MsgNode, shell: bool, beyond: Bytes, ghost m: Bytes) returns (ok: bool, message: Bytes)
    requires node.Valid() && |beyond| >= REACH
    requires node.buffer != null ==> Holds(node, m) && |m| == MsgLen(node.Head())
    modifies node`tlvCount, node.tlvOffset
    ensures node.Valid()
    ensures node.buffer == null ==>
              (ok <==> Allowed(node.Head(), shell) && MsgLen(node.Head()) == HEADER_LEN) && message == node.Head()
    ensures node.buffer != null ==>
              |m| < MAX_MSG_TOTAL_LENGTH && (ok <==> Allowed(m, shell) && BodyDecodes(m, beyond)) && message == m
  {
    var h := node.header[..];
    message := h + if node.buffer == null then [] else node.buffer[..];
    if node.buffer != null {
      WholeDecodes(m, h, node.buffer[..], beyond);
    }
    if !Allowed(h, shell) {
      return false, message;
    }
    var ret := node.DecodeAppSpawnMsg(beyond);
    ok := ret == 0;
  }

  lemma WholeDecodes(m: Bytes, h: Bytes, body: Bytes, beyond: Bytes)
    requires |m| >= HEADER_LEN && h == PartialHeader(m) && |beyond| >= REACH
    requires HEADER_LEN < MsgLen(h) < MAX_MSG_TOTAL_LENGTH && MsgLen(h) == |m|
    requires body == m[HEADER_LEN..] + Zeros(0)
    ensures h + body == m && MsgType(m) == MsgType(h)
    ensures BodyDecodes(m, beyond) <==> Decode(body + beyond, |body|, TlvCount(h)).ok
  {
    assert m[HEADER_LEN..] == body;
  }

  /** Outcomes accumulate. */
  ghost function After(done: seq<Bytes>, r: Rx): Rx {
    Rx(done + r.dispatched, r.pending, r.open)
  }

  lemma AfterOne(done: seq<Bytes>, m: Bytes, more: Rx)
    ensures After(done, After([m], more)) == After(done + [m], more)
  {
    assert done + ([m] + more.dispatched) == done + [m] + more.dispatched;
  }

  /** What is left to do with the rest of a chunk after a complete message. */
  ghost function DeliverMore(rest: Bytes, beyond: Bytes, shell: bool): Rx
    requires |beyond| >= REACH
  {
    if rest == [] then Rx([], [], true) else Deliver([], rest, beyond, shell)
  }

  class Connection {
    const shell: bool
    const beyond: Bytes
    var incompleteMsg: MsgNode?
    var msgRecvLen: nat
    var dispatched: seq<Bytes>
    var open: bool
    ghost var pending: Bytes
    ghost var Repr: set<object>

    ghost predicate Valid()
      reads this, Repr
    {
      && this in Repr && |beyond| >= REACH
      && PendingOk(pending)
      && (incompleteMsg == null ==> pending == [] && msgRecvLen == 0)
      && (incompleteMsg != null ==>
            && incompleteMsg in Repr && incompleteMsg.header in Repr
            && (incompleteMsg.buffer != null ==> incompleteMsg.buffer in Repr)
            && (incompleteMsg.tlvOffset != null ==> incompleteMsg.tlvOffset in Repr)
            && Holds(incompleteMsg, pending) && msgRecvLen == |pending|)
    }

    /** OnConnection */
    constructor (shell: bool, beyond: Bytes)
      requires |beyond| >= REACH
      ensures Valid() && fresh(Repr) && open && dispatched == [] && pending == []
      ensures this.shell == shell && this.beyond == beyond
    {
      this.shell, this.beyond := shell, beyond;
      incompleteMsg, msgRecvLen, dispatched, open := null, 0, [], true;
      pending := [];
      Repr := {this};
    }

    /** The message of the last receive, if it was left incomplete. */
    method TakeOver() returns (message: MsgNode?)
      requires Valid()
      modifies this`incompleteMsg
      ensures incompleteMsg == null && message == old(incompleteMsg)
      ensures message == null ==> pending == []
      ensures message != null ==> Owned(message, Repr) && Holds(message, pending)
    {
      message := incompleteMsg;
      incompleteMsg := null;
    }

    /** One turn of the receive loop on the message taken over from the last receive, or on a new
        one; a complete message is handed on, an incomplete one is kept. */
    method Turn(message: MsgNode?, chunk: Bytes, ghost b: Bytes) returns (progress: Progress)
      requires this in Repr && |beyond| >= REACH && incompleteMsg == null
      requires PendingOk(b) && msgRecvLen == |b|
      requires message == null ==> b == []
      requires message != null ==> Owned(message, Repr) && Holds(message, b)
      modifies Repr
      ensures this in Repr && fresh(Repr - old(Repr)) && open == (old(open) && !progress.Failed?)
      ensures progress == OneTurn(b, chunk, beyond, shell)
      ensures progress.Incomplete? ==> Valid() && pending == b + chunk && dispatched == old(dispatched)
      ensures progress.Complete? ==>
                && Valid() && incompleteMsg == null
                && dispatched == old(dispatched) + [progress.message]
    {
      var node := message;
      if node == null {
        node := new MsgNode();
        assert Holds(node, []);
      }
      var recvLen;
      progress, recvLen := ReceiveOne(node, chunk, msgRecvLen, shell, beyond, b);
      if progress.Incomplete? {
        Keep(node, recvLen, b + chunk);
      } else if progress.Complete? {
        HandOn(progress.message);
      } else {
        open := false;
      }
    }

    /** An incomplete message waits for the next receive. */
    method Keep(node: MsgNode, recvLen: nat, ghost b: Bytes)
      requires this in Repr && |beyond| >= REACH && PendingOk(b) && Holds(node, b) && recvLen == |b|
      modifies this
      ensures Valid() && pending == b && dispatched == old(dispatched) && open == old(open)
      ensures Repr == old(Repr) + Objects(node)
    {
      incompleteMsg, msgRecvLen := node, recvLen;
      pending, Repr := b, Repr + Objects(node);
    }

    /** A complete one goes to ProcessRecvMsg. */
    method HandOn(message: Bytes)
      requires this in Repr && |beyond| >= REACH && incompleteMsg == null
      modifies this
      ensures Valid() && pending == [] && incompleteMsg == null
      ensures dispatched == old(dispatched) + [message] && open == old(open) && Repr == old(Repr)
    {
      msgRecvLen, pending, dispatched := 0, [], dispatched + [message];
    }

    /** What the connection has done so far and what it waits with. */
    ghost function Outcome(): Rx
      reads this
    {
      Rx(dispatched, pending, open)
    }

    /** OnReceiveRequest: the messages of the chunk are handed on, the unfinished one is kept, or
        the connection is closed, just as OnReceive says. */
    method OnReceiveRequest(buffer: Bytes)
      requires Valid() && open
      modifies Repr
      ensures fresh(Repr - old(Repr))
      ensures open == OnReceive(old(pending), buffer, beyond, shell).open
      ensures open ==>
                Valid() && Outcome() == After(old(dispatched), OnReceive(old(pending), buffer, beyond, shell))
    {
      if |buffer| >= MAX_MSG_TOTAL_LENGTH {
        open := false;
        return;
      }
      ghost var before := dispatched;
      var message := TakeOver();
      var progress := Turn(message, buffer, pending);
      if progress.Complete? {
        AfterOne(before, progress.message, DeliverMore(progress.rest, beyond, shell));
        ReceiveRest(progress.rest);
      }
    }

    /** The later turns of the loop, each on a new message. */
    method ReceiveRest(chunk: Bytes)
      requires Valid() && open && incompleteMsg == null
      modifies Repr
      ensures fresh(Repr - old(Repr))
      ensures open == DeliverMore(chunk, beyond, shell).open
      ensures open ==> Valid() && Outcome() == After(old(dispatched), DeliverMore(chunk, beyond, shell))
    {
      var rest := chunk;
      ghost var goal := After(dispatched, DeliverMore(chunk, beyond, shell));
      while rest != []
        invariant Valid() && incompleteMsg == null && fresh(Repr - old(Repr)) && open
        invariant goal == After(dispatched, DeliverMore(rest, beyond, shell))
        decreases |rest|
      {
        ghost var before := dispatched;
        var progress := Turn(null, rest, []);
        if !progress.Complete? {
          return;
        }
        rest := progress.rest;
        AfterOne(before, progress.message, DeliverMore(rest, beyond, shell));
      }
    }
  }

  ghost predicate Owned(node: MsgNode, repr: set<object>)
    reads node
  {
    Objects(node) <= repr
  }
}
