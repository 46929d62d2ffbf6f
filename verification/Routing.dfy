/**
  What holds of the spawner between two events: who waits for which child, on which pipe, and what
  the pool of pre-forked children is. Between events nothing is in a handler's hands.
*/
module Routing {
  import opened AppMgr
  import opened Books
  import opened FdQueue
  import opened Images
  import opened Kernel
  import opened SpawnFds
  import opened Tally

  /** A context waits: it owes an answer, and holds the read end of the very pipe its child answers on. */
  ghost predicate Waiting(c: Ctx, pipeOf: map<int, End>, answersOn: map<int, nat>) {
    && c.message.Some? && !c.settled && !c.promoted && Named(c)
    && 0 < c.pid && 0 < c.fd0
    && c.fd0 in pipeOf && c.pid in answersOn && pipeOf[c.fd0] == ReadEnd(answersOn[c.pid])
    && (!c.spawning ==> !c.tokenRef && !c.uidRef)
  }

  ghost predicate AllWaiting(q: seq<Ctx>, pipeOf: map<int, End>, answersOn: map<int, nat>) {
    forall c :: c in q ==> Waiting(c, pipeOf, answersOn)
  }

  /** The nodes the pool of pre-forked children is about, and the others. */
  predicate InPool(n: FdNode) {
    n.kind == TYPE_CHILD_PARENT || n.kind == TYPE_PARENT_CHILD
  }

  predicate Apart(n: FdNode) {
    !InPool(n)
  }

  /** The pool: of the nodes of its two types a reserved child has one each, and there are no more. The
      child was sent nothing yet. Any number of other nodes may be anywhere in the queue, but none of
      them belongs to a child. */
  ghost predicate Pooled(reservedPid: int, nodes: seq<FdNode>, self: int, pipeOf: map<int, End>, answersOn: map<int, nat>,
                         readsFrom: map<int, nat>, inbox: map<nat, seq<PipeMsg>>) {
    && Own(Kept(nodes, Apart), self)
    && Pool(reservedPid, Kept(nodes, InPool), pipeOf, answersOn, readsFrom, inbox)
  }

  ghost predicate Own(others: seq<FdNode>, self: int) {
    forall n :: n in others ==> NoChilds(n, self) && n.fds != []
  }

  ghost predicate Pool(reservedPid: int, pool: seq<FdNode>, pipeOf: map<int, End>, answersOn: map<int, nat>,
                       readsFrom: map<int, nat>, inbox: map<nat, seq<PipeMsg>>) {
    if reservedPid <= 0 then pool == []
    else
      && |pool| == 2
      && IsPipeNode(pool[0], TYPE_CHILD_PARENT, reservedPid) && IsPipeNode(pool[1], TYPE_PARENT_CHILD, reservedPid)
      && pool[0].fds[0] in pipeOf && reservedPid in answersOn && pipeOf[pool[0].fds[0]] == ReadEnd(answersOn[reservedPid])
      && Awaits(reservedPid, pool[1].fds[1], pipeOf, readsFrom, inbox)
  }

  predicate IsPipeNode(n: FdNode, kind: int, pid: int) {
    n.kind == kind && n.pid == pid && |n.fds| == 2 && 0 < n.fds[0] && 0 < n.fds[1]
  }

  ghost predicate PoolHolds(mgr: AppSpawnMgr)
    reads mgr`reservedPid, mgr.fds, mgr.kernel`pipeOf, mgr.kernel`answersOn, mgr.kernel`readsFrom, mgr.kernel`inbox
  {
    Pooled(mgr.reservedPid, mgr.fds.nodes, mgr.kernel.self, mgr.kernel.pipeOf, mgr.kernel.answersOn,
           mgr.kernel.readsFrom, mgr.kernel.inbox)
  }

  /** There is no pool, and the other nodes are the spawner's own. */
  ghost predicate NoPool(mgr: AppSpawnMgr)
    reads mgr.fds
  {
    Drained(mgr.fds.nodes, mgr.kernel.self)
  }

  ghost predicate Drained(nodes: seq<FdNode>, self: int) {
    Own(Kept(nodes, Apart), self) && Kept(nodes, InPool) == []
  }

  /** The nodes that are not the pool's. */
  ghost function Others(mgr: AppSpawnMgr): seq<FdNode>
    reads mgr.fds
  {
    Kept(mgr.fds.nodes, Apart)
  }

  ghost predicate Wait(q: seq<Ctx>, mgr: AppSpawnMgr)
    reads mgr.kernel`pipeOf, mgr.kernel`answersOn
  {
    AllWaiting(q, mgr.kernel.pipeOf, mgr.kernel.answersOn)
  }

  ghost predicate EmptyHands(mgr: AppSpawnMgr)
    reads mgr`handPipes, mgr`handRequests, mgr`handPids, mgr`given
  {
    mgr.handPipes == [] && mgr.handRequests == multiset{} && mgr.handPids == multiset{} && !mgr.given
  }

  /** Between two events. */
  ghost predicate AtRest(mgr: AppSpawnMgr)
    reads mgr, mgr.kernel, mgr.fds
  {
    mgr.Valid() && EmptyHands(mgr) && Wait(mgr.appSpawnQueue, mgr) && PoolHolds(mgr)
  }

  // ------------------------------------------------------------------------- nothing else is disturbed

  lemma OneWaits(q: seq<Ctx>, i: nat, pipeOf: map<int, End>, answersOn: map<int, nat>)
    requires AllWaiting(q, pipeOf, answersOn) && i < |q|
    ensures Waiting(q[i], pipeOf, answersOn)
  {
  }

  lemma OthersWait(q: seq<Ctx>, i: nat, pipeOf: map<int, End>, answersOn: map<int, nat>)
    requires AllWaiting(q, pipeOf, answersOn) && i < |q|
    ensures AllWaiting(Without(q, i), pipeOf, answersOn)
  {
  }

  lemma OneMoreWaits(q: seq<Ctx>, c: Ctx, pipeOf: map<int, End>, answersOn: map<int, nat>)
    requires AllWaiting(q, pipeOf, answersOn) && Waiting(c, pipeOf, answersOn)
    ensures AllWaiting(q + [c], pipeOf, answersOn)
  {
  }

  lemma FirstOnesWait(q: seq<Ctx>, n: nat, pipeOf: map<int, End>, answersOn: map<int, nat>)
    requires AllWaiting(q, pipeOf, answersOn) && n <= |q|
    ensures AllWaiting(q[..n], pipeOf, answersOn)
  {
  }

  /** What an element is changed to does not matter once it is taken out. */
  lemma ChangedAndGone<T>(q: seq<T>, i: nat, c: T)
    requires i < |q|
    ensures Without(q[i := c], i) == Without(q, i)
  {
  }

  lemma LastGone<T>(q: seq<T>, c: T)
    ensures Without(q + [c], |q|) == q
  {
  }

  lemma LastChanged(q: seq<Ctx>, c: Ctx, d: Ctx)
    ensures (q + [c])[|q| := d] == q + [d]
  {
  }

  lemma HeldFds(q: seq<Ctx>, open: multiset<int>)
    requires Sum(q, CtxFds) <= open
    ensures forall c :: c in q && 0 <= c.fd0 ==> c.fd0 in open
  {
    forall c | c in q && 0 <= c.fd0
      ensures c.fd0 in open
    {
      var i :| 0 <= i < |q| && q[i] == c;
      SumAtLeast(q, i, CtxFds);
      assert c.fd0 in CtxFds(c);
    }
  }

  lemma HeldNodes(nodes: seq<FdNode>, open: multiset<int>)
    requires Sum(nodes, NodeFds) <= open
    ensures forall n, kind, pid :: n in nodes && IsPipeNode(n, kind, pid) ==> n.fds[0] in open && n.fds[1] in open
  {
    forall n, kind, pid | n in nodes && IsPipeNode(n, kind, pid)
      ensures n.fds[0] in open && n.fds[1] in open
    {
      var k :| 0 <= k < |nodes| && nodes[k] == n;
      SumAtLeast(nodes, k, NodeFds);
      PipeNode(kind, pid, n.fds[0], n.fds[1]);
      assert n.fds == [n.fds[0], n.fds[1]];
      assert NodeFds(n)[n.fds[0]] >= 1 && NodeFds(n)[n.fds[1]] >= 1;
    }
  }

  lemma HeldPipes(pipes: seq<Pipe>, open: multiset<int>)
    requires Sum(pipes, PipeFds) <= open
    ensures forall p :: p in pipes && 0 <= p.readEnd && 0 <= p.writeEnd ==> p.readEnd in open && p.writeEnd in open
  {
    forall p | p in pipes && 0 <= p.readEnd && 0 <= p.writeEnd
      ensures p.readEnd in open && p.writeEnd in open
    {
      var k :| 0 <= k < |pipes| && pipes[k] == p;
      SumAtLeast(pipes, k, PipeFds);
      assert p.readEnd in PipeFds(p) && p.writeEnd in PipeFds(p);
    }
  }

  lemma WaitPastEnds(q: seq<Ctx>, pipeOf: map<int, End>, answersOn: map<int, nat>, open: multiset<int>,
                     after: map<int, End>)
    requires AllWaiting(q, pipeOf, answersOn) && EndsKept(open, pipeOf, after)
    requires forall c :: c in q && 0 <= c.fd0 ==> c.fd0 in open
    ensures AllWaiting(q, after, answersOn)
  {
  }

  lemma WaitPastFork(q: seq<Ctx>, pipeOf: map<int, End>, answersOn: map<int, nat>, pid: int, fd: int,
                     after: map<int, nat>)
    requires AllWaiting(q, pipeOf, answersOn) && Wired(pid, fd, pipeOf, answersOn, after) && pid !in answersOn
    ensures AllWaiting(q, pipeOf, after)
  {
  }

  lemma PoolPastEnds(reservedPid: int, nodes: seq<FdNode>, self: int, pipeOf: map<int, End>, answersOn: map<int, nat>,
                     readsFrom: map<int, nat>, inbox: map<nat, seq<PipeMsg>>, open: multiset<int>, after: map<int, End>)
    requires Pooled(reservedPid, nodes, self, pipeOf, answersOn, readsFrom, inbox) && EndsKept(open, pipeOf, after)
    requires forall n, kind, pid :: n in nodes && IsPipeNode(n, kind, pid) ==> n.fds[0] in open && n.fds[1] in open
    ensures Pooled(reservedPid, nodes, self, after, answersOn, readsFrom, inbox)
  {
    var pool := Kept(nodes, InPool);
    KeptMembers(nodes, InPool);
    hide Kept;
    assert 0 < reservedPid ==> pool[0] in pool && pool[1] in pool;
  }

  lemma PoolPastFork(reservedPid: int, nodes: seq<FdNode>, self: int, pipeOf: map<int, End>, answersOn: map<int, nat>,
                     readsFrom: map<int, nat>, inbox: map<nat, seq<PipeMsg>>, pid: int, fd: int, after: map<int, nat>)
    requires Pooled(reservedPid, nodes, self, pipeOf, answersOn, readsFrom, inbox)
    requires Wired(pid, fd, pipeOf, answersOn, after) && pid !in answersOn
    ensures Pooled(reservedPid, nodes, self, pipeOf, after, readsFrom, inbox)
  {
  }

  // ------------------------------------------------------------------------- the pool among the other nodes

  lemma NoneMissed(nodes: seq<FdNode>, pid: int, kind: int)
    requires forall n :: n in nodes ==> !(n.pid == pid && n.kind == kind)
    ensures FindNode(nodes, pid, kind) == |nodes|
  {
    FindIs(nodes, pid, kind, |nodes|);
  }

  /** Where the pool has the node that a look-up finds. */
  lemma PoolRank(nodes: seq<FdNode>, i: nat, pid: int, kind: int)
    requires kind == TYPE_CHILD_PARENT || kind == TYPE_PARENT_CHILD
    requires i == FindNode(nodes, pid, kind) < |nodes|
    ensures FindNode(Kept(nodes, InPool), pid, kind) == |Kept(nodes[..i], InPool)|
  {
    hide Kept;
    var before := Kept(nodes[..i], InPool);
    KeptSplit(nodes, i, InPool);
    KeptMembers(nodes[..i], InPool);
    assert forall n :: n in nodes[..i] ==> !(n.pid == pid && n.kind == kind);
    FoundAfter(before, nodes[i], Kept(nodes[i + 1..], InPool), pid, kind);
  }

  lemma FoundAfter(before: seq<FdNode>, n: FdNode, rest: seq<FdNode>, pid: int, kind: int)
    requires n.pid == pid && n.kind == kind && forall m :: m in before ==> !(m.pid == pid && m.kind == kind)
    ensures FindNode(before + [n] + rest, pid, kind) == |before|
  {
    hide FindNode;
    var all := before + [n] + rest;
    assert all[|before|] == n;
    assert forall k :: 0 <= k < |before| ==> all[k] == before[k] && before[k] in before;
    FindIs(all, pid, kind, |before|);
  }

  /** Looking up a node of the pool in the whole queue finds it where the pool has it; taking it out takes
      it out of the pool and leaves the other nodes. */
  lemma PoolNode(nodes: seq<FdNode>, pid: int, kind: int)
    requires kind == TYPE_CHILD_PARENT || kind == TYPE_PARENT_CHILD
    ensures var i, pool := FindNode(nodes, pid, kind), Kept(nodes, InPool);
            var j := FindNode(pool, pid, kind);
            && (i == |nodes| <==> j == |pool|)
            && (i < |nodes| ==>
                  && nodes[i] == pool[j] && Kept(Without(nodes, i), InPool) == Without(pool, j)
                  && Kept(Without(nodes, i), Apart) == Kept(nodes, Apart))
  {
    hide Kept, Without, FindNode;
    var i := FindNode(nodes, pid, kind);
    if i < |nodes| {
      PoolRank(nodes, i, pid, kind);
      KeptWithout(nodes, i, InPool);
      KeptWithout(nodes, i, Apart);
    } else {
      KeptMembers(nodes, InPool);
      NoneMissed(Kept(nodes, InPool), pid, kind);
    }
  }

  /** Changing a node of the pool changes the pool and leaves the other nodes. */
  lemma PoolNodeChanged(nodes: seq<FdNode>, pid: int, kind: int, n: FdNode)
    requires n.kind == kind && (kind == TYPE_CHILD_PARENT || kind == TYPE_PARENT_CHILD)
    requires FindNode(nodes, pid, kind) < |nodes|
    ensures var i, pool := FindNode(nodes, pid, kind), Kept(nodes, InPool);
            var j := FindNode(pool, pid, kind);
            && j < |pool| && Kept(nodes[i := n], InPool) == pool[j := n]
            && Kept(nodes[i := n], Apart) == Kept(nodes, Apart)
  {
    hide Kept, FindNode;
    var i := FindNode(nodes, pid, kind);
    PoolRank(nodes, i, pid, kind);
    KeptUpdate(nodes, i, n, InPool);
    KeptUpdate(nodes, i, n, Apart);
  }

  /** Without a pool all nodes are others. */
  lemma AllApart(nodes: seq<FdNode>)
    requires Kept(nodes, InPool) == []
    ensures nodes == Kept(nodes, Apart)
  {
    KeptMembers(nodes, InPool);
    hide Kept;
    assert forall n :: n in nodes ==> n !in Kept(nodes, InPool);
    KeptAll(nodes, Apart);
  }

  /** The nodes of a pre-forked child join the pool. */
  lemma PoolJoined(before: seq<FdNode>, cr: int, cw: int, pr: int, pw: int, pid: int)
    ensures Kept(before + ForkNodes(cr, cw, pr, pw, pid), InPool) == Kept(before, InPool) + ForkNodes(cr, cw, pr, pw, pid)
    ensures Kept(before + ForkNodes(cr, cw, pr, pw, pid), Apart) == Kept(before, Apart)
  {
    hide Kept;
    var nodes := ForkNodes(cr, cw, pr, pw, pid);
    KeptConcat(before, nodes, InPool);
    KeptConcat(before, nodes, Apart);
    KeptAll(nodes, InPool);
    KeptNone(nodes, Apart);
  }

  /** Cleaning up the nodes of the reserved child empties the pool and leaves the other nodes. */
  lemma PoolCleaned(nodes: seq<FdNode>, pid: int, self: int)
    requires Own(Kept(nodes, Apart), self) && 0 < pid && pid != self
    requires forall n :: n in Kept(nodes, InPool) ==> n.pid == pid
    ensures Kept(OfOthers(nodes, pid), InPool) == [] && Kept(OfOthers(nodes, pid), Apart) == Kept(nodes, Apart)
  {
    hide Kept;
    KeptTwice(nodes, NotOf(pid), InPool);
    KeptTwice(nodes, NotOf(pid), Apart);
    KeptNone(Kept(nodes, InPool), NotOf(pid));
    KeptAll(Kept(nodes, Apart), NotOf(pid));
  }

  function KillReasonNode(self: int, fd: int): FdNode {
    FdNode(TYPE_KILL_REASON_FD, self, [fd])
  }

  /** The node of the device for kill reasons may have been added, if there was none. */
  ghost predicate Reported(before: seq<FdNode>, after: seq<FdNode>, self: int) {
    || after == before
    || (&& FindNode(before, self, TYPE_KILL_REASON_FD) == |before|
        && exists fd :: 0 < fd && after == before + [KillReasonNode(self, fd)])
  }

  lemma ReportedTwice(before: seq<FdNode>, mid: seq<FdNode>, after: seq<FdNode>, self: int)
    requires Reported(before, mid, self) && Reported(mid, after, self)
    ensures Reported(before, after, self)
  {
    if mid != before {
      var fd :| 0 < fd && mid == before + [KillReasonNode(self, fd)];
      assert mid[|before|] == KillReasonNode(self, fd);
    }
  }

  /** The node of the device joins the nodes that are not the pool's. */
  lemma DeviceJoined(nodes: seq<FdNode>, self: int, fd: int)
    requires Own(Kept(nodes, Apart), self) && 0 < fd
    ensures Kept(nodes + [KillReasonNode(self, fd)], InPool) == Kept(nodes, InPool)
    ensures Own(Kept(nodes + [KillReasonNode(self, fd)], Apart), self)
    ensures FindNode(nodes, self, TYPE_KILL_REASON_FD) == |nodes| ==>
              Reported(Kept(nodes, Apart), Kept(nodes + [KillReasonNode(self, fd)], Apart), self)
  {
    hide Kept, FindNode;
    KeptAppend(nodes, KillReasonNode(self, fd), InPool);
    KeptAppend(nodes, KillReasonNode(self, fd), Apart);
    KeptMembers(nodes, Apart);
    if FindNode(nodes, self, TYPE_KILL_REASON_FD) == |nodes| {
      NoneMissed(Kept(nodes, Apart), self, TYPE_KILL_REASON_FD);
    }
  }

  /** No two waiting contexts have the same child. */
  lemma ChildrenDiffer(mgr: AppSpawnMgr, i: nat, j: nat)
    requires mgr.Valid() && Wait(mgr.appSpawnQueue, mgr) && i < |mgr.appSpawnQueue| && j < |mgr.appSpawnQueue| && i != j
    ensures mgr.appSpawnQueue[i].pid != mgr.appSpawnQueue[j].pid
  {
    hide Sum, PipeFds, CtxFds, CtxPid, NodeFds, FdLaw, RequestLaw, ChildLaw, RefLaw, IdLaw, MailLaw, CrashLaw, SortedByPid,
      Places, AllWaiting;
    OneWaits(mgr.appSpawnQueue, i, mgr.kernel.pipeOf, mgr.kernel.answersOn);
    OneWaits(mgr.appSpawnQueue, j, mgr.kernel.pipeOf, mgr.kernel.answersOn);
    PidsDiffer(mgr.Idle(), mgr.appSpawnQueue, mgr.appQueue, mgr.handPids, mgr.kernel.used, mgr.kernel.children,
               mgr.kernel.excused, i, j);
  }

  /** No waiting context has the child of a process record. */
  lemma RecordsAreOthers(mgr: AppSpawnMgr, k: nat)
    requires mgr.Valid() && Wait(mgr.appSpawnQueue, mgr) && k < |mgr.appQueue|
    ensures forall c :: c in mgr.appSpawnQueue ==> c.pid != mgr.appQueue[k].pid
  {
    hide Sum, PipeFds, CtxFds, CtxPid, NodeFds, FdLaw, RequestLaw, ChildLaw, RefLaw, IdLaw, MailLaw, CrashLaw, SortedByPid,
      Places, AllWaiting;
    forall c | c in mgr.appSpawnQueue
      ensures c.pid != mgr.appQueue[k].pid
    {
      var i :| 0 <= i < |mgr.appSpawnQueue| && mgr.appSpawnQueue[i] == c;
      OneWaits(mgr.appSpawnQueue, i, mgr.kernel.pipeOf, mgr.kernel.answersOn);
      NotYetAnApp(mgr.Idle(), mgr.appSpawnQueue, mgr.appQueue, mgr.handPids, mgr.kernel.used, mgr.kernel.children,
                  mgr.kernel.excused, i);
    }
  }

  /** Taking out the one spawning context of a child takes out all of them. */
  lemma OnlyOneHas(mgr: AppSpawnMgr, i: nat)
    requires mgr.Valid() && Wait(mgr.appSpawnQueue, mgr) && i < |mgr.appSpawnQueue|
    ensures forall c :: c in Without(mgr.appSpawnQueue, i)
                        <==> c in mgr.appSpawnQueue && c.pid != mgr.appSpawnQueue[i].pid
    ensures forall c :: c in mgr.appSpawnQueue && c.pid == mgr.appSpawnQueue[i].pid ==> c == mgr.appSpawnQueue[i]
  {
    hide mgr.Valid, AllWaiting, Without;
    var q := mgr.appSpawnQueue;
    forall j | 0 <= j < |q| && j != i
      ensures q[j].pid != q[i].pid
    {
      ChildrenDiffer(mgr, i, j);
    }
    WithoutKey(q, i, (c: Ctx) => c.pid);
  }

  lemma IdsAreGiven(mgr: AppSpawnMgr, i: nat)
    requires mgr.Valid() && i < |mgr.appSpawnQueue|
    ensures 0 < mgr.appSpawnQueue[i].id <= mgr.requestId
  {
  }

  /** Taking out the context of a client takes out all of them. */
  lemma ClientGone(mgr: AppSpawnMgr, i: nat)
    requires AtRest(mgr) && i < |mgr.appSpawnQueue|
    ensures forall c :: c in Without(mgr.appSpawnQueue, i)
                        <==> c in mgr.appSpawnQueue && c.id != mgr.appSpawnQueue[i].id
  {
    OnlyClient(mgr.appSpawnQueue, i, mgr.requestId);
  }

  lemma OnlyClient(q: seq<Ctx>, i: nat, requestId: nat)
    requires IdLaw(q, requestId) && i < |q|
    ensures forall c :: c in Without(q, i) <==> c in q && c.id != q[i].id
  {
    hide Without;
    WithoutKey(q, i, (c: Ctx) => c.id);
  }

  /** What the books say of descriptors: whatever is recorded is open. */
  lemma RecordedIsOpen(mgr: AppSpawnMgr)
    requires mgr.Valid()
    ensures forall c :: c in mgr.appSpawnQueue && 0 <= c.fd0 ==> c.fd0 in mgr.kernel.open
    ensures forall n, kind, pid :: n in mgr.fds.nodes && IsPipeNode(n, kind, pid)
                                   ==> n.fds[0] in mgr.kernel.open && n.fds[1] in mgr.kernel.open
    ensures forall p :: p in mgr.handPipes && 0 <= p.readEnd && 0 <= p.writeEnd
                        ==> p.readEnd in mgr.kernel.open && p.writeEnd in mgr.kernel.open
    ensures forall p :: p in mgr.kernel.answersOn || p in mgr.kernel.readsFrom ==> p in mgr.kernel.used && mgr.kernel.self < p
  {
    hide Sum, PipeFds, CtxFds, NodeFds, FdLaw, RequestLaw, ChildLaw, RefLaw, IdLaw, MailLaw, CrashLaw, SortedByPid;
    mgr.PidsAreUsed();
    FdsHeld(mgr.kernel.open, Sum(mgr.fds.nodes, NodeFds), Sum(mgr.appSpawnQueue, CtxFds), Sum(mgr.handPipes, PipeFds));
    HeldFds(mgr.appSpawnQueue, mgr.kernel.open);
    HeldNodes(mgr.fds.nodes, mgr.kernel.open);
    HeldPipes(mgr.handPipes, mgr.kernel.open);
  }
}
