/**
  How children are started: by a normal fork, or from the pool of one pre-forked child. Starting
  one disturbs neither the contexts that wait already nor, unless it is used, the pool.
*/
module Prefork {
  import opened AppMgr
  import opened Books
  import opened FdQueue
  import opened Images
  import opened Kernel
  import opened Routing
  import opened SpawnFds
  import opened Tally

  // ------------------------------------------------------------------------- steps that leave the others alone

  /** A new pipe leaves the contexts that wait, and the pool, as they are. */
  method OpenPipe(mgr: AppSpawnMgr, pipeOk: bool, ghost others: seq<Ctx>) returns (ret: int, r: int, w: int)
    requires mgr.Valid() && others <= mgr.appSpawnQueue && Wait(others, mgr)
    modifies mgr`handPipes, mgr.kernel`nextFd, mgr.kernel`open, mgr.kernel`nextPipe, mgr.kernel`pipeOf
    ensures mgr.Valid() && (ret == 0 <==> pipeOk) && Wait(others, mgr) && (old(PoolHolds(mgr)) ==> PoolHolds(mgr))
    ensures EndsKept(old(mgr.kernel.open), old(mgr.kernel.pipeOf), mgr.kernel.pipeOf)
    ensures ret != 0 ==> mgr.handPipes == old(mgr.handPipes) && mgr.kernel.pipeOf == old(mgr.kernel.pipeOf)
    ensures ret == 0 ==>
              && mgr.handPipes == old(mgr.handPipes) + [Pipe(r, w)] && 0 < r && 0 < w
              && NewPipe(r, w, old(mgr.kernel.open), old(mgr.kernel.nextPipe), old(mgr.kernel.pipeOf), mgr.kernel.pipeOf)
              && NewEnd(r, mgr.kernel) && SamePipe(r, w, mgr.kernel.pipeOf)
    ensures forall fd :: fd in old(mgr.kernel.open) && old(NewEnd(fd, mgr.kernel)) ==> NewEnd(fd, mgr.kernel)
  {
    hide mgr.Valid, AllWaiting, Pooled, Unshared, Awaits, IsPipeNode;
    RecordedIsOpen(mgr);
    ret, r, w := mgr.OpenPipe(pipeOk);
    WaitPastEnds(others, old(mgr.kernel.pipeOf), mgr.kernel.answersOn, old(mgr.kernel.open), mgr.kernel.pipeOf);
    if old(PoolHolds(mgr)) {
      PoolPastEnds(mgr.reservedPid, mgr.fds.nodes, mgr.kernel.self, old(mgr.kernel.pipeOf), mgr.kernel.answersOn,
                   mgr.kernel.readsFrom, mgr.kernel.inbox, old(mgr.kernel.open), mgr.kernel.pipeOf);
    }
  }

  /** InitForkContext, and the pipe of ForkAndDoUnlockMount. */
  method InitForkContext(mgr: AppSpawnMgr, i: nat, pipeOk: bool, ghost others: seq<Ctx>) returns (ret: int)
    requires mgr.Valid() && mgr.handPipes == [] && others <= mgr.appSpawnQueue && Wait(others, mgr)
    requires |others| <= i < |mgr.appSpawnQueue| && mgr.appSpawnQueue[i].fd0 < 0 && mgr.appSpawnQueue[i].fd1 < 0
    modifies mgr`appSpawnQueue, mgr`handPipes
    modifies mgr.kernel`nextFd, mgr.kernel`open, mgr.kernel`nextPipe, mgr.kernel`pipeOf
    ensures mgr.Valid() && (ret == 0 <==> pipeOk) && Wait(others, mgr) && (old(PoolHolds(mgr)) ==> PoolHolds(mgr))
    ensures mgr.handPipes == [] && others <= mgr.appSpawnQueue
    ensures ret != 0 ==> mgr.appSpawnQueue == old(mgr.appSpawnQueue)
    ensures ret == 0 ==> GotPipe(old(mgr.appSpawnQueue), mgr.appSpawnQueue, i, mgr.kernel.pipeOf)
                         && NewEnd(mgr.appSpawnQueue[i].fd0, mgr.kernel)
  {
    hide mgr.Valid, AllWaiting, Pooled, NewEnd, NewPipe, SamePipe;
    var r, w;
    ret, r, w := OpenPipe(mgr, pipeOk, others);
    if ret == 0 {
      mgr.HoldPipe(i, r, w, 0);
    }
  }

  /** Context `i` has got both ends of a pipe. */
  predicate GotPipe(before: seq<Ctx>, after: seq<Ctx>, i: nat, pipeOf: map<int, End>) {
    && i < |before| == |after| && 0 < after[i].fd0 && 0 < after[i].fd1
    && after == before[i := before[i].(fd0 := after[i].fd0, fd1 := after[i].fd1)]
    && SamePipe(after[i].fd0, after[i].fd1, pipeOf)
  }

  /** The fork of AppSpawnProcessMsg and of ForkAndDoUnlockMount. */
  method ForkChild(mgr: AppSpawnMgr, i: nat, forkOk: bool, ghost others: seq<Ctx>) returns (ret: int)
    requires mgr.Valid() && others <= mgr.appSpawnQueue && Wait(others, mgr) && |others| <= i < |mgr.appSpawnQueue|
    requires mgr.appSpawnQueue[i].pid == 0 && !mgr.appSpawnQueue[i].promoted && NewEnd(mgr.appSpawnQueue[i].fd0, mgr.kernel)
    requires 0 < mgr.appSpawnQueue[i].fd1 && SamePipe(mgr.appSpawnQueue[i].fd0, mgr.appSpawnQueue[i].fd1, mgr.kernel.pipeOf)
    requires NoMailFor(mgr.appSpawnQueue[i].id, mgr.kernel.readsFrom, mgr.kernel.inbox)
    modifies mgr`appSpawnQueue, mgr.kernel`nextPid, mgr.kernel`used, mgr.kernel`children
    modifies mgr.kernel`images, mgr.kernel`answersOn, mgr.kernel`readsFrom
    ensures mgr.Valid() && (ret == 0 <==> forkOk) && Wait(others, mgr) && (old(PoolHolds(mgr)) ==> PoolHolds(mgr))
    ensures others <= mgr.appSpawnQueue && mgr.kernel.readsFrom == old(mgr.kernel.readsFrom)
    ensures Grown(old(mgr.kernel.used), old(mgr.kernel.children), mgr.kernel.used, mgr.kernel.children)
    ensures ret != 0 ==> mgr.appSpawnQueue == old(mgr.appSpawnQueue)
    ensures ret == 0 ==> GotChild(old(mgr.appSpawnQueue), mgr.appSpawnQueue, i, mgr.kernel.pipeOf, mgr.kernel.answersOn)
    ensures NewPids(PidIf(ret == 0, mgr.appSpawnQueue[i].pid), {}, old(mgr.kernel.used), mgr.kernel.used)
  {
    hide mgr.Valid, AllWaiting, Pooled, NewEnd, NoMailFor, Born, Grown, NewPids;
    RecordedIsOpen(mgr);
    NoneBorn(mgr.kernel.used, mgr.kernel.children);
    ret := mgr.ForkChild(i, forkOk);
    if ret == 0 {
      ghost var pid, fd := mgr.appSpawnQueue[i].pid, mgr.appSpawnQueue[i].fd0;
      OneBorn(pid, old(mgr.kernel.used), old(mgr.kernel.children), mgr.kernel.used, mgr.kernel.children);
      WaitPastFork(others, mgr.kernel.pipeOf, old(mgr.kernel.answersOn), pid, fd, mgr.kernel.answersOn);
      if old(PoolHolds(mgr)) {
        PoolPastFork(mgr.reservedPid, mgr.fds.nodes, mgr.kernel.self, mgr.kernel.pipeOf, old(mgr.kernel.answersOn),
                     mgr.kernel.readsFrom, mgr.kernel.inbox, pid, fd, mgr.kernel.answersOn);
      }
    }
  }

  /** Context `i` has got a child, which answers on the context's pipe. */
  ghost predicate GotChild(before: seq<Ctx>, after: seq<Ctx>, i: nat, pipeOf: map<int, End>, answersOn: map<int, nat>) {
    && i < |before| == |after| && 0 < after[i].pid && after == before[i := before[i].(pid := after[i].pid)]
    && after[i].fd0 in pipeOf && after[i].pid in answersOn && pipeOf[after[i].fd0] == ReadEnd(answersOn[after[i].pid])
  }

  // ------------------------------------------------------------------------- a normal fork

  datatype ForkOutcome = ForkOutcome(pipeOk: bool, forkOk: bool)

  /** A context that has its message, but neither pipe nor child. */
  predicate Childless(c: Ctx) {
    && c.pid == 0 && c.fd0 == -1 && c.fd1 == -1 && c.message.Some? && !c.settled && !c.promoted && Named(c)
    && (!c.spawning ==> !c.tokenRef && !c.uidRef)
  }

  /** NormalSpawnChild, for the last context of the queue. */
  method NormalSpawnChild(mgr: AppSpawnMgr, fork: ForkOutcome, ghost others: seq<Ctx>, ghost c: Ctx) returns (ret: int)
    requires mgr.Valid() && mgr.handPipes == [] && Wait(others, mgr)
    requires mgr.appSpawnQueue == others + [c] && Childless(c)
    requires NoMailFor(c.id, mgr.kernel.readsFrom, mgr.kernel.inbox)
    modifies mgr`appSpawnQueue, mgr`handPipes, mgr.kernel`nextFd, mgr.kernel`open, mgr.kernel`nextPipe, mgr.kernel`pipeOf
    modifies mgr.kernel`nextPid, mgr.kernel`used, mgr.kernel`children
    modifies mgr.kernel`images, mgr.kernel`answersOn, mgr.kernel`readsFrom
    ensures mgr.Valid() && mgr.handPipes == [] && Wait(others, mgr) && (old(PoolHolds(mgr)) ==> PoolHolds(mgr))
    ensures ret == 0 <==> fork.pipeOk && fork.forkOk
    ensures Started(mgr.appSpawnQueue, others, c, ret, mgr.kernel.pipeOf, mgr.kernel.answersOn)
    ensures Grown(old(mgr.kernel.used), old(mgr.kernel.children), mgr.kernel.used, mgr.kernel.children)
    ensures NewPids(PidIf(ret == 0, mgr.appSpawnQueue[|others|].pid), {}, old(mgr.kernel.used), mgr.kernel.used)
  {
    hide mgr.Valid, AllWaiting, PoolHolds, NewEnd, NoMailFor, Grown, NewPids;
    NoneBorn(mgr.kernel.used, mgr.kernel.children);
    var i := |mgr.appSpawnQueue| - 1;
    ret := InitForkContext(mgr, i, fork.pipeOk, others);
    if ret != 0 {
      return;
    }
    ret := ForkChild(mgr, i, fork.forkOk, others);
  }

  /** The last context waits for its child, or there is none. */
  ghost predicate Started(q: seq<Ctx>, others: seq<Ctx>, c: Ctx, ret: int, pipeOf: map<int, End>, answersOn: map<int, nat>) {
    && |q| == |others| + 1 && q[..|others|] == others
    && q[|others|] == c.(pid := q[|others|].pid, fd0 := q[|others|].fd0, fd1 := q[|others|].fd1)
    && if ret == 0 then Waiting(q[|others|], pipeOf, answersOn) else q[|others|].pid == 0
  }

  // ------------------------------------------------------------------------- the pool

  datatype PreforkOutcome =
    PreforkOutcome(answersOk: bool, requestsOk: bool, answersMemory: bool, requestsMemory: bool, forkOk: bool)

  const PREFORKS: PreforkOutcome := PreforkOutcome(true, true, true, true, true)

  /** Steps 1 and 2 of ForkAndRegisterFds: one pipe for the child's answer, one for requests to it. */
  method OpenBothPipes(mgr: AppSpawnMgr, fork: PreforkOutcome, ghost others: seq<Ctx>)
    returns (ret: int, cr: int, cw: int, pr: int, pw: int)
    requires mgr.Valid() && mgr.handPipes == [] && others <= mgr.appSpawnQueue && Wait(others, mgr)
    modifies mgr`handPipes, mgr.kernel`nextFd, mgr.kernel`open, mgr.kernel`nextPipe, mgr.kernel`pipeOf
    ensures mgr.Valid() && Wait(others, mgr) && (ret == 0 <==> fork.answersOk && fork.requestsOk)
    ensures ret != 0 ==> mgr.handPipes == []
    ensures ret == 0 ==>
              && mgr.handPipes == [Pipe(cr, cw), Pipe(pr, pw)] && 0 < cr && 0 < cw && 0 < pr && 0 < pw
              && NewEnd(cr, mgr.kernel) && NewEnd(pr, mgr.kernel)
              && SamePipe(cr, cw, mgr.kernel.pipeOf) && SamePipe(pr, pw, mgr.kernel.pipeOf)
  {
    hide mgr.Valid, AllWaiting, NewEnd, NewPipe, Unshared;
    pr, pw := -1, -1;
    ret, cr, cw := OpenPipe(mgr, fork.answersOk, others);
    if ret != 0 {
      return;
    }
    RecordedIsOpen(mgr);
    assert Pipe(cr, cw) == mgr.handPipes[0];
    ret, pr, pw := OpenPipe(mgr, fork.requestsOk, others);
    if ret != 0 {
      mgr.ClearPipe(cr, cw, 0);
    }
  }

  /** Step 3 of ForkAndRegisterFds: both pipes go to the end of the queue, under a pid that is no process;
      or the queue is as before. */
  method RegisterBothPipes(mgr: AppSpawnMgr, fork: PreforkOutcome, cr: int, cw: int, pr: int, pw: int)
    returns (registered: bool)
    requires mgr.Valid() && mgr.handPipes == [Pipe(cr, cw), Pipe(pr, pw)]
    requires 0 < cr && 0 < cw && 0 < pr && 0 < pw
    modifies mgr`handPipes, mgr.fds, mgr.kernel`open
    ensures mgr.Valid() && mgr.handPipes == [] && (registered <==> fork.answersMemory && fork.requestsMemory)
    ensures mgr.fds.nodes == old(mgr.fds.nodes) + if registered then ForkNodes(cr, cw, pr, pw, -1) else []
  {
    hide mgr.Valid, Without;
    ghost var before := mgr.fds.nodes;
    NodesStay(before);
    OtherGone(Pipe(cr, cw), Pipe(pr, pw));
    OnlyGone(Pipe(pr, pw));
    registered := mgr.RegisterPipe(TYPE_CHILD_PARENT, -1, cr, cw, fork.answersMemory, 0);
    if !registered {
      mgr.ClearPipe(cr, cw, 0);
      mgr.ClearPipe(pr, pw, 0);
      return;
    }
    registered := mgr.RegisterPipe(TYPE_PARENT_CHILD, -1, pr, pw, fork.requestsMemory, 0);
    if registered {
      TwoJoin(before, cr, cw, pr, pw, -1);
    } else {
      LastGone(before, FdNode(TYPE_CHILD_PARENT, -1, [cr, cw]));
      mgr.DeleteSpawningFds(|mgr.fds.nodes| - 1, cr, cw);
      OtherGone(Pipe(pr, pw), Pipe(cr, cw));
      mgr.ClearPipe(cr, cw, 1);
      mgr.ClearPipe(pr, pw, 0);
    }
  }

  lemma NodesStay(nodes: seq<FdNode>)
    ensures nodes + [] == nodes
  {
  }

  lemma OnlyGone<T>(x: T)
    ensures Without([x], 0) == []
  {
  }

  lemma OtherGone<T>(x: T, y: T)
    ensures [x] + [y] == [x, y] && Without([x, y], 1) == [x] && Without([x, y], 0) == [y]
  {
  }

  lemma TwoJoin(before: seq<FdNode>, cr: int, cw: int, pr: int, pw: int, pid: int)
    ensures before + [FdNode(TYPE_CHILD_PARENT, pid, [cr, cw])] + [FdNode(TYPE_PARENT_CHILD, pid, [pr, pw])] ==
            before + ForkNodes(cr, cw, pr, pw, pid)
  {
  }

  /** Both nodes get a pid. */
  lemma TwoAdopted(before: seq<FdNode>, cr: int, cw: int, pr: int, pw: int, pid: int)
    ensures var nodes := before + ForkNodes(cr, cw, pr, pw, -1);
            nodes[|before| := nodes[|before|].(pid := pid)][|before| + 1 := nodes[|before| + 1].(pid := pid)] ==
            before + ForkNodes(cr, cw, pr, pw, pid)
  {
  }

  /** Both nodes go again. */
  lemma TwoGone(before: seq<FdNode>, cr: int, cw: int, pr: int, pw: int, pid: int)
    ensures var nodes := before + ForkNodes(cr, cw, pr, pw, pid);
            && nodes[|before|].fds == [cr, cw] && Without(nodes, |before|)[|before|].fds == [pr, pw]
            && Without(Without(nodes, |before|), |before|) == before
  {
  }

  /** ForkAndRegisterFds, with context `i` at work: a pre-forked child whose two nodes join the queue, or
      no change of the queue at all. */
  method ForkAndRegisterFds(mgr: AppSpawnMgr, i: nat, fork: PreforkOutcome, ghost others: seq<Ctx>) returns (pid: int)
    requires mgr.Valid() && mgr.handPipes == [] && mgr.handPids == multiset{} && NoPool(mgr)
    requires others <= mgr.appSpawnQueue && Wait(others, mgr) && i < |mgr.appSpawnQueue|
    modifies mgr`handPipes, mgr`handPids, mgr.fds
    modifies mgr.kernel`nextFd, mgr.kernel`open, mgr.kernel`nextPipe, mgr.kernel`pipeOf
    modifies mgr.kernel`nextPid, mgr.kernel`used, mgr.kernel`children
    modifies mgr.kernel`images, mgr.kernel`answersOn, mgr.kernel`readsFrom
    ensures mgr.Valid() && mgr.handPipes == [] && Wait(others, mgr)
    ensures mgr.handPids == Plus(multiset{}, 0 < pid, pid)
    ensures 0 < pid <==> fork == PREFORKS
    ensures pid <= 0 ==> mgr.fds.nodes == old(mgr.fds.nodes)
    ensures 0 < pid ==> exists cr, cw, pr, pw ::
              && mgr.fds.nodes == old(mgr.fds.nodes) + ForkNodes(cr, cw, pr, pw, pid)
              && Connected(pid, cr, cw, pr, pw, mgr.kernel)
    ensures Grown(old(mgr.kernel.used), old(mgr.kernel.children), mgr.kernel.used, mgr.kernel.children)
    ensures NewPids({}, PidIf(0 < pid, pid), old(mgr.kernel.used), mgr.kernel.used)
  {
    hide mgr.Valid, AllWaiting, Unshared, Plus, Without, Kept, SamePipe, Grown, NewPids, Connected, ForkNodes;
    PlusMinus(multiset{}, true, -1);
    NoneBorn(mgr.kernel.used, mgr.kernel.children);
    NodesStay(mgr.fds.nodes);
    AllApart(mgr.fds.nodes);
    ghost var before := mgr.fds.nodes;
    var ret, cr, cw, pr, pw := OpenBothPipes(mgr, fork, others);
    if ret != 0 {
      return -1;
    }
    var registered := RegisterBothPipes(mgr, fork, cr, cw, pr, pw);
    if !registered {
      return -1;
    }
    pid := ForkFromPipes(mgr, i, cr, cw, pr, pw, fork.forkOk, others, before);
    if pid > 0 {
      NodesAdopted(mgr, cr, cw, pr, pw, pid, before);
    } else {
      DeleteBoth(mgr, cr, cw, pr, pw, before);
    }
  }

  /** `pfFds->pid = pid; pcFds->pid = pid` */
  method NodesAdopted(mgr: AppSpawnMgr, cr: int, cw: int, pr: int, pw: int, pid: int, ghost before: seq<FdNode>)
    requires mgr.Valid() && mgr.fds.nodes == before + ForkNodes(cr, cw, pr, pw, -1)
    modifies mgr.fds`nodes
    ensures mgr.Valid() && mgr.fds.nodes == before + ForkNodes(cr, cw, pr, pw, pid)
  {
    hide mgr.Valid;
    TwoAdopted(before, cr, cw, pr, pw, pid);
    var n := |mgr.fds.nodes|;
    mgr.SetNodePid(n - 2, pid);
    mgr.SetNodePid(n - 1, pid);
  }

  /** The end of ForkAndRegisterFds when the fork has failed. */
  method DeleteBoth(mgr: AppSpawnMgr, cr: int, cw: int, pr: int, pw: int, ghost before: seq<FdNode>)
    requires mgr.Valid() && mgr.handPipes == [] && mgr.fds.nodes == before + ForkNodes(cr, cw, pr, pw, -1)
    requires 0 < cr && 0 < cw && 0 < pr && 0 < pw
    modifies mgr.fds, mgr`handPipes, mgr.kernel`open
    ensures mgr.Valid() && mgr.handPipes == [] && mgr.fds.nodes == before
  {
    hide mgr.Valid, Without;
    TwoGone(before, cr, cw, pr, pw, -1);
    OtherGone(Pipe(cr, cw), Pipe(pr, pw));
    OnlyGone(Pipe(pr, pw));
    var n := |mgr.fds.nodes|;
    mgr.DeleteSpawningFds(n - 2, cr, cw);
    mgr.DeleteSpawningFds(n - 2, pr, pw);
    assert mgr.handPipes == [Pipe(cr, cw), Pipe(pr, pw)];
    mgr.ClearPipe(cr, cw, 0);
    mgr.ClearPipe(pr, pw, 0);
  }

  /** Child `pid` answers on the first of two pipes and awaits a message on the second. */
  ghost predicate Connected(pid: int, cr: int, cw: int, pr: int, pw: int, kernel: Kernel)
    reads kernel
  {
    && 0 < cr && 0 < cw && 0 < pr && 0 < pw
    && cr in kernel.pipeOf && pid in kernel.answersOn && kernel.pipeOf[cr] == ReadEnd(kernel.answersOn[pid])
    && Awaits(pid, pw, kernel.pipeOf, kernel.readsFrom, kernel.inbox)
  }

  /** Step 4: the fork itself. */
  method ForkFromPipes(mgr: AppSpawnMgr, i: nat, cr: int, cw: int, pr: int, pw: int, forkOk: bool, ghost others: seq<Ctx>,
                       ghost before: seq<FdNode>)
    returns (pid: int)
    requires mgr.Valid() && mgr.handPids == multiset{} && NewEnd(cr, mgr.kernel) && NewEnd(pr, mgr.kernel)
    requires SamePipe(cr, cw, mgr.kernel.pipeOf) && SamePipe(pr, pw, mgr.kernel.pipeOf)
    requires 0 < cr && 0 < cw && 0 < pr && 0 < pw
    requires mgr.fds.nodes == before + ForkNodes(cr, cw, pr, pw, -1) && Own(before, mgr.kernel.self)
    requires others <= mgr.appSpawnQueue && Wait(others, mgr) && i < |mgr.appSpawnQueue|
    modifies mgr`handPids, mgr.kernel`nextPid, mgr.kernel`used, mgr.kernel`children
    modifies mgr.kernel`images, mgr.kernel`answersOn, mgr.kernel`readsFrom
    ensures mgr.Valid() && Wait(others, mgr) && (0 < pid <==> forkOk)
    ensures mgr.handPids == Plus(multiset{}, 0 < pid, pid)
    ensures Grown(old(mgr.kernel.used), old(mgr.kernel.children), mgr.kernel.used, mgr.kernel.children)
    ensures NewPids({}, PidIf(0 < pid, pid), old(mgr.kernel.used), mgr.kernel.used)
    ensures 0 < pid ==> Connected(pid, cr, cw, pr, pw, mgr.kernel)
  {
    hide mgr.Valid, AllWaiting, Plus, Born, Grown, NewPids, ForkNodes;
    RecordedIsOpen(mgr);
    NoneBorn(mgr.kernel.used, mgr.kernel.children);
    pid := mgr.ForkReserved(i, cr, cw, pr, pw, forkOk, before);
    PlusMinus(multiset{}, true, pid);
    if forkOk {
      OneBorn(pid, old(mgr.kernel.used), old(mgr.kernel.children), mgr.kernel.used, mgr.kernel.children);
      WaitPastFork(others, mgr.kernel.pipeOf, old(mgr.kernel.answersOn), pid, cr, mgr.kernel.answersOn);
    }
  }

  /** What ForkAndRegisterFds leaves behind is a pool. */
  lemma PoolMade(mgr: AppSpawnMgr, before: seq<FdNode>, pid: int)
    requires Drained(before, mgr.kernel.self)
    requires pid <= 0 ==> mgr.fds.nodes == before
    requires 0 < pid ==> exists cr, cw, pr, pw ::
                           mgr.fds.nodes == before + ForkNodes(cr, cw, pr, pw, pid) && Connected(pid, cr, cw, pr, pw, mgr.kernel)
    ensures Pooled(pid, mgr.fds.nodes, mgr.kernel.self, mgr.kernel.pipeOf, mgr.kernel.answersOn, mgr.kernel.readsFrom,
                   mgr.kernel.inbox)
    ensures Others(mgr) == Kept(before, Apart)
  {
    hide Kept;
    if 0 < pid {
      var cr, cw, pr, pw :| && mgr.fds.nodes == before + ForkNodes(cr, cw, pr, pw, pid)
                            && Connected(pid, cr, cw, pr, pw, mgr.kernel);
      PoolJoined(before, cr, cw, pr, pw, pid);
    }
  }

  /** ProcessPreFork, with context `i` at work: never at the expense of an idle reserved child. */
  method ProcessPreFork(mgr: AppSpawnMgr, i: nat, fork: PreforkOutcome, ghost others: seq<Ctx>)
    requires mgr.Valid() && mgr.handPipes == [] && mgr.handPids == multiset{} && NoPool(mgr)
    requires mgr.reservedPid <= 0 || mgr.given
    requires others <= mgr.appSpawnQueue && Wait(others, mgr) && i < |mgr.appSpawnQueue|
    modifies mgr`handPipes, mgr`handPids, mgr`reservedPid, mgr`given, mgr.fds
    modifies mgr.kernel`nextFd, mgr.kernel`open, mgr.kernel`nextPipe, mgr.kernel`pipeOf
    modifies mgr.kernel`nextPid, mgr.kernel`used, mgr.kernel`children
    modifies mgr.kernel`images, mgr.kernel`answersOn, mgr.kernel`readsFrom
    ensures mgr.Valid() && mgr.handPipes == [] && mgr.handPids == multiset{} && !mgr.given
    ensures PoolHolds(mgr) && Wait(others, mgr) && Others(mgr) == old(Others(mgr))
    ensures 0 < mgr.reservedPid <==> fork == PREFORKS
    ensures NewPids({}, PidIf(0 < mgr.reservedPid, mgr.reservedPid), old(mgr.kernel.used), mgr.kernel.used)
    ensures Grown(old(mgr.kernel.used), old(mgr.kernel.children), mgr.kernel.used, mgr.kernel.children)
  {
    hide mgr.Valid, AllWaiting, Pooled, Plus, Minus, Kept, ForkNodes, Connected, Grown, NewPids;
    PlusMinus(multiset{}, true, -1);
    ghost var before := mgr.fds.nodes;
    mgr.Reserve(-1);
    var pid := ForkAndRegisterFds(mgr, i, fork, others);
    PoolMade(mgr, before, pid);
    PlusMinus(multiset{}, 0 < pid, pid);
    if pid > 0 {
      PlusMinus(multiset{}, true, pid);
    }
    mgr.Reserve(pid);
  }

  /** SendPipeMsgToChild: after the message nothing will be sent to the child, its request pipe is closed. */
  method SendPipeMsgToChild(mgr: AppSpawnMgr, childPid: int, msg: PipeMsg, sent: Sent) returns (ret: int)
    requires mgr.Valid() && PoolHolds(mgr) && 0 < childPid == mgr.reservedPid
    requires MeantFor(msg, childPid, mgr.appSpawnQueue, mgr.requestId)
    modifies mgr.fds, mgr.kernel`inbox, mgr.kernel`open
    ensures mgr.Valid() && (ret == 0 <==> sent.Whole?) && Others(mgr) == old(Others(mgr))
    ensures Kept(mgr.fds.nodes, InPool) == if ret == 0 then [old(PoolNodes(mgr))[0]] else old(PoolNodes(mgr))
    ensures Mailed(childPid, msg, sent, mgr.kernel.readsFrom, old(mgr.kernel.inbox), mgr.kernel.inbox)
  {
    hide mgr.Valid, MeantFor, Mailed, FindNode, Without, Kept;
    PoolNode(mgr.fds.nodes, childPid, TYPE_PARENT_CHILD);
    PoolFinds(Kept(mgr.fds.nodes, InPool), childPid);
    var k := mgr.fds.FindSpawningFdsByPid(childPid, TYPE_PARENT_CHILD);
    if k == |mgr.fds.nodes| {
      return -1;
    }
    ret := mgr.WriteToChild(k, msg, sent);
    if ret != 0 {
      return -1;
    }
    var closed := mgr.UnregisterSpawningFdsByPid(childPid, TYPE_PARENT_CHILD);
  }

  /** The two nodes of the pool. */
  ghost function PoolNodes(mgr: AppSpawnMgr): (pool: seq<FdNode>)
    requires PoolHolds(mgr) && 0 < mgr.reservedPid
    reads mgr, mgr.kernel, mgr.fds
    ensures |pool| == 2
  {
    Kept(mgr.fds.nodes, InPool)
  }

  lemma PoolFinds(pool: seq<FdNode>, pid: int)
    requires |pool| == 2 && pool[0].pid == pid && pool[1].pid == pid
    requires pool[0].kind == TYPE_CHILD_PARENT && pool[1].kind == TYPE_PARENT_CHILD
    ensures FindNode(pool, pid, TYPE_CHILD_PARENT) == 0 && FindNode(pool, pid, TYPE_PARENT_CHILD) == 1
    ensures Without(pool, 1) == [pool[0]] && FindNode([pool[0]], pid, TYPE_CHILD_PARENT) == 0
  {
    FindIs(pool, pid, TYPE_CHILD_PARENT, 0);
    FindIs(pool, pid, TYPE_PARENT_CHILD, 1);
    FindIs([pool[0]], pid, TYPE_CHILD_PARENT, 0);
  }

  // ------------------------------------------------------------------------- a spawn

  /** What the kernel does in the course of one spawn. */
  datatype SpawnOutcome =
    SpawnOutcome(prefork: bool, mapOk: bool, sent: Sent, fork: ForkOutcome, refork: PreforkOutcome)

  /** Whether the reserved child is to serve the request. */
  predicate HandsOn(o: SpawnOutcome, reservedPid: int) {
    o.prefork && 0 < reservedPid && o.mapOk
  }

  /** The middle of AppSpawnProcessMsgForPrefork: the reserved child gets the request and the context
      gets the child with its pipe; or the child is killed. */
  method HandToPreforked(mgr: AppSpawnMgr, sent: Sent, ghost others: seq<Ctx>, ghost c: Ctx) returns (ret: int)
    requires mgr.Valid() && !mgr.given && PoolHolds(mgr) && 0 < mgr.reservedPid && Wait(others, mgr)
    requires mgr.appSpawnQueue == others + [c] && Childless(c)
    requires NoMailFor(c.id, mgr.kernel.readsFrom, mgr.kernel.inbox)
    modifies mgr`appSpawnQueue, mgr`given, mgr.fds, mgr.kernel`inbox, mgr.kernel`open, mgr.kernel`excused
    ensures mgr.Valid() && mgr.given && NoPool(mgr) && Others(mgr) == old(Others(mgr)) && (ret == 0 <==> sent.Whole?)
    ensures Started(mgr.appSpawnQueue, others, c, ret, mgr.kernel.pipeOf, mgr.kernel.answersOn)
    ensures Mailed(mgr.reservedPid, ForkMsg(c.id), sent, mgr.kernel.readsFrom, old(mgr.kernel.inbox), mgr.kernel.inbox)
    ensures ret == 0 ==> mgr.appSpawnQueue[|others|].pid == mgr.reservedPid
    ensures mgr.kernel.excused == old(mgr.kernel.excused) + if ret == 0 then {} else {mgr.reservedPid}
  {
    hide mgr.Valid, AllWaiting, NoMailFor, Mailed, FindNode, Without, OfOthers, Kept;
    var i, childPid := |mgr.appSpawnQueue| - 1, mgr.reservedPid;
    IdsAreGiven(mgr, i);
    OnlyIdOf(mgr, i);
    RecordedIsOpen(mgr);
    ghost var pool := PoolNodes(mgr);
    PoolFinds(pool, childPid);
    OnlyGone(pool[0]);
    mgr.GiveReserved(i);
    ret := SendPipeMsgToChild(mgr, childPid, ForkMsg(mgr.appSpawnQueue[i].id), sent);
    if ret == 0 {
      PoolNode(mgr.fds.nodes, childPid, TYPE_CHILD_PARENT);
      ret := mgr.TransferPreforkFdToForkCtx(i, childPid);
    }
    if ret != 0 {
      mgr.Kill(childPid);
      PoolCleaned(mgr.fds.nodes, childPid, mgr.kernel.self);
      mgr.CleanupSpawningFdsByPid(childPid);
      mgr.ClearPid(i);
    }
  }

  /** Ids tell the contexts apart. */
  lemma OnlyIdOf(mgr: AppSpawnMgr, i: nat)
    requires mgr.Valid() && i < |mgr.appSpawnQueue|
    ensures forall k :: 0 <= k < |mgr.appSpawnQueue| && k != i ==> mgr.appSpawnQueue[k].id != mgr.appSpawnQueue[i].id
  {
  }

  /** ProcessPreFork at the end of a spawn: the spawned context keeps waiting for its own child. */
  method PreForkAgain(mgr: AppSpawnMgr, fork: PreforkOutcome, ret: int, ghost others: seq<Ctx>, ghost c: Ctx)
    requires mgr.Valid() && mgr.handPipes == [] && mgr.handPids == multiset{} && NoPool(mgr)
    requires mgr.reservedPid <= 0 || mgr.given
    requires Wait(others, mgr) && Started(mgr.appSpawnQueue, others, c, ret, mgr.kernel.pipeOf, mgr.kernel.answersOn)
    modifies mgr`handPipes, mgr`handPids, mgr`reservedPid, mgr`given, mgr.fds
    modifies mgr.kernel`nextFd, mgr.kernel`open, mgr.kernel`nextPipe, mgr.kernel`pipeOf
    modifies mgr.kernel`nextPid, mgr.kernel`used, mgr.kernel`children
    modifies mgr.kernel`images, mgr.kernel`answersOn, mgr.kernel`readsFrom
    ensures mgr.Valid() && mgr.handPipes == [] && mgr.handPids == multiset{} && !mgr.given
    ensures PoolHolds(mgr) && Wait(others, mgr) && Others(mgr) == old(Others(mgr))
    ensures Started(mgr.appSpawnQueue, others, c, ret, mgr.kernel.pipeOf, mgr.kernel.answersOn)
    ensures 0 < mgr.reservedPid <==> fork == PREFORKS
    ensures NewPids({}, PidIf(0 < mgr.reservedPid, mgr.reservedPid), old(mgr.kernel.used), mgr.kernel.used)
    ensures Grown(old(mgr.kernel.used), old(mgr.kernel.children), mgr.kernel.used, mgr.kernel.children)
  {
    hide mgr.Valid, AllWaiting, Pooled, Waiting, Drained, Kept, Grown, NewPids;
    ghost var q := mgr.appSpawnQueue;
    assert q == others + [q[|others|]];
    if ret == 0 {
      OneMoreWaits(others, q[|others|], mgr.kernel.pipeOf, mgr.kernel.answersOn);
    }
    ProcessPreFork(mgr, |mgr.appSpawnQueue| - 1, fork, if ret == 0 then q else others);
    if ret == 0 {
      OneWaits(q, |others|, mgr.kernel.pipeOf, mgr.kernel.answersOn);
      FirstOnesWait(q, |others|, mgr.kernel.pipeOf, mgr.kernel.answersOn);
    }
  }

  /** The first branch of AppSpawnProcessMsgForPrefork: a normal fork, and a pre-fork for the next request. */
  method SpawnAndPreFork(mgr: AppSpawnMgr, o: SpawnOutcome, ghost others: seq<Ctx>, ghost c: Ctx) returns (ret: int)
    requires mgr.Valid() && mgr.handPipes == [] && mgr.handPids == multiset{} && !mgr.given && mgr.reservedPid <= 0
    requires PoolHolds(mgr) && Wait(others, mgr) && mgr.appSpawnQueue == others + [c] && Childless(c)
    requires NoMailFor(c.id, mgr.kernel.readsFrom, mgr.kernel.inbox)
    modifies mgr`appSpawnQueue, mgr`handPipes, mgr`handPids, mgr`reservedPid, mgr`given, mgr.fds
    modifies mgr.kernel`nextFd, mgr.kernel`open, mgr.kernel`nextPipe, mgr.kernel`pipeOf
    modifies mgr.kernel`nextPid, mgr.kernel`used, mgr.kernel`children
    modifies mgr.kernel`images, mgr.kernel`answersOn, mgr.kernel`readsFrom
    ensures mgr.Valid() && mgr.handPipes == [] && mgr.handPids == multiset{} && !mgr.given
    ensures PoolHolds(mgr) && Wait(others, mgr) && Others(mgr) == old(Others(mgr))
    ensures Started(mgr.appSpawnQueue, others, c, ret, mgr.kernel.pipeOf, mgr.kernel.answersOn)
    ensures ret == 0 <==> o.fork.pipeOk && o.fork.forkOk
    ensures 0 < mgr.reservedPid <==> o.refork == PREFORKS
    ensures NewPids(PidIf(ret == 0, mgr.appSpawnQueue[|others|].pid), PidIf(0 < mgr.reservedPid, mgr.reservedPid),
                    old(mgr.kernel.used), mgr.kernel.used)
    ensures Grown(old(mgr.kernel.used), old(mgr.kernel.children), mgr.kernel.used, mgr.kernel.children)
  {
    hide mgr.Valid, AllWaiting, NoMailFor, Waiting, Childless, Pool, Drained, Kept, Grown, NewPids;
    ret := NormalSpawnChild(mgr, o.fork, others, c);
    NotPooled(mgr);
    ghost var used, children := mgr.kernel.used, mgr.kernel.children;
    PreForkAgain(mgr, o.refork, ret, others, c);
    GrownTwice(old(mgr.kernel.used), old(mgr.kernel.children), used, children, mgr.kernel.used, mgr.kernel.children);
    NewTwice(PidIf(ret == 0, mgr.appSpawnQueue[|others|].pid), PidIf(0 < mgr.reservedPid, mgr.reservedPid),
             old(mgr.kernel.used), used, mgr.kernel.used);
  }

  /** AppSpawnProcessMsgForPrefork */
  method AppSpawnProcessMsgForPrefork(mgr: AppSpawnMgr, o: SpawnOutcome, ghost others: seq<Ctx>, ghost c: Ctx)
    returns (ret: int)
    requires mgr.Valid() && mgr.handPipes == [] && mgr.handPids == multiset{} && !mgr.given && o.prefork
    requires PoolHolds(mgr) && Wait(others, mgr) && mgr.appSpawnQueue == others + [c] && Childless(c)
    requires NoMailFor(c.id, mgr.kernel.readsFrom, mgr.kernel.inbox)
    modifies mgr`appSpawnQueue, mgr`handPipes, mgr`handPids, mgr`reservedPid, mgr`given, mgr.fds, mgr.kernel
    ensures mgr.Valid() && mgr.handPipes == [] && mgr.handPids == multiset{} && !mgr.given
    ensures PoolHolds(mgr) && Wait(others, mgr) && Others(mgr) == old(Others(mgr))
    ensures Started(mgr.appSpawnQueue, others, c, ret, mgr.kernel.pipeOf, mgr.kernel.answersOn)
    ensures ret == 0 <==> if HandsOn(o, old(mgr.reservedPid)) then o.sent.Whole? else o.fork.pipeOk && o.fork.forkOk
    ensures Refilled(o, old(mgr.reservedPid), mgr.reservedPid)
    ensures Wards(o, old(mgr.reservedPid), Reserve(o, old(mgr.reservedPid), mgr.reservedPid), ret, mgr.appSpawnQueue,
                  others, old(mgr.kernel.used), mgr.kernel.used, old(mgr.kernel.excused), mgr.kernel.excused)
    ensures Grown(old(mgr.kernel.used), old(mgr.kernel.children), mgr.kernel.used, mgr.kernel.children)
  {
    hide mgr.Valid, AllWaiting, NoMailFor, Waiting, Childless, Pool, Drained, Kept, Grown, NewPids, Mailed;
    if mgr.reservedPid <= 0 {
      ret := SpawnAndPreFork(mgr, o, others, c);
      return;
    }
    if !o.mapOk {
      ret := NormalSpawnChild(mgr, o.fork, others, c);
      return;
    }
    ret := HandToPreforked(mgr, o.sent, others, c);
    PreForkAgain(mgr, o.refork, ret, others, c);
  }

  lemma NotPooled(mgr: AppSpawnMgr)
    requires PoolHolds(mgr) && mgr.reservedPid <= 0
    ensures NoPool(mgr)
  {
  }

  /** Whether the pool is refilled after a spawn, and what the reserved child is then: a new one, or none. */
  predicate Refills(o: SpawnOutcome, reservedPid: int) {
    o.prefork && (0 < reservedPid ==> o.mapOk)
  }

  predicate Refilled(o: SpawnOutcome, reservedPid: int, reservedPidNow: int) {
    if Refills(o, reservedPid) then 0 < reservedPidNow <==> o.refork == PREFORKS else reservedPidNow == reservedPid
  }

  /** The new reserved child, if there is one. */
  function Reserve(o: SpawnOutcome, reservedPid: int, reservedPidNow: int): set<int> {
    PidIf(Refills(o, reservedPid) && 0 < reservedPidNow, reservedPidNow)
  }

  /** Which child the spawned context has, which children are new, and which child had to go: the reserved
      child serves the request, or it is killed; otherwise a new child serves it. */
  ghost predicate Wards(o: SpawnOutcome, reservedPid: int, reserve: set<int>, ret: int, q: seq<Ctx>, others: seq<Ctx>,
                        used: set<int>, usedNow: set<int>, excused: set<int>, excusedNow: set<int>) {
    && |q| == |others| + 1
    && (ret == 0 && HandsOn(o, reservedPid) ==> q[|others|].pid == reservedPid)
    && NewPids(PidIf(ret == 0 && !HandsOn(o, reservedPid), q[|others|].pid), reserve, used, usedNow)
    && excusedNow == excused + PidIf(ret != 0 && HandsOn(o, reservedPid), reservedPid)
  }

  /** RunAppSpawnProcessMsg */
  method RunAppSpawnProcessMsg(mgr: AppSpawnMgr, o: SpawnOutcome, ghost others: seq<Ctx>, ghost c: Ctx)
    returns (ret: int)
    requires mgr.Valid() && mgr.handPipes == [] && mgr.handPids == multiset{} && !mgr.given
    requires PoolHolds(mgr) && Wait(others, mgr) && mgr.appSpawnQueue == others + [c] && Childless(c)
    requires NoMailFor(c.id, mgr.kernel.readsFrom, mgr.kernel.inbox)
    modifies mgr`appSpawnQueue, mgr`handPipes, mgr`handPids, mgr`reservedPid, mgr`given, mgr.fds, mgr.kernel
    ensures mgr.Valid() && mgr.handPipes == [] && mgr.handPids == multiset{} && !mgr.given
    ensures PoolHolds(mgr) && Wait(others, mgr) && Others(mgr) == old(Others(mgr))
    ensures Started(mgr.appSpawnQueue, others, c, ret, mgr.kernel.pipeOf, mgr.kernel.answersOn)
    ensures ret == 0 <==> if HandsOn(o, old(mgr.reservedPid)) then o.sent.Whole? else o.fork.pipeOk && o.fork.forkOk
    ensures Refilled(o, old(mgr.reservedPid), mgr.reservedPid)
    ensures Wards(o, old(mgr.reservedPid), Reserve(o, old(mgr.reservedPid), mgr.reservedPid), ret, mgr.appSpawnQueue,
                  others, old(mgr.kernel.used), mgr.kernel.used, old(mgr.kernel.excused), mgr.kernel.excused)
    ensures Grown(old(mgr.kernel.used), old(mgr.kernel.children), mgr.kernel.used, mgr.kernel.children)
  {
    hide mgr.Valid, AllWaiting, NoMailFor, Waiting, Childless, Kept, Grown, NewPids;
    if o.prefork {
      ret := AppSpawnProcessMsgForPrefork(mgr, o, others, c);
    } else {
      ret := NormalSpawnChild(mgr, o.fork, others, c);
    }
  }
}
