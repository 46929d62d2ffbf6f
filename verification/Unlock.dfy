/**
  Unlock requests and their three levels: the pre-forked child mounts, a child forked for the
  purpose mounts, or the spawner mounts itself: appspawn_service.c.
*/
module Unlock {
  import opened AppMgr
  import opened Books
  import opened Kernel
  import opened Prefork
  import opened Routing
  import opened Snapshots
  import opened SpawnFds
  import opened Tally
  import opened Wrappers

  /** What happens in the course of one unlock request. */
  datatype UnlockOutcome =
    UnlockOutcome(sent: Sent, firstWatchOk: bool, fork: ForkOutcome, secondWatchOk: bool, enablePrefork: bool,
                  refork: PreforkOutcome)
  {
    /** Whether the pre-forked child serves the request, and whether one forked for it does. */
    predicate FirstLevel(reservedPid: int) {
      0 < reservedPid && sent.Whole? && firstWatchOk
    }

    predicate SecondLevel() {
      fork.pipeOk && fork.forkOk && secondWatchOk
    }
  }

  /** SendUnlockMsgToPrefork */
  method SendUnlockMsgToPrefork(mgr: AppSpawnMgr, uid: int, sent: Sent) returns (ret: int)
    requires mgr.Valid() && PoolHolds(mgr) && 0 < mgr.reservedPid
    modifies mgr.kernel`inbox
    ensures mgr.Valid() && (ret == 0 <==> sent.Whole?)
    ensures Mailed(mgr.reservedPid, UnlockMsg(uid), sent, mgr.kernel.readsFrom, old(mgr.kernel.inbox), mgr.kernel.inbox)
  {
    hide mgr.Valid, Added, Removed, Mailed, FindNode, Without, Awaits, Kept;
    PoolNode(mgr.fds.nodes, mgr.reservedPid, TYPE_PARENT_CHILD);
    PoolFinds(PoolNodes(mgr), mgr.reservedPid);
    var k := mgr.fds.FindSpawningFdsByPid(mgr.reservedPid, TYPE_PARENT_CHILD);
    if k == |mgr.fds.nodes| {
      return -1;
    }
    ret := mgr.WriteToChild(k, UnlockMsg(uid), sent);
  }

  /** The pool while it is given up: both nodes are there, the first perhaps without its read end. */
  predicate BothNodes(pool: seq<FdNode>, pid: int) {
    && |pool| == 2 && pool[0].pid == pid && pool[1].pid == pid
    && pool[0].kind == TYPE_CHILD_PARENT && pool[1].kind == TYPE_PARENT_CHILD
  }

  /** Closes what is left of the pool's pipes. */
  method UnregisterBoth(mgr: AppSpawnMgr)
    requires mgr.Valid() && BothNodes(Kept(mgr.fds.nodes, InPool), mgr.reservedPid)
    modifies mgr.fds, mgr.kernel`open
    ensures mgr.Valid() && Kept(mgr.fds.nodes, InPool) == [] && Others(mgr) == old(Others(mgr))
  {
    hide mgr.Valid, Added, Removed, FindNode, Without, Kept;
    ghost var pool := Kept(mgr.fds.nodes, InPool);
    PoolNode(mgr.fds.nodes, mgr.reservedPid, TYPE_PARENT_CHILD);
    PoolFinds(pool, mgr.reservedPid);
    OnlyGone(pool[0]);
    var ret := mgr.UnregisterSpawningFdsByPid(mgr.reservedPid, TYPE_PARENT_CHILD);
    PoolNode(mgr.fds.nodes, mgr.reservedPid, TYPE_CHILD_PARENT);
    ret := mgr.UnregisterSpawningFdsByPid(mgr.reservedPid, TYPE_CHILD_PARENT);
  }

  /** The hand-over of TryLevel1PreforkUnlock: the read end and the child go to the context. */
  method TakeReserved(mgr: AppSpawnMgr, i: nat, ghost others: seq<Ctx>, ghost c: Ctx)
    requires mgr.Valid() && !mgr.given && 0 < mgr.reservedPid && BothNodes(Kept(mgr.fds.nodes, InPool), mgr.reservedPid)
    requires var n := Kept(mgr.fds.nodes, InPool)[0]; |n.fds| == 2 && 0 < n.fds[0]
    requires mgr.appSpawnQueue == others + [c] && Childless(c) && i == |others|
    requires NoMailFor(c.id, mgr.kernel.readsFrom, mgr.kernel.inbox)
    modifies mgr`appSpawnQueue, mgr`given, mgr.fds`nodes
    ensures mgr.Valid() && mgr.given && BothNodes(Kept(mgr.fds.nodes, InPool), mgr.reservedPid)
    ensures Others(mgr) == old(Others(mgr))
    ensures mgr.appSpawnQueue == others + [c.(fd0 := old(Kept(mgr.fds.nodes, InPool))[0].fds[0], pid := mgr.reservedPid)]
  {
    hide mgr.Valid, Added, Removed, NoMailFor, FindNode, Kept;
    PoolNode(mgr.fds.nodes, mgr.reservedPid, TYPE_CHILD_PARENT);
    PoolFinds(Kept(mgr.fds.nodes, InPool), mgr.reservedPid);
    var k := mgr.fds.FindSpawningFdsByPid(mgr.reservedPid, TYPE_CHILD_PARENT);
    var r, w := mgr.fds.nodes[k].fds[0], mgr.fds.nodes[k].fds[1];
    assert mgr.fds.nodes[k].fds == [r, w];
    PoolNodeChanged(mgr.fds.nodes, mgr.reservedPid, TYPE_CHILD_PARENT, mgr.fds.nodes[k].(fds := [-1, w]));
    mgr.TakeReadEnd(i, k, r, w);
    mgr.GiveReserved(i);
  }

  /** The failure end of TryLevel1PreforkUnlock: the reserved child is killed, the context is as before. */
  method GiveUpReserved(mgr: AppSpawnMgr, i: nat, ghost others: seq<Ctx>, ghost c: Ctx)
    requires mgr.Valid() && 0 < mgr.reservedPid && BothNodes(Kept(mgr.fds.nodes, InPool), mgr.reservedPid)
    requires mgr.handPids == multiset{}
    requires |mgr.appSpawnQueue| == |others| + 1 && mgr.appSpawnQueue[..|others|] == others && i == |others|
    requires Childless(c)
    requires var d := mgr.appSpawnQueue[i];
             if mgr.given then 0 < d.fd0 && d == c.(fd0 := d.fd0, pid := mgr.reservedPid) else d == c
    modifies mgr`appSpawnQueue, mgr`given, mgr`reservedPid, mgr`handPids, mgr.fds, mgr.kernel`open, mgr.kernel`excused
    ensures mgr.Valid() && !mgr.given && mgr.reservedPid == 0 && mgr.handPids == multiset{}
    ensures Kept(mgr.fds.nodes, InPool) == [] && Others(mgr) == old(Others(mgr))
    ensures mgr.appSpawnQueue == others + [c] && mgr.kernel.excused == old(mgr.kernel.excused) + {old(mgr.reservedPid)}
  {
    hide mgr.Valid, Added, Removed, Plus, Minus, Kept;
    mgr.ClearPipeFd(i);
    if mgr.appSpawnQueue[i].pid > 0 {
      mgr.TakeBackReserved(i);
    }
    UnregisterBoth(mgr);
    var oldPid := mgr.reservedPid;
    PlusMinus(mgr.handPids, true, oldPid);
    mgr.Unreserve();
    mgr.Kill(oldPid);
    mgr.ForgetHand(oldPid);
  }

  /** TryLevel1PreforkUnlock: afterwards there is no reserved child any more, whatever happened. */
  method TryLevel1PreforkUnlock(mgr: AppSpawnMgr, uid: int, o: UnlockOutcome, i: nat, ghost others: seq<Ctx>, ghost c: Ctx)
    returns (ret: int)
    requires mgr.Valid() && mgr.handPids == multiset{} && !mgr.given && PoolHolds(mgr)
    requires mgr.appSpawnQueue == others + [c] && Childless(c) && i == |others|
    requires NoMailFor(c.id, mgr.kernel.readsFrom, mgr.kernel.inbox)
    modifies mgr`appSpawnQueue, mgr`given, mgr`reservedPid, mgr`handPids, mgr.fds
    modifies mgr.kernel`inbox, mgr.kernel`open, mgr.kernel`excused
    ensures mgr.Valid() && mgr.handPids == multiset{} && !mgr.given
    ensures mgr.reservedPid == (if 0 < old(mgr.reservedPid) then 0 else old(mgr.reservedPid))
    ensures NoPool(mgr) && Others(mgr) == old(Others(mgr))
    ensures NoMailFor(c.id, mgr.kernel.readsFrom, mgr.kernel.inbox)
    ensures ret == 0 <==> o.FirstLevel(old(mgr.reservedPid))
    ensures ret == 0 ==> Waits(mgr, others, c) && mgr.appSpawnQueue[i].pid == old(mgr.reservedPid)
                         && mgr.appSpawnQueue[i].fd1 == -1
    ensures ret != 0 ==> mgr.appSpawnQueue == others + [c]
    ensures mgr.kernel.excused ==
            old(mgr.kernel.excused) + if 0 < old(mgr.reservedPid) && ret != 0 then {old(mgr.reservedPid)} else {}
  {
    hide mgr.Valid, Added, Removed, Plus, Minus, NoMailFor, Mailed, Kept;
    if mgr.reservedPid <= 0 {
      return -1;
    }
    var sent := SendUnlockMsgToPrefork(mgr, uid, o.sent);
    NoMailKept(c.id, mgr.kernel.readsFrom, old(mgr.kernel.inbox), mgr.kernel.inbox, mgr.reservedPid, uid, o.sent);
    if sent == 0 {
      TakeReserved(mgr, i, others, c);
      if o.firstWatchOk {
        UnregisterBoth(mgr);
        PlusMinus(mgr.handPids, true, mgr.reservedPid);
        mgr.Unreserve();
        return 0;
      }
    }
    GiveUpReserved(mgr, i, others, c);
    ret := -1;
  }

  /** The last context of the queue waits for a child it did not have. */
  ghost predicate Waits(mgr: AppSpawnMgr, others: seq<Ctx>, c: Ctx)
    reads mgr, mgr.kernel
  {
    Started(mgr.appSpawnQueue, others, c, 0, mgr.kernel.pipeOf, mgr.kernel.answersOn)
  }

  /** ForkAndDoUnlockMount: in the spawner only the read end stays. */
  method ForkAndDoUnlockMount(mgr: AppSpawnMgr, o: UnlockOutcome, i: nat, ghost others: seq<Ctx>, ghost c: Ctx)
    returns (ret: int)
    requires mgr.Valid() && mgr.handPipes == [] && Wait(others, mgr) && PoolHolds(mgr)
    requires mgr.appSpawnQueue == others + [c] && Childless(c) && i == |others|
    requires NoMailFor(c.id, mgr.kernel.readsFrom, mgr.kernel.inbox)
    modifies mgr`appSpawnQueue, mgr`handPipes, mgr.kernel`nextFd, mgr.kernel`open, mgr.kernel`nextPipe, mgr.kernel`pipeOf
    modifies mgr.kernel`nextPid, mgr.kernel`used, mgr.kernel`children, mgr.kernel`excused
    modifies mgr.kernel`images, mgr.kernel`answersOn, mgr.kernel`readsFrom
    ensures mgr.Valid() && mgr.handPipes == [] && Wait(others, mgr) && PoolHolds(mgr)
    ensures ret == 0 <==> o.SecondLevel()
    ensures ret == 0 ==> Waits(mgr, others, c) && mgr.appSpawnQueue[i].fd1 == -1
                         && NewPids({mgr.appSpawnQueue[i].pid}, {}, old(mgr.kernel.used), mgr.kernel.used)
    ensures ret != 0 ==> mgr.appSpawnQueue == others + [c]
    ensures Grown(old(mgr.kernel.used), old(mgr.kernel.children), mgr.kernel.used, mgr.kernel.children)
    ensures ret != 0 ==>
              Unwatched(o, {}, old(mgr.kernel.used), mgr.kernel.used, old(mgr.kernel.excused), mgr.kernel.excused)
    ensures ret == 0 ==> mgr.kernel.excused == old(mgr.kernel.excused)
  {
    hide mgr.Valid, AllWaiting, Wait, PoolHolds, NewEnd, NoMailFor, Grown, NewPids, SamePipe;
    NoneBorn(mgr.kernel.used, mgr.kernel.children);
    ret := InitForkContext(mgr, i, o.fork.pipeOk, others);
    if ret != 0 {
      return -1;
    }
    ret := ForkChild(mgr, i, o.fork.forkOk, others);
    if ret != 0 {
      mgr.ClearPipeFd(i);
      return -1;
    }
    mgr.CloseWriteEnd(i);
    if !o.secondWatchOk {
      mgr.Kill(mgr.appSpawnQueue[i].pid);
      mgr.ClearPipeFd(i);
      mgr.ClearPid(i);
      return -1;
    }
  }

  /** The second level has failed: the child that was forked to mount, if there is one, is killed because it
      could not be watched. Apart from it only a new reserved child is new. */
  ghost predicate Unwatched(o: UnlockOutcome, reserve: set<int>, used: set<int>, usedNow: set<int>, excused: set<int>,
                            excusedNow: set<int>) {
    if o.fork.pipeOk && o.fork.forkOk
    then exists pid :: NewPids({pid}, reserve, used, usedNow) && excusedNow == excused + {pid}
    else NewPids({}, reserve, used, usedNow) && excusedNow == excused
  }

  /** ReforkPreforkIfNeeded: uses a context of its own, and a client id. */
  method ReforkPreforkIfNeeded(mgr: AppSpawnMgr, enablePrefork: bool, fork: PreforkOutcome)
    requires mgr.Valid() && mgr.handPipes == [] && mgr.handPids == multiset{} && !mgr.given
    requires mgr.reservedPid <= 0 && NoPool(mgr) && Wait(mgr.appSpawnQueue, mgr)
    modifies mgr`appSpawnQueue, mgr`requestId, mgr`handPipes, mgr`handPids, mgr`reservedPid, mgr`given, mgr.fds
    modifies mgr.kernel`nextFd, mgr.kernel`open, mgr.kernel`nextPipe, mgr.kernel`pipeOf
    modifies mgr.kernel`nextPid, mgr.kernel`used, mgr.kernel`children
    modifies mgr.kernel`images, mgr.kernel`answersOn, mgr.kernel`readsFrom
    ensures mgr.Valid() && mgr.handPipes == [] && mgr.handPids == multiset{} && !mgr.given
    ensures PoolHolds(mgr) && Wait(mgr.appSpawnQueue, mgr) && mgr.appSpawnQueue == old(mgr.appSpawnQueue)
    ensures Others(mgr) == old(Others(mgr)) && mgr.requestId == old(mgr.requestId) + if enablePrefork then 1 else 0
    ensures if enablePrefork then 0 < mgr.reservedPid <==> fork == PREFORKS else mgr.reservedPid == old(mgr.reservedPid)
    ensures NewPids({}, PidIf(enablePrefork && 0 < mgr.reservedPid, mgr.reservedPid), old(mgr.kernel.used), mgr.kernel.used)
    ensures Grown(old(mgr.kernel.used), old(mgr.kernel.children), mgr.kernel.used, mgr.kernel.children)
  {
    hide mgr.Valid, Added, Removed, AllWaiting, NoMailFor, Kept, Grown, NewPids;
    NoneBorn(mgr.kernel.used, mgr.kernel.children);
    if !enablePrefork {
      return;
    }
    var i := mgr.CreateAppSpawningCtx();
    ProcessPreFork(mgr, i, fork, old(mgr.appSpawnQueue));
    LastGone(old(mgr.appSpawnQueue), mgr.appSpawnQueue[i]);
    mgr.DeleteAppSpawningCtx(i);
  }

  /** Levels 1 and 2 of HandleUnlockEvent, and the end of its context when both fail. */
  method TryBothLevels(mgr: AppSpawnMgr, uid: int, message: Message, o: UnlockOutcome) returns (async: bool)
    requires mgr.Valid() && mgr.handPipes == [] && mgr.handPids == multiset{} && !mgr.given
    requires mgr.handRequests == Added(multiset{}, message.request) && Wait(mgr.appSpawnQueue, mgr) && PoolHolds(mgr)
    modifies mgr`appSpawnQueue, mgr`requestId, mgr`handRequests, mgr`handPipes, mgr`handPids, mgr`reservedPid, mgr`given
    modifies mgr.fds, mgr.kernel
    ensures mgr.Valid() && mgr.handPipes == [] && mgr.handPids == multiset{} && !mgr.given
    ensures mgr.reservedPid == (if 0 < old(mgr.reservedPid) then 0 else old(mgr.reservedPid))
    ensures NoPool(mgr) && Others(mgr) == old(Others(mgr)) && Wait(mgr.appSpawnQueue, mgr)
    ensures mgr.requestId == old(mgr.requestId) + 1
    ensures async <==> o.FirstLevel(old(mgr.reservedPid)) || o.SecondLevel()
    ensures async ==>
              && mgr.handRequests == multiset{}
              && Unlocking(mgr.appSpawnQueue, old(mgr.appSpawnQueue), message, mgr.requestId)
    ensures !async ==> mgr.handRequests == Added(multiset{}, message.request) && mgr.appSpawnQueue == old(mgr.appSpawnQueue)
    ensures Grown(old(mgr.kernel.used), old(mgr.kernel.children), mgr.kernel.used, mgr.kernel.children)
    ensures Chosen(o, old(mgr.reservedPid), {}, mgr.appSpawnQueue, |old(mgr.appSpawnQueue)|, old(mgr.kernel.used),
                   mgr.kernel.used, old(mgr.kernel.excused), mgr.kernel.excused)
  {
    hide mgr.Valid, Added, Removed, AllWaiting, NoMailFor, Waiting, Awaits, Kept, Grown, NewPids, Unwatched;
    ghost var others := mgr.appSpawnQueue;
    AddedRemoved(multiset{}, message.request);
    NoneBorn(mgr.kernel.used, mgr.kernel.children);
    var i := mgr.CreateAppSpawningCtx();
    mgr.TakeMessage(i, message);
    ghost var c := mgr.appSpawnQueue[i];
    LastChanged(others, EMPTY.(id := mgr.requestId), c);
    async := RunLevels(mgr, uid, o, i, others, c);
    if !async {
      mgr.GiveBackMessage(i);
      LastChanged(others, c, mgr.appSpawnQueue[i]);
      LastGone(others, mgr.appSpawnQueue[i]);
      mgr.DeleteAppSpawningCtx(i);
      return;
    }
    assert mgr.appSpawnQueue == others + [mgr.appSpawnQueue[i]];
    OneMoreWaits(others, mgr.appSpawnQueue[i], mgr.kernel.pipeOf, mgr.kernel.answersOn);
  }

  /** Level 1, and level 2 if level 1 fails. */
  method RunLevels(mgr: AppSpawnMgr, uid: int, o: UnlockOutcome, i: nat, ghost others: seq<Ctx>, ghost c: Ctx)
    returns (async: bool)
    requires mgr.Valid() && mgr.handPipes == [] && mgr.handPids == multiset{} && !mgr.given
    requires Wait(others, mgr) && PoolHolds(mgr)
    requires mgr.appSpawnQueue == others + [c] && Childless(c) && i == |others|
    requires NoMailFor(c.id, mgr.kernel.readsFrom, mgr.kernel.inbox)
    modifies mgr`appSpawnQueue, mgr`handPipes, mgr`handPids, mgr`reservedPid, mgr`given, mgr.fds, mgr.kernel
    ensures mgr.Valid() && mgr.handPipes == [] && mgr.handPids == multiset{} && !mgr.given
    ensures mgr.reservedPid == (if 0 < old(mgr.reservedPid) then 0 else old(mgr.reservedPid))
    ensures NoPool(mgr) && Others(mgr) == old(Others(mgr)) && Wait(others, mgr)
    ensures async <==> o.FirstLevel(old(mgr.reservedPid)) || o.SecondLevel()
    ensures async ==>
              && Waits(mgr, others, c) && mgr.appSpawnQueue[i].fd1 == -1
    ensures !async ==> mgr.appSpawnQueue == others + [c]
    ensures Grown(old(mgr.kernel.used), old(mgr.kernel.children), mgr.kernel.used, mgr.kernel.children)
    ensures Chosen(o, old(mgr.reservedPid), {}, mgr.appSpawnQueue, i, old(mgr.kernel.used), mgr.kernel.used,
                   old(mgr.kernel.excused), mgr.kernel.excused)
  {
    hide mgr.Valid, AllWaiting, NoMailFor, Waiting, Awaits, Kept, Pool, Grown, NewPids, Unwatched;
    NoneBorn(mgr.kernel.used, mgr.kernel.children);
    var ret := TryLevel1PreforkUnlock(mgr, uid, o, i, others, c);
    if ret == 0 {
      return true;
    }
    PoolIsEmpty(mgr);
    ret := ForkAndDoUnlockMount(mgr, o, i, others, c);
    async := ret == 0;
    NotPooled(mgr);
  }

  lemma PoolIsEmpty(mgr: AppSpawnMgr)
    requires NoPool(mgr) && mgr.reservedPid <= 0
    ensures PoolHolds(mgr)
  {
  }

  /** Which child serves the request in context `n`, which children are new, and which had to go: the reserved
      one, if it could not serve; and one that could not be watched. */
  ghost predicate Chosen(o: UnlockOutcome, reservedPid: int, reserve: set<int>, q: seq<Ctx>, n: nat, used: set<int>,
                         usedNow: set<int>, excused: set<int>, excusedNow: set<int>) {
    if o.FirstLevel(reservedPid) then
      n < |q| && q[n].pid == reservedPid && NewPids({}, reserve, used, usedNow) && excusedNow == excused
    else if o.SecondLevel() then
      && n < |q| && NewPids({q[n].pid}, reserve, used, usedNow)
      && excusedNow == excused + PidIf(0 < reservedPid, reservedPid)
    else Unwatched(o, reserve, used, usedNow, excused + PidIf(0 < reservedPid, reservedPid), excusedNow)
  }

  /** The queue has grown by a context that serves the unlock request. */
  predicate Unlocking(q: seq<Ctx>, others: seq<Ctx>, message: Message, id: nat) {
    && |q| == |others| + 1 && q[..|others|] == others
    && q[|others|].id == id && q[|others|].message == Some(message) && !q[|others|].spawning
  }

  /** The new reserved child, if there is one. */
  function NewReserve(o: UnlockOutcome, reservedPidNow: int): set<int> {
    PidIf(o.enablePrefork && 0 < reservedPidNow, reservedPidNow)
  }

  /** HandleUnlockEvent for a user id: levels 1 and 2, and a new reserved child. */
  method TryUnlock(mgr: AppSpawnMgr, uid: int, message: Message, o: UnlockOutcome) returns (async: bool)
    requires mgr.Valid() && mgr.handPipes == [] && mgr.handPids == multiset{} && !mgr.given && 0 < uid
    requires mgr.handRequests == Added(multiset{}, message.request) && Wait(mgr.appSpawnQueue, mgr) && PoolHolds(mgr)
    modifies mgr`appSpawnQueue, mgr`requestId, mgr`handRequests, mgr`handPipes, mgr`handPids, mgr`reservedPid, mgr`given
    modifies mgr.fds, mgr.kernel
    ensures mgr.Valid() && mgr.handPipes == [] && mgr.handPids == multiset{} && !mgr.given
    ensures Wait(mgr.appSpawnQueue, mgr) && PoolHolds(mgr) && Others(mgr) == old(Others(mgr))
    ensures async <==> o.FirstLevel(old(mgr.reservedPid)) || o.SecondLevel()
    ensures mgr.handRequests == if async then multiset{} else Added(multiset{}, message.request)
    ensures UnlockTried(old(Snap(mgr)), message, o, Snap(mgr))
  {
    hide mgr.Valid, Added, Removed, AllWaiting, PoolHolds, NoPool, Others, Wait, Unlocking, Chosen, Grown, NewPids, Kept;
    async := TryBothLevels(mgr, uid, message, o);
    ghost var t := Snap(mgr);
    ReforkPreforkIfNeeded(mgr, o.enablePrefork, o.refork);
    Later(message, o, old(Snap(mgr)), t, Snap(mgr), async);
  }

  /** HandleUnlockEvent */
  method HandleUnlockEvent(mgr: AppSpawnMgr, uid: int, message: Message, o: UnlockOutcome) returns (async: bool)
    requires mgr.Valid() && mgr.handPipes == [] && mgr.handPids == multiset{} && !mgr.given
    requires mgr.handRequests == Added(multiset{}, message.request) && Wait(mgr.appSpawnQueue, mgr) && PoolHolds(mgr)
    modifies mgr`appSpawnQueue, mgr`requestId, mgr`handRequests, mgr`handPipes, mgr`handPids, mgr`reservedPid, mgr`given
    modifies mgr.fds, mgr.kernel
    ensures mgr.Valid() && mgr.handPipes == [] && mgr.handPids == multiset{} && !mgr.given
    ensures Wait(mgr.appSpawnQueue, mgr) && PoolHolds(mgr) && Others(mgr) == old(Others(mgr))
    ensures async <==> 0 < uid && (o.FirstLevel(old(mgr.reservedPid)) || o.SecondLevel())
    ensures mgr.handRequests == if async then multiset{} else Added(multiset{}, message.request)
    ensures if 0 < uid then UnlockTried(old(Snap(mgr)), message, o, Snap(mgr)) else Snap(mgr) == old(Snap(mgr))
  {
    hide mgr.Valid, Added, Removed, PoolHolds, Wait, Others, UnlockTried;
    if uid <= 0 {
      return false;
    }
    async := TryUnlock(mgr, uid, message, o);
  }

  /** What the levels 1 and 2 do to the spawner's records, whether they succeed or not. */
  ghost predicate UnlockTried(s: Snapshot, message: Message, o: UnlockOutcome, t: Snapshot) {
    && t == s.(contexts := t.contexts, requestId := t.requestId, reservedPid := t.reservedPid, used := t.used,
               children := t.children, excused := t.excused)
    && t.requestId == s.requestId + 1 + (if o.enablePrefork then 1 else 0)
    && (if o.FirstLevel(s.reservedPid) || o.SecondLevel()
        then Unlocking(t.contexts, s.contexts, message, s.requestId + 1)
        else t.contexts == s.contexts)
    && (if o.enablePrefork then 0 < t.reservedPid <==> o.refork == PREFORKS
        else t.reservedPid == if 0 < s.reservedPid then 0 else s.reservedPid)
    && Grown(s.used, s.children, t.used, t.children)
    && Chosen(o, s.reservedPid, NewReserve(o, t.reservedPid), t.contexts, |s.contexts|, s.used, t.used, s.excused, t.excused)
  }

  lemma Later(message: Message, o: UnlockOutcome, s: Snapshot, t: Snapshot, u: Snapshot, async: bool)
    requires t == s.(contexts := t.contexts, requestId := s.requestId + 1, used := t.used, children := t.children,
                     excused := t.excused, reservedPid := if 0 < s.reservedPid then 0 else s.reservedPid)
    requires async <==> o.FirstLevel(s.reservedPid) || o.SecondLevel()
    requires if async then Unlocking(t.contexts, s.contexts, message, s.requestId + 1) else t.contexts == s.contexts
    requires Grown(s.used, s.children, t.used, t.children)
    requires Chosen(o, s.reservedPid, {}, t.contexts, |s.contexts|, s.used, t.used, s.excused, t.excused)
    requires u == t.(requestId := t.requestId + (if o.enablePrefork then 1 else 0), reservedPid := u.reservedPid,
                     used := u.used, children := u.children)
    requires Grown(t.used, t.children, u.used, u.children)
    requires if o.enablePrefork then 0 < u.reservedPid <==> o.refork == PREFORKS else u.reservedPid == t.reservedPid
    requires NewPids({}, NewReserve(o, u.reservedPid), t.used, u.used)
    ensures UnlockTried(s, message, o, u)
  {
    hide Grown, Unlocking, NewReserve;
    GrownTwice(s.used, s.children, t.used, t.children, u.used, u.children);
    ChosenLater(o, s.reservedPid, NewReserve(o, u.reservedPid), t.contexts, |s.contexts|, s.used, t.used, u.used, s.excused,
                t.excused);
  }

  lemma ChosenLater(o: UnlockOutcome, reservedPid: int, reserve: set<int>, q: seq<Ctx>, n: nat, used0: set<int>,
                    used1: set<int>, used2: set<int>, excused: set<int>, excusedNow: set<int>)
    requires Chosen(o, reservedPid, {}, q, n, used0, used1, excused, excusedNow) && NewPids({}, reserve, used1, used2)
    ensures Chosen(o, reservedPid, reserve, q, n, used0, used2, excused, excusedNow)
  {
    hide NewPids;
    if o.FirstLevel(reservedPid) {
      NewTwice({}, reserve, used0, used1, used2);
    } else if o.SecondLevel() {
      NewTwice({q[n].pid}, reserve, used0, used1, used2);
    } else if o.fork.pipeOk && o.fork.forkOk {
      var pid :| NewPids({pid}, {}, used0, used1)
                 && excusedNow == excused + PidIf(0 < reservedPid, reservedPid) + {pid};
      NewTwice({pid}, reserve, used0, used1, used2);
    } else {
      NewTwice({}, reserve, used0, used1, used2);
    }
  }

  /** ProcessAppSpawnLockStatusMsg and what follows it: an unlock that no child serves, and anything
      else, is answered at once. `unlocks` is the user to unlock, if the request asks for that. */
  method ProcessLockStatusMsg(mgr: AppSpawnMgr, message: Message, unlocks: Option<int>, o: UnlockOutcome)
    requires AtRest(mgr)
    modifies mgr`appSpawnQueue, mgr`requestId, mgr`requests, mgr`answered, mgr`handRequests
    modifies mgr`handPipes, mgr`handPids, mgr`reservedPid, mgr`given, mgr.kernel, mgr.fds
    ensures AtRest(mgr) && UnlockStep(old(Snap(mgr)), message, unlocks, o, Snap(mgr))
    ensures Others(mgr) == old(Others(mgr))
  {
    hide mgr.Valid, Added, Removed, PoolHolds, Wait, Others, UnlockTried, UnlockStep;
    AddedRemoved(multiset{}, message.request);
    ghost var s := Snap(mgr);
    mgr.Receive(message.request);
    var async := false;
    if unlocks.Some? {
      async := HandleUnlockEvent(mgr, unlocks.value, message, o);
    }
    ghost var t := Snap(mgr);
    if !async {
      mgr.Respond(message);
    }
    Unlocked(s, message, unlocks, o, t, async);
  }

  lemma Unlocked(s: Snapshot, message: Message, unlocks: Option<int>, o: UnlockOutcome, t: Snapshot, async: bool)
    requires var r := s.(requests := Added(s.requests, message.request));
             if unlocks.Some? && 0 < unlocks.value
             then UnlockTried(r, message, o, t) && (async <==> o.FirstLevel(s.reservedPid) || o.SecondLevel())
             else t == r && !async
    ensures UnlockStep(s, message, unlocks, o,
                       if async then t else t.(answered := Added(t.answered, message.request)))
  {
    hide Added, Chosen, Grown, Unlocking;
  }

  /** A lock status request: one that no child serves is answered at once, and nothing else happens if it
      asks for no unlock. */
  ghost predicate UnlockStep(s: Snapshot, message: Message, unlocks: Option<int>, o: UnlockOutcome, t: Snapshot) {
    if unlocks.Some? && 0 < unlocks.value
    then
      var r := s.(requests := Added(s.requests, message.request));
      if o.FirstLevel(s.reservedPid) || o.SecondLevel() then UnlockTried(r, message, o, t)
      else
        && t.answered == Added(s.answered, message.request)
        && UnlockTried(r, message, o, t.(answered := s.answered))
    else t == AtOnce(s, message.request)
  }
}
