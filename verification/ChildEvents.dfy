/**
  What happens to spawning contexts after their child was started: it answers, is late or dies, or
  the client goes away; and the end of the spawner. Every handler starts and ends at rest, and does
  to the spawner's records exactly what the machine over plain values does.
*/
module ChildEvents {
  import opened AppMgr
  import opened Books
  import opened FdQueue
  import opened Routing
  import opened Snapshots
  import opened SpawnFds
  import opened Tally
  import opened Wrappers

  /** The records of a spawner at rest are in order. */
  lemma RestIsOrderly(mgr: AppSpawnMgr)
    requires AtRest(mgr)
    ensures Orderly(Snap(mgr))
  {
    hide mgr.Valid, PoolHolds, AllWaiting, Named;
    IdsRise(mgr);
    PlacesDiffer(mgr);
    forall i | 0 <= i < |mgr.appSpawnQueue|
      ensures mgr.appSpawnQueue[i].message.Some? && 0 < mgr.appSpawnQueue[i].pid && !mgr.appSpawnQueue[i].settled
      ensures forall j :: 0 <= j < |mgr.appSpawnQueue| && i != j ==> mgr.appSpawnQueue[i].pid != mgr.appSpawnQueue[j].pid
    {
      OneWaits(mgr.appSpawnQueue, i, mgr.kernel.pipeOf, mgr.kernel.answersOn);
      forall j | 0 <= j < |mgr.appSpawnQueue| && i != j
        ensures mgr.appSpawnQueue[i].pid != mgr.appSpawnQueue[j].pid
      {
        ChildrenDiffer(mgr, i, j);
      }
    }
    forall k | 0 <= k < |mgr.appQueue|
      ensures forall c :: c in mgr.appSpawnQueue ==> c.pid != mgr.appQueue[k].pid
    {
      RecordsAreOthers(mgr, k);
    }
  }

  lemma IdsRise(mgr: AppSpawnMgr)
    requires mgr.Valid()
    ensures IdLaw(mgr.appSpawnQueue, mgr.requestId) && SortedByPid(mgr.appQueue)
  {
    hide FdLaw, RequestLaw, ChildLaw, RefLaw, IdLaw, MailLaw, CrashLaw, SortedByPid, mgr.kernel.Valid;
  }

  lemma PlacesDiffer(mgr: AppSpawnMgr)
    requires AtRest(mgr)
    ensures forall c :: c in mgr.appSpawnQueue ==> c.pid != mgr.reservedPid
    ensures forall a :: a in mgr.appQueue ==> 0 < a.pid && a.pid != mgr.reservedPid
  {
    hide Sum, FdLaw, RequestLaw, RefLaw, IdLaw, MailLaw, CrashLaw, SortedByPid, PoolHolds;
    var inCtxs, inApps := Sum(mgr.appSpawnQueue, CtxPid), Sum(mgr.appQueue, AppPid);
    var places := Places(mgr.reservedPid, inCtxs, inApps, multiset{});
    forall c | c in mgr.appSpawnQueue
      ensures c.pid != mgr.reservedPid
    {
      var i :| 0 <= i < |mgr.appSpawnQueue| && mgr.appSpawnQueue[i] == c;
      SumAtLeast(mgr.appSpawnQueue, i, CtxPid);
      assert c.pid in inCtxs;
      assert places[c.pid] <= 1;
    }
    forall a | a in mgr.appQueue
      ensures 0 < a.pid && a.pid != mgr.reservedPid
    {
      var k :| 0 <= k < |mgr.appQueue| && mgr.appQueue[k] == a;
      SumAtLeast(mgr.appQueue, k, AppPid);
      assert a.pid in inApps;
      assert places[a.pid] <= 1;
      assert a.pid in places;
    }
  }

  // ------------------------------------------------------------------------- ends of a context

  lemma PlusNothing(mgr: AppSpawnMgr, i: nat)
    requires i < |mgr.appSpawnQueue|
    ensures Plus(mgr.leakedTokens, false, TokenRef(mgr.appSpawnQueue[i])) == mgr.leakedTokens
    ensures Plus(mgr.leakedUids, false, UidRef(mgr.appSpawnQueue[i])) == mgr.leakedUids
  {
  }

  /** The SPAWN_ABORT hook of context `i`. */
  method SpawnAbort(mgr: AppSpawnMgr, i: nat, hooks: Hooks)
    requires mgr.Valid() && i < |mgr.appSpawnQueue| && !mgr.appSpawnQueue[i].promoted && Named(mgr.appSpawnQueue[i])
    modifies mgr`appSpawnQueue, mgr`leakedTokens, mgr`leakedUids, mgr.kernel`tokenRefs, mgr.kernel`uidRefs
    ensures mgr.Valid()
    ensures mgr.appSpawnQueue == old(mgr.appSpawnQueue)[i := old(mgr.appSpawnQueue)[i].(tokenRef := false, uidRef := false)]
    ensures hooks.SpmWorks() ==> mgr.leakedTokens == old(mgr.leakedTokens) && mgr.leakedUids == old(mgr.leakedUids)
  {
    hide mgr.Valid, Plus;
    var pid := mgr.appSpawnQueue[i].pid;
    PlusNothing(mgr, i);
    mgr.OnSpawnAbortUpdateRefCount(i, hooks.Token(pid), hooks.Uid(pid));
  }

  /** The end of a context with a message: SPAWN_ABORT hook, response, deletion. */
  method AbortSpawnAndCleanup(mgr: AppSpawnMgr, i: nat, hooks: Hooks)
    requires mgr.Valid() && i < |mgr.appSpawnQueue|
    requires Done(mgr.appSpawnQueue[i], mgr.kernel.excused, mgr.kernel.children)
    modifies mgr`appSpawnQueue, mgr`answered, mgr`leakedTokens, mgr`leakedUids
    modifies mgr.kernel`open, mgr.kernel`tokenRefs, mgr.kernel`uidRefs
    ensures mgr.Valid() && mgr.appSpawnQueue == Without(old(mgr.appSpawnQueue), i)
    ensures mgr.answered == Added(old(mgr.answered), RequestOf(old(mgr.appSpawnQueue)[i]))
    ensures hooks.SpmWorks() ==> mgr.leakedTokens == old(mgr.leakedTokens) && mgr.leakedUids == old(mgr.leakedUids)
  {
    hide mgr.Valid, Added, Without;
    ghost var q := mgr.appSpawnQueue;
    SpawnAbort(mgr, i, hooks);
    mgr.SendResponse(i);
    ChangedAndGone(q, i, mgr.appSpawnQueue[i]);
    assert mgr.appSpawnQueue == q[i := mgr.appSpawnQueue[i]];
    mgr.DeleteAppSpawningCtx(i);
  }

  /** The same in the order of WaitChildDied and WaitChildTimeout: response, SPAWN_ABORT hook, deletion. */
  method AnswerAbortAndDelete(mgr: AppSpawnMgr, i: nat, hooks: Hooks)
    requires mgr.Valid() && i < |mgr.appSpawnQueue|
    requires Done(mgr.appSpawnQueue[i], mgr.kernel.excused, mgr.kernel.children)
    modifies mgr`appSpawnQueue, mgr`answered, mgr`leakedTokens, mgr`leakedUids
    modifies mgr.kernel`open, mgr.kernel`tokenRefs, mgr.kernel`uidRefs
    ensures mgr.Valid() && mgr.appSpawnQueue == Without(old(mgr.appSpawnQueue), i)
    ensures mgr.answered == Added(old(mgr.answered), RequestOf(old(mgr.appSpawnQueue)[i]))
    ensures hooks.SpmWorks() ==> mgr.leakedTokens == old(mgr.leakedTokens) && mgr.leakedUids == old(mgr.leakedUids)
  {
    hide mgr.Valid, Added, Without;
    ghost var q := mgr.appSpawnQueue;
    mgr.SendResponse(i);
    SpawnAbort(mgr, i, hooks);
    ChangedAndGone(q, i, mgr.appSpawnQueue[i]);
    assert mgr.appSpawnQueue == q[i := mgr.appSpawnQueue[i]];
    mgr.DeleteAppSpawningCtx(i);
  }

  /** A context that owes an answer, and whose child is not lost with it. */
  predicate Done(c: Ctx, excused: set<int>, children: set<int>) {
    && c.message.Some? && !c.settled && !c.promoted && Named(c)
    && (c.pid <= 0 || c.pid in excused || c.pid !in children)
  }

  /** The end of a context without SPAWN_ABORT hook: response, deletion. */
  method AnswerAndDelete(mgr: AppSpawnMgr, i: nat)
    requires mgr.Valid() && i < |mgr.appSpawnQueue|
    requires mgr.appSpawnQueue[i].message.Some? && !mgr.appSpawnQueue[i].settled
    requires var c := mgr.appSpawnQueue[i];
             c.promoted || (!c.tokenRef && !c.uidRef && (c.pid <= 0 || c.pid in mgr.kernel.excused))
    modifies mgr`appSpawnQueue, mgr`answered, mgr.kernel`open
    ensures mgr.Valid() && mgr.appSpawnQueue == Without(old(mgr.appSpawnQueue), i)
    ensures mgr.answered == Added(old(mgr.answered), RequestOf(old(mgr.appSpawnQueue)[i]))
  {
    hide mgr.Valid, Added, Without;
    ghost var q := mgr.appSpawnQueue;
    mgr.SendResponse(i);
    ChangedAndGone(q, i, mgr.appSpawnQueue[i]);
    mgr.DeleteAppSpawningCtx(i);
  }

  // ------------------------------------------------------------------------- the same, between two events

  /** `kill(pid, SIGKILL)` */
  method Kill(mgr: AppSpawnMgr, pid: int)
    requires AtRest(mgr)
    modifies mgr.kernel`excused
    ensures AtRest(mgr) && mgr.kernel.excused == old(mgr.kernel.excused) + {pid}
  {
    hide mgr.Valid, AllWaiting, Pooled;
    mgr.Kill(pid);
  }

  /** A child has answered on its pipe or closed it. */
  ghost method Answered(mgr: AppSpawnMgr, pid: int)
    requires AtRest(mgr)
    modifies mgr.kernel`excused
    ensures AtRest(mgr) && mgr.kernel.excused == old(mgr.kernel.excused) + {pid}
  {
    hide mgr.Valid, AllWaiting, Pooled;
    mgr.Answered(pid);
  }

  /** AbortSpawnAndCleanup of a context whose child is settled. */
  method AbortWaiting(mgr: AppSpawnMgr, i: nat, hooks: Hooks)
    requires AtRest(mgr) && i < |mgr.appSpawnQueue| && mgr.appSpawnQueue[i].pid in mgr.kernel.excused
    modifies mgr`appSpawnQueue, mgr`answered, mgr`leakedTokens, mgr`leakedUids
    modifies mgr.kernel`open, mgr.kernel`tokenRefs, mgr.kernel`uidRefs
    ensures AtRest(mgr) && Snap(mgr) == Ended(old(Snap(mgr)), i)
    ensures hooks.SpmWorks() ==> mgr.leakedTokens == old(mgr.leakedTokens) && mgr.leakedUids == old(mgr.leakedUids)
  {
    hide mgr.Valid, Added, AllWaiting, PoolHolds, EmptyHands, Without, Kept, Waiting, Named, Done;
    Releasable(mgr, i);
    OthersWait(mgr.appSpawnQueue, i, mgr.kernel.pipeOf, mgr.kernel.answersOn);
    AbortSpawnAndCleanup(mgr, i, hooks);
  }

  /** The end of WaitChildTimeout and WaitChildDied. */
  method AnswerWaiting(mgr: AppSpawnMgr, i: nat, hooks: Hooks)
    requires AtRest(mgr) && i < |mgr.appSpawnQueue|
    requires mgr.appSpawnQueue[i].pid in mgr.kernel.excused || mgr.appSpawnQueue[i].pid !in mgr.kernel.children
    modifies mgr`appSpawnQueue, mgr`answered, mgr`leakedTokens, mgr`leakedUids
    modifies mgr.kernel`open, mgr.kernel`tokenRefs, mgr.kernel`uidRefs
    ensures AtRest(mgr) && Snap(mgr) == Ended(old(Snap(mgr)), i)
    ensures hooks.SpmWorks() ==> mgr.leakedTokens == old(mgr.leakedTokens) && mgr.leakedUids == old(mgr.leakedUids)
  {
    hide mgr.Valid, Added, AllWaiting, PoolHolds, EmptyHands, Without, Kept, Waiting, Named, Done;
    Releasable(mgr, i);
    OthersWait(mgr.appSpawnQueue, i, mgr.kernel.pipeOf, mgr.kernel.answersOn);
    AnswerAbortAndDelete(mgr, i, hooks);
  }

  /** The end of an unlock context. */
  method AnswerUnlocking(mgr: AppSpawnMgr, i: nat)
    requires AtRest(mgr) && i < |mgr.appSpawnQueue| && !mgr.appSpawnQueue[i].spawning
    requires mgr.appSpawnQueue[i].pid in mgr.kernel.excused
    modifies mgr`appSpawnQueue, mgr`answered, mgr.kernel`open
    ensures AtRest(mgr) && Snap(mgr) == Ended(old(Snap(mgr)), i)
  {
    hide mgr.Valid, Added, AllWaiting, PoolHolds, EmptyHands, Without, Kept, Waiting, Named, Done;
    Releasable(mgr, i);
    OthersWait(mgr.appSpawnQueue, i, mgr.kernel.pipeOf, mgr.kernel.answersOn);
    AnswerAndDelete(mgr, i);
  }

  lemma HasChild(mgr: AppSpawnMgr, i: nat)
    requires AtRest(mgr) && i < |mgr.appSpawnQueue|
    ensures 0 < mgr.appSpawnQueue[i].pid
  {
    hide mgr.Valid, Pooled, AllWaiting;
    OneWaits(mgr.appSpawnQueue, i, mgr.kernel.pipeOf, mgr.kernel.answersOn);
  }

  /** A context that waits can be answered and deleted as soon as its child is settled. */
  lemma Releasable(mgr: AppSpawnMgr, i: nat)
    requires AtRest(mgr) && i < |mgr.appSpawnQueue|
    ensures var c := mgr.appSpawnQueue[i];
            && c.message.Some? && !c.settled && !c.promoted && Named(c) && 0 < c.pid
            && (!c.spawning ==> !c.tokenRef && !c.uidRef)
            && (c.pid in mgr.kernel.excused || c.pid !in mgr.kernel.children
                ==> Done(c, mgr.kernel.excused, mgr.kernel.children))
  {
    hide mgr.Valid, Pooled, AllWaiting;
    OneWaits(mgr.appSpawnQueue, i, mgr.kernel.pipeOf, mgr.kernel.answersOn);
  }

  // ------------------------------------------------------------------------- a child answers or is late

  /** ProcessChildFdCheck: a child that reports a failure is done with. */
  method ProcessChildFdCheck(mgr: AppSpawnMgr, i: nat, result: int, hooks: Hooks) returns (ret: int)
    requires AtRest(mgr) && i < |mgr.appSpawnQueue|
    modifies mgr`appSpawnQueue, mgr`answered, mgr`leakedTokens, mgr`leakedUids
    modifies mgr.kernel`open, mgr.kernel`tokenRefs, mgr.kernel`uidRefs
    modifies mgr.kernel`excused
    ensures AtRest(mgr) && (ret == 0 <==> result == 0)
    ensures Snap(mgr) == if ret == 0 then old(Snap(mgr)) else EndedWithChild(old(Snap(mgr)), i)
    ensures hooks.SpmWorks() ==> mgr.leakedTokens == old(mgr.leakedTokens) && mgr.leakedUids == old(mgr.leakedUids)
  {
    hide AtRest, Added, Without;
    if result == 0 {
      return 0;
    }
    ret := -1;
    Answered(mgr, mgr.appSpawnQueue[i].pid);
    AbortWaiting(mgr, i, hooks);
  }

  /** HandleSpawnProcessInfoFail */
  method HandleSpawnProcessInfoFail(mgr: AppSpawnMgr, i: nat, hooks: Hooks)
    requires AtRest(mgr) && i < |mgr.appSpawnQueue|
    modifies mgr`appSpawnQueue, mgr`answered, mgr`leakedTokens, mgr`leakedUids
    modifies mgr.kernel`open, mgr.kernel`tokenRefs, mgr.kernel`uidRefs
    modifies mgr.kernel`excused
    ensures AtRest(mgr) && Snap(mgr) == EndedWithChild(old(Snap(mgr)), i)
    ensures hooks.SpmWorks() ==> mgr.leakedTokens == old(mgr.leakedTokens) && mgr.leakedUids == old(mgr.leakedUids)
  {
    hide AtRest, Added, Without;
    Kill(mgr, mgr.appSpawnQueue[i].pid);
    AbortWaiting(mgr, i, hooks);
  }

  /** The success of ProcessChildResponse: the context's child and reference counts go to a process record. */
  method CompleteSpawn(mgr: AppSpawnMgr, i: nat, usable: bool) returns (added: bool)
    requires AtRest(mgr) && i < |mgr.appSpawnQueue|
    modifies mgr`appSpawnQueue, mgr`appQueue, mgr`answered, mgr.kernel`open
    ensures AtRest(mgr) && (added <==> usable)
    ensures Snap(mgr) == if added then Responded(old(Snap(mgr)), i, 0, true) else old(Snap(mgr))
  {
    hide mgr.Valid, Added, AllWaiting, Pooled, Without, Record, Inserted;
    ghost var q := mgr.appSpawnQueue;
    OneWaits(q, i, mgr.kernel.pipeOf, mgr.kernel.answersOn);
    OthersWait(q, i, mgr.kernel.pipeOf, mgr.kernel.answersOn);
    added := mgr.InitSpawnedProcessInfo(i, usable);
    if added {
      ChangedAndGone(q, i, mgr.appSpawnQueue[i]);
      AnswerAndDelete(mgr, i);
    }
  }

  /** ProcessChildResponse: the child has written `result` into its pipe. */
  method ProcessChildResponse(mgr: AppSpawnMgr, i: nat, result: int, usable: bool, hooks: Hooks)
    requires AtRest(mgr) && i < |mgr.appSpawnQueue|
    modifies mgr`appQueue
    modifies mgr`appSpawnQueue, mgr`answered, mgr`leakedTokens, mgr`leakedUids
    modifies mgr.kernel`open, mgr.kernel`excused, mgr.kernel`tokenRefs, mgr.kernel`uidRefs
    ensures AtRest(mgr) && Snap(mgr) == Responded(old(Snap(mgr)), i, result, usable)
    ensures hooks.SpmWorks() ==> mgr.leakedTokens == old(mgr.leakedTokens) && mgr.leakedUids == old(mgr.leakedUids)
  {
    hide AtRest, Ended, Record, Inserted;
    var ret := ProcessChildFdCheck(mgr, i, result, hooks);
    if ret != 0 {
      return;
    }
    var added := CompleteSpawn(mgr, i, usable);
    if !added {
      HandleSpawnProcessInfoFail(mgr, i, hooks);
    }
  }

  /** WaitChildTimeout */
  method WaitChildTimeout(mgr: AppSpawnMgr, i: nat, hooks: Hooks)
    requires AtRest(mgr) && i < |mgr.appSpawnQueue|
    modifies mgr`appSpawnQueue, mgr`answered, mgr`leakedTokens, mgr`leakedUids
    modifies mgr.kernel`open, mgr.kernel`tokenRefs, mgr.kernel`uidRefs
    modifies mgr.kernel`excused
    ensures AtRest(mgr) && Snap(mgr) == EndedWithChild(old(Snap(mgr)), i)
    ensures hooks.SpmWorks() ==> mgr.leakedTokens == old(mgr.leakedTokens) && mgr.leakedUids == old(mgr.leakedUids)
  {
    hide AtRest, Added, Without;
    HasChild(mgr, i);
    var pid := mgr.appSpawnQueue[i].pid;
    if pid > 0 {
      Kill(mgr, pid);
    }
    AnswerWaiting(mgr, i, hooks);
  }

  // ------------------------------------------------------------------------- the hooks of a dying process

  /** SetKillReason: the device is opened and registered when it is first needed. */
  method SetKillReason(mgr: AppSpawnMgr, device: Device)
    requires AtRest(mgr)
    modifies mgr.fds, mgr.kernel`nextFd, mgr.kernel`open, mgr.kernel`pipeOf
    ensures AtRest(mgr) && Reported(old(Others(mgr)), Others(mgr), mgr.kernel.self)
  {
    hide mgr.Valid, AllWaiting, Pool, Kept, FindNode, EndsKept, IsPipeNode;
    RecordedIsOpen(mgr);
    KeptMembers(mgr.fds.nodes, Apart);
    ghost var before := mgr.fds.nodes;
    var fd := mgr.GetKillReasonFd(device);
    WaitPastEnds(mgr.appSpawnQueue, old(mgr.kernel.pipeOf), mgr.kernel.answersOn, old(mgr.kernel.open), mgr.kernel.pipeOf);
    PoolPastEnds(mgr.reservedPid, before, mgr.kernel.self, old(mgr.kernel.pipeOf), mgr.kernel.answersOn,
                 mgr.kernel.readsFrom, mgr.kernel.inbox, old(mgr.kernel.open), mgr.kernel.pipeOf);
    if mgr.fds.nodes != before {
      DeviceJoined(before, mgr.kernel.self, fd);
    }
  }

  /** KillProcessesByCGroup: every stray process it kills is reported. */
  method KillProcessesByCGroup(mgr: AppSpawnMgr, dead: int, group: seq<Stray>)
    requires AtRest(mgr)
    modifies mgr.fds, mgr.kernel`nextFd, mgr.kernel`open, mgr.kernel`pipeOf, mgr.kernel`excused
    ensures AtRest(mgr) && Reported(old(Others(mgr)), Others(mgr), mgr.kernel.self)
    ensures mgr.kernel.excused == old(mgr.kernel.excused) + Killed(group, dead, mgr.appQueue)
  {
    hide AtRest, Reported, Others, AppOf;
    ReportedNothing(mgr);
    var n := 0;
    while n < |group| && 0 < group[n].pid
      invariant n <= |group| && AtRest(mgr) && Reported(old(Others(mgr)), Others(mgr), mgr.kernel.self)
      invariant mgr.kernel.excused + Killed(group[n..], dead, mgr.appQueue) ==
                old(mgr.kernel.excused) + Killed(group, dead, mgr.appQueue)
    {
      ghost var others := Others(mgr);
      NextStray(group, n, dead, mgr.appQueue);
      var k := mgr.GetSpawnedProcess(group[n].pid);
      if group[n].pid != dead && k == |mgr.appQueue| && group[n].killOk {
        Kill(mgr, group[n].pid);
        SetKillReason(mgr, group[n].device);
        ReportedTwice(old(Others(mgr)), others, Others(mgr), mgr.kernel.self);
      }
      n := n + 1;
    }
  }

  lemma ReportedNothing(mgr: AppSpawnMgr)
    ensures Reported(Others(mgr), Others(mgr), mgr.kernel.self)
  {
  }

  lemma NextStray(group: seq<Stray>, n: nat, dead: int, apps: seq<App>)
    requires n < |group| && 0 < group[n].pid
    ensures Killed(group[n..], dead, apps) ==
            (if Spared(group[n], dead, apps) then {} else {group[n].pid}) + Killed(group[n + 1..], dead, apps)
    ensures AppOf(apps, group[n].pid) <= |apps|
  {
    assert group[n..][1..] == group[n + 1..];
  }

  /** ProcessMgrRemoveApp, the APP_DIED hook. */
  method ProcessMgrRemoveApp(mgr: AppSpawnMgr, pid: int, hooks: Hooks)
    requires AtRest(mgr)
    modifies mgr.fds, mgr.kernel`nextFd, mgr.kernel`open, mgr.kernel`pipeOf, mgr.kernel`excused
    ensures AtRest(mgr) && Reported(old(Others(mgr)), Others(mgr), mgr.kernel.self)
    ensures mgr.kernel.excused == old(mgr.kernel.excused) + KilledWith(pid, mgr.appQueue, hooks, mgr.isNWebSpawn)
  {
    hide AtRest, Reported, Others, Killed;
    ReportedNothing(mgr);
    if !mgr.isNWebSpawn {
      KillProcessesByCGroup(mgr, pid, hooks.Group(pid));
    }
  }

  /** ProcessChildProcessFd */
  method ProcessChildProcessFd(mgr: AppSpawnMgr, pid: int, hooks: Hooks)
    requires AtRest(mgr)
    modifies mgr.fds, mgr.kernel`nextFd, mgr.kernel`open, mgr.kernel`pipeOf, mgr.kernel`excused
    ensures AtRest(mgr) && Reported(old(Others(mgr)), Others(mgr), mgr.kernel.self)
    ensures Snap(mgr) == PidFdFired(old(Snap(mgr)), pid, hooks, mgr.isNWebSpawn)
  {
    hide AtRest, Reported, Others, KilledWith, AppOf;
    ReportedNothing(mgr);
    var k := mgr.GetSpawnedProcess(pid);
    FoundOrNot(mgr.appQueue, pid);
    if k < |mgr.appQueue| {
      ProcessMgrRemoveApp(mgr, pid, hooks);
    }
  }

  // ------------------------------------------------------------------------- the end of the spawner

  /** SendMessageComplete, for a response that told of process `pid`. */
  method SendMessageComplete(mgr: AppSpawnMgr, pid: int, failed: bool)
    requires AtRest(mgr)
    modifies mgr.kernel`excused
    ensures AtRest(mgr) && Snap(mgr) == ResponseGone(old(Snap(mgr)), pid, failed)
  {
    hide AtRest, AppOf;
    var k := mgr.GetSpawnedProcess(pid);
    FoundOrNot(mgr.appQueue, pid);
    if k == |mgr.appQueue| {
      return;
    }
    if failed && pid > 0 {
      Kill(mgr, pid);
    }
  }

  const APPSPAWN_DEVICEDEBUG_ERROR_APP_NOT_EXIST := 0xD000020
  const APPSPAWN_DEVICEDEBUG_ERROR_APP_NOT_DEBUGGABLE := 0xD000021

  /** AppspawpnDevicedebugKill */
  method AppspawpnDevicedebugKill(mgr: AppSpawnMgr, pid: int, debuggable: bool, signal: int, killOk: bool)
    returns (ret: int)
    requires AtRest(mgr)
    modifies mgr.kernel`excused
    ensures AtRest(mgr) && Snap(mgr) == Debugged(old(Snap(mgr)), pid, debuggable, signal, killOk)
    ensures ret == 0 <==> AppOf(mgr.appQueue, pid) < |mgr.appQueue| && debuggable && killOk
  {
    hide AtRest, AppOf;
    var k := mgr.GetSpawnedProcess(pid);
    FoundOrNot(mgr.appQueue, pid);
    if k == |mgr.appQueue| {
      return APPSPAWN_DEVICEDEBUG_ERROR_APP_NOT_EXIST;
    }
    if !debuggable {
      return APPSPAWN_DEVICEDEBUG_ERROR_APP_NOT_DEBUGGABLE;
    }
    if !killOk {
      return -1;
    }
    if signal == SIGKILL {
      Kill(mgr, pid);
    }
    ret := 0;
  }

  /** AppQueueDestroyProc, for the first record of the queue. */
  method AppQueueDestroyProc(mgr: AppSpawnMgr, hooks: Hooks)
    requires AtRest(mgr) && mgr.appQueue != []
    modifies mgr`appQueue, mgr`leakedTokens, mgr`leakedUids, mgr`handPids, mgr.fds
    modifies mgr.kernel`tokenRefs, mgr.kernel`uidRefs, mgr.kernel`excused
    modifies mgr.kernel`nextFd, mgr.kernel`open, mgr.kernel`pipeOf
    ensures AtRest(mgr) && mgr.appQueue == old(mgr.appQueue)[1..]
    ensures Reported(old(Others(mgr)), Others(mgr), mgr.kernel.self)
    ensures var pid := old(mgr.appQueue)[0].pid;
            mgr.kernel.excused ==
            old(mgr.kernel.excused) + KilledWith(pid, old(mgr.appQueue), hooks, mgr.isNWebSpawn) + {pid}
    ensures hooks.SpmWorks() ==> mgr.leakedTokens == old(mgr.leakedTokens) && mgr.leakedUids == old(mgr.leakedUids)
  {
    hide AtRest, Reported, Others, KilledWith;
    var pid := mgr.appQueue[0].pid;
    ProcessMgrRemoveApp(mgr, pid, hooks);
    ghost var others := Others(mgr);
    var app := ReleaseCounts(mgr, 0, hooks);
    SetKillReason(mgr, hooks.DeviceFor(pid));
    ReportedTwice(old(Others(mgr)), others, Others(mgr), mgr.kernel.self);
    KillFirst(mgr, hooks);
  }

  /** OnAppExitUpdateRefCount, the APP_CLEANUP hook that comes first. */
  method ReleaseCounts(mgr: AppSpawnMgr, k: nat, hooks: Hooks) returns (app: App)
    requires AtRest(mgr) && k < |mgr.appQueue|
    modifies mgr`appQueue, mgr`leakedTokens, mgr`leakedUids, mgr.kernel`tokenRefs, mgr.kernel`uidRefs
    ensures AtRest(mgr) && app == Dead(old(mgr.appQueue)[k], old(mgr.appQueue)[k].exitStatus, hooks)
    ensures mgr.appQueue == old(mgr.appQueue)[k := app]
    ensures mgr.leakedTokens == old(mgr.leakedTokens) && mgr.leakedUids == old(mgr.leakedUids)
  {
    hide mgr.Valid, AllWaiting, Pooled;
    var pid := mgr.appQueue[k].pid;
    mgr.OnAppExitUpdateRefCount(k, hooks.Token(pid), hooks.Uid(pid));
    app := mgr.appQueue[k];
  }

  /** The end of AppQueueDestroyProc: the record goes and its process is killed. */
  method KillFirst(mgr: AppSpawnMgr, hooks: Hooks)
    requires AtRest(mgr) && mgr.appQueue != []
    modifies mgr`appQueue, mgr`leakedTokens, mgr`leakedUids, mgr`handPids, mgr.kernel`excused
    ensures AtRest(mgr) && mgr.appQueue == old(mgr.appQueue)[1..] && Others(mgr) == old(Others(mgr))
    ensures mgr.kernel.excused == old(mgr.kernel.excused) + {old(mgr.appQueue)[0].pid}
    ensures !old(mgr.appQueue)[0].tokenRef ==> mgr.leakedTokens == old(mgr.leakedTokens)
    ensures !old(mgr.appQueue)[0].uidRef ==> mgr.leakedUids == old(mgr.leakedUids)
  {
    hide mgr.Valid, AllWaiting, Pooled, Plus, Minus;
    var pid := mgr.appQueue[0].pid;
    PlusMinus(mgr.handPids, true, pid);
    PlusMinus(mgr.leakedTokens, true, mgr.appQueue[0].token);
    PlusMinus(mgr.leakedUids, true, mgr.appQueue[0].uid);
    mgr.RemoveApp(0);
    mgr.Kill(pid);
    mgr.ForgetHand(pid);
  }

  /** TraversalSpawnedProcess with AppQueueDestroyProc. */
  method KillProcesses(mgr: AppSpawnMgr, hooks: Hooks)
    requires AtRest(mgr)
    modifies mgr`appQueue, mgr`leakedTokens, mgr`leakedUids, mgr`handPids, mgr.fds
    modifies mgr.kernel`tokenRefs, mgr.kernel`uidRefs, mgr.kernel`excused
    modifies mgr.kernel`nextFd, mgr.kernel`open, mgr.kernel`pipeOf
    ensures AtRest(mgr) && mgr.appQueue == [] && Reported(old(Others(mgr)), Others(mgr), mgr.kernel.self)
    ensures mgr.kernel.excused == old(mgr.kernel.excused) + KilledAtStop(old(mgr.appQueue), hooks, mgr.isNWebSpawn)
    ensures hooks.SpmWorks() ==> mgr.leakedTokens == old(mgr.leakedTokens) && mgr.leakedUids == old(mgr.leakedUids)
  {
    hide AtRest, Reported, Others, KilledWith;
    ReportedNothing(mgr);
    while mgr.appQueue != []
      invariant AtRest(mgr) && Reported(old(Others(mgr)), Others(mgr), mgr.kernel.self)
      invariant mgr.kernel.excused + KilledAtStop(mgr.appQueue, hooks, mgr.isNWebSpawn) ==
                old(mgr.kernel.excused) + KilledAtStop(old(mgr.appQueue), hooks, mgr.isNWebSpawn)
      invariant hooks.SpmWorks() ==> mgr.leakedTokens == old(mgr.leakedTokens) && mgr.leakedUids == old(mgr.leakedUids)
      decreases |mgr.appQueue|
    {
      ghost var others := Others(mgr);
      AppQueueDestroyProc(mgr, hooks);
      ReportedTwice(old(Others(mgr)), others, Others(mgr), mgr.kernel.self);
    }
  }

  /** StopAppSpawn: kills the reserved child and every process. */
  method StopAppSpawn(mgr: AppSpawnMgr, hooks: Hooks)
    requires AtRest(mgr)
    modifies mgr`appQueue, mgr`leakedTokens, mgr`leakedUids, mgr`handPids, mgr`reservedPid, mgr`given, mgr`running
    modifies mgr.fds, mgr.kernel`tokenRefs, mgr.kernel`uidRefs, mgr.kernel`excused
    modifies mgr.kernel`nextFd, mgr.kernel`open, mgr.kernel`pipeOf
    ensures AtRest(mgr) && Snap(mgr) == Stopped(old(Snap(mgr)), hooks, mgr.isNWebSpawn)
    ensures NoPool(mgr) && Reported(old(Others(mgr)), Others(mgr), mgr.kernel.self)
    ensures hooks.SpmWorks() ==> mgr.leakedTokens == old(mgr.leakedTokens) && mgr.leakedUids == old(mgr.leakedUids)
  {
    hide AtRest, Reported, Others, NoPool, KilledAtStop, Snapshots.Drained;
    DrainPool(mgr);
    KillProcesses(mgr, hooks);
    NoReserve(mgr);
    StopLoop(mgr);
  }

  lemma NoReserve(mgr: AppSpawnMgr)
    requires AtRest(mgr) && mgr.reservedPid <= 0
    ensures NoPool(mgr)
  {
  }

  method StopLoop(mgr: AppSpawnMgr)
    requires AtRest(mgr)
    modifies mgr`running
    ensures AtRest(mgr) && !mgr.running
  {
    hide mgr.Valid, AllWaiting, Pooled, Snapshots.Drained;
    mgr.StopLoop();
  }

  /** Gives the reserved child up: kill, `reservedPid = 0`, cleanup of its descriptors. */
  method DrainPool(mgr: AppSpawnMgr)
    requires AtRest(mgr)
    modifies mgr`reservedPid, mgr`given, mgr`handPids, mgr.fds, mgr.kernel`open, mgr.kernel`excused
    ensures AtRest(mgr) && mgr.reservedPid <= 0 && Others(mgr) == old(Others(mgr))
    ensures Snap(mgr) == Snapshots.Drained(old(Snap(mgr)))
  {
    hide mgr.Valid, Added, AllWaiting, Plus, Minus, Kept, OfOthers;
    if mgr.reservedPid > 0 {
      var reservedPid := mgr.reservedPid;
      RecordedIsOpen(mgr);
      PlusMinus(mgr.handPids, true, reservedPid);
      PoolCleaned(mgr.fds.nodes, reservedPid, mgr.kernel.self);
      mgr.Kill(reservedPid);
      mgr.Unreserve();
      mgr.ForgetHand(reservedPid);
      mgr.CleanupSpawningFdsByPid(reservedPid);
    }
  }

  // ------------------------------------------------------------------------- a child dies

  /** HandleDiedPid, for a child that has just been reaped. */
  method HandleDiedPid(mgr: AppSpawnMgr, pid: int, status: int, bySignal: bool, hooks: Hooks)
    requires AtRest(mgr) && 0 < pid && pid !in mgr.kernel.children
    modifies mgr, mgr.kernel, mgr.fds
    ensures AtRest(mgr) && Snap(mgr) == Died(old(Snap(mgr)), pid, status, bySignal, hooks, mgr.isNWebSpawn)
    ensures Reported(old(Others(mgr)), Others(mgr), mgr.kernel.self)
    ensures hooks.SpmWorks() ==> mgr.leakedTokens == old(mgr.leakedTokens) && mgr.leakedUids == old(mgr.leakedUids)
  {
    hide AtRest, Reported, Others, Buried, DiedWaiting, AppOf;
    ghost var s := Snap(mgr);
    AlreadyGone(mgr.kernel.children, pid);
    DropDeadReserve(mgr, pid);
    ghost var t := Snap(mgr);
    assert t == s.(children := s.children - {pid}, reservedPid := if s.reservedPid == pid then 0 else s.reservedPid);
    var k := mgr.GetSpawnedProcess(pid);
    FoundOrNot(mgr.appQueue, pid);
    if k == |mgr.appQueue| {
      WaitChildDied(mgr, pid, bySignal, hooks);
    } else {
      HandleDiedApp(mgr, k, status, hooks);
    }
  }

  lemma AlreadyGone(children: set<int>, pid: int)
    requires pid !in children
    ensures children - {pid} == children
  {
  }

  lemma FoundOrNot(apps: seq<App>, pid: int)
    ensures AppOf(apps, pid) <= |apps| && (AppOf(apps, pid) < |apps| ==> apps[AppOf(apps, pid)].pid == pid)
  {
  }

  /** The end of a process that had been reported as spawned: exit status, APP_DIED and APP_CLEANUP hooks,
      TerminateSpawnedProcess. */
  method HandleDiedApp(mgr: AppSpawnMgr, k: nat, status: int, hooks: Hooks)
    requires AtRest(mgr) && k < |mgr.appQueue| && mgr.appQueue[k].pid !in mgr.kernel.children
    modifies mgr`appQueue, mgr`leakedTokens, mgr`leakedUids, mgr`handPids, mgr`diedQueue, mgr`diedAppCount, mgr.fds
    modifies mgr.kernel`tokenRefs, mgr.kernel`uidRefs, mgr.kernel`excused
    modifies mgr.kernel`nextFd, mgr.kernel`open, mgr.kernel`pipeOf
    ensures AtRest(mgr) && Snap(mgr) == Buried(old(Snap(mgr)), k, status, hooks, mgr.isNWebSpawn)
    ensures Reported(old(Others(mgr)), Others(mgr), mgr.kernel.self)
    ensures hooks.SpmWorks() ==> mgr.leakedTokens == old(mgr.leakedTokens) && mgr.leakedUids == old(mgr.leakedUids)
  {
    hide AtRest, Reported, Others, KilledWith, Latest, Without;
    ghost var apps := mgr.appQueue;
    RunHooks(mgr, k, status, hooks);
    ChangedAndGone(apps, k, mgr.appQueue[k]);
    Bury(mgr, k);
  }

  /** What HandleDiedPid does with the record before it goes. */
  method RunHooks(mgr: AppSpawnMgr, k: nat, status: int, hooks: Hooks)
    requires AtRest(mgr) && k < |mgr.appQueue|
    modifies mgr`appQueue, mgr`leakedTokens, mgr`leakedUids, mgr.fds
    modifies mgr.kernel`tokenRefs, mgr.kernel`uidRefs, mgr.kernel`excused
    modifies mgr.kernel`nextFd, mgr.kernel`open, mgr.kernel`pipeOf
    ensures AtRest(mgr) && mgr.appQueue == old(mgr.appQueue)[k := Dead(old(mgr.appQueue)[k], status, hooks)]
    ensures mgr.kernel.excused ==
            old(mgr.kernel.excused) + KilledWith(old(mgr.appQueue)[k].pid, old(mgr.appQueue), hooks, mgr.isNWebSpawn)
    ensures Reported(old(Others(mgr)), Others(mgr), mgr.kernel.self)
    ensures mgr.leakedTokens == old(mgr.leakedTokens) && mgr.leakedUids == old(mgr.leakedUids)
  {
    hide AtRest, Reported, Others, KilledWith, Latest, Without;
    ghost var apps := mgr.appQueue;
    var pid := mgr.appQueue[k].pid;
    SetExitStatus(mgr, k, status);
    KilledSame(pid, apps, k, mgr.appQueue[k], hooks, mgr.isNWebSpawn);
    ProcessMgrRemoveApp(mgr, pid, hooks);
    var app := ReleaseCounts(mgr, k, hooks);
  }

  /** `appInfo->exitStatus = status` */
  method SetExitStatus(mgr: AppSpawnMgr, k: nat, status: int)
    requires AtRest(mgr) && k < |mgr.appQueue|
    modifies mgr`appQueue
    ensures AtRest(mgr) && mgr.appQueue == old(mgr.appQueue)[k := old(mgr.appQueue)[k].(exitStatus := status)]
  {
    hide mgr.Valid, AllWaiting, Pooled;
    mgr.SetExitStatus(k, status);
  }

  /** TerminateSpawnedProcess */
  method Bury(mgr: AppSpawnMgr, k: nat)
    requires AtRest(mgr) && k < |mgr.appQueue| && mgr.appQueue[k].pid !in mgr.kernel.children
    modifies mgr`appQueue, mgr`leakedTokens, mgr`leakedUids, mgr`handPids, mgr`diedQueue, mgr`diedAppCount
    ensures AtRest(mgr) && mgr.appQueue == Without(old(mgr.appQueue), k)
    ensures mgr.diedQueue == if mgr.isNWebSpawn then Latest(old(mgr.diedQueue)) + [old(mgr.appQueue)[k]] else old(mgr.diedQueue)
    ensures !old(mgr.appQueue)[k].tokenRef ==> mgr.leakedTokens == old(mgr.leakedTokens)
    ensures !old(mgr.appQueue)[k].uidRef ==> mgr.leakedUids == old(mgr.leakedUids)
  {
    hide mgr.Valid, Wait, PoolHolds, Plus, Latest, Without;
    PlusMinus(mgr.leakedTokens, true, mgr.appQueue[k].token);
    PlusMinus(mgr.leakedUids, true, mgr.appQueue[k].uid);
    mgr.TerminateSpawnedProcess(k);
  }

  /** Whom the APP_DIED hook spares does not depend on more than the pids of the records. */
  lemma KilledSame(pid: int, apps: seq<App>, k: nat, a: App, hooks: Hooks, isNWebSpawn: bool)
    requires k < |apps| && a.pid == apps[k].pid
    ensures KilledWith(pid, apps[k := a], hooks, isNWebSpawn) == KilledWith(pid, apps, hooks, isNWebSpawn)
  {
    SparedSame(hooks.Group(pid), pid, apps, k, a);
  }

  lemma {:induction false} SparedSame(group: seq<Stray>, dead: int, apps: seq<App>, k: nat, a: App)
    requires k < |apps| && a.pid == apps[k].pid
    ensures Killed(group, dead, apps[k := a]) == Killed(group, dead, apps)
    decreases |group|
  {
    if group != [] && 0 < group[0].pid {
      hide AppOf;
      SparedSame(group[1..], dead, apps, k, a);
      FoundOrNot(apps, group[0].pid);
      SameIndex(apps, k, a, group[0].pid);
    }
  }

  lemma SameIndex(apps: seq<App>, k: nat, a: App, pid: int)
    requires k < |apps| && a.pid == apps[k].pid
    ensures AppOf(apps[k := a], pid) == AppOf(apps, pid)
  {
    AppIs(apps[k := a], pid, AppOf(apps, pid));
  }

  /** The reserved child has died. */
  method DropDeadReserve(mgr: AppSpawnMgr, pid: int)
    requires AtRest(mgr) && 0 < pid && pid !in mgr.kernel.children
    modifies mgr`reservedPid, mgr`given, mgr`handPids, mgr.fds, mgr.kernel`open
    ensures AtRest(mgr) && mgr.reservedPid == (if old(mgr.reservedPid) == pid then 0 else old(mgr.reservedPid))
    ensures Others(mgr) == old(Others(mgr))
  {
    hide mgr.Valid, Added, AllWaiting, Plus, Minus, Kept, OfOthers;
    if pid == mgr.reservedPid {
      RecordedIsOpen(mgr);
      PlusMinus(mgr.handPids, true, pid);
      PoolCleaned(mgr.fds.nodes, pid, mgr.kernel.self);
      mgr.CleanupSpawningFdsByPid(pid);
      mgr.Unreserve();
      mgr.ForgetHand(pid);
    }
  }

  /** What the death of a child that was being spawned comes to. */
  lemma DeathTells(s: Snapshot, i: nat, bySignal: bool, hooks: Hooks, isNWebSpawn: bool)
    requires Orderly(s) && i < |s.contexts| && s.contexts[i].spawning
    ensures var c := s.contexts[i];
            var t := DiedWaiting(s, c.pid, bySignal, hooks, isNWebSpawn);
            && c !in t.contexts && c.message.Some? && t.answered == s.answered + multiset{c.message.value.request}
            && t.lastDiedAppId == (if bySignal then c.id else s.lastDiedAppId)
            && t.crashTimes == (if !bySignal then 0 else if c.id == s.lastDiedAppId + 1 then s.crashTimes + 1 else 1)
            && (t.running <==> s.running && t.crashTimes < 5)
  {
    assert s.contexts[i] in s.contexts;
    CtxIs(s.contexts, s.contexts[i].pid, i);
    NotLeft(s, i);
    hide KilledAtStop, CtxOf, Orderly, Without;
  }

  lemma NotLeft(s: Snapshot, i: nat)
    requires Orderly(s) && i < |s.contexts|
    ensures s.contexts[i] !in Without(s.contexts, i)
  {
  }

  lemma DeathsTell(s: Snapshot, pid: int, bySignal: bool, hooks: Hooks, isNWebSpawn: bool)
    requires Orderly(s)
    ensures var t := DiedWaiting(s, pid, bySignal, hooks, isNWebSpawn);
            forall c :: c in s.contexts && c.spawning && c.pid == pid ==>
              && c !in t.contexts && c.message.Some? && t.answered == s.answered + multiset{c.message.value.request}
              && t.lastDiedAppId == (if bySignal then c.id else s.lastDiedAppId)
              && t.crashTimes == (if !bySignal then 0 else if c.id == s.lastDiedAppId + 1 then s.crashTimes + 1 else 1)
              && (t.running <==> s.running && t.crashTimes < 5)
  {
    hide DiedWaiting, Orderly;
    forall i | 0 <= i < |s.contexts| && s.contexts[i].spawning && s.contexts[i].pid == pid
      ensures var c := s.contexts[i];
              var t := DiedWaiting(s, pid, bySignal, hooks, isNWebSpawn);
              && c !in t.contexts && c.message.Some? && t.answered == s.answered + multiset{c.message.value.request}
              && t.lastDiedAppId == (if bySignal then c.id else s.lastDiedAppId)
              && t.crashTimes == (if !bySignal then 0 else if c.id == s.lastDiedAppId + 1 then s.crashTimes + 1 else 1)
              && (t.running <==> s.running && t.crashTimes < 5)
    {
      DeathTells(s, i, bySignal, hooks, isNWebSpawn);
    }
  }

  lemma DiedWaitingIs(s: Snapshot, pid: int, bySignal: bool, hooks: Hooks, isNWebSpawn: bool)
    ensures var i := CtxOf(s.contexts, pid);
            && i <= |s.contexts|
            && DiedWaiting(s, pid, bySignal, hooks, isNWebSpawn) ==
               if i == |s.contexts| || s.contexts[i].message.None? || !s.contexts[i].spawning then s
               else
                 var t := Crashed(Ended(s, i), s.contexts[i].id, bySignal);
                 if t.crashTimes >= MAX_CRASH_TIME then Stopped(t, hooks, isNWebSpawn) else t
  {
  }

  /** WaitChildDied */
  method WaitChildDied(mgr: AppSpawnMgr, pid: int, bySignal: bool, hooks: Hooks)
    requires AtRest(mgr) && 0 < pid && pid !in mgr.kernel.children
    modifies mgr`appSpawnQueue, mgr`answered, mgr`crashTimes, mgr`lastDiedAppId, mgr`signalled
    modifies mgr`appQueue, mgr`leakedTokens, mgr`leakedUids, mgr`handPids, mgr`reservedPid, mgr`given, mgr`running
    modifies mgr.fds, mgr.kernel`tokenRefs, mgr.kernel`uidRefs, mgr.kernel`excused
    modifies mgr.kernel`nextFd, mgr.kernel`open, mgr.kernel`pipeOf
    ensures AtRest(mgr) && Snap(mgr) == DiedWaiting(old(Snap(mgr)), pid, bySignal, hooks, mgr.isNWebSpawn)
    ensures forall c :: c in old(mgr.appSpawnQueue) && c.spawning && c.pid == pid ==>
              && c !in mgr.appSpawnQueue && c.message.Some?
              && mgr.answered == old(mgr.answered) + multiset{c.message.value.request}
              && mgr.lastDiedAppId == (if bySignal then c.id else old(mgr.lastDiedAppId))
              && mgr.crashTimes == (if !bySignal then 0
                                    else if c.id == old(mgr.lastDiedAppId) + 1 then old(mgr.crashTimes) + 1 else 1)
              && (mgr.running <==> old(mgr.running) && mgr.crashTimes < 5)
    ensures Reported(old(Others(mgr)), Others(mgr), mgr.kernel.self)
    ensures hooks.SpmWorks() ==> mgr.leakedTokens == old(mgr.leakedTokens) && mgr.leakedUids == old(mgr.leakedUids)
  {
    hide AtRest, Reported, Others, NoPool, Ended, Crashed, Stopped, DiedWaiting, Orderly;
    ReportedNothing(mgr);
    RestIsOrderly(mgr);
    DeathsTell(Snap(mgr), pid, bySignal, hooks, mgr.isNWebSpawn);
    DiedWaitingIs(Snap(mgr), pid, bySignal, hooks, mgr.isNWebSpawn);
    var i := mgr.GetAppSpawningCtxByPid(pid);
    if i == |mgr.appSpawnQueue| || mgr.appSpawnQueue[i].message.None? || !mgr.appSpawnQueue[i].spawning {
      return;
    }
    AnswerForDeadChild(mgr, i, bySignal, hooks);
    if mgr.crashTimes >= MAX_CRASH_TIME {
      StopAppSpawn(mgr, hooks);
    }
  }

  /** A child has died before it answered: the crash history, and the answer for it. */
  method AnswerForDeadChild(mgr: AppSpawnMgr, i: nat, bySignal: bool, hooks: Hooks)
    requires AtRest(mgr) && i < |mgr.appSpawnQueue| && mgr.appSpawnQueue[i].pid !in mgr.kernel.children
    modifies mgr`appSpawnQueue, mgr`answered, mgr`leakedTokens, mgr`leakedUids
    modifies mgr.kernel`open, mgr.kernel`tokenRefs, mgr.kernel`uidRefs
    modifies mgr`crashTimes, mgr`lastDiedAppId, mgr`signalled
    ensures AtRest(mgr)
    ensures Snap(mgr) == Crashed(Ended(old(Snap(mgr)), i), old(mgr.appSpawnQueue)[i].id, bySignal)
    ensures hooks.SpmWorks() ==> mgr.leakedTokens == old(mgr.leakedTokens) && mgr.leakedUids == old(mgr.leakedUids)
  {
    hide AtRest, Added, Without, Others;
    CountCrash(mgr, i, bySignal);
    AnswerWaiting(mgr, i, hooks);
  }

  /** The crash history of WaitChildDied. */
  method CountCrash(mgr: AppSpawnMgr, i: nat, bySignal: bool)
    requires AtRest(mgr) && i < |mgr.appSpawnQueue|
    modifies mgr`crashTimes, mgr`lastDiedAppId, mgr`signalled
    ensures AtRest(mgr) && Snap(mgr) == Crashed(old(Snap(mgr)), mgr.appSpawnQueue[i].id, bySignal)
  {
    hide mgr.Valid, AllWaiting, Pooled;
    IdsAreGiven(mgr, i);
    mgr.CountCrash(mgr.appSpawnQueue[i].id, bySignal);
  }

  // ------------------------------------------------------------------------- unlock requests

  /** ProcessUnlockChildResponse: the child has answered or closed its pipe. */
  method ProcessUnlockChildResponse(mgr: AppSpawnMgr, i: nat)
    requires AtRest(mgr) && i < |mgr.appSpawnQueue| && !mgr.appSpawnQueue[i].spawning
    modifies mgr`appSpawnQueue, mgr`answered, mgr.kernel`open, mgr.kernel`excused
    ensures AtRest(mgr) && Snap(mgr) == EndedWithChild(old(Snap(mgr)), i)
  {
    hide AtRest, Added, Without;
    Answered(mgr, mgr.appSpawnQueue[i].pid);
    AnswerUnlocking(mgr, i);
  }

  /** UnlockChildTimeout */
  method UnlockChildTimeout(mgr: AppSpawnMgr, i: nat)
    requires AtRest(mgr) && i < |mgr.appSpawnQueue| && !mgr.appSpawnQueue[i].spawning
    modifies mgr`appSpawnQueue, mgr`answered, mgr.kernel`open, mgr.kernel`excused
    ensures AtRest(mgr) && Snap(mgr) == EndedWithChild(old(Snap(mgr)), i)
  {
    hide AtRest, Added, Without;
    HasChild(mgr, i);
    var pid := mgr.appSpawnQueue[i].pid;
    if pid > 0 {
      Kill(mgr, pid);
    }
    AnswerUnlocking(mgr, i);
  }

  // ------------------------------------------------------------------------- the client goes away

  /** AppSpawningCtxOnClose, for a context the connection belongs to: nobody is left to answer. */
  method AppSpawningCtxOnClose(mgr: AppSpawnMgr, i: nat, hooks: Hooks)
    requires AtRest(mgr) && i < |mgr.appSpawnQueue|
    modifies mgr`appSpawnQueue, mgr`dropped, mgr`leakedTokens, mgr`leakedUids
    modifies mgr.kernel`open, mgr.kernel`excused, mgr.kernel`tokenRefs, mgr.kernel`uidRefs
    ensures AtRest(mgr) && mgr.appSpawnQueue == Without(old(mgr.appSpawnQueue), i)
    ensures mgr.kernel.excused == old(mgr.kernel.excused) + {old(mgr.appSpawnQueue)[i].pid}
    ensures mgr.dropped == old(mgr.dropped) + CtxOwes(old(mgr.appSpawnQueue)[i])
    ensures hooks.SpmWorks() ==> mgr.leakedTokens == old(mgr.leakedTokens) && mgr.leakedUids == old(mgr.leakedUids)
  {
    hide mgr.Valid, AllWaiting, PoolHolds, EmptyHands, Waiting, Named, Without;
    ghost var q := mgr.appSpawnQueue;
    Releasable(mgr, i);
    OthersWait(q, i, mgr.kernel.pipeOf, mgr.kernel.answersOn);
    var pid := mgr.appSpawnQueue[i].pid;
    if pid > 0 {
      mgr.Kill(pid);
    }
    SpawnAbort(mgr, i, hooks);
    mgr.Drop(i);
    ChangedAndGone(q, i, mgr.appSpawnQueue[i]);
    assert mgr.appSpawnQueue == q[i := mgr.appSpawnQueue[i]];
    mgr.DeleteAppSpawningCtx(i);
  }

  /** What the first `n` contexts mean for the close of a connection. */
  ghost predicate ClosedUpTo(s: Snapshot, n: nat, connection: nat, kept: seq<Ctx>, dropped: multiset<nat>,
                             excused: set<int>)
    requires n <= |s.contexts|
  {
    var gone := Kept(s.contexts[..n], Serving(connection));
    && kept == Kept(s.contexts[..n], NotServing(connection))
    && dropped == s.dropped + Sum(gone, CtxOwes) && excused == s.excused + PidsOf(gone)
  }

  lemma ClosedNone(s: Snapshot, connection: nat)
    ensures ClosedUpTo(s, 0, connection, [], s.dropped, s.excused)
  {
  }

  lemma ClosedNext(s: Snapshot, n: nat, connection: nat, kept: seq<Ctx>, dropped: multiset<nat>, excused: set<int>)
    requires n < |s.contexts| && ClosedUpTo(s, n, connection, kept, dropped, excused)
    ensures var c := s.contexts[n];
            if Serves(c, connection)
            then ClosedUpTo(s, n + 1, connection, kept, dropped + CtxOwes(c), excused + {c.pid})
            else ClosedUpTo(s, n + 1, connection, kept + [c], dropped, excused)
  {
    var c, q := s.contexts[n], s.contexts[..n];
    assert s.contexts[..n + 1] == q + [c];
    hide Kept, Sum, CtxOwes, PidsOf;
    KeptAppend(q, c, Serving(connection));
    KeptAppend(q, c, NotServing(connection));
    var gone := Kept(q, Serving(connection));
    SumAppend(gone, c, CtxOwes);
    assert gone + [] == gone && kept + [] == kept;
    OnePidMore(gone, c);
  }

  lemma OnePidMore(q: seq<Ctx>, c: Ctx)
    ensures PidsOf(q + [c]) == PidsOf(q) + {c.pid}
  {
  }

  lemma ClosedAll(s: Snapshot, connection: nat, kept: seq<Ctx>, dropped: multiset<nat>, excused: set<int>)
    requires ClosedUpTo(s, |s.contexts|, connection, kept, dropped, excused)
    ensures s.(contexts := kept, dropped := dropped, excused := excused) == Closed(s, connection)
  {
    assert s.contexts[..|s.contexts|] == s.contexts;
  }

  /** OnClose */
  method OnClose(mgr: AppSpawnMgr, connection: nat, hooks: Hooks)
    requires AtRest(mgr)
    modifies mgr`appSpawnQueue, mgr`dropped, mgr`leakedTokens, mgr`leakedUids
    modifies mgr.kernel`open, mgr.kernel`excused, mgr.kernel`tokenRefs, mgr.kernel`uidRefs
    ensures AtRest(mgr) && Snap(mgr) == Closed(old(Snap(mgr)), connection)
    ensures hooks.SpmWorks() ==> mgr.leakedTokens == old(mgr.leakedTokens) && mgr.leakedUids == old(mgr.leakedUids)
  {
    hide AtRest, ClosedUpTo, Closed, Without, CtxOwes;
    ghost var s, q, n := Snap(mgr), mgr.appSpawnQueue, 0;
    ClosedNone(s, connection);
    var i := 0;
    assert q[..0] == [] && q[0..] == q;
    while i < |mgr.appSpawnQueue|
      invariant i <= |mgr.appSpawnQueue| && n <= |q| && AtRest(mgr) && mgr.appSpawnQueue[i..] == q[n..]
      invariant ClosedUpTo(s, n, connection, mgr.appSpawnQueue[..i], mgr.dropped, mgr.kernel.excused)
      invariant hooks.SpmWorks() ==> mgr.leakedTokens == old(mgr.leakedTokens) && mgr.leakedUids == old(mgr.leakedUids)
      decreases |mgr.appSpawnQueue| - i
    {
      NextLeft(mgr.appSpawnQueue, i, q, n);
      ClosedNext(s, n, connection, mgr.appSpawnQueue[..i], mgr.dropped, mgr.kernel.excused);
      if Serves(mgr.appSpawnQueue[i], connection) {
        AppSpawningCtxOnClose(mgr, i, hooks);
      } else {
        i := i + 1;
      }
      n := n + 1;
    }
    assert mgr.appSpawnQueue[..i] == mgr.appSpawnQueue;
    ClosedAll(s, connection, mgr.appSpawnQueue, mgr.dropped, mgr.kernel.excused);
  }

  lemma NextLeft<T>(now: seq<T>, i: nat, q: seq<T>, n: nat)
    requires i < |now| && n <= |q| && now[i..] == q[n..]
    ensures n < |q| && now[i] == q[n] && now[i + 1..] == q[n + 1..] && now[..i + 1] == now[..i] + [now[i]]
    ensures Without(now, i)[..i] == now[..i] && Without(now, i)[i..] == q[n + 1..]
  {
    assert now[i..][0] == q[n..][0] && now[i..][1..] == q[n..][1..];
  }

  // ------------------------------------------------------------------------- termination status

  /** `OH_ListFind` in the queue of the dead: the index of the record, or the length of the queue. */
  method FindDied(mgr: AppSpawnMgr, pid: int) returns (k: nat)
    ensures k == AppOf(mgr.diedQueue, pid)
  {
    k := 0;
    while k < |mgr.diedQueue| && mgr.diedQueue[k].pid != pid
      invariant k <= |mgr.diedQueue| && forall j :: 0 <= j < k ==> mgr.diedQueue[j].pid != pid
    {
      k := k + 1;
    }
    AppIs(mgr.diedQueue, pid, k);
  }

  /** GetProcessTerminationStatus: of a process that is dead, or else of one that is killed for it.
      `exited` is the status the kernel reports, if the kill works and the process ends in time. */
  method GetProcessTerminationStatus(mgr: AppSpawnMgr, pid: int, killOk: bool, exited: Option<int>, hooks: Hooks)
    returns (status: int)
    requires AtRest(mgr)
    modifies mgr`diedQueue, mgr`diedAppCount, mgr`appQueue, mgr`leakedTokens, mgr`leakedUids, mgr`handPids
    modifies mgr.kernel`excused, mgr.kernel`children, mgr.kernel`tokenRefs, mgr.kernel`uidRefs
    ensures AtRest(mgr) && Snap(mgr) == Asked(old(Snap(mgr)), pid, killOk, exited)
    ensures status == StatusOf(old(Snap(mgr)), pid, killOk, exited)
    ensures hooks.SpmWorks() ==> mgr.leakedTokens == old(mgr.leakedTokens) && mgr.leakedUids == old(mgr.leakedUids)
  {
    hide AtRest, AppOf, Without;
    if pid <= 0 {
      return 0;
    }
    FoundOrNot(mgr.diedQueue, pid);
    var k := FindDied(mgr, pid);
    if k < |mgr.diedQueue| {
      status := TakeDied(mgr, k);
    } else {
      status := KillForStatus(mgr, pid, killOk, exited, hooks);
    }
  }

  /** The part of GetProcessTerminationStatus for a process that is not among the dead. */
  method KillForStatus(mgr: AppSpawnMgr, pid: int, killOk: bool, exited: Option<int>, hooks: Hooks)
    returns (status: int)
    requires AtRest(mgr) && 0 < pid && AppOf(mgr.diedQueue, pid) == |mgr.diedQueue|
    modifies mgr`appQueue, mgr`leakedTokens, mgr`leakedUids, mgr`handPids
    modifies mgr.kernel`excused, mgr.kernel`children, mgr.kernel`tokenRefs, mgr.kernel`uidRefs
    ensures AtRest(mgr) && Snap(mgr) == Asked(old(Snap(mgr)), pid, killOk, exited)
    ensures status == StatusOf(old(Snap(mgr)), pid, killOk, exited)
    ensures hooks.SpmWorks() ==> mgr.leakedTokens == old(mgr.leakedTokens) && mgr.leakedUids == old(mgr.leakedUids)
  {
    hide AtRest, AppOf, Without;
    FoundOrNot(mgr.appQueue, pid);
    var k := mgr.GetSpawnedProcess(pid);
    if k == |mgr.appQueue| {
      return -1;
    }
    status := KillAndRemove(mgr, k, pid, killOk, exited, hooks);
  }

  /** The branch of GetProcessTerminationStatus for a running process. */
  method KillAndRemove(mgr: AppSpawnMgr, k: nat, pid: int, killOk: bool, exited: Option<int>, hooks: Hooks)
    returns (status: int)
    requires AtRest(mgr) && 0 < pid && k < |mgr.appQueue| && mgr.appQueue[k].pid == pid
    modifies mgr`appQueue, mgr`leakedTokens, mgr`leakedUids, mgr`handPids
    modifies mgr.kernel`excused, mgr.kernel`children, mgr.kernel`tokenRefs, mgr.kernel`uidRefs
    ensures AtRest(mgr) && status == if killOk && exited.Some? then exited.value else -1
    ensures mgr.kernel.excused == if killOk then old(mgr.kernel.excused) + {pid} else old(mgr.kernel.excused)
    ensures mgr.kernel.children ==
            if killOk && exited.Some? then old(mgr.kernel.children) - {pid} else old(mgr.kernel.children)
    ensures mgr.appQueue == if killOk && exited.Some? then Without(old(mgr.appQueue), k) else old(mgr.appQueue)
    ensures hooks.SpmWorks() ==> mgr.leakedTokens == old(mgr.leakedTokens) && mgr.leakedUids == old(mgr.leakedUids)
  {
    hide AtRest, Without;
    status := KillAndWaitStatus(mgr, pid, killOk, exited);
    if killOk && exited.Some? {
      RemoveKilled(mgr, k, status, hooks);
    }
  }

  /** The record of a dead process goes when it is asked for. */
  method TakeDied(mgr: AppSpawnMgr, k: nat) returns (status: int)
    requires AtRest(mgr) && k < |mgr.diedQueue|
    modifies mgr`diedQueue, mgr`diedAppCount
    ensures AtRest(mgr) && status == old(mgr.diedQueue)[k].exitStatus && mgr.diedQueue == Without(old(mgr.diedQueue), k)
  {
    hide mgr.Valid, AllWaiting, Pooled;
    status := mgr.diedQueue[k].exitStatus;
    mgr.TakeDied(k);
  }

  /** KillAndWaitStatus: a child that does not end in time is killed once more. */
  method KillAndWaitStatus(mgr: AppSpawnMgr, pid: int, killOk: bool, exited: Option<int>) returns (status: int)
    requires AtRest(mgr) && 0 < pid
    modifies mgr.kernel`excused, mgr.kernel`children
    ensures AtRest(mgr) && status == if killOk && exited.Some? then exited.value else -1
    ensures mgr.kernel.excused == if killOk then old(mgr.kernel.excused) + {pid} else old(mgr.kernel.excused)
    ensures mgr.kernel.children ==
            if killOk && exited.Some? then old(mgr.kernel.children) - {pid} else old(mgr.kernel.children)
  {
    hide mgr.Valid, AllWaiting, Pooled;
    if !killOk {
      return -1;
    }
    mgr.Kill(pid);
    if exited.None? {
      mgr.Kill(pid);
      return -1;
    }
    mgr.Reap(pid);
    status := exited.value;
  }

  /** The record of a process that was killed on request goes without a trace. */
  method RemoveKilled(mgr: AppSpawnMgr, k: nat, status: int, hooks: Hooks)
    requires AtRest(mgr) && k < |mgr.appQueue| && mgr.appQueue[k].pid in mgr.kernel.excused
    modifies mgr`appQueue, mgr`leakedTokens, mgr`leakedUids, mgr`handPids, mgr.kernel`tokenRefs, mgr.kernel`uidRefs
    ensures AtRest(mgr) && mgr.appQueue == Without(old(mgr.appQueue), k)
    ensures hooks.SpmWorks() ==> mgr.leakedTokens == old(mgr.leakedTokens) && mgr.leakedUids == old(mgr.leakedUids)
  {
    hide mgr.Valid, Without, Plus, Minus, AllWaiting, Pooled;
    ghost var apps := mgr.appQueue;
    var pid := mgr.appQueue[k].pid;
    PlusMinus(mgr.handPids, true, pid);
    PlusMinus(mgr.leakedTokens, true, mgr.appQueue[k].token);
    PlusMinus(mgr.leakedUids, true, mgr.appQueue[k].uid);
    mgr.SetExitStatus(k, status);
    mgr.OnAppExitUpdateRefCount(k, hooks.Token(pid), hooks.Uid(pid));
    ChangedAndGone(apps, k, mgr.appQueue[k]);
    assert mgr.appQueue == apps[k := mgr.appQueue[k]];
    mgr.RemoveApp(k);
    mgr.ForgetHand(pid);
  }
}
