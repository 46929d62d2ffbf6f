/**
  The requests the spawner serves, and its run over any sequence of events: appspawn_service.c.
  Handlers are atomic, signals arrive through the same loop as everything else. `Step` says of an
  event what it does to the spawner's records; every handler is proved to do that and no more.
*/
module SpawnService {
  import opened AppMgr
  import opened Books
  import opened Bytes
  import opened ChildEvents
  import opened Kernel
  import opened Prefork
  import opened Routing
  import opened Snapshots
  import opened Tally
  import opened Unlock
  import opened Wrappers

  // ------------------------------------------------------------------------- spawn requests

  /** What happens in the course of one spawn request. `rebuilt` is the body of the message that SPM data
      make of it, if they do. */
  datatype RequestOutcome =
    RequestOutcome(checkOk: bool, incToken: Increment, incUid: Increment, rebuilt: Option<Bytes>, decodeOk: bool,
                   preForkOk: bool, spawn: SpawnOutcome, watchOk: bool, hooks: Hooks)

  /** Whether SPM is asked at all, and whether it takes both counts. */
  predicate Counts(m: Message) {
    m.token.Some? && m.uid.Some?
  }

  predicate BothRaised(m: Message, o: RequestOutcome) {
    Counts(m) && o.incToken.Raised? && o.incUid.Raised?
  }

  /** The message that is served: rebuilt only when both counts were taken. */
  function Served(m: Message, o: RequestOutcome): Message {
    if BothRaised(m, o) && o.rebuilt.Some? then m.(body := o.rebuilt.value) else m
  }

  /** The context of a spawn request before the fork: its message and the counts taken for it. */
  function Prepared(id: nat, m: Message, o: RequestOutcome): Ctx {
    EMPTY.(id := id, spawning := true, message := Some(Served(m, o)),
           tokenRef := Counts(m) && o.incToken.Raised? && !o.incUid.Unsupported?, uidRef := BothRaised(m, o))
  }

  /** The one case in which IncreaseRefCounts loses a count. */
  predicate Leaks(m: Message, o: RequestOutcome) {
    Counts(m) && o.incToken.Raised? && o.incUid.Unsupported?
  }

  /** When a request costs a token count for good, and when a uid count: also when a later decode hook
      fails, because the context goes without the SPAWN_ABORT hook. */
  predicate TokenLost(m: Message, o: RequestOutcome) {
    o.checkOk && Counts(m) && o.incToken.Raised? && (o.incUid.Unsupported? || !o.decodeOk)
  }

  predicate UidLost(m: Message, o: RequestOutcome) {
    o.checkOk && BothRaised(m, o) && !o.decodeOk
  }

  /** OnMessageRebuildFromSPM: counts first, then the message. */
  method RebuildMessage(mgr: AppSpawnMgr, i: nat, message: Message, o: RequestOutcome)
    requires mgr.Valid() && i < |mgr.appSpawnQueue| && mgr.appSpawnQueue[i].message == Some(message)
    requires !mgr.appSpawnQueue[i].promoted && !mgr.appSpawnQueue[i].tokenRef && !mgr.appSpawnQueue[i].uidRef
    modifies mgr`appSpawnQueue, mgr`leakedTokens, mgr`leakedUids, mgr.kernel`tokenRefs, mgr.kernel`uidRefs
    ensures mgr.Valid() && mgr.leakedUids == old(mgr.leakedUids)
    ensures var counts := message.token.Some? && message.uid.Some?;
            && mgr.leakedTokens == (if counts && o.incToken.Raised? && o.incUid.Unsupported?
                                    then old(mgr.leakedTokens) + multiset{message.token.value} else old(mgr.leakedTokens))
            && mgr.appSpawnQueue == old(mgr.appSpawnQueue)[i := old(mgr.appSpawnQueue)[i].(
                 message := Some(if counts && o.incToken.Raised? && o.incUid.Raised? && o.rebuilt.Some?
                                 then message.(body := o.rebuilt.value) else message),
                 tokenRef := counts && o.incToken.Raised? && !o.incUid.Unsupported?,
                 uidRef := counts && o.incToken.Raised? && o.incUid.Raised?)]
  {
    hide mgr.Valid, Plus;
    PlusMinus(mgr.leakedTokens, true, TokenOf(message));
    if message.token.None? || message.uid.None? {
      return;
    }
    mgr.IncreaseRefCounts(i, o.incToken, o.incUid);
    if o.incToken.Raised? && o.incUid.Raised? && o.rebuilt.Some? {
      mgr.ReplaceMessage(i, message.(body := o.rebuilt.value));
    }
  }

  /** The steps of ProcessSpawnReqMsg up to the PARENT_MSG_DECODE hook. */
  method PrepareSpawn(mgr: AppSpawnMgr, message: Message, o: RequestOutcome) returns (ghost c: Ctx)
    requires mgr.Valid() && mgr.handRequests == Added(multiset{}, message.request)
    modifies mgr`appSpawnQueue, mgr`requestId, mgr`handRequests, mgr`leakedTokens, mgr`leakedUids
    modifies mgr.kernel`tokenRefs, mgr.kernel`uidRefs
    ensures mgr.Valid() && mgr.handRequests == multiset{} && mgr.requestId == old(mgr.requestId) + 1
    ensures c == Prepared(mgr.requestId, message, o) && mgr.appSpawnQueue == old(mgr.appSpawnQueue) + [c] && Childless(c)
    ensures NoMailFor(c.id, mgr.kernel.readsFrom, mgr.kernel.inbox)
    ensures mgr.leakedTokens == Plus(old(mgr.leakedTokens), Leaks(message, o), TokenOf(message))
    ensures mgr.leakedUids == old(mgr.leakedUids)
  {
    hide mgr.Valid, Added, Removed, NoMailFor;
    AddedRemoved(multiset{}, message.request);
    var i := mgr.CreateAppSpawningCtx();
    mgr.SetSpawning(i);
    mgr.TakeMessage(i, message);
    RebuildMessage(mgr, i, message, o);
    c := mgr.appSpawnQueue[i];
    assert mgr.appSpawnQueue[..i] == old(mgr.appSpawnQueue);
  }

  /** The failure branch of the decode hook: the context is answered and freed without SPAWN_ABORT hook. */
  method FreeUndecoded(mgr: AppSpawnMgr, ghost others: seq<Ctx>, ghost c: Ctx)
    requires mgr.Valid() && EmptyHands(mgr) && PoolHolds(mgr) && Wait(others, mgr)
    requires mgr.appSpawnQueue == others + [c] && Childless(c)
    modifies mgr`appSpawnQueue, mgr`answered, mgr`leakedTokens, mgr`leakedUids, mgr.kernel`open
    ensures AtRest(mgr)
    ensures Snap(mgr) == old(Snap(mgr)).(contexts := others, answered := Added(old(Snap(mgr)).answered, RequestOf(c)))
    ensures mgr.leakedTokens == Plus(old(mgr.leakedTokens), c.tokenRef, TokenRef(c))
    ensures mgr.leakedUids == Plus(old(mgr.leakedUids), c.uidRef, UidRef(c))
  {
    hide mgr.Valid, Added, Plus, Without, EmptyHands, PoolHolds, Wait;
    var i := |mgr.appSpawnQueue| - 1;
    mgr.ForgetRefs(i);
    LastChanged(others, c, mgr.appSpawnQueue[i]);
    LastGone(others, mgr.appSpawnQueue[i]);
    AnswerAndDelete(mgr, i);
  }

  /** The steps of ProcessSpawnReqMsg from the PRE_FORK hook on: either the context waits for its
      child in the end, or it has been answered and is gone. */
  method ForkAndWatch(mgr: AppSpawnMgr, o: RequestOutcome, ghost others: seq<Ctx>, ghost c: Ctx)
    requires mgr.Valid() && EmptyHands(mgr) && PoolHolds(mgr) && Wait(others, mgr)
    requires mgr.appSpawnQueue == others + [c] && Childless(c) && NoMailFor(c.id, mgr.kernel.readsFrom, mgr.kernel.inbox)
    modifies mgr`appSpawnQueue, mgr`handPipes, mgr`handPids, mgr`reservedPid, mgr`given
    modifies mgr`answered, mgr`leakedTokens, mgr`leakedUids, mgr.fds, mgr.kernel
    ensures AtRest(mgr) && Others(mgr) == old(Others(mgr))
    ensures ForkStep(old(Snap(mgr)).(contexts := others), c, o, Snap(mgr))
    ensures o.hooks.SpmWorks() ==>
              mgr.leakedTokens == old(mgr.leakedTokens) && mgr.leakedUids == old(mgr.leakedUids)
  {
    hide mgr.Valid, Wait, PoolHolds, NoMailFor, Childless, Others, ForkStep, EmptyHands;
    ghost var s := Snap(mgr).(contexts := others);
    if !o.preForkOk {
      NotForked(s, c, o);
      AbortUnforked(mgr, o, others, c);
    } else {
      RunAndWatch(mgr, o, others, c);
    }
  }

  /** AbortSpawnAndCleanup when the PRE_FORK hook fails. */
  method AbortUnforked(mgr: AppSpawnMgr, o: RequestOutcome, ghost others: seq<Ctx>, ghost c: Ctx)
    requires mgr.Valid() && EmptyHands(mgr) && PoolHolds(mgr) && Wait(others, mgr)
    requires mgr.appSpawnQueue == others + [c] && Childless(c)
    modifies mgr`appSpawnQueue, mgr`answered, mgr`leakedTokens, mgr`leakedUids
    modifies mgr.kernel`open, mgr.kernel`tokenRefs, mgr.kernel`uidRefs
    ensures AtRest(mgr) && mgr.appSpawnQueue == others && mgr.answered == Added(old(mgr.answered), RequestOf(c))
    ensures o.hooks.SpmWorks() ==>
              mgr.leakedTokens == old(mgr.leakedTokens) && mgr.leakedUids == old(mgr.leakedUids)
  {
    hide mgr.Valid, Added, PoolHolds, Wait, EmptyHands, Without;
    LastGone(others, c);
    AbortSpawnAndCleanup(mgr, |mgr.appSpawnQueue| - 1, o.hooks);
  }

  /** RunAppSpawnProcessMsg and what comes after it. */
  method RunAndWatch(mgr: AppSpawnMgr, o: RequestOutcome, ghost others: seq<Ctx>, ghost c: Ctx)
    requires mgr.Valid() && EmptyHands(mgr) && PoolHolds(mgr) && Wait(others, mgr) && o.preForkOk
    requires mgr.appSpawnQueue == others + [c] && Childless(c) && NoMailFor(c.id, mgr.kernel.readsFrom, mgr.kernel.inbox)
    modifies mgr`appSpawnQueue, mgr`handPipes, mgr`handPids, mgr`reservedPid, mgr`given
    modifies mgr`answered, mgr`leakedTokens, mgr`leakedUids, mgr.fds, mgr.kernel
    ensures AtRest(mgr) && Others(mgr) == old(Others(mgr))
    ensures ForkStep(old(Snap(mgr)).(contexts := others), c, o, Snap(mgr))
    ensures o.hooks.SpmWorks() ==>
              mgr.leakedTokens == old(mgr.leakedTokens) && mgr.leakedUids == old(mgr.leakedUids)
  {
    hide mgr.Valid, Added, Wait, PoolHolds, NoMailFor, Wards, Started, Grown, NewPids, Others, ForkStep, Refilled,
      Reserve, Childless, SameButOwn, AtRest, HandsOn;
    ghost var s := Snap(mgr).(contexts := others);
    ReserveIsUsed(mgr);
    var ret := RunAppSpawnProcessMsg(mgr, o.spawn, others, c);
    ghost var t := Snap(mgr);
    WatchOrAbort(mgr, o, ret, others, c);
    ForkSteps(s, c, o, ret, t, Snap(mgr));
  }

  lemma ReserveIsUsed(mgr: AppSpawnMgr)
    requires mgr.Valid() && PoolHolds(mgr)
    ensures 0 < mgr.reservedPid ==> mgr.reservedPid in mgr.kernel.used
  {
    mgr.PidsAreUsed();
    hide mgr.Valid, Awaits, IsPipeNode;
  }

  lemma NotForked(s: Snapshot, c: Ctx, o: RequestOutcome)
    requires !o.preForkOk
    ensures ForkStep(s, c, o, s.(answered := Added(s.answered, RequestOf(c))))
  {
  }

  /** The fork and what comes after it, together. */
  lemma ForkSteps(s: Snapshot, c: Ctx, o: RequestOutcome, ret: int, t: Snapshot, u: Snapshot)
    requires o.preForkOk && (0 < s.reservedPid ==> s.reservedPid in s.used)
    requires t == s.(contexts := t.contexts, reservedPid := t.reservedPid, used := t.used, children := t.children,
                     excused := t.excused)
    requires ret == 0 <==> if HandsOn(o.spawn, s.reservedPid) then o.spawn.sent.Whole?
                           else o.spawn.fork.pipeOk && o.spawn.fork.forkOk
    requires SameButOwn(t.contexts, s.contexts, c)
    requires Wards(o.spawn, s.reservedPid, Reserve(o.spawn, s.reservedPid, t.reservedPid), ret, t.contexts, s.contexts,
                   s.used, t.used, s.excused, t.excused)
    requires Refilled(o.spawn, s.reservedPid, t.reservedPid)
    requires Grown(s.used, s.children, t.used, t.children)
    requires u == if ret == 0 && o.watchOk then t
                  else t.(contexts := s.contexts, answered := Added(s.answered, RequestOf(c)), excused := u.excused)
    requires u.excused == t.excused + if ret == 0 && !o.watchOk then {t.contexts[|s.contexts|].pid} else {}
    ensures ForkStep(s, c, o, u)
  {
    hide Grown, NewPids, Added, Reserve, Refilled;
  }

  /** The end of ProcessSpawnReqMsg. */
  method WatchOrAbort(mgr: AppSpawnMgr, o: RequestOutcome, ret: int, ghost others: seq<Ctx>, ghost c: Ctx)
    requires mgr.Valid() && EmptyHands(mgr) && PoolHolds(mgr) && Wait(others, mgr) && Childless(c)
    requires Started(mgr.appSpawnQueue, others, c, ret, mgr.kernel.pipeOf, mgr.kernel.answersOn)
    modifies mgr`appSpawnQueue, mgr`answered, mgr`leakedTokens, mgr`leakedUids
    modifies mgr.kernel`open, mgr.kernel`excused, mgr.kernel`tokenRefs, mgr.kernel`uidRefs
    ensures AtRest(mgr) && SameButOwn(old(mgr.appSpawnQueue), others, c)
    ensures if ret == 0 && o.watchOk
            then mgr.answered == old(mgr.answered) && mgr.appSpawnQueue == old(mgr.appSpawnQueue)
            else mgr.answered == Added(old(mgr.answered), RequestOf(c)) && mgr.appSpawnQueue == others
    ensures mgr.kernel.excused ==
            old(mgr.kernel.excused) + if ret == 0 && !o.watchOk then {old(mgr.appSpawnQueue)[|others|].pid} else {}
    ensures o.hooks.SpmWorks() ==>
              mgr.leakedTokens == old(mgr.leakedTokens) && mgr.leakedUids == old(mgr.leakedUids)
  {
    hide mgr.Valid, Added, Removed, AllWaiting, PoolHolds, Waiting;
    var i := |mgr.appSpawnQueue| - 1;
    ghost var d := mgr.appSpawnQueue[i];
    assert mgr.appSpawnQueue == others + [d];
    LastGone(others, d);
    if ret != 0 {
      AbortSpawnAndCleanup(mgr, i, o.hooks);
      return;
    }
    if !o.watchOk {
      mgr.Kill(mgr.appSpawnQueue[i].pid);
      AbortSpawnAndCleanup(mgr, i, o.hooks);
      return;
    }
    OneMoreWaits(others, d, mgr.kernel.pipeOf, mgr.kernel.answersOn);
  }

  /** The queue ends with context `c`, which may have got a child and a pipe. */
  predicate SameButOwn(q: seq<Ctx>, others: seq<Ctx>, c: Ctx) {
    && |q| == |others| + 1 && q[..|others|] == others
    && q[|others|] == c.(pid := q[|others|].pid, fd0 := q[|others|].fd0, fd1 := q[|others|].fd1)
  }

  /** Whether the client gets its answer from the child, or at once. */
  predicate Accepted(o: RequestOutcome, reservedPid: int) {
    && o.preForkOk && o.watchOk
    && if HandsOn(o.spawn, reservedPid) then o.spawn.sent.Whole? else o.spawn.fork.pipeOk && o.spawn.fork.forkOk
  }

  /** What the steps from the PRE_FORK hook on do, for context `c` at the end of the queue: it has joined the
      contexts, with a child of its own; or it was answered. */
  ghost predicate ForkStep(s: Snapshot, c: Ctx, o: RequestOutcome, t: Snapshot) {
    && t == s.(contexts := t.contexts, answered := t.answered, reservedPid := t.reservedPid, used := t.used,
               children := t.children, excused := t.excused)
    && (if Accepted(o, s.reservedPid)
        then t.answered == s.answered && SameButOwn(t.contexts, s.contexts, c)
        else t.answered == Added(s.answered, RequestOf(c)) && t.contexts == s.contexts)
    && Grown(s.used, s.children, t.used, t.children)
    && (if !o.preForkOk then t.reservedPid == s.reservedPid && t.used == s.used && t.excused == s.excused
        else
          && Refilled(o.spawn, s.reservedPid, t.reservedPid)
          && Sacrificed(o, s.reservedPid, Reserve(o.spawn, s.reservedPid, t.reservedPid), t.contexts, |s.contexts|, s.used,
                        t.used, s.excused, t.excused))
  }

  /** Which child serves the request in context `n`, which children are new, and which had to go because the
      spawn failed after it was chosen: the reserved one, or a new one that could not be watched; never the
      new reserved child. */
  ghost predicate Sacrificed(o: RequestOutcome, reservedPid: int, reserve: set<int>, q: seq<Ctx>, n: nat, used: set<int>,
                             usedNow: set<int>, excused: set<int>, excusedNow: set<int>) {
    if HandsOn(o.spawn, reservedPid) then
      && reservedPid in used && NewPids({}, reserve, used, usedNow)
      && if Accepted(o, reservedPid) then n < |q| && q[n].pid == reservedPid && excusedNow == excused
         else excusedNow == excused + {reservedPid}
    else if !o.spawn.fork.pipeOk || !o.spawn.fork.forkOk then NewPids({}, reserve, used, usedNow) && excusedNow == excused
    else if o.watchOk then n < |q| && NewPids({q[n].pid}, reserve, used, usedNow) && excusedNow == excused
    else exists pid :: NewPids({pid}, reserve, used, usedNow) && excusedNow == excused + {pid}
  }

  /** A request that is answered at once. */
  method AnswerAtOnce(mgr: AppSpawnMgr, message: Message)
    requires AtRest(mgr)
    modifies mgr`requests, mgr`answered, mgr`handRequests
    ensures AtRest(mgr) && Snap(mgr) == AtOnce(old(Snap(mgr)), message.request)
  {
    hide mgr.Valid, Added, Removed, AllWaiting, PoolHolds;
    AddedRemoved(multiset{}, message.request);
    mgr.Receive(message.request);
    mgr.Respond(message);
  }

  /** ProcessSpawnReqMsg, for a message that passes CheckAppSpawnMsg. */
  method ServeSpawnRequest(mgr: AppSpawnMgr, message: Message, o: RequestOutcome)
    requires AtRest(mgr) && o.checkOk
    modifies mgr`appSpawnQueue, mgr`requestId, mgr`requests, mgr`answered, mgr`handRequests, mgr`leakedTokens
    modifies mgr`leakedUids, mgr`handPipes, mgr`handPids, mgr`reservedPid, mgr`given, mgr.kernel, mgr.fds
    ensures AtRest(mgr) && Others(mgr) == old(Others(mgr)) && SpawnStep(old(Snap(mgr)), message, o, Snap(mgr))
    ensures o.hooks.SpmWorks() ==> CountsLost(message, o, old(mgr.leakedTokens), old(mgr.leakedUids), mgr.leakedTokens, mgr.leakedUids)
  {
    hide mgr.Valid, EmptyHands, Added, Wait, PoolHolds, NoMailFor, Childless, ForkStep, Prepared, Plus, Others, CountsLost,
      Leaks, SpawnStep, AtRest, TokenOf, UidOf, TokenRef, UidRef, RequestOf, Arrived, Snap;
    ghost var s, tokens, uids := Snap(mgr), mgr.leakedTokens, mgr.leakedUids;
    SnapHas(mgr);
    LostCounts(mgr.requestId + 1, message, o, tokens, uids);
    var c := ReceiveAndPrepare(mgr, message, o);
    ghost var t := Snap(mgr);
    if o.decodeOk {
      ForkAndWatch(mgr, o, s.contexts, c);
    } else {
      FreeUndecoded(mgr, s.contexts, c);
    }
    ServedStep(s, message, o, c, t, Snap(mgr));
  }

  lemma SnapHas(mgr: AppSpawnMgr)
    ensures Snap(mgr).contexts == mgr.appSpawnQueue && Snap(mgr).requestId == mgr.requestId
  {
  }

  /** The request is in, and a context was made for it. */
  function Arrived(s: Snapshot, m: Message, c: Ctx): Snapshot {
    s.(requests := Added(s.requests, m.request), requestId := s.requestId + 1, contexts := s.contexts + [c])
  }

  /** The steps of ProcessSpawnReqMsg up to the PARENT_MSG_DECODE hook, from rest. */
  method ReceiveAndPrepare(mgr: AppSpawnMgr, message: Message, o: RequestOutcome) returns (ghost c: Ctx)
    requires AtRest(mgr)
    modifies mgr`appSpawnQueue, mgr`requestId, mgr`requests, mgr`handRequests, mgr`leakedTokens, mgr`leakedUids
    modifies mgr.kernel`tokenRefs, mgr.kernel`uidRefs
    ensures mgr.Valid() && EmptyHands(mgr) && PoolHolds(mgr) && Wait(old(mgr.appSpawnQueue), mgr)
    ensures c == Prepared(old(mgr.requestId) + 1, message, o) && Childless(c)
    ensures mgr.appSpawnQueue == old(mgr.appSpawnQueue) + [c]
    ensures Snap(mgr) == Arrived(old(Snap(mgr)), message, c)
    ensures NoMailFor(c.id, mgr.kernel.readsFrom, mgr.kernel.inbox)
    ensures mgr.leakedTokens == Plus(old(mgr.leakedTokens), Leaks(message, o), TokenOf(message))
    ensures mgr.leakedUids == old(mgr.leakedUids)
  {
    hide mgr.Valid, Added, Wait, PoolHolds, NoMailFor, Childless, Prepared, Plus, Leaks;
    mgr.Receive(message.request);
    c := PrepareSpawn(mgr, message, o);
  }

  lemma ServedStep(s: Snapshot, m: Message, o: RequestOutcome, c: Ctx, t: Snapshot, u: Snapshot)
    requires o.checkOk && c == Prepared(s.requestId + 1, m, o) && t == Arrived(s, m, c)
    requires if o.decodeOk then ForkStep(t.(contexts := s.contexts), c, o, u)
             else u == t.(contexts := s.contexts, answered := Added(t.answered, RequestOf(c)))
    ensures SpawnStep(s, m, o, u)
  {
  }

  lemma LostCounts(id: nat, m: Message, o: RequestOutcome, tokens: multiset<int>, uids: multiset<int>)
    requires o.checkOk
    ensures var c, raised := Prepared(id, m, o), Plus(tokens, Leaks(m, o), TokenOf(m));
            if o.decodeOk then CountsLost(m, o, tokens, uids, raised, uids)
            else CountsLost(m, o, tokens, uids, Plus(raised, c.tokenRef, TokenRef(c)), Plus(uids, c.uidRef, UidRef(c)))
  {
  }

  /** How many counts are lost for good: exactly those. */
  ghost predicate CountsLost(m: Message, o: RequestOutcome, tokens: multiset<int>, uids: multiset<int>,
                             tokensNow: multiset<int>, uidsNow: multiset<int>) {
    tokensNow == Plus(tokens, TokenLost(m, o), TokenOf(m)) && uidsNow == Plus(uids, UidLost(m, o), UidOf(m))
  }

  /** ProcessSpawnReqMsg */
  method ProcessSpawnReqMsg(mgr: AppSpawnMgr, message: Message, o: RequestOutcome)
    requires AtRest(mgr)
    modifies mgr`appSpawnQueue, mgr`requestId, mgr`requests, mgr`answered, mgr`handRequests, mgr`leakedTokens
    modifies mgr`leakedUids, mgr`handPipes, mgr`handPids, mgr`reservedPid, mgr`given, mgr.kernel, mgr.fds
    ensures AtRest(mgr) && Others(mgr) == old(Others(mgr)) && SpawnStep(old(Snap(mgr)), message, o, Snap(mgr))
    // the counts that are lost for good
    ensures var counts := o.checkOk && message.token.Some? && message.uid.Some? && o.incToken.Raised?;
            o.hooks.SpmWorks() ==>
              && mgr.leakedTokens == (if counts && (o.incUid.Unsupported? || !o.decodeOk)
                                      then old(mgr.leakedTokens) + multiset{message.token.value} else old(mgr.leakedTokens))
              && mgr.leakedUids == (if counts && o.incUid.Raised? && !o.decodeOk
                                    then old(mgr.leakedUids) + multiset{message.uid.value} else old(mgr.leakedUids))
    // a context that has joined the queue holds the rebuilt message if there is one, and the counts that were taken
    ensures forall c :: c in mgr.appSpawnQueue && c !in old(mgr.appSpawnQueue) ==>
              var counts := message.token.Some? && message.uid.Some? && o.incToken.Raised?;
              && c.spawning && c.id == old(mgr.requestId) + 1
              && c.message == Some(if counts && o.incUid.Raised? && o.rebuilt.Some?
                                   then message.(body := o.rebuilt.value) else message)
              && (c.tokenRef <==> counts && !o.incUid.Unsupported?) && (c.uidRef <==> counts && o.incUid.Raised?)
  {
    hide AtRest, ForkStep, Others;
    ghost var s := Snap(mgr);
    if o.checkOk {
      hide SpawnStep;
      ServeSpawnRequest(mgr, message, o);
    } else {
      AnswerAtOnce(mgr, message);
    }
    WhoJoins(s, message, o, Snap(mgr));
  }

  /** What the context of a spawn request holds when it has joined the queue. */
  lemma WhoJoins(s: Snapshot, m: Message, o: RequestOutcome, t: Snapshot)
    requires SpawnStep(s, m, o, t)
    ensures forall c :: c in t.contexts && c !in s.contexts ==>
              var counts := m.token.Some? && m.uid.Some? && o.incToken.Raised?;
              && c.spawning && c.id == s.requestId + 1
              && c.message == Some(if counts && o.incUid.Raised? && o.rebuilt.Some? then m.(body := o.rebuilt.value) else m)
              && (c.tokenRef <==> counts && !o.incUid.Unsupported?) && (c.uidRef <==> counts && o.incUid.Raised?)
  {
    hide Grown, Sacrificed, Refilled, Reserve, Added;
  }

  /** A spawn request: refused at once; or given up after its context was made; or forked for. */
  ghost predicate SpawnStep(s: Snapshot, m: Message, o: RequestOutcome, t: Snapshot) {
    if !o.checkOk then t == AtOnce(s, m.request)
    else
      var r := s.(requests := Added(s.requests, m.request), requestId := s.requestId + 1);
      if o.decodeOk then ForkStep(r, Prepared(r.requestId, m, o), o, t)
      else t == r.(answered := Added(s.answered, m.request))
  }

  // ------------------------------------------------------------------------- the event loop

  /** What the loop delivers. `client` is the id of the context whose watcher or timer fires. */
  datatype Event =
    | SpawnRequest(message: Message, outcome: RequestOutcome)
    | LockStatusRequest(message: Message, unlocks: Option<int>, unlock: UnlockOutcome)
    | StatusRequest(message: Message, asked: Option<int>, killOk: bool, exited: Option<int>, hooks: Hooks)
    | DebugRequest(message: Message, target: Option<int>, debuggable: bool, signal: int, killOk: bool)
    | OtherRequest(message: Message)
    | ChildResponse(client: nat, result: int, usable: bool, hooks: Hooks)
    | ChildTimeout(client: nat, hooks: Hooks)
    | ChildDied(pid: int, status: int, bySignal: bool, hooks: Hooks)
    | PidFdReadable(pid: int, hooks: Hooks)
    | ResponseSent(pid: int, failed: bool)
    | ConnectionClosed(connection: nat, hooks: Hooks)
    | Terminate(hooks: Hooks)
  {
    predicate IsRequest() {
      SpawnRequest? || LockStatusRequest? || StatusRequest? || DebugRequest? || OtherRequest?
    }

    /** The SPM module supports both counts or neither, and lowers what it is asked to lower; no decode
        hook fails after the counts were taken. */
    predicate SpmWorks() {
      match this
      case SpawnRequest(m, o) => o.hooks.SpmWorks() && !TokenLost(m, o) && !UidLost(m, o)
      case LockStatusRequest(_, _, _) => true
      case DebugRequest(_, _, _, _, _) => true
      case OtherRequest(_) => true
      case ResponseSent(_, _) => true
      case _ => hooks.SpmWorks()
    }
  }

  /** What event `n` does to the spawner's records. */
  ghost predicate Step(s: Snapshot, e: Event, n: nat, isNWebSpawn: bool, t: Snapshot) {
    match e
    case SpawnRequest(m, o) => SpawnStep(s, m.(request := n), o, t)
    case LockStatusRequest(m, unlocks, o) => UnlockStep(s, m.(request := n), unlocks, o, t)
    case StatusRequest(_, asked, killOk, exited, _) =>
      t == AtOnce(if isNWebSpawn && asked.Some? then Asked(s, asked.value, killOk, exited) else s, n)
    case DebugRequest(_, target, debuggable, signal, killOk) =>
      t == AtOnce(if target.Some? then Debugged(s, target.value, debuggable, signal, killOk) else s, n)
    case OtherRequest(_) => t == AtOnce(s, n)
    case ChildResponse(client, result, usable, _) => t == Answers(s, client, result, usable)
    case ChildTimeout(client, _) => t == TimedOut(s, client)
    case ChildDied(pid, status, bySignal, hooks) => t == Died(s, pid, status, bySignal, hooks, isNWebSpawn)
    case PidFdReadable(pid, hooks) => t == PidFdFired(s, pid, hooks, isNWebSpawn)
    case ResponseSent(pid, failed) => t == ResponseGone(s, pid, failed)
    case ConnectionClosed(connection, _) => t == Closed(s, connection)
    case Terminate(hooks) => t == Stopped(s, hooks, isNWebSpawn)
  }

  /** The index of the context of a client, or the length of the queue. */
  method FindClient(mgr: AppSpawnMgr, client: nat) returns (i: nat)
    ensures i == ClientOf(mgr.appSpawnQueue, client)
  {
    i := 0;
    while i < |mgr.appSpawnQueue| && mgr.appSpawnQueue[i].id != client
      invariant i <= |mgr.appSpawnQueue| && forall j :: 0 <= j < i ==> mgr.appSpawnQueue[j].id != client
    {
      i := i + 1;
    }
    ClientIs(mgr.appSpawnQueue, client, i);
  }

  /** A watcher fires for a context that is still there; one whose context is gone was removed. */
  method WatcherFires(mgr: AppSpawnMgr, client: nat, result: int, usable: bool, hooks: Hooks)
    requires AtRest(mgr)
    modifies mgr`appSpawnQueue, mgr`appQueue, mgr`answered, mgr`leakedTokens, mgr`leakedUids
    modifies mgr.kernel`open, mgr.kernel`excused, mgr.kernel`tokenRefs, mgr.kernel`uidRefs
    ensures AtRest(mgr) && Snap(mgr) == Answers(old(Snap(mgr)), client, result, usable)
    ensures hooks.SpmWorks() ==> mgr.leakedTokens == old(mgr.leakedTokens) && mgr.leakedUids == old(mgr.leakedUids)
  {
    hide AtRest, Responded, EndedWithChild, ClientOf, Answers;
    var i := FindClient(mgr, client);
    AnswersIs(Snap(mgr), client, result, usable);
    if i == |mgr.appSpawnQueue| {
      return;
    }
    if mgr.appSpawnQueue[i].spawning {
      ProcessChildResponse(mgr, i, result, usable, hooks);
    } else {
      ProcessUnlockChildResponse(mgr, i);
    }
  }

  lemma AnswersIs(s: Snapshot, client: nat, result: int, usable: bool)
    ensures var i := ClientOf(s.contexts, client);
            && i <= |s.contexts|
            && Answers(s, client, result, usable) ==
               (if i == |s.contexts| then s else if s.contexts[i].spawning then Responded(s, i, result, usable)
                else EndedWithChild(s, i))
            && TimedOut(s, client) == if i == |s.contexts| then s else EndedWithChild(s, i)
  {
  }

  /** A timer fires. */
  method TimerFires(mgr: AppSpawnMgr, client: nat, hooks: Hooks)
    requires AtRest(mgr)
    modifies mgr`appSpawnQueue, mgr`answered, mgr`leakedTokens, mgr`leakedUids
    modifies mgr.kernel`open, mgr.kernel`excused, mgr.kernel`tokenRefs, mgr.kernel`uidRefs
    ensures AtRest(mgr) && Snap(mgr) == TimedOut(old(Snap(mgr)), client)
    ensures hooks.SpmWorks() ==> mgr.leakedTokens == old(mgr.leakedTokens) && mgr.leakedUids == old(mgr.leakedUids)
  {
    hide AtRest, EndedWithChild, ClientOf, TimedOut;
    var i := FindClient(mgr, client);
    AnswersIs(Snap(mgr), client, 0, false);
    if i == |mgr.appSpawnQueue| {
      return;
    }
    if mgr.appSpawnQueue[i].spawning {
      WaitChildTimeout(mgr, i, hooks);
    } else {
      UnlockChildTimeout(mgr, i);
    }
  }

  /** ProcessRecvMsg */
  method ProcessRecvMsg(mgr: AppSpawnMgr, e: Event, n: nat)
    requires AtRest(mgr) && e.IsRequest()
    modifies mgr, mgr.kernel, mgr.fds
    ensures AtRest(mgr) && Others(mgr) == old(Others(mgr)) && Step(old(Snap(mgr)), e, n, mgr.isNWebSpawn, Snap(mgr))
    ensures e.SpmWorks() ==> mgr.leakedTokens == old(mgr.leakedTokens) && mgr.leakedUids == old(mgr.leakedUids)
  {
    hide AtRest, Added, AtOnce, Asked, Debugged, Others, SpawnStep, UnlockStep, Plus;
    var message := e.message.(request := n);
    NothingLost(mgr, message);
    match e
    case SpawnRequest(_, outcome) => ProcessSpawnReqMsg(mgr, message, outcome);
    case LockStatusRequest(_, unlocks, unlock) => ProcessLockStatusMsg(mgr, message, unlocks, unlock);
    case StatusRequest(_, asked, killOk, exited, hooks) => {
      if mgr.isNWebSpawn && asked.Some? {
        var status := GetProcessTerminationStatus(mgr, asked.value, killOk, exited, hooks);
      }
      AnswerAtOnce(mgr, message);
    }
    case DebugRequest(_, target, debuggable, signal, killOk) => {
      if target.Some? {
        var ret := AppspawpnDevicedebugKill(mgr, target.value, debuggable, signal, killOk);
      }
      AnswerAtOnce(mgr, message);
    }
    case OtherRequest(_) => AnswerAtOnce(mgr, message);
  }

  lemma NothingLost(mgr: AppSpawnMgr, m: Message)
    ensures Plus(mgr.leakedTokens, false, TokenOf(m)) == mgr.leakedTokens
    ensures Plus(mgr.leakedUids, false, UidOf(m)) == mgr.leakedUids
  {
  }

  /** One turn of the loop. */
  method HandleEvent(mgr: AppSpawnMgr, e: Event, n: nat)
    requires AtRest(mgr) && mgr.running
    modifies mgr, mgr.kernel, mgr.fds
    ensures AtRest(mgr) && Step(old(Snap(mgr)), e, n, mgr.isNWebSpawn, Snap(mgr))
    ensures Reported(old(Others(mgr)), Others(mgr), mgr.kernel.self)
    ensures e.SpmWorks() ==> mgr.leakedTokens == old(mgr.leakedTokens) && mgr.leakedUids == old(mgr.leakedUids)
  {
    hide AtRest, Added, Others, Reported, Answers, TimedOut, Died, PidFdFired, ResponseGone, Closed, Stopped;
    ReportedNothing(mgr);
    match e
    case ChildResponse(client, result, usable, hooks) => WatcherFires(mgr, client, result, usable, hooks);
    case ChildTimeout(client, hooks) => TimerFires(mgr, client, hooks);
    case ChildDied(pid, status, bySignal, hooks) => ReapAndHandle(mgr, pid, status, bySignal, hooks);
    case PidFdReadable(pid, hooks) => ProcessChildProcessFd(mgr, pid, hooks);
    case ResponseSent(pid, failed) => SendMessageComplete(mgr, pid, failed);
    case ConnectionClosed(connection, hooks) => OnClose(mgr, connection, hooks);
    case Terminate(hooks) => StopAppSpawn(mgr, hooks);
    case _ => {
      hide Step;
      ProcessRecvMsg(mgr, e, n);
    }
  }

  /** ProcessSignal for one child: `waitpid` and HandleDiedPid. */
  method ReapAndHandle(mgr: AppSpawnMgr, pid: int, status: int, bySignal: bool, hooks: Hooks)
    requires AtRest(mgr)
    modifies mgr, mgr.kernel, mgr.fds
    ensures AtRest(mgr) && Snap(mgr) == Died(old(Snap(mgr)), pid, status, bySignal, hooks, mgr.isNWebSpawn)
    ensures Reported(old(Others(mgr)), Others(mgr), mgr.kernel.self)
    ensures hooks.SpmWorks() ==> mgr.leakedTokens == old(mgr.leakedTokens) && mgr.leakedUids == old(mgr.leakedUids)
  {
    hide AtRest, Others, Reported, Died;
    ReportedNothing(mgr);
    DiedOnce(Snap(mgr), pid, status, bySignal, hooks, mgr.isNWebSpawn);
    if pid > 0 {
      Reap(mgr, pid);
      HandleDiedPid(mgr, pid, status, bySignal, hooks);
    }
  }

  /** It does not matter that the child is gone already when HandleDiedPid starts. */
  lemma DiedOnce(s: Snapshot, pid: int, status: int, bySignal: bool, hooks: Hooks, isNWebSpawn: bool)
    ensures pid <= 0 ==> Died(s, pid, status, bySignal, hooks, isNWebSpawn) == s
    ensures 0 < pid ==>
              Died(s.(children := s.children - {pid}), pid, status, bySignal, hooks, isNWebSpawn) ==
              Died(s, pid, status, bySignal, hooks, isNWebSpawn)
  {
    assert s.children - {pid} - {pid} == s.children - {pid};
  }

  /** `waitpid` */
  method Reap(mgr: AppSpawnMgr, pid: int)
    requires AtRest(mgr)
    modifies mgr.kernel`children
    ensures AtRest(mgr) && mgr.kernel.children == old(mgr.kernel.children) - {pid}
  {
    hide mgr.Valid, AllWaiting, PoolHolds;
    mgr.Reap(pid);
  }

  /** The records of a spawner that has just started. */
  function Initial(): Snapshot {
    Snapshot([], [], [], 0, 0, multiset{}, multiset{}, multiset{}, {}, {}, {}, {}, 0, 0, true)
  }

  method Start(isNWebSpawn: bool) returns (mgr: AppSpawnMgr)
    ensures fresh(mgr) && fresh(mgr.kernel) && fresh(mgr.fds) && AtRest(mgr) && Snap(mgr) == Initial()
    ensures mgr.isNWebSpawn == isNWebSpawn && mgr.fds.nodes == []
    ensures mgr.leakedTokens == multiset{} && mgr.leakedUids == multiset{}
  {
    hide Sum, Places, ChildLaw, RefLaw, IdLaw, FdLaw, RequestLaw, MailLaw, CrashLaw, SortedByPid;
    var kernel := new Kernel();
    mgr := new AppSpawnMgr(kernel, isNWebSpawn);
  }

  /** A trace of the spawner's records from its start: one step for every event handled. */
  ghost predicate IsTrace(trace: seq<Snapshot>, events: seq<Event>, isNWebSpawn: bool) {
    && 0 < |trace| <= |events| + 1 && trace[0] == Initial()
    && (forall k :: 0 <= k < |trace| ==> Orderly(trace[k]))
    && forall k :: 0 <= k < |trace| - 1 ==> trace[k].running && Step(trace[k], events[k], k, isNWebSpawn, trace[k + 1])
  }

  lemma TraceStarts(events: seq<Event>, isNWebSpawn: bool)
    ensures IsTrace([Initial()], events, isNWebSpawn)
  {
  }

  lemma TraceGrows(trace: seq<Snapshot>, events: seq<Event>, isNWebSpawn: bool, t: Snapshot)
    requires IsTrace(trace, events, isNWebSpawn) && |trace| <= |events|
    requires trace[|trace| - 1].running && Step(trace[|trace| - 1], events[|trace| - 1], |trace| - 1, isNWebSpawn, t)
    requires Orderly(t)
    ensures IsTrace(trace + [t], events, isNWebSpawn)
  {
    hide Step, Orderly;
  }

  /** The spawner from its start: it handles the events until none is left or it stops. */
  method Run(events: seq<Event>, isNWebSpawn: bool) returns (mgr: AppSpawnMgr, handled: nat, ghost trace: seq<Snapshot>)
    ensures fresh(mgr) && AtRest(mgr) && handled <= |events| && (handled < |events| ==> !mgr.running)
    ensures IsTrace(trace, events, isNWebSpawn) && |trace| == handled + 1 && trace[handled] == Snap(mgr)
    ensures (forall e :: e in events ==> e.SpmWorks()) ==> mgr.leakedTokens == multiset{} && mgr.leakedUids == multiset{}
  {
    hide AtRest, IsTrace, Step, Orderly;
    mgr := Start(isNWebSpawn);
    TraceStarts(events, isNWebSpawn);
    handled, trace := 0, [Snap(mgr)];
    while handled < |events| && mgr.running
      invariant fresh(mgr) && fresh(mgr.kernel) && fresh(mgr.fds) && AtRest(mgr) && mgr.isNWebSpawn == isNWebSpawn
      invariant handled <= |events| && IsTrace(trace, events, isNWebSpawn)
      invariant |trace| == handled + 1 && trace[handled] == Snap(mgr)
      invariant (forall e :: e in events ==> e.SpmWorks()) ==>
                  mgr.leakedTokens == multiset{} && mgr.leakedUids == multiset{}
    {
      HandleEvent(mgr, events[handled], handled);
      RestIsOrderly(mgr);
      TraceGrows(trace, events, isNWebSpawn, Snap(mgr));
      trace := trace + [Snap(mgr)];
      handled := handled + 1;
    }
  }
}
