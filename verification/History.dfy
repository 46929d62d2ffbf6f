/**
  What a run of the spawner tells afterwards: nothing is dropped, excused, reaped or held against a
  client unless an event of the run was the reason.
*/
module History {
  import opened Books
  import opened Prefork
  import opened Snapshots
  import opened SpawnService
  import opened Tally
  import opened Unlock
  import opened Wrappers

  /** The first step of a trace that makes a difference. */
  lemma {:induction false} FirstStep(trace: seq<Snapshot>, k: nat, holds: Snapshot -> bool) returns (j: nat)
    requires k < |trace| && !holds(trace[0]) && holds(trace[k])
    ensures j < k && !holds(trace[j]) && holds(trace[j + 1])
    decreases k
  {
    if holds(trace[k - 1]) {
      j := FirstStep(trace, k - 1, holds);
    } else {
      j := k - 1;
    }
  }

  // ------------------------------------------------------------------------- requests

  /** Context `c` serves request `n`, which came with event `e`: the body it holds is the client's, unless SPM
      took both counts and made another; and its flags say which counts were taken. */
  predicate ServesEvent(c: Ctx, e: Event, n: nat) {
    match e
    case SpawnRequest(m, o) =>
      && c.spawning && o.checkOk && o.decodeOk && o.preForkOk && o.watchOk
      && c.message == Some(Message(n, m.connection, m.token, m.uid,
                                   if m.token.Some? && m.uid.Some? && o.incToken.Raised? && o.incUid.Raised?
                                      && o.rebuilt.Some? then o.rebuilt.value else m.body))
      && (c.tokenRef <==> m.token.Some? && m.uid.Some? && o.incToken.Raised? && !o.incUid.Unsupported?)
      && (c.uidRef <==> m.token.Some? && m.uid.Some? && o.incToken.Raised? && o.incUid.Raised?)
    case LockStatusRequest(m, unlocks, _) =>
      && !c.spawning && unlocks.Some? && 0 < unlocks.value
      && c.message == Some(Message(n, m.connection, m.token, m.uid, m.body))
    case _ => false
  }

  /** The contexts there are after a step were there before, or serve the request of the step. */
  lemma StepContexts(s: Snapshot, e: Event, n: nat, isNWebSpawn: bool, t: Snapshot)
    requires Step(s, e, n, isNWebSpawn, t)
    ensures forall c :: c in t.contexts ==> c in s.contexts || ServesEvent(c, e, n)
  {
    hide SpawnStep, UnlockStep, KilledAtStop, KilledWith, Answers, TimedOut, Died, Closed, Kept, Added;
    match e
    case SpawnRequest(m, o) => SpawnContexts(s, m.(request := n), o, t);
    case LockStatusRequest(m, unlocks, o) => UnlockContexts(s, m.(request := n), unlocks, o, t);
    case ChildResponse(client, result, usable, _) => AnswerContexts(s, client, result, usable);
    case ChildTimeout(client, _) => AnswerContexts(s, client, 0, false);
    case ChildDied(pid, status, bySignal, hooks) => DeathContexts(s, pid, status, bySignal, hooks, isNWebSpawn);
    case ConnectionClosed(connection, _) => CloseContexts(s, connection);
    case _ => {}
  }

  lemma SpawnContexts(s: Snapshot, m: Message, o: RequestOutcome, t: Snapshot)
    requires SpawnStep(s, m, o, t)
    ensures forall c :: c in t.contexts ==> c in s.contexts || ServesEvent(c, SpawnRequest(m, o), m.request)
  {
    hide Grown, Sacrificed, Refilled, Reserve, Added;
  }

  lemma UnlockContexts(s: Snapshot, m: Message, unlocks: Option<int>, o: UnlockOutcome, t: Snapshot)
    requires UnlockStep(s, m, unlocks, o, t)
    ensures forall c :: c in t.contexts ==> c in s.contexts || ServesEvent(c, LockStatusRequest(m, unlocks, o), m.request)
  {
    hide Grown, Chosen, NewReserve, Added;
  }

  lemma AnswerContexts(s: Snapshot, client: nat, result: int, usable: bool)
    ensures forall c :: c in Answers(s, client, result, usable).contexts ==> c in s.contexts
    ensures forall c :: c in TimedOut(s, client).contexts ==> c in s.contexts
  {
    hide Added, Inserted, Without, ClientOf;
    AnswersIs(s, client, result, usable);
    SomeGone(s.contexts, ClientOf(s.contexts, client));
  }

  lemma DeathContexts(s: Snapshot, pid: int, status: int, bySignal: bool, hooks: Hooks, isNWebSpawn: bool)
    ensures forall c :: c in Died(s, pid, status, bySignal, hooks, isNWebSpawn).contexts ==> c in s.contexts
  {
    hide KilledAtStop, KilledWith, Latest, Without, Added, AppOf, CtxOf;
    FirstCtx(s.contexts, pid);
    SomeGone(s.contexts, CtxOf(s.contexts, pid));
  }

  lemma CloseContexts(s: Snapshot, connection: nat)
    ensures forall c :: c in Closed(s, connection).contexts ==> c in s.contexts
  {
    KeptMembers(s.contexts, NotServing(connection));
  }

  lemma SomeGone(q: seq<Ctx>, i: nat)
    requires i <= |q|
    ensures i < |q| ==> forall c :: c in Without(q, i) ==> c in q
  {
  }

  /** The event whose request a context serves. */
  lemma {:induction false} ServedEvent(trace: seq<Snapshot>, events: seq<Event>, isNWebSpawn: bool, k: nat, c: Ctx)
    returns (r: nat)
    requires IsTrace(trace, events, isNWebSpawn) && k < |trace| && c in trace[k].contexts
    ensures r < k && ServesEvent(c, events[r], r)
    decreases k
  {
    hide Step, Orderly, ServesEvent;
    StepContexts(trace[k - 1], events[k - 1], k - 1, isNWebSpawn, trace[k]);
    if c in trace[k - 1].contexts {
      r := ServedEvent(trace, events, isNWebSpawn, k - 1, c);
    } else {
      r := k - 1;
    }
  }

  /** Every context serves the request of an earlier event, over the connection it came by. A spawning one holds
      the message that SPM made of the client's exactly when token and uid were there, both counts were raised
      and SPM made one, and the client's own otherwise; its flags say which of the counts it has to give back. */
  lemma ContextsServeRequests(trace: seq<Snapshot>, events: seq<Event>, isNWebSpawn: bool, k: nat, c: Ctx)
    requires IsTrace(trace, events, isNWebSpawn) && k < |trace| && c in trace[k].contexts
    ensures c.message.Some? && c.message.value.request < k
    ensures var e := events[c.message.value.request];
            if c.spawning then e.SpawnRequest? && e.outcome.checkOk && e.outcome.decodeOk
            else e.LockStatusRequest? && e.unlocks.Some? && 0 < e.unlocks.value
    ensures var m, served := events[c.message.value.request].message, c.message.value;
            served.connection == m.connection && served.token == m.token && served.uid == m.uid
    ensures var m := events[c.message.value.request].message;
            if c.spawning then
              var o := events[c.message.value.request].outcome;
              && c.message.value.body == (if m.token.Some? && m.uid.Some? && o.incToken.Raised? && o.incUid.Raised?
                                             && o.rebuilt.Some? then o.rebuilt.value else m.body)
              && (c.tokenRef <==> m.token.Some? && m.uid.Some? && o.incToken.Raised? && !o.incUid.Unsupported?)
              && (c.uidRef <==> m.token.Some? && m.uid.Some? && o.incToken.Raised? && o.incUid.Raised?)
            else c.message.value.body == m.body
  {
    hide IsTrace;
    var r := ServedEvent(trace, events, isNWebSpawn, k, c);
  }

  /** Requests are numbered by the event they came with. */
  lemma {:induction false} RequestsAreNumbered(trace: seq<Snapshot>, events: seq<Event>, isNWebSpawn: bool, k: nat, r: nat)
    requires IsTrace(trace, events, isNWebSpawn) && k < |trace|
    ensures trace[k].requests[r] == if r < k && events[r].IsRequest() then 1 else 0
    decreases k
  {
    hide Step;
    if 0 < k {
      RequestsAreNumbered(trace, events, isNWebSpawn, k - 1, r);
      StepRequests(trace[k - 1], events[k - 1], k - 1, isNWebSpawn, trace[k]);
    }
  }

  lemma StepRequests(s: Snapshot, e: Event, n: nat, isNWebSpawn: bool, t: Snapshot)
    requires Step(s, e, n, isNWebSpawn, t)
    ensures t.requests == if e.IsRequest() then Added(s.requests, n) else s.requests
  {
    hide Grown, Chosen, Sacrificed, Refilled, Reserve, NewReserve, KilledAtStop, KilledWith, Latest, Kept, Sum, Inserted, Without, Added,
      SameButOwn, Unlocking, AppOf, CtxOf, ClientOf;
  }

  /** A request is given up only when a connection closes that a context with this request belongs to. */
  lemma StepDrops(s: Snapshot, e: Event, n: nat, isNWebSpawn: bool, t: Snapshot, r: nat)
    requires Step(s, e, n, isNWebSpawn, t) && r in t.dropped && r !in s.dropped
    ensures e.ConnectionClosed?
    ensures exists c :: c in s.contexts && Serves(c, e.connection) && c.message.value.request == r
  {
    hide Grown, Chosen, Sacrificed, Refilled, Reserve, NewReserve, KilledAtStop, KilledWith, Latest, Inserted, Without, Added, SameButOwn, Unlocking,
      AppOf, CtxOf, ClientOf, Prepared, Closed;
    assert e.ConnectionClosed?;
    CloseDrops(s, e.connection, r);
  }

  lemma CloseDrops(s: Snapshot, connection: nat, r: nat)
    requires r in Closed(s, connection).dropped && r !in s.dropped
    ensures exists c :: c in s.contexts && Serves(c, connection) && c.message.value.request == r
  {
    hide Kept, Sum;
    var gone := Kept(s.contexts, Serving(connection));
    KeptMembers(s.contexts, Serving(connection));
    var i := InSum(gone, CtxOwes, r);
    assert gone[i] in gone;
  }

  /** A request is given up only after its own connection has closed. */
  lemma DroppedByClose(trace: seq<Snapshot>, events: seq<Event>, isNWebSpawn: bool, k: nat, r: nat) returns (j: nat)
    requires IsTrace(trace, events, isNWebSpawn) && k < |trace| && r in trace[k].dropped
    ensures r < j < k && events[j].ConnectionClosed?
    ensures events[r].IsRequest() && events[r].message.connection == events[j].connection
  {
    hide Step;
    j := FirstStep(trace, k, (s: Snapshot) => r in s.dropped);
    StepDrops(trace[j], events[j], j, isNWebSpawn, trace[j + 1], r);
    var c :| c in trace[j].contexts && Serves(c, events[j].connection) && c.message.value.request == r;
    ContextsServeRequests(trace, events, isNWebSpawn, j, c);
  }

  // ------------------------------------------------------------------------- crashes

  /** Event `e` tells that the child of client `id` died by a signal while it was spawning. */
  ghost predicate DiesSpawning(s: Snapshot, e: Event, id: int) {
    && e.ChildDied? && e.bySignal
    && exists c :: c in s.contexts && c.id == id && c.spawning && c.pid == e.pid
  }

  lemma StepSignals(s: Snapshot, e: Event, n: nat, isNWebSpawn: bool, t: Snapshot, id: int)
    requires Step(s, e, n, isNWebSpawn, t) && id in t.signalled && id !in s.signalled
    ensures DiesSpawning(s, e, id)
  {
    hide Grown, Chosen, Sacrificed, Refilled, Reserve, NewReserve, KilledAtStop, KilledWith, Latest, Kept, Sum, Inserted, Without, Added,
      SameButOwn, Unlocking, AppOf, ClientOf, Died, DiesSpawning, Prepared;
    assert e.ChildDied?;
    DeathSignals(s, e, isNWebSpawn, t, id);
  }

  lemma DeathSignals(s: Snapshot, e: Event, isNWebSpawn: bool, t: Snapshot, id: int)
    requires e.ChildDied? && t == Died(s, e.pid, e.status, e.bySignal, e.hooks, isNWebSpawn)
    requires id in t.signalled && id !in s.signalled
    ensures DiesSpawning(s, e, id)
  {
    hide KilledAtStop, KilledWith, Latest, Without, Added, AppOf, CtxOf;
    FirstCtx(s.contexts, e.pid);
    var i := CtxOf(s.contexts, e.pid);
    assert s.contexts[i] in s.contexts;
  }

  lemma FirstCtx(q: seq<Ctx>, pid: int)
    ensures CtxOf(q, pid) <= |q| && (CtxOf(q, pid) < |q| ==> q[CtxOf(q, pid)].pid == pid)
  {
  }

  /** A client id counts as signalled only after its child has died by a signal while it was spawning. */
  lemma SignalledByDeath(trace: seq<Snapshot>, events: seq<Event>, isNWebSpawn: bool, k: nat, id: int) returns (j: nat)
    requires IsTrace(trace, events, isNWebSpawn) && k < |trace| && id in trace[k].signalled
    ensures j < k && DiesSpawning(trace[j], events[j], id)
  {
    hide Step;
    j := FirstStep(trace, k, (s: Snapshot) => id in s.signalled);
    StepSignals(trace[j], events[j], j, isNWebSpawn, trace[j + 1], id);
  }

  /** The spawner stops only when it is told to, or when a death fills the crash counter. */
  lemma StepStops(s: Snapshot, e: Event, n: nat, isNWebSpawn: bool, t: Snapshot)
    requires Step(s, e, n, isNWebSpawn, t) && s.running && !t.running
    ensures e.Terminate? || (e.ChildDied? && t.crashTimes >= MAX_CRASH_TIME)
  {
    hide Grown, Chosen, Sacrificed, Refilled, Reserve, NewReserve, KilledAtStop, KilledWith, Latest, Kept, Sum, Inserted, Without, Added,
      SameButOwn, Unlocking, AppOf, ClientOf, CtxOf;
  }

  // ------------------------------------------------------------------------- children

  /** Event `e` kills child `pid`, or has the spawner give it up; exactly then. */
  ghost predicate Settles(s: Snapshot, e: Event, isNWebSpawn: bool, t: Snapshot, pid: int) {
    match e
    // it has answered a failure, or answered an unlock request, or its record could not be made and it was killed
    case ChildResponse(client, result, usable, _) =>
      var i := ClientOf(s.contexts, client);
      i < |s.contexts| && s.contexts[i].pid == pid && !(s.contexts[i].spawning && result == 0 && usable)
    // it was late
    case ChildTimeout(client, _) =>
      var i := ClientOf(s.contexts, client);
      i < |s.contexts| && s.contexts[i].pid == pid
    // its client has gone
    case ConnectionClosed(connection, _) => exists c :: c in s.contexts && Serves(c, connection) && c.pid == pid
    // its client could not be told of it
    case ResponseSent(told, failed) => failed && 0 < pid == told && AppOf(s.apps, pid) < |s.apps|
    // it was in the control group of a process that has died, or the spawner stopped
    case ChildDied(dead, _, _, hooks) =>
      && 0 < dead
      && if AppOf(s.apps, dead) < |s.apps| then pid in KilledWith(dead, s.apps, hooks, isNWebSpawn)
         else !t.running && ((0 < pid == s.reservedPid && pid != dead) || pid in KilledAtStop(s.apps, hooks, isNWebSpawn))
    case PidFdReadable(dead, hooks) => AppOf(s.apps, dead) < |s.apps| && pid in KilledWith(dead, s.apps, hooks, isNWebSpawn)
    case Terminate(hooks) => 0 < pid == s.reservedPid || pid in KilledAtStop(s.apps, hooks, isNWebSpawn)
    // its status was asked for while it was running
    case StatusRequest(_, asked, killOk, _, _) =>
      && isNWebSpawn && asked == Some(pid) && 0 < pid && killOk
      && AppOf(s.died, pid) == |s.died| && AppOf(s.apps, pid) < |s.apps|
    // it was to serve a spawn that has failed after it was chosen or forked
    case SpawnRequest(_, o) =>
      && o.checkOk && o.decodeOk && o.preForkOk && !Accepted(o, s.reservedPid)
      && if HandsOn(o.spawn, s.reservedPid) then pid == s.reservedPid
         else
           && o.spawn.fork.pipeOk && o.spawn.fork.forkOk
           && NewPids({pid}, Reserve(o.spawn, s.reservedPid, t.reservedPid), s.used, t.used)
    // it was to serve an unlock request, and could not be sent the message or be watched
    case LockStatusRequest(_, unlocks, o) =>
      && unlocks.Some? && 0 < unlocks.value && !o.FirstLevel(s.reservedPid)
      && (|| 0 < pid == s.reservedPid
          || (&& o.fork.pipeOk && o.fork.forkOk && !o.secondWatchOk
              && NewPids({pid}, NewReserve(o, t.reservedPid), s.used, t.used)))
    // it was sent the signal by a debugger
    case DebugRequest(_, target, debuggable, signal, killOk) =>
      target == Some(pid) && AppOf(s.apps, pid) < |s.apps| && debuggable && killOk && signal == SIGKILL
    case OtherRequest(_) => false
  }

  /** An event excuses the children it settles, and no others. */
  lemma StepSettles(s: Snapshot, e: Event, n: nat, isNWebSpawn: bool, t: Snapshot, pid: int)
    requires Step(s, e, n, isNWebSpawn, t) && s.running
    ensures pid in t.excused <==> pid in s.excused || Settles(s, e, isNWebSpawn, t, pid)
  {
    hide Step, Settles;
    if e.IsRequest() {
      RequestSettles(s, e, n, isNWebSpawn, t, pid);
    } else {
      EventSettles(s, e, n, isNWebSpawn, t, pid);
    }
  }

  lemma RequestSettles(s: Snapshot, e: Event, n: nat, isNWebSpawn: bool, t: Snapshot, pid: int)
    requires Step(s, e, n, isNWebSpawn, t) && e.IsRequest()
    ensures pid in t.excused <==> pid in s.excused || Settles(s, e, isNWebSpawn, t, pid)
  {
    hide Grown, Refilled, KilledAtStop, KilledWith, Latest, Kept, Sum, Inserted, Without, Added, Unlocking, AppOf,
      ClientOf, CtxOf, SpawnStep, UnlockStep, Died, Answers, TimedOut, NewPids, Reserve, NewReserve, Stopped, Accepted, HandsOn;
    match e
    case SpawnRequest(m, o) => SettledBySpawn(s, m.(request := n), o, t, pid);
    case LockStatusRequest(m, unlocks, o) => SettledByUnlock(s, m.(request := n), unlocks, o, t, pid);
    case _ => {}
  }

  lemma EventSettles(s: Snapshot, e: Event, n: nat, isNWebSpawn: bool, t: Snapshot, pid: int)
    requires Step(s, e, n, isNWebSpawn, t) && s.running && !e.IsRequest()
    ensures pid in t.excused <==> pid in s.excused || Settles(s, e, isNWebSpawn, t, pid)
  {
    hide Grown, Refilled, KilledAtStop, KilledWith, Latest, Kept, Sum, Inserted, Without, Added, Unlocking, AppOf,
      ClientOf, CtxOf, SpawnStep, UnlockStep, Died, Answers, TimedOut, NewPids, Reserve, NewReserve, Stopped, Accepted, HandsOn;
    match e
    case ConnectionClosed(connection, _) => KeptMembers(s.contexts, Serving(connection));
    case ChildDied(dead, _, _, _) => SettledByDeath(s, e, isNWebSpawn, t, pid);
    case ChildResponse(client, _, _, _) => AnswersIs(s, client, e.result, e.usable);
    case ChildTimeout(client, _) => AnswersIs(s, client, 0, false);
    case Terminate(hooks) => SettledByStop(s, hooks, isNWebSpawn, pid);
    case _ => {}
  }

  lemma SettledByStop(s: Snapshot, hooks: Hooks, isNWebSpawn: bool, pid: int)
    ensures pid in Stopped(s, hooks, isNWebSpawn).excused <==>
            pid in s.excused || 0 < pid == s.reservedPid || pid in KilledAtStop(s.apps, hooks, isNWebSpawn)
  {
    hide KilledAtStop;
  }

  /** There is at most one new child that is not the new reserved one. */
  lemma OneNew(pid: int, other: int, reserve: set<int>, used: set<int>, usedNow: set<int>)
    requires NewPids({pid}, reserve, used, usedNow) && NewPids({other}, reserve, used, usedNow)
    ensures pid == other
  {
    assert pid in usedNow && other in usedNow;
  }

  lemma SettledBySpawn(s: Snapshot, m: Message, o: RequestOutcome, t: Snapshot, pid: int)
    requires SpawnStep(s, m, o, t)
    ensures pid in t.excused <==>
            || pid in s.excused
            || (&& o.checkOk && o.decodeOk && o.preForkOk && !Accepted(o, s.reservedPid)
                && if HandsOn(o.spawn, s.reservedPid) then pid == s.reservedPid
                   else
                     && o.spawn.fork.pipeOk && o.spawn.fork.forkOk
                     && NewPids({pid}, Reserve(o.spawn, s.reservedPid, t.reservedPid), s.used, t.used))
  {
    hide Grown, Refilled, Added, SameButOwn, NewPids, Reserve;
    if o.checkOk && o.decodeOk && o.preForkOk && !HandsOn(o.spawn, s.reservedPid) && !o.watchOk
       && o.spawn.fork.pipeOk && o.spawn.fork.forkOk {
      var reserve := Reserve(o.spawn, s.reservedPid, t.reservedPid);
      var killed :| NewPids({killed}, reserve, s.used, t.used) && t.excused == s.excused + {killed};
      if NewPids({pid}, reserve, s.used, t.used) {
        OneNew(pid, killed, reserve, s.used, t.used);
      }
    }
  }

  lemma SettledByUnlock(s: Snapshot, m: Message, unlocks: Option<int>, o: UnlockOutcome, t: Snapshot, pid: int)
    requires UnlockStep(s, m, unlocks, o, t)
    ensures pid in t.excused <==>
            || pid in s.excused
            || (&& unlocks.Some? && 0 < unlocks.value && !o.FirstLevel(s.reservedPid)
                && (|| 0 < pid == s.reservedPid
                    || (&& o.fork.pipeOk && o.fork.forkOk && !o.secondWatchOk
                        && NewPids({pid}, NewReserve(o, t.reservedPid), s.used, t.used))))
  {
    hide Grown, Added, Unlocking, NewPids, NewReserve;
    if unlocks.Some? && 0 < unlocks.value && !o.FirstLevel(s.reservedPid) && o.fork.pipeOk && o.fork.forkOk
       && !o.secondWatchOk {
      var reserve := NewReserve(o, t.reservedPid);
      var killed :| NewPids({killed}, reserve, s.used, t.used)
                    && t.excused == s.excused + PidIf(0 < s.reservedPid, s.reservedPid) + {killed};
      if NewPids({pid}, reserve, s.used, t.used) {
        OneNew(pid, killed, reserve, s.used, t.used);
      }
    }
  }

  lemma SettledByDeath(s: Snapshot, e: Event, isNWebSpawn: bool, t: Snapshot, pid: int)
    requires e.ChildDied? && t == Died(s, e.pid, e.status, e.bySignal, e.hooks, isNWebSpawn) && s.running
    ensures pid in t.excused <==> pid in s.excused || Settles(s, e, isNWebSpawn, t, pid)
  {
    hide KilledAtStop, KilledWith, Latest, Without, Added, AppOf, CtxOf;
    FirstApp(s.apps, e.pid);
    FirstCtx(s.contexts, e.pid);
  }

  lemma FirstApp(apps: seq<App>, pid: int)
    ensures AppOf(apps, pid) <= |apps| && (AppOf(apps, pid) < |apps| ==> apps[AppOf(apps, pid)].pid == pid)
  {
  }

  /** A child is excused exactly after an event that kills it or has the spawner give it up. */
  lemma {:induction false} ExcusedIff(trace: seq<Snapshot>, events: seq<Event>, isNWebSpawn: bool, k: nat, pid: int)
    requires IsTrace(trace, events, isNWebSpawn) && k < |trace|
    ensures pid in trace[k].excused <==>
            exists j :: 0 <= j < k && Settles(trace[j], events[j], isNWebSpawn, trace[j + 1], pid)
    decreases k
  {
    hide Step, Settles;
    if 0 < k {
      ExcusedIff(trace, events, isNWebSpawn, k - 1, pid);
      StepSettles(trace[k - 1], events[k - 1], k - 1, isNWebSpawn, trace[k], pid);
      assert Settles(trace[k - 1], events[k - 1], isNWebSpawn, trace[k - 1 + 1], pid) ==> pid in trace[k].excused;
    }
  }

  /** The event that excused a child. */
  lemma ExcusedForAReason(trace: seq<Snapshot>, events: seq<Event>, isNWebSpawn: bool, k: nat, pid: int) returns (j: nat)
    requires IsTrace(trace, events, isNWebSpawn) && k < |trace| && pid in trace[k].excused
    ensures j < k && Settles(trace[j], events[j], isNWebSpawn, trace[j + 1], pid)
  {
    hide Step, Settles;
    ExcusedIff(trace, events, isNWebSpawn, k, pid);
    j :| 0 <= j < k && Settles(trace[j], events[j], isNWebSpawn, trace[j + 1], pid);
  }

  /** The reserved child is a pid the kernel has handed out. */
  lemma {:induction false} ReserveIsKnown(trace: seq<Snapshot>, events: seq<Event>, isNWebSpawn: bool, k: nat)
    requires IsTrace(trace, events, isNWebSpawn) && k < |trace|
    ensures 0 < trace[k].reservedPid ==> trace[k].reservedPid in trace[k].used
    decreases k
  {
    hide Step;
    if 0 < k {
      ReserveIsKnown(trace, events, isNWebSpawn, k - 1);
      StepReserve(trace[k - 1], events[k - 1], k - 1, isNWebSpawn, trace[k]);
    }
  }

  lemma StepReserve(s: Snapshot, e: Event, n: nat, isNWebSpawn: bool, t: Snapshot)
    requires Step(s, e, n, isNWebSpawn, t) && (0 < s.reservedPid ==> s.reservedPid in s.used)
    ensures s.used <= t.used && (0 < t.reservedPid ==> t.reservedPid in t.used)
  {
    hide SpawnStep, UnlockStep, KilledAtStop, KilledWith, Latest, Kept, Sum, Inserted, Without, Added, Answers, TimedOut, Died,
      AppOf;
    match e
    case SpawnRequest(m, o) => SpawnReserve(s, m.(request := n), o, t);
    case LockStatusRequest(m, unlocks, o) => UnlockReserve(s, m.(request := n), unlocks, o, t);
    case ChildResponse(client, result, usable, _) => AnswersIs(s, client, result, usable);
    case ChildTimeout(client, _) => AnswersIs(s, client, 0, false);
    case ChildDied(dead, status, bySignal, hooks) => DeathReserve(s, dead, status, bySignal, hooks, isNWebSpawn);
    case _ => {}
  }

  lemma SpawnReserve(s: Snapshot, m: Message, o: RequestOutcome, t: Snapshot)
    requires SpawnStep(s, m, o, t) && (0 < s.reservedPid ==> s.reservedPid in s.used)
    ensures s.used <= t.used && (0 < t.reservedPid ==> t.reservedPid in t.used)
    ensures o.checkOk && o.decodeOk && o.preForkOk && Refills(o.spawn, s.reservedPid) && 0 < t.reservedPid ==>
              t.reservedPid !in s.used
  {
    hide Added, SameButOwn;
  }

  lemma UnlockReserve(s: Snapshot, m: Message, unlocks: Option<int>, o: UnlockOutcome, t: Snapshot)
    requires UnlockStep(s, m, unlocks, o, t) && (0 < s.reservedPid ==> s.reservedPid in s.used)
    ensures s.used <= t.used && (0 < t.reservedPid ==> t.reservedPid in t.used)
    ensures unlocks.Some? && 0 < unlocks.value && 0 < t.reservedPid ==> t.reservedPid !in s.used
  {
    hide Added, Unlocking;
  }

  lemma DeathReserve(s: Snapshot, pid: int, status: int, bySignal: bool, hooks: Hooks, isNWebSpawn: bool)
    ensures var t := Died(s, pid, status, bySignal, hooks, isNWebSpawn);
            t.used == s.used && (0 < t.reservedPid ==> t.reservedPid == s.reservedPid)
  {
    hide KilledAtStop, KilledWith, Latest, Without, Added, AppOf, CtxOf;
    FirstApp(s.apps, pid);
    FirstCtx(s.contexts, pid);
  }

  /** Whatever goes wrong with a spawn or an unlock, the reserved child it leaves behind is not the one that had
      to go. */
  lemma ReserveIsSpared(trace: seq<Snapshot>, events: seq<Event>, isNWebSpawn: bool, j: nat, pid: int)
    requires IsTrace(trace, events, isNWebSpawn) && j < |trace| - 1
    requires (events[j].SpawnRequest? || events[j].LockStatusRequest?) && 0 < pid
    requires Settles(trace[j], events[j], isNWebSpawn, trace[j + 1], pid)
    ensures pid != trace[j + 1].reservedPid
  {
    ReserveIsKnown(trace, events, isNWebSpawn, j);
    assert Step(trace[j], events[j], j, isNWebSpawn, trace[j + 1]);
    hide IsTrace, SpawnStep, UnlockStep;
    match events[j]
    case SpawnRequest(m, o) => SpawnReserve(trace[j], m.(request := j), o, trace[j + 1]);
    case LockStatusRequest(m, unlocks, o) => UnlockReserve(trace[j], m.(request := j), unlocks, o, trace[j + 1]);
    case _ => {}
  }

  lemma StepReaps(s: Snapshot, e: Event, n: nat, isNWebSpawn: bool, t: Snapshot, pid: int)
    requires Step(s, e, n, isNWebSpawn, t) && pid in s.children && pid !in t.children
    ensures (e.ChildDied? && e.pid == pid) || (e.StatusRequest? && isNWebSpawn && e.asked.Some? && e.asked.value == pid)
  {
    hide SpawnStep, UnlockStep, KilledAtStop, KilledWith, Answers, TimedOut, Died, Kept, Sum, Added, AppOf, Without;
    match e
    case SpawnRequest(m, o) => SpawnReapsNone(s, m.(request := n), o, t);
    case LockStatusRequest(m, unlocks, o) => UnlockReapsNone(s, m.(request := n), unlocks, o, t);
    case ChildResponse(client, result, usable, _) => AnswersIs(s, client, result, usable);
    case ChildTimeout(client, _) => AnswersIs(s, client, 0, false);
    case ChildDied(dead, status, bySignal, hooks) => DeathReapsOne(s, dead, status, bySignal, hooks, isNWebSpawn);
    case _ => {}
  }

  lemma SpawnReapsNone(s: Snapshot, m: Message, o: RequestOutcome, t: Snapshot)
    requires SpawnStep(s, m, o, t)
    ensures s.children <= t.children
  {
    hide Sacrificed, Refilled, Reserve, Added, SameButOwn;
  }

  lemma UnlockReapsNone(s: Snapshot, m: Message, unlocks: Option<int>, o: UnlockOutcome, t: Snapshot)
    requires UnlockStep(s, m, unlocks, o, t)
    ensures s.children <= t.children
  {
    hide Chosen, NewReserve, Added, Unlocking;
  }

  lemma DeathReapsOne(s: Snapshot, pid: int, status: int, bySignal: bool, hooks: Hooks, isNWebSpawn: bool)
    ensures Died(s, pid, status, bySignal, hooks, isNWebSpawn).children == if 0 < pid then s.children - {pid} else s.children
  {
    hide KilledAtStop, KilledWith, Latest, Without, Added, AppOf, CtxOf;
    FirstApp(s.apps, pid);
    FirstCtx(s.contexts, pid);
  }

  /** A child ceases to be one only when the kernel has reported its end. */
  lemma {:induction false} ReapedOnce(trace: seq<Snapshot>, events: seq<Event>, isNWebSpawn: bool, i: nat, k: nat, pid: int)
    returns (j: nat)
    requires IsTrace(trace, events, isNWebSpawn) && i < k < |trace|
    requires pid in trace[i].children && pid !in trace[k].children
    ensures i <= j < k
    ensures var e := events[j];
            (e.ChildDied? && e.pid == pid) || (e.StatusRequest? && isNWebSpawn && e.asked.Some? && e.asked.value == pid)
    decreases k
  {
    hide Step;
    if i + 1 < k && pid !in trace[k - 1].children {
      j := ReapedOnce(trace, events, isNWebSpawn, i, k - 1, pid);
    } else {
      j := k - 1;
      StepReaps(trace[j], events[j], j, isNWebSpawn, trace[k], pid);
    }
  }
}
