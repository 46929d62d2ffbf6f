/**
  What each event comes to, told from its own fields and the records before it: who is answered, who
  goes, which children are new and which have to die. `Step` is what the handlers are proved to do;
  here is what that means for the clients and the children.
*/
module Outcomes {
  import opened Books
  import opened History
  import opened Prefork
  import opened Snapshots
  import opened SpawnService
  import opened Tally
  import opened Unlock
  import opened Wrappers

  /** The control group of process `of` holds `p`, which can be killed; the lines up to it are pids. */
  ghost predicate InGroup(hooks: Hooks, of: int, p: int) {
    && of in hooks.groups
    && exists j :: 0 <= j < |hooks.groups[of]| && Reaches(hooks.groups[of], j, p)
  }

  ghost predicate Reaches(group: seq<Stray>, j: nat, p: int) {
    && j < |group| && group[j].pid == p && group[j].killOk
    && forall i :: 0 <= i <= j ==> 0 < group[i].pid
  }

  lemma {:induction false} KilledIff(group: seq<Stray>, dead: int, apps: seq<App>, p: int)
    ensures p in Killed(group, dead, apps) <==>
            && p != dead && (forall a :: a in apps ==> a.pid != p)
            && exists j :: 0 <= j < |group| && Reaches(group, j, p)
    decreases |group|
  {
    if group != [] && 0 < group[0].pid {
      KilledIff(group[1..], dead, apps, p);
      FoundIff(apps, group[0].pid);
      hide AppOf;
      forall j | 0 <= j < |group[1..]| && Reaches(group[1..], j, p)
        ensures Reaches(group, j + 1, p)
      {
        assert forall i :: 0 < i <= j + 1 ==> group[i] == group[1..][i - 1];
      }
      forall j | 0 < j < |group| && Reaches(group, j, p)
        ensures Reaches(group[1..], j - 1, p)
      {
      }
      assert group[0].killOk ==> Reaches(group, 0, group[0].pid);
    }
  }

  lemma FoundIff(apps: seq<App>, pid: int)
    ensures AppOf(apps, pid) < |apps| <==> exists a :: a in apps && a.pid == pid
    ensures AppOf(apps, pid) < |apps| ==> apps[AppOf(apps, pid)].pid == pid
  {
    var k := AppOf(apps, pid);
    assert k < |apps| ==> apps[k] in apps;
  }

  /** Whom the end of process `dead` takes with it: nobody has who is recorded. */
  lemma GroupKilled(dead: int, apps: seq<App>, hooks: Hooks, isNWebSpawn: bool, p: int)
    ensures p in KilledWith(dead, apps, hooks, isNWebSpawn) <==>
            !isNWebSpawn && p != dead && (forall a :: a in apps ==> a.pid != p) && InGroup(hooks, dead, p)
  {
    KilledIff(hooks.Group(dead), dead, apps, p);
  }

  /** Whom the end of the spawner takes with it, besides the reserved child. */
  lemma {:induction false} StopKills(apps: seq<App>, hooks: Hooks, isNWebSpawn: bool, p: int)
    ensures p in KilledAtStop(apps, hooks, isNWebSpawn) <==>
            exists a :: a in apps && (a.pid == p || (!isNWebSpawn && InGroup(hooks, a.pid, p)))
    decreases |apps|
  {
    if apps != [] {
      hide KilledWith, InGroup;
      StopKills(apps[1..], hooks, isNWebSpawn, p);
      GroupKilled(apps[0].pid, apps, hooks, isNWebSpawn, p);
      assert forall a :: a in apps <==> a == apps[0] || a in apps[1..];
    }
  }

  // ------------------------------------------------------------------------- a child answers, or is late

  lemma ClientIff(s: Snapshot, client: nat)
    requires Orderly(s)
    ensures var i := ClientOf(s.contexts, client);
            && i <= |s.contexts|
            && (i < |s.contexts| ==> s.contexts[i] in s.contexts && s.contexts[i].id == client)
            && forall c :: c in s.contexts && c.id == client ==> i < |s.contexts| && c == s.contexts[i]
  {
    forall c | c in s.contexts && c.id == client
      ensures ClientOf(s.contexts, client) < |s.contexts| && c == s.contexts[ClientOf(s.contexts, client)]
    {
      var j :| 0 <= j < |s.contexts| && s.contexts[j] == c;
      ClientIs(s.contexts, client, j);
    }
  }

  lemma OneLess(s: Snapshot, i: nat)
    requires Orderly(s) && i < |s.contexts|
    ensures forall d :: d in Without(s.contexts, i) <==> d in s.contexts && d.id != s.contexts[i].id
    ensures forall d :: d in Without(s.contexts, i) <==> d in s.contexts && d.pid != s.contexts[i].pid
  {
    hide Without;
    WithoutKey(s.contexts, i, (c: Ctx) => c.id);
    WithoutKey(s.contexts, i, (c: Ctx) => c.pid);
  }

  lemma {:induction false} InsertedIff(apps: seq<App>, a: App)
    ensures forall b :: b in Inserted(apps, a) <==> b in apps || b == a
    decreases |apps|
  {
    if apps != [] && apps[0].pid <= a.pid {
      InsertedIff(apps[1..], a);
      assert forall b :: b in apps <==> b == apps[0] || b in apps[1..];
    }
  }

  /** A child that answers 0, and whose record can be made, becomes a process of the client's token and uid, with
      the counts that were taken for it. Whatever else comes through the pipe of a context, its child is given
      up. In any case this context and no other goes, and its request is answered. */
  lemma ChildAnswers(s: Snapshot, e: Event, n: nat, isNWebSpawn: bool, t: Snapshot, c: Ctx)
    requires Step(s, e, n, isNWebSpawn, t) && Orderly(s) && e.ChildResponse?
    requires c in s.contexts && c.id == e.client
    ensures t == s.(contexts := t.contexts, apps := t.apps, answered := s.answered + multiset{c.message.value.request},
                    excused := t.excused)
    ensures forall d :: d in t.contexts <==> d in s.contexts && d != c
    ensures if c.spawning && e.result == 0 && e.usable then
              var m := c.message.value;
              var app := App(c.pid, if m.token.Some? then m.token.value else 0, if m.uid.Some? then m.uid.value else 0,
                             c.tokenRef, c.uidRef, 0);
              t.excused == s.excused && forall b :: b in t.apps <==> b in s.apps || b == app
            else t.excused == s.excused + {c.pid} && t.apps == s.apps
  {
    hide Without, Inserted, ClientOf, Orderly;
    ClientIff(s, e.client);
    AnswersIs(s, e.client, e.result, e.usable);
    var i := ClientOf(s.contexts, e.client);
    OneLess(s, i);
    InsertedIff(s.apps, Record(c));
    SomeClient(s, c);
  }

  lemma SomeClient(s: Snapshot, c: Ctx)
    requires Orderly(s) && c in s.contexts
    ensures c.message.Some? && forall d :: d in s.contexts && d != c ==> d.id != c.id && d.pid != c.pid
  {
  }

  /** A child that is late is given up; its context goes and its request is answered. */
  lemma ChildIsLate(s: Snapshot, e: Event, n: nat, isNWebSpawn: bool, t: Snapshot, c: Ctx)
    requires Step(s, e, n, isNWebSpawn, t) && Orderly(s) && e.ChildTimeout?
    requires c in s.contexts && c.id == e.client
    ensures t == s.(contexts := t.contexts, answered := s.answered + multiset{c.message.value.request},
                    excused := s.excused + {c.pid})
    ensures forall d :: d in t.contexts <==> d in s.contexts && d != c
  {
    hide Without, ClientOf, Orderly;
    ClientIff(s, e.client);
    AnswersIs(s, e.client, 0, false);
    OneLess(s, ClientOf(s.contexts, e.client));
    SomeClient(s, c);
  }

  /** A watcher or timer of a client whose context is gone does nothing. */
  lemma NobodyWaits(s: Snapshot, e: Event, n: nat, isNWebSpawn: bool, t: Snapshot)
    requires Step(s, e, n, isNWebSpawn, t) && Orderly(s) && (e.ChildResponse? || e.ChildTimeout?)
    requires forall c :: c in s.contexts ==> c.id != e.client
    ensures t == s
  {
    hide ClientOf, Orderly;
    ClientIff(s, e.client);
    AnswersIs(s, e.client, if e.ChildResponse? then e.result else 0, if e.ChildResponse? then e.usable else false);
  }

  // ------------------------------------------------------------------------- a child dies

  lemma AppIff(s: Snapshot, a: App)
    requires Orderly(s) && a in s.apps
    ensures var k := AppOf(s.apps, a.pid);
            k < |s.apps| && s.apps[k] == a && forall b :: b in Without(s.apps, k) <==> b in s.apps && b.pid != a.pid
    ensures 0 < a.pid != s.reservedPid && forall c :: c in s.contexts ==> c.pid != a.pid
    ensures forall b :: b in s.apps && b.pid == a.pid ==> b == a
  {
    var k :| 0 <= k < |s.apps| && s.apps[k] == a;
    hide Without;
    AppIs(s.apps, a.pid, k);
    WithoutKey(s.apps, k, (b: App) => b.pid);
  }

  /** A process that has died leaves no record. nwebspawn remembers the latest five, each with the status it ended
      with; of the counts, only those the kernel did not lower stay recorded. */
  lemma ProcessDies(s: Snapshot, e: Event, n: nat, isNWebSpawn: bool, t: Snapshot, a: App)
    requires Step(s, e, n, isNWebSpawn, t) && Orderly(s) && e.ChildDied? && a in s.apps && a.pid == e.pid
    ensures t == s.(children := s.children - {e.pid}, apps := t.apps, died := t.died, excused := t.excused)
    ensures forall b :: b in t.apps <==> b in s.apps && b.pid != e.pid
    ensures t.died == if !isNWebSpawn then s.died else
                        (if |s.died| < 5 then s.died else s.died[1..])
                        + [App(e.pid, a.token, a.uid, a.tokenRef && e.pid in e.hooks.stuckTokens,
                               a.uidRef && e.pid in e.hooks.stuckUids, e.status)]
    ensures forall p :: p in t.excused <==>
              || p in s.excused
              || (!isNWebSpawn && p != e.pid && (forall b :: b in s.apps ==> b.pid != p) && InGroup(e.hooks, e.pid, p))
  {
    hide Without, AppOf, KilledWith, InGroup, Orderly, DiedWaiting;
    AppIff(s, a);
    forall p
      ensures p in KilledWith(e.pid, s.apps, e.hooks, isNWebSpawn) <==>
              !isNWebSpawn && p != e.pid && (forall b :: b in s.apps ==> b.pid != p) && InGroup(e.hooks, e.pid, p)
    {
      GroupKilled(e.pid, s.apps, e.hooks, isNWebSpawn, p);
    }
  }

  /** The records of a spawner that stops. */
  lemma Halts(s: Snapshot, hooks: Hooks, isNWebSpawn: bool)
    ensures var t := Stopped(s, hooks, isNWebSpawn);
            && t == s.(apps := [], reservedPid := if 0 < s.reservedPid then 0 else s.reservedPid, excused := t.excused,
                       running := false)
            && forall p :: p in t.excused <==>
                 || p in s.excused || 0 < p == s.reservedPid
                 || exists a :: a in s.apps && (a.pid == p || (!isNWebSpawn && InGroup(hooks, a.pid, p)))
  {
    hide KilledAtStop, InGroup;
    forall p
      ensures p in KilledAtStop(s.apps, hooks, isNWebSpawn) <==>
              exists a :: a in s.apps && (a.pid == p || (!isNWebSpawn && InGroup(hooks, a.pid, p)))
    {
      StopKills(s.apps, hooks, isNWebSpawn, p);
    }
  }

  /** A child that dies while it is being spawned: its context goes and its request is answered. Nothing else changes
      but the crash history; unless the spawner stops for it, which takes the reserved child and all processes. */
  lemma SpawnedChildDies(s: Snapshot, e: Event, n: nat, isNWebSpawn: bool, t: Snapshot, c: Ctx)
    requires Step(s, e, n, isNWebSpawn, t) && Orderly(s) && s.running && e.ChildDied?
    requires c in s.contexts && c.spawning && c.pid == e.pid
    ensures forall d :: d in t.contexts <==> d in s.contexts && d != c
    ensures t.answered == s.answered + multiset{c.message.value.request}
    ensures t.signalled == if e.bySignal then s.signalled + {c.id} else s.signalled
    ensures var u := s.(contexts := t.contexts, answered := t.answered, children := s.children - {e.pid},
                        signalled := t.signalled, crashTimes := t.crashTimes, lastDiedAppId := t.lastDiedAppId);
            if t.running then t == u
            else
              && t == u.(apps := [], reservedPid := if 0 < s.reservedPid then 0 else s.reservedPid, excused := t.excused,
                         running := false)
              && forall p :: p in t.excused <==>
                   || p in s.excused || 0 < p == s.reservedPid
                   || exists a :: a in s.apps && (a.pid == p || (!isNWebSpawn && InGroup(e.hooks, a.pid, p)))
  {
    hide Without, AppOf, CtxOf, Stopped, Orderly, InGroup, KilledWith, Latest;
    var i :| 0 <= i < |s.contexts| && s.contexts[i] == c;
    SomeClient(s, c);
    FirstToDie(s, i);
    OneLess(s, i);
    var u := Crashed(Ended(s.(children := s.children - {e.pid}), i), c.id, e.bySignal);
    Halts(u, e.hooks, isNWebSpawn);
  }

  lemma FirstToDie(s: Snapshot, i: nat)
    requires Orderly(s) && i < |s.contexts|
    ensures var pid := s.contexts[i].pid;
            CtxOf(s.contexts, pid) == i && AppOf(s.apps, pid) == |s.apps| && 0 < pid != s.reservedPid
  {
    CtxIs(s.contexts, s.contexts[i].pid, i);
    AppIs(s.apps, s.contexts[i].pid, |s.apps|);
    assert s.contexts[i] in s.contexts;
  }

  /** Any other child that dies is only taken off the list, also as the reserved one: the context of an unlock
      request waits on for its timer. */
  lemma OtherChildDies(s: Snapshot, e: Event, n: nat, isNWebSpawn: bool, t: Snapshot)
    requires Step(s, e, n, isNWebSpawn, t) && e.ChildDied? && 0 < e.pid
    requires forall a :: a in s.apps ==> a.pid != e.pid
    requires forall c :: c in s.contexts && c.spawning ==> c.pid != e.pid
    ensures t == s.(children := s.children - {e.pid}, reservedPid := if s.reservedPid == e.pid then 0 else s.reservedPid)
  {
    hide AppOf, CtxOf, Buried, Stopped;
    FoundIff(s.apps, e.pid);
    FirstCtx(s.contexts, e.pid);
    var i := CtxOf(s.contexts, e.pid);
    assert i < |s.contexts| ==> s.contexts[i] in s.contexts;
  }

  /** SIGTERM: the reserved child and all processes are killed, with what their control groups hold. */
  lemma Terminates(s: Snapshot, e: Event, n: nat, isNWebSpawn: bool, t: Snapshot)
    requires Step(s, e, n, isNWebSpawn, t) && e.Terminate?
    ensures t == s.(apps := [], reservedPid := if 0 < s.reservedPid then 0 else s.reservedPid, excused := t.excused,
                    running := false)
    ensures forall p :: p in t.excused <==>
              || p in s.excused || 0 < p == s.reservedPid
              || exists a :: a in s.apps && (a.pid == p || (!isNWebSpawn && InGroup(e.hooks, a.pid, p)))
  {
    hide Stopped, InGroup;
    Halts(s, e.hooks, isNWebSpawn);
  }

  /** A process that has ended takes its control group with it; its record stays until it is reaped. */
  lemma ProcessEnds(s: Snapshot, e: Event, n: nat, isNWebSpawn: bool, t: Snapshot)
    requires Step(s, e, n, isNWebSpawn, t) && e.PidFdReadable?
    ensures t == s.(excused := t.excused)
    ensures forall p :: p in t.excused <==>
              || p in s.excused
              || (&& !isNWebSpawn && (exists a :: a in s.apps && a.pid == e.pid)
                  && p != e.pid && (forall b :: b in s.apps ==> b.pid != p) && InGroup(e.hooks, e.pid, p))
  {
    hide AppOf, KilledWith, InGroup;
    FoundIff(s.apps, e.pid);
    forall p
      ensures p in KilledWith(e.pid, s.apps, e.hooks, isNWebSpawn) <==>
              !isNWebSpawn && p != e.pid && (forall b :: b in s.apps ==> b.pid != p) && InGroup(e.hooks, e.pid, p)
    {
      GroupKilled(e.pid, s.apps, e.hooks, isNWebSpawn, p);
    }
  }

  /** A process is killed when its client could not be told of it, and its record stays. */
  lemma ResponseFails(s: Snapshot, e: Event, n: nat, isNWebSpawn: bool, t: Snapshot)
    requires Step(s, e, n, isNWebSpawn, t) && e.ResponseSent?
    ensures t == if e.failed && 0 < e.pid && (exists a :: a in s.apps && a.pid == e.pid)
                 then s.(excused := s.excused + {e.pid}) else s
  {
    hide AppOf;
    FoundIff(s.apps, e.pid);
  }

  // ------------------------------------------------------------------------- requests that are answered at once

  /** A debugger's signal: 9 ends a recorded process that may be debugged. */
  lemma DebuggerSignals(s: Snapshot, e: Event, n: nat, isNWebSpawn: bool, t: Snapshot)
    requires Step(s, e, n, isNWebSpawn, t) && e.DebugRequest?
    ensures var hit := e.target.Some? && e.debuggable && e.killOk && e.signal == 9
                       && exists a :: a in s.apps && a.pid == e.target.value;
            t == s.(requests := s.requests + multiset{n}, answered := s.answered + multiset{n},
                    excused := if hit then s.excused + {e.target.value} else s.excused)
  {
    hide AppOf;
    if e.target.Some? {
      FoundIff(s.apps, e.target.value);
    }
  }

  lemma OthersAreAnswered(s: Snapshot, e: Event, n: nat, isNWebSpawn: bool, t: Snapshot)
    requires Step(s, e, n, isNWebSpawn, t)
    requires e.OtherRequest? || (e.StatusRequest? && (!isNWebSpawn || e.asked.None? || e.asked.value <= 0))
    ensures t == s.(requests := s.requests + multiset{n}, answered := s.answered + multiset{n})
  {
  }

  /** A status request takes the record of a process that has died; or else it kills the process, whose record goes
      with it if it ends in time. */
  lemma StatusIsAsked(s: Snapshot, e: Event, n: nat, t: Snapshot)
    requires Step(s, e, n, true, t) && Orderly(s) && e.StatusRequest? && e.asked.Some? && 0 < e.asked.value
    ensures t == s.(requests := s.requests + multiset{n}, answered := s.answered + multiset{n}, died := t.died,
                    apps := t.apps, excused := t.excused, children := t.children)
    ensures var pid := e.asked.value;
            if exists d :: d in s.died && d.pid == pid then
              && t.apps == s.apps && t.excused == s.excused && t.children == s.children
              && exists i :: 0 <= i < |s.died| && s.died[i].pid == pid && (forall j :: 0 <= j < i ==> s.died[j].pid != pid)
                             && t.died == s.died[..i] + s.died[i + 1..]
            else
              var hit := e.killOk && exists a :: a in s.apps && a.pid == pid;
              && t.died == s.died && t.excused == (if hit then s.excused + {pid} else s.excused)
              && t.children == (if hit && e.exited.Some? then s.children - {pid} else s.children)
              && forall b :: b in t.apps <==> b in s.apps && !(hit && e.exited.Some? && b.pid == pid)
  {
    hide AppOf, Orderly;
    var pid := e.asked.value;
    FoundIff(s.died, pid);
    FoundIff(s.apps, pid);
    FirstIs(s.died, pid);
    if exists a :: a in s.apps && a.pid == pid {
      var a :| a in s.apps && a.pid == pid;
      AppIff(s, a);
    }
  }

  lemma FirstIs(apps: seq<App>, pid: int)
    ensures AppOf(apps, pid) <= |apps| && forall j :: 0 <= j < AppOf(apps, pid) ==> apps[j].pid != pid
  {
  }

  // ------------------------------------------------------------------------- a connection closes

  /** Exactly the contexts of the connection go, exactly their requests are given up, and exactly their children
      are killed. */
  lemma ConnectionCloses(s: Snapshot, e: Event, n: nat, isNWebSpawn: bool, t: Snapshot)
    requires Step(s, e, n, isNWebSpawn, t) && Orderly(s) && e.ConnectionClosed?
    ensures forall c :: c in s.contexts ==> c.message.Some?
    ensures t == s.(contexts := t.contexts, dropped := t.dropped, excused := t.excused)
    ensures forall c :: c in t.contexts <==> c in s.contexts && c.message.value.connection != e.connection
    ensures forall r :: r in t.dropped <==>
              || r in s.dropped
              || exists c :: c in s.contexts && c.message.value.connection == e.connection && c.message.value.request == r
    ensures forall p :: p in t.excused <==>
              || p in s.excused
              || exists c :: c in s.contexts && c.message.value.connection == e.connection && c.pid == p
  {
    hide Kept, Sum, Orderly;
    AllHaveMessages(s);
    KeptMembers(s.contexts, Serving(e.connection));
    KeptMembers(s.contexts, NotServing(e.connection));
    var gone := Kept(s.contexts, Serving(e.connection));
    forall r
      ensures r in Sum(gone, CtxOwes) <==>
              exists c :: c in s.contexts && c.message.Some? && c.message.value.connection == e.connection
                          && c.message.value.request == r
    {
      if r in Sum(gone, CtxOwes) {
        var i := InSum(gone, CtxOwes, r);
        assert gone[i] in gone;
      }
      forall c | c in gone && c.message.value.request == r
        ensures r in Sum(gone, CtxOwes)
      {
        var i :| 0 <= i < |gone| && gone[i] == c;
        SumAtLeast(gone, i, CtxOwes);
      }
    }
  }

  lemma AllHaveMessages(s: Snapshot)
    requires Orderly(s)
    ensures forall c :: c in s.contexts ==> c.message.Some? && !c.settled
  {
  }

  // ------------------------------------------------------------------------- a spawn request

  /** A message that fails the check is answered; one whose decode or pre-fork hook fails uses up a client id. */
  lemma NotForkedFor(s: Snapshot, e: Event, n: nat, isNWebSpawn: bool, t: Snapshot)
    requires Step(s, e, n, isNWebSpawn, t) && e.SpawnRequest?
    requires !e.outcome.checkOk || !e.outcome.decodeOk || !e.outcome.preForkOk
    ensures t == s.(requests := s.requests + multiset{n}, answered := s.answered + multiset{n},
                    requestId := s.requestId + if e.outcome.checkOk then 1 else 0)
  {
    hide Sacrificed, Refilled, Reserve;
    assert s.used - s.used == {} && s.children + {} == s.children;
  }

  /** The rest: who serves the request, or that it is answered at once. */
  lemma Spawns(s: Snapshot, e: Event, n: nat, isNWebSpawn: bool, t: Snapshot)
    requires Step(s, e, n, isNWebSpawn, t) && e.SpawnRequest?
    requires e.outcome.checkOk && e.outcome.decodeOk && e.outcome.preForkOk
    ensures var o, reserve := e.outcome, Hands(s, e);
            var served := o.watchOk && if reserve then o.spawn.sent.Whole? else o.spawn.fork.pipeOk && o.spawn.fork.forkOk;
            && t == s.(contexts := t.contexts, requests := s.requests + multiset{n}, requestId := s.requestId + 1,
                       answered := if served then s.answered else s.answered + multiset{n},
                       reservedPid := t.reservedPid, used := t.used, children := t.children, excused := t.excused)
            && if !served then t.contexts == s.contexts
               else
                 && |t.contexts| == |s.contexts| + 1 && t.contexts[..|s.contexts|] == s.contexts
                 && var c := t.contexts[|s.contexts|];
                    && c.id == s.requestId + 1 && c.spawning && !c.settled && !c.promoted
                    && if reserve then c.pid == s.reservedPid else c.pid in t.used - s.used
  {
    hide Grown;
  }

  /** Whether the reserved child is to serve: pre-forking is on, there is one, and the message can be mapped. */
  ghost predicate Hands(s: Snapshot, e: Event)
    requires e.SpawnRequest?
  {
    e.outcome.spawn.prefork && 0 < s.reservedPid && e.outcome.spawn.mapOk
  }

  /** The pool after a spawn: with pre-forking on it is refilled, unless the message could not be mapped for the
      child in it; and that works exactly when each of its five steps does. */
  lemma PoolAfterSpawn(s: Snapshot, e: Event, n: nat, isNWebSpawn: bool, t: Snapshot)
    requires Step(s, e, n, isNWebSpawn, t) && e.SpawnRequest?
    requires e.outcome.checkOk && e.outcome.decodeOk && e.outcome.preForkOk
    ensures var f := e.outcome.spawn.refork;
            if e.outcome.spawn.prefork && (s.reservedPid <= 0 || e.outcome.spawn.mapOk) then
              && (0 < t.reservedPid <==> f.answersOk && f.requestsOk && f.answersMemory && f.requestsMemory && f.forkOk)
              && (0 < t.reservedPid ==> t.reservedPid in t.used - s.used)
            else t.reservedPid == s.reservedPid
  {
    hide Grown, Added, SameButOwn;
  }

  /** The children after a spawn. New are the one forked to serve, if one was, and the one the pool was refilled
      with; to go has the reserved one that could not be sent the message or be watched, or the new one that
      could not be watched. */
  lemma ChildrenAfterSpawn(s: Snapshot, e: Event, n: nat, isNWebSpawn: bool, t: Snapshot) returns (own: set<int>)
    requires Step(s, e, n, isNWebSpawn, t) && e.SpawnRequest?
    requires e.outcome.checkOk && e.outcome.decodeOk && e.outcome.preForkOk
    ensures var o, reserve := e.outcome, Hands(s, e);
            var refills := o.spawn.prefork && (s.reservedPid <= 0 || o.spawn.mapOk);
            && |own| == (if !reserve && o.spawn.fork.pipeOk && o.spawn.fork.forkOk then 1 else 0)
            && own !! s.used && t.used == s.used + own + (if refills && 0 < t.reservedPid then {t.reservedPid} else {})
            && (refills && 0 < t.reservedPid ==> t.reservedPid !in own) && t.children == s.children + (t.used - s.used)
            && t.excused == s.excused + if reserve then if o.watchOk && o.spawn.sent.Whole? then {} else {s.reservedPid}
                                        else if o.watchOk then {} else own
  {
    hide Added, SameButOwn, Sacrificed, NewPids, Refilled;
    own := OwnChild(e.outcome, s.reservedPid, Reserve(e.outcome.spawn, s.reservedPid, t.reservedPid), t.contexts,
                    |s.contexts|, s.used, t.used, s.excused, t.excused);
    NewOnes(own, Reserve(e.outcome.spawn, s.reservedPid, t.reservedPid), s.used, t.used);
  }

  lemma NewOnes(own: set<int>, reserve: set<int>, used: set<int>, usedNow: set<int>)
    requires NewPids(own, reserve, used, usedNow)
    ensures own !! used && own !! reserve && usedNow == used + own + reserve
  {
  }

  lemma OwnChild(o: RequestOutcome, reservedPid: int, reserve: set<int>, q: seq<Ctx>, n: nat, used: set<int>,
                 usedNow: set<int>, excused: set<int>, excusedNow: set<int>) returns (own: set<int>)
    requires Sacrificed(o, reservedPid, reserve, q, n, used, usedNow, excused, excusedNow) && o.preForkOk
    ensures NewPids(own, reserve, used, usedNow)
    ensures var hands := o.spawn.prefork && 0 < reservedPid && o.spawn.mapOk;
            && |own| == (if !hands && o.spawn.fork.pipeOk && o.spawn.fork.forkOk then 1 else 0)
            && excusedNow == excused + if hands then if o.watchOk && o.spawn.sent.Whole? then {} else {reservedPid}
                                       else if o.watchOk then {} else own
  {
    hide NewPids;
    own := {};
    if !HandsOn(o.spawn, reservedPid) && o.spawn.fork.pipeOk && o.spawn.fork.forkOk {
      if o.watchOk {
        own := {q[n].pid};
      } else {
        var pid :| NewPids({pid}, reserve, used, usedNow) && excusedNow == excused + {pid};
        own := {pid};
      }
    }
  }

  // ------------------------------------------------------------------------- an unlock request

  /** Whether the reserved child serves the unlock: there is one, it got the message and is watched. */
  ghost predicate First(s: Snapshot, e: Event)
    requires e.LockStatusRequest?
  {
    0 < s.reservedPid && e.unlock.sent.Whole? && e.unlock.firstWatchOk
  }

  lemma NotUnlocking(s: Snapshot, e: Event, n: nat, isNWebSpawn: bool, t: Snapshot)
    requires Step(s, e, n, isNWebSpawn, t) && e.LockStatusRequest? && (e.unlocks.None? || e.unlocks.value <= 0)
    ensures t == s.(requests := s.requests + multiset{n}, answered := s.answered + multiset{n})
  {
  }

  /** An unlock waits for the reserved child, or for one forked for it; if there is neither it is answered. */
  lemma Unlocks(s: Snapshot, e: Event, n: nat, isNWebSpawn: bool, t: Snapshot)
    requires Step(s, e, n, isNWebSpawn, t) && e.LockStatusRequest? && e.unlocks.Some? && 0 < e.unlocks.value
    ensures var o, first := e.unlock, First(s, e);
            var served := first || (o.fork.pipeOk && o.fork.forkOk && o.secondWatchOk);
            && t == s.(contexts := t.contexts, requests := s.requests + multiset{n},
                       requestId := s.requestId + if o.enablePrefork then 2 else 1,
                       answered := if served then s.answered else s.answered + multiset{n},
                       reservedPid := t.reservedPid, used := t.used, children := t.children, excused := t.excused)
            && if !served then t.contexts == s.contexts
               else
                 && |t.contexts| == |s.contexts| + 1 && t.contexts[..|s.contexts|] == s.contexts
                 && var c := t.contexts[|s.contexts|];
                    && c.id == s.requestId + 1 && !c.spawning
                    && if first then c.pid == s.reservedPid else c.pid in t.used - s.used
    ensures var o, f := e.unlock, e.unlock.refork;
            if o.enablePrefork then
              0 < t.reservedPid <==> f.answersOk && f.requestsOk && f.answersMemory && f.requestsMemory && f.forkOk
            else t.reservedPid == if 0 < s.reservedPid then 0 else s.reservedPid
  {
    hide Grown;
  }

  /** The children after an unlock: new are the one forked to mount, if one was, and the new reserved one; to go
      has the reserved one that does not serve, and the new one that could not be watched. */
  lemma ChildrenAfterUnlock(s: Snapshot, e: Event, n: nat, isNWebSpawn: bool, t: Snapshot) returns (own: set<int>)
    requires Step(s, e, n, isNWebSpawn, t) && e.LockStatusRequest? && e.unlocks.Some? && 0 < e.unlocks.value
    ensures var o, first := e.unlock, First(s, e);
            && |own| == (if !first && o.fork.pipeOk && o.fork.forkOk then 1 else 0)
            && own !! s.used
            && t.used == s.used + own + (if o.enablePrefork && 0 < t.reservedPid then {t.reservedPid} else {})
            && (o.enablePrefork && 0 < t.reservedPid ==> t.reservedPid !in own) && t.children == s.children + (t.used - s.used)
            && t.excused == s.excused + (if 0 < s.reservedPid && !first then {s.reservedPid} else {})
                            + (if o.secondWatchOk then {} else own)
  {
    hide Added, Unlocking, Chosen, NewPids;
    own := OwnMounter(e.unlock, s.reservedPid, NewReserve(e.unlock, t.reservedPid), t.contexts, |s.contexts|, s.used, t.used,
                      s.excused, t.excused);
    NewOnes(own, NewReserve(e.unlock, t.reservedPid), s.used, t.used);
  }

  lemma OwnMounter(o: UnlockOutcome, reservedPid: int, reserve: set<int>, q: seq<Ctx>, n: nat, used: set<int>,
                   usedNow: set<int>, excused: set<int>, excusedNow: set<int>) returns (own: set<int>)
    requires Chosen(o, reservedPid, reserve, q, n, used, usedNow, excused, excusedNow)
    ensures NewPids(own, reserve, used, usedNow)
    ensures var first := 0 < reservedPid && o.sent.Whole? && o.firstWatchOk;
            && |own| == (if !first && o.fork.pipeOk && o.fork.forkOk then 1 else 0)
            && excusedNow == excused + (if 0 < reservedPid && !first then {reservedPid} else {})
                             + (if o.secondWatchOk then {} else own)
  {
    hide NewPids;
    own := {};
    if !o.FirstLevel(reservedPid) && o.fork.pipeOk && o.fork.forkOk {
      if o.secondWatchOk {
        own := {q[n].pid};
      } else {
        var pid :| NewPids({pid}, reserve, used, usedNow) && excusedNow == excused + PidIf(0 < reservedPid, reservedPid) + {pid};
        own := {pid};
      }
    }
  }

  // ------------------------------------------------------------------------- the dead

  /** A record among the dead tells the truth: its process was reported dead, with that status. */
  lemma {:induction false} DeadWithTheirStatus(trace: seq<Snapshot>, events: seq<Event>, isNWebSpawn: bool, k: nat, d: App)
    returns (j: nat)
    requires IsTrace(trace, events, isNWebSpawn) && k < |trace| && d in trace[k].died
    ensures isNWebSpawn && j < k && events[j].ChildDied? && events[j].pid == d.pid && events[j].status == d.exitStatus
    ensures exists a :: a in trace[j].apps && a.pid == d.pid && a.token == d.token && a.uid == d.uid
    decreases k
  {
    hide Step, Orderly;
    if d in trace[k - 1].died {
      j := DeadWithTheirStatus(trace, events, isNWebSpawn, k - 1, d);
    } else {
      j := k - 1;
      StepBuries(trace[j], events[j], j, isNWebSpawn, trace[k], d);
    }
  }

  lemma StepBuries(s: Snapshot, e: Event, n: nat, isNWebSpawn: bool, t: Snapshot, d: App)
    requires Step(s, e, n, isNWebSpawn, t) && Orderly(s) && d in t.died && d !in s.died
    ensures isNWebSpawn && e.ChildDied? && e.pid == d.pid && e.status == d.exitStatus
    ensures exists a :: a in s.apps && a.pid == d.pid && a.token == d.token && a.uid == d.uid
  {
    hide Grown, Chosen, Sacrificed, Refilled, Reserve, NewReserve, KilledAtStop, KilledWith, Kept, Sum, Inserted, Without,
      Added, SameButOwn, Unlocking, AppOf, ClientOf, CtxOf, Prepared, Orderly, Died;
    if e.ChildDied? {
      DeathBuries(s, e, isNWebSpawn, t, d);
    } else if e.StatusRequest? {
      StillDead(s.died, e, d);
    }
  }

  lemma StillDead(died: seq<App>, e: Event, d: App)
    requires e.StatusRequest?
    ensures e.asked.Some? && AppOf(died, e.asked.value) < |died| && d in Without(died, AppOf(died, e.asked.value)) ==>
              d in died
  {
  }

  lemma DeathBuries(s: Snapshot, e: Event, isNWebSpawn: bool, t: Snapshot, d: App)
    requires e.ChildDied? && t == Died(s, e.pid, e.status, e.bySignal, e.hooks, isNWebSpawn) && Orderly(s)
    requires d in t.died && d !in s.died
    ensures isNWebSpawn && e.pid == d.pid && e.status == d.exitStatus
    ensures exists a :: a in s.apps && a.pid == d.pid && a.token == d.token && a.uid == d.uid
  {
    hide KilledAtStop, KilledWith, Without, Added, AppOf, CtxOf, Orderly;
    FirstApp(s.apps, e.pid);
    var k := AppOf(s.apps, e.pid);
    assert k < |s.apps| ==> s.apps[k] in s.apps;
  }

  /** The status a client is told of a process: that of the first record of its death; or else, if there is a record of
      the process, it can be killed and ends in time, the one the kernel reports; 0 for no process, -1 otherwise. */
  lemma WhichStatus(s: Snapshot, pid: int, killOk: bool, exited: Option<int>)
    ensures var status := StatusOf(s, pid, killOk, exited);
            && (pid <= 0 ==> status == 0)
            && (0 < pid && (forall d :: d in s.died ==> d.pid != pid) ==>
                  status == if killOk && exited.Some? && (exists a :: a in s.apps && a.pid == pid) then exited.value else -1)
            && forall i :: 0 < pid && 0 <= i < |s.died| && s.died[i].pid == pid && (forall j :: 0 <= j < i ==> s.died[j].pid != pid)
                     ==> status == s.died[i].exitStatus
  {
    FoundIff(s.died, pid);
    FoundIff(s.apps, pid);
    hide AppOf;
    forall i | 0 <= i < |s.died| && s.died[i].pid == pid && (forall j :: 0 <= j < i ==> s.died[j].pid != pid)
      ensures AppOf(s.died, pid) == i
    {
      AppIs(s.died, pid, i);
    }
  }

  /** When nothing leaks in the course of an event: every count is lowered that is asked for; and a request that
      raises the token count raises or is refused the uid count, and passes its decode hooks. */
  lemma WhenSpmWorks(e: Event)
    ensures e.SpmWorks() <==>
            match e
            case SpawnRequest(m, o) =>
              && o.hooks.stuckTokens == {} && o.hooks.stuckUids == {}
              && (o.checkOk && m.token.Some? && m.uid.Some? && o.incToken.Raised? ==> !o.incUid.Unsupported? && o.decodeOk)
            case LockStatusRequest(_, _, _) => true
            case DebugRequest(_, _, _, _, _) => true
            case OtherRequest(_) => true
            case ResponseSent(_, _) => true
            case _ => e.hooks.stuckTokens == {} && e.hooks.stuckUids == {}
  {
  }
}
