/**
  When the spawner gives up: after the children of five clients in a row have died by signals while
  they were being spawned, and not before.
*/
module Crashes {
  import opened Books
  import opened History
  import opened Prefork
  import opened Snapshots
  import opened SpawnService
  import opened Tally
  import opened Unlock

  /** Event `e` reports the death of a child that was being spawned. */
  ghost predicate EndsSpawning(s: Snapshot, e: Event) {
    e.ChildDied? && exists c :: c in s.contexts && c.spawning && c.pid == e.pid
  }

  /** At the events `js`, one after the other, the children of consecutive clients were reported dead by a signal
      while they were being spawned, that of client `first` to begin with. Before event `k` no other such child
      has died since. */
  ghost predicate InARow(trace: seq<Snapshot>, events: seq<Event>, js: seq<nat>, first: int, k: nat) {
    && k < |trace| <= |events| + 1
    && (forall m :: 0 <= m < |js| ==> js[m] < k && DiesSpawning(trace[js[m]], events[js[m]], first + m))
    && (forall m, n :: 0 <= m < n < |js| ==> js[m] < js[n])
    && (js != [] ==> forall j :: js[0] < j < k && j !in js ==> !EndsSpawning(trace[j], events[j]))
  }

  // ------------------------------------------------------------------------- one event

  /** The death of a child that was being spawned finds its context. */
  lemma FindsContext(s: Snapshot, pid: int, i: nat)
    requires Orderly(s) && i < |s.contexts| && s.contexts[i].pid == pid
    ensures CtxOf(s.contexts, pid) == i && AppOf(s.apps, pid) == |s.apps|
  {
    CtxIs(s.contexts, pid, i);
    AppIs(s.apps, pid, |s.apps|);
  }

  lemma DeathCounts(s: Snapshot, i: nat, e: Event, isNWebSpawn: bool, t: Snapshot)
    requires Orderly(s) && e.ChildDied? && t == Died(s, e.pid, e.status, e.bySignal, e.hooks, isNWebSpawn)
    requires i < |s.contexts| && s.contexts[i].spawning && s.contexts[i].pid == e.pid
    ensures var id := s.contexts[i].id;
            && t.lastDiedAppId == (if e.bySignal then id else s.lastDiedAppId)
            && t.crashTimes == (if !e.bySignal then 0 else if id == s.lastDiedAppId + 1 then s.crashTimes + 1 else 1)
            && (t.running <==> s.running && t.crashTimes < 5)
  {
    hide KilledAtStop, KilledWith, Latest, Without, Added, AppOf, CtxOf;
    FindsContext(s, e.pid, i);
    assert s.contexts[i] in s.contexts;
  }

  lemma DeathCountsNot(s: Snapshot, e: Event, isNWebSpawn: bool, t: Snapshot)
    requires e.ChildDied? && t == Died(s, e.pid, e.status, e.bySignal, e.hooks, isNWebSpawn) && !EndsSpawning(s, e)
    ensures t.lastDiedAppId == s.lastDiedAppId && t.crashTimes == s.crashTimes && t.running == s.running
  {
    hide KilledAtStop, KilledWith, Latest, Without, Added, AppOf, CtxOf;
    FirstCtx(s.contexts, e.pid);
    FirstApp(s.apps, e.pid);
    var i := CtxOf(s.contexts, e.pid);
    assert i < |s.contexts| ==> s.contexts[i] in s.contexts;
  }

  /** What an event does to the crash counter, and when the spawner goes on. */
  lemma StepCrashes(s: Snapshot, e: Event, n: nat, isNWebSpawn: bool, t: Snapshot)
    requires Step(s, e, n, isNWebSpawn, t) && Orderly(s)
    ensures !EndsSpawning(s, e) ==>
              && t.crashTimes == s.crashTimes && t.lastDiedAppId == s.lastDiedAppId
              && (t.running <==> s.running && !e.Terminate?)
    ensures EndsSpawning(s, e) && !e.bySignal ==> t.crashTimes == 0 && t.running == s.running
    ensures forall id :: DiesSpawning(s, e, id) ==>
              && t.lastDiedAppId == id && t.crashTimes == (if id == s.lastDiedAppId + 1 then s.crashTimes + 1 else 1)
              && (t.running <==> s.running && t.crashTimes < 5)
  {
    hide Grown, Chosen, Sacrificed, Refilled, Reserve, NewReserve, KilledAtStop, KilledWith, Latest, Kept, Sum, Inserted,
      Without, Added, SameButOwn, Unlocking, AppOf, ClientOf, CtxOf, Prepared, Died, Orderly;
    if EndsSpawning(s, e) {
      var c :| c in s.contexts && c.spawning && c.pid == e.pid;
      var i :| 0 <= i < |s.contexts| && s.contexts[i] == c;
      DeathCounts(s, i, e, isNWebSpawn, t);
      forall id | DiesSpawning(s, e, id)
        ensures id == c.id
      {
        var d :| d in s.contexts && d.id == id && d.spawning && d.pid == e.pid;
        OnlyChild(s, c, d);
      }
    } else if e.ChildDied? {
      DeathCountsNot(s, e, isNWebSpawn, t);
    }
  }

  lemma OnlyChild(s: Snapshot, c: Ctx, d: Ctx)
    requires Orderly(s) && c in s.contexts && d in s.contexts && c.pid == d.pid
    ensures c == d
  {
    var i :| 0 <= i < |s.contexts| && s.contexts[i] == c;
    var j :| 0 <= j < |s.contexts| && s.contexts[j] == d;
    FindsContext(s, c.pid, i);
    FindsContext(s, c.pid, j);
  }

  // ------------------------------------------------------------------------- whole runs

  /** A spawner that runs has counted fewer than five deaths. */
  lemma {:induction false} FewDeathsSoFar(trace: seq<Snapshot>, events: seq<Event>, isNWebSpawn: bool, k: nat)
    requires IsTrace(trace, events, isNWebSpawn) && k < |trace|
    ensures trace[k].running ==> trace[k].crashTimes < 5
    decreases k
  {
    hide Step, Orderly, EndsSpawning, DiesSpawning;
    if 0 < k {
      FewDeathsSoFar(trace, events, isNWebSpawn, k - 1);
      StepCrashes(trace[k - 1], events[k - 1], k - 1, isNWebSpawn, trace[k]);
      SignalOrNot(trace[k - 1], events[k - 1]);
    }
  }

  /** Whose child has died. */
  lemma SignalOrNot(s: Snapshot, e: Event)
    ensures EndsSpawning(s, e) ==> e.ChildDied? && (e.bySignal ==> exists id :: DiesSpawning(s, e, id))
    ensures forall id :: DiesSpawning(s, e, id) ==> EndsSpawning(s, e) && e.bySignal
  {
    if EndsSpawning(s, e) && e.bySignal {
      var c :| c in s.contexts && c.spawning && c.pid == e.pid;
      assert DiesSpawning(s, e, c.id);
    }
  }

  /** A row of deaths as the events go on. */
  lemma RowGoesOn(trace: seq<Snapshot>, events: seq<Event>, js: seq<nat>, first: int, k: nat)
    requires InARow(trace, events, js, first, k) && k < |trace| - 1
    ensures !EndsSpawning(trace[k], events[k]) ==> InARow(trace, events, js, first, k + 1)
    ensures DiesSpawning(trace[k], events[k], first + |js|) ==> InARow(trace, events, js + [k], first, k + 1)
    ensures forall id :: DiesSpawning(trace[k], events[k], id) ==> InARow(trace, events, [k], id, k + 1)
  {
    hide EndsSpawning, DiesSpawning;
    assert forall j :: j in js ==> j in js + [k];
  }

  lemma NoRow(trace: seq<Snapshot>, events: seq<Event>, first: int, k: nat)
    requires k < |trace| <= |events| + 1
    ensures InARow(trace, events, [], first, k)
  {
  }

  /** The same, backwards. */
  lemma RowBefore(trace: seq<Snapshot>, events: seq<Event>, js: seq<nat>, first: int, k: nat)
    requires InARow(trace, events, js, first, k) && js != []
    ensures var last := |js| - 1;
            && 0 < k < |trace|
            && if js[last] == k - 1
               then DiesSpawning(trace[k - 1], events[k - 1], first + last) && InARow(trace, events, js[..last], first, k - 1)
               else InARow(trace, events, js, first, k - 1) && !EndsSpawning(trace[k - 1], events[k - 1])
  {
    hide EndsSpawning, DiesSpawning;
    var last := |js| - 1;
    assert forall j :: j in js && j != js[last] ==> j in js[..last];
    assert js[last] != k - 1 ==> k - 1 !in js;
  }

  /** The deaths the counter stands for: there are that many in a row, and the last is that of the recorded id. */
  lemma {:induction false} CountedDeaths(trace: seq<Snapshot>, events: seq<Event>, isNWebSpawn: bool, k: nat)
    returns (js: seq<nat>)
    requires IsTrace(trace, events, isNWebSpawn) && k < |trace|
    ensures |js| == trace[k].crashTimes && InARow(trace, events, js, trace[k].lastDiedAppId - |js| + 1, k)
    ensures js != [] && 0 < k && EndsSpawning(trace[k - 1], events[k - 1]) ==> js[|js| - 1] == k - 1
    decreases k
  {
    hide Step, Orderly, EndsSpawning, DiesSpawning;
    js := [];
    if 0 < k {
      js := CountedDeaths(trace, events, isNWebSpawn, k - 1);
      js := OneEventMore(trace, events, isNWebSpawn, k - 1, js);
    }
  }

  lemma OneEventMore(trace: seq<Snapshot>, events: seq<Event>, isNWebSpawn: bool, k: nat, js: seq<nat>)
    returns (now: seq<nat>)
    requires IsTrace(trace, events, isNWebSpawn) && k < |trace| - 1
    requires |js| == trace[k].crashTimes && InARow(trace, events, js, trace[k].lastDiedAppId - |js| + 1, k)
    ensures |now| == trace[k + 1].crashTimes && InARow(trace, events, now, trace[k + 1].lastDiedAppId - |now| + 1, k + 1)
    ensures now != [] && EndsSpawning(trace[k], events[k]) ==> now[|now| - 1] == k
  {
    hide Step, Orderly, EndsSpawning, DiesSpawning, InARow;
    var s, e, first := trace[k], events[k], trace[k].lastDiedAppId - |js| + 1;
    StepCrashes(s, e, k, isNWebSpawn, trace[k + 1]);
    SignalOrNot(s, e);
    RowGoesOn(trace, events, js, first, k);
    now := js;
    if EndsSpawning(s, e) {
      if e.bySignal {
        var id :| DiesSpawning(s, e, id);
        now := if id == s.lastDiedAppId + 1 then js + [k] else [k];
      } else {
        now := [];
        NoRow(trace, events, trace[k + 1].lastDiedAppId + 1, k + 1);
      }
    }
  }

  /** Deaths in a row are counted, all of them. */
  lemma {:induction false} DeathsAreCounted(trace: seq<Snapshot>, events: seq<Event>, isNWebSpawn: bool, js: seq<nat>,
                                            first: int, k: nat)
    requires IsTrace(trace, events, isNWebSpawn) && InARow(trace, events, js, first, k) && js != []
    ensures |js| <= trace[k].crashTimes && trace[k].lastDiedAppId == first + |js| - 1
    decreases k
  {
    hide Step, Orderly, EndsSpawning, DiesSpawning, InARow;
    RowBefore(trace, events, js, first, k);
    StepCrashes(trace[k - 1], events[k - 1], k - 1, isNWebSpawn, trace[k]);
    var last := |js| - 1;
    if js[last] != k - 1 {
      DeathsAreCounted(trace, events, isNWebSpawn, js, first, k - 1);
    } else if 0 < last {
      DeathsAreCounted(trace, events, isNWebSpawn, js[..last], first, k - 1);
    }
  }

  /** Event `k - 1` stops the spawner exactly when it is SIGTERM or completes five deaths in a row. */
  lemma StopsExactly(trace: seq<Snapshot>, events: seq<Event>, isNWebSpawn: bool, k: nat)
    requires IsTrace(trace, events, isNWebSpawn) && 0 < k < |trace|
    ensures !trace[k].running <==>
            || events[k - 1].Terminate?
            || exists js: seq<nat>, first: int :: InARow(trace, events, js, first, k) && |js| == 5 && js[4] == k - 1
  {
    hide Step, Orderly, EndsSpawning, DiesSpawning, InARow;
    StepCrashes(trace[k - 1], events[k - 1], k - 1, isNWebSpawn, trace[k]);
    SignalOrNot(trace[k - 1], events[k - 1]);
    FewDeathsSoFar(trace, events, isNWebSpawn, k - 1);
    FewDeathsSoFar(trace, events, isNWebSpawn, k);
    var counted := CountedDeaths(trace, events, isNWebSpawn, k);
    forall js: seq<nat>, first: int | InARow(trace, events, js, first, k) && |js| == 5
      ensures 5 <= trace[k].crashTimes
    {
      DeathsAreCounted(trace, events, isNWebSpawn, js, first, k);
    }
  }
}
