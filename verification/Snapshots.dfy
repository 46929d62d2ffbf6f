/**
  The spawner as a machine over plain values: what it records between two events, and what an event
  makes of it. The handlers are proved to do exactly this.
*/
module Snapshots {
  import opened AppMgr
  import opened Books
  import opened Tally
  import opened Wrappers

  datatype Snapshot =
    Snapshot(contexts: seq<Ctx>, apps: seq<App>, died: seq<App>, reservedPid: int, requestId: nat,
             requests: multiset<nat>, answered: multiset<nat>, dropped: multiset<nat>,
             used: set<int>, children: set<int>, excused: set<int>,
             signalled: set<int>, crashTimes: nat, lastDiedAppId: nat, running: bool)

  ghost function Snap(mgr: AppSpawnMgr): Snapshot
    reads mgr`appSpawnQueue, mgr`appQueue, mgr`diedQueue, mgr`reservedPid, mgr`requestId
    reads mgr`requests, mgr`answered, mgr`dropped, mgr`signalled, mgr`crashTimes, mgr`lastDiedAppId, mgr`running
    reads mgr.kernel`used, mgr.kernel`children, mgr.kernel`excused
  {
    Snapshot(mgr.appSpawnQueue, mgr.appQueue, mgr.diedQueue, mgr.reservedPid, mgr.requestId,
             mgr.requests, mgr.answered, mgr.dropped, mgr.kernel.used, mgr.kernel.children, mgr.kernel.excused,
             mgr.signalled, mgr.crashTimes, mgr.lastDiedAppId, mgr.running)
  }

  /** What the laws come to for the records alone: contexts have rising ids, and every context, every process
      record and the pool a child of its own. */
  ghost predicate Orderly(s: Snapshot) {
    && (forall c :: c in s.contexts ==>
          0 < c.id <= s.requestId && 0 < c.pid && c.pid != s.reservedPid && c.message.Some? && !c.settled)
    && (forall i, j :: 0 <= i < j < |s.contexts| ==> s.contexts[i].id < s.contexts[j].id)
    && (forall i, j :: 0 <= i < j < |s.contexts| ==> s.contexts[i].pid != s.contexts[j].pid)
    && (forall a :: a in s.apps ==> 0 < a.pid && a.pid != s.reservedPid && forall c :: c in s.contexts ==> c.pid != a.pid)
    && (forall i, j :: 0 <= i < j < |s.apps| ==> s.apps[i].pid < s.apps[j].pid)
  }

  // ------------------------------------------------------------------------- what the hooks meet with

  /** A process in the control group of one that has died. */
  datatype Stray = Stray(pid: int, killOk: bool, device: Device)

  /** What the APP_DIED, APP_CLEANUP and SPAWN_ABORT hooks meet with, by pid: the counts the kernel does
      not lower, the control groups, and the device for kill reasons. */
  datatype Hooks =
    Hooks(stuckTokens: set<int>, stuckUids: set<int>, groups: map<int, seq<Stray>>, devices: map<int, Device>)
  {
    predicate Token(pid: int) {
      pid !in stuckTokens
    }

    predicate Uid(pid: int) {
      pid !in stuckUids
    }

    predicate SpmWorks() {
      stuckTokens == {} && stuckUids == {}
    }

    function Group(pid: int): seq<Stray> {
      if pid in groups then groups[pid] else []
    }

    function DeviceFor(pid: int): Device {
      if pid in devices then devices[pid] else Device(false, false)
    }
  }

  /** The processes of a control group that KillProcessesByCGroup kills: not the dead one, and none that
      has a record. The list ends at the first line that is no pid. */
  function Killed(group: seq<Stray>, dead: int, apps: seq<App>): set<int> {
    if group == [] || group[0].pid <= 0 then {}
    else
      (if Spared(group[0], dead, apps) then {} else {group[0].pid}) + Killed(group[1..], dead, apps)
  }

  predicate Spared(stray: Stray, dead: int, apps: seq<App>) {
    stray.pid == dead || AppOf(apps, stray.pid) < |apps| || !stray.killOk
  }

  /** The APP_DIED hook of the record of `pid`: nwebspawn has no control groups. */
  function KilledWith(pid: int, apps: seq<App>, hooks: Hooks, isNWebSpawn: bool): set<int> {
    if isNWebSpawn then {} else Killed(hooks.Group(pid), pid, apps)
  }

  /** All that TraversalSpawnedProcess with AppQueueDestroyProc kills. */
  function KilledAtStop(apps: seq<App>, hooks: Hooks, isNWebSpawn: bool): set<int> {
    if apps == [] then {}
    else KilledWith(apps[0].pid, apps, hooks, isNWebSpawn) + {apps[0].pid} + KilledAtStop(apps[1..], hooks, isNWebSpawn)
  }

  // ------------------------------------------------------------------------- what events do

  /** Context `i` is answered and goes. */
  function Ended(s: Snapshot, i: nat): Snapshot
    requires i < |s.contexts|
  {
    s.(contexts := Without(s.contexts, i), answered := Added(s.answered, RequestOf(s.contexts[i])))
  }

  /** The same, and its child is no concern any more. */
  function EndedWithChild(s: Snapshot, i: nat): Snapshot
    requires i < |s.contexts|
  {
    Ended(s, i).(excused := s.excused + {s.contexts[i].pid})
  }

  /** The child of spawning context `i` has written its result. */
  function Responded(s: Snapshot, i: nat, result: int, usable: bool): Snapshot
    requires i < |s.contexts|
  {
    if result == 0 && usable then Ended(s, i).(apps := Inserted(s.apps, Record(s.contexts[i]))) else EndedWithChild(s, i)
  }

  /** The first context of a client, or the length of the queue. */
  function ClientOf(q: seq<Ctx>, client: nat): (i: nat)
    ensures i <= |q| && (i < |q| ==> q[i].id == client)
    ensures forall j :: 0 <= j < i ==> q[j].id != client
  {
    if q == [] || q[0].id == client then 0 else 1 + ClientOf(q[1..], client)
  }

  lemma ClientIs(q: seq<Ctx>, client: nat, i: nat)
    requires i <= |q| && (i < |q| ==> q[i].id == client) && forall j :: 0 <= j < i ==> q[j].id != client
    ensures ClientOf(q, client) == i
  {
    var j := ClientOf(q, client);
    assert !(j < i) && !(i < j);
  }

  /** The watcher of a client's context fires. */
  function Answers(s: Snapshot, client: nat, result: int, usable: bool): Snapshot {
    var i := ClientOf(s.contexts, client);
    if i == |s.contexts| then s
    else if s.contexts[i].spawning then Responded(s, i, result, usable)
    else EndedWithChild(s, i)
  }

  /** The timer of a client's context fires. */
  function TimedOut(s: Snapshot, client: nat): Snapshot {
    var i := ClientOf(s.contexts, client);
    if i == |s.contexts| then s else EndedWithChild(s, i)
  }

  /** ProcessChildProcessFd: a process has ended, its record stays until the child is reaped. */
  function PidFdFired(s: Snapshot, pid: int, hooks: Hooks, isNWebSpawn: bool): Snapshot {
    if AppOf(s.apps, pid) == |s.apps| then s
    else s.(excused := s.excused + KilledWith(pid, s.apps, hooks, isNWebSpawn))
  }

  /** SendMessageComplete: a process whose client could not be told of it is killed; its record stays. */
  function ResponseGone(s: Snapshot, pid: int, failed: bool): Snapshot {
    if failed && 0 < pid && AppOf(s.apps, pid) < |s.apps| then s.(excused := s.excused + {pid}) else s
  }

  const SIGKILL := 9

  /** AppspawpnDevicedebugKill: a signal for a process that may be debugged. */
  function Debugged(s: Snapshot, pid: int, debuggable: bool, signal: int, killOk: bool): Snapshot {
    if AppOf(s.apps, pid) < |s.apps| && debuggable && killOk && signal == SIGKILL then s.(excused := s.excused + {pid}) else s
  }

  /** The contexts that serve a connection, and the others. */
  function Serving(connection: nat): Ctx -> bool {
    (c: Ctx) => Serves(c, connection)
  }

  function NotServing(connection: nat): Ctx -> bool {
    (c: Ctx) => !Serves(c, connection)
  }

  predicate Serves(c: Ctx, connection: nat) {
    c.message.Some? && c.message.value.connection == connection
  }

  function PidsOf(q: seq<Ctx>): set<int> {
    set c | c in q :: c.pid
  }

  /** A connection closes: its requests are given up, their children are killed. */
  function Closed(s: Snapshot, connection: nat): Snapshot {
    var gone := Kept(s.contexts, Serving(connection));
    s.(contexts := Kept(s.contexts, NotServing(connection)), dropped := s.dropped + Sum(gone, CtxOwes),
       excused := s.excused + PidsOf(gone))
  }

  /** The end of the spawner: the reserved child and all processes are killed. */
  function Stopped(s: Snapshot, hooks: Hooks, isNWebSpawn: bool): Snapshot {
    Drained(s).(apps := [], excused := Drained(s).excused + KilledAtStop(s.apps, hooks, isNWebSpawn), running := false)
  }

  /** The reserved child is killed. */
  function Drained(s: Snapshot): Snapshot {
    if s.reservedPid > 0 then s.(reservedPid := 0, excused := s.excused + {s.reservedPid}) else s
  }

  /** The record of process `k` after its reference counts were lowered. */
  function Dead(a: App, status: int, hooks: Hooks): App {
    a.(exitStatus := status, tokenRef := a.tokenRef && !hooks.Token(a.pid), uidRef := a.uidRef && !hooks.Uid(a.pid))
  }

  /** The process of record `k` has died. */
  function Buried(s: Snapshot, k: nat, status: int, hooks: Hooks, isNWebSpawn: bool): Snapshot
    requires k < |s.apps|
  {
    s.(apps := Without(s.apps, k), died := if isNWebSpawn then Latest(s.died) + [Dead(s.apps[k], status, hooks)] else s.died,
       excused := s.excused + KilledWith(s.apps[k].pid, s.apps, hooks, isNWebSpawn))
  }

  /** How a death while spawning changes the crash history. */
  function Crashed(s: Snapshot, id: nat, bySignal: bool): Snapshot {
    if bySignal
    then s.(signalled := s.signalled + {id}, lastDiedAppId := id,
            crashTimes := if id == s.lastDiedAppId + 1 then s.crashTimes + 1 else 1)
    else s.(crashTimes := 0)
  }

  /** WaitChildDied: a spawning context whose child has died is answered; after too many deaths in a row
      the spawner stops. */
  function DiedWaiting(s: Snapshot, pid: int, bySignal: bool, hooks: Hooks, isNWebSpawn: bool): Snapshot {
    var i := CtxOf(s.contexts, pid);
    if i == |s.contexts| || s.contexts[i].message.None? || !s.contexts[i].spawning then s
    else
      var t := Crashed(Ended(s, i), s.contexts[i].id, bySignal);
      if t.crashTimes >= MAX_CRASH_TIME then Stopped(t, hooks, isNWebSpawn) else t
  }

  /** A child has died. */
  function Died(s: Snapshot, pid: int, status: int, bySignal: bool, hooks: Hooks, isNWebSpawn: bool): Snapshot {
    if pid <= 0 then s
    else
      var t := s.(children := s.children - {pid}, reservedPid := if s.reservedPid == pid then 0 else s.reservedPid);
      var k := AppOf(t.apps, pid);
      if k < |t.apps| then Buried(t, k, status, hooks, isNWebSpawn) else DiedWaiting(t, pid, bySignal, hooks, isNWebSpawn)
  }

  /** GetProcessTerminationStatus: the record of the dead is taken, or else the process is killed. */
  function Asked(s: Snapshot, pid: int, killOk: bool, exited: Option<int>): Snapshot {
    if pid <= 0 then s
    else if AppOf(s.died, pid) < |s.died| then s.(died := Without(s.died, AppOf(s.died, pid)))
    else if AppOf(s.apps, pid) == |s.apps| || !killOk then s
    else if exited.None? then s.(excused := s.excused + {pid})
    else s.(excused := s.excused + {pid}, children := s.children - {pid}, apps := Without(s.apps, AppOf(s.apps, pid)))
  }

  /** The status the client is told. */
  function StatusOf(s: Snapshot, pid: int, killOk: bool, exited: Option<int>): int {
    if pid <= 0 then 0
    else if AppOf(s.died, pid) < |s.died| then s.died[AppOf(s.died, pid)].exitStatus
    else if AppOf(s.apps, pid) == |s.apps| || !killOk || exited.None? then -1
    else exited.value
  }

  /** A request is answered at once. */
  function AtOnce(s: Snapshot, request: nat): Snapshot {
    s.(requests := Added(s.requests, request), answered := Added(s.answered, request))
  }
}
