/**
  The spawner's records, what each of them holds, and the laws that keep the books balanced.

  A law relates totals: what the kernel has open, alive or counted on one side, what the queues
  hold on the other. `hand` is what no queue holds because a handler is at work on it.
*/
module Books {
  import opened Bytes
  import opened FdQueue
  import opened Images
  import opened Kernel
  import opened SpawnFds
  import opened Tally
  import opened Wrappers

  const MAX_DIED_PROCESS_COUNT := 5
  const MAX_CRASH_TIME := 5

  /** A received request: who waits for its answer, the token and uid it names, and its body. */
  datatype Message = Message(request: nat, connection: nat, token: Option<int>, uid: Option<int>, body: Bytes)

  /** Nothing but the body differs. */
  predicate SameRequest(m: Message, n: Message) {
    n == m.(body := n.body)
  }

  /** AppSpawningCtx. `settled` says of its message that it was answered or its connection went;
      `promoted`, that its child and reference counts are a process record's by now. */
  datatype Ctx = Ctx(id: nat, pid: int, fd0: int, fd1: int, spawning: bool, message: Option<Message>,
                     tokenRef: bool, uidRef: bool, settled: bool, promoted: bool)

  /** AppSpawnedProcess */
  datatype App = App(pid: int, token: int, uid: int, tokenRef: bool, uidRef: bool, exitStatus: int)

  /** The two ends of a pipe. */
  datatype Pipe = Pipe(readEnd: int, writeEnd: int)

  /** Whether the device for kill reasons can be opened, and whether there is memory for its node. */
  datatype Device = Device(openOk: bool, memory: bool)

  // ------------------------------------------------------------------------- what queue elements hold

  function PipeFds(p: Pipe): multiset<int> {
    LiveFd(p.readEnd) + LiveFd(p.writeEnd)
  }

  function CtxFds(c: Ctx): multiset<int> {
    LiveFd(c.fd0) + LiveFd(c.fd1)
  }

  /** The request a context still owes an answer. */
  function CtxOwes(c: Ctx): multiset<nat> {
    if c.message.Some? && !c.settled then multiset{c.message.value.request} else multiset{}
  }

  function CtxPid(c: Ctx): multiset<int> {
    if c.pid > 0 && !c.promoted then multiset{c.pid} else multiset{}
  }

  function AppPid(a: App): multiset<int> {
    multiset{a.pid}
  }

  function CtxToken(c: Ctx): multiset<int> {
    if c.tokenRef && !c.promoted && c.message.Some? && c.message.value.token.Some?
    then multiset{c.message.value.token.value}
    else multiset{}
  }

  function CtxUid(c: Ctx): multiset<int> {
    if c.uidRef && !c.promoted && c.message.Some? && c.message.value.uid.Some?
    then multiset{c.message.value.uid.value}
    else multiset{}
  }

  function AppToken(a: App): multiset<int> {
    if a.tokenRef then multiset{a.token} else multiset{}
  }

  function AppUid(a: App): multiset<int> {
    if a.uidRef then multiset{a.uid} else multiset{}
  }

  // ------------------------------------------------------------------------- the laws

  /** Descriptor ownership is linear: what is open is held by exactly one node or context, or is
      in the hands of the running handler. */
  ghost predicate FdLaw(open: multiset<int>, inNodes: multiset<int>, inCtxs: multiset<int>, hand: multiset<int>) {
    open == inNodes + inCtxs + hand
  }

  /** Every request was answered once, or its connection went, or a context owes its answer. */
  ghost predicate RequestLaw(requests: multiset<nat>, answered: multiset<nat>, dropped: multiset<nat>,
                             owed: multiset<nat>, hand: multiset<nat>) {
    requests == answered + dropped + owed + hand
  }

  function Reserved(pid: int): multiset<int> {
    if pid > 0 then multiset{pid} else multiset{}
  }

  /** Where pids are recorded. */
  function Places(reservedPid: int, inCtxs: multiset<int>, inApps: multiset<int>, hand: multiset<int>): multiset<int> {
    Reserved(reservedPid) + inCtxs + inApps + hand
  }

  /** No child is lost: one that was neither reaped nor killed and has not answered on or closed
      its pipe is recorded in exactly one place; and no pid is recorded twice. */
  ghost predicate ChildLaw(places: multiset<int>, used: set<int>, children: set<int>, excused: set<int>) {
    && (forall p :: p in places ==> places[p] == 1 && p in used)
    && (forall p :: p in children && p !in excused ==> p in places)
  }

  /** A reference count is the number of contexts and processes that hold it, and what has leaked:
      a count raised or kept after its holder forgot about it. */
  ghost predicate RefLaw(refs: multiset<int>, inCtxs: multiset<int>, inApps: multiset<int>, leaked: multiset<int>) {
    refs == inCtxs + inApps + leaked
  }

  /** Context ids rise along the queue. */
  ghost predicate IdLaw(ctxs: seq<Ctx>, requestId: nat) {
    && (forall i :: 0 <= i < |ctxs| ==> 0 < ctxs[i].id <= requestId)
    && (forall i, j :: 0 <= i < j < |ctxs| ==> ctxs[i].id < ctxs[j].id)
  }

  /** The crash counter tells the truth: the last `crashTimes` client ids up to the recorded one
      all died by a signal while spawning. */
  ghost predicate CrashLaw(crashTimes: nat, lastDiedAppId: nat, signalled: set<int>, requestId: nat) {
    && (forall id :: lastDiedAppId - crashTimes < id <= lastDiedAppId ==> id in signalled)
    && (forall id :: id in signalled ==> 0 < id <= requestId)
    && crashTimes <= lastDiedAppId <= requestId
  }

  ghost predicate SortedByPid(apps: seq<App>) {
    forall i, j :: 0 <= i < j < |apps| ==> apps[i].pid < apps[j].pid
  }

  lemma CtxGone(q: seq<Ctx>, i: nat)
    requires i < |q|
    ensures Sum(q, CtxFds) == Sum(Without(q, i), CtxFds) + CtxFds(q[i])
    ensures Sum(q, CtxOwes) == Sum(Without(q, i), CtxOwes) + CtxOwes(q[i])
    ensures Sum(q, CtxPid) == Sum(Without(q, i), CtxPid) + CtxPid(q[i])
    ensures Sum(q, CtxToken) == Sum(Without(q, i), CtxToken) + CtxToken(q[i])
    ensures Sum(q, CtxUid) == Sum(Without(q, i), CtxUid) + CtxUid(q[i])
  {
    hide Sum, CtxFds, CtxOwes, CtxPid, CtxToken, CtxUid;
    SumWithout(q, i, CtxFds);
    SumWithout(q, i, CtxOwes);
    SumWithout(q, i, CtxPid);
    SumWithout(q, i, CtxToken);
    SumWithout(q, i, CtxUid);
  }

  /** A context that holds nothing but a pid leaves the queue. */
  lemma ForgottenSums(q: seq<Ctx>, i: nat)
    requires i < |q| && q[i].fd0 < 0 && q[i].fd1 < 0 && (q[i].message.Some? ==> q[i].settled)
    requires q[i].promoted || (!q[i].tokenRef && !q[i].uidRef)
    ensures Sum(Without(q, i), CtxFds) == Sum(q, CtxFds) && Sum(Without(q, i), CtxOwes) == Sum(q, CtxOwes)
    ensures Sum(Without(q, i), CtxToken) == Sum(q, CtxToken) && Sum(Without(q, i), CtxUid) == Sum(q, CtxUid)
    ensures q[i].pid > 0 && !q[i].promoted ==> Sum(q, CtxPid) == Sum(Without(q, i), CtxPid) + multiset{q[i].pid}
    ensures q[i].pid <= 0 || q[i].promoted ==> Sum(Without(q, i), CtxPid) == Sum(q, CtxPid)
  {
    hide Sum;
    CtxGone(q, i);
  }

  /** A context that holds nothing joins the queue. */
  lemma CtxBlank(q: seq<Ctx>, c: Ctx)
    requires c == EMPTY.(id := c.id)
    ensures Sum(q + [c], CtxFds) == Sum(q, CtxFds)
    ensures Sum(q + [c], CtxOwes) == Sum(q, CtxOwes)
    ensures Sum(q + [c], CtxPid) == Sum(q, CtxPid)
    ensures Sum(q + [c], CtxToken) == Sum(q, CtxToken)
    ensures Sum(q + [c], CtxUid) == Sum(q, CtxUid)
  {
    hide Sum;
    SumBlank(q, c, CtxFds);
    SumBlank(q, c, CtxOwes);
    SumBlank(q, c, CtxPid);
    SumBlank(q, c, CtxToken);
    SumBlank(q, c, CtxUid);
  }

  /** A change that leaves what the context holds leaves the sums. */
  lemma CtxSame(q: seq<Ctx>, i: nat, c: Ctx)
    requires i < |q|
    ensures CtxFds(c) == CtxFds(q[i]) ==> Sum(q[i := c], CtxFds) == Sum(q, CtxFds)
    ensures CtxOwes(c) == CtxOwes(q[i]) ==> Sum(q[i := c], CtxOwes) == Sum(q, CtxOwes)
    ensures CtxPid(c) == CtxPid(q[i]) ==> Sum(q[i := c], CtxPid) == Sum(q, CtxPid)
    ensures CtxToken(c) == CtxToken(q[i]) ==> Sum(q[i := c], CtxToken) == Sum(q, CtxToken)
    ensures CtxUid(c) == CtxUid(q[i]) ==> Sum(q[i := c], CtxUid) == Sum(q, CtxUid)
  {
    hide Sum, CtxFds, CtxOwes, CtxPid, CtxToken, CtxUid;
    SumUpdate(q, i, c, CtxFds);
    SumUpdate(q, i, c, CtxOwes);
    SumUpdate(q, i, c, CtxPid);
    SumUpdate(q, i, c, CtxToken);
    SumUpdate(q, i, c, CtxUid);
  }

  lemma SettledSums(q: seq<Ctx>, i: nat, c: Ctx)
    requires i < |q| && c == q[i].(settled := true) && q[i].message.Some? && !q[i].settled
    ensures Sum(q, CtxOwes) == Added(Sum(q[i := c], CtxOwes), c.message.value.request)
    ensures Sum(q[i := c], CtxFds) == Sum(q, CtxFds) && Sum(q[i := c], CtxPid) == Sum(q, CtxPid)
    ensures Sum(q[i := c], CtxToken) == Sum(q, CtxToken) && Sum(q[i := c], CtxUid) == Sum(q, CtxUid)
  {
    hide Sum;
    CtxSame(q, i, c);
    SumLess(q, i, c, CtxOwes, multiset{c.message.value.request});
  }

  lemma GivenBackSums(q: seq<Ctx>, i: nat, c: Ctx)
    requires i < |q| && c == q[i].(message := None) && q[i].message.Some? && !q[i].settled
    requires !c.tokenRef && !c.uidRef
    ensures Sum(q, CtxOwes) == Added(Sum(q[i := c], CtxOwes), q[i].message.value.request)
    ensures Sum(q[i := c], CtxFds) == Sum(q, CtxFds) && Sum(q[i := c], CtxPid) == Sum(q, CtxPid)
    ensures Sum(q[i := c], CtxToken) == Sum(q, CtxToken) && Sum(q[i := c], CtxUid) == Sum(q, CtxUid)
  {
    hide Sum;
    CtxSame(q, i, c);
    SumLess(q, i, c, CtxOwes, multiset{q[i].message.value.request});
  }

  lemma TakenSums(q: seq<Ctx>, i: nat, c: Ctx, m: Message)
    requires i < |q| && c == q[i].(message := Some(m))
    requires q[i].message == None && !q[i].settled && !q[i].tokenRef && !q[i].uidRef
    ensures Sum(q[i := c], CtxOwes) == Added(Sum(q, CtxOwes), m.request)
    ensures Sum(q[i := c], CtxFds) == Sum(q, CtxFds) && Sum(q[i := c], CtxPid) == Sum(q, CtxPid)
    ensures Sum(q[i := c], CtxToken) == Sum(q, CtxToken) && Sum(q[i := c], CtxUid) == Sum(q, CtxUid)
  {
    hide Sum;
    CtxSame(q, i, c);
    SumMore(q, i, c, CtxOwes, multiset{m.request});
  }

  /** Closing one end of a context's pipe. */
  lemma EndClosed(q: seq<Ctx>, i: nat, c: Ctx, fd: int)
    requires i < |q| && 0 <= fd
    requires (q[i].fd0 == fd && c == q[i].(fd0 := -1)) || (q[i].fd1 == fd && c == q[i].(fd1 := -1))
    ensures Sum(q, CtxFds) == Sum(q[i := c], CtxFds) + multiset{fd}
    ensures Sum(q[i := c], CtxOwes) == Sum(q, CtxOwes) && Sum(q[i := c], CtxPid) == Sum(q, CtxPid)
    ensures Sum(q[i := c], CtxToken) == Sum(q, CtxToken) && Sum(q[i := c], CtxUid) == Sum(q, CtxUid)
  {
    hide Sum, CtxFds;
    EndFds(q[i], c, fd);
    CtxSame(q, i, c);
    SumLess(q, i, c, CtxFds, multiset{fd});
  }

  lemma EndFds(c: Ctx, d: Ctx, fd: int)
    requires 0 <= fd
    requires (c.fd0 == fd && d == c.(fd0 := -1)) || (c.fd1 == fd && d == c.(fd1 := -1))
    ensures CtxFds(c) == CtxFds(d) + multiset{fd}
  {
  }

  /** A context gets a pipe. */
  lemma PipeSums(q: seq<Ctx>, i: nat, c: Ctx)
    requires i < |q| && c == q[i].(fd0 := c.fd0, fd1 := c.fd1) && q[i].fd0 < 0 && q[i].fd1 < 0
    ensures Sum(q[i := c], CtxFds) == Sum(q, CtxFds) + PipeFds(Pipe(c.fd0, c.fd1))
    ensures Sum(q[i := c], CtxOwes) == Sum(q, CtxOwes) && Sum(q[i := c], CtxPid) == Sum(q, CtxPid)
    ensures Sum(q[i := c], CtxToken) == Sum(q, CtxToken) && Sum(q[i := c], CtxUid) == Sum(q, CtxUid)
  {
    hide Sum, CtxFds, PipeFds;
    CtxGetsPipe(q[i], c);
    CtxSame(q, i, c);
    SumMore(q, i, c, CtxFds, PipeFds(Pipe(c.fd0, c.fd1)));
  }

  lemma CtxGetsPipe(c: Ctx, d: Ctx)
    requires c.fd0 < 0 && c.fd1 < 0
    ensures CtxFds(d) == CtxFds(c) + PipeFds(Pipe(d.fd0, d.fd1))
  {
  }

  /** A context gets a child. */
  lemma PidSums(q: seq<Ctx>, i: nat, c: Ctx)
    requires i < |q| && c == q[i].(pid := c.pid) && q[i].pid <= 0 < c.pid && !c.promoted
    ensures Sum(q[i := c], CtxPid) == Sum(q, CtxPid) + multiset{c.pid}
    ensures Sum(q[i := c], CtxOwes) == Sum(q, CtxOwes) && Sum(q[i := c], CtxFds) == Sum(q, CtxFds)
    ensures Sum(q[i := c], CtxToken) == Sum(q, CtxToken) && Sum(q[i := c], CtxUid) == Sum(q, CtxUid)
  {
    hide Sum;
    CtxSame(q, i, c);
    SumMore(q, i, c, CtxPid, multiset{c.pid});
  }

  /** A context gives its child up. */
  lemma NoPidSums(q: seq<Ctx>, i: nat, c: Ctx)
    requires i < |q| && c == q[i].(pid := 0) && 0 < q[i].pid && !c.promoted
    ensures Sum(q, CtxPid) == Sum(q[i := c], CtxPid) + multiset{q[i].pid}
    ensures Sum(q[i := c], CtxOwes) == Sum(q, CtxOwes) && Sum(q[i := c], CtxFds) == Sum(q, CtxFds)
    ensures Sum(q[i := c], CtxToken) == Sum(q, CtxToken) && Sum(q[i := c], CtxUid) == Sum(q, CtxUid)
  {
    hide Sum;
    CtxSame(q, i, c);
    SumLess(q, i, c, CtxPid, multiset{q[i].pid});
  }

  /** Reference counts as a context names them. */
  predicate Named(c: Ctx) {
    c.tokenRef || c.uidRef ==> c.message.Some? && c.message.value.token.Some? && c.message.value.uid.Some?
  }

  lemma TokenRaised(q: seq<Ctx>, i: nat, c: Ctx)
    requires i < |q| && c == q[i].(tokenRef := true) && !c.promoted && !q[i].tokenRef
    requires c.message.Some? && c.message.value.token.Some?
    ensures Sum(q[i := c], CtxToken) == Plus(Sum(q, CtxToken), true, c.message.value.token.value)
    ensures Sum(q[i := c], CtxOwes) == Sum(q, CtxOwes) && Sum(q[i := c], CtxFds) == Sum(q, CtxFds)
    ensures Sum(q[i := c], CtxPid) == Sum(q, CtxPid) && Sum(q[i := c], CtxUid) == Sum(q, CtxUid)
  {
    hide Sum;
    CtxSame(q, i, c);
    SumMore(q, i, c, CtxToken, multiset{c.message.value.token.value});
  }

  lemma TokenLowered(q: seq<Ctx>, i: nat, c: Ctx)
    requires i < |q| && c == q[i].(tokenRef := false) && !c.promoted && q[i].tokenRef
    requires c.message.Some? && c.message.value.token.Some?
    ensures Sum(q, CtxToken) == Plus(Sum(q[i := c], CtxToken), true, c.message.value.token.value)
    ensures Sum(q[i := c], CtxOwes) == Sum(q, CtxOwes) && Sum(q[i := c], CtxFds) == Sum(q, CtxFds)
    ensures Sum(q[i := c], CtxPid) == Sum(q, CtxPid) && Sum(q[i := c], CtxUid) == Sum(q, CtxUid)
  {
    hide Sum;
    CtxSame(q, i, c);
    SumLess(q, i, c, CtxToken, multiset{c.message.value.token.value});
  }

  lemma UidRaised(q: seq<Ctx>, i: nat, c: Ctx)
    requires i < |q| && c == q[i].(uidRef := true) && !c.promoted && !q[i].uidRef
    requires c.message.Some? && c.message.value.uid.Some?
    ensures Sum(q[i := c], CtxUid) == Plus(Sum(q, CtxUid), true, c.message.value.uid.value)
    ensures Sum(q[i := c], CtxOwes) == Sum(q, CtxOwes) && Sum(q[i := c], CtxFds) == Sum(q, CtxFds)
    ensures Sum(q[i := c], CtxPid) == Sum(q, CtxPid) && Sum(q[i := c], CtxToken) == Sum(q, CtxToken)
  {
    hide Sum;
    CtxSame(q, i, c);
    SumMore(q, i, c, CtxUid, multiset{c.message.value.uid.value});
  }

  lemma UidLowered(q: seq<Ctx>, i: nat, c: Ctx)
    requires i < |q| && c == q[i].(uidRef := false) && !c.promoted && q[i].uidRef
    requires c.message.Some? && c.message.value.uid.Some?
    ensures Sum(q, CtxUid) == Plus(Sum(q[i := c], CtxUid), true, c.message.value.uid.value)
    ensures Sum(q[i := c], CtxOwes) == Sum(q, CtxOwes) && Sum(q[i := c], CtxFds) == Sum(q, CtxFds)
    ensures Sum(q[i := c], CtxPid) == Sum(q, CtxPid) && Sum(q[i := c], CtxToken) == Sum(q, CtxToken)
  {
    hide Sum;
    CtxSame(q, i, c);
    SumLess(q, i, c, CtxUid, multiset{c.message.value.uid.value});
  }

  /** A context's child and reference counts become a process record's. */
  lemma PromotedSums(q: seq<Ctx>, i: nat, c: Ctx)
    requires i < |q| && c == q[i].(promoted := true) && !q[i].promoted && 0 < c.pid
    requires c.message.Some? && Named(c)
    ensures Sum(q, CtxPid) == Sum(q[i := c], CtxPid) + multiset{c.pid}
    ensures Sum(q, CtxToken) == Plus(Sum(q[i := c], CtxToken), c.tokenRef, TokenRef(c))
    ensures Sum(q, CtxUid) == Plus(Sum(q[i := c], CtxUid), c.uidRef, UidRef(c))
    ensures Sum(q[i := c], CtxOwes) == Sum(q, CtxOwes) && Sum(q[i := c], CtxFds) == Sum(q, CtxFds)
  {
    hide Sum;
    CtxSame(q, i, c);
    SumLess(q, i, c, CtxPid, multiset{c.pid});
    SumLess(q, i, c, CtxToken, if c.tokenRef then multiset{TokenOf(c.message.value)} else multiset{});
    SumLess(q, i, c, CtxUid, if c.uidRef then multiset{UidOf(c.message.value)} else multiset{});
  }

  /** The record of a context's process: its token, uid and reference counts are those of the context. */
  function Record(c: Ctx): App {
    App(c.pid, TokenRef(c), UidRef(c), c.tokenRef, c.uidRef, 0)
  }

  function RequestOf(c: Ctx): nat {
    if c.message.Some? then c.message.value.request else 0
  }

  /** The first context with a pid, or the length of the queue. */
  function CtxOf(q: seq<Ctx>, pid: int): (i: nat)
    ensures i <= |q| && (i < |q| ==> q[i].pid == pid)
    ensures forall j :: 0 <= j < i ==> q[j].pid != pid
  {
    if q == [] || q[0].pid == pid then 0 else 1 + CtxOf(q[1..], pid)
  }

  lemma CtxIs(q: seq<Ctx>, pid: int, i: nat)
    requires i <= |q| && (i < |q| ==> q[i].pid == pid) && forall j :: 0 <= j < i ==> q[j].pid != pid
    ensures CtxOf(q, pid) == i
  {
    var j := CtxOf(q, pid);
    assert !(j < i) && !(i < j);
  }

  /** The first record of a pid, or the length of the queue. */
  function AppOf(apps: seq<App>, pid: int): (k: nat)
    ensures k <= |apps| && (k < |apps| ==> apps[k].pid == pid)
    ensures forall j :: 0 <= j < k ==> apps[j].pid != pid
  {
    if apps == [] || apps[0].pid == pid then 0 else 1 + AppOf(apps[1..], pid)
  }

  lemma AppIs(apps: seq<App>, pid: int, k: nat)
    requires k <= |apps| && (k < |apps| ==> apps[k].pid == pid) && forall j :: 0 <= j < k ==> apps[j].pid != pid
    ensures AppOf(apps, pid) == k
  {
    var j := AppOf(apps, pid);
    assert !(j < k) && !(k < j);
  }

  /** A record takes its place in the order of the pids. */
  function Inserted(apps: seq<App>, a: App): seq<App> {
    if apps == [] || a.pid < apps[0].pid then [a] + apps else [apps[0]] + Inserted(apps[1..], a)
  }

  lemma {:induction false} InsertedAt(apps: seq<App>, k: nat, a: App)
    requires k <= |apps| && (k < |apps| ==> a.pid < apps[k].pid)
    requires forall j :: 0 <= j < k ==> apps[j].pid <= a.pid
    ensures Inserted(apps, a) == apps[..k] + [a] + apps[k..]
  {
    if k == 0 {
      assert apps[..0] + [a] + apps[0..] == [a] + apps;
    } else {
      FirstBack(apps, k, a);
      assert forall j :: 0 <= j < k - 1 ==> apps[1..][j] == apps[j + 1];
      InsertedAt(apps[1..], k - 1, a);
    }
  }

  lemma FirstBack(apps: seq<App>, k: nat, a: App)
    requires 0 < k <= |apps|
    ensures [apps[0]] + (apps[1..][..k - 1] + [a] + apps[1..][k - 1..]) == apps[..k] + [a] + apps[k..]
  {
  }

  /** What is kept of a full queue of the dead when one more comes. */
  function Latest(died: seq<App>): seq<App> {
    if |died| >= MAX_DIED_PROCESS_COUNT then died[1..] else died
  }

  /** The token whose count a context holds, if it holds one. */
  function TokenRef(c: Ctx): int {
    if c.message.Some? then TokenOf(c.message.value) else 0
  }

  function UidRef(c: Ctx): int {
    if c.message.Some? then UidOf(c.message.value) else 0
  }

  function TokenOf(m: Message): int {
    if m.token.Some? then m.token.value else 0
  }

  function UidOf(m: Message): int {
    if m.uid.Some? then m.uid.value else 0
  }

  lemma StateSums(q: seq<Ctx>, i: nat, c: Ctx)
    requires i < |q| && c == q[i].(spawning := c.spawning)
    ensures Sum(q[i := c], CtxPid) == Sum(q, CtxPid)
    ensures Sum(q[i := c], CtxOwes) == Sum(q, CtxOwes) && Sum(q[i := c], CtxFds) == Sum(q, CtxFds)
    ensures Sum(q[i := c], CtxToken) == Sum(q, CtxToken) && Sum(q[i := c], CtxUid) == Sum(q, CtxUid)
  {
    hide Sum;
    CtxSame(q, i, c);
  }

  /** Another body changes nothing that a context holds. */
  lemma BodySums(q: seq<Ctx>, i: nat, c: Ctx)
    requires i < |q| && q[i].message.Some? && c.message.Some? && c == q[i].(message := c.message)
    requires SameRequest(q[i].message.value, c.message.value)
    ensures Sum(q[i := c], CtxPid) == Sum(q, CtxPid)
    ensures Sum(q[i := c], CtxOwes) == Sum(q, CtxOwes) && Sum(q[i := c], CtxFds) == Sum(q, CtxFds)
    ensures Sum(q[i := c], CtxToken) == Sum(q, CtxToken) && Sum(q[i := c], CtxUid) == Sum(q, CtxUid)
  {
    hide Sum;
    CtxSame(q, i, c);
  }

  // descriptors

  lemma FdsMove(open: multiset<int>, inNodes: multiset<int>, inCtxs: multiset<int>, hand: multiset<int>,
                m: multiset<int>)
    ensures FdLaw(open, inNodes, inCtxs, hand + m) <==> FdLaw(open, inNodes + m, inCtxs, hand)
    ensures FdLaw(open, inNodes, inCtxs, hand + m) <==> FdLaw(open, inNodes, inCtxs + m, hand)
    ensures FdLaw(open, inNodes, inCtxs, hand) <==> FdLaw(open + m, inNodes, inCtxs, hand + m)
  {
    Cancel(open, inNodes + inCtxs + hand, m);
    assert inNodes + inCtxs + hand + m == inNodes + inCtxs + (hand + m);
  }

  lemma PipeOpened(r: int, w: int)
    requires 0 <= r && 0 <= w
    ensures PipeFds(Pipe(r, w)) == multiset{r, w}
  {
  }

  lemma FdClosed(open: multiset<int>, inNodes: multiset<int>, inCtxs: multiset<int>, hand: multiset<int>, fd: int)
    requires FdLaw(open, inNodes, inCtxs, hand + multiset{fd})
    ensures fd in open && FdLaw(open - multiset{fd}, inNodes, inCtxs, hand)
  {
    assert (hand + multiset{fd})[fd] >= 1;
  }

  lemma PipeClosed(open: multiset<int>, inNodes: multiset<int>, inCtxs: multiset<int>, hand: multiset<int>, r: int, w: int)
    requires FdLaw(open, inNodes, inCtxs, hand + multiset{r, w})
    ensures r in open && w in open - multiset{r}
    ensures FdLaw(open - multiset{r} - multiset{w}, inNodes, inCtxs, hand)
  {
    assert multiset{r, w} == multiset{w} + multiset{r};
    assert hand + multiset{r, w} == (hand + multiset{w}) + multiset{r};
    FdClosed(open, inNodes, inCtxs, hand + multiset{w}, r);
    FdClosed(open - multiset{r}, inNodes, inCtxs, hand, w);
  }

  lemma DeviceOpened(open: multiset<int>, inNodes: multiset<int>, inCtxs: multiset<int>, hand: multiset<int>, fd: int)
    requires FdLaw(open, inNodes, inCtxs, hand) && 0 <= fd
    ensures FdLaw(open + multiset{fd}, inNodes + LiveFd(fd), inCtxs, hand)
  {
  }

  lemma NodeClosed(open: multiset<int>, inNodes: multiset<int>, inCtxs: multiset<int>, hand: multiset<int>,
                   openNow: multiset<int>, closed: multiset<int>)
    requires FdLaw(open, inNodes + closed, inCtxs, hand) && open == openNow + closed
    ensures FdLaw(openNow, inNodes, inCtxs, hand)
  {
    assert inNodes + closed + inCtxs + hand == inNodes + inCtxs + hand + closed;
    Cancel(openNow, inNodes + inCtxs + hand, closed);
  }

  lemma FdsHeld(open: multiset<int>, inNodes: multiset<int>, inCtxs: multiset<int>, hand: multiset<int>)
    requires FdLaw(open, inNodes, inCtxs, hand)
    ensures inCtxs <= open && inNodes <= open && hand <= open
  {
  }

  // children

  lemma ChildForked(places: multiset<int>, used: set<int>, children: set<int>, excused: set<int>, pid: int)
    requires ChildLaw(places, used, children, excused) && pid !in used
    ensures ChildLaw(places + multiset{pid}, used + {pid}, children + {pid}, excused)
  {
    assert pid !in places;
  }

  lemma ChildForgotten(places: multiset<int>, used: set<int>, children: set<int>, excused: set<int>, pid: int)
    requires ChildLaw(places + multiset{pid}, used, children, excused) && (pid in excused || pid !in children)
    ensures ChildLaw(places, used, children, excused)
  {
    assert forall p :: (places + multiset{pid})[p] == places[p] + if p == pid then 1 else 0;
  }

  lemma ChildExcused(places: multiset<int>, used: set<int>, children: set<int>, excused: set<int>, pid: int)
    requires ChildLaw(places, used, children, excused)
    ensures ChildLaw(places, used, children, excused + {pid}) && ChildLaw(places, used, children - {pid}, excused)
  {
  }

  lemma PlacesMove(reservedPid: int, inCtxs: multiset<int>, inApps: multiset<int>, hand: multiset<int>, pid: int)
    ensures Places(reservedPid, inCtxs + multiset{pid}, inApps, hand) ==
            Places(reservedPid, inCtxs, inApps, hand) + multiset{pid}
    ensures Places(reservedPid, inCtxs, inApps + multiset{pid}, hand) ==
            Places(reservedPid, inCtxs, inApps, hand) + multiset{pid}
    ensures Places(reservedPid, inCtxs, inApps, hand + multiset{pid}) ==
            Places(reservedPid, inCtxs, inApps, hand) + multiset{pid}
    ensures reservedPid > 0 ==> Places(reservedPid, inCtxs, inApps, hand) ==
                                Places(0, inCtxs, inApps, hand) + multiset{reservedPid}
    ensures reservedPid <= 0 ==> Places(reservedPid, inCtxs, inApps, hand) == Places(0, inCtxs, inApps, hand)
  {
  }

  // queue nodes

  lemma PipeNode(kind: int, pid: int, r: int, w: int)
    ensures NodeFds(FdNode(kind, pid, [r, w])) == PipeFds(Pipe(r, w))
  {
    assert [r, w][..1] == [r] && [r][..0] == [];
    assert Sum([r], LiveFd) == LiveFd(r);
  }

  lemma DeviceNode(kind: int, pid: int, fd: int)
    ensures NodeFds(FdNode(kind, pid, [fd])) == LiveFd(fd) == PipeFds(Pipe(fd, -1))
  {
    SumAppend([], fd, LiveFd);
    assert [] + [fd] == [fd];
  }

  lemma NodeFdOpen(nodes: seq<FdNode>, k: nat, open: multiset<int>)
    requires k < |nodes| && |nodes[k].fds| == 2 && 0 <= nodes[k].fds[1] && Sum(nodes, NodeFds) <= open
    ensures nodes[k].fds[1] in open
  {
    SumAtLeast(nodes, k, NodeFds);
    PipeNode(nodes[k].kind, nodes[k].pid, nodes[k].fds[0], nodes[k].fds[1]);
    assert nodes[k].fds == [nodes[k].fds[0], nodes[k].fds[1]];
    assert NodeFds(nodes[k])[nodes[k].fds[1]] >= 1;
  }

  /** The read end leaves a node. */
  lemma ReadEndLeaves(nodes: seq<FdNode>, k: nat, r: int, w: int)
    requires k < |nodes| && nodes[k].fds == [r, w]
    ensures Sum(nodes, NodeFds) == Sum(nodes[k := nodes[k].(fds := [-1, w])], NodeFds) + PipeFds(Pipe(r, -1))
  {
    PipeNode(nodes[k].kind, nodes[k].pid, r, w);
    PipeNode(nodes[k].kind, nodes[k].pid, -1, w);
    hide Sum, NodeFds;
    SumLess(nodes, k, nodes[k].(fds := [-1, w]), NodeFds, PipeFds(Pipe(r, -1)));
  }

  lemma NodeFdsSame(n: FdNode, pid: int)
    ensures NodeFds(n.(pid := pid)) == NodeFds(n)
  {
  }

  lemma FdsCleaned(open: multiset<int>, inNodes: multiset<int>, inCtxs: multiset<int>, hand: multiset<int>,
                   openNow: multiset<int>, inNodesNow: multiset<int>)
    requires FdLaw(open, inNodes, inCtxs, hand) && open + inNodesNow == openNow + inNodes
    ensures FdLaw(openNow, inNodesNow, inCtxs, hand)
  {
    assert inNodesNow + inCtxs + hand + inNodes == open + inNodesNow;
    Cancel(openNow, inNodesNow + inCtxs + hand, inNodes);
  }

  // reference counts

  /** Raising a count nobody records yet. */
  lemma RefRaised(refs: multiset<int>, inCtxs: multiset<int>, inApps: multiset<int>, leaked: multiset<int>,
                  raised: bool, e: int)
    requires RefLaw(refs, inCtxs, inApps, leaked)
    ensures RefLaw(Plus(refs, raised, e), inCtxs, inApps, Plus(leaked, raised, e))
  {
  }

  /** Lowering a count nobody records any more. */
  lemma RefLowered(refs: multiset<int>, inCtxs: multiset<int>, inApps: multiset<int>, leaked: multiset<int>,
                   lowered: bool, e: int)
    requires RefLaw(refs, inCtxs, inApps, leaked) && e in leaked
    ensures e in refs && RefLaw(Minus(refs, lowered, e), inCtxs, inApps, Minus(leaked, lowered, e))
  {
  }

  /** A context records a count. */
  lemma RefRecorded(refs: multiset<int>, inCtxs: multiset<int>, inApps: multiset<int>, leaked: multiset<int>,
                    recorded: bool, e: int)
    requires RefLaw(refs, inCtxs, inApps, leaked) && (recorded ==> e in leaked)
    ensures RefLaw(refs, Plus(inCtxs, recorded, e), inApps, Minus(leaked, recorded, e))
  {
  }

  /** A context forgets a count. */
  lemma RefForgotten(refs: multiset<int>, inCtxs: multiset<int>, inApps: multiset<int>, leaked: multiset<int>,
                     recorded: bool, e: int)
    requires RefLaw(refs, Plus(inCtxs, recorded, e), inApps, leaked)
    ensures RefLaw(refs, inCtxs, inApps, Plus(leaked, recorded, e))
  {
  }

  /** A process record forgets a count. */
  lemma AppRefForgotten(refs: multiset<int>, inCtxs: multiset<int>, inApps: multiset<int>, leaked: multiset<int>,
                        recorded: bool, e: int)
    requires RefLaw(refs, inCtxs, Plus(inApps, recorded, e), leaked)
    ensures RefLaw(refs, inCtxs, inApps, Plus(leaked, recorded, e))
  {
  }

  /** A process record takes over a count from a context. */
  lemma RefPromoted(refs: multiset<int>, inCtxs: multiset<int>, inApps: multiset<int>, leaked: multiset<int>,
                    recorded: bool, e: int)
    requires RefLaw(refs, Plus(inCtxs, recorded, e), inApps, leaked)
    ensures RefLaw(refs, inCtxs, Plus(inApps, recorded, e), leaked)
  {
  }

  // process records

  lemma AppTokenForgotten(apps: seq<App>, k: nat, a: App)
    requires k < |apps| && a == apps[k].(tokenRef := false)
    ensures Sum(apps, AppToken) == Plus(Sum(apps[k := a], AppToken), apps[k].tokenRef, a.token)
    ensures Sum(apps[k := a], AppPid) == Sum(apps, AppPid) && Sum(apps[k := a], AppUid) == Sum(apps, AppUid)
  {
    hide Sum;
    SumLess(apps, k, a, AppToken, if apps[k].tokenRef then multiset{a.token} else multiset{});
    SumLess(apps, k, a, AppPid, multiset{});
    SumLess(apps, k, a, AppUid, multiset{});
  }

  lemma AppUidForgotten(apps: seq<App>, k: nat, a: App)
    requires k < |apps| && a == apps[k].(uidRef := false)
    ensures Sum(apps, AppUid) == Plus(Sum(apps[k := a], AppUid), apps[k].uidRef, a.uid)
    ensures Sum(apps[k := a], AppPid) == Sum(apps, AppPid) && Sum(apps[k := a], AppToken) == Sum(apps, AppToken)
  {
    hide Sum;
    SumLess(apps, k, a, AppUid, if apps[k].uidRef then multiset{a.uid} else multiset{});
    SumLess(apps, k, a, AppPid, multiset{});
    SumLess(apps, k, a, AppToken, multiset{});
  }

  lemma AppExited(apps: seq<App>, k: nat, a: App)
    requires k < |apps| && a == apps[k].(exitStatus := a.exitStatus)
    ensures Sum(apps[k := a], AppPid) == Sum(apps, AppPid) && Sum(apps[k := a], AppToken) == Sum(apps, AppToken)
    ensures Sum(apps[k := a], AppUid) == Sum(apps, AppUid)
  {
    hide Sum;
    SumLess(apps, k, a, AppPid, multiset{});
    SumLess(apps, k, a, AppToken, multiset{});
    SumLess(apps, k, a, AppUid, multiset{});
  }

  lemma SortedSame(apps: seq<App>, k: nat, a: App)
    requires SortedByPid(apps) && k < |apps| && a.pid == apps[k].pid
    ensures SortedByPid(apps[k := a])
  {
  }

  lemma SortedWithout(apps: seq<App>, k: nat)
    requires SortedByPid(apps) && k < |apps|
    ensures SortedByPid(Without(apps, k))
  {
  }

  /** Taking out the record of a pid takes out all of them. */
  lemma OnlyRecordOf(apps: seq<App>, k: nat)
    requires SortedByPid(apps) && k < |apps|
    ensures forall a :: a in Without(apps, k) <==> a in apps && a.pid != apps[k].pid
  {
    hide Without;
    WithoutKey(apps, k, (a: App) => a.pid);
  }

  lemma AppGone(apps: seq<App>, k: nat)
    requires k < |apps|
    ensures Sum(apps, AppPid) == Plus(Sum(Without(apps, k), AppPid), true, apps[k].pid)
    ensures Sum(apps, AppToken) == Plus(Sum(Without(apps, k), AppToken), apps[k].tokenRef, apps[k].token)
    ensures Sum(apps, AppUid) == Plus(Sum(Without(apps, k), AppUid), apps[k].uidRef, apps[k].uid)
  {
    hide Sum;
    SumWithout(apps, k, AppPid);
    SumWithout(apps, k, AppToken);
    SumWithout(apps, k, AppUid);
  }

  lemma AppAdded(apps: seq<App>, k: nat, a: App)
    requires k <= |apps|
    ensures Sum(apps[..k] + [a] + apps[k..], AppPid) == Sum(apps, AppPid) + multiset{a.pid}
    ensures Sum(apps[..k] + [a] + apps[k..], AppToken) == Plus(Sum(apps, AppToken), a.tokenRef, a.token)
    ensures Sum(apps[..k] + [a] + apps[k..], AppUid) == Plus(Sum(apps, AppUid), a.uidRef, a.uid)
  {
    hide Sum;
    SumInserted(apps, k, a, AppPid);
    SumInserted(apps, k, a, AppToken);
    SumInserted(apps, k, a, AppUid);
  }

  lemma SortedInsert(apps: seq<App>, k: nat, a: App)
    requires SortedByPid(apps) && k <= |apps| && forall j :: 0 <= j < |apps| ==> apps[j].pid != a.pid
    requires forall j :: 0 <= j < k ==> apps[j].pid <= a.pid
    requires k < |apps| ==> a.pid < apps[k].pid
    ensures SortedByPid(apps[..k] + [a] + apps[k..])
    ensures multiset(apps[..k] + [a] + apps[k..]) == multiset(apps) + multiset{a}
  {
    assert apps == apps[..k] + apps[k..];
  }

  lemma AppToHand(reservedPid: int, inCtxs: multiset<int>, inApps: multiset<int>, hand: multiset<int>, pid: int)
    ensures Places(reservedPid, inCtxs, Plus(inApps, true, pid), hand) ==
            Places(reservedPid, inCtxs, inApps, Plus(hand, true, pid))
  {
  }

  lemma HandForked(reservedPid: int, inCtxs: multiset<int>, inApps: multiset<int>, hand: multiset<int>,
                   used: set<int>, children: set<int>, excused: set<int>, pid: int)
    requires ChildLaw(Places(reservedPid, inCtxs, inApps, hand), used, children, excused) && pid !in used
    ensures ChildLaw(Places(reservedPid, inCtxs, inApps, Plus(hand, true, pid)), used + {pid}, children + {pid}, excused)
  {
    PlacesMove(reservedPid, inCtxs, inApps, hand, pid);
    ChildForked(Places(reservedPid, inCtxs, inApps, hand), used, children, excused, pid);
  }

  /** Context `i` gets a new child. */
  lemma CtxForked(reservedPid: int, q: seq<Ctx>, i: nat, c: Ctx, inApps: multiset<int>, hand: multiset<int>,
                  used: set<int>, children: set<int>, excused: set<int>)
    requires ChildLaw(Places(reservedPid, Sum(q, CtxPid), inApps, hand), used, children, excused) && c.pid !in used
    requires i < |q| && c == q[i].(pid := c.pid) && q[i].pid <= 0 < c.pid && !c.promoted
    ensures ChildLaw(Places(reservedPid, Sum(q[i := c], CtxPid), inApps, hand), used + {c.pid}, children + {c.pid}, excused)
  {
    hide Sum, ChildLaw, Places;
    PidSums(q, i, c);
    PlacesMove(reservedPid, Sum(q, CtxPid), inApps, hand, c.pid);
    ChildForked(Places(reservedPid, Sum(q, CtxPid), inApps, hand), used, children, excused, c.pid);
  }

  lemma ReservedFromHand(reservedPid: int, pid: int, inCtxs: multiset<int>, inApps: multiset<int>, hand: multiset<int>)
    requires reservedPid <= 0 && (0 < pid ==> pid in hand)
    ensures Places(pid, inCtxs, inApps, Minus(hand, 0 < pid, pid)) == Places(reservedPid, inCtxs, inApps, hand)
  {
    var rest := Minus(hand, 0 < pid, pid);
    if 0 < pid {
      assert hand == rest + multiset{pid};
      PlacesMove(pid, inCtxs, inApps, rest, pid);
      PlacesMove(0, inCtxs, inApps, rest, pid);
    }
  }

  /** `reservedPid` names the child; it is idle, or it was given away. */
  lemma ReservedToHand(idle: int, reservedPid: int, inCtxs: multiset<int>, inApps: multiset<int>, hand: multiset<int>)
    requires idle == 0 || idle == reservedPid
    ensures Places(0, inCtxs, inApps, Plus(hand, 0 < idle, reservedPid)) == Places(idle, inCtxs, inApps, hand)
  {
    if 0 < idle {
      PlacesMove(idle, inCtxs, inApps, hand, idle);
      PlacesMove(0, inCtxs, inApps, hand, idle);
    }
  }

  lemma HandForgotten(reservedPid: int, inCtxs: multiset<int>, inApps: multiset<int>, hand: multiset<int>,
                      used: set<int>, children: set<int>, excused: set<int>, pid: int)
    requires ChildLaw(Places(reservedPid, inCtxs, inApps, hand), used, children, excused)
    requires pid in hand && (pid in excused || pid !in children)
    ensures ChildLaw(Places(reservedPid, inCtxs, inApps, Minus(hand, true, pid)), used, children, excused)
  {
    var rest := Minus(hand, true, pid);
    assert hand == rest + multiset{pid};
    PlacesMove(reservedPid, inCtxs, inApps, rest, pid);
    ChildForgotten(Places(reservedPid, inCtxs, inApps, rest), used, children, excused, pid);
  }

  lemma PidsDiffer(reservedPid: int, ctxs: seq<Ctx>, apps: seq<App>, hand: multiset<int>, used: set<int>,
                   children: set<int>, excused: set<int>, i: nat, j: nat)
    requires ChildLaw(Places(reservedPid, Sum(ctxs, CtxPid), Sum(apps, AppPid), hand), used, children, excused)
    requires i < |ctxs| && j < |ctxs| && i != j && 0 < ctxs[i].pid && !ctxs[i].promoted && !ctxs[j].promoted
    ensures ctxs[i].pid != ctxs[j].pid
  {
    hide Sum;
    SumOfTwo(ctxs, i, j, CtxPid);
    var pid := ctxs[i].pid;
    var places := Places(reservedPid, Sum(ctxs, CtxPid), Sum(apps, AppPid), hand);
    assert places[pid] >= Sum(ctxs, CtxPid)[pid];
    var both := CtxPid(ctxs[i]) + CtxPid(ctxs[j]);
    assert both[pid] == if ctxs[j].pid == pid then 2 else 1;
    assert pid in places;
  }

  lemma NotYetAnApp(reservedPid: int, ctxs: seq<Ctx>, apps: seq<App>, hand: multiset<int>, used: set<int>,
                    children: set<int>, excused: set<int>, i: nat)
    requires ChildLaw(Places(reservedPid, Sum(ctxs, CtxPid), Sum(apps, AppPid), hand), used, children, excused)
    requires i < |ctxs| && 0 < ctxs[i].pid && !ctxs[i].promoted
    ensures forall k :: 0 <= k < |apps| ==> apps[k].pid != ctxs[i].pid
  {
    hide Sum;
    var pid := ctxs[i].pid;
    forall k | 0 <= k < |apps|
      ensures apps[k].pid != pid
    {
      SumAtLeast(ctxs, i, CtxPid);
      SumAtLeast(apps, k, AppPid);
      var places := Places(reservedPid, Sum(ctxs, CtxPid), Sum(apps, AppPid), hand);
      assert places[pid] >= Sum(ctxs, CtxPid)[pid] + Sum(apps, AppPid)[pid];
      assert Sum(ctxs, CtxPid)[pid] >= 1;
      assert apps[k].pid == pid ==> Sum(apps, AppPid)[pid] >= 1 && pid in places;
    }
  }

  // what pre-forked children are sent

  /** A child is sent at most one message, and a fork message only for the context it serves. */
  ghost predicate MailLaw(ctxs: seq<Ctx>, requestId: nat, answersOn: map<int, nat>, readsFrom: map<int, nat>,
                          inbox: map<nat, seq<PipeMsg>>) {
    && (forall p, r :: p in answersOn && r in answersOn && p != r ==> answersOn[p] != answersOn[r])
    && (forall p, r :: p in readsFrom && r in readsFrom && p != r ==> readsFrom[p] != readsFrom[r])
    && (forall p :: p in readsFrom ==> |Inbox(inbox, readsFrom[p])| <= 1)
    && (forall p, m :: p in readsFrom && m in Inbox(inbox, readsFrom[p]) && m.ForkMsg? ==> m.client <= requestId)
    && (forall p, c :: p in readsFrom && c in ctxs && 0 < c.pid && ForkMsg(c.id) in Inbox(inbox, readsFrom[p])
                       ==> c.pid == p)
  }

  ghost predicate NoMailFor(id: nat, readsFrom: map<int, nat>, inbox: map<nat, seq<PipeMsg>>) {
    forall p :: p in readsFrom ==> ForkMsg(id) !in Inbox(inbox, readsFrom[p])
  }

  /** `r` and `w` were no open descriptors, they are the ends of a new pipe now. */
  ghost predicate NewPipe(r: int, w: int, open: multiset<int>, pipe: nat, before: map<int, End>, after: map<int, End>) {
    r !in open && w !in open && r != w && after == before[r := ReadEnd(pipe)][w := WriteEnd(pipe)]
  }

  /** Open descriptors stay what they are. */
  ghost predicate EndsKept(open: multiset<int>, before: map<int, End>, after: map<int, End>) {
    forall fd :: fd in open ==> (fd in before <==> fd in after) && (fd in before ==> after[fd] == before[fd])
  }

  /** A pipe no child knows of yet. */
  ghost predicate Unshared(pipe: nat, answersOn: map<int, nat>, readsFrom: map<int, nat>,
                           inbox: map<nat, seq<PipeMsg>>) {
    && (forall p :: p in answersOn ==> answersOn[p] != pipe)
    && (forall p :: p in readsFrom ==> readsFrom[p] != pipe)
    && pipe !in inbox
  }

  /** The two ends of one pipe. */
  predicate SamePipe(r: int, w: int, pipeOf: map<int, End>) {
    r in pipeOf && w in pipeOf && pipeOf[r].ReadEnd? && pipeOf[w] == WriteEnd(pipeOf[r].pipe)
  }

  /** `pid` is a new child. */
  predicate Born(pid: int, used: set<int>, children: set<int>, usedNow: set<int>, childrenNow: set<int>) {
    pid !in used && usedNow == used + {pid} && childrenNow == children + {pid}
  }

  /** There may be new children, and no other change. */
  ghost predicate Grown(used: set<int>, children: set<int>, usedNow: set<int>, childrenNow: set<int>) {
    used <= usedNow && childrenNow == children + (usedNow - used)
  }

  /** The pids handed out in the meantime: `own` for children that were to serve, `reserve` for a new
      reserved child. */
  predicate NewPids(own: set<int>, reserve: set<int>, used: set<int>, usedNow: set<int>) {
    own !! reserve !! used && usedNow == used + own + reserve
  }

  function PidIf(there: bool, pid: int): set<int> {
    if there then {pid} else {}
  }

  lemma NoneBorn(used: set<int>, children: set<int>)
    ensures Grown(used, children, used, children) && NewPids({}, {}, used, used)
  {
  }

  lemma OneBorn(pid: int, used: set<int>, children: set<int>, usedNow: set<int>, childrenNow: set<int>)
    requires Born(pid, used, children, usedNow, childrenNow)
    ensures Grown(used, children, usedNow, childrenNow)
    ensures NewPids({pid}, {}, used, usedNow) && NewPids({}, {pid}, used, usedNow)
  {
    assert usedNow - used == {pid};
  }

  lemma GrownTwice(used0: set<int>, children0: set<int>, used1: set<int>, children1: set<int>, used2: set<int>,
                   children2: set<int>)
    requires Grown(used0, children0, used1, children1) && Grown(used1, children1, used2, children2)
    ensures Grown(used0, children0, used2, children2)
  {
    assert used2 - used0 == (used1 - used0) + (used2 - used1);
  }

  /** First the child that is to serve, then the new reserved child. */
  lemma NewTwice(own: set<int>, reserve: set<int>, used0: set<int>, used1: set<int>, used2: set<int>)
    requires NewPids(own, {}, used0, used1) && NewPids({}, reserve, used1, used2)
    ensures NewPids(own, reserve, used0, used2)
  {
  }

  /** A node that has nothing to do with children, or not yet. */
  predicate NoChilds(n: FdNode, self: int) {
    n.pid <= 0 || n.pid == self
  }

  /** A child forked for a context answers on the context's pipe. */
  lemma DirectFork(open: multiset<int>, pipeOf: map<int, End>, nodes: seq<FdNode>, r: int, w: int, pid: int)
    requires SamePipe(r, w, pipeOf) && w in open && 0 <= w
    ensures var image := Image(Direct, nodes, r, w, OpenEnds(open, pipeOf));
            AnswerPipe(image, pid) == Some(pipeOf[r].pipe) && RequestPipe(image, pid) == None
  {
    DirectChild(Image(Direct, nodes, r, w, OpenEnds(open, pipeOf)), pid);
  }

  /** The nodes registered for a pre-forked child, which has no pid yet. */
  function ForkNodes(cr: int, cw: int, pr: int, pw: int, pid: int): seq<FdNode> {
    [FdNode(TYPE_CHILD_PARENT, pid, [cr, cw]), FdNode(TYPE_PARENT_CHILD, pid, [pr, pw])]
  }

  /** A pre-forked child answers on the one pipe that was made for it, and reads from the other. */
  lemma PreforkedFork(open: multiset<int>, pipeOf: map<int, End>, before: seq<FdNode>, fd0: int, fd1: int, cr: int,
                      cw: int, pr: int, pw: int, pid: int)
    requires SamePipe(cr, cw, pipeOf) && SamePipe(pr, pw, pipeOf) && cw in open && pr in open && 0 < pid && 0 <= cw
    requires cw != fd0 && cw != fd1 && pr != fd0 && pr != fd1 && forall n :: n in before ==> n.pid != pid
    ensures var image := Image(Preforked, before + ForkNodes(cr, cw, pr, pw, -1), fd0, fd1, OpenEnds(open, pipeOf));
            AnswerPipe(image, pid) == Some(pipeOf[cr].pipe) && RequestPipe(image, pid) == Some(pipeOf[pr].pipe)
  {
    hide AnswerPipe, RequestPipe, AnswerFd, RequestFd;
    var nodes := before + ForkNodes(cr, cw, pr, pw, -1);
    var image := Image(Preforked, nodes, fd0, fd1, OpenEnds(open, pipeOf));
    assert nodes[|nodes| - 2] == ForkNodes(cr, cw, pr, pw, -1)[0] && nodes[|nodes| - 1] == ForkNodes(cr, cw, pr, pw, -1)[1];
    PreforkedChild(image, pid, cr, cw, pr, pw);
  }

  lemma CtxFdOpen(q: seq<Ctx>, i: nat, open: multiset<int>)
    requires i < |q| && Sum(q, CtxFds) <= open
    ensures (0 <= q[i].fd0 ==> q[i].fd0 in open) && (0 <= q[i].fd1 ==> q[i].fd1 in open)
  {
    SumAtLeast(q, i, CtxFds);
    assert 0 <= q[i].fd0 ==> q[i].fd0 in CtxFds(q[i]);
    assert 0 <= q[i].fd1 ==> q[i].fd1 in CtxFds(q[i]);
  }

  /** What a node holds no context holds. */
  lemma NodeFdsApart(open: multiset<int>, nodes: seq<FdNode>, q: seq<Ctx>, hand: multiset<int>, k: nat, i: nat, fd: int)
    requires FdLaw(open, Sum(nodes, NodeFds), Sum(q, CtxFds), hand) && open[fd] <= 1
    requires k < |nodes| && i < |q| && 0 <= fd && fd in NodeFds(nodes[k])
    ensures fd in open && fd != q[i].fd0 && fd != q[i].fd1
  {
    SumAtLeast(nodes, k, NodeFds);
    SumAtLeast(q, i, CtxFds);
    hide Sum, NodeFds;
    assert Sum(nodes, NodeFds)[fd] >= NodeFds(nodes[k])[fd] >= 1;
    assert Sum(q, CtxFds)[fd] >= CtxFds(q[i])[fd];
  }

  /** Context `i` got a new child that answers on the context's pipe. */
  ghost predicate Forked(before: seq<Ctx>, after: seq<Ctx>, i: nat, used: set<int>, answeredOn: map<int, nat>,
                         answersOn: map<int, nat>, pipeOf: map<int, End>)
  {
    && i < |before| == |after|
    && after == before[i := before[i].(pid := after[i].pid)]
    && 0 < after[i].pid && after[i].pid !in used && before[i].fd0 in pipeOf
    && answersOn == answeredOn[after[i].pid := pipeOf[before[i].fd0].pipe]
  }

  /** The end of a pipe no child knows of yet. */
  ghost predicate NewEnd(fd: int, kernel: Kernel)
    reads kernel
  {
    && fd in kernel.pipeOf && kernel.pipeOf[fd].pipe < kernel.nextPipe
    && Unshared(kernel.pipeOf[fd].pipe, kernel.answersOn, kernel.readsFrom, kernel.inbox)
  }

  /** Of all children, only `pid` has been connected anew: to the pipe of `fd`. */
  ghost predicate Wired(pid: int, fd: int, pipeOf: map<int, End>, before: map<int, nat>, after: map<int, nat>) {
    fd in pipeOf && after == before[pid := pipeOf[fd].pipe]
  }

  lemma MailKept(q: seq<Ctx>, i: nat, c: Ctx, requestId: nat, answersOn: map<int, nat>, readsFrom: map<int, nat>,
                 inbox: map<nat, seq<PipeMsg>>)
    requires MailLaw(q, requestId, answersOn, readsFrom, inbox) && i < |q| && c.id == q[i].id
    requires c.pid == q[i].pid || c.pid <= 0 || NoMailFor(c.id, readsFrom, inbox)
    ensures MailLaw(q[i := c], requestId, answersOn, readsFrom, inbox)
  {
    hide Inbox;
    assert forall d :: d in q[i := c] ==> d in q || d == c;
    assert q[i] in q;
  }

  lemma MailNew(q: seq<Ctx>, c: Ctx, requestId: nat, answersOn: map<int, nat>, readsFrom: map<int, nat>,
                inbox: map<nat, seq<PipeMsg>>)
    requires MailLaw(q, requestId, answersOn, readsFrom, inbox) && c.pid == 0
    ensures MailLaw(q + [c], requestId + 1, answersOn, readsFrom, inbox)
    ensures NoMailFor(requestId + 1, readsFrom, inbox)
  {
    hide Inbox;
  }

  lemma MailWithout(q: seq<Ctx>, i: nat, requestId: nat, answersOn: map<int, nat>, readsFrom: map<int, nat>,
                    inbox: map<nat, seq<PipeMsg>>)
    requires MailLaw(q, requestId, answersOn, readsFrom, inbox) && i < |q|
    ensures MailLaw(Without(q, i), requestId, answersOn, readsFrom, inbox)
  {
    hide Inbox;
    assert forall d :: d in Without(q, i) ==> d in q;
  }

  /** A new child: it answers on a pipe of its own, and so it reads from one. */
  lemma MailForked(q: seq<Ctx>, requestId: nat, answersOn: map<int, nat>, readsFrom: map<int, nat>,
                   inbox: map<nat, seq<PipeMsg>>, pid: int, answers: nat, requests: Option<nat>)
    requires MailLaw(q, requestId, answersOn, readsFrom, inbox) && pid !in answersOn && pid !in readsFrom
    requires Unshared(answers, answersOn, readsFrom, inbox)
    requires requests.Some? ==> Unshared(requests.value, answersOn, readsFrom, inbox)
    ensures MailLaw(q, requestId, answersOn[pid := answers],
                    if requests.Some? then readsFrom[pid := requests.value] else readsFrom, inbox)
  {
    assert requests.Some? ==> Inbox(inbox, requests.value) == [];
    hide Inbox;
  }

  /** A fork message goes to the child of the context it names. */
  ghost predicate MeantFor(m: PipeMsg, pid: int, ctxs: seq<Ctx>, requestId: nat) {
    m.ForkMsg? ==> m.client <= requestId && forall c :: c in ctxs && 0 < c.pid && c.id == m.client ==> c.pid == pid
  }

  /** Child `pid` reads from the pipe whose write end is `fd`, and was sent nothing yet. */
  ghost predicate Awaits(pid: int, fd: int, pipeOf: map<int, End>, readsFrom: map<int, nat>,
                         inbox: map<nat, seq<PipeMsg>>) {
    fd in pipeOf && pid in readsFrom && pipeOf[fd] == WriteEnd(readsFrom[pid]) && Inbox(inbox, readsFrom[pid]) == []
  }

  /** Child `pid`, which was sent nothing before, was sent message `m`, or a piece of it, or nothing. */
  ghost predicate Mailed(pid: int, m: PipeMsg, sent: Sent, readsFrom: map<int, nat>, before: map<nat, seq<PipeMsg>>,
                         after: map<nat, seq<PipeMsg>>) {
    && pid in readsFrom
    && after == match sent
                case Whole => before[readsFrom[pid] := [m]]
                case Part => before[readsFrom[pid] := [Torn]]
                case Nothing => before
  }

  lemma NoMailKept(id: nat, readsFrom: map<int, nat>, inbox: map<nat, seq<PipeMsg>>, after: map<nat, seq<PipeMsg>>,
                   pid: int, uid: int, sent: Sent)
    requires NoMailFor(id, readsFrom, inbox) && Mailed(pid, UnlockMsg(uid), sent, readsFrom, inbox, after)
    ensures NoMailFor(id, readsFrom, after)
  {
    assert forall p :: p in readsFrom ==>
                         || Inbox(after, readsFrom[p]) == [UnlockMsg(uid)] || Inbox(after, readsFrom[p]) == [Torn]
                         || Inbox(after, readsFrom[p]) == Inbox(inbox, readsFrom[p]);
  }

  /** Sending to a child that was sent nothing before. */
  lemma MailSent(q: seq<Ctx>, requestId: nat, answersOn: map<int, nat>, readsFrom: map<int, nat>,
                 inbox: map<nat, seq<PipeMsg>>, pid: int, fd: int, pipeOf: map<int, End>, m: PipeMsg, sent: Sent)
    requires MailLaw(q, requestId, answersOn, readsFrom, inbox) && Awaits(pid, fd, pipeOf, readsFrom, inbox)
    requires MeantFor(m, pid, q, requestId)
    ensures fd in pipeOf
    ensures var after := Written(inbox, pipeOf[fd].pipe, m, sent);
            MailLaw(q, requestId, answersOn, readsFrom, after) && Mailed(pid, m, sent, readsFrom, inbox, after)
  {
    if !sent.Nothing? {
      var n := if sent.Whole? then m else Torn;
      var after := inbox[readsFrom[pid] := [n]];
      assert Inbox(inbox, readsFrom[pid]) + [n] == [n] && Written(inbox, pipeOf[fd].pipe, m, sent) == after;
      OneLetter(q, requestId, answersOn, readsFrom, inbox, pid, n);
    }
  }

  lemma OneLetter(q: seq<Ctx>, requestId: nat, answersOn: map<int, nat>, readsFrom: map<int, nat>,
                  inbox: map<nat, seq<PipeMsg>>, pid: int, m: PipeMsg)
    requires MailLaw(q, requestId, answersOn, readsFrom, inbox) && pid in readsFrom && MeantFor(m, pid, q, requestId)
    ensures MailLaw(q, requestId, answersOn, readsFrom, inbox[readsFrom[pid] := [m]])
  {
    var after := inbox[readsFrom[pid] := [m]];
    assert forall p :: p in readsFrom ==>
                         Inbox(after, readsFrom[p]) == if p == pid then [m] else Inbox(inbox, readsFrom[p]);
  }

  lemma IdSame(q: seq<Ctx>, i: nat, c: Ctx, requestId: nat)
    requires IdLaw(q, requestId) && i < |q| && c.id == q[i].id
    ensures IdLaw(q[i := c], requestId)
  {
  }

  lemma IdWithout(q: seq<Ctx>, i: nat, requestId: nat)
    requires IdLaw(q, requestId) && i < |q|
    ensures IdLaw(Without(q, i), requestId)
  {
  }

  lemma IdNew(q: seq<Ctx>, c: Ctx, requestId: nat)
    requires IdLaw(q, requestId) && c.id == requestId + 1
    ensures IdLaw(q + [c], requestId + 1)
  {
  }

  lemma CrashCounted(crashTimes: nat, lastDiedAppId: nat, signalled: set<int>, requestId: nat, id: nat)
    requires CrashLaw(crashTimes, lastDiedAppId, signalled, requestId) && 0 < id <= requestId
    ensures CrashLaw(0, lastDiedAppId, signalled, requestId)
    ensures CrashLaw(if id == lastDiedAppId + 1 then crashTimes + 1 else 1, id, signalled + {id}, requestId)
  {
  }

  lemma EmptyBooks()
    ensures FdLaw(multiset{}, Sum([], NodeFds), Sum([], CtxFds), Sum([], PipeFds))
    ensures RequestLaw(multiset{}, multiset{}, multiset{}, Sum([], CtxOwes), multiset{})
    ensures forall used, excused ::
              ChildLaw(Places(0, Sum([], CtxPid), Sum([], AppPid), multiset{}), used, {}, excused)
    ensures RefLaw(multiset{}, Sum([], CtxToken), Sum([], AppToken), multiset{})
    ensures RefLaw(multiset{}, Sum([], CtxUid), Sum([], AppUid), multiset{})
    ensures IdLaw([], 0) && CrashLaw(0, 0, {}, 0) && SortedByPid([])
  {
  }

  lemma RequestComes(requests: multiset<nat>, answered: multiset<nat>, dropped: multiset<nat>, owed: multiset<nat>,
                     hand: multiset<nat>, r: nat)
    requires RequestLaw(requests, answered, dropped, owed, hand)
    ensures RequestLaw(Added(requests, r), answered, dropped, owed, Added(hand, r))
  {
  }

  lemma RequestLeavesHand(requests: multiset<nat>, answered: multiset<nat>, dropped: multiset<nat>, owed: multiset<nat>,
                          hand: multiset<nat>, r: nat)
    requires RequestLaw(requests, answered, dropped, owed, hand) && r in hand
    ensures RequestLaw(requests, Added(answered, r), dropped, owed, Removed(hand, r))
    ensures RequestLaw(requests, answered, dropped, Added(owed, r), Removed(hand, r))
  {
  }

  lemma RequestGivenBack(requests: multiset<nat>, answered: multiset<nat>, dropped: multiset<nat>, owed: multiset<nat>,
                         hand: multiset<nat>, r: nat)
    requires RequestLaw(requests, answered, dropped, Added(owed, r), hand)
    ensures RequestLaw(requests, answered, dropped, owed, Added(hand, r))
  {
  }

  lemma RequestSettled(requests: multiset<nat>, answered: multiset<nat>, dropped: multiset<nat>, owed: multiset<nat>,
                       hand: multiset<nat>, r: nat)
    requires RequestLaw(requests, answered, dropped, Added(owed, r), hand)
    ensures RequestLaw(requests, Added(answered, r), dropped, owed, hand)
    ensures RequestLaw(requests, answered, Added(dropped, r), owed, hand)
  {
  }

  const EMPTY: Ctx := Ctx(0, 0, -1, -1, false, None, false, false, false, false)
}
