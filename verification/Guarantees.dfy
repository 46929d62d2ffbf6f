/**
  What holds of the spawner whenever it is between two events, in particular after every run:
  nothing is leaked, lost, shared or answered twice.
*/
module Guarantees {
  import opened AppMgr
  import opened Books
  import opened ChildProcess
  import opened FdQueue
  import opened History
  import opened Images
  import opened Kernel
  import opened Prefork
  import opened Routing
  import opened Snapshots
  import opened SpawnService
  import opened Tally
  import opened Wrappers

  /** Who holds a descriptor: a context, or a node of the queue. */
  datatype Holder = Context(i: nat) | Entry(k: nat)

  /** Where a child is: the pool, a context, a process record, or nowhere since an event. */
  datatype Place = Reserved | InContext(i: nat) | Running(k: nat) | SettledAt(event: nat)

  /** What became of a request: it was answered, it was given up at an event, or a context owes its answer. */
  datatype Fate = AnsweredOnce | GivenUpAt(event: nat) | OwedBy(i: nat)

  // ------------------------------------------------------------------------- descriptors

  /** Every open spawn descriptor has exactly one owner: one node of the queue or one context. */
  lemma DescriptorsHaveOneOwner(mgr: AppSpawnMgr, fd: int) returns (owner: Holder)
    requires AtRest(mgr) && fd in mgr.kernel.open
    ensures owner.Context? ==> owner.i < |mgr.appSpawnQueue| && fd in CtxFds(mgr.appSpawnQueue[owner.i])
    ensures owner.Entry? ==> owner.k < |mgr.fds.nodes| && fd in NodeFds(mgr.fds.nodes[owner.k])
    ensures forall i :: 0 <= i < |mgr.appSpawnQueue| && fd in CtxFds(mgr.appSpawnQueue[i]) ==> owner == Context(i)
    ensures forall k :: 0 <= k < |mgr.fds.nodes| && fd in NodeFds(mgr.fds.nodes[k]) ==> owner == Entry(k)
  {
    var inNodes, inCtxs := Sum(mgr.fds.nodes, NodeFds), Sum(mgr.appSpawnQueue, CtxFds);
    OpenIsRecorded(mgr, fd);
    hide Sum, CtxFds, NodeFds, AtRest;
    if inNodes[fd] == 1 {
      var k := OneHolder(mgr.fds.nodes, NodeFds, fd);
      NoHolder(mgr.appSpawnQueue, CtxFds, fd);
      owner := Entry(k);
    } else {
      var i := OneHolder(mgr.appSpawnQueue, CtxFds, fd);
      NoHolder(mgr.fds.nodes, NodeFds, fd);
      owner := Context(i);
    }
  }

  lemma OpenIsRecorded(mgr: AppSpawnMgr, fd: int)
    requires AtRest(mgr) && fd in mgr.kernel.open
    ensures Sum(mgr.fds.nodes, NodeFds)[fd] + Sum(mgr.appSpawnQueue, CtxFds)[fd] == 1
  {
    hide Sum, CtxFds, NodeFds, CtxOwes, CtxPid, RequestLaw, ChildLaw, RefLaw, IdLaw, MailLaw, CrashLaw, SortedByPid, Places,
      AllWaiting, PoolHolds;
    NoPipes();
    mgr.FdsAreOnce();
  }

  lemma NoPipes()
    ensures Sum([], PipeFds) == multiset{}
  {
  }

  // ------------------------------------------------------------------------- children and pipes

  /** No two contexts hold ends of one pipe. */
  lemma ContextsShareNoPipe(mgr: AppSpawnMgr, i: nat, j: nat)
    requires AtRest(mgr) && i < |mgr.appSpawnQueue| && j < |mgr.appSpawnQueue| && i != j
    ensures mgr.appSpawnQueue[i].fd0 in mgr.kernel.pipeOf && mgr.appSpawnQueue[j].fd0 in mgr.kernel.pipeOf
    ensures mgr.kernel.pipeOf[mgr.appSpawnQueue[i].fd0].pipe != mgr.kernel.pipeOf[mgr.appSpawnQueue[j].fd0].pipe
  {
    OneWaits(mgr.appSpawnQueue, i, mgr.kernel.pipeOf, mgr.kernel.answersOn);
    OneWaits(mgr.appSpawnQueue, j, mgr.kernel.pipeOf, mgr.kernel.answersOn);
    ChildrenDiffer(mgr, i, j);
    PipesDiffer(mgr.appSpawnQueue, mgr.requestId, mgr.kernel.answersOn, mgr.kernel.readsFrom, mgr.kernel.inbox,
                mgr.appSpawnQueue[i].pid, mgr.appSpawnQueue[j].pid);
  }

  lemma PipesDiffer(q: seq<Ctx>, requestId: nat, answersOn: map<int, nat>, readsFrom: map<int, nat>,
                    inbox: map<nat, seq<PipeMsg>>, p: int, r: int)
    requires MailLaw(q, requestId, answersOn, readsFrom, inbox) && p in answersOn && r in answersOn && p != r
    ensures answersOn[p] != answersOn[r]
  {
  }

  /** What the books say of a child is what follows from what it inherited. */
  lemma BooksFollowImages(mgr: AppSpawnMgr, pid: int)
    requires mgr.Valid()
    ensures pid in mgr.kernel.answersOn ==>
              pid in mgr.kernel.images && AnswerPipe(mgr.kernel.images[pid], pid) == Some(mgr.kernel.answersOn[pid])
    ensures pid in mgr.kernel.readsFrom ==>
              pid in mgr.kernel.images && RequestPipe(mgr.kernel.images[pid], pid) == Some(mgr.kernel.readsFrom[pid])
  {
    hide FdLaw, RequestLaw, ChildLaw, RefLaw, IdLaw, MailLaw, CrashLaw, SortedByPid, AnswerPipe, RequestPipe;
  }

  lemma OneMessage(mgr: AppSpawnMgr, pid: int, client: nat)
    requires AtRest(mgr) && pid in mgr.kernel.readsFrom
    ensures |Inbox(mgr.kernel.inbox, mgr.kernel.readsFrom[pid])| <= 1
    ensures ForkMsg(client) in Inbox(mgr.kernel.inbox, mgr.kernel.readsFrom[pid]) ==>
              forall c :: c in mgr.appSpawnQueue && c.id == client ==> c.pid == pid
  {
    hide FdLaw, RequestLaw, ChildLaw, RefLaw, IdLaw, CrashLaw, SortedByPid, Inbox, PoolHolds, mgr.kernel.Valid;
  }

  /** What a pre-forked child writes, and where, for the message it gets; a cold start that works goes its own
      way, but writes nowhere else. */
  function AnswersTo(msg: Option<PipeMsg>, work: Work, pipe: nat, cold: seq<Answer>): seq<Answer> {
    match msg
    case Some(UnlockMsg(_)) => [Answer(pipe, work.mounted)]
    case Some(ForkMsg(_)) =>
      if !work.lengthOk then []
      else if !work.messageOk then [Answer(pipe, APPSPAWN_MSG_INVALID)]
      else AnswersOf(work.course, pipe, cold)
    case _ => []
  }

  /** What is in the pipe after the course of a spawn: the first of its failures before the reply, which is not 0; 0
      exactly when there is none and the child is not appspawn's; nothing exactly when nothing went wrong and it
      is appspawn's. A cold start that works goes its own way, but writes nowhere else and no more than once. */
  ghost predicate TellsTheCourse(course: Course, pipe: nat, answers: seq<Answer>) {
    var early := course.clearEnv != 0 || course.spawning != 0 || course.preReply != 0;
    if course.clearEnv == 0 && course.coldStart == Some(0) then |answers| <= 1 && forall a :: a in answers ==> a.pipe == pipe
    else
      && (course.clearEnv != 0 ==> answers == [Answer(pipe, course.clearEnv)])
      && (course.clearEnv == 0 && course.spawning != 0 ==> answers == [Answer(pipe, course.spawning)])
      && (course.clearEnv == 0 && course.spawning == 0 && course.preReply != 0 ==> answers == [Answer(pipe, course.preReply)])
      && (answers == [Answer(pipe, 0)] <==> !early && !course.isAppSpawn)
      && (answers == [] <==> !early && course.run == 0 && course.isAppSpawn)
      && (!early && course.isAppSpawn && course.run != 0 ==> answers == [Answer(pipe, course.run)])
  }

  /** What is in the pipe after a pre-forked child got message `msg`: the result of the mount it was told to do; nothing
      for a message of a bad length, the code for an invalid message, or what the course of the spawn is. */
  ghost predicate TellsTheWork(msg: Option<PipeMsg>, work: Work, pipe: nat, answers: seq<Answer>) {
    match msg
    case Some(UnlockMsg(_)) => answers == [Answer(pipe, work.mounted)]
    case Some(ForkMsg(_)) =>
      if !work.lengthOk then answers == []
      else if !work.messageOk then answers == [Answer(pipe, 0xD000002)]
      else TellsTheCourse(work.course, pipe, answers)
    case _ => answers == []
  }

  /** `AnswersOf` says just this. */
  lemma CourseIsTold(course: Course, pipe: nat, cold: seq<Answer>)
    ensures TellsTheCourse(course, pipe, AnswersOf(course, pipe, cold))
  {
    hide Told;
    WhatIsTold(course);
  }

  /** What a child writes in the course of a spawn. */
  function AnswersOf(course: Course, pipe: nat, cold: seq<Answer>): seq<Answer> {
    if StartsCold(course) then if |cold| == 1 then [Answer(pipe, cold[0].result)] else []
    else match Told(course) case None => [] case Some(res) => [Answer(pipe, res)]
  }

  /** Routing, from both sides of the pipes. A pre-forked child reads one message, and there is no other for
      it. If that is the fork message of a client whose context waits, then the child is the context's, it
      took over the client id, and what it answers goes into the pipe whose read end is in this very
      context: one answer at most, and which one follows from how its work goes. */
  method ForkMessagesFindTheirContext(mgr: AppSpawnMgr, pid: int, image: Image, inbox: map<nat, seq<PipeMsg>>, work: Work)
    returns (child: Child, msg: Option<PipeMsg>)
    requires AtRest(mgr) && pid in mgr.kernel.readsFrom
    requires pid in mgr.kernel.images && image == mgr.kernel.images[pid] && inbox == mgr.kernel.inbox
    ensures fresh(child) && |child.answers| <= 1
    ensures Inbox(inbox, mgr.kernel.readsFrom[pid]) == if msg.Some? then [msg.value] else []
    ensures msg.Some? && msg.value.ForkMsg? && work.lengthOk ==> child.client == msg.value.client
    ensures msg.Some? && msg.value.ForkMsg? ==>
              forall c :: c in mgr.appSpawnQueue && c.id == msg.value.client ==> c.pid == pid
    ensures forall c :: c in mgr.appSpawnQueue && c.pid == pid ==>
              && c.fd0 in mgr.kernel.pipeOf && mgr.kernel.pipeOf[c.fd0].ReadEnd?
              && child.answers == AnswersTo(msg, work, mgr.kernel.pipeOf[c.fd0].pipe, child.answers)
              && TellsTheWork(msg, work, mgr.kernel.pipeOf[c.fd0].pipe, child.answers)
  {
    hide mgr.Valid, PoolHolds, AnswerPipe, RequestPipe, AllWaiting, Inbox, AnswersTo, TellsTheWork;
    BooksFollowImages(mgr, pid);
    RoleOf(image, pid);
    child := new Child(image, pid);
    msg := child.PreforkChildLoop(inbox, work);
    ghost var client := if msg.Some? && msg.value.ForkMsg? then msg.value.client else 0;
    OneMessage(mgr, pid, client);
    forall c | c in mgr.appSpawnQueue && c.pid == pid
      ensures Waiting(c, mgr.kernel.pipeOf, mgr.kernel.answersOn)
      ensures child.answers == AnswersTo(msg, work, mgr.kernel.answersOn[pid], child.answers)
      ensures TellsTheWork(msg, work, mgr.kernel.answersOn[pid], child.answers)
    {
      EachWaits(mgr, c);
      assert AnswerPipe(image, pid) == Some(mgr.kernel.answersOn[pid]);
      OneAnswer(child.answers, mgr.kernel.answersOn[pid]);
      AnswersToIs(msg, work, mgr.kernel.answersOn[pid], child.answers);
      WorkIsTold(msg, work, mgr.kernel.answersOn[pid], child.answers);
    }
  }

  lemma AnswersToIs(msg: Option<PipeMsg>, work: Work, pipe: nat, cold: seq<Answer>)
    ensures AnswersTo(msg, work, pipe, cold) ==
            match msg
            case Some(UnlockMsg(_)) => [Answer(pipe, work.mounted)]
            case Some(ForkMsg(_)) =>
              if !work.lengthOk then []
              else if !work.messageOk then [Answer(pipe, APPSPAWN_MSG_INVALID)]
              else AnswersOf(work.course, pipe, cold)
            case _ => []
  {
  }

  /** `AnswersTo` says just this. */
  lemma WorkIsTold(msg: Option<PipeMsg>, work: Work, pipe: nat, answers: seq<Answer>)
    requires answers == AnswersTo(msg, work, pipe, answers)
    ensures TellsTheWork(msg, work, pipe, answers)
  {
    hide AnswersOf, TellsTheCourse;
    CourseIsTold(work.course, pipe, answers);
  }

  lemma OneAnswer(answers: seq<Answer>, pipe: nat)
    requires |answers| <= 1 && forall a :: a in answers ==> a.pipe == pipe
    ensures answers == if |answers| == 1 then [Answer(pipe, answers[0].result)] else []
  {
    assert |answers| == 1 ==> answers[0] in answers;
  }

  lemma RoleOf(image: Image, pid: int)
    ensures RequestPipe(image, pid).Some? ==> image.role.Preforked?
  {
  }

  lemma EachWaits(mgr: AppSpawnMgr, c: Ctx)
    requires AtRest(mgr) && c in mgr.appSpawnQueue
    ensures Waiting(c, mgr.kernel.pipeOf, mgr.kernel.answersOn)
  {
    hide mgr.Valid, PoolHolds;
  }

  /** A child that was forked for a context answers on the context's pipe: on whatever course a spawn
      takes, and with whatever result a mount ends. */
  method SpawnedChildrenAnswerTheirContext(mgr: AppSpawnMgr, i: nat, image: Image, course: Course, mounts: bool, result: int)
    returns (child: Child)
    requires AtRest(mgr) && i < |mgr.appSpawnQueue| && image.role.Direct?
    requires mgr.appSpawnQueue[i].pid in mgr.kernel.images && image == mgr.kernel.images[mgr.appSpawnQueue[i].pid]
    ensures fresh(child) && |child.answers| <= 1 && mgr.appSpawnQueue[i].fd0 in mgr.kernel.pipeOf
    ensures var end := mgr.kernel.pipeOf[mgr.appSpawnQueue[i].fd0];
            && end.ReadEnd?
            && child.answers == (if mounts then [Answer(end.pipe, result)] else AnswersOf(course, end.pipe, child.answers))
            && (!mounts ==> TellsTheCourse(course, end.pipe, child.answers))
  {
    hide mgr.Valid, PoolHolds, AnswerPipe, RequestPipe, AllWaiting, TellsTheCourse;
    EachWaits(mgr, mgr.appSpawnQueue[i]);
    BooksFollowImages(mgr, mgr.appSpawnQueue[i].pid);
    child := new Child(image, mgr.appSpawnQueue[i].pid);
    if mounts {
      child.RunMount(result);
    } else {
      child.RunSpawned(course);
    }
    ghost var pipe := mgr.kernel.pipeOf[mgr.appSpawnQueue[i].fd0].pipe;
    assert AnswerPipe(image, child.pid) == Some(pipe);
    OneAnswer(child.answers, pipe);
    CourseIsTold(course, pipe, child.answers);
  }

  /** `mgr` is what a run has come to that left this trace. */
  ghost predicate Ran(mgr: AppSpawnMgr, trace: seq<Snapshot>, events: seq<Event>)
    reads mgr, mgr.kernel, mgr.fds
  {
    AtRest(mgr) && 0 < |trace| && IsTrace(trace, events, mgr.isNWebSpawn) && trace[|trace| - 1] == Snap(mgr)
  }

  /** No child is lost: whatever has happened, a living child is the reserved one, or a context's, or has a
      process record, and only one of these; or it has no place because an event of the run killed it or had
      the spawner give it up. */
  lemma NoChildIsLost(mgr: AppSpawnMgr, trace: seq<Snapshot>, events: seq<Event>, pid: int) returns (place: Place)
    requires Ran(mgr, trace, events) && pid in mgr.kernel.children
    ensures place.Reserved? ==> mgr.reservedPid == pid
    ensures place.InContext? ==> place.i < |mgr.appSpawnQueue| && mgr.appSpawnQueue[place.i].pid == pid
    ensures place.Running? ==> place.k < |mgr.appQueue| && mgr.appQueue[place.k].pid == pid
    ensures place.SettledAt? ==>
              && place.event < |trace| - 1
              && Settles(trace[place.event], events[place.event], mgr.isNWebSpawn, trace[place.event + 1], pid)
    ensures mgr.reservedPid == pid ==> place.Reserved?
    ensures forall i :: 0 <= i < |mgr.appSpawnQueue| && mgr.appSpawnQueue[i].pid == pid ==> place == InContext(i)
    ensures forall k :: 0 <= k < |mgr.appQueue| && mgr.appQueue[k].pid == pid ==> place == Running(k)
  {
    hide Sum, AtRest, AllWaiting, IsTrace, Settles, Recorded;
    OnePlace(mgr, pid);
    RecordedIs(mgr, pid);
    if Recorded(mgr, pid) == 1 {
      place := OneOfThree(mgr.reservedPid, mgr.appSpawnQueue, mgr.appQueue, pid);
    } else {
      NoPlace(mgr.reservedPid, mgr.appSpawnQueue, mgr.appQueue, pid);
      var j := ExcusedForAReason(trace, events, mgr.isNWebSpawn, |trace| - 1, pid);
      place := SettledAt(j);
    }
  }

  /** In how many places a pid is recorded. */
  ghost function Recorded(mgr: AppSpawnMgr, pid: int): nat
    reads mgr
  {
    (if mgr.reservedPid == pid then 1 else 0) + Sum(mgr.appSpawnQueue, CtxPid)[pid] + Sum(mgr.appQueue, AppPid)[pid]
  }

  lemma RecordedIs(mgr: AppSpawnMgr, pid: int)
    ensures Recorded(mgr, pid) == (if mgr.reservedPid == pid then 1 else 0) + Sum(mgr.appSpawnQueue, CtxPid)[pid]
                                  + Sum(mgr.appQueue, AppPid)[pid]
  {
  }

  lemma OneOfThree(reservedPid: int, q: seq<Ctx>, apps: seq<App>, pid: int) returns (place: Place)
    requires 0 < pid && (if reservedPid == pid then 1 else 0) + Sum(q, CtxPid)[pid] + Sum(apps, AppPid)[pid] == 1
    requires forall c :: c in q ==> 0 < c.pid && !c.promoted
    ensures !place.SettledAt? && (place.Reserved? <==> reservedPid == pid)
    ensures place.InContext? ==> place.i < |q| && q[place.i].pid == pid
    ensures place.Running? ==> place.k < |apps| && apps[place.k].pid == pid
    ensures forall i :: 0 <= i < |q| && q[i].pid == pid ==> place == InContext(i)
    ensures forall k :: 0 <= k < |apps| && apps[k].pid == pid ==> place == Running(k)
  {
    hide Sum;
    if reservedPid == pid {
      NoHolder(q, CtxPid, pid);
      NoHolder(apps, AppPid, pid);
      place := Reserved;
    } else if Sum(q, CtxPid)[pid] == 1 {
      var i := OneHolder(q, CtxPid, pid);
      NoHolder(apps, AppPid, pid);
      place := InContext(i);
    } else {
      var k := OneHolder(apps, AppPid, pid);
      NoHolder(q, CtxPid, pid);
      place := Running(k);
    }
  }

  lemma NoPlace(reservedPid: int, q: seq<Ctx>, apps: seq<App>, pid: int)
    requires 0 < pid && (if reservedPid == pid then 1 else 0) + Sum(q, CtxPid)[pid] + Sum(apps, AppPid)[pid] == 0
    requires forall c :: c in q ==> 0 < c.pid && !c.promoted
    ensures reservedPid != pid
    ensures forall i :: 0 <= i < |q| ==> q[i].pid != pid
    ensures forall k :: 0 <= k < |apps| ==> apps[k].pid != pid
  {
    hide Sum;
    NoHolder(q, CtxPid, pid);
    NoHolder(apps, AppPid, pid);
  }

  lemma OnePlace(mgr: AppSpawnMgr, pid: int)
    requires AtRest(mgr) && pid in mgr.kernel.children
    ensures 0 < pid && Recorded(mgr, pid) <= 1
    ensures pid !in mgr.kernel.excused ==> Recorded(mgr, pid) == 1
    ensures forall c :: c in mgr.appSpawnQueue ==> 0 < c.pid && !c.promoted
  {
    hide Sum, CtxFds, NodeFds, CtxOwes, CtxPid, AppPid, RequestLaw, FdLaw, RefLaw, IdLaw, MailLaw, CrashLaw, SortedByPid,
      PoolHolds;
    PidsArePositive(mgr);
    var places := Places(mgr.reservedPid, Sum(mgr.appSpawnQueue, CtxPid), Sum(mgr.appQueue, AppPid), multiset{});
    assert places[pid] == Recorded(mgr, pid);
    assert pid in places ==> places[pid] == 1;
  }

  // ------------------------------------------------------------------------- requests

  lemma PidsArePositive(mgr: AppSpawnMgr)
    requires mgr.Valid()
    ensures forall p :: p in mgr.kernel.children ==> 0 < p && p in mgr.kernel.used
  {
    hide FdLaw, RequestLaw, ChildLaw, RefLaw, IdLaw, MailLaw, CrashLaw, SortedByPid;
  }

  /** Every request was answered exactly once; or its own connection has closed since, and it was not
      answered; or exactly one context still owes the answer. */
  lemma EveryRequestOnce(mgr: AppSpawnMgr, trace: seq<Snapshot>, events: seq<Event>, r: nat) returns (fate: Fate)
    requires Ran(mgr, trace, events) && r < |trace| - 1 && events[r].IsRequest()
    ensures mgr.answered[r] == if fate.AnsweredOnce? then 1 else 0
    ensures mgr.dropped[r] == if fate.GivenUpAt? then 1 else 0
    ensures fate.GivenUpAt? ==>
              && r < fate.event < |trace| - 1 && events[fate.event].ConnectionClosed?
              && events[fate.event].connection == events[r].message.connection
    ensures fate.OwedBy? ==> fate.i < |mgr.appSpawnQueue| && r in CtxOwes(mgr.appSpawnQueue[fate.i])
    ensures forall i :: 0 <= i < |mgr.appSpawnQueue| && r in CtxOwes(mgr.appSpawnQueue[i]) ==> fate == OwedBy(i)
  {
    hide Sum, AtRest, CtxOwes, IsTrace, Step;
    RequestsAreNumbered(trace, events, mgr.isNWebSpawn, |trace| - 1, r);
    RequestsBalance(mgr, r);
    if Sum(mgr.appSpawnQueue, CtxOwes)[r] == 1 {
      var i := OneHolder(mgr.appSpawnQueue, CtxOwes, r);
      fate := OwedBy(i);
    } else {
      NoHolder(mgr.appSpawnQueue, CtxOwes, r);
      if mgr.dropped[r] == 1 {
        var j := DroppedByClose(trace, events, mgr.isNWebSpawn, |trace| - 1, r);
        fate := GivenUpAt(j);
      } else {
        fate := AnsweredOnce;
      }
    }
  }

  /** While its connection is open, a request is answered once no context waits any more. */
  lemma AnsweredInTheEnd(mgr: AppSpawnMgr, trace: seq<Snapshot>, events: seq<Event>, r: nat)
    requires Ran(mgr, trace, events) && r < |trace| - 1 && events[r].IsRequest() && mgr.appSpawnQueue == []
    requires forall j :: r < j < |trace| - 1 && events[j].ConnectionClosed? ==>
               events[j].connection != events[r].message.connection
    ensures mgr.answered[r] == 1
  {
    hide AtRest, IsTrace;
    var fate := EveryRequestOnce(mgr, trace, events, r);
  }

  lemma RequestsBalance(mgr: AppSpawnMgr, r: nat)
    requires AtRest(mgr)
    ensures mgr.requests[r] == mgr.answered[r] + mgr.dropped[r] + Sum(mgr.appSpawnQueue, CtxOwes)[r]
  {
    hide Sum, CtxFds, NodeFds, CtxOwes, CtxPid, AppPid, ChildLaw, FdLaw, RefLaw, IdLaw, MailLaw, CrashLaw, SortedByPid,
      PoolHolds, AllWaiting, Places;
  }

  // ------------------------------------------------------------------------- reference counts

  /** While nothing leaks, a reference count is the number of contexts and processes that record it. */
  lemma CountsAreHolders(mgr: AppSpawnMgr, token: int, uid: int)
    requires AtRest(mgr) && mgr.leakedTokens == multiset{} && mgr.leakedUids == multiset{}
    ensures mgr.kernel.tokenRefs[token] == Sum(mgr.appSpawnQueue, CtxToken)[token] + Sum(mgr.appQueue, AppToken)[token]
    ensures mgr.kernel.uidRefs[uid] == Sum(mgr.appSpawnQueue, CtxUid)[uid] + Sum(mgr.appQueue, AppUid)[uid]
  {
    hide Sum, CtxFds, NodeFds, CtxOwes, CtxPid, AppPid, ChildLaw, FdLaw, RequestLaw, IdLaw, MailLaw, CrashLaw, SortedByPid,
      PoolHolds, AllWaiting, Places;
  }

  /** A count that leaks, from a fresh start: SPM raises the count of token 7, supports no uid counts, and
      the request fails later. Nobody is left who records the count, and the kernel still has it. */
  method TokenCountLeaks() returns (mgr: AppSpawnMgr)
    ensures AtRest(mgr) && mgr.appSpawnQueue == [] && mgr.appQueue == [] && mgr.kernel.tokenRefs == multiset{7}
  {
    hide AtRest, Added, ForkStep;
    mgr := Start(false);
    var message := Message(0, 1, Some(7), Some(20010046), []);
    var spawn := SpawnOutcome(false, false, Nothing, ForkOutcome(false, false), PREFORKS);
    var o := RequestOutcome(true, Raised, Unsupported, None, true, false, spawn, false, Hooks({}, {}, map[], map[]));
    ProcessSpawnReqMsg(mgr, message, o);
    NotServed(Initial(), message, o, Snap(mgr));
    LeakedIsCounted(mgr);
  }

  lemma NotServed(s: Snapshot, m: Message, o: RequestOutcome, t: Snapshot)
    requires SpawnStep(s, m, o, t) && (!o.checkOk || !o.decodeOk || !o.preForkOk)
    ensures t.contexts == s.contexts && t.apps == s.apps
  {
  }

  lemma LeakedIsCounted(mgr: AppSpawnMgr)
    requires AtRest(mgr) && mgr.appSpawnQueue == [] && mgr.appQueue == []
    ensures mgr.kernel.tokenRefs == mgr.leakedTokens
  {
    hide CtxFds, NodeFds, CtxOwes, CtxPid, AppPid, ChildLaw, FdLaw, RequestLaw, IdLaw, MailLaw, CrashLaw, SortedByPid,
      PoolHolds, AllWaiting, Places;
    SumEmpty(CtxToken);
    SumEmpty(AppToken);
  }

  // ------------------------------------------------------------------------- crashes

  /** The crash counter tells the truth: of the last `crashTimes` client ids up to the recorded one, each
      child has died by a signal while it was spawning. */
  lemma CrashHistory(mgr: AppSpawnMgr, trace: seq<Snapshot>, events: seq<Event>, id: int) returns (j: nat)
    requires Ran(mgr, trace, events) && mgr.lastDiedAppId - mgr.crashTimes < id <= mgr.lastDiedAppId
    ensures j < |trace| - 1 && DiesSpawning(trace[j], events[j], id)
  {
    hide AtRest, IsTrace;
    CrashesAreSignalled(mgr, id);
    j := SignalledByDeath(trace, events, mgr.isNWebSpawn, |trace| - 1, id);
  }

  lemma CrashesAreSignalled(mgr: AppSpawnMgr, id: int)
    requires AtRest(mgr) && mgr.lastDiedAppId - mgr.crashTimes < id <= mgr.lastDiedAppId
    ensures id in mgr.signalled
  {
    hide PoolHolds, Wait, FdLaw, RequestLaw, ChildLaw, RefLaw, IdLaw, MailLaw, SortedByPid;
  }

  /** The spawner stops only when it is told to, or after the children of five clients in a row have died
      by a signal while they were spawning. */
  lemma StopsForAReason(mgr: AppSpawnMgr, trace: seq<Snapshot>, events: seq<Event>, id: int)
    requires Ran(mgr, trace, events) && !mgr.running
    ensures 1 < |trace|
    ensures events[|trace| - 2].Terminate?
            || (mgr.lastDiedAppId - 5 < id <= mgr.lastDiedAppId ==>
                  exists j :: 0 <= j < |trace| - 1 && DiesSpawning(trace[j], events[j], id))
  {
    hide AtRest, Step, DiesSpawning;
    var k := |trace| - 2;
    StepStops(trace[k], events[k], k, mgr.isNWebSpawn, trace[k + 1]);
    if !events[k].Terminate? && mgr.lastDiedAppId - 5 < id <= mgr.lastDiedAppId {
      var j := CrashHistory(mgr, trace, events, id);
    }
  }

  /** The death of a waiting context's child is answered: the first context with the pid is this one. */
  lemma DeathsAreAnswered(mgr: AppSpawnMgr, i: nat)
    requires AtRest(mgr) && i < |mgr.appSpawnQueue|
    ensures CtxOf(mgr.appSpawnQueue, mgr.appSpawnQueue[i].pid) == i
  {
    hide mgr.Valid, PoolHolds, AllWaiting;
    var j := CtxOf(mgr.appSpawnQueue, mgr.appSpawnQueue[i].pid);
    if j != i {
      ChildrenDiffer(mgr, i, j);
    }
  }

  /** What this needs is that no pid is used twice. If the kernel hands out the pid of a reaped child again
      while a context still names it, a death is answered exactly when the first context with the pid is
      a spawning one: the later context goes unanswered until its timer fires. */
  lemma ReusedPid(s: Snapshot, i: nat, j: nat, bySignal: bool, hooks: Hooks, isNWebSpawn: bool)
    requires i < j < |s.contexts| && s.contexts[i].pid == s.contexts[j].pid
    requires CtxOf(s.contexts, s.contexts[j].pid) == i && s.contexts[i].message.Some?
    ensures var t := DiedWaiting(s, s.contexts[j].pid, bySignal, hooks, isNWebSpawn);
            if s.contexts[i].spawning then t.answered == Added(s.answered, RequestOf(s.contexts[i]))
            else t == s && s.contexts[j] in t.contexts
  {
    hide KilledAtStop, Added, CtxOf;
  }

  // ------------------------------------------------------------------------- the end of the manager

  /** DeleteAppSpawnMgr: draining the queues closes every descriptor there is. */
  method DeleteAppSpawnMgr(mgr: AppSpawnMgr)
    requires AtRest(mgr)
    modifies mgr`appSpawnQueue, mgr`appQueue, mgr`diedQueue, mgr.fds, mgr.kernel`open
    ensures mgr.kernel.open == multiset{}
    ensures mgr.appSpawnQueue == [] && mgr.appQueue == [] && mgr.diedQueue == [] && mgr.fds.nodes == []
  {
    hide mgr.Valid;
    CloseContexts(mgr);
    CloseNodes(mgr);
    NothingOpen(mgr);
    mgr.appSpawnQueue, mgr.appQueue, mgr.diedQueue := [], [], [];
  }

  /** The closing of SpawningQueueDestroy, for all contexts. */
  method CloseContexts(mgr: AppSpawnMgr)
    requires mgr.Valid()
    modifies mgr`appSpawnQueue, mgr.kernel`open
    ensures mgr.Valid() && forall c :: c in mgr.appSpawnQueue ==> c.fd0 < 0 && c.fd1 < 0
  {
    hide mgr.Valid;
    var i := 0;
    while i < |mgr.appSpawnQueue|
      invariant i <= |mgr.appSpawnQueue| && mgr.Valid()
      invariant forall j :: 0 <= j < i ==> mgr.appSpawnQueue[j].fd0 < 0 && mgr.appSpawnQueue[j].fd1 < 0
      decreases |mgr.appSpawnQueue| - i
    {
      mgr.CloseBoth(i);
      i := i + 1;
    }
  }

  /** SpawningFdsDestroy, for all nodes. */
  method CloseNodes(mgr: AppSpawnMgr)
    requires mgr.Valid()
    modifies mgr.fds, mgr.kernel`open
    ensures mgr.Valid() && mgr.fds.nodes == []
  {
    hide mgr.Valid;
    while mgr.fds.nodes != []
      invariant mgr.Valid()
      decreases |mgr.fds.nodes|
    {
      mgr.CloseNode(0);
    }
  }

  lemma NothingOpen(mgr: AppSpawnMgr)
    requires mgr.Valid() && mgr.handPipes == [] && mgr.fds.nodes == []
    requires forall c :: c in mgr.appSpawnQueue ==> c.fd0 < 0 && c.fd1 < 0
    ensures mgr.kernel.open == multiset{}
  {
    hide Sum, ChildLaw, RequestLaw, RefLaw, IdLaw, MailLaw, CrashLaw, SortedByPid, Places, mgr.kernel.Valid;
    NoPipes();
    SumEmpty(NodeFds);
    SumOfNothing(mgr.appSpawnQueue, CtxFds);
  }
}
