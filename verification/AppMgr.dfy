/**
  The spawner's manager: the queues of spawning contexts, running and died processes, and its
  books. The books are ghost state, they name what came in, what went out and what is in the hands
  of the handler at work. Every step keeps all laws, so nothing is ever unaccounted for.
*/
module AppMgr {
  import opened Books
  import opened FdQueue
  import opened Images
  import opened Kernel
  import opened SpawnFds
  import opened Tally
  import opened Wrappers

  class AppSpawnMgr {
    const kernel: Kernel
    const fds: FdQueue
    const isNWebSpawn: bool
    var appSpawnQueue: seq<Ctx>
    var appQueue: seq<App>
    var diedQueue: seq<App>
    var diedAppCount: nat
    var reservedPid: int
    var requestId: nat
    var lastDiedAppId: nat
    var crashTimes: nat
    var running: bool

    ghost var requests: multiset<nat>
    ghost var answered: multiset<nat>
    ghost var dropped: multiset<nat>
    ghost var leakedTokens: multiset<int>
    ghost var leakedUids: multiset<int>
    ghost var signalled: set<int>
    ghost var handPipes: seq<Pipe>
    ghost var handRequests: multiset<nat>
    ghost var handPids: multiset<int>
    /** The reserved child has been given to a context, though `reservedPid` still names it. */
    ghost var given: bool

    ghost predicate Valid()
      reads this, kernel, fds
    {
      && fds.kernel == kernel && kernel.Valid()
      && FdLaw(kernel.open, Sum(fds.nodes, NodeFds), Sum(appSpawnQueue, CtxFds), Sum(handPipes, PipeFds))
      && RequestLaw(requests, answered, dropped, Sum(appSpawnQueue, CtxOwes), handRequests)
      && ChildLaw(Places(Idle(), Sum(appSpawnQueue, CtxPid), Sum(appQueue, AppPid), handPids),
                  kernel.used, kernel.children, kernel.excused)
      && RefLaw(kernel.tokenRefs, Sum(appSpawnQueue, CtxToken), Sum(appQueue, AppToken), leakedTokens)
      && RefLaw(kernel.uidRefs, Sum(appSpawnQueue, CtxUid), Sum(appQueue, AppUid), leakedUids)
      && IdLaw(appSpawnQueue, requestId)
      && MailLaw(appSpawnQueue, requestId, kernel.answersOn, kernel.readsFrom, kernel.inbox)
      && CrashLaw(crashTimes, lastDiedAppId, signalled, requestId)
      && SortedByPid(appQueue)
      && |diedQueue| == diedAppCount <= MAX_DIED_PROCESS_COUNT && (!isNWebSpawn ==> diedQueue == [])
    }

    ghost function Idle(): int
      reads this
    {
      if given then 0 else reservedPid
    }

    /** CreateAppSpawnMgr */
    constructor (kernel: Kernel, isNWebSpawn: bool)
      requires kernel.Valid() && kernel.open == multiset{} && kernel.children == {}
      requires kernel.tokenRefs == multiset{} && kernel.uidRefs == multiset{}
      requires kernel.answersOn == map[] && kernel.readsFrom == map[]
      ensures Valid() && fresh(fds) && this.kernel == kernel && this.isNWebSpawn == isNWebSpawn && running
      ensures fds.nodes == [] && appSpawnQueue == [] && appQueue == [] && diedQueue == [] && reservedPid == 0
      ensures requestId == 0 && answered == multiset{} && dropped == multiset{}
      ensures signalled == {} && crashTimes == 0 && lastDiedAppId == 0
      ensures requests == multiset{} && handPipes == [] && handRequests == multiset{} && handPids == multiset{}
      ensures !given && leakedTokens == multiset{} && leakedUids == multiset{}
    {
      hide Sum, PipeFds, CtxFds, CtxOwes, CtxPid, CtxToken, CtxUid, NodeFds, Places, ChildLaw, RefLaw, IdLaw, FdLaw,
        RequestLaw, CrashLaw, SortedByPid;
      EmptyBooks();
      this.kernel, this.isNWebSpawn := kernel, isNWebSpawn;
      fds := new FdQueue(kernel);
      appSpawnQueue, appQueue, diedQueue, diedAppCount := [], [], [], 0;
      reservedPid, requestId, lastDiedAppId, crashTimes, running := 0, 0, 0, 0, true;
      requests, answered, dropped := multiset{}, multiset{}, multiset{};
      leakedTokens, leakedUids, signalled := multiset{}, multiset{}, {};
      handPipes, handRequests, handPids, given := [], multiset{}, multiset{}, false;
    }

    // ----------------------------------------------------------------------- requests

    /** A request arrives and is in the hands of its handler. */
    ghost method Receive(request: nat)
      requires Valid()
      modifies this`requests, this`handRequests
      ensures Valid() && requests == Added(old(requests), request)
      ensures handRequests == Added(old(handRequests), request)
    {
      hide Sum, PipeFds, CtxFds, CtxOwes, CtxPid, CtxToken, CtxUid, NodeFds, Places, ChildLaw, RefLaw, IdLaw, FdLaw,
        RequestLaw, MailLaw, CrashLaw, SortedByPid, Plus, Minus, Added, Removed, kernel.Valid;
      RequestComes(requests, answered, dropped, Sum(appSpawnQueue, CtxOwes), handRequests, request);
      requests, handRequests := Added(requests, request), Added(handRequests, request);
    }

    /** SendResponse for a request no context has taken. */
    method Respond(message: Message)
      requires Valid() && message.request in handRequests
      modifies this`answered, this`handRequests
      ensures Valid() && answered == Added(old(answered), message.request)
      ensures handRequests == Removed(old(handRequests), message.request)
    {
      hide Sum, PipeFds, CtxFds, CtxOwes, CtxPid, CtxToken, CtxUid, NodeFds, Places, ChildLaw, RefLaw, IdLaw, FdLaw,
        RequestLaw, MailLaw, CrashLaw, SortedByPid, Plus, Minus, Added, Removed, kernel.Valid;
      RequestLeavesHand(requests, answered, dropped, Sum(appSpawnQueue, CtxOwes), handRequests, message.request);
      answered, handRequests := Added(answered, message.request), Removed(handRequests, message.request);
    }

    /** `property->message = message` */
    method TakeMessage(i: nat, message: Message)
      requires Valid() && i < |appSpawnQueue| && message.request in handRequests
      requires appSpawnQueue[i].message == None && !appSpawnQueue[i].settled
      requires !appSpawnQueue[i].tokenRef && !appSpawnQueue[i].uidRef
      modifies this`appSpawnQueue, this`handRequests
      ensures Valid() && handRequests == Removed(old(handRequests), message.request)
      ensures appSpawnQueue == old(appSpawnQueue)[i := old(appSpawnQueue)[i].(message := Some(message))]
    {
      hide Sum, PipeFds, CtxFds, CtxOwes, CtxPid, CtxToken, CtxUid, NodeFds, Places, ChildLaw, RefLaw, IdLaw, FdLaw,
        RequestLaw, MailLaw, CrashLaw, SortedByPid, Plus, Minus, Added, Removed, kernel.Valid;
      var ctx := appSpawnQueue[i].(message := Some(message));
      RequestLeavesHand(requests, answered, dropped, Sum(appSpawnQueue, CtxOwes), handRequests, message.request);
      TakenSums(appSpawnQueue, i, ctx, message);
      Put(i, ctx);
      handRequests := Removed(handRequests, message.request);
    }

    /** `property->message = NULL`, the caller has the message again. */
    method GiveBackMessage(i: nat)
      requires Valid() && i < |appSpawnQueue| && appSpawnQueue[i].message.Some? && !appSpawnQueue[i].settled
      requires !appSpawnQueue[i].tokenRef && !appSpawnQueue[i].uidRef
      modifies this`appSpawnQueue, this`handRequests
      ensures Valid() && handRequests == Added(old(handRequests), old(appSpawnQueue)[i].message.value.request)
      ensures appSpawnQueue == old(appSpawnQueue)[i := old(appSpawnQueue)[i].(message := None)]
    {
      hide Sum, PipeFds, CtxFds, CtxOwes, CtxPid, CtxToken, CtxUid, NodeFds, Places, ChildLaw, RefLaw, IdLaw, FdLaw,
        RequestLaw, MailLaw, CrashLaw, SortedByPid, Plus, Minus, Added, Removed, kernel.Valid;
      var request, ctx := appSpawnQueue[i].message.value.request, appSpawnQueue[i].(message := None);
      GivenBackSums(appSpawnQueue, i, ctx);
      RequestGivenBack(requests, answered, dropped, Sum(appSpawnQueue[i := ctx], CtxOwes), handRequests, request);
      Put(i, ctx);
      handRequests := Added(handRequests, request);
    }

    /** `ctx->message = newMsg` at the end of a rebuild: the new message serves the same request, and names
        the same token and uid. */
    method ReplaceMessage(i: nat, message: Message)
      requires Valid() && i < |appSpawnQueue| && appSpawnQueue[i].message.Some?
      requires SameRequest(appSpawnQueue[i].message.value, message)
      modifies this`appSpawnQueue
      ensures Valid() && appSpawnQueue == old(appSpawnQueue)[i := old(appSpawnQueue)[i].(message := Some(message))]
    {
      hide Sum, PipeFds, CtxFds, CtxOwes, CtxPid, CtxToken, CtxUid, NodeFds, Places, ChildLaw, RefLaw, IdLaw, FdLaw,
        RequestLaw, MailLaw, CrashLaw, SortedByPid, Plus, Minus, Added, Removed, kernel.Valid;
      var ctx := appSpawnQueue[i].(message := Some(message));
      BodySums(appSpawnQueue, i, ctx);
      Put(i, ctx);
    }

    /** SendResponse for the message of a context: only of one that still owes the answer. */
    method SendResponse(i: nat)
      requires Valid() && i < |appSpawnQueue| && appSpawnQueue[i].message.Some? && !appSpawnQueue[i].settled
      modifies this`appSpawnQueue, this`answered
      ensures Valid() && answered == Added(old(answered), old(appSpawnQueue)[i].message.value.request)
      ensures appSpawnQueue == old(appSpawnQueue)[i := old(appSpawnQueue)[i].(settled := true)]
    {
      hide Sum, PipeFds, CtxFds, CtxOwes, CtxPid, CtxToken, CtxUid, NodeFds, Places, ChildLaw, RefLaw, IdLaw, FdLaw,
        RequestLaw, MailLaw, CrashLaw, SortedByPid, Plus, Minus, Added, Removed, kernel.Valid;
      var ctx := appSpawnQueue[i].(settled := true);
      SettledSums(appSpawnQueue, i, ctx);
      RequestSettled(requests, answered, dropped, Sum(appSpawnQueue[i := ctx], CtxOwes), handRequests,
                     ctx.message.value.request);
      Put(i, ctx);
      answered := Added(answered, ctx.message.value.request);
    }

    /** The connection of a context's message has gone. */
    method Drop(i: nat)
      requires Valid() && i < |appSpawnQueue| && appSpawnQueue[i].message.Some? && !appSpawnQueue[i].settled
      modifies this`appSpawnQueue, this`dropped
      ensures Valid() && dropped == Added(old(dropped), old(appSpawnQueue)[i].message.value.request)
      ensures appSpawnQueue == old(appSpawnQueue)[i := old(appSpawnQueue)[i].(settled := true)]
    {
      hide Sum, PipeFds, CtxFds, CtxOwes, CtxPid, CtxToken, CtxUid, NodeFds, Places, ChildLaw, RefLaw, IdLaw, FdLaw,
        RequestLaw, MailLaw, CrashLaw, SortedByPid, Plus, Minus, Added, Removed, kernel.Valid;
      var ctx := appSpawnQueue[i].(settled := true);
      SettledSums(appSpawnQueue, i, ctx);
      RequestSettled(requests, answered, dropped, Sum(appSpawnQueue[i := ctx], CtxOwes), handRequests,
                     ctx.message.value.request);
      Put(i, ctx);
      dropped := Added(dropped, ctx.message.value.request);
    }

    // ----------------------------------------------------------------------- contexts

    /** CreateAppSpawningCtx */
    method CreateAppSpawningCtx() returns (i: nat)
      requires Valid()
      modifies this`appSpawnQueue, this`requestId
      ensures Valid() && i == |old(appSpawnQueue)| && requestId == old(requestId) + 1
      ensures appSpawnQueue == old(appSpawnQueue) + [EMPTY.(id := requestId)]
      ensures NoMailFor(requestId, kernel.readsFrom, kernel.inbox)
    {
      hide Sum, Places, ChildLaw, RefLaw, IdLaw, FdLaw, RequestLaw, MailLaw, NoMailFor, SortedByPid;
      i := |appSpawnQueue|;
      var ctx := EMPTY.(id := requestId + 1);
      CtxBlank(appSpawnQueue, ctx);
      IdNew(appSpawnQueue, ctx, requestId);
      MailNew(appSpawnQueue, ctx, requestId, kernel.answersOn, kernel.readsFrom, kernel.inbox);
      requestId := requestId + 1;
      appSpawnQueue := appSpawnQueue + [ctx];
    }

    /** Puts a changed context back into its place. */
    method Put(i: nat, ctx: Ctx)
      requires i < |appSpawnQueue| && IdLaw(appSpawnQueue, requestId) && ctx.id == appSpawnQueue[i].id
      requires MailLaw(appSpawnQueue, requestId, kernel.answersOn, kernel.readsFrom, kernel.inbox)
      requires ctx.pid == appSpawnQueue[i].pid || ctx.pid <= 0 || NoMailFor(ctx.id, kernel.readsFrom, kernel.inbox)
      modifies this`appSpawnQueue
      ensures appSpawnQueue == old(appSpawnQueue)[i := ctx] && IdLaw(appSpawnQueue, requestId)
      ensures MailLaw(appSpawnQueue, requestId, kernel.answersOn, kernel.readsFrom, kernel.inbox)
    {
      hide IdLaw, MailLaw, NoMailFor;
      IdSame(appSpawnQueue, i, ctx, requestId);
      MailKept(appSpawnQueue, i, ctx, requestId, kernel.answersOn, kernel.readsFrom, kernel.inbox);
      appSpawnQueue := appSpawnQueue[i := ctx];
    }

    /** `property->state = APP_STATE_SPAWNING` */
    method SetSpawning(i: nat)
      requires Valid() && i < |appSpawnQueue|
      modifies this`appSpawnQueue
      ensures Valid() && appSpawnQueue == old(appSpawnQueue)[i := old(appSpawnQueue)[i].(spawning := true)]
    {
      hide Sum, PipeFds, CtxFds, CtxOwes, CtxPid, CtxToken, CtxUid, NodeFds, Places, ChildLaw, RefLaw, IdLaw, FdLaw,
        RequestLaw, MailLaw, CrashLaw, SortedByPid, Plus, Minus, Added, Removed, kernel.Valid;
      StateSums(appSpawnQueue, i, appSpawnQueue[i].(spawning := true));
      Put(i, appSpawnQueue[i].(spawning := true));
    }

    /** The next pipe is one no child knows of. */
    lemma NextPipeUnshared()
      requires kernel.Valid()
      ensures Unshared(kernel.nextPipe, kernel.answersOn, kernel.readsFrom, kernel.inbox)
    {
    }

    /** A new pipe, in the hands of the handler. */
    method OpenPipe(pipeOk: bool) returns (ret: int, r: int, w: int)
      requires Valid()
      modifies this`handPipes, kernel`nextFd, kernel`open, kernel`nextPipe, kernel`pipeOf
      ensures Valid() && (ret == 0 <==> pipeOk)
      ensures EndsKept(old(kernel.open), old(kernel.pipeOf), kernel.pipeOf)
      ensures ret != 0 ==> handPipes == old(handPipes) && kernel.pipeOf == old(kernel.pipeOf)
                           && kernel.nextPipe == old(kernel.nextPipe)
      ensures ret == 0 ==>
                && handPipes == old(handPipes) + [Pipe(r, w)] && 0 < r && 0 < w
                && NewPipe(r, w, old(kernel.open), old(kernel.nextPipe), old(kernel.pipeOf), kernel.pipeOf)
                && Unshared(old(kernel.nextPipe), kernel.answersOn, kernel.readsFrom, kernel.inbox)
                && kernel.nextPipe == old(kernel.nextPipe) + 1
    {
      hide Sum, PipeFds, CtxFds, CtxOwes, CtxPid, CtxToken, CtxUid, NodeFds, Places, ChildLaw, RefLaw, IdLaw, FdLaw,
        RequestLaw, MailLaw, CrashLaw, SortedByPid, Plus, Minus, Added, Removed, kernel.Valid;
      NextPipeUnshared();
      hide Unshared;
      ret, r, w := kernel.Pipe(pipeOk);
      if ret == 0 {
        PipeOpened(r, w);
        SumAppend(handPipes, Pipe(r, w), PipeFds);
        FdsMove(old(kernel.open), Sum(fds.nodes, NodeFds), Sum(appSpawnQueue, CtxFds), Sum(handPipes, PipeFds),
                multiset{r, w});
        handPipes := handPipes + [Pipe(r, w)];
      }
    }

    /** Puts a pipe in hand into a context. */
    method HoldPipe(i: nat, r: int, w: int, ghost h: nat)
      requires Valid() && i < |appSpawnQueue| && appSpawnQueue[i].fd0 < 0 && appSpawnQueue[i].fd1 < 0
      requires h < |handPipes| && handPipes[h] == Pipe(r, w)
      modifies this`appSpawnQueue, this`handPipes
      ensures Valid() && handPipes == Without(old(handPipes), h)
      ensures appSpawnQueue == old(appSpawnQueue)[i := old(appSpawnQueue)[i].(fd0 := r, fd1 := w)]
    {
      hide Sum, PipeFds, CtxFds, CtxOwes, CtxPid, CtxToken, CtxUid, NodeFds, Places, ChildLaw, RefLaw, IdLaw, FdLaw,
        RequestLaw, MailLaw, CrashLaw, SortedByPid, Plus, Minus, Added, Removed, kernel.Valid;
      var ctx := appSpawnQueue[i].(fd0 := r, fd1 := w);
      PipeSums(appSpawnQueue, i, ctx);
      SumWithout(handPipes, h, PipeFds);
      FdsMove(kernel.open, Sum(fds.nodes, NodeFds), Sum(appSpawnQueue, CtxFds), Sum(Without(handPipes, h), PipeFds),
              PipeFds(Pipe(r, w)));
      Put(i, ctx);
      handPipes := Without(handPipes, h);
    }

    /** Closes the read end a context holds. */
    method CloseReadEnd(i: nat)
      requires Valid() && i < |appSpawnQueue| && 0 <= appSpawnQueue[i].fd0
      modifies this`appSpawnQueue, kernel`open
      ensures Valid() && appSpawnQueue == old(appSpawnQueue)[i := old(appSpawnQueue)[i].(fd0 := -1)]
    {
      hide Sum, PipeFds, CtxFds, CtxOwes, CtxPid, CtxToken, CtxUid, NodeFds, Places, ChildLaw, RefLaw, IdLaw, FdLaw,
        RequestLaw, MailLaw, CrashLaw, SortedByPid, Plus, Minus, Added, Removed, kernel.Valid;
      var fd, ctx := appSpawnQueue[i].fd0, appSpawnQueue[i].(fd0 := -1);
      EndClosed(appSpawnQueue, i, ctx, fd);
      FdsMove(kernel.open, Sum(fds.nodes, NodeFds), Sum(appSpawnQueue[i := ctx], CtxFds), Sum(handPipes, PipeFds),
              multiset{fd});
      FdClosed(kernel.open, Sum(fds.nodes, NodeFds), Sum(appSpawnQueue[i := ctx], CtxFds), Sum(handPipes, PipeFds), fd);
      kernel.Close(fd);
      Put(i, ctx);
    }

    /** Closes the write end a context holds. */
    method CloseWriteEnd(i: nat)
      requires Valid() && i < |appSpawnQueue| && 0 <= appSpawnQueue[i].fd1
      modifies this`appSpawnQueue, kernel`open
      ensures Valid() && appSpawnQueue == old(appSpawnQueue)[i := old(appSpawnQueue)[i].(fd1 := -1)]
    {
      hide Sum, PipeFds, CtxFds, CtxOwes, CtxPid, CtxToken, CtxUid, NodeFds, Places, ChildLaw, RefLaw, IdLaw, FdLaw,
        RequestLaw, MailLaw, CrashLaw, SortedByPid, Plus, Minus, Added, Removed, kernel.Valid;
      var fd, ctx := appSpawnQueue[i].fd1, appSpawnQueue[i].(fd1 := -1);
      EndClosed(appSpawnQueue, i, ctx, fd);
      FdsMove(kernel.open, Sum(fds.nodes, NodeFds), Sum(appSpawnQueue[i := ctx], CtxFds), Sum(handPipes, PipeFds),
              multiset{fd});
      FdClosed(kernel.open, Sum(fds.nodes, NodeFds), Sum(appSpawnQueue[i := ctx], CtxFds), Sum(handPipes, PipeFds), fd);
      kernel.Close(fd);
      Put(i, ctx);
    }

    /** ClearPipeFd on the pipe of a context: descriptor 0 is never closed by it. */
    method ClearPipeFd(i: nat)
      requires Valid() && i < |appSpawnQueue|
      modifies this`appSpawnQueue, kernel`open
      ensures Valid()
      ensures var c := old(appSpawnQueue)[i];
              appSpawnQueue == old(appSpawnQueue)[i := c.(fd0 := if c.fd0 > 0 then -1 else c.fd0,
                                                          fd1 := if c.fd1 > 0 then -1 else c.fd1)]
    {
      hide Valid;
      if appSpawnQueue[i].fd0 > 0 {
        CloseReadEnd(i);
      }
      if appSpawnQueue[i].fd1 > 0 {
        CloseWriteEnd(i);
      }
    }

    /** DeleteAppSpawningCtx: of a context that owes nothing any more and whose child is not lost by it. */
    method DeleteAppSpawningCtx(i: nat)
      requires Valid() && i < |appSpawnQueue|
      requires var c := appSpawnQueue[i];
               && (c.message.Some? ==> c.settled)
               && (c.promoted || (!c.tokenRef && !c.uidRef))
               && (c.promoted || c.pid <= 0 || c.pid in kernel.excused || c.pid !in kernel.children)
      modifies this`appSpawnQueue, kernel`open
      ensures Valid() && appSpawnQueue == Without(old(appSpawnQueue), i)
    {
      CloseBoth(i);
      Forget(i);
    }

    /** The closing at the end of DeleteAppSpawningCtx. */
    method CloseBoth(i: nat)
      requires Valid() && i < |appSpawnQueue|
      modifies this`appSpawnQueue, kernel`open
      ensures Valid()
      ensures var c := old(appSpawnQueue)[i];
              appSpawnQueue == old(appSpawnQueue)[i := c.(fd0 := if c.fd0 >= 0 then -1 else c.fd0,
                                                          fd1 := if c.fd1 >= 0 then -1 else c.fd1)]
    {
      hide Valid;
      if appSpawnQueue[i].fd0 >= 0 {
        CloseReadEnd(i);
      }
      if appSpawnQueue[i].fd1 >= 0 {
        CloseWriteEnd(i);
      }
    }

    /** Takes a context that holds nothing out of the queue. */
    method Forget(i: nat)
      requires Valid() && i < |appSpawnQueue|
      requires var c := appSpawnQueue[i];
               && c.fd0 < 0 && c.fd1 < 0 && (c.message.Some? ==> c.settled)
               && (c.promoted || (!c.tokenRef && !c.uidRef))
               && (c.promoted || c.pid <= 0 || c.pid in kernel.excused || c.pid !in kernel.children)
      modifies this`appSpawnQueue
      ensures Valid() && appSpawnQueue == Without(old(appSpawnQueue), i)
    {
      hide Sum, PipeFds, CtxFds, CtxOwes, CtxPid, CtxToken, CtxUid, NodeFds, Places, ChildLaw, RefLaw, IdLaw, FdLaw,
        RequestLaw, MailLaw, CrashLaw, SortedByPid, Plus, Minus, Added, Removed, kernel.Valid;
      ForgottenSums(appSpawnQueue, i);
      IdWithout(appSpawnQueue, i, requestId);
      MailWithout(appSpawnQueue, i, requestId, kernel.answersOn, kernel.readsFrom, kernel.inbox);
      ghost var pid, rest := appSpawnQueue[i].pid, Sum(Without(appSpawnQueue, i), CtxPid);
      if pid > 0 && !appSpawnQueue[i].promoted {
        PlacesMove(Idle(), rest, Sum(appQueue, AppPid), handPids, pid);
        ChildForgotten(Places(Idle(), rest, Sum(appQueue, AppPid), handPids),
                       kernel.used, kernel.children, kernel.excused, pid);
      }
      appSpawnQueue := Without(appSpawnQueue, i);
    }

    // ----------------------------------------------------------------------- children

    /** `kill(pid, SIGKILL)` */
    method Kill(pid: int)
      requires Valid()
      modifies kernel`excused
      ensures Valid() && kernel.excused == old(kernel.excused) + {pid}
    {
      hide Sum, PipeFds, CtxFds, CtxOwes, CtxPid, CtxToken, CtxUid, NodeFds, Places, ChildLaw, RefLaw, IdLaw, FdLaw,
        RequestLaw, MailLaw, CrashLaw, SortedByPid, Plus, Minus, Added, Removed, kernel.Valid;
      ChildExcused(Places(Idle(), Sum(appSpawnQueue, CtxPid), Sum(appQueue, AppPid), handPids),
                   kernel.used, kernel.children, kernel.excused, pid);
      kernel.Kill(pid);
    }

    /** A child has answered on its pipe or closed it. */
    ghost method Answered(pid: int)
      requires Valid()
      modifies kernel`excused
      ensures Valid() && kernel.excused == old(kernel.excused) + {pid}
    {
      hide Sum, PipeFds, CtxFds, CtxOwes, CtxPid, CtxToken, CtxUid, NodeFds, Places, ChildLaw, RefLaw, IdLaw, FdLaw,
        RequestLaw, MailLaw, CrashLaw, SortedByPid, Plus, Minus, Added, Removed, kernel.Valid;
      ChildExcused(Places(Idle(), Sum(appSpawnQueue, CtxPid), Sum(appQueue, AppPid), handPids),
                   kernel.used, kernel.children, kernel.excused, pid);
      kernel.Answered(pid);
    }

    /** `waitpid` */
    method Reap(pid: int)
      requires Valid()
      modifies kernel`children
      ensures Valid() && kernel.children == old(kernel.children) - {pid}
    {
      hide Sum, PipeFds, CtxFds, CtxOwes, CtxPid, CtxToken, CtxUid, NodeFds, Places, ChildLaw, RefLaw, IdLaw, FdLaw,
        RequestLaw, MailLaw, CrashLaw, SortedByPid, Plus, Minus, Added, Removed, kernel.Valid;
      ChildExcused(Places(Idle(), Sum(appSpawnQueue, CtxPid), Sum(appQueue, AppPid), handPids),
                   kernel.used, kernel.children, kernel.excused, pid);
      kernel.Reap(pid);
    }

    /** The fork of AppSpawnProcessMsg and of ForkAndDoUnlockMount: the child inherits the context's pipe
        and answers on it. */
    method ForkChild(i: nat, forkOk: bool) returns (ret: int)
      requires Valid() && i < |appSpawnQueue| && appSpawnQueue[i].pid == 0 && !appSpawnQueue[i].promoted
      requires NewEnd(appSpawnQueue[i].fd0, kernel) && 0 < appSpawnQueue[i].fd1
      requires SamePipe(appSpawnQueue[i].fd0, appSpawnQueue[i].fd1, kernel.pipeOf)
      requires NoMailFor(appSpawnQueue[i].id, kernel.readsFrom, kernel.inbox)
      modifies this`appSpawnQueue
      modifies kernel`nextPid, kernel`used, kernel`children, kernel`images, kernel`answersOn, kernel`readsFrom
      ensures Valid() && (ret == 0 <==> forkOk) && kernel.readsFrom == old(kernel.readsFrom)
      ensures ret != 0 ==> appSpawnQueue == old(appSpawnQueue) && kernel.answersOn == old(kernel.answersOn)
                           && kernel.used == old(kernel.used) && kernel.children == old(kernel.children)
      ensures ret == 0 ==> Forked(old(appSpawnQueue), appSpawnQueue, i, old(kernel.used), old(kernel.answersOn),
                                  kernel.answersOn, kernel.pipeOf)
                           && Born(appSpawnQueue[i].pid, old(kernel.used), old(kernel.children), kernel.used, kernel.children)
    {
      hide Sum, PipeFds, CtxFds, CtxOwes, CtxPid, CtxToken, CtxUid, NodeFds, Places, ChildLaw, RefLaw, IdLaw, FdLaw,
        RequestLaw, MailLaw, CrashLaw, SortedByPid, Plus, Minus, Added, Removed, kernel.Valid, SamePipe;
      ghost var q, c, pipe := appSpawnQueue, appSpawnQueue[i], kernel.pipeOf[appSpawnQueue[i].fd0].pipe;
      PidsAreUsed();
      CtxEndsOpen(i);
      hide NoMailFor, Unshared, AnswerPipe, RequestPipe, OpenEnds;
      var pid := kernel.Fork(forkOk, Direct, fds.nodes, c.fd0, c.fd1);
      if !forkOk {
        return -1;
      }
      ret := 0;
      var ctx := appSpawnQueue[i].(pid := pid);
      DirectFork(kernel.open, kernel.pipeOf, fds.nodes, c.fd0, c.fd1, pid);
      MailForked(q, requestId, old(kernel.answersOn), old(kernel.readsFrom), kernel.inbox, pid, pipe, None);
      PidSums(q, i, ctx);
      CtxForked(Idle(), q, i, ctx, Sum(appQueue, AppPid), handPids, old(kernel.used), old(kernel.children), kernel.excused);
      Put(i, ctx);
    }

    lemma CtxEndsOpen(i: nat)
      requires Valid() && i < |appSpawnQueue|
      ensures 0 <= appSpawnQueue[i].fd1 ==> appSpawnQueue[i].fd1 in kernel.open
    {
      hide Sum, PipeFds, CtxFds, CtxOwes, CtxPid, CtxToken, CtxUid, NodeFds, Places, ChildLaw, RefLaw, IdLaw, FdLaw,
        RequestLaw, MailLaw, CrashLaw, SortedByPid, Plus, Minus, Added, Removed, kernel.Valid;
      FdsHeld(kernel.open, Sum(fds.nodes, NodeFds), Sum(appSpawnQueue, CtxFds), Sum(handPipes, PipeFds));
      CtxFdOpen(appSpawnQueue, i, kernel.open);
    }

    lemma PidsAreUsed()
      requires kernel.Valid()
      ensures forall p :: p in kernel.answersOn || p in kernel.readsFrom ==> p in kernel.used && kernel.self < p
    {
    }

    // ----------------------------------------------------------------------- reference counts

    /** SpmIncTokenidRefCnt: a raised count is nobody's until a context records it. */
    method IncTokenid(token: int, outcome: Increment)
      requires Valid()
      modifies this`leakedTokens, kernel`tokenRefs
      ensures Valid() && leakedTokens == Plus(old(leakedTokens), outcome.Raised?, token)
    {
      hide Sum, PipeFds, CtxFds, CtxOwes, CtxPid, CtxToken, CtxUid, NodeFds, Places, ChildLaw, RefLaw, IdLaw, FdLaw,
        RequestLaw, MailLaw, CrashLaw, SortedByPid, Plus, Minus, Added, Removed, kernel.Valid;
      RefRaised(kernel.tokenRefs, Sum(appSpawnQueue, CtxToken), Sum(appQueue, AppToken), leakedTokens,
                outcome.Raised?, token);
      kernel.IncTokenid(token, outcome);
      leakedTokens := Plus(leakedTokens, outcome.Raised?, token);
    }

    /** SpmIncUidRefCnt */
    method IncUid(uid: int, outcome: Increment)
      requires Valid()
      modifies this`leakedUids, kernel`uidRefs
      ensures Valid() && leakedUids == Plus(old(leakedUids), outcome.Raised?, uid)
    {
      hide Sum, PipeFds, CtxFds, CtxOwes, CtxPid, CtxToken, CtxUid, NodeFds, Places, ChildLaw, RefLaw, IdLaw, FdLaw,
        RequestLaw, MailLaw, CrashLaw, SortedByPid, Plus, Minus, Added, Removed, kernel.Valid;
      RefRaised(kernel.uidRefs, Sum(appSpawnQueue, CtxUid), Sum(appQueue, AppUid), leakedUids, outcome.Raised?, uid);
      kernel.IncUid(uid, outcome);
      leakedUids := Plus(leakedUids, outcome.Raised?, uid);
    }

    /** SpmDecTokenidRefCnt of a count nobody records any more. */
    method DecTokenid(token: int, succeeds: bool)
      requires Valid() && token in leakedTokens
      modifies this`leakedTokens, kernel`tokenRefs
      ensures Valid() && leakedTokens == Minus(old(leakedTokens), succeeds, token)
    {
      hide Sum, PipeFds, CtxFds, CtxOwes, CtxPid, CtxToken, CtxUid, NodeFds, Places, ChildLaw, RefLaw, IdLaw, FdLaw,
        RequestLaw, MailLaw, CrashLaw, SortedByPid, Plus, Minus, Added, Removed, kernel.Valid;
      RefLowered(kernel.tokenRefs, Sum(appSpawnQueue, CtxToken), Sum(appQueue, AppToken), leakedTokens, succeeds, token);
      kernel.DecTokenid(token, succeeds);
      leakedTokens := Minus(leakedTokens, succeeds, token);
    }

    /** SpmDecUidRefCnt of a count nobody records any more. */
    method DecUid(uid: int, succeeds: bool)
      requires Valid() && uid in leakedUids
      modifies this`leakedUids, kernel`uidRefs
      ensures Valid() && leakedUids == Minus(old(leakedUids), succeeds, uid)
    {
      hide Sum, PipeFds, CtxFds, CtxOwes, CtxPid, CtxToken, CtxUid, NodeFds, Places, ChildLaw, RefLaw, IdLaw, FdLaw,
        RequestLaw, MailLaw, CrashLaw, SortedByPid, Plus, Minus, Added, Removed, kernel.Valid;
      RefLowered(kernel.uidRefs, Sum(appSpawnQueue, CtxUid), Sum(appQueue, AppUid), leakedUids, succeeds, uid);
      kernel.DecUid(uid, succeeds);
      leakedUids := Minus(leakedUids, succeeds, uid);
    }

    /** A context records a raised token count. */
    method RecordToken(i: nat)
      requires Valid() && i < |appSpawnQueue| && !appSpawnQueue[i].promoted && !appSpawnQueue[i].tokenRef
      requires appSpawnQueue[i].message.Some? && appSpawnQueue[i].message.value.token.Some?
      requires appSpawnQueue[i].message.value.token.value in leakedTokens
      modifies this`appSpawnQueue, this`leakedTokens
      ensures Valid() && appSpawnQueue == old(appSpawnQueue)[i := old(appSpawnQueue)[i].(tokenRef := true)]
      ensures leakedTokens == Minus(old(leakedTokens), true, old(appSpawnQueue)[i].message.value.token.value)
    {
      hide Sum, PipeFds, CtxFds, CtxOwes, CtxPid, CtxToken, CtxUid, NodeFds, Places, ChildLaw, RefLaw, IdLaw, FdLaw,
        RequestLaw, MailLaw, CrashLaw, SortedByPid, Plus, Minus, Added, Removed, kernel.Valid;
      var ctx, token := appSpawnQueue[i].(tokenRef := true), appSpawnQueue[i].message.value.token.value;
      TokenRaised(appSpawnQueue, i, ctx);
      RefRecorded(kernel.tokenRefs, Sum(appSpawnQueue, CtxToken), Sum(appQueue, AppToken), leakedTokens, true, token);
      Put(i, ctx);
      leakedTokens := Minus(leakedTokens, true, token);
    }

    /** A context forgets a token count. */
    method ForgetToken(i: nat)
      requires Valid() && i < |appSpawnQueue| && !appSpawnQueue[i].promoted && appSpawnQueue[i].tokenRef
      requires appSpawnQueue[i].message.Some? && appSpawnQueue[i].message.value.token.Some?
      modifies this`appSpawnQueue, this`leakedTokens
      ensures Valid() && appSpawnQueue == old(appSpawnQueue)[i := old(appSpawnQueue)[i].(tokenRef := false)]
      ensures leakedTokens == Plus(old(leakedTokens), true, old(appSpawnQueue)[i].message.value.token.value)
    {
      hide Sum, PipeFds, CtxFds, CtxOwes, CtxPid, CtxToken, CtxUid, NodeFds, Places, ChildLaw, RefLaw, IdLaw, FdLaw,
        RequestLaw, MailLaw, CrashLaw, SortedByPid, Plus, Minus, Added, Removed, kernel.Valid;
      var ctx, token := appSpawnQueue[i].(tokenRef := false), appSpawnQueue[i].message.value.token.value;
      TokenLowered(appSpawnQueue, i, ctx);
      RefForgotten(kernel.tokenRefs, Sum(appSpawnQueue[i := ctx], CtxToken), Sum(appQueue, AppToken), leakedTokens,
                   true, token);
      Put(i, ctx);
      leakedTokens := Plus(leakedTokens, true, token);
    }

    /** A context records a raised uid count. */
    method RecordUid(i: nat)
      requires Valid() && i < |appSpawnQueue| && !appSpawnQueue[i].promoted && !appSpawnQueue[i].uidRef
      requires appSpawnQueue[i].message.Some? && appSpawnQueue[i].message.value.uid.Some?
      requires appSpawnQueue[i].message.value.uid.value in leakedUids
      modifies this`appSpawnQueue, this`leakedUids
      ensures Valid() && appSpawnQueue == old(appSpawnQueue)[i := old(appSpawnQueue)[i].(uidRef := true)]
      ensures leakedUids == Minus(old(leakedUids), true, old(appSpawnQueue)[i].message.value.uid.value)
    {
      hide Sum, PipeFds, CtxFds, CtxOwes, CtxPid, CtxToken, CtxUid, NodeFds, Places, ChildLaw, RefLaw, IdLaw, FdLaw,
        RequestLaw, MailLaw, CrashLaw, SortedByPid, Plus, Minus, Added, Removed, kernel.Valid;
      var ctx, uid := appSpawnQueue[i].(uidRef := true), appSpawnQueue[i].message.value.uid.value;
      UidRaised(appSpawnQueue, i, ctx);
      RefRecorded(kernel.uidRefs, Sum(appSpawnQueue, CtxUid), Sum(appQueue, AppUid), leakedUids, true, uid);
      Put(i, ctx);
      leakedUids := Minus(leakedUids, true, uid);
    }

    /** A context forgets a uid count. */
    method ForgetUid(i: nat)
      requires Valid() && i < |appSpawnQueue| && !appSpawnQueue[i].promoted && appSpawnQueue[i].uidRef
      requires appSpawnQueue[i].message.Some? && appSpawnQueue[i].message.value.uid.Some?
      modifies this`appSpawnQueue, this`leakedUids
      ensures Valid() && appSpawnQueue == old(appSpawnQueue)[i := old(appSpawnQueue)[i].(uidRef := false)]
      ensures leakedUids == Plus(old(leakedUids), true, old(appSpawnQueue)[i].message.value.uid.value)
    {
      hide Sum, PipeFds, CtxFds, CtxOwes, CtxPid, CtxToken, CtxUid, NodeFds, Places, ChildLaw, RefLaw, IdLaw, FdLaw,
        RequestLaw, MailLaw, CrashLaw, SortedByPid, Plus, Minus, Added, Removed, kernel.Valid;
      var ctx, uid := appSpawnQueue[i].(uidRef := false), appSpawnQueue[i].message.value.uid.value;
      UidLowered(appSpawnQueue, i, ctx);
      RefForgotten(kernel.uidRefs, Sum(appSpawnQueue[i := ctx], CtxUid), Sum(appQueue, AppUid), leakedUids, true, uid);
      Put(i, ctx);
      leakedUids := Plus(leakedUids, true, uid);
    }

    /** IncreaseRefCounts, for a message that names a token and a uid. The one leak: the token count was
        raised before the uid count turned out to be unsupported. */
    method IncreaseRefCounts(i: nat, incToken: Increment, incUid: Increment)
      requires Valid() && i < |appSpawnQueue| && !appSpawnQueue[i].promoted
      requires !appSpawnQueue[i].tokenRef && !appSpawnQueue[i].uidRef && appSpawnQueue[i].message.Some?
      requires appSpawnQueue[i].message.value.token.Some? && appSpawnQueue[i].message.value.uid.Some?
      modifies this`appSpawnQueue, this`leakedTokens, this`leakedUids, kernel`tokenRefs, kernel`uidRefs
      ensures Valid() && leakedUids == old(leakedUids)
      ensures appSpawnQueue == old(appSpawnQueue)[i := old(appSpawnQueue)[i].(
                                 tokenRef := incToken.Raised? && !incUid.Unsupported?,
                                 uidRef := incToken.Raised? && incUid.Raised?)]
      ensures leakedTokens == Plus(old(leakedTokens), incToken.Raised? && incUid.Unsupported?,
                                   old(appSpawnQueue)[i].message.value.token.value)
    {
      hide Valid, Plus, Minus;
      var token, uid := appSpawnQueue[i].message.value.token.value, appSpawnQueue[i].message.value.uid.value;
      PlusMinus(leakedTokens, incToken.Raised?, token);
      PlusMinus(leakedUids, incUid.Raised?, uid);
      IncTokenid(token, incToken);
      if !incToken.Raised? {
        return;
      }
      IncUid(uid, incUid);
      if incUid.Unsupported? {
        return;
      }
      RecordToken(i);
      if incUid.Raised? {
        RecordUid(i);
      }
    }

    /** OnSpawnAbortUpdateRefCount: gives up what the context holds; exactly the counts the kernel does not
        lower leak. */
    method OnSpawnAbortUpdateRefCount(i: nat, decToken: bool, decUid: bool)
      requires Valid() && i < |appSpawnQueue| && !appSpawnQueue[i].promoted && Named(appSpawnQueue[i])
      modifies this`appSpawnQueue, this`leakedTokens, this`leakedUids, kernel`tokenRefs, kernel`uidRefs
      ensures Valid()
      ensures appSpawnQueue == old(appSpawnQueue)[i := old(appSpawnQueue)[i].(tokenRef := false, uidRef := false)]
      ensures var c := old(appSpawnQueue)[i];
              && leakedTokens == Plus(old(leakedTokens), c.tokenRef && !decToken, TokenRef(c))
              && leakedUids == Plus(old(leakedUids), c.uidRef && !decUid, UidRef(c))
    {
      hide Valid, Plus, Minus;
      var c := appSpawnQueue[i];
      var token, uid := TokenRef(c), UidRef(c);
      PlusMinus(leakedTokens, true, token);
      PlusMinus(leakedUids, true, uid);
      PlusMinus(Plus(leakedTokens, true, token), true, token);
      PlusMinus(Plus(leakedUids, true, uid), true, uid);
      if c.tokenRef {
        ForgetToken(i);
        DecTokenid(token, decToken);
      }
      if c.uidRef {
        ForgetUid(i);
        DecUid(uid, decUid);
      }
    }

    /** A context is about to be freed without the SPAWN_ABORT hook: the counts it still records leak. */
    method ForgetRefs(i: nat)
      requires Valid() && i < |appSpawnQueue| && !appSpawnQueue[i].promoted && Named(appSpawnQueue[i])
      modifies this`appSpawnQueue, this`leakedTokens, this`leakedUids
      ensures Valid()
      ensures appSpawnQueue == old(appSpawnQueue)[i := old(appSpawnQueue)[i].(tokenRef := false, uidRef := false)]
      ensures var c := old(appSpawnQueue)[i];
              && leakedTokens == Plus(old(leakedTokens), c.tokenRef, TokenRef(c))
              && leakedUids == Plus(old(leakedUids), c.uidRef, UidRef(c))
    {
      hide Valid, Plus, Minus;
      var c := appSpawnQueue[i];
      PlusMinus(leakedTokens, true, TokenRef(c));
      PlusMinus(leakedUids, true, UidRef(c));
      if c.tokenRef {
        ForgetToken(i);
      }
      if c.uidRef {
        ForgetUid(i);
      }
    }

    // ----------------------------------------------------------------------- process records

    /** GetSpawnedProcess: the index of the first record of the pid, or the length of the queue. */
    method GetSpawnedProcess(pid: int) returns (k: nat)
      ensures k == AppOf(appQueue, pid)
    {
      k := 0;
      while k < |appQueue| && appQueue[k].pid != pid
        invariant k <= |appQueue| && forall j :: 0 <= j < k ==> appQueue[j].pid != pid
      {
        k := k + 1;
      }
      AppIs(appQueue, pid, k);
    }

    /** GetAppSpawningCtxByPid: the index of the first context with the pid, or the length of the queue. */
    method GetAppSpawningCtxByPid(pid: int) returns (i: nat)
      ensures i == CtxOf(appSpawnQueue, pid)
    {
      i := 0;
      while i < |appSpawnQueue| && appSpawnQueue[i].pid != pid
        invariant i <= |appSpawnQueue| && forall j :: 0 <= j < i ==> appSpawnQueue[j].pid != pid
      {
        i := i + 1;
      }
      CtxIs(appSpawnQueue, pid, i);
    }

    /** InitSpawnedProcessInfo with AddSpawnedProcess; `usable` says whether there were a name and memory. */
    method InitSpawnedProcessInfo(i: nat, usable: bool) returns (added: bool)
      requires Valid() && i < |appSpawnQueue| && !appSpawnQueue[i].promoted
      requires appSpawnQueue[i].message.Some? && Named(appSpawnQueue[i])
      modifies this`appSpawnQueue, this`appQueue
      ensures Valid() && (added <==> usable && 0 < old(appSpawnQueue)[i].pid)
      ensures !added ==> appSpawnQueue == old(appSpawnQueue) && appQueue == old(appQueue)
      ensures added ==>
                && appSpawnQueue == old(appSpawnQueue)[i := old(appSpawnQueue)[i].(promoted := true)]
                && appQueue == Inserted(old(appQueue), Record(old(appSpawnQueue)[i]))
    {
      hide Sum, PipeFds, CtxFds, CtxOwes, CtxPid, CtxToken, CtxUid, NodeFds, Places, ChildLaw, RefLaw, IdLaw, FdLaw,
        RequestLaw, MailLaw, CrashLaw, SortedByPid, Plus, Minus, Added, Removed, kernel.Valid;
      var pid := appSpawnQueue[i].pid;
      if pid <= 0 || !usable {
        return false;
      }
      var k := 0;
      while k < |appQueue| && appQueue[k].pid <= pid
        invariant k <= |appQueue| && forall j :: 0 <= j < k ==> appQueue[j].pid <= pid
      {
        k := k + 1;
      }
      AddSpawnedProcess(i, k);
      added := true;
    }

    /** OH_ListAddWithOrder of the new record, whose place was found. */
    method AddSpawnedProcess(i: nat, k: nat)
      requires Valid() && i < |appSpawnQueue| && !appSpawnQueue[i].promoted && 0 < appSpawnQueue[i].pid
      requires appSpawnQueue[i].message.Some? && Named(appSpawnQueue[i])
      requires k <= |appQueue| && (k < |appQueue| ==> appSpawnQueue[i].pid < appQueue[k].pid)
      requires forall j :: 0 <= j < k ==> appQueue[j].pid <= appSpawnQueue[i].pid
      modifies this`appSpawnQueue, this`appQueue
      ensures Valid()
      ensures appSpawnQueue == old(appSpawnQueue)[i := old(appSpawnQueue)[i].(promoted := true)]
      ensures appQueue == Inserted(old(appQueue), Record(old(appSpawnQueue)[i]))
    {
      hide Sum, PipeFds, CtxFds, CtxOwes, CtxPid, CtxToken, CtxUid, NodeFds, Places, ChildLaw, RefLaw, IdLaw, FdLaw,
        RequestLaw, MailLaw, CrashLaw, SortedByPid, Plus, Minus, Added, Removed, kernel.Valid;
      var ctx, app := appSpawnQueue[i].(promoted := true), Record(appSpawnQueue[i]);
      ChildPromoted(appSpawnQueue, i, appQueue, k, Idle(), handPids, kernel.used, kernel.children, kernel.excused,
                    kernel.tokenRefs, leakedTokens, kernel.uidRefs, leakedUids);
      hide Inserted, Record, Named;
      Put(i, ctx);
      appQueue := appQueue[..k] + [app] + appQueue[k..];
    }

    /** The laws that a new record is about. */
    lemma ChildPromoted(q: seq<Ctx>, i: nat, apps: seq<App>, k: nat, idle: int, hand: multiset<int>, used: set<int>,
                        children: set<int>, excused: set<int>, tokens: multiset<int>, leakedTokens: multiset<int>,
                        uids: multiset<int>, leakedUids: multiset<int>)
      requires i < |q| && !q[i].promoted && 0 < q[i].pid && q[i].message.Some? && Named(q[i])
      requires k <= |apps| && (k < |apps| ==> q[i].pid < apps[k].pid) && forall j :: 0 <= j < k ==> apps[j].pid <= q[i].pid
      requires ChildLaw(Places(idle, Sum(q, CtxPid), Sum(apps, AppPid), hand), used, children, excused)
      requires RefLaw(tokens, Sum(q, CtxToken), Sum(apps, AppToken), leakedTokens)
      requires RefLaw(uids, Sum(q, CtxUid), Sum(apps, AppUid), leakedUids) && SortedByPid(apps)
      ensures var q', apps' := q[i := q[i].(promoted := true)], apps[..k] + [Record(q[i])] + apps[k..];
              && ChildLaw(Places(idle, Sum(q', CtxPid), Sum(apps', AppPid), hand), used, children, excused)
              && RefLaw(tokens, Sum(q', CtxToken), Sum(apps', AppToken), leakedTokens)
              && RefLaw(uids, Sum(q', CtxUid), Sum(apps', AppUid), leakedUids) && SortedByPid(apps')
              && Sum(q', CtxFds) == Sum(q, CtxFds) && Sum(q', CtxOwes) == Sum(q, CtxOwes)
              && apps' == Inserted(apps, Record(q[i]))
    {
      var ctx, app := q[i].(promoted := true), Record(q[i]);
      NotYetAnApp(idle, q, apps, hand, used, children, excused, i);
      SortedInsert(apps, k, app);
      InsertedAt(apps, k, app);
      hide Sum, CtxFds, CtxOwes, CtxPid, CtxToken, CtxUid, Places, ChildLaw, RefLaw, SortedByPid, Plus, Inserted;
      PromotedSums(q, i, ctx);
      AppAdded(apps, k, app);
      PlacesMove(idle, Sum(q[i := ctx], CtxPid), Sum(apps, AppPid), hand, app.pid);
      RefPromoted(tokens, Sum(q[i := ctx], CtxToken), Sum(apps, AppToken), leakedTokens, app.tokenRef, app.token);
      RefPromoted(uids, Sum(q[i := ctx], CtxUid), Sum(apps, AppUid), leakedUids, app.uidRef, app.uid);
    }

    /** `appInfo->exitStatus = status` */
    method SetExitStatus(k: nat, status: int)
      requires Valid() && k < |appQueue|
      modifies this`appQueue
      ensures Valid() && appQueue == old(appQueue)[k := old(appQueue)[k].(exitStatus := status)]
    {
      hide Sum, PipeFds, CtxFds, CtxOwes, CtxPid, CtxToken, CtxUid, NodeFds, Places, ChildLaw, RefLaw, IdLaw, FdLaw,
        RequestLaw, MailLaw, CrashLaw, SortedByPid, Plus, Minus, Added, Removed, kernel.Valid;
      var app := appQueue[k].(exitStatus := status);
      AppExited(appQueue, k, app);
      SortedSame(appQueue, k, app);
      appQueue := appQueue[k := app];
    }

    /** OnAppExitUpdateRefCount: a bit is cleared only when its count was lowered. */
    method OnAppExitUpdateRefCount(k: nat, decToken: bool, decUid: bool)
      requires Valid() && k < |appQueue|
      modifies this`appQueue, this`leakedTokens, this`leakedUids, kernel`tokenRefs, kernel`uidRefs
      ensures Valid() && leakedTokens == old(leakedTokens) && leakedUids == old(leakedUids)
      ensures appQueue == old(appQueue)[k := old(appQueue)[k].(tokenRef := old(appQueue)[k].tokenRef && !decToken,
                                                               uidRef := old(appQueue)[k].uidRef && !decUid)]
    {
      hide Valid, Plus, Minus;
      var app := appQueue[k];
      PlusMinus(leakedTokens, true, app.token);
      PlusMinus(leakedUids, true, app.uid);
      if app.tokenRef && decToken {
        ForgetAppToken(k);
        DecTokenid(app.token, true);
      }
      if app.uidRef && decUid {
        ForgetAppUid(k);
        DecUid(app.uid, true);
      }
    }

    /** `spmRefAdded &= ~SPM_REF_TOKENID` of a process record. */
    method ForgetAppToken(k: nat)
      requires Valid() && k < |appQueue|
      modifies this`appQueue, this`leakedTokens
      ensures Valid() && appQueue == old(appQueue)[k := old(appQueue)[k].(tokenRef := false)]
      ensures leakedTokens == Plus(old(leakedTokens), old(appQueue)[k].tokenRef, old(appQueue)[k].token)
    {
      hide Sum, PipeFds, CtxFds, CtxOwes, CtxPid, CtxToken, CtxUid, NodeFds, Places, ChildLaw, RefLaw, IdLaw, FdLaw,
        RequestLaw, MailLaw, CrashLaw, SortedByPid, Plus, Minus, Added, Removed, kernel.Valid;
      var app := appQueue[k];
      var now := app.(tokenRef := false);
      AppTokenForgotten(appQueue, k, now);
      SortedSame(appQueue, k, now);
      AppRefForgotten(kernel.tokenRefs, Sum(appSpawnQueue, CtxToken), Sum(appQueue[k := now], AppToken), leakedTokens,
                      app.tokenRef, app.token);
      appQueue := appQueue[k := now];
      leakedTokens := Plus(leakedTokens, app.tokenRef, app.token);
    }

    /** `spmRefAdded &= ~SPM_REF_UID` of a process record. */
    method ForgetAppUid(k: nat)
      requires Valid() && k < |appQueue|
      modifies this`appQueue, this`leakedUids
      ensures Valid() && appQueue == old(appQueue)[k := old(appQueue)[k].(uidRef := false)]
      ensures leakedUids == Plus(old(leakedUids), old(appQueue)[k].uidRef, old(appQueue)[k].uid)
    {
      hide Sum, PipeFds, CtxFds, CtxOwes, CtxPid, CtxToken, CtxUid, NodeFds, Places, ChildLaw, RefLaw, IdLaw, FdLaw,
        RequestLaw, MailLaw, CrashLaw, SortedByPid, Plus, Minus, Added, Removed, kernel.Valid;
      var app := appQueue[k];
      var now := app.(uidRef := false);
      AppUidForgotten(appQueue, k, now);
      SortedSame(appQueue, k, now);
      AppRefForgotten(kernel.uidRefs, Sum(appSpawnQueue, CtxUid), Sum(appQueue[k := now], AppUid), leakedUids,
                      app.uidRef, app.uid);
      appQueue := appQueue[k := now];
      leakedUids := Plus(leakedUids, app.uidRef, app.uid);
    }

    /** `OH_ListRemove` and `free` of a record; its child is in the hands of the handler, counts it
        still records leak. */
    method RemoveApp(k: nat)
      requires Valid() && k < |appQueue|
      modifies this`appQueue, this`leakedTokens, this`leakedUids, this`handPids
      ensures Valid() && appQueue == Without(old(appQueue), k)
      ensures handPids == Plus(old(handPids), true, old(appQueue)[k].pid)
      ensures leakedTokens == Plus(old(leakedTokens), old(appQueue)[k].tokenRef, old(appQueue)[k].token)
      ensures leakedUids == Plus(old(leakedUids), old(appQueue)[k].uidRef, old(appQueue)[k].uid)
    {
      hide Valid, Plus;
      ForgetAppToken(k);
      ForgetAppUid(k);
      UnlinkApp(k);
    }

    method UnlinkApp(k: nat)
      requires Valid() && k < |appQueue| && !appQueue[k].tokenRef && !appQueue[k].uidRef
      modifies this`appQueue, this`handPids
      ensures Valid() && appQueue == Without(old(appQueue), k)
      ensures handPids == Plus(old(handPids), true, old(appQueue)[k].pid)
    {
      hide Sum, PipeFds, CtxFds, CtxOwes, CtxPid, CtxToken, CtxUid, NodeFds, Places, ChildLaw, RefLaw, IdLaw, FdLaw,
        RequestLaw, MailLaw, CrashLaw, SortedByPid, Plus, Minus, Added, Removed, kernel.Valid;
      var app, rest := appQueue[k], Without(appQueue, k);
      AppGone(appQueue, k);
      PlusMinus(Sum(rest, AppToken), true, app.token);
      PlusMinus(Sum(rest, AppUid), true, app.uid);
      SortedWithout(appQueue, k);
      AppToHand(Idle(), Sum(appSpawnQueue, CtxPid), Sum(rest, AppPid), handPids, app.pid);
      appQueue := rest;
      handPids := Plus(handPids, true, app.pid);
    }

    /** TerminateSpawnedProcess: nwebspawn keeps the last records of the dead. */
    method TerminateSpawnedProcess(k: nat)
      requires Valid() && k < |appQueue|
      requires appQueue[k].pid in kernel.excused || appQueue[k].pid !in kernel.children
      modifies this`appQueue, this`leakedTokens, this`leakedUids, this`handPids, this`diedQueue, this`diedAppCount
      ensures Valid() && appQueue == Without(old(appQueue), k) && handPids == old(handPids)
      ensures leakedTokens == Plus(old(leakedTokens), old(appQueue)[k].tokenRef, old(appQueue)[k].token)
      ensures leakedUids == Plus(old(leakedUids), old(appQueue)[k].uidRef, old(appQueue)[k].uid)
      ensures diedQueue == if isNWebSpawn then Latest(old(diedQueue)) + [old(appQueue)[k]] else old(diedQueue)
    {
      hide Valid, Plus, Minus, Latest;
      var app := appQueue[k];
      PlusMinus(handPids, true, app.pid);
      RemoveApp(k);
      ForgetHand(app.pid);
      if isNWebSpawn {
        Bury(app);
      }
    }

    method Bury(app: App)
      requires Valid() && isNWebSpawn
      modifies this`diedQueue, this`diedAppCount
      ensures Valid() && diedQueue == Latest(old(diedQueue)) + [app]
    {
      hide Sum, PipeFds, CtxFds, CtxOwes, CtxPid, CtxToken, CtxUid, NodeFds, Places, ChildLaw, RefLaw, IdLaw, FdLaw,
        RequestLaw, MailLaw, CrashLaw, SortedByPid, Plus, Minus, Added, Removed, kernel.Valid;
      if diedAppCount >= MAX_DIED_PROCESS_COUNT {
        diedQueue := diedQueue[1..];
        diedAppCount := diedAppCount - 1;
      }
      diedQueue := diedQueue + [app];
      diedAppCount := diedAppCount + 1;
    }

    /** A child in the hands of the handler is no concern any more. */
    ghost method ForgetHand(pid: int)
      requires Valid() && pid in handPids && (pid in kernel.excused || pid !in kernel.children)
      modifies this`handPids
      ensures Valid() && handPids == Minus(old(handPids), true, pid)
    {
      hide Sum, PipeFds, CtxFds, CtxOwes, CtxPid, CtxToken, CtxUid, NodeFds, Places, ChildLaw, RefLaw, IdLaw, FdLaw,
        RequestLaw, MailLaw, CrashLaw, SortedByPid, Plus, Minus, Added, Removed, kernel.Valid;
      HandForgotten(Idle(), Sum(appSpawnQueue, CtxPid), Sum(appQueue, AppPid), handPids,
                    kernel.used, kernel.children, kernel.excused, pid);
      handPids := Minus(handPids, true, pid);
    }

    /** GetProcessTerminationStatus, the branch of a process that is dead already. */
    method TakeDied(k: nat)
      requires Valid() && k < |diedQueue|
      modifies this`diedQueue, this`diedAppCount
      ensures Valid() && diedQueue == Without(old(diedQueue), k)
    {
      hide Sum, PipeFds, CtxFds, CtxOwes, CtxPid, CtxToken, CtxUid, NodeFds, Places, ChildLaw, RefLaw, IdLaw, FdLaw,
        RequestLaw, MailLaw, CrashLaw, SortedByPid, Plus, Minus, Added, Removed, kernel.Valid;
      diedQueue := Without(diedQueue, k);
      diedAppCount := diedAppCount - 1;
    }

    // ----------------------------------------------------------------------- the pre-forked child

    /** RegisterSpawningFds of a pipe in hand. */
    method RegisterPipe(kind: int, pid: int, r: int, w: int, memory: bool, ghost h: nat) returns (registered: bool)
      requires Valid() && h < |handPipes| && handPipes[h] == Pipe(r, w) && TYPE_FOR_DEC <= kind < TYPE_INVALID
      modifies this`handPipes, fds
      ensures Valid() && (registered <==> memory)
      ensures registered ==> handPipes == Without(old(handPipes), h)
                             && fds.nodes == old(fds.nodes) + [FdNode(kind, pid, [r, w])]
      ensures !registered ==> handPipes == old(handPipes) && fds.nodes == old(fds.nodes)
    {
      hide Sum, PipeFds, CtxFds, CtxOwes, CtxPid, CtxToken, CtxUid, NodeFds, Places, ChildLaw, RefLaw, IdLaw, FdLaw,
        RequestLaw, MailLaw, CrashLaw, SortedByPid, Plus, Minus, Added, Removed, kernel.Valid;
      registered := fds.RegisterSpawningFds(kind, pid, [r, w], memory);
      if registered {
        PipeNode(kind, pid, r, w);
        SumAppend(old(fds.nodes), FdNode(kind, pid, [r, w]), NodeFds);
        SumWithout(handPipes, h, PipeFds);
        FdsMove(kernel.open, Sum(old(fds.nodes), NodeFds), Sum(appSpawnQueue, CtxFds),
                Sum(Without(handPipes, h), PipeFds), PipeFds(Pipe(r, w)));
        handPipes := Without(handPipes, h);
      }
    }

    /** DeleteSpawningFds: the pipe of the node stays open, in the hands of the handler. */
    method DeleteSpawningFds(k: nat, r: int, w: int)
      requires Valid() && k < |fds.nodes| && fds.nodes[k].fds == [r, w]
      modifies this`handPipes, fds
      ensures Valid() && handPipes == old(handPipes) + [Pipe(r, w)] && fds.nodes == Without(old(fds.nodes), k)
    {
      hide Sum, PipeFds, CtxFds, CtxOwes, CtxPid, CtxToken, CtxUid, NodeFds, Places, ChildLaw, RefLaw, IdLaw, FdLaw,
        RequestLaw, MailLaw, CrashLaw, SortedByPid, Plus, Minus, Added, Removed, kernel.Valid;
      FdsHeld(kernel.open, Sum(fds.nodes, NodeFds), Sum(appSpawnQueue, CtxFds), Sum(handPipes, PipeFds));
      PipeNode(fds.nodes[k].kind, fds.nodes[k].pid, r, w);
      SumWithout(fds.nodes, k, NodeFds);
      SumAppend(handPipes, Pipe(r, w), PipeFds);
      FdsMove(kernel.open, Sum(Without(fds.nodes, k), NodeFds), Sum(appSpawnQueue, CtxFds), Sum(handPipes, PipeFds),
              PipeFds(Pipe(r, w)));
      fds.DeleteSpawningFds(k);
      handPipes := handPipes + [Pipe(r, w)];
    }

    /** ClearPipeFd on a pipe in hand. */
    method ClearPipe(r: int, w: int, ghost h: nat)
      requires Valid() && h < |handPipes| && handPipes[h] == Pipe(r, w) && 0 < r && 0 < w
      modifies this`handPipes, kernel`open
      ensures Valid() && handPipes == Without(old(handPipes), h)
    {
      hide Sum, PipeFds, CtxFds, CtxOwes, CtxPid, CtxToken, CtxUid, NodeFds, Places, ChildLaw, RefLaw, IdLaw, FdLaw,
        RequestLaw, MailLaw, CrashLaw, SortedByPid, Plus, Minus, Added, Removed, kernel.Valid;
      SumWithout(handPipes, h, PipeFds);
      PipeOpened(r, w);
      PipeClosed(kernel.open, Sum(fds.nodes, NodeFds), Sum(appSpawnQueue, CtxFds), Sum(Without(handPipes, h), PipeFds),
                 r, w);
      kernel.Close(r);
      kernel.Close(w);
      handPipes := Without(handPipes, h);
    }

    /** The fork of ForkAndRegisterFds, with context `i` at work: the child answers on one of the two pipes
        registered before, and reads requests from the other. */
    method ForkReserved(i: nat, cr: int, cw: int, pr: int, pw: int, forkOk: bool, ghost before: seq<FdNode>)
      returns (pid: int)
      requires Valid() && i < |appSpawnQueue| && NewEnd(cr, kernel) && NewEnd(pr, kernel) && 0 < cw && 0 < pr
      requires SamePipe(cr, cw, kernel.pipeOf) && SamePipe(pr, pw, kernel.pipeOf)
      requires fds.nodes == before + ForkNodes(cr, cw, pr, pw, -1) && forall n :: n in before ==> NoChilds(n, kernel.self)
      modifies this`handPids
      modifies kernel`nextPid, kernel`used, kernel`children, kernel`images, kernel`answersOn, kernel`readsFrom
      ensures Valid() && (forkOk <==> 0 < pid)
      ensures !forkOk ==> pid < 0 && handPids == old(handPids)
                          && kernel.answersOn == old(kernel.answersOn) && kernel.readsFrom == old(kernel.readsFrom)
                          && kernel.used == old(kernel.used) && kernel.children == old(kernel.children)
      ensures forkOk ==>
                && handPids == Plus(old(handPids), true, pid)
                && Born(pid, old(kernel.used), old(kernel.children), kernel.used, kernel.children)
                && Wired(pid, cr, kernel.pipeOf, old(kernel.answersOn), kernel.answersOn)
                && Wired(pid, pr, kernel.pipeOf, old(kernel.readsFrom), kernel.readsFrom)
    {
      hide Sum, PipeFds, CtxFds, CtxOwes, CtxPid, CtxToken, CtxUid, NodeFds, Places, ChildLaw, RefLaw, IdLaw, FdLaw,
        RequestLaw, MailLaw, CrashLaw, SortedByPid, Plus, Minus, Added, Removed, kernel.Valid, Unshared, SamePipe,
        AnswerPipe, RequestPipe, OpenEnds, ForkNodes;
      PidsAreUsed();
      ghost var c := appSpawnQueue[i];
      ForkNodesApart(i, cr, cw, pr, pw, before);
      pid := kernel.Fork(forkOk, Preforked, fds.nodes, c.fd0, c.fd1);
      if forkOk {
        assert forall n :: n in before ==> n.pid != pid;
        PreforkedFork(kernel.open, kernel.pipeOf, before, c.fd0, c.fd1, cr, cw, pr, pw, pid);
        MailForked(appSpawnQueue, requestId, old(kernel.answersOn), old(kernel.readsFrom), kernel.inbox, pid,
                   kernel.pipeOf[cr].pipe, Some(kernel.pipeOf[pr].pipe));
        HandForked(Idle(), Sum(appSpawnQueue, CtxPid), Sum(appQueue, AppPid), handPids,
                   old(kernel.used), old(kernel.children), kernel.excused, pid);
        handPids := Plus(handPids, true, pid);
      }
    }

    /** What the child needs is open, and is not in the pipe of the context at work, which it closes. */
    lemma ForkNodesApart(i: nat, cr: int, cw: int, pr: int, pw: int, before: seq<FdNode>)
      requires Valid() && i < |appSpawnQueue| && fds.nodes == before + ForkNodes(cr, cw, pr, pw, -1) && 0 < cw && 0 < pr
      ensures cw in kernel.open && pr in kernel.open
      ensures cw != appSpawnQueue[i].fd0 && cw != appSpawnQueue[i].fd1
      ensures pr != appSpawnQueue[i].fd0 && pr != appSpawnQueue[i].fd1
    {
      hide Sum, PipeFds, CtxFds, CtxOwes, CtxPid, CtxToken, CtxUid, NodeFds, Places, ChildLaw, RefLaw, IdLaw, FdLaw,
        RequestLaw, MailLaw, CrashLaw, SortedByPid, Plus, Minus, Added, Removed, kernel.Valid;
      FdsAreOnce();
      PipeNode(TYPE_CHILD_PARENT, -1, cr, cw);
      PipeNode(TYPE_PARENT_CHILD, -1, pr, pw);
      BothEnds(cr, cw);
      BothEnds(pr, pw);
      assert fds.nodes[|before|] == ForkNodes(cr, cw, pr, pw, -1)[0];
      assert fds.nodes[|before| + 1] == ForkNodes(cr, cw, pr, pw, -1)[1];
      NodeFdsApart(kernel.open, fds.nodes, appSpawnQueue, Sum(handPipes, PipeFds), |before|, i, cw);
      NodeFdsApart(kernel.open, fds.nodes, appSpawnQueue, Sum(handPipes, PipeFds), |before| + 1, i, pr);
    }

    lemma FdsAreOnce()
      requires kernel.Valid()
      ensures forall fd :: kernel.open[fd] <= 1
    {
    }

    lemma BothEnds(r: int, w: int)
      ensures (0 <= r ==> r in PipeFds(Pipe(r, w))) && (0 <= w ==> w in PipeFds(Pipe(r, w)))
    {
    }

    // ----------------------------------------------------------------------- the device for kill reasons

    /** GetKillReasonFd: the device is opened once, and registered under the spawner's own pid. */
    method GetKillReasonFd(device: Device) returns (fd: int)
      requires Valid()
      modifies fds, kernel`nextFd, kernel`open, kernel`pipeOf
      ensures Valid() && EndsKept(old(kernel.open), old(kernel.pipeOf), kernel.pipeOf)
      ensures var k := FindNode(old(fds.nodes), kernel.self, TYPE_KILL_REASON_FD);
              if k < |old(fds.nodes)| && 0 < |old(fds.nodes)[k].fds|
              then fd == old(fds.nodes)[k].fds[0] && fds.nodes == old(fds.nodes)
              else if device.openOk && device.memory
              then 0 < fd && fds.nodes == old(fds.nodes) + [FdNode(TYPE_KILL_REASON_FD, kernel.self, [fd])]
              else fd == -1 && fds.nodes == old(fds.nodes)
    {
      hide Valid, EndsKept;
      EndsStay(kernel.open, kernel.pipeOf);
      var k := fds.FindSpawningFdsByPid(kernel.self, TYPE_KILL_REASON_FD);
      if k < |fds.nodes| && 0 < |fds.nodes[k].fds| {
        return fds.nodes[k].fds[0];
      }
      fd := OpenDevice(device);
    }

    lemma EndsStay(open: multiset<int>, pipeOf: map<int, End>)
      ensures EndsKept(open, pipeOf, pipeOf) && forall fd :: fd !in open ==> EndsKept(open, pipeOf, pipeOf - {fd})
    {
    }

    /** `open` and RegisterSpawningFds of the device. */
    method OpenDevice(device: Device) returns (fd: int)
      requires Valid()
      modifies fds, kernel`nextFd, kernel`open, kernel`pipeOf
      ensures Valid() && EndsKept(old(kernel.open), old(kernel.pipeOf), kernel.pipeOf)
      ensures if device.openOk && device.memory
              then 0 < fd && fds.nodes == old(fds.nodes) + [FdNode(TYPE_KILL_REASON_FD, kernel.self, [fd])]
              else fd == -1 && fds.nodes == old(fds.nodes)
    {
      hide Sum, PipeFds, CtxFds, CtxOwes, CtxPid, CtxToken, CtxUid, NodeFds, Places, ChildLaw, RefLaw, IdLaw, FdLaw,
        RequestLaw, MailLaw, CrashLaw, SortedByPid, Plus, Minus, Added, Removed, kernel.Valid, EndsKept;
      EndsStay(kernel.open, kernel.pipeOf);
      fd := kernel.Open(device.openOk);
      if fd < 0 {
        return -1;
      }
      var registered := fds.RegisterSpawningFds(TYPE_KILL_REASON_FD, kernel.self, [fd], device.memory);
      if !registered {
        kernel.Close(fd);
        OpenedAndClosed(old(kernel.open), fd);
        return -1;
      }
      DeviceBooked(old(kernel.open), old(fds.nodes), Sum(appSpawnQueue, CtxFds), Sum(handPipes, PipeFds), kernel.self, fd);
    }

    /** The new descriptor is the new node's. */
    lemma DeviceBooked(open: multiset<int>, nodes: seq<FdNode>, inCtxs: multiset<int>, hand: multiset<int>, self: int, fd: int)
      requires FdLaw(open, Sum(nodes, NodeFds), inCtxs, hand) && 0 <= fd
      ensures FdLaw(open + multiset{fd}, Sum(nodes + [FdNode(TYPE_KILL_REASON_FD, self, [fd])], NodeFds), inCtxs, hand)
    {
      hide Sum, NodeFds;
      DeviceNode(TYPE_KILL_REASON_FD, self, fd);
      SumAppend(nodes, FdNode(TYPE_KILL_REASON_FD, self, [fd]), NodeFds);
      DeviceOpened(open, Sum(nodes, NodeFds), inCtxs, hand, fd);
    }

    lemma OpenedAndClosed(open: multiset<int>, fd: int)
      ensures open + multiset{fd} - multiset{fd} == open
    {
    }

    /** `content->reservedPid = pid`, when no reserved child is forgotten by it. */
    method Reserve(pid: int)
      requires Valid() && (reservedPid <= 0 || given) && (0 < pid ==> pid in handPids)
      modifies this`reservedPid, this`given, this`handPids
      ensures Valid() && reservedPid == pid && !given && handPids == Minus(old(handPids), 0 < pid, pid)
    {
      hide Sum, PipeFds, CtxFds, CtxOwes, CtxPid, CtxToken, CtxUid, NodeFds, Places, ChildLaw, RefLaw, IdLaw, FdLaw,
        RequestLaw, MailLaw, CrashLaw, SortedByPid, Plus, Minus, Added, Removed, kernel.Valid;
      ReservedFromHand(Idle(), pid, Sum(appSpawnQueue, CtxPid), Sum(appQueue, AppPid), handPids);
      handPids := Minus(handPids, 0 < pid, pid);
      reservedPid, given := pid, false;
    }

    /** `content->reservedPid = 0`: a child that still was reserved is in the hands of the handler. */
    method Unreserve()
      requires Valid()
      modifies this`reservedPid, this`given, this`handPids
      ensures Valid() && reservedPid == 0 && !given
      ensures handPids == Plus(old(handPids), 0 < old(Idle()), old(reservedPid))
    {
      hide Sum, PipeFds, CtxFds, CtxOwes, CtxPid, CtxToken, CtxUid, NodeFds, Places, ChildLaw, RefLaw, IdLaw, FdLaw,
        RequestLaw, MailLaw, CrashLaw, SortedByPid, Plus, Minus, Added, Removed, kernel.Valid;
      ReservedToHand(Idle(), reservedPid, Sum(appSpawnQueue, CtxPid), Sum(appQueue, AppPid), handPids);
      handPids := Plus(handPids, 0 < Idle(), reservedPid);
      reservedPid, given := 0, false;
    }

    /** `property->pid = content->reservedPid` */
    method GiveReserved(i: nat)
      requires Valid() && i < |appSpawnQueue| && appSpawnQueue[i].pid == 0 && !appSpawnQueue[i].promoted
      requires 0 < reservedPid && !given && NoMailFor(appSpawnQueue[i].id, kernel.readsFrom, kernel.inbox)
      modifies this`appSpawnQueue, this`given
      ensures Valid() && given
      ensures appSpawnQueue == old(appSpawnQueue)[i := old(appSpawnQueue)[i].(pid := reservedPid)]
    {
      hide Sum, PipeFds, CtxFds, CtxOwes, CtxPid, CtxToken, CtxUid, NodeFds, Places, ChildLaw, RefLaw, IdLaw, FdLaw,
        RequestLaw, MailLaw, CrashLaw, SortedByPid, Plus, Minus, Added, Removed, kernel.Valid;
      var ctx := appSpawnQueue[i].(pid := reservedPid);
      PidSums(appSpawnQueue, i, ctx);
      PlacesMove(reservedPid, Sum(appSpawnQueue, CtxPid), Sum(appQueue, AppPid), handPids, reservedPid);
      PlacesMove(0, Sum(appSpawnQueue, CtxPid), Sum(appQueue, AppPid), handPids, reservedPid);
      Put(i, ctx);
      given := true;
    }

    /** `property->pid = 0` for a child that stays the reserved one. */
    method TakeBackReserved(i: nat)
      requires Valid() && i < |appSpawnQueue| && !appSpawnQueue[i].promoted
      requires given && 0 < reservedPid == appSpawnQueue[i].pid
      modifies this`appSpawnQueue, this`given
      ensures Valid() && !given && appSpawnQueue == old(appSpawnQueue)[i := old(appSpawnQueue)[i].(pid := 0)]
    {
      hide Sum, PipeFds, CtxFds, CtxOwes, CtxPid, CtxToken, CtxUid, NodeFds, Places, ChildLaw, RefLaw, IdLaw, FdLaw,
        RequestLaw, MailLaw, CrashLaw, SortedByPid, Plus, Minus, Added, Removed, kernel.Valid;
      var ctx := appSpawnQueue[i].(pid := 0);
      ghost var q := appSpawnQueue[i := ctx];
      NoPidSums(appSpawnQueue, i, ctx);
      PlacesMove(0, Sum(q, CtxPid), Sum(appQueue, AppPid), handPids, reservedPid);
      PlacesMove(reservedPid, Sum(q, CtxPid), Sum(appQueue, AppPid), handPids, reservedPid);
      Put(i, ctx);
      given := false;
    }

    /** `property->pid = 0` for a child that was killed. */
    method ClearPid(i: nat)
      requires Valid() && i < |appSpawnQueue| && 0 < appSpawnQueue[i].pid && !appSpawnQueue[i].promoted
      requires appSpawnQueue[i].pid in kernel.excused
      modifies this`appSpawnQueue
      ensures Valid() && appSpawnQueue == old(appSpawnQueue)[i := old(appSpawnQueue)[i].(pid := 0)]
    {
      hide Sum, PipeFds, CtxFds, CtxOwes, CtxPid, CtxToken, CtxUid, NodeFds, Places, ChildLaw, RefLaw, IdLaw, FdLaw,
        RequestLaw, MailLaw, CrashLaw, SortedByPid, Plus, Minus, Added, Removed, kernel.Valid;
      var ctx, pid := appSpawnQueue[i].(pid := 0), appSpawnQueue[i].pid;
      ghost var q := appSpawnQueue[i := ctx];
      NoPidSums(appSpawnQueue, i, ctx);
      PlacesMove(Idle(), Sum(q, CtxPid), Sum(appQueue, AppPid), handPids, pid);
      ChildForgotten(Places(Idle(), Sum(q, CtxPid), Sum(appQueue, AppPid), handPids),
                     kernel.used, kernel.children, kernel.excused, pid);
      Put(i, ctx);
    }

    /** `pfFds->pid = pid` */
    method SetNodePid(k: nat, pid: int)
      requires Valid() && k < |fds.nodes|
      modifies fds`nodes
      ensures Valid() && fds.nodes == old(fds.nodes)[k := old(fds.nodes)[k].(pid := pid)]
    {
      NodeFdsSame(fds.nodes[k], pid);
      hide Sum, PipeFds, CtxFds, CtxOwes, CtxPid, CtxToken, CtxUid, NodeFds, Places, ChildLaw, RefLaw, IdLaw, FdLaw,
        RequestLaw, MailLaw, CrashLaw, SortedByPid, Plus, Minus, Added, Removed, kernel.Valid;
      SumUpdate(fds.nodes, k, fds.nodes[k].(pid := pid), NodeFds);
      fds.nodes := fds.nodes[k := fds.nodes[k].(pid := pid)];
    }

    /** CleanupSpawningFdsByPid */
    method CleanupSpawningFdsByPid(pid: int)
      requires Valid()
      modifies fds, kernel`open
      ensures Valid() && fds.nodes == OfOthers(old(fds.nodes), pid)
    {
      hide Sum, PipeFds, CtxFds, CtxOwes, CtxPid, CtxToken, CtxUid, NodeFds, Places, ChildLaw, RefLaw, IdLaw, FdLaw,
        RequestLaw, MailLaw, CrashLaw, SortedByPid, Plus, Minus, Added, Removed, kernel.Valid;
      FdsHeld(kernel.open, Sum(fds.nodes, NodeFds), Sum(appSpawnQueue, CtxFds), Sum(handPipes, PipeFds));
      var count := fds.CleanupSpawningFdsByPid(pid);
      FdsCleaned(old(kernel.open), Sum(old(fds.nodes), NodeFds), Sum(appSpawnQueue, CtxFds), Sum(handPipes, PipeFds),
                 kernel.open, Sum(fds.nodes, NodeFds));
    }

    /** SpawningFdsDestroy */
    method CloseNode(k: nat)
      requires Valid() && k < |fds.nodes|
      modifies fds, kernel`open
      ensures Valid() && fds.nodes == Without(old(fds.nodes), k)
    {
      hide Sum, PipeFds, CtxFds, CtxOwes, CtxPid, CtxToken, CtxUid, NodeFds, Places, ChildLaw, RefLaw, IdLaw, FdLaw,
        RequestLaw, MailLaw, CrashLaw, SortedByPid, Plus, Minus, Added, Removed, kernel.Valid;
      FdsHeld(kernel.open, Sum(fds.nodes, NodeFds), Sum(appSpawnQueue, CtxFds), Sum(handPipes, PipeFds));
      fds.CloseNode(k);
      NodeClosed(old(kernel.open), Sum(fds.nodes, NodeFds), Sum(appSpawnQueue, CtxFds), Sum(handPipes, PipeFds),
                 kernel.open, NodeFds(old(fds.nodes)[k]));
    }

    /** UnregisterSpawningFdsByPid */
    method UnregisterSpawningFdsByPid(pid: int, kind: int) returns (ret: int)
      requires Valid()
      modifies fds, kernel`open
      ensures Valid()
      ensures var k := FindNode(old(fds.nodes), pid, kind);
              if k == |old(fds.nodes)| then ret != 0 && fds.nodes == old(fds.nodes)
              else ret == 0 && fds.nodes == Without(old(fds.nodes), k)
    {
      hide Sum, PipeFds, CtxFds, CtxOwes, CtxPid, CtxToken, CtxUid, NodeFds, Places, ChildLaw, RefLaw, IdLaw, FdLaw,
        RequestLaw, MailLaw, CrashLaw, SortedByPid, Plus, Minus, Added, Removed, kernel.Valid;
      FdsHeld(kernel.open, Sum(fds.nodes, NodeFds), Sum(appSpawnQueue, CtxFds), Sum(handPipes, PipeFds));
      ghost var k := FindNode(fds.nodes, pid, kind);
      if k < |fds.nodes| {
        SumWithout(fds.nodes, k, NodeFds);
      }
      ret := fds.UnregisterSpawningFdsByPid(pid, kind);
      if ret == 0 {
        NodeClosed(old(kernel.open), Sum(fds.nodes, NodeFds), Sum(appSpawnQueue, CtxFds), Sum(handPipes, PipeFds),
                   kernel.open, NodeFds(old(fds.nodes)[k]));
      }
    }

    /** TransferPreforkFdToForkCtx: the pipe moves from the queue into the context. */
    method TransferPreforkFdToForkCtx(i: nat, childPid: int) returns (ret: int)
      requires Valid() && i < |appSpawnQueue| && appSpawnQueue[i].fd0 < 0 && appSpawnQueue[i].fd1 < 0
      requires var k := FindNode(fds.nodes, childPid, TYPE_CHILD_PARENT); k < |fds.nodes| ==> |fds.nodes[k].fds| == 2
      modifies this`appSpawnQueue, fds
      ensures Valid()
      ensures var k := FindNode(old(fds.nodes), childPid, TYPE_CHILD_PARENT);
              if k == |old(fds.nodes)| then ret != 0 && fds.nodes == old(fds.nodes) && appSpawnQueue == old(appSpawnQueue)
              else
                && ret == 0 && fds.nodes == Without(old(fds.nodes), k)
                && appSpawnQueue == old(appSpawnQueue)[i := old(appSpawnQueue)[i].(fd0 := old(fds.nodes)[k].fds[0],
                                                                                   fd1 := old(fds.nodes)[k].fds[1])]
    {
      hide Sum, PipeFds, CtxFds, CtxOwes, CtxPid, CtxToken, CtxUid, NodeFds, Places, ChildLaw, RefLaw, IdLaw, FdLaw,
        RequestLaw, MailLaw, CrashLaw, SortedByPid, Plus, Minus, Added, Removed, kernel.Valid;
      FdsHeld(kernel.open, Sum(fds.nodes, NodeFds), Sum(appSpawnQueue, CtxFds), Sum(handPipes, PipeFds));
      var k := fds.FindSpawningFdsByPid(childPid, TYPE_CHILD_PARENT);
      if k == |fds.nodes| {
        return -1;
      }
      var r, w := fds.nodes[k].fds[0], fds.nodes[k].fds[1];
      assert fds.nodes[k].fds == [r, w];
      var ctx := appSpawnQueue[i].(fd0 := r, fd1 := w);
      PipeNode(fds.nodes[k].kind, fds.nodes[k].pid, r, w);
      SumWithout(fds.nodes, k, NodeFds);
      PipeSums(appSpawnQueue, i, ctx);
      FdsMove(kernel.open, Sum(Without(fds.nodes, k), NodeFds), Sum(appSpawnQueue, CtxFds), Sum(handPipes, PipeFds),
              PipeFds(Pipe(r, w)));
      Put(i, ctx);
      ret := fds.RemoveSpawningFdsByPid(childPid, TYPE_CHILD_PARENT);
    }

    /** `property->forkCtx.fd[0] = cpFds->fds[0]; cpFds->fds[0] = -1;` */
    method TakeReadEnd(i: nat, k: nat, r: int, w: int)
      requires Valid() && i < |appSpawnQueue| && appSpawnQueue[i].fd0 < 0 && appSpawnQueue[i].fd1 < 0
      requires k < |fds.nodes| && fds.nodes[k].fds == [r, w]
      modifies this`appSpawnQueue, fds`nodes
      ensures Valid() && fds.nodes == old(fds.nodes)[k := old(fds.nodes)[k].(fds := [-1, w])]
      ensures appSpawnQueue == old(appSpawnQueue)[i := old(appSpawnQueue)[i].(fd0 := r, fd1 := -1)]
    {
      hide Sum, PipeFds, CtxFds, CtxOwes, CtxPid, CtxToken, CtxUid, NodeFds, Places, ChildLaw, RefLaw, IdLaw, FdLaw,
        RequestLaw, MailLaw, CrashLaw, SortedByPid, Plus, Minus, Added, Removed, kernel.Valid;
      var ctx, node := appSpawnQueue[i].(fd0 := r, fd1 := -1), fds.nodes[k].(fds := [-1, w]);
      ReadEndLeaves(fds.nodes, k, r, w);
      PipeSums(appSpawnQueue, i, ctx);
      FdsMove(kernel.open, Sum(fds.nodes[k := node], NodeFds), Sum(appSpawnQueue, CtxFds), Sum(handPipes, PipeFds),
              PipeFds(Pipe(r, -1)));
      Put(i, ctx);
      fds.nodes := fds.nodes[k := node];
    }

    /** `write` of a message to the pre-forked child that reads from the pipe of a node. */
    method WriteToChild(k: nat, msg: PipeMsg, sent: Sent) returns (ret: int)
      requires Valid() && k < |fds.nodes| && |fds.nodes[k].fds| == 2 && 0 <= fds.nodes[k].fds[1]
      requires Awaits(fds.nodes[k].pid, fds.nodes[k].fds[1], kernel.pipeOf, kernel.readsFrom, kernel.inbox)
      requires MeantFor(msg, fds.nodes[k].pid, appSpawnQueue, requestId)
      modifies kernel`inbox
      ensures Valid() && (ret == 0 <==> sent.Whole?)
      ensures Mailed(fds.nodes[k].pid, msg, sent, kernel.readsFrom, old(kernel.inbox), kernel.inbox)
    {
      hide Sum, PipeFds, CtxFds, CtxOwes, CtxPid, CtxToken, CtxUid, NodeFds, Places, ChildLaw, RefLaw, IdLaw, FdLaw,
        RequestLaw, MailLaw, CrashLaw, SortedByPid, Plus, Minus, Added, Removed, kernel.Valid, Inbox, MeantFor, Written;
      FdsHeld(kernel.open, Sum(fds.nodes, NodeFds), Sum(appSpawnQueue, CtxFds), Sum(handPipes, PipeFds));
      NodeFdOpen(fds.nodes, k, kernel.open);
      MailSent(appSpawnQueue, requestId, kernel.answersOn, kernel.readsFrom, kernel.inbox, fds.nodes[k].pid,
               fds.nodes[k].fds[1], kernel.pipeOf, msg, sent);
      ret := kernel.Write(fds.nodes[k].fds[1], msg, sent);
    }

    // ----------------------------------------------------------------------- crashes

    /** The crash history of WaitChildDied: by a signal, or in another way. */
    method CountCrash(id: nat, bySignal: bool)
      requires Valid() && 0 < id <= requestId
      modifies this`crashTimes, this`lastDiedAppId, this`signalled
      ensures Valid() && signalled == if bySignal then old(signalled) + {id} else old(signalled)
      ensures !bySignal ==> crashTimes == 0 && lastDiedAppId == old(lastDiedAppId)
      ensures bySignal ==> lastDiedAppId == id
                           && crashTimes == if id == old(lastDiedAppId) + 1 then old(crashTimes) + 1 else 1
    {
      hide Sum, PipeFds, CtxFds, CtxOwes, CtxPid, CtxToken, CtxUid, NodeFds, Places, ChildLaw, RefLaw, IdLaw, FdLaw,
        RequestLaw, MailLaw, CrashLaw, SortedByPid, Plus, Minus, Added, Removed, kernel.Valid;
      CrashCounted(crashTimes, lastDiedAppId, signalled, requestId, id);
      if bySignal {
        if id == lastDiedAppId + 1 {
          crashTimes := crashTimes + 1;
        } else {
          crashTimes := 1;
        }
        lastDiedAppId := id;
        signalled := signalled + {id};
      } else {
        crashTimes := 0;
      }
    }

    /** LE_StopLoop */
    method StopLoop()
      requires Valid()
      modifies this`running
      ensures Valid() && !running
    {
      hide Sum, PipeFds, CtxFds, CtxOwes, CtxPid, CtxToken, CtxUid, NodeFds, Places, ChildLaw, RefLaw, IdLaw, FdLaw,
        RequestLaw, MailLaw, CrashLaw, SortedByPid, Plus, Minus, Added, Removed, kernel.Valid;
      running := false;
    }
  }
}
