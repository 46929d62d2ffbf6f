/**
  The other side of the fork: what a child does with what it inherited, until it has answered:
  appspawn_service.c and appspawn_server.c. Whatever happens in it, a child writes at most one result,
  and only into the pipe that follows from what it inherited.
*/
module ChildProcess {
  import opened Images
  import opened Kernel
  import opened SpawnFds
  import opened Tally
  import opened Wrappers

  /** A result in a pipe. */
  datatype Answer = Answer(pipe: nat, result: int)

  /** What AppSpawnChild meets with: the results of its hooks, of the cold start if there is to be one,
      and of the process itself. */
  datatype Course = Course(isAppSpawn: bool, clearEnv: int, coldStart: Option<int>, spawning: int, preReply: int, run: int)

  /** What a pre-forked child meets with: whether the length and the message it finds are good, the result
      of a mount, and the course of a spawn. */
  datatype Work = Work(lengthOk: bool, messageOk: bool, mounted: int, course: Course)

  const APPSPAWN_MSG_INVALID := 0xD000002

  /** Whether another image takes over: then that image reports. */
  predicate StartsCold(c: Course) {
    c.clearEnv == 0 && c.coldStart == Some(0)
  }

  /** What a child that is not started cold tells its parent: the first thing that goes wrong, success at once
      unless it is appspawn's, and otherwise nothing until the process ends badly. */
  function Told(c: Course): Option<int> {
    if c.clearEnv != 0 then Some(c.clearEnv)
    else if c.spawning != 0 then Some(c.spawning)
    else if c.preReply != 0 || !c.isAppSpawn then Some(c.preReply)
    else if c.run != 0 then Some(c.run) else None
  }

  /** What the parent is told of a child that is not started cold: of what goes wrong before the reply, the first,
      which is not 0; 0 exactly when nothing does and the child is not appspawn's; nothing exactly when nothing
      goes wrong at all and it is appspawn's. */
  lemma WhatIsTold(c: Course)
    ensures c.clearEnv != 0 ==> Told(c) == Some(c.clearEnv)
    ensures c.clearEnv == 0 && c.spawning != 0 ==> Told(c) == Some(c.spawning)
    ensures c.clearEnv == 0 && c.spawning == 0 && c.preReply != 0 ==> Told(c) == Some(c.preReply)
    ensures Told(c) == Some(0) <==> c.clearEnv == 0 && c.spawning == 0 && c.preReply == 0 && !c.isAppSpawn
    ensures Told(c) == None <==> c.clearEnv == 0 && c.spawning == 0 && c.preReply == 0 && c.run == 0 && c.isAppSpawn
    ensures c.clearEnv == 0 && c.spawning == 0 && c.preReply == 0 && c.isAppSpawn && c.run != 0 ==> Told(c) == Some(c.run)
  {
  }

  class Child {
    const pid: int
    ghost const image: Image
    var nodes: seq<FdNode>
    var fd0: int
    var fd1: int
    var client: nat
    /** The ends of pipes that are still open, and what was written into pipes. */
    var ends: map<int, End>
    var answers: seq<Answer>

    /** The child just after the fork. */
    constructor (image: Image, pid: int)
      ensures this.pid == pid && this.image == image && Untouched()
    {
      this.pid, this.image := pid, image;
      nodes := Inherited(image, pid);
      fd0, fd1, ends := image.fd0, image.fd1, image.ends;
      client, answers := 0, [];
    }

    ghost predicate Untouched()
      reads this
    {
      && nodes == Inherited(image, pid) && fd0 == image.fd0 && fd1 == image.fd1
      && ends == image.ends && answers == []
    }

    /** It has answered once at most, and if so on the pipe that follows from what it inherited. */
    ghost predicate AnswersWell()
      reads this
    {
      |answers| <= 1 && forall a :: a in answers ==> AnswerPipe(image, pid) == Some(a.pipe)
    }

    /** It has answered exactly this, on the pipe that follows from what it inherited, if there is one. */
    ghost predicate Answered(result: Option<int>)
      reads this
    {
      answers == match result
                 case None => []
                 case Some(res) => match AnswerPipe(image, pid) case None => [] case Some(p) => [Answer(p, res)]
    }

    /** The descriptor of its result is still what it was. */
    ghost predicate HoldsAnswerFd(fd: int)
      reads this
    {
      && answers == [] && fd == AnswerFd(image, pid)
      && AnswerPipe(image, pid) == if 0 <= fd && fd in ends && ends[fd].WriteEnd? then Some(ends[fd].pipe) else None
    }

    /** `write` of a result: into a pipe, if the descriptor is the write end of one. */
    method Write(fd: int, result: int)
      modifies this`answers
      ensures answers == old(answers) + if 0 <= fd && fd in ends && ends[fd].WriteEnd? then [Answer(ends[fd].pipe, result)] else []
    {
      if 0 <= fd && fd in ends && ends[fd].WriteEnd? {
        answers := answers + [Answer(ends[fd].pipe, result)];
      }
    }

    /** NotifyResToParent: the second call finds the descriptor closed. */
    method NotifyResToParent(result: int)
      requires fd1 < 0 || HoldsAnswerFd(fd1)
      requires AnswersWell()
      modifies this`answers, this`ends, this`fd1
      ensures AnswersWell() && fd1 < 0
      ensures old(fd1) < 0 ==> answers == old(answers)
      ensures old(HoldsAnswerFd(fd1)) ==> Answered(Some(result))
    {
      var fd := fd1;
      if fd >= 0 {
        Write(fd, result);
        ends := ends - {fd};
        fd1 := -1;
      }
    }

    /** AppSpawnChild: the first thing that goes wrong is what the parent is told. */
    method AppSpawnChild(course: Course)
      requires AnswersWell() && HoldsAnswerFd(fd1)
      modifies this`answers, this`ends, this`fd1
      ensures AnswersWell() && (!StartsCold(course) ==> Answered(Told(course)))
      ensures course.clearEnv != 0 ==> Answered(Some(course.clearEnv))
      ensures course.coldStart != Some(0) && course.clearEnv == 0 ==>
                if course.spawning != 0 then Answered(Some(course.spawning))
                else if course.preReply != 0 then Answered(Some(course.preReply))
                else if !course.isAppSpawn then Answered(Some(0))
                else Answered(if course.run != 0 then Some(course.run) else None)
    {
      if course.clearEnv != 0 {
        NotifyResToParent(course.clearEnv);
        return;
      }
      if course.coldStart.Some? {
        if course.coldStart.value == 0 {
          return;
        }
      }
      if course.spawning != 0 {
        NotifyResToParent(course.spawning);
        return;
      }
      if course.preReply != 0 {
        NotifyResToParent(course.preReply);
        return;
      }
      if !course.isAppSpawn {
        NotifyResToParent(0);
      }
      if course.run != 0 && course.isAppSpawn {
        NotifyResToParent(course.run);
      }
    }

    /** The child forked in AppSpawnForkChildProcess. */
    method RunSpawned(course: Course)
      requires Untouched() && image.role.Direct?
      modifies this`answers, this`ends, this`fd1
      ensures AnswersWell() && (!StartsCold(course) ==> Answered(Told(course)))
    {
      AppSpawnChild(course);
    }

    /** The child forked in ForkAndDoUnlockMount. */
    method RunMount(result: int)
      requires Untouched() && image.role.Direct?
      modifies this`answers, this`ends
      ensures AnswersWell() && Answered(Some(result))
    {
      Write(fd1, result);
      ends := ends - {fd1};
    }

    /** ClearPipeFd on the inherited pipe of a context. */
    method ClearPipeFd()
      modifies this`fd0, this`fd1, this`ends
      ensures ends == old(ends) - Cleared(old(fd0), old(fd1))
      ensures fd0 == (if old(fd0) > 0 then -1 else old(fd0)) && fd1 == (if old(fd1) > 0 then -1 else old(fd1))
    {
      if fd0 > 0 {
        ends := ends - {fd0};
        fd0 := -1;
      }
      if fd1 > 0 {
        ends := ends - {fd1};
        fd1 := -1;
      }
    }

    /** FindSpawningFdsByPid, and a descriptor of what it finds. */
    method FindFd(kind: int, which: nat) returns (fd: int)
      ensures fd == FdOf(nodes, pid, kind, which)
    {
      var k := FindNode(nodes, pid, kind);
      fd := if k < |nodes| && which < |nodes[k].fds| then nodes[k].fds[which] else -1;
    }

    /** PreforkChildLoop: one message is read, from the pipe made for it, and dispatched. `inbox` is what
        the pipes hold when the child reads. */
    method PreforkChildLoop(inbox: map<nat, seq<PipeMsg>>, work: Work) returns (msg: Option<PipeMsg>)
      requires Untouched() && image.role.Preforked?
      modifies this
      ensures AnswersWell()
      ensures msg == match RequestPipe(image, pid)
                     case None => None
                     case Some(p) => if Inbox(inbox, p) == [] then None else Some(Inbox(inbox, p)[0])
      ensures msg.Some? && msg.value.ForkMsg? && work.lengthOk ==> client == msg.value.client
      ensures match msg
              case Some(UnlockMsg(_)) => Answered(Some(work.mounted))
              case Some(ForkMsg(_)) => if work.lengthOk then AnswersWork(work) else answers == []
              case _ => answers == []
    {
      ClearPipeFd();
      msg := None;
      var fd := FindFd(TYPE_PARENT_CHILD, 0);
      if fd in ends && ends[fd].ReadEnd? && Inbox(inbox, ends[fd].pipe) != [] {
        msg := Some(Inbox(inbox, ends[fd].pipe)[0]);
      }
      if msg.Some? {
        match msg.value
        case UnlockMsg(_) => HandlePreforkUnlockMsg(work.mounted);
        case ForkMsg(client) => HandlePreforkForkMsg(client, work);
        case Torn => {}
      }
    }

    /** The queue is as inherited, and the inherited pipe of the context is closed. */
    ghost predicate Cleaned()
      reads this
    {
      nodes == Inherited(image, pid) && ends == EndsLeft(image) && answers == [] && image.role.Preforked?
    }

    /** HandlePreforkUnlockMsg */
    method HandlePreforkUnlockMsg(result: int)
      requires Cleaned()
      modifies this`answers
      ensures AnswersWell() && Answered(Some(result))
    {
      var fd := FindFd(TYPE_CHILD_PARENT, 1);
      if fd < 0 {
        return;
      }
      Write(fd, result);
    }

    /** A bad message is answered as such, a good one by what becomes of the spawn. */
    ghost predicate AnswersWork(work: Work)
      reads this
    {
      if !work.messageOk then Answered(Some(APPSPAWN_MSG_INVALID))
      else !StartsCold(work.course) ==> Answered(Told(work.course))
    }

    /** HandlePreforkForkMsg: the pipe for the answer moves from the queue into the context. */
    method HandlePreforkForkMsg(client: nat, work: Work)
      requires Cleaned()
      modifies this
      ensures AnswersWell() && (work.lengthOk ==> this.client == client && AnswersWork(work))
      ensures !work.lengthOk ==> answers == []
    {
      if !work.lengthOk {
        return;
      }
      this.client := client;
      var k := FindNode(nodes, pid, TYPE_CHILD_PARENT);
      if k == |nodes| || |nodes[k].fds| < 2 {
        return;
      }
      fd0, fd1 := nodes[k].fds[0], nodes[k].fds[1];
      nodes := Without(nodes, k);
      if !work.messageOk {
        NotifyResToParent(APPSPAWN_MSG_INVALID);
        return;
      }
      AppSpawnChild(work.course);
    }
  }
}
