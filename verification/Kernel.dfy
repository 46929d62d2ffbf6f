/**
  What the spawner sees of the kernel: descriptors, children, pipes and SPM reference counts.

  Callers rely on the contracts alone: new descriptors and new pids are new, and every call may
  fail. The bodies are one kernel that keeps them, which hands out rising numbers.
*/
module Kernel {
  import opened Images
  import opened SpawnFds
  import opened Tally
  import opened Wrappers

  /** What travels from the spawner to a pre-forked child; `Torn` is a piece of a message. */
  datatype PipeMsg = ForkMsg(client: nat) | UnlockMsg(uid: int) | Torn

  /** The outcome of a `write`. */
  datatype Sent = Whole | Part | Nothing

  /** The outcome of raising a reference count. */
  datatype Increment = Raised | Refused | Unsupported

  class Kernel {
    /** The spawner's own pid. */
    const self: int
    var nextFd: int
    var nextPid: int
    /** Descriptors open in the spawner. */
    ghost var open: multiset<int>
    /** Pids ever handed out, children not reaped yet, and those of them that were killed or have
        answered on or closed their pipe. */
    ghost var used: set<int>
    ghost var children: set<int>
    ghost var excused: set<int>
    /** Pipes: which end a descriptor is, and what has been written into pipes. */
    ghost var nextPipe: nat
    ghost var pipeOf: map<int, End>
    ghost var inbox: map<nat, seq<PipeMsg>>
    /** What children inherited, and from it the pipe a child answers on and the one it reads from. */
    ghost var images: map<int, Image>
    ghost var answersOn: map<int, nat>
    ghost var readsFrom: map<int, nat>
    /** SPM reference counts. */
    ghost var tokenRefs: multiset<int>
    ghost var uidRefs: multiset<int>

    ghost predicate Valid()
      reads this
    {
      && FdsBelow(open, nextFd) && EndsBelow(pipeOf, nextPipe) && (forall p :: p in inbox ==> p < nextPipe)
      && PidsBetween(used, children, self, nextPid)
      && LinksBelow(answersOn, used, nextPipe) && LinksBelow(readsFrom, used, nextPipe)
      && Follows(images, answersOn, readsFrom)
    }

    constructor ()
      ensures Valid() && open == multiset{} && used == {} && children == {} && excused == {}
      ensures tokenRefs == multiset{} && uidRefs == multiset{}
      ensures pipeOf == map[] && answersOn == map[] && readsFrom == map[] && inbox == map[]
    {
      self, nextFd, nextPid := 1, 1, 2;
      open, used, children, excused := multiset{}, {}, {}, {};
      nextPipe, pipeOf, inbox := 0, map[], map[];
      images, answersOn, readsFrom := map[], map[], map[];
      tokenRefs, uidRefs := multiset{}, multiset{};
    }

    /** `pipe` */
    method Pipe(succeeds: bool) returns (ret: int, readEnd: int, writeEnd: int)
      requires Valid()
      modifies this`nextFd, this`open, this`nextPipe, this`pipeOf
      ensures Valid() && (ret == 0 <==> succeeds)
      ensures !succeeds ==> readEnd == -1 && writeEnd == -1
                            && open == old(open) && pipeOf == old(pipeOf) && nextPipe == old(nextPipe)
      ensures succeeds ==>
                && 0 < readEnd && 0 < writeEnd && readEnd != writeEnd
                && readEnd !in old(open) && writeEnd !in old(open)
                && open == old(open) + multiset{readEnd, writeEnd}
                && nextPipe == old(nextPipe) + 1
                && pipeOf == old(pipeOf)[readEnd := ReadEnd(old(nextPipe))][writeEnd := WriteEnd(old(nextPipe))]
    {
      if !succeeds {
        return -1, -1, -1;
      }
      ret, readEnd, writeEnd := 0, nextFd, nextFd + 1;
      nextFd := nextFd + 2;
      open := open + multiset{readEnd, writeEnd};
      ghost var pipe: nat := nextPipe;
      pipeOf := pipeOf[readEnd := ReadEnd(pipe)][writeEnd := WriteEnd(pipe)];
      nextPipe := nextPipe + 1;
    }

    /** `open` of a device. */
    method Open(succeeds: bool) returns (fd: int)
      requires Valid()
      modifies this`nextFd, this`open, this`pipeOf
      ensures Valid() && (0 <= fd <==> succeeds)
      ensures !succeeds ==> open == old(open) && pipeOf == old(pipeOf)
      ensures succeeds ==> 0 < fd && fd !in old(open) && open == old(open) + multiset{fd} && pipeOf == old(pipeOf) - {fd}
    {
      if !succeeds {
        return -1;
      }
      fd, nextFd := nextFd, nextFd + 1;
      open, pipeOf := open + multiset{fd}, pipeOf - {fd};
    }

    /** `close`: never of a descriptor that is not open. */
    method Close(fd: int)
      requires Valid() && fd in open
      modifies this`open
      ensures Valid() && open == old(open) - multiset{fd} && fd !in open
    {
      open := open - multiset{fd};
    }

    /** `fork`: the child gets a copy of everything. Where it will answer, and where it will read, is
        decided by this copy. */
    method Fork(succeeds: bool, ghost role: Role, ghost nodes: seq<FdNode>, ghost fd0: int, ghost fd1: int)
      returns (pid: int)
      requires Valid()
      modifies this`nextPid, this`used, this`children, this`images, this`answersOn, this`readsFrom
      ensures Valid()
      ensures !succeeds ==> pid < 0 && used == old(used) && children == old(children) && images == old(images)
                            && answersOn == old(answersOn) && readsFrom == old(readsFrom)
      ensures succeeds ==>
                && 0 < self < pid && pid !in old(used) && used == old(used) + {pid} && children == old(children) + {pid}
                && Copied(pid, Image(role, nodes, fd0, fd1, OpenEnds(open, pipeOf)))
                && answersOn == Noted(old(answersOn), pid, AnswerPipe(images[pid], pid))
                && readsFrom == Noted(old(readsFrom), pid, RequestPipe(images[pid], pid))
    {
      hide AnswerPipe, RequestPipe, OpenEnds, Follows, Noted, EndsBelow, FdsBelow, LinksBelow;
      if !succeeds {
        return -1;
      }
      pid := nextPid;
      nextPid := nextPid + 1;
      ghost var image := Image(role, nodes, fd0, fd1, OpenEnds(open, pipeOf));
      PipesExist(image, pid, open, pipeOf, nextPipe);
      LinkBelow(answersOn, pid, AnswerPipe(image, pid), used, nextPipe);
      LinkBelow(readsFrom, pid, RequestPipe(image, pid), used, nextPipe);
      FollowsToo(images, answersOn, readsFrom, pid, image);
      used, children := used + {pid}, children + {pid};
      images := images[pid := image];
      answersOn := Noted(answersOn, pid, AnswerPipe(image, pid));
      readsFrom := Noted(readsFrom, pid, RequestPipe(image, pid));
    }

    ghost predicate Copied(pid: int, image: Image)
      reads this`images
    {
      pid in images && images[pid] == image
    }

    /** `kill(pid, SIGKILL)`, and the other ways a child stops being the spawner's concern. */
    method Kill(pid: int)
      requires Valid()
      modifies this`excused
      ensures Valid() && excused == old(excused) + {pid}
    {
      excused := excused + {pid};
    }

    /** A child has answered on its pipe or closed it. */
    ghost method Answered(pid: int)
      requires Valid()
      modifies this`excused
      ensures Valid() && excused == old(excused) + {pid}
    {
      excused := excused + {pid};
    }

    /** `waitpid` */
    method Reap(pid: int)
      requires Valid()
      modifies this`children
      ensures Valid() && children == old(children) - {pid}
    {
      children := children - {pid};
    }

    /** `write` of a message into a pipe. */
    method Write(fd: int, msg: PipeMsg, sent: Sent) returns (ret: int)
      requires Valid() && fd in open && fd in pipeOf && pipeOf[fd].WriteEnd?
      modifies this`inbox
      ensures Valid() && (ret == 0 <==> sent.Whole?)
      ensures inbox == Written(old(inbox), pipeOf[fd].pipe, msg, sent)
    {
      inbox := Written(inbox, pipeOf[fd].pipe, msg, sent);
      ret := if sent.Whole? then 0 else -1;
    }

    /** SpmIncTokenidRefCnt and SpmIncUidRefCnt */
    method IncTokenid(token: int, outcome: Increment)
      requires Valid()
      modifies this`tokenRefs
      ensures Valid() && tokenRefs == Plus(old(tokenRefs), outcome.Raised?, token)
    {
      if outcome.Raised? {
        tokenRefs := tokenRefs + multiset{token};
      }
    }

    method IncUid(uid: int, outcome: Increment)
      requires Valid()
      modifies this`uidRefs
      ensures Valid() && uidRefs == Plus(old(uidRefs), outcome.Raised?, uid)
    {
      if outcome.Raised? {
        uidRefs := uidRefs + multiset{uid};
      }
    }

    /** SpmDecTokenidRefCnt and SpmDecUidRefCnt: never below what has been raised. */
    method DecTokenid(token: int, succeeds: bool)
      requires Valid() && token in tokenRefs
      modifies this`tokenRefs
      ensures Valid() && tokenRefs == Minus(old(tokenRefs), succeeds, token)
    {
      if succeeds {
        tokenRefs := tokenRefs - multiset{token};
      }
    }

    method DecUid(uid: int, succeeds: bool)
      requires Valid() && uid in uidRefs
      modifies this`uidRefs
      ensures Valid() && uidRefs == Minus(old(uidRefs), succeeds, uid)
    {
      if succeeds {
        uidRefs := uidRefs - multiset{uid};
      }
    }
  }

  function Inbox(inbox: map<nat, seq<PipeMsg>>, pipe: nat): seq<PipeMsg> {
    if pipe in inbox then inbox[pipe] else []
  }

  ghost function Written(inbox: map<nat, seq<PipeMsg>>, pipe: nat, msg: PipeMsg, sent: Sent): map<nat, seq<PipeMsg>> {
    match sent
    case Whole => inbox[pipe := Inbox(inbox, pipe) + [msg]]
    case Part => inbox[pipe := Inbox(inbox, pipe) + [Torn]]
    case Nothing => inbox
  }

  /** The open descriptors that belong to pipes. */
  ghost function OpenEnds(open: multiset<int>, pipeOf: map<int, End>): map<int, End> {
    map fd | fd in pipeOf && fd in open :: pipeOf[fd]
  }

  ghost function Noted(pipes: map<int, nat>, pid: int, pipe: Option<nat>): map<int, nat> {
    if pipe.Some? then pipes[pid := pipe.value] else pipes
  }

  /** Where children answer and read is what follows from what they inherited. */
  ghost predicate Follows(images: map<int, Image>, answersOn: map<int, nat>, readsFrom: map<int, nat>) {
    && (forall pid :: pid in answersOn ==> pid in images && AnswerPipe(images[pid], pid) == Some(answersOn[pid]))
    && (forall pid :: pid in readsFrom ==> pid in images && RequestPipe(images[pid], pid) == Some(readsFrom[pid]))
  }

  lemma FollowsToo(images: map<int, Image>, answersOn: map<int, nat>, readsFrom: map<int, nat>, pid: int, image: Image)
    requires Follows(images, answersOn, readsFrom) && pid !in answersOn && pid !in readsFrom
    ensures Follows(images[pid := image], Noted(answersOn, pid, AnswerPipe(image, pid)),
                    Noted(readsFrom, pid, RequestPipe(image, pid)))
  {
    hide AnswerPipe, RequestPipe;
  }

  lemma PipesExist(image: Image, pid: int, open: multiset<int>, pipeOf: map<int, End>, nextPipe: nat)
    requires image.ends == OpenEnds(open, pipeOf) && EndsBelow(pipeOf, nextPipe)
    ensures AnswerPipe(image, pid).Some? ==> AnswerPipe(image, pid).value < nextPipe
    ensures RequestPipe(image, pid).Some? ==> RequestPipe(image, pid).value < nextPipe
  {
    hide AnswerFd, RequestFd;
  }

  // ------------------------------------------------------------------------- numbers that rise

  ghost predicate FdsBelow(open: multiset<int>, nextFd: int) {
    0 < nextFd && forall fd :: fd in open ==> 0 < fd < nextFd && open[fd] == 1
  }

  ghost predicate EndsBelow(pipeOf: map<int, End>, nextPipe: nat) {
    forall fd :: fd in pipeOf ==> pipeOf[fd].pipe < nextPipe
  }

  ghost predicate PidsBetween(used: set<int>, children: set<int>, self: int, nextPid: int) {
    0 < self < nextPid && children <= used && forall pid :: pid in used ==> self < pid < nextPid
  }

  ghost predicate LinksBelow(links: map<int, nat>, used: set<int>, nextPipe: nat) {
    forall pid :: pid in links ==> pid in used && links[pid] < nextPipe
  }

  lemma LinkBelow(links: map<int, nat>, pid: int, pipe: Option<nat>, used: set<int>, nextPipe: nat)
    requires LinksBelow(links, used, nextPipe) && (pipe.Some? ==> pipe.value < nextPipe) && pid !in used
    ensures pid !in links && LinksBelow(Noted(links, pid, pipe), used + {pid}, nextPipe)
  {
  }
}
