/**
  What a child inherits from the spawner when it is forked, and what follows from it: the pipe the
  child will answer on, and the pipe a pre-forked child reads its one message from.
*/
module Images {
  import opened SpawnFds
  import opened Wrappers

  /** Which end of which pipe a descriptor is. */
  datatype End = ReadEnd(pipe: nat) | WriteEnd(pipe: nat)

  /** A child does its work at once, or it waits for a message first. */
  datatype Role = Direct | Preforked

  /** The queue of spawn descriptors, the pipe of the context at work, and the open pipe ends, all as
      they were at the fork. */
  datatype Image = Image(role: Role, nodes: seq<FdNode>, fd0: int, fd1: int, ends: map<int, End>)

  /** A pre-forked child gives its own pid to the two nodes registered for it just before. */
  function Adopted(nodes: seq<FdNode>, pid: int): seq<FdNode> {
    var n := |nodes|;
    if n < 2 then nodes
    else nodes[n - 2 := nodes[n - 2].(pid := pid)][n - 1 := nodes[n - 1].(pid := pid)]
  }

  function Inherited(image: Image, pid: int): seq<FdNode> {
    if image.role.Preforked? then Adopted(image.nodes, pid) else image.nodes
  }

  /** The descriptors of a context's pipe that ClearPipeFd closes. */
  function Cleared(fd0: int, fd1: int): set<int> {
    (if fd0 > 0 then {fd0} else {}) + (if fd1 > 0 then {fd1} else {})
  }

  /** A pre-forked child starts by closing the pipe of the context it was forked for. */
  function EndsLeft(image: Image): map<int, End> {
    if image.role.Preforked? then image.ends - Cleared(image.fd0, image.fd1) else image.ends
  }

  /** Descriptor `which` of the first node of a pid and type. */
  function FdOf(nodes: seq<FdNode>, pid: int, kind: int, which: nat): int {
    var k := FindNode(nodes, pid, kind);
    if k < |nodes| && which < |nodes[k].fds| then nodes[k].fds[which] else -1
  }

  function AnswerFd(image: Image, pid: int): int {
    if image.role.Preforked? then FdOf(Inherited(image, pid), pid, TYPE_CHILD_PARENT, 1) else image.fd1
  }

  function RequestFd(image: Image, pid: int): int {
    FdOf(Inherited(image, pid), pid, TYPE_PARENT_CHILD, 0)
  }

  /** The pipe the child can write its result into. */
  function AnswerPipe(image: Image, pid: int): Option<nat> {
    var fd := AnswerFd(image, pid);
    if 0 <= fd && fd in EndsLeft(image) && EndsLeft(image)[fd].WriteEnd? then Some(EndsLeft(image)[fd].pipe) else None
  }

  /** The pipe a pre-forked child reads from. */
  function RequestPipe(image: Image, pid: int): Option<nat> {
    var fd := RequestFd(image, pid);
    if image.role.Preforked? && fd in EndsLeft(image) && EndsLeft(image)[fd].ReadEnd? then Some(EndsLeft(image)[fd].pipe)
    else None
  }

  lemma DirectChild(image: Image, pid: int)
    requires image.role.Direct? && 0 <= image.fd1 && image.fd1 in image.ends && image.ends[image.fd1].WriteEnd?
    ensures AnswerPipe(image, pid) == Some(image.ends[image.fd1].pipe) && RequestPipe(image, pid) == None
  {
  }

  /** The last two nodes are those of the pre-forked child, and no other node has its pid. */
  ghost predicate ForPreforked(image: Image, cr: int, cw: int, pr: int, pw: int) {
    var n := |image.nodes|;
    && image.role.Preforked? && 2 <= n
    && image.nodes[n - 2].kind == TYPE_CHILD_PARENT && image.nodes[n - 2].fds == [cr, cw]
    && image.nodes[n - 1].kind == TYPE_PARENT_CHILD && image.nodes[n - 1].fds == [pr, pw]
    && 0 <= cw && cw in image.ends && image.ends[cw].WriteEnd? && pr in image.ends && image.ends[pr].ReadEnd?
    && cw != image.fd0 && cw != image.fd1 && pr != image.fd0 && pr != image.fd1
  }

  lemma PreforkedChild(image: Image, pid: int, cr: int, cw: int, pr: int, pw: int)
    requires ForPreforked(image, cr, cw, pr, pw) && forall n :: n in image.nodes ==> n.pid != pid
    ensures AnswerFd(image, pid) == cw && AnswerPipe(image, pid) == Some(image.ends[cw].pipe)
    ensures RequestFd(image, pid) == pr && RequestPipe(image, pid) == Some(image.ends[pr].pipe)
  {
    var nodes, n := Inherited(image, pid), |image.nodes|;
    assert forall k :: 0 <= k < n - 2 ==> nodes[k] == image.nodes[k] && image.nodes[k] in image.nodes;
    FindIs(nodes, pid, TYPE_CHILD_PARENT, n - 2);
    FindIs(nodes, pid, TYPE_PARENT_CHILD, n - 1);
  }
}
