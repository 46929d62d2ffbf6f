/** Nodes of the queue of spawn descriptors, as data: appspawn_fd_manager.h. */
module SpawnFds {

  const TYPE_FOR_DEC := 0
  const TYPE_FOR_FORK_ALL := 1
  const TYPE_CHILD_PARENT := 2
  const TYPE_PARENT_CHILD := 3
  const TYPE_KILL_REASON_FD := 4
  const TYPE_INVALID := 5
  const MAX_SPAWNING_FDS_PER_NODE := 8

  datatype FdNode = FdNode(kind: int, pid: int, fds: seq<int>)

  /** `OH_ListFind` with the pid and type comparison: the first match, or the length. */
  function FindNode(nodes: seq<FdNode>, pid: int, kind: int): (i: nat)
    ensures i <= |nodes|
    ensures forall k :: 0 <= k < i ==> !(nodes[k].pid == pid && nodes[k].kind == kind)
    ensures i < |nodes| ==> nodes[i].pid == pid && nodes[i].kind == kind
  {
    if nodes == [] || (nodes[0].pid == pid && nodes[0].kind == kind) then 0
    else 1 + FindNode(nodes[1..], pid, kind)
  }

  lemma FindIs(nodes: seq<FdNode>, pid: int, kind: int, i: nat)
    requires i <= |nodes| && (forall k :: 0 <= k < i ==> !(nodes[k].pid == pid && nodes[k].kind == kind))
    requires i < |nodes| ==> nodes[i].pid == pid && nodes[i].kind == kind
    ensures FindNode(nodes, pid, kind) == i
  {
    var j := FindNode(nodes, pid, kind);
    assert !(j < i) && !(i < j);
  }
}
