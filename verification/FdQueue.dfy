/** The queue of spawn descriptors and their owners: appspawn_fd_manager.c. */
module FdQueue {
  import opened Kernel
  import opened SpawnFds
  import opened Tally

  /** A descriptor a node really holds: -1 marks one that was closed or handed on. */
  function LiveFd(fd: int): multiset<int> {
    if fd >= 0 then multiset{fd} else multiset{}
  }

  function NodeFds(n: FdNode): multiset<int> {
    Sum(n.fds, LiveFd)
  }

  function NotOf(pid: int): FdNode -> bool {
    (n: FdNode) => n.pid != pid
  }

  /** The nodes of every other pid. */
  function OfOthers(nodes: seq<FdNode>, pid: int): seq<FdNode> {
    Kept(nodes, NotOf(pid))
  }

  lemma NoOthers(pid: int)
    ensures OfOthers([], pid) == []
  {
  }

  lemma OthersStep(nodes: seq<FdNode>, n: nat, pid: int)
    requires n < |nodes|
    ensures OfOthers(nodes[..n + 1], pid) ==
            OfOthers(nodes[..n], pid) + if nodes[n].pid == pid then [] else [nodes[n]]
  {
    assert nodes[..n + 1] == nodes[..n] + [nodes[n]];
    KeptAppend(nodes[..n], nodes[n], NotOf(pid));
  }

  class FdQueue {
    const kernel: Kernel
    var nodes: seq<FdNode>

    constructor (kernel: Kernel)
      ensures this.kernel == kernel && nodes == []
    {
      this.kernel, nodes := kernel, [];
    }

    /** What the queue holds is open. */
    ghost predicate Valid()
      reads this, kernel
    {
      kernel.Valid() && Sum(nodes, NodeFds) <= kernel.open
    }

    /** RegisterSpawningFds; `memory` tells whether there was any. */
    method RegisterSpawningFds(kind: int, pid: int, fds: seq<int>, memory: bool) returns (registered: bool)
      modifies this
      ensures registered <==> 0 <= kind < 5 && 0 < |fds| <= 8 && memory
      ensures nodes == if registered then old(nodes) + [FdNode(kind, pid, fds)] else old(nodes)
    {
      if kind < TYPE_FOR_DEC || TYPE_INVALID <= kind || |fds| == 0 || MAX_SPAWNING_FDS_PER_NODE < |fds| || !memory {
        return false;
      }
      nodes := nodes + [FdNode(kind, pid, fds)];
      registered := true;
    }

    /** FindSpawningFdsByPid */
    method FindSpawningFdsByPid(pid: int, kind: int) returns (i: nat)
      ensures i == FindNode(nodes, pid, kind)
    {
      i := 0;
      while i < |nodes| && !(nodes[i].pid == pid && nodes[i].kind == kind)
        invariant i <= |nodes|
        invariant forall k :: 0 <= k < i ==> !(nodes[k].pid == pid && nodes[k].kind == kind)
      {
        i := i + 1;
      }
      FindIs(nodes, pid, kind, i);
    }

    /** CloseSpawnFds: closes what the node still holds and marks it. */
    method CloseSpawnFds(i: nat)
      requires i < |nodes| && kernel.Valid() && NodeFds(nodes[i]) <= kernel.open
      modifies this, kernel`open
      ensures kernel.Valid() && old(kernel.open) == kernel.open + NodeFds(old(nodes)[i])
      ensures exists fds :: Sum(fds, LiveFd) == multiset{} && nodes == old(nodes)[i := old(nodes)[i].(fds := fds)]
    {
      hide Sum;
      SumEmpty(LiveFd);
      var fds := nodes[i].fds;
      ghost var was := fds;
      assert was[..0] == [] && was[..|was|] == was;
      for k := 0 to |fds|
        invariant nodes == old(nodes) && |fds| == |was| && fds[k..] == was[k..] && Sum(fds[..k], LiveFd) == multiset{}
        invariant kernel.Valid() && old(kernel.open) == kernel.open + Sum(was[..k], LiveFd)
      {
        NextFd(was, k);
        assert fds[k] == was[k];
        NowClosed(fds, k, if fds[k] >= 0 then fds[k := -1] else fds);
        if fds[k] >= 0 {
          CloseOne(old(kernel.open), kernel.open, Sum(was[..k], LiveFd), fds[k]);
          kernel.Close(fds[k]);
          fds := fds[k := -1];
        }
      }
      assert fds[..|fds|] == fds;
      nodes := nodes[i := nodes[i].(fds := fds)];
    }

    /** UnregisterSpawningFdsByPid: closes the descriptors and drops the node. */
    method UnregisterSpawningFdsByPid(pid: int, kind: int) returns (ret: int)
      requires Valid()
      modifies this, kernel`open
      ensures Valid()
      ensures var i := FindNode(old(nodes), pid, kind);
              if i == |old(nodes)| then ret != 0 && nodes == old(nodes) && kernel.open == old(kernel.open)
              else ret == 0 && nodes == Without(old(nodes), i)
                   && old(kernel.open) == kernel.open + NodeFds(old(nodes)[i])
    {
      var i := FindSpawningFdsByPid(pid, kind);
      if i == |nodes| {
        return -1;
      }
      CloseNode(i);
      ret := 0;
    }

    /** RemoveSpawningFdsByPid: drops the node, its descriptors stay open. */
    method RemoveSpawningFdsByPid(pid: int, kind: int) returns (ret: int)
      requires Valid()
      modifies this
      ensures Valid()
      ensures var i := FindNode(old(nodes), pid, kind);
              if i == |old(nodes)| then ret != 0 && nodes == old(nodes) else ret == 0 && nodes == Without(old(nodes), i)
    {
      var i := FindSpawningFdsByPid(pid, kind);
      if i == |nodes| {
        return -1;
      }
      DeleteSpawningFds(i);
      ret := 0;
    }

    /** DeleteSpawningFds */
    method DeleteSpawningFds(i: nat)
      requires i < |nodes| && Valid()
      modifies this
      ensures Valid() && nodes == Without(old(nodes), i)
    {
      SumWithout(nodes, i, NodeFds);
      nodes := Without(nodes, i);
    }

    /** Closes the descriptors of a node and drops it. */
    method CloseNode(i: nat)
      requires Valid() && i < |nodes|
      modifies this, kernel`open
      ensures Valid() && nodes == Without(old(nodes), i)
      ensures old(kernel.open) == kernel.open + NodeFds(old(nodes)[i])
      ensures Sum(old(nodes), NodeFds) == Sum(nodes, NodeFds) + NodeFds(old(nodes)[i])
      ensures nodes[..i] == old(nodes)[..i] && nodes[i..] == old(nodes)[i + 1..]
    {
      hide Sum, NodeFds;
      SumWithout(nodes, i, NodeFds);
      CloseSpawnFds(i);
      assert Without(nodes, i) == Without(old(nodes), i);
      Cancel(Sum(Without(nodes, i), NodeFds), kernel.open, NodeFds(old(nodes)[i]));
      nodes := Without(nodes, i);
    }

    /** CleanupSpawningFdsByPid: closes and drops every node of a pid. */
    method CleanupSpawningFdsByPid(pid: int) returns (cleanedCount: nat)
      requires Valid()
      modifies this, kernel`open
      ensures Valid() && nodes == OfOthers(old(nodes), pid)
      ensures old(kernel.open) + Sum(nodes, NodeFds) == kernel.open + Sum(old(nodes), NodeFds)
      ensures cleanedCount == |old(nodes)| - |nodes|
    {
      hide Sum, NodeFds, OfOthers;
      NoOthers(pid);
      ghost var was := nodes;
      var i := 0;
      cleanedCount := 0;
      assert was[..0] == [] && was[0..] == was && was[..|was|] == was;
      while i < |nodes|
        invariant i <= |nodes| && |nodes| + cleanedCount == |was|
        invariant nodes[..i] == OfOthers(was[..i + cleanedCount], pid) && nodes[i..] == was[i + cleanedCount..]
        invariant Valid() && old(kernel.open) + Sum(nodes, NodeFds) == kernel.open + Sum(was, NodeFds)
        decreases |nodes| - i
      {
        Tails(nodes, i, was, i + cleanedCount);
        OthersStep(was, i + cleanedCount, pid);
        if nodes[i].pid == pid {
          ghost var fds, before, open := NodeFds(nodes[i]), Sum(nodes, NodeFds), kernel.open;
          CloseNode(i);
          CloseStep(old(kernel.open), Sum(was, NodeFds), open, before, kernel.open, Sum(nodes, NodeFds), fds);
          cleanedCount := cleanedCount + 1;
        } else {
          i := i + 1;
        }
      }
    }
  }

  lemma Tails<T>(s: seq<T>, i: nat, t: seq<T>, j: nat)
    requires i < |s| && j <= |t| && s[i..] == t[j..]
    ensures j < |t| && s[i] == t[j] && s[i + 1..] == t[j + 1..] && s[..i + 1] == s[..i] + [s[i]]
  {
    assert s[i..][0] == t[j..][0] && s[i..][1..] == t[j..][1..];
  }

  /** Closing one node more keeps what was open and queued in balance. */
  lemma CloseStep(open0: multiset<int>, sum0: multiset<int>, open1: multiset<int>, sum1: multiset<int>,
                  open2: multiset<int>, sum2: multiset<int>, fds: multiset<int>)
    requires open0 + sum1 == open1 + sum0 && open1 == open2 + fds && sum1 == sum2 + fds
    ensures open0 + sum2 == open2 + sum0
  {
    assert open0 + sum1 == open0 + sum2 + fds && open1 + sum0 == open2 + sum0 + fds;
    Cancel(open0 + sum2, open2 + sum0, fds);
  }

  lemma CloseOne(before: multiset<int>, open: multiset<int>, closed: multiset<int>, fd: int)
    requires before == open + closed && closed + multiset{fd} <= before
    ensures fd in open && before == open - multiset{fd} + (closed + multiset{fd})
  {
    assert (closed + multiset{fd})[fd] <= before[fd];
  }

  lemma NextFd(fds: seq<int>, k: nat)
    requires k < |fds|
    ensures Sum(fds[..k + 1], LiveFd) == Sum(fds[..k], LiveFd) + LiveFd(fds[k])
    ensures Sum(fds[..k], LiveFd) + LiveFd(fds[k]) <= Sum(fds, LiveFd)
  {
    hide Sum, LiveFd;
    assert fds[..k + 1] == fds[..k] + [fds[k]] && fds == fds[..k + 1] + fds[k + 1..];
    SumAppend(fds[..k], fds[k], LiveFd);
    SumConcat(fds[..k + 1], fds[k + 1..], LiveFd);
  }

  lemma NowClosed(was: seq<int>, k: nat, now: seq<int>)
    requires k < |was| && Sum(was[..k], LiveFd) == multiset{}
    requires now == if was[k] >= 0 then was[k := -1] else was
    ensures Sum(now[..k + 1], LiveFd) == multiset{} && now[k + 1..] == was[k + 1..]
  {
    hide Sum;
    assert now[..k + 1] == was[..k] + [now[k]];
    SumAppend(was[..k], now[k], LiveFd);
  }
}
