/**
  The sandbox permission list: client and server exchange only the position of a permission,
  so both sides must number the same names alike. The queue is kept in `strcmp` order without
  repetitions, and renumbering gives each node its position.
  */
module Permission {
  import opened Bytes
  import opened Wrappers

  const INVALID_PERMISSION_INDEX := -1

  datatype Node = Node(name: Bytes, permissionIndex: int, opcode: u32)

  /** Strictly increasing by name, hence without repetitions. */
  ghost predicate Sorted(nodes: seq<Node>) {
    forall i, j :: 0 <= i < j < |nodes| ==> StrCmp(nodes[i].name, nodes[j].name) < 0
  }

  function Names(nodes: seq<Node>): set<Bytes> {
    set i | 0 <= i < |nodes| :: nodes[i].name
  }

  /** Each node carries its position. */
  predicate Numbered(nodes: seq<Node>) {
    forall i :: 0 <= i < |nodes| ==> nodes[i].permissionIndex == i
  }

  /** How many names of a set come before a name: what the position of a name should be. */
  function Rank(names: set<Bytes>, name: Bytes): nat {
    |set n | n in names && StrCmp(n, name) < 0|
  }

  class SandboxQueue {
    var nodes: seq<Node>

    ghost predicate Valid()
      reads this
    {
      Sorted(nodes)
    }

    constructor ()
      ensures nodes == [] && Valid()
    {
      nodes := [];
    }

    /** OH_ListFind with the name comparison. */
    method GetPermissionNodeInQueue(permission: Bytes) returns (node: Option<Node>)
      ensures node.None? <==> permission !in Names(nodes)
      ensures node.Some? ==> node.value in nodes && node.value.name == permission
    {
      var i := 0;
      while i < |nodes|
        invariant 0 <= i <= |nodes|
        invariant forall j :: 0 <= j < i ==> nodes[j].name != permission
      {
        if StrCmp(nodes[i].name, permission) == 0 {
          return Some(nodes[i]);
        }
        i := i + 1;
      }
      node := None;
    }

    /** OH_ListFind with the index comparison. */
    method GetPermissionNodeInQueueByIndex(index: int) returns (node: Option<Node>)
      ensures node.None? <==> forall n :: n in nodes ==> n.permissionIndex != index
      ensures node.Some? ==> node.value in nodes && node.value.permissionIndex == index
      ensures Numbered(nodes) ==>
                node == if 0 <= index < |nodes| then Some(nodes[index]) else None
    {
      var i := 0;
      while i < |nodes|
        invariant 0 <= i <= |nodes|
        invariant forall j :: 0 <= j < i ==> nodes[j].permissionIndex != index
      {
        if nodes[i].permissionIndex - index == 0 {
          return Some(nodes[i]);
        }
        i := i + 1;
      }
      node := None;
    }

    method GetPermissionIndexInQueue(permission: Bytes) returns (index: int)
      requires Valid()
      ensures permission !in Names(nodes) ==> index == INVALID_PERMISSION_INDEX
      ensures permission in Names(nodes) && Numbered(nodes) ==>
                0 <= index < |nodes| && nodes[index].name == permission
                && index == Rank(Names(nodes), permission)
    {
      var node := GetPermissionNodeInQueue(permission);
      index := if node.None? then INVALID_PERMISSION_INDEX else node.value.permissionIndex;
      if node.Some? && Numbered(nodes) {
        ghost var k :| 0 <= k < |nodes| && nodes[k] == node.value;
        RankIsPosition(nodes, k);
      }
    }

    /** Adds a name once, in order. `opcode` is the access-token opcode of the name when it has
        one; the node starts out zeroed, so without one its opcode field stays 0. */
    method AddSandboxPermissionNode(name: Bytes, opcode: Option<u32>)
      requires Valid()
      modifies this
      ensures Valid()
      ensures Names(nodes) == old(Names(nodes)) + {name}
      ensures name in old(Names(nodes)) ==> nodes == old(nodes)
      ensures forall n :: n in old(nodes) ==> n in nodes
      ensures name !in old(Names(nodes)) ==>
                forall n :: n in nodes ==>
                  n in old(nodes) || n == Node(name, 0, if opcode.Some? then opcode.value else 0)
    {
      var found := GetPermissionNodeInQueue(name);
      if found.Some? {
        return;
      }
      var node := Node(name, 0, if opcode.Some? then opcode.value else 0);
      // OH_ListAddWithOrder: before the first node that compares greater
      var i := 0;
      while i < |nodes| && StrCmp(nodes[i].name, name) <= 0
        invariant 0 <= i <= |nodes|
        invariant forall j :: 0 <= j < i ==> StrCmp(nodes[j].name, name) < 0
      {
        i := i + 1;
      }
      InsertSorted(nodes, i, node);
      InsertNames(nodes, i, node);
      nodes := Insert(nodes, i, node);
    }

    method PermissionRenumber() returns (max: int)
      requires Valid()
      modifies this
      ensures Valid() && Numbered(nodes) && max == |nodes| == |old(nodes)|
      ensures forall i :: 0 <= i < |nodes| ==> nodes[i] == old(nodes)[i].(permissionIndex := i)
    {
      var index := -1;
      var i := 0;
      while i < |nodes|
        invariant 0 <= i <= |nodes| == |old(nodes)| && index == i - 1
        invariant forall j :: 0 <= j < i ==> nodes[j] == old(nodes)[j].(permissionIndex := j)
        invariant forall j :: i <= j < |nodes| ==> nodes[j] == old(nodes)[j]
      {
        index := index + 1;
        nodes := nodes[i := nodes[i].(permissionIndex := index)];
        i := i + 1;
      }
      max := index + 1;
    }
  }

  function Insert(nodes: seq<Node>, i: nat, node: Node): (r: seq<Node>)
    requires i <= |nodes|
    ensures |r| == |nodes| + 1 && r[i] == node
    ensures forall j :: 0 <= j < i ==> r[j] == nodes[j]
    ensures forall j :: i < j < |r| ==> r[j] == nodes[j - 1]
  {
    nodes[..i] + [node] + nodes[i..]
  }

  lemma InsertSorted(nodes: seq<Node>, i: nat, node: Node)
    requires Sorted(nodes) && i <= |nodes|
    requires forall j :: 0 <= j < i ==> StrCmp(nodes[j].name, node.name) < 0
    requires i < |nodes| ==> StrCmp(nodes[i].name, node.name) > 0
    ensures Sorted(Insert(nodes, i, node))
  {
    var r := Insert(nodes, i, node);
    forall j, k | 0 <= j < k < |r|
      ensures StrCmp(r[j].name, r[k].name) < 0
    {
      if j == i {
        StrCmpAntisymmetric(nodes[i].name, node.name);
        if i < k - 1 {
          StrCmpTransitive(node.name, nodes[i].name, nodes[k - 1].name);
        }
      }
    }
  }

  lemma InsertNames(nodes: seq<Node>, i: nat, node: Node)
    requires i <= |nodes|
    ensures Names(Insert(nodes, i, node)) == Names(nodes) + {node.name}
    ensures forall n :: n in Insert(nodes, i, node) <==> n in nodes || n == node
  {
    var r := Insert(nodes, i, node);
    forall k | 0 <= k < |nodes|
      ensures nodes[k] in r && nodes[k].name in Names(r)
    {
      assert r[if k < i then k else k + 1] == nodes[k];
    }
    assert r[i].name in Names(r);
  }

  /** In a sorted list the position of a node is the number of smaller names. */
  lemma RankIsPosition(nodes: seq<Node>, k: nat)
    requires Sorted(nodes) && k < |nodes|
    ensures Rank(Names(nodes), nodes[k].name) == k
  {
    var smaller := set n | n in Names(nodes) && StrCmp(n, nodes[k].name) < 0;
    forall i | 0 <= i < |nodes|
      ensures StrCmp(nodes[i].name, nodes[k].name) < 0 <==> i < k
    {
      if k < i { StrCmpAntisymmetric(nodes[i].name, nodes[k].name); }
    }
    assert smaller == Names(nodes[..k]);
    assert Sorted(nodes[..k]);
    NamesCount(nodes[..k]);
  }

  lemma {:induction false} NamesCount(nodes: seq<Node>)
    requires Sorted(nodes)
    ensures |Names(nodes)| == |nodes|
    decreases |nodes|
  {
    if nodes == [] {
      assert Names(nodes) == {};
    } else {
      var last := |nodes| - 1;
      NamesCount(nodes[..last]);
      assert Names(nodes) == Names(nodes[..last]) + {nodes[last].name};
      assert nodes[last].name !in Names(nodes[..last]) by {
        assert forall i :: 0 <= i < last ==> StrCmp(nodes[i].name, nodes[last].name) < 0;
      }
    }
  }

  /** Two queues over the same names list them in the same order: whatever the order and the
      repetitions in which names were added, numbering agrees between the two sides. */
  lemma SameNamesSameOrder(a: seq<Node>, b: seq<Node>)
    requires Sorted(a) && Sorted(b) && Names(a) == Names(b)
    ensures |a| == |b|
    ensures forall i :: 0 <= i < |a| ==> a[i].name == b[i].name
  {
    NamesCount(a);
    NamesCount(b);
    forall i | 0 <= i < |a|
      ensures a[i].name == b[i].name
    {
      assert a[i].name in Names(b);
      var j :| 0 <= j < |b| && b[j].name == a[i].name;
      RankIsPosition(a, i);
      RankIsPosition(b, j);
    }
  }

  /** The index of a name and the name of an index are inverse on a numbered sorted queue. */
  lemma IndexNameInverse(nodes: seq<Node>, name: Bytes, index: nat)
    requires Sorted(nodes) && Numbered(nodes) && index < |nodes|
    ensures nodes[index].name == name <==> name in Names(nodes) && Rank(Names(nodes), name) == index
  {
    RankIsPosition(nodes, index);
    if name in Names(nodes) {
      var k :| 0 <= k < |nodes| && nodes[k].name == name;
      RankIsPosition(nodes, k);
    }
  }

  /** LoadPermissionConfig: the names of the sandbox configuration, then the built-in names. */
  method LoadPermission(config: seq<Bytes>, builtin: seq<Bytes>, opcodes: map<Bytes, u32>)
    returns (queue: SandboxQueue, maxPermissionIndex: int)
    ensures fresh(queue) && queue.Valid() && Numbered(queue.nodes)
    ensures Names(queue.nodes) == (set n | n in config) + (set n | n in builtin)
    ensures maxPermissionIndex == |queue.nodes|
    ensures forall n :: n in queue.nodes ==>
              n.opcode == if n.name in opcodes then opcodes[n.name] else 0
  {
    queue := new SandboxQueue();
    var all := config + builtin;
    for i := 0 to |all|
      invariant fresh(queue) && queue.Valid()
      invariant Names(queue.nodes) == set n | n in all[..i]
      invariant forall n :: n in queue.nodes ==>
                  n.opcode == if n.name in opcodes then opcodes[n.name] else 0
    {
      queue.AddSandboxPermissionNode(all[i], if all[i] in opcodes then Some(opcodes[all[i]]) else None);
      assert all[..i + 1] == all[..i] + [all[i]];
    }
    assert all[..|all|] == all;
    label numbering:
    ghost var before := queue.nodes;
    maxPermissionIndex := queue.PermissionRenumber();
    assert forall i :: 0 <= i < |before| ==> queue.nodes[i].name == before[i].name;
    assert Names(queue.nodes) == Names(before) by {
      forall n | n in Names(before) ensures n in Names(queue.nodes) {
        var i :| 0 <= i < |before| && before[i].name == n;
        assert queue.nodes[i].name == n;
      }
    }
  }
}
