/** The consistent-hash ring: who owns a metric, and what changes when a node joins or leaves. */
module HashRing {
  import opened Sequences

  type Id = string

  datatype Node = Node(id: Id, addr: string)

  /** No two virtual nodes of these identities have the same hash. */
  ghost predicate CollisionFree(hash: (Id, nat) -> nat, ids: set<Id>, replicas: nat) {
    forall a, i: nat, b, j: nat :: a in ids && b in ids && i < replicas && j < replicas && hash(a, i) == hash(b, j) ==>
      a == b && i == j
  }

  /** There are such hash functions: two nodes on the even and the odd positions. */
  lemma TwoNodes(a: Id, b: Id, replicas: nat) returns (hash: (Id, nat) -> nat)
    requires a != b
    ensures CollisionFree(hash, {a, b}, replicas)
  {
    hash := (id, i) => 2 * i + if id == a then 0 else 1;
  }

  lemma FewerCollide(hash: (Id, nat) -> nat, ids: set<Id>, fewer: set<Id>, replicas: nat)
    requires CollisionFree(hash, ids, replicas) && fewer <= ids
    ensures CollisionFree(hash, fewer, replicas)
  {}

  /** Exactly the virtual nodes of the members are on the ring. */
  ghost predicate Placed(nodes: map<nat, Node>, members: map<Id, Node>, replicas: nat, hash: (Id, nat) -> nat) {
    && (forall id :: id in members ==> members[id].id == id)
    && (forall id, i: nat :: id in members && i < replicas ==> hash(id, i) in nodes)
    && (forall k :: k in nodes ==> nodes[k].id in members && nodes[k] == members[nodes[k].id])
    && (forall k :: k in nodes ==> exists i: nat :: i < replicas && hash(nodes[k].id, i) == k)
    && (replicas == 0 ==> members == map[])
  }

  ghost predicate KeysOf(keys: seq<nat>, nodes: map<nat, Node>) {
    Ascends(keys) && forall k :: k in keys <==> k in nodes
  }

  // ---- Owners ----

  /** Position of the first key at or after the hash. */
  function Start(keys: seq<nat>, h: nat): (i: nat)
    ensures i <= |keys|
  {
    if keys == [] || keys[0] >= h then 0 else 1 + Start(keys[1..], h)
  }

  /** All keys, clockwise from the hash and wrapping around. */
  function Clockwise(keys: seq<nat>, h: nat): seq<nat> { keys[Start(keys, h)..] + keys[..Start(keys, h)] }

  function At(nodes: map<nat, Node>, keys: seq<nat>): seq<Node>
    requires forall k :: k in keys ==> k in nodes
  {
    seq(|keys|, i requires 0 <= i < |keys| => nodes[keys[i]])
  }

  function IdsOf(s: seq<Node>): set<Id> { set n | n in s :: n.id }

  /** First occurrences. */
  function Distinct(s: seq<Node>): (d: seq<Node>)
    ensures forall n :: n in d ==> n in s
  {
    if s == [] then []
    else
      var d, last := Distinct(s[..|s| - 1]), s[|s| - 1];
      if last.id in IdsOf(d) then d else d + [last]
  }

  function Without(s: seq<Node>, id: Id): seq<Node> {
    if s == [] then []
    else Without(s[..|s| - 1], id) + if s[|s| - 1].id == id then [] else [s[|s| - 1]]
  }

  /** The clockwise list of distinct owners of a metric with hash `h`. */
  function Owners(nodes: map<nat, Node>, keys: seq<nat>, h: nat): seq<Node>
    requires forall k :: k in keys ==> k in nodes
  {
    assert forall k :: k in Clockwise(keys, h) ==> k in keys;
    Distinct(At(nodes, Clockwise(keys, h)))
  }

  lemma {:induction false} DistinctIds(s: seq<Node>)
    ensures IdsOf(Distinct(s)) == IdsOf(s) && |IdsOf(s)| == |Distinct(s)|
  {
    if s != [] {
      var init, last := s[..|s| - 1], s[|s| - 1];
      assert s == init + [last];
      DistinctIds(init);
      assert IdsOf(s) == IdsOf(init) + {last.id};
      assert IdsOf(Distinct(init) + [last]) == IdsOf(Distinct(init)) + {last.id};
    }
  }

  lemma {:induction false} WithoutIds(s: seq<Node>, id: Id)
    ensures IdsOf(Without(s, id)) == IdsOf(s) - {id}
  {
    if s != [] {
      var init, last := s[..|s| - 1], s[|s| - 1];
      assert s == init + [last];
      WithoutIds(init, id);
      assert IdsOf(s) == IdsOf(init) + {last.id};
      if last.id != id { assert IdsOf(Without(init, id) + [last]) == IdsOf(Without(init, id)) + {last.id}; }
    }
  }

  lemma WithoutLast(s: seq<Node>, n: Node, id: Id)
    ensures Without(s + [n], id) == if n.id == id then Without(s, id) else Without(s, id) + [n]
  {
    assert (s + [n])[..|s|] == s;
  }

  lemma DistinctLast(s: seq<Node>, n: Node)
    ensures Distinct(s + [n]) == if n.id in IdsOf(Distinct(s)) then Distinct(s) else Distinct(s) + [n]
  {
    assert (s + [n])[..|s|] == s;
  }

  lemma DistinctWithoutLast(init: seq<Node>, last: Node, id: Id)
    requires Distinct(Without(init, id)) == Without(Distinct(init), id)
    ensures Distinct(Without(init + [last], id)) == Without(Distinct(init + [last]), id)
  {
    hide Distinct, Without, IdsOf;
    WithoutIds(Distinct(init), id);
    WithoutLast(init, last, id);
    WithoutLast(Distinct(init), last, id);
    DistinctLast(init, last);
    DistinctLast(Without(init, id), last);
  }

  lemma DistinctWithoutNone(id: Id)
    ensures Distinct(Without([], id)) == Without(Distinct([]), id)
  {}

  /** Dropping a node's occurrences and keeping first occurrences commute. */
  lemma {:induction false} DistinctWithout(s: seq<Node>, id: Id)
    ensures Distinct(Without(s, id)) == Without(Distinct(s), id)
  {
    hide Distinct, Without;
    if s == [] {
      DistinctWithoutNone(id);
    } else {
      var init, last := s[..|s| - 1], s[|s| - 1];
      DistinctWithout(init, id);
      DistinctWithoutLast(init, last, id);
      assert s == init + [last];
    }
  }

  // ---- Clockwise order and removal ----

  function Keep(keys: seq<nat>, left: set<nat>): seq<nat> {
    if keys == [] then [] else (if keys[0] in left then [keys[0]] else []) + Keep(keys[1..], left)
  }

  lemma {:induction false} KeepAppend(a: seq<nat>, b: seq<nat>, left: set<nat>)
    ensures Keep(a + b, left) == Keep(a, left) + Keep(b, left)
  {
    if a == [] {
      assert a + b == b;
    } else {
      var s, rest := a + b, a[1..];
      assert s[1..] == rest + b && s[0] == a[0];
      KeepAppend(rest, b, left);
      var one := if a[0] in left then [a[0]] else [];
      assert Keep(s, left) == one + Keep(s[1..], left) && Keep(a, left) == one + Keep(rest, left);
    }
  }

  lemma KeepLast(keys: seq<nat>, k: nat, left: set<nat>)
    ensures Keep(keys + [k], left) == if k in left then Keep(keys, left) + [k] else Keep(keys, left)
  {
    KeepAppend(keys, [k], left);
    assert Keep([k], left) == if k in left then [k] else [];
  }

  lemma {:induction false} KeepMembers(keys: seq<nat>, left: set<nat>)
    requires Ascends(keys)
    ensures Ascends(Keep(keys, left)) && forall k :: k in Keep(keys, left) <==> k in keys && k in left
  {
    if keys != [] {
      var rest := keys[1..];
      KeepMembers(rest, left);
      assert keys == [keys[0]] + rest;
      forall i | 0 <= i < |Keep(rest, left)| ensures keys[0] < Keep(rest, left)[i] {
        assert Keep(rest, left)[i] in rest;
      }
    }
  }

  lemma {:induction false} StartSplits(keys: seq<nat>, h: nat)
    requires Ascends(keys)
    ensures forall i :: 0 <= i < |keys| ==> (keys[i] >= h <==> i >= Start(keys, h))
  {
    if keys != [] && keys[0] < h {
      StartSplits(keys[1..], h);
      forall i | 0 <= i < |keys| ensures keys[i] >= h <==> i >= Start(keys, h) {
        if i > 0 { assert keys[i] == keys[1..][i - 1]; }
      }
    }
  }

  /** Removing keys removes them from the clockwise order and moves no other key. */
  lemma ClockwiseKeep(keys: seq<nat>, left: set<nat>, h: nat)
    requires Ascends(keys)
    ensures Clockwise(Keep(keys, left), h) == Keep(Clockwise(keys, h), left)
  {
    hide Start;
    var s := Start(keys, h);
    var low, high := keys[..s], keys[s..];
    assert keys == low + high;
    KeepAppend(low, high, left);
    KeepAppend(high, low, left);
    KeepMembers(keys, left);
    KeepMembers(low, left);
    KeepMembers(high, left);
    StartSplits(keys, h);
    var kept := Keep(keys, left);
    StartSplits(kept, h);
    var klow, khigh := Keep(low, left), Keep(high, left);
    assert forall i :: 0 <= i < |klow| ==> klow[i] < h by {
      forall i | 0 <= i < |klow| ensures klow[i] < h { assert klow[i] in low; }
    }
    assert forall i :: 0 <= i < |khigh| ==> khigh[i] >= h by {
      forall i | 0 <= i < |khigh| ensures khigh[i] >= h { assert khigh[i] in high; }
    }
    SplitPoint(kept, klow, khigh, Start(kept, h), h);
  }

  lemma SplitPoint(kept: seq<nat>, low: seq<nat>, high: seq<nat>, s: nat, h: nat)
    requires kept == low + high && s <= |kept|
    requires (forall i :: 0 <= i < |low| ==> low[i] < h) && (forall i :: 0 <= i < |high| ==> high[i] >= h)
    requires forall i :: 0 <= i < |kept| ==> (kept[i] >= h <==> i >= s)
    ensures kept[..s] == low && kept[s..] == high
  {
    if low != [] { assert kept[|low| - 1] == low[|low| - 1]; }
    if high != [] { assert kept[|low|] == high[0]; }
    assert s == |low|;
  }

  lemma AtLast(nodes: map<nat, Node>, keys: seq<nat>, k: nat)
    requires k in nodes && forall i :: i in keys ==> i in nodes
    ensures At(nodes, keys + [k]) == At(nodes, keys) + [nodes[k]]
  {}

  /** The kept keys of `keys` stand for its nodes other than `id`. */
  ghost predicate KeepsOthers(nodes: map<nat, Node>, keys: seq<nat>, left: map<nat, Node>, id: Id) {
    && (forall k :: k in keys ==> k in nodes)
    && (forall k :: k in Keep(keys, left.Keys) ==> k in left)
    && At(left, Keep(keys, left.Keys)) == Without(At(nodes, keys), id)
  }

  lemma AtKeepKept(nodes: map<nat, Node>, init: seq<nat>, last: nat, left: map<nat, Node>, id: Id)
    requires KeepsOthers(nodes, init, left, id)
    requires last in nodes && last in left && nodes[last].id != id && left[last] == nodes[last]
    ensures KeepsOthers(nodes, init + [last], left, id)
  {
    hide Keep, Without, At;
    KeepLast(init, last, left.Keys);
    AtLast(nodes, init, last);
    AtLast(left, Keep(init, left.Keys), last);
    WithoutLast(At(nodes, init), nodes[last], id);
  }

  lemma AtKeepDropped(nodes: map<nat, Node>, init: seq<nat>, last: nat, left: map<nat, Node>, id: Id)
    requires KeepsOthers(nodes, init, left, id)
    requires last in nodes && last !in left && nodes[last].id == id
    ensures KeepsOthers(nodes, init + [last], left, id)
  {
    hide Keep, Without, At;
    KeepLast(init, last, left.Keys);
    AtLast(nodes, init, last);
    WithoutLast(At(nodes, init), nodes[last], id);
  }

  lemma {:induction false} AtKeep(nodes: map<nat, Node>, keys: seq<nat>, left: map<nat, Node>, id: Id)
    requires forall k :: k in keys ==> k in nodes
    requires forall k :: k in keys ==> (k in left <==> nodes[k].id != id) && (k in left ==> left[k] == nodes[k])
    ensures KeepsOthers(nodes, keys, left, id)
  {
    if keys != [] {
      hide KeepsOthers;
      var init, last := keys[..|keys| - 1], keys[|keys| - 1];
      assert keys == init + [last];
      AtKeep(nodes, init, left, id);
      if last in left { AtKeepKept(nodes, init, last, left, id); } else { AtKeepDropped(nodes, init, last, left, id); }
    }
  }

  /** A ring without one node: every owner list loses exactly that node and keeps its order. */
  lemma OwnersWithout(nodes: map<nat, Node>, keys: seq<nat>, left: map<nat, Node>, kept: seq<nat>, id: Id, h: nat)
    requires KeysOf(keys, nodes) && KeysOf(kept, left)
    requires forall k :: k in left <==> k in nodes && nodes[k].id != id
    requires forall k :: k in left ==> left[k] == nodes[k]
    ensures Owners(left, kept, h) == Without(Owners(nodes, keys, h), id)
  {
    hide Start, Distinct, Without, IdsOf;
    KeepMembers(keys, left.Keys);
    AscendsSame(kept, Keep(keys, left.Keys));
    ClockwiseKeep(keys, left.Keys, h);
    AtKeep(nodes, Clockwise(keys, h), left, id);
    DistinctWithout(At(nodes, Clockwise(keys, h)), id);
  }

  // ---- The ring in place ----

  /** The virtual nodes of `node` with numbers below `n` have been added. */
  ghost predicate Partly(was: map<nat, Node>, now: map<nat, Node>, node: Node, n: nat, hash: (Id, nat) -> nat) {
    && (forall k :: k in was ==> k in now && now[k] == was[k])
    && (forall i: nat :: i < n ==> hash(node.id, i) in now && now[hash(node.id, i)] == node)
    && (forall k :: k in now && k !in was ==> now[k] == node && exists i: nat :: i < n && hash(node.id, i) == k)
  }

  lemma OwnerOfKey(nodes: map<nat, Node>, members: map<Id, Node>, replicas: nat, hash: (Id, nat) -> nat, id: Id, n: nat)
    requires CollisionFree(hash, members.Keys + {id}, replicas) && n < replicas
    requires Placed(nodes, members, replicas, hash) && hash(id, n) in nodes
    ensures nodes[hash(id, n)].id == id && id in members
  {
    var h := hash(id, n);
    var i: nat :| i < replicas && hash(nodes[h].id, i) == h;
  }

  lemma NewKey(was: map<nat, Node>, now: map<nat, Node>, node: Node, n: nat, hash: (Id, nat) -> nat,
               members: map<Id, Node>, replicas: nat)
    requires CollisionFree(hash, members.Keys + {node.id}, replicas) && n < replicas
    requires Placed(was, members, replicas, hash) && node.id !in members
    requires Partly(was, now, node, n, hash)
    ensures hash(node.id, n) !in now
  {
    hide Placed;
    if hash(node.id, n) in was { OwnerOfKey(was, members, replicas, hash, node.id, n); }
  }

  lemma PartlyStep(was: map<nat, Node>, now: map<nat, Node>, node: Node, n: nat, hash: (Id, nat) -> nat)
    requires Partly(was, now, node, n, hash) && hash(node.id, n) !in now
    ensures Partly(was, now[hash(node.id, n) := node], node, n + 1, hash)
  {
    var h := hash(node.id, n);
    var now' := now[h := node];
    forall k | k in now' && k !in was ensures now'[k] == node && exists i: nat :: i < n + 1 && hash(node.id, i) == k {
      if k == h {
        assert n < n + 1 && hash(node.id, n) == k;
      } else {
        var i: nat :| i < n && hash(node.id, i) == k;
        assert i < n + 1 && hash(node.id, i) == k;
      }
    }
  }

  lemma FullyPlaced(was: map<nat, Node>, now: map<nat, Node>, node: Node, hash: (Id, nat) -> nat,
                    members: map<Id, Node>, replicas: nat)
    requires Placed(was, members, replicas, hash) && node.id !in members
    requires Partly(was, now, node, replicas, hash)
    ensures Placed(now, if replicas == 0 then members else members[node.id := node], replicas, hash)
    ensures forall k :: k in was <==> k in now && now[k].id != node.id
  {}

  predicate HasId(nodes: map<nat, Node>, id: Id) { exists k :: k in nodes && nodes[k].id == id }

  lemma HasIdIsMember(nodes: map<nat, Node>, members: map<Id, Node>, replicas: nat, hash: (Id, nat) -> nat, id: Id)
    requires CollisionFree(hash, members.Keys, replicas) && Placed(nodes, members, replicas, hash)
    ensures HasId(nodes, id) <==> id in members
  {
    if id in members {
      assert members.Keys + {id} == members.Keys;
      OwnerOfKey(nodes, members, replicas, hash, id, 0);
    }
  }

  /** Removing the virtual nodes with numbers below `n`. */
  ghost predicate PartlyGone(was: map<nat, Node>, now: map<nat, Node>, id: Id, n: nat, hash: (Id, nat) -> nat) {
    && (forall k :: k in now ==> k in was && now[k] == was[k] && forall i: nat :: i < n ==> hash(id, i) != k)
    && (forall k :: k in was && k !in now ==> exists i: nat :: i < n && hash(id, i) == k)
  }

  lemma PartlyGoneStep(was: map<nat, Node>, now: map<nat, Node>, id: Id, n: nat, hash: (Id, nat) -> nat)
    requires PartlyGone(was, now, id, n, hash)
    ensures PartlyGone(was, now - {hash(id, n)}, id, n + 1, hash)
  {
    var now' := now - {hash(id, n)};
    forall k | k in was && k !in now' ensures exists i: nat :: i < n + 1 && hash(id, i) == k {
      if k in now {
        assert n < n + 1 && hash(id, n) == k;
      } else {
        var i: nat :| i < n && hash(id, i) == k;
        assert i < n + 1 && hash(id, i) == k;
      }
    }
  }

  lemma FullyGone(was: map<nat, Node>, now: map<nat, Node>, id: Id, hash: (Id, nat) -> nat, members: map<Id, Node>,
                  replicas: nat)
    requires CollisionFree(hash, members.Keys + {id}, replicas)
    requires Placed(was, members, replicas, hash) && PartlyGone(was, now, id, replicas, hash)
    ensures Placed(now, members - {id}, replicas, hash)
    ensures forall k :: k in now <==> k in was && was[k].id != id
  {
    forall k | k in was ensures k in now <==> was[k].id != id {
      var i: nat :| i < replicas && hash(was[k].id, i) == k;
    }
  }

  lemma OwnersAfterAdd(was: map<nat, Node>, placed: seq<nat>, nodes: map<nat, Node>, keys: seq<nat>, id: Id)
    requires KeysOf(placed, was) && KeysOf(keys, nodes)
    requires forall k :: k in was <==> k in nodes && nodes[k].id != id
    requires forall k :: k in was ==> was[k] == nodes[k]
    ensures forall h :: Without(Owners(nodes, keys, h), id) == Owners(was, placed, h)
  {
    hide Owners, Without, Ascends;
    forall h: nat ensures Without(Owners(nodes, keys, h), id) == Owners(was, placed, h) {
      OwnersWithout(nodes, keys, was, placed, id, h);
    }
  }

  lemma OwnersAfterRemove(was: map<nat, Node>, placed: seq<nat>, nodes: map<nat, Node>, keys: seq<nat>, id: Id)
    requires KeysOf(placed, was) && KeysOf(keys, nodes)
    requires forall k :: k in nodes <==> k in was && was[k].id != id
    requires forall k :: k in nodes ==> was[k] == nodes[k]
    ensures forall h :: Owners(nodes, keys, h) == Without(Owners(was, placed, h), id)
  {
    hide Owners, Without, Ascends;
    forall h: nat ensures Owners(nodes, keys, h) == Without(Owners(was, placed, h), id) {
      OwnersWithout(was, placed, nodes, keys, id, h);
    }
  }

  /** The owners cover all members, each once. */
  lemma OwnersAreMembers(nodes: map<nat, Node>, keys: seq<nat>, members: map<Id, Node>, replicas: nat,
                         hash: (Id, nat) -> nat, h: nat)
    requires CollisionFree(hash, members.Keys, replicas)
    requires Placed(nodes, members, replicas, hash) && KeysOf(keys, nodes)
    ensures IdsOf(Owners(nodes, keys, h)) == members.Keys && |Owners(nodes, keys, h)| == |members|
  {
    hide Distinct, Clockwise, Start;
    ClockwiseKeys(keys, h);
    var all := At(nodes, Clockwise(keys, h));
    DistinctIds(all);
    AllIds(nodes, Clockwise(keys, h), members, replicas, hash);
  }

  lemma AllIds(nodes: map<nat, Node>, c: seq<nat>, members: map<Id, Node>, replicas: nat, hash: (Id, nat) -> nat)
    requires CollisionFree(hash, members.Keys, replicas)
    requires Placed(nodes, members, replicas, hash) && forall k :: k in c <==> k in nodes
    ensures IdsOf(At(nodes, c)) == members.Keys
  {
    var all := At(nodes, c);
    forall id ensures id in IdsOf(all) <==> id in members {
      if id in members {
        assert members.Keys + {id} == members.Keys;
        OwnerOfKey(nodes, members, replicas, hash, id, 0);
        var k :| 0 <= k < |c| && c[k] == hash(id, 0);
        assert all[k].id == id && all[k] in all;
      }
      if id in IdsOf(all) {
        var n :| n in all && n.id == id;
        var k :| 0 <= k < |all| && all[k] == n;
        assert c[k] in c;
      }
    }
  }

  class Ring {
    const replicas: nat
    const hash: (Id, nat) -> nat
    var nodes: map<nat, Node>
    var keys: seq<nat>
    ghost var members: map<Id, Node>

    ghost predicate Valid()
      reads this
    {
      CollisionFree(hash, members.Keys, replicas) && Placed(nodes, members, replicas, hash) && KeysOf(keys, nodes)
    }

    constructor (replicas: nat, hash: (Id, nat) -> nat)
      ensures Valid() && members == map[] && this.replicas == replicas && this.hash == hash
    {
      this.replicas, this.hash := replicas, hash;
      nodes, keys, members := map[], [], map[];
    }

    /** A new node is inserted into every owner list; the order of the others does not change. */
    method Add(node: Node)
      requires Valid() && CollisionFree(hash, members.Keys + {node.id}, replicas)
      modifies this
      ensures Valid()
      ensures members
              == if replicas == 0 || node.id in old(members) then old(members) else old(members)[node.id := node]
      ensures node.id in old(members) ==> nodes == old(nodes) && keys == old(keys)
      ensures node.id !in old(members) ==>
                forall h :: Without(Owners(nodes, keys, h), node.id) == old(Owners(nodes, keys, h))
    {
      hide CollisionFree, Placed, Owners, Without, Ascends;
      HasIdIsMember(nodes, members, replicas, hash, node.id);
      if HasId(nodes, node.id) { return; }
      ghost var was, placed := nodes, keys;
      AscendsDistinct(keys);
      for i := 0 to replicas
        invariant members == old(members)
        invariant Partly(was, nodes, node, i, hash)
        invariant forall k :: k in keys <==> k in nodes
        invariant forall a, b :: 0 <= a < b < |keys| ==> keys[a] != keys[b]
      {
        NewKey(was, nodes, node, i, hash, members, replicas);
        PartlyStep(was, nodes, node, i, hash);
        nodes := nodes[hash(node.id, i) := node];
        keys := keys + [hash(node.id, i)];
      }
      SortAscends(keys);
      keys := SortNats(keys);
      FullyPlaced(was, nodes, node, hash, members, replicas);
      OwnersAfterAdd(was, placed, nodes, keys, node.id);
      assert members[node.id := node].Keys == members.Keys + {node.id};
      members := if replicas == 0 then members else members[node.id := node];
    }

    /** A node that leaves disappears from every owner list; the order of the others does not change. */
    method Remove(id: Id)
      requires Valid() && CollisionFree(hash, members.Keys + {id}, replicas)
      modifies this
      ensures Valid() && members == old(members) - {id}
      ensures forall h :: Owners(nodes, keys, h) == Without(old(Owners(nodes, keys, h)), id)
    {
      hide CollisionFree, Placed, Owners, Without, Ascends;
      ghost var was, placed := nodes, keys;
      for i := 0 to replicas
        invariant members == old(members) && keys == old(keys)
        invariant PartlyGone(was, nodes, id, i, hash)
      {
        PartlyGoneStep(was, nodes, id, i, hash);
        nodes := nodes - {hash(id, i)};
      }
      FullyGone(was, nodes, id, hash, members, replicas);
      keys := SortedSet(nodes.Keys);
      OwnersAfterRemove(was, placed, nodes, keys, id);
      FewerCollide(hash, members.Keys, (members - {id}).Keys, replicas);
      members := members - {id};
    }

    /** The first n distinct owners clockwise from the metric's hash, as many as there are. */
    method GetN(h: nat, n: int) returns (r: seq<Node>)
      requires Valid()
      ensures r == if n <= 0 then [] else Slice(Owners(nodes, keys, h), 0, n)
      ensures |r| == if n <= 0 then 0 else if n < |members| then n else |members|
      ensures forall i, j :: 0 <= i < j < |r| ==> r[i].id != r[j].id
    {
      OwnersAreMembers(nodes, keys, members, replicas, hash, h);
      OwnersDistinct(nodes, keys, h);
      if keys == [] || n <= 0 { return []; }
      r := Walk(nodes, keys, h, n);
    }
  }

  /** sort.Search: the first key at or after the hash. */
  method Search(keys: seq<nat>, h: nat) returns (i: nat)
    requires Ascends(keys)
    ensures i == Start(keys, h)
  {
    var lo, hi := 0, |keys|;
    while lo < hi
      invariant 0 <= lo <= hi <= |keys|
      invariant (forall k :: 0 <= k < lo ==> keys[k] < h) && forall k :: hi <= k < |keys| ==> keys[k] >= h
    {
      var mid := (lo + hi) / 2;
      if keys[mid] >= h { hi := mid; } else { lo := mid + 1; }
    }
    StartSplits(keys, h);
    i := lo;
    StartIs(keys, h, i);
  }

  lemma StartIs(keys: seq<nat>, h: nat, i: nat)
    requires Ascends(keys) && i <= |keys|
    requires (forall k :: 0 <= k < i ==> keys[k] < h) && forall k :: i <= k < |keys| ==> keys[k] >= h
    ensures Start(keys, h) == i
  {
    StartSplits(keys, h);
    hide Start;
    var s := Start(keys, h);
    if i > 0 { assert keys[i - 1] < h; }
    if i < |keys| { assert keys[i] >= h; }
    if s > 0 { assert keys[s - 1] < h; }
  }

  lemma ModOnce(a: nat, n: nat)
    requires n > 0 && a < 2 * n
    ensures a % n == if a < n then a else a - n
  {
    if a >= n { assert a == n * 1 + (a - n); }
  }

  lemma ClockwiseAt(keys: seq<nat>, h: nat, i: nat)
    requires i < |keys|
    ensures |Clockwise(keys, h)| == |keys|
    ensures var s := Start(keys, h); Clockwise(keys, h)[i] == keys[((if s == |keys| then 0 else s) + i) % |keys|]
  {
    hide Start;
    var n, s := |keys|, Start(keys, h);
    ModOnce((if s == n then 0 else s) + i, n);
  }

  lemma {:induction false} DistinctPrefix(s: seq<Node>, i: nat)
    requires i <= |s|
    ensures Distinct(s[..i]) <= Distinct(s)
  {
    if i < |s| {
      var init := s[..|s| - 1];
      assert s == init + [s[|s| - 1]] && init[..i] == s[..i];
      DistinctPrefix(init, i);
      DistinctLast(init, s[|s| - 1]);
    } else {
      assert s[..i] == s;
    }
  }

  lemma {:induction false} DistinctOnce(s: seq<Node>)
    ensures forall i, j :: 0 <= i < j < |Distinct(s)| ==> Distinct(s)[i].id != Distinct(s)[j].id
  {
    if s != [] {
      DistinctOnce(s[..|s| - 1]);
    }
  }

  lemma OwnersDistinct(nodes: map<nat, Node>, keys: seq<nat>, h: nat)
    requires KeysOf(keys, nodes)
    ensures var o := Owners(nodes, keys, h); forall i, j :: 0 <= i < j < |o| ==> o[i].id != o[j].id
  {
    DistinctOnce(At(nodes, Clockwise(keys, h)));
  }

  /** The nodes on the ring clockwise from the hash. */
  ghost function Around(nodes: map<nat, Node>, keys: seq<nat>, h: nat): (all: seq<Node>)
    requires forall k :: k in keys ==> k in nodes
    ensures Owners(nodes, keys, h) == Distinct(all)
  {
    ClockwiseKeys(keys, h);
    At(nodes, Clockwise(keys, h))
  }

  lemma AroundAt(nodes: map<nat, Node>, keys: seq<nat>, h: nat, i: nat)
    requires KeysOf(keys, nodes) && i < |keys|
    ensures |Around(nodes, keys, h)| == |keys|
    ensures var s := Start(keys, h);
            Around(nodes, keys, h)[i] == nodes[keys[((if s == |keys| then 0 else s) + i) % |keys|]]
  {
    hide Start, Clockwise, Distinct;
    ClockwiseAt(keys, h, i);
    ClockwiseKeys(keys, h);
  }

  lemma DistinctNext(all: seq<Node>, i: nat)
    requires i < |all|
    ensures var d := Distinct(all[..i]);
            Distinct(all[..i + 1]) == if all[i].id in IdsOf(d) then d else d + [all[i]]
  {
    hide Distinct, IdsOf;
    assert all[..i + 1] == all[..i] + [all[i]];
    DistinctLast(all[..i], all[i]);
  }

  lemma IdsLast(s: seq<Node>, n: Node)
    ensures IdsOf(s + [n]) == IdsOf(s) + {n.id}
  {}

  /** Stopping early still gives the first owners. */
  lemma DistinctStops(all: seq<Node>, i: nat, n: nat)
    requires i <= |all| && |Distinct(all[..i])| <= n && (i == |all| || |Distinct(all[..i])| == n)
    ensures Distinct(all[..i]) == Slice(Distinct(all), 0, n)
  {
    hide Distinct;
    DistinctPrefix(all, i);
    assert i == |all| ==> all[..i] == all;
  }

  method Walk(nodes: map<nat, Node>, keys: seq<nat>, h: nat, n: nat) returns (r: seq<Node>)
    requires KeysOf(keys, nodes) && keys != [] && n > 0
    ensures r == Slice(Owners(nodes, keys, h), 0, n)
  {
    hide Ascends, Distinct, Around, Start, Owners, IdsOf, Slice;
    var start := Search(keys, h);
    if start >= |keys| { start := 0; }
    var seen: set<Id> := {};
    r := [];
    ghost var all := Around(nodes, keys, h);
    AroundAt(nodes, keys, h, 0);
    NoneDistinct();
    assert all[..0] == [];
    var i := 0;
    while i < |keys| && |r| < n
      invariant 0 <= i <= |keys| && r == Distinct(all[..i]) && seen == IdsOf(r) && |r| <= n
    {
      var pos := (start + i) % |keys|;
      var node := nodes[keys[pos]];
      AroundAt(nodes, keys, h, i);
      DistinctNext(all, i);
      IdsLast(r, node);
      if node.id !in seen {
        seen := seen + {node.id};
        r := r + [node];
      }
      i := i + 1;
    }
    DistinctStops(all, i, n);
  }

  lemma NoneDistinct()
    ensures Distinct([]) == [] && IdsOf([]) == {}
  {}

  lemma ClockwiseKeys(keys: seq<nat>, h: nat)
    ensures forall k :: k in Clockwise(keys, h) <==> k in keys
  {
    hide Start;
    var s := Start(keys, h);
    assert keys == keys[..s] + keys[s..];
  }
}
