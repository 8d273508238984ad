/** The bounded first-in first-out cache of directory nodes. */
module Resident {
  import opened Base
  import opened State
  import opened Trees
  import opened Nodes

  /** The list holds exactly these keys, each once. */
  ghost predicate Lists(order: seq<NodeId>, keys: set<NodeId>) {
    && (forall id :: id in order <==> id in keys)
    && (forall i, j | 0 <= i < j < |order| :: order[i] != order[j])
  }

  class ResidentNodes {
    const capacity: nat
    var nodes: NodeMap
    var order: seq<NodeId>
    var hits: nat
    var misses: nat

    /** The queue holds exactly the cached keys, each once, and never more than the capacity. */
    ghost predicate Valid()
      reads this
    {
      && 0 < capacity
      && |order| <= capacity
      && Lists(order, nodes.Keys)
      && Coherent(nodes)
    }

    constructor (capacity: nat)
      ensures Valid() && nodes == map[] && this.capacity == if capacity == 0 then 1 else capacity
    {
      this.capacity := if capacity == 0 then 1 else capacity;
      nodes, order, hits, misses := map[], [], 0, 0;
    }

    method Get(id: NodeId) returns (found: Option<DirNode>)
      modifies this`hits, this`misses
      ensures found == if id in nodes then Some(nodes[id]) else None
      ensures hits + misses == old(hits + misses) + 1 && (hits > old(hits) <==> id in nodes)
    {
      if id in nodes {
        hits := hits + 1;
        return Some(nodes[id]);
      }
      misses := misses + 1;
      return None;
    }

    /** The keys held after one insertion: the oldest leaves when the cache is full. */
    ghost function OrderAfter(id: NodeId): seq<NodeId>
      reads this
      requires Valid()
    {
      if id in nodes then order
      else (if |order| == capacity then order[1..] else order) + [id]
    }

    /** Drop the oldest key and its node. */
    method Evict()
      requires Valid() && order != []
      modifies this`nodes, this`order
      ensures Valid() && order == old(order)[1..] && nodes == old(nodes) - {old(order)[0]}
    {
      hide DirDigest;
      var oldest := order[0];
      assert order == [oldest] + order[1..];
      order := order[1..];
      nodes := nodes - {oldest};
    }

    method Insert(id: NodeId, node: DirNode)
      requires Valid() && DirDigest(node) == id
      modifies this`nodes, this`order
      ensures Valid()
      ensures order == old(OrderAfter(id))
      ensures forall k | k in nodes :: (k in old(nodes) && nodes[k] == old(nodes)[k]) || (k == id && nodes[k] == node)
      ensures id in nodes && (id !in old(nodes) ==> nodes[id] == node)
    {
      hide DirDigest, Lists, Coherent;
      if id in nodes {
        return;
      }
      SizeOfOrder(order, nodes.Keys);
      while |nodes| >= capacity
        invariant Valid() && id !in nodes && |nodes| == |order|
        invariant order == old(order) || (old(|order| == capacity) && order == old(order)[1..])
        invariant forall k | k in nodes :: k in old(nodes) && nodes[k] == old(nodes)[k]
        decreases |order|
      {
        Evict();
        SizeOfOrder(order, nodes.Keys);
      }
      AppendKey(order, nodes, id, node);
      order := order + [id];
      nodes := nodes[id := node];
    }

    /** Dropping everything is always safe: it is a cache. */
    method Clear()
      requires Valid()
      modifies this`nodes, this`order
      ensures Valid() && nodes == map[] && order == []
    {
      nodes, order := map[], [];
    }
  }

  lemma AppendKey(order: seq<NodeId>, nodes: NodeMap, id: NodeId, node: DirNode)
    requires Lists(order, nodes.Keys) && id !in nodes && Coherent(nodes) && DirDigest(node) == id
    ensures Lists(order + [id], nodes[id := node].Keys) && Coherent(nodes[id := node])
  {
    hide DirDigest;
  }

  /** A list without repetitions is as long as the set of its elements. */
  lemma {:induction false} SizeOfOrder(order: seq<NodeId>, keys: set<NodeId>)
    requires Lists(order, keys)
    ensures |order| == |keys|
  {
    if order != [] {
      var rest := order[..|order| - 1];
      var last := order[|order| - 1];
      assert order == rest + [last];
      SizeOfOrder(rest, keys - {last});
    } else {
      assert keys == {};
    }
  }
}
