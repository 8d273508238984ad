/** Trees held in node maps: which nodes represent a tree, and the writer and readers over such a map. */
module Nodes {
  import opened Base
  import opened Paths
  import opened State
  import opened Trees
  import opened TreeOps

  // ---- representation ----

  /** Every node sits under its own digest. */
  ghost predicate Coherent(nodes: NodeMap) {
    forall id | id in nodes :: DirDigest(nodes[id]) == id
  }

  /** The root node of `t` can be resolved; the empty node is a constant and needs no row. */
  ghost predicate Has(nodes: NodeMap, t: Tree) {
    t.kids != map[] ==> IdOf(t) in nodes
  }

  /** All of `t` can be resolved. */
  ghost predicate Stored(nodes: NodeMap, t: Tree)
    decreases t
  {
    Has(nodes, t) && forall k | k in t.kids && t.kids[k].DirN? :: Stored(nodes, t.kids[k].sub)
  }

  /** The directories on the route to `p` can be resolved, `p` itself included: what prefetching ensures. */
  ghost predicate Loaded(nodes: NodeMap, t: Tree, p: Path)
    decreases p
  {
    && Has(nodes, t)
    && (p != [] && p[0] in t.kids && t.kids[p[0]].DirN? ==> Loaded(nodes, t.kids[p[0]].sub, p[1..]))
  }

  function Resolve(nodes: NodeMap, id: NodeId): Result<DirNode> {
    if id == EMPTY_ID then Ok(map[])
    else if id in nodes then Ok(nodes[id])
    else Err(NotFound)
  }

  /** A coherent map can only resolve an id to the node it identifies. */
  lemma ResolveTree(nodes: NodeMap, t: Tree)
    requires Coherent(nodes)
    ensures Resolve(nodes, IdOf(t)).Ok? ==> Resolve(nodes, IdOf(t)).value == NodeOf(t)
    ensures Resolve(nodes, IdOf(t)).Ok? <==> Has(nodes, t)
    ensures Resolve(nodes, IdOf(t)).Err? ==> Resolve(nodes, IdOf(t)).error == NotFound
    ensures IdOf(t) in nodes ==> nodes[IdOf(t)] == NodeOf(t)
  {
    EmptyIdOnlyEmpty(t);
    if IdOf(t) in nodes {
      DirDigestInjective(nodes[IdOf(t)], NodeOf(t));
    }
  }

  lemma {:induction false} StoredIsLoaded(nodes: NodeMap, t: Tree, p: Path)
    requires Stored(nodes, t)
    ensures Loaded(nodes, t, p)
    decreases p
  {
    if p != [] && p[0] in t.kids && t.kids[p[0]].DirN? {
      StoredIsLoaded(nodes, t.kids[p[0]].sub, p[1..]);
    }
  }

  /** Adding nodes never disturbs a tree already represented. */
  lemma {:induction false} StoredGrows(nodes: NodeMap, more: NodeMap, t: Tree)
    requires Stored(nodes, t) && nodes.Keys <= more.Keys
    ensures Stored(more, t)
    decreases t
  {
    hide IdOf, NodeOf;
    forall k | k in t.kids && t.kids[k].DirN?
      ensures Stored(more, t.kids[k].sub)
    {
      StoredGrows(nodes, more, t.kids[k].sub);
    }
  }

  lemma {:induction false} LoadedGrows(nodes: NodeMap, more: NodeMap, t: Tree, p: Path)
    requires Loaded(nodes, t, p) && nodes.Keys <= more.Keys
    ensures Loaded(more, t, p)
    decreases p
  {
    if p != [] && p[0] in t.kids && t.kids[p[0]].DirN? {
      LoadedGrows(nodes, more, t.kids[p[0]].sub, p[1..]);
    }
  }

  // ---- the nodes an edit creates ----

  ghost function OwnNode(t: Tree): NodeMap {
    if t.kids == map[] then map[] else map[IdOf(t) := NodeOf(t)]
  }

  /** The nodes on the route from the root of `t` to the parent of `p`: what one edit at `p` writes. */
  ghost function RouteNodes(t: Tree, p: Path): NodeMap
    decreases p
  {
    (if |p| > 1 then RouteNodes(SubOf(t, p[0]), p[1..]) else map[]) + OwnNode(t)
  }

  /** One level of a route: what the child wrote, then the node itself. */
  lemma RouteStep(nodes: NodeMap, t: Tree, p: Path)
    requires p != []
    ensures |p| == 1 ==> nodes + RouteNodes(t, p) == nodes + OwnNode(t)
    ensures |p| > 1 ==> nodes + RouteNodes(t, p) == nodes + RouteNodes(SubOf(t, p[0]), p[1..]) + OwnNode(t)
  {
    hide IdOf, NodeOf, OwnNode;
  }

  lemma {:induction false} RouteCoherent(t: Tree, p: Path)
    ensures Coherent(RouteNodes(t, p))
    decreases p
  {
    if |p| > 1 {
      RouteCoherent(SubOf(t, p[0]), p[1..]);
    }
  }

  lemma UnionCoherent(a: NodeMap, b: NodeMap)
    requires Coherent(a) && Coherent(b)
    ensures Coherent(a + b)
  {
  }

  /** One edit writes at most one node per path component. */
  lemma {:induction false} RouteIsShort(t: Tree, p: Path)
    requires p != []
    ensures |RouteNodes(t, p)| <= |p|
    decreases p
  {
    hide IdOf, NodeOf;
    var rest: NodeMap := if |p| > 1 then RouteNodes(SubOf(t, p[0]), p[1..]) else map[];
    if |p| > 1 {
      RouteIsShort(SubOf(t, p[0]), p[1..]);
    }
    assert RouteNodes(t, p).Keys <= rest.Keys + {IdOf(t)};
    CardinalityOfSubset(RouteNodes(t, p).Keys, rest.Keys + {IdOf(t)});
  }

  lemma {:induction false} CardinalityOfSubset<T>(a: set<T>, b: set<T>)
    requires a <= b
    ensures |a| <= |b|
  {
    if a != {} {
      var x :| x in a;
      CardinalityOfSubset(a - {x}, b - {x});
    }
  }

  /** After an insertion the whole new tree is represented, given that the inserted subtree was. */
  lemma {:induction false} InsertStored(nodes: NodeMap, t: Tree, p: Path, n: Node)
    requires Stored(nodes, t) && Insert(t, p, n).Ok?
    requires n.DirN? ==> Stored(nodes, n.sub)
    ensures Stored(nodes + RouteNodes(Insert(t, p, n).value, p), Insert(t, p, n).value)
    decreases p
  {
    hide IdOf, NodeOf;
    var s := Insert(t, p, n).value;
    var more := nodes + RouteNodes(s, p);
    if |p| > 1 {
      InsertStored(nodes, SubOf(t, p[0]), p[1..], n);
      StoredGrows(nodes + RouteNodes(SubOf(s, p[0]), p[1..]), more, SubOf(s, p[0]));
    } else if n.DirN? {
      StoredGrows(nodes, more, n.sub);
    }
    forall k | k in s.kids && s.kids[k].DirN? && k != p[0]
      ensures Stored(more, s.kids[k].sub)
    {
      StoredGrows(nodes, more, t.kids[k].sub);
    }
  }

  lemma {:induction false} RemoveStored(nodes: NodeMap, t: Tree, p: Path)
    requires Stored(nodes, t) && Remove(t, p).Ok?
    ensures Stored(nodes + RouteNodes(Remove(t, p).value, p), Remove(t, p).value)
    decreases p
  {
    hide IdOf, NodeOf;
    var s := Remove(t, p).value;
    var more := nodes + RouteNodes(s, p);
    if |p| > 1 {
      RemoveStored(nodes, t.kids[p[0]].sub, p[1..]);
      StoredGrows(nodes + RouteNodes(SubOf(s, p[0]), p[1..]), more, SubOf(s, p[0]));
    }
    forall k | k in s.kids && s.kids[k].DirN? && k != p[0]
      ensures Stored(more, s.kids[k].sub)
    {
      StoredGrows(nodes, more, t.kids[k].sub);
    }
  }

  lemma EmptyLoaded(nodes: NodeMap, p: Path)
    ensures Loaded(nodes, EMPTY, p)
  {
  }

  /**
   * A sparse map stays sufficient across edits in one batch: after an insertion at `p`, every route that
   * was loaded before is loaded in the new tree, unless it runs through an attached subtree.
   */
  lemma {:induction false} InsertLoaded(nodes: NodeMap, t: Tree, p: Path, n: Node, q: Path)
    requires Loaded(nodes, t, q) && Insert(t, p, n).Ok?
    requires !n.DirN? || !(p <= q)
    ensures Loaded(nodes + RouteNodes(Insert(t, p, n).value, p), Insert(t, p, n).value, q)
    decreases p
  {
    hide IdOf, NodeOf;
    var s := Insert(t, p, n).value;
    var more := nodes + RouteNodes(s, p);
    assert |p| == 1 && q != [] && q[0] == p[0] ==> p <= q;
    if q != [] && q[0] in s.kids && s.kids[q[0]].DirN? {
      if q[0] != p[0] {
        LoadedGrows(nodes, more, t.kids[q[0]].sub, q[1..]);
      } else if |p| > 1 {
        EmptyLoaded(nodes, q[1..]);
        assert p == [p[0]] + p[1..] && q == [q[0]] + q[1..];
        assert p[1..] <= q[1..] ==> p <= q;
        InsertLoaded(nodes, SubOf(t, p[0]), p[1..], n, q[1..]);
        LoadedGrows(nodes + RouteNodes(SubOf(s, p[0]), p[1..]), more, SubOf(s, p[0]), q[1..]);
      }
    }
  }

  lemma NodeOfAt(t: Tree, k: Name)
    ensures k in NodeOf(t) <==> k in t.kids
    ensures k in t.kids ==> NodeOf(t)[k] == ToEntry(t.kids[k])
  {
  }

  // ---- reading ----

  ghost function EntryAt(t: Tree, p: Path): Option<Entry> {
    if p == [] then Some(Dir(DIR_META, IdOf(t)))
    else
      match Get(t, p)
      case None => None
      case Some(n) => Some(ToEntry(n))
  }

  /** `tree::get`: walk the route through the map. */
  method GetEntry(nodes: NodeMap, ghost t: Tree, root: NodeId, p: Path) returns (r: Result<Option<Entry>>)
    requires Coherent(nodes) && root == IdOf(t)
    ensures r.Ok? ==> r.value == EntryAt(t, p)
    ensures r.Err? ==> r.error == NotFound && !Loaded(nodes, t, p)
  {
    hide DirDigest, IdOf, NodeOf;
    if p == [] {
      return Ok(Some(Dir(DIR_META, root)));
    }
    ResolveTree(nodes, t);
    var found := Resolve(nodes, root);
    if found.Err? {
      return Err(found.error);
    }
    var node := found.value;
    ghost var here := t;
    for i := 0 to |p|
      invariant node == NodeOf(here)
      invariant EntryAt(t, p) == EntryAt(here, p[i..])
      invariant i < |p|
      invariant Loaded(nodes, t, p) ==> Loaded(nodes, here, p[i..])
    {
      assert p[i..][0] == p[i] && p[i..][1..] == p[i + 1..];
      NodeOfAt(here, p[i]);
      if p[i] !in node {
        return Ok(None);
      }
      var entry := node[p[i]];
      if i + 1 == |p| {
        return Ok(Some(entry));
      }
      match entry
      case Dir(_, child) =>
        here := here.kids[p[i]].sub;
        ResolveTree(nodes, here);
        found := Resolve(nodes, child);
        if found.Err? {
          return Err(found.error);
        }
        node := found.value;
      case File(_, _, _, _) => return Ok(None);
      case Sym(_, _) => return Ok(None);
    }
  }

  // ---- writing ----

  /** The outcome of a writer call against the tree operation it performs. */
  ghost predicate Matches(r: Result<NodeId>, s: Result<Tree>) {
    match r
    case Ok(id) => s.Ok? && id == IdOf(s.value)
    case Err(e) => s == Err(e)
  }

  lemma NodeOfPut(t: Tree, n: Name, node: Node)
    ensures NodeOf(Put(t, n, node)) == NodeOf(t)[n := ToEntry(node)]
  {
  }

  lemma NodeOfMinus(t: Tree, n: Name)
    ensures NodeOf(Tree(t.kids - {n})) == NodeOf(t) - {n}
  {
  }

  /** Accumulates the nodes created by a batch of edits over a read-only source. */
  class TreeWriter {
    const source: NodeMap
    var newNodes: NodeMap

    constructor (source: NodeMap)
      ensures this.source == source && newNodes == map[]
    {
      this.source := source;
      newNodes := map[];
    }

    ghost predicate Valid()
      reads this
    {
      Coherent(source) && Coherent(newNodes)
    }

    /** Nodes written earlier in the batch are read before the source. */
    method Load(ghost t: Tree, id: NodeId) returns (r: Result<DirNode>)
      requires Valid() && id == IdOf(t)
      ensures r.Ok? ==> r.value == NodeOf(t)
      ensures r.Err? ==> r.error == NotFound && !Has(source + newNodes, t)
    {
      hide DirDigest;
      ResolveTree(newNodes, t);
      ResolveTree(source, t);
      if id in newNodes {
        return Ok(newNodes[id]);
      }
      r := Resolve(source, id);
    }

    method Store(ghost t: Tree, node: DirNode) returns (id: NodeId)
      requires Valid() && node == NodeOf(t)
      modifies this`newNodes
      ensures Valid() && id == IdOf(t) && newNodes == old(newNodes) + OwnNode(t)
    {
      hide DirDigest;
      id := DirDigest(node);
      assert node == map[] <==> t.kids == map[];
      if node != map[] {
        newNodes := newNodes[id := node];
      }
    }

    /** `insert_at`. */
    method InsertAt(ghost t: Tree, nodeId: NodeId, comps: Path, ghost n: Node, entry: Entry) returns (r: Result<NodeId>)
      requires Valid() && nodeId == IdOf(t) && entry == ToEntry(n) && comps != []
      modifies this`newNodes
      ensures Valid()
      ensures Matches(r, Insert(t, comps, n)) || (r == Err(NotFound) && !Loaded(source + old(newNodes), t, comps))
      ensures r.Ok? ==> newNodes == old(newNodes) + RouteNodes(Insert(t, comps, n).value, comps)
      ensures r.Err? ==> newNodes == old(newNodes)
      decreases comps
    {
      hide DirDigest, IdOf, NodeOf, RouteNodes, Coherent;
      var loaded := Load(t, nodeId);
      if loaded.Err? {
        return Err(loaded.error);
      }
      var node := loaded.value;
      var head, rest := comps[0], comps[1..];
      NodeOfAt(t, head);
      if rest == [] {
        NodeOfPut(t, head, n);
        RouteStep(newNodes, Put(t, head, n), comps);
        var id := Store(Put(t, head, n), node[head := entry]);
        return Ok(id);
      }
      var childId: NodeId;
      var childMeta := DIR_META;
      EmptyTreeId();
      if head in node {
        match node[head]
        case Dir(meta, child) =>
          childId := child;
          childMeta := meta;
        case File(_, _, _, _) => return Err(NotADirectory);
        case Sym(_, _) => return Err(NotADirectory);
      } else {
        childId := Store(EMPTY, map[]);
        assert newNodes == old(newNodes);
      }
      var inserted := InsertAt(SubOf(t, head), childId, rest, n, entry);
      if inserted.Err? {
        return inserted;
      }
      ghost var dir := DirN(childMeta, Insert(SubOf(t, head), rest, n).value);
      NodeOfPut(t, head, dir);
      RouteStep(old(newNodes), Put(t, head, dir), comps);
      ghost var s := Put(t, head, dir);
      assert SubOf(s, head) == dir.sub && Insert(t, comps, n) == Ok(s);
      var id := Store(s, node[head := Dir(childMeta, inserted.value)]);
      assert newNodes == old(newNodes) + RouteNodes(s, comps);
      r := Ok(id);
    }

    /** `insert`: the root itself cannot be addressed. */
    method InsertPath(ghost t: Tree, root: NodeId, p: Path, ghost n: Node, entry: Entry) returns (r: Result<NodeId>)
      requires Valid() && root == IdOf(t) && entry == ToEntry(n)
      modifies this`newNodes
      ensures Valid()
      ensures Matches(r, Insert(t, p, n)) || (r == Err(NotFound) && !Loaded(source + old(newNodes), t, p))
      ensures r.Ok? ==> newNodes == old(newNodes) + RouteNodes(Insert(t, p, n).value, p)
      ensures r.Err? ==> newNodes == old(newNodes)
    {
      if p == [] {
        return Err(InvalidPath);
      }
      r := InsertAt(t, root, p, n, entry);
    }

    /** `remove_at`. */
    method RemoveAt(ghost t: Tree, nodeId: NodeId, comps: Path) returns (r: Result<NodeId>)
      requires Valid() && nodeId == IdOf(t) && comps != []
      modifies this`newNodes
      ensures Valid()
      ensures Matches(r, Remove(t, comps)) || (r == Err(NotFound) && !Loaded(source + old(newNodes), t, comps))
      ensures r.Ok? ==> newNodes == old(newNodes) + RouteNodes(Remove(t, comps).value, comps)
      ensures r.Err? ==> newNodes == old(newNodes)
      decreases comps
    {
      hide DirDigest, IdOf, NodeOf, RouteNodes, Coherent;
      var loaded := Load(t, nodeId);
      if loaded.Err? {
        return Err(loaded.error);
      }
      var node := loaded.value;
      var head, rest := comps[0], comps[1..];
      NodeOfAt(t, head);
      if head !in node {
        return Err(NotFound);
      }
      if rest == [] {
        NodeOfMinus(t, head);
        RouteStep(newNodes, Tree(t.kids - {head}), comps);
        var id := Store(Tree(t.kids - {head}), node - {head});
        return Ok(id);
      }
      match node[head]
      case File(_, _, _, _) => return Err(NotADirectory);
      case Sym(_, _) => return Err(NotADirectory);
      case Dir(meta, child) =>
        var removed := RemoveAt(t.kids[head].sub, child, rest);
        if removed.Err? {
          return removed;
        }
        ghost var dir := DirN(meta, Remove(t.kids[head].sub, rest).value);
        NodeOfPut(t, head, dir);
        RouteStep(old(newNodes), Put(t, head, dir), comps);
        ghost var s := Put(t, head, dir);
        assert SubOf(s, head) == dir.sub && Remove(t, comps) == Ok(s);
        var id := Store(s, node[head := Dir(meta, removed.value)]);
        assert newNodes == old(newNodes) + RouteNodes(s, comps);
        r := Ok(id);
    }

    /** `remove`. */
    method RemovePath(ghost t: Tree, root: NodeId, p: Path) returns (r: Result<NodeId>)
      requires Valid() && root == IdOf(t)
      modifies this`newNodes
      ensures Valid()
      ensures Matches(r, Remove(t, p)) || (r == Err(NotFound) && !Loaded(source + old(newNodes), t, p))
      ensures r.Ok? ==> newNodes == old(newNodes) + RouteNodes(Remove(t, p).value, p)
      ensures r.Err? ==> newNodes == old(newNodes)
    {
      if p == [] {
        return Err(InvalidPath);
      }
      r := RemoveAt(t, root, p);
    }
  }
}
