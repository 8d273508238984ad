/** Mark and sweep over the node and chunk tables. */
module Gc {
  import opened Paths
  import opened State
  import opened Trees
  import opened Chunks
  import opened Database

  type NodeTable = map<NodeId, NodeRow>

  // ---- reachability ----

  /** The subdirectories that some of a node's entries refer to. */
  function ChildIds(node: DirNode, names: set<Name>): set<NodeId> {
    set k | k in names && k in node && node[k].Dir? :: node[k].node
  }

  /** The chunks that some of a node's files refer to. */
  function FileChunks(node: DirNode, names: set<Name>): set<ChunkId> {
    set k, c | k in names && k in node && node[k].File? && c in ChunksIn(node[k].extents) :: c
  }

  /** The subdirectories a row refers to; key-value rows refer to none. */
  function Children(nodes: NodeTable, id: NodeId): set<NodeId> {
    if id in nodes && nodes[id].body.DirBody? then ChildIds(nodes[id].body.node, nodes[id].body.node.Keys) else {}
  }

  /** The chunks the files of a directory row refer to. */
  function DirChunks(nodes: NodeTable, id: NodeId): set<ChunkId> {
    if id in nodes && nodes[id].body.DirBody? then FileChunks(nodes[id].body.node, nodes[id].body.node.Keys) else {}
  }

  ghost predicate Closed(nodes: NodeTable, marks: set<NodeId>) {
    forall id | id in marks :: Children(nodes, id) <= marks
  }

  /** Exactly what is reachable from `from`: the least closed set around it. */
  ghost predicate IsReach(nodes: NodeTable, from: set<NodeId>, marks: set<NodeId>) {
    && from <= marks
    && Closed(nodes, marks)
    && forall s: set<NodeId> | from <= s && Closed(nodes, s) :: marks <= s
  }

  /** Exactly the chunks that the directory rows in `marks` refer to. */
  ghost function ChunksOfDirs(nodes: NodeTable, marks: set<NodeId>): set<ChunkId> {
    set id, c | id in marks && c in DirChunks(nodes, id) :: c
  }

  // ---- the worklist ----

  /** Everything the walk could ever mark: stored ids, the ids they refer to, and where it starts. */
  ghost function Universe(nodes: NodeTable): set<NodeId> {
    nodes.Keys + set id, c | id in nodes && c in Children(nodes, id) :: c
  }

  lemma ChunksOfDirsAdds(nodes: NodeTable, marks: set<NodeId>, id: NodeId)
    ensures ChunksOfDirs(nodes, marks + {id}) == ChunksOfDirs(nodes, marks) + DirChunks(nodes, id)
  {
    hide DirChunks;
  }

  /** Scan one row: queue its subdirectories and note its files' chunks. */
  method Visit(nodes: NodeTable, id: NodeId, pending: seq<NodeId>, chunks: set<ChunkId>)
    returns (pending': seq<NodeId>, chunks': set<ChunkId>)
    ensures Elements(pending') == Elements(pending) + Children(nodes, id)
    ensures chunks' == chunks + DirChunks(nodes, id)
  {
    pending', chunks' := pending, chunks;
    if id !in nodes || !nodes[id].body.DirBody? {
      return;
    }
    var node := nodes[id].body.node;
    var names := Names(node);
    ghost var done: set<Name> := {};
    for i := 0 to |names|
      invariant done == Elements(names[..i])
      invariant Elements(pending') == Elements(pending) + ChildIds(node, done)
      invariant chunks' == chunks + FileChunks(node, done)
    {
      ElementsAppend(names[..i], names[i]);
      assert names[..i + 1] == names[..i] + [names[i]];
      EntryAdds(node, done, names[i]);
      hide ChildIds, FileChunks, Elements;
      done := done + {names[i]};
      match node[names[i]]
      case Dir(_, child) =>
        ElementsAppend(pending', child);
        pending' := pending' + [child];
      case File(_, _, extents, _) => chunks' := chunks' + ChunksIn(extents);
      case Sym(_, _) =>
    }
    assert names[..|names|] == names;
    assert done == node.Keys;
  }

  lemma ElementsAppend<T>(s: seq<T>, x: T)
    ensures Elements(s + [x]) == Elements(s) + {x}
  {
  }

  lemma EntryAdds(node: DirNode, names: set<Name>, n: Name)
    requires n in node
    ensures ChildIds(node, names + {n}) == ChildIds(node, names) + if node[n].Dir? then {node[n].node} else {}
    ensures FileChunks(node, names + {n})
         == FileChunks(node, names) + if node[n].File? then ChunksIn(node[n].extents) else {}
  {
  }

  /**
   * `walk_tree`: mark everything reachable from `root`, sharing the marks of earlier walks. Terminates on
   * any table, cyclic ones included: each round marks a new id or shortens the worklist.
   */
  method WalkTree(nodes: NodeTable, root: NodeId, marks: set<NodeId>, chunks: set<ChunkId>)
    returns (marks': set<NodeId>, chunks': set<ChunkId>)
    requires Closed(nodes, marks)
    ensures IsReach(nodes, marks + {root}, marks')
    ensures chunks' == chunks + ChunksOfDirs(nodes, marks' - marks)
  {
    hide Children, DirChunks, ChunksOfDirs, Universe;
    marks', chunks' := marks, chunks;
    var pending := [root];
    ghost var bound := Universe(nodes) + {root};
    ghost var seen: set<NodeId> := {};
    assert ChunksOfDirs(nodes, {}) == {} by {
      NoMarksNoChunks(nodes);
    }
    while pending != []
      invariant marks' == marks + seen && marks !! seen
      invariant root in marks' + Elements(pending)
      invariant forall id | id in marks' :: Children(nodes, id) <= marks' + Elements(pending)
      invariant forall s: set<NodeId> | marks + {root} <= s && Closed(nodes, s) :: marks' <= s && Elements(pending) <= s
      invariant chunks' == chunks + ChunksOfDirs(nodes, seen)
      invariant Elements(pending) <= bound
      decreases bound - marks', |pending|
    {
      var digest := pending[|pending| - 1];
      assert Elements(pending) == Elements(pending[..|pending| - 1]) + {digest} by {
        assert pending == pending[..|pending| - 1] + [digest];
      }
      pending := pending[..|pending| - 1];
      if digest !in marks' {
        ghost var before := marks';
        marks' := marks' + {digest};
        ChunksOfDirsAdds(nodes, seen, digest);
        seen := seen + {digest};
        pending, chunks' := Visit(nodes, digest, pending, chunks');
        ChildrenInUniverse(nodes, digest);
        assert bound - marks' < bound - before by {
          assert digest in bound - before;
        }
      }
    }
    assert Elements(pending) == {};
    assert Closed(nodes, marks');
    assert marks' - marks == seen;
  }

  lemma NoMarksNoChunks(nodes: NodeTable)
    ensures ChunksOfDirs(nodes, {}) == {}
  {
  }

  lemma ChildrenInUniverse(nodes: NodeTable, id: NodeId)
    ensures Children(nodes, id) <= Universe(nodes)
  {
  }

  ghost function Elements<T>(s: seq<T>): set<T> {
    set x | x in s
  }

  // ---- marking from all state roots ----

  ghost predicate IsKvRow(nodes: NodeTable, id: NodeId) {
    id in nodes && nodes[id].body.KvBody?
  }

  /** Where marking starts: both nodes of every state root. */
  function RootIds(roots: map<RootId, RootRow>): set<NodeId> {
    (set r | r in roots :: roots[r].ns) + (set r | r in roots :: roots[r].kv)
  }

  /** The chunks named by the key-value nodes of the roots. */
  ghost function KvChunks(nodes: NodeTable, roots: map<RootId, RootRow>): set<ChunkId> {
    set r, c | r in roots && IsKvRow(nodes, roots[r].kv) && c in nodes[roots[r].kv].body.kv.Values :: c
  }

  /** What marking must produce: exactly the reachable nodes, and exactly the chunks they and the maps name. */
  ghost predicate IsMarking(nodes: NodeTable, roots: map<RootId, RootRow>, marks: set<NodeId>, chunks: set<ChunkId>) {
    && IsReach(nodes, RootIds(roots), marks)
    && chunks == ChunksOfDirs(nodes, marks) + KvChunks(nodes, roots)
  }
}
