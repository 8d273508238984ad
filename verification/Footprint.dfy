/**
 * What a state refers to: the directory nodes and the chunks of a tree. A workspace refers only to what its
 * base refers to, to the nodes it created, and to the chunks its own log names.
 */
module Footprint {
  import opened Base
  import opened Paths
  import opened Canonical
  import opened State
  import opened Trees
  import opened TreeOps
  import opened Nodes
  import opened Chunks
  import opened Database
  import opened WorkspaceSpec

  // ---- footprints ----

  /** The stored nodes of a tree; the empty node is a constant and needs no row. */
  ghost function IdsOf(t: Tree): set<NodeId>
    decreases t, 0
  {
    (if t.kids == map[] then {} else {IdOf(t)}) + set k, id | k in t.kids && id in NodeIds(t.kids[k]) :: id
  }

  ghost function NodeIds(n: Node): set<NodeId>
    decreases n, 1
  {
    if n.DirN? then IdsOf(n.sub) else {}
  }

  /** The chunks of a tree's files. */
  function ChunksOf(t: Tree): set<ChunkId>
    decreases t, 0
  {
    set k, c | k in t.kids && c in NodeChunks(t.kids[k]) :: c
  }

  function NodeChunks(n: Node): set<ChunkId>
    decreases n, 1
  {
    match n
    case DirN(_, sub) => ChunksOf(sub)
    case FileN(_, _, extents, _) => ChunksIn(extents)
    case SymN(_, _) => {}
  }

  /** Being stored is having every node of the footprint. */
  lemma {:induction false} StoredByIds(nodes: NodeMap, t: Tree)
    ensures Stored(nodes, t) <==> IdsOf(t) <= nodes.Keys
    decreases t
  {
    hide IdOf;
    forall k | k in t.kids && t.kids[k].DirN?
      ensures Stored(nodes, t.kids[k].sub) <==> NodeIds(t.kids[k]) <= nodes.Keys
    {
      StoredByIds(nodes, t.kids[k].sub);
    }
    if IdsOf(t) <= nodes.Keys {
      forall k | k in t.kids
        ensures NodeIds(t.kids[k]) <= nodes.Keys
      {
        assert NodeIds(t.kids[k]) <= IdsOf(t);
      }
    }
  }

  lemma KidsOfPut(t: Tree, n: Name, node: Node)
    ensures ChunksOf(Put(t, n, node)) <= ChunksOf(t) + NodeChunks(node)
    ensures IdsOf(Put(t, n, node)) <= IdsOf(t) + NodeIds(node) + OwnNode(Put(t, n, node)).Keys
  {
    hide IdOf, NodeOf;
    forall k | k in Put(t, n, node).kids
      ensures NodeChunks(Put(t, n, node).kids[k]) <= ChunksOf(t) + NodeChunks(node)
      ensures NodeIds(Put(t, n, node).kids[k]) <= IdsOf(t) + NodeIds(node)
    {
    }
  }

  lemma SubInside(t: Tree, n: Name)
    ensures n in t.kids ==> NodeIds(t.kids[n]) <= IdsOf(t) && NodeChunks(t.kids[n]) <= ChunksOf(t)
    ensures IdsOf(SubOf(t, n)) <= IdsOf(t) && ChunksOf(SubOf(t, n)) <= ChunksOf(t)
  {
    hide IdOf;
  }

  lemma {:induction false} InsertFootprint(t: Tree, p: Path, n: Node)
    requires Insert(t, p, n).Ok?
    ensures var s := Insert(t, p, n).value;
            && ChunksOf(s) <= ChunksOf(t) + NodeChunks(n)
            && IdsOf(s) <= IdsOf(t) + NodeIds(n) + RouteNodes(s, p).Keys
    decreases p
  {
    hide IdOf, NodeOf, ChunksOf, IdsOf, OwnNode;
    if |p| == 1 {
      KidsOfPut(t, p[0], n);
    } else {
      var sub := Insert(SubOf(t, p[0]), p[1..], n).value;
      InsertFootprint(SubOf(t, p[0]), p[1..], n);
      SubInside(t, p[0]);
      KidsOfPut(t, p[0], DirN(DirMetaOf(t, p[0]), sub));
      assert SubOf(Insert(t, p, n).value, p[0]) == sub;
    }
  }

  lemma {:induction false} RemoveFootprint(t: Tree, p: Path)
    requires Remove(t, p).Ok?
    ensures var s := Remove(t, p).value;
            && ChunksOf(s) <= ChunksOf(t)
            && IdsOf(s) <= IdsOf(t) + RouteNodes(s, p).Keys
    decreases p
  {
    hide IdOf, NodeOf, OwnNode;
    if |p| == 1 {
      var s := Tree(t.kids - {p[0]});
      assert s.kids != map[] ==> IdOf(s) in OwnNode(s).Keys by {
        OwnKey(s);
      }
    } else {
      hide ChunksOf, IdsOf;
      var sub := Remove(t.kids[p[0]].sub, p[1..]).value;
      RemoveFootprint(t.kids[p[0]].sub, p[1..]);
      SubInside(t, p[0]);
      KidsOfPut(t, p[0], DirN(t.kids[p[0]].meta, sub));
      assert SubOf(Remove(t, p).value, p[0]) == sub;
    }
  }

  lemma OwnKey(t: Tree)
    ensures OwnNode(t).Keys == if t.kids == map[] then {} else {IdOf(t)}
  {
    hide IdOf, NodeOf;
  }

  lemma {:induction false} GetFootprint(t: Tree, p: Path)
    requires NodeAt(t, p).Some?
    ensures NodeIds(NodeAt(t, p).value) <= IdsOf(t) && NodeChunks(NodeAt(t, p).value) <= ChunksOf(t)
    decreases p
  {
    hide IdOf;
    if p != [] {
      SubInside(t, p[0]);
      if |p| > 1 {
        GetFootprint(t.kids[p[0]].sub, p[1..]);
      }
    }
  }

  lemma {:induction false} InsertAllFootprint(t: Tree, paths: seq<Path>, n: Node)
    requires InsertAll(t, paths, n).Ok?
    ensures var s := InsertAll(t, paths, n).value;
            && ChunksOf(s) <= ChunksOf(t) + NodeChunks(n)
            && IdsOf(s) <= IdsOf(t) + NodeIds(n) + InsertAllNodes(t, paths, n).Keys
    decreases |paths|
  {
    hide IdOf, NodeOf, ChunksOf, IdsOf, Insert, RouteNodes;
    if paths != [] {
      InsertFootprint(t, paths[0], n);
      InsertAllFootprint(Insert(t, paths[0], n).value, paths[1..], n);
    }
  }

  lemma {:induction false} InsertAllCoherent(t: Tree, paths: seq<Path>, n: Node)
    ensures Coherent(InsertAllNodes(t, paths, n))
    decreases |paths|
  {
    hide IdOf, NodeOf, DirDigest, Insert, RouteNodes;
    if paths != [] && Insert(t, paths[0], n).Ok? {
      var s := Insert(t, paths[0], n).value;
      RouteCoherent(s, paths[0]);
      InsertAllCoherent(s, paths[1..], n);
    }
  }

  // ---- edits ----

  /** An edit refers to nothing but what was there, what it created, and what was put in. */
  ghost predicate Bounded(ws: WsState, after: WsState, ids: set<NodeId>, chunks: set<ChunkId>) {
    && ws.newNodes.Keys <= after.newNodes.Keys
    && (Coherent(ws.newNodes) ==> Coherent(after.newNodes))
    && IdsOf(after.tree) <= IdsOf(ws.tree) + after.newNodes.Keys + ids
    && ChunksOf(after.tree) <= ChunksOf(ws.tree) + chunks
  }

  lemma EditInsertBounded(ws: WsState, paths: seq<Path>, n: Node)
    requires EditInsert(ws, paths, n).Ok?
    ensures Bounded(ws, EditInsert(ws, paths, n).value, NodeIds(n), NodeChunks(n))
  {
    hide IdOf, NodeOf, DirDigest, IdsOf, ChunksOf, InsertAll, InsertAllNodes;
    InsertAllFootprint(ws.tree, paths, n);
    InsertAllCoherent(ws.tree, paths, n);
  }

  lemma EditRemoveBounded(ws: WsState, p: Path)
    requires EditRemove(ws, p).Ok?
    ensures Bounded(ws, EditRemove(ws, p).value, {}, {})
  {
    hide IdOf, NodeOf, DirDigest, IdsOf, ChunksOf, Remove, RouteNodes;
    RemoveFootprint(ws.tree, p);
    RouteCoherent(Remove(ws.tree, p).value, p);
  }

  lemma EditMoveBounded(ws: WsState, from: Path, to: Path)
    requires NodeAt(ws.tree, from).Some? && EditMove(ws, from, to, NodeAt(ws.tree, from).value).Ok?
    ensures Bounded(ws, EditMove(ws, from, to, NodeAt(ws.tree, from).value).value, {}, {})
  {
    hide IdOf, NodeOf, DirDigest, IdsOf, ChunksOf, Remove, Insert, RouteNodes, NodeIds, NodeChunks, NodeAt;
    var n := NodeAt(ws.tree, from).value;
    GetFootprint(ws.tree, from);
    InsertFootprint(ws.tree, to, n);
    var s := Insert(ws.tree, to, n).value;
    RemoveFootprint(s, from);
    RouteCoherent(s, to);
    RouteCoherent(Remove(s, from).value, from);
  }

  // ---- steps ----

  lemma {:induction false} RequiredConcat(a: seq<Mutation>, b: seq<Mutation>)
    ensures Required(a + b) == Required(a) + Required(b)
  {
    hide MutationChunks;
    if a == [] {
      assert a + b == b;
    } else {
      assert (a + b)[0] == a[0] && (a + b)[1..] == a[1..] + b;
      RequiredConcat(a[1..], b);
    }
  }

  lemma RequiredLogged(ms: seq<Mutation>, m: Mutation)
    ensures Required(ms + [m]) == Required(ms) + MutationChunks(m)
  {
    RequiredConcat(ms, [m]);
    assert [m][1..] == [];
    assert Required([m]) == MutationChunks(m) + Required([]);
  }

  /** One step refers to nothing but what was there, what it created, and what the log now names. */
  ghost predicate StepBounded(ws: WsState, after: WsState) {
    && Bounded(ws, after, {}, Required(after.mutations))
    && Required(ws.mutations) <= Required(after.mutations)
    && after.kv.Values <= ws.kv.Values + Required(after.mutations)
  }

  lemma LeafFootprint(n: Node)
    requires !n.DirN?
    ensures NodeIds(n) == {} && NodeChunks(n) == if n.FileN? then ChunksIn(n.extents) else {}
  {
  }

  lemma UnchangedBounded(ws: WsState, after: WsState)
    requires after.tree == ws.tree && after.newNodes == ws.newNodes && after.kv == ws.kv
    requires after.mutations == ws.mutations
    ensures StepBounded(ws, after)
  {
    hide IdsOf, ChunksOf, Required;
  }

  lemma FreshDirFootprint()
    ensures NodeIds(FRESH_DIR) == {} && NodeChunks(FRESH_DIR) == {}
  {
    hide IdOf;
  }

  lemma MkdirBounded(ws: WsState, p: Path)
    ensures StepBounded(ws, Mkdir(ws, p).ws)
  {
    hide IdsOf, ChunksOf, Required, InsertAll, InsertAllNodes, NodeAt, DirDigest, NodeIds, NodeChunks, MutationChunks;
    var after := Mkdir(ws, p).ws;
    FreshDirFootprint();
    if EditInsert(ws, [p], FRESH_DIR).Ok? {
      EditInsertBounded(ws, [p], FRESH_DIR);
      RequiredLogged(ws.mutations, MkDir(p));
    }
    UnchangedBounded(ws, ws);
  }

  lemma WriteBounded(ws: WsState, p: Path, bytes: Str)
    ensures StepBounded(ws, Write(ws, p, bytes).ws)
  {
    hide IdsOf, ChunksOf, Required, InsertAll, InsertAllNodes, NodeAt, DirDigest, Stage, WriteTargets, Extents;
    hide NodeIds, NodeChunks;
    var after := Write(ws, p, bytes).ws;
    StageFrame(ws, Staged(bytes));
    UnchangedBounded(ws, ws);
    if Stage(ws, Staged(bytes)).Ok? {
      var staged := Stage(ws, Staged(bytes)).value;
      UnchangedBounded(ws, staged);
      var there := NodeAt(ws.tree, p);
      var n := WrittenFile(there, bytes);
      LeafFootprint(n);
      if EditInsert(staged, WriteTargets(there, p), n).Ok? {
        EditInsertBounded(staged, WriteTargets(there, p), n);
        RequiredLogged(ws.mutations, WriteFile(p, |bytes|, Extents(bytes)));
      }
    }
  }

  /** An edit that brings in nothing new, once logged. */
  lemma LoggedBounded(ws: WsState, next: WsState, m: Mutation)
    requires Bounded(ws, next, {}, {}) && next.mutations == ws.mutations && next.kv == ws.kv
    ensures StepBounded(ws, Logged(next, m)) && StepBounded(ws, next)
  {
    hide IdsOf, ChunksOf, Required, Coherent, MutationChunks;
    RequiredLogged(ws.mutations, m);
  }

  lemma BoundedTwice(ws: WsState, mid: WsState, after: WsState, chunks: set<ChunkId>)
    requires Bounded(ws, mid, {}, {}) && Bounded(mid, after, {}, chunks) && chunks <= ChunksOf(ws.tree)
    ensures Bounded(ws, after, {}, {})
  {
    hide IdsOf, ChunksOf, Coherent;
  }

  lemma UnlinkBounded(ws: WsState, p: Path)
    ensures StepBounded(ws, Unlinked(ws, p).ws)
  {
    hide InsertAll, InsertAllNodes, NodeAt, DirDigest, Remove, RouteNodes, NodeIds, NodeChunks, Without, Bounded;
    hide StepBounded, ChunksOf;
    UnchangedBounded(ws, ws);
    if ws.isOpen && NodeAt(ws.tree, p).Some? && !NodeAt(ws.tree, p).value.DirN? && EditRemove(ws, p).Ok? {
      var n := NodeAt(ws.tree, p).value;
      var removed := EditRemove(ws, p).value;
      EditRemoveBounded(ws, p);
      LoggedBounded(ws, removed, Unlink(p));
      GetFootprint(ws.tree, p);
      WithoutNothing(p);
      var remaining := Without(LinksOf(n), p);
      if remaining != [] {
        LeafFootprint(n);
        LeafFootprint(GroupFile(remaining, n));
        if EditInsert(removed, remaining, GroupFile(remaining, n)).Ok? {
          var after := EditInsert(removed, remaining, GroupFile(remaining, n)).value;
          EditInsertBounded(removed, remaining, GroupFile(remaining, n));
          BoundedTwice(ws, removed, after, ChunksIn(n.extents));
          LoggedBounded(ws, after, Unlink(p));
        }
      }
    }
  }

  lemma WithoutNothing(p: Path)
    ensures Without([], p) == []
  {
  }

  lemma RmdirBounded(ws: WsState, p: Path)
    ensures StepBounded(ws, Rmdir(ws, p).ws)
  {
    hide IdsOf, ChunksOf, Required, NodeAt, DirDigest, Remove, RouteNodes, NodeIds, NodeChunks;
    UnchangedBounded(ws, ws);
    RequiredLogged(ws.mutations, RmDir(p));
    if EditRemove(ws, p).Ok? {
      EditRemoveBounded(ws, p);
    }
  }

  lemma RenameBounded(ws: WsState, from: Path, to: Path)
    ensures StepBounded(ws, Renamed(ws, from, to).ws)
  {
    hide NodeAt, EditMove, RenameRefused, Bounded, StepBounded;
    UnchangedBounded(ws, ws);
    if Renamed(ws, from, to).result.Ok? && from != to {
      var next := EditMove(ws, from, to, NodeAt(ws.tree, from).value).value;
      EditMoveBounded(ws, from, to);
      EditMoveFrame(ws, from, to);
      LoggedBounded(ws, next, Rename(from, to));
    }
  }

  lemma EditMoveFrame(ws: WsState, from: Path, to: Path)
    requires NodeAt(ws.tree, from).Some? && EditMove(ws, from, to, NodeAt(ws.tree, from).value).Ok?
    ensures var next := EditMove(ws, from, to, NodeAt(ws.tree, from).value).value;
            next.mutations == ws.mutations && next.kv == ws.kv
  {
    hide NodeAt, Insert, Remove, RouteNodes;
  }

  lemma CopyBounded(ws: WsState, from: Path, to: Path)
    ensures StepBounded(ws, Copied(ws, from, to).ws)
  {
    hide IdsOf, ChunksOf, Required, InsertAll, InsertAllNodes, NodeAt, DirDigest, NodeIds, NodeChunks;
    UnchangedBounded(ws, ws);
    if NodeAt(ws.tree, from).Some? && !NodeAt(ws.tree, from).value.DirN? {
      var n := NodeAt(ws.tree, from).value;
      var logged := Logged(ws, CopyMutation(n, to));
      RequiredLogged(ws.mutations, CopyMutation(n, to));
      LeafFootprint(Independent(n));
      if EditInsert(logged, [to], Independent(n)).Ok? {
        EditInsertBounded(logged, [to], Independent(n));
      }
    }
  }

  lemma SymlinkBounded(ws: WsState, p: Path, target: Str)
    ensures StepBounded(ws, MakeSymlink(ws, p, target).ws)
  {
    hide IdsOf, ChunksOf, Required, InsertAll, InsertAllNodes, NodeAt, DirDigest, NodeIds, NodeChunks;
    UnchangedBounded(ws, ws);
    RequiredLogged(ws.mutations, Symlink(p, target));
    LeafFootprint(SymN(FILE_META, target));
    if EditInsert(ws, [p], SymN(FILE_META, target)).Ok? {
      EditInsertBounded(ws, [p], SymN(FILE_META, target));
    }
  }

  lemma MetaBounded(ws: WsState, p: Path, mode: Option<u32>, uid: Option<u32>, gid: Option<u32>)
    ensures StepBounded(ws, MetaSet(ws, p, mode, uid, gid).ws)
  {
    hide IdsOf, ChunksOf, Required, InsertAll, InsertAllNodes, NodeAt, DirDigest;
    UnchangedBounded(ws, ws);
    if NodeAt(ws.tree, p).Some? {
      var n := NodeAt(ws.tree, p).value;
      var next := Meta(Or(mode, n.meta.mode), Or(uid, n.meta.uid), Or(gid, n.meta.gid));
      GetFootprint(ws.tree, p);
      RequiredLogged(ws.mutations, SetMeta(p, next.mode, next.uid, next.gid));
      if EditInsert(ws, [p], WithMeta(n, next)).Ok? {
        EditInsertBounded(ws, [p], WithMeta(n, next));
      }
    }
  }

  lemma LinkBounded(ws: WsState, existing: Path, extra: Path)
    ensures StepBounded(ws, Linked(ws, existing, extra).ws)
  {
    hide IdsOf, ChunksOf, Required, InsertAll, InsertAllNodes, NodeAt, DirDigest, NodeIds, NodeChunks, Joining;
    UnchangedBounded(ws, ws);
    if NodeAt(ws.tree, existing).Some? && NodeAt(ws.tree, existing).value.FileN? {
      var n := NodeAt(ws.tree, existing).value;
      var group := Joining(n, existing, extra);
      GetFootprint(ws.tree, existing);
      LeafFootprint(n);
      LeafFootprint(GroupFile(group, n));
      RequiredLogged(ws.mutations, Link(existing, extra));
      if EditInsert(ws, group, GroupFile(group, n)).Ok? {
        EditInsertBounded(ws, group, GroupFile(group, n));
      }
    }
  }

  lemma KvBounded(ws: WsState, op: Op)
    requires op.DoKvSet? || op.DoKvDelete?
    ensures StepBounded(ws, Step(ws, op).ws)
  {
    hide IdsOf, ChunksOf, Required, Stage, DirDigest;
    UnchangedBounded(ws, ws);
    match op
    case DoKvSet(ns, key, v) =>
      StageFrame(ws, [StagedChunk(ChunkDigest(v), v)]);
      RequiredLogged(ws.mutations, KvSet(ns, key, ChunkDigest(v), |v|));
    case DoKvDelete(ns, key) =>
      RequiredLogged(ws.mutations, KvDelete(ns, key));
  }

  /** Every operation, successful or not, is bounded. */
  lemma StepIsBounded(ws: WsState, op: Op)
    ensures StepBounded(ws, Step(ws, op).ws)
  {
    hide StepBounded, Mkdir, Write, Unlinked, Rmdir, Renamed, Copied, MakeSymlink, MetaSet, Linked, KvPut, KvDrop;
    match op
    case DoMkdir(p) => MkdirBounded(ws, p);
    case DoWrite(p, bytes) => WriteBounded(ws, p, bytes);
    case DoUnlink(p) => UnlinkBounded(ws, p);
    case DoRmdir(p) => RmdirBounded(ws, p);
    case DoRename(f, t) => RenameBounded(ws, f, t);
    case DoCopy(f, t) => CopyBounded(ws, f, t);
    case DoSymlink(p, target) => SymlinkBounded(ws, p, target);
    case DoSetMeta(p, mode, uid, gid) => MetaBounded(ws, p, mode, uid, gid);
    case DoLink(e, x) => LinkBounded(ws, e, x);
    case DoKvSet(_, _, _) => KvBounded(ws, op);
    case DoKvDelete(_, _) => KvBounded(ws, op);
  }

  // ---- what a log names ----

  /** Every chunk that the log newly names is held now, or belongs to the tree that was there. */
  ghost predicate NamesHeld(ws: WsState, after: WsState) {
    && ws.staged.Keys <= after.staged.Keys
    && Required(after.mutations) <= Required(ws.mutations) + after.staged.Keys + ChunksOf(ws.tree)
  }

  lemma OneNameHeld(ws: WsState, after: WsState, m: Mutation)
    requires ws.staged.Keys <= after.staged.Keys && after.mutations == ws.mutations + [m]
    requires MutationChunks(m) <= after.staged.Keys + ChunksOf(ws.tree)
    ensures NamesHeld(ws, after)
  {
    hide Required, ChunksOf, MutationChunks;
    RequiredLogged(ws.mutations, m);
  }

  lemma NoNameAdded(ws: WsState, after: WsState)
    requires ws.staged.Keys <= after.staged.Keys && after.mutations == ws.mutations
    ensures NamesHeld(ws, after)
  {
    hide Required, ChunksOf;
  }

  lemma WriteNamesHeld(ws: WsState, p: Path, bytes: Str)
    ensures NamesHeld(ws, Write(ws, p, bytes).ws)
  {
    hide NamesHeld, InsertAll, InsertAllNodes, NodeAt, StageAll, Extents, WriteTargets, WrittenFile, ChunksIn, ChunksOf;
    var after := Write(ws, p, bytes).ws;
    NoNameAdded(ws, ws);
    if Stage(ws, Staged(bytes)).Ok? {
      StageAllHolds(ws.staged, Staged(bytes));
      ExtentsNameStaged(bytes);
      if Write(ws, p, bytes).result.Ok? {
        OneNameHeld(ws, after, WriteFile(p, |bytes|, Extents(bytes)));
      } else {
        NoNameAdded(ws, after);
      }
    }
  }

  lemma CopyNamesHeld(ws: WsState, from: Path, to: Path)
    ensures NamesHeld(ws, Copied(ws, from, to).ws)
  {
    hide NamesHeld, InsertAll, InsertAllNodes, NodeAt, ChunksIn, ChunksOf;
    var after := Copied(ws, from, to).ws;
    NoNameAdded(ws, ws);
    if after.mutations != ws.mutations {
      var n := NodeAt(ws.tree, from).value;
      GetFootprint(ws.tree, from);
      OneNameHeld(ws, after, CopyMutation(n, to));
    }
  }

  lemma KvNamesHeld(ws: WsState, namespace: Str, key: Str, value: Str)
    ensures NamesHeld(ws, KvPut(ws, namespace, key, value).ws)
  {
    hide NamesHeld, StageAll, ChunksOf, ChunkDigest;
    var o := KvPut(ws, namespace, key, value);
    NoNameAdded(ws, ws);
    if o.result.Ok? {
      var held := [StagedChunk(ChunkDigest(value), value)];
      StageAllHolds(ws.staged, held);
      assert held[0] in held;
      OneNameHeld(ws, o.ws, KvSet(namespace, key, ChunkDigest(value), |value|));
    }
  }

  /** The other operations log mutations that name no chunk, and hold none. */
  lemma PlainNamesHeld(ws: WsState, op: Op)
    requires !op.DoWrite? && !op.DoCopy? && !op.DoKvSet?
    ensures NamesHeld(ws, Step(ws, op).ws)
  {
    hide NamesHeld, InsertAll, InsertAllNodes, Insert, Remove, RouteNodes, NodeAt, RenameRefused, Joining, ChunksOf;
    hide Required, Without;
    var after := Step(ws, op).ws;
    assert after.staged == ws.staged;
    if after.mutations == ws.mutations {
      NoNameAdded(ws, after);
    } else {
      var m := after.mutations[|ws.mutations|];
      assert after.mutations == ws.mutations + [m] && MutationChunks(m) == {};
      OneNameHeld(ws, after, m);
    }
  }

  lemma StepNamesHeld(ws: WsState, op: Op)
    ensures NamesHeld(ws, Step(ws, op).ws)
  {
    hide NamesHeld, Write, Copied, KvPut, KvDrop, Mkdir, Unlinked, Rmdir, Renamed, MakeSymlink, MetaSet, Linked;
    match op
    case DoWrite(p, bytes) => WriteNamesHeld(ws, p, bytes);
    case DoCopy(f, t) => CopyNamesHeld(ws, f, t);
    case DoKvSet(ns, key, v) => KvNamesHeld(ws, ns, key, v);
    case _ => PlainNamesHeld(ws, op);
  }

  /** What a workspace over `base` may refer to; what its log names, it holds or found there. */
  ghost predicate RestsOn(base: Tree, baseKv: KvMap, ws: WsState) {
    && Coherent(ws.newNodes)
    && IdsOf(ws.tree) <= IdsOf(base) + ws.newNodes.Keys
    && ChunksOf(ws.tree) <= ChunksOf(base) + Required(ws.mutations)
    && ws.kv.Values <= baseKv.Values + Required(ws.mutations)
    && Required(ws.mutations) <= ws.staged.Keys + ChunksOf(base) + baseKv.Values
  }

  lemma StepRests(base: Tree, baseKv: KvMap, ws: WsState, op: Op)
    requires RestsOn(base, baseKv, ws)
    ensures RestsOn(base, baseKv, Step(ws, op).ws)
  {
    hide Step, IdsOf, ChunksOf, Required, Coherent;
    StepIsBounded(ws, op);
    StepNamesHeld(ws, op);
  }

  /** Over every run of every operation, a workspace rests on its base, its own nodes and its own log. */
  lemma {:induction false} RunRests(base: Tree, baseKv: KvMap, ws: WsState, ops: seq<Op>)
    requires RestsOn(base, baseKv, ws)
    ensures RestsOn(base, baseKv, Run(ws, ops))
    decreases |ops|
  {
    hide Step, RestsOn;
    if ops != [] {
      StepRests(base, baseKv, ws, ops[0]);
      RunRests(base, baseKv, Step(ws, ops[0]).ws, ops[1..]);
    }
  }
}
