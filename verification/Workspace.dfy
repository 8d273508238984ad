/** The workspace itself: edits through a partial node cache, proved against `WorkspaceSpec`. */
module Workspace {
  import opened Base
  import opened Paths
  import opened Canonical
  import opened State
  import opened Trees
  import opened TreeOps
  import opened Nodes
  import opened Chunks
  import opened Database
  import opened Resident
  import opened Store
  import opened WorkspaceSpec
  import opened OperationLaws

  const DEFAULT_STAGED_LIMIT: nat := 0x4000_0000

  // ---- facts about batches of insertions ----

  lemma InsertAllStep(t: Tree, paths: seq<Path>, n: Node, i: nat)
    requires i < |paths| && Insert(t, paths[i], n).Ok?
    ensures InsertAll(t, paths[i..], n) == InsertAll(Insert(t, paths[i], n).value, paths[i + 1..], n)
    ensures InsertAllNodes(t, paths[i..], n)
         == RouteNodes(Insert(t, paths[i], n).value, paths[i])
             + InsertAllNodes(Insert(t, paths[i], n).value, paths[i + 1..], n)
  {
    hide RouteNodes, Insert;
    assert paths[i..][0] == paths[i] && paths[i..][1..] == paths[i + 1..];
  }

  lemma InsertAllFails(t: Tree, paths: seq<Path>, n: Node, i: nat)
    requires i < |paths| && Insert(t, paths[i], n).Err?
    ensures InsertAll(t, paths[i..], n) == Err(Insert(t, paths[i], n).error)
  {
    hide RouteNodes, Insert;
    assert paths[i..][0] == paths[i];
  }

  lemma MapAssoc(a: NodeMap, b: NodeMap, c: NodeMap)
    ensures a + b + c == a + (b + c)
  {
  }

  ghost predicate AllLoaded(nodes: NodeMap, t: Tree, paths: seq<Path>) {
    forall p <- paths :: Loaded(nodes, t, p)
  }

  /** Loaded routes stay loaded while a leaf is inserted at one of them. */
  lemma InsertKeepsLoaded(nodes: NodeMap, t: Tree, paths: seq<Path>, n: Node, i: nat)
    requires i < |paths| && AllLoaded(nodes, t, paths[i..]) && Insert(t, paths[i], n).Ok?
    requires !n.DirN? || |paths| == 1
    ensures var s := Insert(t, paths[i], n).value;
            AllLoaded(nodes + RouteNodes(s, paths[i]), s, paths[i + 1..])
  {
    hide Loaded, RouteNodes, Insert;
    forall p | p in paths[i + 1..]
      ensures Loaded(nodes + RouteNodes(Insert(t, paths[i], n).value, paths[i]), Insert(t, paths[i], n).value, p)
    {
      assert p in paths[i..];
      InsertLoaded(nodes, t, paths[i], n, p);
    }
  }

  lemma NoInserts(t: Tree, paths: seq<Path>, n: Node)
    requires paths == []
    ensures InsertAll(t, paths, n) == Ok(t) && InsertAllNodes(t, paths, n) == map[]
  {
  }

  /** One round of a batch: the next path's insertion against the whole batch. */
  lemma InsertFacts(avail: NodeMap, cache: NodeMap, created: NodeMap, t: Tree, paths: seq<Path>, n: Node, i: nat)
    requires i < |paths| && AllLoaded(cache + created, t, paths[i..]) && Stored(avail + created, t)
    requires n.DirN? ==> |paths| == 1 && Stored(avail, n.sub)
    ensures var p := paths[i];
            && Loaded(cache + created, t, p)
            && (Insert(t, p, n).Err? ==> InsertAll(t, paths[i..], n) == Err(Insert(t, p, n).error))
            && (Insert(t, p, n).Ok? ==>
                  var s := Insert(t, p, n).value;
                  var more := created + RouteNodes(s, p);
                  && InsertAll(t, paths[i..], n) == InsertAll(s, paths[i + 1..], n)
                  && created + InsertAllNodes(t, paths[i..], n) == more + InsertAllNodes(s, paths[i + 1..], n)
                  && AllLoaded(cache + more, s, paths[i + 1..])
                  && Stored(avail + more, s))
  {
    var p := paths[i];
    assert p in paths[i..];
    hide Insert, RouteNodes, InsertAll, InsertAllNodes, Stored, Loaded;
    if Insert(t, p, n).Err? {
      InsertAllFails(t, paths, n, i);
    } else {
      var s := Insert(t, p, n).value;
      var route := RouteNodes(s, p);
      InsertAllStep(t, paths, n, i);
      InsertKeepsLoaded(cache + created, t, paths, n, i);
      if n.DirN? {
        StoredGrows(avail, avail + created, n.sub);
      }
      InsertStored(avail + created, t, p, n);
      MapAssoc(cache, created, route);
      MapAssoc(avail, created, route);
      MapAssoc(created, route, InsertAllNodes(s, paths[i + 1..], n));
    }
  }

  /** A private staged view over one base commit. */
  class Workspace {
    const store: Store
    const branch: Str
    const base: HeadInfo
    var namespaceRoot: NodeId
    var kv: KvMap
    var cache: NodeMap
    var newNodes: NodeMap
    var staged: ChunkMap
    var stagedBytes: nat
    var stagedLimit: nat
    var mutations: seq<Mutation>
    var isOpen: bool
    ghost var tree: Tree
    ghost const baseTree: Tree
    ghost const baseKv: KvMap

    /** Nodes this workspace can resolve: rows of the store, and its own cache. */
    ghost function Available(): NodeMap
      reads this, store
    {
      DirRows(store.db.nodes) + cache
    }

    /** The part of validity that no other actor can disturb. */
    ghost predicate Local()
      reads this
    {
      && namespaceRoot == IdOf(tree)
      && Coherent(cache) && Coherent(newNodes)
      && newNodes.Keys <= cache.Keys
    }

    ghost predicate Valid()
      reads this, store, store.resident
    {
      store.Valid() && Local() && Stored(Available(), tree)
    }

    ghost function State(): WsState
      reads this
    {
      WsState(tree, newNodes, kv, staged, stagedBytes, stagedLimit, mutations, isOpen)
    }

    /** `Kernel::workspace`, once the head's state has been loaded. */
    constructor (store: Store, branch: Str, base: HeadInfo, ns: NodeId, kv: KvMap, ghost t: Tree)
      requires store.Valid() && ns == IdOf(t) && Stored(DirRows(store.db.nodes), t)
      ensures Valid() && State() == Open(t, kv, DEFAULT_STAGED_LIMIT)
      ensures this.store == store && this.branch == branch && this.base == base && baseTree == t && baseKv == kv
    {
      hide Stored, IdOf, DirDigest, DirRows, RowsOk;
      this.store, this.branch, this.base := store, branch, base;
      namespaceRoot, this.kv, baseTree, baseKv := ns, kv, t, kv;
      cache, newNodes, staged := map[], map[], map[];
      stagedBytes, stagedLimit, mutations, isOpen := 0, DEFAULT_STAGED_LIMIT, [], true;
      tree := t;
      new;
      assert Available() == DirRows(store.db.nodes);
    }

    lemma RowsCoherent()
      requires store.Valid()
      ensures Coherent(DirRows(store.db.nodes))
    {
      hide DirDigest;
      forall id | id in DirRows(store.db.nodes)
        ensures DirDigest(DirRows(store.db.nodes)[id]) == id
      {
        assert BodyDigest(store.db.nodes[id].body) == id;
      }
    }

    // ---- filling the cache ----

    /** `view::load_node`: the cache, the empty constant, then the store. */
    method LoadNode(ghost t: Tree, id: NodeId) returns (r: Result<DirNode>)
      requires Valid() && id == IdOf(t) && Has(Available(), t)
      modifies this`cache, store.resident
      ensures Valid() && old(cache).Keys <= cache.Keys
      ensures r == Ok(NodeOf(t)) && Has(cache, t)
    {
      hide IdOf, NodeOf, DirDigest, Stored, RowsOk, Resolve, BodyDigest, Lists, DirRows, Coherent;
      RowsCoherent();
      ResolveTree(cache, t);
      ResolveTree(DirRows(store.db.nodes), t);
      if id in cache {
        return Ok(cache[id]);
      }
      EmptyIdOnlyEmpty(t);
      EmptyTreeId();
      if id == EMPTY_ID {
        return Ok(map[]);
      }
      r := store.DirNode(id);
      if r.Ok? {
        ghost var before := Available();
        CoherentAdds(cache, id, r.value);
        cache := cache[id := r.value];
        StoredGrows(before, Available(), tree);
      }
    }

    /** `view::prefetch`: load every directory along a path. */
    method Prefetch(p: Path)
      requires Valid()
      modifies this`cache, store.resident
      ensures Valid() && old(cache).Keys <= cache.Keys
      ensures Loaded(cache, tree, p)
    {
      hide IdOf, NodeOf, DirDigest, ToEntry, Get;
      var loaded := LoadNode(tree, namespaceRoot);
      var current := loaded.value;
      ghost var here := tree;
      ghost var whole := Stored(Available(), tree);
      for i := 0 to |p|
        invariant Valid() && old(cache).Keys <= cache.Keys
        invariant current == NodeOf(here) && Has(cache, here)
        invariant Stored(Available(), here)
        invariant Loaded(cache, here, p[i..]) ==> Loaded(cache, tree, p)
        invariant forall c: NodeMap | cache.Keys <= c.Keys && Loaded(c, here, p[i..]) :: Loaded(c, tree, p)
      {
        assert p[i..][0] == p[i] && p[i..][1..] == p[i + 1..];
        NodeOfAt(here, p[i]);
        if p[i] !in current {
          assert Loaded(cache, here, p[i..]);
          return;
        }
        ToEntryKind(here.kids[p[i]]);
        match current[p[i]]
        case File(_, _, _, _) =>
          assert Loaded(cache, here, p[i..]);
          return;
        case Sym(_, _) =>
          assert Loaded(cache, here, p[i..]);
          return;
        case Dir(_, child) =>
          ghost var up := here;
          ghost var avail := Available();
          here := here.kids[p[i]].sub;
          loaded := LoadNode(here, child);
          StoredGrows(avail, Available(), here);
          current := loaded.value;
          forall c: NodeMap | cache.Keys <= c.Keys && Loaded(c, here, p[i + 1..])
            ensures Loaded(c, tree, p)
          {
            assert Loaded(c, up, p[i..]);
          }
      }
      assert p[|p|..] == [];
      assert Loaded(cache, here, p[|p|..]);
    }

    /** `entry_at`: prefetching makes the lookup answer as it would on the full node set. */
    method EntryAtPath(p: Path) returns (r: Result<Option<Entry>>)
      requires Valid()
      modifies this`cache, store.resident
      ensures Valid() && old(cache).Keys <= cache.Keys
      ensures r == Ok(EntryAt(tree, p)) && Loaded(cache, tree, p)
    {
      hide IdOf, NodeOf, DirDigest, EntryAt, Loaded, Stored;
      Prefetch(p);
      r := GetEntry(cache, tree, namespaceRoot, p);
    }

    /** `entry_at`, together with the node that the entry stands for. */
    method Inspect(p: Path) returns (found: Option<Entry>, ghost node: Option<Node>)
      requires Valid()
      modifies this`cache, store.resident
      ensures Valid() && old(cache).Keys <= cache.Keys && Loaded(cache, tree, p)
      ensures node == NodeAt(tree, p) && (found.Some? <==> node.Some?)
      ensures found.Some? ==> Describes(found.value, node.value)
    {
      hide IdOf, ToEntry, DirDigest, EntryAt, Loaded, Stored;
      node := NodeAt(tree, p);
      EntryAtIsNodeAt(tree, p);
      if node.Some? {
        ToEntryKind(node.value);
      }
      var r := EntryAtPath(p);
      found := r.value;
    }

    // ---- tree edits ----

    lemma TreeStored()
      requires Valid()
      ensures Stored(Available(), tree) && namespaceRoot == IdOf(tree) && Coherent(cache)
    {
      hide Stored, IdOf, Coherent, RowsOk, DirRows;
    }

    /** `apply_edit` with one node inserted at several prefetched paths: all of it, or none of it. */
    method ApplyInserts(paths: seq<Path>, ghost n: Node, entry: Entry) returns (r: Result<Unit>)
      requires Valid() && entry == ToEntry(n) && AllLoaded(cache, tree, paths)
      requires n.DirN? ==> |paths| == 1 && Stored(Available(), n.sub)
      modifies this`namespaceRoot, this`cache, this`newNodes, this`tree
      ensures Valid() && old(cache).Keys <= cache.Keys
      ensures Became(EditInsert(old(State()), paths, n), old(State()), r)
    {
      hide IdOf, ToEntry, DirDigest, Loaded, Stored, Insert, RouteNodes, InsertAll, InsertAllNodes, RowsOk, DirRows;
      hide Valid;
      TreeStored();
      var w := new TreeWriter(cache);
      var root := namespaceRoot;
      ghost var t := tree;
      ghost var avail := Available();
      assert cache + w.newNodes == cache && avail + w.newNodes == avail;
      assert paths[0..] == paths;
      for i := 0 to |paths|
        invariant fresh(w) && w.Valid() && w.source == cache && root == IdOf(t)
        invariant unchanged(this)
        invariant InsertAll(tree, paths, n) == InsertAll(t, paths[i..], n)
        invariant w.newNodes + InsertAllNodes(t, paths[i..], n) == InsertAllNodes(tree, paths, n)
        invariant AllLoaded(cache + w.newNodes, t, paths[i..])
        invariant Stored(avail + w.newNodes, t)
      {
        assert paths[i] in paths[i..];
        InsertFacts(avail, cache, w.newNodes, t, paths, n, i);
        var written := w.InsertPath(t, root, paths[i], n, entry);
        if written.Err? {
          return Err(written.error);
        }
        t := Insert(t, paths[i], n).value;
        root := written.value;
      }
      NoInserts(t, paths[|paths|..], n);
      assert w.newNodes == InsertAllNodes(tree, paths, n) by {
        assert w.newNodes + map[] == w.newNodes;
      }
      Commit(w.newNodes, root, t);
      r := Ok(());
    }

    /** Fold a writer's nodes into the cache and the nodes to persist, and move the root. */
    method Commit(created: NodeMap, root: NodeId, ghost t: Tree)
      requires Valid() && Coherent(created) && root == IdOf(t) && Stored(Available() + created, t)
      modifies this`namespaceRoot, this`cache, this`newNodes, this`tree
      ensures Valid() && old(cache).Keys <= cache.Keys
      ensures State() == old(State()).(tree := t, newNodes := old(newNodes) + created)
    {
      hide IdOf, DirDigest, Stored, RowsOk, DirRows;
      MapAssoc(DirRows(store.db.nodes), cache, created);
      UnionCoherent(cache, created);
      UnionCoherent(newNodes, created);
      cache := cache + created;
      newNodes := newNodes + created;
      namespaceRoot := root;
      tree := t;
    }

    /** How an edit's outcome reads off the state: the next state on success, no change on failure. */
    ghost predicate Became(next: Result<WsState>, before: WsState, r: Result<Unit>)
      reads this
    {
      match next
      case Ok(after) => r == Ok(()) && State() == after
      case Err(e) => r == Err(e) && State() == before
    }

    method ApplyRemove(p: Path) returns (r: Result<Unit>)
      requires Valid() && Loaded(cache, tree, p)
      modifies this`namespaceRoot, this`cache, this`newNodes, this`tree
      ensures Valid() && old(cache).Keys <= cache.Keys
      ensures Became(EditRemove(old(State()), p), old(State()), r)
    {
      hide IdOf, ToEntry, DirDigest, Loaded, Stored, Remove, RouteNodes, RowsOk, DirRows;
      var w := new TreeWriter(cache);
      assert cache + w.newNodes == cache;
      var removed := w.RemovePath(tree, namespaceRoot, p);
      if removed.Err? {
        return Err(removed.error);
      }
      ghost var s := Remove(tree, p).value;
      assert w.newNodes == RouteNodes(s, p);
      RemoveStored(Available(), tree, p);
      Commit(w.newNodes, removed.value, s);
      r := Ok(());
    }

    /** `apply_edit` of a rename: insert at the destination, then remove the source, in one batch. */
    method ApplyMove(from: Path, to: Path, ghost n: Node, entry: Entry) returns (r: Result<Unit>)
      requires Valid() && entry == ToEntry(n) && Loaded(cache, tree, from) && Loaded(cache, tree, to)
      requires n.DirN? ==> Stored(Available(), n.sub) && !(to <= from)
      modifies this`namespaceRoot, this`cache, this`newNodes, this`tree
      ensures Valid() && old(cache).Keys <= cache.Keys
      ensures Became(EditMove(old(State()), from, to, n), old(State()), r)
    {
      hide IdOf, ToEntry, DirDigest, Loaded, Stored, Remove, Insert, RouteNodes, RowsOk, DirRows;
      var w := new TreeWriter(cache);
      ghost var avail := Available();
      assert cache + w.newNodes == cache;
      var inserted := w.InsertPath(tree, namespaceRoot, to, n, entry);
      if inserted.Err? {
        return Err(inserted.error);
      }
      ghost var mid := Insert(tree, to, n).value;
      assert w.newNodes == RouteNodes(mid, to);
      InsertLoaded(cache, tree, to, n, from);
      InsertStored(avail, tree, to, n);
      var removed := w.RemovePath(mid, inserted.value, from);
      if removed.Err? {
        return Err(removed.error);
      }
      ghost var after := Remove(mid, from).value;
      RemoveStored(avail + RouteNodes(mid, to), mid, from);
      MapAssoc(avail, RouteNodes(mid, to), RouteNodes(after, from));
      MapAssoc(newNodes, RouteNodes(mid, to), RouteNodes(after, from));
      Commit(w.newNodes, removed.value, after);
      r := Ok(());
    }

    // ---- staging ----

    /** Hold chunk bytes until publication, refusing to grow past the limit. */
    method StageChunks(chunks: seq<StagedChunk>) returns (r: Result<Unit>)
      modifies this`staged, this`stagedBytes
      ensures Became(Stage(old(State()), chunks), old(State()), r)
    {
      var incoming := 0;
      for i := 0 to |chunks|
        invariant incoming + Incoming(staged, chunks[i..]) == Incoming(staged, chunks)
      {
        assert chunks[i..][0] == chunks[i] && chunks[i..][1..] == chunks[i + 1..];
        if chunks[i].digest !in staged {
          incoming := incoming + |chunks[i].bytes|;
        }
      }
      assert chunks[|chunks|..] == [];
      if stagedBytes + incoming > stagedLimit {
        return Err(OverBudget);
      }
      ghost var before, bytes := staged, stagedBytes;
      for i := 0 to |chunks|
        invariant StageAll(staged, chunks[i..]) == StageAll(before, chunks)
        invariant stagedBytes + Added(staged, chunks[i..]) == bytes + Added(before, chunks)
      {
        assert chunks[i..][0] == chunks[i] && chunks[i..][1..] == chunks[i + 1..];
        if chunks[i].digest !in staged {
          stagedBytes := stagedBytes + |chunks[i].bytes|;
          staged := staged[chunks[i].digest := chunks[i].bytes];
        }
      }
      r := Ok(());
    }

    method PrefetchAll(paths: seq<Path>)
      requires Valid()
      modifies this`cache, store.resident
      ensures Valid() && old(cache).Keys <= cache.Keys
      ensures AllLoaded(cache, tree, paths)
    {
      hide IdOf, DirDigest, Loaded, Stored;
      for i := 0 to |paths|
        invariant Valid() && old(cache).Keys <= cache.Keys
        invariant AllLoaded(cache, tree, paths[..i])
      {
        ghost var before := cache;
        Prefetch(paths[i]);
        forall p | p in paths[..i + 1]
          ensures Loaded(cache, tree, p)
        {
          if p != paths[i] {
            assert p in paths[..i];
            LoadedGrows(before, cache, tree, p);
          }
        }
      }
      assert paths[..|paths|] == paths;
    }

    /** Append to the mutation log. */
    method Log(m: Mutation)
      requires Valid()
      modifies this`mutations
      ensures Valid() && State() == Logged(old(State()), m)
    {
      hide IdOf, DirDigest, Stored, RowsOk, DirRows, Coherent, Lists;
      mutations := mutations + [m];
    }

    // ---- filesystem operations ----

    /** Create or overwrite a regular file; every name of a hard-linked file is written. */
    method WriteFile(p: Path, bytes: Str) returns (r: Result<Unit>)
      requires Valid()
      modifies this, store.resident
      ensures Valid()
      ensures Outcome(State(), r) == Write(old(State()), p, bytes)
    {
      hide IdOf, ToEntry, DirDigest, Loaded, InsertAll, InsertAllNodes, RowsOk, DirRows, Coherent, Lists, Stage;
      hide Stored, NodeAt;
      hide ExtentsFrom, StagedOf, Pieces, WrittenFile, WriteTargets, Describes;
      if !isOpen {
        return Err(WorkspaceClosed);
      }
      RootIsDir(tree);
      if p == [] {
        return Err(IsADirectory);
      }
      var found, there := Inspect(p);
      var isDir := found.Some? && found.value.Dir?;
      assert isDir <==> there.Some? && there.value.DirN? by {
        if found.Some? { DescribesKind(found.value, there.value); }
      }
      if isDir {
        return Err(IsADirectory);
      }
      var extents, chunks := ChunkBytesWith(bytes, CHUNK_SIZE);
      r := StageChunks(chunks);
      if r.Err? {
        return;
      }
      r := WriteExtents(p, bytes, extents);
      if r.Ok? {
        Log(Mutation.WriteFile(p, |bytes|, extents));
      }
    }

    /** The tree edit of a write, once its chunks are staged. */
    method WriteExtents(p: Path, bytes: Str, extents: seq<Extent>) returns (r: Result<Unit>)
      requires Valid() && extents == Extents(bytes) && (NodeAt(tree, p).Some? ==> !NodeAt(tree, p).value.DirN?)
      modifies this`namespaceRoot, this`cache, this`newNodes, this`tree, store.resident
      ensures Valid()
      ensures var there := NodeAt(old(tree), p);
              Became(EditInsert(old(State()), WriteTargets(there, p), WrittenFile(there, bytes)), old(State()), r)
    {
      hide Valid;
      hide IdOf, ToEntry, DirDigest, Loaded, InsertAll, InsertAllNodes, RowsOk, DirRows, Coherent, Lists, Stored;
      hide NodeAt, Extents;
      var found, there := Inspect(p);
      var meta, links := FILE_META, [];
      if found.Some? && found.value.File? {
        meta, links := found.value.meta, found.value.links;
      }
      var entry := File(meta, |bytes|, extents, links);
      ToEntryKind(WrittenFile(there, bytes));
      var targets := if links == [] then [p] else links;
      PrefetchAll(targets);
      r := ApplyInserts(targets, WrittenFile(there, bytes), entry);
    }

    /** Create a directory and missing parents; an existing directory is accepted. */
    method MakeDir(p: Path) returns (r: Result<Unit>)
      requires Valid()
      modifies this, store.resident
      ensures Valid()
      ensures Outcome(State(), r) == Mkdir(old(State()), p)
    {
      hide IdOf, ToEntry, DirDigest, Loaded, InsertAll, InsertAllNodes, Valid;
      if !isOpen {
        return Err(WorkspaceClosed);
      }
      if p == [] {
        return Ok(());
      }
      var found, there := Inspect(p);
      if found.Some? {
        return if found.value.Dir? then Ok(()) else Err(AlreadyExists);
      }
      EmptyTreeId();
      ToEntryKind(FRESH_DIR);
      r := ApplyInserts([p], FRESH_DIR, Dir(DIR_META, EMPTY_ID));
      if r.Ok? {
        Log(MkDir(p));
      }
    }

    /** Remove a regular file or symlink; the other names of a hard-linked file survive. */
    method RemoveFile(p: Path) returns (r: Result<Unit>)
      requires Valid()
      modifies this, store.resident
      ensures Valid()
      ensures Outcome(State(), r) == Unlinked(old(State()), p)
    {
      hide Valid;
      hide IdOf, ToEntry, DirDigest, Loaded, Stored, InsertAll, InsertAllNodes, RouteNodes, Remove, RowsOk, DirRows;
      hide Coherent, Lists;
      if !isOpen {
        return Err(WorkspaceClosed);
      }
      var found, there := Inspect(p);
      if found.None? {
        return Err(NotFound);
      }
      var entry := found.value;
      if entry.Dir? {
        return Err(IsADirectory);
      }
      r := ApplyRemove(p);
      if r.Err? {
        return;
      }
      var remaining := if entry.File? then Without(entry.links, p) else [];
      if remaining != [] {
        r := WriteGroup(remaining, there.value, entry);
        if r.Err? {
          return;
        }
      }
      Log(Unlink(p));
    }

    /** `write_group`: one entry to every member of a link group. */
    method WriteGroup(group: seq<Path>, ghost n: Node, entry: Entry) returns (r: Result<Unit>)
      requires Valid() && n.FileN? && Describes(entry, n)
      modifies this`namespaceRoot, this`cache, this`newNodes, this`tree, store.resident
      ensures Valid()
      ensures Became(EditInsert(old(State()), group, GroupFile(group, n)), old(State()), r)
    {
      hide Valid;
      hide IdOf, ToEntry, DirDigest, Loaded, Stored, InsertAll, InsertAllNodes, RowsOk, DirRows, Coherent, Lists;
      var member := File(entry.meta, entry.size, entry.extents, if |group| > 1 then group else []);
      PrefetchAll(group);
      ToEntryKind(GroupFile(group, n));
      r := ApplyInserts(group, GroupFile(group, n), member);
    }

    /** Remove an empty directory: emptiness is one node read. */
    method RemoveDir(p: Path) returns (r: Result<Unit>)
      requires Valid()
      modifies this, store.resident
      ensures Valid()
      ensures Outcome(State(), r) == Rmdir(old(State()), p)
    {
      hide Valid;
      hide IdOf, NodeOf, ToEntry, DirDigest, Loaded, Stored, RouteNodes, Remove, RowsOk, DirRows, Coherent, Lists;
      if !isOpen {
        return Err(WorkspaceClosed);
      }
      var found, there := Inspect(p);
      if found.None? {
        return Err(NotFound);
      }
      match found.value
      case File(_, _, _, _) => return Err(NotADirectory);
      case Sym(_, _) => return Err(NotADirectory);
      case Dir(_, node) =>
        var empty := IsEmptyDir(p, there.value.sub, node);
        if !empty {
          return Err(DirectoryNotEmpty);
        }
        r := ApplyRemove(p);
        if r.Ok? {
          Log(RmDir(p));
        }
    }

    /** Load the directory at a path and see whether it has entries. */
    method IsEmptyDir(ghost p: Path, ghost sub: Tree, node: NodeId) returns (empty: bool)
      requires Valid() && Loaded(cache, tree, p) && node == IdOf(sub)
      requires NodeAt(tree, p).Some? && NodeAt(tree, p).value.DirN? && NodeAt(tree, p).value.sub == sub
      modifies this`cache, store.resident
      ensures Valid() && Loaded(cache, tree, p) && old(cache).Keys <= cache.Keys
      ensures empty <==> sub.kids == map[]
    {
      hide IdOf, NodeOf, DirDigest, Loaded, Stored, RowsOk, DirRows, Coherent, Lists;
      ghost var before := cache;
      StoredGet(Available(), tree, p);
      StoredHas(Available(), sub);
      var loaded := LoadNode(sub, node);
      NodeOfEmpty(sub);
      LoadedGrows(before, cache, tree, p);
      empty := loaded.value == map[];
    }

    /** What is at the destination of a rename: only an empty directory gives way to a directory. */
    method TargetRefused(source: Entry, ghost n: Option<Node>, to: Path) returns (refused: Option<Error>)
      requires Valid() && n.Some? && Describes(source, n.value)
      modifies this`cache, store.resident
      ensures Valid() && old(cache).Keys <= cache.Keys
      ensures refused == RenameRefused(n.value, NodeAt(tree, to))
    {
      hide IdOf, ToEntry, DirDigest, Loaded, Stored, RowsOk, DirRows, Coherent, Lists, NodeAt;
      var target, there := Inspect(to);
      if target.None? {
        return None;
      }
      DescribesKind(source, n.value);
      refused := None;
      match target.value
      case Dir(_, node) =>
        var empty := IsEmptyDir(to, there.value.sub, node);
        if !empty {
          return Some(DirectoryNotEmpty);
        }
        if !source.Dir? {
          return Some(IsADirectory);
        }
      case File(_, _, _, _) =>
        if source.Dir? {
          return Some(NotADirectory);
        }
      case Sym(_, _) =>
        if source.Dir? {
          return Some(NotADirectory);
        }
    }

    /** Move a file, symlink or whole directory: the subtree is reattached by digest. */
    method RenamePath(from: Path, to: Path) returns (r: Result<Unit>)
      requires Valid()
      modifies this, store.resident
      ensures Valid()
      ensures Outcome(State(), r) == Renamed(old(State()), from, to)
      ensures r.Ok? <==> old(MayRename(State(), from, to))
    {
      hide Valid, MayRename, RenameRefused, EditMove;
      RenameVerdict(State(), from, to);
      hide IdOf, ToEntry, DirDigest, Loaded, Stored, RouteNodes, Insert, Remove, RowsOk, DirRows, Coherent, Lists;
      hide NodeAt;
      if !isOpen {
        return Err(WorkspaceClosed);
      }
      if from == [] || to == [] {
        return Err(InvalidPath);
      }
      if from == to {
        return Ok(());
      }
      if from <= to {
        return Err(InvalidPath);
      }
      var source, n := Inspect(from);
      if source.None? {
        return Err(NotFound);
      }
      var refused := TargetRefused(source.value, n, to);
      if refused.Some? {
        return Err(refused.value);
      }
      PrefetchAll([from, to]);
      if n.value.DirN? {
        TreeStored();
        MoveIsSound(Available(), tree, from, to);
      }
      assert Loaded(cache, tree, [from, to][0]) && Loaded(cache, tree, [from, to][1]);
      r := ApplyMove(from, to, n.value, source.value);
      if r.Ok? {
        Log(Rename(from, to));
      }
    }

    /** Copy a file or symlink: content is shared by digest, and the copy joins no link group. */
    method CopyFile(from: Path, to: Path) returns (r: Result<Unit>)
      requires Valid()
      modifies this, store.resident
      ensures Valid()
      ensures Outcome(State(), r) == Copied(old(State()), from, to)
      ensures r.Ok? <==> old(MayCopy(State(), from, to))
    {
      hide MayCopy;
      CopyVerdict(State(), from, to);
      hide Valid;
      hide IdOf, ToEntry, DirDigest, Loaded, Stored, InsertAll, InsertAllNodes, RowsOk, DirRows, Coherent, Lists;
      hide NodeAt;
      if !isOpen {
        return Err(WorkspaceClosed);
      }
      var source, n := Inspect(from);
      if source.None? {
        return Err(NotFound);
      }
      if source.value.Dir? {
        return Err(IsADirectory);
      }
      var target, there := Inspect(to);
      if target.Some? && target.value.Dir? {
        return Err(IsADirectory);
      }
      var independent := source.value;
      match source.value {
        case File(meta, size, extents, _) =>
          Log(Mutation.WriteFile(to, size, extents));
          independent := File(meta, size, extents, []);
        case Sym(_, linkTarget) =>
          Log(Symlink(to, linkTarget));
      }
      RootIsDir(tree);
      ToEntryKind(Independent(n.value));
      r := WriteEntry(to, Independent(n.value), independent);
    }

    /** `write_entry`, for entries that carry no subtree; the callers have ruled out the root. */
    method WriteEntry(p: Path, ghost n: Node, entry: Entry) returns (r: Result<Unit>)
      requires Valid() && Describes(entry, n)
      requires n.DirN? ==> Stored(Available(), n.sub)
      requires p != []
      modifies this`namespaceRoot, this`cache, this`newNodes, this`tree, store.resident
      ensures Valid()
      ensures Became(EditInsert(old(State()), [p], n), old(State()), r)
    {
      hide Valid;
      hide IdOf, ToEntry, DirDigest, Loaded, Stored, InsertAll, InsertAllNodes, RowsOk, DirRows, Coherent, Lists;
      ghost var before := Available();
      PrefetchAll([p]);
      if n.DirN? {
        StoredGrows(before, Available(), n.sub);
      }
      r := ApplyInserts([p], n, entry);
    }

    method MakeLink(p: Path, target: Str) returns (r: Result<Unit>)
      requires Valid()
      modifies this, store.resident
      ensures Valid()
      ensures Outcome(State(), r) == MakeSymlink(old(State()), p, target)
    {
      hide Valid;
      hide IdOf, ToEntry, DirDigest, Loaded, Stored, InsertAll, InsertAllNodes, RowsOk, DirRows, Coherent, Lists;
      hide NodeAt;
      if !isOpen {
        return Err(WorkspaceClosed);
      }
      var found, there := Inspect(p);
      if found.Some? {
        return Err(AlreadyExists);
      }
      RootIsDir(tree);
      ToEntryKind(SymN(FILE_META, target));
      r := WriteEntry(p, SymN(FILE_META, target), Sym(FILE_META, target));
      if r.Ok? {
        Log(Symlink(p, target));
      }
    }

    /** Change mode, owner or group of one entry. */
    method ChangeMeta(p: Path, mode: Option<u32>, uid: Option<u32>, gid: Option<u32>) returns (r: Result<Unit>)
      requires Valid()
      modifies this, store.resident
      ensures Valid()
      ensures Outcome(State(), r) == MetaSet(old(State()), p, mode, uid, gid)
    {
      hide Valid;
      hide IdOf, DirDigest, Loaded, Stored, InsertAll, InsertAllNodes, RowsOk, DirRows, Coherent, Lists, NodeAt;
      hide Describes;
      if !isOpen {
        return Err(WorkspaceClosed);
      }
      var found, there := Inspect(p);
      if found.None? {
        return Err(NotFound);
      }
      DescribesKind(found.value, there.value);
      var current := found.value.meta;
      var next := Meta(Or(mode, current.mode), Or(uid, current.uid), Or(gid, current.gid));
      if next == current {
        return Ok(());
      }
      if p == [] {
        return Err(IsADirectory);
      }
      DescribesMeta(found.value, there.value, next);
      if there.value.DirN? {
        TreeStored();
        StoredGet(Available(), tree, p);
      }
      r := WriteEntry(p, WithMeta(there.value, next), found.value.(meta := next));
      if r.Ok? {
        Log(SetMeta(p, next.mode, next.uid, next.gid));
      }
    }

    /** Point a second path at an existing file. */
    method LinkFile(existing: Path, extra: Path) returns (r: Result<Unit>)
      requires Valid()
      modifies this, store.resident
      ensures Valid()
      ensures Outcome(State(), r) == Linked(old(State()), existing, extra)
    {
      hide Valid;
      hide IdOf, ToEntry, DirDigest, Loaded, Stored, InsertAll, InsertAllNodes, RowsOk, DirRows, Coherent, Lists;
      hide NodeAt, SortPaths;
      if !isOpen {
        return Err(WorkspaceClosed);
      }
      var found, n := Inspect(existing);
      if found.None? {
        return Err(NotFound);
      }
      match found.value
      case Dir(_, _) => return Err(IsADirectory);
      case Sym(_, _) => return Err(InvalidPath);
      case File(_, _, _, links) =>
        var occupied, _ := Inspect(extra);
        if occupied.Some? {
          return Err(AlreadyExists);
        }
        var group := if links == [] then [existing] else links;
        group := SortPaths(Elements(group) + {extra});
        r := WriteGroup(group, n.value, found.value);
        if r.Ok? {
          Log(Link(existing, extra));
        }
    }

    // ---- key-value operations ----

    method KvSetValue(namespace: Str, key: Str, value: Str) returns (r: Result<Unit>)
      requires Valid()
      modifies this`kv, this`staged, this`stagedBytes, this`mutations
      ensures Valid()
      ensures Outcome(State(), r) == KvPut(old(State()), namespace, key, value)
    {
      hide IdOf, DirDigest, ChunkDigest, Stored, Stage, RowsOk, DirRows, Coherent, Lists;
      if !isOpen {
        return Err(WorkspaceClosed);
      }
      var digest := ChunkDigest(value);
      r := StageChunks([StagedChunk(digest, value)]);
      if r.Ok? {
        kv := kv[(namespace, key) := digest];
        mutations := mutations + [KvSet(namespace, key, digest, |value|)];
      }
    }

    method KvDeleteKey(namespace: Str, key: Str) returns (r: Result<Unit>)
      requires Valid()
      modifies this`kv, this`mutations
      ensures Valid()
      ensures Outcome(State(), r) == KvDrop(old(State()), namespace, key)
    {
      hide IdOf, DirDigest, Stored, RowsOk, DirRows, Coherent, Lists;
      if !isOpen {
        return Err(WorkspaceClosed);
      }
      if (namespace, key) !in kv {
        return Err(NotFound);
      }
      kv := kv - {(namespace, key)};
      mutations := mutations + [KvDelete(namespace, key)];
      r := Ok(());
    }

    // ---- reading content ----

    /** The chunks a read can see: held ones first, then the store's. */
    ghost function Visible(): ChunkMap
      reads this, store
    {
      ChunkBodies(store.db.chunks) + staged
    }

    /** Fetch, verify and append each extent's chunk. */
    method ReadExtents(extents: seq<Extent>) returns (r: Result<Str>)
      ensures r == Gather(extents, Visible())
    {
      hide ChunkDigest;
      var out: Str := [];
      assert extents[0..] == extents && forall x: Str :: [] + x == x;
      for i := 0 to |extents|
        invariant Gather(extents, Visible()) == Appended(out, Gather(extents[i..], Visible()))
      {
        var ext := extents[i];
        assert extents[i..][0] == ext && extents[i..][1..] == extents[i + 1..];
        var bytes;
        if ext.chunk in staged {
          bytes := staged[ext.chunk];
        } else {
          var fetched := store.FetchChunk(ext.chunk);
          if fetched.Err? {
            return Err(fetched.error);
          }
          bytes := fetched.value;
        }
        if ChunkDigest(bytes) != ext.chunk {
          return Err(Corruption);
        }
        if Gather(extents[i + 1..], Visible()).Ok? {
          Assoc(out, bytes, Gather(extents[i + 1..], Visible()).value);
        }
        out := out + bytes;
      }
      assert extents[|extents|..] == [];
      assert out + [] == out;
      r := Ok(out);
    }

    /** `read_file`: a symlink reads as its target. */
    method ReadFile(p: Path) returns (r: Result<Str>)
      requires Valid()
      modifies this`cache, store.resident
      ensures Valid() && State() == old(State()) && Visible() == old(Visible())
      ensures r == if isOpen then ReadContent(tree, p, Visible()) else Err(WorkspaceClosed)
    {
      hide IdOf, ToEntry, DirDigest, Loaded, Stored, RowsOk, DirRows, Coherent, Lists, NodeAt, Gather;
      if !isOpen {
        return Err(WorkspaceClosed);
      }
      var found, n := Inspect(p);
      if found.None? {
        return Err(NotFound);
      }
      match found.value
      case File(_, _, extents, _) => r := ReadExtents(extents);
      case Dir(_, _) => return Err(IsADirectory);
      case Sym(_, target) => return Ok(target);
    }

    // ---- lifecycle ----

    /** The plan that `publish` submits. */
    function PlanNow(request: Option<Str>, message: Option<Str>, metadataBytes: nat): Plan
      reads this, store
    {
      Plan(branch, RequestFor(store.db.repository, branch, request, base.root, mutations), base.head, base.root,
           namespaceRoot, newNodes, kv, mutations, message, metadataBytes)
    }

    /** Send every held chunk to the store, one call each, before and outside the publication. */
    method SendChunks(now: nat)
      requires Valid() && ChunksCoherent(staged)
      modifies store`db
      ensures Valid() && store.db == WithStaged(old(store.db), staged, now)
    {
      hide IdOf, DirDigest, Stored, Coherent, ChunksCoherent, RowsOk, ChunkDigest;
      var todo := staged.Keys;
      ghost var before := store.db;
      ghost var sent: ChunkMap := map[];
      NothingSent(before, now);
      while todo != {}
        invariant todo <= staged.Keys && sent == staged - todo
        invariant store.Valid() && store.db == WithStaged(before, sent, now)
        invariant Stored(Available(), tree)
      {
        var d :| d in todo;
        SentMore(before, sent, d, staged[d], now);
        StagedDigest(staged, d);
        store.StageChunk(d, staged[d], now);
        todo := todo - {d};
        sent := sent[d := staged[d]];
        assert sent == staged - todo;
      }
      assert staged - {} == staged;
    }

    /** `publish`: on success the workspace is finished; on failure it stays open and unchanged. */
    method Publish(request: Option<Str>, message: Option<Str>, metadataBytes: nat, now: nat)
      returns (r: Result<Receipt>)
      requires Valid() && ChunksCoherent(staged)
      modifies this, store`db
      ensures Valid()
      ensures !old(isOpen) ==> r == Err(WorkspaceClosed) && State() == old(State()) && store.db == old(store.db)
      ensures old(isOpen) ==>
                Published(WithStaged(old(store.db), old(staged), now), old(PlanNow(request, message, metadataBytes)),
                          now, store.db, r)
      ensures r.Ok? ==> State() == old(State()).(newNodes := map[], staged := map[], stagedBytes := 0, isOpen := false)
      ensures r.Err? ==> State() == old(State())
    {
      hide IdOf, DirDigest, Stored, Coherent, ChunksCoherent, RowsOk, CommandHash, Published, WithStaged, DirRows;
      hide RequestFor, Lists;
      if !isOpen {
        return Err(WorkspaceClosed);
      }
      var plan := PlanNow(request, message, metadataBytes);
      SendChunks(now);
      ghost var sent := store.db;
      ghost var before := Available();
      r := store.Publish(plan, now);
      PublishedRows(sent, plan, now, store.db, r);
      DirRowsGrow(sent, store.db);
      StoredGrows(before, Available(), tree);
      if r.Ok? {
        Finish();
      }
    }

    /** Give up what is held: the workspace is closed. */
    method Finish()
      requires Valid()
      modifies this`isOpen, this`staged, this`stagedBytes, this`newNodes
      ensures Valid()
      ensures State() == old(State()).(newNodes := map[], staged := map[], stagedBytes := 0, isOpen := false)
    {
      hide IdOf, DirDigest, Stored, Coherent, RowsOk, DirRows, Lists;
      NoNodesCoherent();
      isOpen := false;
      staged := map[];
      stagedBytes := 0;
      newNodes := map[];
    }

    /** `abort`: discard everything; nothing was ever visible. */
    method Abort() returns (r: Result<Unit>)
      requires Valid()
      modifies this
      ensures Valid() && store.db == old(store.db)
      ensures !old(isOpen) ==> r == Err(WorkspaceClosed) && State() == old(State())
      ensures old(isOpen) ==> r == Ok(())
      ensures old(isOpen) ==>
                State() == old(State()).(newNodes := map[], staged := map[], stagedBytes := 0, mutations := [],
                                         isOpen := false)
    {
      hide IdOf, DirDigest, Stored, Coherent, RowsOk;
      if !isOpen {
        return Err(WorkspaceClosed);
      }
      Finish();
      mutations := [];
      r := Ok(());
    }
  }

  lemma CoherentAdds(nodes: NodeMap, id: NodeId, node: DirNode)
    requires Coherent(nodes) && DirDigest(node) == id
    ensures Coherent(nodes[id := node])
  {
    hide DirDigest;
  }

  lemma NoNodesCoherent()
    ensures Coherent(map[])
  {
  }

  /** Bytes gathered before the rest of a read. */
  function Appended(out: Str, rest: Result<Str>): Result<Str> {
    match rest
    case Ok(bytes) => Ok(out + bytes)
    case Err(e) => Err(e)
  }

  lemma RenameVerdict(ws: WsState, from: Path, to: Path)
    ensures Renamed(ws, from, to).result.Ok? == MayRename(ws, from, to)
  {
    hide Renamed, MayRename, RenameError;
    RenameSucceeds(ws, from, to);
  }

  lemma CopyVerdict(ws: WsState, from: Path, to: Path)
    ensures Copied(ws, from, to).result.Ok? == MayCopy(ws, from, to)
  {
    hide Copied, MayCopy;
    CopySucceeds(ws, from, to);
  }

  /** Held chunks as rows. */
  function StagedRows(staged: ChunkMap, now: nat): map<ChunkId, ChunkRow> {
    map d | d in staged :: ChunkRow(staged[d], now)
  }

  /** The chunk table once every held chunk was sent. */
  function WithStaged(db: Db, staged: ChunkMap, now: nat): Db {
    db.(chunks := db.chunks + StagedRows(staged, now))
  }

  lemma NothingSent(db: Db, now: nat)
    ensures WithStaged(db, map[], now) == db
  {
    assert db.chunks + map[] == db.chunks;
  }

  lemma SentMore(db: Db, sent: ChunkMap, d: ChunkId, bytes: Str, now: nat)
    ensures var mid := WithStaged(db, sent, now);
            mid.(chunks := mid.chunks[d := ChunkRow(bytes, now)]) == WithStaged(db, sent[d := bytes], now)
  {
    StagedRowsMore(sent, d, bytes, now);
    hide StagedRows;
    PlusUpdate(db.chunks, StagedRows(sent, now), d, ChunkRow(bytes, now));
  }

  lemma StagedRowsMore(sent: ChunkMap, d: ChunkId, bytes: Str, now: nat)
    ensures StagedRows(sent[d := bytes], now) == StagedRows(sent, now)[d := ChunkRow(bytes, now)]
  {
  }

  lemma PlusUpdate<K, V>(a: map<K, V>, b: map<K, V>, k: K, v: V)
    ensures (a + b)[k := v] == a + b[k := v]
  {
  }

  lemma StagedDigest(staged: ChunkMap, d: ChunkId)
    requires ChunksCoherent(staged) && d in staged
    ensures ChunkDigest(staged[d]) == d
  {
  }

  /** A publication keeps every row under its own digest and removes none. */
  lemma PublishedRows(db: Db, plan: Plan, now: nat, db': Db, r: Result<Receipt>)
    requires RowsOk(db) && Coherent(plan.newNodes) && Published(db, plan, now, db', r)
    ensures RowsOk(db') && db.nodes.Keys <= db'.nodes.Keys && db'.chunks == db.chunks
  {
    hide DirDigest, KvDigest, CommitDigest, CommandHash, RootDigest, RowsOk, Coherent, WriteState, Required;
    RowsAfterWrite(db, plan.newNodes, plan.kv, plan.namespaceRoot, PlanRoot(plan), now);
    KeysAfterWrite(db, plan.newNodes, plan.kv, plan.namespaceRoot, PlanRoot(plan), now);
    var written := WriteState(db, plan.newNodes, plan.kv, plan.namespaceRoot, PlanRoot(plan), now);
    forall after: Db | after.nodes == written.nodes && after.chunks == written.chunks
      ensures RowsOk(after)
    {
      RowsOnly(written, after);
    }
  }

  lemma RowsOnly(a: Db, b: Db)
    requires RowsOk(a) && b.nodes == a.nodes && b.chunks == a.chunks
    ensures RowsOk(b)
  {
  }

  /** An entry against the node it stands for. */
  ghost predicate Describes(e: Entry, n: Node) {
    && e == ToEntry(n)
    && match n
       case DirN(meta, sub) => e == Dir(meta, IdOf(sub))
       case FileN(meta, size, extents, links) => e == File(meta, size, extents, links)
       case SymN(meta, target) => e == Sym(meta, target)
  }

  lemma DescribesKind(e: Entry, n: Node)
    requires Describes(e, n)
    ensures (e.Dir? <==> n.DirN?) && (e.File? <==> n.FileN?) && e.meta == n.meta
  {
  }

  /** Changing the metadata of an entry changes the metadata of its node. */
  lemma DescribesMeta(e: Entry, n: Node, meta: Meta)
    requires Describes(e, n)
    ensures Describes(e.(meta := meta), WithMeta(n, meta))
  {
  }

  lemma ToEntryKind(n: Node)
    ensures Describes(ToEntry(n), n)
  {
  }

  /** The entry found at a path is the entry of the node there. */
  lemma EntryAtIsNodeAt(t: Tree, p: Path)
    ensures EntryAt(t, p).Some? <==> NodeAt(t, p).Some?
    ensures NodeAt(t, p).Some? ==> EntryAt(t, p).value == ToEntry(NodeAt(t, p).value)
  {
    ToEntryKind(DirN(DIR_META, t));
  }

  lemma {:induction false} StoredGet(nodes: NodeMap, t: Tree, p: Path)
    requires Stored(nodes, t) && NodeAt(t, p).Some? && NodeAt(t, p).value.DirN?
    ensures Stored(nodes, NodeAt(t, p).value.sub)
    decreases p
  {
    hide IdOf;
    if |p| > 1 {
      StoredGet(nodes, t.kids[p[0]].sub, p[1..]);
    }
  }

  lemma RootIsDir(t: Tree)
    ensures NodeAt(t, []) == Some(DirN(DIR_META, t))
  {
  }

  /** A moved directory's subtree is represented, and its source does not lie under an acceptable target. */
  lemma MoveIsSound(nodes: NodeMap, t: Tree, from: Path, to: Path)
    requires from != [] && to != [] && !(from <= to) && Stored(nodes, t)
    requires NodeAt(t, from).Some? && NodeAt(t, from).value.DirN?
    requires RenameRefused(NodeAt(t, from).value, NodeAt(t, to)).None?
    ensures Stored(nodes, NodeAt(t, from).value.sub) && !(to <= from)
  {
    StoredGet(nodes, t, from);
    if to <= from {
      assert from == to + from[|to|..];
      assert from[|to|..] != [];
      GetConcat(t, to, from[|to|..]);
    }
  }

  lemma NodeOfEmpty(t: Tree)
    ensures NodeOf(t) == map[] <==> t.kids == map[]
  {
    assert NodeOf(t).Keys == t.kids.Keys;
  }

  lemma StoredHas(nodes: NodeMap, t: Tree)
    requires Stored(nodes, t)
    ensures Has(nodes, t)
  {
  }
}
