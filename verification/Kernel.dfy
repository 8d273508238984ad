/** The kernel over a store: opening workspaces, forking, comparing commits and reverting. */
module Kernel {
  import opened Base
  import opened Paths
  import opened Canonical
  import opened State
  import opened Trees
  import opened Nodes
  import opened Chunks
  import opened Database
  import opened Resident
  import opened Store
  import opened WorkspaceSpec
  import opened Workspace
  import opened Replay
  import opened Footprint
  import opened Diff
  import opened Reverts
  import opened Protocol
  import opened ProtocolInvariant
  import opened ProtocolSteps
  import opened ProtocolTheorems
  import opened OpenWorkspaces
  import opened Gc

  /** The tree is that of a state with this root. */
  ghost predicate IsTreeOf(root: RootId, t: Tree) {
    exists kv :: StateRoot(Logical(t, kv)) == root
  }

  /** What a revert does: from the state `l` of the target and the tree `s` of the branch's head. */
  ghost predicate Reverted(db: Db, branch: Str, target: CommitId, message: Str, metadataBytes: nat, now: nat, db': Db,
                           r: Result<Receipt>, l: Logical, s: Tree) {
    if branch !in db.branches || target !in db.commits then r == Err(NotFound) && db' == db
    else
      && db.branches[branch] in db.commits
      && StateRoot(l) == db.commits[target].root && IsTreeOf(db.commits[db.branches[branch]].root, s)
      && var log := RevertLog(Changes(s, l.tree, []));
         if log == [] then r == Err(NotFound) && db' == db
         else Published(db, RevertPlan(db, branch, target, l, log, message).(metadataBytes := metadataBytes), now,
                        db', r)
  }

  // ---- the kernel ----

  class Kernel {
    const store: Store
    const branch: Str

    /** The store's rows sit under their own digests, no root dangles, and commits and receipts are in order. */
    ghost predicate Valid()
      reads this, store, store.resident
    {
      store.Valid() && RootsOk(store.db) && CommitsOk(store.db)
    }

    constructor (store: Store, branch: Str)
      requires store.Valid() && RootsOk(store.db) && CommitsOk(store.db)
      ensures Valid() && this.store == store && this.branch == branch
    {
      this.store, this.branch := store, branch;
    }

    method Head() returns (r: Result<HeadInfo>)
      requires Valid()
      ensures r.Ok? <==> branch in store.db.branches
      ensures r.Ok? ==>
                && r.value.head == store.db.branches[branch] && r.value.head in store.db.commits
                && r.value.root == store.db.commits[r.value.head].root && r.value.root in store.db.roots
    {
      hide RowsOk, RootsOk, SequencesOk, RowDigest;
      r := store.Head(branch);
      if r.Ok? {
        assert CommitOk(store.db, r.value.head);
      }
    }

    /** Load the state behind a root that is stored. */
    method StateOf(root: RootId) returns (ns: NodeId, kv: KvMap, ghost l: Logical)
      requires Valid() && root in store.db.roots
      ensures StateRoot(l) == root && ns == IdOf(l.tree) && kv == l.kv
      ensures Stored(DirRows(store.db.nodes), l.tree)
    {
      hide RowsOk, CommitsOk, RootsOk, IdOf, KvDigest, Stored;
      l := RootState(store.db, root);
      RootReads(store.db, l);
      assert root == RootDigest(IdOf(l.tree), KvDigest(l.kv))
          && store.db.roots[root] == RootRow(IdOf(l.tree), KvDigest(l.kv));
      var loaded := store.LoadRoot(root);
      ns, kv := loaded.value.0, loaded.value.1;
    }

    /** `workspace`: a private view over the branch's head, available for every branch that exists. */
    method OpenWorkspace() returns (r: Result<Workspace>, ghost l: Logical)
      requires Valid()
      ensures r.Ok? <==> branch in store.db.branches
      ensures r.Ok? ==>
                && fresh(r.value) && r.value.Valid() && r.value.store == store && r.value.branch == branch
                && r.value.base.head == store.db.branches[branch] && r.value.base.head in store.db.commits
                && r.value.base.root == store.db.commits[r.value.base.head].root == StateRoot(l)
                && r.value.State() == Open(l.tree, l.kv, DEFAULT_STAGED_LIMIT)
                && Anchored(r.value)
    {
      hide RowsOk, CommitsOk, RootsOk, IdOf, KvDigest, Stored, StateRoot, Open, RestsOn, StagingOk;
      var head := Head();
      if head.Err? {
        l := Logical(EMPTY, map[]);
        return Err(head.error), l;
      }
      var ns, kv, state := StateOf(head.value.root);
      l := state;
      var w := new Workspace(store, branch, head.value, ns, kv, state.tree);
      FreshSession(state, DEFAULT_STAGED_LIMIT);
      r := Ok(w);
    }

    /** `fork`. Every open workspace stays usable. */
    method Fork(name: Str, at: CommitId, ghost others: set<Workspace>) returns (r: Result<Kernel>)
      requires Valid() && AllAnchored(others, store)
      modifies store`db
      ensures AllAnchored(others, store) && forall w <- others :: w.Valid()
      ensures store.db == Forked(old(store.db), name, at).0
      ensures r.Ok? <==> Forked(old(store.db), name, at).1.Ok?
      ensures r.Ok? <==> at in old(store.db).commits && name !in old(store.db).branches
      ensures r.Ok? ==> store.db == old(store.db).(branches := old(store.db).branches[name := at])
      ensures r.Err? ==> store.db == old(store.db)
      ensures Valid()
      ensures r.Ok? ==> fresh(r.value) && r.value.Valid() && r.value.store == store && r.value.branch == name
    {
      hide RowsOk, CommitsOk, RootsOk, AllGrounded, BasesStored, StateRoot, Stored;
      var made := store.BranchCreate(name, at);
      assert store.Valid() && RootsOk(store.db) && CommitsOk(store.db) by {
        ForkedOk(old(store.db), name, at);
      }
      StillAnchored(others, store, old(store.db));
      if made.Err? {
        return Err(made.error);
      }
      var k := new Kernel(store, name);
      r := Ok(k);
    }

    /** `load_node` into a cache that belongs to one operation. */
    method LoadNode(ghost t: Tree, id: NodeId, cache: NodeMap) returns (node: DirNode, cache': NodeMap)
      requires Valid() && id == IdOf(t) && Coherent(cache) && Has(DirRows(store.db.nodes), t)
      modifies store.resident
      ensures Valid() && Coherent(cache') && cache.Keys <= cache'.Keys
      ensures node == NodeOf(t) && Has(cache', t)
    {
      hide IdOf, NodeOf, DirDigest, RowsOk, CommitsOk, RootsOk, Resolve, BodyDigest, Lists;
      ResolveTree(cache, t);
      EmptyIdOnlyEmpty(t);
      EmptyTreeId();
      cache' := cache;
      if id in cache {
        node := cache[id];
        return;
      }
      if id == EMPTY_ID {
        node := map[];
        return;
      }
      DirRowsCoherent(store.db);
      ResolveTree(DirRows(store.db.nodes), t);
      var fetched := store.DirNode(id);
      node := fetched.value;
      cache' := cache[id := node];
    }

    /** `load_all_into`: afterwards the whole tree can be resolved from the cache alone. */
    method LoadAllInto(ghost t: Tree, id: NodeId, cache: NodeMap) returns (cache': NodeMap)
      requires Valid() && id == IdOf(t) && Coherent(cache) && Stored(DirRows(store.db.nodes), t)
      modifies store.resident
      ensures Valid() && Coherent(cache') && cache.Keys <= cache'.Keys && Stored(cache', t)
      decreases t
    {
      hide IdOf, NodeOf, DirDigest, RowsOk, CommitsOk, RootsOk, Lists, Has, Coherent, KidsStored, DirRows;
      var node;
      node, cache' := LoadNode(t, id, cache);
      var names := Names(node);
      ghost var first := cache';
      KidsStart(cache', t, names);
      for i := 0 to |names|
        invariant Valid() && Coherent(cache') && first.Keys <= cache'.Keys
        invariant KidsStored(cache', t, names[..i])
      {
        var n := names[i];
        NodeOfAt(t, n);
        WalkNameIs(t, n, []);
        ghost var before := cache';
        match node[n] {
          case Dir(_, child) =>
            cache' := LoadAllInto(t.kids[n].sub, child, cache');
          case File(_, _, _, _) =>
          case Sym(_, _) =>
        }
        KidsNext(before, cache', t, names, i);
      }
      HasGrows(first, cache', t);
      KidsEnd(cache', t, names);
    }

    /** `diff_roots`. */
    method DiffRootsOf(before: RootId, after: RootId) returns (changes: seq<Change>, ghost s: Tree, ghost t: Tree)
      requires Valid() && before in store.db.roots && after in store.db.roots
      modifies store.resident
      ensures Valid() && changes == Changes(s, t, [])
      ensures IsTreeOf(before, s) && IsTreeOf(after, t)
    {
      hide RowsOk, CommitsOk, RootsOk, IdOf, KvDigest, Stored, Changes, DirDigest, StateRoot, Coherent, Lists;
      var ns, _, l := StateOf(before);
      var ms, _, m := StateOf(after);
      s, t := l.tree, m.tree;
      assert StateRoot(Logical(s, l.kv)) == before && StateRoot(Logical(t, m.kv)) == after;
      assert Coherent(map[]) by {
        NoNodesCoherent();
      }
      var cache := LoadAllInto(s, ns, map[]);
      var both := LoadAllInto(t, ms, cache);
      StoredGrows(cache, both, s);
      var r := DiffRoots(both, s, t, ns, ms);
      changes := r.value;
    }

    /** The first half of `revert_to`: the target's state, and the log that describes the way from the head to it. */
    method DescribeRevert(head: RootId, target: RootId)
      returns (ns: NodeId, kv: KvMap, log: seq<Mutation>, ghost l: Logical, ghost s: Tree)
      requires Valid() && head in store.db.roots && target in store.db.roots
      modifies store.resident
      ensures Valid() && StateRoot(l) == target && ns == IdOf(l.tree) && kv == l.kv
      ensures IsTreeOf(head, s) && log == RevertLog(Changes(s, l.tree, []))
    {
      hide RowsOk, CommitsOk, RootsOk, IdOf, Stored, Changes, StateRoot, RevertLog;
      var node, map', state := StateOf(target);
      var changes, before, after := DiffRootsOf(head, target);
      SameTree(after, state);
      ns, kv, l, s := node, map', state, before;
      log := RevertLog(changes);
    }

    /** Publish a plan whose state is stored already. */
    method Submit(plan: Plan, now: nat, ghost l: Logical, ghost others: set<Workspace>) returns (r: Result<Receipt>)
      requires Valid() && AllAnchored(others, store) && PlanStores(store.db, plan, l)
      modifies store`db
      ensures Valid() && AllAnchored(others, store) && forall w <- others :: w.Valid()
      ensures Published(old(store.db), plan, now, store.db, r)
    {
      hide RowsOk, RootsOk, CommitsOk, AllGrounded, BasesStored, Refusal, PlanStores, Published, StateRoot;
      ghost var tables := store.db;
      r := store.Publish(plan, now);
      PublishedTables(tables, plan, l, now, store.db, r);
      StillAnchored(others, store, tables);
    }

    /**
     * `revert_to`: publish the target's own state as a new commit on the branch, with a log describing the
     * difference; refused when that log is empty.
     */
    method RevertTo(target: CommitId, message: Str, metadataBytes: nat, now: nat, ghost others: set<Workspace>)
      returns (r: Result<Receipt>, ghost l: Logical, ghost s: Tree)
      requires Valid() && AllAnchored(others, store)
      modifies store`db, store.resident
      ensures Valid() && AllAnchored(others, store) && forall w <- others :: w.Valid()
      ensures Reverted(old(store.db), branch, target, message, metadataBytes, now, store.db, r, l, s)
      ensures IsApplied(r) ==> Records(store.db, r.value.commit, Some(message), RevertLog(Changes(s, l.tree, [])))
    {
      hide RowsOk, RootsOk, IdOf, Changes, StateRoot, Published, SequencesOk, RowDigest, RevertLog, IsTreeOf;
      hide AllGrounded, BasesStored, PlanStores;
      l, s := Logical(EMPTY, map[]), EMPTY;
      var head := Head();
      StillAnchored(others, store, store.db);
      if head.Err? || target !in store.db.commits {
        return Err(NotFound), l, s;
      }
      assert CommitOk(store.db, target);
      var ns, kv, log, state, before := DescribeRevert(head.value.root, store.db.commits[target].root);
      l, s := state, before;
      StillAnchored(others, store, store.db);
      if log == [] {
        return Err(NotFound), l, s;
      }
      var request := RevertRequest(head.value.head, target);
      var plan := Plan(branch, request, head.value.head, head.value.root, ns, map[], kv, log, Some(message),
          metadataBytes);
      RevertPlanStored(store.db, plan, l);
      ghost var tables := store.db;
      r := Submit(plan, now, l, others);
      if IsApplied(r) {
        AppliedRecords(tables, plan, now, store.db, r);
      }
    }

    /**
     * Publish an open workspace. It is applied exactly when it is within budget, its request is not spent and its
     * branch still has the head it was opened on. Once applied, the branch's head has its root; a failure leaves
     * it open and usable; and every other open workspace stays usable either way.
     */
    method Publish(w: Workspace, request: Option<Str>, message: Option<Str>, metadataBytes: nat, now: nat,
                   ghost others: set<Workspace>)
      returns (r: Result<Receipt>)
      requires Valid() && w.store == store && Anchored(w) && w.isOpen && AllAnchored(others, store) && w !in others
      modifies w, store`db
      ensures Valid() && AllAnchored(others, store) && forall x <- others :: x.Valid()
      ensures Published(WithStaged(old(store.db), old(w.staged), now),
                        old(w.PlanNow(request, message, metadataBytes)), now, store.db, r)
      ensures IsApplied(r) <==> old(Publishable(store.db, w.PlanNow(request, message, metadataBytes)))
      ensures r.Err? ==> r.error == old(Failure(store.db, w.PlanNow(request, message, metadataBytes)))
      ensures r.Ok? ==> ReceiptTrue(store.db, old(w.PlanNow(request, message, metadataBytes)), r.value)
      ensures !IsApplied(r) ==> store.db == old(WithStaged(store.db, w.staged, now))
      ensures r.Err? ==> Anchored(w) && w.Valid() && w.State() == old(w.State())
      ensures IsApplied(r) ==>
                && w.branch in store.db.branches && store.db.branches[w.branch] == r.value.commit
                && r.value.commit in store.db.commits && r.value.root == store.db.commits[r.value.commit].root
                && r.value.root == StateRoot(old(LogicalOf(w.State())))
                && Records(store.db, r.value.commit, message, old(w.mutations))
                && Stamped(old(store.db), store.db, now)
    {
      hide RowsOk, CommitsOk, RootsOk, RestsOn, StateRoot, Stored, IdOf, Published, WithStaged, Weight, Refusal,
          Coherent;
      hide ChunksCoherent, RequestFor, AllGrounded, BasesStored, WithinBudget, ReceiptTrue, Records, Stamped;
      AnchoredValid(w);
      ghost var before, base, l := store.db, Logical(w.baseTree, w.baseKv), LogicalOf(w.State());
      ghost var sent := WithStaged(before, w.staged, now);
      ghost var plan := w.PlanNow(request, message, metadataBytes);
      StagedTables(before, w.staged, now);
      StagedOnlyChunks(before, w.staged, now);
      WorkStores(sent, base, w.State(), plan);
      HeldAreSent(before, w.staged, now);
      ghost var ws := w.State();
      r := w.Publish(request, message, metadataBytes, now);
      AppliedExactly(sent, base, ws, plan, now, store.db, r);
      PublishedTables(sent, plan, l, now, store.db, r);
      StillAnchored(others, store, old(store.db));
      if r.Ok? {
        ReceiptTells(sent, plan, now, store.db, r);
      }
      if IsApplied(r) {
        AppliedHeadRoot(sent, plan, l, now, store.db, r);
        AppliedRecords(sent, plan, now, store.db, r);
        RowsStamped(before, sent, plan, now, store.db, r);
      }
    }

    /**
     * Collect what no root reaches and is at least as old as the grace period: exactly those rows go. What every
     * root needs stays, and so does every open workspace's ground.
     */
    method Collect(grace: nat, now: nat, ghost others: set<Workspace>)
      returns (report: GcReport, ghost marks: set<NodeId>, ghost used: set<ChunkId>)
      requires Valid() && AllAnchored(others, store)
      modifies store`db
      ensures Valid() && AllAnchored(others, store) && forall w <- others :: w.Valid()
      ensures IsMarking(old(store.db).nodes, old(store.db).roots, marks, used)
      ensures store.db == old(store.db).(nodes := SweptNodes(old(store.db).nodes, marks, now, grace),
                                         chunks := SweptChunks(old(store.db).chunks, used, now, grace))
      ensures Kept(old(store.db), store.db, marks, used, now, grace)
      ensures report.nodesRemoved == |old(store.db).nodes| - |store.db.nodes|
      ensures report.chunksRemoved == |old(store.db).chunks| - |store.db.chunks|
      ensures AllYoung(old(store.db), now, grace) ==> store.db == old(store.db)
    {
      hide RowsOk, RootsOk, CommitsOk, RootsTyped, IsMarking, AllGrounded, BasesStored, Stored, AllYoung, Kept;
      ghost var before := store.db;
      CollectionIsReady(before);
      report, marks, used := store.Gc(grace, now);
      KeptExactly(before, marks, used, now, grace);
      SweptTables(before, marks, used, now, grace);
      StillAnchored(others, store, old(store.db));
    }
  }

  /** A row stays, as it was, exactly when it is marked or younger than the grace period. */
  ghost predicate Kept(db: Db, db': Db, marks: set<NodeId>, used: set<ChunkId>, now: nat, grace: nat) {
    && (forall id :: id in db'.nodes <==> id in db.nodes && (id in marks || now - db.nodes[id].createdAt < grace))
    && (forall d :: d in db'.chunks <==> d in db.chunks && (d in used || now - db.chunks[d].createdAt < grace))
    && (forall id | id in db'.nodes :: db'.nodes[id] == db.nodes[id])
    && (forall d | d in db'.chunks :: db'.chunks[d] == db.chunks[d])
  }

  lemma KeptExactly(db: Db, marks: set<NodeId>, used: set<ChunkId>, now: nat, grace: nat)
    ensures Kept(db, db.(nodes := SweptNodes(db.nodes, marks, now, grace),
                         chunks := SweptChunks(db.chunks, used, now, grace)), marks, used, now, grace)
  {
  }

  /** Every row is younger than the grace period. */
  ghost predicate AllYoung(db: Db, now: nat, grace: nat) {
    && (forall id | id in db.nodes :: now - db.nodes[id].createdAt < grace)
    && (forall d | d in db.chunks :: now - db.chunks[d].createdAt < grace)
  }

  lemma RevertPlanStored(db: Db, plan: Plan, l: Logical)
    requires RootsOk(db) && StateRoot(l) in db.roots
    requires plan.newNodes == map[] && plan.namespaceRoot == IdOf(l.tree) && plan.kv == l.kv
    ensures PlanStores(db, plan, l)
  {
    hide StateRoot, IdOf, KvDigest, IdsOf, ChunksOf;
    assert IsRoot(db, l) && Holds(db, l);
    NoNodesCoherent();
  }

  /** A whole sweep keeps the tables sound, and takes nothing while everything is younger than the grace period. */
  lemma SweptTables(db: Db, marks: set<NodeId>, used: set<ChunkId>, now: nat, grace: nat)
    requires RowsOk(db) && RootsOk(db) && CommitsOk(db) && IsMarking(db.nodes, db.roots, marks, used)
    ensures var after := db.(nodes := SweptNodes(db.nodes, marks, now, grace),
                             chunks := SweptChunks(db.chunks, used, now, grace));
            && RowsOk(after) && RootsOk(after) && CommitsOk(after)
            && (AllYoung(db, now, grace) ==> after == db)
  {
    hide RowsOk, CommitsOk, IsMarking, StateRoot, IdOf, KvDigest, NeedNodes, NeedChunks;
    var after := db.(nodes := SweptNodes(db.nodes, marks, now, grace),
                     chunks := SweptChunks(db.chunks, used, now, grace));
    RowsLess(db, after);
    CommitTablesOnly(db, after);
    forall l | IsRoot(after, l)
      ensures Holds(after, l)
    {
      assert IsRoot(db, l) && Holds(db, l);
      MarkingCovers(db, marks, used, l);
    }
    assert AllYoung(db, now, grace) ==> after.nodes == db.nodes && after.chunks == db.chunks;
  }

  /** Sending a workspace's chunks keeps the tables sound. */
  lemma StagedTables(db: Db, staged: ChunkMap, now: nat)
    requires RowsOk(db) && RootsOk(db) && CommitsOk(db) && ChunksCoherent(staged)
    ensures var sent := WithStaged(db, staged, now);
            RowsOk(sent) && RootsOk(sent) && CommitsOk(sent)
  {
    hide RootsOk, CommitsOk, DirDigest, KvDigest, ChunkDigest;
    var sent := WithStaged(db, staged, now);
    CommitTablesOnly(db, sent);
    RootsGrow(db, sent);
    forall d | d in ChunkBodies(sent.chunks)
      ensures ChunkDigest(ChunkBodies(sent.chunks)[d]) == d
    {
      if d !in staged {
        assert d in ChunkBodies(db.chunks);
      }
    }
  }

  lemma StagedOnlyChunks(db: Db, staged: ChunkMap, now: nat)
    ensures WithStaged(db, staged, now) == db.(chunks := WithStaged(db, staged, now).chunks)
  {
  }

  lemma HeldAreSent(db: Db, staged: ChunkMap, now: nat)
    ensures staged.Keys <= WithStaged(db, staged, now).chunks.Keys
  {
  }

  lemma AppliedHeadRoot(db: Db, plan: Plan, l: Logical, now: nat, db': Db, r: Result<Receipt>)
    requires Published(db, plan, now, db', r) && IsApplied(r)
    requires plan.namespaceRoot == IdOf(l.tree) && plan.kv == l.kv
    ensures plan.branch in db'.branches && db'.branches[plan.branch] == r.value.commit && r.value.commit in db'.commits
    ensures r.value.root == db'.commits[r.value.commit].root == StateRoot(l)
  {
    hide IdOf, StateRoot, PlanRoot, PlanHash, WriteState, CommitDigest, Refusal;
    var highest := PublishedApplied(db, plan, now, db', r);
    PlanRootIs(plan, l);
  }

  /** The subdirectories under these names can be resolved. */
  ghost predicate KidsStored(nodes: NodeMap, t: Tree, names: seq<Name>) {
    forall k | k in names && k in t.kids && t.kids[k].DirN? :: Stored(nodes, t.kids[k].sub)
  }

  lemma KidsStart(nodes: NodeMap, t: Tree, names: seq<Name>)
    ensures KidsStored(nodes, t, names[..0])
  {
  }

  lemma KidsNext(before: NodeMap, after: NodeMap, t: Tree, names: seq<Name>, i: nat)
    requires i < |names| && KidsStored(before, t, names[..i]) && before.Keys <= after.Keys
    requires names[i] in t.kids && t.kids[names[i]].DirN? ==> Stored(after, t.kids[names[i]].sub)
    ensures KidsStored(after, t, names[..i + 1])
  {
    forall k | k in names[..i + 1] && k in t.kids && t.kids[k].DirN?
      ensures Stored(after, t.kids[k].sub)
    {
      if k != names[i] {
        assert k in names[..i];
        StoredGrows(before, after, t.kids[k].sub);
      }
    }
  }

  lemma KidsEnd(nodes: NodeMap, t: Tree, names: seq<Name>)
    requires KidsStored(nodes, t, names[..|names|]) && Has(nodes, t) && forall n :: n in names <==> n in NodeOf(t)
    ensures Stored(nodes, t)
  {
    hide IdOf;
    assert names[..|names|] == names;
    assert NodeOf(t).Keys == t.kids.Keys;
  }

  lemma SameTree(t: Tree, l: Logical)
    requires IsTreeOf(StateRoot(l), t)
    ensures t == l.tree
  {
    hide StateRoot;
    var kv :| StateRoot(Logical(t, kv)) == StateRoot(l);
    StateRootInjective(Logical(t, kv), l);
  }

  lemma HasGrows(a: NodeMap, b: NodeMap, t: Tree)
    requires Has(a, t) && a.Keys <= b.Keys
    ensures Has(b, t)
  {
    hide IdOf;
  }

  lemma DirRowsCoherent(db: Db)
    requires RowsOk(db)
    ensures Coherent(DirRows(db.nodes))
  {
    hide DirDigest;
    forall id | id in DirRows(db.nodes)
      ensures DirDigest(DirRows(db.nodes)[id]) == id
    {
      assert BodyDigest(db.nodes[id].body) == id;
    }
  }

  lemma ForkedOk(db: Db, name: Str, at: CommitId)
    requires RowsOk(db) && RootsOk(db) && CommitsOk(db)
    ensures var after := Forked(db, name, at).0;
            RowsOk(after) && RootsOk(after) && CommitsOk(after)
  {
    hide RowsOk, RootsOk, CommitsOk;
    var after := Forked(db, name, at).0;
    RowsOnly(db, after);
    RootsGrow(db, after);
    if after != db {
      ForkCommits(db, after, name, at);
    }
  }

  /** An applied revert puts the target's root at the branch's head, on top of the commit it undoes. */
  lemma RevertRestores(db: Db, branch: Str, l: Logical, target: CommitId, log: seq<Mutation>, message: Str, size: nat,
                       now: nat, db': Db, r: Result<Receipt>)
    requires branch in db.branches && db.branches[branch] in db.commits && target in db.commits
    requires StateRoot(l) == db.commits[target].root
    requires Published(db, RevertPlan(db, branch, target, l, log, message).(metadataBytes := size), now, db', r)
    requires IsApplied(r)
    ensures branch in db'.branches && db'.branches[branch] in db'.commits
    ensures db'.commits[db'.branches[branch]].root == db.commits[target].root
    ensures db'.commits[db'.branches[branch]].parent == Some(db.branches[branch])
    ensures db.branches[branch] in db'.commits && db'.commits[db.branches[branch]] == db.commits[db.branches[branch]]
  {
    hide IdOf, KvDigest, CommitDigest, CommandHash, WriteState, Required;
    var plan := RevertPlan(db, branch, target, l, log, message).(metadataBytes := size);
    var highest := PublishedApplied(db, plan, now, db', r);
  }
}
