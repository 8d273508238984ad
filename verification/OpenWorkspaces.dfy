/** What keeps an open workspace usable while other actors publish, revert, fork and collect. */
module OpenWorkspaces {
  import opened State
  import opened Trees
  import opened Nodes
  import opened Database
  import opened Store
  import opened WorkspaceSpec
  import opened Workspace
  import opened Replay
  import opened Footprint
  import opened Protocol
  import opened ProtocolInvariant

  /** The workspace rests on its base: nothing another actor does can change this. */
  ghost predicate Grounded(w: Workspace)
    reads w
  {
    && w.Local() && StagingOk(w.State()) && RestsOn(w.baseTree, w.baseKv, w.State())
    && w.base.root == StateRoot(Logical(w.baseTree, w.baseKv))
  }

  /** The workspace rests on its base, and its base is a stored root. */
  ghost predicate Anchored(w: Workspace)
    reads w, w.store
  {
    Grounded(w) && w.base.root in w.store.db.roots
  }

  ghost predicate AllGrounded(open: set<Workspace>, store: Store)
    reads open
  {
    forall w | w in open :: w.store == store && Grounded(w)
  }

  ghost predicate BasesStored(open: set<Workspace>, db: Db) {
    forall w | w in open :: w.base.root in db.roots
  }

  ghost predicate AllAnchored(open: set<Workspace>, store: Store)
    reads open, store
  {
    AllGrounded(open, store) && BasesStored(open, store.db)
  }

  /** Whatever happened to the store, a workspace that rests on a stored root can resolve every node of its tree. */
  lemma AnchoredValid(w: Workspace)
    requires w.store.Valid() && RootsOk(w.store.db) && Anchored(w)
    ensures w.Valid()
  {
    hide IdOf, NodeOf, StateRoot, IdsOf, ChunksOf, Required, Coherent, StagingOk, DirRows, RowsOk, Stored;
    hide NeedChunks, KvDigest;
    var db, base := w.store.db, Logical(w.baseTree, w.baseKv);
    assert IsRoot(db, base) && Holds(db, base);
    forall id | id in IdsOf(w.baseTree)
      ensures id in DirRows(db.nodes)
    {
      DirIdInTree(db, w.baseTree, id);
    }
    StoredByIds(w.Available(), w.tree);
  }

  /** Others may do anything to the store, as long as the tables stay sound and no root goes. */
  lemma StillAnchored(open: set<Workspace>, store: Store, before: Db)
    requires AllGrounded(open, store) && BasesStored(open, before) && before.roots.Keys <= store.db.roots.Keys
    requires store.Valid() && RootsOk(store.db)
    ensures AllAnchored(open, store) && forall w <- open :: w.Valid()
  {
    hide RootsOk, RowsOk, Grounded;
    forall w | w in open
      ensures w.Valid()
    {
      AnchoredValid(w);
    }
  }
}
