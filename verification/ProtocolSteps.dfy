/** Every step of the protocol keeps the invariant; so does every run, in every interleaving. */
module ProtocolSteps {
  import opened Base
  import opened Canonical
  import opened State
  import opened Trees
  import opened Nodes
  import opened Chunks
  import opened Database
  import opened Gc
  import opened WorkspaceSpec
  import opened Replay
  import opened Footprint
  import opened Protocol
  import opened ProtocolInvariant

  // ---- the start ----

  lemma EmptyFootprint()
    ensures IdsOf(EMPTY) == {} && ChunksOf(EMPTY) == {}
  {
    hide IdOf;
  }

  lemma InitTables(repository: Str, now: nat)
    ensures var db := Init(repository, now).db;
            && RowsOk(db) && RootsOk(db) && EMPTY_ROOT in db.roots
            && db.branches == map[MAIN := GENESIS_COMMIT] && db.receipts == map[]
            && db.commits == map[GENESIS_COMMIT := CommitRow(None, EMPTY_ROOT, GENESIS, Some(CREATED), 0, 0)]
  {
    hide DirDigest, KvDigest, CommitDigest, RootDigest, IdOf, IdsOf, ChunksOf, StateRoot, WriteState, ChunksCoherent;
    hide RootsOk, Coherent;
    var db := Init(repository, now).db;
    var start := EmptyDb(repository);
    var l := Logical(EMPTY, map[]);
    EmptyTreeId();
    EmptyFootprint();
    assert EMPTY_ROOT == StateRoot(l) by {
      EmptyRoot();
    }
    NothingCoherent();
    assert RootsOk(start) by {
      NoRootsOk(start);
    }
    RowsAfterWrite(start, map[], map[], EMPTY_ID, EMPTY_ROOT, now);
    KeysAfterWrite(start, map[], map[], EMPTY_ID, EMPTY_ROOT, now);
    RootsAdd(start, db, l);
  }

  lemma InitCommits(db: Db)
    requires db.commits == map[GENESIS_COMMIT := CommitRow(None, EMPTY_ROOT, GENESIS, Some(CREATED), 0, 0)]
    requires db.branches == map[MAIN := GENESIS_COMMIT] && db.receipts == map[] && EMPTY_ROOT in db.roots
    ensures CommitsOk(db)
  {
    hide CommitDigest;
    assert |db.commits| == 1;
    assert GENESIS_COMMIT in db.commits && Numbered(db.commits, 0);
  }

  lemma InitInv(repository: Str, now: nat)
    ensures Inv(Init(repository, now))
  {
    hide Init, RowsOk, RootsOk, CommitsOk, CommitDigest, RootDigest, KvDigest, DirDigest;
    InitTables(repository, now);
    InitShape(repository, now);
    var db := Init(repository, now).db;
    InitCommits(db);
    assert HistoryOk(db, []) && OriginsOk(db, map[]);
  }

  lemma InitShape(repository: Str, now: nat)
    ensures Init(repository, now) == Sys(Init(repository, now).db, map[], map[], None, now, [], map[])
  {
  }

  lemma EmptyRoot()
    ensures EMPTY_ROOT == StateRoot(Logical(EMPTY, map[]))
  {
    EmptyTreeId();
  }

  lemma NothingCoherent()
    ensures Coherent(map[]) && ChunksCoherent(map[])
  {
  }

  lemma NoRootsOk(db: Db)
    requires db.roots == map[]
    ensures RootsOk(db)
  {
  }

  // ---- workspaces ----

  lemma FreshSession(base: Logical, limit: nat)
    ensures RestsOn(base.tree, base.kv, Start(base, limit)) && StagingOk(Start(base, limit))
  {
    hide IdsOf, ChunksOf;
  }

  lemma EditInv(s: Sys, a: Act, s': Sys)
    requires Inv(s) && Next(s, a, s') && (a.Edit? || a.OpenOn? || a.Abort? || a.Tick?)
    ensures Inv(s')
  {
    hide RowsOk, RootsOk, CommitsOk, RevertOk, SweepOk, HistoryOk, OriginsOk, SessionOk, StateRoot, Start, Edited;
    match a
    case Tick(_) =>
    case OpenOn(i, branch, base, limit) => OpenedOk(s.db, s'.sessions[i], branch);
    case Edit(i, op) => EditedOk(s.db, s.sessions[i], op);
    case Abort(_) =>
  }

  lemma OpenedOk(db: Db, session: Session, branch: Str)
    requires branch in db.branches && db.branches[branch] in db.commits
    requires StateRoot(session.base) == db.commits[db.branches[branch]].root && session.head == db.branches[branch]
    requires session.ops == [] && session.ws == Start(session.base, session.limit)
    ensures SessionOk(db, session)
  {
    hide RestsOn, StagingOk, StateRoot, Run, Start;
    FreshSession(session.base, session.limit);
    RunNothing(Start(session.base, session.limit));
  }

  lemma EditedOk(db: Db, session: Session, op: Op)
    requires SessionOk(db, session)
    ensures SessionOk(db, Edited(session, op))
  {
    hide RestsOn, StagingOk, Step, StateRoot, Run, Start;
    StepKeepsStaging(session.ws, op);
    StepRests(session.base.tree, session.base.kv, session.ws, op);
    RunOneMore(Start(session.base, session.limit), session.ops, op);
  }

  lemma StageInv(s: Sys, i: nat, d: ChunkId, s': Sys)
    requires Inv(s) && Next(s, StageOne(i, d), s')
    ensures Inv(s')
  {
    hide RowsOk, RootsOk, CommitsOk, HistoryOk, OriginsOk, SessionOk, RevertOk, SweepOk, IsRoot;
    var bytes := s.sessions[i].ws.staged[d];
    StagedRowsOk(s.db, s.sessions[i], d, s.now);
    RootsGrow(s.db, s'.db);
    SameCommitTables(s, s');
    if s.sweep.Some? {
      SweepStays(s.db, s'.db, s.sweep.value);
    }
  }

  /** A held chunk goes in under its own digest. */
  lemma StagedRowsOk(db: Db, session: Session, d: ChunkId, now: nat)
    requires RowsOk(db) && SessionOk(db, session) && d in session.ws.staged
    ensures RowsOk(StagedRow(db, d, session.ws.staged[d], now))
  {
    hide DirDigest, KvDigest, ChunkDigest, Weight, StateRoot, RestsOn, Recorded;
    var bytes := session.ws.staged[d];
    var after := StagedRow(db, d, bytes, now);
    assert ChunkBodies(after.chunks) == ChunkBodies(db.chunks)[d := bytes];
  }

  /** What refers to commits, roots, branches and receipts alone is unaffected by other tables. */
  lemma SameCommitTables(s: Sys, s': Sys)
    requires Inv(s) && s'.db == s.db.(nodes := s'.db.nodes, chunks := s'.db.chunks)
    requires s'.sessions == s.sessions && s'.reverts == s.reverts && s'.history == s.history && s'.origins == s.origins
    ensures CommitsOk(s'.db) && HistoryOk(s'.db, s'.history) && OriginsOk(s'.db, s'.origins)
    ensures forall i | i in s'.sessions :: SessionOk(s'.db, s'.sessions[i])
    ensures forall i | i in s'.reverts :: RevertOk(s'.db, s'.reverts[i])
    ensures forall l :: IsRoot(s'.db, l) <==> IsRoot(s.db, l)
  {
    hide CommitsOk, SessionOk, RevertOk, HistoryOk, OriginsOk, RowsOk, RootsOk, SweepOk, StateRoot;
    CommitTablesOnly(s.db, s'.db);
    SameOrigins(s.db, s'.db, s.origins);
    OthersGrow(s, s');
    SameHistory(s.db, s'.db, s.history);
  }

  lemma SameHistory(db: Db, db': Db, history: seq<Event>)
    requires HistoryOk(db, history) && db'.commits == db.commits && db'.branches == db.branches
    ensures HistoryOk(db', history)
  {
    forall e | e in history
      ensures EventOk(db', e)
    {
      assert EventOk(db, e);
    }
  }

  lemma SameOrigins(db: Db, db': Db, origins: map<Str, Origin>)
    requires OriginsOk(db, origins) && db'.receipts == db.receipts && db'.repository == db.repository
    requires CommitsKeep(db, db')
    ensures OriginsOk(db', origins)
  {
    hide OriginOk, CommitsKeep;
    forall q | q in origins
      ensures OriginOk(db', q, origins[q])
    {
      OriginStays(db, db', q, origins[q]);
    }
  }

  // ---- publication ----

  /** What an open workspace will publish is fully stored once its plan is accepted. */
  lemma SessionStores(db: Db, session: Session, request: Option<Str>, message: Option<Str>, size: nat)
    requires RootsOk(db) && CommitsOk(db) && SessionOk(db, session)
    ensures var plan := WsPlan(db.repository, session, request, message, size);
            Refusal(db, plan).None? ==> PlanStores(db, plan, Logical(session.ws.tree, session.ws.kv))
  {
    hide StateRoot, IdOf, KvDigest, RestsOn, StagingOk, RootsOk, SequencesOk, SessionRequest, Refusal, PlanStores;
    hide Recorded;
    assert CommitOk(db, session.head);
    WorkStores(db, session.base, session.ws, WsPlan(db.repository, session, request, message, size));
  }

  lemma NotAppliedInv(s: Sys, plan: Plan, source: Source, outcome: Result<Receipt>, s': Sys)
    requires Inv(s) && PublishStep(s, plan, source, outcome, s') && !IsApplied(outcome)
    requires s'.sessions.Items <= s.sessions.Items && s'.reverts.Items <= s.reverts.Items
    ensures Inv(s') && s'.db == s.db
  {
    hide RowsOk, RootsOk, CommitsOk, HistoryOk, OriginsOk, SessionOk, RevertOk, Refusal, Applied, PlanHash;
    forall i | i in s'.sessions
      ensures SessionOk(s'.db, s'.sessions[i])
    {
      assert (i, s'.sessions[i]) in s'.sessions.Items;
    }
    forall i | i in s'.reverts
      ensures RevertOk(s'.db, s'.reverts[i])
    {
      assert (i, s'.reverts[i]) in s'.reverts.Items;
    }
  }

  lemma FewerItems<T(!new)>(m: map<nat, T>, i: nat)
    ensures (m - {i}).Items <= m.Items
  {
  }

  lemma PublishInv(s: Sys, a: Act, s': Sys)
    requires Inv(s) && Next(s, a, s') && a.Publish?
    ensures Inv(s')
  {
    hide RowsOk, RootsOk, CommitsOk, HistoryOk, OriginsOk, SessionOk, RevertOk, Refusal, PlanStores, WsPlan;
    hide PublishStep, PlanFrom;
    var session := s.sessions[a.i];
    var plan := WsPlan(s.db.repository, session, a.request, a.message, a.size);
    FewerItems(s.sessions, a.i);
    SessionStores(s.db, session, a.request, a.message, a.size);
    SessionPlanFrom(s.db, session, a.request, a.message, a.size);
    if IsApplied(a.outcome) {
      AppliedKeepsInv(s, plan, FromSession(session), Logical(session.ws.tree, session.ws.kv), a.outcome, s');
    } else {
      NotAppliedInv(s, plan, FromSession(session), a.outcome, s');
    }
  }

  lemma SessionPlanFrom(db: Db, session: Session, request: Option<Str>, message: Option<Str>, size: nat)
    requires SessionOk(db, session)
    ensures PlanFrom(db, WsPlan(db.repository, session, request, message, size), FromSession(session))
  {
    hide StateRoot, IdOf, RestsOn, StagingOk, Recorded, SessionRequest;
  }

  lemma RevertStores(db: Db, r: Reversal, size: nat)
    requires RootsOk(db) && RevertOk(db, r)
    ensures PlanStores(db, r.plan.(metadataBytes := size), r.state)
    ensures PlanFrom(db, r.plan.(metadataBytes := size), FromRevert(r))
  {
    hide StateRoot, IdOf, KvDigest, IdsOf, ChunksOf;
    assert Holds(db, r.state);
    assert Coherent(map[]) by {
      NothingCoherent();
    }
  }

  lemma RevertInv(s: Sys, a: Act, s': Sys)
    requires Inv(s) && Next(s, a, s') && a.PublishRevert?
    ensures Inv(s')
  {
    hide RowsOk, RootsOk, CommitsOk, HistoryOk, OriginsOk, SessionOk, RevertOk, Refusal, PlanStores, PublishStep;
    hide PlanFrom;
    var r := s.reverts[a.i];
    var plan := r.plan.(metadataBytes := a.size);
    FewerItems(s.reverts, a.i);
    RevertStores(s.db, r, a.size);
    if IsApplied(a.outcome) {
      AppliedKeepsInv(s, plan, FromRevert(r), r.state, a.outcome, s');
    } else {
      NotAppliedInv(s, plan, FromRevert(r), a.outcome, s');
    }
  }

  lemma CommitRooted(db: Db, c: CommitId)
    requires CommitsOk(db) && c in db.commits
    ensures db.commits[c].root in db.roots
  {
    hide SequencesOk, RowDigest;
    assert CommitOk(db, c);
  }

  lemma PrepareInv(s: Sys, a: Act, s': Sys)
    requires Inv(s) && Next(s, a, s') && a.PrepareRevert?
    ensures Inv(s')
  {
    hide RowsOk, RootsOk, CommitsOk, HistoryOk, OriginsOk, SessionOk, StateRoot, IdOf, RevertOk, SweepOk;
    CommitRooted(s.db, a.target);
    ReversalOk(s.db, s'.reverts[a.i]);
  }

  lemma ReversalOk(db: Db, r: Reversal)
    requires r.plan.newNodes == map[] && r.plan.namespaceRoot == IdOf(r.state.tree) && r.plan.kv == r.state.kv
    requires r.target in db.commits && db.commits[r.target].root == StateRoot(r.state) && StateRoot(r.state) in db.roots
    requires r.plan.expectedHead in db.commits && db.commits[r.plan.expectedHead].root == r.plan.baseRoot
    ensures RevertOk(db, r)
  {
    hide StateRoot, IdOf;
  }

  lemma ForkInv(s: Sys, name: Str, at: CommitId, s': Sys)
    requires Inv(s) && Next(s, Fork(name, at), s')
    ensures Inv(s')
  {
    hide RowsOk, CommitsOk, HistoryOk, OriginsOk, SessionOk, RevertOk, SweepOk, RootsOk;
    if s'.db != s.db {
      assert RowsOk(s'.db) by {
        SameRows(s.db, s'.db);
      }
      RootsGrow(s.db, s'.db);
      ForkCommits(s.db, s'.db, name, at);
      assert OriginsOk(s'.db, s'.origins) by {
        SameOrigins(s.db, s'.db, s.origins);
      }
      OthersGrow(s, s');
      ForkHistory(s.db, s'.db, name, at, s.history);
      assert s.sweep.Some? ==> SweepOk(s'.db, s.sweep.value) by {
        if s.sweep.Some? {
          SweepStays(s.db, s'.db, s.sweep.value);
        }
      }
    }
  }

  /** Open workspaces and pending reverts survive tables that keep their commits and roots. */
  lemma OthersGrow(s: Sys, s': Sys)
    requires Inv(s) && CommitsKeep(s.db, s'.db) && s.db.roots.Keys <= s'.db.roots.Keys
    requires s'.sessions == s.sessions && s'.reverts == s.reverts
    ensures forall i | i in s'.sessions :: SessionOk(s'.db, s'.sessions[i])
    ensures forall i | i in s'.reverts :: RevertOk(s'.db, s'.reverts[i])
  {
    hide RowsOk, RootsOk, CommitsOk, HistoryOk, OriginsOk, SweepOk, SessionOk, RevertOk, CommitsKeep;
    forall i | i in s'.sessions
      ensures SessionOk(s'.db, s'.sessions[i])
    {
      SessionGrows(s.db, s'.db, s.sessions[i]);
    }
    forall i | i in s'.reverts
      ensures RevertOk(s'.db, s'.reverts[i])
    {
      RevertsGrow(s.db, s'.db, s'.reverts[i]);
    }
  }

  lemma SameRows(db: Db, db': Db)
    requires RowsOk(db) && db'.nodes == db.nodes && db'.chunks == db.chunks
    ensures RowsOk(db')
  {
  }

  lemma SweepStays(db: Db, db': Db, w: Sweep)
    requires SweepOk(db, w) && db'.roots == db.roots
    ensures SweepOk(db', w)
  {
    hide NeedNodes, NeedChunks, StateRoot;
    forall l | IsRoot(db', l)
      ensures NeedNodes(l) !! w.nodes
      ensures match w.chunks case None => NeedChunks(l) <= w.used case Some(doomed) => NeedChunks(l) !! doomed
    {
      assert IsRoot(db, l);
    }
  }

  lemma ForkCommits(db: Db, db': Db, name: Str, at: CommitId)
    requires CommitsOk(db) && at in db.commits && db' == db.(branches := db.branches[name := at])
    ensures CommitsOk(db')
  {
    hide SequencesOk, RowDigest;
    forall c | c in db'.commits
      ensures CommitOk(db', c)
    {
      assert CommitOk(db, c);
    }
    forall q | q in db'.receipts
      ensures ReceiptOk(db', q)
    {
      assert ReceiptOk(db, q);
    }
  }

  lemma ForkHistory(db: Db, db': Db, name: Str, at: CommitId, history: seq<Event>)
    requires HistoryOk(db, history) && name !in db.branches && db' == db.(branches := db.branches[name := at])
    ensures HistoryOk(db', history)
  {
    forall e | e in history
      ensures EventOk(db', e)
    {
      assert EventOk(db, e);
    }
  }

  // ---- collection ----

  lemma BeginInv(s: Sys, a: Act, s': Sys)
    requires Inv(s) && Next(s, a, s') && a.BeginSweep?
    ensures Inv(s')
  {
    hide RowsOk, RootsOk, CommitsOk, HistoryOk, OriginsOk, SessionOk, RevertOk, SweepOk, IsMarking, DoomedNodes;
    BeginSweepOk(s.db, a.marks, a.used, s.now, a.grace);
  }

  /** A sweep about to start dooms no node that a root needs, and has marked every chunk that one needs. */
  lemma BeginSweepOk(db: Db, marks: set<NodeId>, used: set<ChunkId>, now: nat, grace: nat)
    requires RowsOk(db) && RootsOk(db) && IsMarking(db.nodes, db.roots, marks, used)
    ensures SweepOk(db, Sweep(used, grace, DoomedNodes(db.nodes, marks, now, grace), None))
  {
    hide RowsOk, NeedNodes, NeedChunks, StateRoot, IsMarking;
    forall l | IsRoot(db, l)
      ensures NeedNodes(l) !! DoomedNodes(db.nodes, marks, now, grace) && NeedChunks(l) <= used
    {
      assert Holds(db, l);
      MarkingCovers(db, marks, used, l);
    }
  }

  lemma RowsLess(db: Db, less: Db)
    requires RowsOk(db)
    requires forall id | id in less.nodes :: id in db.nodes && less.nodes[id] == db.nodes[id]
    requires forall d | d in less.chunks :: d in db.chunks && less.chunks[d] == db.chunks[d]
    ensures RowsOk(less)
  {
    hide DirDigest, KvDigest, ChunkDigest;
    forall d | d in ChunkBodies(less.chunks)
      ensures ChunkDigest(ChunkBodies(less.chunks)[d]) == d
    {
      assert ChunkDigest(ChunkBodies(db.chunks)[d]) == d;
    }
  }

  lemma DropNodeInv(s: Sys, id: NodeId, s': Sys)
    requires Inv(s) && Next(s, DropNode(id), s')
    ensures Inv(s')
  {
    hide CommitsOk, HistoryOk, OriginsOk, SessionOk, RevertOk, NeedNodes, NeedChunks, StateRoot, RowsOk, IdOf, KvDigest;
    SameCommitTables(s, s');
    RowsLess(s.db, s'.db);
    forall l | IsRoot(s'.db, l)
      ensures Holds(s'.db, l)
    {
      assert IsRoot(s.db, l) && Holds(s.db, l);
    }
  }

  lemma DropChunkInv(s: Sys, d: ChunkId, s': Sys)
    requires Inv(s) && Next(s, DropChunk(d), s')
    ensures Inv(s')
  {
    hide CommitsOk, HistoryOk, OriginsOk, SessionOk, RevertOk, NeedNodes, NeedChunks, StateRoot, RowsOk, IdOf, KvDigest;
    SameCommitTables(s, s');
    RowsLess(s.db, s'.db);
    forall l | IsRoot(s'.db, l)
      ensures Holds(s'.db, l)
    {
      assert IsRoot(s.db, l) && Holds(s.db, l);
    }
  }

  lemma ReadChunksInv(s: Sys, s': Sys)
    requires Inv(s) && Next(s, ReadChunks, s')
    ensures Inv(s')
  {
    hide RowsOk, RootsOk, CommitsOk, HistoryOk, OriginsOk, SessionOk, RevertOk, NeedNodes, NeedChunks, StateRoot;
  }

  lemma EndInv(s: Sys, s': Sys)
    requires Inv(s) && Next(s, EndSweep, s')
    ensures Inv(s')
  {
    hide RowsOk, RootsOk, CommitsOk, HistoryOk, OriginsOk, SessionOk, RevertOk;
  }

  // ---- every step, every run ----

  lemma NextKeepsInv(s: Sys, a: Act, s': Sys)
    requires Inv(s) && Next(s, a, s')
    ensures Inv(s')
  {
    hide Inv, Next;
    match a
    case Tick(_) => EditInv(s, a, s');
    case OpenOn(_, _, _, _) => EditInv(s, a, s');
    case Edit(_, _) => EditInv(s, a, s');
    case Abort(_) => EditInv(s, a, s');
    case StageOne(i, d) => StageInv(s, i, d, s');
    case Publish(_, _, _, _, _) => PublishInv(s, a, s');
    case PrepareRevert(_, _, _, _, _, _) => PrepareInv(s, a, s');
    case PublishRevert(_, _, _) => RevertInv(s, a, s');
    case Fork(name, at) => ForkInv(s, name, at, s');
    case BeginSweep(_, _, _) => BeginInv(s, a, s');
    case DropNode(id) => DropNodeInv(s, id, s');
    case ReadChunks => ReadChunksInv(s, s');
    case DropChunk(d) => DropChunkInv(s, d, s');
    case EndSweep => EndInv(s, s');
  }

  /** A run: states linked by steps, from a fresh repository. */
  ghost predicate IsRun(states: seq<Sys>, acts: seq<Act>) {
    && |states| == |acts| + 1
    && (exists repository, now :: states[0] == Init(repository, now))
    && forall i | 0 <= i < |acts| :: Next(states[i], acts[i], states[i + 1])
  }

  lemma {:induction false} RunKeepsInv(states: seq<Sys>, acts: seq<Act>, i: nat)
    requires IsRun(states, acts) && i < |states|
    ensures Inv(states[i])
    decreases i
  {
    hide Inv, Next, Init;
    if i == 0 {
      var repository, now :| states[0] == Init(repository, now);
      InitInv(repository, now);
    } else {
      RunKeepsInv(states, acts, i - 1);
      NextKeepsInv(states[i - 1], acts[i - 1], states[i]);
    }
  }
}
