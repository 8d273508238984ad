/** The protocol invariant holds initially and is kept by every step, hence by every interleaving. */
module ProtocolInvariant {
  import opened Base
  import opened Paths
  import opened State
  import opened Trees
  import opened Nodes
  import opened Chunks
  import opened Database
  import opened Gc
  import opened WorkspaceSpec
  import opened Replay
  import opened Footprint
  import opened Protocol

  // ---- tables that only grow ----

  /** Commits already made stay as they are, and so do their logs. */
  ghost predicate CommitsKeep(db: Db, db': Db) {
    forall c | c in db.commits ::
      && c in db'.commits && db'.commits[c] == db.commits[c]
      && (c in db.logs ==> c in db'.logs && db'.logs[c] == db.logs[c])
  }

  /** The roots stay and nothing that they need goes. */
  lemma RootsGrow(db: Db, db': Db)
    requires RootsOk(db) && db'.roots == db.roots && db.nodes.Keys <= db'.nodes.Keys
    requires db.chunks.Keys <= db'.chunks.Keys
    ensures RootsOk(db')
  {
    hide StateRoot, IdOf, KvDigest, NeedNodes, NeedChunks;
    forall l | IsRoot(db', l)
      ensures Holds(db', l)
    {
      assert IsRoot(db, l);
    }
  }

  /** A state whose needs are met becomes a root without disturbing the others. */
  lemma RootsAdd(db: Db, db': Db, l: Logical)
    requires RootsOk(db) && db.nodes.Keys <= db'.nodes.Keys && db.chunks.Keys <= db'.chunks.Keys
    requires db'.roots == db.roots[StateRoot(l) := RootRow(IdOf(l.tree), KvDigest(l.kv))]
    requires NeedNodes(l) <= db'.nodes.Keys && NeedChunks(l) <= db'.chunks.Keys
    ensures RootsOk(db')
  {
    hide StateRoot, IdOf, KvDigest, NeedNodes, NeedChunks;
    forall m | IsRoot(db', m)
      ensures Holds(db', m)
    {
      if StateRoot(m) == StateRoot(l) {
        StateRootInjective(m, l);
      } else {
        assert IsRoot(db, m);
      }
    }
  }

  lemma RevertsGrow(db: Db, db': Db, r: Reversal)
    requires RevertOk(db, r) && db.roots.Keys <= db'.roots.Keys && CommitsKeep(db, db')
    ensures RevertOk(db', r)
  {
    hide StateRoot, IdOf;
  }

  lemma CommitTablesOnly(db: Db, db': Db)
    requires CommitsOk(db) && db' == db.(nodes := db'.nodes, chunks := db'.chunks)
    ensures CommitsOk(db')
  {
    hide SequencesOk, RowDigest;
    forall c | c in db'.commits
      ensures CommitOk(db', c)
    {
      assert CommitOk(db, c);
    }
    forall q | q in db'.receipts
      ensures ReceiptOk(db', q)
    {
      assert ReceiptOk(db, q);
    }
  }

  // ---- reading the state of a root ----

  lemma RootState(db: Db, r: RootId) returns (l: Logical)
    requires RootsOk(db) && r in db.roots
    ensures StateRoot(l) == r && IsRoot(db, l) && Holds(db, l)
  {
    hide StateRoot, Holds;
    l :| StateRoot(l) == r;
    assert IsRoot(db, l);
  }

  // ---- node rows ----

  lemma DirRowFound(db: Db, t: Tree)
    requires RowsOk(db) && IdOf(t) in db.nodes
    ensures db.nodes[IdOf(t)].body == DirBody(NodeOf(t))
  {
    hide DirDigest, KvDigest, NodeOf;
    var body := db.nodes[IdOf(t)].body;
    assert BodyDigest(body) == IdOf(t) == DirDigest(NodeOf(t));
    match body
    case DirBody(node) => DirDigestInjective(node, NodeOf(t));
    case KvBody(kv) => DirAndKvDigestsDiffer(NodeOf(t), kv);
  }

  lemma KvRowFound(db: Db, kv: KvMap)
    requires RowsOk(db) && KvDigest(kv) in db.nodes
    ensures db.nodes[KvDigest(kv)].body == KvBody(kv)
  {
    hide DirDigest, KvDigest;
    var body := db.nodes[KvDigest(kv)].body;
    assert BodyDigest(body) == KvDigest(kv);
    match body
    case DirBody(node) => DirAndKvDigestsDiffer(node, kv);
    case KvBody(other) => KvDigestInjective(other, kv);
  }

  /** What a root holds can be read back: the whole tree through the directory rows, and the map. */
  lemma RootReads(db: Db, l: Logical)
    requires RowsOk(db) && Holds(db, l)
    ensures Stored(DirRows(db.nodes), l.tree) && IsKvRow(db.nodes, KvDigest(l.kv))
    ensures db.nodes[KvDigest(l.kv)].body.kv == l.kv
  {
    hide IdOf, NodeOf, KvDigest, DirDigest, StateRoot, NeedChunks;
    KvRowFound(db, l.kv);
    forall id | id in IdsOf(l.tree)
      ensures id in DirRows(db.nodes)
    {
      DirIdInTree(db, l.tree, id);
    }
    StoredByIds(DirRows(db.nodes), l.tree);
  }

  lemma {:induction false} DirIdInTree(db: Db, t: Tree, id: NodeId)
    requires RowsOk(db) && IdsOf(t) <= db.nodes.Keys && id in IdsOf(t)
    ensures id in DirRows(db.nodes)
    decreases t
  {
    hide IdOf, NodeOf, RowsOk;
    if t.kids != map[] && id == IdOf(t) {
      DirRowFound(db, t);
    } else {
      var k :| k in t.kids && id in NodeIds(t.kids[k]);
      SubInside(t, k);
      DirIdInTree(db, t.kids[k].sub, id);
    }
  }

  // ---- marking covers every root ----

  lemma {:induction false} MarkedTree(db: Db, marks: set<NodeId>, t: Tree)
    requires RowsOk(db) && Closed(db.nodes, marks) && IdOf(t) in marks && IdsOf(t) <= db.nodes.Keys
    ensures IdsOf(t) <= marks && ChunksOf(t) <= ChunksOfDirs(db.nodes, marks)
    decreases t
  {
    hide IdOf, RowsOk, ChunksOfDirs, ChunksIn, NodeOf;
    if t.kids != map[] {
      assert IdOf(t) in IdsOf(t);
      DirRowFound(db, t);
      forall k | k in t.kids
        ensures NodeIds(t.kids[k]) <= marks && NodeChunks(t.kids[k]) <= ChunksOfDirs(db.nodes, marks)
      {
        MarkedKid(db, marks, t, k);
        SubInside(t, k);
        if t.kids[k].DirN? {
          MarkedTree(db, marks, t.kids[k].sub);
        }
      }
    }
  }

  lemma MarkedKid(db: Db, marks: set<NodeId>, t: Tree, k: Name)
    requires Closed(db.nodes, marks) && IdOf(t) in marks && IdOf(t) in db.nodes
    requires db.nodes[IdOf(t)].body == DirBody(NodeOf(t)) && k in t.kids
    ensures t.kids[k].DirN? ==> IdOf(t.kids[k].sub) in marks
    ensures !t.kids[k].DirN? ==> NodeIds(t.kids[k]) == {} && NodeChunks(t.kids[k]) <= ChunksOfDirs(db.nodes, marks)
  {
    hide IdOf, NodeOf, ChunksIn;
    NodeOfAt(t, k);
    var id := IdOf(t);
    assert Children(db.nodes, id) <= marks;
    if t.kids[k].DirN? {
      assert IdOf(t.kids[k].sub) in Children(db.nodes, id);
    } else {
      assert NodeChunks(t.kids[k]) <= DirChunks(db.nodes, id);
    }
  }

  /** Marking finds everything that every root needs. */
  lemma MarkingCovers(db: Db, marks: set<NodeId>, used: set<ChunkId>, l: Logical)
    requires RowsOk(db) && Holds(db, l) && IsMarking(db.nodes, db.roots, marks, used)
    ensures NeedNodes(l) <= marks && NeedChunks(l) <= used
  {
    hide IdOf, KvDigest, RowsOk, ChunksOfDirs, StateRoot, IdsOf, ChunksOf, Children;
    var r := StateRoot(l);
    assert db.roots[r].ns in RootIds(db.roots) && db.roots[r].kv in RootIds(db.roots);
    MarkedTree(db, marks, l.tree);
    KvRowFound(db, l.kv);
  }

  // ---- sequence numbers ----

  lemma HighestIsLast(commits: map<CommitId, CommitRow>, highest: nat)
    requires SequencesOk(commits) && IsHighest(commits, highest) && commits != map[]
    ensures highest + 1 == |commits|
  {
    var last := |commits| - 1;
    assert Numbered(commits, last);
    var c :| c in commits && commits[c].sequence == last;
  }

  lemma SequencesAdd(commits: map<CommitId, CommitRow>, c: CommitId, row: CommitRow)
    requires SequencesOk(commits) && c !in commits && row.sequence == |commits|
    ensures SequencesOk(commits[c := row])
  {
    var after := commits[c := row];
    assert after.Keys == commits.Keys + {c};
    assert |after| == |after.Keys| == |commits.Keys| + 1 == |commits| + 1;
    forall k: nat | k < |after|
      ensures Numbered(after, k)
    {
      if k < |commits| {
        assert Numbered(commits, k);
        var d :| d in commits && commits[d].sequence == k;
        assert d in after && after[d].sequence == k;
      } else {
        assert c in after && after[c].sequence == k;
      }
    }
  }

  // ---- publication ----

  /** What an applied publication needs of its plan: a state that will be fully stored. */
  ghost predicate PlanStores(db: Db, plan: Plan, l: Logical) {
    && Coherent(plan.newNodes)
    && plan.namespaceRoot == IdOf(l.tree) && plan.kv == l.kv
    && IdsOf(l.tree) <= db.nodes.Keys + plan.newNodes.Keys
    && NeedChunks(l) <= db.chunks.Keys
  }

  /** Work that rests on a stored base will be fully stored once its plan is accepted. */
  lemma WorkStores(db: Db, base: Logical, ws: WsState, plan: Plan)
    requires RootsOk(db) && StateRoot(base) in db.roots && RestsOn(base.tree, base.kv, ws)
    requires plan.newNodes == ws.newNodes && plan.namespaceRoot == IdOf(ws.tree) && plan.kv == ws.kv
    requires plan.mutations == ws.mutations
    ensures Refusal(db, plan).None? ==> PlanStores(db, plan, Logical(ws.tree, ws.kv))
  {
    hide StateRoot, IdOf, KvDigest, IdsOf, ChunksOf, Required, Coherent, PlanCommit;
    assert IsRoot(db, base) && Holds(db, base);
  }

  lemma AppliedTables(db: Db, plan: Plan, l: Logical, sequence: nat, now: nat)
    requires RowsOk(db) && RootsOk(db) && PlanStores(db, plan, l)
    ensures var after := Applied(db, plan, sequence, now);
            && RowsOk(after) && RootsOk(after) && IsRoot(after, l) && PlanRoot(plan) == StateRoot(l)
            && after.roots == db.roots[StateRoot(l) := RootRow(IdOf(l.tree), KvDigest(l.kv))]
            && after.chunks == db.chunks && after.repository == db.repository
  {
    hide DirDigest, KvDigest, IdOf, IdsOf, ChunksOf, RootDigest, CommitDigest, CommandHash, WriteState, RootsOk;
    hide ChunksCoherent, Coherent;
    var root := PlanRoot(plan);
    var written := WriteState(db, plan.newNodes, plan.kv, plan.namespaceRoot, root, now);
    RowsAfterWrite(db, plan.newNodes, plan.kv, plan.namespaceRoot, root, now);
    KeysAfterWrite(db, plan.newNodes, plan.kv, plan.namespaceRoot, root, now);
    RootsAdd(db, Applied(db, plan, sequence, now), l);
  }

  /** Commit ids never collide: a commit's id binds its request, and a request is spent once. */
  lemma FreshCommit(db: Db, plan: Plan)
    requires CommitsOk(db) && plan.request !in db.receipts
    ensures PlanCommit(plan) !in db.commits
  {
    hide SequencesOk, CommitDigest, PlanRoot;
    if PlanCommit(plan) in db.commits {
      var row := db.commits[PlanCommit(plan)];
      assert CommitOk(db, PlanCommit(plan));
      CommitDigestInjective(row.parent, row.root, row.request, AUTHOR, row.message, row.mutationCount,
                            Some(plan.expectedHead), PlanRoot(plan), plan.request, AUTHOR, plan.message,
                            |plan.mutations|);
    }
  }

  ghost predicate Accepts(db: Db, plan: Plan, highest: nat) {
    && plan.request !in db.receipts && Refusal(db, plan).None? && IsHighest(db.commits, highest)
  }

  /** An old commit stays sound when tables only grow. */
  lemma CommitStays(db: Db, db': Db, c: CommitId)
    requires c in db.commits && CommitOk(db, c) && CommitsKeep(db, db') && db.roots.Keys <= db'.roots.Keys
    requires forall q | q in db.receipts :: q in db'.receipts && db'.receipts[q] == db.receipts[q]
    ensures CommitOk(db', c)
  {
    hide RowDigest;
  }

  lemma ReceiptStays(db: Db, db': Db, q: Str)
    requires q in db.receipts && ReceiptOk(db, q) && CommitsKeep(db, db')
    requires q in db'.receipts && db'.receipts[q] == db.receipts[q]
    ensures ReceiptOk(db', q)
  {
  }

  lemma AppliedCommits(db: Db, plan: Plan, highest: nat, now: nat)
    requires CommitsOk(db) && Accepts(db, plan, highest)
    requires var after := Applied(db, plan, highest + 1, now);
             PlanRoot(plan) in after.roots && db.roots.Keys <= after.roots.Keys
    ensures CommitsOk(Applied(db, plan, highest + 1, now)) && highest + 1 == |db.commits|
  {
    hide WriteState, PlanRoot, CommitDigest, CommandHash, Required, SequencesOk, IsHighest, CommitOk, ReceiptOk;
    var after := Applied(db, plan, highest + 1, now);
    var c := PlanCommit(plan);
    HighestIsLast(db.commits, highest);
    SequencesAdd(db.commits, c, after.commits[c]);
    AppliedShape(db, plan, highest, now);
    NewCommitOk(db, plan, highest, now);
    forall d | d in after.commits && d != c
      ensures CommitOk(after, d)
    {
      CommitStays(db, after, d);
    }
    forall q | q in after.receipts && q != plan.request
      ensures ReceiptOk(after, q)
    {
      ReceiptStays(db, after, q);
    }
  }

  lemma NewCommitOk(db: Db, plan: Plan, highest: nat, now: nat)
    requires CommitsOk(db) && Accepts(db, plan, highest) && highest + 1 == |db.commits|
    requires PlanRoot(plan) in Applied(db, plan, highest + 1, now).roots
    ensures var after := Applied(db, plan, highest + 1, now);
            CommitOk(after, PlanCommit(plan)) && ReceiptOk(after, plan.request)
  {
    hide PlanRoot, PlanHash, PlanCommit, CommitDigest, Applied, CommitsOk;
    AppliedShape(db, plan, highest, now);
    AppliedRow(db, plan, highest, now);
    HeadOfPlan(db, plan, highest);
    PlanCommitDigest(plan);
  }

  lemma PlanCommitDigest(plan: Plan)
    ensures PlanCommit(plan) == CommitDigest(Some(plan.expectedHead), PlanRoot(plan), plan.request, AUTHOR,
                                             plan.message, |plan.mutations|)
  {
  }

  /** The head a plan is made for lies below the next sequence number. */
  lemma HeadOfPlan(db: Db, plan: Plan, highest: nat)
    requires CommitsOk(db) && Accepts(db, plan, highest) && highest + 1 == |db.commits|
    ensures plan.expectedHead in db.commits && db.commits[plan.expectedHead].sequence < highest + 1
  {
    hide PlanCommit, Required, IsHighest, SequencesOk, CommitOk, ReceiptOk;
    HeadBelow(db.commits, plan.expectedHead);
  }

  /** The rows an applied publication adds. */
  lemma AppliedRow(db: Db, plan: Plan, highest: nat, now: nat)
    ensures var after := Applied(db, plan, highest + 1, now);
            && PlanCommit(plan) in after.commits && plan.request in after.receipts
            && after.commits[PlanCommit(plan)]
               == CommitRow(Some(plan.expectedHead), PlanRoot(plan), plan.request, plan.message, |plan.mutations|,
                            highest + 1)
            && after.receipts[plan.request]
               == ReceiptRow(PlanHash(db.repository, plan), PlanCommit(plan), PlanRoot(plan), plan.expectedHead,
                             highest + 1)
  {
    hide WriteState, PlanRoot, PlanHash, PlanCommit;
  }

  lemma HeadBelow(commits: map<CommitId, CommitRow>, c: CommitId)
    requires SequencesOk(commits) && c in commits
    ensures commits[c].sequence < |commits|
  {
  }

  lemma EventStays(db: Db, plan: Plan, highest: nat, now: nat, e: Event)
    requires CommitsOk(db) && Accepts(db, plan, highest) && EventOk(db, e) && highest + 1 == |db.commits|
    ensures EventOk(Applied(db, plan, highest + 1, now), e)
  {
    hide WriteState, PlanRoot, CommitDigest, CommandHash, Required, SequencesOk, IsHighest, CommitOk, ReceiptOk;
    hide PlanHash;
    HeadBelow(db.commits, e.commit);
  }

  lemma EventMade(db: Db, plan: Plan, highest: nat, now: nat)
    requires CommitsOk(db) && Accepts(db, plan, highest) && highest + 1 == |db.commits|
    ensures EventOk(Applied(db, plan, highest + 1, now),
                    Event(plan.branch, plan.request, plan.expectedHead, PlanCommit(plan)))
  {
    hide WriteState, PlanRoot, CommitDigest, CommandHash, Required, SequencesOk, IsHighest, CommitOk, ReceiptOk;
    hide PlanHash;
    HeadBelow(db.commits, plan.expectedHead);
  }

  lemma AppliedHistory(db: Db, plan: Plan, highest: nat, now: nat, history: seq<Event>)
    requires CommitsOk(db) && Accepts(db, plan, highest) && HistoryOk(db, history) && highest + 1 == |db.commits|
    ensures var after := Applied(db, plan, highest + 1, now);
            HistoryOk(after, history + [Event(plan.branch, plan.request, plan.expectedHead, PlanCommit(plan))])
  {
    hide Applied, SequencesOk, IsHighest, PlanCommit, Required, CommitOk, ReceiptOk;
    var after := Applied(db, plan, highest + 1, now);
    var latest := Event(plan.branch, plan.request, plan.expectedHead, PlanCommit(plan));
    AppliedShape(db, plan, highest, now);
    EventMade(db, plan, highest, now);
    forall e | e in history
      ensures EventOk(after, e)
    {
      EventStays(db, plan, highest, now, e);
    }
    var all := history + [latest];
    forall i, j | 0 <= i < j < |all| && all[i].branch == all[j].branch
      ensures all[i].commit in after.commits && all[j].previous in after.commits
      ensures after.commits[all[i].commit].sequence <= after.commits[all[j].previous].sequence
    {
      assert all[i] in history && EventOk(db, all[i]);
    }
  }

  lemma OriginStays(db: Db, db': Db, q: Str, o: Origin)
    requires q in db.receipts && OriginOk(db, q, o) && CommitsKeep(db, db') && db'.repository == db.repository
    requires q in db'.receipts && db'.receipts[q] == db.receipts[q]
    ensures OriginOk(db', q, o)
  {
    hide PlanHash, PlanRoot, PlanCommit, StateRoot, IdOf, Recorded;
  }

  lemma AppliedOrigins(db: Db, plan: Plan, highest: nat, now: nat, origins: map<Str, Origin>, source: Source)
    requires OriginsOk(db, origins) && PlanFrom(db, plan, source) && Accepts(db, plan, highest)
    ensures OriginsOk(Applied(db, plan, highest + 1, now), origins[plan.request := Origin(plan, source)])
  {
    hide PlanRoot, PlanHash, PlanFrom, OriginOk, Accepts, PlanCommit;
    var after := Applied(db, plan, highest + 1, now);
    AppliedShape(db, plan, highest, now);
    AppliedReceipt(db, plan, highest, now);
    hide Applied;
    var all := origins[plan.request := Origin(plan, source)];
    forall q | q in all
      ensures OriginOk(after, q, all[q])
    {
      if q == plan.request {
        OriginMade(db, plan, highest, now, source);
      } else {
        OriginStays(db, after, q, origins[q]);
      }
    }
  }

  lemma OriginMade(db: Db, plan: Plan, highest: nat, now: nat, source: Source)
    requires PlanFrom(db, plan, source) && Accepts(db, plan, highest)
    requires plan.request in Applied(db, plan, highest + 1, now).receipts
    ensures OriginOk(Applied(db, plan, highest + 1, now), plan.request, Origin(plan, source))
  {
    hide PlanRoot, PlanHash, Applied, StateRoot, IdOf, Recorded, Accepts, PlanCommit;
    AppliedShape(db, plan, highest, now);
    AppliedReceipt(db, plan, highest, now);
  }

  lemma AppliedReceipt(db: Db, plan: Plan, highest: nat, now: nat)
    ensures var after := Applied(db, plan, highest + 1, now);
            && after.repository == db.repository
            && after.receipts == db.receipts[plan.request := ReceiptRow(PlanHash(db.repository, plan), PlanCommit(plan),
                                                                        PlanRoot(plan), plan.expectedHead, highest + 1)]
            && PlanCommit(plan) in after.commits
            && PlanCommit(plan) in after.logs && after.logs[PlanCommit(plan)] == plan.mutations
  {
    hide PlanHash, PlanRoot, CommitDigest, KvDigest, DirDigest;
  }

  lemma SessionGrows(db: Db, db': Db, session: Session)
    requires SessionOk(db, session) && CommitsKeep(db, db')
    ensures SessionOk(db', session)
  {
    hide StateRoot, RestsOn, StagingOk, Recorded;
  }

  /** Reading an applied publication off its outcome. */
  lemma PublishedApplied(db: Db, plan: Plan, now: nat, db': Db, outcome: Result<Receipt>) returns (highest: nat)
    requires Published(db, plan, now, db', outcome) && IsApplied(outcome)
    ensures Accepts(db, plan, highest) && db' == Applied(db, plan, highest + 1, now)
    ensures outcome.value.commit == PlanCommit(plan) && outcome.value.previousHead == plan.expectedHead
  {
    hide WriteState, PlanRoot, PlanHash, Refusal, IsHighest, CommitDigest;
    highest :| IsHighest(db.commits, highest) && db' == Applied(db, plan, highest + 1, now);
  }

  /** What a commit keeps of the work behind it. */
  ghost predicate Records(db: Db, c: CommitId, message: Option<Str>, log: seq<Mutation>) {
    && c in db.commits && db.commits[c].message == message && db.commits[c].mutationCount == |log|
    && c in db.logs && db.logs[c] == log
  }

  lemma AppliedRecords(db: Db, plan: Plan, now: nat, db': Db, r: Result<Receipt>)
    requires Published(db, plan, now, db', r) && IsApplied(r)
    ensures Records(db', r.value.commit, plan.message, plan.mutations)
  {
    hide IdOf, PlanRoot, PlanHash, WriteState, CommitDigest, Refusal;
    var highest := PublishedApplied(db, plan, now, db', r);
  }

  /** Every node row a publication writes starts its age anew, and no other row changes. */
  lemma AppliedStamps(db: Db, plan: Plan, sequence: nat, now: nat, id: NodeId)
    requires id in Applied(db, plan, sequence, now).nodes
    ensures var row := Applied(db, plan, sequence, now).nodes[id];
            || (id in db.nodes && row == db.nodes[id])
            || (row.createdAt == now && (id in plan.newNodes || id == KvDigest(plan.kv) || id == EMPTY_ID))
    ensures id in plan.newNodes || id == KvDigest(plan.kv) ==>
              Applied(db, plan, sequence, now).nodes[id].createdAt == now
  {
    hide KvDigest, PlanHash, PlanRoot, PlanCommit;
  }

  /** Every node row is as it was, or starts its age now. */
  ghost predicate Stamped(db: Db, db': Db, now: nat) {
    forall id | id in db'.nodes :: (id in db.nodes && db'.nodes[id] == db.nodes[id]) || db'.nodes[id].createdAt == now
  }

  lemma RowsStamped(db: Db, sent: Db, plan: Plan, now: nat, db': Db, outcome: Result<Receipt>)
    requires sent == db.(chunks := sent.chunks) && Published(sent, plan, now, db', outcome) && IsApplied(outcome)
    ensures Stamped(db, db', now)
  {
    hide Applied, PlanRoot, PlanHash, PlanCommit, Refusal, IsHighest, KvDigest;
    var highest := PublishedApplied(sent, plan, now, db', outcome);
    forall id | id in db'.nodes
      ensures (id in db.nodes && db'.nodes[id] == db.nodes[id]) || db'.nodes[id].createdAt == now
    {
      AppliedStamps(sent, plan, highest + 1, now, id);
    }
  }

  /** A receipt tells the truth about the commit it names. */
  ghost predicate ReceiptTrue(db: Db, plan: Plan, r: Receipt) {
    && r.request == plan.request && r.commandHash == PlanHash(db.repository, plan)
    && r.commit in db.commits
    && var row := db.commits[r.commit];
       && row.request == r.request && row.root == r.root && row.sequence == r.sequence
       && row.parent == Some(r.previousHead)
  }

  /** Whether applied or answered, a successful publication's receipt tells the truth. */
  lemma ReceiptTells(db: Db, plan: Plan, now: nat, db': Db, outcome: Result<Receipt>)
    requires CommitsOk(db) && CommitsOk(db') && Published(db, plan, now, db', outcome) && outcome.Ok?
    ensures ReceiptTrue(db', plan, outcome.value)
  {
    hide SequencesOk, CommitOk, Refusal, IsHighest, PlanHash, PlanRoot, CommitDigest, Required;
    if IsApplied(outcome) {
      var highest := PublishedApplied(db, plan, now, db', outcome);
      AppliedRow(db, plan, highest, now);
      SameRepository(db, plan, highest, now);
      hide Applied;
    }
    assert ReceiptOk(db', plan.request);
  }

  lemma SameRepository(db: Db, plan: Plan, highest: nat, now: nat)
    ensures Applied(db, plan, highest + 1, now).repository == db.repository
  {
    hide PlanHash, PlanRoot, CommitDigest, KvDigest, DirDigest;
  }

  /** A publication of a state that is fully stored if the plan is accepted keeps the tables sound and every root. */
  lemma PublishedTables(db: Db, plan: Plan, l: Logical, now: nat, db': Db, outcome: Result<Receipt>)
    requires RowsOk(db) && RootsOk(db) && CommitsOk(db)
    requires Refusal(db, plan).None? ==> PlanStores(db, plan, l)
    requires Published(db, plan, now, db', outcome)
    ensures RowsOk(db') && RootsOk(db') && CommitsOk(db') && db.roots.Keys <= db'.roots.Keys
  {
    hide RowsOk, RootsOk, CommitsOk, PlanStores, Refusal, Applied, PlanRoot, PlanHash, IsHighest, StateRoot, IdOf,
        KvDigest;
    if IsApplied(outcome) {
      var highest := PublishedApplied(db, plan, now, db', outcome);
      AppliedTables(db, plan, l, highest + 1, now);
      AppliedCommits(db, plan, highest, now);
    }
  }

  // ---- when a publication is applied ----

  ghost predicate WithinBudget(plan: Plan) {
    |plan.mutations| <= MAX_PUBLICATION_MUTATIONS && plan.metadataBytes <= MAX_PUBLICATION_METADATA_BYTES
  }

  /** The branch exists and still has the head the plan was made for. */
  ghost predicate HeadStands(db: Db, plan: Plan) {
    plan.branch in db.branches && db.branches[plan.branch] == plan.expectedHead
  }

  ghost predicate Publishable(db: Db, plan: Plan) {
    WithinBudget(plan) && plan.request !in db.receipts && HeadStands(db, plan)
  }

  /** Why a publication of such work fails. */
  ghost function Failure(db: Db, plan: Plan): Error {
    if !WithinBudget(plan) then OverBudget
    else if plan.request in db.receipts then RequestMismatch
    else if plan.branch !in db.branches then NotFound
    else HeadConflict
  }

  /** With every held chunk stored, work over a stored base is refused only for its branch or its head. */
  lemma HeldSuffices(db: Db, base: Logical, ws: WsState, plan: Plan)
    requires RootsOk(db) && CommitsOk(db) && StateRoot(base) in db.roots && RestsOn(base.tree, base.kv, ws)
    requires plan.mutations == ws.mutations && ws.staged.Keys <= db.chunks.Keys && plan.request !in db.receipts
    ensures Refusal(db, plan) == if plan.branch !in db.branches then Some(NotFound)
                                 else if db.branches[plan.branch] != plan.expectedHead then Some(HeadConflict)
                                 else None
  {
    hide StateRoot, IdOf, KvDigest, IdsOf, ChunksOf, Required, Coherent, PlanCommit, SequencesOk, CommitOk, ReceiptOk;
    assert IsRoot(db, base) && Holds(db, base);
    FreshCommit(db, plan);
  }

  /**
   * Such work is applied exactly when it is within budget, its request is not spent and its branch still has the
   * head; a failure reports the first of these that does not hold.
   */
  lemma AppliedExactly(db: Db, base: Logical, ws: WsState, plan: Plan, now: nat, db': Db, outcome: Result<Receipt>)
    requires RootsOk(db) && CommitsOk(db) && StateRoot(base) in db.roots && RestsOn(base.tree, base.kv, ws)
    requires plan.mutations == ws.mutations && ws.staged.Keys <= db.chunks.Keys
    requires Published(db, plan, now, db', outcome)
    ensures IsApplied(outcome) <==> Publishable(db, plan)
    ensures outcome.Err? ==> outcome.error == Failure(db, plan)
    ensures !IsApplied(outcome) ==> db' == db
  {
    hide RootsOk, CommitsOk, StateRoot, RestsOn, Refusal, Applied, PlanHash, IsHighest;
    if plan.request !in db.receipts {
      HeldSuffices(db, base, ws, plan);
    }
  }

  /** The whole of an applied publication. */
  lemma AppliedKeepsInv(s: Sys, plan: Plan, source: Source, l: Logical, outcome: Result<Receipt>, s': Sys)
    requires Inv(s) && PublishStep(s, plan, source, outcome, s') && IsApplied(outcome)
    requires Refusal(s.db, plan).None? ==> PlanStores(s.db, plan, l)
    requires PlanFrom(s.db, plan, source)
    requires s'.sessions.Items <= s.sessions.Items && s'.reverts.Items <= s.reverts.Items
    ensures Inv(s')
  {
    hide StateRoot, IdOf, PlanRoot, PlanHash, PlanCommit, RowsOk, RootsOk, Refusal, Applied, CommitsOk, HistoryOk;
    hide OriginsOk, IsHighest, PlanStores;
    hide SessionOk, RevertOk, PlanFrom;
    var highest := PublishedApplied(s.db, plan, s.now, s'.db, outcome);
    AppliedTables(s.db, plan, l, highest + 1, s.now);
    AppliedShape(s.db, plan, highest, s.now);
    AppliedCommits(s.db, plan, highest, s.now);
    AppliedHistory(s.db, plan, highest, s.now, s.history);
    AppliedOrigins(s.db, plan, highest, s.now, s.origins, source);
    forall i | i in s'.sessions
      ensures SessionOk(s'.db, s'.sessions[i])
    {
      assert (i, s'.sessions[i]) in s'.sessions.Items;
      SessionGrows(s.db, s'.db, s'.sessions[i]);
    }
    forall i | i in s'.reverts
      ensures RevertOk(s'.db, s'.reverts[i])
    {
      assert (i, s'.reverts[i]) in s'.reverts.Items;
      RevertsGrow(s.db, s'.db, s'.reverts[i]);
    }
  }

  /** What an applied publication leaves in the commit and receipt tables. */
  lemma AppliedShape(db: Db, plan: Plan, highest: nat, now: nat)
    requires Accepts(db, plan, highest)
    ensures var after := Applied(db, plan, highest + 1, now);
            && CommitsKeep(db, after)
            && plan.request in after.receipts
            && after.receipts[plan.request].commit == PlanCommit(plan)
            && after.receipts[plan.request].previousHead == plan.expectedHead
  {
    hide WriteState, PlanRoot, PlanHash, Required, IsHighest, CommitDigest;
  }
}
