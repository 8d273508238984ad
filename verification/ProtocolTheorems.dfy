/** What holds in every reachable state of the protocol, in every interleaving. */
module ProtocolTheorems {
  import opened Base
  import opened Paths
  import opened Canonical
  import opened State
  import opened Trees
  import opened TreeOps
  import opened Nodes
  import opened Chunks
  import opened Database
  import opened Gc
  import opened Store
  import opened WorkspaceSpec
  import opened Replay
  import opened Diff
  import opened Reverts
  import opened Footprint
  import opened LinkGroups
  import opened Protocol
  import opened ProtocolInvariant
  import opened ProtocolSteps

  // ---- reachable states ----

  /** A state that some run, in some interleaving, arrives at. */
  ghost predicate Reachable(s: Sys) {
    exists states, acts :: EndsIn(states, acts, s)
  }

  ghost predicate EndsIn(states: seq<Sys>, acts: seq<Act>, s: Sys) {
    IsRun(states, acts) && states[|acts|] == s
  }

  lemma ReachableInv(s: Sys)
    requires Reachable(s)
    ensures Inv(s)
  {
    hide Inv, Next, Init;
    var states, acts :| EndsIn(states, acts, s);
    RunKeepsInv(states, acts, |acts|);
  }

  /** The reachable states include every fresh repository, and are closed under every step. */
  lemma ReachableGrows(repository: Str, now: nat, s: Sys, a: Act, s': Sys)
    ensures Reachable(Init(repository, now))
    ensures Reachable(s) && Next(s, a, s') ==> Reachable(s')
  {
    hide Init, Next;
    var start := Init(repository, now);
    assert EndsIn([start], [], start);
    if Reachable(s) && Next(s, a, s') {
      var states, acts :| EndsIn(states, acts, s);
      var longer, more := states + [s'], acts + [a];
      forall i | 0 <= i < |more|
        ensures Next(longer[i], more[i], longer[i + 1])
      {
        if i < |acts| {
          assert Next(states[i], acts[i], states[i + 1]);
        }
      }
      assert EndsIn(longer, more, s');
    }
  }

  /** The parts of the invariant that speak of one session, one revert, one receipt. */
  lemma PartsOfInv(s: Sys)
    requires Inv(s)
    ensures CommitsOk(s.db) && OriginsOk(s.db, s.origins)
    ensures forall i | i in s.sessions :: SessionOk(s.db, s.sessions[i])
    ensures forall i | i in s.reverts :: RevertOk(s.db, s.reverts[i])
  {
    hide RowsOk, RootsOk, CommitsOk, SessionOk, RevertOk, SweepOk, HistoryOk, OriginsOk;
  }

  // ---- no dangling root ----

  /**
   * In every reachable state, every stored root is the root of one tree and one map, whose nodes can all be
   * read back from the directory rows and whose chunks are all stored.
   */
  lemma NoRootDangles(s: Sys, r: RootId) returns (l: Logical)
    requires Reachable(s) && r in s.db.roots
    ensures var db := s.db;
            && StateRoot(l) == r && db.roots[r] == RootRow(IdOf(l.tree), KvDigest(l.kv))
            && Stored(DirRows(db.nodes), l.tree) && IsKvRow(db.nodes, KvDigest(l.kv))
                 && db.nodes[KvDigest(l.kv)].body.kv == l.kv
            && ChunksOf(l.tree) <= db.chunks.Keys && l.kv.Values <= db.chunks.Keys
            && forall d | d in db.chunks :: ChunkDigest(db.chunks[d].bytes) == d
  {
    hide StateRoot, IdOf, KvDigest, CommitsOk, SessionOk, RevertOk, HistoryOk, OriginsOk, SweepOk, Stored, ChunksOf;
    ReachableInv(s);
    l := RootState(s.db, r);
    RootReads(s.db, l);
    forall d | d in s.db.chunks
      ensures ChunkDigest(s.db.chunks[d].bytes) == d
    {
      assert d in ChunkBodies(s.db.chunks);
    }
  }

  // ---- sequence numbers, parents, requests ----

  /** Sequence numbers are 0 to n - 1 without gaps or repeats, and a parent's is smaller. */
  lemma SequencesExact(s: Sys)
    requires Reachable(s)
    ensures var commits := s.db.commits;
            && (forall c | c in commits :: commits[c].sequence < |commits|)
            && (forall c, d | c in commits && d in commits && commits[c].sequence == commits[d].sequence :: c == d)
            && (forall k: nat | k < |commits| :: Numbered(commits, k))
            && (forall c | c in commits && commits[c].parent.Some? ::
                  commits[c].parent.value in commits && commits[commits[c].parent.value].sequence < commits[c].sequence)
  {
    hide RowsOk, RootsOk, SessionOk, RevertOk, HistoryOk, OriginsOk, SweepOk, RowDigest;
    ReachableInv(s);
    forall c | c in s.db.commits
      ensures CommitOk(s.db, c)
    {
    }
  }

  /** A request id yields at most one commit. */
  lemma OneCommitPerRequest(s: Sys, c: CommitId, d: CommitId)
    requires Reachable(s) && c in s.db.commits && d in s.db.commits
    requires s.db.commits[c].parent.Some? && s.db.commits[d].parent.Some?
    requires s.db.commits[c].request == s.db.commits[d].request
    ensures c == d
  {
    hide RowsOk, RootsOk, SessionOk, RevertOk, HistoryOk, OriginsOk, SweepOk, RowDigest, SequencesOk;
    ReachableInv(s);
    assert CommitOk(s.db, c) && CommitOk(s.db, d);
  }

  /** Of all the publications racing from one head on one branch, at most one is ever applied. */
  lemma OneWinnerPerHead(s: Sys, j: nat, k: nat)
    requires Reachable(s) && j < k < |s.history|
    ensures s.history[j].branch == s.history[k].branch ==>
              s.history[j].previous != s.history[k].previous
  {
    hide RowsOk, RootsOk, CommitsOk, SessionOk, RevertOk, OriginsOk, SweepOk;
    ReachableInv(s);
    var e := s.history[j];
    assert e in s.history && EventOk(s.db, e);
  }

  // ---- what a run never undoes ----

  /**
   * Commits, their logs, roots, receipts and branches stay; events are only added; a branch's head never moves back.
   */
  ghost predicate Grows(s: Sys, s': Sys) {
    && CommitsKeep(s.db, s'.db) && s'.db.repository == s.db.repository
    && (forall r | r in s.db.roots :: r in s'.db.roots && s'.db.roots[r] == s.db.roots[r])
    && (forall q | q in s.db.receipts :: q in s'.db.receipts && s'.db.receipts[q] == s.db.receipts[q])
    && (forall b | b in s.db.branches :: HeadMoves(s.db, s'.db, b))
    && s.history <= s'.history && |s'.db.commits| - |s.db.commits| == |s'.history| - |s.history|
  }

  ghost predicate HeadMoves(db: Db, db': Db, b: Str)
    requires b in db.branches
  {
    && b in db'.branches && db.branches[b] in db.commits && db'.branches[b] in db'.commits
    && db.commits[db.branches[b]].sequence <= db'.commits[db'.branches[b]].sequence
  }

  lemma AppliedGrows(s: Sys, plan: Plan, source: Source, l: Logical, outcome: Result<Receipt>, s': Sys)
    requires Inv(s) && PublishStep(s, plan, source, outcome, s') && IsApplied(outcome)
    requires Refusal(s.db, plan).None? ==> PlanStores(s.db, plan, l)
    ensures Grows(s, s')
  {
    hide RowsOk, RootsOk, CommitsOk, HistoryOk, OriginsOk, SessionOk, RevertOk, Applied, PlanStores, StateRoot, IdOf;
    hide Refusal, HeadMoves, KvDigest, PlanRoot, PlanHash;
    var highest := PublishedApplied(s.db, plan, s.now, s'.db, outcome);
    AppliedTables(s.db, plan, l, highest + 1, s.now);
    AppliedShape(s.db, plan, highest, s.now);
    AppliedReceipt(s.db, plan, highest, s.now);
    AppliedCommits(s.db, plan, highest, s.now);
    AppliedRoot(s.db, l);
    AppliedCount(s.db, plan, highest, s.now);
    forall b | b in s.db.branches
      ensures HeadMoves(s.db, s'.db, b)
    {
      AppliedHead(s.db, plan, highest, s.now, b);
    }
  }

  /** A root stored again is stored with the row it had. */
  lemma AppliedRoot(db: Db, l: Logical)
    requires RootsOk(db)
    ensures StateRoot(l) in db.roots ==> db.roots[StateRoot(l)] == RootRow(IdOf(l.tree), KvDigest(l.kv))
  {
    hide StateRoot, IdOf, KvDigest, NeedNodes, NeedChunks;
    if StateRoot(l) in db.roots {
      assert IsRoot(db, l) && Holds(db, l);
    }
  }

  lemma AppliedCount(db: Db, plan: Plan, highest: nat, now: nat)
    requires CommitsOk(db) && Accepts(db, plan, highest)
    ensures |Applied(db, plan, highest + 1, now).commits| == |db.commits| + 1
  {
    hide WriteState, PlanRoot, CommitDigest, CommandHash, Required, IsHighest, CommitsOk;
    assert Applied(db, plan, highest + 1, now).commits.Keys == db.commits.Keys + {PlanCommit(plan)};
    var after := Applied(db, plan, highest + 1, now).commits;
    assert |after| == |after.Keys| && |db.commits| == |db.commits.Keys|;
  }

  lemma AppliedHead(db: Db, plan: Plan, highest: nat, now: nat, b: Str)
    requires CommitsOk(db) && Accepts(db, plan, highest) && highest + 1 == |db.commits| && b in db.branches
    ensures HeadMoves(db, Applied(db, plan, highest + 1, now), b)
  {
    hide WriteState, PlanRoot, CommitDigest, CommandHash, Required, IsHighest, SequencesOk, CommitOk, ReceiptOk;
    HeadBelow(db.commits, db.branches[b]);
  }

  lemma StepGrows(s: Sys, a: Act, s': Sys)
    requires Inv(s) && Next(s, a, s')
    ensures Grows(s, s')
  {
    hide RowsOk, RootsOk, CommitsOk, HistoryOk, OriginsOk, SessionOk, RevertOk, PlanStores, WsPlan, PublishStep;
    hide PlanFrom, SweepOk, Grows, IsMarking, StateRoot, RevertPlan;
    match a
    case Publish(i, request, message, size, outcome) =>
      var session := s.sessions[i];
      var plan := WsPlan(s.db.repository, session, request, message, size);
      SessionStores(s.db, session, request, message, size);
      PublishGrows(s, plan, FromSession(session), Logical(session.ws.tree, session.ws.kv), outcome, s');
    case PublishRevert(i, size, outcome) =>
      var r := s.reverts[i];
      RevertStores(s.db, r, size);
      PublishGrows(s, r.plan.(metadataBytes := size), FromRevert(r), r.state, outcome, s');
    case _ =>
      QuietStep(s, a, s');
      SameGrows(s, s');
  }

  lemma QuietStep(s: Sys, a: Act, s': Sys)
    requires Next(s, a, s') && !a.Publish? && !a.PublishRevert?
    ensures s'.db.commits == s.db.commits && s'.db.roots == s.db.roots && s'.db.receipts == s.db.receipts
    ensures s'.db.logs == s.db.logs && s'.history == s.history && s'.db.repository == s.db.repository
    ensures forall b | b in s.db.branches :: b in s'.db.branches && s'.db.branches[b] == s.db.branches[b]
  {
    hide IsMarking, StateRoot, RevertPlan, Edited, DoomedNodes, DoomedChunks;
    hide PublishStep, WsPlan, CommitDigest, Forked;
    if a.Fork? {
      ForkedQuietly(s.db, a.name, a.at);
    }
  }

  lemma ForkedQuietly(db: Db, name: Str, at: CommitId)
    ensures var after := Forked(db, name, at).0;
            && after == db.(branches := after.branches)
            && forall b | b in db.branches :: b in after.branches && after.branches[b] == db.branches[b]
  {
  }

  /** Steps other than publications leave commits, roots and receipts alone. */
  lemma SameGrows(s: Sys, s': Sys)
    requires CommitsOk(s.db) && s'.db.commits == s.db.commits && s'.db.roots == s.db.roots
    requires s'.db.receipts == s.db.receipts && s'.db.logs == s.db.logs && s'.history == s.history
    requires s'.db.repository == s.db.repository
    requires forall b | b in s.db.branches :: b in s'.db.branches && s'.db.branches[b] == s.db.branches[b]
    ensures Grows(s, s')
  {
    hide SequencesOk, CommitOk, ReceiptOk;
  }

  lemma PublishGrows(s: Sys, plan: Plan, source: Source, l: Logical, outcome: Result<Receipt>, s': Sys)
    requires Inv(s) && PublishStep(s, plan, source, outcome, s')
    requires Refusal(s.db, plan).None? ==> PlanStores(s.db, plan, l)
    ensures Grows(s, s')
  {
    hide RowsOk, RootsOk, HistoryOk, OriginsOk, SessionOk, RevertOk, PlanStores, Refusal, Applied, PlanHash;
    hide SequencesOk, CommitOk, ReceiptOk, SweepOk;
    if IsApplied(outcome) {
      hide Grows, PublishStep;
      AppliedGrows(s, plan, source, l, outcome, s');
    }
  }

  lemma GrowsChains(a: Sys, b: Sys, c: Sys)
    requires Grows(a, b) && Grows(b, c)
    ensures Grows(a, c)
  {
  }

  /**
   * Between any two states of a run, commits with their logs, roots and receipts stay as they are, branches stay
   * and their heads only move to higher sequences, and there is exactly one new commit for each applied publication.
   */
  lemma {:induction false} NothingIsRewritten(states: seq<Sys>, acts: seq<Act>, i: nat, k: nat)
    requires IsRun(states, acts) && i <= k <= |acts|
    ensures Grows(states[i], states[k])
    decreases k - i
  {
    hide Inv, Next, Grows, Init;
    RunKeepsInv(states, acts, i);
    if i == k {
      PartsOfInv(states[i]);
      SameGrows(states[i], states[i]);
    } else {
      StepGrows(states[i], acts[i], states[i + 1]);
      NothingIsRewritten(states, acts, i + 1, k);
      GrowsChains(states[i], states[i + 1], states[k]);
    }
  }

  // ---- publication ----

  /**
   * In a reachable state the only refusals are the ones a caller can cause: the branch's head never lacks
   * its commit, and a new commit's id is never taken.
   */
  lemma RefusalsAreExpected(s: Sys, plan: Plan)
    requires Reachable(s) && plan.request !in s.db.receipts
    ensures var db := s.db;
            Refusal(db, plan) ==
              if plan.branch !in db.branches then Some(NotFound)
              else if db.branches[plan.branch] != plan.expectedHead then Some(HeadConflict)
              else if !(Required(plan.mutations) <= db.chunks.Keys) then Some(Corruption)
              else None
  {
    hide RowsOk, RootsOk, SequencesOk, SessionOk, RevertOk, OriginsOk, SweepOk, PlanCommit, Required, CommitOk;
    hide ReceiptOk;
    ReachableInv(s);
    FreshCommit(s.db, plan);
  }

  /**
   * Replay soundness in every run: when a workspace's request is answered from a receipt that another
   * workspace's publication left, and both ran plainly over a base with sound link groups, the receipt's
   * root is the root this workspace asks for. Of the other workspace's base nothing is asked.
   */
  lemma ReplayedRootIsRequested(s: Sys, a: Act, s': Sys, mine: Session, theirs: Session)
    requires Reachable(s) && Next(s, a, s') && a.Publish? && a.outcome.Ok? && a.outcome.value.replayed
    requires a.i in s.sessions && mine == s.sessions[a.i]
    requires var q := SessionRequest(s.db.repository, mine, a.request);
             q in s.origins && s.origins[q].source == FromSession(theirs)
    requires GroupsOk(mine.base.tree) && PlainRun(Start(mine.base, mine.limit), mine.ops)
    requires PlainRun(Start(theirs.base, theirs.limit), theirs.ops)
    ensures a.outcome.value.root == StateRoot(Logical(mine.ws.tree, mine.ws.kv)) && s'.db == s.db
  {
    hide Inv, CommitsOk, RevertOk, StateRoot, IdOf, Traced, PlanHash, PlanCommit, GroupsOk, SessionRequest;
    hide Reachable, PlanRoot, PlainRun, Run, RestsOn, StagingOk, PublishStep;
    ReachableInv(s);
    PartsOfInv(s);
    var plan := WsPlan(s.db.repository, mine, a.request, a.message, a.size);
    ReplayedReceipt(s, plan, FromSession(mine), a.outcome, s');
    var o := s.origins[plan.request];
    assert SessionOk(s.db, mine) && OriginOk(s.db, plan.request, o);
    SameBase(s.db.repository, plan, mine.base, o.plan, theirs.base);
    SessionTraced(mine);
    SessionTraced(theirs);
    SameCommandSameRoot(s.db.repository, plan, mine.base, mine.ws, o.plan, theirs.base, theirs.ws);
    PlanRootIs(plan, Logical(mine.ws.tree, mine.ws.kv));
  }

  lemma SameBase(repository: Str, p: Plan, a: Logical, q: Plan, b: Logical)
    requires PlanHash(repository, p) == PlanHash(repository, q) && p.baseRoot == StateRoot(a)
               && q.baseRoot == StateRoot(b)
    ensures a == b
  {
    hide StateRoot, CommandHash;
    CommandHashInjective(repository, p.branch, p.request, p.baseRoot, p.mutations, repository, q.branch, q.request,
        q.baseRoot, q.mutations);
    StateRootInjective(a, b);
  }

  /** The log of a plain session tells its whole story. */
  lemma SessionTraced(session: Session)
    requires Recorded(session) && GroupsOk(session.base.tree)
    requires PlainRun(Start(session.base, session.limit), session.ops)
    ensures Traced(Open(session.base.tree, session.base.kv, session.ws.stagedLimit), session.ws)
  {
    hide GroupsOk, PlainRun, Step;
    var start := Start(session.base, session.limit);
    RunTraced(start, session.ops);
    hide Run;
    var other := Open(session.base.tree, session.base.kv, session.ws.stagedLimit);
    assert LogicalOf(other) == LogicalOf(start) && other.mutations == start.mutations;
  }

  /**
   * In every interleaving a workspace whose held chunks are stored when it publishes is applied exactly when it is
   * within budget, its request is not spent and its branch still has the head it was opened on.
   */
  lemma AppliedWhenHeld(s: Sys, a: Act, s': Sys, session: Session)
    requires Reachable(s) && Next(s, a, s') && a.Publish? && a.i in s.sessions && session == s.sessions[a.i]
    requires session.ws.staged.Keys <= s.db.chunks.Keys
    ensures IsApplied(a.outcome) <==>
            Publishable(s.db, WsPlan(s.db.repository, session, a.request, a.message, a.size))
    ensures a.outcome.Err? ==>
              a.outcome.error == Failure(s.db, WsPlan(s.db.repository, session, a.request, a.message, a.size))
  {
    hide Failure, Inv, Reachable, RestsOn, StagingOk, Recorded, StateRoot, IdOf, Published, Publishable, SequencesOk;
    hide ReceiptOk, RevertOk, OriginsOk, SessionRequest;
    ReachableInv(s);
    PartsOfInv(s);
    SoundRoots(s);
    assert SessionOk(s.db, session) && CommitOk(s.db, session.head);
    var plan := WsPlan(s.db.repository, session, a.request, a.message, a.size);
    AppliedExactly(s.db, session.base, session.ws, plan, s.now, s'.db, a.outcome);
  }

  /**
   * In every reachable state the receipt of a successful publication, applied or answered, names a stored commit and
   * tells its root, its sequence and its parent; and the commit of an applied one keeps the message and the log.
   */
  lemma ReceiptsTrue(s: Sys, a: Act, s': Sys)
    requires Reachable(s) && Next(s, a, s') && (a.Publish? || a.PublishRevert?) && a.outcome.Ok?
    ensures a.Publish? ==> a.i in s.sessions
                           && ReceiptTrue(s'.db, WsPlan(s.db.repository, s.sessions[a.i], a.request, a.message, a.size),
                                          a.outcome.value)
                           && (IsApplied(a.outcome) ==>
                                 Records(s'.db, a.outcome.value.commit, a.message, s.sessions[a.i].ws.mutations))
    ensures a.PublishRevert? ==> a.i in s.reverts
                                 && ReceiptTrue(s'.db, s.reverts[a.i].plan.(metadataBytes := a.size), a.outcome.value)
  {
    hide Inv, Reachable, CommitsOk, Published, ReceiptTrue, WsPlan, Records;
    ReachableGrows([], 0, s, a, s');
    ReachableInv(s);
    ReachableInv(s');
    PartsOfInv(s);
    PartsOfInv(s');
    if a.Publish? {
      var plan := WsPlan(s.db.repository, s.sessions[a.i], a.request, a.message, a.size);
      ReceiptTells(s.db, plan, s.now, s'.db, a.outcome);
      WsPlanKeeps(s.db.repository, s.sessions[a.i], a.request, a.message, a.size);
      if IsApplied(a.outcome) {
        AppliedRecords(s.db, plan, s.now, s'.db, a.outcome);
      }
    } else {
      ReceiptTells(s.db, s.reverts[a.i].plan.(metadataBytes := a.size), s.now, s'.db, a.outcome);
    }
  }

  lemma WsPlanKeeps(repository: Str, session: Session, request: Option<Str>, message: Option<Str>, size: nat)
    ensures var plan := WsPlan(repository, session, request, message, size);
            plan.message == message && plan.mutations == session.ws.mutations
  {
    hide IdOf, StateRoot, SessionRequest;
  }

  lemma SoundRoots(s: Sys)
    requires Inv(s)
    ensures RootsOk(s.db)
  {
    hide RowsOk, RootsOk, CommitsOk, SessionOk, RevertOk, SweepOk, HistoryOk, OriginsOk;
  }

  // ---- history explains itself ----

  /** Every commit came from a plain run of a workspace, or from a revert whose log tells the whole story. */
  ghost predicate AllPlain(s: Sys) {
    forall q | q in s.origins :: PlainOrigin(s.origins[q])
  }

  ghost predicate PlainOrigin(o: Origin) {
    match o.source
    case FromSession(session) => PlainRun(Start(session.base, session.limit), session.ops)
    case FromRevert(r) => exists l :: StateRoot(l) == o.plan.baseRoot && PlainRevert(o.plan, l, r.state)
  }

  /** From a state to another with the same map, between trees whose difference the log can bring about. */
  ghost predicate PlainRevert(plan: Plan, l: Logical, target: Logical) {
    && plan.mutations == RevertLog(Changes(l.tree, target.tree, []))
    && Reversible(l.tree, target.tree) && target.kv == l.kv
  }

  /** The logs of a commit and all commits before it, oldest first. */
  ghost function FullLog(db: Db, c: CommitId): seq<Mutation>
    requires CommitsOk(db) && c in db.commits
    decreases db.commits[c].sequence
  {
    assert CommitOk(db, c);
    match db.commits[c].parent
    case None => []
    case Some(p) => FullLog(db, p) + if c in db.logs then db.logs[c] else []
  }

  /**
   * History explains itself: where every workspace ran plainly and every revert is one that its log can bring about,
   * replaying all logs up to a commit from the empty state gives the state with that commit's root. Sound link
   * groups are no assumption here: plain runs keep them, and such reverts have none.
   */
  lemma HistoryExplains(s: Sys, c: CommitId)
    requires Reachable(s) && AllPlain(s) && CommitsOk(s.db) && c in s.db.commits
    ensures StateRoot(ReplayAll(Logical(EMPTY, map[]), FullLog(s.db, c))) == s.db.commits[c].root
  {
    hide Reachable, Inv, CommitsOk, StateRoot, FullLog, AllPlain, ReplayAll;
    ReachableInv(s);
    PartsOfInv(s);
    var l := Explained(s, c);
  }

  lemma {:induction false} Explained(s: Sys, c: CommitId) returns (l: Logical)
    requires Inv(s) && AllPlain(s) && CommitsOk(s.db) && c in s.db.commits
    ensures StateRoot(l) == s.db.commits[c].root && GroupsOk(l.tree)
    ensures l == ReplayAll(Logical(EMPTY, map[]), FullLog(s.db, c))
    decreases s.db.commits[c].sequence
  {
    hide Inv, SequencesOk, StateRoot, ReplayAll, GroupsOk, AllPlain, IdOf, RowDigest, ReceiptOk;
    assert CommitOk(s.db, c);
    match s.db.commits[c].parent {
      case None =>
        l := Logical(EMPTY, map[]);
        EmptyRoot();
        EmptyGroups();
        ReplayNothing(l);
      case Some(p) =>
        hide CommitOk, OriginOk;
        var before := Explained(s, p);
        l := ExplainedStep(s, c, p, before);
        ReplayConcat(Logical(EMPTY, map[]), FullLog(s.db, p), s.db.logs[c]);
    }
  }

  lemma EmptyGroups()
    ensures GroupsOk(EMPTY)
  {
  }

  lemma ReplayNothing(l: Logical)
    ensures ReplayAll(l, []) == l
  {
  }

  /** One commit: its own log takes its parent's state to its own. */
  lemma ExplainedStep(s: Sys, c: CommitId, p: CommitId, before: Logical) returns (l: Logical)
    requires Inv(s) && AllPlain(s) && CommitsOk(s.db) && c in s.db.commits && s.db.commits[c].parent == Some(p)
    requires p in s.db.commits && StateRoot(before) == s.db.commits[p].root && GroupsOk(before.tree)
    ensures c in s.db.logs && l == ReplayAll(before, s.db.logs[c])
    ensures StateRoot(l) == s.db.commits[c].root && GroupsOk(l.tree)
  {
    hide Inv, SequencesOk, StateRoot, ReplayAll, GroupsOk, PlainRun, IdOf, RevertOk, SessionOk, PlanRoot, PlanHash;
    hide PlanCommit, RowDigest;
    assert CommitOk(s.db, c);
    PartsOfInv(s);
    var q := s.db.commits[c].request;
    assert ReceiptOk(s.db, q);
    var o := s.origins[q];
    assert OriginOk(s.db, q, o) && PlainOrigin(o);
    if o.source.FromSession? {
      l := SessionExplained(o.plan, o.source.session, before);
    } else {
      l := RevertExplained(o, before);
    }
    PlanRootIs(o.plan, l);
  }

  lemma SessionExplained(plan: Plan, session: Session, before: Logical) returns (l: Logical)
    requires Recorded(session) && GroupsOk(before.tree) && StateRoot(before) == StateRoot(session.base)
    requires PlainRun(Start(session.base, session.limit), session.ops) && plan.mutations == session.ws.mutations
    ensures l == LogicalOf(session.ws) && l == ReplayAll(before, plan.mutations) && GroupsOk(l.tree)
  {
    hide StateRoot, ReplayAll, GroupsOk, PlainRun, Recorded, Run;
    StateRootInjective(before, session.base);
    SessionTraced(session);
    SessionGroups(session);
    LogOf(session);
    l := LogicalOf(session.ws);
  }

  lemma RevertExplained(o: Origin, before: Logical) returns (l: Logical)
    requires o.source.FromRevert? && PlainOrigin(o) && StateRoot(before) == o.plan.baseRoot
    ensures l == o.source.reversal.state && l == ReplayAll(before, o.plan.mutations) && GroupsOk(l.tree)
  {
    hide StateRoot, ReplayAll, RevertLog, Changes, GroupsOk, Linkless, Restored;
    l := o.source.reversal.state;
    var base :| StateRoot(base) == o.plan.baseRoot && PlainRevert(o.plan, base, l);
    StateRootInjective(before, base);
    RevertReplays(before.tree, l.tree, before.kv);
    LinklessGroups(l.tree);
  }

  lemma LinklessGroups(t: Tree)
    requires Linkless(t)
    ensures GroupsOk(t)
  {
    hide Look;
  }

  lemma SessionGroups(session: Session)
    requires Recorded(session) && GroupsOk(session.base.tree)
    requires PlainRun(Start(session.base, session.limit), session.ops)
    ensures GroupsOk(session.ws.tree)
  {
    hide GroupsOk, PlainRun, Step, Run, Traced;
    RunTraced(Start(session.base, session.limit), session.ops);
  }

  lemma LogOf(session: Session)
    requires Traced(Open(session.base.tree, session.base.kv, session.ws.stagedLimit), session.ws)
    ensures LogicalOf(session.ws) == ReplayAll(session.base, session.ws.mutations)
  {
    hide ReplayAll;
    assert session.ws.mutations[0..] == session.ws.mutations;
  }

  /** What an answer from a receipt says. */
  lemma ReplayedReceipt(s: Sys, plan: Plan, source: Source, outcome: Result<Receipt>, s': Sys)
    requires PublishStep(s, plan, source, outcome, s') && outcome.Ok? && outcome.value.replayed
    ensures s'.db == s.db && plan.request in s.db.receipts
    ensures outcome.value.root == s.db.receipts[plan.request].root
    ensures s.db.receipts[plan.request].commandHash == PlanHash(s.db.repository, plan)
  {
    hide Refusal, Applied, PlanRoot, PlanHash, IsHighest;
  }

  /** A revert answered from the receipt of a revert to the same commit gets that commit's root. */
  lemma ReplayedRevertIsTarget(s: Sys, a: Act, s': Sys)
    requires Reachable(s) && Next(s, a, s') && a.PublishRevert? && a.outcome.Ok? && a.outcome.value.replayed
    requires a.i in s.reverts && s.reverts[a.i].plan.request in s.origins
    requires var o := s.origins[s.reverts[a.i].plan.request];
             o.source.FromRevert? && o.source.reversal.target == s.reverts[a.i].target
    ensures var r := s.reverts[a.i];
            && r.target in s.db.commits && a.outcome.value.root == s.db.commits[r.target].root == StateRoot(r.state)
            && s'.db == s.db
  {
    hide Inv, CommitsOk, SessionOk, RevertOk, OriginOk, StateRoot, Reachable, PublishStep;
    ReachableInv(s);
    PartsOfInv(s);
    var r := s.reverts[a.i];
    ReplayedReceipt(s, r.plan.(metadataBytes := a.size), FromRevert(r), a.outcome, s');
    TargetRoot(s.db, r.plan.request, s.origins[r.plan.request], r);
  }

  lemma TargetRoot(db: Db, q: Str, o: Origin, r: Reversal)
    requires q in db.receipts && OriginOk(db, q, o) && RevertOk(db, r)
    requires o.source.FromRevert? && o.source.reversal.target == r.target
    ensures r.target in db.commits && db.receipts[q].root == db.commits[r.target].root == StateRoot(r.state)
  {
    hide PlanHash, PlanCommit, PlanRoot, StateRoot, IdOf;
    PlanRootIs(o.plan, o.source.reversal.state);
  }

  lemma PlanRootIs(plan: Plan, l: Logical)
    requires plan.namespaceRoot == IdOf(l.tree) && plan.kv == l.kv
    ensures PlanRoot(plan) == StateRoot(l)
  {
  }

  /**
   * Without plain runs the promise fails: after a workspace published a copy of a file whose mode is not the
   * default, another that wrote the same bytes from the same base is answered with the copy's root.
   */
  lemma ReplayCanMislead(db: Db, a: Session, b: Session, x: Name, y: Name, bytes: Str, mode: u32, size: nat, now: nat,
                         db': Db, first: Result<Receipt>, size': nat, now': nat, db'': Db, second: Result<Receipt>)
    requires x != y && mode != FILE_META.mode && Incoming(map[], Staged(bytes)) <= a.limit
    requires a.branch == b.branch && a.limit == b.limit && a.base == b.base == Logical(ModeBase(x, bytes, mode), map[])
    requires a.ws == Copied(Start(a.base, a.limit), [x], [y]).ws && b.ws == Write(Start(b.base, b.limit), [y], bytes).ws
    requires Published(db, WsPlan(db.repository, a, None, None, size), now, db', first) && IsApplied(first)
    requires Published(db', WsPlan(db'.repository, b, None, None, size'), now', db'', second) && second.Ok?
    ensures second.value.replayed && second.value.root != StateRoot(Logical(b.ws.tree, b.ws.kv))
  {
    hide StateRoot, IdOf, PlanRoot, PlanHash, CommandHash, CommitDigest, Refusal, Copied, Write, ModeBase, RequestFor;
    CopyNotDetermined(x, y, bytes, mode, a.limit);
    IdenticalWorkAppliesOnce(db, a, b, None, size, now, db', first, None, size', now', db'', second);
    var plan := WsPlan(db.repository, a, None, None, size);
    var highest := PublishedApplied(db, plan, now, db', first);
    AppliedReceipt(db, plan, highest, now);
    PlanRootIs(plan, Logical(a.ws.tree, a.ws.kv));
    RootsDiffer(Logical(a.ws.tree, a.ws.kv), Logical(b.ws.tree, b.ws.kv));
  }

  lemma RootsDiffer(a: Logical, b: Logical)
    requires IdOf(a.tree) != IdOf(b.tree)
    ensures StateRoot(a) != StateRoot(b)
  {
    hide StateRoot, IdOf;
    if StateRoot(a) == StateRoot(b) {
      StateRootInjective(a, b);
    }
  }

  /**
   * A revert's request id names the head and the target but not the branch: of two branches at one head, once
   * one is reverted to a target, reverting the other to the same target is refused.
   */
  lemma SecondRevertMismatches(db: Db, a: Str, b: Str, target: CommitId,
                               l: Logical, log: seq<Mutation>, message: Str, size: nat, now: nat, db': Db,
                               first: Result<Receipt>,
                               l': Logical, log': seq<Mutation>, message': Str, size': nat, now': nat, db'': Db,
                               second: Result<Receipt>)
    requires a != b && a in db.branches && b in db.branches && db.branches[a] == db.branches[b]
               && db.branches[a] in db.commits
    requires Published(db, RevertPlan(db, a, target, l, log, message).(metadataBytes := size), now, db', first)
    requires IsApplied(first)
    requires b in db'.branches && db'.branches[b] in db'.commits
    requires Published(db', RevertPlan(db', b, target, l', log', message').(metadataBytes := size'), now', db'', second)
    ensures second == Err(RequestMismatch) || second == Err(OverBudget)
    ensures db'' == db'
  {
    hide StateRoot, IdOf, PlanRoot, CommandHash, CommitDigest, Refusal, RevertRequest;
    var plan := RevertPlan(db, a, target, l, log, message).(metadataBytes := size);
    var highest := PublishedApplied(db, plan, now, db', first);
    AppliedReceipt(db, plan, highest, now);
    OtherBranchStays(db, plan, highest, now, b);
    hide Applied;
    var other := RevertPlan(db', b, target, l', log', message').(metadataBytes := size');
    assert other.request == plan.request;
    if PlanHash(db'.repository, other) == PlanHash(db.repository, plan) {
      CommandHashInjective(db.repository, other.branch, other.request, other.baseRoot, other.mutations, db.repository,
          plan.branch, plan.request, plan.baseRoot, plan.mutations);
    }
  }

  lemma OtherBranchStays(db: Db, plan: Plan, highest: nat, now: nat, b: Str)
    requires b in db.branches && b != plan.branch
    ensures var after := Applied(db, plan, highest + 1, now);
            b in after.branches && after.branches[b] == db.branches[b]
  {
    hide WriteState, PlanHash, PlanRoot, CommitDigest;
  }

  /**
   * Identical work over one base state: without an explicit request id, a second publication of the same
   * log on the same branch is answered from the first one's receipt and applies nothing.
   */
  lemma IdenticalWorkAppliesOnce(db: Db, a: Session, b: Session, message: Option<Str>, size: nat, now: nat, db': Db,
                                 first: Result<Receipt>,
                                 message': Option<Str>, size': nat, now': nat, db'': Db, second: Result<Receipt>)
    requires a.branch == b.branch && StateRoot(a.base) == StateRoot(b.base) && a.ws.mutations == b.ws.mutations
    requires Published(db, WsPlan(db.repository, a, None, message, size), now, db', first) && IsApplied(first)
    requires Published(db', WsPlan(db'.repository, b, None, message', size'), now', db'', second)
    ensures db'' == db'
    ensures second == Err(OverBudget) || (second.Ok? && second.value.replayed
                                          && second.value.commit == first.value.commit)
  {
    hide StateRoot, IdOf, PlanRoot, CommandHash, CommitDigest, Refusal;
    var plan := WsPlan(db.repository, a, None, message, size);
    var highest := PublishedApplied(db, plan, now, db', first);
    AppliedReceipt(db, plan, highest, now);
  }

  /**
   * Work once published stays spent: at any later point of a run, whatever was reverted in between, publishing
   * the same log from the same base root on the same branch under a derived request id applies nothing.
   */
  lemma SpentWorkStaysSpent(states: seq<Sys>, acts: seq<Act>, i: nat, k: nat, a: Session, b: Session)
    requires IsRun(states, acts) && i < k < |acts| && acts[i].Publish? && acts[k].Publish?
    requires acts[i].request == None == acts[k].request && IsApplied(acts[i].outcome)
    requires acts[i].i in states[i].sessions && a == states[i].sessions[acts[i].i]
    requires acts[k].i in states[k].sessions && b == states[k].sessions[acts[k].i]
    requires a.branch == b.branch && StateRoot(a.base) == StateRoot(b.base) && a.ws.mutations == b.ws.mutations
    ensures states[k + 1].db == states[k].db
    ensures acts[k].outcome == Err(OverBudget) ||
            (acts[k].outcome.Ok? && acts[k].outcome.value.replayed
             && acts[k].outcome.value.commit == acts[i].outcome.value.commit)
  {
    hide Next, Inv, Init, StateRoot, Grows, PublishStep, WsPlan;
    assert Next(states[i], acts[i], states[i + 1]) && Next(states[k], acts[k], states[k + 1]);
    NothingIsRewritten(states, acts, i, k);
    NothingIsRewritten(states, acts, i + 1, k);
    var p := WsPlan(states[i].db.repository, a, None, acts[i].message, acts[i].size);
    var q := WsPlan(states[k].db.repository, b, None, acts[k].message, acts[k].size);
    PublishSteps(states[i], acts[i], states[i + 1], a);
    PublishSteps(states[k], acts[k], states[k + 1], b);
    SpentReceipt(states[i], p, FromSession(a), acts[i].outcome, states[i + 1]);
    SamePlan(states[i], states[k], a, b, p, acts[i].message, acts[i].size, q, acts[k].message, acts[k].size);
    ReceiptKept(states[i + 1], states[k], p.request);
    Respent(states[k], q, FromSession(b), acts[k].outcome, states[k + 1], states[i].db.repository, p);
  }

  lemma PublishSteps(s: Sys, a: Act, s': Sys, session: Session)
    requires Next(s, a, s') && a.Publish? && a.i in s.sessions && session == s.sessions[a.i]
    ensures PublishStep(s, WsPlan(s.db.repository, session, a.request, a.message, a.size), FromSession(session),
                        a.outcome, s')
  {
    hide PublishStep, WsPlan;
  }

  /** An applied publication leaves its receipt. */
  lemma SpentReceipt(s: Sys, plan: Plan, source: Source, outcome: Result<Receipt>, s': Sys)
    requires PublishStep(s, plan, source, outcome, s') && IsApplied(outcome)
    ensures plan.request in s'.db.receipts
    ensures s'.db.receipts[plan.request].commandHash == PlanHash(s.db.repository, plan)
    ensures s'.db.receipts[plan.request].commit == outcome.value.commit
  {
    hide Refusal, Applied, PlanRoot, PlanHash, IsHighest, PlanCommit;
    var highest := PublishedApplied(s.db, plan, s.now, s'.db, outcome);
    AppliedReceipt(s.db, plan, highest, s.now);
  }

  lemma SamePlan(s: Sys, s': Sys, a: Session, b: Session, p: Plan, m: Option<Str>, size: nat, q: Plan, m': Option<Str>,
                 size': nat)
    requires Grows(s, s') && a.branch == b.branch && StateRoot(a.base) == StateRoot(b.base)
               && a.ws.mutations == b.ws.mutations
    requires p == WsPlan(s.db.repository, a, None, m, size) && q == WsPlan(s'.db.repository, b, None, m', size')
    ensures p.request == q.request && s'.db.repository == s.db.repository
    ensures PlanHash(s'.db.repository, q) == PlanHash(s.db.repository, p)
  {
    hide StateRoot, IdOf, CommandHash, CommitsKeep, HeadMoves;
  }

  lemma ReceiptKept(s: Sys, s': Sys, q: Str)
    requires Grows(s, s') && q in s.db.receipts
    ensures q in s'.db.receipts && s'.db.receipts[q] == s.db.receipts[q]
  {
    hide CommitsKeep, HeadMoves;
  }

  /** A request whose receipt binds the same command is answered from it. */
  lemma Respent(s: Sys, plan: Plan, source: Source, outcome: Result<Receipt>, s': Sys, repository: Str, spent: Plan)
    requires PublishStep(s, plan, source, outcome, s') && plan.request in s.db.receipts
    requires s.db.receipts[plan.request].commandHash == PlanHash(repository, spent) == PlanHash(s.db.repository, plan)
    ensures s'.db == s.db
    ensures outcome == Err(OverBudget)
            || (outcome.Ok? && outcome.value.replayed && outcome.value.commit == s.db.receipts[plan.request].commit)
  {
    hide Refusal, Applied, PlanRoot, PlanHash, IsHighest, PlanCommit;
  }

  // ---- collection ----

  /** The tree behind a stored root. */
  ghost function RootTree(db: Db, r: RootId): Logical
    requires RootsOk(db) && r in db.roots
    ensures StateRoot(RootTree(db, r)) == r
  {
    var l :| StateRoot(l) == r;
    l
  }

  /** Every directory id of a tree, the empty one included. */
  ghost function AllIds(t: Tree): set<NodeId>
    decreases t
  {
    {IdOf(t)} + set k, id | k in t.kids && t.kids[k].DirN? && id in AllIds(t.kids[k].sub) :: id
  }

  ghost predicate DirIds(ids: set<NodeId>) {
    forall id | id in ids :: exists t :: IdOf(t) == id
  }

  lemma {:induction false} AllIdsAreDirs(t: Tree)
    ensures DirIds(AllIds(t))
    decreases t
  {
    hide IdOf;
    forall id | id in AllIds(t)
      ensures exists u :: IdOf(u) == id
    {
      if id != IdOf(t) {
        var k :| k in t.kids && t.kids[k].DirN? && id in AllIds(t.kids[k].sub);
        AllIdsAreDirs(t.kids[k].sub);
      }
    }
  }

  lemma {:induction false} AllIdsClosed(db: Db, t: Tree)
    requires RowsOk(db)
    ensures Closed(db.nodes, AllIds(t))
    decreases t
  {
    hide IdOf, RowsOk, NodeOf;
    forall id | id in AllIds(t)
      ensures Children(db.nodes, id) <= AllIds(t)
    {
      if id == IdOf(t) {
        ChildrenOfTree(db, t);
      } else {
        var k :| k in t.kids && t.kids[k].DirN? && id in AllIds(t.kids[k].sub);
        AllIdsClosed(db, t.kids[k].sub);
        assert AllIds(t.kids[k].sub) <= AllIds(t);
      }
    }
  }

  lemma ChildrenOfTree(db: Db, t: Tree)
    requires RowsOk(db)
    ensures Children(db.nodes, IdOf(t)) <= AllIds(t)
  {
    hide IdOf, RowsOk, NodeOf;
    if IdOf(t) in db.nodes {
      DirRowFound(db, t);
      forall id | id in Children(db.nodes, IdOf(t))
        ensures id in AllIds(t)
      {
        var k :| k in NodeOf(t) && NodeOf(t)[k].Dir? && NodeOf(t)[k].node == id;
        NodeOfAt(t, k);
        ToEntryDir(t.kids[k]);
        assert IdOf(t.kids[k].sub) in AllIds(t.kids[k].sub);
      }
    }
  }

  lemma ToEntryDir(n: Node)
    ensures ToEntry(n).Dir? ==> n.DirN? && ToEntry(n).node == IdOf(n.sub)
  {
  }

  /** The directories of all stored roots. */
  ghost function RootDirs(db: Db): set<NodeId>
    requires RootsOk(db)
  {
    set r, id | r in db.roots && id in AllIds(RootTree(db, r).tree) :: id
  }

  lemma RootDirsClosed(db: Db)
    requires RowsOk(db) && RootsOk(db)
    ensures Closed(db.nodes, RootDirs(db))
  {
    hide RowsOk, RootsOk, Children, RootTree, AllIds;
    forall id | id in RootDirs(db)
      ensures Children(db.nodes, id) <= RootDirs(db)
    {
      var r :| r in db.roots && id in AllIds(RootTree(db, r).tree);
      AllIdsClosed(db, RootTree(db, r).tree);
      assert AllIds(RootTree(db, r).tree) <= RootDirs(db);
    }
  }

  /** One root: its directory is among them, and its key-value node is stored and is not. */
  lemma RootIsTyped(db: Db, r: RootId)
    requires RowsOk(db) && RootsOk(db) && r in db.roots
    ensures IsKvRow(db.nodes, db.roots[r].kv) && db.roots[r].ns in RootDirs(db) && db.roots[r].kv !in RootDirs(db)
  {
    hide IdOf, KvDigest, StateRoot, RowsOk, NeedChunks;
    var l := RootTree(db, r);
    assert IsRoot(db, l) && Holds(db, l);
    KvRowFound(db, l.kv);
    assert IdOf(l.tree) in AllIds(l.tree);
    hide RootsOk;
    KvNotDir(db, RootDirs(db), l.kv);
  }

  /** Reachable tables meet what collection asks for: directories and key-value nodes never mix. */
  lemma CollectionIsReady(db: Db)
    requires RowsOk(db) && RootsOk(db)
    ensures RootsTyped(db)
  {
    hide RowsOk, RootsOk, RootDirs, Closed, IsKvRow;
    RootDirsClosed(db);
    forall r | r in db.roots
      ensures IsKvRow(db.nodes, db.roots[r].kv) && db.roots[r].ns in RootDirs(db) && db.roots[r].kv !in RootDirs(db)
    {
      RootIsTyped(db, r);
    }
    assert SeparatesKv(db, RootDirs(db));
  }

  lemma KvNotDir(db: Db, s: set<NodeId>, kv: KvMap)
    requires RootsOk(db) && forall id | id in s :: exists r :: r in db.roots && id in AllIds(RootTree(db, r).tree)
    ensures KvDigest(kv) !in s
  {
    hide KvDigest, DirDigest, StateRoot;
    if KvDigest(kv) in s {
      var r :| r in db.roots && KvDigest(kv) in AllIds(RootTree(db, r).tree);
      AllIdsAreDirs(RootTree(db, r).tree);
      var t :| IdOf(t) == KvDigest(kv);
      DirAndKvDigestsDiffer(NodeOf(t), kv);
    }
  }

  /** Whatever a sweep leaves, marking finds the same again: it removed nothing reachable. */
  lemma MarkingSurvivesSweep(nodes: NodeTable, roots: map<RootId, RootRow>, marks: set<NodeId>, used: set<ChunkId>,
                             after: NodeTable)
    requires IsMarking(nodes, roots, marks, used)
    requires after.Keys <= nodes.Keys && forall id | id in nodes && id in marks :: id in after && after[id] == nodes[id]
    requires forall r | r in roots :: IsKvRow(nodes, roots[r].kv)
    ensures IsMarking(after, roots, marks, used)
  {
    forall id | id in marks
      ensures Children(after, id) == Children(nodes, id) && DirChunks(after, id) == DirChunks(nodes, id)
    {
    }
    hide Children, DirChunks, RootIds;
    forall s: set<NodeId> | RootIds(roots) <= s && Closed(after, s)
      ensures marks <= s
    {
      var both := s * marks;
      assert Closed(nodes, both);
    }
    assert ChunksOfDirs(after, marks) == ChunksOfDirs(nodes, marks);
    assert KvChunks(after, roots) == KvChunks(nodes, roots) by {
      KvChunksSame(nodes, roots, marks, after);
    }
  }

  lemma KvChunksSame(nodes: NodeTable, roots: map<RootId, RootRow>, marks: set<NodeId>, after: NodeTable)
    requires RootIds(roots) <= marks
    requires after.Keys <= nodes.Keys && forall id | id in nodes && id in marks :: id in after && after[id] == nodes[id]
    ensures KvChunks(after, roots) == KvChunks(nodes, roots)
  {
    forall r | r in roots
      ensures IsKvRow(after, roots[r].kv) <==> IsKvRow(nodes, roots[r].kv)
      ensures IsKvRow(nodes, roots[r].kv) ==> after[roots[r].kv] == nodes[roots[r].kv]
    {
      assert roots[r].kv in RootIds(roots);
    }
  }

  lemma ReachUnique(nodes: NodeTable, from: set<NodeId>, a: set<NodeId>, b: set<NodeId>)
    requires IsReach(nodes, from, a) && IsReach(nodes, from, b)
    ensures a == b
  {
    hide Children;
  }

  /** No row is stamped later than the clock. */
  ghost predicate TimesOk(s: Sys) {
    && (forall id | id in s.db.nodes :: s.db.nodes[id].createdAt <= s.now)
    && (forall d | d in s.db.chunks :: s.db.chunks[d].createdAt <= s.now)
  }

  lemma WrittenTimes(s: Sys, newNodes: NodeMap, kv: KvMap, ns: NodeId, root: RootId)
    requires TimesOk(s)
    ensures TimesOk(s.(db := WriteState(s.db, newNodes, kv, ns, root, s.now)))
  {
    hide KvDigest, DirDigest;
  }

  lemma PublishTimes(s: Sys, plan: Plan, source: Source, outcome: Result<Receipt>, s': Sys)
    requires TimesOk(s) && PublishStep(s, plan, source, outcome, s')
    ensures TimesOk(s')
  {
    hide WriteState, Refusal, PlanRoot, PlanHash, IsHighest, CommitDigest;
    WrittenTimes(s, plan.newNodes, plan.kv, plan.namespaceRoot, PlanRoot(plan));
  }

  lemma StepTimes(s: Sys, a: Act, s': Sys)
    requires TimesOk(s) && Next(s, a, s')
    ensures TimesOk(s')
  {
    hide PublishStep, WsPlan, IsMarking, StateRoot, RevertPlan, Step;
    match a
    case Publish(i, request, message, size, outcome) =>
      PublishTimes(s, WsPlan(s.db.repository, s.sessions[i], request, message, size), FromSession(s.sessions[i]),
                   outcome, s');
    case PublishRevert(i, size, outcome) =>
      PublishTimes(s, s.reverts[i].plan.(metadataBytes := size), FromRevert(s.reverts[i]), outcome, s');
    case _ =>
  }

  lemma InitTimes(repository: Str, now: nat)
    ensures TimesOk(Init(repository, now))
  {
    hide WriteState, RootDigest, KvDigest, CommitDigest, DirDigest;
    var start := Sys(EmptyDb(repository), map[], map[], None, now, [], map[]);
    WrittenTimes(start, map[], map[], EMPTY_ID, EMPTY_ROOT);
  }

  lemma {:induction false} RunKeepsTimes(states: seq<Sys>, acts: seq<Act>, k: nat)
    requires IsRun(states, acts) && k <= |acts|
    ensures TimesOk(states[k])
  {
    hide Next, Init, TimesOk;
    if k == 0 {
      var repository, now :| states[0] == Init(repository, now);
      InitTimes(repository, now);
    } else {
      RunKeepsTimes(states, acts, k - 1);
      StepTimes(states[k - 1], acts[k - 1], states[k]);
    }
  }

  lemma ReachableTimes(s: Sys)
    requires Reachable(s)
    ensures TimesOk(s)
  {
    hide TimesOk, Next, Init;
    var states, acts :| EndsIn(states, acts, s);
    RunKeepsTimes(states, acts, |acts|);
  }

  /**
   * In every reachable state a sweep without grace leaves exactly what is marked, and another sweep right after
   * it, at any time and with any grace, removes nothing.
   */
  lemma SecondSweepRemovesNothing(s: Sys, marks: set<NodeId>, used: set<ChunkId>, after: Db,
                                  marks': set<NodeId>, used': set<ChunkId>, later: nat, grace: nat)
    requires Reachable(s) && IsMarking(s.db.nodes, s.db.roots, marks, used)
    requires after == s.db.(nodes := SweptNodes(s.db.nodes, marks, s.now, 0),
                            chunks := SweptChunks(s.db.chunks, used, s.now, 0))
    requires IsMarking(after.nodes, after.roots, marks', used')
    ensures after.nodes.Keys == s.db.nodes.Keys * marks && after.chunks.Keys == s.db.chunks.Keys * used
    ensures SweptNodes(after.nodes, marks', later, grace) == after.nodes
    ensures SweptChunks(after.chunks, used', later, grace) == after.chunks
  {
    hide RowsOk, RootsOk, Children, DirChunks, ChunksOfDirs, KvChunks, RootIds, Reachable;
    hide CommitsOk, SessionOk, RevertOk, HistoryOk, OriginsOk, SweepOk;
    ReachableInv(s);
    ReachableTimes(s);
    CollectionIsReady(s.db);
    MarkingSurvivesSweep(s.db.nodes, s.db.roots, marks, used, after.nodes);
    ReachUnique(after.nodes, RootIds(s.db.roots), marks, marks');
  }
}
