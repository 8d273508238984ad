/** A run of the protocol in which a publication is answered with a root that it did not ask for. */
module ReplayMisleads {
  import opened Base
  import opened Paths
  import opened State
  import opened Trees
  import opened TreeOps
  import opened Chunks
  import opened Database
  import opened WorkspaceSpec
  import opened LinkInvariant
  import opened Replay
  import opened Footprint
  import opened Protocol
  import opened ProtocolInvariant
  import opened ProtocolTheorems

  // ---- steps of the run ----

  lemma OpenedNow(s: Sys, i: nat, branch: Str, base: Logical, limit: nat) returns (s': Sys)
    requires Reachable(s) && i !in s.sessions && branch in s.db.branches && s.db.branches[branch] in s.db.commits
    requires s.db.commits[s.db.branches[branch]].root == StateRoot(base)
    ensures Reachable(s')
    ensures s' == s.(sessions := s.sessions[i := Session(branch, s.db.branches[branch], base, limit, [],
                                                         Start(base, limit))])
  {
    hide Reachable, StateRoot;
    s' := s.(sessions := s.sessions[i := Session(branch, s.db.branches[branch], base, limit, [], Start(base, limit))]);
    ReachableGrows([], 0, s, OpenOn(i, branch, base, limit), s');
  }

  lemma EditedNow(s: Sys, i: nat, op: Op) returns (s': Sys)
    requires Reachable(s) && i in s.sessions
    ensures Reachable(s') && s' == s.(sessions := s.sessions[i := Protocol.Edited(s.sessions[i], op)])
  {
    hide Reachable, Step;
    s' := s.(sessions := s.sessions[i := Protocol.Edited(s.sessions[i], op)]);
    ReachableGrows([], 0, s, Edit(i, op), s');
  }

  lemma StagedOneNow(s: Sys, i: nat, d: ChunkId) returns (s': Sys)
    requires Reachable(s) && i in s.sessions && d in s.sessions[i].ws.staged
    ensures Reachable(s') && s' == s.(db := StagedRow(s.db, d, s.sessions[i].ws.staged[d], s.now))
  {
    hide Reachable, Next, StagedRow;
    s' := s.(db := StagedRow(s.db, d, s.sessions[i].ws.staged[d], s.now));
    StageIsNext(s, i, d, s');
    ReachableGrows([], 0, s, Act.StageOne(i, d), s');
  }

  lemma StageIsNext(s: Sys, i: nat, d: ChunkId, s': Sys)
    requires i in s.sessions && d in s.sessions[i].ws.staged
    requires s' == s.(db := StagedRow(s.db, d, s.sessions[i].ws.staged[d], s.now))
    ensures Next(s, Act.StageOne(i, d), s')
  {
    hide StagedRow;
  }

  /** Send every held chunk. */
  lemma {:induction false} StagedNow(s: Sys, i: nat) returns (s': Sys)
    requires Reachable(s) && i in s.sessions
    ensures Reachable(s') && s' == s.(db := s.db.(chunks := s'.db.chunks))
    ensures s.sessions[i].ws.staged.Keys <= s'.db.chunks.Keys
    decreases s.sessions[i].ws.staged.Keys - s.db.chunks.Keys
  {
    hide Reachable;
    var held := s.sessions[i].ws.staged.Keys;
    if held <= s.db.chunks.Keys {
      s' := s;
    } else {
      var d :| d in held && d !in s.db.chunks.Keys;
      var mid := StagedOneNow(s, i, d);
      assert mid.db.chunks.Keys == s.db.chunks.Keys + {d};
      assert d in held - s.db.chunks.Keys && d !in held - mid.db.chunks.Keys;
      s' := StagedNow(mid, i);
    }
  }

  ghost function PlanOf(s: Sys, i: nat, request: Option<Str>): Plan
    requires i in s.sessions
  {
    WsPlan(s.db.repository, s.sessions[i], request, None, 0)
  }

  /** A publication that may be applied can be. */
  lemma PublishedNow(s: Sys, i: nat, request: Option<Str>) returns (s': Sys, r: Result<Receipt>)
    requires Reachable(s) && s.sweep.None? && i in s.sessions
    requires s.sessions[i].ws.staged.Keys <= s.db.chunks.Keys && Publishable(s.db, PlanOf(s, i, request))
    ensures Reachable(s') && Next(s, Publish(i, request, None, 0, r), s') && IsApplied(r)
    ensures s'.sweep.None? && s'.sessions == s.sessions - {i} && s'.db.repository == s.db.repository
    ensures s'.db.receipts.Keys == s.db.receipts.Keys + {PlanOf(s, i, request).request}
    ensures var branch := s.sessions[i].branch;
            && branch in s'.db.branches && s'.db.branches[branch] in s'.db.commits
            && s'.db.commits[s'.db.branches[branch]].root == StateRoot(LogicalOf(s.sessions[i].ws))
            && s'.db.chunks == s.db.chunks
  {
    hide Reachable, StateRoot, PlanOf, Publishable, Accepts, Next, Applied, IdOf, PlanRoot, PlanCommit, PlanHash;
    var plan := PlanOf(s, i, request);
    var highest := Acceptable(s, i, request);
    s', r := AppliedNext(s, i, request, highest);
    PlanIs(s, i, request);
    WriteKeepsRest(s.db, plan, highest, s.now);
    PlanRootIs(plan, LogicalOf(s.sessions[i].ws));
    ReachableGrows([], 0, s, Publish(i, request, None, 0, r), s');
  }

  lemma Acceptable(s: Sys, i: nat, request: Option<Str>) returns (highest: nat)
    requires Reachable(s) && i in s.sessions
    requires s.sessions[i].ws.staged.Keys <= s.db.chunks.Keys && Publishable(s.db, PlanOf(s, i, request))
    ensures Accepts(s.db, PlanOf(s, i, request), highest)
  {
    hide Reachable, Inv, StateRoot, PlanOf, RestsOn, StagingOk, Recorded, Refusal, RootsOk, SequencesOk, ReceiptOk;
    hide IsHighest;
    ReachableInv(s);
    PartsOfInv(s);
    SoundRoots(s);
    var session := s.sessions[i];
    assert SessionOk(s.db, session) && CommitOk(s.db, session.head);
    PlanIs(s, i, request);
    HeldSuffices(s.db, session.base, session.ws, PlanOf(s, i, request));
    highest := LastSequence(s.db.commits, session.head);
  }

  lemma PlanIs(s: Sys, i: nat, request: Option<Str>)
    requires i in s.sessions
    ensures var plan, session := PlanOf(s, i, request), s.sessions[i];
            && plan.branch == session.branch && plan.expectedHead == session.head
            && plan.mutations == session.ws.mutations
            && plan.namespaceRoot == IdOf(session.ws.tree) && plan.kv == session.ws.kv && plan.metadataBytes == 0
            && plan.request == RequestFor(s.db.repository, session.branch, request, StateRoot(session.base),
                                          session.ws.mutations)
            && (request.Some? ==> plan.request == request.value)
  {
    hide IdOf, StateRoot;
  }

  lemma AppliedNext(s: Sys, i: nat, request: Option<Str>, highest: nat) returns (s': Sys, r: Result<Receipt>)
    requires s.sweep.None? && i in s.sessions
    requires Publishable(s.db, PlanOf(s, i, request)) && Accepts(s.db, PlanOf(s, i, request), highest)
    ensures Next(s, Publish(i, request, None, 0, r), s') && IsApplied(r)
    ensures s'.db == Applied(s.db, PlanOf(s, i, request), highest + 1, s.now)
    ensures s'.sweep.None? && s'.sessions == s.sessions - {i}
  {
    hide WsPlan, Refusal, IsHighest, PlanHash, PlanRoot, PlanCommit, WriteState;
    var plan := PlanOf(s, i, request);
    var after := Applied(s.db, plan, highest + 1, s.now);
    r := Ok(ReceiptOf(plan.request, after.receipts[plan.request], false));
    hide Applied;
    s' := s.(db := after, sessions := s.sessions - {i},
             history := s.history + [Event(plan.branch, plan.request, r.value.previousHead, r.value.commit)],
             origins := s.origins[plan.request := Origin(plan, FromSession(s.sessions[i]))]);
  }

  lemma WriteKeepsRest(db: Db, plan: Plan, highest: nat, now: nat)
    ensures var after := Applied(db, plan, highest + 1, now);
            && after.chunks == db.chunks && after.repository == db.repository
            && after.commits == db.commits[PlanCommit(plan) := CommitRow(Some(plan.expectedHead), PlanRoot(plan),
                                             plan.request, plan.message, |plan.mutations|, highest + 1)]
            && after.branches == db.branches[plan.branch := PlanCommit(plan)]
            && after.receipts == db.receipts[plan.request := ReceiptRow(PlanHash(db.repository, plan), PlanCommit(plan),
                                                                        PlanRoot(plan), plan.expectedHead, highest + 1)]
  {
    hide PlanHash, PlanRoot, CommitDigest, KvDigest, DirDigest, PlanCommit;
  }

  lemma LastSequence(commits: map<CommitId, CommitRow>, c: CommitId) returns (highest: nat)
    requires SequencesOk(commits) && c in commits
    ensures IsHighest(commits, highest)
  {
    highest := |commits| - 1;
    assert Numbered(commits, highest);
  }

  // ---- the run ----

  const NOTHING := Logical(EMPTY, map[])

  /** The first commit's state: one file whose mode is not the default. */
  function Moded(x: Name, bytes: Str, mode: u32): Logical {
    Logical(ModeBase(x, bytes, mode), map[])
  }

  /** Writing a file and changing its mode makes that state. */
  lemma ModedMade(x: Name, bytes: Str, mode: u32, limit: nat)
    requires mode != FILE_META.mode && Incoming(map[], Staged(bytes)) <= limit
    ensures var ws := MetaSet(Write(Start(NOTHING, limit), [x], bytes).ws, [x], Some(mode), None, None).ws;
            LogicalOf(ws) == Moded(x, bytes, mode) && |ws.mutations| == 2
  {
    hide Extents, Stage, InsertAllNodes, InsertAll;
    var start := Start(NOTHING, limit);
    StageFrame(start, Staged(bytes));
    assert Stage(start, Staged(bytes)).Ok? by {
      StageFits(start, Staged(bytes));
    }
    var plain := FileN(FILE_META, |bytes|, Extents(bytes), []);
    var moded := FileN(Meta(mode, 0, 0), |bytes|, Extents(bytes), []);
    OneInsert(EMPTY, [x], plain);
    OneInsert(Put(EMPTY, x, plain), [x], moded);
    assert Put(Put(EMPTY, x, plain), x, moded) == ModeBase(x, bytes, mode);
  }

  /** A run that leaves one session in that state, its chunks sent. */
  lemma ModedSession(repository: Str, now: nat, x: Name, bytes: Str, mode: u32, limit: nat) returns (s: Sys)
    requires mode != FILE_META.mode && Incoming(map[], Staged(bytes)) <= limit
    ensures Reachable(s) && s.sweep.None? && s.sessions.Keys == {0} && s.db.repository == repository
    ensures s.db.receipts == map[]
    ensures var session := s.sessions[0];
            && LogicalOf(session.ws) == Moded(x, bytes, mode) && |session.ws.mutations| == 2
            && session.ws.staged.Keys <= s.db.chunks.Keys
            && MAIN == session.branch && MAIN in s.db.branches && s.db.branches[MAIN] == session.head
  {
    hide Reachable, Next, StateRoot, Write, MetaSet, Moded, Init, LogicalOf;
    var start := Fresh(repository, now);
    var a := OpenedNow(start, 0, MAIN, NOTHING, limit);
    var b := EditedNow(a, 0, DoWrite([x], bytes));
    var c := EditedNow(b, 0, DoSetMeta([x], Some(mode), None, None));
    ModedMade(x, bytes, mode, limit);
    s := StagedNow(c, 0);
  }

  /** A run that puts the state at the head, with one receipt under any id but `avoid`. */
  lemma ModedHead(repository: Str, now: nat, x: Name, bytes: Str, mode: u32, limit: nat, avoid: Str) returns (s: Sys)
    requires mode != FILE_META.mode && Incoming(map[], Staged(bytes)) <= limit
    ensures Reachable(s) && s.sweep.None? && s.sessions == map[] && s.db.repository == repository
    ensures MAIN in s.db.branches && s.db.branches[MAIN] in s.db.commits
    ensures s.db.commits[s.db.branches[MAIN]].root == StateRoot(Moded(x, bytes, mode))
    ensures avoid !in s.db.receipts
  {
    hide Reachable, Next, StateRoot, Moded, PlanOf, LogicalOf, Staged, Incoming, RequestFor;
    var d := ModedSession(repository, now, x, bytes, mode, limit);
    var id := avoid + [0];
    assert |avoid| != |id|;
    PlanIs(d, 0, Some(id));
    var e, receipt := PublishedNow(d, 0, Some(id));
    s := e;
  }

  lemma Fresh(repository: Str, now: nat) returns (s: Sys)
    ensures Reachable(s) && s.sweep.None? && s.sessions == map[] && s.db.repository == repository
    ensures MAIN in s.db.branches && s.db.branches[MAIN] in s.db.commits && s.db.receipts == map[]
    ensures s.db.commits[s.db.branches[MAIN]].root == StateRoot(NOTHING)
  {
    hide Reachable, Next, KvDigest, RootDigest, CommitDigest, IdOf;
    s := Init(repository, now);
    ReachableGrows(repository, now, s, Tick(0), s);
    EmptyTreeId();
  }

  /** The one entry that copying the file and writing its bytes both log. */
  function CopyLog(y: Name, bytes: Str): seq<Mutation> {
    [WriteFile([y], |bytes|, Extents(bytes))]
  }

  /** Two sessions on the head: the first copied the file, the second wrote the same bytes. */
  ghost predicate TwoSessions(s: Sys, x: Name, y: Name, bytes: Str, mode: u32, limit: nat) {
    && 1 in s.sessions && 2 in s.sessions && MAIN in s.db.branches
    && var base, head := Moded(x, bytes, mode), s.db.branches[MAIN];
       && s.sessions[1] == Session(MAIN, head, base, limit, [DoCopy([x], [y])],
                                   Copied(Start(base, limit), [x], [y]).ws)
       && s.sessions[2] == Session(MAIN, head, base, limit, [DoWrite([y], bytes)],
                                   Write(Start(base, limit), [y], bytes).ws)
  }

  lemma SessionsOpened(repository: Str, now: nat, x: Name, y: Name, bytes: Str, mode: u32, limit: nat) returns (s: Sys)
    requires mode != FILE_META.mode && Incoming(map[], Staged(bytes)) <= limit
    ensures Reachable(s) && s.sweep.None? && s.db.repository == repository && TwoSessions(s, x, y, bytes, mode, limit)
    ensures RequestFor(repository, MAIN, None, StateRoot(Moded(x, bytes, mode)), CopyLog(y, bytes)) !in s.db.receipts
  {
    hide Reachable, Next, StateRoot, Moded, RequestFor, CopyLog, Copied, Write, Staged, Incoming;
    var base := Moded(x, bytes, mode);
    var spent := RequestFor(repository, MAIN, None, StateRoot(base), CopyLog(y, bytes));
    var a := ModedHead(repository, now, x, bytes, mode, limit, spent);
    var b := OpenedNow(a, 1, MAIN, base, limit);
    var c := OpenedNow(b, 2, MAIN, base, limit);
    var d := EditedNow(c, 1, DoCopy([x], [y]));
    s := EditedNow(d, 2, DoWrite([y], bytes));
  }

  /** What the two sessions log and hold. */
  lemma TwoLogs(x: Name, y: Name, bytes: Str, mode: u32, limit: nat)
    requires x != y && mode != FILE_META.mode && Incoming(map[], Staged(bytes)) <= limit
    ensures var start := Start(Moded(x, bytes, mode), limit);
            && Copied(start, [x], [y]).ws.mutations == Write(start, [y], bytes).ws.mutations == CopyLog(y, bytes)
            && Copied(start, [x], [y]).ws.staged == map[]
  {
    hide Extents, Stage, InsertAllNodes, InsertAll, Write, Staged, Incoming, IdOf;
    CopyNotDetermined(x, y, bytes, mode, limit);
  }

  /** A publication whose request is spent on the same command is answered from the receipt. */
  lemma AnsweredNow(s: Sys, i: nat) returns (s': Sys, r: Result<Receipt>)
    requires Reachable(s) && s.sweep.None? && i in s.sessions && WithinBudget(PlanOf(s, i, None))
    requires var plan := PlanOf(s, i, None);
             plan.request in s.db.receipts
                 && s.db.receipts[plan.request].commandHash == PlanHash(s.db.repository, plan)
    ensures Reachable(s') && Next(s, Publish(i, None, None, 0, r), s') && r.Ok? && s'.db == s.db
  {
    hide Reachable, Next, PlanOf, PlanHash, WithinBudget;
    var plan := PlanOf(s, i, None);
    r := Ok(ReceiptOf(plan.request, s.db.receipts[plan.request], true));
    s' := s.(sessions := s.sessions - {i});
    AnswerIsNext(s, i, r, s');
    ReachableGrows([], 0, s, Publish(i, None, None, 0, r), s');
  }

  lemma AnswerIsNext(s: Sys, i: nat, r: Result<Receipt>, s': Sys)
    requires s.sweep.None? && i in s.sessions && WithinBudget(PlanOf(s, i, None))
    requires s' == s.(sessions := s.sessions - {i})
    requires var plan := PlanOf(s, i, None);
             plan.request in s.db.receipts && r == Ok(ReceiptOf(plan.request, s.db.receipts[plan.request], true))
                 && s.db.receipts[plan.request].commandHash == PlanHash(s.db.repository, plan)
    ensures Next(s, Publish(i, None, None, 0, r), s')
  {
    hide WsPlan, PlanHash, Refusal, Applied, IsHighest;
  }

  /** The first session is published; the second's request is then spent. */
  lemma CopyPublished(s: Sys, x: Name, y: Name, bytes: Str, mode: u32, limit: nat) returns (s': Sys, r: Result<Receipt>)
    requires x != y && mode != FILE_META.mode && Incoming(map[], Staged(bytes)) <= limit
    requires Reachable(s) && s.sweep.None? && TwoSessions(s, x, y, bytes, mode, limit)
    requires RequestFor(s.db.repository, MAIN, None, StateRoot(Moded(x, bytes, mode)), CopyLog(y, bytes))
               !in s.db.receipts
    ensures Reachable(s') && Next(s, Publish(1, None, None, 0, r), s') && IsApplied(r)
    ensures s'.sweep.None? && s'.sessions == s.sessions - {1} && WithinBudget(PlanOf(s', 2, None))
    ensures var plan := PlanOf(s', 2, None);
            plan.request in s'.db.receipts
                && s'.db.receipts[plan.request].commandHash == PlanHash(s'.db.repository, plan)
  {
    hide Reachable, Next, StateRoot, Moded, RequestFor, Copied, Write, Staged, Incoming, PlanOf, PlanHash;
    TwoLogs(x, y, bytes, mode, limit);
    PlanIs(s, 1, None);
    s', r := PublishedNow(s, 1, None);
    SpentOnBoth(s, 1, 2, r, s');
  }

  /**
   * Whatever the file's bytes and its mode, as long as that is not the default, some run ends in a session being
   * told that its work was published, under a root that is not the root of that work.
   */
  lemma MisleadingRun(repository: Str, now: nat, x: Name, y: Name, bytes: Str, mode: u32, limit: nat)
    returns (s: Sys, a: Act, s': Sys)
    requires x != y && mode != FILE_META.mode && Incoming(map[], Staged(bytes)) <= limit
    ensures Reachable(s) && Next(s, a, s') && a.Publish? && a.i in s.sessions && a.outcome.Ok?
    ensures a.outcome.value.replayed && a.outcome.value.root != StateRoot(LogicalOf(s.sessions[a.i].ws))
  {
    hide Reachable, Next, StateRoot, Moded, RequestFor, Copied, Write, Staged, Incoming, PlanOf, WsPlan, PlanHash;
    var before := SessionsOpened(repository, now, x, y, bytes, mode, limit);
    TwoLogs(x, y, bytes, mode, limit);
    var first, second := before.sessions[1], before.sessions[2];
    var mid, applied := CopyPublished(before, x, y, bytes, mode, limit);
    s := mid;
    var after, answer := AnsweredNow(s, 2);
    s', a := after, Publish(2, None, None, 0, answer);
    PublicationOf(before, 1, applied, s);
    PublicationOf(s, 2, answer, s');
    assert Moded(x, bytes, mode) == Logical(ModeBase(x, bytes, mode), map[]) by {
      ModedIs(x, bytes, mode);
    }
    ReplayCanMislead(before.db, first, second, x, y, bytes, mode, 0, before.now, s.db, applied, 0, s.now, s'.db,
        answer);
  }

  lemma ModedIs(x: Name, bytes: Str, mode: u32)
    ensures Moded(x, bytes, mode) == Logical(ModeBase(x, bytes, mode), map[])
  {
    hide ModeBase;
  }

  lemma PublicationOf(s: Sys, i: nat, r: Result<Receipt>, s': Sys)
    requires i in s.sessions && Next(s, Publish(i, None, None, 0, r), s')
    ensures Published(s.db, WsPlan(s.db.repository, s.sessions[i], None, None, 0), s.now, s'.db, r)
  {
    hide Published, WsPlan;
  }

  /** After one session is published, another with the same log from the same base finds its request spent. */
  lemma SpentOnBoth(s: Sys, i: nat, j: nat, r: Result<Receipt>, s': Sys)
    requires i in s.sessions && j in s.sessions && i != j && Next(s, Publish(i, None, None, 0, r), s') && IsApplied(r)
    requires var a, b := s.sessions[i], s.sessions[j];
             a.branch == b.branch && a.base == b.base && a.ws.mutations == b.ws.mutations
    requires WithinBudget(PlanOf(s, i, None)) && s'.db.repository == s.db.repository && s'.sessions == s.sessions - {i}
    ensures j in s'.sessions && WithinBudget(PlanOf(s', j, None))
    ensures var plan := PlanOf(s', j, None);
            plan.request in s'.db.receipts
                && s'.db.receipts[plan.request].commandHash == PlanHash(s'.db.repository, plan)
  {
    hide PublishStep, StateRoot, IdOf, CommandHash, RequestFor;
    var plan := PlanOf(s, i, None);
    SpentReceipt(s, plan, FromSession(s.sessions[i]), r, s');
  }
}
