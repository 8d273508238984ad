/**
 * The publication protocol as a transition system: workspaces open, edit, stage chunks one at a time outside
 * every lock, publish, revert, fork; a collector marks and then deletes row by row. Only publication and
 * collection exclude each other.
 */
module Protocol {
  import opened Base
  import opened Canonical
  import opened State
  import opened Trees
  import opened Database
  import opened Gc
  import opened Store
  import opened WorkspaceSpec
  import opened Replay
  import opened Footprint

  // ---- states ----

  /**
   * An open workspace: where it was opened, the state it was opened on, its limit on staged bytes, its
   * operations so far, and its own state.
   */
  datatype Session = Session(branch: Str, head: CommitId, base: Logical, limit: nat, ops: seq<Op>, ws: WsState)

  /** A revert ready to publish: the commit to return to, its state, and the plan. */
  datatype Reversal = Reversal(target: CommitId, state: Logical, plan: Plan)

  /** A sweep in progress: the chunks that marking found, and the doomed rows still to delete. */
  datatype Sweep = Sweep(used: set<ChunkId>, grace: nat, nodes: set<NodeId>, chunks: Option<set<ChunkId>>)

  /** One applied publication. */
  datatype Event = Event(branch: Str, request: Str, previous: CommitId, commit: CommitId)

  /** What a publication was started from. */
  datatype Source = FromSession(session: Session) | FromRevert(reversal: Reversal)

  /** The plan behind a receipt, and what it was started from. */
  datatype Origin = Origin(plan: Plan, source: Source)

  datatype Sys = Sys(
    db: Db,
    sessions: map<nat, Session>,
    reverts: map<nat, Reversal>,
    sweep: Option<Sweep>,
    now: nat,
    history: seq<Event>,
    origins: map<Str, Origin>)

  datatype Act =
    | Tick(seconds: nat)
    | OpenOn(i: nat, branch: Str, base: Logical, limit: nat)
    | Edit(i: nat, op: Op)
    | StageOne(i: nat, chunk: ChunkId)
    | Publish(i: nat, request: Option<Str>, message: Option<Str>, size: nat, outcome: Result<Receipt>)
    | Abort(i: nat)
    | PrepareRevert(i: nat, branch: Str, target: CommitId, state: Logical, log: seq<Mutation>, note: Str)
    | PublishRevert(i: nat, size: nat, outcome: Result<Receipt>)
    | Fork(name: Str, at: CommitId)
    | BeginSweep(grace: nat, marks: set<NodeId>, used: set<ChunkId>)
    | DropNode(id: NodeId)
    | ReadChunks
    | DropChunk(chunk: ChunkId)
    | EndSweep

  // ---- plans ----

  ghost function SessionRequest(repository: Str, session: Session, request: Option<Str>): Str {
    RequestFor(repository, session.branch, request, StateRoot(session.base), session.ws.mutations)
  }

  /** The plan `Workspace::publish` builds. */
  ghost function WsPlan(repository: Str, session: Session, request: Option<Str>, message: Option<Str>,
                        size: nat): Plan {
    Plan(session.branch, SessionRequest(repository, session, request), session.head, StateRoot(session.base),
         IdOf(session.ws.tree), session.ws.newNodes, session.ws.kv, session.ws.mutations, message, size)
  }

  /** The state a fresh workspace over `base` starts in. */
  function Start(base: Logical, limit: nat): WsState {
    WorkspaceSpec.Open(base.tree, base.kv, limit)
  }

  /** The first sixteen hexadecimal digits of an id; nothing is known about them. */
  const Hex16: Digest -> Str

  const REVERT := Ascii("revert-")
  const HYPHEN := Ascii("-")

  /** The request id of a revert, derived from the head and the target; the branch is no part of it. */
  function RevertRequest(head: CommitId, target: CommitId): Str {
    REVERT + Hex16(head) + HYPHEN + Hex16(target)
  }

  /** The digits of one length, revert ids agree exactly when the digits of head and target do. */
  lemma RevertRequestsDiffer(h: CommitId, c: CommitId, h': CommitId, c': CommitId)
    requires |Hex16(h)| == |Hex16(h')|
    ensures RevertRequest(h, c) == RevertRequest(h', c') <==> Hex16(h) == Hex16(h') && Hex16(c) == Hex16(c')
  {
    var n, k := |REVERT|, |Hex16(h)|;
    var a, b := RevertRequest(h, c), RevertRequest(h', c');
    assert a[n..n + k] == Hex16(h) && b[n..n + k] == Hex16(h');
    assert a[n + k + |HYPHEN|..] == Hex16(c) && b[n + k + |HYPHEN|..] == Hex16(c');
  }

  /** The plan `revert_to` builds: the target's own state, no new nodes, and a log describing the reversal. */
  ghost function RevertPlan(db: Db, branch: Str, target: CommitId, state: Logical, mutations: seq<Mutation>,
                            message: Str): Plan
    requires branch in db.branches && db.branches[branch] in db.commits
  {
    var head := db.branches[branch];
    Plan(branch, RevertRequest(head, target), head, db.commits[head].root, IdOf(state.tree), map[], state.kv,
         mutations, Some(message), 0)
  }

  // ---- steps ----

  ghost predicate IsApplied(outcome: Result<Receipt>) {
    outcome.Ok? && !outcome.value.replayed
  }

  /** What a publication does to everything but the list it was started from. */
  ghost predicate PublishStep(s: Sys, plan: Plan, source: Source, outcome: Result<Receipt>, s': Sys) {
    && s.sweep.None? && s'.sweep.None? && s'.now == s.now
    && Published(s.db, plan, s.now, s'.db, outcome)
    && s'.history == (if IsApplied(outcome)
                      then s.history + [Event(plan.branch, plan.request, outcome.value.previousHead,
                                              outcome.value.commit)]
                      else s.history)
    && s'.origins == if IsApplied(outcome) then s.origins[plan.request := Origin(plan, source)] else s.origins
  }

  /** The stored chunk rows after staging one held chunk: the row is replaced, its age starts anew. */
  function StagedRow(db: Db, d: ChunkId, bytes: Str, now: nat): Db {
    db.(chunks := db.chunks[d := ChunkRow(bytes, now)])
  }

  function DoomedNodes(nodes: NodeTable, marks: set<NodeId>, now: nat, grace: nat): set<NodeId> {
    set id | id in nodes && Doomed(nodes[id].createdAt, id in marks, now, grace)
  }

  function DoomedChunks(chunks: map<ChunkId, ChunkRow>, used: set<ChunkId>, now: nat, grace: nat): set<ChunkId> {
    set d | d in chunks && Doomed(chunks[d].createdAt, d in used, now, grace)
  }

  ghost function Edited(session: Session, op: Op): Session {
    session.(ops := session.ops + [op], ws := Step(session.ws, op).ws)
  }

  ghost predicate Next(s: Sys, a: Act, s': Sys) {
    match a
    case Tick(seconds) => s' == s.(now := s.now + seconds)
    case OpenOn(i, branch, base, limit) =>
      && i !in s.sessions && branch in s.db.branches && s.db.branches[branch] in s.db.commits
      && StateRoot(base) == s.db.commits[s.db.branches[branch]].root
      && s' == s.(sessions := s.sessions[i := Session(branch, s.db.branches[branch], base, limit, [],
                                                      Start(base, limit))])
    case Edit(i, op) => i in s.sessions && s' == s.(sessions := s.sessions[i := Edited(s.sessions[i], op)])
    case StageOne(i, d) =>
      && i in s.sessions && d in s.sessions[i].ws.staged
      && s' == s.(db := StagedRow(s.db, d, s.sessions[i].ws.staged[d], s.now))
    case Publish(i, request, message, size, outcome) =>
      && i in s.sessions
      && PublishStep(s, WsPlan(s.db.repository, s.sessions[i], request, message, size),
                     FromSession(s.sessions[i]), outcome, s')
      && s'.sessions == (if outcome.Ok? then s.sessions - {i} else s.sessions)
      && s'.reverts == s.reverts
    case Abort(i) => i in s.sessions && s' == s.(sessions := s.sessions - {i})
    case PrepareRevert(i, branch, target, state, log, note) =>
      && branch in s.db.branches && s.db.branches[branch] in s.db.commits
      && target in s.db.commits && StateRoot(state) == s.db.commits[target].root && log != []
      && s' == s.(reverts := s.reverts[i := Reversal(target, state,
                                                     RevertPlan(s.db, branch, target, state, log, note))])
    case PublishRevert(i, size, outcome) =>
      && i in s.reverts
      && PublishStep(s, s.reverts[i].plan.(metadataBytes := size), FromRevert(s.reverts[i]), outcome, s')
      && s'.sessions == s.sessions && s'.reverts == s.reverts - {i}
    case Fork(name, at) => s' == s.(db := Forked(s.db, name, at).0)
    case BeginSweep(grace, marks, used) =>
      && s.sweep.None? && IsMarking(s.db.nodes, s.db.roots, marks, used)
      && s' == s.(sweep := Some(Sweep(used, grace, DoomedNodes(s.db.nodes, marks, s.now, grace), None)))
    case DropNode(id) =>
      && s.sweep.Some? && id in s.sweep.value.nodes
      && s' == s.(db := s.db.(nodes := s.db.nodes - {id}),
                  sweep := Some(s.sweep.value.(nodes := s.sweep.value.nodes - {id})))
    case ReadChunks =>
      && s.sweep.Some? && s.sweep.value.nodes == {} && s.sweep.value.chunks.None?
      && var w := s.sweep.value;
         s' == s.(sweep := Some(w.(chunks := Some(DoomedChunks(s.db.chunks, w.used, s.now, w.grace)))))
    case DropChunk(d) =>
      && s.sweep.Some? && s.sweep.value.chunks.Some? && d in s.sweep.value.chunks.value
      && s' == s.(db := s.db.(chunks := s.db.chunks - {d}),
                  sweep := Some(s.sweep.value.(chunks := Some(s.sweep.value.chunks.value - {d}))))
    case EndSweep => s.sweep.Some? && s' == s.(sweep := None)
  }

  function Init(repository: Str, now: nat): Sys {
    Sys(Bootstrap(EmptyDb(repository), now), map[], map[], None, now, [], map[])
  }

  // ---- the invariant ----

  ghost function NeedNodes(l: Logical): set<NodeId> {
    IdsOf(l.tree) + {KvDigest(l.kv)}
  }

  function NeedChunks(l: Logical): set<ChunkId> {
    ChunksOf(l.tree) + l.kv.Values
  }

  /** The root row of `l` is right, and everything `l` refers to is stored. */
  ghost predicate Holds(db: Db, l: Logical) {
    && StateRoot(l) in db.roots
    && db.roots[StateRoot(l)] == RootRow(IdOf(l.tree), KvDigest(l.kv))
    && NeedNodes(l) <= db.nodes.Keys
    && NeedChunks(l) <= db.chunks.Keys
  }

  ghost predicate IsRoot(db: Db, l: Logical) {
    StateRoot(l) in db.roots
  }

  /** No committed root dangles: each one is the root of a state, all of which is stored. */
  ghost predicate RootsOk(db: Db) {
    && (forall r | r in db.roots :: exists l :: StateRoot(l) == r)
    && (forall l | IsRoot(db, l) :: Holds(db, l))
  }

  ghost predicate Numbered(commits: map<CommitId, CommitRow>, k: nat) {
    exists c :: c in commits && commits[c].sequence == k
  }

  /** Sequence numbers are exactly 0, 1, ..., n - 1, one per commit. */
  ghost predicate SequencesOk(commits: map<CommitId, CommitRow>) {
    && (forall c | c in commits :: commits[c].sequence < |commits|)
    && (forall c, d | c in commits && d in commits && commits[c].sequence == commits[d].sequence :: c == d)
    && (forall k: nat | k < |commits| :: Numbered(commits, k))
  }

  function RowDigest(row: CommitRow): CommitId {
    CommitDigest(row.parent, row.root, row.request, AUTHOR, row.message, row.mutationCount)
  }

  ghost predicate CommitOk(db: Db, c: CommitId)
    requires c in db.commits
  {
    var row := db.commits[c];
    && c == RowDigest(row) && row.root in db.roots
    && match row.parent
       case None => row.sequence == 0 && row.root == EMPTY_ROOT
       case Some(p) =>
         && p in db.commits && db.commits[p].sequence < row.sequence
         && row.request in db.receipts && db.receipts[row.request].commit == c
  }

  ghost predicate ReceiptOk(db: Db, q: Str)
    requires q in db.receipts
  {
    var row := db.receipts[q];
    && row.commit in db.commits && db.commits[row.commit].request == q && db.commits[row.commit].root == row.root
    && db.commits[row.commit].parent == Some(row.previousHead) && db.commits[row.commit].sequence == row.sequence
  }

  ghost predicate CommitsOk(db: Db) {
    && SequencesOk(db.commits)
    && (forall c | c in db.commits :: CommitOk(db, c))
    && (forall q | q in db.receipts :: ReceiptOk(db, q))
    && (forall b | b in db.branches :: db.branches[b] in db.commits)
  }

  /** A session's state is what its operations make of its base. */
  ghost predicate Recorded(session: Session) {
    session.ws == Run(Start(session.base, session.limit), session.ops)
  }

  ghost predicate SessionOk(db: Db, session: Session) {
    && session.head in db.commits && db.commits[session.head].root == StateRoot(session.base)
    && RestsOn(session.base.tree, session.base.kv, session.ws)
    && StagingOk(session.ws)
    && Recorded(session)
  }

  /** A revert's target is a commit whose state the plan asks for. */
  ghost predicate RevertOk(db: Db, r: Reversal) {
    && r.plan.newNodes == map[] && r.plan.namespaceRoot == IdOf(r.state.tree) && r.plan.kv == r.state.kv
    && r.plan.expectedHead in db.commits && db.commits[r.plan.expectedHead].root == r.plan.baseRoot
    && r.target in db.commits && db.commits[r.target].root == StateRoot(r.state) && IsRoot(db, r.state)
  }

  /** A sweep in progress dooms nothing that any root needs. */
  ghost predicate SweepOk(db: Db, w: Sweep) {
    forall l | IsRoot(db, l) ::
      && NeedNodes(l) !! w.nodes
      && match w.chunks
         case None => NeedChunks(l) <= w.used
         case Some(doomed) => NeedChunks(l) !! doomed
  }

  ghost predicate EventOk(db: Db, e: Event) {
    && e.commit in db.commits && db.commits[e.commit].parent == Some(e.previous)
         && db.commits[e.commit].request == e.request
    && e.previous in db.commits && db.commits[e.previous].sequence < db.commits[e.commit].sequence
    && e.branch in db.branches && db.branches[e.branch] in db.commits
    && db.commits[e.commit].sequence <= db.commits[db.branches[e.branch]].sequence
  }

  /** On one branch, each publication starts at or after the previous one's commit. */
  ghost predicate HistoryOk(db: Db, history: seq<Event>) {
    && (forall e <- history :: EventOk(db, e))
    && (forall i, j | 0 <= i < j < |history| && history[i].branch == history[j].branch ::
          history[i].commit in db.commits && history[j].previous in db.commits
          && db.commits[history[i].commit].sequence <= db.commits[history[j].previous].sequence)
  }

  /** The plan asks for what its source holds, on top of the commit whose root it names as its base. */
  ghost predicate PlanFrom(db: Db, plan: Plan, source: Source) {
    && plan.expectedHead in db.commits && db.commits[plan.expectedHead].root == plan.baseRoot
    && match source
    case FromSession(session) =>
      && plan.baseRoot == StateRoot(session.base) && plan.namespaceRoot == IdOf(session.ws.tree)
      && plan.kv == session.ws.kv && plan.mutations == session.ws.mutations && Recorded(session)
    case FromRevert(r) =>
      && plan.namespaceRoot == IdOf(r.state.tree) && plan.kv == r.state.kv
      && r.target in db.commits && db.commits[r.target].root == StateRoot(r.state)
  }

  ghost predicate OriginOk(db: Db, q: Str, o: Origin)
    requires q in db.receipts
  {
    && db.receipts[q].commandHash == PlanHash(db.repository, o.plan) && db.receipts[q].root == PlanRoot(o.plan)
    && db.receipts[q].commit == PlanCommit(o.plan) && db.receipts[q].previousHead == o.plan.expectedHead
    && db.receipts[q].commit in db.commits
    && db.receipts[q].commit in db.logs && db.logs[db.receipts[q].commit] == o.plan.mutations
    && o.plan.request == q && PlanFrom(db, o.plan, o.source)
  }

  ghost predicate OriginsOk(db: Db, origins: map<Str, Origin>) {
    origins.Keys == db.receipts.Keys && forall q | q in origins :: OriginOk(db, q, origins[q])
  }

  ghost predicate Inv(s: Sys) {
    && RowsOk(s.db) && RootsOk(s.db) && CommitsOk(s.db)
    && (forall i | i in s.sessions :: SessionOk(s.db, s.sessions[i]))
    && (forall i | i in s.reverts :: RevertOk(s.db, s.reverts[i]))
    && (s.sweep.Some? ==> SweepOk(s.db, s.sweep.value))
    && HistoryOk(s.db, s.history)
    && OriginsOk(s.db, s.origins)
  }
}
