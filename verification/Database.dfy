/** The store's tables as maps, and one publication as a function on them. */
module Database {
  import opened Base
  import opened Canonical
  import opened State
  import opened Trees
  import opened Nodes
  import opened Chunks

  datatype NodeBody = DirBody(node: DirNode) | KvBody(kv: KvMap)

  /** Times are in seconds. */
  datatype NodeRow = NodeRow(body: NodeBody, createdAt: nat)
  datatype ChunkRow = ChunkRow(bytes: Str, createdAt: nat)
  datatype RootRow = RootRow(ns: NodeId, kv: NodeId)
  datatype CommitRow = CommitRow(parent: Option<CommitId>, root: RootId, request: Str, message: Option<Str>,
                                 mutationCount: nat, sequence: nat)
  datatype ReceiptRow = ReceiptRow(commandHash: Digest, commit: CommitId, root: RootId, previousHead: CommitId,
                                   sequence: nat)

  datatype Db = Db(
    repository: Str,
    nodes: map<NodeId, NodeRow>,
    chunks: map<ChunkId, ChunkRow>,
    roots: map<RootId, RootRow>,
    commits: map<CommitId, CommitRow>,
    logs: map<CommitId, seq<Mutation>>,
    branches: map<Str, CommitId>,
    receipts: map<Str, ReceiptRow>)

  /** A publication request. `metadataBytes` is the size of the serialised nodes and key-value map. */
  datatype Plan = Plan(
    branch: Str,
    request: Str,
    expectedHead: CommitId,
    baseRoot: RootId,
    namespaceRoot: NodeId,
    newNodes: NodeMap,
    kv: KvMap,
    mutations: seq<Mutation>,
    message: Option<Str>,
    metadataBytes: nat)

  datatype Receipt = Receipt(request: Str, replayed: bool, commit: CommitId, root: RootId, previousHead: CommitId,
                             sequence: nat, commandHash: Digest)

  /** Where a branch stands. */
  datatype HeadInfo = HeadInfo(head: CommitId, root: RootId, sequence: nat)

  /** `head`: a branch must exist, and its head must have its commit. */
  function HeadOf(db: Db, branch: Str): Result<HeadInfo> {
    if branch !in db.branches then Err(NotFound)
    else if db.branches[branch] !in db.commits then Err(Corruption)
    else
      var head := db.branches[branch];
      Ok(HeadInfo(head, db.commits[head].root, db.commits[head].sequence))
  }

  const MAX_PUBLICATION_METADATA_BYTES: nat := 8 * 1024 * 1024
  const MAX_PUBLICATION_MUTATIONS: nat := 10_000

  // ---- views of the tables ----

  function DirRows(nodes: map<NodeId, NodeRow>): NodeMap {
    map id | id in nodes && nodes[id].body.DirBody? :: nodes[id].body.node
  }

  function ChunkBodies(chunks: map<ChunkId, ChunkRow>): ChunkMap {
    map d | d in chunks :: chunks[d].bytes
  }

  function BodyDigest(body: NodeBody): NodeId {
    match body
    case DirBody(node) => DirDigest(node)
    case KvBody(kv) => KvDigest(kv)
  }

  /** Node rows sit under the digest of their body, and chunk rows under the digest of their bytes. */
  ghost predicate RowsOk(db: Db) {
    && (forall id | id in db.nodes :: BodyDigest(db.nodes[id].body) == id)
    && ChunksCoherent(ChunkBodies(db.chunks))
  }

  // ---- publication ----

  const AUTHOR := Ascii("embedded")

  function PlanRoot(plan: Plan): RootId {
    RootDigest(plan.namespaceRoot, KvDigest(plan.kv))
  }

  function PlanHash(repository: Str, plan: Plan): Digest {
    CommandHash(repository, plan.branch, plan.request, plan.baseRoot, plan.mutations)
  }

  /** The chunks a mutation names. */
  function MutationChunks(m: Mutation): set<ChunkId> {
    match m
    case WriteFile(_, _, content) => ChunksIn(content)
    case KvSet(_, _, chunk, _) => {chunk}
    case _ => {}
  }

  function Required(ms: seq<Mutation>): set<ChunkId> {
    if ms == [] then {} else MutationChunks(ms[0]) + Required(ms[1..])
  }

  /** The highest commit sequence, or zero when there are no commits. */
  ghost predicate IsHighest(commits: map<CommitId, CommitRow>, n: nat) {
    && (forall c | c in commits :: commits[c].sequence <= n)
    && (commits != map[] ==> exists c :: c in commits && commits[c].sequence == n)
    && (commits == map[] ==> n == 0)
  }

  function NewNodeRows(newNodes: NodeMap, now: nat): map<NodeId, NodeRow> {
    map id | id in newNodes :: NodeRow(DirBody(newNodes[id]), now)
  }

  function EmptyNodeRow(ns: NodeId, now: nat): map<NodeId, NodeRow> {
    if ns == EMPTY_ID then map[EMPTY_ID := NodeRow(DirBody(map[]), now)] else map[]
  }

  /** `write_state`: new nodes, the empty node when the root is empty, the key-value node, and the root. */
  function WriteState(db: Db, newNodes: NodeMap, kv: KvMap, ns: NodeId, root: RootId, now: nat): Db {
    db.(nodes := db.nodes + NewNodeRows(newNodes, now) + EmptyNodeRow(ns, now)
                 + map[KvDigest(kv) := NodeRow(KvBody(kv), now)],
        roots := db.roots[root := RootRow(ns, KvDigest(kv))])
  }

  function PlanCommit(plan: Plan): CommitId {
    CommitDigest(Some(plan.expectedHead), PlanRoot(plan), plan.request, AUTHOR, plan.message, |plan.mutations|)
  }

  function ReceiptOf(request: Str, row: ReceiptRow, replayed: bool): Receipt {
    Receipt(request, replayed, row.commit, row.root, row.previousHead, row.sequence, row.commandHash)
  }

  /** Why a publication is refused before anything is written, if it is. */
  function Refusal(db: Db, plan: Plan): Option<Error> {
    if plan.branch !in db.branches then Some(NotFound)
    else if db.branches[plan.branch] != plan.expectedHead then Some(HeadConflict)
    else if plan.expectedHead !in db.commits then Some(Corruption)
    else if !(Required(plan.mutations) <= db.chunks.Keys) then Some(Corruption)
    else if PlanCommit(plan) in db.commits then Some(AlreadyExists)
    else None
  }

  /** The tables after an accepted publication. */
  function Applied(db: Db, plan: Plan, sequence: nat, now: nat): Db {
    var root := PlanRoot(plan);
    var commit := PlanCommit(plan);
    WriteState(db, plan.newNodes, plan.kv, plan.namespaceRoot, root, now).(
      commits := db.commits[commit := CommitRow(Some(plan.expectedHead), root, plan.request, plan.message,
                                                |plan.mutations|, sequence)],
      logs := db.logs[commit := plan.mutations],
      branches := db.branches[plan.branch := commit],
      receipts := db.receipts[plan.request := ReceiptRow(PlanHash(db.repository, plan), commit, root,
                                                         plan.expectedHead, sequence)])
  }

  /**
   * `publish`: budget, idempotency by receipt, head compare-and-swap, staged-content check, then one write. Only an
   * applied publication changes a table.
   */
  ghost predicate Published(db: Db, plan: Plan, now: nat, db': Db, r: Result<Receipt>) {
    if |plan.mutations| > MAX_PUBLICATION_MUTATIONS || plan.metadataBytes > MAX_PUBLICATION_METADATA_BYTES then
      db' == db && r == Err(OverBudget)
    else if plan.request in db.receipts then
      && db' == db
      && r == if db.receipts[plan.request].commandHash == PlanHash(db.repository, plan)
              then Ok(ReceiptOf(plan.request, db.receipts[plan.request], true))
              else Err(RequestMismatch)
    else if Refusal(db, plan).Some? then
      db' == db && r == Err(Refusal(db, plan).value)
    else
      exists highest: nat :: IsHighest(db.commits, highest)
        && db' == Applied(db, plan, highest + 1, now)
        && r == Ok(ReceiptOf(plan.request, db'.receipts[plan.request], false))
  }

  // ---- the rows a publication writes ----

  lemma RowsAfterWrite(db: Db, newNodes: NodeMap, kv: KvMap, ns: NodeId, root: RootId, now: nat)
    requires RowsOk(db) && Coherent(newNodes)
    ensures RowsOk(WriteState(db, newNodes, kv, ns, root, now))
  {
    hide DirDigest, KvDigest, ChunksCoherent;
    var after := WriteState(db, newNodes, kv, ns, root, now);
    assert EMPTY_ID == DirDigest(map[]);
    forall id | id in after.nodes
      ensures BodyDigest(after.nodes[id].body) == id
    {
    }
  }

  lemma KeysAfterWrite(db: Db, newNodes: NodeMap, kv: KvMap, ns: NodeId, root: RootId, now: nat)
    ensures var after := WriteState(db, newNodes, kv, ns, root, now);
            && db.nodes.Keys + newNodes.Keys + {KvDigest(kv)} <= after.nodes.Keys
            && after.chunks == db.chunks && after.roots == db.roots[root := RootRow(ns, KvDigest(kv))]
            && after == db.(nodes := after.nodes, roots := after.roots)
  {
    hide DirDigest, KvDigest;
  }

  /** Directory rows stay directory rows while rows are only added or rewritten under their own digests. */
  lemma DirRowsGrow(db: Db, db': Db)
    requires RowsOk(db) && RowsOk(db') && db.nodes.Keys <= db'.nodes.Keys
    ensures DirRows(db.nodes).Keys <= DirRows(db'.nodes).Keys
  {
    hide DirDigest, KvDigest, ChunksCoherent;
    forall id | id in DirRows(db.nodes)
      ensures id in DirRows(db'.nodes)
    {
      var body := db'.nodes[id].body;
      assert BodyDigest(body) == id == DirDigest(db.nodes[id].body.node);
      if body.KvBody? {
        DirAndKvDigestsDiffer(db.nodes[id].body.node, body.kv);
      }
    }
  }

  // ---- request ids ----

  const AUTO := Ascii("auto")

  /** How a digest is rendered into a request id; nothing is known about it. */
  const Render: Digest -> Str

  /** The request id of a publication: the caller's, or one derived from the base root and the log. */
  function RequestFor(repository: Str, branch: Str, request: Option<Str>, base: RootId, ms: seq<Mutation>): Str {
    match request
    case Some(q) => q
    case None => Render(CommandHash(repository, branch, AUTO, base, ms))
  }

  /** The command hash of a plan binds all that makes it the same request for the same work. */
  lemma PlanHashBinds(repo: Str, p: Plan, repo': Str, q: Plan)
    ensures PlanHash(repo, p) == PlanHash(repo', q)
            <==> && repo == repo' && p.branch == q.branch && p.request == q.request && p.baseRoot == q.baseRoot
                 && p.mutations == q.mutations
  {
    hide CommandHash;
    if PlanHash(repo, p) == PlanHash(repo', q) {
      CommandHashInjective(repo, p.branch, p.request, p.baseRoot, p.mutations, repo', q.branch, q.request, q.baseRoot,
                           q.mutations);
    }
  }

  /** As far as rendering keeps digests apart, derived ids keep apart whatever differs in place, base or work. */
  lemma DerivedRequestsDiffer(repo: Str, branch: Str, base: RootId, ms: seq<Mutation>,
                              repo': Str, branch': Str, base': RootId, ms': seq<Mutation>)
    requires forall a, b :: Render(a) == Render(b) ==> a == b
    ensures RequestFor(repo, branch, None, base, ms) == RequestFor(repo', branch', None, base', ms')
            <==> repo == repo' && branch == branch' && base == base' && ms == ms'
  {
    hide CommandHash;
    if RequestFor(repo, branch, None, base, ms) == RequestFor(repo', branch', None, base', ms') {
      CommandHashInjective(repo, branch, AUTO, base, ms, repo', branch', AUTO, base', ms');
    }
  }

  // ---- bootstrap ----

  const MAIN := Ascii("main")
  const GENESIS := Ascii("genesis")
  const CREATED := Ascii("repository created")

  function EmptyDb(repository: Str): Db {
    Db(repository, map[], map[], map[], map[], map[], map[], map[])
  }

  const EMPTY_ROOT: RootId := RootDigest(EMPTY_ID, KvDigest(map[]))
  const GENESIS_COMMIT: CommitId := CommitDigest(None, EMPTY_ROOT, GENESIS, AUTHOR, Some(CREATED), 0)

  /** `ensure_repository`: the empty root and a genesis commit that `main` points at. */
  function Bootstrap(db: Db, now: nat): Db {
    if MAIN in db.branches then db
    else
      WriteState(db, map[], map[], EMPTY_ID, EMPTY_ROOT, now).(
        commits := db.commits[GENESIS_COMMIT := CommitRow(None, EMPTY_ROOT, GENESIS, Some(CREATED), 0, 0)],
        branches := db.branches[MAIN := GENESIS_COMMIT])
  }

  // ---- branches ----

  /** `branch_create`: a new name for an existing commit; a taken name is refused. */
  function Forked(db: Db, name: Str, at: CommitId): (Db, Result<()>) {
    if at !in db.commits then (db, Err(NotFound))
    else if name in db.branches then (db, Err(AlreadyExists))
    else (db.(branches := db.branches[name := at]), Ok(()))
  }
}
