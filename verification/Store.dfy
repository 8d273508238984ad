/** The store: reads through the resident tier, chunk staging, publication, branches and collection. */
module Store {
  import opened Base
  import opened Canonical
  import opened State
  import opened Trees
  import opened Nodes
  import opened Chunks
  import opened Database
  import opened Gc
  import opened Resident

  datatype GcReport = GcReport(chunksRemoved: nat, nodesRemoved: nat, bytesReclaimed: nat, keptWithinGrace: nat)

  /** Rows a sweep takes: unmarked, and at least as old as the grace period. */
  predicate Doomed(createdAt: nat, marked: bool, now: nat, grace: nat) {
    !marked && now - createdAt >= grace
  }

  function SweptNodes(nodes: NodeTable, marks: set<NodeId>, now: nat, grace: nat): NodeTable {
    map id | id in nodes && !Doomed(nodes[id].createdAt, id in marks, now, grace) :: nodes[id]
  }

  function SweptChunks(chunks: map<ChunkId, ChunkRow>, used: set<ChunkId>, now: nat, grace: nat): map<ChunkId,
                       ChunkRow> {
    map d | d in chunks && !Doomed(chunks[d].createdAt, d in used, now, grace) :: chunks[d]
  }

  /** The doomed rows outside `todo`. */
  ghost function Gone(times: map<Digest, nat>, keep: set<Digest>, now: nat, grace: nat,
                      todo: set<Digest>): set<Digest> {
    set id | id in times && id !in todo && Doomed(times[id], id in keep, now, grace)
  }

  /** The unmarked rows outside `todo` that are too young to take. */
  ghost function Young(times: map<Digest, nat>, keep: set<Digest>, now: nat, grace: nat,
                       todo: set<Digest>): set<Digest> {
    set id | id in times && id !in todo && id !in keep && !Doomed(times[id], id in keep, now, grace)
  }

  lemma SweepStep(times: map<Digest, nat>, keep: set<Digest>, now: nat, grace: nat, todo: set<Digest>, id: Digest)
    requires id in todo && id in times
    ensures var doomed := Doomed(times[id], id in keep, now, grace);
            var gone, young := Gone(times, keep, now, grace, todo), Young(times, keep, now, grace, todo);
            && id !in gone && id !in young
            && Gone(times, keep, now, grace, todo - {id}) == (if doomed then gone + {id} else gone)
            && Young(times, keep, now, grace, todo - {id}) == if id !in keep && !doomed then young + {id} else young
  {
  }

  ghost function NodeTimes(rows: NodeTable): map<Digest, nat> {
    map id | id in rows :: rows[id].createdAt
  }

  ghost function ChunkTimes(rows: map<ChunkId, ChunkRow>): map<Digest, nat> {
    map d | d in rows :: rows[d].createdAt
  }

  lemma NothingSwept(times: map<Digest, nat>, keep: set<Digest>, now: nat, grace: nat)
    ensures Gone(times, keep, now, grace, times.Keys) == {} == Young(times, keep, now, grace, times.Keys)
  {
  }

  /** The rows that were not marked. */
  ghost function Unmarked<V>(rows: map<Digest, V>, keep: set<Digest>): set<Digest> {
    set id | id in rows && id !in keep
  }

  lemma NodeSweepDone(rows: NodeTable, marks: set<NodeId>, now: nat, grace: nat)
    ensures var gone := Gone(NodeTimes(rows), marks, now, grace, {});
            var swept := SweptNodes(rows, marks, now, grace);
            && rows - gone == swept && |gone| == |rows| - |swept|
            && Young(NodeTimes(rows), marks, now, grace, {}) == Unmarked(swept, marks)
  {
    hide Doomed;
    var gone := Gone(NodeTimes(rows), marks, now, grace, {});
    var swept := SweptNodes(rows, marks, now, grace);
    assert forall id | id in rows :: NodeTimes(rows)[id] == rows[id].createdAt;
    assert rows - gone == swept;
    MinusSize(rows, gone);
  }

  lemma ChunkSweepDone(rows: map<ChunkId, ChunkRow>, used: set<ChunkId>, now: nat, grace: nat)
    ensures var gone := Gone(ChunkTimes(rows), used, now, grace, {});
            var swept := SweptChunks(rows, used, now, grace);
            && rows - gone == swept && |gone| == |rows| - |swept| && gone == rows.Keys - swept.Keys
            && Young(ChunkTimes(rows), used, now, grace, {}) == Unmarked(swept, used)
  {
    hide Doomed;
    var gone := Gone(ChunkTimes(rows), used, now, grace, {});
    var swept := SweptChunks(rows, used, now, grace);
    assert forall d | d in rows :: ChunkTimes(rows)[d] == rows[d].createdAt;
    assert rows - gone == swept;
    MinusSize(rows, gone);
  }

  /** Total length of a set of chunk bodies. */
  ghost function BytesOf(chunks: map<ChunkId, ChunkRow>, ids: set<ChunkId>): nat
    requires ids <= chunks.Keys
  {
    if ids == {} then 0
    else
      var d :| d in ids;
      |chunks[d].bytes| + BytesOf(chunks, ids - {d})
  }

  lemma {:induction false} BytesOfRemoves(chunks: map<ChunkId, ChunkRow>, ids: set<ChunkId>, d: ChunkId)
    requires ids <= chunks.Keys && d in ids
    ensures BytesOf(chunks, ids) == |chunks[d].bytes| + BytesOf(chunks, ids - {d})
    decreases |ids|
  {
    var x :| x in ids && BytesOf(chunks, ids) == |chunks[x].bytes| + BytesOf(chunks, ids - {x});
    if x != d {
      BytesOfRemoves(chunks, ids - {x}, d);
      BytesOfRemoves(chunks, ids - {d}, x);
      assert ids - {x} - {d} == ids - {d} - {x};
    }
  }

  lemma BytesOfAdds(chunks: map<ChunkId, ChunkRow>, ids: set<ChunkId>, d: ChunkId)
    requires ids <= chunks.Keys && d in chunks && d !in ids
    ensures BytesOf(chunks, ids + {d}) == |chunks[d].bytes| + BytesOf(chunks, ids)
  {
    BytesOfRemoves(chunks, ids + {d}, d);
    assert ids + {d} - {d} == ids;
  }

  lemma NoBytes(chunks: map<ChunkId, ChunkRow>)
    ensures BytesOf(chunks, {}) == 0
  {
  }

  lemma MinusTwice<K, V>(m: map<K, V>, s: set<K>, k: K)
    ensures m - s - {k} == m - (s + {k})
  {
  }

  function WithoutChunks(db: Db, gone: set<ChunkId>): Db {
    db.(chunks := db.chunks - gone)
  }

  lemma ChunkGone(db: Db, gone: set<ChunkId>, d: ChunkId)
    ensures var less := WithoutChunks(db, gone);
            less.(chunks := less.chunks - {d}) == WithoutChunks(db, gone + {d})
  {
    MinusTwice(db.chunks, gone, d);
  }

  lemma MinusSize<K, V>(m: map<K, V>, s: set<K>)
    requires s <= m.Keys
    ensures |m - s| == |m| - |s|
  {
    assert (m - s).Keys == m.Keys - s;
    assert |m - s| == |(m - s).Keys| && |m| == |m.Keys|;
  }

  /**
   * Key-value nodes are told apart from directories: the directories reachable from the roots stay within
   * a closed set that contains no key-value node.
   */
  ghost predicate RootsTyped(db: Db) {
    && (forall r | r in db.roots :: IsKvRow(db.nodes, db.roots[r].kv))
    && (exists s: set<NodeId> :: SeparatesKv(db, s))
  }

  ghost predicate SeparatesKv(db: Db, s: set<NodeId>) {
    Closed(db.nodes, s) && forall r | r in db.roots :: db.roots[r].ns in s && db.roots[r].kv !in s
  }

  lemma ChunksOfDirsUnion(nodes: NodeTable, a: set<NodeId>, b: set<NodeId>)
    ensures ChunksOfDirs(nodes, a + b) == ChunksOfDirs(nodes, a) + ChunksOfDirs(nodes, b)
  {
    hide DirChunks;
  }

  lemma KvRowIsLeaf(nodes: NodeTable, marks: set<NodeId>, kv: NodeId)
    requires IsKvRow(nodes, kv)
    ensures Closed(nodes, marks) ==> Closed(nodes, marks + {kv})
    ensures ChunksOfDirs(nodes, marks + {kv}) == ChunksOfDirs(nodes, marks)
  {
    ChunksOfDirsAdds(nodes, marks, kv);
  }

  ghost function Restrict(roots: map<RootId, RootRow>, done: set<RootId>): map<RootId, RootRow> {
    map r | r in roots && r in done :: roots[r]
  }

  ghost function KvIds(roots: map<RootId, RootRow>): set<NodeId> {
    set r | r in roots :: roots[r].kv
  }

  lemma KvChunksAdds(nodes: NodeTable, roots: map<RootId, RootRow>, done: set<RootId>, r: RootId)
    requires r in roots && IsKvRow(nodes, roots[r].kv)
    ensures KvChunks(nodes, Restrict(roots, done + {r}))
         == KvChunks(nodes, Restrict(roots, done)) + nodes[roots[r].kv].body.kv.Values
    ensures RootIds(Restrict(roots, done + {r})) == RootIds(Restrict(roots, done)) + {roots[r].ns, roots[r].kv}
    ensures KvIds(Restrict(roots, done + {r})) == KvIds(Restrict(roots, done)) + {roots[r].kv}
  {
    var less, more := Restrict(roots, done), Restrict(roots, done + {r});
    assert r in more && more[r] == roots[r];
    assert forall x | x in less :: x in more && more[x] == less[x];
    assert forall x | x in more && x != r :: x in less && more[x] == less[x];
  }

  // ---- batches of node reads ----

  /** The ids of a batch that a cache holds, and those it lacks, in order. */
  function Cached(ids: seq<NodeId>, cache: NodeMap): seq<NodeId> {
    if ids == [] then []
    else
      var last := ids[|ids| - 1];
      Cached(ids[..|ids| - 1], cache) + if last in cache then [last] else []
  }

  function Missing(ids: seq<NodeId>, cache: NodeMap): seq<NodeId> {
    if ids == [] then []
    else
      var last := ids[|ids| - 1];
      Missing(ids[..|ids| - 1], cache) + if last in cache then [] else [last]
  }

  predicate NoRepeats(ids: seq<NodeId>) {
    forall i, j | 0 <= i < j < |ids| :: ids[i] != ids[j]
  }

  /** One node for each id, each under its own digest. */
  predicate Answers(out: seq<(NodeId, DirNode)>, ids: seq<NodeId>) {
    |out| == |ids| && forall k | 0 <= k < |out| :: out[k].0 == ids[k] && DirDigest(out[k].1) == ids[k]
  }

  lemma NoAnswers()
    ensures Answers([], [])
  {
  }

  lemma NoneRepeat()
    ensures NoRepeats([])
  {
  }

  lemma AnswersMore(out: seq<(NodeId, DirNode)>, ids: seq<NodeId>, id: NodeId, node: DirNode)
    requires Answers(out, ids) && DirDigest(node) == id
    ensures Answers(out + [(id, node)], ids + [id])
  {
    hide DirDigest;
  }

  lemma TakeOne(ids: seq<NodeId>, i: nat, cache: NodeMap)
    requires i < |ids|
    ensures Missing(ids[..i + 1], cache)
         == if ids[i] in cache then Missing(ids[..i], cache) else Missing(ids[..i], cache) + [ids[i]]
    ensures Cached(ids[..i + 1], cache)
         == if ids[i] in cache then Cached(ids[..i], cache) + [ids[i]] else Cached(ids[..i], cache)
  {
    assert ids[..i + 1][..i] == ids[..i];
  }

  lemma CachedDigest(cache: NodeMap, id: NodeId)
    requires Coherent(cache) && id in cache
    ensures DirDigest(cache[id]) == id
  {
    hide DirDigest;
  }

  /** An id that was fetched and is not left was handed out before. */
  lemma NotFetched(wanted: seq<NodeId>, j: nat, id: NodeId)
    requires j < |wanted| && wanted[j] == id
    ensures id in wanted[..j] ==> !NoRepeats(wanted)
  {
    if id in wanted[..j] {
      var i :| 0 <= i < j && wanted[..j][i] == id;
      assert wanted[i] == wanted[j];
    }
  }

  lemma NodeRowDigest(db: Db, id: NodeId)
    requires RowsOk(db) && id in db.nodes
    ensures BodyDigest(db.nodes[id].body) == id
  {
    hide DirDigest, KvDigest;
  }

  lemma DirRowDigest(db: Db, id: NodeId)
    requires RowsOk(db) && id in DirRows(db.nodes)
    ensures DirDigest(DirRows(db.nodes)[id]) == id
  {
    hide DirDigest, KvDigest;
    NodeRowDigest(db, id);
  }

  lemma OneId(id: NodeId, cache: NodeMap)
    ensures Missing([id], cache) == (if id in cache then [] else [id])
              && Cached([id], cache) == if id in cache then [id] else []
  {
    assert [id][..0] == [];
  }

  class Store {
    var db: Db
    const resident: ResidentNodes

    ghost predicate Valid()
      reads this, resident
    {
      RowsOk(db) && resident.Valid()
    }

    /** A store over existing tables, with an empty resident tier. */
    constructor (db: Db, capacity: nat)
      requires RowsOk(db)
      ensures Valid() && this.db == db && fresh(resident) && resident.nodes == map[]
    {
      this.db := db;
      resident := new ResidentNodes(capacity);
    }

    // ---- reads ----

    /** The first half of `dir_nodes`: what the resident tier answers, and the ids it lacks. */
    method AskResident(ids: seq<NodeId>) returns (out: seq<(NodeId, DirNode)>, wanted: seq<NodeId>)
      requires Valid()
      modifies resident`hits, resident`misses
      ensures Valid() && wanted == Missing(ids, resident.nodes) && Answers(out, Cached(ids, resident.nodes))
    {
      hide DirDigest, RowsOk, Lists, Coherent, Answers;
      ghost var cache := resident.nodes;
      out, wanted := [], [];
      assert ids[..0] == [];
      NoAnswers();
      for i := 0 to |ids|
        invariant Valid() && wanted == Missing(ids[..i], cache) && Answers(out, Cached(ids[..i], cache))
      {
        TakeOne(ids, i, cache);
        var found := resident.Get(ids[i]);
        match found {
          case Some(node) =>
            CachedDigest(cache, ids[i]);
            AnswersMore(out, Cached(ids[..i], cache), ids[i], node);
            out := out + [(ids[i], node)];
          case None => wanted := wanted + [ids[i]];
        }
      }
      assert ids[..|ids|] == ids;
    }

    /** The second half: one row for each id, handed out once, verified and cached. */
    method FetchRows(wanted: seq<NodeId>) returns (r: Result<seq<(NodeId, DirNode)>>)
      requires Valid()
      modifies resident
      ensures Valid()
      ensures r.Ok? <==> (forall id <- wanted :: id in DirRows(db.nodes)) && NoRepeats(wanted)
      ensures r.Ok? ==> Answers(r.value, wanted)
    {
      hide DirDigest, RowsOk, Lists, Coherent, Answers;
      var fetched := map id | id in db.nodes && id in wanted :: db.nodes[id].body;
      var out: seq<(NodeId, DirNode)> := [];
      NoAnswers();
      for j := 0 to |wanted|
        invariant Valid() && Answers(out, wanted[..j])
        invariant fetched == map id | id in db.nodes && id in wanted && id !in wanted[..j] :: db.nodes[id].body
        invariant (forall id <- wanted[..j] :: id in DirRows(db.nodes)) && NoRepeats(wanted[..j])
      {
        var id := wanted[j];
        assert id in wanted && wanted[..j + 1] == wanted[..j] + [id];
        if id !in fetched {
          NotFetched(wanted, j, id);
          return Err(NotFound);
        }
        match fetched[id] {
          case KvBody(_) => return Err(Corruption);
          case DirBody(node) =>
            NodeRowDigest(db, id);
            if DirDigest(node) != id {
              return Err(Corruption);
            }
            resident.Insert(id, node);
            AnswersMore(out, wanted[..j], id, node);
            out := out + [(id, node)];
            fetched := fetched - {id};
        }
      }
      assert wanted[..|wanted|] == wanted;
      r := Ok(out);
    }

    /**
     * `dir_nodes`: the resident tier first, then the rows of the ids it lacks. A fetched row is handed out once,
     * so the batch succeeds exactly when every id the tier lacks has a row and none of these is asked for twice.
     */
    method DirNodes(ids: seq<NodeId>) returns (r: Result<seq<(NodeId, DirNode)>>)
      requires Valid()
      modifies resident
      ensures Valid()
      ensures var missing := Missing(ids, old(resident.nodes));
              r.Ok? <==> (forall id <- missing :: id in DirRows(db.nodes)) && NoRepeats(missing)
      ensures r.Ok? ==> Answers(r.value, Cached(ids, old(resident.nodes)) + Missing(ids, old(resident.nodes)))
    {
      hide DirDigest, RowsOk, Lists, Coherent, DirRows, NoRepeats;
      var out, wanted := AskResident(ids);
      if wanted == [] {
        assert Cached(ids, old(resident.nodes)) + [] == Cached(ids, old(resident.nodes));
        NoneRepeat();
        return Ok(out);
      }
      r := FetchRows(wanted);
      if r.Ok? {
        r := Ok(out + r.value);
      }
    }

    /** `dir_nodes` for one id, as the kernel calls it. */
    method DirNode(id: NodeId) returns (r: Result<DirNode>)
      requires Valid()
      modifies resident
      ensures Valid()
      ensures r.Ok? ==> DirDigest(r.value) == id
      ensures id in DirRows(db.nodes) ==> r == Ok(DirRows(db.nodes)[id])
    {
      hide DirDigest, DirRows;
      ghost var cache := resident.nodes;
      OneId(id, cache);
      var all := DirNodes([id]);
      if all.Err? {
        return Err(all.error);
      }
      r := Ok(all.value[0].1);
      if id in DirRows(db.nodes) {
        DirRowDigest(db, id);
        DirDigestInjective(r.value, DirRows(db.nodes)[id]);
      }
    }

    /** Forget the resident tier. */
    method ClearResidentCache()
      requires Valid()
      modifies resident
      ensures Valid()
    {
      resident.Clear();
    }

    method FetchChunk(d: ChunkId) returns (r: Result<Str>)
      ensures r == if d in db.chunks then Ok(db.chunks[d].bytes) else Err(NotFound)
    {
      if d !in db.chunks {
        return Err(NotFound);
      }
      return Ok(db.chunks[d].bytes);
    }

    /** `load_root`: resolve a state root and re-derive it from what was loaded. */
    method LoadRoot(root: RootId) returns (r: Result<(NodeId, KvMap)>)
      ensures r.Ok? ==> RootDigest(r.value.0, KvDigest(r.value.1)) == root
      ensures root in db.roots && IsKvRow(db.nodes, db.roots[root].kv)
              && RootDigest(db.roots[root].ns, KvDigest(db.nodes[db.roots[root].kv].body.kv)) == root
              ==> r == Ok((db.roots[root].ns, db.nodes[db.roots[root].kv].body.kv))
    {
      if root !in db.roots {
        return Err(NotFound);
      }
      var row := db.roots[root];
      if row.kv !in db.nodes || !db.nodes[row.kv].body.KvBody? {
        return Err(Corruption);
      }
      var kv := db.nodes[row.kv].body.kv;
      if RootDigest(row.ns, KvDigest(kv)) != root {
        return Err(Corruption);
      }
      return Ok((row.ns, kv));
    }

    // ---- writes ----

    /** One iteration of `stage_chunks`: outside every lock and transaction. */
    method StageChunk(d: ChunkId, bytes: Str, now: nat)
      requires Valid() && ChunkDigest(bytes) == d
      modifies this`db
      ensures Valid() && db == old(db).(chunks := old(db).chunks[d := ChunkRow(bytes, now)])
    {
      hide DirDigest, KvDigest, ChunkDigest;
      var before := db;
      db := db.(chunks := db.chunks[d := ChunkRow(bytes, now)]);
      assert ChunkBodies(db.chunks) == ChunkBodies(before.chunks)[d := bytes];
    }

    /** `head`. */
    method Head(branch: Str) returns (r: Result<HeadInfo>)
      ensures r == HeadOf(db, branch)
    {
      if branch !in db.branches {
        return Err(NotFound);
      }
      var head := db.branches[branch];
      if head !in db.commits {
        return Err(Corruption);
      }
      var row := db.commits[head];
      r := Ok(HeadInfo(head, row.root, row.sequence));
    }

    /** `ensure_repository`: create the genesis commit and the `main` branch, once, and report where `main` stands. */
    method EnsureRepository(now: nat) returns (r: Result<HeadInfo>)
      modifies this`db
      ensures db == Bootstrap(old(db), now) && r == HeadOf(db, MAIN)
    {
      hide KvDigest, DirDigest, RootDigest, CommitDigest, WriteState;
      if MAIN in db.branches {
        r := Head(MAIN);
        return;
      }
      var root := RootDigest(EMPTY_ID, KvDigest(map[]));
      var commit := CommitDigest(None, root, GENESIS, AUTHOR, Some(CREATED), 0);
      db := WriteState(db, map[], map[], EMPTY_ID, root, now).(
        commits := db.commits[commit := CommitRow(None, root, GENESIS, Some(CREATED), 0, 0)],
        branches := db.branches[MAIN := commit]);
      r := Ok(HeadInfo(commit, root, 0));
    }

    /** The highest commit sequence, by a scan of the commits. */
    method HighestSequence() returns (n: nat)
      ensures IsHighest(db.commits, n)
    {
      n := 0;
      var todo := db.commits.Keys;
      ghost var seen: set<CommitId> := {};
      while todo != {}
        invariant seen + todo == db.commits.Keys && seen !! todo
        invariant forall c | c in seen :: db.commits[c].sequence <= n
        invariant seen != {} ==> exists c :: c in seen && db.commits[c].sequence == n
        invariant seen == {} ==> n == 0
      {
        var c :| c in todo;
        if db.commits[c].sequence > n {
          n := db.commits[c].sequence;
        }
        todo := todo - {c};
        seen := seen + {c};
        assert c in seen;
      }
    }

    /** The chunks the mutation log names. */
    method RequiredChunks(ms: seq<Mutation>) returns (required: set<ChunkId>)
      ensures required == Required(ms)
    {
      required := {};
      for i := 0 to |ms|
        invariant required + Required(ms[i..]) == Required(ms)
      {
        assert ms[i..][0] == ms[i] && ms[i..][1..] == ms[i + 1..];
        match ms[i]
        case WriteFile(_, _, content) => required := required + ChunksIn(content);
        case KvSet(_, _, chunk, _) => required := required + {chunk};
        case _ =>
      }
      assert ms[|ms|..] == [];
    }

    /** `publish`: one atomic step under the publish lock. */
    method Publish(plan: Plan, now: nat) returns (r: Result<Receipt>)
      modifies this`db
      ensures Published(old(db), plan, now, db, r)
    {
      hide CommandHash, KvDigest, RootDigest, CommitDigest, Required, WriteState;
      if |plan.mutations| > MAX_PUBLICATION_MUTATIONS || plan.metadataBytes > MAX_PUBLICATION_METADATA_BYTES {
        return Err(OverBudget);
      }
      var commandHash := ComputeCommandHash(db.repository, plan.branch, plan.request, plan.baseRoot, plan.mutations);
      if plan.request in db.receipts {
        var existing := db.receipts[plan.request];
        if existing.commandHash == commandHash {
          return Ok(ReceiptOf(plan.request, existing, true));
        }
        return Err(RequestMismatch);
      }
      if plan.branch !in db.branches {
        return Err(NotFound);
      }
      var actualHead := db.branches[plan.branch];
      if actualHead != plan.expectedHead {
        return Err(HeadConflict);
      }
      if actualHead !in db.commits {
        return Err(Corruption);
      }
      var required := RequiredChunks(plan.mutations);
      if !(required <= db.chunks.Keys) {
        return Err(Corruption);
      }
      var kvNode := ComputeKvDigest(plan.kv);
      var newRoot := RootDigest(plan.namespaceRoot, kvNode);
      var highest := HighestSequence();
      var commit := ComputeCommitDigest(Some(actualHead), newRoot, plan.request, AUTHOR, plan.message,
          |plan.mutations|);
      if commit in db.commits {
        return Err(AlreadyExists);
      }
      var row := ReceiptRow(commandHash, commit, newRoot, actualHead, highest + 1);
      db := WriteState(db, plan.newNodes, plan.kv, plan.namespaceRoot, newRoot, now).(
        commits := db.commits[commit := CommitRow(Some(actualHead), newRoot, plan.request, plan.message,
            |plan.mutations|, highest + 1)],
        logs := db.logs[commit := plan.mutations],
        branches := db.branches[plan.branch := commit],
        receipts := db.receipts[plan.request := row]);
      r := Ok(ReceiptOf(plan.request, row, false));
    }

    method BranchCreate(name: Str, at: CommitId) returns (r: Result<()>)
      modifies this`db
      ensures (db, r) == Forked(old(db), name, at)
    {
      if at !in db.commits {
        return Err(NotFound);
      }
      if name in db.branches {
        return Err(AlreadyExists);
      }
      db := db.(branches := db.branches[name := at]);
      r := Ok(());
    }

    // ---- collection ----

    /** Mark what one state root reaches. A key-value node met before was counted before. */
    method MarkRoot(row: RootRow, marks: set<NodeId>, used: set<ChunkId>,
                    ghost dirs: set<NodeId>, ghost kvs: set<NodeId>, ghost kvUsed: set<ChunkId>)
      returns (marks': set<NodeId>, used': set<ChunkId>)
      requires Closed(db.nodes, marks) && IsKvRow(db.nodes, row.kv)
      requires Closed(db.nodes, dirs) && row.ns in dirs && row.kv !in dirs && kvs <= marks <= dirs + kvs
      requires used == ChunksOfDirs(db.nodes, marks) + kvUsed
      requires row.kv in kvs ==> db.nodes[row.kv].body.kv.Values <= kvUsed
      ensures IsReach(db.nodes, marks + {row.ns, row.kv}, marks')
      ensures marks' <= dirs + kvs + {row.kv}
      ensures used' == ChunksOfDirs(db.nodes, marks') + (kvUsed + db.nodes[row.kv].body.kv.Values)
    {
      hide Children, DirChunks, ChunksOfDirs;
      ghost var nodes := db.nodes;
      marks', used' := WalkTree(db.nodes, row.ns, marks, used);
      WalkStays(nodes, marks, row.ns, marks', dirs, kvs);
      ChunksOfDirsUnion(nodes, marks, marks' - marks);
      assert marks + (marks' - marks) == marks';
      KvRowIsLeaf(nodes, marks', row.kv);
      if row.kv !in marks' {
        marks' := marks' + {row.kv};
        used' := used' + db.nodes[row.kv].body.kv.Values;
      }
    }

    /** The marking half of `gc`, sharing one set of marks across all roots. */
    method Mark() returns (marks: set<NodeId>, used: set<ChunkId>)
      requires RootsTyped(db)
      ensures IsMarking(db.nodes, db.roots, marks, used)
    {
      hide Children, DirChunks, ChunksOfDirs, KvChunks, RootIds, KvIds, Restrict;
      marks, used := {}, {};
      ghost var nodes, roots := db.nodes, db.roots;
      NoMarksNoChunks(nodes);
      NoRoots(nodes, roots);
      var todo := db.roots.Keys;
      ghost var done: set<RootId> := {};
      ghost var dirs: set<NodeId> :| SeparatesKv(db, dirs);
      ghost var sofar := Restrict(roots, {});
      while todo != {}
        invariant done + todo == roots.Keys && done !! todo && sofar == Restrict(roots, done)
        invariant IsReach(nodes, RootIds(sofar), marks)
        invariant KvIds(sofar) <= marks <= dirs + KvIds(sofar)
        invariant used == ChunksOfDirs(nodes, marks) + KvChunks(nodes, sofar)
      {
        var r :| r in todo;
        var row := db.roots[r];
        ghost var before := marks;
        KvChunksAdds(nodes, roots, done, r);
        KvAlreadyCounted(nodes, roots, done, r);
        marks, used := MarkRoot(row, marks, used, dirs, KvIds(sofar), KvChunks(nodes, sofar));
        ReachAdds(nodes, RootIds(sofar), {row.ns, row.kv}, before, marks);
        assert row.kv in marks;
        todo := todo - {r};
        done := done + {r};
        sofar := Restrict(roots, done);
      }
      assert done == roots.Keys;
    }

    method DeleteNode(id: NodeId)
      modifies this`db
      ensures db == old(db).(nodes := old(db).nodes - {id})
    {
      db := db.(nodes := db.nodes - {id});
    }

    method DeleteChunk(d: ChunkId)
      modifies this`db
      ensures db == old(db).(chunks := old(db).chunks - {d})
    {
      db := db.(chunks := db.chunks - {d});
    }

    method SweepNodes(marks: set<NodeId>, now: nat, grace: nat) returns (removed: nat, kept: nat)
      modifies this`db
      ensures db == old(db).(nodes := SweptNodes(old(db).nodes, marks, now, grace))
      ensures removed == |old(db).nodes| - |db.nodes|
      ensures kept == |Unmarked(db.nodes, marks)|
    {
      ghost var before := db;
      var rows := db.nodes;
      var todo := rows.Keys;
      ghost var times := NodeTimes(rows);
      ghost var gone := Gone(times, marks, now, grace, todo);
      assert times.Keys == rows.Keys;
      NothingSwept(times, marks, now, grace);
      hide Gone, Young, SweptNodes, Unmarked;
      removed, kept := 0, 0;
      while todo != {}
        invariant todo <= rows.Keys
        invariant gone == Gone(times, marks, now, grace, todo)
        invariant db == before.(nodes := rows - gone)
        invariant removed == |gone| && kept == |Young(times, marks, now, grace, todo)|
      {
        var id :| id in todo;
        SweepStep(times, marks, now, grace, todo, id);
        todo := todo - {id};
        if id !in marks {
          if now - rows[id].createdAt < grace {
            kept := kept + 1;
          } else {
            DeleteNode(id);
            MinusTwice(rows, gone, id);
            gone := gone + {id};
            removed := removed + 1;
          }
        }
      }
      NodeSweepDone(rows, marks, now, grace);
    }

    method SweepChunks(used: set<ChunkId>, now: nat, grace: nat) returns (removed: nat, kept: nat, bytes: nat)
      modifies this`db
      ensures db == old(db).(chunks := SweptChunks(old(db).chunks, used, now, grace))
      ensures removed == |old(db).chunks| - |db.chunks|
      ensures kept == |Unmarked(db.chunks, used)|
      ensures bytes == BytesOf(old(db).chunks, old(db).chunks.Keys - db.chunks.Keys)
    {
      hide Gone, Young, SweptChunks, BytesOf, ChunkTimes, Unmarked;
      ChunkSweepDone(db.chunks, used, now, grace);
      removed, kept, bytes := SweepChunkRows(used, now, grace);
    }

    /** The loop over the chunk rows. */
    method SweepChunkRows(used: set<ChunkId>, now: nat, grace: nat) returns (removed: nat, kept: nat, bytes: nat)
      modifies this`db
      ensures var gone := Gone(ChunkTimes(old(db).chunks), used, now, grace, {});
              && db == WithoutChunks(old(db), gone)
              && removed == |gone| && kept == |Young(ChunkTimes(old(db).chunks), used, now, grace, {})|
              && gone <= old(db).chunks.Keys && bytes == BytesOf(old(db).chunks, gone)
    {
      ghost var before := db;
      var rows := db.chunks;
      var todo := rows.Keys;
      ghost var times := ChunkTimes(rows);
      ghost var gone := Gone(times, used, now, grace, todo);
      assert times.Keys == rows.Keys && forall d | d in rows :: times[d] == rows[d].createdAt;
      NothingSwept(times, used, now, grace);
      NoBytes(rows);
      assert WithoutChunks(db, {}) == db;
      hide Gone, Young, BytesOf, ChunkTimes, WithoutChunks;
      removed, kept, bytes := 0, 0, 0;
      while todo != {}
        invariant todo <= rows.Keys && gone <= rows.Keys
        invariant gone == Gone(times, used, now, grace, todo)
        invariant db == WithoutChunks(before, gone)
        invariant removed == |gone| && kept == |Young(times, used, now, grace, todo)|
        invariant bytes == BytesOf(rows, gone)
      {
        var d :| d in todo;
        SweepStep(times, used, now, grace, todo, d);
        todo := todo - {d};
        if d !in used {
          if now - rows[d].createdAt < grace {
            kept := kept + 1;
          } else {
            BytesOfAdds(rows, gone, d);
            DeleteChunk(d);
            ChunkGone(before, gone, d);
            gone := gone + {d};
            removed := removed + 1;
            bytes := bytes + |rows[d].bytes|;
          }
        }
      }
    }

    /** `gc`: mark from every root, then remove what is unmarked and at least as old as the grace period. */
    method Gc(grace: nat, now: nat) returns (report: GcReport, ghost marks: set<NodeId>, ghost used: set<ChunkId>)
      requires RootsTyped(db)
      modifies this`db
      ensures IsMarking(old(db).nodes, old(db).roots, marks, used)
      ensures db == old(db).(nodes := SweptNodes(old(db).nodes, marks, now, grace),
                             chunks := SweptChunks(old(db).chunks, used, now, grace))
      ensures report.nodesRemoved == |old(db).nodes| - |db.nodes|
      ensures report.chunksRemoved == |old(db).chunks| - |db.chunks|
      ensures report.bytesReclaimed == BytesOf(old(db).chunks, old(db).chunks.Keys - db.chunks.Keys)
      ensures report.keptWithinGrace ==
              |Unmarked(db.nodes, marks)| + |Unmarked(db.chunks, used)|
    {
      var m, u := Mark();
      marks, used := m, u;
      var nodesRemoved, nodesKept := SweepNodes(m, now, grace);
      var chunksRemoved, chunksKept, bytes := SweepChunks(u, now, grace);
      report := GcReport(chunksRemoved, nodesRemoved, bytes, nodesKept + chunksKept);
    }
  }

  lemma NoRoots(nodes: NodeTable, roots: map<RootId, RootRow>)
    ensures var none := Restrict(roots, {});
            RootIds(none) == {} && KvIds(none) == {} && KvChunks(nodes, none) == {}
    ensures IsReach(nodes, {}, {})
    ensures Restrict(roots, roots.Keys) == roots
  {
  }

  /** Extending a reachable set by more starting points. */
  lemma ReachAdds(nodes: NodeTable, from: set<NodeId>, more: set<NodeId>, marks: set<NodeId>, marks': set<NodeId>)
    requires IsReach(nodes, from, marks) && IsReach(nodes, marks + more, marks')
    ensures IsReach(nodes, from + more, marks')
  {
    hide Children;
  }

  lemma WalkStays(nodes: NodeTable, before: set<NodeId>, root: NodeId, marks: set<NodeId>, dirs: set<NodeId>,
                  kvs: set<NodeId>)
    requires IsReach(nodes, before + {root}, marks)
    requires Closed(nodes, dirs) && root in dirs && before <= dirs + kvs && kvs <= before && Closed(nodes, before)
    ensures marks <= dirs + kvs
  {
    assert Closed(nodes, dirs + before);
  }

  lemma KvAlreadyCounted(nodes: NodeTable, roots: map<RootId, RootRow>, done: set<RootId>, r: RootId)
    requires r in roots && IsKvRow(nodes, roots[r].kv)
    ensures roots[r].kv in KvIds(Restrict(roots, done))
            ==> nodes[roots[r].kv].body.kv.Values <= KvChunks(nodes, Restrict(roots, done))
  {
    if roots[r].kv in KvIds(Restrict(roots, done)) {
      var q :| q in Restrict(roots, done) && roots[q].kv == roots[r].kv;
    }
  }
}
