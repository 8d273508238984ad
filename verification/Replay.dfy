/**
 * Replay: the mutation log together with the base root determines the new root. This is what makes it
 * sound to answer a repeated request from its stored receipt.
 */
module Replay {
  import opened Base
  import opened Paths
  import opened Canonical
  import opened State
  import opened Trees
  import opened TreeOps
  import opened Nodes
  import opened Chunks
  import opened Database
  import opened WorkspaceSpec
  import opened Links
  import opened LinkGroups
  import opened LinkInvariant

  /** The logical state a log acts on. */
  datatype Logical = Logical(tree: Tree, kv: KvMap)

  function LogicalOf(ws: WsState): Logical {
    Logical(ws.tree, ws.kv)
  }

  // ---- acting out a log ----

  function Placed(s: Logical, r: Result<Tree>): Logical {
    if r.Ok? then s.(tree := r.value) else s
  }

  /** The file a logged write leaves: metadata and links of the file that was there. */
  function LoggedFile(there: Option<Node>, size: nat, content: seq<Extent>): Node {
    FileN(if there.Some? && there.value.FileN? then there.value.meta else FILE_META, size, content,
          if there.Some? then LinksOf(there.value) else [])
  }

  function ReplayUnlink(s: Logical, p: Path): Logical {
    match NodeAt(s.tree, p)
    case None => s
    case Some(n) =>
      match Remove(s.tree, p)
      case Err(_) => s
      case Ok(t) =>
        var remaining := Without(LinksOf(n), p);
        if remaining == [] || !n.FileN? then s.(tree := t)
        else Placed(s, InsertAll(t, remaining, GroupFile(remaining, n)))
  }

  function ReplayRename(s: Logical, from: Path, to: Path): Logical {
    match NodeAt(s.tree, from)
    case None => s
    case Some(n) =>
      match Insert(s.tree, to, n)
      case Err(_) => s
      case Ok(t) => Placed(s, Remove(t, from))
  }

  /** The effect of one logged mutation, from the log alone. */
  function Replayed(s: Logical, m: Mutation): Logical {
    match m
    case MkDir(p) => Placed(s, Insert(s.tree, p, FRESH_DIR))
    case WriteFile(p, size, content) =>
      var there := NodeAt(s.tree, p);
      Placed(s, InsertAll(s.tree, WriteTargets(there, p), LoggedFile(there, size, content)))
    case Unlink(p) => ReplayUnlink(s, p)
    case RmDir(p) => Placed(s, Remove(s.tree, p))
    case Rename(from, to) => ReplayRename(s, from, to)
    case Symlink(p, target) => Placed(s, Insert(s.tree, p, SymN(FILE_META, target)))
    case SetMeta(p, mode, uid, gid) =>
      var there := NodeAt(s.tree, p);
      if there.None? then s else Placed(s, Insert(s.tree, p, WithMeta(there.value, Meta(mode, uid, gid))))
    case Link(existing, extra) =>
      var there := NodeAt(s.tree, existing);
      if there.None? || !there.value.FileN? then s
      else
        var group := Joining(there.value, existing, extra);
        Placed(s, InsertAll(s.tree, group, GroupFile(group, there.value)))
    case KvSet(ns, key, chunk, _) => s.(kv := s.kv[(ns, key) := chunk])
    case KvDelete(ns, key) => s.(kv := s.kv - {(ns, key)})
  }

  function ReplayAll(s: Logical, ms: seq<Mutation>): Logical
    decreases |ms|
  {
    if ms == [] then s else ReplayAll(Replayed(s, ms[0]), ms[1..])
  }

  lemma {:induction false} ReplayConcat(s: Logical, a: seq<Mutation>, b: seq<Mutation>)
    ensures ReplayAll(s, a + b) == ReplayAll(ReplayAll(s, a), b)
    decreases |a|
  {
    hide Replayed;
    if a == [] {
      assert a + b == b;
    } else {
      assert (a + b)[0] == a[0] && (a + b)[1..] == a[1..] + b;
      ReplayConcat(Replayed(s, a[0]), a[1..], b);
    }
  }

  // ---- one step ----

  /** The step logged what it did: acting out the new part of the log gives the new state. */
  ghost predicate Traced(ws: WsState, after: WsState) {
    && ws.mutations <= after.mutations
    && LogicalOf(after) == ReplayAll(LogicalOf(ws), after.mutations[|ws.mutations|..])
  }

  lemma TracedNone(ws: WsState, after: WsState)
    requires after.mutations == ws.mutations
    ensures Traced(ws, after) <==> LogicalOf(after) == LogicalOf(ws)
  {
    assert after.mutations[|ws.mutations|..] == [];
  }

  lemma TracedOne(ws: WsState, after: WsState, m: Mutation)
    requires after.mutations == ws.mutations + [m]
    ensures Traced(ws, after) <==> LogicalOf(after) == Replayed(LogicalOf(ws), m)
  {
    hide Replayed;
    assert after.mutations[|ws.mutations|..] == [m];
    assert [m][1..] == [];
    assert ReplayAll(Replayed(LogicalOf(ws), m), []) == Replayed(LogicalOf(ws), m);
  }

  /**
   * What a copy must satisfy for its log entry to tell the whole story. The entry is a plain write or
   * symlink: it carries neither the source's metadata nor the fact that the copy leaves the link group.
   */
  ghost predicate CopyIsPlain(t: Tree, from: Path, to: Path) {
    var n, there := NodeAt(t, from), NodeAt(t, to);
    n.Some? && !n.value.DirN? && (there.Some? ==> !there.value.DirN?) && Insertable(t, to)
    ==> Independent(n.value) == PlainCopy(t, n.value, to)
  }

  lemma FileStepTraced(ws: WsState, p: Path, bytes: Str)
    ensures Traced(ws, Write(ws, p, bytes).ws)
  {
    hide InsertAll, InsertAllNodes, Stage, WriteTargets, Extents, ReplayAll;
    var after := Write(ws, p, bytes).ws;
    StageFrame(ws, Staged(bytes));
    var there := NodeAt(ws.tree, p);
    if Write(ws, p, bytes).result.Ok? {
      TracedOne(ws, after, WriteFile(p, |bytes|, Extents(bytes)));
    } else {
      TracedNone(ws, after);
    }
  }

  lemma UnlinkStepTraced(ws: WsState, p: Path)
    requires GroupsOk(ws.tree)
    ensures Traced(ws, Unlinked(ws, p).ws)
  {
    hide InsertAll, InsertAllNodes, RouteNodes, Remove, Without, GroupsOk, ReplayAll;
    var after := Unlinked(ws, p).ws;
    UnlinkLinks(ws, p);
    WithoutAbsent([], p);
    if Unlinked(ws, p).result.Ok? {
      TracedOne(ws, after, Unlink(p));
    } else {
      TracedNone(ws, after);
    }
  }

  lemma RenameStepTraced(ws: WsState, from: Path, to: Path)
    ensures Traced(ws, Renamed(ws, from, to).ws)
  {
    hide Insert, RouteNodes, Remove, RenameRefused, ReplayAll;
    var after := Renamed(ws, from, to).ws;
    if Renamed(ws, from, to).result.Ok? && from != to {
      TracedOne(ws, after, Rename(from, to));
    } else {
      TracedNone(ws, after);
    }
  }

  lemma MetaStepTraced(ws: WsState, p: Path, mode: Option<u32>, uid: Option<u32>, gid: Option<u32>)
    ensures Traced(ws, MetaSet(ws, p, mode, uid, gid).ws)
  {
    hide Insert, InsertAll, InsertAllNodes, ReplayAll;
    var after := MetaSet(ws, p, mode, uid, gid).ws;
    if after.mutations != ws.mutations {
      var n := NodeAt(ws.tree, p).value;
      var next := Meta(Or(mode, n.meta.mode), Or(uid, n.meta.uid), Or(gid, n.meta.gid));
      OneInsert(ws.tree, p, WithMeta(n, next));
      TracedOne(ws, after, SetMeta(p, next.mode, next.uid, next.gid));
    } else {
      LogGrows(ws.mutations);
      TracedNone(ws, after);
    }
  }

  lemma LogGrows(ms: seq<Mutation>)
    ensures forall m :: ms + [m] != ms
  {
    assert forall m :: |ms + [m]| == |ms| + 1;
  }

  lemma LinkStepTraced(ws: WsState, existing: Path, extra: Path)
    ensures Traced(ws, Linked(ws, existing, extra).ws)
  {
    hide InsertAll, InsertAllNodes, Joining, ReplayAll;
    var after := Linked(ws, existing, extra).ws;
    if Linked(ws, existing, extra).result.Ok? {
      TracedOne(ws, after, Link(existing, extra));
    } else {
      TracedNone(ws, after);
    }
  }

  lemma SymlinkStepTraced(ws: WsState, p: Path, target: Str)
    ensures Traced(ws, MakeSymlink(ws, p, target).ws)
  {
    hide Insert, InsertAll, InsertAllNodes, ReplayAll;
    OneInsert(ws.tree, p, SymN(FILE_META, target));
    if MakeSymlink(ws, p, target).result.Ok? {
      TracedOne(ws, MakeSymlink(ws, p, target).ws, Symlink(p, target));
    } else {
      TracedNone(ws, MakeSymlink(ws, p, target).ws);
    }
  }

  lemma DirStepTraced(ws: WsState, op: Op)
    requires op.DoMkdir? || op.DoRmdir?
    ensures Traced(ws, Step(ws, op).ws)
  {
    hide Insert, InsertAll, InsertAllNodes, Remove, RouteNodes, ReplayAll;
    var after := Step(ws, op).ws;
    match op
    case DoMkdir(p) =>
      OneInsert(ws.tree, p, FRESH_DIR);
      if ws.isOpen && p != [] && NodeAt(ws.tree, p).None? && Insert(ws.tree, p, FRESH_DIR).Ok? {
        TracedOne(ws, after, MkDir(p));
      } else {
        TracedNone(ws, after);
      }
    case DoRmdir(p) =>
      if Step(ws, op).result.Ok? {
        TracedOne(ws, after, RmDir(p));
      } else {
        TracedNone(ws, after);
      }
  }

  lemma KvStepTraced(ws: WsState, op: Op)
    requires op.DoKvSet? || op.DoKvDelete?
    ensures Traced(ws, Step(ws, op).ws)
  {
    hide Stage, ReplayAll;
    var after := Step(ws, op).ws;
    match op
    case DoKvSet(ns, key, v) =>
      StageFrame(ws, [StagedChunk(ChunkDigest(v), v)]);
      if Step(ws, op).result.Ok? {
        TracedOne(ws, after, KvSet(ns, key, ChunkDigest(v), |v|));
      } else {
        TracedNone(ws, after);
      }
    case DoKvDelete(ns, key) =>
      if Step(ws, op).result.Ok? {
        TracedOne(ws, after, KvDelete(ns, key));
      } else {
        TracedNone(ws, after);
      }
  }

  // ---- copies ----

  /** Two leaves put at one place, one of them with the names it brings along, differ if the leaves do. */
  lemma LeafTells(t: Tree, paths: seq<Path>, m: Node, n: Node, to: Path)
    requires !m.DirN? && !n.DirN? && to in paths && BatchReady(t, paths) && BatchReady(t, [to])
    requires InsertAll(t, paths, m).Ok? && InsertAll(t, [to], n).Ok? && InsertAll(t, paths, m) == InsertAll(t, [to], n)
    ensures m == n
  {
    hide InsertAll, Look, LookAfterAll;
    BatchEffect(t, [to], n);
    BatchEffect(t, paths, m);
    AtBatch(t, [to], n, to);
    AtBatch(t, paths, m, to);
  }

  /** The node and the names that the log entry of a copy stands for. */
  function PlainCopy(t: Tree, n: Node, to: Path): Node
    requires !n.DirN?
  {
    if n.FileN? then LoggedFile(NodeAt(t, to), n.size, n.extents) else SymN(FILE_META, n.target)
  }

  function PlainTargets(t: Tree, n: Node, to: Path): seq<Path> {
    if n.FileN? then WriteTargets(NodeAt(t, to), to) else [to]
  }

  lemma CopyMutationReplayed(s: Logical, n: Node, to: Path)
    requires !n.DirN?
    ensures Replayed(s, CopyMutation(n, to))
         == Placed(s, InsertAll(s.tree, PlainTargets(s.tree, n, to), PlainCopy(s.tree, n, to)))
  {
    hide InsertAll, Insert;
    OneInsert(s.tree, to, PlainCopy(s.tree, n, to));
  }

  lemma CopyBatches(t: Tree, n: Node, to: Path)
    requires !n.DirN? && GroupsOk(t) && to != [] && !IsDirAt(t, to)
    ensures var paths, plain := PlainTargets(t, n, to), PlainCopy(t, n, to);
            && BatchReady(t, [to]) && BatchReady(t, paths) && to in paths
            && (InsertAll(t, [to], Independent(n)).Ok? <==> Insertable(t, to))
            && (InsertAll(t, paths, plain).Ok? <==> Insertable(t, to))
            && (Independent(n) == plain ==> paths == [to])
  {
    hide InsertAll, Look, Get, GroupsOk, LookAfterAll;
    SingleReady(t, to);
    WriteBatch(t, to, []);
    hide Insertable, BatchReady;
    BatchEffect(t, [to], Independent(n));
    BatchEffect(t, PlainTargets(t, n, to), PlainCopy(t, n, to));
  }

  /** What the log entry of a copy acts out as, at a target that is no directory. */
  lemma CopyReplay(t: Tree, n: Node, to: Path, kv: KvMap)
    requires !n.DirN? && GroupsOk(t) && to != [] && !IsDirAt(t, to)
    ensures var s := Replayed(Logical(t, kv), CopyMutation(n, to));
            && (InsertAll(t, [to], Independent(n)).Ok? <==> Insertable(t, to))
            && (!Insertable(t, to) ==> s == Logical(t, kv))
            && (Insertable(t, to) ==>
                 (s == Logical(InsertAll(t, [to], Independent(n)).value, kv) <==>
                  Independent(n) == PlainCopy(t, n, to)))
  {
    hide InsertAll, Insertable, GroupsOk, BatchReady, Replayed, PlainCopy, PlainTargets, IsDirAt;
    var paths, plain := PlainTargets(t, n, to), PlainCopy(t, n, to);
    CopyMutationReplayed(Logical(t, kv), n, to);
    CopyBatches(t, n, to);
    assert !plain.DirN? by {
      PlainIsLeaf(t, n, to);
    }
    if Insertable(t, to) && InsertAll(t, paths, plain) == InsertAll(t, [to], Independent(n)) {
      LeafTells(t, paths, plain, Independent(n), to);
    }
  }

  lemma PlainIsLeaf(t: Tree, n: Node, to: Path)
    requires !n.DirN?
    ensures !PlainCopy(t, n, to).DirN?
  {
  }

  lemma CopyStepTraced(ws: WsState, from: Path, to: Path)
    requires GroupsOk(ws.tree) && ws.isOpen
    ensures Traced(ws, Copied(ws, from, to).ws) <==> CopyIsPlain(ws.tree, from, to)
  {
    hide InsertAll, InsertAllNodes, GroupsOk, ReplayAll, Insertable, PlainCopy, Replayed, Get;
    var t := ws.tree;
    var after := Copied(ws, from, to).ws;
    var n, there := NodeAt(t, from), NodeAt(t, to);
    if n.Some? && !n.value.DirN? && (there.Some? ==> !there.value.DirN?) {
      assert to != [];
      CopyReplay(t, n.value, to, ws.kv);
      TracedOne(ws, after, CopyMutation(n.value, to));
    } else {
      TracedNone(ws, after);
    }
  }

  /** Exactly which steps the log accounts for: all but a copy whose source is more than plain content. */
  lemma StepTraced(ws: WsState, op: Op)
    requires GroupsOk(ws.tree) && ws.isOpen
    ensures Traced(ws, Step(ws, op).ws) <==> (op.DoCopy? ==> CopyIsPlain(ws.tree, op.from, op.to))
  {
    hide Traced, CopyIsPlain, GroupsOk, Mkdir, Write, Unlinked, Rmdir, Renamed, Copied, MakeSymlink, MetaSet, Linked;
    hide KvPut, KvDrop;
    match op
    case DoWrite(p, bytes) => FileStepTraced(ws, p, bytes);
    case DoUnlink(p) => UnlinkStepTraced(ws, p);
    case DoRename(f, t) => RenameStepTraced(ws, f, t);
    case DoCopy(f, t) => CopyStepTraced(ws, f, t);
    case DoSymlink(p, target) => SymlinkStepTraced(ws, p, target);
    case DoSetMeta(p, mode, uid, gid) => MetaStepTraced(ws, p, mode, uid, gid);
    case DoLink(e, x) => LinkStepTraced(ws, e, x);
    case DoMkdir(_) => DirStepTraced(ws, op);
    case DoRmdir(_) => DirStepTraced(ws, op);
    case DoKvSet(_, _, _) => KvStepTraced(ws, op);
    case DoKvDelete(_, _) => KvStepTraced(ws, op);
  }

  // ---- runs ----

  /** Every step keeps the link groups and every copy is plain, where it happens. */
  ghost predicate PlainRun(ws: WsState, ops: seq<Op>)
    decreases |ops|
  {
    ops == [] ||
    (&& TameGroups(ws.tree, ops[0])
     && (ops[0].DoCopy? ==> CopyIsPlain(ws.tree, ops[0].from, ops[0].to))
     && PlainRun(Step(ws, ops[0]).ws, ops[1..]))
  }

  lemma TracedChains(a: WsState, b: WsState, c: WsState)
    requires Traced(a, b) && Traced(b, c)
    ensures Traced(a, c)
  {
    var x, y := b.mutations[|a.mutations|..], c.mutations[|b.mutations|..];
    assert b.mutations == a.mutations + x && c.mutations == b.mutations + y;
    assert c.mutations == a.mutations + (x + y);
    assert c.mutations[|a.mutations|..] == x + y;
    ReplayConcat(LogicalOf(a), x, y);
  }

  lemma OpenStays(ws: WsState, op: Op)
    requires ws.isOpen
    ensures Step(ws, op).ws.isOpen
  {
    hide InsertAll, InsertAllNodes, RouteNodes, Remove, NodeAt, StageAll, Added, Incoming, Extents;
    hide RenameRefused, WriteTargets, WrittenFile, GroupFile, Joining, Without;
  }

  /** Over a plain run, the log and the starting state determine the final state. */
  lemma {:induction false} RunTraced(ws: WsState, ops: seq<Op>)
    requires GroupsOk(ws.tree) && ws.isOpen && PlainRun(ws, ops)
    ensures Traced(ws, Run(ws, ops)) && GroupsOk(Run(ws, ops).tree)
    decreases |ops|
  {
    hide Step, GroupsOk, TameGroups, Traced, CopyIsPlain;
    if ops == [] {
      TracedNone(ws, ws);
    } else {
      var next := Step(ws, ops[0]).ws;
      StepLinks(ws, ops[0]);
      StepTraced(ws, ops[0]);
      OpenStays(ws, ops[0]);
      RunTraced(next, ops[1..]);
      TracedChains(ws, next, Run(next, ops[1..]));
    }
  }

  // ---- what a command hash determines ----

  ghost function StateRoot(s: Logical): RootId {
    RootDigest(IdOf(s.tree), KvDigest(s.kv))
  }

  lemma StateRootInjective(a: Logical, b: Logical)
    requires StateRoot(a) == StateRoot(b)
    ensures a == b
  {
    hide IdOf, KvDigest, RootDigest;
    RootDigestInjective(IdOf(a.tree), KvDigest(a.kv), IdOf(b.tree), KvDigest(b.kv));
    IdInjective(a.tree, b.tree);
    KvDigestInjective(a.kv, b.kv);
  }

  /** The plan a workspace publishes. */
  ghost predicate PlanOf(plan: Plan, base: Logical, ws: WsState) {
    && plan.baseRoot == StateRoot(base)
    && plan.namespaceRoot == IdOf(ws.tree) && plan.kv == ws.kv && plan.mutations == ws.mutations
    && Traced(Open(base.tree, base.kv, ws.stagedLimit), ws)
  }

  /** Two workspaces that ask for the same command, in any two histories, ask for the same root. */
  lemma SameCommandSameRoot(repo: Str, p: Plan, a: Logical, v: WsState, q: Plan, b: Logical, w: WsState)
    requires PlanOf(p, a, v) && PlanOf(q, b, w)
    requires PlanHash(repo, p) == PlanHash(repo, q)
    ensures PlanRoot(p) == PlanRoot(q)
  {
    hide IdOf, KvDigest, RootDigest, CommandHash, ReplayAll;
    CommandHashInjective(repo, p.branch, p.request, p.baseRoot, p.mutations, repo, q.branch, q.request, q.baseRoot,
        q.mutations);
    StateRootInjective(a, b);
    assert v.mutations[0..] == v.mutations && w.mutations[0..] == w.mutations;
  }

  /**
   * Replay soundness: whenever `check_replay` accepts a repeated request, the stored receipt's state root is
   * the root the new plan asks for.
   */
  lemma ReplaySound(db: Db, plan: Plan, base: Logical, ws: WsState, now: nat, db': Db, receipt: Receipt,
                    stored: Plan, storedBase: Logical, storedWs: WsState)
    requires PlanOf(plan, base, ws) && PlanOf(stored, storedBase, storedWs)
    requires plan.request in db.receipts
    requires db.receipts[plan.request].commandHash == PlanHash(db.repository, stored)
    requires db.receipts[plan.request].root == PlanRoot(stored)
    requires Published(db, plan, now, db', Ok(receipt))
    ensures receipt.replayed && receipt.root == PlanRoot(plan) && db' == db
  {
    hide PlanOf, PlanRoot, PlanHash;
    SameCommandSameRoot(db.repository, plan, base, ws, stored, storedBase, storedWs);
  }

  // ---- where the log falls short ----

  /** A base with one file whose mode is not the default. */
  function ModeBase(a: Name, bytes: Str, mode: u32): Tree {
    Tree(map[a := FileN(Meta(mode, 0, 0), |bytes|, Extents(bytes), [])])
  }

  /** Copying the file and writing the same bytes log the same mutation and give different roots. */
  lemma CopyNotDetermined(a: Name, b: Name, bytes: Str, mode: u32, limit: nat)
    requires a != b && mode != FILE_META.mode && Incoming(map[], Staged(bytes)) <= limit
    ensures var start := Open(ModeBase(a, bytes, mode), map[], limit);
            var copied, written := Copied(start, [a], [b]), Write(start, [b], bytes);
            && copied.result.Ok? && written.result.Ok?
            && copied.ws.mutations == written.ws.mutations
            && IdOf(copied.ws.tree) != IdOf(written.ws.tree)
  {
    hide IdOf, Extents, Stage, InsertAllNodes, InsertAll;
    var t := ModeBase(a, bytes, mode);
    var start := Open(t, map[], limit);
    StageFrame(start, Staged(bytes));
    var plain := FileN(FILE_META, |bytes|, Extents(bytes), []);
    var moded := FileN(Meta(mode, 0, 0), |bytes|, Extents(bytes), []);
    OneInsert(t, [b], plain);
    OneInsert(t, [b], moded);
    assert Stage(start, Staged(bytes)).Ok? by {
      StageFits(start, Staged(bytes));
    }
    assert Put(t, b, plain).kids[b] != Put(t, b, moded).kids[b];
    IdInjective(Put(t, b, plain), Put(t, b, moded));
  }

  lemma StageFits(ws: WsState, chunks: seq<StagedChunk>)
    requires ws.stagedBytes + Incoming(ws.staged, chunks) <= ws.stagedLimit
    ensures Stage(ws, chunks).Ok?
  {
  }
}
