/**
 * The workspace as a state machine on values: what each operation does to the tree, the key-value map,
 * the staged chunks, the nodes to persist, and the mutation log. `Workspace` is proved against it.
 */
module WorkspaceSpec {
  import opened Base
  import opened Paths
  import opened Canonical
  import opened State
  import opened Trees
  import opened TreeOps
  import opened Nodes
  import opened Chunks

  datatype WsState = WsState(
    tree: Tree,
    newNodes: NodeMap,
    kv: KvMap,
    staged: ChunkMap,
    stagedBytes: nat,
    stagedLimit: nat,
    mutations: seq<Mutation>,
    isOpen: bool)

  type Unit = ()

  datatype Outcome = Outcome(ws: WsState, result: Result<Unit>)

  /** One call on a workspace. */
  datatype Op =
    | DoMkdir(path: Path)
    | DoWrite(path: Path, bytes: Str)
    | DoUnlink(path: Path)
    | DoRmdir(path: Path)
    | DoRename(from: Path, to: Path)
    | DoCopy(from: Path, to: Path)
    | DoSymlink(path: Path, target: Str)
    | DoSetMeta(path: Path, mode: Option<u32>, uid: Option<u32>, gid: Option<u32>)
    | DoLink(existing: Path, extra: Path)
    | DoKvSet(namespace: Str, key: Str, value: Str)
    | DoKvDelete(namespace: Str, key: Str)

  // ---- staging ----

  /** Bytes a batch is charged for; a chunk repeated within the batch is counted each time. */
  function Incoming(staged: ChunkMap, chunks: seq<StagedChunk>): nat {
    if chunks == [] then 0
    else (if chunks[0].digest in staged then 0 else |chunks[0].bytes|) + Incoming(staged, chunks[1..])
  }

  function StageOne(staged: ChunkMap, c: StagedChunk): ChunkMap {
    if c.digest in staged then staged else staged[c.digest := c.bytes]
  }

  function StageAll(staged: ChunkMap, chunks: seq<StagedChunk>): ChunkMap
    decreases |chunks|
  {
    if chunks == [] then staged else StageAll(StageOne(staged, chunks[0]), chunks[1..])
  }

  /** Bytes actually added by a batch. */
  function Added(staged: ChunkMap, chunks: seq<StagedChunk>): nat
    decreases |chunks|
  {
    if chunks == [] then 0
    else (if chunks[0].digest in staged then 0 else |chunks[0].bytes|) + Added(StageOne(staged, chunks[0]), chunks[1..])
  }

  function Stage(ws: WsState, chunks: seq<StagedChunk>): Result<WsState> {
    if ws.stagedBytes + Incoming(ws.staged, chunks) > ws.stagedLimit then Err(OverBudget)
    else Ok(ws.(staged := StageAll(ws.staged, chunks), stagedBytes := ws.stagedBytes + Added(ws.staged, chunks)))
  }

  /** Staging touches nothing but the staged chunks. */
  lemma StageFrame(ws: WsState, chunks: seq<StagedChunk>)
    ensures Stage(ws, chunks).Ok? ==>
              var s := Stage(ws, chunks).value;
              s == ws.(staged := s.staged, stagedBytes := s.stagedBytes)
    ensures Stage(ws, chunks).Err? ==> Stage(ws, chunks).error == OverBudget
  {
  }

  // ---- tree edits ----

  /** Insert one node at several paths, in order. */
  function InsertAll(t: Tree, paths: seq<Path>, n: Node): Result<Tree>
    decreases |paths|
  {
    if paths == [] then Ok(t)
    else
      match Insert(t, paths[0], n)
      case Err(e) => Err(e)
      case Ok(s) => InsertAll(s, paths[1..], n)
  }

  ghost function InsertAllNodes(t: Tree, paths: seq<Path>, n: Node): NodeMap
    decreases |paths|
  {
    if paths == [] || Insert(t, paths[0], n).Err? then map[]
    else
      var s := Insert(t, paths[0], n).value;
      RouteNodes(s, paths[0]) + InsertAllNodes(s, paths[1..], n)
  }

  ghost function EditInsert(ws: WsState, paths: seq<Path>, n: Node): Result<WsState> {
    match InsertAll(ws.tree, paths, n)
    case Err(e) => Err(e)
    case Ok(s) => Ok(ws.(tree := s, newNodes := ws.newNodes + InsertAllNodes(ws.tree, paths, n)))
  }

  ghost function EditRemove(ws: WsState, p: Path): Result<WsState> {
    match Remove(ws.tree, p)
    case Err(e) => Err(e)
    case Ok(s) => Ok(ws.(tree := s, newNodes := ws.newNodes + RouteNodes(s, p)))
  }

  /** Attach `n` at `to`, then detach `from`: one edit. */
  ghost function EditMove(ws: WsState, from: Path, to: Path, n: Node): Result<WsState> {
    match Insert(ws.tree, to, n)
    case Err(e) => Err(e)
    case Ok(s) =>
      match Remove(s, from)
      case Err(e) => Err(e)
      case Ok(t) => Ok(ws.(tree := t, newNodes := ws.newNodes + (RouteNodes(s, to) + RouteNodes(t, from))))
  }

  function Logged(ws: WsState, m: Mutation): WsState {
    ws.(mutations := ws.mutations + [m])
  }

  function Fail(ws: WsState, e: Error): Outcome {
    Outcome(ws, Err(e))
  }

  function Done(ws: WsState): Outcome {
    Outcome(ws, Ok(()))
  }

  // ---- lookups ----

  /** What is at a path; the root is a directory. */
  function NodeAt(t: Tree, p: Path): Option<Node> {
    if p == [] then Some(DirN(DIR_META, t)) else Get(t, p)
  }

  /** What reading a path returns, given the chunks that can be seen. */
  function ReadContent(t: Tree, p: Path, chunks: ChunkMap): Result<Str> {
    match NodeAt(t, p)
    case None => Err(NotFound)
    case Some(n) =>
      match n
      case DirN(_, _) => Err(IsADirectory)
      case FileN(_, _, extents, _) => Gather(extents, chunks)
      case SymN(_, target) => Ok(target)
  }

  function LinksOf(n: Node): seq<Path> {
    if n.FileN? then n.links else []
  }

  function SortPaths(s: set<Path>): (r: seq<Path>)
    ensures forall p :: p in r <==> p in s
  {
    PathKeyInjective(s);
    SortedBy(s, PathKey)
  }

  function Elements<T>(s: seq<T>): set<T> {
    set x | x in s
  }

  /** A link group with one more member: sorted, without duplicates. */
  function Joining(n: Node, existing: Path, extra: Path): seq<Path>
    requires n.FileN?
  {
    SortPaths(Elements(if n.links == [] then [existing] else n.links) + {extra})
  }

  function Without(links: seq<Path>, p: Path): (r: seq<Path>)
    ensures forall q :: q in r <==> q in links && q != p
  {
    if links == [] then []
    else (if links[0] == p then [] else [links[0]]) + Without(links[1..], p)
  }

  /** The file every member of a group holds; a group of one is an ordinary file again. */
  function GroupFile(group: seq<Path>, n: Node): Node
    requires n.FileN?
  {
    n.(links := if |group| > 1 then group else [])
  }

  // ---- operations ----

  ghost function Mkdir(ws: WsState, p: Path): Outcome {
    if !ws.isOpen then Fail(ws, WorkspaceClosed)
    else if p == [] then Done(ws)
    else
      match NodeAt(ws.tree, p)
      case Some(n) => if n.DirN? then Done(ws) else Fail(ws, AlreadyExists)
      case None =>
        match EditInsert(ws, [p], FRESH_DIR)
        case Err(e) => Fail(ws, e)
        case Ok(next) => Done(Logged(next, MkDir(p)))
  }

  function WrittenFile(there: Option<Node>, bytes: Str): Node {
    var meta := if there.Some? && there.value.FileN? then there.value.meta else FILE_META;
    var links := if there.Some? then LinksOf(there.value) else [];
    FileN(meta, |bytes|, Extents(bytes), links)
  }

  function WriteTargets(there: Option<Node>, p: Path): seq<Path> {
    if there.Some? && LinksOf(there.value) != [] then LinksOf(there.value) else [p]
  }

  ghost function Write(ws: WsState, p: Path, bytes: Str): Outcome {
    if !ws.isOpen then Fail(ws, WorkspaceClosed)
    else
      var there := NodeAt(ws.tree, p);
      if there.Some? && there.value.DirN? then Fail(ws, IsADirectory)
      else
        match Stage(ws, Staged(bytes))
        case Err(e) => Fail(ws, e)
        case Ok(staged) =>
          match EditInsert(staged, WriteTargets(there, p), WrittenFile(there, bytes))
          case Err(e) => Fail(staged, e)
          case Ok(next) => Done(Logged(next, WriteFile(p, |bytes|, Extents(bytes))))
  }

  ghost function Unlinked(ws: WsState, p: Path): Outcome {
    if !ws.isOpen then Fail(ws, WorkspaceClosed)
    else
      match NodeAt(ws.tree, p)
      case None => Fail(ws, NotFound)
      case Some(n) =>
        if n.DirN? then Fail(ws, IsADirectory)
        else
          match EditRemove(ws, p)
          case Err(e) => Fail(ws, e)
          case Ok(removed) =>
            var remaining := Without(LinksOf(n), p);
            if remaining == [] then Done(Logged(removed, Unlink(p)))
            else
              match EditInsert(removed, remaining, GroupFile(remaining, n))
              case Err(e) => Fail(removed, e)
              case Ok(next) => Done(Logged(next, Unlink(p)))
  }

  ghost function Rmdir(ws: WsState, p: Path): Outcome {
    if !ws.isOpen then Fail(ws, WorkspaceClosed)
    else
      match NodeAt(ws.tree, p)
      case None => Fail(ws, NotFound)
      case Some(n) =>
        if !n.DirN? then Fail(ws, NotADirectory)
        else if n.sub.kids != map[] then Fail(ws, DirectoryNotEmpty)
        else
          match EditRemove(ws, p)
          case Err(e) => Fail(ws, e)
          case Ok(next) => Done(Logged(next, RmDir(p)))
  }

  /** Why a rename is refused once its source exists, if it is. */
  function RenameRefused(n: Node, there: Option<Node>): Option<Error> {
    if there.None? then None
    else if there.value.DirN? then
      if there.value.sub.kids != map[] then Some(DirectoryNotEmpty)
      else if !n.DirN? then Some(IsADirectory)
      else None
    else if n.DirN? then Some(NotADirectory)
    else None
  }

  ghost function Renamed(ws: WsState, from: Path, to: Path): Outcome {
    if !ws.isOpen then Fail(ws, WorkspaceClosed)
    else if from == [] || to == [] then Fail(ws, InvalidPath)
    else if from == to then Done(ws)
    else if from <= to then Fail(ws, InvalidPath)
    else
      match NodeAt(ws.tree, from)
      case None => Fail(ws, NotFound)
      case Some(n) =>
        var refused := RenameRefused(n, NodeAt(ws.tree, to));
        if refused.Some? then Fail(ws, refused.value)
        else
          match EditMove(ws, from, to, n)
          case Err(e) => Fail(ws, e)
          case Ok(next) => Done(Logged(next, Rename(from, to)))
  }

  function Independent(n: Node): Node {
    if n.FileN? then n.(links := []) else n
  }

  /** The log entry a copy makes, before the copy itself is attempted. */
  function CopyMutation(n: Node, to: Path): Mutation
    requires !n.DirN?
  {
    if n.FileN? then WriteFile(to, n.size, n.extents) else Symlink(to, n.target)
  }

  ghost function Copied(ws: WsState, from: Path, to: Path): Outcome {
    if !ws.isOpen then Fail(ws, WorkspaceClosed)
    else
      match NodeAt(ws.tree, from)
      case None => Fail(ws, NotFound)
      case Some(n) =>
        if n.DirN? then Fail(ws, IsADirectory)
        else
          var there := NodeAt(ws.tree, to);
          if there.Some? && there.value.DirN? then Fail(ws, IsADirectory)
          else
            var logged := Logged(ws, CopyMutation(n, to));
            match EditInsert(logged, [to], Independent(n))
            case Err(e) => Fail(logged, e)
            case Ok(next) => Done(next)
  }

  ghost function MakeSymlink(ws: WsState, p: Path, target: Str): Outcome {
    if !ws.isOpen then Fail(ws, WorkspaceClosed)
    else if NodeAt(ws.tree, p).Some? then Fail(ws, AlreadyExists)
    else
      match EditInsert(ws, [p], SymN(FILE_META, target))
      case Err(e) => Fail(ws, e)
      case Ok(next) => Done(Logged(next, Symlink(p, target)))
  }

  function Or<T>(x: Option<T>, fallback: T): T {
    if x.Some? then x.value else fallback
  }

  function WithMeta(n: Node, meta: Meta): Node {
    match n
    case DirN(_, sub) => DirN(meta, sub)
    case FileN(_, size, extents, links) => FileN(meta, size, extents, links)
    case SymN(_, target) => SymN(meta, target)
  }

  ghost function MetaSet(ws: WsState, p: Path, mode: Option<u32>, uid: Option<u32>, gid: Option<u32>): Outcome {
    if !ws.isOpen then Fail(ws, WorkspaceClosed)
    else
      match NodeAt(ws.tree, p)
      case None => Fail(ws, NotFound)
      case Some(n) =>
        var next := Meta(Or(mode, n.meta.mode), Or(uid, n.meta.uid), Or(gid, n.meta.gid));
        if next == n.meta then Done(ws)
        else if p == [] then Fail(ws, IsADirectory)
        else
          match EditInsert(ws, [p], WithMeta(n, next))
          case Err(e) => Fail(ws, e)
          case Ok(after) => Done(Logged(after, SetMeta(p, next.mode, next.uid, next.gid)))
  }

  ghost function Linked(ws: WsState, existing: Path, extra: Path): Outcome {
    if !ws.isOpen then Fail(ws, WorkspaceClosed)
    else
      match NodeAt(ws.tree, existing)
      case None => Fail(ws, NotFound)
      case Some(n) =>
        if n.DirN? then Fail(ws, IsADirectory)
        else if n.SymN? then Fail(ws, InvalidPath)
        else if NodeAt(ws.tree, extra).Some? then Fail(ws, AlreadyExists)
        else
          var group := Joining(n, existing, extra);
          match EditInsert(ws, group, GroupFile(group, n))
          case Err(e) => Fail(ws, e)
          case Ok(next) => Done(Logged(next, Link(existing, extra)))
  }

  function KvPut(ws: WsState, namespace: Str, key: Str, value: Str): Outcome {
    if !ws.isOpen then Fail(ws, WorkspaceClosed)
    else
      var digest := ChunkDigest(value);
      match Stage(ws, [StagedChunk(digest, value)])
      case Err(e) => Fail(ws, e)
      case Ok(staged) =>
        Done(Logged(staged.(kv := staged.kv[(namespace, key) := digest]), KvSet(namespace, key, digest, |value|)))
  }

  function KvDrop(ws: WsState, namespace: Str, key: Str): Outcome {
    if !ws.isOpen then Fail(ws, WorkspaceClosed)
    else if (namespace, key) !in ws.kv then Fail(ws, NotFound)
    else Done(Logged(ws.(kv := ws.kv - {(namespace, key)}), KvDelete(namespace, key)))
  }

  ghost function Step(ws: WsState, op: Op): Outcome {
    match op
    case DoMkdir(p) => Mkdir(ws, p)
    case DoWrite(p, bytes) => Write(ws, p, bytes)
    case DoUnlink(p) => Unlinked(ws, p)
    case DoRmdir(p) => Rmdir(ws, p)
    case DoRename(f, t) => Renamed(ws, f, t)
    case DoCopy(f, t) => Copied(ws, f, t)
    case DoSymlink(p, target) => MakeSymlink(ws, p, target)
    case DoSetMeta(p, mode, uid, gid) => MetaSet(ws, p, mode, uid, gid)
    case DoLink(e, n) => Linked(ws, e, n)
    case DoKvSet(ns, key, v) => KvPut(ws, ns, key, v)
    case DoKvDelete(ns, key) => KvDrop(ws, ns, key)
  }

  /** The state after a run of operations, failed ones included. */
  ghost function Run(ws: WsState, ops: seq<Op>): WsState
    decreases |ops|
  {
    if ops == [] then ws else Run(Step(ws, ops[0]).ws, ops[1..])
  }

  lemma RunNothing(ws: WsState)
    ensures Run(ws, []) == ws
  {
  }

  lemma {:induction false} RunOneMore(ws: WsState, ops: seq<Op>, op: Op)
    ensures Run(ws, ops + [op]) == Step(Run(ws, ops), op).ws
    decreases |ops|
  {
    hide Step;
    if ops == [] {
      assert [op][1..] == [];
      assert ops + [op] == [op];
    } else {
      assert (ops + [op])[0] == ops[0] && (ops + [op])[1..] == ops[1..] + [op];
      RunOneMore(Step(ws, ops[0]).ws, ops[1..], op);
    }
  }

  function Open(t: Tree, kv: KvMap, limit: nat): WsState {
    WsState(t, map[], kv, map[], 0, limit, [], true)
  }

  // ---- staging accounts for every byte held ----

  ghost function Weight(staged: ChunkMap): nat
  {
    if staged == map[] then 0
    else
      var d :| d in staged;
      |staged[d]| + Weight(staged - {d})
  }

  lemma {:induction false} WeightRemoves(staged: ChunkMap, d: ChunkId)
    requires d in staged
    ensures Weight(staged) == |staged[d]| + Weight(staged - {d})
    decreases |staged|
  {
    var x :| x in staged && Weight(staged) == |staged[x]| + Weight(staged - {x});
    if x != d {
      WeightRemoves(staged - {x}, d);
      WeightRemoves(staged - {d}, x);
      assert staged - {x} - {d} == staged - {d} - {x};
    }
  }

  lemma WeightAdds(staged: ChunkMap, d: ChunkId, bytes: Str)
    requires d !in staged
    ensures Weight(staged[d := bytes]) == Weight(staged) + |bytes|
  {
    WeightRemoves(staged[d := bytes], d);
    assert staged[d := bytes] - {d} == staged;
  }

  /** Staging charges exactly what it adds, never more than was admitted. */
  lemma {:induction false} StageAccounts(staged: ChunkMap, chunks: seq<StagedChunk>)
    ensures Weight(StageAll(staged, chunks)) == Weight(staged) + Added(staged, chunks)
    ensures Added(staged, chunks) <= Incoming(staged, chunks)
    decreases |chunks|
  {
    if chunks != [] {
      var next := StageOne(staged, chunks[0]);
      StageAccounts(next, chunks[1..]);
      if chunks[0].digest !in staged {
        WeightAdds(staged, chunks[0].digest, chunks[0].bytes);
      }
      IncomingShrinks(staged, next, chunks[1..]);
    }
  }

  lemma {:induction false} IncomingShrinks(less: ChunkMap, more: ChunkMap, chunks: seq<StagedChunk>)
    requires less.Keys <= more.Keys
    ensures Incoming(more, chunks) <= Incoming(less, chunks)
  {
    if chunks != [] {
      IncomingShrinks(less, more, chunks[1..]);
    }
  }

  lemma {:induction false} StageAllHolds(staged: ChunkMap, chunks: seq<StagedChunk>)
    ensures forall d | d in staged :: d in StageAll(staged, chunks) && StageAll(staged, chunks)[d] == staged[d]
    ensures forall c <- chunks :: c.digest in StageAll(staged, chunks)
    ensures forall d | d in StageAll(staged, chunks) :: d in staged || exists c <- chunks :: c.digest == d
    ensures ChunksCoherent(staged) && (forall c <- chunks :: ChunkDigest(c.bytes) == c.digest)
            ==> ChunksCoherent(StageAll(staged, chunks))
    decreases |chunks|
  {
    if chunks != [] {
      StageAllHolds(StageOne(staged, chunks[0]), chunks[1..]);
    }
  }

  /** Held bytes are exactly accounted for and within the limit, and chunk bodies match their digests. */
  ghost predicate StagingOk(ws: WsState) {
    ws.stagedBytes == Weight(ws.staged) <= ws.stagedLimit && ChunksCoherent(ws.staged)
  }

  lemma StageKeepsOk(ws: WsState, chunks: seq<StagedChunk>)
    requires StagingOk(ws) && Stage(ws, chunks).Ok?
    requires forall c <- chunks :: ChunkDigest(c.bytes) == c.digest
    ensures StagingOk(Stage(ws, chunks).value)
  {
    StageAccounts(ws.staged, chunks);
    StageAllHolds(ws.staged, chunks);
  }

  /** Every operation keeps the staging account exact and within its limit, whether or not it succeeds. */
  lemma StepKeepsStaging(ws: WsState, op: Op)
    requires StagingOk(ws)
    ensures StagingOk(Step(ws, op).ws)
  {
    hide InsertAll, InsertAllNodes, RouteNodes, Remove, Weight, NodeAt, StageAll, Added, Incoming, Extents;
    hide ChunksCoherent;
    hide RenameRefused, WriteTargets, WrittenFile, GroupFile, Joining, Without;
    match op
    case DoWrite(p, bytes) =>
      if Stage(ws, Staged(bytes)).Ok? {
        StageKeepsOk(ws, Staged(bytes));
      }
    case DoKvSet(ns, key, v) =>
      if Stage(ws, [StagedChunk(ChunkDigest(v), v)]).Ok? {
        StageKeepsOk(ws, [StagedChunk(ChunkDigest(v), v)]);
      }
    case _ =>
  }
}
