/** The paths of a tree against the paths an inode table has numbered: what each operation does to the two. */
module MountInvariant {
  import opened Base
  import opened Paths
  import opened Canonical
  import opened Trees
  import opened TreeOps
  import opened Nodes
  import opened Chunks
  import opened WorkspaceSpec
  import opened Links
  import opened LinkGroups
  import opened LinkInvariant
  import opened Handles
  import opened Inodes

  /** Every path that has a number exists. */
  ghost predicate InStep(t: Tree, table: Table) {
    forall p | p in table.toInode && p != [] :: Look(t, p).Some?
  }

  // ---- one change to the tree, one change to the table ----

  /** One of the file's other names lies above a numbered path: rewriting that name takes the path away. */
  ghost predicate NameAboveNumber(t: Tree, p: Path, table: Table) {
    exists q :: q in table.toInode && q != p && q != [] && Swept(OtherNames(t, p), q)
  }

  function OtherNames(t: Tree, p: Path): seq<Path> {
    match NodeAt(t, p)
    case None => []
    case Some(n) => Without(LinksOf(n), p)
  }

  /**
   * After an accepted removal the table without the path is in step, unless one of the file's other names lies
   * above a numbered path, which no tree with sound link groups allows.
   */
  lemma UnlinkInStep(ws: WsState, p: Path, table: Table)
    requires InStep(ws.tree, table) && Unlinked(ws, p).result.Ok?
    ensures InStep(Unlinked(ws, p).ws.tree, table.(toInode := table.toInode - {p}))
            <==> !NameAboveNumber(ws.tree, p, table)
    ensures GroupsOk(ws.tree) ==> !NameAboveNumber(ws.tree, p, table)
  {
    hide Look, GroupsOk, Unlinked, OtherNames, Swept;
    var t, less := ws.tree, table.(toInode := table.toInode - {p});
    UnlinkTakesLeaf(ws, p);
    forall q | q in less.toInode && q != []
      ensures Look(Unlinked(ws, p).ws.tree, q).Some? <==> !Swept(OtherNames(t, p), q)
      ensures GroupsOk(t) ==> Look(Unlinked(ws, p).ws.tree, q).Some?
    {
      assert Look(t, q).Some?;
      UnlinkAt(ws, p, q);
      if GroupsOk(t) {
        UnlinkEffect(ws, p);
      }
    }
  }

  /** What removing a file's name does to a path that exists elsewhere. */
  lemma UnlinkAt(ws: WsState, p: Path, q: Path)
    requires Unlinked(ws, p).result.Ok? && q != [] && q != p && Look(ws.tree, q).Some?
    ensures Look(Unlinked(ws, p).ws.tree, q).Some? <==> !Swept(OtherNames(ws.tree, p), q)
  {
    hide Look, InsertAll, InsertAllNodes, RouteNodes, Remove, Without, LookAfterAll;
    UnlinkTakesLeaf(ws, p);
    LookLeaf(ws.tree, p);
    RemoveFileEffect(ws.tree, p);
    var r := Remove(ws.tree, p).value;
    var n := NodeAt(ws.tree, p).value;
    var others := OtherNames(ws.tree, p);
    WithoutAbsent([], p);
    if others != [] {
      AnyBatchLook(r, others, GroupFile(others, n), q);
      if !Swept(others, q) {
        StillSome(r, others, GroupFile(others, n), q);
      }
    }
  }

  lemma StillSome(t: Tree, paths: seq<Path>, n: Node, q: Path)
    requires q != [] && Look(t, q).Some? && !Swept(paths, q)
    ensures LookAfterAll(t, paths, n, q).Some?
  {
    hide Look;
    NotSwept(paths, q);
  }

  lemma UnlinkTakesLeaf(ws: WsState, p: Path)
    requires Unlinked(ws, p).result.Ok?
    ensures ws.isOpen && p != [] && Look(ws.tree, p).Some? && !Look(ws.tree, p).value.DirN?
  {
    hide InsertAll, InsertAllNodes, RouteNodes, Remove, Without;
    if p != [] {
      LookLeaf(ws.tree, p);
    }
  }

  lemma RmdirInStep(ws: WsState, p: Path, table: Table)
    requires InStep(ws.tree, table) && Rmdir(ws, p).result.Ok?
    ensures InStep(Rmdir(ws, p).ws.tree, table.(toInode := table.toInode - {p}))
  {
    hide Remove, RouteNodes, Look;
    assert Remove(ws.tree, []) == Err(InvalidPath) by {
      RemoveRoot(ws.tree);
    }
    RmdirEffect(ws.tree, p);
    forall q | q in table.toInode - {p} && q != []
      ensures Look(Rmdir(ws, p).ws.tree, q).Some?
    {
      assert Look(ws.tree, q).Some?;
    }
  }

  /** After an accepted rename the moved table is in step with the moved tree. */
  lemma RenameInStep(ws: WsState, from: Path, to: Path, table: Table, after: Table)
    requires InStep(ws.tree, table) && Renamed(ws, from, to).result.Ok? && ws.isOpen && from != to
    requires IsRenamed(table, from, to, after)
    ensures Apart(from, to) && InStep(Renamed(ws, from, to).ws.tree, after)
  {
    hide Look, Get, Renamed, MovedPath, Fits;
    RenameEffect(ws, from, to);
    RenameAccepted(ws, from, to);
    var t, s := ws.tree, Renamed(ws, from, to).ws.tree;
    forall q | q in after.toInode && q != []
      ensures Look(s, q).Some?
    {
      assert Find(after.toInode, q) == MovedInode(table, from, to, Under(table, from), q);
      if to <= q && Rebased(q, to, from) in table.toInode {
        assert Look(t, from + q[|to|..]).Some?;
      } else if to <= q {
        assert Look(t, q).Some?;
        assert q == to && from + q[|to|..] == from;
        SourceExists(ws, from, to);
      }
    }
  }

  /** Renaming onto itself leaves the tree alone, and no path gains a number. */
  lemma RenameSameInStep(t: Tree, p: Path, table: Table, after: Table)
    requires InStep(t, table) && p != [] && IsRenamed(table, p, p, after)
    ensures InStep(t, after)
  {
    hide Look, Fits;
    forall q | q in after.toInode && q != []
      ensures Look(t, q).Some?
    {
      assert Find(after.toInode, q) == MovedInode(table, p, p, Under(table, p), q);
      if p <= q {
        RebasedSame(q, p);
      }
    }
  }

  lemma SourceExists(ws: WsState, from: Path, to: Path)
    requires Renamed(ws, from, to).result.Ok? && ws.isOpen && from != to
    ensures from != [] && Look(ws.tree, from).Some?
  {
    hide Insert, Remove, RouteNodes, RenameRefused;
    if from != [] {
      LookLeaf(ws.tree, from);
    }
  }

  /** Every number at or beneath the source resolves to the same node as before. */
  lemma NumbersKeepNodes(ws: WsState, from: Path, to: Path, table: Table, after: Table, p: Path)
    requires Sound(table) && Renamed(ws, from, to).result.Ok? && ws.isOpen && from != to
    requires IsRenamed(table, from, to, after) && p in table.toInode && from <= p && p != []
    requires Fits(Rebased(p, from, to))
    ensures var q := Rebased(p, from, to);
            Find(after.toPath, table.toInode[p]) == Some(q) && q != []
                && Get(Renamed(ws, from, to).ws.tree, q) == Get(ws.tree, p)
  {
    hide Look, Get, Renamed, MovedPath, MovedInode, Fits;
    RenameEffect(ws, from, to);
    NumbersFollow(table, from, to, after, p);
    var x := p[|from|..];
    assert p == from + x;
    if x != [] {
      GetConcat(ws.tree, from, x);
      GetConcat(Renamed(ws, from, to).ws.tree, to, x);
    } else {
      assert p == from && to + x == to;
    }
  }

  // ---- operations that take no name away ----

  /** The paths at which an operation puts one file. */
  function Rewritten(t: Tree, op: Op): seq<Path> {
    match op
    case DoWrite(p, _) => WriteTargets(NodeAt(t, p), p)
    case DoLink(existing, extra) =>
      var n := NodeAt(t, existing);
      if n.Some? && n.value.FileN? then Joining(n.value, existing, extra) else []
    case _ => []
  }

  /** One of the paths lies above a numbered one: a file put there takes that path away. */
  ghost predicate AboveNumber(paths: seq<Path>, table: Table) {
    exists q :: q in table.toInode && q != [] && Swept(paths, q)
  }

  lemma BatchInStep(t: Tree, paths: seq<Path>, n: Node, table: Table)
    requires !n.DirN? && InsertAll(t, paths, n).Ok? && InStep(t, table)
    ensures InStep(InsertAll(t, paths, n).value, table) <==> !AboveNumber(paths, table)
  {
    hide Look, InsertAll, LookAfterAll, Swept;
    forall q | q in table.toInode && q != []
      ensures Look(InsertAll(t, paths, n).value, q).Some? <==> !Swept(paths, q)
    {
      AnyBatchLook(t, paths, n, q);
      if !Swept(paths, q) {
        StillSome(t, paths, n, q);
      }
    }
  }

  /** Nothing lies beneath paths that are no directories. */
  lemma NothingAbove(t: Tree, paths: seq<Path>, table: Table)
    requires NoneIsDir(t, paths) && InStep(t, table)
    ensures !AboveNumber(paths, table)
  {
    hide Look, IsDirAt;
    forall q | q in table.toInode && q != []
      ensures !Swept(paths, q)
    {
      assert Look(t, q).Some?;
      if Swept(paths, q) {
        var p :| p in paths && p <= q && p != q;
        assert |p| == |q| ==> p == q;
        NothingBeneath(t, p, q);
      }
    }
  }

  /** A leaf put where no directory is leaves every path that exists. */
  lemma LeafInStep(t: Tree, p: Path, n: Node, table: Table)
    requires !n.DirN? && InsertAll(t, [p], n).Ok? && InStep(t, table) && p != [] && !IsDirAt(t, p)
    ensures InStep(InsertAll(t, [p], n).value, table)
  {
    hide Look, IsDirAt, InsertAll;
    BatchInStep(t, [p], n, table);
    NothingAbove(t, [p], table);
  }

  /** A new directory leaves every path that exists. */
  lemma FreshDirInStep(t: Tree, p: Path, table: Table)
    requires p != [] && Insert(t, p, FRESH_DIR).Ok? && Get(t, p).None? && InStep(t, table)
    ensures InStep(Insert(t, p, FRESH_DIR).value, table)
  {
    hide Insert, Look;
    forall q | q in table.toInode && q != []
      ensures Look(Insert(t, p, FRESH_DIR).value, q).Some?
    {
      InsertLook(t, p, FRESH_DIR, q);
      assert Look(t, q).Some?;
      if p <= q && p != q {
        assert |p| == |q| ==> p == q;
        NothingBeneath(t, p, q);
      }
    }
  }

  /**
   * After any operation but a removal or a rename, tree and table are in step unless the operation put a file
   * above a numbered path, which no tree with sound link groups allows.
   */
  lemma StepInStep(ws: WsState, op: Op, table: Table)
    requires InStep(ws.tree, table) && !op.DoUnlink? && !op.DoRmdir? && !op.DoRename?
    ensures InStep(Step(ws, op).ws.tree, table)
            <==> !(Step(ws, op).result.Ok? && AboveNumber(Rewritten(ws.tree, op), table))
    ensures Step(ws, op).result.Ok? && GroupsOk(ws.tree) ==> !AboveNumber(Rewritten(ws.tree, op), table)
  {
    hide InStep, AboveNumber, GroupsOk, Mkdir, Write, Copied, MakeSymlink, MetaSet, Linked, KvPut, KvDrop;
    match op
    case DoMkdir(p) => MkdirInStep(ws, p, table);
    case DoWrite(p, bytes) => WriteInStep(ws, p, bytes, table);
    case DoCopy(from, to) => CopyInStep(ws, from, to, table);
    case DoSymlink(p, target) => SymlinkInStep(ws, p, target, table);
    case DoSetMeta(p, mode, uid, gid) => MetaInStep(ws, p, mode, uid, gid, table);
    case DoLink(existing, extra) => LinkInStep(ws, existing, extra, table);
    case DoKvSet(ns, key, value) => KvInStep(ws, op, table);
    case DoKvDelete(ns, key) => KvInStep(ws, op, table);
  }

  /** A success leaves the workspace open and something at the path. */
  ghost predicate Leaves(o: Outcome, p: Path) {
    o.result.Ok? ==> o.ws.isOpen && NodeAt(o.ws.tree, p).Some?
  }

  lemma NoPaths(table: Table)
    ensures !AboveNumber([], table)
  {
  }

  lemma KvInStep(ws: WsState, op: Op, table: Table)
    requires InStep(ws.tree, table) && (op.DoKvSet? || op.DoKvDelete?)
    ensures InStep(Step(ws, op).ws.tree, table) && !AboveNumber(Rewritten(ws.tree, op), table)
  {
    hide InStep, AboveNumber, Stage;
    NoPaths(table);
    if op.DoKvSet? {
      StageFrame(ws, [StagedChunk(ChunkDigest(op.value), op.value)]);
    }
  }

  lemma MkdirInStep(ws: WsState, p: Path, table: Table)
    requires InStep(ws.tree, table)
    ensures InStep(Mkdir(ws, p).ws.tree, table) && !AboveNumber(Rewritten(ws.tree, DoMkdir(p)), table)
    ensures Leaves(Mkdir(ws, p), p)
  {
    hide InStep, AboveNumber, Insert, InsertAll, InsertAllNodes;
    NoPaths(table);
    OneInsert(ws.tree, p, FRESH_DIR);
    if ws.isOpen && p != [] && NodeAt(ws.tree, p).None? && Insert(ws.tree, p, FRESH_DIR).Ok? {
      var s := Insert(ws.tree, p, FRESH_DIR).value;
      FreshDirInStep(ws.tree, p, table);
      InsertLook(ws.tree, p, FRESH_DIR, p);
      LookLeaf(s, p);
    }
  }

  lemma WriteInStep(ws: WsState, p: Path, bytes: Str, table: Table)
    requires InStep(ws.tree, table)
    ensures InStep(Write(ws, p, bytes).ws.tree, table)
            <==> !(Write(ws, p, bytes).result.Ok? && AboveNumber(Rewritten(ws.tree, DoWrite(p, bytes)), table))
    ensures Write(ws, p, bytes).result.Ok? && GroupsOk(ws.tree) ==>
              !AboveNumber(Rewritten(ws.tree, DoWrite(p, bytes)), table)
  {
    hide InStep, AboveNumber, GroupsOk, Stage, Extents, InsertAll, InsertAllNodes, WriteTargets, BatchReady;
    StageFrame(ws, Staged(bytes));
    if Write(ws, p, bytes).result.Ok? {
      var there := NodeAt(ws.tree, p);
      BatchInStep(ws.tree, WriteTargets(there, p), WrittenFile(there, bytes), table);
      if GroupsOk(ws.tree) {
        WriteBatch(ws.tree, p, bytes);
        ReadyHasNoDirs(ws.tree, WriteTargets(there, p));
        NothingAbove(ws.tree, WriteTargets(there, p), table);
      }
    }
  }

  lemma CopyInStep(ws: WsState, from: Path, to: Path, table: Table)
    requires InStep(ws.tree, table)
    ensures InStep(Copied(ws, from, to).ws.tree, table)
    ensures !AboveNumber(Rewritten(ws.tree, DoCopy(from, to)), table)
  {
    hide InStep, AboveNumber, InsertAll, InsertAllNodes;
    NoPaths(table);
    if Copied(ws, from, to).result.Ok? {
      LeafInStep(ws.tree, to, Independent(NodeAt(ws.tree, from).value), table);
    }
  }

  lemma SymlinkInStep(ws: WsState, p: Path, target: Str, table: Table)
    requires InStep(ws.tree, table)
    ensures InStep(MakeSymlink(ws, p, target).ws.tree, table)
    ensures !AboveNumber(Rewritten(ws.tree, DoSymlink(p, target)), table)
    ensures Leaves(MakeSymlink(ws, p, target), p)
  {
    hide InStep, AboveNumber, InsertAll, InsertAllNodes;
    NoPaths(table);
    if MakeSymlink(ws, p, target).result.Ok? {
      var n := SymN(FILE_META, target);
      LeafInStep(ws.tree, p, n, table);
      LeafThere(ws.tree, [p], n, p);
    }
  }

  /** Changing metadata neither adds nor takes a path. */
  lemma MetaInStep(ws: WsState, p: Path, mode: Option<u32>, uid: Option<u32>, gid: Option<u32>, table: Table)
    ensures InStep(MetaSet(ws, p, mode, uid, gid).ws.tree, table) <==> InStep(ws.tree, table)
    ensures !AboveNumber(Rewritten(ws.tree, DoSetMeta(p, mode, uid, gid)), table)
    ensures Leaves(MetaSet(ws, p, mode, uid, gid), p)
  {
    hide AboveNumber, Insert, InsertAll, InsertAllNodes, Look, Get;
    NoPaths(table);
    var o := MetaSet(ws, p, mode, uid, gid);
    if o.result.Ok? && o.ws != ws {
      var n := Get(ws.tree, p).value;
      var next := Meta(Or(mode, n.meta.mode), Or(uid, n.meta.uid), Or(gid, n.meta.gid));
      OneInsert(ws.tree, p, WithMeta(n, next));
      forall q | q != []
        ensures Look(o.ws.tree, q).Some? <==> Look(ws.tree, q).Some?
      {
        MetaSamePaths(ws.tree, p, next, q);
      }
      MetaSamePaths(ws.tree, p, next, p);
      LookLeaf(ws.tree, p);
      LookLeaf(o.ws.tree, p);
    }
  }

  lemma MetaSamePaths(t: Tree, p: Path, meta: Meta, q: Path)
    requires p != [] && q != [] && Get(t, p).Some? && Insert(t, p, WithMeta(Get(t, p).value, meta)).Ok?
    ensures Look(Insert(t, p, WithMeta(Get(t, p).value, meta)).value, q).Some? <==> Look(t, q).Some?
  {
    hide Insert;
    InsertLook(t, p, WithMeta(Get(t, p).value, meta), q);
    if p <= q && p != q {
      assert q == p + q[|p|..] && q[|p|..] != [];
      GetConcat(t, p, q[|p|..]);
    } else if q <= p && q != p {
      AncestorsAreDirs(t, p, |q|);
      assert q == p[..|q|];
    }
  }

  lemma LinkInStep(ws: WsState, existing: Path, extra: Path, table: Table)
    requires InStep(ws.tree, table)
    ensures InStep(Linked(ws, existing, extra).ws.tree, table)
            <==> !(Linked(ws, existing, extra).result.Ok?
                   && AboveNumber(Rewritten(ws.tree, DoLink(existing, extra)), table))
    ensures Linked(ws, existing, extra).result.Ok? && GroupsOk(ws.tree) ==>
              !AboveNumber(Rewritten(ws.tree, DoLink(existing, extra)), table)
    ensures Leaves(Linked(ws, existing, extra), extra)
  {
    hide InStep, AboveNumber, GroupsOk, InsertAll, InsertAllNodes, SortPaths, BatchReady, Insertable, AllInsertable;
    hide TakesGroups, GroupIsBatch;
    if Linked(ws, existing, extra).result.Ok? {
      var n := NodeAt(ws.tree, existing).value;
      var group := Joining(n, existing, extra);
      BatchInStep(ws.tree, group, GroupFile(group, n), table);
      SortPathsAscends(Elements(Members(n, existing)) + {extra});
      OrderedUnnested(ws.tree, group, GroupFile(group, n));
      LeafThere(ws.tree, group, GroupFile(group, n), extra);
      if GroupsOk(ws.tree) {
        LookLeaf(ws.tree, existing);
        LookLeaf(ws.tree, extra);
        LinkBatch(ws.tree, existing, extra);
        if Insertable(ws.tree, extra) {
          ReadyHasNoDirs(ws.tree, group);
          NothingAbove(ws.tree, group, table);
        } else {
          BatchBlocked(ws.tree, group, GroupFile(group, n), extra);
        }
      }
    }
  }

  /** Closing a handle writes at most one file. */
  lemma ClosedInStep(ws: WsState, p: Path, bytes: Str, meta: Meta, dirty: bool, origin: Option<Digest>, table: Table)
    requires InStep(ws.tree, table)
    ensures InStep(Closed(ws, p, bytes, meta, dirty, origin).ws.tree, table)
            <==> !(Flushes(ws, p, bytes, dirty, origin)
                   && AboveNumber(Rewritten(ws.tree, DoWrite(p, bytes)), table))
    ensures Flushes(ws, p, bytes, dirty, origin) && GroupsOk(ws.tree) ==>
              !AboveNumber(Rewritten(ws.tree, DoWrite(p, bytes)), table)
  {
    hide InStep, AboveNumber, GroupsOk, StillThere, Write, MetaSet, Rewritten;
    if ws.isOpen && dirty && StillThere(ws.tree, p, origin) {
      WriteInStep(ws, p, bytes, table);
      var o := Write(ws, p, bytes);
      if o.result.Ok? && meta != FILE_META {
        MetaInStep(o.ws, p, Some(meta.mode), Some(meta.uid), Some(meta.gid), table);
      }
    }
  }

  /** The close reaches the workspace: it writes the file. */
  ghost predicate Flushes(ws: WsState, p: Path, bytes: Str, dirty: bool, origin: Option<Digest>) {
    ws.isOpen && dirty && StillThere(ws.tree, p, origin) && Write(ws, p, bytes).result.Ok?
  }

  /** Creating a file: what was there is emptied, and nothing but a file can have been there. */
  ghost function Created(ws: WsState, p: Path): CloseOutcome {
    match OpeningOf(ws, map[], p, true, true)
    case Err(e) => CloseOutcome(ws, Err(e))
    case Ok(o) => Closed(ws, p, o.bytes, o.meta, o.dirty, o.origin)
  }

  /** The creation reaches the workspace. */
  ghost predicate Creates(ws: WsState, p: Path) {
    OpeningOf(ws, map[], p, true, true).Ok? && Write(ws, p, []).result.Ok?
  }

  /**
   * A creation that succeeds has made an empty file or, where the path is no name of the file it held or a name of
   * it lies above the path, left what was there or taken it away.
   */
  lemma CreatedIsFile(ws: WsState, p: Path)
    requires Created(ws, p).result.Ok?
    ensures ws.isOpen && Created(ws, p).ws.isOpen && p != []
    ensures var there, now := NodeAt(ws.tree, p), NodeAt(Created(ws, p).ws.tree, p);
            && now == AfterWrite(there, p, [])
            && (now.Some? ==> now.value.FileN?)
            && (GroupsOk(ws.tree) ==> now == Some(WrittenFile(there, [])))
  {
    hide Write, GroupsOk, StillThere;
    assert StillThere(ws.tree, p, OpeningOf(ws, map[], p, true, true).value.origin) by {
      OpenedStillThere(ws, p);
    }
    WriteLeaves(ws, p, []);
    WriteLeavesOpen(ws, p, []);
    var there := NodeAt(ws.tree, p);
    if GroupsOk(ws.tree) {
      WrittenAt(there, p, []);
    }
    hide Insert, InsertAll, InsertAllNodes, NodeAt;
  }

  lemma OpenedStillThere(ws: WsState, p: Path)
    requires OpeningOf(ws, map[], p, true, true).Ok?
    ensures StillThere(ws.tree, p, OpeningOf(ws, map[], p, true, true).value.origin)
  {
    hide EntryDigest, ToEntry;
  }

  lemma CreatedInStep(ws: WsState, p: Path, table: Table)
    requires InStep(ws.tree, table)
    ensures InStep(Created(ws, p).ws.tree, table)
            <==> !(Creates(ws, p) && AboveNumber(Rewritten(ws.tree, DoWrite(p, [])), table))
    ensures Creates(ws, p) && GroupsOk(ws.tree) ==> !AboveNumber(Rewritten(ws.tree, DoWrite(p, [])), table)
  {
    hide InStep, AboveNumber, GroupsOk, StillThere, Write, Closed, Rewritten;
    var o := OpeningOf(ws, map[], p, true, true);
    if o.Ok? {
      OpenedStillThere(ws, p);
      ClosedInStep(ws, p, [], o.value.meta, true, o.value.origin, table);
    }
  }

  lemma FailedLink(ws: WsState, existing: Path, extra: Path)
    ensures Linked(ws, existing, extra).result.Err? ==> Linked(ws, existing, extra).ws == ws
  {
    hide InsertAll, InsertAllNodes, SortPaths;
  }

  /** Numbering a path that exists. */
  lemma NumberInStep(t: Tree, table: Table, p: Path)
    requires p != [] && Look(t, p).Some?
    ensures InStep(t, WithNumber(table, p)) <==> InStep(t, table)
  {
    hide Look;
  }

  /** A batch in path order that goes through has no path above another: the lower one would have been blocked. */
  lemma {:induction false} OrderedUnnested(t: Tree, paths: seq<Path>, n: Node)
    requires !n.DirN? && InsertAll(t, paths, n).Ok? && Ascending(paths, PathKey)
    ensures Unnested(paths) && [] !in paths
    decreases |paths|
  {
    hide PathKey;
    if paths != [] {
      var p, rest := paths[0], paths[1..];
      var s := Insert(t, p, n).value;
      OrderedUnnested(s, rest, n);
      HeadAndTail(paths);
      forall q | q in rest
        ensures !(p <= q) && !(q <= p)
      {
        NotBefore(p, q);
        BlockedBeneath(t, p, rest, n, q);
      }
    }
  }

  lemma BlockedBeneath(t: Tree, p: Path, rest: seq<Path>, n: Node, q: Path)
    requires !n.DirN? && Insert(t, p, n).Ok? && InsertAll(Insert(t, p, n).value, rest, n).Ok?
    requires q in rest && [] !in rest && p != q
    ensures !(p <= q)
  {
    hide InsertAll;
    if p <= q {
      var s := Insert(t, p, n).value;
      InsertLook(t, p, n, p);
      LookLeaf(s, p);
      hide Insert;
      assert q[..|p|] == p && 0 < |p| < |q|;
      assert !Insertable(s, q);
      BatchBlocked(s, rest, n, q);
    }
  }

  lemma NotBefore(p: Path, q: Path)
    requires LexLt(PathKey(p), PathKey(q))
    ensures p != q && !(q <= p)
  {
    hide PathKey;
    LexIrreflexive(PathKey(p));
    if q <= p && p != q {
      assert |p| == |q| ==> p == q;
      AncestorSortsFirst(q, p);
      LexTransitive(PathKey(p), PathKey(q), PathKey(p));
    }
  }

  /** A leaf of a batch that no other path of the batch lies above. */
  lemma LeafThere(t: Tree, paths: seq<Path>, n: Node, p: Path)
    requires !n.DirN? && InsertAll(t, paths, n).Ok? && p != [] && p in paths && !Swept(paths, p)
    ensures NodeAt(InsertAll(t, paths, n).value, p) == Some(n)
  {
    hide InsertAll, Look;
    AnyBatchLook(t, paths, n, p);
    LookLeaf(InsertAll(t, paths, n).value, p);
  }

  lemma SameNumbers(t: Tree, a: Table, b: Table)
    requires a.toInode == b.toInode
    ensures InStep(t, a) <==> InStep(t, b)
  {
    hide Look;
  }

  /** A removal that fails changes nothing, or has taken the name and failed on the others. */
  lemma FailedUnlink(ws: WsState, p: Path, table: Table)
    requires InStep(ws.tree, table) && Unlinked(ws, p).result.Err?
    ensures InStep(Unlinked(ws, p).ws.tree, table) <==> Unlinked(ws, p).ws.tree == ws.tree || p !in table.toInode
    ensures GroupsOk(ws.tree) ==> Unlinked(ws, p).ws == ws
  {
    hide Look, InsertAll, InsertAllNodes, RouteNodes, Remove, Without, GroupsOk;
    if GroupsOk(ws.tree) {
      UnlinkLinks(ws, p);
    }
    var s := Unlinked(ws, p).ws.tree;
    if s != ws.tree {
      assert p != [];
      LookLeaf(ws.tree, p);
      RemoveFileEffect(ws.tree, p);
      forall q | q in table.toInode && q != []
        ensures Look(s, q).Some? <==> q != p
      {
        assert Look(ws.tree, q).Some?;
      }
    }
  }

  lemma RmdirFails(ws: WsState, p: Path)
    ensures Rmdir(ws, p).result.Err? ==> Rmdir(ws, p).ws == ws
  {
    hide Remove, RouteNodes;
  }

  /** What a rename's result says about its paths. */
  lemma RenameOutcome(ws: WsState, from: Path, to: Path)
    ensures Renamed(ws, from, to).result.Err? ==> Renamed(ws, from, to).ws == ws
    ensures Renamed(ws, from, to).result.Ok? ==> ws.isOpen && (from == to ==> Renamed(ws, from, to).ws == ws)
    ensures Renamed(ws, from, to).result.Ok? ==> Movable(from, to)
  {
    hide Insert, Remove, RouteNodes, RenameRefused, Look;
    if Renamed(ws, from, to).result.Ok? && from != to {
      RenameEffect(ws, from, to);
    }
  }
}
