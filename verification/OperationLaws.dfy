/** When renames, copies, symlinks and metadata changes succeed and what they leave, read off lookups alone. */
module OperationLaws {
  import opened Base
  import opened Paths
  import opened Canonical
  import opened Trees
  import opened TreeOps
  import opened Nodes
  import opened Chunks
  import opened WorkspaceSpec
  import opened Links
  import opened LinkGroups
  import opened LinkInvariant

  ghost predicate ShowsDir(t: Tree, p: Path)
    requires p != []
  {
    Look(t, p).Some? && Look(t, p).value.DirN?
  }

  /** Something at `p` that is no directory. */
  ghost predicate ShowsLeaf(t: Tree, p: Path)
    requires p != []
  {
    Look(t, p).Some? && !Look(t, p).value.DirN?
  }

  ghost predicate NothingUnder(t: Tree, p: Path) {
    forall q | q != [] && p <= q && p != q :: Look(t, q).None?
  }

  lemma EmptyShows(t: Tree, p: Path)
    requires p != [] && Get(t, p).Some? && Get(t, p).value.DirN?
    ensures Get(t, p).value.sub.kids == map[] <==> NothingUnder(t, p)
  {
    hide Look;
    var sub := Get(t, p).value.sub;
    if sub.kids == map[] {
      forall q | q != [] && p <= q && p != q
        ensures Look(t, q).None?
      {
        EmptyBeneath(t, p, q);
      }
    } else {
      var n :| n in sub.kids;
      GetConcat(t, p, [n]);
      LookLeaf(t, p + [n]);
      assert p <= p + [n] && p != p + [n];
    }
  }

  // ---- renames ----

  /** What may be moved onto `to`: anything onto nothing, a leaf onto a leaf, a directory onto an empty one. */
  ghost predicate RoomFor(t: Tree, from: Path, to: Path)
    requires from != [] && to != []
  {
    || Look(t, to).None?
    || (ShowsLeaf(t, from) && ShowsLeaf(t, to))
    || (ShowsDir(t, from) && ShowsDir(t, to) && NothingUnder(t, to))
  }

  /** When a rename succeeds. */
  ghost predicate RenameAllowed(t: Tree, from: Path, to: Path) {
    && from != [] && to != []
    && (from == to ||
        (!(from <= to) && Look(t, from).Some? && Insertable(t, to) && RoomFor(t, from, to)))
  }

  /** Why any other rename of an open workspace fails. */
  ghost function RenameError(t: Tree, from: Path, to: Path): Error {
    if from == [] || to == [] || from <= to then InvalidPath
    else if Look(t, from).None? then NotFound
    else if ShowsDir(t, to) && !NothingUnder(t, to) then DirectoryNotEmpty
    else if ShowsDir(t, to) && ShowsLeaf(t, from) then IsADirectory
    else NotADirectory
  }

  /** The workspace is open and the rename succeeds. */
  ghost predicate MayRename(ws: WsState, from: Path, to: Path) {
    ws.isOpen && RenameAllowed(ws.tree, from, to)
  }

  lemma RenameSucceeds(ws: WsState, from: Path, to: Path)
    ensures Renamed(ws, from, to).result.Ok? <==> MayRename(ws, from, to)
    ensures Renamed(ws, from, to).result.Err? && ws.isOpen ==>
              Renamed(ws, from, to).result == Err(RenameError(ws.tree, from, to))
  {
    hide Insert, Remove, RouteNodes, Look, Insertable, NothingUnder, Get;
    if ws.isOpen && from != [] && to != [] && from != to && !(from <= to) {
      LookLeaf(ws.tree, from);
      LookLeaf(ws.tree, to);
      if IsDirAt(ws.tree, to) {
        EmptyShows(ws.tree, to);
      }
      if Get(ws.tree, from).Some? && RenameRefused(Get(ws.tree, from).value, Get(ws.tree, to)).None? {
        MoveGoes(ws.tree, from, to);
      }
    }
  }

  /** An unrefused move goes through unless its destination is blocked. */
  lemma MoveGoes(t: Tree, from: Path, to: Path)
    requires from != [] && to != [] && !(from <= to) && Get(t, from).Some?
    requires RenameRefused(Get(t, from).value, Get(t, to)).None?
    ensures var n := Get(t, from).value;
            && (Insert(t, to, n).Ok? <==> Insertable(t, to))
            && (Insert(t, to, n).Err? ==> Insert(t, to, n) == Err(NotADirectory))
            && (Insert(t, to, n).Ok? ==> Remove(Insert(t, to, n).value, from).Ok?)
  {
    hide Insert, Remove, Look, Insertable, RenameRefused;
    var n := Get(t, from).value;
    InsertSucceeds(t, to, n);
    RenameTarget(t, from, to);
    if Insert(t, to, n).Ok? {
      var s := Insert(t, to, n).value;
      InsertLook(t, to, n, from);
      LookLeaf(t, from);
      LookLeaf(s, from);
      RemoveSucceeds(s, from);
    }
  }

  // ---- copies ----

  /** When a copy succeeds. */
  ghost predicate CopyAllowed(t: Tree, from: Path, to: Path) {
    from != [] && to != [] && ShowsLeaf(t, from) && !ShowsDir(t, to) && Insertable(t, to)
  }

  ghost predicate MayCopy(ws: WsState, from: Path, to: Path) {
    ws.isOpen && CopyAllowed(ws.tree, from, to)
  }

  /** The same content under the same metadata, and no other name. */
  ghost predicate IsCopy(n: Node, m: Node) {
    && m.meta == n.meta
    && (n.FileN? ==> m.FileN? && m.size == n.size && m.extents == n.extents && m.links == [])
    && (n.SymN? ==> m.SymN? && m.target == n.target)
    && (n.DirN? ==> false)
  }

  /** When a copy succeeds. One refused at its destination has been logged; any other refusal leaves no trace. */
  lemma CopySucceeds(ws: WsState, from: Path, to: Path)
    ensures Copied(ws, from, to).result.Ok? <==> MayCopy(ws, from, to)
    ensures Copied(ws, from, to).result.Err? ==>
              Copied(ws, from, to).ws
              == if ws.isOpen && from != [] && to != [] && ShowsLeaf(ws.tree, from) && !ShowsDir(ws.tree, to)
                 then ws.(mutations := ws.mutations + [CopyMutation(Look(ws.tree, from).value, to)])
                 else ws
  {
    if from != [] {
      LookLeaf(ws.tree, from);
    }
    if to != [] {
      LookLeaf(ws.tree, to);
    }
    hide Insert, InsertAllNodes, Insertable;
    if ws.isOpen && NodeAt(ws.tree, from).Some? && !NodeAt(ws.tree, from).value.DirN? {
      var n := Independent(NodeAt(ws.tree, from).value);
      OneInsert(ws.tree, to, n);
      if to != [] {
        InsertSucceeds(ws.tree, to, n);
      }
    }
  }

  /** What a leaf put at one path leaves everywhere. */
  lemma LeafPut(t: Tree, p: Path, n: Node, q: Path)
    requires p != [] && q != [] && !IsDirAt(t, p) && !n.DirN? && InsertAll(t, [p], n).Ok?
    ensures var s := InsertAll(t, [p], n).value;
            && NodeAt(s, p) == Some(n)
            && (q != p && Look(t, q).Some? ==> Look(s, q) == Look(t, q))
            && (q != p && Look(t, q).None? ==> Look(s, q) == if q <= p then Some(FRESH_DIR) else None)
  {
    hide Look, InsertAll, Insert;
    OneInsert(t, p, n);
    InsertLook(t, p, n, p);
    LookLeaf(InsertAll(t, [p], n).value, p);
    InsertLook(t, p, n, q);
    if p <= q && p != q {
      assert |p| == |q| ==> p == q;
      NothingBeneath(t, p, q);
      assert q[|p|..] != [];
    }
  }

  /**
   * A successful copy leaves at its target the content of the source under the source's metadata, so that it reads
   * the same whatever chunks can be seen; it adds missing parents and changes nothing else.
   */
  lemma CopyEffect(ws: WsState, from: Path, to: Path, chunks: ChunkMap, q: Path)
    requires Copied(ws, from, to).result.Ok? && q != []
    ensures var t, s := ws.tree, Copied(ws, from, to).ws.tree;
            && NodeAt(t, from).Some? && NodeAt(s, to).Some? && IsCopy(NodeAt(t, from).value, NodeAt(s, to).value)
            && ReadContent(s, to, chunks) == ReadContent(t, from, chunks)
            && (q != to && Look(t, q).Some? ==> Look(s, q) == Look(t, q))
            && (q != to && Look(t, q).None? ==> Look(s, q) == if q <= to then Some(FRESH_DIR) else None)
  {
    hide Look, InsertAll, InsertAllNodes, Gather;
    CopySucceeds(ws, from, to);
    LookLeaf(ws.tree, to);
    LeafPut(ws.tree, to, Independent(NodeAt(ws.tree, from).value), q);
  }

  // ---- symlinks ----

  lemma SymlinkEffect(ws: WsState, p: Path, target: Str, chunks: ChunkMap, q: Path)
    requires q != []
    ensures var o := MakeSymlink(ws, p, target);
            && (o.result.Ok? <==> ws.isOpen && p != [] && Look(ws.tree, p).None? && Insertable(ws.tree, p))
            && (o.result.Err? ==> o.ws == ws)
            && (o.result.Ok? ==>
                 && NodeAt(o.ws.tree, p) == Some(SymN(FILE_META, target))
                 && ReadContent(o.ws.tree, p, chunks) == Ok(target)
                 && (q != p && Look(ws.tree, q).Some? ==> Look(o.ws.tree, q) == Look(ws.tree, q))
                 && (q != p && Look(ws.tree, q).None? ==>
                      Look(o.ws.tree, q) == if q <= p then Some(FRESH_DIR) else None))
  {
    hide Look, InsertAll, Insert, InsertAllNodes, Insertable;
    var n := SymN(FILE_META, target);
    OneInsert(ws.tree, p, n);
    if p != [] {
      LookLeaf(ws.tree, p);
      InsertSucceeds(ws.tree, p, n);
      if MakeSymlink(ws, p, target).result.Ok? {
        LeafPut(ws.tree, p, n, q);
      }
    }
  }

  // ---- metadata ----

  /** The metadata a change asks for: a field that is not given keeps its value. */
  ghost predicate AsAsked(before: Meta, mode: Option<u32>, uid: Option<u32>, gid: Option<u32>, after: Meta) {
    && (mode.Some? ==> after.mode == mode.value) && (mode.None? ==> after.mode == before.mode)
    && (uid.Some? ==> after.uid == uid.value) && (uid.None? ==> after.uid == before.uid)
    && (gid.Some? ==> after.gid == gid.value) && (gid.None? ==> after.gid == before.gid)
  }

  ghost predicate SameBody(n: Node, m: Node) {
    match n
    case DirN(_, sub) => m.DirN? && m.sub == sub
    case FileN(_, size, extents, links) => m.FileN? && m.size == size && m.extents == extents && m.links == links
    case SymN(_, target) => m.SymN? && m.target == target
  }

  /**
   * A metadata change succeeds wherever something is, the root excepted unless nothing would change there; the
   * entry has the metadata asked for and the body it had, and everything else is as before.
   */
  lemma MetaEffect(ws: WsState, p: Path, mode: Option<u32>, uid: Option<u32>, gid: Option<u32>, q: Path)
    requires q != []
    ensures var o := MetaSet(ws, p, mode, uid, gid);
            && (o.result.Ok? <==> ws.isOpen && if p == [] then AsAsked(DIR_META, mode, uid, gid, DIR_META)
                                               else Look(ws.tree, p).Some?)
            && (o.result.Err? ==> o.ws == ws)
            && (o.result.Ok? && p == [] ==> o.ws == ws)
            && (o.result.Ok? && p != [] ==>
                 && Get(ws.tree, p).Some? && Get(o.ws.tree, p).Some?
                 && AsAsked(Get(ws.tree, p).value.meta, mode, uid, gid, Get(o.ws.tree, p).value.meta)
                 && SameBody(Get(ws.tree, p).value, Get(o.ws.tree, p).value)
                 && (q != p ==> Look(o.ws.tree, q) == Look(ws.tree, q)))
  {
    hide Insert, InsertAll, InsertAllNodes, Look, Get;
    var o := MetaSet(ws, p, mode, uid, gid);
    if p != [] {
      LookLeaf(ws.tree, p);
    }
    if p != [] && ws.isOpen && Get(ws.tree, p).Some? {
      var n := Get(ws.tree, p).value;
      var next := Meta(Or(mode, n.meta.mode), Or(uid, n.meta.uid), Or(gid, n.meta.gid));
      OneInsert(ws.tree, p, WithMeta(n, next));
      ExistingIsInsertable(ws.tree, p);
      InsertSucceeds(ws.tree, p, WithMeta(n, next));
      MetaPut(ws.tree, p, next, q);
    }
  }

  lemma {:induction false} GetInserted(t: Tree, p: Path, n: Node)
    requires p != [] && Insert(t, p, n).Ok?
    ensures Get(Insert(t, p, n).value, p) == Some(n)
    decreases p
  {
    if |p| > 1 {
      GetInserted(SubOf(t, p[0]), p[1..], n);
    }
  }

  /** An entry put back with other metadata. */
  lemma MetaPut(t: Tree, p: Path, meta: Meta, q: Path)
    requires p != [] && q != [] && Get(t, p).Some?
    ensures var n := WithMeta(Get(t, p).value, meta);
            Insert(t, p, n).Ok? ==>
              && Get(Insert(t, p, n).value, p) == Some(n)
              && (q != p ==> Look(Insert(t, p, n).value, q) == Look(t, q))
  {
    hide Insert;
    var n := WithMeta(Get(t, p).value, meta);
    if Insert(t, p, n).Ok? {
      GetInserted(t, p, n);
      InsertLook(t, p, n, q);
      if p <= q && p != q {
        assert q == p + q[|p|..] && q[|p|..] != [];
        GetConcat(t, p, q[|p|..]);
      } else if q <= p && q != p {
        AncestorsAreDirs(t, p, |q|);
        assert q == p[..|q|];
      }
    }
  }

  // ---- why any operation fails ----

  /** The batch is more than the workspace may still hold. */
  predicate TooMuch(ws: WsState, chunks: seq<StagedChunk>) {
    ws.stagedBytes + Incoming(ws.staged, chunks) > ws.stagedLimit
  }

  ghost predicate Blocked(t: Tree, p: Path) {
    !Insertable(t, p)
  }

  /** The first reason against an operation, in the order they are looked at. */
  ghost function Reason(ws: WsState, op: Op): Option<Error> {
    var t := ws.tree;
    if !ws.isOpen then Some(WorkspaceClosed)
    else
      match op
      case DoMkdir(p) =>
        if p == [] || ShowsDir(t, p) then None
        else if ShowsLeaf(t, p) then Some(AlreadyExists)
        else if Blocked(t, p) then Some(NotADirectory)
        else None
      case DoWrite(p, bytes) =>
        if p == [] || ShowsDir(t, p) then Some(IsADirectory)
        else if TooMuch(ws, Staged(bytes)) then Some(OverBudget)
        else if Blocked(t, p) then Some(NotADirectory)
        else None
      case DoUnlink(p) =>
        if p == [] || ShowsDir(t, p) then Some(IsADirectory)
        else if Look(t, p).None? then Some(NotFound)
        else None
      case DoRmdir(p) =>
        if p == [] then Some(if NothingUnder(t, p) then InvalidPath else DirectoryNotEmpty)
        else if Look(t, p).None? then Some(NotFound)
        else if ShowsLeaf(t, p) then Some(NotADirectory)
        else if !NothingUnder(t, p) then Some(DirectoryNotEmpty)
        else None
      case DoRename(from, to) => if RenameAllowed(t, from, to) then None else Some(RenameError(t, from, to))
      case DoCopy(from, to) =>
        if from == [] || ShowsDir(t, from) then Some(IsADirectory)
        else if Look(t, from).None? then Some(NotFound)
        else if to == [] || ShowsDir(t, to) then Some(IsADirectory)
        else if Blocked(t, to) then Some(NotADirectory)
        else None
      case DoSymlink(p, _) =>
        if p == [] || Look(t, p).Some? then Some(AlreadyExists)
        else if Blocked(t, p) then Some(NotADirectory)
        else None
      case DoSetMeta(p, mode, uid, gid) =>
        if p == [] then if AsAsked(DIR_META, mode, uid, gid, DIR_META) then None else Some(IsADirectory)
        else if Look(t, p).None? then Some(NotFound)
        else None
      case DoLink(existing, extra) =>
        if existing == [] || ShowsDir(t, existing) then Some(IsADirectory)
        else if Look(t, existing).None? then Some(NotFound)
        else if !Look(t, existing).value.FileN? then Some(InvalidPath)
        else if extra == [] || Look(t, extra).Some? then Some(AlreadyExists)
        else if Blocked(t, extra) then Some(NotADirectory)
        else None
      case DoKvSet(_, _, value) =>
        if TooMuch(ws, [StagedChunk(ChunkDigest(value), value)]) then Some(OverBudget) else None
      case DoKvDelete(namespace, key) => if (namespace, key) in ws.kv then None else Some(NotFound)
  }

  ghost predicate Explained(ws: WsState, op: Op) {
    Step(ws, op).result == match Reason(ws, op) case None => Ok(()) case Some(e) => Err(e)
  }

  /** In a tree with sound link groups every operation succeeds exactly when there is no reason against it. */
  lemma StepExplained(ws: WsState, op: Op)
    requires GroupsOk(ws.tree)
    ensures Explained(ws, op)
  {
    hide Explained, GroupsOk;
    match op
    case DoMkdir(p) => MkdirExplained(ws, p);
    case DoWrite(p, bytes) => WriteExplained(ws, p, bytes);
    case DoUnlink(p) => UnlinkExplained(ws, p);
    case DoRmdir(p) => RmdirExplained(ws, p);
    case DoRename(from, to) => RenameExplained(ws, from, to);
    case DoCopy(from, to) => CopyExplained(ws, from, to);
    case DoSymlink(p, target) => SymlinkExplained(ws, p, target);
    case DoSetMeta(p, mode, uid, gid) => MetaExplained(ws, p, mode, uid, gid);
    case DoLink(existing, extra) => LinkExplained(ws, existing, extra);
    case DoKvSet(ns, key, value) => KvExplained(ws, op);
    case DoKvDelete(ns, key) => KvExplained(ws, op);
  }

  lemma MkdirExplained(ws: WsState, p: Path)
    ensures Explained(ws, DoMkdir(p))
  {
    hide Insert, InsertAll, InsertAllNodes, Insertable;
    OneInsert(ws.tree, p, FRESH_DIR);
    if p != [] {
      InsertSucceeds(ws.tree, p, FRESH_DIR);
    }
  }

  lemma WriteExplained(ws: WsState, p: Path, bytes: Str)
    requires GroupsOk(ws.tree)
    ensures Explained(ws, DoWrite(p, bytes))
  {
    hide InsertAll, InsertAllNodes, Insertable, Staged, Extents, Incoming, GroupsOk, WriteTargets, WrittenFile;
    hide BatchReady, AllInsertable;
    StageFrame(ws, Staged(bytes));
    var there := NodeAt(ws.tree, p);
    if p != [] && !IsDirAt(ws.tree, p) {
      WriteBatch(ws.tree, p, bytes);
      FileWritten(there, bytes);
      BatchEffect(ws.tree, WriteTargets(there, p), WrittenFile(there, bytes));
    }
  }

  lemma FileWritten(there: Option<Node>, bytes: Str)
    ensures !WrittenFile(there, bytes).DirN?
  {
  }

  lemma UnlinkExplained(ws: WsState, p: Path)
    requires GroupsOk(ws.tree)
    ensures Explained(ws, DoUnlink(p))
  {
    hide InsertAll, InsertAllNodes, RouteNodes, Remove, Without, GroupsOk;
    if p != [] {
      LookLeaf(ws.tree, p);
      if ws.isOpen && ShowsLeaf(ws.tree, p) {
        UnlinkEffect(ws, p);
      }
    }
  }

  lemma RmdirExplained(ws: WsState, p: Path)
    ensures Explained(ws, DoRmdir(p))
  {
    hide Remove, RouteNodes, NothingUnder, Look;
    if p == [] {
      RootShows(ws.tree);
      RemoveRoot(ws.tree);
    } else {
      LookLeaf(ws.tree, p);
      RemoveSucceeds(ws.tree, p);
      if IsDirAt(ws.tree, p) {
        EmptyShows(ws.tree, p);
      }
    }
  }

  lemma RootShows(t: Tree)
    ensures t.kids == map[] <==> NothingUnder(t, [])
  {
    if t.kids == map[] {
      forall q: Path | q != []
        ensures Look(t, q).None?
      {
        LookEmpty(q);
      }
    } else {
      var n :| n in t.kids;
      assert Look(t, [n]).Some?;
    }
  }

  lemma RenameExplained(ws: WsState, from: Path, to: Path)
    ensures Explained(ws, DoRename(from, to))
  {
    hide Renamed, RenameAllowed, RenameError;
    RenameSucceeds(ws, from, to);
    RenamedEnds(ws, from, to);
  }

  lemma RenamedEnds(ws: WsState, from: Path, to: Path)
    ensures Renamed(ws, from, to).result.Ok? ==> Renamed(ws, from, to).result == Ok(())
    ensures !ws.isOpen ==> Renamed(ws, from, to) == Fail(ws, WorkspaceClosed)
  {
    hide Insert, Remove, RouteNodes, RenameRefused;
  }

  lemma CopyExplained(ws: WsState, from: Path, to: Path)
    ensures Explained(ws, DoCopy(from, to))
  {
    hide Insert, InsertAll, InsertAllNodes, Insertable;
    if ws.isOpen && NodeAt(ws.tree, from).Some? && !NodeAt(ws.tree, from).value.DirN? {
      var n := Independent(NodeAt(ws.tree, from).value);
      OneInsert(ws.tree, to, n);
      if to != [] {
        InsertSucceeds(ws.tree, to, n);
      }
    }
  }

  lemma SymlinkExplained(ws: WsState, p: Path, target: Str)
    ensures Explained(ws, DoSymlink(p, target))
  {
    hide Insert, InsertAll, InsertAllNodes, Insertable;
    OneInsert(ws.tree, p, SymN(FILE_META, target));
    if p != [] {
      InsertSucceeds(ws.tree, p, SymN(FILE_META, target));
    }
  }

  lemma MetaExplained(ws: WsState, p: Path, mode: Option<u32>, uid: Option<u32>, gid: Option<u32>)
    ensures Explained(ws, DoSetMeta(p, mode, uid, gid))
  {
    hide Insert, InsertAll, InsertAllNodes;
    if ws.isOpen && p != [] && Get(ws.tree, p).Some? {
      var n := Get(ws.tree, p).value;
      var next := Meta(Or(mode, n.meta.mode), Or(uid, n.meta.uid), Or(gid, n.meta.gid));
      OneInsert(ws.tree, p, WithMeta(n, next));
      ExistingIsInsertable(ws.tree, p);
      InsertSucceeds(ws.tree, p, WithMeta(n, next));
    }
  }

  lemma LinkExplained(ws: WsState, existing: Path, extra: Path)
    requires GroupsOk(ws.tree)
    ensures Explained(ws, DoLink(existing, extra))
  {
    hide InsertAll, InsertAllNodes, GroupsOk, BatchReady, TakesGroups, GroupIsBatch, SortPaths, Insertable;
    hide AllInsertable;
    var t := ws.tree;
    if existing != [] && extra != [] {
      LookLeaf(t, existing);
      LookLeaf(t, extra);
      hide Look, Get;
      if Look(t, existing).Some? && Look(t, existing).value.FileN? && Look(t, extra).None? {
        LinkBatch(t, existing, extra);
        var n := Look(t, existing).value;
        var group := Joining(n, existing, extra);
        if Insertable(t, extra) {
          BatchEffect(t, group, GroupFile(group, n));
        } else {
          BatchBlocked(t, group, GroupFile(group, n), extra);
        }
      }
    }
  }

  lemma KvExplained(ws: WsState, op: Op)
    requires op.DoKvSet? || op.DoKvDelete?
    ensures Explained(ws, op)
  {
    hide Incoming;
    if op.DoKvSet? {
      StageFrame(ws, [StagedChunk(ChunkDigest(op.value), op.value)]);
    }
  }

  // ---- reading ----

  /** Why a read fails, if it does: nothing to read, a directory, or the first bad chunk. */
  lemma ReadExplained(t: Tree, p: Path, chunks: ChunkMap)
    ensures ReadContent(t, p, chunks).Ok? <==>
              && p != [] && ShowsLeaf(t, p)
              && (Look(t, p).value.FileN? ==> forall e <- Look(t, p).value.extents :: IsVerified(e, chunks))
    ensures p == [] || ShowsDir(t, p) ==> ReadContent(t, p, chunks) == Err(IsADirectory)
    ensures p != [] && Look(t, p).None? ==> ReadContent(t, p, chunks) == Err(NotFound)
    ensures p != [] && ShowsLeaf(t, p) && ReadContent(t, p, chunks).Ok? ==>
              ReadContent(t, p, chunks).value == match Look(t, p).value
                                                 case FileN(_, _, extents, _) => Flatten(ExtentBodies(extents, chunks))
                                                 case SymN(_, target) => target
                                                 case DirN(_, _) => []
  {
    hide IsVerified, Gather, ExtentBodies;
    if p != [] && ShowsLeaf(t, p) && Look(t, p).value.FileN? {
      GatherExactly(Look(t, p).value.extents, chunks);
    }
  }

  // ---- what the log says of values ----

  /** Every value the log names is held, at the length the log gives it. */
  ghost predicate SizesTrue(ws: WsState) {
    forall m | m in ws.mutations && m.KvSet? :: m.chunk in ws.staged && |ws.staged[m.chunk]| == m.valueLen
  }

  /** The step added no value to the log and kept what is held. */
  ghost predicate NoValues(ws: WsState, after: WsState) {
    && (forall d | d in ws.staged :: d in after.staged && after.staged[d] == ws.staged[d])
    && (forall m | m in after.mutations && m.KvSet? :: m in ws.mutations)
  }

  lemma StepSizes(ws: WsState, op: Op)
    requires ChunksCoherent(ws.staged) && SizesTrue(ws)
    ensures SizesTrue(Step(ws, op).ws)
  {
    hide ChunksCoherent, SizesTrue, NoValues, Write, Mkdir, Unlinked, Rmdir, Renamed, Copied, MakeSymlink, MetaSet;
    hide Linked, KvPut, KvDrop;
    match op
    case DoKvSet(ns, key, value) => KvSizes(ws, ns, key, value);
    case DoWrite(p, bytes) =>
      WriteNoValues(ws, p, bytes);
      SizesGrow(ws, Step(ws, op).ws);
    case _ =>
      OtherNoValues(ws, op);
      SizesGrow(ws, Step(ws, op).ws);
  }

  lemma WriteNoValues(ws: WsState, p: Path, bytes: Str)
    ensures NoValues(ws, Write(ws, p, bytes).ws)
  {
    hide InsertAll, InsertAllNodes, NodeAt, StageAll, Added, Incoming, Extents, Staged, WriteTargets, WrittenFile;
    StageAllHolds(ws.staged, Staged(bytes));
  }

  lemma OtherNoValues(ws: WsState, op: Op)
    requires !op.DoKvSet? && !op.DoWrite?
    ensures NoValues(ws, Step(ws, op).ws)
  {
    hide Insert, InsertAll, InsertAllNodes, RouteNodes, Remove, NodeAt, RenameRefused, GroupFile, Joining, Without;
    hide SortPaths, Renamed, Copied;
    match op
    case DoMkdir(p) =>
    case DoUnlink(p) =>
    case DoRmdir(p) =>
    case DoRename(from, to) => RenameNoValues(ws, from, to);
    case DoCopy(from, to) => CopyNoValues(ws, from, to);
    case DoSymlink(p, target) =>
    case DoSetMeta(p, mode, uid, gid) =>
    case DoLink(existing, extra) =>
    case DoKvDelete(ns, key) =>
  }

  lemma RenameNoValues(ws: WsState, from: Path, to: Path)
    ensures NoValues(ws, Renamed(ws, from, to).ws)
  {
    hide Insert, RouteNodes, Remove, NodeAt, RenameRefused;
  }

  lemma CopyNoValues(ws: WsState, from: Path, to: Path)
    ensures NoValues(ws, Copied(ws, from, to).ws)
  {
    hide Insert, InsertAll, InsertAllNodes, RouteNodes, NodeAt;
  }

  lemma SizesGrow(ws: WsState, after: WsState)
    requires SizesTrue(ws) && NoValues(ws, after)
    ensures SizesTrue(after)
  {
  }

  lemma KvSizes(ws: WsState, ns: Str, key: Str, value: Str)
    requires ChunksCoherent(ws.staged) && SizesTrue(ws)
    ensures SizesTrue(KvPut(ws, ns, key, value).ws)
  {
    hide Incoming, Added;
    var c := StagedChunk(ChunkDigest(value), value);
    StageFrame(ws, [c]);
    StageAllHolds(ws.staged, [c]);
    assert [c][1..] == [] && StageAll(ws.staged, [c]) == StageOne(ws.staged, c);
    if c.digest in ws.staged {
      SameChunk(ws.staged, value);
    }
  }

  lemma SameChunk(staged: ChunkMap, value: Str)
    requires ChunksCoherent(staged) && ChunkDigest(value) in staged
    ensures staged[ChunkDigest(value)] == value
  {
    hide ChunkDigest;
    ChunkDigestInjective(staged[ChunkDigest(value)], value);
  }

  /** Over any run from a fresh workspace. */
  lemma {:induction false} RunSizes(ws: WsState, ops: seq<Op>)
    requires StagingOk(ws) && SizesTrue(ws)
    ensures SizesTrue(Run(ws, ops))
    decreases |ops|
  {
    hide Step, StagingOk, SizesTrue;
    if ops != [] {
      assert ChunksCoherent(ws.staged) by {
        CoherentlyStaged(ws);
      }
      StepSizes(ws, ops[0]);
      StepKeepsStaging(ws, ops[0]);
      RunSizes(Step(ws, ops[0]).ws, ops[1..]);
    }
  }

  lemma CoherentlyStaged(ws: WsState)
    requires StagingOk(ws)
    ensures ChunksCoherent(ws.staged)
  {
    hide Weight, ChunksCoherent;
  }
}
