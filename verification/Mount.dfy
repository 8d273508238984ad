/** The mount: a workspace and an inode table that must stay in step. */
module Mount {
  import opened Base
  import opened Paths
  import opened Trees
  import opened TreeOps
  import opened Nodes
  import opened Chunks
  import opened Database
  import opened WorkspaceSpec
  import opened OperationLaws
  import opened LinkGroups
  import opened LinkInvariant
  import opened Workspace
  import opened Handles
  import opened Inodes
  import opened MountInvariant

  datatype FileKind = Directory | Regular | Symbolic

  /** What `stat` reports of a path, times aside. */
  datatype Attributes = Attributes(inode: nat, kind: FileKind, size: nat, meta: Meta, nlink: nat)

  const ROOT_ATTRIBUTES := Attributes(ROOT_INODE, Directory, 0, DIR_META, 2)

  /** Attributes as the mount reads them off an entry. */
  function AttributesFrom(inode: nat, entry: Entry): Attributes {
    match entry
    case Dir(meta, _) => Attributes(inode, Directory, 0, meta, 1)
    case File(meta, size, _, links) => Attributes(inode, Regular, size, meta, if |links| > 1 then |links| else 1)
    case Sym(meta, target) => Attributes(inode, Symbolic, |target|, meta, 1)
  }

  ghost function AttributesOf(inode: nat, n: Node): Attributes {
    AttributesFrom(inode, ToEntry(n))
  }

  /** In a sound tree the link count is the number of paths that share the file, and all of them report the same. */
  lemma LinkCountExact(t: Tree, p: Path, i: nat)
    requires LinksOk(t) && p != [] && LinkedAt(t, p)
    ensures var n := Look(t, p).value;
            && AttributesOf(i, n).nlink == |Elements(n.links)|
            && (forall q :: q in Elements(n.links) <==> MemberOf(t, q, n.links))
            && (forall q | q in Elements(n.links) :: AttributesOf(i, Look(t, q).value) == AttributesOf(i, n))
  {
    hide Look;
    var n := Look(t, p).value;
    assert GroupOk(t, p, n.links);
    forall q | MemberOf(t, q, n.links)
      ensures q in n.links
    {
      assert LinkedAt(t, q);
    }
    DistinctCount(n.links);
  }

  lemma {:induction false} DistinctCount(links: seq<Path>)
    requires Ascending(links, PathKey)
    ensures |Elements(links)| == |links|
  {
    hide PathKey;
    if links != [] {
      var last := |links| - 1;
      DistinctCount(links[..last]);
      forall i | 0 <= i < last
        ensures links[i] != links[last]
      {
        LexIrreflexive(PathKey(links[last]));
      }
      assert links == links[..last] + [links[last]];
      assert Elements(links) == Elements(links[..last]) + {links[last]};
    }
  }

  /** The attributes of any entry: its own metadata, its kind, the bytes of its content or target. */
  lemma AttributesTell(inode: nat, n: Node)
    ensures var a := AttributesOf(inode, n);
            && a.inode == inode && a.meta == n.meta
            && (a.kind == Directory <==> n.DirN?) && (a.kind == Regular <==> n.FileN?)
            && (a.kind == Symbolic <==> n.SymN?)
            && (n.DirN? ==> a.size == 0) && (n.FileN? ==> a.size == n.size) && (n.SymN? ==> a.size == |n.target|)
            && a.nlink >= 1
  {
  }

  /** What `stat` reports of a path just written, and of one just made a directory or a symlink. */
  lemma AttributesReported(ws: WsState, p: Path, bytes: Str, inode: nat)
    ensures Write(ws, p, bytes).result.Ok? && GroupsOk(ws.tree) ==>
              && NodeAt(Write(ws, p, bytes).ws.tree, p).Some?
              && var a := AttributesOf(inode, NodeAt(Write(ws, p, bytes).ws.tree, p).value);
                 && a.inode == inode && a.kind == Regular && a.size == |bytes|
                 && a.meta == MetaBefore(ws.tree, p, FILE_META)
    ensures MakeSymlink(ws, p, bytes).result.Ok? ==>
              && NodeAt(MakeSymlink(ws, p, bytes).ws.tree, p).Some?
              && AttributesOf(inode, NodeAt(MakeSymlink(ws, p, bytes).ws.tree, p).value)
                 == Attributes(inode, Symbolic, |bytes|, FILE_META, 1)
    ensures Mkdir(ws, p).result.Ok? && NodeAt(ws.tree, p).None? ==>
              && NodeAt(Mkdir(ws, p).ws.tree, p).Some?
              && AttributesOf(inode, NodeAt(Mkdir(ws, p).ws.tree, p).value)
                 == Attributes(inode, Directory, 0, DIR_META, 1)
  {
    hide Write, MakeSymlink, GroupsOk, NodeAt;
    if Write(ws, p, bytes).result.Ok? && GroupsOk(ws.tree) {
      WriteLeaves(ws, p, bytes);
      WrittenAt(NodeAt(ws.tree, p), p, bytes);
    }
    if MakeSymlink(ws, p, bytes).result.Ok? {
      SymlinkLeaves(ws, p, bytes);
    }
    MkdirLeaves(ws, p);
  }

  /** The metadata of the file at a path, or of a new one. */
  function MetaBefore(t: Tree, p: Path, fallback: Meta): Meta {
    var n := NodeAt(t, p);
    if n.Some? && n.value.FileN? then n.value.meta else fallback
  }

  lemma SymlinkLeaves(ws: WsState, p: Path, target: Str)
    requires MakeSymlink(ws, p, target).result.Ok?
    ensures NodeAt(MakeSymlink(ws, p, target).ws.tree, p) == Some(SymN(FILE_META, target))
  {
    hide Look, InsertAll, InsertAllNodes;
    if p != [] {
      SymlinkEffect(ws, p, target, map[], p);
    }
  }

  lemma MkdirLeaves(ws: WsState, p: Path)
    ensures Mkdir(ws, p).result.Ok? && NodeAt(ws.tree, p).None? ==>
              NodeAt(Mkdir(ws, p).ws.tree, p) == Some(FRESH_DIR)
  {
    hide Insert, InsertAll, InsertAllNodes;
    OneInsert(ws.tree, p, FRESH_DIR);
    if Insert(ws.tree, p, FRESH_DIR).Ok? && p != [] {
      GetInserted(ws.tree, p, FRESH_DIR);
    }
  }

  lemma NumberLeadsBack(table: Table, p: Path)
    requires Sound(table) && p in table.toInode
    ensures table.toInode[p] in table.toPath && table.toPath[table.toInode[p]] == p
  {
  }

  lemma OpensEmpty(ws: WsState, chunks: ChunkMap, p: Path)
    requires ws.isOpen && NodeAt(ws.tree, p).Some? && NodeAt(ws.tree, p).value.FileN?
    ensures var n := NodeAt(ws.tree, p).value;
            OpeningOf(ws, chunks, p, true, true) == Ok(Opening([], n.meta, true, Some(EntryDigest(ToEntry(n)))))
  {
    hide EntryDigest, ToEntry;
  }

  // ---- what the calls answer ----

  /** A number's path, then a name inside it. */
  function PathAt(table: Table, parent: nat, name: Str): Result<Path> {
    if parent in table.toPath then Join(table.toPath[parent], name) else Err(NotFound)
  }

  /** The answer about a path: its attributes, under a number it keeps. */
  ghost predicate Shown(ws: WsState, table: Table, p: Path, r: Result<Attributes>, after: Table) {
    if p == [] then r == Ok(ROOT_ATTRIBUTES) && after == table
    else if !ws.isOpen then r == Err(WorkspaceClosed) && after == table
    else
      match Get(ws.tree, p)
      case None => r == Err(NotFound) && after == table
      case Some(n) => after == WithNumber(table, p) && r == Ok(AttributesOf(after.toInode[p], n))
  }

  /** An operation on a path, then the answer about it; the answer never fails where the operation did not. */
  ghost predicate Answered(o: Outcome, table: Table, p: Path, ws: WsState, r: Result<Attributes>, after: Table) {
    && ws == o.ws
    && (o.result.Err? ==> r == Err(o.result.error) && after == table)
    && (o.result.Ok? ==> r.Ok? && Shown(ws, table, p, r, after))
  }

  class Mount {
    const w: Workspace
    const inodes: InodeTable
    var handles: map<nat, FileHandle>
    var lastHandle: nat

    /** Everything but being in step. */
    ghost predicate Sane()
      reads this, w, w.store, w.store.resident, inodes
    {
      w.Valid() && inodes.Valid() && forall fh | fh in handles :: fh <= lastHandle
    }

    ghost predicate Valid()
      reads this, w, w.store, w.store.resident, inodes
    {
      Sane() && InStep(w.tree, inodes.State())
    }

    constructor (w: Workspace)
      requires w.Valid()
      ensures Valid() && this.w == w && fresh(inodes) && Faithful(inodes.State()) && handles == map[]
    {
      this.w := w;
      this.inodes := new InodeTable();
      this.handles, this.lastHandle := map[], 0;
    }

    method PathIn(parent: nat, name: Str) returns (r: Result<Path>)
      ensures r == PathAt(inodes.State(), parent, name)
    {
      var at := inodes.PathFor(parent);
      if at.None? {
        return Err(NotFound);
      }
      r := Join(at.value, name);
    }

    /** `getattr_path`: the path's own attributes, under a number that leads back to it. */
    method AttrOfPath(p: Path) returns (r: Result<Attributes>)
      requires Sane()
      modifies w`cache, w.store.resident, inodes
      ensures Sane() && w.State() == old(w.State()) && (Valid() <==> old(Valid()))
      ensures Shown(w.State(), old(inodes.State()), p, r, inodes.State())
      ensures Faithful(old(inodes.State())) ==> Faithful(inodes.State())
      ensures p == [] ==> r == Ok(ROOT_ATTRIBUTES)
      ensures p != [] && !w.isOpen ==> r == Err(WorkspaceClosed) && inodes.State() == old(inodes.State())
      ensures p != [] && w.isOpen ==>
                match Get(w.tree, p)
                case None => r == Err(NotFound) && inodes.State() == old(inodes.State())
                case Some(n) => p in inodes.toInode && r == Ok(AttributesOf(inodes.toInode[p], n))
                                && Find(inodes.toPath, inodes.toInode[p]) == Some(p)
                                && (p in old(inodes.toInode) ==> inodes.State() == old(inodes.State()))
    {
      hide IdOf, ToEntry, DirDigest, Stored, Loaded, Coherent, RowsOk, DirRows, Look;
      if p == [] {
        return Ok(ROOT_ATTRIBUTES);
      }
      if !w.isOpen {
        return Err(WorkspaceClosed);
      }
      var found, n := w.Inspect(p);
      if found.None? {
        return Err(NotFound);
      }
      LookLeaf(w.tree, p);
      ghost var table := inodes.State();
      var number := inodes.InodeFor(p);
      NumberInStep(w.tree, table, p);
      r := Ok(AttributesFrom(number, found.value));
    }

    /** `getattr`: in a faithful table the number reported is the number asked about. */
    method GetAttr(inode: nat) returns (r: Result<Attributes>)
      requires Valid()
      modifies w`cache, w.store.resident, inodes
      ensures Valid() && w.State() == old(w.State())
      ensures inode !in old(inodes.toPath) ==> r == Err(NotFound)
      ensures inode in old(inodes.toPath) ==>
                var p := old(inodes.toPath)[inode];
                if p == [] then r == Ok(ROOT_ATTRIBUTES)
                else if !w.isOpen then r == Err(WorkspaceClosed)
                else if Get(w.tree, p).None? then r == Err(NotFound)
                else p in inodes.toInode && r == Ok(AttributesOf(inodes.toInode[p], Get(w.tree, p).value))
      ensures Faithful(old(inodes.State())) && r.Ok? && old(inodes.toPath)[inode] != [] ==> r.value.inode == inode
    {
      hide Get, Look, ToEntry, IdOf;
      var at := inodes.PathFor(inode);
      if at.None? {
        return Err(NotFound);
      }
      r := AttrOfPath(at.value);
    }

    /** `lookup`: the number it gives out leads to the name inside the parent. */
    method Lookup(parent: nat, name: Str) returns (r: Result<Attributes>)
      requires Valid()
      modifies w`cache, w.store.resident, inodes
      ensures Valid() && w.State() == old(w.State())
      ensures parent !in old(inodes.toPath) ==> r == Err(NotFound)
      ensures parent in old(inodes.toPath) ==>
                match Join(old(inodes.toPath)[parent], name)
                case Err(e) => r == Err(e)
                case Ok(p) =>
                  if p == [] then r == Ok(ROOT_ATTRIBUTES)
                  else if !w.isOpen then r == Err(WorkspaceClosed)
                else if Get(w.tree, p).None? then r == Err(NotFound)
                  else r.Ok? && Find(inodes.toPath, r.value.inode) == Some(p)
                       && r.value == AttributesOf(r.value.inode, Get(w.tree, p).value)
    {
      hide Get, Look, ToEntry, IdOf, Join;
      var at := PathIn(parent, name);
      if at.Err? {
        return Err(at.error);
      }
      r := AttrOfPath(at.value);
      if r.Ok? && at.value != [] {
        AttributesTell(inodes.toInode[at.value], Get(w.tree, at.value).value);
      }
    }

    // ---- names ----

    /** `mkdir`. */
    method MakeDirectory(parent: nat, name: Str) returns (r: Result<Attributes>)
      requires Valid()
      modifies w, w.store.resident, inodes
      ensures Valid()
      ensures match old(PathAt(inodes.State(), parent, name))
              case Err(e) => r == Err(e) && w.State() == old(w.State()) && inodes.State() == old(inodes.State())
              case Ok(p) =>
                Answered(Mkdir(old(w.State()), p), old(inodes.State()), p, w.State(), r, inodes.State())
    {
      hide IdOf, DirDigest, Stored, Coherent, RowsOk, DirRows, Look, Mkdir, Join, InStep, AboveNumber, Sound;
      var at := PathIn(parent, name);
      if at.Err? {
        return Err(at.error);
      }
      MkdirInStep(w.State(), at.value, inodes.State());
      var made := w.MakeDir(at.value);
      if made.Err? {
        return Err(made.error);
      }
      r := AttrOfPath(at.value);
    }

    /** `symlink`. */
    method MakeSymbolicLink(parent: nat, name: Str, target: Str) returns (r: Result<Attributes>)
      requires Valid()
      modifies w, w.store.resident, inodes
      ensures Valid()
      ensures match old(PathAt(inodes.State(), parent, name))
              case Err(e) => r == Err(e) && w.State() == old(w.State()) && inodes.State() == old(inodes.State())
              case Ok(p) =>
                Answered(MakeSymlink(old(w.State()), p, target), old(inodes.State()), p, w.State(), r, inodes.State())
    {
      hide IdOf, DirDigest, Stored, Coherent, RowsOk, DirRows, Look, MakeSymlink, Join, InStep, AboveNumber, Sound;
      var at := PathIn(parent, name);
      if at.Err? {
        return Err(at.error);
      }
      SymlinkInStep(w.State(), at.value, target, inodes.State());
      var made := w.MakeLink(at.value, target);
      if made.Err? {
        return Err(made.error);
      }
      r := AttrOfPath(at.value);
    }

    /** `link`. */
    method MakeHardLink(inode: nat, newParent: nat, newName: Str) returns (r: Result<Attributes>)
      requires Valid()
      modifies w, w.store.resident, inodes
      ensures Sane() && (old(GroupsOk(w.tree)) ==> Valid())
      ensures r.Err? ==> Valid() && w.State() == old(w.State()) && inodes.State() == old(inodes.State())
      ensures inode !in old(inodes.toPath) ==> r == Err(NotFound)
      ensures inode in old(inodes.toPath) ==>
                match old(PathAt(inodes.State(), newParent, newName))
                case Err(e) => r == Err(e)
                case Ok(p) =>
                  var existing := old(inodes.toPath[inode]);
                  && Answered(Linked(old(w.State()), existing, p), old(inodes.State()), p, w.State(), r, inodes.State())
                  && (r.Ok? ==> (Valid() <==>
                        !AboveNumber(Rewritten(old(w.tree), DoLink(existing, p)), old(inodes.State()))))
    {
      hide IdOf, DirDigest, Stored, Coherent, RowsOk, DirRows, Look, Linked, Join, InStep, AboveNumber, Sound, GroupsOk;
      hide Rewritten;
      var existing := inodes.PathFor(inode);
      if existing.None? {
        return Err(NotFound);
      }
      var at := PathIn(newParent, newName);
      if at.Err? {
        return Err(at.error);
      }
      LinkInStep(w.State(), existing.value, at.value, inodes.State());
      FailedLink(w.State(), existing.value, at.value);
      var made := w.LinkFile(existing.value, at.value);
      if made.Err? {
        return Err(made.error);
      }
      r := AttrOfPath(at.value);
    }

    /** `setattr`. */
    method SetAttributes(inode: nat, mode: Option<u32>, uid: Option<u32>, gid: Option<u32>)
      returns (r: Result<Attributes>)
      requires Valid()
      modifies w, w.store.resident, inodes
      ensures Valid()
      ensures inode !in old(inodes.toPath) ==>
                r == Err(NotFound) && w.State() == old(w.State()) && inodes.State() == old(inodes.State())
      ensures inode in old(inodes.toPath) ==>
                var p := old(inodes.toPath[inode]);
                Answered(MetaSet(old(w.State()), p, mode, uid, gid), old(inodes.State()), p, w.State(), r,
                         inodes.State())
    {
      hide IdOf, DirDigest, Stored, Coherent, RowsOk, DirRows, Look, MetaSet, InStep, AboveNumber, Sound;
      var at := inodes.PathFor(inode);
      if at.None? {
        return Err(NotFound);
      }
      MetaInStep(w.State(), at.value, mode, uid, gid, inodes.State());
      var changed := w.ChangeMeta(at.value, mode, uid, gid);
      if changed.Err? {
        return Err(changed.error);
      }
      r := AttrOfPath(at.value);
    }

    /**
     * `unlink`: the workspace's file goes, then its number. The two stay in step unless another name of the file
     * lies above a numbered path, or the name went and rewriting the others failed; with sound link groups
     * neither happens.
     */
    method RemoveFile(parent: nat, name: Str) returns (r: Result<Unit>)
      requires Valid()
      modifies w, w.store.resident, inodes
      ensures Sane() && (old(GroupsOk(w.tree)) ==> Valid())
      ensures r.Err? ==> inodes.State() == old(inodes.State())
      ensures match old(PathAt(inodes.State(), parent, name))
              case Err(e) => r == Err(e) && w.State() == old(w.State())
              case Ok(p) =>
                && Outcome(w.State(), r) == Unlinked(old(w.State()), p)
                && (r.Err? ==> (Valid() <==> w.tree == old(w.tree) || p !in inodes.toInode))
                && (r.Ok? ==> inodes.State() == Forgotten(old(inodes.State()), p))
                && (r.Ok? ==> (Valid() <==> old(!NameAboveNumber(w.tree, p, inodes.State()))))
    {
      hide IdOf, DirDigest, Stored, Coherent, RowsOk, DirRows, Look, GroupsOk, Unlinked, Join, NameAboveNumber, Sound;
      hide InStep;
      var at := PathIn(parent, name);
      if at.Err? {
        return Err(at.error);
      }
      ghost var p := at.value;
      ghost var before, table := w.State(), inodes.State();
      r := w.RemoveFile(at.value);
      if r.Err? {
        FailedUnlink(before, p, table);
        return;
      }
      UnlinkInStep(before, p, table);
      inodes.Forget(at.value);
      SameNumbers(w.tree, inodes.State(), table.(toInode := table.toInode - {p}));
    }

    method RemoveDir(parent: nat, name: Str) returns (r: Result<Unit>)
      requires Valid()
      modifies w, w.store.resident, inodes
      ensures Valid()
      ensures r.Err? ==> w.State() == old(w.State()) && inodes.State() == old(inodes.State())
      ensures match old(PathAt(inodes.State(), parent, name))
              case Err(e) => r == Err(e)
              case Ok(p) =>
                && Outcome(w.State(), r) == Rmdir(old(w.State()), p)
                && (r.Ok? ==> inodes.State() == Forgotten(old(inodes.State()), p))
    {
      hide IdOf, DirDigest, Stored, Coherent, RowsOk, DirRows, Look, Rmdir, Join;
      var at := PathIn(parent, name);
      if at.Err? {
        return Err(at.error);
      }
      ghost var p := at.value;
      ghost var before, table := w.State(), inodes.State();
      r := w.RemoveDir(at.value);
      if r.Err? {
        RmdirFails(before, p);
        return;
      }
      RmdirInStep(before, p, table);
      inodes.Forget(at.value);
    }

    /** `rename`: the tree moves, then the numbers. The workspace has refused nested paths by then. */
    method Rename(parent: nat, name: Str, newParent: nat, newName: Str) returns (r: Result<Unit>)
      requires Valid()
      modifies w, w.store.resident, inodes
      ensures Valid()
      ensures r.Err? ==> w.State() == old(w.State()) && inodes.State() == old(inodes.State())
      ensures match old(PathAt(inodes.State(), parent, name))
              case Err(e) => r == Err(e)
              case Ok(from) =>
                match old(PathAt(inodes.State(), newParent, newName))
                case Err(e) => r == Err(e)
                case Ok(to) =>
                  && Outcome(w.State(), r) == Renamed(old(w.State()), from, to)
                  && (r.Ok? <==> old(MayRename(w.State(), from, to)))
                  && (r.Ok? ==> Movable(from, to) && IsRenamed(old(inodes.State()), from, to, inodes.State()))
    {
      hide IdOf, DirDigest, Stored, Coherent, RowsOk, DirRows, Look, Renamed, Join, IsRenamed, Sound, InStep;
      hide MayRename;
      var source := PathIn(parent, name);
      if source.Err? {
        return Err(source.error);
      }
      var target := PathIn(newParent, newName);
      if target.Err? {
        return Err(target.error);
      }
      ghost var from, to := source.value, target.value;
      ghost var before, table := w.State(), inodes.State();
      var moved := w.RenamePath(source.value, target.value);
      RenameOutcome(before, from, to);
      if moved.Err? {
        return moved;
      }
      inodes.Rename(source.value, target.value);
      if from != to {
        RenameInStep(before, from, to, table, inodes.State());
      } else {
        RenameSameInStep(before.tree, from, table, inodes.State());
      }
      r := moved;
    }

    // ---- open files ----

    /** Keep an open file under a number that no open file has. */
    method Keep(h: FileHandle) returns (fh: nat)
      requires Sane()
      modifies this`handles, this`lastHandle
      ensures Sane() && fh !in old(handles) && handles == old(handles)[fh := h]
    {
      lastHandle := lastHandle + 1;
      fh := lastHandle;
      handles := handles[fh := h];
    }

    /** Open to overwrite, and close. */
    method MakeEmpty(p: Path) returns (r: Result<bool>)
      requires w.Valid()
      modifies w, w.store.resident
      ensures w.Valid() && CloseOutcome(w.State(), r) == Created(old(w.State()), p)
    {
      hide IdOf, DirDigest, Stored, Coherent, RowsOk, DirRows, Closed, EntryDigest, ToEntry;
      var h := OpenFile(w, p, true, true);
      if h.Err? {
        return Err(h.error);
      }
      r := Close(w, h.value);
    }

    /** The attributes of a file, and a handle to overwrite it with. */
    method AnswerOpened(p: Path) returns (r: Result<(Attributes, nat)>)
      requires Sane() && w.isOpen && p != [] && (NodeAt(w.tree, p).Some? ==> NodeAt(w.tree, p).value.FileN?)
      modifies this`handles, this`lastHandle, w`cache, w.store.resident, inodes
      ensures Sane() && w.State() == old(w.State()) && (Valid() <==> old(Valid()))
      ensures r.Err? ==> inodes.State() == old(inodes.State()) && handles == old(handles)
      ensures match NodeAt(w.tree, p)
              case None => r == Err(NotFound)
              case Some(n) => r.Ok? && OpenedNew(old(inodes.State()), old(handles), p, n, r.value)
    {
      hide IdOf, DirDigest, Stored, Coherent, RowsOk, DirRows, Look, InStep, EntryDigest, ToEntry, OpeningOf;
      hide Sound;
      var attributes := AttrOfPath(p);
      if attributes.Err? {
        return Err(attributes.error);
      }
      AttributesTell(inodes.toInode[p], NodeAt(w.tree, p).value);
      NumberLeadsBack(inodes.State(), p);
      OpensEmpty(w.State(), w.Visible(), p);
      var fh := OpenHandle(attributes.value.inode, true);
      r := Ok((attributes.value, fh.value));
    }

    /** `create`: the file is emptied or made, then opened to be overwritten. */
    method CreateFile(parent: nat, name: Str) returns (r: Result<(Attributes, nat)>)
      requires Valid()
      modifies this`handles, this`lastHandle, w, w.store.resident, inodes
      ensures Sane() && (old(GroupsOk(w.tree)) ==> Valid())
      ensures r.Err? ==> inodes.State() == old(inodes.State()) && handles == old(handles)
      ensures match old(PathAt(inodes.State(), parent, name))
              case Err(e) => r == Err(e) && w.State() == old(w.State())
              case Ok(p) =>
                var o := Created(old(w.State()), p);
                && w.State() == o.ws
                && (Creates(old(w.State()), p)
                    ==> (Valid() <==> !AboveNumber(Rewritten(old(w.tree), DoWrite(p, [])), old(inodes.State()))))
                && (!Creates(old(w.State()), p) ==> Valid())
                && match o.result
                   case Err(e) => r == Err(e)
                   case Ok(_) =>
                     match NodeAt(w.tree, p)
                     case None => r == Err(NotFound)
                     case Some(n) => r.Ok? && OpenedNew(old(inodes.State()), old(handles), p, n, r.value)
    {
      hide IdOf, DirDigest, Stored, Coherent, RowsOk, DirRows, Look, Join, InStep, AboveNumber, Sound, GroupsOk;
      hide Closed, ReadContent, Created, AfterWrite, WrittenFile, Creates, Rewritten, EntryDigest, ToEntry;
      var at := PathIn(parent, name);
      if at.Err? {
        return Err(at.error);
      }
      CreatedInStep(w.State(), at.value, inodes.State());
      if Created(w.State(), at.value).result.Ok? {
        CreatedIsFile(w.State(), at.value);
      }
      var done := MakeEmpty(at.value);
      if done.Err? {
        return Err(done.error);
      }
      r := AnswerOpened(at.value);
    }

    /** What creating answers: attributes and a new handle that holds nothing of the file yet. */
    ghost predicate OpenedNew(table: Table, before: map<nat, FileHandle>, p: Path, n: Node, r: (Attributes, nat))
      reads this, inodes, handles.Values
    {
      && inodes.State() == WithNumber(table, p) && p in inodes.toInode
      && r.0 == AttributesOf(inodes.toInode[p], n)
      && r.1 !in before && r.1 in handles && handles == before[r.1 := handles[r.1]] && handles[r.1].path == p
      && handles[r.1].Holds(Opening([], n.meta, true, Some(EntryDigest(ToEntry(n)))))
    }

    /** `open`: the file's content is taken along, or dropped. */
    method OpenHandle(inode: nat, truncate: bool) returns (r: Result<nat>)
      requires Sane()
      modifies this`handles, this`lastHandle, w`cache, w.store.resident
      ensures Sane() && w.State() == old(w.State()) && w.Visible() == old(w.Visible())
      ensures r.Err? ==> handles == old(handles)
      ensures inode !in inodes.toPath ==> r == Err(NotFound)
      ensures inode in inodes.toPath ==>
                var p := inodes.toPath[inode];
                match OpeningOf(w.State(), w.Visible(), p, truncate, truncate)
                case Err(e) => r == Err(e)
                case Ok(o) =>
                  && r.Ok? && r.value !in old(handles) && r.value in handles && fresh(handles[r.value])
                  && handles == old(handles)[r.value := handles[r.value]]
                  && handles[r.value].path == p && handles[r.value].Holds(o)
    {
      hide IdOf, DirDigest, Stored, Coherent, RowsOk, DirRows, OpeningOf, Sound;
      var at := inodes.PathFor(inode);
      if at.None? {
        return Err(NotFound);
      }
      var h := OpenFile(w, at.value, truncate, truncate);
      if h.Err? {
        return Err(h.error);
      }
      var fh := Keep(h.value);
      r := Ok(fh);
    }

    /** `release`: the handle goes whatever comes of closing it. */
    method Release(fh: nat) returns (r: Result<bool>)
      requires Valid()
      modifies this`handles, w, w.store.resident
      ensures Sane() && (old(GroupsOk(w.tree)) ==> Valid())
      ensures inodes.State() == old(inodes.State()) && handles == old(handles) - {fh}
      ensures fh !in old(handles) ==> r == Err(NotFound) && w.State() == old(w.State())
      ensures fh in old(handles) ==>
                var h := old(handles[fh]);
                var before, table := old(w.State()), old(inodes.State());
                && CloseOutcome(w.State(), r)
                   == Closed(before, h.path, old(handles[fh].bytes), h.meta, old(handles[fh].dirty), h.origin)
                && (Flushes(before, h.path, old(handles[fh].bytes), old(handles[fh].dirty), h.origin)
                    ==> (Valid() <==>
                           !AboveNumber(Rewritten(before.tree, DoWrite(h.path, old(handles[fh].bytes))), table)))
                && (!Flushes(before, h.path, old(handles[fh].bytes), old(handles[fh].dirty), h.origin) ==> Valid())
    {
      hide IdOf, DirDigest, Stored, Coherent, RowsOk, DirRows, InStep, AboveNumber, Sound, GroupsOk, Closed, Flushes;
      hide Rewritten;
      if fh !in handles {
        return Err(NotFound);
      }
      var h := handles[fh];
      handles := handles - {fh};
      ClosedInStep(w.State(), h.path, h.bytes, h.meta, h.dirty, h.origin, inodes.State());
      r := Close(w, h);
    }
  }
}
