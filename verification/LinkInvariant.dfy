/** Exactly which operations keep hard-link groups consistent, over single steps and whole runs. */
module LinkInvariant {
  import opened Base
  import opened Paths
  import opened Trees
  import opened TreeOps
  import opened Nodes
  import opened Chunks
  import opened WorkspaceSpec
  import opened Links
  import opened LinkGroups

  /** Nothing at or beneath `p` has more than one name. */
  ghost predicate NoLinksUnder(t: Tree, p: Path) {
    forall q | q != [] && p <= q :: !LinkedAt(t, q)
  }

  /** The operation does not move, replace or detach one name of a linked file alone. */
  ghost predicate TameGroups(t: Tree, op: Op) {
    match op
    case DoRename(from, to) => from == to || (from != [] && to != [] && NoLinksUnder(t, from) && !LinkedAt(t, to))
    case DoCopy(_, to) => to == [] || !LinkedAt(t, to)
    case _ => true
  }

  /** Nor does it change the metadata of one name alone. */
  ghost predicate Tame(t: Tree, op: Op) {
    && TameGroups(t, op)
    && (op.DoSetMeta? ==> op.path == [] || !LinkedAt(t, op.path))
  }

  /** A tree in which a group is broken at `p`, through its member `q`. */
  lemma BrokenGroup(t: Tree, p: Path, q: Path)
    requires p != [] && LinkedAt(t, p) && q in Look(t, p).value.links && !MemberOf(t, q, Look(t, p).value.links)
    ensures !GroupsOk(t)
  {
  }

  /** A group has another member. */
  lemma OtherMember(t: Tree, p: Path) returns (m: Path)
    requires GroupsOk(t) && p != [] && LinkedAt(t, p)
    ensures m != p && m in Look(t, p).value.links && MemberOf(t, m, Look(t, p).value.links)
    ensures p in Look(t, p).value.links
  {
    var links := Look(t, p).value.links;
    assert GroupOk(t, p, links);
    hide Look, Ascending;
    AscendsDistinct(links);
    m := if links[0] == p then links[1] else links[0];
    assert m in links;
  }

  lemma AscendsDistinct(links: seq<Path>)
    requires Ascending(links, PathKey) && |links| > 1
    ensures links[0] != links[1]
  {
    LexIrreflexive(PathKey(links[0]));
  }

  // ---- one path replaced by a leaf ----

  /** Replacing one non-directory by a file or symlink without links. */
  lemma ReplaceEffect(t: Tree, p: Path, n: Node)
    requires p != [] && !IsDirAt(t, p) && !n.DirN? && InsertAll(t, [p], n).Ok? && GroupsOk(t)
    ensures var s := InsertAll(t, [p], n).value;
            && Look(s, p) == Some(n)
            && (forall q | q != [] && q != p && Look(t, q).Some? :: Look(s, q) == Look(t, q))
            && (LinksOf(n) == [] && !LinkedAt(t, p) ==> GroupsOk(s) && (LinksOk(t) ==> LinksOk(s)))
            && (LinksOf(n) == [] && LinkedAt(t, p) ==> !GroupsOk(s))
  {
    hide InsertAll, Look, LookAfterAll, IsDirAt, Ascending;
    var s := InsertAll(t, [p], n).value;
    SingleReady(t, p);
    BatchEffect(t, [p], n);
    forall q | q != [] && q != p && Look(t, q).Some?
      ensures Look(s, q) == Look(t, q)
    {
      OthersUnaffected(t, [p], n, q);
    }
    assert Look(s, p) == Some(n) by {
      AtBatch(t, [p], n, p);
    }
    if LinksOf(n) == [] {
      if LinkedAt(t, p) {
        var m := OtherMember(t, p);
        BrokenGroup(s, m, p);
      } else {
        BatchKeepsGroups(t, s, [p], n);
      }
    }
  }

  lemma AtBatch(t: Tree, paths: seq<Path>, n: Node, q: Path)
    requires q != [] && q in paths
    ensures LookAfterAll(t, paths, n, q) == Some(n)
  {
  }

  lemma OneInsert(t: Tree, p: Path, n: Node)
    ensures InsertAll(t, [p], n) == Insert(t, p, n)
  {
    hide Insert;
    assert [p][1..] == [];
  }

  // ---- each operation ----

  lemma MkdirLinks(ws: WsState, p: Path)
    requires GroupsOk(ws.tree)
    ensures var after := Mkdir(ws, p).ws.tree;
            GroupsOk(after) && (LinksOk(ws.tree) ==> LinksOk(after))
    ensures Mkdir(ws, p).result.Err? ==> Mkdir(ws, p).ws == ws
  {
    hide InsertAll, InsertAllNodes, GroupsOk, NamesAgree;
    OneInsert(ws.tree, p, FRESH_DIR);
    if ws.isOpen && p != [] && NodeAt(ws.tree, p).None? && Insert(ws.tree, p, FRESH_DIR).Ok? {
      LookLeaf(ws.tree, p);
      MkdirEffect(ws.tree, p);
      SameLinkedKeeps(ws.tree, Insert(ws.tree, p, FRESH_DIR).value);
    }
  }

  lemma WriteLinks(ws: WsState, p: Path, bytes: Str)
    requires GroupsOk(ws.tree)
    ensures var after := Write(ws, p, bytes).ws.tree;
            GroupsOk(after) && (LinksOk(ws.tree) ==> LinksOk(after))
    ensures Write(ws, p, bytes).result.Err? ==> Write(ws, p, bytes).ws.tree == ws.tree
  {
    hide InsertAll, InsertAllNodes, Stage, WriteTargets, Extents, LookAfterAll, GroupsOk, NamesAgree, BatchReady;
    hide TakesGroups;
    StageFrame(ws, Staged(bytes));
    var there := NodeAt(ws.tree, p);
    if !(there.Some? && there.value.DirN?) {
      var paths, n := WriteTargets(there, p), WrittenFile(there, bytes);
      WriteBatch(ws.tree, p, bytes);
      BatchEffect(ws.tree, paths, n);
      if InsertAll(ws.tree, paths, n).Ok? {
        assert NoneIsDir(ws.tree, paths) by {
          ReadyHasNoDirs(ws.tree, paths);
        }
        BatchKeepsGroups(ws.tree, InsertAll(ws.tree, paths, n).value, paths, n);
      }
    }
  }

  lemma ReadyHasNoDirs(t: Tree, paths: seq<Path>)
    requires BatchReady(t, paths)
    ensures NoneIsDir(t, paths)
  {
  }

  lemma UnlinkLinks(ws: WsState, p: Path)
    requires GroupsOk(ws.tree)
    ensures var after := Unlinked(ws, p).ws.tree;
            GroupsOk(after) && (LinksOk(ws.tree) ==> LinksOk(after))
    ensures Unlinked(ws, p).result.Err? ==> Unlinked(ws, p).ws == ws
  {
    if ws.isOpen && NodeAt(ws.tree, p).Some? && !NodeAt(ws.tree, p).value.DirN? {
      LookLeaf(ws.tree, p);
      UnlinkEffect(ws, p);
      UnlinkKeepsGroups(ws.tree, Unlinked(ws, p).ws.tree, p);
    }
  }

  lemma UnlinkKeepsGroups(t: Tree, s: Tree, p: Path)
    requires GroupsOk(t) && p != [] && Look(t, p).Some? && !Look(t, p).value.DirN?
    requires forall q | q != [] :: Look(s, q) == LookAfterUnlink(t, p, Look(t, p).value, q)
    ensures GroupsOk(s) && (LinksOk(t) ==> LinksOk(s))
  {
    hide Look, Ascending, GroupsOk;
    forall q | q != [] && LinkedAt(s, q)
      ensures GroupOk(s, q, Look(s, q).value.links)
      ensures NamesAgree(t) ==> forall m | m != [] && m in Look(s, q).value.links :: Look(s, m) == Look(s, q)
    {
      UnlinkMember(t, s, p, q);
    }
    assert GroupsOk(s) by {
      GroupsFromMembers(s);
    }
  }

  lemma GroupsFromMembers(s: Tree)
    requires forall q | q != [] && LinkedAt(s, q) :: GroupOk(s, q, Look(s, q).value.links)
    ensures GroupsOk(s)
  {
  }

  lemma UnlinkMember(t: Tree, s: Tree, p: Path, q: Path)
    requires GroupsOk(t) && p != [] && Look(t, p).Some? && !Look(t, p).value.DirN?
    requires forall x | x != [] :: Look(s, x) == LookAfterUnlink(t, p, Look(t, p).value, x)
    requires q != [] && LinkedAt(s, q)
    ensures GroupOk(s, q, Look(s, q).value.links)
    ensures NamesAgree(t) ==> forall m | m != [] && m in Look(s, q).value.links :: Look(s, m) == Look(s, q)
  {
    hide Look, Ascending;
    var n := Look(t, p).value;
    var remaining := Without(LinksOf(n), p);
    if q in remaining && n.FileN? {
      assert LinkedAt(t, p) && GroupOk(t, p, n.links);
      WithoutAscends(n.links, p);
      forall m | m in remaining
        ensures m != [] && Look(s, m) == Some(GroupFile(remaining, n))
      {
        assert MemberOf(t, m, n.links);
      }
    } else {
      assert q != p && Look(s, q) == Look(t, q);
      var links := Look(t, q).value.links;
      assert LinkedAt(t, q) && GroupOk(t, q, links);
      forall m | m in links
        ensures m != [] && Look(s, m) == Look(t, m) && MemberOf(t, m, links)
      {
        assert MemberOf(t, m, links);
        OneGroup(t, p, q, m);
      }
    }
  }

  /** A member of q's group is p or another name of p's file only if q is. */
  lemma OneGroup(t: Tree, p: Path, q: Path, m: Path)
    requires GroupsOk(t) && p != [] && Look(t, p).Some? && !Look(t, p).value.DirN?
    requires q != [] && LinkedAt(t, q) && m in Look(t, q).value.links
    ensures var remaining := Without(LinksOf(Look(t, p).value), p);
            m == p || m in remaining ==> q == p || (q in remaining && Look(t, p).value.FileN?)
  {
    hide Look, Ascending;
    var n, links := Look(t, p).value, Look(t, q).value.links;
    assert GroupOk(t, q, links) && MemberOf(t, m, links);
    if m in LinksOf(n) {
      assert LinkedAt(t, p) && GroupOk(t, p, n.links);
      assert MemberOf(t, m, n.links);
    }
  }

  lemma RmdirLinks(ws: WsState, p: Path)
    requires GroupsOk(ws.tree)
    ensures var after := Rmdir(ws, p).ws.tree;
            GroupsOk(after) && (LinksOk(ws.tree) ==> LinksOk(after))
    ensures Rmdir(ws, p).result.Err? ==> Rmdir(ws, p).ws == ws
  {
    hide Remove, RouteNodes, GroupsOk, NamesAgree, Look;
    if Rmdir(ws, p).result.Ok? {
      assert Remove(ws.tree, []) == Err(InvalidPath) by {
        RemoveRoot(ws.tree);
      }
      RmdirEffect(ws.tree, p);
      SameLinkedKeeps(ws.tree, Remove(ws.tree, p).value);
    }
  }

  lemma RemoveRoot(t: Tree)
    ensures Remove(t, []) == Err(InvalidPath)
  {
  }

  lemma LinkLinks(ws: WsState, existing: Path, extra: Path)
    requires GroupsOk(ws.tree)
    ensures var after := Linked(ws, existing, extra).ws.tree;
            GroupsOk(after) && (LinksOk(ws.tree) ==> LinksOk(after))
    ensures Linked(ws, existing, extra).result.Err? ==> Linked(ws, existing, extra).ws == ws
  {
    hide InsertAll, InsertAllNodes, LookAfterAll, GroupsOk, NamesAgree, BatchReady, TakesGroups, SortPaths;
    hide Insertable, AllInsertable;
    if ws.isOpen && existing != [] && extra != [] && NodeAt(ws.tree, existing).Some?
        && NodeAt(ws.tree, existing).value.FileN?
       && NodeAt(ws.tree, extra).None? {
      LookLeaf(ws.tree, existing);
      LookLeaf(ws.tree, extra);
      hide Look, Get;
      LinkBatch(ws.tree, existing, extra);
      var n := Look(ws.tree, existing).value;
      var group := Joining(n, existing, extra);
      var file := GroupFile(group, n);
      if Insertable(ws.tree, extra) {
        BatchEffect(ws.tree, group, file);
        ReadyHasNoDirs(ws.tree, group);
        BatchKeepsGroups(ws.tree, InsertAll(ws.tree, group, file).value, group, file);
      } else {
        BatchBlocked(ws.tree, group, file, extra);
      }
    }
  }

  lemma SymlinkLinks(ws: WsState, p: Path, target: Str)
    requires GroupsOk(ws.tree)
    ensures var after := MakeSymlink(ws, p, target).ws.tree;
            GroupsOk(after) && (LinksOk(ws.tree) ==> LinksOk(after))
    ensures MakeSymlink(ws, p, target).result.Err? ==> MakeSymlink(ws, p, target).ws == ws
  {
    hide InsertAll, InsertAllNodes, GroupsOk, NamesAgree;
    if MakeSymlink(ws, p, target).result.Ok? {
      LookLeaf(ws.tree, p);
      ReplaceEffect(ws.tree, p, SymN(FILE_META, target));
    }
  }

  lemma CopyLinks(ws: WsState, from: Path, to: Path)
    requires GroupsOk(ws.tree)
    ensures var o := Copied(ws, from, to);
            && (o.result.Err? ==> o.ws.tree == ws.tree)
            && (o.result.Ok? ==> (GroupsOk(o.ws.tree) <==> TameGroups(ws.tree, DoCopy(from, to))))
            && (o.result.Ok? && LinksOk(ws.tree) ==> (LinksOk(o.ws.tree) <==> TameGroups(ws.tree, DoCopy(from, to))))
  {
    hide InsertAll, InsertAllNodes, GroupsOk, NamesAgree;
    if Copied(ws, from, to).result.Ok? {
      var n := NodeAt(ws.tree, from).value;
      ReplaceEffect(ws.tree, to, Independent(n));
    }
  }

  lemma MetaLinks(ws: WsState, p: Path, mode: Option<u32>, uid: Option<u32>, gid: Option<u32>)
    requires GroupsOk(ws.tree)
    ensures var o := MetaSet(ws, p, mode, uid, gid);
            && GroupsOk(o.ws.tree)
            && (o.result.Err? ==> o.ws == ws)
            && (LinksOk(ws.tree) ==> (LinksOk(o.ws.tree) <==>
                                      o.ws.tree == ws.tree || Tame(ws.tree, DoSetMeta(p, mode, uid, gid))))
  {
    hide InsertAll, InsertAllNodes, GroupsOk, LinksOk;
    var o := MetaSet(ws, p, mode, uid, gid);
    if o.result.Ok? && o.ws != ws {
      var n := Get(ws.tree, p).value;
      var next := Meta(Or(mode, n.meta.mode), Or(uid, n.meta.uid), Or(gid, n.meta.gid));
      OneInsert(ws.tree, p, WithMeta(n, next));
      LookLeaf(ws.tree, p);
      if n.DirN? {
        DirMetaEffect(ws.tree, p, next);
        SameLinkedKeeps(ws.tree, o.ws.tree);
      } else {
        FileMetaEffect(ws.tree, p, next);
      }
    }
  }

  lemma FileMetaEffect(t: Tree, p: Path, meta: Meta)
    requires GroupsOk(t) && p != [] && Look(t, p).Some? && !Look(t, p).value.DirN? && !IsDirAt(t, p)
    requires Look(t, p).value.meta != meta && InsertAll(t, [p], WithMeta(Look(t, p).value, meta)).Ok?
    ensures var s := InsertAll(t, [p], WithMeta(Look(t, p).value, meta)).value;
            && GroupsOk(s) && s != t
            && (LinksOk(t) ==> (LinksOk(s) <==> !LinkedAt(t, p)))
  {
    hide InsertAll, IsDirAt, Ascending, Look;
    var n := WithMeta(Look(t, p).value, meta);
    var s := InsertAll(t, [p], n).value;
    ReplaceEffect(t, p, n);
    if LinkedAt(t, p) {
      forall q | q != [] && LinkedAt(s, q)
        ensures GroupOk(s, q, Look(s, q).value.links)
      {
        var links := Look(s, q).value.links;
        if q != p {
          OnlyAtPath(t, s, p, n, q);
        }
        assert LinkedAt(t, q) && GroupOk(t, q, links);
        forall m | m in links
          ensures MemberOf(s, m, links)
        {
          assert MemberOf(t, m, links);
        }
      }
      var m := OtherMember(t, p);
      assert Look(s, m) == Look(t, m) && LinkedAt(s, m);
      assert LinksOk(t) ==> Look(t, p) == Look(t, m);
    }
  }

  /** Replacing an existing file creates no other linked file. */
  lemma OnlyAtPath(t: Tree, s: Tree, p: Path, n: Node, q: Path)
    requires p != [] && Look(t, p).Some? && !IsDirAt(t, p) && !n.DirN? && InsertAll(t, [p], n) == Ok(s)
    requires q != [] && q != p
    ensures Look(s, q) == Look(t, q) || (Look(s, q).Some? && Look(s, q).value.DirN?) || Look(s, q).None?
  {
    SingleReady(t, p);
    hide InsertAll, Look;
    BatchEffect(t, [p], n);
  }

  lemma RenameLinks(ws: WsState, from: Path, to: Path)
    requires GroupsOk(ws.tree)
    ensures var o := Renamed(ws, from, to);
            && (o.result.Err? ==> o.ws == ws)
            && (o.result.Ok? ==> (GroupsOk(o.ws.tree) <==> TameGroups(ws.tree, DoRename(from, to))))
            && (o.result.Ok? && LinksOk(ws.tree) ==> (LinksOk(o.ws.tree) <==> TameGroups(ws.tree, DoRename(from, to))))
  {
    hide Insert, Remove, RouteNodes, RenameRefused, Look, Get;
    var o := Renamed(ws, from, to);
    if o.result.Ok? && from != to {
      RenameEffect(ws, from, to);
      RenameAccepted(ws, from, to);
      var t, s := ws.tree, o.ws.tree;
      if TameGroups(t, DoRename(from, to)) {
        forall q | q != [] && (LinkedAt(t, q) || LinkedAt(s, q))
          ensures Look(s, q) == Look(t, q)
        {
          TameRename(t, s, from, to, q);
        }
        SameLinkedKeeps(t, s);
      } else if !NoLinksUnder(t, from) {
        var q :| q != [] && from <= q && LinkedAt(t, q);
        MovedNameBreaks(t, s, from, to, q);
      } else {
        ReplacedNameBreaks(t, s, from, to);
      }
    }
  }

  lemma RenameAccepted(ws: WsState, from: Path, to: Path)
    requires ws.isOpen && Renamed(ws, from, to).result.Ok? && from != to
    ensures from != [] && to != [] && (forall q | q != [] && to <= q && to != q :: Look(ws.tree, q) == None)
  {
    RenameTarget(ws.tree, from, to);
  }

  lemma TameRename(t: Tree, s: Tree, from: Path, to: Path, q: Path)
    requires from != [] && to != [] && !(from <= to) && !(to <= from) && q != []
    requires forall x | x != [] :: Look(s, x) == LookAfterRename(t, from, to, x)
    requires forall x | x != [] && to <= x && to != x :: Look(t, x) == None
    requires NoLinksUnder(t, from) && !LinkedAt(t, to) && (LinkedAt(t, q) || LinkedAt(s, q))
    ensures Look(s, q) == Look(t, q)
  {
    hide Look;
    assert to <= q ==> from <= from + q[|to|..] && !LinkedAt(t, from + q[|to|..]);
  }

  lemma MovedNameBreaks(t: Tree, s: Tree, from: Path, to: Path, q: Path)
    requires GroupsOk(t) && from != [] && to != [] && !(from <= to) && !(to <= from)
    requires forall x | x != [] :: Look(s, x) == LookAfterRename(t, from, to, x)
    requires q != [] && from <= q && LinkedAt(t, q)
    ensures !GroupsOk(s)
  {
    hide Look, Ascending;
    var moved := to + q[|from|..];
    assert from + moved[|to|..] == q && to <= moved;
    assert Look(s, moved) == Look(t, q);
    assert q in Look(t, q).value.links by {
      assert GroupOk(t, q, Look(t, q).value.links);
    }
    assert NotBoth(from, to, q);
    assert Look(s, q) == None;
    BrokenGroup(s, moved, q);
  }

  lemma ReplacedNameBreaks(t: Tree, s: Tree, from: Path, to: Path)
    requires GroupsOk(t) && from != [] && to != [] && !(from <= to) && !(to <= from)
    requires forall x | x != [] :: Look(s, x) == LookAfterRename(t, from, to, x)
    requires forall x | x != [] && to <= x && to != x :: Look(t, x) == None
    requires LinkedAt(t, to) && NoLinksUnder(t, from)
    ensures !GroupsOk(s)
  {
    hide Look, Ascending;
    var m := OtherMember(t, to);
    assert LinkedAt(t, m) && !(from <= m);
    assert !(to <= m);
    assert Look(s, m) == Look(t, m);
    assert from + to[|to|..] == from;
    assert Look(s, to) == Look(t, from);
    assert !LinkedAt(t, from);
    BrokenGroup(s, m, to);
  }

  // ---- the theorems ----

  /**
   * Every operation that fails leaves a sound tree as it was; an operation that succeeds keeps the groups
   * consistent exactly when it is tame, or when it changed nothing.
   */
  lemma StepLinks(ws: WsState, op: Op)
    requires GroupsOk(ws.tree)
    ensures var o := Step(ws, op);
            && (o.result.Err? ==> o.ws.tree == ws.tree)
            && (o.result.Ok? ==> (GroupsOk(o.ws.tree) <==> o.ws.tree == ws.tree || TameGroups(ws.tree, op)))
            && (o.result.Ok? && LinksOk(ws.tree) ==>
                (LinksOk(o.ws.tree) <==> o.ws.tree == ws.tree || Tame(ws.tree, op)))
  {
    hide GroupsOk, NamesAgree, Mkdir, Write, Unlinked, Rmdir, Renamed, Copied, MakeSymlink, MetaSet, Linked;
    match op
    case DoMkdir(p) => MkdirLinks(ws, p);
    case DoWrite(p, bytes) => WriteLinks(ws, p, bytes);
    case DoUnlink(p) => UnlinkLinks(ws, p);
    case DoRmdir(p) => RmdirLinks(ws, p);
    case DoRename(f, t) => RenameLinks(ws, f, t);
    case DoCopy(f, t) => CopyLinks(ws, f, t);
    case DoSymlink(p, target) => SymlinkLinks(ws, p, target);
    case DoSetMeta(p, mode, uid, gid) => MetaLinks(ws, p, mode, uid, gid);
    case DoLink(e, x) => LinkLinks(ws, e, x);
    case DoKvSet(_, _, _) =>
    case DoKvDelete(_, _) =>
  }

  /** Every operation of a run is tame where it happens. */
  ghost predicate TameRun(ws: WsState, ops: seq<Op>)
    decreases |ops|
  {
    ops == [] || (Tame(ws.tree, ops[0]) && TameRun(Step(ws, ops[0]).ws, ops[1..]))
  }

  /** Over any tame run, every name of a linked file exists, shows the same entry, and lists the same group. */
  lemma {:induction false} RunKeepsLinks(ws: WsState, ops: seq<Op>)
    requires LinksOk(ws.tree) && TameRun(ws, ops)
    ensures LinksOk(Run(ws, ops).tree)
    decreases |ops|
  {
    hide Step, GroupsOk, NamesAgree;
    if ops != [] {
      StepLinks(ws, ops[0]);
      RunKeepsLinks(Step(ws, ops[0]).ws, ops[1..]);
    }
  }

  /** A write through one name is read through all. */
  lemma WriteThroughAll(ws: WsState, p: Path, bytes: Str, q: Path)
    requires LinksOk(ws.tree) && Write(ws, p, bytes).result.Ok? && p != [] && LinkedAt(ws.tree, p)
    requires q in Look(ws.tree, p).value.links
    ensures q != [] && Look(Write(ws, p, bytes).ws.tree, q).Some?
    ensures var n := Look(Write(ws, p, bytes).ws.tree, q).value;
            n.FileN? && n.size == |bytes| && n.extents == Extents(bytes) && n.links == Look(ws.tree, p).value.links
  {
    hide InsertAll, InsertAllNodes, Stage, LookAfterAll, Extents, Ascending;
    var t := ws.tree;
    var there := NodeAt(t, p);
    LookLeaf(t, p);
    assert GroupOk(t, p, Look(t, p).value.links);
    assert MemberOf(t, q, Look(t, p).value.links);
    WriteBatch(t, p, bytes);
    hide Look, Get, BatchReady, TakesGroups, AllInsertable, GroupsOk, NamesAgree;
    StageFrame(ws, Staged(bytes));
    var paths, n := WriteTargets(there, p), WrittenFile(there, bytes);
    assert q in paths;
    BatchEffect(t, paths, n);
    AtBatch(t, paths, n, q);
    assert Write(ws, p, bytes).ws.tree == InsertAll(t, paths, n).value;
  }
}
