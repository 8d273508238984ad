/**
 * The workspace refines the reference model: step by step they agree on success, and after every step of
 * every run the incrementally maintained root is the root the model rebuilds from its flat maps.
 */
module Refinement {
  import opened Base
  import opened Paths
  import opened Canonical
  import opened State
  import opened Trees
  import opened TreeOps
  import opened Nodes
  import opened Chunks
  import opened WorkspaceSpec
  import opened Links
  import opened LinkGroups
  import opened LinkInvariant
  import opened RefModel
  import opened Rebuild

  // ---- the relation ----

  /** The model's maps and the workspace's tree show the same thing at every path. */
  ghost predicate SameLook(t: Tree, m: RefState) {
    forall p | p != [] :: Look(t, p) == RefLook(m, p)
  }

  /** The model holds no symlinks and no metadata: the compared operations make none. */
  predicate Plain(m: RefState) {
    && m.symlinks == map[] && m.meta == map[]
    && [] !in m.dirs && [] !in m.files && m.dirs !! m.files.Keys
    && (forall p | p in m.links :: p in m.files && m.links[p] != [])
  }

  ghost predicate Related(ws: WsState, m: RefState) {
    ws.isOpen && Plain(m) && SameLook(ws.tree, m) && LinksOk(ws.tree) && ws.kv == RefKvMap(m)
  }

  lemma RelatedWellFormed(t: Tree, m: RefState)
    requires Plain(m) && SameLook(t, m)
    ensures WellFormed(m)
  {
    hide Look, Get;
    forall p, k | p in m.dirs + m.files.Keys + m.symlinks.Keys && 0 < k < |p|
      ensures p[..k] in m.dirs
    {
      assert RefLook(m, p).Some?;
      LookLeaf(t, p);
      AncestorsAreDirs(t, p, k);
      LookLeaf(t, p[..k]);
      assert RefLook(m, p[..k]) == Look(t, p[..k]);
    }
  }

  /** Related states have one state root: the rebuild reproduces the workspace's tree. */
  lemma SameRoot(ws: WsState, m: RefState)
    requires Related(ws, m)
    ensures RefTree(m) == Ok(ws.tree) && RefKvMap(m) == ws.kv
  {
    hide RefTree, RefLook, Look, WellFormed;
    RelatedWellFormed(ws.tree, m);
    RebuildLook(m);
    Extensional(RefTree(m).value, ws.tree);
  }

  // ---- the compared operations ----

  predicate Compared(op: Op) {
    op.DoMkdir? || op.DoWrite? || op.DoUnlink? || op.DoRmdir? || op.DoRename? || op.DoLink? || op.DoKvSet?
        || op.DoKvDelete?
  }

  function RefStep(m: RefState, op: Op): RefOutcome
    requires Compared(op)
  {
    match op
    case DoMkdir(p) => RefMkdir(m, p)
    case DoWrite(p, bytes) => RefWrite(m, p, bytes)
    case DoUnlink(p) => RefUnlink(m, p)
    case DoRmdir(p) => RefRmdir(m, p)
    case DoRename(f, t) => RefRename(m, f, t)
    case DoLink(e, x) => RefLink(m, e, x)
    case DoKvSet(ns, key, v) => RefKvSet(m, ns, key, v)
    case DoKvDelete(ns, key) => RefKvDelete(m, ns, key)
  }

  predicate Overflows(ws: WsState, chunks: seq<StagedChunk>) {
    ws.stagedBytes + Incoming(ws.staged, chunks) > ws.stagedLimit
  }

  /**
   * A rename that the two treat alike. One the workspace accepts: it leaves link groups alone and no path grows
   * too long. One it refuses: the destination is blocked, or nothing is at the source while the destination's
   * parents exist, so that the model's attempt leaves nothing behind.
   */
  ghost predicate RenameCompared(ws: WsState, from: Path, to: Path) {
    if Renamed(ws, from, to).result.Ok? then
      && TameGroups(ws.tree, DoRename(from, to))
      && (from != to ==> AllFit(ws.tree, from, to))
    else
      RefusedAlike(ws.tree, from, to)
  }

  ghost predicate AllFit(t: Tree, from: Path, to: Path) {
    forall p | p != [] && from <= p && Look(t, p).Some? :: Fits(Rebased(p, from, to))
  }

  ghost predicate RefusedAlike(t: Tree, from: Path, to: Path) {
    && from != to
    && ((to != [] && !Insertable(t, to)) || (NothingAt(t, from) && forall k | 0 < k < |to| :: Look(t, to[..k]).Some?))
  }

  /** Nothing is at a path; nothing is at the root when the tree is empty. */
  ghost predicate NothingAt(t: Tree, p: Path) {
    if p == [] then forall q | q != [] :: Look(t, q).None? else Look(t, p).None?
  }

  /** Every path the model would move, the destination's new parents among them, gets a path it can be moved to. */
  ghost predicate AllParse(t: Tree, from: Path, to: Path) {
    forall p | p != [] && from <= p && (Look(t, p).Some? || p in Parents(to)) :: NewPath(from, to, p).Ok?
  }

  /**
   * Where the two part: the staging limit stops a call the model, which has none, accepts; the model lets a file
   * be linked at the root; and it renames without looking at the destination, at link groups, or before it moves.
   */
  ghost predicate Diverges(ws: WsState, op: Op) {
    match op
    case DoWrite(p, bytes) => p != [] && !IsDirAt(ws.tree, p) && Insertable(ws.tree, p) && Overflows(ws, Staged(bytes))
    case DoLink(e, x) => x == [] && NodeAt(ws.tree, e).Some? && NodeAt(ws.tree, e).value.FileN?
    case DoKvSet(_, _, v) => Overflows(ws, [StagedChunk(ChunkDigest(v), v)])
    case DoRename(from, to) => !RenameCompared(ws, from, to)
    case _ => false
  }

  // ---- parents ----

  function Parents(p: Path): set<Path> {
    set i | 0 < i < |p| :: p[..i]
  }

  function ParentsAt(p: Path, i: nat): set<Path> {
    set k | i <= k < |p| :: p[..k]
  }

  predicate Clear(m: RefState, p: Path, i: nat) {
    forall k | i <= k < |p| :: p[..k] !in m.files && p[..k] !in m.symlinks
  }

  lemma {:induction false} ParentsEffect(m: RefState, p: Path, i: nat)
    requires forall k, j | 0 < j < k < |p| && p[..k] in m.files.Keys + m.symlinks.Keys :: p[..j] in m.dirs
    requires 0 < i
    ensures ParentsFrom(m, p, i).result.Ok? <==> Clear(m, p, i)
    ensures Clear(m, p, i) ==> ParentsFrom(m, p, i).m == m.(dirs := m.dirs + ParentsAt(p, i))
    ensures !Clear(m, p, i) ==> ParentsFrom(m, p, i).m == m
    decreases |p| - i
  {
    if i < |p| && p[..i] !in m.files && p[..i] !in m.symlinks {
      var next := m.(dirs := m.dirs + {p[..i]});
      ParentsEffect(next, p, i + 1);
      assert Clear(next, p, i + 1) <==> Clear(m, p, i);
      assert next.dirs + ParentsAt(p, i + 1) == m.dirs + ParentsAt(p, i);
      if !Clear(next, p, i + 1) {
        var k :| i < k < |p| && (p[..k] in m.files || p[..k] in m.symlinks);
        assert p[..i] in m.dirs;
        assert next == m;
      }
    } else if i >= |p| {
      assert m.dirs + ParentsAt(p, i) == m.dirs;
    }
  }

  /** The model's parent check passes exactly where the workspace's insertion does, and then adds the parents. */
  lemma ParentsAgree(t: Tree, m: RefState, p: Path)
    requires Plain(m) && SameLook(t, m) && p != []
    ensures EnsureParents(m, p).result.Ok? <==> Insertable(t, p)
    ensures EnsureParents(m, p).m == if Insertable(t, p) then m.(dirs := m.dirs + Parents(p)) else m
  {
    hide Look, Get, Insertable;
    RelatedWellFormed(t, m);
    assert forall k, j | 0 < j < k < |p| :: p[..k][..j] == p[..j];
    ParentsEffect(m, p, 1);
    InsertableByLook(t, p);
    assert Clear(m, p, 1) <==> forall i | 0 < i < |p| :: Look(t, p[..i]) == None || Look(t, p[..i]).value.DirN? by {
      forall i | 0 < i < |p|
        ensures p[..i] in m.files <==> !(Look(t, p[..i]) == None || Look(t, p[..i]).value.DirN?)
      {
        assert Look(t, p[..i]) == RefLook(m, p[..i]);
      }
    }
    assert ParentsAt(p, 1) == Parents(p);
  }

  lemma AgreeAt(t: Tree, m: RefState, p: Path)
    requires Plain(m) && SameLook(t, m) && p != []
    ensures p in m.dirs <==> IsDirAt(t, p)
    ensures Look(t, p).None? <==> p !in m.dirs && p !in m.files
    ensures p in m.files ==> Look(t, p) == Some(FileN(FILE_META, |m.files[p]|, Extents(m.files[p]), GroupAt(m, p)))
    ensures p in m.files <==> Look(t, p).Some? && Look(t, p).value.FileN?
  {
    LookLeaf(t, p);
    assert Look(t, p) == RefLook(m, p);
  }

  // ---- files ----

  /** A batch of one file at several names, and the same change in the flat maps. */
  lemma BatchAgrees(t: Tree, m: RefState, paths: seq<Path>, n: Node, p: Path, s: Tree, after: RefState)
    requires Plain(m) && SameLook(t, m) && BatchReady(t, paths) && p in paths && Insertable(t, p) && n.FileN?
    requires forall q <- paths :: q != p ==> Look(t, q).Some?
    requires forall q | q != [] :: Look(s, q) == LookAfterAll(t, paths, n, q)
    requires Plain(after) && after.dirs == m.dirs + Parents(p) && after.files.Keys == m.files.Keys + Elements(paths)
    requires forall q <- paths :: FileNode(after, q) == n
    requires forall q | q in m.files && q !in paths :: FileNode(after, q) == FileNode(m, q)
    ensures SameLook(s, after)
  {
    hide Look, Get, FileNode, Insertable, Plain, LookAfterAll, BatchReady;
    forall q | q != []
      ensures Look(s, q) == RefLook(after, q)
    {
      BatchAgreesAt(t, m, paths, n, p, after, q);
    }
  }

  lemma BatchAgreesAt(t: Tree, m: RefState, paths: seq<Path>, n: Node, p: Path, after: RefState, q: Path)
    requires Plain(m) && SameLook(t, m) && BatchReady(t, paths) && p in paths && Insertable(t, p) && n.FileN?
    requires forall x <- paths :: x != p ==> Look(t, x).Some?
    requires Plain(after) && after.dirs == m.dirs + Parents(p) && after.files.Keys == m.files.Keys + Elements(paths)
    requires forall x <- paths :: FileNode(after, x) == n
    requires forall x | x in m.files && x !in paths :: FileNode(after, x) == FileNode(m, x)
    requires q != []
    ensures LookAfterAll(t, paths, n, q) == RefLook(after, q)
  {
    hide Look, Get, FileNode, IsDirAt;
    ParentsOfBatch(t, paths, p, q);
    AgreeAt(t, m, q);
    assert Look(t, q) == RefLook(m, q);
    LookLeaf(t, q);
    if q in paths {
      assert !IsDirAt(t, q);
    } else if Beneath(paths, q) {
      var x :| x in paths && x <= q;
      NothingBeneath(t, x, q);
    } else if Above(paths, q) {
      var x :| x in paths && q <= x;
      if x != p {
        LookLeaf(t, x);
        AncestorsAreDirs(t, x, |q|);
        assert q == x[..|q|];
      }
    }
  }

  /** The parents of the batch's new name are no part of the batch, and are directories where they exist. */
  lemma ParentsOfBatch(t: Tree, paths: seq<Path>, p: Path, q: Path)
    requires BatchReady(t, paths) && p in paths && Insertable(t, p) && q != []
    ensures q in Parents(p) <==> q <= p && q != p
    ensures q in Parents(p) ==> Above(paths, q) && q !in paths && !Beneath(paths, q)
    ensures q in Parents(p) ==> Look(t, q) == None || IsDirAt(t, q)
    ensures q !in paths && Beneath(paths, q) ==> exists x :: x in paths && x <= q && |x| < |q|
    ensures q !in paths && Above(paths, q) ==> forall x | x in paths && q <= x :: |q| < |x|
  {
    hide Get;
    assert q <= p ==> forall x | x in paths && x <= q :: x <= p;
    if q <= p && q != p {
      assert q == p[..|q|] && 0 < |q| < |p|;
      LookLeaf(t, q);
    }
    if q !in paths && Beneath(paths, q) {
      var x :| x in paths && x <= q;
      assert |x| == |q| ==> x == q;
    }
    forall x | x in paths && q <= x && q !in paths
      ensures |q| < |x|
    {
      assert |x| == |q| ==> x == q;
    }
  }

  lemma WriteAgrees(ws: WsState, m: RefState, p: Path, bytes: Str)
    requires Related(ws, m)
    ensures var a, b := Write(ws, p, bytes), RefWrite(m, p, bytes);
            && (a.result.Ok? == b.result.Ok? <==> !Diverges(ws, DoWrite(p, bytes)))
            && (!Diverges(ws, DoWrite(p, bytes)) ==> Plain(b.m) && SameLook(a.ws.tree, b.m) && a.ws.kv == RefKvMap(b.m))
  {
    hide InsertAll, InsertAllNodes, Stage, WriteTargets, WrittenFile, GroupsOk, NamesAgree, Insertable, Incoming;
    hide Fill, EnsureParents, Extents;
    var t := ws.tree;
    StageFrame(ws, Staged(bytes));
    StageRefuses(ws, Staged(bytes));
    if p != [] {
      AgreeAt(t, m, p);
      LookLeaf(t, p);
      ParentsAgree(t, m, p);
      if !IsDirAt(t, p) {
        WriteTree(t, m, p, bytes);
      }
    }
  }

  lemma StageRefuses(ws: WsState, chunks: seq<StagedChunk>)
    ensures Stage(ws, chunks).Ok? <==> !Overflows(ws, chunks)
  {
  }

  /** The tree half of a write. */
  lemma WriteTree(t: Tree, m: RefState, p: Path, bytes: Str)
    requires Plain(m) && SameLook(t, m) && LinksOk(t) && p != [] && !IsDirAt(t, p)
    ensures var there := NodeAt(t, p);
            var s := InsertAll(t, WriteTargets(there, p), WrittenFile(there, bytes));
            && (s.Ok? <==> Insertable(t, p))
            && (s.Ok? ==> Plain(RefWrite(m, p, bytes).m) && SameLook(s.value, RefWrite(m, p, bytes).m))
    ensures RefKvMap(RefWrite(m, p, bytes).m) == RefKvMap(m)
  {
    hide InsertAll, LookAfterAll, GroupsOk, NamesAgree, Insertable, Extents, Parents;
    var there := NodeAt(t, p);
    var paths, n := WriteTargets(there, p), WrittenFile(there, bytes);
    WriteBatch(t, p, bytes);
    BatchEffect(t, paths, n);
    AgreeAt(t, m, p);
    LookLeaf(t, p);
    hide EnsureParents;
    ParentsAgree(t, m, p);
    if Insertable(t, p) {
      var after := RefWrite(m, p, bytes).m;
      hide Get, IsDirAt;
      WriteNames(t, m, p, bytes, paths, n, after);
      BatchAgrees(t, m, paths, n, p, InsertAll(t, paths, n).value, after);
    }
  }

  lemma ParentsAreDirs(t: Tree, m: RefState, p: Path, q: Path)
    requires Plain(m) && SameLook(t, m) && p != [] && Insertable(t, p) && q in Parents(p)
    ensures q !in m.files && q != [] && q != p && q <= p
  {
    AgreeAt(t, m, q);
    LookLeaf(t, q);
  }

  lemma WriteNames(t: Tree, m: RefState, p: Path, bytes: Str, paths: seq<Path>, n: Node, after: RefState)
    requires Plain(m) && SameLook(t, m) && LinksOk(t) && p != [] && !IsDirAt(t, p) && Insertable(t, p)
    requires paths == WriteTargets(NodeAt(t, p), p) && n == WrittenFile(NodeAt(t, p), bytes) && p in paths
    requires BatchReady(t, paths)
    requires after == m.(dirs := m.dirs + Parents(p),
                         files := Fill(m.files, if GroupAt(m, p) == [] then {p} else Elements(GroupAt(m, p)), bytes))
    ensures Plain(after) && after.files.Keys == m.files.Keys + Elements(paths)
    ensures forall q <- paths :: q != p ==> Look(t, q).Some?
    ensures forall q <- paths :: FileNode(after, q) == n
    ensures forall q | q in m.files && q !in paths :: FileNode(after, q) == FileNode(m, q)
  {
    hide Extents, Ascending, Insertable, Parents, Look, Get;
    AgreeAt(t, m, p);
    LookLeaf(t, p);
    assert GroupAt(m, p) == (if NodeAt(t, p).Some? then LinksOf(NodeAt(t, p).value) else []);
    assert Elements(paths) == if GroupAt(m, p) == [] then {p} else Elements(GroupAt(m, p));
    if GroupAt(m, p) != [] {
      assert LinkedAt(t, p) && GroupOk(t, p, GroupAt(m, p));
    }
    forall q | q in paths
      ensures q != [] && (q != p ==> Look(t, q).Some?) && GroupAt(m, q) == GroupAt(m, p) && q !in m.dirs
    {
      if q != p {
        assert MemberOf(t, q, GroupAt(m, p));
        AgreeAt(t, m, q);
      }
      AgreeAt(t, m, q);
    }
    forall q | q in Parents(p)
      ensures q !in m.files && q != [] && q !in paths
    {
      ParentsAreDirs(t, m, p, q);
    }
  }

  lemma LinkAgrees(ws: WsState, m: RefState, existing: Path, extra: Path)
    requires Related(ws, m)
    ensures var a, b := Linked(ws, existing, extra), RefLink(m, existing, extra);
            && (a.result.Ok? == b.result.Ok? <==> !Diverges(ws, DoLink(existing, extra)))
            && (!Diverges(ws, DoLink(existing, extra)) ==>
                Plain(b.m) && SameLook(a.ws.tree, b.m) && a.ws.kv == RefKvMap(b.m))
  {
    hide InsertAll, InsertAllNodes, GroupsOk, NamesAgree, Insertable, Fill, EnsureParents, Extents, SortPaths;
    var t := ws.tree;
    if existing != [] {
      AgreeAt(t, m, existing);
      LookLeaf(t, existing);
      if extra == [] {
        assert EnsureParents(m, extra) == RefOutcome(m, Ok(())) by {
          NoParents(m);
        }
      } else {
        AgreeAt(t, m, extra);
        LookLeaf(t, extra);
        ParentsAgree(t, m, extra);
        if existing in m.files && Look(t, extra).None? {
          LinkTree(t, m, existing, extra);
        }
      }
    }
  }

  lemma NoParents(m: RefState)
    ensures EnsureParents(m, []) == RefOutcome(m, Ok(()))
  {
  }

  /** What the model's link does to a name that is free: the parents, the content, the grown group. */
  lemma RefLinkIs(t: Tree, m: RefState, existing: Path, extra: Path)
    requires Plain(m) && SameLook(t, m) && existing in m.files && extra != [] && Look(t, extra).None?
    ensures existing != [] && NodeAt(t, existing).Some? && NodeAt(t, existing).value.FileN?
    ensures var group := Joining(NodeAt(t, existing).value, existing, extra);
            RefLink(m, existing, extra).m ==
              if Insertable(t, extra) then
                m.(dirs := m.dirs + Parents(extra), files := m.files[extra := m.files[existing]],
                   links := Fill(m.links, Elements(group), group))
              else m
  {
    hide Insertable, Extents, Parents, SortPaths, EnsureParents, Fill;
    AgreeAt(t, m, existing);
    AgreeAt(t, m, extra);
    LookLeaf(t, existing);
    ParentsAgree(t, m, extra);
    hide Look, Get;
    assert JoinedGroup(m, existing, extra) == Joining(NodeAt(t, existing).value, existing, extra);
  }

  lemma LinkTree(t: Tree, m: RefState, existing: Path, extra: Path)
    requires Plain(m) && SameLook(t, m) && LinksOk(t) && existing in m.files && extra != [] && Look(t, extra).None?
    ensures existing != [] && NodeAt(t, existing).Some? && NodeAt(t, existing).value.FileN?
    ensures var n := NodeAt(t, existing).value;
            var group := Joining(n, existing, extra);
            var s := InsertAll(t, group, GroupFile(group, n));
            && (s.Ok? <==> Insertable(t, extra))
            && (s.Ok? ==> Plain(RefLink(m, existing, extra).m) && SameLook(s.value, RefLink(m, existing, extra).m))
    ensures RefKvMap(RefLink(m, existing, extra).m) == RefKvMap(m)
  {
    hide InsertAll, LookAfterAll, GroupsOk, NamesAgree, Insertable, Extents, Parents, SortPaths, BatchReady;
    hide TakesGroups, EnsureParents, RefLink;
    AgreeAt(t, m, existing);
    LookLeaf(t, existing);
    LinkBatch(t, existing, extra);
    RefLinkIs(t, m, existing, extra);
    hide Look, Get, Joining;
    var n := NodeAt(t, existing).value;
    var group := Joining(n, existing, extra);
    var file := GroupFile(group, n);
    if Insertable(t, extra) {
      BatchEffect(t, group, file);
      var after := RefLink(m, existing, extra).m;
      LinkNames(t, m, existing, extra, group, file, after);
      BatchAgrees(t, m, group, file, extra, InsertAll(t, group, file).value, after);
    } else {
      BatchBlocked(t, group, file, extra);
    }
  }

  lemma LinkNames(t: Tree, m: RefState, existing: Path, extra: Path, group: seq<Path>, file: Node, after: RefState)
    requires Plain(m) && SameLook(t, m) && LinksOk(t) && existing in m.files && extra != [] && Look(t, extra).None?
    requires Insertable(t, extra)
    requires Look(t, existing).Some? && Look(t, existing).value.FileN?
    requires group == Joining(Look(t, existing).value, existing, extra) && |group| > 1
    requires file == GroupFile(group, Look(t, existing).value)
    requires after == m.(dirs := m.dirs + Parents(extra), files := m.files[extra := m.files[existing]],
                         links := Fill(m.links, Elements(group), group))
    ensures Plain(after) && after.files.Keys == m.files.Keys + Elements(group)
    ensures forall q <- group :: q != extra ==> Look(t, q).Some?
    ensures forall q <- group :: q in after.files && FileNode(after, q) == file
    ensures forall q | q in m.files && q !in group :: FileNode(after, q) == FileNode(m, q)
  {
    assert existing != [];
    hide Extents, Insertable, Parents, Look, SameLook, LinksOk, Joining, FileNode, Plain;
    NamesOfGroup(t, m, existing, extra);
    LinkPlain(t, m, existing, extra, group, after);
    forall q | q in after.files
      ensures q in group ==> FileNode(after, q) == file
      ensures q !in group ==> q in m.files && FileNode(after, q) == FileNode(m, q)
    {
      LinkNodeAt(m, existing, extra, group, Look(t, existing).value, after, q);
    }
  }

  lemma LinkPlain(t: Tree, m: RefState, existing: Path, extra: Path, group: seq<Path>, after: RefState)
    requires Plain(m) && SameLook(t, m) && existing in m.files && extra != [] && Look(t, extra).None?
    requires Insertable(t, extra) && |group| > 1 && extra in group && forall q <- group :: q != extra ==> q in m.files
    requires after == m.(dirs := m.dirs + Parents(extra), files := m.files[extra := m.files[existing]],
                         links := Fill(m.links, Elements(group), group))
    ensures Plain(after) && after.files.Keys == m.files.Keys + Elements(group)
  {
    hide Insertable, Parents, Look, SameLook;
    AgreeAt(t, m, extra);
    forall q | q in Parents(extra)
      ensures q !in m.files && q != [] && q != extra
    {
      ParentsAreDirs(t, m, extra, q);
    }
    assert extra !in m.dirs by {
      AbsentNoDir(t, m, extra);
    }
    assert after.files.Keys == m.files.Keys + Elements(group);
  }

  lemma AbsentNoDir(t: Tree, m: RefState, p: Path)
    requires Plain(m) && SameLook(t, m) && p != [] && Look(t, p).None?
    ensures p !in m.dirs && p !in m.files
  {
    hide Look;
    AgreeAt(t, m, p);
  }

  lemma LinkNodeAt(m: RefState, existing: Path, extra: Path, group: seq<Path>, n: Node, after: RefState, q: Path)
    requires Plain(m) && existing in m.files && n.FileN?
    requires n == FileN(FILE_META, |m.files[existing]|, Extents(m.files[existing]), n.links)
    requires |group| > 1 && extra in group
    requires forall x <- group :: x != extra ==>
               x in m.files && |m.files[x]| == n.size && Extents(m.files[x]) == n.extents
    requires after.meta == m.meta && after.files == m.files[extra := m.files[existing]]
    requires after.links == Fill(m.links, Elements(group), group)
    requires q in after.files
    ensures q in group ==> FileNode(after, q) == GroupFile(group, n)
    ensures q !in group ==> q in m.files && FileNode(after, q) == FileNode(m, q)
  {
    hide Extents;
  }

  /** Every name of the grown group but the new one is a file of the model, of one content. */
  lemma NamesOfGroup(t: Tree, m: RefState, existing: Path, extra: Path)
    requires Plain(m) && SameLook(t, m) && LinksOk(t) && existing in m.files
    requires Look(t, existing).Some? && Look(t, existing).value.FileN?
    ensures var n := Look(t, existing).value;
            && n == FileN(FILE_META, |m.files[existing]|, Extents(m.files[existing]), n.links)
            && extra in Joining(n, existing, extra) && existing in Joining(n, existing, extra)
            && forall q | q in Joining(n, existing, extra) && q != extra ::
                 && q in m.files && Look(t, q).Some? && |m.files[q]| == n.size && Extents(m.files[q]) == n.extents
  {
    hide Extents, Ascending, Look;
    AgreeAt(t, m, existing);
    var n := Look(t, existing).value;
    MembersExist(t, existing);
    forall q | q in Members(n, existing)
      ensures q in m.files && Look(t, q).Some? && |m.files[q]| == n.size && Extents(m.files[q]) == n.extents
    {
      assert MemberOf(t, q, n.links);
      AgreeAt(t, m, q);
      assert Look(t, q) == Look(t, existing);
    }
    hide SortPaths;
    assert forall q :: q in Joining(n, existing, extra) <==> q in Members(n, existing) || q == extra;
  }

  // ---- unlink ----

  lemma UnlinkAgrees(ws: WsState, m: RefState, p: Path)
    requires Related(ws, m)
    ensures var a, b := Unlinked(ws, p), RefUnlink(m, p);
            && a.result.Ok? == b.result.Ok?
            && Plain(b.m) && SameLook(a.ws.tree, b.m) && a.ws.kv == RefKvMap(b.m)
  {
    hide InsertAll, InsertAllNodes, Remove, RouteNodes, GroupsOk, NamesAgree, LinksWithout, Without;
    var t := ws.tree;
    if p != [] {
      AgreeAt(t, m, p);
      LookLeaf(t, p);
      if p in m.files {
        UnlinkEffect(ws, p);
        UnlinkKv(ws, p);
        UnlinkMaps(t, m, p, Unlinked(ws, p).ws.tree);
      }
    }
  }

  lemma UnlinkKv(ws: WsState, p: Path)
    ensures Unlinked(ws, p).ws.kv == ws.kv
  {
    hide InsertAll, InsertAllNodes, Remove, RouteNodes;
  }

  lemma UnlinkMaps(t: Tree, m: RefState, p: Path, s: Tree)
    requires Plain(m) && SameLook(t, m) && LinksOk(t) && p in m.files && Look(t, p).Some?
    requires forall q | q != [] :: Look(s, q) == LookAfterUnlink(t, p, Look(t, p).value, q)
    ensures Plain(RefUnlink(m, p).m) && SameLook(s, RefUnlink(m, p).m) && RefKvMap(RefUnlink(m, p).m) == RefKvMap(m)
  {
    hide Look, Extents, Ascending, LinksWithout;
    var after := RefUnlink(m, p).m;
    var remaining := Without(GroupAt(m, p), p);
    AgreeAt(t, m, p);
    UnlinkLinks(t, m, p);
    forall q | q != []
      ensures Look(s, q) == RefLook(after, q)
    {
      AgreeAt(t, m, q);
      assert Look(t, q) == RefLook(m, q);
    }
  }

  /** What the model's link table holds after an unlink. */
  lemma UnlinkLinks(t: Tree, m: RefState, p: Path)
    requires Plain(m) && SameLook(t, m) && LinksOk(t) && p in m.files
    ensures var remaining := Without(GroupAt(m, p), p);
            var after := RefUnlink(m, p).m;
            && (forall q | q in remaining :: q in m.files && q != p && Look(t, q) == Look(t, p))
            && (forall q | q in m.files && q != p ::
                  GroupAt(after, q) == if q in remaining
                      then (if |remaining| > 1 then remaining else []) else GroupAt(m, q))
            && Plain(after)
  {
    hide Look, Extents, Ascending, SameLook, GroupsOk, NamesAgree, LinksWithout, Without;
    OtherNames(t, m, p);
    TableWithout(m.links, p);
  }

  lemma OtherNames(t: Tree, m: RefState, p: Path)
    requires Plain(m) && SameLook(t, m) && LinksOk(t) && p in m.files
    ensures forall q | q in Without(GroupAt(m, p), p) :: q in m.files && q != p && Look(t, q) == Look(t, p)
  {
    hide Look, Extents, Ascending;
    AgreeAt(t, m, p);
    if GroupAt(m, p) != [] {
      assert LinkedAt(t, p) && GroupOk(t, p, GroupAt(m, p));
      forall q | q in Without(GroupAt(m, p), p)
        ensures q in m.files && q != p && Look(t, q) == Look(t, p)
      {
        assert MemberOf(t, q, GroupAt(m, p));
        AgreeAt(t, m, q);
      }
    }
  }

  /** Taking one name out of a link table: the rest of its group shrinks, or stops being a group. */
  lemma TableWithout(links: map<Path, seq<Path>>, p: Path)
    ensures var remaining := Without(if p in links then links[p] else [], p);
            var after := LinksWithout(links, p);
            && p !in after
            && (forall q | q in after ::
                  (q in links && after[q] == links[q]) || (q in remaining && after[q] == remaining))
            && (forall q | q in remaining ::
                  (q in after <==> |remaining| > 1) && (q in after ==> after[q] == remaining))
            && (forall q | q != p && q !in remaining ::
                  (q in after <==> q in links) && (q in after ==> after[q] == links[q]))
  {
  }

  // ---- directories ----

  lemma MkdirAgrees(ws: WsState, m: RefState, p: Path)
    requires Related(ws, m)
    ensures var a, b := Mkdir(ws, p), RefMkdir(m, p);
            && a.result.Ok? == b.result.Ok?
            && Plain(b.m) && SameLook(a.ws.tree, b.m) && a.ws.kv == RefKvMap(b.m)
  {
    hide Insert, InsertAll, InsertAllNodes, GroupsOk, NamesAgree, EnsureParents, Insertable;
    var t := ws.tree;
    OneInsert(t, p, FRESH_DIR);
    if p != [] {
      AgreeAt(t, m, p);
      LookLeaf(t, p);
      ParentsAgree(t, m, p);
      InsertSucceeds(t, p, FRESH_DIR);
      if p in m.dirs {
        ExistingDir(t, m, p);
      } else if p !in m.files && Insertable(t, p) {
        MkdirMaps(t, m, p);
      }
    }
  }

  lemma ExistingDir(t: Tree, m: RefState, p: Path)
    requires Plain(m) && SameLook(t, m) && p in m.dirs
    ensures Insertable(t, p) && m.dirs + Parents(p) + {p} == m.dirs
  {
    AgreeAt(t, m, p);
    ExistingIsInsertable(t, p);
    RelatedWellFormed(t, m);
  }

  lemma MkdirMaps(t: Tree, m: RefState, p: Path)
    requires Plain(m) && SameLook(t, m) && p != [] && Look(t, p).None? && Insertable(t, p)
    requires Insert(t, p, FRESH_DIR).Ok?
    ensures var after := m.(dirs := m.dirs + Parents(p) + {p});
            Plain(after) && SameLook(Insert(t, p, FRESH_DIR).value, after)
  {
    hide Insert, Look, Insertable, Parents;
    var after := m.(dirs := m.dirs + Parents(p) + {p});
    AgreeAt(t, m, p);
    forall q | q in Parents(p)
      ensures q !in m.files && q != []
    {
      ParentsAreDirs(t, m, p, q);
    }
    forall q | q != []
      ensures Look(Insert(t, p, FRESH_DIR).value, q) == RefLook(after, q)
    {
      InsertLook(t, p, FRESH_DIR, q);
      MkdirAt(t, m, p, q);
    }
  }

  lemma MkdirAt(t: Tree, m: RefState, p: Path, q: Path)
    requires Plain(m) && SameLook(t, m) && p != [] && q != [] && Look(t, p).None? && Insertable(t, p)
    ensures LookAfterInsert(t, p, FRESH_DIR, q) == RefLook(m.(dirs := m.dirs + Parents(p) + {p}), q)
  {
    hide Look, Get;
    AgreeAt(t, m, p);
    AgreeAt(t, m, q);
    assert Look(t, q) == RefLook(m, q);
    LookLeaf(t, p);
    EmptyLeaf(FRESH_DIR, q[if p <= q then |p| else 0..]);
    assert p <= q && |p| == |q| ==> p == q;
    assert q <= p && |p| == |q| ==> p == q;
    if p <= q && p != q {
      NothingBeneath(t, p, q);
      assert q !in Parents(p);
    } else if q <= p && q != p {
      assert q == p[..|q|];
      assert q in Parents(p);
      ParentsAreDirs(t, m, p, q);
    } else {
      assert q !in Parents(p);
    }
  }

  lemma RmdirAgrees(ws: WsState, m: RefState, p: Path)
    requires Related(ws, m)
    ensures var a, b := Rmdir(ws, p), RefRmdir(m, p);
            && a.result.Ok? == b.result.Ok?
            && Plain(b.m) && SameLook(a.ws.tree, b.m) && a.ws.kv == RefKvMap(b.m)
  {
    hide Remove, RouteNodes, GroupsOk, NamesAgree, HasChildren;
    var t := ws.tree;
    RemoveRoot(t);
    if p != [] {
      AgreeAt(t, m, p);
      LookLeaf(t, p);
      if p in m.dirs {
        ChildrenAgree(t, m, p);
        if Get(t, p).value.sub.kids == map[] {
          RmdirEffect(t, p);
          RmdirMaps(t, m, p, Remove(t, p).value);
        }
      }
    }
  }

  /** A directory is empty in the tree exactly when no listed path lies beneath it. */
  lemma ChildrenAgree(t: Tree, m: RefState, p: Path)
    requires Plain(m) && SameLook(t, m) && p in m.dirs && IsDirAt(t, p) && p != []
    ensures HasChildren(m, p) <==> Get(t, p).value.sub.kids != map[]
  {
    var kids := Get(t, p).value.sub.kids;
    if kids != map[] {
      var k :| k in kids;
      GetConcat(t, p, [k]);
      AgreeAt(t, m, p + [k]);
      LookLeaf(t, p + [k]);
      assert p + [k] in m.files.Keys + m.dirs;
    } else if HasChildren(m, p) {
      var q :| q in m.files.Keys + m.dirs && q != p && p <= q;
      EmptyBeneath(t, p, q);
      AgreeAt(t, m, q);
    }
  }

  lemma RmdirMaps(t: Tree, m: RefState, p: Path, s: Tree)
    requires Plain(m) && SameLook(t, m) && p in m.dirs
    requires forall q | q != [] :: Look(s, q) == if q == p then None else Look(t, q)
    ensures SameLook(s, m.(dirs := m.dirs - {p}))
  {
    hide Look;
    var after := m.(dirs := m.dirs - {p});
    forall q | q != []
      ensures Look(s, q) == RefLook(after, q)
    {
      assert Look(t, q) == RefLook(m, q);
    }
  }

  // ---- rename ----

  /** What the files are after the paths in `done` were moved. */
  function ShiftedFile(m: RefState, from: Path, to: Path, done: set<Path>, q: Path): Option<Str> {
    if to <= q && Rebased(q, to, from) in done && Rebased(q, to, from) in m.files then
      Some(m.files[Rebased(q, to, from)])
    else if q in m.files && q !in done then Some(m.files[q])
    else None
  }

  predicate ShiftedDir(m: RefState, from: Path, to: Path, done: set<Path>, q: Path) {
    (to <= q && Rebased(q, to, from) in done && Rebased(q, to, from) in m.dirs) || (q in m.dirs && q !in done)
  }

  function FileOf(m: RefState, q: Path): Option<Str> {
    if q in m.files then Some(m.files[q]) else None
  }

  /** The model after the paths in `done` were moved. */
  ghost predicate Shifted(m: RefState, from: Path, to: Path, done: set<Path>, after: RefState) {
    && after == m.(files := after.files, dirs := after.dirs)
    && (forall q :: FileOf(after, q) == ShiftedFile(m, from, to, done, q))
    && (forall q :: q in after.dirs <==> ShiftedDir(m, from, to, done, q))
  }

  lemma ShiftStep(m: RefState, from: Path, to: Path, done: set<Path>, now: RefState, key: Path)
    requires m.symlinks == map[] && m.meta == map[] && Apart(from, to) && Shifted(m, from, to, done, now)
    requires from <= key && key !in done && (forall p <- done :: from <= p)
    ensures Shifted(m, from, to, done + {key}, MoveOne(now, key, Rebased(key, from, to)))
  {
    hide PathStr;
    var dest := Rebased(key, from, to);
    var after := MoveOne(now, key, dest);
    NotUnderBoth(key, from, to);
    RebasedBack(key, from, to);
    assert FileOf(now, key) == ShiftedFile(m, from, to, done, key);
    assert key in now.dirs <==> ShiftedDir(m, from, to, done, key);
    forall q
      ensures FileOf(after, q) == ShiftedFile(m, from, to, done + {key}, q)
      ensures q in after.dirs <==> ShiftedDir(m, from, to, done + {key}, q)
    {
      assert FileOf(now, q) == ShiftedFile(m, from, to, done, q);
      if to <= q {
        RebasedBack(q, to, from);
      }
    }
  }

  /** Distinct paths at or beneath the source, not moved yet, that all fit at the destination. */
  ghost predicate Movables(from: Path, to: Path, done: set<Path>, moved: seq<Path>) {
    && (forall p <- done :: from <= p)
    && (forall p <- moved :: from <= p && p !in done && Fits(Rebased(p, from, to)))
    && (forall i, j | 0 <= i < j < |moved| :: moved[i] != moved[j])
  }

  /** Taking the first path off the list. */
  lemma MovablesStep(from: Path, to: Path, done: set<Path>, moved: seq<Path>)
    requires moved != [] && Movables(from, to, done, moved)
    ensures from <= moved[0] && moved[0] !in done && Fits(Rebased(moved[0], from, to))
    ensures Movables(from, to, done + {moved[0]}, moved[1..])
    ensures done + {moved[0]} + Elements(moved[1..]) == done + Elements(moved)
  {
    hide Fits;
    HeadAndTail(moved);
    forall p | p in moved[1..]
      ensures from <= p && p !in done + {moved[0]} && Fits(Rebased(p, from, to))
    {
      assert p in moved;
    }
  }

  /** Moving a list of distinct paths that all fit. */
  lemma {:induction false} ShiftAll(m: RefState, from: Path, to: Path, done: set<Path>, now: RefState, moved: seq<Path>)
    requires m.symlinks == map[] && m.meta == map[] && Apart(from, to) && Shifted(m, from, to, done, now)
    requires Movables(from, to, done, moved)
    ensures MoveAll(now, moved, from, to).result == Ok(())
    ensures Shifted(m, from, to, done + Elements(moved), MoveAll(now, moved, from, to).m)
    decreases |moved|
  {
    if moved == [] {
      assert done + Elements(moved) == done;
    } else {
      var key := moved[0];
      assert forall p <- done :: from <= p;
      hide Shifted, MoveOne, Movables, Fits, PathStr;
      MovablesStep(from, to, done, moved);
      ShiftStep(m, from, to, done, now, key);
      NewPathIs(from, to, key);
      ShiftAll(m, from, to, done + {key}, MoveOne(now, key, Rebased(key, from, to)), moved[1..]);
    }
  }

  lemma NewPathIs(from: Path, to: Path, p: Path)
    requires from != [] && to != [] && from <= p && Fits(Rebased(p, from, to))
    ensures NewPath(from, to, p) == Ok(Rebased(p, from, to))
  {
    hide PathStr, Parse;
    RebaseIsSuffix(from, to, p);
    ParseInvertsRender(Rebased(p, from, to));
  }

  lemma UnderDistinct(m: RefState, from: Path)
    requires Plain(m)
    ensures var moved := PathsUnder(m, from);
            forall i, j | 0 <= i < j < |moved| :: moved[i] != moved[j]
  {
    hide PathKey;
    var a, b := set p | p in m.files && from <= p, set p | p in m.dirs && from <= p;
    var c := set p | p in m.symlinks && from <= p;
    SortPathsAscends(a);
    SortPathsAscends(b);
    SortPathsAscends(c);
    hide SortPaths;
    assert c == {};
    var moved := PathsUnder(m, from);
    assert moved == SortPaths(a) + SortPaths(b);
    forall i, j | 0 <= i < j < |moved|
      ensures moved[i] != moved[j]
    {
      LexIrreflexive(PathKey(moved[i]));
      if i < |SortPaths(a)| <= j {
        assert moved[i] in SortPaths(a) && moved[j] in SortPaths(b);
      }
    }
  }

  /** Renames agree exactly where they are compared, unless the model stops on the way at a path it cannot move. */
  lemma RenameAgrees(ws: WsState, m: RefState, from: Path, to: Path)
    requires Related(ws, m)
    ensures var a, b := Renamed(ws, from, to), RefRename(m, from, to);
            && (a.result.Ok? ==> (b.result.Ok? && Related(a.ws, b.m) <==> RenameCompared(ws, from, to)))
            && (a.result.Err? && AllParse(ws.tree, from, to) ==>
                  (b.result.Err? && Related(a.ws, b.m) <==> RenameCompared(ws, from, to)))
            && (RenameCompared(ws, from, to) ==> a.result.Ok? == b.result.Ok? && Related(a.ws, b.m))
  {
    hide Renamed, RefRename, LinksOk, GroupsOk, NamesAgree, SameLook, TameGroups, AllFit, RefusedAlike, AllParse;
    StepStaysOpen(ws, DoRename(from, to));
    assert GroupsOk(ws.tree) by {
      SoundGroups(ws.tree);
    }
    RenameLinks(ws, from, to);
    if Renamed(ws, from, to).result.Err? {
      if RefusedAlike(ws.tree, from, to) {
        RefusalAgrees(ws, m, from, to);
      } else if AllParse(ws.tree, from, to) {
        RefusalParts(ws, m, from, to);
      }
    } else if from == to {
      SameRename(ws, m, from);
    } else if !AllFit(ws.tree, from, to) {
      MisfitFails(ws, m, from, to);
    } else if TameGroups(ws.tree, DoRename(from, to)) {
      AcceptedAgrees(ws, m, from, to);
    }
  }

  lemma SoundGroups(t: Tree)
    requires LinksOk(t)
    ensures GroupsOk(t)
  {
  }

  lemma SameRename(ws: WsState, m: RefState, p: Path)
    requires Related(ws, m) && Renamed(ws, p, p).result.Ok?
    ensures Renamed(ws, p, p).ws == ws && RefRename(m, p, p) == RefOutcome(m, Ok(()))
    ensures TameGroups(ws.tree, DoRename(p, p))
  {
    hide Related;
  }

  lemma AcceptedAgrees(ws: WsState, m: RefState, from: Path, to: Path)
    requires Related(ws, m) && Renamed(ws, from, to).result.Ok? && from != to
    requires TameGroups(ws.tree, DoRename(from, to)) && AllFit(ws.tree, from, to)
    ensures var a, b := Renamed(ws, from, to), RefRename(m, from, to);
            b.result.Ok? && Plain(b.m) && SameLook(a.ws.tree, b.m) && a.ws.kv == RefKvMap(b.m)
  {
    hide Insert, Remove, RouteNodes, RenameRefused, GroupsOk, NamesAgree, Look, Get, PathsUnder, MoveAll, Fits;
    hide EnsureParents, Insertable;
    var t, s := ws.tree, Renamed(ws, from, to).ws.tree;
    RenameEffect(ws, from, to);
    RenameAccepted(ws, from, to);
    RenameGoesIn(ws, from, to);
    ParentsAgree(t, m, to);
    var o := EnsureParents(m, to).m;
    RenameMoves(t, m, o, from, to);
    var after := MoveAll(o, PathsUnder(o, from), from, to).m;
    assert Shifted(o, from, to, Elements(PathsUnder(o, from)), after);
    RenameMaps(t, m, o, from, to, after, s);
  }

  /** Where both refuse: a blocked destination, or a missing source. */
  lemma RefusalAgrees(ws: WsState, m: RefState, from: Path, to: Path)
    requires Related(ws, m) && RefusedAlike(ws.tree, from, to)
    ensures RefRename(m, from, to).result.Err? && RefRename(m, from, to).m == m
  {
    hide Look, EnsureParents, Insertable, GroupsOk, NamesAgree, SameLook, PathsUnder, MoveAll, NothingAt;
    var t := ws.tree;
    AnyParents(t, m, to);
    if to == [] || Insertable(t, to) {
      ParentsExist(t, m, to);
      assert m.dirs + Parents(to) == m.dirs;
      NothingUnder(t, m, from);
    }
  }

  lemma AnyParents(t: Tree, m: RefState, p: Path)
    requires Plain(m) && SameLook(t, m)
    ensures EnsureParents(m, p).result.Ok? <==> p == [] || Insertable(t, p)
    ensures EnsureParents(m, p).m == if p == [] || Insertable(t, p) then m.(dirs := m.dirs + Parents(p)) else m
  {
    hide Look, Insertable, SameLook;
    if p != [] {
      ParentsAgree(t, m, p);
    } else {
      assert Parents(p) == {} && m.dirs + Parents(p) == m.dirs;
    }
  }

  /**
   * Any other refusal the model does not share: it moves everything, or fails with parents made for a path that
   * nothing was moved to.
   */
  lemma RefusalParts(ws: WsState, m: RefState, from: Path, to: Path)
    requires Related(ws, m) && !RefusedAlike(ws.tree, from, to) && AllParse(ws.tree, from, to)
    ensures RefRename(m, from, to).result.Ok? || !SameLook(ws.tree, RefRename(m, from, to).m)
  {
    hide Look, EnsureParents, Insertable, GroupsOk, NamesAgree, MoveAll, NewPath, Parents, PathsUnder;
    var t := ws.tree;
    if from != to {
      AnyParents(t, m, to);
      var o := EnsureParents(m, to).m;
      ListedUnder(t, m, o, from, to);
      if PathsUnder(o, from) == [] {
        assert NothingAt(t, from);
        var k :| 0 < k < |to| && Look(t, to[..k]).None?;
        ParentListed(o, m, to, k);
        assert Look(t, to[..k]) != RefLook(o, to[..k]);
      } else {
        forall p | p in PathsUnder(o, from)
          ensures from <= p && NewPath(from, to, p).Ok?
        {
        }
        MoveAllSucceeds(o, PathsUnder(o, from), from, to);
      }
    }
  }

  /** What the model would move: what the tree shows beneath the source, and new parents there. */
  lemma ListedUnder(t: Tree, m: RefState, o: RefState, from: Path, to: Path)
    requires Plain(m) && SameLook(t, m) && o == m.(dirs := m.dirs + Parents(to))
    ensures forall p :: p in PathsUnder(o, from)
              <==> p != [] && from <= p && (Look(t, p).Some? || p in Parents(to))
  {
    hide Look, PathsUnder;
    forall p
      ensures p in PathsUnder(o, from) <==> p != [] && from <= p && (Look(t, p).Some? || p in Parents(to))
    {
      if p != [] {
        assert Look(t, p) == RefLook(m, p);
      }
    }
  }

  lemma ParentListed(o: RefState, m: RefState, to: Path, k: nat)
    requires 0 < k < |to| && o == m.(dirs := m.dirs + Parents(to))
    ensures RefLook(o, to[..k]).Some?
  {
    assert to[..k] in Parents(to);
  }

  lemma {:induction false} MoveAllSucceeds(m: RefState, moved: seq<Path>, from: Path, to: Path)
    requires forall q <- moved :: from <= q && NewPath(from, to, q).Ok?
    ensures MoveAll(m, moved, from, to).result.Ok?
    decreases |moved|
  {
    hide NewPath, MoveOne;
    if moved != [] {
      HeadAndTail(moved);
      MoveAllSucceeds(MoveOne(m, moved[0], NewPath(from, to, moved[0]).value), moved[1..], from, to);
    }
  }

  lemma ParentsExist(t: Tree, m: RefState, to: Path)
    requires Plain(m) && SameLook(t, m) && (to == [] || Insertable(t, to))
    requires forall k | 0 < k < |to| :: Look(t, to[..k]).Some?
    ensures Parents(to) <= m.dirs
  {
    hide Look, Get;
    forall q | q in Parents(to)
      ensures q in m.dirs
    {
      var k :| 0 < k < |to| && q == to[..k];
      AgreeAt(t, m, q);
      LookLeaf(t, q);
    }
  }

  lemma NothingUnder(t: Tree, m: RefState, from: Path)
    requires Plain(m) && SameLook(t, m) && NothingAt(t, from)
    ensures PathsUnder(m, from) == []
  {
    hide Look, SortPaths;
    forall p | from <= p
      ensures p !in m.files && p !in m.dirs
    {
      if p != [] {
        AgreeAt(t, m, p);
      }
      if p != from && from != [] {
        assert |p| == |from| ==> p == from;
        LookLeaf(t, from);
        NothingBeneath(t, from, p);
      }
    }
    assert (set p | p in m.files && from <= p) == {} && (set p | p in m.dirs && from <= p) == {};
    assert (set p | p in m.symlinks && from <= p) == {};
    SortPathsAscends({});
  }

  /** The model stops at the first path that does not fit, where the workspace goes on. */
  lemma MisfitFails(ws: WsState, m: RefState, from: Path, to: Path)
    requires Related(ws, m) && Renamed(ws, from, to).result.Ok? && from != to && !AllFit(ws.tree, from, to)
    ensures RefRename(m, from, to).result.Err?
  {
    hide Look, EnsureParents, Insertable, GroupsOk, NamesAgree, SameLook, MoveAll, Fits, SortPaths, Renamed, NewPath;
    var t := ws.tree;
    RenameGoesIn(ws, from, to);
    ParentsAgree(t, m, to);
    var o := EnsureParents(m, to).m;
    var p :| p != [] && from <= p && Look(t, p).Some? && !Fits(Rebased(p, from, to));
    AgreeAt(t, m, p);
    assert p in PathsUnder(o, from);
    MoveAllFails(o, PathsUnder(o, from), from, to, p);
  }

  lemma {:induction false} MoveAllFails(m: RefState, moved: seq<Path>, from: Path, to: Path, p: Path)
    requires from != [] && to != [] && (forall q <- moved :: from <= q) && p in moved && !Fits(Rebased(p, from, to))
    ensures MoveAll(m, moved, from, to).result.Err?
    decreases |moved|
  {
    hide Fits, NewPath, MoveOne;
    HeadAndTail(moved);
    if moved[0] == p {
      NewPathFails(from, to, p);
    } else if NewPath(from, to, moved[0]).Ok? {
      MoveAllFails(MoveOne(m, moved[0], NewPath(from, to, moved[0]).value), moved[1..], from, to, p);
    }
  }

  lemma NewPathFails(from: Path, to: Path, p: Path)
    requires from != [] && to != [] && from <= p && !Fits(Rebased(p, from, to))
    ensures NewPath(from, to, p).Err?
  {
    hide PathStr, Parse;
    RebaseIsSuffix(from, to, p);
    ParsedIsRebased(Rebased(p, from, to));
  }

  /** What acceptance says about the destination. */
  lemma RenameGoesIn(ws: WsState, from: Path, to: Path)
    requires ws.isOpen && Renamed(ws, from, to).result.Ok? && from != to
    ensures from != [] && to != [] && Insertable(ws.tree, to) && Look(ws.tree, from).Some?
    ensures Look(ws.tree, to).Some? ==> (Look(ws.tree, to).value.DirN? <==> Look(ws.tree, from).value.DirN?)
  {
    hide Remove, RouteNodes, Insertable;
    LookLeaf(ws.tree, from);
    LookLeaf(ws.tree, to);
    InsertSucceeds(ws.tree, to, Get(ws.tree, from).value);
  }

  lemma RenameMoves(t: Tree, m: RefState, o: RefState, from: Path, to: Path)
    requires Plain(m) && SameLook(t, m) && Apart(from, to) && Look(t, from).Some? && Insertable(t, to)
    requires o == m.(dirs := m.dirs + Parents(to))
    requires AllFit(t, from, to)
    ensures Plain(o) && PathsUnder(o, from) != []
    ensures MoveAll(o, PathsUnder(o, from), from, to).result == Ok(())
    ensures Shifted(o, from, to, Elements(PathsUnder(o, from)), MoveAll(o, PathsUnder(o, from), from, to).m)
  {
    hide Look, MoveAll, Fits, PathsUnder, Insertable, Parents, Rebased;
    forall q | q in Parents(to)
      ensures q !in m.files && q != [] && !(from <= q)
    {
      ParentsAreDirs(t, m, to, q);
    }
    AgreeAt(t, m, from);
    assert from in PathsUnder(o, from);
    forall p | p in PathsUnder(o, from)
      ensures from <= p && Fits(Rebased(p, from, to))
    {
      AgreeAt(t, m, p);
    }
    UnderDistinct(o, from);
    NothingShifted(o, from, to);
    ShiftAll(o, from, to, {}, o, PathsUnder(o, from));
    assert {} + Elements(PathsUnder(o, from)) == Elements(PathsUnder(o, from));
  }

  lemma NothingShifted(m: RefState, from: Path, to: Path)
    ensures Shifted(m, from, to, {}, m)
  {
  }

  lemma RenameMaps(t: Tree, m: RefState, o: RefState, from: Path, to: Path, after: RefState, s: Tree)
    requires Plain(m) && SameLook(t, m) && Apart(from, to) && Insertable(t, to)
    requires o == m.(dirs := m.dirs + Parents(to)) && Plain(o)
    requires TameGroups(t, DoRename(from, to))
    requires Look(t, from).Some? && (Look(t, to).Some? ==> (Look(t, to).value.DirN? <==> Look(t, from).value.DirN?))
    requires forall q | q != [] && to <= q && to != q :: Look(t, q) == None
    requires Shifted(o, from, to, Elements(PathsUnder(o, from)), after)
    requires forall q | q != [] :: Look(s, q) == LookAfterRename(t, from, to, q)
    ensures Plain(after) && SameLook(s, after) && RefKvMap(after) == RefKvMap(m)
  {
    hide Look, Insertable, Rebased, LookAfterRename, Shifted, PathsUnder;
    assert after == o.(files := after.files, dirs := after.dirs) by {
      ShiftedShape(o, from, to, Elements(PathsUnder(o, from)), after);
    }
    forall q
      ensures q != [] ==> LookAfterRename(t, from, to, q) == RefLook(after, q)
      ensures !(q in after.dirs && q in after.files)
      ensures q == [] ==> q !in after.dirs && q !in after.files
      ensures q in after.links ==> q in after.files && after.links[q] != []
    {
      RenameMapsAt(t, m, o, from, to, after, q);
    }
  }

  lemma ShiftedShape(m: RefState, from: Path, to: Path, done: set<Path>, after: RefState)
    requires Shifted(m, from, to, done, after)
    ensures after == m.(files := after.files, dirs := after.dirs)
  {
  }

  lemma RenameMapsAt(t: Tree, m: RefState, o: RefState, from: Path, to: Path, after: RefState, q: Path)
    requires Plain(m) && SameLook(t, m) && Apart(from, to) && Insertable(t, to)
    requires o == m.(dirs := m.dirs + Parents(to)) && Plain(o)
    requires TameGroups(t, DoRename(from, to))
    requires Look(t, from).Some? && (Look(t, to).Some? ==> (Look(t, to).value.DirN? <==> Look(t, from).value.DirN?))
    requires forall p | p != [] && to <= p && to != p :: Look(t, p) == None
    requires Shifted(o, from, to, Elements(PathsUnder(o, from)), after)
    ensures q != [] ==> LookAfterRename(t, from, to, q) == RefLook(after, q)
    ensures !(q in after.dirs && q in after.files)
    ensures q == [] ==> q !in after.dirs && q !in after.files
    ensures q in after.links ==> q in after.files && after.links[q] != []
  {
    hide Look, Insertable, Extents, PathsUnder, SameLook, RefLook, LookAfterRename, Parents, PathStr;
    if to <= q {
      MovedAgrees(t, m, o, from, to, after, q);
    } else {
      StayedAgrees(t, m, o, from, to, after, q);
    }
  }

  /** A linked path is neither moved nor replaced. */
  lemma LinkedStays(t: Tree, m: RefState, from: Path, to: Path, q: Path)
    requires Plain(m) && SameLook(t, m) && Apart(from, to) && TameGroups(t, DoRename(from, to)) && q != []
    requires forall p | p != [] && to <= p && to != p :: Look(t, p) == None
    ensures from <= q || to <= q ==> q !in m.links
  {
    hide Look, Extents;
    AgreeAt(t, m, q);
    assert q in m.links ==> LinkedAt(t, q);
  }

  lemma MovedAgrees(t: Tree, m: RefState, o: RefState, from: Path, to: Path, after: RefState, q: Path)
    requires Plain(m) && SameLook(t, m) && Apart(from, to) && Insertable(t, to)
    requires o == m.(dirs := m.dirs + Parents(to)) && Plain(o)
    requires TameGroups(t, DoRename(from, to)) && to <= q
    requires Look(t, from).Some? && (Look(t, to).Some? ==> (Look(t, to).value.DirN? <==> Look(t, from).value.DirN?))
    requires forall p | p != [] && to <= p && to != p :: Look(t, p) == None
    requires Shifted(o, from, to, Elements(PathsUnder(o, from)), after)
    ensures LookAfterRename(t, from, to, q) == RefLook(after, q)
    ensures !(q in after.dirs && q in after.files)
    ensures q in after.links ==> q in after.files && after.links[q] != []
  {
    hide Look, Insertable, Extents, PathsUnder, Parents, PathStr, TameGroups, IsDirAt;
    var p := Rebased(q, to, from);
    assert FileOf(after, q) == ShiftedFile(o, from, to, Elements(PathsUnder(o, from)), q);
    RebasedBack(q, to, from);
    ParentsOf(to, q);
    ParentsOf(to, p);
    NotUnderBoth(p, from, to);
    LinkedStays(t, m, from, to, q);
    LinkedStays(t, m, from, to, p);
    AgreeAt(t, m, p);
    AgreeAt(t, m, q);
    DirAgrees(t, m, p);
    DirAgrees(t, m, q);
    assert q == to ==> p == from;
  }

  lemma DirAgrees(t: Tree, m: RefState, p: Path)
    requires Plain(m) && SameLook(t, m) && p != []
    ensures p in m.dirs ==> Look(t, p) == Some(DirN(DIR_META, EMPTY))
    ensures p in m.dirs <==> Look(t, p).Some? && Look(t, p).value.DirN?
  {
    hide Look;
    assert Look(t, p) == RefLook(m, p);
  }

  lemma StayedAgrees(t: Tree, m: RefState, o: RefState, from: Path, to: Path, after: RefState, q: Path)
    requires Plain(m) && SameLook(t, m) && Apart(from, to) && Insertable(t, to)
    requires o == m.(dirs := m.dirs + Parents(to)) && Plain(o)
    requires TameGroups(t, DoRename(from, to)) && !(to <= q)
    requires forall p | p != [] && to <= p && to != p :: Look(t, p) == None
    requires Shifted(o, from, to, Elements(PathsUnder(o, from)), after)
    ensures q != [] ==> LookAfterRename(t, from, to, q) == RefLook(after, q)
    ensures !(q in after.dirs && q in after.files)
    ensures q == [] ==> q !in after.dirs && q !in after.files
    ensures q in after.links ==> q in after.files && after.links[q] != []
  {
    hide Look, Insertable, Extents, PathsUnder, Parents, PathStr, TameGroups, IsDirAt;
    assert FileOf(after, q) == ShiftedFile(o, from, to, Elements(PathsUnder(o, from)), q);
    ParentsOf(to, q);
    if q != [] {
      LinkedStays(t, m, from, to, q);
      AgreeAt(t, m, q);
      DirAgrees(t, m, q);
      if q in Parents(to) {
        ParentsAreDirs(t, m, to, q);
      }
    }
  }

  lemma ParentsOf(p: Path, q: Path)
    ensures q in Parents(p) <==> q != [] && q <= p && q != p
  {
    if q != [] && q <= p && q != p {
      assert |q| == |p| ==> q == p;
      assert q == p[..|q|];
    }
  }

  // ---- the key-value map ----

  lemma KvSetAgrees(ws: WsState, m: RefState, ns: Str, key: Str, v: Str)
    requires ws.isOpen && ws.kv == RefKvMap(m)
    ensures var a, b := KvPut(ws, ns, key, v), RefKvSet(m, ns, key, v);
            && (a.result.Ok? == b.result.Ok? <==> !Diverges(ws, DoKvSet(ns, key, v)))
            && (!Diverges(ws, DoKvSet(ns, key, v)) ==> a.ws.kv == RefKvMap(b.m) && a.ws.tree == ws.tree)
            && b.m == m.(kv := b.m.kv)
  {
    hide StageAll, Incoming, Added;
    StageFrame(ws, [StagedChunk(ChunkDigest(v), v)]);
    assert RefKvMap(RefKvSet(m, ns, key, v).m) == RefKvMap(m)[(ns, key) := ChunkDigest(v)];
  }

  lemma KvDeleteAgrees(ws: WsState, m: RefState, ns: Str, key: Str)
    requires ws.isOpen && ws.kv == RefKvMap(m)
    ensures var a, b := KvDrop(ws, ns, key), RefKvDelete(m, ns, key);
            a.result.Ok? == b.result.Ok? && a.ws.kv == RefKvMap(b.m) && a.ws.tree == ws.tree && b.m == m.(kv := b.m.kv)
  {
    var b := RefKvDelete(m, ns, key).m;
    assert (ns, key) in m.kv ==> RefKvMap(b) == RefKvMap(m) - {(ns, key)};
  }

  lemma SameLookFrame(t: Tree, m: RefState, n: RefState)
    requires SameLook(t, m) && n == m.(kv := n.kv)
    ensures SameLook(t, n)
  {
    hide Look;
    forall p | p != []
      ensures Look(t, p) == RefLook(n, p)
    {
      assert Look(t, p) == RefLook(m, p);
    }
  }

  // ---- the theorems ----

  lemma StepStaysOpen(ws: WsState, op: Op)
    ensures Step(ws, op).ws.isOpen == ws.isOpen
  {
    hide InsertAll, InsertAllNodes, RouteNodes, Remove, NodeAt, StageAll, Added, Incoming, Extents;
    hide RenameRefused, WriteTargets, WrittenFile, GroupFile, Joining, Without;
  }

  /**
   * Success agrees at a step exactly when the step does not diverge, and then the states stay related. Renames
   * agree in both exactly then, those aside that the workspace refuses and the model stops at on the way.
   */
  lemma StepAgrees(ws: WsState, m: RefState, op: Op)
    requires Related(ws, m) && Compared(op)
    ensures !op.DoRename? ==> (Step(ws, op).result.Ok? == RefStep(m, op).result.Ok? <==> !Diverges(ws, op))
    ensures op.DoRename? && (Step(ws, op).result.Ok? || AllParse(ws.tree, op.from, op.to)) ==>
              (Step(ws, op).result.Ok? == RefStep(m, op).result.Ok? && Related(Step(ws, op).ws, RefStep(m, op).m)
               <==> !Diverges(ws, op))
    ensures !Diverges(ws, op) ==>
              Step(ws, op).result.Ok? == RefStep(m, op).result.Ok? && Related(Step(ws, op).ws, RefStep(m, op).m)
  {
    hide GroupsOk, NamesAgree, Mkdir, Write, Unlinked, Rmdir, Renamed, Linked, KvPut, KvDrop, SameLook, Look, Fits;
    hide RefMkdir, RefWrite, RefUnlink, RefRmdir, RefRename, RefLink, RefKvSet, RefKvDelete, AllParse;
    StepLinks(ws, op);
    StepStaysOpen(ws, op);
    match op
    case DoMkdir(p) => MkdirAgrees(ws, m, p);
    case DoWrite(p, bytes) => WriteAgrees(ws, m, p, bytes);
    case DoUnlink(p) => UnlinkAgrees(ws, m, p);
    case DoRmdir(p) => RmdirAgrees(ws, m, p);
    case DoRename(f, t) => RenameAgrees(ws, m, f, t);
    case DoLink(e, x) => LinkAgrees(ws, m, e, x);
    case DoKvSet(ns, key, v) =>
      KvSetAgrees(ws, m, ns, key, v);
      if !Diverges(ws, op) {
        SameLookFrame(ws.tree, m, RefStep(m, op).m);
      }
    case DoKvDelete(ns, key) =>
      KvDeleteAgrees(ws, m, ns, key);
      SameLookFrame(ws.tree, m, RefStep(m, op).m);
    case _ =>
  }

  function RefRun(m: RefState, ops: seq<Op>): RefState
    requires forall op <- ops :: Compared(op)
    decreases |ops|
  {
    if ops == [] then m else RefRun(RefStep(m, ops[0]).m, ops[1..])
  }

  /** No step of the run diverges where it happens. */
  ghost predicate Convergent(ws: WsState, ops: seq<Op>)
    decreases |ops|
  {
    ops == [] || (!Diverges(ws, ops[0]) && Convergent(Step(ws, ops[0]).ws, ops[1..]))
  }

  lemma {:induction false} RunStep(ws: WsState, m: RefState, ops: seq<Op>, i: nat)
    requires 0 < i <= |ops| && forall op <- ops :: Compared(op)
    ensures Run(ws, ops[..i]) == Run(Step(ws, ops[0]).ws, ops[1..][..i - 1])
    ensures RefRun(m, ops[..i]) == RefRun(RefStep(m, ops[0]).m, ops[1..][..i - 1])
  {
    hide Step, RefStep;
    assert ops[..i][0] == ops[0] && ops[..i][1..] == ops[1..][..i - 1];
  }

  /**
   * The headline: along any run without divergence, workspace and model agree on the success of every step,
   * and after every step their namespace trees and key-value maps, hence their state roots, are equal.
   */
  lemma {:induction false} RunAgrees(ws: WsState, m: RefState, ops: seq<Op>, i: nat)
    requires Related(ws, m) && (forall op <- ops :: Compared(op)) && Convergent(ws, ops) && i <= |ops|
    ensures var w, r := Run(ws, ops[..i]), RefRun(m, ops[..i]);
            && Related(w, r)
            && RefTree(r) == Ok(w.tree) && RefKvMap(r) == w.kv
            && RootDigest(IdOf(RefTree(r).value), KvDigest(RefKvMap(r))) == RootDigest(IdOf(w.tree), KvDigest(w.kv))
            && (i < |ops| ==> Step(w, ops[i]).result.Ok? == RefStep(r, ops[i]).result.Ok?)
    decreases i
  {
    hide Step, RefStep, RefTree, Related, Diverges, IdOf, RefKvMap;
    if i == 0 {
      assert ops[..0] == [];
      SameRoot(ws, m);
      if |ops| > 0 {
        StepAgrees(ws, m, ops[0]);
      }
    } else {
      StepAgrees(ws, m, ops[0]);
      RunStep(ws, m, ops, i);
      RunAgrees(Step(ws, ops[0]).ws, RefStep(m, ops[0]).m, ops[1..], i - 1);
    }
  }

  /** Both start empty, so every run from the start is covered. */
  lemma StartRelated(limit: nat)
    ensures Related(Open(EMPTY, map[], limit), EMPTY_REF)
  {
    forall p | p != []
      ensures Look(EMPTY, p) == RefLook(EMPTY_REF, p)
    {
    }
  }
}
