/** Hard-link groups: the invariant, and exactly which operations keep it. */
module LinkGroups {
  import opened Base
  import opened Paths
  import opened Trees
  import opened TreeOps
  import opened WorkspaceSpec
  import opened Links

  // ---- the invariant ----

  /** A file with more than one name. */
  ghost predicate LinkedAt(t: Tree, p: Path)
    requires p != []
  {
    Look(t, p).Some? && Look(t, p).value.FileN? && Look(t, p).value.links != []
  }

  /** `links` is the group of the file at `p`. */
  ghost predicate MemberOf(t: Tree, p: Path, links: seq<Path>) {
    p != [] && Look(t, p).Some? && Look(t, p).value.FileN? && Look(t, p).value.links == links
  }

  /** Strictly ascending: sorted and free of duplicates; at least two; every member exists and lists the group. */
  ghost predicate GroupOk(t: Tree, p: Path, links: seq<Path>) {
    p in links && |links| > 1 && Ascending(links, PathKey) && forall q <- links :: MemberOf(t, q, links)
  }

  ghost predicate GroupsOk(t: Tree) {
    forall p | p != [] && LinkedAt(t, p) :: GroupOk(t, p, Look(t, p).value.links)
  }

  /** Every name of a file shows the same entry. */
  ghost predicate NamesAgree(t: Tree) {
    forall p, q | p != [] && q != [] && LinkedAt(t, p) && q in Look(t, p).value.links :: Look(t, q) == Look(t, p)
  }

  ghost predicate LinksOk(t: Tree) {
    GroupsOk(t) && NamesAgree(t)
  }

  // ---- order of the member lists ----

  lemma SortPathsAscends(s: set<Path>)
    ensures Ascending(SortPaths(s), PathKey) && |SortPaths(s)| == |s|
  {
    PathKeyInjective(s);
    SortedByAscends(s, PathKey);
  }

  lemma {:induction false} WithoutAscends(links: seq<Path>, p: Path)
    requires Ascending(links, PathKey)
    ensures Ascending(Without(links, p), PathKey)
  {
    hide PathKey;
    if links != [] {
      WithoutAscends(links[1..], p);
      assert forall q | q in links[1..] :: LexLt(PathKey(links[0]), PathKey(q));
    }
  }

  lemma {:induction false} WithoutAbsent(links: seq<Path>, p: Path)
    requires p !in links
    ensures Without(links, p) == links
  {
    if links != [] {
      WithoutAbsent(links[1..], p);
    }
  }

  // ---- what an edit must preserve ----

  /** Linked files are the same before and after. */
  ghost predicate SameLinked(t: Tree, s: Tree) {
    forall q | q != [] && (LinkedAt(t, q) || LinkedAt(s, q)) :: Look(s, q) == Look(t, q)
  }

  lemma SameLinkedKeeps(t: Tree, s: Tree)
    requires SameLinked(t, s)
    ensures GroupsOk(t) ==> GroupsOk(s)
    ensures LinksOk(t) ==> LinksOk(s)
  {
    hide Look, Ascending;
    if GroupsOk(t) {
      forall p | p != [] && LinkedAt(s, p)
        ensures GroupOk(s, p, Look(s, p).value.links)
      {
        assert LinkedAt(t, p);
        forall q | q in Look(t, p).value.links
          ensures MemberOf(s, q, Look(t, p).value.links)
        {
          assert MemberOf(t, q, Look(t, p).value.links);
          assert LinkedAt(t, q);
        }
      }
      if NamesAgree(t) {
        forall p, q | p != [] && q != [] && LinkedAt(s, p) && q in Look(s, p).value.links
          ensures Look(s, q) == Look(s, p)
        {
          assert LinkedAt(t, p) && MemberOf(t, q, Look(t, p).value.links);
          assert LinkedAt(t, q);
        }
      }
    }
  }

  ghost predicate NoneIsDir(t: Tree, paths: seq<Path>) {
    forall p <- paths :: p != [] && !IsDirAt(t, p)
  }

  /** A batch over paths that are no directories leaves everything that existed elsewhere as it was. */
  lemma OthersUnaffected(t: Tree, paths: seq<Path>, n: Node, q: Path)
    requires NoneIsDir(t, paths) && q != [] && q !in paths && Look(t, q).Some?
    ensures LookAfterAll(t, paths, n, q) == Look(t, q)
  {
    if Beneath(paths, q) {
      var p :| p in paths && p <= q;
      assert |p| < |q| by {
        assert p != q;
      }
      NothingBeneath(t, p, q);
    }
  }

  /** The paths of the batch take their whole groups along. */
  ghost predicate TakesGroups(t: Tree, paths: seq<Path>) {
    forall p | p in paths && p != [] && LinkedAt(t, p) :: forall q <- Look(t, p).value.links :: q in paths
  }

  /** The new file's own group is exactly the batch, or it has none. */
  ghost predicate GroupIsBatch(n: Node, paths: seq<Path>) {
    LinksOf(n) == [] || (|paths| > 1 && LinksOf(n) == paths && Ascending(paths, PathKey))
  }

  lemma BatchKeepsGroups(t: Tree, s: Tree, paths: seq<Path>, n: Node)
    requires !n.DirN? && NoneIsDir(t, paths) && TakesGroups(t, paths) && GroupIsBatch(n, paths)
    requires forall q | q != [] :: Look(s, q) == LookAfterAll(t, paths, n, q)
    ensures GroupsOk(t) ==> GroupsOk(s)
    ensures LinksOk(t) ==> LinksOk(s)
  {
    hide Look, Ascending, Above, Beneath;
    if GroupsOk(t) {
      forall p | p != [] && LinkedAt(s, p)
        ensures GroupOk(s, p, Look(s, p).value.links)
        ensures NamesAgree(t) ==> forall q | q != [] && q in Look(s, p).value.links :: Look(s, q) == Look(s, p)
      {
        MemberAfterBatch(t, s, paths, n, p);
      }
    }
  }

  lemma MemberAfterBatch(t: Tree, s: Tree, paths: seq<Path>, n: Node, p: Path)
    requires !n.DirN? && NoneIsDir(t, paths) && TakesGroups(t, paths) && GroupIsBatch(n, paths) && GroupsOk(t)
    requires forall q | q != [] :: Look(s, q) == LookAfterAll(t, paths, n, q)
    requires p != [] && LinkedAt(s, p)
    ensures GroupOk(s, p, Look(s, p).value.links)
    ensures NamesAgree(t) ==> forall q | q != [] && q in Look(s, p).value.links :: Look(s, q) == Look(s, p)
  {
    hide Look, Ascending, Above, Beneath;
    if p !in paths {
      assert Look(s, p) == Look(t, p);
      var links := Look(t, p).value.links;
      assert LinkedAt(t, p) && GroupOk(t, p, links);
      forall q | q in links
        ensures q != [] && Look(s, q) == Look(t, q) && MemberOf(s, q, links)
      {
        assert MemberOf(t, q, links);
        assert LinkedAt(t, q);
        assert q !in paths;
        OthersUnaffected(t, paths, n, q);
      }
    }
  }

  // ---- batches that the operations build ----

  ghost predicate BatchReady(t: Tree, paths: seq<Path>) {
    (forall p <- paths :: p != []) && NoneIsDir(t, paths) && Unnested(paths)
  }

  lemma SingleReady(t: Tree, p: Path)
    requires p != [] && !IsDirAt(t, p)
    ensures BatchReady(t, [p]) && (AllInsertable(t, [p]) <==> Insertable(t, p))
  {
  }

  lemma ExistingIsInsertable(t: Tree, p: Path)
    requires p != [] && Get(t, p).Some?
    ensures Insertable(t, p)
  {
    forall i | 0 < i < |p|
      ensures Get(t, p[..i]).Some? ==> Get(t, p[..i]).value.DirN?
    {
      AncestorsAreDirs(t, p, i);
    }
  }

  lemma LeavesUnnested(t: Tree, p: Path, q: Path)
    requires p != [] && q != [] && Get(t, q).Some? && !IsDirAt(t, p) && p <= q
    ensures p == q
  {
    if p != q {
      NothingBeneath(t, p, q);
    }
  }

  /** Existing files make a sound batch that always succeeds. */
  lemma MembersReady(t: Tree, paths: seq<Path>)
    requires forall p <- paths :: p != [] && Look(t, p).Some? && Look(t, p).value.FileN?
    ensures BatchReady(t, paths) && AllInsertable(t, paths)
  {
    forall p | p in paths
      ensures !IsDirAt(t, p) && Insertable(t, p)
    {
      ExistingIsInsertable(t, p);
    }
    forall p, q | p in paths && q in paths && p <= q
      ensures p == q
    {
      LeavesUnnested(t, p, q);
    }
  }

  /** A batch with a blocked path fails, and says why. */
  lemma {:induction false} BatchBlocked(t: Tree, paths: seq<Path>, n: Node, q: Path)
    requires !n.DirN? && (forall p <- paths :: p != []) && q in paths && !Insertable(t, q)
    ensures InsertAll(t, paths, n) == Err(NotADirectory)
    decreases |paths|
  {
    HeadAndTail(paths);
    InsertSucceeds(t, paths[0], n);
    if Insert(t, paths[0], n).Ok? {
      assert paths[0] != q;
      StaysBlocked(t, paths[0], n, q);
      BatchBlocked(Insert(t, paths[0], n).value, paths[1..], n, q);
    }
  }

  /** The whole effect of a ready batch: when it succeeds, and what every path then shows. */
  lemma BatchEffect(t: Tree, paths: seq<Path>, n: Node)
    requires !n.DirN? && BatchReady(t, paths)
    ensures InsertAll(t, paths, n).Ok? <==> AllInsertable(t, paths)
    ensures InsertAll(t, paths, n).Err? ==> InsertAll(t, paths, n).error == NotADirectory
    ensures InsertAll(t, paths, n).Ok? ==>
              forall q | q != [] :: Look(InsertAll(t, paths, n).value, q) == LookAfterAll(t, paths, n, q)
  {
    hide Look, InsertAll, LookAfterAll, Insertable;
    InsertAllSucceeds(t, paths, n);
    if InsertAll(t, paths, n).Ok? {
      forall q | q != []
        ensures Look(InsertAll(t, paths, n).value, q) == LookAfterAll(t, paths, n, q)
      {
        InsertAllLook(t, paths, n, q);
      }
    } else {
      var q :| q in paths && !Insertable(t, q);
      BatchBlocked(t, paths, n, q);
    }
  }

  // ---- effects of the file operations ----

  lemma LookLeaf(t: Tree, p: Path)
    requires p != []
    ensures (Get(t, p).None? <==> Look(t, p).None?)
              && (Get(t, p).Some? && !Get(t, p).value.DirN? ==> Look(t, p) == Get(t, p))
    ensures Get(t, p).Some? ==> (Look(t, p).value.DirN? <==> Get(t, p).value.DirN?)
  {
  }

  /** Writing: the batch is the file's whole group, or just the path. */
  lemma WriteBatch(t: Tree, p: Path, bytes: Str)
    requires GroupsOk(t) && p != [] && !IsDirAt(t, p)
    ensures var there := NodeAt(t, p);
            var paths, n := WriteTargets(there, p), WrittenFile(there, bytes);
            && BatchReady(t, paths) && TakesGroups(t, paths) && GroupIsBatch(n, paths) && p in paths
            && (AllInsertable(t, paths) <==> Insertable(t, p))
  {
    var there := NodeAt(t, p);
    LookLeaf(t, p);
    if there.Some? && LinksOf(there.value) != [] {
      var links := LinksOf(there.value);
      assert LinkedAt(t, p) && GroupOk(t, p, links);
      assert forall q | q in links :: MemberOf(t, q, links);
      hide Look, Ascending;
      MembersReady(t, links);
      ExistingIsInsertable(t, p);
    } else {
      SingleReady(t, p);
    }
  }

  function Members(n: Node, existing: Path): seq<Path>
    requires n.FileN?
  {
    if n.links == [] then [existing] else n.links
  }

  /** The names a file has, each showing a file with the same group. */
  lemma MembersExist(t: Tree, existing: Path)
    requires GroupsOk(t) && existing != [] && Look(t, existing).Some? && Look(t, existing).value.FileN?
    ensures var n := Look(t, existing).value;
            && existing in Members(n, existing)
            && forall p <- Members(n, existing) :: MemberOf(t, p, n.links)
  {
    hide Look, Ascending;
    var n := Look(t, existing).value;
    if n.links != [] {
      assert LinkedAt(t, existing) && GroupOk(t, existing, n.links);
    }
  }

  /** Linking: the batch is the old group with the new name; it goes through unless the new name is blocked. */
  lemma LinkBatch(t: Tree, existing: Path, extra: Path)
    requires GroupsOk(t) && existing != [] && extra != []
    requires Look(t, existing).Some? && Look(t, existing).value.FileN? && Look(t, extra).None?
    ensures var n := Look(t, existing).value;
            var group := Joining(n, existing, extra);
            && existing in group && extra in group && |group| > 1
            && (forall p <- group :: p != [])
            && (Insertable(t, extra) ==> BatchReady(t, group) && AllInsertable(t, group))
            && TakesGroups(t, group) && GroupIsBatch(GroupFile(group, n), group)
  {
    hide Look, Ascending, Insertable, SortPaths, BatchReady, GroupsOk;
    var n := Look(t, existing).value;
    var members := Members(n, existing);
    var group := Joining(n, existing, extra);
    MembersExist(t, existing);
    SortPathsAscends(Elements(members) + {extra});
    assert forall p :: p in group <==> p in members || p == extra;
    TwoElements(Elements(members) + {extra}, existing, extra);
    if Insertable(t, extra) {
      LinkReady(t, members, extra, group);
    }
    forall p | p in group && p != [] && LinkedAt(t, p)
      ensures Look(t, p).value.links == members
    {
      assert MemberOf(t, p, n.links);
    }
  }

  lemma TwoElements(s: set<Path>, a: Path, b: Path)
    requires a in s && b in s && a != b
    ensures |s| > 1
  {
    assert |s| == |s - {a}| + 1;
    assert b in s - {a};
  }

  lemma LinkReady(t: Tree, members: seq<Path>, extra: Path, group: seq<Path>)
    requires forall p <- members :: p != [] && Look(t, p).Some? && Look(t, p).value.FileN?
    requires extra != [] && Look(t, extra).None? && Insertable(t, extra)
    requires forall p :: p in group <==> p in members || p == extra
    ensures BatchReady(t, group) && AllInsertable(t, group)
  {
    LookLeaf(t, extra);
    MembersReady(t, members);
    forall p, q | p in group && q in group && p <= q
      ensures p == q
    {
      if p == extra && q != extra {
        assert Get(t, q).Some?;
        LeavesUnnested(t, extra, q);
      } else if p != extra && q == extra {
        NoLeafAbove(t, p, extra);
      }
    }
  }

  lemma NoLeafAbove(t: Tree, p: Path, q: Path)
    requires p != [] && p <= q && Insertable(t, q) && Get(t, p).Some? && !Get(t, p).value.DirN?
    ensures p == q
  {
    assert q[..|p|] == p;
    assert |p| == |q| ==> p == q;
  }

  lemma RemoveFileEffect(t: Tree, p: Path)
    requires p != [] && Look(t, p).Some? && !Look(t, p).value.DirN?
    ensures Remove(t, p).Ok?
    ensures forall q | q != [] :: Look(Remove(t, p).value, q) == if q == p then None else Look(t, q)
  {
    LookLeaf(t, p);
    RemoveSucceeds(t, p);
    forall q | q != []
      ensures Look(Remove(t, p).value, q) == if q == p then None else Look(t, q)
    {
      RemoveLook(t, p, q);
      if p <= q && p != q {
        NothingBeneath(t, p, q);
      }
    }
  }

  /** What every path shows after one name of a file is removed. */
  ghost function LookAfterUnlink(t: Tree, p: Path, n: Node, q: Path): Option<Node>
    requires q != []
  {
    var remaining := Without(LinksOf(n), p);
    if q == p then None
    else if q in remaining && n.FileN? then Some(GroupFile(remaining, n))
    else Look(t, q)
  }

  /** Unlinking a file of a sound tree always succeeds, and the other names keep the file. */
  lemma UnlinkEffect(ws: WsState, p: Path)
    requires ws.isOpen && GroupsOk(ws.tree) && p != [] && Look(ws.tree, p).Some? && !Look(ws.tree, p).value.DirN?
    ensures Unlinked(ws, p).result.Ok?
    ensures forall q | q != [] :: Look(Unlinked(ws, p).ws.tree, q)
              == LookAfterUnlink(ws.tree, p, Look(ws.tree, p).value, q)
  {
    var t := ws.tree;
    var n := Look(t, p).value;
    LookLeaf(t, p);
    RemoveFileEffect(t, p);
    var r := Remove(t, p).value;
    var remaining := Without(LinksOf(n), p);
    if remaining != [] {
      assert LinkedAt(t, p) && GroupOk(t, p, n.links);
      forall q | q in remaining
        ensures q != [] && Look(r, q).Some? && Look(r, q).value.FileN?
      {
        assert MemberOf(t, q, n.links);
      }
      hide Look, Remove, InsertAll, LookAfterAll;
      MembersReady(r, remaining);
      BatchEffect(r, remaining, GroupFile(remaining, n));
      forall q | q != []
        ensures LookAfterAll(r, remaining, GroupFile(remaining, n), q) == LookAfterUnlink(t, p, n, q)
      {
        MembersOnly(r, remaining, GroupFile(remaining, n), q);
      }
    }
  }

  /** A batch over existing files creates no directories. */
  lemma MembersOnly(t: Tree, paths: seq<Path>, n: Node, q: Path)
    requires q != [] && forall p <- paths :: p != [] && Look(t, p).Some? && Look(t, p).value.FileN?
    ensures LookAfterAll(t, paths, n, q) == if q in paths then Some(n) else Look(t, q)
  {
    if q !in paths {
      if Beneath(paths, q) {
        var p :| p in paths && p <= q;
        LookLeaf(t, p);
        assert |p| == |q| ==> p == q;
        NothingBeneath(t, p, q);
      } else if Above(paths, q) {
        var p :| p in paths && q <= p;
        LookLeaf(t, p);
        AncestorsAreDirs(t, p, |q|);
        assert q == p[..|q|];
      }
    }
  }

  // ---- effects of the directory operations ----

  lemma MkdirEffect(t: Tree, p: Path)
    requires p != [] && Look(t, p).None? && Insert(t, p, FRESH_DIR).Ok?
    ensures SameLinked(t, Insert(t, p, FRESH_DIR).value)
  {
    hide Insert;
    LookLeaf(t, p);
    forall q | q != []
      ensures var s := Insert(t, p, FRESH_DIR).value;
              LinkedAt(t, q) || LinkedAt(s, q) ==> Look(s, q) == Look(t, q)
    {
      InsertLook(t, p, FRESH_DIR, q);
      if p <= q && p != q {
        LookEmpty(q[|p|..]);
        assert |p| == |q| ==> p == q;
        NothingBeneath(t, p, q);
      }
    }
  }

  lemma RmdirEffect(t: Tree, p: Path)
    requires p != [] && Get(t, p).Some? && Get(t, p).value.DirN? && Get(t, p).value.sub.kids == map[]
    ensures Remove(t, p).Ok?
    ensures forall q | q != [] :: Look(Remove(t, p).value, q) == if q == p then None else Look(t, q)
    ensures SameLinked(t, Remove(t, p).value)
  {
    RemoveSucceeds(t, p);
    forall q | q != []
      ensures Look(Remove(t, p).value, q) == if q == p then None else Look(t, q)
    {
      RemoveLook(t, p, q);
      if p <= q && p != q {
        EmptyBeneath(t, p, q);
      }
    }
  }

  lemma EmptyBeneath(t: Tree, p: Path, q: Path)
    requires p != [] && p <= q && p != q
    requires Get(t, p).Some? && Get(t, p).value.DirN? && Get(t, p).value.sub.kids == map[]
    ensures Look(t, q) == None
  {
    assert |p| == |q| ==> p == q;
    assert q == p + q[|p|..];
    GetConcat(t, p, q[|p|..]);
  }

  lemma DirMetaEffect(t: Tree, p: Path, meta: Meta)
    requires p != [] && Get(t, p).Some? && Get(t, p).value.DirN?
    ensures var s := Insert(t, p, DirN(meta, Get(t, p).value.sub));
            s.Ok? && SameLinked(t, s.value)
  {
    var m := DirN(meta, Get(t, p).value.sub);
    ExistingIsInsertable(t, p);
    InsertSucceeds(t, p, m);
    forall q | q != []
      ensures var s := Insert(t, p, m).value;
              LinkedAt(t, q) || LinkedAt(s, q) ==> Look(s, q) == Look(t, q)
    {
      InsertLook(t, p, m, q);
      if p <= q {
        assert q == p + q[|p|..];
        if q[|p|..] != [] {
          GetConcat(t, p, q[|p|..]);
        } else {
          assert q == p;
        }
      } else if q <= p {
        AncestorsAreDirs(t, p, |q|);
        assert q == p[..|q|];
      }
    }
  }

  /** A target that a rename accepts has nothing beneath it, and is not an ancestor of the source. */
  lemma RenameTarget(t: Tree, from: Path, to: Path)
    requires from != [] && to != [] && !(from <= to) && Get(t, from).Some?
    requires RenameRefused(Get(t, from).value, Get(t, to)).None?
    ensures !(to <= from)
    ensures forall q | q != [] && to <= q && to != q :: Look(t, q) == None
  {
    forall q | q != [] && to <= q && to != q
      ensures Look(t, q) == None && Get(t, q) == None
    {
      assert |to| == |q| ==> to == q;
      LookLeaf(t, q);
      if IsDirAt(t, to) {
        EmptyBeneath(t, to, q);
      } else {
        NothingBeneath(t, to, q);
      }
    }
    assert to <= from ==> to != from;
  }

  /** What every path shows after an accepted rename: the subtree, moved; the source gone; the rest framed. */
  ghost function LookAfterRename(t: Tree, from: Path, to: Path, q: Path): Option<Node>
    requires q != [] && from != []
  {
    if to <= q then Look(t, from + q[|to|..])
    else if from <= q then None
    else if q <= to && Look(t, q) == None then Some(FRESH_DIR)
    else Look(t, q)
  }

  lemma MovedLook(t: Tree, from: Path, x: Path)
    requires from != [] && Get(t, from).Some?
    ensures LookIn(Get(t, from).value, x) == Look(t, from + x)
  {
    if x == [] {
      assert from + x == from;
    } else {
      GetConcat(t, from, x);
    }
  }

  lemma MoveEffect(t: Tree, from: Path, to: Path, q: Path)
    requires from != [] && to != [] && !(from <= to) && !(to <= from) && Get(t, from).Some? && q != []
    requires Insert(t, to, Get(t, from).value).Ok? && Remove(Insert(t, to, Get(t, from).value).value, from).Ok?
    ensures Look(Remove(Insert(t, to, Get(t, from).value).value, from).value, q) == LookAfterRename(t, from, to, q)
  {
    hide Insert, Remove, Get, Look;
    var n := Get(t, from).value;
    RemoveLook(Insert(t, to, n).value, from, q);
    InsertLook(t, to, n, q);
    assert NotBoth(from, to, q);
    if to <= q {
      MovedLook(t, from, q[|to|..]);
    } else if q <= to {
      assert from <= q ==> from <= to;
    }
  }

  /** An accepted rename moves the whole subtree intact and leaves everything else alone. */
  lemma RenameEffect(ws: WsState, from: Path, to: Path)
    requires ws.isOpen && Renamed(ws, from, to).result.Ok? && from != to
    ensures from != [] && to != [] && !(from <= to) && !(to <= from)
    ensures Get(ws.tree, from).Some? && Get(Renamed(ws, from, to).ws.tree, to) == Get(ws.tree, from)
    ensures forall q | q != [] :: Look(Renamed(ws, from, to).ws.tree, q) == LookAfterRename(ws.tree, from, to, q)
  {
    hide Insert, Remove, Get, Look, RenameRefused, LookAfterRename;
    var t := ws.tree;
    var n := Get(t, from).value;
    RenameTarget(t, from, to);
    var s := Renamed(ws, from, to).ws.tree;
    assert s == Remove(Insert(t, to, n).value, from).value;
    forall q | q != []
      ensures Look(s, q) == LookAfterRename(t, from, to, q)
    {
      MoveEffect(t, from, to, q);
    }
    RenamedSubtree(t, s, from, to);
  }

  lemma RenamedSubtree(t: Tree, s: Tree, from: Path, to: Path)
    requires from != [] && to != [] && Get(t, from).Some?
    requires forall q | q != [] :: Look(s, q) == LookAfterRename(t, from, to, q)
    ensures Get(s, to) == Get(t, from)
  {
    hide Get, Look;
    forall x: Path
      ensures Look(s, to + x) == Look(t, from + x)
    {
      assert (to + x)[|to|..] == x && to <= to + x;
    }
    WholeSubtree(t, s, from, to);
  }

  predicate NotBoth(p: Path, q: Path, r: Path) {
    !(p <= r && q <= r && !(p <= q) && !(q <= p))
  }

  /** Equal lookups beneath two paths mean equal subtrees. */
  lemma WholeSubtree(t: Tree, s: Tree, from: Path, to: Path)
    requires from != [] && to != [] && Get(t, from).Some?
    requires forall x: Path :: Look(s, to + x) == Look(t, from + x)
    ensures Get(s, to) == Get(t, from)
  {
    assert from + [] == from && to + [] == to;
    assert Look(s, to + []) == Look(t, from + []);
    LookLeaf(s, to);
    LookLeaf(t, from);
    if Get(t, from).value.DirN? {
      SameBeneath(t, s, from, to);
    }
  }

  lemma SameBeneath(t: Tree, s: Tree, from: Path, to: Path)
    requires from != [] && to != [] && IsDirAt(t, from) && IsDirAt(s, to)
    requires forall x: Path :: Look(s, to + x) == Look(t, from + x)
    ensures Get(s, to).value.sub == Get(t, from).value.sub
  {
    hide Get, Look;
    var m, n := Get(s, to).value.sub, Get(t, from).value.sub;
    forall x | x != []
      ensures Look(m, x) == Look(n, x)
    {
      MovedLook(t, from, x);
      MovedLook(s, to, x);
    }
    Extensional(m, n);
  }
}
