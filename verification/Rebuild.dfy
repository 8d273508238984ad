/** The reference model's rebuild loop produces exactly the tree its flat maps describe. */
module Rebuild {
  import opened Base
  import opened Paths
  import opened Trees
  import opened TreeOps
  import opened WorkspaceSpec
  import opened LinkGroups
  import opened RefModel

  // ---- a list of insertions that never clobbers ----

  /** What the list holds at `q`; later items win. */
  function LookItems(items: seq<Item>, q: Path): Option<Node> {
    if items == [] then None
    else if items[|items| - 1].path == q then Some(items[|items| - 1].node)
    else LookItems(items[..|items| - 1], q)
  }

  /** Each item's parents come earlier, as directories, and nothing beneath it does. */
  ghost predicate ItemReady(earlier: seq<Item>, item: Item) {
    && item.path != [] && (item.node.DirN? ==> item.node.sub == EMPTY)
    && (forall k | 0 < k < |item.path| ::
          LookItems(earlier, item.path[..k]).Some? && LookItems(earlier, item.path[..k]).value.DirN?)
    && (forall e <- earlier :: !(item.path <= e.path))
  }

  ghost predicate Buildable(items: seq<Item>) {
    forall i | 0 <= i < |items| :: ItemReady(items[..i], items[i])
  }

  lemma {:induction false} LookItemsFinds(items: seq<Item>, q: Path)
    ensures LookItems(items, q).Some? ==> exists e <- items :: e.path == q && LookItems(items, q) == Some(e.node)
  {
    if items != [] {
      var n := |items| - 1;
      assert items[n] in items;
      if items[n].path != q {
        LookItemsFinds(items[..n], q);
      }
    }
  }

  lemma {:induction false} LookItemsAt(items: seq<Item>, j: nat)
    requires j < |items| && forall i | j < i < |items| :: items[i].path != items[j].path
    ensures LookItems(items, items[j].path) == Some(items[j].node)
  {
    if j < |items| - 1 {
      LookItemsAt(items[..|items| - 1], j);
    }
  }

  lemma BuildableInit(items: seq<Item>)
    requires Buildable(items) && items != []
    ensures Buildable(items[..|items| - 1]) && ItemReady(items[..|items| - 1], items[|items| - 1])
  {
    hide ItemReady;
    var init := items[..|items| - 1];
    forall i | 0 <= i < |init|
      ensures ItemReady(init[..i], init[i])
    {
      assert init[..i] == items[..i];
    }
  }

  lemma EmptyLeaf(n: Node, q: Path)
    requires n.DirN? ==> n.sub == EMPTY
    ensures LookIn(n, q) == if q == [] then Some(n) else None
  {
  }

  /** One insertion of a ready item. */
  lemma InsertReady(s: Tree, earlier: seq<Item>, item: Item)
    requires ItemReady(earlier, item) && forall q | q != [] :: Look(s, q) == LookItems(earlier, q)
    ensures Insert(s, item.path, item.node).Ok?
    ensures forall q | q != [] :: Look(Insert(s, item.path, item.node).value, q) ==
                                  if q == item.path then Some(item.node) else LookItems(earlier, q)
  {
    hide Insert, Look, LookItems, Get;
    var p := item.path;
    forall i | 0 < i < |p|
      ensures Get(s, p[..i]).Some? ==> Get(s, p[..i]).value.DirN?
    {
      LookLeaf(s, p[..i]);
    }
    InsertSucceeds(s, p, item.node);
    forall q | q != []
      ensures Look(Insert(s, p, item.node).value, q) == if q == p then Some(item.node) else LookItems(earlier, q)
    {
      InsertLook(s, p, item.node, q);
      if p <= q {
        assert q[|p|..] == [] <==> q == p;
        EmptyLeaf(item.node, q[|p|..]);
        LookItemsFinds(earlier, q);
      } else if q <= p {
        assert q == p[..|q|];
      }
    }
  }

  /** A buildable list builds, and the result is what the list says at every path. */
  lemma {:induction false} BuildLook(items: seq<Item>)
    requires Buildable(items)
    ensures Build(EMPTY, items).Ok?
    ensures forall q | q != [] :: Look(Build(EMPTY, items).value, q) == LookItems(items, q)
    decreases |items|
  {
    if items == [] {
      assert forall q | q != [] :: Look(EMPTY, q) == None;
    } else {
      var n := |items| - 1;
      hide Insert, Look, Build, ItemReady;
      BuildableInit(items);
      BuildLook(items[..n]);
      BuildStep(EMPTY, items, n);
      assert items[..n + 1] == items;
      InsertReady(Build(EMPTY, items[..n]).value, items[..n], items[n]);
    }
  }

  // ---- the model's own list ----

  /** What the flat maps hold at `p`. */
  function RefLook(m: RefState, p: Path): Option<Node> {
    if p in m.dirs then Some(DirN(MetaOr(m, p, DIR_META), EMPTY))
    else if p in m.symlinks then Some(SymN(MetaOr(m, p, FILE_META), m.symlinks[p]))
    else if p in m.files then Some(FileNode(m, p))
    else None
  }

  /** Nothing is at the root, no path has two kinds, and everything lies in directories that are listed. */
  ghost predicate WellFormed(m: RefState) {
    && [] !in m.dirs && [] !in m.files && [] !in m.symlinks
    && m.dirs !! m.files.Keys && m.dirs !! m.symlinks.Keys && m.files.Keys !! m.symlinks.Keys
    && forall p, k | p in m.dirs + m.files.Keys + m.symlinks.Keys && 0 < k < |p| :: p[..k] in m.dirs
  }

  /** The paths of the rebuild, in its order. */
  function ItemPaths(m: RefState): seq<Path> {
    SortPaths(m.dirs) + (SortPaths(m.symlinks.Keys) + SortPaths(m.files.Keys))
  }

  /** An item of the list, by the map it comes from. */
  lemma ItemsIndex(m: RefState, i: nat)
    requires i < |Items(m)|
    ensures |Items(m)| == |ItemPaths(m)|
    ensures var a, b, c := SortPaths(m.dirs), SortPaths(m.symlinks.Keys), SortPaths(m.files.Keys);
            Items(m)[i] == if i < |a| then Item(a[i], DirN(MetaOr(m, a[i], DIR_META), EMPTY))
                           else if i < |a| + |b| then SymItems(m, b)[i - |a|]
                           else FileItems(m, c)[i - |a| - |b|]
  {
    hide FileNode, MetaOr, SortPaths;
  }

  lemma ItemsAt(m: RefState, i: nat)
    requires i < |Items(m)| && WellFormed(m)
    ensures |Items(m)| == |ItemPaths(m)| && Items(m)[i].path == ItemPaths(m)[i]
    ensures Some(Items(m)[i].node) == RefLook(m, Items(m)[i].path)
    ensures Items(m)[i].node.DirN? ==> Items(m)[i].node.sub == EMPTY
    ensures Items(m)[i].path in m.dirs <==> i < |SortPaths(m.dirs)|
  {
    hide MetaOr, Items, SortPaths;
    var a, b, c := SortPaths(m.dirs), SortPaths(m.symlinks.Keys), SortPaths(m.files.Keys);
    ItemsIndex(m, i);
    if i < |a| {
      assert a[i] in a;
    } else if i < |a| + |b| {
      assert b[i - |a|] in b;
    } else {
      assert c[i - |a| - |b|] in c;
    }
  }

  lemma {:induction false} AscendingIndex(paths: seq<Path>, i: nat, j: nat)
    requires Ascending(paths, PathKey) && i < |paths| && j < |paths| && paths[i] <= paths[j]
    ensures i <= j
  {
    if j < i {
      assert LexLt(PathKey(paths[j]), PathKey(paths[i]));
      if |paths[i]| < |paths[j]| {
        AncestorSortsFirst(paths[i], paths[j]);
        LexTransitive(PathKey(paths[j]), PathKey(paths[i]), PathKey(paths[j]));
      } else {
        assert paths[i] == paths[j];
      }
      LexIrreflexive(PathKey(paths[j]));
    }
  }

  /** Which map an item comes from, and where it stands in that map's order. */
  lemma ItemPlace(m: RefState, i: nat) returns (paths: seq<Path>, k: nat)
    requires i < |ItemPaths(m)|
    ensures paths in {SortPaths(m.dirs), SortPaths(m.symlinks.Keys), SortPaths(m.files.Keys)}
    ensures k < |paths| && ItemPaths(m)[i] == paths[k] && Ascending(paths, PathKey)
    ensures i < |SortPaths(m.dirs)| ==> paths == SortPaths(m.dirs) && k == i
    ensures |SortPaths(m.dirs)| <= i < |SortPaths(m.dirs)| + |SortPaths(m.symlinks.Keys)| ==>
              paths == SortPaths(m.symlinks.Keys) && k == i - |SortPaths(m.dirs)|
    ensures |SortPaths(m.dirs)| + |SortPaths(m.symlinks.Keys)| <= i ==>
              paths == SortPaths(m.files.Keys) && k == i - |SortPaths(m.dirs)| - |SortPaths(m.symlinks.Keys)|
  {
    hide SortPaths, PathKey, Ascending;
    var a, b, c := SortPaths(m.dirs), SortPaths(m.symlinks.Keys), SortPaths(m.files.Keys);
    SortPathsAscends(m.dirs);
    SortPathsAscends(m.symlinks.Keys);
    SortPathsAscends(m.files.Keys);
    paths, k := if i < |a| then a else if i < |a| + |b| then b else c,
                if i < |a| then i else if i < |a| + |b| then i - |a| else i - |a| - |b|;
  }

  /** Parents before children: no item of the rebuild lies above or at an earlier one. */
  lemma ItemsApart(m: RefState, i: nat, j: nat)
    requires WellFormed(m) && j < i < |ItemPaths(m)|
    ensures !(ItemPaths(m)[i] <= ItemPaths(m)[j])
  {
    hide SortPaths, PathKey, Ascending, ItemPaths;
    var p, q := ItemPaths(m)[i], ItemPaths(m)[j];
    var x, k := ItemPlace(m, i);
    var y, l := ItemPlace(m, j);
    assert p in x && q in y;
    if p <= q {
      assert p == q[..|p|];
      assert |p| == |q| ==> p == q;
      if x == y {
        AscendingIndex(x, k, l);
      }
    }
  }

  lemma ItemFound(m: RefState, n: nat, j: nat)
    requires WellFormed(m) && j < n <= |Items(m)|
    ensures LookItems(Items(m)[..n], Items(m)[j].path) == Some(Items(m)[j].node)
  {
    hide Items;
    forall i | j < i < n
      ensures Items(m)[i].path != Items(m)[j].path
    {
      ItemsAt(m, i);
      ItemsAt(m, j);
      ItemsApart(m, i, j);
    }
    LookItemsAt(Items(m)[..n], j);
  }

  lemma ItemsBuildable(m: RefState)
    requires WellFormed(m)
    ensures Buildable(Items(m))
  {
    hide LookItems, SortPaths, FileNode;
    forall i | 0 <= i < |Items(m)|
      ensures ItemReady(Items(m)[..i], Items(m)[i])
    {
      ItemIsReady(m, i);
    }
  }

  lemma ItemIsReady(m: RefState, i: nat)
    requires WellFormed(m) && i < |Items(m)|
    ensures ItemReady(Items(m)[..i], Items(m)[i])
  {
    hide LookItems, FileNode, PathKey, Ascending, Items;
    var items, p := Items(m), Items(m)[i].path;
    var a := SortPaths(m.dirs);
    ItemsAt(m, i);
    assert p in m.dirs + m.files.Keys + m.symlinks.Keys;
    forall k | 0 < k < |p|
      ensures LookItems(items[..i], p[..k]).Some? && LookItems(items[..i], p[..k]).value.DirN?
    {
      assert p[..k] in a;
      var j :| 0 <= j < |a| && a[j] == p[..k];
      assert j < |ItemPaths(m)| && ItemPaths(m)[j] == a[j];
      ItemsAt(m, j);
      if j >= i {
        assert p[..k] <= p;
        if j > i {
          SortPathsAscends(m.dirs);
          AscendingIndex(a, j, i);
        }
        assert false;
      }
      ItemFound(m, i, j);
    }
    forall e | e in items[..i]
      ensures !(p <= e.path)
    {
      var j :| 0 <= j < i && items[j] == e;
      ItemsAt(m, j);
      ItemsApart(m, i, j);
    }
  }

  /** The list and the maps hold the same things. */
  lemma ItemsLook(m: RefState, q: Path)
    requires WellFormed(m)
    ensures LookItems(Items(m), q) == RefLook(m, q)
  {
    hide LookItems, FileNode, Items;
    LookItemsFinds(Items(m), q);
    assert Items(m)[..|Items(m)|] == Items(m);
    if LookItems(Items(m), q).Some? {
      var e :| e in Items(m) && e.path == q && LookItems(Items(m), q) == Some(e.node);
      var i :| 0 <= i < |Items(m)| && Items(m)[i] == e;
      ItemsAt(m, i);
    } else if RefLook(m, q).Some? {
      assert q in ItemPaths(m);
      var i :| 0 <= i < |ItemPaths(m)| && ItemPaths(m)[i] == q;
      ItemCount(m);
      ItemsAt(m, i);
      ItemFound(m, |Items(m)|, i);
    }
  }

  lemma ItemCount(m: RefState)
    ensures |Items(m)| == |ItemPaths(m)|
  {
  }

  /** The rebuild goes through, and its tree shows at every path what the flat maps hold there. */
  lemma RebuildLook(m: RefState)
    requires WellFormed(m)
    ensures RefTree(m).Ok?
    ensures forall q | q != [] :: Look(RefTree(m).value, q) == RefLook(m, q)
  {
    hide Items, LookItems, Look, RefLook, Build, Buildable;
    ItemsBuildable(m);
    BuildLook(Items(m));
    forall q | q != []
      ensures Look(RefTree(m).value, q) == RefLook(m, q)
    {
      ItemsLook(m, q);
    }
  }
}
