/** The reference state machine: flat maps, and a root rebuilt from scratch. */
module RefModel {
  import opened Base
  import opened Paths
  import opened Canonical
  import opened State
  import opened Trees
  import opened TreeOps
  import opened Nodes
  import opened Chunks
  import opened WorkspaceSpec

  datatype RefState = RefState(
    files: map<Path, Str>,
    dirs: set<Path>,
    symlinks: map<Path, Str>,
    meta: map<Path, Meta>,
    links: map<Path, seq<Path>>,
    kv: map<KvKey, Str>)

  datatype RefOutcome = RefOutcome(m: RefState, result: Result<Unit>)

  const EMPTY_REF := RefState(map[], {}, map[], map[], map[], map[])

  // ---- the operations as functions ----

  /** Every key of `keys` bound to one value. */
  function Fill<V>(m: map<Path, V>, keys: set<Path>, v: V): map<Path, V> {
    map q | q in m.Keys + keys :: if q in keys then v else m[q]
  }

  lemma FillAdds<V>(m: map<Path, V>, keys: seq<Path>, i: nat, v: V)
    requires i < |keys|
    ensures Fill(m, Elements(keys[..i + 1]), v) == Fill(m, Elements(keys[..i]), v)[keys[i] := v]
  {
    assert keys[..i + 1] == keys[..i] + [keys[i]];
  }

  lemma FillEnds<V>(m: map<Path, V>, keys: seq<Path>, p: Path, v: V)
    ensures Fill(m, Elements(keys[..0]), v) == m
    ensures Fill(m, Elements(keys[..|keys|]), v) == Fill(m, Elements(keys), v)
    ensures Fill(m, {p}, v) == m[p := v]
  {
    assert keys[..|keys|] == keys;
  }

  lemma DropAdds<V>(m: map<Path, V>, keys: seq<Path>, i: nat)
    requires i < |keys|
    ensures m - Elements(keys[..i + 1]) == m - Elements(keys[..i]) - {keys[i]}
  {
    assert keys[..i + 1] == keys[..i] + [keys[i]];
  }

  lemma DropEnds<V>(m: map<Path, V>, keys: seq<Path>)
    ensures m - Elements(keys[..0]) == m
    ensures m - Elements(keys[..|keys|]) == m - Elements(keys)
  {
    assert keys[..|keys|] == keys;
  }

  /** Visit the proper ancestors of `p` from the top; one that is a file or symlink stops the visit. */
  function ParentsFrom(m: RefState, p: Path, i: nat): RefOutcome
    decreases |p| - i
  {
    if i >= |p| then RefOutcome(m, Ok(()))
    else if p[..i] in m.files || p[..i] in m.symlinks then RefOutcome(m, Err(NotADirectory))
    else ParentsFrom(m.(dirs := m.dirs + {p[..i]}), p, i + 1)
  }

  function EnsureParents(m: RefState, p: Path): RefOutcome {
    ParentsFrom(m, p, 1)
  }

  function GroupAt(m: RefState, p: Path): seq<Path> {
    if p in m.links then m.links[p] else []
  }

  function RefWrite(m: RefState, p: Path, bytes: Str): RefOutcome {
    if p == [] || p in m.dirs then RefOutcome(m, Err(IsADirectory))
    else
      var o := EnsureParents(m, p);
      if o.result.Err? then o
      else
        var group := GroupAt(o.m, p);
        var targets := if group == [] then {p} else Elements(group);
        RefOutcome(o.m.(files := Fill(o.m.files, targets, bytes)), Ok(()))
  }

  function RefMkdir(m: RefState, p: Path): RefOutcome {
    if p == [] then RefOutcome(m, Ok(()))
    else if p in m.files then RefOutcome(m, Err(AlreadyExists))
    else
      var o := EnsureParents(m, p);
      if o.result.Err? then o else RefOutcome(o.m.(dirs := o.m.dirs + {p}), Ok(()))
  }

  function LinksWithout(links: map<Path, seq<Path>>, p: Path): map<Path, seq<Path>> {
    if p !in links then links
    else
      var remaining := Without(links[p], p);
      if |remaining| > 1 then Fill(links - {p}, Elements(remaining), remaining)
      else links - {p} - Elements(remaining)
  }

  function RefUnlink(m: RefState, p: Path): RefOutcome {
    if p in m.dirs then RefOutcome(m, Err(IsADirectory))
    else if p !in m.files then RefOutcome(m, Err(NotFound))
    else RefOutcome(m.(files := m.files - {p}, meta := m.meta - {p}, links := LinksWithout(m.links, p)), Ok(()))
  }

  predicate HasChildren(m: RefState, p: Path) {
    exists q <- m.files.Keys + m.dirs :: q != p && p <= q
  }

  function RefRmdir(m: RefState, p: Path): RefOutcome {
    if p !in m.dirs then RefOutcome(m, Err(NotFound))
    else if HasChildren(m, p) then RefOutcome(m, Err(DirectoryNotEmpty))
    else RefOutcome(m.(dirs := m.dirs - {p}), Ok(()))
  }

  function RefSymlink(m: RefState, p: Path, target: Str): RefOutcome {
    if p in m.files || p in m.dirs then RefOutcome(m, Err(AlreadyExists))
    else
      var o := EnsureParents(m, p);
      if o.result.Err? then o else RefOutcome(o.m.(symlinks := o.m.symlinks[p := target]), Ok(()))
  }

  function JoinedGroup(m: RefState, existing: Path, extra: Path): seq<Path> {
    var group := GroupAt(m, existing);
    SortPaths(Elements(if group == [] then [existing] else group) + {extra})
  }

  function RefLink(m: RefState, existing: Path, extra: Path): RefOutcome {
    if existing !in m.files then RefOutcome(m, Err(NotFound))
    else if extra in m.files || extra in m.dirs then RefOutcome(m, Err(AlreadyExists))
    else
      var o := EnsureParents(m, extra);
      if o.result.Err? then o
      else
        var group := JoinedGroup(m, existing, extra);
        RefOutcome(o.m.(files := o.m.files[extra := m.files[existing]],
                        links := Fill(o.m.links, Elements(group), group)), Ok(()))
  }

  /** Everything listed at or beneath a path, in the order the model visits it. */
  function PathsUnder(m: RefState, from: Path): (r: seq<Path>)
    ensures forall p :: p in r <==> from <= p && (p in m.files || p in m.dirs || p in m.symlinks)
  {
    SortPaths(set p | p in m.files && from <= p)
        + (SortPaths(set p | p in m.dirs && from <= p) + SortPaths(set p | p in m.symlinks && from <= p))
  }

  function TakeKey<V>(t: map<Path, V>, source: Path, dest: Path): map<Path, V> {
    if source in t then (t - {source})[dest := t[source]] else t
  }

  /** One path moved, with whatever the model holds there. */
  function MoveOne(m: RefState, source: Path, dest: Path): RefState {
    m.(files := TakeKey(m.files, source, dest),
       dirs := if source in m.dirs then m.dirs - {source} + {dest} else m.dirs,
       symlinks := TakeKey(m.symlinks, source, dest),
       meta := TakeKey(m.meta, source, dest))
  }

  lemma StringPrefix(from: Path, p: Path)
    requires from <= p
    ensures |PathStr(from)| <= |PathStr(p)|
  {
    if from != [] {
      RebaseIsSuffix(from, from, p);
    }
  }

  /** The destination of a moved path, by string surgery. */
  function NewPath(from: Path, to: Path, p: Path): Result<Path>
    requires from <= p
  {
    StringPrefix(from, p);
    Parse(PathStr(to) + PathStr(p)[|PathStr(from)|..])
  }

  function MoveAll(m: RefState, moved: seq<Path>, from: Path, to: Path): RefOutcome
    requires forall p <- moved :: from <= p
    decreases |moved|
  {
    if moved == [] then RefOutcome(m, Ok(()))
    else
      assert moved[0] in moved && forall p | p in moved[1..] :: p in moved;
      match NewPath(from, to, moved[0])
      case Err(e) => RefOutcome(m, Err(e))
      case Ok(q) => MoveAll(MoveOne(m, moved[0], q), moved[1..], from, to)
  }

  /** `rename`: no check of what is at the destination, and link groups stay as they were. */
  function RefRename(m: RefState, from: Path, to: Path): RefOutcome {
    if from == to then RefOutcome(m, Ok(()))
    else
      var o := EnsureParents(m, to);
      if o.result.Err? then o
      else if PathsUnder(o.m, from) == [] then RefOutcome(o.m, Err(NotFound))
      else MoveAll(o.m, PathsUnder(o.m, from), from, to)
  }

  function RefKvSet(m: RefState, namespace: Str, key: Str, value: Str): RefOutcome {
    RefOutcome(m.(kv := m.kv[(namespace, key) := value]), Ok(()))
  }

  function RefKvDelete(m: RefState, namespace: Str, key: Str): RefOutcome {
    if (namespace, key) !in m.kv then RefOutcome(m, Err(NotFound))
    else RefOutcome(m.(kv := m.kv - {(namespace, key)}), Ok(()))
  }

  // ---- the rebuilt root ----

  function MetaOr(m: RefState, p: Path, fallback: Meta): Meta {
    if p in m.meta then m.meta[p] else fallback
  }

  datatype Item = Item(path: Path, node: Node)

  function FileNode(m: RefState, p: Path): Node
    requires p in m.files
  {
    FileN(MetaOr(m, p, FILE_META), |m.files[p]|, Extents(m.files[p]), GroupAt(m, p))
  }

  function DirItems(m: RefState, paths: seq<Path>): seq<Item> {
    seq(|paths|, i requires 0 <= i < |paths| => Item(paths[i], DirN(MetaOr(m, paths[i], DIR_META), EMPTY)))
  }

  function SymItems(m: RefState, paths: seq<Path>): seq<Item>
    requires forall p <- paths :: p in m.symlinks
  {
    seq(|paths|, i requires 0 <= i < |paths| =>
      Item(paths[i], SymN(MetaOr(m, paths[i], FILE_META), m.symlinks[paths[i]])))
  }

  function FileItems(m: RefState, paths: seq<Path>): seq<Item>
    requires forall p <- paths :: p in m.files
  {
    seq(|paths|, i requires 0 <= i < |paths| => Item(paths[i], FileNode(m, paths[i])))
  }

  /** Everything the model holds, in the order the rebuild visits it: directories, symlinks, files. */
  function Items(m: RefState): seq<Item> {
    DirItems(m, SortPaths(m.dirs)) + SymItems(m, SortPaths(m.symlinks.Keys)) + FileItems(m, SortPaths(m.files.Keys))
  }

  function Build(t: Tree, items: seq<Item>): Result<Tree>
    decreases |items|
  {
    if items == [] then Ok(t)
    else
      match Insert(t, items[0].path, items[0].node)
      case Err(e) => Err(e)
      case Ok(s) => Build(s, items[1..])
  }

  /** The tree the rebuild produces, if it goes through. */
  function RefTree(m: RefState): Result<Tree> {
    Build(EMPTY, Items(m))
  }

  function RefKvMap(m: RefState): KvMap {
    map k | k in m.kv :: ChunkDigest(m.kv[k])
  }

  lemma {:induction false} BuildConcat(t: Tree, a: seq<Item>, b: seq<Item>)
    ensures Build(t, a + b) == match Build(t, a) case Err(e) => Err(e) case Ok(s) => Build(s, b)
    decreases |a|
  {
    hide Insert;
    if a == [] {
      assert a + b == b;
    } else {
      assert (a + b)[0] == a[0] && (a + b)[1..] == a[1..] + b;
      if Insert(t, a[0].path, a[0].node).Ok? {
        BuildConcat(Insert(t, a[0].path, a[0].node).value, a[1..], b);
      }
    }
  }

  lemma BuildStep(t: Tree, items: seq<Item>, i: nat)
    requires i < |items|
    ensures Build(t, items[..i + 1]) ==
            match Build(t, items[..i])
            case Err(e) => Err(e)
            case Ok(s) => Insert(s, items[i].path, items[i].node)
  {
    hide Insert;
    assert items[..i + 1] == items[..i] + [items[i]];
    BuildConcat(t, items[..i], [items[i]]);
    assert [items[i]][1..] == [];
  }

  lemma BuildPrefixFails(t: Tree, items: seq<Item>, i: nat)
    requires i <= |items| && Build(t, items[..i]).Err?
    ensures Build(t, items) == Build(t, items[..i])
  {
    assert items == items[..i] + items[i..];
    BuildConcat(t, items[..i], items[i..]);
  }

  // ---- the model itself ----

  class RefModel {
    var files: map<Path, Str>
    var dirs: set<Path>
    var symlinks: map<Path, Str>
    var meta: map<Path, Meta>
    var links: map<Path, seq<Path>>
    var kv: map<KvKey, Str>

    function State(): RefState
      reads this
    {
      RefState(files, dirs, symlinks, meta, links, kv)
    }

    constructor ()
      ensures State() == EMPTY_REF
    {
      files, dirs, symlinks, meta, links, kv := map[], {}, map[], map[], map[], map[];
    }

    method MakeParents(p: Path) returns (r: Result<Unit>)
      modifies this`dirs
      ensures RefOutcome(State(), r) == EnsureParents(old(State()), p)
    {
      var i := 1;
      while i < |p|
        invariant i >= 1
        invariant ParentsFrom(State(), p, i) == EnsureParents(old(State()), p)
      {
        var ancestor := p[..i];
        if ancestor in files || ancestor in symlinks {
          return Err(NotADirectory);
        }
        dirs := dirs + {ancestor};
        i := i + 1;
      }
      r := Ok(());
    }

    method WriteFile(p: Path, bytes: Str) returns (r: Result<Unit>)
      modifies this
      ensures RefOutcome(State(), r) == RefWrite(old(State()), p, bytes)
    {
      hide EnsureParents;
      if p == [] || p in dirs {
        return Err(IsADirectory);
      }
      r := MakeParents(p);
      if r.Err? {
        return;
      }
      ghost var mid := State();
      var group := if p in links then links[p] else [];
      FillEnds(files, group, p, bytes);
      if group == [] {
        files := files[p := bytes];
      } else {
        for i := 0 to |group|
          invariant State() == mid.(files := Fill(mid.files, Elements(group[..i]), bytes))
        {
          FillAdds(mid.files, group, i, bytes);
          hide Fill, Elements;
          files := files[group[i] := bytes];
        }
      }
      r := Ok(());
    }

    method Mkdir(p: Path) returns (r: Result<Unit>)
      modifies this
      ensures RefOutcome(State(), r) == RefMkdir(old(State()), p)
    {
      hide EnsureParents;
      if p == [] {
        return Ok(());
      }
      if p in files {
        return Err(AlreadyExists);
      }
      r := MakeParents(p);
      if r.Ok? {
        dirs := dirs + {p};
        r := Ok(());
      }
    }

    method Unlink(p: Path) returns (r: Result<Unit>)
      modifies this
      ensures RefOutcome(State(), r) == RefUnlink(old(State()), p)
    {
      hide LinksWithout;
      if p in dirs {
        return Err(IsADirectory);
      }
      if p !in files {
        return Err(NotFound);
      }
      files := files - {p};
      meta := meta - {p};
      LeaveGroup(p);
      r := Ok(());
    }

    /** The file's other names share what remains of its group; a group of one is none. */
    method LeaveGroup(p: Path)
      modifies this`links
      ensures links == LinksWithout(old(links), p)
    {
      if p in links {
        var remaining := Without(links[p], p);
        links := links - {p};
        if |remaining| > 1 {
          SetGroup(remaining);
        } else {
          ClearGroup(remaining);
        }
      }
    }

    method SetGroup(group: seq<Path>)
      modifies this`links
      ensures links == Fill(old(links), Elements(group), group)
    {
      hide Fill, Elements;
      ghost var before := links;
      FillEnds(before, group, [], group);
      for i := 0 to |group|
        invariant links == Fill(before, Elements(group[..i]), group)
      {
        FillAdds(before, group, i, group);
        links := links[group[i] := group];
      }
    }

    method ClearGroup(group: seq<Path>)
      modifies this`links
      ensures links == old(links) - Elements(group)
    {
      hide Elements;
      ghost var before := links;
      DropEnds(before, group);
      for i := 0 to |group|
        invariant links == before - Elements(group[..i])
      {
        DropAdds(before, group, i);
        links := links - {group[i]};
      }
    }

    method Rmdir(p: Path) returns (r: Result<Unit>)
      modifies this
      ensures RefOutcome(State(), r) == RefRmdir(old(State()), p)
    {
      if p !in dirs {
        return Err(NotFound);
      }
      if exists q <- files.Keys + dirs :: q != p && p <= q {
        return Err(DirectoryNotEmpty);
      }
      dirs := dirs - {p};
      r := Ok(());
    }

    method Symlink(p: Path, target: Str) returns (r: Result<Unit>)
      modifies this
      ensures RefOutcome(State(), r) == RefSymlink(old(State()), p, target)
    {
      hide EnsureParents;
      if p in files || p in dirs {
        return Err(AlreadyExists);
      }
      r := MakeParents(p);
      if r.Ok? {
        symlinks := symlinks[p := target];
        r := Ok(());
      }
    }

    method Link(existing: Path, extra: Path) returns (r: Result<Unit>)
      modifies this
      ensures RefOutcome(State(), r) == RefLink(old(State()), existing, extra)
    {
      hide EnsureParents, SortPaths;
      if existing !in files {
        return Err(NotFound);
      }
      if extra in files || extra in dirs {
        return Err(AlreadyExists);
      }
      r := MakeParents(extra);
      if r.Err? {
        return;
      }
      files := files[extra := files[existing]];
      var group := if existing in links then links[existing] else [];
      if group == [] {
        group := [existing];
      }
      group := SortPaths(Elements(group) + {extra});
      ghost var mid := State();
      FillEnds(links, group, extra, group);
      for i := 0 to |group|
        invariant State() == mid.(links := Fill(mid.links, Elements(group[..i]), group))
      {
        FillAdds(mid.links, group, i, group);
        hide Fill, Elements;
        links := links[group[i] := group];
      }
      r := Ok(());
    }

    method SetMeta(p: Path, mode: u32, uid: u32, gid: u32)
      modifies this`meta
      ensures State() == old(State()).(meta := old(meta)[p := Meta(mode, uid, gid)])
    {
      meta := meta[p := Meta(mode, uid, gid)];
    }

    /** Move a path and everything beneath it, metadata included. */
    method Rename(from: Path, to: Path) returns (r: Result<Unit>)
      modifies this
      ensures RefOutcome(State(), r) == RefRename(old(State()), from, to)
    {
      hide EnsureParents, PathsUnder, NewPath, MoveOne;
      if from == to {
        return Ok(());
      }
      r := MakeParents(to);
      if r.Err? {
        return;
      }
      var moved := PathsUnder(State(), from);
      if moved == [] {
        return Err(NotFound);
      }
      ghost var start := State();
      assert moved[0..] == moved;
      assert forall j | 0 <= j < |moved| :: moved[j] in moved;
      for i := 0 to |moved|
        invariant forall j | i <= j < |moved| :: from <= moved[j]
        invariant MoveAll(State(), moved[i..], from, to) == MoveAll(start, moved, from, to)
      {
        assert moved[i..][0] == moved[i] && moved[i..][1..] == moved[i + 1..];
        var q := NewPath(from, to, moved[i]);
        if q.Err? {
          return Err(q.error);
        }
        MovePath(moved[i], q.value);
      }
      assert moved[|moved|..] == [];
      r := Ok(());
    }

    /** One round of the rename loop. */
    method MovePath(source: Path, dest: Path)
      modifies this
      ensures State() == MoveOne(old(State()), source, dest)
    {
      if source in files {
        files := (files - {source})[dest := files[source]];
      }
      if source in dirs {
        dirs := dirs - {source} + {dest};
      }
      if source in symlinks {
        symlinks := (symlinks - {source})[dest := symlinks[source]];
      }
      if source in meta {
        meta := (meta - {source})[dest := meta[source]];
      }
    }

    method KvSet(namespace: Str, key: Str, value: Str)
      modifies this`kv
      ensures RefOutcome(State(), Ok(())) == RefKvSet(old(State()), namespace, key, value)
    {
      kv := kv[(namespace, key) := value];
    }

    method KvDelete(namespace: Str, key: Str) returns (r: Result<Unit>)
      modifies this`kv
      ensures RefOutcome(State(), r) == RefKvDelete(old(State()), namespace, key)
    {
      if (namespace, key) !in kv {
        return Err(NotFound);
      }
      kv := kv - {(namespace, key)};
      r := Ok(());
    }

    /** One insertion loop of the rebuild. */
    method InsertItems(w: TreeWriter, ghost t: Tree, root: NodeId, items: seq<Item>) returns (r: Result<NodeId>)
      requires w.Valid() && root == IdOf(t) && Stored(w.source + w.newNodes, t)
      requires forall item <- items :: item.node.DirN? ==> item.node.sub == EMPTY
      modifies w`newNodes
      ensures w.Valid()
      ensures Matches(r, Build(t, items))
      ensures r.Ok? ==> Stored(w.source + w.newNodes, Build(t, items).value)
    {
      hide IdOf, NodeOf, Stored, Insert, RouteNodes, DirDigest, Loaded, Coherent;
      var id := root;
      ghost var here := t;
      assert items[..0] == [];
      for i := 0 to |items|
        invariant w.Valid() && id == IdOf(here) && Stored(w.source + w.newNodes, here)
        invariant Build(t, items[..i]) == Ok(here)
      {
        var item := items[i];
        assert item in items;
        BuildStep(t, items, i);
        StoredIsLoaded(w.source + w.newNodes, here, item.path);
        ghost var avail := w.source + w.newNodes;
        ghost var route := if Insert(here, item.path, item.node).Ok? then RouteNodes(Insert(here, item.path,
            item.node).value, item.path) else map[];
        assert avail + route == w.source + (w.newNodes + route);
        if item.node.DirN? {
          EmptyStored(avail);
        }
        if Insert(here, item.path, item.node).Ok? {
          InsertStored(avail, here, item.path, item.node);
        } else {
          BuildPrefixFails(t, items, i + 1);
        }
        var inserted := w.InsertPath(here, id, item.path, item.node, EntryOfItem(item.node));
        if inserted.Err? {
          return inserted;
        }
        id := inserted.value;
        here := Insert(here, item.path, item.node).value;
      }
      assert items[..|items|] == items;
      r := Ok(id);
    }

    /** `namespace_root`: rebuild the whole tree and return its root. */
    method NamespaceRoot() returns (r: Result<NodeId>)
      ensures Matches(r, RefTree(State()))
    {
      hide IdOf, NodeOf, Stored, Insert, DirDigest, Build, SortPaths;
      var w := new TreeWriter(map[]);
      EmptyStored(w.source + w.newNodes);
      EmptyTreeId();
      var m := State();
      var a := DirItems(m, SortPaths(m.dirs));
      var b := SymItems(m, SortPaths(m.symlinks.Keys));
      var c := FileItems(m, SortPaths(m.files.Keys));
      BuildConcat(EMPTY, a + b, c);
      BuildConcat(EMPTY, a, b);
      r := InsertItems(w, EMPTY, EMPTY_ID, a);
      if r.Ok? {
        ghost var t := Build(EMPTY, a).value;
        r := InsertItems(w, t, r.value, b);
        if r.Ok? {
          t := Build(t, b).value;
          r := InsertItems(w, t, r.value, c);
        }
      }
    }

    method RootDigestOf() returns (r: Result<RootId>)
      ensures r == match RefTree(State())
                   case Err(e) => Err(e)
                   case Ok(t) => Ok(RootDigest(IdOf(t), KvDigest(RefKvMap(State()))))
    {
      hide IdOf, RefTree;
      var ns := NamespaceRoot();
      if ns.Err? {
        return Err(ns.error);
      }
      var kvNode := ComputeKvDigest(RefKvMap(State()));
      r := Ok(RootDigest(ns.value, kvNode));
    }
  }

  /** The entry the rebuild inserts; its directories are always empty. */
  function EntryOfItem(n: Node): (e: Entry)
    ensures (n.DirN? ==> n.sub == EMPTY) ==> e == ToEntry(n)
  {
    EmptyTreeId();
    match n
    case DirN(meta, _) => Dir(meta, EMPTY_ID)
    case FileN(meta, size, extents, links) => File(meta, size, extents, links)
    case SymN(meta, target) => Sym(meta, target)
  }

  lemma EmptyStored(nodes: NodeMap)
    ensures Stored(nodes, EMPTY)
  {
  }
}
