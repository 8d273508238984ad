/** The log of a revert: what it says about each path, and when acting it out gives the target's tree. */
module Reverts {
  import opened Base
  import opened Paths
  import opened State
  import opened Trees
  import opened TreeOps
  import opened Nodes
  import opened WorkspaceSpec
  import opened Links
  import opened LinkGroups
  import opened LinkInvariant
  import opened Replay
  import opened Diff
  import opened DiffExact

  // ---- describing a reversal ----

  /** The log entry that describes one change; added and changed symlinks have none. */
  function Describe(c: Change): Option<Mutation> {
    match c
    case Added(p, e) => DescribeEntry(p, e)
    case Modified(p, _, e) => DescribeEntry(p, e)
    case Removed(p, e) => Some(if e.Dir? then RmDir(p) else Unlink(p))
  }

  function DescribeEntry(p: Path, e: Entry): Option<Mutation> {
    match e
    case File(_, size, extents, _) => Some(WriteFile(p, size, extents))
    case Dir(_, _) => Some(MkDir(p))
    case Sym(_, _) => None
  }

  function RevertLog(changes: seq<Change>): (r: seq<Mutation>)
    ensures r == [] <==> forall c <- changes :: Describe(c).None?
  {
    if changes == [] then []
    else
      var last := |changes| - 1;
      var rest := RevertLog(changes[..last]);
      assert changes == changes[..last] + [changes[last]];
      if Describe(changes[last]).Some? then rest + [Describe(changes[last]).value] else rest
  }

  /**
   * When a revert refuses as changing nothing: exactly when every difference between the two trees is a
   * symlink that the target has, metadata of a directory, or lies beneath a path that changes kind. Key-value
   * differences do not count: a revert that would change the key-value map alone is refused.
   */
  lemma RevertRefuses(s: Tree, t: Tree)
    ensures RevertLog(Changes(s, t, [])) == [] <==>
              forall q | q != [] :: match ChangeAt(s, t, q, q)
                                    case None => true
                                    case Some(Added(_, e)) => e.Sym?
                                    case Some(Modified(_, _, e)) => e.Sym?
                                    case Some(Removed(_, _)) => false
  {
    hide ChangeAt, Changes, RevertLog;
    forall q | q != []
      ensures ChangeAt(s, t, q, q).Some? ==> ChangeAt(s, t, q, q).value in Changes(s, t, [])
    {
      assert q[0..] == q;
      if ChangeAt(s, t, q, q).Some? {
        ChangeKeepsPath(s, t, q, q);
        ChangesListed(s, t, [], ChangeAt(s, t, q, q).value);
      }
    }
    forall c | c in Changes(s, t, [])
      ensures c.path != [] && ChangeAt(s, t, c.path, c.path) == Some(c)
    {
      ChangesListed(s, t, [], c);
      assert c.path[0..] == c.path;
    }
  }

  lemma ChangeKeepsPath(s: Tree, t: Tree, q: Path, p: Path)
    requires q != []
    ensures ChangeAt(s, t, q, p).Some? ==> ChangeAt(s, t, q, p).value.path == p
  {
    hide EntryAt, SwitchAbove;
  }

  // ---- what the log says, path by path ----

  /** The log entry about `q`, read off the two trees. */
  ghost function LoggedAt(s: Tree, t: Tree, q: Path): Option<Mutation>
    requires q != []
  {
    if SwitchAbove(s, t, q) then None
    else
      match Look(t, q)
      case None =>
        if Look(s, q).None? then None else Some(if Look(s, q).value.DirN? then RmDir(q) else Unlink(q))
      case Some(DirN(_, _)) => if Look(s, q).Some? && Look(s, q).value.DirN? then None else Some(MkDir(q))
      case Some(FileN(_, size, extents, _)) =>
        if Look(s, q) == Look(t, q) then None else Some(WriteFile(q, size, extents))
      case Some(SymN(_, _)) => None
  }

  lemma LoggedIsDescribed(s: Tree, t: Tree, q: Path)
    requires q != []
    ensures var c := ChangeAt(s, t, q, q);
            LoggedAt(s, t, q) == if c.None? then None else Describe(c.value)
  {
    hide IdOf, SwitchAbove, Get;
  }

  lemma {:induction false} InRevertLog(cs: seq<Change>, m: Mutation)
    ensures m in RevertLog(cs) <==> exists c :: c in cs && Describe(c) == Some(m)
  {
    hide Describe;
    if cs != [] {
      var last := |cs| - 1;
      InRevertLog(cs[..last], m);
      assert cs == cs[..last] + [cs[last]];
    }
  }

  /**
   * Over any two trees the log holds exactly the entry read off them at each path: for a file the target's size and
   * content, never the ones being undone.
   */
  lemma RevertLogSays(s: Tree, t: Tree, m: Mutation)
    ensures m in RevertLog(Changes(s, t, [])) <==> exists q :: q != [] && LoggedAt(s, t, q) == Some(m)
  {
    hide ChangeAt, Changes, RevertLog, Describe, LoggedAt;
    InRevertLog(Changes(s, t, []), m);
    forall c | c in Changes(s, t, []) && Describe(c) == Some(m)
      ensures c.path != [] && LoggedAt(s, t, c.path) == Some(m)
    {
      ChangesListed(s, t, [], c);
      assert c.path[0..] == c.path;
      LoggedIsDescribed(s, t, c.path);
    }
    forall q | q != [] && LoggedAt(s, t, q) == Some(m)
      ensures ChangeAt(s, t, q, q).Some? && ChangeAt(s, t, q, q).value in Changes(s, t, [])
      ensures Describe(ChangeAt(s, t, q, q).value) == Some(m)
    {
      LoggedIsDescribed(s, t, q);
      ChangeKeepsPath(s, t, q, q);
      assert q[0..] == q;
      ChangesListed(s, t, [], ChangeAt(s, t, q, q).value);
    }
  }

  /** The path a log entry is about. */
  function MutationPath(m: Mutation): Path {
    match m
    case MkDir(p) => p
    case WriteFile(p, _, _) => p
    case Unlink(p) => p
    case RmDir(p) => p
    case _ => []
  }

  lemma DescribeKeepsPath(c: Change)
    ensures Describe(c).Some? ==> MutationPath(Describe(c).value) == c.path
  {
  }

  lemma {:induction false} LogTopDown(cs: seq<Change>)
    requires TopDown(cs, ChangePath)
    ensures TopDown(RevertLog(cs), MutationPath)
    decreases |cs|
  {
    hide Describe, MutationPath;
    if cs != [] {
      var last := |cs| - 1;
      var before, c := cs[..last], cs[last];
      LogTopDown(before);
      if Describe(c).Some? {
        forall x | x in RevertLog(before)
          ensures !(MutationPath(Describe(c).value) <= MutationPath(x))
        {
          LoggedEarlier(cs, x);
        }
        OneTopDown(Describe(c).value);
        TopDownConcat(RevertLog(before), [Describe(c).value], MutationPath);
      }
    }
  }

  lemma OneTopDown(m: Mutation)
    ensures TopDown([m], MutationPath)
  {
  }

  lemma LoggedEarlier(cs: seq<Change>, x: Mutation)
    requires cs != [] && TopDown(cs, ChangePath) && x in RevertLog(cs[..|cs| - 1])
    requires Describe(cs[|cs| - 1]).Some?
    ensures !(MutationPath(Describe(cs[|cs| - 1]).value) <= MutationPath(x))
  {
    hide Describe, RevertLog, MutationPath;
    var before := cs[..|cs| - 1];
    InRevertLog(before, x);
    var c :| c in before && Describe(c) == Some(x);
    var j :| 0 <= j < |before| && before[j] == c;
    DescribeKeepsPath(c);
    DescribeKeepsPath(cs[|cs| - 1]);
    assert !(ChangePath(cs[|cs| - 1]) <= ChangePath(cs[j]));
  }

  /** No path is logged twice, and a directory is logged before what is in it. */
  lemma RevertLogTopDown(s: Tree, t: Tree)
    ensures TopDown(RevertLog(Changes(s, t, [])), MutationPath)
  {
    hide Changes, TopDown;
    ChangesTopDown(s, t, []);
    LogTopDown(Changes(s, t, []));
  }

  // ---- acting the log out ----

  /** No file of the tree has a second name. */
  ghost predicate Linkless(t: Tree) {
    forall q | q != [] :: Look(t, q).Some? && Look(t, q).value.FileN? ==> Look(t, q).value.links == []
  }

  /** The change takes everything beneath its path away. */
  predicate Sweeps(c: Change) {
    c.Removed? || (c.Modified? && c.before.Dir? && c.after.File?)
  }

  ghost predicate Touched(done: seq<Change>, q: Path) {
    exists c :: c in done && (c.path == q || (Sweeps(c) && c.path <= q))
  }

  /** What the log leaves at a path that it touches. */
  ghost function LeftAt(s: Tree, t: Tree, q: Path): Option<Node>
    requires q != []
  {
    match Look(t, q)
    case None => None
    case Some(DirN(_, _)) => Some(FRESH_DIR)
    case Some(FileN(_, size, extents, _)) =>
      var meta := if Look(s, q).Some? && Look(s, q).value.FileN? then Look(s, q).value.meta else FILE_META;
      Some(FileN(meta, size, extents, []))
    case Some(SymN(_, _)) => Look(s, q)
  }

  /** The state after the first changes were acted out. */
  ghost predicate Replaying(s: Tree, t: Tree, done: seq<Change>, now: Tree) {
    forall q | q != [] :: Look(now, q) == if Touched(done, q) then LeftAt(s, t, q) else Look(s, q)
  }

  /** `cs[i]` of the diff of two trees without links. */
  ghost predicate Turn(s: Tree, t: Tree, cs: seq<Change>, i: nat) {
    && cs == Changes(s, t, []) && i < |cs| && Linkless(s)
    && cs[i].path != [] && ChangeAt(s, t, cs[i].path, cs[i].path) == Some(cs[i]) && TopDown(cs, ChangePath)
  }

  lemma TurnIs(s: Tree, t: Tree, cs: seq<Change>, i: nat)
    requires cs == Changes(s, t, []) && i < |cs| && Linkless(s)
    ensures Turn(s, t, cs, i)
  {
    hide Changes, TopDown, ChangeAt;
    ChangesTopDown(s, t, []);
    assert cs[i] in cs;
    ChangesListed(s, t, [], cs[i]);
    assert cs[i].path[0..] == cs[i].path;
  }

  /** Only something swept from above touches a path, or anything beneath it, before its turn. */
  lemma TouchedFromAbove(s: Tree, t: Tree, cs: seq<Change>, i: nat, q: Path) returns (c: Change)
    requires Turn(s, t, cs, i) && cs[i].path <= q && Touched(cs[..i], q)
    ensures c in cs && c in cs[..i] && Sweeps(c) && c.path <= cs[i].path && c.path != cs[i].path
  {
    hide Changes, ChangeAt, Linkless;
    c :| c in cs[..i] && (c.path == q || (Sweeps(c) && c.path <= q));
    var j :| 0 <= j < i && cs[j] == c;
    assert !(ChangePath(cs[i]) <= ChangePath(cs[j]));
    OneAbove(c.path, cs[i].path, q);
  }

  /** Of two paths above a third one lies above the other. */
  lemma OneAbove(a: Path, b: Path, q: Path)
    requires a <= q && b <= q && !(b <= a)
    ensures a <= b && a != b
  {
    var k := if |a| < |b| then |a| else |b|;
    assert a[..k] == q[..k] == b[..k];
  }

  /** A swept path holds no directory afterwards. */
  lemma SweptGone(s: Tree, t: Tree, cs: seq<Change>, c: Change, p: Path)
    requires cs == Changes(s, t, []) && c in cs && Sweeps(c) && c.path <= p && c.path != p
    ensures p != [] && Look(t, p).None?
  {
    hide Changes, Look;
    ChangesListed(s, t, [], c);
    assert c.path[0..] == c.path && c.path != [];
    assert |c.path| == |p| ==> c.path == p;
    LookLeaf(t, c.path);
    NothingBeneath(t, c.path, p);
  }

  /** At its turn a path that the target has, and everything beneath it, is as in the first tree. */
  lemma FreshTurn(s: Tree, t: Tree, cs: seq<Change>, i: nat, q: Path)
    requires Turn(s, t, cs, i) && cs[i].path != [] && cs[i].path <= q && Look(t, cs[i].path).Some?
    ensures !Touched(cs[..i], q)
  {
    hide Changes, Look, Turn, Touched, Sweeps;
    TurnParts(s, t, cs, i);
    if Touched(cs[..i], q) {
      var c := TouchedFromAbove(s, t, cs, i, q);
      SweptGone(s, t, cs, c, cs[i].path);
    }
  }

  lemma TurnParts(s: Tree, t: Tree, cs: seq<Change>, i: nat)
    requires Turn(s, t, cs, i)
    ensures cs == Changes(s, t, []) && i < |cs| && cs[i].path != [] && cs[i] in cs
    ensures ChangeAt(s, t, cs[i].path, cs[i].path) == Some(cs[i]) && TopDown(cs, ChangePath)
  {
  }

  /** The parents of a path that the target has are directories by its turn. */
  lemma ParentsStand(s: Tree, t: Tree, cs: seq<Change>, i: nat, now: Tree, k: nat)
    requires Turn(s, t, cs, i) && Replaying(s, t, cs[..i], now) && Look(t, cs[i].path).Some? && 0 < k < |cs[i].path|
    ensures Look(now, cs[i].path[..k]).Some? && Look(now, cs[i].path[..k]).value.DirN?
  {
    hide Changes, Look, Turn, Touched, Get, Linkless, TopDown;
    TurnParts(s, t, cs, i);
    var p := cs[i].path;
    var a := p[..k];
    LookLeaf(t, p);
    AncestorsAreDirs(t, p, k);
    LookLeaf(t, a);
    LookLeaf(s, a);
    assert a != [] && a <= p && a != p;
    assert !SwitchAbove(s, t, p);
    assert !SwitchAt(s, t, p[..k]);
    assert !SwitchAbove(s, t, a) by {
      NoSwitchHigher(s, t, p, k);
    }
    if Touched(cs[..i], a) {
    } else if Look(s, a).None? {
      ParentAdded(s, t, cs, i, a);
    }
  }

  lemma NoSwitchHigher(s: Tree, t: Tree, p: Path, k: nat)
    requires !SwitchAbove(s, t, p) && k <= |p|
    ensures !SwitchAbove(s, t, p[..k])
  {
    hide SwitchAt;
    forall i | 0 < i < k
      ensures !SwitchAt(s, t, p[..k][..i])
    {
      assert p[..k][..i] == p[..i];
    }
  }

  /** A missing parent is added first. */
  lemma ParentAdded(s: Tree, t: Tree, cs: seq<Change>, i: nat, a: Path)
    requires Turn(s, t, cs, i) && a != [] && a <= cs[i].path && a != cs[i].path && !SwitchAbove(s, t, a)
    requires Look(s, a).None? && Look(t, a).Some?
    ensures Touched(cs[..i], a)
  {
    hide Changes, Turn, SwitchAbove, Get;
    TurnParts(s, t, cs, i);
    LookLeaf(t, a);
    LookLeaf(s, a);
    var c := ChangeAt(s, t, a, a).value;
    assert a[0..] == a;
    ChangesListed(s, t, [], c);
    var j :| 0 <= j < |cs| && cs[j] == c;
    NotBelow(cs, i, j);
    assert cs[..i][j] == c;
  }

  lemma NotBelow(cs: seq<Change>, i: nat, j: nat)
    requires TopDown(cs, ChangePath) && i < |cs| && j < |cs| && cs[j].path <= cs[i].path
    ensures j <= i
  {
    assert i < j ==> !(ChangePath(cs[j]) <= ChangePath(cs[i]));
  }

  lemma TouchedNext(cs: seq<Change>, i: nat, q: Path)
    requires i < |cs|
    ensures Touched(cs[..i + 1], q)
            <==> Touched(cs[..i], q) || cs[i].path == q || (Sweeps(cs[i]) && cs[i].path <= q)
  {
    hide Sweeps;
    assert cs[..i + 1] == cs[..i] + [cs[i]];
  }

  /** What lies beneath the path of a change that puts something there: nothing, whatever the change takes away. */
  ghost predicate Bare(s: Tree, t: Tree, c: Change) {
    forall q | q != [] && c.path <= q && c.path != q ::
      if Sweeps(c) then LeftAt(s, t, q) == None else Look(s, q) == None
  }

  /** A node without anything beneath it. */
  predicate Single(n: Node) {
    n.DirN? ==> n == FRESH_DIR
  }

  /** A change that puts one node at its path. */
  lemma PutStep(s: Tree, t: Tree, cs: seq<Change>, i: nat, now: Tree, n: Node)
    requires Turn(s, t, cs, i) && cs[i].path != [] && Replaying(s, t, cs[..i], now) && Look(t, cs[i].path).Some?
    requires Single(n) && LeftAt(s, t, cs[i].path) == Some(n) && Bare(s, t, cs[i])
    ensures Insert(now, cs[i].path, n).Ok?
    ensures Replaying(s, t, cs[..i + 1], Insert(now, cs[i].path, n).value)
  {
    var p := cs[i].path;
    hide Changes, Look, Turn, Touched, Sweeps, Get, Insert, LeftAt, Replaying, Bare, Insertable;
    forall k | 0 < k < |p|
      ensures Look(now, p[..k]).Some? && Look(now, p[..k]).value.DirN?
    {
      ParentsStand(s, t, cs, i, now, k);
    }
    InsertableByLook(now, p);
    InsertSucceeds(now, p, n);
    forall q | q != []
      ensures Look(Insert(now, p, n).value, q)
           == if Touched(cs[..i + 1], q) then LeftAt(s, t, q) else Look(s, q)
    {
      PutStepAt(s, t, cs, i, now, n, q);
    }
    ShowsReplaying(s, t, cs[..i + 1], Insert(now, p, n).value);
  }

  lemma PutStepAt(s: Tree, t: Tree, cs: seq<Change>, i: nat, now: Tree, n: Node, q: Path)
    requires Turn(s, t, cs, i) && cs[i].path != [] && Replaying(s, t, cs[..i], now) && Look(t, cs[i].path).Some?
    requires Single(n) && LeftAt(s, t, cs[i].path) == Some(n) && Bare(s, t, cs[i])
    requires Insert(now, cs[i].path, n).Ok? && q != []
    requires forall k | 0 < k < |cs[i].path| :: Look(now, cs[i].path[..k]).Some?
    ensures Look(Insert(now, cs[i].path, n).value, q)
         == if Touched(cs[..i + 1], q) then LeftAt(s, t, q) else Look(s, q)
  {
    var p := cs[i].path;
    hide Changes, Look, Turn, Touched, Sweeps, Get, Insert, LeftAt, Replaying, Bare, Single;
    InsertLook(now, p, n, q);
    TouchedNext(cs, i, q);
    ReplayingAt(s, t, cs[..i], now, q);
    if p <= q {
      FreshTurn(s, t, cs, i, q);
      assert q[|p|..] == [] <==> p == q;
      SingleLook(n, q[|p|..]);
      BareAt(s, t, cs[i], q);
    } else if q <= p {
      assert q == p[..|q|];
    }
  }

  lemma SingleLook(n: Node, x: Path)
    requires Single(n)
    ensures LookIn(n, x) == if x == [] then Some(n) else None
  {
    hide Look;
    if x != [] {
      LookEmpty(x);
    }
  }

  lemma BareAt(s: Tree, t: Tree, c: Change, q: Path)
    requires Bare(s, t, c) && q != []
    ensures c.path <= q && c.path != q ==> if Sweeps(c) then LeftAt(s, t, q) == None else Look(s, q) == None
  {
    hide Look, LeftAt, Sweeps;
  }

  /** A removal's turn: the path goes with everything beneath it, unless something above it went before. */
  lemma TakeStep(s: Tree, t: Tree, cs: seq<Change>, i: nat, now: Tree)
    requires Turn(s, t, cs, i) && cs[i].path != [] && cs[i].Removed? && Replaying(s, t, cs[..i], now)
    ensures var r := Remove(now, cs[i].path);
            && (r.Ok? <==> Look(now, cs[i].path).Some?)
            && (Look(now, cs[i].path).Some? ==> Look(now, cs[i].path) == Look(s, cs[i].path))
            && Replaying(s, t, cs[..i + 1], if r.Ok? then r.value else now)
  {
    var p := cs[i].path;
    hide Changes, Look, Turn, Touched, Get, Remove, LeftAt, Replaying;
    TurnParts(s, t, cs, i);
    RemovedGone(s, t, cs[i]);
    RemoveSucceeds(now, p);
    LookLeaf(now, p);
    var r := Remove(now, p);
    forall q | q != []
      ensures Look(if r.Ok? then r.value else now, q)
           == if Touched(cs[..i + 1], q) then LeftAt(s, t, q) else Look(s, q)
      ensures q == p && Look(now, p).Some? ==> Look(now, p) == Look(s, p)
    {
      TakeStepAt(s, t, cs, i, now, q);
    }
    assert Replaying(s, t, cs[..i + 1], if r.Ok? then r.value else now) by {
      ShowsReplaying(s, t, cs[..i + 1], if r.Ok? then r.value else now);
    }
  }

  lemma ShowsReplaying(s: Tree, t: Tree, done: seq<Change>, now: Tree)
    requires forall q | q != [] :: Look(now, q) == if Touched(done, q) then LeftAt(s, t, q) else Look(s, q)
    ensures Replaying(s, t, done, now)
  {
    hide Look, LeftAt, Touched;
  }

  lemma ReplayingAt(s: Tree, t: Tree, done: seq<Change>, now: Tree, q: Path)
    requires Replaying(s, t, done, now) && q != []
    ensures Look(now, q) == if Touched(done, q) then LeftAt(s, t, q) else Look(s, q)
  {
    hide Look, LeftAt, Touched;
  }

  lemma LeftOfNothing(s: Tree, t: Tree, p: Path, q: Path)
    requires p != [] && p <= q && Get(t, p).None?
    ensures LeftAt(s, t, q) == None
  {
    hide Look;
    NothingLeft(t, p, q);
  }

  lemma TakeStepAt(s: Tree, t: Tree, cs: seq<Change>, i: nat, now: Tree, q: Path)
    requires i < |cs| && cs[i].path != [] && cs[i].Removed? && Replaying(s, t, cs[..i], now) && q != []
    requires Get(t, cs[i].path).None?
    ensures var r := Remove(now, cs[i].path);
            && Look(if r.Ok? then r.value else now, q)
               == (if Touched(cs[..i + 1], q) then LeftAt(s, t, q) else Look(s, q))
            && (q == cs[i].path && Look(now, q).Some? ==> Look(now, q) == Look(s, q))
  {
    var p := cs[i].path;
    hide Look, Touched, Get, Remove, LeftAt, Replaying;
    var r := Remove(now, p);
    TouchedNext(cs, i, q);
    ReplayingAt(s, t, cs[..i], now, q);
    if r.Ok? {
      RemoveLook(now, p, q);
    }
    if p <= q {
      LeftOfNothing(s, t, p, q);
      if r.Err? {
        RemoveSucceeds(now, p);
        NothingLeft(now, p, q);
      }
    }
  }

  lemma NothingLeft(t: Tree, p: Path, q: Path)
    requires p != [] && p <= q && Get(t, p).None?
    ensures Look(t, q) == None
  {
    hide Get;
    LookLeaf(t, p);
    if p != q {
      assert |p| == |q| ==> p == q;
      NothingBeneath(t, p, q);
    }
  }

  lemma RemovedGone(s: Tree, t: Tree, c: Change)
    requires c.Removed? && c.path != [] && ChangeAt(s, t, c.path, c.path) == Some(c)
    ensures Look(t, c.path).None? && Get(t, c.path).None? && Look(s, c.path).Some?
  {
    hide SwitchAbove, Get;
    LookLeaf(t, c.path);
    LookLeaf(s, c.path);
  }

  lemma EntryShape(t: Tree, p: Path)
    requires p != []
    ensures EntryAt(t, p).Some? <==> Look(t, p).Some?
    ensures Look(t, p).Some? ==>
              match Look(t, p).value
              case DirN(_, _) => EntryAt(t, p).value.Dir?
              case FileN(meta, size, extents, links) => EntryAt(t, p).value == File(meta, size, extents, links)
              case SymN(meta, target) => EntryAt(t, p).value == Sym(meta, target)
  {
    hide IdOf;
  }

  /** A change whose log entry puts one node at its path puts what is left there, with nothing beneath. */
  lemma PutsOne(s: Tree, t: Tree, cs: seq<Change>, i: nat)
    requires Turn(s, t, cs, i) && cs[i].path != [] && !cs[i].Removed? && Describe(cs[i]).Some?
    ensures var p := cs[i].path;
            && Look(t, p).Some? && LeftAt(s, t, p).Some? && Single(LeftAt(s, t, p).value) && Bare(s, t, cs[i])
            && (Look(s, p).Some? && Look(s, p).value.DirN? ==> Sweeps(cs[i]))
  {
    var c, p := cs[i], cs[i].path;
    EntryShape(s, p);
    EntryShape(t, p);
    LookLeaf(s, p);
    LookLeaf(t, p);
    hide Changes, TopDown, SwitchAbove, Linkless, Get, EntryAt, Look;
    forall q | q != [] && p <= q && p != q
      ensures if Sweeps(c) then LeftAt(s, t, q) == None else Look(s, q) == None
    {
      assert |p| == |q| ==> p == q;
      if Sweeps(c) {
        NothingBeneath(t, p, q);
      } else {
        NothingBeneath(s, p, q);
      }
    }
  }

  /** What the turn's change logs, from what the target shows at its path. */
  lemma TurnLogs(s: Tree, t: Tree, cs: seq<Change>, i: nat)
    requires Turn(s, t, cs, i) && cs[i].path != []
    ensures cs[i].Removed? <==> Look(t, cs[i].path).None?
    ensures match Look(t, cs[i].path)
            case None => Describe(cs[i]) in {Some(RmDir(cs[i].path)), Some(Unlink(cs[i].path))}
            case Some(DirN(_, _)) => Describe(cs[i]) == Some(MkDir(cs[i].path))
            case Some(FileN(_, size, extents, _)) => Describe(cs[i]) == Some(WriteFile(cs[i].path, size, extents))
            case Some(SymN(_, _)) => Describe(cs[i]).None?
    ensures Describe(cs[i]) == Some(Unlink(cs[i].path)) ==>
              Look(s, cs[i].path).Some? && !Look(s, cs[i].path).value.DirN?
  {
    var p := cs[i].path;
    EntryShape(s, p);
    EntryShape(t, p);
    hide Changes, TopDown, SwitchAbove, Linkless, Get, EntryAt, Look;
  }

  lemma LinklessAt(s: Tree, t: Tree, cs: seq<Change>, i: nat)
    requires Turn(s, t, cs, i) && cs[i].path != []
    ensures Look(s, cs[i].path).Some? ==> LinksOf(Look(s, cs[i].path).value) == []
  {
    hide Changes, TopDown, ChangeAt, Look;
  }

  /** A logged write onto something without links. */
  lemma WriteReplayed(l: Logical, p: Path, size: nat, content: seq<Extent>)
    requires p != [] && (Look(l.tree, p).Some? ==> LinksOf(Look(l.tree, p).value) == [])
    ensures var there := Look(l.tree, p);
            var meta := if there.Some? && there.value.FileN? then there.value.meta else FILE_META;
            Replayed(l, WriteFile(p, size, content)) == Placed(l, Insert(l.tree, p, FileN(meta, size, content, [])))
  {
    LookLeaf(l.tree, p);
    OneInsert(l.tree, p, LoggedFile(NodeAt(l.tree, p), size, content));
    hide Insert, InsertAll;
    assert NodeAt(l.tree, p).Some? ==> LinksOf(NodeAt(l.tree, p).value) == [];
  }

  /** A logged removal of something without links. */
  lemma UnlinkReplayed(l: Logical, p: Path)
    requires p != [] && (Look(l.tree, p).Some? ==> LinksOf(Look(l.tree, p).value) == [])
    requires Remove(l.tree, p).Ok? ==> Look(l.tree, p).Some?
    ensures Replayed(l, Unlink(p)) == Placed(l, Remove(l.tree, p))
  {
    LookLeaf(l.tree, p);
    WithoutAbsent([], p);
    hide Remove, Without, InsertAll;
    assert NodeAt(l.tree, p).Some? ==> LinksOf(NodeAt(l.tree, p).value) == [];
  }

  /** The log entry of a change that puts something at its path, acted out. */
  lemma PutsWhatIsLeft(s: Tree, t: Tree, cs: seq<Change>, i: nat, l: Logical)
    requires Turn(s, t, cs, i) && cs[i].path != [] && !cs[i].Removed? && Describe(cs[i]).Some?
    requires Look(l.tree, cs[i].path) == Look(s, cs[i].path) && LeftAt(s, t, cs[i].path).Some?
    ensures Replayed(l, Describe(cs[i]).value)
         == Placed(l, Insert(l.tree, cs[i].path, LeftAt(s, t, cs[i].path).value))
  {
    var p := cs[i].path;
    TurnLogs(s, t, cs, i);
    LinklessAt(s, t, cs, i);
    hide Turn, Insert, Look, Describe;
    if Look(t, p).value.FileN? {
      hide Replayed;
      WriteReplayed(l, p, Look(t, p).value.size, Look(t, p).value.extents);
    }
  }

  lemma TakesWhatWasThere(s: Tree, t: Tree, cs: seq<Change>, i: nat, l: Logical)
    requires Turn(s, t, cs, i) && cs[i].path != [] && cs[i].Removed?
    requires Look(l.tree, cs[i].path).Some? ==> Look(l.tree, cs[i].path) == Look(s, cs[i].path)
    requires Remove(l.tree, cs[i].path).Ok? <==> Look(l.tree, cs[i].path).Some?
    ensures Describe(cs[i]).Some?
    ensures Replayed(l, Describe(cs[i]).value) == Placed(l, Remove(l.tree, cs[i].path))
  {
    var p := cs[i].path;
    TurnLogs(s, t, cs, i);
    LinklessAt(s, t, cs, i);
    hide Turn, Remove, Look, Describe;
    if Describe(cs[i]) == Some(Unlink(p)) {
      hide Replayed;
      UnlinkReplayed(l, p);
    }
  }

  /** A change that is not logged leaves everything. */
  lemma SkipStep(s: Tree, t: Tree, cs: seq<Change>, i: nat, now: Tree)
    requires Turn(s, t, cs, i) && cs[i].path != [] && Describe(cs[i]).None? && Replaying(s, t, cs[..i], now)
    ensures Replaying(s, t, cs[..i + 1], now)
  {
    var c, p := cs[i], cs[i].path;
    TurnLogs(s, t, cs, i);
    hide Turn, Changes, Look, Touched;
    FreshTurn(s, t, cs, i, p);
    SkippedStays(c);
    assert LeftAt(s, t, p) == Look(s, p);
    hide LeftAt, Describe, Sweeps, Replaying;
    forall q | q != []
      ensures Look(now, q) == if Touched(cs[..i + 1], q) then LeftAt(s, t, q) else Look(s, q)
    {
      TouchedNext(cs, i, q);
      ReplayingAt(s, t, cs[..i], now, q);
    }
    ShowsReplaying(s, t, cs[..i + 1], now);
  }

  lemma SkippedStays(c: Change)
    requires Describe(c).None?
    ensures !Sweeps(c)
  {
  }

  /** One turn: acting out what the change logged, if anything. */
  lemma TurnReplayed(s: Tree, t: Tree, cs: seq<Change>, i: nat, l: Logical)
    requires Turn(s, t, cs, i) && cs[i].path != [] && Replaying(s, t, cs[..i], l.tree)
    ensures var d := Describe(cs[i]);
            var next := if d.Some? then Replayed(l, d.value) else l;
            next.kv == l.kv && Replaying(s, t, cs[..i + 1], next.tree)
  {
    var c, p := cs[i], cs[i].path;
    hide Turn, Replaying, Changes, Insert, Remove, Look, LeftAt, Replayed, Describe, Bare, Get;
    if c.Removed? {
      TakeStep(s, t, cs, i, l.tree);
      TakesWhatWasThere(s, t, cs, i, l);
    } else if Describe(c).None? {
      SkipStep(s, t, cs, i, l.tree);
    } else {
      PutsOne(s, t, cs, i);
      StillFirst(s, t, cs, i, l.tree);
      PutsWhatIsLeft(s, t, cs, i, l);
      PutStep(s, t, cs, i, l.tree, LeftAt(s, t, p).value);
    }
  }

  lemma StillFirst(s: Tree, t: Tree, cs: seq<Change>, i: nat, now: Tree)
    requires Turn(s, t, cs, i) && cs[i].path != [] && Replaying(s, t, cs[..i], now) && Look(t, cs[i].path).Some?
    ensures Look(now, cs[i].path) == Look(s, cs[i].path)
  {
    var p := cs[i].path;
    hide Turn, Changes, Look, LeftAt, Touched;
    FreshTurn(s, t, cs, i, p);
  }

  lemma {:induction false} LogReplays(s: Tree, t: Tree, cs: seq<Change>, i: nat, kv: KvMap)
    requires cs == Changes(s, t, []) && i <= |cs| && Linkless(s)
    ensures var l := ReplayAll(Logical(s, kv), RevertLog(cs[..i]));
            l.kv == kv && Replaying(s, t, cs[..i], l.tree)
    decreases i
  {
    hide Changes, Replayed, Describe, Replaying, Turn;
    if i == 0 {
      NothingReplayed(s, t, cs);
    } else {
      LogReplays(s, t, cs, i - 1, kv);
      TurnIs(s, t, cs, i - 1);
      TurnParts(s, t, cs, i - 1);
      var l := ReplayAll(Logical(s, kv), RevertLog(cs[..i - 1]));
      TurnReplayed(s, t, cs, i - 1, l);
      var c := cs[i - 1];
      assert cs[..i][..i - 1] == cs[..i - 1] && cs[..i][i - 1] == c;
      if Describe(c).Some? {
        assert RevertLog(cs[..i]) == RevertLog(cs[..i - 1]) + [Describe(c).value];
        ReplayConcat(Logical(s, kv), RevertLog(cs[..i - 1]), [Describe(c).value]);
        ReplayOne(l, Describe(c).value);
      }
    }
  }

  lemma ReplayOne(l: Logical, m: Mutation)
    ensures ReplayAll(l, [m]) == Replayed(l, m)
  {
    hide Replayed;
    assert [m][1..] == [];
  }

  lemma NothingReplayed(s: Tree, t: Tree, cs: seq<Change>)
    ensures Replaying(s, t, cs[..0], s)
  {
    hide Look, LeftAt;
    assert cs[..0] == [];
  }

  /**
   * The target's entry at `q` is one that the log can bring back: it is there already, or it is a plain directory in
   * place of none, or a file under the metadata of the file it replaces, or under the default.
   */
  ghost predicate Restored(s: Tree, t: Tree, q: Path)
    requires q != []
  {
    match Look(t, q)
    case None => true
    case Some(n) =>
      && !SwitchAbove(s, t, q)
      && (|| Look(s, q) == Some(n)
          || (n == FRESH_DIR && !(Look(s, q).Some? && Look(s, q).value.DirN?))
          || (n.FileN? && n.meta == if Look(s, q).Some? && Look(s, q).value.FileN? then Look(s, q).value.meta
                                    else FILE_META))
  }

  /** The log of a revert between two such trees tells the whole story. */
  ghost predicate Reversible(s: Tree, t: Tree) {
    Linkless(s) && Linkless(t) && forall q | q != [] :: Restored(s, t, q)
  }

  /** A path the target has is touched by its own change only. */
  lemma TouchedByOwn(s: Tree, t: Tree, q: Path)
    requires q != [] && Look(t, q).Some?
    ensures Touched(Changes(s, t, []), q) <==> ChangeAt(s, t, q, q).Some?
  {
    var cs := Changes(s, t, []);
    hide Changes, ChangeAt, Look;
    assert q[0..] == q;
    if ChangeAt(s, t, q, q).Some? {
      ChangeKeepsPath(s, t, q, q);
      ChangesListed(s, t, [], ChangeAt(s, t, q, q).value);
    }
    if Touched(cs, q) {
      var c :| c in cs && (c.path == q || (Sweeps(c) && c.path <= q));
      ChangesListed(s, t, [], c);
      assert c.path[0..] == c.path;
      if c.path != q {
        SweptGone(s, t, cs, c, q);
      }
    }
  }

  /** A change at a path is listed there, and takes along what it sweeps. */
  lemma TouchedBeneath(s: Tree, t: Tree, p: Path, q: Path)
    requires p != [] && p <= q && ChangeAt(s, t, p, p).Some?
    requires p == q || Sweeps(ChangeAt(s, t, p, p).value)
    ensures Touched(Changes(s, t, []), q)
  {
    hide Changes, ChangeAt;
    var c := ChangeAt(s, t, p, p).value;
    ChangeKeepsPath(s, t, p, p);
    assert p[0..] == p;
    ChangesListed(s, t, [], c);
  }

  /** Where the log ends up at one path, between reversible trees. */
  lemma EndsRight(s: Tree, t: Tree, now: Tree, q: Path)
    requires Reversible(s, t) && Replaying(s, t, Changes(s, t, []), now) && q != []
    ensures Look(now, q) == Look(t, q)
  {
    EntryShape(s, q);
    EntryShape(t, q);
    LookLeaf(s, q);
    LookLeaf(t, q);
    hide Changes, Touched, Look, Get, EntryAt, SwitchAbove;
    assert Restored(s, t, q);
    if Look(t, q).Some? {
      TouchedByOwn(s, t, q);
      assert Look(t, q).value.FileN? ==> Look(t, q).value.links == [];
      if ChangeAt(s, t, q, q).None? {
        SameEntries(s, t, q);
      }
    } else if Look(s, q).Some? && !Touched(Changes(s, t, []), q) {
      NeverLost(s, t, q);
    }
  }

  /** Paths with one entry show the same, directories aside. */
  lemma SameEntries(s: Tree, t: Tree, q: Path)
    requires q != [] && ChangeAt(s, t, q, q).None? && !SwitchAbove(s, t, q) && Look(t, q).Some?
    ensures Look(s, q).Some? && (Look(s, q).value.DirN? <==> Look(t, q).value.DirN?)
    ensures !Look(t, q).value.DirN? ==> Look(s, q) == Look(t, q)
  {
    EntryShape(s, q);
    EntryShape(t, q);
    hide Look, SwitchAbove, EntryAt;
  }

  /** A path that only the first tree has is touched. */
  lemma NeverLost(s: Tree, t: Tree, q: Path)
    requires Reversible(s, t) && q != [] && Look(s, q).Some? && Look(t, q).None?
    ensures Touched(Changes(s, t, []), q)
  {
    EntryShape(s, q);
    EntryShape(t, q);
    hide Changes, Touched, Look, EntryAt, Get;
    if SwitchAbove(s, t, q) {
      var i :| 0 < i < |q| && SwitchAt(s, t, q[..i]);
      var p := q[..i];
      SweepingSwitch(s, t, p, q);
      TouchedBeneath(s, t, p, q);
    } else {
      TouchedBeneath(s, t, q, q);
    }
  }

  lemma SweepingSwitch(s: Tree, t: Tree, p: Path, q: Path)
    requires Reversible(s, t) && p != [] && SwitchAt(s, t, p) && p <= q && p != q && Look(s, q).Some?
    ensures ChangeAt(s, t, p, p).Some? && Sweeps(ChangeAt(s, t, p, p).value)
  {
    EntryShape(s, p);
    EntryShape(t, p);
    LookLeaf(s, p);
    LookLeaf(t, p);
    hide Look, EntryAt, Get, SwitchAbove;
    assert |p| == |q| ==> p == q;
    if !IsDirAt(s, p) {
      NothingBeneath(s, p, q);
    }
    assert Restored(s, t, p);
  }

  /** Where the log ends up at the target's tree, every entry of it is one that a log can bring back. */
  lemma EndsRestored(s: Tree, t: Tree, q: Path)
    requires Linkless(t) && Replaying(s, t, Changes(s, t, []), t) && q != []
    ensures Restored(s, t, q)
  {
    EntryShape(s, q);
    EntryShape(t, q);
    LookLeaf(s, q);
    LookLeaf(t, q);
    hide Changes, Touched, Look, Get, EntryAt;
    if Look(t, q).Some? {
      TouchedByOwn(s, t, q);
      if SwitchAbove(s, t, q) {
        var i :| 0 < i < |q| && SwitchAt(s, t, q[..i]);
        SwitchHides(s, t, q, i);
      }
    }
  }

  /** Of a path under a switch only one side shows anything. */
  lemma SwitchHides(s: Tree, t: Tree, q: Path, i: nat)
    requires 0 < i < |q| && SwitchAt(s, t, q[..i])
    ensures Look(s, q).None? || Look(t, q).None?
  {
    hide Look, Get;
    var p := q[..i];
    assert p != [] && p <= q;
    if !IsDirAt(s, p) {
      NothingBeneath(s, p, q);
    } else {
      NothingBeneath(t, p, q);
    }
  }

  /**
   * Acting out the log of a revert on the tree it starts from gives the target's tree, between trees without links,
   * if and only if every entry of the target is one that the log can bring back. The key-value map is not described.
   */
  lemma RevertReplays(s: Tree, t: Tree, kv: KvMap)
    requires Linkless(s) && Linkless(t)
    ensures var l := ReplayAll(Logical(s, kv), RevertLog(Changes(s, t, [])));
            l.kv == kv && (l.tree == t <==> Reversible(s, t))
  {
    hide Changes, RevertLog, Look, ReplayAll, Restored, Linkless;
    var cs := Changes(s, t, []);
    assert cs[..|cs|] == cs;
    LogReplays(s, t, cs, |cs|, kv);
    var now := ReplayAll(Logical(s, kv), RevertLog(cs)).tree;
    if Reversible(s, t) {
      forall q | q != []
        ensures Look(now, q) == Look(t, q)
      {
        EndsRight(s, t, now, q);
      }
      Extensional(now, t);
    }
    if now == t {
      forall q | q != []
        ensures Restored(s, t, q)
      {
        EndsRestored(s, t, q);
      }
    }
  }
}
