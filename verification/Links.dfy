/** Batches of insertions, and the hard-link groups they keep consistent. */
module Links {
  import opened Base
  import opened Paths
  import opened Trees
  import opened TreeOps
  import opened WorkspaceSpec

  // ---- inserting one leaf at several paths ----

  /** No path of the list lies beneath another. */
  ghost predicate Unnested(paths: seq<Path>) {
    forall p, q | p in paths && q in paths && p <= q :: p == q
  }

  ghost predicate AllInsertable(t: Tree, paths: seq<Path>) {
    forall p <- paths :: Insertable(t, p)
  }

  ghost predicate Above(paths: seq<Path>, q: Path) {
    exists p :: p in paths && q <= p
  }

  ghost predicate Beneath(paths: seq<Path>, q: Path) {
    exists p :: p in paths && p <= q
  }

  /** What a lookup finds after the leaf `n` was inserted at every path. */
  ghost function LookAfterAll(t: Tree, paths: seq<Path>, n: Node, q: Path): Option<Node>
    requires q != []
  {
    if q in paths then Some(n)
    else if Beneath(paths, q) then None
    else if Above(paths, q) && Look(t, q) == None then Some(FRESH_DIR)
    else Look(t, q)
  }

  /** A path of the list lies strictly above `q`. */
  ghost predicate Swept(paths: seq<Path>, q: Path) {
    exists p :: p in paths && p <= q && p != q
  }

  /** The same for paths in any arrangement: a leaf put above another path takes that path away. */
  ghost function LookAfterAny(t: Tree, paths: seq<Path>, n: Node, q: Path): Option<Node>
    requires q != []
  {
    if Swept(paths, q) then None else LookAfterAll(t, paths, n, q)
  }

  lemma LeafLookIn(n: Node, q: Path)
    requires !n.DirN?
    ensures LookIn(n, q) == if q == [] then Some(n) else None
  {
  }

  /** Insertability reads off lookups. */
  lemma InsertableByLook(t: Tree, p: Path)
    requires p != []
    ensures Insertable(t, p) <==> forall i | 0 < i < |p| :: Look(t, p[..i]) == None || Look(t, p[..i]).value.DirN?
  {
    forall i | 0 < i < |p|
      ensures Look(t, p[..i]) == None <==> Get(t, p[..i]) == None
      ensures Get(t, p[..i]).Some? ==> (Look(t, p[..i]).value.DirN? <==> Get(t, p[..i]).value.DirN?)
    {
    }
  }

  /** An insertion elsewhere keeps an unrelated path insertable. */
  lemma StaysInsertable(t: Tree, p: Path, n: Node, q: Path)
    requires Insert(t, p, n).Ok? && !n.DirN? && q != [] && Insertable(t, q) && (p <= q ==> p == q)
    ensures Insertable(Insert(t, p, n).value, q)
  {
    hide Insert, Get;
    var s := Insert(t, p, n).value;
    InsertableByLook(t, q);
    InsertableByLook(s, q);
    forall i | 0 < i < |q|
      ensures Look(s, q[..i]) == None || Look(s, q[..i]).value.DirN?
    {
      InsertLook(t, p, n, q[..i]);
      assert p <= q[..i] ==> p <= q;
    }
  }

  /** An insertion never unblocks a path that was blocked. */
  lemma StaysBlocked(t: Tree, p: Path, n: Node, q: Path)
    requires Insert(t, p, n).Ok? && !n.DirN? && q != [] && !Insertable(t, q)
    ensures !Insertable(Insert(t, p, n).value, q)
  {
    var s := Insert(t, p, n).value;
    InsertSucceeds(t, p, n);
    InsertableByLook(t, p);
    InsertableByLook(t, q);
    InsertableByLook(s, q);
    hide Insert, Get, Insertable;
    var i :| 0 < i < |q| && Look(t, q[..i]).Some? && !Look(t, q[..i]).value.DirN?;
    InsertLook(t, p, n, q[..i]);
    if p <= q[..i] {
      // the leaf itself now blocks the way
      InsertLook(t, p, n, p);
      LeafLookIn(n, []);
      assert p == q[..|p|];
      assert 0 < |p| < |q|;
      assert Look(s, q[..|p|]) == Some(n);
    } else if q[..i] <= p {
      assert q[..i] == p[..i];
      assert i < |p|;
    }
  }

  lemma LookAfterOne(t: Tree, p: Path, n: Node, q: Path)
    requires Insert(t, p, n).Ok? && !n.DirN? && q != []
    ensures Look(Insert(t, p, n).value, q) == LookAfterAll(t, [p], n, q)
  {
    hide Insert, Look;
    InsertLook(t, p, n, q);
    if p <= q {
      LeafLookIn(n, q[|p|..]);
      assert q[|p|..] == [] <==> p == q;
      assert p in [p];
    }
    if q <= p {
      assert p in [p];
    }
  }

  lemma HeadAndTail(paths: seq<Path>)
    requires paths != []
    ensures paths[0] in paths
    ensures forall x :: x in paths <==> x == paths[0] || x in paths[1..]
  {
    assert paths == [paths[0]] + paths[1..];
  }

  /** A batch succeeds exactly when every path is insertable. */
  lemma {:induction false} InsertAllSucceeds(t: Tree, paths: seq<Path>, n: Node)
    requires !n.DirN? && (forall p <- paths :: p != []) && Unnested(paths)
    ensures InsertAll(t, paths, n).Ok? <==> AllInsertable(t, paths)
    decreases |paths|
  {
    if paths != [] {
      var p := paths[0];
      HeadAndTail(paths);
      InsertSucceeds(t, p, n);
      if Insert(t, p, n).Ok? {
        var s := Insert(t, p, n).value;
        forall q | q in paths[1..]
          ensures Insertable(s, q) <==> Insertable(t, q)
        {
          assert q in paths && (p <= q ==> p == q);
          if Insertable(t, q) {
            StaysInsertable(t, p, n, q);
          } else {
            StaysBlocked(t, p, n, q);
          }
        }
        hide Insert, Insertable;
        InsertAllSucceeds(s, paths[1..], n);
      }
    }
  }

  /** A batch puts the leaf at each path, creates missing parents, and changes nothing else. */
  lemma InsertAllLook(t: Tree, paths: seq<Path>, n: Node, q: Path)
    requires !n.DirN? && Unnested(paths) && InsertAll(t, paths, n).Ok? && q != []
    ensures Look(InsertAll(t, paths, n).value, q) == LookAfterAll(t, paths, n, q)
  {
    hide InsertAll, Look;
    AnyBatchLook(t, paths, n, q);
    if Swept(paths, q) {
      var p :| p in paths && p <= q && p != q;
      assert q !in paths;
    }
  }

  /** What a batch leaves, whatever its paths are, once it succeeds. */
  lemma {:induction false} AnyBatchLook(t: Tree, paths: seq<Path>, n: Node, q: Path)
    requires !n.DirN? && InsertAll(t, paths, n).Ok? && q != []
    ensures Look(InsertAll(t, paths, n).value, q) == LookAfterAny(t, paths, n, q)
    decreases |paths|
  {
    if paths != [] {
      var p, rest := paths[0], paths[1..];
      var s := Insert(t, p, n).value;
      hide Look, LookAfterAll, Swept;
      assert p != [];
      AnyBatchLook(s, rest, n, q);
      hide Insert, InsertAll;
      LookAfterOne(t, p, n, q);
      if p <= q && p != q && !Swept(rest, q) {
        AnyBatchLook(s, rest, n, p);
        LeafStays(t, s, p, rest, n, q);
        LeafCovers(InsertAll(s, rest, n).value, p, n, q);
      }
      AfterBatch(t, s, paths, n, q);
    } else {
      assert !Beneath(paths, q) && !Above(paths, q) && !Swept(paths, q);
    }
  }

  /** A leaf just put down stays unless a later path lies above it. */
  lemma LeafStays(t: Tree, s: Tree, p: Path, rest: seq<Path>, n: Node, q: Path)
    requires Insert(t, p, n) == Ok(s) && !n.DirN? && p <= q && p != [] && !Swept(rest, q)
    ensures LookAfterAny(s, rest, n, p) == Some(n)
  {
    hide Insert, Look;
    LookAfterOne(t, p, n, p);
    assert p in [p] && Look(s, p) == Some(n);
    if Swept(rest, p) {
      SweptFurther(rest, p, q);
    }
    NotSwept(rest, p);
  }

  lemma SweptFurther(paths: seq<Path>, p: Path, q: Path)
    requires Swept(paths, p) && p <= q
    ensures Swept(paths, q)
  {
    var x :| x in paths && x <= p && x != p;
    assert x <= q && |x| < |p|;
  }

  lemma LeafCovers(t: Tree, p: Path, n: Node, q: Path)
    requires p != [] && Look(t, p) == Some(n) && !n.DirN? && p <= q && p != q
    ensures Look(t, q) == None
  {
    assert |p| == |q| ==> p == q;
    NothingBeneath(t, p, q);
  }

  lemma SplitHead(paths: seq<Path>, q: Path)
    requires paths != []
    ensures Beneath(paths, q) <==> paths[0] <= q || Beneath(paths[1..], q)
    ensures Above(paths, q) <==> q <= paths[0] || Above(paths[1..], q)
    ensures Swept(paths, q) <==> (paths[0] <= q && paths[0] != q) || Swept(paths[1..], q)
  {
    HeadAndTail(paths);
    if Beneath(paths[1..], q) {
      var x :| x in paths[1..] && x <= q;
      assert x in paths;
    }
    if Above(paths[1..], q) {
      var x :| x in paths[1..] && q <= x;
      assert x in paths;
    }
    if Swept(paths[1..], q) {
      var x :| x in paths[1..] && x <= q && x != q;
      assert x in paths;
    }
  }

  /** Splitting the first insertion off a batch. */
  lemma AfterBatch(t: Tree, s: Tree, paths: seq<Path>, n: Node, q: Path)
    requires paths != [] && q != []
    requires Look(s, q) == LookAfterAll(t, [paths[0]], n, q)
    requires paths[0] <= q && paths[0] != q && !Swept(paths[1..], q) ==> LookAfterAll(s, paths[1..], n, q) == None
    ensures LookAfterAny(s, paths[1..], n, q) == LookAfterAny(t, paths, n, q)
  {
    hide Look;
    var p, rest := paths[0], paths[1..];
    HeadAndTail(paths);
    SplitHead(paths, q);
    if !Swept(paths, q) {
      HeadAlone(p, q);
      NotSwept(rest, q);
      hide Beneath, Above, Swept;
    }
  }

  lemma HeadAlone(p: Path, q: Path)
    ensures Beneath([p], q) <==> p <= q
    ensures Above([p], q) <==> q <= p
  {
    assert p in [p];
  }

  lemma NotSwept(paths: seq<Path>, q: Path)
    requires !Swept(paths, q)
    ensures Beneath(paths, q) <==> q in paths
  {
    if Beneath(paths, q) {
      var x :| x in paths && x <= q;
      assert x == q;
    }
  }
}
