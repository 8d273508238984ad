/** Insertion, removal and lookup on trees, and the laws that say exactly what each one changes. */
module TreeOps {
  import opened Base
  import opened Paths
  import opened Trees

  // ---- the operations ----

  function Get(t: Tree, p: Path): Option<Node>
    requires p != []
    decreases p
  {
    if p[0] !in t.kids then None
    else if |p| == 1 then Some(t.kids[p[0]])
    else if t.kids[p[0]].DirN? then Get(t.kids[p[0]].sub, p[1..])
    else None
  }

  function SubOf(t: Tree, n: Name): Tree {
    if n in t.kids && t.kids[n].DirN? then t.kids[n].sub else EMPTY
  }

  function DirMetaOf(t: Tree, n: Name): Meta {
    if n in t.kids && t.kids[n].DirN? then t.kids[n].meta else DIR_META
  }

  function Put(t: Tree, n: Name, node: Node): Tree {
    Tree(t.kids[n := node])
  }

  /** Insert or replace `p`, creating missing parents. */
  function Insert(t: Tree, p: Path, node: Node): Result<Tree>
    decreases p
  {
    if p == [] then Err(InvalidPath)
    else if |p| == 1 then Ok(Put(t, p[0], node))
    else if p[0] in t.kids && !t.kids[p[0]].DirN? then Err(NotADirectory)
    else
      match Insert(SubOf(t, p[0]), p[1..], node)
      case Err(e) => Err(e)
      case Ok(sub) => Ok(Put(t, p[0], DirN(DirMetaOf(t, p[0]), sub)))
  }

  /** Remove `p`, which must exist. */
  function Remove(t: Tree, p: Path): Result<Tree>
    decreases p
  {
    if p == [] then Err(InvalidPath)
    else if p[0] !in t.kids then Err(NotFound)
    else if |p| == 1 then Ok(Tree(t.kids - {p[0]}))
    else if !t.kids[p[0]].DirN? then Err(NotADirectory)
    else
      match Remove(t.kids[p[0]].sub, p[1..])
      case Err(e) => Err(e)
      case Ok(sub) => Ok(Put(t, p[0], DirN(t.kids[p[0]].meta, sub)))
  }

  /** A node without what lies beneath it. */
  function Shape(n: Node): Node {
    if n.DirN? then DirN(n.meta, EMPTY) else n
  }

  /** What is at `p`: the tree seen as a finite map from paths to entries. */
  function Look(t: Tree, p: Path): Option<Node>
    requires p != []
  {
    match Get(t, p)
    case None => None
    case Some(n) => Some(Shape(n))
  }

  /** What is at `q` inside a node placed somewhere; the empty path is the node itself. */
  function LookIn(n: Node, q: Path): Option<Node> {
    if q == [] then Some(Shape(n))
    else if n.DirN? then Look(n.sub, q)
    else None
  }

  const FRESH_DIR := DirN(DIR_META, EMPTY)

  predicate IsDirAt(t: Tree, p: Path) {
    p == [] || (Get(t, p).Some? && Get(t, p).value.DirN?)
  }

  /** Every proper ancestor of `p` is a directory or does not exist yet. */
  predicate Insertable(t: Tree, p: Path) {
    p != [] && forall i | 0 < i < |p| :: Get(t, p[..i]).Some? ==> Get(t, p[..i]).value.DirN?
  }

  // ---- lookup laws ----

  lemma GetStep(t: Tree, p: Path)
    requires |p| > 1
    ensures p[0] in t.kids && t.kids[p[0]].DirN? ==> Get(t, p) == Get(t.kids[p[0]].sub, p[1..])
    ensures !(p[0] in t.kids && t.kids[p[0]].DirN?) ==> Get(t, p) == None
  {
  }

  lemma {:induction false} GetConcat(t: Tree, p: Path, q: Path)
    requires p != [] && q != []
    ensures Get(t, p + q) ==
            if Get(t, p).Some? && Get(t, p).value.DirN? then Get(Get(t, p).value.sub, q) else None
    decreases p
  {
    assert (p + q)[0] == p[0];
    if |p| == 1 {
      assert (p + q)[1..] == q;
    } else {
      assert (p + q)[1..] == p[1..] + q;
      if p[0] in t.kids && t.kids[p[0]].DirN? {
        GetConcat(t.kids[p[0]].sub, p[1..], q);
      }
    }
  }

  /** Trees that agree on every path are equal: the path-to-entry map determines the tree. */
  lemma {:induction false} Extensional(s: Tree, t: Tree)
    requires forall p | p != [] :: Look(s, p) == Look(t, p)
    ensures s == t
    decreases s
  {
    forall k
      ensures k in s.kids <==> k in t.kids
      ensures k in s.kids ==> s.kids[k] == t.kids[k]
    {
      assert Look(s, [k]) == Look(t, [k]);
      if k in s.kids && s.kids[k].DirN? {
        forall p | p != []
          ensures Look(s.kids[k].sub, p) == Look(t.kids[k].sub, p)
        {
          GetConcat(s, [k], p);
          GetConcat(t, [k], p);
          assert Look(s, [k] + p) == Look(t, [k] + p);
        }
        Extensional(s.kids[k].sub, t.kids[k].sub);
      }
    }
    assert s.kids == t.kids;
  }

  // ---- insertion ----

  lemma {:induction false} InsertableStep(t: Tree, p: Path)
    requires |p| > 1
    ensures Insertable(t, p) <==>
            (p[0] in t.kids ==> t.kids[p[0]].DirN?) && Insertable(SubOf(t, p[0]), p[1..])
  {
    if Insertable(t, p) {
      assert Get(t, p[..1]) == if p[0] in t.kids then Some(t.kids[p[0]]) else None;
      forall i | 0 < i < |p| - 1
        ensures Get(SubOf(t, p[0]), p[1..][..i]).Some? ==> Get(SubOf(t, p[0]), p[1..][..i]).value.DirN?
      {
        assert p[..i + 1][1..] == p[1..][..i];
        GetStep(t, p[..i + 1]);
      }
    }
    if (p[0] in t.kids ==> t.kids[p[0]].DirN?) && Insertable(SubOf(t, p[0]), p[1..]) {
      forall i | 0 < i < |p|
        ensures Get(t, p[..i]).Some? ==> Get(t, p[..i]).value.DirN?
      {
        if i > 1 {
          assert p[..i][1..] == p[1..][..i - 1];
          GetStep(t, p[..i]);
        }
      }
    }
  }

  /** Insertion fails exactly when an ancestor is not a directory. */
  lemma {:induction false} InsertSucceeds(t: Tree, p: Path, node: Node)
    requires p != []
    ensures Insert(t, p, node).Ok? <==> Insertable(t, p)
    ensures Insert(t, p, node).Err? ==> Insert(t, p, node).error == NotADirectory
    decreases p
  {
    if |p| > 1 {
      InsertableStep(t, p);
      InsertSucceeds(SubOf(t, p[0]), p[1..], node);
    }
  }

  /** What a lookup finds after `node` was inserted at `p`. */
  function LookAfterInsert(t: Tree, p: Path, node: Node, q: Path): Option<Node>
    requires q != []
  {
    if p <= q then LookIn(node, q[|p|..])
    else if q <= p && Look(t, q) == None then Some(FRESH_DIR)
    else Look(t, q)
  }

  lemma LookPut(t: Tree, n: Name, node: Node, q: Path)
    requires q != []
    ensures Look(Put(t, n, node), q) == if q[0] == n then LookIn(node, q[1..]) else Look(t, q)
  {
    if |q| > 1 {
      GetStep(Put(t, n, node), q);
      GetStep(t, q);
    }
  }

  lemma LookEmpty(q: Path)
    requires q != []
    ensures Look(EMPTY, q) == None
  {
  }

  lemma PrefixStep(p: Path, q: Path)
    requires p != [] && q != [] && p[0] == q[0]
    ensures p <= q <==> p[1..] <= q[1..]
    ensures p <= q ==> q[1..][|p| - 1..] == q[|p|..]
  {
    assert p == [p[0]] + p[1..] && q == [q[0]] + q[1..];
  }

  /** The law one level up: what holds of the child holds of the parent. */
  lemma LookAfterInsertStep(t: Tree, p: Path, node: Node, q: Path)
    requires |p| > 1 && |q| > 1 && q[0] == p[0]
    requires p[0] in t.kids ==> t.kids[p[0]].DirN?
    ensures LookAfterInsert(t, p, node, q) == LookAfterInsert(SubOf(t, p[0]), p[1..], node, q[1..])
  {
    PrefixStep(p, q);
    PrefixStep(q, p);
    GetStep(t, q);
    LookEmpty(q[1..]);
  }

  /**
   * Insertion changes the target and its subtree, creates missing ancestors as plain directories, and
   * leaves every other path alone.
   */
  lemma {:induction false} InsertLook(t: Tree, p: Path, node: Node, q: Path)
    requires Insert(t, p, node).Ok? && q != []
    ensures Look(Insert(t, p, node).value, q) == LookAfterInsert(t, p, node, q)
    decreases p
  {
    var r := Insert(t, p, node).value;
    if |p| == 1 {
      LookPut(t, p[0], node, q);
      assert p <= q <==> q[0] == p[0];
    } else {
      var sub := Insert(SubOf(t, p[0]), p[1..], node).value;
      LookPut(t, p[0], DirN(DirMetaOf(t, p[0]), sub), q);
      if q[0] == p[0] && |q| > 1 {
        InsertLook(SubOf(t, p[0]), p[1..], node, q[1..]);
        LookAfterInsertStep(t, p, node, q);
      } else if q[0] == p[0] {
        assert q <= p;
      }
    }
  }

  // ---- removal ----

  /** Removal succeeds exactly when something is there. */
  lemma {:induction false} RemoveSucceeds(t: Tree, p: Path)
    requires p != []
    ensures Remove(t, p).Ok? <==> Get(t, p).Some?
    decreases p
  {
    if |p| > 1 {
      GetStep(t, p);
      if p[0] in t.kids && t.kids[p[0]].DirN? {
        RemoveSucceeds(t.kids[p[0]].sub, p[1..]);
      }
    }
  }

  /** Removal deletes the target and its subtree, and changes nothing else: parents stay, even empty. */
  lemma {:induction false} RemoveLook(t: Tree, p: Path, q: Path)
    requires Remove(t, p).Ok? && q != []
    ensures Look(Remove(t, p).value, q) == if p <= q then None else Look(t, q)
    decreases p
  {
    assert p == [p[0]] + p[1..] && q == [q[0]] + q[1..];
    if |p| == 1 {
      assert p <= q <==> q[0] == p[0];
      if |q| > 1 {
        GetStep(t, q);
        GetStep(Remove(t, p).value, q);
      }
    } else {
      var sub := Remove(t.kids[p[0]].sub, p[1..]).value;
      LookPut(t, p[0], DirN(t.kids[p[0]].meta, sub), q);
      if q[0] == p[0] && |q| > 1 {
        RemoveLook(t.kids[p[0]].sub, p[1..], q[1..]);
        assert p <= q <==> p[1..] <= q[1..];
        GetStep(t, q);
      }
    }
  }

  /** Nothing lies beneath a path that is not a directory. */
  lemma NothingBeneath(t: Tree, p: Path, q: Path)
    requires p != [] && p <= q && |p| < |q| && !IsDirAt(t, p)
    ensures Look(t, q) == None
  {
    assert q == p + q[|p|..];
    GetConcat(t, p, q[|p|..]);
  }

  /** Everything that exists has directories above it. */
  lemma AncestorsAreDirs(t: Tree, q: Path, i: nat)
    requires 0 < i < |q| && Get(t, q).Some?
    ensures IsDirAt(t, q[..i])
  {
    assert q == q[..i] + q[i..];
    GetConcat(t, q[..i], q[i..]);
  }

  /** Undoing: inserting at a vacant path with existing parents and removing it again restores the tree. */
  lemma RemoveUndoesInsert(t: Tree, p: Path, node: Node)
    requires Insert(t, p, node).Ok? && Look(t, p) == None
    requires forall i | 0 < i < |p| :: Get(t, p[..i]).Some?
    ensures Remove(Insert(t, p, node).value, p) == Ok(t)
  {
    var s := Insert(t, p, node).value;
    InsertLook(t, p, node, p);
    RemoveSucceeds(s, p);
    forall q | q != []
      ensures Look(Remove(s, p).value, q) == Look(t, q)
    {
      RemoveLook(s, p, q);
      InsertLook(t, p, node, q);
      if p <= q {
        if p != q { NothingBeneath(t, p, q); }
      } else if q <= p {
        assert q == p[..|q|];
      }
    }
    Extensional(Remove(s, p).value, t);
  }
}
