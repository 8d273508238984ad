/** Inode numbers: a table between paths and numbers that follows renames and never reuses a number. */
module Inodes {
  import opened Base
  import opened Paths

  const ROOT_INODE: nat := 1

  datatype Table = Table(toPath: map<nat, Path>, toInode: map<Path, nat>, next: nat)

  /**
   * Looking a path's number up leads back to the path, so distinct paths have distinct numbers; and no number
   * in use has yet to be issued.
   */
  ghost predicate Sound(t: Table) {
    && (forall p | p in t.toInode :: t.toInode[p] in t.toPath && t.toPath[t.toInode[p]] == p)
    && (forall i | i in t.toPath :: i < t.next)
  }

  /** The other half: every number in use is its path's number. */
  ghost predicate Faithful(t: Table) {
    forall i | i in t.toPath :: t.toPath[i] in t.toInode && t.toInode[t.toPath[i]] == i
  }

  // ---- what a rename does ----

  /** The number of `q` after the keys in `done` were moved. */
  function MovedInode(t: Table, from: Path, to: Path, done: set<Path>, q: Path): Option<nat> {
    if to <= q && Fits(q) && Rebased(q, to, from) in done && Rebased(q, to, from) in t.toInode then
      Some(t.toInode[Rebased(q, to, from)])
    else if q in t.toInode && q !in done then Some(t.toInode[q])
    else None
  }

  /** A number that the keys in `done` carried. */
  predicate Carried(t: Table, done: set<Path>, i: nat) {
    i in t.toPath && t.toPath[i] in done && t.toPath[i] in t.toInode && t.toInode[t.toPath[i]] == i
  }

  /** The path of number `i` after the keys in `done` were moved; an unrepresentable path drops the number. */
  function MovedPath(t: Table, from: Path, to: Path, done: set<Path>, i: nat): Option<Path>
    requires forall p | p in done :: from <= p
  {
    if Carried(t, done, i) then
      (if Fits(Rebased(t.toPath[i], from, to)) then Some(Rebased(t.toPath[i], from, to)) else None)
    else if i in t.toPath then Some(t.toPath[i])
    else None
  }

  function Find<K, V>(m: map<K, V>, k: K): Option<V> {
    if k in m then Some(m[k]) else None
  }

  lemma SameFinds<K(!new), V>(a: map<K, V>, b: map<K, V>)
    requires forall k: K :: Find(a, k) == Find(b, k)
    ensures a == b
  {
    forall k: K
      ensures k in a <==> k in b
      ensures k in a ==> a[k] == b[k]
    {
      assert Find(a, k) == Find(b, k);
    }
  }

  /** The table after moving the keys in `done`. */
  ghost predicate IsMoved(t: Table, from: Path, to: Path, done: set<Path>, after: Table) {
    && (forall p | p in done :: from <= p)
    && after.next == t.next
    && (forall q: Path :: Find(after.toInode, q) == MovedInode(t, from, to, done, q))
    && (forall i: nat :: Find(after.toPath, i) == MovedPath(t, from, to, done, i))
  }

  /** Every numbered path at or beneath the source. */
  function Under(t: Table, from: Path): set<Path> {
    set p | p in t.toInode && from <= p
  }

  ghost predicate IsRenamed(t: Table, from: Path, to: Path, after: Table) {
    IsMoved(t, from, to, Under(t, from), after)
  }

  // ---- one round of the loop ----

  function MoveKey(t: Table, key: Path, dest: Option<Path>): Table
    requires key in t.toInode
  {
    var i := t.toInode[key];
    var less := t.toInode - {key};
    match dest
    case None => Table(t.toPath - {i}, less, t.next)
    case Some(q) => Table(t.toPath[i := q], less[q := i], t.next)
  }

  function Destination(key: Path, from: Path, to: Path): Option<Path>
    requires from <= key
  {
    if Fits(Rebased(key, from, to)) then Some(Rebased(key, from, to)) else None
  }

  /** Where a key goes: beneath one prefix only, or nowhere. */
  lemma MovedOnce(key: Path, from: Path, to: Path)
    requires Movable(from, to) && from <= key
    ensures to <= key ==> from == to && Rebased(key, from, to) == key && Rebased(key, to, from) == key
  {
    if from == to {
      RebasedSame(key, from);
    } else {
      NotUnderBoth(key, from, to);
    }
  }

  lemma MoveOne(t: Table, from: Path, to: Path, done: set<Path>, now: Table, key: Path)
    requires Sound(t) && Movable(from, to) && IsMoved(t, from, to, done, now)
    requires key in t.toInode && from <= key && key !in done && done <= t.toInode.Keys
    ensures key in now.toInode && now.toInode[key] == t.toInode[key]
    ensures IsMoved(t, from, to, done + {key}, MoveKey(now, key, Destination(key, from, to)))
  {
    MovedOnce(key, from, to);
    assert Find(now.toInode, key) == MovedInode(t, from, to, done, key) == Some(t.toInode[key]);
    RebasedBack(key, from, to);
    var after := MoveKey(now, key, Destination(key, from, to));
    forall q: Path
      ensures Find(after.toInode, q) == MovedInode(t, from, to, done + {key}, q)
    {
      MoveInodeAt(t, from, to, done, now, key, q);
    }
    forall i: nat
      ensures Find(after.toPath, i) == MovedPath(t, from, to, done + {key}, i)
    {
      MovePathAt(t, from, to, done, now, key, i);
    }
  }

  lemma MoveInodeAt(t: Table, from: Path, to: Path, done: set<Path>, now: Table, key: Path, q: Path)
    requires Sound(t) && Movable(from, to) && IsMoved(t, from, to, done, now)
    requires key in t.toInode && from <= key && key !in done && done <= t.toInode.Keys
    requires key in now.toInode && now.toInode[key] == t.toInode[key]
    ensures Find(MoveKey(now, key, Destination(key, from, to)).toInode, q) == MovedInode(t, from, to, done + {key}, q)
  {
    hide Fits;
    MovedOnce(key, from, to);
    RebasedBack(key, from, to);
    assert Find(now.toInode, q) == MovedInode(t, from, to, done, q);
    if to <= q {
      RebasedBack(q, to, from);
    }
  }

  lemma MovePathAt(t: Table, from: Path, to: Path, done: set<Path>, now: Table, key: Path, i: nat)
    requires Sound(t) && Movable(from, to) && IsMoved(t, from, to, done, now)
    requires key in t.toInode && from <= key && key !in done && done <= t.toInode.Keys
    requires key in now.toInode && now.toInode[key] == t.toInode[key]
    ensures Find(MoveKey(now, key, Destination(key, from, to)).toPath, i) == MovedPath(t, from, to, done + {key}, i)
  {
    hide Fits, Rebased;
    assert Find(now.toPath, i) == MovedPath(t, from, to, done, i);
    assert i == t.toInode[key] <==> Carried(t, {key}, i);
  }

  /** Each way the keys could have been ordered ends in the same table. */
  lemma RenamedUnique(t: Table, from: Path, to: Path, a: Table, b: Table)
    requires IsRenamed(t, from, to, a) && IsRenamed(t, from, to, b)
    ensures a == b
  {
    hide MovedInode, MovedPath;
    forall q: Path
      ensures Find(a.toInode, q) == Find(b.toInode, q)
    {
      assert Find(a.toInode, q) == MovedInode(t, from, to, Under(t, from), q);
    }
    forall i: nat
      ensures Find(a.toPath, i) == Find(b.toPath, i)
    {
      assert Find(a.toPath, i) == MovedPath(t, from, to, Under(t, from), i);
    }
    SameFinds(a.toInode, b.toInode);
    SameFinds(a.toPath, b.toPath);
  }

  // ---- what a rename keeps ----

  /** A rename keeps the table sound. */
  lemma RenameKeepsSound(t: Table, from: Path, to: Path, after: Table)
    requires Sound(t) && Movable(from, to) && IsRenamed(t, from, to, after)
    ensures Sound(after)
  {
    hide Fits;
    forall q | q in after.toInode
      ensures after.toInode[q] in after.toPath && after.toPath[after.toInode[q]] == q
    {
      assert Find(after.toInode, q) == MovedInode(t, from, to, Under(t, from), q);
      var i := after.toInode[q];
      assert Find(after.toPath, i) == MovedPath(t, from, to, Under(t, from), i);
      if to <= q {
        RebasedBack(q, to, from);
      }
    }
    forall i | i in after.toPath
      ensures i < after.next
    {
      assert Find(after.toPath, i) == MovedPath(t, from, to, Under(t, from), i);
    }
  }

  /** A path already numbered at the destination, outside what is moved. */
  ghost predicate Overwrites(t: Table, from: Path, to: Path) {
    exists p :: p in t.toInode && from <= p && Fits(Rebased(p, from, to)) && Rebased(p, from, to) in t.toInode
  }

  /**
   * After a rename every number still leads back to itself exactly when no destination had a number before;
   * otherwise the replaced number is left pointing at a path that answers to the moved one.
   */
  lemma RenameFaithful(t: Table, from: Path, to: Path, after: Table)
    requires Sound(t) && Faithful(t) && Apart(from, to) && IsRenamed(t, from, to, after)
    ensures Faithful(after) <==> !Overwrites(t, from, to)
  {
    hide Fits;
    if Overwrites(t, from, to) {
      var p :| p in t.toInode && from <= p && Fits(Rebased(p, from, to)) && Rebased(p, from, to) in t.toInode;
      ReplacedNumber(t, from, to, after, p);
    } else {
      forall i | i in after.toPath
        ensures after.toPath[i] in after.toInode && after.toInode[after.toPath[i]] == i
      {
        FaithfulAt(t, from, to, after, i);
      }
    }
  }

  lemma ReplacedNumber(t: Table, from: Path, to: Path, after: Table, p: Path)
    requires Sound(t) && Apart(from, to) && IsRenamed(t, from, to, after)
    requires p in t.toInode && from <= p && Fits(Rebased(p, from, to)) && Rebased(p, from, to) in t.toInode
    ensures !Faithful(after)
  {
    hide Fits;
    var q := Rebased(p, from, to);
    var i := t.toInode[q];
    RebasedBack(p, from, to);
    NotUnderBoth(p, from, to);
    assert !(from <= q) by {
      if from <= q {
        NotUnderBoth(q, from, to);
      }
    }
    assert Find(after.toInode, q) == MovedInode(t, from, to, Under(t, from), q) == Some(t.toInode[p]);
    assert Find(after.toPath, i) == MovedPath(t, from, to, Under(t, from), i) == Some(q);
    assert t.toInode[p] != i;
  }

  lemma FaithfulAt(t: Table, from: Path, to: Path, after: Table, i: nat)
    requires Sound(t) && Faithful(t) && Apart(from, to) && IsRenamed(t, from, to, after) && !Overwrites(t, from, to)
    requires i in after.toPath
    ensures after.toPath[i] in after.toInode && after.toInode[after.toPath[i]] == i
  {
    hide Fits;
    assert Find(after.toPath, i) == MovedPath(t, from, to, Under(t, from), i);
    var q := after.toPath[i];
    assert Find(after.toInode, q) == MovedInode(t, from, to, Under(t, from), q);
    var p := t.toPath[i];
    if from <= p {
      RebasedBack(p, from, to);
    } else if to <= p && Rebased(p, to, from) in t.toInode {
      RebasedBack(p, to, from);
    }
  }

  /** Every number at or beneath the source now names the moved path; every other number keeps its path. */
  lemma NumbersFollow(t: Table, from: Path, to: Path, after: Table, p: Path)
    requires Sound(t) && Movable(from, to) && IsRenamed(t, from, to, after) && p in t.toInode
    ensures from <= p && Fits(Rebased(p, from, to)) ==> Find(after.toPath, t.toInode[p]) == Some(Rebased(p, from, to))
    ensures !(from <= p) ==> Find(after.toPath, t.toInode[p]) == Some(p)
  {
    hide Fits;
    assert Find(after.toPath, t.toInode[p]) == MovedPath(t, from, to, Under(t, from), t.toInode[p]);
  }

  /** Renaming onto itself changes nothing, as long as every numbered path is one that can be written down. */
  lemma RenameSame(t: Table, p: Path, after: Table)
    requires Sound(t) && p != [] && IsRenamed(t, p, p, after) && forall q | q in t.toInode :: Fits(q)
    ensures after == t
  {
    hide Fits;
    forall q: Path
      ensures Find(after.toInode, q) == Find(t.toInode, q)
    {
      assert Find(after.toInode, q) == MovedInode(t, p, p, Under(t, p), q);
      if p <= q {
        RebasedSame(q, p);
      }
    }
    forall i: nat
      ensures Find(after.toPath, i) == Find(t.toPath, i)
    {
      assert Find(after.toPath, i) == MovedPath(t, p, p, Under(t, p), i);
      if i in t.toPath && p <= t.toPath[i] {
        RebasedSame(t.toPath[i], p);
      }
    }
    SameFinds(after.toInode, t.toInode);
    SameFinds(after.toPath, t.toPath);
  }

  // ---- the table itself ----

  /** The table after a path was given a number, if it had none. */
  function WithNumber(t: Table, p: Path): Table {
    if p in t.toInode then t else Table(t.toPath[t.next := p], t.toInode[p := t.next], t.next + 1)
  }

  /** The table without a path. */
  function Forgotten(t: Table, p: Path): Table {
    Table(if p in t.toInode then t.toPath - {t.toInode[p]} else t.toPath, t.toInode - {p}, t.next)
  }

  class InodeTable {
    var toPath: map<nat, Path>
    var toInode: map<Path, nat>
    var next: nat
    /** Every number ever handed out. */
    ghost var issued: set<nat>

    ghost function State(): Table
      reads this
    {
      Table(toPath, toInode, next)
    }

    ghost predicate Valid()
      reads this
    {
      Sound(State()) && toPath.Keys <= issued && forall i | i in issued :: i < next
    }

    constructor ()
      ensures Valid() && Faithful(State()) && issued == {ROOT_INODE}
      ensures toInode == map[[] := ROOT_INODE] && toPath == map[ROOT_INODE := []]
    {
      toPath := map[ROOT_INODE := []];
      toInode := map[[] := ROOT_INODE];
      next := ROOT_INODE + 1;
      issued := {ROOT_INODE};
    }

    /** The number of a path; a new one is never one that was handed out before. */
    method InodeFor(p: Path) returns (i: nat)
      requires Valid()
      modifies this
      ensures Valid() && p in toInode && toInode[p] == i && i in toPath && toPath[i] == p
      ensures p in old(toInode) ==> State() == old(State()) && issued == old(issued)
      ensures p !in old(toInode) ==> i !in old(issued) && issued == old(issued) + {i}
      ensures State() == WithNumber(old(State()), p)
      ensures Faithful(old(State())) ==> Faithful(State())
    {
      if p in toInode {
        return toInode[p];
      }
      i := next;
      next := next + 1;
      toPath := toPath[i := p];
      toInode := toInode[p := i];
      issued := issued + {i};
    }

    method PathFor(i: nat) returns (p: Option<Path>)
      ensures p == Find(toPath, i)
    {
      p := if i in toPath then Some(toPath[i]) else None;
    }

    method Forget(p: Path)
      requires Valid()
      modifies this`toPath, this`toInode
      ensures Valid() && State() == Forgotten(old(State()), p)
      ensures Faithful(old(State())) ==> Faithful(State())
    {
      if p in toInode {
        var i := toInode[p];
        toInode := toInode - {p};
        toPath := toPath - {i};
      }
    }

    /** Move every mapping at or beneath `from`, in whatever order the map yields its keys. */
    method Rename(from: Path, to: Path)
      requires Valid() && Movable(from, to)
      modifies this`toPath, this`toInode
      ensures Valid() && IsRenamed(old(State()), from, to, State())
    {
      hide Fits, PathStr;
      ghost var before := State();
      var moved := set p | p in toInode && from <= p;
      var todo := moved;
      ghost var done: set<Path> := {};
      NothingMoved(before, from, to);
      while todo != {}
        invariant done + todo == moved && done !! todo
        invariant IsMoved(before, from, to, done, State())
      {
        var key :| key in todo;
        MoveOne(before, from, to, done, State(), key);
        var inode := toInode[key];
        toInode := toInode - {key};
        RebaseIsSuffix(from, to, key);
        var suffix := PathStr(key)[|PathStr(from)|..];
        ParseInvertsRender(Rebased(key, from, to));
        ParsedIsRebased(Rebased(key, from, to));
        var parsed := Parse(PathStr(to) + suffix);
        if parsed.Err? {
          toPath := toPath - {inode};
        } else {
          toPath := toPath[inode := parsed.value];
          toInode := toInode[parsed.value := inode];
        }
        todo := todo - {key};
        done := done + {key};
      }
      assert done == Under(before, from);
      RenameKeepsSound(before, from, to, State());
      RenameKeepsNumbers(before, from, to, State());
    }
  }

  lemma NothingMoved(t: Table, from: Path, to: Path)
    ensures IsMoved(t, from, to, {}, t)
  {
  }

  lemma RenameKeepsNumbers(t: Table, from: Path, to: Path, after: Table)
    requires IsRenamed(t, from, to, after)
    ensures after.toPath.Keys <= t.toPath.Keys && after.next == t.next
  {
    hide Fits;
    forall i | i in after.toPath
      ensures i in t.toPath
    {
      assert Find(after.toPath, i) == MovedPath(t, from, to, Under(t, from), i);
    }
  }
}
