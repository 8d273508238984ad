/** A diff lists exactly the paths that differ, each once, with the right before and after. */
module DiffExact {
  import opened Base
  import opened Paths
  import opened Trees
  import opened TreeOps
  import opened Nodes
  import opened Diff

  // ---- what should be listed ----

  /** A proper ancestor of `q` is a directory on one side and something else on the other. */
  ghost predicate SwitchAbove(s: Tree, t: Tree, q: Path) {
    exists i :: 0 < i < |q| && SwitchAt(s, t, q[..i])
  }

  ghost predicate SwitchAt(s: Tree, t: Tree, q: Path)
    requires q != []
  {
    Get(s, q).Some? && Get(t, q).Some? && (Get(s, q).value.DirN? != Get(t, q).value.DirN?)
  }

  /** The one change to report at `q`, under the name `p`. */
  ghost function ChangeAt(s: Tree, t: Tree, q: Path, p: Path): Option<Change>
    requires q != []
  {
    if SwitchAbove(s, t, q) then None
    else
      match (EntryAt(s, q), EntryAt(t, q))
      case (None, None) => None
      case (None, Some(b)) => Some(Added(p, b))
      case (Some(a), None) => Some(Removed(p, a))
      case (Some(a), Some(b)) => if a == b || (a.Dir? && b.Dir?) then None else Some(Modified(p, a, b))
  }

  predicate Under(prefix: Path, n: Name, p: Path) {
    prefix + [n] <= p
  }

  lemma UnderMeans(prefix: Path, n: Name, p: Path)
    ensures Under(prefix, n, p) <==> prefix <= p && |p| > |prefix| && p[|prefix|] == n
    ensures Under(prefix, n, p) ==> p[|prefix|..] == [n] + p[|prefix| + 1..]
  {
    if prefix <= p && |p| > |prefix| && p[|prefix|] == n {
      assert p[..|prefix| + 1] == prefix + [n];
    }
    if Under(prefix, n, p) {
      assert p[|prefix|] == (prefix + [n])[|prefix|];
      assert prefix <= prefix + [n];
    }
  }

  // ---- walks ----

  /** `x` is listed exactly when it is at its path beneath the prefix. */
  ghost predicate ListedAt(t: Tree, prefix: Path, x: Listed) {
    prefix <= x.0 && |x.0| > |prefix| && EntryAt(t, x.0[|prefix|..]) == Some(x.1)
  }

  lemma EntryStep(t: Tree, n: Name, rest: Path)
    ensures EntryAt(t, [n] + rest) ==
            if n !in t.kids then None
            else if rest == [] then Some(ToEntry(t.kids[n]))
            else if t.kids[n].DirN? then EntryAt(t.kids[n].sub, rest) else None
  {
    hide IdOf, ToEntry;
    assert ([n] + rest)[0] == n && ([n] + rest)[1..] == rest;
  }

  lemma {:induction false} WalkNameLists(t: Tree, n: Name, prefix: Path, x: Listed)
    requires n in t.kids
    ensures x in WalkName(t, n, prefix) <==> ListedAt(t, prefix, x) && x.0[|prefix|] == n
    decreases t, 0
  {
    hide IdOf, ToEntry, Get;
    var deeper := prefix + [n];
    UnderMeans(prefix, n, x.0);
    if Under(prefix, n, x.0) {
      EntryStep(t, n, x.0[|prefix| + 1..]);
      assert x.0[|deeper|..] == x.0[|prefix| + 1..];
    }
    assert |x.0| == |deeper| && Under(prefix, n, x.0) ==> x.0 == deeper;
    if t.kids[n].DirN? {
      WalkedLists(t.kids[n].sub, deeper, x);
    }
  }

  lemma {:induction false} WalkNamesLists(t: Tree, names: seq<Name>, prefix: Path, x: Listed)
    requires forall n <- names :: n in t.kids
    ensures x in WalkNames(t, names, prefix) <==> ListedAt(t, prefix, x) && x.0[|prefix|] in names
    decreases t, 1, |names|
  {
    hide WalkName;
    if names != [] {
      var last := |names| - 1;
      WalkNamesLists(t, names[..last], prefix, x);
      WalkNameLists(t, names[last], prefix, x);
      assert names == names[..last] + [names[last]];
    }
  }

  /** A walk lists exactly what is beneath a node. */
  lemma {:induction false} WalkedLists(t: Tree, prefix: Path, x: Listed)
    ensures x in Walked(t, prefix) <==> ListedAt(t, prefix, x)
    decreases t, 2
  {
    hide WalkNames;
    WalkNamesLists(t, Names(NodeOf(t)), prefix, x);
    if ListedAt(t, prefix, x) {
      assert x.0[|prefix|..][0] == x.0[|prefix|];
    }
  }

  // ---- each path once, from the top down ----

  /** No path is listed twice, and none after anything beneath it. */
  ghost predicate TopDown<T(!new)>(xs: seq<T>, key: T -> Path) {
    forall i, j | 0 <= i < j < |xs| :: !(key(xs[j]) <= key(xs[i]))
  }

  lemma TopDownConcat<T(!new)>(a: seq<T>, b: seq<T>, key: T -> Path)
    requires TopDown(a, key) && TopDown(b, key) && forall x, y | x in a && y in b :: !(key(y) <= key(x))
    ensures TopDown(a + b, key)
  {
    var ab := a + b;
    forall i, j | 0 <= i < j < |ab|
      ensures !(key(ab[j]) <= key(ab[i]))
    {
      if i < |a| <= j {
        assert ab[i] in a && ab[j] in b;
      }
    }
  }

  function ListedPath(x: Listed): Path {
    x.0
  }

  function ChangePath(c: Change): Path {
    c.path
  }

  predicate Distinct(names: seq<Name>) {
    forall i, j | 0 <= i < j < |names| :: names[i] != names[j]
  }

  lemma NamesDistinct(node: DirNode)
    ensures Distinct(Names(node))
  {
    NameKeyInjective(node.Keys);
    SortedByAscends(node.Keys, NameKey);
    var names := Names(node);
    forall i, j | 0 <= i < j < |names|
      ensures names[i] != names[j]
    {
      LexIrreflexive(NameKey(names[i]));
    }
  }

  lemma {:induction false} WalkNameTopDown(t: Tree, n: Name, prefix: Path)
    requires n in t.kids
    ensures TopDown(WalkName(t, n, prefix), ListedPath)
    decreases t, 0
  {
    hide Walked, IdOf, ToEntry;
    if t.kids[n].DirN? {
      WalkedTopDown(t.kids[n].sub, prefix + [n]);
      forall y | y in Walked(t.kids[n].sub, prefix + [n])
        ensures !(ListedPath(y) <= prefix + [n])
      {
        WalkedLists(t.kids[n].sub, prefix + [n], y);
      }
      TopDownConcat([(prefix + [n], ToEntry(t.kids[n]))], Walked(t.kids[n].sub, prefix + [n]), ListedPath);
    }
  }

  lemma {:induction false} WalkNamesTopDown(t: Tree, names: seq<Name>, prefix: Path)
    requires Distinct(names) && forall n <- names :: n in t.kids
    ensures TopDown(WalkNames(t, names, prefix), ListedPath)
    decreases t, 1, |names|
  {
    hide WalkName, TopDown;
    if names != [] {
      var last := |names| - 1;
      WalkNamesTopDown(t, names[..last], prefix);
      WalkNameTopDown(t, names[last], prefix);
      forall x, y | x in WalkNames(t, names[..last], prefix) && y in WalkName(t, names[last], prefix)
        ensures !(ListedPath(y) <= ListedPath(x))
      {
        WalkNamesLists(t, names[..last], prefix, x);
        WalkNameLists(t, names[last], prefix, y);
      }
      TopDownConcat(WalkNames(t, names[..last], prefix), WalkName(t, names[last], prefix), ListedPath);
    } else {
      NothingTopDown<Listed>(ListedPath);
    }
  }

  lemma NothingTopDown<T(!new)>(key: T -> Path)
    ensures TopDown<T>([], key)
  {
  }

  /** A walk lists no path twice, and a directory before what is in it. */
  lemma {:induction false} WalkedTopDown(t: Tree, prefix: Path)
    ensures TopDown(Walked(t, prefix), ListedPath)
    decreases t, 2
  {
    hide WalkNames;
    NamesDistinct(NodeOf(t));
    WalkNamesTopDown(t, Names(NodeOf(t)), prefix);
  }

  // ---- diffs ----

  /** `c` is to be listed exactly when it is the change at its path beneath the prefix. */
  ghost predicate ChangeListed(s: Tree, t: Tree, prefix: Path, c: Change) {
    prefix <= c.path && |c.path| > |prefix| && ChangeAt(s, t, c.path[|prefix|..], c.path) == Some(c)
  }

  lemma SwitchStep(s: Tree, t: Tree, n: Name, rest: Path)
    requires rest != []
    ensures n in s.kids && n in t.kids && s.kids[n].DirN? && t.kids[n].DirN? ==>
              (SwitchAbove(s, t, [n] + rest) <==> SwitchAbove(s.kids[n].sub, t.kids[n].sub, rest))
    ensures n !in s.kids || n !in t.kids || (!s.kids[n].DirN? && !t.kids[n].DirN?) ==> !SwitchAbove(s, t, [n] + rest)
    ensures n in s.kids && n in t.kids && s.kids[n].DirN? != t.kids[n].DirN? ==> SwitchAbove(s, t, [n] + rest)
  {
    var q := [n] + rest;
    assert q[..1] == [n];
    forall i | 0 < i < |q|
      ensures i > 1 ==> q[..i] == [n] + rest[..i - 1] && q[..i][1..] == rest[..i - 1]
    {
    }
    if n in s.kids && n in t.kids && s.kids[n].DirN? && t.kids[n].DirN? {
      var a, b := s.kids[n].sub, t.kids[n].sub;
      if SwitchAbove(a, b, rest) {
        var i :| 0 < i < |rest| && SwitchAt(a, b, rest[..i]);
        assert q[..i + 1][1..] == rest[..i];
        assert SwitchAt(s, t, q[..i + 1]);
      }
      if SwitchAbove(s, t, q) {
        var i :| 0 < i < |q| && SwitchAt(s, t, q[..i]);
        assert i > 1 && SwitchAt(a, b, rest[..i - 1]);
      }
    } else if n in s.kids && n in t.kids && s.kids[n].DirN? != t.kids[n].DirN? {
      assert SwitchAt(s, t, q[..1]);
    }
  }

  /** The change at a path, one level up. */
  lemma ChangeStep(s: Tree, t: Tree, n: Name, rest: Path, p: Path)
    ensures var c := ChangeAt(s, t, [n] + rest, p);
            && (n in s.kids && n !in t.kids ==>
                  c == match EntryAt(s, [n] + rest) case Some(a) => Some(Removed(p, a)) case None => None)
            && (n !in s.kids && n in t.kids ==>
                  c == match EntryAt(t, [n] + rest) case Some(b) => Some(Added(p, b)) case None => None)
            && (n !in s.kids && n !in t.kids ==> c == None)
            && (n in s.kids && n in t.kids ==>
                  if s.kids[n].DirN? && t.kids[n].DirN? then
                    c == if rest == [] then None else ChangeAt(s.kids[n].sub, t.kids[n].sub, rest, p)
                  else if rest == [] && ToEntry(s.kids[n]) != ToEntry(t.kids[n]) then
                    c == Some(Modified(p, ToEntry(s.kids[n]), ToEntry(t.kids[n])))
                  else c == None)
  {
    hide IdOf, SwitchAbove, Get;
    EntryStep(s, n, rest);
    EntryStep(t, n, rest);
    if rest != [] {
      SwitchStep(s, t, n, rest);
    } else {
      NoSwitchAboveOne(s, t, n);
      assert [n] + rest == [n];
    }
    assert forall x: Node :: ToEntry(x).Dir? <==> x.DirN?;
  }

  lemma NoSwitchAboveOne(s: Tree, t: Tree, n: Name)
    ensures !SwitchAbove(s, t, [n])
  {
  }

  lemma InRemovals(xs: seq<Listed>, c: Change)
    ensures c in Removals(xs) <==> c.Removed? && (c.path, c.entry) in xs
    ensures c in Additions(xs) <==> c.Added? && (c.path, c.entry) in xs
  {
    if c in Removals(xs) {
      var i :| 0 <= i < |xs| && Removals(xs)[i] == c;
    }
    if c in Additions(xs) {
      var i :| 0 <= i < |xs| && Additions(xs)[i] == c;
    }
    if c.Removed? && (c.path, c.entry) in xs {
      var i :| 0 <= i < |xs| && xs[i] == (c.path, c.entry);
      assert Removals(xs)[i] == c;
    }
    if c.Added? && (c.path, c.entry) in xs {
      var i :| 0 <= i < |xs| && xs[i] == (c.path, c.entry);
      assert Additions(xs)[i] == c;
    }
  }

  lemma EqualDirsNoChange(s: Tree, q: Path, p: Path)
    requires q != []
    ensures ChangeAt(s, s, q, p) == None
  {
    hide IdOf, ToEntry, Get;
  }

  lemma {:induction false} NameChangesListed(s: Tree, t: Tree, n: Name, prefix: Path, c: Change)
    ensures c in NameChanges(s, t, n, prefix) <==> ChangeListed(s, t, prefix, c) && c.path[|prefix|] == n
    decreases s, 0
  {
    hide IdOf, ToEntry, Get, SwitchAbove, ChangeAt, Changes, WalkName, Removals, Additions;
    var deeper := prefix + [n];
    var p := c.path;
    UnderMeans(prefix, n, p);
    if Under(prefix, n, p) {
      var rest := p[|prefix| + 1..];
      assert p[|deeper|..] == rest && p[|prefix|..] == [n] + rest;
      assert rest == [] <==> p == deeper;
      ChangeStep(s, t, n, rest, p);
    }
    if n in s.kids && n !in t.kids {
      InRemovals(WalkName(s, n, prefix), c);
      if c.Removed? {
        WalkNameLists(s, n, prefix, (c.path, c.entry));
      }
    } else if n !in s.kids && n in t.kids {
      InRemovals(WalkName(t, n, prefix), c);
      if c.Added? {
        WalkNameLists(t, n, prefix, (c.path, c.entry));
      }
    } else if n in s.kids && s.kids[n].DirN? && t.kids[n].DirN? {
      if ToEntry(s.kids[n]) == ToEntry(t.kids[n]) {
        ToEntryInjective(s.kids[n], t.kids[n]);
        if Under(prefix, n, p) && p != deeper {
          EqualDirsNoChange(s.kids[n].sub, p[|deeper|..], p);
        }
      } else {
        ChangesListed(s.kids[n].sub, t.kids[n].sub, deeper, c);
      }
    }
  }

  lemma {:induction false} NamesChangesListed(s: Tree, t: Tree, names: seq<Name>, prefix: Path, c: Change)
    ensures c in NamesChanges(s, t, names, prefix) <==> ChangeListed(s, t, prefix, c) && c.path[|prefix|] in names
    decreases s, 1, |names|
  {
    hide NameChanges, ChangeAt;
    if names != [] {
      var last := |names| - 1;
      NamesChangesListed(s, t, names[..last], prefix, c);
      NameChangesListed(s, t, names[last], prefix, c);
      assert names == names[..last] + [names[last]];
    }
  }

  lemma ChangedNameExists(s: Tree, t: Tree, prefix: Path, c: Change)
    requires ChangeListed(s, t, prefix, c)
    ensures c.path[|prefix|] in s.kids || c.path[|prefix|] in t.kids
  {
    hide IdOf, ToEntry;
    var q := c.path[|prefix|..];
    assert q[0] == c.path[|prefix|];
  }

  /** Exactness: a change is listed if and only if it is the one change to report at its path. */
  lemma {:induction false} ChangesListed(s: Tree, t: Tree, prefix: Path, c: Change)
    ensures c in Changes(s, t, prefix) <==> ChangeListed(s, t, prefix, c)
    decreases s, 2
  {
    hide NamesChanges, ChangeAt, NewNames, IdOf;
    if s == t {
      if prefix <= c.path && |c.path| > |prefix| {
        EqualDirsNoChange(s, c.path[|prefix|..], c.path);
      }
    } else {
      var names := Names(NodeOf(s)) + NewNames(s, Names(NodeOf(t)));
      NamesChangesListed(s, t, names, prefix, c);
      if ChangeListed(s, t, prefix, c) {
        ChangedNameExists(s, t, prefix, c);
      }
    }
  }

  lemma {:induction false} NameChangesTopDown(s: Tree, t: Tree, n: Name, prefix: Path)
    ensures TopDown(NameChanges(s, t, n, prefix), ChangePath)
    decreases s, 0
  {
    hide IdOf, ToEntry, Changes, WalkName;
    if n in s.kids && n !in t.kids {
      WalkNameTopDown(s, n, prefix);
    } else if n !in s.kids && n in t.kids {
      WalkNameTopDown(t, n, prefix);
    } else if n in s.kids && s.kids[n].DirN? && t.kids[n].DirN? {
      ChangesTopDown(s.kids[n].sub, t.kids[n].sub, prefix + [n]);
    }
  }

  lemma {:induction false} NamesChangesTopDown(s: Tree, t: Tree, names: seq<Name>, prefix: Path)
    requires Distinct(names)
    ensures TopDown(NamesChanges(s, t, names, prefix), ChangePath)
    decreases s, 1, |names|
  {
    hide NameChanges, TopDown, ChangeAt;
    if names != [] {
      var last := |names| - 1;
      NamesChangesTopDown(s, t, names[..last], prefix);
      NameChangesTopDown(s, t, names[last], prefix);
      forall x, y | x in NamesChanges(s, t, names[..last], prefix) && y in NameChanges(s, t, names[last], prefix)
        ensures !(ChangePath(y) <= ChangePath(x))
      {
        NamesChangesListed(s, t, names[..last], prefix, x);
        NameChangesListed(s, t, names[last], prefix, y);
      }
      TopDownConcat(NamesChanges(s, t, names[..last], prefix), NameChanges(s, t, names[last], prefix), ChangePath);
    } else {
      NothingTopDown<Change>(ChangePath);
    }
  }

  lemma {:induction false} NewNamesDistinct(s: Tree, names: seq<Name>)
    requires Distinct(names)
    ensures Distinct(NewNames(s, names))
  {
    if names != [] {
      NewNamesDistinct(s, names[..|names| - 1]);
    }
  }

  lemma DistinctConcat(a: seq<Name>, b: seq<Name>)
    requires Distinct(a) && Distinct(b) && forall n | n in a :: n !in b
    ensures Distinct(a + b)
  {
    var ab := a + b;
    forall i, j | 0 <= i < j < |ab|
      ensures ab[i] != ab[j]
    {
      if i < |a| <= j {
        assert ab[i] in a && ab[j] in b;
      }
    }
  }

  /** A diff lists no path twice, and a path before everything beneath it. */
  lemma {:induction false} ChangesTopDown(s: Tree, t: Tree, prefix: Path)
    ensures TopDown(Changes(s, t, prefix), ChangePath)
    decreases s, 2
  {
    hide NamesChanges, IdOf;
    if s != t {
      NamesDistinct(NodeOf(s));
      NamesDistinct(NodeOf(t));
      NewNamesDistinct(s, Names(NodeOf(t)));
      hide NewNames, Names;
      DistinctConcat(Names(NodeOf(s)), NewNames(s, Names(NodeOf(t))));
      NamesChangesTopDown(s, t, Names(NodeOf(s)) + NewNames(s, Names(NodeOf(t))), prefix);
    }
  }

  /** No path is a directory on one side and something else on the other. */
  ghost predicate NoSwitches(s: Tree, t: Tree) {
    forall q | q != [] :: !SwitchAt(s, t, q)
  }

  /** Where no path changes kind, the diff lists precisely the paths whose existence or leaf entry differs. */
  lemma DiffListsDifferences(s: Tree, t: Tree, q: Path)
    requires NoSwitches(s, t) && q != []
    ensures (exists c :: c in Changes(s, t, []) && c.path == q) <==>
              (Get(s, q).Some? != Get(t, q).Some?
               || (Get(s, q).Some? && !Get(s, q).value.DirN? && Get(s, q) != Get(t, q)))
  {
    hide IdOf, Changes;
    assert q[0..] == q;
    forall c | c in Changes(s, t, []) && c.path == q
      ensures ChangeAt(s, t, q, q) == Some(c)
    {
      ChangesListed(s, t, [], c);
    }
    if ChangeAt(s, t, q, q).Some? {
      ChangesListed(s, t, [], ChangeAt(s, t, q, q).value);
    }
    hide Get;
    if Get(s, q).Some? && Get(t, q).Some? {
      assert !SwitchAt(s, t, q);
      if ToEntry(Get(s, q).value) == ToEntry(Get(t, q).value) {
        ToEntryInjective(Get(s, q).value, Get(t, q).value);
      }
    }
  }
}
