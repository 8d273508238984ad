/** Walking a tree, and comparing two trees while skipping subtrees with equal digests. */
module Diff {
  import opened Base
  import opened Paths
  import opened Canonical
  import opened State
  import opened Trees
  import opened Nodes

  type Listed = (Path, Entry)

  datatype Change =
    | Added(path: Path, entry: Entry)
    | Removed(path: Path, entry: Entry)
    | Modified(path: Path, before: Entry, after: Entry)

  // ---- what a walk lists ----

  /** One name of a node, then everything beneath it. */
  ghost function WalkName(t: Tree, n: Name, prefix: Path): seq<Listed>
    requires n in t.kids
    decreases t, 0, 0
  {
    [(prefix + [n], ToEntry(t.kids[n]))] + if t.kids[n].DirN? then Walked(t.kids[n].sub, prefix + [n]) else []
  }

  ghost function WalkNames(t: Tree, names: seq<Name>, prefix: Path): seq<Listed>
    requires forall n <- names :: n in t.kids
    decreases t, 1, |names|
  {
    if names == [] then []
    else
      var last := |names| - 1;
      WalkNames(t, names[..last], prefix) + WalkName(t, names[last], prefix)
  }

  /** Everything beneath a node, in name order, directories before their contents. */
  ghost function Walked(t: Tree, prefix: Path): seq<Listed>
    decreases t, 2, 0
  {
    WalkNames(t, Names(NodeOf(t)), prefix)
  }

  lemma NamesAppend(t: Tree, names: seq<Name>, i: nat, prefix: Path)
    requires i < |names| && forall n <- names :: n in t.kids
    ensures WalkNames(t, names[..i + 1], prefix) == WalkNames(t, names[..i], prefix) + WalkName(t, names[i], prefix)
  {
    hide WalkName;
    assert names[..i + 1][..i] == names[..i];
  }

  /** `walk_into`: append everything beneath `id` to `out`; fails only when a node is missing. */
  method WalkInto(nodes: NodeMap, ghost t: Tree, id: NodeId, prefix: Path, out: seq<Listed>)
    returns (r: Result<seq<Listed>>)
    requires Coherent(nodes) && id == IdOf(t)
    ensures r == Ok(out + Walked(t, prefix)) || (r == Err(NotFound) && !Stored(nodes, t))
    decreases t
  {
    hide IdOf, NodeOf, DirDigest, Coherent, WalkNames, WalkName;
    ResolveTree(nodes, t);
    var found := Resolve(nodes, id);
    if found.Err? {
      return Err(found.error);
    }
    var node := found.value;
    var names := Names(node);
    var acc := out;
    NoNames(t, names, prefix);
    for i := 0 to |names|
      invariant acc == out + WalkNames(t, names[..i], prefix)
    {
      var n := names[i];
      NodeOfAt(t, n);
      NamesAppend(t, names, i, prefix);
      WalkNameIs(t, n, prefix);
      Assoc(out, WalkNames(t, names[..i], prefix), WalkName(t, n, prefix));
      ghost var sofar := acc;
      acc := acc + [(prefix + [n], node[n])];
      match node[n]
      case Dir(_, child) =>
        var deeper := WalkInto(nodes, t.kids[n].sub, child, prefix + [n], acc);
        if deeper.Err? {
          return deeper;
        }
        Assoc(sofar, [(prefix + [n], node[n])], Walked(t.kids[n].sub, prefix + [n]));
        acc := deeper.value;
      case File(_, _, _, _) =>
      case Sym(_, _) =>
    }
    assert names[..|names|] == names;
    r := Ok(acc);
  }

  lemma NoNames(t: Tree, names: seq<Name>, prefix: Path)
    ensures WalkNames(t, names[..0], prefix) == []
  {
  }

  lemma WalkNameIs(t: Tree, n: Name, prefix: Path)
    requires n in t.kids
    ensures var head := (prefix + [n], ToEntry(t.kids[n]));
            WalkName(t, n, prefix) == if t.kids[n].DirN? then [head] + Walked(t.kids[n].sub, prefix + [n]) else [head]
    ensures ToEntry(t.kids[n]).Dir? <==> t.kids[n].DirN?
    ensures t.kids[n].DirN? ==> ToEntry(t.kids[n]).node == IdOf(t.kids[n].sub)
  {
  }

  // ---- what a diff lists ----

  ghost function Removals(xs: seq<Listed>): seq<Change> {
    seq(|xs|, i requires 0 <= i < |xs| => Removed(xs[i].0, xs[i].1))
  }

  ghost function Additions(xs: seq<Listed>): seq<Change> {
    seq(|xs|, i requires 0 <= i < |xs| => Added(xs[i].0, xs[i].1))
  }

  /** The changes at and beneath one name. */
  ghost function NameChanges(s: Tree, t: Tree, n: Name, prefix: Path): seq<Change>
    decreases s, 0, 0
  {
    if n in s.kids && n !in t.kids then Removals(WalkName(s, n, prefix))
    else if n !in s.kids && n in t.kids then Additions(WalkName(t, n, prefix))
    else if n !in s.kids || ToEntry(s.kids[n]) == ToEntry(t.kids[n]) then []
    else if s.kids[n].DirN? && t.kids[n].DirN? then Changes(s.kids[n].sub, t.kids[n].sub, prefix + [n])
    else [Modified(prefix + [n], ToEntry(s.kids[n]), ToEntry(t.kids[n]))]
  }

  ghost function NamesChanges(s: Tree, t: Tree, names: seq<Name>, prefix: Path): seq<Change>
    decreases s, 1, |names|
  {
    if names == [] then []
    else
      var last := |names| - 1;
      NamesChanges(s, t, names[..last], prefix) + NameChanges(s, t, names[last], prefix)
  }

  /** Names of the second node that the first does not have, in order. */
  ghost function NewNames(s: Tree, names: seq<Name>): (r: seq<Name>)
    ensures forall n :: n in r <==> n in names && n !in s.kids
  {
    if names == [] then []
    else
      var last := |names| - 1;
      NewNames(s, names[..last]) + if names[last] in s.kids then [] else [names[last]]
  }

  /** All changes between two nodes: the first one's names, then the second one's own. */
  ghost function Changes(s: Tree, t: Tree, prefix: Path): seq<Change>
    decreases s, 2, 0
  {
    if s == t then []
    else NamesChanges(s, t, Names(NodeOf(s)) + NewNames(s, Names(NodeOf(t))), prefix)
  }

  lemma ChangesAppend(s: Tree, t: Tree, names: seq<Name>, n: Name, prefix: Path)
    ensures NamesChanges(s, t, names + [n], prefix) == NamesChanges(s, t, names, prefix) + NameChanges(s, t, n, prefix)
  {
    hide NameChanges;
    assert (names + [n])[..|names|] == names;
  }

  lemma RemovalsConcat(a: seq<Listed>, b: seq<Listed>)
    ensures Removals(a + b) == Removals(a) + Removals(b) && Additions(a + b) == Additions(a) + Additions(b)
  {
  }

  method Mark(out: seq<Change>, xs: seq<Listed>, removed: bool) returns (r: seq<Change>)
    ensures r == out + if removed then Removals(xs) else Additions(xs)
  {
    r := out;
    for i := 0 to |xs|
      invariant r == out + if removed then Removals(xs[..i]) else Additions(xs[..i])
    {
      assert xs[..i + 1] == xs[..i] + [xs[i]];
      RemovalsConcat(xs[..i], [xs[i]]);
      var c := if removed then Removed(xs[i].0, xs[i].1) else Added(xs[i].0, xs[i].1);
      assert Removals([xs[i]]) == [Removed(xs[i].0, xs[i].1)] && Additions([xs[i]]) == [Added(xs[i].0, xs[i].1)];
      Assoc(out, if removed then Removals(xs[..i]) else Additions(xs[..i]), [c]);
      r := r + [c];
    }
    assert xs[..|xs|] == xs;
  }

  /** One whole side of a name that the other side does not have. */
  method OneSided(nodes: NodeMap, ghost t: Tree, n: Name, entry: Entry, prefix: Path, out: seq<Change>,
                  removed: bool) returns (r: Result<seq<Change>>)
    requires Coherent(nodes) && n in t.kids && entry == ToEntry(t.kids[n])
    ensures r == Ok(out + if removed then Removals(WalkName(t, n, prefix)) else Additions(WalkName(t, n, prefix)))
            || (r == Err(NotFound) && !Stored(nodes, t))
  {
    hide IdOf, NodeOf, DirDigest, Coherent, Walked, WalkName, Removals, Additions;
    WalkNameIs(t, n, prefix);
    var head := (prefix + [n], entry);
    var acc := Mark(out, [head], removed);
    match entry {
      case Dir(_, child) =>
        var sub := WalkInto(nodes, t.kids[n].sub, child, prefix + [n], []);
        if sub.Err? {
          return Err(sub.error);
        }
        assert [] + Walked(t.kids[n].sub, prefix + [n]) == Walked(t.kids[n].sub, prefix + [n]);
        ghost var rest := sub.value;
        RemovalsConcat([head], rest);
        Assoc(out, if removed then Removals([head]) else Additions([head]),
            if removed then Removals(rest) else Additions(rest));
        acc := Mark(acc, sub.value, removed);
      case File(_, _, _, _) =>
      case Sym(_, _) =>
    }
    r := Ok(acc);
  }

  /** `diff_into`: append the changes between two nodes to `out`; fails only when a node is missing. */
  method DiffInto(nodes: NodeMap, ghost s: Tree, ghost t: Tree, before: NodeId, after: NodeId, prefix: Path,
                  out: seq<Change>)
    returns (r: Result<seq<Change>>)
    requires Coherent(nodes) && before == IdOf(s) && after == IdOf(t)
    ensures r == Ok(out + Changes(s, t, prefix)) || (r == Err(NotFound) && !(Stored(nodes, s) && Stored(nodes, t)))
    decreases s
  {
    hide IdOf, NodeOf, DirDigest, Coherent, NamesChanges, NameChanges, WalkName, Removals, Additions, NewNames;
    IdInjective(s, t);
    assert out + [] == out;
    if before == after {
      return Ok(out);
    }
    ResolveTree(nodes, s);
    ResolveTree(nodes, t);
    var oldNode := Resolve(nodes, before);
    if oldNode.Err? {
      return Err(oldNode.error);
    }
    var newNode := Resolve(nodes, after);
    if newNode.Err? {
      return Err(newNode.error);
    }
    var acc := out;
    var oldNames := Names(oldNode.value);
    NoChanges(s, t, prefix);
    assert oldNames[..0] == [];
    for i := 0 to |oldNames|
      invariant acc == out + NamesChanges(s, t, oldNames[..i], prefix)
    {
      var n := oldNames[i];
      NodeOfAt(s, n);
      assert oldNames[..i + 1] == oldNames[..i] + [n];
      ChangesAppend(s, t, oldNames[..i], n, prefix);
      Assoc(out, NamesChanges(s, t, oldNames[..i], prefix), NameChanges(s, t, n, prefix));
      var step := DiffName(nodes, s, t, n, oldNode.value[n], newNode.value, prefix, acc);
      if step.Err? {
        return step;
      }
      acc := step.value;
    }
    assert oldNames[..|oldNames|] == oldNames;
    r := NewSide(nodes, s, t, oldNode.value, newNode.value, prefix, out, acc);
  }

  /** What the second loop has made of `out` after `i` rounds. */
  ghost function Sofar(s: Tree, t: Tree, oldNames: seq<Name>, newNames: seq<Name>, i: nat, prefix: Path,
                       out: seq<Change>): seq<Change>
    requires i <= |newNames|
  {
    out + NamesChanges(s, t, oldNames + NewNames(s, newNames[..i]), prefix)
  }

  lemma SofarEnds(s: Tree, t: Tree, oldNames: seq<Name>, newNames: seq<Name>, prefix: Path, out: seq<Change>)
    ensures Sofar(s, t, oldNames, newNames, 0, prefix, out) == out + NamesChanges(s, t, oldNames, prefix)
    ensures Sofar(s, t, oldNames, newNames, |newNames|, prefix, out)
              == out + NamesChanges(s, t, oldNames + NewNames(s, newNames), prefix)
  {
    hide NamesChanges;
    assert newNames[..0] == [] && newNames[..|newNames|] == newNames;
    assert oldNames + [] == oldNames;
  }

  /** What one round of the second loop adds. */
  lemma SofarStep(s: Tree, t: Tree, oldNames: seq<Name>, newNames: seq<Name>, i: nat, prefix: Path, out: seq<Change>)
    requires i < |newNames| && newNames[i] in t.kids
    ensures Sofar(s, t, oldNames, newNames, i + 1, prefix, out) ==
            if newNames[i] in s.kids then Sofar(s, t, oldNames, newNames, i, prefix, out)
            else Sofar(s, t, oldNames, newNames, i, prefix, out) + Additions(WalkName(t, newNames[i], prefix))
  {
    hide NamesChanges, NameChanges, WalkName, Additions, NewNames;
    var n := newNames[i];
    var sofar := oldNames + NewNames(s, newNames[..i]);
    NewNamesAppend(s, newNames, i);
    assert NewNames(s, newNames[..i]) + [] == NewNames(s, newNames[..i]);
    if n !in s.kids {
      Assoc(oldNames, NewNames(s, newNames[..i]), [n]);
      ChangesAppend(s, t, sofar, n, prefix);
      Assoc(out, NamesChanges(s, t, sofar, prefix), NameChanges(s, t, n, prefix));
      OnlyNew(s, t, n, prefix);
    }
  }

  /** The second loop: names that only the second node has. */
  method NewSide(nodes: NodeMap, ghost s: Tree, ghost t: Tree, oldNode: DirNode, newNode: DirNode, prefix: Path,
                 ghost out: seq<Change>, start: seq<Change>) returns (r: Result<seq<Change>>)
    requires Coherent(nodes) && oldNode == NodeOf(s) && newNode == NodeOf(t)
    requires start == out + NamesChanges(s, t, Names(oldNode), prefix)
    ensures r == Ok(out + NamesChanges(s, t, Names(oldNode) + NewNames(s, Names(newNode)), prefix))
            || (r == Err(NotFound) && !Stored(nodes, t))
  {
    hide IdOf, NodeOf, DirDigest, Coherent, NamesChanges, NameChanges, WalkName, Removals, Additions, NewNames, Sofar;
    ghost var oldNames := Names(oldNode);
    var newNames := Names(newNode);
    var acc := start;
    SofarEnds(s, t, oldNames, newNames, prefix, out);
    for i := 0 to |newNames|
      invariant acc == Sofar(s, t, oldNames, newNames, i, prefix, out)
    {
      var n := newNames[i];
      NodeOfAt(s, n);
      NodeOfAt(t, n);
      SofarStep(s, t, oldNames, newNames, i, prefix, out);
      if n in oldNode {
        continue;
      }
      var step := OneSided(nodes, t, n, newNode[n], prefix, acc, false);
      if step.Err? {
        return step;
      }
      acc := step.value;
    }
    r := Ok(acc);
  }

  lemma NoChanges(s: Tree, t: Tree, prefix: Path)
    ensures NamesChanges(s, t, [], prefix) == []
  {
  }

  lemma NewNamesAppend(s: Tree, names: seq<Name>, i: nat)
    requires i < |names|
    ensures NewNames(s, names[..i + 1]) == NewNames(s, names[..i]) + if names[i] in s.kids then [] else [names[i]]
  {
    assert names[..i + 1][..i] == names[..i];
  }

  lemma OnlyNew(s: Tree, t: Tree, n: Name, prefix: Path)
    requires n !in s.kids && n in t.kids
    ensures NameChanges(s, t, n, prefix) == Additions(WalkName(t, n, prefix))
  {
  }

  /** One round of the first loop. */
  method DiffName(nodes: NodeMap, ghost s: Tree, ghost t: Tree, n: Name, oldEntry: Entry, newNode: DirNode,
                  prefix: Path, out: seq<Change>)
    returns (r: Result<seq<Change>>)
    requires Coherent(nodes) && n in s.kids && oldEntry == ToEntry(s.kids[n]) && newNode == NodeOf(t)
    ensures r == Ok(out + NameChanges(s, t, n, prefix))
              || (r == Err(NotFound) && !(Stored(nodes, s) && Stored(nodes, t)))
    decreases s, 0
  {
    hide IdOf, NodeOf, DirDigest, Coherent, WalkName, Removals, Additions, Changes;
    NodeOfAt(t, n);
    if n !in newNode {
      r := OneSided(nodes, s, n, oldEntry, prefix, out, true);
      return;
    }
    var newEntry := newNode[n];
    assert out + [] == out;
    if newEntry == oldEntry {
      return Ok(out);
    }
    WalkNameIs(s, n, prefix);
    WalkNameIs(t, n, prefix);
    if oldEntry.Dir? && newEntry.Dir? {
      r := DiffInto(nodes, s.kids[n].sub, t.kids[n].sub, oldEntry.node, newEntry.node, prefix + [n], out);
    } else {
      r := Ok(out + [Modified(prefix + [n], oldEntry, newEntry)]);
    }
  }

  /** `diff`. */
  method DiffRoots(nodes: NodeMap, ghost s: Tree, ghost t: Tree, before: NodeId, after: NodeId)
    returns (r: Result<seq<Change>>)
    requires Coherent(nodes) && before == IdOf(s) && after == IdOf(t)
    ensures r == Ok(Changes(s, t, [])) || (r == Err(NotFound) && !(Stored(nodes, s) && Stored(nodes, t)))
  {
    hide IdOf, Changes;
    r := DiffInto(nodes, s, t, before, after, [], []);
    assert [] + Changes(s, t, []) == Changes(s, t, []);
  }
}
