/** Two roots are one exactly when nothing tells their trees apart. */
module Canonicity {
  import opened Base
  import opened Paths
  import opened State
  import opened Trees
  import opened TreeOps
  import opened Nodes

  /** Root ids are equal exactly when the two trees show the same thing at every path. */
  lemma SameRootSameMap(s: Tree, t: Tree)
    ensures IdOf(s) == IdOf(t) <==> forall p | p != [] :: Look(s, p) == Look(t, p)
  {
    hide IdOf, Look;
    IdInjective(s, t);
    if forall p | p != [] :: Look(s, p) == Look(t, p) {
      Extensional(s, t);
    }
  }

  /** A tree's root is the empty root exactly when nothing is left in it. */
  lemma NothingLeft(t: Tree)
    ensures IdOf(t) == EMPTY_ID <==> forall p | p != [] :: Look(t, p) == None
  {
    hide IdOf, Look;
    EmptyTreeId();
    SameRootSameMap(t, EMPTY);
    forall p | p != []
      ensures Look(EMPTY, p) == None
    {
      LookEmpty(p);
    }
  }

  // ---- histories of edits ----

  /** One edit of a history. */
  datatype TreeEdit = Put(path: Path, node: Node) | Take(path: Path)

  function EditOnce(t: Tree, e: TreeEdit): Result<Tree> {
    match e
    case Put(p, n) => Insert(t, p, n)
    case Take(p) => Remove(t, p)
  }

  /** What a history makes of a tree; an edit that fails changes nothing. */
  function Edited(t: Tree, edits: seq<TreeEdit>): Tree
    decreases |edits|
  {
    if edits == [] then t
    else
      var s := Edited(t, edits[..|edits| - 1]);
      var r := EditOnce(s, edits[|edits| - 1]);
      if r.Ok? then r.value else s
  }

  // ---- histories on maps ----

  /** What a tree shows, as a function from paths. */
  ghost function LookOf(t: Tree): Path -> Option<Node> {
    (p: Path) => if p == [] then None else Look(t, p)
  }

  /** Something that is no directory lies above `p`. */
  ghost predicate Blocked(look: Path -> Option<Node>, p: Path) {
    exists i :: 0 < i < |p| && look(p[..i]).Some? && !look(p[..i]).value.DirN?
  }

  /** One edit on a map from paths to entries, without any tree. */
  ghost function EditedLook(look: Path -> Option<Node>, e: TreeEdit, q: Path): Option<Node> {
    match e
    case Put(p, n) =>
      if p == [] || Blocked(look, p) then look(q)
      else if p <= q then LookIn(n, q[|p|..])
      else if q <= p && look(q) == None then Some(FRESH_DIR)
      else look(q)
    case Take(p) => if p != [] && look(p).Some? && p <= q then None else look(q)
  }

  /** A history on a map from paths to entries, from the edits alone. */
  ghost function HistoryLook(look: Path -> Option<Node>, edits: seq<TreeEdit>, q: Path): Option<Node>
    decreases |edits|
  {
    if edits == [] then look(q)
    else EditedLook(p => HistoryLook(look, edits[..|edits| - 1], p), edits[|edits| - 1], q)
  }

  /** One edit of a tree does to its map what the edit does to maps. */
  lemma EditShows(t: Tree, look: Path -> Option<Node>, e: TreeEdit, q: Path)
    requires q != [] && forall p | p != [] :: look(p) == Look(t, p)
    ensures var r := EditOnce(t, e);
            Look(if r.Ok? then r.value else t, q) == EditedLook(look, e, q)
  {
    hide Look, Get, Insertable, Insert, Remove;
    match e
    case Put(p, n) =>
      InsertRoot(t, n);
      if p != [] {
        InsertSucceeds(t, p, n);
        BlockedIs(t, look, p);
        if Insert(t, p, n).Ok? {
          InsertLook(t, p, n, q);
        }
      }
    case Take(p) =>
      RemoveRoot(t);
      if p != [] {
        RemoveSucceeds(t, p);
        LookIsGet(t, p);
        if Remove(t, p).Ok? {
          RemoveLook(t, p, q);
        }
      }
  }

  lemma InsertRoot(t: Tree, n: Node)
    ensures Insert(t, [], n).Err?
  {
  }

  lemma RemoveRoot(t: Tree)
    ensures Remove(t, []).Err?
  {
  }

  lemma LookIsGet(t: Tree, p: Path)
    requires p != []
    ensures Look(t, p).Some? <==> Get(t, p).Some?
    ensures Look(t, p).Some? ==> (Look(t, p).value.DirN? <==> Get(t, p).value.DirN?)
  {
  }

  lemma BlockedIs(t: Tree, look: Path -> Option<Node>, p: Path)
    requires p != [] && forall q | q != [] :: look(q) == Look(t, q)
    ensures Blocked(look, p) <==> !Insertable(t, p)
  {
    hide Look, Get;
    forall i | 0 < i < |p|
      ensures look(p[..i]).Some? <==> Get(t, p[..i]).Some?
      ensures look(p[..i]).Some? ==> (look(p[..i]).value.DirN? <==> Get(t, p[..i]).value.DirN?)
    {
      LookIsGet(t, p[..i]);
    }
  }

  /** A history of a tree shows at every path what the history makes of the tree's map. */
  lemma {:induction false} HistoryShows(t: Tree, edits: seq<TreeEdit>, q: Path)
    requires q != []
    ensures Look(Edited(t, edits), q) == HistoryLook(LookOf(t), edits, q)
    decreases |edits|
  {
    hide Look, EditOnce, EditedLook;
    if edits != [] {
      var before := edits[..|edits| - 1];
      forall p | p != []
        ensures Look(Edited(t, before), p) == HistoryLook(LookOf(t), before, p)
      {
        HistoryShows(t, before, p);
      }
      EditShows(Edited(t, before), p => HistoryLook(LookOf(t), before, p), edits[|edits| - 1], q);
    }
  }

  /** Two histories, each over its own tree, make the same map. */
  ghost predicate OneMap(t: Tree, a: seq<TreeEdit>, u: Tree, b: seq<TreeEdit>) {
    forall q | q != [] :: HistoryLook(LookOf(t), a, q) == HistoryLook(LookOf(u), b, q)
  }

  /** Whatever two histories did, they arrive at one root exactly when they arrive at one map. */
  lemma HistoriesMeet(t: Tree, a: seq<TreeEdit>, u: Tree, b: seq<TreeEdit>)
    ensures IdOf(Edited(t, a)) == IdOf(Edited(u, b)) <==> OneMap(t, a, u, b)
  {
    hide IdOf, Look, Edited, HistoryLook, LookOf;
    var s, v := Edited(t, a), Edited(u, b);
    SameRootSameMap(s, v);
    forall q | q != []
      ensures Look(s, q) == HistoryLook(LookOf(t), a, q) && Look(v, q) == HistoryLook(LookOf(u), b, q)
    {
      HistoryShows(t, a, q);
      HistoryShows(u, b, q);
    }
    if OneMap(t, a, u, b) {
      forall q | q != []
        ensures Look(s, q) == Look(v, q)
      {
        assert HistoryLook(LookOf(t), a, q) == HistoryLook(LookOf(u), b, q);
      }
    }
    if IdOf(s) == IdOf(v) {
      forall q | q != []
        ensures HistoryLook(LookOf(t), a, q) == HistoryLook(LookOf(u), b, q)
      {
        assert Look(s, q) == Look(v, q);
      }
    }
  }

  // ---- what a history writes ----

  /** The nodes after a history: each successful edit adds those on its route. */
  ghost function Wrote(nodes: NodeMap, t: Tree, edits: seq<TreeEdit>): NodeMap
    decreases |edits|
  {
    if edits == [] then nodes
    else
      var before, e := edits[..|edits| - 1], edits[|edits| - 1];
      var r := EditOnce(Edited(t, before), e);
      Wrote(nodes, t, before) + if r.Ok? then RouteNodes(r.value, e.path) else map[]
  }

  /** The path components of the edits that succeed. */
  ghost function Components(t: Tree, edits: seq<TreeEdit>): nat
    decreases |edits|
  {
    if edits == [] then 0
    else
      var before, e := edits[..|edits| - 1], edits[|edits| - 1];
      Components(t, before) + if EditOnce(Edited(t, before), e).Ok? then |e.path| else 0
  }

  /** Subtrees that the history attaches are stored from the start. */
  ghost predicate Attachable(nodes: NodeMap, edits: seq<TreeEdit>) {
    forall e <- edits :: e.Put? && e.node.DirN? ==> Stored(nodes, e.node.sub)
  }

  /** One edit more: what it writes, and that the new tree can be read. */
  lemma WroteOne(nodes: NodeMap, t: Tree, e: TreeEdit)
    requires Coherent(nodes) && Stored(nodes, t) && (e.Put? && e.node.DirN? ==> Stored(nodes, e.node.sub))
    ensures var r := EditOnce(t, e);
            r.Ok? ==>
              var more := nodes + RouteNodes(r.value, e.path);
              && Coherent(more) && Stored(more, r.value) && |more| <= |nodes| + |e.path|
  {
    hide IdOf, NodeOf, Stored, Insert, Remove, RouteNodes, Coherent;
    var r := EditOnce(t, e);
    if r.Ok? {
      match e {
        case Put(p, n) =>
          InsertRoot(t, n);
          InsertStored(nodes, t, p, n);
        case Take(p) =>
          RemoveRoot(t);
          RemoveStored(nodes, t, p);
      }
      RouteCoherent(r.value, e.path);
      UnionCoherent(nodes, RouteNodes(r.value, e.path));
      RouteIsShort(r.value, e.path);
      UnionSize(nodes, RouteNodes(r.value, e.path));
    }
  }

  lemma UnionSize(a: NodeMap, b: NodeMap)
    ensures |a + b| <= |a| + |b|
  {
    assert (a + b).Keys == a.Keys + b.Keys;
    assert |a + b| == |(a + b).Keys| && |a| == |a.Keys| && |b| == |b.Keys|;
  }

  /** Two sound maps never disagree about a node, so adding to one changes none that was there. */
  lemma SameNodes(nodes: NodeMap, more: NodeMap)
    requires Coherent(nodes) && Coherent(more) && nodes.Keys <= more.Keys
    ensures forall id | id in nodes :: more[id] == nodes[id]
  {
    hide DirDigest;
    forall id | id in nodes
      ensures more[id] == nodes[id]
    {
      DirDigestInjective(more[id], nodes[id]);
    }
  }

  /**
   * Through any history every node that was there is there as it was, so every root that could be read still reads
   * as the same tree; the edited tree can be read as well; and the history wrote at most one node for each path
   * component of its successful edits.
   */
  lemma {:induction false} OldRootsStay(nodes: NodeMap, t: Tree, edits: seq<TreeEdit>, kept: Tree)
    requires Coherent(nodes) && Stored(nodes, t) && Stored(nodes, kept) && Attachable(nodes, edits)
    ensures var after := Wrote(nodes, t, edits);
            && Coherent(after) && nodes.Keys <= after.Keys && (forall id | id in nodes :: after[id] == nodes[id])
            && Stored(after, kept) && Stored(after, Edited(t, edits))
            && |after| <= |nodes| + Components(t, edits)
    decreases |edits|
  {
    hide IdOf, NodeOf, Stored, EditOnce, RouteNodes, Coherent;
    if edits != [] {
      var before, e := edits[..|edits| - 1], edits[|edits| - 1];
      OldRootsStay(nodes, t, before, kept);
      var now, s := Wrote(nodes, t, before), Edited(t, before);
      assert e in edits;
      if e.Put? && e.node.DirN? {
        StoredGrows(nodes, now, e.node.sub);
      }
      WroteOne(now, s, e);
      NothingAdded(now);
      StoredGrows(nodes, Wrote(nodes, t, edits), kept);
    }
    SameNodes(nodes, Wrote(nodes, t, edits));
  }

  lemma NothingAdded(nodes: NodeMap)
    ensures nodes + map[] == nodes
  {
  }

  // ---- running a history ----

  /** An edit as the writer is asked for it: with the entry in place of the node. */
  datatype EditCall = PutEntry(path: Path, entry: Entry) | TakePath(path: Path)

  ghost predicate Calls(calls: seq<EditCall>, edits: seq<TreeEdit>) {
    |calls| == |edits| && forall i | 0 <= i < |calls| :: CallFor(calls[i], edits[i])
  }

  ghost predicate CallFor(call: EditCall, e: TreeEdit) {
    match e
    case Put(p, n) => call == PutEntry(p, ToEntry(n))
    case Take(p) => call == TakePath(p)
  }

  /** A history through the writer, edit by edit: it ends at the edited tree's root, having written what it should. */
  method RunHistory(nodes: NodeMap, root: NodeId, calls: seq<EditCall>, ghost t: Tree, ghost edits: seq<TreeEdit>)
    returns (nodes': NodeMap, root': NodeId)
    requires Coherent(nodes) && Stored(nodes, t) && root == IdOf(t) && Attachable(nodes, edits) && Calls(calls, edits)
    ensures nodes' == Wrote(nodes, t, edits) && root' == IdOf(Edited(t, edits))
  {
    hide IdOf, NodeOf, Stored, EditOnce, RouteNodes, Coherent, CallFor;
    nodes', root' := nodes, root;
    assert edits[..0] == [];
    for i := 0 to |calls|
      invariant nodes' == Wrote(nodes, t, edits[..i]) && root' == IdOf(Edited(t, edits[..i]))
    {
      OldRootsStay(nodes, t, edits[..i], t);
      assert edits[..i + 1][..i] == edits[..i] && edits[i] in edits;
      if edits[i].Put? && edits[i].node.DirN? {
        StoredGrows(nodes, nodes', edits[i].node.sub);
      }
      NothingAdded(nodes');
      nodes', root' := RunEdit(nodes', root', calls[i], Edited(t, edits[..i]), edits[i]);
    }
    assert edits[..|calls|] == edits;
  }

  /** One edit: its new nodes join the old ones, or it fails and nothing changes. */
  method RunEdit(nodes: NodeMap, root: NodeId, call: EditCall, ghost t: Tree, ghost e: TreeEdit)
    returns (nodes': NodeMap, root': NodeId)
    requires Coherent(nodes) && Stored(nodes, t) && root == IdOf(t) && CallFor(call, e)
    ensures var r := EditOnce(t, e);
            if r.Ok? then nodes' == nodes + RouteNodes(r.value, e.path) && root' == IdOf(r.value)
            else nodes' == nodes && root' == root
  {
    hide IdOf, NodeOf, Stored, Insert, Remove, RouteNodes, ToEntry;
    var w := new TreeWriter(nodes);
    NothingAdded(nodes);
    StoredIsLoaded(nodes, t, call.path);
    var r;
    match call {
      case PutEntry(p, entry) => r := w.InsertPath(t, root, p, e.node, entry);
      case TakePath(p) => r := w.RemovePath(t, root, p);
    }
    if r.Err? {
      return nodes, root;
    }
    StartsEmpty(RouteNodes(EditOnce(t, e).value, e.path));
    nodes', root' := nodes + w.newNodes, r.value;
  }

  lemma StartsEmpty(nodes: NodeMap)
    ensures map[] + nodes == nodes
  {
  }
}
