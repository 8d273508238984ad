/**
 * Directory nodes and the finite trees they represent.
 *
 * A `DirNode` refers to its subdirectories by digest; a `Tree` is the finite tree such a node stands
 * for. `IdOf` gives the digest of a tree's root node, and it is injective.
 */
module Trees {
  import opened Base
  import opened Paths
  import opened Canonical
  import opened State

  datatype Meta = Meta(mode: u32, uid: u32, gid: u32)

  const FILE_META := Meta(0x1a4, 0, 0)  // 0o644
  const DIR_META := Meta(0x1ed, 0, 0)   // 0o755

  datatype Entry =
    | Dir(meta: Meta, node: NodeId)
    | File(meta: Meta, size: nat, extents: seq<Extent>, links: seq<Path>)
    | Sym(meta: Meta, target: Str)

  type DirNode = map<Name, Entry>

  type NodeMap = map<NodeId, DirNode>

  /** What a directory entry stands for: a subdirectory is its whole subtree. */
  datatype Node =
    | DirN(meta: Meta, sub: Tree)
    | FileN(meta: Meta, size: nat, extents: seq<Extent>, links: seq<Path>)
    | SymN(meta: Meta, target: Str)

  datatype Tree = Tree(kids: map<Name, Node>)

  const EMPTY := Tree(map[])

  // ---- encoding and digest of one node ----

  const ENTRY_ENCODING_VERSION: byte := 1

  function MetaCells(m: Meta): seq<Cell> {
    U32(m.mode) + (U32(m.uid) + U32(m.gid))
  }

  function EntryTag(e: Entry): byte {
    match e
    case Dir(_, _) => 0
    case File(_, _, _, _) => 1
    case Sym(_, _) => 2
  }

  function EntryBody(e: Entry): seq<Cell> {
    match e
    case Dir(_, node) => [Raw(node)]
    case File(_, size, extents, links) => U64(size) + (SeqCells(extents, ExtentCells) + SeqCells(links, PathCells))
    case Sym(_, target) => Bytes(target)
  }

  function EntryCells(e: Entry): seq<Cell> {
    [Byte(ENTRY_ENCODING_VERSION), Byte(EntryTag(e))] + (MetaCells(e.meta) + EntryBody(e))
  }

  function NamedCells(ne: (Name, Entry)): seq<Cell> {
    Bytes(ne.0) + EntryCells(ne.1)
  }

  function NameKey(n: Name): seq<int> {
    n
  }

  lemma NameKeyInjective(s: set<Name>)
    ensures InjectiveOn(s, NameKey)
  {
  }

  /** The names of a node in `BTreeMap` order. */
  function Names(node: DirNode): (r: seq<Name>)
    ensures forall n :: n in r <==> n in node
  {
    NameKeyInjective(node.Keys);
    SortedBy(node.Keys, NameKey)
  }

  function NodeCells(node: DirNode): seq<Cell> {
    SeqCells(Pairs(node, Names(node)), NamedCells)
  }

  function DirDigest(node: DirNode): NodeId {
    DomainDigest(DirNodeKind, NodeCells(node))
  }

  function EntryDigest(e: Entry): Digest {
    DomainDigest(TreeEntryKind, EntryCells(e))
  }

  const EMPTY_ID: NodeId := DirDigest(map[])

  lemma MetaCancel(a: Meta, x: seq<Cell>, b: Meta, y: seq<Cell>)
    requires MetaCells(a) + x == MetaCells(b) + y
    ensures a == b && x == y
  {
    Assoc(U32(a.mode), U32(a.uid) + U32(a.gid), x);
    Assoc(U32(b.mode), U32(b.uid) + U32(b.gid), y);
    Assoc(U32(a.uid), U32(a.gid), x);
    Assoc(U32(b.uid), U32(b.gid), y);
    U32Cancel(a.mode, U32(a.uid) + (U32(a.gid) + x), b.mode, U32(b.uid) + (U32(b.gid) + y));
    U32Cancel(a.uid, U32(a.gid) + x, b.uid, U32(b.gid) + y);
    U32Cancel(a.gid, x, b.gid, y);
  }

  lemma BodyCancel(a: Entry, x: seq<Cell>, b: Entry, y: seq<Cell>)
    requires a.meta == b.meta && EntryTag(a) == EntryTag(b)
    requires EntryBody(a) + x == EntryBody(b) + y
    ensures a == b && x == y
  {
    match a
    case Dir(_, node) => Cancel([Raw(node)], x, [Raw(b.node)], y);
    case Sym(_, target) => BytesCancel(target, x, b.target, y);
    case File(_, size, extents, links) =>
      var s, t := SeqCells(extents, ExtentCells), SeqCells(links, PathCells);
      var u, v := SeqCells(b.extents, ExtentCells), SeqCells(b.links, PathCells);
      Assoc(U64(size), s + t, x);
      Assoc(U64(b.size), u + v, y);
      Assoc(s, t, x);
      Assoc(u, v, y);
      U64Cancel(size, s + (t + x), b.size, u + (v + y));
      ExtentCancels();
      SeqCancel(extents, t + x, b.extents, v + y, ExtentCells);
      PathCancels();
      SeqCancel(links, x, b.links, y, PathCells);
  }

  lemma EntryCancel(a: Entry, x: seq<Cell>, b: Entry, y: seq<Cell>)
    requires EntryCells(a) + x == EntryCells(b) + y
    ensures a == b && x == y
  {
    var g := [Byte(ENTRY_ENCODING_VERSION), Byte(EntryTag(a))];
    var h := [Byte(ENTRY_ENCODING_VERSION), Byte(EntryTag(b))];
    Assoc(g, MetaCells(a.meta) + EntryBody(a), x);
    Assoc(h, MetaCells(b.meta) + EntryBody(b), y);
    Cancel(g, MetaCells(a.meta) + EntryBody(a) + x, h, MetaCells(b.meta) + EntryBody(b) + y);
    assert g[1] == h[1];
    Assoc(MetaCells(a.meta), EntryBody(a), x);
    Assoc(MetaCells(b.meta), EntryBody(b), y);
    MetaCancel(a.meta, EntryBody(a) + x, b.meta, EntryBody(b) + y);
    BodyCancel(a, x, b, y);
  }

  lemma NamedCancels()
    ensures Cancels(NamedCells)
  {
    forall a, b, x, y | NamedCells(a) + x == NamedCells(b) + y
      ensures a == b && x == y
    {
      Assoc(Bytes(a.0), EntryCells(a.1), x);
      Assoc(Bytes(b.0), EntryCells(b.1), y);
      BytesCancel(a.0, EntryCells(a.1) + x, b.0, EntryCells(b.1) + y);
      EntryCancel(a.1, x, b.1, y);
    }
  }

  /** Equal node digests mean equal nodes: the encoding of a directory node is injective. */
  lemma DirDigestInjective(a: DirNode, b: DirNode)
    requires DirDigest(a) == DirDigest(b)
    ensures a == b
  {
    DomainDigestInjective(DirNodeKind, NodeCells(a), DirNodeKind, NodeCells(b));
    NoSuffix(NodeCells(a));
    NoSuffix(NodeCells(b));
    NamedCancels();
    SeqCancel(Pairs(a, Names(a)), [], Pairs(b, Names(b)), [], NamedCells);
    PairsDetermineMap(a, Names(a), b, Names(b));
  }

  /** Equal entry digests mean equal entries: mode and link membership included. */
  lemma EntryDigestInjective(a: Entry, b: Entry)
    requires EntryDigest(a) == EntryDigest(b)
    ensures a == b
  {
    DomainDigestInjective(TreeEntryKind, EntryCells(a), TreeEntryKind, EntryCells(b));
    NoSuffix(EntryCells(a));
    NoSuffix(EntryCells(b));
    EntryCancel(a, [], b, []);
  }

  /** A directory node and a key-value node are never stored under one digest. */
  lemma DirAndKvDigestsDiffer(node: DirNode, kv: KvMap)
    ensures DirDigest(node) != KvDigest(kv)
  {
    if DirDigest(node) == KvDigest(kv) {
      DomainDigestInjective(DirNodeKind, NodeCells(node), KvNodeKind, SeqCells(KvPairs(kv), KvPairCells));
    }
  }

  // ---- what a node represents ----

  ghost function ToEntry(n: Node): Entry
    decreases n, 0
  {
    match n
    case DirN(meta, sub) => Dir(meta, IdOf(sub))
    case FileN(meta, size, extents, links) => File(meta, size, extents, links)
    case SymN(meta, target) => Sym(meta, target)
  }

  ghost function NodeOf(t: Tree): (r: DirNode)
    ensures r.Keys == t.kids.Keys
    decreases t, 0
  {
    map k | k in t.kids :: ToEntry(t.kids[k])
  }

  ghost function IdOf(t: Tree): NodeId
    decreases t, 1
  {
    DirDigest(NodeOf(t))
  }

  lemma {:induction false} NodeOfInjective(s: Tree, t: Tree)
    requires NodeOf(s) == NodeOf(t)
    ensures s == t
    decreases s
  {
    forall k | k in s.kids
      ensures k in t.kids && s.kids[k] == t.kids[k]
    {
      assert NodeOf(s)[k] == NodeOf(t)[k];
      assert k in NodeOf(t) && ToEntry(s.kids[k]) == ToEntry(t.kids[k]);
      if s.kids[k].DirN? {
        DirDigestInjective(NodeOf(s.kids[k].sub), NodeOf(t.kids[k].sub));
        NodeOfInjective(s.kids[k].sub, t.kids[k].sub);
      }
    }
    assert s.kids.Keys == NodeOf(s).Keys == t.kids.Keys;
    assert s.kids == t.kids;
  }

  /** Canonicity: root digests are equal exactly when the trees are. */
  lemma IdInjective(s: Tree, t: Tree)
    ensures IdOf(s) == IdOf(t) <==> s == t
  {
    if IdOf(s) == IdOf(t) {
      DirDigestInjective(NodeOf(s), NodeOf(t));
      NodeOfInjective(s, t);
    }
  }

  lemma EmptyTreeId()
    ensures NodeOf(EMPTY) == map[] && IdOf(EMPTY) == EMPTY_ID
  {
    assert NodeOf(EMPTY) == map[];
  }

  lemma EmptyIdOnlyEmpty(t: Tree)
    ensures IdOf(t) == EMPTY_ID <==> t.kids == map[]
  {
    EmptyTreeId();
    IdInjective(t, EMPTY);
    if t.kids == map[] {
      assert t == EMPTY;
    }
  }

  lemma ToEntryInjective(a: Node, b: Node)
    requires ToEntry(a) == ToEntry(b)
    ensures a == b
  {
    if a.DirN? {
      IdInjective(a.sub, b.sub);
    }
  }
}
