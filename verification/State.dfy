/** Mutations, the key-value half of a state root, and the digests that give them identity. */
module State {
  import opened Base
  import opened Paths
  import opened Canonical

  type NodeId = Digest
  type RootId = Digest
  type CommitId = Digest
  type ChunkId = Digest

  datatype Extent = Extent(fileOffset: nat, length: nat, chunk: ChunkId)

  type KvKey = (Str, Str)
  type KvMap = map<KvKey, ChunkId>

  /** One logical mutation inside a commit, in the order of the encoding's tags. */
  datatype Mutation =
    | MkDir(path: Path)
    | WriteFile(path: Path, size: nat, content: seq<Extent>)
    | Unlink(path: Path)
    | RmDir(path: Path)
    | KvSet(namespace: Str, key: Str, chunk: ChunkId, valueLen: nat)
    | KvDelete(namespace: Str, key: Str)
    | Rename(from: Path, to: Path)
    | SetMeta(path: Path, mode: u32, uid: u32, gid: u32)
    | Symlink(path: Path, target: Str)
    | Link(from: Path, to: Path)

  // ---- encodings ----

  function Concat<T>(xs: seq<T>, enc: T -> seq<Cell>): seq<Cell> {
    if xs == [] then [] else enc(xs[0]) + Concat(xs[1..], enc)
  }

  /** A count-prefixed sequence. */
  function SeqCells<T>(xs: seq<T>, enc: T -> seq<Cell>): seq<Cell> {
    U64(|xs|) + Concat(xs, enc)
  }

  function PathCells(p: Path): seq<Cell> {
    Bytes(PathStr(p))
  }

  function ExtentCells(e: Extent): seq<Cell> {
    U64(e.fileOffset) + (U64(e.length) + [Raw(e.chunk)])
  }

  function KvPairCells(kv: (KvKey, ChunkId)): seq<Cell> {
    Bytes(kv.0.0) + (Bytes(kv.0.1) + [Raw(kv.1)])
  }

  function Tag(m: Mutation): byte {
    match m
    case MkDir(_) => 0
    case WriteFile(_, _, _) => 1
    case Unlink(_) => 2
    case RmDir(_) => 3
    case KvSet(_, _, _, _) => 4
    case KvDelete(_, _) => 5
    case Rename(_, _) => 6
    case SetMeta(_, _, _, _) => 7
    case Symlink(_, _) => 8
    case Link(_, _) => 9
  }

  function Payload(m: Mutation): seq<Cell> {
    match m
    case MkDir(p) => PathCells(p)
    case WriteFile(p, size, content) => PathCells(p) + (U64(size) + SeqCells(content, ExtentCells))
    case Unlink(p) => PathCells(p)
    case RmDir(p) => PathCells(p)
    case KvSet(ns, key, v, len) => Bytes(ns) + (Bytes(key) + ([Raw(v)] + U64(len)))
    case KvDelete(ns, key) => Bytes(ns) + Bytes(key)
    case Rename(f, t) => PathCells(f) + PathCells(t)
    case SetMeta(p, mode, uid, gid) => PathCells(p) + (U32(mode) + (U32(uid) + U32(gid)))
    case Symlink(p, target) => PathCells(p) + Bytes(target)
    case Link(f, t) => PathCells(f) + PathCells(t)
  }

  function MutationCells(m: Mutation): seq<Cell> {
    [Byte(Tag(m))] + Payload(m)
  }

  // ---- unambiguity of each encoding ----

  /** An encoding whose end is never ambiguous: it can be read back off the front of any buffer. */
  ghost predicate Cancels<T(!new)>(enc: T -> seq<Cell>) {
    forall a, b, x, y :: enc(a) + x == enc(b) + y ==> a == b && x == y
  }

  lemma {:induction false} ConcatCancel<T(!new)>(xs: seq<T>, x: seq<Cell>, ys: seq<T>, y: seq<Cell>,
                                        enc: T -> seq<Cell>)
    requires Cancels(enc) && |xs| == |ys|
    requires Concat(xs, enc) + x == Concat(ys, enc) + y
    ensures xs == ys && x == y
  {
    if xs == [] {
      assert Concat(xs, enc) + x == x && Concat(ys, enc) + y == y;
    } else {
      Assoc(enc(xs[0]), Concat(xs[1..], enc), x);
      Assoc(enc(ys[0]), Concat(ys[1..], enc), y);
      ConcatCancel(xs[1..], x, ys[1..], y, enc);
      assert xs == [xs[0]] + xs[1..] && ys == [ys[0]] + ys[1..];
    }
  }

  lemma SeqCancel<T(!new)>(xs: seq<T>, x: seq<Cell>, ys: seq<T>, y: seq<Cell>, enc: T -> seq<Cell>)
    requires Cancels(enc)
    requires SeqCells(xs, enc) + x == SeqCells(ys, enc) + y
    ensures xs == ys && x == y
  {
    Assoc(U64(|xs|), Concat(xs, enc), x);
    Assoc(U64(|ys|), Concat(ys, enc), y);
    U64Cancel(|xs|, Concat(xs, enc) + x, |ys|, Concat(ys, enc) + y);
    ConcatCancel(xs, x, ys, y, enc);
  }

  lemma PathCancel(p: Path, x: seq<Cell>, q: Path, y: seq<Cell>)
    requires PathCells(p) + x == PathCells(q) + y
    ensures p == q && x == y
  {
    BytesCancel(PathStr(p), x, PathStr(q), y);
    PathStrInjective(p, q);
  }

  lemma PathCancels()
    ensures Cancels(PathCells)
  {
    forall p, q, x, y | PathCells(p) + x == PathCells(q) + y
      ensures p == q && x == y
    {
      PathCancel(p, x, q, y);
    }
  }

  lemma ExtentCancel(a: Extent, x: seq<Cell>, b: Extent, y: seq<Cell>)
    requires ExtentCells(a) + x == ExtentCells(b) + y
    ensures a == b && x == y
  {
    Assoc(U64(a.fileOffset), U64(a.length) + [Raw(a.chunk)], x);
    Assoc(U64(b.fileOffset), U64(b.length) + [Raw(b.chunk)], y);
    Assoc(U64(a.length), [Raw(a.chunk)], x);
    Assoc(U64(b.length), [Raw(b.chunk)], y);
    U64Cancel(a.fileOffset, U64(a.length) + ([Raw(a.chunk)] + x), b.fileOffset, U64(b.length) + ([Raw(b.chunk)] + y));
    U64Cancel(a.length, [Raw(a.chunk)] + x, b.length, [Raw(b.chunk)] + y);
    Cancel([Raw(a.chunk)], x, [Raw(b.chunk)], y);
  }

  lemma ExtentCancels()
    ensures Cancels(ExtentCells)
  {
    forall a, b, x, y | ExtentCells(a) + x == ExtentCells(b) + y
      ensures a == b && x == y
    {
      ExtentCancel(a, x, b, y);
    }
  }

  lemma KvPairCancels()
    ensures Cancels(KvPairCells)
  {
    forall a, b, x, y | KvPairCells(a) + x == KvPairCells(b) + y
      ensures a == b && x == y
    {
      Assoc(Bytes(a.0.0), Bytes(a.0.1) + [Raw(a.1)], x);
      Assoc(Bytes(b.0.0), Bytes(b.0.1) + [Raw(b.1)], y);
      Assoc(Bytes(a.0.1), [Raw(a.1)], x);
      Assoc(Bytes(b.0.1), [Raw(b.1)], y);
      BytesCancel(a.0.0, Bytes(a.0.1) + ([Raw(a.1)] + x), b.0.0, Bytes(b.0.1) + ([Raw(b.1)] + y));
      BytesCancel(a.0.1, [Raw(a.1)] + x, b.0.1, [Raw(b.1)] + y);
      Cancel([Raw(a.1)], x, [Raw(b.1)], y);
    }
  }

  lemma PayloadCancel(a: Mutation, x: seq<Cell>, b: Mutation, y: seq<Cell>)
    requires Tag(a) == Tag(b) && Payload(a) + x == Payload(b) + y
    ensures a == b && x == y
  {
    match a
    case MkDir(p) => PathCancel(p, x, b.path, y);
    case Unlink(p) => PathCancel(p, x, b.path, y);
    case RmDir(p) => PathCancel(p, x, b.path, y);
    case WriteFile(p, size, content) => WriteFileCancel(a, x, b, y);
    case KvSet(_, _, _, _) => KvSetCancel(a, x, b, y);
    case KvDelete(ns, key) =>
      Assoc(Bytes(ns), Bytes(key), x);
      Assoc(Bytes(b.namespace), Bytes(b.key), y);
      BytesCancel(ns, Bytes(key) + x, b.namespace, Bytes(b.key) + y);
      BytesCancel(key, x, b.key, y);
    case Rename(f, t) => TwoPathsCancel(f, t, x, b.from, b.to, y);
    case Link(f, t) => TwoPathsCancel(f, t, x, b.from, b.to, y);
    case SetMeta(_, _, _, _) => SetMetaCancel(a, x, b, y);
    case Symlink(p, target) =>
      Assoc(PathCells(p), Bytes(target), x);
      Assoc(PathCells(b.path), Bytes(b.target), y);
      PathCancel(p, Bytes(target) + x, b.path, Bytes(b.target) + y);
      BytesCancel(target, x, b.target, y);
  }

  lemma TwoPathsCancel(f: Path, t: Path, x: seq<Cell>, g: Path, u: Path, y: seq<Cell>)
    requires PathCells(f) + PathCells(t) + x == PathCells(g) + PathCells(u) + y
    ensures f == g && t == u && x == y
  {
    Assoc(PathCells(f), PathCells(t), x);
    Assoc(PathCells(g), PathCells(u), y);
    PathCancel(f, PathCells(t) + x, g, PathCells(u) + y);
    PathCancel(t, x, u, y);
  }

  lemma WriteFileCancel(a: Mutation, x: seq<Cell>, b: Mutation, y: seq<Cell>)
    requires a.WriteFile? && b.WriteFile? && Payload(a) + x == Payload(b) + y
    ensures a == b && x == y
  {
    var s, t := SeqCells(a.content, ExtentCells), SeqCells(b.content, ExtentCells);
    Assoc(PathCells(a.path), U64(a.size) + s, x);
    Assoc(PathCells(b.path), U64(b.size) + t, y);
    Assoc(U64(a.size), s, x);
    Assoc(U64(b.size), t, y);
    PathCancel(a.path, U64(a.size) + (s + x), b.path, U64(b.size) + (t + y));
    U64Cancel(a.size, s + x, b.size, t + y);
    ExtentCancels();
    SeqCancel(a.content, x, b.content, y, ExtentCells);
  }

  lemma KvSetCancel(a: Mutation, x: seq<Cell>, b: Mutation, y: seq<Cell>)
    requires a.KvSet? && b.KvSet? && Payload(a) + x == Payload(b) + y
    ensures a == b && x == y
  {
    var s, t := [Raw(a.chunk)] + U64(a.valueLen), [Raw(b.chunk)] + U64(b.valueLen);
    Assoc(Bytes(a.namespace), Bytes(a.key) + s, x);
    Assoc(Bytes(b.namespace), Bytes(b.key) + t, y);
    Assoc(Bytes(a.key), s, x);
    Assoc(Bytes(b.key), t, y);
    BytesCancel(a.namespace, Bytes(a.key) + (s + x), b.namespace, Bytes(b.key) + (t + y));
    BytesCancel(a.key, s + x, b.key, t + y);
    Assoc([Raw(a.chunk)], U64(a.valueLen), x);
    Assoc([Raw(b.chunk)], U64(b.valueLen), y);
    Cancel([Raw(a.chunk)], U64(a.valueLen) + x, [Raw(b.chunk)], U64(b.valueLen) + y);
    U64Cancel(a.valueLen, x, b.valueLen, y);
  }

  lemma SetMetaCancel(a: Mutation, x: seq<Cell>, b: Mutation, y: seq<Cell>)
    requires a.SetMeta? && b.SetMeta? && Payload(a) + x == Payload(b) + y
    ensures a == b && x == y
  {
    var s, t := U32(a.uid) + U32(a.gid), U32(b.uid) + U32(b.gid);
    Assoc(PathCells(a.path), U32(a.mode) + s, x);
    Assoc(PathCells(b.path), U32(b.mode) + t, y);
    Assoc(U32(a.mode), s, x);
    Assoc(U32(b.mode), t, y);
    PathCancel(a.path, U32(a.mode) + (s + x), b.path, U32(b.mode) + (t + y));
    U32Cancel(a.mode, s + x, b.mode, t + y);
    Assoc(U32(a.uid), U32(a.gid), x);
    Assoc(U32(b.uid), U32(b.gid), y);
    U32Cancel(a.uid, U32(a.gid) + x, b.uid, U32(b.gid) + y);
    U32Cancel(a.gid, x, b.gid, y);
  }

  lemma MutationCancels()
    ensures Cancels(MutationCells)
  {
    forall a, b, x, y | MutationCells(a) + x == MutationCells(b) + y
      ensures a == b && x == y
    {
      Assoc([Byte(Tag(a))], Payload(a), x);
      Assoc([Byte(Tag(b))], Payload(b), y);
      Cancel([Byte(Tag(a))], Payload(a) + x, [Byte(Tag(b))], Payload(b) + y);
      PayloadCancel(a, x, b, y);
    }
  }

  // ---- digests ----

  /** `BTreeMap<(String, String), _>` order: namespace first, then key. */
  function KvOrder(k: KvKey): seq<int> {
    var ns: seq<int> := k.0;
    ns + [-1] + k.1
  }

  lemma KvOrderInjective(s: set<KvKey>)
    ensures InjectiveOn(s, KvOrder)
  {
    forall j, k | j in s && k in s && KvOrder(j) == KvOrder(k)
      ensures j == k
    {
      var u := KvOrder(j);
      assert forall i | 0 <= i < |j.0| :: u[i] == j.0[i];
      assert forall i | 0 <= i < |k.0| :: u[i] == k.0[i];
      assert u[|j.0|] == -1 && u[|k.0|] == -1;
      assert j.0 == u[..|j.0|] && j.1 == u[|j.0| + 1..];
      assert k.0 == u[..|k.0|] && k.1 == u[|k.0| + 1..];
    }
  }

  function Pairs<K, V>(m: map<K, V>, keys: seq<K>): (r: seq<(K, V)>)
    requires forall k <- keys :: k in m
    ensures |r| == |keys| && forall i | 0 <= i < |keys| :: r[i] == (keys[i], m[keys[i]])
  {
    seq(|keys|, i requires 0 <= i < |keys| => (keys[i], m[keys[i]]))
  }

  /** A map is recovered from its list of pairs, whatever order lists the keys. */
  lemma PairsDetermineMap<K, V>(m: map<K, V>, ks: seq<K>, n: map<K, V>, ls: seq<K>)
    requires (forall k :: k in ks <==> k in m) && (forall k :: k in ls <==> k in n)
    requires Pairs(m, ks) == Pairs(n, ls)
    ensures m == n
  {
    var r, t := Pairs(m, ks), Pairs(n, ls);
    assert |ks| == |ls|;
    assert forall i | 0 <= i < |ks| :: r[i] == (ks[i], m[ks[i]]) && t[i] == (ls[i], n[ls[i]]);
    assert forall i | 0 <= i < |ks| :: ks[i] == ls[i] && m[ks[i]] == n[ls[i]];
    assert ks == ls;
    assert forall k | k in m :: k in ks && k in n && m[k] == n[k] by {
      forall k | k in m
        ensures k in n && m[k] == n[k]
      {
        var i :| 0 <= i < |ks| && ks[i] == k;
      }
    }
    assert m.Keys == n.Keys;
  }

  function KvPairs(kv: KvMap): seq<(KvKey, ChunkId)> {
    KvOrderInjective(kv.Keys);
    Pairs(kv, SortedBy(kv.Keys, KvOrder))
  }

  function KvDigest(kv: KvMap): NodeId {
    DomainDigest(KvNodeKind, SeqCells(KvPairs(kv), KvPairCells))
  }

  function RootDigest(ns: NodeId, kv: NodeId): RootId {
    DomainDigest(StateRootKind, [Raw(ns), Raw(kv)])
  }

  function CommandCells(repo: Str, branch: Str, request: Str, base: RootId, ms: seq<Mutation>): seq<Cell> {
    Bytes(repo) + (Bytes(branch) + (Bytes(request) + ([Raw(base)] + SeqCells(ms, MutationCells))))
  }

  function CommandHash(repo: Str, branch: Str, request: Str, base: RootId, ms: seq<Mutation>): Digest {
    DomainDigest(CommandKind, CommandCells(repo, branch, request, base, ms))
  }

  function ParentCells(parent: Option<CommitId>): seq<Cell> {
    match parent
    case None => [Byte(0)]
    case Some(p) => [Byte(1), Raw(p)]
  }

  function CommitCells(parent: Option<CommitId>, root: RootId, request: Str, author: Str,
                       message: Option<Str>, count: nat): seq<Cell> {
    ParentCells(parent) + ([Raw(root)] + (Bytes(request) + (Bytes(author) + (OptBytes(message) + U64(count)))))
  }

  function CommitDigest(parent: Option<CommitId>, root: RootId, request: Str, author: Str,
                        message: Option<Str>, count: nat): CommitId {
    DomainDigest(CommitKind, CommitCells(parent, root, request, author, message, count))
  }

  // ---- equal digests, equal values ----

  lemma NoSuffix(a: seq<Cell>)
    ensures a + [] == a
  {
  }

  /** Equal key-value digests mean equal maps. */
  lemma KvDigestInjective(a: KvMap, b: KvMap)
    requires KvDigest(a) == KvDigest(b)
    ensures a == b
  {
    var x, y := SeqCells(KvPairs(a), KvPairCells), SeqCells(KvPairs(b), KvPairCells);
    DomainDigestInjective(KvNodeKind, x, KvNodeKind, y);
    NoSuffix(x);
    NoSuffix(y);
    KvPairCancels();
    SeqCancel(KvPairs(a), [], KvPairs(b), [], KvPairCells);
    KvOrderInjective(a.Keys);
    KvOrderInjective(b.Keys);
    PairsDetermineMap(a, SortedBy(a.Keys, KvOrder), b, SortedBy(b.Keys, KvOrder));
  }

  /** A state root binds both of its halves. */
  lemma RootDigestInjective(ns: NodeId, kv: NodeId, ns': NodeId, kv': NodeId)
    requires RootDigest(ns, kv) == RootDigest(ns', kv')
    ensures ns == ns' && kv == kv'
  {
    DomainDigestInjective(StateRootKind, [Raw(ns), Raw(kv)], StateRootKind, [Raw(ns'), Raw(kv')]);
    assert [Raw(ns), Raw(kv)][0] == [Raw(ns'), Raw(kv')][0];
    assert [Raw(ns), Raw(kv)][1] == [Raw(ns'), Raw(kv')][1];
  }

  /** A command hash determines the whole publication command. */
  lemma CommandHashInjective(repo: Str, branch: Str, request: Str, base: RootId, ms: seq<Mutation>,
                             repo': Str, branch': Str, request': Str, base': RootId, ms': seq<Mutation>)
    requires CommandHash(repo, branch, request, base, ms) == CommandHash(repo', branch', request', base', ms')
    ensures repo == repo' && branch == branch' && request == request' && base == base' && ms == ms'
  {
    var x, y := SeqCells(ms, MutationCells), SeqCells(ms', MutationCells);
    DomainDigestInjective(CommandKind, CommandCells(repo, branch, request, base, ms),
                          CommandKind, CommandCells(repo', branch', request', base', ms'));
    BytesCancel(repo, Bytes(branch) + (Bytes(request) + ([Raw(base)] + x)),
                repo', Bytes(branch') + (Bytes(request') + ([Raw(base')] + y)));
    BytesCancel(branch, Bytes(request) + ([Raw(base)] + x), branch', Bytes(request') + ([Raw(base')] + y));
    BytesCancel(request, [Raw(base)] + x, request', [Raw(base')] + y);
    Cancel([Raw(base)], x, [Raw(base')], y);
    MutationCancels();
    NoSuffix(x);
    NoSuffix(y);
    SeqCancel(ms, [], ms', [], MutationCells);
  }

  lemma ParentCancel(p: Option<CommitId>, x: seq<Cell>, q: Option<CommitId>, y: seq<Cell>)
    requires ParentCells(p) + x == ParentCells(q) + y
    ensures p == q && x == y
  {
    assert (ParentCells(p) + x)[0] == ParentCells(p)[0] && (ParentCells(q) + y)[0] == ParentCells(q)[0];
    Cancel(ParentCells(p), x, ParentCells(q), y);
    if p.Some? {
      assert ParentCells(p)[1] == ParentCells(q)[1];
    }
  }

  /** A commit digest determines its parent, root and request, among the rest. */
  lemma CommitDigestInjective(p: Option<CommitId>, r: RootId, q: Str, a: Str, m: Option<Str>, n: nat,
                              p': Option<CommitId>, r': RootId, q': Str, a': Str, m': Option<Str>, n': nat)
    requires CommitDigest(p, r, q, a, m, n) == CommitDigest(p', r', q', a', m', n')
    ensures p == p' && r == r' && q == q' && a == a' && m == m' && n == n'
  {
    DomainDigestInjective(CommitKind, CommitCells(p, r, q, a, m, n), CommitKind, CommitCells(p', r', q', a', m', n'));
    var x4, y4 := OptBytes(m) + U64(n), OptBytes(m') + U64(n');
    var x3, y3 := Bytes(a) + x4, Bytes(a') + y4;
    var x2, y2 := Bytes(q) + x3, Bytes(q') + y3;
    ParentCancel(p, [Raw(r)] + x2, p', [Raw(r')] + y2);
    Cancel([Raw(r)], x2, [Raw(r')], y2);
    BytesCancel(q, x3, q', y3);
    BytesCancel(a, x4, a', y4);
    OptBytesCancel(m, U64(n), m', U64(n'));
    NoSuffix(U64(n));
    NoSuffix(U64(n'));
    U64Cancel(n, [], n', []);
  }

  // ---- the encoders, as the program runs them ----

  lemma ConcatAppend<T>(xs: seq<T>, n: nat, enc: T -> seq<Cell>)
    requires n < |xs|
    ensures Concat(xs[..n + 1], enc) == Concat(xs[..n], enc) + enc(xs[n])
  {
    if n == 0 {
      assert xs[..1] == [xs[0]] && xs[..1][1..] == [];
    } else {
      ConcatAppend(xs[1..], n - 1, enc);
      assert xs[..n + 1][1..] == xs[1..][..n] && xs[..n][1..] == xs[1..][..n - 1];
      Assoc(enc(xs[0]), Concat(xs[1..][..n - 1], enc), enc(xs[n]));
    }
  }

  lemma Nest3<T>(b: seq<T>, x: seq<T>, y: seq<T>, z: seq<T>)
    ensures b + x + y + z == b + (x + (y + z))
  {
    Assoc(b + x, y, z);
    Assoc(b, x, y + z);
  }

  lemma Nest4<T>(b: seq<T>, x: seq<T>, y: seq<T>, z: seq<T>, w: seq<T>)
    ensures b + x + y + z + w == b + (x + (y + (z + w)))
  {
    Nest3(b + x, y, z, w);
    Assoc(b, x, y + (z + w));
  }

  method EncodeExtent(e: Enc, x: Extent)
    modifies e
    ensures e.buf == old(e.buf) + ExtentCells(x)
  {
    Nest3(e.buf, U64(x.fileOffset), U64(x.length), [Raw(x.chunk)]);
    e.PutU64(x.fileOffset);
    e.PutU64(x.length);
    e.PutDigest(x.chunk);
  }

  method EncodeExtents(e: Enc, extents: seq<Extent>)
    modifies e
    ensures e.buf == old(e.buf) + SeqCells(extents, ExtentCells)
  {
    ghost var before := e.buf;
    e.PutU64(|extents|);
    ghost var prefix := e.buf;
    for i := 0 to |extents|
      invariant e.buf == prefix + Concat(extents[..i], ExtentCells)
    {
      ConcatAppend(extents, i, ExtentCells);
      Assoc(prefix, Concat(extents[..i], ExtentCells), ExtentCells(extents[i]));
      EncodeExtent(e, extents[i]);
    }
    assert extents[..|extents|] == extents;
    Assoc(before, U64(|extents|), Concat(extents, ExtentCells));
  }

  /** The fields after the tag in `Mutation::encode`. */
  method EncodePayload(e: Enc, m: Mutation)
    modifies e
    ensures e.buf == old(e.buf) + Payload(m)
  {
    hide U64, U32, Bytes, SeqCells, PathStr;
    ghost var b := e.buf;
    match m
    case MkDir(p) => e.PutBytes(PathStr(p));
    case WriteFile(p, size, content) =>
      e.PutBytes(PathStr(p));
      e.PutU64(size);
      EncodeExtents(e, content);
      Nest3(b, PathCells(p), U64(size), SeqCells(content, ExtentCells));
    case Unlink(p) => e.PutBytes(PathStr(p));
    case RmDir(p) => e.PutBytes(PathStr(p));
    case KvSet(ns, key, v, len) =>
      e.PutBytes(ns);
      e.PutBytes(key);
      e.PutDigest(v);
      e.PutU64(len);
      Nest4(b, Bytes(ns), Bytes(key), [Raw(v)], U64(len));
    case KvDelete(ns, key) =>
      e.PutBytes(ns);
      e.PutBytes(key);
      Assoc(b, Bytes(ns), Bytes(key));
    case Rename(f, t) => EncodeTwoPaths(e, f, t);
    case SetMeta(p, mode, uid, gid) =>
      e.PutBytes(PathStr(p));
      e.PutU32(mode);
      e.PutU32(uid);
      e.PutU32(gid);
      Nest4(b, PathCells(p), U32(mode), U32(uid), U32(gid));
    case Symlink(p, target) =>
      e.PutBytes(PathStr(p));
      e.PutBytes(target);
      Assoc(b, PathCells(p), Bytes(target));
    case Link(f, t) => EncodeTwoPaths(e, f, t);
  }

  method EncodeTwoPaths(e: Enc, f: Path, t: Path)
    modifies e
    ensures e.buf == old(e.buf) + (PathCells(f) + PathCells(t))
  {
    Assoc(e.buf, PathCells(f), PathCells(t));
    e.PutBytes(PathStr(f));
    e.PutBytes(PathStr(t));
  }

  /** `Mutation::encode`. */
  method EncodeMutation(e: Enc, m: Mutation)
    modifies e
    ensures e.buf == old(e.buf) + MutationCells(m)
  {
    Assoc(e.buf, [Byte(Tag(m))], Payload(m));
    e.PutU8(Tag(m));
    EncodePayload(e, m);
  }

  /** `kv_digest`. */
  method ComputeKvDigest(kv: KvMap) returns (d: NodeId)
    ensures d == KvDigest(kv)
  {
    var e := new Enc();
    var pairs := KvPairs(kv);
    e.PutU64(|kv|);
    KvOrderInjective(kv.Keys);
    SortedByAscends(kv.Keys, KvOrder);
    ghost var prefix := U64(|pairs|);
    for i := 0 to |pairs|
      invariant e.buf == prefix + Concat(pairs[..i], KvPairCells)
    {
      var ((ns, key), value) := pairs[i];
      ConcatAppend(pairs, i, KvPairCells);
      Assoc(prefix, Concat(pairs[..i], KvPairCells), KvPairCells(pairs[i]));
      Nest3(e.buf, Bytes(ns), Bytes(key), [Raw(value)]);
      e.PutBytes(ns);
      e.PutBytes(key);
      e.PutDigest(value);
    }
    assert pairs[..|pairs|] == pairs;
    d := DomainDigest(KvNodeKind, e.buf);
  }

  method EncodeMutations(e: Enc, ms: seq<Mutation>)
    modifies e
    ensures e.buf == old(e.buf) + SeqCells(ms, MutationCells)
  {
    ghost var before := e.buf;
    e.PutU64(|ms|);
    ghost var prefix := e.buf;
    for i := 0 to |ms|
      invariant e.buf == prefix + Concat(ms[..i], MutationCells)
    {
      ConcatAppend(ms, i, MutationCells);
      Assoc(prefix, Concat(ms[..i], MutationCells), MutationCells(ms[i]));
      EncodeMutation(e, ms[i]);
    }
    assert ms[..|ms|] == ms;
    Assoc(before, U64(|ms|), Concat(ms, MutationCells));
  }

  /** `command_hash`. */
  method ComputeCommandHash(repo: Str, branch: Str, request: Str, base: RootId, ms: seq<Mutation>) returns (d: Digest)
    ensures d == CommandHash(repo, branch, request, base, ms)
  {
    var e := new Enc();
    e.PutBytes(repo);
    assert e.buf == Bytes(repo);
    e.PutBytes(branch);
    e.PutBytes(request);
    e.PutDigest(base);
    EncodeMutations(e, ms);
    Nest4(Bytes(repo), Bytes(branch), Bytes(request), [Raw(base)], SeqCells(ms, MutationCells));
    d := DomainDigest(CommandKind, e.buf);
  }

  /** `commit_digest`. */
  method ComputeCommitDigest(parent: Option<CommitId>, root: RootId, request: Str, author: Str,
                             message: Option<Str>, count: nat) returns (d: CommitId)
    ensures d == CommitDigest(parent, root, request, author, message, count)
  {
    var e := new Enc();
    match parent {
      case None => e.PutU8(0);
      case Some(p) =>
        e.PutU8(1);
        e.PutDigest(p);
    }
    assert e.buf == ParentCells(parent);
    e.PutDigest(root);
    e.PutBytes(request);
    e.PutBytes(author);
    e.PutOptBytes(message);
    e.PutU64(count);
    Nest4(ParentCells(parent) + [Raw(root)], Bytes(request), Bytes(author), OptBytes(message), U64(count));
    Assoc(ParentCells(parent), [Raw(root)], Bytes(request) + (Bytes(author) + (OptBytes(message) + U64(count))));
    d := DomainDigest(CommitKind, e.buf);
  }
}
