/**
 * The canonical byte encoding and the domain-separated digest.
 *
 * A digest is 32 bytes in the program. No injective map from all byte strings into 32 bytes exists, so
 * here a digest is one indivisible cell of a buffer, and the hash is *any* injective function from
 * buffers to digests: nothing but injectivity is known about `Hash`.
 */
module Canonical {
  import opened Base

  /** One cell of an encoding buffer. */
  datatype Cell =
    | Byte(b: byte)
    | Raw(d: Digest)  // the raw bytes of one digest
    | Wide(n: nat)    // a count past 64 bits; no machine value has one, it keeps the encoder total

  datatype Digest = Digest(token: seq<Cell>)

  ghost predicate Injective(h: seq<Cell> -> Digest) {
    forall p, q :: h(p) == h(q) ==> p == q
  }

  type Hasher = h: seq<Cell> -> Digest | Injective(h) witness (p: seq<Cell>) => Digest(p)

  /** BLAKE3, known only to be injective. */
  const Hash: Hasher

  lemma HashInjective(p: seq<Cell>, q: seq<Cell>)
    requires Hash(p) == Hash(q)
    ensures p == q
  {
    assert Injective(Hash);
  }

  // ---- the encoder's primitives, as functions ----

  function Cells(s: Str): (r: seq<Cell>)
    ensures |r| == |s|
  {
    seq(|s|, i requires 0 <= i < |s| => Byte(s[i]))
  }

  /** `k` bytes of `n`, least significant first. */
  function LittleEndian(n: nat, k: nat): (r: seq<Cell>)
    ensures |r| == k
  {
    if k == 0 then [] else [Byte(n % 0x100)] + LittleEndian(n / 0x100, k - 1)
  }

  const TWO64: nat := 0x1_0000_0000_0000_0000

  function U32(v: u32): seq<Cell> {
    LittleEndian(v, 4)
  }

  function U64(n: nat): seq<Cell> {
    if n < TWO64 then LittleEndian(n, 8) else [Wide(n)]
  }

  function Bytes(s: Str): seq<Cell> {
    U64(|s|) + Cells(s)
  }

  function OptBytes(s: Option<Str>): seq<Cell> {
    match s
    case None => [Byte(0)]
    case Some(v) => [Byte(1)] + Bytes(v)
  }

  // ---- each primitive can be read back off the front of a buffer ----

  lemma CellsInjective(s: Str, t: Str)
    requires Cells(s) == Cells(t)
    ensures s == t
  {
    assert forall i | 0 <= i < |s| :: Cells(s)[i] == Byte(s[i]) && Cells(t)[i] == Byte(t[i]);
  }

  lemma Cancel<T>(a: seq<T>, x: seq<T>, b: seq<T>, y: seq<T>)
    requires |a| == |b| && a + x == b + y
    ensures a == b && x == y
  {
    assert a == (a + x)[..|a|] && x == (a + x)[|a|..];
    assert b == (b + y)[..|b|] && y == (b + y)[|b|..];
  }

  lemma Assoc<T>(a: seq<T>, b: seq<T>, c: seq<T>)
    ensures a + b + c == a + (b + c)
  {
  }

  function Pow256(k: nat): nat {
    if k == 0 then 1 else 0x100 * Pow256(k - 1)
  }

  lemma {:induction false} LittleEndianInjective(m: nat, n: nat, k: nat)
    requires m < Pow256(k) && n < Pow256(k) && LittleEndian(m, k) == LittleEndian(n, k)
    ensures m == n
  {
    if k > 0 {
      var a, b := LittleEndian(m, k), LittleEndian(n, k);
      assert a[0] == Byte(m % 0x100) && b[0] == Byte(n % 0x100);
      assert a[1..] == LittleEndian(m / 0x100, k - 1) && b[1..] == LittleEndian(n / 0x100, k - 1);
      LittleEndianInjective(m / 0x100, n / 0x100, k - 1);
    }
  }

  lemma U32Cancel(m: u32, x: seq<Cell>, n: u32, y: seq<Cell>)
    requires U32(m) + x == U32(n) + y
    ensures m == n && x == y
  {
    Cancel(U32(m), x, U32(n), y);
    assert Pow256(4) == 0x1_0000_0000 by {
      assert Pow256(1) == 0x100 && Pow256(2) == 0x1_0000 && Pow256(3) == 0x100_0000;
    }
    LittleEndianInjective(m, n, 4);
  }

  lemma Pow256Of8()
    ensures Pow256(8) == TWO64
  {
    assert Pow256(1) == 0x100 && Pow256(2) == 0x1_0000 && Pow256(3) == 0x100_0000;
    assert Pow256(4) == 0x1_0000_0000 && Pow256(5) == 0x100_0000_0000;
    assert Pow256(6) == 0x1_0000_0000_0000 && Pow256(7) == 0x100_0000_0000_0000;
  }

  lemma U64Head(n: nat, x: seq<Cell>)
    ensures |U64(n) + x| > 0 && ((U64(n) + x)[0].Wide? <==> n >= TWO64)
  {
    if n < TWO64 {
      assert LittleEndian(n, 8)[0] == Byte(n % 0x100);
    }
  }

  lemma U64Cancel(m: nat, x: seq<Cell>, n: nat, y: seq<Cell>)
    requires U64(m) + x == U64(n) + y
    ensures m == n && x == y
  {
    U64Head(m, x);
    U64Head(n, y);
    Cancel(U64(m), x, U64(n), y);
    if m < TWO64 {
      Pow256Of8();
      LittleEndianInjective(m, n, 8);
    }
  }

  /** Byte strings are length-prefixed, so where one ends is never ambiguous. */
  lemma BytesCancel(s: Str, x: seq<Cell>, t: Str, y: seq<Cell>)
    requires Bytes(s) + x == Bytes(t) + y
    ensures s == t && x == y
  {
    Assoc(U64(|s|), Cells(s), x);
    Assoc(U64(|t|), Cells(t), y);
    U64Cancel(|s|, Cells(s) + x, |t|, Cells(t) + y);
    Cancel(Cells(s), x, Cells(t), y);
    CellsInjective(s, t);
  }

  lemma OptBytesCancel(s: Option<Str>, x: seq<Cell>, t: Option<Str>, y: seq<Cell>)
    requires OptBytes(s) + x == OptBytes(t) + y
    ensures s == t && x == y
  {
    Cancel(OptBytes(s)[..1], OptBytes(s)[1..] + x, OptBytes(t)[..1], OptBytes(t)[1..] + y) by {
      assert OptBytes(s) == OptBytes(s)[..1] + OptBytes(s)[1..];
      assert OptBytes(t) == OptBytes(t)[..1] + OptBytes(t)[1..];
      Assoc(OptBytes(s)[..1], OptBytes(s)[1..], x);
      Assoc(OptBytes(t)[..1], OptBytes(t)[1..], y);
    }
    assert OptBytes(s)[0] == OptBytes(s)[..1][0] && OptBytes(t)[0] == OptBytes(t)[..1][0];
    if s.Some? {
      assert OptBytes(s)[1..] == Bytes(s.value) && OptBytes(t)[1..] == Bytes(t.value);
      BytesCancel(s.value, x, t.value, y);
    } else {
      assert OptBytes(s)[1..] + x == x && OptBytes(t)[1..] + y == y;
    }
  }

  // ---- domain separation ----

  datatype Kind = DirNodeKind | KvNodeKind | StateRootKind | TreeEntryKind | CommandKind | CommitKind

  function Ascii(s: string): Str {
    seq(|s|, i requires 0 <= i < |s| => s[i] as int % 0x100)
  }

  function KindStr(k: Kind): string {
    match k
    case DirNodeKind => "dir-node"
    case KvNodeKind => "kv-node"
    case StateRootKind => "state-root"
    case TreeEntryKind => "tree-entry"
    case CommandKind => "publish-command"
    case CommitKind => "commit"
  }

  const DOMAIN_PREFIX := "surrealfs:v1:"
  const NEWLINE: byte := 10

  /** `digest(kind, payload)`: the hash of `surrealfs:v1:<kind>\n<payload>`. */
  function DomainDigest(k: Kind, payload: seq<Cell>): Digest {
    Hash(Cells(Ascii(DOMAIN_PREFIX)) + (Cells(Ascii(KindStr(k))) + ([Byte(NEWLINE)] + payload)))
  }

  /** Content chunks are addressed by the plain hash of their bytes. */
  function ChunkDigest(bytes: Str): Digest {
    Hash(Cells(bytes))
  }

  lemma ChunkDigestInjective(a: Str, b: Str)
    requires ChunkDigest(a) == ChunkDigest(b)
    ensures a == b
  {
    HashInjective(Cells(a), Cells(b));
    CellsInjective(a, b);
  }

  lemma KindHasNoNewline(k: Kind, i: nat)
    requires i < |KindStr(k)|
    ensures Cells(Ascii(KindStr(k)))[i] != Byte(NEWLINE)
  {
    var s := KindStr(k);
    assert s[i] != '\n' && s[i] as int < 0x100 by {
      match k {
        case DirNodeKind =>
        case KvNodeKind =>
        case StateRootKind =>
        case TreeEntryKind =>
        case CommandKind =>
        case CommitKind =>
      }
    }
    assert s[i] as int != '\n' as int;
  }

  lemma KindStrInjective(j: Kind, k: Kind)
    requires Cells(Ascii(KindStr(j))) == Cells(Ascii(KindStr(k)))
    ensures j == k
  {
    var s, t := KindStr(j), KindStr(k);
    CellsInjective(Ascii(s), Ascii(t));
    assert |Ascii(s)| == |s| && |Ascii(t)| == |t|;
    assert s[0] as int % 0x100 == Ascii(s)[0] == Ascii(t)[0] == t[0] as int % 0x100;
  }

  /** Two digests of different kinds never collide, and one kind's digest determines its payload. */
  lemma DomainDigestInjective(j: Kind, p: seq<Cell>, k: Kind, q: seq<Cell>)
    requires DomainDigest(j, p) == DomainDigest(k, q)
    ensures j == k && p == q
  {
    var prefix := Cells(Ascii(DOMAIN_PREFIX));
    var a, b := Cells(Ascii(KindStr(j))), Cells(Ascii(KindStr(k)));
    var x, y := [Byte(NEWLINE)] + p, [Byte(NEWLINE)] + q;
    HashInjective(prefix + (a + x), prefix + (b + y));
    Cancel(prefix, a + x, prefix, b + y);
    var s := a + x;
    assert forall i: nat | i < |a| :: s[i] != Byte(NEWLINE) by {
      forall i: nat | i < |a| ensures s[i] != Byte(NEWLINE) { KindHasNoNewline(j, i); }
    }
    assert forall i: nat | i < |b| :: s[i] != Byte(NEWLINE) by {
      forall i: nat | i < |b| ensures s[i] != Byte(NEWLINE) { KindHasNoNewline(k, i); }
    }
    assert s[|a|] == Byte(NEWLINE) && s[|b|] == Byte(NEWLINE);
    Cancel(a, x, b, y);
    KindStrInjective(j, k);
    assert p == x[1..] && q == y[1..];
  }

  // ---- the encoder itself ----

  /** The canonical encoder buffer: every method appends. */
  class Enc {
    var buf: seq<Cell>

    constructor ()
      ensures buf == []
    {
      buf := [];
    }

    method PutU8(v: byte)
      modifies this
      ensures buf == old(buf) + [Byte(v)]
    {
      buf := buf + [Byte(v)];
    }

    method PutU32(v: u32)
      modifies this
      ensures buf == old(buf) + U32(v)
    {
      buf := buf + U32(v);
    }

    method PutU64(v: nat)
      modifies this
      ensures buf == old(buf) + U64(v)
    {
      buf := buf + U64(v);
    }

    method PutBytes(s: Str)
      modifies this
      ensures buf == old(buf) + Bytes(s)
    {
      PutU64(|s|);
      buf := buf + Cells(s);
    }

    method PutOptBytes(s: Option<Str>)
      modifies this
      ensures buf == old(buf) + OptBytes(s)
    {
      match s
      case None => PutU8(0);
      case Some(v) =>
        PutU8(1);
        PutBytes(v);
    }

    method PutDigest(d: Digest)
      modifies this
      ensures buf == old(buf) + [Raw(d)]
    {
      buf := buf + [Raw(d)];
    }
  }
}
