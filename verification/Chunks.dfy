/** Fixed-size chunking, verification and reassembly of file content. */
module Chunks {
  import opened Base
  import opened Canonical
  import opened State

  const CHUNK_SIZE: nat := 256 * 1024

  datatype StagedChunk = StagedChunk(digest: ChunkId, bytes: Str)

  /** Chunk bodies by digest: a staging area or the chunk table. */
  type ChunkMap = map<ChunkId, Str>

  // ---- what chunking produces ----

  /** `<[u8]>::chunks`: full pieces, then the remainder. */
  function Pieces(bytes: Str, size: nat): (r: seq<Str>)
    requires size > 0
    ensures forall piece <- r :: 0 < |piece| <= size
  {
    if bytes == [] then []
    else if |bytes| <= size then [bytes]
    else [bytes[..size]] + Pieces(bytes[size..], size)
  }

  function Flatten(pieces: seq<Str>): Str {
    if pieces == [] then [] else pieces[0] + Flatten(pieces[1..])
  }

  function ExtentsFrom(offset: nat, pieces: seq<Str>): (r: seq<Extent>)
    ensures |r| == |pieces|
    decreases |pieces|
  {
    if pieces == [] then []
    else [Extent(offset, |pieces[0]|, ChunkDigest(pieces[0]))] + ExtentsFrom(offset + |pieces[0]|, pieces[1..])
  }

  function StagedOf(pieces: seq<Str>): (r: seq<StagedChunk>)
    ensures |r| == |pieces|
    ensures forall i | 0 <= i < |pieces| :: r[i] == StagedChunk(ChunkDigest(pieces[i]), pieces[i])
  {
    seq(|pieces|, i requires 0 <= i < |pieces| => StagedChunk(ChunkDigest(pieces[i]), pieces[i]))
  }

  function Extents(bytes: Str): seq<Extent> {
    ExtentsFrom(0, Pieces(bytes, CHUNK_SIZE))
  }

  function Staged(bytes: Str): seq<StagedChunk> {
    StagedOf(Pieces(bytes, CHUNK_SIZE))
  }

  function ChunksIn(extents: seq<Extent>): set<ChunkId> {
    set e | e in extents :: e.chunk
  }

  lemma {:induction false} PiecesFlatten(bytes: Str, size: nat)
    requires size > 0
    ensures Flatten(Pieces(bytes, size)) == bytes
    decreases |bytes|
  {
    if |bytes| > size {
      PiecesFlatten(bytes[size..], size);
      assert bytes == bytes[..size] + bytes[size..];
      assert Pieces(bytes, size)[1..] == Pieces(bytes[size..], size);
    } else if bytes != [] {
      assert Pieces(bytes, size) == [bytes];
      assert Flatten([bytes][1..]) == [];
      assert bytes + [] == bytes;
    }
  }

  /** Where a piece starts, and where it ends. */
  function PieceStart(i: nat, size: nat): nat {
    i * size
  }

  function PieceStop(i: nat, size: nat, length: nat): nat {
    if PieceStart(i + 1, size) < length then PieceStart(i + 1, size) else length
  }

  lemma NextStart(i: nat, size: nat)
    ensures PieceStart(i + 1, size) == PieceStart(i, size) + size && PieceStart(0, size) == 0
  {
  }

  lemma FirstPiece(bytes: Str, size: nat)
    requires size > 0
    ensures Pieces(bytes, size) == [] <==> bytes == []
    ensures 0 < |bytes| <= size ==> Pieces(bytes, size) == [bytes] && bytes[0..|bytes|] == bytes
    ensures |bytes| > size ==> Pieces(bytes, size)[0] == bytes[0..size]
  {
  }

  /** A long string's pieces are its head's and then its tail's. */
  lemma PiecesTail(bytes: Str, size: nat, i: nat)
    requires 0 < size < |bytes| && i > 0
    ensures |Pieces(bytes, size)| == 1 + |Pieces(bytes[size..], size)|
    ensures i < |Pieces(bytes, size)| ==> Pieces(bytes, size)[i] == Pieces(bytes[size..], size)[i - 1]
  {
  }

  lemma SliceTail(bytes: Str, size: nat, a: nat, b: nat)
    requires size <= |bytes| && a <= b <= |bytes| - size
    ensures bytes[size..][a..b] == bytes[size + a..size + b]
  {
  }

  /** The pieces are the consecutive stretches of one size, the last one what remains. */
  lemma {:induction false} PiecesAt(bytes: Str, size: nat, i: nat)
    requires size > 0
    ensures i < |Pieces(bytes, size)| <==> PieceStart(i, size) < |bytes|
    ensures i < |Pieces(bytes, size)| ==>
              PieceStart(i, size) <= PieceStop(i, size, |bytes|) <= |bytes|
              && Pieces(bytes, size)[i] == bytes[PieceStart(i, size)..PieceStop(i, size, |bytes|)]
    decreases i
  {
    hide PieceStart, Pieces;
    NextStart(i, size);
    NextStart(0, size);
    FirstPiece(bytes, size);
    if i > 0 {
      NextStart(i - 1, size);
      if |bytes| > size {
        PiecesTail(bytes, size, i);
        PiecesAt(bytes[size..], size, i - 1);
        if i < |Pieces(bytes, size)| {
          SliceTail(bytes, size, PieceStart(i - 1, size), PieceStop(i - 1, size, |bytes| - size));
        }
      } else {
        StartGrows(i, size);
      }
    }
  }

  lemma StartGrows(i: nat, size: nat)
    requires i > 0
    ensures PieceStart(i, size) >= size
  {
  }

  lemma {:induction false} ExtentsFromInjective(offset: nat, a: seq<Str>, b: seq<Str>)
    requires ExtentsFrom(offset, a) == ExtentsFrom(offset, b)
    ensures a == b
    decreases |a|
  {
    var x, y := ExtentsFrom(offset, a), ExtentsFrom(offset, b);
    if a != [] {
      assert x[0] == y[0] && x[1..] == y[1..];
      ChunkDigestInjective(a[0], b[0]);
      ExtentsFromInjective(offset + |a[0]|, a[1..], b[1..]);
      assert a == [a[0]] + a[1..] && b == [b[0]] + b[1..];
    } else {
      assert |b| == 0;
    }
  }

  /** Extent lists are equal exactly when the bytes are, so comparing extents compares content. */
  lemma ExtentsInjective(a: Str, b: Str)
    ensures Extents(a) == Extents(b) <==> a == b
  {
    if Extents(a) == Extents(b) {
      ExtentsFromInjective(0, Pieces(a, CHUNK_SIZE), Pieces(b, CHUNK_SIZE));
      PiecesFlatten(a, CHUNK_SIZE);
      PiecesFlatten(b, CHUNK_SIZE);
    }
  }

  lemma {:induction false} ExtentsFromAt(offset: nat, pieces: seq<Str>, i: nat)
    requires i < |pieces|
    ensures ExtentsFrom(offset, pieces)[i].chunk == ChunkDigest(pieces[i])
    decreases i
  {
    if i > 0 {
      ExtentsFromAt(offset + |pieces[0]|, pieces[1..], i - 1);
    }
  }

  /** The extents name only chunks that were staged. */
  lemma ExtentsNameStaged(bytes: Str)
    ensures forall d <- ChunksIn(Extents(bytes)) :: exists c <- Staged(bytes) :: c.digest == d
  {
    hide ChunkDigest;
    var pieces := Pieces(bytes, CHUNK_SIZE);
    var x, s := Extents(bytes), Staged(bytes);
    forall d | d in ChunksIn(x)
      ensures exists c <- s :: c.digest == d
    {
      var e :| e in x && e.chunk == d;
      var i :| 0 <= i < |x| && x[i] == e;
      ExtentsFromAt(0, pieces, i);
      assert s[i] in s && s[i].digest == d;
    }
  }

  // ---- reading content back ----

  /** Fetch and verify each extent's chunk in order, as reading a file does. */
  function Gather(extents: seq<Extent>, chunks: ChunkMap): Result<Str> {
    if extents == [] then Ok([])
    else if extents[0].chunk !in chunks then Err(NotFound)
    else if ChunkDigest(chunks[extents[0].chunk]) != extents[0].chunk then Err(Corruption)
    else
      match Gather(extents[1..], chunks)
      case Err(e) => Err(e)
      case Ok(rest) => Ok(chunks[extents[0].chunk] + rest)
  }

  /** The chunk that an extent names is there and is what its digest says. */
  predicate IsVerified(e: Extent, chunks: ChunkMap) {
    e.chunk in chunks && ChunkDigest(chunks[e.chunk]) == e.chunk
  }

  /** The bodies that the extents name, one after the other. */
  function ExtentBodies(extents: seq<Extent>, chunks: ChunkMap): seq<Str>
    requires forall e <- extents :: e.chunk in chunks
  {
    seq(|extents|, i requires 0 <= i < |extents| => chunks[extents[i].chunk])
  }

  /** The first chunk that is missing or is not what its digest says. */
  ghost predicate FirstBad(extents: seq<Extent>, chunks: ChunkMap, i: nat) {
    i < |extents| && !IsVerified(extents[i], chunks) && forall j | 0 <= j < i :: IsVerified(extents[j], chunks)
  }

  /** Reading succeeds exactly when every chunk is there and verified, and then gives their bodies in order. */
  lemma {:induction false} GatherExactly(extents: seq<Extent>, chunks: ChunkMap)
    ensures Gather(extents, chunks).Ok? <==> forall e <- extents :: IsVerified(e, chunks)
    ensures Gather(extents, chunks).Ok? ==> Gather(extents, chunks).value == Flatten(ExtentBodies(extents, chunks))
    decreases |extents|
  {
    hide ChunkDigest;
    if extents != [] {
      GatherExactly(extents[1..], chunks);
      AllVerified(extents, chunks);
      if Gather(extents, chunks).Ok? {
        assert ExtentBodies(extents, chunks)[1..] == ExtentBodies(extents[1..], chunks);
      }
    }
  }

  lemma AllVerified(extents: seq<Extent>, chunks: ChunkMap)
    requires extents != []
    ensures (forall e <- extents :: IsVerified(e, chunks))
            <==> IsVerified(extents[0], chunks) && forall e <- extents[1..] :: IsVerified(e, chunks)
  {
    hide IsVerified;
    assert extents == [extents[0]] + extents[1..];
    assert extents[0] in extents && forall e | e in extents[1..] :: e in extents;
  }

  /** Otherwise the first bad chunk decides the error: missing or corrupt. */
  lemma {:induction false} GatherFails(extents: seq<Extent>, chunks: ChunkMap) returns (i: nat)
    requires Gather(extents, chunks).Err?
    ensures FirstBad(extents, chunks, i)
    ensures Gather(extents, chunks).error == if extents[i].chunk in chunks then Corruption else NotFound
    decreases |extents|
  {
    hide ChunkDigest;
    if IsVerified(extents[0], chunks) {
      var k := GatherFails(extents[1..], chunks);
      i := k + 1;
      forall j | 0 <= j < i
        ensures IsVerified(extents[j], chunks)
      {
        assert j > 0 ==> extents[j] == extents[1..][j - 1];
      }
    } else {
      i := 0;
    }
  }

  ghost predicate ChunksCoherent(chunks: ChunkMap) {
    forall d | d in chunks :: ChunkDigest(chunks[d]) == d
  }

  lemma {:induction false} GatherPieces(offset: nat, pieces: seq<Str>, chunks: ChunkMap)
    requires ChunksCoherent(chunks)
    requires forall piece <- pieces :: ChunkDigest(piece) in chunks
    ensures Gather(ExtentsFrom(offset, pieces), chunks) == Ok(Flatten(pieces))
    decreases |pieces|
  {
    if pieces != [] {
      var x := ExtentsFrom(offset, pieces);
      assert x[1..] == ExtentsFrom(offset + |pieces[0]|, pieces[1..]);
      ChunkDigestInjective(chunks[ChunkDigest(pieces[0])], pieces[0]);
      GatherPieces(offset + |pieces[0]|, pieces[1..], chunks);
    }
  }

  /** Reading the extents of `bytes` out of any coherent store holding its chunks gives `bytes`. */
  lemma GatherInvertsChunking(bytes: Str, chunks: ChunkMap)
    requires ChunksCoherent(chunks)
    requires forall c <- Staged(bytes) :: c.digest in chunks
    ensures Gather(Extents(bytes), chunks) == Ok(bytes)
  {
    var pieces := Pieces(bytes, CHUNK_SIZE);
    forall piece | piece in pieces
      ensures ChunkDigest(piece) in chunks
    {
      var i :| 0 <= i < |pieces| && pieces[i] == piece;
      assert Staged(bytes)[i] in Staged(bytes);
    }
    GatherPieces(0, pieces, chunks);
    PiecesFlatten(bytes, CHUNK_SIZE);
  }

  // ---- the loops ----

  lemma {:induction false} FlattenAppend(pieces: seq<Str>, piece: Str)
    ensures Flatten(pieces + [piece]) == Flatten(pieces) + piece
  {
    if pieces == [] {
      assert [piece][1..] == [] && [] + [piece] == [piece];
      assert piece + [] == piece && [] + piece == piece;
    } else {
      assert (pieces + [piece])[0] == pieces[0] && (pieces + [piece])[1..] == pieces[1..] + [piece];
      FlattenAppend(pieces[1..], piece);
      Assoc(pieces[0], Flatten(pieces[1..]), piece);
    }
  }

  lemma NoPieces()
    ensures Flatten([]) == [] && ExtentsFrom(0, []) == [] && StagedOf([]) == []
  {
  }

  lemma FlattenedLength(pieces: seq<Str>)
    requires pieces != []
    ensures |Flatten(pieces)| == |pieces[0]| + |Flatten(pieces[1..])|
  {
  }

  lemma ExtentsFromCons(offset: nat, pieces: seq<Str>)
    requires pieces != []
    ensures ExtentsFrom(offset, pieces)
         == [Extent(offset, |pieces[0]|, ChunkDigest(pieces[0]))] + ExtentsFrom(offset + |pieces[0]|, pieces[1..])
  {
    hide ChunkDigest;
  }

  lemma {:induction false} ExtentsFromAppend(offset: nat, pieces: seq<Str>, piece: Str)
    ensures ExtentsFrom(offset, pieces + [piece])
         == ExtentsFrom(offset, pieces) + [Extent(offset + |Flatten(pieces)|, |piece|, ChunkDigest(piece))]
    decreases |pieces|
  {
    hide ChunkDigest, ExtentsFrom, Flatten;
    ExtentsFromCons(offset, pieces + [piece]);
    NoPieces();
    if pieces == [] {
      NoExtents(offset + |piece|, offset);
      assert [] + [piece] == [piece] && [piece][1..] == [];
    } else {
      var next := offset + |pieces[0]|;
      assert (pieces + [piece])[0] == pieces[0] && (pieces + [piece])[1..] == pieces[1..] + [piece];
      ExtentsFromCons(offset, pieces);
      ExtentsFromAppend(next, pieces[1..], piece);
      FlattenedLength(pieces);
      Assoc([Extent(offset, |pieces[0]|, ChunkDigest(pieces[0]))], ExtentsFrom(next, pieces[1..]),
          [Extent(offset + |Flatten(pieces)|, |piece|, ChunkDigest(piece))]);
    }
  }

  lemma NoExtents(a: nat, b: nat)
    ensures ExtentsFrom(a, []) == [] == ExtentsFrom(b, [])
  {
  }

  /** `chunk_bytes_with`: one pass with a running offset. */
  method ChunkBytesWith(bytes: Str, size: nat) returns (extents: seq<Extent>, chunks: seq<StagedChunk>)
    requires size > 0
    ensures extents == ExtentsFrom(0, Pieces(bytes, size))
    ensures chunks == StagedOf(Pieces(bytes, size))
  {
    hide ChunkDigest, Flatten, ExtentsFrom;
    var pieces := Pieces(bytes, size);
    extents, chunks := [], [];
    assert pieces[..0] == [];
    NoPieces();
    var offset := 0;
    for i := 0 to |pieces|
      invariant offset == |Flatten(pieces[..i])|
      invariant extents == ExtentsFrom(0, pieces[..i])
      invariant chunks == StagedOf(pieces[..i])
    {
      var piece := pieces[i];
      assert pieces[..i + 1] == pieces[..i] + [piece];
      ExtentsFromAppend(0, pieces[..i], piece);
      FlattenAppend(pieces[..i], piece);
      var digest := ChunkDigest(piece);
      extents := extents + [Extent(offset, |piece|, digest)];
      offset := offset + |piece|;
      chunks := chunks + [StagedChunk(digest, piece)];
    }
    assert pieces[..|pieces|] == pieces;
  }

  /** Extents that start at `offset` and leave no gap, each as long as its chunk. */
  predicate Contiguous(extents: seq<Extent>, chunks: ChunkMap, offset: nat) {
    extents == [] ||
    (&& extents[0].chunk in chunks
     && extents[0].fileOffset == offset
     && extents[0].length == |chunks[extents[0].chunk]|
     && Contiguous(extents[1..], chunks, offset + extents[0].length))
  }

  /** `assemble`: like reading, but every offset and length must agree with the bytes gathered so far. */
  method Assemble(extents: seq<Extent>, chunks: ChunkMap) returns (r: Result<Str>)
    ensures r.Ok? ==> r == Gather(extents, chunks)
    ensures r.Ok? <==> Gather(extents, chunks).Ok? && Contiguous(extents, chunks, 0)
  {
    var out: Str := [];
    for i := 0 to |extents|
      invariant Gather(extents, chunks).Ok? <==> Gather(extents[i..], chunks).Ok?
      invariant Gather(extents, chunks).Ok? ==>
                  Gather(extents, chunks).value == out + Gather(extents[i..], chunks).value
      invariant Contiguous(extents, chunks, 0) <==> Contiguous(extents[i..], chunks, |out|)
    {
      var ext := extents[i];
      assert extents[i..][0] == ext && extents[i..][1..] == extents[i + 1..];
      if ext.fileOffset != |out| {
        return Err(Corruption);
      }
      if ext.chunk !in chunks {
        return Err(NotFound);
      }
      var bytes := chunks[ext.chunk];
      if ChunkDigest(bytes) != ext.chunk {
        return Err(Corruption);
      }
      if |bytes| != ext.length {
        return Err(Corruption);
      }
      if Gather(extents[i + 1..], chunks).Ok? {
        Assoc(out, bytes, Gather(extents[i + 1..], chunks).value);
      }
      out := out + bytes;
    }
    assert extents[|extents|..] == [];
    assert out + [] == out;
    r := Ok(out);
  }

  lemma {:induction false} PiecesContiguous(offset: nat, pieces: seq<Str>, chunks: ChunkMap)
    requires ChunksCoherent(chunks)
    requires forall piece <- pieces :: ChunkDigest(piece) in chunks
    ensures Contiguous(ExtentsFrom(offset, pieces), chunks, offset)
    decreases |pieces|
  {
    if pieces != [] {
      var x := ExtentsFrom(offset, pieces);
      assert x[1..] == ExtentsFrom(offset + |pieces[0]|, pieces[1..]);
      ChunkDigestInjective(chunks[ChunkDigest(pieces[0])], pieces[0]);
      PiecesContiguous(offset + |pieces[0]|, pieces[1..], chunks);
    }
  }

  /** `assemble` accepts what chunking produced, at any chunk size, and gives back the bytes. */
  lemma AssembleInvertsChunking(bytes: Str, size: nat, chunks: ChunkMap)
    requires size > 0 && ChunksCoherent(chunks)
    requires forall piece <- Pieces(bytes, size) :: ChunkDigest(piece) in chunks
    ensures var extents := ExtentsFrom(0, Pieces(bytes, size));
            Gather(extents, chunks) == Ok(bytes) && Contiguous(extents, chunks, 0)
  {
    GatherPieces(0, Pieces(bytes, size), chunks);
    PiecesContiguous(0, Pieces(bytes, size), chunks);
    PiecesFlatten(bytes, size);
  }
}
