/** Portable archives: the record framing, and the checks a reader makes before accepting contents. */
module Archive {
  import opened Base
  import opened Canonical
  import opened State
  import opened Trees

  const END: byte := 0
  const MAGIC: Str := Ascii("SURREALFS-ARCHIVE-1\n")

  /** Whether bytes are UTF-8; nothing more is known about it. */
  const Utf8: Str -> bool

  datatype Record = Record(kind: byte, json: Str, blob: Str)

  /** A record a writer can be given: not the terminator, text that is text, lengths of 64 bits. */
  predicate Writable(r: Record) {
    r.kind != END && Utf8(r.json) && |r.json| < TWO64 && |r.blob| < TWO64
  }

  // ---- framing ----

  /** A 64-bit length, least significant byte first. */
  function LengthBytes(n: nat, k: nat): (r: Str)
    ensures |r| == k
  {
    if k == 0 then [] else [n % 0x100] + LengthBytes(n / 0x100, k - 1)
  }

  function LengthValue(s: Str): nat {
    if s == [] then 0 else s[0] + 0x100 * LengthValue(s[1..])
  }

  lemma {:induction false} LengthReads(n: nat, k: nat)
    requires n < Pow256(k)
    ensures LengthValue(LengthBytes(n, k)) == n
  {
    if k > 0 {
      LengthReads(n / 0x100, k - 1);
      assert LengthBytes(n, k)[1..] == LengthBytes(n / 0x100, k - 1);
    }
  }

  function Framed(s: Str): Str {
    LengthBytes(|s|, 8) + s
  }

  function Encoded(r: Record): Str {
    [r.kind] + (Framed(r.json) + Framed(r.blob))
  }

  function EncodedAll(records: seq<Record>): Str {
    if records == [] then [] else Encoded(records[0]) + EncodedAll(records[1..])
  }

  const TERMINATOR: Str := Encoded(Record(END, Ascii("{}"), []))

  /** A whole archive. */
  function Written(records: seq<Record>): Str {
    MAGIC + (EncodedAll(records) + TERMINATOR)
  }

  // ---- reading ----

  datatype Read<T> = Got(value: T, rest: Str) | Failed(error: Error)

  /** `read_framed`. */
  function ReadFramed(s: Str): Read<Str> {
    if |s| < 8 then Failed(Corruption)
    else
      var n := LengthValue(s[..8]);
      if |s| - 8 < n then Failed(Corruption) else Got(s[8..8 + n], s[8 + n..])
  }

  /** `next`: a record, or nothing at the terminator's kind byte. */
  function ReadNext(s: Str): Read<Option<Record>> {
    if s == [] then Failed(Corruption)
    else if s[0] == END then Got(None, s[1..])
    else
      match ReadFramed(s[1..])
      case Failed(e) => Failed(e)
      case Got(json, afterJson) =>
        match ReadFramed(afterJson)
        case Failed(e) => Failed(e)
        case Got(blob, rest) => if Utf8(json) then Got(Some(Record(s[0], json, blob)), rest) else Failed(Corruption)
  }

  lemma ReadNextShrinks(s: Str)
    ensures ReadNext(s).Got? ==> |ReadNext(s).rest| < |s|
  {
  }

  /** Every record up to the terminator. */
  function ReadAll(s: Str): Result<seq<Record>>
    decreases |s|
  {
    ReadNextShrinks(s);
    match ReadNext(s)
    case Failed(e) => Err(e)
    case Got(None, _) => Ok([])
    case Got(Some(r), rest) =>
      match ReadAll(rest)
      case Err(e) => Err(e)
      case Ok(more) => Ok([r] + more)
  }

  /** Opening and reading an archive. */
  function ReadArchiveRecords(s: Str): Result<seq<Record>> {
    if |s| < |MAGIC| || s[..|MAGIC|] != MAGIC then Err(Corruption) else ReadAll(s[|MAGIC|..])
  }

  // ---- what was written is read ----

  lemma FramedReads(s: Str, rest: Str)
    requires |s| < TWO64
    ensures ReadFramed(Framed(s) + rest) == Got(s, rest)
  {
    Pow256Of8();
    LengthReads(|s|, 8);
    var all := Framed(s) + rest;
    assert all[..8] == LengthBytes(|s|, 8);
    assert all[8..8 + |s|] == s && all[8 + |s|..] == rest;
  }

  lemma RecordReads(r: Record, rest: Str)
    requires Writable(r)
    ensures ReadNext(Encoded(r) + rest) == Got(Some(r), rest)
  {
    hide Framed, ReadFramed;
    var all := Encoded(r) + rest;
    assert all[0] == r.kind && all[1..] == Framed(r.json) + (Framed(r.blob) + rest);
    FramedReads(r.json, Framed(r.blob) + rest);
    FramedReads(r.blob, rest);
  }

  lemma {:induction false} AllRead(records: seq<Record>, tail: Str)
    requires forall r <- records :: Writable(r)
    ensures ReadAll(EncodedAll(records) + ([END] + tail)) == Ok(records)
    decreases |records|
  {
    hide Encoded, ReadNext;
    if records == [] {
      assert [] + ([END] + tail) == [END] + tail;
      assert ReadNext([END] + tail) == Got(None, tail) by {
        EndReads(tail);
      }
    } else {
      var rest := EncodedAll(records[1..]) + ([END] + tail);
      assert EncodedAll(records) + ([END] + tail) == Encoded(records[0]) + rest;
      RecordReads(records[0], rest);
      AllRead(records[1..], tail);
      assert records == [records[0]] + records[1..];
    }
  }

  lemma EndReads(tail: Str)
    ensures ReadNext([END] + tail) == Got(None, tail)
  {
    assert ([END] + tail)[1..] == tail;
  }

  /** Reading what a writer wrote yields exactly the records, and whatever follows the archive is ignored. */
  lemma FramingRoundTrip(records: seq<Record>, extra: Str)
    requires forall r <- records :: Writable(r)
    ensures ReadArchiveRecords(Written(records) + extra) == Ok(records)
  {
    hide EncodedAll, ReadAll;
    var tail := TERMINATOR[1..] + extra;
    var all := Written(records) + extra;
    assert TERMINATOR[0] == END;
    assert all[..|MAGIC|] == MAGIC;
    assert all[|MAGIC|..] == EncodedAll(records) + ([END] + tail);
    AllRead(records, tail);
  }

  // ---- truncation ----

  lemma FramedCut(s: Str, rest: Str, k: nat)
    requires |s| < TWO64 && k < |Framed(s)|
    ensures ReadFramed((Framed(s) + rest)[..k]).Failed?
  {
    Pow256Of8();
    LengthReads(|s|, 8);
    var cut := (Framed(s) + rest)[..k];
    if k >= 8 {
      assert cut[..8] == LengthBytes(|s|, 8);
    }
  }

  lemma RecordCut(r: Record, rest: Str, k: nat)
    requires Writable(r) && k < |Encoded(r)|
    ensures ReadNext((Encoded(r) + rest)[..k]).Failed?
  {
    hide Framed, ReadFramed;
    var cut := (Encoded(r) + rest)[..k];
    if k > 0 {
      var j, b := Framed(r.json), Framed(r.blob);
      assert cut[0] == r.kind;
      assert cut[1..] == (j + (b + rest))[..k - 1];
      if k - 1 < |j| {
        FramedCut(r.json, b + rest, k - 1);
      } else {
        assert cut[1..] == j + (b + rest)[..k - 1 - |j|];
        FramedReads(r.json, (b + rest)[..k - 1 - |j|]);
        FramedCut(r.blob, rest, k - 1 - |j|);
      }
    }
  }

  lemma {:induction false} AllCut(records: seq<Record>, rest: Str, k: nat)
    requires (forall r <- records :: Writable(r)) && k <= |EncodedAll(records)|
    ensures ReadAll((EncodedAll(records) + rest)[..k]).Err?
    decreases |records|
  {
    hide Encoded, ReadNext;
    var cut := (EncodedAll(records) + rest)[..k];
    if k == 0 {
      assert ReadNext([]).Failed? by {
        NothingReads();
      }
    } else {
      var head := Encoded(records[0]);
      var more := EncodedAll(records[1..]) + rest;
      assert EncodedAll(records) + rest == head + more;
      if k < |head| {
        RecordCut(records[0], more, k);
      } else {
        assert cut == head + more[..k - |head|];
        RecordReads(records[0], more[..k - |head|]);
        AllCut(records[1..], rest, k - |head|);
      }
    }
  }

  lemma NothingReads()
    ensures ReadNext([]).Failed?
  {
  }

  /** Every archive cut before its terminator's kind byte is rejected. */
  lemma TruncationRejected(records: seq<Record>, k: nat)
    requires (forall r <- records :: Writable(r)) && k <= |MAGIC| + |EncodedAll(records)|
    ensures ReadArchiveRecords(Written(records)[..k]).Err?
  {
    hide EncodedAll, ReadAll;
    var cut := Written(records)[..k];
    if k >= |MAGIC| {
      assert cut[..|MAGIC|] == MAGIC;
      assert cut[|MAGIC|..] == (EncodedAll(records) + TERMINATOR)[..k - |MAGIC|];
      AllCut(records, TERMINATOR, k - |MAGIC|);
    }
  }

  // ---- the writer and the reader ----

  class ArchiveWriter {
    var out: Str

    constructor ()
      ensures out == MAGIC
    {
      out := MAGIC;
    }

    method WriteRecord(r: Record)
      modifies this
      ensures out == old(out) + Encoded(r)
    {
      out := out + [r.kind];
      out := out + LengthBytes(|r.json|, 8);
      out := out + r.json;
      out := out + LengthBytes(|r.blob|, 8);
      out := out + r.blob;
    }

    method Finish()
      modifies this
      ensures out == old(out) + TERMINATOR
    {
      WriteRecord(Record(END, Ascii("{}"), []));
    }
  }

  /** Write a list of records as one archive. */
  method WriteAll(records: seq<Record>) returns (out: Str)
    ensures out == Written(records)
  {
    hide Encoded;
    var w := new ArchiveWriter();
    for i := 0 to |records|
      invariant fresh(w) && w.out + EncodedAll(records[i..]) == MAGIC + EncodedAll(records)
    {
      assert records[i..][0] == records[i] && records[i..][1..] == records[i + 1..];
      Assoc(w.out, Encoded(records[i]), EncodedAll(records[i + 1..]));
      w.WriteRecord(records[i]);
    }
    assert records[|records|..] == [] && w.out + [] == w.out;
    Assoc(MAGIC, EncodedAll(records), TERMINATOR);
    w.Finish();
    out := w.out;
  }

  class ArchiveReader {
    const input: Str
    var pos: nat

    ghost predicate Valid()
      reads this
    {
      pos <= |input|
    }

    ghost function Rest(): Str
      reads this
      requires Valid()
    {
      input[pos..]
    }

    /** A reader past the magic line. */
    constructor (input: Str)
      requires |MAGIC| <= |input|
      ensures Valid() && this.input == input && pos == |MAGIC|
    {
      this.input := input;
      pos := |MAGIC|;
    }

    method Framed() returns (r: Result<Str>)
      requires Valid()
      modifies this`pos
      ensures Valid()
      ensures match ReadFramed(old(Rest()))
              case Failed(e) => r == Err(e)
              case Got(s, rest) => r == Ok(s) && Rest() == rest
    {
      if |input| - pos < 8 {
        return Err(Corruption);
      }
      var n := LengthValue(input[pos..pos + 8]);
      assert Rest()[..8] == input[pos..pos + 8];
      if |input| - pos - 8 < n {
        return Err(Corruption);
      }
      assert Rest()[8..8 + n] == input[pos + 8..pos + 8 + n] && Rest()[8 + n..] == input[pos + 8 + n..];
      r := Ok(input[pos + 8..pos + 8 + n]);
      pos := pos + 8 + n;
    }

    method Next() returns (r: Result<Option<Record>>)
      requires Valid()
      modifies this`pos
      ensures Valid()
      ensures match ReadNext(old(Rest()))
              case Failed(e) => r == Err(e)
              case Got(x, rest) => r == Ok(x) && Rest() == rest
    {
      hide ReadFramed;
      if pos == |input| {
        return Err(Corruption);
      }
      var kind := input[pos];
      assert Rest()[1..] == input[pos + 1..];
      pos := pos + 1;
      if kind == END {
        return Ok(None);
      }
      var json := Framed();
      if json.Err? {
        return Err(json.error);
      }
      var blob := Framed();
      if blob.Err? {
        return Err(blob.error);
      }
      if !Utf8(json.value) {
        return Err(Corruption);
      }
      r := Ok(Some(Record(kind, json.value, blob.value)));
    }
  }

  // ---- accepting contents ----

  const HASH_VERSION: nat := 1
  const ROOT_FORMAT_VERSION: nat := 1

  const HEADER: byte := 1
  const CHUNK: byte := 2
  const TREE_NODE: byte := 3
  const KV_NODE: byte := 4
  const STATE_ROOT: byte := 5
  const LAST_KIND: byte := 12

  datatype Header = Header(hashVersion: nat, rootFormat: nat)
  datatype RootLine = RootLine(root: RootId, ns: NodeId, kv: NodeId)

  /** What a record's text says, as far as the checks read it; nothing is known about the text format. */
  const HeaderOf: Str -> Option<Header>
  const ChunkOf: Str -> Option<ChunkId>
  const TreeNodeOf: Str -> Option<(NodeId, DirNode)>
  const KvNodeOf: Str -> Option<(NodeId, KvMap)>
  const RootOf: Str -> Option<RootLine>
  const Readable: (byte, Str) -> bool

  datatype Contents = Contents(
    header: Option<Header>,
    chunks: seq<(ChunkId, Str)>,
    trees: seq<(NodeId, DirNode)>,
    kvs: seq<(NodeId, KvMap)>,
    roots: seq<RootLine>,
    others: seq<Record>)

  const NOTHING := Contents(None, [], [], [], [], [])

  /** One record checked and taken in. */
  function Accept(c: Contents, r: Record): Option<Contents> {
    if r.kind == HEADER then
      match HeaderOf(r.json)
      case None => None
      case Some(h) =>
        if h.hashVersion != HASH_VERSION || h.rootFormat != ROOT_FORMAT_VERSION then None
        else Some(c.(header := Some(h)))
    else if r.kind == CHUNK then
      match ChunkOf(r.json)
      case None => None
      case Some(d) => if ChunkDigest(r.blob) != d then None else Some(c.(chunks := c.chunks + [(d, r.blob)]))
    else if r.kind == TREE_NODE then
      match TreeNodeOf(r.json)
      case None => None
      case Some((id, node)) => if DirDigest(node) != id then None else Some(c.(trees := c.trees + [(id, node)]))
    else if r.kind == KV_NODE then
      match KvNodeOf(r.json)
      case None => None
      case Some((id, kv)) => if KvDigest(kv) != id then None else Some(c.(kvs := c.kvs + [(id, kv)]))
    else if r.kind == STATE_ROOT then
      match RootOf(r.json)
      case None => None
      case Some(line) => if RootDigest(line.ns, line.kv) != line.root then None else Some(c.(roots := c.roots + [line]))
    else if r.kind <= LAST_KIND && Readable(r.kind, r.json) then Some(c.(others := c.others + [r]))
    else None
  }

  function AcceptAll(c: Contents, records: seq<Record>): Option<Contents>
    decreases |records|
  {
    if records == [] then Some(c)
    else
      match Accept(c, records[0])
      case None => None
      case Some(next) => AcceptAll(next, records[1..])
  }

  function NodesOf(c: Contents): set<NodeId> {
    (set x | x in c.trees :: x.0) + (set x | x in c.kvs :: x.0)
  }

  /** The closing checks: a header, and both nodes of every root. */
  predicate Complete(c: Contents) {
    c.header.Some? && forall line <- c.roots :: line.ns in NodesOf(c) && line.kv in NodesOf(c)
  }

  /** Nothing in the contents is taken on trust. */
  ghost predicate Verified(c: Contents) {
    && (c.header.Some? ==> c.header.value == Header(HASH_VERSION, ROOT_FORMAT_VERSION))
    && (forall x <- c.chunks :: ChunkDigest(x.1) == x.0)
    && (forall x <- c.trees :: DirDigest(x.1) == x.0)
    && (forall x <- c.kvs :: KvDigest(x.1) == x.0)
    && (forall line <- c.roots :: RootDigest(line.ns, line.kv) == line.root)
  }

  lemma AcceptVerifies(c: Contents, r: Record)
    requires Verified(c) && Accept(c, r).Some?
    ensures Verified(Accept(c, r).value)
  {
    hide DirDigest, KvDigest, RootDigest, ChunkDigest;
  }

  // ---- what is accepted ----

  /** The contents hold a node under this id. */
  ghost predicate Present(c: Contents, id: NodeId) {
    (exists x :: x in c.trees && x.0 == id) || (exists x :: x in c.kvs && x.0 == id)
  }

  /** There is a header, and no root names a node that did not arrive. */
  ghost predicate Whole(c: Contents) {
    c.header.Some? && forall line | line in c.roots :: Present(c, line.ns) && Present(c, line.kv)
  }

  lemma CompleteIsWhole(c: Contents)
    ensures Complete(c) <==> Whole(c)
  {
    forall id: NodeId
      ensures id in NodesOf(c) <==> Present(c, id)
    {
    }
  }

  /** A record that checks out by itself: it can be read, and what it holds is what it says it is. */
  ghost predicate Genuine(r: Record) {
    if r.kind == HEADER then HeaderOf(r.json) == Some(Header(HASH_VERSION, ROOT_FORMAT_VERSION))
    else if r.kind == CHUNK then ChunkOf(r.json) == Some(ChunkDigest(r.blob))
    else if r.kind == TREE_NODE then
      TreeNodeOf(r.json).Some? && TreeNodeOf(r.json).value.0 == DirDigest(TreeNodeOf(r.json).value.1)
    else if r.kind == KV_NODE then
      KvNodeOf(r.json).Some? && KvNodeOf(r.json).value.0 == KvDigest(KvNodeOf(r.json).value.1)
    else if r.kind == STATE_ROOT then
      RootOf(r.json).Some? && RootOf(r.json).value.root == RootDigest(RootOf(r.json).value.ns, RootOf(r.json).value.kv)
    else r.kind <= LAST_KIND && Readable(r.kind, r.json)
  }

  /** What the records of one kind hold, in the order they came. */
  ghost function Picked<T>(records: seq<Record>, pick: Record -> Option<T>): seq<T> {
    if records == [] then []
    else (if pick(records[0]).Some? then [pick(records[0]).value] else []) + Picked(records[1..], pick)
  }

  function ChunkIn(r: Record): Option<(ChunkId, Str)> {
    if r.kind == CHUNK && ChunkOf(r.json).Some? then Some((ChunkOf(r.json).value, r.blob)) else None
  }

  function TreeIn(r: Record): Option<(NodeId, DirNode)> {
    if r.kind == TREE_NODE then TreeNodeOf(r.json) else None
  }

  function KvIn(r: Record): Option<(NodeId, KvMap)> {
    if r.kind == KV_NODE then KvNodeOf(r.json) else None
  }

  function RootIn(r: Record): Option<RootLine> {
    if r.kind == STATE_ROOT then RootOf(r.json) else None
  }

  function OtherIn(r: Record): Option<Record> {
    if r.kind in {HEADER, CHUNK, TREE_NODE, KV_NODE, STATE_ROOT} then None else Some(r)
  }

  /** `after` is `c` and then exactly what the records hold: nothing dropped, nothing made up, nothing reordered. */
  ghost predicate Collects(c: Contents, records: seq<Record>, after: Contents) {
    && after.chunks == c.chunks + Picked(records, ChunkIn)
    && after.trees == c.trees + Picked(records, TreeIn)
    && after.kvs == c.kvs + Picked(records, KvIn)
    && after.roots == c.roots + Picked(records, RootIn)
    && after.others == c.others + Picked(records, OtherIn)
    && (after.header.Some? <==> c.header.Some? || exists r <- records :: r.kind == HEADER)
  }

  lemma AcceptOne(c: Contents, r: Record)
    ensures Accept(c, r).Some? <==> Genuine(r)
    ensures Accept(c, r).Some? ==> Collects(c, [r], Accept(c, r).value)
  {
    hide DirDigest, KvDigest, RootDigest, ChunkDigest, Picked;
    PickedOne(r, ChunkIn);
    PickedOne(r, TreeIn);
    PickedOne(r, KvIn);
    PickedOne(r, RootIn);
    PickedOne(r, OtherIn);
  }

  lemma PickedOne<T>(r: Record, pick: Record -> Option<T>)
    ensures Picked([r], pick) == if pick(r).Some? then [pick(r).value] else []
  {
    assert [r][1..] == [];
  }

  lemma PickedStep<T>(records: seq<Record>, pick: Record -> Option<T>)
    requires records != []
    ensures Picked(records, pick) == Picked([records[0]], pick) + Picked(records[1..], pick)
  {
    PickedOne(records[0], pick);
  }

  lemma CollectsTwice(a: Contents, b: Contents, c: Contents, records: seq<Record>)
    requires records != [] && Collects(a, [records[0]], b) && Collects(b, records[1..], c)
    ensures Collects(a, records, c)
  {
    hide ChunkIn, TreeIn, KvIn, RootIn, OtherIn, Picked;
    PickedStep(records, ChunkIn);
    PickedStep(records, TreeIn);
    PickedStep(records, KvIn);
    PickedStep(records, RootIn);
    PickedStep(records, OtherIn);
    assert records == [records[0]] + records[1..];
  }

  /** Every record is checked, and all of them together are what is returned. */
  lemma {:induction false} AcceptedExactly(c: Contents, records: seq<Record>)
    ensures AcceptAll(c, records).Some? <==> forall r <- records :: Genuine(r)
    ensures AcceptAll(c, records).Some? ==> Collects(c, records, AcceptAll(c, records).value)
    decreases |records|
  {
    hide Accept, Genuine, Collects;
    if records == [] {
      NothingCollected(c);
    } else {
      assert records == [records[0]] + records[1..];
      AcceptOne(c, records[0]);
      if Accept(c, records[0]).Some? {
        var next := Accept(c, records[0]).value;
        AcceptedExactly(next, records[1..]);
        if AcceptAll(next, records[1..]).Some? {
          CollectsTwice(c, next, AcceptAll(next, records[1..]).value, records);
        }
      }
    }
  }

  lemma NothingCollected(c: Contents)
    ensures Collects(c, [], c)
  {
  }

  /** `read_archive`: read and check record by record, before anything reaches a store. */
  method ReadArchive(input: Str) returns (r: Result<Contents>)
    ensures r.Ok? <==> ReadArchiveRecords(input).Ok?
                       && AcceptAll(NOTHING, ReadArchiveRecords(input).value).Some?
                       && Whole(AcceptAll(NOTHING, ReadArchiveRecords(input).value).value)
    ensures r.Ok? ==> Some(r.value) == AcceptAll(NOTHING, ReadArchiveRecords(input).value)
    ensures r.Ok? ==> Verified(r.value) && Whole(r.value)
    ensures r.Ok? ==> var records := ReadArchiveRecords(input).value;
                      (forall x <- records :: Genuine(x)) && Collects(NOTHING, records, r.value)
  {
    hide ReadNext, Accept, DirDigest, KvDigest, RootDigest, ChunkDigest, Genuine, Collects, Complete, Whole;
    if ReadArchiveRecords(input).Ok? {
      AcceptedExactly(NOTHING, ReadArchiveRecords(input).value);
    }
    if |input| < |MAGIC| || input[..|MAGIC|] != MAGIC {
      return Err(Corruption);
    }
    var reader := new ArchiveReader(input);
    var c := NOTHING;
    while true
      invariant fresh(reader) && reader.Valid() && Verified(c)
      invariant ReadAll(reader.Rest()).Ok? <==> ReadArchiveRecords(input).Ok?
      invariant ReadAll(reader.Rest()).Ok? ==>
                  AcceptAll(c, ReadAll(reader.Rest()).value) == AcceptAll(NOTHING, ReadArchiveRecords(input).value)
      decreases |reader.Rest()|
    {
      ghost var rest := reader.Rest();
      ReadNextShrinks(rest);
      var next := reader.Next();
      if next.Err? {
        return Err(next.error);
      }
      if next.value.None? {
        break;
      }
      var record := next.value.value;
      TakeOne(c, rest, record, reader.Rest());
      var accepted := Accept(c, record);
      if accepted.None? {
        return Err(Corruption);
      }
      AcceptVerifies(c, record);
      c := accepted.value;
    }
    CompleteIsWhole(c);
    if !Complete(c) {
      return Err(Corruption);
    }
    r := Ok(c);
  }

  lemma TakeOne(c: Contents, s: Str, r: Record, rest: Str)
    requires ReadNext(s) == Got(Some(r), rest)
    ensures ReadAll(s).Ok? <==> ReadAll(rest).Ok?
    ensures ReadAll(s).Ok? ==>
              AcceptAll(c, ReadAll(s).value)
              == match Accept(c, r) case None => None case Some(next) => AcceptAll(next, ReadAll(rest).value)
  {
    hide ReadNext, Accept;
    ReadNextShrinks(s);
    if ReadAll(rest).Ok? {
      var all := [r] + ReadAll(rest).value;
      assert all[0] == r && all[1..] == ReadAll(rest).value;
    }
  }
}
