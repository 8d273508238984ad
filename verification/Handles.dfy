/** Open file handles: positional writes against a buffer, flushed back on close. */
module Handles {
  import opened Base
  import opened Paths
  import opened Canonical
  import opened State
  import opened Trees
  import opened TreeOps
  import opened Nodes
  import opened Chunks
  import opened Database
  import opened WorkspaceSpec
  import opened Links
  import opened LinkGroups
  import opened Workspace

  const MAX_OPEN_FILE_BYTES: nat := 256 * 0x10_0000

  // ---- the buffer ----

  function Zeros(n: nat): (r: Str)
    ensures |r| == n && forall i | 0 <= i < n :: r[i] == 0
  {
    seq(n, _ => 0)
  }

  /** `Vec::resize` with zeroes. */
  function Resized(bytes: Str, n: nat): (r: Str)
    ensures |r| == n
    ensures forall i | 0 <= i < n :: r[i] == if i < |bytes| then bytes[i] else 0
  {
    if n <= |bytes| then bytes[..n] else bytes + Zeros(n - |bytes|)
  }

  datatype Io = PWrite(offset: nat, data: Str) | Truncate(size: nat)

  /** Why an operation on a handle is refused, if it is. */
  function IoRefused(io: Io): Option<Error> {
    match io
    case PWrite(offset, data) =>
      if offset + |data| >= TWO64 then Some(InvalidPath)
      else if offset + |data| > MAX_OPEN_FILE_BYTES then Some(OverBudget)
      else None
    case Truncate(size) => if size > MAX_OPEN_FILE_BYTES then Some(OverBudget) else None
  }

  function Overwritten(bytes: Str, offset: nat, data: Str): (r: Str) {
    var wide := if offset + |data| > |bytes| then Resized(bytes, offset + |data|) else bytes;
    wide[..offset] + data + wide[offset + |data|..]
  }

  function AfterIo(bytes: Str, io: Io): Str {
    if IoRefused(io).Some? then bytes
    else
      match io
      case PWrite(offset, data) => Overwritten(bytes, offset, data)
      case Truncate(size) => Resized(bytes, size)
  }

  function AfterIos(bytes: Str, ios: seq<Io>): Str {
    if ios == [] then bytes else AfterIo(AfterIos(bytes, ios[..|ios| - 1]), ios[|ios| - 1])
  }

  // ---- last writer wins ----

  /** The size after a run, from the operations alone. */
  function SizeAfter(size: nat, ios: seq<Io>): nat {
    if ios == [] then size
    else
      var before := SizeAfter(size, ios[..|ios| - 1]);
      var io := ios[|ios| - 1];
      if IoRefused(io).Some? then before
      else
        match io
        case PWrite(offset, data) => if offset + |data| > before then offset + |data| else before
        case Truncate(n) => n
  }

  /** The byte at `k` after a run: the last write covering it, zero if a truncation below it came later. */
  function LastWritten(bytes: Str, ios: seq<Io>, k: nat): byte {
    if ios == [] then (if k < |bytes| then bytes[k] else 0)
    else
      var rest := ios[..|ios| - 1];
      match ios[|ios| - 1]
      case PWrite(offset, data) =>
        if IoRefused(PWrite(offset, data)).None? && offset <= k < offset + |data| then data[k - offset]
        else LastWritten(bytes, rest, k)
      case Truncate(n) =>
        if IoRefused(Truncate(n)).None? && k >= n then 0 else LastWritten(bytes, rest, k)
  }

  lemma OverwrittenAt(bytes: Str, offset: nat, data: Str, k: nat)
    ensures |Overwritten(bytes, offset, data)| == if offset + |data| > |bytes| then offset + |data| else |bytes|
    ensures k < |Overwritten(bytes, offset, data)| ==>
              Overwritten(bytes, offset, data)[k] ==
                if offset <= k < offset + |data| then data[k - offset] else if k < |bytes| then bytes[k] else 0
  {
  }

  /** Bytes past the end read as zero would, had the file reached that far. */
  lemma {:induction false} PastTheEnd(bytes: Str, ios: seq<Io>, k: nat)
    requires k >= SizeAfter(|bytes|, ios)
    ensures LastWritten(bytes, ios, k) == 0
    decreases |ios|
  {
    if ios != [] {
      var rest, io := ios[..|ios| - 1], ios[|ios| - 1];
      if k >= SizeAfter(|bytes|, rest) {
        PastTheEnd(bytes, rest, k);
      }
    }
  }

  /** Any run of writes and truncations is byte-wise last-writer-wins, with zero-filled gaps. */
  lemma {:induction false} LastWriterWins(bytes: Str, ios: seq<Io>, k: nat)
    ensures |AfterIos(bytes, ios)| == SizeAfter(|bytes|, ios)
    ensures k < |AfterIos(bytes, ios)| ==> AfterIos(bytes, ios)[k] == LastWritten(bytes, ios, k)
    decreases |ios|
  {
    if ios != [] {
      var rest, io := ios[..|ios| - 1], ios[|ios| - 1];
      LastWriterWins(bytes, rest, k);
      hide Overwritten;
      if k >= SizeAfter(|bytes|, rest) {
        PastTheEnd(bytes, rest, k);
      }
      match io
      case PWrite(offset, data) => OverwrittenAt(AfterIos(bytes, rest), offset, data, k);
      case Truncate(n) =>
    }
  }

  /** An operation is accepted exactly when the file it would leave is within the limit of an open file. */
  lemma IoAccepted(io: Io)
    ensures IoRefused(io).None? <==>
              match io
              case PWrite(offset, data) => offset + |data| <= MAX_OPEN_FILE_BYTES
              case Truncate(size) => size <= MAX_OPEN_FILE_BYTES
    ensures IoRefused(io) in {None, Some(OverBudget)}
            || (io.PWrite? && io.offset + |io.data| >= TWO64 && IoRefused(io) == Some(InvalidPath))
  {
  }

  /** No run of operations makes a file larger than the limit, unless it was opened larger. */
  lemma {:induction false} SizeBounded(size: nat, ios: seq<Io>)
    requires size <= MAX_OPEN_FILE_BYTES
    ensures SizeAfter(size, ios) <= MAX_OPEN_FILE_BYTES
    decreases |ios|
  {
    if ios != [] {
      SizeBounded(size, ios[..|ios| - 1]);
    }
  }

  // ---- handles ----

  class FileHandle {
    const path: Path
    var bytes: Str
    const meta: Meta
    var dirty: bool
    const origin: Option<Digest>

    constructor (path: Path, bytes: Str, meta: Meta, dirty: bool, origin: Option<Digest>)
      ensures this.path == path && this.bytes == bytes && this.meta == meta && this.dirty == dirty
      ensures this.origin == origin
    {
      this.path, this.bytes, this.meta, this.dirty, this.origin := path, bytes, meta, dirty, origin;
    }

    ghost predicate Holds(o: Opening)
      reads this
    {
      bytes == o.bytes && meta == o.meta && dirty == o.dirty && origin == o.origin
    }

    /** Read up to `len` bytes at `offset`; what lies past the end is simply not there. */
    method PRead(offset: nat, len: nat) returns (r: Str)
      ensures |r| == if offset >= |bytes| then 0 else if offset + len > |bytes| then |bytes| - offset else len
      ensures forall i | 0 <= i < |r| :: r[i] == bytes[offset + i]
    {
      var start := if offset < |bytes| then offset else |bytes|;
      var end := if start + len < |bytes| then start + len else |bytes|;
      r := bytes[start..end];
    }

    /** Write at `offset`, extending the file and zero-filling any gap. */
    method PWriteAt(offset: nat, data: Str) returns (r: Result<nat>)
      modifies this`bytes, this`dirty
      ensures bytes == AfterIo(old(bytes), PWrite(offset, data))
      ensures r == match IoRefused(PWrite(offset, data)) case None => Ok(|data|) case Some(e) => Err(e)
      ensures dirty == (old(dirty) || r.Ok?)
      ensures r.Ok? <==> offset + |data| <= MAX_OPEN_FILE_BYTES
    {
      IoAccepted(PWrite(offset, data));
      var end := offset + |data|;
      if end >= TWO64 {
        return Err(InvalidPath);
      }
      if end > MAX_OPEN_FILE_BYTES {
        return Err(OverBudget);
      }
      if end > |bytes| {
        bytes := Resized(bytes, end);
      }
      bytes := bytes[..offset] + data + bytes[end..];
      dirty := true;
      r := Ok(|data|);
    }

    method TruncateTo(size: nat) returns (r: Result<Unit>)
      modifies this`bytes, this`dirty
      ensures bytes == AfterIo(old(bytes), Truncate(size))
      ensures r == match IoRefused(Truncate(size)) case None => Ok(()) case Some(e) => Err(e)
      ensures dirty == (old(dirty) || r.Ok?)
      ensures r.Ok? <==> size <= MAX_OPEN_FILE_BYTES
    {
      if size > MAX_OPEN_FILE_BYTES {
        return Err(OverBudget);
      }
      bytes := Resized(bytes, size);
      dirty := true;
      r := Ok(());
    }
  }

  // ---- opening ----

  /** What a fresh handle holds. */
  datatype Opening = Opening(bytes: Str, meta: Meta, dirty: bool, origin: Option<Digest>)

  /** What opening a path gives: its content, or nothing of it; `create` allows a path where nothing is. */
  ghost function OpeningOf(ws: WsState, chunks: ChunkMap, p: Path, create: bool, truncate: bool): Result<Opening> {
    if !ws.isOpen then Err(WorkspaceClosed)
    else
      match NodeAt(ws.tree, p)
      case None => if create then Ok(Opening([], FILE_META, true, None)) else Err(NotFound)
      case Some(DirN(_, _)) => Err(IsADirectory)
      case Some(SymN(_, _)) => Err(InvalidPath)
      case Some(FileN(meta, size, extents, links)) =>
        var content := if truncate then Ok([]) else ReadContent(ws.tree, p, chunks);
        if content.Err? then Err(content.error)
        else
          Ok(Opening(content.value, meta, truncate, Some(EntryDigest(ToEntry(FileN(meta, size, extents, links))))))
  }

  /** Open a file, materialising its content. */
  method OpenFile(w: Workspace, p: Path, create: bool, truncate: bool) returns (r: Result<FileHandle>)
    requires w.Valid()
    modifies w`cache, w.store.resident
    ensures w.Valid() && w.State() == old(w.State()) && w.Visible() == old(w.Visible())
    ensures match OpeningOf(w.State(), w.Visible(), p, create, truncate)
            case Err(e) => r == Err(e)
            case Ok(o) => r.Ok? && fresh(r.value) && r.value.path == p && r.value.Holds(o)
  {
    hide IdOf, DirDigest, ToEntry, EntryDigest, Stored, Loaded, NodeAt, ReadContent;
    if !w.isOpen {
      return Err(WorkspaceClosed);
    }
    var found, n := w.Inspect(p);
    if found.None? {
      if create {
        var h := new FileHandle(p, [], FILE_META, true, None);
        return Ok(h);
      }
      return Err(NotFound);
    }
    match found.value
    case Dir(_, _) => return Err(IsADirectory);
    case Sym(_, _) => return Err(InvalidPath);
    case File(meta, _, _, _) =>
      var digest := EntryDigest(found.value);
      var bytes := [];
      if !truncate {
        var content := w.ReadFile(p);
        if content.Err? {
          return Err(content.error);
        }
        bytes := content.value;
      }
      var h := new FileHandle(p, bytes, meta, truncate, Some(digest));
      r := Ok(h);
  }

  // ---- closing ----

  /** Whether the file that a handle opened is still the one at its path. */
  ghost predicate StillThere(t: Tree, p: Path, origin: Option<Digest>) {
    match (origin, NodeAt(t, p))
    case (None, None) => true
    case (None, Some(_)) => false
    case (Some(_), None) => false
    case (Some(d), Some(n)) => EntryDigest(ToEntry(n)) == d
  }

  datatype CloseOutcome = CloseOutcome(ws: WsState, result: Result<bool>)

  /** Flush a handle back into the workspace, unless its file is gone or was replaced. */
  ghost function Closed(ws: WsState, p: Path, bytes: Str, meta: Meta, dirty: bool,
                        origin: Option<Digest>): CloseOutcome {
    if !ws.isOpen then CloseOutcome(ws, Err(WorkspaceClosed))
    else if !dirty then CloseOutcome(ws, Ok(true))
    else if !StillThere(ws.tree, p, origin) then CloseOutcome(ws, Ok(false))
    else
      var o := Write(ws, p, bytes);
      if o.result.Err? then CloseOutcome(o.ws, Err(o.result.error))
      else if meta == FILE_META then CloseOutcome(o.ws, Ok(true))
      else
        var m := MetaSet(o.ws, p, Some(meta.mode), Some(meta.uid), Some(meta.gid));
        CloseOutcome(m.ws, if m.result.Err? then Err(m.result.error) else Ok(true))
  }

  method Close(w: Workspace, h: FileHandle) returns (r: Result<bool>)
    requires w.Valid()
    modifies w, w.store.resident
    ensures w.Valid()
    ensures CloseOutcome(w.State(), r) == Closed(old(w.State()), h.path, old(h.bytes), h.meta, old(h.dirty), h.origin)
  {
    hide IdOf, DirDigest, ToEntry, EntryDigest, Stored, Loaded, NodeAt, Write, MetaSet, Describes;
    if !w.isOpen {
      return Err(WorkspaceClosed);
    }
    if !h.dirty {
      return Ok(true);
    }
    var bytes := h.bytes;
    var found, n := w.Inspect(h.path);
    var writeBack := match (h.origin, found)
                     case (None, None) => true
                     case (None, Some(_)) => false
                     case (Some(_), None) => false
                     case (Some(d), Some(entry)) => EntryDigest(entry) == d;
    assert found.Some? ==> found.value == ToEntry(n.value) by {
      if found.Some? {
        DescribesEntry(found.value, n.value);
      }
    }
    assert writeBack <==> StillThere(w.tree, h.path, h.origin);
    if !writeBack {
      return Ok(false);
    }
    var written := w.WriteFile(h.path, bytes);
    if written.Err? {
      return Err(written.error);
    }
    if h.meta != FILE_META {
      var changed := w.ChangeMeta(h.path, Some(h.meta.mode), Some(h.meta.uid), Some(h.meta.gid));
      if changed.Err? {
        return Err(changed.error);
      }
    }
    r := Ok(true);
  }

  lemma DescribesEntry(e: Entry, n: Node)
    requires Describes(e, n)
    ensures e == ToEntry(n)
  {
  }

  // ---- what a close means ----

  /** Chunks a read could see: anything sound that includes the held ones. */
  ghost predicate Sees(chunks: ChunkMap, ws: WsState) {
    ChunksCoherent(chunks) && ws.staged.Keys <= chunks.Keys
  }

  /**
   * What a path holds once it was written. A write goes to the names its file lists: where a rename or a copy
   * broke the group, the path itself may not be among them, or one of them may lie above it.
   */
  function AfterWrite(there: Option<Node>, p: Path, bytes: Str): Option<Node> {
    if NameAbove(there, p) then None
    else if p in WriteTargets(there, p) then Some(WrittenFile(there, bytes))
    else there
  }

  predicate NameAbove(there: Option<Node>, p: Path) {
    exists q <- WriteTargets(there, p) :: q <= p && q != p
  }

  /** Exactly what a successful write leaves at its path. */
  lemma WriteLeaves(ws: WsState, p: Path, bytes: Str)
    requires Write(ws, p, bytes).result.Ok?
    ensures p != []
    ensures var there := NodeAt(ws.tree, p);
            && NodeAt(Write(ws, p, bytes).ws.tree, p) == AfterWrite(there, p, bytes)
            && (GroupsOk(ws.tree) ==> p in WriteTargets(there, p) && !NameAbove(there, p))
  {
    hide InsertAll, InsertAllNodes, Stage, Extents, GroupsOk, WriteTargets, WrittenFile, Staged, LookAfterAny;
    var there := NodeAt(ws.tree, p);
    var after := Write(ws, p, bytes).ws;
    LookLeafRoot(ws.tree);
    assert p != [];
    StageFrame(ws, Staged(bytes));
    var paths, n := WriteTargets(there, p), WrittenFile(there, bytes);
    WrittenExtents(there, bytes);
    AnyBatchLook(ws.tree, paths, n, p);
    AfterAnyWrite(ws.tree, there, p, bytes);
    hide AfterWrite, Look, Get;
    ShapeAt(after.tree, p, AfterWrite(there, p, bytes));
    if GroupsOk(ws.tree) {
      SoundNames(ws.tree, p, bytes);
    }
  }

  /** The bytes written read back, whatever else the store holds. */
  lemma WriteThenRead(ws: WsState, p: Path, bytes: Str, chunks: ChunkMap)
    requires Write(ws, p, bytes).result.Ok? && Sees(chunks, Write(ws, p, bytes).ws)
    ensures p != []
    ensures var there := NodeAt(ws.tree, p);
            && NodeAt(Write(ws, p, bytes).ws.tree, p) == AfterWrite(there, p, bytes)
            && (p in WriteTargets(there, p) && !NameAbove(there, p) ==>
                  ReadContent(Write(ws, p, bytes).ws.tree, p, chunks) == Ok(bytes))
            && (GroupsOk(ws.tree) ==> p in WriteTargets(there, p) && !NameAbove(there, p))
  {
    hide InsertAll, InsertAllNodes, Stage, Extents, Gather, GroupsOk, WriteTargets, WrittenFile, Staged;
    var there := NodeAt(ws.tree, p);
    WriteLeaves(ws, p, bytes);
    StageFrame(ws, Staged(bytes));
    StagedHeld(ws, bytes);
    WrittenExtents(there, bytes);
    hide AfterWrite, Look, Get;
    if p in WriteTargets(there, p) && !NameAbove(there, p) {
      WrittenAt(there, p, bytes);
      GatherInvertsChunking(bytes, chunks);
    }
  }

  lemma WrittenAt(there: Option<Node>, p: Path, bytes: Str)
    requires p in WriteTargets(there, p) && !NameAbove(there, p)
    ensures AfterWrite(there, p, bytes) == Some(WrittenFile(there, bytes))
  {
  }

  lemma AfterAnyWrite(t: Tree, there: Option<Node>, p: Path, bytes: Str)
    requires p != [] && there == NodeAt(t, p) && (there.Some? ==> !there.value.DirN?)
    ensures LookAfterAny(t, WriteTargets(there, p), WrittenFile(there, bytes), p) == AfterWrite(there, p, bytes)
    ensures AfterWrite(there, p, bytes).Some? ==> !AfterWrite(there, p, bytes).value.DirN?
  {
    hide WrittenFile;
    WrittenExtents(there, bytes);
    var paths := WriteTargets(there, p);
    LookLeaf(t, p);
    if !Swept(paths, p) {
      NotSwept(paths, p);
    }
  }

  /** A leaf is where a lookup shows one. */
  lemma ShapeAt(t: Tree, p: Path, n: Option<Node>)
    requires p != [] && Look(t, p) == n && (n.Some? ==> !n.value.DirN?)
    ensures Get(t, p) == n && NodeAt(t, p) == n
  {
  }

  lemma SoundNames(t: Tree, p: Path, bytes: Str)
    requires GroupsOk(t) && p != [] && !IsDirAt(t, p)
    ensures p in WriteTargets(NodeAt(t, p), p) && !NameAbove(NodeAt(t, p), p)
  {
    hide GroupsOk, WriteTargets, AllInsertable;
    WriteBatch(t, p, bytes);
  }

  lemma LookLeafRoot(t: Tree)
    ensures NodeAt(t, []) == Some(DirN(DIR_META, t))
  {
  }

  lemma WrittenExtents(there: Option<Node>, bytes: Str)
    ensures WrittenFile(there, bytes).FileN? && WrittenFile(there, bytes).extents == Extents(bytes)
  {
  }

  lemma StagedHeld(ws: WsState, bytes: Str)
    requires Stage(ws, Staged(bytes)).Ok?
    ensures forall c <- Staged(bytes) :: c.digest in Stage(ws, Staged(bytes)).value.staged
  {
    hide Staged;
    StageAllHolds(ws.staged, Staged(bytes));
  }

  /**
   * A dirty close that reports success found the entry unchanged since the open and wrote it: where the file's
   * own list of names includes the path and nothing above it, as it does in every tree with sound link groups,
   * the path afterwards holds exactly the handle's bytes, with metadata and links kept. A close that reports
   * `false` changes nothing.
   */
  lemma CloseMeans(ws: WsState, p: Path, bytes: Str, meta: Meta, origin: Option<Node>, chunks: ChunkMap)
    requires (origin.Some? ==> origin.value.FileN? && origin.value.meta == meta) && (origin.None? ==> meta == FILE_META)
    requires var digest := if origin.Some? then Some(EntryDigest(ToEntry(origin.value))) else None;
             Sees(chunks, Closed(ws, p, bytes, meta, true, digest).ws)
    ensures var digest := if origin.Some? then Some(EntryDigest(ToEntry(origin.value))) else None;
            var o := Closed(ws, p, bytes, meta, true, digest);
            && (o.result == Ok(true) ==>
                 && NodeAt(ws.tree, p) == origin && NodeAt(o.ws.tree, p) == AfterWrite(origin, p, bytes)
                 && (p in WriteTargets(origin, p) && !NameAbove(origin, p) ==>
                      && NodeAt(o.ws.tree, p)
                         == Some(FileN(meta, |bytes|, Extents(bytes), if origin.Some? then origin.value.links else []))
                      && ReadContent(o.ws.tree, p, chunks) == Ok(bytes)))
            && (o.result == Ok(true) && GroupsOk(ws.tree) ==> p in WriteTargets(origin, p) && !NameAbove(origin, p))
            && (o.result == Ok(false) ==> o.ws == ws && NodeAt(ws.tree, p) != origin)
  {
    hide Write, EntryDigest, ToEntry, GroupsOk, Extents, ReadContent, NodeAt, WriteTargets, NameAbove;
    var digest := if origin.Some? then Some(EntryDigest(ToEntry(origin.value))) else None;
    var o := Closed(ws, p, bytes, meta, true, digest);
    var there := NodeAt(ws.tree, p);
    if digest.Some? && there.Some? && EntryDigest(ToEntry(there.value)) == digest.value {
      EntryDigestInjective(ToEntry(there.value), ToEntry(origin.value));
      ToEntryInjective(there.value, origin.value);
    }
    if o.result == Ok(true) {
      var w := Write(ws, p, bytes);
      MetaKeepsStaged(w.ws, p, meta);
      WriteThenRead(ws, p, bytes, chunks);
    }
  }

  // ---- what an open means ----

  /**
   * A file opened to be kept holds what reading it gives, clean, under its own metadata; and closed again untouched
   * it changes nothing.
   */
  lemma OpenedUntouched(ws: WsState, p: Path, create: bool, chunks: ChunkMap)
    requires ws.isOpen && NodeAt(ws.tree, p).Some? && NodeAt(ws.tree, p).value.FileN?
    ensures var n, read, r := NodeAt(ws.tree, p).value, ReadContent(ws.tree, p, chunks),
                              OpeningOf(ws, chunks, p, create, false);
            && (read.Err? ==> r == Err(read.error))
            && (read.Ok? ==>
                 r == Ok(Opening(read.value, n.meta, false, Some(EntryDigest(ToEntry(n)))))
                 && Closed(ws, p, r.value.bytes, r.value.meta, r.value.dirty, r.value.origin)
                    == CloseOutcome(ws, Ok(true)))
  {
    hide ReadContent, EntryDigest, ToEntry;
  }

  /**
   * Which opens are refused, and why; and what truncating and creating ones hold. Closing a file just made, untouched,
   * writes it empty.
   */
  lemma OpenExplained(ws: WsState, p: Path, create: bool, truncate: bool, chunks: ChunkMap)
    requires ws.isOpen
    ensures var r, there := OpeningOf(ws, chunks, p, create, truncate), NodeAt(ws.tree, p);
            && (r == Err(IsADirectory) <==> there.Some? && there.value.DirN?)
            && (there.Some? && there.value.SymN? ==> r == Err(InvalidPath))
            && (there.None? && !create ==> r == Err(NotFound))
            && (there.Some? && there.value.FileN? && truncate ==>
                 r == Ok(Opening([], there.value.meta, true, Some(EntryDigest(ToEntry(there.value))))))
            && (there.None? && create ==>
                 && r == Ok(Opening([], FILE_META, true, None))
                 && Closed(ws, p, r.value.bytes, r.value.meta, r.value.dirty, r.value.origin)
                    == CloseOutcome(Write(ws, p, []).ws,
                                    if Write(ws, p, []).result.Ok? then Ok(true)
                                    else Err(Write(ws, p, []).result.error)))
  {
    hide EntryDigest, ToEntry, Write;
    if NodeAt(ws.tree, p).Some? && NodeAt(ws.tree, p).value.FileN? && !truncate {
      GatherNeverDirectory(NodeAt(ws.tree, p).value.extents, chunks);
    }
  }

  lemma GatherNeverDirectory(extents: seq<Extent>, chunks: ChunkMap)
    ensures Gather(extents, chunks) != Err(IsADirectory)
  {
    if Gather(extents, chunks).Err? {
      var i := GatherFails(extents, chunks);
    }
  }

  /** Opening what was just written gives the bytes written, in every tree whose link groups were sound. */
  lemma OpenAfterWrite(ws: WsState, p: Path, bytes: Str, create: bool, chunks: ChunkMap)
    requires GroupsOk(ws.tree) && Write(ws, p, bytes).result.Ok? && Sees(chunks, Write(ws, p, bytes).ws)
    ensures var there, after := NodeAt(ws.tree, p), Write(ws, p, bytes).ws;
            var r := OpeningOf(after, chunks, p, create, false);
            && r.Ok? && r.value.bytes == bytes && !r.value.dirty
            && r.value.meta == (if there.Some? && there.value.FileN? then there.value.meta else FILE_META)
            && NodeAt(after.tree, p).Some? && r.value.origin == Some(EntryDigest(ToEntry(NodeAt(after.tree, p).value)))
  {
    hide Write, GroupsOk, ReadContent, EntryDigest, ToEntry, Sees, NodeAt, NameAbove, Extents;
    WriteThenRead(ws, p, bytes, chunks);
    WrittenAt(NodeAt(ws.tree, p), p, bytes);
    hide WriteTargets;
    var after := Write(ws, p, bytes).ws;
    assert after.isOpen by {
      WriteLeavesOpen(ws, p, bytes);
    }
    OpenedUntouched(after, p, create, chunks);
  }

  lemma WriteLeavesOpen(ws: WsState, p: Path, bytes: Str)
    ensures Write(ws, p, bytes).ws.isOpen == ws.isOpen
    ensures Write(ws, p, bytes).result.Ok? ==> ws.isOpen
  {
    hide InsertAll, InsertAllNodes, Stage, Staged, Extents;
    StageFrame(ws, Staged(bytes));
  }

  /**
   * Opening a file, doing any reads and writes through the handle and closing it leaves what those operations make
   * of the content that was there, under the same metadata and names.
   */
  lemma EditedThroughHandle(ws: WsState, p: Path, ios: seq<Io>, seen: ChunkMap, chunks: ChunkMap)
    requires ws.isOpen && GroupsOk(ws.tree) && NodeAt(ws.tree, p).Some? && NodeAt(ws.tree, p).value.FileN?
    requires OpeningOf(ws, seen, p, false, false).Ok?
    requires var o := OpeningOf(ws, seen, p, false, false).value;
             var closed := Closed(ws, p, AfterIos(o.bytes, ios), o.meta, true, o.origin);
             closed.result.Ok? && Sees(chunks, closed.ws)
    ensures var o := OpeningOf(ws, seen, p, false, false).value;
            var closed := Closed(ws, p, AfterIos(o.bytes, ios), o.meta, true, o.origin);
            var before, after := NodeAt(ws.tree, p).value, NodeAt(closed.ws.tree, p);
            && closed.result == Ok(true) && ReadContent(ws.tree, p, seen).Ok?
            && ReadContent(closed.ws.tree, p, chunks) == Ok(AfterIos(ReadContent(ws.tree, p, seen).value, ios))
            && after.Some? && after.value.FileN? && after.value.meta == before.meta && after.value.links == before.links
  {
    hide Write, GroupsOk, ReadContent, EntryDigest, ToEntry, Sees, NodeAt, NameAbove, Extents, AfterIos, WriteTargets;
    hide AfterWrite, MetaSet;
    OpenedUntouched(ws, p, false, seen);
    var o := OpeningOf(ws, seen, p, false, false).value;
    CloseMeans(ws, p, AfterIos(o.bytes, ios), o.meta, NodeAt(ws.tree, p), chunks);
  }

  /** What a workspace can see includes what it holds, soundly. */
  lemma VisibleSees(w: Workspace)
    requires w.Valid() && ChunksCoherent(w.staged)
    ensures Sees(w.Visible(), w.State())
  {
    hide IdOf, DirDigest, Stored;
    forall d | d in w.Visible()
      ensures ChunkDigest(w.Visible()[d]) == d
    {
      if d !in w.staged {
        assert d in ChunkBodies(w.store.db.chunks);
      }
    }
  }

  /** So what a workspace has just written is what it reads, and what it opens. */
  lemma WorkspaceReopens(w: Workspace, before: WsState, p: Path, bytes: Str, create: bool)
    requires w.Valid() && ChunksCoherent(w.staged) && GroupsOk(before.tree)
    requires Write(before, p, bytes) == Outcome(w.State(), Ok(()))
    ensures ReadContent(w.tree, p, w.Visible()) == Ok(bytes)
    ensures OpeningOf(w.State(), w.Visible(), p, create, false).Ok?
    ensures OpeningOf(w.State(), w.Visible(), p, create, false).value.bytes == bytes
  {
    hide Write, GroupsOk, ReadContent, Sees, NodeAt, OpeningOf;
    VisibleSees(w);
    OpenAfterWrite(before, p, bytes, create, w.Visible());
    WriteThenRead(before, p, bytes, w.Visible());
  }

  /** Setting the metadata a file already has changes nothing; setting any keeps the held chunks. */
  lemma MetaKeepsStaged(ws: WsState, p: Path, meta: Meta)
    ensures MetaSet(ws, p, Some(meta.mode), Some(meta.uid), Some(meta.gid)).ws.staged == ws.staged
    ensures ws.isOpen && NodeAt(ws.tree, p).Some? && NodeAt(ws.tree, p).value.meta == meta ==>
              MetaSet(ws, p, Some(meta.mode), Some(meta.uid), Some(meta.gid)) == Done(ws)
  {
    hide InsertAll, InsertAllNodes, NodeAt;
  }
}
