/** Writing the difference between two commits into a host directory. */
module HostApply {
  import opened Base
  import opened Paths
  import opened Trees
  import opened TreeOps
  import opened Chunks
  import opened WorkspaceSpec
  import opened LinkGroups
  import opened Diff
  import opened DiffExact

  // ---- the host directory ----

  class Host {
    var files: map<Path, Str>
    var dirs: set<Path>

    constructor (files: map<Path, Str>, dirs: set<Path>)
      ensures this.files == files && this.dirs == dirs
    {
      this.files, this.dirs := files, dirs;
    }

    predicate HasDir(p: Path)
      reads this
    {
      p == [] || p in dirs
    }

    /** `read`. */
    method Read(p: Path) returns (r: Reading)
      ensures r == ReadAt(files, dirs, p)
    {
      for k := 0 to |p|
        invariant forall j | 0 < j < k :: p[..j] !in files
      {
        if 0 < k && p[..k] in files {
          return Broken;
        }
      }
      r := if p in dirs then Broken else if p in files then Bytes(files[p]) else Missing;
    }

    /** `create_dir_all`: the directory and every missing ancestor. */
    method CreateDirAll(p: Path) returns (r: Result<Unit>)
      modifies this`dirs
      ensures r.Ok? <==> forall k | 0 < k <= |p| :: p[..k] !in files
      ensures r.Ok? ==> dirs == old(dirs) + Chain(p, |p|)
      ensures r.Err? ==> old(dirs) <= dirs <= old(dirs) + Chain(p, |p|)
    {
      for k := 1 to |p| + 1
        invariant dirs == old(dirs) + Chain(p, k - 1)
        invariant forall j | 0 < j < k :: p[..j] !in files
      {
        if p[..k] in files {
          return Err(AlreadyExists);
        }
        ChainNext(p, k);
        dirs := dirs + {p[..k]};
      }
      r := Ok(());
    }

    /** `write`: needs the parent directory, and no directory in the way. */
    method WriteBytes(p: Path, bytes: Str) returns (r: Result<Unit>)
      requires p != []
      modifies this`files
      ensures r.Ok? <==> HasDir(p[..|p| - 1]) && p !in dirs
      ensures files == if r.Ok? then old(files)[p := bytes] else old(files)
    {
      if !HasDir(p[..|p| - 1]) || p in dirs {
        return Err(NotFound);
      }
      files := files[p := bytes];
      r := Ok(());
    }

    /** `remove_file`. */
    method RemoveFile(p: Path) returns (r: Result<Unit>)
      modifies this`files
      ensures r.Ok? <==> p in old(files)
      ensures files == old(files) - {p}
      ensures r.Err? ==> r.error == if p in dirs then IsADirectory else NotFound
    {
      if p !in files {
        return Err(if p in dirs then IsADirectory else NotFound);
      }
      files := files - {p};
      r := Ok(());
    }

    predicate IsEmpty(p: Path)
      reads this
    {
      (forall q <- files.Keys :: !(p <= q)) && forall q <- dirs :: p <= q ==> q == p
    }

    /** `remove_dir`: only when it is empty. */
    method RemoveDir(p: Path) returns (ok: bool)
      modifies this`dirs
      ensures ok == (p in old(dirs) && old(IsEmpty(p)))
      ensures dirs == if ok then old(dirs) - {p} else old(dirs)
    {
      ok := p in dirs && IsEmpty(p);
      if ok {
        dirs := dirs - {p};
      }
    }
  }

  /** The first `n` ancestors-or-self of `p`, from the top. */
  function Chain(p: Path, n: nat): set<Path>
    requires n <= |p|
  {
    set k | 0 < k <= n :: p[..k]
  }

  lemma ChainNext(p: Path, k: nat)
    requires 0 < k <= |p|
    ensures Chain(p, k) == Chain(p, k - 1) + {p[..k]}
  {
  }

  /** Every path of the set with its ancestors. */
  function Chains(paths: set<Path>): set<Path> {
    set p, k | p in paths && 0 < k <= |p| :: p[..k]
  }

  /** The proper ancestors alone. */
  function Uppers(paths: set<Path>): set<Path> {
    set p, k | p in paths && 0 < k < |p| :: p[..k]
  }

  ghost predicate Rooted(dirs: set<Path>, p: Path) {
    p != [] && forall k | 0 < k < |p| :: p[..k] in dirs
  }

  /** What every directory tree satisfies: nothing is both file and directory, and everything lies in directories. */
  ghost predicate HostOk(files: map<Path, Str>, dirs: set<Path>) {
    && files.Keys !! dirs
    && (forall p | p in files :: Rooted(dirs, p))
    && (forall p | p in dirs :: Rooted(dirs, p))
  }

  /** What reading a path meets: its bytes, nothing, or a directory or a file where none should be. */
  datatype Reading = Bytes(bytes: Str) | Missing | Broken

  predicate FileAbove(files: map<Path, Str>, p: Path) {
    exists k | 0 < k < |p| :: p[..k] in files
  }

  function ReadAt(files: map<Path, Str>, dirs: set<Path>, p: Path): Reading {
    if p in dirs || FileAbove(files, p) then Broken
    else if p in files then Bytes(files[p])
    else Missing
  }

  // ---- a host that holds a tree ----

  ghost predicate DirAt(t: Tree, p: Path) {
    p != [] && Get(t, p).Some? && Get(t, p).value.DirN?
  }

  ghost predicate FileAt(t: Tree, p: Path) {
    p != [] && Get(t, p).Some? && Get(t, p).value.FileN?
  }

  /** `file_matches`: exactly the content the entry references. */
  predicate FileMatches(bytes: Str, e: Entry) {
    e.File? && e.size == |bytes| && e.extents == Extents(bytes)
  }

  ghost predicate ContentAt(t: Tree, p: Path, bytes: Str) {
    FileAt(t, p) && Get(t, p).value.size == |bytes| && Get(t, p).value.extents == Extents(bytes)
  }

  /** The host holds the tree: the same directories, the same files, the same content. */
  ghost predicate HostIs(files: map<Path, Str>, dirs: set<Path>, t: Tree) {
    && (forall p :: p in dirs <==> DirAt(t, p))
    && (forall p :: p in files <==> FileAt(t, p))
    && (forall p | p in files :: ContentAt(t, p, files[p]))
  }

  /** A tree of directories and unlinked files whose content can be read back. */
  ghost predicate PlainTree(t: Tree, content: map<Path, Str>) {
    && (forall p | p != [] && Get(t, p).Some? && !Get(t, p).value.DirN? :: FileAt(t, p) && Get(t, p).value.links == [])
    && (forall p | FileAt(t, p) :: p in content && ContentAt(t, p, content[p]))
  }

  // ---- the change list of two plain trees ----

  /** What a listed change says about the two trees. */
  ghost predicate ChangeTells(s: Tree, t: Tree, c: Change) {
    c.path != [] &&
    match c
    case Added(p, e) =>
      && Get(s, p).None? && Get(t, p).Some? && e == ToEntry(Get(t, p).value)
      && (e.Dir? <==> DirAt(t, p)) && (!e.Dir? <==> FileAt(t, p))
    case Removed(p, e) =>
      && Get(t, p).None? && Get(s, p).Some? && e == ToEntry(Get(s, p).value)
      && (e.Dir? <==> DirAt(s, p)) && (!e.Dir? <==> FileAt(s, p))
    case Modified(p, a, b) =>
      && FileAt(s, p) && FileAt(t, p) && a == ToEntry(Get(s, p).value) && b == ToEntry(Get(t, p).value)
  }

  ghost predicate Plain2(s: Tree, t: Tree, was: map<Path, Str>, will: map<Path, Str>) {
    PlainTree(s, was) && PlainTree(t, will) && NoSwitches(s, t)
  }

  lemma EntryKind(n: Node)
    ensures (ToEntry(n).Dir? <==> n.DirN?) && (ToEntry(n).File? <==> n.FileN?)
    ensures n.FileN? ==> ToEntry(n) == File(n.meta, n.size, n.extents, n.links)
  {
  }

  lemma ChangesTell(s: Tree, t: Tree, was: map<Path, Str>, will: map<Path, Str>, c: Change)
    requires Plain2(s, t, was, will) && c in Changes(s, t, [])
    ensures ChangeTells(s, t, c)
  {
    hide Changes, Get, IdOf, ToEntry, ContentAt;
    ChangesListed(s, t, [], c);
    var q := c.path;
    assert q[0..] == q;
    assert ChangeAt(s, t, q, q) == Some(c);
    if Get(s, q).Some? {
      EntryKind(Get(s, q).value);
    }
    if Get(t, q).Some? {
      EntryKind(Get(t, q).value);
    }
    assert !SwitchAt(s, t, q);
  }

  /** Everything that must change is listed. */
  lemma ChangesCover(s: Tree, t: Tree, was: map<Path, Str>, will: map<Path, Str>, q: Path)
    requires Plain2(s, t, was, will) && q != []
    ensures DirAt(t, q) && !DirAt(s, q) ==> exists c :: c in Changes(s, t, []) && c.Added? && c.path == q
    ensures DirAt(s, q) && !DirAt(t, q) ==> exists c :: c in Changes(s, t, []) && c.Removed? && c.path == q
    ensures FileAt(s, q) && !FileAt(t, q) ==> exists c :: c in Changes(s, t, []) && c.Removed? && c.path == q
    ensures FileAt(t, q) && Get(t, q) != Get(s, q) ==> exists c :: c in Changes(s, t, []) && !c.Removed? && c.path == q
  {
    hide Changes, Get, IdOf, ToEntry, ContentAt;
    assert !SwitchAt(s, t, q);
    DiffListsDifferences(s, t, q);
    if c :| c in Changes(s, t, []) && c.path == q {
      ChangesTell(s, t, was, will, c);
    }
  }

  // ---- the work a change list asks for ----

  datatype Job = MakeDir | WriteContent | DropFile | DropDir

  function JobOf(c: Change): Option<Job> {
    match c
    case Added(_, e) => if e.Dir? then Some(MakeDir) else if e.File? then Some(WriteContent) else None
    case Modified(_, _, e) => if e.File? then Some(WriteContent) else None
    case Removed(_, e) => Some(if e.Dir? then DropDir else DropFile)
  }

  function JobPaths(cs: seq<Change>, job: Job): set<Path> {
    set c | c in cs && JobOf(c) == Some(job) :: c.path
  }

  lemma JobStep(cs: seq<Change>, i: nat, job: Job)
    requires i < |cs|
    ensures JobPaths(cs[..i + 1], job) ==
            if JobOf(cs[i]) == Some(job) then JobPaths(cs[..i], job) + {cs[i].path} else JobPaths(cs[..i], job)
  {
    assert cs[..i + 1] == cs[..i] + [cs[i]];
  }

  ghost predicate SameAt(s: Tree, t: Tree, p: Path) {
    p != [] && Get(s, p) == Get(t, p)
  }

  /** Between two plain trees, the jobs are exactly the differences. */
  lemma JobsAre(s: Tree, t: Tree, was: map<Path, Str>, will: map<Path, Str>, p: Path)
    requires Plain2(s, t, was, will)
    ensures var cs := Changes(s, t, []);
            && (p in JobPaths(cs, MakeDir) <==> DirAt(t, p) && !DirAt(s, p))
            && (p in JobPaths(cs, DropDir) <==> DirAt(s, p) && !DirAt(t, p))
            && (p in JobPaths(cs, DropFile) <==> FileAt(s, p) && !FileAt(t, p))
            && (p in JobPaths(cs, WriteContent) ==> FileAt(t, p))
            && (FileAt(t, p) && p !in JobPaths(cs, WriteContent) ==> SameAt(s, t, p))
  {
    hide Changes, IdOf, ToEntry, ContentAt, PlainTree, NoSwitches;
    var cs := Changes(s, t, []);
    forall c | c in cs
      ensures ChangeTells(s, t, c)
    {
      ChangesTell(s, t, was, will, c);
    }
    if p != [] {
      ChangesCover(s, t, was, will, p);
      forall c | c in cs && c.path == p
        ensures c.Added? ==> JobOf(c) == Some(if DirAt(t, p) then MakeDir else WriteContent)
        ensures c.Removed? ==> JobOf(c) == Some(if DirAt(s, p) then DropDir else DropFile)
        ensures c.Modified? ==> JobOf(c) == Some(WriteContent)
      {
        JobTells(s, t, c);
      }
    }
  }

  lemma JobTells(s: Tree, t: Tree, c: Change)
    requires ChangeTells(s, t, c)
    ensures c.Added? ==> JobOf(c) == Some(if DirAt(t, c.path) then MakeDir else WriteContent)
    ensures c.Removed? ==> JobOf(c) == Some(if DirAt(s, c.path) then DropDir else DropFile)
    ensures c.Modified? ==> JobOf(c) == Some(WriteContent)
  {
    if c.Added? || c.Modified? {
      EntryKind(Get(t, c.path).value);
    }
  }

  // ---- verification ----

  /** Why a change is refused before anything is written, if it is. Directories are not looked at. */
  function Drift(files: map<Path, Str>, dirs: set<Path>, c: Change): Option<Error> {
    match c
    case Added(p, e) =>
      if e.Dir? then None
      else
        (match ReadAt(files, dirs, p)
         case Broken => Some(Io)
         case Missing => None
         case Bytes(bytes) => if FileMatches(bytes, e) then None else Some(HostDrift))
    case Modified(p, before, _) => DriftFrom(files, dirs, p, before)
    case Removed(p, before) => DriftFrom(files, dirs, p, before)
  }

  function DriftFrom(files: map<Path, Str>, dirs: set<Path>, p: Path, before: Entry): Option<Error> {
    if before.Dir? then None
    else
      match ReadAt(files, dirs, p)
      case Broken => Some(Io)
      case Missing => Some(HostDrift)
      case Bytes(bytes) => if FileMatches(bytes, before) then None else Some(HostDrift)
  }

  /** The host has this content at a path that nothing is in the way of. */
  ghost predicate HasContent(files: map<Path, Str>, dirs: set<Path>, p: Path, e: Entry) {
    p !in dirs && !FileAbove(files, p) && p in files && FileMatches(files[p], e)
  }

  /**
   * No drift: a changed or removed file is there with the base's content, and the path of a new file holds the new
   * content or nothing; directories are not looked at.
   */
  ghost predicate Settled(files: map<Path, Str>, dirs: set<Path>, c: Change) {
    match c
    case Added(p, e) =>
      e.Dir? || HasContent(files, dirs, p, e) || (p !in files && p !in dirs && !FileAbove(files, p))
    case Modified(p, before, _) => before.Dir? || HasContent(files, dirs, p, before)
    case Removed(p, before) => before.Dir? || HasContent(files, dirs, p, before)
  }

  lemma DriftMeans(files: map<Path, Str>, dirs: set<Path>, c: Change)
    ensures Drift(files, dirs, c).None? <==> Settled(files, dirs, c)
    ensures Drift(files, dirs, c).Some? ==>
              Drift(files, dirs, c) == Some(if c.path in dirs || FileAbove(files, c.path) then Io else HostDrift)
  {
  }

  lemma UndriftedMeans(files: map<Path, Str>, dirs: set<Path>, cs: seq<Change>)
    ensures AllUndrifted(files, dirs, cs) <==> forall c <- cs :: Settled(files, dirs, c)
  {
    hide Drift, Settled;
    forall c | c in cs
      ensures Drift(files, dirs, c).None? <==> Settled(files, dirs, c)
    {
      DriftMeans(files, dirs, c);
    }
  }

  predicate AllUndrifted(files: map<Path, Str>, dirs: set<Path>, cs: seq<Change>) {
    forall c <- cs :: Drift(files, dirs, c).None?
  }

  /** The verification pass: every change, before anything is written; the first drift is the one reported. */
  method Verify(h: Host, changes: seq<Change>) returns (r: Result<Unit>)
    ensures r.Ok? <==> AllUndrifted(h.files, h.dirs, changes)
    ensures r.Ok? <==> forall c <- changes :: Settled(h.files, h.dirs, c)
    ensures r.Err? ==> exists i :: 0 <= i < |changes| && Drift(h.files, h.dirs, changes[i]) == Some(r.error)
                                   && AllUndrifted(h.files, h.dirs, changes[..i])
  {
    hide Settled;
    UndriftedMeans(h.files, h.dirs, changes);
    for i := 0 to |changes|
      invariant AllUndrifted(h.files, h.dirs, changes[..i])
    {
      assert changes[i] in changes;
      assert changes[..i + 1] == changes[..i] + [changes[i]];
      match changes[i] {
        case Added(p, e) =>
          if !e.Dir? {
            var read := h.Read(p);
            if read.Broken? {
              return Err(Io);
            }
            if read.Bytes? && !FileMatches(read.bytes, e) {
              return Err(HostDrift);
            }
          }
        case Modified(p, before, _) =>
          var same := VerifyFile(h, p, before);
          if same.Err? {
            return same;
          }
        case Removed(p, before) =>
          var same := VerifyFile(h, p, before);
          if same.Err? {
            return same;
          }
      }
    }
    assert changes[..|changes|] == changes;
    r := Ok(());
  }

  method VerifyFile(h: Host, p: Path, before: Entry) returns (r: Result<Unit>)
    ensures r == match DriftFrom(h.files, h.dirs, p, before) case None => Ok(()) case Some(e) => Err(e)
  {
    if before.Dir? {
      return Ok(());
    }
    var read := h.Read(p);
    match read
    case Broken => return Err(Io);
    case Missing => return Err(HostDrift);
    case Bytes(bytes) => r := if FileMatches(bytes, before) then Ok(()) else Err(HostDrift);
  }

  // ---- the passes ----

  /** Directories first. A file in the place of a directory or above it stops the pass. */
  method MakeDirs(h: Host, changes: seq<Change>) returns (r: Result<Unit>)
    modifies h`dirs
    ensures r.Ok? <==> forall q <- Chains(JobPaths(changes, MakeDir)) :: q !in h.files
    ensures r.Ok? ==> h.dirs == old(h.dirs) + Chains(JobPaths(changes, MakeDir))
    ensures old(h.dirs) <= h.dirs <= old(h.dirs) + Chains(JobPaths(changes, MakeDir))
  {
    hide JobPaths, Chain, Chains;
    ghost var before := h.dirs;
    JobsDone(changes, MakeDir);
    NoChains();
    for i := 0 to |changes|
      invariant h.dirs == before + Chains(JobPaths(changes[..i], MakeDir))
      invariant forall q <- Chains(JobPaths(changes[..i], MakeDir)) :: q !in h.files
    {
      JobStep(changes, i, MakeDir);
      JobPart(changes, i, MakeDir);
      var c := changes[i];
      if c.Added? && c.entry.Dir? {
        ChainsAdd(JobPaths(changes[..i], MakeDir), c.path);
        ChainsGrow(JobPaths(changes[..i + 1], MakeDir), JobPaths(changes, MakeDir));
        ChainHas(c.path);
        var made := h.CreateDirAll(c.path);
        if made.Err? {
          return made;
        }
      }
    }
    r := Ok(());
  }

  lemma JobsDone(cs: seq<Change>, job: Job)
    ensures JobPaths(cs[..|cs|], job) == JobPaths(cs, job) && JobPaths(cs[..0], job) == {}
  {
    assert cs[..|cs|] == cs;
  }

  lemma JobPart(cs: seq<Change>, i: nat, job: Job)
    requires i < |cs|
    ensures JobPaths(cs[..i], job) <= JobPaths(cs, job) && JobPaths(cs[..i + 1], job) <= JobPaths(cs, job)
  {
    forall c | c in cs[..i + 1]
      ensures c in cs
    {
    }
    forall c | c in cs[..i]
      ensures c in cs
    {
    }
  }

  lemma NoChains()
    ensures Chains({}) == {} && Uppers({}) == {}
  {
  }

  lemma ChainsAdd(paths: set<Path>, p: Path)
    ensures Chains(paths + {p}) == Chains(paths) + Chain(p, |p|)
    ensures p != [] ==> Uppers(paths + {p}) == Uppers(paths) + Chain(p[..|p| - 1], |p| - 1)
  {
    if p != [] {
      var up := p[..|p| - 1];
      assert forall k | 0 < k < |p| :: up[..k] == p[..k];
    }
  }

  lemma ChainsGrow(a: set<Path>, b: set<Path>)
    requires a <= b
    ensures Chains(a) <= Chains(b) && Uppers(a) <= Uppers(b)
  {
  }

  lemma ChainHas(p: Path)
    ensures forall k | 0 < k <= |p| :: p[..k] in Chain(p, |p|)
    ensures forall q <- Chain(p, |p|) :: exists k :: 0 < k <= |p| && q == p[..k]
    ensures p != [] ==> p in Chain(p, |p|)
  {
    assert p[..|p|] == p;
  }

  /** Every file to write has room: nothing is a directory there, and nothing above it is a file or becomes one. */
  ghost predicate Writable(files: map<Path, Str>, dirs: set<Path>, paths: set<Path>) {
    && (forall p <- paths :: p != [] && p !in dirs && p !in Uppers(paths))
    && (forall q <- Uppers(paths) :: q !in files)
  }

  /** The file table with new content at some paths. */
  ghost predicate Overwritten(files: map<Path, Str>, after: map<Path, Str>, paths: set<Path>, content: map<Path, Str>) {
    && after.Keys == files.Keys + paths
    && (forall p | p in after && p in paths :: p in content && after[p] == content[p])
    && (forall p | p in after && p !in paths :: p in files && after[p] == files[p])
  }

  /** Then the content of every added or changed file. */
  method WriteFiles(h: Host, changes: seq<Change>, content: map<Path, Str>) returns (r: Result<Unit>)
    requires JobPaths(changes, WriteContent) <= content.Keys && [] !in JobPaths(changes, WriteContent)
    modifies h
    ensures var paths := JobPaths(changes, WriteContent);
            Writable(old(h.files), old(h.dirs), paths) ==>
              && r.Ok? && h.dirs == old(h.dirs) + Uppers(paths)
              && Overwritten(old(h.files), h.files, paths, content)
  {
    hide JobPaths, Chain, Uppers, Writable;
    ghost var dirs, files, paths := h.dirs, h.files, JobPaths(changes, WriteContent);
    ghost var good := Writable(files, dirs, paths);
    JobsDone(changes, WriteContent);
    NoChains();
    for i := 0 to |changes|
      invariant good ==> h.dirs == dirs + Uppers(JobPaths(changes[..i], WriteContent))
      invariant good ==> Overwritten(files, h.files, JobPaths(changes[..i], WriteContent), content)
    {
      ghost var done := JobPaths(changes[..i], WriteContent);
      JobStep(changes, i, WriteContent);
      JobPart(changes, i, WriteContent);
      var c := changes[i];
      if JobOf(c) == Some(WriteContent) {
        var p := c.path;
        ChainsAdd(done, p);
        ChainsGrow(done + {p}, paths);
        if good {
          RoomFor(files, dirs, paths, done, p);
        }
        r := WriteOne(h, p, content[p]);
        if r.Err? {
          return;
        }
      }
    }
    r := Ok(());
  }

  /** One file: its directories, then its bytes. */
  method WriteOne(h: Host, p: Path, bytes: Str) returns (r: Result<Unit>)
    requires p != []
    modifies h
    ensures var up := Chain(p[..|p| - 1], |p| - 1);
            (forall q <- up :: q !in old(h.files)) && p !in old(h.dirs) + up ==>
              r.Ok? && h.dirs == old(h.dirs) + up && h.files == old(h.files)[p := bytes]
  {
    hide Chain;
    var up := p[..|p| - 1];
    ChainHas(up);
    r := h.CreateDirAll(up);
    if r.Ok? {
      r := h.WriteBytes(p, bytes);
    }
  }

  lemma RoomFor(files: map<Path, Str>, dirs: set<Path>, paths: set<Path>, done: set<Path>, p: Path)
    requires Writable(files, dirs, paths) && done <= paths && p in paths && p != []
    requires Chain(p[..|p| - 1], |p| - 1) <= Uppers(paths) && Uppers(done) <= Uppers(paths)
    ensures p !in dirs + Uppers(done) + Chain(p[..|p| - 1], |p| - 1)
    ensures forall q <- Chain(p[..|p| - 1], |p| - 1) :: q !in files && q !in done
  {
    hide Uppers, Chain;
  }

  /** Then the files that are gone; directories are only noted. */
  method RemoveFiles(h: Host, changes: seq<Change>) returns (r: Result<Unit>, dropped: set<Path>)
    modifies h`files
    ensures JobPaths(changes, DropFile) !! h.dirs ==>
              && r.Ok? && dropped == JobPaths(changes, DropDir)
              && h.files == old(h.files) - JobPaths(changes, DropFile)
  {
    hide JobPaths;
    ghost var files := h.files;
    dropped := {};
    r := Ok(());
    JobsDone(changes, DropFile);
    JobsDone(changes, DropDir);
    for i := 0 to |changes|
      invariant dropped == JobPaths(changes[..i], DropDir)
      invariant h.files == files - JobPaths(changes[..i], DropFile)
      invariant r == Ok(())
    {
      JobStep(changes, i, DropFile);
      JobStep(changes, i, DropDir);
      JobPart(changes, i, DropFile);
      match changes[i] {
        case Removed(p, e) =>
          if e.Dir? {
            dropped := dropped + {p};
          } else {
            var gone := h.RemoveFile(p);
            assert h.files == files - JobPaths(changes[..i + 1], DropFile);
            if gone.Err? && gone.error != NotFound {
              return gone, dropped;
            }
          }
        case Added(_, _) =>
        case Modified(_, _, _) =>
      }
    }
  }

  /** Something that stays lies beneath `p`: a file, or a directory that is not to be dropped. */
  ghost predicate Occupied(files: map<Path, Str>, dirs: set<Path>, dropped: set<Path>, p: Path) {
    exists x :: p <= x && p != x && (x in files || (x in dirs && x !in dropped))
  }

  /** The directories once the dropped ones were removed where they are empty. */
  ghost function DirsLeft(files: map<Path, Str>, dirs: set<Path>, dropped: set<Path>): set<Path> {
    set p | p in dirs && (p !in dropped || Occupied(files, dirs, dropped, p))
  }

  /** Last the directories, deepest first, and only where they are empty: what holds foreign content stays. */
  method RemoveDirs(h: Host, dropped: set<Path>)
    modifies h`dirs
    ensures h.files.Keys !! old(h.dirs) ==> h.dirs == DirsLeft(h.files, old(h.dirs), dropped)
  {
    hide PathKey, Ascending, SortPaths, Occupied;
    ghost var dirs := h.dirs;
    ghost var good := h.files.Keys !! dirs;
    var order := SortPaths(dropped);
    SortPathsAscends(dropped);
    var i := |order|;
    while i > 0
      invariant 0 <= i <= |order|
      invariant good ==> forall p :: p in h.dirs <==>
                  p in dirs && (p !in order[i..] || Occupied(h.files, dirs, dropped, p))
    {
      i := i - 1;
      var p := order[i];
      assert order[i..] == [p] + order[i + 1..];
      NotLater(order, i);
      if good {
        EmptyUnlessOccupied(h, dirs, dropped, order, i);
      }
      var ok := h.RemoveDir(p);
    }
    assert order[0..] == order;
  }

  lemma NotLater(order: seq<Path>, i: nat)
    requires Ascending(order, PathKey) && i < |order|
    ensures order[i] !in order[i + 1..]
  {
    if order[i] in order[i + 1..] {
      var j :| 0 <= j < |order[i + 1..]| && order[i + 1..][j] == order[i];
      LexIrreflexive(PathKey(order[i]));
    }
  }

  /** When its turn comes, a dropped directory is empty unless something that stays lies beneath it. */
  lemma EmptyUnlessOccupied(h: Host, dirs: set<Path>, dropped: set<Path>, order: seq<Path>, i: nat)
    requires Ascending(order, PathKey) && i < |order| && (forall p :: p in order <==> p in dropped)
    requires h.files.Keys !! dirs
    requires forall p :: p in h.dirs <==> p in dirs && (p !in order[i + 1..] || Occupied(h.files, dirs, dropped, p))
    ensures order[i] in dirs ==> (h.IsEmpty(order[i]) <==> !Occupied(h.files, dirs, dropped, order[i]))
  {
    hide PathKey, Ascending;
    var p := order[i];
    if p in dirs {
      if Occupied(h.files, dirs, dropped, p) {
        var x :| p <= x && p != x && (x in h.files || (x in dirs && x !in dropped));
        if x !in h.files {
          NotAmong(order, i, x);
          assert x in h.dirs;
        }
      } else {
        forall q | q in h.dirs && p <= q
          ensures q == p
        {
          if q != p {
            OccupiedBelow(h.files, dirs, dropped, p, q);
            LaterInOrder(order, i, q);
          }
        }
      }
    }
  }

  lemma NotAmong(order: seq<Path>, i: nat, x: Path)
    requires i < |order| && x !in order
    ensures x !in order[i + 1..]
  {
  }

  /** What occupies a directory occupies those above it. */
  lemma OccupiedAbove(files: map<Path, Str>, dirs: set<Path>, dropped: set<Path>, p: Path, q: Path)
    requires p <= q && p != q && Occupied(files, dirs, dropped, q)
    ensures Occupied(files, dirs, dropped, p)
  {
    var x :| q <= x && q != x && (x in files || (x in dirs && x !in dropped));
    ProperPrefix(p, q);
    ProperPrefix(q, x);
    assert p <= x && |p| < |x|;
  }

  lemma OccupiedBelow(files: map<Path, Str>, dirs: set<Path>, dropped: set<Path>, p: Path, q: Path)
    requires p <= q && p != q && !Occupied(files, dirs, dropped, p)
    ensures !Occupied(files, dirs, dropped, q) && q !in files && (q in dirs ==> q in dropped)
  {
    if Occupied(files, dirs, dropped, q) {
      OccupiedAbove(files, dirs, dropped, p, q);
    }
  }

  lemma ProperPrefix(p: Path, q: Path)
    requires p <= q && p != q
    ensures |p| < |q|
  {
    assert |p| == |q| ==> p == q;
  }

  lemma LaterInOrder(order: seq<Path>, i: nat, q: Path)
    requires Ascending(order, PathKey) && i < |order| && q in order && order[i] <= q && q != order[i]
    ensures q in order[i + 1..]
  {
    hide PathKey;
    var j :| 0 <= j < |order| && order[j] == q;
    ProperPrefix(order[i], q);
    AncestorSortsFirst(order[i], q);
    if j < i {
      LexTransitive(PathKey(q), PathKey(order[i]), PathKey(q));
      LexIrreflexive(PathKey(q));
    }
    assert j > i ==> order[i + 1..][j - i - 1] == q;
  }

  // ---- the change list against the host ----

  /** What the jobs of two plain trees' change list are. */
  ghost predicate JobsTell(s: Tree, t: Tree, cs: seq<Change>) {
    forall p ::
      && (p in JobPaths(cs, MakeDir) <==> DirAt(t, p) && !DirAt(s, p))
      && (p in JobPaths(cs, DropDir) <==> DirAt(s, p) && !DirAt(t, p))
      && (p in JobPaths(cs, DropFile) <==> FileAt(s, p) && !FileAt(t, p))
      && (p in JobPaths(cs, WriteContent) ==> FileAt(t, p))
      && (FileAt(t, p) && p !in JobPaths(cs, WriteContent) ==> SameAt(s, t, p))
  }

  lemma AllJobsTell(s: Tree, t: Tree, was: map<Path, Str>, will: map<Path, Str>)
    requires Plain2(s, t, was, will)
    ensures JobsTell(s, t, Changes(s, t, []))
  {
    hide Changes, JobPaths, DirAt, FileAt, SameAt, PlainTree, NoSwitches;
    forall p
      ensures var cs := Changes(s, t, []);
              && (p in JobPaths(cs, MakeDir) <==> DirAt(t, p) && !DirAt(s, p))
              && (p in JobPaths(cs, DropDir) <==> DirAt(s, p) && !DirAt(t, p))
              && (p in JobPaths(cs, DropFile) <==> FileAt(s, p) && !FileAt(t, p))
              && (p in JobPaths(cs, WriteContent) ==> FileAt(t, p))
              && (FileAt(t, p) && p !in JobPaths(cs, WriteContent) ==> SameAt(s, t, p))
    {
      JobsAre(s, t, was, will, p);
    }
  }

  /** Every directory that is made is one of the target, and no file of the base or the target is in its place. */
  lemma MadeAreTarget(s: Tree, t: Tree, cs: seq<Change>)
    requires NoSwitches(s, t) && JobsTell(s, t, cs)
    ensures var made := Chains(JobPaths(cs, MakeDir)) + Uppers(JobPaths(cs, WriteContent));
            forall q <- made :: DirAt(t, q) && !FileAt(s, q) && !FileAt(t, q)
  {
    hide Get, JobPaths, SameAt;
    var made := Chains(JobPaths(cs, MakeDir)) + Uppers(JobPaths(cs, WriteContent));
    forall q | q in made
      ensures DirAt(t, q) && !FileAt(s, q) && !FileAt(t, q)
    {
      if q in Chains(JobPaths(cs, MakeDir)) {
        var p, k :| p in JobPaths(cs, MakeDir) && 0 < k <= |p| && q == p[..k];
        PrefixIsDir(s, t, p, k);
      } else {
        var p, k :| p in JobPaths(cs, WriteContent) && 0 < k < |p| && q == p[..k];
        PrefixIsDir(s, t, p, k);
      }
    }
  }

  /** Ancestors of what exists in the target are target directories, and no base file is in their place. */
  lemma PrefixIsDir(s: Tree, t: Tree, p: Path, k: nat)
    requires NoSwitches(s, t) && p != [] && Get(t, p).Some? && 0 < k <= |p| && (k == |p| ==> DirAt(t, p))
    ensures DirAt(t, p[..k]) && !FileAt(s, p[..k]) && !FileAt(t, p[..k])
  {
    hide Get;
    if k < |p| {
      AncestorsAreDirs(t, p, k);
    } else {
      assert p[..k] == p;
    }
    assert !SwitchAt(s, t, p[..k]);
  }

  /** On an undrifted host every file to write has no directory in its place and no file above it. */
  lemma UndriftedRoom(files: map<Path, Str>, dirs: set<Path>, cs: seq<Change>, p: Path)
    requires HostOk(files, dirs) && AllUndrifted(files, dirs, cs) && p in JobPaths(cs, WriteContent)
    requires forall c <- cs :: c.Modified? && c.after.File? ==> !c.before.Dir?
    ensures p !in dirs && !FileAbove(files, p)
  {
    hide FileMatches;
    var c :| c in cs && JobOf(c) == Some(WriteContent) && c.path == p;
    assert Drift(files, dirs, c).None?;
  }

  lemma UndriftedRemoved(files: map<Path, Str>, dirs: set<Path>, cs: seq<Change>, p: Path)
    requires AllUndrifted(files, dirs, cs) && p in JobPaths(cs, DropFile)
    ensures p in files && p !in dirs
  {
    hide FileMatches;
    var c :| c in cs && JobOf(c) == Some(DropFile) && c.path == p;
    assert Drift(files, dirs, c).None?;
  }

  /** The files can be written once the directories were made. */
  lemma UndriftedWritable(s: Tree, t: Tree, cs: seq<Change>, files: map<Path, Str>, dirs: set<Path>)
    requires NoSwitches(s, t) && JobsTell(s, t, cs) && HostOk(files, dirs) && AllUndrifted(files, dirs, cs)
    requires forall c <- cs :: c.Modified? && c.after.File? ==> !c.before.Dir?
    ensures Writable(files, dirs + Chains(JobPaths(cs, MakeDir)), JobPaths(cs, WriteContent))
    ensures JobPaths(cs, DropFile) !! dirs + Chains(JobPaths(cs, MakeDir)) + Uppers(JobPaths(cs, WriteContent))
  {
    hide Get, JobPaths, SameAt, AllUndrifted, HostOk, NoSwitches, Chains;
    MadeAreTarget(s, t, cs);
    var paths := JobPaths(cs, WriteContent);
    forall p | p in paths
      ensures p != [] && p !in dirs + Chains(JobPaths(cs, MakeDir)) && p !in Uppers(paths) && !FileAbove(files, p)
    {
      UndriftedRoom(files, dirs, cs, p);
      assert FileAt(t, p);
    }
    forall q | q in Uppers(paths)
      ensures q !in files
    {
      var p, k :| p in paths && 0 < k < |p| && q == p[..k];
    }
    forall p | p in JobPaths(cs, DropFile)
      ensures p !in dirs + Chains(JobPaths(cs, MakeDir)) + Uppers(paths)
    {
      UndriftedRemoved(files, dirs, cs, p);
      assert FileAt(s, p);
    }
  }

  /** A host equal to the base passes verification. */
  lemma BaseUndrifted(s: Tree, t: Tree, was: map<Path, Str>, will: map<Path, Str>, files: map<Path, Str>,
                      dirs: set<Path>)
    requires Plain2(s, t, was, will) && HostIs(files, dirs, s)
    ensures AllUndrifted(files, dirs, Changes(s, t, []))
  {
    hide Changes, Get, IdOf, ToEntry, Extents, NoSwitches, PlainTree;
    forall c | c in Changes(s, t, [])
      ensures Drift(files, dirs, c).None?
    {
      ChangesTell(s, t, was, will, c);
      if Get(s, c.path).Some? {
        EntryKind(Get(s, c.path).value);
      }
      BaseNotBroken(s, t, files, dirs, c);
    }
  }

  lemma BaseNotBroken(s: Tree, t: Tree, files: map<Path, Str>, dirs: set<Path>, c: Change)
    requires NoSwitches(s, t) && HostIs(files, dirs, s) && ChangeTells(s, t, c)
    ensures c.Added? && !c.entry.Dir? ==> ReadAt(files, dirs, c.path).Missing?
    ensures c.Removed? && !c.entry.Dir? ==>
              ReadAt(files, dirs, c.path) == (if c.path in files then Bytes(files[c.path]) else Missing)
    ensures c.Modified? ==> ReadAt(files, dirs, c.path) == (if c.path in files then Bytes(files[c.path]) else Missing)
  {
    hide Get, ToEntry, ContentAt;
    var p := c.path;
    assert !SwitchAt(s, t, p);
    if k :| 0 < k < |p| && p[..k] in files {
      assert FileAt(s, p[..k]);
      if Get(s, p).Some? {
        AncestorsAreDirs(s, p, k);
      } else {
        PrefixIsDir(s, t, p, k);
      }
    }
  }

  /** No file of the base stands where the target has a new directory, or above it. */
  lemma BaseDirsClear(s: Tree, t: Tree, cs: seq<Change>, files: map<Path, Str>, dirs: set<Path>)
    requires NoSwitches(s, t) && JobsTell(s, t, cs) && HostIs(files, dirs, s)
    ensures forall q <- Chains(JobPaths(cs, MakeDir)) :: q !in files
  {
    hide Get, JobPaths, SameAt, ContentAt, Chains, Uppers;
    MadeAreTarget(s, t, cs);
  }

  // ---- apply ----

  /** The file table after an accepted run: changed files hold the target's content, dropped ones are gone. */
  ghost predicate AppliedFiles(cs: seq<Change>, content: map<Path, Str>, files: map<Path, Str>, after: map<Path, Str>) {
    && after.Keys == files.Keys + JobPaths(cs, WriteContent) - JobPaths(cs, DropFile)
    && (forall p | p in after && p in JobPaths(cs, WriteContent) :: p in content && after[p] == content[p])
    && (forall p | p in after && p !in JobPaths(cs, WriteContent) :: p in files && after[p] == files[p])
  }

  /** The directories after an accepted run. */
  ghost function AppliedDirs(cs: seq<Change>, dirs: set<Path>, after: map<Path, Str>): set<Path> {
    DirsLeft(after, dirs + Chains(JobPaths(cs, MakeDir)) + Uppers(JobPaths(cs, WriteContent)), JobPaths(cs, DropDir))
  }

  /**
   * `apply` on any host. It succeeds exactly when no changed file has drifted and no file stands at or above a
   * directory to be made. Drift fails before anything is touched; a file in a directory's place is only met
   * while directories are made, before any file is touched. On success the changed paths hold the target's
   * content, every other file is as it was, and a dropped directory goes exactly when nothing that stays lies
   * beneath it. A host equal to the base becomes equal to the target.
   */
  method Apply(h: Host, changes: seq<Change>, content: map<Path, Str>, ghost s: Tree, ghost t: Tree,
               ghost was: map<Path, Str>)
    returns (r: Result<Unit>)
    requires changes == Changes(s, t, []) && Plain2(s, t, was, content) && HostOk(h.files, h.dirs)
    modifies h
    ensures r.Ok? <==> AllUndrifted(old(h.files), old(h.dirs), changes)
                       && forall q <- Chains(JobPaths(changes, MakeDir)) :: q !in old(h.files)
    ensures r.Err? ==> h.files == old(h.files)
    ensures !AllUndrifted(old(h.files), old(h.dirs), changes) ==> h.dirs == old(h.dirs)
    ensures r.Ok? ==> AppliedFiles(changes, content, old(h.files), h.files)
    ensures r.Ok? ==> h.dirs == AppliedDirs(changes, old(h.dirs), h.files)
    ensures HostIs(old(h.files), old(h.dirs), s) ==> r.Ok? && HostIs(h.files, h.dirs, t)
  {
    hide Changes, Get, JobPaths, ContentAt, DirAt, FileAt, PlainTree, NoSwitches, AllUndrifted, SameAt, HostIs, HostOk;
    hide Chains, Uppers, DirsLeft, JobsTell, Writable;
    ghost var files, dirs := h.files, h.dirs;
    AllJobsTell(s, t, was, content);
    if HostIs(files, dirs, s) {
      BaseUndrifted(s, t, was, content, files, dirs);
      BaseDirsClear(s, t, changes, files, dirs);
    }
    r := Verify(h, changes);
    if r.Err? {
      return;
    }
    ModifiedAreFiles(s, t, was, content);
    UndriftedWritable(s, t, changes, files, dirs);
    ContentGiven(s, t, changes, content);
    r := MakeDirs(h, changes);
    if r.Err? {
      return;
    }
    r := WriteFiles(h, changes, content);
    ghost var written := h.files;
    var dropped: set<Path>;
    r, dropped := RemoveFiles(h, changes);
    ghost var made := h.dirs;
    assert h.files.Keys !! made by {
      FilesApart(changes, files, dirs, written);
    }
    RemoveDirs(h, dropped);
    if HostIs(files, dirs, s) {
      BaseBecomesTarget(s, t, was, content, files, dirs, h.files);
    }
  }

  lemma ModifiedAreFiles(s: Tree, t: Tree, was: map<Path, Str>, will: map<Path, Str>)
    requires Plain2(s, t, was, will)
    ensures forall c <- Changes(s, t, []) :: c.Modified? && c.after.File? ==> !c.before.Dir?
  {
    hide Changes, Get, ToEntry, PlainTree, NoSwitches;
    forall c | c in Changes(s, t, []) && c.Modified?
      ensures !c.before.Dir?
    {
      ChangesTell(s, t, was, will, c);
      EntryKind(Get(s, c.path).value);
    }
  }

  lemma ContentGiven(s: Tree, t: Tree, cs: seq<Change>, content: map<Path, Str>)
    requires JobsTell(s, t, cs) && PlainTree(t, content)
    ensures JobPaths(cs, WriteContent) <= content.Keys && [] !in JobPaths(cs, WriteContent)
  {
    hide Get, JobPaths, ContentAt, SameAt;
    forall p | p in JobPaths(cs, WriteContent)
      ensures p in content && p != []
    {
      assert FileAt(t, p);
    }
  }

  /** Before directories are dropped, nothing is both a file and a directory. */
  lemma FilesApart(cs: seq<Change>, files: map<Path, Str>, dirs: set<Path>, written: map<Path, Str>)
    requires HostOk(files, dirs) && written.Keys == files.Keys + JobPaths(cs, WriteContent)
    requires forall q <- Chains(JobPaths(cs, MakeDir)) :: q !in files
    requires Writable(files, dirs + Chains(JobPaths(cs, MakeDir)), JobPaths(cs, WriteContent))
    ensures written.Keys !! dirs + Chains(JobPaths(cs, MakeDir)) + Uppers(JobPaths(cs, WriteContent))
  {
    hide JobPaths, Chains, Uppers, Rooted;
  }

  /** A host equal to the base becomes equal to the target. */
  lemma BaseBecomesTarget(s: Tree, t: Tree, was: map<Path, Str>, content: map<Path, Str>, files: map<Path, Str>,
                          dirs: set<Path>, after: map<Path, Str>)
    requires Plain2(s, t, was, content) && HostIs(files, dirs, s)
    requires AppliedFiles(Changes(s, t, []), content, files, after)
    ensures HostIs(after, AppliedDirs(Changes(s, t, []), dirs, after), t)
  {
    hide Changes, Get, JobPaths, ContentAt, Chains, Uppers, SameAt, DirsLeft, PlainTree, NoSwitches, FileAt;
    var cs := Changes(s, t, []);
    AllJobsTell(s, t, was, content);
    FilesAreTarget(s, t, cs, files, after, content);
    var made := dirs + Chains(JobPaths(cs, MakeDir)) + Uppers(JobPaths(cs, WriteContent));
    MadeAreTarget(s, t, cs);
    forall p
      ensures p in made <==> DirAt(s, p) || DirAt(t, p)
    {
      MadeAreMade(cs, p);
    }
    forall p
      ensures p in AppliedDirs(cs, dirs, after) <==> DirAt(t, p)
    {
      LeftAreTarget(s, t, after, made, JobPaths(cs, DropDir), p);
    }
  }

  lemma MadeAreMade(cs: seq<Change>, p: Path)
    ensures p != [] && p in JobPaths(cs, MakeDir) ==> p in Chains(JobPaths(cs, MakeDir))
  {
    hide JobPaths;
    assert p[..|p|] == p;
  }

  lemma LeftAreTarget(s: Tree, t: Tree, after: map<Path, Str>, made: set<Path>, dropped: set<Path>, p: Path)
    requires forall q :: q in after <==> FileAt(t, q)
    requires forall q :: q in made <==> DirAt(s, q) || DirAt(t, q)
    requires forall q :: q in dropped <==> DirAt(s, q) && !DirAt(t, q)
    ensures p in DirsLeft(after, made, dropped) <==> DirAt(t, p)
  {
    hide Get;
    if p in dropped && Occupied(after, made, dropped, p) {
      var x :| p <= x && p != x && (x in after || (x in made && x !in dropped));
      assert p != [];
      DirAbove(t, p, x);
    }
  }

  lemma DirAbove(t: Tree, p: Path, x: Path)
    requires p != [] && p <= x && p != x && (DirAt(t, x) || FileAt(t, x))
    ensures DirAt(t, p)
  {
    ProperPrefix(p, x);
    AncestorsAreDirs(t, x, |p|);
    assert x[..|p|] == p;
  }

  /** What the passes leave in the file table of a host equal to the base. */
  lemma FilesAreTarget(s: Tree, t: Tree, cs: seq<Change>, files: map<Path, Str>, after: map<Path, Str>,
                       content: map<Path, Str>)
    requires JobsTell(s, t, cs) && PlainTree(t, content) && AppliedFiles(cs, content, files, after)
    requires (forall p :: p in files <==> FileAt(s, p)) && forall p | p in files :: ContentAt(s, p, files[p])
    ensures forall p :: p in after <==> FileAt(t, p)
    ensures forall p | p in after :: ContentAt(t, p, after[p])
  {
    hide Get, JobPaths;
    forall p
      ensures p in after <==> FileAt(t, p)
      ensures p in after ==> ContentAt(t, p, after[p])
    {
      if FileAt(t, p) && p !in JobPaths(cs, WriteContent) {
        assert FileAt(s, p);
      }
    }
  }
}
