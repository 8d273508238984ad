/**
 * The cross-check as a program: rounds of operations on a workspace and on the reference model, each round
 * published and the next opened on its result.
 */
module Mirror {
  import opened Base
  import opened State
  import opened Trees
  import opened Nodes
  import opened Database
  import opened WorkspaceSpec
  import opened Workspace
  import opened Replay
  import opened Footprint
  import opened Protocol
  import opened ProtocolInvariant
  import opened OpenWorkspaces
  import opened Kernel
  import opened RefModel
  import opened Refinement

  /** One call on a workspace: each method does what the step function says. */
  method Perform(w: Workspace, op: Op) returns (r: Result<Unit>)
    requires w.Valid()
    modifies w, w.store.resident
    ensures w.Valid() && Outcome(w.State(), r) == Step(old(w.State()), op)
  {
    hide IdOf, DirDigest, Stored, Coherent, Mkdir, Write, Unlinked, Rmdir, Renamed, Copied, MakeSymlink, MetaSet;
    hide Linked, KvPut, KvDrop;
    match op
    case DoMkdir(p) => r := w.MakeDir(p);
    case DoWrite(p, bytes) => r := w.WriteFile(p, bytes);
    case DoUnlink(p) => r := w.RemoveFile(p);
    case DoRmdir(p) => r := w.RemoveDir(p);
    case DoRename(from, to) => r := w.RenamePath(from, to);
    case DoCopy(from, to) => r := w.CopyFile(from, to);
    case DoSymlink(p, target) => r := w.MakeLink(p, target);
    case DoSetMeta(p, mode, uid, gid) => r := w.ChangeMeta(p, mode, uid, gid);
    case DoLink(existing, extra) => r := w.LinkFile(existing, extra);
    case DoKvSet(ns, key, value) => r := w.KvSetValue(ns, key, value);
    case DoKvDelete(ns, key) => r := w.KvDeleteKey(ns, key);
  }

  /** One call on the reference model. */
  method PerformRef(m: RefModel, op: Op) returns (r: Result<Unit>)
    requires Compared(op)
    modifies m
    ensures RefOutcome(m.State(), r) == RefStep(old(m.State()), op)
  {
    hide RefMkdir, RefWrite, RefUnlink, RefRmdir, RefRename, RefLink, RefKvDelete;
    match op {
      case DoMkdir(p) => r := m.Mkdir(p);
      case DoWrite(p, bytes) => r := m.WriteFile(p, bytes);
      case DoUnlink(p) => r := m.Unlink(p);
      case DoRmdir(p) => r := m.Rmdir(p);
      case DoRename(from, to) => r := m.Rename(from, to);
      case DoLink(existing, extra) => r := m.Link(existing, extra);
      case DoKvSet(ns, key, value) =>
        m.KvSet(ns, key, value);
        r := Ok(());
      case DoKvDelete(ns, key) => r := m.KvDelete(ns, key);
    }
  }

  /** An operation leaves the workspace resting on its base. */
  method PerformGrounded(w: Workspace, op: Op) returns (r: Result<Unit>)
    requires w.Valid() && Grounded(w)
    modifies w, w.store.resident
    ensures w.Valid() && Grounded(w) && Outcome(w.State(), r) == Step(old(w.State()), op)
  {
    hide IdOf, Step, Stored, RestsOn, StagingOk, StateRoot, Coherent, RowsOk;
    StepRests(w.baseTree, w.baseKv, w.State(), op);
    StepKeepsStaging(w.State(), op);
    r := Perform(w, op);
  }

  /** One operation on both, and the root the model rebuilds afterwards. */
  method PerformBoth(w: Workspace, m: RefModel, op: Op) returns (root: RootId)
    requires w.Valid() && Grounded(w)
    requires Related(w.State(), m.State()) && Compared(op) && !Diverges(w.State(), op)
    modifies w, w.store.resident, m
    ensures w.Valid() && Grounded(w)
    ensures Related(w.State(), m.State()) && w.State() == Step(old(w.State()), op).ws
    ensures root == StateRoot(LogicalOf(w.State()))
  {
    hide Related, Step, RefStep, StateRoot, IdOf, Stored, Coherent, DirDigest, Diverges, RefTree, LogicalOf;
    hide Grounded;
    StepAgrees(w.State(), m.State(), op);
    var done := PerformGrounded(w, op);
    var mirrored := PerformRef(m, op);
    assert done.Ok? == mirrored.Ok?;
    SameRoot(w.State(), m.State());
    RootOfRelated(w.State(), m.State());
    var rebuilt := m.RootDigestOf();
    root := rebuilt.value;
  }

  /**
   * Run both and rebuild the model's root after every step: each rebuilt root is the root of the workspace
   * at that point, and the two never disagree about success.
   */
  method CrossCheck(w: Workspace, m: RefModel, ops: seq<Op>) returns (roots: seq<RootId>)
    requires w.Valid() && Grounded(w)
    requires Related(w.State(), m.State()) && (forall op <- ops :: Compared(op)) && Convergent(w.State(), ops)
    modifies w, w.store.resident, m
    ensures w.Valid() && Grounded(w) && Related(w.State(), m.State()) && w.State() == Run(old(w.State()), ops)
    ensures |roots| == |ops|
    ensures forall i | 0 <= i < |ops| :: roots[i] == StateRoot(LogicalOf(Run(old(w.State()), ops[..i + 1])))
  {
    hide Related, Step, StateRoot, LogicalOf, IdOf, Stored, Coherent, DirDigest, Diverges, RefTree, Grounded;
    ghost var start := w.State();
    roots := [];
    assert ops[..0] == [] && ops[0..] == ops;
    for i := 0 to |ops|
      invariant w.Valid() && Grounded(w) && Related(w.State(), m.State()) && w.State() == Run(start, ops[..i])
      invariant Convergent(w.State(), ops[i..])
      invariant |roots| == i
      invariant forall j | 0 <= j < i :: roots[j] == StateRoot(LogicalOf(Run(start, ops[..j + 1])))
    {
      var op := ops[i];
      assert op in ops && ops[i..][0] == op && ops[i..][1..] == ops[i + 1..];
      assert ops[..i + 1] == ops[..i] + [op];
      RunOneMore(start, ops[..i], op);
      var root := PerformBoth(w, m, op);
      roots := roots + [root];
    }
    assert ops[..|ops|] == ops;
  }

  lemma RootOfRelated(ws: WsState, m: RefState)
    requires Related(ws, m) && RefTree(m) == Ok(ws.tree)
    ensures RootDigest(IdOf(RefTree(m).value), KvDigest(RefKvMap(m))) == StateRoot(LogicalOf(ws))
  {
  }

  // ---- rounds ----

  /** The state a round's workspace opens on. */
  function Opened(l: Logical): WsState {
    WorkspaceSpec.Open(l.tree, l.kv, DEFAULT_STAGED_LIMIT)
  }

  ghost function AfterRound(l: Logical, ops: seq<Op>): Logical {
    LogicalOf(Run(Opened(l), ops))
  }

  ghost function AfterRounds(l: Logical, rounds: seq<seq<Op>>): Logical
    decreases |rounds|
  {
    if rounds == [] then l else AfterRounds(AfterRound(l, rounds[0]), rounds[1..])
  }

  /** No round diverges from the model, each started where the one before it ended. */
  ghost predicate Comparable(l: Logical, rounds: seq<seq<Op>>)
    decreases |rounds|
  {
    rounds == [] ||
    (&& (forall op <- rounds[0] :: Compared(op))
     && Convergent(Opened(l), rounds[0])
     && Comparable(AfterRound(l, rounds[0]), rounds[1..]))
  }

  /** The branch's head has the root of `l`, and the model is in the state of `l`. */
  ghost predicate HeadMatches(db: Db, branch: Str, l: Logical, m: RefState) {
    && branch in db.branches && db.branches[branch] in db.commits
    && db.commits[db.branches[branch]].root == StateRoot(l)
    && Related(Opened(l), m)
  }

  /** A round's publication fits the budget, and the request derived from its work is not spent. */
  ghost predicate RoundAllowed(db: Db, branch: Str, l: Logical, ops: seq<Op>, metadataBytes: nat) {
    var log := Run(Opened(l), ops).mutations;
    && |log| <= MAX_PUBLICATION_MUTATIONS && metadataBytes <= MAX_PUBLICATION_METADATA_BYTES
    && RequestFor(db.repository, branch, None, StateRoot(l), log) !in db.receipts
  }

  /**
   * One round: open on the head, run the operations on both, publish. It is applied exactly when the budget and
   * the derived request allow it, with the root that the model rebuilds, and leaves the head in the model's state;
   * otherwise nothing but staged chunks is left behind.
   */
  method Round(k: Kernel, m: RefModel, ops: seq<Op>, ghost l: Logical, metadataBytes: nat, now: nat)
    returns (r: Result<Receipt>)
    requires k.Valid() && HeadMatches(k.store.db, k.branch, l, m.State())
    requires (forall op <- ops :: Compared(op)) && Convergent(Opened(l), ops)
    modifies k.store`db, k.store.resident, m
    ensures k.Valid()
    ensures IsApplied(r) <==> old(RoundAllowed(k.store.db, k.branch, l, ops, metadataBytes))
    ensures r.Err? ==> r.error in {OverBudget, RequestMismatch}
    ensures !IsApplied(r) ==> k.store.db == old(k.store.db).(chunks := k.store.db.chunks)
    ensures IsApplied(r) ==>
              && HeadMatches(k.store.db, k.branch, AfterRound(l, ops), m.State())
              && RefTree(m.State()).Ok?
              && r.value.root == RootDigest(IdOf(RefTree(m.State()).value), KvDigest(RefKvMap(m.State())))
              && r.value.root == StateRoot(AfterRound(l, ops))
  {
    hide StateRoot, Related, RowsOk, RootsOk, CommitsOk, IdOf, KvDigest, RefTree, Run, Convergent, Stored, Coherent;
    hide StagingOk, RestsOn, Published, Publishable, Failure, WithStaged, RoundAllowed, RequestFor;
    var opened', state := k.OpenWorkspace();
    var w := opened'.value;
    StateRootInjective(state, l);
    var roots := CrossCheck(w, m, ops);
    RelatedOpen(w.State(), m.State());
    SameRoot(w.State(), m.State());
    RootOfRelated(w.State(), m.State());
    AllowedIsPublishable(k.store.db, w.PlanNow(None, None, metadataBytes), l, ops);
    StagedOnlyChunks(k.store.db, w.staged, now);
    r := k.Publish(w, None, None, metadataBytes, now, {});
  }

  lemma AllowedIsPublishable(db: Db, plan: Plan, l: Logical, ops: seq<Op>)
    requires plan.mutations == Run(Opened(l), ops).mutations && HeadStands(db, plan)
    requires plan.request == RequestFor(db.repository, plan.branch, None, StateRoot(l), plan.mutations)
    ensures Publishable(db, plan) <==> RoundAllowed(db, plan.branch, l, ops, plan.metadataBytes)
    ensures !Publishable(db, plan) ==> Failure(db, plan) in {OverBudget, RequestMismatch}
  {
    hide Run, RequestFor, StateRoot;
  }

  /** Being related to the model is a matter of the tree and the map. */
  lemma RelatedOpen(ws: WsState, m: RefState)
    requires Related(ws, m)
    ensures ws.isOpen && Related(Opened(LogicalOf(ws)), m)
  {
  }

  /**
   * Rounds until all are done or one is over budget or asks for a spent request: every receipt has the root of
   * the model at that point.
   */
  method CheckRounds(k: Kernel, m: RefModel, rounds: seq<seq<Op>>, ghost l: Logical, metadataBytes: nat, now: nat)
    returns (receipts: seq<Receipt>)
    requires k.Valid() && HeadMatches(k.store.db, k.branch, l, m.State()) && Comparable(l, rounds)
    modifies k.store`db, k.store.resident, m
    ensures k.Valid() && |receipts| <= |rounds|
    ensures forall i | 0 <= i < |receipts| :: receipts[i].root == StateRoot(AfterRounds(l, rounds[..i + 1]))
    ensures |receipts| == |rounds| ==> HeadMatches(k.store.db, k.branch, AfterRounds(l, rounds), m.State())
    ensures |receipts| < |rounds| ==>
              !RoundAllowed(k.store.db, k.branch, AfterRounds(l, rounds[..|receipts|]), rounds[|receipts|],
                            metadataBytes)
  {
    hide RoundAllowed, StateRoot, HeadMatches, RowsOk, RootsOk, CommitsOk, AfterRound, Convergent, RefTree, IdOf;
    hide KvDigest;
    receipts := [];
    ghost var here := l;
    assert rounds[0..] == rounds && rounds[..0] == [];
    for i := 0 to |rounds|
      invariant k.Valid() && |receipts| == i && here == AfterRounds(l, rounds[..i])
      invariant HeadMatches(k.store.db, k.branch, here, m.State()) && Comparable(here, rounds[i..])
      invariant forall j | 0 <= j < i :: receipts[j].root == StateRoot(AfterRounds(l, rounds[..j + 1]))
    {
      assert rounds[i..][0] == rounds[i] && rounds[i..][1..] == rounds[i + 1..];
      RoundsAppend(l, rounds, i);
      ghost var before := k.store.db;
      var r := Round(k, m, rounds[i], here, metadataBytes, now);
      if !(r.Ok? && !r.value.replayed) {
        SameReceipts(before, k.store.db, k.branch, here, rounds[i], metadataBytes);
        return;
      }
      receipts := receipts + [r.value];
      here := AfterRound(here, rounds[i]);
    }
    assert rounds[..|rounds|] == rounds;
  }

  lemma SameReceipts(db: Db, db': Db, branch: Str, l: Logical, ops: seq<Op>, metadataBytes: nat)
    requires db'.repository == db.repository && db'.receipts == db.receipts
    ensures RoundAllowed(db', branch, l, ops, metadataBytes) <==> RoundAllowed(db, branch, l, ops, metadataBytes)
  {
    hide Run, RequestFor, StateRoot;
  }

  lemma {:induction false} RoundsAppend(l: Logical, rounds: seq<seq<Op>>, i: nat)
    requires i < |rounds|
    ensures AfterRounds(l, rounds[..i + 1]) == AfterRound(AfterRounds(l, rounds[..i]), rounds[i])
    decreases i
  {
    hide AfterRound;
    if i == 0 {
      assert rounds[..1] == [rounds[0]] && rounds[..1][1..] == [] && rounds[..0] == [];
    } else {
      assert rounds[..i + 1][1..] == rounds[1..][..i] && rounds[..i][1..] == rounds[1..][..i - 1];
      assert rounds[..i + 1][0] == rounds[0] && rounds[..i][0] == rounds[0];
      RoundsAppend(AfterRound(l, rounds[0]), rounds[1..], i - 1);
    }
  }
}
