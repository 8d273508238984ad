# SurrealFS, modelled and verified in Dafny

SurrealFS is a content-addressed filesystem with private workspaces and atomic publication. This project
models its core and proves what that core is for. `dafny verify dfyconfig.toml` checks everything.

## The stack

**Encodings and the tree.** `Base`, `Paths`, `Canonical`, `State` and `Tree` hold byte-wise order, repository
paths, the canonical encoder, the mutation log and directory nodes. A directory node refers to its
subdirectories by digest; a `Tree` is the finite tree such a node stands for, and `IdOf` is its root id. The one
assumption is that the hash is injective. Injectivity of every encoding is proved. Because a digest alone does
not rule out cycles, node maps are always tied to a finite tree (`Stored`, `Loaded` in `Nodes`), and that tree is
what recursion and loops terminate on. `TreeOps` has insertion, removal and lookup on trees; `Nodes` has the
writer that performs them on a partial node map; `Canonicity` says when roots are equal.

**Workspaces.** `WorkspaceSpec` is the workspace as a state machine on values, one function per operation.
`Workspace` is the class that runs the operations through its sparse cache and the store's bounded resident tier
(`Resident`, `Store`), and each method is proved to have exactly the outcome and the new state of its function:
prefetching is always enough. `Links`, `LinkGroups` and `LinkInvariant` treat batches of insertions and hard-link
groups, and `OperationLaws` says over lookups alone when and why each operation fails and what renames, copies,
symlinks and metadata changes leave. `RefModel` is the reference state machine on flat maps, `Rebuild` shows what its
rebuild loops produce, and `Refinement` proves that workspace and reference model agree. `Mirror` runs the two side
by side, round after round of opening, editing and publishing.

**Publication and collection.** `Database` has the tables as maps and a publication as one atomic relation;
`Store` and `Gc` implement it, and mark and sweep, as methods. `Replay` shows when a mutation log determines the
new root. `Footprint` bounds what a workspace refers to. `Protocol` is the transition system in which workspaces
open, edit, stage chunks one at a time outside every lock, publish, revert and fork while a collector marks and
deletes row by row; `ProtocolInvariant`, `ProtocolSteps` and `ProtocolTheorems` prove its invariant over all
interleavings and what follows from it; `ReplayMisleads` is one run that shows a promise broken. `Kernel` opens
workspaces, forks, compares and reverts, `Reverts` says what the log of a revert holds and when it tells the whole
story, and `OpenWorkspaces` why an open workspace stays usable while others publish, revert, fork and collect.

**Around the core.** `Diff` and `DiffExact` (walking and comparing trees), `Time` and `TimeText` (calendar
arithmetic and timestamps), `Handles` (open files), `Archive` (framing and checks), `Inodes`, `MountInvariant` and
`Mount` (inode numbers that follow renames, and the calls of a mount that keep them in step with the tree),
`HostApply` (writing a difference into a host directory).

## Where the program falls short of a broader claim

Each of these is proved as an exact condition or with a family of counterexamples.

- The reference model lets a file be linked at the root, which the workspace refuses; it has no staging limit; and
  its rename takes no notice of what is at the destination, stops at a path that grows too long and leaves link groups
  behind. `Refinement.StepAgrees` says exactly where the two part.
- A rename keeps the old member list of a linked file, a copy over a group member leaves the others listing it,
  and a metadata change reaches one member only. `LinkInvariant.StepLinks` says exactly which operations keep
  groups consistent.
- A copy is logged as a plain write, so the log does not determine the root when the source's metadata is not
  what the write would leave. `Replay.StepTraced` is exact; `Replay.CopyNotDetermined` gives the counterexamples,
  `ProtocolTheorems.ReplayCanMislead` the publication that is answered with the wrong root, and
  `ReplayMisleads.MisleadingRun` a run that ends in one.
- `revert_to` describes the reversal from a diff of the trees, so it refuses a revert whose only differences are
  in the key-value map, in directory metadata or in symlinks that the target has (`Reverts.RevertRefuses`); and its log
  brings back neither symlinks nor metadata nor what lies beneath a path that changes kind (`Reverts.RevertReplays` is
  exact between trees without links).
- The request id of a revert is derived from the head and the target without the branch, so two branches at one head
  cannot both be reverted to the same target (`ProtocolTheorems.SecondRevertMismatches`).
- Reading a valid timestamp later than 292277026596-12-04T15:30:07Z overflows (`TimeText.TextRoundTrip`).
- Writing a file whose link group a rename or copy has broken goes to the names the file lists, which need not
  include the path written (`Handles.WriteThenRead` is exact).
- `dir_nodes` fails with "not found" when an id that is not resident is asked for twice in one batch
  (`Store.Store.DirNodes`).
- Applying to a host verifies no directory: a file in the place of a directory to be made is only met after
  verification (`HostApply.Apply` is exact).
- A write or a link through a broken link group can put a file above a path the mount has numbered, and that path is
  gone while its number stays (`MountInvariant.StepInStep` is exact; sound link groups rule it out).
- An inode number that a rename replaces is left pointing at a path that answers to another number
  (`Inodes.RenameFaithful` is exact).
- A diff lists nothing beneath a path that changes kind, and no change of directory metadata alone
  (`DiffExact.ChangesListed` is exact).
- The documentation of `publish` says a derived request id comes from the base head; the code uses the base root,
  and so does this model. Identical work after a revert to the same root is therefore answered as a replay even
  though the head has moved on (`ProtocolTheorems.SpentWorkStaysSpent`).
- The archive reader ignores whatever follows the terminator's kind byte, the rest of the terminator included
  (`Archive.FramingRoundTrip`).

## Model

| member | source | states |
|---|---|---|
| Refinement.RunAgrees | crates/surrealfs-kernel/src/lib.rs:429-593 | The headline. Along any run of mkdir, write, unlink, rmdir, link, kv_set, kv_delete and compared renames without divergence, workspace and reference model agree on the success of every step, and after every step the rebuilt tree, the key-value map and the state root are the workspace's |
| Refinement.StepAgrees | crates/surrealfs-kernel/src/lib.rs:465-593 | One step succeeds in both or fails in both if and only if it does not diverge (staging limit reached by a call the model accepts, a file linked at the root); a rename does so with related states if and only if it does not diverge, except for one that the workspace refuses and the model stops at on the way; without divergence the states stay related and link groups consistent |
| Refinement.SameRoot | crates/surrealfs-model/src/lib.rs:256-308 | Related states have one state root: the model's rebuild gives exactly the workspace's tree and map |
| Refinement.StartRelated | crates/surrealfs-model/src/lib.rs:34-36 | The empty model is related to a workspace over the empty tree, so runs from the start are covered |
| Refinement.ParentsAgree | crates/surrealfs-model/src/lib.rs:38-49 | The model's parent check passes exactly where the workspace's insertion does, adds exactly the missing ancestors, and on failure leaves the model as it was |
| Refinement.WriteAgrees | crates/surrealfs-kernel/src/lib.rs:465-518 | Writing agrees in outcome exactly when the staging limit does not intervene, and keeps the maps and the tree equal at every path |
| Refinement.LinkAgrees | crates/surrealfs-kernel/src/lib.rs:1077-1118 | Linking agrees in outcome exactly when the new name is not the root, and keeps maps and tree equal |
| Refinement.UnlinkAgrees | crates/surrealfs-kernel/src/lib.rs:541-574 | Unlinking agrees always; the remaining group shrinks, or dissolves, alike on both sides |
| Refinement.MkdirAgrees | crates/surrealfs-kernel/src/lib.rs:520-538 | Creating a directory agrees always, implicit parents included |
| Refinement.RmdirAgrees | crates/surrealfs-kernel/src/lib.rs:577-593 | Removing a directory agrees always: one node read finds what the model's scan of all keys finds |
| Refinement.RenameAgrees | crates/surrealfs-model/src/lib.rs:155-188 | A rename that the workspace accepts is accepted by the model with related states if and only if it leaves link groups alone and every moved path fits the length limit; one that it refuses is refused by the model with related states if and only if the destination is blocked, or nothing is at the source while the destination's parents exist, given that every path the model would move has a path to go to |
| Refinement.MisfitFails | crates/surrealfs-model/src/lib.rs:171-173 | Where a moved path does not fit, the model stops with an error and the workspace goes on |
| Refinement.ShiftAll | crates/surrealfs-model/src/lib.rs:171-186 | The rename loop, over distinct paths, moves each one with its content and leaves the rest |
| Rebuild.RebuildLook | crates/surrealfs-model/src/lib.rs:256-299 | The rebuild of any well-formed model goes through, and its tree shows at every path what the flat maps hold there: no item clobbers another |
| Rebuild.BuildLook | crates/surrealfs-model/src/lib.rs:261-298 | A list of insertions whose parents come first builds, and the result is what the list says at every path |
| Rebuild.ItemsApart | crates/surrealfs-model/src/lib.rs:261-298 | In the order of the rebuild loops no item lies at or above an earlier one |
| Mirror.CheckRounds | crates/surrealfs-kernel/tests/kernel.rs:145-218 | The sampled cross-check as a program over any rounds: each round opens on the head the previous one left, runs on workspace and model, and publishes; every receipt has the root of the state the rounds so far lead to; the rounds go on to the end, where the head has the model's state, unless one is over budget or its derived request is already spent |
| Mirror.Round | crates/surrealfs-kernel/tests/kernel.rs:163-217 | One round: its publication is applied if and only if it is within budget and its derived request is not spent; an applied one has exactly the root that the model rebuilds and leaves the head in the model's state, and any other leaves nothing but staged chunks |
| Mirror.CrossCheck | crates/surrealfs-kernel/tests/kernel.rs:163-206 | Within a round, over every run: the root the model rebuilds after each step is the workspace's root after that step |
| Mirror.Perform | crates/surrealfs-kernel/src/lib.rs:465-1118 | Each workspace method, run through the sparse cache, has exactly the outcome and the new state of the step function |
| Mirror.PerformRef | crates/surrealfs-model/src/lib.rs:51-200 | Each model method has exactly the outcome and the new state of its function |
| RefModel.RefModel.WriteFile | crates/surrealfs-model/src/lib.rs:51-65 | A write reaches every member of the group, or just the path |
| RefModel.RefModel.Unlink | crates/surrealfs-model/src/lib.rs:79-98 | An unlink drops the name and its metadata and rewrites or dissolves the rest of the group |
| RefModel.RefModel.Link | crates/surrealfs-model/src/lib.rs:126-148 | A link copies the content and gives every member the sorted, duplicate-free group |
| RefModel.RefModel.Rename | crates/surrealfs-model/src/lib.rs:155-188 | The model's rename: parents first, then every path at or beneath the source, with no check of the destination |
| RefModel.RefModel.NamespaceRoot | crates/surrealfs-model/src/lib.rs:256-300 | The three insertion loops return the root of the built tree, or its error |
| RefModel.RefModel.RootDigestOf | crates/surrealfs-model/src/lib.rs:302-308 | The state root binds the rebuilt tree and the rebuilt key-value map |
| Trees.IdInjective | crates/surrealfs-content/src/tree.rs:171-187 | Canonicity: the root ids of two finite trees are equal exactly when the trees are |
| Trees.DirDigestInjective | crates/surrealfs-content/src/tree.rs:128-181 | Equal node digests mean equal nodes: the encoding of a directory node is injective |
| Trees.EntryDigestInjective | crates/surrealfs-content/src/tree.rs:122-163 | Equal entry digests mean equal entries, mode and link membership included |
| Trees.DirAndKvDigestsDiffer | crates/surrealfs-types/src/canonical.rs:78-85 | A directory node and a key-value node never share a digest |
| Trees.EmptyIdOnlyEmpty | crates/surrealfs-content/src/tree.rs:184-187 | Only the tree with nothing in it has the empty root |
| Canonicity.SameRootSameMap | crates/surrealfs-content/src/tree.rs:171-187 | Two roots are equal exactly when the trees show the same at every path |
| Canonicity.HistoriesMeet | crates/surrealfs-content/src/tree.rs:244-357 | Two edit histories, each over its own tree, arrive at one root if and only if they make one map of the paths, the maps being computed from the edits alone |
| Canonicity.HistoryShows | crates/surrealfs-content/src/tree.rs:244-357 | The tree a history arrives at shows at every path what the edits make of the starting map, failed edits included |
| Canonicity.NothingLeft | crates/surrealfs-content/src/tree.rs:184-187 | A root is the empty root exactly when nothing is at any path |
| Canonicity.OldRootsStay | crates/surrealfs-content/src/tree.rs:228-262 | Through any history of edits on a coherent node map: every node that was there is there as it was, every tree that could be resolved still can, so can the edited one, and at most one node was written per path component of the edits that succeeded |
| Canonicity.RunHistory | crates/surrealfs-content/src/tree.rs:228-357 | The writer run over a history, edit by edit, ends at the edited tree's root, having written exactly the nodes that the preceding row speaks of |
| TreeOps.InsertLook | crates/surrealfs-content/src/tree.rs:268-316 | Insertion changes the target and its subtree, creates missing ancestors as plain directories, and leaves every other path alone |
| TreeOps.InsertSucceeds | crates/surrealfs-content/src/tree.rs:278-316 | Insertion fails exactly when a proper ancestor exists and is not a directory |
| TreeOps.RemoveLook | crates/surrealfs-content/src/tree.rs:319-357 | Removal deletes the target and its subtree and nothing else; emptied parents stay |
| TreeOps.RemoveSucceeds | crates/surrealfs-content/src/tree.rs:324-357 | Removal succeeds exactly when something is there |
| TreeOps.RemoveUndoesInsert | crates/surrealfs-content/src/tree.rs:268-357 | Inserting at a vacant path with existing parents and removing it again restores the tree, hence the root |
| TreeOps.Extensional | crates/surrealfs-content/src/tree.rs:167-181 | The path-to-entry map determines the tree |
| Nodes.TreeWriter.InsertAt | crates/surrealfs-content/src/tree.rs:278-316 | Over a sparse node map, insertion gives the root of the inserted tree and writes exactly the route's nodes; it can fail for a missing node only when the route was not loaded |
| Nodes.TreeWriter.RemoveAt | crates/surrealfs-content/src/tree.rs:324-357 | The same for removal |
| Nodes.GetEntry | crates/surrealfs-content/src/tree.rs:360-386 | A lookup through a coherent map answers what the tree holds, or fails because the route was not loaded |
| Nodes.RouteIsShort | crates/surrealfs-content/src/tree.rs:228-262 | One edit writes at most one node per path component |
| Nodes.InsertStored | crates/surrealfs-content/src/tree.rs:268-316 | After an insertion the whole new tree can be resolved from the old nodes and the route's |
| Nodes.InsertLoaded | crates/surrealfs-kernel/src/lib.rs:934-940 | Routes loaded before an insertion are loaded in the new tree: what makes several edits in one batch safe on a sparse cache |
| Nodes.StoredGrows | crates/surrealfs-content/src/tree.rs:207-226 | Adding nodes never disturbs a tree already represented |
| Canonical.DomainDigestInjective | crates/surrealfs-types/src/canonical.rs:78-85 | Equal domain digests mean equal kinds and equal payloads |
| Canonical.BytesCancel | crates/surrealfs-types/src/canonical.rs:39-43 | A length-prefixed string can be read back off the front of any buffer |
| State.KvDigestInjective | crates/surrealfs-types/src/state.rs:95-106 | Equal key-value digests mean equal maps |
| State.RootDigestInjective | crates/surrealfs-types/src/state.rs:109-115 | A state root binds both of its halves |
| State.CommandHashInjective | crates/surrealfs-types/src/state.rs:265-282 | A command hash determines repository, branch, request, base root and the whole mutation log |
| State.CommitDigestInjective | crates/surrealfs-types/src/state.rs:291-314 | A commit id determines parent, root, request, author, message and mutation count |
| State.PayloadCancel | crates/surrealfs-types/src/state.rs:206-262 | Each mutation's encoding ends where it ends: the payload cannot be read two ways |
| State.ComputeCommandHash | crates/surrealfs-types/src/state.rs:265-282 | The encoder, run step by step over its buffer, produces the specified command hash |
| State.ComputeCommitDigest | crates/surrealfs-types/src/state.rs:291-314 | The encoder produces the specified commit digest |
| State.ComputeKvDigest | crates/surrealfs-types/src/state.rs:95-106 | The encoder produces the specified key-value digest |
| Paths.ParseInvertsRender | crates/surrealfs-types/src/path.rs:23-59 | Parsing a rendered path gives it back exactly when it is within the length limit |
| Paths.ParseExactly | crates/surrealfs-types/src/path.rs:23-59 | A string parses to a path if and only if it is that path's string, up to the number of leading slashes, and within the length limit |
| Paths.StartsWithIsPrefix | crates/surrealfs-types/src/path.rs:103-107 | The string test means "at or beneath" for components, without false sibling matches |
| Paths.JoinExtends | crates/surrealfs-types/src/path.rs:110-112 | Joining a component extends the path by one |
| Paths.AncestorSortsFirst | crates/surrealfs-types/src/path.rs:15-15 | In string order an ancestor comes before everything beneath it |
| Paths.RebaseIsSuffix | crates/surrealfs-mount/src/inode.rs:126-133 | Moving a descendant by string surgery moves its components |
| Chunks.GatherInvertsChunking | crates/surrealfs-content/src/lib.rs:37-96 | Reading the extents of a content out of any sound store that holds its chunks gives the content back |
| Chunks.GatherExactly | crates/surrealfs-kernel/src/lib.rs:596-617 | Reading any extents succeeds if and only if every chunk they name is there and is what its digest says, and gives the bodies in order |
| Chunks.GatherFails | crates/surrealfs-kernel/src/lib.rs:596-617 | Otherwise the first bad chunk decides: missing or corrupt |
| Chunks.PiecesAt | crates/surrealfs-content/src/lib.rs:37-57 | The pieces are the consecutive stretches of the chunk size, the last one what remains; their number and each one's bytes in closed form |
| Chunks.AssembleInvertsChunking | crates/surrealfs-content/src/lib.rs:37-96 | At any chunk size the reassembly accepts what chunking produced and gives back the bytes |
| Chunks.ChunkBytesWith | crates/surrealfs-content/src/lib.rs:37-57 | The chunking loop produces consecutive extents without holes and the chunks they name |
| Chunks.Assemble | crates/surrealfs-content/src/lib.rs:71-96 | The reassembly loop succeeds exactly on verified, contiguous extents, and then returns the gathered bytes |
| Chunks.ExtentsInjective | crates/surrealfs-content/src/lib.rs:37-57 | Equal extents mean equal content |
| Resident.ResidentNodes.Insert | crates/surrealfs-store/src/resident.rs:79-94 | The queue holds exactly the cached keys, each once, never more than the capacity; the oldest leaves first |
| Resident.ResidentNodes.Get | crates/surrealfs-store/src/resident.rs:64-77 | A lookup counts one hit or one miss and changes nothing else |
| Store.Store.DirNodes | crates/surrealfs-store/src/read.rs:123-166 | A batch succeeds exactly when every id the resident tier lacks has a directory row and none of these is asked for twice; it answers the cached ids first and then the fetched ones, each with a node under its own digest |
| Store.Store.DirNode | crates/surrealfs-store/src/read.rs:123-166 | The batch of one id, as the kernel asks: through any history of the resident tier, an id that has a directory row is answered with that row's node |
| Store.Store.LoadRoot | crates/surrealfs-store/src/read.rs:89-120 | What is returned re-derives the requested root; a sound row is always returned |
| Workspace.Workspace.LoadNode | crates/surrealfs-kernel/src/view.rs:45-63 | A node of the tree is always found, and is afterwards in the cache |
| Workspace.Workspace.Prefetch | crates/surrealfs-kernel/src/view.rs:67-90 | Afterwards the whole route to the path is in the cache; it never fails |
| Workspace.Workspace.ApplyInserts | crates/surrealfs-kernel/src/lib.rs:429-440 | A batch of insertions over the sparse cache is all or nothing, with the result it would have on the full node set |
| Workspace.Workspace.ApplyMove | crates/surrealfs-kernel/src/lib.rs:934-940 | Insert-then-remove in one batch has the result it would have on the full node set |
| Workspace.Workspace.StageChunks | crates/surrealfs-kernel/src/lib.rs:360-381 | A batch is admitted by its whole size and charged for what it adds |
| Workspace.Workspace.WriteFile | crates/surrealfs-kernel/src/lib.rs:465-518 | A write has the specified outcome and state on the sparse cache, group writes included |
| Workspace.Workspace.RemoveFile | crates/surrealfs-kernel/src/lib.rs:541-574 | An unlink has the specified outcome and state |
| Workspace.Workspace.RemoveDir | crates/surrealfs-kernel/src/lib.rs:577-593 | A directory removal has the specified outcome and state |
| Workspace.Workspace.RenamePath | crates/surrealfs-kernel/src/lib.rs:898-946 | A rename has the specified outcome and state: all refusals, then one batch; it succeeds exactly when `RenameSucceeds` says so over lookups |
| Workspace.Workspace.CopyFile | crates/surrealfs-kernel/src/lib.rs:949-993 | A copy has the specified outcome and state; the log entry is made before the write that may fail; it succeeds exactly when `CopySucceeds` says so over lookups |
| Workspace.Workspace.ChangeMeta | crates/surrealfs-kernel/src/lib.rs:1021-1074 | A metadata change has the specified outcome and state |
| Workspace.Workspace.LinkFile | crates/surrealfs-kernel/src/lib.rs:1077-1149 | A link has the specified outcome and state: the whole group is rewritten |
| Workspace.Workspace.KvSetValue | crates/surrealfs-kernel/src/lib.rs:638-654 | Setting a key stages the value and logs its digest |
| Workspace.Workspace.ReadFile | crates/surrealfs-kernel/src/lib.rs:596-617 | Reading gathers and verifies every chunk, held ones first |
| Workspace.Workspace.Publish | crates/surrealfs-kernel/src/lib.rs:704-754 | The chunks are sent one by one, then one publication; success closes the workspace, failure leaves it as it was |
| Workspace.Workspace.Abort | crates/surrealfs-kernel/src/lib.rs:758-769 | Aborting discards everything and touches no table |
| WorkspaceSpec.StageAccounts | crates/surrealfs-kernel/src/lib.rs:360-381 | Staging charges exactly what it adds, and never more than was admitted |
| WorkspaceSpec.StepKeepsStaging | crates/surrealfs-kernel/src/lib.rs:360-381 | Every operation, failed ones included, keeps the account of held bytes exact and within the limit, and every held chunk under its own digest |
| LinkInvariant.StepLinks | crates/surrealfs-kernel/src/lib.rs:480-574 | Every failed operation leaves a sound tree as it was; a successful one keeps the groups consistent if and only if it changed nothing or is tame: it does not move, replace or (for identical entries) change the metadata of one name of a linked file alone |
| LinkInvariant.RunKeepsLinks | crates/surrealfs-kernel/src/lib.rs:480-510 | Over any tame run every member of a group exists, holds the same entry and lists the same sorted group of at least two that contains it |
| LinkInvariant.WriteThroughAll | crates/surrealfs-kernel/src/lib.rs:480-510 | A write through one name is read through all |
| LinkInvariant.CopyLinks | crates/surrealfs-kernel/src/lib.rs:949-993 | A copy breaks a group exactly when its target is a member |
| LinkInvariant.RenameLinks | crates/surrealfs-kernel/src/lib.rs:936-940 | A rename breaks a group exactly when it moves or replaces a member |
| LinkInvariant.MetaLinks | crates/surrealfs-kernel/src/lib.rs:1021-1074 | A metadata change keeps membership always, and identical entries exactly when its target is unlinked or nothing changes |
| LinkGroups.RenameEffect | crates/surrealfs-kernel/src/lib.rs:898-946 | An accepted rename moves the whole subtree intact, empties the source and frames every other path |
| LinkGroups.UnlinkEffect | crates/surrealfs-kernel/src/lib.rs:541-574 | Unlinking a file of a sound tree always succeeds; the other names keep the file |
| LinkGroups.BatchEffect | crates/surrealfs-kernel/src/lib.rs:1120-1149 | A group write succeeds exactly when every path can be inserted; then each path shows the file and every other path is as before |
| OperationLaws.RenameSucceeds | crates/surrealfs-kernel/src/lib.rs:898-946 | Over lookups alone: an open workspace's rename succeeds if and only if neither path is the root and either the two are equal, or the source exists, is not above the destination, no file blocks the way there, and the destination is vacant, or both are leaves, or both are directories and nothing lies beneath the destination; and which error it fails with otherwise |
| OperationLaws.CopySucceeds | crates/surrealfs-kernel/src/lib.rs:949-993 | A copy succeeds if and only if the workspace is open, the source is a file or symlink, the destination is neither the root nor a directory, and no file blocks the way there; one refused for a file in its way has been logged all the same, and any other refusal leaves no trace |
| OperationLaws.CopyEffect | crates/surrealfs-kernel/src/lib.rs:965-993 | What a copy leaves: at the destination the source's metadata, size and extents, or its target, without links, so that both read the same whatever chunks are seen; missing parents as plain directories; everything else as it was |
| OperationLaws.SymlinkEffect | crates/surrealfs-kernel/src/lib.rs:997-1018 | A symlink is made if and only if nothing is at its path and no file blocks the way; it reads as its target; everything else is as it was |
| OperationLaws.MetaEffect | crates/surrealfs-kernel/src/lib.rs:1021-1074 | A metadata change sets the fields that are given and keeps the others, the content, the target, the links and every other path |
| OperationLaws.StepExplained | crates/surrealfs-kernel/src/lib.rs:429-1118 | In every tree with sound link groups, whether and why each of the eleven operations fails, as one table over lookups, the staging limit and the key-value map |
| OperationLaws.ReadExplained | crates/surrealfs-kernel/src/lib.rs:596-617 | A read succeeds if and only if something other than a directory is there and every chunk of a file is held or stored and verified; it gives the bodies in order, or the target; and why it fails otherwise |
| OperationLaws.RunSizes | crates/surrealfs-kernel/src/lib.rs:638-654 | Over any run every value the log names is held, at the length the log gives it |
| Replay.StepTraced | crates/surrealfs-kernel/src/lib.rs:465-1118 | The log accounts for a step if and only if the step is no copy, or a copy whose source is plain: default or matching metadata, onto no group member |
| Replay.RunTraced | crates/surrealfs-kernel/src/lib.rs:465-1118 | Over a plain run, the base state and the log determine the final state |
| Replay.SameCommandSameRoot | crates/surrealfs-types/src/state.rs:265-282 | Two workspaces whose logs account for their work and whose command hashes are equal ask for the same root |
| Replay.ReplaySound | crates/surrealfs-store/src/publish.rs:310-322 | For one publication: a request accepted from its receipt has the plan's new root, given that both logs account for their work; `ReplayedRootIsRequested` derives that from the runs |
| Replay.CopyNotDetermined | crates/surrealfs-kernel/src/lib.rs:965-993 | For every content and every non-default mode: copying the file and writing its bytes log the same and give different roots |
| Replay.CopyStepTraced | crates/surrealfs-kernel/src/lib.rs:965-993 | Exactly which copies the log accounts for |
| Footprint.RunRests | crates/surrealfs-kernel/src/lib.rs:704-754 | Over every run of every operation a workspace refers only to its base's nodes and chunks, its own nodes, and chunks its log names; and whatever its log names it holds or found in its base |
| Footprint.StepNamesHeld | crates/surrealfs-kernel/src/lib.rs:465-1149 | Each operation, failed or not, adds to the log only names of chunks that the workspace then holds or that its tree or map already had |
| Footprint.StepIsBounded | crates/surrealfs-kernel/src/lib.rs:465-1149 | Each operation, failed or not, refers to nothing but what was there, what it created, and what the log now names |
| Footprint.InsertFootprint | crates/surrealfs-content/src/tree.rs:268-316 | Insertion brings in only the inserted entry's nodes and chunks and the route's nodes |
| ProtocolTheorems.NoRootDangles | crates/surrealfs-store/src/publish.rs:541-599 | In every reachable state each stored root is the root of one tree and one map, all of whose nodes and chunks are stored and sound |
| ProtocolTheorems.SequencesExact | crates/surrealfs-store/src/publish.rs:571-582 | Sequence numbers are exactly 0 to n - 1 across all branches, and a parent's is smaller |
| ProtocolTheorems.OneCommitPerRequest | crates/surrealfs-store/src/publish.rs:260-307 | Each request id yields at most one commit |
| ProtocolTheorems.OneWinnerPerHead | crates/surrealfs-store/src/publish.rs:511-530 | Of all publications racing from one head on one branch at most one is ever applied |
| ProtocolTheorems.NothingIsRewritten | crates/surrealfs-store/src/publish.rs:489-729 | Between any two states of a run commits, their logs, roots and receipts stay as they are, no branch disappears or moves to a lower sequence, and there is exactly one new commit for each applied publication |
| ProtocolTheorems.RefusalsAreExpected | crates/surrealfs-store/src/publish.rs:489-570 | In a reachable state a new commit id is never taken and a head never lacks its commit |
| ProtocolTheorems.AppliedWhenHeld | crates/surrealfs-store/src/publish.rs:260-569 | The same in every reachable state, for every open workspace whose held chunks are stored, whatever was swept, published or reverted since it was opened |
| ProtocolTheorems.ReceiptsTrue | crates/surrealfs-store/src/publish.rs:260-322 | In every reachable state the receipt of a successful publication, applied or answered, names a stored commit and tells its request, root, sequence and parent; the commit of an applied one keeps the message and the log |
| ProtocolTheorems.ReplayedRootIsRequested | crates/surrealfs-store/src/publish.rs:310-322 | Replay soundness in every reachable state: when a workspace's publication is answered from the receipt of another's, both ran plainly, and the answered one's base has sound link groups, the receipt's root is the root asked for |
| ProtocolTheorems.ReplayedRevertIsTarget | crates/surrealfs-kernel/src/lib.rs:827-887 | In every reachable state a revert answered from the receipt of a revert to the same commit gets that commit's root |
| ProtocolTheorems.ReplayCanMislead | crates/surrealfs-kernel/src/lib.rs:965-993 | The inputs for which replay soundness fails: after a published copy of a file with a non-default mode, a workspace that wrote the same bytes from the same base is answered with a root that is not its own |
| ReplayMisleads.MisleadingRun | crates/surrealfs-kernel/src/lib.rs:965-993 | That such a publication happens: for every content and non-default mode a run from a fresh repository (write, set the mode, publish, then copy in one workspace and write in another) in whose last step a workspace is answered with a root that is not its work's |
| ProtocolTheorems.HistoryExplains | crates/surrealfs-store/src/publish.rs:639-661 | In every reachable state whose workspaces all ran plainly and whose reverts are all ones that a log can bring about (`RevertReplays`), replaying the stored logs of a commit and its ancestors from the empty state gives the state with that commit's root |
| ProtocolTheorems.SecondRevertMismatches | crates/surrealfs-kernel/src/lib.rs:866-874 | The request id of a revert omits the branch: of two branches at one head, once one was reverted to a target, reverting the other to the same target is a request mismatch |
| ProtocolTheorems.IdenticalWorkAppliesOnce | crates/surrealfs-kernel/src/lib.rs:700-721 | Without an explicit request id, identical work over one base state is applied once and then answered from the receipt |
| ProtocolTheorems.SpentWorkStaysSpent | crates/surrealfs-kernel/src/lib.rs:700-721 | Over any run: work once published under a derived request id is never applied again from the same base root, whatever was reverted in between |
| ProtocolTheorems.CollectionIsReady | crates/surrealfs-store/src/gc.rs:71-122 | Reachable tables meet what marking asks for: directory and key-value nodes never mix |
| ProtocolTheorems.SecondSweepRemovesNothing | crates/surrealfs-store/src/gc.rs:105-181 | In every reachable state a sweep without grace keeps exactly the marked rows, and a second one, at any time and with any grace, removes nothing |
| ProtocolTheorems.MarkingSurvivesSweep | crates/surrealfs-store/src/gc.rs:105-122 | Marking finds the same again after a sweep |
| ProtocolTheorems.ReachableGrows | crates/surrealfs-store/src/publish.rs:66-121 | The reachable states include every fresh repository and are closed under every step |
| ProtocolSteps.RunKeepsInv | crates/surrealfs-store/src/publish.rs:203-307 | The protocol invariant holds in every state of every interleaving |
| ProtocolSteps.NextKeepsInv | crates/surrealfs-store/src/publish.rs:203-307 | Every step keeps it: open, edit, stage one chunk, publish, revert, fork, and each row of a sweep |
| ProtocolSteps.InitInv | crates/surrealfs-store/src/publish.rs:340-418 | A fresh repository satisfies it |
| ProtocolSteps.PublishInv | crates/surrealfs-store/src/publish.rs:489-729 | A workspace's publication keeps it, whatever was swept, staged or published since the workspace was opened |
| ProtocolSteps.DropNodeInv | crates/surrealfs-store/src/gc.rs:125-144 | Deleting one doomed node row keeps it |
| ProtocolSteps.DropChunkInv | crates/surrealfs-store/src/gc.rs:159-179 | Deleting one doomed chunk row keeps it, even while chunks are being staged |
| ProtocolInvariant.MarkingCovers | crates/surrealfs-store/src/gc.rs:105-122 | Marking finds everything that every root needs |
| ProtocolInvariant.FreshCommit | crates/surrealfs-types/src/state.rs:291-314 | A new commit's id is never in use: it binds its request, and a request is spent once |
| ProtocolInvariant.AppliedKeepsInv | crates/surrealfs-store/src/publish.rs:541-729 | An applied publication keeps the whole invariant |
| Store.Store.Publish | crates/surrealfs-store/src/publish.rs:260-307 | The publication method implements the atomic publication relation: budget, receipt, head, head commit, staged content, one write that includes the commit's mutation log |
| Store.Store.EnsureRepository | crates/surrealfs-store/src/publish.rs:66-114 | Bootstrapping creates the empty root and the genesis commit once, and reports where the main branch stands |
| Store.Store.StageChunk | crates/surrealfs-store/src/publish.rs:203-234 | Staging one chunk replaces its row and restarts its age |
| Store.Store.HighestSequence | crates/surrealfs-store/src/publish.rs:571-582 | The highest commit sequence, or zero |
| Store.Store.RequiredChunks | crates/surrealfs-store/src/publish.rs:540-552 | Exactly the chunks that the log names |
| Store.Store.BranchCreate | crates/surrealfs-store/src/branches.rs:47-70 | A new name for an existing commit; a taken name is refused |
| Store.Store.Mark | crates/surrealfs-store/src/gc.rs:105-122 | Marks exactly the nodes reachable from all roots and exactly the chunks that they and the key-value nodes name |
| Gc.WalkTree | crates/surrealfs-store/src/gc.rs:186-219 | The shared-set worklist terminates on any table, cyclic ones included, and adds exactly what is reachable |
| Store.Store.Gc | crates/surrealfs-store/src/gc.rs:71-182 | Removes exactly the unmarked rows at least as old as the grace period; the report counts rows and bytes exactly |
| Store.Store.SweepChunks | crates/surrealfs-store/src/gc.rs:146-181 | Deletes exactly the doomed chunk rows, with exact counters |
| DiffExact.ChangesListed | crates/surrealfs-content/src/tree.rs:467-518 | Exactness: a change is listed if and only if it is the one change to report at its path: existence differs, or a non-directory entry differs, and no ancestor changes kind |
| DiffExact.ChangesTopDown | crates/surrealfs-content/src/tree.rs:467-518 | No path is listed twice, and none after anything beneath it |
| DiffExact.DiffListsDifferences | crates/surrealfs-content/src/tree.rs:457-518 | Where no path changes kind, the listed paths are precisely those whose existence or non-directory entry differs |
| DiffExact.WalkedLists | crates/surrealfs-content/src/tree.rs:417-433 | A walk lists exactly what is beneath a node |
| DiffExact.WalkedTopDown | crates/surrealfs-content/src/tree.rs:417-433 | A walk lists no path twice, and a directory before what is in it |
| Diff.DiffInto | crates/surrealfs-content/src/tree.rs:467-518 | The recursive loops append exactly the specified changes, skipping equal digests; they fail only for a missing node |
| Diff.WalkInto | crates/surrealfs-content/src/tree.rs:417-433 | The recursive loop appends exactly the specified listing |
| Reverts.RevertRefuses | crates/surrealfs-kernel/src/lib.rs:834-865 | A revert is refused as changing nothing exactly when every reportable difference is a symlink of the target; key-value differences do not count |
| Reverts.RevertLogSays | crates/surrealfs-kernel/src/lib.rs:839-858 | Between any two trees a revert's log holds an entry if and only if it is the one read off the two trees at some path: for a file the target's size and content, for a missing directory its creation, for a path to go its removal, nothing for a symlink of the target |
| Reverts.RevertLogTopDown | crates/surrealfs-kernel/src/lib.rs:839-858 | No path is logged twice, and a directory is logged before what is in it |
| Reverts.RevertReplays | crates/surrealfs-kernel/src/lib.rs:839-887 | Between trees without links, acting the log out gives the target's tree if and only if every entry of the target is there already, or is a plain directory where there was none, or a file under the metadata of the file it replaces or else the default |
| Kernel.RevertRestores | crates/surrealfs-kernel/src/lib.rs:827-887 | An applied revert puts the target's root at the head, on top of the commit it undoes, which stays |
| Kernel.Kernel.RevertTo | crates/surrealfs-kernel/src/lib.rs:827-887 | Reverting publishes the target's own state with the described log, the given message and the derived request id, over the head that was read; the tables stay sound and every open workspace stays usable |
| Kernel.Kernel.Collect | crates/surrealfs-store/src/gc.rs:71-182 | A row stays, as it was, if and only if a root reaches it or it is younger than the grace period; the tables stay sound and every open workspace stays usable |
| Kernel.Kernel.Publish | crates/surrealfs-kernel/src/lib.rs:704-754 | Publishing an open workspace is applied if and only if it is within budget, its request is not spent and its branch still has the head it was opened on, whatever was swept or published since; the tables stay sound; once applied, the branch's head has its root and keeps message and log; every receipt tells the truth about its commit; anything else leaves only staged chunks behind, a failure leaves the workspace open and usable, and every other open workspace stays usable |
| OpenWorkspaces.AnchoredValid | crates/surrealfs-kernel/src/view.rs:45-90 | A workspace that rests on a stored root can resolve every node of its tree, whatever was swept, published or forked since it was opened |
| Mirror.PerformGrounded | crates/surrealfs-kernel/src/lib.rs:465-1118 | Every operation leaves a workspace resting on its base |
| Kernel.SweptTables | crates/surrealfs-store/src/gc.rs:105-181 | What is unmarked and old can go from sound tables, and they stay sound; nothing goes while every row is younger than the grace period |
| ProtocolInvariant.PublishedTables | crates/surrealfs-store/src/publish.rs:260-307 | A publication whose state is fully stored once its plan is accepted keeps the tables sound and every root, whatever its outcome |
| ProtocolInvariant.WorkStores | crates/surrealfs-store/src/publish.rs:540-569 | Work that rests on a stored base is fully stored once its plan is accepted |
| ProtocolInvariant.AppliedExactly | crates/surrealfs-store/src/publish.rs:260-569 | With its held chunks sent, work that rests on a stored base is applied if and only if it is within budget, its request is not spent and its branch still has the head; a failure reports the first of these that does not hold, and changes nothing |
| ProtocolInvariant.AppliedStamps | crates/surrealfs-store/src/publish.rs:420-487 | Every node row that a publication writes starts its age anew, also one that was there; no other row changes |
| Database.PlanHashBinds | crates/surrealfs-store/src/publish.rs:260-322 | Two plans have one command hash if and only if repository, branch, request, base root and log agree |
| Database.DerivedRequestsDiffer | crates/surrealfs-kernel/src/lib.rs:700-721 | As far as rendering keeps digests apart, two derived request ids are equal if and only if repository, branch, base root and log are |
| Protocol.RevertRequestsDiffer | crates/surrealfs-kernel/src/lib.rs:866-874 | Two revert request ids are equal if and only if the digits of the two heads and of the two targets are |
| Kernel.Kernel.OpenWorkspace | crates/surrealfs-kernel/src/lib.rs:90-113 | A workspace opens on the head's state for every branch that exists |
| Kernel.Kernel.Fork | crates/surrealfs-kernel/src/lib.rs:779-789 | A fork succeeds if and only if the commit exists and the name is free; it binds the name to the commit and changes nothing else; every open workspace stays usable |
| Kernel.Kernel.LoadAllInto | crates/surrealfs-kernel/src/view.rs:135-148 | Afterwards the whole tree can be resolved from the cache alone |
| Kernel.Kernel.DiffRootsOf | crates/surrealfs-kernel/src/lib.rs:239-251 | Comparing two roots gives the specified changes of the trees behind them |
| Time.CivilRoundTrip | crates/surrealfs-types/src/time.rs:41-47 | From every valid Gregorian date, of any year positive or negative, to its day number and back |
| Time.DaysRoundTrip | crates/surrealfs-types/src/time.rs:71-80 | From every day number, negative ones included, to a valid date and back |
| Time.NextDayFollows | crates/surrealfs-types/src/time.rs:41-47 | Against the calendar itself: the next date has the next number |
| Time.DaysMonotone | crates/surrealfs-types/src/time.rs:41-47 | Day numbers are strictly increasing in (year, month, day) |
| TimeText.InstantRoundTrip | crates/surrealfs-types/src/time.rs:19-94 | Printing and parsing gives back every instant with seconds below 2^63 and any nanoseconds |
| TimeText.TimestampReads | crates/surrealfs-types/src/time.rs:19-61 | A timestamp from year 0 on with any fraction, or none, is read field by field: no moment before 1970, the moment up to the last second that fits, an overflow past it |
| TimeText.FractionReads | crates/surrealfs-types/src/time.rs:30-36 | A digit string of any length is read as the nanoseconds it stands for: the value times the missing powers of ten, or the first nine digits |
| TimeText.FractionRoundTrip | crates/surrealfs-types/src/time.rs:19-94 | Reading a timestamp with a fraction of up to nine digits and printing it keeps every digit, padded on the right |
| TimeText.SignedParses | crates/surrealfs-types/src/time.rs:22-36 | Numbers as the parsers read them: a minus negates, a plus is ignored, each type's range is kept |
| TimeText.ExtraFieldsIgnored | crates/surrealfs-types/src/time.rs:21-36 | Fields past the third are ignored, in the date and in the clock |
| TimeText.ZonesDropped | crates/surrealfs-types/src/time.rs:20-20 | Any number of trailing zone letters is dropped, and nothing else |
| TimeText.TextRoundTrip | crates/surrealfs-types/src/time.rs:19-94 | A printed whole-second timestamp from 1970 on is reproduced exactly if and only if its seconds fit 64 signed bits; past that the parser's arithmetic overflows |
| TimeText.ReadingFits | crates/surrealfs-types/src/time.rs:41-56 | Once the seconds of a valid date from 1970 on fit 64 signed bits, so does every value computed on the way to them, and only then |
| TimeText.FarYearOverflows | crates/surrealfs-types/src/time.rs:19-61 | A valid timestamp that cannot be read: the first day of year 300000000000 overflows |
| TimeText.NoOverflow | crates/surrealfs-types/src/time.rs:63-94 | Printing any instant with seconds below 2^63, and reading back what was printed, stays within 64 signed bits at every step |
| Handles.LastWriterWins | crates/surrealfs-kernel/src/handle.rs:102-127 | Any run of writes and truncations is byte-wise last-writer-wins with zero-filled gaps, refused ones included |
| Handles.SizeBounded | crates/surrealfs-kernel/src/handle.rs:129-137 | No run grows a file past the limit |
| Handles.CloseMeans | crates/surrealfs-kernel/src/handle.rs:193-234 | A dirty close that reports true found the entry unchanged since the open and wrote it; where the file's own name list includes the path and nothing above it, which sound link groups guarantee, the path then reads exactly the handle's bytes with metadata and links kept, and otherwise it is exactly as stated; false changes nothing and means the entry changed |
| Handles.OpenedUntouched | crates/surrealfs-kernel/src/handle.rs:147-234 | A file opened to be kept holds what reading it gives, clean, under its metadata; closed again untouched it changes nothing |
| Handles.OpenExplained | crates/surrealfs-kernel/src/handle.rs:147-185 | Which opens are refused and why; truncating opens a file empty, dirty and under its own metadata; a file made by opening is empty under the default metadata, and closing it untouched writes it so |
| Handles.OpenAfterWrite | crates/surrealfs-kernel/src/handle.rs:147-185 | Opening what was just written gives the bytes written, in every tree whose link groups were sound, whatever else the store holds |
| Handles.WorkspaceReopens | crates/surrealfs-kernel/src/lib.rs:596-617 | What a workspace has just written is what it reads and what it opens, through the chunks it can really see |
| Handles.EditedThroughHandle | crates/surrealfs-kernel/src/handle.rs:95-234 | Opening a file, any run of writes and truncations through the handle, and closing it leave what those make of the content that was there, under the same metadata and names |
| Handles.WriteThenRead | crates/surrealfs-kernel/src/lib.rs:465-617 | Exactly what a successful write leaves at its path, in every tree: the bytes where the file's name list includes the path and nothing above it, nothing where one of the names lies above it, and the old entry otherwise; sound link groups always give the bytes |
| Handles.FileHandle.PWriteAt | crates/surrealfs-kernel/src/handle.rs:102-114 | A positional write, accepted exactly when it ends within the limit: the refusals, the new bytes, the dirty flag |
| Handles.FileHandle.TruncateTo | crates/surrealfs-kernel/src/handle.rs:122-127 | Accepted exactly within the limit; growing zero-fills, shrinking cuts |
| Handles.FileHandle.PRead | crates/surrealfs-kernel/src/handle.rs:95-99 | A read past the end returns what exists |
| Handles.OpenFile | crates/surrealfs-kernel/src/handle.rs:147-185 | Opening materialises the content, remembers the entry's digest, and refuses directories and symlinks |
| Handles.Close | crates/surrealfs-kernel/src/handle.rs:193-234 | Closing has the specified outcome and state |
| Archive.FramingRoundTrip | crates/surrealfs-store/src/archive.rs:69-135 | Reading what a writer wrote yields exactly the records, and whatever follows the archive is ignored |
| Archive.TruncationRejected | crates/surrealfs-store/src/archive.rs:109-117 | Every archive cut before its terminator's kind byte is rejected |
| Archive.WriteAll | crates/surrealfs-store/src/archive.rs:69-89 | The writer's stream is the specified framing of the records |
| Archive.ArchiveReader.Next | crates/surrealfs-store/src/archive.rs:109-125 | The reader's step: one record, the end, or a rejection |
| Archive.AcceptedExactly | crates/surrealfs-store/src/archive.rs:658-780 | Contents are accepted if and only if every record checks out by itself; they then hold exactly what the records hold, in order, nothing dropped |
| Archive.ReadArchive | crates/surrealfs-store/src/archive.rs:658-796 | Accepted contents have a header of the right versions, every chunk, node and root re-derived, both nodes of every root present, and are exactly what the records hold; acceptance is exactly that |
| Inodes.RenameKeepsSound | crates/surrealfs-mount/src/inode.rs:118-140 | After a rename every path's number still leads back to the path |
| Inodes.RenameFaithful | crates/surrealfs-mount/src/inode.rs:118-140 | Every number leads back to itself after a rename if and only if no destination had a number before |
| Inodes.RenamedUnique | crates/surrealfs-mount/src/inode.rs:125-139 | The result does not depend on the order in which the map yields its keys |
| Inodes.InodeTable.InodeFor | crates/surrealfs-mount/src/inode.rs:80-90 | A new path gets a number never handed out before |
| Inodes.InodeTable.Rename | crates/surrealfs-mount/src/inode.rs:118-140 | The loop, in any key order, moves exactly the mappings at or beneath the source and drops those that no longer fit; the source may be its own destination |
| Inodes.RenameSame | crates/surrealfs-mount/src/inode.rs:118-140 | Renaming onto itself leaves the table as it was |
| Inodes.InodeTable.Forget | crates/surrealfs-mount/src/inode.rs:107-112 | A forgotten path loses its number, which is not recycled |
| MountInvariant.RenameInStep | crates/surrealfs-mount/src/lib.rs:341-355 | After an accepted rename every numbered path exists in the moved tree |
| MountInvariant.NumbersKeepNodes | crates/surrealfs-mount/src/lib.rs:341-355 | Every number at or beneath the source resolves to the same node as before |
| MountInvariant.UnlinkInStep | crates/surrealfs-mount/src/lib.rs:325-331 | After an unlink every numbered path still exists if and only if no other name of the file lies above a numbered path; with sound link groups none does |
| MountInvariant.StepInStep | crates/surrealfs-mount/src/lib.rs:243-398 | After any operation but a removal or a rename, every numbered path still exists if and only if the operation put no file above one, which only a write or link through a broken group can do; with sound link groups none does |
| MountInvariant.ClosedInStep | crates/surrealfs-mount/src/lib.rs:303-314 | The same for closing a handle |
| MountInvariant.CreatedIsFile | crates/surrealfs-mount/src/lib.rs:243-258 | What creating a file leaves at the path: with sound link groups an empty file that keeps the metadata and names of the one that was there, and otherwise exactly what is stated, never a directory or symlink |
| MountInvariant.OrderedUnnested | crates/surrealfs-kernel/src/lib.rs:1120-1149 | A group write, which goes in path order, goes through only if none of its paths lies above another |
| Mount.Mount.Rename | crates/surrealfs-mount/src/lib.rs:341-355 | The outcome is exactly the workspace's for the two resolved paths: an unknown parent is not found, a bad name is that error, and the source is resolved first; the tree moves and then the numbers; a refused rename changes neither |
| Mount.Mount.GetAttr | crates/surrealfs-mount/src/lib.rs:137-192 | A number is answered with kind, size, metadata and link count of its path's entry, under the number the path answers to, which in a faithful table is the number asked about |
| Mount.Mount.Lookup | crates/surrealfs-mount/src/lib.rs:159-162 | A looked-up number leads to the name inside the parent, with that entry's attributes |
| Mount.LinkCountExact | crates/surrealfs-content/src/tree.rs:105-110 | In a sound tree the link count is the number of paths that share the file, and all of them report the same attributes |
| Mount.AttributesReported | crates/surrealfs-mount/src/lib.rs:137-192 | What is reported right after a write: a regular file of as many bytes as were written, with the metadata that was there; after a symlink and a directory were made likewise |
| Mount.Mount.RemoveFile | crates/surrealfs-mount/src/lib.rs:325-331 | The outcome is exactly the workspace's unlink of the resolved path, with unknown parents and bad names refused first; success forgets the number; exactly when tree and table stay in step, on success and on failure; with sound link groups always |
| Mount.Mount.RemoveDir | crates/surrealfs-mount/src/lib.rs:333-339 | The outcome is exactly the workspace's directory removal of the resolved path; success forgets the number, failure changes nothing, and tree and table stay in step |
| Mount.Mount.MakeDirectory | crates/surrealfs-mount/src/lib.rs:318-323 | The outcome is exactly the workspace's for the resolved path, answered with the attributes of what is then there under the path's number; the answer never fails where the operation did not; tree and table stay in step |
| Mount.Mount.MakeSymbolicLink | crates/surrealfs-mount/src/lib.rs:357-367 | The same for symlinks |
| Mount.Mount.MakeHardLink | crates/surrealfs-mount/src/lib.rs:369-380 | The same for hard links, and exactly when tree and table stay in step; with sound link groups always |
| Mount.Mount.SetAttributes | crates/surrealfs-mount/src/lib.rs:382-398 | The same for metadata |
| Mount.Mount.CreateFile | crates/surrealfs-mount/src/lib.rs:243-258 | Creating: the file is made or emptied as opening and closing it would, then answered with its attributes and an unused handle number whose handle will overwrite it; exactly when tree and table stay in step |
| Mount.Mount.OpenHandle | crates/surrealfs-mount/src/lib.rs:227-241 | Opening by number: a handle under an unused number holding the content, or nothing of it; exactly which failures |
| Mount.Mount.Release | crates/surrealfs-mount/src/lib.rs:303-314 | The handle goes whatever comes of closing it; outcome and state are those of the close; exactly when tree and table stay in step |
| HostApply.Apply | crates/surrealfs-kernel/src/host.rs:203-362 | On any host: it succeeds exactly when no changed file has drifted and no file stands at or above a directory to be made; drift fails before anything is touched, and a failure of either kind before any file is; on success the changed paths hold the target's content, every other file is as it was, and a dropped directory goes exactly when nothing that stays lies beneath it; a host equal to the base becomes equal to the target |
| HostApply.Verify | crates/surrealfs-kernel/src/host.rs:214-255 | The verification pass succeeds exactly when every changed or removed file is there with the base's content and the path of every new file holds the new content or nothing; the first drift is the one reported |
| HostApply.RemoveDirs | crates/surrealfs-kernel/src/host.rs:354-361 | Deepest first: a dropped directory is removed exactly when nothing that stays lies beneath it |
| HostApply.MakeDirs | crates/surrealfs-kernel/src/host.rs:291-297 | Directories are made with their ancestors, exactly unless a file is in the way |
| HostApply.WriteFiles | crates/surrealfs-kernel/src/host.rs:298-338 | Every added or changed file gets its content and its directories, and every other file is as it was |
| HostApply.JobsAre | crates/surrealfs-kernel/src/host.rs:291-351 | Between two plain trees the jobs of the change list are exactly the differences |

## Left out

- SurrealQL text, serde JSON, migrations, async plumbing, runs, tool spans, provenance and timeline queries: the
  tables are maps and a transaction is one step. JSON sizes are a field of the plan; the text of archive records
  is read by functions of which nothing is known.
- BLAKE3: no injective function into 32 bytes exists, so a digest is one indivisible cell of an encoding buffer and
  the hash is any injective function from buffers to digests. Rendering a digest into a request id is an unknown
  function, since nothing that is proved needs it to be injective.
- Encryption at rest (`cipher.rs`), sandbox, FUSE, MCP, CLI, SDK, core locking, errno mapping, mtimes, ingest's
  directory scan.
- Error messages: only the kind of error is kept, and I/O errors while reading an archive are one kind with
  corruption. Counts and sizes of 2^64 and more have their own encoding so that the encoder is total; no machine
  value reaches it.
- Path length limits inside the tree code: paths are component sequences of any length there; `Paths.Parse` and the
  inode table have the limit.
- Refinement.RenameAgrees: exact but for renames that the workspace refuses and the model fails on the way, at a path
  with no path to go to; it may then have moved some paths or none. Symlinks and metadata changes are not compared,
  because the model ignores symlinks in several of its checks and keeps metadata across a directory removal.
- Store.Store.Publish: the repeated receipt check inside the transaction cannot find anything under the publish lock
  and is not repeated in the model; provenance relations, the parent relation that repeats the commit's parent field,
  and the workspace row are not tables here.
- Store.Store.EnsureRepository: the check that encryption agrees is left out with encryption itself.
- Archive.ReadArchive: the remaining record kinds (commits, branches and the rest) are accepted by an unknown
  predicate on their text; import into a store is left out. A length is not checked against memory before it is read.
- Inodes.InodeTable.Rename: nested prefixes are excluded; the workspace's rename refuses them before the table is
  reached (`Mount.Mount.Rename`). The number counter is unbounded.
- Mount.Mount.GetAttr: modification times are left out, here and in every other call of the mount. `read`, `write` and
  `truncate` by handle number look the handle up and forward; publishing and aborting through the mount replace the
  workspace and are left out.
- HostApply.Apply: for trees of directories and unlinked files with no kind changes; backups, dry runs, symlinks and
  hard links are left out, and the content to write is given. A host is a file map and a directory set; permissions,
  full disks and symlinks on the host are left out.
- TimeText.ParseRfc3339: arithmetic that leaves 64 signed bits is one outcome, whether the program panics or wraps.
  Text is bytes; slicing a fraction inside a multi-byte character is left out. Relative durations are left out.
- Handles.FileHandle.PWriteAt: offsets and sizes are 64-bit; address-space exhaustion is left out.
- ProtocolTheorems.ReplayedRootIsRequested: between workspaces; `ReplayedRevertIsTarget` covers reverts. A caller that
  picks a revert's request id for its own workspace, or the other way round, is outside both: a revert's log describes
  its tree difference only.
- A workspace's limit on staged bytes is chosen when it opens; `set_staged_limit` in the middle of a run is left out.
- Kernel.Kernel.RevertTo: the message is given; the program's default message is left out. The sixteen digits that a
  request id takes from a commit id are an unknown function of it.
- `Store::publish` with hand-made plans: node closure is not checked there, so the protocol has workspace and revert
  plans only.
- Savepoints, listing of branches, `readdir`, `kv_get` and `kv_list`: one-step reads of maps already modelled.
