# prosemirror-collab-commit, modelled in Dafny

This project models the core of prosemirror-collab-commit. That library lets several
ProseMirror editors (replicas) edit one document through a central authority.
Replicas propose commits, which are batches of steps tagged with a base version and
a unique ref. The authority maps each proposal forward through the commits accepted
since its base version, applies what survives, and broadcasts the result at the next
version. A replica that receives a commit either confirms its own pending commit or
rebases its unconfirmed steps over a foreign one.

The model covers four parts of the core:

- **Position-mapping bookkeeping** (`Mappings`). This is prosemirror-transform's
  `Mapping` as the core uses it: an ordered list of step maps plus mirror pairs.
  It covers `appendMap`, `appendMapping`, `invert`, `setMirror`, `getMirror` and
  `slice`. `Mapping` is a class whose methods are proved against the functions
  `WithMap`, `Appended` and `Inverted`.
- **The transform accumulator** (`Transforms`). `Transform` is a class holding the
  document, the documents before each step, the steps and the mapping. Its
  `MaybeStep` is proved against `TryStep`. A sequence of `step` calls is `StepAll`,
  where a throw is reported as `false`.
- **Step neutralization and rebasing** (`Steps`). These cover `neutralizeSteps`,
  `rebaseSteps` and the `Commit`/`Rebaseable` records. Each loop is a method proved
  equal to a left-fold specification: `Neutralize`, `Rebase` and `Redo`. Lemmas
  about those folds state what the source promises:
  - one output per input, in order;
  - exactly the steps that map and apply survive, in order, with their origin;
  - the layout of the transform after a rebase;
  - each redone step is mirrored with its own inverse.
- **The replica state machine and the authority** (`Collab`, `ApplyCommit`,
  `Authority`).
  - `CollabState` is a class with `getCommit`.
  - `Collab` also covers `unconfirmedFrom`, the plugin's `init` and `apply`,
    `initCollabState`, `chainCommitTransaction`, `receiveCommitTransaction`,
    `sendableCommit` and `getVersion`.
  - `ApplyCommit` covers the authority merge `applyCommitJSON`, proved against the
    fold `Merge`.
  - `Authority` is the authority as the test server drives it: a class keeping
    the document, the commit log and the refs it has seen.

ProseMirror's documents, steps and step maps are opaque. Every module is generic in
the document type `D`, the step type `S` and the step-map type `M`. The operations
the core calls on them are the five function values of an `Engine`:

- `apply` is `step.apply(doc)`, with None for a failed apply.
- `invert` is `step.invert(doc)`.
- `getMap` is `step.getMap()`.
- `invertMap` is `stepMap.invert()`.
- `mapStep` is `step.map(mapping.slice(from))`, with None for a dropped step.

`TextModel` is one concrete engine: a paragraph of text edited by replace steps,
with positions counted from 1 as inside a ProseMirror `doc(p(...))`. It is used for
the neutralization test and for the counterexample under "## Findings".

Errors in the source are modelled as results, not preconditions:

- A throw from `transform.step` (undoing or replaying in `rebaseSteps`) is
  `Failure(TransformError)`.
- A throw from `neutralizeSteps` is `Failure(NeutralizeError)`.

Three behaviours of the source worth noting:

- An empty rebase yields an empty list only when the foreign steps themselves
  apply. Otherwise `transform.step` throws (`Steps.RebaseEmpty`).
- The authority ignores a proposal whose ref it has already logged. It does not
  re-emit the earlier result (`Authority.Authority.Receive`).
- `getCommit` sends the unconfirmed steps as they are. The `neutralizeSteps` call
  there is commented out in the source.

## Model

| member | source | states |
|---|---|---|
| Mappings.AppendedShape | src/apply-commit.ts:25 | appending a mapping keeps the old maps and mirror pairs as a prefix and adds the other mapping's maps after them; a mirror-free mapping adds no mirror pairs |
| Mappings.InvertedMaps | src/collab-commit.ts:57-59 | the inverted mapping has one map per map, the inverse of map `n-1-j` at index `j`; a mirror-free mapping inverts to a mirror-free one |
| Mappings.InvertedMirrors | src/collab-commit.ts:57-59 | every mirror pair of the inverted mapping joins two reflected indices whose originals were mirrored in the original mapping |
| Mappings.GetMirrorFirst | src/apply-commit.ts:25 | `getMirror(n)`, read by `appendMapping`, finds a partner exactly when some recorded pair contains `n`, and then returns the other end of the first such pair |
| Mappings.Mapping.constructor | src/apply-commit.ts:20 | `new Mapping(maps)` holds exactly those maps and no mirror pairs |
| Mappings.Mapping.Slice | src/apply-commit.ts:31 | `mapping.slice(from)` is a view of the whole map list and mirror table with the window from `from` to the end; this accessor has no contract beyond its body |
| Mappings.Mapping.AppendMap | src/apply-commit.ts:35 | the map is appended and, when asked, mirrored with the given index; nothing else changes |
| Mappings.Mapping.SetMirror | src/collab-commit.ts:88 | records one mirror pair and changes no map |
| Mappings.Mapping.AppendMapping | src/apply-commit.ts:25 | the mapping becomes `Appended` of its old value and the other mapping |
| Mappings.Mapping.Invert | src/collab-commit.ts:59 | returns a new mapping equal to `Inverted` of this one |
| Transforms.StepMaps | src/collab-commit.ts:57 | one map per step, in order, each the step's own map |
| Transforms.StepAllAppends | src/collab-commit.ts:80-81 | stepping through a list succeeds exactly when the documents accept the steps in order; then the document is the replayed one and the steps, documents and maps are appended, with the mirror table untouched |
| Transforms.StepAllStops | src/collab-commit.ts:80-81 | once a `step` call throws, the later steps change nothing |
| Transforms.ApplyAllConcat | src/collab-commit.spec.ts:86-90 | replaying a concatenation replays the first part and then the second |
| Transforms.Transform.constructor | src/apply-commit.ts:27 | a new transform at the document with no steps, documents, maps or mirrors |
| Transforms.Transform.MaybeStep | src/collab-commit.ts:86 | applies the step when the document accepts it and records it with its map and the document before it; otherwise nothing changes; consistency of the lists is preserved |
| Steps.NeutralizeExact | src/collab-commit.ts:56-74 | neutralizing succeeds exactly when every step maps back; it then yields one step per input, in order, each the input mapped back; otherwise the neutralization error |
| Steps.NeutralSliceCoversEarlierSteps | src/collab-commit.ts:57-64 | step `i` is mapped through exactly the inverted maps of steps `i-1` down to `0` and no mirror pairs |
| Steps.NeutralizeSteps | src/collab-commit.ts:56-74 | the loop returns `Neutralize` of the steps |
| Steps.Inverses | src/collab-commit.ts:80 | the undo list is the stored inverses, last step first |
| Steps.UndoReplayLayout | src/collab-commit.ts:79-81 | undoing and replaying succeeds exactly when the inverses, last first, and then the foreign steps apply in order; the transform then holds its old steps, the inverses and the foreign steps, with no new mirror pair |
| Steps.UndoReplayInverses | src/collab-commit.ts:80 | after the undo the inverse of step `i` sits at index `|old steps| + |rs| - 1 - i` |
| Steps.RedoKept | src/collab-commit.ts:82-91 | the redo loop adds at most one result per step and keeps survivors in their original order with their origin |
| Steps.RedoAppends | src/collab-commit.ts:82-91 | the redo loop appends one step, document and map per survivor and leaves what the transform held before unchanged |
| Steps.RedoMirrors | src/collab-commit.ts:84-88 | each survivor adds the mirror pair `(mapFrom-1, index of its new step)`, with `mapFrom` the window start at that step |
| Steps.RedoKeepsSurvivors | src/collab-commit.ts:82-91 | a step is kept if and only if its mapped image exists and applies |
| Steps.RedoResultIsMapped | src/collab-commit.ts:84-88 | each kept entry is the mapped image of its step, with the image's inverse against the document it was applied to and the step's origin |
| Steps.RedoReplays | src/collab-commit.ts:82-91 | the rebased steps, in order, apply to the document the redo loop starts from and reach the document it ends with, so the output is ready to resend |
| Steps.RebaseReplays | src/collab-commit.ts:79-93 | after a successful rebase the rebased steps replay, in order, on the document reached by the inverses and the foreign steps, and give the final document |
| Steps.RebaseSucceeds | src/collab-commit.ts:79-93 | a rebase fails only when the inverses and the foreign steps cannot be replayed, never because of a conflict |
| Steps.RebaseLayout | src/collab-commit.ts:79-93 | on success the transform holds the inverses, the foreign steps and the survivors in that order, at most one survivor per step |
| Steps.RebaseKeepsInverses | src/collab-commit.ts:80 | on success the inverse of step `i` sits at index `|old steps| + |rs| - 1 - i` of the final transform |
| Steps.PrefixKeepsInverses | src/collab-commit.ts:82-91 | the redo loop, which only appends, keeps the inverses at their indices |
| Steps.MirrorsFromLayout | src/collab-commit.ts:84-88 | a mirror table that pairs each survivor's window start with its new step, over inverses placed where the window starts, pairs survivor `j` with the inverse of step `kept[j]`, the step it came from |
| Steps.RedoMirrorsOwnInverse | src/collab-commit.ts:84-88 | when the inverses sit where `mapFrom` points, each redone step is mirrored with the inverse of the step it came from |
| Steps.RebaseMirrorsOwnInverse | src/collab-commit.ts:79-93 | with `mapFrom` counted from the steps the transform already held, mirror pair `j` joins the inverse of step `kept[j]` of the redo loop to the `j`-th rebased step, which came from that step |
| Steps.RebaseEmpty | src/collab-commit.ts:79-93 | rebasing no steps yields no steps when the foreign steps apply, and the transform error otherwise |
| Steps.UndoSteps | src/collab-commit.ts:80 | the undo loop equals `StepAll` of the inverses, last step first |
| Steps.ReplaySteps | src/collab-commit.ts:81 | the replay loop equals `StepAll` of the foreign steps |
| Steps.RedoSteps | src/collab-commit.ts:82-91 | the redo loop's result and transform equal `Redo` |
| Steps.RebaseStepsAt | src/collab-commit.ts:79-93 | result and final transform equal `Rebase` with the given window offset |
| Steps.RebaseSteps | src/collab-commit.ts:79-93 | `rebaseSteps` as written: `Rebase` with the window counted from 0 |
| Steps.StepsOf | src/collab-commit.ts:131 | the steps of the entries, one per entry, in order |
| Collab.CollabState.constructor | src/collab-commit.ts:104-115 | a state with the given version, unconfirmed entries and pending commit |
| Collab.CollabState.NextVersion | src/collab-commit.ts:102 | the next acceptable version is one past the state's version; this accessor has no contract beyond its body |
| Collab.CollabState.GetCommit | src/collab-commit.ts:122-133 | returns the cached commit unchanged when there is one; none when nothing is unconfirmed; otherwise caches and returns a commit at the state's version with the fresh ref and the steps of the first `size` unconfirmed entries |
| Collab.GetVersion | src/collab-commit.ts:259-261 | the editor's version exactly when it has a collaboration state, none otherwise |
| Collab.SendableCommit | src/collab-commit.ts:252-255 | `getCommit` with batch size 20 |
| Collab.Transaction.constructor | src/collab-commit.ts:212 | `state.tr`: a transform at the editor's document with no metadata |
| Collab.UnconfirmedFrom | src/collab-commit.ts:136-143 | one entry per step of the transform, in order, holding the step, its inverse against the document before it, and the transform |
| Collab.PluginInit | src/collab-commit.ts:161-169 | version `config.version` or 0, nothing unconfirmed, no pending commit |
| Collab.PluginApply | src/collab-commit.ts:170-181 | a state in the metadata wins; a document change appends one entry per step and keeps the version and the pending commit; otherwise the state is unchanged |
| Collab.InitCollabState | src/collab-commit.ts:193-201 | a transaction that resets the state to the version with nothing unconfirmed and stays out of the history |
| Collab.ChainCommitTransaction | src/collab-commit.ts:218-250 | a commit at any version other than `nextVersion` changes nothing; the pending commit's ref confirms it (version advances, confirmed prefix dropped, nothing pending); any other commit rebases the unconfirmed steps over its steps: when the rebase throws, the error is returned and the collab state, `rebased` and `addToHistory` are left as they were; otherwise the version advances, the rebased steps become the unconfirmed ones, the pending commit is kept, and the transaction is marked rebased and kept out of the history. The rebase uses the corrected window: `RebaseStepsAt` with `|tr.transform.steps|` as offset, so on a transaction that already holds steps it differs from the source (see "## Findings"); on a new transaction it agrees |
| Collab.ReceiveCommitTransaction | src/collab-commit.ts:203-216 | the same three outcomes on a new transaction at the editor's document, where the rebase window counts from 0 exactly as written |
| ApplyCommit.FlattenSteps | src/apply-commit.ts:19 | the steps of the newer commits, concatenated in order |
| ApplyCommit.MergeStartLayout | src/apply-commit.ts:20-25 | the starting mapping is the inverted maps of the proposal's steps, last first, then the maps of the newer steps, with no mirror pairs |
| ApplyCommit.AppendedSingle | src/apply-commit.ts:35 | appending a one-map mapping with no mirrors appends that map only |
| ApplyCommit.MergeKept | src/apply-commit.ts:29-42 | at most one applied step per proposal step; the kept indices increase |
| ApplyCommit.MergeReplays | src/apply-commit.ts:29-42 | the applied steps replay on the authority's document to give the merged document |
| ApplyCommit.MergeMaps | src/apply-commit.ts:29-42 | the mapping grows by exactly the maps of the applied steps, each mirrored with the inverse of the proposal step it came from |
| ApplyCommit.MergeKeepsSurvivors | src/apply-commit.ts:29-42 | a proposal step is kept if and only if its mapped image exists and applies at that point |
| ApplyCommit.MergeStepsAreMapped | src/apply-commit.ts:29-42 | each applied step is the mapped image of the proposal step it came from |
| ApplyCommit.MergeMirrorsOwnInverse | src/apply-commit.ts:35-40 | in the final mapping each mirror pair joins the inverse of a kept proposal step with the map of its applied image |
| ApplyCommit.ApplyCommitReplays | src/apply-commit.ts:29-45 | the emitted commit has no more steps than the proposal, and they replay on the authority's document to give the new document |
| ApplyCommit.MergeOne | src/apply-commit.ts:30-41 | one loop iteration equals `MergeStep` |
| ApplyCommit.MergeSteps | src/apply-commit.ts:27-42 | the loop's transform and mapping equal `Merge` |
| ApplyCommit.ApplyCommitJson | src/apply-commit.ts:15-51 | the new document and a commit at `version + 1` with the proposal's ref and the merged steps |
| Authority.FlattenSnoc | src/collab-commit.spec.ts:90 | logging a commit appends its steps to the log's steps |
| Authority.RefsSnoc | src/collab-commit.spec.ts:91 | logging a commit adds its ref to the log's refs |
| Authority.LogSnoc | src/collab-commit.spec.ts:90-91 | logging a commit with the next version whose steps apply to the document keeps the versions consecutive, the log's replay equal to the new document and the refs recorded |
| Authority.ReplayOnDoc | src/collab-commit.spec.ts:84-86 | stepping a new transform through the steps yields the replayed document, or none when a step throws |
| Authority.Authority.constructor | src/collab-commit.spec.ts:31-35 | an empty log, no refs, the initial document |
| Authority.Authority.Receive | src/collab-commit.spec.ts:64-93 | a logged ref changes nothing; otherwise the proposal is merged against the commits since its version, the merged commit is logged at the next version under its ref, and the document advances; the log stays numbered 1, 2, ..., its refs stay recorded, and the document stays the replay of the whole log |
| TextModel.InvertRestores | src/collab-commit.ts:140 | for the text engine, a step's inverse applied after the step restores the document |
| TextModel.InvertedMapIsInverseMap | src/collab-commit.ts:140 | for the text engine, the inverted map of a step is the map of its inverse |
| TextModel.NeutralizeTyping | src/rebase.spec.ts:22-33 | typing "a", "bc" and "d" in sequence neutralizes to three insertions at position 1 |
| TextModel.FirstCommitReplays | src/collab-commit.ts:80-81 | undoing the local "x" and replaying "q" gives "q" |
| TextModel.FirstCommitRedo | src/collab-commit.ts:82-91 | the local "x" maps to an insertion at 2 and gives "qx" |
| TextModel.FirstCommitKeepsEdit | src/collab-commit.ts:79-93 | the first foreign commit keeps the edit as an insertion at 2 |
| TextModel.SecondCommitReplays | src/collab-commit.ts:80-81 | on the same transaction, undoing the edit and replaying "r" gives "rq" |
| TextModel.SecondCommitAsWritten | src/collab-commit.ts:82-91 | with the window counted from 0 the edit maps to position 4 and is dropped |
| TextModel.SecondCommitCorrected | src/collab-commit.ts:82-91 | with the window counted from the three steps already held the edit maps to 3 and the paragraph reads "rqx" |
| TextModel.ChainedRebaseDropsEdit | src/collab-commit.ts:218-250 | chaining two foreign commits on one transaction loses the local edit as written and keeps it with the corrected window |

## Left out

- ProseMirror's documents, steps and step maps are opaque `Engine` functions. Position mapping, including mirror recovery in `Mapping.map`, is modelled only in the text engine, and that engine ignores mirror pairs.
- JSON conversion (`toJSON`, `FromJSON`, `toSchema`, `Node.fromJSON`) and `schemaToJson`/`schemaSerialize`: documents, steps and commits are passed as values.
- `randomRef`: the fresh ref is a parameter of `GetCommit` and `SendableCommit`.
- The client ID and its random default, and the plugin's `historyPreserveItems` flag: nothing in the core reads them.
- Selection remapping in `chainCommitTransaction` (`mapSelectionBackward`, the `updated` bit): selections are not modelled.
- Collab.InitCollabState: the replacement of the whole document by the given content is not modelled; only the metadata is.
- Authority.Authority.Receive: takes the proposal itself; the test server's check that `sendableCommit` returned one is the caller's.
- The test server's `sync`, `broadcast`, `delay` and the convergence scenarios: they drive the modelled operations over a simulated network.
- The jest configuration.
- A `Rebaseable`'s origin is kept as the transform object; the history plugin that reads it is not modelled.

## Findings

| source | as written | input that shows it | evidently intended | confidence | as-written member | corrected member |
|---|---|---|---|---|---|---|
| src/collab-commit.ts:82 | the redo loop of `rebaseSteps` starts `mapFrom` at `steps.length`, so its mapping windows and mirror pairs assume the transform held no steps before the undo; `chainCommitTransaction` (src/collab-commit.ts:218-250) passes its caller's transaction, which may already hold steps | a replica whose paragraph holds its unconfirmed "x", at version v, chains a foreign commit inserting "q" at 1 (version v+1) and then one inserting "r" at 1 (version v+2) on the same transaction: the second rebase maps the edit through the first rebase's maps again, to position 4 of "rq", and mis-maps the edit to position 4 of "rq"; the text engine drops it there, so the paragraph reads "rq" (a real schema may instead reject the step by throwing) | count the window from the number of steps the transform held before the undo, so the edit maps to 3 and the paragraph reads "rqx"; each survivor is then mirrored with its own inverse | medium, not executed | TextModel.ChainedRebaseDropsEdit | Collab.ChainCommitTransaction |

The corrected offset is `Steps.RebaseStepsAt` with `|tr.transform.steps|`. It is used by
`Collab.ChainCommitTransaction`. `Steps.RebaseMirrorsOwnInverse` proves the intended
mirror property for it. On a new transaction the offset is 0, so
`Collab.ReceiveCommitTransaction` behaves exactly as the source does.
