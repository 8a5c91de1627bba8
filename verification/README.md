# Verified model of axolotl's stateful cores

Seven parts of axolotl whose correctness depends on state, order or interleaving, modelled in
Dafny and proved. `dafny verify dfyconfig.toml` checks everything.

- **Role masks** (`RoleMask*.dfy`). A greedy scan claims spans of a token row by start marker,
  longest first, and decides which tokens enter the loss. `RoleMask` says what the mask is,
  `RoleMaskScanners` and `RoleMaskVectorized` are the two implementations, with their loops and
  in-place writes, and both are proved to compute it. `RoleMaskOrder` and `RoleMaskPath` have
  the laws: what is kept of a span, and where the spans start.
- **Image tokens** (`ImageGrid`, `MarkerText`, `ImageTokens`). Scaling an image to a grid of
  patches in exact arithmetic, and expanding placeholders to grids of markers.
- **Checkpoint mirror** (`Mirror*.dfy`). Nodes copy their shares into shared staging
  directories, leave markers, publish by renaming, rotate and sweep. Every copy of a file,
  marker, listing and removal is a step of its own, in any interleaving. `MirrorSafety` is about
  what is published, `MirrorProgress` about what is never lost, `MirrorSettle` about what each
  round of settling achieves, and `MirrorDrain` shows that the nodes can always come to rest.
- **Background publisher** (`Publisher*.dfy`). A producer and one worker around a bounded deque
  of futures: the state machine, what holds in every interleaving, what follows from the outcome
  of a publication (`PublisherOutcomes`), and the producer's methods as runs of it.
- **Streaming chat** (`StreamText`, `EosTrimmer`, `ThinkSplit`, `ThinkStream`, `KvCache`). The trimmer of
  end-of-sequence strings, the splitter of thinking text, and the cache reused across turns.
- **Test selection** (`ImpactGraph`, `Selection`, `SelectionByFile`). The walk over importers and
  the decision which tests a diff runs.
- **Disk retries and peak memory** (`CauseGraph`, `DiskRetry`, `PeakMemory`). The search through
  wrapped exceptions, nested retried writers, and the reconstruction of peak memory.

`Sequences` holds the notion of occurrence that the scanners and the text machines share,
`Reachability` that of a walk in a graph, and `Wrappers` the type of optional values.

What the model takes for granted:

- *Mirror.* One run writes at a time; each node's saved steps increase and are not below the
  newest checkpoint the run starts from; the share of a node at a step does not change while it
  is copied; each `_finalize` call, and each removal of a directory, is one step. The claims
  about lost steps (`MirrorProgress`) and coming to rest (`MirrorDrain`) are about runs without
  I/O failures in `_settle`; `SettlePublishes` says what one settle does whatever failed before.
- *Trimmer and splitter.* Nothing: chunks, markers and EOS strings are arbitrary. The code's
  comments promise that EOS markers never reach the display; that the output is also the same
  for every chunking holds exactly under the stated condition.
- *Cache.* `generate` extends the cache along the sequence it returns. The text callback may
  raise: the code then neither records nor resets the cache, and agreement survives exactly
  under the condition of `DisplayErrorIff`.
- *Images.* Division is exact, and the limit is a positive multiple of 28, as the constructor
  demands.
- *Selection.* The import graph, the edges each module has by itself, what `pyproject.toml`
  selects and the two lists of globs are inputs. The laws need every test they name to be in
  scope, which is how the tree is read.
- *Retries.* Which single exception is a disk error, and the active policy, are inputs.

## Model

| member | source | states |
|---|---|---|
| `RoleMask.Winner` | src/axolotl/processing_strategies.py:439-446 | the boundary that claims a position is the first among the longest whose start marker stands there; -1 when none does |
| `RoleMask.SpanStopsAtNearestEnd` | src/axolotl/processing_strategies.py:451-463 | the content of a claimed span stops at the nearest end marker, or at the end of the row when there is none or the marker is empty |
| `RoleMaskScanners.ComputeRoleKeepMask` | src/axolotl/processing_strategies.py:407-500 | the reference scanner, loops and in-place writes, returns the mask that the spans of each row define |
| `RoleMaskScanners.ScanRow` | src/axolotl/processing_strategies.py:433-498 | one row of it, for every mode, role set and boundary list |
| `RoleMaskScanners.FindEnd` | src/axolotl/processing_strategies.py:422-431 | the linear search finds the first end marker from a position on, and says when there is none or the marker is empty |
| `RoleMaskScanners.BestMatch` | src/axolotl/processing_strategies.py:439-446 | the loop with its strict comparison picks the first among the longest |
| `RoleMaskScanners.Claim` | src/axolotl/processing_strategies.py:451-493 | where the scan goes on: an end marker that is not included is left to be matched again |
| `RoleMaskVectorized.ComputeRoleKeepMaskVectorized` | src/axolotl/processing_strategies.py:524-682 | the fast scanner, with its winner table, end positions, bisection and row buffer, returns the same mask |
| `RoleMaskVectorized.ScannersAgree` | src/axolotl/processing_strategies.py:530 | both scanners return one mask on every rectangular batch, boundary list, role set and mode |
| `RoleMaskVectorized.StableOrder` | src/axolotl/processing_strategies.py:541-543 | the stable sort lists all boundaries, longest start marker first, ties in list order |
| `RoleMaskVectorized.FirstWriterWins` | src/axolotl/processing_strategies.py:545-580 | in that order, "update only if strictly longer" leaves in each cell the first among the longest |
| `RoleMaskVectorized.StartWinners` | src/axolotl/processing_strategies.py:545-580 | the whole winner table, also for markers longer than a row and empty ones |
| `RoleMaskVectorized.EndPositions` | src/axolotl/processing_strategies.py:582-605 | the end positions of a row: increasing, and exactly the places where the marker stands |
| `RoleMaskVectorized.BisectLeft` | src/axolotl/processing_strategies.py:646 | bisection splits the sorted positions at the value |
| `RoleMaskVectorized.NextEnd` | src/axolotl/processing_strategies.py:640-652 | the bisected end of a span is the one the linear search finds |
| `RoleMaskOrder.SpansInOrder` | src/axolotl/processing_strategies.py:483-493 | spans come in order, none reaches into the next, and a rewind still lands past the start marker of its span |
| `RoleMaskVectorized.MarkFast` | src/axolotl/processing_strategies.py:652-666 | the branches that write one span into the row buffer mark exactly its kept tokens, and remember the end marker under `last` |
| `RoleMaskVectorized.CopyOut` | src/axolotl/processing_strategies.py:674-680 | the buffer becomes the row of the mask; skipping the copy when nothing is marked changes nothing |
| `RoleMaskOrder.OneOwner` | src/axolotl/processing_strategies.py:437-493 | a token belongs to at most one span |
| `RoleMaskPath.ScanGoesOn` | src/axolotl/processing_strategies.py:437-493 | where every span starts: the first at the first start marker of the row, each later one at the first start marker from the end of the span before, or from its end marker when that is not included; and none is left out at the end |
| `RoleMaskPath.SharedMarkerOpens` | src/axolotl/processing_strategies.py:491-494 | a start marker standing at an excluded end marker opens the next span |
| `RoleMaskPath.SharedMarkerContentIsKept` | src/axolotl/processing_strategies.py:669-672 | the content of a trained role is kept when its start marker is the excluded end marker of the turn before |
| `RoleMaskPath.SharedMarkerExample` | src/axolotl/processing_strategies.py:491-494 | one marker between user and assistant: the answer and its end marker are in the loss |
| `RoleMaskOrder.ContentStopsAtNearestEnd` | src/axolotl/processing_strategies.py:437-463 | every span of a row is claimed by the winner at its start, and its content holds no end marker and stops at the nearest one or the end of the row |
| `RoleMaskOrder.UnownedStartsNothing` | src/axolotl/processing_strategies.py:437-449 | the scan is greedy: a position no span owns starts no boundary |
| `RoleMaskOrder.KeptExactly` | src/axolotl/processing_strategies.py:455-498 | which tokens of a span are kept, mode by mode: content and included start marker of trained roles, and an included end marker always, for trained roles, never, or for the last trained one |
| `RoleMaskOrder.UntrainedStaysMasked` | src/axolotl/processing_strategies.py:457-481 | a kept token belongs to a span whose role is trained, or to an included end marker under `all` |
| `RoleMaskOrder.ModesNested` | src/axolotl/processing_strategies.py:465-498 | keep(none) is within keep(last), within keep(turn), within keep(all) |
| `RoleMaskOrder.ModesDifferInEndMarkers` | src/axolotl/processing_strategies.py:465-498 | `last` keeps exactly what `turn` keeps without the end markers of all trained turns but the last, `none` without all of them |
| `RoleMaskOrder.MoreRolesKeepMore` | src/axolotl/processing_strategies.py:455-481 | training more roles only adds tokens, in every mode but `last` |
| `RoleMaskOrder.MoreRolesUnderLast` | src/axolotl/processing_strategies.py:471-498 | under `last` it adds only, if and only if no span of an added role with an included end marker comes after the last trained one |
| `RoleMaskOrder.MoreRolesCanDropAnEnd` | src/axolotl/processing_strategies.py:471-498 | the condition can fail: training users too takes the end marker of the assistant turn before out of the loss |
| `ImageGrid.RoundIsNearest` | src/axolotl/processing_strategies.py:1532-1534 | rounding is to a nearest integer, the even one of two |
| `ImageGrid.NearestIsUnique` | src/axolotl/processing_strategies.py:1532-1534 | and no other integer is |
| `ImageGrid.GridCoversImage` | src/axolotl/processing_strategies.py:1527-1541 | exactly the positive sizes have a grid; it is the fewest patches that cover the scaled image, it fits the limit, and it is empty exactly when a side was rounded to 0 |
| `ImageGrid.GridKeepsShape` | src/axolotl/processing_strategies.py:1527-1536 | the grid covers the image itself within the limit, and otherwise a height and width each nearest to the exact scaled side, ties to even |
| `ImageGrid.MergedPatchCountIff` | src/axolotl/processing_strategies.py:1548-1561 | a size is accepted exactly when it is a whole, positive number of patches each way, and counts their product |
| `ImageGrid.ImageSizeIdempotentIff` | src/axolotl/processing_strategies.py:1527-1541 | resizing a resized image changes nothing, and is refused exactly when a side was rounded to 0 |
| `ImageGrid.PatchesMatchGrid` | src/axolotl/processing_strategies.py:1548-1561 | the feature count of the resized image is rows times columns, and is refused exactly when a side was rounded to 0 |
| `ImageGrid.ThinStripVanishes` | src/axolotl/processing_strategies.py:1527-1546 | a side does get lost: a 1 by 3000 image under the default limit |
| `ImageTokens.TokenStringMatchesCount` | src/axolotl/processing_strategies.py:1543-1575 | the token string of a resized image holds exactly `image_token_count` markers, and is refused exactly when a side was rounded to 0 |
| `ImageTokens.TokenStringLayout` | src/axolotl/processing_strategies.py:1563-1575 | the start marker, then a line for each row of patches with a pad for each column, closed by a break marker, the last by the end marker |
| `ImageTokens.ImagesFillInOrder` | src/axolotl/processing_strategies.py:1577-1592 | the first placeholder becomes the first image, what is before it stays, and the rest is expanded with the other images |
| `ImageTokens.ExpandImagePlaceholders` | src/axolotl/processing_strategies.py:1577-1592 | the loop over sizes and pieces computes the expansion, and fails exactly when the counts differ or a size has no grid |
| `ImageTokens.CollapseUndoesExpand` | src/axolotl/processing_strategies.py:1577-1592 | deleting from after each start marker through the next end marker gives the prompt back, for every prompt that expands and all markers that open with `<` |
| `ImageTokens.ExpansionAddsItsTokens` | src/axolotl/processing_strategies.py:1577-1592 | an expansion has the markers of the prompt plus exactly those of its images, less the placeholders |
| `ImageTokens.ExpansionKeepsPrompt` | src/axolotl/processing_strategies.py:1479-1482 | both, for the markers in use |
| `StreamText.PartialSuffixLen` | src/axolotl/cli/chat.py:164-170 | the loop finds the longest end of the text that is a proper beginning of the marker |
| `StreamText.SearchResumes` | src/axolotl/cli/chat.py:432-438 | holding back that much is enough: searching the kept end and the new text finds what searching everything would |
| `EosTrimmer.EosTextTrimmer.Feed` | src/axolotl/cli/chat.py:419-438 | one chunk moves pending text, the done flag and the emitted text as the step function says |
| `EosTrimmer.EosTextTrimmer.Finish` | src/axolotl/cli/chat.py:440-443 | held text is emitted unless an EOS string was found |
| `EosTrimmer.TrimStream` | src/axolotl/cli/chat.py:413-443 | a whole stream through the class emits `Output` for the EOS strings that are not empty |
| `EosTrimmer.OutputIsCleanPrefix` | src/axolotl/cli/chat.py:419-443 | for all EOS strings and chunks: a prefix of the stream without any EOS string, and all of it when it has none |
| `EosTrimmer.NoneInsideIsEnough` | src/axolotl/cli/chat.py:423-438 | when no EOS string lies strictly inside another, none can be overtaken |
| `EosTrimmer.OutputIsTrimmed` | src/axolotl/cli/chat.py:419-443 | then the output is the text before the earliest EOS string, for every split of the stream |
| `EosTrimmer.OutputStopsAtFirst` | src/axolotl/cli/chat.py:419-438 | said by positions: the output ends where the first EOS string stands |
| `EosTrimmer.HoldsBackOnlyPartialMarkers` | src/axolotl/cli/chat.py:432-438 | nothing is held back without need: only the longest end that may start an EOS string |
| `EosTrimmer.ChunkingIndependentIff` | src/axolotl/cli/chat.py:419-443 | exactly when: output depends on the text alone if and only if no started EOS string is overtaken by another |
| `EosTrimmer.SomeListsAreAmbiguous` | src/axolotl/cli/chat.py:419-443 | the condition can fail: `bc` overtakes `abcd` |
| `ThinkSplit.ThinkStreamRenderer.Feed` | src/axolotl/cli/chat.py:699-704 | one chunk moves mode, pending text, thinking text and printed text as the step function says; without collapsing it is printed as it is |
| `ThinkSplit.ThinkStreamRenderer.Process` | src/axolotl/cli/chat.py:718-760 | the loop over modes equals its step function |
| `ThinkSplit.ThinkStreamRenderer.Finish` | src/axolotl/cli/chat.py:706-716 | what is pending goes to the thinking text or is printed |
| `ThinkSplit.RenderTurn` | src/axolotl/cli/chat.py:699-760 | a whole turn through the class |
| `ThinkSplit.FinalExplainsStream` | src/axolotl/cli/chat.py:699-760 | for every split: the thinking text is that of the stream, and the stream is whitespace, open marker, thinking, close marker, newlines and the printed reply (or the unclosed or unmarked form) |
| `ThinkStream.UnmarkedStreamIsPrinted` | src/axolotl/cli/chat.py:718-737 | a stream that does not open with the marker is printed whole |
| `ThinkStream.UnclosedStreamIsThinking` | src/axolotl/cli/chat.py:706-716 | without a close marker everything after the open marker is thinking |
| `ThinkStream.ClosedStreamIsSplit` | src/axolotl/cli/chat.py:735-760 | what stands between the markers is thinking, what follows is printed but for newlines at its start, for every split into chunks |
| `ThinkStream.OneChunkStripsNewlines` | src/axolotl/cli/chat.py:740-748 | in one chunk all newlines after the close marker go |
| `ThinkStream.ThinkTextKeepsUp` | src/axolotl/cli/chat.py:735-754 | at every moment of a stream, all thinking but the longest end that may start the close marker has been taken over |
| `ThinkSplit.ThinkTextIgnoresChunking` | src/axolotl/cli/chat.py:718-754 | thinking text does not depend on the chunks |
| `ThinkSplit.ReplyIgnoresChunkingIff` | src/axolotl/cli/chat.py:740-748 | the printed reply does not either, if and only if no newline follows the close marker |
| `KvCache.LongestCommonPrefixLen` | src/axolotl/cli/chat.py:146-151 | the loop finds the longest common prefix |
| `KvCache.CommonPrefixIsLongest` | src/axolotl/cli/chat.py:146-151 | no common prefix is longer |
| `KvCache.CausalTurnGenerator.PrepareCache` | src/axolotl/cli/chat.py:464-492 | crop, reuse or replace: the state and the number of reused tokens, from every state and also when cropping fails |
| `KvCache.CausalTurnGenerator.GenerateTurn` | src/axolotl/cli/chat.py:514-582 | what `generate` is called with and what is recorded after each way a turn can end |
| `KvCache.CausalTurnGenerator.ChatTurn` | src/axolotl/cli/chat.py:941-972 | with the reset after an escaped interrupt |
| `KvCache.PrepareAgrees` | src/axolotl/cli/chat.py:464-492 | a cache that holds what is recorded of it is prepared to hold exactly the reused prefix, and leaves at least one token of a nonempty prompt |
| `KvCache.NextCallAgreesIff` | src/axolotl/cli/chat.py:464-492 | the call agrees for every next prompt if and only if the cache holds its record or the record is empty |
| `KvCache.DisplayErrorIff` | src/axolotl/cli/chat.py:562-582 | after a text callback has raised, every next call agrees if and only if the turn reused nothing or left the cache unwritten |
| `KvCache.EveryCallAgrees` | src/axolotl/cli/chat.py:457-582 | so at every `generate` call of every run of turns, whatever is edited between them and however each ends, as long as every callback error was of that kind |
| `KvCache.AlwaysAgreesIff` | src/axolotl/cli/chat.py:457-582 | a run and its continuations always agree if and only if that is so in every turn: any other turn has a next prompt that is handed the wrong cache |
| `KvCache.Session` | src/axolotl/cli/chat.py:457-582 | a session through the class makes the calls of the run, and they agree under that condition |
| `KvCache.ReuseIsMaximal` | src/axolotl/cli/chat.py:473-492 | nothing that could be reused is thrown away |
| `KvCache.AppendedTurnReusesAll` | src/axolotl/cli/chat.py:448-450 | a conversation that only grew reuses everything that was cached |
| `KvCache.EveryTurnCallsOnce` | src/axolotl/cli/chat.py:514-560 | every turn that gets to `generate` calls it once, with its own prompt |
| `KvCache.CompletedTurnIsReused` | src/axolotl/cli/chat.py:464-582 | the next turn finds in the cache what a completed turn left, as much as its prompt begins with |
| `KvCache.FailedTurnLeavesNothing` | src/axolotl/cli/chat.py:577-579 | after a turn that failed or was interrupted out of, the next starts from an empty cache |
| `KvCache.UnrenderedTurnChangesNothing` | src/axolotl/cli/chat.py:521-524 | a turn whose prompt cannot be rendered changes nothing |
| `KvCache.CropFailureReusesNothing` | src/axolotl/cli/chat.py:473-492 | a diverging prompt starts from an empty cache when cropping fails |
| `KvCache.DisplayErrorBreaksAgreement` | src/axolotl/cli/chat.py:562-582 | such a turn exists: the callback raises after the cache was extended |
| `MirrorLayout.OneUploaderPerNode` | src/axolotl/core/checkpoint_mirror.py:78-91 | for every hostname list there are exactly as many uploaders as nodes, with indices exactly 0 .. nodes - 1 |
| `MirrorLayout.RankZeroUploads` | src/axolotl/core/checkpoint_mirror.py:82-85 | with one host or a shared directory rank 0 alone uploads, the only share |
| `MirrorLayout.FirstRankOfHostUploads` | src/axolotl/core/checkpoint_mirror.py:86-91 | otherwise a rank uploads exactly when no smaller rank is on its host |
| `MirrorLayout.EveryHostUploadsOnce` | src/axolotl/core/checkpoint_mirror.py:86-91 | so every host has exactly one uploader, a rank of its own |
| `MirrorLayout.SameIndexIffSameHost` | src/axolotl/core/checkpoint_mirror.py:86-91 | two ranks have the same node index if and only if they are on the same host |
| `MirrorLayout.NodesAreHosts` | src/axolotl/core/checkpoint_mirror.py:86-91 | the number of nodes is the number of different hosts |
| `MirrorLayout.IndicesFollowRanks` | src/axolotl/core/checkpoint_mirror.py:86-91 | hosts are numbered in the order of their first ranks |
| `MirrorLayout.RanksAgreeOnNodes` | src/axolotl/core/checkpoint_mirror.py:78-91 | every rank computes the same number of nodes, and uploader indices are below it |
| `MirrorLayout.IndicesAreDistinct` | src/axolotl/core/checkpoint_mirror.py:86-91 | no two uploaders share an index |
| `MirrorLayout.FullCountMeansEveryNode` | src/axolotl/core/checkpoint_mirror.py:286-289 | the marker count reaches the number of nodes exactly when every node has marked |
| `MirrorTrim.TrimIs` | src/axolotl/core/checkpoint_mirror.py:164-172 | a rotation removes the oldest of the steps that are neither newest nor best |
| `MirrorTrim.TrimSparesNewestAndBest` | src/axolotl/core/checkpoint_mirror.py:166-170 | neither newest nor best is ever removed |
| `MirrorTrim.TrimTakesOldest` | src/axolotl/core/checkpoint_mirror.py:170-172 | whatever it leaves unprotected is newer than all it removes |
| `MirrorTrim.TrimLeaves` | src/axolotl/core/checkpoint_mirror.py:171-172 | it leaves min(count, max(keep, protected)) |
| `MirrorTrim.TrimIdempotent` | src/axolotl/core/checkpoint_mirror.py:164-172 | rotating again removes nothing |
| `MirrorTrim.StaleTrimIsPrefix` | src/axolotl/core/checkpoint_mirror.py:272-279 | from a listing that misses only newer checkpoints it removes the first of those a full listing removes |
| `MirrorTrim.TrimmedIsOld` | src/axolotl/core/checkpoint_mirror.py:164-172 | a removed checkpoint has at least max(1, keep - 1) newer ones |
| `MirrorSafety.StepInv` | src/axolotl/core/checkpoint_mirror.py:235-329 | every step of every node keeps the invariant |
| `MirrorSafety.PublishInv` | src/axolotl/core/checkpoint_mirror.py:286-317 | a full count of markers means every share is whole and no node is still copying there |
| `MirrorSafety.PublishedIsWhole` | src/axolotl/core/checkpoint_mirror.py:235-329 | in every run and interleaving, a checkpoint this run published and has not rotated holds every file of every node and nothing else |
| `MirrorProgress.StepInv2` | src/axolotl/core/checkpoint_mirror.py:264-329 | without I/O failures every step keeps what each worker still owes |
| `MirrorProgress.NoCompleteStepIsLost` | src/axolotl/core/checkpoint_mirror.py:264-284 | once a step is published, every smaller step all nodes marked has been published |
| `MirrorProgress.OnlyDeadStagingIsDropped` | src/axolotl/core/checkpoint_mirror.py:319-329 | staging that is dropped misses a marker, and no node will ever write to it again |
| `MirrorProgress.DrainedMeansPublished` | src/axolotl/core/checkpoint_mirror.py:342-351 | after a drain, every step that all nodes submitted and none failed or was refused has been published |
| `MirrorDrain.CanAlwaysDrain` | src/axolotl/core/checkpoint_mirror.py:342-351 | from every moment of a run all nodes can come to rest without a further failure: no worker ever waits for another |
| `MirrorDrain.CanAlwaysPublish` | src/axolotl/core/checkpoint_mirror.py:342-351 | so a step that all nodes submitted and none failed can always still be published |
| `MirrorSettle.AcceptedStepIsMarked` | src/axolotl/core/checkpoint_mirror.py:210-262 | a step that was accepted, at first or on the retry, is marked when its node has come to rest, unless copying it failed |
| `MirrorSettle.SettlePublishes` | src/axolotl/core/checkpoint_mirror.py:264-271 | also after failures: a settle that does not fail itself publishes all that was complete when it began, unless a sweep drops it first |
| `MirrorSettle.RotationLists` | src/axolotl/core/checkpoint_mirror.py:272-276 | which checkpoints a rotation removes: none without `keep`, otherwise the oldest but newest and best, as many as exceed it |
| `MirrorSettle.RotationRemovesVictims` | src/axolotl/core/checkpoint_mirror.py:277-278 | at the end of a rotation they are gone, but for one published anew meanwhile |
| `MirrorSettle.SweepLists` | src/axolotl/core/checkpoint_mirror.py:320-328 | a sweep lists all staging older than the newest checkpoint |
| `MirrorSettle.SweepRemovesDead` | src/axolotl/core/checkpoint_mirror.py:326-329 | and at its end all of it is gone, for good |
| `MirrorRotation.NewestIsNeverRotatedAway` | src/axolotl/core/checkpoint_mirror.py:272-279 | whatever stale listings nodes rotate by, the newest checkpoint ever stays, and a vanished one has at least max(1, keep - 1) newer ones |
| `PublisherProofs.StepInv` | src/axolotl/core/checkpoint_publisher.py:111-159 | every step of producer and worker keeps the invariant |
| `PublisherProofs.PublicationOrder` | src/axolotl/core/checkpoint_publisher.py:118-147 | publications run in submission order without gaps, and none after a task that failed or was cancelled |
| `PublisherProofs.FailureIsRaisedForever` | src/axolotl/core/checkpoint_publisher.py:111-116 | once a check has raised a failure, every later check raises it and nothing more is submitted |
| `PublisherOutcomes.OutcomeIsKept` | src/axolotl/core/checkpoint_publisher.py:141-147 | what `publish` did is what its future records, from then on |
| `PublisherOutcomes.FailureStopsPublishing` | src/axolotl/core/checkpoint_publisher.py:111-147 | once `publish` has raised, its future is never a success, nothing after it is published or popped, and when it is at the head a check can only raise |
| `PublisherOutcomes.OutcomeHasCause` | src/axolotl/core/checkpoint_publisher.py:141-147 | a future succeeds only after its `publish` returned, and fails only after it raised or the previous future did not succeed |
| `PublisherOutcomes.CancelHasCause` | src/axolotl/core/checkpoint_publisher.py:155-159 | a future is cancelled only while queued, by a `close` that cancels |
| `PublisherProofs.DirectoriesAreConserved` | src/axolotl/core/checkpoint_publisher.py:118-159 | every retained directory still exists or has been removed, exactly once |
| `PublisherProofs.NoneLeftAfterClose` | src/axolotl/core/checkpoint_publisher.py:155-159 | after `close`, cancelling or not, every one has been removed |
| `PublisherProofs.ExistingIsBounded` | src/axolotl/core/checkpoint_publisher.py:118-129 | with `max_pending` no more than that many exist at any moment |
| `PublisherProofs.WorkerCanMove` | src/axolotl/core/checkpoint_publisher.py:141-147 | as long as a task is unfinished the worker has a step: waiting for the previous future never locks up |
| `PublisherThread.WorkGoesDown` | src/axolotl/core/checkpoint_publisher.py:141-147 | each such step leaves less to do, and changes nothing of the producer or of finished futures |
| `PublisherThread.BackgroundCheckpointPublisher.Check` | src/axolotl/core/checkpoint_publisher.py:111-116 | pops futures that succeeded and raises the first failure; otherwise the oldest one left was not done |
| `PublisherThread.BackgroundCheckpointPublisher.MakeRoom` | src/axolotl/core/checkpoint_publisher.py:122-129 | waiting for room ends: with room, with the failure raised, or refused when it may not block |
| `PublisherThread.BackgroundCheckpointPublisher.Submit` | src/axolotl/core/checkpoint_publisher.py:118-139 | every way a submission ends, as a run of the state machine; an accepted one is in the deque with its own directory and within the bound |
| `PublisherThread.BackgroundCheckpointPublisher.Wait` | src/axolotl/core/checkpoint_publisher.py:149-153 | returns with every future popped, or raises the failure at the head |
| `PublisherThread.BackgroundCheckpointPublisher.Close` | src/axolotl/core/checkpoint_publisher.py:155-159 | returns with every task ended and no directory left |
| `ImpactGraph.Selector.OwnEdges` | cicd/select_e2e_tests.py:610-616 | the memo never changes the answer |
| `ImpactGraph.Selector.ImpactOfSource` | cicd/select_e2e_tests.py:667-698 | on every graph, cyclic ones too, and in every order of visiting: the union of the tests of all modules with edges that climbing reaches, or the whole scope exactly when one of them demands it or none is reached |
| `ImpactGraph.OwnEdgesDecide` | cicd/select_e2e_tests.py:673-675 | a module with edges of its own is explained by itself alone |
| `ImpactGraph.ImpactByPaths` | cicd/select_e2e_tests.py:667-698 | said by climbs through importers: the tests of every module with edges at the end of one, and the whole scope exactly when one of them demands it or there is none |
| `ImpactGraph.CycleExample` | cicd/select_e2e_tests.py:676-695 | two modules that import each other, and what a change to one selects |
| `Reachability.ClosedHasAll` | cicd/select_e2e_tests.py:676-695 | a set that holds the successors of its members holds all that can be reached |
| `Selection.Select` | cicd/select_e2e_tests.py:816-899 | the decision for every request is the one the files of the diff define one by one |
| `Selection.ForcedByParts` | cicd/select_e2e_tests.py:836-889 | the whole scope runs exactly when some changed or deleted file, on its own, forces it |
| `SelectionByFile.RunAllPatternForces` | cicd/select_e2e_tests.py:834-836 | a changed or deleted file under a run-all pattern forces the whole scope |
| `SelectionByFile.DependenciesSelect` | cicd/select_e2e_tests.py:837-846 | changed dependencies select what they are taken to affect |
| `SelectionByFile.TestSelectsItself` | cicd/select_e2e_tests.py:857-861 | a changed test in scope selects itself |
| `SelectionByFile.TestSupportSelects` | cicd/select_e2e_tests.py:862-870 | a test out of scope selects nothing, a helper the tests that use it, any other file under `tests/` forces |
| `SelectionByFile.SourceModuleSelects` | cicd/select_e2e_tests.py:871-878 | a changed source module selects the tests its climb explains, or forces when that demands the whole scope |
| `SelectionByFile.OtherFileSelects` | cicd/select_e2e_tests.py:879-881 | any other file selects nothing when inert and forces when not |
| `SelectionByFile.DeletedFileSelects` | cicd/select_e2e_tests.py:847-855 | which deleted files force the whole scope; the others select nothing |
| `SelectionByFile.ForcedRequests` | cicd/select_e2e_tests.py:816-835 | no base, a failed diff or a commit message force the whole scope |
| `SelectionByFile.EmptyDiffSelectsNothing` | cicd/select_e2e_tests.py:884-889 | an empty diff selects nothing |
| `SelectionByFile.DiffSelectsByFile` | cicd/select_e2e_tests.py:836-899 | a diff selects a test exactly when one of its files does by itself |
| `Selection.ModeMeansWhatItSays` | cicd/select_e2e_tests.py:884-899 | nothing, a proper part, or all of the scope, as the mode says |
| `Selection.SelectionIsUnion` | cicd/select_e2e_tests.py:836-899 | the tests of two diffs together are the tests of the one and of the other |
| `Selection.LargerDiffsDropNothing` | cicd/select_e2e_tests.py:836-899 | enlarging a diff never drops a test |
| `CauseGraph.Causes` | src/axolotl/core/checkpoint_retry.py:58-71 | every exception reachable through causes, contexts, groups and failures, exactly once, on cyclic graphs too |
| `CauseGraph.IsDiskError` | src/axolotl/core/checkpoint_retry.py:74-86 | true exactly when a reachable one is a disk error |
| `CauseGraph.WrappedIs` | src/axolotl/core/checkpoint_retry.py:67-71 | an exception wraps its cause, its context, the members of its group and its recorded failures, and nothing else |
| `DiskRetry.WriterThread.Retry` | src/axolotl/core/checkpoint_retry.py:113-143 | for any nesting of writers: the outcome, the runs and the pauses are those of the specification, and the counter is restored |
| `DiskRetry.OutermostIsBounded` | src/axolotl/core/checkpoint_retry.py:113-143 | an outermost call runs its body at most `retries` + 1 times and sleeps once between runs; nested writers run once per run around them and never sleep |
| `DiskRetry.OutermostIsPaced` | src/axolotl/core/checkpoint_retry.py:113-143 | it begins with the body, every sleep lasts what the policy says and is followed by another run of the body |
| `DiskRetry.OutcomeIsLast` | src/axolotl/core/checkpoint_retry.py:128-135 | every earlier attempt ended in a disk error, of a collective writer in a `CheckpointException` too, and a failure comes out only when it may not be retried |
| `DiskRetry.MoreRetriesNeverHurt` | src/axolotl/core/checkpoint_retry.py:128-135 | with more retries a call that returned returns after the same runs |
| `PeakMemory.AnalyzePeakMemory` | scripts/analyze_profile.py:975-1026 | peak, its event, the end and the categories are those the trace defines; nothing for an empty trace |
| `PeakMemory.ReportIsUnique` | scripts/analyze_profile.py:975-1026 | a trace has one such report |
| `PeakMemory.BytesStep` | scripts/analyze_profile.py:996-1008 | after every event the running total is the live bytes plus those of blocks allocated over |
| `PeakMemory.LiveMeansAllocated` | scripts/analyze_profile.py:996-1008 | a block is live exactly when it was allocated and nothing happened at its address since |
| `PeakMemory.Categorize` | scripts/analyze_profile.py:1010-1018 | bytes and count of each category are those of its live blocks, and the bytes add up to all of them |
| `PeakMemory.ReportIsExactIff` | scripts/analyze_profile.py:986-1026 | the end is the live sum, and the categories add up to the peak, exactly when no live block of positive size is allocated over |
| `PeakMemory.PeakIsLargestLiveSumIff` | scripts/analyze_profile.py:986-1008 | the peak is the largest live sum over all prefixes, and its event the first to reach it, if and only if nothing live was allocated over before it; otherwise it is more than was ever live |

## Left out

- The publisher's worker and the mirror's nodes are steps of a state machine on values, so that
  they can interleave; the mirror's fields (`failed`, the file system) are parts of that state
  and not updated in place.
- Splitting `_finalize`: between taking the lock and the rename a peer that publishes a later
  step may remove the staging, and crashes between the two renames lose the set-aside copy until
  a later run; `.replaced-*` directories and `clear_other_attempts` are not modelled.
- Locks, host names, attempts, temporary names, hard links and file contents: a file is its path
  and the node that wrote it.
- Failures of `rmtree`, of making a staging directory, and of starting the worker thread after a
  task was queued.
- `rotate_local`, `finish` and the final outputs: plain loops over `_trim` and `copy_tree`.
- `retain_checkpoint`: a retained directory is a number.
- Reason strings, explanations and logging everywhere.
- `_compute_own_edges`, registries, `impact_of_pyproject`, `build` and git: reading trees.
- `process_labels` and the masks of single model families: wrappers around the two scanners.
- Tensors, devices and integer widths: rows are sequences of integers.
- Floating point in `image_token_grid`: the ratio is an exact quotient, so a size at which the
  rounded product of floats differs from it is not captured.
- `EosTrimmer.EosTextTrimmer.Feed`: the `emit` callback is a log of what was emitted.
- What cropping a cache by more than it holds does: it is taken to raise. It can only be asked
  for after a callback error that broke agreement; the cache library is not part of this model.
- Threads inside `generate_turn`, the streamer, the terminal display and `/` commands.
- `DiskRetry.WriterThread.Retry`: the policy stack of a thread is constant during a call, and
  sleeping is an entry in a log.
- `CauseGraph.IsDiskError`: the whole list of causes is computed before it is looked through,
  while the code stops at the first disk error.
- `PeakMemory.AnalyzePeakMemory`: sizes are not negative, and classifying a stack is an input.
