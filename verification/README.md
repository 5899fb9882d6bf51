# Verified models of the card retrieval server

This Dafny project models the offline, deterministic core of a card-document retrieval server and
proves what that core promises: the crash-safe map-reduce job lane with its corpus packer, hierarchical
reducer and reload verifier; exact scoring with the resumable exhaustive audit; captured score
matrices and nDCG; compact clause groups and sealed pages; `as_of` revision selection; the OCR page
format; and the metadata cache.

`dafny verify dfyconfig.toml` checks everything.

## How the program is modelled

- A digest (SHA-256 of canonical bytes) is modelled by the value it is computed from, that is, as an
  injective function. A marker that names a content-addressed artifact holds that artifact.
- A durable file is a field; replacing it or publishing it with a hard link is one atomic step.
  Reads are stable.
- Scores, discounts and sums are reals; a dot product is a function of its row and the query vector.
- Provider answers, embeddings and file contents are arbitrary values of the right shape.
- Prompt lengths are computed character by character from the same frames and digits as the prompt
  builders; only the fixed texts are replaced by their lengths.
- Loops over Python sets choose their elements in an arbitrary order.

| modules | subject |
|---|---|
| `Text`, `Evidence` | characters, serialized sizes, values of the map-reduce lane |
| `Reduction`, `ReductionBounds`, `ReductionLoops` | hierarchical reduce: replay, bounds, loops |
| `Selection`, `Ledger`, `LedgerProofs`, `VerifierProofs` | exact quotes, job ledger, reload checks |
| `Lane`, `LaneProofs`, `LaneTheorems` | the job protocol over every interleaving |
| `Packing`, `Corpus`, `CorpusProofs` | map units that cover each page once |
| `ClauseGroup`, `Merging`, `Bundles`, `Sealing` | compact responses |
| `Descending`, `Weights`, `Ndcg`, `Aggregation` | rankings and document scores |
| `Scoring`, `Audit`, `AuditRuns`, `ScoreStream` | exact and exhaustive scoring |
| `Capture`, `CaptureRuns`, `ScoreArtifact` | captured score matrices, and their file operations one by one |
| `AsOf`, `AsOfProofs` | revision selection at a date |
| `OcrPages`, `OcrNormalization` | canonical OCR text |
| `MetadataCache` | the bounded LRU cache |

Some natural claims fail for some inputs; for each the exact condition is proved.

- A lineage can vanish from an `as_of` selection: `AsOfProofs.CycleLosesLineage` gives the input, and
  `AsOfProofs.MissingIffCyclic` the condition. Tables that pass the database check never meet it
  (`AsOfProofs.ValidTableCovered`).
- A capture that is killed cannot always be resumed. It is resumed exactly when its directory holds
  no leftover temporary (the restart refuses one at
  `apps/cardrag-mcp/src/cardrag_mcp/aggregation_capture.py:1023`, and nothing removes it) and no query has
  only a part of its three files: `CaptureRuns.ResumedIff` for every history, and
  `CaptureRuns.InterruptedCapture` for a death at each file operation of a query.
  `CaptureRuns.KilledWhileScoring` is a run that leaves no file of the query and is refused.
- `_normalize_ocr` as a function refuses a payload with the generated OCR prefix when no page is
  expected, although its rest is canonical: `OcrNormalization.NoPageExpected`, and the condition in
  `OcrNormalization.AcceptedPayloads`. The exporter never gets there: the validated page count it
  passes (`tools/legacy_data_kit_adoption_v2.py:992`, `:1031-1034`) is positive.

## Model

| member | source | states |
|---|---|---|
| `ReductionLoops.DeduplicatedSpans` | apps/cardrag-mcp/src/cardrag_mcp/experimental_map_reduce.py:1267-1273 | the de-duplicating loop keeps the first occurrence of every span, in order |
| `ReductionLoops.PartitionReduceSpans` | apps/cardrag-mcp/src/cardrag_mcp/experimental_map_reduce.py:1276-1302 | the loop refuses exactly the lists with a span of which two would not fit a prompt, and otherwise yields the greedy partition |
| `Reduction.PartitionFlattens` | apps/cardrag-mcp/src/cardrag_mcp/experimental_map_reduce.py:1276-1302 | concatenating the batches gives the spans back: none lost, repeated or reordered |
| `Reduction.PartitionFits` | apps/cardrag-mcp/src/cardrag_mcp/experimental_map_reduce.py:1276-1302 | every batch, serialized and joined, fits the room of one reduce prompt |
| `Reduction.PartitionPairs` | apps/cardrag-mcp/src/cardrag_mcp/experimental_map_reduce.py:1255-1302 | every batch but the last holds at least two spans |
| `Reduction.GreedyUnique` | apps/cardrag-mcp/src/cardrag_mcp/experimental_map_reduce.py:1276-1302 | the partition is the only one whose batches fit and are full, so it could not be coarser from the left |
| `ReductionLoops.ComputeReductionState` | apps/cardrag-mcp/src/cardrag_mcp/experimental_map_reduce.py:1323-1407 | the nested round and batch loops, with one running offset into the checkpoints, compute the recursive replay of the hierarchical reduction |
| `ReductionBounds.RoundHalves` | apps/cardrag-mcp/src/cardrag_mcp/experimental_map_reduce.py:1363-1391 | a finished non-final round leaves a subset of its frontier, at most half of it rounded up, and strictly fewer spans |
| `ReductionBounds.LevelsAre` | apps/cardrag-mcp/src/cardrag_mcp/experimental_map_reduce.py:1363-1407 | the rounds that n spans can still cause are the binary logarithm of n: between 2^k and 2^(k+1) spans have k levels |
| `ReductionBounds.LargestFrontierLevels` | apps/cardrag-mcp/src/cardrag_mcp/experimental_map_reduce.py:53-64 | 64 spans from each of 100,000 units take 22 halvings, so 23 rounds suffice against the limit of 32 |
| `ReductionBounds.WalkNeverOverruns` | apps/cardrag-mcp/src/cardrag_mcp/experimental_map_reduce.py:1323-1407 | whatever checkpoints are recorded, the errors for the round bound, a round that did not shrink and an inadmissible span cannot occur |
| `ReductionBounds.WalkCounts` | apps/cardrag-mcp/src/cardrag_mcp/experimental_map_reduce.py:1323-1407 | a reduction of n spans that is pending or finished has at most 2n - 1 batches, within its levels |
| `ReductionBounds.WalkSnoc` | apps/cardrag-mcp/src/cardrag_mcp/experimental_map_reduce.py:2408-2455 | committing an answer to the pending batch never makes the replay fail |
| `ReductionBounds.WalkCoordinates` | apps/cardrag-mcp/src/cardrag_mcp/experimental_map_reduce.py:1344-1371 | the pending batch follows the last checkpoint in round and batch number, and is part of the frontier |
| `Selection.ValidateSelects` | apps/cardrag-mcp/src/cardrag_mcp/experimental_map_reduce.py:1853-1904 | accepted spans are exactly the proposals that quote the page at their offsets, inside the unit and its contract, and fit the reducer, once each; accepted plus rejected equals proposed |
| `Selection.ComputeValidatedSpans` | apps/cardrag-mcp/src/cardrag_mcp/experimental_map_reduce.py:1853-1904 | the proposal loop with its set of seen spans computes that selection and the rejection count |
| `Selection.SelectKeeps` | apps/cardrag-mcp/src/cardrag_mcp/experimental_map_reduce.py:1960-2008 | a reduce answer keeps batch spans unchanged, once each and within its limit; a named batch span is dropped only when the limit is reached; kept plus rejected equals proposed |
| `Selection.ComputeSelectedSpans` | apps/cardrag-mcp/src/cardrag_mcp/experimental_map_reduce.py:1960-2008 | the candidate loop computes that subset with half the batch as limit, or 64 for the final batch |
| `LedgerProofs.MappedSpansSound` | apps/cardrag-mcp/src/cardrag_mcp/experimental_map_reduce.py:1933-1957 | every mapped span is page text of the unit whose result holds it |
| `LedgerProofs.FrontierBounds` | apps/cardrag-mcp/src/cardrag_mcp/experimental_map_reduce.py:1255-1302 | the frontier of any job fits the partition and needs at most 23 rounds |
| `LedgerProofs.PendingFacts` | apps/cardrag-mcp/src/cardrag_mcp/experimental_map_reduce.py:1323-1407 | a pending batch has distinct mapped spans, fits, and stays below round 23 and the batch limit |
| `LedgerProofs.CommitKeepsState` | apps/cardrag-mcp/src/cardrag_mcp/experimental_map_reduce.py:2408-2455 | the receipt of the pending batch always yields a checkpoint the reduction accepts |
| `LedgerProofs.ReducePromptFits` | apps/cardrag-mcp/src/cardrag_mcp/experimental_map_reduce.py:1232-1302 | every reduce prompt built from a partition batch fits the sealed input limit |
| `LedgerProofs.NextCallSound` | apps/cardrag-mcp/src/cardrag_mcp/experimental_map_reduce.py:3618-3659 | choosing the next call never fails for replayed results; the call has the next sequence number and a prompt within the limit |
| `LedgerProofs.BeginConsistent` | apps/cardrag-mcp/src/cardrag_mcp/experimental_map_reduce.py:2048-2086 | a new ledger is consistent |
| `LedgerProofs.ReserveConsistent` | apps/cardrag-mcp/src/cardrag_mcp/experimental_map_reduce.py:2285-2326 | a reservation within budget keeps the ledger a replay of its receipts with exact counters |
| `LedgerProofs.CommitConsistent` | apps/cardrag-mcp/src/cardrag_mcp/experimental_map_reduce.py:2368-2455 | committing the receipt of the reservation always succeeds, appends exactly that receipt, and keeps the counters the sums of the receipts |
| `VerifierProofs.ConsistentValid` | apps/cardrag-mcp/src/cardrag_mcp/experimental_map_reduce.py:411-537 | every ledger the writers produce passes the ledger validator |
| `VerifierProofs.ConsistentVerifies` | apps/cardrag-mcp/src/cardrag_mcp/experimental_map_reduce.py:2537-2836 | every ledger the writers produce passes both reload checks against the same snapshot |
| `VerifierProofs.VerifiedConsistent` | apps/cardrag-mcp/src/cardrag_mcp/experimental_map_reduce.py:2537-2836 | a ledger that passes the validator and the reload checks is consistent, with its receipt files |
| `VerifierProofs.AcceptedIffReplay` | apps/cardrag-mcp/src/cardrag_mcp/experimental_map_reduce.py:2537-2836 | a reload accepts a ledger and its files if and only if the ledger is the replay of its ordered receipts plus at most one reservation, and the files are those receipts plus at most the reservation's answer |
| `LaneProofs.StepInvariant` | apps/cardrag-mcp/src/cardrag_mcp/experimental_map_reduce.py:3369-3593 | every event of every process, failures and deaths included, keeps the protocol invariant |
| `LaneTheorems.RunInvariant` | apps/cardrag-mcp/src/cardrag_mcp/experimental_map_reduce.py:3369-3807 | the invariant holds along every interleaving |
| `LaneTheorems.AtMostOnceCalls` | apps/cardrag-mcp/src/cardrag_mcp/experimental_map_reduce.py:3662-3807 | in every run no sequence number reaches the provider twice, and the durable call counter is never below the number of real calls |
| `LaneTheorems.ExclusiveEnds` | apps/cardrag-mcp/src/cardrag_mcp/experimental_map_reduce.py:2457-2530 | COMPLETE and CANCELLED never coexist, and published progress without a marker implies that the generation root is held |
| `LaneTheorems.StepKeepsEnd` | apps/cardrag-mcp/src/cardrag_mcp/experimental_map_reduce.py:3495-3593 | no event on an ended job changes anything durable but the root |
| `LaneTheorems.EndIsStable` | apps/cardrag-mcp/src/cardrag_mcp/experimental_map_reduce.py:2457-2530 | after a terminal marker no continuation changes the ledger, the receipts, the markers or the provider calls |
| `LaneTheorems.EndedLedgerVerifies` | apps/cardrag-mcp/src/cardrag_mcp/experimental_map_reduce.py:2088-2155 | the artifact behind a terminal marker passes validation and the receipt check when inspected again |
| `LaneTheorems.PublishedIsCommittedNext` | apps/cardrag-mcp/src/cardrag_mcp/experimental_map_reduce.py:3741-3807 | after a receipt is published, the next change of the ledger commits exactly that receipt, and no provider call happens before |
| `LaneTheorems.PollRecovers` | apps/cardrag-mcp/src/cardrag_mcp/experimental_map_reduce.py:3741-3764 | with the lease free, one poll commits a published receipt without calling the provider |
| `LaneTheorems.BudgetsConserved` | apps/cardrag-mcp/src/cardrag_mcp/experimental_map_reduce.py:466-488 | in every reachable state output tokens are calls times the sealed cap, input characters are the sum of receipts and reservation, and no budget is exceeded |
| `LaneTheorems.MapPhaseAffordable` | apps/cardrag-mcp/src/cardrag_mcp/experimental_map_reduce.py:3606-3616 | a job admitted by the minimum-budget check cannot run out of budget while mapping |
| `LaneTheorems.EvidenceSound` | apps/cardrag-mcp/src/cardrag_mcp/experimental_map_reduce.py:1853-2008 | every span of a completed job, after any number of rounds, stands in a map result, and is the page text at its offsets inside a source range of the unit of that very result |
| `LaneTheorems.SpansConserved` | apps/cardrag-mcp/src/cardrag_mcp/experimental_map_reduce.py:513-534 | in every run accepted plus rejected spans of each result equal the proposed spans |
| `Packing.FragmentFitsMonotone` | apps/cardrag-mcp/src/cardrag_mcp/experimental_map_reduce.py:1631-1662 | a shorter fragment of a range that fits also fits, digits of its offsets included |
| `Packing.LargestFit` | apps/cardrag-mcp/src/cardrag_mcp/experimental_map_reduce.py:1675-1685 | the binary search finds the largest end whose fragment fits, or none |
| `Packing.BisectRight` | apps/cardrag-mcp/src/cardrag_mcp/experimental_map_reduce.py:1690-1695 | the number of paragraph ends up to a position |
| `Packing.SlicesCover` | apps/cardrag-mcp/src/cardrag_mcp/experimental_map_reduce.py:1673-1702 | consecutive fragments cover each position of their leaf exactly as often as the leaf does |
| `Packing.CuttingUnique` | apps/cardrag-mcp/src/cardrag_mcp/experimental_map_reduce.py:1664-1702 | there is only one way to cut a leaf that fits, tiles and prefers paragraph ends |
| `Packing.BoundedFragments` | apps/cardrag-mcp/src/cardrag_mcp/experimental_map_reduce.py:1664-1702 | the fragments of an oversized leaf tile it, each fits alone, and each ends at the last paragraph end that fits or else at the largest fitting end; failure means no such cut exists within the cap |
| `Packing.ExpandSources` | apps/cardrag-mcp/src/cardrag_mcp/experimental_map_reduce.py:1664-1712 | all leaves are cut in order, in the one way there is, keeping coverage and order; failure means one of them cannot be cut |
| `Packing.PackFragments` | apps/cardrag-mcp/src/cardrag_mcp/experimental_map_reduce.py:1705-1721 | the result is the only packing that concatenates to the fragments, fits its prompts, is full from the left and within the caps; failure means there is none, and names the cap |
| `Corpus.NearestMajorSection` | apps/cardrag-mcp/src/cardrag_mcp/experimental_map_reduce.py:1494-1511 | the walk follows the parent path of the node to the first major section, to the top without one, to a lost parent, or back to a node it has visited, and returns that outcome |
| `Corpus.NearestMeans` | apps/cardrag-mcp/src/cardrag_mcp/experimental_map_reduce.py:1494-1511 | from any point of the walk, the result is given by where the parent path ends |
| `Corpus.GroupRows` | apps/cardrag-mcp/src/cardrag_mcp/experimental_map_reduce.py:1543-1565 | grouping fails exactly on a bad range or a node without a proper parent path; otherwise it covers each position as often as the canonical spans do, in start order |
| `Corpus.CheckPage` | apps/cardrag-mcp/src/cardrag_mcp/experimental_map_reduce.py:1566-1575 | the cursor loop accepts exactly the pages whose ranges do not overlap and reach every character that is not white space |
| `Corpus.CheckPages` | apps/cardrag-mcp/src/cardrag_mcp/experimental_map_reduce.py:1566-1575 | the page loop accepts exactly the contracts all of whose pages are covered in that way |
| `Corpus.SectionSources` | apps/cardrag-mcp/src/cardrag_mcp/experimental_map_reduce.py:1514-1600 | sections are accepted exactly when the spans are valid, placed, disjoint and reach all visible text; they then cover each position at most once and each visible character exactly once |
| `Corpus.PackSection` | apps/cardrag-mcp/src/cardrag_mcp/experimental_map_reduce.py:1603-1721 | the one way to cut and pack a section is found, and failure means there is none; the units cover the same positions as the sources and fit the prompt limit |
| `Corpus.SplitSections` | apps/cardrag-mcp/src/cardrag_mcp/experimental_map_reduce.py:1745-1810 | the sections are packed one behind the other within the unit cap in the one way there is, or there is none |
| `Corpus.BuildContract` | apps/cardrag-mcp/src/cardrag_mcp/experimental_map_reduce.py:1745-1810 | a contract has units exactly when it has text on few enough pages and room, and fits whole or by section; they hold every visible character exactly once, as literal page text, within the prompt limit |
| `Corpus.BuildCorpus` | apps/cardrag-mcp/src/cardrag_mcp/experimental_map_reduce.py:1724-1828 | the plan does this for every active contract, in order, within the unit cap; it is the only such plan, and failure means there is none |
| `CorpusProofs.ContractUnitsDistinct` | apps/cardrag-mcp/src/cardrag_mcp/experimental_map_reduce.py:238-247 | single coverage makes the units of a contract, and so their ids, distinct |
| `CorpusProofs.PlanDistinct` | apps/cardrag-mcp/src/cardrag_mcp/experimental_map_reduce.py:1813-1828 | no two units of the plan are equal |
| `CorpusProofs.PlanGivesConfig` | apps/cardrag-mcp/src/cardrag_mcp/experimental_map_reduce.py:1724-1828 | a built plan, a valid profile and an admissible query satisfy everything the job protocol relies on |
| `ClauseGroup.GroupUnique` | apps/cardrag-mcp/src/cardrag_mcp/compact.py:70-81 | there is only one least closed pair, so the order in which links are visited does not matter |
| `ClauseGroup.AnchorCarries` | apps/cardrag-mcp/src/cardrag_mcp/compact.py:45-81 | once its anchor is substantive, a node and all its headings are selected: testing `substantive` alone for stability suffices |
| `ClauseGroup.Climb` | apps/cardrag-mcp/src/cardrag_mcp/compact.py:48-58 | the ancestor walk adds the least set closed under parents and finds the nearest item and table |
| `ClauseGroup.Descend` | apps/cardrag-mcp/src/cardrag_mcp/compact.py:59-66 | the worklist adds the least set closed under children, whatever the order of children |
| `ClauseGroup.Add` | apps/cardrag-mcp/src/cardrag_mcp/compact.py:45-66 | adding a node gives the least shaped pair above the given one, and grows `selected` only with `substantive` |
| `ClauseGroup.Pass` | apps/cardrag-mcp/src/cardrag_mcp/compact.py:72-79 | a pass over the links in any order that leaves `substantive` unchanged has reached the least closed pair |
| `ClauseGroup.Saturate` | apps/cardrag-mcp/src/cardrag_mcp/compact.py:68-81 | the loop ends with the least pair closed under the subtree, ancestor, APPLIES_TO, FOOTNOTE_OF and CONTINUATION_OF rules |
| `ClauseGroup.ClauseGroupOf` | apps/cardrag-mcp/src/cardrag_mcp/compact.py:26-94 | the result is the nodes of that pair in document order with the links among them, no link dangles, and headings or missing seeds give nothing |
| `ClauseGroup.RestrictNoDangling` | apps/cardrag-mcp/src/cardrag_mcp/compact.py:82-94 | restricting nodes and links to selected ids leaves no link that leads out |
| `ClauseGroup.GroupOrigins` | apps/cardrag-mcp/src/cardrag_mcp/compact.py:26-81 | nothing unrelated enters: every substantive node lies in a subtree anchored at the seed or a linked node, every other member is a heading above one |
| `Merging.BothLinksMembers` | apps/cardrag-mcp/src/cardrag_mcp/compact.py:108-121 | merged links are the sorted union of both sides |
| `Merging.MergeNodesFacts` | apps/cardrag-mcp/src/cardrag_mcp/compact.py:104-125 | merged nodes are exactly those of both sides, with the links of both, sorted by ordinal and id |
| `Merging.MergeBundle` | apps/cardrag-mcp/src/cardrag_mcp/compact.py:104-143 | a merged bundle keeps unique ids, no dangling link and every match among its nodes, so the lookups cannot fail |
| `Merging.NoticeIdsMean` | apps/cardrag-mcp/src/cardrag_mcp/compact.py:126-133 | counted notices are exactly the notice and mixed nodes at either end of an APPLIES_TO link |
| `Bundles.Merge` | apps/cardrag-mcp/src/cardrag_mcp/compact.py:97-145 | the loop replaces the bundle of the same contract or appends the group |
| `Bundles.MergedShowsAll` | apps/cardrag-mcp/src/cardrag_mcp/compact.py:97-145 | merging loses no node, link or match |
| `Bundles.MergedShowsOnly` | apps/cardrag-mcp/src/cardrag_mcp/compact.py:97-145 | merging shows nothing that neither side had |
| `Sealing.ThreePasses` | apps/cardrag-mcp/src/cardrag_mcp/compact.py:209-220 | for every base size three passes reach a size that counts its own digits |
| `Sealing.RecordSize` | apps/cardrag-mcp/src/cardrag_mcp/compact.py:209-220 | after the six passes `response_bytes` equals the encoded size |
| `Sealing.Seal` | apps/cardrag-mcp/src/cardrag_mcp/compact.py:148-241 | groups are admitted greedily and whole, the counts, reasons and sample say exactly what was left out, the recorded size is the encoded size; it is refused as too large exactly when the final page exceeds the limit; a negative count cannot arise when every contract was ranked |
| `Sealing.AllOrNothing` | apps/cardrag-mcp/src/cardrag_mcp/compact.py:230-238 | the page holds every node, link and match of every admitted group under its contract, with its content wherever the groups agree on it, and nothing that no admitted group had |
| `Sealing.NothingVanishes` | apps/cardrag-mcp/src/cardrag_mcp/compact.py:230-238 | each group is admitted or listed as omitted, and admitted plus omitted equals offered |
| `Sealing.ReserveCoversSample` | apps/cardrag-mcp/src/cardrag_mcp/compact.py:225-232 | the eight reserved keys are together at least as long as the keys of the final omission sample |
| `Scoring.ScoreRows` | apps/cardrag-mcp/src/cardrag_mcp/exact.py:992-1027 | scoring in blocks of 512 fills the same dictionary as row by row, with the number of blocks rounded up |
| `Scoring.ContractAlone` | apps/cardrag-mcp/src/cardrag_mcp/exact.py:1134-1142 | scoring the rows of one contract alone gives its part of the dictionary of all rows |
| `Scoring.ScoreContract` | apps/cardrag-mcp/src/cardrag_mcp/exact.py:1183-1216 | scoring one contract gives the node and contract scores of one pass over all rows |
| `Scoring.NoRowLost` | apps/cardrag-mcp/src/cardrag_mcp/exact.py:1017-1026 | with one row for a contract, node and lane, every row has its view |
| `Scoring.ScoredWhenUnique` | apps/cardrag-mcp/src/cardrag_mcp/audit.py:112-135 | with unique rows a contract is scored unless it has no rows or its aggregation is refused |
| `Scoring.BestOfEveryLane` | apps/cardrag-mcp/src/cardrag_mcp/exact.py:1003-1026 | the dictionary has one entry for every node with a row and one view for each of its lanes: the row of that lane with the highest score |
| `Scoring.MatchedMeans` | apps/cardrag-mcp/src/cardrag_mcp/exact.py:1036-1048 | matched lanes are exactly those whose score is close to the best of the node |
| `Audit.AuditStore.Begin` | apps/cardrag-mcp/src/cardrag_mcp/audit.py:379-446 | a begun job keeps a vector that was already published |
| `Audit.AuditStore.Poll` | apps/cardrag-mcp/src/cardrag_mcp/exact.py:1123-1236 | a poll adds the next eight contracts or the rest, checkpoints each, never changes the vector, and completes exactly when none is left |
| `Audit.PollToCompletion` | apps/cardrag-mcp/src/cardrag_mcp/exact.py:1123-1236 | polling to completion gives every expected contract, in order, the scores of one pass with one vector |
| `AuditRuns.StepInvariant` | apps/cardrag-mcp/src/cardrag_mcp/audit.py:331-502 | every file operation of every process keeps each ledger an ordered prefix of one-pass scores for the published vector |
| `AuditRuns.RunInvariant` | apps/cardrag-mcp/src/cardrag_mcp/audit.py:149-188 | in every interleaving without a lock each ledger on disk, in a process or returned is such a prefix |
| `AuditRuns.CompletedIsOnePass` | apps/cardrag-mcp/src/cardrag_mcp/audit.py:470-502 | a completed job holds the one-pass score of every contract, and no later run changes the result or the vector |
| `AuditRuns.FinishersAgree` | apps/cardrag-mcp/src/cardrag_mcp/audit.py:470-502 | a second process that finishes the job finds its own result already published |
| `AuditRuns.ReturnedIsPrefix` | apps/cardrag-mcp/src/cardrag_mcp/exact.py:1218-1236 | a partial result returned to a poller is a prefix of the completed one |
| `ScoreStream.JoinRows` | apps/cardrag-mcp/src/cardrag_mcp/exact.py:932-979 | the merge join succeeds exactly when the database knows every active row with the same metadata, and yields each once in row order |
| `Aggregation.KeepThree` | apps/cardrag-mcp/src/cardrag_mcp/aggregation_profile.py:251-259 | three kept child scores suffice to know the three best after one more row |
| `Aggregation.ContractAccumulator.Add` | apps/cardrag-mcp/src/cardrag_mcp/aggregation_profile.py:251-259 | adding a row fails exactly on a second contract row and keeps the three best child scores |
| `Aggregation.ContractAccumulator.Scores` | apps/cardrag-mcp/src/cardrag_mcp/aggregation_profile.py:261-273 | the three policies agree with the form over the whole list |
| `Aggregation.StreamScores` | apps/cardrag-mcp/src/cardrag_mcp/aggregation.py:18-46 | for every row order the streamed scores equal the scores over the whole list, and fail exactly when a contract row is missing or doubled or no child exists |
| `Descending.TopDominates` | apps/cardrag-mcp/src/cardrag_mcp/aggregation_profile.py:855-859 | no choice of k items has a larger sum than the first k after sorting |
| `Weights.Gap` | apps/cardrag-mcp/src/cardrag_mcp/aggregation_profile.py:851-859 | with falling weights the distance of two weighted sums is at least the distance of their last partial sums, weighted |
| `Ndcg.IdealDominates` | apps/cardrag-mcp/src/cardrag_mcp/aggregation_profile.py:842-868 | at every depth the ideal order has gained at least as much as any ranking without repetitions |
| `Ndcg.NdcgBounds` | apps/cardrag-mcp/src/cardrag_mcp/aggregation_profile.py:842-868 | nDCG@10 lies in [0, 1], and is 1 exactly when each of the ten ranks has the ideal gain |
| `Ndcg.GoldFirstIsPerfect` | apps/cardrag-mcp/src/cardrag_mcp/aggregation_profile.py:842-868 | gold contracts first, in falling grade, give nDCG 1, with any number of gold contracts |
| `Capture.Scan` | apps/cardrag-mcp/src/cardrag_mcp/aggregation_capture.py:1025-1040 | the resume scan accepts exactly the states whose complete trios form a prefix with nothing behind it |
| `Capture.Resume` | apps/cardrag-mcp/src/cardrag_mcp/aggregation_capture.py:1023-1058 | resuming accepts exactly the directories without a leftover temporary whose complete trios form a prefix that extends the saved progress |
| `Capture.CaptureState.CaptureQuery` | apps/cardrag-mcp/src/cardrag_mcp/aggregation_capture.py:1061-1136 | one query is embedded once, and its trio and the progress extend the prefix |
| `Capture.CaptureState.CaptureRest` | apps/cardrag-mcp/src/cardrag_mcp/aggregation_capture.py:1025-1136 | every incomplete query is captured once, in order; complete ones stay as they are and are never embedded again |
| `CaptureRuns.StepInvariant` | apps/cardrag-mcp/src/cardrag_mcp/aggregation_capture.py:1005-1136 | every single file operation, failure and death keeps a prefix of complete trios, at most one partial trio behind it, and saved progress within the prefix |
| `CaptureRuns.InterruptedCapture` | apps/cardrag-mcp/src/cardrag_mcp/aggregation_capture.py:1061-1136 | a capture killed within a query is resumed exactly when it owned no temporary and none or all of the three files existed, that is, before the score temporary or between the coverage file and the progress |
| `CaptureRuns.InterruptedOpening` | apps/cardrag-mcp/src/cardrag_mcp/aggregation_capture.py:476-515 | a death that leaves the temporary of the inventory, the identity or the progress behind is not resumed; one before the temporary of the progress is |
| `CaptureRuns.KilledWhileScoring` | apps/cardrag-mcp/src/cardrag_mcp/aggregation_capture.py:1065-1087 | a concrete run: killed while its first query is scored, a capture leaves none of the three files and yet cannot be resumed |
| `CaptureRuns.ResumedIff` | apps/cardrag-mcp/src/cardrag_mcp/aggregation_capture.py:1005-1136 | over every history of starts, failures and deaths, a restart is accepted if and only if no temporary is left and no query has a part of its files |
| `CaptureRuns.SpoiledForever` | apps/cardrag-mcp/src/cardrag_mcp/aggregation_capture.py:632-641 | a directory with a leftover temporary or a partial trio is refused by every later start, and no start changes its queries, its progress or the embeddings |
| `CaptureRuns.NeverEmbedsAgain` | apps/cardrag-mcp/src/cardrag_mcp/aggregation_capture.py:1061-1136 | no event changes the files of a complete query, and only a query without any file is embedded |
| `ScoreArtifact.PublishCombined` | apps/cardrag-mcp/src/cardrag_mcp/aggregation_capture.py:784-824 | block-wise copying yields the concatenated shards exactly when their total is the predicted size within the cap |
| `ScoreArtifact.Open` | apps/cardrag-mcp/src/cardrag_mcp/aggregation_profile.py:746-787 | the loops with running offsets accept exactly the artifacts whose segments tile both matrices and have their digests |
| `ScoreArtifact.SegmentsTile` | apps/cardrag-mcp/src/cardrag_mcp/aggregation_profile.py:746-787 | the segments of an opened artifact are the whole of both matrices, in query order |
| `ScoreArtifact.CaptureThenOpen` | apps/cardrag-mcp/src/cardrag_mcp/aggregation_capture.py:1138-1147 | the combined artifact of a complete capture is accepted when opened |
| `ScoreArtifact.CapturedReadsBack` | apps/cardrag-mcp/src/cardrag_mcp/aggregation_profile.py:598-659 | reading a query at its recorded offsets returns exactly its captured scores and vector |
| `OcrPages.MarkersJoin` | tools/legacy_data_kit_adoption_v2.py:58 | the page markers of two texts joined by a line break are those of the first and, shifted, of the second |
| `OcrPages.PrintThenParse` | tools/legacy_data_kit_adoption_v2.py:861-881 | printing any valid page list and parsing it returns the same pages |
| `OcrPages.ParseThenPrint` | tools/legacy_data_kit_adoption_v2.py:861-881 | every accepted text is the print of its parsed pages, which are valid and as many as expected |
| `OcrNormalization.NumberOfNumeral` | tools/legacy_data_kit_adoption_v2.py:58 | a numeral of the marker pattern is the decimal print of its value |
| `OcrNormalization.NumeralOfNumber` | tools/legacy_data_kit_adoption_v2.py:58 | the decimal print of a page number is a numeral of that value |
| `OcrNormalization.PrefixNeverCanonical` | tools/legacy_data_kit_adoption_v2.py:43-45 | a payload with the generated prefix is never canonical itself |
| `OcrNormalization.NormalizedIsCanonical` | tools/legacy_data_kit_adoption_v2.py:884-911 | the payload is the removed prefix plus the normalized text, which is canonical and its own normalization |
| `OcrNormalization.AcceptedPayloads` | tools/legacy_data_kit_adoption_v2.py:884-911 | the prefix is stripped if and only if the issuer is Woori, at least one page is expected, and the rest is canonical |
| `OcrNormalization.NoPageExpected` | tools/legacy_data_kit_adoption_v2.py:884-911 | with no page expected, a canonical rest behind the prefix is refused |
| `AsOf.LatestByLineage` | apps/cardrag-mcp/src/cardrag_mcp/exact.py:1395-1403 | the loop records the latest eligible date of every lineage |
| `AsOf.SelectAsOf` | apps/cardrag-mcp/src/cardrag_mcp/exact.py:1373-1431 | the branch returns the undated ambiguous and the active revisions; with unique revision ids it raises the ambiguity error exactly when two revisions of one lineage clash |
| `AsOf.SelectedMembers` | apps/cardrag-mcp/src/cardrag_mcp/exact.py:1414-1425 | selected are exactly the undated ambiguous revisions and those the date or the supersession rule makes active |
| `AsOf.AtMostOne` | apps/cardrag-mcp/src/cardrag_mcp/exact.py:1426-1431 | a returned selection holds at most one revision of a lineage |
| `AsOf.AmbiguousMeans` | apps/cardrag-mcp/src/cardrag_mcp/exact.py:1404-1431 | a lineage occurs twice exactly when two eligible revisions share the latest date, two are unsuperseded in a non-monotonic lineage, or an undated one stands beside another |
| `AsOf.MissingLineage` | apps/cardrag-mcp/src/cardrag_mcp/exact.py:1404-1425 | a lineage with an eligible revision is missing exactly when it is non-monotonic, all its eligible revisions are superseded, and it has no undated revision |
| `AsOfProofs.CoversIffPermutes` | apps/cardrag-mcp/src/cardrag_mcp/exact.py:1404-1409 | by counting, every eligible revision has an eligible successor if and only if supersession permutes them |
| `AsOfProofs.MissingIffCyclic` | apps/cardrag-mcp/src/cardrag_mcp/exact.py:1404-1425 | where supersession stays within lineages, a lineage is missing if and only if it is non-monotonic and its eligible revisions form cycles |
| `AsOfProofs.CycleLosesLineage` | apps/cardrag-mcp/src/cardrag_mcp/exact.py:1404-1425 | two revisions that supersede each other, one backdated, make the selection empty |
| `AsOfProofs.CheckTable` | apps/cardrag-mcp/src/cardrag_mcp/schema_v5.py:718-736 | the database check accepts exactly the tables in which every predecessor walk ends within its lineage |
| `AsOfProofs.ValidTableCovered` | apps/cardrag-mcp/src/cardrag_mcp/exact.py:1373-1431 | in a checked table a returned selection holds exactly one revision of every lineage with an eligible revision |
| `AsOfProofs.RulesAgree` | apps/cardrag-mcp/src/cardrag_mcp/exact.py:1410-1425 | on chains with strictly rising dates the terminal rule and the latest-date rule select the same revision |
| `MetadataCache.Cache.Get` | apps/cardrag-mcp/src/cardrag_mcp/metadata_cache.py:24-32 | a hit returns the stored value and makes it the newest; counters and limits hold |
| `MetadataCache.Cache.Set` | apps/cardrag-mcp/src/cardrag_mcp/metadata_cache.py:34-48 | an accepted value becomes the newest entry, the oldest go until both limits hold, the byte counter stays the sum of sizes |
| `MetadataCache.TrimFacts` | apps/cardrag-mcp/src/cardrag_mcp/metadata_cache.py:45-48 | what stays is the longest suffix within both limits |
| `MetadataCache.NewestStays` | apps/cardrag-mcp/src/cardrag_mcp/metadata_cache.py:43-48 | an entry never evicts itself on insertion |
| `MetadataCache.LeastRecentlyUsed` | apps/cardrag-mcp/src/cardrag_mcp/metadata_cache.py:24-48 | after every history entries stand in the order of their last use, and each holds the value last accepted for its key |
| `MetadataCache.EvictsOldest` | apps/cardrag-mcp/src/cardrag_mcp/metadata_cache.py:45-48 | an evicted entry was last used before every entry that stays |
| `MetadataCache.WithinLimits` | apps/cardrag-mcp/src/cardrag_mcp/metadata_cache.py:45-48 | both limits hold after every history |

## Left out

- HTTP edge, tool registration, settings, metrics, process entry and the review server: plumbing.
- The provider client and its response parsing: an answer is an arbitrary decision, usage and responder; the strict decision schema is `Evidence.Decision.Valid`.
- SQL queries, inode and symlink checks, fsync, quotas, and the reconciliation of temporary files in the map-reduce store: reads are assumed stable and publishing atomic. The temporaries of the capture are modelled.
- Torn writes of immutable audit files, and a death after the audit directory exists but before its vector: each publication is one step.
- Stored text and page hashes that are compared while the corpus is built: with injective digests the comparison cannot fail for unchanged rows.
- Grouping of unit ids into expected contracts, job ids and profile ids: constants of one job.
- The order of sections in a contract: sections keep the order of their first span, which the final sort by page and start reproduces.
- The branch for a result without a contract id in the span validator: units always name a contract.
- Provider and job concurrency slots beyond mutual exclusion of the job lease.
- A claim that the final size guard of a compact page never fires: the reserve does not cover a sample that becomes incomplete.
- Node subtrees of the full expanded graph, which are not complete as the code stands.
- Sealing.Seal: the encoded size of a page apart from its own size field is an arbitrary function of the page, so JSON layout is not modelled.
- Ndcg.NdcgBounds: the discount is any positive strictly falling function of the rank, of which 1 / log2(rank + 1) is one; recall and MRR are single expressions and add nothing.
- Scoring.ScoreContract: nodes of a record keep the order of their rows; the sort by node id is not modelled, nor are float tolerances in the record validators.
- AsOf.SelectAsOf: the final sort by revision id, and the filters by issuer and lineage, which keep whole lineages.
- ScoreStream.JoinRows: the split into scoring blocks, which does not affect the join, and the packing of scores into four bytes.
- Capture.Scan: float checks inside a shard (finite, bounded, unit norm) are not modelled.
- OcrPages.ParseThenPrint: UTF-8 decoding; payloads are decoded text, and a page number beyond Python's integer conversion limit is not considered.
- MetadataCache.Cache.Get: the lock, and JSON decoding, which returns the value that was encoded.
- Bootstrap intervals, NumPy random generation, float rounding and block-dependent matrix arithmetic.
- Archive inventory, offline volume checks, snapshot lock, recovery, acquisition receipts, catalog SQL, issuer aliases and launch dates: mostly I/O or single-branch checks.
