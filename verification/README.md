# Verification of the OPoI stratum bridge

A Dafny model of the bridge's protocol logic, with proofs. The bridge relays a language model's computation
through miners that each hold a slice of it. The model covers five components.

* **Speculative decoding** (`Speculative*.dfy`). A draft miner proposes tokens, the shard chain verifies them in
  one batch, the caches are rolled back, and the next round starts from the carried token. The physical KV caches,
  which the bridge never sees, are part of the model; the draft is arbitrary.
* **The shard pipeline** (`Shard*.dfy`, `ModelGraph.dfy`, `Attribution.dfy`). An event-driven machine for dispatches,
  replies, retry ticks, disconnects and expert fan-outs, proved to refine the loop "for each token, for each
  shard, for each expert layer".
* **Expert hosts and fan-outs** (`Roster.dfy`, `MinerRegistry.dfy`, `Expert{Fanout,Tokens,Dispatcher,Combine}.dfy`).
  Round-robin and ranking in the registry, planning, retries, the all-or-nothing join and the weighted sum.
* **GGUF headers and memory sizing** (`Gguf*.dfy`, `ExpertVram*.dfy`). The header parser after the GGUF specification's
  "File Structure" section, the per-expert size arithmetic and its cache.
* **Answers, payouts and receipts** (`Assignment.dfy`, `OpoiEngine.dfy`, `Ledger*.dfy`, `Receipt.dfy`). Who may answer a
  whole-model request, the lifecycle of a submission row, the payout loop, and the encodings that are signed and
  published.

The two engines share one shape. A `...Session` module holds what the engine knows about one request and says, as a
function, what each event does to it; theorems about whole runs are proved there. A class keeps the maps over all
requests, as the bridge does, and each of its methods is proved to do exactly the session's step to its own request
and nothing to any other; the `...EngineRuns` modules compose them, so that the theorems about one request hold of
an engine that serves many. The dispatcher, the parser, the registry and the submission table follow the same
shape: a specification on values, and a class whose loops and updates are proved against it.

## What is assumed

* A shard answers as a function of token, position, layer and input; a target model's next token is a function
  of the context. Replies to the current step are the model's own, and successful joins are its weighted sums;
  everything else that arrives is arbitrary. This is what the theorems call an honest run.
* Handlers interleave at every wait: the source lookup (src/opoi/shard_engine.rs:922), the submission (:1002), the memory
  estimate (:1401), the expert join (:1446) and the token count (src/opoi/speculative_engine.rs:513). A tick may
  dispatch long after it looked for stalled requests (src/opoi/shard_engine.rs:742-747). Whatever lies between two waits
  is one step. A session reads no second line while its handler runs (src/proxy/session.rs:222), and ending the session
  drops that handler; so a wallet has at most one handler per request.
* The theorems about whole runs speak of orderly runs: no reply is accepted while an earlier one for the same request is
  being handled, and an accepted reply answers the step the request is at. The bridge does not enforce this; see
  "Accepted twice" below for what happens otherwise. Everything the engine classes are proved to do holds in all runs.
* A miner answers each expert dispatch it received at most once, under the key and for the token it was sent.
* Request ids are not reused: the engine theorems speak of requests that were started once.
* A well-formed graph: dense shards have distinct indices, a range with experts is not empty, and only the last dense
  shard may both have experts and end at the model's last layer.
* Speculative rounds: one session holder per shard, truthful acknowledgements from it, drafts of bounded length, and
  lengths that fit 32 bits.
* Database writes succeed and each operation is atomic, in particular sending a payout and marking its rows, and
  recording a finished response.

## Findings

* **Accepted twice.** Accepting a reply uses up the assignment (src/opoi/shard_engine.rs:918), and while its handler waits
  for the source or for the submission nothing marks the request busy. A tick then dispatches the same step to a second
  miner, whose reply is accepted too. With two submissions awaited the request moves on two shards
  (`ShardOverlap.OverlapSkipsAShard`); `ShardOverlap.SecondReplyDuringTheWait` is a run of three plain shards that records
  a wrong token, submits the first shard twice and skips the second. `ShardOverlap.ReplyToALeftStep` is one where the
  second reply arrives after the wait. Speculative requests have the same gap while the prompt is counted
  (`SpeculativeOverlap.SecondPromptReplyDiverges`).
* **Prompt length.** The prompt is counted from the input of the shard that ends the prompt pass, which is a tensor
  unless the pipeline has one shard (src/opoi/speculative_engine.rs:505-513). `base` then starts from the empty text's
  count. `SpeculativeSeed.MeaningPreservedIffSeedHarmless` gives the exact condition under which output is still right.
* **Stop test.** The speculative stop test compares `base + accepted + 1` with `max_tokens`
  (src/opoi/speculative_engine.rs:550): it counts the prompt and not the carried token, unlike
  src/opoi/shard_engine.rs:998, which counts generated tokens. Every response has `max_tokens` tokens exactly if
  `max_tokens <= 1`, or the prompt is empty, or the prompt is one token and the longest draft plus two is below
  `max_tokens` (`SpeculativeLength.ResponsesAreFullIffByDesign`); `SpeculativeLength.TooShortRun` is a run for every other
  request.
* **Sibling retries.** A comment promises that a retry never collides with a sibling's
  (src/opoi/expert_dispatch.rs:318-333). Each task keeps its own copy of the used wallets, so two siblings that have
  failed equally often under the same registries always pick the same host (`ExpertFanout.RetriesOfSiblingsCollide`).
* **Stale marker.** If the last layer of a shard was joined and no miner can be picked, the busy marker of the old step
  stays (`ShardRuns.BoundaryJoinNeedsAMiner`, reached by `ShardExamples.MarkerIsLeft`). No tick dispatches the request
  until the marked wallet disconnects (`ShardRuns.LeftBehindStalls`, `ShardRuns.MarkedWalletLeaving`).
* **Boundary submission.** A shard with experts submits before its last fan-out, so an attempt that fails afterwards
  submits again, although a comment promises one submission per shard (src/opoi/shard_engine.rs:985-995). The number
  is one plus those failures (`ShardRuns.SubmittedOnceIffNeverInVain`); `ShardExamples.SubmittedTwice` has two. Replies
  accepted twice add to it, also for plain shards.
* **Expert key.** Expert dispatches are keyed without the token, and a reply's token is not checked
  (src/opoi/expert_dispatch.rs:413-438), although a comment promises that a late reply is not accepted for a dispatch
  that reuses the key (src/opoi/expert_dispatch.rs:393-400). After a time-out the next token's dispatch of the same layer
  and expert to the same wallet takes the late reply (`ExpertTokens.StaleOutputJoins`). An attempt is safe exactly if
  its wallet owes nothing else under its key (`ExpertTokens.OwnTokenIffNothingElseOwed`). Such a join need not be the
  model's, so the theorems about honest shard runs exclude it; `ExpertTokens.JoinedOutputsAreForTheirToken` says when
  none occurs.
* **Cache key.** The size cache does not include the number of experts in its key (src/opoi/expert_vram.rs:382).
  `ExpertVramCache.SecondAnswerIsFreshIffSharesAgree` says exactly when the answer is still right;
  `ExpertVramCache.SecondAnswerIsWrong` is a file where it is not.
* **Answered requests.** A comment promises that an answered request is never handed out again
  (src/opoi/assignment.rs:48-50). It is, if its prompt is posted again, since prompt intake does not look at the
  submissions (src/opoi/engine.rs:269-283); `Assignments.HandedOutOnlyAfterPrompt` shows that nothing else does it, and
  `Assignments.PromptHandsOutAgain` that the second miner's answer is then refused.

## Model

| member | source | states |
|---|---|---|
| `SpeculativeDecoding.SpeculationPreservesMeaning` | src/opoi/speculative_engine.rs:446-573 | over every honest and orderly run, whatever the draft proposes and however events interleave, `generated[i]` is the target's own next token after prompt and `generated[..i]`, and a recorded response is the target's greedy decode |
| `SpeculativeSeed.MeaningPreservedIffSeedHarmless` | src/opoi/speculative_engine.rs:501-526 | the exact condition under which that holds: `base` was seeded with the prompt length, or the first round is already the last; for all requests, in both directions |
| `SpeculativeSeed.HarmlessSeedKeepsMeaning` | src/opoi/speculative_engine.rs:550 | a wrongly seeded run still commits greedy tokens if the stop test ends it after its first round |
| `SpeculativeSeed.WrongSeedDiverges` | src/opoi/speculative_engine.rs:505-513 | for every harmful seed, an honest run that commits a token the target would not produce |
| `SpeculativeLength.ResponsesAreFullIffByDesign` | src/opoi/speculative_engine.rs:550 | with the right seed: every recorded response of every honest run and every target has `max_tokens` tokens, exactly if `max_tokens <= 1`, the prompt is empty, or it is one token long and no draft can reach the limit in one round |
| `SpeculativeLength.StopTestCountsPromptAndNotCarry` | src/opoi/speculative_engine.rs:548-561 | a round is the last one exactly if prompt plus response, less the token carried into the round, reach `max_tokens` |
| `SpeculativeLength.TooShortRun` | src/opoi/speculative_engine.rs:550 | for every request outside that condition, an honest run that records fewer tokens than requested |
| `SpeculativeOverlap.SecondPromptReplyDiverges` | src/opoi/speculative_engine.rs:501-529 | for every request with the right seed and room for three rounds, an honest run in which a second reply to the prompt is accepted while the prompt is counted, and which commits a token the target would not produce |
| `SpeculativeRound.GreedyVerifyRound` | src/opoi/speculative_engine.rs:105-125 | accepts the longest confirmed prefix of the draft and settles on the prediction after it |
| `SpeculativeRound.OutcomeUnique` | src/opoi/speculative_engine.rs:105-125 | that description determines the outcome |
| `SpeculativeRound.RoundCommitsGreedy` | src/opoi/speculative_engine.rs:105-125 | with honest logits a round commits the greedy continuation, and a draft prefix agrees with it exactly up to the accepted count |
| `SpeculativeRound.NextK` | src/opoi/speculative_engine.rs:131-140 | the batch size stays in 2..8 and moves by one exactly when the acceptance rate passes 0.7 or falls below 0.5 |
| `SpeculativeDecoding.StepKeeps` | src/opoi/speculative_engine.rs:446-768 | every event keeps the invariant that ties the round's fields to the physical KV caches |
| `SpeculativeDecoding.RollbackRestoresCaches` | src/opoi/speculative_engine.rs:760-766 | after a completed rollback every cache is the prompt plus all committed tokens but the carried last one |
| `SpeculativeDecoding.KeepLenWithinCache` | src/opoi/speculative_engine.rs:127-129 | the truncation asked for never exceeds what a cache holds, never wraps, and keeps exactly the committed context |
| `SpeculativeDecoding.RoundsAreBounded` | src/opoi/speculative_engine.rs:548-561 | every round commits at least one token, the number of rounds is bounded by the tokens left, and requested drafts stay in 1..8 |
| `SpeculativeDecoding.RoundEndsAfterEveryAck` | src/opoi/speculative_engine.rs:711-746 | a rollback phase ends exactly when every shard and the draft session have acknowledged it |
| `SpeculativeEngines.SpeculativeEngine.StartPipeline` | src/opoi/speculative_engine.rs:321-358 | without a draft source nothing happens; otherwise the session starts with the shards in the order of their indices and the first one is dispatched; other requests untouched |
| `SpeculativeEngines.SpeculativeEngine.DispatchShardStep` | src/opoi/speculative_engine.rs:384-440 | refines the session's shard dispatch; other requests untouched |
| `SpeculativeEngines.SpeculativeEngine.DispatchDraft` | src/opoi/speculative_engine.rs:577-620 | refines the session's draft dispatch; other requests untouched |
| `SpeculativeEngines.SpeculativeEngine.HandleShardResult` | src/opoi/speculative_engine.rs:446-573 | accepts exactly the assigned reply and refines the session step |
| `SpeculativeEngines.SpeculativeEngine.FinishPrompt` | src/opoi/speculative_engine.rs:495-513 | refines the end of the prompt pass up to the wait for the token count |
| `SpeculativeEngines.SpeculativeEngine.ResumeCount` | src/opoi/speculative_engine.rs:513-529 | refines what follows the wait: `base` is seeded and a draft requested, whatever the request is doing by then, or the request is dropped |
| `SpeculativeEngines.SpeculativeEngine.FinishVerify` | src/opoi/speculative_engine.rs:532-571 | refines the end of a verify pass |
| `SpeculativeEngines.SpeculativeEngine.SendRollbacks` | src/opoi/speculative_engine.rs:657-706 | sends one rollback per shard and one to the draft session, and waits for all of them |
| `SpeculativeEngines.SpeculativeEngine.HandleKvRollbackAck` | src/opoi/speculative_engine.rs:708-768 | refines the session's acknowledgement step |
| `SpeculativeEngines.SpeculativeEngine.FinalizePipeline` | src/opoi/speculative_engine.rs:804-852 | records the response for the wallet that did most |
| `SpeculativeEngines.SpeculativeEngine.HandleDraftResult` | src/opoi/speculative_engine.rs:622-653 | refines the session's draft step |
| `SpeculativeEngines.SpeculativeEngine.RetryStalledTick` | src/opoi/speculative_engine.rs:360-382 | every request makes exactly one session retry step, at some point of the round-robin |
| `SpeculativeEngines.SpeculativeEngine.OnDisconnect` | src/opoi/speculative_engine.rs:854-878 | every request makes exactly the session's disconnect step |
| `SpeculativeEngineRuns.ServeAll` | src/opoi/speculative_engine.rs:321-878 | after any calls for any requests, each request that was started once stands where a run of its own session on exactly the events it saw leads |
| `SpeculativeEngineRuns.ServedRequestsKeepMeaning` | src/opoi/speculative_engine.rs:446-573 | so what an engine records for a request, whatever other requests it interleaves, is the target's greedy decode |
| `ShardRuns.PipelineRefinesNestedLoop` | src/opoi/shard_engine.rs:889-1105 | over every honest and orderly run, the recorded tokens are the nested loop's `max(1, max_tokens)` tokens, and an unfinished pipeline holds a prefix of them |
| `ShardOverlap.SecondReplyDuringTheWait` | src/opoi/shard_engine.rs:918-1012 | outside the orderly runs that fails: an honest run that accepts a second reply while a submission is awaited records a wrong token, submits its first plain shard twice and its second one never |
| `ShardOverlap.ReplyToALeftStep` | src/opoi/shard_engine.rs:906-918 | and so does one that accepts a reply for a step the request has left, with no handler suspended |
| `ShardOverlap.OverlapSkipsAShard` | src/opoi/shard_engine.rs:1014-1051 | for every request: two replies whose submissions are awaited at once move it two plain shards on, and the third shard is fed what the first one computed |
| `ShardRuns.LayersOnceInOrderOnOneWallet` | src/opoi/shard_engine.rs:1429-1464 | each expert layer is combined exactly once, in the order of the nested loop, all layers of a shard on one pinned wallet, whatever was retried |
| `ShardRuns.SubmissionsCoverShardsInOrder` | src/opoi/shard_engine.rs:985-1012 | submissions happen only on the last token, shard by shard in order, every shard at least once; in a model without experts each shard exactly once |
| `ShardRuns.SubmittedOnceIffNeverInVain` | src/opoi/shard_engine.rs:985-1012 | a finished request submitted each shard once plus once for every attempt at its last fan-out that failed after submitting; so exactly once if and only if there was none, and always for plain shards and the last one |
| `ShardExamples.SubmittedTwice` | src/opoi/shard_engine.rs:1001-1051 | an honest run that finishes after submitting its first shard twice |
| `ShardRuns.RepliesAreAccountedFor` | src/opoi/shard_engine.rs:923-931 | accepted replies whose source was found are steps made plus failed attempts plus the one in flight; a finished request made every step of the loop once; contributions are the multiset of those replies, and the largest share is paid |
| `ShardRuns.NextIsOneStep` | src/opoi/shard_engine.rs:1042-1105 | the place after a step is one step further in the nested loop's own count |
| `ShardRuns.ProgressIsLexicographic` | src/opoi/shard_engine.rs:734-748 | no event sets a live request back in (token, shard, layer); ticks, disconnects, rejected replies and failures leave it where it is |
| `ShardRuns.AssignmentIsCurrent` | src/opoi/shard_engine.rs:906-918 | in every reachable state an assignment names exactly the current shard, token, step and pinned wallet, or it was left behind by an earlier step; a step number is present exactly when the shard has experts, and the input matches the place |
| `ShardRuns.TickDuringFanoutChangesNothing` | src/opoi/shard_engine.rs:1436-1444 | while a fan-out is joining, a retry tick that looks now dispatches nothing for its request |
| `ShardRuns.BoundaryJoinNeedsAMiner` | src/opoi/shard_engine.rs:1286-1298 | after a shard's last join the assignment is the next step's exactly if a miner could be picked, and the unchanged old marker exactly if not |
| `ShardRuns.LeftBehindStalls` | src/opoi/shard_engine.rs:734-740 | an assignment left behind keeps the request exactly as it is over any run of ticks that look now, until its wallet disconnects |
| `ShardRuns.MarkedWalletLeaving` | src/opoi/shard_engine.rs:1650-1657 | its disconnect releases the marker, and the next tick with a miner dispatches the request where it stood |
| `ShardExamples.MarkerIsLeft` | src/opoi/shard_engine.rs:1436-1444 | an honest run that leaves a marker behind |
| `ShardProgress.StepMoves` | src/opoi/shard_engine.rs:889-1105 | every honest and orderly event stays, advances by exactly one step, finishes or ends the request, with its exact effect on trail, submissions, log and credits; a reply whose output goes back to its own shard submits nothing |
| `ShardRuns.StalledTickDispatchesOrDrops` | src/opoi/shard_engine.rs:807-880 | a tick on a stalled request dispatches exactly its current step to the pinned wallet or the next miner, drops it exactly if the pinned wallet is gone, and waits only without miners |
| `ShardProgress.GoodAnswerMovesOn` | src/opoi/shard_engine.rs:943-1105 | no good answer is wasted once its source was found and its submission made: it is submitted where it has to be, goes into the fan-out, advances the request by one step, or finishes it |
| `ShardDecoding.StepKeeps` | src/opoi/shard_engine.rs:889-1464 | every honest and orderly event keeps the invariant that what remains to be computed yields the sequential result, and that a suspended handler works on the step the request is at |
| `ShardEngines.ShardEngine.StartPipeline` | src/opoi/shard_engine.rs:697-718 | starts the request's session and dispatches its first shard; other requests untouched |
| `ShardEngines.ShardEngine.DispatchCurrent` | src/opoi/shard_engine.rs:772-880 | refines the session's dispatch: resume on the pinned wallet, drop if it is gone, otherwise the next miner |
| `ShardEngines.ShardEngine.HandleShardResult` | src/opoi/shard_engine.rs:906-922 | accepts exactly the assigned step's reply, uses up the assignment, and waits for the model's source |
| `ShardEngines.ShardEngine.ResumeLookup` | src/opoi/shard_engine.rs:922-931 | with the source found the reply is credited and routed; without it nothing happens |
| `ShardEngines.ShardEngine.Route` | src/opoi/shard_engine.rs:948-1008 | refines the routing of a reply up to the wait for its submission |
| `ShardEngines.ShardEngine.ResumeSubmit` | src/opoi/shard_engine.rs:1002-1012 | records a successful submission and settles the reply; a failed one leaves the request where it is |
| `ShardEngines.ShardEngine.Settle` | src/opoi/shard_engine.rs:1014-1105 | decodes at the last shard, begins the last fan-out of a shard with experts, and hands over anything else |
| `ShardEngines.ShardEngine.CommitToken` | src/opoi/shard_engine.rs:1080-1105 | refines the end of a token step |
| `ShardEngines.ShardEngine.CheckSelections` | src/opoi/shard_engine.rs:1179-1200 | accepts a router's choice exactly if no layer is empty and every expert is registered |
| `ShardEngines.ShardEngine.BeginFanout` | src/opoi/shard_engine.rs:1348-1404 | validates the choice and waits for the memory estimate |
| `ShardEngines.ShardEngine.StartFanout` | src/opoi/shard_engine.rs:1405-1444 | marks the request busy and dispatches the experts |
| `ShardEngines.ShardEngine.FinishFanout` | src/opoi/shard_engine.rs:1451-1483 | refines the end of a fan-out: next layer, next shard, or the marker removed |
| `ShardEngines.ShardEngine.FinalizePipeline` | src/opoi/shard_engine.rs:1534-1588 | records the response for the wallet that did most |
| `ShardEngines.ShardEngine.RetryStalledPipelines` | src/opoi/shard_engine.rs:734-748 | every request makes exactly one session retry step, at some point of the round-robin |
| `ShardEngines.ShardEngine.Redispatch` | src/opoi/shard_engine.rs:742-747 | a tick that found the request stalled earlier dispatches it now, whatever happened to it since |
| `ShardEngines.ShardEngine.OnDisconnect` | src/opoi/shard_engine.rs:1650-1657 | every request makes exactly the session's disconnect step |
| `ShardEngineRuns.ServeAll` | src/opoi/shard_engine.rs:697-1657 | after any calls for any requests, each request that was started once stands where a run of its own session on exactly the events it saw leads |
| `ShardEngineRuns.ServedRequestsRefineNestedLoop` | src/opoi/shard_engine.rs:889-1105 | so what an engine records for a request, whatever other requests it interleaves, is the nested loop's result |
| `ModelGraphs.SplitModelExecutionGraph` | src/opoi/shard_engine.rs:1682-1693 | the dense shards as a stable sort by index of exactly the graph's dense nodes, and every range's experts in graph order |
| `Attribution.SelectWinningWallet` | src/opoi/shard_engine.rs:1707-1709 | the wallet with the most steps, the greatest address among equals; none exactly for no steps |
| `Attribution.WinnerUnique` | src/opoi/shard_engine.rs:1707-1709 | that rule determines one wallet |
| `Rosters.RoundRobinIsFair` | src/miner_registry.rs:154-169 | with registrations and bans fixed, any window of as many picks as there are eligible wallets serves each of them exactly once, from any starting point |
| `Rosters.RankingUnique` | src/miner_registry.rs:328-332 | memory descending, then address ascending, ranks a pool in one way |
| `MinerRegistries.MinerRegistry.Unregister` | src/miner_registry.rs:103-117 | removes the wallet and its capabilities, keeps everyone else's order, and leaves bans alone |
| `MinerRegistries.MinerRegistry.PickExpertHostsTopN` | src/miner_registry.rs:310-333 | exactly the n best eligible wallets, best first |
| `MinerRegistries.MinerRegistry.PickExpertHost` | src/miner_registry.rs:287-289 | the single best eligible wallet, or none exactly if no wallet is eligible |
| `ExpertFanout.JoinBarrier` | src/opoi/expert_dispatch.rs:267-277 | in any run, a group joins only if every one of its tasks won a reply to exactly its key, put through to an attempt for its key and token, from the very wallet that attempt was sent to |
| `ExpertTokens.OwnTokenIffNothingElseOwed` | src/opoi/expert_dispatch.rs:344-438 | whatever follows, a registered attempt only ever takes a reply for its own token, exactly if its wallet owes no answer to a dispatch of the same key for another token |
| `ExpertTokens.LateReplyReachesOnlyAReusedKey` | src/opoi/expert_dispatch.rs:393-400 | a reply whose dispatch is no longer registered changes nothing, exactly unless its key has been dispatched again to the same wallet; then that later attempt takes it |
| `ExpertTokens.JoinedOutputsAreForTheirToken` | src/opoi/expert_dispatch.rs:267-277 | in a run without such dispatches every joined output was computed for the group's own token |
| `ExpertTokens.StaleOutputJoins` | src/opoi/expert_dispatch.rs:413-438 | an honest run in which token 1 joins with an output computed for token 0 |
| `ExpertFanout.RepliesComeFromTheRecordedWallet` | src/opoi/expert_dispatch.rs:413-438 | a reply is put through only if it comes from the wallet recorded at that moment for exactly its key |
| `ExpertFanout.PlannedHostsAreEligible` | src/opoi/expert_dispatch.rs:247-259 | planned hosts are pairwise distinct, connected, unbanned, above their floor and outside the excluded wallets |
| `ExpertFanout.RetriesAreBoundedAndDisjoint` | src/opoi/expert_dispatch.rs:301-336 | in any run a task uses at most three hosts, all different, every retry outside the wallets its group was planned with or told to avoid |
| `ExpertFanout.RetriesOfSiblingsCollide` | src/opoi/expert_dispatch.rs:301-333 | two experts of a group that have failed equally often, under the same registries, have always turned to the same host, or both found none |
| `ExpertFanout.RetryMeetsFloorIffSomeoneDoes` | src/opoi/expert_dispatch.rs:325-327 | a retry falls below the memory floor only if nobody left meets it |
| `ExpertFanout.DisconnectFailsExactlyItsWaiters` | src/opoi/expert_dispatch.rs:441-450 | a lost wallet keeps no assignment, every task waiting on it is unblocked at once, and no other task is |
| `ExpertFanout.StepKeeps` | src/opoi/expert_dispatch.rs:344-450 | every event keeps the channels, assignments and tasks of all groups consistent, also when keys repeat |
| `ExpertDispatchers.ExpertDispatcher.DispatchOne` | src/opoi/expert_dispatch.rs:344-383 | registers an attempt in all maps, or leaves nothing registered |
| `ExpertDispatchers.ExpertDispatcher.HandleExpertResult` | src/opoi/expert_dispatch.rs:413-438 | refines the machine's result step and accepts exactly the recorded wallet |
| `ExpertDispatchers.ExpertDispatcher.OnDisconnect` | src/opoi/expert_dispatch.rs:441-450 | refines the machine's disconnect step |
| `ExpertDispatchers.ExpertDispatcher.DispatchWithRetry` | src/opoi/expert_dispatch.rs:301-336 | the retry loop is the machine's retry |
| `ExpertDispatchers.ExpertDispatcher.RunTask` | src/opoi/expert_dispatch.rs:385-407 | refines what a task does when its channel or timer fires |
| `ExpertDispatchers.ExpertDispatcher.PlanHosts` | src/opoi/expert_dispatch.rs:247-259 | the planning loop is the machine's plan |
| `ExpertDispatchers.ExpertDispatcher.Join` | src/opoi/expert_dispatch.rs:267-277 | succeeds exactly if every task won and the outputs combine, and then with their weighted sum |
| `ExpertCombine.CombineWeighted` | src/opoi/expert_dispatch.rs:491-522 | succeeds exactly if there are outputs and all share the first one's shape and length, and then each element is the weighted sum |
| `ExpertCombine.CombineIgnoresOrder` | src/opoi/expert_dispatch.rs:491-522 | permuting the experts changes neither whether they combine nor the result |
| `Gguf.PrefixParsesIffItHoldsTheHeader` | src/opoi/expert_vram.rs:118-144 | a file cut before the end of its header is `Incomplete`, never `Invalid` and never misread; cut later it yields the same table |
| `Gguf.HeaderStands` | src/opoi/expert_vram.rs:213-251 | what was decided about a prefix still stands when more bytes follow, through arrays nested to any depth |
| `Gguf.HeaderRoundTrip` | src/opoi/expert_vram.rs:213-251 | parsing any written header, whatever follows it, yields exactly its tensor table and consumes exactly its bytes |
| `Gguf.DistinctNamesSurvive` | src/opoi/expert_vram.rs:236-248 | with distinct ASCII names the table holds exactly the written tensors under their own names |
| `Gguf.ValueBack` | src/opoi/expert_vram.rs:183-203 | skipping consumes exactly one metadata value, scalar, string or nested array |
| `GgufReader.Cursor.SkipValue` | src/opoi/expert_vram.rs:183-203 | the recursive method consumes exactly what the format says, and terminates because every element consumes a byte |
| `GgufReader.Cursor.ReadTensors` | src/opoi/expert_vram.rs:236-248 | the tensor loop fills the table the format prescribes |
| `GgufReader.ParseTensorInfos` | src/opoi/expert_vram.rs:213-251 | the reader agrees with the format on the table and on both kinds of failure |
| `ExpertVram.ExpertVramBytesForLayer` | src/opoi/expert_vram.rs:293-314 | the loop computes the layer's size with 64-bit wrap-around, or none exactly if a tensor is missing, uneven or of unknown type |
| `ExpertVram.LayerBytesIsExact` | src/opoi/expert_vram.rs:293-314 | without overflow, the number of experts times the per-expert size is exactly the three tensors' quantized size |
| `ExpertVram.ElementsWrap` | src/opoi/expert_vram.rs:301 | the wrapped element count is the true product modulo 2^64 |
| `ExpertVram.RememberedSizeFitsIffSameExperts` | src/opoi/expert_vram.rs:293-314 | one layer's size for one number of experts is its size for another exactly if the numbers agree or nothing is stored |
| `ExpertVramCache.SecondAnswerIsFreshIffSharesAgree` | src/opoi/expert_vram.rs:381-404 | a call after one for another number of experts answers what a fresh estimator would, exactly if nothing was remembered or both numbers lead to the same floor over the layers each of them divides |
| `ExpertVramCache.AskTwice` | src/opoi/expert_vram.rs:381-404 | the second answer is the one two consecutive calls on one estimator give |
| `ExpertVramCache.FreshAnswerIsPredicted` | src/opoi/expert_vram.rs:381-404 | a fresh answer is the largest layer total of the range, shared among the experts and rounded up to mebibytes, over the run of divisible layers |
| `ExpertVramCache.SecondAnswerIsWrong` | src/opoi/expert_vram.rs:382 | a file where the second call answers 24 instead of 12, and 24 instead of nothing |
| `ExpertVram.WalkLayers` | src/opoi/expert_vram.rs:412-432 | yields exactly the maximal run of computable layers from 0, and fails exactly if layer 0 cannot be computed |
| `ExpertVram.MaximalRunUnique` | src/opoi/expert_vram.rs:412-432 | that description determines the run and its sizes |
| `ExpertVram.WalkIsBounded` | src/opoi/expert_vram.rs:417-431 | the walk ends: a table describes no more layers than it has entries |
| `ExpertVram.FloorForRange` | src/opoi/expert_vram.rs:402-403 | the least number of mebibytes that covers every known layer of the range; none exactly if no layer is known |
| `ExpertVram.HeadSufficesIffHeaderFits` | src/opoi/expert_vram.rs:321-345 | reading only the capped prefix gives the whole file's table exactly when the header ends within it |
| `ExpertVram.ExpertVramEstimator.MinVramMbForRange` | src/opoi/expert_vram.rs:381-404 | answers from the cache, or from the fetched file and then remembers it; a failure remembers nothing |
| `Ledgers.StatusOnlyMovesForward` | src/db/repo.rs:75-170 | over any run a submission only moves ahead, at most one per request is active, and at most one of its commitments is ever revealed |
| `Ledgers.NoRowEntersTwoPayouts` | src/payout/mod.rs:40-79 | a published row paid by a batch belongs to that batch and no other, ever after |
| `Ledgers.WithheldStaysUnpaid` | src/db/repo.rs:217-229 | once its request is withheld an unpaid row stays unpaid |
| `Ledgers.PayoutsConserveRewards` | src/payout/mod.rs:45-79 | at any time each batch has sent exactly its fee factor times the rewards of the published rows marked paid by it |
| `Ledgers.MarkingIsExact` | src/db/repo.rs:261-281 | marking by request reaches, besides failed rows, exactly the covered ones |
| `Ledgers.CommitSucceedsIffSomeRoundDoes` | src/opoi/engine.rs:700-777 | a commit task ends committed exactly if some address succeeded in one of five rounds, otherwise failed |
| `Ledgers.StepKeeps` | src/opoi/engine.rs:484-570 | every step keeps the table's invariant and undoes nothing |
| `LedgerTables.LedgerTable.CreateSubmission` | src/db/repo.rs:18-52 | stores a row exactly if its request has none that has not failed |
| `Assignments.OnlyAssignedWalletsAnswer` | src/opoi/engine.rs:580-627 | over every run, every stored answer came from a wallet the request had been handed to, its hash is the digest of its content, and its row names that wallet and request for good |
| `Assignments.SpellingIsExact` | src/opoi/engine.rs:601-605 | the case-insensitive comparison accepts every spelling of the digest and nothing else |
| `Assignments.HandedOutOnlyAfterPrompt` | src/opoi/assignment.rs:48-52 | after an accepted answer its request is handed out again only if its prompt is posted again, however often it is listed and whatever becomes of its row |
| `Assignments.PromptHandsOutAgain` | src/opoi/engine.rs:269-283 | after every accepted answer, posting the prompt again is enough: the request is handed out although its answer stands, and the second answer is refused |
| `OpoiEngines.OpoiEngine.HandleSubmitResult` | src/opoi/engine.rs:580-627 | refines the answer step with all five refusals in the order of the code |
| `OpoiEngines.OpoiEngine.PollAndAssignTick` | src/opoi/engine.rs:342-480 | caches what is listed and offers every waiting request not served by shards to some miner, if any can be picked |
| `OpoiEngines.OpoiEngine.ReceivePrompt` | src/opoi/engine.rs:262-325 | keeps the prompt exactly if the request is cached or described |
| `OpoiEngines.OpoiEngine.OnDisconnect` | src/opoi/assignment.rs:54-62 | releases exactly the lost wallet's assignments |
| `LedgerTables.LedgerTable.DoCommit` | src/opoi/engine.rs:700-777 | the round loop refines the commit step |
| `LedgerTables.LedgerTable.TryRevealAny` | src/opoi/engine.rs:508-542 | reveals with the first ready commitment the chain accepts |
| `LedgerTables.LedgerTable.GroupByWallet` | src/payout/mod.rs:45-53 | groups exactly what may be paid: sums of rewards and the requests behind them |
| `LedgerTables.LedgerTable.CollectPayments` | src/payout/mod.rs:55-70 | one payment per wallet at or above the minimum, its balance less the fee, and exactly the requests behind them |
| `LedgerTables.LedgerTable.RunPayout` | src/payout/mod.rs:33-82 | one payout tick sends one batch and marks the covered rows, or changes nothing |
| `Receipts.DecodesIffShort` | src/opoi/b3lite.rs:70-81 | the encoding has a left inverse exactly on receipts whose lengths are below 2^32 |
| `Receipts.EncodingIsInjective` | src/opoi/b3lite.rs:63-69 | no byte can shift between fields: equal encodings mean equal receipts |
| `Receipts.BuildCanonicalBytes` | src/opoi/b3lite.rs:70-81 | the loops build that encoding |
| `Receipts.ResponseRoundTrip` | src/opoi/b3lite_audit.rs:370-376 | the auditor reads back exactly the generated tokens from a response |
| `Receipts.BuildResponse` | src/opoi/shard_engine.rs:1717-1723 | the loop builds the response text |
| `Bytes.HexRoundTrip` | src/opoi/b3lite_audit.rs:363-376 | decoding hexadecimal text undoes encoding it |

## Left out

- SpeculativeDecoding.RoundEndsAfterEveryAck: an acknowledgement with `ok: false` also ends the wait, as in the code; the cache theorems assume successful ones.
- SpeculativeDecoding.RoundsAreBounded: bounds the rounds of a run, not its time; acknowledgements and replies may never come, since rollbacks are routed best-effort and not resent.
- SpeculativeRound.NextK: the rate is compared by integer cross-multiplication instead of floating-point division.
- SpeculativeEngineRuns.ServeAll: says nothing of a request id that is started twice.
- ShardEngineRuns.ServeAll: says nothing of a request id that is started twice.
- ShardEngines.ShardEngine.FinalizePipeline: the optional audit receipt recorded before the submission is not kept in the engine's state; its encoding is in `Receipts`.
- ShardRuns.SubmittedOnceIffNeverInVain: counts submissions the bridge was told succeeded; one that lands although its call timed out, or whose handler is dropped while it waits, is not counted.
- ShardEngines.ShardEngine.Settle: reading a position past the last shard, which only a run that is not orderly can reach, would panic; the model reads an empty shard there.
- ShardRuns.RepliesAreAccountedFor: counts 32-bit contribution counters as unbounded.
- ExpertCombine.CombineWeighted: works on reals; f32 rounding, and the bytes of a float, are not modelled.
- ExpertDispatchers.ExpertDispatcher.RunTask: waiting and time-outs are events; the 300-second duration is not modelled.
- GgufReader.ParseTensorInfos: turns name bytes into text through a parameter (`from_utf8_lossy`); the depth of the call stack on deeply nested arrays is not modelled.
- ExpertVramCache.SecondAnswerIsFreshIffSharesAgree: for files whose tensor sizes in the range fit 64 bits and whose header parses; otherwise the sizes wrap, as `ExpertVram.ElementsWrap` says, or there is no answer.
- ExpertVram.WalkLayers: counts layers without a 32-bit limit; a table within the parser's caps never reaches it.
- LedgerTables.LedgerTable.DoCommit: renewing a suspended stake and waiting between rounds are not modelled; a round's replies are an argument.
- LedgerTables.LedgerTable.RunPayout: amounts are reals, not floating-point numbers.
- Ledgers.NoRowEntersTwoPayouts: a crash between sending a payout and marking its rows, which the source names as a known risk, is excluded by atomicity.
- SHA-256, HMAC, the tokenizer and the auditor subprocess: foreign code; hashes are opaque text and token counts are arguments.
- The whole-range expert path without a step number on a shard that has experts: never dispatched, and ruled out by `ShardRuns.AssignmentIsCurrent`.
- Which engine serves a request: a reply for a request with a speculative pipeline is handed to that engine; the model treats the two engines' requests as separate.
- The fetch itself, HTTP, RPC, SQL text, the wire format and configuration: input and output.
- OpoiEngines.OpoiEngine.HandleSubmitResult: the informational model name, prompt hash and token count of a row are not modelled, and the digest is a parameter.
- OpoiEngines.OpoiEngine.PollAndAssignTick: an error of the chain or the database that ends a tick early is the tick with a shorter list.
- Stake pool, rate limiter, audit sampling and its consequences policy, topology reports: short, and they would add only easy statements.
