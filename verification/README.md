# Dexa: a verified model

Dexa keeps a language model's KV cache across turns, edits and sessions, and builds serving
experiments around it. Most of its hard code is a fast form of something simple: a cache that is
extended, sliced or partly reused instead of prefilled again, a scheduler that stops early, a
background run served in place of a real one, a padded tensor in place of ragged heads, a bit trick in
place of rounding. This project models those pieces in Dafny and proves that the fast form and the
simple one agree, over every input, run or schedule, or says exactly when they do not.

| module | component |
|---|---|
| `VerifierCost`, `RoundEngine`, `VerifierSched`, `VerifierSchedSafety`, `VerifierSchedBill` | verifier-guided sampling: post-hoc cost formulas, the round engine, the continuous scheduler with aborts, the naive baseline |
| `Transformer`, `SegmentPlan`, `KvSession`, `HfBackend` | the segment planner, the on-device session, the portable backend and its decoders |
| `Rope`, `SelectiveRecompute`, `SelectiveBlend`, `Orders` | reuse of moved segments, key re-phasing, selective blending |
| `SpecExec`, `SpecAccounts`, `SpecServing` | speculative tool execution: both live loops and the replay |
| `BudgetAllocation`, `IndexSelection`, `PaddedAttention`, `PaddedDecode` | compaction: per-head budgets, index selection, padded and biased attention |
| `FloatCodec`, `Blob`, `PagedBlocks` | bf16 and half rounding, the blob file, paged blocks |
| `PrefixReuse` | the prefix-reuse cache |
| `Tiering`, `KeyResolver`, `KeyRuns` | storage tiers, API keys behind a short-lived cache |
| `Arith`, `Wrappers` | shared arithmetic facts and outcome types |

How foreign parts enter:

- A causal transformer is two functions, the cache column and the logits of a token given the columns
  before it, its position and itself. Prefill is a fold of the first, and nothing else is assumed. The
  selective results add rotary keys whose rotations obey the angle-addition formulas.
- The inference engine of the schedulers is an environment that delivers outputs in any order, may
  finish or abort requests at any time, and answers a request truthfully at most once.
- A sandbox is a tree with one function per command; a background run gets done at a moment the environment
  chooses, and leaves any part of its effect when it is killed. The agent is any function from what it has
  seen to its next call. Regular expressions and the canonical form of commands are given predicates.
- Sorting by numpy is a parameter that returns any descending order, so every tie-break is covered.
- Hashes are functions; where the code relies on it, the prefixes or segments at hand are assumed not
  to collide. Clocks, ids and random tokens are parameters. Real-valued scores, costs and attention
  weights are mathematical reals; integer bit patterns are exact.

Findings, each proved with its exact condition:

- The round engine always draws whole rounds, so with `B` not dividing `N` it can accept a problem that
  best-of-`N` rejects. Its verdict is the naive one for all inputs if and only if `B` divides `N`.
- The per-head budgets sum to `t * n_kv`, as documented, unless `t` is 0 below `T` with a sensitivity
  allocation over at least one head: every head then still gets one key.
- The mask that keeps non-candidates out of a selective blend is consulted by one strategy only. Selecting
  by deviation, only candidates are picked if and only if no more tokens are asked for than there are
  candidates; selecting the most recent, if and only if the last places of the candidates' hull are all
  candidates; selecting at random, if and only if the first shuffled places are.
- `half_from_f32` claims the standard IEEE cast. It is correctly rounded for a finite number if and only
  if the magnitude is at most 2^-25 or at least 2^-14; in between it flushes to zero.
- A cartridge taken to token-major layers and stacked again comes back if and only if it has a layer.
  Token-major layers stacked and taken apart again come back if and only if there is a layer and all keys
  and values have one shape; keys and values that differ only from each other are stacked without
  complaint and refused on the way back.
- The bf16 packing keeps a NaN a NaN if and only if its magnitude bits lie strictly between `0x7f808000`
  and `0x7fff8000`; below it becomes infinity, above a zero of the opposite sign.
- The Python and TypeScript tier decisions agree for every size but zero, where the guarded quotient
  keeps the session warm and the bare one drops it.
- A rotation mints a live replacement if and only if the organisation has the key and the new id and hash
  are unused, so rotating a key that was already revoked succeeds as well.
- Missing keys are remembered like found ones, so a freshly minted key resolves at once if and only if its hash was not
  presented less than a cache lifetime before.

## Model

| member | source | states |
|---|---|---|
| VerifierCost.FirstPassIdx | evals/modal_verifier_search.py:90-94 | the index found is a pass with no pass before it, and none is found only when no sample passes |
| VerifierCost.BatchedCost | evals/modal_robustness.py:115-124 | the loop's bill is the token prefix up to the end of the round of the first pass, or everything when none passes |
| VerifierCost.SearchCosts | evals/modal_verifier_search.py:96-119 | the four accumulators are the number of problems some sample solves and the naive, one-by-one and batched totals over all problems |
| VerifierCost.StrategyOrder | evals/modal_verifier_search.py:100-119 | one-by-one stop, batched stop and no stop draw increasingly many samples, and all three see the same verdict |
| VerifierCost.CostOrder | evals/modal_verifier_search.py:98-119 | one-by-one total <= batched total <= naive total, for all problems and batch sizes |
| VerifierCost.StopsInRound | evals/modal_robustness.py:120-123 | a pass in round r, none before, makes the batched stop exactly the end of round r |
| RoundEngine.Round | evals/modal_verifier_engine.py:98-114 | after every round the unsolved list is, in order, exactly the problems all of whose samples so far failed, the flags mark the others, and the tokens are the early-stop bill for the samples drawn so far |
| RoundEngine.Run | evals/modal_verifier_engine.py:91-116 | at the end the token count equals the sum over problems of the post-hoc batched formula on the samples drawn, and a problem is solved exactly when one of them passes |
| RoundEngine.RoundBill | evals/modal_verifier_engine.py:107-112 | one more round adds to the early-stop bill exactly what the still-failing problems draw |
| RoundEngine.VerdictIsNaiveIff | evals/modal_verifier_engine.py:93-116 | the engine's verdict is best-of-N for every sample row if and only if B divides N |
| VerifierSched.Scheduler.constructor | evals/modal_verifier_sched.py:102-119 | the state before the loop: the first wave of min(B, N) samples of every problem in flight |
| VerifierSched.Scheduler.Launch | evals/modal_verifier_sched.py:108-115 | k fresh request ids become active, launched and in flight for one problem, nothing else changes |
| VerifierSched.Scheduler.Handle | evals/modal_verifier_sched.py:121-139 | one output drives the state machine: ignored, counted, solved with siblings aborted but left active, or the next wave launched |
| VerifierSched.Scheduler.Drive | evals/modal_verifier_sched.py:120-139 | the step loop is the run of the state machine over all delivered outputs in order |
| VerifierSchedSafety.DeliverKeepsInv | evals/modal_verifier_sched.py:121-139 | every output an honest engine can deliver keeps the invariant: in-flight counts equal active requests, one wave in flight at a time, all earlier waves failed, tokens accounted |
| VerifierSchedSafety.RunKeepsInv | evals/modal_verifier_sched.py:117-139 | the invariant holds after every honest run, in every order of finishes and aborts |
| VerifierSchedSafety.ScheduleIndependence | evals/modal_verifier_sched.py:102-167 | when the loop drains, each problem is solved exactly when one of its N samples passes, and has launched exactly the samples the post-hoc batched stop pays for |
| VerifierSchedSafety.LaunchedBound | evals/modal_verifier_sched.py:138-139 | at no moment has a problem launched more than its batched early stop |
| VerifierSchedSafety.CostSandwich | evals/modal_verifier_sched.py:108-139 | at every moment of every run the bill, partial tokens of aborted siblings included, is at most the batched early-stop total, which is at most the naive total |
| VerifierSchedSafety.DeliverUsesWork | evals/modal_verifier_sched.py:120-139 | unlaunched plus in-flight samples go down by one with every answered request and never up |
| VerifierSchedSafety.RunsAreBounded | evals/modal_verifier_sched.py:120-139 | a run answers at most n*N requests, and until it drains some honest output makes progress |
| VerifierSchedSafety.NaiveBaseline | evals/modal_verifier_sched.py:147-167 | in any order of outputs the baseline flags exactly the problems with a passing sample and bills every sample |
| VerifierSchedBill.ActiveIsOutstanding | evals/modal_verifier_sched.py:121-139 | in every run, honest or not, the scheduler waits for exactly the requests that were launched and not answered yet, aborted ones included |
| VerifierSchedBill.BillIsExact | evals/modal_verifier_sched.py:121-131 | after every run the bill is the sum of the tokens of all answers to requests launched and not answered before, whether their problem was solved by then or not |
| VerifierSchedBill.BillSplits | evals/modal_verifier_sched.py:128-137 | at every moment of an honest run the bill is the full tokens of the samples settled so far plus exactly what aborted requests reported |
| VerifierSchedBill.DrainedBill | evals/modal_verifier_sched.py:128-139 | a drained run has paid every launched sample that was not aborted in full, and on top only what aborted ones reported |
| VerifierSchedBill.AbortedSiblingIsBilled | evals/modal_verifier_sched.py:134-137 | a sibling that reports 7 tokens after its problem was solved for 10 makes the bill 17 |
| Transformer.ExtendPrefill | src/dexa/engine/hf_backend.py:627-642 | forwarding a suffix over the prefill of a prefix gives the prefill of the whole |
| Transformer.TruncatePrefill | src/dexa/engine/hf_backend.py:655-662 | the first n columns of a prefill are the prefill of the first n tokens |
| Transformer.LogitsOverPrefill | src/dexa/engine/hf_backend.py:448-490 | row i of a decode over a context is the last logit of context plus the first i+1 tokens |
| Transformer.ForwardAt | src/dexa/engine/hf_backend.py:448-490 | over any columns, the i-th token fed is cached for the start position plus i, not for the number of columns before it |
| SegmentPlan.CommonPrefixLen | src/dexa/segment/plan.py:28-36 | the counter stops at the longest prefix of segments with equal content |
| SegmentPlan.BuildPool | src/dexa/segment/plan.py:67-70 | every content maps to the previous segments past the prefix that have it, in order |
| SegmentPlan.PoolTake | src/dexa/segment/plan.py:83-89 | popping takes the first untaken previous segment of that content and leaves the pool of the rest |
| SegmentPlan.PlanOne | src/dexa/segment/plan.py:74-98 | the decision for one segment extends a good plan by a good item and keeps the pool in step |
| SegmentPlan.PlanIncremental | src/dexa/segment/plan.py:39-103 | in both modes the items tile [0, total), reuse is as the mode allows, exact means nothing is shifted, and only an unknown mode fails |
| SegmentPlan.ReusedOnce | src/dexa/segment/plan.py:81-92 | two shifted items never share a previous segment, and equal contents are matched in order |
| SegmentPlan.PlannedItem | src/dexa/segment/plan.py:74-98 | reused segments carry the same tokens, exact reuse keeps its place, and a shift is the difference of the offsets |
| SegmentPlan.PlanReuse | src/dexa/segment/model.py:128-129 | the exactly reused tokens of a plan are the tokens of the common prefix |
| KvSession.TorchKVSession.constructor | src/dexa/engine/torch_session.py:43-50 | a new session holds the prefill of its tokens, or no cache when there are none |
| KvSession.TorchKVSession.Append | src/dexa/engine/torch_session.py:60-72 | the resident cache stays the full prefill of the token list, which grows by the appended tokens |
| KvSession.TorchKVSession.Truncate | src/dexa/engine/torch_session.py:74-85 | the resident cache stays the full prefill of the token list, which is cut as the slice does, in a new cache object when anything is dropped |
| KvSession.TorchKVSession.EditSuffix | src/dexa/engine/torch_session.py:87-92 | afterwards the session holds the prefill of the kept prefix followed by the new tail, having forwarded only the tail |
| KvSession.TorchKVSession.Apply | src/dexa/engine/torch_session.py:94-103 | the session ends on exactly the new context's tokens, reusing exactly the common segment prefix |
| KvSession.TorchKVSession.Greedy | src/dexa/engine/torch_session.py:106-136 | the incremental loop returns the greedy response to the session's tokens and leaves the session untouched |
| KvSession.TorchKVSession.Clone | src/dexa/engine/torch_session.py:147-155 | the clone is a session over the same tokens with a cache object of its own |
| KvSession.GreedyLoop | src/dexa/engine/torch_session.py:118-136 | one forward a token over a growing cache yields the response that re-decoding would, and the grown cache is its prefill |
| KvSession.SharedTokens | src/dexa/segment/plan.py:28-36 | the common segment prefix is the same tokens in both contexts, so kept tokens plus the new tail are the new context |
| KvSession.StepForest | src/dexa/engine/torch_session.py:60-155 | any operation on one of many sessions changes only that session and keeps every other one the prefill of its own tokens |
| KvSession.RunForest | src/dexa/engine/torch_session.py:60-155 | over every run of append, truncate, edit, apply and clone, each session's cache is the prefill of the tokens its own operations produced |
| HfBackend.ExtendIsPrefill | src/dexa/engine/hf_backend.py:627-642 | extending the portable cache of a context gives the cache of a full prefill of the longer context |
| HfBackend.SliceIsPrefill | src/dexa/engine/hf_backend.py:655-662 | slicing it gives the full prefill of the shorter context, positions and tokens included |
| HfBackend.RecomputeIncremental | src/dexa/engine/hf_backend.py:664-691 | the incremental recompute returns the full prefill of the new context, reusing exactly the common prefix |
| HfBackend.DropLastIsPrefill | src/dexa/engine/hf_backend.py:492-510 | over a full cache, dropping the last position fails only on an empty context, returns the shorter prefill and the last token, and feeding that token again restores the context |
| HfBackend.KeepAllRefeeds | src/dexa/engine/hf_backend.py:511-537 | for a compact cache that kept everything the dropped slot is the last position: re-feeding is exact, and every next logit is that of the full text |
| HfBackend.DropLastIff | src/dexa/engine/hf_backend.py:492-537 | exactly when a context has a last token to feed again, and which one |
| HfBackend.CompactRows | src/dexa/engine/hf_backend.py:448-537 | over a compact context tokens stand at its logical length and on, however many columns were kept, and the token fed again stands one position before over the shortened columns |
| HfBackend.Generate | src/dexa/engine/hf_backend.py:571-604 | over any context, full or compact, each token is the best one after context, prompt and the tokens before it, and decoding fails only when there is no prompt and no last token to feed again |
| HfBackend.ResponseOnPrefill | src/dexa/engine/hf_backend.py:571-604 | over the cache of a text that response is the greedy response to text and prompt, recomputed from scratch |
| HfBackend.GenerateAndExtend | src/dexa/engine/hf_backend.py:792-825 | the incremental form gives the same response, and its grown cache is the prefill of context, prompt and response |
| HfBackend.DecodingAgrees | src/dexa/engine/hf_backend.py:792-825 | for every non-empty prompt the two decoders return the same tokens |
| HfBackend.SessionAgrees | src/dexa/engine/torch_session.py:106-136 | greedy decoding on a session equals generation from its materialised cache with an empty prompt |
| HfBackend.ToKvCache | src/dexa/engine/torch_session.py:157-161 | the materialised cache is a prefill of the session's tokens |
| HfBackend.FromKvCache | src/dexa/engine/torch_session.py:138-145 | a session rebuilt from a prefill holds that prefill |
| HfBackend.ScoreMeaning | src/dexa/engine/hf_backend.py:539-568 | over any context every score is the log-probability of its target token after everything before it; without a prompt it is scored after the context's last token over the shorter context, which is the same whenever re-feeding restores the context |
| HfBackend.ScoreOnPrefill | src/dexa/engine/hf_backend.py:539-568 | over the cache of a text, with and without a prompt, the scores are those of the text recomputed from scratch |
| HfBackend.ScoreSplits | src/dexa/engine/hf_backend.py:539-568 | scoring a concatenated target is scoring its parts one after the other, over any context with a prompt, and without one whenever re-feeding restores the context |
| HfBackend.ScoreMovesPrompt | src/dexa/engine/hf_backend.py:539-568 | moving a part of the prompt into the context changes no score |
| Rope.RotCompose | src/dexa/segment/selective.py:33-54 | given angle addition, re-phasing a key cached at position b by a gives the key at a+b, in the half-split layout the code uses |
| SelectiveRecompute.WriteSpan | src/dexa/engine/hf_backend.py:707-724 | writing one item in place changes exactly its span, to what the item's action serves |
| SelectiveRecompute.AssembleReused | src/dexa/engine/hf_backend.py:693-727 | the assembled cache is the item-by-item overlay of reused columns on the correct ones |
| SelectiveRecompute.PlanIsAssemblable | src/dexa/segment/plan.py:64-103 | every plan fits both caches: its spans and its reused segments exist and have equal length |
| SelectiveRecompute.ExactOutsideShifted | src/dexa/engine/hf_backend.py:693-727 | outside shifted segments the assembled cache is the full prefill of the new context |
| SelectiveRecompute.ShiftedIsRephased | src/dexa/engine/hf_backend.py:713-721 | inside them every token carries its old value untouched and its old unrotated keys, each rotated to the new position |
| SelectiveBlend.RecomputeSelective | src/dexa/engine/hf_backend.py:729-790 | the blended cache equals the full prefill at every token that is no candidate or was selected, the assembled reuse at the other candidates, and the full prefill everywhere when the fraction is one; selecting by deviation, no candidate left stale deviates more from the full prefill than one that is recomputed |
| SelectiveBlend.SelectMeans | src/dexa/segment/selective.py:82-108 | a selection has exactly the rounded-up quota; no passed-over token deviates more than a selected one, is more recent under the recency strategy, or comes earlier in the shuffle |
| SelectiveBlend.ChosenIsPicked | src/dexa/engine/hf_backend.py:763-772 | selecting by masked scores recomputes the candidates that deviate most, and other tokens only once all candidates are recomputed |
| SelectiveBlend.SelectsCandidatesIff | src/dexa/engine/hf_backend.py:764-772 | for each strategy, the exact condition on fraction and candidates under which only candidates are selected |
| SelectiveBlend.MaskMisses | src/dexa/engine/hf_backend.py:768-772 | two candidates around a recomputed token: the recency strategy and a large fraction both select the masked token |
| SelectiveBlend.Choose | src/dexa/engine/hf_backend.py:763-772 | the selection over the candidates' hull takes the worst candidates, the last tokens or the first shuffled ones, stays inside the candidates exactly under that condition, and fails only for an unknown strategy with something to select |
| SelectiveBlend.SpansApart | src/dexa/engine/hf_backend.py:754-758 | no position is both mandatory and a candidate |
| SelectiveBlend.SelectAll | src/dexa/segment/selective.py:82-108 | fraction one selects the whole range under every strategy |
| SelectiveBlend.OutsideCandidates | src/dexa/engine/hf_backend.py:753-777 | a token that is no candidate is recomputed or already right |
| Orders.MaskHoldsIff | src/dexa/engine/hf_backend.py:768-772 | in a descending order of partly masked scores the first k places are unmasked if and only if k is at most the number of unmasked ones |
| SpecExec.LiveLoop.Handle | experiments/speculative-tool-exec/modal/live_agent_modal.py:179-243 | one call: a pending run may get done at any moment before it, is waited for and served, killed, or left alone, then the call is logged and a run launched by rule A or B when the tree changed |
| SpecExec.LiveLoop.RunTask | experiments/speculative-tool-exec/live_agent.py:55-96 | the agent loop is the run of that state machine, for exact and for canonical matching, and the last pending run is killed |
| SpecExec.StepSim | experiments/speculative-tool-exec/modal/live_agent_modal.py:184-242 | a speculating and a plain loop in matching states stay matched through any call, because a pending result is always what its command would give now |
| SpecExec.Transparent | experiments/speculative-tool-exec/modal/live_agent_modal.py:179-246 | if speculated commands leave the tree alone and matching commands behave alike, the transcript and the tree are those of the same agent without speculation, for every agent, number of calls and timing of the background runs |
| SpecServing.ReadsLeaveRun | experiments/speculative-tool-exec/modal/live_agent_modal.py:194-226 | a read-only call is run for real and leaves the pending run, the events and what is known of the tree alone |
| SpecServing.ChangesSettleRun | experiments/speculative-tool-exec/modal/live_agent_modal.py:194-220 | a state-changing call turns a pending run into a hit exactly if it is a matching bash command, and then takes the run's result and runs nothing; otherwise the run is a miss, is killed, and the call is run for real |
| SpecServing.PlainCall | experiments/speculative-tool-exec/modal/live_agent_modal.py:213-224 | without a pending run every call is run for real and logged with its own result |
| SpecServing.LaunchedIff | experiments/speculative-tool-exec/modal/live_agent_modal.py:225-242 | a run is started exactly after a successful state-changing call that changed the tree, when rule A expects the last test again or rule B a script just created, and it is that command |
| SpecServing.AgentDecides | experiments/speculative-tool-exec/live_agent.py:55-93 | in every session the logged calls are exactly the ones the agent wanted after what it had seen, until it stops, submits or runs out of turns |
| SpecServing.ReadingKeepsRun | experiments/speculative-tool-exec/live_agent.py:63-93 | over any stretch of read-only calls of any session the pending run and the events stay as they are |
| SpecServing.ServedAfterReading | experiments/speculative-tool-exec/live_agent.py:63-93 | in every session the first state-changing call after a launch, whatever was read in between, is a hit exactly if it matches, and a hit is answered with what the run gave |
| SpecServing.EndKillsRun | experiments/speculative-tool-exec/modal/live_agent_modal.py:245-246 | at the end a run still in flight is killed without an event |
| SpecAccounts.RunKeeps | experiments/speculative-tool-exec/live_agent.py:55-93 | with no assumption on commands, at most one run is in flight and every hit is served with only read-only calls since its launch |
| SpecAccounts.LiveAccounts | experiments/speculative-tool-exec/modal/live_agent_modal.py:184-242 | launches are hits plus misses, plus one exactly while a run is pending |
| SpecAccounts.ReplaySession | experiments/speculative-tool-exec/replay.py:109-162 | for every recorded call sequence a replay kills what is pending at the end, so launches equal hits plus misses, launches and resolutions alternating |
| SpecAccounts.ReplayValidates | experiments/speculative-tool-exec/replay.py:119-141 | when speculation is harmless every hit's output is confirmed by the real run and the tree is that of a plain replay |
| SpecServing.ReplayHit | experiments/speculative-tool-exec/replay.py:119-141 | behind a hit of a replay the command is also run for real on the tree the run left, and the verdict is whether the two results agree |
| SpecServing.ReplayOther | experiments/speculative-tool-exec/replay.py:142-149 | every other recorded call is run for real and nothing is compared |
| SpecServing.ReplayChecks | experiments/speculative-tool-exec/replay.py:118-146 | in a replay the same calls are hits and misses as in a live session, and each call adds as many verdicts as hits |
| SpecServing.ReplayLaunchedIff | experiments/speculative-tool-exec/replay.py:150-162 | a replay starts the last test exactly after a successful call that changed the tree and is not that test |
| SpecServing.EveryHitIsChecked | experiments/speculative-tool-exec/replay.py:118-141 | over every replay there are as many verdicts as hits |
| SpecServing.ReplayMakesCalls | experiments/speculative-tool-exec/replay.py:109-149 | a replay makes all recorded calls in order, a recorded submit as an empty shell command |
| BudgetAllocation.AllocateBudget | src/dexa/compaction/attention_matching.py:198-245 | for 1 <= t < T the budgets lie in [min_t, T], sum to t * n_kv, and capture at least as much importance as every other allocation under the same constraints; over all inputs the sum is t * n_kv if and only if the allocation is uniform, t is at least 1 or T, or there is no head |
| BudgetAllocation.OverspendsEmptyBudget | src/dexa/compaction/attention_matching.py:221-234 | an empty budget over one head and one token still hands out one key |
| BudgetAllocation.SpendIsOptimal | src/dexa/compaction/attention_matching.py:226-245 | handing out the remaining keys along the pooled descending marginals is optimal |
| BudgetAllocation.CutSeparates | src/dexa/compaction/attention_matching.py:226-240 | the value at the cut of the pool separates what each head got from what it did not |
| BudgetAllocation.TotalExchange | src/dexa/compaction/attention_matching.py:226-245 | no other allocation of the same sum captures more: moving keys between heads gains nothing |
| IndexSelection.TopKWithRecent | src/dexa/compaction/baselines.py:59-71 | min(t, T) distinct indices in increasing order, with the whole recent window, and no dropped index scores above a kept older one |
| IndexSelection.Picker.Take | src/dexa/compaction/attention_matching.py:308-316 | a take appends the first k indices of the order that were not seen and marks them seen |
| IndexSelection.SelectHybrid | src/dexa/compaction/attention_matching.py:294-326 | min(t, T) distinct indices: the newest ones first, then the heaviest by mass among the rest, then the most important among what is left |
| IndexSelection.PicksComeFirst | src/dexa/compaction/attention_matching.py:308-316 | every pick precedes in the order everything that was passed over |
| IndexSelection.PickCount | src/dexa/compaction/attention_matching.py:308-316 | a take yields k picks or everything that was left |
| IndexSelection.SelectOmp | src/dexa/compaction/attention_matching.py:329-355 | min(t, T) distinct indices, each with the greatest normalised correlation among the free ones with the mass that the refit over the indices before it leaves unexplained |
| PaddedAttention.PhysicalLen | src/dexa/engine/hf_backend.py:363-371 | the common length covers every head's kept length and is one of them |
| PaddedAttention.BuildCompact | src/dexa/engine/hf_backend.py:373-424 | filling the zeroed buffers in place gives each head's keys and values followed by zeros, and its biases followed by sentinels, repeated to the q heads |
| PaddedAttention.RepeatAt | src/dexa/core/types.py:47-53 | row q of a repeated tensor is the row of kv head q / group |
| PaddedAttention.ScoresSplit | src/dexa/engine/hf_backend.py:448-476 | with mask and bias added, a score row is the head's own scores, then sentinels, then the causal scores, then sentinels |
| PaddedAttention.GapsDropOut | src/dexa/engine/hf_backend.py:72-80 | stretches of sentinel scores leave the softmax-weighted mean of the values unchanged |
| PaddedAttention.MixIsSoftmax | src/dexa/engine/hf_backend.py:72-80 | the attention output is the mean of the values under weights that sum to one, are zero at the sentinel and otherwise stand to each other as the exponentials of their scores |
| PaddedAttention.PaddedIsOwn | src/dexa/engine/hf_backend.py:55-83 | padded, biased, masked attention of a q head equals attention over its kv head's kept tokens and the new tokens up to itself |
| PaddedAttention.OwnMassPositive | src/dexa/engine/hf_backend.py:464-468 | every new token sees at least itself, so the softmax never divides by zero |
| PaddedDecode.BuildCache | src/dexa/engine/hf_backend.py:373-426 | the cache of a raw or a compact context, layer by layer |
| PaddedDecode.DecodeHidden | src/dexa/engine/hf_backend.py:448-490 | the decode over a context runs every layer with its own bias rows and leaves no bias behind |
| PaddedDecode.PaddedForwardIsOwn | src/dexa/engine/hf_backend.py:448-490 | through all layers, decoding over the padded cache equals decoding with ragged per-head attention |
| PaddedDecode.MakeLayer | src/dexa/compaction/baselines.py:36-50 | each head keeps its selected rows in position order with bias zero |
| PaddedDecode.GatherKeepsOrder | src/dexa/compaction/baselines.py:36-50 | the gathered keys and values are those at the selected positions, as often as selected, in increasing position |
| PaddedDecode.FullKv | src/dexa/compaction/baselines.py:74-90 | the identity compactor keeps every key and value, and the logical length |
| PaddedDecode.FullKvIsRaw | src/dexa/compaction/baselines.py:74-90 | its context builds exactly the cache and start position of the raw context |
| PaddedDecode.FullKvDecodesAlike | src/dexa/compaction/baselines.py:74-90 | every decode over it gives what decoding over the raw context gives, for all layers, heads and tokens |
| FloatCodec.Bf16IsRoundEven | native/kvcodec/src/lib.rs:35-40 | for every pattern the add-and-shift rounds the magnitude to a multiple of 2^16, ties to even, and for all but NaNs the sign is kept and carries end at infinity |
| FloatCodec.Bf16Rounds | native/kvcodec/src/lib.rs:33-40 | every finite float goes to the nearest bf16 value, ties to even, as section 4.3.1 of IEEE 754-2019 rounds |
| FloatCodec.Bf16Monotone | native/kvcodec/src/lib.rs:35-40 | a larger magnitude never packs to a smaller one |
| FloatCodec.Bf16Identity | native/kvcodec/src/lib.rs:35-40 | packing is the identity on every pattern that is already bf16 |
| FloatCodec.Bf16NanIff | native/kvcodec/src/lib.rs:35-40 | which NaN payloads survive packing, and what the others become |
| FloatCodec.HalfFromF32 | native/kvcodec/src/lib.rs:76-98 | the bit-by-bit branches compute sign, flush, infinity, or rounding of the rebiased magnitude to a multiple of 2^13 |
| FloatCodec.HalfMiddle | native/kvcodec/src/lib.rs:88-97 | for rebiased exponents 1 to 30 the result is the nearest half, ties to even |
| FloatCodec.HalfRoundsIff | native/kvcodec/src/lib.rs:74-98 | over all finite floats the cast is correctly rounded if and only if the magnitude is at most 2^-25 or at least 2^-14 |
| FloatCodec.FlushMisses | native/kvcodec/src/lib.rs:81-83 | a half subnormal that is flushed: the cast returns zero for 2^-24 |
| FloatCodec.WidenKeepsValue | src/dexa/session/blob.py:181-188 | widening a half to 32 bits keeps the value of every finite pattern, subnormals included |
| FloatCodec.WidenUndoesHalfIff | native/kvcodec/src/lib.rs:74-98 | rounding to half and widening gives a magnitude back if and only if it is zero, infinite or a normal half |
| Blob.PackRegions | native/kvcodec/src/lib.rs:131-149 | packing the chunks of all regions in any order, even repeatedly, gives the same payload bytes |
| Blob.RegionsDisjoint | native/kvcodec/src/lib.rs:135-144 | the regions follow one another without overlap and lie inside the payload |
| Blob.Locate | native/kvcodec/src/lib.rs:131-145 | every payload element lies in some region, so the regions cover the payload |
| Blob.PadAligns | native/kvcodec/src/lib.rs:162-165 | the payload starts on a multiple of the alignment, the pad is shorter than it, and the loader computes the same pad |
| Blob.StoreRounds | native/kvcodec/src/lib.rs:51-71 | what is stored per format: float32 as it is; bf16 with its sign, correctly rounded for every finite input; half with its sign, correctly rounded if and only if the magnitude is at most 2^-25 or at least 2^-14, flushed in between, infinite for infinities and NaNs |
| Blob.LittleByte | native/kvcodec/src/lib.rs:52-69 | byte i of a stored word is its i-th from the low end |
| Blob.LayoutFields | native/kvcodec/src/lib.rs:151-169 | magic, header length, header and payload are where the loader reads them, with zeros between header and payload |
| Blob.SaveBlob | native/kvcodec/src/lib.rs:107-169 | the file is magic, length, header, pad and packed slabs under every schedule, and only an unknown storage type fails |
| Blob.LoadSaved | src/dexa/session/blob.py:129-191 | loading a saved blob returns the same header and every layer's stored keys and values, keys before values |
| Blob.LoadsIff | src/dexa/session/blob.py:149-170 | a file is loaded if and only if it starts with the magic, holds the header it announces, the header is understood and names a known format, and the whole payload follows |
| Blob.WidenInverts | src/dexa/session/blob.py:163-188 | a stored element decodes to its input if and only if the format holds it: float32 always, bf16 when the low 16 bits are zero, half for zeros, infinities and normal halves, signs included |
| Blob.SaveThenLoad | src/dexa/session/blob.py:129-191 | slabs saved under any schedule, loaded and widened are the inputs, in all three formats, whenever the format holds every element |
| PagedBlocks.TransposeRoundTrip | src/dexa/engine/vllm_cartridge.py:110-149 | a cartridge split into token-major layers and stacked again is itself if and only if it has a layer |
| PagedBlocks.StackRoundTrip | src/dexa/engine/vllm_cartridge.py:110-149 | token-major layers stacked and split again are themselves if and only if there is one and all keys and values have one shape |
| PagedBlocks.StackMisses | src/dexa/engine/vllm_cartridge.py:129-149 | keys and values of different dimension are stacked, and the result is refused on the way back |
| PagedBlocks.PackIntoBlocks | src/dexa/engine/vllm_cartridge.py:152-174 | just enough blocks, slot i holding token i, all further slots zero, and only a non-positive block size fails |
| PagedBlocks.SlotIs | src/dexa/engine/vllm_cartridge.py:158-162 | slot i is read at block i / size, offset i % size |
| PagedBlocks.PacksUnique | src/dexa/engine/vllm_cartridge.py:152-174 | the contract of packing determines the blocks |
| PagedBlocks.PagedRoundTrip | src/dexa/engine/vllm_cartridge.py:110-174 | transposing, packing, reading back and transposing again recovers every key and value, for all shapes and block sizes |
| PrefixReuse.LMCacheStrategy.constructor | src/dexa/bench/lmcache_baseline.py:79-101 | a new strategy has served nothing and stored nothing |
| PrefixReuse.LMCacheStrategy.ServeBlocks | src/dexa/bench/lmcache_baseline.py:112-129 | the block loop keeps the store sound and, without eviction, complete; its reuse is the longest prefix seen |
| PrefixReuse.LMCacheStrategy.Process | src/dexa/bench/lmcache_baseline.py:103-142 | reused plus recomputed tokens are all tokens and the reused blocks are exactly the leading ones, under any eviction; with distinct hashes every block is served with what computing it gives, and without eviction the reuse is the longest block-boundary prefix seen before |
| PrefixReuse.BlockKeeps | src/dexa/bench/lmcache_baseline.py:114-129 | one block keeps the store exactly the keyed prefixes served so far, each with what recomputing it gives |
| PrefixReuse.HitIsRecompute | src/dexa/bench/lmcache_baseline.py:116-121 | a found key stands for this very prefix, so the loaded entry is what recomputing would store |
| PrefixReuse.SameStart | src/dexa/bench/lmcache_baseline.py:39-40 | the end of a block determines its start, whichever request it belongs to |
| PrefixReuse.MissIsLongest | src/dexa/bench/lmcache_baseline.py:118-123 | a first miss means that no longer boundary prefix was seen, so recomputing everything after it loses nothing |
| PrefixReuse.ReserveLoadsAll | src/dexa/bench/lmcache_baseline.py:114-129 | a request that was served before recomputes nothing |
| Tiering.ProfileForTs | edge/src/tiering.ts:21-38 | the TypeScript loop returns the Python lookup's profile for every size |
| Tiering.ProfileRises | dexa_platform/sessions/tiering.py:35-47 | every component of the profile increases strictly and continuously, across all pieces |
| Tiering.ProfileWorthwhile | dexa_platform/sessions/tiering.py:35-47 | at every positive size restoring is cheap enough for the break-evens to be ordered |
| Tiering.BreakevensTs | edge/src/tiering.ts:42-55 | the TypeScript break-evens are the Python ones for every size but zero, where all three are not a number |
| Tiering.BreakevensOrdered | dexa_platform/sessions/tiering.py:57-69 | 0 < warm < ram < nvme for every positive size |
| Tiering.BreakevenMeans | dexa_platform/sessions/tiering.py:57-69 | up to a tier's break-even, and not past it, keeping the session there costs no more than re-prefilling |
| Tiering.DecisionIsWarmestWorthwhile | dexa_platform/sessions/tiering.py:83-93 | the chosen tier never costs more than re-prefilling, and every warmer one would; dropping means that every tier would |
| Tiering.ColderWithIdle | dexa_platform/sessions/tiering.py:83-93 | longer idling never moves a session to a warmer tier |
| Tiering.DecideTs | edge/src/tiering.ts:59-67 | the TypeScript decision is the Python one for every size but zero, where it drops what Python keeps warm |
| KeyResolver.Accounts.CreateKey | dexa_platform/control/accounts.py:28-61 | a valid environment and fresh columns add one live row; any error changes nothing |
| KeyResolver.Accounts.Revoke | dexa_platform/control/accounts.py:70-76 | revokes exactly the organisation's own live key and reports whether it did |
| KeyResolver.Accounts.Rotate | dexa_platform/control/accounts.py:79-88 | revokes and replaces in one transaction |
| KeyResolver.LookupIff | dexa_platform/control/resolver.py:76-85 | the database answers for exactly the hashes of live keys whose organisation exists |
| KeyResolver.MintSucceedsIff | dexa_platform/control/accounts.py:28-35 | a key is minted if and only if the environment is known and its id and hash are unused, and what its secret, hash and visible prefix are |
| KeyResolver.RevokeSucceedsIff | dexa_platform/control/accounts.py:70-76 | a revocation succeeds if and only if the organisation has the key and it is live; then that key resolves to nothing and all others as before, and otherwise nothing changes |
| KeyResolver.RotateSucceedsIff | dexa_platform/control/accounts.py:79-88 | a rotation mints a replacement if and only if the organisation has the key, revoked or not, and the new id and hash are unused |
| KeyResolver.RotateRevivesRevoked | dexa_platform/control/accounts.py:79-88 | rotating a key that was already revoked leaves it dead and yields a key that resolves |
| KeyResolver.RotateReplaces | dexa_platform/control/accounts.py:79-88 | after a successful rotation the old key resolves to nothing, the new one to a principal of the same organisation and name, and all others as before |
| KeyResolver.MockedIff | dexa_platform/control/resolver.py:36-56 | a tenant is mocked exactly when it asked for it or has no backend to go to; its own backend comes first, the shared pool serves hosted organisations only |
| KeyResolver.Resolver.Resolve | dexa_platform/control/resolver.py:64-85 | answers from a live cache entry or else from the database, caching found and missing keys alike |
| KeyResolver.Resolver.Invalidate | dexa_platform/control/resolver.py:87-91 | forgets one secret, or everything for none or the empty one |
| KeyResolver.EveryRunKeeps | dexa_platform/control/resolver.py:64-91 | over every run, from the empty database, of create, revoke, rotate, organisation changes, resolve, invalidate and clock ticks, each cache entry is what the database gave at the instant it was taken, and no revoked key comes back |
| KeyResolver.EveryAnswerIsRecent | dexa_platform/control/resolver.py:64-85 | after every run each answer is one the database gives now or gave less than ttl ago, and exactly the current one when nothing is cached |
| KeyResolver.RevokedNeverResolves | dexa_platform/control/accounts.py:70-76 | in every run a key revoked at least ttl ago never resolves, whatever happened before the revocation and since |
| KeyRuns.OthersResolveToNothing | dexa_platform/control/keys.py:31-32 | what does not start like a key resolves to nothing and is not remembered |
| KeyRuns.InvalidateForgets | dexa_platform/control/resolver.py:87-91 | at the end of any run, forgetting a secret makes it be looked up again at once and changes the answer to no secret of another hash |
| KeyRuns.InvalidateAllForgets | dexa_platform/control/resolver.py:87-91 | forgetting none or the empty secret makes every secret be looked up again |
| KeyRuns.RevokedAndForgotten | dexa_platform/control/resolver.py:87-91 | in every run a key that was revoked and later forgotten never resolves again, without waiting for an expiry |
| KeyRuns.AnswerLasts | dexa_platform/control/resolver.py:64-74 | an answer taken from the database is given again until the cache lifetime is over, whatever happens to the database, unless it is forgotten |
| KeyRuns.MintedResolves | dexa_platform/control/accounts.py:28-61 | a key minted in any run looks like a key and the database answers for it; presented at once it resolves if and only if the missing key is not still remembered |
| KeyRuns.RotatedResolves | dexa_platform/control/accounts.py:79-88 | after a rotation in any run, of a live or a revoked key, the old key is dead and the new one live, and it resolves at once if and only if it is not remembered as missing |
| KeyRuns.SavedOrgIsServed | dexa_platform/control/resolver.py:76-85 | after an organisation changed in any run, all its live keys are looked up to its new settings |
| KeyRuns.SilenceExpires | dexa_platform/control/resolver.py:64-74 | after a cache lifetime in which nothing happens every answer is looked up again |

## Left out

- GPU kernels, inference engines, containers, HTTP and SQL: the engine is an environment, the sandbox a tree with command functions, the database a table with its unique columns.
- Floating-point rounding in attention, softmax, the importance scores, the bias and value fits and the trigonometry of rotary embeddings: reals and given functions stand for them.
- The finite sentinel of the attention mask: it is a score of weight zero, which is what the exponential rounds it to.
- The byte identity with numpy that the codec claims for half-precision subnormals and for NaNs: the code flushes the first and turns the second into infinities, and only finite floats are rounded here.
- The fast path that reinterprets stored bf16 bits on the device: it yields the same values as the widening path that is modelled.
- Array ranks of the paged-block helpers: a wrong number of dimensions cannot be expressed, mismatched shapes can.
- Moves of entries between the tiers of the store, its capacities and its latency accounting: an entry is present or was evicted, and eviction is arbitrary. The tenant of an index entry is fixed.
- Sampling with a temperature and stop strings in the decoders: only greedy decoding.
- Timeouts of speculative runs and the time they save; the trimming of long outputs and histories shown to the agent.
- SpecExec.Transparent: does not show that commands of one canonical form, a leading hop into the working directory dropped and whitespace collapsed, behave alike, because whitespace inside quotes can matter; it is a condition of the theorem.
- SpecExec.LiveLoop.Handle: a background run that gets done acts on the tree at one moment between its launch and the call that waits for it; effects spread over several calls appear only for killed runs.
- IndexSelection.SelectOmp: the column norms and the non-negative least-squares refit are given functions, because square roots and the solver are numerics.
- HfBackend.Generate: a compact cache is given by the columns it builds into after each number of dropped slots; how heads of different lengths build into columns is the subject of PaddedAttention.
- SelectiveBlend.RecomputeSelective: takes the per-token deviation as a given function of the two columns, because its square roots are numerics.
- SpecExec.LiveLoop.RunTask: keeps the status set up to date in both loops, although the loop with exact matching never reads it.
- Blob.LoadsIff: refuses a header cut short by the end of the file by itself, which the loader leaves to its JSON parser.
- KeyResolver.Resolver.Resolve: a whole resolve happens at one instant; a lookup that returns later only makes its answer fresher than stated.
- KeyResolver.EveryRunKeeps: sign-up, credits and usage ledgers are not events of a run; organisations may change arbitrarily.
- Segment versions and names, pretty-printed plans, savings reports, benchmarks, dashboards and task generators: they would only add easy members.
