# RocketLLM: a Dafny model of its decoding, parsing and caching cores

RocketLLM runs language models larger than the memory they run in. This project models the parts of it
where several pieces of state have to agree, and proves what they promise:

- **Speculative decoding** (`Distributions`, `Speculation`, `SpeculationRun`, `SpecDecoder`). A draft model
  proposes tokens, the target verifies them in one pass, two KV caches and a token sequence are kept in step
  by crops. A generation is a finite randomized program over exact reals; the objects that run it are proved
  to follow that program on a tape of uniform draws.
- **Reading tool calls from growing text** (`ValueSpan`, `KeyScan`, `ToolCalls`, `ToolCallsPathFree`,
  `ToolCallsCuts`, `ToolCallStream`, `Json`, `CallPayloads`, `HermesRoundTrip`, `MistralRoundTrip`,
  `ToolCallsProgress`). The resumable value scanner, the Hermes and Mistral syntaxes, the stream that turns
  text into content and calls, and what a client has been sent at any moment.
- **Stop sequences** (`StopSink`). Incremental decoding, the hold-back, and what a client receives.
- **The int4 KV cache and its checkpoints** (`Rounding`, `Arithmetic`, `Quantizer`, `KVCache`,
  `CacheRollback`, `Checkpoints`). The quantizer in exact arithmetic, group-aligned flushing, rollback,
  capture and restore.
- **The prefix cache** (`HostCopies`, `BlockStore`, `PrefixHash`, `PrefixCache`, `PrefixLookup`,
  `PrefixHistory`, `PrefixKept`, `PrefixRecency`, `PrefixCacheObject`, `Sessions`). Chained hashes,
  longest-prefix lookup, a reference-counted block store under two byte-capped tiers, what lookups return and
  what evictions take told from the history of uses, and a generation that captures checkpoints into the
  shared store as it runs.
- **The tiered weight cache and its planner** (`WeightCache`, `WeightCacheRuns`, `WeightCacheLimits`,
  `WeightCacheUse`, `WeightCacheOrder`, `WeightCacheObject`, `CyclicScan`, `Placement`, `BudgetGlue`). Device,
  host and storage residency, what an expert's count means and the order weights leave in, pinning by greedy
  knapsack, the cyclic scan of the layers, and following a moving budget.
- **Host staging buffers** (`Staging`). Leased slots, scratch buffers and a byte budget.

A model forward is a function from a token prefix to logits, a KV cache is the token sequence it holds, a
tensor is a sequence of reals, and each locked method is one atomic step. Objects that the code updates in
place are classes; each of their methods is proved equal to a function on a value describing the object, and
the properties are proved of that function over all runs.

## Where the code and its promises part

Each of these is modelled as the code has it; the condition under which the promise holds is proved,
and where it can fail an input or a run that breaks it is given.

- The text pushed to a tool-call stream may be cut anywhere without changing the answer exactly when every
  closed call's arguments end inside its object (`ToolCallsCuts.CutsAgreeExactly`); with a stray quote two
  cuts of one text leave different calls (`ToolCallsCuts.OverrunExample`). This assumes of the JSON string
  decoder that a string cut short is handed back unchanged and that no longer text decodes to it
  (`ToolCallsCuts.DecoderSound`).
- Finishing a stream stops after a closed object that never named a function, and what follows is never
  emitted (`ToolCallStream.FinishReadsAllExactly`, `ToolCallStream.FinishStopsShort`).
- The streamed deltas are the text before the stop without trailing replacement characters, except when what
  was sent early already ended in one and only such characters followed (`StopSink.DeliveredExactly`,
  `StopSink.PartialLeftIn`).
- Packing makes an odd number of codes up with a zero that restoring does not take off again: quantized
  history reads back for all chunkings exactly when the group size and the padded value width are even
  (`KVCache.ReadsExactly`), and a lane of one value comes back as two (`Quantizer.DecodeEncode`).
- A rollback stays clear of the quantized blocks in every run exactly when the lookahead does not exceed the
  exact window (`CacheRollback.RollbackFitsExactly`).
- The prefix index keeps one tail for each link and length. Over every run it leads to a stored name exactly
  when the last put kept at that link and length was of it (`PrefixHistory.ListedExactly`), so a later prefix
  hides an earlier one until a put of that one is kept again (`PrefixHistory.ShadowedStaysLost`), and putting
  it again while it is resident does not bring it back (`PrefixHistory.RePutDoesNotHelp`).
- `put` says it kept an entry whose name was new even if making room for it evicted that entry at once: it is
  resident afterwards exactly when it fits in the capacity by itself, and stored exactly when it is resident or
  its file was written within the spill cap (`PrefixKept.KeptIsStoredExactly`, `PrefixKept.KeptButGone`).
- A later checkpoint of a generation reuses host copies through a memo that outlives them. It raises, instead
  of costing nothing but the checkpoint, exactly when it is wanted under a new name and some remembered copy
  has been freed (`Sessions.RaisesExactly`). A generation alone on the cache whose kept checkpoints each fit in
  the capacity never does (`Sessions.GenerationSurvives`); one whose first checkpoint does not fit fails at its
  second (`Sessions.SecondCheckpointFails`), and such a failure can leave counts nobody will lower
  (`Sessions.FailureOvercounts`).
- Acquiring a weight enforces the window before counting the new user: a new unpinned dense layer that fits
  pushes itself out exactly when a window's worth of such layers is being read
  (`WeightCacheRuns.AcquireSettlesExactly`, `WeightCacheRuns.SecondLayerIsLost`).
- Promotion from the host does not enforce the window. A dense miss does (`WeightCacheLimits.DenseMissEnforces`)
  and no run without promotions or new plans outgrows it (`WeightCacheLimits.WindowHolds`); when a promotion
  leaves the device overfull is `WeightCacheLimits.PromotionOverfillsExactly`, a run that does is
  `WeightCacheLimits.PromotionOverfills`.
- An entry evicted from host memory is discarded with its payload already cleared: payloads are conserved
  exactly as long as that has not happened (`WeightCacheRuns.PayloadsConserved`), which a host tier that is
  absent or holds every key asked for makes sure of (`WeightCacheLimits.NothingIsLost`), and a run in which it
  happens is `WeightCacheLimits.HostEvictionClears`.
- Nothing is evicted at capacity zero (`BudgetGlue.ZeroKeepsEverything`).
- A target cache handed in that already holds the whole prompt passes the length check and then leaves a
  logit column too few; `SpecDecoder.SpeculativeDecoder.Generate` reports it as an outcome of its own.

## Model

| member | source | states |
|---|---|---|
| Speculation.SpeculationIsExact | rocketllm/spec/draft.py:386-439 | for every draft, target, adaptive width and end-of-sequence set, every function of the sequence a speculative generation returns has the same mean as under the target's own token-by-token sampling, so each string has the target's probability |
| Speculation.RejectionSampling | rocketllm/spec/draft.py:425-439 | accepting with min(1, p/q) and redrawing a rejection from the normalised positive part of p - q draws from p |
| Speculation.AcceptsByRatio | rocketllm/spec/draft.py:397-418 | a proposal the target likes no less than the draft is always accepted, also one the draft gives no mass to; one the target rules out never; any other with probability p/q |
| Speculation.GreedyTakesBest | rocketllm/spec/draft.py:184-203 | without sampling or at no temperature all mass is on the first of the largest logits |
| Speculation.WarpedAlike | rocketllm/spec/draft.py:529-551 | proposals and verification see the two models' distributions under one and the same sampling settings |
| Distributions.PickIsInterval | rocketllm/spec/draft.py:220-229 | each outcome is drawn for an interval of uniform draws as long as its probability |
| Distributions.DecidedIsInterval | rocketllm/spec/draft.py:413-420 | a proposal is accepted for an interval of draws as long as its probability, and a settled decision reads no draw |
| Speculation.RejectionHasResidual | rocketllm/spec/draft.py:433-438 | after a proposal with p below q the residual has positive mass, so the fallback to p is unreachable |
| Speculation.NoResidualMeansEqual | rocketllm/spec/draft.py:433-438 | the residual is empty only when p and q are the same distribution |
| Speculation.RestIsValue | rocketllm/spec/draft.py:556-587 | what one pass leaves after any number of proposals is worth exactly continuing with the target |
| SpeculationRun.GenerationIsRun | rocketllm/spec/draft.py:529-591 | going pass by pass on a tape of uniform draws is running the randomized program on that tape |
| SpeculationRun.GreedySpeculationIsGreedy | rocketllm/spec/draft.py:529-591 | with greedy sampling a generation is plain greedy decoding cut after the first end-of-sequence token, for any draft, widths and tape |
| SpeculationRun.GreedyVerify | rocketllm/spec/draft.py:397-422 | with one-hot target distributions verification keeps the longest run of proposals that are each the greedy token, and then emits the greedy token |
| SpeculationRun.GenerationIsDrawable | rocketllm/spec/draft.py:386-439 | on every tape every token a generation adds has positive probability under the target after the tokens before it |
| SpeculationRun.GenerationBooked | rocketllm/spec/draft.py:529-591 | in every generation each pass proposes the width or the room left less one, whichever is smaller, and adds exactly that to the proposed count and what it kept to the accepted count, from which the next width follows; it stops at an end-of-sequence token or with nothing remaining |
| SpeculationRun.GreedyReadsOne | rocketllm/spec/draft.py:386-422 | greedy verification reads one uniform draw however many proposals it decides on |
| SpecDecoder.Verify | rocketllm/spec/draft.py:386-422 | the accept/reject loop counts accepted proposals, draws the token after them and reads the tape exactly as the verdict function does |
| SpecDecoder.DraftModel.Propose | rocketllm/spec/draft.py:310-341 | proposals and their distributions are the draft's on the growing prefix, each at the cost of one draft forward, and the draft cache ends as a prefix that lacks the last proposal |
| SpecDecoder.DraftModel.Crop | rocketllm/spec/draft.py:305-308 | the draft cache keeps its first positions |
| SpecDecoder.Adapt | rocketllm/spec/draft.py:469-484 | the next width is the integer nearest rate/(1-rate), ties to even, held between one and the ceiling; unchanged before anything is proposed and at the ceiling when everything was accepted |
| SpecDecoder.SpeculativeDecoder.RollBack | rocketllm/spec/draft.py:574-580 | after the crops the target cache holds the new sequence less its last token and the draft cache a proper prefix of the sequence |
| SpecDecoder.SpeculativeDecoder.Forward | rocketllm/spec/draft.py:535-569 | one pass up to its counters: it proposes the width or the room left less one, whichever is smaller; what it produces is the accepted proposals and one token within the room left, it is one step of the generation, proposed grows by the draft forwards made and emitted by accepted plus one |
| SpecDecoder.SpeculativeDecoder.Pass | rocketllm/spec/draft.py:529-587 | one pass streams exactly the tokens it adds, takes one step of the generation, counts one pass and as many proposals as draft forwards, and leaves both caches in step with all it produced, also when it ends on an end-of-sequence token |
| SpecDecoder.SpeculativeDecoder.Generate | rocketllm/spec/draft.py:486-591 | the result is the generation on the tape, greedy decoding when greedy, streamed token for token after the prompt, with emitted = accepted + passes, at most the tokens asked for, and proposed = draft forwards made; the width is the one that follows from the counters; the two failures happen exactly when the cache handed in is longer than, or as long as, the prompt |
| SpecDecoder.LogitColumns | rocketllm/spec/draft.py:549-551 | the last columns of the target pass are its distributions at each proposal and after the last |
| ValueSpan.Tracker.Scan | rocketllm/server/toolcalls.py:116-154 | scanning the text that has arrived leaves the scanner as the value function says |
| ValueSpan.AdvanceResumes | rocketllm/server/toolcalls.py:98-157 | scanning a prefix first leaves the scanner where scanning the whole text does |
| ValueSpan.ClosedIsFinal | rocketllm/server/toolcalls.py:116-118 | a closed value does not reopen |
| ValueSpan.SliceGrows | rocketllm/server/toolcalls.py:156-157 | what has arrived of a value is a prefix of what it will be |
| Json.SpanOfValue | rocketllm/server/toolcalls.py:98-157 | the span of any serialised JSON object or array (RFC 8259, sections 2 to 7) ends exactly on its last character, whatever follows |
| Json.SpanStillOpen | rocketllm/server/toolcalls.py:98-157 | and is open on every shorter text |
| KeyScan.FindNameGrows | rocketllm/server/toolcalls.py:94-94 | a name once matched stays matched to the same text as more arrives |
| KeyScan.FindArgumentsGrows | rocketllm/server/toolcalls.py:95-95 | an arguments key once followed by a value stays where it was found |
| ToolCalls.Interpret | rocketllm/server/toolcalls.py:696-737 | the loop ends, keeps its cursor inside the text and any open call at the cursor |
| ToolCallsPathFree.UpdateTwice | rocketllm/server/toolcalls.py:751-789 | reading an open call from a prefix first and then from the longer text comes to reading it from the longer text |
| ToolCallsPathFree.CloseStable | rocketllm/server/toolcalls.py:810-840 | a call whose arguments stay in its object closes the same however much text has arrived after it |
| ToolCallsPathFree.PushTwice | rocketllm/server/toolcalls.py:686-737 | pushing a prefix first changes nothing |
| ToolCallsPathFree.PathIndependent | rocketllm/server/toolcalls.py:686-840 | any cut of a text into growing prefixes leaves the cursor, content, calls and fragments that pushing it once does |
| ToolCallsPathFree.FragmentsAddUp | rocketllm/server/toolcalls.py:773-835 | in every cut, finished or not, the argument fragments sent for an index concatenate to that call's arguments and calls are numbered in order |
| ToolCallsCuts.CutThatMatters | rocketllm/server/toolcalls.py:766-786 | if some call's arguments overrun its object, cutting the text at that object's end changes the calls |
| ToolCallsCuts.CutsAgreeExactly | rocketllm/server/toolcalls.py:686-840 | no cut matters if and only if every closed call keeps its arguments inside its object |
| ToolCallsCuts.OverrunExample | rocketllm/server/toolcalls.py:766-786 | with a stray quote, pushing a prefix first leaves other calls than pushing the text at once |
| ToolCallsCuts.CallsGrow | rocketllm/server/toolcalls.py:836-840 | calls are only ever added |
| ToolCallStream.Reader.Close | rocketllm/server/toolcalls.py:810-840 | closing a call in place is the close function |
| ToolCallStream.Reader.Seek | rocketllm/server/toolcalls.py:705-737 | looking for the next call in place is the seek function |
| ToolCallStream.Reader.Push | rocketllm/server/toolcalls.py:686-737 | the object's loop ends in the state the push function gives, of which the round trips and ToolCallsProgress tell what a client has been sent |
| ToolCallStream.Reader.Finish | rocketllm/server/toolcalls.py:690-737 | and so does finishing |
| ToolCallStream.FinishReadsAllExactly | rocketllm/server/toolcalls.py:821-828 | finishing reads the whole text if and only if it closes no unnamed object short of its end |
| ToolCallStream.FinishStopsShort | rocketllm/server/toolcalls.py:821-828 | finishing a text that was never pushed, with an unnamed object in it, leaves what follows unread |
| ToolCallStream.FinishAfterPush | rocketllm/server/toolcalls.py:686-737 | after a push of the same text, finishing reads all of it unless an end marker is awaited |
| CallPayloads.CallRead | rocketllm/server/toolcalls.py:751-808 | a printed call, its name before its arguments, after them or alone, the arguments under either key and any JSON value, with any blanks between, gives an open call its decoded name, its argument characters and its end |
| CallPayloads.CallCloses | rocketllm/server/toolcalls.py:810-840 | and closes with one call reported, a quoted argument string unquoted and no arguments reported as an empty object |
| HermesRoundTrip.ReadsCall | rocketllm/server/toolcalls.py:296-314 | one stretch of prose and one printed Hermes call, in any of those forms and with any blanks inside its markers, are read whole, the markers emitted nowhere |
| HermesRoundTrip.RoundTrip | rocketllm/server/toolcalls.py:296-314 | printing any prose and calls, each with its arguments after its name, before it or left out, names spelled with any escapes and arguments any JSON value, and streaming the text in any cut gives back the prose as content and the calls, decoded names and argument strings in order |
| MistralRoundTrip.ReadsCalls | rocketllm/server/toolcalls.py:317-346 | from where the first of a printed array is found the loop reads every call of it, in any form, and steps over the commas, the blanks and the bracket |
| MistralRoundTrip.RoundTrip | rocketllm/server/toolcalls.py:317-346 | printing any prose and arrays of calls, in any form and with any blanks between, and streaming the text in any cut gives back the prose and all calls in order, the marker and brackets emitted nowhere |
| ToolCallsProgress.HoldsBack | rocketllm/server/toolcalls.py:722-745 | between calls a push sends all of the text but its last so many characters, and finishing sends those |
| ToolCallsProgress.SendsUpToMarker | rocketllm/server/toolcalls.py:725-727 | with a marker in the text and no object after it, everything before the marker is sent |
| ToolCallsProgress.NamelessIsContent | rocketllm/server/toolcalls.py:821-828 | a JSON object without a name is passed on as content character for character and uses up no call number |
| ToolCallsProgress.StreamsInTime | rocketllm/server/toolcalls.py:751-808 | from the moment the closing quote of a printed call's name is there, the stream knows the name and has sent every character of the arguments that has arrived, or none of a string, until the object closes |
| StopSink.StreamDecoder.Push | rocketllm/server/app.py:122-129 | the text is the committed lines and the decoded segment, committed at newlines |
| StopSink.StreamDecoder.Take | rocketllm/server/app.py:131-139 | the chunk runs up to the last settled character less the hold-back, and is empty when more than that has been sent |
| StopSink.Streamer.Put | rocketllm/server/app.py:238-266 | one put is the put function on the decoded text, of which StopSink.SentSoFar tells what has been sent; the prompt and empty puts change nothing |
| StopSink.Streamer.End | rocketllm/server/app.py:275-285 | flushing happens once |
| StopSink.Streamer.Deliver | rocketllm/server/app.py:238-285 | given the prompt and then each step's tokens until a stop, the object has sent exactly the text before the stop, or all of it, as StopsCleanly and EndsCleanly say, and counted every token it was given |
| StopSink.SentSoFar | rocketllm/server/app.py:131-139 | while it goes on a client has been sent everything settled but as many characters as the longest stop sequence has, and everything settled when there is none |
| StopSink.TextsGrow | rocketllm/server/app.py:122-129 | whatever steps the tokens come in, each text the decoder is left with extends the one before, as the sink needs |
| StopSink.DecodedInLines | rocketllm/server/app.py:122-129 | the text is decoded pieces joined up, each but the last ending a line: what came before a newline is never decoded again |
| StopSink.FirstStop | rocketllm/server/app.py:162-169 | the earliest start of any stop sequence |
| StopSink.StopIsHeld | rocketllm/server/app.py:192-206 | when a stop completes nothing at or past its start has been sent |
| StopSink.StopsCleanly | rocketllm/server/app.py:238-285 | the deltas of a stopped run are the text before the stop, the held part less trailing replacement characters, however many tokens each put carried |
| StopSink.EndsCleanly | rocketllm/server/app.py:275-285 | a run that ends by itself delivers its whole text less trailing replacement characters |
| StopSink.DeliveredExactly | rocketllm/server/app.py:141-145 | that is the stripped text exactly when the part sent early does not end in a replacement character followed only by such characters |
| StopSink.PartialLeftIn | rocketllm/server/app.py:131-145 | two puts after which a trailing replacement character has been sent |
| StopSink.DecoderAppends | rocketllm/server/app.py:122-129 | with a tokenizer that only loses trailing replacement characters the decoded text grows as the sink needs |
| Quantizer.UnpackPack | rocketllm/quant/kv_cache.py:260-272 | unpacking inverts packing exactly on an even number of codes and otherwise adds the zero that was made up |
| Quantizer.PaddingKeepsExtremes | rocketllm/quant/kv_cache.py:173-187 | padding leaves each group's extremes those of its real elements |
| Quantizer.RestoredIsClose | rocketllm/quant/kv_cache.py:206-214 | a value comes back within a thirtieth of its group's range, exactly when the range is empty |
| Quantizer.DecodeEncode | rocketllm/quant/kv_cache.py:190-257 | a lane comes back whole, element by element in its own group, when its padded length is even; an odd one cannot be reshaped, and a single value comes back twice |
| Quantizer.LaneIsClose | rocketllm/quant/kv_cache.py:190-257 | every element of a lane is within (hi - lo)/30 of itself for its group's true extremes |
| KVCache.Take | rocketllm/quant/kv_cache.py:338-344 | whole groups leave the window, which keeps at least its length and less than a group more |
| KVCache.AppendHolds | rocketllm/quant/kv_cache.py:301-352 | an update keeps blocks and window an encoding of all tokens |
| KVCache.AppendAllHolds | rocketllm/quant/kv_cache.py:328-352 | after any updates the quantized count is max(0, ((n - residual) div group) * group) |
| KVCache.BlockReads | rocketllm/quant/kv_cache.py:249-257 | a block of whole groups comes back group by group, keys by channel and values by token |
| KVCache.HistoryIsView | rocketllm/quant/kv_cache.py:301-318 | the history returned depends only on the concatenated tokens |
| KVCache.ReadsExactly | rocketllm/quant/kv_cache.py:249-264 | every history reads back, whatever the chunks, exactly when group size and padded value width are even |
| CacheRollback.CropHolds | rocketllm/quant/kv_cache.py:354-383 | a crop to any length succeeds exactly when it stays out of the blocks, and leaves an encoding of the shorter history, or of all of it when it is no longer |
| CacheRollback.PassHolds | rocketllm/quant/kv_cache.py:354-366 | a speculative pass taking back no more than the window never reaches a block |
| CacheRollback.RollbackFitsExactly | rocketllm/quant/kv_cache.py:354-383 | no run of passes asks to cut a block exactly when the window is at least the largest lookahead |
| CacheRollback.CropAllOrNothing | rocketllm/quant/kv_cache.py:367-383 | on layers in step a crop cuts all windows alike or changes nothing; a negative length counts back from the end |
| CacheRollback.QuantizedKVCache.Update | rocketllm/quant/kv_cache.py:301-352 | an update in place appends to one layer and returns its whole history, creating missing layers empty |
| CacheRollback.QuantizedKVCache.Crop | rocketllm/quant/kv_cache.py:354-383 | the loop over layers crops as the crop function, with the token count lowered only on success |
| CacheRollback.QuantizedKVCache.LengthIsHeld | rocketllm/quant/kv_cache.py:385-389 | a layer's reported length is the number of tokens it holds, and the cache's counter is the first layer's |
| Checkpoints.RestoreCapture | rocketllm/server/prefix_cache.py:219-302 | restoring what was captured, under the same configuration or none, gives back every block, window and length from any store that still has the copies, exactly when everything the memo named was held; otherwise a copy is missing |
| Checkpoints.RestoredCarriesOn | rocketllm/server/prefix_cache.py:255-302 | capture after A, restore, feed B equals feeding A then B: same blocks, window and history; it is restored exactly when everything the memo named was held |
| Checkpoints.OtherConfigRefused | rocketllm/server/prefix_cache.py:277-287 | a restore is refused exactly when it is given a configuration with another group size or window; without one the check is skipped |
| Checkpoints.UpdatesKeepMemo | rocketllm/server/prefix_cache.py:237-243 | updates leave blocks in place, so remembered copies stay right |
| Checkpoints.SecondCaptureSharesAll | rocketllm/server/prefix_cache.py:237-243 | a later capture copies no block an earlier one has |
| Checkpoints.CaptureIsLive | rocketllm/server/prefix_cache.py:219-243 | a capture names only copies that are there exactly when everything the memo names still is |
| Checkpoints.HalvesOccupy | rocketllm/quant/kv_cache.py:238-247 | a copied block occupies what its shape says: half a byte a code and two bytes for each scale and zero, by group size, widths and tokens |
| Sessions.RaisesExactly | rocketllm/server/prefix_cache.py:783-803 | a checkpoint fails exactly when its length is wanted under a new name and a copy the generation remembers has been freed |
| Sessions.TriedOnce | rocketllm/server/prefix_cache.py:783-803 | a length is passed over exactly when there is nowhere to keep it, nothing in the cache or more than there are tokens for, it was tried before, or it is not forced, the prompt's or a whole number of blocks; any other is tried once |
| Sessions.NextTurnFinds | rocketllm/server/prefix_cache.py:783-803 | a checkpoint that was kept and fits the capacity by itself is found by a lookup of any text that goes on from it, or something longer is |
| Sessions.NextNeedsTheLast | rocketllm/server/prefix_cache.py:783-803 | after a checkpoint is kept, everything remembered is still there exactly when that checkpoint has no blocks or fits in the capacity by itself |
| Sessions.GenerationSurvives | rocketllm/server/prefix_cache.py:783-844 | a generation alone on the cache, each of whose kept checkpoints fits in the capacity by itself, never fails |
| Sessions.EveryLaterOneFails | rocketllm/server/prefix_cache.py:783-803 | once a checkpoint was kept and evicted at once, every later one that is wanted fails, as long as nobody else puts anything |
| Sessions.ResidentKeepsMemo | rocketllm/server/prefix_cache.py:161-171 | while a resident checkpoint names every remembered copy they are all there, whatever other requests do |
| Sessions.FailureOvercounts | rocketllm/server/prefix_cache.py:161-163 | a failed checkpoint leaves the counts off from the mentions in resident checkpoints exactly when its first block was there |
| Sessions.SecondCheckpointFails | rocketllm/server/prefix_cache.py:783-803 | a run: with a first checkpoint larger than the capacity the second raises |
| BlockStore.AcquireRaisesOrStops | rocketllm/server/prefix_cache.py:161-163 | acquiring raises each count by its occurrences; it fails exactly when some key is absent, with the counts before the first such key raised |
| BlockStore.ReleaseLowers | rocketllm/server/prefix_cache.py:165-171 | releasing lowers each count by its occurrences and frees exactly what reaches zero, with the bytes |
| PrefixHash.TokenBytesInjective | rocketllm/server/prefix_cache.py:64-67 | fixed-width bytes of different token sequences differ |
| PrefixHash.ChainHashes | rocketllm/server/prefix_cache.py:70-89 | the accumulating loop computes every link of the chain |
| PrefixHash.ChainInjective | rocketllm/server/prefix_cache.py:70-89 | equal links mean equal depth and equal prefixes |
| PrefixHash.KeyInjective | rocketllm/server/prefix_cache.py:504-510 | a key determines the tokens it names |
| PrefixCache.EvictOldestKeeps | rocketllm/server/prefix_cache.py:580-594 | an eviction keeps every count, sum and name |
| PrefixCache.EvictionEnds | rocketllm/server/prefix_cache.py:580-594 | evictions take the oldest and end within the capacity, with nothing left, or at the protected entry |
| PrefixCache.PutAllIs | rocketllm/server/prefix_cache.py:664-666 | blocks read back are stored under new keys with nothing else changed |
| PrefixCache.RunsStayCounted | rocketllm/server/prefix_cache.py:132-171 | in every reachable state counts equal mentions in resident checkpoints, no resident checkpoint names a freed block, both byte counters are their sums and storage is within its cap |
| PrefixCache.ClearKeeps | rocketllm/server/prefix_cache.py:690-702 | clearing leaves nothing resident and no block held, drops files only if asked and there is a place for them, and keeps names listed and counts right |
| PrefixLookup.LookupIsRight | rocketllm/server/prefix_cache.py:512-554 | a lookup returns only a checkpoint of exactly the tokens it claims, its blocks still held |
| PrefixLookup.LookupIsLongest | rocketllm/server/prefix_cache.py:512-554 | what is returned is listed and no longer listed, loadable prefix exists; what is listed is told from the history by PrefixHistory.ListedExactly |
| PrefixHistory.ListedExactly | rocketllm/server/prefix_cache.py:512-602 | in every reachable state the index leads to a stored name exactly when the last put kept at its link and length was of that name |
| PrefixHistory.FoundExactly | rocketllm/server/prefix_cache.py:512-554 | in every reachable state a lookup returns a stored prefix that was the last kept at its link and length, and no longer such prefix can be read |
| PrefixHistory.PutStaysFound | rocketllm/server/prefix_cache.py:512-578 | what a put kept is found, or something longer, in every later state that can read it, as long as no other tail was kept in its place |
| PrefixHistory.ShadowedStaysLost | rocketllm/server/prefix_cache.py:573-576 | a prefix in whose place another tail was kept is not returned at its length, stored or not, until a put of its own is kept again |
| PrefixHistory.SamePlace | rocketllm/server/prefix_cache.py:504-510 | two prefixes of one length compete exactly when they agree on their whole blocks |
| PrefixHistory.RePutDoesNotHelp | rocketllm/server/prefix_cache.py:569-571 | a run: putting a resident prefix again, after another took its place, leaves it resident and never returned |
| PrefixKept.KeptIsStoredExactly | rocketllm/server/prefix_cache.py:558-649 | a checkpoint a put kept is resident afterwards exactly when its own bytes fit in the capacity, and stored exactly when resident or on disk within the spill cap |
| PrefixKept.KeptButGone | rocketllm/server/prefix_cache.py:558-594 | a put that is kept and stored nowhere |
| PrefixRecency.EntriesByUse | rocketllm/server/prefix_cache.py:512-602 | in every reachable state the resident checkpoints stand in the order in which they were last put, put again or returned |
| PrefixRecency.LeastRecentGoes | rocketllm/server/prefix_cache.py:580-594 | so of two resident checkpoints the one an operation evicts was last used before the one that stays |
| PrefixRecency.HitIsLast | rocketllm/server/prefix_cache.py:541-571 | a resident checkpoint that is returned or put again is last from then on and nothing else changes places |
| PrefixRecency.FilesByUse | rocketllm/server/prefix_cache.py:604-675 | files stand in the order in which their checkpoints were last evicted or read back |
| PrefixRecency.EvictsAsNeeded | rocketllm/server/prefix_cache.py:580-594 | evictions stop as soon as what is left fits |
| PrefixRecency.TrimsAsNeeded | rocketllm/server/prefix_cache.py:604-634 | files are dropped, oldest first, only until the rest fit |
| PrefixRecency.UnreadableIsDropped | rocketllm/server/prefix_cache.py:651-688 | a file that cannot be read back is dropped and nothing else changes |
| PrefixLookup.EvictionIndex | rocketllm/server/prefix_cache.py:593-602 | evictions list nothing new and unlist only what is stored nowhere |
| PrefixLookup.LoadRebuilds | rocketllm/server/prefix_cache.py:651-675 | a checkpoint read back has the tokens, payloads and size that were written |
| PrefixLookup.SpillWrites | rocketllm/server/prefix_cache.py:604-649 | evicting writes a checkpoint's payloads out as they stand |
| PrefixCacheObject.Cache.EvictToFit | rocketllm/server/prefix_cache.py:580-594 | the eviction loop in place is the eviction function |
| PrefixCacheObject.Cache.Put | rocketllm/server/prefix_cache.py:558-578 | storing in place is the put function; a name already resident becomes the most recently used |
| PrefixCacheObject.Cache.Lookup | rocketllm/server/prefix_cache.py:512-554 | the nested loops find what the lookup function does and leave the cache as it does, what they return the most recently used (PrefixRecency.HitIsLast) |
| PrefixCacheObject.Cache.LoadSpilled | rocketllm/server/prefix_cache.py:651-675 | reading back in place is the load function |
| WeightCache.DemoteWf | rocketllm/memory/cache.py:518-538 | a demotion takes one entry off the device, keeps the books and touches nothing in use or pinned |
| WeightCache.MakeRoom | rocketllm/memory/cache.py:457-467 | making room ends with the room made or nothing left that may go, and keeps the books and everything in use or pinned |
| WeightCache.EnforceWindow | rocketllm/memory/cache.py:416-432 | enforcing the window ends with no more unpinned dense layers than it holds or none of them idle, and keeps the books and everything in use or pinned |
| WeightCache.First | rocketllm/memory/cache.py:469-516 | the victim is an evictable entry every other candidate outranks: experts by use, then dense layers by age |
| WeightCacheRuns.RunsKeepBooks | rocketllm/memory/cache.py:201-250 | over every run tier totals are sums, device, host and transient partition the tracked keys, pinned flags are plan membership and the host stays within capacity |
| WeightCacheRuns.PayloadsConserved | rocketllm/memory/cache.py:375-394 | the payloads read are, as a multiset, those tracked, those handed back and those a host eviction cleared; the first two account for all of them exactly when no host eviction has happened |
| WeightCacheLimits.NothingIsLost | rocketllm/memory/cache.py:518-555 | with no host tier, or one that could hold every key asked for, every payload read in any run is tracked or was handed back |
| WeightCacheLimits.HostEvictionClears | rocketllm/memory/cache.py:540-555 | a run whose third layer makes the host clear the first one's payload |
| WeightCacheLimits.DenseMissEnforces | rocketllm/memory/cache.py:416-432 | after a dense layer is read in there are no more unpinned dense layers on the device than the window holds, or none that could go |
| WeightCacheLimits.WindowHolds | rocketllm/memory/cache.py:416-432 | no run without promotions or new plans puts more unpinned dense layers on the device than the window |
| WeightCacheLimits.PromotionOverfillsExactly | rocketllm/memory/cache.py:222-234 | a promotion leaves the device overfull exactly when a window of unpinned dense layers, not all being read, stands beside the room made for it |
| WeightCacheLimits.PromotionOverfills | rocketllm/memory/cache.py:222-234 | a run that does |
| WeightCacheLimits.UsersAreClaims | rocketllm/memory/cache.py:375-394 | in every run in which nothing acquired pushed itself out, an entry's count is the number of its claims not yet released |
| WeightCacheRuns.InUseStays | rocketllm/memory/cache.py:201-250 | an acquisition leaves every other entry in use or pinned where it is with its payload and users |
| WeightCacheRuns.OthersStay | rocketllm/memory/cache.py:557-597 | so do release, plans, resizes and clearing |
| WeightCacheRuns.NewestStays | rocketllm/memory/cache.py:416-432 | the newest dense layer survives the window exactly when fewer than a window of such layers are being read |
| WeightCacheRuns.AcquireSettlesExactly | rocketllm/memory/cache.py:239-250 | an acquired entry is bound, counted and has its payload exactly unless it pushed itself out |
| WeightCacheRuns.SecondLayerIsLost | rocketllm/memory/cache.py:239-250 | with a window of one a second layer acquired during the first is lost |
| WeightCacheUse.StepCounts | rocketllm/memory/cache.py:434-455 | one operation adds one to the count of the expert an acquisition served, halves all counts when that was the last of an interval, and changes no other |
| WeightCacheUse.CountIsPopularity | rocketllm/memory/cache.py:434-455 | over every run an expert's count is one for each acquisition since it was admitted that a tier or storage served, halved once for every aging since |
| WeightCacheUse.AgingsAre | rocketllm/memory/cache.py:434-455 | over every run an aging has come with every so many acquisitions of experts that counted |
| WeightCacheUse.NumberedByAdmission | rocketllm/memory/cache.py:396-399 | of two tracked entries the one with the smaller number was admitted by the earlier operation |
| WeightCacheOrder.LeavesInTurn | rocketllm/memory/cache.py:416-555 | whatever the operation, of two idle unpinned entries sharing a tier the one that leaves while the other stays is the expert before a dense layer, the expert used less, then the one admitted earlier; only a dense layer coming in may push out another ahead of an expert |
| WeightCacheOrder.PopularStays | rocketllm/memory/cache.py:469-555 | of two such experts the one that leaves is worth no more by the acquisitions since each was admitted, and among equals was admitted earlier |
| WeightCacheOrder.MostUsedStays | rocketllm/memory/cache.py:469-555 | of two such experts admitted since the last aging the one acquired more often is not evicted while the other stays |
| WeightCacheOrder.AcquireMakesRoom | rocketllm/memory/cache.py:222-247 | after a weight came onto the device it holds no more than fits, or all else on it was in use or pinned |
| WeightCacheOrder.RoomTakesNoMore | rocketllm/memory/cache.py:457-467 | making room stops as soon as there is room |
| WeightCacheOrder.WindowTakesNoMore | rocketllm/memory/cache.py:416-432 | enforcing the window takes no layer it has a place for |
| WeightCacheOrder.DemotesToHostExactly | rocketllm/memory/cache.py:518-555 | what leaves the device goes to host memory exactly when there is some, its owner lets it, and it fits beside what is in use or pinned there |
| WeightCacheOrder.ClearLeavesExactly | rocketllm/memory/cache.py:580-597 | clearing leaves exactly what is in use, and what is pinned if that is to be kept |
| WeightCacheObject.TieredWeightCache.Acquire | rocketllm/memory/cache.py:201-250 | acquiring in place is the acquire function, of which WeightCacheUse and WeightCacheOrder tell what it counts and what it pushes out |
| WeightCacheObject.TieredWeightCache.PickVictim | rocketllm/memory/cache.py:469-516 | the scan finds the entry that leaves first |
| WeightCacheObject.TieredWeightCache.Demote | rocketllm/memory/cache.py:518-555 | demoting in place is the demote function |
| WeightCacheObject.TieredWeightCache.Release | rocketllm/memory/cache.py:375-394 | releasing in place is the release function |
| WeightCacheObject.TieredWeightCache.ApplyPlan | rocketllm/memory/cache.py:557-570 | a plan's two passes over the entries set every flag to membership |
| WeightCacheObject.TieredWeightCache.Clear | rocketllm/memory/cache.py:580-597 | clearing in place is the clear function in whatever order it goes |
| CyclicScan.OneRound | rocketllm/memory/cache.py:495-513 | a round back is this layer's turn and every other layer has had one since |
| CyclicScan.UnpinnedIsGone | rocketllm/memory/cache.py:396-432 | when unpinned layers outnumber the window, the one whose turn it is has gone |
| CyclicScan.ScanOutcome | rocketllm/memory/cache.py:495-516 | in the cyclic scan pinned layers hit from the second pass on, unpinned ones always miss when they outnumber the window, and nothing misses again when all fit and they do not |
| Placement.RankRanks | rocketllm/memory/placement.py:121-130 | ranking reorders by class, savings per byte, size and key |
| Placement.RankOrder | rocketllm/memory/placement.py:121-130 | the better class comes first, within it the more accesses saved per byte, then the fewer bytes, then the earlier spelling |
| Placement.TextBeforeIs | rocketllm/memory/placement.py:127-130 | spellings are told apart at the first character in which they differ |
| Placement.RankIsStable | rocketllm/memory/placement.py:127-130 | what nothing tells apart stays in the order it was offered in |
| Placement.PlanPins | rocketllm/memory/placement.py:133-162 | the loop pins what the fill function does |
| Placement.FillInBudget | rocketllm/memory/placement.py:147-162 | bytes pinned are the sum of what is pinned and within the budget |
| Placement.FillAccounts | rocketllm/memory/placement.py:147-162 | every candidate is pinned or skipped, once: for having no bytes exactly when it has none, for room only if it would not fit what is left in the end |
| Placement.GreedyIsNearlyBest | rocketllm/memory/placement.py:133-162 | no fitting choice saves more accesses than what is pinned and the first candidate passed over together |
| Placement.GreedyPinsMost | rocketllm/memory/placement.py:133-162 | smallest first pins the largest number |
| Placement.HigherFirst | rocketllm/memory/placement.py:127-130 | better classes are ranked among themselves ahead of the rest |
| Placement.ClassesAreIndependent | rocketllm/memory/placement.py:133-162 | lower classes never change what is pinned of the better ones |
| Placement.EachClassIsNearlyBest | rocketllm/memory/placement.py:133-162 | in the whole plan each class does within one candidate of the best with the budget left to it, and pins most when rates are equal |
| BudgetGlue.ResizeFitsExactly | rocketllm/memory/cache.py:572-576 | with no users a resize gets within a positive capacity exactly when the pinned entries on the device fit |
| BudgetGlue.PlanFits | rocketllm/base.py:1753-1784 | a plan from the cache's own candidates pins distinct keys, each with the size the cache accounts for it, that add up to no more than the window leaves of the capacity |
| BudgetGlue.CandidatesAreCached | rocketllm/base.py:1784-1791 | the candidates the engine offers are told apart by their keys and carry the sizes the cache keeps |
| BudgetGlue.LayersFirst | rocketllm/base.py:1784-1791 | layers are ranked ahead of always-on modules and those ahead of experts; a dense module is worth one access, an expert as many as it was picked |
| BudgetGlue.PinShare | rocketllm/base.py:1747-1749 | the window keeps its share of the capacity, rounded down, and the rest is for pinning |
| BudgetGlue.BudgetTaken | rocketllm/base.py:1723-1752 | an estimated reading changes nothing; any other sets the capacity, and the pins to the plan if pinning is on, and leaves what is in use |
| BudgetGlue.BudgetIsMet | rocketllm/base.py:1723-1751 | adopting the plan and then resizing leaves device bytes within the capacity from any state without users |
| BudgetGlue.ReverseOrderExactly | rocketllm/base.py:1732-1736 | resizing first gets there exactly when what the old plan pinned happens to fit |
| BudgetGlue.ReverseOrderOverruns | rocketllm/base.py:1732-1736 | a pinned layer larger than the new capacity is left behind by the reverse order and not by the code's |
| BudgetGlue.ZeroKeepsEverything | rocketllm/memory/cache.py:459-460 | at capacity zero nothing is evicted |
| Staging.SizeClass | rocketllm/streaming/staging.py:112-117 | the class is a power of two, at least the count and less than twice it above the smallest |
| Staging.LeaseKeeps | rocketllm/streaming/staging.py:180-227 | a lease is on a slot nobody else holds, of its type and at least its size, the smallest that fits if one was free; every unfinished lease is untouched |
| Staging.LeaseGranted | rocketllm/streaming/staging.py:180-227 | a lease is refused exactly when nothing is wanted, or no slot serves even once what has finished is back and the budget has no room for another; finished transfers are asked for and a slot is made only when needed |
| Staging.ReleaseFrees | rocketllm/streaming/staging.py:235-237 | a lease given back frees its slot and changes nothing else |
| Staging.FinishedAreBack | rocketllm/streaming/staging.py:193-200 | asking gives back exactly the leases that have finished |
| Staging.BufferKeeps | rocketllm/streaming/staging.py:119-176 | a scratch buffer is made only when none of its type is long enough; it has the size class of the count and takes the place of all the others of its type, those of other types stay |
| Staging.BufferMade | rocketllm/streaming/staging.py:119-176 | a scratch buffer is made exactly when one is wanted, none there would do, and it fits the budget beside the slots and the buffers of other types |
| Staging.ClearKeeps | rocketllm/streaming/staging.py:261-273 | clearing keeps exactly the leased slots and no scratch buffer |
| Staging.RunsKeepLeases | rocketllm/streaming/staging.py:80-273 | over any interleaving no two unreleased leases share a slot, each is on a slot still there, resident bytes are the total within the budget and one scratch buffer a type is kept |
| Staging.HostStagingPool.CheckOut | rocketllm/streaming/staging.py:180-237 | leasing in place is the lease function |

## Left out

- Speculation.SpeculationIsExact: is about the expected value of any function of the returned sequence over exact reals; each outcome comes out for an interval of draws as long as its probability (Distributions.PickIsInterval), and that a uniform draw lands there with that probability is taken as the meaning of a draw and is not derived from a measure on tapes.
- SpecDecoder.SpeculativeDecoder.Generate: does not model `on_pass`, the timings, or the order of streaming against the rollback inside a pass; the prompt is one row, as the code demands.
- ToolCalls.Interpret: call identifiers are random and are left out; deltas are kept as what a client assembles from them.
- KVCache.HistoryIsView: follows one batch row and head with keys grouped along tokens and values along channels, the default axes; half-precision storage of scales and zeros is not modelled.
- Quantizer.LaneIsClose: is in exact arithmetic, without rounding of the scale and zero to half precision.
- Checkpoints.RestoreCapture: a live block is identified by its place, as blocks are only appended; reuse of an object identity after a block is freed is not modelled, and the dynamic cache kind is left out.
- PrefixLookup.LookupIsRight: takes the digest to be collision-free and the checkpoint given to `put` to be of the tokens it names, with live block keys.
- PrefixCache.RunsStayCounted: puts are of checkpoints whose blocks are held; the put that raises is in Sessions.Attempt, and ends the run it belongs to.
- PrefixCache.ClearKeeps: a spill directory that cannot be made again once cleared is not modelled.
- PrefixRecency.EntriesByUse: takes the digest to be collision-free, so that a use of a name is a use of its tokens.
- CyclicScan.ScanOutcome: has no host tier and no lookahead.
- Placement.FillAccounts: the plan's counts by class and its bytes saved per token are left out.
- WeightCacheRuns.PayloadsConserved: the table of reads in flight (`prefetch_window`, `prefetch`, `_drop_pending`) is left out.
- BudgetGlue.CandidatesAreCached: which experts and always-on modules are registered, and how often an expert was picked, are parameters; that a module or expert is registered under one key is required.
- Staging.RunsKeepLeases: the reclaim hook is the list of leases it returns; the transfer layer that decides it is not part of this model.
- The Llama, DeepSeek and generic tool-call parsers, which decide by a length budget or name the function outside the JSON.
- The request session's restore of a match up front, the prefix cache's measured baseline and its statistics.
- HTTP, server-sent events, request schemas, image decoding, hardware probing and the command line.
- Softmax, top-p and top-k numerics: the warped distributions are given as vectors that sum to one.
- The KV caches delegated to other packages, and reordering for beam search.
- The damping of pin plans, expert popularity statistics beyond ageing, and checkpoint splitting.
- Threads and locks: each locked method is one step.
