# Verification of the brainstorm server

A Dafny model of three parts of the brainstorm decision service and proofs about it. `dafny verify dfyconfig.toml`
checks the whole project.

**Text and token codecs.** `LlmUtils` is the pair of tag scanners that clean a model's answer, with the back-reference
and the case folding of the two regular expressions. `Json` and `JsonPrint` are the decoder and the ASCII printer,
`JsonText` all texts of JSON values from the writing side, `JsonUtils` the strategies that dig a JSON object out of an
answer, `Base64` and `Auth` the session tokens. `PyText` and `Decimal` hold the Python string operations they share.

**Session lifecycle.** `CheckpointFactory`, `Sweeper`, `Idempotency`, `TurnApi`, `Metrics` and `ServerConfig` follow the
files of the same names: classes whose methods are proved against functions on the tables, the cache and the counters.
`Lifecycle` holds what is true over runs of requests and sweeps that do not overlap. `Interleavings` is the server as a
transition system in which /turn, /done and the sweeper interleave at every await; `Sequential` shows that the handlers
of `TurnApi` are runs of that system.

**Decision graph.** `DecisionGraph` is the seven-node graph with its two loops, its routers, the pause for the user and
the counter meant to end the critique loop. `Sessions` holds the streaming session functions around it and connects
them to what /turn answers.

## What was found

* `strip_reasoning_blocks` is documented as idempotent (`src/core/llm_utils.py:19`). It is not: stripping
  `<thi<think>x</think>nk>y</think>` leaves a block. `StripIdempotentExactly` says when it is: exactly when no tag of
  the result is spliced from both sides of a removed block. `SeamFreeIsIdempotent` gives a check a caller can make
  beforehand. The claim for `sanitize_llm_response` (line 21) fails on the same text (`SanitizeNotIdempotent`), and
  holds on exactly the inputs that pass a guard (`SanitizeIdempotentOnInput`); the one for `extract_output_payload`
  (line 20) holds for every text.
* The critic's counter is documented to cap rewrites at two and to keep the loop from cycling for ever
  (`src/features/decision_maker/nodes.py:767-770`). It does neither: the router reads the feedback, the counter the wish
  for a rewrite. The cap is broken exactly when the first three critiques all give feedback and at most one of them
  asks for a rewrite (`CapBrokenExactly`); `DraftsExactly` says for every n when more than n drafts are begun,
  `LoopEndsExactly` when the loop ends at all, and `DraftsUnbounded` gives a critic for every number of drafts.
* The sweeper spares turns in flight exactly when the threshold covers the stream's timeout and the time between a
  request's touch and its stream (`ThresholdIsExact`). The validated factor of five leaves four timeouts for the
  latter. A negative timeout with a negative threshold also passes the validator and is not safe
  (`ThresholdSafeExactly`).
* The documented guarantee (`src/server/config.py:213-220`) is that a turn completes before its session is evicted.
  That holds up to the scan only: an eviction hits a turn in flight exactly when a turn touched the thread between the
  scan and the deletion and is still in flight (`EvictionHitsExactly`), and such a run exists
  (`TurnMayStartAfterScan`). Checking at the deletion that the row is still stale would close the gap
  (`StillStaleIsSafe`).
* A run keeps the gauge of active sessions, the checkpointed threads and the touched rows in step exactly when every
  request in it is polite (`GaugeIsExactWhen`). The first that is not leaves a gauge that is wrong, at once or after
  some sweep (`GaugeExactForGoodExactly`): a refused /turn, or a /done, that names an unknown session leaves a touched
  row, and when the sweeper removes it the gauge loses a session that never was (`UnknownIdDrainsGauge`); a new turn
  that times out leaves a session the gauge never counted (`TimedOutTurnLeaks`).
* The turn number in the internal cache key counts the `messages` of the checkpoint, a channel the graph's state does
  not have (`GraphKeepsNoMessages`). The number is therefore always 0 (`TurnNumberIsZero`), and a user who repeats a
  message within the cache's lifetime gets the earlier reply again (`RepeatedMessageReplays`). A usable
  Idempotency-Key header decides the key alone, whatever the session, and a header that spells another request's
  internal key shares its entry (`KeysAgreeExactly`, `HeaderCanSpellKey`).
* `$` in the two anchored expressions accepts one final newline: in session ids (`NewlineSessionAccepted`) and in
  Idempotency-Key values (`NewlineKeyAccepted`).
* The token module promises an `AuthError` on any failure (`src/server/auth.py:16`). Signed payloads that are not in a
  known character set, or not objects, whose `exp` makes `int` raise something other than the three caught exceptions,
  or whose session id holds a lone surrogate, end in another exception: `OtherErrorExactly` gives the condition,
  `ListPayloadEscapes` an input.
* The injected client is module-level, and `src/features/decision_maker/nodes.py:180-183` calls that safe with one
  worker. One worker interleaves streams at every await: with a common client a running stream keeps it exactly as
  long as no other stream ends (`SharedClientExactly`, `OverlappingSessions`).
* A session cut off in its first leg, whose resumed graph then comes to the question, is answered with an empty text
  and done (`CutOffTurnSaysDone`, at an input `CutOffTurnHappens`). The response to the cut-off /turn does not carry
  the id that a client would need for that: it draws the id itself and answers only with an error
  (`src/server/turn_api.py:262-264`, `src/server/errors.py:139-149`).

## Model

| member | source | states |
|---|---|---|
| LlmUtils.MatchIsFound | src/core/llm_utils.py:82-93 | every text that has the shape the expression describes is found by the scanner, with a body no longer than the one that shows it |
| LlmUtils.FoundIsMatch | src/core/llm_utils.py:82-93 | everything the scanner finds has that shape: tag, attributes, shortest body, the same tag again |
| LlmUtils.LeftmostFirst | src/core/llm_utils.py:133-178 | substitution and findall treat the leftmost block first, keep what stands before it and go on behind it |
| LlmUtils.LetterMatchesExactly | src/core/llm_utils.py:82-93 | a letter of a tag name matches its two cases and, for i, k and s, the further characters that `re.IGNORECASE` folds to it |
| LlmUtils.SameLetterExactly | src/core/llm_utils.py:82-93 | the back-reference takes the dotted capital i and the Kelvin sign for the letter, but not the dotless i and the long s |
| LlmUtils.ReasoningIsRemoved | src/core/llm_utils.py:82-133 | stripping removes the leftmost block of each of the four names thinking, think, reasoning and reflection, in any case, with any attributes, and goes on behind it; the table of word characters must have the letters |
| LlmUtils.OnlyBlockIsRemoved | src/core/llm_utils.py:82-133 | in a text with no other "<" such a block is removed and the trimmed text around it is left |
| LlmUtils.ReasoningIsNamed | src/core/llm_utils.py:82-85 | what stripping takes for a block opens with one of the four names and ends with the same one |
| LlmUtils.OutputIsExtracted | src/core/llm_utils.py:90-93 | extraction gives the trimmed payload of the leftmost output block, in any case, if no other follows, and else goes on behind it |
| LlmUtils.OnlyOutputIsExtracted | src/core/llm_utils.py:155-186 | in a text with no other "<" the trimmed payload is the result |
| LlmUtils.RemoveNothing | src/core/llm_utils.py:133-182 | a text without a block is kept unchanged and has no payload |
| LlmUtils.RemoveShortens | src/core/llm_utils.py:133-178 | a text with a block gets shorter and has a payload |
| LlmUtils.HasBlockWithin | src/core/llm_utils.py:82-93 | a block in any part of a text is a block of the whole text |
| LlmUtils.NewBlocksAreSpliced | src/core/llm_utils.py:111-133 | after removal a block is left exactly where a tag was spliced across a removed block |
| LlmUtils.StripFixed | src/core/llm_utils.py:127-133 | the texts that stripping returns unchanged are the trimmed ones without a block |
| LlmUtils.StripIdempotentExactly | src/core/llm_utils.py:111-133 | stripping twice equals stripping once if and only if no tag is spliced |
| LlmUtils.SeamFreeNotSpliced | src/core/llm_utils.py:82-133 | if no kept stretch before a removed block ends inside an open tag, no tag is spliced |
| LlmUtils.SeamFreeIsIdempotent | src/core/llm_utils.py:82-133 | under that check stripping is idempotent |
| LlmUtils.StripNotIdempotent | src/core/llm_utils.py:18-19 | the unconditional claim fails on a concrete text, for every table of word characters without '>' |
| LlmUtils.PayloadHasNoBlock | src/core/llm_utils.py:90-93 | the shortest payload of an output block contains no whole output block |
| LlmUtils.ExtractedHasNoOutput | src/core/llm_utils.py:155-186 | what extraction returns is part of its input and has no output block |
| LlmUtils.ExtractIdempotent | src/core/llm_utils.py:155-186 | extracting twice equals extracting once, for every text |
| LlmUtils.SanitizedHasNoOutput | src/core/llm_utils.py:209-251 | the pipeline's result is trimmed, part of the stripped text, and has no output block |
| LlmUtils.SanitizeIdempotentOnInput | src/core/llm_utils.py:209-251 | the pipeline is idempotent on exactly the inputs that pass a guard: no tag is spliced at all, or, when the stripped text has an output block, none whose block lies in the last payload |
| LlmUtils.BlocksWithinAreSpliced | src/core/llm_utils.py:111-133 | a stretch of the kept text holds a block exactly when a spliced block lies in it |
| LlmUtils.SanitizeNotIdempotent | src/core/llm_utils.py:21 | so does the claim for the pipeline, on the same text |
| LlmUtils.SanitizeIdempotentWhenStripIs | src/core/llm_utils.py:209-251 | where stripping is idempotent the whole pipeline is |
| PyText.TrimKeepsCore | src/core/llm_utils.py:133 | trimming removes white space at the ends and never cuts into a core |
| PyText.SpacesExactly | src/core/llm_utils.py:133 | white space is these 29 code points |
| Json.ValueMore | src/core/json_utils.py:227-247 | reading a value is determined by the text read: more text behind it changes nothing, except behind a bare number |
| Json.MembersMore | src/core/json_utils.py:227-247 | the same for the members of an object up to its closing brace |
| Json.NumberMore | src/core/json_utils.py:227-247 | a number is read the same from a longer text if what follows cannot continue it |
| JsonText.LoadsExactly | src/core/json_utils.py:192-196 | the decoder returns a value for exactly the texts that spell it: any runs of the four white space characters around any token, raw or escaped characters, the eight short escapes, hexadecimal digits in either case, surrogate pairs, numbers with fraction and exponent (sections 2 to 7 of RFC 8259), and the three extra words of Python |
| JsonText.DocRead | src/core/json_utils.py:241-247 | such a text is read from the head of every text as its value, behind a number of every text that cannot continue it |
| JsonText.ValueWritten | src/core/json_utils.py:241-247 | whatever is read from the head of a text is such a text of the value returned |
| JsonPrint.QuoteReads | src/server/auth.py:515-521 | a printed string reads back, through escapes, control characters and surrogate pairs |
| JsonPrint.DumpsReads | src/server/auth.py:515-521 | a printed value is read back from the head of any text that cannot continue it |
| JsonPrint.LoadsDumps | src/server/auth.py:515-521 | decoding what was printed gives the value back, for all values without floats and with scalar text |
| JsonPrint.DumpsAscii | src/server/auth.py:521-522 | the printed form is printable ASCII whatever the text in it |
| JsonText.EscapedExactly | src/server/auth.py:521 | each UTF-16 unit of a text is printed with its short escape if it has one, '/' excepted, as itself if it is printable ASCII, and else with four lower-case hexadecimal digits |
| JsonUtils.ObjectReadFromLonger | src/core/json_utils.py:241-247 | an object text that parses whole is read as the same object from every longer text it starts |
| JsonUtils.PassesAgree | src/core/json_utils.py:227-249 | whenever Pass A succeeds, Pass B returns the same object |
| JsonUtils.PassBIsStronger | src/core/json_utils.py:237-247 | Pass B succeeds on a text on which Pass A fails |
| JsonUtils.PlainAgrees | src/core/json_utils.py:192-249 | whenever the whole text parses as an object, Pass B returns the same object |
| JsonUtils.WithoutFences | src/core/json_utils.py:158-255 | where no fence answers, the outcome of all strategies is what Pass B alone finds |
| JsonUtils.FailsExactly | src/core/json_utils.py:187-255 | the call fails if and only if both fences and Pass B find no object, and then carries the first 200 characters of the original text |
| JsonUtils.Recovers | src/core/json_utils.py:187-250 | an object text behind a prefix without '{' and before any suffix, in a text without fences and reasoning blocks, is returned exactly |
| JsonUtils.RecoversPrinted | src/core/json_utils.py:187-250 | in particular every printed object |
| JsonUtils.FenceGives | src/core/json_utils.py:202-211 | a tagged fence around an object text gives that object, whatever white space surrounds it |
| JsonUtils.FencedRecovers | src/core/json_utils.py:187-250 | the whole call returns the object in a tagged fence that no back-tick or '{' precedes |
| JsonUtils.SpelledRecovers | src/core/json_utils.py:187-250 | an object in any spelling, pretty-printed or not, behind a prefix without "{" and before any suffix, in a text without fences and reasoning blocks, is returned exactly |
| JsonUtils.SpelledFenceRecovers | src/core/json_utils.py:187-250 | so is one in a tagged fence that no back-tick or "{" precedes |
| JsonUtils.PassAExactly | src/core/json_utils.py:227-235 | Pass A finds an object exactly where the stretch from the first "{" to the last "}" spells one |
| JsonUtils.PassBExactly | src/core/json_utils.py:237-249 | Pass B finds an object exactly where one is spelled at the first "{" |
| JsonUtils.FailsUnlessSpelled | src/core/json_utils.py:187-255 | the call fails exactly when neither fence gives an object and none is spelled at the first "{" |
| JsonUtils.ParseExactly | src/core/json_utils.py:187-255 | the whole call, for every text: the object spelled by the text, else by its first `json` fence, else by its first fence, else at the first "{"; and an error exactly when there is none of these |
| JsonUtils.FenceAtExactly | src/core/json_utils.py:202-211 | the group of a fence is what stands between its opening and the next three back-ticks, less the white space in front |
| Base64.PaddedIsRepaired | src/server/auth.py:212-213 | the padding that encoding strips is the padding that pad-repair appends |
| Base64.EncodeIsRaw | src/server/auth.py:455-463 | stripping the padding undoes the padding and nothing else |
| Base64.EncodedAlphabet | src/server/auth.py:455-463 | encoded text has only the 64 url-safe characters, so never a '.' |
| Base64.DecodeEncode | src/server/auth.py:202-214 | decoding an encoded byte string gives it back, for all byte strings |
| Base64.EncodeInjective | src/server/auth.py:455-463 | different byte strings have different encodings |
| Base64.EncodeDecode | src/server/auth.py:202-214 | for alphabet text, decoding succeeds unless one character is left over, and encoding the result gives the text back exactly when its unused trailing bits are zero (sections 3.2, 3.5 and 5 of RFC 4648) |
| Base64.DigitsExactly | src/server/auth.py:202-214 | the digits are the 64 characters in the order of section 5 of RFC 4648, and decoding takes '+' and '/' for the last two as well |
| Base64.DecodeExactly | src/server/auth.py:202-214 | for every text, other characters and stray '=' included: not ASCII fails; if no '=' closes a group, decoding succeeds exactly when the digits make whole groups, and gives their bytes; else it gives the bytes of the digits before the first '=' that does |
| Auth.VerifySessionToken | src/server/auth.py:260-436 | the statements, with their early exits and the dict reduced in place, return the verdict of the specification |
| Auth.ReadClaims | src/server/auth.py:364-436 | the same from the decoded payload on |
| Auth.FramedSplits | src/server/auth.py:308-321 | three parts without a '.' come apart as they were put together |
| Auth.SignedIsJudged | src/server/auth.py:293-361 | a signed payload always passes the header, framing, version, base64 and signature checks |
| Auth.PayloadReads | src/server/auth.py:515-522 | decoding the minted payload gives the minted members, for every service id and session id of Unicode scalar values |
| Auth.MintedVerdict | src/server/auth.py:486-544 | the verdict on a minted token is that of the claim checks on what was minted |
| Auth.MintedToken | src/server/auth.py:486-544 | the wire format: `v1`, the encoded payload and the encoded MAC of it, the payload being compact JSON with its keys in sorted order |
| Auth.RoundTrip | src/server/auth.py:260-544 | for every secret, service id, version 4 UUID and later expiry, verifying the minted token returns exactly the three claims |
| Auth.UuidRoundTrip | src/server/auth.py:107-544 | for all 16 bytes, printed as 8-4-4-4-12 hexadecimal digits in any case, the minted token verifies to its three claims exactly when they are a version 4 UUID, and is refused with missing_session otherwise |
| Auth.VerdictIsFirstFailure | src/server/auth.py:312-436 | the verdict depends on version, signature, the three claims and the time only, and is the first failing check in this order |
| Auth.ExpiryExactly | src/server/auth.py:384-394 | an expiry `true` or `false` is judged as 1 or 0, a text or float as the number it is cast to; any other kind, or a failing cast, is malformed |
| Auth.IdsAreCast | src/server/auth.py:384-394 | a service or session id that is not a text is judged as the text it is cast to |
| Auth.ResignedVerdict | src/server/auth.py:364-422 | two signed payloads that agree on the three claims get the same verdict |
| Auth.OtherMembersIrrelevant | src/server/auth.py:375-388 | adding or dropping any other member leaves the claims as they were |
| Auth.OrderIrrelevant | src/server/auth.py:366-388 | exchanging two members with different keys leaves the dict as it was |
| Auth.ReorderedMembersIrrelevant | src/server/auth.py:366-388 | objects with the same members in any order are the same dict |
| Auth.AcceptedMeans | src/server/auth.py:293-436 | claims are returned only for a Bearer v1 token whose signature is the MAC of its payload, and they are the required service, a UUID and a later expiry |
| Auth.ReturnedSessionIsUuid | src/server/auth.py:107-408 | every session id that verification returns is such a text, or one followed by a newline |
| Auth.OtherErrorExactly | src/server/auth.py:260-436 | verification ends in an exception other than AuthError exactly for a properly signed v1 token whose payload is in no known character set, or is JSON other than an object, or whose claims make `int` raise something uncaught or bring a session id that is no scalar text with the right service and a number |
| Auth.ListPayloadEscapes | src/server/auth.py:364-376 | the signed payload `[]` is one |
| Auth.NewlineSessionAccepted | src/server/auth.py:107-110 | a version 4 UUID followed by a newline is minted, accepted and returned with its newline |
| CheckpointFactory.TouchTableFollowsHistory | src/server/checkpoint_factory.py:182-254 | after any calls a row holds the truncated time of the latest asynchronous get or put since the last deletion, and there is no other row |
| CheckpointFactory.StaleFollowsHistory | src/server/checkpoint_factory.py:307-331 | the stale threads are those whose latest surviving touch lies before the cutoff |
| CheckpointFactory.StoresWhatInnerStores | src/server/checkpoint_factory.py:182-291 | checkpoints and writes are those of the bare inner saver |
| CheckpointFactory.LatestIsLastPut | src/server/checkpoint_factory.py:182-291 | a thread has the checkpoints and writes put since its last deletion, in order, and a get returns the last checkpoint put |
| CheckpointFactory.OnlyAsyncTouches | src/server/checkpoint_factory.py:258-289 | listing and the synchronous delegates never touch |
| CheckpointFactory.LastTouchIsLatest | src/server/checkpoint_factory.py:392-405 | under a clock that does not run back, the recorded touch is the latest one |
| CheckpointFactory.TouchingCheckpointer.AGet | src/server/checkpoint_factory.py:182-199 | returns the latest checkpoint and touches the thread |
| CheckpointFactory.TouchingCheckpointer.AGetTuple | src/server/checkpoint_factory.py:205-214 | the same; a config without a thread id raises and touches nothing |
| CheckpointFactory.TouchingCheckpointer.APut | src/server/checkpoint_factory.py:220-238 | saves the checkpoint and touches the thread |
| CheckpointFactory.TouchingCheckpointer.APutWrites | src/server/checkpoint_factory.py:244-252 | saves the write and touches the thread |
| CheckpointFactory.TouchingCheckpointer.AList | src/server/checkpoint_factory.py:258-265 | returns the thread's checkpoints and changes nothing |
| CheckpointFactory.TouchingCheckpointer.Put | src/server/checkpoint_factory.py:279-281 | saves the checkpoint without a touch |
| CheckpointFactory.TouchingCheckpointer.GetLastTouched | src/server/checkpoint_factory.py:295-305 | returns the truncated latest touch of the history |
| CheckpointFactory.TouchingCheckpointer.ListStale | src/server/checkpoint_factory.py:307-331 | returns the stale set defined by the history |
| CheckpointFactory.TouchingCheckpointer.ADeleteThread | src/server/checkpoint_factory.py:333-366 | removes the thread from all three tables at once |
| Sweeper.Sweeper.Tick | src/server/sweeper.py:175-214 | one tick deletes exactly the stale threads whose deletion does not raise, and the gauge and counters follow |
| Sweeper.Sweeper.Run | src/server/sweeper.py:142-169 | any number of ticks: gauge plus deleted total, and gauge less touched rows, stay what they were |
| Sweeper.EvictedCount | src/server/sweeper.py:190-195 | each deletion a tick counts removed one touched row |
| Sweeper.TickCleans | src/server/sweeper.py:180-208 | a tick without failures leaves nothing stale and every other thread as it was |
| Sweeper.FailedIsRetried | src/server/sweeper.py:202-208 | a thread whose deletion failed is found again by every later tick |
| Sweeper.LaterTickSubsumes | src/server/sweeper.py:155-214 | an earlier tick makes no difference to what a later one leaves |
| ServerConfig.ThresholdSafeExactly | src/server/config.py:213-228 | accepted settings never find a thread touched within five timeouts exactly when the threshold is not negative |
| ServerConfig.AcceptsExactly | src/server/config.py:213-228 | for timeouts that are not negative, exactly those thresholds are accepted that never find a thread touched within five timeouts |
| ServerConfig.SafeForExactly | src/server/config.py:213-228 | a threshold never finds a thread touched within n seconds exactly when it is at least n, whatever the two truncations do |
| ServerConfig.RecentIsNotStale | src/server/checkpoint_factory.py:319-323 | a thread touched at most the threshold ago is not stale, although both clock reads are truncated |
| Idempotency.IdempotencyCache.Get | src/server/idempotency.py:119-128 | returns the live entry and makes it the most recently used one |
| Idempotency.IdempotencyCache.Set | src/server/idempotency.py:134-140 | drops dead entries, replaces or evicts, and appends; keys stay distinct and within the size |
| Idempotency.StoredIsFound | src/server/idempotency.py:119-140 | what was stored is found until its time is up, and not after |
| Idempotency.GetChangesNoLookup | src/server/idempotency.py:119-128 | a lookup, hit or miss, changes no later lookup of any key |
| Idempotency.SetKeepsOthers | src/server/idempotency.py:134-140 | storing while there is room changes no later lookup of another key |
| Idempotency.StoredSurvives | src/server/idempotency.py:93-140 | an entry outlives every use of fewer than maxsize other keys before it expires |
| Idempotency.ReplyIsReplayed | src/server/idempotency.py:93-140 | after such uses a lookup still returns the stored reply |
| Idempotency.SameKeyTextExactly | src/server/idempotency.py:177-191 | exactly which requests share the text that is hashed |
| Idempotency.KeyTextInjective | src/server/idempotency.py:177-191 | the text tells sessions, messages and turn numbers apart for all session ids without NUL, whatever the messages contain |
| Idempotency.NulInSessionCollides | src/server/idempotency.py:183-190 | a session id with NUL can share its text with another session |
| Idempotency.HeaderKeyExactly | src/server/idempotency.py:71-163 | a header is taken as a key exactly when it has, less one final newline, 8 to 128 letters, digits, underscores and hyphens |
| Idempotency.NewlineKeyAccepted | src/server/idempotency.py:71-163 | an Idempotency-Key followed by a newline is taken, newline included |
| TurnApi.TurnApi.HandleTurn | src/server/turn_api.py:205-425 | the handler's statements have the effect and the response of the specification, for every environment |
| TurnApi.TurnApi.Answer | src/server/turn_api.py:293-425 | the same from the cache lookup on |
| TurnApi.TurnApi.Execute | src/server/turn_api.py:371-425 | the same from the stream on: a timeout or exception counts and stores nothing |
| TurnApi.TurnApi.RunGraph | src/server/turn_api.py:337-369 | the graph's calls on the checkpointer, one after the other |
| TurnApi.TurnApi.CollectStream | src/server/turn_api.py:337-369 | the last sentinel among the chunks decides the reply and the state |
| TurnApi.TurnApi.HandleDone | src/server/turn_api.py:447-506 | deletes and counts only a session that has a checkpoint, and always acknowledges |
| Lifecycle.EmptyIsSteady | src/server/turn_api.py:391-392 | the empty store with an unused gauge, where runs start, is steady |
| Lifecycle.GaugeCountsSessions | src/server/turn_api.py:391-392 | over every run of polite requests and sweeps from a steady state the gauge is the number of checkpointed threads, and the touched rows are of the same threads |
| Lifecycle.SteadyAfterExactly | src/server/turn_api.py:259-425 | one request, with a fresh id if it draws one, keeps a steady state steady exactly when it is polite: a new turn is answered from the cache, or finishes with a save, or is cut off before any checkpointer call; a resume or /done names a checkpointed thread or the empty id; a sweep always |
| Lifecycle.TurnSteadyExactly | src/server/turn_api.py:259-425 | that for /turn |
| Lifecycle.DoneSteadyExactly | src/server/turn_api.py:470-500 | that for /done |
| Lifecycle.GaugeIsExactWhen | src/server/turn_api.py:391-480 | a run from a steady state is steady throughout exactly when every request in it is polite |
| Lifecycle.SteadyExactly | src/server/sweeper.py:190-195 | where every checkpointed thread has a row, the gauge is exact and stays so under every sweep exactly when the state is steady |
| Lifecycle.AfterIsRowed | src/server/checkpoint_factory.py:182-254 | every request leaves every checkpointed thread with a row |
| Lifecycle.GaugeExactForGoodExactly | src/server/turn_api.py:391-480 | so a request leaves the gauge exact, now and under every later sweep, exactly when it is polite |
| Lifecycle.SweepKeepsSteady | src/server/sweeper.py:190-214 | a sweep keeps the gauge, the checkpointed threads and the rows in step |
| Lifecycle.UnknownIdDrainsGauge | src/server/turn_api.py:262-275 | a request naming an unknown id leads to a gauge of -1 |
| Lifecycle.UnknownDoneLeavesRow | src/server/turn_api.py:470-499 | /done on an unknown id leaves a touched row |
| Lifecycle.TimedOutTurnLeaks | src/server/turn_api.py:371-381 | a new turn that times out after a checkpoint is never counted |
| Lifecycle.StoredReplyIsReplayed | src/server/turn_api.py:293-316 | a request that derives the key of a live entry gets the stored reply and leaves checkpoints, gauge and turn counters alone |
| Lifecycle.ExecutedReplyIsStored | src/server/turn_api.py:371-425 | a turn that runs the graph leaves its reply to be found under the key it derived |
| Lifecycle.CacheOfRun | src/server/turn_api.py:293-417 | over a run the cache changes by the lookups and stores of the requests and by nothing else |
| Lifecycle.ReplayOverRuns | src/server/turn_api.py:293-417 | whatever requests and sweeps come in between, a request with the key of a reply stored less than the lifetime ago gets that reply, if fewer than maxsize other keys were used |
| Lifecycle.KeysAgreeExactly | src/server/turn_api.py:278-301 | two requests share a key exactly when both send the same usable header, or neither sends one and session, message and message count agree, or one sends a header that spells the hash of the other |
| Lifecycle.HeaderCanSpellKey | src/server/turn_api.py:293-301 | every internal key is itself a usable header, so the mixed case occurs |
| Lifecycle.RetriedOpeningReplays | src/server/turn_api.py:293-316 | an opening request retried with the same key within the lifetime gets the first reply, and neither opens a session nor runs anything |
| Lifecycle.TurnNumberIsZero | src/server/turn_api.py:278-291 | over every run in which the graph saves no `messages`, the turn number of every request is 0 |
| Lifecycle.RepeatedMessageReplays | src/server/turn_api.py:278-316 | a user who then repeats a message within the lifetime gets the earlier reply again, and the second request runs nothing |
| Lifecycle.RepeatedOpeningReplays | src/server/turn_api.py:262-316 | so does a user who sends the opening message of a new session again as the answer to its question |
| Interleavings.StagesInOrder | src/server/turn_api.py:262-417 | a request in flight passes the awaits of the handler in order, with its own thread, and stops at none it does not come to |
| Interleavings.StagesEnd | src/server/turn_api.py:262-417 | it is over only when its session is unknown, its reply was held, its reply is stored, or it is cut off |
| Interleavings.FlightIsUnbroken | src/server/turn_api.py:259-376 | a turn is in flight without a break from its first touch, or its arrival, to the end of its stream |
| Interleavings.ClosesInOrder | src/server/turn_api.py:470-500 | a /done reads, touches and deletes in this order, and ends early only for a session without a checkpoint |
| Interleavings.OnlyTheseChangeRows | src/server/checkpoint_factory.py:182-366 | the rows of a thread change only by a request that touches it or streams on it, and by a /done or a sweep that deletes it |
| Interleavings.RunIsSafe | src/server/turn_api.py:259-376 | in every interleaving a turn in flight has a touched row no older than its own touch, or none |
| Interleavings.ScanSparesTurns | src/server/sweeper.py:180-186 | in every interleaving the scan returns no thread with a turn in flight, if the threshold covers lag and timeout |
| Interleavings.AcceptedSettingsSpareTurns | src/server/config.py:213-228 | so it does for accepted settings with a positive timeout and a lag of at most four timeouts |
| Interleavings.LateTurnsOnly | src/server/sweeper.py:180-195 | in every interleaving, while a tick deletes, every turn in flight on a thread still to be deleted has touched it since the scan |
| Interleavings.EvictionHitsExactly | src/server/config.py:213-220 | so a deletion hits a turn in flight exactly when a turn touched the thread after the scan and is still in flight |
| Interleavings.StillStaleIsSafe | src/server/sweeper.py:183-195 | a thread whose row is still stale at the deletion has no turn in flight |
| Interleavings.LedgerBalances | src/server/turn_api.py:391-392 | in every interleaving the gauge is new sessions answered less confirmed /done deletions less sweeper deletions, and the store balances likewise |
| Interleavings.NoExecutionWhileHeld | src/server/turn_api.py:303-316 | while a reply is held under a key no interleaving runs the graph for that key |
| Interleavings.ExecutionsBeforeStore | src/server/turn_api.py:303-417 | on one run through the store of a reply, as long as the entry lives the graph has run for its key at most once for each request that looked the key up before the store |
| Sequential.TurnIsRun | src/server/turn_api.py:205-425 | handling one /turn with nothing else under way is a run of the transition system |
| Sequential.DoneIsRun | src/server/turn_api.py:447-506 | so is one /done |
| Sequential.TickIsRun | src/server/sweeper.py:175-214 | so is one tick, in whatever order it deletes |
| Sequential.ThresholdIsExact | src/server/config.py:213-228 | every scan in every interleaving spares the turns in flight if and only if the threshold is at least lag plus timeout |
| Sequential.TurnMayStartAfterScan | src/server/sweeper.py:183-193 | a run in which a turn streams on a session the sweeper has just deleted |
| DecisionGraph.Gather | src/features/decision_maker/nodes.py:468-474 | whatever order the searches complete in, the facts are in the order of the queries |
| DecisionGraph.BuildGraph | src/features/decision_maker/graph.py:125-219 | the builder's calls produce the compiled topology |
| DecisionGraph.FollowCompiled | src/features/decision_maker/graph.py:166-210 | where each node leads, routers and interrupt included |
| DecisionGraph.DoubleTrueExactly | src/features/decision_maker/nodes.py:961-1003 | a leg from the analyzer ends in DoubleTrueError exactly when both explicit flags are true in the state it starts from and the analyzer does not fail first, whatever the models answer |
| DecisionGraph.DoubleTrueUnreachable | src/features/decision_maker/nodes.py:961-1003 | no node writes the flags, so no first leg, and no resumed leg of a state without them, ends in DoubleTrueError or puts them there |
| DecisionGraph.StartTrace | src/features/decision_maker/graph.py:553-625 | a first leg that reaches the pause has visited (1 2)* 1 3 |
| DecisionGraph.ResumeTrace | src/features/decision_maker/graph.py:697-760 | a resumed leg that comes to the end or the pause has visited what was left of the run from its pending node: behind the pause 3.5 (4 5)+ 6, after a cut-off the rest |
| DecisionGraph.WholeSession | src/features/decision_maker/graph.py:553-760 | trace, facts and answer of a whole session |
| DecisionGraph.VisitsFollow | src/features/decision_maker/graph.py:166-210 | the visits are a path: each state is what the node before wrote, each node where its router sends it |
| DecisionGraph.AnalyzerDecides | src/features/decision_maker/nodes.py:399-991 | in every leg of a state without the explicit flags, an analyzer that asks for data and names queries is followed by the tool node, which searches exactly those, in order, and goes back; every other analyzer by the questioner |
| DecisionGraph.LatestAnswersStand | src/features/decision_maker/nodes.py:399-909 | every node works on the latest dilemma, question, weights, assumptions, draft and feedback |
| DecisionGraph.VisitsAreSound | src/features/decision_maker/nodes.py:781-1003 | the tool node is entered only with queries, the synthesis only when no rewrite is due; facts only grow as a prefix; the rewrite count only grows and stays at most 2; the answer is not written early |
| DecisionGraph.StartVisits | src/features/decision_maker/graph.py:553-625 | no draft and no answer in the first leg |
| DecisionGraph.ResumeVisits | src/features/decision_maker/graph.py:697-760 | every node of a resumed leg, from whatever node it goes on, works on the injected answer |
| DecisionGraph.SessionIsResumable | src/features/decision_maker/graph.py:553-760 | after every leg of every session of any number of legs, cut off anywhere, the checkpoint is sound, and a node behind the pause is pending only if some leg has paused |
| DecisionGraph.SessionVisits | src/features/decision_maker/graph.py:553-760 | at every visit of such a session the tool node has a query, nothing is answered yet, the rewrite count is within its cap, and no node behind the pause is entered before a leg has paused and been resumed |
| DecisionGraph.AnswerIsLastNodes | src/features/decision_maker/nodes.py:909-919 | a finished leg's answer is the final synthesizer's |
| DecisionGraph.FactsAccumulate | src/features/decision_maker/nodes.py:468-484 | the facts after a leg are those before it followed by each pass's results in query order |
| DecisionGraph.DraftsAreFew | src/features/decision_maker/nodes.py:820-847 | if feedback always comes with the wish for a rewrite, at most two drafts follow, one if a rewrite was already made |
| DecisionGraph.ResumeEnds | src/features/decision_maker/nodes.py:820-1059 | then every leg behind the pause, from whatever node it goes on, ends within six steps unless something fails |
| DecisionGraph.DraftsExactly | src/features/decision_maker/nodes.py:820-1059 | for every n, every answer of the models and every limit: from a draft on, more than n drafts are begun exactly when n rounds run through, the limit leaves room for one more, every one of the n critiques gives feedback, and the wishes for a rewrite among them leave the count below two |
| DecisionGraph.ResumedDraftsExactly | src/features/decision_maker/nodes.py:820-1059 | the same for a leg resumed behind the pause |
| DecisionGraph.SessionDraftsExactly | src/features/decision_maker/graph.py:553-760 | the same for whole sessions, with nothing assumed of the rewrite count: whatever the first leg does, the second starts with none |
| DecisionGraph.CapBrokenExactly | src/features/decision_maker/nodes.py:767-770 | the cap of two rewrites is broken, by a fourth draft, exactly when the first three critiques all give feedback and at most one of them asks for a rewrite |
| DecisionGraph.ThirdDraftExactly | src/features/decision_maker/nodes.py:820-1059 | a second rewrite, which the cap allows, is made exactly when the first two critiques both give feedback and do not both ask for it |
| DecisionGraph.LoopEndsExactly | src/features/decision_maker/nodes.py:767-770 | when nothing fails, a resumed leg ends under some step limit exactly when for some n the first n critiques do not all give feedback with the count below two |
| DecisionGraph.DraftLimitExactly | src/features/decision_maker/graph.py:207-210 | and under a given limit it runs into that limit exactly when the critics send back as many drafts as the limit has room for |
| DecisionGraph.DraftsUnbounded | src/features/decision_maker/nodes.py:1050-1059 | for every number of drafts there is a critic that causes it |
| DecisionGraph.LimitOnlyCuts | src/features/decision_maker/graph.py:207-210 | the executor's step limit only cuts legs off, it never changes one that ends |
| DecisionGraph.OnlyLastRaises | src/features/decision_maker/graph.py:207-210 | of the nodes a leg visits exactly those yield an update that do not raise, in their body or their router, and only the last can |
| Sessions.Streaming.StreamSession | src/features/decision_maker/graph.py:547-625 | one chunk per visited node that did not raise, then the question unless the graph raised; the client is set at the start and cleared at the end either way |
| Sessions.Streaming.StreamResumeSession | src/features/decision_maker/graph.py:691-760 | the same for a resumed leg, from whatever node is pending, and the final answer |
| Sessions.QuestionIsLastNodes | src/features/decision_maker/nodes.py:543-566 | a leg pauses at the questioner only, with its question |
| Sessions.NewTurnAsks | src/server/turn_api.py:337-425 | a /turn that opens a session and whose graph pauses answers with the questioner's question, still running |
| Sessions.ResumedTurnAnswers | src/server/turn_api.py:205-425 | a /turn that resumes a session and whose graph ends answers with the synthesizer's text, and is done |
| Sessions.UpdatesSayNothing | src/server/turn_api.py:337-369 | a stream that ends without its sentinel gives no text and is not done |
| Sessions.DoneIsTrueExactly | src/features/decision_maker/graph.py:741-760 | the done sentinel of a resumed leg is true exactly when the leg went on from behind the pause or the graph had ended |
| Sessions.CutOffStartSaysDone | src/features/decision_maker/graph.py:741-760 | a session cut off in its first leg, whose resumed graph comes to the question, yields an empty answer and the done sentinel |
| Sessions.CutOffTurnSaysDone | src/server/turn_api.py:262-425 | a /turn that opens a session whose graph saves and is cut off before the question names no session in its response; a second /turn with that id, whose graph comes to the question, answers with an empty text and done |
| Sessions.CutOffTurnHappens | src/server/turn_api.py:262-425 | such a pair of requests, for every id and every two messages |
| Sessions.GraphKeepsNoMessages | src/features/decision_maker/state.py:42-94 | no state of the graph checkpoints a `messages` channel |
| Sessions.WrittenFieldsStay | src/features/decision_maker/state.py:42-94 | each of the thirteen fields is checkpointed under its own name as soon as it was written |
| Sessions.SeesOwnClientThroughoutExactly | src/features/decision_maker/nodes.py:174-194 | they see it all the time exactly when every mark made meanwhile sets the same client |
| Sessions.SharedClientExactly | src/features/decision_maker/graph.py:547-619 | with one client for all, exactly when no other stream has ended meanwhile |
| Sessions.NoneLeft | src/features/decision_maker/graph.py:615-619 | once every stream has ended the override is empty |
| Sessions.OverlappingSessions | src/features/decision_maker/nodes.py:180-183 | of two overlapping streams with the same client the first to end takes it from the other |

## Left out

- The regular expression engine: the two tag patterns, the fences and the two anchored patterns are written as
  scanners; which characters `\w` covers (for `\b`) is a parameter of every theorem.
- SHA-256 and HMAC: functions given as parameters; the key hash is assumed injective where that is said.
- `json.loads` on bytes: detecting the character set is a parameter that must read printable ASCII as itself.
- JsonUtils.FailsExactly: does not model the 4300 digit limit on integers and the recursion limit of the decoder;
  beyond them `safe_json_parse` ends in a ValueError or RecursionError that its strategies do not catch.
- Auth.OtherErrorExactly: does not model the 4300 digit limit on integers and the recursion limit of `json.loads`,
  which depend on the interpreter; a signed payload beyond them ends in another exception too.
- Floats: a decoded float keeps its text; printing floats, and `int` and `str` of values other than integers, booleans
  and text, are parameters.
- JsonPrint.DumpsReads: does not cover values that contain floats, for the same reason as the next.
- JsonPrint.LoadsDumps: does not cover values that contain floats, because their printed form is not modelled.
- `sort_keys`: the three payload members are written in their sorted order.
- `require_service` and its cache of dependencies, FastAPI wiring, middleware, readiness probes, logging and
  fingerprints: input and output, or one branch each.
- SQLite and LangGraph: tables are maps, each deletion is one atomic step, a failed deletion changes nothing, and the
  graph is a node-by-node merge of state deltas. A superstep limit stands for LangGraph's recursion limit.
- cachetools: the cache is its sequence of entries in order of use, with the clock passed in.
- Interleavings.ScanSparesTurns: does not derive the lag between a request's touch and its stream, because nothing in
  the code bounds it; it is a parameter.
- Interleavings.AcceptedSettingsSpareTurns: assumes a lag of at most four timeouts for the same reason; by
  `Sequential.ThresholdIsExact` the smallest accepted threshold spares no longer one.
- Interleavings.EvictionHitsExactly: does not count a turn as in flight between its first read and its first touch,
  because nothing in the tables shows it then; a deletion in that gap leaves a touched row without a checkpoint.
- `uuid4`: the ids it makes are in no table and not among the threads a sweep is deleting.
- Interleavings: the deletion of a thread and the gauge's decrement are one step, as are the stream's end and the
  counters.
- `search_queries`, `weights` and `critique_feedback` of unexpected JSON types: they are lists, maps and text here.
- How LangGraph finds the pending node in a checkpoint: a leg's outcome carries the node, and a leg cut off at a node
  goes on with that node from the state before it.
- LangGraph's own channels in a checkpoint (`__start__`, the branches): only the fields of the graph's state are
  modelled.
- The Postgres branch, `src/core/llm_client.py`, the search adapter, prompts, `src/ui`, `scripts` and deployment
  files: foreign calls, user interface and tooling.
- `setup`, `ping` and the pass-through properties of the checkpointer: they would only add easy members.
