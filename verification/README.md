# HargaTurun: a verified model

HargaTurun helps a vendor mark down goods before they expire. A consultation gathers the facts
of an item turn by turn, with a language model that may only propose field patches; a
deterministic engine prices the markdown; buyers claim units of published deals. This project
models the backend's decisions and proves what they promise.

| Modules | Source | Content |
|---|---|---|
| `Chat`, `ChatTurns`, `ChatInterleaving`, `ChatMarks`, `ChatCalls`, `ChatExposed`, `ChatOverlap`, `ChatServer` | `backend/hargaturun/api.py` | one turn as stretches between awaits; runs of whole turns; runs of interleaved stretches with a record of which facts each revision named and which the oracle was asked for; the handler that updates live sessions |
| `Consultation`, `Sessions` | `backend/hargaturun/consultation.py` | patch validation, the reducer, the action policy, the pricing tool, the session store |
| `Numeric`, `Pricing`, `PricingFormula`, `PricingMonotonicity` | `backend/hargaturun/pricing.py` | the engine on exact reals, its formula, its bounds and its monotonicity |
| `ReplayMonitor`, `ReplayAct`, `ReplayScript` | `scripts/eval_agentic_workflow.py` | the harness that replays scripts and counts violations |
| `Bytes`, `Png`, `Webp`, `Jpeg`, `JpegWalk` | `backend/hargaturun/image_ingestion.py` | each container as encoder, parser and index-based walk |
| `Deals`, `DealStore` | `backend/hargaturun/api.py`, `backend/hargaturun/database.py` | the deal and claim tables with rollback |
| `RateLimit` | `backend/hargaturun/limits.py` | the pruned queue against the full log |
| `ProseNumbers`, `ProsePrinter`, `ProseScan`, `ProseRoundTrip` | `backend/hargaturun/schemas.py` | the number extractor against a printer |

The protocol is proved for any oracle (`Oracle` is a function from facts to an answer) and then
used with the engine. What the outside world contributes is a parameter: a parse is any proposal
or a failure, prose is any text, fresh ids and drawn claim codes are given, the clock is a
reading per call, CRC-32 is any function into 32 bits, the digest any function of the result, and
`x ** 1.5` any function `u` with `u(x) >= 0` and `u(x) * u(x) == x * x * x`. Bounds and margins
need not even that.

## Where the code and its text differ

- The limiter calls itself a fixed window (`backend/hargaturun/limits.py:191`); it is a sliding log, and so modelled.
- A comment says the limiter's key space is bounded (`backend/hargaturun/limits.py:241-242`). It is not: the purge is reached only after an accepted request, when no queue is empty, so the table holds every client that ever called, at any limit (`RateLimiter.OverLimit`, `Crowded`).
- Negative economics are said to be dropped (`backend/hargaturun/consultation.py:148-149`); truncation comes first, so a number between -1 and 0 becomes 0 (`NumberAcceptedExactly`).
- The harness counts a rejected key as an unauthorized mutation whenever its attribute moved, so a patch that names `revision` beside a real change trips it although the reducer did nothing wrong (`FalseAlarm`); exactly which patches do is `NothingUnauthorizedExactly`.
- Under overlapping turns `result_revision` may name a revision other than the stored result's (`MarkNamesResultExactly`, `OverlapMisplacesTheMark`), and the session can then stay without a result until a fact changes (`LateProseStrandsTheSession`). Nothing stale is ever exposed (`EveryInterleavingIsSound`).
- Under overlapping turns one revision may see several oracle calls (`TwoCallsForOneRevision`), each while all earlier answers still wait (`AskedExactly`).
- Rounding to Rp500 can push the recommendation for an item of at most Rp16.580 off its own stated discount, and publishing then refuses it (`EngineDealPublishableExactly`, `EngineDealMayBeRefused`, `LimitIsSharp`).

## Model

| member | source | states |
|---|---|---|
| `ChatInterleaving.EveryInterleavingIsSound` | backend/hargaturun/api.py:315-443 | Under every interleaving of any number of turns on one session, cut at the awaits, every reply that exposes a result shows a complete and confirmed state, a result of that very revision, and the oracle's answer, field by field, for exactly the facts shown; a stale stored result is still the answer for its own revision. |
| `ChatExposed.ExposedResultsAreTheEngines` | backend/hargaturun/api.py:721-799 | In every such run with the engine as oracle, an exposed recommendation carries the engine's discount, price, timing, units, stock, revenue, loss, confidence and used shelf life for the facts shown, those facts, and the prose that an event of the run brought for that revision; an exposed deferral the engine's message and re-check day; an exposed problem its message. |
| `ChatExposed.EveryAdviceIsBrought` | backend/hargaturun/api.py:751-762 | In every run the prose of every stored or exposed recommendation is that of an event that brought it for that revision. |
| `Chat.PayloadReports` | backend/hargaturun/api.py:733-782 | A payload tells its answer field by field, under its revision, with prose for a recommendation only. |
| `ChatInterleaving.StepKeepsInvariant` | backend/hargaturun/api.py:315-443 | Every stretch between two awaits, from any invariant world, keeps the invariant, moves the revision forward and only adds to the revision-to-facts history. |
| `ChatInterleaving.HistoryIsAppendOnly` | backend/hargaturun/api.py:402-443 | Over any run the revision-to-facts history only grows, the revision never falls and replies are never withdrawn. |
| `ChatInterleaving.RevisionNamesFacts` | backend/hargaturun/consultation.py:202-218 | Two points of a run with the same revision have the same facts, whatever ran in between. |
| `ChatInterleaving.ExposedPricesKeepTheMargin` | backend/hargaturun/api.py:785-799 | With the pricing engine as oracle, every recommendation that any interleaving exposes equals the engine's for the facts in the same reply, below the shown price and at least Rp500 above the shown cost. |
| `ChatMarks.EveryRunIsMarked` | backend/hargaturun/api.py:402-443 | In every interleaved run a mark `result_revision` is the current revision, and there is one if and only if a result is stored. |
| `ChatMarks.MarkNamesResultExactly` | backend/hargaturun/api.py:431-443 | The exact condition: for an answer to the revision current at event n whose prose arrives at event m of any run, the mark names the stored result if and only if no event between n and m changed the facts, which is also exactly when the reply exposes it. |
| `ChatMarks.RevisionMovesExactly` | backend/hargaturun/consultation.py:202-218 | Over any stretch of any run the revision stands still if and only if no event in it changed the facts. |
| `ChatMarks.StuckStepExactly` | backend/hargaturun/api.py:402-443 | When the mark claims the current revision for a result of another, a step mends that if and only if it changes the facts or brings an answer for the current revision; any other step asks no oracle and shows no result. |
| `ChatMarks.StuckStaysStuck` | backend/hargaturun/api.py:402-443 | Over any stretch of any run, such a session with no current answer under way stays so while no event changes the facts: no oracle call and no result in any reply. |
| `ChatOverlap.OverlapMisplacesTheMark` | backend/hargaturun/api.py:431-440 | The false property with its input: for every item in need of a markdown, two overlapping confirmations leave a result of revision 1 marked as revision 2 on a confirmed state. |
| `ChatMarks.StaleAnswerMisplacesTheMark` | backend/hargaturun/api.py:415-443 | A stale answer leads there from any session, confirmed or not; every later confirmation or calculation without a change asks no oracle, shows no result, and is told `EXPLAIN_RESULT` once the state is confirmed. |
| `ChatOverlap.LateProseStrandsTheSession` | backend/hargaturun/api.py:382-443 | For every item in need of a markdown: confirm, edit a fact during the prose wait, let the prose arrive. Whatever follows without changing a fact, the oracle is not asked again and no result is shown. |
| `ChatOverlap.TwoCallsForOneRevision` | backend/hargaturun/api.py:415-423 | For every such item a calculation during the prose wait asks the oracle again for the same revision. |
| `ChatCalls.CallsAreWaiting` | backend/hargaturun/api.py:415-443 | In every interleaved run the calls come in order of revision, and while the current revision is unmarked its calls are exactly as many as its answers that wait for prose. |
| `ChatCalls.AskedExactly` | backend/hargaturun/api.py:415-443 | In every run a step asks the oracle if and only if it merges a proposal into a state left confirmed whose revision is new or unmarked; it asks for that revision, and if the revision stood, all its earlier answers still wait. |
| `ChatTurns.EveryBoundaryIsCoherent` | backend/hargaturun/api.py:402-443 | At every turn boundary of every run of non-overlapping turns: confirmed, "a result is stored" and "`result_revision` is the revision" are equivalent, confirmed implies complete, and the stored result is the oracle's answer for the current facts. |
| `ChatTurns.OneCallPerRevision` | backend/hargaturun/consultation.py:275-292 | In every such run the revisions the oracle is called for are strictly increasing, so none sees two calls, and the current one was called for exactly when it is confirmed; every reply is sound. |
| `ChatTurns.TurnKeepsCoherence` | backend/hargaturun/api.py:315-443 | One turn keeps the boundary invariant, moves the revision by at most one, keeps the facts within a revision, and calls the oracle only for a newly confirmed revision. |
| `ChatTurns.TurnAnswers` | backend/hargaturun/consultation.py:230-238 | A served turn asks for the missing fields if and only if the state it leaves is incomplete, shows the facts if and only if they are complete but unconfirmed, and explains, with a result, if and only if they are confirmed. |
| `ChatTurns.AtomicIsMerge` | backend/hargaturun/api.py:357-443 | The three stretches run without interruption are one refused, excused or merging turn. |
| `Chat.ImagesNeverSetEconomics` | backend/hargaturun/api.py:358-380 | Whatever is read off an image, original price, cost and daily sales keep their values. |
| `Chat.ImagesPassTheRest` | backend/hargaturun/api.py:680-693 | For item name, category, stock, days, shelf life and shop name a proposal read off an image counts exactly like one read off a text. |
| `ChatServer.MergeAndAct` | backend/hargaturun/api.py:402-443 | The imperative handler: validate, merge, drop, confirm, decide and act leave the session, the reply and the tool trace that the turn function gives. |
| `ChatServer.PriceAndStore` | backend/hargaturun/api.py:421-443 | Asking the tool stores a payload that reports its answer field by field for the state's facts and revision, the status and the mark, and logs one call for the revision. |
| `ChatServer.ServeTurn` | backend/hargaturun/api.py:357-443 | A turn served step by step ends as the composed stretches do, with at most one tool call, for the revision they say. |
| `ChatServer.ExposeReply` | backend/hargaturun/api.py:785-799 | The reply carries the state and its missing fields, and the result only while its revision is the state's. |
| `ChatServer.ServeStored` | backend/hargaturun/api.py:349-354 | Within its turn and text limits a stored session runs the turn and counts it; beyond them the reply is 429 and it keeps every value. |
| `ChatServer.ChatTurn` | backend/hargaturun/api.py:315-443 | One request, every branch: 422 and 404 change nothing, a reset replaces the session by an empty one, any other turn leaves the addressed or new session as the limited turn function says, touches no other session, and keeps every session coherent. |
| `ChatServer.RefusedTurnChangesNothing` | backend/hargaturun/api.py:360-365 | A turn refused as empty leaves the session as it was. |
| `ChatServer.ServeNew` | backend/hargaturun/api.py:330-347 | A request that addresses no session is served on a fresh one, and no session that was there is touched. |
| `Consultation.ValidatePatch` | backend/hargaturun/consultation.py:141-199 | The loop returns exactly the accepted facts and the rejected keys, in order, and the accepted facts are well typed. |
| `Consultation.AcceptedWellTyped` | backend/hargaturun/consultation.py:141-199 | No proposal, however malformed, gets an ill-typed fact accepted: numbers are non-negative, price and stock positive, texts stripped and non-empty, categories known. |
| `Consultation.AcceptedFromItem` | backend/hargaturun/consultation.py:159-197 | The item that names a field decides it alone: accepted with the admitted value or not at all. |
| `Consultation.NotAccepted` | backend/hargaturun/consultation.py:159-197 | A field that no item names is not accepted. |
| `Consultation.RejectedExactly` | backend/hargaturun/consultation.py:159-197 | A key is rejected if and only if some item with it names no field or fails its field's check. |
| `Consultation.RejectionIs` | backend/hargaturun/consultation.py:159-197 | An item is rejected if and only if its key is no field's or its field does not admit its value. |
| `Consultation.NumberAcceptedExactly` | backend/hargaturun/consultation.py:175-183 | A finite number is accepted if and only if it is above -1, or at least 1 for price and stock: truncation precedes the sign test. |
| `Consultation.NumbersAdmitted` | backend/hargaturun/consultation.py:167-184 | What each kind of JSON value does for a numeric field: null nothing, a whole number itself, any other number its whole part, a boolean or anything else a rejection. |
| `Consultation.TextsAdmitted` | backend/hargaturun/consultation.py:186-197 | What it does for a text field: only a string that is not blank, stripped, and for the category a known name. |
| `Text.StripTrims` | backend/hargaturun/consultation.py:190 | Stripping takes white space off both ends and nothing else. |
| `Consultation.InputIsTheFacts` | backend/hargaturun/consultation.py:126-138 | The engine is asked about exactly the confirmed facts. |
| `Consultation.SmallNegativeBecomesZero` | backend/hargaturun/consultation.py:175-183 | The input that shows it: a cost of -0.5 is accepted as 0. |
| `Consultation.MergeEffect` | backend/hargaturun/consultation.py:202-218 | A merge overwrites exactly the accepted facts; the revision moves, by one, if and only if some fact changes, and then confirmation and mark are cleared. |
| `Consultation.CompleteExactly` | backend/hargaturun/consultation.py:112-116 | A state is complete if and only if its list of missing fields is empty. |
| `Consultation.PricingTool.Run` | backend/hargaturun/consultation.py:275-292 | The tool answers if and only if the state is complete and confirmed, and logs one call exactly then. |
| `Sessions.Session.AcceptTurn` | backend/hargaturun/consultation.py:311-317 | A turn is counted if and only if it is a reset or both limits still allow it; otherwise nothing changes. |
| `Sessions.SessionStore.Create` | backend/hargaturun/consultation.py:343-350 | A new empty session at the end of the order; the first one goes if and only if the store is full, and every other stays. |
| `Sessions.SessionStore.Drop` | backend/hargaturun/consultation.py:355-356 | Exactly the named session goes. |
| `Sessions.WithoutKeepsRest` | backend/hargaturun/consultation.py:355-356 | Dropping an id keeps every other id, in order and without repetition. |
| `Pricing.RecommendationBounds` | backend/hargaturun/pricing.py:399-444 | Every recommendation: discount a multiple of 5 in 5 to 70 under the margin ceiling; cost + 500 <= price' < price; price' a multiple of 500 or cost + 500; exact - 500 < price' <= exact + 250. |
| `PricingFormula.DiscountFollowsFormula` | backend/hargaturun/pricing.py:316-373 | An ordinary recommendation, from the input's own numbers and the tabulated constants: with u >= 0, u^2 = (share of life over)^3, p = stock / (sales x days) and b the category's weight, the discount is 5 if 80 b u clamp((p - 1)/4, 0, 1) is lower, and otherwise the multiple of 5 nearest to it, ties up, unless that leaves less than Rp500: then the greatest that does. Two units or fewer get at most 15. |
| `PricingFormula.TermsExist` | backend/hargaturun/pricing.py:320-324 | Every priceable input has such u, p and b. |
| `PricingFormula.TermsAreReported` | backend/hargaturun/pricing.py:341-357 | A recommendation or deferral reports the stock, the shelf life used and whether it was defaulted, p and u. |
| `PricingFormula.ProjectionsFollowFormula` | backend/hargaturun/pricing.py:447-452 | Units are the nearest integer to min(stock, sales x days x (1 + d/50)), and the loss to the cost of what is left at the usual sales. |
| `PricingFormula.RecheckHalfway` | backend/hargaturun/pricing.py:344 | The re-check day is the nearest to half the days left, ties up. |
| `PricingFormula.ReasonsExactly` | backend/hargaturun/pricing.py:294-314 | Which input gets which message, when it counts as expired, and the stock it reports. |
| `Pricing.RecommendationExactly` | backend/hargaturun/pricing.py:294-384 | A recommendation is made if and only if the input is priceable, not deferred, and 20(cost + 500) <= 19 price. |
| `Pricing.NoActionExactly` | backend/hargaturun/pricing.py:341-357 | A markdown is deferred if and only if at least a day is left, the stock sells within the remaining days, and urgency is below 0.7. |
| `Pricing.RecheckBeforeExpiry` | backend/hargaturun/pricing.py:341-357 | Every re-check day is at least 1 and at most the remaining days. |
| `Pricing.CeilingMeansMargin` | backend/hargaturun/pricing.py:316-318 | A discount up to 70 is under the ceiling if and only if the discounted price covers the cost and Rp500. |
| `Pricing.FinalizedDiscount` | backend/hargaturun/pricing.py:412-416 | The final discount is a multiple of 5 of at least 5, never above the ceiling nor its floor multiple, and is that multiple when the raw value reaches the ceiling. |
| `Pricing.PriceBounds` | backend/hargaturun/pricing.py:434-444 | The price bounds for any discount under the ceiling, through nearest rounding, the lower-step fallback and the margin floor; above Rp5.000 the price is within 250 of the exact one on both sides. |
| `Pricing.SteppedIsNearest` | backend/hargaturun/pricing.py:437-443 | Above Rp5.000 the lower-step fallback is never taken. |
| `Pricing.FireSaleIsDeepest` | backend/hargaturun/pricing.py:326-338 | A fire sale picks the greatest multiple of 5 under the ceiling, and no other call with the same price and cost recommends a deeper one. |
| `Pricing.ProjectionsConsistent` | backend/hargaturun/pricing.py:446-452 | 0 <= units <= stock, revenue = units x price and covers the margin, 0 <= loss <= stock x cost, and nothing is lost when the stock sells in time. |
| `Pricing.UnitsAreNearest` | backend/hargaturun/pricing.py:447-448 | The capped unit count is still the nearest integer to the capped estimate. |
| `PricingMonotonicity.PressingNeverLater` | backend/hargaturun/pricing.py:375-377 | Between two recommendations the more pressing one is never told to start later, and at the same rate of sales never carries the weaker confidence while the other carries the stronger. |
| `PricingMonotonicity.PressingNeverGentler` | backend/hargaturun/pricing.py:316-373 | Between two priceable inputs of one price and category, the more pressing (fewer days, more stock, slower sales, longer shelf life, lower cost) is left alone only if the other is, is discounted whenever the other is, at least as deeply and at no higher a price. |
| `PricingMonotonicity.FewerDays` | backend/hargaturun/pricing.py:322-373 | Fewer days never give a smaller discount, across the fire-sale boundary too; no action at some days stays no action for more. |
| `PricingMonotonicity.MoreSupply` | backend/hargaturun/pricing.py:320-373 | More stock or slower sales never give a smaller discount, across the two-unit cap, and never turn a recommendation into no action. |
| `PricingMonotonicity.HigherCost` | backend/hargaturun/pricing.py:412-444 | Between recommendations that differ in cost, the higher cost has no larger discount and no lower price. |
| `PricingMonotonicity.PowerMonotone` | backend/hargaturun/pricing.py:323 | The 3/2 power, known only by its square, is monotone. |
| `PricingMonotonicity.FinalizeMonotone` | backend/hargaturun/pricing.py:412-416 | A smaller raw discount under a lower ceiling never ends higher, through clamping, rounding and flooring. |
| `PricingMonotonicity.PriceMonotone` | backend/hargaturun/pricing.py:434-444 | A smaller discount and a higher cost never end in a lower price, through the fallback and the floor. |
| `Numeric.FloorToStepIsGreatest` | backend/hargaturun/pricing.py:122-124 | A multiple of the step is at most the value if and only if it is at most the floored one. |
| `Numeric.RoundToStepIsNearest` | backend/hargaturun/pricing.py:117-119 | Rounding to a step lands on a multiple within half a step, ties up. |
| `Numeric.RoundToStepMonotone` | backend/hargaturun/pricing.py:117-119 | Rounding to a step is monotone. |
| `ReplayScript.Replay` | scripts/eval_agentic_workflow.py:336-527 | For every script over the engine: every tool call of the production run is evaluated exactly once, and no stale exposure, stale reuse, hash violation, pricing violation or nondeterminism is counted; the report is the production run's, with a result if and only if the state is confirmed, the engine's answer for the final facts; the unauthorized-mutation counter stays put if and only if every patch is harmless to the state it meets. |
| `ReplayScript.ReplayWith` | scripts/eval_agentic_workflow.py:336-527 | The same with the tool answering by any oracle and the fresh evaluations by another whose answers pass the safety checks: every call is evaluated once, and pricing violations and nondeterministic results grow by exactly the number of calls on which the two differ. |
| `ReplayScript.EveryCallIsWatched` | scripts/eval_agentic_workflow.py:460-470 | The counters of a script: evaluations grow by the calls of the production run, violations by the differing ones, and nothing is counted if none differ. |
| `ReplayScript.TrippedAlongExactly` | scripts/eval_agentic_workflow.py:368-381 | The growth over a script is zero if and only if each patch brings no new fact to the state it meets, or names neither `revision` nor a set `confirmed` or `result_revision`. |
| `ReplayScript.StateMetIs` | scripts/eval_agentic_workflow.py:353-495 | The state that turn n meets is the one the production run of the turns before it reaches. |
| `ReplayScript.FalseAlarm` | scripts/eval_agentic_workflow.py:368-381 | A script of one message whose patch names `revision` beside a cost ends with the counter at 1. |
| `ReplayScript.ReplayTurns` | scripts/eval_agentic_workflow.py:353-495 | The loop keeps the harness in step with the production run after every prefix. |
| `ReplayScript.ScriptRunIsProductionRun` | scripts/eval_agentic_workflow.py:353-495 | The run the harness mirrors is the run of the production turns. |
| `ReplayScript.ReduceTurn` | scripts/eval_agentic_workflow.py:361-402 | The patch-carrying half of a turn: the reduced session, and the exact counts of rejected keys that moved and of invalidations. |
| `ReplayAct.ActTurn` | scripts/eval_agentic_workflow.py:404-495 | On any session, mirrored or not: a broken payload and a stale one are counted, only a trusted result counts for the decision, and an answer is stored, bound, marked, evaluated once and compared with the fresh evaluation. |
| `ReplayAct.MirrorsAct` | scripts/eval_agentic_workflow.py:443-486 | On a session that mirrors production acting keeps the mirror. |
| `ReplayAct.CountStaleness` | scripts/eval_agentic_workflow.py:412-431 | Both stale counters grow by one exactly when the stored revision is not the state's. |
| `ReplayAct.Summarize` | scripts/eval_agentic_workflow.py:497-527 | On any session a result, with its status and price, is reported if and only if it is trusted, and a broken one is counted. |
| `ReplayMonitor.TrustedSessionResult` | scripts/eval_agentic_workflow.py:216-254 | Trusted if and only if intact, bound and current; a broken payload is counted once per key. |
| `ReplayMonitor.RecordHashViolation` | scripts/eval_agentic_workflow.py:198-213 | One integrity failure counts exactly once. |
| `ReplayMonitor.ObserveResult` | scripts/eval_agentic_workflow.py:264-324 | One evaluation: the answer a fresh run gives raises nothing, any other counts as one pricing violation, one nondeterministic result and one for each kind of breach; a broken payload counts once per key. |
| `ReplayMonitor.ValidateStoredResult` | scripts/eval_agentic_workflow.py:165-195 | No error if and only if hash, status and the produced result agree. |
| `ReplayMonitor.ValidateAuthoritativeResult` | scripts/eval_agentic_workflow.py:530-586 | No error if and only if the result is the fresh one for the same facts; and a margin, discount, price, shape or projection error if and only if the result breaches it. |
| `ReplayMonitor.OracleIsSafe` | scripts/eval_agentic_workflow.py:553-584 | The pricing theorems discharge every shape, discount, margin, price and projection check, on every input. |
| `ReplayMonitor.RejectedKeyChangesExactly` | scripts/eval_agentic_workflow.py:368-381 | A rejected key changes its attribute if and only if the patch brings a new fact and the key is `revision`, or a set `confirmed` or `result_revision`. |
| `ReplayMonitor.NamingRevisionTrips` | scripts/eval_agentic_workflow.py:368-381 | The false alarm with its input: a patch naming `revision` beside a new cost counts once. |
| `ReplayMonitor.CountedExactly` | scripts/eval_agentic_workflow.py:368-381 | For every patch and state the counter grows by the number of tripping keys the patch names, and by none without a new fact. |
| `ReplayMonitor.NothingUnauthorizedExactly` | scripts/eval_agentic_workflow.py:368-381 | No rejected key of a patch is counted if and only if the patch brings no new fact, or names neither `revision` nor a set `confirmed` or `result_revision`. |
| `JpegWalk.ValidateJpeg` | backend/hargaturun/image_ingestion.py:210-255 | Accepts a byte string if and only if it is the encoding of an image of the marker grammar (ITU-T T.81 sections B.1.1 and B.2.1). |
| `JpegWalk.ScanEntropy` | backend/hargaturun/image_ingestion.py:232-250 | The inner loop stops where the entropy grammar stops, or fails where it fails. |
| `JpegWalk.SegmentEnd` | backend/hargaturun/image_ingestion.py:258-264 | The end of a length-counted segment, or failure, as the grammar's parser has it. |
| `JpegWalk.Advance` | backend/hargaturun/image_ingestion.py:215-254 | One marker with its segment and entropy data: the verdict, or a later position with the same verdict. |
| `Jpeg.ParseJpegExactly` | backend/hargaturun/image_ingestion.py:210-264 | The parser accepts exactly the encodings, with the encoded image as result: encode and parse undo each other. |
| `Jpeg.JpegPrefixFree` | backend/hargaturun/image_ingestion.py:224-227 | If one encoding extends another they are equal, so accepted data plus any non-empty suffix is rejected. |
| `Jpeg.ItemsParse` | backend/hargaturun/image_ingestion.py:215-254 | Every encoded item list parses back to itself, and only with nothing after the final EOI. |
| `Png.ValidatePng` | backend/hargaturun/image_ingestion.py:267-289 | Accepts a byte string if and only if it is the signature and the encodings of chunks of which only the last is IEND, and that one is empty (RFC 2083 sections 3.1 and 3.2), with right checksums. |
| `Png.ReadChunk` | backend/hargaturun/image_ingestion.py:271-284 | One chunk: rejection or its type, length and end, with the verdict of the rest. |
| `Png.ParsePngExactly` | backend/hargaturun/image_ingestion.py:267-289 | Encode and parse undo each other: a parse succeeds with a list exactly on that list's encoding. |
| `Png.PngPrefixFree` | backend/hargaturun/image_ingestion.py:285-288 | No accepted string properly extends another, and an encoding has one list. |
| `Webp.ValidateWebp` | backend/hargaturun/image_ingestion.py:292-308 | Accepts a byte string if and only if it is the encoding of a chunk list under a matching RIFF size (RFC 9649 sections 2.3 and 2.4); the value of a pad byte is free, as in the code. |
| `Webp.WalkChunks` | backend/hargaturun/image_ingestion.py:298-308 | From any chunk boundary the loop accepts if and only if the rest parses as chunks. |
| `Webp.ParseWebpExactly` | backend/hargaturun/image_ingestion.py:292-308 | Encode and parse undo each other. |
| `Webp.WebpPrefixFree` | backend/hargaturun/image_ingestion.py:295-297 | No accepted string properly extends another, and an encoding has one list. |
| `Bytes.BigEndianRead` | backend/hargaturun/image_ingestion.py:274 | A number written big-endian in its width reads back. |
| `Bytes.LittleEndianRead` | backend/hargaturun/image_ingestion.py:302 | A number written little-endian in its width reads back. |
| `Deals.StockIsConserved` | backend/hargaturun/api.py:526-623 | In every reachable store, for every deal: remaining stock plus its claims is the initial stock, remaining is never negative, active implies some left and sold out none. |
| `Deals.RunForward` | backend/hargaturun/api.py:591-646 | Between any two points of any run: removed and redeemed are absorbing, no deal returns to active, stock never comes back, claims keep their deal. |
| `Deals.RemoveExactly` | backend/hargaturun/api.py:591-600 | Removing succeeds if and only if the deal exists, and changes nothing but its status, to removed. |
| `Deals.NoClaimAfterRemoval` | backend/hargaturun/api.py:591-607 | In any run every claim of a deal after its removal is answered 409. |
| `Deals.PublishExactly` | backend/hargaturun/api.py:526-566 | Publishing succeeds if and only if the request is sound and the id new; it adds one active deal with the requested prices and discount and its whole stock left, and nothing else changes. |
| `Deals.CodesAreDistinct` | backend/hargaturun/api.py:988 | The 9000 codes are distinct, each HT- and four digits. |
| `Deals.RedeemedOnce` | backend/hargaturun/api.py:625-646 | In any run a code that was redeemed is answered 409 ever after, however it is spelled. |
| `Deals.FailureChangesNothing` | backend/hargaturun/api.py:602-623 | A failed operation, exhaustion of codes included, leaves both tables as they were. |
| `Deals.ClaimExactly` | backend/hargaturun/api.py:602-623 | A claim succeeds if and only if the deal is active and some drawn code is free; it then takes one unit under a new code, and sells out at the last. |
| `Deals.RedeemExactly` | backend/hargaturun/api.py:625-646 | Redeeming works if and only if the code, stripped and upper-cased, is claimed; it touches no deal and no other claim. |
| `Deals.FirstFreeIs` | backend/hargaturun/api.py:986-991 | The chosen code is a drawn one that no claim has, and none is chosen if and only if all drawn codes are taken. |
| `DealStore.Store.Claim` | backend/hargaturun/api.py:602-623 | The transaction takes the unit first and restores the tables when no code is left; it ends as the claim function says. |
| `DealStore.Store.PublishDeal` | backend/hargaturun/api.py:526-566 | The guards in the source's order; the tables and outcome are the publish function's. |
| `DealStore.Store.RemoveDeal` | backend/hargaturun/api.py:591-600 | The tables and outcome are the remove function's, which `Deals.RemoveExactly` pins. |
| `DealStore.Store.RedeemClaim` | backend/hargaturun/api.py:625-646 | The case-insensitive look-up finds the one claim with the normalized code. |
| `DealStore.Store.NewClaimCode` | backend/hargaturun/api.py:986-991 | The loop returns the first drawn code that is free. |
| `DealStore.EngineDealKeepsTheMargin` | backend/hargaturun/api.py:530-535 | Every engine recommendation passes the schema, margin and markdown guards. |
| `DealStore.DiscountOkExactly` | backend/hargaturun/api.py:536-538 | The discount guard holds if and only if twice the distance of 100 deal from (100 - d) price is below 3 price, or equal to it with d odd. |
| `DealStore.EngineDealPublishableExactly` | backend/hargaturun/api.py:526-538 | A recommendation can be published if and only if its price and discount meet that integer condition. |
| `DealStore.EngineDealIsPublishable` | backend/hargaturun/api.py:526-538 | From a price of Rp16.581 up every recommendation can be published. |
| `DealStore.LimitIsSharp` | backend/hargaturun/api.py:536-538 | At Rp16.580 one cannot: 5% off for Rp16.000, which rounds to 3%. |
| `DealStore.EngineDealMayBeRefused` | backend/hargaturun/api.py:536-538 | The input that shows it can fail: Rp1.200, no cost, last day, 55% for Rp500. |
| `RateLimit.RateLimiter.OverLimit` | backend/hargaturun/limits.py:232-246 | With a clock that never runs back, the pruned queue decides exactly as the full log of accepted requests: over if and only if at least `limit` lie in the window. Whatever the limit, the table's keys are exactly the clients that have called, so it exceeds 1024 entries if and only if more than 1024 clients have. |
| `RateLimit.TableCountsClients` | backend/hargaturun/limits.py:241-245 | The table has exactly as many entries as clients have called. |
| `RateLimit.PurgeIsIdle` | backend/hargaturun/limits.py:241-245 | Where the purge can be reached it removes nothing. |
| `RateLimit.Crowded` | backend/hargaturun/limits.py:232-246 | The bound refuted: for every n, so for 1025, one call from each of n clients leaves n entries. |
| `RateLimit.CrowdIsDistinct` | backend/hargaturun/limits.py:232-246 | Those n calls come from n distinct clients. |
| `RateLimit.AcceptedAreSpaced` | backend/hargaturun/limits.py:232-246 | Any `limit` + 1 consecutive acceptances of a client span more than the window. |
| `RateLimit.ClientsAreIndependent` | backend/hargaturun/limits.py:232-246 | What a client is granted depends on its own calls alone. |
| `RateLimit.RateLimiter.Prune` | backend/hargaturun/limits.py:236-237 | The pruned queue has as many entries as the log has in the window. |
| `RateLimit.RateLimiter.PurgeIfCrowded` | backend/hargaturun/limits.py:243-245 | Past 1024 entries exactly the empty queues go; otherwise nothing does. |
| `RateLimit.QueueCounts` | backend/hargaturun/limits.py:236-240 | A queue that keeps the recent end of the log counts its recent entries. |
| `ProseRoundTrip.PrintedNumbersComeBack` | backend/hargaturun/schemas.py:393-422 | For every list of words, codes such as 30x, amounts after Rp in any case with or without dots and space, numerals with dotted thousands, plain numbers and decimals with comma or dot, joined by spaces, the extractor returns the amounts, then the thousands, then the numbers and decimals, each in order, and nothing for words and codes; provided no words end in Rp before a number, which would make it an amount. |
| `ProseRoundTrip.BareNumeralComesBack` | backend/hargaturun/schemas.py:393-422 | A bare numeral with dotted thousands extracts to its number. |
| `ProseRoundTrip.CheckPassesExactly` | backend/hargaturun/schemas.py:309-314 | The number check of such prose passes if and only if every number printed is allowed. |
| `ProseRoundTrip.CurrencyReads` | backend/hargaturun/schemas.py:388 | The currency pattern takes each amount whole, with its value, and finds nothing in words, codes and other numbers. |
| `ProseRoundTrip.GroupedReads` | backend/hargaturun/schemas.py:389 | The second pattern takes dotted thousands whole and finds nothing in words, codes, plain numbers and decimals. |
| `ProseRoundTrip.PlainReads` | backend/hargaturun/schemas.py:390 | The third pattern takes plain numbers and decimals whole and finds nothing in words and codes. |
| `ProseScan.ProseIsRead` | backend/hargaturun/schemas.py:405-414 | One pass over printed prose returns the values of its tokens in order and leaves the prose with those tokens blanked. |
| `ProsePrinter.DottedReads` | backend/hargaturun/schemas.py:406 | A numeral without its dots has the number's value. |
| `ProseNumbers.ExtractNumbers` | backend/hargaturun/schemas.py:393-422 | The three passes over the overwritten text return the numbers of the scan function, which `ProseRoundTrip.PrintedNumbersComeBack` pins. |
| `ProseNumbers.RunPass` | backend/hargaturun/schemas.py:404-407 | One pass that appends and blanks in place is the left-to-right scan of non-overlapping matches. |
| `ProseNumbers.UnsupportedNumbers` | backend/hargaturun/schemas.py:309-314 | The errors are the numbers of the text that are not allowed, in order. |
| `ProseNumbers.UnsupportedOneMore` | backend/hargaturun/schemas.py:312-314 | A further number is a further error if and only if it is not allowed. |

## Left out

- EngineDealIsPublishable: one direction only, from the sharp price limit; below it some recommendations can be published and some not, exactly as `EngineDealPublishableExactly` says.
- IEEE doubles: numbers are exact reals and integers, so rounding error, NaN, infinity and overflow in the engine are not modelled, nor are its type and finite-value screens. The discount guard of publishing is computed in doubles too: `DiscountOkExactly`, its half-way clause above all, is about exact reals. Decimals in prose are exact as well.
- Category spelling: the engine's `normalize_category` is not modelled; its input carries a category.
- Model inference, worker processes, timeouts, HTTP framing, Pillow decoding, base64, temporary files and SHA-256 are parameters or absent; CRC-32 is an arbitrary checksum.
- SQLite: a transaction is one atomic step; timestamps, promo copy, days and the listing endpoints are not modelled, and stripping quotes off display names is a flag saying whether a name is left.
- Text outside ASCII: stripping, upper-casing and the three number patterns are modelled on ASCII.
- Messages, previews and copy strings of replies: an action and the numbers stand for them.
- Turn and text limits, and sessions dropped while a request waits, in the interleaved runs: every arrival there is admitted, which only adds runs.
- The harness's trace and observation lists, suite validation, scoring and reports.
- Sign-in, CORS, environment parsing, body-size limits, shops, the non-conversational recommend endpoint, the Flutter app and deployment files.
- The other checks of prose (keys, types, sentence counts) in `backend/hargaturun/schemas.py`.
