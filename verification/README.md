# Zerotal, verified pieces

A Dafny model of the parts of the Zerotal framework whose guarantees are hard to see by reading one function:
the AI spend ledger that many processes share, the translation of validation schemas into JSON Schema and back,
the tree, ordering and menu algorithms of the admin panel and the release script, the agent loop, the one-time
codes and token lifecycles of the auth package, and the diff classifier of the release checks.

Code that changes state is modelled by classes and methods proved against specification functions; the results are
lemmas about those functions, over every input, every run or every interleaving. Money is `real`; only the rounding
to micro-dollars is kept. Hashes, MACs and encryption are parameters, assumed injective or fresh where a lemma says so.
Clocks, the network, the database, the cache, npm and the AI driver are parameters or steps that may succeed, fail or
be delayed.

| module | models |
|---|---|
| `SpendLedger`, `SpendBounds`, `SpendGuards` | the daily ledger: one process, then any number of processes over one store with messages in flight, then processes that guard one request at a time |
| `Pricing`, `AgentLoop` | the price of a request, the per-request ceiling, the agent loop |
| `JsonSchema`, `SchemaGraph` | schema translation on trees and on shared definition objects, and the values that travel through it |
| `ParentForest`, `ArrangeTree` | parent pointers and the forests they describe; tree order of a resource's rows |
| `SidebarEntries`, `Navigation`, `VisibleNavigation`, `StableSort` | the admin sidebar, and what one user sees of it |
| `PublishOrder`, `Release` | dependency order, and the publish loop as a protocol that can be stopped and re-run |
| `Base32`, `TwoFactor`, `TwoFactorRuns`, `EmailOtp`, `OtpGuesses` | the base32 codec, TOTP and recovery codes, e-mailed codes, and checks of all three that overlap |
| `LoginThrottle`, `RememberMe`, `LinkTokens`, `PasswordReset`, `EmailVerification`, `VerificationRuns` | throttling, remember-me tokens, signed links, and calls on them that overlap |
| `BreakingCheck` | the parsers that decide whether a changed declaration breaks callers |
| `Text`, `Wrappers` | decimal numerals, searching in strings, `Option` |

## What came out differently from what the code or its comments suggest

- The figure `spentToday()` reports can go down within a day, because a read assigns and an increment takes a maximum
  (`SpendBounds.ViewIsNotMonotone`), and a day that rolls between the refresh and the check is never refused
  (`SpendBounds.CheckRefusesIff`).
- Stand-in nulls inside array items are never removed: translation widens there, `dropAbsentNulls` does not go there
  (`JsonSchema.ArrayItemsKeepTheirNulls`; the exact condition is `JsonSchema.RoundTripIff`).
- Pricing an agent's summed usage can fall below the sum of its steps' prices when a provider reports more 1-hour cache
  writes than cache writes in one step and fewer in another (`Pricing.AccumulatedCostIff`).
- `visibleNavigation` does not filter below the second level (`VisibleNavigation.ShownAsPromisedIff`), and entries do nest three deep (`VisibleNavigation.DeniedGrandchildIsShown`).
- A login throttle counts a failure long after it let the caller in. Twice its maximum in a window's time is a bound
  exactly when at most one caller is ever between its guard and its record (`LoginThrottle.TwiceMaxIff`); with `c` of them
  it is `2 * (max + c - 1)`, and that is met (`LoginThrottle.OverlappingCallersMeetBound`).
- A login throttle with a maximum below 1 announces a lockout for a key it has no window for, and a lockout's wait is 0
  seconds when the last look at the clock falls after the window's end (`LoginThrottle.RefusedWithoutWait`; the exact
  condition is in `LoginThrottle.WaitBounds`).
- Two password resets under one password can both succeed, though the documentation calls the link single-use: exactly
  when both are pending at once (`PasswordReset.SucceedTwiceIff`, with one link in
  `PasswordReset.OverlappingResetsBothSucceed`).
- A used verification link can be used again within the second it expires (`LinkTokens.ExpirySecond`). Long before, two
  calls that overlap both verify with one link (`VerificationRuns.OverlappingCallsBothVerify`; when further calls can still
  use a link is said exactly in `VerificationRuns.UsableInTimeIff`).
- An address nobody proved is verified when it is changed while a link to the old one is being looked up, though the change
  clears the stamp (`VerificationRuns.OtherAddressVerified`). The only other way is a change that leaves the stamp of a
  verified user standing (`VerificationRuns.UnearnedIff`).
- The comment on a remember-token rotation says that after a failed save the old token stays valid. It does not when the
  save wrote the row and threw afterwards, in a hook or because its answer was lost, nor when nothing was written but the
  handler then saves the same user (`RememberMe.FailedRotations`).
- Two requests that a browser sends together both rotate, and with nothing failing it is locked out when their responses
  arrive in the other order than their saves (`RememberMe.CrossedResponsesLockOut`; the exact condition is
  `RememberMe.OverlappingInStepIff`).
- A rotated-out remember token can come back when a request repeats a write whose answer it never got
  (`RememberMe.LostAnswerBringsBack`), and in no other way (`RememberMe.BringsBackIff`).
- An e-mailed code's lifetime starts again at every wrong guess when the store stamps rows itself
  (`EmailOtp.LifetimeSlidesIff`), and a new code can be dead when it is sent when the store's upsert keeps the creation
  time of the row before it (`EmailOtp.DeadOnArrivalIff`).
- The budget of wrong guesses at an e-mailed code holds exactly for guesses one at a time (`OtpGuesses.BudgetHoldsIff`),
  because guesses that overlap read the same count. With at most `c` at once, one guess less can be compared than there
  are ways to choose `c` of `c + max(1, maxAttempts)` (`OtpGuesses.OverlappingGuessesMeetBound`).
- A used code comes back when a wrong guess that looked before the right one writes after it
  (`OtpGuesses.UsedCodeComesBack`), and a code that is sent in between is lost to the one before it
  (`OtpGuesses.LateWriteLosesCode`).
- The counter and the list that `TwoFactorService` returns stop a second use exactly when at most one check is ever between
  loading and saving them (`TwoFactorRuns.CountersIncreaseIff`, `TwoFactorRuns.RedeemedOnceIff`). When a late save puts an
  older value back, a used code works again (`TwoFactorRuns.CounterAcceptableIff`, `TwoFactorRuns.CodeRedeemableIff`).
- Recovery codes draw symbols from the bytes below 248, and 32 does not divide 248, so the first 24 symbols are likelier
  than the last 8, where the comment says uniform (`EmailOtp.RecoverySymbolsAreNot`). All 256 bytes would have been
  uniform (`EmailOtp.UniformIff`).

## Model

| member | source | states |
|---|---|---|
| SpendLedger.AiSpend.Roll | packages/ai/src/spend.ts:87-94 | a new day zeroes the process's own count and its view of the store, the same day changes nothing |
| SpendLedger.AiSpend.SpentToday | packages/ai/src/spend.ts:141-144 | after rolling, the larger of own spend and shared view |
| SpendLedger.AiSpend.RecordSpend | packages/ai/src/spend.ts:147-164 | the whole new state, and which increment is sent for which day |
| SpendLedger.AiSpend.OnIncrement | packages/ai/src/spend.ts:158-160 | a returned total only ever raises the view, and only on its own day |
| SpendLedger.AiSpend.OnRead | packages/ai/src/spend.ts:129-130 | a read of the current day replaces the view |
| SpendLedger.AiSpend.ResetSpend | packages/ai/src/spend.ts:173-178 | zeroed on the current day, the store kept |
| SpendLedger.AiSpend.UseSharedSpend | packages/ai/src/spend.ts:100-104 | the view starts again from nothing, own spend stays |
| SpendLedger.AiSpend.AssertWithinDay | packages/ai/src/spend.ts:195-201 | the daily ceiling refuses exactly when the rolled figure has reached it |
| SpendLedger.RoundingBound | packages/ai/src/spend.ts:157-157 | the rounded increments of any set of requests are within half a micro-dollar per request of their cost |
| SpendLedger.NextKeepsInv | packages/ai/src/spend.ts:87-164 | in every interleaving of records, delayed, lost and reordered increments and reads, day rolls and clocks set back, the store holds the sum of the applied increments and no view exceeds it |
| SpendLedger.ExecKeepsInv | packages/ai/src/spend.ts:87-164 | the same over whole runs |
| SpendBounds.ViewBounds | packages/ai/src/spend.ts:136-144 | at every reachable moment the figure a process acts on is at least its own spend and at most the app's true total of the day plus the rounding |
| SpendBounds.RefreshReachesTotal | packages/ai/src/spend.ts:124-134 | once the day's increments have arrived, one refresh brings any process to the true total within the rounding |
| SpendBounds.CeilingOvershoot | packages/ai/src/AiManager.ts:473-496 | when a request was let through on a settled read, the day totals less than the ceiling plus the charges that read had not seen and the rounding |
| SpendBounds.SequentialOvershoot | packages/ai/src/spend.ts:141-201 | a lone process that checks and records in turn overshoots its ceiling by less than one request |
| SpendBounds.SettleLowersViewIff | packages/ai/src/spend.ts:129-160 | a settling message lowers the figure exactly when it is a read older than the view |
| SpendBounds.ViewIsNotMonotone | packages/ai/src/spend.ts:129-160 | a reachable run in which the figure goes down within a day |
| SpendBounds.CheckRefusesIff | packages/ai/src/spend.ts:195-201 | refusal needs the clock to be still on the ledger's day |
| SpendGuards.RunKeepsInv | packages/ai/src/AiManager.ts:473-496 | in every interleaving of processes that refresh, check and spend one request at a time, their increments landing or lost at any time, what their reads counted forms a chain, and each request was let through on one of them that holds all but `lag` of its process's earlier charges |
| SpendGuards.LagRequestsEach | packages/ai/src/spend.ts:124-201 | such processes together stay below the daily ceiling plus `lag + 1` requests for each process, and the rounding, when each guards with at most `lag` of its increments not applied or lost |
| SpendGuards.OneRequestEach | packages/ai/src/spend.ts:124-201 | one request for each process when each waits for its increments |
| Pricing.CostMonotone | packages/ai/src/pricing.ts:110-138 | more tokens of any kind never cost less, across the jump to the long-prompt rates |
| Pricing.AdmittedCost | packages/ai/src/spend.ts:203-238 | an admitted request that stays within its estimates costs at most the per-request ceiling without cache writes, at most twice that with them |
| Pricing.AccumulatedCost | packages/ai/src/agentLoop.ts:146-153 | the summed usage of steps that agree about which of the two write counts is larger is never priced below the sum of the steps' prices, with or without a long-prompt tier |
| Pricing.AccumulatedCostIff | packages/ai/src/pricing.ts:128-136 | on rows without a long-prompt tier that holds exactly for such steps |
| Pricing.AccumulatedCostCanBeBelow | packages/ai/src/pricing.ts:128-136 | two steps for which it fails |
| AgentLoop.RunAgentLoop | packages/ai/src/agentLoop.ts:43-143 | for every driver: at most `maxSteps + maxResumes + 1` calls, one that fails included, each made with the transcript so far, and an outcome explained by the responses, never a pause taken for an answer |
| AgentLoop.TurnsAnswered | packages/ai/src/agentLoop.ts:91-141 | each tool turn is followed by exactly one user turn answering the same call ids in order, other turns by none |
| AgentLoop.StepsAreCalls | packages/ai/src/agentLoop.ts:127-135 | the steps are all tool calls of all turns, in order |
| AgentLoop.StepsNumbered | packages/ai/src/agentLoop.ts:86-133 | steps are numbered by round from 1 |
| AgentLoop.AgentCost | packages/ai/src/agentLoop.ts:57-57 | pricing the usage of a loop whose responses agree in that sense never falls below pricing them one by one |
| JsonSchema.DropAbsentNulls | packages/ai/src/schema.ts:284-298 | the loop that copies, deletes and replaces is the specified pass over the declared fields |
| JsonSchema.WidenedIsAccepted | packages/ai/src/schema.ts:105-190 | every value of a field, null written for what it leaves out, is accepted by the emitted schema |
| JsonSchema.WidenedFieldsAccepted | packages/ai/src/schema.ts:85-102 | the same for objects, whose keys become all declared names |
| JsonSchema.RoundTripIff | packages/ai/src/schema.ts:284-298 | dropping undoes widening exactly when no array item leaves out an optional, non-nullable field |
| JsonSchema.RoundTripInsideIff | packages/ai/src/schema.ts:148-156 | the same below a single field, through arrays and nested objects |
| JsonSchema.AcceptedFits | packages/ai/src/schema.ts:105-190 | soundness: where nothing optional is non-nullable, whatever the emitted schema accepts is a value of the field |
| JsonSchema.DroppedFits | packages/ai/src/schema.ts:284-298 | on array-safe schemas every accepted object comes back as a value of the schema, and widening it again gives the accepted object |
| JsonSchema.ArrayItemsKeepTheirNulls | packages/ai/src/schema.ts:155-155 | the array value that does not come back |
| SchemaGraph.ObjectSchema | packages/ai/src/schema.ts:85-102 | the loop over a shape yields the translation, or its first error |
| SchemaGraph.TranslatesIff | packages/ai/src/schema.ts:104-190 | a definition translates exactly when every walk from it is free of repeated and of inexpressible definitions, sharing allowed |
| SchemaGraph.TranslateIsTreeTranslate | packages/ai/src/schema.ts:79-190 | a graph of definitions that translates does so as the tree it unfolds to |
| SchemaGraph.TranslationAcceptsValues | packages/ai/src/schema.ts:79-190 | from definition objects to values: every value is accepted once widened |
| SchemaGraph.AcceptedComesBack | packages/ai/src/schema.ts:284-298 | from accepted objects back to values of the schema |
| ParentForest.EndsOrCycles | packages/admin/src/Resource.ts:511-528 | a chain of parents either ends or enters a cycle, never both |
| ParentForest.HeldIffEnds | packages/admin/src/Resource.ts:511-528 | a forest grown from the top level holds exactly the keys whose chain ends |
| ParentForest.HeldOnce | packages/admin/src/Resource.ts:513-523 | and none of them twice |
| ArrangeTree.Arrangement.Walk | packages/admin/src/Resource.ts:513-522 | the recursive walk ends on any parent relation and appends the pre-order of the forest below its parent, siblings in input order |
| ArrangeTree.Arrange | packages/admin/src/Resource.ts:494-528 | the pre-order of the forest grown from the rows, then at depth 0 the rows it does not hold |
| ArrangeTree.PlacedIff | packages/admin/src/Resource.ts:517-526 | exactly the rows whose chain of parents enters a cycle are left for the end |
| ArrangeTree.ArrangedIsPermutation | packages/admin/src/Resource.ts:486-528 | every row is on screen once |
| ArrangeTree.RowFollowsParent | packages/admin/src/Resource.ts:513-522 | a row below the top has its parent before it, one level up, with only that subtree between |
| StableSort.SortIsStable | packages/admin/src/PanelInstance.ts:580-595 | entries that tie keep their order |
| StableSort.SortOrders | packages/admin/src/PanelInstance.ts:580-595 | under a consistent comparator the result is in order |
| StableSort.SortKeeps | packages/admin/src/PanelInstance.ts:580-595 | sorting permutes |
| SidebarEntries.AddOwn | packages/admin/src/PanelInstance.ts:500-562 | one object per non-nested resource, listed page, console and link, in order, each under its group or cluster |
| SidebarEntries.Sidebar.Push | packages/admin/src/PanelInstance.ts:489-493 | a group lists its items in the order they were made |
| Navigation.AddClusters | packages/admin/src/PanelInstance.ts:567-578 | one entry per cluster, its sorted members for children, linked to the first of them |
| Navigation.Nest | packages/admin/src/PanelInstance.ts:584-596 | in place: every item goes under the last other item of the group with its parent label, the rest is the sorted top level |
| Navigation.Navigation | packages/admin/src/PanelInstance.ts:486-604 | one object per declared entry; together a forest holding each exactly once, except precisely those whose chain of parents enters a cycle; no group twice, each with entries of its own only; groups, top levels and their children sorted, and entries that tie in declared order |
| Navigation.EveryItemListed | packages/admin/src/PanelInstance.ts:584-596 | the child lists and the top levels list every item under its one parent, once |
| Navigation.ChainStaysInGroup | packages/admin/src/PanelInstance.ts:584-592 | such a cycle is one of labels inside one group |
| VisibleNavigation.VisibleNavigation | packages/admin/src/PanelInstance.ts:606-645 | of the panel's own navigation: group by group the allowed entries in sidebar order, no empty group, and what a user reaches from the returned groups through `children` is the navigation forest cut on its first two levels, and the promised forest, every denied entry gone with all below it, exactly when nothing denied sits below those levels under allowed entries |
| VisibleNavigation.FilterGroups | packages/admin/src/PanelInstance.ts:627-643 | the allowed items of each group in order, copied with their allowed children, empty groups left out |
| VisibleNavigation.SeenAsPromisedIff | packages/admin/src/PanelInstance.ts:606-645 | that condition, for what can be seen of the entries |
| VisibleNavigation.ShownIsGrown | packages/admin/src/PanelInstance.ts:628-643 | filtering the lists of the first two levels leaves lists that grow the cut forest |
| VisibleNavigation.KeptGroupsRoots | packages/admin/src/PanelInstance.ts:629-643 | leaving out empty groups loses no allowed entry and no order |
| VisibleNavigation.ShownAsPromisedIff | packages/admin/src/PanelInstance.ts:606-613 | the cut forest is the promised one exactly when nothing denied sits below the second level under allowed entries |
| VisibleNavigation.DeniedGrandchildIsShown | packages/admin/src/PanelInstance.ts:633-638 | a panel of three resources whose labels nest three deep, and whose visible navigation shows the third though it is denied |
| PublishOrder.Planner.Visit | scripts/publish-packages.ts:126-139 | the recursion ends on every package map; it fails only on a cycle and otherwise keeps the order consistent with what is visiting and done |
| PublishOrder.Plan | scripts/publish-packages.ts:122-143 | fails exactly when the dependencies among the packages have a cycle, else each package once, after its dependencies and peer dependencies |
| PublishOrder.TopologicalHasNoCycle | scripts/publish-packages.ts:121-128 | such an order exists only without cycles |
| Release.RunRelease | scripts/publish-packages.ts:168-204 | the loop is the specified protocol step by step, whatever packing, npm view and npm publish answer |
| Release.RunKeepsRegistry | scripts/publish-packages.ts:168-204 | wherever a run stops, what it published has its dependencies on the registry, a dependency-closed registry stays so, and no package was published twice |
| Release.RunsKeepRegistry | scripts/publish-packages.ts:88-106 | over any sequence of stopped and repeated runs, the manifests changed in between: nothing is published twice, and whatever is published has everything there that it depended on in the run that published it |
| Release.RunsKeepClosed | scripts/publish-packages.ts:88-106 | on one set of manifests the registry stays dependency-closed |
| Release.RunFinishesIff | scripts/publish-packages.ts:186-204 | with nothing failing a run finishes exactly when npm view reports what is already there, and then the whole line is out, skipped and published adding up |
| Release.ReleaseCanFinish | scripts/publish-packages.ts:88-106 | after any such history one clean, truthful run completes the release |
| Base32.Base32Encode | packages/auth/src/TwoFactorService.ts:60-74 | with a 32-bit accumulator that is never masked, the symbols of section 6 of RFC 4648 without padding, ceil(8n/5) of them |
| Base32.Base32Decode | packages/auth/src/TwoFactorService.ts:76-92 | the whole octets in the bits of the digits |
| Base32.DigitIsIndex | packages/auth/src/TwoFactorService.ts:82-83 | a character's digit is its place in the alphabet, whatever its case, and exactly the others are skipped |
| Base32.RoundTrip | packages/auth/src/TwoFactorService.ts:60-92 | regrouping eight to five bits and back is the identity on octets |
| Base32.EncodeThenDecode | packages/auth/src/TwoFactorService.ts:60-92 | decoding an encoding returns the buffer, for every buffer |
| Base32.JunkIsSkipped | packages/auth/src/TwoFactorService.ts:77-83 | characters outside the alphabet anywhere change nothing |
| TwoFactor.Hotp | packages/auth/src/TwoFactorService.ts:99-117 | the truncation of section 5.3 of RFC 4226 stays inside the digest and below 10^6 |
| TwoFactor.CountersDiffer | packages/auth/src/TwoFactorService.ts:101-102 | different time steps are hashed as different eight-byte messages |
| TwoFactor.CodeTextDenotes | packages/auth/src/TwoFactorService.ts:371-372 | of the six-digit texts exactly the padded code denotes the code's number |
| TwoFactor.VerifyCodeWithCounter | packages/auth/src/TwoFactorService.ts:352-381 | the loop that never stops early decides by the newest matching slot |
| TwoFactor.AcceptedIff | packages/auth/src/TwoFactorService.ts:364-380 | accepted exactly when the token is six digits around white space and its number is the code of some non-negative slot of the window newer than the last used |
| TwoFactor.AcceptedCountersIncrease | packages/auth/src/TwoFactorService.ts:376-380 | over any run, whatever the clock does, accepted counters strictly increase |
| TwoFactor.VerifyRecoveryCode | packages/auth/src/TwoFactorService.ts:432-442 | valid exactly when the hash is stored, and then one copy of it is gone |
| TwoFactor.RecoveryCodesConserved | packages/auth/src/TwoFactorService.ts:432-442 | over any run every hash is still stored or was redeemed, as often as it was issued |
| TwoFactorRuns.CheckIsLookAndLand | packages/auth/src/TwoFactorService.ts:352-381 | a check that nothing overlaps and its save are two steps of the interleaved model |
| TwoFactorRuns.CountersIncreaseIff | packages/auth/src/TwoFactorService.ts:376-380 | the accepted counters strictly increase in all runs with at most `c` checks between loading and saving the counter exactly when `c` is at most 1, or the window has no slots |
| TwoFactorRuns.CounterAcceptableIff | packages/auth/src/TwoFactorService.ts:376-380 | from any state a counter can still be accepted exactly when the window has slots and an older counter is on record or about to be saved |
| TwoFactorRuns.AcceptedTwice | packages/auth/src/TwoFactorService.ts:364-380 | for every newer counter two checks that accept it both |
| TwoFactorRuns.RedeemedOnceIff | packages/auth/src/TwoFactorService.ts:432-442 | no hash is redeemed more often than issued in all runs with at most `c` lists waiting to be saved exactly when `c` is at most 1, or none was issued |
| TwoFactorRuns.CodeRedeemableIff | packages/auth/src/TwoFactorService.ts:432-442 | from any state a hash can still be redeemed exactly when it is on record or in a list about to be saved |
| TwoFactorRuns.RedeemedTooOften | packages/auth/src/TwoFactorService.ts:432-442 | for every issued hash a run of two at once that redeems it once more than it was issued |
| EmailOtp.DecodeInvertsEncode | packages/auth/src/EmailOtpBroker.ts:137-150 | hash and count come back from the column, for every hash and every integer |
| EmailOtp.BareHashHasNoAttempts | packages/auth/src/EmailOtpBroker.ts:143-144 | an old column without a count starts with the whole budget |
| EmailOtp.EmailOtpBroker.Send | packages/auth/src/EmailOtpBroker.ts:61-66 | the new record and nothing else |
| EmailOtp.EmailOtpBroker.Attempt | packages/auth/src/EmailOtpBroker.ts:78-105 | true exactly for the right code in time, and what becomes of the record in each case |
| EmailOtp.AcceptedIff | packages/auth/src/EmailOtpBroker.ts:78-105 | over any attempts at one code, under every kind of store and any clock: let in exactly when right, in time, first right one, and after fewer wrong ones than the budget |
| EmailOtp.Budgeted | packages/auth/src/EmailOtpBroker.ts:96-104 | at most max(1, maxAttempts) wrong guesses and one right one are ever compared |
| EmailOtp.LifetimeSlidesIff | packages/auth/src/EmailOtpBroker.ts:82-102 | a code can outlive the lifetime it starts with exactly when storing stamps the row anew and a wrong guess is forgiven |
| EmailOtp.DeadOnArrivalIff | packages/auth/src/EmailOtpBroker.ts:61-66 | the right code is refused at the moment it is sent exactly when the store kept an older row's creation time and that has run out |
| EmailOtp.NoSlide | packages/auth/src/EmailOtpBroker.ts:82-102 | and then by at most one lifetime per wrong guess |
| OtpGuesses.AttemptIsLookAndLand | packages/auth/src/EmailOtpBroker.ts:78-105 | an attempt that nothing overlaps is a look and its write |
| OtpGuesses.OverlappingGuessesBound | packages/auth/src/EmailOtpBroker.ts:96-104 | in every interleaving with at most `c` guesses between look and write, and codes sent at any time, fewer guesses at each code are compared than there are ways to choose `c` of `c + max(1, maxAttempts)` |
| OtpGuesses.OverlappingGuessesMeetBound | packages/auth/src/EmailOtpBroker.ts:78-104 | for every `c` a run with one comparison less than that |
| OtpGuesses.BudgetHoldsIff | packages/auth/src/EmailOtpBroker.ts:68-73 | at most max(1, maxAttempts) guesses are compared in all runs with at most `c` at once exactly when `c` is at most 1 |
| OtpGuesses.OneAtATimeBound | packages/auth/src/EmailOtpBroker.ts:68-73 | one at a time, at most max(1, maxAttempts) |
| OtpGuesses.OverlappingGuessesExceed | packages/auth/src/EmailOtpBroker.ts:78-104 | any number of wrong guesses is compared before a right one is accepted, whatever the budget |
| OtpGuesses.AcceptableIff | packages/auth/src/EmailOtpBroker.ts:90-104 | from any state a code that was sent can still be accepted exactly when it is stored or a wrong guess at it is about to store it again |
| OtpGuesses.UsedCodeComesBack | packages/auth/src/EmailOtpBroker.ts:90-104 | a code accepted and deleted that is accepted a second time |
| OtpGuesses.LateWriteLosesCode | packages/auth/src/EmailOtpBroker.ts:61-102 | a code sent between a wrong guess's look and its write that can never be accepted, and the one before it that can |
| EmailOtp.NumericCode | packages/auth/src/EmailOtpBroker.ts:116-128 | the first digits of the accepted bytes of all buffer fills, complete exactly when there are enough |
| EmailOtp.UniformIff | packages/auth/src/EmailOtpBroker.ts:113-117 | folding the numbers below a limit by n favours no residue exactly when n divides the limit |
| EmailOtp.DigitsAreUniform | packages/auth/src/EmailOtpBroker.ts:116-124 | each digit has 25 accepted bytes |
| EmailOtp.RecoverySymbolsAreNot | packages/auth/src/TwoFactorService.ts:149-161 | each of the first 24 recovery symbols has 8 accepted bytes, each of the others 7 |
| LoginThrottle.LoginRateLimiter.LiveBucket | packages/auth/src/LoginRateLimiter.ts:170-179 | the lazily evicted bucket is the live window of the history of hits |
| LoginThrottle.LoginRateLimiter.Record | packages/auth/src/LoginRateLimiter.ts:89-99 | a hit extends the live window or opens a new one, and returns its count |
| LoginThrottle.LoginRateLimiter.AttemptsFor | packages/auth/src/LoginRateLimiter.ts:73-75 | the failures in the live window |
| LoginThrottle.LoginRateLimiter.AvailableIn | packages/auth/src/LoginRateLimiter.ts:105-109 | the seconds left of the live window, rounded up, 0 without one |
| LoginThrottle.LoginRateLimiter.ClearKey | packages/auth/src/LoginRateLimiter.ts:115-118 | the key's window ends and its count with it, the others stay |
| LoginThrottle.LoginRateLimiter.Reset | packages/auth/src/LoginRateLimiter.ts:124-127 | every window ends |
| LoginThrottle.LoginRateLimiter.EnsureNotLocked | packages/auth/src/LoginRateLimiter.ts:141-151 | refuses exactly from `max` failures on, and announces each window at most once |
| LoginThrottle.WaitBounds | packages/auth/src/LoginRateLimiter.ts:105-109 | a wait is at most the window rounded up, and at least a second exactly while time is left |
| LoginThrottle.OverlappingCallersBound | packages/auth/src/LoginRateLimiter.ts:13-25 | with guard and record apart and at most `c` callers of a key between the two, at most `2 * (max + c - 1)` failures in any interval as long as a window |
| LoginThrottle.OverlappingCallersMeetBound | packages/auth/src/LoginRateLimiter.ts:13-25 | for every `c` of at least 1 a history of such callers with exactly as many failures, for windows of at least 2 ms |
| LoginThrottle.TwiceMaxIff | packages/auth/src/LoginRateLimiter.ts:73-99 | twice `max` bounds the failures of all such histories exactly when `c` is at most 1 |
| LoginThrottle.AtMostTwoWindows | packages/auth/src/LoginRateLimiter.ts:73-99 | at most twice `max` when no other failure of the key falls between a caller's guard and its record |
| LoginThrottle.OverlappingCallersExceed | packages/auth/src/LoginRateLimiter.ts:13-25 | without a limit on that overlap any number of failures, each of whose callers was let through |
| LoginThrottle.RefusedWithoutWait | packages/auth/src/LoginRateLimiter.ts:141-151 | a caller refused with a wait of 0 seconds |
| LinkTokens.UrlSafeRoundTrip | packages/auth/src/linkTokens.ts:23-29 | reading a URL-safe token back gives the base64 text without its padding |
| LinkTokens.MarkCoversLink | packages/auth/src/linkTokens.ts:73-80 | a used mark blocks every later look before the link's expiry second |
| LinkTokens.ExpirySecond | packages/auth/src/linkTokens.ts:73-80 | in that second it blocks exactly as stated for caches that count milliseconds and seconds |
| EmailVerification.User.MarkEmailAsVerified | packages/auth/src/EmailVerification.ts:112-118 | the first stamp stays |
| EmailVerification.User.UnverifyEmail | packages/auth/src/EmailVerification.ts:121-125 | the stamp is gone, the address stays |
| EmailVerification.User.VerifyEmailToken | packages/auth/src/EmailVerification.ts:160-177 | accepted exactly for the user's own, current, unused, unexpired link; what is stamped and marked |
| EmailVerification.User.UseTwice | packages/auth/src/EmailVerification.ts:160-177 | of two calls one after the other the second succeeds exactly when the first's mark has lapsed, which is in the expiry second at the earliest |
| VerificationRuns.RunKeepsInv | packages/auth/src/EmailVerification.ts:160-177 | over any run of calls that load, look for the mark, save and mark at different times: every used link is marked for its lifetime as read no later than the mark was set, and whoever looked after a use set its mark did so in the expiry second or later |
| VerificationRuns.UsesOverlapOrExpire | packages/auth/src/EmailVerification.ts:170-175 | two calls return true for one link only if the second looked before the first set its mark, or in the link's expiry second or later |
| VerificationRuns.UsableInTimeIff | packages/auth/src/EmailVerification.ts:160-177 | from any reachable moment before its expiry second, and by further steps of calls alone, with the address unchanged and the cache keeping its marks, a link can still be used before that second exactly when a call has looked and found no mark, or there is no mark and a call is under way or may begin |
| VerificationRuns.OneAtATimeUsedOnce | packages/auth/src/EmailVerification.ts:170-175 | with no call for a link begun beside another, a second use looks in the expiry second at the earliest |
| VerificationRuns.BothSavedBothSucceed | packages/auth/src/EmailVerification.ts:174-176 | any two calls that have saved both return true, also for one link |
| VerificationRuns.OverlappingCallsBothVerify | packages/auth/src/EmailVerification.ts:170-176 | a run of two calls of one link, at one instant, that both return true |
| VerificationRuns.UnearnedIff | packages/auth/src/EmailVerification.ts:110-125 | a step leaves a user verified for an address no link was accepted for exactly when it saves a call whose address has changed since, or changes the address of a verified user without clearing the stamp |
| VerificationRuns.EarnedUnlessChangedBeside | packages/auth/src/EmailVerification.ts:110-125 | with the address changed only between calls, and the stamp cleared before or with the change, that never happens |
| VerificationRuns.OtherAddressVerified | packages/auth/src/EmailVerification.ts:164-174 | a run in which it does, with the stamp cleared by the change |
| VerificationRuns.VerifyInRun | packages/auth/src/EmailVerification.ts:160-177 | a call that nothing overlaps is its turns in a row, on user and cache |
| PasswordReset.ResetPassword | packages/auth/src/PasswordReset.ts:115-146 | succeeds exactly in time, under the current password and unmarked; sets the password, clears the remember token, marks the link |
| PasswordReset.ResetInRun | packages/auth/src/PasswordReset.ts:115-146 | such a call in the course of a run is the check, the look for the mark and, when these pass, the save of the interleaved model |
| PasswordReset.NoneAfterExpiry | packages/auth/src/PasswordReset.ts:116-118 | over any run, with the cache losing anything, no reset begun after its link's expiry succeeds |
| PasswordReset.SuccessesOverlap | packages/auth/src/PasswordReset.ts:130-144 | of all links minted under one password two resets succeed only if each was checked before the other was saved |
| PasswordReset.BothCheckedBothSucceed | packages/auth/src/PasswordReset.ts:133-144 | any two resets that have found no mark both succeed once saved, in either order, also with one link |
| PasswordReset.SucceedTwiceIff | packages/auth/src/PasswordReset.ts:120-144 | from any reachable state without a success under a password, with no further reset begun and the cache keeping its marks, two can succeed exactly when two of its resets are pending together |
| PasswordReset.OneAtATimeSucceedsOnce | packages/auth/src/PasswordReset.ts:130-144 | runs that begin no reset beside a pending one of the same user and password succeed at most once under it |
| PasswordReset.OverlappingResetsBothSucceed | packages/auth/src/PasswordReset.ts:130-144 | a run of two tries of one link that both succeed |
| RememberMe.ParseInvertsEncode | packages/auth/src/RememberMe.ts:67-79 | the parts come back exactly for non-empty ids without a bar and non-empty tokens |
| RememberMe.EncodeInvertsParse | packages/auth/src/RememberMe.ts:72-79 | a text parses to these parts exactly when it is their encoding |
| RememberMe.BringsBackIff | packages/orm/src/model/BaseModel.ts:1990-2013 | a step puts a formerly stored token back exactly when it repeats a write whose answer was lost |
| RememberMe.RotatedOutForGood | packages/auth/src/RememberMeMiddleware.ts:106-137 | over any interleaving of loads, new tokens, clears and saves of every outcome by any number of requests, apart from such a repetition, a raw token that let its holder in and stopped never does again |
| RememberMe.LostAnswerBringsBack | packages/auth/src/RememberMeMiddleware.ts:127-132 | two requests after which such a repetition lets a rotated-out token in |
| RememberMe.SoundSchemeExists | packages/auth/src/RememberMe.ts:40-53 | what is assumed of tokens and their hashes can be had |
| RememberMe.OneTokenAuthenticates | packages/auth/src/RememberMe.ts:62-64 | at most one raw token at a time |
| RememberMe.ExecKeepsInv | packages/auth/src/RememberMeMiddleware.ts:117-137 | over any run a token waiting to be saved is held by one loaded copy, and was stored before only when the answer to that copy's write was lost |
| RememberMe.Rotate | packages/auth/src/RememberMeMiddleware.ts:117-137 | column, copy and queued cookie after a save that succeeds, writes nothing, writes and throws in a hook, or writes and loses its answer |
| RememberMe.AttemptFromCookie | packages/auth/src/RememberMeMiddleware.ts:73-104 | a user is restored exactly for a cookie that parses, names the row and carries the stored token |
| RememberMe.Handle | packages/auth/src/RememberMeMiddleware.ts:50-57 | what one visit does to the column and to the browser's cookie, whatever becomes of the rotation and of the handler's own saves |
| RememberMe.StillRememberedIff | packages/auth/src/RememberMeMiddleware.ts:106-137 | after any visits, one request at a time, a browser is still let in exactly when each of them rotated and was delivered, or failed to rotate with nothing written, by the handler neither, or needed no remembered login |
| RememberMe.FailedRotations | packages/auth/src/RememberMeMiddleware.ts:127-132 | the visits with a failed rotation after which it is not: one that wrote, or one that did not and a handler that saves |
| RememberMe.OverlappingInStepIff | packages/auth/src/RememberMeMiddleware.ts:73-137 | with requests of one browser overlapping in any way, at any moment its cookie is let in exactly when nothing was written or the request that wrote last is the one it heard from last |
| RememberMe.CrossedResponsesLockOut | packages/auth/src/RememberMeMiddleware.ts:73-137 | two requests sent together that lock it out with nothing failing |
| RememberMe.VisitIsRun | packages/auth/src/RememberMeMiddleware.ts:50-137 | a visit is the interleaved model run with its turns in a row |
| BreakingCheck.IsMembersAdded | scripts/breaking-check.ts:255-270 | the single pass accepts exactly the shorter lists that are a subsequence of the longer |
| BreakingCheck.PassIff | scripts/breaking-check.ts:263-269 | taking the first match each time misses no placement |
| BreakingCheck.MembersAddedIsStrictOrder | scripts/breaking-check.ts:255-270 | irreflexive and transitive |
| BreakingCheck.Closing | scripts/breaking-check.ts:303-310 | the first place where the parentheses opened there balance, or none |
| BreakingCheck.Parameters | scripts/breaking-check.ts:313-330 | the trimmed pieces between separating commas, a blank last one left out |
| BreakingCheck.PiecesRejoin | scripts/breaking-check.ts:313-330 | the untrimmed pieces joined by commas are the list |
| BreakingCheck.CutExactlyAtSeparators | scripts/breaking-check.ts:320-325 | the cuts are exactly the commas at depth zero, the arrow's bracket not counting |
| BreakingCheck.GainedOptionalParameters | scripts/breaking-check.ts:339-354 | same text around the list, old parameters first and unchanged, at least one more, all new ones optional |
| BreakingCheck.GainedOptionalIrreflexive | scripts/breaking-check.ts:339-354 | no declaration extends itself |
| BreakingCheck.GainedOptionalTransitive | scripts/breaking-check.ts:339-354 | two accepted extensions in a row are one accepted extension |

## Left out

- AI: the expiry of the shared ledger's keys, the warning on an unreachable store, and IEEE rounding of money.
- AI: telemetry, streaming and failure recording in `AiManager.ts`, token counting and its fallback; the estimate is a parameter of the admission check.
- Schema: re-checking a returned value with the validator, `emptyStringIsPresent`, the list of constraints that do not translate, and the wording of errors.
- Schema: a JSON number is an integer or a fraction, and the formats are a parameter.
- Resource.ts: paging, filtering and column comparison; they would add easy members only.
- ArrangeTree.Arrange: requires the primary keys to be distinct and non-empty, which is what the database gives; rows with equal keys are not described.
- Navigation.Navigation: icons are not part of an entry, `sort` is an integer, and sortedness is stated for a collation that is total and transitive; what a locale orders first is not modelled.
- VisibleNavigation.VisibleNavigation: `can` answers at once; that a page or a link is gated by a resource with the same slug is kept.
- Release: reading manifests, packing and the check of internal versions are one step that fails or not; a publish that npm accepts but reports as failed is part of the model.
- Base32.Base32Decode: letters outside ASCII that upper-case into the alphabet are not modelled.
- TwoFactorRuns: saves that fail; the application's own writes of the counter or the list other than those that the checks return.
- TwoFactor: HMAC-SHA-1 is a parameter that yields 20 bytes; secrets, QR codes and storage are outside.
- EmailOtp: counts of 10^21 and more, which JavaScript prints with an exponent; its attempts are atomic, those that overlap are in `OtpGuesses`.
- OtpGuesses: the clock, and writes that fail; a failed write would leave its guess uncounted.
- EmailOtp.DeadOnArrivalIff: stated for lifetimes that are not negative.
- EmailOtp.NumericCode: the random buffer fills are given, so that enough good bytes ever arrive is not claimed.
- LoginThrottle: the key made from identifier and address, and clocks that go back; the bounds are for failures alone, without a success that clears the key.
- LoginThrottle.TwiceMaxIff: for windows of at least 2 ms and a maximum of at least 1; below that nobody passes the guard.
- LinkTokens: encryption; a token is the claims it decrypts to, if any.
- PasswordReset: hashes are numbers handed out in order, which models salts that never repeat; a save and its mark are one step, and a save that writes and then throws is a reset whose mark is lost.
- VerificationRuns: one user; which writes an application makes when the address changes, and when, is its own, and a change is modelled with and without clearing the stamp; a call loads the user in the instant it looks at the link's expiry, and only a cache that is there and keeps its marks is promised anything.
- SpendGuards: one day, one ceiling, no reset and one request at a time in a process; a process whose read fails guards nothing further, where the code would go on with its own count.
- Pricing.AccumulatedCostIff: rows with a long-prompt tier are left to `Pricing.AccumulatedCost`, because the jump to the dearer rates can make up for steps that disagree, so that the condition is sufficient there and not necessary.
- RememberMe: one user row; session regeneration, the cookie's attributes and user models without a token column or a save method; hooks that change the user; sign-in and sign-out are the new-token and clear steps of the interleaved model and not part of a visit.
- BreakingCheck: reordered unions, shape members and the reading of diffs; a character of a name is a letter, a digit, `_` or `$` of ASCII.
- Guest, basic, bearer and password-confirmation middleware, configuration, facades and dashboards: their claims are settled by reading one branch.
