# TradePal: verified models of its protocols and readers

TradePal keeps the books of small shops over WhatsApp and is run through an admin console. This project models the parts
of it where being right is hardest, in Dafny, and proves what they promise. `dafny verify dfyconfig.toml` checks it all.

The models follow the source branch by branch. Code that changes rows or fields step by step is a class whose methods are
proved to do what a pure step function says, and the properties are proved of that function, over every run. Where callers
run side by side, each database call is a step of its own: a call reads, keeps what it read, and writes under a guard later,
so any number of calls interleave in any order. The staff operations are the exception: they are whole transactions,
taken one at a time in `StaffSafety` and `StaffHistory`, and in `StaffReads` side by side, with their reads before and their
writes at one moment. Calls that can fail or answer in several ways are left to the world: the proofs hold whatever it
answers.

| Modules | What they model |
|---|---|
| `CanonicalJson`, `JsonReader`, `CanonicalForm` | the canonical print that refund approvals are bound to, and an independent reader that undoes it |
| `RefundRequests`, `RefundSafety`, `RefundRace`, `RefundDesk` | two-person refunds, all operations interleaved |
| `WhatsappCodes`, `WhatsappSafety`, `WhatsappRoundTrip`, `WhatsappCaps`, `WhatsappDesk` | one-use sign-in codes: the code sent is the code that works, guess limits and sending caps |
| `WhatsappNumbers`, `WhatsappNumberSafety` | the number on file, and which number a code proves |
| `Mfa`, `MfaSafety`, `MfaRoundTrip`, `MfaDesk` | authenticator codes, the replay guard and recovery codes |
| `AdminSessions`, `SessionRuns` | session lifetimes with the throttled, late-landing touch |
| `StaffAdmin`, `StaffSafety`, `StaffHistory`, `StaffReads`, `StaffOutcomes`, `StaffDesk` | invitations, roles, ownership transfer, with the database's own guards: what each operation comes to, one transaction at a time, and side by side |
| `RateLimiters` | the in-memory and the Redis limiter, on every timed run |
| `Retry`, `DeepSeek` | attempts under a wall-clock budget, and the two-level parse above them |
| `AiRouting`, `AiRoutingSafety`, `AiRoutingOutcomes` | circuit breaker, cost ledger and fallback of the primary AI provider |
| `EditDistance`, `BareCommands` | typing slips and the table of bare commands |
| `Money`, `ListEntry`, `ListProofs`, `ListRoundTrip`, `ListNames`, `ListMessage`, `ListWritten` | amounts and the reader of list messages |
| `ListPosting`, `ListConservation` | posting a list: what is saved, skipped and summed |
| `Onboarding`, `OnboardingSafety` | the dispatcher's compensation when replies are lost |
| `Csv`, `CsvReader` | the formula-safe export, RFC 4180, and the import that reads it back |
| `DispatchWords` | the words of a courier booking |
| `Prelude`, `Text` | option and result types, and the string operations the readers share |

## What does not hold

Some promises of the code or its comments fail. For each, the model keeps the code as it is, a lemma says exactly when the
promise holds, and where the failure takes a run to reach, another gives one.

- A closed refund request can still be sent: `RefundSafety.ClosedIsSentExactlyWhen`, `RefundRace.CancelledIsSent`.
- The fifth wrong guess does not always retire a WhatsApp challenge, though five remains the limit:
  `WhatsappSafety.WrongGuessRetiresExactlyWhen`, `WhatsappSafety.StaleCountLeavesItOpen`.
- Removing a number resets the sending caps: `WhatsappCaps.CapHoldsExactlyWhen`, `WhatsappCaps.RemovalForgets`.
- A number can be confirmed that no code went to: `WhatsappNumberSafety.ConfirmedIsProvedExactlyWhen`,
  `WhatsappNumberSafety.ConfirmedWithoutACode`.
- A session in use can be refused as idle when touches land late: `SessionRuns.NeverIdleExactlyWhen`,
  `SessionRuns.LateTouchTurnsBack`. One refused can be let in later: `SessionRuns.RefusedForEverExactlyWhen`.
- A sign-in in flight passes after its factor is removed: `MfaSafety.RemovedFactorPassesExactlyWhen`,
  `MfaSafety.RemovalDoesNotStopASignIn`.
- A transfer to someone who is an owner already can be made but never accepted: `StaffSafety.TransferSucceedsExactlyWhen`.
- Role changes that had read an old role break the role history: `StaffReads.HistoryIsUnbrokenExactlyWhen`,
  `StaffReads.TwoChangesAtOnceBreak`; so can the owner bootstrap: `StaffHistory.BootstrapKeepsHistoryExactlyWhen`.
- An acceptance can need the last-owner guard after all: `StaffReads.AcceptMeetsTheGuardExactlyWhen`,
  `StaffReads.DisabledMeanwhileMeetsTheGuard`.
- The limiters differ when the maximum is none: `RateLimiters.LimitersAgreeExactlyWhen`.
- The retry driver does make an error of its own: `Retry.TheLastAttemptSpeaks`. Billed tokens of a failed parse are lost:
  `DeepSeek.UsageIsLostExactlyWhen`.
- One message can be put to the vendor twice, though it is billed once: `AiRoutingSafety.AskedAgainExactlyWhen`,
  `AiRoutingSafety.TheVendorCanBeAskedTwice`. A circuit breaker that grants its probe to a call that never asks stays half
  open for ever: `AiRoutingSafety.NeverAskedAgainExactlyWhen`.
- Taking the quantity out of a sale line can damage another word of the name: `ListNames.NameIsKeptExactlyWhen`,
  `ListNames.APackLosesItsDigit`.
- The summary of a list can name payments that were not recorded: `ListConservation.SummaryIsTrueExactlyWhen`,
  `ListConservation.UnowedPaymentIsNamed`. The note that more was paid than owed, which the handler has ready, is for an
  error that never reaches it.
- A seller's text does not always survive export and import: `CsvReader.PlainComesBackExactlyWhen`,
  `CsvReader.ClearableComesBackExactlyWhen`.
- A sign-up can leave a business behind: `OnboardingSafety.StrandedExactlyWhen`. The second consent row can be lost:
  `OnboardingSafety.SecondConsentIsLostExactlyWhen`, `OnboardingSafety.SecondConsentCanBeLost`.
- A rider's name that ends in a number loses it to the phone: `DispatchWords.WholeBookingReadsBackExactlyWhen`.

## Model

| member | source | states |
|---|---|---|
| `JsonReader.PrintReads` | src/admin/refundRequests.ts:53-59 | an independent reader of RFC 8259 recovers from the canonical print of any well-formed nested value exactly that value, whatever follows it |
| `CanonicalForm.PrintIsReadBack` | src/admin/refundRequests.ts:53-59 | reading a whole canonical print gives the value back and leaves nothing over |
| `CanonicalForm.PrintsAgreeExactly` | src/admin/refundRequests.ts:52-60 | two prints, and so two hashes of a collision-free digest, are equal exactly when the values are equal as maps, whatever the order of their keys |
| `CanonicalForm.SameMeaningPrintsAlike` | src/admin/refundRequests.ts:52-59 | values equal up to key order at every level print the same text |
| `CanonicalForm.PrintsAreSelfDelimiting` | src/admin/refundRequests.ts:53-59 | no print is the front of another with a different meaning, so members cannot run together |
| `CanonicalForm.AscendingIsUnique` | src/admin/refundRequests.ts:56 | the sorted order of a set of keys is unique |
| `CanonicalForm.SortIsAscending` | src/admin/refundRequests.ts:56 | sorting keeps the keys and puts them in ascending order of their UTF-16 code units |
| `CanonicalForm.PrintIsPaired` | src/admin/refundRequests.ts:53-59 | a print never holds half of a surrogate pair, so it is valid text to hash |
| `RefundRequests.StatedAmountIsPositive` | src/admin/refundRequests.ts:109-112 | an accepted stated amount is a positive number of minor units |
| `RefundRequests.AmountIsNumber` | src/admin/refundRequests.ts:109-112 | an amount that is accepted is the decimal print of a number from one up to sixteen places, the number it is read as |
| `RefundRequests.NumberIsAmount` | src/admin/refundRequests.ts:109-112 | and every such number, printed, is accepted and read as itself |
| `RefundSafety.StepKeepsInv` | src/admin/refundRequests.ts:131-218 | each step of any call keeps the whole invariant of rows, calls in flight and log |
| `RefundSafety.RunExtends` | src/admin/refundRequests.ts:131-218 | in every interleaving requests only move forward, decided and closed requests never change, decisions are dated before expiry, and the log only grows |
| `RefundSafety.TwoPersonRule` | src/admin/refundRequests.ts:141-157 | every call of the refund executor follows an approval, in time and by someone other than the requester, of the hash of the very payload it carries |
| `RefundSafety.ExecutedIsRecordedOnce` | src/admin/refundRequests.ts:213-216 | "executed" is recorded at most once for a request, and only for one that was approved |
| `RefundSafety.SentIsRequested` | src/admin/refundRequests.ts:116-124 | what the executor receives is, as a map, the payload that was requested, even if the stored payload was edited in between |
| `RefundSafety.PayloadsAgreeFieldByField` | src/admin/refundRequests.ts:100-107 | payloads equal as maps are equal in every field |
| `RefundSafety.KeyOrderNeverBlocksApproval` | src/admin/refundRequests.ts:148 | a payload stored and read back with its keys in another order still passes the approver's check |
| `RefundSafety.OneOpenRequestPerPayment` | src/admin/refundRequests.ts:114-115 | with requests made one at a time a payment never has two open requests |
| `RefundSafety.ClosedIsSentExactlyWhen` | src/admin/refundRequests.ts:197-217 | a request already closed, cancelled say, can still reach the executor exactly when an execution is under way that read it while approved: cleared to send, or with a payload that matches its hash and an actor who may yet be allowed, as role versions only rise |
| `RefundRace.CancelledIsSent` | src/admin/refundRequests.ts:173-217 | a run from the empty table in which a request is asked for, approved by another, read by an execution, cancelled by its requester, and sent |
| `RefundDesk.Desk.CheckRequest` | src/admin/refundRequests.ts:84-115 | the request checks, in the order of the source, give exactly the refusal of the specification |
| `RefundDesk.Desk.RequestRefund` | src/admin/refundRequests.ts:84-127 | a request goes through exactly for an amount still refundable on a subscription payment without an undecided or approved request; one pending row is added, due in two days, with the hash of exactly the action, target, amount, currency, entitlement and business asked for |
| `RefundDesk.Desk.StartApprove` | src/admin/refundRequests.ts:141-148 | the read and the checks of an approval are the specified step |
| `RefundDesk.Desk.StartReject` | src/admin/refundRequests.ts:159-164 | the read and the checks of a rejection are the specified step |
| `RefundDesk.Desk.StartCancel` | src/admin/refundRequests.ts:173-177 | the read and the check of a cancellation are the specified step |
| `RefundDesk.Desk.StartExecute` | src/admin/refundRequests.ts:188-197 | the read and the checks of an execution are the specified step |
| `RefundDesk.Desk.FailLoad` | src/admin/refundRequests.ts:131-139 | an open row past its time is on its way to being marked expired; other problems end the call |
| `RefundDesk.Desk.ReadRequester` | src/admin/refundRequests.ts:149-150 | the requester must still be active when the approval goes on |
| `RefundDesk.Desk.Revalidate` | src/admin/refundRequests.ts:199-201 | the person executing and the stored hash are checked again |
| `RefundDesk.Desk.Commit` | src/admin/refundRequests.ts:151-156 | the guarded write of an approval, rejection, cancellation or expiry is the specified step; what each comes to is said by the whole operations below |
| `RefundDesk.Desk.Send` | src/admin/refundRequests.ts:206-211 | the executor is called with the payload as it was read |
| `RefundDesk.Desk.Record` | src/admin/refundRequests.ts:213-216 | the request is marked executed only if it is still approved |
| `RefundDesk.Desk.ApproveRefund` | src/admin/refundRequests.ts:141-157 | run alone, it approves exactly a live pending request of another, active person whose stored payload and reviewed hash agree; row and audit trail as they then are; refused, it changes nothing but closes an overdue request as expired |
| `RefundDesk.Desk.RejectRefund` | src/admin/refundRequests.ts:159-171 | run alone, it rejects exactly a live pending request of another person, with who and when, and one event; otherwise an overdue request is closed as expired and nothing else changes |
| `RefundDesk.Desk.CancelRefund` | src/admin/refundRequests.ts:173-184 | run alone, it cancels exactly a live request of one's own, pending or approved, with one event; otherwise an overdue request is closed as expired and nothing else changes |
| `RefundDesk.Desk.FinishExecute` | src/admin/refundRequests.ts:198-217 | the part after the first read, run alone: the payload is sent exactly if the actor may execute now and the hash still fits, and recorded exactly if the provider takes it |
| `RefundDesk.Desk.ExecuteRefund` | src/admin/refundRequests.ts:188-218 | run alone, it sends exactly when execution is on, the request is approved and live, the actor may and the hash fits; rows and log as they then are, an overdue request closed as expired |
| `EditDistance.WithinOneEdit` | src/commands/bareCommands.ts:27-49 | the fast test is true exactly when the recursive edit distance (insert, delete, substitute, adjacent swap) is at most one, for all texts |
| `EditDistance.SameLengthTest` | src/commands/bareCommands.ts:31-43 | the equal-length loop alone decides the same question for texts of one length |
| `EditDistance.DistanceSymmetric` | src/commands/bareCommands.ts:27-49 | the distance, and so the test, does not depend on the order of the two texts |
| `EditDistance.DistanceZero` | src/commands/bareCommands.ts:28 | the distance is nothing exactly for equal texts |
| `EditDistance.DistanceCoversLengthGap` | src/commands/bareCommands.ts:29 | the distance is at least the difference of the lengths |
| `EditDistance.SharedPrefixIsFree` | src/commands/bareCommands.ts:45-48 | a shared front never changes the distance |
| `BareCommands.OneSlipLosesOneLetter` | src/commands/bareCommands.ts:27-49 | one slip takes at most one of two given letters out of a word |
| `BareCommands.CommandsNeverClash` | src/commands/bareCommands.ts:13-22 | no message stands for two table words that run different commands |
| `BareCommands.TableOrderNeverMatters` | src/commands/bareCommands.ts:66-73 | the first match in the table is the same for every order of its entries |
| `BareCommands.TableNeverUndoes` | src/commands/bareCommands.ts:11-22 | no one-slip variant of "undo" stands for any word of the table |
| `BareCommands.LookupFinds` | src/commands/bareCommands.ts:66-74 | the table search finds a command exactly when some entry matches |
| `BareCommands.MatchTable` | src/commands/bareCommands.ts:66-74 | the loop with its early returns finds what the table search specifies |
| `BareCommands.MatchMessage` | src/commands/bareCommands.ts:56-74 | the command of a cleaned message, phrase, reminder or word |
| `BareCommands.MatchBareCommand` | src/commands/bareCommands.ts:52-75 | "undo" runs only when typed exactly, and a one-slip variant of it (lines 163-166) runs nothing |
| `BareCommands.StandsForExactlyWhen` | src/commands/bareCommands.ts:66-71 | a word of five letters or more is meant by any message one slip away, one of four unless the slip puts a letter in another's place; so the source's bounds on the length of the message decide nothing |
| `BareCommands.TypedLoosely` | src/commands/bareCommands.ts:52-54 | case, white space around the message and closing punctuation do not matter |
| `RateLimiters.RunsAgree` | src/redisFixedWindowLimiter.ts:78-104 | from matching states the two limiters answer alike on every timed run and stay matched, though one counts refused tries and the other does not |
| `RateLimiters.LimitersAgree` | src/redisFixedWindowLimiter.ts:78-104 | for a maximum of at least one, both limiters give the same answers and retry times on every run of tries and resets |
| `RateLimiters.LimitersAgreeExactlyWhen` | src/redisFixedWindowLimiter.ts:89-99 | they agree on every run exactly when the maximum is at least one: with none, the in-memory one still lets the first try through |
| `RateLimiters.OneBucket` | src/admin/rateLimiter.ts:52-68 | one bucket never lets more than the maximum through |
| `RateLimiters.RestAndOneMore` | src/admin/rateLimiter.ts:52-68 | a stretch no longer than a window holds at most what is left of one bucket and one more |
| `RateLimiters.BelowTwiceTheMaximum` | src/admin/rateLimiter.ts:52-68 | any interval of one window holds at most twice the maximum less one allowed tries |
| `RateLimiters.BelowTwiceTheMaximumInEveryRun` | src/admin/rateLimiter.ts:52-68 | the same bound for each key in every run over many keys without resets of it in between |
| `RateLimiters.TheBoundIsMet` | src/admin/rateLimiter.ts:52-68 | for every policy there are times at which the bound is reached |
| `RateLimiters.WaitingIsEnough` | src/admin/rateLimiter.ts:61-63 | waiting the stated time always gets through, and overshoots the bucket's end by less than a second |
| `RateLimiters.InMemoryLoginRateLimiter.Consume` | src/admin/rateLimiter.ts:52-68 | the map update of one try, other keys untouched |
| `RateLimiters.InMemoryLoginRateLimiter.Reset` | src/admin/rateLimiter.ts:70-72 | a reset forgets the key and nothing else |
| `RateLimiters.RedisFixedWindowLimiter.Consume` | src/redisFixedWindowLimiter.ts:78-100 | the increment, the expiry set only once and the remaining time of one try, on an ideal store |
| `RateLimiters.RedisFixedWindowLimiter.Reset` | src/redisFixedWindowLimiter.ts:102-104 | a reset deletes the key and nothing else |
| `WhatsappSafety.AtMostFiveGuesses` | src/admin/whatsappCodes.ts:236-246 | however verifications, new codes and answers interleave, at most five guesses are ever compared with one challenge |
| `WhatsappSafety.OneWinPerCode` | src/admin/whatsappCodes.ts:241-248 | each accepted guess is the code of its challenge, and no challenge accepts two |
| `WhatsappSafety.StepKeepsInv` | src/admin/whatsappCodes.ts:124-249 | each step keeps the count: guesses compared and guesses waiting are together the attempts on the row |
| `WhatsappSafety.WrongGuessRetiresExactlyWhen` | src/admin/whatsappCodes.ts:236-245 | in every run, an open challenge with its five attempts used up is still retired by a wrong guess in some continuation exactly when one that had read four or more attempts is on its way |
| `WhatsappSafety.StaleCountLeavesItOpen` | src/admin/whatsappCodes.ts:236-245 | a run from the start in which two guesses side by side use up the last two attempts of an enrolment code and leave the challenge open, after which no wrong guess ever retires it |
| `WhatsappRoundTrip.OneUnusedPerSession` | src/admin/whatsappCodes.ts:144-150 | in every run a session has at most one unused challenge |
| `WhatsappRoundTrip.SentCodeWorks` | src/admin/whatsappCodes.ts:124-163 | in every run: once a code is sent, it and nothing else gets its session in, for five minutes (the check is lines 226-249) |
| `WhatsappRoundTrip.AnsweredCodeWorks` | src/admin/whatsappCodes.ts:186-195 | in every run: the code made in answer to a message is good for five minutes from the answer, and it and nothing else gets the session in that asked; if the request is no longer open nothing changes |
| `WhatsappRoundTrip.WaitingRequestIsAnswered` | src/admin/whatsappCodes.ts:152-202 | a request in message mode lets nobody in by itself, and is answered exactly if the number writes within ten minutes; then the code of the answer works as above |
| `WhatsappRoundTrip.EndsExactlyWhen` | src/admin/whatsappCodes.ts:144-280 | an unused challenge ends exactly by a newer request of its session, a code that could not be sent, the removal of the number, or the last write of a verification of it |
| `WhatsappRoundTrip.EndedNeverWins` | src/admin/whatsappCodes.ts:226-249 | a challenge that has ended never lets anyone in again, whatever is still under way |
| `WhatsappRoundTrip.RequestGoesThroughExactlyWhen` | src/admin/whatsappCodes.ts:124-163 | a request goes through exactly if the stored codes of ten minutes, a day and, for an enrolling number, an hour are below the caps and the number is not blocked; it ends its own session's unused challenge, touches no other and makes one |
| `WhatsappCaps.SendingIsCapped` | src/admin/whatsappCodes.ts:130-141 | in every run, removals included, a window holds at most the cap per stretch: three codes of an account in ten minutes, ten in a day, three enrolment codes to a number in an hour, counted anew when a removal has deleted codes of the window and another is made |
| `WhatsappCaps.CapHoldsWhileKept` | src/admin/whatsappCodes.ts:130-141 | each cap holds outright in every run in which nobody removes a number whose codes it counts, whatever others remove |
| `WhatsappCaps.CapHoldsExactlyWhen` | src/admin/whatsappCodes.ts:130-141 | all runs with so many stretches keep a window's cap exactly when that is at most one: no removal between two codes of the window |
| `WhatsappCaps.AtMostFiftyGuessesADay` | src/admin/whatsappCodes.ts:130-141 | so at most fifty guesses per stretch are ever compared with the codes of one day, and fifty in all if the account's own number is not removed |
| `WhatsappCaps.RemovalForgets` | src/admin/whatsappCodes.ts:205-211 | runs from the start, of enrolment codes and removals only, in which a window holds its cap and three codes more for every time the number is removed (lines 275-280) |
| `WhatsappNumberSafety.ConfirmedIsProvedExactlyWhen` | src/admin/whatsappCodes.ts:205-260 | in every run the number a code confirms is the one that code went to exactly when no other number was stored for the account after it: it is stored before the caps are looked at |
| `WhatsappNumberSafety.ConfirmedWithoutACode` | src/admin/whatsappCodes.ts:205-260 | a run from the start in which a request for a second number is refused as one too many, and the live code sent to the first confirms the second, which no code ever went to |
| `WhatsappNumberSafety.SigninGoesToConfirmed` | src/admin/whatsappCodes.ts:214-220 | sign-in and confirmation codes only ever go to a number confirmed before for their account |
| `WhatsappNumberSafety.RunIsCodeRun` | src/admin/whatsappCodes.ts:205-220 | every run with numbers on file is a run of the codes alone, so all that holds of those holds here |
| `WhatsappNumberSafety.LimitsHold` | src/admin/whatsappCodes.ts:130-141 | so do the guess limit and the caps |
| `WhatsappNumberSafety.NumberChangesExactlyWhen` | src/admin/whatsappCodes.ts:205-280 | the number of an account changes exactly when one is stored for it, unconfirmed, when an enrolment code confirms it, and when it is removed; a confirmed one refuses a new enrolment, and without one no sign-in code is sent |
| `WhatsappNumbers.NumberTable.StartWhatsappEnrolment` | src/admin/whatsappCodes.ts:205-208 | the check that no number is confirmed is the specified step |
| `WhatsappNumbers.NumberTable.UpsertNumber` | src/admin/whatsappCodes.ts:209-210 | the number is written over whatever was there, unconfirmed |
| `WhatsappNumbers.NumberTable.SendWhatsappCode` | src/admin/whatsappCodes.ts:214-218 | the confirmed number is read, or the request refused |
| `WhatsappNumbers.NumberTable.ConfirmWhatsappEnrolment` | src/admin/whatsappCodes.ts:254-260 | one guarded write confirms the number on file |
| `WhatsappNumbers.NumberTable.RemoveWhatsappFactor` | src/admin/whatsappCodes.ts:274-280 | the number goes with all codes of the account |
| `WhatsappDesk.ChallengeTable.IssueChallenge` | src/admin/whatsappCodes.ts:124-163 | the caps, the retiring of older codes and the new row are the specified step |
| `WhatsappDesk.ChallengeTable.RetireOlder` | src/admin/whatsappCodes.ts:145 | the guarded update marks every unused code of the session |
| `WhatsappDesk.ChallengeTable.FindLive` | src/admin/whatsappCodes.ts:231-235 | the newest live challenge of the session is found, or there is none |
| `WhatsappDesk.ChallengeTable.CountGuessAt` | src/admin/whatsappCodes.ts:236-240 | every try is counted first, under the limit, in one guarded write |
| `WhatsappDesk.ChallengeTable.CompareAt` | src/admin/whatsappCodes.ts:241-246 | the comparison and the decision to retire, on the row as it was read |
| `WhatsappDesk.ChallengeTable.FinishAt` | src/admin/whatsappCodes.ts:244-248 | claiming and retiring are each one guarded write |
| `WhatsappDesk.ChallengeTable.AnswerAt` | src/admin/whatsappCodes.ts:190-195 | of two answers to one request only one makes a code; that this code is then the one that works is `WhatsappRoundTrip.AnsweredCodeWorks` |
| `WhatsappDesk.ChallengeTable.VerifyRow` | src/admin/whatsappCodes.ts:236-249 | run alone, a verification accepts exactly the right code of an unused row with guesses left |
| `WhatsappDesk.ChallengeTable.VerifyChallenge` | src/admin/whatsappCodes.ts:226-249 | run alone, the operation accepts only the code of the newest live challenge |
| `StaffSafety.WriteKeepsOwner` | prisma/migrations/20261102000000_admin_console_foundation/migration.sql:269-289 | no single row write takes the last active owner away |
| `StaffSafety.AlwaysAnOwner` | src/admin/staffAdmin.ts:100-233 | after every row write of every operation of every run of transactions one at a time there is an active owner |
| `StaffSafety.GuardFiresExactlyWhen` | src/admin/staffAdmin.ts:135-174 | a demotion or a disabling is refused for this reason exactly when its target is the only active owner |
| `StaffSafety.AcceptNeverNeedsTheGuard` | src/admin/staffAdmin.ts:220-226 | accepting a transfer, its reads still current, never runs into the last-owner guard, in any state |
| `StaffSafety.AcceptRuns` | src/admin/staffAdmin.ts:218-228 | the writes of an acceptance one after the other, and the row that stops them when the person named is an owner already |
| `StaffSafety.TransferSucceedsExactlyWhen` | src/admin/staffAdmin.ts:207-233 | an acceptance succeeds exactly when the transfer is open and in time, both accounts exist, the person named is active and not already an owner; one to an owner can be made but never accepted |
| `StaffSafety.LateAcceptanceChangesNothing` | src/admin/staffAdmin.ts:214-217 | the EXPIRED a late acceptance writes is rolled back with its error |
| `StaffHistory.OperationKeepsHistory` | src/admin/staffAdmin.ts:100-233 | each operation keeps every person's role history an unbroken chain to the current role, version by version |
| `StaffHistory.HistoryIsUnbroken` | src/admin/staffAdmin.ts:100-233 | in every run of transactions one at a time, replaying each person's role changes from their first role ends at their current role |
| `StaffHistory.DecisionsAreFinal` | src/admin/staffAdmin.ts:184-244 | decided transfers and used or revoked invitations never change again, one transaction at a time |
| `StaffHistory.InvitationWorksOnce` | src/admin/staffAdmin.ts:111-119 | an invitation redeemed once is never redeemed again, whatever a second caller had read |
| `StaffHistory.BootstrapKeepsHistoryExactlyWhen` | src/admin/ownerBootstrap.ts:39-46 | the bootstrap keeps the chain exactly when the role it read before its transaction is still the role |
| `StaffReads.AlwaysAnOwner` | prisma/migrations/20261102000000_admin_console_foundation/migration.sql:269-289 | with transactions side by side, each writing by what it read at any earlier moment, there is still an active owner after every row write |
| `StaffReads.HistoryIsUnbrokenExactlyWhen` | src/admin/staffAdmin.ts:100-233 | in every run of transactions side by side the role history replays to the present exactly when every role change, acceptance and bootstrap that went through had read the roles it replaced |
| `StaffReads.TwoChangesAtOnceBreak` | src/admin/staffAdmin.ts:141-148 | two role changes of one person that both read the old role break the history |
| `StaffReads.AcceptMeetsTheGuardExactlyWhen` | src/admin/staffAdmin.ts:211-228 | an acceptance whose reads are old runs into the last-owner guard exactly when the person named was disabled meanwhile and the one handing over is the only active owner |
| `StaffReads.DisabledMeanwhileMeetsTheGuard` | src/admin/staffAdmin.ts:156-228 | a disabling of the person named that commits between the reads and the writes of their acceptance makes it fail on the guard |
| `StaffReads.DecidedIsRefused` | prisma/migrations/20261102000000_admin_console_foundation/migration.sql:324-339 | whatever an acceptance or a cancellation had read, one of a transfer decided meanwhile fails and changes nothing |
| `StaffReads.DecisionsAreFinal` | src/admin/staffAdmin.ts:184-244 | in every run of transactions side by side decided transfers and closed invitations never change again |
| `StaffOutcomes.InvitationAcceptedExactlyWhen` | src/admin/staffAdmin.ts:100-126 | an acceptance goes through exactly for an invitation open as read and as it is, a strong password and a free address; the new account, the invitation, the history and the audit trail as they then are, with the role offered |
| `StaffOutcomes.AcceptedAsOffered` | src/admin/staffAdmin.ts:100-126 | whatever operations come between reading an invitation and accepting it, the account and its history row have the address, role and inviter of the invitation |
| `StaffOutcomes.InvitationMadeExactlyWhen` | src/admin/staffAdmin.ts:53-77 | an invitation is made exactly for an address without an account or an open invitation, for three days, overdue ones of that address being closed |
| `StaffOutcomes.InvitationRevokedExactlyWhen` | src/admin/staffAdmin.ts:79-85 | exactly an invitation neither accepted nor revoked is revoked, and nothing else changes |
| `StaffOutcomes.RoleChangedExactlyWhen` | src/admin/staffAdmin.ts:135-154 | a role changes exactly on an active account of someone else whose role differs and who is not the only active owner; account, version, history and audit trail as they then are |
| `StaffOutcomes.DisabledExactlyWhen` | src/admin/staffAdmin.ts:156-174 | an account is disabled exactly if it is active, someone else's and not the only active owner, and exactly its sessions end |
| `StaffOutcomes.EnabledExactlyWhen` | src/admin/staffAdmin.ts:156-174 | exactly a disabled account is enabled, and nothing else changes |
| `StaffOutcomes.TransferStartedExactlyWhen` | src/admin/staffAdmin.ts:186-205 | a transfer is started exactly by an active owner, to another active account, with none of theirs still open, for a day, overdue ones being closed |
| `StaffOutcomes.TransferHandsOver` | src/admin/staffAdmin.ts:207-233 | an acceptance that goes through makes exactly the person named owner, steps the old owner down if they still are one, and settles the transfer, with each change in the history |
| `StaffOutcomes.TransferCancelledExactlyWhen` | src/admin/staffAdmin.ts:235-246 | a transfer is cancelled exactly while it is open and by one of its two people |
| `StaffOutcomes.OwnerBootstrappedExactlyWhen` | src/admin/ownerBootstrap.ts:33-50 | the bootstrap makes exactly an account an owner that was active and no owner when it was read; account, history and audit trail as they then are |
| `StaffDesk.Desk.Transaction` | src/admin/staffAdmin.ts:141-150 | the writes of a transaction all happen or none does, and an error thrown inside undoes them |
| `StaffDesk.Desk.ChangeRole` | src/admin/staffAdmin.ts:135-154 | the tables and the result are those of the specified operation |
| `StaffDesk.Desk.SetStaffDisabled` | src/admin/staffAdmin.ts:156-174 | the tables and the result are those of the specified operation |
| `StaffDesk.Desk.AcceptInvitation` | src/admin/staffAdmin.ts:100-125 | the tables and the result are those of the specified operation; what the step comes to is `StaffOutcomes.InvitationAcceptedExactlyWhen` |
| `StaffDesk.Desk.AcceptTransfer` | src/admin/staffAdmin.ts:207-233 | the tables and the result are those of the specified operation |
| `StaffDesk.Desk.CancelTransfer` | src/admin/staffAdmin.ts:235-244 | the tables and the result are those of the specified operation |
| `StaffDesk.Desk.InitiateTransfer` | src/admin/staffAdmin.ts:186-204 | the tables and the result are those of the specified operation |
| `StaffDesk.Desk.CreateInvitation` | src/admin/staffAdmin.ts:53-77 | the tables and the result are those of the specified operation |
| `StaffDesk.Desk.RevokeInvitation` | src/admin/staffAdmin.ts:79-85 | the tables and the result are those of the specified operation |
| `StaffDesk.Desk.BootstrapOwner` | src/admin/ownerBootstrap.ts:33-49 | the tables and the result are those of the specified operation |
| `MfaSafety.NoPasswordPassesTwice` | src/admin/mfa.ts:86-133 | in every interleaving the time steps accepted for one authenticator, its enrolment code first, strictly increase, and each is at most one step from its request and its own code |
| `MfaSafety.EachRecoveryCodeWorksOnce` | src/admin/mfa.ts:144-156 | each stored recovery code lets someone in at most once, and an account never has two live authenticators |
| `MfaSafety.RemainingIsNotTooLow` | src/admin/mfa.ts:147-152 | the number of codes said to remain is never less than the number that do, though it is taken from an earlier read |
| `MfaSafety.StepKeepsInv` | src/admin/mfa.ts:74-178 | each step keeps the replay guards, the lists read and the single live factor sound |
| `MfaSafety.RemovedFactorPassesExactlyWhen` | src/admin/mfa.ts:126-132 | a removed factor lets a code through in some continuation exactly when a sign-in that had read it is on its way, to a step its guard has not reached: the write that moves the guard does not look |
| `MfaSafety.RemovalDoesNotStopASignIn` | src/admin/mfa.ts:110-178 | a run from the start: someone enrols, confirms and starts to sign in, the factor is removed, and the code passes |
| `MfaRoundTrip.EnrolledExactlyWhen` | src/admin/mfa.ts:74-83 | setting up is refused exactly to those with a confirmed factor; otherwise one new secret waits and older ones of the account are given up |
| `MfaRoundTrip.ConfirmedExactlyWhen` | src/admin/mfa.ts:86-107 | a pending factor is confirmed exactly by a current password of its secret, which is used up with it; the person then has exactly the codes handed out |
| `MfaRoundTrip.SignedInExactlyWhen` | src/admin/mfa.ts:112-133 | a sign-in passes exactly with a current password of a later time step than any accepted before, and the guard moves there; one refused only for its step is a replay, any other wrong |
| `MfaRoundTrip.RedeemedExactlyWhen` | src/admin/mfa.ts:145-156 | a typed code is accepted exactly when it spells an unused one of the person; that one is used up, every other row stays, and the answer counts the rest |
| `MfaRoundTrip.RegeneratedCodesWork` | src/admin/mfa.ts:158-167 | after new codes are issued a person gets in by exactly these; everyone else's codes are as they were |
| `MfaRoundTrip.TypedAsShown` | src/admin/mfa.ts:54-56 | a code is good as it is shown, in two halves with a hyphen, as well as in small letters or with spaces (lines 137-146) |
| `MfaRoundTrip.ResetLeavesNothing` | src/admin/mfa.ts:170-178 | a reset leaves the person no factor and no code, and touches nobody else |
| `MfaDesk.FactorTable.StartEnrolment` | src/admin/mfa.ts:78-81 | the transaction of an enrolment, with the database's one live factor per person, is the specified step |
| `MfaDesk.FactorTable.ConfirmEnrolment` | src/admin/mfa.ts:97-105 | the transaction that confirms a factor and replaces the recovery codes is the specified step |
| `MfaDesk.FactorTable.ReplaceCodes` | src/admin/mfa.ts:158-167 | the person's codes are deleted and a new batch stored, others untouched |
| `MfaDesk.FactorTable.MoveReplayGuard` | src/admin/mfa.ts:126-132 | of two sign-ins with one code, the guarded write lets one through |
| `MfaDesk.FactorTable.UseRecoveryCode` | src/admin/mfa.ts:148-155 | the walk over the codes read claims the first match, or loses it to someone else |
| `SessionRuns.AcceptedOnlyInUse` | src/admin/adminSessions.ts:39-50 | in every run an accepted request lies within the idle time of an earlier use and before creation plus the absolute lifetime, and a confirmation is fresh only if one was made in time |
| `SessionRuns.BusyIsNeverIdle` | src/admin/adminSessions.ts:44-48 | whatever requests overlap: if every touch has landed before any request read more than a lag after it, a session used at least every idle time less the lag and less the larger of lag and 59,999 ms is never refused as idle |
| `SessionRuns.NeverIdleExactlyWhen` | src/admin/adminSessions.ts:15-48 | for every lag that margin is exact: runs with pauses of a given length are all safe exactly when it is no longer than the margin |
| `SessionRuns.TheMarginIsExact` | src/admin/adminSessions.ts:15-48 | for every lag a run whose pauses are one millisecond longer ends in a refusal as idle |
| `SessionRuns.LateTouchTurnsBack` | src/admin/adminSessions.ts:46-48 | a touch that lands after a later one turns the note back, and a session in use is refused as idle |
| `SessionRuns.RefusedForEverExactlyWhen` | src/admin/adminSessions.ts:39-70 | in every run, a session can be let in again from some moment on exactly when it is neither revoked nor expired and either a touch recent enough is on its way, or its note is recent and the second factor does not stand in the way or can still be proved by a request let in before |
| `SessionRuns.DeadStaysDead` | src/admin/adminSessions.ts:39-50 | otherwise every later request of every run is refused |
| `SessionRuns.LetInExactlyWhen` | src/admin/adminSessions.ts:39-50 | in every run a request is let in exactly if nothing in the run revoked the session, its whole time is not over, it was last noted recently enough, and a second factor that is needed was proved or may still be |
| `SessionRuns.RevokedForGood` | src/admin/adminSessions.ts:52-56 | once revoked, a session refuses every request of every run for that reason, whatever lands later |
| `SessionRuns.FreshExactlyAfterAConfirmation` | src/admin/adminSessions.ts:66-77 | a confirmation counts exactly from when it is made in a request that was let in, for its time |
| `AdminSessions.SessionTable.CreateAdminSession` | src/admin/adminSessions.ts:18-37 | the new row, its lifetime and what counts as already proved |
| `AdminSessions.SessionTable.LoadSession` | src/admin/adminSessions.ts:39-50 | the verdict on the row as read, and exactly when a touch is due |
| `AdminSessions.SessionTable.LandTouch` | src/admin/adminSessions.ts:47 | the touch changes only a session not yet revoked |
| `AdminSessions.SessionTable.RevokeAdminSession` | src/admin/adminSessions.ts:52-55 | ends the session once and says whether it did |
| `AdminSessions.SessionTable.RevokeAllAdminSessions` | src/admin/adminSessions.ts:57-64 | ends exactly the person's live sessions but the one to keep, and counts them |
| `AdminSessions.SessionTable.MarkSessionMfaVerified` | src/admin/adminSessions.ts:66-68 | marks the second factor and a fresh confirmation, on that row only |
| `AdminSessions.SessionTable.MarkSessionReauth` | src/admin/adminSessions.ts:70-72 | marks a fresh confirmation, on that row only |
| `Retry.RetryWithBackoff` | src/ai/retryWithBackoff.ts:83-127 | the loop computes the specified run: its attempts, its ending and when it ends |
| `Retry.WithinTheBudget` | src/ai/retryWithBackoff.ts:91-122 | the run ends within the total budget, plus the lateness of one timer however many attempts it made |
| `Retry.AttemptsAreCapped` | src/ai/retryWithBackoff.ts:91 | never more attempts than the cap |
| `Retry.TheLastAttemptSpeaks` | src/ai/retryWithBackoff.ts:91-126 | the caller gets what the last attempt gave and only a retryable failure is followed by another attempt; an error of the driver's own is thrown exactly when no attempt may start, or the last one rejected with nothing and the sleep after it used up the budget (its comment at lines 79-80 says never) |
| `Retry.FusesShorten` | src/ai/retryWithBackoff.ts:92-100 | attempts follow one another, each fuse fits what is left of the budget and none is longer than the one before |
| `Retry.GivesUpOnlyWhenItMust` | src/ai/retryWithBackoff.ts:110-120 | the run stops after a failure only for its kind, the cap or the clock |
| `Retry.DelayIsWithinItsCap` | src/ai/retryWithBackoff.ts:59-62 | the wait drawn lies between nothing and the doubling cap |
| `Retry.TriesFollowTheWorld` | src/ai/retryWithBackoff.ts:91-122 | each attempt is what the world answers under the fuse the budget leaves, and between two lies exactly the pause that was drawn, out of a time that doubles up to its most |
| `DeepSeek.RunChatCompletionAndValidate` | src/ai/deepseekProvider.ts:296-328 | data is returned exactly if the last completion's content is JSON that conforms to the schema, and is what the schema makes of it; a second completion is asked for exactly when the first came back and is not; the parse is invalid exactly when both are not (the checks are lines 205-227) |
| `DeepSeek.SecondRequestShowsTheReply` | src/ai/deepseekProvider.ts:306-315 | the second request has all messages of the first, the reply to it, and what was wrong with it |
| `DeepSeek.UsageIsTheSum` | src/ai/deepseekProvider.ts:303-323 | the usage returned is the sum of what each completion received says it used, missing figures being nothing, over every attempt of either call |
| `DeepSeek.UsageIsLostExactlyWhen` | src/ai/deepseekProvider.ts:303-327 | tokens go unreported exactly when the service answers the first call with a completion that fails the checks, the second with none or another that fails them, and one of these used tokens (the comment at lines 293-294 says no billable completion goes untracked) |
| `DeepSeek.TwoInvalidRepliesGoUnreported` | src/ai/deepseekProvider.ts:296-328 | two invalid replies are billed twice and reported never |
| `DeepSeek.TwiceTheBounds` | src/ai/deepseekProvider.ts:331-380 | a parse takes at most twice the attempts and twice the time of one budget |
| `DeepSeek.DefaultBounds` | src/ai/retryWithBackoff.ts:50-56 | with the default budget: at most six requests and forty seconds, plus the lateness of two timers |
| `DeepSeek.FinalFailuresAreFinal` | src/ai/deepseekProvider.ts:124-138 | a failure other than too many requests, a fault of the service, our timeout or a lost connection is the last request of the whole parse and is what the caller gets |
| `DeepSeek.PassingFailuresAreTriedAgain` | src/ai/deepseekProvider.ts:124-138 | and those four are followed by another attempt while the cap and the clock allow one |
| `Csv.ExportReads` | src/admin/csv.ts:9-24 | a whole exported file, read by a strict reader of section 2 of RFC 4180, is exactly the sanitised cells row by row (lines joined as in src/admin/adminTransactions.ts:374) |
| `Csv.CellReads` | src/admin/csv.ts:9-20 | each printed cell reads back as the cell it stands for, whatever legal text follows |
| `Csv.NoFormulaSurvives` | src/admin/csv.ts:7-14 | no decoded text cell starts with a trigger, at its start or after leading white space |
| `Csv.ExportFailsExactlyWhen` | src/admin/csv.ts:16-20 | an export fails exactly when some number cell is not an integer |
| `CsvReader.ParseCsv` | src/domain/bulkCatalog.ts:157-180 | the reading loop computes the specified rows |
| `CsvReader.AgreesWithTheStandard` | src/domain/bulkCatalog.ts:156-180 | on every file that follows RFC 4180 the reader finds the same records, blank ones left out |
| `CsvReader.ExportComesBack` | src/domain/bulkCatalog.ts:145-180 | an exported file is read back as its sanitised cells |
| `CsvReader.ComesBackExactlyWhen` | src/domain/bulkCatalog.ts:196-204 | what the import makes of a cell is the text exported, up to outer white space and line breaks, exactly when it neither hides a trigger behind leading white space nor itself starts with an apostrophe and a trigger |
| `CsvReader.PlainComesBackExactlyWhen` | src/domain/bulkCatalog.ts:199-220 | so it is with the columns read as they are: product, variant and unit |
| `CsvReader.ClearableComesBackExactlyWhen` | src/domain/bulkCatalog.ts:182-222 | in the columns that can be cleared, category, description and barcode, the text must besides not be the word CLEAR |
| `CsvReader.ClearIsRemoved` | src/domain/bulkCatalog.ts:182-222 | a category called "Clear", in any case, is removed by importing its own export |
| `CsvReader.HiddenTriggerGainsAnApostrophe` | src/domain/bulkCatalog.ts:199-204 | a formula typed after a space comes back with an apostrophe nobody wrote |
| `CsvReader.MarkIsDropped` | src/domain/bulkCatalog.ts:157-183 | a byte order mark in front of a file is no part of its first cell |
| `Money.AmountComesBack` | src/domain/money.ts:10-50 | every amount printed with a currency's decimals reads back to the same minor units |
| `ListEntry.MatchEntry` | src/ai/listEntry.ts:49 | the search for the shortest name computes the specified match |
| `ListEntry.NameLength` | src/ai/listEntry.ts:49 | the name found is the shortest that leaves a readable end, and none goes past a line end |
| `ListProofs.TailsHaveOneReading` | src/ai/listEntry.ts:49 | the reader of a line's end accepts exactly the texts the pattern describes, and no text has two readings with different amounts or currencies |
| `ListRoundTrip.PrintedLineReads` | src/ai/listEntry.ts:62-106 | a line "<name> =<amount>" is read as that name and that amount |
| `ListRoundTrip.SaleLineReadsBack` | src/ai/listEntry.ts:90-105 | a sale line "<name> <quantity> =<amount>" is read as that name, that quantity and the even unit price |
| `ListRoundTrip.EntryLineIsNoHeading` | src/ai/listEntry.ts:53 | such a line is never taken for a heading |
| `ListRoundTrip.LineIsReadExactlyWhen` | src/ai/listEntry.ts:62-106 | a line "<name> =<amount> <letters>" is read exactly if the name has a letter and at most sixty characters, the amount is positive, and the letters are at most two or the business's own currency; never an amount in another currency |
| `ListNames.NameIsKeptExactlyWhen` | src/ai/listEntry.ts:94-101 | only the quantity's own word leaves the name exactly when no earlier word begins with the same digits behind the same white space: the source replaces the first occurrence of the text, not the match |
| `ListNames.APackLosesItsDigit` | src/ai/listEntry.ts:90-105 | the whole line "A 2b 2 =<even amount>", two of "A 2b", is read as two of "A b 2" |
| `ListMessage.ParseLines` | src/ai/listEntry.ts:112-137 | the loop over the lines computes the specified lists, section and date |
| `ListMessage.ParseListMessage` | src/ai/listEntry.ts:108-138 | a message is read as the specified list or not at all |
| `ListMessage.LinesArePartitioned` | src/ai/listEntry.ts:123-133 | headings, entries and unreadable lines partition the lines, each line in its place and order: a heading before anything else, an entry if it reads as one, unreadable if as neither |
| `ListMessage.NearestHeadingRules` | src/ai/listEntry.ts:118-127 | an entry's section is that of the nearest heading above it, sales when there is none |
| `ListMessage.IsAListExactlyWhen` | src/ai/listEntry.ts:112-136 | a message is a list exactly with three lines or more, two to forty of them entries, and no command among them |
| `ListMessage.DateIsTheFirst` | src/ai/listEntry.ts:124-128 | the date of a list is that of its first dated heading |
| `ListMessage.EveryEntryIsSound` | src/ai/listEntry.ts:62-137 | in every list read there are 2 to 40 entries, and quantity times unit price is exactly each positive amount |
| `ListWritten.WrittenListReadsBack` | src/ai/listEntry.ts:108-138 | a whole list in the plain shape, headings, debts, payments, expenses and counted sales, is read as exactly the entries meant, in order and under their headings, nothing unreadable |
| `ListWritten.HeadReads` | src/ai/listEntry.ts:51-60 | each heading word alone opens its own section |
| `ListWritten.SectionIsOfTheFirstWord` | src/ai/listEntry.ts:39-44 | the section of a line is that of its whole first word in small letters, so the order of the patterns is no matter |
| `ListWritten.IsAHeadingExactlyWhen` | src/ai/listEntry.ts:52-60 | a line is a heading exactly if its first word opens a section, it has at most six words, no equals sign and no digit outside its first date |
| `ListWritten.DatedHeadReads` | src/ai/listEntry.ts:52-60 | a section word with a date behind it opens its section and is dated |
| `ListConservation.JobsHoldTheEntries` | src/messageDispatcher.ts:658-691 | every entry of a list is in exactly one job, as often as it occurs |
| `ListPosting.Poster.Apply` | src/messageDispatcher.ts:635-656 | one job is posted, skipped or stopped as the quota and the ledger answer |
| `ListPosting.Poster.ApplyGroup` | src/messageDispatcher.ts:679-691 | the lines of a section are tried in order and the saved ones returned |
| `ListPosting.PostSale` | src/messageDispatcher.ts:658-672 | the sale lines become one sale, posted first |
| `ListPosting.PostGroups` | src/messageDispatcher.ts:674-693 | debts, payments and expenses follow, in that order, and each group returns its own lines |
| `ListPosting.HandleList` | src/messageDispatcher.ts:603-705 | unless an unexpected error breaks it off every job is tried, and the summary names exactly what was posted, each section's lines under its own heading |
| `ListConservation.EachJobOnce` | src/messageDispatcher.ts:635-693 | each job tried is posted or skipped, exactly as often as it occurs |
| `ListConservation.SummaryIsTrueExactlyWhen` | src/messageDispatcher.ts:631-703 | what the summary names was all recorded exactly when no payment line given to the ledger was for more than its customer owed by then, the list's own debts included (src/ai/applyParsedIntent.ts lines 235-259 answer such a payment in words) |
| `ListConservation.UnowedPaymentIsNamed` | src/ai/applyParsedIntent.ts:235-259 | a payment by someone who owes nothing is named as saved and not recorded |
| `ListConservation.DebtsAddUp` | src/messageDispatcher.ts:674-691 | everyone owes what they owed before and the debts recorded, less the payments recorded, and never less than nothing |
| `ListPosting.Poster.ApplyToLedger` | src/ai/applyParsedIntent.ts:235-274 | the ledger's part: debts grow, payments pay them down, and one of more than is owed changes nothing |
| `ListConservation.NothingAfterAStop` | src/messageDispatcher.ts:632-655 | from the first job the quota stops, nothing is posted, each further job is named among the skipped in order, and the quota's message is kept; from the first unexpected error on nothing changes at all |
| `ListConservation.PostedUntilAStop` | src/messageDispatcher.ts:632-655 | until then exactly the jobs that are accepted are posted, in order, and exactly those refused as more than is owed are named |
| `ListConservation.SectionsAreInOrder` | src/messageDispatcher.ts:657-693 | the sale comes first, then debts, payments and expenses |
| `ListConservation.MoneyIsConserved` | src/messageDispatcher.ts:631-693 | what is posted and what is skipped are together worth exactly what the list says |
| `ListConservation.TheSaleAddsUp` | src/messageDispatcher.ts:658-672 | there is at most one sale, and it is worth the sum over its items of quantity times unit price |
| `Onboarding.Conversation.Continue` | src/onboarding/onboardingFlow.ts:102-279 | the steps of onboarding change the rows as specified, up to the call that fails |
| `Onboarding.Conversation.SignUp` | src/messageDispatcher.ts:955-996 | a sign-up, its welcome and its rollback change the rows as specified |
| `Onboarding.Conversation.Answer` | src/messageDispatcher.ts:1013-1046 | a later step, its reply and its revert change the rows as specified |
| `Onboarding.Conversation.DispatchInboundMessage` | src/messageDispatcher.ts:947-1097 | one message changes the rows, the reports and the event as specified |
| `OnboardingSafety.StepMatchesPromptExactlyWhen` | src/messageDispatcher.ts:1013-1046 | after a dispatch the stored step is the one whose prompt was last delivered, whatever call failed, except exactly when the reply and the write that undoes its step are both lost |
| `OnboardingSafety.AlwaysInStep` | src/messageDispatcher.ts:947-1097 | over every run in which the undoing writes do not fail, step and prompt never part |
| `OnboardingSafety.OneStepExactlyWhen` | src/onboarding/onboardingFlow.ts:102-181 | a message takes a stranger to the first question, or a merchant exactly one question further, exactly when it answers the question it finds and the calls that store it succeed, and the reply too unless undoing fails (src/messageDispatcher.ts lines 955-1046) |
| `OnboardingSafety.SmoothSignUp` | src/onboarding/onboardingFlow.ts:102-181 | with nothing failing, four messages take a stranger through every question to the end, both consents recorded |
| `OnboardingSafety.StrandedExactlyWhen` | src/messageDispatcher.ts:956-995 | a number whose welcome failed has no merchant and no business left, except exactly when the merchant row failed after the business row or the undoing failed |
| `OnboardingSafety.MarkedOnceEach` | src/messageDispatcher.ts:1066-1096 | marking a message processed is attempted exactly once, and answering one that failed is attempted exactly once: one of which some call it needs, its reply among them, fails |
| `OnboardingSafety.EachLossIsReported` | src/messageDispatcher.ts:955-1096 | the incidents reported are exactly the writes that could not be undone, the failure of the message, and the mark that could not be set |
| `OnboardingSafety.ConsentIsRecordedOnce` | src/onboarding/onboardingFlow.ts:131-181 | through every failure and revert consent to the terms is recorded at most once, and nobody gets past the question without it |
| `OnboardingSafety.SecondConsentIsLostExactlyWhen` | src/onboarding/onboardingFlow.ts:148-170 | in every run, once consent to the terms is recorded the second consent row is missing for ever exactly when its write failed in the turn that recorded the terms |
| `OnboardingSafety.TermsAreRaised` | src/onboarding/onboardingFlow.ts:148-170 | wherever the terms are recorded there is one such turn |
| `OnboardingSafety.SecondConsentCanBeLost` | src/onboarding/onboardingFlow.ts:102-181 | a run from a stranger's first message in which it is lost and onboarding goes on |
| `AiRoutingSafety.BilledOncePerMessage` | src/domain/aiUsageLedger.ts:93-257 | in every interleaving no message is billed twice in the ledger, each outcome follows its own reservation, and no request has two |
| `AiRoutingSafety.AskedAgainExactlyWhen` | src/domain/aiUsageLedger.ts:93-125 | in every state the vendor can be asked about a message, once more if it was before, exactly as long as the message is not billed and the breaker is not stuck |
| `AiRoutingSafety.TheVendorCanBeAskedTwice` | src/domain/aiUsageLedger.ts:93-125 | a run from the start in which two deliveries of one message both pass the reservation |
| `AiRoutingSafety.NeverAskedAgainExactlyWhen` | src/messageDispatcher.ts:405-446 | the vendor is never asked again exactly when the breaker is half open, its probe is given away and no call is left that would report it |
| `AiRoutingSafety.StuckForEver` | src/messageDispatcher.ts:405-446 | from then on no continuation asks the vendor |
| `AiRoutingSafety.OneFailedReservationSticks` | src/messageDispatcher.ts:405-446 | one reservation that cannot be written, or an unknown model, during the probe is enough |
| `AiRoutingOutcomes.OpensExactlyAtTheThreshold` | src/monitoring/circuitBreaker.ts:56-100 | a closed breaker opens exactly with the failure that makes up the threshold since the last success, and then refuses every attempt until its time to rest is over |
| `AiRoutingOutcomes.GotThrough` | src/messageDispatcher.ts:405-488 | a delivery that gets through asks the vendor once, holds the budget before and bills or releases it after, and the breaker counts the answer |
| `AiRoutingOutcomes.TurnedAway` | src/messageDispatcher.ts:405-446 | one that does not, for the breaker, the model or the reservation, asks nobody and writes nothing |
| `AiRoutingOutcomes.RepliesExactlyWhen` | src/messageDispatcher.ts:405-488 | it is served exactly when the vendor answered it, and falls back wherever it is stopped |
| `AiRouting.CircuitBreaker.CanAttempt` | src/monitoring/circuitBreaker.ts:56-70 | lets a call through, or one probe, as specified |
| `AiRouting.CircuitBreaker.RecordSuccess` | src/monitoring/circuitBreaker.ts:72-79 | a success closes a half-open breaker and clears the count |
| `AiRouting.CircuitBreaker.RecordFailure` | src/monitoring/circuitBreaker.ts:81-100 | a failed probe, or the last failure of the threshold, opens the breaker |
| `AiRouting.UsageLedger.ReserveUsage` | src/domain/aiUsageLedger.ts:93-125 | a reservation is refused exactly when the message is already billed, and is one new row otherwise |
| `AiRouting.UsageLedger.SettleUsage` | src/domain/aiUsageLedger.ts:137-257 | an outcome is written exactly when the request has none and the message is not billed under another |
| `DispatchWords.ParseDispatchWords` | src/commands/storeCommands.ts:61-88 | the two loops compute the specified booking |
| `DispatchWords.ParseRider` | src/commands/storeCommands.ts:75-86 | the backward scan computes the specified split of name and phone |
| `DispatchWords.BookingReadsBack` | src/commands/storeCommands.ts:61-74 | courier, name, reference and link printed as keyword words in any order read back as they were, courier and link by their first word |
| `DispatchWords.KeywordsAre` | src/commands/storeCommands.ts:61-69 | exactly five words are keywords, in any case |
| `DispatchWords.WholeBookingReadsBackExactlyWhen` | src/commands/storeCommands.ts:61-88 | all fields, the rider's name and phone among them, printed as keyword words in any order read back as they were exactly when the rider's name does not end in a word that would be taken for the phone |
| `DispatchWords.RiderReadsBackExactlyWhen` | src/commands/storeCommands.ts:75-86 | a rider's name and phone of 8 to 15 digits read back exactly when the name's last word is not number-like |
| `DispatchWords.NameOrPhoneAlone` | src/commands/storeCommands.ts:75-86 | a name alone or a phone alone reads back as what it is |
| `Text.WordsOfJoin` | src/commands/storeCommands.ts:77-83 | words joined by single spaces and split again are the same words |

## Left out

- Text.Lower: models lower case of ASCII letters only; other letters of the source's `toLowerCase` stay as they are.
- CanonicalForm.PrintsAgreeExactly: values hold integers only; other numbers never occur in the payloads, and printing them is not modelled.
- RefundDesk.Desk.CheckRequest: the reason's text is modelled by its length, and the invoice or payment by whether it may be refunded and how much is left.
- Hashes, password digests and encryption: a hash is the text it covers, so two are equal exactly when the texts are; SHA-256, HMAC, bcrypt, AES-GCM and one-time-password generation are not part of this model.
- RateLimiters.RedisFixedWindowLimiter.Consume: the store is ideal; a key is gone once its time to live has elapsed, and the increment and the remaining time are read at one instant, so server latency and aborted transactions are not modelled.
- RefundSafety.SentIsRequested: a trigger of the database freezes a request's payload; the model lets it be edited all the same.
- RefundSafety.OneOpenRequestPerPayment: the check for an open request and its insert are one step, as the source leaves that race to the database.
- WhatsappCaps.SendingIsCapped: the caps and the new row are one step, so two requests for a code at the same instant are not modelled.
- WhatsappDesk.ChallengeTable.VerifyChallenge: encryption, the four last digits and the sending of messages are not modelled.
- WhatsappNumbers.NumberTable.SendWhatsappCode: a factor is never disabled in the repository other than by removal, so its `disabledAt` is left out; numbers are plain values, and their shape is not checked.
- StaffDesk.Desk.InitiateTransfer: the two reads before the transaction are taken as one step with it; so is the read of `createInvitation`.
- StaffHistory.HistoryIsUnbroken: transactions run one at a time there, as do `StaffSafety.AcceptNeverNeedsTheGuard` and `StaffHistory.DecisionsAreFinal`; the repository sets no isolation level, and `StaffReads` says what holds when reads are old. The writes of one transaction are one step even there, so what commits between two of them, which row locks keep from the rows already written, is not modelled.
- `resendInvitation` and `revokeStaffSessions`: compositions of modelled operations.
- MfaDesk.FactorTable.StartEnrolment: a missing encryption key is not modelled; which matching step the one-time-password library reports, when several match, is left open.
- SessionRuns.BusyIsNeverIdle: how late a touch may land is the stated lag; a touch whose write fails ends its request in the source and stays under way in the model.
- SessionRuns.RefusedForEverExactlyWhen: the policy is fixed, and a request let in may prove the second factor however long it takes.
- AdminSessions.SessionTable.LoadSession: caller hashes of a session and the reason text of a revocation are not modelled.
- Retry.WithinTheBudget: times are real numbers and delays are not negative; the millisecond rounding of clocks and timers is part of the stated lateness.
- DeepSeek.RunChatCompletionAndValidate: JSON parsing and the intent schema are two checks left to the world, and the prompt text, escaping and model lookup are not modelled.
- ListEntry.NameLength: the pattern is modelled by its shortest-name search and a reader of the rest, without other regular-expression features; money is an unbounded integer, so the loss of precision of `Number` above 2^53 is not modelled.
- ListRoundTrip.SaleLineReadsBack: for names without digits and currencies of at most two decimals; other names are the business of `ListNames.NameIsKeptExactlyWhen`.
- StaffOutcomes.InvitationAcceptedExactlyWhen: whether a password is strong enough is the caller's word; the rules of `passwordProblem` are finite and not modelled.
- ListWritten.WrittenListReadsBack: for the four plain heading words without dates, lines broken by a line feed, and currencies of at most two decimals, which the entry pattern needs.
- ListPosting.HandleList: quota and ledger answers are the world's, and a job the ledger takes counts as posted, as the handler has it; debts are kept as one sum per customer, who is whoever the world says a name stands for, and nobody else touches them meanwhile. The check for a message already recorded, which only replies, is left out.
- Onboarding.Conversation.DispatchInboundMessage: one message of a number at a time, a call either takes effect or fails, and reporting an incident never fails; served commands, voice notes and which texts pass for a customer's name are the world's.
- AiRouting.UsageLedger.ReserveUsage: the advisory lock makes a reservation and a settlement one step each; costs and the feature flag are not modelled.
- CsvReader.ExportComesBack: for exports whose first row starts with a text cell, as every header does; of the catalogue import only what it makes of a free-text cell is modelled, not how columns are found nor the checks of numbers, status and price.
- Csv.CellReads: a cell is text already; turning other values into text, and empty values, is not modelled.
- DispatchWords.BookingReadsBack: for words without white space that are no keyword, as the command splits its text at white space.
- HTTP routes, request schemas, reply texts, the web console, payment providers, WhatsApp delivery and the queue: input and output without a deep property.
- The permission matrix, module rules, country table and pagination: finite or settled by one reading.
