# Spend control, modelled in Dafny

This project models the spend-control pipeline of `shared-tee-helpers` and proves what it
promises. A wallet's request to spend on behalf of a bound account arrives as a nested
`w_execute_extension` request. It is decoded into one record of effects, judged by the owner's
policy, and judged again by a mirror of the leased account's own contract, so that a doomed
request is refused by name before it costs gas.

The modules, from the bottom up:

- `Common`, `Json`, `Request`: saturating amounts, decimal figures as Rust reads them, JSON values,
  the typed wire structs and the readers of inner call arguments (named and positional spelling).
- `Effects`, `Conservation`: the decoder. `Effects.Effects` is the nested loop over promises and
  actions; its postcondition ties every list and total to the request through *fragments* that join
  promise by promise, with sums counted without a ceiling.
- `Violations`, `Hos`, `Binding`: refusals, their order key and stable sort, the leased mode's
  admission, the two rules that need a second view, the single dispatch and the assembled verdict.
- `Charging`, `Refinement`, `Ledger`, `Grants`, `Losses`: the reference pass. It reads the request, never the
  effects, walks promises in order, carries the native meter along and stops at the first rule it
  trips. The verdict's first violation is proved to be the step at which this pass stops; on that rest
  the comparison of two grants and of a status with what is left of it after a loss.
- `Policy`, `Evaluation`, `Ladder`, `Extension`, `Invariance`, `Velocity`, `Runs`, `Metering`,
  `Fences`: the policy engine, its decision ladder, the exact rule of the extension door stated over
  the request, and what holds across rewritings, counters, caps, runs and raw usage documents.
- `DecoderCases`, `DoorCases`, `OperationCases`, `ExtensionCases`, `PolicyCases`, `VoteCases`,
  `TextCases`: what single actions, arguments, grants, operations, clauses and responses come to, read
  off their own fields. These hold the definitions the other modules share to the inputs they are about:
  none of them goes through the readers, accessors and sums the specifications are written with.
- `ContractVote`, `Canonical`, `AccountId`: contract votes against an arbitrary node, the canonical
  JSON form, and the account-id scanner.

Code that works step by step is a method with loops, proved against a specification function; the
properties are then lemmas about that function.

## Where a promise is not kept as written

Each of these is a result: an input on which it fails, and the exact condition under which it holds.

- **The first violation is what the chain would have stopped at** (`src/binding.rs:387-441`,
  `622-673`). The running native spend saturates at 2^128-1 (`src/hos.rs:331-358`), so with exactly
  that much left of the budget a second payment is not noticed. `Refinement.AgreesExactly`,
  for each request: verdict and pass agree if and only if the meter is exact or the pass does not stop at
  the native budget. `Refinement.AgreementExactly`: agreement on every request if and only if the door is
  closed, no receiver is granted, or less than 2^128-1 is left.
- **Token budgets** are compared per move and do not accumulate inside one request
  (`src/hos.rs:405-431`), while the account's meter does. `Ledger.WritingPassExactly`, for every
  request: the verdict's first violation is what a pass with written-back token meters stops at if and
  only if the native meter suffices and what is paid of each token ahead of that place, taken together, is
  left of its budget; where only the latter fails that pass stops earlier, at the first payment that passes a meter. So the two agree on every
  request that pays each token once or stays within its budgets (`Ledger.VerdictIsTheWritingPass`).
  The failing input is one token paid twice (`Ledger.PaidTwiceParts`), and no request at all tells
  the two apart if and only if the native meter is exact and no token payment could move a meter
  (`Ledger.PerMoveExactly`).
- **"A shrunken answer can only refuse more, never less"** and "a truncated or reshaped response denies
  rather than permits" (`src/hos.rs:43-48`, `549-551`). A lost `spent_yocto`, and a lost `spent` inside a
  token's budget, default to zero and *raise* what is left; a lost `reserve_yocto` removes the floor; and
  losing the one field that did not read makes an unreadable grant readable.
  `Losses.ShrunkenExactly`, for any set of names lost from the status, the grant and the budgets at
  once: with the balance unknown the statement holds of the pre-flight if and only if the loss closes the
  door, or the door was open and nobody can be paid or every lost meter had nothing on it or lost its
  budget too; over all balances if and only if, besides, the floor did arrive or is zero.
  `Losses.LostFloorExactly` is the condition for one request and one balance, `Losses.ShrunkenPermitsMore`
  the failing inputs. Identity has no such gap: `Losses.LostIdentityExactly`. Behind it stands
  `Grants.GrantsExactly`: when one grant permits no more than another. The model follows the code.
- **"An unknown count is not zero"** and a cap compared against an unknown spend is no cap
  (`src/wallet_policy.rs:1108-1112`, `1148-1150`, `1463`). An `hourly_tx_count` that is no 64-bit integer
  reads as zero (`1175-1178`) and lifts any rate cap (`Metering.UnreadCountPermits`); a window that is
  there and is no object reads as nothing spent (`1136-1138`) and any cap can be spent against it
  (`Metering.UnreadWindowPermits`). `Metering.CountExactly` and `Metering.WindowExactly`: metering fails
  closed on a document if and only if it names no window at all, or the count, respectively the window, is
  left out or of its kind.
- **"A lock that nobody could lift, or anybody could step around, is never stored"**
  (`src/wallet_policy.rs:444-446`). A lock is accepted on trimmed ids, while votes are matched against the
  ids as written, so an accepted lock can be one nobody lifts (`Fences.PaddedApproverLocks`).
  `Fences.LiftableExactly`: a lock can be lifted if and only if its threshold is no more than the number
  of distinct listed ids an account can have. And the rung that refuses raw signing on near under a stored
  lock does not trim (`1253-1268`): under every locked policy with a given raw-sign capability near stays
  closed if and only if the capability is off or lists no padded spelling (`Fences.LockedNearExactly`,
  failing input `Fences.PaddedNear`). Accepted locks do hold (`Fences.AcceptedLockHolds`).
- **No counter passes its cap.** A cap of 2^128-1 bounds nothing (`Common.LimitTestIsExact`), and a
  token contract that is itself named `native` slips past a native cap, its units being compared apart
  from the yocto (`Runs.NamesakePassesTheCap`). `Runs.DailyCapHoldsExactly`: a daily native cap holds
  over every run without such a token if and only if it is below 2^128-1, and over every run at all if
  and only if it is zero.
- **Flag and resolution describe one state of the wallet** (`src/contract_vote.rs:365-383`). Both are
  asked at one block, but the block named by the second answer is not looked at
  (`src/contract_vote.rs:454-458`). A vote put together from two blocks can be counted
  (`ContractVote.UnpinnedAnswerCounts`). `ContractVote.OneBlockExactly`: a counted pair rests on one block
  whatever its bytes read as if and only if the node answers the pinned query from the block it was
  pinned to.
- **Splitting a payment does not change the answer.** For a token payment this holds exactly when the
  pieces attach together what the whole attached, since every piece is a call whose deposit is metered,
  or when both requests spend 2^128-1 or more (`Invariance.FtSplitExactly`).

## Model

| member | source | states |
|---|---|---|
| Effects.Effects | src/wallet_request_decode.rs:380-546 | decoding succeeds exactly when every figure reads, an error names the first promise with one that does not, and the record is the one the request's fragments join to, native and gas totals being the exact sums saturated |
| Effects.RecordPromise | src/wallet_request_decode.rs:394-542 | one promise extends every list by its own contribution and adds one saturated native entry; it fails exactly on an unreadable figure of that promise |
| Effects.RecordCall | src/wallet_request_decode.rs:417-538 | a call pushes its form facts, its promise once, and exactly one entry to one of the three effect lists |
| Conservation.ActionsAreConserved | src/wallet_request_decode.rs:387-545 | every function call lands in exactly one of moves, registrations and unknowns; calls, plain transfers and state inits together are all the actions; both of each promise at its own index as well as in all; one receiver and one native entry per promise |
| Conservation.RecordsAreInOrder | src/wallet_request_decode.rs:289-328 | every recorded index is in range, each list is in promise order, and the call promises are strictly increasing and exactly the promises with a call |
| Conservation.TotalsAreSaturatedSums | src/wallet_request_decode.rs:401-542 | the native totals, per promise and in all, equal the least of 2^128-1 and the exact sum through both nesting levels |
| DecoderCases.NextActionAdds | src/wallet_request_decode.rs:401-542 | one action more, a transfer, a state init or a call in any request, adds the yocto and gas it spells to its promise and to the request, up to the largest figures |
| DecoderCases.EmptyPromiseAdds | src/wallet_request_decode.rs:394-402 | a promise without actions adds nothing to any total, and no promises carry nothing |
| DecoderCases.StateInitIsSpent | src/wallet_request_decode.rs:412-415 | a state init alone carries its deposit |
| DecoderCases.EveryFigureReads | src/wallet_request_decode.rs:404-425 | a request reads exactly when every transfer amount, state-init deposit, call deposit and gas figure in it does |
| DecoderCases.CallPromisesHoldCalls | src/wallet_request_decode.rs:417-420 | the call promises are those with a call anywhere among their actions |
| DecoderCases.ControlOpsAreNamed | src/wallet_request_decode.rs:93-101 | control operations are recorded by their wire names |
| DecoderCases.FtTransferRecorded | src/wallet_request_decode.rs:425-538 | an ft_transfer whose arguments hold a receiver and an amount once moves those units to that receiver; memo is known, every other key is recorded as extra |
| DecoderCases.NftTransferRecorded | src/wallet_request_decode.rs:425-538 | an nft_transfer moves the named item; an approval is recorded exactly when it is there and not null |
| DecoderCases.StorageDepositRecorded | src/wallet_request_decode.rs:505-530 | a storage_deposit registers whom it names, and the caller when it names nobody, null or has no bytes |
| DecoderCases.UnstatableRecorded | src/wallet_request_decode.rs:425-538 | every other call, and one whose arguments do not decode or lack a field, is recorded as one that cannot be stated |
| DecoderCases.UnreadAmountRecorded | src/wallet_request_decode.rs:443-470 | an ft_transfer whose amount is no figure cannot be stated, for its amount |
| DecoderCases.PlainActionsRecorded | src/wallet_request_decode.rs:404-416 | one transfer and one state init are recorded as what they are, with what they carry |
| DecoderCases.RefundRecorded | src/wallet_request_decode.rs:396-399 | a refund target is recorded with its promise, and as a fact of its form |
| Payments.PositionalReadsAlike | src/wallet_request_decode.rs:332-371 | for any items: token and storage arguments in the positional array spelling read exactly as the object that names those fields, with more items than fields they do not read, and no bytes at all read as the empty object |
| Hos.Admission | src/hos.rs:131-475 | the collected refusals: the door alone when it refuses, otherwise each category in emission order with one native breach at the first promise that passes the budget |
| DoorCases.ExpiryDecides | src/hos.rs:173-188 | a readable grant is refused as expired, alone, exactly when its hour is not past now, or its figure does not read |
| DoorCases.NoGrantIsNamed | src/hos.rs:149-172 | no grant and one that does not read are refused by their own names, alone |
| DoorCases.GrantIsReadByName | src/hos.rs:549-576 | a grant document is read by the six names of its fields and the two of a token budget |
| DoorCases.StatusIsReadByName | src/hos.rs:49-79 | a status document is read by its seven names, null being no grant |
| DoorCases.NativeBudgetDecides | src/hos.rs:331-386 | one payment passes exactly when its receiver is granted and it is nothing, or budget and meter read and together cover it |
| DoorCases.TokenBudgetDecides | src/hos.rs:387-431 | one token payment passes exactly when recipient and token are granted and that token's budget and meter read and cover it |
| Hos.CheckOwnCollection | src/hos.rs:492-516 | one refusal at rung 4 for every call promise aimed at the own collection, in promise order |
| Hos.ReserveIsExact | src/hos.rs:526-546 | the floor refuses exactly when there is one and the balance is below the exact, unsaturated spend plus the floor |
| DoorCases.FloorDecides | src/hos.rs:526-546 | the floor refuses one payment exactly when there is one and the balance does not cover both, a floor that does not read being the largest amount |
| DoorCases.FaultsNameTheFact | src/hos.rs:87-117 | each binding fault names the first fact that fails, in the source's order |
| Violations.StableSortIsStable | src/binding.rs:668-672 | the sort orders by key, is a permutation, and keeps emission order among equal keys |
| Violations.FirstReported | src/binding.rs:387-395 | the head of the sorted list is a violation of the list that none of the others precedes |
| Binding.Verdict | src/binding.rs:650-673 | the assembled verdict: a refused door unchanged, otherwise admitted, own-collection and reserve refusals sorted by order key |
| Binding.VerdictOnlyAdds | src/binding.rs:644-673 | a door refusal comes back alone; otherwise the verdict holds exactly the admitted, own-collection and reserve refusals, sorted, ties as emitted |
| Binding.ReserveComesLast | src/binding.rs:424-441 | the balance floor sorts behind every rule about a promise, one that names no promise included |
| Refinement.CallLadder | src/binding.rs:401-418 | for a call standing alone, what the pass trips on is a collected refusal and no collected refusal of that promise sits ahead of it; it passes exactly when there is none |
| Refinement.PromiseLadder | src/binding.rs:401-418 | the same for every promise, with and without a call, its native charge included |
| Refinement.CollectedExactly | src/hos.rs:131-475 | a violation is collected exactly when some promise of the request gives rise to it |
| Refinement.VerdictIsTheChargingPass | src/binding.rs:622-673 | for every request, grant, clock, collection and balance, where the native meter is exact or is not what the pass stops at: the verdict is empty exactly when the charging pass accepts, and otherwise starts with the promise and class at which the pass stops |
| Refinement.AgreesExactly | src/hos.rs:331-358 | for each request verdict and pass agree exactly when the native meter is exact or the pass does not stop at the native budget |
| Refinement.AgreementExactly | src/hos.rs:331-358 | verdict and pass agree on every request exactly when the door is closed, no receiver is granted, or less than 2^128-1 is left of the native budget |
| Refinement.DisagreesOverTheTop | src/hos.rs:331-358 | otherwise a readable request of two payments on which they part |
| Refinement.RunPreflight | src/hos_contract_vectors.rs:174-211 | the pre-flight as assembled answers every decodable request with the verdict of its effects, which is what the pass would stop at exactly when the native meter suffices |
| Refinement.AdmittedIsJudged | src/binding.rs:535-556 | evidence admitted for a kind is of that kind; behind it a plain account meets no refusal of the profile and a leased one is answered with what the pass stops at, exactly when the native meter suffices |
| Ledger.WritingPassExactly | src/hos.rs:405-431 | for every request: the verdict's first violation is what the pass with written-back token meters stops at exactly when the native meter suffices and the payments ahead of it fit each token's budget together; when only those do not fit, that pass stops at the first that does not |
| Ledger.VerdictIsTheWritingPass | src/hos.rs:405-431 | where the native meter suffices the verdict also agrees with the writing pass on every request that pays each token once, or whose payments of each token together stay within its budget |
| Ledger.PaidTwiceParts | src/hos.rs:405-431 | the failing input: all that is left of a token, paid twice, is accepted by the verdict and stopped at the second payment by the writing pass |
| Ledger.PerMoveExactly | src/hos.rs:405-431 | verdict and writing pass agree on every request exactly when the door is closed, or the native meter is exact and nobody is granted or nothing is left of any token but the own collection |
| Grants.WithinRefusesMore | src/hos.rs:359-475 | a request in which one grant finds nothing to refuse, every grant it is within finds nothing in, the own collection's entries apart |
| Grants.Separates | src/hos.rs:359-475 | for two grants not so related, one promise the first charges and the second does not |
| Grants.GrantsExactly | src/hos.rs:325-475 | one grant permits no request another refuses exactly when nobody can be paid under it, or its receivers, what is left of its budgets and its items are within the other's, the own collection's apart |
| Losses.LostGrantReads | src/hos.rs:549-576 | a grant document that lost any names, its own or inside token budgets, reads as that grant with the defaults in their place |
| Losses.LostStatusReads | src/hos.rs:43-79 | a status document that lost any names at any depth reads as that status with the defaults in their place |
| Losses.LostIdentityExactly | src/hos.rs:87-117 | a shrunken status verifies exactly when the whole one does and no lost name is about identity |
| Losses.LostFloorExactly | src/hos.rs:526-546 | for one request and balance, with no meter forgotten: what passes shrunken passes whole exactly when the balance is unknown, the floor arrived or is none, or the balance covers spend and floor |
| Losses.ShrunkenPermitsMore | src/hos.rs:549-576 | for any harmful loss a request of at most one promise, and a balance, that pass under the shrunken status and not under the whole one |
| Losses.ShrunkenExactly | src/hos.rs:549-551 | whatever names are lost at once: a shrunken answer only refuses more, over all requests with an unknown balance and over all balances, exactly under the stated condition on the door, the meters and the floor |
| Common.LimitTestIsExact | src/wallet_policy.rs:1430-1436 | a saturated sum compared against a limit is the exact comparison for all addends exactly when the limit is below 2^128-1 |
| Common.DecimalRoundTrip | src/wallet_request_decode.rs:329-332 | every amount has a decimal spelling that reads back as itself |
| Common.NextDigitReads | src/wallet_request_decode.rs:329-332 | one digit more is ten times the figure and that digit, up to the largest the type holds |
| Common.OnlyFiguresRead | src/wallet_request_decode.rs:329-332 | nothing reads but digits behind at most one plus |
| Evaluation.EvaluateExtensionCall | src/wallet_policy.rs:1560-1749 | the door as the source runs it, with its touched list and totals map, returns the decision of the specification stage |
| ExtensionCases.UnlistedBeneficiaryIsDenied | src/wallet_policy.rs:1633-1650 | a whitelist that holds the contract and not the named beneficiary denies the registration |
| ExtensionCases.BeneficiaryIsPaid | src/wallet_policy.rs:1612-1650 | a storage registration passes an address rule exactly when it takes the contract and the named account both |
| ExtensionCases.RecipientIsPaid | src/wallet_policy.rs:1612-1650 | a token transfer passes an address rule exactly when it takes the contract and the decoded recipient both |
| ExtensionCases.ReceiverIsPaid | src/wallet_policy.rs:1612-1650 | a promise without calls passes an address rule exactly when it takes the receiver and any refund target |
| ExtensionCases.FirstRefusedIsNamed | src/wallet_policy.rs:1612-1650 | a denial names the first receiver the addresses do not take, whatever else they do not take, and behind that the first refund target |
| ExtensionCases.MovedTokenIsListed | src/wallet_policy.rs:1651-1668 | a token list is about the contract a token transfer calls and nothing else |
| ExtensionCases.TransferKeepsLimits | src/wallet_policy.rs:1670-1746 | limits on one token transfer: its deposit against the native caps, its units against the caps of its contract, in every window |
| ExtensionCases.SpendKeepsLimits | src/wallet_policy.rs:1670-1746 | limits on one transfer or one state init: what it carries against the native caps |
| ExtensionCases.ControlAndUnstatableAreDenied | src/wallet_policy.rs:1575-1611 | control operations and calls that cannot be stated are never let through, whatever the rules |
| Evaluation.TokenTotals | src/wallet_policy.rs:1656-1664 | the totals map has a key for exactly the fungibly moved tokens and holds the saturated total of each |
| Extension.DoorIsExact | src/wallet_policy.rs:1560-1749 | the door lets a call through exactly when, over the request itself: it decodes, has no internal op, every call is a readable token transfer or registration, every receiver, refund target, recipient and beneficiary is payable, every moved token allowed, and the exact sums meet every per-transaction and window cap below 2^128-1 |
| Extension.DecodedTotals | src/wallet_policy.rs:1656-1664 | native and per-token totals the rules read are the request's exact sums saturated |
| Invariance.SameDecision | src/wallet_policy.rs:1361-1367 | two extension calls whose requests read, fence, spend (up to saturation) and move alike get the same decision or are both denied |
| Invariance.PromisesPermute | src/wallet_policy.rs:1654-1664 | promises in another order read, fence, spend and move alike |
| Invariance.ActionsPermute | src/wallet_policy.rs:1654-1664 | so do a promise's actions in another order |
| Invariance.ActionSplit | src/wallet_policy.rs:1654-1664 | a request with one action replaced by two that together read, fence and move as it did does so too, and spends alike when they carry its amount |
| Invariance.TransferSplits | src/wallet_policy.rs:1654-1664 | a transfer of a + b is such a pair of transfers of a and of b |
| Invariance.FtTransferSplits | src/wallet_policy.rs:1654-1664 | a token payment of a + b is such a pair to the same recipient, carrying its amount when the deposit is divided between them |
| Invariance.FtSplitExactly | src/wallet_policy.rs:1654-1664 | splitting a token payment is invisible to every policy exactly when the pieces attach together what the whole attached, or both requests spend 2^128-1 or more |
| Invariance.PromiseCut | src/wallet_policy.rs:1654-1664 | a promise cut in two at any action reads, fences, spends and moves alike |
| Invariance.FtSplitOverPromises | src/wallet_policy.rs:1654-1664 | the same with the pieces in two promises to the token |
| Ladder.EvaluateExactly | src/wallet_policy.rs:1234-1544 | an operation is permitted exactly when every rule, read on its own and without its order, passes, identity proofs apart; the permission waits for the threshold exactly when a capability or the approval rule asks for votes |
| OperationCases.EveryAmountIsMetered | src/wallet_policy.rs:1404-1450 | for each of the ten kinds that carry an amount, by its own fields and under any policy: a permission with counters means the amount reads, every limit reads, the counters of its token read, and it keeps every cap per transaction and in each window, named or wildcard |
| OperationCases.LimitsDecide | src/wallet_policy.rs:1404-1450 | limits alone let through exactly the amounts that keep them, windows only with counters |
| OperationCases.UnreadableRefuses | src/wallet_policy.rs:1283-1309 | a limit that does not read, of any token, refuses every kind that carries an amount, and so does an amount that does not read |
| OperationCases.TypesDecide | src/wallet_policy.rs:1334-1356 | a list of types alone lets through exactly the kinds listed under one of their names |
| OperationCases.TokensDecide | src/wallet_policy.rs:1357-1370 | a list of tokens alone lets through exactly the kinds that move a listed token, message signing apart |
| OperationCases.AddressesDecide | src/wallet_policy.rs:1371-1402 | addresses alone let through exactly the kinds that pay nobody or whom the list takes: whitelist, blacklist, none, unknown modes refused, hex addresses in any case |
| PolicyCases.CountsDecide | src/wallet_policy.rs:1452-1503 | both places for an hourly count bind, and neither without counters |
| PolicyCases.TimeDecides | src/wallet_policy.rs:1968-2030 | time restrictions alone let through exactly what falls in their hours and days |
| PolicyCases.VotesDecide | src/wallet_policy.rs:1521-1543 | a threshold makes exactly the kinds that move funds wait, for two votes when it does not say, unless one of their names is excluded |
| PolicyCases.CapabilityAsksVotes | src/wallet_policy.rs:2247-2255 | a capability that asks for votes makes its operation wait, one that says nothing of votes does not |
| PolicyCases.FrozenSignsNothing | src/wallet_policy.rs:1270-1275 | a frozen wallet signs exactly the login that cancels a resting order |
| Ladder.CapabilityRung | src/wallet_policy.rs:2147-2255 | the capability gate denies exactly when a capability the op answers to is off, its chain is closed or votes are wanted without a threshold, and demands votes exactly when one of them does |
| Ladder.StandardRungs | src/wallet_policy.rs:1372-1506 | the type, token, address, amount and count gates let an op through exactly when it is listed, payable and within every cap that applies, by exact sums |
| Ladder.RefusalsAreInOrder | src/wallet_policy.rs:1334-1513 | where the standard gates refuse, the refusal names the first rule that fails: type, token, address, amount and caps, hourly count, time of day |
| Velocity.KeystoreNeverStricter | src/wallet_policy.rs:10-18 | with counters the decision is the one without them, or a denial |
| Velocity.PermissionIsMonotone | src/wallet_policy.rs:1413-1506 | what is permitted keeps its decision under smaller or absent counters and higher caps on the same keys, for scalar ops and extension calls alike |
| Runs.PermittedWithinCap | src/wallet_policy.rs:1704-1744 | a permission with counters leaves every capped counter it is measured against readable, and within its cap wherever the cap binds |
| Runs.CapsHoldOverRuns | src/wallet_policy.rs:1429-1450 | over every run judged one request at a time in a window that does not reset, whatever other tokens it moves, a token's counter does not pass its cap; the cap is below 2^128-1 and, if native and above zero, no contract named native is moved |
| Runs.DailyCapHoldsExactly | src/wallet_policy.rs:1429-1450 | under a policy of one daily native cap, from nothing spent: the cap holds over every run that moves no token named native exactly when it is below 2^128-1, and over every run at all exactly when it is zero |
| Runs.NamesakePassesTheCap | src/wallet_policy.rs:1704-1744 | the failing input: a token contract named native takes the native counter past any cap above zero in one permitted request |
| Policy.FromCurrentUsage | src/wallet_policy.rs:1131-1182 | usage read from a document: counters, unreadable names, and a document naming no window unreadable whole |
| PolicyCases.DocumentReads | src/wallet_policy.rs:1131-1182 | the objects named daily, hourly and monthly become those counters; what is no amount is unreadable under its own window's name; a document naming none is unreadable whole |
| Policy.ParseMap | src/wallet_policy.rs:1132-1153 | one window's readable figures become counters and every other entry is named unreadable |
| Metering.CounterIsStored | src/wallet_policy.rs:1131-1182 | the counter the engine reads is the stored figure, absent meaning zero; it is unreadable exactly when the document names no window or stores something that is not an amount; in a window that is no object nothing is stored, and a count that is no 64-bit integer reads as zero |
| Metering.MeteringFailsClosed | src/wallet_policy.rs:1896-1966 | a permission against a raw document means, of every token counter it is measured against, zero amounts and caps of 2^128-1 included: the cap reads, the document names a window, what an object of that window stores is absent or reads, stored plus added is within every cap below 2^128-1, named or wildcard; and an hourly count that reads is below every count cap |
| Metering.CountFailsClosed | src/wallet_policy.rs:1454-1479 | a permission under a count cap means the document names a window, and a count that reads is below every cap |
| Metering.UnreadCountPermits | src/wallet_policy.rs:1175-1178 | the failing input: a stored count that does not read lifts any rate cap above zero |
| Metering.CountExactly | src/wallet_policy.rs:1454-1479 | for every document: under all policies with a count cap, operations and times a permission means a stored count that is absent or an integer and below every cap exactly when the document names no window or holds no other kind of count |
| Metering.UnreadWindowPermits | src/wallet_policy.rs:1136-1138 | the failing input: against a window that is there and is no object any cap can be spent whole |
| Metering.WindowExactly | src/wallet_policy.rs:1131-1153 | for every document and window: under all policies, operations, tokens and times a permission means a known figure within its cap exactly when the document names no window, or leaves this one out, or holds an object there |
| Fences.IntentsFenceHolds | src/wallet_policy.rs:85-114 | a permitted call to an intents contract, direct or as a promise of an extension call, was opened by name, whatever the policy, counters and time |
| PolicyCases.IntentsAreNamed | src/wallet_policy.rs:85-134 | the intents contracts are two names in any case with any blanks around them, and no others |
| PolicyCases.IntentsCallsAreOpened | src/wallet_policy.rs:85-134 | a permitted call to any spelling of them, by any method but the one that only deposits, was opened by name |
| PolicyCases.OtherCallsAreOpen | src/wallet_policy.rs:85-134 | without a word from the owner every other call is allowed |
| Fences.DecodedAlike | src/wallet_policy.rs:2283-2292 | a permitted extension call decoded at the door, so the fence reads the same promises |
| Fences.NearFenceHolds | src/wallet_policy.rs:2225-2246 | a permitted raw signature on any spelling of near was opened by naming near |
| PolicyCases.NearIsNamed | src/wallet_policy.rs:2225-2246 | near is that name in any case with any blanks around it, and nothing else |
| Fences.AcceptedLockIsReachable | src/wallet_policy.rs:474-499 | an accepted lock has at least threshold distinct ids listed as approvers as written, trimming never overcounting |
| Fences.LiftableExactly | src/contract_vote.rs:94-117 | a lock can be lifted exactly when its threshold is no more than the number of distinct listed ids that an account can have |
| Fences.AcceptedLockIsLiftable | src/wallet_policy.rs:435-447 | an accepted lock whose approvers all carry ids an account can have can be lifted |
| Fences.PaddedApproverLocks | src/wallet_policy.rs:474-499 | the failing input: a lock whose one approver is written with a space is accepted and nobody can lift it |
| Fences.AcceptedLockHolds | src/wallet_policy.rs:1247-1268 | under an accepted lock no policy update and no raw signature on any spelling of near is permitted |
| PolicyCases.LockedNearIsRefused | src/wallet_policy.rs:1253-1268 | any locked policy refuses raw signing on near in any case, whatever else it says |
| PolicyCases.UnsaidIsUnlocked | src/wallet_policy.rs:447-455 | a policy that does not say it is locked is stored as it is and signs raw on a chain it lists, near included |
| PolicyCases.LocksAccepted | src/wallet_policy.rs:447-501 | a lock is accepted exactly when raw signing is off or lists no spelling of near, and the threshold is between one and the number of distinct trimmed ids |
| Fences.LockedNearExactly | src/wallet_policy.rs:1253-1268 | under every locked policy with a given raw-sign capability, accepted or not, every spelling of near is refused exactly when the capability is off or lists no padded spelling |
| Fences.PaddedNear | src/wallet_policy.rs:1253-1268 | the failing input: a locked policy listing near with a space in front permits it |
| ContractVote.VoteMessageInjective | src/contract_vote.rs:53-59 | the message determines verb, approval, wallet and request when approval ids and request hashes hold no colon |
| VoteCases.VerbsAreSpelled | src/contract_vote.rs:43-59 | a vote message spells its verb in words, then approval, wallet and request |
| ContractVote.ApproverStanding | src/contract_vote.rs:94-117 | the standing read over every entry naming the account: a contract vote is admitted exactly when it is listed and never pinned, and a key exactly when it may vote |
| ContractVote.ClassifyCall | src/contract_vote.rs:201-239 | the classification of one response, its byte list read item by item |
| ContractVote.AnsweredExactly | src/contract_vote.rs:219-238 | a response is an answer exactly when it reports no error, names a block, and every result item is a byte |
| VoteCases.ErrorsClassified | src/contract_vote.rs:201-218 | of all errors, named by their cause or else by themselves, exactly four are the account's own |
| VoteCases.ResultsClassified | src/contract_vote.rs:219-239 | a result with a trap refuses only for failed execution; one with a block and bytes answers; one without a block does not |
| VoteCases.OnlyUnknownBlocksAreSeen | src/contract_vote.rs:414-422 | an error is an unknown block exactly when its cause or itself is named so |
| ContractVote.ResolvePair | src/contract_vote.rs:424-459 | one pair of reads: the resolver is asked only after a flag read true, pinned to the block that answered it |
| VoteCases.PairAsks | src/contract_vote.rs:158-175 | what a pair asks, by account, method, arguments and block; the second only after true |
| VoteCases.FlagsJudged | src/contract_vote.rs:283-292 | a flag answer that is true is followed by the resolver, false does not count, and neither does anything else |
| VoteCases.ResolutionsJudged | src/contract_vote.rs:293-330 | each resolution judged by its size, its status or pending list, and its payload |
| ContractVote.CountedVoteIsOneBlock | src/contract_vote.rs:365-383 | a pair counts exactly when the flag read true at a block, the resolution was asked at that block, and it authorizes exactly the expected message |
| ContractVote.ResolveContractVote | src/contract_vote.rs:384-459 | for every node behaviour: at most four queries from final and two from a named block; a second pair only after a pinned read that did not know the block, and always then from final, while at a named block it concludes nothing; the verdict is the last pair's; a counted one was asked at one block, and answered from one block by a node that honours pins |
| ContractVote.PinnedAnswersOneBlock | src/contract_vote.rs:365-383 | with a node that honours pins both answers of a counted vote name one block |
| ContractVote.OneBlockExactly | src/contract_vote.rs:424-459 | a pair that counts comes from one block, whatever its bytes are read as, exactly when the node answers the query pinned to the flag's block from that block |
| ContractVote.UnpinnedAnswerCounts | src/contract_vote.rs:424-459 | the failing input: a node that answers the pinned query from another block has its vote counted |
| Canonical.CanonicalizeValue | src/wallet_policy.rs:679-696 | visiting keys in order and canonicalizing each value builds the canonical form |
| Canonical.CanonicalFormIsComplete | src/wallet_policy.rs:653-661 | two values have the same canonical form exactly when they are equal up to key order at every depth |
| Canonical.CanonicalIsIdempotent | src/wallet_policy.rs:383-399 | canonicalizing a canonical form changes nothing |
| TextCases.FirstDifferenceDecides | src/wallet_policy.rs:679-696 | keys are ordered by the code points of the first characters that differ, a start before what it starts |
| TextCases.TwoKeysAreSorted | src/wallet_policy.rs:679-696 | two keys come out in that order whichever way they went in |
| AccountId.AccountIdIsWellFormed | src/secrets_ref.rs:45-64 | the scan accepts exactly the ids of 2 to 64 bytes that are non-empty runs of lowercase letters or digits joined by single separators |
| TextCases.MiddleDecides | src/secrets_ref.rs:45-64 | between two letters stands exactly a small letter, a digit or one of three separators |
| TextCases.SeparatorsStandAlone | src/secrets_ref.rs:45-64 | a separator stands neither first, nor last, nor beside another |
| TextCases.LengthDecides | src/secrets_ref.rs:45-64 | from 2 to 64 characters and no other length |

## Left out

- Parsers: base64, JSON text and serde are unseen libraries. A request starts typed, with cases for what does not decode; inner call arguments are JSON values, as objects with their entries in order or as positional arrays.
- Extra argument fields are recorded in document order; the library's map would list them sorted and once each. Their class and promise are the same.
- Refusal sentences shrink to the promise and the class or gate. Within one velocity window an unreadable counter and a passed cap are one gate, which makes the order of the totals map irrelevant.
- Effects.RecordPromise: the nested loops of the decoder are split into one method per level, and the record is a value updated field by field, so aliasing is not modelled.
- Losses.ShrunkenExactly: a grant or budget in the positional array spelling has no names to lose; a truncated array is not modelled.
- Binding.Verdict: the library sort in place is a sort of the list value, proved stable.
- Runs.CapsHoldOverRuns: an extension call adds its decoded totals, not the outer marker deposit; windows that reset, the hourly request count and concurrent requests over stale counters are the caller's and are not modelled.
- ContractVote.ResolveContractVote: the node is an arbitrary function of the query and its position; transport, retries below it and the words of a contract's refusal are not modelled. JSON text to value is an arbitrary function.
- Machine bounds: a list holds at most 2^63-1 promises, which keeps order keys apart from the reserve's.
- Hashes and signatures: a request hash is whatever is taken of the canonical form.
- `signing_version_gate`, `effective_code_hash_b58`, `bind_mode`, `build_auth_message`, `evm_sign_decision`, `solana_sign_decision`, `src/signer_key.rs`, `src/access_limits.rs` and wire-name parsing: each is settled by reading one match and would only add easy members.
- `impl_version`, `class` strings and lifecycle reactions of binding faults: carried, never judged, by the code modelled here.
