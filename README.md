# StellarBridge milestone escrow, modelled in Dafny

StellarBridge lets an entrepreneur raise funds for a project on the Stellar
network and release them milestone by milestone. Three parts carry its logic,
and each has a model here:

- **The Soroban escrow contract** (`lib.rs`) is modelled in `escrow_types.dfy` and `escrow.dfy`.
  - It is the class `Escrow.Contract`. Each `DataKey` of the contract's instance storage is one field.
  - `ProjectCounter` is `counter`, `Project(id)` is `projects[id]`, `ProjectInvestments(id)` is `investments[id]` and `InvestorAmount(id, addr)` is `investorAmounts[(id, addr)]`.
  - `Verifier` and `Token` are `verifier` and `token`.
  - Every public entry point is a method. Its result is `Ok` or `Err` with the panic's reason. On `Err` the state is unchanged, because a panic reverts the invocation.
  - `require_auth(a)` holds when `a` is in the invocation's `signers`.
  - The token contract is a balance map (`balances`). Its `transfer` refuses a negative amount or an overdraft.
  - The invariant `Sound` covers the bookkeeping:
    - the project ids are exactly 1..counter;
    - `raised` is the total of the project's investment log;
    - each stored investor amount is that investor's total in the log;
    - a milestone has an evidence hash exactly when it has left `Pending`.
  - Every method except `Initialize` as written keeps `Sound`. A successful `Initialize` keeps it only while the counter is still 0; a failing one changes nothing.
  - On a sound store, `CreateProject` and `Invest` move milestones only by allowed status steps, and `SubmitEvidence` and `VerifyMilestone` do so on any store. The lemmas `StatusTrace` and `HistoryKeepsTerminal` show from that step relation that `Verified` and `Rejected` are terminal and that `Pending` never comes back.
  - A late `initialize` breaks this: the next `create_project` overwrites project 1, and a `Rejected` milestone becomes `Pending` again (`Escrow.LateInitializeRevivesRejectedMilestone`).
- **The client helpers** (`frontend/src/utils/stellar.ts`):
  - dollar/stroop conversion over exact rationals: `units.dfy`;
  - the submit-and-poll loop as a method with a loop invariant, against a specification function of the RPC replies: `submission.dfy`;
  - contract calls as records of a name and an argument list: `calls.dfy`;
  - the zero-fallback readers, over a function from a call to its simulation outcome: `read_model.dfy`.
- **The project form's milestone list** (`CreateProjectForm.tsx`), in `milestone_form.dfy`:
  - add, remove and update;
  - the running total and the goal gate;
  - the arrays handed to `createProject`;
  - `parseFloat` over exact rationals: `number_parsing.dfy`.

Client and contract disagree in two places. Each side is modelled as written:

- The client's `invest` call drops the project id. It has two arguments where the contract's `invest` takes three (`ContractCalls.InvestCallMismatch`).
- `get_project` returns a whole `Project`, which `scValToBigInt` cannot convert. The catch turns this into 0, so the client shows a raised amount of 0 for every project (`ReadModel.RaisedReadsZeroFromContract`).

Two facts about `submitTransaction`:

- After 20 `PENDING` answers, it returns `PENDING`.
- A status query that throws ends the submission with that error.

## Model

| member | source | states |
|---|---|---|
| Escrow.LogOf | contracts/stellarbridge-contract/contracts/hello-world/src/lib.rs:118-120 | The project's investment log, `ProjectInvestments(id)`, or the empty list when nothing is stored. |
| Escrow.AmountOf | contracts/stellarbridge-contract/contracts/hello-world/src/lib.rs:169-171 | The stored `InvestorAmount(id, investor)`, or 0 when nothing is stored (`unwrap_or(0)`). |
| Escrow.Contract.constructor | contracts/stellarbridge-contract/contracts/hello-world/src/lib.rs:41-49 | A fresh deployment has empty storage and satisfies the invariant. |
| Escrow.Contract.Initialize | contracts/stellarbridge-contract/contracts/hello-world/src/lib.rs:57-65 | Fails if a verifier is stored, then if the verifier did not sign. Otherwise it records verifier and token and sets the counter to 0, changing nothing else. The invariant survives only if the counter was 0. If projects already exist, the next id `create_project` hands out is taken. |
| Escrow.Contract.InitializeKeepingCounter | contracts/stellarbridge-contract/contracts/hello-world/src/lib.rs:57-65 | The corrected `initialize`: same error cases, but the counter is kept, so the invariant always survives. |
| Escrow.BuildMilestones | contracts/stellarbridge-contract/contracts/hello-world/src/lib.rs:74-82 | The loop builds one milestone per amount, in order, with the matching deadline, `Pending` and no evidence hash. |
| Escrow.Contract.CreateProject | contracts/stellarbridge-contract/contracts/hello-world/src/lib.rs:68-99 | Fails without the owner's signature, then on amounts and deadlines of different lengths. Otherwise it returns old counter + 1 and stores under that id a project with `raised = 0`, `active = true` and fresh milestones. Nothing else changes. On a sound store the id was unused and the store stays sound. |
| Escrow.Contract.Invest | contracts/stellarbridge-contract/contracts/hello-world/src/lib.rs:102-122 | Errors in source order: unsigned, unknown project, inactive project or `amount <= 0`, no token, refused transfer. On success `raised`, the investor's amount and the log each grow by exactly this investment, and the tokens move to the contract. Other projects are unchanged and the store stays sound. |
| Escrow.Contract.SubmitEvidence | contracts/stellarbridge-contract/contracts/hello-world/src/lib.rs:125-137 | Errors: unknown project, owner did not sign, index out of range, milestone not `Pending`. On success only that milestone changes: it becomes `EvidenceSubmitted` with the hash. |
| Escrow.Contract.VerifyMilestone | contracts/stellarbridge-contract/contracts/hello-world/src/lib.rs:140-162 | Errors: no verifier, verifier did not sign, unknown project, index out of range, no evidence, and for approval no token or a refused transfer. Approval gives `Verified` and pays exactly the milestone's amount from the contract to the owner. Rejection gives `Rejected` with balances untouched. Other milestones are unchanged. |
| Escrow.Contract.GetProject | contracts/stellarbridge-contract/contracts/hello-world/src/lib.rs:165-167 | `NotFound` exactly for an unknown id. Otherwise it returns the stored project; in a sound store that project carries the id asked for, and its `raised` is the total of its log. |
| Escrow.Contract.GetInvestorAmount | contracts/stellarbridge-contract/contracts/hello-world/src/lib.rs:169-171 | In a sound store: the investor's total in the project's log, and 0 for a pair that never invested. |
| Escrow.Contract.GetProjectCount | contracts/stellarbridge-contract/contracts/hello-world/src/lib.rs:173-175 | In a sound store: 0 exactly when no project exists, and the stored ids are exactly 1..count. |
| Escrow.CreateKeepsSound | contracts/stellarbridge-contract/contracts/hello-world/src/lib.rs:84-97 | Storing a new project under counter + 1 keeps the invariant. That id was free, and no existing project changes. |
| Escrow.InvestKeepsSound | contracts/stellarbridge-contract/contracts/hello-world/src/lib.rs:111-121 | The three writes of `invest` together keep the invariant. |
| Escrow.InvestKeepsRaised | contracts/stellarbridge-contract/contracts/hello-world/src/lib.rs:111-121 | After `invest`, every project's `raised` is still the total of its log. |
| Escrow.InvestKeepsInvestorTotals | contracts/stellarbridge-contract/contracts/hello-world/src/lib.rs:114-121 | After `invest`, every stored investor amount is still that investor's total in the log. |
| Escrow.MilestonesUpdateKeepsSound | contracts/stellarbridge-contract/contracts/hello-world/src/lib.rs:130-136 | Writing back a milestone list whose evidence matches its statuses keeps the invariant. |
| Escrow.RaisedIsSumOfInvestorAmounts | contracts/stellarbridge-contract/contracts/hello-world/src/lib.rs:111-116 | In a sound store, `raised` also equals the sum of the stored per-investor amounts over the project's investors. |
| Escrow.LateInitializeReusesProjectId | contracts/stellarbridge-contract/contracts/hello-world/src/lib.rs:64 | Create, then initialize as written, invest 5, create again: both creates return id 1. Project 1 is overwritten with `raised = 0` while its log still totals 5. |
| Escrow.LateInitializeRevivesRejectedMilestone | contracts/stellarbridge-contract/contracts/hello-world/src/lib.rs:64 | Create project 1 with one milestone, initialize as written, submit evidence, reject it, create again: the milestone was `Rejected` and is now `Pending`, which no allowed status step permits. |
| Escrow.InitializeKeepingCounterKeepsRejection | contracts/stellarbridge-contract/contracts/hello-world/src/lib.rs:64-97 | The same calls with the corrected `initialize` leave the milestone `Rejected`. |
| Escrow.InitializeKeepingCounterKeepsIdsFresh | contracts/stellarbridge-contract/contracts/hello-world/src/lib.rs:64-97 | The same calls with the corrected `initialize` return ids 1 and 2, and project 1 keeps its 5. |
| EscrowTypes.StatusTrace | contracts/stellarbridge-contract/contracts/hello-world/src/lib.rs:125-162 | Along any chain of allowed status steps, a terminal status never changes, and a milestone that is `Pending` was always `Pending`. |
| EscrowTypes.HistoryKeepsTerminal | contracts/stellarbridge-contract/contracts/hello-world/src/lib.rs:125-162 | Over any history of stores in which each step is one of the methods' `ProjectsEvolve`, every milestone persists, a terminal status stays fixed, and `Pending` never returns. |
| EscrowTypes.SumAppend | contracts/stellarbridge-contract/contracts/hello-world/src/lib.rs:118-121 | Appending an investment adds exactly its amount to the log's total. |
| EscrowTypes.SumByNonInvestor | contracts/stellarbridge-contract/contracts/hello-world/src/lib.rs:169-171 | Someone with no entry in the log has a total of 0. |
| EscrowTypes.SumIsSumOverInvestors | contracts/stellarbridge-contract/contracts/hello-world/src/lib.rs:111-121 | A log's total equals the sum of its per-investor totals, each investor counted once. |
| EscrowTypes.Transfer | contracts/stellarbridge-contract/contracts/hello-world/src/lib.rs:107-109 | Refused exactly for a negative amount or an insufficient balance. Otherwise it debits the sender and credits the receiver by the amount, and touches no other balance. |
| Units.UsdToStroops | frontend/src/utils/stellar.ts:15-17 | The result is the largest integer not above `usd * 10^7`, so it never rounds up. |
| Units.StroopsToUsd | frontend/src/utils/stellar.ts:19-21 | The result times `10^7` is the stroop count, and it has the same sign. |
| Units.NonNegativeStaysNonNegative | frontend/src/utils/stellar.ts:15-17 | A non-negative dollar amount gives a non-negative stroop amount. |
| Units.RoundTripTruncates | frontend/src/utils/stellar.ts:15-21 | For `d >= 0`, dollars to stroops and back gives at most `d`, and less than one stroop (`10^-7`) below it. |
| Units.StroopsRoundTrip | frontend/src/utils/stellar.ts:15-21 | Stroops to dollars and back is the identity. |
| Units.UsdToStroopsMonotonic | frontend/src/utils/stellar.ts:15-17 | A larger dollar amount never yields fewer stroops. |
| Submission.SubmitTransaction | frontend/src/utils/stellar.ts:179-210 | The loop's outcome is the specification `ExpectedOutcome` of the replies. Its requests are exactly one broadcast, followed by `QueriesMade` status queries for the broadcast's hash. |
| Submission.FirstStop | frontend/src/utils/stellar.ts:195-200 | The first stopping query index is never below the starting index and never above 20. |
| Submission.FirstStopAt | frontend/src/utils/stellar.ts:195-200 | `FirstStop` is the index of the first reply that is not `PENDING`, or 20 if every reply is `PENDING`. |
| Submission.NoQueryWhenSettled | frontend/src/utils/stellar.ts:191-205 | A broadcast that is not `PENDING` is returned as it is, with zero queries. |
| Submission.StopsAtFirstSettledQuery | frontend/src/utils/stellar.ts:195-205 | After a `PENDING` broadcast, the first non-`PENDING` answer at query k is returned, after exactly k + 1 queries. |
| Submission.AllPendingReturnsPending | frontend/src/utils/stellar.ts:193-205 | Twenty `PENDING` answers return `PENDING` itself, after exactly 20 queries. |
| Submission.QueryErrorPropagates | frontend/src/utils/stellar.ts:188-209 | A query that throws before any settled answer makes the submission throw, with no further queries. |
| Submission.SubmissionBounds | frontend/src/utils/stellar.ts:189-205 | Under any replies: at most 20 queries, a returned hash that is always the broadcast's, and a failed broadcast that throws with no queries. |
| ContractCalls.Parameters | contracts/stellarbridge-contract/contracts/hello-world/src/lib.rs:57-173 | The parameter kinds of each public entry point, in order, and no entry for any other name. |
| ContractCalls.CreateProjectCall | frontend/src/utils/stellar.ts:36-50 | The call is built exactly when the goal and every amount are numbers, since `BigInt` of NaN throws. It is `create_project` with the owner and the goal in stroops. The third argument holds each amount converted to stroops, in order. The fourth holds the deadlines as given, in order. |
| ContractCalls.InvestCall | frontend/src/utils/stellar.ts:84-89 | The `invest` call the client builds: the investor's address and the amount in stroops as an `i128`, with no project id. |
| ContractCalls.SubmitEvidenceCall | frontend/src/utils/stellar.ts:117-123 | `submit_evidence` with the project id and milestone index as `u32` and the evidence bytes. |
| ContractCalls.VerifyMilestoneCall | frontend/src/utils/stellar.ts:156-161 | `verify_milestone` with the project id and milestone index as `u32` and the decision as a `bool`. |
| ContractCalls.GetProjectCall | frontend/src/utils/stellar.ts:228-231 | `get_project` with the project id as `u32`. |
| ContractCalls.GetInvestorAmountCall | frontend/src/utils/stellar.ts:280-284 | `get_investor_amount` with the project id as `u32` and the investor's address. |
| ContractCalls.InvestCallMismatch | frontend/src/utils/stellar.ts:84-89 | The client's `invest` call never matches the contract's signature: it is one argument short, and the chosen project id does not affect it. |
| ContractCalls.OtherCallsMatch | frontend/src/utils/stellar.ts:117-160 | The evidence call matches the contract exactly when the hash is 32 bytes. The verification and read calls always match. |
| ContractCalls.CreateProjectCallMatches | frontend/src/utils/stellar.ts:43-50 | A built project call matches the contract's parameter list when every deadline is a whole non-negative number, provided the SDK encodes the untyped `Vec` elements as integers. |
| ReadModel.GetProject | frontend/src/utils/stellar.ts:215-247 | The simulation's return value when it succeeded with one, otherwise `null`. |
| ReadModel.ScValToBigInt | frontend/src/utils/stellar.ts:257 | Yields an integer exactly for integer-kind values, and throws on anything else. |
| ReadModel.GetProjectRaised | frontend/src/utils/stellar.ts:253-265 | If the simulation returned an integer, that many stroops in dollars. Otherwise 0: a throw, a failed simulation, no value or a non-integer value. |
| ReadModel.GetTotalInvested | frontend/src/utils/stellar.ts:249-251 | Equals the raised amount of project 1. |
| ReadModel.GetInvestorAmount | frontend/src/utils/stellar.ts:267-304 | If the simulation returned an integer, that many stroops in dollars. Otherwise 0. |
| ReadModel.ContractAnswer | contracts/stellarbridge-contract/contracts/hello-world/src/lib.rs:165-171 | The contract's answer to the read calls: `get_project` fails for an unknown id and otherwise returns the whole encoded `Project`; `get_investor_amount` returns the stored amount or 0; anything else fails. |
| ReadModel.RaisedReadsZeroFromContract | frontend/src/utils/stellar.ts:253-265 | Against the contract's own answers, `get_project` yields the whole encoded project. So the raised amount the client shows is 0 for every project, and so is the total invested. |
| ReadModel.InvestorAmountReadsContract | frontend/src/utils/stellar.ts:289-296 | Against the contract's own answers, the client shows the stored investor total in dollars. It converts back to exactly that stroop count, and is 0 for a pair that never invested. |
| NumberParsing.ParseFloatOfShowNat | frontend/src/components/CreateProjectForm.tsx:66 | `parseFloat` reads the decimal form of every natural number back as that number, with or without a minus sign. |
| NumberParsing.ParseFloat | frontend/src/components/CreateProjectForm.tsx:46-47 | `parseFloat`: skip leading white space, read an optional sign and the longest decimal literal after it, and give NaN when there is none. |
| NumberParsing.ParseFloatSkipsLeadingSpace | frontend/src/components/CreateProjectForm.tsx:66 | Any one leading white space character, an ASCII blank or any Unicode space separator, is skipped: the string parses as the rest does. |
| NumberParsing.ParseFloatSkipsIdeographicSpace | frontend/src/components/CreateProjectForm.tsx:66 | An ideographic space (U+3000) before a natural-number numeral still gives that number. |
| NumberParsing.ParseFloatOfEmpty | frontend/src/components/CreateProjectForm.tsx:66 | An empty field, or a lone point, reads as NaN. |
| MilestoneForm.WithField | frontend/src/components/CreateProjectForm.tsx:36 | The named field takes the value, and every other field keeps its value. |
| MilestoneForm.AddMilestone | frontend/src/components/CreateProjectForm.tsx:26-28 | Exactly one empty milestone is appended. The existing entries are unchanged and in order. |
| MilestoneForm.RemoveMilestone | frontend/src/components/CreateProjectForm.tsx:30-32 | An in-range index deletes exactly that entry and keeps the rest in order. Any other index leaves the list as it was. |
| MilestoneForm.UpdateMilestone | frontend/src/components/CreateProjectForm.tsx:34-38 | Only the named field of entry `index` changes. The length, every other entry and every other field are unchanged. |
| MilestoneForm.RemoveUndoesAdd | frontend/src/components/CreateProjectForm.tsx:26-32 | Adding an entry and removing it again gives back the list. |
| MilestoneForm.AmountOrZero | frontend/src/components/CreateProjectForm.tsx:66 | `parseFloat(amount)`, or 0 when that is NaN, as the `or 0` fallback gives. |
| MilestoneForm.TotalMilestoneAmount | frontend/src/components/CreateProjectForm.tsx:66 | `totalMilestoneAmount`: a left fold from 0 adding each milestone's amount, or 0 when it does not parse, in order. |
| MilestoneForm.TotalConcat | frontend/src/components/CreateProjectForm.tsx:66 | The total of two lists joined is the sum of their totals. |
| MilestoneForm.TotalSkipsUnparsable | frontend/src/components/CreateProjectForm.tsx:66 | An entry whose amount does not parse contributes 0 to the total. |
| MilestoneForm.TotalAfterAdd | frontend/src/components/CreateProjectForm.tsx:66 | Adding an entry leaves the total unchanged. |
| MilestoneForm.TotalAfterRemove | frontend/src/components/CreateProjectForm.tsx:66 | Removing an entry takes exactly its amount off the total. |
| MilestoneForm.TotalAfterUpdate | frontend/src/components/CreateProjectForm.tsx:66 | Editing an amount replaces that entry's share of the total. Editing any other field leaves the total unchanged. |
| MilestoneForm.TotalOfWholeAmounts | frontend/src/components/CreateProjectForm.tsx:66 | Amounts typed as whole numbers add up to their integer sum. |
| MilestoneForm.GoalValue | frontend/src/components/CreateProjectForm.tsx:232 | `parseFloat` of the goal field, where an empty goal reads as `'0'`. |
| MilestoneForm.OverGoal | frontend/src/components/CreateProjectForm.tsx:232 | The total is greater than the goal's value; false when the goal is NaN. |
| MilestoneForm.SubmitDisabled | frontend/src/components/CreateProjectForm.tsx:252 | The submit button is disabled while processing or when the total is over the goal. |
| MilestoneForm.SubmitOpenIffWithinGoal | frontend/src/components/CreateProjectForm.tsx:252 | With a parsable goal, submission is enabled exactly when nothing is in progress and the total is at most the goal. |
| MilestoneForm.MissingGoalCountsAsZero | frontend/src/components/CreateProjectForm.tsx:252 | With an empty goal, any positive total disables submission. |
| MilestoneForm.UnparsableGoalNeverBlocks | frontend/src/components/CreateProjectForm.tsx:252 | A non-empty goal that does not parse never disables submission, whatever the total. |
| MilestoneForm.GoalGateExample | frontend/src/components/CreateProjectForm.tsx:232 | Goal 1000 with amounts 300, 400 and 400 is over the goal and disabled. With 300, 400 and 300 it is not. |
| MilestoneForm.EditingNeverEmpties | frontend/src/components/CreateProjectForm.tsx:179 | Remove is offered only while more than one entry exists, so no sequence of edits through the shown controls empties a non-empty list. |
| MilestoneForm.FormAlwaysHasAMilestone | frontend/src/components/CreateProjectForm.tsx:19-21 | Starting from the initial one-entry list, the form always has a milestone. |
| MilestoneForm.SubmittedAmounts | frontend/src/components/CreateProjectForm.tsx:47 | One parsed amount per milestone, in order. An unparsable amount stays NaN here, unlike in the total. |
| MilestoneForm.SubmittedDeadlines | frontend/src/components/CreateProjectForm.tsx:48 | One deadline per milestone, in order: the parsed date's milliseconds divided by 1000. |
| MilestoneForm.SubmitCall | frontend/src/components/CreateProjectForm.tsx:46-55 | The `create_project` call the submit handler builds from the parsed goal, the parsed amounts and the deadlines in seconds; none when a conversion throws. |
| MilestoneForm.SubmittedArraysAgree | frontend/src/components/CreateProjectForm.tsx:46-55 | The submitted call is built exactly when the goal and all amounts parse. Both vectors then have one element per milestone, so the contract's length check passes. |

## Left out

- Floating point is not modelled: dollar amounts, `parseFloat` results and the date division are exact rationals. Rounding, overflow to `Infinity`, `-0`, and the literal `Infinity` that `parseFloat` also accepts are therefore outside the model.
- Integer widths (`u32` ids and indices, `u64` deadlines, `i128` amounts) are unbounded here. Overflow of `counter += 1`, `raised += amount` and `current + amount` is not modelled, and neither are the integer range checks the SDK may apply when encoding.
- The Stellar SDK is not modelled:
  - transaction construction, account lookup, fees, the 300-second validity window, `prepareTransaction` and XDR;
  - Freighter signing.
  - A call is only a name and arguments. How `nativeToScVal` encodes an element of a `Vec` with no element type is assumed in `ContractCalls.FitsScalar`, not derived.
- ContractCalls.CreateProjectCallMatches: it holds only under the assumption in `FitsScalar` that the SDK turns an untyped whole number in a `Vec` into an integer of the parameter's kind. The SDK's source is not part of this model. If the SDK instead rejects such elements, the client's `createProject` throws before the call reaches the contract.
- Submission.SubmitTransaction: the one-second pause between queries and any cancellation are timing and are not modelled. Only the sequence and number of requests are.
- The network is a parameter: the broadcast's reply and the per-query replies for submission, a call-to-simulation function for the readers. `console.error` logging is dropped.
- `hexToBytes` and file hashing are not part of this model. Evidence arrives as bytes.
- The date parser `new Date(...).getTime()` is a parameter of `MilestoneForm.SubmittedDeadlines`.
- MilestoneForm.UpdateMilestone: it requires an index inside the list. The form only calls it for rendered entries, and what the JavaScript does for an index past the end (adding a sparse entry) is not modelled.
- Field names other than the four a milestone has, which `updateMilestone` would add as extra keys, are not modelled, because the form never passes them.
- The goal and amount inputs' `required` and `min="1"` attributes are browser validation. They are outside the model, so a submission with an empty amount is modelled as building no call.
- `log!` events, the ledger timestamp's source (a parameter `now`) and the token contract's internals beyond a balance map are not modelled.
- The React rendering around the form and the other components, and role persistence, are not part of this model.

## Findings

| source | as written | input that shows it | evidently intended | confidence | as-written member | corrected member |
|---|---|---|---|---|---|---|
| contracts/stellarbridge-contract/contracts/hello-world/src/lib.rs:64 | `initialize` stores `ProjectCounter = 0` unconditionally. `create_project` does not require initialization. | `create_project` (returns 1), `initialize`, `invest(1, alice, 5)`, `create_project` returns 1 again and overwrites project 1: `raised` becomes 0 while its investment log and alice's stored amount still say 5. With one milestone that was submitted and rejected before the second `create_project`, that milestone goes from `Rejected` back to `Pending` (`Escrow.LateInitializeRevivesRejectedMilestone`; corrected: `Escrow.InitializeKeepingCounterKeepsRejection`). | Project ids are never reused: `initialize` leaves an existing counter alone. | not executed | Escrow.LateInitializeReusesProjectId | Escrow.Contract.InitializeKeepingCounter |
