# Investment ledger core — a Dafny model

This project models the money-moving core of the wonga investment platform. A user
deposits funds by submitting a proof of payment, and an admin validates the proof.
The user then opens a seven-day investment in one of the plans. A daily batch adds
returns to each active position and, at maturity, pays principal plus profit back
into the user's balance. After a KYC check (identity verification) the user can
request a withdrawal. The model also covers several smaller pieces:

- the plan catalog the pages show;
- the password-reset code flow;
- three display utilities;
- the buffer logic of the one-time-code input.

Shape of the model:

- **Database.** The MongoDB collections are the sequence and map fields of one
  `Store.Db` class: users, investment ledgers keyed by user, positions, KYC
  submissions, payment proofs and withdrawals.
- **Routes.** Each route handler is a method that `modifies` the database. Its
  `ensures` gives the new state as a function of the old state. That function is
  built from pure guard functions (`Check…`, returning `Result<_, Response>`) that
  follow the handler's checks in order, and from pure update functions.
- **Pure code.** Pure code stays pure: `calculateDailyReturns`, the batch's
  per-position step and the GET aggregates are functions with lemmas about them.
- **Injected inputs.** Time is integer milliseconds and `now` is a parameter. "The
  same calendar day" (comparing `toDateString()` values) is an abstract
  `dayOf: Millis -> int` parameter.
- **Numbers.** Money is `real`. A number read from a request body is `Js.Number`,
  that is `Num(real)` or `NaN`, with JavaScript's truthiness and comparisons
  written out.

## Model

| member | source | states |
|---|---|---|
| InvestmentProfitRoute.CalculateDailyReturns | app/api/investment-profit/route.ts:65-102 | On the same calendar day as the last update, the return is unchanged and 0 days are processed. Otherwise the days processed are the smaller of the whole days elapsed and max(0, whole days to maturity + 1), and the new return is currentReturn + dailyReturn·days. When the last update is not after `now`, days ≥ 0, and the return does not decrease when dailyReturn ≥ 0. Once `now` is past the maturity date, no day is processed. |
| InvestmentProfitRoute.CatchUpCappedNearMaturity | app/api/investment-profit/route.ts:78-92 | A position six and a half days behind and half a day from maturity is credited one day, not six: the cap counts from `now`, not from the last update. |
| InvestmentProfitRoute.CompletedInfo | app/api/investment-profit/route.ts:194-232 | Completion adds amount + 1.043·amount to the balance, removes amount from the invested sum and adds 1.043·amount to totalProfit. Balance plus invested grows by exactly amount·0.149·7, whatever return was accrued. The package becomes "No investment" exactly when the invested sum reaches 0. totalReturnsEarned and lastInvestmentDate are untouched. |
| InvestmentProfitRoute.ActiveIds | app/api/investment-profit/route.ts:116 | The batch's query: the indices returned are exactly the active positions, in increasing order. |
| InvestmentProfitRoute.ProcessOne | app/api/investment-profit/route.ts:119-179 | One loop iteration. Only the visited position changes, to its one-visit successor. Only its owner's ledger changes: totalReturnsEarned grows by exactly the newly accrued return, and balance, invested sum and profit move by the completion amounts when the position has matured. An error entry is recorded exactly when the position has matured and its owner has no ledger. |
| InvestmentProfitRoute.ProcessAll | app/api/investment-profit/route.ts:119-179 | The first k iterations keep the number of positions and the set of ledger owners. |
| InvestmentProfitRoute.ProcessAllPositions | app/api/investment-profit/route.ts:119-179 | After k iterations over distinct ids, each visited position equals its one-visit successor and every other position is unchanged. One position's failure does not stop or alter the others. |
| InvestmentProfitRoute.ProcessAllReportsMissingLedgers | app/api/investment-profit/route.ts:172-178 | Every visited matured position whose owner has no ledger leaves a "Investment information not found" entry in results. |
| InvestmentProfitRoute.ProcessAllUnvisited | app/api/investment-profit/route.ts:119-179 | A position the first k iterations have not visited is unchanged. |
| InvestmentProfitRoute.ProcessAllKeepsMaturity | app/api/investment-profit/route.ts:119-179 | The loop never changes a position's owner, or whether it has a maturity date and which one. |
| InvestmentProfitRoute.BatchOutcome | app/api/investment-profit/route.ts:116-179 | Across the whole batch, a position that was not active is untouched. An active matured position with a ledger ends completed. An active matured position without a ledger stays active, with an error entry. |
| InvestmentProfitRoute.ReactivatedPositionPaidAgain | app/api/investment-profit/route.ts:116-179 | A matured completed position that PATCH sets back to "active" is picked up by the next batch and completed again. Its owner's balance grows by amount + 1.043·amount again and totalProfit by 1.043·amount again. |
| InvestmentProfitRoute.RevisitIsNoOp | app/api/investment-profit/route.ts:69-75 | Revisiting a position the batch left active, at the same `now`, changes nothing and adds only error entries. |
| InvestmentProfitRoute.SecondPassNoOp | app/api/investment-profit/route.ts:119-179 | A loop whose every step is a no-op on the books leaves the books unchanged and records only errors. |
| InvestmentProfitRoute.BatchIdempotent | app/api/investment-profit/route.ts:69-75 | Running the batch twice at the same `now` equals running it once. The second run records only errors. |
| InvestmentProfitRoute.Post | app/api/investment-profit/route.ts:105-192 | The POST loop over a snapshot of the active positions. Its results and its writes to positions and ledgers are exactly those of `Batch`. The other collections are untouched. |
| InvestmentProfitRoute.ProcessInvestment | app/api/investment-profit/route.ts:119-179 | The loop body's writes and entries are exactly those of `ProcessOne`. A position without accrual fields is left alone. |
| InvestmentProfitRoute.HandleCompletedInvestment | app/api/investment-profit/route.ts:194-232 | Marks the position completed and replaces the owner's ledger by `CompletedInfo`. Returns amount·0.149·7. |
| InvestmentProfitRoute.Owned | app/api/investment-profit/route.ts:244-258 | `find({ userId, status })`: every returned position belongs to the user, has that status and comes from the collection. |
| InvestmentProfitRoute.OwnedComplete | app/api/investment-profit/route.ts:244-253 | Every position of the user with that status is returned, as often as it occurs in the collection. So the list, and the counts GET reports, are as long as the number of matching positions. |
| InvestmentProfitRoute.SumShownReturns | app/api/investment-profit/route.ts:292-295 | The sum of the recomputed returns is a number exactly when every active position has accrual fields. Otherwise it is NaN, as with JavaScript's `+`. |
| InvestmentProfitRoute.SumStoredReturns | app/api/investment-profit/route.ts:296-299 | The sum of stored returns of completed positions is a number exactly when each has accrual fields. |
| InvestmentProfitRoute.ShowActive | app/api/investment-profit/route.ts:261-270 | Lists each active position, in order, with its recomputed return. |
| InvestmentProfitRoute.Get | app/api/investment-profit/route.ts:234-339 | The overview reads the database and writes nothing. totalInvestmentAmount is the sum over active and completed positions. totalCurrentReturns is a number exactly when every active position has accrual fields. The counts equal the listed positions. |
| InvestmentProfitRoute.InvestedSplits | app/api/investment-profit/route.ts:284-291 | The invested total is the active total plus the completed total. |
| InvestmentProfitRoute.SumAmountsSnoc | app/api/investment-profit/route.ts:284-291 | Appending a position adds its amount to the sum. |
| InvestmentProfitRoute.ShownReturnMatchesBatch | app/api/investment-profit/route.ts:261-270 | The return GET shows for an active position equals what a batch at the same `now` stores for it. |
| InvestmentPlans.PopularCount | data/investmentPlan.ts:1-137 | Counts the popular plans. The count is 0 exactly when no plan is popular. |
| InvestmentPlans.CatalogShape | data/investmentPlan.ts:1-137 | Nine plans, with ids 1 to 9 in order and pairwise distinct names. |
| InvestmentPlans.CatalogBounds | data/investmentPlan.ts:8-134 | Every plan has min ≤ max, lasts 7 days and has return rate 0.149. |
| InvestmentPlans.CatalogContiguous | data/investmentPlan.ts:8-129 | Each plan's max + 1 is the next plan's min. |
| InvestmentPlans.OnePopularPlan | data/investmentPlan.ts:30 | Exactly one plan is popular, and it is Deluxe. |
| Models.NewInvestmentInfo | models/InvestmentInformation.ts:10-28 | A fresh ledger has zero balance, invested sum, profit and returns, the package "No investment", and no investment date. |
| Models.SavedPosition | models/CreateInvestment.ts:36-39 | The save hook sets updatedAt and changes nothing else. |
| Models.CreatedPosition | models/CreateInvestment.ts:3-39 | A created position keeps the given user, plan, amount and status, with "inactive" as the default status. Its dates are `now`, and it has no accrual fields. |
| Models.ParseReviewStatus | app/api/payment/route.ts:143-148 | Accepts exactly "pending", "validated" and "rejected", each as its own state. |
| CreateInvestmentRoute.FindServerPlan | app/api/create-investment/route.ts:88-98 | None exactly when no plan has the name. Otherwise the first plan with that name. |
| CreateInvestmentRoute.ValidateInvestment | app/api/create-investment/route.ts:17-35 | Passes exactly when a ledger exists, holds no investment, and its balance is not below the amount (a NaN amount passes). Each failure carries its own message, in the code's order. |
| CreateInvestmentRoute.CheckOpen | app/api/create-investment/route.ts:65-109 | Every failure is a 400. The ledger checks come first, then the plan name, then the bounds, with the plan-specific message. Success holds exactly when all three pass. Then the amount is a positive number within the plan's bounds and not above the balance. |
| CreateInvestmentRoute.Invested | app/api/create-investment/route.ts:37-63 | Moves the amount from balance to the invested sum, so their sum is unchanged. Sets the package and lastInvestmentDate. Leaves profit and returns alone. |
| CreateInvestmentRoute.Post | app/api/create-investment/route.ts:65-141 | On a guard failure nothing changes. On 201 one active position is appended and the ledger becomes `Invested`. Then the balance stays ≥ 0 and balance plus invested is conserved. |
| CreateInvestmentRoute.Patch | app/api/create-investment/route.ts:166-206 | A missing id or status gives 400, and a position that is not the caller's gives 404; neither changes anything. Otherwise only the status of that one position changes, and no ledger is touched. |
| CreateInvestmentRoute.ActiveInvestmentBlocksOpening | app/api/create-investment/route.ts:24-27 | With a current investment, opening fails with "You have an active investment already", whatever the plan and amount. |
| CreateInvestmentRoute.ServerPlanNames | app/api/create-investment/route.ts:8-15 | The server table has six plans, Basic to Platinum, in order. |
| CreateInvestmentRoute.ServerPlansOrdered | app/api/create-investment/route.ts:8-15 | Every range is non-empty. Consecutive ranges meet (max + 1 = next min). Earlier plans lie wholly below later ones. Names are distinct. |
| CreateInvestmentRoute.ServerPlanForAmount | app/api/create-investment/route.ts:8-15 | At most one plan's range holds a given amount. Some plan's range holds it exactly when 1000 ≤ amount ≤ 100000. |
| CreateInvestmentRoute.CatalogDivergence | data/investmentPlan.ts:78-129 | The server table agrees with the catalog on the first five plans. It disagrees on Platinum's maximum (100000 against 29999) and knows none of VIP, Silver Platinum and Gold Platinum. |
| CreateInvestmentRoute.NotAServerName | app/api/create-investment/route.ts:88-98 | A name outside the six server names finds no plan. |
| CreateInvestmentRoute.CatalogOnlyPlanRefused | app/api/create-investment/route.ts:88-98 | Choosing one of the three largest catalog plans is refused as "Invalid investment plan" once the ledger checks pass. |
| CreateInvestmentRoute.BasicAmountMessage | app/api/create-investment/route.ts:102-109 | The Basic plan's bounds message is "Amount must be between $1000 and $1999 for Basic plan". |
| CreateInvestmentRoute.NaNAmountStoppedByBounds | app/api/create-investment/route.ts:29-32 | A NaN amount passes the balance check and is refused by the bounds check. |
| WithdrawalRoute.ValidateWithdrawal | app/api/withdrawal/route.ts:24-33 | Passes exactly when a ledger exists and its balance is not below the amount. Otherwise fails with "Investment information not found" or "Insufficient balance…". |
| WithdrawalRoute.CheckWithdrawal | app/api/withdrawal/route.ts:50-97 | No validated KYC gives 403 before anything else. A missing or zero amount, method or address gives 400, as does a negative amount, and then the ledger checks follow. Success holds exactly when all the checks pass. |
| WithdrawalRoute.Debited | app/api/withdrawal/route.ts:35-48 | The balance drops by exactly the amount. Nothing else changes apart from updatedAt. |
| WithdrawalRoute.Post | app/api/withdrawal/route.ts:50-125 | On a guard failure nothing changes. On 201 a pending withdrawal is appended and the balance is debited. Then the balance stays ≥ 0, and the balance plus the user's requested withdrawals is conserved. |
| WithdrawalRoute.WithdrawnByAppend | app/api/withdrawal/route.ts:100-107 | A new record adds its amount to its owner's withdrawn total only. |
| PaymentRoute.CheckSubmission | app/api/payment/route.ts:32-74 | An unknown caller gives 404. A missing wallet, a missing or zero amount, or a missing file gives 400, and so does a non-image file. Success holds exactly when all pass, with a non-zero amount. |
| PaymentRoute.CheckReview | app/api/payment/route.ts:114-163 | In order: not an admin gives 403; a missing id or status, then an invalid status, gives 400; an unknown proof gives 404; an already validated proof gives 400. Success holds exactly when none of these applies. |
| PaymentRoute.LedgerOrNew | app/api/payment/route.ts:175-189 | The ledger the credit goes to: its balance is the owner's balance (0 without a ledger). An existing ledger is returned as is. A missing one is created with zero amounts, the "No investment" package and both dates at `now`. |
| PaymentRoute.ValidatedTotalAppend | app/api/payment/route.ts:90-96 | Appending a proof adds only its own contribution to a user's validated total. |
| PaymentRoute.ValidatedTotalUpdate | app/api/payment/route.ts:165-189 | Replacing one proof swaps its contribution and leaves the others'. |
| PaymentRoute.Post | app/api/payment/route.ts:32-112 | On a guard failure nothing changes. On 201 a pending proof is appended. No ledger changes, and every user's validated total is unchanged. |
| PaymentRoute.Put | app/api/payment/route.ts:114-220 | The proof's status changes. Validating also credits its amount to the owner's ledger, created if missing; both happen or neither. For every user, balance minus validated deposits is unchanged. A validated proof is never changed again, so a deposit is credited once. |
| KycRoute.CheckSubmission | app/api/kyc/route.ts:46-107 | An unknown user gives 404. An open (pending or validated) submission gives 400, then missing fields or non-image files give 400. Success holds exactly when all pass. |
| KycRoute.CheckReview | app/api/kyc/route.ts:174-222 | In order: 403 for a non-admin; 400 for a missing field or invalid status; 404 for an unknown id; 400 for an already validated submission. Success holds exactly when none applies. |
| KycRoute.Reviewed | app/api/kyc/route.ts:225-228 | Sets the status and updatedAt. Records the rejection reason only when rejecting with a non-empty reason. Nothing else changes. |
| KycRoute.Post | app/api/kyc/route.ts:46-138 | On a guard failure nothing changes. On 201 one pending submission is appended. The rule "at most one open submission per user" is preserved. |
| KycRoute.Put | app/api/kyc/route.ts:174-256 | The submission becomes `Reviewed`. Validating also marks its owner verified at `now`. A validated submission is never changed. The one-open rule is kept when rejecting or when the submission was already pending. |
| KycRoute.ReopeningBreaksOneOpen | app/api/kyc/route.ts:174-228 | A concrete admin PUT that moves a rejected submission back to pending, while the user has a newer pending one, breaks the one-open rule. |
| ResetPasswordRoute.GenerateVerificationCode | app/api/auth/reset-password/route.ts:9-11 | The code is six decimal digits without a leading zero, the decimal text of `CodeValue`. |
| ResetPasswordRoute.CodeValue | app/api/auth/reset-password/route.ts:9-11 | floor(100000 + r·900000) lies in [100000, 999999]. |
| ResetPasswordRoute.FirstWithEmail | app/api/auth/reset-password/route.ts:28 | `findOne({ email })`: the first user with that email, or none. |
| ResetPasswordRoute.Issued | app/api/auth/reset-password/route.ts:37-51 | Stores the code and an expiry of now + 15 minutes, overwriting any previous code. Nothing else changes. |
| ResetPasswordRoute.Reset | app/api/auth/reset-password/route.ts:126-134 | Replaces the password and clears code and expiry. Nothing else changes. |
| ResetPasswordRoute.Post | app/api/auth/reset-password/route.ts:14-87 | A missing email gives 400 and an unknown email 404. A failed email gives 500 with the write rolled back. Otherwise 200, with a code issued to the first user with that email. |
| ResetPasswordRoute.CheckReset | app/api/auth/reset-password/route.ts:90-116 | Missing fields give 400. Otherwise success holds exactly when some user with that email holds that code unexpired (expiry > now), and it picks the first user with that email. |
| ResetPasswordRoute.Put | app/api/auth/reset-password/route.ts:90-157 | On a guard failure nothing changes. Otherwise that user's password is replaced and their code cleared. |
| ResetPasswordRoute.MatchIsFirst | app/api/auth/reset-password/route.ts:105-134 | With unique emails, the user holding a matching code is the one the update reaches. |
| ResetPasswordRoute.CodeSingleUse | app/api/auth/reset-password/route.ts:126-134 | With unique emails, after a successful reset the same code is refused at any later time. |
| ResetPasswordRoute.CodeLifetime | app/api/auth/reset-password/route.ts:37-38 | With unique emails, an issued code is accepted exactly while now < issue time + 15 minutes. |
| VerifyResetCodeRoute.Verify | app/api/auth/verify-reset-code/route.ts:10-36 | Missing email or code gives 400. Otherwise 200 exactly when some user with that email holds that code unexpired, and 400 otherwise. |
| VerifyResetCodeRoute.VerifyAgreesWithReset | app/api/auth/verify-reset-code/route.ts:20-24 | For a non-empty new password, verification succeeds exactly when the reset's guard does. Verification writes nothing, so a later reset with the same code still passes. |
| VerifyResetCodeRoute.ExpiryIsStrict | app/api/auth/verify-reset-code/route.ts:20-31 | A code issued at t verifies at t + 15 min − 1 ms and is refused at t + 15 min. |
| FormatNumber.DigitRun | utils/formatNumberWithComma.ts:7 | The length of the run of digits starting at i. The character after it is not a digit. |
| FormatNumber.RemoveCommasFrom | utils/formatNumberWithComma.ts:7 | Deleting the inserted commas gives back the input suffix. |
| FormatNumber.NatRoundTrip | utils/formatNumberWithComma.ts:6-8 | For a non-negative integer, deleting the commas from the output gives its `toString()`. |
| FormatNumber.SplitLastGroup | utils/formatNumberWithComma.ts:7 | For a digit string longer than 3, the output ends in a comma and the last three digits. |
| FormatNumber.DigitsGrouped | utils/formatNumberWithComma.ts:7 | For a digit string, the output is the usual thousands grouping. |
| FormatNumber.GroupShape | utils/formatNumberWithComma.ts:7 | In a grouped integer, position j holds a comma exactly when j > 0 and the count of characters from j to the end is a multiple of 4. So the first group has 1–3 digits and each later group 3. |
| FormatNumber.Thousand | utils/formatNumberWithComma.ts:7 | 1000 becomes "1,000". |
| FormatNumber.BelowThousandUnchanged | utils/formatNumberWithComma.ts:7 | Integers below 1000 come out unchanged. |
| FormatNumber.FractionGrouped | utils/formatNumberWithComma.ts:7 | As written, for digits, a point and digits, each side is grouped in threes on its own, so the fraction digits get commas too. |
| FormatNumber.FractionGroupedExample | utils/formatNumberWithComma.ts:7 | As written, "1234.5678" becomes "1,234.5,678". |
| FormatNumber.IntegerPartLocal | utils/formatNumberWithComma.ts:7 | The point ends the digit run: the integer digits are formatted as on their own, and the text after the point as on its own. |
| FormatNumber.FormatWithCommasCorrected | utils/formatNumberWithComma.ts:7 | When the text before the first '.' is all digits, the result is that part in the usual thousands grouping, followed by the rest of the text unchanged. |
| FormatNumber.CorrectedGroupsIntegerPart | utils/formatNumberWithComma.ts:7 | For digit strings w and f, the corrected function maps "w.f" to Grouped(w) + "." + f, and agrees with the original on integers. |
| ShortenId.Shorten | utils/shortenId.ts:1-6 | An id no longer than lengthToKeep is returned unchanged. For lengthToKeep > 0 the result is the suffix of length min(\|id\|, lengthToKeep). For 0 it is the whole id (`slice(-0)`), and a negative value drops that many leading characters. |
| ShortenId.ShortenDefault | utils/shortenId.ts:1 | With the default of 10, the result is the last min(\|id\|, 10) characters. |
| ShortenId.ShortenIdempotent | utils/shortenId.ts:2-5 | For a positive length, shortening twice equals shortening once. |
| ErrorMessage.GetErrorMessage | utils/getErrorMessage.ts:2-7 | A falsy input gives undefined. A non-empty string is returned as is. An object gives its message when that is truthy, and undefined otherwise; booleans and numbers give undefined too. The result is undefined or truthy. |
| InputCodeBuffer.Padded | components/ui/InputCode.tsx:16-21 | Exactly `length` slots: the value's characters first, then empty strings. |
| InputCodeBuffer.ConcatPadded | components/ui/InputCode.tsx:18-19 | Joining the padded slots gives the value cut to `length` characters. |
| InputCodeBuffer.InputCode.constructor | components/ui/InputCode.tsx:12 | The buffer starts as `length` empty slots. |
| InputCodeBuffer.InputCode.SyncValue | components/ui/InputCode.tsx:16-21 | An empty value leaves the buffer alone. Otherwise the buffer becomes the value cut and padded to `length`. |
| InputCodeBuffer.InputCode.HandleChange | components/ui/InputCode.tsx:23-39 | Input longer than one character changes nothing and reports nothing. Otherwise only slot `index` changes, and the joined slots are reported. |
| InputCodeBuffer.InputCode.HandlePaste | components/ui/InputCode.tsx:48-59 | The buffer becomes the pasted text cut and padded to `length` slots. The report is the joined slots, which is the text cut to `length`. |

## Left out

- Sign-in and sessions: the 401 responses for a missing session and the bearer-secret check of the batch are not modelled. The caller's id is a parameter.
- Foreign services are parameters:
  - an upload returns a URL parameter (`frontUrl`, `backUrl`, `proofUrl`). An upload that throws, which payment POST and KYC POST answer with a 500, is not modelled;
  - email delivery is the `mailSent` flag;
  - bcrypt hashing is the `hashedPassword` parameter;
  - `Math.random()` is `r` in [0, 1).
- The GET listing routes of create-investment, payment, KYC and withdrawal are not modelled. They only read and sort records.
- Concurrency: each handler is one atomic step. Not modelled:
  - the batch's separate, non-transactional writes;
  - KYC PUT's two writes (the owner's verification, then the submission), which have no transaction;
  - races with dashboard reads;
  - the retry behaviour of MongoDB transactions.
- InvestmentProfitRoute.Owned: the lists are in storage order. The GET handler's sorts (newest first by `createdAt` or `completionDate`) and its per-position `percentageReturn` strings are not modelled. The sums do not depend on order.
- Floating point: money is exact `real`. IEEE rounding of 0.149 and 1.043, `toFixed(2)` strings and Infinity are not modelled.
- Time zones: `toDateString()` is the abstract `dayOf` parameter.
- Mongoose strict mode: updates to paths the schemas do not declare are kept as written. These are the accrual fields of a position, `totalReturnsEarned` of a ledger and `rejectionReason` of a KYC submission, which Mongoose would drop.
- Positions opened by create-investment carry no accrual fields in this model (`schedule = None`), because no route in this model sets them. The batch therefore never accrues or completes such a position. The batch lemmas hold for positions with or without them.
- PATCH applies any non-empty status string, since `findOneAndUpdate` does not run enum validators, so a completed position can be made active again (see InvestmentProfitRoute.ReactivatedPositionPaidAgain). Cancellation and refund do not exist in the code.
- ResetPasswordRoute.MatchIsFirst, CodeSingleUse, CodeLifetime: these assume unique user emails. That is a schema property of models/User.ts, which is not part of this model; mongoose uniqueness itself is not modelled.
- InputCodeBuffer.InputCode: `length` is fixed at construction. A change of the `length` prop, keyboard focus movement and `handleKeyDown` (focus only) are not modelled.
- getErrorMessage's objects are reduced to the `message` property. Other JavaScript values (arrays, functions, symbols) are not modelled.
- Negative payment amounts pass POST, as in the code. The model records this rather than treating it as a defect.

## Findings

| source | as written | input that shows it | evidently intended | confidence | as-written member | corrected member |
|---|---|---|---|---|---|---|
| utils/formatNumberWithComma.ts:7 | the `\B(?=(\d{3})+(?!\d))` replacement runs over the whole text, so the digits after a decimal point are grouped too | "1234.5678" gives "1,234.5,678" | group only the integer part: "1,234.5678" | not executed | FormatNumber.FractionGroupedExample | FormatNumber.CorrectedGroupsIntegerPart |
