# KoperasiKita ledger core in Dafny

KoperasiKita is a savings-and-loan cooperative app. Members (nasabah) hold principal, mandatory
and voluntary savings and an SHU (profit share) balance. Staff record deposits, withdrawals and
loan instalments, create loans, and once a period close the books (tutup buku). Closing the books
shares the interest earned so far between the members, in proportion to their savings, and the
cooperative's reserve account `KOPERASI`.

This project models the core of that app and proves properties of the model:

- **`Ledger`, `LedgerFacts`** (`services/mockDatabase.ts`): the transaction engine as functions over
  one backend's tables. This covers `addTransaksi` (balance effect per kind, the insufficient-savings
  and unknown-member errors, the stored sign), `deleteTransaksi` (revert floored at 0),
  `bayarAngsuran`, `getNasabah`'s derived fields, and the create/update/delete helpers. The
  facts proved are the add-then-delete round trip, non-negative balances, the repayment rule, and
  "only the target changes".
- **`Distribution`** (`distributeSHU`): the reserve account is ensured, the found members are
  credited, and the reserve is credited. A whole run changes the member table as `SharedOut` says.
- **`Store`**: `DatabaseService` as a class with the `offlineMode` flag and two copies of the
  tables, `remote` (the spreadsheet) and `local` (the browser cache). Every operation is an
  imperative method proved against the `Ledger` / `Distribution` function for the copy in use.
  The distribution loop is a `for` loop with its invariants.
- **`Closing`** (`pages/TutupBukuPage.tsx`): the interest earned, the profit available, the
  floored pools, the member shares, the plan handed to `distributeSHU`, and the sorted simulation.
- **`LoanMath`** (`pages/PinjamanPage.tsx`): flat interest, the ceiling instalment, the new-loan
  guard, the estimate, the progress bar and the badge.
- **`Dashboard`** (`pages/Dashboard.tsx`): role scoping, the loan loop, the net interest, the
  cash balance and today's money in and out.
- **`MemberDirectory`** (`pages/NasabahPage.tsx`): the net balance, visibility by role, search,
  and the member form.
- **`TransactionView`** (`pages/TransaksiPage.tsx`): visibility, the member picker, the
  instalment autofill, the submitted request, the type filter and the row sign.
- **`Auth`** (`context/AuthContext.tsx`): `String.prototype.trim`, the login decision (staff
  first, then members), and the session class with login and logout.

Amounts of money are exact `real`s rather than integers. The source's amounts are JavaScript
numbers, and they do become fractional: interest is `jumlah × bunga / 100 × tenor`, and the
reserve pool is `profit − floor(profit × pct / 100)` applied to a fractional profit. Both are
stored as they are.

The clock, the generated ids and the backend's availability are inputs. A `Stamp` is an
id and a time. `today` is a string. `remoteOk: bool` says whether the remote backend answers
during the call.

### What the code does that a reader may not expect

- **Closing the books does not reset the available profit to 0.** The closing page is titled
  "Tutup Buku & Reset Laba" and says it resets the running profit (pages/TutupBukuPage.tsx:266-267).
  The available profit is interest collected less the `BAGI_HASIL` magnitudes
  (pages/TutupBukuPage.tsx:52-57), and a run records as `BAGI_HASIL` only the floored member
  shares with a positive real nominal plus the reserve's real amount
  (services/mockDatabase.ts:411-421 and 443-452). The floored shares can add up to less than the
  floored pool (pages/TutupBukuPage.tsx:147-153). `Closing.RemainderExample` has three equal
  members sharing 100 at 70%: they get 23 each and the reserve gets 30.
  `Closing.PlanWithinProfit` bounds the planned total by the profit. `Closing.PlanRecorded` proves
  that a run of the plan records exactly the members' real nominals plus the real reserve, which
  never exceeds the real profit, and `Closing.RemainderStaysAvailable` follows the example through
  the run: the run records 99 and leaves 1 available.
- **Login trims both sides.** The typed username and password are trimmed, and so are the stored
  username, password (or legacy `Pass`), member id and NIK they are compared with
  (context/AuthContext.tsx:27-28, 38-39 and 66-67).
- **No outstanding loan is not an error.** `bayarAngsuran` finds the member's first loan with a
  positive balance and does nothing when there is none (services/mockDatabase.ts:473-475). It
  throws nothing, and the `ANGSURAN` transaction that called it is still recorded
  (services/mockDatabase.ts:331-332 and 362-364).
- **A repayment is written to the first loan with the found loan's id.** `bayarAngsuran` finds
  the member's outstanding loan and then writes the first stored loan whose id equals that loan's
  id (services/mockDatabase.ts:473 and 489-494). Loan ids are `P` and the last six digits of the
  clock (pages/PinjamanPage.tsx:68), and `createPinjaman` checks nothing
  (services/mockDatabase.ts:283-298), so two loans can share an id. `LedgerFacts.RepaymentRule`
  and `LedgerFacts.RepaymentKeepsConsistent` are stated for unique loan ids;
  `LedgerFacts.DuplicateLoanIdRepaysOther` shows what happens otherwise: another member's settled
  loan gets the new balance and stays lunas, and the loan being repaid is unchanged.
- **`lunas` is set only at zero.** `bayarAngsuran` floors the new balance at 0 and writes
  `status` only when the balance is 0, otherwise leaving it as it was
  (services/mockDatabase.ts:476-478 and 492-494). Deleting an instalment reverts no balance and
  does not reopen the loan (services/mockDatabase.ts:511-529).

## Model

| member | source | states |
|---|---|---|
| Ledger.Updates | services/mockDatabase.ts:309-333 | the `updates` object merged into the member is exactly the kind's effect: +\|n\| on pokok, wajib or sukarela, −\|n\| on sukarela for a withdrawal, +\|n\| SHU; it is empty exactly for an instalment; it fails, with the current voluntary balance, exactly when a withdrawal exceeds voluntary savings |
| Ledger.StoredNominal | services/mockDatabase.ts:335-340 | the stored amount has magnitude \|n\|; it is negative only for the expense kinds (Types.IsExpense: withdrawals and profit shares), and always negative for those when positive |
| Ledger.GetNasabah | services/mockDatabase.ts:124-141 | one view per stored member, in order; `saldo` is all four balances; `total_pinjaman` sums the member's active loans |
| Ledger.Effect | services/mockDatabase.ts:309-333 | the reference balance effect of each kind, field by field, against which Ledger.Updates is proved; Distribution.CreditEffect and Distribution.CreditAllEffect state the profit-share runs through it |
| Ledger.RevertUpdates | services/mockDatabase.ts:505-529 | the `revertUpdates` object built from the member's current record; LedgerFacts.DeleteReverts, LedgerFacts.RevertKeepsNonNegative and LedgerFacts.AddThenDeleteRestores state what it does |
| Ledger.AddTransaksi | services/mockDatabase.ts:300-375 | addTransaksi on one backend's tables; its behaviour is proved by LedgerFacts.UnknownMemberThrows, DepositCreditsOneField, WithdrawalRule, StoredSign, AddTransaksiKeepsNonNegative, AddTransaksiKeepsIds and Recorded, and Store.DatabaseService.RecordTransaksi is proved equal to it |
| Ledger.DeleteTransaksi | services/mockDatabase.ts:500-556 | deleteTransaksi on one backend's tables; LedgerFacts.DeleteUnknownIsNoOp, DeleteReverts, DeleteKeepsNonNegative, AddThenDeleteRestores and DeleteUndoes state its behaviour |
| Ledger.BayarAngsuran | services/mockDatabase.ts:470-498 | bayarAngsuran on the loan list; LedgerFacts.RepaymentRule, RepaymentKeepsConsistent and RepayTwice state its behaviour, and Store.DatabaseService.RepayLoan is proved equal to it |
| Ledger.AddNasabah | services/mockDatabase.ts:246-261 | addNasabah on one backend's tables; LedgerFacts.AddNasabahAppends states it |
| Ledger.UpdateNasabah | services/mockDatabase.ts:263-281 | updateNasabah on one backend's tables; LedgerFacts.UpdateNasabahOnlyTarget states it |
| Ledger.CreatePinjaman | services/mockDatabase.ts:283-298 | createPinjaman on one backend's tables; LedgerFacts.CreatePinjamanStoresActive states it |
| Ledger.CreateUser | services/mockDatabase.ts:198-211 | createUser on one backend's tables; LedgerFacts.CreateUserAppends states it |
| Ledger.UpdateUser | services/mockDatabase.ts:213-229 | updateUser on one backend's tables; LedgerFacts.UpdateUserOnlyTarget states it |
| Ledger.DeleteUser | services/mockDatabase.ts:231-244 | deleteUser on one backend's tables; LedgerFacts.DeleteUserRemovesExactly states it |
| LedgerFacts.UnknownMemberThrows | services/mockDatabase.ts:304-307 | an unknown member id fails with NasabahNotFound and writes nothing |
| LedgerFacts.DepositCreditsOneField | services/mockDatabase.ts:309-320 | a deposit succeeds and adds \|n\| to exactly the matching savings field of the first member with that id; no other member, field, loan or user changes |
| LedgerFacts.WithdrawalRule | services/mockDatabase.ts:321-327 | a withdrawal fails exactly when voluntary savings < \|n\| (the error carries the balance); otherwise only voluntary savings drop by \|n\| |
| LedgerFacts.StoredSign | services/mockDatabase.ts:335-347 | the new transaction is appended after the old ones with the stamp's id, the member, the kind, and −\|n\| for withdrawals and profit shares, +\|n\| otherwise |
| LedgerFacts.AddTransaksiKeepsNonNegative | services/mockDatabase.ts:309-333 | a successful addTransaksi keeps every savings and SHU balance non-negative |
| LedgerFacts.AddTransaksiKeepsIds | services/mockDatabase.ts:366-373 | addTransaksi never renames, adds or removes a member |
| LedgerFacts.DeleteUnknownIsNoOp | services/mockDatabase.ts:500-503 | deleting an unknown id changes nothing, not even the log |
| LedgerFacts.DeleteReverts | services/mockDatabase.ts:505-556 | the first transaction with the id is reverted on its member's current record, which becomes that record merged with Ledger.RevertUpdates: deposits and SHU are subtracted floored at 0, a withdrawal is added back, an instalment reverts nothing; the member's id, name, NIK, address, phone and coordinator stay; every other member is unchanged; the transactions become the old ones without those with the id, in order |
| LedgerFacts.DeleteKeepsNonNegative | services/mockDatabase.ts:511-529 | deleting never drives a balance below 0 |
| LedgerFacts.RevertKeepsNonNegative | services/mockDatabase.ts:511-529 | the revert object of a non-negative member leaves it non-negative |
| LedgerFacts.AddThenDeleteRestores | services/mockDatabase.ts:300-556 | round trip: adding any non-instalment transaction under a fresh id and deleting it restores the members, transactions, loans and users exactly |
| LedgerFacts.Recorded | services/mockDatabase.ts:342-373 | after a non-instalment add the new transaction is last and the member is patched by the kind's effect at the index it is still found at |
| LedgerFacts.DeleteUndoes | services/mockDatabase.ts:500-556 | deleting the last-recorded transaction gives back the earlier transaction list and the member's earlier record |
| LedgerFacts.DepositSukarelaAdds | services/mockDatabase.ts:318-320 | a series of voluntary deposits adds their total to that member's voluntary savings and keeps the member ids |
| LedgerFacts.DepositsThenWithdraw | services/mockDatabase.ts:318-327 | deposits totalling T into empty voluntary savings, then withdrawing T, leave 0; withdrawing T + 1 fails with the balance T |
| LedgerFacts.RepaymentRule | services/mockDatabase.ts:470-498 | with unique loan ids, only the member's first loan with a positive balance changes, and only in two fields: its balance becomes max(0, sisa − n) and its status becomes lunas at 0 and is kept otherwise; every other field of it, interest and term included, stays; without such a loan nothing changes |
| LedgerFacts.RepaymentKeepsConsistent | services/mockDatabase.ts:476-478 | with unique loan ids, repayment keeps every loan consistent (balance ≥ 0, lunas iff 0), whatever the amount |
| LedgerFacts.DuplicateLoanIdRepaysOther | services/mockDatabase.ts:473-494 | with two loans under one id, repaying member B's outstanding loan writes member A's settled loan, which is left lunas with a positive balance, and B's loan is unchanged |
| LedgerFacts.RepayTwice | services/mockDatabase.ts:473-478 | with unique loan ids, paying a loan off settles it, and paying again leaves that loan as it is in any loan table; when the member has no other loan with a positive balance, paying again changes nothing |
| LedgerFacts.TotalPinjamanNonNegative | services/mockDatabase.ts:129-131 | `total_pinjaman` is ≥ 0 when loan balances are |
| LedgerFacts.NoActiveLoanNoDebt | services/mockDatabase.ts:129-131 | a member without an active loan has `total_pinjaman` 0 |
| LedgerFacts.UpdateNasabahOnlyTarget | services/mockDatabase.ts:263-281 | updateNasabah merges the patch into the first member with that id, keeping its id and coordinator; every other member and table is unchanged; the edit is logged |
| LedgerFacts.UpdateUserOnlyTarget | services/mockDatabase.ts:213-229 | updateUser merges the form into the first staff record with that id and changes no other record or table |
| LedgerFacts.DeleteUserRemovesExactly | services/mockDatabase.ts:231-244 | deleteUser removes exactly the staff records with that id and keeps the rest and the other tables |
| LedgerFacts.AddNasabahAppends | services/mockDatabase.ts:246-261 | the member is appended after every existing one, the name is logged, and no other collection changes |
| LedgerFacts.CreatePinjamanStoresActive | services/mockDatabase.ts:283-298 | the loan is appended last with status aktif and otherwise as given, its id is logged, and no other collection changes |
| LedgerFacts.CreateUserAppends | services/mockDatabase.ts:198-211 | the staff record is appended, its username is logged, and no other collection changes |
| Distribution.ProfitShare | services/mockDatabase.ts:413-421 | the loop's `addTransaksi` of a BAGI_HASIL row when the real amount is positive; Distribution.ProfitShareAtMember and CreditRows state it |
| Distribution.TopUpShu | services/mockDatabase.ts:425-435 | the re-read member's SHU raised by the positive full-minus-real gap, with no transaction; Distribution.CreditEffect states it together with ProfitShare |
| Distribution.Credit | services/mockDatabase.ts:411-435 | one account's step, profit share then top-up; Distribution.CreditEffect and Distribution.CreditRows state it |
| Distribution.CreditAll | services/mockDatabase.ts:407-440 | the loop over the active allocations, skipping members missing from the list read at the start; Distribution.CreditAllEffect, NothingCreditedToUnknown, CreditAllRows and KnownMembersStayPresent state it, and Store.DatabaseService.CreditAllocations is proved equal to it |
| Distribution.DistributeSHU | services/mockDatabase.ts:377-468 | distributeSHU on one backend's tables; Distribution.DistributionEffect, DistributionMembers, DistributionRows and DistributionKeepsLoansAndStaff state what a run does, and Store.DatabaseService.DistributeSHU is proved equal to it |
| Distribution.ProgressLog | services/mockDatabase.ts:437-438 | the k-th report is (k, total) |
| Distribution.Progress | services/mockDatabase.ts:403-465 | one report per found member plus one for the reserve; every report carries total = active allocations + 1; the last count equals the number of reports |
| Distribution.EnsureReserve | services/mockDatabase.ts:386-400 | afterwards KOPERASI exists; if it was missing it is appended with zero balances; nothing but the member list and the log changes |
| Distribution.Gain | services/mockDatabase.ts:413-435 | what one credit adds to SHU is ≥ 0, at least the real and the full part, and exactly the full part when 0 ≤ real ≤ full |
| Distribution.ProfitShareAtMember | services/mockDatabase.ts:413-421 | a positive real part becomes a BAGI_HASIL transaction of −real and raises the member's SHU by it; otherwise nothing changes |
| Distribution.CreditEffect | services/mockDatabase.ts:411-435 | one account's credit raises exactly that member's SHU by Gain(real, full) and appends the transaction only for a positive real part; loans and users are unchanged |
| Distribution.CreditAllEffect | services/mockDatabase.ts:407-440 | the loop raises each member's SHU by the gains of the allocations for it whose member was in the list read at the start; ids, loans and users are unchanged |
| Distribution.NothingCreditedToUnknown | services/mockDatabase.ts:408-409 | an allocation whose member was not in the initial list credits nothing |
| Distribution.KnownMembersStayPresent | services/mockDatabase.ts:407-440 | a member present at the start is still present at every step of the loop |
| Distribution.ReserveKeepsUnique | services/mockDatabase.ts:387-400 | creating the reserve keeps member ids unique |
| Distribution.DistributionEffect | services/mockDatabase.ts:377-468 | with unique ids, a run changes the member table as SharedOut says: each member's SHU rises by its credited gains, KOPERASI's also by the reserve's gain, and a missing reserve is appended holding just that gain |
| Distribution.DistributionMembers | services/mockDatabase.ts:377-468 | a run's member table is RunMembers: reserve ensured, loop credits, reserve credit |
| Distribution.RunShares | services/mockDatabase.ts:377-468 | RunMembers satisfies SharedOut |
| Distribution.DistributionKeepsLoansAndStaff | services/mockDatabase.ts:377-468 | a run changes no loan and no staff record, and its last log entry is the closing entry with both totals |
| Distribution.OnlyOneReserve | services/mockDatabase.ts:387 | with unique ids, KOPERASI occurs at just the one index where it is found |
| Distribution.LoopRows | services/mockDatabase.ts:407-421 | the rows the loop records: at most one per allocation, each a profit share of negative amount entered by 'system' with the member-share note, for a member of the list read at the start |
| Distribution.CreditRows | services/mockDatabase.ts:411-421 | crediting a present member appends its profit-share row of −real exactly when real > 0, and nothing otherwise |
| Distribution.CreditAllKeepsPresent | services/mockDatabase.ts:407-440 | a member present before the loop is still present after it |
| Distribution.CreditAllRows | services/mockDatabase.ts:407-440 | the loop appends exactly Distribution.LoopRows to the transactions: one row per found active allocation with a positive real nominal, in allocation order |
| Distribution.ReserveKeepsPresent | services/mockDatabase.ts:386-400 | creating the reserve account keeps every member that was there |
| Distribution.ReserveRows | services/mockDatabase.ts:443-452 | crediting the reserve appends its profit-share row of −reserve exactly when the real reserve is > 0 |
| Distribution.DistributionRows | services/mockDatabase.ts:377-468 | when the member ids are unique, a whole run appends exactly the loop's rows in allocation order followed by the reserve's row when sisaUntukKoperasiReal > 0, and no other transaction |
| Store.DatabaseService.constructor | services/mockDatabase.ts:26 | the service starts online with the two given copies |
| Store.DatabaseService.UseApi | services/mockDatabase.ts:28-34 | useApi holds exactly when the service is not offline (the script URL is a non-empty constant) |
| Store.DatabaseService.Connect | services/mockDatabase.ts:38-87 | a failed remote request switches to offline mode for good; no copy changes |
| Store.DatabaseService.GetUsers | services/mockDatabase.ts:89-97 | the staff list of the copy in use after a possible failover |
| Store.DatabaseService.GetNasabah | services/mockDatabase.ts:99-145 | the member views of the copy in use, with derived fields as Ledger.GetNasabah |
| Store.DatabaseService.GetTransaksi | services/mockDatabase.ts:147-155 | the transactions of the copy in use |
| Store.DatabaseService.GetPinjaman | services/mockDatabase.ts:157-174 | the loans of the copy in use |
| Store.DatabaseService.LogAktivitas | services/mockDatabase.ts:178-196 | the entry is appended to the log of the copy in use; the other copy is untouched |
| Store.DatabaseService.CreateUser | services/mockDatabase.ts:198-211 | the copy in use becomes Ledger.CreateUser of it; the other copy is untouched |
| Store.DatabaseService.UpdateUser | services/mockDatabase.ts:213-229 | the copy in use becomes Ledger.UpdateUser of it (first match merged, always logged) |
| Store.DatabaseService.DeleteUser | services/mockDatabase.ts:231-244 | the copy in use becomes Ledger.DeleteUser of it (filtered, logged) |
| Store.DatabaseService.AddNasabah | services/mockDatabase.ts:246-261 | the member is appended to the copy in use and logged |
| Store.DatabaseService.UpdateNasabah | services/mockDatabase.ts:263-281 | the copy in use becomes Ledger.UpdateNasabah of it |
| Store.DatabaseService.CreatePinjaman | services/mockDatabase.ts:283-298 | the loan is appended with status aktif and logged |
| Store.DatabaseService.BayarAngsuran | services/mockDatabase.ts:470-498 | the loans of the copy in use become Ledger.BayarAngsuran of them; nothing else changes |
| Store.DatabaseService.RepayLoan | services/mockDatabase.ts:472-497 | bayarAngsuran's body, step by step: find the outstanding loan, clamp the balance at 0, write the balance and the status; equal to Ledger.BayarAngsuran |
| Store.DatabaseService.RecordTransaksi | services/mockDatabase.ts:300-375 | the body of addTransaksi built step by step equals Ledger.AddTransaksi, error included, and on an error nothing is written |
| Store.DatabaseService.AddTransaksi | services/mockDatabase.ts:300-375 | on the copy in use: the error of Ledger.AddTransaksi with no change, or its new tables |
| Store.DatabaseService.DeleteTransaksi | services/mockDatabase.ts:500-556 | the copy in use becomes Ledger.DeleteTransaksi of it |
| Store.DatabaseService.InsertMember | services/mockDatabase.ts:246-261 | addNasabah's body on the copy in use |
| Store.DatabaseService.MergeMember | services/mockDatabase.ts:263-281 | updateNasabah's body on the copy in use |
| Store.DatabaseService.ShareProfit | services/mockDatabase.ts:413-421 | the copy in use becomes Distribution.ProfitShare of it |
| Store.DatabaseService.TopUp | services/mockDatabase.ts:425-435 | the copy in use becomes Distribution.TopUpShu of it |
| Store.DatabaseService.CreditAccount | services/mockDatabase.ts:411-435 | the copy in use becomes Distribution.Credit of it |
| Store.DatabaseService.CreditAllocations | services/mockDatabase.ts:404-440 | the loop leaves Distribution.CreditAll of the copy in use, counts the found members, and has reported (1, n) … (k, n) |
| Store.DatabaseService.DistributeSHU | services/mockDatabase.ts:377-468 | the copy in use becomes Distribution.DistributeSHU of it, and the reports are Distribution.Progress of the list read at the start |
| Store.DatabaseService.ShareOut | services/mockDatabase.ts:386-467 | on the copy in use: the reserve account is created if missing, the active allocations are credited, the reserve is credited and the closing is logged, giving exactly Distribution.DistributeSHU of the old copy; the reports are Distribution.Progress |
| Closing.Distributed | pages/TutupBukuPage.tsx:53-55 | the profit already shared, the magnitudes of all BAGI_HASIL amounts, is ≥ 0 |
| Closing.Available | pages/TutupBukuPage.tsx:58 | the available profit is ≥ 0; it is interest − shared when that is ≥ 0, and 0 otherwise |
| Closing.FetchFinances | pages/TutupBukuPage.tsx:38-64 | the loan loop's total is the sum of the interest parts; shared and available as above |
| Closing.InterestSumBounds | pages/TutupBukuPage.tsx:38-49 | over well-formed loans the interest earned lies between 0 and the total flat interest |
| Closing.SplitProfit | pages/TutupBukuPage.tsx:131-136 | the two pools add up to the profit; the member pool is the whole-number floor of profit × pct / 100; both are ≥ 0 for a profit ≥ 0 and pct in [0, 100] |
| Closing.ActiveMembers | pages/TutupBukuPage.tsx:138 | a member is kept if and only if its id is not KOPERASI, and nothing else is kept |
| Closing.BasisIgnoresShuAndReserve | pages/TutupBukuPage.tsx:139-141 | the savings basis depends neither on SHU nor on the reserve account's balances |
| Closing.BasisIgnoresAppendedReserve | pages/TutupBukuPage.tsx:139-141 | appending the reserve account leaves the basis unchanged |
| Closing.Share | pages/TutupBukuPage.tsx:147-153 | a share is the whole-number floor of savings / basis × pool, and 0 when the basis is not positive |
| Closing.Allocations | pages/TutupBukuPage.tsx:144-160 | one allocation per sharing member, in order, never for KOPERASI; the i-th member's real and full nominals are its floored share of the real and the full pool |
| Closing.SharesWithinPool | pages/TutupBukuPage.tsx:144-153 | the floored shares add up to at most the pool |
| Closing.AllocationsWithinPools | pages/TutupBukuPage.tsx:144-160 | both nominal columns stay within their pools |
| Closing.ShareMono | pages/TutupBukuPage.tsx:147-153 | a larger pool never gives a smaller share |
| Closing.FullPoolCoversReal | pages/TutupBukuPage.tsx:131-136 | with a non-negative manual profit, the full member pool is at least the real one |
| Closing.FullCoversReal | pages/TutupBukuPage.tsx:144-160 | every member's full nominal is at least its real nominal |
| Types.UsernameOr | pages/TutupBukuPage.tsx:168 | `user?.username \|\| fallback`: the username when there is a user with a non-empty one, otherwise the fallback; never empty for a non-empty fallback (used with 'admin' here, 'unknown' on the member page, 'system' on the transaction page) |
| Closing.ExecutePlan | pages/TutupBukuPage.tsx:126-170 | totals are the available profit and available + manual; the allocations are Closing.Allocations of the members' parts of the real and the full split; the reserves are the cooperative's parts of those splits; the actor is the username, or 'admin' when there is none |
| Closing.PlanWithinProfit | pages/TutupBukuPage.tsx:126-170 | the members' nominals plus the reserve stay within the profit shared, for both columns; the reserves are ≥ 0 |
| Closing.PlanExample | pages/TutupBukuPage.tsx:126-170 | 100,000 at 70% between two members with equal savings: 35,000 each and a 30,000 reserve |
| Closing.RemainderExample | pages/TutupBukuPage.tsx:126-170 | 100 at 70% between three equal members: 23 each and a 30 reserve, so 99 < 100 is recorded |
| Closing.DistributedAppend | pages/TutupBukuPage.tsx:52-54 | appending profit-share rows adds their magnitudes to the distributed total |
| Closing.LoopRowsTotal | services/mockDatabase.ts:407-421 | the loop's rows add up to the positive real nominals of the allocations whose member is found |
| Closing.RunRowsTotal | services/mockDatabase.ts:443-452 | a run's rows add up to the loop's total plus the real reserve when it is positive |
| Closing.RunDistributed | services/mockDatabase.ts:377-468 | after a run the distributed total has grown by the positive real nominals of the found active allocations plus max(0, real reserve) |
| Closing.ShareNonneg | pages/TutupBukuPage.tsx:147-153 | a share of non-negative savings in a non-negative pool is non-negative |
| Closing.AllocationsNonneg | pages/TutupBukuPage.tsx:144-160 | with non-negative savings and a non-negative real pool every allocation's real nominal is non-negative |
| Closing.AllocationsFound | pages/TutupBukuPage.tsx:141-160 | every allocation is for a member of the list it was computed from |
| Closing.ActiveRealTotal | pages/TutupBukuPage.tsx:141-160 | when every allocation names a found member and has a non-negative real nominal, what the loop records is the real column of the active allocations, at most the whole column |
| Closing.PlanRecorded | pages/TutupBukuPage.tsx:126-170 | running the plan adds to the distributed total exactly the active allocations' real nominals plus the real reserve, and that never exceeds the real profit |
| Closing.RemainderActive | pages/TutupBukuPage.tsx:126-170 | for three equal members sharing 100 at 70%, the plan's active real nominals plus the reserve make 99 |
| Closing.RemainderStaysAvailable | pages/TutupBukuPage.tsx:52-57 | with 100 available, three equal members and 70%, the run records 99 and 1 stays available afterwards |
| Closing.InsertDesc | pages/TutupBukuPage.tsx:101 | inserts a row into a descending list, keeping it sorted and a permutation |
| Closing.SortDesc | pages/TutupBukuPage.tsx:101 | the rows sorted by non-increasing share, a permutation of the input |
| Closing.MemberRows | pages/TutupBukuPage.tsx:77-110 | one row per sharing member, in order, with its floored share of the pool |
| Closing.Simulate | pages/TutupBukuPage.tsx:77-110 | the total is available + manual; the members' and the cooperative's funds are its split; the basis is Closing.Basis; the rows are a permutation of one row per sharing member with its floored share, sorted descending |
| Closing.SimulationMatchesPlan | pages/TutupBukuPage.tsx:77-160 | each simulated row is a sharing member whose shown share is exactly its full nominal in the executed plan |
| LoanMath.TotalBunga | pages/PinjamanPage.tsx:63 | flat interest is ≥ 0 for non-negative terms and 0 when the principal, rate or tenor is 0 |
| LoanMath.TotalHutang | pages/PinjamanPage.tsx:64 | the debt is at least the principal, and equal to it without interest |
| LoanMath.Instalment | pages/PinjamanPage.tsx:65 | the ceiling of debt / tenor: the least whole number whose tenor multiple covers the debt; none for tenor 0 |
| LoanMath.QuoteFor | pages/PinjamanPage.tsx:63-65 | the three figures of the form agree with TotalBunga, the debt and the instalment |
| LoanMath.Estimasi | pages/PinjamanPage.tsx:94-105 | the estimate uses tenor 12 when the field is empty or 0 |
| LoanMath.NewLoan | pages/PinjamanPage.tsx:52-75 | nothing without a member or principal; the loan carries the form's terms, owes its whole debt, and its instalment is exactly the ceiling of debt / tenor, which covers the debt |
| LoanMath.QuoteExample | pages/PinjamanPage.tsx:63-65 | 1,000,000 at 2% for 12 months: 240,000 interest, 1,240,000 debt, 103,334 a month |
| LoanMath.Paid | pages/PinjamanPage.tsx:138-139 | what is paid is the whole debt once nothing is owed, and between 0 and the debt otherwise |
| LoanMath.ProgressPercent | pages/PinjamanPage.tsx:142-143 | the bar is in [0, 100]: 0 without debt, 100 when settled, paid / debt × 100 in between |
| LoanMath.ShownStatus | pages/PinjamanPage.tsx:146 | the badge is lunas exactly when nothing is owed |
| LoanMath.NewLoanShowsNothingPaid | pages/PinjamanPage.tsx:138-146 | a new loan with positive debt shows nothing paid, 0% and aktif |
| LoanMath.InterestPart | pages/TutupBukuPage.tsx:40-48 | the interest earned on a loan: 0 without debt or before any payment, the whole flat interest when settled |
| LoanMath.InterestPartBounds | pages/TutupBukuPage.tsx:40-48 | on a well-formed loan it lies between 0 and the flat interest |
| Dashboard.ScopeFor | pages/Dashboard.tsx:49-57 | staff see all three collections; a member sees exactly the records with their own member id |
| Dashboard.LoanTotals | pages/Dashboard.tsx:73-88 | the loop's three sums are principal lent, repayments received and interest earned, loan by loan |
| Dashboard.FetchStats | pages/Dashboard.tsx:48-125 | every figure from the scoped data: totals, net balance, net interest as Closing.Available, cash balance, today's count; today's in is the magnitude sum of today's non-expense transactions and today's out that of today's expense transactions, adding up to the day's magnitudes |
| Dashboard.LiquidBalanceMeaning | pages/Dashboard.tsx:100-103 | principal lent − repayments = still owed − flat interest, so the cash balance is capital − owed + interest − SHU paid |
| Dashboard.TodaySplit | pages/Dashboard.tsx:106-112 | money in and money out split the day's transactions by magnitude, both ≥ 0 |
| Dashboard.NetInterestBounded | pages/Dashboard.tsx:96-98 | on well-formed loans the net interest lies between 0 and the total flat interest |
| MemberDirectory.NetBalance | pages/NasabahPage.tsx:125-130 | net balance + loan debt = pokok + wajib + sukarela |
| MemberDirectory.NetBalanceIgnoresShu | pages/NasabahPage.tsx:125-130 | SHU does not enter the net balance |
| MemberDirectory.NetBalancesAddUp | pages/NasabahPage.tsx:125-130 | the members' net balances add up to total capital − total debt |
| MemberDirectory.Visible | pages/NasabahPage.tsx:32-38 | personal profile: only the user's record; coordinator: only the members they entered; otherwise all |
| MemberDirectory.LowerChar | pages/NasabahPage.tsx:47-50 | lower-casing maps A–Z to a–z and keeps everything else |
| MemberDirectory.Contains | pages/NasabahPage.tsx:47-50 | `includes` holds exactly when the term occurs at some position |
| MemberDirectory.Search | pages/NasabahPage.tsx:47-50 | a listed member is kept exactly when its lower-cased name or id contains the lower-cased term, and nothing else is kept |
| MemberDirectory.EmptySearchKeepsAll | pages/NasabahPage.tsx:47-50 | the empty term keeps everyone |
| MemberDirectory.SearchIgnoresCase | pages/NasabahPage.tsx:47-50 | searching ignores the case of the term |
| MemberDirectory.SearchExample | pages/NasabahPage.tsx:47-50 | "Ani" finds "ANI SUSANTI" |
| MemberDirectory.OrDash | pages/NasabahPage.tsx:102-103 | an empty field becomes "-", and any other is kept |
| MemberDirectory.NewMember | pages/NasabahPage.tsx:98-110 | the new member: wajib, sukarela and SHU at 0, dashes for empty address and phone; the record belongs to its coordinator, and anyone else's to "admin" |
| MemberDirectory.EditPatch | pages/NasabahPage.tsx:89-94 | an edit sends the four identity fields and no balance |
| MemberDirectory.Submit | pages/NasabahPage.tsx:81-113 | rejected iff the name or NIK is empty; an edit iff editing with an id; otherwise a create |
| MemberDirectory.EditKeepsBalances | pages/NasabahPage.tsx:89-94 | applied by updateNasabah, an edit keeps every id, balance and coordinator |
| MemberDirectory.CreatorSeesNewMember | pages/NasabahPage.tsx:109 | a member a coordinator creates shows up in that coordinator's list |
| TransactionView.VisibleTransactions | pages/TransaksiPage.tsx:29-31 | a member sees exactly their own transactions, and staff see all |
| TransactionView.PickableMembers | pages/TransaksiPage.tsx:35-43 | a coordinator can pick exactly the members they entered, other staff everyone, and a member no one |
| TransactionView.ActiveLoans | pages/TransaksiPage.tsx:45-46 | exactly the loans whose status is aktif |
| TransactionView.OpenForm | pages/TransaksiPage.tsx:59-68 | an empty form of kind ANGSURAN in instalment mode and SIMPANAN_SUKARELA otherwise |
| TransactionView.PickMember | pages/TransaksiPage.tsx:70-95 | picking keeps the kind; in instalment mode it fills in the first active loan's instalment and note, or clears both when there is none; otherwise it keeps both |
| TransactionView.Request | pages/TransaksiPage.tsx:97-107 | the request carries the form's member and kind, the amount (0 when empty), the username or "system" as clerk, and the note or "-" |
| TransactionView.InstalmentAutofill | pages/TransaksiPage.tsx:59-107 | opening the instalment form and picking a member with an active loan submits exactly that loan's instalment as an ANGSURAN |
| TransactionView.TypeFilter | pages/TransaksiPage.tsx:128-130 | 'all' keeps every row, and a kind keeps exactly the rows of that kind |
| TransactionView.Display | pages/TransaksiPage.tsx:204-224 | '-' exactly for the expense kinds of Types.IsExpense (withdrawals and profit shares), with the magnitude \|nominal\| |
| TransactionView.DisplayMatchesStoredSign | pages/TransaksiPage.tsx:204-224 | for a stored transaction the sign shown is the stored sign and the magnitude is the amount entered |
| Auth.LeadingSpaces | context/AuthContext.tsx:27-28 | the length of the run of whitespace that starts the string |
| Auth.TrailingStart | context/AuthContext.tsx:27-28 | where the run of whitespace that ends the string begins |
| Auth.Trim | context/AuthContext.tsx:27-28 | the result is a contiguous piece of the input with only whitespace cut off on both sides, and it neither starts nor ends with whitespace |
| Auth.TrimIdempotent | context/AuthContext.tsx:27-28 | trimming twice is trimming once |
| Auth.TrimExample | context/AuthContext.tsx:27-28 | " admin\n" trims to "admin" |
| Auth.StaffRole | context/AuthContext.tsx:45-47 | "admin" becomes admin; anything else becomes koordinator; never the member role |
| Auth.Authenticate | context/AuthContext.tsx:27-82 | no user iff neither sheet matches; the first matching staff record wins, otherwise the first matching member; the username trims to the input; member role iff a member id, which is the username |
| Auth.LoginIgnoresSurroundingSpaces | context/AuthContext.tsx:27-28 | spaces around the typed credentials never change the outcome |
| Auth.StaffBeforeMember | context/AuthContext.tsx:36-82 | a staff record matching the same input wins over a member; without one the member logs in |
| Auth.LoginEntry | context/AuthContext.tsx:57-80 | the login entry's actor is the logged-in username, with the staff role or the member activity |
| Auth.AuthSession.constructor | context/AuthContext.tsx:17-23 | the persisted session, if any, becomes the current user |
| Auth.AuthSession.Login | context/AuthContext.tsx:25-88 | succeeds iff Authenticate finds a user; then the user is set, persisted and logged; otherwise nothing changes |
| Auth.AuthSession.Logout | context/AuthContext.tsx:90-96 | the user and the persisted session are cleared; the logout of a logged-in user is logged |

## Left out

- Money is `real`, not integer. Fractional amounts are real in the source (percent interest, the reserve pool of a fractional profit), so an integer model would not match it. Floors and ceilings are modelled exactly.
- JavaScript floating point (rounding of `*`, `/`) is not modelled; arithmetic is exact.
- A remote failure in the middle of an operation is not modelled. For example, the transaction row is written remotely, the member update fails, and the whole operation is replayed on the local copy. One `remoteOk` flag decides the backend for a whole call, and the remote sheet is taken to apply creates, updates and deletes like the local list does.
- The JSON normalisation of the reads is not modelled: `|| 0` defaults, `String(...)` casts, the legacy `saldo` column and loan status defaulting by balance. Records are well-typed values.
- Log texts and timestamps are not modelled; a log entry is the actor plus a structured `Activity`. Ids, times and `today` are inputs.
- `fetch`, `localStorage` and `JSON` are not modelled; the two copies of the tables and the persisted session are fields.
- Exceptions other than addTransaksi's two errors are not modelled. In particular, a failing addTransaksi inside distributeSHU (`Distribution.ProfitShare`) leaves the tables as they were and the run goes on, instead of aborting with a partial distribution.
- `LoanMath.Instalment`, `LoanMath.QuoteFor`, `LoanMath.NewLoan`: a zero tenor yields no instalment (and no loan), where JavaScript would compute `Infinity`/`NaN` and store it.
- `MemberDirectory.LowerChar`: lower-cases ASCII letters only, not the full Unicode case mapping of `toLowerCase`. `Auth.Trim` does cover the whole ECMAScript whitespace and line-terminator set.
- `Closing.SortDesc`: insertion into a descending list; it proves sorted and a permutation, not the particular order `Array.prototype.sort` gives to equal shares.
- The `onProgress` callback is a list of reports returned by `Store.DatabaseService.DistributeSHU`, not calls interleaved with the writes.
- `TransactionView.TxForm`: the amount field is a number or empty (`Number('')` is 0); a non-numeric text (NaN) is not modelled.
- React state, rendering, formatting (`Intl.NumberFormat`), confirmations and alerts are not modelled.
- The login page, the users page and the Next.js routing files are not part of this model.
