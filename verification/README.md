# Verification of the Kamino lending client and program

A Dafny model of the vendored Kamino lending code: the client library
`klend-interface` and the on-chain program `klend` (handlers, lending operations,
checks). `dafny verify dfyconfig.toml` checks everything.

| file | what it models |
|---|---|
| `Sha256Spec.dfy`, `Sha256.dfy`, `Sha256Constants.dfy`, `Sha256KnownAnswer.dfy` | the compile-time SHA-256 of the discriminators, in place on arrays, against FIPS 180-4, and one discriminator computed |
| `ObligationSlots.dfy`, `SlotAmounts.dfy` | deposit and borrow slots: how operations fill and clear them, and what is held and owed, over every run |
| `ObligationLayout.dfy`, `ObligationRefresh.dfy` | the flat account list of `refresh_obligation`: the client that builds it, the handler that cuts and checks it |
| `NestedRefresh.dfy`, `CompoundHandlers.dfy`, `CompoundAmounts.dfy`, `CompoundPlans.dfy` | the two compound handlers: the edits of the account list, the handlers whole, what they move, and the client's lists for them end to end |
| `RefreshPlans.dfy`, `Helpers.dfy`, `ObligationContext.dfy`, `RefreshBatch.dfy` | the instruction lists of the helpers and what executing them does to fresh and stale reserves |
| `VaultAccounting.dfy`, `Liquidation.dfy`, `ReserveTransfers.dfy`, `VaultRuns.dfy` | vault balances against reserve accounting, per handler and over whole runs |
| `WithdrawQueue.dfy` | the withdraw-ticket queue: conservation, and when each instruction is accepted |
| `OwnershipTransfer.dfy` | the three-party ownership transfer over every history |
| `FlashLoans.dfy` | the pairing of flash borrow and repay within a transaction |
| `Borsh.dfy`, `InstructionData.dfy`, `AccountData.dfy`, `PdaSeeds.dfy` | argument encodings, account bytes and address seeds |
| `FixedPoint.dfy` | fixed-point ceiling division in both its forms |
| `Common.dfy` | options, results, keys and lists of keys |

Loops and in-place updates of the source are methods over arrays, sequences and
objects; each is proved equal to a specification function, and the lemmas about
that function carry the properties. Instructions that fail leave no trace, as the
runtime guarantees, so an `Outcome` contract states both the new state of a
success and the untouched state of every failure.

## Where the code differs from what is said of it

- `sha256_first8` agrees with SHA-256 up to 119 bytes, as documented, and the
  bound is exact (`Sha256.BufferIsPaddingIffShort`).
- The client attaches one referrer state per borrow. The program advances its
  iterator over them only for a borrow whose reserve charges a referral fee, so a
  charging borrow behind one that charges none is handed the wrong state and the
  refresh fails. The list works if and only if charging borrows come first
  (`ObligationRefresh.ClientListServesIff`, `LateChargingBorrowIsRefused`).
- `repay_and_withdraw_and_redeem` refreshes the repaid reserve again only when its
  borrow stays or it is the withdraw reserve. Repaid in full and still a deposit,
  it is stale at the nested refresh, which refuses it
  (`CompoundHandlers.RepayAndWithdrawAcceptedIff`, `StaleRepaidDepositIsRefused`).
- `helpers/compound.rs` and `helpers/repay.rs` attach the deposit reserves alone.
  The lists they return succeed only in special cases
  (`CompoundPlans.DepositPlanSucceedsIff`, `CompoundPlans.RepayPlanSucceedsIff`).
- `refresh_reserves_batch` writes six accounts a reserve even when price updates
  are skipped, where the handler reads two
  (`RefreshBatch.SkippedPricesAcceptedIffEmpty`).
- `ReserveInfo::from_reserve` leaves out the default key as an oracle; the program
  also leaves out a placeholder key of its own and then refuses the account the
  client writes (`RefreshBatch.OwnPricesValidIff`).
- `helpers/flash.rs` takes two token accounts of the user. The program compares
  all accounts of borrow and repay, so the pair passes only when they are one
  (`FlashLoans.ClientPairPassesIff`).
- The client's `BorrowOrderConfigArgs` lacks the fifth field of the handler's
  (`InstructionData.BorrowOrderNeverDecodes`).
- The net withdrawal of a liquidation is exact only for amounts on the right side
  of 2^63 (`Liquidation.NetIsExactIff`).
- A short URL of 121 bytes shares its preimage with an obligation, but the seed
  limit of the runtime rules such a URL out (`PdaSeeds.DerivablePreimagesSeparate`).
- The comments of `C-1-div_ceil_off_by_one.rs` call its first form one too large.
  The code is not: it is the ceiling, and the forms agree wherever both are
  defined (`FixedPoint.FormsAgree`).

## Assumptions

- Amounts that follow from prices, rates and limits are arbitrary arguments: how
  much is settled, withdrawn, redeemable or distributed, what a lending operation
  leaves as available amount and collateral supply, and which ticket amounts are
  worth the configured minimum.
- Which reserves charge a referral fee stays the same within one transaction.
- Derived addresses are distinct from one another and from reserves
  (`NestedRefresh.SeparateAddresses`, `ObligationRefresh.SeparateStates`,
  `VaultAccounting.WellFormed`), reserve addresses are not the default key, nobody
  outside the program signs for the market authority, and the discriminators of
  one instruction table are distinct.
- A liquidation that redeems nothing leaves the available amount of a different
  withdraw reserve alone. The code does so, but no check covers that reserve, so
  over runs it is a premise on events (`VaultRuns.Permitted`).
- Over runs, a handler that first refreshes a reserve is two events, the
  distribution of rewards and the handler proper.

## Model

| member | source | states |
|---|---|---|
| Sha256.Sha256First8 | klend/libs/klend-interface/src/discriminators.rs:98-155 | for every message of at most 119 bytes the result is the first 8 bytes of SHA-256; it panics exactly from 128 bytes on; in between it is the digest of the overwritten buffer |
| Sha256.CompressBlock | klend/libs/klend-interface/src/discriminators.rs:36-94 | the 64-round loop over eight working variables is the compression of section 6.2.2 of FIPS 180-4, which is defined recursively |
| Sha256.ExpandSchedule | klend/libs/klend-interface/src/discriminators.rs:37-55 | the schedule loops fill all 64 words as the recursive schedule defines them, although they add the terms in another order and rotate instead of shifting |
| Sha256.PadInPlace | klend/libs/klend-interface/src/discriminators.rs:104-121 | the buffer written in place, cut at the padded length, is message, marker, zeros, then the 8-byte length over whatever was there; all indices stay in bounds below 128 bytes |
| Sha256.HashBuffer | klend/libs/klend-interface/src/discriminators.rs:123-143 | one or two fixed blocks hash to the same state as the block-by-block recursion |
| Sha256.BufferIsPaddingIffShort | klend/libs/klend-interface/src/discriminators.rs:96-121 | the cut buffer is the padded message of section 5.1.1 of FIPS 180-4 if and only if the message has at most 119 bytes |
| Sha256.LongMessagesLoseTheirTail | klend/libs/klend-interface/src/discriminators.rs:113-121 | from 120 to 127 bytes two messages of one length share a buffer exactly when their first 120 bytes agree |
| Sha256Spec.ZeroBytesIsLeast | klend/libs/klend-interface/src/discriminators.rs:105 | the padding is the least that completes whole 64-byte blocks |
| Sha256Spec.WordBytesInverse | klend/libs/klend-interface/src/discriminators.rs:147-154 | writing a word out most significant byte first gives back the bytes it was read from |
| Sha256Constants.RowsHoldThePrimes | klend/libs/klend-interface/src/discriminators.rs:23-32 | the eight rows of the table hold exactly the primes below 312, which are 64 |
| Sha256Constants.RoundConstantsAreCubeRoots | klend/libs/klend-interface/src/discriminators.rs:23-32 | each of the 64 round constants is the first 32 fractional bits of the cube root of its prime |
| Sha256Constants.InitialHashIsSquareRoots | klend/libs/klend-interface/src/discriminators.rs:99-102 | each initial hash word is the first 32 fractional bits of the square root of its prime |
| Sha256KnownAnswer.NameHashesToDiscriminator | klend/programs/klend/src/utils/consts.rs:194-195 | the eight bytes that the program has written out for its call into the vault program are the SHA-256 prefix of that instruction's name; the whole digest is computed, all 64 rounds of it |
| ObligationLayout.BuildRefreshObligationRemainingAccounts | klend/libs/klend-interface/src/helpers/common.rs:23-49 | the three loops push the deposits, the borrows and one referrer state per borrow, in that order |
| ObligationLayout.ClientListIsTheOnlyOneThatLinesUp | klend/programs/klend/src/handlers/handler_refresh_obligation.rs:14-55 | for every obligation, holes anywhere, a list passes the count check with every slot facing its own account if and only if it is the list the client builds |
| ObligationLayout.SliceOfClientList | klend/programs/klend/src/handlers/handler_refresh_obligation.rs:36-55 | cutting the client list gives back exactly the active deposits, active borrows and referrer states in slot order |
| ObligationLayout.AlignedMeansActiveReserves | klend/libs/klend-interface/src/helpers/info.rs:105-124 | a list faces the slots of an array one by one if and only if it is the filtered reserves of that array |
| ObligationSlots.NoReserveHasTwoSlots | klend/programs/klend/src/state/obligation.rs:336-421 | after any run of deposits, withdrawals, borrows, repayments, liquidations and rollovers on an obligation just opened, no reserve has two deposit slots and none two borrow slots |
| ObligationSlots.StepKeepsOneSlotEach | klend/programs/klend/src/state/obligation.rs:243-268 | every single operation keeps one slot a reserve, also one that clears a slot and one that fills a hole |
| SlotAmounts.SlotsAreBalances | klend/programs/klend/src/state/obligation.rs:737-752 | after any run from an opened obligation, what is held in a reserve is deposits less withdrawals, what is owed to it loans and interest less repayments, liquidations and rollovers included, and its slot, if it has one, says exactly that |
| SlotAmounts.StepMoves | klend/programs/klend/src/state/obligation.rs:243-268 | every successful event moves exactly its own amounts in its own reserves and nothing of any other |
| SlotAmounts.AddRaises | klend/programs/klend/src/state/obligation.rs:737-743 | a deposit or a loan adds its amount on top of what the reserve had |
| SlotAmounts.SettleLowers | klend/programs/klend/src/state/obligation.rs:746-752 | a withdrawal or a repayment takes exactly its amount off |
| SlotAmounts.AddAcceptedIff | klend/programs/klend/src/state/obligation.rs:336-354 | there is room exactly when the reserve has a slot or some slot is a hole |
| SlotAmounts.WithdrawnIff | klend/programs/klend/src/state/obligation.rs:255-268 | a withdrawal is possible exactly for a positive amount that is held |
| SlotAmounts.RepaidIff | klend/programs/klend/src/state/obligation.rs:243-250 | a repayment is possible exactly for a positive amount that is owed |
| ObligationSlots.ReducedSlotReserves | klend/programs/klend/src/state/obligation.rs:243-268 | a reduced slot keeps the list of active reserves or loses exactly its own entry |
| ObligationSlots.CreditedSlotReserves | klend/programs/klend/src/state/obligation.rs:336-354 | a credited slot keeps the list of active reserves, or gains the new reserve exactly where its slot stands among the active ones |
| ObligationRefresh.ObligationAccount.RefreshObligation | klend/programs/klend/src/handlers/handler_refresh_obligation.rs:10-68 | the handler on the loaded account is the specified refresh, count and key and staleness errors included, and changes nothing when it fails |
| ObligationRefresh.RefreshBorrows | klend/programs/klend/src/lending_market/lending_operations.rs:1675-1838 | the loop over borrow slots with its two iterators is the slot-by-slot check |
| ObligationRefresh.RefreshDeposits | klend/programs/klend/src/lending_market/lending_operations.rs:1536-1674 | the loop over deposit slots with its iterator is the slot-by-slot check |
| ObligationRefresh.RefreshAcceptedIff | klend/programs/klend/src/lending_market/lending_operations.rs:1839-1927 | a list is accepted if and only if it names the reserves of all active slots in slot order, brings as many referrer states as borrows with the ones asked for in front, and every active reserve is current |
| ObligationRefresh.RefreshRefusals | klend/programs/klend/src/lending_market/lending_operations.rs:3089-3170 | a list is called stale only when some active reserve is, wrong only when it does not serve, and a referrer state is blamed only where there is a referrer |
| ObligationRefresh.ClientListServesIff | klend/programs/klend/src/lending_market/lending_operations.rs:2446-2525 | the list of the client serves its obligation if and only if no borrow that charges a referral fee follows one that charges none |
| ObligationRefresh.ClientListAcceptedIff | klend/libs/klend-interface/src/helpers/common.rs:13-49 | the handler accepts the list of the client if and only if every active reserve is current and charging borrows come first |
| ObligationRefresh.LateChargingBorrowIsRefused | klend/programs/klend/src/lending_market/lending_operations.rs:2466-2473 | a list of the client that is refused: two borrows, a referrer, only the second charging |
| NestedRefresh.EditRealignsAfterWithdraw | klend/programs/klend/src/handlers/handler_deposit_and_withdraw.rs:115-152 | after any partial or full withdrawal the edited list lines up with the new slots, even when the withdrawn reserve is also borrowed from |
| NestedRefresh.EditKeepsServing | klend/programs/klend/src/handlers/handler_deposit_and_withdraw.rs:115-152 | any list that serves the obligation before the withdrawal, whatever its surplus referrer states, serves it after the edit |
| NestedRefresh.DropFirstOccurrence | klend/programs/klend/src/handlers/handler_deposit_and_withdraw.rs:124-140 | the filter with its flag removes the first occurrence of the reserve and nothing else |
| NestedRefresh.FullWithdrawalTest | klend/programs/klend/src/handlers/handler_deposit_and_withdraw.rs:116-122 | the collateral amount reads zero exactly when the slot was cleared, given that no reserve has two slots |
| CompoundHandlers.ProcessDepositAndWithdraw | klend/programs/klend/src/handlers/handler_deposit_and_withdraw.rs:15-168 | the handler on the loaded account is deposit, reserve refresh, nested refresh, withdrawal, edit, second nested refresh; every error in order, nothing changed by a failure |
| CompoundHandlers.DepositAndWithdrawAcceptedIff | klend/programs/klend/src/handlers/handler_deposit_and_withdraw.rs:15-168 | with every active reserve current it succeeds if and only if the reserves differ, the amounts are positive and possible, the permission is given, and the list, once stripped, serves the obligation the deposit leaves; a list that lines up then lines up at the end |
| CompoundAmounts.DepositAndWithdrawSucceedsIff | klend/programs/klend/src/handlers/handler_deposit_and_withdraw.rs:15-168 | the same in terms of what is held: room for the deposit reserve, and a withdrawal of no more than the withdraw reserve holds |
| CompoundAmounts.DepositAndWithdrawMoves | klend/programs/klend/src/handlers/handler_deposit_and_withdraw.rs:15-168 | success adds the collateral to the deposit reserve's holding, takes the withdrawn amount from the withdraw reserve's, leaves every other deposit and every borrow alone, and leaves obligation and withdraw reserve stale |
| CompoundAmounts.DepositAndWithdrawRefusals | klend/programs/klend/src/handlers/handler_deposit_and_withdraw.rs:15-168 | a refusal with everything up to date names the argument, amount or account at fault |
| CompoundAmounts.PermissionerComesLast | klend/programs/klend/src/utils/permissioning.rs:100-134 | permission is given and stripped exactly when the list is the rest and the permissioner behind it |
| CompoundHandlers.FinishDepositNeverFails | klend/programs/klend/src/handlers/handler_deposit_and_withdraw.rs:100-168 | once the withdrawal went through, the reserve refresh, the edit and the second nested refresh cannot fail |
| NestedRefresh.EditRealignsAfterRepay | klend/programs/klend/src/handlers/handler_repay_and_withdraw_redeem.rs:117-169 | after any repayment the edited list lines up with the new slots, even when the repaid reserve is also a deposit |
| NestedRefresh.DropRepaidAccounts | klend/programs/klend/src/handlers/handler_repay_and_withdraw_redeem.rs:133-153 | the reverse scan drops every copy of the referrer state and the last copy of the reserve |
| CompoundHandlers.FindPosition | klend/programs/klend/src/handlers/handler_repay_and_withdraw_redeem.rs:208-211 | the first position of a key, or none exactly when it is absent |
| CompoundHandlers.ProcessRepayAndWithdraw | klend/programs/klend/src/handlers/handler_repay_and_withdraw_redeem.rs:48-244 | the handler on the loaded account is repayment, conditional reserve refresh, edit, nested refresh, withdrawal, conditional reserve refresh, edit, nested refresh; every error in order, nothing changed by a failure |
| CompoundHandlers.RepayAndWithdrawAcceptedIff | klend/programs/klend/src/handlers/handler_repay_and_withdraw_redeem.rs:95-223 | with a list that lines up and every active reserve current it succeeds if and only if the amounts are possible, charging borrows come first among those left, and the repaid reserve is refreshed again (borrow count unchanged, or it is the withdraw reserve) or is no deposit; in the last case alone the error is ReserveStale; the final list lines up |
| CompoundAmounts.RepayAndWithdrawSucceedsIff | klend/programs/klend/src/handlers/handler_repay_and_withdraw_redeem.rs:95-223 | the same in terms of what is held and owed: the repaid reserve is still owed something, is the one withdrawn from, or holds no deposit |
| CompoundAmounts.RepayAndWithdrawMoves | klend/programs/klend/src/handlers/handler_repay_and_withdraw_redeem.rs:48-244 | success takes the settled amount off the repay reserve's debt and the withdrawn amount off the withdraw reserve's holding, and leaves every other borrow and deposit alone; which reserves are stale afterwards |
| CompoundAmounts.RepayAndWithdrawRefusals | klend/programs/klend/src/handlers/handler_repay_and_withdraw_redeem.rs:48-244 | a refusal names the amount or account at fault; only a repaid reserve left stale, or a withdraw reserve without deposit, is called stale |
| CompoundHandlers.StaleRepaidDepositIsRefused | klend/programs/klend/src/handlers/handler_repay_and_withdraw_redeem.rs:99-112 | the refused case at its smallest: deposits in R and W, the borrow of R repaid in full, part of W withdrawn, the list R, W, R, everything current |
| CompoundHandlers.FinishRepayNeverFails | klend/programs/klend/src/handlers/handler_repay_and_withdraw_redeem.rs:178-223 | once the withdrawal went through, the last edit finds its position and the last nested refresh cannot fail |
| CompoundHandlers.Deposit | klend/programs/klend/src/lending_market/lending_operations.rs:319-412 | credits the slot of the reserve or the first hole and leaves reserve and obligation stale, or reports the first refusal |
| CompoundHandlers.Withdraw | klend/programs/klend/src/lending_market/lending_operations.rs:413-573 | reduces or clears the slot of the reserve and leaves reserve and obligation stale, or reports the first refusal |
| CompoundHandlers.Repay | klend/programs/klend/src/lending_market/lending_operations.rs:726-816 | reduces or clears the borrow slot and leaves reserve and obligation stale, or reports the first refusal |
| CompoundAmounts.DepositMoves | klend/programs/klend/src/lending_market/lending_operations.rs:319-412 | the deposit goes on top of what the reserve's slot held, and nothing else changes |
| CompoundAmounts.DepositAcceptedIff | klend/programs/klend/src/lending_market/lending_operations.rs:319-412 | accepted exactly for a positive amount, up-to-date reserve and obligation, and room |
| CompoundAmounts.WithdrawMoves | klend/programs/klend/src/lending_market/lending_operations.rs:413-573 | the withdrawal comes out of what the reserve's slot held, and nothing else changes |
| CompoundAmounts.WithdrawAcceptedIff | klend/programs/klend/src/lending_market/lending_operations.rs:413-573 | accepted exactly for a positive amount that is held, with reserve and obligation up to date |
| CompoundAmounts.RepayMoves | klend/programs/klend/src/lending_market/lending_operations.rs:726-816 | the repayment comes off what is owed to the reserve, and nothing else changes |
| CompoundAmounts.RepayAcceptedIff | klend/programs/klend/src/lending_market/lending_operations.rs:726-816 | accepted exactly for a positive amount that is owed, with reserve and obligation up to date |
| NestedRefresh.CompoundListAcceptedIff | klend/libs/klend-interface/src/helpers/compound.rs:45-93 | the list of the compound helper passes the count check of the first nested refresh if and only if the deposit reserve was already active and nothing is borrowed |
| NestedRefresh.RepayListAcceptedIff | klend/libs/klend-interface/src/helpers/repay.rs:100-141 | the list of the repay-and-withdraw helper passes the count check of the first nested refresh if and only if the only borrow is repaid in full and its reserve is no deposit; the edit then left it as it was |
| CompoundPlans.DepositPlanSucceedsIff | klend/libs/klend-interface/src/helpers/compound.rs:25-96 | with the data of every active reserve supplied, the whole list of the compound helper succeeds if and only if the reserves differ, the deposit reserve is an active deposit, nothing is borrowed, no permissioner is wanted, and the amounts are positive and possible |
| CompoundPlans.RepayPlanSucceedsIff | klend/libs/klend-interface/src/helpers/repay.rs:83-144 | with the data of every active reserve supplied, the whole list of the repay-and-withdraw helper succeeds if and only if the only borrow is repaid in full, its reserve is no deposit, and the withdrawal is possible |
| CompoundPlans.DepositReservesServeIff | klend/libs/klend-interface/src/helpers/compound.rs:45-93 | the attached list serves the obligation the deposit leaves if and only if no permissioner is wanted, the deposit reserve was active, and nothing is borrowed |
| RefreshPlans.BuildRefreshAllObligationReserves | klend/libs/klend-interface/src/helpers/common.rs:80-105 | the loop with its seen list is the recursive builder |
| RefreshPlans.RefreshAllOnce | klend/libs/klend-interface/src/helpers/common.rs:85-104 | the builder refreshes each resolvable key outside the skip list exactly once and nothing else |
| RefreshPlans.PlanReachesMainIff | klend/libs/klend-interface/src/helpers/borrow.rs:22-76 | from any state a plan reaches its one main operation if and only if every active reserve is current, a target or supplied, and charging borrows come first; there every active reserve, every target and the obligation are up to date |
| RefreshPlans.PlanIsMinimalIff | klend/libs/klend-interface/src/helpers/repay.rs:102-108 | with all data supplied the refreshes are exactly the active reserves and targets, and as many as that set has members if and only if the targets differ |
| RefreshPlans.RefreshAllForObligation | klend/libs/klend-interface/src/helpers/refresh.rs:78-102 | fails with the first unresolved key in deposits-then-borrows order, and otherwise is the builder with nothing to skip plus the obligation refresh |
| RefreshPlans.RefreshAllForObligationRunsIff | klend/libs/klend-interface/src/helpers/refresh.rs:62-101 | when every key resolves, the list runs from any state if and only if charging borrows come first, and leaves everything up to date |
| Helpers.Borrow | klend/libs/klend-interface/src/helpers/borrow.rs:27-76 | is a one-target plan, so soundness and minimality apply |
| Helpers.RolloverFixedTermBorrow | klend/libs/klend-interface/src/helpers/borrow.rs:85-133 | is a plan on source and target, or on the source alone when they are one reserve |
| Helpers.RolloverIsMinimal | klend/libs/klend-interface/src/helpers/borrow.rs:98-109 | a rollover refreshes each active reserve, source and target exactly once in both branches |
| Helpers.Repay | klend/libs/klend-interface/src/helpers/repay.rs:26-69 | is a one-target plan |
| Helpers.RepayAndWithdraw | klend/libs/klend-interface/src/helpers/repay.rs:83-144 | is a two-target plan carrying the deposit reserves |
| Helpers.Liquidate | klend/libs/klend-interface/src/helpers/liquidate.rs:32-97 | is a two-target plan carrying the full refresh list |
| Helpers.DepositToObligation | klend/libs/klend-interface/src/helpers/deposit.rs:61-101 | is a one-target plan |
| Helpers.Withdraw | klend/libs/klend-interface/src/helpers/withdraw.rs:29-75 | is a one-target plan |
| Helpers.WithdrawCollateral | klend/libs/klend-interface/src/helpers/withdraw.rs:84-123 | is a one-target plan |
| Helpers.DepositAndWithdraw | klend/libs/klend-interface/src/helpers/compound.rs:25-96 | is a two-target plan carrying the deposit reserves |
| Helpers.RequestElevationGroup | klend/libs/klend-interface/src/helpers/obligation.rs:20-55 | is a plan without targets carrying the full refresh list |
| Helpers.BuildDepositReservesRemaining | klend/libs/klend-interface/src/helpers/common.rs:65-71 | the accounts are the deposit reserves in order |
| ObligationContext.ReserveAddressesForObligation | klend/libs/klend-interface/src/helpers/info.rs:258-279 | the result is strictly increasing and holds exactly the reserves of active deposit and borrow slots |
| ObligationContext.IncreasingListUnique | klend/libs/klend-interface/src/helpers/info.rs:276-278 | a strictly increasing list is determined by its members, so the result is unique |
| ObligationContext.Dedup | klend/libs/klend-interface/src/helpers/info.rs:277 | keeps the first of every run of equal neighbours |
| ObligationContext.DedupIncreasing | klend/libs/klend-interface/src/helpers/info.rs:277 | keeps the members and makes a sorted list strictly increasing |
| ObligationContext.ReserveAddressesAre | klend/libs/klend-interface/src/helpers/info.rs:258-279 | the addresses to fetch are exactly the active reserves, each once, in key order |
| ObligationContext.SortKeysSorted | klend/libs/klend-interface/src/helpers/info.rs:276 | sorting orders the keys and keeps the members |
| ObligationContext.Borrow | klend/libs/klend-interface/src/helpers/context.rs:8-28 | reports an unknown reserve, otherwise the one-target plan over the context |
| ObligationContext.Liquidate | klend/libs/klend-interface/src/helpers/context.rs:194-229 | reports the first unknown reserve, repay before withdraw, otherwise the two-target plan |
| ObligationContext.MissingReserveIsReported | klend/libs/klend-interface/src/helpers/context.rs:194-229 | a list is returned exactly when the reserves are known, and otherwise the first unknown one is reported |
| ObligationContext.FetchedContextReachesMain | klend/libs/klend-interface/src/helpers/info.rs:251-304 | a context made from the accounts at exactly the listed addresses knows every active reserve, and every plan it returns reaches its main operation from any state, if and only if charging borrows come first |
| RefreshBatch.BuildBatch | klend/libs/klend-interface/src/helpers/refresh.rs:33-60 | the pushes flatten each reserve into six accounts in order |
| RefreshBatch.ProcessBatch | klend/programs/klend/src/handlers/handler_refresh_reserves_batch.rs:26-116 | the loop over one iterator reads the list as the recursive reader does, with the same error at the same place: market, emergency, version, oracle configuration, price accounts, price |
| RefreshBatch.AcceptedBatchIsSound | klend/programs/klend/src/handlers/handler_refresh_reserves_batch.rs:26-116 | whatever list is accepted consists of whole groups, each a known reserve of the market it names, running and not deprecated, with price accounts its configuration names |
| RefreshBatch.ReserveRefusals | klend/programs/klend/src/handlers/handler_refresh_reserves_batch.rs:61-94 | each refusal before the prices names what is wrong with reserve or market, and without one nothing is |
| RefreshBatch.PriceRefusals | klend/programs/klend/src/state/token_info.rs:76-182 | each refusal of the prices names the account or configuration at fault, and only a reserve whose price is due meets one |
| RefreshBatch.BatchRoundTripIff | klend/programs/klend/src/handlers/handler_refresh_reserves_batch.rs:11-24 | with price updates the handler performs exactly the refreshes asked for if and only if every reserve is served: its market runs, it is not deprecated, no oracle is the program id, and a price that is due can be read from the accounts the client wrote |
| RefreshBatch.OwnPricesValidIff | klend/programs/klend/src/state/token_info.rs:76-182 | the price accounts the client derives from a reserve pass the validation if and only if no oracle is the placeholder the client does not know and the switchboard keys go together |
| RefreshBatch.SkippedPricesAcceptedIffEmpty | klend/programs/klend/src/handlers/handler_refresh_reserves_batch.rs:61-94 | without price updates the list of the helper is accepted only when it is empty |
| VaultAccounting.ApplyConserves | klend/programs/klend/src/handlers/handler_borrow_obligation_liquidity.rs:112-160 | a list of transfers changes every account by its credits less its debits |
| VaultAccounting.HandlerNeverDrifts | klend/programs/klend/src/lending_market/lending_checks.rs:454-513 | whatever the lending operation did and wherever tokens went, success leaves the own gap between vault, available amount and rewards unchanged and can only widen others by what they received |
| VaultAccounting.PostTransferCheckIff | klend/programs/klend/src/lending_market/lending_checks.rs:454-513 | the check passes if and only if the vault covered the available amount and both moved by exactly the announced amount; below that it panics |
| VaultAccounting.PostTransferRefusals | klend/programs/klend/src/lending_market/lending_checks.rs:454-513 | each refusal names an equation that fails, or an overflow; the last equation of the check can never be the one that fails |
| VaultAccounting.DepositAcceptedIff | klend/programs/klend/src/handlers/handler_deposit_reserve_liquidity.rs:62-100 | accepted exactly when the user's account can send, the vault can receive, and the books moved by the amount |
| VaultAccounting.DepositPays | klend/programs/klend/src/handlers/handler_deposit_reserve_liquidity.rs:62-100 | on balances: the vault gains what the user's account loses, no other account changes |
| VaultAccounting.PayOutAcceptedIff | klend/programs/klend/src/handlers/handler_redeem_reserve_collateral.rs:51-91 | accepted exactly when the destination can receive and the books moved by the amount |
| VaultAccounting.PayOutPays | klend/programs/klend/src/handlers/handler_redeem_reserve_collateral.rs:51-91 | on balances: the destination gains what the vault loses, no other account changes |
| VaultAccounting.BorrowAcceptedIff | klend/programs/klend/src/handlers/handler_borrow_obligation_liquidity.rs:132-168 | accepted exactly when both receivers can receive and the books moved by loan and fee |
| VaultAccounting.BorrowPays | klend/programs/klend/src/handlers/handler_borrow_obligation_liquidity.rs:132-158 | on balances: the borrower gains the loan, the fee receiver the fee, the vault pays both, no other account changes |
| VaultAccounting.FlashRepayAcceptedIff | klend/programs/klend/src/handlers/handler_flash_repay_reserve_liquidity.rs:22-98 | accepted exactly when the user's account covers amount and fee, both receivers can receive, and the books moved by the amount |
| VaultAccounting.FlashRepayPays | klend/programs/klend/src/handlers/handler_flash_repay_reserve_liquidity.rs:22-98 | on balances: the vault gains the amount, the fee receiver the fee, the user pays both, no other account changes |
| VaultAccounting.Market.Deposit | klend/programs/klend/src/handlers/handler_deposit_reserve_liquidity.rs:62-100 | one transfer in, one additive check; who pays whom and what is booked; a failure restores everything |
| VaultAccounting.Market.PayOut | klend/programs/klend/src/handlers/handler_redeem_reserve_collateral.rs:51-91 | one transfer out, one subtractive check; who pays whom and what is booked; a failure restores everything |
| VaultAccounting.Market.Borrow | klend/programs/klend/src/handlers/handler_borrow_obligation_liquidity.rs:112-168 | up to two transfers out under one subtractive check on their sum; loan to the borrower, fee to the fee receiver |
| VaultAccounting.Market.FlashRepay | klend/programs/klend/src/handlers/handler_flash_repay_reserve_liquidity.rs:22-98 | the repayment is checked and the fee goes to the fee receiver; the user pays both |
| Liquidation.LiquidationAcceptedIff | klend/programs/klend/src/handlers/handler_liquidate_obligation_and_redeem_reserve_collateral.rs:229-272 | in all four cases and for all u64 amounts: once transferred, it is accepted if and only if every touched vault covered its available amount, its accounting moved by the true net change, the signed net is exact, and no more was repaid than asked for |
| Liquidation.LiquidationPays | klend/programs/klend/src/handlers/handler_liquidate_obligation_and_redeem_reserve_collateral.rs:180-228 | on balances: the liquidator's source pays the repay vault, the withdraw vault pays the destination, which pays the fee; both reserves take over what the lending operation left, nothing else changes |
| Liquidation.TooLargeRepaymentIsNamed | klend/programs/klend/src/lending_market/lending_checks.rs:837-844 | a repayment beyond the wanted one is named as such exactly when everything else is in order |
| Liquidation.NetIsExactIff | klend/programs/klend/src/handlers/handler_liquidate_obligation_and_redeem_reserve_collateral.rs:229-241 | the cast net is the true one exactly when a separate withdrawal is below 2^63, or both amounts of a shared vault are on the same side of 2^63 |
| Liquidation.LiquidationNeverDrifts | klend/programs/klend/src/handlers/handler_liquidate_obligation_and_redeem_reserve_collateral.rs:243-272 | an accepted liquidation leaves the gap of every touched reserve unchanged; an untouched withdraw reserve, which nothing checks, is stated apart |
| Liquidation.Liquidate | klend/programs/klend/src/handlers/handler_liquidate_obligation_and_redeem_reserve_collateral.rs:138-272 | snapshots, transfers and branching checks yield the specified outcome; who pays whom and what is booked; a failure restores everything |
| ReserveTransfers.InitReserve | klend/programs/klend/src/handlers/handler_init_reserve.rs:38-110 | opens both vaults, records the initial amount (none for a freezing mint) as available and as collateral supply, and moves it in; nothing changes on failure |
| ReserveTransfers.InitPays | klend/programs/klend/src/handlers/handler_init_reserve.rs:72-110 | a freezing mint opens an empty reserve and nobody pays; otherwise the minimum is what the source pays, what the vault opens with, and what is booked and minted |
| ReserveTransfers.InitAcceptedIff | klend/programs/klend/src/handlers/handler_init_reserve.rs:38-110 | accepted exactly when reserve and vaults are new and the source can pay |
| ReserveTransfers.InitOpensAtZero | klend/programs/klend/src/handlers/handler_init_reserve.rs:72-110 | a new reserve opens with vault, available amount and collateral supply equal and disturbs no other |
| ReserveTransfers.DistributeRewards | klend/programs/klend/src/state/reserve.rs:586-645 | moves rewards into the available amount, or refuses what would overflow |
| ReserveTransfers.DistributingMoves | klend/programs/klend/src/state/reserve.rs:628-645 | exactly the amount changes from rewards to available, and no token moves |
| ReserveTransfers.DistributingNeverDrifts | klend/programs/klend/src/state/reserve.rs:628-645 | distributing rewards changes no gap |
| ReserveTransfers.TopUpRewards | klend/programs/klend/src/handlers/handler_topup_reserve_rewards.rs:11-61 | a transfer in, booked as rewards, under its own check; a failure restores everything |
| ReserveTransfers.ToppingUpPays | klend/programs/klend/src/handlers/handler_topup_reserve_rewards.rs:11-61 | the source pays the vault and the rewards grow by as much; exactly when that is accepted |
| ReserveTransfers.ToppingUpNeverDrifts | klend/programs/klend/src/lending_market/lending_checks.rs:539-564 | topping up changes no gap |
| ReserveTransfers.CollectFees | klend/programs/klend/src/handlers/handler_redeem_fees.rs:11-43 | available amount and vault give up the same amount, unchecked |
| ReserveTransfers.CollectingPays | klend/programs/klend/src/handlers/handler_redeem_fees.rs:11-43 | the vault pays the destination out of the available amount; exactly when that is accepted |
| ReserveTransfers.CollectingOnlyDonates | klend/programs/klend/src/handlers/handler_withdraw_referrer_fees.rs:16-52 | collecting fees widens a gap only where the fee account is itself a supply vault |
| ReserveTransfers.RolloverBorrow | klend/programs/klend/src/lending_market/lending_checks.rs:764-835 | one transfer between two supply vaults under four equations, or nothing at all within one reserve; a failure restores everything |
| ReserveTransfers.RolloverPays | klend/programs/klend/src/lending_market/lending_checks.rs:764-835 | the target's vault pays the source's; exactly when that is accepted |
| ReserveTransfers.RolloverNeverDrifts | klend/programs/klend/src/lending_market/lending_operations.rs:1024-1155 | a rollover changes no gap, neither of the two reserves nor of any other |
| VaultRuns.StepOnlyDonates | klend/programs/klend/src/handlers/handler_deposit_reserve_liquidity.rs:93-100 | one event of any of eleven kinds changes the gap of any reserve by donations alone |
| VaultRuns.GapIsDonations | klend/programs/klend/src/handlers/handler_redeem_reserve_collateral.rs:84-91 | over every run the gap grows by exactly the donations |
| VaultRuns.VaultsAlwaysCovered | klend/programs/klend/src/lending_market/lending_checks.rs:454-513 | over every run from a covered market every supply vault holds at least available amount and undistributed rewards |
| WithdrawQueue.Queue.EnqueueToWithdraw | klend/programs/klend/src/handlers/handler_enqueue_to_withdraw.rs:47-112 | issues the next number, fills the ticket, moves the cTokens, or reports the first refusal, a zero amount and a ticket below the minimum value among them; nothing changes on failure |
| WithdrawQueue.Queue.CancelWithdrawTicket | klend/programs/klend/src/handlers/handler_cancel_withdraw_ticket.rs:54-101 | partial or full cancellation, more than is left counting as all; every refusal in order, among them a remainder below the minimum value |
| WithdrawQueue.Queue.WithdrawQueuedLiquidity | klend/programs/klend/src/handlers/handler_withdraw_queued_liquidity.rs:24-210 | serves, skips or invalidates the ticket at the head, burning what the reserve can redeem of it; the answer is false exactly when the ticket was invalidated; every refusal in order |
| WithdrawQueue.Queue.RecoverInvalidTicketCollateral | klend/programs/klend/src/handlers/handler_recover_invalid_ticket_collateral.rs:23-52 | returns the collateral of an invalid ticket and closes it without writing the reserve |
| WithdrawQueue.EnqueueAcceptedIff | klend/programs/klend/src/lending_market/lending_operations.rs:615-627 | a ticket is issued exactly when issuance is enabled and the amount is positive, worth the minimum and in the wallet; what that moves |
| WithdrawQueue.CancelAcceptedIff | klend/programs/klend/src/lending_market/lending_operations.rs:675-704 | a cancellation, partial ones included, is accepted exactly for the owner of a valid non-empty ticket, while enabled, for a positive amount, leaving nothing or at least the minimum |
| WithdrawQueue.CancelMoves | klend/programs/klend/src/handlers/handler_cancel_withdraw_ticket.rs:54-101 | what was requested, or all there is, goes from ticket, queue and vault to the owner's wallet |
| WithdrawQueue.WithdrawAcceptedIff | klend/programs/klend/src/handlers/handler_withdraw_queued_liquidity.rs:24-210 | the head is served exactly when redemption is enabled and it is cancelled, unusable, fully redeemable, or partly so to an existing account with part and rest worth the minimum |
| WithdrawQueue.WithdrawMoves | klend/programs/klend/src/lending_market/lending_operations.rs:628-674 | what can be redeemed is burned from the owner's vault; an unusable ticket is invalidated without moving anything; a cancelled one is closed |
| WithdrawQueue.RecoverAcceptedIff | klend/programs/klend/src/handlers/handler_recover_invalid_ticket_collateral.rs:23-52 | an allowed signer recovers all of an invalid ticket, to its owner, and nobody else and nothing else |
| WithdrawQueue.TicketsAreWorthTheMinimum | klend/programs/klend/src/lending_market/lending_operations.rs:944-965 | no run from the empty queue leaves a ticket, issued, cancelled in part or redeemed in part, that holds something worth less than the minimum |
| WithdrawQueue.EnqueueRefusals | klend/programs/klend/src/lending_market/lending_operations.rs:615-627 | each refusal names what is wrong |
| WithdrawQueue.CancelRefusals | klend/programs/klend/src/handlers/handler_cancel_withdraw_ticket.rs:54-101 | each refusal names what is wrong |
| WithdrawQueue.WithdrawRefusals | klend/programs/klend/src/handlers/handler_withdraw_queued_liquidity.rs:24-210 | each refusal names what is wrong |
| WithdrawQueue.StepKeepsInv | klend/programs/klend/src/handlers/handler_withdraw_queued_liquidity.rs:163-185 | every step keeps the invariant: numbers, validity ahead of the head, queued amount equal to the sum over valid tickets, vaults covering their tickets |
| WithdrawQueue.StepSurplus | klend/programs/klend/src/handlers/handler_cancel_withdraw_ticket.rs:54-101 | what a vault holds beyond the open tickets of its owner changes by donations alone |
| WithdrawQueue.StepConservesHoldings | klend/programs/klend/src/handlers/handler_enqueue_to_withdraw.rs:47-112 | the own, queued and burned cTokens of an owner add up to a constant |
| WithdrawQueue.RunConserves | klend/programs/klend/src/handlers/handler_recover_invalid_ticket_collateral.rs:23-82 | over every run the invariant holds and each vault is its owner's open tickets plus the donations to it |
| WithdrawQueue.RunFromEmpty | klend/libs/klend-interface/src/state/reserve.rs:334-339 | from an empty queue and without donations every vault is exactly its open tickets, the queued amount exactly the valid tickets, and the cTokens of each owner constant |
| WithdrawQueue.IssuedAreConsecutive | klend/programs/klend/src/handlers/handler_enqueue_to_withdraw.rs:47-75 | a run hands out consecutive numbers, so no number twice, all below the next one |
| WithdrawQueue.HeadStepsForwardIff | klend/programs/klend/src/lending_market/lending_operations.rs:628-674 | with redemption enabled the head of a non-empty queue steps forward if and only if its ticket is cancelled, its destination is unusable, or the reserve can redeem all of it; otherwise what exactly is paid out, or which refusal keeps the queue waiting |
| WithdrawQueue.QueueDrains | klend/programs/klend/src/handlers/handler_withdraw_queued_liquidity.rs:24-210 | with liquidity for everything queued, as many redemptions as there are pending tickets leave no ticket waiting and nothing queued |
| WithdrawQueue.CollateralRecoverable | klend/programs/klend/src/lending_market/lending_operations.rs:675-704 | an invalid ticket can always be recovered; a valid one can be cancelled in full if and only if cancellation is enabled: vault and queue never stand in the way |
| OwnershipTransfer.AcceptHasFullHistory | klend/programs/klend/src/handlers/handler_accept_obligation_ownership_transfer.rs:16-38 | in every interleaving an accepted transfer follows, with no transfer step between, an initiation signed by the owner naming the new owner and an admin approval of the same; no unexpired order exists then, and the new owner is neither the old one nor the default key |
| OwnershipTransfer.OwnerChangesOnlyByAccept | klend/programs/klend/src/handlers/handler_accept_obligation_ownership_transfer.rs:16-29 | nothing else changes the owner |
| OwnershipTransfer.AtRestOnlyInitiates | klend/programs/klend/src/handlers/handler_initiate_obligation_ownership_transfer.rs:14-52 | with no transfer in progress a step succeeds if and only if it is a good initiation by the owner naming somebody else |
| OwnershipTransfer.InitiatedOnlyAbortsOrApproves | klend/programs/klend/src/handlers/handler_abort_obligation_ownership_transfer.rs:12-41 | once initiated a step succeeds if and only if it is the owner's abort in a good context, or the admin's approval of the pending owner with no unexpired order |
| OwnershipTransfer.ApprovedOnlyAccepts | klend/programs/klend/src/handlers/handler_abort_obligation_ownership_transfer.rs:12-28 | once approved only the accept of the pending owner succeeds, exactly when it comes alone, called directly, and no unexpired order exists |
| OwnershipTransfer.ApprovalLastsUntilAccept | klend/programs/klend/src/handlers/handler_approve_obligation_ownership_transfer.rs:14-33 | from approval on, whatever is attempted, the transfer stays approved for the same owner until that owner accepts |
| OwnershipTransfer.InitiatedEndsByOwnerOrAdmin | klend/programs/klend/src/handlers/handler_abort_obligation_ownership_transfer.rs:12-41 | in every interleaving a transfer that leaves the initiated state was approved by the admin, or aborted by the owner of that moment |
| OwnershipTransfer.TransferEndsByOwnerOrAdmin | klend/programs/klend/src/handlers/handler_approve_obligation_ownership_transfer.rs:14-57 | between an initiated moment and a later one that is not, the same owner aborted or the admin approved the same pending owner |
| OwnershipTransfer.TransferStepShape | klend/programs/klend/src/state/obligation.rs:634-680 | each successful step: who took it, from which state, and what it leaves of every field |
| OwnershipTransfer.RefusalsAreTrue | klend/programs/klend/src/handlers/handler_accept_obligation_ownership_transfer.rs:16-54 | each refusal of each step names what is wrong |
| OwnershipTransfer.ObligationAccount.InitiateOwnershipTransfer | klend/programs/klend/src/handlers/handler_initiate_obligation_ownership_transfer.rs:14-39 | the new account or the error, each refusal in order, the default key and the current owner as new owner among them |
| OwnershipTransfer.ObligationAccount.ApproveOwnershipTransfer | klend/programs/klend/src/handlers/handler_approve_obligation_ownership_transfer.rs:14-33 | the new account or the error, each refusal in order |
| OwnershipTransfer.ObligationAccount.AcceptOwnership | klend/programs/klend/src/handlers/handler_accept_obligation_ownership_transfer.rs:16-54 | the new account or the error, each refusal in order |
| OwnershipTransfer.ObligationAccount.AbortOwnershipTransfer | klend/programs/klend/src/handlers/handler_abort_obligation_ownership_transfer.rs:12-41 | the new account or the error, each refusal in order |
| FlashLoans.FlashBorrowChecks | klend/programs/klend/src/lending_market/flash_ixs.rs:76-187 | the loop over the following instructions is the recursive scan, with the same refusal at the same instruction |
| FlashLoans.FlashRepayChecks | klend/programs/klend/src/lending_market/flash_ixs.rs:17-75 | the checks in order, out-of-range slices included |
| FlashLoans.FlashLoansArePaired | klend/programs/klend/src/lending_market/flash_ixs.rs:17-187 | in every transaction whose flash instructions all pass there is at most one flash borrow and at most one flash repayment, one exactly when the other, and they pair: repayment later, same amount, same accounts, right index |
| FlashLoans.BorrowSucceedsIff | klend/programs/klend/src/lending_market/flash_ixs.rs:76-187 | a flash borrow passes exactly when one later instruction is its repayment and no other later one is a flash borrow, a flash repayment, or too short to tell |
| FlashLoans.RepayChecksIff | klend/programs/klend/src/lending_market/flash_ixs.rs:17-75 | a repayment passes exactly when it names a flash borrow at or before its place with the same reserve and amount, called directly |
| FlashLoans.ScanRefusals | klend/programs/klend/src/lending_market/flash_ixs.rs:86-143 | each refusal of the scan blames an instruction that is there |
| FlashLoans.ClientPairPassesIff | klend/libs/klend-interface/src/helpers/flash.rs:27-75 | the pair of the client passes if and only if the index is that of the borrow, the repayment comes later, and it is paid from the token account that received the loan |
| Borsh.RoundTrip | klend/libs/klend-interface/src/instructions/obligation.rs:187-212 | for every schema and value, decoding an encoding returns the value and leaves what follows |
| Borsh.DecodedIsEncoded | klend/libs/klend-interface/src/types.rs:12-30 | whatever decodes is the encoding of the value it gives, so encodings are unique |
| Borsh.ByteAt | klend/libs/klend-interface/src/types.rs:12-30 | byte i of a little-endian integer is its digit of weight 256 to the power i |
| Borsh.FieldAt | klend/libs/klend-interface/src/types.rs:12-30 | each field of a struct stands after the encodings of all before it and before those of all after it |
| InstructionData.InstructionRoundTrip | klend/libs/klend-interface/src/discriminators.rs:335-420 | with distinct discriminators, data reads back as an instruction with its arguments if and only if it is that discriminator followed by their encoding |
| InstructionData.IdentifyInstruction | klend/libs/klend-interface/src/discriminators.rs:335-345 | names an entry whose discriminator matches, or none when no entry matches or the data is shorter than 8 bytes |
| InstructionData.Serialize | klend/libs/klend-interface/src/instructions/referrer.rs:125-131 | appends the encoding of the arguments to the buffer and changes nothing before it |
| InstructionData.UpdateObligationConfig | klend/libs/klend-interface/src/instructions/obligation.rs:187-212 | the data is the discriminator, the mode's tag, the length in four little-endian bytes, and the bytes |
| InstructionData.InitiateObligationOwnershipTransfer | klend/libs/klend-interface/src/instructions/obligation.rs:223-244 | the data is the discriminator and the 32 bytes of the new owner |
| InstructionData.InitReferrerStateAndShortUrl | klend/libs/klend-interface/src/instructions/referrer.rs:121-145 | the data is the discriminator, the length in four little-endian bytes, and the string's bytes |
| InstructionData.SetObligationOrder | klend/libs/klend-interface/src/instructions/orders.rs:17-40 | the data is the discriminator, the index, and every field of the order at its width in declaration order |
| InstructionData.SetBorrowOrder | klend/libs/klend-interface/src/instructions/orders.rs:55-89 | the data is the discriminator and five little-endian integers in declaration order |
| InstructionData.BorrowOrderNeverDecodes | klend/programs/klend/src/handlers/handler_set_borrow_order.rs:96-103 | no borrow order the client can encode is one the handler can decode |
| AccountData.AccountDataRoundTrip | klend/libs/klend-interface/src/state/mod.rs:66-86 | accepts exactly aligned data that starts with the discriminator and the struct, and ignores what follows |
| AccountData.AccountDataRefusals | klend/libs/klend-interface/src/state/mod.rs:66-86 | each refusal names what is wrong, what was expected and what was found |
| AccountData.PodU128RoundTrip | klend/libs/klend-interface/src/state/pod.rs:17-34 | conversion is a bijection in both directions |
| PdaSeeds.PreimagesSeparate | klend/libs/klend-interface/src/pda.rs:36-141 | two different derived addresses never share a preimage, except an obligation and a short URL of 121 bytes |
| PdaSeeds.OverlongUrlCollides | klend/libs/klend-interface/src/pda.rs:101-103 | every short URL of 121 bytes does share its preimage with an obligation |
| PdaSeeds.DerivablePreimagesSeparate | klend/libs/klend-interface/src/pda.rs:40-60 | within 32 bytes a seed, which binds short URLs alone, preimages are equal exactly when the addresses are |
| PdaSeeds.ReadAddressIff | klend/libs/klend-interface/src/pda.rs:36-141 | the seeds of an address read back as that address, every argument at its own offset, and nothing else reads as it, except for the 121-byte URL |
| FixedPoint.FormsAreCeilings | audit-report/poc/C-1-div_ceil_off_by_one.rs:19-33 | each form returns the least q with q times the denominator at least the shifted numerator |
| FixedPoint.FormsAgree | audit-report/poc/C-1-div_ceil_off_by_one.rs:19-33 | the forms agree wherever both are defined |
| FixedPoint.FormsDefinedIff | audit-report/poc/C-1-div_ceil_off_by_one.rs:19-33 | where each form panics: only the first is defined at zero, only the second when the sum leaves u128 |
| FixedPoint.CeilingOfQuotientIff | audit-report/poc/C-1-div_ceil_off_by_one.rs:13-33 | a result is the ceiling of the true quotient if and only if the numerator is below 2^68 |

## Left out

- ObligationSlots.NoReserveHasTwoSlots: slot amounts are unbounded naturals, and market values and elevation groups of a slot are not modelled.
- SlotAmounts.SlotsAreBalances: how much interest accrues is an argument; the u64 overflow of a deposit and the u128 overflow of a debt are left out.
- ObligationRefresh.RefreshAcceptedIff: the values the refresh writes, deprecated reserve versions, elevation-group limits and the contents of referrer states beyond their address are not modelled; an account that is no reserve at all is reported here as a wrong one.
- CompoundHandlers.ProcessDepositAndWithdraw: the loan-to-value and net-value enforcement at the end, price-status flags, deposit limits, reserve status, farms and the transfers themselves are not modelled; the last are those of `VaultAccounting.Market`.
- CompoundHandlers.ProcessRepayAndWithdraw: as for `ProcessDepositAndWithdraw`.
- CompoundHandlers.DepositAndWithdrawAcceptedIff: whether a referrer state beyond those asked for is the right one is not checked by the code, so acceptance is by `ListServes`, which is lining up whenever there is no referrer or every borrow charges.
- RefreshPlans.PlanReachesMainIff: the main operation itself is followed only for the two compound helpers, in `CompoundPlans`; refreshing a reserve is taken to succeed, its own refusals being in `RefreshBatch`.
- CompoundPlans.DepositPlanSucceedsIff: as for `ProcessDepositAndWithdraw` and `PlanReachesMainIff`.
- CompoundPlans.RepayPlanSucceedsIff: as for `ProcessRepayAndWithdraw` and `PlanReachesMainIff`.
- RefreshBatch.ProcessBatch: which price a feed yields, its age and its divergence are one boolean a reserve; configuration errors of a time-weighted price are reported as configuration errors.
- VaultAccounting.HandlerNeverDrifts: transfer fees of token extensions are left out.
- VaultAccounting.Market.Deposit: collateral-token accounts are not modelled, in no vault handler; of the collateral only its total supply is.
- Liquidation.Liquidate: whether the obligation may be liquidated and how the amounts follow from bonus and close factor is left out.
- ReserveTransfers.DistributeRewards: how much is distributed is an argument; its cap by rate and slots is left out.
- ReserveTransfers.TopUpRewards: the market's switch for rewards and the reserve's account checks are left out.
- ReserveTransfers.RolloverBorrow: rollover windows, permissions and the equations about borrowed amounts are left out.
- WithdrawQueue.Queue.WithdrawQueuedLiquidity: the liquidity paid out follows `VaultAccounting.Market.PayOut` and is not repeated here; rent, creating the destination account and the kvault callback are left out.
- WithdrawQueue.Queue.EnqueueToWithdraw: the kvault callback accounts, the rent prepayment and u64 overflow of sequence numbers are left out.
- WithdrawQueue.Queue.RecoverInvalidTicketCollateral: which signers are allowed is a boolean argument.
- OwnershipTransfer.ObligationAccount.AcceptOwnership: which companion instructions count as compute-budget ones is a boolean argument.
- FlashLoans.FlashLoansArePaired: reading the instruction sysvar is taken as given; fee and transfers are those of `VaultAccounting.Market.FlashRepay` and `PayOut`.
- InstructionData.InitReferrerStateAndShortUrl: that the string is valid UTF-8 is not modelled; its bytes are any byte vector below 2^32 bytes, where the serializer panics beyond.
- Deposit into an obligation, obligation repayment and flash borrow are the same transfers and checks as `VaultAccounting.Market.Deposit` and `PayOut`.
- The remaining operations of `helpers/context.rs` have the shape of `Borrow` or `Liquidate` and would only add easy members.
- `helpers/deposit.rs` `deposit`, `helpers/withdraw.rs` `redeem` and `helpers/obligation.rs` `update_obligation_config` are single instructions.
- Signer and writable flags, program ids and the fixed accounts of each instruction: each is read off one line.
- The values of the 39 discriminators and 184 error codes: finite tables.
- The hash behind derived addresses, bump search, price computation, interest rates, obligation orders, farms, configuration updates and socialized losses.
- Argument structs of the other instructions are instances of `Borsh.Schema` with fewer kinds of fields.
- The audit scripts, templates, example programs and the other proofs of concept.
