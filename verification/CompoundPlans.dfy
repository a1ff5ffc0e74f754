/** The compound helpers against the compound handlers, end to end: the whole instruction list of
    `helpers/compound.rs` or `helpers/repay.rs`, the main operation included. Both attach the deposit
    reserves alone, so both succeed in special cases only. */
module CompoundPlans {
  import opened Common
  import opened ObligationLayout
  import opened ObligationSlots
  import opened ObligationRefresh
  import opened NestedRefresh
  import opened CompoundHandlers
  import opened RefreshPlans
  import Helpers

  /** The main operation of a list, as the handler receives it. */
  function DepositArgs(
    main: Instruction, depositedValue: nat, collateral: nat, withdrawn: nat, permissioner: Option<Pubkey>)
    : (a: DepositAndWithdrawArgs)
    requires main.Operation? && |main.reserves| == 2
  {
    DepositAndWithdrawArgs(depositedValue, main.reserves[0], main.reserves[1], collateral, withdrawn, permissioner,
      main.accounts)
  }

  function RepayArgs(main: Instruction, depositedValue: nat, settled: nat, withdrawn: nat): (a: RepayAndWithdrawArgs)
    requires main.Operation? && |main.reserves| == 2
  {
    RepayAndWithdrawArgs(depositedValue, main.reserves[0], main.reserves[1], settled, withdrawn, main.accounts)
  }

  // ----- deposit_and_withdraw -----

  lemma {:induction false} CreditsFirst(o: Obligation, key: Pubkey, amount: nat)
    requires key != DEFAULT_KEY && key in ActiveReserves(o.deposits)
    ensures Deposited(o, key, amount).Ok?
    ensures var after := Deposited(o, key, amount).value.deposits;
      && |after| == |o.deposits| && CountActive(after) == CountActive(o.deposits)
      && forall j :: 0 <= j < |after| ==>
           (after[j].reserve == o.deposits[j].reserve && (after[j].reserve != key ==> after[j] == o.deposits[j]))
  {
    hide ActiveReserves, CountActive;
    ActiveReservesMembers(o.deposits, key);
    var after := Deposited(o, key, amount).value.deposits;
    SameKeysSameReserves(o.deposits, after);
    ActiveCount(o.deposits);
    ActiveCount(after);
  }

  /** Crediting the slot of one reserve does not move the slot of another. */
  lemma {:induction false} OtherSlotStays(o: Obligation, key: Pubkey, amount: nat, other: Pubkey, n: nat)
    requires key != DEFAULT_KEY && key != other && key in ActiveReserves(o.deposits)
    ensures Deposited(o, key, amount).Ok?
    ensures WithdrawPossible(Deposited(o, key, amount).value, other, n) <==> WithdrawPossible(o, other, n)
  {
    hide ActiveReserves, CountActive, FirstWith, Deposited;
    CreditsFirst(o, key, amount);
    SameFirst(o.deposits, Deposited(o, key, amount).value.deposits, other);
  }

  lemma {:induction false} SameFirst(ps: seq<Position>, qs: seq<Position>, key: Pubkey)
    requires |ps| == |qs| && forall j :: 0 <= j < |ps| ==> (ps[j].reserve == key <==> qs[j].reserve == key)
    ensures FirstWith(ps, key) == FirstWith(qs, key)
  {
    hide FirstWith;
    var r, s := FirstWith(ps, key), FirstWith(qs, key);
    if r.Some? {
      assert qs[r.value].reserve == key;
    }
    if s.Some? {
      assert ps[s.value].reserve == key;
    }
  }

  /** The handler on the helper's list: it serves only when the deposit opens no slot and nothing is
      borrowed, and never when the market wants a permissioner. */
  lemma {:induction false} DepositReservesServeIff(
    o: Obligation, key: Pubkey, amount: nat, permissioner: Option<Pubkey>, env: Env)
    requires key != DEFAULT_KEY && Deposited(o, key, amount).Ok?
    requires PermissionGiven(permissioner, ActiveReserves(o.deposits))
    ensures ListServes(Deposited(o, key, amount).value, StripPermission(permissioner, ActiveReserves(o.deposits)),
            env) <==>
            permissioner.None? && key in ActiveReserves(o.deposits) && CountActive(o.borrows) == 0
  {
    hide ActiveReserves, CountActive, ChargedStates;
    var o1 := Deposited(o, key, amount).value;
    var i := AddCredits(o.deposits, key, amount);
    var list := StripPermission(permissioner, ActiveReserves(o.deposits));
    CreditedSlotReserves(o.deposits, o1.deposits, key, i);
    ActiveCount(o.deposits);
    ActiveCount(o1.deposits);
    ActiveCount(o.borrows);
    if permissioner.None? && key in ActiveReserves(o.deposits) && CountActive(o.borrows) == 0 {
      NothingCharged(o.referrer, env);
      PartsServe(o1, [], env);
      assert list == ActiveReserves(o1.deposits) + (ActiveReserves(o1.borrows) + []);
    } else {
      assert |list| < ExpectedRemaining(o1);
    }
  }

  /** The helper's list runs to its end: up to the main operation, and through it. */
  ghost predicate DepositPlanSucceeds(
    c: Chain, infos: seq<ReserveInfo>, deposit: ReserveInfo, withdraw: ReserveInfo, depositedValue: nat,
    collateral: nat, withdrawn: nat, permissioner: Option<Pubkey>, env: Env)
  {
    var info := FromObligation(c.obligation);
    var main := Helpers.DepositAndWithdrawMain(info, deposit, withdraw);
    var plan := Plan(info, infos, [deposit, withdraw], main, env.pda);
    && ReachesMain(c, plan, env)
    && var a := DepositArgs(main, depositedValue, collateral, withdrawn, permissioner);
       DepositAndWithdrawStep(Run(c, UpToMain(plan), env).value, a, env).Ok?
  }

  lemma {:induction false} DepositMainIff(
    c: Chain, deposit: Pubkey, withdraw: Pubkey, depositedValue: nat, collateral: nat, withdrawn: nat,
    permissioner: Option<Pubkey>, env: Env)
    requires c.upToDate && AllCurrent(Keys(FromObligation(c.obligation)), c.current) && OneSlotEach(c.obligation)
    requires deposit != DEFAULT_KEY && withdraw != DEFAULT_KEY
    ensures var d := ActiveReserves(c.obligation.deposits);
      var a := DepositAndWithdrawArgs(depositedValue, deposit, withdraw, collateral, withdrawn, permissioner, d);
      DepositAndWithdrawStep(c, a, env).Ok? <==>
        && deposit != withdraw && depositedValue > 0 && collateral > 0 && permissioner.None?
        && deposit in d && CountActive(c.obligation.borrows) == 0
        && WithdrawPossible(c.obligation, withdraw, withdrawn)
  {
    hide ActiveReserves, CountActive, AddTo, ListServes, WithdrawPossible, DepositAndWithdrawStep, OneSlotEach;
    hide AllCurrent;
    var o, d := c.obligation, ActiveReserves(c.obligation.deposits);
    var a := DepositAndWithdrawArgs(depositedValue, deposit, withdraw, collateral, withdrawn, permissioner, d);
    DepositAndWithdrawAcceptedIff(c, a, env);
    if Deposited(o, deposit, collateral).Ok? && PermissionGiven(permissioner, d) {
      DepositReservesServeIff(o, deposit, collateral, permissioner, env);
    }
    if deposit != withdraw && deposit in d {
      OtherSlotStays(o, deposit, collateral, withdraw, withdrawn);
    }
  }

  /** With the data of every active reserve supplied, the list of the compound helper succeeds exactly
      when the reserves differ, the deposit reserve is already an active deposit, nothing is borrowed, no
      permissioner is wanted, and the amounts are possible. */
  lemma {:induction false} DepositPlanSucceedsIff(
    c: Chain, infos: seq<ReserveInfo>, deposit: ReserveInfo, withdraw: ReserveInfo, depositedValue: nat,
    collateral: nat, withdrawn: nat, permissioner: Option<Pubkey>, env: Env)
    requires OneSlotEach(c.obligation) && SeparateStates(c.obligation, env)
    requires deposit.address != DEFAULT_KEY && withdraw.address != DEFAULT_KEY
    requires forall k :: k in Keys(FromObligation(c.obligation)) ==> FindInfo(infos, k).Some?
    ensures DepositPlanSucceeds(c, infos, deposit, withdraw, depositedValue, collateral, withdrawn, permissioner, env)
            <==>
      && deposit.address != withdraw.address && depositedValue > 0 && collateral > 0 && permissioner.None?
      && deposit.address in ActiveReserves(c.obligation.deposits) && CountActive(c.obligation.borrows) == 0
      && WithdrawPossible(c.obligation, withdraw.address, withdrawn)
  {
    hide ActiveReserves, CountActive, WithdrawPossible, DepositAndWithdrawStep, Run, Plan, UpToMain, ReachesMain;
    hide FindInfo;
    hide ReferralsInOrder, OneSlotEach, SeparateStates, AllCurrent;
    var info := FromObligation(c.obligation);
    var main := Helpers.DepositAndWithdrawMain(info, deposit, withdraw);
    var plan := Plan(info, infos, [deposit, withdraw], main, env.pda);
    PlanReachesMainIff(c, infos, [deposit, withdraw], main, env);
    NoBorrowsInOrder(c.obligation, env);
    if ReachesMain(c, plan, env) {
      var before := ReachedState(c, plan, env);
      DepositMainIff(before, deposit.address, withdraw.address, depositedValue, collateral, withdrawn, permissioner,
        env);
    }
  }

  /** The state in which the main operation starts. */
  lemma {:induction false} ReachedState(c: Chain, plan: seq<Instruction>, env: Env) returns (before: Chain)
    requires ReachesMain(c, plan, env)
    ensures OnlyRefreshes(UpToMain(plan)) && Run(c, UpToMain(plan), env) == Ok(before)
  {
    before := Run(c, UpToMain(plan), env).value;
  }

  lemma {:induction false} NoBorrowsInOrder(o: Obligation, env: Env)
    ensures CountActive(o.borrows) <= 1 ==> ReferralsInOrder(o, env)
  {
    hide ActiveReserves, CountActive;
    ActiveCount(o.borrows);
  }

  // ----- repay_and_withdraw_and_redeem -----

  ghost predicate RepayPlanSucceeds(
    c: Chain, infos: seq<ReserveInfo>, repay: ReserveInfo, withdraw: ReserveInfo, depositedValue: nat, settled: nat,
    withdrawn: nat, env: Env)
  {
    var info := FromObligation(c.obligation);
    var main := Helpers.RepayAndWithdrawMain(info, repay, withdraw);
    var plan := Plan(info, infos, [repay, withdraw], main, env.pda);
    && ReachesMain(c, plan, env)
    && var a := RepayArgs(main, depositedValue, settled, withdrawn);
       RepayAndWithdrawStep(Run(c, UpToMain(plan), env).value, a, env).Ok?
  }

  /** The borrow of `key` is the only one, and `settled` is all of it. */
  predicate OnlyBorrowInFull(o: Obligation, key: Pubkey, settled: nat) {
    && CountActive(o.borrows) == 1 && FindSlot(o.borrows, key).Ok?
    && settled == o.borrows[FindSlot(o.borrows, key).value].amount
  }

  lemma {:induction false} FullRepayIff(o: Obligation, key: Pubkey, settled: nat) returns (i: nat)
    requires key != DEFAULT_KEY && RepayPossible(o, key, settled)
    ensures BorrowReduced(o, AfterRepay(o, key, settled), key, i)
    ensures AfterRepay(o, key, settled).borrows[i].reserve == DEFAULT_KEY <==>
            settled == o.borrows[FindSlot(o.borrows, key).value].amount
    ensures AfterRepay(o, key, settled).deposits == o.deposits
  {
    hide FindSlot;
    i := FindSlot(o.borrows, key).value;
    SettleReduces(o.borrows, i, settled);
  }

  /** From a state in which the first nested refresh is served, everything after it goes through. */
  lemma {:induction false} ServedThenWithdrawn(c: Chain, key: Pubkey, amount: nat, accounts: seq<Pubkey>, env: Env)
    requires ListServes(c.obligation, accounts, env) && AllCurrent(Keys(FromObligation(c.obligation)), c.current)
    requires Distinct(ActiveReserves(c.obligation.deposits)) && key != DEFAULT_KEY
    ensures var c3 := c.(upToDate := true);
      && Refresh(c, accounts, env) == Ok(c3)
      && (WithdrawStep(c3, key, amount).Ok? <==> WithdrawPossible(c.obligation, key, amount))
      && (WithdrawStep(c3, key, amount).Ok? ==>
          FinishRepay(WithdrawStep(c3, key, amount).value, key, accounts, env).Ok?)
  {
    hide ActiveReserves, Refresh, ListServes, AllCurrent, WithdrawStep, WithdrawPossible, FinishRepay, FromObligation;
    var c3 := c.(upToDate := true);
    RefreshAcceptedIff(c, accounts, env);
    DepositsAreKeys(c.obligation, c.current);
    WithdrawStepIff(c3, key, amount);
    if WithdrawStep(c3, key, amount).Ok? {
      FinishRepayNeverFails(c3, key, amount, accounts, env);
    }
  }

  lemma {:induction false} NoBorrowsServe(o: Obligation, env: Env)
    requires ActiveReserves(o.borrows) == []
    ensures ListServes(o, ActiveReserves(o.deposits), env)
  {
    hide ActiveReserves, ChargedStates;
    NothingCharged(o.referrer, env);
    PartsServe(o, [], env);
    assert ActiveReserves(o.deposits) == ActiveReserves(o.deposits) + ([] + []);
  }

  /** What follows the repayment on the helper's list. */
  lemma {:induction false} AfterRepayOnDepositsIff(c: Chain, a: RepayAndWithdrawArgs, env: Env)
    requires AllCurrent(Keys(FromObligation(c.obligation)), c.current) && SeparateAddresses(c.obligation, env.pda)
    requires a.remaining == ActiveReserves(c.obligation.deposits)
    requires a.repayKey != DEFAULT_KEY && a.withdrawKey != DEFAULT_KEY
    requires RepayPossible(c.obligation, a.repayKey, a.settled)
    ensures var after := AfterRepay(c.obligation, a.repayKey, a.settled);
      var c1 := Used(c, after, a.repayKey);
      var again := FreshensRepaid(c.obligation, after, a.repayKey, a.withdrawKey);
      var c2 := if again then FreshenReserve(c1, a.repayKey) else c1;
      var accounts := EditAfterRepay(c.obligation, after, a.repayKey, a.remaining, env.pda);
      var c3 := c2.(upToDate := true);
      var good := OnlyBorrowInFull(c.obligation, a.repayKey, a.settled)
                  && a.repayKey !in ActiveReserves(c.obligation.deposits);
      && (!good ==> Refresh(c2, accounts, env).Err?)
      && (good ==>
          && Refresh(c2, accounts, env) == Ok(c3)
          && (WithdrawStep(c3, a.withdrawKey, a.withdrawn).Ok? <==>
              WithdrawPossible(c.obligation, a.withdrawKey, a.withdrawn))
          && (WithdrawStep(c3, a.withdrawKey, a.withdrawn).Ok? ==>
              FinishRepay(WithdrawStep(c3, a.withdrawKey, a.withdrawn).value, a.withdrawKey, accounts, env).Ok?))
  {
    hide ActiveReserves, CountActive, AllCurrent, WithdrawStep, WithdrawPossible, FinishRepay, CheckBorrows;
    hide CheckDeposits;
    hide FindSlot, AfterRepay, RepayPossible, BorrowReduced, FreshensRepaid, EditAfterRepay, ListServes;
    var o := c.obligation;
    var after := AfterRepay(o, a.repayKey, a.settled);
    var again := FreshensRepaid(o, after, a.repayKey, a.withdrawKey);
    var c1 := Used(c, after, a.repayKey);
    var c2 := if again then FreshenReserve(c1, a.repayKey) else c1;
    var i := FullRepayIff(o, a.repayKey, a.settled);
    RepayFindsSlot(o, a.repayKey, a.settled);
    RepayListAcceptedIff(o, after, a.repayKey, i, env.pda);
    CurrentAfterRepay(c, after, a, i);
    if OnlyBorrowInFull(o, a.repayKey, a.settled) && a.repayKey !in ActiveReserves(o.deposits) {
      NoBorrowsServe(after, env);
      ServedThenWithdrawn(c2, a.withdrawKey, a.withdrawn, a.remaining, env);
      SameDepositsWithdraw(o, after, a.withdrawKey, a.withdrawn);
    }
  }

  lemma {:induction false} RepayFindsSlot(o: Obligation, key: Pubkey, settled: nat)
    requires RepayPossible(o, key, settled)
    ensures FindSlot(o.borrows, key).Ok?
  {
  }

  lemma {:induction false} SameDepositsWithdraw(o: Obligation, after: Obligation, key: Pubkey, amount: nat)
    requires after.deposits == o.deposits
    ensures WithdrawPossible(after, key, amount) <==> WithdrawPossible(o, key, amount)
  {
  }

  lemma {:induction false} RepayMainIff(c: Chain, a: RepayAndWithdrawArgs, env: Env)
    requires c.upToDate && AllCurrent(Keys(FromObligation(c.obligation)), c.current)
    requires SeparateAddresses(c.obligation, env.pda) && a.remaining == ActiveReserves(c.obligation.deposits)
    requires a.repayKey != DEFAULT_KEY && a.withdrawKey != DEFAULT_KEY
    ensures RepayAndWithdrawStep(c, a, env).Ok? <==>
      && a.depositedValue > 0 && OnlyBorrowInFull(c.obligation, a.repayKey, a.settled)
      && a.repayKey !in ActiveReserves(c.obligation.deposits)
      && WithdrawPossible(c.obligation, a.withdrawKey, a.withdrawn)
  {
    hide ActiveReserves, CountActive, AllCurrent, WithdrawStep, WithdrawPossible, FinishRepay, Refresh, RepayStep;
    hide FindSlot, AfterRepay, RepayPossible, FreshensRepaid, EditAfterRepay, FromObligation, SeparateAddresses;
    DepositsAreKeys(c.obligation, c.current);
    RepayStepIff(c, a.repayKey, a.settled);
    InFullIsPossible(c.obligation, a.repayKey, a.settled);
    if a.depositedValue > 0 && RepayPossible(c.obligation, a.repayKey, a.settled) {
      AfterRepayOnDepositsIff(c, a, env);
    }
  }

  lemma {:induction false} InFullIsPossible(o: Obligation, key: Pubkey, settled: nat)
    ensures OnlyBorrowInFull(o, key, settled) ==> RepayPossible(o, key, settled)
  {
    hide CountActive;
  }

  /** With the data of every active reserve supplied, the list of the repay-and-withdraw helper succeeds
      exactly when the only borrow is repaid in full, its reserve holds no deposit, and the withdrawal is
      possible. */
  lemma {:induction false} RepayPlanSucceedsIff(
    c: Chain, infos: seq<ReserveInfo>, repay: ReserveInfo, withdraw: ReserveInfo, depositedValue: nat, settled: nat,
    withdrawn: nat, env: Env)
    requires SeparateAddresses(c.obligation, env.pda)
    requires repay.address != DEFAULT_KEY && withdraw.address != DEFAULT_KEY
    requires forall k :: k in Keys(FromObligation(c.obligation)) ==> FindInfo(infos, k).Some?
    ensures RepayPlanSucceeds(c, infos, repay, withdraw, depositedValue, settled, withdrawn, env) <==>
      && depositedValue > 0 && OnlyBorrowInFull(c.obligation, repay.address, settled)
      && repay.address !in ActiveReserves(c.obligation.deposits)
      && WithdrawPossible(c.obligation, withdraw.address, withdrawn)
  {
    hide ActiveReserves, CountActive, WithdrawPossible, RepayAndWithdrawStep, Run, Plan, UpToMain, ReachesMain;
    hide FindInfo;
    hide ReferralsInOrder, SeparateStates, AllCurrent, FindSlot;
    var info := FromObligation(c.obligation);
    var main := Helpers.RepayAndWithdrawMain(info, repay, withdraw);
    var plan := Plan(info, infos, [repay, withdraw], main, env.pda);
    SeparateAddressesStates(c.obligation, env);
    PlanReachesMainIff(c, infos, [repay, withdraw], main, env);
    NoBorrowsInOrder(c.obligation, env);
    if ReachesMain(c, plan, env) {
      var before := ReachedState(c, plan, env);
      RepayMainIff(before, RepayArgs(main, depositedValue, settled, withdrawn), env);
    }
  }

  lemma {:induction false} SeparateAddressesStates(o: Obligation, env: Env)
    requires SeparateAddresses(o, env.pda)
    ensures SeparateStates(o, env)
  {
  }
}
