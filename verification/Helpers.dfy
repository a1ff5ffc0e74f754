/** The obligation helpers of the client library, one method each: `borrow.rs`, `repay.rs`,
    `deposit.rs`, `withdraw.rs`, `liquidate.rs`, `compound.rs` and `obligation.rs`. */
module Helpers {
  import opened Common
  import opened ObligationLayout
  import opened ObligationRefresh
  import opened RefreshPlans

  /** `build_deposit_reserves_remaining`. */
  method BuildDepositReservesRemaining(info: ObligationInfo) returns (remaining: seq<Pubkey>)
    ensures remaining == info.depositReserves
  {
    remaining := [];
    for i := 0 to |info.depositReserves|
      invariant remaining == info.depositReserves[..i]
    {
      remaining := remaining + [info.depositReserves[i]];
    }
  }

  // ----- The pushes every helper makes -----

  method BuildOnOne(
    info: ObligationInfo, infos: seq<ReserveInfo>, target: ReserveInfo, main: Instruction, pda: ReferrerPda)
    returns (ixs: seq<Instruction>)
    ensures ixs == Plan(info, infos, [target], main, pda)
  {
    hide *;
    ixs := BuildRefreshAllObligationReserves(info, infos, [target.address]);
    ixs := ixs + [RefreshReserve(target)];
    var refreshAccounts := BuildRefreshObligationRemainingAccounts(info, pda);
    ixs := ixs + [RefreshObligation(refreshAccounts)];
    ixs := ixs + [main];
    PlanOfOne(info, infos, target, main, pda);
  }

  method BuildOnTwo(
    info: ObligationInfo, infos: seq<ReserveInfo>, first: ReserveInfo, second: ReserveInfo, main: Instruction,
    pda: ReferrerPda)
    returns (ixs: seq<Instruction>)
    ensures ixs == Plan(info, infos, [first, second], main, pda)
  {
    hide *;
    ixs := BuildRefreshAllObligationReserves(info, infos, [first.address, second.address]);
    ixs := ixs + [RefreshReserve(first)];
    ixs := ixs + [RefreshReserve(second)];
    var refreshAccounts := BuildRefreshObligationRemainingAccounts(info, pda);
    ixs := ixs + [RefreshObligation(refreshAccounts)];
    ixs := ixs + [main];
    PlanOfTwo(info, infos, first, second, main, pda);
  }

  // ----- One target -----

  method Borrow(info: ObligationInfo, infos: seq<ReserveInfo>, target: ReserveInfo, pda: ReferrerPda)
    returns (ixs: seq<Instruction>)
    ensures ixs == Plan(info, infos, [target], Operation(MainOp.Borrow, [target.address], info.depositReserves), pda)
  {
    var remaining := BuildDepositReservesRemaining(info);
    ixs := BuildOnOne(info, infos, target, Operation(MainOp.Borrow, [target.address], remaining), pda);
  }

  method Repay(info: ObligationInfo, infos: seq<ReserveInfo>, target: ReserveInfo, pda: ReferrerPda)
    returns (ixs: seq<Instruction>)
    ensures ixs == Plan(info, infos, [target], Operation(MainOp.Repay, [target.address], info.depositReserves), pda)
  {
    var remaining := BuildDepositReservesRemaining(info);
    ixs := BuildOnOne(info, infos, target, Operation(MainOp.Repay, [target.address], remaining), pda);
  }

  method DepositToObligation(info: ObligationInfo, infos: seq<ReserveInfo>, target: ReserveInfo, pda: ReferrerPda)
    returns (ixs: seq<Instruction>)
    ensures ixs == Plan(info, infos, [target], Operation(MainOp.DepositToObligation, [target.address], []), pda)
  {
    ixs := BuildOnOne(info, infos, target, Operation(MainOp.DepositToObligation, [target.address], []), pda);
  }

  method Withdraw(info: ObligationInfo, infos: seq<ReserveInfo>, target: ReserveInfo, pda: ReferrerPda)
    returns (ixs: seq<Instruction>)
    ensures ixs == Plan(info, infos, [target], Operation(MainOp.Withdraw, [target.address], []), pda)
  {
    ixs := BuildOnOne(info, infos, target, Operation(MainOp.Withdraw, [target.address], []), pda);
  }

  method WithdrawCollateral(info: ObligationInfo, infos: seq<ReserveInfo>, target: ReserveInfo, pda: ReferrerPda)
    returns (ixs: seq<Instruction>)
    ensures ixs == Plan(info, infos, [target], Operation(MainOp.WithdrawCollateral, [target.address], []), pda)
  {
    ixs := BuildOnOne(info, infos, target, Operation(MainOp.WithdrawCollateral, [target.address], []), pda);
  }

  // ----- Two targets -----

  /** The main operation of `repay_and_withdraw`. */
  function RepayAndWithdrawMain(info: ObligationInfo, repay: ReserveInfo, withdraw: ReserveInfo): (main: Instruction) {
    Operation(MainOp.RepayAndWithdraw, [repay.address, withdraw.address], info.depositReserves)
  }

  method RepayAndWithdraw(
    info: ObligationInfo, infos: seq<ReserveInfo>, repay: ReserveInfo, withdraw: ReserveInfo, pda: ReferrerPda)
    returns (ixs: seq<Instruction>)
    ensures ixs == Plan(info, infos, [repay, withdraw], RepayAndWithdrawMain(info, repay, withdraw), pda)
  {
    var remaining := BuildDepositReservesRemaining(info);
    var main := Operation(MainOp.RepayAndWithdraw, [repay.address, withdraw.address], remaining);
    ixs := BuildOnTwo(info, infos, repay, withdraw, main, pda);
  }

  method Liquidate(
    info: ObligationInfo, infos: seq<ReserveInfo>, repay: ReserveInfo, withdraw: ReserveInfo, pda: ReferrerPda)
    returns (ixs: seq<Instruction>)
    ensures ixs == Plan(info, infos, [repay, withdraw],
              Operation(MainOp.Liquidate, [repay.address, withdraw.address], RemainingAccounts(info, pda)), pda)
  {
    var remaining := BuildRefreshObligationRemainingAccounts(info, pda);
    var main := Operation(MainOp.Liquidate, [repay.address, withdraw.address], remaining);
    ixs := BuildOnTwo(info, infos, repay, withdraw, main, pda);
  }

  /** The main operation of `deposit_and_withdraw`. */
  function DepositAndWithdrawMain(
    info: ObligationInfo, deposit: ReserveInfo, withdraw: ReserveInfo)
    : (main: Instruction)
  {
    Operation(MainOp.DepositAndWithdraw, [deposit.address, withdraw.address], info.depositReserves)
  }

  method DepositAndWithdraw(
    info: ObligationInfo, infos: seq<ReserveInfo>, deposit: ReserveInfo, withdraw: ReserveInfo, pda: ReferrerPda)
    returns (ixs: seq<Instruction>)
    ensures ixs == Plan(info, infos, [deposit, withdraw], DepositAndWithdrawMain(info, deposit, withdraw), pda)
  {
    var remaining := BuildDepositReservesRemaining(info);
    var main := Operation(MainOp.DepositAndWithdraw, [deposit.address, withdraw.address], remaining);
    ixs := BuildOnTwo(info, infos, deposit, withdraw, main, pda);
  }

  /** A rollover into the same reserve refreshes it once. */
  function RolloverTargets(source: ReserveInfo, target: ReserveInfo): (targets: seq<ReserveInfo>) {
    if source.address == target.address then [source] else [source, target]
  }

  method RolloverFixedTermBorrow(
    info: ObligationInfo, infos: seq<ReserveInfo>, source: ReserveInfo, target: ReserveInfo, pda: ReferrerPda)
    returns (ixs: seq<Instruction>)
    ensures ixs == Plan(info, infos, RolloverTargets(source, target),
              Operation(MainOp.RolloverFixedTermBorrow, [source.address, target.address], []), pda)
  {
    hide Plan, RefreshAll, RemainingAccounts, Members;
    var alreadyRefreshed := [source.address];
    var sameReserve := source.address == target.address;
    if !sameReserve {
      alreadyRefreshed := alreadyRefreshed + [target.address];
    }
    assert alreadyRefreshed == if sameReserve then [source.address] else [source.address, target.address];
    ixs := BuildRefreshAllObligationReserves(info, infos, alreadyRefreshed);
    ixs := ixs + [RefreshReserve(source)];
    if !sameReserve {
      ixs := ixs + [RefreshReserve(target)];
    }
    var refreshAccounts := BuildRefreshObligationRemainingAccounts(info, pda);
    ixs := ixs + [RefreshObligation(refreshAccounts)];
    var main := Operation(MainOp.RolloverFixedTermBorrow, [source.address, target.address], []);
    ixs := ixs + [main];
    if sameReserve {
      PlanOfOne(info, infos, source, main, pda);
    } else {
      PlanOfTwo(info, infos, source, target, main, pda);
    }
  }

  // ----- No target -----

  method RequestElevationGroup(info: ObligationInfo, infos: seq<ReserveInfo>, pda: ReferrerPda)
    returns (ixs: seq<Instruction>)
    ensures ixs == Plan(info, infos, [], Operation(MainOp.RequestElevationGroup, [], RemainingAccounts(info, pda)), pda)
  {
    hide RefreshAll, RemainingAccounts;
    var remaining := BuildRefreshObligationRemainingAccounts(info, pda);
    ixs := BuildRefreshAllObligationReserves(info, infos, []);
    var refreshAccounts := BuildRefreshObligationRemainingAccounts(info, pda);
    ixs := ixs + [RefreshObligation(refreshAccounts)];
    ixs := ixs + [Operation(MainOp.RequestElevationGroup, [], remaining)];
    assert Addresses([]) == [] && RefreshTargets([]) == [];
  }

  /** A rollover is minimal whether or not source and target are one reserve. */
  lemma {:induction false} RolloverIsMinimal(
    info: ObligationInfo, infos: seq<ReserveInfo>, source: ReserveInfo, target: ReserveInfo, main: Instruction,
    pda: ReferrerPda)
    requires main.Operation? && forall k :: k in Keys(info) ==> FindInfo(infos, k).Some?
    ensures var done := Refreshed(Plan(info, infos, RolloverTargets(source, target), main, pda));
      && Members(done) == Members(Keys(info)) + {source.address, target.address}
      && Distinct(done)
  {
    hide Plan, FindInfo, Refreshed, Keys;
    var targets := RolloverTargets(source, target);
    assert Members(Addresses(targets)) == {source.address, target.address} by {
      assert Addresses([source]) == [source.address];
      assert Addresses([source, target]) == [source.address, target.address];
    }
    PlanIsMinimalIff(info, infos, targets, main, pda);
    DistinctIffCount(Refreshed(Plan(info, infos, targets, main, pda)));
  }
}
