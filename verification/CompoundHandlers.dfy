/** `handler_deposit_and_withdraw.rs` and `handler_repay_and_withdraw_redeem.rs` as a whole: which marks
    each lending operation leaves, which reserves are refreshed in between, and exactly when the nested
    refreshes go through. Amounts are those that prices and limits allowed. */
module CompoundHandlers {
  import opened Common
  import opened ObligationLayout
  import opened ObligationSlots
  import opened ObligationRefresh
  import opened NestedRefresh

  datatype HandlerError =
    | CannotUseSameReserve | ObligationDepositsEmpty | MissingPermissioner | InvalidAmount
    | StaleReserve | StaleObligation | SlotFailed(slot: SlotError) | RefreshFailed(refresh: RefreshError) | Panic

  function OnSlot<T>(r: Result<T, SlotError>): (r': Result<T, HandlerError>) {
    match r case Ok(v) => Ok(v) case Err(e) => Err(SlotFailed(e))
  }

  function RefreshStep(c: Chain, remaining: seq<Pubkey>, env: Env): (r: Result<Chain, HandlerError>) {
    match Refresh(c, remaining, env) case Ok(c') => Ok(c') case Err(e) => Err(RefreshFailed(e))
  }

  /** `refresh_reserve`. */
  function FreshenReserve(c: Chain, key: Pubkey): (c': Chain) { c.(current := c.current + {key}) }

  /** A lending operation that used reserve `key`: it and the obligation are out of date. */
  function Used(c: Chain, o: Obligation, key: Pubkey): (c': Chain) { Chain(o, false, c.current - {key}) }

  /** `deposit_obligation_collateral`. */
  function DepositStep(c: Chain, key: Pubkey, amount: nat): (r: Result<Chain, HandlerError>) {
    if amount == 0 then Err(InvalidAmount)
    else if key !in c.current then Err(StaleReserve)
    else if !c.upToDate then Err(StaleObligation)
    else
      var deposits :- OnSlot(AddTo(c.obligation.deposits, key, amount));
      Ok(Used(c, c.obligation.(deposits := deposits), key))
  }

  /** `withdraw_obligation_collateral`, then `redeem_reserve_collateral`. */
  function WithdrawStep(c: Chain, key: Pubkey, amount: nat): (r: Result<Chain, HandlerError>) {
    if key !in c.current then Err(StaleReserve)
    else if !c.upToDate then Err(StaleObligation)
    else
      var i :- OnSlot(FindSlot(c.obligation.deposits, key));
      var deposits :- OnSlot(TakeFrom(c.obligation.deposits, i, amount));
      Ok(Used(c, c.obligation.(deposits := deposits), key))
  }

  /** `repay_obligation_liquidity`. */
  function RepayStep(c: Chain, key: Pubkey, amount: nat): (r: Result<Chain, HandlerError>) {
    var i :- OnSlot(FindSlot(c.obligation.borrows, key));
    if key !in c.current then Err(StaleReserve)
    else if !c.upToDate then Err(StaleObligation)
    else
      var borrows :- OnSlot(TakeFrom(c.obligation.borrows, i, amount));
      Ok(Used(c, c.obligation.(borrows := borrows), key))
  }

  predicate IsClosed(o: Obligation) { CountActive(o.deposits) == 0 && CountActive(o.borrows) == 0 }

  // ----- deposit_and_withdraw -----

  /** `permissioner`: the market's permissioning authority, when the deposit needs its signature. */
  datatype DepositAndWithdrawArgs = DepositAndWithdrawArgs(
    depositedValue: nat, depositKey: Pubkey, withdrawKey: Pubkey, collateral: nat, withdrawn: nat,
    permissioner: Option<Pubkey>, remaining: seq<Pubkey>)

  /** `check_permissions`. */
  predicate PermissionGiven(permissioner: Option<Pubkey>, remaining: seq<Pubkey>) {
    permissioner.Some? ==> remaining != [] && remaining[|remaining| - 1] == permissioner.value
  }

  /** `requires_permission_and_strip`: the permissioner is one more account at the end. */
  function StripPermission(permissioner: Option<Pubkey>, remaining: seq<Pubkey>): (rest: seq<Pubkey>)
    requires PermissionGiven(permissioner, remaining)
  {
    if permissioner.Some? then remaining[..|remaining| - 1] else remaining
  }

  /** After the withdrawal: refresh its reserve, then the obligation, unless it was closed. */
  function FinishDeposit(c: Chain, withdrawKey: Pubkey, accounts: seq<Pubkey>, env: Env)
    : (r: Result<(Chain, seq<Pubkey>), HandlerError>)
  {
    var c1 := FreshenReserve(c, withdrawKey);
    if IsClosed(c1.obligation) then Ok((c1, accounts))
    else
      var edited := EditAfterWithdraw(c1.obligation, withdrawKey, accounts);
      var c2 :- RefreshStep(c1, edited, env);
      Ok((Used(c2, c2.obligation, withdrawKey), edited))
  }

  function DepositAndWithdrawStep(c: Chain, a: DepositAndWithdrawArgs, env: Env)
    : (r: Result<(Chain, seq<Pubkey>), HandlerError>)
  {
    if a.depositKey == a.withdrawKey then Err(CannotUseSameReserve)
    else if a.depositedValue == 0 then Err(ObligationDepositsEmpty)
    else if !PermissionGiven(a.permissioner, a.remaining) then Err(MissingPermissioner)
    else
      var c1 :- DepositStep(FreshenReserve(c, a.depositKey), a.depositKey, a.collateral);
      var accounts := StripPermission(a.permissioner, a.remaining);
      var c2 :- RefreshStep(FreshenReserve(c1, a.depositKey), accounts, env);
      var c3 :- WithdrawStep(c2, a.withdrawKey, a.withdrawn);
      FinishDeposit(c3, a.withdrawKey, accounts, env)
  }

  // ----- repay_and_withdraw_and_redeem -----

  datatype RepayAndWithdrawArgs = RepayAndWithdrawArgs(
    depositedValue: nat, repayKey: Pubkey, withdrawKey: Pubkey, settled: nat, withdrawn: nat, remaining: seq<Pubkey>)

  /** The repaid reserve is refreshed again only when its borrow stays or it is the one to withdraw from. */
  predicate FreshensRepaid(before: Obligation, after: Obligation, repayKey: Pubkey, withdrawKey: Pubkey) {
    CountActive(before.borrows) == CountActive(after.borrows) || repayKey == withdrawKey
  }

  predicate FullyWithdrawn(o: Obligation, key: Pubkey) { CollateralAmount(o.deposits, key) == 0 }

  /** `Panic` is the `unwrap` of a position that is not there. */
  function FinishRepay(c: Chain, withdrawKey: Pubkey, accounts: seq<Pubkey>, env: Env)
    : (r: Result<(Chain, seq<Pubkey>), HandlerError>)
  {
    var o := c.obligation;
    if IsClosed(o) then Ok((c, accounts))
    else if FullyWithdrawn(o, withdrawKey) && withdrawKey !in accounts then Err(Panic)
    else
      var stillUsed := !FullyWithdrawn(o, withdrawKey) || FirstWith(o.borrows, withdrawKey).Some?;
      var c1 := if stillUsed then FreshenReserve(c, withdrawKey) else c;
      var edited := EditAfterWithdraw(o, withdrawKey, accounts);
      var c2 :- RefreshStep(c1, edited, env);
      Ok((Used(c2, o, withdrawKey), edited))
  }

  function RepayAndWithdrawStep(c: Chain, a: RepayAndWithdrawArgs, env: Env)
    : (r: Result<(Chain, seq<Pubkey>), HandlerError>)
  {
    if a.depositedValue == 0 then Err(ObligationDepositsEmpty)
    else
      var c1 :- RepayStep(c, a.repayKey, a.settled);
      var again := FreshensRepaid(c.obligation, c1.obligation, a.repayKey, a.withdrawKey);
      var accounts := EditAfterRepay(c.obligation, c1.obligation, a.repayKey, a.remaining, env.pda);
      var c2 :- RefreshStep(if again then FreshenReserve(c1, a.repayKey) else c1, accounts, env);
      var c3 :- WithdrawStep(c2, a.withdrawKey, a.withdrawn);
      FinishRepay(c3, a.withdrawKey, accounts, env)
  }

  // ----- The handlers, on the loaded accounts -----

  method RefreshAgain(ob: ObligationAccount, remaining: seq<Pubkey>, env: Env) returns (r: Result<(), HandlerError>)
    modifies ob`upToDate
    ensures match RefreshStep(old(ob.View()), remaining, env)
            case Ok(c) => r == Ok(()) && ob.View() == c
            case Err(e) => r == Err(e)
  {
    hide Refresh;
    var refreshed := ob.RefreshObligation(remaining, env);
    return match refreshed case Ok(_) => Ok(()) case Err(e) => Err(RefreshFailed(e));
  }

  method Deposit(ob: ObligationAccount, key: Pubkey, amount: nat) returns (r: Result<(), HandlerError>)
    modifies ob
    ensures match DepositStep(old(ob.View()), key, amount)
            case Ok(c) => r == Ok(()) && ob.View() == c
            case Err(e) => r == Err(e)
  {
    hide AddTo;
    if amount == 0 {
      return Err(InvalidAmount);
    }
    if key !in ob.current {
      return Err(StaleReserve);
    }
    if !ob.upToDate {
      return Err(StaleObligation);
    }
    var deposits := AddTo(ob.data.deposits, key, amount);
    if deposits.Err? {
      return Err(SlotFailed(deposits.error));
    }
    ob.data := ob.data.(deposits := deposits.value);
    ob.upToDate, ob.current := false, ob.current - {key};
    return Ok(());
  }

  method Withdraw(ob: ObligationAccount, key: Pubkey, amount: nat) returns (r: Result<(), HandlerError>)
    modifies ob
    ensures match WithdrawStep(old(ob.View()), key, amount)
            case Ok(c) => r == Ok(()) && ob.View() == c
            case Err(e) => r == Err(e)
  {
    hide FindSlot, TakeFrom;
    if key !in ob.current {
      return Err(StaleReserve);
    }
    if !ob.upToDate {
      return Err(StaleObligation);
    }
    var slot := FindSlot(ob.data.deposits, key);
    if slot.Err? {
      return Err(SlotFailed(slot.error));
    }
    var deposits := TakeFrom(ob.data.deposits, slot.value, amount);
    if deposits.Err? {
      return Err(SlotFailed(deposits.error));
    }
    ob.data := ob.data.(deposits := deposits.value);
    ob.upToDate, ob.current := false, ob.current - {key};
    return Ok(());
  }

  method Repay(ob: ObligationAccount, key: Pubkey, amount: nat) returns (r: Result<(), HandlerError>)
    modifies ob
    ensures match RepayStep(old(ob.View()), key, amount)
            case Ok(c) => r == Ok(()) && ob.View() == c
            case Err(e) => r == Err(e)
  {
    hide FindSlot, TakeFrom;
    var slot := FindSlot(ob.data.borrows, key);
    if slot.Err? {
      return Err(SlotFailed(slot.error));
    }
    if key !in ob.current {
      return Err(StaleReserve);
    }
    if !ob.upToDate {
      return Err(StaleObligation);
    }
    var borrows := TakeFrom(ob.data.borrows, slot.value, amount);
    if borrows.Err? {
      return Err(SlotFailed(borrows.error));
    }
    ob.data := ob.data.(borrows := borrows.value);
    ob.upToDate, ob.current := false, ob.current - {key};
    return Ok(());
  }

  /** `handler_deposit_and_withdraw::process`; on success it returns the list of its last refresh. */
  method ProcessDepositAndWithdraw(ob: ObligationAccount, a: DepositAndWithdrawArgs, env: Env)
    returns (r: Result<seq<Pubkey>, HandlerError>)
    modifies ob
    ensures match DepositAndWithdrawStep(old(ob.View()), a, env)
            case Ok(done) => r == Ok(done.1) && ob.View() == done.0
            case Err(e) => r == Err(e)
  {
    hide DepositStep, WithdrawStep, RefreshStep, RemoveFirst, CollateralAmount, CountActive;
    if a.depositKey == a.withdrawKey {
      return Err(CannotUseSameReserve);
    }
    if a.depositedValue == 0 {
      return Err(ObligationDepositsEmpty);
    }
    if !PermissionGiven(a.permissioner, a.remaining) {
      return Err(MissingPermissioner);
    }
    ob.current := ob.current + {a.depositKey};
    r := DepositThenRefresh(ob, a, env);
    if r.Err? {
      return;
    }
    var accounts := r.value;
    var withdrawn := Withdraw(ob, a.withdrawKey, a.withdrawn);
    if withdrawn.Err? {
      return Err(withdrawn.error);
    }
    ob.current := ob.current + {a.withdrawKey};
    if IsClosed(ob.data) {
      return Ok(accounts);
    }
    var finalDepositAmount := CollateralAmount(ob.data.deposits, a.withdrawKey);
    if finalDepositAmount == 0 {
      accounts := DropFirstOccurrence(accounts, a.withdrawKey);
    }
    var second := RefreshAgain(ob, accounts, env);
    if second.Err? {
      return Err(second.error);
    }
    ob.upToDate, ob.current := false, ob.current - {a.withdrawKey};
    return Ok(accounts);
  }

  /** Up to and including the first nested refresh; the account list without the permissioner. */
  method DepositThenRefresh(ob: ObligationAccount, a: DepositAndWithdrawArgs, env: Env)
    returns (r: Result<seq<Pubkey>, HandlerError>)
    requires PermissionGiven(a.permissioner, a.remaining)
    modifies ob
    ensures r.Ok? ==> r.value == StripPermission(a.permissioner, a.remaining)
    ensures match DepositStep(old(ob.View()), a.depositKey, a.collateral)
            case Err(e) => r == Err(e)
            case Ok(c) =>
              match RefreshStep(FreshenReserve(c, a.depositKey), StripPermission(a.permissioner, a.remaining), env)
              case Err(e) => r == Err(e)
              case Ok(c') => r.Ok? && ob.View() == c'
  {
    hide DepositStep, RefreshStep;
    var deposited := Deposit(ob, a.depositKey, a.collateral);
    if deposited.Err? {
      return Err(deposited.error);
    }
    var accounts := StripPermission(a.permissioner, a.remaining);
    ob.current := ob.current + {a.depositKey};
    var first := RefreshAgain(ob, accounts, env);
    return match first case Ok(_) => Ok(accounts) case Err(e) => Err(e);
  }

  method FindPosition(accounts: seq<Pubkey>, key: Pubkey) returns (r: Option<nat>)
    ensures r.None? <==> key !in accounts
    ensures r.Some? ==> r.value < |accounts| && accounts[r.value] == key && key !in accounts[..r.value]
  {
    for i := 0 to |accounts|
      invariant key !in accounts[..i]
    {
      if accounts[i] == key {
        return Some(i);
      }
    }
    return None;
  }

  /** `handler_repay_and_withdraw_redeem::process_impl`: repay, edit, refresh, withdraw, edit, refresh. */
  method ProcessRepayAndWithdraw(ob: ObligationAccount, a: RepayAndWithdrawArgs, env: Env)
    returns (r: Result<seq<Pubkey>, HandlerError>)
    modifies ob
    ensures match RepayAndWithdrawStep(old(ob.View()), a, env)
            case Ok(done) => r == Ok(done.1) && ob.View() == done.0
            case Err(e) => r == Err(e)
  {
    hide RepayStep, WithdrawStep, RefreshStep, KeepFromEnd, CountActive, FinishRepay;
    if a.depositedValue == 0 {
      return Err(ObligationDepositsEmpty);
    }
    var previousBorrowCount := CountActive(ob.data.borrows);
    var referrer := ob.data.referrer;
    var repaid := Repay(ob, a.repayKey, a.settled);
    if repaid.Err? {
      return Err(repaid.error);
    }
    var borrowCountPostRepay := CountActive(ob.data.borrows);
    if borrowCountPostRepay == previousBorrowCount || a.repayKey == a.withdrawKey {
      ob.current := ob.current + {a.repayKey};
    }
    var accounts := a.remaining;
    if previousBorrowCount != borrowCountPostRepay {
      var skip := if referrer != DEFAULT_KEY then env.pda(referrer, a.repayKey) else DEFAULT_KEY;
      accounts := DropRepaidAccounts(a.remaining, a.repayKey, skip);
    }
    var first := RefreshAgain(ob, accounts, env);
    if first.Err? {
      return Err(first.error);
    }
    var withdrawn := Withdraw(ob, a.withdrawKey, a.withdrawn);
    if withdrawn.Err? {
      return Err(withdrawn.error);
    }
    r := RefreshAfterWithdraw(ob, a.withdrawKey, accounts, env);
  }

  method RefreshAfterWithdraw(ob: ObligationAccount, withdrawKey: Pubkey, accounts: seq<Pubkey>, env: Env)
    returns (r: Result<seq<Pubkey>, HandlerError>)
    modifies ob
    ensures match FinishRepay(old(ob.View()), withdrawKey, accounts, env)
            case Ok(done) => r == Ok(done.1) && ob.View() == done.0
            case Err(e) => r == Err(e)
  {
    hide RefreshStep, CollateralAmount, CountActive;
    var list := accounts;
    if IsClosed(ob.data) {
      return Ok(list);
    }
    var isFullWithdrawal := CollateralAmount(ob.data.deposits, withdrawKey) == 0;
    if isFullWithdrawal {
      var position := FindPosition(list, withdrawKey);
      if position.None? {
        return Err(Panic);
      }
      RemoveFirstAt(list, withdrawKey, position.value);
      list := list[..position.value] + list[position.value + 1..];
    }
    if !isFullWithdrawal || FirstWith(ob.data.borrows, withdrawKey).Some? {
      ob.current := ob.current + {withdrawKey};
    }
    var second := RefreshAgain(ob, list, env);
    if second.Err? {
      return Err(second.error);
    }
    ob.upToDate, ob.current := false, ob.current - {withdrawKey};
    return Ok(list);
  }

  // ----- The second refresh never fails where the first went through -----

  /** A withdrawal of this amount from this reserve's slot is possible. */
  predicate WithdrawPossible(o: Obligation, key: Pubkey, amount: nat) {
    FindSlot(o.deposits, key).Ok? && 0 < amount <= o.deposits[FindSlot(o.deposits, key).value].amount
  }

  lemma {:induction false} WithdrawStepIff(c: Chain, key: Pubkey, amount: nat)
    requires c.upToDate && AllCurrent(ActiveReserves(c.obligation.deposits), c.current) && key != DEFAULT_KEY
    ensures WithdrawStep(c, key, amount).Ok? <==> WithdrawPossible(c.obligation, key, amount)
    ensures WithdrawPossible(c.obligation, key, amount) ==>
              key in ActiveReserves(c.obligation.deposits) && key in c.current
  {
    hide ActiveReserves;
    if FindSlot(c.obligation.deposits, key).Ok? {
      ActiveReservesMembers(c.obligation.deposits, key);
      assert Active(c.obligation.deposits[FindSlot(c.obligation.deposits, key).value]);
    } else if key !in c.current {
    }
  }

  /** What a withdrawal does to the slots, as a relation. */
  lemma {:induction false} WithdrawReduces(c: Chain, key: Pubkey, amount: nat) returns (i: nat)
    requires WithdrawStep(c, key, amount).Ok? && key != DEFAULT_KEY
    ensures DepositReduced(c.obligation, WithdrawStep(c, key, amount).value.obligation, key, i)
  {
    hide Settle, FindSlot;
    i := FindSlot(c.obligation.deposits, key).value;
    SettleReduces(c.obligation.deposits, i, amount);
  }

  /** Every active reserve is up to date once the withdrawn one is, or is active no more. */
  lemma {:induction false} CurrentAfterWithdraw(
    before: Obligation, after: Obligation, key: Pubkey, i: nat, current: set<Pubkey>)
    requires DepositReduced(before, after, key, i) && Distinct(ActiveReserves(before.deposits))
    requires AllCurrent(Keys(FromObligation(before)), current + {key})
    ensures AllCurrent(Keys(FromObligation(after)), current + {key})
    ensures after.deposits[i].reserve != key && key !in ActiveReserves(after.borrows) ==>
              AllCurrent(Keys(FromObligation(after)), current)
  {
    hide ActiveReserves;
    SameKeysSameReserves(before.borrows, after.borrows);
    ReducedSlotReserves(before.deposits, after.deposits, key, i);
    var d, r := ActiveReserves(before.deposits), |ActiveReserves(before.deposits[..i])|;
    CutKeepsDistinct(d, r);
    forall k | k in Keys(FromObligation(after))
      ensures k in Keys(FromObligation(before))
      ensures after.deposits[i].reserve != key && key !in ActiveReserves(after.borrows) ==> k != key
    {
      assert k in ActiveReserves(after.deposits) || k in ActiveReserves(after.borrows);
    }
  }

  lemma {:induction false} FinishDepositNeverFails(c: Chain, key: Pubkey, amount: nat, accounts: seq<Pubkey>, env: Env)
    requires WithdrawStep(c, key, amount).Ok? && key != DEFAULT_KEY
    requires ListServes(c.obligation, accounts, env) && Distinct(ActiveReserves(c.obligation.deposits))
    requires AllCurrent(Keys(FromObligation(c.obligation)), c.current)
    ensures FinishDeposit(WithdrawStep(c, key, amount).value, key, accounts, env).Ok?
  {
    hide ListServes, AllCurrent, ActiveReserves, Refresh, EditAfterWithdraw, FromObligation, WithdrawStep;
    var c3 := WithdrawStep(c, key, amount).value;
    WithdrawMarks(c, key, amount);
    var i := WithdrawReduces(c, key, amount);
    EditKeepsServing(c.obligation, c3.obligation, key, i, accounts, env);
    MoreIsCurrent(Keys(FromObligation(c.obligation)), c.current, c3.current + {key});
    CurrentAfterWithdraw(c.obligation, c3.obligation, key, i, c3.current);
    RefreshAcceptedIff(FreshenReserve(c3, key), EditAfterWithdraw(c3.obligation, key, accounts), env);
  }

  lemma {:induction false} WithdrawMarks(c: Chain, key: Pubkey, amount: nat)
    requires WithdrawStep(c, key, amount).Ok?
    ensures var c' := WithdrawStep(c, key, amount).value;
      !c'.upToDate && c'.current == c.current - {key} && c.current <= c'.current + {key}
      && c'.obligation.borrows == c.obligation.borrows && c'.obligation.referrer == c.obligation.referrer
  {
    hide FindSlot, TakeFrom;
  }

  lemma {:induction false} MoreIsCurrent(keys: seq<Pubkey>, current: set<Pubkey>, more: set<Pubkey>)
    requires AllCurrent(keys, current) && current <= more
    ensures AllCurrent(keys, more)
  {
  }

  lemma {:induction false} FinishRepayNeverFails(c: Chain, key: Pubkey, amount: nat, accounts: seq<Pubkey>, env: Env)
    requires WithdrawStep(c, key, amount).Ok? && key != DEFAULT_KEY
    requires ListServes(c.obligation, accounts, env) && Distinct(ActiveReserves(c.obligation.deposits))
    requires AllCurrent(Keys(FromObligation(c.obligation)), c.current)
    ensures FinishRepay(WithdrawStep(c, key, amount).value, key, accounts, env).Ok?
  {
    hide ListServes, AllCurrent, ActiveReserves, Refresh, EditAfterWithdraw, FromObligation, WithdrawStep;
    hide CollateralAmount, FirstWith;
    var c3 := WithdrawStep(c, key, amount).value;
    var o := c3.obligation;
    WithdrawMarks(c, key, amount);
    var i := WithdrawReduces(c, key, amount);
    EditKeepsServing(c.obligation, o, key, i, accounts, env);
    FullWithdrawalTest(c.obligation.deposits, o.deposits, key, i);
    MoreIsCurrent(Keys(FromObligation(c.obligation)), c.current, c3.current + {key});
    CurrentAfterWithdraw(c.obligation, o, key, i, c3.current);
    BorrowedIff(o, key);
    var stillUsed := !FullyWithdrawn(o, key) || FirstWith(o.borrows, key).Some?;
    RefreshAcceptedIff(if stillUsed then FreshenReserve(c3, key) else c3, EditAfterWithdraw(o, key, accounts), env);
  }

  lemma {:induction false} BorrowedIff(o: Obligation, key: Pubkey)
    requires key != DEFAULT_KEY
    ensures FirstWith(o.borrows, key).Some? <==> key in ActiveReserves(o.borrows)
  {
    ActiveReservesMembers(o.borrows, key);
  }

  // ----- deposit_and_withdraw succeeds exactly when ... -----

  /** The obligation after the deposit. */
  function Deposited(o: Obligation, key: Pubkey, amount: nat): (r: Result<Obligation, SlotError>) {
    var deposits :- AddTo(o.deposits, key, amount);
    Ok(o.(deposits := deposits))
  }

  lemma {:induction false} CurrentAfterDeposit(o: Obligation, key: Pubkey, amount: nat, current: set<Pubkey>)
    requires key != DEFAULT_KEY && Deposited(o, key, amount).Ok? && OneSlotEach(o)
    requires AllCurrent(Keys(FromObligation(o)), current)
    ensures var o1 := Deposited(o, key, amount).value;
      AllCurrent(Keys(FromObligation(o1)), current + {key}) && OneSlotEach(o1)
  {
    hide ActiveReserves, AddTo, Distinct;
    var o1 := Deposited(o, key, amount).value;
    AddKeepsDistinct(o.deposits, key, amount);
    var i := AddCredits(o.deposits, key, amount);
    CreditedSlotReserves(o.deposits, o1.deposits, key, i);
    var d := ActiveReserves(o.deposits);
    forall k | k in Keys(FromObligation(o1))
      ensures k in current + {key}
    {
      assert k == key || k in d || k in ActiveReserves(o.borrows);
      assert k in d ==> k in Keys(FromObligation(o));
      assert k in ActiveReserves(o.borrows) ==> k in Keys(FromObligation(o));
    }
  }

  /** With every active reserve up to date, `deposit_and_withdraw` succeeds exactly when its arguments are
      good and the list serves the obligation the deposit leaves: whatever is withdrawn, in part or in
      full, and whichever reserves are also borrowed, the second refresh never fails. */
  lemma {:induction false} DepositAndWithdrawAcceptedIff(c: Chain, a: DepositAndWithdrawArgs, env: Env)
    requires c.upToDate && AllCurrent(Keys(FromObligation(c.obligation)), c.current) && OneSlotEach(c.obligation)
    requires a.depositKey != DEFAULT_KEY && a.withdrawKey != DEFAULT_KEY
    ensures DepositAndWithdrawStep(c, a, env).Ok? <==>
      && a.depositKey != a.withdrawKey && a.depositedValue > 0 && a.collateral > 0
      && PermissionGiven(a.permissioner, a.remaining)
      && Deposited(c.obligation, a.depositKey, a.collateral).Ok?
      && var o1 := Deposited(c.obligation, a.depositKey, a.collateral).value;
      && ListServes(o1, StripPermission(a.permissioner, a.remaining), env)
      && WithdrawPossible(o1, a.withdrawKey, a.withdrawn)
    ensures DepositAndWithdrawStep(c, a, env).Ok? ==>
      var o1 := Deposited(c.obligation, a.depositKey, a.collateral).value;
      var (c', list) := DepositAndWithdrawStep(c, a, env).value;
      LinesUp(o1, StripPermission(a.permissioner, a.remaining), env.pda) ==>
        IsClosed(c'.obligation) || LinesUp(c'.obligation, list, env.pda)
  {
    hide ListServes, Refresh, AllCurrent, FinishDeposit, WithdrawStep, AddTo, ActiveReserves, WithdrawPossible;
    hide FromObligation;
    hide LinesUp, IsClosed;
    var key := a.depositKey;
    var start := FreshenReserve(c, key);
    if a.depositKey != a.withdrawKey && a.depositedValue > 0 && a.collateral > 0
       && PermissionGiven(a.permissioner, a.remaining) && Deposited(c.obligation, key, a.collateral).Ok?
    {
      var o1 := Deposited(c.obligation, key, a.collateral).value;
      var accounts := StripPermission(a.permissioner, a.remaining);
      var c1 := DepositStep(start, key, a.collateral).value;
      var c1' := FreshenReserve(c1, key);
      assert c1.obligation == o1;
      assert c1'.current == c.current + {key};
      CurrentAfterDeposit(c.obligation, key, a.collateral, c.current);
      RefreshAcceptedIff(c1', accounts, env);
      if ListServes(o1, accounts, env) {
        var c2 := c1'.(upToDate := true);
        DepositsAreKeys(o1, c2.current);
        WithdrawStepIff(c2, a.withdrawKey, a.withdrawn);
        if WithdrawStep(c2, a.withdrawKey, a.withdrawn).Ok? {
          FinishDepositNeverFails(c2, a.withdrawKey, a.withdrawn, accounts, env);
          if LinesUp(o1, accounts, env.pda) {
            FinalListLinesUp(c2, a.withdrawKey, a.withdrawn, accounts, env);
          }
        }
      }
    }
  }

  lemma {:induction false} DepositsAreKeys(o: Obligation, current: set<Pubkey>)
    requires AllCurrent(Keys(FromObligation(o)), current)
    ensures AllCurrent(ActiveReserves(o.deposits), current) && AllCurrent(ActiveReserves(o.borrows), current)
  {
    hide ActiveReserves;
    var d, b := ActiveReserves(o.deposits), ActiveReserves(o.borrows);
    forall k | k in d || k in b
      ensures k in current
    {
      assert k in Keys(FromObligation(o));
    }
  }

  // ----- repay_and_withdraw_and_redeem succeeds exactly when ... -----

  /** Repaying `settled` of this borrow is possible. */
  predicate RepayPossible(o: Obligation, key: Pubkey, settled: nat) {
    FindSlot(o.borrows, key).Ok? && 0 < settled <= o.borrows[FindSlot(o.borrows, key).value].amount
  }

  /** The obligation after the repayment. */
  function AfterRepay(o: Obligation, key: Pubkey, settled: nat): (after: Obligation)
    requires RepayPossible(o, key, settled)
  {
    Repaid(o, key, settled).value
  }

  lemma {:induction false} RepayStepIff(c: Chain, key: Pubkey, settled: nat)
    requires c.upToDate && AllCurrent(ActiveReserves(c.obligation.borrows), c.current) && key != DEFAULT_KEY
    ensures RepayStep(c, key, settled).Ok? <==> RepayPossible(c.obligation, key, settled)
    ensures RepayPossible(c.obligation, key, settled) ==>
              RepayStep(c, key, settled).value == Used(c, AfterRepay(c.obligation, key, settled), key)
  {
    hide ActiveReserves;
    if FindSlot(c.obligation.borrows, key).Ok? {
      ActiveReservesMembers(c.obligation.borrows, key);
      assert Active(c.obligation.borrows[FindSlot(c.obligation.borrows, key).value]);
    }
  }

  lemma {:induction false} RepayReduces(o: Obligation, key: Pubkey, settled: nat) returns (i: nat)
    requires key != DEFAULT_KEY && RepayPossible(o, key, settled)
    ensures BorrowReduced(o, AfterRepay(o, key, settled), key, i)
    ensures AfterRepay(o, key, settled).deposits == o.deposits && AfterRepay(o, key, settled).referrer == o.referrer
  {
    hide FindSlot;
    i := FindSlot(o.borrows, key).value;
    SettleReduces(o.borrows, i, settled);
  }

  /** The repaid reserve is not left stale while still in use. */
  predicate RepaidReserveServed(o: Obligation, after: Obligation, repayKey: Pubkey, withdrawKey: Pubkey) {
    FreshensRepaid(o, after, repayKey, withdrawKey) || repayKey !in ActiveReserves(o.deposits)
  }

  /** After a full repayment the borrow is gone; after a partial one the count is what it was. */
  lemma {:induction false} RepaidKeys(o: Obligation, after: Obligation, key: Pubkey, i: nat)
    requires BorrowReduced(o, after, key, i) && OneSlotEach(o)
    ensures ActiveReserves(after.deposits) == ActiveReserves(o.deposits)
    ensures CountActive(o.borrows) == CountActive(after.borrows) <==> key in ActiveReserves(after.borrows)
    ensures key in ActiveReserves(o.borrows)
    ensures forall k :: k in ActiveReserves(after.borrows) ==> k in ActiveReserves(o.borrows)
    ensures Distinct(ActiveReserves(after.borrows))
  {
    hide ActiveReserves, CountActive;
    SameKeysSameReserves(o.deposits, after.deposits);
    ReducedSlotReserves(o.borrows, after.borrows, key, i);
    ActiveCount(o.borrows);
    ActiveCount(after.borrows);
    CutKeepsDistinct(ActiveReserves(o.borrows), |ActiveReserves(o.borrows[..i])|);
  }

  lemma {:induction false} SeparateAfterRepay(o: Obligation, after: Obligation, key: Pubkey, i: nat, env: Env)
    requires BorrowReduced(o, after, key, i) && SeparateAddresses(o, env.pda)
    ensures SeparateStates(after, env)
  {
    hide ActiveReserves, Distinct, ReferrerStates;
    ReducedSlotReserves(o.borrows, after.borrows, key, i);
    var b, r := ActiveReserves(o.borrows), |ActiveReserves(o.borrows[..i])|;
    if HasReferrer(o) && after.borrows[i].reserve != key {
      ReferrerStatesCut(o.referrer, b, env.pda, r);
      CutKeepsDistinct(ReferrerStates(o.referrer, b, env.pda), r);
    }
  }

  /** The marks before the first nested refresh: everything is up to date unless the repaid reserve was
      left stale and still holds a deposit. */
  lemma {:induction false} CurrentAfterRepay(c: Chain, after: Obligation, a: RepayAndWithdrawArgs, i: nat)
    requires BorrowReduced(c.obligation, after, a.repayKey, i) && OneSlotEach(c.obligation)
    requires AllCurrent(Keys(FromObligation(c.obligation)), c.current)
    ensures var c1 := Used(c, after, a.repayKey);
      var c2 := if FreshensRepaid(c.obligation, after, a.repayKey, a.withdrawKey) then FreshenReserve(c1, a.repayKey)
                else c1;
      && (AllCurrent(Keys(FromObligation(after)), c2.current) <==>
          RepaidReserveServed(c.obligation, after, a.repayKey, a.withdrawKey))
      && AllCurrent(ActiveReserves(after.borrows), c2.current)
  {
    hide ActiveReserves, CountActive, Distinct, BorrowReduced;
    var o := c.obligation;
    var again := FreshensRepaid(o, after, a.repayKey, a.withdrawKey);
    var current := if again then c.current - {a.repayKey} + {a.repayKey} else c.current - {a.repayKey};
    RepaidKeys(o, after, a.repayKey, i);
    DepositsAreKeys(o, c.current);
    forall k | k in ActiveReserves(after.borrows)
      ensures k in current
    {
      assert k in ActiveReserves(o.borrows);
    }
    if RepaidReserveServed(o, after, a.repayKey, a.withdrawKey) {
      forall k | k in Keys(FromObligation(after))
        ensures k in current
      {
        assert k in ActiveReserves(o.deposits) || k in ActiveReserves(after.borrows);
      }
    } else {
      assert a.repayKey in Keys(FromObligation(after)) && a.repayKey !in current;
    }
  }

  /** When the account list is right, the deposit pass can only fail on a stale reserve. */
  lemma {:induction false} RightListOnlyStale(ps: seq<Position>, current: set<Pubkey>)
    ensures CheckDeposits(ps, ActiveReserves(ps), current) in {None, Some(RefreshError.ReserveStale)}
  {
    hide ActiveReserves;
    if ps != [] {
      ActiveReservesCons(ps);
      RightListOnlyStale(ps[1..], current);
      if Active(ps[0]) {
        assert ActiveReserves(ps)[1..] == ActiveReserves(ps[1..]);
      } else {
        assert ActiveReserves(ps) == ActiveReserves(ps[1..]);
      }
    }
  }

  /** A served list with current borrows is refused, if at all, for a stale deposit. */
  lemma {:induction false} ServedListOnlyStale(c: Chain, remaining: seq<Pubkey>, env: Env)
    requires ListServes(c.obligation, remaining, env) && AllCurrent(ActiveReserves(c.obligation.borrows), c.current)
    ensures Refresh(c, remaining, env).Err? ==> Refresh(c, remaining, env) == Err(RefreshError.ReserveStale)
  {
    hide ActiveReserves, CountActive, ChargedStates, CheckBorrows, CheckDeposits, AllCurrent;
    var o := c.obligation;
    var s := SliceRemaining(o, remaining).value;
    CheckBorrowsIff(o.borrows, s.borrows, s.referrerStates, o.referrer, c.current, env);
    RightListOnlyStale(o.deposits, c.current);
  }

  /** The list that lines up before the call lines up after the repayment, and is taken exactly when the
      referrals are in order and the repaid reserve is not a stale deposit. */
  lemma {:induction false} FirstRefreshAfterRepayIff(
    c: Chain, after: Obligation, a: RepayAndWithdrawArgs, i: nat, env: Env)
    requires BorrowReduced(c.obligation, after, a.repayKey, i) && SeparateAddresses(c.obligation, env.pda)
    requires AllCurrent(Keys(FromObligation(c.obligation)), c.current)
    requires LinesUp(c.obligation, a.remaining, env.pda)
    ensures var c1 := Used(c, after, a.repayKey);
      var again := FreshensRepaid(c.obligation, after, a.repayKey, a.withdrawKey);
      var accounts := EditAfterRepay(c.obligation, after, a.repayKey, a.remaining, env.pda);
      var r := Refresh(if again then FreshenReserve(c1, a.repayKey) else c1, accounts, env);
      && (ListServes(after, accounts, env) <==> ReferralsInOrder(after, env))
      && (r.Ok? <==>
          ReferralsInOrder(after, env) && RepaidReserveServed(c.obligation, after, a.repayKey, a.withdrawKey))
      && (ReferralsInOrder(after, env) && r.Err? ==> r == Err(RefreshError.ReserveStale))
  {
    hide ActiveReserves, CountActive, Refresh, ListServes, ReferralsInOrder, AllCurrent, RepaidReserveServed, LinesUp;
    hide FreshensRepaid, EditAfterRepay, RemainingAccounts, FromObligation, BorrowReduced;
    var o := c.obligation;
    var c1 := Used(c, after, a.repayKey);
    var again := FreshensRepaid(o, after, a.repayKey, a.withdrawKey);
    var c2 := if again then FreshenReserve(c1, a.repayKey) else c1;
    var accounts := EditAfterRepay(o, after, a.repayKey, a.remaining, env.pda);
    EditRealignsAfterRepay(o, after, a.repayKey, i, a.remaining, env.pda);
    ClientListIsTheOnlyOneThatLinesUp(after, accounts, env.pda);
    SeparateAfterRepay(o, after, a.repayKey, i, env);
    ClientListServesIff(after, env);
    CurrentAfterRepay(c, after, a, i);
    RefreshAcceptedIff(c2, accounts, env);
    if ReferralsInOrder(after, env) {
      ServedListOnlyStale(c2, accounts, env);
    }
  }

  /** With a list that lines up and every active reserve up to date, `repay_and_withdraw_and_redeem`
      succeeds exactly when its arguments are good, charging borrows come first among those left, and the
      repaid reserve is refreshed again or holds no deposit. A reserve repaid in full that is still a
      deposit, and not the one withdrawn from, is stale at the next refresh, which says so. */
  lemma {:induction false} RepayAndWithdrawAcceptedIff(c: Chain, a: RepayAndWithdrawArgs, env: Env)
    requires c.upToDate && AllCurrent(Keys(FromObligation(c.obligation)), c.current)
    requires SeparateAddresses(c.obligation, env.pda) && LinesUp(c.obligation, a.remaining, env.pda)
    requires a.repayKey != DEFAULT_KEY && a.withdrawKey != DEFAULT_KEY
    ensures RepayAndWithdrawStep(c, a, env).Ok? <==>
      && a.depositedValue > 0 && RepayPossible(c.obligation, a.repayKey, a.settled)
      && WithdrawPossible(c.obligation, a.withdrawKey, a.withdrawn)
      && var after := AfterRepay(c.obligation, a.repayKey, a.settled);
      && ReferralsInOrder(after, env)
      && RepaidReserveServed(c.obligation, after, a.repayKey, a.withdrawKey)
    ensures a.depositedValue > 0 && RepayPossible(c.obligation, a.repayKey, a.settled) ==>
      var after := AfterRepay(c.obligation, a.repayKey, a.settled);
      ReferralsInOrder(after, env) && !RepaidReserveServed(c.obligation, after, a.repayKey, a.withdrawKey) ==>
        RepayAndWithdrawStep(c, a, env) == Err(RefreshFailed(RefreshError.ReserveStale))
    ensures RepayAndWithdrawStep(c, a, env).Ok? ==>
      var (c', list) := RepayAndWithdrawStep(c, a, env).value;
      IsClosed(c'.obligation) || LinesUp(c'.obligation, list, env.pda)
  {
    hide ActiveReserves, CountActive, Refresh, ListServes, ReferralsInOrder, AllCurrent, RepaidReserveServed, LinesUp;
    hide FreshensRepaid, EditAfterRepay, RepayStep, WithdrawStep, FinishRepay, RepayPossible, AfterRepay;
    hide FromObligation;
    hide FindSlot, BorrowReduced, IsClosed;
    var o := c.obligation;
    DepositsAreKeys(o, c.current);
    RepayStepIff(c, a.repayKey, a.settled);
    if a.depositedValue > 0 && RepayPossible(o, a.repayKey, a.settled) {
      var after := AfterRepay(o, a.repayKey, a.settled);
      var i := RepayReduces(o, a.repayKey, a.settled);
      FirstRefreshAfterRepayIff(c, after, a, i, env);
      if ReferralsInOrder(after, env) && RepaidReserveServed(o, after, a.repayKey, a.withdrawKey) {
        AfterFirstRefresh(c, after, a, i, env);
      }
    }
  }

  /** From the first nested refresh on, only the withdrawal's own amount can be wrong. */
  lemma {:induction false} AfterFirstRefresh(c: Chain, after: Obligation, a: RepayAndWithdrawArgs, i: nat, env: Env)
    requires BorrowReduced(c.obligation, after, a.repayKey, i) && SeparateAddresses(c.obligation, env.pda)
    requires after.deposits == c.obligation.deposits && a.withdrawKey != DEFAULT_KEY
    requires AllCurrent(Keys(FromObligation(c.obligation)), c.current)
    requires LinesUp(c.obligation, a.remaining, env.pda)
    requires ReferralsInOrder(after, env) && RepaidReserveServed(c.obligation, after, a.repayKey, a.withdrawKey)
    ensures var c1 := Used(c, after, a.repayKey);
      var again := FreshensRepaid(c.obligation, after, a.repayKey, a.withdrawKey);
      var c2 := if again then FreshenReserve(c1, a.repayKey) else c1;
      var accounts := EditAfterRepay(c.obligation, after, a.repayKey, a.remaining, env.pda);
      var c3 := c2.(upToDate := true);
      && Refresh(c2, accounts, env) == Ok(c3)
      && (WithdrawStep(c3, a.withdrawKey, a.withdrawn).Ok? <==>
          WithdrawPossible(c.obligation, a.withdrawKey, a.withdrawn))
      && (WithdrawStep(c3, a.withdrawKey, a.withdrawn).Ok? ==>
          var done := FinishRepay(WithdrawStep(c3, a.withdrawKey, a.withdrawn).value, a.withdrawKey, accounts, env);
          done.Ok? && (IsClosed(done.value.0.obligation) || LinesUp(done.value.0.obligation, done.value.1, env.pda)))
  {
    hide ActiveReserves, CountActive, Refresh, ListServes, ReferralsInOrder, AllCurrent, RepaidReserveServed, LinesUp;
    hide FreshensRepaid, EditAfterRepay, WithdrawStep, FinishRepay, FromObligation, FindSlot, BorrowReduced;
    var o := c.obligation;
    var c1 := Used(c, after, a.repayKey);
    var again := FreshensRepaid(o, after, a.repayKey, a.withdrawKey);
    var c2 := if again then FreshenReserve(c1, a.repayKey) else c1;
    var accounts := EditAfterRepay(o, after, a.repayKey, a.remaining, env.pda);
    var c3 := c2.(upToDate := true);
    FirstRefreshAfterRepayIff(c, after, a, i, env);
    RefreshAcceptedIff(c2, accounts, env);
    DepositsAreKeys(after, c3.current);
    WithdrawStepIff(c3, a.withdrawKey, a.withdrawn);
    if WithdrawStep(c3, a.withdrawKey, a.withdrawn).Ok? {
      FinishRepayNeverFails(c3, a.withdrawKey, a.withdrawn, accounts, env);
      EditRealignsAfterRepay(o, after, a.repayKey, i, a.remaining, env.pda);
      FinalListLinesUp(c3, a.withdrawKey, a.withdrawn, accounts, env);
    }
  }

  /** A list that lines up before the withdrawal lines up after the last edit. */
  lemma {:induction false} FinalListLinesUp(c: Chain, key: Pubkey, amount: nat, accounts: seq<Pubkey>, env: Env)
    requires WithdrawStep(c, key, amount).Ok? && key != DEFAULT_KEY
    requires LinesUp(c.obligation, accounts, env.pda) && Distinct(ActiveReserves(c.obligation.deposits))
    ensures var c3 := WithdrawStep(c, key, amount).value;
      && var r := FinishRepay(c3, key, accounts, env);
      && var q := FinishDeposit(c3, key, accounts, env);
      && (r.Ok? ==> IsClosed(r.value.0.obligation) || LinesUp(r.value.0.obligation, r.value.1, env.pda))
      && (q.Ok? ==> IsClosed(q.value.0.obligation) || LinesUp(q.value.0.obligation, q.value.1, env.pda))
  {
    hide ActiveReserves, LinesUp, Refresh, EditAfterWithdraw, WithdrawStep, IsClosed;
    var c3 := WithdrawStep(c, key, amount).value;
    var i := WithdrawReduces(c, key, amount);
    EditRealignsAfterWithdraw(c.obligation, c3.obligation, key, i, accounts, env.pda);
    var freshened := FreshenReserve(c3, key);
    RefreshAcceptedIff(freshened, EditAfterWithdraw(c3.obligation, key, accounts), env);
    RefreshAcceptedIff(c3, EditAfterWithdraw(c3.obligation, key, accounts), env);
  }

  /** The refused case at its smallest: deposits in R and W, a borrow of R repaid in full, part of W
      withdrawn. The list is the client's and every reserve is up to date. */
  lemma {:induction false} StaleRepaidDepositIsRefused(
    r: Pubkey, w: Pubkey, x: nat, y: nat, debt: nat, withdrawn: nat, env: Env)
    requires r != w && r != DEFAULT_KEY && w != DEFAULT_KEY && debt > 0 && 0 < withdrawn < y
    ensures var o := Obligation([Position(r, x), Position(w, y)], [Position(r, debt)], DEFAULT_KEY);
      && LinesUp(o, [r, w, r], env.pda)
      && RepayAndWithdrawStep(Chain(o, true, {r, w}), RepayAndWithdrawArgs(1, r, w, debt, withdrawn, [r, w, r]), env)
         == Err(RefreshFailed(RefreshError.ReserveStale))
  {
    hide Refresh, LinesUp, EditAfterRepay, WithdrawStep, FinishRepay, RepayAndWithdrawStep, ReferralsInOrder;
    hide ActiveReserves, CountActive, FindSlot, Settle, AfterRepay;
    var o := Obligation([Position(r, x), Position(w, y)], [Position(r, debt)], DEFAULT_KEY);
    var a := RepayAndWithdrawArgs(1, r, w, debt, withdrawn, [r, w, r]);
    TwoActive(Position(r, x), Position(w, y));
    OnlyBorrowRepaid(o, r, debt);
    var after := AfterRepay(o, r, debt);
    ClientListIsTheOnlyOneThatLinesUp(o, a.remaining, env.pda);
    InOrderWithoutReferrer(after, env);
    assert Keys(FromObligation(o)) == [r, w, r];
    RepayAndWithdrawAcceptedIff(Chain(o, true, {r, w}), a, env);
  }

  lemma {:induction false} TwoActive(p: Position, q: Position)
    requires Active(p) && Active(q)
    ensures ActiveReserves([p, q]) == [p.reserve, q.reserve]
  {
    hide ActiveReserves;
    ActiveReservesOne(p);
    ActiveReservesOne(q);
    assert [p, q] == [p] + [q];
    ActiveReservesAppend([p], [q]);
  }

  lemma {:induction false} OnlyBorrowRepaid(o: Obligation, r: Pubkey, debt: nat)
    requires o.borrows == [Position(r, debt)] && r != DEFAULT_KEY && debt > 0
    ensures ActiveReserves(o.borrows) == [r] && RepayPossible(o, r, debt)
    ensures var after := AfterRepay(o, r, debt);
      && after.referrer == o.referrer && ActiveReserves(after.borrows) == []
      && CountActive(after.borrows) == 0 && CountActive(o.borrows) == 1
  {
    hide ActiveReserves, CountActive;
    ActiveReservesOne(o.borrows[0]);
    ActiveReservesOne(EMPTY_SLOT);
    ActiveCount(o.borrows);
    assert FindSlot(o.borrows, r) == Ok(0);
    assert o.borrows[0 := EMPTY_SLOT] == [EMPTY_SLOT];
    ActiveCount([EMPTY_SLOT]);
  }

  lemma {:induction false} InOrderWithoutReferrer(o: Obligation, env: Env)
    requires !HasReferrer(o)
    ensures ReferralsInOrder(o, env)
  {
    NoReferrerServes(ActiveReserves(o.borrows), env);
  }
}
