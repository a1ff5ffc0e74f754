/** What the two compound handlers move: the exact change of every deposit and every borrow, and which
    reserves are out of date afterwards. */
module CompoundAmounts {
  import opened Common
  import opened ObligationLayout
  import opened ObligationSlots
  import opened ObligationRefresh
  import opened NestedRefresh
  import opened SlotAmounts
  import opened CompoundHandlers

  // ----- One lending operation -----

  /** `deposit_obligation_collateral` puts the amount on top of what the reserve's slot held. */
  lemma {:induction false} DepositMoves(c: Chain, key: Pubkey, amount: nat, k: Pubkey)
    requires key != DEFAULT_KEY && k != DEFAULT_KEY && DepositStep(c, key, amount).Ok?
    ensures var c' := DepositStep(c, key, amount).value;
      && Held(c'.obligation.deposits, k) == Held(c.obligation.deposits, k) + Gained(key, k, amount)
      && c'.obligation.borrows == c.obligation.borrows && c'.obligation.referrer == c.obligation.referrer
      && !c'.upToDate && c'.current == c.current - {key}
  {
    hide AddTo, Held;
    AddRaises(c.obligation.deposits, key, amount, k);
  }

  /** It is accepted exactly for a positive amount, with reserve and obligation up to date, and with room
      for the reserve. */
  lemma {:induction false} DepositAcceptedIff(c: Chain, key: Pubkey, amount: nat)
    requires key != DEFAULT_KEY
    ensures DepositStep(c, key, amount).Ok? <==>
      && amount > 0 && key in c.current && c.upToDate
      && (key in ActiveReserves(c.obligation.deposits) || CountActive(c.obligation.deposits) < |c.obligation.deposits|)
  {
    hide AddTo, ActiveReserves, CountActive;
    AddAcceptedIff(c.obligation.deposits, key, amount);
  }

  /** `withdraw_obligation_collateral` takes the amount out of what the reserve's slot held. */
  lemma {:induction false} WithdrawMoves(c: Chain, key: Pubkey, amount: nat, k: Pubkey)
    requires key != DEFAULT_KEY && k != DEFAULT_KEY && WithdrawStep(c, key, amount).Ok?
    ensures var c' := WithdrawStep(c, key, amount).value;
      && Held(c'.obligation.deposits, k) == Held(c.obligation.deposits, k) - Gained(key, k, amount)
      && c'.obligation.borrows == c.obligation.borrows && c'.obligation.referrer == c.obligation.referrer
      && !c'.upToDate && c'.current == c.current - {key}
  {
    hide Settle, FindSlot, Held;
    SettleLowers(c.obligation.deposits, FindSlot(c.obligation.deposits, key).value, amount, k);
  }

  /** It is accepted exactly for a positive amount that is held, with reserve and obligation up to date. */
  lemma {:induction false} WithdrawAcceptedIff(c: Chain, key: Pubkey, amount: nat)
    requires key != DEFAULT_KEY && OneSlotEach(c.obligation)
    ensures WithdrawStep(c, key, amount).Ok? <==>
            key in c.current && c.upToDate && 0 < amount <= Held(c.obligation.deposits, key)
    ensures WithdrawPossible(c.obligation, key, amount) <==> 0 < amount <= Held(c.obligation.deposits, key)
  {
    hide FindSlot, Held, OneSlotEach;
    WithdrawnIff(c.obligation, key, amount);
  }

  /** `repay_obligation_liquidity` takes the settled amount off the reserve's debt. */
  lemma {:induction false} RepayMoves(c: Chain, key: Pubkey, amount: nat, k: Pubkey)
    requires key != DEFAULT_KEY && k != DEFAULT_KEY && RepayStep(c, key, amount).Ok?
    ensures var c' := RepayStep(c, key, amount).value;
      && Held(c'.obligation.borrows, k) == Held(c.obligation.borrows, k) - Gained(key, k, amount)
      && c'.obligation.deposits == c.obligation.deposits && c'.obligation.referrer == c.obligation.referrer
      && !c'.upToDate && c'.current == c.current - {key}
  {
    hide Settle, FindSlot, Held;
    SettleLowers(c.obligation.borrows, FindSlot(c.obligation.borrows, key).value, amount, k);
  }

  /** It is accepted exactly for a positive amount that is owed, with reserve and obligation up to date. */
  lemma {:induction false} RepayAcceptedIff(c: Chain, key: Pubkey, amount: nat)
    requires key != DEFAULT_KEY && OneSlotEach(c.obligation)
    ensures RepayStep(c, key, amount).Ok? <==>
            key in c.current && c.upToDate && 0 < amount <= Held(c.obligation.borrows, key)
    ensures RepayPossible(c.obligation, key, amount) <==> 0 < amount <= Held(c.obligation.borrows, key)
  {
    hide FindSlot, Held, OneSlotEach;
    RepaidIff(c.obligation, key, amount);
  }

  // ----- The compound handlers -----

  lemma {:induction false} NothingActiveNothingHeld(ps: seq<Position>, key: Pubkey)
    requires key != DEFAULT_KEY && CountActive(ps) == 0
    ensures Held(ps, key) == 0
  {
    if ps != [] {
      NothingActiveNothingHeld(ps[..|ps| - 1], key);
    }
  }

  lemma {:induction false} RefreshMoves(c: Chain, accounts: seq<Pubkey>, env: Env)
    requires RefreshStep(c, accounts, env).Ok?
    ensures RefreshStep(c, accounts, env).value == c.(upToDate := true)
  {
    hide Refresh;
    RefreshAcceptedIff(c, accounts, env);
  }

  /** A successful `deposit_and_withdraw` adds the collateral to the deposit reserve's holding, takes the
      withdrawn amount from the withdraw reserve's, and leaves every other deposit and every borrow alone.
      The obligation and the withdraw reserve are left stale, the deposit reserve is up to date. */
  lemma {:induction false} DepositAndWithdrawMoves(c: Chain, a: DepositAndWithdrawArgs, env: Env, k: Pubkey)
    requires a.depositKey != DEFAULT_KEY && a.withdrawKey != DEFAULT_KEY && k != DEFAULT_KEY
    requires DepositAndWithdrawStep(c, a, env).Ok?
    ensures var c' := DepositAndWithdrawStep(c, a, env).value.0;
      && Held(c'.obligation.deposits, k) == Held(c.obligation.deposits, k)
         + Gained(a.depositKey, k, a.collateral) - Gained(a.withdrawKey, k, a.withdrawn)
      && c'.obligation.borrows == c.obligation.borrows && c'.obligation.referrer == c.obligation.referrer
      && !c'.upToDate && c'.current == c.current + {a.depositKey} - {a.withdrawKey}
  {
    hide DepositStep, WithdrawStep, RefreshStep, Held, CountActive, EditAfterWithdraw, StripPermission;
    var start := FreshenReserve(c, a.depositKey);
    var c1 := DepositStep(start, a.depositKey, a.collateral).value;
    DepositMoves(start, a.depositKey, a.collateral, k);
    DepositMoves(start, a.depositKey, a.collateral, a.depositKey);
    var accounts := StripPermission(a.permissioner, a.remaining);
    var c2 := RefreshStep(FreshenReserve(c1, a.depositKey), accounts, env).value;
    RefreshMoves(FreshenReserve(c1, a.depositKey), accounts, env);
    var c3 := WithdrawStep(c2, a.withdrawKey, a.withdrawn).value;
    WithdrawMoves(c2, a.withdrawKey, a.withdrawn, k);
    WithdrawMoves(c2, a.withdrawKey, a.withdrawn, a.depositKey);
    DepositIsPositive(start, a.depositKey, a.collateral);
    if IsClosed(c3.obligation) {
      NothingActiveNothingHeld(c3.obligation.deposits, a.depositKey);
    } else {
      RefreshMoves(FreshenReserve(c3, a.withdrawKey), EditAfterWithdraw(c3.obligation, a.withdrawKey, accounts), env);
    }
  }

  lemma {:induction false} DepositIsPositive(c: Chain, key: Pubkey, amount: nat)
    requires DepositStep(c, key, amount).Ok?
    ensures amount > 0
  {
  }

  /** A successful `repay_and_withdraw_and_redeem` takes the settled amount off the repay reserve's debt
      and the withdrawn amount from the withdraw reserve's holding, and leaves every other borrow and every
      other deposit alone. The obligation and the withdraw reserve are left stale, and so is the repay
      reserve unless it was refreshed again. */
  lemma {:induction false} RepayAndWithdrawMoves(c: Chain, a: RepayAndWithdrawArgs, env: Env, k: Pubkey)
    requires a.repayKey != DEFAULT_KEY && a.withdrawKey != DEFAULT_KEY && k != DEFAULT_KEY
    requires RepayAndWithdrawStep(c, a, env).Ok?
    ensures var c' := RepayAndWithdrawStep(c, a, env).value.0; var o, o' := c.obligation, c'.obligation;
      && Held(o'.borrows, k) == Held(o.borrows, k) - Gained(a.repayKey, k, a.settled)
      && Held(o'.deposits, k) == Held(o.deposits, k) - Gained(a.withdrawKey, k, a.withdrawn)
      && o'.referrer == o.referrer
      && !c'.upToDate
      && c'.current == (if FreshensRepaid(o, o', a.repayKey, a.withdrawKey) then c.current
                        else c.current - {a.repayKey}) - {a.withdrawKey}
  {
    hide RepayStep, WithdrawStep, RefreshStep, Held, CountActive, EditAfterWithdraw, EditAfterRepay, FullyWithdrawn;
    hide FirstWith;
    var c1 := RepayStep(c, a.repayKey, a.settled).value;
    RepayMoves(c, a.repayKey, a.settled, k);
    RepayUsesCurrent(c, a.repayKey, a.settled);
    var again := FreshensRepaid(c.obligation, c1.obligation, a.repayKey, a.withdrawKey);
    var accounts := EditAfterRepay(c.obligation, c1.obligation, a.repayKey, a.remaining, env.pda);
    var c1' := if again then FreshenReserve(c1, a.repayKey) else c1;
    var c2 := RefreshStep(c1', accounts, env).value;
    RefreshMoves(c1', accounts, env);
    var c3 := WithdrawStep(c2, a.withdrawKey, a.withdrawn).value;
    WithdrawMoves(c2, a.withdrawKey, a.withdrawn, k);
    FinishRepayMoves(c3, a.withdrawKey, accounts, env);
  }

  lemma {:induction false} RepayUsesCurrent(c: Chain, key: Pubkey, amount: nat)
    requires RepayStep(c, key, amount).Ok?
    ensures key in c.current
  {
    hide FindSlot, TakeFrom;
  }

  lemma {:induction false} FinishRepayMoves(c: Chain, key: Pubkey, accounts: seq<Pubkey>, env: Env)
    requires FinishRepay(c, key, accounts, env).Ok? && !c.upToDate && key !in c.current
    ensures FinishRepay(c, key, accounts, env).value.0 == c
  {
    hide RefreshStep, CountActive, EditAfterWithdraw, FullyWithdrawn, FirstWith;
    if !IsClosed(c.obligation) {
      var stillUsed := !FullyWithdrawn(c.obligation, key) || FirstWith(c.obligation.borrows, key).Some?;
      var c1 := if stillUsed then FreshenReserve(c, key) else c;
      RefreshMoves(c1, EditAfterWithdraw(c.obligation, key, accounts), env);
    }
  }

  // ----- Refusals say what is wrong -----

  /** Whether a slot error is true of slots `ps`, reserve `key` and an amount to take. */
  ghost predicate SlotErrorIsTrue(e: SlotError, ps: seq<Position>, key: Pubkey, amount: nat) {
    match e
    case NoneActive => CountActive(ps) == 0
    case NoSuchSlot => key !in ActiveReserves(ps)
    case SlotEmpty => key in ActiveReserves(ps) && Held(ps, key) == 0
    case AmountTooSmall => amount == 0
    case MathOverflow => amount > Held(ps, key)
    case ReserveLimit => key !in ActiveReserves(ps) && CountActive(ps) == |ps|
  }

  lemma {:induction false} TakeRefusals(ps: seq<Position>, key: Pubkey, amount: nat)
    requires key != DEFAULT_KEY && Distinct(ActiveReserves(ps))
    ensures FindSlot(ps, key).Err? ==> SlotErrorIsTrue(FindSlot(ps, key).error, ps, key, amount)
    ensures FindSlot(ps, key).Ok? && TakeFrom(ps, FindSlot(ps, key).value, amount).Err? ==>
              SlotErrorIsTrue(TakeFrom(ps, FindSlot(ps, key).value, amount).error, ps, key, amount)
  {
    hide ActiveReserves, CountActive, Held, Distinct;
    ActiveReservesMembers(ps, key);
    FindSlotIff(ps, key);
    if FirstWith(ps, key).Some? {
      HeldIsSlot(ps, FirstWith(ps, key).value);
    }
  }

  lemma {:induction false} DepositRefusals(c: Chain, key: Pubkey, amount: nat)
    requires key != DEFAULT_KEY && DepositStep(c, key, amount).Err?
    ensures match DepositStep(c, key, amount).error
            case InvalidAmount => amount == 0
            case StaleReserve => key !in c.current
            case StaleObligation => !c.upToDate
            case SlotFailed(e) => e == ReserveLimit && SlotErrorIsTrue(e, c.obligation.deposits, key, amount)
            case _ => false
  {
    hide AddTo, ActiveReserves, CountActive, Held;
    AddAcceptedIff(c.obligation.deposits, key, amount);
    HoleIff(c.obligation.deposits);
  }

  lemma {:induction false} WithdrawRefusals(c: Chain, key: Pubkey, amount: nat)
    requires key != DEFAULT_KEY && OneSlotEach(c.obligation) && WithdrawStep(c, key, amount).Err?
    ensures match WithdrawStep(c, key, amount).error
            case StaleReserve => key !in c.current
            case StaleObligation => !c.upToDate
            case SlotFailed(e) => SlotErrorIsTrue(e, c.obligation.deposits, key, amount)
            case _ => false
  {
    hide FindSlot, TakeFrom, ActiveReserves, CountActive, Held, Distinct, SlotErrorIsTrue;
    TakeRefusals(c.obligation.deposits, key, amount);
  }

  lemma {:induction false} RepayRefusals(c: Chain, key: Pubkey, amount: nat)
    requires key != DEFAULT_KEY && OneSlotEach(c.obligation) && RepayStep(c, key, amount).Err?
    ensures match RepayStep(c, key, amount).error
            case StaleReserve => key !in c.current
            case StaleObligation => !c.upToDate
            case SlotFailed(e) => SlotErrorIsTrue(e, c.obligation.borrows, key, amount)
            case _ => false
  {
    hide FindSlot, TakeFrom, ActiveReserves, CountActive, Held, Distinct, SlotErrorIsTrue;
    TakeRefusals(c.obligation.borrows, key, amount);
  }

  /** Of a compound deposit and withdrawal that is refused although everything is up to date, the error says
      which argument, which amount or which account is at fault; staleness is blamed only for a withdraw
      reserve that holds no deposit. */
  lemma {:induction false} DepositAndWithdrawRefusals(c: Chain, a: DepositAndWithdrawArgs, env: Env)
    requires c.upToDate && AllCurrent(Keys(FromObligation(c.obligation)), c.current) && OneSlotEach(c.obligation)
    requires a.depositKey != DEFAULT_KEY && a.withdrawKey != DEFAULT_KEY
    requires DepositAndWithdrawStep(c, a, env).Err?
    ensures match DepositAndWithdrawStep(c, a, env).error
            case CannotUseSameReserve => a.depositKey == a.withdrawKey
            case ObligationDepositsEmpty => a.depositedValue == 0
            case MissingPermissioner => !PermissionGiven(a.permissioner, a.remaining)
            case InvalidAmount => a.collateral == 0
            case SlotFailed(e) =>
              || (e == ReserveLimit && SlotErrorIsTrue(e, c.obligation.deposits, a.depositKey, a.collateral))
              || (Deposited(c.obligation, a.depositKey, a.collateral).Ok?
                  && SlotErrorIsTrue(e, Deposited(c.obligation, a.depositKey, a.collateral).value.deposits,
                       a.withdrawKey, a.withdrawn))
            case RefreshFailed(e) =>
              && e != RefreshError.ReserveStale
              && PermissionGiven(a.permissioner, a.remaining) && Deposited(c.obligation, a.depositKey, a.collateral).Ok?
              && !ListServes(Deposited(c.obligation, a.depositKey, a.collateral).value,
                    StripPermission(a.permissioner, a.remaining), env)
            case StaleReserve => a.withdrawKey !in ActiveReserves(c.obligation.deposits)
            case _ => false
  {
    hide DepositStep, WithdrawStep, Refresh, Held, CountActive, ActiveReserves, ListServes, AllCurrent, FinishDeposit;
    hide SlotErrorIsTrue, AddTo, Distinct, FromObligation;
    if a.depositKey != a.withdrawKey && a.depositedValue > 0 && PermissionGiven(a.permissioner, a.remaining) {
      var key := a.depositKey;
      var start := FreshenReserve(c, key);
      var accounts := StripPermission(a.permissioner, a.remaining);
      if DepositStep(start, key, a.collateral).Err? {
        DepositRefusals(start, key, a.collateral);
      } else {
        DepositLeaves(start, key, a.collateral);
        var o1 := Deposited(c.obligation, key, a.collateral).value;
        CurrentAfterDeposit(c.obligation, key, a.collateral, c.current);
        var c1 := FreshenReserve(DepositStep(start, key, a.collateral).value, key);
        assert c1.current == c.current + {key};
        RefreshAcceptedIff(c1, accounts, env);
        if Refresh(c1, accounts, env).Err? {
          RefreshRefusals(c1, accounts, env);
        } else {
          var c2 := c1.(upToDate := true);
          if WithdrawStep(c2, a.withdrawKey, a.withdrawn).Err? {
            WithdrawRefusals(c2, a.withdrawKey, a.withdrawn);
            CurrentMembers(c.obligation, c.current, a.withdrawKey);
          } else {
            FinishDepositNeverFails(c2, a.withdrawKey, a.withdrawn, accounts, env);
          }
        }
      }
    }
  }

  lemma {:induction false} DepositLeaves(c: Chain, key: Pubkey, amount: nat)
    requires DepositStep(c, key, amount).Ok?
    ensures Deposited(c.obligation, key, amount).Ok?
    ensures DepositStep(c, key, amount).value == Used(c, Deposited(c.obligation, key, amount).value, key)
  {
    hide AddTo;
  }

  lemma {:induction false} CurrentMembers(o: Obligation, current: set<Pubkey>, key: Pubkey)
    requires AllCurrent(Keys(FromObligation(o)), current)
    ensures key in ActiveReserves(o.deposits) ==> key in current
  {
    hide ActiveReserves;
    assert key in ActiveReserves(o.deposits) ==> key in Keys(FromObligation(o));
  }

  /** The same for a compound repayment and withdrawal with a list that lines up: besides the withdraw
      reserve that holds no deposit, only a repaid reserve left stale is ever called stale. */
  lemma {:induction false} RepayAndWithdrawRefusals(c: Chain, a: RepayAndWithdrawArgs, env: Env)
    requires c.upToDate && AllCurrent(Keys(FromObligation(c.obligation)), c.current)
    requires SeparateAddresses(c.obligation, env.pda) && LinesUp(c.obligation, a.remaining, env.pda)
    requires a.repayKey != DEFAULT_KEY && a.withdrawKey != DEFAULT_KEY
    requires RepayAndWithdrawStep(c, a, env).Err?
    ensures match RepayAndWithdrawStep(c, a, env).error
            case ObligationDepositsEmpty => a.depositedValue == 0
            case SlotFailed(e) =>
              || SlotErrorIsTrue(e, c.obligation.borrows, a.repayKey, a.settled)
              || SlotErrorIsTrue(e, c.obligation.deposits, a.withdrawKey, a.withdrawn)
            case StaleReserve => a.withdrawKey !in ActiveReserves(c.obligation.deposits)
            case RefreshFailed(e) =>
              && RepayPossible(c.obligation, a.repayKey, a.settled)
              && var after := AfterRepay(c.obligation, a.repayKey, a.settled);
              if e == RefreshError.ReserveStale then
                !RepaidReserveServed(c.obligation, after, a.repayKey, a.withdrawKey)
              else !ReferralsInOrder(after, env) && (e == ReferrerAccountMismatch ==> HasReferrer(c.obligation))
            case _ => false
  {
    hide RepayStep, WithdrawStep, Refresh, Held, CountActive, ActiveReserves, ListServes, AllCurrent, FinishRepay;
    hide SlotErrorIsTrue, Distinct, FromObligation, LinesUp, ReferralsInOrder, RepaidReserveServed, EditAfterRepay;
    hide RepayPossible, AfterRepay, FreshensRepaid, ReferrerStates, BorrowReduced;
    var o := c.obligation;
    DepositsAreKeys(o, c.current);
    RepayStepIff(c, a.repayKey, a.settled);
    if a.depositedValue > 0 {
      if RepayStep(c, a.repayKey, a.settled).Err? {
        RepayRefusals(c, a.repayKey, a.settled);
        RepayFindsCurrent(c, a.repayKey, a.settled);
      } else {
        var after := AfterRepay(o, a.repayKey, a.settled);
        var i := RepayReduces(o, a.repayKey, a.settled);
        var c1 := Used(c, after, a.repayKey);
        var again := FreshensRepaid(o, after, a.repayKey, a.withdrawKey);
        var c2 := if again then FreshenReserve(c1, a.repayKey) else c1;
        var accounts := EditAfterRepay(o, after, a.repayKey, a.remaining, env.pda);
        FirstRefreshAfterRepayIff(c, after, a, i, env);
        CurrentAfterRepay(c, after, a, i);
        if Refresh(c2, accounts, env).Err? {
          RefreshRefusals(c2, accounts, env);
        } else {
          AfterFirstRefresh(c, after, a, i, env);
          var c3 := c2.(upToDate := true);
          if WithdrawStep(c3, a.withdrawKey, a.withdrawn).Err? {
            AfterRepayOneSlotEach(o, a.repayKey, a.settled);
            WithdrawRefusals(c3, a.withdrawKey, a.withdrawn);
            RefreshAcceptedIff(c2, accounts, env);
            CurrentMembers(after, c2.current, a.withdrawKey);
          }
        }
      }
    }
  }

  lemma {:induction false} AfterRepayOneSlotEach(o: Obligation, key: Pubkey, settled: nat)
    requires OneSlotEach(o) && key != DEFAULT_KEY && RepayPossible(o, key, settled)
    ensures OneSlotEach(AfterRepay(o, key, settled))
  {
    hide OneSlotEach, FindSlot;
    RepaidKeepsOneSlotEach(o, key, settled);
  }

  lemma {:induction false} RepayFindsCurrent(c: Chain, key: Pubkey, amount: nat)
    requires c.upToDate && AllCurrent(ActiveReserves(c.obligation.borrows), c.current) && key != DEFAULT_KEY
    requires RepayStep(c, key, amount).Err?
    ensures RepayStep(c, key, amount).error.SlotFailed?
  {
    hide ActiveReserves, TakeFrom;
    if FindSlot(c.obligation.borrows, key).Ok? {
      ActiveReservesMembers(c.obligation.borrows, key);
      assert Active(c.obligation.borrows[FindSlot(c.obligation.borrows, key).value]);
    }
  }

  /** The permissioner, if the market wants one, is the one account behind the list. */
  lemma {:induction false} PermissionerComesLast(permissioner: Pubkey, remaining: seq<Pubkey>, rest: seq<Pubkey>)
    ensures remaining == rest + [permissioner] <==>
            PermissionGiven(Some(permissioner), remaining) && StripPermission(Some(permissioner), remaining) == rest
    ensures PermissionGiven(None, remaining) && StripPermission(None, remaining) == remaining
  {
  }

  // ----- Success, in terms of what is held and owed -----

  lemma {:induction false} RepaidCountIff(o: Obligation, key: Pubkey, settled: nat)
    requires key != DEFAULT_KEY && OneSlotEach(o) && RepayPossible(o, key, settled)
    ensures CountActive(AfterRepay(o, key, settled).borrows) == CountActive(o.borrows) <==>
            settled < Held(o.borrows, key)
  {
    hide FindSlot, ActiveReserves, CountActive, Held, Distinct;
    var after := AfterRepay(o, key, settled);
    var i := FindSlot(o.borrows, key).value;
    RepaidIff(o, key, settled);
    SettleReduces(o.borrows, i, settled);
    ReducedSlotReserves(o.borrows, after.borrows, key, i);
    ActiveCount(o.borrows);
    ActiveCount(after.borrows);
  }

  /** `repay_and_withdraw_and_redeem`, with a list that lines up and everything up to date: it succeeds
      exactly when it settles some of what is owed and withdraws some of what is held, charging borrows come
      first among those left, and the repaid reserve is still owed something, is the one withdrawn from, or
      holds no deposit. */
  lemma {:induction false} RepayAndWithdrawSucceedsIff(c: Chain, a: RepayAndWithdrawArgs, env: Env)
    requires c.upToDate && AllCurrent(Keys(FromObligation(c.obligation)), c.current)
    requires SeparateAddresses(c.obligation, env.pda) && LinesUp(c.obligation, a.remaining, env.pda)
    requires a.repayKey != DEFAULT_KEY && a.withdrawKey != DEFAULT_KEY
    ensures var o := c.obligation;
      RepayAndWithdrawStep(c, a, env).Ok? <==>
      && a.depositedValue > 0
      && 0 < a.settled <= Held(o.borrows, a.repayKey) && 0 < a.withdrawn <= Held(o.deposits, a.withdrawKey)
      && RepayPossible(o, a.repayKey, a.settled) && ReferralsInOrder(AfterRepay(o, a.repayKey, a.settled), env)
      && (a.settled < Held(o.borrows, a.repayKey) || a.repayKey == a.withdrawKey
          || a.repayKey !in ActiveReserves(o.deposits))
  {
    hide RepayAndWithdrawStep, Held, ActiveReserves, ReferralsInOrder, RepayPossible, WithdrawPossible, AfterRepay;
    hide LinesUp, AllCurrent, FromObligation, CountActive, Distinct, ReferrerStates;
    RepayAndWithdrawAcceptedIff(c, a, env);
    PossibleIff(c, a.repayKey, a.settled, a.withdrawKey, a.withdrawn);
    if RepayPossible(c.obligation, a.repayKey, a.settled) {
      RepaidCountIff(c.obligation, a.repayKey, a.settled);
    }
  }

  lemma {:induction false} PossibleIff(c: Chain, repayKey: Pubkey, settled: nat, withdrawKey: Pubkey, withdrawn: nat)
    requires repayKey != DEFAULT_KEY && withdrawKey != DEFAULT_KEY && OneSlotEach(c.obligation)
    ensures RepayPossible(c.obligation, repayKey, settled) <==> 0 < settled <= Held(c.obligation.borrows, repayKey)
    ensures WithdrawPossible(c.obligation, withdrawKey, withdrawn) <==>
            0 < withdrawn <= Held(c.obligation.deposits, withdrawKey)
  {
    hide RepayStep, WithdrawStep, RepayPossible, WithdrawPossible, Held, OneSlotEach;
    RepayAcceptedIff(c, repayKey, settled);
    WithdrawAcceptedIff(c, withdrawKey, withdrawn);
  }

  /** `deposit_and_withdraw`, with everything up to date: it succeeds exactly when the reserves differ, the
      permissioner signed, something is deposited that finds room, something is withdrawn that is held, and
      the list serves the obligation the deposit leaves. */
  lemma {:induction false} DepositAndWithdrawSucceedsIff(c: Chain, a: DepositAndWithdrawArgs, env: Env)
    requires c.upToDate && AllCurrent(Keys(FromObligation(c.obligation)), c.current) && OneSlotEach(c.obligation)
    requires a.depositKey != DEFAULT_KEY && a.withdrawKey != DEFAULT_KEY
    ensures var o := c.obligation;
      DepositAndWithdrawStep(c, a, env).Ok? <==>
      && a.depositKey != a.withdrawKey && a.depositedValue > 0 && PermissionGiven(a.permissioner, a.remaining)
      && a.collateral > 0 && 0 < a.withdrawn <= Held(o.deposits, a.withdrawKey)
      && (a.depositKey in ActiveReserves(o.deposits) || CountActive(o.deposits) < |o.deposits|)
      && Deposited(o, a.depositKey, a.collateral).Ok?
      && ListServes(Deposited(o, a.depositKey, a.collateral).value, StripPermission(a.permissioner, a.remaining), env)
  {
    hide DepositAndWithdrawStep, Held, ActiveReserves, ListServes, WithdrawPossible, AddTo, AllCurrent, FromObligation;
    hide CountActive, Distinct;
    var o := c.obligation;
    DepositAndWithdrawAcceptedIff(c, a, env);
    AddAcceptedIff(o.deposits, a.depositKey, a.collateral);
    if Deposited(o, a.depositKey, a.collateral).Ok? {
      var o1 := Deposited(o, a.depositKey, a.collateral).value;
      AddRaises(o.deposits, a.depositKey, a.collateral, a.withdrawKey);
      AddKeepsDistinct(o.deposits, a.depositKey, a.collateral);
      PossibleIff(c.(obligation := o1), a.withdrawKey, 0, a.withdrawKey, a.withdrawn);
    }
  }
}
