/** `handler_liquidate_obligation_and_redeem_reserve_collateral.rs`: two reserves, one or two vaults, an
    optional redemption, and a signed net withdrawal cast through `i64`. */
module Liquidation {
  import opened Common
  import opened VaultAccounting

  const TWO_63: int := 0x8000_0000_0000_0000

  /** The `as i64` cast. */
  function AsI64(x: u64): (r: int) { if x < TWO_63 then x else x - TWO_64 }

  /** `net_withdrawal_amount`; the crate is built with overflow checks, so `None` is a panic. */
  function NetWithdrawal(withdraw: u64, repay: u64, sameVault: bool): (r: Option<int>) {
    if !sameVault then Some(AsI64(withdraw))
    else
      var net := AsI64(withdraw) - AsI64(repay);
      if -TWO_63 <= net < TWO_63 then Some(net) else None
  }

  /** `LendingAction::subtractive_signed`. */
  function SubtractiveSigned(net: int): (r: LendingAction) {
    if net >= 0 then Subtractive(net) else Additive(-net)
  }

  /** What the lending operation decided, the most the liquidator wants to repay, and the accounts. */
  datatype Plan = Plan(
    repayReserve: Pubkey, withdrawReserve: Pubkey, afterRepay: Accounting, afterWithdraw: Accounting,
    maxRepay: u64, repayAmount: u64, redeemed: Option<(u64, u64)>,
    userSource: Pubkey, userDestination: Pubkey, feeReceiver: Pubkey, liquidator: Pubkey)

  ghost predicate KnownReserves(w: World, p: Plan) {
    p.repayReserve in w.reserves && p.withdrawReserve in w.reserves
  }

  function Transfers(w: World, p: Plan): (r: seq<Transfer>)
    requires p.repayReserve in w.reserves && p.withdrawReserve in w.reserves
  {
    [Transfer(p.userSource, w.reserves[p.repayReserve].supplyVault, p.repayAmount, p.liquidator)]
    + match p.redeemed
      case None => []
      case Some(redeem) =>
        [Transfer(w.reserves[p.withdrawReserve].supplyVault, p.userDestination, redeem.0, w.marketAuthority),
         Transfer(p.userDestination, p.feeReceiver, redeem.1, p.liquidator)]
  }

  /** The two reserves after the lending operation; when they are one account the last write stays. */
  function Settled(w: World, p: Plan): (reserves: map<Pubkey, Reserve>)
    requires p.repayReserve in w.reserves && p.withdrawReserve in w.reserves
    ensures reserves.Keys == w.reserves.Keys
  {
    var first := w.reserves[p.repayReserve := WithAccounting(w.reserves[p.repayReserve], p.afterRepay)];
    first[p.withdrawReserve := WithAccounting(first[p.withdrawReserve], p.afterWithdraw)]
  }

  function WithdrawCheck(w: World, p: Plan, b: Balances): (r: Option<HandlerError>)
    requires WellFormed(w) && KnownReserves(w, p) && b.Keys == w.balances.Keys
  {
    var repay, withdraw := w.reserves[p.repayReserve], w.reserves[p.withdrawReserve];
    match p.redeemed
    case None => None
    case Some(redeem) =>
      match NetWithdrawal(redeem.0, p.repayAmount, withdraw.supplyVault == repay.supplyVault)
      case None => Some(ArithmeticOverflow)
      case Some(net) =>
        PostTransferCheck(b[withdraw.supplyVault], Settled(w, p)[p.withdrawReserve].available,
                          w.balances[withdraw.supplyVault], withdraw.available, SubtractiveSigned(net))
  }

  function RepayCheck(w: World, p: Plan, b: Balances): (r: Option<HandlerError>)
    requires WellFormed(w) && KnownReserves(w, p) && b.Keys == w.balances.Keys
  {
    var repay, withdraw := w.reserves[p.repayReserve], w.reserves[p.withdrawReserve];
    if withdraw.supplyVault != repay.supplyVault || p.redeemed.None? then
      PostTransferCheck(b[repay.supplyVault], Settled(w, p)[p.repayReserve].available,
                        w.balances[repay.supplyVault], repay.available, Additive(p.repayAmount))
    else None
  }

  function LiquidateStep(w: World, p: Plan): (r: Result<World, HandlerError>)
    requires WellFormed(w) && KnownReserves(w, p)
  {
    match Apply(w.balances, w.owners, Transfers(w, p))
    case Err(e) => Err(e)
    case Ok(b) =>
      ApplyConserves(w.balances, w.owners, Transfers(w, p));
      match WithdrawCheck(w, p, b)
      case Some(e) => Err(e)
      case None =>
        match RepayCheck(w, p, b)
        case Some(e) => Err(e)
        case None =>
          if p.maxRepay < p.repayAmount then Err(InsufficientRepayAmount)
          else Ok(w.(reserves := Settled(w, p), balances := b))
  }

  /** The handler itself, on the market object. */
  method Liquidate(m: Market, p: Plan) returns (r: Result<(), HandlerError>)
    requires WellFormed(m.View()) && KnownReserves(m.View(), p)
    modifies m`reserves, m`balances
    ensures Outcome(old(m.View()), m.View(), r, LiquidateStep(old(m.View()), p))
    ensures r.Ok? ==> BothAccountings(old(m.View()), m.View(), p)
    ensures var repayVault := old(m.reserves)[p.repayReserve].supplyVault;
            var withdrawVault := old(m.reserves)[p.withdrawReserve].supplyVault;
            r.Ok? ==> MovedBy(old(m.balances), m.balances, k => Gain(repayVault, withdrawVault, p, k))
  {
    hide PostTransferCheck, NetWithdrawal, SubtractiveSigned, Credits, Debits, Apply;
    ghost var w := m.View();
    var savedReserves, savedBalances := m.reserves, m.balances;
    var repayVault := m.reserves[p.repayReserve].supplyVault;
    var withdrawVault := m.reserves[p.withdrawReserve].supplyVault;
    var initialWithdrawBalance, initialRepayBalance := m.balances[withdrawVault], m.balances[repayVault];
    var initialRepayAvailable := m.reserves[p.repayReserve].available;
    var initialWithdrawAvailable := m.reserves[p.withdrawReserve].available;
    m.SetAccounting(p.repayReserve, p.afterRepay);
    m.SetAccounting(p.withdrawReserve, p.afterWithdraw);
    TransfersInSequence(w, p);
    r := m.TransferTokens(p.userSource, repayVault, p.repayAmount, p.liquidator);
    if r.Err? {
      m.Restore(w, savedReserves, savedBalances);
      return;
    }
    if p.redeemed.Some? {
      r := m.TransferTokens(withdrawVault, p.userDestination, p.redeemed.value.0, m.marketAuthority);
      if r.Err? {
        m.Restore(w, savedReserves, savedBalances);
        return;
      }
      r := m.TransferTokens(p.userDestination, p.feeReceiver, p.redeemed.value.1, p.liquidator);
      if r.Err? {
        m.Restore(w, savedReserves, savedBalances);
        return;
      }
      var net := NetWithdrawal(p.redeemed.value.0, p.repayAmount, withdrawVault == repayVault);
      if net.None? {
        m.Restore(w, savedReserves, savedBalances);
        return Err(ArithmeticOverflow);
      }
      var failed := PostTransferCheck(m.balances[withdrawVault], m.reserves[p.withdrawReserve].available,
                                      initialWithdrawBalance, initialWithdrawAvailable, SubtractiveSigned(net.value));
      if failed.Some? {
        m.Restore(w, savedReserves, savedBalances);
        return Err(failed.value);
      }
    }
    if withdrawVault != repayVault || p.redeemed.None? {
      var failed := PostTransferCheck(m.balances[repayVault], m.reserves[p.repayReserve].available,
                                      initialRepayBalance, initialRepayAvailable, Additive(p.repayAmount));
      if failed.Some? {
        m.Restore(w, savedReserves, savedBalances);
        return Err(failed.value);
      }
    }
    if p.maxRepay < p.repayAmount {
      m.Restore(w, savedReserves, savedBalances);
      return Err(InsufficientRepayAmount);
    }
    LiquidationPays(w, p);
  }

  lemma {:induction false} TransfersInSequence(w: World, p: Plan)
    requires KnownReserves(w, p)
    ensures var repay := Transfer(p.userSource, w.reserves[p.repayReserve].supplyVault, p.repayAmount, p.liquidator);
      var first := ApplyOne(w.balances, w.owners, repay);
      Apply(w.balances, w.owners, Transfers(w, p)) ==
      if first.Err? || p.redeemed.None? then first
      else
        var redeem := Transfer(w.reserves[p.withdrawReserve].supplyVault, p.userDestination, p.redeemed.value.0,
                      w.marketAuthority);
        var fee := Transfer(p.userDestination, p.feeReceiver, p.redeemed.value.1, p.liquidator);
        match ApplyOne(first.value, w.owners, redeem)
        case Err(e) => Err(e)
        case Ok(b) => ApplyOne(b, w.owners, fee)
  {
    hide ApplyOne;
    var ts := Transfers(w, p);
    var first := ApplyOne(w.balances, w.owners, ts[0]);
    if p.redeemed.None? {
      assert ts == [ts[0]];
      ApplyOfOne(w.balances, w.owners, ts[0]);
    } else if first.Ok? {
      assert ts[1..] == [ts[1]] + [ts[2]];
      ApplyOfTwo(first.value, w.owners, ts[1], ts[2]);
    }
  }

  // ----- Who pays whom -----

  /** What account `k` gains from a liquidation: the liquidator's source pays the repay vault; if collateral
      is redeemed, the withdraw vault pays the liquidator's destination, which pays the protocol's fee. */
  function Gain(repayVault: Pubkey, withdrawVault: Pubkey, p: Plan, k: Pubkey): (gain: int) {
    Share(k, repayVault, p.repayAmount) - Share(k, p.userSource, p.repayAmount)
    + match p.redeemed
      case None => 0
      case Some(redeem) =>
        Share(k, p.userDestination, redeem.0) - Share(k, withdrawVault, redeem.0)
        + Share(k, p.feeReceiver, redeem.1) - Share(k, p.userDestination, redeem.1)
  }

  /** Both reserves take over what the lending operation left, the withdraw reserve last, and nothing else
      of any reserve changes. */
  ghost predicate BothAccountings(before: World, after: World, p: Plan)
    requires KnownReserves(before, p)
  {
    var repay, withdraw := before.reserves[p.repayReserve], before.reserves[p.withdrawReserve];
    && after.owners == before.owners && after.marketAuthority == before.marketAuthority
    && after.reserves.Keys == before.reserves.Keys
    && after.reserves[p.withdrawReserve] ==
       Reserve(withdraw.supplyVault, p.afterWithdraw.available, withdraw.rewards, p.afterWithdraw.minted)
    && (p.repayReserve != p.withdrawReserve ==>
        after.reserves[p.repayReserve] ==
        Reserve(repay.supplyVault, p.afterRepay.available, repay.rewards, p.afterRepay.minted))
    && forall q :: q in before.reserves && q != p.repayReserve && q != p.withdrawReserve ==>
         after.reserves[q] == before.reserves[q]
  }

  lemma {:induction false} LiquidationPays(w: World, p: Plan)
    requires WellFormed(w) && KnownReserves(w, p) && LiquidateStep(w, p).Ok?
    ensures var w' := LiquidateStep(w, p).value;
      && BothAccountings(w, w', p)
      && MovedBy(w.balances, w'.balances, k =>
           Gain(w.reserves[p.repayReserve].supplyVault, w.reserves[p.withdrawReserve].supplyVault, p, k))
  {
    hide WellFormed, Apply, WithdrawCheck, RepayCheck;
    var ts := Transfers(w, p);
    ApplyConserves(w.balances, w.owners, ts);
    SumsOfOne(ts);
    SumsOfThree(ts);
  }

  lemma {:induction false} SumsOfThree(ts: seq<Transfer>)
    ensures |ts| == 3 ==> forall k ::
              && Credits(ts, k) == Share(k, ts[0].to, ts[0].amount) + Share(k, ts[1].to, ts[1].amount)
                                   + Share(k, ts[2].to, ts[2].amount)
              && Debits(ts, k) == Share(k, ts[0].from, ts[0].amount) + Share(k, ts[1].from, ts[1].amount)
                                  + Share(k, ts[2].from, ts[2].amount)
  {
    if |ts| == 3 {
      SumsOfTwo(ts[1..]);
    }
  }

  // ----- What an accepted liquidation means -----

  /** The true change of a reserve's vault: what was repaid into it less what was redeemed from it. */
  function NetChange(p: Plan, r: Pubkey): (result: int) {
    (if r == p.repayReserve then p.repayAmount else 0)
    - if r == p.withdrawReserve && p.redeemed.Some? then p.redeemed.value.0 else 0
  }

  /** The reserves whose vault some transfer touches. */
  predicate Touched(p: Plan, r: Pubkey) {
    r == p.repayReserve || (r == p.withdrawReserve && p.redeemed.Some?)
  }

  /** The lending operation moved the available amount of every touched reserve by the true change. */
  ghost predicate HonestAccounting(w: World, p: Plan)
    requires KnownReserves(w, p)
  {
    forall r :: r in w.reserves && Touched(p, r) ==>
      Settled(w, p)[r].available == w.reserves[r].available + NetChange(p, r)
  }

  /** Every touched vault covered its available amount beforehand; `VaultsAlwaysCovered` says it does. */
  ghost predicate TouchedCovered(w: World, p: Plan)
    requires WellFormed(w) && KnownReserves(w, p)
  {
    forall r :: r in w.reserves && Touched(p, r) ==> CoveredFor(w, r)
  }

  ghost predicate CoveredFor(w: World, r: Pubkey)
    requires WellFormed(w) && r in w.reserves
  {
    w.balances[w.reserves[r].supplyVault] >= w.reserves[r].available
  }

  /** The casts lose nothing: a separate withdrawal vault needs an amount below 2^63; one shared vault
      needs both amounts on the same side of 2^63. */
  predicate NetRepresentable(p: Plan) {
    match p.redeemed
    case None => true
    case Some(redeem) =>
      if p.repayReserve == p.withdrawReserve then redeem.0 < TWO_63 <==> p.repayAmount < TWO_63
      else redeem.0 < TWO_63
  }

  lemma {:induction false} NetIsExactIff(withdraw: u64, repay: u64, sameVault: bool)
    ensures NetWithdrawal(withdraw, repay, sameVault) == Some(if sameVault then withdraw - repay else withdraw) <==>
            if sameVault then (withdraw < TWO_63 <==> repay < TWO_63) else withdraw < TWO_63
  {
  }

  /** The user's accounts are not vaults, because they sign for themselves; the fee vault is no supply vault. */
  ghost predicate OrdinaryAccounts(w: World, p: Plan) {
    && p.liquidator != w.marketAuthority
    && forall r :: r in w.reserves ==> w.reserves[r].supplyVault != p.feeReceiver
  }

  lemma {:induction false} TrueBalances(w: World, p: Plan, r: Pubkey)
    requires WellFormed(w) && KnownReserves(w, p) && OrdinaryAccounts(w, p) && r in w.reserves
    requires Apply(w.balances, w.owners, Transfers(w, p)).Ok?
    ensures var b := Apply(w.balances, w.owners, Transfers(w, p)).value; var v := w.reserves[r].supplyVault;
      b.Keys == w.balances.Keys && (Touched(p, r) ==> b[v] == w.balances[v] + NetChange(p, r))
  {
    var v := w.reserves[r].supplyVault;
    ApplyConserves(w.balances, w.owners, Transfers(w, p));
    TransfersInSequence(w, p);
    var ts := Transfers(w, p);
    assert ts[0].from != v;
    if p.redeemed.Some? {
      assert ts[1..][1..] == [ts[2]] && ts[2..][1..] == [];
      assert ts[2].from != v;
      assert Credits(ts, v) == (if ts[0].to == v then ts[0].amount else 0) + Credits(ts[1..], v);
      assert Debits(ts, v) == Debits(ts[1..], v);
      assert ts[1..][0] == ts[1] && ts[1..][1..][0] == ts[2] && ts[1..][1..][1..] == [];
    } else {
      assert ts[1..] == [];
    }
  }

  /** One reserve's accounting moved by its true net change. */
  ghost predicate HonestFor(w: World, p: Plan, r: Pubkey)
    requires KnownReserves(w, p) && r in w.reserves
  {
    Settled(w, p)[r].available == w.reserves[r].available + NetChange(p, r)
  }

  lemma {:induction false} WithdrawCheckIff(w: World, p: Plan)
    requires WellFormed(w) && KnownReserves(w, p) && OrdinaryAccounts(w, p) && p.redeemed.Some?
    requires Apply(w.balances, w.owners, Transfers(w, p)).Ok?
    ensures var b := Apply(w.balances, w.owners, Transfers(w, p)).value;
      b.Keys == w.balances.Keys && (WithdrawCheck(w, p, b).None? <==>
          NetRepresentable(p) && HonestFor(w, p, p.withdrawReserve) && CoveredFor(w, p.withdrawReserve))
  {
    hide Apply, Transfers, NetWithdrawal, WellFormed, Settled, PostTransferCheck, NetRepresentable;
    var b := Apply(w.balances, w.owners, Transfers(w, p)).value;
    var withdraw := w.reserves[p.withdrawReserve];
    VaultOf(w, p.withdrawReserve);
    OwnVault(w, p.withdrawReserve, p.repayReserve);
    TrueBalances(w, p, p.withdrawReserve);
    NetExactIff(p);
    var net := NetWithdrawal(p.redeemed.value.0, p.repayAmount, p.repayReserve == p.withdrawReserve);
    if net.Some? {
      PostTransferCheckIff(b[withdraw.supplyVault], Settled(w, p)[p.withdrawReserve].available,
                           w.balances[withdraw.supplyVault], withdraw.available, SubtractiveSigned(net.value));
    }
  }

  lemma {:induction false} NetExactIff(p: Plan)
    requires p.redeemed.Some?
    ensures var net := NetWithdrawal(p.redeemed.value.0, p.repayAmount, p.repayReserve == p.withdrawReserve);
      (net == Some(-NetChange(p, p.withdrawReserve))) <==> NetRepresentable(p)
  {
    NetIsExactIff(p.redeemed.value.0, p.repayAmount, p.repayReserve == p.withdrawReserve);
  }

  lemma {:induction false} RepayCheckIff(w: World, p: Plan)
    requires WellFormed(w) && KnownReserves(w, p) && OrdinaryAccounts(w, p)
    requires Apply(w.balances, w.owners, Transfers(w, p)).Ok?
    ensures var b := Apply(w.balances, w.owners, Transfers(w, p)).value;
      b.Keys == w.balances.Keys && (RepayCheck(w, p, b).None? <==>
          (p.repayReserve == p.withdrawReserve && p.redeemed.Some?)
          || (HonestFor(w, p, p.repayReserve) && CoveredFor(w, p.repayReserve)))
  {
    hide Apply, Transfers, WellFormed, Settled, PostTransferCheck;
    var b := Apply(w.balances, w.owners, Transfers(w, p)).value;
    var repay := w.reserves[p.repayReserve];
    VaultOf(w, p.repayReserve);
    OwnVault(w, p.withdrawReserve, p.repayReserve);
    TrueBalances(w, p, p.repayReserve);
    PostTransferCheckIff(b[repay.supplyVault], Settled(w, p)[p.repayReserve].available,
                         w.balances[repay.supplyVault], repay.available, Additive(p.repayAmount));
  }

  /** In all four cases (one vault or two, redeemed or not) and for all u64 amounts: once the transfers
      went through, the liquidation is accepted if and only if every touched vault covered its available
      amount, the accounting of each is honest, the signed net is exact, and no more was repaid than the
      liquidator asked for. */
  lemma {:induction false} LiquidationAcceptedIff(w: World, p: Plan)
    requires WellFormed(w) && KnownReserves(w, p) && OrdinaryAccounts(w, p)
    requires Apply(w.balances, w.owners, Transfers(w, p)).Ok?
    ensures LiquidateStep(w, p).Ok? <==>
            TouchedCovered(w, p) && HonestAccounting(w, p) && NetRepresentable(p) && p.repayAmount <= p.maxRepay
  {
    hide Apply, Transfers, WithdrawCheck, RepayCheck, Settled, WellFormed, NetChange;
    RepayCheckIff(w, p);
    if p.redeemed.Some? {
      WithdrawCheckIff(w, p);
    } else {
      NothingToWithdraw(w, p);
    }
  }

  lemma {:induction false} NothingToWithdraw(w: World, p: Plan)
    requires WellFormed(w) && KnownReserves(w, p) && p.redeemed.None?
    requires Apply(w.balances, w.owners, Transfers(w, p)).Ok?
    ensures var b := Apply(w.balances, w.owners, Transfers(w, p)).value;
      b.Keys == w.balances.Keys && WithdrawCheck(w, p, b).None?
  {
    hide Apply, Transfers;
    ApplyConserves(w.balances, w.owners, Transfers(w, p));
  }

  /** Safety: an accepted liquidation leaves the gap of both reserves unchanged, except that nothing
      checks an untouched withdraw reserve, whose gap moves with whatever the operation did to it. */
  lemma {:induction false} LiquidationNeverDrifts(w: World, p: Plan, q: Pubkey)
    requires WellFormed(w) && KnownReserves(w, p) && p.liquidator != w.marketAuthority && q in w.reserves
    requires LiquidateStep(w, p).Ok?
    ensures var w' := LiquidateStep(w, p).value;
      && WellFormed(w') && w'.reserves.Keys == w.reserves.Keys
      && Gap(w', q) == Gap(w, q)
         + if Touched(p, q) then 0
           else if q == p.withdrawReserve then w.reserves[q].available - p.afterWithdraw.available
                + Credits(Transfers(w, p), w.reserves[q].supplyVault)
           else Credits(Transfers(w, p), w.reserves[q].supplyVault)
  {
    hide Transfers, Apply, NetWithdrawal, SubtractiveSigned, Credits, Debits, WellFormed;
    ApplyConserves(w.balances, w.owners, Transfers(w, p));
    AmountsOnlyKeepsWellFormed(w, LiquidateStep(w, p).value);
    VaultOf(w, q);
    OwnVault(w, p.repayReserve, p.withdrawReserve);
    if !Touched(p, q) {
      OtherVaultsNotDebited(w, p, q);
    }
  }

  lemma {:induction false} OtherVaultsNotDebited(w: World, p: Plan, q: Pubkey)
    requires WellFormed(w) && KnownReserves(w, p) && p.liquidator != w.marketAuthority && q in w.reserves
             && !Touched(p, q)
    requires Apply(w.balances, w.owners, Transfers(w, p)).Ok?
    ensures Debits(Transfers(w, p), w.reserves[q].supplyVault) == 0
  {
    UnsignedNotDebited(w.balances, w.owners, Transfers(w, p), w.reserves[q].supplyVault);
  }

  /** Too large a repayment is named as such, but only once everything else is in order. */
  lemma {:induction false} TooLargeRepaymentIsNamed(w: World, p: Plan)
    requires WellFormed(w) && KnownReserves(w, p) && OrdinaryAccounts(w, p)
    requires Apply(w.balances, w.owners, Transfers(w, p)).Ok?
    ensures LiquidateStep(w, p) == Err(InsufficientRepayAmount) <==>
            TouchedCovered(w, p) && HonestAccounting(w, p) && NetRepresentable(p) && p.repayAmount > p.maxRepay
  {
    hide Apply, Transfers, WithdrawCheck, RepayCheck, Settled, WellFormed, NetChange;
    RepayCheckIff(w, p);
    CheckErrors(w, p);
    if p.redeemed.Some? {
      WithdrawCheckIff(w, p);
    } else {
      NothingToWithdraw(w, p);
    }
  }

  lemma {:induction false} CheckErrors(w: World, p: Plan)
    requires WellFormed(w) && KnownReserves(w, p) && Apply(w.balances, w.owners, Transfers(w, p)).Ok?
    ensures var b := Apply(w.balances, w.owners, Transfers(w, p)).value;
      b.Keys == w.balances.Keys
      && WithdrawCheck(w, p, b) != Some(InsufficientRepayAmount) && RepayCheck(w, p, b) != Some(InsufficientRepayAmount)
  {
    hide Apply, Transfers, WellFormed, Settled, NetWithdrawal, SubtractiveSigned;
    ApplyConserves(w.balances, w.owners, Transfers(w, p));
  }
}
