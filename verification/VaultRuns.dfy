/** Whole runs over a market: every instruction that touches a supply vault or an available amount, in any
    order, with any lending operation inside, and transfers elsewhere. */
module VaultRuns {
  import opened Common
  import opened VaultAccounting
  import opened ReserveTransfers
  import Liquidation

  /** One attempted instruction. `Deposit` stands for every handler with one transfer in and an additive
      check, `PayOut` for every one with one transfer out and a subtractive check. Amounts and `after` are
      whatever the lending operation chose. */
  datatype Event =
    | Init(init: InitArgs)
    | Deposit(reserve: Pubkey, after: Accounting, amount: u64, source: Pubkey, signer: Pubkey)
    | PayOut(reserve: Pubkey, after: Accounting, amount: u64, destination: Pubkey)
    | Borrow(reserve: Pubkey, after: Accounting, receive: u64, fee: u64, feeReceiver: Pubkey, destination: Pubkey)
    | FlashRepay(
        reserve: Pubkey, after: Accounting, amount: u64, fee: u64, source: Pubkey, feeReceiver: Pubkey, signer: Pubkey)
    | Liquidate(plan: Liquidation.Plan)
    | Rollover(rollover: RolloverArgs)
    | RefreshReserve(reserve: Pubkey, distributed: u64)
    | TopUp(reserve: Pubkey, amount: u64, source: Pubkey, signer: Pubkey)
    | Collect(reserve: Pubkey, amount: u64, destination: Pubkey)
    | Outside(transfer: Transfer)

  /** One handler, one reserve, the post-transfer check. */
  predicate Checked(e: Event) { e.Deposit? || e.PayOut? || e.Borrow? || e.FlashRepay? }

  function TransfersOf(w: World, e: Event): (ts: seq<Transfer>)
    requires Checked(e) && e.reserve in w.reserves
  {
    match e
    case Deposit(r, _, amount, source, signer) => [Transfer(source, w.reserves[r].supplyVault, amount, signer)]
    case PayOut(r, _, amount, destination) =>
      [Transfer(w.reserves[r].supplyVault, destination, amount, w.marketAuthority)]
    case Borrow(r, _, receive, fee, feeReceiver, destination) =>
      BorrowTransfers(w.reserves[r].supplyVault, receive, fee, feeReceiver, destination, w.marketAuthority)
    case FlashRepay(r, _, amount, fee, source, feeReceiver, signer) =>
      FlashRepayTransfers(w.reserves[r].supplyVault, amount, fee, source, feeReceiver, signer)
  }

  function ActionOf(e: Event): (action: LendingAction)
    requires Checked(e)
  {
    match e
    case Deposit(_, _, amount, _, _) => Additive(amount)
    case PayOut(_, _, amount, _) => Subtractive(amount)
    case Borrow(_, _, receive, fee, _, _) => Subtractive(fee + receive)
    case FlashRepay(_, _, amount, _, _, _, _) => Additive(amount)
  }

  /** The event names accounts that exist. */
  predicate Known(w: World, e: Event) {
    match e
    case Init(_) => true
    case Outside(_) => true
    case Liquidate(p) => p.repayReserve in w.reserves && p.withdrawReserve in w.reserves
    case Rollover(a) => a.source in w.reserves && a.target in w.reserves
    case _ => e.reserve in w.reserves
  }

  function OutsideStep(w: World, t: Transfer): (r: Result<World, HandlerError>) {
    var b :- ApplyOne(w.balances, w.owners, t);
    Ok(w.(balances := b))
  }

  function Step(w: World, e: Event): (r: Result<World, HandlerError>)
    requires WellFormed(w) && Known(w, e)
  {
    match e
    case Init(a) => InitStep(w, a)
    case Outside(t) => OutsideStep(w, t)
    case Liquidate(p) => Liquidation.LiquidateStep(w, p)
    case Rollover(a) => RolloverStep(w, a)
    case RefreshReserve(r, distributed) => DistributeStep(w, r, distributed)
    case TopUp(r, amount, source, signer) => TopUpStep(w, r, amount, source, signer)
    case Collect(r, amount, destination) => CollectStep(w, r, amount, destination)
    case _ => HandlerStep(w, e.reserve, e.after, TransfersOf(w, e), ActionOf(e))
  }

  /** A transfer that no market signature takes out of a supply vault: an outsider's, or a withdrawal of
      protocol fees from a fee vault. */
  ghost predicate Elsewhere(w: World, t: Transfer) {
    t.authority != w.marketAuthority || forall r :: r in w.reserves ==> w.reserves[r].supplyVault != t.from
  }

  /** Nobody outside the program signs for the market authority, which is a derived address; and a
      liquidation that redeems nothing does not touch the withdraw reserve's own accounting. */
  ghost predicate Permitted(w: World, e: Event)
    requires Known(w, e)
  {
    match e
    case Init(a) => a.signer != w.marketAuthority
    case Deposit(_, _, _, _, signer) => signer != w.marketAuthority
    case FlashRepay(_, _, _, _, _, _, signer) => signer != w.marketAuthority
    case TopUp(_, _, _, signer) => signer != w.marketAuthority
    case Outside(t) => Elsewhere(w, t)
    case Liquidate(p) =>
      && p.liquidator != w.marketAuthority
      && (p.redeemed.None? && p.withdrawReserve != p.repayReserve ==>
          p.afterWithdraw.available == w.reserves[p.withdrawReserve].available)
    case _ => true
  }

  /** What reserve `r`'s vault receives from an event without its books saying so: a donation. */
  function Donation(w: World, e: Event, r: Pubkey): (amount: nat)
    requires WellFormed(w) && Known(w, e) && r in w.reserves
  {
    var vault := w.reserves[r].supplyVault;
    if Step(w, e).Err? then 0
    else match e
      case Outside(t) => if t.to == vault && t.from != t.to then t.amount else 0
      case Collect(_, amount, destination) => if destination == vault then amount else 0
      case Liquidate(p) => if Liquidation.Touched(p, r) then 0 else Credits(Liquidation.Transfers(w, p), vault)
      case Init(_) => 0
      case Rollover(_) => 0
      case RefreshReserve(_, _) => 0
      case TopUp(_, _, _, _) => 0
      case _ => if e.reserve == r then 0 else Credits(TransfersOf(w, e), vault)
  }

  lemma {:induction false} OutsideOnlyDonates(w: World, t: Transfer, r: Pubkey)
    requires WellFormed(w) && Elsewhere(w, t) && r in w.reserves && OutsideStep(w, t).Ok?
    ensures var w' := OutsideStep(w, t).value;
      && WellFormed(w') && w'.marketAuthority == w.marketAuthority && w'.reserves == w.reserves
      && Gap(w', r) == Gap(w, r) + if t.to == w.reserves[r].supplyVault && t.from != t.to then t.amount else 0
  {
    hide WellFormed;
    VaultOf(w, r);
    AmountsOnlyKeepsWellFormed(w, OutsideStep(w, t).value);
  }

  lemma {:induction false} CheckedEventNeverDrifts(w: World, e: Event, r: Pubkey)
    requires WellFormed(w) && Known(w, e) && Permitted(w, e) && r in w.reserves && Checked(e)
    requires Step(w, e).Ok?
    ensures var w' := Step(w, e).value;
      && WellFormed(w') && w'.marketAuthority == w.marketAuthority && w'.reserves.Keys == w.reserves.Keys
      && Gap(w', r) == Gap(w, r) + Donation(w, e, r)
  {
    hide WellFormed, Apply, Credits;
    HandlerNeverDrifts(w, e.reserve, e.after, TransfersOf(w, e), ActionOf(e), r);
  }

  /** One step, any event, any reserve: the gap changes by donations alone. */
  lemma {:induction false} StepOnlyDonates(w: World, e: Event, r: Pubkey)
    requires WellFormed(w) && Known(w, e) && Permitted(w, e) && r in w.reserves && Step(w, e).Ok?
    ensures var w' := Step(w, e).value;
      && WellFormed(w') && w'.marketAuthority == w.marketAuthority && w.reserves.Keys <= w'.reserves.Keys
      && Gap(w', r) == Gap(w, r) + Donation(w, e, r)
  {
    hide WellFormed, Apply, Credits, HandlerStep, InitStep, Liquidation.LiquidateStep, DistributeStep, TopUpStep;
    hide CollectStep, OutsideStep, RolloverStep;
    match e
    case Init(a) => InitOpensAtZero(w, a);
    case Outside(t) => OutsideOnlyDonates(w, t, r);
    case Liquidate(p) =>
      Liquidation.LiquidationNeverDrifts(w, p, r);
      SameAuthority(w, e);
    case Rollover(a) =>
      VaultOf(w, a.source);
      VaultOf(w, a.target);
      RolloverNeverDrifts(w, a, r);
      SameAuthority(w, e);
    case RefreshReserve(q, distributed) =>
      DistributingNeverDrifts(w, q, distributed, r);
      SameAuthority(w, e);
    case TopUp(q, amount, source, signer) =>
      VaultOf(w, q);
      ToppingUpNeverDrifts(w, q, amount, source, signer, r);
      SameAuthority(w, e);
    case Collect(q, amount, destination) =>
      CollectingOnlyDonates(w, q, amount, destination, r);
      SameAuthority(w, e);
    case _ => CheckedEventNeverDrifts(w, e, r);
  }

  lemma {:induction false} SameAuthority(w: World, e: Event)
    requires WellFormed(w) && Known(w, e) && !Checked(e) && !e.Init? && Step(w, e).Ok?
    ensures Step(w, e).value.marketAuthority == w.marketAuthority
  {
    hide WellFormed, Apply;
  }

  // ----- Runs -----

  /** A failed instruction changes nothing. */
  function Next(w: World, e: Event): (r: World)
    requires WellFormed(w)
  {
    if !Known(w, e) then w
    else match Step(w, e) case Ok(w') => w' case Err(_) => w
  }

  ghost predicate PermittedRun(w: World, es: seq<Event>)
    requires WellFormed(w)
    decreases es
  {
    es == [] || ((Known(w, es[0]) ==> Permitted(w, es[0])) && WellFormed(Next(w, es[0]))
    && PermittedRun(Next(w, es[0]), es[1..]))
  }

  function Run(w: World, es: seq<Event>): (r: World)
    requires WellFormed(w) && PermittedRun(w, es)
    decreases es
  {
    if es == [] then w else Run(Next(w, es[0]), es[1..])
  }

  /** Well-formedness is no restriction on runs: every permitted step keeps it. */
  lemma {:induction false} NextKeepsWellFormed(w: World, e: Event)
    requires WellFormed(w) && (Known(w, e) ==> Permitted(w, e))
    ensures WellFormed(Next(w, e)) && w.reserves.Keys <= Next(w, e).reserves.Keys
  {
    hide WellFormed, Apply;
    if Known(w, e) && Step(w, e).Ok? {
      if r :| r in w.reserves {
        StepOnlyDonates(w, e, r);
      } else {
        FirstReserve(w, e);
      }
    }
  }

  lemma {:induction false} FirstReserve(w: World, e: Event)
    requires WellFormed(w) && Known(w, e) && Permitted(w, e) && Step(w, e).Ok? && w.reserves.Keys == {}
    ensures WellFormed(Step(w, e).value)
  {
    hide Apply;
    if e.Init? {
      InitOpensAtZero(w, e.init);
    }
  }

  function Donations(w: World, es: seq<Event>, r: Pubkey): (result: nat)
    requires WellFormed(w) && PermittedRun(w, es) && r in w.reserves
    decreases es
  {
    if es == [] then 0
    else
      NextKeepsWellFormed(w, es[0]);
      (if Known(w, es[0]) then Donation(w, es[0], r) else 0) + Donations(Next(w, es[0]), es[1..], r)
  }

  /** Over every run, a reserve's vault and its accounting move in lockstep: their difference grows by
      exactly the donations, whatever the lending operations did in between. */
  lemma {:induction false} GapIsDonations(w: World, es: seq<Event>, r: Pubkey)
    requires WellFormed(w) && PermittedRun(w, es) && r in w.reserves
    ensures var w' := Run(w, es);
      WellFormed(w') && r in w'.reserves && Gap(w', r) == Gap(w, r) + Donations(w, es, r)
    decreases es
  {
    hide WellFormed, Step, Donation;
    VaultOf(w, r);
    if es != [] {
      NextKeepsWellFormed(w, es[0]);
      if Known(w, es[0]) {
        GapAfterNext(w, es[0], r);
      }
      GapIsDonations(Next(w, es[0]), es[1..], r);
    }
  }

  lemma {:induction false} GapAfterNext(w: World, e: Event, r: Pubkey)
    requires WellFormed(w) && Known(w, e) && Permitted(w, e) && r in w.reserves
    ensures var w' := Next(w, e);
      WellFormed(w') && r in w'.reserves && w'.reserves[r].supplyVault in w'.balances
      && Gap(w', r) == Gap(w, r) + Donation(w, e, r)
  {
    hide WellFormed;
    VaultOf(w, r);
    if Step(w, e).Ok? {
      StepOnlyDonates(w, e, r);
      VaultOf(Step(w, e).value, r);
    }
  }

  /** Every vault holds the available liquidity and the undistributed rewards of its reserve. */
  ghost predicate Covered(w: World) {
    WellFormed(w) && forall r :: r in w.reserves ==>
      w.balances[w.reserves[r].supplyVault] >= w.reserves[r].available + w.reserves[r].rewards
  }

  lemma {:induction false} NextKeepsCovered(w: World, e: Event)
    requires Covered(w) && (Known(w, e) ==> Permitted(w, e))
    ensures Covered(Next(w, e))
  {
    hide Step, WellFormed;
    var w' := Next(w, e);
    NextKeepsWellFormed(w, e);
    forall r | r in w'.reserves
      ensures w'.reserves[r].supplyVault in w'.balances && Gap(w', r) >= 0
    {
      VaultOf(w', r);
      if r in w.reserves {
        VaultOf(w, r);
        if Known(w, e) {
          GapAfterNext(w, e, r);
        }
      } else {
        NewReserveIsCovered(w, e, r);
      }
    }
  }

  lemma {:induction false} NewReserveIsCovered(w: World, e: Event, r: Pubkey)
    requires WellFormed(w) && (Known(w, e) ==> Permitted(w, e)) && r in Next(w, e).reserves && r !in w.reserves
    ensures var w' := Next(w, e); w'.reserves[r].supplyVault in w'.balances && Gap(w', r) == 0
  {
    hide WellFormed, Apply;
    if e.Init? {
      InitOpensAtZero(w, e.init);
      VaultOf(Next(w, e), r);
    } else if e.Outside? {
    } else if Known(w, e) && Step(w, e).Ok? && e.Liquidate? {
      Liquidation.LiquidationNeverDrifts(w, e.plan, e.plan.repayReserve);
    }
  }

  /** From any covered market, such as one without reserves: after any run every supply vault holds at
      least the available liquidity and the undistributed rewards of its reserve. */
  lemma {:induction false} VaultsAlwaysCovered(w: World, es: seq<Event>)
    requires Covered(w) && PermittedRun(w, es)
    ensures Covered(Run(w, es))
    decreases es
  {
    hide WellFormed, Step;
    if es != [] {
      NextKeepsCovered(w, es[0]);
      VaultsAlwaysCovered(Next(w, es[0]), es[1..]);
    }
  }
}
