/** The remaining instructions that touch a reserve's supply vault or its available amount:
    `handler_init_reserve.rs`, `handler_topup_reserve_rewards.rs`, the fee withdrawals,
    `handler_rollover_fixed_term_borrow.rs`, and the distribution of rewards by `refresh_reserve`. */
module ReserveTransfers {
  import opened Common
  import opened VaultAccounting

  // ----- init_reserve -----

  /** Accounts of a mint that freezes new accounts by default open empty. */
  function InitialAmount(minInitialDeposit: u64, frozenByDefault: bool): (amount: u64) {
    if frozenByDefault then 0 else minInitialDeposit
  }

  datatype InitArgs = InitArgs(
    reserve: Pubkey, vault: Pubkey, feeVault: Pubkey, minInitialDeposit: u64, frozenByDefault: bool, source: Pubkey,
    signer: Pubkey)

  /** A new supply vault and fee vault, then the first deposit, for as many collateral tokens. */
  function InitStep(w: World, a: InitArgs): (r: Result<World, HandlerError>) {
    if a.reserve in w.reserves || a.vault in w.balances || a.feeVault in w.balances || a.vault == a.feeVault
    then Err(AccountAlreadyInUse)
    else
      var amount := InitialAmount(a.minInitialDeposit, a.frozenByDefault);
      var w1 := World(w.reserves[a.reserve := Reserve(a.vault, amount, 0, amount)],
                      w.balances[a.vault := 0][a.feeVault := 0],
                      w.owners[a.vault := w.marketAuthority][a.feeVault := w.marketAuthority], w.marketAuthority);
      var b :- ApplyOne(w1.balances, w1.owners, Transfer(a.source, a.vault, amount, a.signer));
      Ok(w1.(balances := b))
  }

  method InitReserve(m: Market, a: InitArgs) returns (r: Result<(), HandlerError>)
    modifies m
    ensures Outcome(old(m.View()), m.View(), r, InitStep(old(m.View()), a))
  {
    if a.reserve in m.reserves || a.vault in m.balances || a.feeVault in m.balances || a.vault == a.feeVault {
      return Err(AccountAlreadyInUse);
    }
    var savedReserves, savedBalances, savedOwners := m.reserves, m.balances, m.owners;
    m.balances, m.owners := m.balances[a.vault := 0], m.owners[a.vault := m.marketAuthority];
    m.balances, m.owners := m.balances[a.feeVault := 0], m.owners[a.feeVault := m.marketAuthority];
    var minInitialDepositAmount := if a.frozenByDefault then 0 else a.minInitialDeposit;
    m.reserves := m.reserves[a.reserve := Reserve(a.vault, minInitialDepositAmount, 0, minInitialDepositAmount)];
    r := m.TransferTokens(a.source, a.vault, minInitialDepositAmount, a.signer);
    if r.Err? {
      m.reserves, m.balances, m.owners := savedReserves, savedBalances, savedOwners;
    }
  }

  lemma {:induction false} InitKeepsWellFormed(w: World, a: InitArgs)
    requires WellFormed(w) && InitStep(w, a).Ok?
    ensures WellFormed(InitStep(w, a).value)
    ensures forall r :: r in w.reserves ==>
      w.reserves[r].supplyVault in w.balances && w.reserves[r].supplyVault != a.vault
      && w.reserves[r].supplyVault != a.feeVault
  {
    var w' := InitStep(w, a).value;
    forall r | r in w.reserves
      ensures w'.reserves[r] == w.reserves[r] && w.reserves[r].supplyVault in w.balances
      ensures w.reserves[r].supplyVault != a.vault && w.reserves[r].supplyVault != a.feeVault
    {
      VaultOf(w, r);
    }
    forall r, q | r in w'.reserves && q in w'.reserves && r != q
      ensures w'.reserves[r].supplyVault != w'.reserves[q].supplyVault
    {
      if r in w.reserves && q in w.reserves {
        OwnVault(w, r, q);
      }
    }
  }

  /** A new reserve opens with vault, available amount and collateral supply equal, and disturbs no other. */
  lemma {:induction false} InitOpensAtZero(w: World, a: InitArgs)
    requires WellFormed(w) && a.signer != w.marketAuthority && InitStep(w, a).Ok?
    ensures var w' := InitStep(w, a).value;
      && WellFormed(w') && w'.marketAuthority == w.marketAuthority && w'.reserves.Keys == w.reserves.Keys + {a.reserve}
      && w'.balances[a.vault] == w'.reserves[a.reserve].available == w'.reserves[a.reserve].minted
      && Gap(w', a.reserve) == 0
      && forall r :: r in w.reserves ==> Gap(w', r) == Gap(w, r)
  {
    hide WellFormed;
    InitKeepsWellFormed(w, a);
    forall r | r in w.reserves
      ensures Gap(InitStep(w, a).value, r) == Gap(w, r)
    {
      VaultOf(w, r);
    }
  }

  /** A mint that freezes new accounts opens an empty reserve and nobody pays; otherwise the market's
      minimum is what the source pays, what the vault opens with, and what is booked and minted. */
  lemma {:induction false} InitPays(w: World, a: InitArgs)
    requires InitStep(w, a).Ok? && a.signer != w.marketAuthority
    ensures var w' := InitStep(w, a).value; var amount := if a.frozenByDefault then 0 else a.minInitialDeposit;
      && w'.reserves == w.reserves[a.reserve := Reserve(a.vault, amount, 0, amount)]
      && w'.balances.Keys == w.balances.Keys + {a.vault, a.feeVault}
      && w'.balances[a.vault] == amount && w'.balances[a.feeVault] == 0
      && (forall k :: k in w.balances ==> w'.balances[k] == w.balances[k] - Share(k, a.source, amount))
      && w'.owners == w.owners[a.vault := w.marketAuthority][a.feeVault := w.marketAuthority]
  {
  }

  /** It is accepted exactly when reserve and vaults are new and the source can pay. */
  lemma {:induction false} InitAcceptedIff(w: World, a: InitArgs)
    requires a.signer != w.marketAuthority
    ensures InitStep(w, a).Ok? <==>
      && a.reserve !in w.reserves && a.vault !in w.balances && a.feeVault !in w.balances && a.vault != a.feeVault
      && CanSend(w, a.source, if a.frozenByDefault then 0 else a.minInitialDeposit, a.signer)
      && a.source != a.vault && a.source != a.feeVault
  {
  }

  // ----- refresh_reserve: rewards become available liquidity -----

  /** `distribute_rewards`; how much is a matter of rates and elapsed slots. */
  function DistributeStep(w: World, r: Pubkey, amount: u64): (result: Result<World, HandlerError>)
    requires r in w.reserves
  {
    var reserve := w.reserves[r];
    if amount > reserve.rewards || reserve.available + amount >= TWO_64 then Err(ArithmeticOverflow)
    else
      var after := reserve.(available := reserve.available + amount, rewards := reserve.rewards - amount);
      Ok(w.(reserves := w.reserves[r := after]))
  }

  method DistributeRewards(m: Market, reserve: Pubkey, amount: u64) returns (r: Result<(), HandlerError>)
    requires reserve in m.reserves
    modifies m`reserves
    ensures Outcome(old(m.View()), m.View(), r, DistributeStep(old(m.View()), reserve, amount))
  {
    var held := m.reserves[reserve];
    if amount > held.rewards {
      return Err(ArithmeticOverflow);
    }
    if held.available + amount >= TWO_64 {
      return Err(ArithmeticOverflow);
    }
    m.reserves := m.reserves[reserve := held.(available := held.available + amount, rewards := held.rewards - amount)];
    return Ok(());
  }

  lemma {:induction false} DistributingNeverDrifts(w: World, r: Pubkey, amount: u64, q: Pubkey)
    requires WellFormed(w) && r in w.reserves && q in w.reserves && DistributeStep(w, r, amount).Ok?
    ensures var w' := DistributeStep(w, r, amount).value;
      && WellFormed(w') && w'.reserves.Keys == w.reserves.Keys && Gap(w', q) == Gap(w, q)
  {
    hide WellFormed;
    AmountsOnlyKeepsWellFormed(w, DistributeStep(w, r, amount).value);
    VaultOf(w, q);
  }

  /** Exactly the amount changes sides within the reserve, and no token moves. */
  lemma {:induction false} DistributingMoves(w: World, r: Pubkey, amount: u64)
    requires r in w.reserves
    ensures DistributeStep(w, r, amount).Ok? <==>
            amount <= w.reserves[r].rewards && w.reserves[r].available + amount < TWO_64
    ensures DistributeStep(w, r, amount).Ok? ==>
      var w' := DistributeStep(w, r, amount).value; var was, now := w.reserves[r], w'.reserves[r];
      && now.available == was.available + amount && now.available + now.rewards == was.available + was.rewards
      && now.minted == was.minted && now.supplyVault == was.supplyVault
      && w' == w.(reserves := w.reserves[r := now])
  {
  }

  // ----- topup_reserve_rewards -----

  /** A transfer into the vault that is booked as rewards, then
      `post_transfer_vault_balance_rewards_deposit_checks`. */
  function TopUpStep(
    w: World, r: Pubkey, amount: u64, source: Pubkey, signer: Pubkey)
    : (result: Result<World, HandlerError>)
    requires r in w.reserves && w.reserves[r].supplyVault in w.balances
  {
    var reserve := w.reserves[r];
    var vault := reserve.supplyVault;
    if amount == 0 then Err(InvalidAmount)
    else
      var b :- ApplyOne(w.balances, w.owners, Transfer(source, vault, amount, signer));
      if reserve.rewards + amount >= TWO_64 || w.balances[vault] + amount >= TWO_64 then Err(ArithmeticOverflow)
      else if b[vault] != w.balances[vault] + amount then Err(ReserveVaultBalanceMismatch)
      else Ok(w.(balances := b, reserves := w.reserves[r := reserve.(rewards := reserve.rewards + amount)]))
  }

  method TopUpRewards(m: Market, reserve: Pubkey, amount: u64, source: Pubkey, signer: Pubkey)
    returns (r: Result<(), HandlerError>)
    requires WellFormed(m.View()) && reserve in m.reserves
    modifies m`reserves, m`balances
    ensures Outcome(old(m.View()), m.View(), r, TopUpStep(old(m.View()), reserve, amount, source, signer))
  {
    if amount == 0 {
      return Err(InvalidAmount);
    }
    ghost var w := m.View();
    var savedReserves, savedBalances := m.reserves, m.balances;
    var held := m.reserves[reserve];
    var initialVaultBalance := m.balances[held.supplyVault];
    r := m.TransferTokens(source, held.supplyVault, amount, signer);
    if r.Err? {
      m.Restore(w, savedReserves, savedBalances);
      return;
    }
    if held.rewards + amount >= TWO_64 || initialVaultBalance + amount >= TWO_64 {
      m.Restore(w, savedReserves, savedBalances);
      return Err(ArithmeticOverflow);
    }
    m.reserves := m.reserves[reserve := held.(rewards := held.rewards + amount)];
    if initialVaultBalance + amount != m.balances[held.supplyVault] {
      m.Restore(w, savedReserves, savedBalances);
      return Err(ReserveVaultBalanceMismatch);
    }
  }

  lemma {:induction false} ToppingUpNeverDrifts(
    w: World, r: Pubkey, amount: u64, source: Pubkey, signer: Pubkey, q: Pubkey)
    requires WellFormed(w) && r in w.reserves && q in w.reserves && signer != w.marketAuthority
    requires w.reserves[r].supplyVault in w.balances && TopUpStep(w, r, amount, source, signer).Ok?
    ensures var w' := TopUpStep(w, r, amount, source, signer).value;
      && WellFormed(w') && w'.reserves.Keys == w.reserves.Keys && Gap(w', q) == Gap(w, q)
  {
    hide WellFormed;
    AmountsOnlyKeepsWellFormed(w, TopUpStep(w, r, amount, source, signer).value);
    VaultOf(w, q);
    VaultOf(w, r);
    OwnVault(w, r, q);
  }

  /** The source pays the vault, and the rewards grow by as much. */
  lemma {:induction false} ToppingUpPays(w: World, r: Pubkey, amount: u64, source: Pubkey, signer: Pubkey)
    requires WellFormed(w) && r in w.reserves && signer != w.marketAuthority
    ensures var vault := w.reserves[r].supplyVault;
      && vault in w.balances
      && (TopUpStep(w, r, amount, source, signer).Ok? <==>
          && amount > 0 && CanSend(w, source, amount, signer) && CanReceive(w, vault, amount)
          && w.reserves[r].rewards + amount < TWO_64)
      && (TopUpStep(w, r, amount, source, signer).Ok? ==>
          var w' := TopUpStep(w, r, amount, source, signer).value; var was, now := w.reserves[r], w'.reserves[r];
          && MovedBy(w.balances, w'.balances, k => Share(k, vault, amount) - Share(k, source, amount))
          && now.rewards == was.rewards + amount && now.available == was.available && now.minted == was.minted
          && w' == w.(balances := w'.balances, reserves := w.reserves[r := now]) && now.supplyVault == vault)
  {
    hide WellFormed;
    VaultOf(w, r);
  }

  // ----- redeem_fees and withdraw_referrer_fees -----

  /** The available amount and the vault give up the same amount; nothing is checked afterwards. */
  function CollectStep(w: World, r: Pubkey, amount: u64, destination: Pubkey): (result: Result<World, HandlerError>)
    requires r in w.reserves
  {
    var reserve := w.reserves[r];
    if amount > reserve.available then Err(InsufficientLiquidity)
    else
      var b :- ApplyOne(w.balances, w.owners, Transfer(reserve.supplyVault, destination, amount, w.marketAuthority));
      Ok(w.(balances := b, reserves := w.reserves[r := reserve.(available := reserve.available - amount)]))
  }

  method CollectFees(m: Market, reserve: Pubkey, amount: u64, destination: Pubkey) returns (r: Result<(), HandlerError>)
    requires reserve in m.reserves
    modifies m`reserves, m`balances
    ensures Outcome(old(m.View()), m.View(), r, CollectStep(old(m.View()), reserve, amount, destination))
  {
    ghost var w := m.View();
    var savedReserves, savedBalances := m.reserves, m.balances;
    var held := m.reserves[reserve];
    if amount > held.available {
      return Err(InsufficientLiquidity);
    }
    m.reserves := m.reserves[reserve := held.(available := held.available - amount)];
    r := m.TransferTokens(held.supplyVault, destination, amount, m.marketAuthority);
    if r.Err? {
      m.Restore(w, savedReserves, savedBalances);
    }
  }

  /** A fee paid into a supply vault is a donation to it, even to the reserve's own. */
  lemma {:induction false} CollectingOnlyDonates(w: World, r: Pubkey, amount: u64, destination: Pubkey, q: Pubkey)
    requires WellFormed(w) && r in w.reserves && q in w.reserves && CollectStep(w, r, amount, destination).Ok?
    ensures var w' := CollectStep(w, r, amount, destination).value;
      && WellFormed(w') && w'.reserves.Keys == w.reserves.Keys
      && Gap(w', q) == Gap(w, q) + if destination == w.reserves[q].supplyVault then amount else 0
  {
    hide WellFormed;
    AmountsOnlyKeepsWellFormed(w, CollectStep(w, r, amount, destination).value);
    VaultOf(w, q);
    VaultOf(w, r);
    OwnVault(w, r, q);
  }

  /** The vault pays the destination out of the available amount. */
  lemma {:induction false} CollectingPays(w: World, r: Pubkey, amount: u64, destination: Pubkey)
    requires WellFormed(w) && r in w.reserves && destination != w.reserves[r].supplyVault
    ensures var vault := w.reserves[r].supplyVault;
      && vault in w.balances
      && (CollectStep(w, r, amount, destination).Ok? <==>
          amount <= w.reserves[r].available && amount <= w.balances[vault] && CanReceive(w, destination, amount))
      && (CollectStep(w, r, amount, destination).Ok? ==>
          var w' := CollectStep(w, r, amount, destination).value; var was, now := w.reserves[r], w'.reserves[r];
          && MovedBy(w.balances, w'.balances, k => Share(k, destination, amount) - Share(k, vault, amount))
          && now.available == was.available - amount && now.rewards == was.rewards && now.minted == was.minted
          && w' == w.(balances := w'.balances, reserves := w.reserves[r := now]) && now.supplyVault == vault)
  {
    hide WellFormed;
    VaultOf(w, r);
  }

  // ----- rollover_fixed_term_borrow -----

  datatype RolloverArgs = RolloverArgs(
    source: Pubkey, target: Pubkey, afterSource: Accounting, afterTarget: Accounting, amount: u64)

  /** The equations of `rollover_fixed_term_borrow_into_different_reserve_post_checks` about vaults and
      available amounts. A sum beyond u64 panics there and is unequal here: refused either way. */
  function RolloverCheck(w: World, a: RolloverArgs, b: Balances): (r: Option<HandlerError>)
    requires a.source in w.reserves && a.target in w.reserves
    requires w.reserves[a.source].supplyVault in w.balances && w.reserves[a.target].supplyVault in w.balances
    requires b.Keys == w.balances.Keys
  {
    var source, target := w.reserves[a.source], w.reserves[a.target];
    if source.available + a.amount != a.afterSource.available then Some(ReserveAccountingMismatch)
    else if w.balances[source.supplyVault] + a.amount != b[source.supplyVault] then Some(ReserveVaultBalanceMismatch)
    else if target.available - a.amount != a.afterTarget.available then Some(ReserveAccountingMismatch)
    else if w.balances[target.supplyVault] - a.amount != b[target.supplyVault] then Some(ReserveVaultBalanceMismatch)
    else None
  }

  /** A rollover into the same reserve moves nothing. */
  function RolloverStep(w: World, a: RolloverArgs): (r: Result<World, HandlerError>)
    requires a.source in w.reserves && a.target in w.reserves
    requires w.reserves[a.source].supplyVault in w.balances && w.reserves[a.target].supplyVault in w.balances
  {
    if a.source == a.target then Ok(w)
    else
      var source, target := w.reserves[a.source], w.reserves[a.target];
      var move := Transfer(target.supplyVault, source.supplyVault, a.amount, w.marketAuthority);
      var b :- ApplyOne(w.balances, w.owners, move);
      match RolloverCheck(w, a, b)
      case Some(e) => Err(e)
      case None =>
        var withSource := w.reserves[a.source := WithAccounting(source, a.afterSource)];
        Ok(w.(balances := b, reserves := withSource[a.target := WithAccounting(target, a.afterTarget)]))
  }

  method RolloverBorrow(m: Market, a: RolloverArgs) returns (r: Result<(), HandlerError>)
    requires WellFormed(m.View()) && a.source in m.reserves && a.target in m.reserves
    modifies m`reserves, m`balances
    ensures Outcome(old(m.View()), m.View(), r, RolloverStep(old(m.View()), a))
  {
    if a.source == a.target {
      return Ok(());
    }
    ghost var w := m.View();
    var savedReserves, savedBalances := m.reserves, m.balances;
    var source, target := m.reserves[a.source], m.reserves[a.target];
    var sourceVaultBefore, targetVaultBefore := m.balances[source.supplyVault], m.balances[target.supplyVault];
    m.SetAccounting(a.source, a.afterSource);
    m.SetAccounting(a.target, a.afterTarget);
    r := m.TransferTokens(target.supplyVault, source.supplyVault, a.amount, m.marketAuthority);
    if r.Err? {
      m.Restore(w, savedReserves, savedBalances);
      return;
    }
    var failed: Option<HandlerError> := None;
    if source.available + a.amount != m.reserves[a.source].available {
      failed := Some(ReserveAccountingMismatch);
    } else if sourceVaultBefore + a.amount != m.balances[source.supplyVault] {
      failed := Some(ReserveVaultBalanceMismatch);
    } else if target.available - a.amount != m.reserves[a.target].available {
      failed := Some(ReserveAccountingMismatch);
    } else if targetVaultBefore - a.amount != m.balances[target.supplyVault] {
      failed := Some(ReserveVaultBalanceMismatch);
    }
    if failed.Some? {
      m.Restore(w, savedReserves, savedBalances);
      return Err(failed.value);
    }
  }

  lemma {:induction false} RolloverNeverDrifts(w: World, a: RolloverArgs, q: Pubkey)
    requires WellFormed(w) && a.source in w.reserves && a.target in w.reserves && q in w.reserves
    requires w.reserves[a.source].supplyVault in w.balances && w.reserves[a.target].supplyVault in w.balances
    requires RolloverStep(w, a).Ok?
    ensures var w' := RolloverStep(w, a).value;
      && WellFormed(w') && w'.reserves.Keys == w.reserves.Keys && Gap(w', q) == Gap(w, q)
  {
    hide WellFormed;
    AmountsOnlyKeepsWellFormed(w, RolloverStep(w, a).value);
    VaultOf(w, q);
    OwnVault(w, a.source, q);
    OwnVault(w, a.target, q);
  }

  /** Between different reserves the target's vault pays the source's, which is repaid; it is accepted
      exactly when both vaults can and both available amounts moved by as much. */
  lemma {:induction false} RolloverPays(w: World, a: RolloverArgs)
    requires WellFormed(w) && a.source in w.reserves && a.target in w.reserves && a.source != a.target
    ensures var from, to := w.reserves[a.target].supplyVault, w.reserves[a.source].supplyVault;
      && from in w.balances && to in w.balances
      && (RolloverStep(w, a).Ok? <==>
          && a.amount <= w.balances[from] && CanReceive(w, to, a.amount)
          && a.afterSource.available == w.reserves[a.source].available + a.amount
          && a.afterTarget.available == w.reserves[a.target].available - a.amount)
      && (RolloverStep(w, a).Ok? ==>
          var w' := RolloverStep(w, a).value;
          && MovedBy(w.balances, w'.balances, k => Share(k, to, a.amount) - Share(k, from, a.amount))
          && w'.reserves.Keys == w.reserves.Keys
          && w'.reserves[a.source].minted == a.afterSource.minted
          && w'.reserves[a.target].minted == a.afterTarget.minted
          && w'.reserves[a.source].available == a.afterSource.available
          && w'.reserves[a.target].available == a.afterTarget.available
          && forall q :: q in w.reserves && q != a.source && q != a.target ==> w'.reserves[q] == w.reserves[q])
  {
    hide WellFormed;
    VaultOf(w, a.source);
    VaultOf(w, a.target);
    OwnVault(w, a.source, a.target);
  }

  // ----- Refusals say what is wrong -----

  lemma {:induction false} InitRefusals(w: World, a: InitArgs)
    requires InitStep(w, a).Err? && a.signer != w.marketAuthority
    ensures match InitStep(w, a).error
            case AccountAlreadyInUse =>
              a.reserve in w.reserves || a.vault in w.balances || a.feeVault in w.balances || a.vault == a.feeVault
            case InvalidTransfer =>
              !CanSend(w, a.source, InitialAmount(a.minInitialDeposit, a.frozenByDefault), a.signer)
            case _ => false
  {
  }

  lemma {:induction false} TopUpRefusals(w: World, r: Pubkey, amount: u64, source: Pubkey, signer: Pubkey)
    requires WellFormed(w) && r in w.reserves && signer != w.marketAuthority
    requires w.reserves[r].supplyVault in w.balances && TopUpStep(w, r, amount, source, signer).Err?
    ensures match TopUpStep(w, r, amount, source, signer).error
            case InvalidAmount => amount == 0
            case InvalidTransfer => !CanSend(w, source, amount, signer)
            case ArithmeticOverflow =>
              !CanReceive(w, w.reserves[r].supplyVault, amount) || w.reserves[r].rewards + amount >= TWO_64
            case _ => false
  {
    hide WellFormed;
    VaultOf(w, r);
  }

  lemma {:induction false} CollectRefusals(w: World, r: Pubkey, amount: u64, destination: Pubkey)
    requires WellFormed(w) && r in w.reserves && CollectStep(w, r, amount, destination).Err?
    ensures w.reserves[r].supplyVault in w.balances
    ensures match CollectStep(w, r, amount, destination).error
            case InsufficientLiquidity => amount > w.reserves[r].available
            case InvalidTransfer => destination !in w.balances || amount > w.balances[w.reserves[r].supplyVault]
            case ArithmeticOverflow => !CanReceive(w, destination, amount)
            case _ => false
  {
    hide WellFormed;
    VaultOf(w, r);
  }

  /** The vaults move as they should by themselves, so only the accounting can be refused after a transfer. */
  lemma {:induction false} RolloverRefusals(w: World, a: RolloverArgs)
    requires WellFormed(w) && a.source in w.reserves && a.target in w.reserves && a.source != a.target
    requires w.reserves[a.source].supplyVault in w.balances && w.reserves[a.target].supplyVault in w.balances
    requires RolloverStep(w, a).Err?
    ensures match RolloverStep(w, a).error
            case InvalidTransfer => a.amount > w.balances[w.reserves[a.target].supplyVault]
            case ArithmeticOverflow => !CanReceive(w, w.reserves[a.source].supplyVault, a.amount)
            case ReserveAccountingMismatch =>
              || a.afterSource.available != w.reserves[a.source].available + a.amount
              || a.afterTarget.available != w.reserves[a.target].available - a.amount
            case _ => false
  {
    hide WellFormed;
    VaultOf(w, a.source);
    VaultOf(w, a.target);
    OwnVault(w, a.source, a.target);
  }
}
