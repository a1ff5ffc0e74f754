/** Reserve vaults against reserve accounting: every handler that moves a reserve's tokens takes
    snapshots, runs a lending operation, moves tokens, and then runs
    `post_transfer_vault_balance_liquidity_reserve_checks`. The results here hold whatever the lending
    operation does to the available amount and to the collateral supply. */
module VaultAccounting {
  import opened Common

  // ----- Token accounts -----

  const TWO_64: int := 0x1_0000_0000_0000_0000

  type u64 = x: nat | x < TWO_64

  /** One token-program transfer, signed by `authority`. */
  datatype Transfer = Transfer(from: Pubkey, to: Pubkey, amount: u64, authority: Pubkey)

  datatype HandlerError =
    | InvalidTransfer | AccountAlreadyInUse | InvalidAmount
    | ReserveTokenBalanceMismatch | ReserveVaultBalanceMismatch | ReserveAccountingMismatch
    | InsufficientRepayAmount | InsufficientLiquidity | ArithmeticOverflow

  type Balances = map<Pubkey, u64>

  /** The token program: both accounts exist, the owner signs, the source covers the amount, and the
      destination can hold it. */
  function ApplyOne(b: Balances, owners: map<Pubkey, Pubkey>, t: Transfer): (r: Result<Balances, HandlerError>) {
    if t.from !in b || t.to !in b || t.from !in owners || owners[t.from] != t.authority || b[t.from] < t.amount
    then Err(InvalidTransfer)
    else if t.from == t.to then Ok(b)
    else if b[t.to] + t.amount >= TWO_64 then Err(ArithmeticOverflow)
    else Ok(b[t.from := b[t.from] - t.amount][t.to := b[t.to] + t.amount])
  }

  function Apply(b: Balances, owners: map<Pubkey, Pubkey>, ts: seq<Transfer>): (r: Result<Balances, HandlerError>) {
    if ts == [] then Ok(b)
    else match ApplyOne(b, owners, ts[0])
      case Err(e) => Err(e)
      case Ok(b') => Apply(b', owners, ts[1..])
  }

  function Credits(ts: seq<Transfer>, account: Pubkey): (r: nat) {
    if ts == [] then 0 else (if ts[0].to == account then ts[0].amount else 0) + Credits(ts[1..], account)
  }

  function Debits(ts: seq<Transfer>, account: Pubkey): (r: nat) {
    if ts == [] then 0 else (if ts[0].from == account then ts[0].amount else 0) + Debits(ts[1..], account)
  }

  /** A transfer is refused for an account that is not there, a signature or an amount that is missing, or a
      destination that is full. */
  lemma {:induction false} TransferRefusals(b: Balances, owners: map<Pubkey, Pubkey>, t: Transfer)
    ensures match ApplyOne(b, owners, t)
            case Ok(_) => t.from in b && t.to in b && t.from in owners
            case Err(InvalidTransfer) =>
              || t.from !in b || t.to !in b || t.from !in owners || owners[t.from] != t.authority
              || b[t.from] < t.amount
            case Err(ArithmeticOverflow) => t.from != t.to && t.to in b && b[t.to] + t.amount >= TWO_64
            case Err(_) => false
  {
  }

  /** Transfers move tokens and nothing else: each account changes by its credits less its debits. */
  lemma {:induction false} ApplyConserves(b: Balances, owners: map<Pubkey, Pubkey>, ts: seq<Transfer>)
    requires Apply(b, owners, ts).Ok?
    ensures var b' := Apply(b, owners, ts).value;
      b'.Keys == b.Keys && forall k :: k in b ==> b'[k] == b[k] + Credits(ts, k) - Debits(ts, k)
    decreases ts
  {
    if ts != [] {
      ApplyConserves(ApplyOne(b, owners, ts[0]).value, owners, ts[1..]);
    }
  }

  /** Accounts whose owner did not sign are never debited. */
  lemma {:induction false} UnsignedNotDebited(
    b: Balances, owners: map<Pubkey, Pubkey>, ts: seq<Transfer>, account: Pubkey)
    requires Apply(b, owners, ts).Ok? && account in owners
    requires forall i :: 0 <= i < |ts| ==> ts[i].authority != owners[account] || ts[i].from != account
    ensures Debits(ts, account) == 0
    decreases ts
  {
    if ts != [] {
      assert ts[0].from != account;
      forall i | 0 <= i < |ts[1..]|
        ensures ts[1..][i].authority != owners[account] || ts[1..][i].from != account
      {
        assert ts[1..][i] == ts[i + 1];
      }
      UnsignedNotDebited(ApplyOne(b, owners, ts[0]).value, owners, ts[1..], account);
    }
  }

  // ----- The market -----

  /** `available` is `total_available_amount`, `rewards` is `rewards_amount_available`, and `minted` is the
      collateral's `mint_total_supply`. */
  datatype Reserve = Reserve(supplyVault: Pubkey, available: u64, rewards: u64, minted: u64)

  /** What a lending operation leaves of the amounts it may change. */
  datatype Accounting = Accounting(available: u64, minted: u64)

  /** All reserves of a market, the token accounts, and who owns each. */
  datatype World = World(reserves: map<Pubkey, Reserve>, balances: Balances, owners: map<Pubkey, Pubkey>,
    marketAuthority: Pubkey)

  /** Each reserve has a vault of its own, derived from its address, and the market owns it. */
  ghost predicate WellFormed(w: World) {
    && (forall r :: r in w.reserves ==>
          var v := w.reserves[r].supplyVault; v in w.balances && v in w.owners && w.owners[v] == w.marketAuthority)
    && (forall r, q :: r in w.reserves && q in w.reserves && r != q ==>
        w.reserves[r].supplyVault != w.reserves[q].supplyVault)
  }

  /** Handlers change amounts only: which vault is whose, and who owns it, stays. */
  lemma {:induction false} AmountsOnlyKeepsWellFormed(w: World, w': World)
    requires WellFormed(w) && w'.owners == w.owners && w'.marketAuthority == w.marketAuthority
    requires w'.reserves.Keys == w.reserves.Keys && w'.balances.Keys == w.balances.Keys
    requires forall r :: r in w.reserves ==> w'.reserves[r].supplyVault == w.reserves[r].supplyVault
    ensures WellFormed(w')
  {
  }

  lemma {:induction false} VaultOf(w: World, r: Pubkey)
    requires WellFormed(w) && r in w.reserves
    ensures var v := w.reserves[r].supplyVault; v in w.balances && v in w.owners && w.owners[v] == w.marketAuthority
  {
  }

  lemma {:induction false} OwnVault(w: World, r: Pubkey, q: Pubkey)
    requires WellFormed(w) && r in w.reserves && q in w.reserves
    ensures w.reserves[r].supplyVault == w.reserves[q].supplyVault <==> r == q
  {
  }

  /** What a vault holds beyond the available liquidity and the rewards still to be distributed. */
  function Gap(w: World, r: Pubkey): (result: int)
    requires r in w.reserves && w.reserves[r].supplyVault in w.balances
  {
    w.balances[w.reserves[r].supplyVault] - w.reserves[r].available - w.reserves[r].rewards
  }

  // ----- The post-transfer check -----

  datatype LendingAction = Additive(amount: nat) | Subtractive(amount: nat)

  function Expected(initial: nat, action: LendingAction): (expected: int) {
    match action case Additive(a) => initial + a case Subtractive(a) => initial - a
  }

  /** The check, in the order of its code. The crate is built with overflow checks, so a difference below
      zero, or a sum beyond u64, is a panic: `ArithmeticOverflow`. */
  function PostTransferCheck(
    finalVault: u64, finalAvailable: u64, initialVault: u64, initialAvailable: u64, action: LendingAction)
    : (r: Option<HandlerError>)
  {
    if initialVault < initialAvailable || finalVault < finalAvailable then Some(ArithmeticOverflow)
    else if initialVault - initialAvailable != finalVault - finalAvailable then Some(ReserveTokenBalanceMismatch)
    else if !(0 <= Expected(initialVault, action) < TWO_64) then Some(ArithmeticOverflow)
    else if Expected(initialVault, action) != finalVault then Some(ReserveVaultBalanceMismatch)
    else if !(0 <= Expected(initialAvailable, action) < TWO_64) then Some(ArithmeticOverflow)
    else if Expected(initialAvailable, action) != finalAvailable then Some(ReserveAccountingMismatch)
    else None
  }

  /** What passing means: the vault covered the available amount, and both moved by the action. */
  lemma {:induction false} PostTransferCheckIff(
    finalVault: u64, finalAvailable: u64, initialVault: u64, initialAvailable: u64, action: LendingAction)
    ensures PostTransferCheck(finalVault, finalAvailable, initialVault, initialAvailable, action).None? <==>
      && initialVault >= initialAvailable
      && finalVault == Expected(initialVault, action) && finalAvailable == Expected(initialAvailable, action)
  {
  }

  /** A refusal names an equation that does not hold, or an overflow. The last equation can never be the
      one: it follows from the two before it. */
  lemma {:induction false} PostTransferRefusals(
    finalVault: u64, finalAvailable: u64, initialVault: u64, initialAvailable: u64, action: LendingAction)
    ensures match PostTransferCheck(finalVault, finalAvailable, initialVault, initialAvailable, action)
            case None => true
            case Some(ReserveTokenBalanceMismatch) => finalVault - finalAvailable != initialVault - initialAvailable
            case Some(ReserveVaultBalanceMismatch) => finalVault != Expected(initialVault, action)
            case Some(ArithmeticOverflow) =>
              || initialVault < initialAvailable || finalVault < finalAvailable
              || !(0 <= Expected(initialVault, action) < TWO_64) || !(0 <= Expected(initialAvailable, action) < TWO_64)
            case _ => false
  {
  }

  function WithAccounting(r: Reserve, after: Accounting): (r': Reserve) {
    r.(available := after.available, minted := after.minted)
  }

  /** A single-reserve handler: the lending operation leaves `after`, then transfers, then the check. */
  function HandlerStep(w: World, r: Pubkey, after: Accounting, ts: seq<Transfer>, action: LendingAction)
    : (result: Result<World, HandlerError>)
    requires r in w.reserves && w.reserves[r].supplyVault in w.balances
  {
    var vault := w.reserves[r].supplyVault;
    var b :- Apply(w.balances, w.owners, ts);
    if vault !in b then Err(InvalidTransfer)
    else match PostTransferCheck(b[vault], after.available, w.balances[vault], w.reserves[r].available, action)
      case Some(e) => Err(e)
      case None => Ok(w.(balances := b, reserves := w.reserves[r := WithAccounting(w.reserves[r], after)]))
  }

  /** Only the reserve's own vault is debited with the market's signature. */
  ghost predicate OwnVaultOnly(w: World, r: Pubkey, ts: seq<Transfer>)
    requires r in w.reserves
  {
    forall i :: 0 <= i < |ts| ==> ts[i].authority == w.marketAuthority ==> ts[i].from == w.reserves[r].supplyVault
  }

  /** No drift, whatever the lending operation did and wherever the tokens went: success leaves the
      reserve's own gap unchanged, and every other reserve's gap grows by what its vault received. */
  lemma {:induction false} HandlerNeverDrifts(
    w: World, r: Pubkey, after: Accounting, ts: seq<Transfer>, action: LendingAction, q: Pubkey)
    requires WellFormed(w) && r in w.reserves && q in w.reserves && OwnVaultOnly(w, r, ts)
    requires HandlerStep(w, r, after, ts, action).Ok?
    ensures var w' := HandlerStep(w, r, after, ts, action).value;
      && WellFormed(w') && w'.reserves.Keys == w.reserves.Keys
      && Gap(w', q) == Gap(w, q) + if q == r then 0 else Credits(ts, w.reserves[q].supplyVault)
  {
    hide Apply, Credits, Debits, WellFormed;
    ApplyConserves(w.balances, w.owners, ts);
    AmountsOnlyKeepsWellFormed(w, HandlerStep(w, r, after, ts, action).value);
    VaultOf(w, q);
    VaultOf(w, r);
    if q != r {
      OwnVault(w, q, r);
      UnsignedNotDebited(w.balances, w.owners, ts, w.reserves[q].supplyVault);
    }
  }

  // ----- Who pays whom -----

  /** Every account changes by its gain, and none comes or goes. */
  ghost predicate MovedBy(before: Balances, after: Balances, gain: Pubkey -> int) {
    after.Keys == before.Keys && forall k :: k in before ==> after[k] == before[k] + gain(k)
  }

  /** What account `k` gains when `account` gains `amount`. */
  function Share(k: Pubkey, account: Pubkey, amount: nat): (gain: int) { if k == account then amount else 0 }

  /** A handler writes its own reserve's available amount and collateral supply, and nothing else of any
      reserve. */
  ghost predicate OnlyAccounting(before: World, after: World, r: Pubkey, accounting: Accounting)
    requires r in before.reserves
  {
    var mine := before.reserves[r];
    && after.owners == before.owners && after.marketAuthority == before.marketAuthority
    && after.reserves.Keys == before.reserves.Keys
    && after.reserves[r] == Reserve(mine.supplyVault, accounting.available, mine.rewards, accounting.minted)
    && forall q :: q in before.reserves && q != r ==> after.reserves[q] == before.reserves[q]
  }

  /** A deposit: the vault gains what the user's account loses. */
  lemma {:induction false} DepositPays(
    w: World, r: Pubkey, after: Accounting, amount: u64, source: Pubkey, owner: Pubkey)
    requires r in w.reserves && w.reserves[r].supplyVault in w.balances
    requires HandlerStep(w, r, after, [Transfer(source, w.reserves[r].supplyVault, amount, owner)],
                         Additive(amount)).Ok?
    ensures var vault := w.reserves[r].supplyVault;
      var w' := HandlerStep(w, r, after, [Transfer(source, vault, amount, owner)], Additive(amount)).value;
      && OnlyAccounting(w, w', r, after)
      && MovedBy(w.balances, w'.balances, k => Share(k, vault, amount) - Share(k, source, amount))
  {
    var ts := [Transfer(source, w.reserves[r].supplyVault, amount, owner)];
    ApplyConserves(w.balances, w.owners, ts);
    SumsOfOne(ts);
  }

  /** A payout: the user's account gains what the vault loses. */
  lemma {:induction false} PayOutPays(w: World, r: Pubkey, after: Accounting, amount: u64, destination: Pubkey)
    requires r in w.reserves && w.reserves[r].supplyVault in w.balances
    requires HandlerStep(w, r, after, [Transfer(w.reserves[r].supplyVault, destination, amount, w.marketAuthority)],
                         Subtractive(amount)).Ok?
    ensures var vault := w.reserves[r].supplyVault;
      var ts := [Transfer(vault, destination, amount, w.marketAuthority)];
      var w' := HandlerStep(w, r, after, ts, Subtractive(amount)).value;
      && OnlyAccounting(w, w', r, after)
      && MovedBy(w.balances, w'.balances, k => Share(k, destination, amount) - Share(k, vault, amount))
  {
    var ts := [Transfer(w.reserves[r].supplyVault, destination, amount, w.marketAuthority)];
    ApplyConserves(w.balances, w.owners, ts);
    SumsOfOne(ts);
  }

  /** A borrow: the borrower gets the loan, the fee receiver the fee, and the vault pays both. */
  lemma {:induction false} BorrowPays(
    w: World, r: Pubkey, after: Accounting, receive: u64, fee: u64, feeReceiver: Pubkey, destination: Pubkey)
    requires r in w.reserves && w.reserves[r].supplyVault in w.balances
    requires HandlerStep(w, r, after, BorrowTransfers(w.reserves[r].supplyVault, receive, fee, feeReceiver, destination,
                         w.marketAuthority), Subtractive(fee + receive)).Ok?
    ensures var vault := w.reserves[r].supplyVault;
      var ts := BorrowTransfers(vault, receive, fee, feeReceiver, destination, w.marketAuthority);
      var w' := HandlerStep(w, r, after, ts, Subtractive(fee + receive)).value;
      && OnlyAccounting(w, w', r, after)
      && MovedBy(w.balances, w'.balances, k =>
           Share(k, destination, receive) + Share(k, feeReceiver, fee) - Share(k, vault, receive + fee))
  {
    var ts := BorrowTransfers(w.reserves[r].supplyVault, receive, fee, feeReceiver, destination, w.marketAuthority);
    ApplyConserves(w.balances, w.owners, ts);
    SumsOfOne(ts);
    SumsOfTwo(ts);
  }

  /** A flash repayment: the vault gets the amount, the fee receiver the fee, and the user pays both. */
  lemma {:induction false} FlashRepayPays(
    w: World, r: Pubkey, after: Accounting, amount: u64, fee: u64, source: Pubkey, feeReceiver: Pubkey, user: Pubkey)
    requires r in w.reserves && w.reserves[r].supplyVault in w.balances
    requires HandlerStep(w, r, after, FlashRepayTransfers(w.reserves[r].supplyVault, amount, fee, source, feeReceiver,
                         user), Additive(amount)).Ok?
    ensures var vault := w.reserves[r].supplyVault;
      var ts := FlashRepayTransfers(vault, amount, fee, source, feeReceiver, user);
      var w' := HandlerStep(w, r, after, ts, Additive(amount)).value;
      && OnlyAccounting(w, w', r, after)
      && MovedBy(w.balances, w'.balances, k =>
           Share(k, vault, amount) + Share(k, feeReceiver, fee) - Share(k, source, amount + fee))
  {
    var ts := FlashRepayTransfers(w.reserves[r].supplyVault, amount, fee, source, feeReceiver, user);
    ApplyConserves(w.balances, w.owners, ts);
    SumsOfOne(ts);
    SumsOfTwo(ts);
  }

  lemma {:induction false} SumsOfOne(ts: seq<Transfer>)
    ensures |ts| == 1 ==> forall k ::
              Credits(ts, k) == Share(k, ts[0].to, ts[0].amount) && Debits(ts, k) == Share(k, ts[0].from, ts[0].amount)
  {
    assert |ts| == 1 ==> ts[1..] == [];
  }

  lemma {:induction false} SumsOfTwo(ts: seq<Transfer>)
    ensures |ts| == 2 ==> forall k ::
              && Credits(ts, k) == Share(k, ts[0].to, ts[0].amount) + Share(k, ts[1].to, ts[1].amount)
              && Debits(ts, k) == Share(k, ts[0].from, ts[0].amount) + Share(k, ts[1].from, ts[1].amount)
  {
    if |ts| == 2 {
      SumsOfOne(ts[1..]);
    }
  }

  // ----- When they pay -----

  /** `authority` can send `amount` from this account. */
  predicate CanSend(w: World, from: Pubkey, amount: nat, authority: Pubkey) {
    from in w.balances && from in w.owners && w.owners[from] == authority && w.balances[from] >= amount
  }

  predicate CanReceive(w: World, to: Pubkey, amount: nat) { to in w.balances && w.balances[to] + amount < TWO_64 }

  /** The vault covers the available amount, and the operation moved the latter by exactly `change`. */
  predicate Booked(w: World, r: Pubkey, after: Accounting, change: int)
    requires r in w.reserves && w.reserves[r].supplyVault in w.balances
  {
    && w.balances[w.reserves[r].supplyVault] >= w.reserves[r].available
    && after.available == w.reserves[r].available + change
  }

  lemma {:induction false} DepositAcceptedIff(
    w: World, r: Pubkey, after: Accounting, amount: u64, source: Pubkey, owner: Pubkey)
    requires WellFormed(w) && r in w.reserves && owner != w.marketAuthority
    ensures var vault := w.reserves[r].supplyVault;
      HandlerStep(w, r, after, [Transfer(source, vault, amount, owner)], Additive(amount)).Ok? <==>
      CanSend(w, source, amount, owner) && CanReceive(w, vault, amount) && Booked(w, r, after, amount)
  {
    hide WellFormed, Apply;
    VaultOf(w, r);
    ApplyOfOne(w.balances, w.owners, Transfer(source, w.reserves[r].supplyVault, amount, owner));
  }

  lemma {:induction false} PayOutAcceptedIff(w: World, r: Pubkey, after: Accounting, amount: u64, destination: Pubkey)
    requires WellFormed(w) && r in w.reserves && destination != w.reserves[r].supplyVault
    ensures var ts := [Transfer(w.reserves[r].supplyVault, destination, amount, w.marketAuthority)];
      HandlerStep(w, r, after, ts, Subtractive(amount)).Ok? <==>
      CanReceive(w, destination, amount) && Booked(w, r, after, -(amount as int))
  {
    hide WellFormed, Apply;
    VaultOf(w, r);
    ApplyOfOne(w.balances, w.owners, Transfer(w.reserves[r].supplyVault, destination, amount, w.marketAuthority));
  }

  /** A fee of zero needs no receiver; both may go to one account. */
  lemma {:induction false} BorrowAcceptedIff(
    w: World, r: Pubkey, after: Accounting, receive: u64, fee: u64, feeReceiver: Pubkey, destination: Pubkey)
    requires WellFormed(w) && r in w.reserves
    requires destination != w.reserves[r].supplyVault && feeReceiver != w.reserves[r].supplyVault
    ensures var vault := w.reserves[r].supplyVault;
      var ts := BorrowTransfers(vault, receive, fee, feeReceiver, destination, w.marketAuthority);
      HandlerStep(w, r, after, ts, Subtractive(fee + receive)).Ok? <==>
      && (fee > 0 ==> CanReceive(w, feeReceiver, fee))
      && CanReceive(w, destination, receive + if destination == feeReceiver then fee else 0)
      && Booked(w, r, after, -(fee + receive))
  {
    hide WellFormed, Apply;
    var vault := w.reserves[r].supplyVault;
    var s, t := Transfer(vault, feeReceiver, fee, w.marketAuthority),
                Transfer(vault, destination, receive, w.marketAuthority);
    VaultOf(w, r);
    ApplyOfOne(w.balances, w.owners, t);
    ApplyOfTwo(w.balances, w.owners, s, t);
  }

  /** A fee of zero needs no receiver; the user's account covers amount and fee. */
  lemma {:induction false} FlashRepayAcceptedIff(
    w: World, r: Pubkey, after: Accounting, amount: u64, fee: u64, source: Pubkey, feeReceiver: Pubkey, user: Pubkey)
    requires WellFormed(w) && r in w.reserves && user != w.marketAuthority
    requires feeReceiver != w.reserves[r].supplyVault && feeReceiver != source
    ensures var vault := w.reserves[r].supplyVault;
      var ts := FlashRepayTransfers(vault, amount, fee, source, feeReceiver, user);
      HandlerStep(w, r, after, ts, Additive(amount)).Ok? <==>
      && CanSend(w, source, amount + fee, user) && CanReceive(w, vault, amount)
      && (fee > 0 ==> CanReceive(w, feeReceiver, fee))
      && Booked(w, r, after, amount)
  {
    hide WellFormed, Apply;
    var vault := w.reserves[r].supplyVault;
    var s, t := Transfer(source, vault, amount, user), Transfer(source, feeReceiver, fee, user);
    VaultOf(w, r);
    ApplyOfOne(w.balances, w.owners, s);
    ApplyOfTwo(w.balances, w.owners, s, t);
  }

  // ----- The handlers -----

  /** A failed instruction leaves no trace: the runtime restores every account. */
  ghost predicate Outcome(before: World, after: World, r: Result<(), HandlerError>, step: Result<World, HandlerError>) {
    match step
    case Ok(w) => r == Ok(()) && after == w
    case Err(e) => r == Err(e) && after == before
  }

  class Market {
    var reserves: map<Pubkey, Reserve>
    var balances: Balances
    var owners: map<Pubkey, Pubkey>
    const marketAuthority: Pubkey

    constructor (marketAuthority: Pubkey, balances: Balances, owners: map<Pubkey, Pubkey>)
      ensures View() == World(map[], balances, owners, marketAuthority) && WellFormed(View())
    {
      this.reserves, this.balances, this.owners := map[], balances, owners;
      this.marketAuthority := marketAuthority;
    }

    ghost function View(): (r: World)
      reads this
    {
      World(reserves, balances, owners, marketAuthority)
    }

    method TransferTokens(
      from: Pubkey, to: Pubkey, amount: u64, authority: Pubkey)
      returns (r: Result<(), HandlerError>)
      modifies this`balances
      ensures match ApplyOne(old(balances), owners, Transfer(from, to, amount, authority))
              case Ok(b) => r == Ok(()) && balances == b
              case Err(e) => r == Err(e) && balances == old(balances)
    {
      if from !in balances || to !in balances || from !in owners || owners[from] != authority
         || balances[from] < amount {
        return Err(InvalidTransfer);
      }
      if from != to {
        if balances[to] + amount >= TWO_64 {
          return Err(ArithmeticOverflow);
        }
        balances := balances[from := balances[from] - amount];
        balances := balances[to := balances[to] + amount];
      }
      return Ok(());
    }

    method SetAccounting(reserve: Pubkey, after: Accounting)
      requires reserve in reserves
      modifies this`reserves
      ensures reserves == old(reserves)[reserve := WithAccounting(old(reserves)[reserve], after)]
    {
      var r := reserves[reserve];
      reserves := reserves[reserve := r.(available := after.available, minted := after.minted)];
    }

    method Restore(ghost w: World, savedReserves: map<Pubkey, Reserve>, savedBalances: Balances)
      requires w == World(savedReserves, savedBalances, owners, marketAuthority)
      modifies this`reserves, this`balances
      ensures View() == w
    {
      reserves, balances := savedReserves, savedBalances;
    }

    /** `handler_deposit_reserve_liquidity` and `handler_deposit_reserve_liquidity_and_obligation_collateral`;
        `handler_repay_obligation_liquidity` moves and checks the same way. */
    method Deposit(reserve: Pubkey, after: Accounting, liquidityAmount: u64, userSource: Pubkey, owner: Pubkey)
      returns (r: Result<(), HandlerError>)
      requires WellFormed(View()) && reserve in reserves
      modifies this`reserves, this`balances
      ensures Outcome(old(View()), View(), r, HandlerStep(old(View()), reserve, after,
                [Transfer(userSource, old(reserves)[reserve].supplyVault, liquidityAmount, owner)],
                  Additive(liquidityAmount)))
      ensures r.Ok? ==> OnlyAccounting(old(View()), View(), reserve, after)
      ensures var vault := old(reserves)[reserve].supplyVault;
              r.Ok? ==> MovedBy(old(balances), balances, k =>
                Share(k, vault, liquidityAmount) - Share(k, userSource, liquidityAmount))
    {
      ghost var w := View();
      var savedReserves, savedBalances := reserves, balances;
      var vault := reserves[reserve].supplyVault;
      var initialBalance, initialAvailable := balances[vault], reserves[reserve].available;
      SetAccounting(reserve, after);
      ApplyOfOne(balances, owners, Transfer(userSource, vault, liquidityAmount, owner));
      r := TransferTokens(userSource, vault, liquidityAmount, owner);
      if r.Err? {
        Restore(w, savedReserves, savedBalances);
        return;
      }
      var failed := PostTransferCheck(balances[vault], reserves[reserve].available, initialBalance, initialAvailable,
                                      Additive(liquidityAmount));
      if failed.Some? {
        Restore(w, savedReserves, savedBalances);
        return Err(failed.value);
      }
      DepositPays(w, reserve, after, liquidityAmount, userSource, owner);
    }

    /** `handler_redeem_reserve_collateral` and `handler_flash_borrow_reserve_liquidity`; withdrawing from an
        obligation moves and checks the same way. */
    method PayOut(reserve: Pubkey, after: Accounting, liquidityAmount: u64, userDestination: Pubkey)
      returns (r: Result<(), HandlerError>)
      requires WellFormed(View()) && reserve in reserves
      modifies this`reserves, this`balances
      ensures Outcome(old(View()), View(), r, HandlerStep(old(View()), reserve, after,
                [Transfer(old(reserves)[reserve].supplyVault, userDestination, liquidityAmount, marketAuthority)],
                Subtractive(liquidityAmount)))
      ensures r.Ok? ==> OnlyAccounting(old(View()), View(), reserve, after)
      ensures var vault := old(reserves)[reserve].supplyVault;
              r.Ok? ==> MovedBy(old(balances), balances, k =>
                Share(k, userDestination, liquidityAmount) - Share(k, vault, liquidityAmount))
    {
      ghost var w := View();
      var savedReserves, savedBalances := reserves, balances;
      var vault := reserves[reserve].supplyVault;
      var initialBalance, initialAvailable := balances[vault], reserves[reserve].available;
      SetAccounting(reserve, after);
      ApplyOfOne(balances, owners, Transfer(vault, userDestination, liquidityAmount, marketAuthority));
      r := TransferTokens(vault, userDestination, liquidityAmount, marketAuthority);
      if r.Err? {
        Restore(w, savedReserves, savedBalances);
        return;
      }
      var failed := PostTransferCheck(balances[vault], reserves[reserve].available, initialBalance, initialAvailable,
                                      Subtractive(liquidityAmount));
      if failed.Some? {
        Restore(w, savedReserves, savedBalances);
        return Err(failed.value);
      }
      PayOutPays(w, reserve, after, liquidityAmount, userDestination);
    }

    /** `handler_borrow_obligation_liquidity`: up to two transfers out of the vault, one check. */
    method Borrow(reserve: Pubkey, after: Accounting, receiveAmount: u64, originationFee: u64, feeReceiver: Pubkey,
      userDestination: Pubkey)
      returns (r: Result<(), HandlerError>)
      requires WellFormed(View()) && reserve in reserves
      modifies this`reserves, this`balances
      ensures Outcome(old(View()), View(), r, HandlerStep(old(View()), reserve, after,
                BorrowTransfers(old(reserves)[reserve].supplyVault, receiveAmount, originationFee, feeReceiver,
                  userDestination, marketAuthority),
                Subtractive(originationFee + receiveAmount)))
      ensures r.Ok? ==> OnlyAccounting(old(View()), View(), reserve, after)
      ensures var vault := old(reserves)[reserve].supplyVault;
              r.Ok? ==> MovedBy(old(balances), balances, k =>
                Share(k, userDestination, receiveAmount) + Share(k, feeReceiver, originationFee)
                - Share(k, vault, receiveAmount + originationFee))
    {
      ghost var w := View();
      var savedReserves, savedBalances := reserves, balances;
      var vault := reserves[reserve].supplyVault;
      var initialBalance, initialAvailable := balances[vault], reserves[reserve].available;
      SetAccounting(reserve, after);
      ApplyOfTwo(balances, owners, Transfer(vault, feeReceiver, originationFee, marketAuthority),
                 Transfer(vault, userDestination, receiveAmount, marketAuthority));
      ApplyOfOne(balances, owners, Transfer(vault, userDestination, receiveAmount, marketAuthority));
      if originationFee > 0 {
        r := TransferTokens(vault, feeReceiver, originationFee, marketAuthority);
        if r.Err? {
          Restore(w, savedReserves, savedBalances);
          return;
        }
      }
      r := TransferTokens(vault, userDestination, receiveAmount, marketAuthority);
      if r.Err? {
        Restore(w, savedReserves, savedBalances);
        return;
      }
      var failed := PostTransferCheck(balances[vault], reserves[reserve].available, initialBalance, initialAvailable,
                                      Subtractive(originationFee + receiveAmount));
      if failed.Some? {
        Restore(w, savedReserves, savedBalances);
        return Err(failed.value);
      }
      BorrowPays(w, reserve, after, receiveAmount, originationFee, feeReceiver, userDestination);
    }

    /** `handler_flash_repay_reserve_liquidity`: the repayment is checked, the fee goes to the fee vault. */
    method FlashRepay(reserve: Pubkey, after: Accounting, repayAmount: u64, originationFee: u64, userSource: Pubkey,
                      feeReceiver: Pubkey, user: Pubkey)
      returns (r: Result<(), HandlerError>)
      requires WellFormed(View()) && reserve in reserves
      modifies this`reserves, this`balances
      ensures Outcome(old(View()), View(), r, HandlerStep(old(View()), reserve, after,
                FlashRepayTransfers(old(reserves)[reserve].supplyVault, repayAmount, originationFee, userSource,
                  feeReceiver, user),
                Additive(repayAmount)))
      ensures r.Ok? ==> OnlyAccounting(old(View()), View(), reserve, after)
      ensures var vault := old(reserves)[reserve].supplyVault;
              r.Ok? ==> MovedBy(old(balances), balances, k =>
                Share(k, vault, repayAmount) + Share(k, feeReceiver, originationFee)
                - Share(k, userSource, repayAmount + originationFee))
    {
      ghost var w := View();
      var savedReserves, savedBalances := reserves, balances;
      var vault := reserves[reserve].supplyVault;
      var initialBalance, initialAvailable := balances[vault], reserves[reserve].available;
      SetAccounting(reserve, after);
      ApplyOfTwo(balances, owners, Transfer(userSource, vault, repayAmount, user),
        Transfer(userSource, feeReceiver, originationFee, user));
      ApplyOfOne(balances, owners, Transfer(userSource, vault, repayAmount, user));
      r := TransferTokens(userSource, vault, repayAmount, user);
      if r.Err? {
        Restore(w, savedReserves, savedBalances);
        return;
      }
      if originationFee > 0 {
        r := TransferTokens(userSource, feeReceiver, originationFee, user);
        if r.Err? {
          Restore(w, savedReserves, savedBalances);
          return;
        }
      }
      var failed := PostTransferCheck(balances[vault], reserves[reserve].available, initialBalance, initialAvailable,
                                      Additive(repayAmount));
      if failed.Some? {
        Restore(w, savedReserves, savedBalances);
        return Err(failed.value);
      }
      FlashRepayPays(w, reserve, after, repayAmount, originationFee, userSource, feeReceiver, user);
    }
  }

  function BorrowTransfers(vault: Pubkey, receiveAmount: u64, originationFee: u64, feeReceiver: Pubkey,
    userDestination: Pubkey, authority: Pubkey)
    : (r: seq<Transfer>)
  {
    (if originationFee > 0 then [Transfer(vault, feeReceiver, originationFee, authority)] else [])
    + [Transfer(vault, userDestination, receiveAmount, authority)]
  }

  function FlashRepayTransfers(
    vault: Pubkey, repayAmount: u64, originationFee: u64, userSource: Pubkey, feeReceiver: Pubkey, user: Pubkey)
    : (r: seq<Transfer>)
  {
    [Transfer(userSource, vault, repayAmount, user)]
    + if originationFee > 0 then [Transfer(userSource, feeReceiver, originationFee, user)] else []
  }

  lemma {:induction false} ApplyOfOne(b: Balances, owners: map<Pubkey, Pubkey>, t: Transfer)
    ensures Apply(b, owners, [t]) == ApplyOne(b, owners, t)
    ensures Apply(b, owners, [] + [t]) == ApplyOne(b, owners, t)
    ensures Apply(b, owners, [t] + []) == ApplyOne(b, owners, t)
  {
    assert [t][1..] == [] && [] + [t] == [t] && [t] + [] == [t];
  }

  lemma {:induction false} ApplyOfTwo(b: Balances, owners: map<Pubkey, Pubkey>, s: Transfer, t: Transfer)
    ensures Apply(b, owners, [s] + [t]) ==
            match ApplyOne(b, owners, s) case Err(e) => Err(e) case Ok(b') => ApplyOne(b', owners, t)
  {
    assert ([s] + [t])[1..] == [t];
    match ApplyOne(b, owners, s)
    case Err(_) =>
    case Ok(b') => ApplyOfOne(b', owners, t);
  }
}
