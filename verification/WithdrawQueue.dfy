/** The withdraw-ticket queue of one reserve: `handler_enqueue_to_withdraw.rs`,
    `handler_cancel_withdraw_ticket.rs`, `handler_withdraw_queued_liquidity.rs` and
    `handler_recover_invalid_ticket_collateral.rs`, with the queue operations of `lending_operations.rs`
    and the `WithdrawQueue` of `state/reserve.rs`. */
module WithdrawQueue {
  import opened Common

  /** A ticket account; `amount` is its `queued_collateral_amount`. */
  datatype Ticket = Ticket(owner: Pubkey, amount: nat, invalid: bool)

  /** Tickets by sequence number, the reserve's queue, each owner's queued-collateral vault, each
      owner's own cTokens, and the cTokens burned for each owner. */
  datatype State = State(
    tickets: map<nat, Ticket>, queued: nat, nextIssued: nat, nextWithdrawable: nat,
    vaults: map<Pubkey, nat>, wallets: map<Pubkey, nat>, burned: map<Pubkey, nat>)

  datatype QueueError =
    | WithdrawTicketIssuanceDisabled | WithdrawTicketCancellationDisabled | WithdrawTicketRedemptionDisabled
    | TicketAccount | InvalidSigner | WithdrawTicketInvalid | WithdrawTicketFullyCancelled | WithdrawTicketStillValid
    | InvalidAmount | WithdrawTicketValueTooSmall | WithdrawQueuedLiquidityValueTooSmall | InsufficientLiquidity
    | WithdrawTicketRequiresFullRedemption | InsufficientTokens | Overflow | BalanceMismatch

  /** The market's switches, and which amounts of collateral are worth at least the configured minimum, as
      a ticket and as a payout, at the prices of the moment. */
  datatype Rules = Rules(
    issuance: bool, cancellation: bool, redemption: bool, ticketWorth: nat -> bool, payoutWorth: nat -> bool)

  function At(m: map<Pubkey, nat>, k: Pubkey): (r: nat) { if k in m then m[k] else 0 }

  lemma {:induction false} AtUpdated(m: map<Pubkey, nat>, k: Pubkey, v: nat, owner: Pubkey)
    ensures At(m[k := v], owner) == if owner == k then v else At(m, owner)
  {
  }

  predicate IsValid(t: Ticket) { !t.invalid }

  predicate IsFullyCancelled(t: Ticket) { t.amount == 0 }

  // ----- Steps -----

  function Enqueue(s: State, rules: Rules, owner: Pubkey, amount: nat): (r: Result<State, QueueError>) {
    if s.nextIssued in s.tickets then Err(TicketAccount)
    else if !rules.issuance then Err(WithdrawTicketIssuanceDisabled)
    else if amount == 0 then Err(InvalidAmount)
    else if !rules.ticketWorth(amount) then Err(WithdrawTicketValueTooSmall)
    else if At(s.wallets, owner) < amount then Err(InsufficientTokens)
    else Ok(s.(tickets := s.tickets[s.nextIssued := Ticket(owner, amount, false)],
               queued := s.queued + amount, nextIssued := s.nextIssued + 1,
               wallets := s.wallets[owner := At(s.wallets, owner) - amount],
               vaults := s.vaults[owner := At(s.vaults, owner) + amount]))
  }

  /** `WithdrawQueue::dequeue`: the subtraction is overflow-checked. */
  function Dequeue(s: State, amount: nat, ticketClosed: bool): (r: Result<State, QueueError>) {
    if amount > s.queued then Err(Overflow)
    else Ok(s.(queued := s.queued - amount,
               nextWithdrawable := if ticketClosed then s.nextWithdrawable + 1 else s.nextWithdrawable))
  }

  function Min(a: nat, b: nat): (m: nat) { if a <= b then a else b }

  /** Cancelling more than is left cancels what is left. */
  function Cancel(s: State, rules: Rules, signer: Pubkey, n: nat, requested: nat): (r: Result<State, QueueError>) {
    if n !in s.tickets then Err(TicketAccount)
    else
      var t := s.tickets[n];
      var amount := Min(requested, t.amount);
      if t.owner != signer then Err(InvalidSigner)
      else if !IsValid(t) then Err(WithdrawTicketInvalid)
      else if IsFullyCancelled(t) then Err(WithdrawTicketFullyCancelled)
      else if !rules.cancellation then Err(WithdrawTicketCancellationDisabled)
      else if requested == 0 then Err(InvalidAmount)
      else if amount < t.amount && !rules.ticketWorth(t.amount - amount) then Err(WithdrawTicketValueTooSmall)
      else
        var s1 :- Dequeue(s, amount, false);
        if At(s.vaults, signer) < amount then Err(InsufficientTokens)
        else Ok(s1.(tickets := s.tickets[n := t.(amount := t.amount - amount)],
                    vaults := s.vaults[signer := At(s.vaults, signer) - amount],
                    wallets := s.wallets[signer := At(s.wallets, signer) + amount]))
  }

  /** The state of the account a ticket pays out to. */
  datatype Destination = Valid | Invalid | AtaToBeCreated

  /** The head ticket is about to be invalidated: the handler answers `false` for it. */
  predicate Skipped(s: State, destination: Destination) {
    s.nextWithdrawable in s.tickets && s.tickets[s.nextWithdrawable].amount > 0 && destination.Invalid?
  }

  /** `lending_operations::withdraw_queued_liquidity` on the head ticket: how much to burn of it. */
  function BurnAmount(t: Ticket, rules: Rules, redeemable: nat): (r: Result<nat, QueueError>) {
    var burn := Min(t.amount, redeemable);
    if redeemable == 0 then Err(InsufficientLiquidity)
    else if burn < t.amount && !rules.ticketWorth(t.amount - burn) then Err(WithdrawTicketValueTooSmall)
    else if burn < t.amount && !rules.payoutWorth(burn) then Err(WithdrawQueuedLiquidityValueTooSmall)
    else Ok(burn)
  }

  /** Serve the ticket at the head of the queue. `redeemable` is the collateral that the reserve's available
      liquidity could redeem. */
  function WithdrawQueued(
    s: State, rules: Rules, destination: Destination, redeemable: nat)
    : (r: Result<State, QueueError>)
  {
    var n := s.nextWithdrawable;
    if n !in s.tickets then Err(TicketAccount)
    else
      var t := s.tickets[n];
      if !IsValid(t) then Err(WithdrawTicketInvalid)
      else if !rules.redemption then Err(WithdrawTicketRedemptionDisabled)
      else if t.amount == 0 then
        var s1 :- Dequeue(s, 0, true);
        Ok(s1.(tickets := s.tickets - {n}))
      else if destination.Invalid? then
        var s1 :- Dequeue(s, t.amount, true);
        Ok(s1.(tickets := s.tickets[n := t.(invalid := true)]))
      else
        var burn :- BurnAmount(t, rules, redeemable);
        var s1 :- Dequeue(s, burn, burn == t.amount);
        if At(s.vaults, t.owner) < burn then Err(InsufficientTokens)
        else if burn < t.amount && destination.AtaToBeCreated? then Err(WithdrawTicketRequiresFullRedemption)
        else Ok(s1.(tickets := if burn == t.amount then s.tickets - {n}
                else s.tickets[n := t.(amount := t.amount - burn)],
                    vaults := s.vaults[t.owner := At(s.vaults, t.owner) - burn],
                    burned := s.burned[t.owner := At(s.burned, t.owner) + burn]))
  }

  /** Hand an invalidated ticket's collateral back and close it; the reserve is read only. */
  function Recover(s: State, allowedSigner: bool, n: nat): (r: Result<State, QueueError>) {
    if n !in s.tickets then Err(TicketAccount)
    else
      var t := s.tickets[n];
      if !allowedSigner then Err(InvalidSigner)
      else if IsValid(t) then Err(WithdrawTicketStillValid)
      else if At(s.vaults, t.owner) < t.amount then Err(InsufficientTokens)
      else Ok(s.(tickets := s.tickets - {n},
                 vaults := s.vaults[t.owner := At(s.vaults, t.owner) - t.amount],
                 wallets := s.wallets[t.owner := At(s.wallets, t.owner) + t.amount]))
  }

  /** Anyone may send cTokens of their own to a queued-collateral vault. */
  function Donate(s: State, from: Pubkey, owner: Pubkey, amount: nat): (r: Result<State, QueueError>) {
    if At(s.wallets, from) < amount then Err(InsufficientTokens)
    else Ok(s.(wallets := s.wallets[from := At(s.wallets, from) - amount],
               vaults := s.vaults[owner := At(s.vaults, owner) + amount]))
  }

  // ----- The handlers, on the accounts they update in place -----

  lemma {:induction false} BurnsWithinTicket(t: Ticket, rules: Rules, redeemable: nat)
    ensures BurnAmount(t, rules, redeemable).Ok? ==> BurnAmount(t, rules, redeemable).value == Min(t.amount, redeemable)
    ensures Min(t.amount, redeemable) <= t.amount
  {
  }

  /** The balance checks after a transfer of `moved` into or out of a queued-collateral vault. The contracts
      of the methods below say that they never fail. */
  predicate QueueCheck(finalVault: nat, finalQueued: nat, initialVault: nat, initialQueued: nat, moved: int) {
    && finalVault - finalQueued == initialVault - initialQueued
    && finalVault == initialVault + moved && finalQueued == initialQueued + moved
  }

  class Queue {
    var tickets: map<nat, Ticket>
    var queued: nat
    var nextIssued: nat
    var nextWithdrawable: nat
    var vaults: map<Pubkey, nat>
    var wallets: map<Pubkey, nat>
    var burned: map<Pubkey, nat>

    constructor (wallets: map<Pubkey, nat>)
      ensures View() == Initial(wallets)
    {
      this.tickets, this.queued, this.nextIssued, this.nextWithdrawable := map[], 0, 0, 0;
      this.vaults, this.wallets, this.burned := map[], wallets, map[];
    }

    ghost function View(): (r: State)
      reads this
    {
      State(tickets, queued, nextIssued, nextWithdrawable, vaults, wallets, burned)
    }

    method MoveToVault(owner: Pubkey, amount: nat)
      requires At(wallets, owner) >= amount
      modifies this`vaults, this`wallets
      ensures wallets == old(wallets)[owner := At(old(wallets), owner) - amount]
      ensures vaults == old(vaults)[owner := At(old(vaults), owner) + amount]
    {
      wallets := wallets[owner := At(wallets, owner) - amount];
      vaults := vaults[owner := At(vaults, owner) + amount];
    }

    method MoveToWallet(owner: Pubkey, amount: nat)
      requires At(vaults, owner) >= amount
      modifies this`vaults, this`wallets
      ensures wallets == old(wallets)[owner := At(old(wallets), owner) + amount]
      ensures vaults == old(vaults)[owner := At(old(vaults), owner) - amount]
    {
      vaults := vaults[owner := At(vaults, owner) - amount];
      wallets := wallets[owner := At(wallets, owner) + amount];
    }

    method EnqueueToWithdraw(rules: Rules, owner: Pubkey, amount: nat) returns (r: Result<nat, QueueError>)
      modifies this
      ensures match Enqueue(old(View()), rules, owner, amount)
              case Ok(s) => r == Ok(old(nextIssued)) && View() == s
              case Err(e) => r == Err(e) && View() == old(View())
    {
      if nextIssued in tickets {
        return Err(TicketAccount);
      }
      if !rules.issuance {
        return Err(WithdrawTicketIssuanceDisabled);
      }
      if amount == 0 {
        return Err(InvalidAmount);
      }
      if !rules.ticketWorth(amount) {
        return Err(WithdrawTicketValueTooSmall);
      }
      if At(wallets, owner) < amount {
        return Err(InsufficientTokens);
      }
      var initialVault, initialQueued := At(vaults, owner), queued;
      var sequenceNumber := nextIssued;
      queued, nextIssued := queued + amount, nextIssued + 1;
      tickets := tickets[sequenceNumber := Ticket(owner, amount, false)];
      MoveToVault(owner, amount);
      if !QueueCheck(At(vaults, owner), queued, initialVault, initialQueued, amount) {
        return Err(BalanceMismatch);
      }
      return Ok(sequenceNumber);
    }

    method CancelWithdrawTicket(
      rules: Rules, signer: Pubkey, n: nat, requested: nat)
      returns (r: Result<(), QueueError>)
      modifies this
      ensures match Cancel(old(View()), rules, signer, n, requested)
              case Ok(s) => r == Ok(()) && View() == s
              case Err(e) => r == Err(e) && View() == old(View())
    {
      hide At;
      if n !in tickets {
        return Err(TicketAccount);
      }
      var ticket := tickets[n];
      if ticket.owner != signer {
        return Err(InvalidSigner);
      }
      if !IsValid(ticket) {
        return Err(WithdrawTicketInvalid);
      }
      if IsFullyCancelled(ticket) {
        return Err(WithdrawTicketFullyCancelled);
      }
      if !rules.cancellation {
        return Err(WithdrawTicketCancellationDisabled);
      }
      if requested == 0 {
        return Err(InvalidAmount);
      }
      var amountToCancel := Min(requested, ticket.amount);
      var remainingCollateral := ticket.amount - amountToCancel;
      if remainingCollateral != 0 && !rules.ticketWorth(remainingCollateral) {
        return Err(WithdrawTicketValueTooSmall);
      }
      if amountToCancel > queued {
        return Err(Overflow);
      }
      if At(vaults, signer) < amountToCancel {
        return Err(InsufficientTokens);
      }
      var initialVault, initialQueued := At(vaults, signer), queued;
      queued := queued - amountToCancel;
      tickets := tickets[n := ticket.(amount := remainingCollateral)];
      AtUpdated(vaults, signer, initialVault - amountToCancel, signer);
      MoveToWallet(signer, amountToCancel);
      if !QueueCheck(At(vaults, signer), queued, initialVault, initialQueued, -(amountToCancel as int)) {
        return Err(BalanceMismatch);
      }
      return Ok(());
    }

    method WithdrawQueuedLiquidity(
      rules: Rules, destination: Destination, redeemable: nat)
      returns (r: Result<bool, QueueError>)
      modifies this
      ensures match WithdrawQueued(old(View()), rules, destination, redeemable)
              case Ok(s) => r == Ok(old(!Skipped(View(), destination))) && View() == s
              case Err(e) => r == Err(e) && View() == old(View())
      // the answer is `false` exactly when the ticket was marked invalid
      ensures r.Ok? ==> (!r.value <==> old(nextWithdrawable) in tickets && tickets[old(nextWithdrawable)].invalid)
    {
      hide At, BurnAmount;
      var n := nextWithdrawable;
      if n !in tickets {
        return Err(TicketAccount);
      }
      var ticket := tickets[n];
      if !IsValid(ticket) {
        return Err(WithdrawTicketInvalid);
      }
      if !rules.redemption {
        return Err(WithdrawTicketRedemptionDisabled);
      }
      if ticket.amount == 0 {
        nextWithdrawable := n + 1;
        tickets := tickets - {n};
        return Ok(true);
      }
      if destination.Invalid? {
        if ticket.amount > queued {
          return Err(Overflow);
        }
        tickets := tickets[n := ticket.(invalid := true)];
        queued, nextWithdrawable := queued - ticket.amount, n + 1;
        return Ok(false);
      }
      r := RedeemHead(n, ticket, rules, destination.AtaToBeCreated?, redeemable);
    }

    /** The head ticket with a usable destination. */
    method RedeemHead(n: nat, ticket: Ticket, rules: Rules, requireClosingTicket: bool, redeemable: nat)
      returns (r: Result<bool, QueueError>)
      requires n == nextWithdrawable && n in tickets && tickets[n] == ticket
      requires IsValid(ticket) && rules.redemption && ticket.amount > 0
      modifies this
      ensures var destination := if requireClosingTicket then AtaToBeCreated else Valid;
              match WithdrawQueued(old(View()), rules, destination, redeemable)
              case Ok(s) => r == Ok(true) && View() == s
              case Err(e) => r == Err(e) && View() == old(View())
    {
      hide At, BurnAmount;
      var toBurn := BurnAmount(ticket, rules, redeemable);
      if toBurn.Err? {
        return Err(toBurn.error);
      }
      var burn := toBurn.value;
      BurnsWithinTicket(ticket, rules, redeemable);
      if burn > queued {
        return Err(Overflow);
      }
      if At(vaults, ticket.owner) < burn {
        return Err(InsufficientTokens);
      }
      if burn < ticket.amount && requireClosingTicket {
        return Err(WithdrawTicketRequiresFullRedemption);
      }
      queued := queued - burn;
      vaults := vaults[ticket.owner := At(vaults, ticket.owner) - burn];
      burned := burned[ticket.owner := At(burned, ticket.owner) + burn];
      if burn == ticket.amount {
        nextWithdrawable := n + 1;
        tickets := tickets - {n};
      } else {
        tickets := tickets[n := ticket.(amount := ticket.amount - burn)];
      }
      return Ok(true);
    }

    method RecoverInvalidTicketCollateral(allowedSigner: bool, n: nat) returns (r: Result<(), QueueError>)
      modifies this`tickets, this`vaults, this`wallets
      ensures match Recover(old(View()), allowedSigner, n)
              case Ok(s) => r == Ok(()) && View() == s
              case Err(e) => r == Err(e) && View() == old(View())
    {
      if n !in tickets {
        return Err(TicketAccount);
      }
      var ticket := tickets[n];
      if !allowedSigner {
        return Err(InvalidSigner);
      }
      if IsValid(ticket) {
        return Err(WithdrawTicketStillValid);
      }
      if At(vaults, ticket.owner) < ticket.amount {
        return Err(InsufficientTokens);
      }
      MoveToWallet(ticket.owner, ticket.amount);
      tickets := tickets - {n};
      return Ok(());
    }
  }

  function Initial(wallets: map<Pubkey, nat>): (r: State) {
    State(map[], 0, 0, 0, map[], wallets, map[])
  }

  // ----- Sums over tickets -----

  /** The sum of `weight` over the tickets numbered below `n`. */
  function Sum(tickets: map<nat, Ticket>, n: nat, weight: Ticket -> nat): (r: nat) {
    if n == 0 then 0 else Sum(tickets, n - 1, weight) + Weight(tickets, n - 1, weight)
  }

  function Weight(tickets: map<nat, Ticket>, k: nat, weight: Ticket -> nat): (r: nat) {
    if k in tickets then weight(tickets[k]) else 0
  }

  /** Changing one ticket changes the sum by that ticket's own change. */
  lemma {:induction false} SumUpdate(
    tickets: map<nat, Ticket>, tickets': map<nat, Ticket>, n: nat, k: nat, weight: Ticket -> nat)
    requires forall j: nat :: j != k ==> (j in tickets' <==> j in tickets) && (j in tickets ==>
             tickets'[j] == tickets[j])
    ensures Sum(tickets', n, weight) ==
            Sum(tickets, n, weight) + if k < n then Weight(tickets', k, weight) - Weight(tickets, k, weight) else 0
  {
    if n > 0 {
      SumUpdate(tickets, tickets', n - 1, k, weight);
    }
  }

  lemma {:induction false} TicketWithinSum(tickets: map<nat, Ticket>, n: nat, k: nat, weight: Ticket -> nat)
    requires k < n
    ensures Weight(tickets, k, weight) <= Sum(tickets, n, weight)
  {
    if k < n - 1 {
      TicketWithinSum(tickets, n - 1, k, weight);
    }
  }

  function OwnedBy(owner: Pubkey): (r: Ticket -> nat) { (t: Ticket) => if t.owner == owner then t.amount else 0 }

  function ValidAmount(): (r: Ticket -> nat) { (t: Ticket) => if t.invalid then 0 else t.amount }

  /** The collateral of an owner's open tickets, valid or not. */
  function OwnerTickets(s: State, owner: Pubkey): (r: nat) { Sum(s.tickets, s.nextIssued, OwnedBy(owner)) }

  function ValidTickets(s: State): (r: nat) { Sum(s.tickets, s.nextIssued, ValidAmount()) }

  // ----- The invariant -----

  ghost predicate Inv(s: State) {
    && s.nextWithdrawable <= s.nextIssued
    // issued numbers stay below the next one
    && (forall n :: n in s.tickets ==> n < s.nextIssued)
    // every ticket not yet served still exists and is valid, cancelled or not
    && (forall n :: s.nextWithdrawable <= n < s.nextIssued ==> n in s.tickets && !s.tickets[n].invalid)
    // only invalidated tickets remain behind the head
    && (forall n :: n in s.tickets && n < s.nextWithdrawable ==> s.tickets[n].invalid)
    // the reserve's queued amount is the sum over valid tickets
    && s.queued == ValidTickets(s)
    // each vault covers its owner's open tickets
    && (forall o :: At(s.vaults, o) >= OwnerTickets(s, o))
  }

  /** What a vault holds beyond its owner's open tickets. */
  function Surplus(s: State, owner: Pubkey): (r: int) { At(s.vaults, owner) - OwnerTickets(s, owner) }

  /** All cTokens of an owner the queue can see: own, queued and burned. */
  function Holdings(s: State, owner: Pubkey): (r: nat) { At(s.wallets, owner) + At(s.vaults, owner)
    + At(s.burned, owner) }

  datatype Event =
    | EnqueueEvent(rules: Rules, owner: Pubkey, amount: nat)
    | CancelEvent(rules: Rules, signer: Pubkey, n: nat, requested: nat)
    | WithdrawEvent(rules: Rules, destination: Destination, redeemable: nat)
    | RecoverEvent(allowedSigner: bool, n: nat)
    | DonateEvent(from: Pubkey, owner: Pubkey, amount: nat)

  function Step(s: State, e: Event): (r: Result<State, QueueError>) {
    match e
    case EnqueueEvent(rules, owner, amount) => Enqueue(s, rules, owner, amount)
    case CancelEvent(rules, signer, n, requested) => Cancel(s, rules, signer, n, requested)
    case WithdrawEvent(rules, destination, redeemable) => WithdrawQueued(s, rules, destination, redeemable)
    case RecoverEvent(allowed, n) => Recover(s, allowed, n)
    case DonateEvent(from, owner, amount) => Donate(s, from, owner, amount)
  }

  /** What an event adds to an owner's vault without a ticket for it. */
  function Donated(e: Event, owner: Pubkey): (r: nat) {
    if e.DonateEvent? && e.owner == owner then e.amount else 0
  }

  /** The ticket number an event touches. */
  function TicketOf(s: State, e: Event): (r: nat) {
    match e
    case EnqueueEvent(_, _, _) => s.nextIssued
    case CancelEvent(_, _, n, _) => n
    case WithdrawEvent(_, _, _) => s.nextWithdrawable
    case RecoverEvent(_, n) => n
    case DonateEvent(_, _, _) => 0
  }

  /** A step changes at most its own ticket. */
  lemma {:induction false} StepTicket(s: State, e: Event)
    requires Inv(s) && Step(s, e).Ok?
    ensures var s' := Step(s, e).value; var k := TicketOf(s, e);
      && (forall j: nat :: j != k ==> (j in s'.tickets <==> j in s.tickets) && (j in s.tickets ==>
          s'.tickets[j] == s.tickets[j]))
      && (if e.EnqueueEvent? then k == s.nextIssued && s'.nextIssued == k + 1 && k !in s.tickets
          else s'.nextIssued == s.nextIssued && (e.DonateEvent? ==> s'.tickets == s.tickets) && (!e.DonateEvent? ==>
               k < s.nextIssued))
  {
    hide Sum, At, ValidTickets, OwnerTickets, Weight;
    match e
    case EnqueueEvent(_, _, _) =>
    case CancelEvent(_, _, _, _) =>
    case WithdrawEvent(_, _, _) =>
    case RecoverEvent(_, _) =>
    case DonateEvent(_, _, _) =>
  }

  /** So every sum changes by that ticket alone. */
  lemma {:induction false} StepSum(s: State, e: Event, weight: Ticket -> nat)
    requires Inv(s) && Step(s, e).Ok?
    ensures var s' := Step(s, e).value; var k := TicketOf(s, e);
      Sum(s'.tickets, s'.nextIssued, weight) ==
      Sum(s.tickets, s.nextIssued, weight) + Weight(s'.tickets, k, weight) - Weight(s.tickets, k, weight)
  {
    hide Step, Inv, At, TicketOf;
    StepTicket(s, e);
    SumUpdate(s.tickets, Step(s, e).value.tickets, s.nextIssued, TicketOf(s, e), weight);
  }

  lemma {:induction false} StepQueued(s: State, e: Event)
    requires Inv(s) && Step(s, e).Ok?
    ensures Step(s, e).value.queued == ValidTickets(Step(s, e).value)
  {
    hide Sum, At, OwnerTickets;
    StepSum(s, e, ValidAmount());
    if e.WithdrawEvent? {
      TicketWithinSum(s.tickets, s.nextIssued, s.nextWithdrawable, ValidAmount());
    }
  }

  lemma {:induction false} VaultFollowsWithdraw(s: State, e: Event, owner: Pubkey)
    requires Step(s, e).Ok? && e.WithdrawEvent?
    ensures var s' := Step(s, e).value; var k := TicketOf(s, e);
      At(s'.vaults, owner) - At(s.vaults, owner) ==
      Weight(s'.tickets, k, OwnedBy(owner)) - Weight(s.tickets, k, OwnedBy(owner))
  {
    hide At;
    var t := s.tickets[s.nextWithdrawable];
    if t.amount > 0 && !e.destination.Invalid? {
      var burn := Min(t.amount, e.redeemable);
      AtUpdated(s.vaults, t.owner, At(s.vaults, t.owner) - burn, owner);
    }
  }

  /** An owner's vault gains what the owner's tickets gain, and donations. */
  lemma {:induction false} VaultFollowsTicket(s: State, e: Event, owner: Pubkey)
    requires Inv(s) && Step(s, e).Ok?
    ensures var s' := Step(s, e).value; var k := TicketOf(s, e);
      At(s'.vaults, owner) - At(s.vaults, owner) ==
      Weight(s'.tickets, k, OwnedBy(owner)) - Weight(s.tickets, k, OwnedBy(owner)) + Donated(e, owner)
  {
    hide Sum, ValidTickets, OwnerTickets, At;
    match e
    case EnqueueEvent(_, to, amount) =>
      AtUpdated(s.vaults, to, At(s.vaults, to) + amount, owner);
    case CancelEvent(_, from, n, requested) =>
      var amount := Min(requested, s.tickets[n].amount);
      AtUpdated(s.vaults, from, At(s.vaults, from) - amount, owner);
    case WithdrawEvent(_, _, _) => VaultFollowsWithdraw(s, e, owner);
    case RecoverEvent(_, n) =>
      var t := s.tickets[n];
      AtUpdated(s.vaults, t.owner, At(s.vaults, t.owner) - t.amount, owner);
    case DonateEvent(_, to, amount) =>
      AtUpdated(s.vaults, to, At(s.vaults, to) + amount, owner);
  }

  /** Tickets and vaults move together: only a donation changes an owner's surplus. */
  lemma {:induction false} StepSurplus(s: State, e: Event, owner: Pubkey)
    requires Inv(s) && Step(s, e).Ok?
    ensures Surplus(Step(s, e).value, owner) == Surplus(s, owner) + Donated(e, owner)
  {
    hide Step, Inv, At, Sum, TicketOf, Weight, Donated;
    StepSum(s, e, OwnedBy(owner));
    VaultFollowsTicket(s, e, owner);
  }

  lemma {:induction false} StepNumbers(s: State, e: Event)
    requires Inv(s) && Step(s, e).Ok?
    ensures var s' := Step(s, e).value;
      && s'.nextWithdrawable <= s'.nextIssued
      && (forall n :: n in s'.tickets ==> n < s'.nextIssued)
      && (forall n :: s'.nextWithdrawable <= n < s'.nextIssued ==> n in s'.tickets && !s'.tickets[n].invalid)
      && (forall n :: n in s'.tickets && n < s'.nextWithdrawable ==> s'.tickets[n].invalid)
  {
    hide Sum, At, ValidTickets, OwnerTickets;
    match e
    case EnqueueEvent(_, _, _) =>
    case CancelEvent(_, _, _, _) =>
    case WithdrawEvent(_, _, _) =>
    case RecoverEvent(_, _) =>
    case DonateEvent(_, _, _) =>
  }

  lemma {:induction false} StepKeepsInv(s: State, e: Event)
    requires Inv(s) && Step(s, e).Ok?
    ensures Inv(Step(s, e).value)
  {
    hide Step, Sum, At;
    var s' := Step(s, e).value;
    StepNumbers(s, e);
    StepQueued(s, e);
    forall o
      ensures At(s'.vaults, o) >= OwnerTickets(s', o)
    {
      StepSurplus(s, e, o);
    }
  }

  lemma {:induction false} WithdrawConservesHoldings(s: State, e: Event, owner: Pubkey)
    requires Step(s, e).Ok? && e.WithdrawEvent?
    ensures Holdings(Step(s, e).value, owner) == Holdings(s, owner)
  {
    hide At;
    var t := s.tickets[s.nextWithdrawable];
    if t.amount > 0 && !e.destination.Invalid? {
      var burn := Min(t.amount, e.redeemable);
      AtUpdated(s.vaults, t.owner, At(s.vaults, t.owner) - burn, owner);
      AtUpdated(s.burned, t.owner, At(s.burned, t.owner) + burn, owner);
    }
  }

  /** Nothing is created or lost: a step other than a donation keeps each owner's holdings. */
  lemma {:induction false} StepConservesHoldings(s: State, e: Event, owner: Pubkey)
    requires Step(s, e).Ok? && !e.DonateEvent?
    ensures Holdings(Step(s, e).value, owner) == Holdings(s, owner)
  {
    hide At;
    match e
    case EnqueueEvent(_, to, amount) =>
      AtUpdated(s.vaults, to, At(s.vaults, to) + amount, owner);
      AtUpdated(s.wallets, to, At(s.wallets, to) - amount, owner);
    case CancelEvent(_, from, n, requested) =>
      var amount := Min(requested, s.tickets[n].amount);
      AtUpdated(s.vaults, from, At(s.vaults, from) - amount, owner);
      AtUpdated(s.wallets, from, At(s.wallets, from) + amount, owner);
    case WithdrawEvent(_, _, _) => WithdrawConservesHoldings(s, e, owner);
    case RecoverEvent(_, n) =>
      var t := s.tickets[n];
      AtUpdated(s.vaults, t.owner, At(s.vaults, t.owner) - t.amount, owner);
      AtUpdated(s.wallets, t.owner, At(s.wallets, t.owner) + t.amount, owner);
  }

  // ----- Every run -----

  function Next(s: State, e: Event): (r: State) {
    match Step(s, e) case Ok(s') => s' case Err(_) => s
  }

  function Run(s: State, es: seq<Event>): (r: State)
    decreases es
  {
    if es == [] then s else Run(Next(s, es[0]), es[1..])
  }

  function DonatedIn(s: State, es: seq<Event>, owner: Pubkey): (r: nat)
    decreases es
  {
    if es == [] then 0
    else (if Step(s, es[0]).Ok? then Donated(es[0], owner) else 0) + DonatedIn(Next(s, es[0]), es[1..], owner)
  }

  lemma {:induction false} InitialInv(wallets: map<Pubkey, nat>)
    ensures Inv(Initial(wallets)) && forall o :: Surplus(Initial(wallets), o) == 0
  {
  }

  /** Over every run: the invariant holds, and each vault holds its owner's open tickets plus exactly
      what was donated to it. */
  lemma {:induction false} RunConserves(s: State, es: seq<Event>, owner: Pubkey)
    requires Inv(s)
    ensures Inv(Run(s, es)) && Surplus(Run(s, es), owner) == Surplus(s, owner) + DonatedIn(s, es, owner)
    decreases es
  {
    hide Inv, Step, Surplus;
    if es != [] {
      if Step(s, es[0]).Ok? {
        StepKeepsInv(s, es[0]);
        StepSurplus(s, es[0], owner);
      }
      RunConserves(Next(s, es[0]), es[1..], owner);
    }
  }

  /** From the empty queue, without donations, each vault is exactly its owner's open tickets, the
      queued amount is exactly the valid tickets, and an owner's cTokens are constant. */
  lemma {:induction false} RunFromEmpty(wallets: map<Pubkey, nat>, es: seq<Event>, owner: Pubkey)
    requires forall i :: 0 <= i < |es| ==> !es[i].DonateEvent?
    ensures var s := Run(Initial(wallets), es);
      && At(s.vaults, owner) == OwnerTickets(s, owner)
      && s.queued == ValidTickets(s)
      && Holdings(s, owner) == At(wallets, owner)
  {
    InitialInv(wallets);
    RunConserves(Initial(wallets), es, owner);
    RunHoldings(Initial(wallets), es, owner);
  }

  lemma {:induction false} RunHoldings(s: State, es: seq<Event>, owner: Pubkey)
    requires forall i :: 0 <= i < |es| ==> !es[i].DonateEvent?
    ensures Holdings(Run(s, es), owner) == Holdings(s, owner) && DonatedIn(s, es, owner) == 0
    decreases es
  {
    hide Step, Holdings;
    if es != [] {
      assert !es[0].DonateEvent?;
      if Step(s, es[0]).Ok? {
        StepConservesHoldings(s, es[0], owner);
      }
      assert forall i :: 0 <= i < |es[1..]| ==> es[1..][i] == es[i + 1];
      RunHoldings(Next(s, es[0]), es[1..], owner);
    }
  }

  // ----- Numbers are never reused -----

  /** The sequence numbers a run hands out. */
  function Issued(s: State, es: seq<Event>): (r: seq<nat>)
    decreases es
  {
    if es == [] then []
    else (if es[0].EnqueueEvent? && Step(s, es[0]).Ok? then [s.nextIssued] else []) + Issued(Next(s, es[0]), es[1..])
  }

  lemma {:induction false} NextIssued(s: State, e: Event)
    ensures Next(s, e).nextIssued == s.nextIssued + if e.EnqueueEvent? && Step(s, e).Ok? then 1 else 0
  {
    hide At;
  }

  /** They are consecutive from the first free one, so never the same twice. */
  lemma {:induction false} IssuedAreConsecutive(s: State, es: seq<Event>)
    ensures var issued := Issued(s, es);
      && (forall i :: 0 <= i < |issued| ==> issued[i] == s.nextIssued + i)
      && Run(s, es).nextIssued == s.nextIssued + |issued|
    decreases es
  {
    if es != [] {
      NextIssued(s, es[0]);
      hide Step;
      IssuedAreConsecutive(Next(s, es[0]), es[1..]);
    }
  }

  // ----- When the head steps forward -----

  /** With redemption enabled, the head of a non-empty queue steps forward exactly when its ticket is
      cancelled, its destination is unusable, or the reserve can redeem all of it. Otherwise the queue
      waits: without liquidity the handler says so; with some, it pays a part out, but only to an existing
      destination and when both the part and the rest are worth the minimum. */
  lemma {:induction false} HeadStepsForwardIff(s: State, rules: Rules, destination: Destination, redeemable: nat)
    requires Inv(s) && s.nextWithdrawable < s.nextIssued && rules.redemption
    ensures var t := s.tickets[s.nextWithdrawable];
      var r := WithdrawQueued(s, rules, destination, redeemable);
      && (r.Ok? && r.value.nextWithdrawable == s.nextWithdrawable + 1 <==>
          t.amount == 0 || destination.Invalid? || redeemable >= t.amount)
      && (t.amount > 0 && !destination.Invalid? && redeemable < t.amount ==>
          if redeemable == 0 then r == Err(InsufficientLiquidity)
          else
            && (r.Ok? <==>
                destination.Valid? && rules.ticketWorth(t.amount - redeemable) && rules.payoutWorth(redeemable))
            && (r.Ok? ==> r.value.nextWithdrawable == s.nextWithdrawable)
            && (r.Ok? ==> r.value.tickets == s.tickets[s.nextWithdrawable := t.(amount := t.amount - redeemable)]))
  {
    hide Sum, At;
    HeadIsBacked(s);
  }

  /** Every valid ticket is backed by the queue, and every ticket by its owner's vault. */
  lemma {:induction false} TicketIsBacked(s: State, n: nat)
    requires Inv(s) && n in s.tickets
    ensures var t := s.tickets[n]; (!t.invalid ==> t.amount <= s.queued) && t.amount <= At(s.vaults, t.owner)
  {
    var t := s.tickets[n];
    TicketWithinSum(s.tickets, s.nextIssued, n, OwnedBy(t.owner));
    TicketWithinSum(s.tickets, s.nextIssued, n, ValidAmount());
    assert At(s.vaults, t.owner) >= OwnerTickets(s, t.owner);
  }

  /** The head ticket exists, is valid, and is backed by the queue and by its owner's vault. */
  lemma {:induction false} HeadIsBacked(s: State)
    requires Inv(s) && s.nextWithdrawable < s.nextIssued
    ensures s.nextWithdrawable in s.tickets && !s.tickets[s.nextWithdrawable].invalid
    ensures var t := s.tickets[s.nextWithdrawable]; t.amount <= s.queued && t.amount <= At(s.vaults, t.owner)
  {
    hide Sum, At;
    TicketIsBacked(s, s.nextWithdrawable);
  }

  lemma {:induction false} NothingValidBelow(s: State, n: nat)
    requires forall k :: k in s.tickets && k < n ==> s.tickets[k].invalid
    ensures Sum(s.tickets, n, ValidAmount()) == 0
  {
    if n > 0 {
      NothingValidBelow(s, n - 1);
    }
  }

  /** So liquidity for everything queued empties the queue: as many redemptions as there are pending
      tickets leave no ticket waiting and nothing queued. */
  lemma {:induction false} QueueDrains(s: State, es: seq<Event>)
    requires Inv(s) && |es| == s.nextIssued - s.nextWithdrawable
    requires forall i :: 0 <= i < |es| ==>
      es[i].WithdrawEvent? && es[i].rules.redemption && es[i].redeemable >= s.queued
    ensures var s' := Run(s, es); s'.nextWithdrawable == s'.nextIssued == s.nextIssued && s'.queued == 0
    decreases es
  {
    hide Sum, At, WithdrawQueued;
    if es == [] {
      NothingValidBelow(s, s.nextIssued);
    } else {
      var e := es[0];
      HeadIsBacked(s);
      HeadStepsForwardIff(s, e.rules, e.destination, e.redeemable);
      StepKeepsInv(s, e);
      var s1 := Step(s, e).value;
      QueuedOnlyFalls(s, e);
      assert forall i :: 0 <= i < |es[1..]| ==> es[1..][i] == es[i + 1];
      QueueDrains(s1, es[1..]);
    }
  }

  lemma {:induction false} QueuedOnlyFalls(s: State, e: Event)
    requires e.WithdrawEvent? && Step(s, e).Ok?
    ensures Step(s, e).value.queued <= s.queued && Step(s, e).value.nextIssued == s.nextIssued
  {
    hide At;
  }

  /** An owner can get a ticket's collateral back: by cancelling while it is valid and cancellation is
      enabled, by recovery once it is invalid. The vault and the queue never stand in the way. */
  lemma {:induction false} CollateralRecoverable(s: State, rules: Rules, n: nat, requested: nat)
    requires Inv(s) && n in s.tickets
    ensures var t := s.tickets[n];
      if t.invalid then Recover(s, true, n).Ok? && Recover(s, true, n).value.queued == s.queued
      else requested >= t.amount > 0 ==> (Cancel(s, rules, t.owner, n, requested).Ok? <==> rules.cancellation)
  {
    hide Inv, At;
    TicketIsBacked(s, n);
  }

  // ----- When each instruction is accepted, and what it moves -----

  /** What an instruction leaves of an owner's money: ticket `n`, the queue, and the owner's accounts. */
  ghost predicate Leaves(
    s: State, s': State, n: nat, left: Option<Ticket>, queuedChange: int, owner: Pubkey, vaultChange: int,
    walletChange: int, burnedChange: int)
  {
    && (left.Some? <==> n in s'.tickets) && (left.Some? ==> s'.tickets[n] == left.value)
    && s'.queued == s.queued + queuedChange
    && (forall o :: At(s'.vaults, o) == At(s.vaults, o) + if o == owner then vaultChange else 0)
    && (forall o :: At(s'.wallets, o) == At(s.wallets, o) + if o == owner then walletChange else 0)
    && (forall o :: At(s'.burned, o) == At(s.burned, o) + if o == owner then burnedChange else 0)
  }

  /** A ticket is issued exactly when issuance is enabled and the amount is positive, worth the minimum and
      in the owner's wallet; the number is free by itself. */
  lemma {:induction false} EnqueueAcceptedIff(s: State, rules: Rules, owner: Pubkey, amount: nat)
    requires Inv(s)
    ensures Enqueue(s, rules, owner, amount).Ok? <==>
            rules.issuance && amount > 0 && rules.ticketWorth(amount) && amount <= At(s.wallets, owner)
    ensures Enqueue(s, rules, owner, amount).Ok? ==>
            Leaves(s, Enqueue(s, rules, owner, amount).value, s.nextIssued, Some(Ticket(owner, amount, false)),
              amount, owner, amount, -(amount as int), 0)
  {
    hide Sum;
  }

  /** A ticket is cancelled, in part or in full, exactly when its owner signs for it, it is valid and not
      empty, cancellation is enabled, something is requested, and what stays, if anything does, is worth
      the minimum. */
  lemma {:induction false} CancelAcceptedIff(s: State, rules: Rules, signer: Pubkey, n: nat, requested: nat)
    requires Inv(s) && n in s.tickets
    ensures var t := s.tickets[n];
      Cancel(s, rules, signer, n, requested).Ok? <==>
      && signer == t.owner && !t.invalid && t.amount > 0 && rules.cancellation && requested > 0
      && (requested >= t.amount || rules.ticketWorth(t.amount - requested))
  {
    hide Inv, At;
    TicketIsBacked(s, n);
  }

  /** Cancelling hands back what was requested, or all there is, and takes it off ticket and queue. */
  lemma {:induction false} CancelMoves(s: State, rules: Rules, signer: Pubkey, n: nat, requested: nat)
    requires Inv(s) && Cancel(s, rules, signer, n, requested).Ok?
    ensures n in s.tickets && signer == s.tickets[n].owner
    ensures var t := s.tickets[n]; var moved := if requested >= t.amount then t.amount else requested;
      Leaves(s, Cancel(s, rules, signer, n, requested).value, n, Some(Ticket(t.owner, t.amount - moved, false)),
        -(moved as int), signer, -(moved as int), moved, 0)
  {
    hide Inv, At;
    var moved := Min(requested, s.tickets[n].amount);
    forall o
      ensures At(s.vaults[signer := At(s.vaults, signer) - moved], o) ==
              At(s.vaults, o) - if o == signer then moved else 0
      ensures At(s.wallets[signer := At(s.wallets, signer) + moved], o) ==
              At(s.wallets, o) + if o == signer then moved else 0
    {
      AtUpdated(s.vaults, signer, At(s.vaults, signer) - moved, o);
      AtUpdated(s.wallets, signer, At(s.wallets, signer) + moved, o);
    }
  }

  /** The head is served exactly when redemption is enabled, there is a head, and it is cancelled, or its
      destination is unusable, or something can be redeemed: all of it, or, to an existing account, a part
      that is worth the minimum and leaves the minimum. */
  lemma {:induction false} WithdrawAcceptedIff(s: State, rules: Rules, destination: Destination, redeemable: nat)
    requires Inv(s)
    ensures WithdrawQueued(s, rules, destination, redeemable).Ok? <==>
      && rules.redemption && s.nextWithdrawable < s.nextIssued
      && var t := s.tickets[s.nextWithdrawable];
      || t.amount == 0 || destination.Invalid? || redeemable >= t.amount
      || (redeemable > 0 && destination.Valid? && rules.ticketWorth(t.amount - redeemable)
          && rules.payoutWorth(redeemable))
  {
    hide Sum, At;
    if s.nextWithdrawable < s.nextIssued {
      HeadIsBacked(s);
    }
  }

  /** Serving the head burns what can be redeemed of it, invalidates it without moving anything, or closes
      it if it was cancelled. */
  lemma {:induction false} WithdrawMoves(s: State, rules: Rules, destination: Destination, redeemable: nat)
    requires Inv(s) && WithdrawQueued(s, rules, destination, redeemable).Ok?
    ensures var n := s.nextWithdrawable; var s' := WithdrawQueued(s, rules, destination, redeemable).value;
      && n in s.tickets
      && var t := s.tickets[n];
      if t.amount == 0 then Leaves(s, s', n, None, 0, t.owner, 0, 0, 0)
      else if destination.Invalid? then
        Leaves(s, s', n, Some(Ticket(t.owner, t.amount, true)), -(t.amount as int), t.owner, 0, 0, 0)
      else if redeemable >= t.amount then
        Leaves(s, s', n, None, -(t.amount as int), t.owner, -(t.amount as int), 0, t.amount)
      else
        Leaves(s, s', n, Some(Ticket(t.owner, t.amount - redeemable, false)), -(redeemable as int), t.owner,
          -(redeemable as int), 0, redeemable)
  {
    hide Sum, At;
    var t := s.tickets[s.nextWithdrawable];
    if t.amount > 0 && !destination.Invalid? {
      var burn := Min(t.amount, redeemable);
      forall o
        ensures At(s.vaults[t.owner := At(s.vaults, t.owner) - burn], o) ==
                At(s.vaults, o) - if o == t.owner then burn else 0
        ensures At(s.burned[t.owner := At(s.burned, t.owner) + burn], o) ==
                At(s.burned, o) + if o == t.owner then burn else 0
      {
        AtUpdated(s.vaults, t.owner, At(s.vaults, t.owner) - burn, o);
        AtUpdated(s.burned, t.owner, At(s.burned, t.owner) + burn, o);
      }
    }
  }

  /** Collateral is recovered exactly by an allowed signer from an invalid ticket, all of it, to its owner. */
  lemma {:induction false} RecoverAcceptedIff(s: State, allowedSigner: bool, n: nat)
    requires Inv(s) && n in s.tickets
    ensures var t := s.tickets[n]; var r := Recover(s, allowedSigner, n);
      && (r.Ok? <==> allowedSigner && t.invalid)
      && (r.Ok? ==> Leaves(s, r.value, n, None, 0, t.owner, -(t.amount as int), t.amount, 0))
  {
    hide Sum, At;
    var t := s.tickets[n];
    TicketIsBacked(s, n);
    if Recover(s, allowedSigner, n).Ok? {
      forall o
        ensures At(s.vaults[t.owner := At(s.vaults, t.owner) - t.amount], o) ==
                At(s.vaults, o) - if o == t.owner then t.amount else 0
        ensures At(s.wallets[t.owner := At(s.wallets, t.owner) + t.amount], o) ==
                At(s.wallets, o) + if o == t.owner then t.amount else 0
      {
        AtUpdated(s.vaults, t.owner, At(s.vaults, t.owner) - t.amount, o);
        AtUpdated(s.wallets, t.owner, At(s.wallets, t.owner) + t.amount, o);
      }
    }
  }

  // ----- No ticket is ever too small -----

  /** Every ticket that is not empty is worth the minimum. */
  ghost predicate WorthMinimum(s: State, worth: nat -> bool) {
    forall n :: n in s.tickets && s.tickets[n].amount > 0 ==> worth(s.tickets[n].amount)
  }

  /** What the event takes for worth the minimum is so by `worth`: always the case at constant prices. */
  ghost predicate JudgesBy(e: Event, worth: nat -> bool) {
    match e
    case EnqueueEvent(rules, _, _) => (forall x :: rules.ticketWorth(x) ==> worth(x))
    case CancelEvent(rules, _, _, _) => (forall x :: rules.ticketWorth(x) ==> worth(x))
    case WithdrawEvent(rules, _, _) => (forall x :: rules.ticketWorth(x) ==> worth(x))
    case RecoverEvent(_, _) => true
    case DonateEvent(_, _, _) => true
  }

  lemma {:induction false} StepKeepsWorth(s: State, e: Event, worth: nat -> bool)
    requires WorthMinimum(s, worth) && JudgesBy(e, worth) && Step(s, e).Ok?
    ensures WorthMinimum(Step(s, e).value, worth)
  {
    hide At;
  }

  /** At prices that stay no run from the empty queue leaves a ticket, issued, cancelled in part or redeemed
      in part, that holds something worth less than the minimum. */
  lemma {:induction false} TicketsAreWorthTheMinimum(wallets: map<Pubkey, nat>, es: seq<Event>, worth: nat -> bool)
    requires forall i :: 0 <= i < |es| ==> JudgesBy(es[i], worth)
    ensures WorthMinimum(Run(Initial(wallets), es), worth)
  {
    RunKeepsWorth(Initial(wallets), es, worth);
  }

  lemma {:induction false} RunKeepsWorth(s: State, es: seq<Event>, worth: nat -> bool)
    requires WorthMinimum(s, worth) && forall i :: 0 <= i < |es| ==> JudgesBy(es[i], worth)
    ensures WorthMinimum(Run(s, es), worth)
    decreases es
  {
    hide Step, WorthMinimum, JudgesBy;
    if es != [] {
      assert JudgesBy(es[0], worth);
      assert forall i :: 0 <= i < |es[1..]| ==> es[1..][i] == es[i + 1];
      if Step(s, es[0]).Ok? {
        StepKeepsWorth(s, es[0], worth);
      }
      RunKeepsWorth(Next(s, es[0]), es[1..], worth);
    }
  }

  // ----- Refusals say what is wrong -----

  lemma {:induction false} EnqueueRefusals(s: State, rules: Rules, owner: Pubkey, amount: nat)
    requires Inv(s) && Enqueue(s, rules, owner, amount).Err?
    ensures match Enqueue(s, rules, owner, amount).error
            case WithdrawTicketIssuanceDisabled => !rules.issuance
            case InvalidAmount => amount == 0
            case WithdrawTicketValueTooSmall => !rules.ticketWorth(amount)
            case InsufficientTokens => amount > At(s.wallets, owner)
            case _ => false
  {
    hide Sum, At;
  }

  lemma {:induction false} CancelRefusals(s: State, rules: Rules, signer: Pubkey, n: nat, requested: nat)
    requires Inv(s) && Cancel(s, rules, signer, n, requested).Err?
    ensures match Cancel(s, rules, signer, n, requested).error
            case TicketAccount => n !in s.tickets
            case InvalidSigner => n in s.tickets && signer != s.tickets[n].owner
            case WithdrawTicketInvalid => n in s.tickets && s.tickets[n].invalid
            case WithdrawTicketFullyCancelled => n in s.tickets && s.tickets[n].amount == 0
            case WithdrawTicketCancellationDisabled => !rules.cancellation
            case InvalidAmount => requested == 0
            case WithdrawTicketValueTooSmall =>
              n in s.tickets && requested < s.tickets[n].amount && !rules.ticketWorth(s.tickets[n].amount - requested)
            case _ => false
  {
    hide Inv, At;
    if n in s.tickets {
      TicketIsBacked(s, n);
    }
  }

  lemma {:induction false} WithdrawRefusals(s: State, rules: Rules, destination: Destination, redeemable: nat)
    requires Inv(s) && WithdrawQueued(s, rules, destination, redeemable).Err?
    ensures var n := s.nextWithdrawable;
      match WithdrawQueued(s, rules, destination, redeemable).error
      case TicketAccount => n == s.nextIssued && n !in s.tickets
      case WithdrawTicketRedemptionDisabled => !rules.redemption
      case InsufficientLiquidity => redeemable == 0
      case WithdrawTicketValueTooSmall =>
        n in s.tickets && redeemable < s.tickets[n].amount && !rules.ticketWorth(s.tickets[n].amount - redeemable)
      case WithdrawQueuedLiquidityValueTooSmall =>
        n in s.tickets && redeemable < s.tickets[n].amount && !rules.payoutWorth(redeemable)
      case WithdrawTicketRequiresFullRedemption =>
        n in s.tickets && redeemable < s.tickets[n].amount && destination.AtaToBeCreated?
      case _ => false
  {
    hide Sum, At;
    if s.nextWithdrawable < s.nextIssued {
      HeadIsBacked(s);
    }
  }

  lemma {:induction false} RecoverRefusals(s: State, allowedSigner: bool, n: nat)
    requires Inv(s) && Recover(s, allowedSigner, n).Err?
    ensures match Recover(s, allowedSigner, n).error
            case TicketAccount => n !in s.tickets
            case InvalidSigner => !allowedSigner
            case WithdrawTicketStillValid => n in s.tickets && !s.tickets[n].invalid
            case _ => false
  {
    hide Inv, At;
    if n in s.tickets {
      TicketIsBacked(s, n);
    }
  }
}
