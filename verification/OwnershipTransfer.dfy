/** The three-party transfer of an obligation's ownership: `handler_initiate_`, `handler_approve_`,
    `handler_accept_` and `handler_abort_obligation_ownership_transfer.rs`, interleaved with borrow
    orders of the owner. */
module OwnershipTransfer {
  import opened Common

  datatype TransferState = NotInProgress | Initiated | Approved

  /** The fields of an obligation the protocol uses; a borrow order is fillable until its timestamp. */
  datatype Obligation = Obligation(owner: Pubkey, pendingOwner: Pubkey, transfer: TransferState, order: Option<nat>)

  datatype TransferError =
    | InvalidSigner | ObligationInvalidPendingOwner | ObligationOwnershipTransferInProgress
    | ObligationOwnershipTransferNotInInitiatedState | ObligationOwnershipTransferNotApproved
    | ObligationHasActiveBorrowOrders | OnlyComputeBudgetCompanionIxsAllowed | CpiDisabled

  predicate Expired(until: nat, now: nat) { until < now }

  /** `clear_expired_borrow_order_on_initiating_obligation_ownership_transfer`. */
  function ClearExpired(order: Option<nat>, now: nat): (r: Option<nat>) {
    match order case Some(until) => (if Expired(until, now) then None else order) case None => None
  }

  // ----- Steps -----

  /** How an instruction is executed. `alone`: nothing but compute-budget instructions accompany it;
      `direct`: it is not a forbidden call from another program. */
  datatype Context = Context(alone: bool, direct: bool)

  /** `obligation_ownership_transfer_execution_context_checks`. */
  function ContextError(ctx: Context): (e: Option<TransferError>) {
    if !ctx.alone then Some(OnlyComputeBudgetCompanionIxsAllowed) else if !ctx.direct then Some(CpiDisabled) else None
  }

  /** An attempted instruction. */
  datatype Event =
    | Initiate(signer: Pubkey, newOwner: Pubkey, now: nat, ctx: Context)
    | Approve(signer: Pubkey, pendingOwner: Pubkey, now: nat)
    | Accept(signer: Pubkey, now: nat, ctx: Context)
    | Abort(signer: Pubkey, ctx: Context)
    | SetBorrowOrder(signer: Pubkey, order: Option<nat>)
    | FillBorrowOrder(left: Option<nat>)

  predicate IsTransferStep(e: Event) { e.Initiate? || e.Approve? || e.Accept? || e.Abort? }

  function Step(o: Obligation, admin: Pubkey, e: Event): (r: Result<Obligation, TransferError>) {
    match e
    case Initiate(signer, newOwner, now, ctx) =>
      if signer != o.owner then Err(InvalidSigner)
      else if !o.transfer.NotInProgress? then Err(ObligationOwnershipTransferInProgress)
      else if ContextError(ctx).Some? then Err(ContextError(ctx).value)
      else if ClearExpired(o.order, now).Some? then Err(ObligationHasActiveBorrowOrders)
      else if newOwner == DEFAULT_KEY || newOwner == o.owner then Err(ObligationInvalidPendingOwner)
      else Ok(o.(order := None, pendingOwner := newOwner, transfer := Initiated))
    case Approve(signer, pendingOwner, now) =>
      if signer != admin then Err(InvalidSigner)
      else if pendingOwner != o.pendingOwner then Err(ObligationInvalidPendingOwner)
      else if !o.transfer.Initiated? then Err(ObligationOwnershipTransferNotInInitiatedState)
      else if ClearExpired(o.order, now).Some? then Err(ObligationHasActiveBorrowOrders)
      else Ok(o.(order := None, transfer := Approved))
    case Accept(signer, now, ctx) =>
      if signer != o.pendingOwner then Err(ObligationInvalidPendingOwner)
      else if ContextError(ctx).Some? then Err(ContextError(ctx).value)
      else if ClearExpired(o.order, now).Some? then Err(ObligationHasActiveBorrowOrders)
      else if !o.transfer.Approved? then Err(ObligationOwnershipTransferNotApproved)
      else Ok(Obligation(o.pendingOwner, DEFAULT_KEY, NotInProgress, None))
    case Abort(signer, ctx) =>
      if signer != o.owner then Err(InvalidSigner)
      else if ContextError(ctx).Some? then Err(ContextError(ctx).value)
      else if !o.transfer.Initiated? then Err(ObligationOwnershipTransferNotInInitiatedState)
      else Ok(o.(pendingOwner := DEFAULT_KEY, transfer := NotInProgress))
    case SetBorrowOrder(signer, order) =>
      if signer != o.owner then Err(InvalidSigner) else Ok(o.(order := order))
    case FillBorrowOrder(left) => Ok(o.(order := left))
  }

  // ----- The handlers, on the loaded account -----

  class ObligationAccount {
    var owner: Pubkey
    var pendingOwner: Pubkey
    var transfer: TransferState
    var order: Option<nat>

    constructor (owner: Pubkey)
      ensures View() == Obligation(owner, DEFAULT_KEY, NotInProgress, None)
    {
      this.owner, this.pendingOwner, this.transfer, this.order := owner, DEFAULT_KEY, NotInProgress, None;
    }

    ghost function View(): (r: Obligation)
      reads this
    {
      Obligation(owner, pendingOwner, transfer, order)
    }

    method InitiateOwnershipTransfer(signer: Pubkey, newOwner: Pubkey, now: nat, ctx: Context, ghost admin: Pubkey)
      returns (r: Result<(), TransferError>)
      modifies this
      ensures Outcome(old(View()), View(), r, Step(old(View()), admin, Initiate(signer, newOwner, now, ctx)))
    {
      if signer != owner {
        return Err(InvalidSigner);
      }
      if transfer != NotInProgress {
        return Err(ObligationOwnershipTransferInProgress);
      }
      var context := ContextError(ctx);
      if context.Some? {
        return Err(context.value);
      }
      var cleared := ClearExpired(order, now);
      if cleared.Some? {
        return Err(ObligationHasActiveBorrowOrders);
      }
      if newOwner == DEFAULT_KEY {
        return Err(ObligationInvalidPendingOwner);
      }
      if newOwner == owner {
        return Err(ObligationInvalidPendingOwner);
      }
      order := cleared;
      pendingOwner, transfer := newOwner, Initiated;
      return Ok(());
    }

    method ApproveOwnershipTransfer(admin: Pubkey, signer: Pubkey, pendingOwnerAccount: Pubkey, now: nat)
      returns (r: Result<(), TransferError>)
      modifies this
      ensures Outcome(old(View()), View(), r, Step(old(View()), admin, Approve(signer, pendingOwnerAccount, now)))
    {
      if signer != admin {
        return Err(InvalidSigner);
      }
      if pendingOwnerAccount != pendingOwner {
        return Err(ObligationInvalidPendingOwner);
      }
      if transfer != Initiated {
        return Err(ObligationOwnershipTransferNotInInitiatedState);
      }
      var cleared := ClearExpired(order, now);
      if cleared.Some? {
        return Err(ObligationHasActiveBorrowOrders);
      }
      order, transfer := cleared, Approved;
      return Ok(());
    }

    method AcceptOwnership(
      signer: Pubkey, now: nat, ctx: Context, ghost admin: Pubkey)
      returns (r: Result<(), TransferError>)
      modifies this
      ensures Outcome(old(View()), View(), r, Step(old(View()), admin, Accept(signer, now, ctx)))
    {
      if signer != pendingOwner {
        return Err(ObligationInvalidPendingOwner);
      }
      var cleared := ClearExpired(order, now);
      var context := ContextError(ctx);
      if context.Some? {
        return Err(context.value);
      }
      if cleared.Some? {
        return Err(ObligationHasActiveBorrowOrders);
      }
      if transfer != Approved {
        return Err(ObligationOwnershipTransferNotApproved);
      }
      order := cleared;
      owner, pendingOwner, transfer := pendingOwner, DEFAULT_KEY, NotInProgress;
      return Ok(());
    }

    method AbortOwnershipTransfer(
      signer: Pubkey, ctx: Context, ghost admin: Pubkey)
      returns (r: Result<(), TransferError>)
      modifies this
      ensures Outcome(old(View()), View(), r, Step(old(View()), admin, Abort(signer, ctx)))
    {
      if signer != owner {
        return Err(InvalidSigner);
      }
      var context := ContextError(ctx);
      if context.Some? {
        return Err(context.value);
      }
      if transfer != Initiated {
        return Err(ObligationOwnershipTransferNotInInitiatedState);
      }
      pendingOwner, transfer := DEFAULT_KEY, NotInProgress;
      return Ok(());
    }
  }

  /** A failed instruction changes nothing. */
  ghost predicate Outcome(
    before: Obligation, after: Obligation, r: Result<(), TransferError>, step: Result<Obligation, TransferError>)
  {
    match step
    case Ok(o) => r == Ok(()) && after == o
    case Err(e) => r == Err(e) && after == before
  }

  // ----- Histories -----

  function Next(o: Obligation, admin: Pubkey, e: Event): (r: Obligation) {
    match Step(o, admin, e) case Ok(o') => o' case Err(_) => o
  }

  /** The state before event `n` of a history. */
  function StateAt(o: Obligation, admin: Pubkey, es: seq<Event>, n: nat): (r: Obligation)
    requires n <= |es|
  {
    if n == 0 then o else Next(StateAt(o, admin, es, n - 1), admin, es[n - 1])
  }

  predicate Succeeds(o: Obligation, admin: Pubkey, es: seq<Event>, n: nat)
    requires n < |es|
  {
    Step(StateAt(o, admin, es, n), admin, es[n]).Ok?
  }

  /** No transfer step succeeded at any position in [from, to). */
  ghost predicate Quiet(o: Obligation, admin: Pubkey, es: seq<Event>, from: nat, to: nat)
    requires to <= |es|
  {
    forall k :: from <= k < to ==> !(IsTransferStep(es[k]) && Succeeds(o, admin, es, k))
  }

  /** At `i` the owner of moment `n` named the pending owner of moment `n`, and nothing followed. */
  ghost predicate InitiatedAt(o: Obligation, admin: Pubkey, es: seq<Event>, i: nat, n: nat)
    requires n <= |es|
  {
    var s := StateAt(o, admin, es, n);
    && i < n && es[i].Initiate? && Succeeds(o, admin, es, i)
    && es[i].signer == s.owner && es[i].newOwner == s.pendingOwner
    && StateAt(o, admin, es, i).owner == s.owner
  }

  /** At `j` the admin approved the pending owner of moment `n`. */
  ghost predicate ApprovedAt(o: Obligation, admin: Pubkey, es: seq<Event>, j: nat, n: nat)
    requires n <= |es|
  {
    && j < n && es[j].Approve? && Succeeds(o, admin, es, j)
    && es[j].signer == admin && es[j].pendingOwner == StateAt(o, admin, es, n).pendingOwner
  }

  /** What every moment's transfer state remembers. */
  ghost predicate Remembers(o: Obligation, admin: Pubkey, es: seq<Event>, n: nat, i: nat, j: nat)
    requires n <= |es|
  {
    match StateAt(o, admin, es, n).transfer
    case NotInProgress => true
    case Initiated => InitiatedAt(o, admin, es, i, n) && Quiet(o, admin, es, i + 1, n)
    case Approved =>
      && InitiatedAt(o, admin, es, i, n) && ApprovedAt(o, admin, es, j, n) && i < j
      && Quiet(o, admin, es, i + 1, j) && Quiet(o, admin, es, j + 1, n)
  }

  /** Anything but a successful transfer step leaves owner, pending owner and state alone. */
  lemma {:induction false} OnlyTransferStepsMove(o: Obligation, admin: Pubkey, e: Event)
    requires !(IsTransferStep(e) && Step(o, admin, e).Ok?)
    ensures var o' := Next(o, admin, e);
      o'.owner == o.owner && o'.pendingOwner == o.pendingOwner && o'.transfer == o.transfer
  {
  }

  /** No order is fillable at this moment. */
  predicate NoActiveOrder(order: Option<nat>, now: nat) { order.Some? ==> order.value < now }

  /** Which step leads where, who took it, and what it leaves of every field. */
  lemma {:induction false} TransferStepShape(o: Obligation, admin: Pubkey, e: Event)
    requires IsTransferStep(e) && Step(o, admin, e).Ok?
    ensures var o' := Next(o, admin, e);
      match e
      case Initiate(signer, newOwner, now, _) =>
        && o.transfer.NotInProgress? && signer == o.owner && NoActiveOrder(o.order, now)
        && o' == Obligation(o.owner, newOwner, Initiated, None)
      case Approve(signer, pendingOwner, now) =>
        && o.transfer.Initiated? && signer == admin && pendingOwner == o.pendingOwner && NoActiveOrder(o.order, now)
        && o' == Obligation(o.owner, o.pendingOwner, Approved, None)
      case Accept(signer, now, _) =>
        && o.transfer.Approved? && signer == o.pendingOwner && NoActiveOrder(o.order, now)
        && o' == Obligation(signer, DEFAULT_KEY, NotInProgress, None)
      case _ =>
        && o.transfer.Initiated? && e.signer == o.owner
        && o' == Obligation(o.owner, DEFAULT_KEY, NotInProgress, o.order)
  {
  }

  /** Every history that starts with no transfer in progress carries its own evidence. */
  lemma {:induction false} HistoryRemembers(
    o: Obligation, admin: Pubkey, es: seq<Event>, n: nat)
    returns (i: nat, j: nat)
    requires n <= |es| && o.transfer.NotInProgress?
    ensures Remembers(o, admin, es, n, i, j)
  {
    if n == 0 {
      i, j := 0, 0;
    } else {
      hide Step;
      i, j := HistoryRemembers(o, admin, es, n - 1);
      var e := es[n - 1];
      var s := StateAt(o, admin, es, n - 1);
      if IsTransferStep(e) && Succeeds(o, admin, es, n - 1) {
        TransferStepShape(s, admin, e);
        if e.Initiate? {
          i := n - 1;
        } else if e.Approve? {
          j := n - 1;
        }
      } else {
        OnlyTransferStepsMove(s, admin, e);
      }
    }
  }

  /** In every interleaving: an accepted transfer from o to n follows, with no transfer step between,
      an initiation signed by o that names n and an approval of n by the admin; the accept is signed by
      n, who is neither o nor the default key, and no unexpired borrow order exists at that moment. */
  lemma {:induction false} AcceptHasFullHistory(o: Obligation, admin: Pubkey, es: seq<Event>, k: nat)
    requires o.transfer.NotInProgress? && k < |es| && es[k].Accept? && Succeeds(o, admin, es, k)
    ensures var before, after := StateAt(o, admin, es, k), StateAt(o, admin, es, k + 1);
      && after.owner == es[k].signer && after.owner != before.owner && after.owner != DEFAULT_KEY
      && (before.order.Some? ==> Expired(before.order.value, es[k].now)) && after.order.None?
      && exists i, j ::
           && 0 <= i < j < k
           && es[i].Initiate? && Succeeds(o, admin, es, i) && es[i].newOwner == after.owner
           && es[i].signer == StateAt(o, admin, es, i).owner == before.owner
           && es[j].Approve? && Succeeds(o, admin, es, j) && es[j].signer == admin && es[j].pendingOwner == after.owner
           && Quiet(o, admin, es, i + 1, j) && Quiet(o, admin, es, j + 1, k)
  {
    var s := StateAt(o, admin, es, k);
    TransferStepShape(s, admin, es[k]);
    var i, j := HistoryRemembers(o, admin, es, k);
    NamesAnother(StateAt(o, admin, es, i), admin, es[i]);
  }

  lemma {:induction false} NamesAnother(o: Obligation, admin: Pubkey, e: Event)
    requires e.Initiate? && Step(o, admin, e).Ok?
    ensures e.newOwner != DEFAULT_KEY && e.newOwner != o.owner
  {
  }

  /** And the owner changes in no other way. */
  lemma {:induction false} OwnerChangesOnlyByAccept(o: Obligation, admin: Pubkey, es: seq<Event>, k: nat)
    requires k < |es| && StateAt(o, admin, es, k + 1).owner != StateAt(o, admin, es, k).owner
    ensures es[k].Accept? && Succeeds(o, admin, es, k)
  {
    hide Step;
    var s := StateAt(o, admin, es, k);
    if IsTransferStep(es[k]) && Succeeds(o, admin, es, k) {
      TransferStepShape(s, admin, es[k]);
    } else {
      OnlyTransferStepsMove(s, admin, es[k]);
    }
  }

  // ----- Which step is open in which state -----

  /** With no transfer in progress, the owner can initiate one to somebody else, alone in a direct
      transaction and with no unexpired order, and nothing else is possible. */
  lemma {:induction false} AtRestOnlyInitiates(o: Obligation, admin: Pubkey, e: Event)
    requires o.transfer.NotInProgress? && IsTransferStep(e)
    ensures Step(o, admin, e).Ok? <==>
      && e.Initiate? && e.signer == o.owner && e.ctx == Context(true, true) && NoActiveOrder(o.order, e.now)
      && e.newOwner != o.owner && e.newOwner != DEFAULT_KEY
  {
  }

  /** Once initiated, the owner can abort, alone in a direct transaction, or the admin can approve the
      pending owner while no unexpired order exists, and nothing else is possible. */
  lemma {:induction false} InitiatedOnlyAbortsOrApproves(o: Obligation, admin: Pubkey, e: Event)
    requires o.transfer.Initiated? && IsTransferStep(e)
    ensures Step(o, admin, e).Ok? <==>
      || (e.Abort? && e.signer == o.owner && e.ctx == Context(true, true))
      || (e.Approve? && e.signer == admin && e.pendingOwner == o.pendingOwner && NoActiveOrder(o.order, e.now))
  {
  }

  /** Once approved, no transfer step but the pending owner's accept can succeed, and that one succeeds
      exactly when it comes alone, called directly, and no unexpired order is active: neither owner nor
      admin can revoke. */
  lemma {:induction false} ApprovedOnlyAccepts(o: Obligation, admin: Pubkey, e: Event)
    requires o.transfer.Approved? && IsTransferStep(e)
    ensures Step(o, admin, e).Ok? <==>
            e.Accept? && e.signer == o.pendingOwner && e.ctx == Context(true, true) && NoActiveOrder(o.order, e.now)
  {
  }

  /** In every interleaving, a transfer that leaves the initiated state was approved by the admin for the
      owner named then, or aborted by the owner of that moment, who stays the owner. */
  lemma {:induction false} InitiatedEndsByOwnerOrAdmin(o: Obligation, admin: Pubkey, es: seq<Event>, k: nat)
    requires k < |es| && StateAt(o, admin, es, k).transfer.Initiated?
    requires !StateAt(o, admin, es, k + 1).transfer.Initiated?
    ensures Succeeds(o, admin, es, k)
    ensures var before, after := StateAt(o, admin, es, k), StateAt(o, admin, es, k + 1);
      && after.owner == before.owner
      && if after.transfer.Approved? then
           es[k].Approve? && es[k].signer == admin && es[k].pendingOwner == before.pendingOwner == after.pendingOwner
         else
           es[k].Abort? && es[k].signer == before.owner && after.pendingOwner == DEFAULT_KEY
  {
    hide Step;
    var s := StateAt(o, admin, es, k);
    if IsTransferStep(es[k]) && Succeeds(o, admin, es, k) {
      TransferStepShape(s, admin, es[k]);
    } else {
      OnlyTransferStepsMove(s, admin, es[k]);
    }
  }

  /** So a transfer that is initiated at one moment and no longer in progress at a later one was, in
      between, aborted by its owner or approved by the admin: nobody else can end it. */
  lemma {:induction false} TransferEndsByOwnerOrAdmin(o: Obligation, admin: Pubkey, es: seq<Event>, i: nat, n: nat)
    returns (k: nat)
    requires i < n <= |es| && StateAt(o, admin, es, i).transfer.Initiated?
    requires !StateAt(o, admin, es, n).transfer.Initiated?
    ensures i <= k < n && Succeeds(o, admin, es, k)
    ensures var s, first := StateAt(o, admin, es, k), StateAt(o, admin, es, i);
      && s.transfer.Initiated? && s.owner == first.owner && s.pendingOwner == first.pendingOwner
      && ((es[k].Abort? && es[k].signer == first.owner)
          || (es[k].Approve? && es[k].signer == admin && es[k].pendingOwner == first.pendingOwner))
    decreases n - i
  {
    hide Step;
    if StateAt(o, admin, es, i + 1).transfer.Initiated? {
      InitiatedStays(StateAt(o, admin, es, i), admin, es[i]);
      k := TransferEndsByOwnerOrAdmin(o, admin, es, i + 1, n);
    } else {
      InitiatedEndsByOwnerOrAdmin(o, admin, es, i);
      k := i;
    }
  }

  lemma {:induction false} InitiatedStays(o: Obligation, admin: Pubkey, e: Event)
    requires o.transfer.Initiated? && Next(o, admin, e).transfer.Initiated?
    ensures Next(o, admin, e).owner == o.owner && Next(o, admin, e).pendingOwner == o.pendingOwner
  {
    if IsTransferStep(e) && Step(o, admin, e).Ok? {
      TransferStepShape(o, admin, e);
    } else {
      OnlyTransferStepsMove(o, admin, e);
    }
  }

  /** So from approval on, whatever is attempted, the transfer stays approved for the same pending owner
      until that owner accepts. */
  lemma {:induction false} ApprovalLastsUntilAccept(o: Obligation, admin: Pubkey, es: seq<Event>, n: nat)
    requires n <= |es| && o.transfer.Approved?
    requires forall k :: 0 <= k < n ==> !(es[k].Accept? && es[k].signer == o.pendingOwner)
    ensures var s := StateAt(o, admin, es, n);
      s.transfer.Approved? && s.pendingOwner == o.pendingOwner && s.owner == o.owner
  {
    hide Step;
    if n > 0 {
      ApprovalLastsUntilAccept(o, admin, es, n - 1);
      var s, e := StateAt(o, admin, es, n - 1), es[n - 1];
      if IsTransferStep(e) {
        ApprovedOnlyAccepts(s, admin, e);
      }
      OnlyTransferStepsMove(s, admin, e);
    }
  }

  /** Every refusal names something that is wrong. */
  lemma {:induction false} RefusalsAreTrue(o: Obligation, admin: Pubkey, e: Event)
    requires IsTransferStep(e) && Step(o, admin, e).Err?
    ensures match Step(o, admin, e).error
            case InvalidSigner => e.signer != if e.Approve? then admin else o.owner
            case ObligationInvalidPendingOwner =>
              (match e
               case Initiate(_, newOwner, _, _) => newOwner == DEFAULT_KEY || newOwner == o.owner
               case Approve(_, pendingOwner, _) => pendingOwner != o.pendingOwner
               case Accept(signer, _, _) => signer != o.pendingOwner
               case _ => false)
            case ObligationOwnershipTransferInProgress => e.Initiate? && !o.transfer.NotInProgress?
            case ObligationOwnershipTransferNotInInitiatedState => (e.Approve? || e.Abort?) && !o.transfer.Initiated?
            case ObligationOwnershipTransferNotApproved => e.Accept? && !o.transfer.Approved?
            case ObligationHasActiveBorrowOrders => !e.Abort? && !NoActiveOrder(o.order, e.now)
            case OnlyComputeBudgetCompanionIxsAllowed => !e.Approve? && !e.ctx.alone
            case CpiDisabled => !e.Approve? && !e.ctx.direct
  {
  }

  /** Only the owner sets a borrow order, in whatever state a transfer is. */
  lemma {:induction false} OnlyOwnerSetsOrder(o: Obligation, admin: Pubkey, signer: Pubkey, order: Option<nat>)
    ensures Step(o, admin, SetBorrowOrder(signer, order)).Ok? <==> signer == o.owner
    ensures Next(o, admin, SetBorrowOrder(signer, order)) == if signer == o.owner then o.(order := order) else o
  {
  }
}
