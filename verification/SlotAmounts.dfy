/** How much an obligation holds and owes, reserve by reserve: what every operation on its slots moves,
    and the balance over whole runs. */
module SlotAmounts {
  import opened Common
  import opened ObligationLayout
  import opened ObligationSlots

  /** The sum over all slots of `key`: collateral held in a reserve, or debt owed to it. */
  function Held(ps: seq<Position>, key: Pubkey): (total: nat) {
    if ps == [] then 0
    else Held(ps[..|ps| - 1], key) + Part(ps[|ps| - 1], key)
  }

  function Part(p: Position, key: Pubkey): (amount: nat) { if p.reserve == key then p.amount else 0 }

  /** What reserve `k` gains when `key` gains `amount`. */
  function Gained(key: Pubkey, k: Pubkey, amount: nat): (delta: int) { if key == k then amount else 0 }

  lemma {:induction false} HeldUpdate(ps: seq<Position>, i: nat, p: Position, key: Pubkey)
    requires i < |ps|
    ensures Held(ps[i := p], key) == Held(ps, key) - Part(ps[i], key) + Part(p, key)
  {
    var init := ps[..|ps| - 1];
    if i < |init| {
      assert ps[i := p][..|ps| - 1] == init[i := p];
      HeldUpdate(init, i, p, key);
    } else {
      assert ps[i := p][..|ps| - 1] == init;
    }
  }

  lemma {:induction false} HeldNowhere(ps: seq<Position>, key: Pubkey)
    requires forall i :: 0 <= i < |ps| ==> ps[i].reserve != key
    ensures Held(ps, key) == 0
  {
    if ps != [] {
      HeldNowhere(ps[..|ps| - 1], key);
    }
  }

  /** Where no reserve has two slots, what is held is what the slot says. */
  lemma {:induction false} HeldIsSlot(ps: seq<Position>, i: nat)
    requires i < |ps| && Active(ps[i]) && Distinct(ActiveReserves(ps))
    ensures Held(ps, ps[i].reserve) == ps[i].amount
  {
    hide ActiveReserves;
    var key := ps[i].reserve;
    forall j | 0 <= j < |ps| && j != i
      ensures ps[j].reserve != key
    {
      if ps[j].reserve == key {
        TwoSlotsTwoReserves(ps, if j < i then j else i, if j < i then i else j);
      }
    }
    var cleared := ps[i := EMPTY_SLOT];
    HeldNowhere(cleared, key);
    HeldUpdate(ps, i, EMPTY_SLOT, key);
  }

  lemma {:induction false} TwoSlotsTwoReserves(ps: seq<Position>, i: nat, j: nat)
    requires i < j < |ps| && Active(ps[i]) && Active(ps[j]) && Distinct(ActiveReserves(ps))
    ensures ps[i].reserve != ps[j].reserve
  {
    hide ActiveReserves, Active;
    var left, right := ActiveReserves(ps[..j]), ActiveReserves(ps[j + 1..]);
    ActiveReservesAround(ps, j);
    assert ActiveKey(ps[j]) == [ps[j].reserve] && ActiveReserves(ps)[|left|] == ps[j].reserve;
    assert ps[..j][i] == ps[i];
    ActiveReservesMembers(ps[..j], ps[i].reserve);
    var r :| 0 <= r < |left| && left[r] == ps[i].reserve;
    assert ActiveReserves(ps)[r] == left[r];
  }

  // ----- One slot operation -----

  /** A deposit or a loan adds exactly its amount to its own reserve and nothing to any other. */
  lemma {:induction false} AddRaises(ps: seq<Position>, key: Pubkey, amount: nat, k: Pubkey)
    requires key != DEFAULT_KEY && k != DEFAULT_KEY && AddTo(ps, key, amount).Ok?
    ensures Held(AddTo(ps, key, amount).value, k) == Held(ps, k) + Gained(key, k, amount)
  {
    hide Held, FirstWith;
    match FirstWith(ps, key)
    case Some(i) => HeldUpdate(ps, i, Position(key, ps[i].amount + amount), k);
    case None =>
      var i := FirstWith(ps, DEFAULT_KEY).value;
      HeldUpdate(ps, i, Position(key, amount), k);
  }

  /** It finds room exactly when the reserve has a slot already or some slot is a hole. */
  lemma {:induction false} AddAcceptedIff(ps: seq<Position>, key: Pubkey, amount: nat)
    requires key != DEFAULT_KEY
    ensures AddTo(ps, key, amount).Ok? <==> key in ActiveReserves(ps) || CountActive(ps) < |ps|
    ensures AddTo(ps, key, amount).Err? ==> AddTo(ps, key, amount) == Err(ReserveLimit)
  {
    hide ActiveReserves, CountActive;
    ActiveReservesMembers(ps, key);
    HoleIff(ps);
  }

  lemma {:induction false} HoleIff(ps: seq<Position>)
    ensures CountActive(ps) <= |ps|
    ensures CountActive(ps) < |ps| <==> exists i :: 0 <= i < |ps| && ps[i].reserve == DEFAULT_KEY
  {
    if ps != [] {
      var init := ps[..|ps| - 1];
      HoleIff(init);
      if i :| 0 <= i < |init| && init[i].reserve == DEFAULT_KEY {
        assert ps[i].reserve == DEFAULT_KEY;
      } else if i :| 0 <= i < |ps| && ps[i].reserve == DEFAULT_KEY {
        assert i < |init| ==> init[i] == ps[i];
      }
    }
  }

  /** A withdrawal or a repayment takes exactly its amount, which was there, from the reserve of its slot
      and nothing from any other. */
  lemma {:induction false} SettleLowers(ps: seq<Position>, i: nat, amount: nat, k: Pubkey)
    requires i < |ps| && Active(ps[i]) && k != DEFAULT_KEY && Settle(ps, i, amount).Ok?
    ensures Held(Settle(ps, i, amount).value, k) == Held(ps, k) - Gained(ps[i].reserve, k, amount)
  {
    hide Held;
    HeldUpdate(ps, i, Settle(ps, i, amount).value[i], k);
  }

  /** A withdrawal is possible exactly when it takes something, and no more than is held. */
  lemma {:induction false} WithdrawnIff(o: Obligation, key: Pubkey, amount: nat)
    requires key != DEFAULT_KEY && OneSlotEach(o)
    ensures Withdrawn(o, key, amount).Ok? <==> 0 < amount <= Held(o.deposits, key)
    ensures FindSlot(o.deposits, key).Ok? <==> Held(o.deposits, key) > 0
    ensures FindSlot(o.deposits, key).Ok? ==>
              o.deposits[FindSlot(o.deposits, key).value].amount == Held(o.deposits, key)
  {
    hide ActiveReserves, Distinct;
    FindSlotIff(o.deposits, key);
  }

  /** A repayment is possible exactly when it settles something, and no more than is owed. */
  lemma {:induction false} RepaidIff(o: Obligation, key: Pubkey, amount: nat)
    requires key != DEFAULT_KEY && OneSlotEach(o)
    ensures Repaid(o, key, amount).Ok? <==> 0 < amount <= Held(o.borrows, key)
    ensures FindSlot(o.borrows, key).Ok? <==> Held(o.borrows, key) > 0
    ensures FindSlot(o.borrows, key).Ok? ==> o.borrows[FindSlot(o.borrows, key).value].amount == Held(o.borrows, key)
  {
    hide ActiveReserves, Distinct;
    FindSlotIff(o.borrows, key);
  }

  lemma {:induction false} FindSlotIff(ps: seq<Position>, key: Pubkey)
    requires key != DEFAULT_KEY && Distinct(ActiveReserves(ps))
    ensures FindSlot(ps, key).Ok? <==> Held(ps, key) > 0
    ensures FindSlot(ps, key).Ok? ==> ps[FindSlot(ps, key).value].amount == Held(ps, key)
  {
    hide ActiveReserves, CountActive, Held, Distinct;
    match FirstWith(ps, key)
    case None => HeldNowhere(ps, key);
    case Some(i) =>
      HeldIsSlot(ps, i);
      SomeActive(ps, i);
  }

  lemma {:induction false} SomeActive(ps: seq<Position>, i: nat)
    requires i < |ps| && Active(ps[i])
    ensures CountActive(ps) > 0
  {
    if i < |ps| - 1 {
      SomeActive(ps[..|ps| - 1], i);
    }
  }

  // ----- One event -----

  /** What an event, if it succeeds, adds to the collateral held in reserve `k`. */
  function DepositDelta(e: SlotEvent, k: Pubkey): (delta: int) {
    match e
    case DepositCollateral(key, amount) => Gained(key, k, amount)
    case WithdrawCollateral(key, amount) => -Gained(key, k, amount)
    case LiquidateObligation(_, _, withdrawKey, withdrawn) => -Gained(withdrawKey, k, withdrawn)
    case BorrowLiquidity(_, _) => 0
    case RepayLiquidity(_, _) => 0
    case RolloverBorrow(_, _, _, _) => 0
    case AccrueInterest(_, _) => 0
  }

  /** What it adds to the debt owed to reserve `k`. */
  function BorrowDelta(e: SlotEvent, k: Pubkey): (delta: int) {
    match e
    case BorrowLiquidity(key, amount) => Gained(key, k, amount)
    case RepayLiquidity(key, amount) => -Gained(key, k, amount)
    case LiquidateObligation(repayKey, settled, _, _) => -Gained(repayKey, k, settled)
    case RolloverBorrow(source, repaid, target, borrowed) => Gained(target, k, borrowed) - Gained(source, k, repaid)
    case AccrueInterest(key, interest) => Gained(key, k, interest)
    case DepositCollateral(_, _) => 0
    case WithdrawCollateral(_, _) => 0
  }

  lemma {:induction false} WithdrawnMoves(o: Obligation, key: Pubkey, amount: nat, k: Pubkey)
    requires key != DEFAULT_KEY && k != DEFAULT_KEY && Withdrawn(o, key, amount).Ok?
    ensures var o' := Withdrawn(o, key, amount).value;
      Held(o'.deposits, k) == Held(o.deposits, k) - Gained(key, k, amount)
      && o'.borrows == o.borrows && o'.referrer == o.referrer
  {
    hide Held, FindSlot, Settle;
    SettleLowers(o.deposits, FindSlot(o.deposits, key).value, amount, k);
  }

  lemma {:induction false} RepaidMoves(o: Obligation, key: Pubkey, amount: nat, k: Pubkey)
    requires key != DEFAULT_KEY && k != DEFAULT_KEY && Repaid(o, key, amount).Ok?
    ensures var o' := Repaid(o, key, amount).value;
      Held(o'.borrows, k) == Held(o.borrows, k) - Gained(key, k, amount)
      && o'.deposits == o.deposits && o'.referrer == o.referrer
  {
    hide Held, FindSlot, Settle;
    SettleLowers(o.borrows, FindSlot(o.borrows, key).value, amount, k);
  }

  lemma {:induction false} RolloverMoves(o: Obligation, e: SlotEvent, k: Pubkey)
    requires e.RolloverBorrow? && NamesReserves(e) && k != DEFAULT_KEY && SlotStep(o, e).Ok?
    ensures var o' := SlotStep(o, e).value;
      Held(o'.borrows, k) == Held(o.borrows, k) + Gained(e.target, k, e.borrowed) - Gained(e.source, k, e.repaid)
      && o'.deposits == o.deposits && o'.referrer == o.referrer
  {
    hide Held, AddTo, Settle, FirstWith;
    var i := FirstWith(o.borrows, e.source).value;
    SettleLowers(o.borrows, i, e.repaid, k);
    AddRaises(Settle(o.borrows, i, e.repaid).value, e.target, e.borrowed, k);
  }

  lemma {:induction false} LiquidationMoves(o: Obligation, e: SlotEvent, k: Pubkey)
    requires e.LiquidateObligation? && NamesReserves(e) && k != DEFAULT_KEY && SlotStep(o, e).Ok?
    ensures var o' := SlotStep(o, e).value;
      && Held(o'.deposits, k) == Held(o.deposits, k) - Gained(e.withdrawKey, k, e.withdrawn)
      && Held(o'.borrows, k) == Held(o.borrows, k) - Gained(e.repayKey, k, e.settled)
      && o'.referrer == o.referrer
  {
    hide Held, Withdrawn, Repaid;
    RepaidMoves(o, e.repayKey, e.settled, k);
    WithdrawnMoves(Repaid(o, e.repayKey, e.settled).value, e.withdrawKey, e.withdrawn, k);
  }

  lemma {:induction false} InterestMoves(o: Obligation, e: SlotEvent, k: Pubkey)
    requires e.AccrueInterest? && SlotStep(o, e).Ok?
    ensures var o' := SlotStep(o, e).value;
      Held(o'.borrows, k) == Held(o.borrows, k) + Gained(e.key, k, e.interest)
      && o'.deposits == o.deposits && o'.referrer == o.referrer
  {
    hide Held, FirstWith;
    var i := FirstWith(o.borrows, e.key).value;
    HeldUpdate(o.borrows, i, Position(e.key, o.borrows[i].amount + e.interest), k);
  }

  /** Every successful event moves exactly what it says, in its own reserves, and nothing else. */
  lemma {:induction false} StepMoves(o: Obligation, e: SlotEvent, k: Pubkey)
    requires NamesReserves(e) && k != DEFAULT_KEY && SlotStep(o, e).Ok?
    ensures var o' := SlotStep(o, e).value;
      && Held(o'.deposits, k) == Held(o.deposits, k) + DepositDelta(e, k)
      && Held(o'.borrows, k) == Held(o.borrows, k) + BorrowDelta(e, k)
      && o'.referrer == o.referrer
  {
    hide Held, AddTo, Withdrawn, Repaid, Gained;
    match e
    case DepositCollateral(key, amount) => AddRaises(o.deposits, key, amount, k);
    case WithdrawCollateral(key, amount) => WithdrawnMoves(o, key, amount, k);
    case BorrowLiquidity(key, amount) => AddRaises(o.borrows, key, amount, k);
    case RepayLiquidity(key, amount) => RepaidMoves(o, key, amount, k);
    case LiquidateObligation(_, _, _, _) => LiquidationMoves(o, e, k);
    case RolloverBorrow(_, _, _, _) => RolloverMoves(o, e, k);
    case AccrueInterest(_, _) => InterestMoves(o, e, k);
  }

  // ----- Every run -----

  /** Collateral put into reserve `k` less collateral taken out of it, by the events that succeeded. */
  function NetDeposits(o: Obligation, es: seq<SlotEvent>, k: Pubkey): (net: int)
    decreases es
  {
    if es == [] then 0
    else match SlotStep(o, es[0])
      case Ok(o1) => DepositDelta(es[0], k) + NetDeposits(o1, es[1..], k)
      case Err(_) => NetDeposits(o, es[1..], k)
  }

  /** Loans and interest less repayments. */
  function NetBorrows(o: Obligation, es: seq<SlotEvent>, k: Pubkey): (net: int)
    decreases es
  {
    if es == [] then 0
    else match SlotStep(o, es[0])
      case Ok(o1) => BorrowDelta(es[0], k) + NetBorrows(o1, es[1..], k)
      case Err(_) => NetBorrows(o, es[1..], k)
  }

  lemma {:induction false} RunMoves(o: Obligation, es: seq<SlotEvent>, k: Pubkey)
    requires k != DEFAULT_KEY && forall i :: 0 <= i < |es| ==> NamesReserves(es[i])
    ensures Held(SlotRun(o, es).deposits, k) == Held(o.deposits, k) + NetDeposits(o, es, k)
    ensures Held(SlotRun(o, es).borrows, k) == Held(o.borrows, k) + NetBorrows(o, es, k)
    decreases es
  {
    hide SlotStep, Held, NamesReserves, DepositDelta, BorrowDelta;
    if es != [] {
      assert NamesReserves(es[0]);
      assert forall i :: 0 <= i < |es[1..]| ==> es[1..][i] == es[i + 1];
      match SlotStep(o, es[0])
      case Ok(o1) =>
        StepMoves(o, es[0], k);
        RunMoves(o1, es[1..], k);
      case Err(_) => RunMoves(o, es[1..], k);
    }
  }

  /** The books of an obligation: after any run from its opening, its only slot of a reserve, if there is
      one, holds exactly what went in less what went out, and where there is none that is nothing. */
  lemma {:induction false} SlotsAreBalances(
    depositSlots: nat, borrowSlots: nat, referrer: Pubkey, es: seq<SlotEvent>, k: Pubkey)
    requires k != DEFAULT_KEY && forall i :: 0 <= i < |es| ==> NamesReserves(es[i])
    ensures var start := Opened(depositSlots, borrowSlots, referrer); var o := SlotRun(start, es);
      && Held(o.deposits, k) == NetDeposits(start, es, k)
      && Held(o.borrows, k) == NetBorrows(start, es, k)
      && (forall i :: 0 <= i < |o.deposits| && o.deposits[i].reserve == k ==>
          o.deposits[i].amount == NetDeposits(start, es, k))
      && (forall i :: 0 <= i < |o.borrows| && o.borrows[i].reserve == k ==>
          o.borrows[i].amount == NetBorrows(start, es, k))
  {
    hide SlotRun, Held, NetDeposits, NetBorrows, Distinct, ActiveReserves;
    var start := Opened(depositSlots, borrowSlots, referrer);
    var o := SlotRun(start, es);
    RunMoves(start, es, k);
    HeldNowhere(start.deposits, k);
    HeldNowhere(start.borrows, k);
    NoReserveHasTwoSlots(depositSlots, borrowSlots, referrer, es);
    forall i | 0 <= i < |o.deposits| && o.deposits[i].reserve == k
      ensures o.deposits[i].amount == Held(o.deposits, k)
    {
      HeldIsSlot(o.deposits, i);
    }
    forall i | 0 <= i < |o.borrows| && o.borrows[i].reserve == k
      ensures o.borrows[i].amount == Held(o.borrows, k)
    {
      HeldIsSlot(o.borrows, i);
    }
  }
}
