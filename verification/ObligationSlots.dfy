/** The slot arrays of an obligation (`state/obligation.rs`): where a deposit or a loan goes, what a
    withdrawal or a repayment leaves behind, and why no reserve ever has two slots. */
module ObligationSlots {
  import opened Common
  import opened ObligationLayout

  /** `NoneActive` and `NoSuchSlot` stand for the two errors of each lookup; `SlotEmpty` for a slot
      that holds nothing. */
  datatype SlotError = NoneActive | NoSuchSlot | SlotEmpty | ReserveLimit | AmountTooSmall | MathOverflow

  const EMPTY_SLOT: Position := Position(DEFAULT_KEY, 0)

  /** `iter().position(..)`. */
  function FirstWith(ps: seq<Position>, key: Pubkey): (r: Option<nat>)
    ensures r.Some? ==> r.value < |ps| && ps[r.value].reserve == key
    ensures r.Some? ==> forall j :: 0 <= j < r.value ==> ps[j].reserve != key
    ensures r.None? ==> forall j :: 0 <= j < |ps| ==> ps[j].reserve != key
  {
    if ps == [] then None
    else if ps[0].reserve == key then Some(0)
    else match FirstWith(ps[1..], key)
      case None =>
        assert forall j :: 1 <= j < |ps| ==> ps[j] == ps[1..][j - 1];
        None
      case Some(i) => Some(i + 1)
  }

  /** `find_or_add_collateral_to_deposits` and `find_or_add_liquidity_to_borrows`, then the amount. */
  function AddTo(ps: seq<Position>, key: Pubkey, amount: nat): (r: Result<seq<Position>, SlotError>)
    ensures r.Ok? ==> |r.value| == |ps|
  {
    match FirstWith(ps, key)
    case Some(i) => Ok(ps[i := Position(key, ps[i].amount + amount)])
    case None =>
      match FirstWith(ps, DEFAULT_KEY)
      case Some(i) => Ok(ps[i := Position(key, amount)])
      case None => Err(ReserveLimit)
  }

  /** `position_of_collateral_in_deposits` and `find_liquidity_in_borrows`, then the test for an amount. */
  function FindSlot(ps: seq<Position>, key: Pubkey): (r: Result<nat, SlotError>)
    ensures r.Ok? ==> r.value < |ps| && ps[r.value].reserve == key && ps[r.value].amount > 0
  {
    if CountActive(ps) == 0 then Err(NoneActive)
    else match FirstWith(ps, key)
      case None => Err(NoSuchSlot)
      case Some(i) => if ps[i].amount == 0 then Err(SlotEmpty) else Ok(i)
  }

  /** `Obligation::withdraw` and `Obligation::repay`: taking everything clears the slot. */
  function Settle(ps: seq<Position>, i: nat, amount: nat): (r: Result<seq<Position>, SlotError>)
    requires i < |ps|
    ensures r.Ok? ==> |r.value| == |ps|
  {
    if amount == ps[i].amount then Ok(ps[i := EMPTY_SLOT])
    else if amount > ps[i].amount then Err(MathOverflow)
    else Ok(ps[i := Position(ps[i].reserve, ps[i].amount - amount)])
  }

  /** What a user may take: something. */
  function TakeFrom(ps: seq<Position>, i: nat, amount: nat): (r: Result<seq<Position>, SlotError>)
    requires i < |ps|
    ensures r.Ok? ==> |r.value| == |ps|
  {
    if amount == 0 then Err(AmountTooSmall) else Settle(ps, i, amount)
  }

  // ----- What each operation does to the slots -----

  ghost predicate SameKeys(before: seq<Position>, after: seq<Position>) {
    |before| == |after| && forall j :: 0 <= j < |before| ==> after[j].reserve == before[j].reserve
  }

  /** Slot `i` keeps its key and something in it, or is cleared; no other slot changes its key. */
  ghost predicate SlotReduced(before: seq<Position>, after: seq<Position>, key: Pubkey, i: nat) {
    && i < |before| == |after| && before[i].reserve == key != DEFAULT_KEY
    && (forall j :: 0 <= j < |before| && j != i ==> after[j].reserve == before[j].reserve)
    && (after[i].reserve == DEFAULT_KEY || (after[i].reserve == key && after[i].amount > 0))
  }

  /** Slot `i` already held the key, or was a hole and no slot held it. */
  ghost predicate SlotCredited(before: seq<Position>, after: seq<Position>, key: Pubkey, i: nat) {
    && i < |before| == |after| && after[i].reserve == key != DEFAULT_KEY
    && (forall j :: 0 <= j < |before| && j != i ==> after[j].reserve == before[j].reserve)
    && (before[i].reserve == key || (before[i].reserve == DEFAULT_KEY && key !in ActiveReserves(before)))
  }

  lemma {:induction false} SettleReduces(ps: seq<Position>, i: nat, amount: nat)
    requires i < |ps| && Active(ps[i]) && Settle(ps, i, amount).Ok?
    ensures SlotReduced(ps, Settle(ps, i, amount).value, ps[i].reserve, i)
    ensures Active(Settle(ps, i, amount).value[i]) <==> amount < ps[i].amount
  {
  }

  lemma {:induction false} AddCredits(ps: seq<Position>, key: Pubkey, amount: nat) returns (i: nat)
    requires key != DEFAULT_KEY && AddTo(ps, key, amount).Ok?
    ensures SlotCredited(ps, AddTo(ps, key, amount).value, key, i)
  {
    if FirstWith(ps, key).Some? {
      i := FirstWith(ps, key).value;
    } else {
      i := FirstWith(ps, DEFAULT_KEY).value;
      ActiveReservesMembers(ps, key);
    }
  }

  lemma {:induction false} SameKeysSameReserves(before: seq<Position>, after: seq<Position>)
    requires SameKeys(before, after)
    ensures ActiveReserves(after) == ActiveReserves(before)
  {
    hide Active;
    if before != [] {
      SameKeysSameReserves(before[..|before| - 1], after[..|after| - 1]);
      SameKeyActive(before[|before| - 1], after[|after| - 1]);
    }
  }

  lemma {:induction false} SameKeyActive(p: Position, q: Position)
    requires p.reserve == q.reserve
    ensures Active(p) == Active(q)
  {
  }

  /** Clearing slot `i` takes exactly its own key out of the active reserves; anything else leaves them. */
  lemma {:induction false} ReducedSlotReserves(before: seq<Position>, after: seq<Position>, key: Pubkey, i: nat)
    requires SlotReduced(before, after, key, i)
    ensures var d, r := ActiveReserves(before), |ActiveReserves(before[..i])|;
      && r < |d| && d[r] == key
      && ActiveReserves(after) == if after[i].reserve == key then d else d[..r] + d[r + 1..]
  {
    var left, right := ActiveReserves(before[..i]), ActiveReserves(before[i + 1..]);
    SameKeysSameReserves(before[..i], after[..i]);
    SameKeysSameReserves(before[i + 1..], after[i + 1..]);
    ActiveReservesAround(before, i);
    ActiveReservesAround(after, i);
    assert ActiveReserves(before) == left + [key] + right;
    assert ActiveReserves(after) == left + ActiveKey(after[i]) + right;
  }

  /** Crediting leaves the active reserves alone, or puts a new key in among them. */
  lemma {:induction false} CreditedSlotReserves(before: seq<Position>, after: seq<Position>, key: Pubkey, i: nat)
    requires SlotCredited(before, after, key, i)
    ensures var d, r := ActiveReserves(before), |ActiveReserves(before[..i])|;
      r <= |d| && ActiveReserves(after) == if key in d then d else d[..r] + [key] + d[r..]
  {
    var left, right := ActiveReserves(before[..i]), ActiveReserves(before[i + 1..]);
    SameKeysSameReserves(before[..i], after[..i]);
    SameKeysSameReserves(before[i + 1..], after[i + 1..]);
    ActiveReservesAround(before, i);
    ActiveReservesAround(after, i);
    assert ActiveKey(after[i]) == [key];
    if before[i].reserve == key {
      assert ActiveReserves(before) == left + [key] + right;
      assert ActiveReserves(before)[|left|] == key;
    } else {
      assert ActiveReserves(before) == left + right;
      assert ActiveReserves(before)[..|left|] == left && ActiveReserves(before)[|left|..] == right;
    }
  }

  // ----- No reserve ever has two slots -----

  lemma {:induction false} CutKeepsDistinct(d: seq<Pubkey>, r: nat)
    requires r < |d| && Distinct(d)
    ensures Distinct(d[..r] + d[r + 1..])
    ensures forall k :: k in d[..r] + d[r + 1..] <==> k in d && k != d[r]
  {
    var cut := d[..r] + d[r + 1..];
    forall i, j | 0 <= i < j < |cut|
      ensures cut[i] != cut[j]
    {
      assert cut[i] == d[if i < r then i else i + 1] && cut[j] == d[if j < r then j else j + 1];
    }
    forall k | k in d && k != d[r]
      ensures k in cut
    {
      var i :| 0 <= i < |d| && d[i] == k;
      assert cut[if i < r then i else i - 1] == k;
    }
  }

  lemma {:induction false} InsertKeepsDistinct(d: seq<Pubkey>, r: nat, key: Pubkey)
    requires r <= |d| && Distinct(d) && key !in d
    ensures Distinct(d[..r] + [key] + d[r..])
  {
    var more := d[..r] + [key] + d[r..];
    forall i, j | 0 <= i < j < |more|
      ensures more[i] != more[j]
    {
      assert i < r ==> more[i] == d[i];
      assert i > r ==> more[i] == d[i - 1];
      assert j < r ==> more[j] == d[j];
      assert j > r ==> more[j] == d[j - 1];
    }
  }

  lemma {:induction false} SettleKeepsDistinct(ps: seq<Position>, i: nat, amount: nat)
    requires i < |ps| && Distinct(ActiveReserves(ps)) && Active(ps[i]) && Settle(ps, i, amount).Ok?
    ensures Distinct(ActiveReserves(Settle(ps, i, amount).value))
  {
    hide ActiveReserves;
    var after := Settle(ps, i, amount).value;
    SettleReduces(ps, i, amount);
    ReducedSlotReserves(ps, after, ps[i].reserve, i);
    CutKeepsDistinct(ActiveReserves(ps), |ActiveReserves(ps[..i])|);
  }

  lemma {:induction false} AddKeepsDistinct(ps: seq<Position>, key: Pubkey, amount: nat)
    requires key != DEFAULT_KEY && Distinct(ActiveReserves(ps)) && AddTo(ps, key, amount).Ok?
    ensures Distinct(ActiveReserves(AddTo(ps, key, amount).value))
  {
    hide ActiveReserves, AddTo, Distinct;
    var i := AddCredits(ps, key, amount);
    CreditedSlotReserves(ps, AddTo(ps, key, amount).value, key, i);
    if key !in ActiveReserves(ps) {
      InsertKeepsDistinct(ActiveReserves(ps), |ActiveReserves(ps[..i])|, key);
    }
  }

  /** What changes the slots of an obligation. Amounts are whatever prices and limits allowed. */
  datatype SlotEvent =
    | DepositCollateral(key: Pubkey, amount: nat)
    | WithdrawCollateral(key: Pubkey, amount: nat)
    | BorrowLiquidity(key: Pubkey, amount: nat)
    | RepayLiquidity(key: Pubkey, amount: nat)
    | LiquidateObligation(repayKey: Pubkey, settled: nat, withdrawKey: Pubkey, withdrawn: nat)
    | RolloverBorrow(source: Pubkey, repaid: nat, target: Pubkey, borrowed: nat)
    | AccrueInterest(key: Pubkey, interest: nat)

  function Withdrawn(o: Obligation, key: Pubkey, amount: nat): (r: Result<Obligation, SlotError>) {
    var i :- FindSlot(o.deposits, key);
    var deposits :- TakeFrom(o.deposits, i, amount);
    Ok(o.(deposits := deposits))
  }

  function Repaid(o: Obligation, key: Pubkey, amount: nat): (r: Result<Obligation, SlotError>) {
    var i :- FindSlot(o.borrows, key);
    var borrows :- TakeFrom(o.borrows, i, amount);
    Ok(o.(borrows := borrows))
  }

  function SlotStep(o: Obligation, e: SlotEvent): (r: Result<Obligation, SlotError>) {
    match e
    case DepositCollateral(key, amount) =>
      var deposits :- AddTo(o.deposits, key, amount);
      Ok(o.(deposits := deposits))
    case WithdrawCollateral(key, amount) => Withdrawn(o, key, amount)
    case BorrowLiquidity(key, amount) =>
      var borrows :- AddTo(o.borrows, key, amount);
      Ok(o.(borrows := borrows))
    case RepayLiquidity(key, amount) => Repaid(o, key, amount)
    case LiquidateObligation(repayKey, settled, withdrawKey, withdrawn) =>
      var o1 :- Repaid(o, repayKey, settled);
      Withdrawn(o1, withdrawKey, withdrawn)
    case RolloverBorrow(source, repaid, target, borrowed) =>
      (match FirstWith(o.borrows, source)
       case None => Err(NoSuchSlot)
       case Some(i) =>
         var settled :- Settle(o.borrows, i, repaid);
         var borrows :- AddTo(settled, target, borrowed);
         Ok(o.(borrows := borrows)))
    case AccrueInterest(key, interest) =>
      (match FirstWith(o.borrows, key)
       case None => Err(NoSuchSlot)
       case Some(i) => Ok(o.(borrows := o.borrows[i := Position(key, o.borrows[i].amount + interest)])))
  }

  /** A reserve lives at an address, and no address is the default key. */
  predicate NamesReserves(e: SlotEvent) {
    match e
    case LiquidateObligation(repayKey, _, withdrawKey, _) => repayKey != DEFAULT_KEY && withdrawKey != DEFAULT_KEY
    case RolloverBorrow(source, _, target, _) => source != DEFAULT_KEY && target != DEFAULT_KEY
    case _ => e.key != DEFAULT_KEY
  }

  ghost predicate OneSlotEach(o: Obligation) {
    Distinct(ActiveReserves(o.deposits)) && Distinct(ActiveReserves(o.borrows))
  }

  lemma {:induction false} WithdrawnKeepsOneSlotEach(o: Obligation, key: Pubkey, amount: nat)
    requires OneSlotEach(o) && key != DEFAULT_KEY && Withdrawn(o, key, amount).Ok?
    ensures OneSlotEach(Withdrawn(o, key, amount).value)
  {
    hide ActiveReserves, Distinct;
    SettleKeepsDistinct(o.deposits, FindSlot(o.deposits, key).value, amount);
  }

  lemma {:induction false} RepaidKeepsOneSlotEach(o: Obligation, key: Pubkey, amount: nat)
    requires OneSlotEach(o) && key != DEFAULT_KEY && Repaid(o, key, amount).Ok?
    ensures OneSlotEach(Repaid(o, key, amount).value)
  {
    hide ActiveReserves, Distinct;
    SettleKeepsDistinct(o.borrows, FindSlot(o.borrows, key).value, amount);
  }

  lemma {:induction false} StepKeepsOneSlotEach(o: Obligation, e: SlotEvent)
    requires OneSlotEach(o) && NamesReserves(e) && SlotStep(o, e).Ok?
    ensures OneSlotEach(SlotStep(o, e).value)
  {
    hide ActiveReserves, Distinct, AddTo, Settle, Withdrawn, Repaid, FirstWith;
    match e
    case DepositCollateral(key, amount) => AddKeepsDistinct(o.deposits, key, amount);
    case WithdrawCollateral(key, amount) => WithdrawnKeepsOneSlotEach(o, key, amount);
    case BorrowLiquidity(key, amount) => AddKeepsDistinct(o.borrows, key, amount);
    case RepayLiquidity(key, amount) => RepaidKeepsOneSlotEach(o, key, amount);
    case LiquidateObligation(repayKey, settled, withdrawKey, withdrawn) =>
      RepaidKeepsOneSlotEach(o, repayKey, settled);
      WithdrawnKeepsOneSlotEach(Repaid(o, repayKey, settled).value, withdrawKey, withdrawn);
    case RolloverBorrow(source, repaid, target, borrowed) =>
      var i := FirstWith(o.borrows, source).value;
      SettleKeepsDistinct(o.borrows, i, repaid);
      AddKeepsDistinct(Settle(o.borrows, i, repaid).value, target, borrowed);
    case AccrueInterest(key, interest) =>
      SameKeysSameReserves(o.borrows, SlotStep(o, e).value.borrows);
  }

  function SlotRun(o: Obligation, es: seq<SlotEvent>): (o': Obligation)
    decreases es
  {
    if es == [] then o
    else SlotRun(match SlotStep(o, es[0]) case Ok(o1) => o1 case Err(_) => o, es[1..])
  }

  lemma {:induction false} RunKeepsOneSlotEach(o: Obligation, es: seq<SlotEvent>)
    requires OneSlotEach(o) && forall i :: 0 <= i < |es| ==> NamesReserves(es[i])
    ensures OneSlotEach(SlotRun(o, es))
    decreases es
  {
    hide SlotStep, OneSlotEach, NamesReserves;
    if es != [] {
      assert NamesReserves(es[0]);
      assert forall i :: 0 <= i < |es[1..]| ==> es[1..][i] == es[i + 1];
      if SlotStep(o, es[0]).Ok? {
        StepKeepsOneSlotEach(o, es[0]);
        RunKeepsOneSlotEach(SlotStep(o, es[0]).value, es[1..]);
      } else {
        RunKeepsOneSlotEach(o, es[1..]);
      }
    }
  }

  /** `Obligation::init`: every slot a hole. */
  function Opened(depositSlots: nat, borrowSlots: nat, referrer: Pubkey): (o: Obligation) {
    Obligation(seq(depositSlots, _ => EMPTY_SLOT), seq(borrowSlots, _ => EMPTY_SLOT), referrer)
  }

  lemma {:induction false} HolesOnly(n: nat)
    ensures ActiveReserves(seq(n, _ => EMPTY_SLOT)) == []
  {
    if n > 0 {
      assert seq(n, _ => EMPTY_SLOT)[..n - 1] == seq(n - 1, _ => EMPTY_SLOT);
      HolesOnly(n - 1);
    }
  }

  /** After any run from an obligation just opened, no reserve has two deposit slots and none has two
      borrow slots: what the handlers rely on when they look for the first slot of a reserve. */
  lemma {:induction false} NoReserveHasTwoSlots(
    depositSlots: nat, borrowSlots: nat, referrer: Pubkey, es: seq<SlotEvent>)
    requires forall i :: 0 <= i < |es| ==> NamesReserves(es[i])
    ensures OneSlotEach(SlotRun(Opened(depositSlots, borrowSlots, referrer), es))
  {
    hide NamesReserves, SlotRun;
    HolesOnly(depositSlots);
    HolesOnly(borrowSlots);
    RunKeepsOneSlotEach(Opened(depositSlots, borrowSlots, referrer), es);
  }
}
