/** How the compound handlers edit an account list between two refreshes of one obligation:
    `handler_deposit_and_withdraw.rs` and `handler_repay_and_withdraw_redeem.rs`. */
module NestedRefresh {
  import opened Common
  import opened ObligationLayout
  import opened ObligationRefresh
  import opened ObligationSlots

  // ----- `find_collateral_in_deposits` -----

  function FindCollateral(ps: seq<Position>, key: Pubkey): (r: Option<nat>) {
    if ps == [] then None else if ps[0].reserve == key then Some(ps[0].amount) else FindCollateral(ps[1..], key)
  }

  function CollateralAmount(ps: seq<Position>, key: Pubkey): (r: nat) {
    match FindCollateral(ps, key) case Some(amount) => amount case None => 0
  }

  lemma {:induction false} FindCollateralFirst(ps: seq<Position>, key: Pubkey, i: nat)
    requires i <= |ps| && forall j :: 0 <= j < i ==> ps[j].reserve != key
    ensures FindCollateral(ps, key) == if i < |ps| && ps[i].reserve == key then Some(ps[i].amount)
                                       else if i == |ps| then None else FindCollateral(ps[i..], key)
  {
    if i == 0 {
      assert ps[0..] == ps;
    } else {
      FindCollateralFirst(ps[1..], key, i - 1);
      if i < |ps| {
        assert ps[1..][i - 1..] == ps[i..];
      }
    }
  }

  lemma {:induction false} DistinctSlots(ps: seq<Position>, i: nat, j: nat)
    requires Distinct(ActiveReserves(ps)) && i < j < |ps| && Active(ps[i])
    ensures ps[i].reserve != ps[j].reserve
  {
    if Active(ps[j]) {
      ActiveReservesAligned(ps);
      assert ps[..j][..i] == ps[..i];
      CountActiveMonotone(ps[..j], i);
      assert CountActive(ps[..i]) < CountActive(ps[..j]);
    }
  }

  /** The handler's test for a full withdrawal is exactly whether the slot was cleared. */
  lemma {:induction false} FullWithdrawalTest(before: seq<Position>, after: seq<Position>, key: Pubkey, i: nat)
    requires Distinct(ActiveReserves(before)) && SlotReduced(before, after, key, i)
    ensures CollateralAmount(after, key) == 0 <==> after[i].reserve == DEFAULT_KEY
  {
    forall j | 0 <= j < |after| && j != i
      ensures after[j].reserve != key
    {
      if after[j].reserve == key {
        if j < i { DistinctSlots(before, j, i); } else { DistinctSlots(before, i, j); }
      }
    }
    if after[i].reserve == key {
      FindCollateralFirst(after, key, i);
    } else {
      FindCollateralFirst(after, key, |after|);
    }
  }

  // ----- deposit_and_withdraw: drop the first occurrence -----

  function RemoveFirst(s: seq<Pubkey>, key: Pubkey): (r: seq<Pubkey>) {
    if s == [] then [] else if s[0] == key then s[1..] else [s[0]] + RemoveFirst(s[1..], key)
  }

  lemma {:induction false} RemoveFirstAt(s: seq<Pubkey>, key: Pubkey, r: nat)
    requires r < |s| && s[r] == key && forall j :: 0 <= j < r ==> s[j] != key
    ensures RemoveFirst(s, key) == s[..r] + s[r + 1..]
  {
    if r > 0 {
      RemoveFirstAt(s[1..], key, r - 1);
      assert [s[0]] + s[1..][..r - 1] == s[..r];
    }
  }

  lemma {:induction false} ConcatAssociates(a: seq<Pubkey>, b: seq<Pubkey>, c: seq<Pubkey>)
    ensures a + b + c == a + (b + c)
  {
  }

  lemma {:induction false} RemoveFirstAppend(s: seq<Pubkey>, t: seq<Pubkey>, key: Pubkey)
    ensures RemoveFirst(s + t, key) == if key in s then RemoveFirst(s, key) + t else s + RemoveFirst(t, key)
  {
    if s == [] {
      assert s + t == t;
    } else {
      assert (s + t)[1..] == s[1..] + t;
      if s[0] != key {
        var head, tail := [s[0]], s[1..];
        RemoveFirstAppend(tail, t, key);
        assert s == head + tail && (key in s <==> key in tail);
        ConcatAssociates(head, RemoveFirst(tail, key), t);
        ConcatAssociates(head, tail, RemoveFirst(t, key));
      }
    }
  }

  lemma {:induction false} RemoveFirstAbsent(s: seq<Pubkey>, key: Pubkey)
    requires key !in s
    ensures RemoveFirst(s, key) == s
  {
    if s != [] {
      RemoveFirstAbsent(s[1..], key);
    }
  }

  /** The `filter_map` with the `withdraw_reserve_found` flag. */
  method DropFirstOccurrence(accounts: seq<Pubkey>, key: Pubkey) returns (kept: seq<Pubkey>)
    ensures kept == RemoveFirst(accounts, key)
  {
    kept := [];
    var withdrawReserveFound := false;
    for i := 0 to |accounts|
      invariant withdrawReserveFound <==> key in accounts[..i]
      invariant kept == RemoveFirst(accounts[..i], key)
    {
      if !withdrawReserveFound {
        RemoveFirstAbsent(accounts[..i], key);
      }
      RemoveFirstAppend(accounts[..i], [accounts[i]], key);
      assert accounts[..i + 1] == accounts[..i] + [accounts[i]];
      assert [accounts[i]][1..] == [];
      if accounts[i] == key && !withdrawReserveFound {
        withdrawReserveFound := true;
      } else {
        kept := kept + [accounts[i]];
      }
    }
    assert accounts[..|accounts|] == accounts;
  }

  lemma {:induction false} RemoveFirstInPrefix(d: seq<Pubkey>, tail: seq<Pubkey>, key: Pubkey, r: nat)
    requires r < |d| && d[r] == key && Distinct(d)
    ensures RemoveFirst(d + tail, key) == (d[..r] + d[r + 1..]) + tail
  {
    RemoveFirstAt(d, key, r);
    RemoveFirstAppend(d, tail, key);
  }

  function EditAfterWithdraw(after: Obligation, key: Pubkey, accounts: seq<Pubkey>): (r: seq<Pubkey>) {
    if CollateralAmount(after.deposits, key) == 0 then RemoveFirst(accounts, key) else accounts
  }

  ghost predicate DepositReduced(before: Obligation, after: Obligation, key: Pubkey, i: nat) {
    SlotReduced(before.deposits, after.deposits, key, i)
    && SameKeys(before.borrows, after.borrows) && after.referrer == before.referrer
  }

  /** Partial or full, whatever the holes, and even when the withdrawn reserve is also borrowed from
      or is also an address among the referrer states: the edited list lines up with the new slots. */
  lemma {:induction false} EditRealignsAfterWithdraw(
    before: Obligation, after: Obligation, key: Pubkey, i: nat, accounts: seq<Pubkey>, pda: ReferrerPda)
    requires LinesUp(before, accounts, pda) && DepositReduced(before, after, key, i)
    requires Distinct(ActiveReserves(before.deposits))
    ensures LinesUp(after, EditAfterWithdraw(after, key, accounts), pda)
  {
    hide LinesUp, Active, ActiveReserves, CountActive, RemoveFirst, CollateralAmount;
    ClientListIsTheOnlyOneThatLinesUp(before, accounts, pda);
    SameKeysSameReserves(before.borrows, after.borrows);
    ReducedSlotReserves(before.deposits, after.deposits, key, i);
    FullWithdrawalTest(before.deposits, after.deposits, key, i);
    var d, r := ActiveReserves(before.deposits), |ActiveReserves(before.deposits[..i])|;
    var tail := BorrowAccounts(FromObligation(before), pda);
    assert BorrowAccounts(FromObligation(after), pda) == tail;
    RemoveFirstInPrefix(d, tail, key, r);
    ClientListIsTheOnlyOneThatLinesUp(after, EditAfterWithdraw(after, key, accounts), pda);
  }

  /** The parts of a list that serves. */
  lemma {:induction false} ServingParts(o: Obligation, remaining: seq<Pubkey>, env: Env) returns (states: seq<Pubkey>)
    requires ListServes(o, remaining, env)
    ensures remaining == ActiveReserves(o.deposits) + (ActiveReserves(o.borrows) + states)
    ensures |states| == if HasReferrer(o) then |ActiveReserves(o.borrows)| else 0
    ensures ChargedStates(ActiveReserves(o.borrows), o.referrer, env) <= states
  {
    hide ActiveReserves, CountActive, ChargedStates, HasReferrer;
    SlicesRebuild(o, remaining);
    ActiveCount(o.borrows);
    states := SliceRemaining(o, remaining).value.referrerStates;
  }

  lemma {:induction false} PartsServe(o: Obligation, states: seq<Pubkey>, env: Env)
    requires |states| == if HasReferrer(o) then |ActiveReserves(o.borrows)| else 0
    requires ChargedStates(ActiveReserves(o.borrows), o.referrer, env) <= states
    ensures ListServes(o, ActiveReserves(o.deposits) + (ActiveReserves(o.borrows) + states), env)
  {
    hide ActiveReserves, CountActive, ChargedStates, HasReferrer;
    var d, b := ActiveReserves(o.deposits), ActiveReserves(o.borrows);
    ActiveCount(o.deposits);
    ActiveCount(o.borrows);
    var remaining := d + (b + states);
    assert |remaining| == ExpectedRemaining(o);
    SlicesRebuild(o, remaining);
    var s := SliceRemaining(o, remaining).value;
    SameParts(s.deposits, s.borrows + s.referrerStates, d, b + states);
    SameParts(s.borrows, s.referrerStates, b, states);
  }

  /** More than the client's own list: whatever list served before the withdrawal serves after the edit. */
  lemma {:induction false} EditKeepsServing(
    before: Obligation, after: Obligation, key: Pubkey, i: nat, accounts: seq<Pubkey>, env: Env)
    requires ListServes(before, accounts, env) && DepositReduced(before, after, key, i)
    requires Distinct(ActiveReserves(before.deposits))
    ensures ListServes(after, EditAfterWithdraw(after, key, accounts), env)
    ensures key in accounts
  {
    hide ListServes, Active, ActiveReserves, CountActive, RemoveFirst, CollateralAmount, ChargedStates;
    var states := ServingParts(before, accounts, env);
    SameKeysSameReserves(before.borrows, after.borrows);
    ReducedSlotReserves(before.deposits, after.deposits, key, i);
    FullWithdrawalTest(before.deposits, after.deposits, key, i);
    var d, r := ActiveReserves(before.deposits), |ActiveReserves(before.deposits[..i])|;
    var tail := ActiveReserves(before.borrows) + states;
    RemoveFirstInPrefix(d, tail, key, r);
    PartsServe(after, states, env);
    assert accounts[r] == d[r] == key;
  }

  // ----- repay_and_withdraw: drop the last occurrence and the repaid referrer state -----

  /** The reverse `scan`: from the end, everything but `skip` and the first `repayKey` met. */
  function KeepFromEnd(s: seq<Pubkey>, repayKey: Pubkey, skip: Pubkey, found: bool): (r: seq<Pubkey>) {
    if s == [] then []
    else
      var account := s[|s| - 1];
      KeepFromEnd(s[..|s| - 1], repayKey, skip, found || account == repayKey)
      + KeptOne(account, repayKey, skip, found)
  }

  function KeptOne(account: Pubkey, repayKey: Pubkey, skip: Pubkey, found: bool): (r: seq<Pubkey>) {
    if account != skip && (account != repayKey || found) then [account] else []
  }

  method DropRepaidAccounts(accounts: seq<Pubkey>, repayKey: Pubkey, skip: Pubkey) returns (kept: seq<Pubkey>)
    ensures kept == KeepFromEnd(accounts, repayKey, skip, false)
  {
    kept := [];
    var foundRepayReserve := false;
    var i := |accounts|;
    assert accounts[..i] == accounts;
    while i > 0
      invariant 0 <= i <= |accounts|
      invariant KeepFromEnd(accounts, repayKey, skip, false) ==
                KeepFromEnd(accounts[..i], repayKey, skip, foundRepayReserve) + kept
    {
      hide KeepFromEnd;
      i := i - 1;
      var account := accounts[i];
      assert accounts[..i + 1] == accounts[..i] + [account];
      KeepFromEndLast(accounts[..i], account, repayKey, skip, foundRepayReserve);
      var isRepayReserve := account == repayKey;
      var accountToKeep := account != skip && (!isRepayReserve || foundRepayReserve);
      ConcatAssociates(KeepFromEnd(accounts[..i], repayKey, skip, foundRepayReserve || isRepayReserve),
                       if accountToKeep then [account] else [], kept);
      foundRepayReserve := foundRepayReserve || isRepayReserve;
      if accountToKeep {
        kept := [account] + kept;
      }
    }
  }

  lemma {:induction false} KeepFromEndLast(
    s: seq<Pubkey>, last: Pubkey, repayKey: Pubkey, skip: Pubkey, found: bool)
    ensures KeepFromEnd(s + [last], repayKey, skip, found) ==
            KeepFromEnd(s, repayKey, skip, found || last == repayKey) + KeptOne(last, repayKey, skip, found)
  {
    assert (s + [last])[..|s|] == s;
  }

  lemma {:induction false} KeepFromEndAppend(
    s: seq<Pubkey>, t: seq<Pubkey>, repayKey: Pubkey, skip: Pubkey, found: bool)
    ensures KeepFromEnd(s + t, repayKey, skip, found) ==
            KeepFromEnd(s, repayKey, skip, found || repayKey in t) + KeepFromEnd(t, repayKey, skip, found)
  {
    if t == [] {
      assert s + t == s;
    } else {
      hide KeepFromEnd, KeptOne;
      var init, last := t[..|t| - 1], t[|t| - 1];
      var later := found || last == repayKey;
      assert t == init + [last];
      assert s + t == s + init + [last];
      assert later || repayKey in init <==> found || repayKey in t;
      KeepFromEndLast(s + init, last, repayKey, skip, found);
      KeepFromEndLast(init, last, repayKey, skip, found);
      KeepFromEndAppend(s, init, repayKey, skip, later);
      ConcatAssociates(KeepFromEnd(s, repayKey, skip, later || repayKey in init),
                       KeepFromEnd(init, repayKey, skip, later), KeptOne(last, repayKey, skip, found));
    }
  }

  lemma {:induction false} KeepFromEndKeepsAll(s: seq<Pubkey>, repayKey: Pubkey, skip: Pubkey, found: bool)
    requires skip !in s && (found || repayKey !in s)
    ensures KeepFromEnd(s, repayKey, skip, found) == s
  {
    if s != [] {
      var init, last := s[..|s| - 1], s[|s| - 1];
      assert s == init + [last];
      KeepFromEndLast(init, last, repayKey, skip, found);
      KeepFromEndKeepsAll(init, repayKey, skip, found || last == repayKey);
    }
  }

  lemma {:induction false} KeepFromEndOne(account: Pubkey, repayKey: Pubkey, skip: Pubkey, found: bool)
    ensures KeepFromEnd([account], repayKey, skip, found) == KeptOne(account, repayKey, skip, found)
  {
    assert [account][..0] == [];
  }

  /** One dropped entry: the only `repayKey` of a list, or the only `skip`. */
  lemma {:induction false} KeepFromEndDropsOne(s: seq<Pubkey>, j: nat, repayKey: Pubkey, skip: Pubkey, found: bool)
    requires j < |s| && Distinct(s)
    requires s[j] == skip || (s[j] == repayKey && !found)
    requires s[j] == skip ==> found || repayKey !in s
    requires s[j] != skip ==> skip !in s
    ensures KeepFromEnd(s, repayKey, skip, found) == s[..j] + s[j + 1..]
  {
    hide KeepFromEnd;
    var left, right := s[..j], s[j + 1..];
    assert s == left + [s[j]] + right;
    assert s[j] !in left && s[j] !in right;
    assert repayKey in right ==> repayKey in s;
    assert repayKey in left ==> repayKey in s;
    assert skip in left || skip in right ==> skip in s;
    KeepFromEndAppend(left + [s[j]], right, repayKey, skip, found);
    KeepFromEndAppend(left, [s[j]], repayKey, skip, found || repayKey in right);
    KeepFromEndOne(s[j], repayKey, skip, found || repayKey in right);
    KeepFromEndKeepsAll(right, repayKey, skip, found);
    KeepFromEndKeepsAll(left, repayKey, skip, found || repayKey in right || repayKey in [s[j]]);
  }

  /** What the handlers rely on: no reserve has two slots, and derived referrer states are pairwise
      distinct and no reserves of the obligation. */
  ghost predicate SeparateAddresses(o: Obligation, pda: ReferrerPda) {
    var d, b := ActiveReserves(o.deposits), ActiveReserves(o.borrows);
    && OneSlotEach(o)
    && (HasReferrer(o) ==>
        var states := ReferrerStates(o.referrer, b, pda);
        Distinct(states) && forall j :: 0 <= j < |states| ==> states[j] !in d && states[j] !in b)
  }

  function EditAfterRepay(
    before: Obligation, after: Obligation, key: Pubkey, accounts: seq<Pubkey>, pda: ReferrerPda)
    : (r: seq<Pubkey>)
  {
    if CountActive(before.borrows) == CountActive(after.borrows) then accounts
    else KeepFromEnd(accounts, key, if HasReferrer(before) then pda(before.referrer, key) else DEFAULT_KEY, false)
  }

  ghost predicate BorrowReduced(before: Obligation, after: Obligation, key: Pubkey, i: nat) {
    SlotReduced(before.borrows, after.borrows, key, i)
    && SameKeys(before.deposits, after.deposits) && after.referrer == before.referrer
  }

  lemma {:induction false} ActiveReservesNonDefault(ps: seq<Position>)
    ensures DEFAULT_KEY !in ActiveReserves(ps)
  {
    if ps != [] {
      ActiveReservesNonDefault(ps[..|ps| - 1]);
    }
  }

  lemma {:induction false} ReferrerStatesCut(referrer: Pubkey, b: seq<Pubkey>, pda: ReferrerPda, r: nat)
    requires r < |b|
    ensures ReferrerStates(referrer, b[..r] + b[r + 1..], pda) ==
            ReferrerStates(referrer, b, pda)[..r] + ReferrerStates(referrer, b, pda)[r + 1..]
  {
  }

  /** A repaid-in-full borrow loses its account and its referrer state, even when the same reserve is
      also a deposit; a partial repayment leaves the list alone. Either way the list lines up. */
  lemma {:induction false} EditRealignsAfterRepay(
    before: Obligation, after: Obligation, key: Pubkey, i: nat, accounts: seq<Pubkey>, pda: ReferrerPda)
    requires LinesUp(before, accounts, pda) && BorrowReduced(before, after, key, i)
    requires SeparateAddresses(before, pda)
    ensures LinesUp(after, EditAfterRepay(before, after, key, accounts, pda), pda)
  {
    hide LinesUp, Active, ActiveReserves, CountActive, KeepFromEnd, BorrowAccounts;
    ClientListIsTheOnlyOneThatLinesUp(before, accounts, pda);
    SameKeysSameReserves(before.deposits, after.deposits);
    ReducedSlotReserves(before.borrows, after.borrows, key, i);
    ActiveCount(before.borrows);
    ActiveCount(after.borrows);
    var b, r := ActiveReserves(before.borrows), |ActiveReserves(before.borrows[..i])|;
    FullRepayEdit(before, key, r, pda);
    assert FromObligation(after) == FromObligation(before).(borrowReserves := ActiveReserves(after.borrows));
    ClientListIsTheOnlyOneThatLinesUp(after, EditAfterRepay(before, after, key, accounts, pda), pda);
  }

  lemma {:induction false} FullRepayEdit(o: Obligation, key: Pubkey, r: nat, pda: ReferrerPda)
    requires SeparateAddresses(o, pda)
    requires r < |ActiveReserves(o.borrows)| && ActiveReserves(o.borrows)[r] == key
    ensures var info, b := FromObligation(o), ActiveReserves(o.borrows);
      var skip := if HasReferrer(o) then pda(o.referrer, key) else DEFAULT_KEY;
      KeepFromEnd(RemainingAccounts(info, pda), key, skip, false)
      == RemainingAccounts(info.(borrowReserves := b[..r] + b[r + 1..]), pda)
  {
    hide Active, ActiveReserves, KeepFromEnd;
    var d, b := ActiveReserves(o.deposits), ActiveReserves(o.borrows);
    var skip := if HasReferrer(o) then pda(o.referrer, key) else DEFAULT_KEY;
    var states := if HasReferrer(o) then ReferrerStates(o.referrer, b, pda) else [];
    ActiveReservesNonDefault(o.deposits);
    ActiveReservesNonDefault(o.borrows);
    assert skip !in d && skip !in b by {
      if HasReferrer(o) {
        assert states[r] == skip;
      }
    }
    assert key !in states;
    KeepFromEndAppend(d, b + states, key, skip, false);
    KeepFromEndAppend(b, states, key, skip, false);
    KeepFromEndKeepsAll(d, key, skip, true);
    KeepFromEndDropsOne(b, r, key, skip, false);
    if HasReferrer(o) {
      KeepFromEndDropsOne(states, r, key, skip, false);
      ReferrerStatesCut(o.referrer, b, pda, r);
    } else {
      KeepFromEndKeepsAll(states, key, skip, false);
    }
  }

  // ----- The lists the client helpers attach to the compound instructions -----

  ghost predicate DepositCredited(before: Obligation, after: Obligation, key: Pubkey, i: nat) {
    SlotCredited(before.deposits, after.deposits, key, i)
    && SameKeys(before.borrows, after.borrows) && after.referrer == before.referrer
  }

  /** `helpers/compound.rs` attaches the deposit reserves alone, read before the deposit. The first
      nested refresh takes that list exactly when the deposit opened no slot and nothing is borrowed. */
  lemma {:induction false} CompoundListAcceptedIff(
    before: Obligation, after: Obligation, key: Pubkey, i: nat, pda: ReferrerPda)
    requires DepositCredited(before, after, key, i)
    ensures var list := FromObligation(before).depositReserves;
      && (SliceRemaining(after, list).Ok? <==> key in list && CountActive(before.borrows) == 0)
      && (SliceRemaining(after, list).Ok? ==> LinesUp(after, list, pda))
  {
    hide LinesUp, Active, ActiveReserves, CountActive;
    var list := ActiveReserves(before.deposits);
    CreditedSlotReserves(before.deposits, after.deposits, key, i);
    SameKeysSameReserves(before.borrows, after.borrows);
    ActiveCount(before.borrows);
    ActiveCount(after.borrows);
    ActiveCount(before.deposits);
    ActiveCount(after.deposits);
    ClientListIsTheOnlyOneThatLinesUp(after, list, pda);
    if CountActive(before.borrows) == 0 {
      assert BorrowAccounts(FromObligation(after), pda) == [];
    }
  }

  /** `helpers/repay.rs` does the same for repay-and-withdraw. After the repayment the handler takes
      the edited list exactly when the only borrow was repaid in full and its reserve is no deposit. */
  lemma {:induction false} RepayListAcceptedIff(
    before: Obligation, after: Obligation, key: Pubkey, i: nat, pda: ReferrerPda)
    requires BorrowReduced(before, after, key, i) && SeparateAddresses(before, pda)
    ensures var list := FromObligation(before).depositReserves;
      var edited := EditAfterRepay(before, after, key, list, pda);
      && (SliceRemaining(after, edited).Ok? <==>
          after.borrows[i].reserve == DEFAULT_KEY && CountActive(before.borrows) == 1 && key !in list)
      && (SliceRemaining(after, edited).Ok? ==> edited == list && ActiveReserves(after.borrows) == [])
  {
    hide Active, ActiveReserves, CountActive, KeepFromEnd;
    var d, b := ActiveReserves(before.deposits), ActiveReserves(before.borrows);
    var skip := if HasReferrer(before) then pda(before.referrer, key) else DEFAULT_KEY;
    SameKeysSameReserves(before.deposits, after.deposits);
    ReducedSlotReserves(before.borrows, after.borrows, key, i);
    ActiveCount(before.borrows);
    ActiveCount(after.borrows);
    ActiveCount(before.deposits);
    ActiveCount(after.deposits);
    ActiveReservesNonDefault(before.deposits);
    assert skip !in d by {
      if HasReferrer(before) {
        var r := |ActiveReserves(before.borrows[..i])|;
        assert ReferrerStates(before.referrer, b, pda)[r] == skip;
      }
    }
    if after.borrows[i].reserve == DEFAULT_KEY {
      if key in d {
        var j :| 0 <= j < |d| && d[j] == key;
        KeepFromEndDropsOne(d, j, key, skip, false);
      } else {
        KeepFromEndKeepsAll(d, key, skip, false);
      }
    }
  }
}
