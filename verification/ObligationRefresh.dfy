/** `refresh_obligation`: the handler's count check and cuts, then one pass over the borrow slots and
    one over the deposit slots (`lending_operations.rs`), each slot against the next account. */
module ObligationRefresh {
  import opened Common
  import opened ObligationLayout

  /** An obligation during a transaction: its slots, whether it is up to date, and which reserves are. */
  datatype Chain = Chain(obligation: Obligation, upToDate: bool, current: set<Pubkey>)

  /** `charging`: the reserves whose absolute referral rate is not zero; empty when the market takes no
      referral fee. `pda` is the derivation of referrer token states. */
  datatype Env = Env(pda: ReferrerPda, charging: set<Pubkey>)

  /** `check_obligation_collateral_deposit_reserve`, slot by slot. */
  function CheckDeposits(ps: seq<Position>, accounts: seq<Pubkey>, current: set<Pubkey>): (r: Option<RefreshError>) {
    if ps == [] then None
    else if !Active(ps[0]) then CheckDeposits(ps[1..], accounts, current)
    else if accounts == [] || accounts[0] != ps[0].reserve then Some(InvalidAccountInput)
    else if ps[0].reserve !in current then Some(ReserveStale)
    else CheckDeposits(ps[1..], accounts[1..], current)
  }

  /** Whether a borrow asks for the next referrer state: `accumulate_referrer_fees` returns early, without
      advancing the iterator, for a reserve whose referral rate is zero. */
  predicate TakesState(referrer: Pubkey, reserve: Pubkey, env: Env) {
    referrer != DEFAULT_KEY && reserve in env.charging
  }

  /** `check_obligation_liquidity_borrow_reserve` and `validate_referrer_token_state`, slot by slot. */
  function CheckBorrows(
    ps: seq<Position>, accounts: seq<Pubkey>, states: seq<Pubkey>, referrer: Pubkey, current: set<Pubkey>, env: Env)
    : (r: Option<RefreshError>)
    decreases ps
  {
    if ps == [] then None
    else if !Active(ps[0]) then CheckBorrows(ps[1..], accounts, states, referrer, current, env)
    else if accounts == [] || accounts[0] != ps[0].reserve then Some(InvalidAccountInput)
    else if ps[0].reserve !in current then Some(ReserveStale)
    else if !TakesState(referrer, ps[0].reserve, env) then
      CheckBorrows(ps[1..], accounts[1..], states, referrer, current, env)
    else if states == [] then Some(InvalidAccountInput)
    else if states[0] != env.pda(referrer, ps[0].reserve) then Some(ReferrerAccountMismatch)
    else CheckBorrows(ps[1..], accounts[1..], states[1..], referrer, current, env)
  }

  /** The whole instruction: borrows first, then deposits. */
  function Refresh(c: Chain, remaining: seq<Pubkey>, env: Env): (r: Result<Chain, RefreshError>) {
    var o := c.obligation;
    var s :- SliceRemaining(o, remaining);
    match CheckBorrows(o.borrows, s.borrows, s.referrerStates, o.referrer, c.current, env)
    case Some(e) => Err(e)
    case None =>
      match CheckDeposits(o.deposits, s.deposits, c.current)
      case Some(e) => Err(e)
      case None => Ok(c.(upToDate := true))
  }

  // ----- The handler, on the loaded account -----

  /** The loaded obligation, its `last_update` mark, and the marks of the reserves. */
  class ObligationAccount {
    var data: Obligation
    var upToDate: bool
    var current: set<Pubkey>

    constructor (data: Obligation, current: set<Pubkey>)
      ensures View() == Chain(data, false, current)
    {
      this.data, this.upToDate, this.current := data, false, current;
    }

    ghost function View(): (c: Chain)
      reads this
    {
      Chain(data, upToDate, current)
    }

    /** `handler_refresh_obligation::process`. */
    method RefreshObligation(remaining: seq<Pubkey>, env: Env) returns (r: Result<(), RefreshError>)
      modifies this`upToDate
      ensures match Refresh(old(View()), remaining, env)
              case Ok(c) => r == Ok(()) && View() == c
              case Err(e) => r == Err(e) && View() == old(View())
    {
      hide CountActive, Active;
      var borrowCount := CountActive(data.borrows);
      var depositCount := CountActive(data.deposits);
      var reservesCount := borrowCount + depositCount;
      var expected := if HasReferrer(data) then reservesCount + borrowCount else reservesCount;
      if |remaining| != expected {
        return Err(InvalidAccountInput);
      }
      var borrows := RefreshBorrows(data.borrows, remaining[depositCount..][..borrowCount], remaining[reservesCount..],
                                    data.referrer, current, env);
      if borrows.Some? {
        return Err(borrows.value);
      }
      var deposits := RefreshDeposits(data.deposits, remaining[..depositCount], current);
      if deposits.Some? {
        return Err(deposits.value);
      }
      upToDate := true;
      return Ok(());
    }
  }

  /** The loop of `refresh_obligation_deposits` with its iterator. */
  method RefreshDeposits(
    ps: seq<Position>, accounts: seq<Pubkey>, current: set<Pubkey>)
    returns (r: Option<RefreshError>)
    ensures r == CheckDeposits(ps, accounts, current)
  {
    var next := 0;
    assert ps[0..] == ps && accounts[0..] == accounts;
    for i := 0 to |ps|
      invariant next <= |accounts|
      invariant CheckDeposits(ps, accounts, current) == CheckDeposits(ps[i..], accounts[next..], current)
    {
      assert ps[i..][1..] == ps[i + 1..];
      if Active(ps[i]) {
        if next == |accounts| || accounts[next] != ps[i].reserve {
          return Some(InvalidAccountInput);
        }
        if ps[i].reserve !in current {
          return Some(ReserveStale);
        }
        assert accounts[next..][1..] == accounts[next + 1..];
        next := next + 1;
      }
    }
    return None;
  }

  /** The loop of `refresh_obligation_borrows` with its two iterators. */
  method RefreshBorrows(
    ps: seq<Position>, accounts: seq<Pubkey>, states: seq<Pubkey>, referrer: Pubkey, current: set<Pubkey>, env: Env)
    returns (r: Option<RefreshError>)
    ensures r == CheckBorrows(ps, accounts, states, referrer, current, env)
  {
    hide TakesState;
    var next, nextState := 0, 0;
    assert ps[0..] == ps && accounts[0..] == accounts && states[0..] == states;
    for i := 0 to |ps|
      invariant next <= |accounts| && nextState <= |states|
      invariant CheckBorrows(ps, accounts, states, referrer, current, env)
             == CheckBorrows(ps[i..], accounts[next..], states[nextState..], referrer, current, env)
    {
      assert ps[i..][1..] == ps[i + 1..];
      if Active(ps[i]) {
        var reserve := ps[i].reserve;
        if next == |accounts| || accounts[next] != reserve {
          return Some(InvalidAccountInput);
        }
        if reserve !in current {
          return Some(ReserveStale);
        }
        assert accounts[next..][1..] == accounts[next + 1..];
        next := next + 1;
        if TakesState(referrer, reserve, env) {
          if nextState == |states| {
            return Some(InvalidAccountInput);
          }
          if states[nextState] != env.pda(referrer, reserve) {
            return Some(ReferrerAccountMismatch);
          }
          assert states[nextState..][1..] == states[nextState + 1..];
          nextState := nextState + 1;
        }
      }
    }
    return None;
  }

  // ----- Exactly which lists are accepted -----

  lemma {:induction false} ActiveReservesCons(ps: seq<Position>)
    requires ps != []
    ensures ActiveReserves(ps) == ActiveKey(ps[0]) + ActiveReserves(ps[1..])
  {
    hide Active, ActiveReserves;
    assert ps == [ps[0]] + ps[1..];
    ActiveReservesAppend([ps[0]], ps[1..]);
    ActiveReservesOne(ps[0]);
  }

  /** The referrer states the borrows ask for, in order. */
  function ChargedStates(reserves: seq<Pubkey>, referrer: Pubkey, env: Env): (states: seq<Pubkey>)
    ensures |states| <= |reserves|
  {
    if reserves == [] then []
    else (if TakesState(referrer, reserves[0], env) then [env.pda(referrer, reserves[0])] else [])
         + ChargedStates(reserves[1..], referrer, env)
  }

  ghost predicate AllCurrent(keys: seq<Pubkey>, current: set<Pubkey>) { forall k :: k in keys ==> k in current }

  lemma {:induction false} AllCurrentCons(key: Pubkey, keys: seq<Pubkey>, current: set<Pubkey>)
    ensures AllCurrent([key] + keys, current) <==> key in current && AllCurrent(keys, current)
  {
    assert key in [key] + keys;
    if AllCurrent([key] + keys, current) {
      forall k | k in keys
        ensures k in current
      {
        assert k in [key] + keys;
      }
    }
  }

  lemma {:induction false} HeadAndTail<T>(s: seq<T>, key: T, keys: seq<T>)
    ensures s == [key] + keys <==> s != [] && s[0] == key && s[1..] == keys
  {
    if s != [] && s[0] == key && s[1..] == keys {
      assert s == [s[0]] + s[1..];
    }
  }

  /** What `CheckDeposits` asks for. */
  ghost predicate DepositsServed(ps: seq<Position>, accounts: seq<Pubkey>, current: set<Pubkey>) {
    accounts == ActiveReserves(ps) && AllCurrent(ActiveReserves(ps), current)
  }

  lemma {:induction false} CheckDepositsIff(ps: seq<Position>, accounts: seq<Pubkey>, current: set<Pubkey>)
    requires |accounts| == |ActiveReserves(ps)|
    ensures CheckDeposits(ps, accounts, current).None? <==> DepositsServed(ps, accounts, current)
  {
    hide ActiveReserves, AllCurrent;
    if ps == [] {
      assert ActiveReserves([]) == [] by { ActiveCount([]); }
      assert AllCurrent([], current) by { NothingToRefresh(current); }
    } else {
      ActiveReservesCons(ps);
      if Active(ps[0]) {
        var rest := ActiveReserves(ps[1..]);
        AllCurrentCons(ps[0].reserve, rest, current);
        HeadAndTail(accounts, ps[0].reserve, rest);
        CheckDepositsIff(ps[1..], accounts[1..], current);
      } else {
        assert ActiveReserves(ps) == ActiveReserves(ps[1..]);
        CheckDepositsIff(ps[1..], accounts, current);
      }
    }
  }

  lemma {:induction false} NothingToRefresh(current: set<Pubkey>)
    ensures AllCurrent([], current)
  {
  }

  /** What `CheckBorrows` asks for: referrer states in front that it consumes, then anything. */
  ghost predicate BorrowsServed(
    ps: seq<Position>, accounts: seq<Pubkey>, states: seq<Pubkey>, referrer: Pubkey, current: set<Pubkey>, env: Env)
  {
    && accounts == ActiveReserves(ps) && AllCurrent(ActiveReserves(ps), current)
    && ChargedStates(ActiveReserves(ps), referrer, env) <= states
  }

  lemma {:induction false} PrefixCons<T>(head: T, rest: seq<T>, s: seq<T>)
    ensures [head] + rest <= s <==> s != [] && s[0] == head && rest <= s[1..]
  {
    var more := [head] + rest;
    assert more[1..] == rest;
    if more <= s {
      assert s[0] == more[0];
      assert s[1..][..|rest|] == s[..|more|][1..];
    }
  }

  lemma {:induction false} ChargedStatesHead(key: Pubkey, keys: seq<Pubkey>, referrer: Pubkey, env: Env)
    ensures ChargedStates([key] + keys, referrer, env) ==
            if TakesState(referrer, key, env) then [env.pda(referrer, key)] + ChargedStates(keys, referrer, env)
            else ChargedStates(keys, referrer, env)
  {
    assert ([key] + keys)[1..] == keys;
  }

  lemma {:induction false} ChargedStatesCons(
    key: Pubkey, keys: seq<Pubkey>, states: seq<Pubkey>, referrer: Pubkey, env: Env)
    ensures ChargedStates([key] + keys, referrer, env) <= states <==>
            if !TakesState(referrer, key, env) then ChargedStates(keys, referrer, env) <= states
            else states != [] && states[0] == env.pda(referrer, key)
                 && ChargedStates(keys, referrer, env) <= states[1..]
  {
    hide TakesState, ChargedStates;
    ChargedStatesHead(key, keys, referrer, env);
    PrefixCons(env.pda(referrer, key), ChargedStates(keys, referrer, env), states);
  }

  lemma {:induction false} CheckBorrowsIff(
    ps: seq<Position>, accounts: seq<Pubkey>, states: seq<Pubkey>, referrer: Pubkey, current: set<Pubkey>, env: Env)
    requires |accounts| == |ActiveReserves(ps)|
    ensures CheckBorrows(ps, accounts, states, referrer, current, env).None? <==>
            BorrowsServed(ps, accounts, states, referrer, current, env)
  {
    hide ActiveReserves, AllCurrent, TakesState, ChargedStates;
    if ps == [] {
      assert ActiveReserves([]) == [] by { ActiveCount([]); }
      NothingToRefresh(current);
      NothingCharged(referrer, env);
    } else {
      ActiveReservesCons(ps);
      if Active(ps[0]) {
        var key, rest := ps[0].reserve, ActiveReserves(ps[1..]);
        AllCurrentCons(key, rest, current);
        HeadAndTail(accounts, key, rest);
        ChargedStatesCons(key, rest, states, referrer, env);
        CheckBorrowsIff(ps[1..], accounts[1..], states, referrer, current, env);
        if states != [] {
          CheckBorrowsIff(ps[1..], accounts[1..], states[1..], referrer, current, env);
        }
      } else {
        assert ActiveReserves(ps) == ActiveReserves(ps[1..]);
        CheckBorrowsIff(ps[1..], accounts, states, referrer, current, env);
      }
    }
  }

  lemma {:induction false} NothingCharged(referrer: Pubkey, env: Env)
    ensures ChargedStates([], referrer, env) == []
  {
  }

  function Keys(info: ObligationInfo): (keys: seq<Pubkey>) { info.depositReserves + info.borrowReserves }

  /** The list names every active slot's reserve in slot order, deposits before borrows, then as many
      referrer states as there are borrows, of which those in front are the ones that are asked for. */
  ghost predicate ListServes(o: Obligation, remaining: seq<Pubkey>, env: Env) {
    match SliceRemaining(o, remaining)
    case Err(_) => false
    case Ok(s) =>
      && s.deposits == ActiveReserves(o.deposits) && s.borrows == ActiveReserves(o.borrows)
      && ChargedStates(ActiveReserves(o.borrows), o.referrer, env) <= s.referrerStates
  }

  /** Exact acceptance: the list serves every slot and every active reserve is up to date. */
  lemma {:induction false} RefreshAcceptedIff(c: Chain, remaining: seq<Pubkey>, env: Env)
    ensures Refresh(c, remaining, env).Ok? <==>
            ListServes(c.obligation, remaining, env) && AllCurrent(Keys(FromObligation(c.obligation)), c.current)
    ensures Refresh(c, remaining, env).Ok? ==> Refresh(c, remaining, env).value == c.(upToDate := true)
  {
    hide ActiveReserves, CountActive, ChargedStates, CheckBorrows, CheckDeposits;
    var o := c.obligation;
    if |remaining| == ExpectedRemaining(o) {
      var s := SliceRemaining(o, remaining).value;
      SlicesRebuild(o, remaining);
      ActiveCount(o.borrows);
      ActiveCount(o.deposits);
      CheckBorrowsIff(o.borrows, s.borrows, s.referrerStates, o.referrer, c.current, env);
      CheckDepositsIff(o.deposits, s.deposits, c.current);
    }
  }

  // ----- When the client's list is accepted -----

  /** Charging borrows come first among the active borrows. */
  ghost predicate ReferralsInOrder(o: Obligation, env: Env) {
    ChargingFirst(ActiveReserves(o.borrows), o.referrer, env)
  }

  ghost predicate ChargingFirst(reserves: seq<Pubkey>, referrer: Pubkey, env: Env) {
    forall i, j :: 0 <= i < j < |reserves| && TakesState(referrer, reserves[j], env) ==>
      TakesState(referrer, reserves[i], env)
  }

  /** Derived addresses keep the referrer states of different reserves apart. */
  ghost predicate SeparateStates(o: Obligation, env: Env) {
    HasReferrer(o) ==> Distinct(ReferrerStates(o.referrer, ActiveReserves(o.borrows), env.pda))
  }

  lemma {:induction false} NoneCharged(reserves: seq<Pubkey>, referrer: Pubkey, env: Env)
    ensures ChargedStates(reserves, referrer, env) == [] <==>
            forall i :: 0 <= i < |reserves| ==> !TakesState(referrer, reserves[i], env)
  {
    hide TakesState;
    if reserves != [] {
      NoneCharged(reserves[1..], referrer, env);
      assert forall i :: 0 <= i < |reserves[1..]| ==> reserves[1..][i] == reserves[i + 1];
      if !TakesState(referrer, reserves[0], env) && ChargedStates(reserves[1..], referrer, env) == [] {
        forall i | 0 <= i < |reserves|
          ensures !TakesState(referrer, reserves[i], env)
        {
          if i > 0 {
            assert reserves[i] == reserves[1..][i - 1];
          }
        }
      }
    }
  }

  lemma {:induction false} ChargedStateIsState(reserves: seq<Pubkey>, referrer: Pubkey, env: Env)
    requires ChargedStates(reserves, referrer, env) != []
    ensures exists i :: 0 <= i < |reserves| && TakesState(referrer, reserves[i], env)
              && env.pda(referrer, reserves[i]) == ChargedStates(reserves, referrer, env)[0]
  {
    hide TakesState;
    if !TakesState(referrer, reserves[0], env) {
      ChargedStateIsState(reserves[1..], referrer, env);
      var i :| 0 <= i < |reserves[1..]| && TakesState(referrer, reserves[1..][i], env)
        && env.pda(referrer, reserves[1..][i]) == ChargedStates(reserves[1..], referrer, env)[0];
      assert reserves[i + 1] == reserves[1..][i];
    }
  }

  lemma {:induction false} ChargingFirstCons(reserves: seq<Pubkey>, referrer: Pubkey, env: Env)
    requires reserves != []
    ensures ChargingFirst(reserves, referrer, env) <==>
            if TakesState(referrer, reserves[0], env) then ChargingFirst(reserves[1..], referrer, env)
            else forall i :: 0 <= i < |reserves| ==> !TakesState(referrer, reserves[i], env)
  {
    hide TakesState;
    var rest := reserves[1..];
    assert forall i :: 0 <= i < |rest| ==> rest[i] == reserves[i + 1];
    if TakesState(referrer, reserves[0], env) && ChargingFirst(rest, referrer, env) {
      forall i, j | 0 <= i < j < |reserves| && TakesState(referrer, reserves[j], env)
        ensures TakesState(referrer, reserves[i], env)
      {
        if i > 0 {
          assert TakesState(referrer, rest[j - 1], env);
        }
      }
    }
  }

  /** Behind a borrow that takes no state, charged states cannot match: the iterator is one behind. */
  lemma {:induction false} OneBehind(key: Pubkey, rest: seq<Pubkey>, referrer: Pubkey, env: Env)
    requires Distinct(ReferrerStates(referrer, [key] + rest, env.pda))
    ensures ChargedStates(rest, referrer, env) <= ReferrerStates(referrer, [key] + rest, env.pda) <==>
            ChargedStates(rest, referrer, env) == []
  {
    hide TakesState, ChargedStates;
    var states, charged := ReferrerStates(referrer, [key] + rest, env.pda), ChargedStates(rest, referrer, env);
    if charged != [] {
      ChargedStateIsState(rest, referrer, env);
      var i :| 0 <= i < |rest| && TakesState(referrer, rest[i], env) && env.pda(referrer, rest[i]) == charged[0];
      assert states[i + 1] == env.pda(referrer, ([key] + rest)[i + 1]);
      assert charged[0] != states[0];
    }
  }

  lemma {:induction false} TailStates(reserves: seq<Pubkey>, referrer: Pubkey, pda: ReferrerPda)
    requires reserves != []
    ensures var states := ReferrerStates(referrer, reserves, pda);
      && states != [] && states[0] == pda(referrer, reserves[0])
      && states[1..] == ReferrerStates(referrer, reserves[1..], pda)
      && (Distinct(states) ==> Distinct(states[1..]))
  {
    var states := ReferrerStates(referrer, reserves, pda);
    assert forall i :: 0 <= i < |states[1..]| ==> states[1..][i] == states[i + 1];
  }

  /** One state per borrow in order serves exactly when the charging borrows come first. */
  lemma {:induction false} OwnStatesServeIff(reserves: seq<Pubkey>, referrer: Pubkey, env: Env)
    requires Distinct(ReferrerStates(referrer, reserves, env.pda))
    ensures ChargedStates(reserves, referrer, env) <= ReferrerStates(referrer, reserves, env.pda) <==>
            ChargingFirst(reserves, referrer, env)
  {
    hide TakesState, ChargedStates, ChargingFirst, Distinct, ReferrerStates;
    if reserves == [] {
      NothingCharged(referrer, env);
      NothingChargedFirst(referrer, env);
    } else {
      var key, rest := reserves[0], reserves[1..];
      var states := ReferrerStates(referrer, reserves, env.pda);
      assert reserves == [key] + rest;
      TailStates(reserves, referrer, env.pda);
      ChargingFirstCons(reserves, referrer, env);
      if TakesState(referrer, key, env) {
        ChargedStatesCons(key, rest, states, referrer, env);
        OwnStatesServeIff(rest, referrer, env);
      } else {
        ChargedStatesHead(key, rest, referrer, env);
        OneBehind(key, rest, referrer, env);
        NoneCharged(reserves, referrer, env);
      }
    }
  }

  lemma {:induction false} NothingChargedFirst(referrer: Pubkey, env: Env)
    ensures ChargingFirst([], referrer, env)
  {
  }

  lemma {:induction false} NoReferrerServes(reserves: seq<Pubkey>, env: Env)
    ensures ChargedStates(reserves, DEFAULT_KEY, env) == [] && ChargingFirst(reserves, DEFAULT_KEY, env)
  {
    NoneCharged(reserves, DEFAULT_KEY, env);
  }

  /** The client's list serves its obligation exactly when no charging borrow follows one that charges
      nothing: the handler would hand the later borrow the earlier one's referrer state. */
  lemma {:induction false} ClientListServesIff(o: Obligation, env: Env)
    requires SeparateStates(o, env)
    ensures ListServes(o, RemainingAccounts(FromObligation(o), env.pda), env) <==> ReferralsInOrder(o, env)
  {
    hide ActiveReserves, CountActive, ChargedStates, ChargingFirst, RemainingAccounts, Distinct, SliceRemaining;
    hide FromObligation;
    SliceOfClientList(o, env.pda);
    var b := ActiveReserves(o.borrows);
    if HasReferrer(o) {
      OwnStatesServeIff(b, o.referrer, env);
    } else {
      NoReferrerServes(b, env);
    }
  }

  /** So `refresh_obligation` takes the client's list exactly when every active reserve is up to date and
      the charging borrows come first. */
  lemma {:induction false} ClientListAcceptedIff(c: Chain, env: Env)
    requires SeparateStates(c.obligation, env)
    ensures Refresh(c, RemainingAccounts(FromObligation(c.obligation), env.pda), env).Ok? <==>
            ReferralsInOrder(c.obligation, env) && AllCurrent(Keys(FromObligation(c.obligation)), c.current)
  {
    hide Refresh, ListServes, ReferralsInOrder, AllCurrent, FromObligation, RemainingAccounts;
    RefreshAcceptedIff(c, RemainingAccounts(FromObligation(c.obligation), env.pda), env);
    ClientListServesIff(c.obligation, env);
  }

  /** A refused client list: two borrows with a referrer, of which only the second charges a fee. */
  lemma {:induction false} LateChargingBorrowIsRefused(o: Obligation, current: set<Pubkey>, env: Env, b: seq<Pubkey>)
    requires b == ActiveReserves(o.borrows) && |b| == 2 && b[0] !in env.charging && b[1] in env.charging
    requires HasReferrer(o) && env.pda(o.referrer, b[0]) != env.pda(o.referrer, b[1])
    ensures Refresh(Chain(o, false, current), RemainingAccounts(FromObligation(o), env.pda), env).Err?
  {
    hide Refresh, ActiveReserves, FromObligation, RemainingAccounts;
    var c := Chain(o, false, current);
    ClientListAcceptedIff(c, env);
    if ReferralsInOrder(o, env) {
      assert TakesState(o.referrer, b[1], env);
      assert !TakesState(o.referrer, b[0], env);
    }
  }

  // ----- Refusals say what is wrong -----

  lemma {:induction false} DepositRefusals(ps: seq<Position>, accounts: seq<Pubkey>, current: set<Pubkey>)
    requires |accounts| == |ActiveReserves(ps)|
    ensures var e := CheckDeposits(ps, accounts, current);
      && (e == Some(ReserveStale) ==> !AllCurrent(ActiveReserves(ps), current))
      && (e.Some? && e != Some(ReserveStale) ==> e == Some(InvalidAccountInput) && accounts != ActiveReserves(ps))
  {
    hide ActiveReserves, AllCurrent;
    if ps != [] {
      ActiveReservesCons(ps);
      if Active(ps[0]) {
        var rest := ActiveReserves(ps[1..]);
        AllCurrentCons(ps[0].reserve, rest, current);
        HeadAndTail(accounts, ps[0].reserve, rest);
        DepositRefusals(ps[1..], accounts[1..], current);
      } else {
        assert ActiveReserves(ps) == ActiveReserves(ps[1..]);
        DepositRefusals(ps[1..], accounts, current);
      }
    }
  }

  lemma {:induction false} BorrowRefusals(
    ps: seq<Position>, accounts: seq<Pubkey>, states: seq<Pubkey>, referrer: Pubkey, current: set<Pubkey>, env: Env)
    requires |accounts| == |ActiveReserves(ps)|
    ensures var e := CheckBorrows(ps, accounts, states, referrer, current, env);
      && (e == Some(ReserveStale) ==> !AllCurrent(ActiveReserves(ps), current))
      && (e.Some? && e != Some(ReserveStale) ==>
          accounts != ActiveReserves(ps) || !(ChargedStates(ActiveReserves(ps), referrer, env) <= states))
      && (e == Some(ReferrerAccountMismatch) ==> referrer != DEFAULT_KEY)
    decreases ps
  {
    hide ActiveReserves, AllCurrent, ChargedStates;
    if ps != [] {
      ActiveReservesCons(ps);
      if Active(ps[0]) {
        var rest := ActiveReserves(ps[1..]);
        AllCurrentCons(ps[0].reserve, rest, current);
        HeadAndTail(accounts, ps[0].reserve, rest);
        ChargedStatesCons(ps[0].reserve, rest, states, referrer, env);
        if accounts[0] == ps[0].reserve {
          var taken := TakesState(referrer, ps[0].reserve, env) && states != [];
          BorrowRefusals(ps[1..], accounts[1..], if taken then states[1..] else states, referrer, current, env);
        }
      } else {
        assert ActiveReserves(ps) == ActiveReserves(ps[1..]);
        BorrowRefusals(ps[1..], accounts, states, referrer, current, env);
      }
    }
  }

  /** A list is called stale only when some active reserve is, and wrong only when it is; a referrer state is
      blamed only where there is a referrer. */
  lemma {:induction false} RefreshRefusals(c: Chain, remaining: seq<Pubkey>, env: Env)
    requires Refresh(c, remaining, env).Err?
    ensures var e := Refresh(c, remaining, env).error;
      if e == ReserveStale then !AllCurrent(Keys(FromObligation(c.obligation)), c.current)
      else !ListServes(c.obligation, remaining, env) && (e == ReferrerAccountMismatch ==> HasReferrer(c.obligation))
  {
    hide ActiveReserves, CountActive, ChargedStates, CheckBorrows, CheckDeposits, AllCurrent;
    var o := c.obligation;
    if |remaining| == ExpectedRemaining(o) {
      var s := SliceRemaining(o, remaining).value;
      ActiveCount(o.borrows);
      ActiveCount(o.deposits);
      BorrowRefusals(o.borrows, s.borrows, s.referrerStates, o.referrer, c.current, env);
      DepositRefusals(o.deposits, s.deposits, c.current);
      KeysCover(o, c.current);
    }
  }

  lemma {:induction false} KeysCover(o: Obligation, current: set<Pubkey>)
    ensures AllCurrent(Keys(FromObligation(o)), current) ==>
              AllCurrent(ActiveReserves(o.deposits), current) && AllCurrent(ActiveReserves(o.borrows), current)
  {
    hide ActiveReserves;
    var d, b := ActiveReserves(o.deposits), ActiveReserves(o.borrows);
    assert forall k :: k in d || k in b ==> k in Keys(FromObligation(o));
  }
}
