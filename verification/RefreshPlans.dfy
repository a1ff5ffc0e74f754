/** The instruction lists the client helpers return (the files of `helpers`) and what executing them does:
    every list refreshes reserves, then the obligation, and ends in one main operation. What the two
    compound operations then do with their accounts is in `CompoundPlans.dfy`. */
module RefreshPlans {
  import opened Common
  import opened ObligationLayout
  import opened ObligationRefresh

  /** The fields of a reserve that the helpers read. */
  datatype ReserveInfo = ReserveInfo(
    address: Pubkey, lendingMarket: Pubkey, pythOracle: Option<Pubkey>, switchboardPriceOracle: Option<Pubkey>,
    switchboardTwapOracle: Option<Pubkey>, scopePrices: Option<Pubkey>)

  datatype MainOp =
    | Borrow | RolloverFixedTermBorrow | Repay | RepayAndWithdraw | Liquidate | DepositToObligation
    | Withdraw | WithdrawCollateral | DepositAndWithdraw | RequestElevationGroup

  /** `Operation` lists the reserves its handler requires up to date, and its remaining accounts. */
  datatype Instruction =
    | RefreshReserve(info: ReserveInfo)
    | RefreshObligation(remaining: seq<Pubkey>)
    | Operation(op: MainOp, reserves: seq<Pubkey>, accounts: seq<Pubkey>)

  type ReserveLookup = Pubkey -> Option<ReserveInfo>

  function FindInfo(infos: seq<ReserveInfo>, key: Pubkey): (r: Option<ReserveInfo>)
    ensures r.Some? ==> r.value in infos && r.value.address == key
    ensures r.None? ==> forall i :: 0 <= i < |infos| ==> infos[i].address != key
  {
    if infos == [] then None else if infos[0].address == key then Some(infos[0]) else FindInfo(infos[1..], key)
  }

  function LookupIn(infos: seq<ReserveInfo>): (r: ReserveLookup) { key => FindInfo(infos, key) }

  // ----- Refreshing every reserve once -----

  /** One refresh per resolvable key not in `skip`, at the key's first appearance. */
  function RefreshAll(keys: seq<Pubkey>, lookup: ReserveLookup, skip: set<Pubkey>): (r: seq<Instruction>) {
    if keys == [] then []
    else if keys[0] in skip then RefreshAll(keys[1..], lookup, skip)
    else RefreshFound(lookup(keys[0])) + RefreshAll(keys[1..], lookup, skip + {keys[0]})
  }

  function RefreshFound(found: Option<ReserveInfo>): (r: seq<Instruction>) {
    match found case Some(info) => [RefreshReserve(info)] case None => []
  }

  lemma {:induction false} RefreshAllFrom(keys: seq<Pubkey>, i: nat, lookup: ReserveLookup, skip: set<Pubkey>)
    requires i < |keys|
    ensures RefreshAll(keys[i..], lookup, skip) ==
            if keys[i] in skip then RefreshAll(keys[i + 1..], lookup, skip)
            else RefreshFound(lookup(keys[i])) + RefreshAll(keys[i + 1..], lookup, skip + {keys[i]})
  {
    assert keys[i..][1..] == keys[i + 1..];
  }

  method BuildRefreshAllObligationReserves(info: ObligationInfo, infos: seq<ReserveInfo>, alreadyRefreshed: seq<Pubkey>)
    returns (ixs: seq<Instruction>)
    ensures ixs == RefreshAll(Keys(info), LookupIn(infos), Members(alreadyRefreshed))
  {
    hide RefreshAll, FindInfo, Keys;
    var seen := [];
    ixs := [];
    var keys := Keys(info);
    ghost var lookup := LookupIn(infos);
    ghost var skip := Members(alreadyRefreshed);
    assert keys[0..] == keys;
    for i := 0 to |keys|
      invariant forall k :: k in skip <==> k in alreadyRefreshed || k in seen
      invariant RefreshAll(keys, lookup, Members(alreadyRefreshed)) == ixs + RefreshAll(keys[i..], lookup, skip)
    {
      var key := keys[i];
      RefreshAllFrom(keys, i, lookup, skip);
      if key in alreadyRefreshed || key in seen {
        continue;
      }
      seen := seen + [key];
      skip := skip + {key};
      var found := FindInfo(infos, key);
      if found.Some? {
        ixs := ixs + [RefreshReserve(found.value)];
      }
    }
    RefreshAllNone(lookup, skip);
    assert keys[|keys|..] == [] && ixs + [] == ixs;
  }

  lemma {:induction false} RefreshAllNone(lookup: ReserveLookup, skip: set<Pubkey>)
    ensures RefreshAll([], lookup, skip) == []
  {
  }

  datatype LookupError = ReserveNotFound(key: Pubkey)

  function FirstUnresolved(keys: seq<Pubkey>, lookup: ReserveLookup): (r: Option<Pubkey>) {
    if keys == [] then None
    else if lookup(keys[0]).None? then Some(keys[0]) else FirstUnresolved(keys[1..], lookup)
  }

  lemma {:induction false} FirstUnresolvedAt(keys: seq<Pubkey>, i: nat, lookup: ReserveLookup)
    requires i < |keys| && lookup(keys[i]).None? && forall j :: 0 <= j < i ==> lookup(keys[j]).Some?
    ensures FirstUnresolved(keys, lookup) == Some(keys[i])
  {
    if i > 0 {
      assert keys[1..][i - 1] == keys[i];
      FirstUnresolvedAt(keys[1..], i - 1, lookup);
    }
  }

  lemma {:induction false} AllResolved(keys: seq<Pubkey>, lookup: ReserveLookup)
    ensures FirstUnresolved(keys, lookup).None? <==> forall i :: 0 <= i < |keys| ==> lookup(keys[i]).Some?
  {
    if keys != [] {
      AllResolved(keys[1..], lookup);
      assert forall i :: 0 <= i < |keys[1..]| ==> keys[1..][i] == keys[i + 1];
      if lookup(keys[0]).Some? && FirstUnresolved(keys, lookup).None? {
        forall i | 0 <= i < |keys|
          ensures lookup(keys[i]).Some?
        {
          if i > 0 {
            assert keys[i] == keys[1..][i - 1];
          }
        }
      }
    }
  }

  /** `refresh_all_for_obligation`: it fails on the first key, deposits before borrows, that does not
      resolve; otherwise it is the builder with nothing to skip, and the obligation refresh. */
  method RefreshAllForObligation(info: ObligationInfo, lookup: ReserveLookup, pda: ReferrerPda)
    returns (r: Result<seq<Instruction>, LookupError>)
    ensures r == match FirstUnresolved(Keys(info), lookup)
                 case Some(key) => Err(ReserveNotFound(key))
                 case None => Ok(RefreshAll(Keys(info), lookup, {}) + [RefreshObligation(RemainingAccounts(info, pda))])
  {
    hide RefreshAll, Keys, FirstUnresolved;
    var seen := [];
    var ixs := [];
    var keys := Keys(info);
    ghost var skip: set<Pubkey> := {};
    assert keys[0..] == keys;
    for i := 0 to |keys|
      invariant forall k :: k in skip <==> k in seen
      invariant forall j :: 0 <= j < i ==> lookup(keys[j]).Some?
      invariant forall k :: k in seen ==> lookup(k).Some?
      invariant RefreshAll(keys, lookup, {}) == ixs + RefreshAll(keys[i..], lookup, skip)
    {
      var key := keys[i];
      RefreshAllFrom(keys, i, lookup, skip);
      if key !in seen {
        seen := seen + [key];
        skip := skip + {key};
        var found := lookup(key);
        if found.None? {
          FirstUnresolvedAt(keys, i, lookup);
          return Err(ReserveNotFound(key));
        }
        ixs := ixs + [RefreshReserve(found.value)];
      }
    }
    RefreshAllNone(lookup, skip);
    AllResolved(keys, lookup);
    assert keys[|keys|..] == [] && ixs + [] == ixs;
    var remaining := BuildRefreshObligationRemainingAccounts(info, pda);
    return Ok(ixs + [RefreshObligation(remaining)]);
  }

  // ----- What the builder refreshes -----

  /** The addresses of the reserve refreshes of a list, in order. */
  function Refreshed(ixs: seq<Instruction>): (r: seq<Pubkey>) {
    if ixs == [] then []
    else (if ixs[0].RefreshReserve? then [ixs[0].info.address] else []) + Refreshed(ixs[1..])
  }

  lemma {:induction false} RefreshedAppend(a: seq<Instruction>, b: seq<Instruction>)
    ensures Refreshed(a + b) == Refreshed(a) + Refreshed(b)
  {
    if a == [] {
      assert a + b == b;
    } else {
      assert (a + b)[1..] == a[1..] + b;
      RefreshedAppend(a[1..], b);
    }
  }

  ghost predicate Honest(lookup: ReserveLookup) {
    forall k :: lookup(k).Some? ==> lookup(k).value.address == k
  }

  /** Each resolvable key outside `skip` is refreshed, nothing else is, and nothing twice. */
  lemma {:induction false} RefreshAllOnce(keys: seq<Pubkey>, lookup: ReserveLookup, skip: set<Pubkey>)
    requires Honest(lookup)
    ensures var done := Refreshed(RefreshAll(keys, lookup, skip));
      && Distinct(done)
      && forall k :: k in done <==> k in keys && k !in skip && lookup(k).Some?
    ensures forall ix :: ix in RefreshAll(keys, lookup, skip) ==> ix.RefreshReserve?
  {
    if keys != [] {
      var key := keys[0];
      assert forall k :: k in keys <==> k == key || k in keys[1..];
      if key in skip {
        RefreshAllOnce(keys[1..], lookup, skip);
      } else {
        RefreshAllOnce(keys[1..], lookup, skip + {key});
        var head := RefreshFound(lookup(key));
        RefreshedAppend(head, RefreshAll(keys[1..], lookup, skip + {key}));
        if lookup(key).Some? {
          assert head[1..] == [];
          assert Refreshed(head) == [key];
        }
      }
    }
  }

  // ----- Plans -----

  function RefreshTargets(targets: seq<ReserveInfo>): (ixs: seq<Instruction>)
    ensures |ixs| == |targets|
  {
    seq(|targets|, i requires 0 <= i < |targets| => RefreshReserve(targets[i]))
  }

  function Addresses(targets: seq<ReserveInfo>): (keys: seq<Pubkey>)
    ensures |keys| == |targets|
  {
    seq(|targets|, i requires 0 <= i < |targets| => targets[i].address)
  }

  /** The shape every obligation helper returns. */
  function Plan(
    info: ObligationInfo, infos: seq<ReserveInfo>, targets: seq<ReserveInfo>, main: Instruction, pda: ReferrerPda)
    : (r: seq<Instruction>)
  {
    RefreshAll(Keys(info), LookupIn(infos), Members(Addresses(targets)))
    + RefreshTargets(targets)
    + [RefreshObligation(RemainingAccounts(info, pda)), main]
  }

  lemma {:induction false} PlanOfOne(
    info: ObligationInfo, infos: seq<ReserveInfo>, target: ReserveInfo, main: Instruction, pda: ReferrerPda)
    ensures Plan(info, infos, [target], main, pda) ==
            RefreshAll(Keys(info), LookupIn(infos), Members([target.address]))
            + [RefreshReserve(target)] + [RefreshObligation(RemainingAccounts(info, pda))] + [main]
  {
    hide RefreshAll, RemainingAccounts;
    assert Addresses([target]) == [target.address];
    assert RefreshTargets([target]) == [RefreshReserve(target)];
  }

  lemma {:induction false} PlanOfTwo(
    info: ObligationInfo, infos: seq<ReserveInfo>, first: ReserveInfo, second: ReserveInfo, main: Instruction,
    pda: ReferrerPda)
    ensures Plan(info, infos, [first, second], main, pda) ==
            RefreshAll(Keys(info), LookupIn(infos), Members([first.address, second.address]))
            + [RefreshReserve(first)] + [RefreshReserve(second)] + [RefreshObligation(RemainingAccounts(info, pda))]
              + [main]
  {
    hide RefreshAll, RemainingAccounts;
    assert Addresses([first, second]) == [first.address, second.address];
    assert RefreshTargets([first, second]) == [RefreshReserve(first), RefreshReserve(second)];
  }

  // ----- Executing a list up to its main operation -----

  ghost predicate OnlyRefreshes(ixs: seq<Instruction>) { forall ix :: ix in ixs ==> !ix.Operation? }

  function Step(c: Chain, ix: Instruction, env: Env): (r: Result<Chain, RefreshError>)
    requires !ix.Operation?
  {
    match ix
    case RefreshReserve(info) => Ok(c.(current := c.current + {info.address}))
    case RefreshObligation(remaining) => Refresh(c, remaining, env)
  }

  function Run(c: Chain, ixs: seq<Instruction>, env: Env): (r: Result<Chain, RefreshError>)
    requires OnlyRefreshes(ixs)
    decreases ixs
  {
    if ixs == [] then Ok(c)
    else
      assert ixs[0] in ixs;
      var c' :- Step(c, ixs[0], env);
      Run(c', ixs[1..], env)
  }

  lemma {:induction false} RunAppend(c: Chain, a: seq<Instruction>, b: seq<Instruction>, env: Env)
    requires OnlyRefreshes(a) && OnlyRefreshes(b) && OnlyRefreshes(a + b)
    ensures Run(c, a + b, env) == match Run(c, a, env) case Err(e) => Err(e) case Ok(c') => Run(c', b, env)
    decreases a
  {
    if a == [] {
      assert a + b == b;
    } else {
      assert (a + b)[0] == a[0] && (a + b)[1..] == a[1..] + b;
      assert a[0] in a;
      match Step(c, a[0], env)
      case Err(_) =>
      case Ok(c') => RunAppend(c', a[1..], b, env);
    }
  }

  lemma {:induction false} RunOne(c: Chain, ix: Instruction, env: Env)
    requires !ix.Operation?
    ensures Run(c, [ix], env) == Step(c, ix, env)
  {
    assert [ix][1..] == [];
  }

  lemma {:induction false} RunRefreshes(c: Chain, ixs: seq<Instruction>, env: Env)
    requires forall ix :: ix in ixs ==> ix.RefreshReserve?
    ensures Run(c, ixs, env) == Ok(c.(current := c.current + Members(Refreshed(ixs))))
    decreases ixs
  {
    if ixs == [] {
      assert c.current + Members([]) == c.current;
    } else {
      assert ixs[0] in ixs;
      var c' := c.(current := c.current + {ixs[0].info.address});
      RunRefreshes(c', ixs[1..], env);
      assert c'.current + Members(Refreshed(ixs[1..])) == c.current + Members(Refreshed(ixs));
    }
  }

  lemma {:induction false} RefreshedTargets(targets: seq<ReserveInfo>)
    ensures Refreshed(RefreshTargets(targets)) == Addresses(targets)
  {
    if targets != [] {
      RefreshedTargets(targets[1..]);
      assert RefreshTargets(targets)[1..] == RefreshTargets(targets[1..]);
      assert Addresses(targets) == [targets[0].address] + Addresses(targets[1..]);
    }
  }

  /** The reserves a plan refreshes: the resolvable active ones, and the targets. */
  ghost predicate Covered(info: ObligationInfo, infos: seq<ReserveInfo>, targets: seq<ReserveInfo>, key: Pubkey) {
    (key in Keys(info) && FindInfo(infos, key).Some?) || key in Addresses(targets)
  }

  function PlanRefreshes(
    info: ObligationInfo, infos: seq<ReserveInfo>, targets: seq<ReserveInfo>)
    : (r: seq<Instruction>)
  {
    RefreshAll(Keys(info), LookupIn(infos), Members(Addresses(targets))) + RefreshTargets(targets)
  }

  lemma {:induction false} PlanRefreshesCovered(
    info: ObligationInfo, infos: seq<ReserveInfo>, targets: seq<ReserveInfo>)
    ensures forall ix :: ix in PlanRefreshes(info, infos, targets) ==> ix.RefreshReserve?
    ensures forall k :: k in Refreshed(PlanRefreshes(info, infos, targets)) <==> Covered(info, infos, targets, k)
    ensures Distinct(Refreshed(PlanRefreshes(info, infos, targets))) <==> Distinct(Addresses(targets))
  {
    var lookup := LookupIn(infos);
    var head := RefreshAll(Keys(info), lookup, Members(Addresses(targets)));
    RefreshAllOnce(Keys(info), lookup, Members(Addresses(targets)));
    RefreshedAppend(head, RefreshTargets(targets));
    RefreshedTargets(targets);
    DistinctAppend(Refreshed(head), Addresses(targets));
  }

  /** Refreshes, then the obligation with the client's list: what the list needs is every active reserve
      up to date by then, and charging borrows first. */
  lemma {:induction false} RunUpToMain(c: Chain, refreshes: seq<Instruction>, env: Env)
    requires SeparateStates(c.obligation, env)
    requires forall ix :: ix in refreshes ==> ix.RefreshReserve?
    ensures var info := FromObligation(c.obligation);
      var ixs := refreshes + [RefreshObligation(RemainingAccounts(info, env.pda))];
      var c1 := c.(current := c.current + Members(Refreshed(refreshes)));
      && OnlyRefreshes(ixs)
      && (Run(c, ixs, env).Ok? <==> ReferralsInOrder(c.obligation, env) && AllCurrent(Keys(info), c1.current))
      && (Run(c, ixs, env).Ok? ==> Run(c, ixs, env).value == c1.(upToDate := true))
  {
    hide Run, Refresh, Refreshed, RemainingAccounts, Keys, FromObligation, ReferralsInOrder, AllCurrent, SeparateStates;
    var remaining := RemainingAccounts(FromObligation(c.obligation), env.pda);
    var c1 := c.(current := c.current + Members(Refreshed(refreshes)));
    RunRefreshes(c, refreshes, env);
    RunAppend(c, refreshes, [RefreshObligation(remaining)], env);
    RunOne(c1, RefreshObligation(remaining), env);
    ClientListAcceptedIff(c1, env);
    RefreshAcceptedIff(c1, remaining, env);
  }

  lemma {:induction false} CurrentIffCovered(keys: seq<Pubkey>, current: set<Pubkey>, done: seq<Pubkey>)
    ensures AllCurrent(keys, current + Members(done)) <==> forall k :: k in keys ==> k in current || k in done
  {
  }

  lemma {:induction false} PlanSplit(
    info: ObligationInfo, infos: seq<ReserveInfo>, targets: seq<ReserveInfo>, main: Instruction, pda: ReferrerPda)
    ensures var plan := Plan(info, infos, targets, main, pda);
      var upToMain := PlanRefreshes(info, infos, targets) + [RefreshObligation(RemainingAccounts(info, pda))];
      plan == upToMain + [main] && plan[..|plan| - 1] == upToMain && plan[|plan| - 1] == main
  {
    hide RemainingAccounts, RefreshAll, RefreshTargets, Addresses;
  }

  /** A plan without its last instruction. */
  function UpToMain(plan: seq<Instruction>): (ixs: seq<Instruction>) {
    if plan == [] then [] else plan[..|plan| - 1]
  }

  /** Everything before the last instruction goes through. */
  ghost predicate ReachesMain(c: Chain, plan: seq<Instruction>, env: Env) {
    OnlyRefreshes(UpToMain(plan)) && Run(c, UpToMain(plan), env).Ok?
  }

  /** Plan soundness, exactly: from any state, the list reaches its main operation if and only if every
      active reserve was up to date already, is a target, or has its data supplied, and charging borrows
      come first. There the obligation, every active reserve and every target are up to date, and only
      the main operation is left. */
  lemma {:induction false} PlanReachesMainIff(
    c: Chain, infos: seq<ReserveInfo>, targets: seq<ReserveInfo>, main: Instruction, env: Env)
    requires SeparateStates(c.obligation, env)
    ensures var info := FromObligation(c.obligation);
      var plan := Plan(info, infos, targets, main, env.pda);
      && plan == UpToMain(plan) + [main] && OnlyRefreshes(UpToMain(plan))
      && (ReachesMain(c, plan, env) <==>
          && ReferralsInOrder(c.obligation, env)
          && forall k :: k in Keys(info) ==> k in c.current || Covered(info, infos, targets, k))
      && (ReachesMain(c, plan, env) ==>
          var before := Run(c, UpToMain(plan), env).value;
          && before.obligation == c.obligation && before.upToDate
          && AllCurrent(Keys(info), before.current) && AllCurrent(Addresses(targets), before.current))
  {
    hide Plan, PlanRefreshes, Run, Refreshed, RemainingAccounts, Keys, FromObligation, Addresses, SeparateStates;
    hide ReferralsInOrder;
    var info := FromObligation(c.obligation);
    var refreshes := PlanRefreshes(info, infos, targets);
    PlanSplit(info, infos, targets, main, env.pda);
    PlanRefreshesCovered(info, infos, targets);
    RunUpToMain(c, refreshes, env);
    CurrentIffCovered(Keys(info), c.current, Refreshed(refreshes));
    assert forall k :: k in Addresses(targets) ==> Covered(info, infos, targets, k);
  }

  /** The list of `refresh_all_for_obligation` leaves everything up to date, exactly when charging borrows
      come first. */
  lemma {:induction false} RefreshAllForObligationRunsIff(c: Chain, lookup: ReserveLookup, env: Env)
    requires SeparateStates(c.obligation, env)
    requires Honest(lookup) && FirstUnresolved(Keys(FromObligation(c.obligation)), lookup).None?
    ensures var info := FromObligation(c.obligation);
      var ixs := RefreshAll(Keys(info), lookup, {}) + [RefreshObligation(RemainingAccounts(info, env.pda))];
      && OnlyRefreshes(ixs)
      && (Run(c, ixs, env).Ok? <==> ReferralsInOrder(c.obligation, env))
      && (Run(c, ixs, env).Ok? ==>
          Run(c, ixs, env).value.upToDate && AllCurrent(Keys(info), Run(c, ixs, env).value.current))
  {
    hide Run, RefreshAll, FirstUnresolved, FromObligation, Keys, Refreshed, SeparateStates, ReferralsInOrder;
    var info := FromObligation(c.obligation);
    var refreshes := RefreshAll(Keys(info), lookup, {});
    RefreshAllOnce(Keys(info), lookup, {});
    AllResolved(Keys(info), lookup);
    RunUpToMain(c, refreshes, env);
    CurrentIffCovered(Keys(info), c.current, Refreshed(refreshes));
  }

  // ----- Minimality -----

  /** Plan minimality: when the data of every active reserve is supplied, a list refreshes exactly the
      active reserves and the targets; the count is the size of that set, each exactly once, if and
      only if the targets differ. */
  lemma {:induction false} PlanIsMinimalIff(
    info: ObligationInfo, infos: seq<ReserveInfo>, targets: seq<ReserveInfo>, main: Instruction, pda: ReferrerPda)
    requires main.Operation?
    requires forall k :: k in Keys(info) ==> FindInfo(infos, k).Some?
    ensures var done, all := Refreshed(Plan(info, infos, targets, main, pda)), Members(Keys(info))
            + Members(Addresses(targets));
      && Members(done) == all
      && |done| >= |all|
      && (|done| == |all| <==> Distinct(Addresses(targets)))
  {
    hide Plan, PlanRefreshes, RemainingAccounts;
    var refreshes := PlanRefreshes(info, infos, targets);
    var obligation := RefreshObligation(RemainingAccounts(info, pda));
    PlanSplit(info, infos, targets, main, pda);
    RefreshedAppend(refreshes + [obligation], [main]);
    RefreshedAppend(refreshes, [obligation]);
    assert [main][1..] == [] && [obligation][1..] == [];
    PlanRefreshesCovered(info, infos, targets);
    DistinctIffCount(Refreshed(refreshes));
    assert Members(Refreshed(refreshes)) == Members(Keys(info)) + Members(Addresses(targets));
  }
}
