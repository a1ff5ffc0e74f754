/** `ObligationContext` (`helpers/info.rs`, `helpers/context.rs`): which reserves to fetch for an
    obligation, and why a context built from them never lacks one. */
module ObligationContext {
  import opened Common
  import opened ObligationLayout
  import opened ObligationRefresh
  import opened RefreshPlans
  import Helpers

  // ----- `reserve_addresses_for_obligation`: sort_unstable and dedup -----

  ghost predicate Sorted(s: seq<Pubkey>) {
    forall i, j :: 0 <= i < j < |s| ==> s[i] == s[j] || KeyLess(s[i], s[j])
  }

  ghost predicate StrictlyIncreasing(s: seq<Pubkey>) {
    forall i, j :: 0 <= i < j < |s| ==> KeyLess(s[i], s[j])
  }

  function Insert(key: Pubkey, s: seq<Pubkey>): (r: seq<Pubkey>) {
    if s == [] || KeyLess(key, s[0]) then [key] + s else [s[0]] + Insert(key, s[1..])
  }

  /** The sorted arrangement of a list; equal keys are indistinguishable, so there is only one. */
  function SortKeys(s: seq<Pubkey>): (r: seq<Pubkey>) {
    if s == [] then [] else Insert(s[0], SortKeys(s[1..]))
  }

  lemma {:induction false} PrependSorted(key: Pubkey, s: seq<Pubkey>)
    requires Sorted(s) && forall k :: k in s ==> key == k || KeyLess(key, k)
    ensures Sorted([key] + s)
  {
    hide KeyLess;
    forall i, j | 0 <= i < j < |[key] + s|
      ensures var t := [key] + s; t[i] == t[j] || KeyLess(t[i], t[j])
    {
      assert s[j - 1] in s;
    }
  }

  lemma {:induction false} InsertMembers(key: Pubkey, s: seq<Pubkey>)
    ensures Members(Insert(key, s)) == Members(s) + {key}
  {
    hide KeyLess;
    if s == [] || KeyLess(key, s[0]) {
      MembersAppend([key], s);
    } else {
      InsertMembers(key, s[1..]);
      assert s == [s[0]] + s[1..];
      MembersAppend([s[0]], s[1..]);
      MembersAppend([s[0]], Insert(key, s[1..]));
    }
  }

  lemma {:induction false} HeadIsLeast(s: seq<Pubkey>, k: Pubkey)
    requires Sorted(s) && s != [] && k in s
    ensures s[0] == k || KeyLess(s[0], k)
  {
    hide KeyLess;
  }

  lemma {:induction false} InsertSorted(key: Pubkey, s: seq<Pubkey>)
    requires Sorted(s)
    ensures Sorted(Insert(key, s))
  {
    hide KeyLess;
    if s == [] || KeyLess(key, s[0]) {
      forall k | k in s
        ensures KeyLess(key, k)
      {
        HeadIsLeast(s, k);
        if k != s[0] {
          KeyOrderIsTransitive(key, s[0], k);
        }
      }
      PrependSorted(key, s);
    } else {
      var rest := Insert(key, s[1..]);
      InsertSorted(key, s[1..]);
      InsertMembers(key, s[1..]);
      KeyOrderIsTotal(key, s[0]);
      forall k | k in rest
        ensures s[0] == k || KeyLess(s[0], k)
      {
        assert k in Members(rest);
        if k != key {
          assert k in s[1..] && k in s;
          HeadIsLeast(s, k);
        }
      }
      PrependSorted(s[0], rest);
    }
  }

  lemma {:induction false} SortKeysSorted(s: seq<Pubkey>)
    ensures Sorted(SortKeys(s)) && Members(SortKeys(s)) == Members(s)
  {
    if s != [] {
      SortKeysSorted(s[1..]);
      InsertSorted(s[0], SortKeys(s[1..]));
      InsertMembers(s[0], SortKeys(s[1..]));
      assert s == [s[0]] + s[1..];
    }
  }

  /** `Vec::dedup`: of equal neighbours, the first. */
  function DedupOf(s: seq<Pubkey>): (r: seq<Pubkey>) {
    if |s| <= 1 then s
    else DedupOf(s[..|s| - 1]) + if s[|s| - 1] != s[|s| - 2] then [s[|s| - 1]] else []
  }

  lemma {:induction false} DedupPush(s: seq<Pubkey>, key: Pubkey)
    ensures DedupOf(s + [key]) == DedupOf(s) + if s == [] || key != s[|s| - 1] then [key] else []
  {
    assert (s + [key])[..|s|] == s;
    if s != [] {
      assert (s + [key])[|s| - 1] == s[|s| - 1];
    }
  }

  lemma {:induction false} DedupOfNone()
    ensures DedupOf([]) == []
  {
  }

  /** It keeps the members, and makes a sorted list strictly increasing. */
  lemma {:induction false} DedupIncreasing(s: seq<Pubkey>)
    ensures Members(DedupOf(s)) == Members(s)
    ensures s != [] ==> DedupOf(s) != [] && DedupOf(s)[|DedupOf(s)| - 1] == s[|s| - 1]
    ensures Sorted(s) ==> StrictlyIncreasing(DedupOf(s))
  {
    hide KeyLess;
    if |s| > 1 {
      var init, last := s[..|s| - 1], s[|s| - 1];
      DedupIncreasing(init);
      assert s == init + [last];
      MembersAppend(init, [last]);
      var r := DedupOf(init);
      if last != s[|s| - 2] {
        MembersAppend(r, [last]);
        if Sorted(s) {
          forall j | 0 <= j < |r|
            ensures KeyLess(r[j], last)
          {
            assert KeyLess(r[|r| - 1], last);
            if j < |r| - 1 {
              KeyOrderIsTransitive(r[j], r[|r| - 1], last);
            }
          }
        }
      }
    }
  }

  method Dedup(s: seq<Pubkey>) returns (r: seq<Pubkey>)
    ensures r == DedupOf(s)
  {
    hide *;
    r := [];
    DedupOfNone();
    assert s[..0] == [];
    for i := 0 to |s|
      invariant r == DedupOf(s[..i])
      invariant i > 0 ==> r != [] && r[|r| - 1] == s[i - 1]
    {
      DedupPush(s[..i], s[i]);
      assert s[..i + 1] == s[..i] + [s[i]];
      if r == [] || r[|r| - 1] != s[i] {
        r := r + [s[i]];
      }
    }
    assert s[..|s|] == s;
  }

  /** A strictly increasing list is determined by its members. */
  lemma {:induction false} IncreasingListUnique(s: seq<Pubkey>, t: seq<Pubkey>)
    requires StrictlyIncreasing(s) && StrictlyIncreasing(t) && Members(s) == Members(t)
    ensures s == t
  {
    hide KeyLess;
    MembersEmptyIff(s);
    MembersEmptyIff(t);
    if s != [] {
      assert s[0] in Members(t) by { assert s[0] in Members(s); }
      assert t[0] in Members(s) by { assert t[0] in Members(t); }
      KeyOrderIsTotal(s[0], t[0]);
      assert s[0] == t[0];
      forall k
        ensures k in Members(s[1..]) <==> k in Members(t[1..])
      {
        TailMembers(s, k);
        TailMembers(t, k);
        assert k in Members(s) <==> k in Members(t);
      }
      IncreasingListUnique(s[1..], t[1..]);
    }
  }

  lemma {:induction false} TailMembers(s: seq<Pubkey>, k: Pubkey)
    requires StrictlyIncreasing(s) && s != []
    ensures k in Members(s[1..]) <==> k in Members(s) && k != s[0]
  {
    hide KeyLess;
    if k in s[1..] {
      var i :| 0 <= i < |s[1..]| && s[1..][i] == k;
      assert KeyLess(s[0], s[i + 1]);
      KeyOrderIsTotal(s[0], k);
    }
    assert s == [s[0]] + s[1..];
  }

  /** The reserves to fetch. */
  function ReserveAddresses(o: Obligation): (addrs: seq<Pubkey>) {
    DedupOf(SortKeys(ActiveReserves(o.deposits) + ActiveReserves(o.borrows)))
  }

  /** They are the active deposit and borrow reserves, each once, in key order. */
  lemma {:induction false} ReserveAddressesAre(o: Obligation)
    ensures StrictlyIncreasing(ReserveAddresses(o))
    ensures Members(ReserveAddresses(o)) == Members(Keys(FromObligation(o)))
  {
    hide ActiveReserves, StrictlyIncreasing, Sorted, SortKeys, DedupOf;
    var collected := ActiveReserves(o.deposits) + ActiveReserves(o.borrows);
    SortKeysSorted(collected);
    DedupIncreasing(SortKeys(collected));
  }

  method ReserveAddressesForObligation(o: Obligation) returns (addrs: seq<Pubkey>)
    ensures addrs == ReserveAddresses(o) && StrictlyIncreasing(addrs)
    ensures forall k :: k in addrs <==>
      || (exists i :: 0 <= i < |o.deposits| && Active(o.deposits[i]) && o.deposits[i].reserve == k)
      || (exists i :: 0 <= i < |o.borrows| && Active(o.borrows[i]) && o.borrows[i].reserve == k)
  {
    addrs := ActiveReserves(o.deposits) + ActiveReserves(o.borrows);
    ghost var collected := addrs;
    addrs := SortKeys(addrs);
    addrs := Dedup(addrs);
    ReserveAddressesAre(o);
    forall k
      ensures k in addrs <==>
        || (exists i :: 0 <= i < |o.deposits| && Active(o.deposits[i]) && o.deposits[i].reserve == k)
        || (exists i :: 0 <= i < |o.borrows| && Active(o.borrows[i]) && o.borrows[i].reserve == k)
    {
      assert k in addrs <==> k in Members(addrs);
      assert k in collected <==> k in Members(collected);
      ActiveReservesMembers(o.deposits, k);
      ActiveReservesMembers(o.borrows, k);
    }
  }

  // ----- The context -----

  datatype Context = Context(obligation: ObligationInfo, reserves: seq<ReserveInfo>)

  datatype ContextError = ReserveNotFound(key: Pubkey)

  /** What an operation on one reserve returns. */
  function PlanOnOne(ctx: Context, key: Pubkey, op: MainOp, accounts: seq<Pubkey>, pda: ReferrerPda)
    : (r: Result<seq<Instruction>, ContextError>)
  {
    match FindInfo(ctx.reserves, key)
    case None => Err(ContextError.ReserveNotFound(key))
    case Some(r) => Ok(Plan(ctx.obligation, ctx.reserves, [r], Operation(op, [r.address], accounts), pda))
  }

  /** What an operation on two reserves returns: the first missing one is reported. */
  function PlanOnTwo(ctx: Context, first: Pubkey, second: Pubkey, op: MainOp, accounts: seq<Pubkey>, pda: ReferrerPda)
    : (r: Result<seq<Instruction>, ContextError>)
  {
    match FindInfo(ctx.reserves, first)
    case None => Err(ContextError.ReserveNotFound(first))
    case Some(a) =>
      match FindInfo(ctx.reserves, second)
      case None => Err(ContextError.ReserveNotFound(second))
      case Some(b) =>
        Ok(Plan(ctx.obligation, ctx.reserves, [a, b], Operation(op, [a.address, b.address], accounts), pda))
  }

  method Borrow(
    ctx: Context, borrowReserve: Pubkey, pda: ReferrerPda)
    returns (r: Result<seq<Instruction>, ContextError>)
    ensures r == PlanOnOne(ctx, borrowReserve, MainOp.Borrow, ctx.obligation.depositReserves, pda)
  {
    hide Plan, FindInfo;
    var found := FindInfo(ctx.reserves, borrowReserve);
    if found.None? {
      return Err(ContextError.ReserveNotFound(borrowReserve));
    }
    var ixs := Helpers.Borrow(ctx.obligation, ctx.reserves, found.value, pda);
    return Ok(ixs);
  }

  method Liquidate(ctx: Context, repayReserve: Pubkey, withdrawReserve: Pubkey, pda: ReferrerPda)
    returns (r: Result<seq<Instruction>, ContextError>)
    ensures r == PlanOnTwo(ctx, repayReserve, withdrawReserve, MainOp.Liquidate,
            RemainingAccounts(ctx.obligation, pda), pda)
  {
    hide Plan, FindInfo, RemainingAccounts;
    var rr := FindInfo(ctx.reserves, repayReserve);
    if rr.None? {
      return Err(ContextError.ReserveNotFound(repayReserve));
    }
    var wr := FindInfo(ctx.reserves, withdrawReserve);
    if wr.None? {
      return Err(ContextError.ReserveNotFound(withdrawReserve));
    }
    var ixs := Helpers.Liquidate(ctx.obligation, ctx.reserves, rr.value, wr.value, pda);
    return Ok(ixs);
  }

  /** What `new` makes of an obligation and the reserve accounts fetched for it, `extra` ones included. */
  function FetchedContext(o: Obligation, infoOf: Pubkey -> ReserveInfo, extra: seq<ReserveInfo>): (ctx: Context) {
    var addrs := ReserveAddresses(o);
    Context(FromObligation(o), seq(|addrs|, i requires 0 <= i < |addrs| => infoOf(addrs[i])) + extra)
  }

  ghost predicate HonestFetch(infoOf: Pubkey -> ReserveInfo) { forall k :: infoOf(k).address == k }

  lemma {:induction false} FetchedKnowsActive(o: Obligation, infoOf: Pubkey -> ReserveInfo, extra: seq<ReserveInfo>)
    requires HonestFetch(infoOf)
    ensures forall k :: k in Keys(FromObligation(o)) ==> FindInfo(FetchedContext(o, infoOf, extra).reserves, k).Some?
  {
    hide ReserveAddresses, FindInfo, FromObligation, Keys;
    var addrs, reserves := ReserveAddresses(o), FetchedContext(o, infoOf, extra).reserves;
    ReserveAddressesAre(o);
    forall k | k in Keys(FromObligation(o))
      ensures FindInfo(reserves, k).Some?
    {
      assert k in Members(Keys(FromObligation(o)));
      assert k in Members(addrs);
      var i :| 0 <= i < |addrs| && addrs[i] == k;
      assert reserves[i].address == k;
    }
  }

  /** Fetching the listed addresses is enough: the context knows every active reserve, and every list it
      returns, for reserves it knows, reaches its main operation whatever was stale, exactly when charging
      borrows come first. */
  lemma {:induction false} FetchedContextReachesMain(
    c: Chain, infoOf: Pubkey -> ReserveInfo, extra: seq<ReserveInfo>, first: Pubkey, second: Pubkey, op: MainOp,
    accounts: seq<Pubkey>, env: Env)
    requires HonestFetch(infoOf) && SeparateStates(c.obligation, env)
    ensures var ctx := FetchedContext(c.obligation, infoOf, extra);
      var one, two := PlanOnOne(ctx, first, op, accounts, env.pda),
                      PlanOnTwo(ctx, first, second, op, accounts, env.pda);
      && (first in Keys(ctx.obligation) ==> one.Ok?)
      && (first in Keys(ctx.obligation) && second in Keys(ctx.obligation) ==> two.Ok?)
      && (one.Ok? ==> (ReachesMain(c, one.value, env) <==> ReferralsInOrder(c.obligation, env)))
      && (two.Ok? ==> (ReachesMain(c, two.value, env) <==> ReferralsInOrder(c.obligation, env)))
  {
    hide Plan, Run, FromObligation, FetchedContext, ReferralsInOrder, SeparateStates, UpToMain, OnlyRefreshes, FindInfo;
    var ctx := FetchedContext(c.obligation, infoOf, extra);
    assert ctx.obligation == FromObligation(c.obligation) by { ContextOf(c.obligation, infoOf, extra); }
    FetchedKnowsActive(c.obligation, infoOf, extra);
    var a, b := FindInfo(ctx.reserves, first), FindInfo(ctx.reserves, second);
    if a.Some? {
      PlanReachesMainIff(c, ctx.reserves, [a.value], Operation(op, [a.value.address], accounts), env);
      if b.Some? {
        var main := Operation(op, [a.value.address, b.value.address], accounts);
        PlanReachesMainIff(c, ctx.reserves, [a.value, b.value], main, env);
      }
    }
  }

  lemma {:induction false} ContextOf(o: Obligation, infoOf: Pubkey -> ReserveInfo, extra: seq<ReserveInfo>)
    ensures FetchedContext(o, infoOf, extra).obligation == FromObligation(o)
  {
  }

  /** What is reported missing is missing, and the first reserve is reported before the second. */
  lemma {:induction false} MissingReserveIsReported(
    ctx: Context, first: Pubkey, second: Pubkey, op: MainOp, accounts: seq<Pubkey>, pda: ReferrerPda)
    ensures var known := (k: Pubkey) => FindInfo(ctx.reserves, k).Some?;
      && (PlanOnOne(ctx, first, op, accounts, pda).Ok? <==> known(first))
      && (!known(first) ==> PlanOnOne(ctx, first, op, accounts, pda) == Err(ContextError.ReserveNotFound(first)))
      && (PlanOnTwo(ctx, first, second, op, accounts, pda).Ok? <==> known(first) && known(second))
      && (!known(first) || !known(second) ==>
          PlanOnTwo(ctx, first, second, op, accounts, pda) ==
          Err(ContextError.ReserveNotFound(if known(first) then second else first)))
  {
    hide Plan, FindInfo;
  }
}
