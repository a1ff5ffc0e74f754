/** The flat account list of `refresh_obligation`: the client helper that builds it from an
    obligation's slot arrays (`helpers/info.rs`, `helpers/common.rs`) and the handler that cuts it
    up again (`handler_refresh_obligation.rs`). */
module ObligationLayout {
  import opened Common

  /** One slot of the `deposits` or `borrows` array; the default key marks a hole. */
  datatype Position = Position(reserve: Pubkey, amount: nat)

  /** The on-chain obligation: fixed slot arrays in which holes may stand anywhere. */
  datatype Obligation = Obligation(deposits: seq<Position>, borrows: seq<Position>, referrer: Pubkey)

  /** What the client helpers keep of an obligation. */
  datatype ObligationInfo = ObligationInfo(
    depositReserves: seq<Pubkey>, borrowReserves: seq<Pubkey>, referrer: Option<Pubkey>)

  /** `pda::referrer_token_state`, from referrer and reserve to an address. */
  type ReferrerPda = (Pubkey, Pubkey) -> Pubkey

  predicate Active(p: Position) { p.reserve != DEFAULT_KEY }

  function CountActive(ps: seq<Position>): (r: nat) {
    if ps == [] then 0 else CountActive(ps[..|ps| - 1]) + if Active(ps[|ps| - 1]) then 1 else 0
  }

  // ----- Client side -----

  /** The `filter` and `map` of `ObligationInfo::from_obligation`. */
  function ActiveReserves(ps: seq<Position>): (r: seq<Pubkey>) {
    if ps == [] then []
    else ActiveReserves(ps[..|ps| - 1]) + if Active(ps[|ps| - 1]) then [ps[|ps| - 1].reserve] else []
  }

  function NonDefault(key: Pubkey): (r: Option<Pubkey>) { if key == DEFAULT_KEY then None else Some(key) }

  function FromObligation(o: Obligation): (r: ObligationInfo) {
    ObligationInfo(ActiveReserves(o.deposits), ActiveReserves(o.borrows), NonDefault(o.referrer))
  }

  function ReferrerStates(referrer: Pubkey, reserves: seq<Pubkey>, pda: ReferrerPda): (rs: seq<Pubkey>)
    ensures |rs| == |reserves|
    ensures forall j :: 0 <= j < |rs| ==> rs[j] == pda(referrer, reserves[j])
  {
    seq(|reserves|, j requires 0 <= j < |reserves| => pda(referrer, reserves[j]))
  }

  /** What follows the deposits: the borrows, then one referrer state per borrow. */
  function BorrowAccounts(info: ObligationInfo, pda: ReferrerPda): (r: seq<Pubkey>) {
    info.borrowReserves
    + match info.referrer
      case Some(referrer) => ReferrerStates(referrer, info.borrowReserves, pda)
      case None => []
  }

  /** The list the helper must produce. */
  function RemainingAccounts(info: ObligationInfo, pda: ReferrerPda): (r: seq<Pubkey>) {
    info.depositReserves + BorrowAccounts(info, pda)
  }

  method BuildRefreshObligationRemainingAccounts(
    info: ObligationInfo, pda: ReferrerPda)
    returns (remaining: seq<Pubkey>)
    ensures remaining == RemainingAccounts(info, pda)
  {
    remaining := [];
    for i := 0 to |info.depositReserves|
      invariant remaining == info.depositReserves[..i]
    {
      remaining := remaining + [info.depositReserves[i]];
    }
    assert remaining == info.depositReserves;
    for i := 0 to |info.borrowReserves|
      invariant remaining == info.depositReserves + info.borrowReserves[..i]
    {
      remaining := remaining + [info.borrowReserves[i]];
    }
    assert info.borrowReserves[..|info.borrowReserves|] == info.borrowReserves;
    if info.referrer.Some? {
      var referrer := info.referrer.value;
      ghost var states := ReferrerStates(referrer, info.borrowReserves, pda);
      for i := 0 to |info.borrowReserves|
        invariant remaining == info.depositReserves + info.borrowReserves + states[..i]
      {
        remaining := remaining + [pda(referrer, info.borrowReserves[i])];
      }
      assert states[..|states|] == states;
    }
  }

  // ----- Handler side -----

  datatype RefreshError = InvalidAccountInput | ReserveStale | ReferrerAccountMismatch

  /** The three iterators handed to `lending_operations::refresh_obligation`. */
  datatype Slices = Slices(deposits: seq<Pubkey>, borrows: seq<Pubkey>, referrerStates: seq<Pubkey>)

  predicate HasReferrer(o: Obligation) { o.referrer != DEFAULT_KEY }

  function ExpectedRemaining(o: Obligation): (r: nat) {
    var borrowCount := CountActive(o.borrows);
    var reservesCount := borrowCount + CountActive(o.deposits);
    if HasReferrer(o) then reservesCount + borrowCount else reservesCount
  }

  function SliceRemaining(o: Obligation, remaining: seq<Pubkey>): (r: Result<Slices, RefreshError>) {
    var borrowCount := CountActive(o.borrows);
    var depositCount := CountActive(o.deposits);
    var reservesCount := borrowCount + depositCount;
    if |remaining| != ExpectedRemaining(o) then Err(InvalidAccountInput)
    else Ok(Slices(remaining[..depositCount], remaining[depositCount..][..borrowCount], remaining[reservesCount..]))
  }

  // ----- What it means for accounts to line up with slots -----

  /** The k-th account is the reserve of the k-th active slot, whatever holes lie between. */
  ghost predicate Aligned(ps: seq<Position>, accounts: seq<Pubkey>) {
    && |accounts| == CountActive(ps)
    && forall i :: 0 <= i < |ps| && Active(ps[i]) ==>
         CountActive(ps[..i]) < |accounts| && accounts[CountActive(ps[..i])] == ps[i].reserve
  }

  /** The list passes the count check and every cut carries the accounts of its own slots. */
  ghost predicate LinesUp(o: Obligation, remaining: seq<Pubkey>, pda: ReferrerPda) {
    match SliceRemaining(o, remaining)
    case Err(_) => false
    case Ok(s) =>
      && Aligned(o.deposits, s.deposits)
      && Aligned(o.borrows, s.borrows)
      && s.referrerStates == if HasReferrer(o) then ReferrerStates(o.referrer, s.borrows, pda) else []
  }

  // ----- Facts about active slots -----

  lemma {:induction false} CountActiveMonotone(ps: seq<Position>, i: nat)
    requires i <= |ps|
    ensures CountActive(ps[..i]) <= CountActive(ps)
    ensures i < |ps| && Active(ps[i]) ==> CountActive(ps[..i]) < CountActive(ps)
  {
    if i == |ps| {
      assert ps[..i] == ps;
    } else {
      var init := ps[..|ps| - 1];
      assert init[..i] == ps[..i];
      if i < |init| {
        CountActiveMonotone(init, i);
      }
    }
  }

  lemma {:induction false} ActiveCount(ps: seq<Position>)
    ensures |ActiveReserves(ps)| == CountActive(ps)
  {
    if ps != [] {
      ActiveCount(ps[..|ps| - 1]);
    }
  }

  lemma {:induction false} ActiveReservesAligned(ps: seq<Position>)
    ensures Aligned(ps, ActiveReserves(ps))
  {
    ActiveCount(ps);
    if ps != [] {
      var init := ps[..|ps| - 1];
      ActiveReservesAligned(init);
      forall i | 0 <= i < |ps| && Active(ps[i])
        ensures CountActive(ps[..i]) < |ActiveReserves(ps)| && ActiveReserves(ps)[CountActive(ps[..i])] == ps[i].reserve
      {
        CountActiveMonotone(ps, i);
        if i < |init| {
          assert ps[..i] == init[..i] && ps[i] == init[i];
        } else {
          ActiveCount(init);
        }
      }
    }
  }

  /** Alignment determines the accounts: they are the active reserves in slot order. */
  lemma {:induction false} AlignedMeansActiveReserves(ps: seq<Position>, accounts: seq<Pubkey>)
    ensures Aligned(ps, accounts) <==> accounts == ActiveReserves(ps)
  {
    ActiveReservesAligned(ps);
    if Aligned(ps, accounts) {
      if ps == [] {
      } else {
        var init, last := ps[..|ps| - 1], ps[|ps| - 1];
        var rest := if Active(last) then accounts[..|accounts| - 1] else accounts;
        forall i | 0 <= i < |init| && Active(init[i])
          ensures CountActive(init[..i]) < |rest| && rest[CountActive(init[..i])] == init[i].reserve
        {
          assert ps[..i] == init[..i] && ps[i] == init[i];
          CountActiveMonotone(init, i);
        }
        AlignedMeansActiveReserves(init, rest);
      }
    }
  }

  lemma {:induction false} ActiveReservesAppend(ps: seq<Position>, qs: seq<Position>)
    ensures ActiveReserves(ps + qs) == ActiveReserves(ps) + ActiveReserves(qs)
  {
    if qs == [] {
      assert ps + qs == ps;
    } else {
      assert (ps + qs)[..|ps + qs| - 1] == ps + qs[..|qs| - 1];
      ActiveReservesAppend(ps, qs[..|qs| - 1]);
    }
  }

  lemma {:induction false} ActiveReservesMembers(ps: seq<Position>, key: Pubkey)
    ensures key in ActiveReserves(ps) <==> exists i :: 0 <= i < |ps| && Active(ps[i]) && ps[i].reserve == key
  {
    if ps != [] {
      var init := ps[..|ps| - 1];
      ActiveReservesMembers(init, key);
      if key in ActiveReserves(init) {
        var i :| 0 <= i < |init| && Active(init[i]) && init[i].reserve == key;
        assert ps[i] == init[i];
      }
      if i :| 0 <= i < |ps| && Active(ps[i]) && ps[i].reserve == key {
        if i < |init| {
          assert init[i] == ps[i];
        }
      }
    }
  }

  function ActiveKey(p: Position): (r: seq<Pubkey>) { if Active(p) then [p.reserve] else [] }

  lemma {:induction false} ActiveReservesOne(p: Position)
    ensures ActiveReserves([p]) == ActiveKey(p)
  {
    hide Active;
    assert [p][..0] == [];
  }

  /** A slot splits the active reserves around itself. */
  lemma {:induction false} ActiveReservesAround(ps: seq<Position>, i: nat)
    requires i < |ps|
    ensures ActiveReserves(ps) == ActiveReserves(ps[..i]) + ActiveKey(ps[i]) + ActiveReserves(ps[i + 1..])
  {
    hide *;
    assert ps == ps[..i] + [ps[i]] + ps[i + 1..];
    ActiveReservesAppend(ps[..i] + [ps[i]], ps[i + 1..]);
    ActiveReservesAppend(ps[..i], [ps[i]]);
    ActiveReservesOne(ps[i]);
  }

  // ----- Encoder and decoder -----

  /** The cuts lose nothing and fix the lengths of the parts. */
  lemma {:induction false} SlicesRebuild(o: Obligation, remaining: seq<Pubkey>)
    requires |remaining| == ExpectedRemaining(o)
    ensures var s := SliceRemaining(o, remaining).value;
      && remaining == s.deposits + (s.borrows + s.referrerStates)
      && |s.deposits| == CountActive(o.deposits) && |s.borrows| == CountActive(o.borrows)
      && |s.referrerStates| == if HasReferrer(o) then CountActive(o.borrows) else 0
  {
    hide CountActive, HasReferrer;
  }

  lemma {:induction false} SameParts(a: seq<Pubkey>, b: seq<Pubkey>, a': seq<Pubkey>, b': seq<Pubkey>)
    requires |a| == |a'|
    ensures a + b == a' + b' <==> a == a' && b == b'
  {
    if a + b == a' + b' {
      assert a == (a + b)[..|a|] && b == (a + b)[|a|..];
      assert a' == (a' + b')[..|a|] && b' == (a' + b')[|a|..];
    }
  }

  /** For every obligation, whatever holes its arrays have, a list lines up with it exactly when it
      is the one the client helper builds: the encoder is right, and no other list is. */
  lemma {:induction false} ClientListIsTheOnlyOneThatLinesUp(o: Obligation, remaining: seq<Pubkey>, pda: ReferrerPda)
    ensures LinesUp(o, remaining, pda) <==> remaining == RemainingAccounts(FromObligation(o), pda)
  {
    hide ActiveReserves, CountActive, Aligned;
    var d, b := ActiveReserves(o.deposits), ActiveReserves(o.borrows);
    var states := if HasReferrer(o) then ReferrerStates(o.referrer, b, pda) else [];
    ActiveCount(o.deposits);
    ActiveCount(o.borrows);
    assert RemainingAccounts(FromObligation(o), pda) == d + (b + states);
    if |remaining| == ExpectedRemaining(o) {
      var s := SliceRemaining(o, remaining).value;
      SlicesRebuild(o, remaining);
      AlignedMeansActiveReserves(o.deposits, s.deposits);
      AlignedMeansActiveReserves(o.borrows, s.borrows);
      SameParts(s.deposits, s.borrows + s.referrerStates, d, b + states);
      SameParts(s.borrows, s.referrerStates, b, states);
    }
  }

  /** The round trip itself: cutting the client's list gives back every part in slot order. */
  lemma {:induction false} SliceOfClientList(o: Obligation, pda: ReferrerPda)
    ensures SliceRemaining(o, RemainingAccounts(FromObligation(o), pda)) ==
            Ok(Slices(ActiveReserves(o.deposits), ActiveReserves(o.borrows),
                      if HasReferrer(o) then ReferrerStates(o.referrer, ActiveReserves(o.borrows), pda) else []))
  {
    var remaining := RemainingAccounts(FromObligation(o), pda);
    ClientListIsTheOnlyOneThatLinesUp(o, remaining, pda);
    var s := SliceRemaining(o, remaining).value;
    AlignedMeansActiveReserves(o.deposits, s.deposits);
    AlignedMeansActiveReserves(o.borrows, s.borrows);
  }
}
