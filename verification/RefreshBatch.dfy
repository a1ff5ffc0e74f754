/** `refresh_reserves_batch`: the helper that flattens reserves into six accounts each
    (`helpers/refresh.rs`) and the handler that reads the accounts back
    (`handler_refresh_reserves_batch.rs`). */
module RefreshBatch {
  import opened Common
  import opened ObligationLayout
  import opened RefreshPlans

  /** `optional_account`: an absent account is written as the program's own id. */
  function OptionalAccount(programId: Pubkey, key: Option<Pubkey>): (account: Pubkey) {
    match key case Some(k) => k case None => programId
  }

  function PriceAccounts(r: ReserveInfo, programId: Pubkey): (accounts: seq<Pubkey>)
    ensures |accounts| == 4
  {
    [OptionalAccount(programId, r.pythOracle), OptionalAccount(programId, r.switchboardPriceOracle),
     OptionalAccount(programId, r.switchboardTwapOracle), OptionalAccount(programId, r.scopePrices)]
  }

  function BatchAccounts(reserves: seq<ReserveInfo>, programId: Pubkey): (accounts: seq<Pubkey>) {
    if reserves == [] then []
    else [reserves[0].address, reserves[0].lendingMarket] + PriceAccounts(reserves[0], programId)
         + BatchAccounts(reserves[1..], programId)
  }

  lemma {:induction false} BatchAccountsPush(reserves: seq<ReserveInfo>, r: ReserveInfo, programId: Pubkey)
    ensures BatchAccounts(reserves + [r], programId) ==
            BatchAccounts(reserves, programId) + ([r.address, r.lendingMarket] + PriceAccounts(r, programId))
  {
    hide PriceAccounts;
    if reserves == [] {
      assert [r][1..] == [] && reserves + [r] == [r];
    } else {
      assert (reserves + [r])[1..] == reserves[1..] + [r];
      BatchAccountsPush(reserves[1..], r, programId);
    }
  }

  /** The helper's loop. Its `skip_price_updates` flag does not change the accounts. */
  method BuildBatch(reserves: seq<ReserveInfo>, programId: Pubkey) returns (remaining: seq<Pubkey>)
    ensures remaining == BatchAccounts(reserves, programId)
  {
    remaining := [];
    for i := 0 to |reserves|
      invariant remaining == BatchAccounts(reserves[..i], programId)
    {
      var r := reserves[i];
      BatchAccountsPush(reserves[..i], r, programId);
      assert reserves[..i + 1] == reserves[..i] + [r];
      remaining := remaining + [r.address];
      remaining := remaining + [r.lendingMarket];
      remaining := remaining + [OptionalAccount(programId, r.pythOracle)];
      remaining := remaining + [OptionalAccount(programId, r.switchboardPriceOracle)];
      remaining := remaining + [OptionalAccount(programId, r.switchboardTwapOracle)];
      remaining := remaining + [OptionalAccount(programId, r.scopePrices)];
    }
    assert reserves[..|reserves|] == reserves;
  }

  // ----- The handler -----

  /** `BadAccount` is the source's `InvalidAccountInput`. */
  datatype BatchError =
    | NotAReserve | BadAccount | GlobalEmergencyMode | ReserveDeprecated | InvalidOracleConfig
    | InvalidPythPriceAccount | InvalidSwitchboardAccount | InvalidScopePriceAccount | PriceNotValid

  /** What the handler reads of a reserve account. `priceNeeded`: its saved price is due; `configValid`: the
      oracle configuration passes its own checks; `feedReads`: some configured feed yields a price. */
  datatype ReserveAccount = ReserveAccount(
    market: Pubkey, deprecated: bool, emergency: bool, priceNeeded: bool, configValid: bool, feedReads: bool,
    pyth: Pubkey, switchboardPrice: Pubkey, switchboardTwap: Pubkey, twapEnabled: bool, scope: Pubkey)

  /** The accounts of the program, the markets in emergency mode, the program's id, and the placeholder
      `NULL_PUBKEY` that configurations use for an oracle that is switched off. */
  datatype Ledger = Ledger(
    reserves: map<Pubkey, ReserveAccount>, emergencyMarkets: set<Pubkey>, programId: Pubkey, nullKey: Pubkey)

  /** One refresh: the reserve, and its price accounts unless price updates are skipped. */
  datatype Entry = Entry(reserve: Pubkey, prices: seq<Option<Pubkey>>)

  /** `maybe_price_account` on an account that is there. */
  function MaybePrice(programId: Pubkey, account: Pubkey): (price: Option<Pubkey>) {
    if account == programId then None else Some(account)
  }

  predicate Enabled(l: Ledger, key: Pubkey) { key != DEFAULT_KEY && key != l.nullKey }

  predicate SwitchboardMatches(l: Ledger, a: ReserveAccount, price: Option<Pubkey>, twap: Option<Pubkey>) {
    if Enabled(l, a.switchboardPrice) then
      price == Some(a.switchboardPrice) && (a.twapEnabled ==> twap == Some(a.switchboardTwap))
    else price.None? && twap.None?
  }

  /** `validate_token_info_config`. */
  function ValidatePrices(l: Ledger, a: ReserveAccount, prices: seq<Option<Pubkey>>): (e: Option<BatchError>)
    requires |prices| == 4
  {
    if !a.configValid then Some(InvalidOracleConfig)
    else if prices[0] != (if Enabled(l, a.pyth) then Some(a.pyth) else None) then Some(InvalidPythPriceAccount)
    else if !SwitchboardMatches(l, a, prices[1], prices[2]) then Some(InvalidSwitchboardAccount)
    else if prices[3] != (if Enabled(l, a.scope) then Some(a.scope) else None) then Some(InvalidScopePriceAccount)
    else None
  }

  /** The price part: nothing to do in emergency mode or while the saved price is good. */
  function PriceError(l: Ledger, a: ReserveAccount, prices: seq<Option<Pubkey>>): (e: Option<BatchError>)
    requires |prices| == 4
  {
    if a.emergency || !a.priceNeeded then None
    else if ValidatePrices(l, a, prices).Some? then ValidatePrices(l, a, prices)
    else if !a.feedReads then Some(PriceNotValid)
    else None
  }

  /** The refusals that come before any price account is looked at. */
  function ReserveError(l: Ledger, reserve: Pubkey, market: Pubkey): (e: Option<BatchError>) {
    if reserve !in l.reserves then Some(NotAReserve)
    else if l.reserves[reserve].market != market then Some(BadAccount)
    else if market in l.emergencyMarkets then Some(GlobalEmergencyMode)
    else if l.reserves[reserve].deprecated then Some(ReserveDeprecated)
    else None
  }

  function ReadFour(l: Ledger, accounts: seq<Pubkey>): (prices: seq<Option<Pubkey>>)
    requires |accounts| == 4
    ensures |prices| == 4
  {
    [MaybePrice(l.programId, accounts[0]), MaybePrice(l.programId, accounts[1]),
     MaybePrice(l.programId, accounts[2]), MaybePrice(l.programId, accounts[3])]
  }

  /** What the handler does with a list. */
  function ReadBatch(l: Ledger, accounts: seq<Pubkey>, skipPriceUpdates: bool): (r: Result<seq<Entry>, BatchError>) {
    if accounts == [] then Ok([])
    else if |accounts| < 2 then Err(BadAccount)
    else if ReserveError(l, accounts[0], accounts[1]).Some? then Err(ReserveError(l, accounts[0], accounts[1]).value)
    else if skipPriceUpdates then
      Prepend([Entry(accounts[0], [])], ReadBatch(l, accounts[2..], skipPriceUpdates))
    else if |accounts| < 6 then Err(BadAccount)
    else
      var prices := ReadFour(l, accounts[2..6]);
      match PriceError(l, l.reserves[accounts[0]], prices)
      case Some(e) => Err(e)
      case None => Prepend([Entry(accounts[0], prices)], ReadBatch(l, accounts[6..], skipPriceUpdates))
  }

  function Prepend(entries: seq<Entry>, r: Result<seq<Entry>, BatchError>): (r': Result<seq<Entry>, BatchError>) {
    match r case Ok(rest) => Ok(entries + rest) case Err(e) => Err(e)
  }

  lemma {:induction false} PrependNothing(r: Result<seq<Entry>, BatchError>)
    ensures Prepend([], r) == r
  {
    if r.Ok? {
      assert [] + r.value == r.value;
    }
  }

  lemma {:induction false} PrependTwice(a: seq<Entry>, b: seq<Entry>, r: Result<seq<Entry>, BatchError>)
    ensures Prepend(a, Prepend(b, r)) == Prepend(a + b, r)
  {
    if r.Ok? {
      assert a + (b + r.value) == a + b + r.value;
    }
  }

  /** The handler's loop over one iterator. */
  method ProcessBatch(
    l: Ledger, accounts: seq<Pubkey>, skipPriceUpdates: bool)
    returns (r: Result<seq<Entry>, BatchError>)
    ensures r == ReadBatch(l, accounts, skipPriceUpdates)
  {
    hide ReserveError, PriceError, ReadFour;
    var next := 0;
    var entries: seq<Entry> := [];
    assert accounts[0..] == accounts;
    PrependNothing(ReadBatch(l, accounts, skipPriceUpdates));
    while next < |accounts|
      invariant 0 <= next <= |accounts|
      invariant ReadBatch(l, accounts, skipPriceUpdates) ==
                Prepend(entries, ReadBatch(l, accounts[next..], skipPriceUpdates))
    {
      ghost var rest := accounts[next..];
      var reserve := accounts[next];
      next := next + 1;
      if next == |accounts| {
        return Err(BadAccount);
      }
      var market := accounts[next];
      next := next + 1;
      var refused := ReserveError(l, reserve, market);
      if refused.Some? {
        return Err(refused.value);
      }
      KnownReserve(l, reserve, market);
      var prices: seq<Option<Pubkey>> := [];
      if !skipPriceUpdates {
        if next + 4 > |accounts| {
          return Err(BadAccount);
        }
        prices := ReadFour(l, accounts[next..next + 4]);
        assert rest[2..6] == accounts[next..next + 4];
        next := next + 4;
        var failed := PriceError(l, l.reserves[reserve], prices);
        if failed.Some? {
          return Err(failed.value);
        }
      }
      assert rest[if skipPriceUpdates then 2 else 6..] == accounts[next..];
      PrependTwice(entries, [Entry(reserve, prices)], ReadBatch(l, accounts[next..], skipPriceUpdates));
      entries := entries + [Entry(reserve, prices)];
    }
    assert accounts[next..] == [] && entries + [] == entries;
    return Ok(entries);
  }

  lemma {:induction false} KnownReserve(l: Ledger, reserve: Pubkey, market: Pubkey)
    requires ReserveError(l, reserve, market).None?
    ensures reserve in l.reserves
  {
  }

  // ----- Round trip -----

  /** `ReserveInfo::from_reserve`. */
  function InfoOf(address: Pubkey, a: ReserveAccount): (info: ReserveInfo) {
    ReserveInfo(address, a.market, NonDefault(a.pyth), NonDefault(a.switchboardPrice), NonDefault(a.switchboardTwap),
                NonDefault(a.scope))
  }

  function OwnPrices(r: ReserveInfo): (prices: seq<Option<Pubkey>>)
    ensures |prices| == 4
  {
    [r.pythOracle, r.switchboardPriceOracle, r.switchboardTwapOracle, r.scopePrices]
  }

  /** The refreshes the helper's caller asked for. */
  function Wanted(reserves: seq<ReserveInfo>): (entries: seq<Entry>)
    ensures |entries| == |reserves|
  {
    seq(|reserves|, i requires 0 <= i < |reserves| => Entry(reserves[i].address, OwnPrices(reserves[i])))
  }

  /** The helper was given what the reserve accounts say. */
  ghost predicate FromLedger(l: Ledger, reserves: seq<ReserveInfo>) {
    forall i :: 0 <= i < |reserves| ==>
      reserves[i].address in l.reserves && reserves[i] == InfoOf(reserves[i].address, l.reserves[reserves[i].address])
  }

  /** The configured keys say the same to the client, which leaves out the default key alone, as to the
      program, which also leaves out its placeholder; and the switchboard keys go together. */
  predicate SameOracles(l: Ledger, a: ReserveAccount) {
    && a.pyth != l.nullKey && a.scope != l.nullKey
    && if Enabled(l, a.switchboardPrice) then a.twapEnabled ==> a.switchboardTwap != DEFAULT_KEY
       else a.switchboardPrice == DEFAULT_KEY == a.switchboardTwap
  }

  /** When the handler refreshes this reserve as the helper meant it. */
  predicate Served(l: Ledger, r: ReserveInfo)
    requires r.address in l.reserves
  {
    var a := l.reserves[r.address];
    && a.market !in l.emergencyMarkets && !a.deprecated
    && Some(l.programId) !in OwnPrices(r)
    && (a.emergency || !a.priceNeeded || (a.configValid && a.feedReads && SameOracles(l, a)))
  }

  lemma {:induction false} OwnPricesValidIff(l: Ledger, address: Pubkey, a: ReserveAccount)
    requires l.nullKey != DEFAULT_KEY
    ensures ValidatePrices(l, a, OwnPrices(InfoOf(address, a))).None? <==> a.configValid && SameOracles(l, a)
  {
  }

  /** The price accounts of a reserve as the handler reads them back. */
  lemma {:induction false} PricesRoundTrip(l: Ledger, r: ReserveInfo)
    ensures ReadFour(l, PriceAccounts(r, l.programId)) == OwnPrices(r) <==> Some(l.programId) !in OwnPrices(r)
  {
    var own, read := OwnPrices(r), ReadFour(l, PriceAccounts(r, l.programId));
    assert forall i :: 0 <= i < 4 ==> (read[i] == own[i] <==> own[i] != Some(l.programId));
    if Some(l.programId) !in own {
      assert read == own;
    }
  }

  lemma {:induction false} ReadHead(l: Ledger, reserves: seq<ReserveInfo>)
    requires FromLedger(l, reserves) && reserves != []
    ensures var head, a := reserves[0], l.reserves[reserves[0].address];
      var prices := ReadFour(l, PriceAccounts(head, l.programId));
      ReadBatch(l, BatchAccounts(reserves, l.programId), false) ==
      if ReserveError(l, head.address, a.market).Some? then Err(ReserveError(l, head.address, a.market).value)
      else match PriceError(l, a, prices)
        case Some(e) => Err(e)
        case None =>
          Prepend([Entry(head.address, prices)], ReadBatch(l, BatchAccounts(reserves[1..], l.programId), false))
  {
    hide ReserveError, PriceError, ReadFour, PriceAccounts;
    var accounts := BatchAccounts(reserves, l.programId);
    assert accounts[6..] == BatchAccounts(reserves[1..], l.programId);
    assert accounts[2..6] == PriceAccounts(reserves[0], l.programId);
  }

  lemma {:induction false} HeadServedIff(l: Ledger, head: ReserveInfo)
    requires l.nullKey != DEFAULT_KEY && head.address in l.reserves
    requires head == InfoOf(head.address, l.reserves[head.address])
    ensures var a := l.reserves[head.address]; var prices := ReadFour(l, PriceAccounts(head, l.programId));
      ReserveError(l, head.address, a.market).None? && PriceError(l, a, prices).None? && prices == OwnPrices(head) <==>
      Served(l, head)
  {
    hide SameOracles, ValidatePrices, ReadFour, PriceAccounts, OwnPrices;
    PricesRoundTrip(l, head);
    OwnPricesValidIff(l, head.address, l.reserves[head.address]);
  }

  /** With price updates, the handler performs exactly the refreshes the caller asked for if and only if
      every reserve is served: its market runs, it is not deprecated, no oracle is the program id, and,
      when its price is due, its oracle configuration is valid, says the same to both sides, and yields a
      price. */
  lemma {:induction false} BatchRoundTripIff(l: Ledger, reserves: seq<ReserveInfo>)
    requires l.nullKey != DEFAULT_KEY && FromLedger(l, reserves)
    ensures ReadBatch(l, BatchAccounts(reserves, l.programId), false) == Ok(Wanted(reserves)) <==>
            forall i :: 0 <= i < |reserves| ==> Served(l, reserves[i])
  {
    if reserves != [] {
      hide BatchAccounts, ReadBatch, ReadFour, PriceAccounts, OwnPrices, Served, ReserveError, PriceError, InfoOf;
      var head, tail := reserves[0], reserves[1..];
      assert FromLedger(l, tail) by { TailFromLedger(l, reserves); }
      BatchRoundTripIff(l, tail);
      ReadHead(l, reserves);
      HeadServedIff(l, head);
      AllServedCons(l, reserves);
      var own := Entry(head.address, OwnPrices(head));
      var read := Entry(head.address, ReadFour(l, PriceAccounts(head, l.programId)));
      assert Wanted(reserves) == [own] + Wanted(tail);
      var rest := ReadBatch(l, BatchAccounts(tail, l.programId), false);
      if rest.Ok? {
        SameCons(read, rest.value, own, Wanted(tail));
      }
    }
  }

  lemma {:induction false} SameCons(x: Entry, xs: seq<Entry>, y: Entry, ys: seq<Entry>)
    ensures [x] + xs == [y] + ys <==> x == y && xs == ys
  {
    assert ([x] + xs)[0] == x && ([x] + xs)[1..] == xs;
    assert ([y] + ys)[0] == y && ([y] + ys)[1..] == ys;
  }

  lemma {:induction false} TailFromLedger(l: Ledger, reserves: seq<ReserveInfo>)
    requires FromLedger(l, reserves) && reserves != []
    ensures FromLedger(l, reserves[1..])
  {
    assert forall i :: 0 <= i < |reserves[1..]| ==> reserves[1..][i] == reserves[i + 1];
  }

  lemma {:induction false} AllServedCons(l: Ledger, reserves: seq<ReserveInfo>)
    requires FromLedger(l, reserves) && reserves != []
    ensures FromLedger(l, reserves[1..])
    ensures (forall i :: 0 <= i < |reserves| ==> Served(l, reserves[i])) <==>
            Served(l, reserves[0]) && forall i :: 0 <= i < |reserves[1..]| ==> Served(l, reserves[1..][i])
  {
    hide Served;
    TailFromLedger(l, reserves);
    if Served(l, reserves[0]) && forall i :: 0 <= i < |reserves[1..]| ==> Served(l, reserves[1..][i]) {
      forall i | 0 <= i < |reserves|
        ensures Served(l, reserves[i])
      {
        if i > 0 {
          assert reserves[i] == reserves[1..][i - 1];
        }
      }
    }
  }

  /** Without price updates the two sides disagree on the stride: the handler takes two accounts a
      reserve, the helper wrote six. As long as price accounts and the program are not reserves
      themselves, the helper's list is accepted only when it is empty. */
  lemma {:induction false} SkippedPricesAcceptedIffEmpty(l: Ledger, reserves: seq<ReserveInfo>)
    requires forall i :: 0 <= i < |reserves| ==> OptionalAccount(l.programId, reserves[i].pythOracle) !in l.reserves
    ensures ReadBatch(l, BatchAccounts(reserves, l.programId), true).Ok? <==> reserves == []
  {
    if reserves != [] {
      var accounts := BatchAccounts(reserves, l.programId);
      assert accounts[2..][0] == OptionalAccount(l.programId, reserves[0].pythOracle);
      assert |accounts[2..]| >= 4;
      assert ReadBatch(l, accounts[2..], true).Err?;
    }
  }

  // ----- Any list at all -----

  /** Each refusal before the prices names what is wrong with reserve or market; without one, nothing is. */
  lemma {:induction false} ReserveRefusals(l: Ledger, reserve: Pubkey, market: Pubkey)
    ensures match ReserveError(l, reserve, market)
            case None =>
              && reserve in l.reserves && l.reserves[reserve].market == market
              && market !in l.emergencyMarkets && !l.reserves[reserve].deprecated
            case Some(NotAReserve) => reserve !in l.reserves
            case Some(BadAccount) => reserve in l.reserves && l.reserves[reserve].market != market
            case Some(GlobalEmergencyMode) => market in l.emergencyMarkets
            case Some(ReserveDeprecated) => reserve in l.reserves && l.reserves[reserve].deprecated
            case _ => false
  {
  }

  /** So does each refusal of the prices, and only a reserve whose price is due can meet one. */
  lemma {:induction false} PriceRefusals(l: Ledger, a: ReserveAccount, prices: seq<Option<Pubkey>>)
    requires |prices| == 4
    ensures PriceError(l, a, prices).Some? ==> a.priceNeeded && !a.emergency
    ensures match PriceError(l, a, prices)
            case None => a.priceNeeded && !a.emergency ==> a.configValid && a.feedReads
            case Some(InvalidOracleConfig) => !a.configValid
            case Some(InvalidPythPriceAccount) => prices[0] != Some(a.pyth) || !Enabled(l, a.pyth)
            case Some(InvalidSwitchboardAccount) => !SwitchboardMatches(l, a, prices[1], prices[2])
            case Some(InvalidScopePriceAccount) => prices[3] != Some(a.scope) || !Enabled(l, a.scope)
            case Some(PriceNotValid) => !a.feedReads
            case _ => false
  {
  }

  /** Account `n` of a batch, and what the handler may conclude from an entry it made of it. */
  ghost predicate EntrySound(l: Ledger, accounts: seq<Pubkey>, n: nat, skip: bool, entry: Entry) {
    var a := l.reserves;
    && n + (if skip then 2 else 6) <= |accounts|
    && accounts[n] in a && entry.reserve == accounts[n] && a[accounts[n]].market == accounts[n + 1]
    && accounts[n + 1] !in l.emergencyMarkets && !a[accounts[n]].deprecated
    && if skip then entry.prices == []
       else entry.prices == ReadFour(l, accounts[n + 2..n + 6])
            && PriceError(l, a[accounts[n]], ReadFour(l, accounts[n + 2..n + 6])).None?
  }

  /** Whatever list is accepted, it is made of whole groups, and every group is a refreshed reserve of its
      market, running and not deprecated, with price accounts that its configuration names. */
  lemma {:induction false} AcceptedBatchIsSound(l: Ledger, accounts: seq<Pubkey>, skip: bool)
    requires ReadBatch(l, accounts, skip).Ok?
    ensures var entries, stride := ReadBatch(l, accounts, skip).value, if skip then 2 else 6;
      && |accounts| == stride * |entries|
      && forall i :: 0 <= i < |entries| ==> EntrySound(l, accounts, stride * i, skip, entries[i])
  {
    hide ReadFour, PriceError, ReserveError;
    var entries := ReadBatch(l, accounts, skip).value;
    if accounts != [] {
      var stride := if skip then 2 else 6;
      var rest := accounts[stride..];
      ReserveRefusals(l, accounts[0], accounts[1]);
      AcceptedBatchIsSound(l, rest, skip);
      forall i | 0 <= i < |entries|
        ensures EntrySound(l, accounts, stride * i, skip, entries[i])
      {
        if i > 0 {
          assert entries[i] == ReadBatch(l, rest, skip).value[i - 1];
          assert EntrySound(l, rest, stride * (i - 1), skip, entries[i]);
          EntryMoves(l, accounts, stride, stride * (i - 1), skip, entries[i]);
        }
      }
    }
  }

  lemma {:induction false} EntryMoves(l: Ledger, accounts: seq<Pubkey>, start: nat, n: nat, skip: bool, entry: Entry)
    requires start <= |accounts| && EntrySound(l, accounts[start..], n, skip, entry)
    ensures EntrySound(l, accounts, start + n, skip, entry)
  {
    hide ReadFour, PriceError;
    if !skip {
      assert accounts[start..][n + 2..n + 6] == accounts[start + n + 2..start + n + 6];
    }
  }
}
