/** The seeds of every address derived under the lending program (`pda.rs`). Derivation hashes the
    concatenation of the seeds, so two addresses are kept apart only if their concatenations are. */
module PdaSeeds {
  import opened Common
  import opened Borsh

  type u64 = x: nat | x < 0x1_0000_0000_0000_0000

  /** One derived address, with its arguments. */
  datatype Address =
    | LendingMarketAuthority(market: Pubkey)
    | Obligation(tag: byte, id: byte, owner: Pubkey, market: Pubkey, seed1: Pubkey, seed2: Pubkey)
    | ReserveLiquiditySupply(reserve: Pubkey)
    | ReserveFeeReceiver(reserve: Pubkey)
    | ReserveCollateralMint(reserve: Pubkey)
    | ReserveCollateralSupply(reserve: Pubkey)
    | ReferrerTokenState(referrer: Pubkey, reserve: Pubkey)
    | UserMetadata(owner: Pubkey)
    | ReferrerState(referrer: Pubkey)
    | ShortUrl(url: seq<byte>)
    | GlobalConfig
    | WithdrawTicket(reserve: Pubkey, sequenceNumber: u64)
    | OwnerQueuedCollateralVault(reserve: Pubkey, owner: Pubkey)
    | EventAuthority

  /** A byte-string literal. */
  function Ascii(s: string): (bs: seq<byte>)
    ensures |bs| == |s| && forall i :: 0 <= i < |s| && s[i] as int < 256 ==> bs[i] as int == s[i] as int
  {
    seq(|s|, i requires 0 <= i < |s| => (s[i] as int % 256) as byte)
  }

  function Seeds(a: Address): (r: seq<seq<byte>>) {
    match a
    case LendingMarketAuthority(market) => [Ascii("lma"), market.bytes]
    case Obligation(tag, id, owner, market, seed1, seed2) =>
      [[tag], [id], owner.bytes, market.bytes, seed1.bytes, seed2.bytes]
    case ReserveLiquiditySupply(reserve) => [Ascii("reserve_liq_supply"), reserve.bytes]
    case ReserveFeeReceiver(reserve) => [Ascii("fee_receiver"), reserve.bytes]
    case ReserveCollateralMint(reserve) => [Ascii("reserve_coll_mint"), reserve.bytes]
    case ReserveCollateralSupply(reserve) => [Ascii("reserve_coll_supply"), reserve.bytes]
    case ReferrerTokenState(referrer, reserve) => [Ascii("referrer_acc"), referrer.bytes, reserve.bytes]
    case UserMetadata(owner) => [Ascii("user_meta"), owner.bytes]
    case ReferrerState(referrer) => [Ascii("ref_state"), referrer.bytes]
    case ShortUrl(url) => [Ascii("short_url"), url]
    case GlobalConfig => [Ascii("global_config")]
    case WithdrawTicket(reserve, n) => [Ascii("withdraw_ticket"), reserve.bytes, LittleEndian(n, 8)]
    case OwnerQueuedCollateralVault(reserve, owner) =>
      [Ascii("owner_queued_collateral_vault"), reserve.bytes, owner.bytes]
    case EventAuthority => [Ascii("__event_authority")]
  }

  function Concat(parts: seq<seq<byte>>): (r: seq<byte>) {
    if parts == [] then [] else parts[0] + Concat(parts[1..])
  }

  function Preimage(a: Address): (r: seq<byte>) { Concat(Seeds(a)) }

  // ----- Cutting concatenations -----

  lemma {:induction false} ConcatStep(s: seq<seq<byte>>)
    requires s != []
    ensures |s| == 1 ==> Concat(s) == s[0]
    ensures Concat(s) == s[0] + Concat(s[1..])
  {
    if |s| == 1 {
      assert s[1..] == [] && s[0] + [] == s[0];
    }
  }

  /** The concatenation of as many seeds as any address has. */
  lemma {:induction false} ConcatFlat(s: seq<seq<byte>>)
    ensures |s| == 1 ==> Concat(s) == s[0]
    ensures |s| == 2 ==> Concat(s) == s[0] + s[1]
    ensures |s| == 3 ==> Concat(s) == s[0] + (s[1] + s[2])
    ensures |s| == 6 ==> Concat(s) == s[0] + (s[1] + (s[2] + (s[3] + (s[4] + s[5]))))
  {
    hide Concat;
    if s != [] {
      ConcatStep(s);
      if |s| > 1 {
        ConcatFlat(s[1..]);
        if |s| == 6 {
          assert s[1..][1..] == s[2..] && s[2..][1..] == s[3..];
          ConcatStep(s[1..]);
          ConcatStep(s[2..]);
          ConcatFlat(s[3..]);
        }
      }
    }
  }

  lemma {:induction false} Cut(a: seq<byte>, b: seq<byte>, a': seq<byte>, b': seq<byte>)
    requires a + b == a' + b' && |a| == |a'|
    ensures a == a' && b == b'
  {
    assert a == (a + b)[..|a|] && b == (a + b)[|a|..];
    assert a' == (a' + b')[..|a|] && b' == (a' + b')[|a|..];
  }

  // ----- Length and first byte tell the families apart -----

  function Length(a: Address): (r: nat) {
    match a
    case LendingMarketAuthority(_) => 35
    case Obligation(_, _, _, _, _, _) => 130
    case ReserveLiquiditySupply(_) => 50
    case ReserveFeeReceiver(_) => 44
    case ReserveCollateralMint(_) => 49
    case ReserveCollateralSupply(_) => 51
    case ReferrerTokenState(_, _) => 76
    case UserMetadata(_) => 41
    case ReferrerState(_) => 41
    case ShortUrl(url) => 9 + |url|
    case GlobalConfig => 13
    case WithdrawTicket(_, _) => 55
    case OwnerQueuedCollateralVault(_, _) => 93
    case EventAuthority => 17
  }

  function Head(a: Address): (r: char) {
    match a
    case LendingMarketAuthority(_) => 'l'
    case Obligation(tag, _, _, _, _, _) => (tag as int) as char
    case ReserveLiquiditySupply(_) => 'r'
    case ReserveFeeReceiver(_) => 'f'
    case ReserveCollateralMint(_) => 'r'
    case ReserveCollateralSupply(_) => 'r'
    case ReferrerTokenState(_, _) => 'r'
    case UserMetadata(_) => 'u'
    case ReferrerState(_) => 'r'
    case ShortUrl(_) => 's'
    case GlobalConfig => 'g'
    case WithdrawTicket(_, _) => 'w'
    case OwnerQueuedCollateralVault(_, _) => 'o'
    case EventAuthority => '_'
  }

  lemma {:induction false} Shape(a: Address)
    ensures |Preimage(a)| == Length(a) && Preimage(a)[0] as int == Head(a) as int
  {
    hide Concat, Ascii;
    ConcatFlat(Seeds(a));
  }

  /** The one pair of families whose preimages can meet: an obligation and a 121-byte short URL. */
  predicate Overlong(a: Address, b: Address) {
    a.Obligation? && b.ShortUrl? && |b.url| == 121
  }

  function Family(a: Address): (r: nat) {
    match a
    case LendingMarketAuthority(_) => 0
    case Obligation(_, _, _, _, _, _) => 1
    case ReserveLiquiditySupply(_) => 2
    case ReserveFeeReceiver(_) => 3
    case ReserveCollateralMint(_) => 4
    case ReserveCollateralSupply(_) => 5
    case ReferrerTokenState(_, _) => 6
    case UserMetadata(_) => 7
    case ReferrerState(_) => 8
    case ShortUrl(_) => 9
    case GlobalConfig => 10
    case WithdrawTicket(_, _) => 11
    case OwnerQueuedCollateralVault(_, _) => 12
    case EventAuthority => 13
  }

  lemma {:induction false} ShapeTellsFamily(a: Address, b: Address)
    requires Length(a) == Length(b) && Head(a) == Head(b)
    ensures Family(a) == Family(b) || Overlong(a, b) || Overlong(b, a)
  {
  }

  lemma {:induction false} SameFamilyInjective(a: Address, b: Address)
    requires Family(a) == Family(b) && Preimage(a) == Preimage(b)
    ensures a == b
  {
    hide Concat, Ascii, LittleEndian;
    var s, t := Seeds(a), Seeds(b);
    ConcatFlat(s);
    ConcatFlat(t);
    if |s| == 2 {
      Cut(s[0], s[1], t[0], t[1]);
    } else if |s| == 3 {
      Cut(s[0], s[1] + s[2], t[0], t[1] + t[2]);
      Cut(s[1], s[2], t[1], t[2]);
      if a.WithdrawTicket? {
        EightBytes();
        IntegerRoundTrip(a.sequenceNumber, 8);
        IntegerRoundTrip(b.sequenceNumber, 8);
      }
    } else if |s| == 6 {
      ObligationInjective(a, b);
    }
  }

  lemma {:induction false} EightBytes()
    ensures Pow256(8) == 0x1_0000_0000_0000_0000
  {
    FourBytes();
    assert Pow256(5) == 256 * U32_LIMIT && Pow256(6) == 256 * Pow256(5);
    assert Pow256(7) == 256 * Pow256(6) && Pow256(8) == 256 * Pow256(7);
  }

  lemma {:induction false} ObligationInjective(a: Address, b: Address)
    requires a.Obligation? && b.Obligation? && Preimage(a) == Preimage(b)
    ensures a == b
  {
    hide Concat;
    var s, t := Seeds(a), Seeds(b);
    ConcatFlat(s);
    ConcatFlat(t);
    Cut(s[0], s[1] + (s[2] + (s[3] + (s[4] + s[5]))), t[0], t[1] + (t[2] + (t[3] + (t[4] + t[5]))));
    Cut(s[1], s[2] + (s[3] + (s[4] + s[5])), t[1], t[2] + (t[3] + (t[4] + t[5])));
    Cut(s[2], s[3] + (s[4] + s[5]), t[2], t[3] + (t[4] + t[5]));
    Cut(s[3], s[4] + s[5], t[3], t[4] + t[5]);
    Cut(s[4], s[5], t[4], t[5]);
    assert [a.tag][0] == [b.tag][0] && [a.id][0] == [b.id][0];
  }

  /** Separation: two different derived addresses never share a preimage, whatever their families and
      however long the short URL is, except an obligation and a URL of exactly 121 bytes. */
  lemma {:induction false} PreimagesSeparate(a: Address, b: Address)
    requires Preimage(a) == Preimage(b)
    ensures a == b || Overlong(a, b) || Overlong(b, a)
  {
    hide Preimage;
    Shape(a);
    Shape(b);
    assert Head(a) as int == Head(b) as int;
    ShapeTellsFamily(a, b);
    if Family(a) == Family(b) {
      SameFamilyInjective(a, b);
    }
  }

  /** The obligation whose seeds are any given 130 bytes. */
  function ObligationOf(p: seq<byte>): (r: Address)
    requires |p| == 130
  {
    Obligation(p[0], p[1], Pubkey(p[2..34]), Pubkey(p[34..66]), Pubkey(p[66..98]), Pubkey(p[98..130]))
  }

  lemma {:induction false} AnyBytesAreAnObligation(p: seq<byte>)
    requires |p| == 130
    ensures Preimage(ObligationOf(p)) == p
  {
    hide Concat;
    ConcatFlat(Seeds(ObligationOf(p)));
    assert p[66..98] + p[98..130] == p[66..130];
    assert p[34..66] + p[66..130] == p[34..130];
    assert p[2..34] + p[34..130] == p[2..130];
    assert [p[1]] + p[2..130] == p[1..130];
    assert [p[0]] + p[1..130] == p;
  }

  /** The exception is real: every URL of 121 bytes shares its preimage with some obligation. */
  lemma {:induction false} OverlongUrlCollides(url: seq<byte>)
    requires |url| == 121
    ensures |Preimage(ShortUrl(url))| == 130 && ObligationOf(Preimage(ShortUrl(url))) != ShortUrl(url)
    ensures Preimage(ObligationOf(Preimage(ShortUrl(url)))) == Preimage(ShortUrl(url))
  {
    hide Preimage;
    Shape(ShortUrl(url));
    AnyBytesAreAnObligation(Preimage(ShortUrl(url)));
  }

  // ----- Reading an address back from its preimage -----

  predicate Starts(p: seq<byte>, prefix: string) { |p| >= |prefix| && p[..|prefix|] == Ascii(prefix) }

  function KeyAt(p: seq<byte>, i: nat): (key: Pubkey)
    requires i + 32 <= |p|
  {
    Pubkey(p[i..i + 32])
  }

  /** A literal and one key. */
  function ReadOneKey(p: seq<byte>): (a: Option<Address>) {
    if |p| == 35 && Starts(p, "lma") then Some(LendingMarketAuthority(KeyAt(p, 3)))
    else if |p| == 50 && Starts(p, "reserve_liq_supply") then Some(ReserveLiquiditySupply(KeyAt(p, 18)))
    else if |p| == 44 && Starts(p, "fee_receiver") then Some(ReserveFeeReceiver(KeyAt(p, 12)))
    else if |p| == 49 && Starts(p, "reserve_coll_mint") then Some(ReserveCollateralMint(KeyAt(p, 17)))
    else if |p| == 51 && Starts(p, "reserve_coll_supply") then Some(ReserveCollateralSupply(KeyAt(p, 19)))
    else if |p| == 41 && Starts(p, "user_meta") then Some(UserMetadata(KeyAt(p, 9)))
    else if |p| == 41 && Starts(p, "ref_state") then Some(ReferrerState(KeyAt(p, 9)))
    else None
  }

  /** A literal, a key, and a key or a number. */
  function ReadTwo(p: seq<byte>): (a: Option<Address>) {
    if |p| == 76 && Starts(p, "referrer_acc") then Some(ReferrerTokenState(KeyAt(p, 12), KeyAt(p, 44)))
    else if |p| == 55 && Starts(p, "withdraw_ticket") then
      EightBytes();
      BytesRoundTrip(p[47..]);
      Some(WithdrawTicket(KeyAt(p, 15), FromLittleEndian(p[47..])))
    else if |p| == 93 && Starts(p, "owner_queued_collateral_vault") then
      Some(OwnerQueuedCollateralVault(KeyAt(p, 29), KeyAt(p, 61)))
    else None
  }

  /** The address whose seeds are these bytes, each argument at its own offset. */
  function ReadAddress(p: seq<byte>): (a: Option<Address>) {
    if |p| == 130 then Some(ObligationOf(p))
    else if Starts(p, "short_url") then Some(ShortUrl(p[9..]))
    else if p == Ascii("global_config") then Some(GlobalConfig)
    else if p == Ascii("__event_authority") then Some(EventAuthority)
    else if ReadOneKey(p).Some? then ReadOneKey(p)
    else ReadTwo(p)
  }

  lemma {:induction false} OneKeyIsSeeds(p: seq<byte>)
    requires ReadOneKey(p).Some?
    ensures Preimage(ReadOneKey(p).value) == p
  {
    hide Concat, Ascii;
    var a := ReadOneKey(p).value;
    ConcatFlat(Seeds(a));
    var k := |Seeds(a)[0]|;
    assert p[..k] + p[k..] == p;
  }

  lemma {:induction false} TwoAreSeeds(p: seq<byte>)
    requires ReadTwo(p).Some?
    ensures Preimage(ReadTwo(p).value) == p
  {
    hide Concat, Ascii, LittleEndian, FromLittleEndian;
    var a := ReadTwo(p).value;
    ConcatFlat(Seeds(a));
    var k := |Seeds(a)[0]|;
    assert p[k..] == p[k..k + 32] + p[k + 32..];
    assert p[..k] + p[k..] == p;
    BytesRoundTrip(p[k + 32..]);
  }

  lemma {:induction false} ReadBytesAreSeeds(p: seq<byte>)
    requires ReadAddress(p).Some?
    ensures Preimage(ReadAddress(p).value) == p
  {
    hide Concat, Ascii, ReadOneKey, ReadTwo;
    if |p| == 130 {
      AnyBytesAreAnObligation(p);
    } else if ReadAddress(p) == ReadOneKey(p) {
      OneKeyIsSeeds(p);
    } else if ReadAddress(p) == ReadTwo(p) {
      TwoAreSeeds(p);
    } else {
      var a := ReadAddress(p).value;
      ConcatFlat(Seeds(a));
      assert a.ShortUrl? ==> p[..9] + p[9..] == p;
    }
  }

  /** Reading inverts deriving: every address but a short URL as long as an obligation's seeds is read back,
      with every argument in its place, and whatever is read has exactly these seeds. */
  lemma {:induction false} ReadAddressIff(p: seq<byte>, a: Address)
    ensures ReadAddress(p) == Some(a) <==> Preimage(a) == p && !(a.ShortUrl? && |a.url| == 121)
  {
    hide Preimage, Concat, Ascii;
    if ReadAddress(p).Some? {
      ReadBytesAreSeeds(p);
      Shape(ReadAddress(p).value);
      if Preimage(a) == p {
        PreimagesSeparate(a, ReadAddress(p).value);
      }
    }
    if Preimage(a) == p {
      Shape(a);
      SeedsAreRead(a);
    }
  }

  lemma {:induction false} SeedsAreRead(a: Address)
    ensures ReadAddress(Preimage(a)).Some?
  {
    hide Concat, Ascii, ReadOneKey, ReadTwo, Preimage;
    FirstSeed(a);
    Shape(a);
    if |Seeds(a)| == 2 && !a.ShortUrl? {
      hide ReadAddress;
      OneKeySeedsAreRead(a);
    } else if |Seeds(a)| == 3 {
      hide ReadAddress;
      TwoSeedsAreRead(a);
    }
  }

  lemma {:induction false} FirstSeed(a: Address)
    ensures |Preimage(a)| >= |Seeds(a)[0]| && Preimage(a)[..|Seeds(a)[0]|] == Seeds(a)[0]
    ensures |Seeds(a)| == 1 ==> Preimage(a) == Seeds(a)[0]
  {
    hide Concat, Ascii, LittleEndian;
    ConcatFlat(Seeds(a));
  }

  lemma {:induction false} OneKeySeedsAreRead(a: Address)
    requires |Seeds(a)| == 2 && !a.ShortUrl?
    ensures ReadAddress(Preimage(a)).Some?
  {
    hide Concat, Ascii, Preimage, ReadTwo, KeyAt;
    FirstSeed(a);
    Shape(a);
  }

  lemma {:induction false} TwoSeedsAreRead(a: Address)
    requires |Seeds(a)| == 3
    ensures ReadAddress(Preimage(a)).Some?
  {
    hide Concat, Ascii, Preimage, ReadOneKey, KeyAt, LittleEndian, FromLittleEndian;
    FirstSeed(a);
    Shape(a);
  }

  const MAX_SEED_LEN: nat := 32

  /** What `find_program_address` accepts. */
  ghost predicate Derivable(a: Address) {
    forall i :: 0 <= i < |Seeds(a)| ==> |Seeds(a)[i]| <= MAX_SEED_LEN
  }

  /** Within the runtime's seed limit there is no exception at all, and the limit binds nothing but
      the short URL. */
  lemma {:induction false} DerivablePreimagesSeparate(a: Address, b: Address)
    ensures Derivable(a) <==> (a.ShortUrl? ==> |a.url| <= MAX_SEED_LEN)
    ensures Derivable(a) && Derivable(b) ==> (Preimage(a) == Preimage(b) <==> a == b)
  {
    hide Preimage, Ascii, LittleEndian;
    SeedLengths(a);
    SeedLengths(b);
    if Preimage(a) == Preimage(b) {
      PreimagesSeparate(a, b);
    }
  }

  lemma {:induction false} SeedLengths(a: Address)
    ensures Derivable(a) <==> (a.ShortUrl? ==> |a.url| <= MAX_SEED_LEN)
  {
    hide Ascii, LittleEndian;
    if a.ShortUrl? {
      assert Seeds(a)[1] == a.url;
    }
  }
}
