/** Instruction data of the client library: an 8-byte discriminator and the Borsh encoding of the
    arguments (`instructions/obligation.rs`, `instructions/orders.rs`, `instructions/referrer.rs`), and
    `identify_instruction`, which reads the discriminator back. */
module InstructionData {
  import opened Common
  import opened Borsh

  const U64_LIMIT: int := 0x1_0000_0000_0000_0000
  const U128_LIMIT: int := 0x1_0000_0000_0000_0000_0000_0000_0000_0000

  type u16 = x: nat | x < 0x1_0000
  type u32 = x: nat | x < 0x1_0000_0000
  type u64 = x: nat | x < U64_LIMIT
  type u128 = x: nat | x < U128_LIMIT

  // ----- Argument types -----

  datatype UpdateObligationConfigMode =
    | FixedTermRolloverEnabled | FixedTermRolloverMaxBorrowRateBps | FixedTermRolloverMinDebtTermSeconds
    | FixedTermRolloverOpenTermAllowed | MigrationToFixedEnabled

  function ModeTag(m: UpdateObligationConfigMode): (r: nat) {
    match m
    case FixedTermRolloverEnabled => 0
    case FixedTermRolloverMaxBorrowRateBps => 1
    case FixedTermRolloverMinDebtTermSeconds => 2
    case FixedTermRolloverOpenTermAllowed => 3
    case MigrationToFixedEnabled => 4
  }

  /** The modes in the order of their declaration, which is what Borsh numbers. */
  const MODES: seq<UpdateObligationConfigMode> := [
    FixedTermRolloverEnabled, FixedTermRolloverMaxBorrowRateBps, FixedTermRolloverMinDebtTermSeconds,
    FixedTermRolloverOpenTermAllowed, MigrationToFixedEnabled]

  lemma {:induction false} TagsNumberModes(m: UpdateObligationConfigMode, n: nat)
    ensures ModeTag(m) == n <==> n < |MODES| && MODES[n] == m
  {
  }

  datatype ObligationOrder = ObligationOrder(
    conditionThresholdSf: u128, opportunityParameterSf: u128, minExecutionBonusBps: u16, maxExecutionBonusBps: u16,
    conditionType: byte, opportunityType: byte, padding1: seq<byte>, padding2: seq<u128>)

  datatype BorrowOrderConfigArgs = BorrowOrderConfigArgs(
    remainingDebtAmount: u64, maxBorrowRateBps: u32, minDebtTermSeconds: u64, fillableUntilTimestamp: u64)

  const UPDATE_OBLIGATION_CONFIG: seq<Schema> := [Enum(5), Bytes]
  const INIT_REFERRER_STATE_AND_SHORT_URL: seq<Schema> := [Bytes]
  const INITIATE_OBLIGATION_OWNERSHIP_TRANSFER: seq<Schema> := [FixedBytes(32)]
  const PADDING2: seq<Schema> := [UInt(16), UInt(16), UInt(16), UInt(16), UInt(16)]
  const OBLIGATION_ORDER: seq<Schema> :=
    [UInt(16), UInt(16), UInt(2), UInt(2), UInt(1), UInt(1), FixedBytes(10), Struct(PADDING2)]
  const SET_OBLIGATION_ORDER: seq<Schema> := [UInt(1), Struct(OBLIGATION_ORDER)]
  const BORROW_ORDER_CONFIG: seq<Schema> := [UInt(8), UInt(4), UInt(8), UInt(8)]
  const SET_BORROW_ORDER: seq<Schema> := [Struct(BORROW_ORDER_CONFIG), UInt(8)]

  /** The handler's own `BorrowOrderConfigArgs` (`handler_set_borrow_order.rs`) has a fifth field, a bool. */
  const HANDLER_BORROW_ORDER_CONFIG: seq<Schema> := [UInt(8), UInt(4), UInt(8), UInt(8), Enum(2)]
  const HANDLER_SET_BORROW_ORDER: seq<Schema> := [Struct(HANDLER_BORROW_ORDER_CONFIG), UInt(8)]

  function OrderValue(o: ObligationOrder): (r: Value) {
    Tuple([Num(o.conditionThresholdSf), Num(o.opportunityParameterSf), Num(o.minExecutionBonusBps),
           Num(o.maxExecutionBonusBps), Num(o.conditionType as nat), Num(o.opportunityType as nat),
           Blob(o.padding1), Tuple(seq(|o.padding2|, i requires 0 <= i < |o.padding2| => Num(o.padding2[i])))])
  }

  function BorrowOrderValue(c: BorrowOrderConfigArgs): (r: Value) {
    Tuple([Num(c.remainingDebtAmount), Num(c.maxBorrowRateBps), Num(c.minDebtTermSeconds),
      Num(c.fillableUntilTimestamp)])
  }

  lemma {:induction false} Widths()
    ensures Pow256(1) == 256 && Pow256(2) == 0x1_0000 && Pow256(4) == U32_LIMIT && Pow256(8) == U64_LIMIT
            && Pow256(16) == U128_LIMIT
  {
    FourBytes();
    assert Pow256(1) == 256 && Pow256(2) == 256 * 256;
    assert Pow256(5) == 256 * U32_LIMIT && Pow256(6) == 256 * Pow256(5);
    assert Pow256(7) == 256 * Pow256(6) && Pow256(8) == 256 * Pow256(7);
    assert Pow256(9) == 256 * U64_LIMIT && Pow256(10) == 256 * Pow256(9);
    assert Pow256(11) == 256 * Pow256(10) && Pow256(12) == 256 * Pow256(11);
    assert Pow256(13) == 256 * Pow256(12) && Pow256(14) == 256 * Pow256(13);
    assert Pow256(15) == 256 * Pow256(14) && Pow256(16) == 256 * Pow256(15);
  }

  lemma {:induction false} WellTypedByField(fields: seq<Schema>, items: seq<Value>)
    requires |fields| == |items| && forall i :: 0 <= i < |fields| ==> WellTyped(fields[i], items[i])
    ensures AllWellTyped(fields, items)
  {
    if fields != [] {
      WellTypedByField(fields[1..], items[1..]);
    }
  }

  lemma {:induction false} OrderWellTyped(o: ObligationOrder)
    requires |o.padding1| == 10 && |o.padding2| == 5
    ensures WellTyped(Struct(OBLIGATION_ORDER), OrderValue(o))
  {
    Widths();
    WellTypedByField(PADDING2, OrderValue(o).items[7].items);
    WellTypedByField(OBLIGATION_ORDER, OrderValue(o).items);
  }

  lemma {:induction false} BorrowOrderWellTyped(c: BorrowOrderConfigArgs)
    ensures WellTyped(Struct(BORROW_ORDER_CONFIG), BorrowOrderValue(c))
  {
    Widths();
    WellTypedByField(BORROW_ORDER_CONFIG, BorrowOrderValue(c).items);
  }

  // ----- What the arguments are as bytes -----

  lemma {:induction false} Fields2(f: seq<Schema>, v: seq<Value>)
    requires |f| == 2 && AllWellTyped(f, v)
    ensures WellTyped(f[0], v[0]) && WellTyped(f[1], v[1])
    ensures EncodeAll(f, v) == Encode(f[0], v[0]) + Encode(f[1], v[1])
  {
    hide Encode, WellTyped;
    assert f[1..] == [f[1]] && v[1..] == [v[1]];
    Fields1(f[1..], v[1..]);
  }

  lemma {:induction false} Fields1(f: seq<Schema>, v: seq<Value>)
    requires |f| == 1 && AllWellTyped(f, v)
    ensures WellTyped(f[0], v[0]) && EncodeAll(f, v) == Encode(f[0], v[0])
  {
    hide Encode, WellTyped;
    assert f[1..] == [] && v[1..] == [];
    assert Encode(f[0], v[0]) + [] == Encode(f[0], v[0]);
  }

  lemma {:induction false} Fields4(f: seq<Schema>, v: seq<Value>)
    requires |f| == 4 && AllWellTyped(f, v)
    ensures forall i :: 0 <= i < 4 ==> WellTyped(f[i], v[i])
    ensures EncodeAll(f, v) == Encode(f[0], v[0]) + Encode(f[1], v[1]) + (Encode(f[2], v[2]) + Encode(f[3], v[3]))
  {
    hide Encode, WellTyped;
    assert f[1..][1..] == f[2..] && v[1..][1..] == v[2..];
    Fields2(f[2..], v[2..]);
    var a, b, c := Encode(f[0], v[0]), Encode(f[1], v[1]), EncodeAll(f[2..], v[2..]);
    assert a + (b + c) == a + b + c;
  }

  lemma {:induction false} Fields8(f: seq<Schema>, v: seq<Value>)
    requires |f| == 8 && AllWellTyped(f, v)
    ensures forall i :: 0 <= i < 8 ==> WellTyped(f[i], v[i])
    ensures EncodeAll(f, v) ==
            Encode(f[0], v[0]) + Encode(f[1], v[1]) + (Encode(f[2], v[2]) + Encode(f[3], v[3]))
            + (Encode(f[4], v[4]) + Encode(f[5], v[5]) + (Encode(f[6], v[6]) + Encode(f[7], v[7])))
  {
    hide Encode, WellTyped;
    FieldAt(f, v, 4);
    Fields4(f[4..], v[4..]);
    Fields4(f[..4], v[..4]);
    FieldAt(f[4..], v[4..], 0);
  }

  /** The bytes of a borrow order and the expected amount: five little-endian integers of 8, 4, 8, 8 and 8
      bytes, in the order of the client's struct. */
  function BorrowOrderBytes(c: BorrowOrderConfigArgs, minExpectedRemaining: u64): (bs: seq<byte>) {
    LittleEndian(c.remainingDebtAmount, 8) + LittleEndian(c.maxBorrowRateBps, 4)
    + (LittleEndian(c.minDebtTermSeconds, 8) + LittleEndian(c.fillableUntilTimestamp, 8))
    + LittleEndian(minExpectedRemaining, 8)
  }

  lemma {:induction false} BorrowOrderAsBytes(c: BorrowOrderConfigArgs, minExpectedRemaining: u64)
    ensures WellTyped(Struct(SET_BORROW_ORDER), Tuple([BorrowOrderValue(c), Num(minExpectedRemaining)]))
    ensures Encode(Struct(SET_BORROW_ORDER), Tuple([BorrowOrderValue(c), Num(minExpectedRemaining)])) ==
            BorrowOrderBytes(c, minExpectedRemaining)
  {
    hide LittleEndian;
    Widths();
    BorrowOrderWellTyped(c);
    WellTypedByField(SET_BORROW_ORDER, [BorrowOrderValue(c), Num(minExpectedRemaining)]);
    Fields2(SET_BORROW_ORDER, [BorrowOrderValue(c), Num(minExpectedRemaining)]);
    Fields4(BORROW_ORDER_CONFIG, BorrowOrderValue(c).items);
  }

  function WordsAsBytes(ws: seq<u128>): (bs: seq<byte>) {
    if ws == [] then [] else LittleEndian(ws[0], 16) + WordsAsBytes(ws[1..])
  }

  lemma {:induction false} WordsEncode(fields: seq<Schema>, items: seq<Value>, ws: seq<u128>)
    requires |fields| == |items| == |ws| && AllWellTyped(fields, items)
    requires forall i :: 0 <= i < |ws| ==> fields[i] == UInt(16) && items[i] == Num(ws[i])
    ensures EncodeAll(fields, items) == WordsAsBytes(ws)
  {
    hide LittleEndian;
    if ws != [] {
      WordsEncode(fields[1..], items[1..], ws[1..]);
    }
  }

  /** The bytes of an obligation order: threshold and parameter, both bonuses, both types, and the padding. */
  function OrderBytes(o: ObligationOrder): (bs: seq<byte>) {
    LittleEndian(o.conditionThresholdSf, 16) + LittleEndian(o.opportunityParameterSf, 16)
    + (LittleEndian(o.minExecutionBonusBps, 2) + LittleEndian(o.maxExecutionBonusBps, 2))
    + ([o.conditionType] + [o.opportunityType] + (o.padding1 + WordsAsBytes(o.padding2)))
  }

  lemma {:induction false} OneByte(b: byte)
    ensures LittleEndian(b as nat, 1) == [b]
  {
    assert LittleEndian(b as nat, 1) == [(b as nat % 256) as byte] + LittleEndian(b as nat / 256, 0);
  }

  lemma {:induction false} OrderAsBytes(o: ObligationOrder)
    requires |o.padding1| == 10 && |o.padding2| == 5
    ensures WellTyped(Struct(OBLIGATION_ORDER), OrderValue(o))
    ensures Encode(Struct(OBLIGATION_ORDER), OrderValue(o)) == OrderBytes(o)
  {
    OrderWellTyped(o);
    hide LittleEndian;
    Fields8(OBLIGATION_ORDER, OrderValue(o).items);
    OneByte(o.conditionType);
    OneByte(o.opportunityType);
    WordsEncode(PADDING2, OrderValue(o).items[7].items, o.padding2);
  }

  // ----- Builders -----

  /** A derived `serialize(&mut data)`: append the fields in order. */
  method Serialize(data: seq<byte>, fields: seq<Schema>, items: seq<Value>) returns (out: seq<byte>)
    requires AllWellTyped(fields, items)
    ensures out == data + EncodeAll(fields, items)
  {
    out := data;
    assert fields[0..] == fields && items[0..] == items;
    for i := 0 to |fields|
      invariant AllWellTyped(fields[i..], items[i..])
      invariant out + EncodeAll(fields[i..], items[i..]) == data + EncodeAll(fields, items)
    {
      assert fields[i..][1..] == fields[i + 1..] && items[i..][1..] == items[i + 1..];
      out := out + Encode(fields[i], items[i]);
    }
    assert fields[|fields|..] == [] && out + [] == out;
  }

  method UpdateObligationConfig(
    disc: seq<byte>, mode: UpdateObligationConfigMode, value: seq<byte>)
    returns (data: seq<byte>)
    requires |value| < U32_LIMIT
    ensures WellTyped(Struct(UPDATE_OBLIGATION_CONFIG), Tuple([Num(ModeTag(mode)), Blob(value)]))
    ensures data == disc + Encode(Struct(UPDATE_OBLIGATION_CONFIG), Tuple([Num(ModeTag(mode)), Blob(value)]))
    ensures data == disc + ([ModeTag(mode) as byte] + (LittleEndian(|value|, 4) + value))
  {
    hide LittleEndian;
    WellTypedByField(UPDATE_OBLIGATION_CONFIG, [Num(ModeTag(mode)), Blob(value)]);
    data := Serialize(disc, UPDATE_OBLIGATION_CONFIG, [Num(ModeTag(mode)), Blob(value)]);
    Fields2(UPDATE_OBLIGATION_CONFIG, [Num(ModeTag(mode)), Blob(value)]);
  }

  method InitReferrerStateAndShortUrl(disc: seq<byte>, shortUrl: seq<byte>) returns (data: seq<byte>)
    requires |shortUrl| < U32_LIMIT
    ensures WellTyped(Struct(INIT_REFERRER_STATE_AND_SHORT_URL), Tuple([Blob(shortUrl)]))
    ensures data == disc + Encode(Struct(INIT_REFERRER_STATE_AND_SHORT_URL), Tuple([Blob(shortUrl)]))
    ensures data == disc + (LittleEndian(|shortUrl|, 4) + shortUrl)
  {
    hide LittleEndian;
    WellTypedByField(INIT_REFERRER_STATE_AND_SHORT_URL, [Blob(shortUrl)]);
    data := Serialize(disc, INIT_REFERRER_STATE_AND_SHORT_URL, [Blob(shortUrl)]);
    Fields1(INIT_REFERRER_STATE_AND_SHORT_URL, [Blob(shortUrl)]);
  }

  method InitiateObligationOwnershipTransfer(disc: seq<byte>, newOwner: Pubkey) returns (data: seq<byte>)
    ensures WellTyped(Struct(INITIATE_OBLIGATION_OWNERSHIP_TRANSFER), Tuple([Blob(newOwner.bytes)]))
    ensures data == disc + Encode(Struct(INITIATE_OBLIGATION_OWNERSHIP_TRANSFER), Tuple([Blob(newOwner.bytes)]))
    ensures data == disc + newOwner.bytes
  {
    WellTypedByField(INITIATE_OBLIGATION_OWNERSHIP_TRANSFER, [Blob(newOwner.bytes)]);
    data := Serialize(disc, INITIATE_OBLIGATION_OWNERSHIP_TRANSFER, [Blob(newOwner.bytes)]);
    Fields1(INITIATE_OBLIGATION_OWNERSHIP_TRANSFER, [Blob(newOwner.bytes)]);
  }

  method SetObligationOrder(disc: seq<byte>, index: byte, order: ObligationOrder) returns (data: seq<byte>)
    requires |order.padding1| == 10 && |order.padding2| == 5
    ensures WellTyped(Struct(SET_OBLIGATION_ORDER), Tuple([Num(index as nat), OrderValue(order)]))
    ensures data == disc + Encode(Struct(SET_OBLIGATION_ORDER), Tuple([Num(index as nat), OrderValue(order)]))
    ensures data == disc + ([index] + OrderBytes(order))
  {
    hide OrderValue, OrderBytes, LittleEndian;
    Widths();
    OrderWellTyped(order);
    WellTypedByField(SET_OBLIGATION_ORDER, [Num(index as nat), OrderValue(order)]);
    data := Serialize(disc, SET_OBLIGATION_ORDER, [Num(index as nat), OrderValue(order)]);
    Fields2(SET_OBLIGATION_ORDER, [Num(index as nat), OrderValue(order)]);
    OneByte(index);
    OrderAsBytes(order);
  }

  method SetBorrowOrder(
    disc: seq<byte>, config: BorrowOrderConfigArgs, minExpectedRemaining: u64)
    returns (data: seq<byte>)
    ensures WellTyped(Struct(SET_BORROW_ORDER), Tuple([BorrowOrderValue(config), Num(minExpectedRemaining)]))
    ensures data == disc + Encode(Struct(SET_BORROW_ORDER),
            Tuple([BorrowOrderValue(config), Num(minExpectedRemaining)]))
    ensures data == disc + BorrowOrderBytes(config, minExpectedRemaining)
  {
    hide BorrowOrderValue, BorrowOrderBytes;
    Widths();
    BorrowOrderWellTyped(config);
    WellTypedByField(SET_BORROW_ORDER, [BorrowOrderValue(config), Num(minExpectedRemaining)]);
    data := Serialize(disc, SET_BORROW_ORDER, [BorrowOrderValue(config), Num(minExpectedRemaining)]);
    BorrowOrderAsBytes(config, minExpectedRemaining);
  }

  // ----- Reading instruction data back -----

  /** One known instruction: its discriminator and the schema of its arguments. */
  datatype Known = Known(disc: seq<byte>, args: Schema)

  ghost predicate DistinctDiscriminators(table: seq<Known>) {
    && (forall i :: 0 <= i < |table| ==> |table[i].disc| == 8)
    && (forall i, j :: 0 <= i < j < |table| ==> table[i].disc != table[j].disc)
  }

  /** `identify_instruction`: the first table entry that matches the first eight bytes. */
  function IdentifyInstruction(table: seq<Known>, data: seq<byte>): (r: Option<nat>)
    ensures r.Some? ==> r.value < |table| && |data| >= 8 && table[r.value].disc == data[..8]
    ensures r.None? && |data| >= 8 ==> forall i :: 0 <= i < |table| ==> table[i].disc != data[..8]
  {
    if |data| < 8 || table == [] then None
    else if table[0].disc == data[..8] then Some(0)
    else match IdentifyInstruction(table[1..], data)
      case None =>
        assert forall i :: 1 <= i < |table| ==> table[i] == table[1..][i - 1];
        None
      case Some(i) => Some(i + 1)
  }

  /** The instruction and its arguments, when the data is exactly one of the known encodings. */
  function ReadInstruction(table: seq<Known>, data: seq<byte>): (r: Option<(nat, Value)>) {
    match IdentifyInstruction(table, data)
    case None => None
    case Some(i) =>
      match Decode(table[i].args, data[8..])
      case None => None
      case Some(r) => if r.1 == [] then Some((i, r.0)) else None
  }

  /** Given distinct discriminators, data reads back as instruction `i` with arguments `v` exactly when
      it is that instruction's discriminator followed by the encoding of `v`. */
  lemma {:induction false} InstructionRoundTrip(table: seq<Known>, i: nat, v: Value, data: seq<byte>)
    requires DistinctDiscriminators(table) && i < |table|
    ensures ReadInstruction(table, data) == Some((i, v)) <==>
            WellTyped(table[i].args, v) && data == table[i].disc + Encode(table[i].args, v)
  {
    var args := table[i].args;
    if WellTyped(args, v) && data == table[i].disc + Encode(args, v) {
      assert data[..8] == table[i].disc && data[8..] == Encode(args, v);
      RoundTrip(args, v, []);
      assert Encode(args, v) + [] == Encode(args, v);
      var found := IdentifyInstruction(table, data);
      assert found == Some(i);
    }
    if ReadInstruction(table, data) == Some((i, v)) {
      DecodedIsEncoded(args, data[8..]);
      assert data == data[..8] + data[8..];
      assert Encode(args, v) + [] == Encode(args, v);
    }
  }

  /** The client's `set_borrow_order` arguments and the handler's do not agree: no order the client can
      encode is one the handler can decode. */
  lemma {:induction false} BorrowOrderNeverDecodes(v: Value)
    requires WellTyped(Struct(SET_BORROW_ORDER), v)
    ensures Decode(Struct(HANDLER_SET_BORROW_ORDER), Encode(Struct(SET_BORROW_ORDER), v)) == None
  {
    var bs := Encode(Struct(SET_BORROW_ORDER), v);
    EncodedSize(Struct(SET_BORROW_ORDER), v);
    BorrowOrderSizes();
    if Decode(Struct(HANDLER_SET_BORROW_ORDER), bs).Some? {
      DecodedIsEncoded(Struct(HANDLER_SET_BORROW_ORDER), bs);
      EncodedSize(Struct(HANDLER_SET_BORROW_ORDER), Decode(Struct(HANDLER_SET_BORROW_ORDER), bs).value.0);
    }
  }

  lemma {:induction false} BorrowOrderSizes()
    ensures FixedSize(Struct(SET_BORROW_ORDER)) && MinSize(Struct(SET_BORROW_ORDER)) == 36
    ensures MinSize(Struct(HANDLER_SET_BORROW_ORDER)) == 37
  {
    var c, h := BORROW_ORDER_CONFIG, HANDLER_BORROW_ORDER_CONFIG;
    assert c[1..] == [UInt(4), UInt(8), UInt(8)] && c[1..][1..] == [UInt(8), UInt(8)];
    assert c[1..][1..][1..] == [UInt(8)] && c[1..][1..][1..][1..] == [];
    assert MinSizeAll(c) == 28 && AllFixedSize(c);
    assert h[1..] == [UInt(4), UInt(8), UInt(8), Enum(2)] && h[1..][1..] == [UInt(8), UInt(8), Enum(2)];
    assert h[1..][1..][1..] == [UInt(8), Enum(2)] && h[1..][1..][1..][1..] == [Enum(2)] && [Enum(2)][1..] == [];
    assert MinSizeAll(h) == 29;
    var client, handler := SET_BORROW_ORDER, HANDLER_SET_BORROW_ORDER;
    assert client[1..] == [UInt(8)] && handler[1..] == [UInt(8)] && [UInt(8)][1..] == [];
    assert MinSizeAll([UInt(8)]) == 8 && AllFixedSize([UInt(8)]);
    assert client[0] == Struct(c) && handler[0] == Struct(h);
    assert MinSize(Struct(c)) == 28 && MinSize(Struct(h)) == 29 && FixedSize(Struct(c));
    assert MinSizeAll(client) == 36 && MinSizeAll(handler) == 37 && AllFixedSize(client);
  }
}
