/** The Borsh encoding that instruction arguments use: little-endian integers, one-byte enum tags,
    fixed byte arrays, length-prefixed byte vectors and strings, and structs in field order. */
module Borsh {
  import opened Common

  // ----- Little-endian integers -----

  function Pow256(w: nat): (r: nat) { if w == 0 then 1 else 256 * Pow256(w - 1) }

  function LittleEndian(n: nat, w: nat): (bs: seq<byte>)
    ensures |bs| == w
  {
    if w == 0 then [] else [(n % 256) as byte] + LittleEndian(n / 256, w - 1)
  }

  function FromLittleEndian(bs: seq<byte>): (r: nat) {
    if bs == [] then 0 else (bs[0] as int) + 256 * FromLittleEndian(bs[1..])
  }

  lemma {:induction false} IntegerRoundTrip(n: nat, w: nat)
    requires n < Pow256(w)
    ensures FromLittleEndian(LittleEndian(n, w)) == n
  {
    if w > 0 {
      IntegerRoundTrip(n / 256, w - 1);
      assert LittleEndian(n, w)[1..] == LittleEndian(n / 256, w - 1);
    }
  }

  lemma {:induction false} QuotientIs(n: nat, p: nat, q: nat, rest: nat)
    requires n == p * q + rest && rest < p
    ensures n / p == q
  {
    var d := n / p;
    assert n == p * d + n % p;
    ProductGrows(p, d + 1, q);
    ProductGrows(p, q + 1, d);
  }

  lemma {:induction false} ProductGrows(p: nat, a: nat, b: nat)
    ensures a <= b ==> p * a <= p * b
  {
  }

  lemma {:induction false} DivideTwice(n: nat, p: nat)
    requires p > 0
    ensures n / 256 / p == n / (256 * p)
  {
    var m := n / 256;
    var q, s := m / p, m % p;
    assert n == 256 * (p * q + s) + n % 256;
    assert 256 * (p * q + s) == (256 * p) * q + 256 * s;
    QuotientIs(n, 256 * p, q, 256 * s + n % 256);
  }

  lemma {:induction false} PowersArePositive(w: nat)
    ensures Pow256(w) > 0
  {
    if w > 0 {
      PowersArePositive(w - 1);
    }
  }

  /** Little-endian: byte `i` is the digit of weight 256 to the power `i`, the least significant first. */
  lemma {:induction false} ByteAt(n: nat, w: nat, i: nat)
    requires i < w
    ensures Pow256(i) > 0 && LittleEndian(n, w)[i] as nat == n / Pow256(i) % 256
  {
    PowersArePositive(i);
    if i > 0 {
      ByteAt(n / 256, w - 1, i - 1);
      DivideTwice(n, Pow256(i - 1));
    }
  }

  lemma {:induction false} LowDigit(b: nat, rest: nat)
    requires b < 256
    ensures (b + 256 * rest) % 256 == b && (b + 256 * rest) / 256 == rest
  {
  }

  lemma {:induction false} BytesRoundTrip(bs: seq<byte>)
    ensures FromLittleEndian(bs) < Pow256(|bs|)
    ensures LittleEndian(FromLittleEndian(bs), |bs|) == bs
  {
    if bs != [] {
      BytesRoundTrip(bs[1..]);
      var rest := FromLittleEndian(bs[1..]);
      LowDigit(bs[0] as nat, rest);
      assert bs == [bs[0]] + bs[1..];
    }
  }

  // ----- Schemas and values -----

  datatype Schema =
    | UInt(width: nat)
    | Enum(variants: nat)
    | FixedBytes(len: nat)
    | Bytes
    | Struct(fields: seq<Schema>)

  datatype Value = Num(n: nat) | Blob(bytes: seq<byte>) | Tuple(items: seq<Value>)

  const U32_LIMIT: nat := 0x1_0000_0000

  predicate WellTyped(s: Schema, v: Value)
    decreases s, 0
  {
    match s
    case UInt(w) => v.Num? && v.n < Pow256(w)
    case Enum(k) => v.Num? && v.n < k && v.n < 256
    case FixedBytes(len) => v.Blob? && |v.bytes| == len
    case Bytes => v.Blob? && |v.bytes| < U32_LIMIT
    case Struct(fields) => v.Tuple? && AllWellTyped(fields, v.items)
  }

  predicate AllWellTyped(fields: seq<Schema>, items: seq<Value>)
    decreases fields, 1
  {
    |fields| == |items| && (fields == [] || (WellTyped(fields[0], items[0]) && AllWellTyped(fields[1..], items[1..])))
  }

  // ----- Encoding and decoding -----

  function Encode(s: Schema, v: Value): (r: seq<byte>)
    requires WellTyped(s, v)
    decreases s, 0
  {
    match s
    case UInt(w) => LittleEndian(v.n, w)
    case Enum(_) => [v.n as byte]
    case FixedBytes(_) => v.bytes
    case Bytes => LittleEndian(|v.bytes|, 4) + v.bytes
    case Struct(fields) => EncodeAll(fields, v.items)
  }

  function EncodeAll(fields: seq<Schema>, items: seq<Value>): (r: seq<byte>)
    requires AllWellTyped(fields, items)
    decreases fields, 1
  {
    if fields == [] then [] else Encode(fields[0], items[0]) + EncodeAll(fields[1..], items[1..])
  }

  /** Fields stand in order: each after the encodings of all before it, and before those of all after it. */
  lemma {:induction false} FieldAt(fields: seq<Schema>, items: seq<Value>, i: nat)
    requires AllWellTyped(fields, items) && i < |fields|
    ensures AllWellTyped(fields[..i], items[..i]) && WellTyped(fields[i], items[i])
    ensures AllWellTyped(fields[i + 1..], items[i + 1..])
    ensures EncodeAll(fields, items) ==
            EncodeAll(fields[..i], items[..i])
            + (Encode(fields[i], items[i]) + EncodeAll(fields[i + 1..], items[i + 1..]))
  {
    hide Encode, WellTyped;
    if i == 0 {
      assert [] + EncodeAll(fields, items) == EncodeAll(fields, items);
    } else {
      FieldAt(fields[1..], items[1..], i - 1);
      assert fields[..i][0] == fields[0] && fields[..i][1..] == fields[1..][..i - 1];
      assert items[..i][0] == items[0] && items[..i][1..] == items[1..][..i - 1];
      assert fields[1..][i..] == fields[i + 1..] && items[1..][i..] == items[i + 1..];
      var first := Encode(fields[0], items[0]);
      var before := EncodeAll(fields[1..][..i - 1], items[1..][..i - 1]);
      var rest := Encode(fields[i], items[i]) + EncodeAll(fields[i + 1..], items[i + 1..]);
      assert first + (before + rest) == (first + before) + rest;
    }
  }

  /** A value and the bytes after it, or `None` when the bytes are no encoding. */
  function Decode(s: Schema, bs: seq<byte>): (r: Option<(Value, seq<byte>)>)
    decreases s, 0
  {
    match s
    case UInt(w) => if |bs| < w then None else Some((Num(FromLittleEndian(bs[..w])), bs[w..]))
    case Enum(k) => if bs == [] || bs[0] as int >= k then None else Some((Num(bs[0] as nat), bs[1..]))
    case FixedBytes(len) => if |bs| < len then None else Some((Blob(bs[..len]), bs[len..]))
    case Bytes =>
      if |bs| < 4 then None
      else
        var len := FromLittleEndian(bs[..4]);
        if |bs| - 4 < len then None else Some((Blob(bs[4..][..len]), bs[4..][len..]))
    case Struct(fields) =>
      (match DecodeAll(fields, bs)
       case None => None
       case Some(r) => Some((Tuple(r.0), r.1)))
  }

  function DecodeAll(fields: seq<Schema>, bs: seq<byte>): (r: Option<(seq<Value>, seq<byte>)>)
    decreases fields, 1
  {
    if fields == [] then Some(([], bs))
    else match Decode(fields[0], bs)
      case None => None
      case Some(first) =>
        match DecodeAll(fields[1..], first.1)
        case None => None
        case Some(rest) => Some(([first.0] + rest.0, rest.1))
  }

  lemma {:induction false} FourBytes()
    ensures Pow256(4) == U32_LIMIT
  {
    assert Pow256(1) == 256 && Pow256(2) == 256 * 256 && Pow256(3) == 256 * Pow256(2);
  }

  /** For every schema and value, decoding an encoding gives the value back and leaves what follows. */
  lemma {:induction false} RoundTrip(s: Schema, v: Value, rest: seq<byte>)
    requires WellTyped(s, v)
    ensures Decode(s, Encode(s, v) + rest) == Some((v, rest))
    decreases s, 0
  {
    var bs := Encode(s, v) + rest;
    match s
    case UInt(w) =>
      assert bs[..w] == LittleEndian(v.n, w) && bs[w..] == rest;
      IntegerRoundTrip(v.n, w);
    case Enum(_) =>
      assert bs[1..] == rest;
    case FixedBytes(len) =>
      assert bs[..len] == v.bytes && bs[len..] == rest;
    case Bytes =>
      FourBytes();
      IntegerRoundTrip(|v.bytes|, 4);
      assert bs[..4] == LittleEndian(|v.bytes|, 4) && bs[4..] == v.bytes + rest;
      assert bs[4..][..|v.bytes|] == v.bytes && bs[4..][|v.bytes|..] == rest;
    case Struct(fields) =>
      RoundTripAll(fields, v.items, rest);
  }

  lemma {:induction false} RoundTripAll(fields: seq<Schema>, items: seq<Value>, rest: seq<byte>)
    requires AllWellTyped(fields, items)
    ensures DecodeAll(fields, EncodeAll(fields, items) + rest) == Some((items, rest))
    decreases fields, 1
  {
    if fields == [] {
      assert [] + rest == rest;
    } else {
      var first, tail := Encode(fields[0], items[0]), EncodeAll(fields[1..], items[1..]);
      assert (first + tail) + rest == first + (tail + rest);
      RoundTrip(fields[0], items[0], tail + rest);
      RoundTripAll(fields[1..], items[1..], rest);
      assert items == [items[0]] + items[1..];
    }
  }

  /** And nothing else decodes: whatever decodes is the encoding of the value it gives. */
  lemma {:induction false} DecodedIsEncoded(s: Schema, bs: seq<byte>)
    requires Decode(s, bs).Some?
    ensures var (v, rest) := Decode(s, bs).value; WellTyped(s, v) && bs == Encode(s, v) + rest
    decreases s, 0
  {
    var (v, rest) := Decode(s, bs).value;
    match s
    case UInt(w) =>
      BytesRoundTrip(bs[..w]);
      assert bs == bs[..w] + bs[w..];
    case Enum(_) =>
      assert bs == [bs[0]] + bs[1..];
    case FixedBytes(len) =>
      assert bs == bs[..len] + bs[len..];
    case Bytes =>
      FourBytes();
      BytesRoundTrip(bs[..4]);
      assert bs == bs[..4] + (v.bytes + rest);
    case Struct(fields) =>
      AllDecodedIsEncoded(fields, bs);
  }

  lemma {:induction false} AllDecodedIsEncoded(fields: seq<Schema>, bs: seq<byte>)
    requires DecodeAll(fields, bs).Some?
    ensures var (items, rest) := DecodeAll(fields, bs).value;
      AllWellTyped(fields, items) && bs == EncodeAll(fields, items) + rest
    decreases fields, 1
  {
    if fields != [] {
      DecodedIsEncoded(fields[0], bs);
      var first := Decode(fields[0], bs).value;
      AllDecodedIsEncoded(fields[1..], first.1);
      var items := DecodeAll(fields, bs).value.0;
      assert items[1..] == DecodeAll(fields[1..], first.1).value.0;
    }
  }

  // ----- Sizes -----

  /** The least number of bytes a value takes; without `Bytes` fields, the only one. */
  function MinSize(s: Schema): (r: nat)
    decreases s, 0
  {
    match s
    case UInt(w) => w
    case Enum(_) => 1
    case FixedBytes(len) => len
    case Bytes => 4
    case Struct(fields) => MinSizeAll(fields)
  }

  function MinSizeAll(fields: seq<Schema>): (r: nat)
    decreases fields, 1
  {
    if fields == [] then 0 else MinSize(fields[0]) + MinSizeAll(fields[1..])
  }

  predicate FixedSize(s: Schema)
    decreases s, 0
  {
    match s
    case Bytes => false
    case Struct(fields) => AllFixedSize(fields)
    case _ => true
  }

  predicate AllFixedSize(fields: seq<Schema>)
    decreases fields, 1
  {
    fields == [] || (FixedSize(fields[0]) && AllFixedSize(fields[1..]))
  }

  lemma {:induction false} EncodedSize(s: Schema, v: Value)
    requires WellTyped(s, v)
    ensures |Encode(s, v)| >= MinSize(s) && (FixedSize(s) ==> |Encode(s, v)| == MinSize(s))
    decreases s, 0
  {
    if s.Struct? {
      AllEncodedSize(s.fields, v.items);
    }
  }

  lemma {:induction false} AllEncodedSize(fields: seq<Schema>, items: seq<Value>)
    requires AllWellTyped(fields, items)
    ensures |EncodeAll(fields, items)| >= MinSizeAll(fields)
    ensures AllFixedSize(fields) ==> |EncodeAll(fields, items)| == MinSizeAll(fields)
    decreases fields, 1
  {
    if fields != [] {
      EncodedSize(fields[0], items[0]);
      AllEncodedSize(fields[1..], items[1..]);
    }
  }
}
