/** Raw account bytes: `from_account_data` (`state/mod.rs`) and `PodU128` (`state/pod.rs`). */
module AccountData {
  import opened Common
  import opened Borsh

  datatype AccountDataError =
    | DataTooShort(expected: nat, actual: nat)
    | InvalidDiscriminator(expectedDisc: seq<byte>, actualDisc: seq<byte>)
    | AlignmentError

  /** The view of an account type with the given discriminator and struct size; `aligned` says
      whether the bytes after the discriminator are aligned for it. */
  function FromAccountData(
    disc: seq<byte>, size: nat, data: seq<byte>, aligned: bool)
    : (r: Result<seq<byte>, AccountDataError>)
    requires |disc| == 8
  {
    var expectedLen := 8 + size;
    if |data| < expectedLen then Err(DataTooShort(expectedLen, |data|))
    else if data[..8] != disc then Err(InvalidDiscriminator(disc, data[..8]))
    else if !aligned then Err(AlignmentError)
    else Ok(data[8..expectedLen])
  }

  /** It accepts exactly an aligned discriminator followed by the struct, and ignores what follows. */
  lemma {:induction false} AccountDataRoundTrip(disc: seq<byte>, value: seq<byte>, data: seq<byte>, aligned: bool)
    requires |disc| == 8
    ensures FromAccountData(disc, |value|, data, aligned) == Ok(value) <==> aligned && disc + value <= data
  {
    if |data| >= 8 + |value| {
      var front := data[..8 + |value|];
      assert front == data[..8] + data[8..8 + |value|];
      assert disc + value <= data <==> disc + value == front;
      assert front[..8] == data[..8] && front[8..] == data[8..8 + |value|];
      assert (disc + value)[..8] == disc && (disc + value)[8..] == value;
    }
  }

  /** `PodU128`: conversion in both directions loses nothing. */
  lemma {:induction false} PodU128RoundTrip(n: nat, pod: seq<byte>)
    requires n < Pow256(16) && |pod| == 16
    ensures FromLittleEndian(LittleEndian(n, 16)) == n
    ensures LittleEndian(FromLittleEndian(pod), 16) == pod
    ensures FromLittleEndian(pod) == n <==> pod == LittleEndian(n, 16)
  {
    IntegerRoundTrip(n, 16);
    BytesRoundTrip(pod);
  }

  /** Every refusal names what is wrong and what was expected. */
  lemma {:induction false} AccountDataRefusals(disc: seq<byte>, size: nat, data: seq<byte>, aligned: bool)
    requires |disc| == 8 && FromAccountData(disc, size, data, aligned).Err?
    ensures match FromAccountData(disc, size, data, aligned).error
            case DataTooShort(expected, actual) => expected == 8 + size && actual == |data| && actual < expected
            case InvalidDiscriminator(expectedDisc, actualDisc) =>
              |data| >= 8 && expectedDisc == disc && actualDisc == data[..8] && actualDisc != expectedDisc
            case AlignmentError => !aligned
  {
  }
}
