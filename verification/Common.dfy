/** Types shared by every module: options, results, bytes and public keys. */
module Common {

  datatype Option<+T> = None | Some(value: T)

  /** The last three members let `:-` hand an error on, as `?` does. */
  datatype Result<+T, +E> = Ok(value: T) | Err(error: E) {
    predicate IsFailure() { Err? }

    function PropagateFailure<U>(): (r: Result<U, E>)
      requires IsFailure()
    {
      Err(error)
    }

    function Extract(): (v: T)
      requires !IsFailure()
    {
      value
    }
  }

  newtype byte = x: int | 0 <= x < 256

  type KeyBytes = s: seq<byte> | |s| == 32 witness seq(32, _ => 0)

  /** A Solana public key: 32 bytes, ordered lexicographically. */
  datatype Pubkey = Pubkey(bytes: KeyBytes)

  /** `Pubkey::default()`: the key that marks an empty slot. */
  const DEFAULT_KEY: Pubkey := Pubkey(
    [0, 0, 0, 0, 0, 0, 0, 0, 0, 0, 0, 0, 0, 0, 0, 0,
     0, 0, 0, 0, 0, 0, 0, 0, 0, 0, 0, 0, 0, 0, 0, 0])

  /** The order `sort_unstable` uses: the first byte that differs decides. */
  predicate LexLess(a: seq<byte>, b: seq<byte>)
    requires |a| == |b|
  {
    a != [] && (a[0] < b[0] || (a[0] == b[0] && LexLess(a[1..], b[1..])))
  }

  predicate KeyLess(a: Pubkey, b: Pubkey) { LexLess(a.bytes, b.bytes) }

  lemma {:induction false} LexTotal(a: seq<byte>, b: seq<byte>)
    requires |a| == |b|
    ensures LexLess(a, b) || a == b || LexLess(b, a)
    ensures !(LexLess(a, b) && LexLess(b, a))
    ensures !LexLess(a, a)
  {
    if a != [] {
      LexTotal(a[1..], b[1..]);
      assert a == [a[0]] + a[1..] && b == [b[0]] + b[1..];
    }
  }

  lemma {:induction false} LexTransitive(a: seq<byte>, b: seq<byte>, c: seq<byte>)
    requires |a| == |b| == |c| && LexLess(a, b) && LexLess(b, c)
    ensures LexLess(a, c)
  {
    if a[0] == b[0] == c[0] {
      LexTransitive(a[1..], b[1..], c[1..]);
    }
  }

  /** The lesser sequence has the lesser byte where they first differ. */
  lemma {:induction false} LexFirstDifference(a: seq<byte>, b: seq<byte>)
    requires |a| == |b|
    ensures LexLess(a, b) <==> exists i :: 0 <= i < |a| && a[..i] == b[..i] && a[i] < b[i]
  {
    if a != [] {
      LexFirstDifference(a[1..], b[1..]);
      if a[0] < b[0] {
        assert a[..0] == b[..0];
      }
      if a[0] == b[0] && LexLess(a[1..], b[1..]) {
        var i :| 0 <= i < |a[1..]| && a[1..][..i] == b[1..][..i] && a[1..][i] < b[1..][i];
        assert a[..i + 1] == [a[0]] + a[1..][..i] && b[..i + 1] == [b[0]] + b[1..][..i];
      }
      if i :| 0 <= i < |a| && a[..i] == b[..i] && a[i] < b[i] {
        if i > 0 {
          assert a[0] == a[..i][0] == b[..i][0] == b[0];
          assert a[1..][..i - 1] == a[..i][1..] && b[1..][..i - 1] == b[..i][1..];
          assert a[1..][i - 1] < b[1..][i - 1];
        }
      }
    }
  }

  /** The key order is a strict total order. */
  lemma {:induction false} KeyOrderIsTotal(a: Pubkey, b: Pubkey)
    ensures KeyLess(a, b) || a == b || KeyLess(b, a)
    ensures !(KeyLess(a, b) && KeyLess(b, a)) && !KeyLess(a, a)
  {
    LexTotal(a.bytes, b.bytes);
  }

  lemma {:induction false} KeyOrderIsTransitive(a: Pubkey, b: Pubkey, c: Pubkey)
    requires KeyLess(a, b) && KeyLess(b, c)
    ensures KeyLess(a, c)
  {
    LexTransitive(a.bytes, b.bytes, c.bytes);
  }

  // ----- Lists of keys -----

  ghost predicate Distinct(s: seq<Pubkey>) {
    forall i, j :: 0 <= i < j < |s| ==> s[i] != s[j]
  }

  function Members(s: seq<Pubkey>): (keys: set<Pubkey>) { set k | k in s }

  lemma {:induction false} MembersAppend(a: seq<Pubkey>, b: seq<Pubkey>)
    ensures Members(a + b) == Members(a) + Members(b)
  {
  }

  lemma {:induction false} MembersEmptyIff(s: seq<Pubkey>)
    ensures Members(s) == {} <==> s == []
  {
    if s != [] {
      assert s[0] in Members(s);
    }
  }

  lemma {:induction false} DistinctAppend(a: seq<Pubkey>, b: seq<Pubkey>)
    ensures Distinct(a + b) <==> Distinct(a) && Distinct(b) && forall k :: k in a ==> k !in b
  {
    if Distinct(a + b) {
      forall i, j | 0 <= i < j < |a|
        ensures a[i] != a[j]
      {
        assert a[i] == (a + b)[i] && a[j] == (a + b)[j];
      }
      forall i, j | 0 <= i < j < |b|
        ensures b[i] != b[j]
      {
        assert b[i] == (a + b)[|a| + i] && b[j] == (a + b)[|a| + j];
      }
      forall i, j | 0 <= i < |a| && 0 <= j < |b|
        ensures a[i] != b[j]
      {
        assert a[i] == (a + b)[i] && b[j] == (a + b)[|a| + j];
      }
    } else {
      var i, j :| 0 <= i < j < |a + b| && (a + b)[i] == (a + b)[j];
      if j < |a| {
        assert a[i] == a[j];
      } else if |a| <= i {
        assert b[i - |a|] == b[j - |a|];
      } else {
        assert a[i] in a && b[j - |a|] in b;
      }
    }
  }

  lemma {:induction false} DistinctIffCount(s: seq<Pubkey>)
    ensures |Members(s)| <= |s|
    ensures |Members(s)| == |s| <==> Distinct(s)
  {
    if s == [] {
      assert Members(s) == {};
    } else {
      var init, last := s[..|s| - 1], s[|s| - 1];
      DistinctIffCount(init);
      assert s == init + [last];
      DistinctAppend(init, [last]);
      assert Members(s) == Members(init) + {last};
      if last in init {
        assert Members(s) == Members(init);
      } else {
        assert |Members(s)| == |Members(init)| + 1;
      }
    }
  }
}
