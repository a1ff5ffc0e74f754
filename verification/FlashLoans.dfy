/** Flash loans within one transaction (`lending_market/flash_ixs.rs`): both handlers read the other
    instructions of the transaction, and together they pair every borrow with one repayment. The client
    side is `helpers/flash.rs`. */
module FlashLoans {
  import opened Common
  import opened Borsh

  /** A top-level instruction of a transaction. */
  datatype Ix = Ix(program: Pubkey, data: seq<byte>, accounts: seq<Pubkey>)

  /** The program's id and the discriminators of its two flash instructions. */
  datatype Program = Program(id: Pubkey, borrowDisc: seq<byte>, repayDisc: seq<byte>)

  ghost predicate ValidProgram(p: Program) { |p.borrowDisc| == 8 == |p.repayDisc| && p.borrowDisc != p.repayDisc }

  /** `Panic` is an index or slice out of range. */
  datatype FlashError =
    | FlashBorrowCpi | FlashRepayCpi | MultipleFlashBorrows | NoFlashRepayFound | InvalidFlashRepay
    | DidNotDeserialize | Panic

  predicate HasDisc(ix: Ix, disc: seq<byte>) { |ix.data| >= 8 && ix.data[..8] == disc }

  predicate IsBorrow(p: Program, ix: Ix) { ix.program == p.id && HasDisc(ix, p.borrowDisc) }

  predicate IsRepay(p: Program, ix: Ix) { ix.program == p.id && HasDisc(ix, p.repayDisc) }

  const RESERVE_INDEX: nat := 3

  // ----- flash_borrow_checks -----

  /** `flash_borrow_check_matching_repay`: the arguments must take exactly nine bytes. */
  function CheckMatchingRepay(amount: nat, borrow: Ix, repay: Ix, borrowIndex: nat): (e: Option<FlashError>)
    requires |repay.data| >= 8
  {
    if |repay.data| != 17 then Some(DidNotDeserialize)
    else if FromLittleEndian(repay.data[8..16]) != amount then Some(InvalidFlashRepay)
    else if repay.data[16] as nat != borrowIndex then Some(InvalidFlashRepay)
    else if repay.accounts != borrow.accounts then Some(InvalidFlashRepay)
    else None
  }

  /** The scan over the instructions from `i` on. */
  function ScanFrom(
    p: Program, tx: seq<Ix>, i: nat, amount: nat, borrowIndex: nat, found: bool)
    : (e: Option<FlashError>)
    requires i <= |tx| && borrowIndex < |tx|
    decreases |tx| - i
  {
    if i == |tx| then (if found then None else Some(NoFlashRepayFound))
    else if tx[i].program != p.id then ScanFrom(p, tx, i + 1, amount, borrowIndex, found)
    else if |tx[i].data| < 8 then Some(Panic)
    else if tx[i].data[..8] == p.borrowDisc then Some(MultipleFlashBorrows)
    else if tx[i].data[..8] != p.repayDisc then ScanFrom(p, tx, i + 1, amount, borrowIndex, found)
    else if found then Some(MultipleFlashBorrows)
    else
      match CheckMatchingRepay(amount, tx[borrowIndex], tx[i], borrowIndex)
      case Some(e) => Some(e)
      case None => ScanFrom(p, tx, i + 1, amount, borrowIndex, true)
  }

  /** `direct`: the handler runs at the level of the transaction, not in a call from another program. */
  function BorrowChecks(p: Program, tx: seq<Ix>, current: nat, direct: bool, amount: nat): (e: Option<FlashError>)
    requires current < |tx|
  {
    if tx[current].program != p.id || !direct then Some(FlashBorrowCpi)
    else ScanFrom(p, tx, current + 1, amount, current, false)
  }

  method FlashBorrowChecks(p: Program, tx: seq<Ix>, current: nat, direct: bool, amount: nat)
    returns (e: Option<FlashError>)
    requires current < |tx|
    ensures e == BorrowChecks(p, tx, current, direct, amount)
  {
    hide CheckMatchingRepay;
    if tx[current].program != p.id || !direct {
      return Some(FlashBorrowCpi);
    }
    var borrowIx := tx[current];
    var foundRepayIx := false;
    var i := current + 1;
    while i < |tx|
      invariant current < i <= |tx|
      invariant ScanFrom(p, tx, current + 1, amount, current, false) ==
                ScanFrom(p, tx, i, amount, current, foundRepayIx)
    {
      var ixn := tx[i];
      i := i + 1;
      if ixn.program != p.id {
        continue;
      }
      if |ixn.data| < 8 {
        return Some(Panic);
      }
      if ixn.data[..8] == p.borrowDisc {
        return Some(MultipleFlashBorrows);
      }
      if ixn.data[..8] == p.repayDisc {
        if foundRepayIx {
          return Some(MultipleFlashBorrows);
        }
        var mismatch := CheckMatchingRepay(amount, borrowIx, ixn, current);
        if mismatch.Some? {
          return mismatch;
        }
        foundRepayIx := true;
      }
    }
    return if foundRepayIx then None else Some(NoFlashRepayFound);
  }

  // ----- flash_repay_checks -----

  method FlashRepayChecks(p: Program, tx: seq<Ix>, current: nat, direct: bool, borrowIndex: nat, amount: nat)
    returns (e: Option<FlashError>)
    requires current < |tx| && |tx[current].accounts| > RESERVE_INDEX
    ensures e == RepayChecks(p, tx, current, direct, borrowIndex, amount)
  {
    if tx[current].program != p.id || !direct {
      return Some(FlashRepayCpi);
    }
    if borrowIndex > current {
      return Some(InvalidFlashRepay);
    }
    var ixn := tx[borrowIndex];
    if ixn.program != p.id {
      return Some(InvalidFlashRepay);
    }
    if |ixn.data| < 8 {
      return Some(Panic);
    }
    if ixn.data[..8] != p.borrowDisc {
      return Some(InvalidFlashRepay);
    }
    if |ixn.data| < 16 || |ixn.accounts| <= RESERVE_INDEX {
      return Some(Panic);
    }
    var borrowLiquidityAmount := FromLittleEndian(ixn.data[8..16]);
    if ixn.accounts[RESERVE_INDEX] != tx[current].accounts[RESERVE_INDEX] {
      return Some(InvalidFlashRepay);
    }
    if amount != borrowLiquidityAmount {
      return Some(InvalidFlashRepay);
    }
    return None;
  }

  function RepayChecks(p: Program, tx: seq<Ix>, current: nat, direct: bool, borrowIndex: nat, amount: nat)
    : (e: Option<FlashError>)
    requires current < |tx| && |tx[current].accounts| > RESERVE_INDEX
  {
    if tx[current].program != p.id || !direct then Some(FlashRepayCpi)
    else if borrowIndex > current then Some(InvalidFlashRepay)
    else
      var borrow := tx[borrowIndex];
      if borrow.program != p.id then Some(InvalidFlashRepay)
      else if |borrow.data| < 8 then Some(Panic)
      else if borrow.data[..8] != p.borrowDisc then Some(InvalidFlashRepay)
      else if |borrow.data| < 16 || |borrow.accounts| <= RESERVE_INDEX then Some(Panic)
      else if borrow.accounts[RESERVE_INDEX] != tx[current].accounts[RESERVE_INDEX] then Some(InvalidFlashRepay)
      else if amount != FromLittleEndian(borrow.data[8..16]) then Some(InvalidFlashRepay)
      else None
  }

  // ----- What a transaction that succeeds looks like -----

  /** The borrow at `i` decodes and passes its checks; a handler tolerates bytes after its arguments. */
  predicate BorrowSucceeds(p: Program, tx: seq<Ix>, i: nat)
    requires i < |tx|
  {
    |tx[i].data| >= 16 && BorrowChecks(p, tx, i, true, FromLittleEndian(tx[i].data[8..16])).None?
  }

  predicate RepaySucceeds(p: Program, tx: seq<Ix>, i: nat)
    requires i < |tx|
  {
    && |tx[i].data| >= 17 && |tx[i].accounts| > RESERVE_INDEX
    && RepayChecks(p, tx, i, true, tx[i].data[16] as nat, FromLittleEndian(tx[i].data[8..16])).None?
  }

  /** Every flash instruction of the transaction passes. */
  ghost predicate FlashSucceeds(p: Program, tx: seq<Ix>) {
    forall i :: 0 <= i < |tx| ==>
      (IsBorrow(p, tx[i]) ==> BorrowSucceeds(p, tx, i)) && (IsRepay(p, tx[i]) ==> RepaySucceeds(p, tx, i))
  }

  /** A borrow and the repayment of it: same amount, same accounts, and the repayment names the borrow. */
  ghost predicate Pair(p: Program, tx: seq<Ix>, i: nat, j: nat) {
    && i < j < |tx| && IsBorrow(p, tx[i]) && IsRepay(p, tx[j])
    && |tx[i].data| >= 16 && |tx[j].data| == 17
    && tx[j].data[8..16] == tx[i].data[8..16] && tx[j].data[16] as nat == i
    && tx[j].accounts == tx[i].accounts
  }

  lemma {:induction false} SameAmountBytes(a: seq<byte>, b: seq<byte>)
    requires |a| == |b| && FromLittleEndian(a) == FromLittleEndian(b)
    ensures a == b
  {
    BytesRoundTrip(a);
    BytesRoundTrip(b);
  }

  /** What a successful scan found: no borrow, and exactly one repayment unless one was found before. */
  lemma {:induction false} ScanFound(
    p: Program, tx: seq<Ix>, i: nat, amount: nat, borrowIndex: nat, found: bool)
    returns (j: nat)
    requires ValidProgram(p) && i <= |tx| && borrowIndex < |tx|
    requires ScanFrom(p, tx, i, amount, borrowIndex, found).None?
    ensures forall k :: i <= k < |tx| ==> !IsBorrow(p, tx[k])
    ensures found ==> forall k :: i <= k < |tx| ==> !IsRepay(p, tx[k])
    ensures !found ==> i <= j < |tx| && IsRepay(p, tx[j])
    ensures !found ==> CheckMatchingRepay(amount, tx[borrowIndex], tx[j], borrowIndex).None?
    ensures !found ==> forall k :: i <= k < |tx| && k != j ==> !IsRepay(p, tx[k])
    decreases |tx| - i
  {
    hide CheckMatchingRepay;
    if i == |tx| {
      j := i;
    } else if tx[i].program == p.id && tx[i].data[..8] == p.repayDisc {
      j := ScanFound(p, tx, i + 1, amount, borrowIndex, true);
      j := i;
    } else {
      j := ScanFound(p, tx, i + 1, amount, borrowIndex, found);
    }
  }

  /** A successful borrow has its repayment behind it, and nothing else of the kind. */
  lemma {:induction false} BorrowHasRepay(p: Program, tx: seq<Ix>, i: nat) returns (j: nat)
    requires ValidProgram(p) && i < |tx| && IsBorrow(p, tx[i]) && BorrowSucceeds(p, tx, i)
    ensures Pair(p, tx, i, j)
    ensures forall k :: i < k < |tx| ==> !IsBorrow(p, tx[k]) && (IsRepay(p, tx[k]) ==> k == j)
  {
    var amount := FromLittleEndian(tx[i].data[8..16]);
    j := ScanFound(p, tx, i + 1, amount, i, false);
    SameAmountBytes(tx[j].data[8..16], tx[i].data[8..16]);
  }

  /** A successful repayment has its borrow before it. */
  lemma {:induction false} RepayHasBorrow(p: Program, tx: seq<Ix>, j: nat) returns (i: nat)
    requires ValidProgram(p) && j < |tx| && IsRepay(p, tx[j]) && RepaySucceeds(p, tx, j)
    ensures i < j && IsBorrow(p, tx[i])
  {
    i := tx[j].data[16] as nat;
  }

  /** In every transaction whose flash instructions all pass there is at most one flash borrow and at most
      one flash repayment, there is one exactly when there is the other, and they are a pair: repayment
      after borrow, same amount, same accounts, and the right index. */
  lemma {:induction false} FlashLoansArePaired(p: Program, tx: seq<Ix>)
    requires ValidProgram(p) && FlashSucceeds(p, tx)
    ensures forall i, j :: 0 <= i < |tx| && 0 <= j < |tx| && IsBorrow(p, tx[i]) && IsRepay(p, tx[j]) ==>
            Pair(p, tx, i, j)
    ensures forall i, k :: 0 <= i < k < |tx| ==> !(IsBorrow(p, tx[i]) && IsBorrow(p, tx[k]))
    ensures forall i, k :: 0 <= i < k < |tx| ==> !(IsRepay(p, tx[i]) && IsRepay(p, tx[k]))
    ensures (exists i :: 0 <= i < |tx| && IsBorrow(p, tx[i])) <==> (exists j :: 0 <= j < |tx| && IsRepay(p, tx[j]))
  {
    hide IsBorrow, IsRepay, BorrowSucceeds, RepaySucceeds;
    if i :| 0 <= i < |tx| && IsBorrow(p, tx[i]) {
      var j := BorrowHasRepay(p, tx, i);
      assert IsRepay(p, tx[j]) by { PairParts(p, tx, i, j); }
      forall k | 0 <= k < |tx|
        ensures IsBorrow(p, tx[k]) ==> k == i
        ensures IsRepay(p, tx[k]) ==> k == j
      {
        OnlyPair(p, tx, i, j, k);
      }
    } else {
      forall j | 0 <= j < |tx|
        ensures !IsRepay(p, tx[j])
      {
        if IsRepay(p, tx[j]) {
          var i := RepayHasBorrow(p, tx, j);
        }
      }
    }
  }

  lemma {:induction false} PairParts(p: Program, tx: seq<Ix>, i: nat, j: nat)
    requires Pair(p, tx, i, j)
    ensures j < |tx| && IsRepay(p, tx[j])
  {
  }

  lemma {:induction false} OnlyPair(p: Program, tx: seq<Ix>, i: nat, j: nat, k: nat)
    requires ValidProgram(p) && FlashSucceeds(p, tx) && i < |tx| && k < |tx|
    requires IsBorrow(p, tx[i]) && Pair(p, tx, i, j)
    requires forall n :: i < n < |tx| ==> !IsBorrow(p, tx[n]) && (IsRepay(p, tx[n]) ==> n == j)
    ensures IsBorrow(p, tx[k]) ==> k == i
    ensures IsRepay(p, tx[k]) ==> k == j
  {
    hide IsBorrow, IsRepay, BorrowSucceeds, RepaySucceeds, Pair;
    NotBoth(p, tx[k]);
    if IsBorrow(p, tx[k]) && k < i {
      var j' := BorrowHasRepay(p, tx, k);
    }
    if IsRepay(p, tx[k]) && k <= i {
      var b := RepayHasBorrow(p, tx, k);
      var j' := BorrowHasRepay(p, tx, b);
    }
  }

  lemma {:induction false} NotBoth(p: Program, ix: Ix)
    requires ValidProgram(p)
    ensures !(IsBorrow(p, ix) && IsRepay(p, ix))
  {
  }

  // ----- The client's pair -----

  /** `flash_loan`: the two instructions share every account but the user's token accounts. */
  function ClientBorrow(
    p: Program, before: seq<Pubkey>, destination: Pubkey, after: seq<Pubkey>, amount: nat)
    : (ix: Ix)
  {
    Ix(p.id, p.borrowDisc + LittleEndian(amount, 8), before + [destination] + after)
  }

  function ClientRepay(
    p: Program, before: seq<Pubkey>, source: Pubkey, after: seq<Pubkey>, amount: nat, borrowIndex: byte): (ix: Ix)
  {
    Ix(p.id, p.repayDisc + LittleEndian(amount, 8) + [borrowIndex], before + [source] + after)
  }

  /** No other instruction of the transaction is a flash instruction, or too short to be any. */
  ghost predicate NoOtherFlash(p: Program, tx: seq<Ix>, b: nat, r: nat) {
    forall k :: 0 <= k < |tx| && k != b && k != r ==>
      tx[k].program == p.id ==> |tx[k].data| >= 8 && !IsBorrow(p, tx[k]) && !IsRepay(p, tx[k])
  }

  lemma {:induction false} ScanQuiet(p: Program, tx: seq<Ix>, i: nat, r: nat, amount: nat, b: nat, found: bool)
    requires ValidProgram(p) && b < |tx| && r < |tx| && NoOtherFlash(p, tx, b, r)
    requires b < i <= |tx| && IsRepay(p, tx[r]) && (found <==> r < i)
    ensures ScanFrom(p, tx, i, amount, b, found).None? <==>
            found || CheckMatchingRepay(amount, tx[b], tx[r], b).None?
    decreases |tx| - i
  {
    hide CheckMatchingRepay;
    if i < |tx| {
      if i == r {
        if CheckMatchingRepay(amount, tx[b], tx[r], b).None? {
          ScanQuiet(p, tx, i + 1, r, amount, b, true);
        }
      } else {
        ScanQuiet(p, tx, i + 1, r, amount, b, found);
      }
    }
  }

  lemma {:induction false} ScanWithout(p: Program, tx: seq<Ix>, i: nat, r: nat, amount: nat, b: nat)
    requires ValidProgram(p) && b < |tx| && r < |tx| && NoOtherFlash(p, tx, b, r)
    requires b < i <= |tx| && r < i
    ensures ScanFrom(p, tx, i, amount, b, false) == Some(NoFlashRepayFound)
    decreases |tx| - i
  {
    hide CheckMatchingRepay;
    if i < |tx| {
      ScanWithout(p, tx, i + 1, r, amount, b);
    }
  }

  lemma {:induction false} ClientData(p: Program, amount: nat, borrowIndex: byte)
    requires ValidProgram(p) && amount < Pow256(8)
    ensures var b := p.borrowDisc + LittleEndian(amount, 8);
      |b| == 16 && b[..8] == p.borrowDisc && FromLittleEndian(b[8..16]) == amount
    ensures var r := p.repayDisc + LittleEndian(amount, 8) + [borrowIndex];
      |r| == 17 && r[..8] == p.repayDisc && FromLittleEndian(r[8..16]) == amount && r[16] == borrowIndex
  {
    var bytes := LittleEndian(amount, 8);
    IntegerRoundTrip(amount, 8);
    assert (p.borrowDisc + bytes)[8..16] == bytes;
    assert (p.repayDisc + bytes + [borrowIndex])[8..16] == bytes;
    assert (p.repayDisc + bytes + [borrowIndex])[..8] == p.repayDisc;
  }

  lemma {:induction false} SameAround(before: seq<Pubkey>, x: Pubkey, y: Pubkey, after: seq<Pubkey>)
    ensures before + [x] + after == before + [y] + after <==> x == y
  {
    assert (before + [x] + after)[|before|] == x && (before + [y] + after)[|before|] == y;
  }

  /** What the two checks read of the client's pair. */
  ghost predicate ClientShaped(
    p: Program, borrow: Ix, repay: Ix, destination: Pubkey, source: Pubkey, amount: nat, borrowIndex: byte)
  {
    && IsBorrow(p, borrow) && IsRepay(p, repay)
    && |borrow.data| == 16 && |repay.data| == 17 && repay.data[16] == borrowIndex
    && FromLittleEndian(borrow.data[8..16]) == amount == FromLittleEndian(repay.data[8..16])
    && |borrow.accounts| == |repay.accounts| > RESERVE_INDEX
    && borrow.accounts[RESERVE_INDEX] == repay.accounts[RESERVE_INDEX]
    && (borrow.accounts == repay.accounts <==> source == destination)
  }

  lemma {:induction false} ClientPairIsShaped(
    p: Program, before: seq<Pubkey>, destination: Pubkey, source: Pubkey, after: seq<Pubkey>, amount: nat,
    borrowIndex: byte)
    requires ValidProgram(p) && |before| > RESERVE_INDEX && amount < Pow256(8)
    ensures ClientShaped(p, ClientBorrow(p, before, destination, after, amount),
                         ClientRepay(p, before, source, after, amount, borrowIndex),
                         destination, source, amount, borrowIndex)
  {
    hide LittleEndian, FromLittleEndian, Pow256;
    ClientData(p, amount, borrowIndex);
    SameAround(before, source, destination, after);
  }

  lemma {:induction false} ShapedBorrowSucceedsIff(
    p: Program, tx: seq<Ix>, b: nat, r: nat, destination: Pubkey, source: Pubkey, amount: nat, borrowIndex: byte)
    requires ValidProgram(p) && b < |tx| && r < |tx| && b != r && NoOtherFlash(p, tx, b, r)
    requires ClientShaped(p, tx[b], tx[r], destination, source, amount, borrowIndex)
    ensures BorrowSucceeds(p, tx, b) <==> borrowIndex as nat == b && b < r && source == destination
  {
    hide NoOtherFlash, FromLittleEndian, ScanFrom;
    if b < r {
      ScanQuiet(p, tx, b + 1, r, amount, b, false);
    } else {
      ScanWithout(p, tx, b + 1, r, amount, b);
    }
  }

  lemma {:induction false} ShapedRepaySucceeds(
    p: Program, tx: seq<Ix>, b: nat, r: nat, destination: Pubkey, source: Pubkey, amount: nat, borrowIndex: byte)
    requires b < r < |tx| && borrowIndex as nat == b
    requires ClientShaped(p, tx[b], tx[r], destination, source, amount, borrowIndex)
    ensures RepaySucceeds(p, tx, r)
  {
    hide FromLittleEndian;
  }

  /** The client's pair, among instructions that are no flash instructions, passes exactly when the index
      is the borrow's own, the repayment comes later, and the user repays from the token account that
      received the loan, although the helper takes two accounts. */
  lemma {:induction false} ClientPairPassesIff(
    p: Program, tx: seq<Ix>, b: nat, r: nat, before: seq<Pubkey>, destination: Pubkey, source: Pubkey,
    after: seq<Pubkey>, amount: nat, borrowIndex: byte)
    requires ValidProgram(p) && b < |tx| && r < |tx| && b != r && |before| > RESERVE_INDEX && amount < Pow256(8)
    requires tx[b] == ClientBorrow(p, before, destination, after, amount)
    requires tx[r] == ClientRepay(p, before, source, after, amount, borrowIndex)
    requires NoOtherFlash(p, tx, b, r)
    ensures BorrowSucceeds(p, tx, b) && RepaySucceeds(p, tx, r) <==>
            borrowIndex as nat == b && b < r && source == destination
  {
    hide *;
    ClientPairIsShaped(p, before, destination, source, after, amount, borrowIndex);
    ShapedBorrowSucceedsIff(p, tx, b, r, destination, source, amount, borrowIndex);
    if borrowIndex as nat == b && b < r && source == destination {
      ShapedRepaySucceeds(p, tx, b, r, destination, source, amount, borrowIndex);
    }
  }

  // ----- When the checks pass -----

  /** A call from another program is refused by both handlers. */
  lemma {:induction false} CallsAreRefused(p: Program, tx: seq<Ix>, current: nat, borrowIndex: nat, amount: nat)
    requires current < |tx| && |tx[current].accounts| > RESERVE_INDEX
    ensures BorrowChecks(p, tx, current, false, amount) == Some(FlashBorrowCpi)
    ensures RepayChecks(p, tx, current, false, borrowIndex, amount) == Some(FlashRepayCpi)
  {
  }

  /** A repayment passes exactly when it names an instruction at or before its own place that is a flash
      borrow of the same reserve and the same amount. */
  lemma {:induction false} RepayChecksIff(
    p: Program, tx: seq<Ix>, current: nat, direct: bool, borrowIndex: nat, amount: nat)
    requires current < |tx| && |tx[current].accounts| > RESERVE_INDEX
    ensures RepayChecks(p, tx, current, direct, borrowIndex, amount).None? <==>
      && tx[current].program == p.id && direct && borrowIndex <= current && IsBorrow(p, tx[borrowIndex])
      && |tx[borrowIndex].data| >= 16 && FromLittleEndian(tx[borrowIndex].data[8..16]) == amount
      && |tx[borrowIndex].accounts| > RESERVE_INDEX
      && tx[borrowIndex].accounts[RESERVE_INDEX] == tx[current].accounts[RESERVE_INDEX]
  {
    hide FromLittleEndian;
  }

  /** Nothing behind `i` but possibly `j` concerns flash loans, and nothing there is too short to tell. */
  ghost predicate OnlyRepayBehind(p: Program, tx: seq<Ix>, i: nat, j: nat) {
    forall k :: i < k < |tx| && tx[k].program == p.id ==>
      |tx[k].data| >= 8 && !IsBorrow(p, tx[k]) && (IsRepay(p, tx[k]) ==> k == j)
  }

  lemma {:induction false} ScanPasses(p: Program, tx: seq<Ix>, i: nat, j: nat, amount: nat, b: nat, found: bool)
    requires b < i <= |tx| && b < j < |tx| && OnlyRepayBehind(p, tx, b, j) && IsRepay(p, tx[j])
    requires CheckMatchingRepay(amount, tx[b], tx[j], b).None? && (found <==> j < i)
    ensures ScanFrom(p, tx, i, amount, b, found).None?
    decreases |tx| - i
  {
    hide CheckMatchingRepay;
    if i < |tx| {
      if i == j {
        ScanPasses(p, tx, i + 1, j, amount, b, true);
      } else {
        ScanPasses(p, tx, i + 1, j, amount, b, found);
      }
    }
  }

  lemma {:induction false} ScanSizes(p: Program, tx: seq<Ix>, i: nat, amount: nat, b: nat, found: bool)
    requires b < |tx| && i <= |tx| && ScanFrom(p, tx, i, amount, b, found).None?
    ensures forall k :: i <= k < |tx| && tx[k].program == p.id ==> |tx[k].data| >= 8
    decreases |tx| - i
  {
    hide CheckMatchingRepay;
    if i < |tx| {
      if tx[i].program == p.id && tx[i].data[..8] == p.repayDisc {
        ScanSizes(p, tx, i + 1, amount, b, true);
      } else {
        ScanSizes(p, tx, i + 1, amount, b, found);
      }
    }
  }

  /** A flash borrow passes exactly when it is called directly, one later instruction is its repayment, and
      no other later one is a flash borrow, a flash repayment, or too short to tell. */
  lemma {:induction false} BorrowSucceedsIff(p: Program, tx: seq<Ix>, i: nat)
    requires ValidProgram(p) && i < |tx| && IsBorrow(p, tx[i]) && |tx[i].data| >= 16
    ensures BorrowSucceeds(p, tx, i) <==> exists j: nat :: Pair(p, tx, i, j) && OnlyRepayBehind(p, tx, i, j)
  {
    hide ScanFrom, FromLittleEndian;
    var amount := FromLittleEndian(tx[i].data[8..16]);
    if BorrowSucceeds(p, tx, i) {
      var j := BorrowHasRepay(p, tx, i);
      ScanSizes(p, tx, i + 1, amount, i, false);
      assert Pair(p, tx, i, j) && OnlyRepayBehind(p, tx, i, j);
    }
    if j: nat :| Pair(p, tx, i, j) && OnlyRepayBehind(p, tx, i, j) {
      ScanPasses(p, tx, i + 1, j, amount, i, false);
    }
  }

  // ----- Refusals say what is wrong -----

  lemma {:induction false} MatchRefusals(amount: nat, borrow: Ix, repay: Ix, borrowIndex: nat)
    requires |repay.data| >= 8
    ensures match CheckMatchingRepay(amount, borrow, repay, borrowIndex)
            case None =>
              && |repay.data| == 17 && FromLittleEndian(repay.data[8..16]) == amount
              && repay.data[16] as nat == borrowIndex && repay.accounts == borrow.accounts
            case Some(DidNotDeserialize) => |repay.data| != 17
            case Some(InvalidFlashRepay) =>
              && |repay.data| == 17
              && (FromLittleEndian(repay.data[8..16]) != amount || repay.data[16] as nat != borrowIndex
                  || repay.accounts != borrow.accounts)
            case Some(_) => false
  {
    hide FromLittleEndian;
  }

  /** Some instruction from `i` on is of this kind. */
  ghost predicate SomeFrom(tx: seq<Ix>, i: nat, kind: Ix -> bool) { exists k :: i <= k < |tx| && kind(tx[k]) }

  ghost predicate TwoRepaysFrom(p: Program, tx: seq<Ix>, i: nat) {
    exists k, n :: i <= k < n < |tx| && IsRepay(p, tx[k]) && IsRepay(p, tx[n])
  }

  /** The scan behind a borrow blames an instruction that is there: one too short to tell, another flash
      borrow, one flash repayment too many, a repayment that does not match, or that there is none. */
  ghost predicate ScanErrorIsTrue(
    p: Program, tx: seq<Ix>, i: nat, amount: nat, b: nat, found: bool, e: FlashError)
    requires b < |tx|
  {
    match e
    case Panic => SomeFrom(tx, i, (ix: Ix) => ix.program == p.id && |ix.data| < 8)
    case MultipleFlashBorrows =>
      || SomeFrom(tx, i, (ix: Ix) => IsBorrow(p, ix))
      || (if found then SomeFrom(tx, i, (ix: Ix) => IsRepay(p, ix)) else TwoRepaysFrom(p, tx, i))
    case NoFlashRepayFound => !found && !SomeFrom(tx, i, (ix: Ix) => IsRepay(p, ix))
    case DidNotDeserialize => SomeFrom(tx, i, (ix: Ix) => IsRepay(p, ix) && |ix.data| != 17)
    case InvalidFlashRepay =>
      SomeFrom(tx, i, (ix: Ix) =>
        IsRepay(p, ix) && CheckMatchingRepay(amount, tx[b], ix, b) == Some(InvalidFlashRepay))
    case _ => false
  }

  lemma {:induction false} ScanRefusals(p: Program, tx: seq<Ix>, i: nat, amount: nat, b: nat, found: bool)
    requires b < |tx| && i <= |tx| && ScanFrom(p, tx, i, amount, b, found).Some?
    ensures ScanErrorIsTrue(p, tx, i, amount, b, found, ScanFrom(p, tx, i, amount, b, found).value)
    decreases |tx| - i
  {
    hide CheckMatchingRepay;
    if i < |tx| && !(tx[i].program == p.id && |tx[i].data| < 8) && !IsBorrow(p, tx[i]) {
      if !IsRepay(p, tx[i]) {
        ScanRefusals(p, tx, i + 1, amount, b, found);
      } else {
        MatchRefusals(amount, tx[b], tx[i], b);
        if !found && CheckMatchingRepay(amount, tx[b], tx[i], b).None? {
          ScanRefusals(p, tx, i + 1, amount, b, true);
        }
      }
    }
  }
}
