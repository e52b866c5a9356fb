/**
 * The transfer engine's effect on the account store, on values: the store
 * is a map from account identifier to balance, and one transfer either
 * rejects with an error and changes nothing, or commits a new map.
 * This is the specification the imperative engine in FundsTransfer is
 * proved against.
 */
module Ledger {
  import opened TransferRequests

  type Balances = map<string, int>

  /** The two exceptions the engine throws. */
  datatype TransferError = AccountNotFound | InsufficientBalance

  /** How a call of the engine ends: normally, or with one of its exceptions. */
  datatype Outcome = Success | Failure(error: TransferError)

  datatype TransferResult = Committed(balances: Balances) | Rejected(error: TransferError)
  {
    function Outcome(): Outcome
    {
      if Committed? then Success else Failure(error)
    }

    /** The store after the call: the committed map, or `before` when rejected. */
    function After(before: Balances): Balances
    {
      if Committed? then balances else before
    }
  }

  /** One transfer as the engine receives it, after validation. */
  datatype Move = Move(from: string, to: string, amount: int)

  /**
   * One transfer: look up the sender, then the recipient, then withdraw
   * from the sender (only when its balance covers the amount) and deposit
   * to the recipient. Sender and recipient may be the same account.
   */
  function Transfer(b: Balances, from: string, to: string, amount: int): (r: TransferResult)
    ensures r.Committed? <==> from in b && to in b && amount <= b[from]
    ensures r.Rejected? ==> r.error == (if from in b && to in b then InsufficientBalance else AccountNotFound)
    ensures r.Committed? ==> r.balances.Keys == b.Keys
  {
    if from !in b then Rejected(AccountNotFound)
    else if to !in b then Rejected(AccountNotFound)
    else if b[from] < amount then Rejected(InsufficientBalance)
    else
      var withdrawn := b[from := b[from] - amount];
      Committed(withdrawn[to := withdrawn[to] + amount])
  }

  /** On success the sender loses exactly `amount` and the recipient gains it; a self-transfer nets to zero. */
  lemma TransferMovesAmount(b: Balances, from: string, to: string, amount: int)
    requires Transfer(b, from, to, amount).Committed?
    ensures var b' := Transfer(b, from, to, amount).balances;
      if from == to then b'[from] == b[from]
      else b'[from] == b[from] - amount && b'[to] == b[to] + amount
  {
  }

  /** No account other than the sender and the recipient changes, successful or not. */
  lemma TransferFrame(b: Balances, from: string, to: string, amount: int, k: string)
    requires k in b && k != from && k != to
    ensures var b' := Transfer(b, from, to, amount).After(b);
      k in b' && b'[k] == b[k]
  {
  }

  /** Every balance in the store is non-negative. */
  predicate NonNegative(b: Balances)
  {
    forall k :: k in b ==> b[k] >= 0
  }

  /** A non-negative amount cannot make any balance negative. */
  lemma TransferKeepsNonNegative(b: Balances, from: string, to: string, amount: int)
    requires NonNegative(b) && amount >= 0
    ensures NonNegative(Transfer(b, from, to, amount).After(b))
  {
  }

  /**
   * The guarantee the controller and the engine give together: a request
   * that passes validation cannot make a non-negative store negative.
   */
  lemma ValidRequestKeepsNonNegative(b: Balances, req: TransferRequest)
    requires req.IsValid() && NonNegative(b)
    ensures NonNegative(Transfer(b, req.senderAccountId.value, req.recipientAccountId.value, req.amount.value).After(b))
  {
    TransferKeepsNonNegative(b, req.senderAccountId.value, req.recipientAccountId.value, req.amount.value);
  }

  /** Some key of a non-empty store, chosen once per store. */
  ghost function Pick(b: Balances): (k: string)
    requires b != map[]
    ensures k in b
  {
    var k :| k in b; k
  }

  /** The sum of all balances in the store. */
  ghost function Total(b: Balances): int
    decreases |b|
  {
    if b == map[] then 0
    else
      var k := Pick(b);
      assert |b - {k}| < |b| by { assert (b - {k}).Keys == b.Keys - {k}; }
      b[k] + Total(b - {k})
  }

  /** The sum can be taken starting from any key, not only the one `Pick` chooses. */
  lemma {:induction false} TotalAt(b: Balances, k: string)
    requires k in b
    ensures Total(b) == b[k] + Total(b - {k})
    decreases |b|
  {
    var j := Pick(b);
    if j != k {
      assert (b - {j}).Keys == b.Keys - {j};
      assert (b - {k}).Keys == b.Keys - {k};
      TotalAt(b - {j}, k);
      TotalAt(b - {k}, j);
      assert b - {j} - {k} == b - {k} - {j};
    }
  }

  /** Overwriting one balance changes the sum by the difference. */
  lemma TotalUpdate(b: Balances, k: string, v: int)
    requires k in b
    ensures Total(b[k := v]) == Total(b) - b[k] + v
  {
    TotalAt(b, k);
    TotalAt(b[k := v], k);
    assert b[k := v] - {k} == b - {k};
  }

  /** Conservation: every transfer, successful or not, leaves the sum of all balances unchanged. */
  lemma TransferConserves(b: Balances, from: string, to: string, amount: int)
    ensures Total(Transfer(b, from, to, amount).After(b)) == Total(b)
  {
    if Transfer(b, from, to, amount).Committed? {
      var withdrawn := b[from := b[from] - amount];
      TotalUpdate(b, from, b[from] - amount);
      TotalUpdate(withdrawn, to, withdrawn[to] + amount);
    }
  }

  /**
   * A committed transfer into an account with a non-negative balance (or a
   * self-transfer) is undone by the transfer of the same amount in the
   * opposite direction.
   */
  lemma TransferRoundTrip(b: Balances, from: string, to: string, amount: int)
    requires Transfer(b, from, to, amount).Committed?
    requires from != to ==> b[to] >= 0
    ensures Transfer(Transfer(b, from, to, amount).balances, to, from, amount) == Committed(b)
  {
    var b1 := Transfer(b, from, to, amount).balances;
    var b2 := Transfer(b1, to, from, amount);
    assert b2.Committed?;
    assert b2.balances == b;
  }

  /** The store after running the transfers one after another; a rejected one changes nothing. */
  function TransferAll(b: Balances, moves: seq<Move>): (r: Balances)
    ensures r.Keys == b.Keys
  {
    if moves == [] then b
    else TransferAll(Transfer(b, moves[0].from, moves[0].to, moves[0].amount).After(b), moves[1..])
  }

  /** Conservation over any sequence of transfers. */
  lemma {:induction false} TransferAllConserves(b: Balances, moves: seq<Move>)
    ensures Total(TransferAll(b, moves)) == Total(b)
  {
    if moves != [] {
      var m := moves[0];
      TransferConserves(b, m.from, m.to, m.amount);
      TransferAllConserves(Transfer(b, m.from, m.to, m.amount).After(b), moves[1..]);
    }
  }

  /** No sequence of non-negative transfers makes a non-negative store negative. */
  lemma {:induction false} TransferAllKeepsNonNegative(b: Balances, moves: seq<Move>)
    requires NonNegative(b)
    requires forall i :: 0 <= i < |moves| ==> moves[i].amount >= 0
    ensures NonNegative(TransferAll(b, moves))
  {
    if moves != [] {
      var m := moves[0];
      TransferKeepsNonNegative(b, m.from, m.to, m.amount);
      TransferAllKeepsNonNegative(Transfer(b, m.from, m.to, m.amount).After(b), moves[1..]);
    }
  }

  /** `n` transfers of `amount` alternating between `a -> c` (even positions) and `c -> a` (odd positions). */
  function Alternating(a: string, c: string, amount: int, n: nat): (r: seq<Move>)
    ensures |r| == n
  {
    seq(n, i => if i % 2 == 0 then Move(a, c, amount) else Move(c, a, amount))
  }

  /** Every transfer of the sequence commits on the store the transfers before it left. */
  predicate AllCommit(b: Balances, moves: seq<Move>)
  {
    moves == [] ||
      var r := Transfer(b, moves[0].from, moves[0].to, moves[0].amount);
      r.Committed? && AllCommit(r.balances, moves[1..])
  }

  /**
   * An even number of alternating transfers, starting from a store where
   * the first one can go through and the recipient's balance is
   * non-negative, all commit and leave every balance as it was.
   */
  lemma {:induction false} AlternatingReturns(b: Balances, a: string, c: string, amount: int, pairs: nat)
    requires a in b && c in b && a != c
    requires amount <= b[a] && b[c] >= 0
    ensures AllCommit(b, Alternating(a, c, amount, 2 * pairs))
    ensures TransferAll(b, Alternating(a, c, amount, 2 * pairs)) == b
  {
    if pairs > 0 {
      var ms := Alternating(a, c, amount, 2 * pairs);
      assert ms[0] == Move(a, c, amount) && ms[1] == Move(c, a, amount);
      assert ms[2..] == Alternating(a, c, amount, 2 * (pairs - 1));
      TransferRoundTrip(b, a, c, amount);
      var b1 := Transfer(b, a, c, amount).balances;
      assert TransferAll(b, ms) == TransferAll(b1, ms[1..]);
      assert ms[1..][1..] == ms[2..];
      assert TransferAll(b1, ms[1..]) == TransferAll(b, ms[2..]);
      AlternatingReturns(b, a, c, amount, pairs - 1);
    }
  }

  /** The store with `k` moved from `a` to `c` (back from `c` to `a` when `k` is negative). */
  function Shift(b: Balances, a: string, c: string, k: int): Balances
    requires a in b && c in b
  {
    b[a := b[a] - k][c := b[c] + k]
  }

  /** Two shifts between the same pair of accounts add up. */
  lemma ShiftShift(b: Balances, a: string, c: string, k1: int, k2: int)
    requires a in b && c in b && a != c
    ensures Shift(Shift(b, a, c, k1), a, c, k2) == Shift(b, a, c, k1 + k2)
  {
  }

  /**
   * Any interleaving of unit transfers between two accounts, some from `a`
   * to `c` and the rest back, all commit when each side can cover what it
   * sends, and the store ends shifted by the difference of the two counts.
   */
  lemma {:induction false} UnitTransfersCommit(b: Balances, a: string, c: string, moves: seq<Move>)
    requires a in b && c in b && a != c
    requires forall i :: 0 <= i < |moves| ==> moves[i] == Move(a, c, 1) || moves[i] == Move(c, a, 1)
    requires b[a] >= multiset(moves)[Move(a, c, 1)] && b[c] >= multiset(moves)[Move(c, a, 1)]
    ensures AllCommit(b, moves)
    ensures TransferAll(b, moves) == Shift(b, a, c, multiset(moves)[Move(a, c, 1)] as int - multiset(moves)[Move(c, a, 1)])
  {
    if moves != [] {
      var m, rest := moves[0], moves[1..];
      assert moves == [m] + rest;
      assert multiset(moves) == multiset{m} + multiset(rest);
      var k := if m == Move(a, c, 1) then 1 else -1;
      var b1 := Shift(b, a, c, k);
      assert Transfer(b, m.from, m.to, m.amount) == Committed(b1);
      UnitTransfersCommit(b1, a, c, rest);
      ShiftShift(b, a, c, k, multiset(rest)[Move(a, c, 1)] as int - multiset(rest)[Move(c, a, 1)]);
    }
  }

  /** Sender balance 1, recipient 10, amount 10: rejected as insufficient, nothing changes. */
  lemma InsufficientBalanceExample()
    ensures Transfer(map["1111" := 1, "3333" := 10], "1111", "3333", 10) == Rejected(InsufficientBalance)
  {
  }

  /** Sender balance 1, recipient 10, amount 1: committed with balances 0 and 11. */
  lemma SuccessfulTransferExample()
    ensures Transfer(map["1111" := 1, "3333" := 10], "1111", "3333", 1) == Committed(map["1111" := 0, "3333" := 11])
  {
  }

  /** A missing sender is reported as not found, whatever the recipient. */
  lemma MissingSenderExample(to: string, amount: int)
    ensures Transfer(map["3333" := 10], "1111", to, amount) == Rejected(AccountNotFound)
  {
  }

  /** The engine does not check the sign: a negative amount goes through and drives the recipient negative. */
  lemma NegativeAmountExample()
    ensures Transfer(map["1111" := 0, "3333" := 0], "1111", "3333", -5) == Committed(map["1111" := 5, "3333" := -5])
  {
  }

  /** Ten alternating transfers of 1 between two accounts holding 10 each all commit and end at 10 and 10. */
  lemma AlternatingExample()
    ensures AllCommit(map["1111" := 10, "3333" := 10], Alternating("1111", "3333", 1, 10))
    ensures TransferAll(map["1111" := 10, "3333" := 10], Alternating("1111", "3333", 1, 10)) == map["1111" := 10, "3333" := 10]
  {
    AlternatingReturns(map["1111" := 10, "3333" := 10], "1111", "3333", 1, 5);
  }

  /**
   * Whatever order the ten transfers of the concurrent test take effect in,
   * five of 1 from 1111 to 3333 and five back, every one commits and both
   * accounts end at 10.
   */
  lemma AnyInterleavingExample(moves: seq<Move>)
    requires forall i :: 0 <= i < |moves| ==> moves[i] == Move("1111", "3333", 1) || moves[i] == Move("3333", "1111", 1)
    requires multiset(moves)[Move("1111", "3333", 1)] == 5 && multiset(moves)[Move("3333", "1111", 1)] == 5
    ensures AllCommit(map["1111" := 10, "3333" := 10], moves)
    ensures TransferAll(map["1111" := 10, "3333" := 10], moves) == map["1111" := 10, "3333" := 10]
  {
    UnitTransfersCommit(map["1111" := 10, "3333" := 10], "1111", "3333", moves);
  }
}
