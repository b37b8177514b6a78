/** `awaitFinal` of src/blockchain/confirmation-policy.ts, against a chain that reorganizes between any two reads. */
module Confirmation {
  import opened Wrappers

  type Hash = string

  /** A block, as far as receipts go: the transactions it mined and their status. */
  datatype Block = Block(mined: map<Hash, nat>)

  type Chain = seq<Block>

  datatype Receipt = Receipt(blockNumber: nat, status: nat)

  function ReceiptOf(chain: Chain, tx: Hash): Option<Receipt> { ReceiptFrom(chain, tx, 0) }

  function ReceiptFrom(chain: Chain, tx: Hash, from: nat): (r: Option<Receipt>)
    ensures r.Some? ==> from <= r.value.blockNumber < |chain| && tx in chain[r.value.blockNumber].mined
    ensures r.Some? ==> r.value.status == chain[r.value.blockNumber].mined[tx]
    ensures forall k :: from <= k < (if r.Some? then r.value.blockNumber else |chain|) ==> tx !in chain[k].mined
    decreases |chain| - from
  {
    if from >= |chain| then None
    else if tx in chain[from].mined then Some(Receipt(from, chain[from].mined[tx]))
    else ReceiptFrom(chain, tx, from + 1)
  }

  function Head(chain: Chain): int { |chain| - 1 }

  // ---------- The environment ----------

  /** The head never falls and at most the top `depth` blocks are replaced. */
  predicate Reorganizes(before: Chain, after: Chain, depth: nat) {
    |before| <= |after| && forall k :: 0 <= k < |before| - depth ==> after[k] == before[k]
  }

  /** The chains seen by successive reads. */
  predicate Bounded(seen: seq<Chain>, depth: nat) {
    forall i :: 0 < i < |seen| ==> Reorganizes(seen[i - 1], seen[i], depth)
  }

  /** One step between two reads stands for any number of reorganizations. */
  lemma ReorganizesTransitive(a: Chain, b: Chain, c: Chain, depth: nat)
    requires Reorganizes(a, b, depth) && Reorganizes(b, c, depth)
    ensures Reorganizes(a, c, depth)
  {
  }

  // ---------- The loop ----------

  /** `awaitFinal` resolved after read number `at`, having seen the transaction in `blockNumber`. */
  datatype Finality = Finality(at: nat, blockNumber: nat)

  function Successful(seen: seq<Chain>, i: nat, tx: Hash): bool
    requires i < |seen|
  {
    ReceiptOf(seen[i], tx).Some? && ReceiptOf(seen[i], tx).value.status == 1
  }

  /** Reads `i - 2`, `i - 1` and `i` are the three reads of a round that ends the wait. */
  predicate EndsAt(need: int, tx: Hash, seen: seq<Chain>, i: nat) {
    2 <= i < |seen| && Successful(seen, i - 2, tx)
    && Head(seen[i - 1]) - ReceiptOf(seen[i - 2], tx).value.blockNumber >= need
    && ReceiptOf(seen[i], tx).Some?
    && ReceiptOf(seen[i], tx).value.blockNumber == ReceiptOf(seen[i - 2], tx).value.blockNumber
  }

  /** How many reads the round that starts with read `i` makes. */
  function RoundLength(need: int, tx: Hash, seen: seq<Chain>, i: nat): (n: nat)
    requires i + 2 < |seen|
    ensures 1 <= n <= 3
  {
    if !Successful(seen, i, tx) then 1
    else if Head(seen[i + 1]) - ReceiptOf(seen[i], tx).value.blockNumber < need then 2
    else 3
  }

  /** The first round, from read `i` on, that ends the wait. */
  function Await(need: int, tx: Hash, seen: seq<Chain>, i: nat): (r: Option<Finality>)
    ensures r.Some? ==> EndsAt(need, tx, seen, r.value.at) && i + 2 <= r.value.at
    ensures r.Some? ==> ReceiptOf(seen[r.value.at], tx).value.blockNumber == r.value.blockNumber
    decreases |seen| - i
  {
    if i + 2 >= |seen| then None
    else if EndsAt(need, tx, seen, i + 2) then Some(Finality(i + 2, ReceiptOf(seen[i], tx).value.blockNumber))
    else Await(need, tx, seen, i + RoundLength(need, tx, seen, i))
  }

  /** How the wait stands when the reads so far are over. */
  datatype Wait = Final(finality: Finality) | Waiting | ReadRejected

  /** When the reads so far have not ended the wait, the next one rejects or is still to come. */
  function Otherwise(rejects: bool): Wait { if rejects then ReadRejected else Waiting }

  /**
   * The polling loop; read number `i` sees `seen[i]`, and `rejects` says whether the
   * read after those rejects. The original never gives up by itself.
   */
  method AwaitFinal(need: int, tx: Hash, seen: seq<Chain>, rejects: bool) returns (r: Wait)
    ensures r.Final? <==> Await(need, tx, seen, 0).Some?
    ensures r.Final? ==> Some(r.finality) == Await(need, tx, seen, 0)
    ensures !r.Final? ==> r == Otherwise(rejects)
  {
    var i := 0;
    while i < |seen|
      invariant Await(need, tx, seen, i) == Await(need, tx, seen, 0)
    {
      var receipt := ReceiptOf(seen[i], tx);
      i := i + 1;
      if receipt.Some? && receipt.value.status == 1 {
        if i >= |seen| {
          return Otherwise(rejects);
        }
        var head := Head(seen[i]);
        i := i + 1;
        if head - receipt.value.blockNumber >= need {
          if i >= |seen| {
            return Otherwise(rejects);
          }
          var recheck := ReceiptOf(seen[i], tx);
          if recheck.Some? && recheck.value.blockNumber == receipt.value.blockNumber {
            return Final(Finality(i, receipt.value.blockNumber));
          }
          i := i + 1;
        }
      }
    }
    return Otherwise(rejects);
  }

  // ---------- Finality ----------

  /** A receipt below the reorganization depth is the same on the next chain. */
  lemma DeepReceiptStays(before: Chain, after: Chain, depth: nat, tx: Hash)
    requires Reorganizes(before, after, depth)
    requires ReceiptOf(before, tx).Some? && ReceiptOf(before, tx).value.blockNumber < |before| - depth
    ensures ReceiptOf(after, tx) == ReceiptOf(before, tx)
  {
    var b := ReceiptOf(before, tx).value.blockNumber;
    assert after[b] == before[b];
    assert forall k :: 0 <= k < b ==> after[k] == before[k];
  }

  lemma {:induction false} DeepReceiptLasts(seen: seq<Chain>, depth: nat, tx: Hash, i: nat, j: nat)
    requires Bounded(seen, depth) && i <= j < |seen|
    requires ReceiptOf(seen[i], tx).Some? && ReceiptOf(seen[i], tx).value.blockNumber < |seen[i]| - depth
    ensures ReceiptOf(seen[j], tx) == ReceiptOf(seen[i], tx) && |seen[i]| <= |seen[j]|
    decreases j
  {
    if i < j {
      DeepReceiptLasts(seen, depth, tx, i, j - 1);
      DeepReceiptStays(seen[j - 1], seen[j], depth, tx);
    }
  }

  /** Once the wait ends the transaction stays in the observed block, with the status the recheck saw, forever. */
  lemma FinalStays(need: nat, tx: Hash, seen: seq<Chain>, j: nat)
    requires Bounded(seen, need)
    requires Await(need, tx, seen, 0).Some? && Await(need, tx, seen, 0).value.at <= j < |seen|
    ensures var f := Await(need, tx, seen, 0).value;
            ReceiptOf(seen[j], tx) == Some(Receipt(f.blockNumber, ReceiptOf(seen[f.at], tx).value.status))
  {
    var f := Await(need, tx, seen, 0).value;
    assert Reorganizes(seen[f.at - 1], seen[f.at], need);
    DeepReceiptLasts(seen, need, tx, f.at, j);
  }

  predicate Settled(need: int, tx: Hash, seen: seq<Chain>, i: nat, b: nat) {
    forall k :: i <= k < |seen| ==> ReceiptOf(seen[k], tx) == Some(Receipt(b, 1)) && Head(seen[k]) - b >= need
  }

  /** A transaction that is deep enough and stays put ends the wait within five reads. */
  lemma {:induction false} SettledIsFinal(need: int, tx: Hash, seen: seq<Chain>, from: nat, i: nat, b: nat)
    requires Settled(need, tx, seen, i, b) && from <= i + 2 && i + 5 <= |seen|
    ensures Await(need, tx, seen, from).Some? && Await(need, tx, seen, from).value.at <= i + 4
    decreases |seen| - from
  {
    if from < i && !EndsAt(need, tx, seen, from + 2) {
      SettledIsFinal(need, tx, seen, from + RoundLength(need, tx, seen, from), i, b);
    }
  }

  // ---------- What each guard is for ----------

  const TX: Hash := "tx"

  function Empty(n: nat): (chain: Chain)
    ensures |chain| == n && forall k :: 0 <= k < n ==> chain[k] == Block(map[])
  {
    seq(n, _ => Block(map[]))
  }

  function Mined(status: nat, n: nat): (chain: Chain)
    ensures |chain| == n + 1 && ReceiptOf(chain, TX) == Some(Receipt(0, status))
  {
    [Block(map[TX := status])] + Empty(n)
  }

  /** The first two tests passed, but the transaction is gone by the time of the second. */
  predicate Dropped(need: nat, depth: nat, seen: seq<Chain>) {
    |seen| == 2 && Bounded(seen, depth) && Successful(seen, 0, TX)
    && Head(seen[1]) - ReceiptOf(seen[0], TX).value.blockNumber >= need && ReceiptOf(seen[1], TX).None?
  }

  /** For any number of confirmations, the recheck is needed exactly when a reorganization is possible at all. */
  lemma RecheckNeededIff(need: nat, depth: nat)
    ensures (exists seen :: Dropped(need, depth, seen)) <==> depth > 0
  {
    if depth > 0 {
      assert Dropped(need, depth, [Mined(1, 0), Empty(need + 1)]);
    } else {
      forall seen ensures !Dropped(need, depth, seen) {
        if |seen| == 2 && Bounded(seen, 0) && Successful(seen, 0, TX) {
          DeepReceiptStays(seen[0], seen[1], 0, TX);
        }
      }
    }
  }

  /** The wait ended on a receipt whose status had become 0. */
  predicate EndsReverted(need: nat, depth: nat, seen: seq<Chain>) {
    Bounded(seen, depth) && var r := Await(need, TX, seen, 0);
    r.Some? && ReceiptOf(seen[r.value.at], TX).value.status == 0
  }

  /**
   * The recheck does not look at the status: however many confirmations are asked
   * for, the wait can end on a failed transaction exactly when chains reorganize.
   */
  lemma StatusMayFlipIff(need: nat, depth: nat)
    ensures (exists seen :: EndsReverted(need, depth, seen)) <==> depth > 0
  {
    if depth > 0 {
      var seen := [Mined(1, 0), Mined(0, need), Mined(0, need)];
      assert EndsAt(need, TX, seen, 2);
      assert EndsReverted(need, depth, seen);
    } else {
      forall seen ensures !EndsReverted(need, depth, seen) {
        if EndsReverted(need, depth, seen) {
          var f := Await(need, TX, seen, 0).value;
          DeepReceiptLasts(seen, 0, TX, f.at - 2, f.at);
        }
      }
    }
  }

  predicate Vanishes(need: nat, depth: nat, seen: seq<Chain>) {
    |seen| == 4 && Bounded(seen, depth)
    && Await(need, TX, seen, 0) == Some(Finality(2, 0)) && ReceiptOf(seen[3], TX).None?
  }

  /** A final transaction vanishes for some chain exactly when reorganizations go deeper than `confirmations`. */
  lemma DepthIsExact(need: nat, depth: nat)
    ensures (exists seen :: Vanishes(need, depth, seen)) <==> depth > need
  {
    if depth > need {
      var seen := [Mined(1, need), Mined(1, need), Mined(1, need), Empty(need + 1)];
      assert EndsAt(need, TX, seen, 2);
      assert Vanishes(need, depth, seen);
    } else {
      forall seen ensures !Vanishes(need, depth, seen) {
        if Vanishes(need, depth, seen) {
          assert Bounded(seen, need);
          FinalStays(need, TX, seen, 3);
        }
      }
    }
  }
}
