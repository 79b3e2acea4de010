/** The home screen's bank account: the balance is 100 plus every delta of
    the user's balance history, and it shows green when positive. */
module Home {
  import opened Common

  /** One entry of the balance history; only its delta matters here. */
  datatype BalanceEntry = BalanceEntry(delta: real)

  const StartingBalance: real := 100.0

  /** `reduce((acc, curr) => acc + curr.delta, acc)`, left to right. */
  function FoldDeltas(acc: real, history: seq<BalanceEntry>): real
    decreases |history|
  {
    if |history| == 0 then acc else FoldDeltas(acc + history[0].delta, history[1..])
  }

  /** The sum of the deltas, defined from the back: the reference the fold
      is compared with. */
  function Sum(history: seq<BalanceEntry>): real {
    if |history| == 0 then 0.0 else Sum(history[..|history| - 1]) + history[|history| - 1].delta
  }

  lemma {:induction false} SumFront(history: seq<BalanceEntry>)
    requires |history| > 0
    ensures Sum(history) == history[0].delta + Sum(history[1..])
    decreases |history|
  {
    if |history| > 1 {
      var init := history[..|history| - 1];
      SumFront(init);
      assert init[1..] == history[1..][..|history[1..]| - 1];
    }
  }

  lemma {:induction false} FoldIsSum(acc: real, history: seq<BalanceEntry>)
    ensures FoldDeltas(acc, history) == acc + Sum(history)
    decreases |history|
  {
    if |history| > 0 {
      FoldIsSum(acc + history[0].delta, history[1..]);
      SumFront(history);
    }
  }

  /** The balance shown: 100 plus the folded deltas. */
  function Balance(history: seq<BalanceEntry>): (r: real)
    ensures r == StartingBalance + Sum(history)
    ensures |history| == 0 ==> r == 100.0
  {
    FoldIsSum(0.0, history);
    StartingBalance + FoldDeltas(0.0, history)
  }

  /** A new entry raises the balance by exactly its delta. */
  lemma BalanceAppend(history: seq<BalanceEntry>, e: BalanceEntry)
    ensures Balance(history + [e]) == Balance(history) + e.delta
  {
    assert (history + [e])[..|history|] == history;
  }

  lemma {:induction false} SumRemoveAt(history: seq<BalanceEntry>, k: nat)
    requires k < |history|
    ensures Sum(history) == Sum(RemoveAt(history, k)) + history[k].delta
    decreases |history|
  {
    SumFront(history);
    if k > 0 {
      SumRemoveAt(history[1..], k - 1);
      var rest := RemoveAt(history, k);
      assert rest[1..] == RemoveAt(history[1..], k - 1);
      SumFront(rest);
    } else {
      assert RemoveAt(history, 0) == history[1..];
    }
  }

  /** The balance does not depend on the order of the history. */
  lemma {:induction false} BalanceOrderFree(a: seq<BalanceEntry>, b: seq<BalanceEntry>)
    requires multiset(a) == multiset(b)
    ensures Balance(a) == Balance(b)
    decreases |a|
  {
    if |a| > 0 {
      assert a[0] in multiset(b);
      var k :| 0 <= k < |b| && b[k] == a[0];
      SumFront(a);
      SumRemoveAt(b, k);
      assert a == [a[0]] + a[1..];
      assert multiset(a) == multiset{a[0]} + multiset(a[1..]);
      assert multiset(a[1..]) == multiset(a) - multiset{a[0]};
      assert multiset(RemoveAt(b, k)) == multiset(b) - multiset{b[k]};
      BalanceOrderFree(a[1..], RemoveAt(b, k));
    } else {
      assert |b| == |multiset(b)|;
    }
  }

  /** The balance's colour: green strictly above zero, red otherwise. */
  function BalanceColor(history: seq<BalanceEntry>): (c: string)
    ensures c == "green" <==> Balance(history) > 0.0
    ensures c == "red" <==> Balance(history) <= 0.0
  {
    if Balance(history) > 0.0 then "green" else "red"
  }
}
