/**
 * The shape of the per-file loop in `main` (app.py:191-224), independent of
 * what is done to each file: a step is applied to every item of a batch
 * together with its random draw, and the rows it yields are kept in order.
 */
module Batching {
  import opened Seqs

  /** The row (if any) one item contributes, as a sequence of length at most one. */
  function RowOf<R>(outcome: Option<R>): seq<R> {
    match outcome
    case None => []
    case Some(rec) => [rec]
  }

  /** The rows the first `n` items yield, in batch order, skipped items left out. */
  function CollectFirst<X, D, R>(step: (X, D) -> Option<R>, items: seq<X>, draws: seq<D>, n: nat): (r: seq<R>)
    requires |draws| == |items| && n <= |items|
    ensures |r| <= n
  {
    if n == 0 then [] else CollectFirst(step, items, draws, n - 1) + RowOf(step(items[n - 1], draws[n - 1]))
  }

  /** The rows the whole batch yields. */
  function Collect<X, D, R>(step: (X, D) -> Option<R>, items: seq<X>, draws: seq<D>): (r: seq<R>)
    requires |draws| == |items|
    ensures |r| <= |items|
  {
    CollectFirst(step, items, draws, |items|)
  }

  /** Items appended after the first `n` do not change their rows. */
  lemma {:induction false} CollectFirstOfLonger<X, D, R>(step: (X, D) -> Option<R>, a: seq<X>, b: seq<X>, da: seq<D>, db: seq<D>, n: nat)
    requires |da| == |a| && |db| == |b| && n <= |a|
    ensures CollectFirst(step, a + b, da + db, n) == CollectFirst(step, a, da, n)
  {
    if n > 0 {
      CollectFirstOfLonger(step, a, b, da, db, n - 1);
      assert (a + b)[n - 1] == a[n - 1] && (da + db)[n - 1] == da[n - 1];
    }
  }

  /** The first `|a| + m` rows of `a + b` are those of `a`, then the first `m` of `b`. */
  lemma {:induction false} CollectFirstOfAppend<X, D, R>(step: (X, D) -> Option<R>, a: seq<X>, b: seq<X>, da: seq<D>, db: seq<D>, m: nat)
    requires |da| == |a| && |db| == |b| && m <= |b|
    ensures CollectFirst(step, a + b, da + db, |a| + m) == Collect(step, a, da) + CollectFirst(step, b, db, m)
  {
    if m == 0 {
      CollectFirstOfLonger(step, a, b, da, db, |a|);
      assert CollectFirst(step, b, db, 0) == [];
    } else {
      var k := |a| + m - 1;
      CollectFirstOfAppend(step, a, b, da, db, m - 1);
      assert (a + b)[k] == b[m - 1] && (da + db)[k] == db[m - 1];
      var row := RowOf(step(b[m - 1], db[m - 1]));
      assert CollectFirst(step, a + b, da + db, k + 1) == CollectFirst(step, a + b, da + db, k) + row;
      assert CollectFirst(step, b, db, m) == CollectFirst(step, b, db, m - 1) + row;
      AppendAssociative(Collect(step, a, da), CollectFirst(step, b, db, m - 1), row);
    }
  }

  /** Collecting over a concatenation collects over each part: no item's outcome depends on another. */
  lemma CollectAppend<X, D, R>(step: (X, D) -> Option<R>, a: seq<X>, b: seq<X>, da: seq<D>, db: seq<D>)
    requires |da| == |a| && |db| == |b|
    ensures Collect(step, a + b, da + db) == Collect(step, a, da) + Collect(step, b, db)
  {
    CollectFirstOfAppend(step, a, b, da, db, |b|);
  }

  /** The positions, among the first `n` items, of those that yield a row. */
  function SourcesFirst<X, D, R>(step: (X, D) -> Option<R>, items: seq<X>, draws: seq<D>, n: nat): (r: seq<nat>)
    requires |draws| == |items| && n <= |items|
    ensures forall k :: 0 <= k < |r| ==> r[k] < n
  {
    if n == 0 then []
    else if step(items[n - 1], draws[n - 1]).Some? then SourcesFirst(step, items, draws, n - 1) + [n - 1]
    else SourcesFirst(step, items, draws, n - 1)
  }

  /** Each listed position produced the row at the same index, and rows and positions pair up. */
  lemma {:induction false} SourcesProduceRows<X, D, R>(step: (X, D) -> Option<R>, items: seq<X>, draws: seq<D>, n: nat)
    requires |draws| == |items| && n <= |items|
    ensures |SourcesFirst(step, items, draws, n)| == |CollectFirst(step, items, draws, n)|
    ensures forall k :: 0 <= k < |SourcesFirst(step, items, draws, n)| ==>
      var i := SourcesFirst(step, items, draws, n)[k];
      step(items[i], draws[i]) == Some(CollectFirst(step, items, draws, n)[k])
  {
    if n > 0 {
      SourcesProduceRows(step, items, draws, n - 1);
      var s, c := SourcesFirst(step, items, draws, n - 1), CollectFirst(step, items, draws, n - 1);
      var outcome := step(items[n - 1], draws[n - 1]);
      if outcome.Some? {
        assert SourcesFirst(step, items, draws, n) == s + [n - 1];
        assert CollectFirst(step, items, draws, n) == c + [outcome.value];
      }
    }
  }

  /** The listed positions increase strictly. */
  lemma {:induction false} SourcesIncrease<X, D, R>(step: (X, D) -> Option<R>, items: seq<X>, draws: seq<D>, n: nat)
    requires |draws| == |items| && n <= |items|
    ensures forall k, l :: 0 <= k < l < |SourcesFirst(step, items, draws, n)| ==>
      SourcesFirst(step, items, draws, n)[k] < SourcesFirst(step, items, draws, n)[l]
  {
    if n > 0 {
      SourcesIncrease(step, items, draws, n - 1);
    }
  }

  /** A position left out of the list yields no row. */
  lemma {:induction false} UnlistedYieldNothing<X, D, R>(step: (X, D) -> Option<R>, items: seq<X>, draws: seq<D>, n: nat)
    requires |draws| == |items| && n <= |items|
    ensures forall j :: 0 <= j < n && j !in SourcesFirst(step, items, draws, n) ==> step(items[j], draws[j]).None?
  {
    if n > 0 {
      UnlistedYieldNothing(step, items, draws, n - 1);
      var s := SourcesFirst(step, items, draws, n - 1);
      assert forall j :: j in s ==> j in SourcesFirst(step, items, draws, n);
    }
  }

  /**
   * The loop of app.py:191-224 over any per-item step. `sources[k]` is the
   * position in the batch of the item that produced `records[k]`.
   */
  method CollectLoop<X, D, R>(step: (X, D) -> Option<R>, items: seq<X>, draws: seq<D>)
    returns (records: seq<R>, sources: seq<nat>)
    requires |draws| == |items|
    ensures |sources| == |records|
    ensures forall k :: 0 <= k < |sources| ==>
      sources[k] < |items| && step(items[sources[k]], draws[sources[k]]) == Some(records[k])
    ensures forall k, l :: 0 <= k < l < |sources| ==> sources[k] < sources[l]
    ensures forall i :: 0 <= i < |items| && i !in sources ==> step(items[i], draws[i]).None?
    ensures records == Collect(step, items, draws)
  {
    records := [];
    sources := [];
    var i := 0;
    while i < |items|
      invariant i <= |items|
      invariant records == CollectFirst(step, items, draws, i)
      invariant sources == SourcesFirst(step, items, draws, i)
    {
      var outcome := step(items[i], draws[i]);
      if outcome.Some? {
        records := records + [outcome.value];
        sources := sources + [i];
      }
      i := i + 1;
    }
    SourcesProduceRows(step, items, draws, i);
    SourcesIncrease(step, items, draws, i);
    UnlistedYieldNothing(step, items, draws, i);
  }
}
