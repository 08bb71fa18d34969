/** The two free functions of hepscore.py: `median_tuple`, which picks the
    median run of a benchmark, and the guards of `weighted_geometric_mean`. */
module Stats {
  import opened Wrappers

  /** One entry of the per-run results dict: the run key and its score. */
  type Entry = (nat, real)

  /** The order `sorted(vals.items(), key=itemgetter(1))` leaves the entries
      in. The sort compares scores only, but it is stable and the dict's keys
      were inserted in increasing order, so equal scores stay in key order. */
  predicate Before(a: Entry, b: Entry) {
    a.1 < b.1 || (a.1 == b.1 && a.0 < b.0)
  }

  predicate Sorted(s: seq<Entry>) {
    forall i, j | 0 <= i < j < |s| :: Before(s[i], s[j])
  }

  predicate IncreasingKeys(s: seq<Entry>) {
    forall i, j | 0 <= i < j < |s| :: s[i].0 < s[j].0
  }

  predicate FreshKey(x: Entry, s: seq<Entry>) {
    forall k | 0 <= k < |s| :: s[k].0 != x.0
  }

  function Insert(x: Entry, s: seq<Entry>): (r: seq<Entry>)
    requires Sorted(s) && FreshKey(x, s)
    ensures Sorted(r)
    ensures multiset(r) == multiset(s) + multiset{x}
    ensures |r| == |s| + 1
    ensures forall k | 0 <= k < |r| :: r[k] == x || r[k] in s
  {
    if |s| == 0 then [x]
    else if Before(x, s[0]) then [x] + s
    else
      var rest := Insert(x, s[1..]);
      assert s == [s[0]] + s[1..];
      assert forall k | 0 <= k < |rest| :: Before(s[0], rest[k]);
      [s[0]] + rest
  }

  /** `sorted(...)` on entries with distinct keys. */
  function SortEntries(es: seq<Entry>): (r: seq<Entry>)
    requires IncreasingKeys(es)
    ensures Sorted(r)
    ensures multiset(r) == multiset(es)
    ensures |r| == |es|
    decreases |es|, 1
  {
    if |es| == 0 then []
    else
      assert es == [es[0]] + es[1..];
      FreshHead(es);
      Insert(es[0], SortEntries(es[1..]))
  }

  /** The first entry's key is not among the sorted rest. */
  lemma FreshHead(es: seq<Entry>)
    requires IncreasingKeys(es) && |es| > 0
    ensures FreshKey(es[0], SortEntries(es[1..]))
    decreases |es|, 0
  {
    var rest := SortEntries(es[1..]);
    forall k | 0 <= k < |rest|
      ensures rest[k].0 != es[0].0
    {
      assert rest[k] in multiset(es[1..]);
      var j :| 0 <= j < |es[1..]| && es[1..][j] == rest[k];
      assert es[1..][j] == es[j + 1];
    }
  }

  /** What `median_tuple` returns: for an odd count the score and key of the
      middle run, for an even count the mean of the two middle scores and
      both keys. */
  datatype Median = Single(value: real, key: nat) | Pair(value: real, low: nat, high: nat)

  /** The mean of the two middle values. */
  function MeanOfTwo(a: real, b: real): real {
    (a + b) / 2.0
  }

  function MedianTuple(es: seq<Entry>): (m: Median)
    requires |es| > 0 && IncreasingKeys(es)
    ensures m.Single? <==> |es| % 2 == 1
  {
    var s := SortEntries(es);
    var mid := |s| / 2;
    if |s| % 2 == 1 then Single(s[mid].1, s[mid].0)
    else Pair(MeanOfTwo(s[mid - 1].1, s[mid].1), s[mid - 1].0, s[mid].0)
  }

  // ---------------------------------------------------------------------------
  // The median by rank, without reference to the sort.
  // ---------------------------------------------------------------------------

  /** How many entries of `s` come before `e`. */
  function CountBefore(s: seq<Entry>, e: Entry): nat {
    if |s| == 0 then 0
    else (if Before(s[0], e) then 1 else 0) + CountBefore(s[1..], e)
  }

  lemma {:induction false} CountBeforeInsert(x: Entry, s: seq<Entry>, e: Entry)
    requires Sorted(s) && FreshKey(x, s)
    ensures CountBefore(Insert(x, s), e) == CountBefore(s, e) + (if Before(x, e) then 1 else 0)
  {
    if |s| > 0 && !Before(x, s[0]) {
      CountBeforeInsert(x, s[1..], e);
      assert ([s[0]] + Insert(x, s[1..]))[1..] == Insert(x, s[1..]);
    }
  }

  lemma {:induction false} CountBeforeSort(es: seq<Entry>, e: Entry)
    requires IncreasingKeys(es)
    ensures CountBefore(SortEntries(es), e) == CountBefore(es, e)
  {
    if |es| > 0 {
      CountBeforeSort(es[1..], e);
      FreshHead(es);
      CountBeforeInsert(es[0], SortEntries(es[1..]), e);
    }
  }

  lemma {:induction false} CountBeforeNone(s: seq<Entry>, e: Entry)
    requires forall k | 0 <= k < |s| :: !Before(s[k], e)
    ensures CountBefore(s, e) == 0
  {
    if |s| > 0 {
      CountBeforeNone(s[1..], e);
    }
  }

  /** In a sorted sequence an entry's rank is its index. */
  lemma {:induction false} SortedRank(s: seq<Entry>, k: nat)
    requires Sorted(s) && k < |s|
    ensures CountBefore(s, s[k]) == k
  {
    if k == 0 {
      CountBeforeNone(s[1..], s[0]);
    } else {
      SortedRank(s[1..], k - 1);
    }
  }

  /** The entry at index `k` of the sorted entries has rank `k` among the
      original entries. */
  lemma SortedEntryRank(es: seq<Entry>, k: nat)
    requires IncreasingKeys(es) && k < |es|
    ensures SortEntries(es)[k] in es
    ensures CountBefore(es, SortEntries(es)[k]) == k
  {
    var s := SortEntries(es);
    SortedRank(s, k);
    CountBeforeSort(es, s[k]);
    assert s[k] in multiset(es);
  }

  /** The score recorded for run `key` (the first one, `0.0` if none). */
  function ScoreOf(es: seq<Entry>, key: nat): real {
    if |es| == 0 then 0.0
    else if es[0].0 == key then es[0].1
    else ScoreOf(es[1..], key)
  }

  lemma {:induction false} ScoreOfEntry(es: seq<Entry>, e: Entry)
    requires IncreasingKeys(es) && e in es
    ensures ScoreOf(es, e.0) == e.1
  {
    if es[0] != e {
      assert e in es[1..];
      ScoreOfEntry(es[1..], e);
    }
  }

  /** The median is chosen by rank: for an odd count the returned run has
      exactly half (rounded down) of the runs before it; for an even count the
      two returned runs are the two middle ones and the value is the mean of
      their scores. */
  lemma MedianTupleByRank(es: seq<Entry>)
    requires |es| > 0 && IncreasingKeys(es)
    ensures MedianTuple(es).Single? ==>
      var m := MedianTuple(es);
      (m.key, m.value) in es && CountBefore(es, (m.key, m.value)) == |es| / 2
    ensures MedianTuple(es).Pair? ==>
      var m := MedianTuple(es);
      var lo, hi := (m.low, ScoreOf(es, m.low)), (m.high, ScoreOf(es, m.high));
      && lo in es && hi in es
      && CountBefore(es, lo) == |es| / 2 - 1
      && CountBefore(es, hi) == |es| / 2
      && m.value == MeanOfTwo(lo.1, hi.1)
  {
    if |es| % 2 == 1 {
      MedianSingleByRank(es);
    } else {
      MedianPairByRank(es);
    }
  }

  /** An odd count: the returned run has half (rounded down) of the runs
      before it. */
  lemma MedianSingleByRank(es: seq<Entry>)
    requires |es| % 2 == 1 && IncreasingKeys(es)
    ensures var m := MedianTuple(es);
      m.Single? && (m.key, m.value) in es && CountBefore(es, (m.key, m.value)) == |es| / 2
  {
    var s := SortEntries(es);
    SortedEntryRank(es, |s| / 2);
    assert (MedianTuple(es).key, MedianTuple(es).value) == s[|s| / 2];
  }

  /** An even count: the two returned runs are the two middle ones and the
      value is the mean of their scores. */
  lemma MedianPairByRank(es: seq<Entry>)
    requires |es| > 0 && |es| % 2 == 0 && IncreasingKeys(es)
    ensures var m := MedianTuple(es);
      var lo, hi := (m.low, ScoreOf(es, m.low)), (m.high, ScoreOf(es, m.high));
      && m.Pair? && lo in es && hi in es
      && CountBefore(es, lo) == |es| / 2 - 1
      && CountBefore(es, hi) == |es| / 2
      && m.value == MeanOfTwo(lo.1, hi.1)
  {
    var s := SortEntries(es);
    var mid := |es| / 2;
    AdjacentRanks(es, mid);
    var m := MedianTuple(es);
    assert m == Pair(MeanOfTwo(s[mid - 1].1, s[mid].1), s[mid - 1].0, s[mid].0);
  }

  /** The sorted entries at `k - 1` and `k` are entries of `es` with ranks
      `k - 1` and `k`, and each is the score recorded for its run. */
  lemma AdjacentRanks(es: seq<Entry>, k: nat)
    requires IncreasingKeys(es) && 0 < k < |es|
    ensures var s := SortEntries(es);
      && s[k - 1] in es && s[k] in es
      && CountBefore(es, s[k - 1]) == k - 1 && CountBefore(es, s[k]) == k
      && ScoreOf(es, s[k - 1].0) == s[k - 1].1 && ScoreOf(es, s[k].0) == s[k].1
  {
    var s := SortEntries(es);
    SortedEntryRank(es, k - 1);
    SortedEntryRank(es, k);
    ScoreOfEntry(es, s[k - 1]);
    ScoreOfEntry(es, s[k]);
  }

  /** Equal scores keep run order: of the runs scoring 2.0, 2.0 and 1.0 the
      median is the first 2.0 run. */
  lemma MedianOfTie()
    ensures MedianTuple([(0, 2.0), (1, 1.0), (2, 2.0)]) == Single(2.0, 0)
  {
    var es: seq<Entry> := [(0, 2.0), (1, 1.0), (2, 2.0)];
    MedianTupleByRank(es);
    assert CountBefore(es, (1, 1.0)) == 0;
    assert CountBefore(es, (2, 2.0)) == 2;
  }

  // ---------------------------------------------------------------------------
  // weighted_geometric_mean: its guards. The power and product are floating
  // point; the model stops at the arguments they would be applied to.
  // ---------------------------------------------------------------------------

  function Sum(xs: seq<real>): real {
    if |xs| == 0 then 0.0 else Sum(xs[..|xs| - 1]) + xs[|xs| - 1]
  }

  /** The default weights: `1.0` per value. */
  function Ones(n: nat): (r: seq<real>)
    ensures |r| == n && forall k | 0 <= k < n :: r[k] == 1.0
  {
    if n == 0 then [] else Ones(n - 1) + [1.0]
  }

  /** How the function ends: `0`, or the product of `vals[i] ** weights[i]`
      raised to `1 / totalWeight`, which the model leaves uncomputed. */
  datatype Mean = Zero | Power(vals: seq<real>, weights: seq<real>, totalWeight: real)

  function WeightedGeometricMean(vals: seq<real>, weights: Option<seq<real>>): (r: Mean)
    ensures weights.Some? && |weights.value| != |vals| ==> r == Zero
    ensures r.Power? ==>
      && r.vals == vals && |r.weights| == |vals|
      && r.totalWeight == Sum(r.weights) && r.totalWeight != 0.0
      && (weights.Some? ==> r.weights == weights.value)
      && (weights.None? ==> r.weights == Ones(|vals|))
  {
    var ws := if weights.Some? then weights.value else Ones(|vals|);
    if |vals| != |ws| then Zero
    else
      var total := Sum(ws);
      if total == 0.0 then Zero else Power(vals, ws, total)
  }

  lemma {:induction false} SumOnes(n: nat)
    ensures Sum(Ones(n)) == n as real
  {
    if n > 0 {
      SumOnes(n - 1);
      assert Ones(n)[..n - 1] == Ones(n - 1);
    }
  }

  /** Without explicit weights the result is `0` exactly for an empty list. */
  lemma DefaultWeightsZeroOnlyWhenEmpty(vals: seq<real>)
    ensures WeightedGeometricMean(vals, None).Zero? <==> |vals| == 0
  {
    SumOnes(|vals|);
  }

  /** With explicit weights the result is `0` exactly when the lengths differ
      or the weights add up to zero. */
  lemma ExplicitWeightsZero(vals: seq<real>, weights: seq<real>)
    ensures WeightedGeometricMean(vals, Some(weights)).Zero? <==>
      |weights| != |vals| || Sum(weights) == 0.0
  {
  }
}
