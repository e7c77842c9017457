/**
 * The distributions of the quantum-volume fitter: the ideal output
 * distribution of a circuit, its median, its heavy outputs and the
 * probability of a subset of outputs; and the measured count histograms,
 * their merge and their totals.
 */
module QVDistributions {
  import opened QVStrings

  predicate Distinct(s: seq<string>) {
    forall i, j :: 0 <= i < j < |s| ==> s[i] != s[j]
  }

  /**
   * An ideal output distribution as a Python dict from outcome string to
   * probability: `keys` lists the keys in insertion order, `prob` holds the values.
   */
  datatype Distribution = Distribution(keys: seq<string>, prob: map<string, real>)

  /** Every listed key has a value. */
  predicate KeysPresent(d: Distribution) {
    forall k :: k in d.keys ==> k in d.prob
  }

  /** A dict: the listed keys are distinct and are exactly the keys of the values. */
  ghost predicate WellFormed(d: Distribution) {
    Distinct(d.keys) && forall k :: k in d.prob <==> k in d.keys
  }

  lemma FormatBinaryInjectiveAll(width: nat)
    ensures forall a: nat, b: nat {:trigger FormatBinary(a, width), FormatBinary(b, width)} ::
      FormatBinary(a, width) == FormatBinary(b, width) ==> a == b
  {
    forall a: nat, b: nat | FormatBinary(a, width) == FormatBinary(b, width) ensures a == b {
      FormatBinaryInjective(a, b, width);
    }
  }

  /**
   * The ideal distribution of a width-`depth` circuit from its outcome
   * probabilities: key b is `FormatBinary(b, depth)`, for b below 2^depth in
   * increasing order, and holds `pvector[b]`.
   */
  function ProbabilityMap(depth: nat, pvector: seq<real>): (d: Distribution)
    requires |pvector| >= Pow2(depth)
    ensures |d.keys| == Pow2(depth) && KeysPresent(d)
  {
    FormatBinaryInjectiveAll(depth);
    Distribution(seq(Pow2(depth), b requires 0 <= b < Pow2(depth) => FormatBinary(b, depth)),
                 map b | 0 <= b < Pow2(depth) :: FormatBinary(b, depth) := pvector[b])
  }

  /**
   * Key b of the ideal distribution is `FormatBinary(b, depth)` and holds
   * `pvector[b]`, and the dict has no other keys.
   */
  lemma ProbabilityMapEntries(depth: nat, pvector: seq<real>)
    requires |pvector| >= Pow2(depth)
    ensures var d := ProbabilityMap(depth, pvector);
      && (forall b :: 0 <= b < Pow2(depth) ==>
            d.keys[b] == FormatBinary(b, depth) && d.keys[b] in d.prob && d.prob[d.keys[b]] == pvector[b])
      && (forall k :: k in d.prob <==> k in d.keys)
  {
    FormatBinaryInjectiveAll(depth);
    var d := ProbabilityMap(depth, pvector);
    forall k | k in d.prob ensures k in d.keys {
      var b :| 0 <= b < Pow2(depth) && k == FormatBinary(b, depth);
      assert d.keys[b] == k;
    }
  }

  /**
   * The keys of the ideal distribution are 2^depth pairwise distinct
   * zero-padded binary strings of width `depth` (width 1 when depth is 0),
   * and key b reads back as b.
   */
  lemma ProbabilityMapKeys(depth: nat, pvector: seq<real>)
    requires |pvector| >= Pow2(depth)
    ensures WellFormed(ProbabilityMap(depth, pvector))
    ensures |ProbabilityMap(depth, pvector).keys| == Pow2(depth)
    ensures forall b :: 0 <= b < Pow2(depth) ==>
      var key := ProbabilityMap(depth, pvector).keys[b];
      && |key| == (if depth == 0 then 1 else depth)
      && AllBits(key) && BitsValue(key) == b
  {
    var d := ProbabilityMap(depth, pvector);
    ProbabilityMapEntries(depth, pvector);
    forall i, j | 0 <= i < j < |d.keys| ensures d.keys[i] != d.keys[j] {
      if d.keys[i] == d.keys[j] {
        FormatBinaryInjective(i, j, depth);
      }
    }
    forall b | 0 <= b < Pow2(depth)
      ensures |d.keys[b]| == (if depth == 0 then 1 else depth)
      ensures AllBits(d.keys[b]) && BitsValue(d.keys[b]) == b
    {
      FormatBinaryWidth(b, depth);
      FormatBinaryValue(b, depth);
    }
  }

  /** `r` is `s` with some elements left out, the rest kept in order. */
  predicate IsSubsequence(r: seq<string>, s: seq<string>)
    decreases |s|
  {
    if r == [] then true
    else if s == [] then false
    else if r[0] == s[0] then IsSubsequence(r[1..], s[1..])
    else IsSubsequence(r, s[1..])
  }

  /** The keys, in order, whose probability is strictly greater than `threshold`. */
  function KeysAbove(keys: seq<string>, prob: map<string, real>, threshold: real): seq<string>
    requires forall k :: k in keys ==> k in prob
    decreases |keys|
  {
    if keys == [] then []
    else
      var rest := KeysAbove(keys[1..], prob, threshold);
      if prob[keys[0]] > threshold then [keys[0]] + rest else rest
  }

  /**
   * A key is kept exactly when its probability is above the threshold; the
   * kept keys are in key order, and distinct keys stay distinct.
   */
  lemma {:induction false} KeysAboveFacts(keys: seq<string>, prob: map<string, real>, threshold: real)
    requires forall k :: k in keys ==> k in prob
    ensures var r := KeysAbove(keys, prob, threshold);
      && (forall s :: s in r <==> s in keys && prob[s] > threshold)
      && IsSubsequence(r, keys)
      && (Distinct(keys) ==> Distinct(r))
    decreases |keys|
  {
    if keys != [] {
      var rest := KeysAbove(keys[1..], prob, threshold);
      KeysAboveFacts(keys[1..], prob, threshold);
      assert keys == [keys[0]] + keys[1..];
      if prob[keys[0]] > threshold {
        var r := [keys[0]] + rest;
        assert r[1..] == rest;
        if Distinct(keys) {
          assert keys[0] !in keys[1..];
          assert forall j :: 1 <= j < |r| ==> r[j] == rest[j - 1];
        }
      }
    }
  }

  /**
   * `_heavy_strings`: the heavy outputs, i.e. the keys whose ideal
   * probability is strictly above the median, in key order.
   */
  function HeavyStrings(d: Distribution, median: real): seq<string>
    requires KeysPresent(d)
  {
    KeysAbove(d.keys, d.prob, median)
  }

  /**
   * The heavy strings are exactly the keys whose probability exceeds the
   * median, in key order, and distinct when the keys are.
   */
  lemma HeavyStringsFacts(d: Distribution, median: real)
    requires KeysPresent(d)
    ensures var r := HeavyStrings(d, median);
      && (forall s :: s in r <==> s in d.keys && d.prob[s] > median)
      && IsSubsequence(r, d.keys)
      && (Distinct(d.keys) ==> Distinct(r))
  {
    KeysAboveFacts(d.keys, d.prob, median);
  }

  /** The values in key order: Python's `dict.values()`. */
  function DictValues(d: Distribution): (r: seq<real>)
    requires KeysPresent(d)
    ensures |r| == |d.keys|
  {
    seq(|d.keys|, i requires 0 <= i < |d.keys| => d.prob[d.keys[i]])
  }

  predicate Sorted(s: seq<real>) {
    forall i, j :: 0 <= i < j < |s| ==> s[i] <= s[j]
  }

  /** Inserts x before the first value that is not smaller than it. */
  function Insert(x: real, s: seq<real>): (r: seq<real>)
    ensures |r| == |s| + 1
    ensures r[0] == (if s == [] || x <= s[0] then x else s[0])
    decreases |s|
  {
    if s == [] || x <= s[0] then [x] + s else [s[0]] + Insert(x, s[1..])
  }

  /** Inserting into sorted values keeps them sorted. */
  lemma {:induction false} InsertSorted(x: real, s: seq<real>)
    requires Sorted(s)
    ensures Sorted(Insert(x, s))
    decreases |s|
  {
    if s != [] && x > s[0] {
      var rest := Insert(x, s[1..]);
      InsertSorted(x, s[1..]);
      assert s[0] <= rest[0];
      var r := [s[0]] + rest;
      forall i, j | 0 <= i < j < |r| ensures r[i] <= r[j] {
        if i > 0 {
          assert r[i] == rest[i - 1] && r[j] == rest[j - 1];
        } else {
          assert r[j] == rest[j - 1] && rest[0] <= rest[j - 1];
        }
      }
    }
  }

  /** Inserting adds exactly one occurrence of x. */
  lemma {:induction false} InsertMultiset(x: real, s: seq<real>)
    ensures multiset(Insert(x, s)) == multiset(s) + multiset{x}
    decreases |s|
  {
    if s != [] && x > s[0] {
      InsertMultiset(x, s[1..]);
      assert s == [s[0]] + s[1..];
    }
  }

  /** The values in increasing order. */
  function Sort(s: seq<real>): (r: seq<real>)
    ensures |r| == |s|
    decreases |s|
  {
    if s == [] then [] else Insert(s[0], Sort(s[1..]))
  }

  /** Sorting orders the values and keeps each of them, as often as it occurs. */
  lemma {:induction false} SortSorted(s: seq<real>)
    ensures Sorted(Sort(s)) && multiset(Sort(s)) == multiset(s)
    decreases |s|
  {
    if s != [] {
      SortSorted(s[1..]);
      InsertSorted(s[0], Sort(s[1..]));
      InsertMultiset(s[0], Sort(s[1..]));
      assert s == [s[0]] + s[1..];
    }
  }

  /**
   * numpy's median: the middle value of the sorted values, or the mean of
   * the two middle values when their number is even.
   */
  function Median(values: seq<real>): real
    requires |values| >= 1
  {
    var s := Sort(values);
    var h := |s| / 2;
    if |s| % 2 == 1 then s[h] else (s[h - 1] + s[h]) / 2.0
  }

  /** How many values are strictly greater than m. */
  function CountAbove(s: seq<real>, m: real): (n: nat)
    ensures n <= |s|
    decreases |s|
  {
    if s == [] then 0 else (if s[0] > m then 1 else 0) + CountAbove(s[1..], m)
  }

  /** How many values are strictly smaller than m. */
  function CountBelow(s: seq<real>, m: real): (n: nat)
    ensures n <= |s|
    decreases |s|
  {
    if s == [] then 0 else (if s[0] < m then 1 else 0) + CountBelow(s[1..], m)
  }

  lemma {:induction false} InsertCounts(x: real, s: seq<real>, m: real)
    ensures CountAbove(Insert(x, s), m) == CountAbove(s, m) + (if x > m then 1 else 0)
    ensures CountBelow(Insert(x, s), m) == CountBelow(s, m) + (if x < m then 1 else 0)
    decreases |s|
  {
    if s == [] || x <= s[0] {
      assert ([x] + s)[1..] == s;
    } else {
      InsertCounts(x, s[1..], m);
      assert ([s[0]] + Insert(x, s[1..]))[1..] == Insert(x, s[1..]);
    }
  }

  /** Sorting does not change how many values lie above or below a threshold. */
  lemma {:induction false} SortCounts(s: seq<real>, m: real)
    ensures CountAbove(Sort(s), m) == CountAbove(s, m)
    ensures CountBelow(Sort(s), m) == CountBelow(s, m)
    decreases |s|
  {
    if s != [] {
      SortCounts(s[1..], m);
      InsertCounts(s[0], Sort(s[1..]), m);
    }
  }

  /** If the first k values are at most m, at most |s| - k values exceed m. */
  lemma {:induction false} CountAboveAfterPrefix(s: seq<real>, m: real, k: nat)
    requires k <= |s| && forall i :: 0 <= i < k ==> s[i] <= m
    ensures CountAbove(s, m) <= |s| - k
    decreases k
  {
    if k > 0 {
      CountAboveAfterPrefix(s[1..], m, k - 1);
    }
  }

  /** If the values from index k on are at least m, at most k values are below m. */
  lemma {:induction false} CountBelowBeforeSuffix(s: seq<real>, m: real, k: nat)
    requires k <= |s| && forall i :: k <= i < |s| ==> s[i] >= m
    ensures CountBelow(s, m) <= k
    decreases |s|
  {
    if s != [] {
      if k == 0 {
        CountBelowBeforeSuffix(s[1..], m, 0);
        assert CountBelow(s[1..], m) == 0;
      } else {
        CountBelowBeforeSuffix(s[1..], m, k - 1);
      }
    }
  }

  /** In sorted values, every value up to index k is at most the one at k, and every value from k on at least it. */
  lemma SortedAround(s: seq<real>, k: nat)
    requires Sorted(s) && k < |s|
    ensures forall i :: 0 <= i <= k ==> s[i] <= s[k]
    ensures forall i :: k <= i < |s| ==> s[i] >= s[k]
  {
  }

  /** At most half of the values lie strictly above the median, and at most half strictly below. */
  lemma MedianSplitsInHalves(values: seq<real>)
    requires |values| >= 1
    ensures CountAbove(values, Median(values)) <= |values| / 2
    ensures CountBelow(values, Median(values)) <= |values| / 2
  {
    var s := Sort(values);
    var m := Median(values);
    var h := |s| / 2;
    SortSorted(values);
    SortCounts(values, m);
    if |s| % 2 == 1 {
      assert m == s[h];
      SortedAround(s, h);
      CountAboveAfterPrefix(s, m, h + 1);
      CountBelowBeforeSuffix(s, m, h);
    } else {
      assert m == (s[h - 1] + s[h]) / 2.0;
      SortedAround(s, h - 1);
      SortedAround(s, h);
      assert s[h - 1] <= m <= s[h];
      CountAboveAfterPrefix(s, m, h);
      CountBelowBeforeSuffix(s, m, h);
    }
  }

  /** The number of keys above a threshold is the number of their values above it. */
  lemma {:induction false} KeysAboveCount(d: Distribution, m: real)
    requires KeysPresent(d)
    ensures |KeysAbove(d.keys, d.prob, m)| == CountAbove(DictValues(d), m)
    decreases |d.keys|
  {
    if d.keys != [] {
      var tail := Distribution(d.keys[1..], d.prob);
      KeysAboveCount(tail, m);
      assert DictValues(d)[1..] == DictValues(tail);
    }
  }

  /** At most half of the outcomes of an ideal distribution are heavy. */
  lemma HeavyAtMostHalf(d: Distribution)
    requires KeysPresent(d) && |d.keys| >= 1
    ensures |HeavyStrings(d, Median(DictValues(d)))| <= |d.keys| / 2
  {
    MedianSplitsInHalves(DictValues(d));
    KeysAboveCount(d, Median(DictValues(d)));
  }

  /** `_median_probabilities`: the median of the values of each distribution, in order. */
  method MedianProbabilities(distributions: seq<Distribution>) returns (medians: seq<real>)
    requires forall i :: 0 <= i < |distributions| ==> KeysPresent(distributions[i]) && |distributions[i].keys| >= 1
    ensures |medians| == |distributions|
    ensures forall i :: 0 <= i < |distributions| ==>
      medians[i] == Median(DictValues(distributions[i]))
  {
    medians := [];
    for i := 0 to |distributions|
      invariant |medians| == i
      invariant forall j :: 0 <= j < i ==>
        medians[j] == Median(DictValues(distributions[j]))
    {
      var dist := distributions[i];
      medians := medians + [Median(DictValues(dist))];
    }
  }

  /** `_subset_probability` on a probability dict: the sum of `distribution.get(s, 0)` over the strings. */
  function SubsetProbability(strings: seq<string>, prob: map<string, real>): real
    decreases |strings|
  {
    if strings == [] then 0.0
    else (if strings[0] in prob then prob[strings[0]] else 0.0) + SubsetProbability(strings[1..], prob)
  }

  /** The subset probability of a concatenation is the sum of the two subset probabilities. */
  lemma {:induction false} SubsetProbabilityAppend(a: seq<string>, b: seq<string>, prob: map<string, real>)
    ensures SubsetProbability(a + b, prob) == SubsetProbability(a, prob) + SubsetProbability(b, prob)
    decreases |a|
  {
    if a != [] {
      assert (a + b)[0] == a[0] && (a + b)[1..] == a[1..] + b;
      SubsetProbabilityAppend(a[1..], b, prob);
      assert SubsetProbability(a + b, prob)
        == (if a[0] in prob then prob[a[0]] else 0.0) + SubsetProbability(a[1..] + b, prob);
    } else {
      assert a + b == b;
    }
  }

  /** Strings absent from the distribution contribute nothing. */
  lemma {:induction false} SubsetProbabilityAbsent(strings: seq<string>, prob: map<string, real>)
    requires forall s :: s in strings ==> s !in prob
    ensures SubsetProbability(strings, prob) == 0.0
    decreases |strings|
  {
    if strings != [] {
      SubsetProbabilityAbsent(strings[1..], prob);
    }
  }

  /**
   * With non-negative probabilities, the probability of a subsequence of
   * the keys is at most that of all keys: the ideal heavy-output
   * probability never exceeds the total probability.
   */
  lemma {:induction false} SubsequenceProbabilityBound(r: seq<string>, s: seq<string>, prob: map<string, real>)
    requires IsSubsequence(r, s)
    requires forall k :: k in prob ==> prob[k] >= 0.0
    ensures 0.0 <= SubsetProbability(r, prob) <= SubsetProbability(s, prob)
    decreases |s|
  {
    if r == [] {
      SubsetProbabilityNonNegative(s, prob);
    } else if r[0] == s[0] {
      SubsequenceProbabilityBound(r[1..], s[1..], prob);
    } else {
      SubsequenceProbabilityBound(r, s[1..], prob);
    }
  }

  lemma {:induction false} SubsetProbabilityNonNegative(s: seq<string>, prob: map<string, real>)
    requires forall k :: k in prob ==> prob[k] >= 0.0
    ensures SubsetProbability(s, prob) >= 0.0
    decreases |s|
  {
    if s != [] {
      SubsetProbabilityNonNegative(s[1..], prob);
    }
  }

  /** A measured count histogram: outcome string to number of shots. */
  type Counts = map<string, nat>

  /** Python's `counts.get(k, 0)`. */
  function Get(c: Counts, k: string): nat {
    if k in c then c[k] else 0
  }

  /** `_subset_probability` on a count histogram: the sum of `counts.get(s, 0)` over the strings. */
  function SubsetCount(strings: seq<string>, c: Counts): nat
    decreases |strings|
  {
    if strings == [] then 0 else Get(c, strings[0]) + SubsetCount(strings[1..], c)
  }

  /** The sum of the counts of a set of outcomes; outcomes absent from the histogram count 0. */
  ghost function SumOver(c: Counts, keys: set<string>): nat
    decreases keys
  {
    if keys == {} then 0
    else
      var k :| k in keys;
      Get(c, k) + SumOver(c, keys - {k})
  }

  /** The number of shots of a histogram: Python's `sum(counts.values())`. */
  ghost function Shots(c: Counts): nat {
    SumOver(c, c.Keys)
  }

  /** The sum over a set may take out any one of its elements first. */
  lemma SumOverRemove(c: Counts, keys: set<string>, k: string)
    requires k in keys
    ensures SumOver(c, keys) == Get(c, k) + SumOver(c, keys - {k})
    decreases keys
  {
    var j :| j in keys && SumOver(c, keys) == Get(c, j) + SumOver(c, keys - {j});
    if j != k {
      SumOverRemove(c, keys - {j}, k);
      SumOverRemove(c, keys - {k}, j);
      assert keys - {j} - {k} == keys - {k} - {j};
    }
  }

  /** Outcomes that are not in the histogram add nothing to a sum. */
  lemma SumOverSuperset(c: Counts, keys: set<string>)
    requires c.Keys <= keys
    ensures SumOver(c, keys) == Shots(c)
    decreases keys
  {
    if keys != c.Keys {
      var extra := keys - c.Keys;
      assert keys == c.Keys + extra;
      var k :| k in extra;
      SumOverRemove(c, keys, k);
      SumOverSuperset(c, keys - {k});
    }
  }

  /**
   * The count of distinct strings is at most the sum over any set that holds
   * every one of them that occurs in the histogram.
   */
  lemma {:induction false} SubsetCountAtMostSum(strings: seq<string>, c: Counts, keys: set<string>)
    requires Distinct(strings)
    requires forall s :: s in strings && s in c ==> s in keys
    ensures SubsetCount(strings, c) <= SumOver(c, keys)
    decreases |strings|
  {
    if strings != [] {
      var s := strings[0];
      assert forall t :: t in strings[1..] ==> t != s;
      if s in keys {
        SumOverRemove(c, keys, s);
        SubsetCountAtMostSum(strings[1..], c, keys - {s});
      } else {
        SubsetCountAtMostSum(strings[1..], c, keys);
      }
    }
  }

  /** The heavy-output count of a histogram is at most its number of shots, for distinct heavy strings. */
  lemma HeavyCountAtMostShots(strings: seq<string>, c: Counts)
    requires Distinct(strings)
    ensures SubsetCount(strings, c) <= Shots(c)
  {
    SubsetCountAtMostSum(strings, c, c.Keys);
  }

  /** Pointwise sum of two histograms. */
  function AddCounts(a: Counts, b: Counts): Counts {
    map k | k in a.Keys + b.Keys :: Get(a, k) + Get(b, k)
  }

  /** The pointwise sum holds the outcomes of both histograms, each with the sum of its two counts. */
  lemma AddCountsGet(a: Counts, b: Counts)
    ensures AddCounts(a, b).Keys == a.Keys + b.Keys
    ensures forall k :: Get(AddCounts(a, b), k) == Get(a, k) + Get(b, k)
  {
  }

  /** Summing pointwise sums: the sum of the pointwise sum is the sum of the sums. */
  lemma SumOverAdd(a: Counts, b: Counts, keys: set<string>)
    ensures SumOver(AddCounts(a, b), keys) == SumOver(a, keys) + SumOver(b, keys)
    decreases keys
  {
    if keys != {} {
      var k :| k in keys;
      SumOverRemove(AddCounts(a, b), keys, k);
      SumOverRemove(a, keys, k);
      SumOverRemove(b, keys, k);
      SumOverAdd(a, b, keys - {k});
    }
  }

  /** The shots of a pointwise sum of histograms are the sum of their shots. */
  lemma AddCountsShots(a: Counts, b: Counts)
    ensures Shots(AddCounts(a, b)) == Shots(a) + Shots(b)
  {
    var keys := a.Keys + b.Keys;
    AddCountsGet(a, b);
    SumOverAdd(a, b, keys);
    SumOverSuperset(a, keys);
    SumOverSuperset(b, keys);
  }

  /**
   * `build_counts_dict_from_list`: the histograms of one circuit from
   * several runs, merged by adding the counts of each outcome.
   */
  function MergeCounts(list: seq<Counts>): Counts
    decreases |list|
  {
    if list == [] then map[] else AddCounts(MergeCounts(list[..|list| - 1]), list[|list| - 1])
  }

  /** The number of shots over all histograms of a list. */
  ghost function TotalShots(list: seq<Counts>): nat
    decreases |list|
  {
    if list == [] then 0 else TotalShots(list[..|list| - 1]) + Shots(list[|list| - 1])
  }

  /** The count of an outcome summed over all histograms of a list. */
  function TotalOf(list: seq<Counts>, k: string): nat
    decreases |list|
  {
    if list == [] then 0 else TotalOf(list[..|list| - 1], k) + Get(list[|list| - 1], k)
  }

  /**
   * Merging pools the runs: each outcome's merged count is its count summed
   * over the runs, and the merged shots are the shots of all runs together.
   */
  lemma {:induction false} MergeCountsPools(list: seq<Counts>)
    ensures forall k :: Get(MergeCounts(list), k) == TotalOf(list, k)
    ensures Shots(MergeCounts(list)) == TotalShots(list)
    decreases |list|
  {
    if list != [] {
      MergeCountsPools(list[..|list| - 1]);
      AddCountsShots(MergeCounts(list[..|list| - 1]), list[|list| - 1]);
    }
  }

  /** Python's `sum(counts.values())`. */
  method SumValues(c: Counts) returns (total: nat)
    ensures total == Shots(c)
  {
    total := 0;
    var rest := c.Keys;
    while rest != {}
      invariant rest <= c.Keys
      invariant total + SumOver(c, rest) == Shots(c)
      decreases rest
    {
      var k :| k in rest;
      SumOverRemove(c, rest, k);
      total := total + c[k];
      rest := rest - {k};
    }
  }
}
