/** The array operations the aggregation uses: `Array.prototype.filter`,
    and the running-total loop that turns hourly values into a cumulative
    series. */
module JsArray {

  /** `s.filter(p)`: keeps the elements satisfying `p`, as often as `s`
      holds them; `FilterLast` states that their order is kept too. */
  function Filter<T(==, !new)>(s: seq<T>, p: T -> bool): (r: seq<T>)
    ensures |r| <= |s|
    ensures forall x :: multiset(r)[x] == if p(x) then multiset(s)[x] else 0
  {
    if s == [] then []
    else
      var last := s[|s| - 1];
      assert s == s[..|s| - 1] + [last];
      Filter(s[..|s| - 1], p) + (if p(last) then [last] else [])
  }

  /** A filtered array is empty exactly when no element passes the test. */
  lemma FilterEmpty<T(!new)>(s: seq<T>, p: T -> bool)
    ensures |Filter(s, p)| == 0 <==> forall i :: 0 <= i < |s| ==> !p(s[i])
  {
    var r := Filter(s, p);
    if |r| != 0 {
      assert multiset(r)[r[0]] > 0;
      assert r[0] in multiset(s);
    }
    if i :| 0 <= i < |s| && p(s[i]) {
      assert s[i] in multiset(s);
      assert multiset(r)[s[i]] > 0;
    }
  }

  /** Filtering one more element appends it exactly when it passes. */
  lemma FilterLast<T(!new)>(s: seq<T>, p: T -> bool)
    requires |s| > 0
    ensures Filter(s, p) == Filter(s[..|s| - 1], p) + (if p(s[|s| - 1]) then [s[|s| - 1]] else [])
  {
  }

  /** Every element of a filtered array passes the test. */
  lemma FilterSound<T(!new)>(s: seq<T>, p: T -> bool)
    ensures forall i :: 0 <= i < |Filter(s, p)| ==> p(Filter(s, p)[i])
  {
    var r := Filter(s, p);
    forall i | 0 <= i < |r|
      ensures p(r[i])
    {
      assert r[i] in multiset(r);
    }
  }

  /** The total of a sequence, added up front to back. */
  function Sum(s: seq<int>): int {
    if s == [] then 0 else Sum(s[..|s| - 1]) + s[|s| - 1]
  }

  lemma {:induction false} SumFront(s: seq<int>)
    requires |s| > 0
    ensures Sum(s) == s[0] + Sum(s[1..])
  {
    if |s| > 1 {
      assert s[1..][..|s| - 2] == s[..|s| - 1][1..];
      SumFront(s[..|s| - 1]);
    }
  }

  /** `for (const val of values) { sum += val; cumulative.push(sum); }`,
      started with the running total `sum`. */
  function RunningSums(values: seq<int>, sum: int): (cumulative: seq<int>)
    ensures |cumulative| == |values|
  {
    if values == [] then [] else [sum + values[0]] + RunningSums(values[1..], sum + values[0])
  }

  /** Each element of the running total is the start value plus the sum of
      the values up to and including that position. */
  lemma {:induction false} RunningSumsArePrefixSums(values: seq<int>, sum: int)
    ensures forall i :: 0 <= i < |values| ==>
      RunningSums(values, sum)[i] == sum + Sum(values[..i + 1])
  {
    if values != [] {
      var rest := values[1..];
      RunningSumsArePrefixSums(rest, sum + values[0]);
      forall i | 0 <= i < |values|
        ensures RunningSums(values, sum)[i] == sum + Sum(values[..i + 1])
      {
        SumFront(values[..i + 1]);
        assert values[..i + 1][1..] == rest[..i];
        if i > 0 {
          assert RunningSums(values, sum)[i] == RunningSums(rest, sum + values[0])[i - 1];
        } else {
          assert values[..1][1..] == [];
        }
      }
    }
  }

  /** With no negative value the running total never goes down, and its last
      element is the start value plus the total of all values. */
  lemma RunningSumsMonotone(values: seq<int>, sum: int)
    requires forall i :: 0 <= i < |values| ==> values[i] >= 0
    ensures forall i, j :: 0 <= i <= j < |values| ==>
      RunningSums(values, sum)[i] <= RunningSums(values, sum)[j]
    ensures |values| > 0 ==> RunningSums(values, sum)[|values| - 1] == sum + Sum(values)
  {
    var r := RunningSums(values, sum);
    RunningSumsArePrefixSums(values, sum);
    forall i, j | 0 <= i <= j < |values|
      ensures r[i] <= r[j]
    {
      SumGrows(values[..j + 1], i + 1);
      assert values[..j + 1][..i + 1] == values[..i + 1];
    }
    if |values| > 0 {
      assert values[..|values|] == values;
    }
  }

  /** Dropping a tail of non-negative values cannot raise the sum. */
  lemma {:induction false} SumGrows(s: seq<int>, n: nat)
    requires n <= |s|
    requires forall i :: 0 <= i < |s| ==> s[i] >= 0
    ensures Sum(s[..n]) <= Sum(s)
  {
    if n < |s| {
      assert s[..|s| - 1][..n] == s[..n];
      SumGrows(s[..|s| - 1], n);
    } else {
      assert s[..n] == s;
    }
  }

  /** The prefix sum up to `n + 1` adds element `n` to the one up to `n`. */
  lemma PrefixSumStep(s: seq<int>, n: nat)
    requires n < |s|
    ensures Sum(s[..n + 1]) == Sum(s[..n]) + s[n]
    ensures n == 0 ==> Sum(s[..n]) == 0
  {
    assert s[..n + 1][..n] == s[..n];
  }
}
