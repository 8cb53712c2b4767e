/**
 * Running sums along one axis, the operation numpy's cumsum performs on each
 * row when it is called with axis=1.
 */
module Cumulative {

  /** The sum of all entries of s; the empty sum is 0. */
  function Sum(s: seq<real>): real
  {
    if |s| == 0 then 0.0 else Sum(s[..|s| - 1]) + s[|s| - 1]
  }

  /** Running sums: entry j is s[0] + ... + s[j]. */
  function CumSum(s: seq<real>): (r: seq<real>)
    ensures |r| == |s|
  {
    if |s| == 0 then [] else CumSum(s[..|s| - 1]) + [Sum(s)]
  }

  /** Differences of consecutive entries: entry j is r[j + 1] - r[j]. */
  function Differences(r: seq<real>): (d: seq<real>)
    requires |r| >= 1
    ensures |d| == |r| - 1
  {
    seq(|r| - 1, j requires 0 <= j < |r| - 1 => r[j + 1] - r[j])
  }

  lemma SumAppend(s: seq<real>, x: real)
    ensures Sum(s + [x]) == Sum(s) + x
  {
    assert (s + [x])[..|s|] == s;
  }

  lemma CumSumAppend(s: seq<real>, x: real)
    ensures CumSum(s + [x]) == CumSum(s) + [Sum(s) + x]
  {
    assert (s + [x])[..|s|] == s;
    SumAppend(s, x);
  }

  /** Entry j of the running sums is the sum of the first j + 1 entries. */
  lemma {:induction false} CumSumAt(s: seq<real>, j: nat)
    requires j < |s|
    ensures CumSum(s)[j] == Sum(s[..j + 1])
  {
    if j < |s| - 1 {
      var front := s[..|s| - 1];
      CumSumAt(front, j);
      assert front[..j + 1] == s[..j + 1];
    } else {
      assert s[..j + 1] == s;
    }
  }

  /**
   * The running sums start with the first entry and grow by one entry at a
   * time.
   */
  lemma {:induction false} CumSumRecurrence(s: seq<real>)
    ensures |s| >= 1 ==> CumSum(s)[0] == s[0]
    ensures forall j :: 0 <= j < |s| - 1 ==> CumSum(s)[j + 1] == CumSum(s)[j] + s[j + 1]
  {
    if |s| >= 1 {
      CumSumAt(s, 0);
      assert s[..1] == [] + [s[0]];
      SumAppend([], s[0]);
    }
    forall j | 0 <= j < |s| - 1
      ensures CumSum(s)[j + 1] == CumSum(s)[j] + s[j + 1]
    {
      CumSumAt(s, j);
      CumSumAt(s, j + 1);
      assert s[..j + 2] == s[..j + 1] + [s[j + 1]];
      SumAppend(s[..j + 1], s[j + 1]);
    }
  }

  /** Differencing the running sums gives back every entry after the first. */
  lemma {:induction false} DifferencesOfCumSum(s: seq<real>)
    requires |s| >= 1
    ensures Differences(CumSum(s)) == s[1..]
  {
    CumSumRecurrence(s);
    var c := CumSum(s);
    var d := Differences(c);
    forall j | 0 <= j < |s| - 1
      ensures d[j] == s[1..][j]
    {
      assert d[j] == c[j + 1] - c[j];
    }
  }

  /**
   * The other direction: the running sums of the first entry followed by the
   * differences rebuild the sequence.
   */
  lemma {:induction false} CumSumOfDifferences(r: seq<real>)
    requires |r| >= 1
    ensures CumSum([r[0]] + Differences(r)) == r
  {
    var s := [r[0]] + Differences(r);
    CumSumRecurrence(s);
    var c := CumSum(s);
    forall j | 0 <= j < |r|
      ensures c[j] == r[j]
    {
      CumSumPrefixValue(s, c, r, j);
    }
  }

  lemma {:induction false} CumSumPrefixValue(s: seq<real>, c: seq<real>, r: seq<real>, j: nat)
    requires |r| >= 1 && s == [r[0]] + Differences(r) && c == CumSum(s)
    requires c[0] == s[0]
    requires forall i :: 0 <= i < |s| - 1 ==> c[i + 1] == c[i] + s[i + 1]
    requires j < |r|
    ensures c[j] == r[j]
  {
    if j > 0 {
      CumSumPrefixValue(s, c, r, j - 1);
    }
  }
}
