/** Totals of a weight over a sequence of processes, the counting tool of the protocol proofs. */
module Tally {

  /** 1 for a process that is counted. */
  function Bit(b: bool): int { if b then 1 else 0 }

  /** The sum of weight(x) over the elements of s. */
  function Total<T>(weight: T -> int, s: seq<T>): int {
    if s == [] then 0 else weight(s[0]) + Total(weight, s[1..])
  }

  /** One process moves: the total changes by the difference of its two weights. */
  lemma {:induction false} TotalUpdate<T>(weight: T -> int, s: seq<T>, i: nat, x: T)
    requires i < |s|
    ensures Total(weight, s[i := x]) == Total(weight, s) - weight(s[i]) + weight(x)
  {
    if i == 0 {
      assert s[i := x][1..] == s[1..];
    } else {
      assert s[i := x][1..] == s[1..][i - 1 := x];
      TotalUpdate(weight, s[1..], i - 1, x);
    }
  }

  /** One more process: its weight is added. */
  lemma {:induction false} TotalAppend<T>(weight: T -> int, s: seq<T>, x: T)
    ensures Total(weight, s + [x]) == Total(weight, s) + weight(x)
  {
    if s == [] {
      assert s + [x] == [x];
    } else {
      assert (s + [x])[1..] == s[1..] + [x];
      TotalAppend(weight, s[1..], x);
    }
  }

  /** A weight never above `high` per process totals at most high * |s|, and exactly that only if all reach it. */
  lemma {:induction false} TotalAtMost<T>(weight: T -> int, s: seq<T>, high: int)
    requires forall k :: 0 <= k < |s| ==> weight(s[k]) <= high
    ensures Total(weight, s) <= high * |s|
    ensures (forall k :: 0 <= k < |s| ==> weight(s[k]) == high) <==> Total(weight, s) == high * |s|
  {
    if s != [] {
      assert forall k :: 0 <= k < |s[1..]| ==> s[1..][k] == s[k + 1];
      TotalAtMost(weight, s[1..], high);
      assert high * |s| == high + high * |s[1..]|;
      if Total(weight, s) == high * |s| {
        forall k | 0 <= k < |s| ensures weight(s[k]) == high {
          if k > 0 { assert s[k] == s[1..][k - 1]; }
        }
      }
    }
  }

  /** A weight that is never below `low` per process totals at least low * |s|. */
  lemma {:induction false} TotalAtLeast<T>(weight: T -> int, s: seq<T>, low: int)
    requires forall k :: 0 <= k < |s| ==> low <= weight(s[k])
    ensures low * |s| <= Total(weight, s)
  {
    if s != [] {
      assert forall k :: 0 <= k < |s[1..]| ==> s[1..][k] == s[k + 1];
      TotalAtLeast(weight, s[1..], low);
      assert low * |s| == low + low * |s[1..]|;
    }
  }

  /** With non-negative weights the total is at least any one, and at least any two distinct, of them. */
  lemma {:induction false} TotalCovers<T>(weight: T -> int, s: seq<T>, i: nat, j: nat)
    requires i < |s| && j < |s|
    requires forall k :: 0 <= k < |s| ==> 0 <= weight(s[k])
    ensures weight(s[i]) + (if i == j then 0 else weight(s[j])) <= Total(weight, s)
  {
    assert forall k :: 0 <= k < |s[1..]| ==> s[1..][k] == s[k + 1];
    if i > 0 && j > 0 {
      TotalCovers(weight, s[1..], i - 1, j - 1);
    } else if i > 0 {
      TotalCovers(weight, s[1..], i - 1, i - 1);
    } else if j > 0 {
      TotalCovers(weight, s[1..], j - 1, j - 1);
    } else {
      TotalAtLeast(weight, s[1..], 0);
    }
  }

  /** If every process weighs as much under `f` as under `g`, so do the totals. */
  lemma {:induction false} TotalMonotone<T>(f: T -> int, g: T -> int, s: seq<T>)
    requires forall k :: 0 <= k < |s| ==> f(s[k]) <= g(s[k])
    ensures Total(f, s) <= Total(g, s)
  {
    if s != [] {
      assert forall k :: 0 <= k < |s[1..]| ==> s[1..][k] == s[k + 1];
      TotalMonotone(f, g, s[1..]);
    }
  }

  /** A positive total needs a process with a positive weight. */
  lemma {:induction false} TotalWitness<T>(weight: T -> int, s: seq<T>) returns (k: nat)
    requires Total(weight, s) > 0
    ensures k < |s| && weight(s[k]) > 0
  {
    if weight(s[0]) > 0 {
      k := 0;
    } else {
      var j := TotalWitness(weight, s[1..]);
      k := j + 1;
    }
  }
}
