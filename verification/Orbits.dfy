/** Repeated application of one step function: on a finite set a one-to-one step
    always comes back to where it started. */
module Orbits {
  function Iterate<T>(step: T -> T, n: nat, x: T): T {
    if n == 0 then x else step(Iterate(step, n - 1, x))
  }

  ghost predicate OneToOne<T(!new)>(step: T -> T) {
    forall x, y :: step(x) == step(y) ==> x == y
  }

  /** Every value has its own number below n. */
  ghost predicate Numbers<T(!new)>(code: T -> int, n: nat) {
    && (forall x :: 0 <= code(x) < n)
    && (forall x, y :: code(x) == code(y) ==> x == y)
  }

  lemma {:induction false} RangeSize(n: nat, s: set<int>)
    requires forall x :: x in s ==> 0 <= x < n
    ensures |s| <= n
  {
    if n > 0 {
      RangeSize(n - 1, s - {n - 1});
    } else {
      assert forall x :: x !in s;
    }
  }

  lemma {:induction false} DistinctSize(s: seq<int>)
    requires forall i, j :: 0 <= i < j < |s| ==> s[i] != s[j]
    ensures |set x | x in s| == |s|
  {
    if s == [] {
      assert (set x | x in s) == {};
    } else {
      var front, last := s[..|s| - 1], s[|s| - 1];
      DistinctSize(front);
      assert s == front + [last];
      assert (set x | x in s) == (set x | x in front) + {last};
      assert last !in front;
    }
  }

  lemma {:induction false} Pigeonhole(s: seq<int>, n: nat)
    requires |s| > n && forall i :: 0 <= i < |s| ==> 0 <= s[i] < n
    ensures exists i, j :: 0 <= i < j < |s| && s[i] == s[j]
  {
    if forall i, j :: 0 <= i < j < |s| ==> s[i] != s[j] {
      DistinctSize(s);
      RangeSize(n, set x | x in s);
    }
  }

  lemma {:induction false} Cancel<T(!new)>(step: T -> T, i: nat, d: nat, x: T)
    requires OneToOne(step) && Iterate(step, i, x) == Iterate(step, i + d, x)
    ensures Iterate(step, d, x) == x
  {
    if i == 0 {
    } else {
      Cancel(step, i - 1, d, x);
    }
  }

  /** Purely periodic: no start-up phase, and the period is at most the number of values. */
  lemma {:induction false} ReturnsToStart<T(!new)>(step: T -> T, code: T -> int, n: nat, x: T) returns (period: nat)
    requires OneToOne(step) && Numbers(code, n)
    ensures 0 < period <= n && Iterate(step, period, x) == x
  {
    var visited := seq(n + 1, (i: nat) => code(Iterate(step, i, x)));
    forall i | 0 <= i < |visited| ensures 0 <= visited[i] < n { assert visited[i] == code(Iterate(step, i, x)); }
    Pigeonhole(visited, n);
    var i, j :| 0 <= i < j < |visited| && visited[i] == visited[j];
    Cancel(step, i, j - i, x);
    period := j - i;
  }

  /** A one-to-one step that fixes a value never reaches it from any other. */
  lemma {:induction false} NeverReaches<T(!new)>(step: T -> T, fixed: T, n: nat, x: T)
    requires OneToOne(step) && step(fixed) == fixed && x != fixed
    ensures Iterate(step, n, x) != fixed
  {
    if n == 0 {
    } else {
      NeverReaches(step, fixed, n - 1, x);
    }
  }
}
