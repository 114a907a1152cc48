/** The arithmetic of smooth weighted round robin: every backend gains its weight, the
    largest value is picked (the earliest on a tie) and pays the total weight back.
    `Current(w, k)` is the vector of current weights after `k` picks that start at zero. */
module SmoothWrr {

  function Sum(s: seq<int>): int {
    if s == [] then 0 else Sum(s[..|s| - 1]) + s[|s| - 1]
  }

  function Plus(a: seq<int>, b: seq<int>): (r: seq<int>)
    requires |a| == |b|
    ensures |r| == |a|
  {
    seq(|a|, i requires 0 <= i < |a| => a[i] + b[i])
  }

  function Zeros(n: nat): (r: seq<int>)
    ensures |r| == n
  {
    seq(n, _ => 0)
  }

  /** Index of the largest element, the earliest one on a tie. */
  function ArgMax(s: seq<int>): (b: nat)
    requires s != []
    ensures b < |s|
    ensures forall i :: 0 <= i < |s| ==> s[i] <= s[b]
    ensures forall i :: 0 <= i < b ==> s[i] < s[b]
  {
    if |s| == 1 then 0 else
    var b := ArgMax(s[..|s| - 1]);
    if s[|s| - 1] > s[b] then |s| - 1 else b
  }

  ghost predicate Weights(w: seq<int>) {
    w != [] && forall i :: 0 <= i < |w| ==> w[i] > 0
  }

  function Step(cur: seq<int>, w: seq<int>): (r: seq<int>)
    requires |cur| == |w| > 0
    ensures |r| == |cur|
  {
    var gained := Plus(cur, w);
    var b := ArgMax(gained);
    gained[b := gained[b] - Sum(w)]
  }

  function Current(w: seq<int>, k: nat): (r: seq<int>)
    requires w != []
    ensures |r| == |w|
  {
    if k == 0 then Zeros(|w|) else Step(Current(w, k - 1), w)
  }

  /** The backend chosen by pick number `k`, counting from 0. */
  function Chosen(w: seq<int>, k: nat): (b: nat)
    requires w != []
    ensures b < |w|
  {
    ArgMax(Plus(Current(w, k), w))
  }

  /** How many of the picks `lo..hi` choose backend `i`. */
  function Picks(w: seq<int>, i: nat, lo: nat, hi: nat): nat
    requires w != [] && lo <= hi
    decreases hi - lo
  {
    if lo == hi then 0
    else Picks(w, i, lo, hi - 1) + if Chosen(w, hi - 1) == i then 1 else 0
  }

  lemma {:induction false} SumUpdate(s: seq<int>, i: nat, v: int)
    requires i < |s|
    ensures Sum(s[i := v]) == Sum(s) - s[i] + v
  {
    var t := s[i := v];
    if i == |s| - 1 {
      assert t[..|s| - 1] == s[..|s| - 1];
    } else {
      assert t[..|s| - 1] == s[..|s| - 1][i := v];
      SumUpdate(s[..|s| - 1], i, v);
    }
  }

  lemma {:induction false} SumPlus(a: seq<int>, b: seq<int>)
    requires |a| == |b|
    ensures Sum(Plus(a, b)) == Sum(a) + Sum(b)
  {
    if a != [] {
      assert Plus(a, b)[..|a| - 1] == Plus(a[..|a| - 1], b[..|b| - 1]);
      SumPlus(a[..|a| - 1], b[..|b| - 1]);
    }
  }

  lemma {:induction false} SumZeros(n: nat)
    ensures Sum(Zeros(n)) == 0
  {
    if n > 0 {
      assert Zeros(n)[..n - 1] == Zeros(n - 1);
      SumZeros(n - 1);
    }
  }

  /** A vector is bounded below by any bound on its elements, times its length. */
  lemma {:induction false} SumAtLeast(s: seq<int>, c: int)
    requires forall i :: 0 <= i < |s| ==> c <= s[i]
    ensures c * |s| <= Sum(s)
  {
    if s != [] {
      SumAtLeast(s[..|s| - 1], c);
      assert c * |s| == c * (|s| - 1) + c;
    }
  }

  lemma {:induction false} SumAtMost(s: seq<int>, c: int)
    requires forall i :: 0 <= i < |s| ==> s[i] <= c
    ensures Sum(s) <= c * |s|
  {
    if s != [] {
      SumAtMost(s[..|s| - 1], c);
      assert c * |s| == c * (|s| - 1) + c;
    }
  }

  /** If every element is at least `c`, one element cannot exceed what the others leave. */
  lemma {:induction false} ElementAtMost(s: seq<int>, c: int, i: nat)
    requires i < |s|
    requires forall j :: 0 <= j < |s| ==> c <= s[j]
    ensures s[i] <= Sum(s) - c * (|s| - 1)
  {
    var t := s[i := c];
    SumUpdate(s, i, c);
    SumAtLeast(t, c);
    assert c * |s| == c * (|s| - 1) + c;
  }

  lemma SumPositive(w: seq<int>)
    requires Weights(w)
    ensures Sum(w) >= |w| > 0
  {
    SumAtLeast(w, 1);
  }

  /** The largest element is at least the average; so it is positive when the sum is. */
  lemma MaxPositive(s: seq<int>)
    requires s != [] && Sum(s) > 0
    ensures s[ArgMax(s)] > 0
  {
    SumAtMost(s, s[ArgMax(s)]);
    SignOfProduct(|s|, s[ArgMax(s)]);
  }

  lemma SignOfProduct(n: int, d: int)
    requires n > 0
    ensures n * d > 0 ==> d > 0
    ensures n * d > -n ==> d >= 0
    ensures n * d == 0 ==> d == 0
  {
    if d > 0 {
      assert n * d >= n;
    } else if d < 0 {
      assert n * d <= -n;
    }
  }

  lemma StepBounds(cur: seq<int>, w: seq<int>)
    requires Weights(w) && |cur| == |w| && Sum(cur) == 0
    requires forall i :: 0 <= i < |w| ==> cur[i] > -Sum(w)
    ensures Sum(Step(cur, w)) == 0
    ensures forall i :: 0 <= i < |w| ==> Step(cur, w)[i] > -Sum(w)
  {
    hide Sum, ArgMax;
    var gained := Plus(cur, w);
    SumPositive(w);
    SumPlus(cur, w);
    MaxPositive(gained);
    SumUpdate(gained, ArgMax(gained), gained[ArgMax(gained)] - Sum(w));
    assert forall i :: 0 <= i < |w| ==> gained[i] == cur[i] + w[i];
  }

  /** The current weights always sum to zero and each stays strictly above minus the total. */
  lemma {:induction false} CurrentBounds(w: seq<int>, k: nat)
    requires Weights(w)
    ensures Sum(Current(w, k)) == 0
    ensures forall i :: 0 <= i < |w| ==> Current(w, k)[i] > -Sum(w)
  {
    if k == 0 {
      SumPositive(w);
      SumZeros(|w|);
    } else {
      CurrentBounds(w, k - 1);
      StepBounds(Current(w, k - 1), w);
    }
  }

  lemma StepAt(w: seq<int>, i: nat, k: nat)
    requires i < |w| && k > 0
    ensures Current(w, k)[i] == Current(w, k - 1)[i] + w[i] - (if Chosen(w, k - 1) == i then Sum(w) else 0)
  {
    hide Sum, ArgMax;
  }

  lemma OneMore(x: int, n: nat)
    ensures (n + 1) * x == n * x + x && x * (n + 1) == x * n + x
  {
  }

  /** After `k` picks a backend has gained its weight `k` times and paid once per pick of it. */
  lemma {:induction false} ClosedForm(w: seq<int>, i: nat, k: nat)
    requires i < |w|
    ensures Current(w, k)[i] == k * w[i] - Sum(w) * Picks(w, i, 0, k)
  {
    hide Sum, Chosen, ArgMax;
    if k > 0 {
      ClosedForm(w, i, k - 1);
      StepAt(w, i, k);
      hide Current;
      var total, was := Sum(w), Picks(w, i, 0, k - 1);
      assert Picks(w, i, 0, k) == if Chosen(w, k - 1) == i then was + 1 else was;
      hide Picks;
      OneMore(w[i], k - 1);
      OneMore(total, was);
    }
  }

  lemma NonNegativeZeroSum(s: seq<int>)
    requires Sum(s) == 0
    requires forall i :: 0 <= i < |s| ==> 0 <= s[i]
    ensures s == Zeros(|s|)
  {
    forall i | 0 <= i < |s| ensures s[i] == 0 {
      ElementAtMost(s, 0, i);
    }
  }

  /** After `W` picks a current weight is a multiple of `W` above `-W`. */
  lemma WindowEndNonNegative(w: seq<int>, i: nat)
    requires Weights(w) && i < |w| && Sum(w) > 0
    ensures Current(w, Sum(w))[i] >= 0
  {
    var total := Sum(w);
    CurrentBounds(w, total);
    ClosedForm(w, i, total);
    var d := w[i] - Picks(w, i, 0, total);
    MultipleAbove(total, w[i], Picks(w, i, 0, total));
  }

  lemma MultipleAbove(total: int, x: int, c: int)
    requires total > 0
    ensures total * x - total * c > -total ==> total * x - total * c >= 0
    ensures total * x == total * c ==> x == c
  {
    SignOfProduct(total, x - c);
    assert total * x - total * c == total * (x - c);
    if x >= c {
      assert total * (x - c) >= 0;
    }
  }

  /** One full window brings every current weight back to zero. */
  lemma WindowReturnsToZero(w: seq<int>)
    requires Weights(w)
    ensures Sum(w) > 0
    ensures Current(w, Sum(w)) == Zeros(|w|)
  {
    SumPositive(w);
    var last := Current(w, Sum(w));
    assert Sum(last) == 0 by { CurrentBounds(w, Sum(w)); }
    forall i | 0 <= i < |w| ensures last[i] >= 0 {
      WindowEndNonNegative(w, i);
    }
    NonNegativeZeroSum(last);
  }

  /** The scheduler is periodic: the state after `k + W` picks is the state after `k`. */
  lemma {:induction false} Periodic(w: seq<int>, k: nat)
    requires Weights(w)
    ensures Sum(w) > 0
    ensures Current(w, k + Sum(w)) == Current(w, k)
  {
    WindowReturnsToZero(w);
    if k > 0 {
      Periodic(w, k - 1);
    }
  }

  lemma {:induction false} PicksSplit(w: seq<int>, i: nat, lo: nat, mid: nat, hi: nat)
    requires w != [] && lo <= mid <= hi
    ensures Picks(w, i, lo, hi) == Picks(w, i, lo, mid) + Picks(w, i, mid, hi)
    decreases hi - mid
  {
    if mid < hi {
      PicksSplit(w, i, lo, mid, hi - 1);
    }
  }

  /** A window over which the state repeats chooses each backend as often as its weight says. */
  lemma RepeatingWindow(w: seq<int>, total: nat, k: nat, i: nat)
    requires i < |w| && total == Sum(w) > 0
    requires Current(w, k + total)[i] == Current(w, k)[i]
    ensures Picks(w, i, k, k + total) == w[i]
  {
    var before, inside := Picks(w, i, 0, k), Picks(w, i, k, k + total);
    assert Picks(w, i, 0, k + total) == before + inside by { PicksSplit(w, i, 0, k, k + total); }
    assert Current(w, k)[i] == k * w[i] - total * before by { ClosedForm(w, i, k); }
    assert Current(w, k + total)[i] == (k + total) * w[i] - total * (before + inside) by {
      ClosedForm(w, i, k + total);
    }
    WindowAlgebra(total, w[i], k, before, inside);
  }

  /** Exact fairness: every window of `W` consecutive picks chooses backend `i` exactly
      `w[i]` times, wherever the window starts. */
  lemma Fairness(w: seq<int>, k: nat, i: nat)
    requires Weights(w) && i < |w|
    ensures Sum(w) > 0
    ensures Picks(w, i, k, k + Sum(w)) == w[i]
  {
    Periodic(w, k);
    RepeatingWindow(w, Sum(w), k, i);
  }

  lemma WindowAlgebra(total: int, x: int, k: int, before: int, inside: int)
    requires total > 0
    requires (k + total) * x - total * (before + inside) == k * x - total * before
    ensures x == inside
  {
    assert (k + total) * x == k * x + total * x;
    assert total * (before + inside) == total * before + total * inside;
    MultipleAbove(total, x, inside);
  }

  lemma {:induction false} SomePick(w: seq<int>, i: nat, lo: nat, hi: nat) returns (j: nat)
    requires w != [] && lo <= hi && Picks(w, i, lo, hi) > 0
    ensures lo <= j < hi && Chosen(w, j) == i
    decreases hi - lo
  {
    if Chosen(w, hi - 1) == i {
      j := hi - 1;
    } else {
      j := SomePick(w, i, lo, hi - 1);
    }
  }

  /** No backend is starved: each is chosen at some pick `j` of any `W` consecutive ones. */
  lemma NoStarvation(w: seq<int>, k: nat, i: nat) returns (j: nat)
    requires Weights(w) && i < |w|
    ensures k <= j < k + Sum(w) && Chosen(w, j) == i
  {
    Fairness(w, k, i);
    j := SomePick(w, i, k, k + Sum(w));
  }
}
