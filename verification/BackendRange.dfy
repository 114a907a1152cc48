/** How far current weights can go on runs in which back ends are down, come back and fail in
    any way. What any set of `k` of the `n` back ends has together never exceeds `k (n - k) M`,
    where `M` is the largest effective weight one of them can have; that alone is kept by every
    pick, and it bounds each of them. */
module BackendRange {
  import opened Backend
  import opened BackendRuns
  import Wrr = SmoothWrr

  // ---------- part of a vector ----------

  /** The sum over the places that `t` marks, and their number. */
  function Part(c: seq<int>, t: seq<bool>): int
    requires |c| == |t|
  {
    if c == [] then 0 else
    var n := |c| - 1;
    Part(c[..n], t[..n]) + if t[n] then c[n] else 0
  }

  function Count(t: seq<bool>): (k: nat)
    ensures k <= |t|
  {
    if t == [] then 0 else Count(t[..|t| - 1]) + if t[|t| - 1] then 1 else 0
  }

  function Both(t: seq<bool>, u: seq<bool>): (r: seq<bool>)
    requires |t| == |u|
    ensures |r| == |t|
  {
    seq(|t|, i requires 0 <= i < |t| => t[i] && u[i])
  }

  function Minus(t: seq<bool>, u: seq<bool>): (r: seq<bool>)
    requires |t| == |u|
    ensures |r| == |t|
  {
    seq(|t|, i requires 0 <= i < |t| => t[i] && !u[i])
  }

  function Masked(c: seq<int>, t: seq<bool>): (r: seq<int>)
    requires |c| == |t|
    ensures |r| == |c|
  {
    seq(|c|, i requires 0 <= i < |c| => if t[i] then c[i] else 0)
  }

  lemma {:induction false} PartSplit(c: seq<int>, t: seq<bool>, u: seq<bool>)
    requires |c| == |t| == |u|
    ensures Part(c, t) == Part(c, Both(t, u)) + Part(c, Minus(t, u))
    ensures Count(t) == Count(Both(t, u)) + Count(Minus(t, u))
  {
    if c != [] {
      var n := |c| - 1;
      PartSplit(c[..n], t[..n], u[..n]);
      assert Both(t, u)[..n] == Both(t[..n], u[..n]) && Minus(t, u)[..n] == Minus(t[..n], u[..n]);
    }
  }

  lemma {:induction false} PartAdd(c: seq<int>, t: seq<bool>, b: nat)
    requires b < |c| == |t| && !t[b]
    ensures Part(c, t[b := true]) == Part(c, t) + c[b] && Count(t[b := true]) == Count(t) + 1
  {
    var n := |c| - 1;
    if b == n {
      assert t[b := true][..n] == t[..n];
    } else {
      assert t[b := true][..n] == t[..n][b := true];
      PartAdd(c[..n], t[..n], b);
    }
  }

  lemma {:induction false} PartUpdate(c: seq<int>, t: seq<bool>, b: nat, v: int)
    requires b < |c| == |t|
    ensures Part(c[b := v], t) == Part(c, t) + if t[b] then v - c[b] else 0
  {
    var n := |c| - 1;
    if b == n {
      assert c[b := v][..n] == c[..n];
    } else {
      assert c[b := v][..n] == c[..n][b := v];
      PartUpdate(c[..n], t[..n], b, v);
    }
  }

  lemma {:induction false} PartPlus(c: seq<int>, d: seq<int>, t: seq<bool>)
    requires |c| == |d| == |t|
    ensures Part(Wrr.Plus(c, d), t) == Part(c, t) + Part(d, t)
  {
    if c != [] {
      var n := |c| - 1;
      PartPlus(c[..n], d[..n], t[..n]);
      assert Wrr.Plus(c, d)[..n] == Wrr.Plus(c[..n], d[..n]);
    }
  }

  lemma {:induction false} PartMasked(c: seq<int>, t: seq<bool>, u: seq<bool>)
    requires |c| == |t| == |u|
    ensures Part(Masked(c, u), t) == Part(c, Both(t, u))
  {
    if c != [] {
      var n := |c| - 1;
      PartMasked(c[..n], t[..n], u[..n]);
      assert Masked(c, u)[..n] == Masked(c[..n], u[..n]) && Both(t, u)[..n] == Both(t[..n], u[..n]);
    }
  }

  lemma {:induction false} PartAtMost(c: seq<int>, t: seq<bool>, y: int)
    requires |c| == |t| && forall i :: 0 <= i < |c| && t[i] ==> c[i] <= y
    ensures Part(c, t) <= Count(t) * y
  {
    if c != [] {
      var n := |c| - 1;
      PartAtMost(c[..n], t[..n], y);
      Distribute(Count(t[..n]), y);
    }
  }

  lemma Distribute(k: int, y: int)
    ensures (k + 1) * y == k * y + y
  {
  }

  lemma {:induction false} PartMonotone(c: seq<int>, t: seq<bool>, u: seq<bool>)
    requires |c| == |t| == |u| && forall i :: 0 <= i < |c| ==> c[i] >= 0 && (t[i] ==> u[i])
    ensures Part(c, t) <= Part(c, u)
  {
    if c != [] {
      var n := |c| - 1;
      PartMonotone(c[..n], t[..n], u[..n]);
    }
  }

  // ---------- one pick ----------

  /** No set of back ends has more than its share. */
  ghost predicate Spread(c: seq<int>, m: nat) {
    forall t: seq<bool> :: |t| == |c| ==> Part(c, t) <= Share(|c|, Count(t), m)
  }

  function Share(n: int, k: int, m: nat): int {
    k * (n - k) * m
  }

  /** A pick among the back ends that `up` marks: they gain, and `b` pays what they gained. */
  function Picked(cur: seq<int>, eff: seq<int>, up: seq<bool>, b: nat): (r: seq<int>)
    requires b < |cur| == |eff| == |up|
    ensures |r| == |cur|
  {
    var gained := Wrr.Plus(cur, Masked(eff, up));
    gained[b := gained[b] - Part(eff, up)]
  }

  ghost predicate Largest(cur: seq<int>, eff: seq<int>, up: seq<bool>, b: nat)
    requires |cur| == |eff| == |up|
  {
    b < |up| && up[b] && forall i :: 0 <= i < |cur| && up[i] ==> cur[i] + eff[i] <= cur[b] + eff[b]
  }

  lemma PickedIs(cur: seq<int>, eff: seq<int>, up: seq<bool>, b: nat)
    requires b < |cur| == |eff| == |up|
    ensures var gained := Wrr.Plus(cur, Masked(eff, up));
      Picked(cur, eff, up, b) == gained[b := gained[b] - Part(eff, up)]
  {
  }

  lemma PickedPart(cur: seq<int>, eff: seq<int>, up: seq<bool>, b: nat, t: seq<bool>)
    requires b < |cur| == |eff| == |up| == |t|
    ensures Part(Picked(cur, eff, up, b), t) ==
      Part(cur, t) + Part(eff, Both(t, up)) - (if t[b] then Part(eff, up) else 0)
  {
    hide Part, Masked, Both, Wrr.Plus, Picked;
    var paid, gained := Part(eff, up), Wrr.Plus(cur, Masked(eff, up));
    assert Picked(cur, eff, up, b) == gained[b := gained[b] - paid] by { PickedIs(cur, eff, up, b); }
    PartUpdate(gained, t, b, gained[b] - paid);
    PartPlus(cur, Masked(eff, up), t);
    PartMasked(eff, t, up);
  }

  /** The heart of it: the losers of a set that has not the winner are no larger than the
      winner, so with the shares of the set without them and with the winner they are within
      the share of the set. */
  lemma LosersWithinShare(cur: seq<int>, eff: seq<int>, up: seq<bool>, b: nat, t: seq<bool>, m: nat)
    requires |cur| == |eff| == |up| == |t| && Spread(cur, m) && Largest(cur, eff, up, b)
    requires forall i :: 0 <= i < |eff| ==> 0 <= eff[i] <= m
    requires !t[b]
    ensures Part(cur, t) + Part(eff, Both(t, up)) <= Share(|cur|, Count(t), m)
  {
    hide Part, Count, Share, Both, Minus;
    var n, s, rest := |cur|, Both(t, up), Minus(t, up);
    var k := Count(s);
    PartSplit(cur, t, up);
    PartAdd(cur, t, b);
    assert Part(cur, rest) <= Share(n, Count(rest), m);
    assert Part(cur, t[b := true]) <= Share(n, Count(t[b := true]), m);
    hide Spread;
    LosersAtMost(cur, eff, up, b, t, m);
    ShareOfLosers(n, Count(t), k, m, Part(cur, t), Part(cur, s), Part(eff, s), cur[b], eff[b]);
  }

  lemma LosersAtMost(cur: seq<int>, eff: seq<int>, up: seq<bool>, b: nat, t: seq<bool>, m: nat)
    requires |cur| == |eff| == |up| == |t| && Largest(cur, eff, up, b)
    requires forall i :: 0 <= i < |eff| ==> eff[i] <= m
    ensures var s := Both(t, up);
      Part(cur, s) + Part(eff, s) <= Count(s) * (cur[b] + eff[b]) && Part(eff, s) <= Count(s) * m
  {
    var s := Both(t, up);
    PartPlus(cur, eff, s);
    PartAtMost(Wrr.Plus(cur, eff), s, cur[b] + eff[b]);
    PartAtMost(eff, s, m);
  }

  /** The same in numbers: `whole` is what the set has, `lost` what its `k` losers have of it
      and `gain` what they gain, `top` and `e` the winner's weight and gain. */
  lemma ShareOfLosers(n: int, t: int, k: nat, m: nat, whole: int, lost: int, gain: int, top: int, e: int)
    requires whole - lost <= Share(n, t - k, m) && whole + top <= Share(n, t + 1, m)
    requires lost + gain <= k * (top + e) && gain <= k * m && e <= m
    ensures whole + gain <= Share(n, t, m)
  {
    var v := whole + gain;
    Times(k, whole + top, Share(n, t + 1, m));
    Times(k, gain, k * m);
    Times(k, e, m);
    assert k * (top + e) == k * top + k * e;
    assert k * (whole + top) == k * whole + k * top;
    assert k * v == k * whole + k * gain;
    assert v + k * v <= Share(n, t - k, m) + k * Share(n, t + 1, m) + k * m + k * (k * m);
    ShareIdentity(n, t, k, m);
    assert (k + 1) * v == v + k * v;
    Cancel(k, v, Share(n, t, m));
  }

  lemma Times(k: nat, a: int, b: int)
    requires a <= b
    ensures k * a <= k * b
  {
  }

  lemma Cancel(k: nat, a: int, b: int)
    requires (k + 1) * a <= (k + 1) * b
    ensures a <= b
  {
  }

  lemma ShareIdentity(n: int, t: int, k: int, m: nat)
    ensures Share(n, t - k, m) + k * Share(n, t + 1, m) + k * m + k * (k * m) == (k + 1) * Share(n, t, m)
  {
    var a, c, z := (t - k) * (n - t + k), (t + 1) * (n - t - 1), t * (n - t);
    CountIdentity(n, t, k);
    Gather(a, c, k, m);
    Regroup(k + 1, z, m);
  }

  lemma Gather(a: int, c: int, k: int, m: int)
    ensures a * m + k * (c * m) + k * m + k * (k * m) == (a + k * c + k + k * k) * m
  {
    Regroup(k, c, m);
    Regroup(k, k, m);
    var p, q := k * c, k * k;
    assert (a + p + k + q) * m == a * m + p * m + k * m + q * m;
  }

  lemma Regroup(a: int, b: int, c: int)
    ensures a * (b * c) == (a * b) * c
  {
  }

  lemma CountIdentity(n: int, t: int, k: int)
    ensures (t - k) * (n - t + k) + k * ((t + 1) * (n - t - 1)) + k + k * k == (k + 1) * (t * (n - t))
  {
    var r := n - t;
    Cross(t, -k, r, k);
    Cross(t, 1, r, -1);
    var p := t * r;
    assert (-k) * r == -(k * r) && (-k) * k == -(k * k) && t * k == k * t;
    Spread4(k, p, t, r);
    assert (k + 1) * p == k * p + p;
  }

  lemma Cross(a: int, b: int, c: int, d: int)
    ensures (a + b) * (c + d) == a * c + a * d + b * c + b * d
  {
  }

  lemma Spread4(k: int, p: int, t: int, r: int)
    ensures k * (p - t + r - 1) == k * p - k * t + k * r - k
  {
  }

  lemma PickedSpread(cur: seq<int>, eff: seq<int>, up: seq<bool>, b: nat, m: nat)
    requires |cur| == |eff| == |up| && Spread(cur, m) && Largest(cur, eff, up, b)
    requires forall i :: 0 <= i < |eff| ==> 0 <= eff[i] <= m
    ensures Spread(Picked(cur, eff, up, b), m)
  {
    var r := Picked(cur, eff, up, b);
    forall t: seq<bool> | |t| == |r| ensures Part(r, t) <= Share(|r|, Count(t), m) {
      PickedPart(cur, eff, up, b, t);
      if t[b] {
        PartMonotone(eff, Both(t, up), up);
      } else {
        LosersWithinShare(cur, eff, up, b, t, m);
      }
    }
  }

  // ---------- runs ----------

  /** Which back ends answer available when asked at these times. */
  function UpMask(s: seq<State>, times: seq<int>): (up: seq<bool>)
    requires |s| == |times|
    ensures |up| == |s|
  {
    seq(|s|, i requires 0 <= i < |s| => Up(s[i], times[i]))
  }

  lemma {:induction false} UpTotalIsPart(s: seq<State>, times: seq<int>)
    requires |s| == |times|
    ensures UpTotal(s, times) == Part(Effectives(s), UpMask(s, times))
  {
    hide Up;
    if s != [] {
      var n := |s| - 1;
      UpTotalIsPart(s[..n], times[..n]);
      assert Effectives(s)[..n] == Effectives(s[..n]);
      assert UpMask(s, times)[..n] == UpMask(s[..n], times[..n]);
    }
  }

  lemma ScanIsPlus(s: seq<State>, times: seq<int>)
    requires |s| == |times|
    ensures Currents(Scan(s, times)) == Wrr.Plus(Currents(s), Masked(Effectives(s), UpMask(s, times)))
  {
    hide Up;
    forall i | 0 <= i < |s|
      ensures Advanced(s[i], times[i]).current ==
        s[i].current + if Up(s[i], times[i]) then s[i].effective else 0
    {
    }
  }

  /** A weighted pick of the code, whatever is down, is such a pick on the vectors. */
  lemma PickIsPicked(s: seq<State>, times: seq<int>)
    requires |s| == |times|
    ensures var b, cur, eff, up := Best(s, times), Currents(s), Effectives(s), UpMask(s, times);
      if b == -1 then Currents(PickWeighted(s, times)) == cur
      else Largest(cur, eff, up, b) && Currents(PickWeighted(s, times)) == Picked(cur, eff, up, b)
  {
    hide *;
    if Best(s, times) == -1 {
      NobodyUp(s, times);
    } else {
      BestWins(s, times);
      BestIsLargest(s, times, Best(s, times));
      WinnerIsPicked(s, times, Best(s, times));
    }
  }

  lemma BestWins(s: seq<State>, times: seq<int>)
    requires |s| == |times| && Best(s, times) != -1
    ensures IsFirstMax(s, times, Best(s, times))
  {
    BestIsFirstMax(s, times);
  }

  lemma WinnerIsPicked(s: seq<State>, times: seq<int>, b: nat)
    requires |s| == |times| && Best(s, times) == b
    ensures Currents(PickWeighted(s, times)) == Picked(Currents(s), Effectives(s), UpMask(s, times), b)
  {
    hide *;
    WinnerPays(s, times, b);
    ScanIsPlus(s, times);
    UpTotalIsPart(s, times);
    PickedIs(Currents(s), Effectives(s), UpMask(s, times), b);
  }

  lemma NobodyUp(s: seq<State>, times: seq<int>)
    requires |s| == |times| && Best(s, times) == -1
    ensures Currents(PickWeighted(s, times)) == Currents(s)
  {
    BestIsFirstMax(s, times);
    hide Up, Best, UpTotal;
    forall i | 0 <= i < |s| ensures Advanced(s[i], times[i]).current == s[i].current {
      assert !Up(s[i], times[i]);
    }
  }

  lemma WinnerPays(s: seq<State>, times: seq<int>, b: nat)
    requires |s| == |times| && Best(s, times) == b
    ensures Currents(PickWeighted(s, times)) ==
      Currents(Scan(s, times))[b := Currents(Scan(s, times))[b] - UpTotal(s, times)]
  {
    hide Up, Advanced, Best, UpTotal, Scan;
  }

  lemma BestIsLargest(s: seq<State>, times: seq<int>, b: nat)
    requires |s| == |times| && IsFirstMax(s, times, b)
    ensures Largest(Currents(s), Effectives(s), UpMask(s, times), b)
  {
    hide Up;
    forall i | 0 <= i < |s| && Up(s[i], times[i])
      ensures Advanced(s[i], times[i]).current == Currents(s)[i] + Effectives(s)[i]
    {
    }
  }

  /** `m` bounds every cap. */
  ghost predicate CapsAtMost(s: seq<State>, m: nat) {
    forall i :: 0 <= i < |s| ==> Cap(s[i]) <= m
  }

  lemma ApplySpread(s0: seq<State>, s: seq<State>, ev: Event, m: nat)
    requires WithinCaps(s0, s) && CapsAtMost(s0, m) && Fits(|s|, ev) && Spread(Currents(s), m)
    ensures Spread(Currents(Apply(s, ev)), m)
  {
    match ev
    case Pick(times) =>
      PickIsPicked(s, times);
      var eff := Effectives(s);
      assert forall i :: 0 <= i < |s| ==> 0 <= eff[i] <= m by {
        assert forall i :: 0 <= i < |s| ==> eff[i] == s[i].effective <= Cap(s0[i]) <= m;
      }
      hide Spread, PickWeighted, Picked, Largest;
      if Best(s, times) >= 0 {
        PickedSpread(Currents(s), eff, UpMask(s, times), Best(s, times), m);
      }
    case Query(i, now) => assert Currents(Apply(s, ev)) == Currents(s);
    case CommFailed(i, now) => assert Currents(Apply(s, ev)) == Currents(s);
  }

  lemma {:induction false} ZeroSpread(c: seq<int>, t: seq<bool>)
    requires |c| == |t| && forall i :: 0 <= i < |c| ==> c[i] == 0
    ensures Part(c, t) == 0
  {
    if c != [] {
      ZeroSpread(c[..|c| - 1], t[..|t| - 1]);
    }
  }

  lemma ShareNotNegative(n: int, k: nat, m: nat)
    requires k <= n
    ensures Share(n, k, m) >= 0
  {
    assert k * (n - k) >= 0;
  }

  lemma StartSpread(s: seq<State>, m: nat)
    requires Configured(s)
    ensures Spread(Currents(s), m)
  {
    var c := Currents(s);
    forall t: seq<bool> | |t| == |c| ensures Part(c, t) <= Share(|c|, Count(t), m) {
      ZeroSpread(c, t);
      ShareNotNegative(|c|, Count(t), m);
    }
  }

  lemma AfterNext(s: seq<State>, evs: seq<Event>, k: nat)
    requires 0 < k <= |evs| && AllFit(|s|, evs)
    ensures Fits(|s|, evs[k - 1]) && After(s, evs, k) == Apply(After(s, evs, k - 1), evs[k - 1])
  {
  }

  lemma AfterNone(s: seq<State>, evs: seq<Event>)
    requires AllFit(|s|, evs)
    ensures After(s, evs, 0) == s
  {
  }

  lemma {:induction false} RunSpread(s: seq<State>, evs: seq<Event>, k: nat, m: nat)
    requires Configured(s) && CapsAtMost(s, m) && k <= |evs| && AllFit(|s|, evs)
    ensures Spread(Currents(After(s, evs, k)), m)
  {
    hide *;
    if k == 0 {
      AfterNone(s, evs);
      StartSpread(s, m);
    } else {
      RunSpread(s, evs, k - 1, m);
      RunWithinCaps(s, evs, k - 1);
      AfterNext(s, evs, k);
      ApplySpread(s, After(s, evs, k - 1), evs[k - 1], m);
    }
  }

  /** Marks place `i` alone, and all but it. */
  function Only(n: nat, i: nat): (t: seq<bool>)
    ensures |t| == n
  {
    seq(n, j => j == i)
  }

  function AllBut(n: nat, i: nat): (t: seq<bool>)
    ensures |t| == n
  {
    seq(n, j => j != i)
  }

  lemma {:induction false} OnlyPart(c: seq<int>, i: nat)
    ensures Part(c, Only(|c|, i)) == (if i < |c| then c[i] else 0)
    ensures Count(Only(|c|, i)) == (if i < |c| then 1 else 0)
    ensures Part(c, AllBut(|c|, i)) == Wrr.Sum(c) - (if i < |c| then c[i] else 0)
    ensures Count(AllBut(|c|, i)) == |c| - (if i < |c| then 1 else 0)
  {
    if c != [] {
      var n := |c| - 1;
      OnlyPart(c[..n], i);
      assert Only(|c|, i)[..n] == Only(n, i) && AllBut(|c|, i)[..n] == AllBut(n, i);
    }
  }

  lemma SpreadBounds(c: seq<int>, m: nat, i: nat)
    requires Spread(c, m) && Wrr.Sum(c) == 0 && i < |c|
    ensures -Share(|c|, 1, m) <= c[i] <= Share(|c|, 1, m)
  {
    var n := |c|;
    OnlyPart(c, i);
    hide Share;
    var one, rest := Part(c, Only(n, i)), Part(c, AllBut(n, i));
    assert one <= Share(n, Count(Only(n, i)), m);
    assert rest <= Share(n, Count(AllBut(n, i)), m);
    assert one == c[i] && rest == -c[i];
    EndShares(n, m);
    hide *;
  }

  lemma EndShares(n: nat, m: nat)
    requires n > 0
    ensures Share(n, n - 1, m) == Share(n, 1, m) == (n - 1) * m
  {
  }

  /** Over any run of picks, failures, downs and recoveries, for any configured weights, each
      current weight stays within `(n - 1) M` of zero, with `M` the largest effective weight
      there can be; so nothing the scan computes leaves int32 once `n M` fits in it. */
  lemma AnyRunRange(s: seq<State>, evs: seq<Event>, k: nat, i: nat, m: nat)
    requires Configured(s) && CapsAtMost(s, m) && k <= |evs| && AllFit(|s|, evs) && i < |s|
    ensures var t := After(s, evs, k)[i];
      && -(|s| - 1) * m <= t.current <= (|s| - 1) * m
      && (|s| * m < TWO_31 ==> -TWO_31 <= t.current + t.effective < TWO_31)
  {
    RunSpread(s, evs, k, m);
    RunWithinCaps(s, evs, k);
    RunKeepsSum(s, evs, k);
    var c, t := Currents(After(s, evs, k)), After(s, evs, k)[i];
    assert Wrr.Sum(Currents(s)) == 0 by {
      assert Currents(s) == Wrr.Zeros(|s|);
      Wrr.SumZeros(|s|);
    }
    SpreadBounds(c, m, i);
    assert c[i] == t.current && 0 <= t.effective <= Cap(s[i]) <= m;
    hide *;
    InRange(|s|, m, t.current, t.effective);
  }

  lemma InRange(n: nat, m: nat, current: int, effective: int)
    requires n > 0 && -Share(n, 1, m) <= current <= Share(n, 1, m) && 0 <= effective <= m
    ensures -(n - 1) * m <= current <= (n - 1) * m
    ensures n * m < TWO_31 ==> -TWO_31 <= current + effective < TWO_31
  {
    EndShares(n, m);
    var w := (n - 1) * m;
    assert -(n - 1) * m == -w && n * m == w + m;
  }

  /** So if `(n - 1) M` is within the total, as it is for equal weights, every current weight
      stays within the total of zero on every run. */
  lemma TotalRange(s: seq<State>, evs: seq<Event>, k: nat, i: nat, m: nat)
    requires Configured(s) && CapsAtMost(s, m) && k <= |evs| && AllFit(|s|, evs) && i < |s|
    requires (|s| - 1) * m <= Wrr.Sum(Caps(s))
    ensures var total, t := Wrr.Sum(Caps(s)), After(s, evs, k)[i];
      -total <= t.current <= total
  {
    AnyRunRange(s, evs, k, i, m);
    assert -(|s| - 1) * m == -((|s| - 1) * m);
  }

  // ---------- below minus the total ----------

  /** A back end as added with fail_timeout 1 and fail_maxnum 1: each failure marks it down, and
      a millisecond later it is back. */
  predicate Brittle(b: State, clock: int) {
    && b.weight == 0 && b.failCheck && b.failTime == 1 && b.failNum == 1
    && b.effective >= 0 && 0 <= b.errNum && (b.fail ==> b.down == clock - 1)
  }

  ghost predicate AllBrittle(s: seq<State>, clock: int) {
    forall i :: 0 <= i < |s| ==> Brittle(s[i], clock)
  }

  /** Those not marked in `up` fail at `clock`, one after the other. */
  function Failing(up: seq<bool>, clock: int): (evs: seq<Event>)
    ensures AllFit(|up|, evs)
  {
    FailingFirst(up, |up|, clock)
  }

  function FailingFirst(up: seq<bool>, n: nat, clock: int): (evs: seq<Event>)
    requires n <= |up|
    ensures AllFit(|up|, evs)
  {
    if n == 0 then [] else
    FailingFirst(up, n - 1, clock) + if up[n - 1] then [] else [CommFailed(n - 1, clock)]
  }

  /** They fail, and then a back end is picked, all within one millisecond. */
  function Round(up: seq<bool>, clock: int): (evs: seq<Event>)
    ensures AllFit(|up|, evs)
  {
    Failing(up, clock) + [Pick(seq(|up|, _ => clock))]
  }

  /** A round every millisecond after `start`. */
  function Rounds(ups: seq<seq<bool>>, n: nat, start: int): (evs: seq<Event>)
    requires forall k :: 0 <= k < |ups| ==> |ups[k]| == n
    ensures AllFit(n, evs)
  {
    if ups == [] then [] else Rounds(ups[..|ups| - 1], n, start) + Round(ups[|ups| - 1], start + |ups|)
  }

  function End(s: seq<State>, evs: seq<Event>): (r: seq<State>)
    requires AllFit(|s|, evs)
    ensures |r| == |s|
  {
    After(s, evs, |evs|)
  }

  lemma {:induction false} AfterPrefix(s: seq<State>, a: seq<Event>, b: seq<Event>, k: nat)
    requires AllFit(|s|, a + b) && k <= |a|
    ensures AllFit(|s|, a) && After(s, a + b, k) == After(s, a, k)
  {
    assert forall j :: 0 <= j < |a| ==> a[j] == (a + b)[j];
    if k > 0 {
      AfterPrefix(s, a, b, k - 1);
    }
  }

  /** One event more. */
  lemma EndSnoc(s: seq<State>, evs: seq<Event>, ev: Event)
    requires AllFit(|s|, evs) && Fits(|s|, ev)
    ensures AllFit(|s|, evs + [ev]) && End(s, evs + [ev]) == Apply(End(s, evs), ev)
  {
    FitsSnoc(|s|, evs, ev);
    AfterPrefix(s, evs, [ev], |evs|);
    hide Apply, AllFit, Fits;
    var all := evs + [ev];
    assert all[|evs|] == ev && |all| == |evs| + 1;
  }

  lemma FitsSnoc(n: nat, evs: seq<Event>, ev: Event)
    requires AllFit(n, evs) && Fits(n, ev)
    ensures AllFit(n, evs + [ev])
  {
    hide Fits;
  }

  lemma {:induction false} EndAppend(s: seq<State>, a: seq<Event>, b: seq<Event>)
    requires AllFit(|s|, a) && AllFit(|s|, b)
    ensures AllFit(|s|, a + b) && End(s, a + b) == End(End(s, a), b)
    decreases |b|
  {
    hide Apply;
    if b == [] {
      assert a + b == a;
    } else {
      var front, last := b[..|b| - 1], b[|b| - 1];
      assert b == front + [last] && a + b == a + front + [last];
      EndAppend(s, a, front);
      EndSnoc(s, a + front, last);
      EndSnoc(End(s, a), front, last);
    }
  }

  lemma BrittleFails(b: State, clock: int)
    requires Brittle(b, clock)
    ensures var c := Failed(b, clock);
      && c.current == b.current && c.effective == b.effective
      && c.fail && c.down == clock && Brittle(c.(fail := false), clock) && !Up(c, clock)
  {
    assert TruncDiv(0, 1) == 0;
    assert Int32(0) == 0;
  }

  lemma BrittleIsUp(b: State, clock: int)
    requires Brittle(b, clock)
    ensures Up(b, clock) && Queried(b, clock).effective == b.effective
  {
    assert Int32(1) == 1;
  }

  /** The state of one back end in a round, once it has failed if it is to fail. */
  predicate Set(b: State, was: State, failed: bool, clock: int) {
    && b.current == was.current && b.effective == was.effective
    && (if failed then b.fail && b.down == clock && Brittle(b.(fail := false), clock) && !Up(b, clock)
        else b == was)
  }

  lemma FailOne(s: seq<State>, t: seq<State>, up: seq<bool>, n: nat, clock: int)
    requires AllBrittle(s, clock) && |up| == |s| == |t| && n < |s| && !up[n]
    requires forall i :: 0 <= i < |s| ==> Set(t[i], s[i], i < n && !up[i], clock)
    ensures var r := Apply(t, CommFailed(n, clock));
      forall i :: 0 <= i < |s| ==> Set(r[i], s[i], i < n + 1 && !up[i], clock)
  {
    assert Set(t[n], s[n], false, clock) && Brittle(s[n], clock);
    BrittleFails(s[n], clock);
    hide Brittle, Failed, Up;
  }

  lemma FailingNext(up: seq<bool>, n: nat, clock: int)
    requires n < |up|
    ensures FailingFirst(up, n + 1, clock) ==
      FailingFirst(up, n, clock) + if up[n] then [] else [CommFailed(n, clock)]
  {
  }

  lemma {:induction false} FailingSets(s: seq<State>, up: seq<bool>, n: nat, clock: int)
    requires AllBrittle(s, clock) && |up| == |s| && n <= |s|
    ensures var t := End(s, FailingFirst(up, n, clock));
      forall i :: 0 <= i < |s| ==> Set(t[i], s[i], i < n && !up[i], clock)
  {
    if n == 0 {
      assert FailingFirst(up, 0, clock) == [];
    } else {
      var evs := FailingFirst(up, n - 1, clock);
      assert Fits(|s|, CommFailed(n - 1, clock));
      hide *;
      FailingSets(s, up, n - 1, clock);
      FailingNext(up, n - 1, clock);
      if up[n - 1] {
        assert evs + [] == evs;
      } else {
        FailOne(s, End(s, evs), up, n - 1, clock);
        EndSnoc(s, evs, CommFailed(n - 1, clock));
      }
    }
  }

  /** The winner of a pick on vectors: the first of the largest. */
  ghost predicate FirstLargest(cur: seq<int>, eff: seq<int>, up: seq<bool>, b: nat)
    requires |cur| == |eff| == |up|
  {
    Largest(cur, eff, up, b) && forall i :: 0 <= i < b && up[i] ==> cur[i] + eff[i] < cur[b] + eff[b]
  }

  lemma BestIsFirstLargest(s: seq<State>, times: seq<int>, b: nat)
    requires |s| == |times| && FirstLargest(Currents(s), Effectives(s), UpMask(s, times), b)
    ensures Best(s, times) == b
  {
    BestIsFirstMax(s, times);
    hide Up, Best;
    forall i | 0 <= i < |s| && Up(s[i], times[i])
      ensures Advanced(s[i], times[i]).current == Currents(s)[i] + Effectives(s)[i]
    {
    }
    assert Up(s[b], times[b]);
  }

  lemma PickKeepsBrittle(s: seq<State>, was: seq<State>, up: seq<bool>, clock: int)
    requires |s| == |was| == |up| && AllBrittle(was, clock)
    requires forall i :: 0 <= i < |s| ==> Set(s[i], was[i], !up[i], clock)
    ensures var t := PickWeighted(s, seq(|s|, _ => clock));
      AllBrittle(t, clock + 1) && Effectives(t) == Effectives(was)
  {
    var times := seq(|s|, _ => clock);
    hide Best, UpTotal;
    forall i | 0 <= i < |s|
      ensures var a := Advanced(s[i], times[i]); Brittle(a, clock + 1) && a.effective == was[i].effective
    {
      AdvancedBrittle(s[i], was[i], !up[i], clock);
    }
    hide Brittle, Advanced, Set;
    var t, scanned := PickWeighted(s, times), Scan(s, times);
    forall i | 0 <= i < |s| ensures Brittle(t[i], clock + 1) && t[i].effective == was[i].effective {
      assert Brittle(scanned[i], clock + 1);
      CurrentIsFree(scanned[i], t[i].current, clock + 1);
    }
  }

  lemma CurrentIsFree(b: State, current: int, clock: int)
    requires Brittle(b, clock)
    ensures Brittle(b.(current := current), clock)
  {
  }

  lemma AdvancedBrittle(b: State, was: State, failed: bool, clock: int)
    requires Brittle(was, clock) && Set(b, was, failed, clock)
    ensures var a := Advanced(b, clock); Brittle(a, clock + 1) && a.effective == was.effective
    ensures Up(b, clock) <==> !failed
  {
    if !failed {
      BrittleIsUp(b, clock);
    }
  }

  /** One round is one pick on the vectors, among just those that did not fail. */
  lemma RoundIsPicked(s: seq<State>, up: seq<bool>, clock: int, b: nat)
    requires AllBrittle(s, clock) && |up| == |s|
    requires FirstLargest(Currents(s), Effectives(s), up, b)
    ensures var t := End(s, Round(up, clock));
      && AllBrittle(t, clock + 1) && Effectives(t) == Effectives(s)
      && Currents(t) == Picked(Currents(s), Effectives(s), up, b)
  {
    var f, times := End(s, Failing(up, clock)), seq(|s|, _ => clock);
    FailingSets(s, up, |up|, clock);
    EndSnoc(s, Failing(up, clock), Pick(times));
    assert Failing(up, clock) == FailingFirst(up, |up|, clock);
    forall i | 0 <= i < |s| ensures Up(f[i], clock) <==> up[i] {
      AdvancedBrittle(f[i], s[i], !up[i], clock);
    }
    assert UpMask(f, times) == up && Currents(f) == Currents(s) && Effectives(f) == Effectives(s);
    PickKeepsBrittle(f, s, up, clock);
    hide *;
    BestIsFirstLargest(f, times, b);
    PickIsPicked(f, times);
    RoundIs(s, up, clock);
  }

  lemma RoundIs(s: seq<State>, up: seq<bool>, clock: int)
    requires |up| == |s|
    ensures var times := seq(|s|, _ => clock);
      End(s, Round(up, clock)) == PickWeighted(End(s, Failing(up, clock)), times)
  {
    EndSnoc(s, Failing(up, clock), Pick(seq(|s|, _ => clock)));
  }

  ghost predicate Reaches(s: seq<State>, ups: seq<seq<bool>>, cur: seq<int>, start: int) {
    && (forall k :: 0 <= k < |ups| ==> |ups[k]| == |s|)
    && var t := End(s, Rounds(ups, |s|, start));
       AllBrittle(t, start + |ups| + 1) && Effectives(t) == Effectives(s) && Currents(t) == cur
  }

  lemma OneMoreRound(s: seq<State>, ups: seq<seq<bool>>, cur: seq<int>, up: seq<bool>, b: nat, next: seq<int>,
                     start: int)
    requires Reaches(s, ups, cur, start) && |cur| == |up| == |s| && |ups| < 100
    requires FirstLargest(cur, Effectives(s), up, b) && next == Picked(cur, Effectives(s), up, b)
    ensures Reaches(s, ups + [up], next, start)
  {
    hide AllBrittle, Round, Rounds, End, Picked, FirstLargest;
    var t := End(s, Rounds(ups, |s|, start));
    RoundsNext(ups, up, |s|, start);
    RoundIsPicked(t, up, start + |ups| + 1, b);
    EndAppend(s, Rounds(ups, |s|, start), Round(up, start + |ups| + 1));
  }

  lemma RoundsNext(ups: seq<seq<bool>>, up: seq<bool>, n: nat, start: int)
    requires |up| == n && forall k :: 0 <= k < |ups| ==> |ups[k]| == n
    ensures Rounds(ups + [up], n, start) == Rounds(ups, n, start) + Round(up, start + |ups| + 1)
  {
    assert (ups + [up])[..|ups|] == ups;
  }

  const WEIGHTS: seq<int> := [7, 1, 1, 1, 1, 1, 1]

  function SevenBackends(): (s: seq<State>)
    ensures |s| == 7
  {
    seq(7, i requires 0 <= i < 7 => NewState(ConfUpstream(1, 1), WEIGHTS[i]))
  }

  lemma PartStep(c: seq<int>, t: seq<bool>, k: nat)
    requires 0 < k <= |c| == |t|
    ensures Part(c[..k], t[..k]) == Part(c[..k - 1], t[..k - 1]) + if t[k - 1] then c[k - 1] else 0
  {
    assert c[..k][..k - 1] == c[..k - 1] && t[..k][..k - 1] == t[..k - 1];
  }

  lemma PartOfWeights(up: seq<bool>)
    requires |up| == 7
    ensures Part(WEIGHTS, up) == (if up[0] then 7 else 0) + (if up[1] then 1 else 0) + (if up[2] then 1 else 0)
      + (if up[3] then 1 else 0) + (if up[4] then 1 else 0) + (if up[5] then 1 else 0) + (if up[6] then 1 else 0)
  {
    var three := Part(WEIGHTS[..3], up[..3]);
    assert three == (if up[0] then 7 else 0) + (if up[1] then 1 else 0) + (if up[2] then 1 else 0) by {
      assert Part(WEIGHTS[..0], up[..0]) == 0;
      hide Part;
      PartStep(WEIGHTS, up, 3);
      PartStep(WEIGHTS, up, 2);
      PartStep(WEIGHTS, up, 1);
    }
    assert WEIGHTS[..7] == WEIGHTS && up[..7] == up;
    hide Part;
    PartStep(WEIGHTS, up, 7);
    PartStep(WEIGHTS, up, 6);
    PartStep(WEIGHTS, up, 5);
    PartStep(WEIGHTS, up, 4);
  }

  /** A round among seven back ends with these weights, worked out. */
  predicate RoundOfSeven(cur: seq<int>, up: seq<bool>, b: nat, next: seq<int>) {
    && |cur| == |up| == |next| == 7 && b < 7 && up[b]
    && (forall i :: 0 <= i < 7 && up[i] ==> cur[i] + WEIGHTS[i] <= cur[b] + WEIGHTS[b])
    && (forall i :: 0 <= i < b && up[i] ==> cur[i] + WEIGHTS[i] < cur[b] + WEIGHTS[b])
    && (forall i :: 0 <= i < 7 && i != b ==> next[i] == cur[i] + if up[i] then WEIGHTS[i] else 0)
    && next[b] == cur[b] + WEIGHTS[b] - Part(WEIGHTS, up)
  }

  lemma PickedOfSeven(cur: seq<int>, up: seq<bool>, b: nat, next: seq<int>)
    requires RoundOfSeven(cur, up, b, next)
    ensures FirstLargest(cur, WEIGHTS, up, b) && next == Picked(cur, WEIGHTS, up, b)
  {
    hide Part;
    PickedIs(cur, WEIGHTS, up, b);
  }

  lemma OneMoreOfSeven(ups: seq<seq<bool>>, cur: seq<int>, up: seq<bool>, b: nat, next: seq<int>, start: int)
    requires Reaches(SevenBackends(), ups, cur, start) && |ups| < 100 && RoundOfSeven(cur, up, b, next)
    ensures Reaches(SevenBackends(), ups + [up], next, start)
  {
    assert |cur| == |up| == 7;
    assert Effectives(SevenBackends()) == WEIGHTS;
    hide *;
    PickedOfSeven(cur, up, b, next);
    OneMoreRound(SevenBackends(), ups, cur, up, b, next, start);
  }

  lemma SevenStart(start: int)
    ensures Configured(SevenBackends()) && Reaches(SevenBackends(), [], [0, 0, 0, 0, 0, 0, 0], start)
  {
    var s := SevenBackends();
    assert End(s, Rounds([], 7, start)) == s;
    assert Effectives(s) == WEIGHTS && Currents(s) == [0, 0, 0, 0, 0, 0, 0];
  }

  lemma SevenEnd(ups: seq<seq<bool>>, cur: seq<int>, start: int)
    requires Reaches(SevenBackends(), ups, cur, start) && |cur| == 7
    ensures var s, evs := SevenBackends(), Rounds(ups, 7, start);
      AllFit(|s|, evs) && After(s, evs, |evs|)[0].current == cur[0] && Wrr.Sum(Caps(s)) == 13
  {
    var s := SevenBackends();
    assert Caps(s) == WEIGHTS;
    assert Wrr.Sum(WEIGHTS) == 13 by {
      OnlyPart(WEIGHTS, 7);
      PartOfWeights(AllBut(7, 7));
    }
    assert Currents(End(s, Rounds(ups, 7, start)))[0] == cur[0];
  }

  /** Ten rounds: who is up, who is picked, and the current weights before and after each. */
  const UPS: seq<seq<bool>> := [
    [true, true, true, true, true, true, true],
    [true, true, true, true, true, true, true],
    [true, false, true, true, true, true, true],
    [true, false, true, true, true, true, true],
    [true, false, false, true, true, true, true],
    [true, true, true, true, true, true, true],
    [true, true, true, false, false, false, false],
    [true, true, true, false, false, false, false],
    [true, true, true, false, false, false, false],
    [true, true, false, false, false, false, false]
  ]

  const WINNERS: seq<nat> := [0, 1, 0, 2, 0, 0, 0, 0, 0, 0]

  const STATES: seq<seq<int>> := [
    [0, 0, 0, 0, 0, 0, 0],
    [-6, 1, 1, 1, 1, 1, 1],
    [1, -11, 2, 2, 2, 2, 2],
    [-4, -11, 3, 3, 3, 3, 3],
    [3, -11, -8, 4, 4, 4, 4],
    [-1, -11, -8, 5, 5, 5, 5],
    [-7, -10, -7, 6, 6, 6, 6],
    [-9, -9, -6, 6, 6, 6, 6],
    [-11, -8, -5, 6, 6, 6, 6],
    [-13, -7, -4, 6, 6, 6, 6],
    [-14, -6, -4, 6, 6, 6, 6]
  ]

  lemma RoundHolds(k: nat)
    requires k < 10
    ensures RoundOfSeven(STATES[k], UPS[k], WINNERS[k], STATES[k + 1])
  {
    PartOfWeights(UPS[k]);
    hide Part;
  }

  lemma {:induction false} Replay(k: nat, start: int)
    requires k <= 10
    ensures Reaches(SevenBackends(), UPS[..k], STATES[k], start)
  {
    if k == 0 {
      SevenStart(start);
    } else {
      RoundHolds(k - 1);
      Replay(k - 1, start);
      assert UPS[..k] == UPS[..k - 1] + [UPS[k - 1]];
      hide *;
      OneMoreOfSeven(UPS[..k - 1], STATES[k - 1], UPS[k - 1], WINNERS[k - 1], STATES[k], start);
    }
  }

  /** The bound is not `-W` on every run: of seven back ends with weights 7, 1, 1, 1, 1, 1, 1,
      total 13, some of them down at some of ten picks in ten milliseconds from `start` on, one
      comes to -14. */
  lemma BelowMinusTotal(start: int) returns (evs: seq<Event>)
    ensures var s := SevenBackends();
      && Configured(s) && AllFit(|s|, evs) && Wrr.Sum(Caps(s)) == 13
      && After(s, evs, |evs|)[0].current == -14
  {
    SevenStart(start);
    Replay(10, start);
    evs := Rounds(UPS[..10], 7, start);
    SevenEnd(UPS[..10], STATES[10], start);
  }
}
