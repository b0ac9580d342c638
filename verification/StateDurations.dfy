/** Fitting state durations to a wanted total: a first estimate from means and variances, then
    one frame at a time. */
module StateDurations {

  function Sum(s: seq<int>): int {
    if s == [] then 0 else s[0] + Sum(s[1..])
  }

  lemma {:induction false} SumSplit(s: seq<int>, k: nat)
    requires k <= |s|
    ensures Sum(s) == Sum(s[..k]) + Sum(s[k..])
  {
    if k == 0 {
      assert s[..0] == [] && s[0..] == s;
    } else {
      SumSplit(s[1..], k - 1);
      assert s[..k] == [s[0]] + s[1..][..k - 1] && s[1..][k - 1..] == s[k..];
    }
  }

  lemma SumLast(s: seq<int>, x: int)
    ensures Sum(s + [x]) == Sum(s) + x
  {
    SumSplit(s + [x], |s|);
    assert (s + [x])[..|s|] == s && (s + [x])[|s|..] == [x];
  }

  lemma SumUpdate(s: seq<int>, j: nat, x: int)
    requires j < |s|
    ensures Sum(s[j := x]) == Sum(s) - s[j] + x
  {
    SumSplit(s, j);
    SumSplit(s[j := x], j);
    assert s[j := x][..j] == s[..j] && s[j := x][j..] == [x] + s[j + 1..];
    assert s[j..] == [s[j]] + s[j + 1..];
  }

  /** Entries of at least 1, the first excepted: the sum bounds the first. */
  lemma {:induction false} SumAtLeast(s: seq<int>)
    requires forall i :: 0 <= i < |s| ==> s[i] >= 1
    ensures Sum(s) >= |s|
  {
    if s != [] {
      SumAtLeast(s[1..]);
    }
  }

  lemma {:induction false} SumOnes(s: seq<int>)
    requires forall i :: 0 <= i < |s| ==> s[i] == 1
    ensures Sum(s) == |s|
  {
    if s != [] {
      SumOnes(s[1..]);
    }
  }

  function RealSum(s: seq<real>): real {
    if s == [] then 0.0 else RealSum(s[..|s| - 1]) + s[|s| - 1]
  }

  lemma {:induction false} RealSumPositive(s: seq<real>)
    requires s != [] && forall i :: 0 <= i < |s| ==> s[i] > 0.0
    ensures RealSum(s) > 0.0
  {
    if |s| > 1 {
      RealSumPositive(s[..|s| - 1]);
    } else {
      assert s[..0] == [] && RealSum(s[..0]) == 0.0;
    }
  }

  lemma {:induction false} RealSumSplit(s: seq<real>, k: nat)
    requires k <= |s|
    ensures RealSum(s) == RealSum(s[..k]) + RealSum(s[k..])
    decreases |s|
  {
    if k == |s| {
      assert s[..k] == s && s[k..] == [];
    } else {
      var n := |s| - 1;
      RealSumSplit(s[..n], k);
      assert s[..n][..k] == s[..k] && s[..n][k..] == s[k..][..n - k];
    }
  }

  /** Conversion to an integer drops the fraction, towards zero. */
  function Truncated(x: real): int {
    if x >= 0.0 then x.Floor else -(-x).Floor
  }

  function AtLeastOne(n: int): int {
    if n < 1 then 1 else n
  }

  function Rounded(x: real): int {
    Truncated(x + 0.5)
  }

  /** The nearest whole number, halves up, of all but negative numbers, which give none above zero. */
  lemma RoundedIsNearest(x: real)
    ensures x >= -0.5 ==> Rounded(x) as real - 0.5 <= x < Rounded(x) as real + 0.5
    ensures x < -0.5 ==> Rounded(x) <= 0
  {
  }

  /** n frames are the nearest to x, and at least one. */
  ghost predicate NearFrames(x: real, n: int) {
    if x < 1.5 then n == 1 else n as real - 0.5 <= x < n as real + 0.5
  }

  lemma NearestFrames(x: real)
    ensures NearFrames(x, AtLeastOne(Rounded(x)))
  {
  }

  /** rho: by how many variances all means must move to give the wanted total. */
  function Rho(mean: seq<real>, vari: seq<real>, target: int): real
    requires RealSum(vari) != 0.0
  {
    (target as real - RealSum(mean)) / RealSum(vari)
  }

  function EstimateOf(mean: real, vari: real, rho: real): (d: int)
    ensures d >= 1
  {
    AtLeastOne(Rounded(mean + rho * vari))
  }

  /** The first estimate of each state's duration. */
  function Estimate(mean: seq<real>, vari: seq<real>, rho: real): seq<int>
    requires |mean| == |vari|
  {
    seq(|mean|, i requires 0 <= i < |mean| => EstimateOf(mean[i], vari[i], rho))
  }

  function Abs(x: int): nat {
    if x < 0 then -x else x
  }

  /** How far a duration is from what rho asks for; the magnitude of a difference is a parameter. */
  function Deviation(magnitude: real -> real, rho: real, d: int, mean: real, vari: real): real
    requires vari != 0.0
  {
    magnitude(rho - (d as real - mean) / vari)
  }

  /** The deviation is an absolute value, as for floating-point numbers. */
  ghost predicate IsAbsolute(magnitude: real -> real) {
    forall x: real :: magnitude(x) == if x < 0.0 then -x else x
  }

  /** How far state i will be from its mean and rho times its variance, in frames. */
  ghost function Off(d: seq<int>, mean: seq<real>, vari: seq<real>, rho: real, step: int, i: int): real
    requires |d| == |mean| == |vari| && 0 <= i < |d|
  {
    var e := (d[i] + step) as real - mean[i] - rho * vari[i];
    if e < 0.0 then -e else e
  }

  /** j is a state, not the first, that may change by step, and none that may will be further off, each
      measured in its own variance, nor any before it as far. */
  ghost predicate FarthestOff(d: seq<int>, mean: seq<real>, vari: seq<real>, rho: real, step: int, j: int)
    requires |d| == |mean| == |vari|
  {
    && 1 <= j < |d| && d[j] + step >= 1
    && forall i {:trigger Off(d, mean, vari, rho, step, i)} :: 1 <= i < |d| && d[i] + step >= 1
         ==> NotFarther(Off(d, mean, vari, rho, step, i), vari[i], Off(d, mean, vari, rho, step, j), vari[j], i < j)
  }

  /** p in terms of v is at most q in terms of w, or less. */
  ghost predicate NotFarther(p: real, v: real, q: real, w: real, strictly: bool) {
    p * w <= q * v && (strictly ==> p * w < q * v)
  }

  lemma DeviationInFrames(magnitude: real -> real, rho: real, d: int, mean: real, vari: real)
    requires vari > 0.0 && IsAbsolute(magnitude)
    ensures var e := d as real - mean - rho * vari;
            Deviation(magnitude, rho, d, mean, vari) * vari == if e < 0.0 then -e else e
  {
    var q := (d as real - mean) / vari;
    Quotient(d as real - mean, vari);
    assert (rho - q) * vari == rho * vari - (d as real - mean);
    assert rho - q < 0.0 <==> (rho - q) * vari < 0.0;
  }

  lemma CrossMultiplied(p: real, q: real, v: real, w: real, strictly: bool)
    requires p <= q && (strictly ==> p < q) && v > 0.0 && w > 0.0
    ensures NotFarther(p * v, v, q * w, w, strictly)
  {
    assert v * w > 0.0;
    assert (q - p) * (v * w) >= 0.0;
    assert p < q ==> (q - p) * (v * w) > 0.0;
    assert q * w * v - p * v * w == (q - p) * (v * w);
  }

  lemma MostDeviantIsFarthest(d: seq<int>, mean: seq<real>, vari: seq<real>, rho: real, magnitude: real -> real, step: int, j: int)
    requires |d| == |mean| == |vari| && forall i :: 0 <= i < |vari| ==> vari[i] > 0.0
    requires IsAbsolute(magnitude) && MostDeviant(d, mean, vari, rho, magnitude, step, j)
    ensures FarthestOff(d, mean, vari, rho, step, j)
  {
    hide IsAbsolute, Deviation;
    DeviationInFrames(magnitude, rho, d[j] + step, mean[j], vari[j]);
    forall i | 1 <= i < |d| && d[i] + step >= 1
      ensures NotFarther(Off(d, mean, vari, rho, step, i), vari[i], Off(d, mean, vari, rho, step, j), vari[j], i < j)
    {
      DeviationInFrames(magnitude, rho, d[i] + step, mean[i], vari[i]);
      CrossMultiplied(Deviation(magnitude, rho, d[i] + step, mean[i], vari[i]),
                      Deviation(magnitude, rho, d[j] + step, mean[j], vari[j]), vari[i], vari[j], i < j);
    }
  }

  /** The total reached, or no state found to shorten: the program would then write before the
      array. */
  datatype Outcome = Total(frames: int) | NoStateFound

  /** j is a state, not the first, that may change by step and deviates most after it; the first such. */
  ghost predicate MostDeviant(d: seq<int>, mean: seq<real>, vari: seq<real>, rho: real, magnitude: real -> real,
                              step: int, j: int)
    requires |d| == |mean| == |vari| && forall i :: 0 <= i < |vari| ==> vari[i] != 0.0
  {
    && 1 <= j < |d| && d[j] + step >= 1
    && forall i :: 1 <= i < |d| && d[i] + step >= 1 ==>
         var a, b := Deviation(magnitude, rho, d[i] + step, mean[i], vari[i]), Deviation(magnitude, rho, d[j] + step, mean[j], vari[j]);
         a <= b && (i < j ==> a < b)
  }

  /** The inner search, from state 1 on; -1 if no state may change. */
  method Search(duration: array<int>, mean: seq<real>, vari: seq<real>, rho: real, magnitude: real -> real, step: int)
      returns (j: int)
    requires duration.Length == |mean| == |vari| && forall i :: 0 <= i < |vari| ==> vari[i] > 0.0
    ensures j == -1 || MostDeviant(duration[..], mean, vari, rho, magnitude, step, j)
    ensures j != -1 && IsAbsolute(magnitude) ==> FarthestOff(duration[..], mean, vari, rho, step, j)
    ensures j == -1 <==> forall i :: 1 <= i < duration.Length ==> duration[i] + step < 1
  {
    j := -1;
    var best := 0.0;
    var i := 1;
    while i < duration.Length
      invariant 1 <= i && (j == -1 || (1 <= j < i && j < duration.Length))
      invariant j == -1 <==> forall l :: 1 <= l < i && l < duration.Length ==> duration[l] + step < 1
      invariant j != -1 ==> duration[j] + step >= 1
                            && best == Deviation(magnitude, rho, duration[j] + step, mean[j], vari[j])
      invariant j != -1 ==> forall l :: 1 <= l < i && l < duration.Length && duration[l] + step >= 1 ==>
                              && Deviation(magnitude, rho, duration[l] + step, mean[l], vari[l]) <= best
                              && (l < j ==> Deviation(magnitude, rho, duration[l] + step, mean[l], vari[l]) < best)
    {
      if duration[i] + step >= 1 {
        var deviation := Deviation(magnitude, rho, duration[i] + step, mean[i], vari[i]);
        if j < 0 || best < deviation {
          j := i;
          best := deviation;
        }
      }
      i := i + 1;
    }
    if j != -1 && IsAbsolute(magnitude) {
      MostDeviantIsFarthest(duration[..], mean, vari, rho, magnitude, step, j);
    }
  }

  /** Durations rounded from their means, at least one frame each. */
  method FromMeans(duration: array<int>, mean: seq<real>) returns (sum: int)
    requires duration.Length == |mean|
    modifies duration
    ensures forall i :: 0 <= i < |mean| ==> duration[i] == AtLeastOne(Rounded(mean[i]))
    ensures sum == Sum(duration[..])
  {
    sum := 0;
    var i := 0;
    while i < duration.Length
      invariant 0 <= i <= duration.Length && sum == Sum(duration[..i])
      invariant forall l :: 0 <= l < i ==> duration[l] == AtLeastOne(Rounded(mean[l]))
    {
      ghost var before := duration[..i];
      duration[i] := Truncated(mean[i] + 0.5);
      if duration[i] < 1 {
        duration[i] := 1;
      }
      sum := sum + duration[i];
      SumLast(before, duration[i]);
      assert duration[..i + 1] == before + [duration[i]];
      i := i + 1;
    }
    assert duration[..i] == duration[..];
  }

  method FirstEstimate(duration: array<int>, mean: seq<real>, vari: seq<real>, rho: real) returns (sum: int)
    requires duration.Length == |mean| == |vari|
    modifies duration
    ensures duration[..] == Estimate(mean, vari, rho)
    ensures sum == Sum(duration[..])
  {
    assert Sum([]) == 0;
    hide Sum;
    sum := 0;
    var i := 0;
    assert duration[..0] == [];
    while i < duration.Length
      invariant 0 <= i <= duration.Length && sum == Sum(duration[..i])
      invariant forall l :: 0 <= l < i ==> duration[l] == EstimateOf(mean[l], vari[l], rho)
    {
      ghost var before := duration[..i];
      duration[i] := Truncated(mean[i] + rho * vari[i] + 0.5);
      if duration[i] < 1 {
        duration[i] := 1;
      }
      assert duration[i] == EstimateOf(mean[i], vari[i], rho);
      sum := sum + duration[i];
      SumLast(before, duration[i]);
      assert duration[..i + 1] == before + [duration[i]];
      i := i + 1;
    }
    assert duration[..i] == duration[..];
  }

  /** A first duration that leaves one frame for each other state at the wanted total. */
  ghost predicate LeavesRoom(estimate: seq<int>, target: int) {
    |estimate| > 0 && estimate[0] <= target - (|estimate| - 1)
  }

  /** With one state the estimate is the target itself. */
  lemma SingleState(mean: seq<real>, vari: seq<real>, target: int)
    requires |mean| == |vari| == 1 && vari[0] > 0.0 && target >= 1
    ensures RealSum(vari) == vari[0] && Estimate(mean, vari, Rho(mean, vari, target)) == [target]
  {
    assert vari[..0] == [] && mean[..0] == [];
    assert RealSum(vari[..0]) == 0.0 && RealSum(mean[..0]) == 0.0;
    assert RealSum(mean) == mean[0];
    var rho := Rho(mean, vari, target);
    Quotient(target as real - mean[0], vari[0]);
    assert rho * vari[0] == target as real - mean[0];
    assert EstimateOf(mean[0], vari[0], rho) == target;
  }

  lemma Quotient(x: real, y: real)
    requires y != 0.0
    ensures x / y * y == x
  {
  }

  method Sums(mean: seq<real>, vari: seq<real>) returns (temp1: real, temp2: real)
    requires |mean| == |vari|
    ensures temp1 == RealSum(mean) && temp2 == RealSum(vari)
  {
    temp1, temp2 := 0.0, 0.0;
    var i := 0;
    while i < |mean|
      invariant 0 <= i <= |mean|
      invariant temp1 == RealSum(mean[..i]) && temp2 == RealSum(vari[..i])
    {
      temp1, temp2 := temp1 + mean[i], temp2 + vari[i];
      assert mean[..i + 1][..i] == mean[..i] && vari[..i + 1][..i] == vari[..i];
      i := i + 1;
    }
    assert mean[..i] == mean && vari[..i] == vari;
  }

  /** All durations lie on the side of the estimate where the target is. */
  ghost predicate Towards(d: seq<int>, estimate: seq<int>, target: int) {
    && |d| == |estimate| && |d| > 0 && d[0] == estimate[0]
    && (forall i :: 0 <= i < |d| ==> d[i] >= 1)
    && (forall i :: 0 <= i < |d| ==> if Sum(estimate) <= target then d[i] >= estimate[i] else d[i] <= estimate[i])
  }

  /** The durations after changing these states, one after another, by one step each. */
  ghost function After(d: seq<int>, moves: seq<int>, step: int): (d': seq<int>)
    requires forall k :: 0 <= k < |moves| ==> 0 <= moves[k] < |d|
    ensures |d'| == |d|
  {
    if moves == [] then d
    else
      var before, j := After(d, moves[..|moves| - 1], step), moves[|moves| - 1];
      before[j := before[j] + step]
  }

  /** Every change was to a state that deviated most after it, at the time. */
  ghost predicate EachMostDeviant(d: seq<int>, moves: seq<int>, step: int, mean: seq<real>, vari: seq<real>, rho: real,
                                  magnitude: real -> real)
    requires |d| == |mean| == |vari| && forall i :: 0 <= i < |vari| ==> vari[i] != 0.0
  {
    && (forall k :: 0 <= k < |moves| ==> 0 <= moves[k] < |d|)
    && forall k {:trigger moves[k]} :: 0 <= k < |moves|
         ==> MostDeviant(After(d, moves[..k], step), mean, vari, rho, magnitude, step, moves[k])
  }

  /** Every change was to a state that would be farthest off after it, at the time. */
  ghost predicate EachFarthestOff(d: seq<int>, moves: seq<int>, step: int, mean: seq<real>, vari: seq<real>, rho: real)
    requires |d| == |mean| == |vari|
  {
    && (forall k :: 0 <= k < |moves| ==> 0 <= moves[k] < |d|)
    && forall k {:trigger moves[k]} :: 0 <= k < |moves|
         ==> FarthestOff(After(d, moves[..k], step), mean, vari, rho, step, moves[k])
  }

  lemma EachIsFarthest(d: seq<int>, moves: seq<int>, step: int, mean: seq<real>, vari: seq<real>, rho: real, magnitude: real -> real)
    requires |d| == |mean| == |vari| && forall i :: 0 <= i < |vari| ==> vari[i] > 0.0
    requires IsAbsolute(magnitude) && EachMostDeviant(d, moves, step, mean, vari, rho, magnitude)
    ensures EachFarthestOff(d, moves, step, mean, vari, rho)
  {
    hide MostDeviant, FarthestOff, After, IsAbsolute;
    forall k | 0 <= k < |moves|
      ensures FarthestOff(After(d, moves[..k], step), mean, vari, rho, step, moves[k])
    {
      MostDeviantIsFarthest(After(d, moves[..k], step), mean, vari, rho, magnitude, step, moves[k]);
    }
  }

  lemma NoMoves(d: seq<int>, step: int, mean: seq<real>, vari: seq<real>, rho: real, magnitude: real -> real)
    requires |d| == |mean| == |vari| && forall i :: 0 <= i < |vari| ==> vari[i] != 0.0
    ensures EachMostDeviant(d, [], step, mean, vari, rho, magnitude) && After(d, [], step) == d
  {
  }

  lemma OneMoveMore(d: seq<int>, moves: seq<int>, j: int, step: int, mean: seq<real>, vari: seq<real>, rho: real,
                    magnitude: real -> real)
    requires |d| == |mean| == |vari| && forall i :: 0 <= i < |vari| ==> vari[i] != 0.0
    requires EachMostDeviant(d, moves, step, mean, vari, rho, magnitude)
    requires MostDeviant(After(d, moves, step), mean, vari, rho, magnitude, step, j)
    ensures EachMostDeviant(d, moves + [j], step, mean, vari, rho, magnitude)
    ensures var before := After(d, moves, step); After(d, moves + [j], step) == before[j := before[j] + step]
  {
    hide MostDeviant, After;
    MoveInRange(After(d, moves, step), mean, vari, rho, magnitude, step, j);
    var more := moves + [j];
    AfterMore(d, moves, j, step);
    forall k | 0 <= k < |more|
      ensures MostDeviant(After(d, more[..k], step), mean, vari, rho, magnitude, step, more[k])
    {
      if k < |moves| {
        assert more[..k] == moves[..k] && more[k] == moves[k];
      } else {
        assert more[..k] == moves && more[k] == j;
      }
    }
  }

  lemma AfterMore(d: seq<int>, moves: seq<int>, j: int, step: int)
    requires (forall k :: 0 <= k < |moves| ==> 0 <= moves[k] < |d|) && 0 <= j < |d|
    ensures var before := After(d, moves, step); After(d, moves + [j], step) == before[j := before[j] + step]
  {
    assert (moves + [j])[..|moves|] == moves;
  }

  /** Up if the target is above, down otherwise. */
  function StepTo(target: int, sum: int): int {
    if target > sum then 1 else -1
  }

  /** With each mean moved by rho of its variances the means add up to the target. */
  ghost predicate MeansReach(mean: seq<real>, vari: seq<real>, rho: real, target: int) {
    RealSum(vari) > 0.0 && RealSum(mean) + rho * RealSum(vari) == target as real
  }

  /** Each mean, so moved, in whole frames. */
  ghost predicate IsEstimate(estimate: seq<int>, mean: seq<real>, vari: seq<real>, rho: real)
    requires |mean| == |vari|
  {
    |estimate| == |mean| && forall i :: 0 <= i < |mean| ==> NearFrames(mean[i] + rho * vari[i], estimate[i])
  }

  /** What fitting comes to: rho moves all means by so many variances that they add up to the target;
      the estimate rounds what that makes of each; then one frame at a time is given or taken, always
      where it leaves a state farthest off, until the total is reached; and it is reached exactly when the
      first estimate of the first state, which is never adjusted, leaves a frame for every other. */
  ghost predicate Fitted(d: seq<int>, mean: seq<real>, vari: seq<real>, target: int, magnitude: real -> real, r: Outcome,
                         rho: real, estimate: seq<int>, moves: seq<int>)
    requires |d| == |mean| == |vari| && forall i :: 0 <= i < |vari| ==> vari[i] > 0.0
  {
    && MeansReach(mean, vari, rho, target) && IsEstimate(estimate, mean, vari, rho)
    && (r.Total? <==> LeavesRoom(estimate, target))
    && Towards(d, estimate, target)
    && EachMostDeviant(estimate, moves, StepTo(target, Sum(estimate)), mean, vari, rho, magnitude)
    && (IsAbsolute(magnitude) ==> EachFarthestOff(estimate, moves, StepTo(target, Sum(estimate)), mean, vari, rho))
    && d == After(estimate, moves, StepTo(target, Sum(estimate)))
    && (r.Total? ==> r.frames == target && Sum(d) == target && |moves| == Abs(target - Sum(estimate)))
  }

  /** Fits the durations to the wanted total. */
  method Fit(duration: array<int>, mean: seq<real>, vari: seq<real>, target: int, magnitude: real -> real)
      returns (r: Outcome, ghost rho: real, ghost estimate: seq<int>, ghost moves: seq<int>)
    requires duration.Length == |mean| == |vari| && duration.Length >= 1 && target > duration.Length
    requires forall i :: 0 <= i < |vari| ==> vari[i] > 0.0
    modifies duration
    ensures Fitted(duration[..], mean, vari, target, magnitude, r, rho, estimate, moves)
    ensures estimate == Estimate(mean, vari, rho) && RealSum(vari) != 0.0 && rho == Rho(mean, vari, target)
  {
    hide RealSum, EachMostDeviant, EachFarthestOff, IsAbsolute, Estimate, IsEstimate, MeansReach, After, Sum, Towards, LeavesRoom;
    RealSumPositive(vari);
    var temp1, temp2 := Sums(mean, vari);
    var ratio := (target as real - temp1) / temp2;
    rho := ratio;
    RhoMoves(mean, vari, target, rho);
    var sum := FirstEstimate(duration, mean, vari, ratio);
    estimate := duration[..];
    if |mean| == 1 {
      SingleState(mean, vari, target);
      SingleSum(target);
    }
    EstimateIsNear(mean, vari, rho);
    r, moves := Adjust(duration, mean, vari, ratio, target, sum, magnitude);
    if IsAbsolute(magnitude) {
      EachIsFarthest(estimate, moves, StepTo(target, Sum(estimate)), mean, vari, rho, magnitude);
    }
  }

  lemma RhoMoves(mean: seq<real>, vari: seq<real>, target: int, rho: real)
    requires RealSum(vari) > 0.0 && rho == Rho(mean, vari, target)
    ensures MeansReach(mean, vari, rho, target)
  {
    Quotient(target as real - RealSum(mean), RealSum(vari));
  }

  lemma SingleSum(n: int)
    ensures Sum([n]) == n
  {
  }

  lemma EstimateIsNear(mean: seq<real>, vari: seq<real>, rho: real)
    requires |mean| == |vari|
    ensures IsEstimate(Estimate(mean, vari, rho), mean, vari, rho)
    ensures forall i :: 0 <= i < |Estimate(mean, vari, rho)| ==> Estimate(mean, vari, rho)[i] >= 1
  {
    forall i | 0 <= i < |mean|
      ensures NearFrames(mean[i] + rho * vari[i], Estimate(mean, vari, rho)[i]) && Estimate(mean, vari, rho)[i] >= 1
    {
      NearestFrames(mean[i] + rho * vari[i]);
    }
  }

  /** The loop of adjustments. */
  method Adjust(duration: array<int>, mean: seq<real>, vari: seq<real>, rho: real, target: int, first: int,
                magnitude: real -> real) returns (r: Outcome, ghost moves: seq<int>)
    requires duration.Length == |mean| == |vari| && duration.Length >= 1
    requires forall i :: 0 <= i < |vari| ==> vari[i] > 0.0
    requires first == Sum(duration[..]) && forall i :: 0 <= i < duration.Length ==> duration[i] >= 1
    requires duration.Length == 1 ==> first == target
    modifies duration
    ensures r.Total? <==> LeavesRoom(old(duration[..]), target)
    ensures Towards(duration[..], old(duration[..]), target)
    ensures EachMostDeviant(old(duration[..]), moves, StepTo(target, first), mean, vari, rho, magnitude)
    ensures duration[..] == After(old(duration[..]), moves, StepTo(target, first))
    ensures r.Total? ==> r.frames == target && Sum(duration[..]) == target && |moves| == Abs(target - first)
  {
    hide MostDeviant, Deviation, After;
    ghost var estimate := duration[..];
    NoMoves(estimate, StepTo(target, first), mean, vari, rho, magnitude);
    var sum := first;
    moves := [];
    while sum != target
      invariant sum == Sum(duration[..]) && Towards(duration[..], estimate, target)
      invariant if first <= target then first <= sum <= target else target <= sum <= first
      invariant |moves| == Abs(sum - first)
      invariant EachMostDeviant(estimate, moves, StepTo(target, first), mean, vari, rho, magnitude)
      invariant duration[..] == After(estimate, moves, StepTo(target, first))
      decreases Abs(target - sum)
    {
      var step := if target > sum then 1 else -1;
      var j := Search(duration, mean, vari, rho, magnitude, step);
      if j == -1 {
        NoRoom(duration[..], estimate, sum, target);
        return NoStateFound, moves;
      }
      ghost var before := duration[..];
      MoveInRange(before, mean, vari, rho, magnitude, step, j);
      SumUpdate(before, j, duration[j] + step);
      OneMoveMore(estimate, moves, j, step, mean, vari, rho, magnitude);
      sum := sum + step;
      duration[j] := duration[j] + step;
      assert duration[..] == before[j := before[j] + step];
      moves := moves + [j];
    }
    FirstBound(duration[..]);
    r := Total(target);
  }

  lemma MoveInRange(d: seq<int>, mean: seq<real>, vari: seq<real>, rho: real, magnitude: real -> real, step: int, j: int)
    requires |d| == |mean| == |vari| && forall i :: 0 <= i < |vari| ==> vari[i] != 0.0
    requires MostDeviant(d, mean, vari, rho, magnitude, step, j)
    ensures 1 <= j < |d| && d[j] + step >= 1
  {
  }

  lemma NoRoom(d: seq<int>, estimate: seq<int>, sum: int, target: int)
    requires |d| == |estimate| && |d| >= 2 && d[0] == estimate[0] && sum == Sum(d) && sum != target
    requires forall i :: 0 <= i < |d| ==> d[i] >= 1
    requires forall i :: 1 <= i < |d| ==> d[i] + (if target > sum then 1 else -1) < 1
    ensures !LeavesRoom(estimate, target)
  {
    SumOnes(d[1..]);
  }

  lemma FirstBound(d: seq<int>)
    requires |d| >= 1 && forall i :: 0 <= i < |d| ==> d[i] >= 1
    ensures d[0] <= Sum(d) - (|d| - 1)
  {
    SumAtLeast(d[1..]);
  }

  /** The whole operation, for any wanted length. */
  method SetDuration(duration: array<int>, mean: seq<real>, vari: seq<real>, frameLength: real, magnitude: real -> real)
      returns (r: Outcome, tooShort: bool, ghost rho: real, ghost estimate: seq<int>, ghost moves: seq<int>)
    requires duration.Length == |mean| == |vari| && duration.Length >= 1
    requires forall i :: 0 <= i < |vari| ==> vari[i] > 0.0
    modifies duration
    ensures forall i :: 0 <= i < duration.Length ==> duration[i] >= 1
    ensures r.Total? ==> r.frames == Sum(duration[..])
    ensures frameLength == 0.0 ==> r.Total? && !tooShort
                                   && forall i :: 0 <= i < |mean| ==> NearFrames(mean[i], duration[i])
    ensures frameLength != 0.0 ==> (tooShort <==> Rounded(frameLength) < |mean|)
    ensures frameLength != 0.0 && Rounded(frameLength) <= |mean| ==>
              r == Total(|mean|) && forall i :: 0 <= i < duration.Length ==> duration[i] == 1
    ensures frameLength != 0.0 && Rounded(frameLength) > |mean| ==>
              Fitted(duration[..], mean, vari, Rounded(frameLength), magnitude, r, rho, estimate, moves)
  {
    tooShort, rho, estimate, moves := false, 0.0, [], [];
    if frameLength == 0.0 {
      var sum := FromMeans(duration, mean);
      forall i | 0 <= i < |mean|
        ensures NearFrames(mean[i], duration[i])
      {
        NearestFrames(mean[i]);
      }
      r := Total(sum);
      return;
    }
    var target := Truncated(frameLength + 0.5);
    if target <= duration.Length {
      tooShort := target < duration.Length;
      var i := 0;
      while i < duration.Length
        invariant 0 <= i <= duration.Length && forall l :: 0 <= l < i ==> duration[l] == 1
      {
        duration[i] := 1;
        i := i + 1;
      }
      SumOnes(duration[..]);
      r := Total(duration.Length);
      return;
    }
    r, rho, estimate, moves := Fit(duration, mean, vari, target, magnitude);
  }

  /** The failing case occurs: two equally variable states, a long one and a short one, to be fitted
      into four frames. The long one's estimate alone takes seven. */
  lemma FailureExample()
    ensures RealSum([1.0, 1.0]) == 2.0 && RealSum([10.0, 1.0]) == 11.0
    ensures Rho([10.0, 1.0], [1.0, 1.0], 4) == -3.5
    ensures Estimate([10.0, 1.0], [1.0, 1.0], Rho([10.0, 1.0], [1.0, 1.0], 4)) == [7, 1]
    ensures !LeavesRoom([7, 1], 4)
  {
    assert [1.0, 1.0][..1] == [1.0] && [10.0, 1.0][..1] == [10.0] && [1.0][..0] == [] && [10.0][..0] == [];
    assert RealSum([1.0]) == 1.0 && RealSum([10.0]) == 10.0;
  }
}
