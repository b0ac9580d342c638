/** The durations of one model: the user's control over them, and the cap that keeps a window of
    models within the memory of the parameter generation. */
module ModelDurations {
  import opened StateDurations

  const NUM_STATES := 5
  const NUM_BACKUP := 2
  const NUM_LOOKUP := 0
  const MAX_FRAMES := 512

  /** Frames that each model of a window may take. */
  const MAX_DURATION := MAX_FRAMES / (NUM_BACKUP + NUM_LOOKUP + 1)

  datatype Control = Overwrite | Shift | Scale | NoAction

  /** One state's duration under a control value. */
  function Controlled(action: Control, d: int, value: real): int {
    match action
    case Overwrite => Truncated(value)
    case Shift => Truncated(d as real + value)
    case Scale => Truncated(d as real * value)
    case NoAction => d
  }

  function OneIfNegative(d: int): nat {
    if d < 0 then 1 else d
  }

  ghost function Wanted(action: Control, d: seq<int>, values: seq<real>): seq<int>
    requires |d| == |values|
  {
    seq(|d|, i requires 0 <= i < |d| => OneIfNegative(Controlled(action, d[i], values[i])))
  }

  /** A duration's share of the cap, rounded down. */
  function Share(d: int, total: int): int
    requires total > 0
  {
    d * MAX_DURATION / total
  }

  ghost function Shares(d: seq<int>, total: int): seq<int>
    requires total > 0
  {
    seq(|d|, i requires 0 <= i < |d| => Share(d[i], total))
  }

  /** n frames are what is left of x when its fraction is dropped towards zero; one, if that is negative. */
  ghost predicate WholeFrames(x: real, n: int) {
    if x <= -1.0 then n == 1
    else if x < 0.0 then n == 0
    else n as real <= x < n as real + 1.0
  }

  /** n frames are what the control asks for, of a state that lasted d. */
  ghost predicate AskedFor(action: Control, d: int, value: real, n: int) {
    match action
    case Overwrite => WholeFrames(value, n)
    case Shift => WholeFrames(d as real + value, n)
    case Scale => WholeFrames(d as real * value, n)
    case NoAction => n == if d < 0 then 1 else d
  }

  ghost predicate AllAskedFor(action: Control, d: seq<int>, values: seq<real>, wanted: seq<int>) {
    && |d| == |values| == |wanted|
    && forall i :: 0 <= i < |d| ==> AskedFor(action, d[i], values[i], wanted[i])
  }

  /** The total of these durations is within the cap, or each is scaled down to the cap's share of it. */
  ghost predicate WithinCap(wanted: seq<int>, d: seq<int>) {
    if Sum(wanted) <= MAX_DURATION then d == wanted
    else |d| == |wanted| && forall i :: 0 <= i < |d| ==>
           Sum(wanted) * d[i] <= MAX_DURATION * wanted[i] < Sum(wanted) * (d[i] + 1)
  }

  lemma DroppedFraction(x: real)
    ensures WholeFrames(x, OneIfNegative(Truncated(x)))
  {
  }

  lemma WantedIsAskedFor(action: Control, d: seq<int>, values: seq<real>)
    requires |d| == |values|
    ensures AllAskedFor(action, d, values, Wanted(action, d, values))
  {
    forall i | 0 <= i < |d|
      ensures AskedFor(action, d[i], values[i], OneIfNegative(Controlled(action, d[i], values[i])))
    {
      DroppedFraction(values[i]);
      DroppedFraction(d[i] as real + values[i]);
      DroppedFraction(d[i] as real * values[i]);
    }
  }

  lemma SharesAreWithinCap(wanted: seq<int>)
    ensures WithinCap(wanted, if Sum(wanted) <= MAX_DURATION then wanted else Shares(wanted, Sum(wanted)))
  {
    if Sum(wanted) > MAX_DURATION {
      forall i | 0 <= i < |wanted|
        ensures Sum(wanted) * Share(wanted[i], Sum(wanted)) <= MAX_DURATION * wanted[i]
                < Sum(wanted) * (Share(wanted[i], Sum(wanted)) + 1)
      {
        ShareBounds(wanted[i], Sum(wanted));
      }
    }
  }

  ghost predicate Nonnegative(d: seq<int>) {
    forall i :: 0 <= i < |d| ==> d[i] >= 0
  }

  function Times(t: int, x: int): int {
    t * x
  }

  lemma ShareBounds(d: int, total: int)
    requires total > 0
    ensures Times(total, Share(d, total)) <= MAX_DURATION * d < Times(total, Share(d, total) + 1)
    ensures d >= 0 ==> Share(d, total) >= 0
  {
    var q := Share(d, total);
    assert q <= -1 ==> total * (q + 1) <= 0;
    assert total * (q + 1) == total * q + total;
  }

  lemma TimesAdd(t: int, a: int, b: int)
    ensures Times(t, a) + Times(t, b) == Times(t, a + b)
  {
  }

  lemma {:induction false} SharesBounds(d: seq<int>, total: int)
    requires total > 0
    ensures Times(total, Sum(Shares(d, total))) <= MAX_DURATION * Sum(d) <= Times(total, Sum(Shares(d, total)) + |d|)
    ensures d != [] ==> MAX_DURATION * Sum(d) < Times(total, Sum(Shares(d, total)) + |d|)
  {
    hide Share, Shares, Sum, Times;
    if d == [] {
      NoShares(total);
    } else {
      var rest := d[1..];
      var a, b := Share(d[0], total), Sum(Shares(rest, total));
      SharesBounds(rest, total);
      SharesStep(d, total);
      ShareBounds(d[0], total);
      TimesAdd(total, a, b);
      TimesAdd(total, a + 1, b + |rest|);
      assert a + 1 + (b + |rest|) == a + b + |d|;
    }
  }

  lemma NoShares(total: int)
    requires total > 0
    ensures Times(total, Sum(Shares([], total))) == MAX_DURATION * Sum([]) == Times(total, Sum(Shares([], total)) + 0) == 0
  {
  }

  lemma SharesStep(d: seq<int>, total: int)
    requires total > 0 && d != []
    ensures Sum(Shares(d, total)) == Share(d[0], total) + Sum(Shares(d[1..], total))
    ensures Sum(d) == d[0] + Sum(d[1..])
  {
    assert Shares(d, total)[1..] == Shares(d[1..], total);
  }

  /** The shares of a total over the cap lose less than one frame per state. */
  lemma SharesFit(d: seq<int>, total: int)
    requires total == Sum(d) && total > 0 && d != []
    ensures MAX_DURATION - |d| < Sum(Shares(d, total)) <= MAX_DURATION
  {
    SharesBounds(d, total);
    var s := Sum(Shares(d, total));
    CancelLess(total, s, MAX_DURATION);
    CancelLess(total, MAX_DURATION, s + |d|);
  }

  lemma CancelLess(t: int, a: int, b: int)
    requires t > 0
    ensures t * a <= b * t ==> a <= b
    ensures a * t < t * b ==> a < b
  {
    assert a > b ==> t * (a - b) > 0;
    assert a >= b ==> t * (a - b) >= 0;
  }

  /** A model's state durations and their recorded total. */
  class Model {
    const states: array<int>
    var duration: int

    constructor ()
      ensures fresh(states) && states.Length == NUM_STATES
    {
      states := new int[NUM_STATES];
      duration := 0;
    }

    /** What the frame memory needs of a model. */
    ghost predicate Capped()
      reads this, states
    {
      states.Length == NUM_STATES && Nonnegative(states[..]) && duration == Sum(states[..]) && duration <= MAX_DURATION
    }

    /** Applies the control, then the cap. A total within the cap is left alone; a larger one is
        scaled down to within one frame per state of the cap. */
    method UpdateDuration(values: seq<real>, action: Control) returns (ghost wanted: seq<int>)
      requires |values| == NUM_STATES && states.Length == NUM_STATES
      modifies this, states
      ensures Capped()
      ensures AllAskedFor(action, old(states[..]), values, wanted) && WithinCap(wanted, states[..])
      ensures Sum(wanted) > MAX_DURATION ==> duration > MAX_DURATION - NUM_STATES
    {
      WantedIsAskedFor(action, states[..], values);
      wanted := Wanted(action, states[..], values);
      var total := ApplyControl(values, action);
      duration := total;
      if total > MAX_DURATION {
        duration := CapTo(total);
        SharesFit(wanted, total);
      }
      SharesAreWithinCap(wanted);
    }

    method ApplyControl(values: seq<real>, action: Control) returns (total: int)
      requires |values| == NUM_STATES && states.Length == NUM_STATES
      modifies states
      ensures states[..] == Wanted(action, old(states[..]), values) && Nonnegative(states[..])
      ensures total == Sum(states[..])
    {
      ghost var was := states[..];
      total := 0;
      var i := 0;
      while i < NUM_STATES
        invariant 0 <= i <= NUM_STATES && total == Sum(states[..i])
        invariant forall l :: 0 <= l < i ==> states[l] == Wanted(action, was, values)[l]
        invariant forall l :: i <= l < NUM_STATES ==> states[l] == was[l]
      {
        ghost var before := states[..i];
        states[i] := Controlled(action, states[i], values[i]);
        if states[i] < 0 {
          states[i] := 1;
        }
        total := total + states[i];
        SumLast(before, states[i]);
        assert states[..i + 1] == before + [states[i]];
        i := i + 1;
      }
      assert states[..] == states[..i];
    }

    method CapTo(total: int) returns (sum: int)
      requires states.Length == NUM_STATES && total > 0 && Nonnegative(states[..])
      modifies states
      ensures states[..] == Shares(old(states[..]), total) && Nonnegative(states[..])
      ensures sum == Sum(states[..])
    {
      ghost var was := states[..];
      sum := 0;
      var i := 0;
      while i < NUM_STATES
        invariant 0 <= i <= NUM_STATES && sum == Sum(states[..i])
        invariant forall l :: 0 <= l < i ==> states[l] == Shares(was, total)[l] && states[l] >= 0
        invariant forall l :: i <= l < NUM_STATES ==> states[l] == was[l]
      {
        ghost var before := states[..i];
        ShareBounds(was[i], total);
        states[i] := states[i] * MAX_DURATION;
        states[i] := states[i] / total;
        assert states[i] == Share(was[i], total);
        sum := sum + states[i];
        SumLast(before, states[i]);
        assert states[..i + 1] == before + [states[i]];
        i := i + 1;
      }
      assert states[..] == states[..i];
    }
  }

  /** A window of capped models always fits the frame memory. */
  lemma {:induction false} WindowFits(durations: seq<int>)
    requires |durations| <= NUM_BACKUP + NUM_LOOKUP + 1
    requires forall i :: 0 <= i < |durations| ==> 0 <= durations[i] <= MAX_DURATION
    ensures 0 <= Sum(durations) <= |durations| * MAX_DURATION < MAX_FRAMES
  {
    if durations != [] {
      WindowFits(durations[1..]);
    }
  }
}
