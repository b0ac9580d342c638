/** How fast frames are consumed: one for every hopLen samples, as far as there are any. */
module FramePace {
  import opened Bits
  import opened Queues
  import opened Pipeline

  /** How many of the actions from i to j count a sample. */
  ghost function Ticks<L>(actions: seq<Action<L>>, i: nat, j: nat): nat
    requires i <= j <= |actions|
    decreases j
  {
    if i == j then 0 else Ticks(actions, i, j - 1) + if actions[j - 1].Tick? then 1 else 0
  }

  /** A sample at which it is time for a frame, and there is none. */
  ghost predicate Misses<L>(s: State<L>, a: Action<L>) {
    a.Tick? && s.sampleCount >= s.hopLen - 1 && s.frames == []
  }

  ghost function Missed<L>(states: seq<State<L>>, actions: seq<Action<L>>, i: nat, j: nat): nat
    requires i <= j <= |actions| <= |states|
    decreases j
  {
    if i == j then 0 else Missed(states, actions, i, j - 1) + if Misses(states[j - 1], actions[j - 1]) then 1 else 0
  }

  /** Frames consumed, missed and seen but not read yet, since there were this many consumed. */
  ghost function Due<L>(s: State<L>, consumed: nat, missed: nat): int {
    |s.consumed| - consumed + missed + if s.reader == Seeing then 1 else 0
  }

  /** Each hop is a multiple of samples, and the count says how many more there have been. */
  ghost predicate OnBeat<L>(s: State<L>, hop: int, ticks: nat, due: int) {
    && s.hopLen == hop >= 1 && 0 <= s.sampleCount < hop && (s.reader != Counting ==> s.sampleCount == hop - 1)
    && due >= 0 && ticks == hop * due + if s.reader == Counting then s.sampleCount else 0
  }

  lemma BeatStep<L>(s: State<L>, a: Action<L>, s': State<L>, hop: int, ticks: nat, consumed: nat, missed: nat)
    requires Inv(s) && Step(s, a, s') && !a.Reset? && OnBeat(s, hop, ticks, Due(s, consumed, missed))
    ensures OnBeat(s', hop, ticks + (if a.Tick? then 1 else 0),
                   Due(s', consumed, missed + (if Misses(s, a) then 1 else 0)))
  {
    hide SynthesisOk, Shaped, IsJob, RingOk;
    var due, due' := Due(s, consumed, missed), Due(s', consumed, missed + (if Misses(s, a) then 1 else 0));
    assert due' == due || (due' == due + 1 && hop * due' == hop * due + hop);
  }

  lemma BeatStarts<L>(s: State<L>)
    requires s.reader == Counting && s.sampleCount == 0 && s.hopLen >= 1
    ensures OnBeat(s, s.hopLen, 0, Due(s, |s.consumed|, 0))
  {
    assert s.hopLen * 0 == 0;
  }

  lemma {:induction false} KeepsBeat<L>(states: seq<State<L>>, actions: seq<Action<L>>, i: nat, j: nat)
    requires Run(states, actions) && i <= j < |states|
    requires states[i].reader == Counting && states[i].sampleCount == 0 && states[i].hopLen >= 1
    requires forall k :: i <= k < j ==> !actions[k].Reset?
    ensures OnBeat(states[j], states[i].hopLen, Ticks(actions, i, j),
                   Due(states[j], |states[i].consumed|, Missed(states, actions, i, j)))
    decreases j
  {
    hide Inv, Step, OnBeat, Due, Misses;
    if i == j {
      BeatStarts(states[i]);
    } else {
      KeepsBeat(states, actions, i, j - 1);
      RunOk(states, actions, j - 1);
      assert StepAt(states, actions, j - 1);
      BeatStep(states[j - 1], actions[j - 1], states[j], states[i].hopLen, Ticks(actions, i, j - 1),
               |states[i].consumed|, Missed(states, actions, i, j - 1));
    }
  }

  /** From a moment at which the count starts anew, and until it is reset: one frame is due for every
      hopLen samples counted, and it has been consumed, or has been seen and is about to be, or there was
      none when it was due. */
  lemma FramePerHop<L>(states: seq<State<L>>, actions: seq<Action<L>>, i: nat, j: nat)
    requires Run(states, actions) && i <= j < |states|
    requires states[i].reader == Counting && states[i].sampleCount == 0 && states[i].hopLen >= 1
    requires forall k :: i <= k < j ==> !actions[k].Reset?
    ensures Due(states[j], |states[i].consumed|, Missed(states, actions, i, j)) == Ticks(actions, i, j) / states[i].hopLen
  {
    hide Ticks, Missed, Due, Inv, Step;
    KeepsBeat(states, actions, i, j);
    var s, hop := states[j], states[i].hopLen;
    DivisionUnique(Ticks(actions, i, j), hop, Due(s, |states[i].consumed|, Missed(states, actions, i, j)),
                   if s.reader == Counting then s.sampleCount else 0);
  }
}
