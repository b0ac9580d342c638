/** A window of models unrolled to frames: which state each frame comes from, which frames are
    voiced, and where each frame's statistics and results are kept. */
module FrameWindow {
  import opened StateDurations
  import opened ModelDurations

  /** One state of a model: how long it lasts, how voiced it is, and its statistics by stream. */
  datatype StateData = StateData(duration: int, msdFlag: real, mean: seq<seq<real>>, vari: seq<seq<real>>)

  /** A model as the queue holds it: its states and the total recorded for it. */
  datatype ModelData = ModelData(states: seq<StateData>, duration: int)

  ghost function Durations(states: seq<StateData>): seq<int> {
    seq(|states|, i requires 0 <= i < |states| => states[i].duration)
  }

  /** What the duration control leaves behind. */
  ghost predicate Capped(model: ModelData) {
    && |model.states| == NUM_STATES && Nonnegative(Durations(model.states))
    && model.duration == Sum(Durations(model.states)) && model.duration <= MAX_DURATION
  }

  // ----- frames -----

  /** The states of the frames, one entry per frame. */
  ghost function FramesOf(states: seq<StateData>): seq<StateData> {
    if states == [] then [] else FramesOf(states[..|states| - 1]) + Repeated(states[|states| - 1])
  }

  ghost function Repeated(st: StateData): seq<StateData> {
    seq(if st.duration < 0 then 0 else st.duration, _ => st)
  }

  ghost function WindowFrames(models: seq<ModelData>): seq<StateData> {
    if models == [] then [] else WindowFrames(models[..|models| - 1]) + FramesOf(models[|models| - 1].states)
  }

  lemma {:induction false} FramesCount(states: seq<StateData>)
    requires Nonnegative(Durations(states))
    ensures |FramesOf(states)| == Sum(Durations(states))
  {
    if states != [] {
      var n := |states| - 1;
      assert Durations(states)[n] == states[n].duration;
      assert Durations(states[..n]) == Durations(states)[..n];
      FramesCount(states[..n]);
      SumLast(Durations(states[..n]), states[n].duration);
      assert Durations(states) == Durations(states[..n]) + [states[n].duration];
    }
  }

  lemma {:induction false} FramesGrow(states: seq<StateData>, k: nat)
    requires k <= |states|
    ensures FramesOf(states[..k]) <= FramesOf(states)
    decreases |states|
  {
    if k < |states| {
      var n := |states| - 1;
      assert states[..n][..k] == states[..k];
      FramesGrow(states[..n], k);
    } else {
      assert states[..k] == states;
    }
  }

  /** One more state. */
  lemma FramesStep(states: seq<StateData>, k: nat)
    requires k < |states|
    ensures FramesOf(states[..k + 1]) == FramesOf(states[..k]) + Repeated(states[k])
  {
    assert states[..k + 1][..k] == states[..k];
  }

  ghost function Totals(models: seq<ModelData>): seq<int> {
    seq(|models|, w requires 0 <= w < |models| => models[w].duration)
  }

  lemma WindowStep(models: seq<ModelData>, w: nat)
    requires w < |models|
    ensures WindowFrames(models[..w + 1]) == WindowFrames(models[..w]) + FramesOf(models[w].states)
  {
    assert models[..w + 1][..w] == models[..w];
  }

  /** The recorded totals count the frames. */
  lemma {:induction false} WindowCount(models: seq<ModelData>)
    requires forall w :: 0 <= w < |models| ==> Capped(models[w])
    ensures |WindowFrames(models)| == Sum(Totals(models))
  {
    if models != [] {
      var n := |models| - 1;
      WindowCount(models[..n]);
      FramesCount(models[n].states);
      assert Totals(models[..n]) == Totals(models)[..n];
      SumLast(Totals(models[..n]), models[n].duration);
      assert Totals(models) == Totals(models[..n]) + [models[n].duration];
    }
  }

  /** Every frame of a full window of capped models has its place in the frame memory. */
  lemma FramesFit(models: seq<ModelData>)
    requires |models| <= NUM_BACKUP + NUM_LOOKUP + 1
    requires forall w :: 0 <= w < |models| ==> Capped(models[w])
    ensures |WindowFrames(models)| < MAX_FRAMES
  {
    WindowCount(models);
    forall w | 0 <= w < |models|
      ensures 0 <= models[w].duration
    {
      FramesCount(models[w].states);
    }
    WindowFits(Totals(models));
  }

  lemma {:induction false} WindowGrows(models: seq<ModelData>, w: nat)
    requires w <= |models|
    ensures WindowFrames(models[..w]) <= WindowFrames(models)
    decreases |models|
  {
    if w < |models| {
      var n := |models| - 1;
      assert models[..n][..w] == models[..w];
      WindowGrows(models[..n], w);
    } else {
      assert models[..w] == models;
    }
  }

  // ----- voicing -----

  function Voiced(st: StateData, threshold: real): bool {
    st.msdFlag > threshold
  }

  /** How many of the frames are voiced. */
  ghost function Rank(frames: seq<StateData>, threshold: real): nat {
    if frames == [] then 0
    else Rank(frames[..|frames| - 1], threshold) + if Voiced(frames[|frames| - 1], threshold) then 1 else 0
  }

  lemma RankStep(frames: seq<StateData>, st: StateData, threshold: real)
    ensures Rank(frames + [st], threshold) == Rank(frames, threshold) + if Voiced(st, threshold) then 1 else 0
  {
    assert (frames + [st])[..|frames|] == frames;
  }

  lemma {:induction false} RankRepeated(frames: seq<StateData>, st: StateData, n: nat, threshold: real)
    ensures Rank(frames + seq(n, _ => st), threshold) == Rank(frames, threshold) + if Voiced(st, threshold) then n else 0
  {
    if n == 0 {
      assert frames + seq(0, _ => st) == frames;
    } else {
      RankRepeated(frames, st, n - 1, threshold);
      RankStep(frames + seq(n - 1, _ => st), st, threshold);
      assert frames + seq(n, _ => st) == frames + seq(n - 1, _ => st) + [st];
    }
  }

  lemma {:induction false} RankBounds(frames: seq<StateData>, threshold: real, t: nat)
    requires t <= |frames|
    ensures Rank(frames[..t], threshold) <= Rank(frames, threshold)
    ensures Rank(frames[..t], threshold) <= t
    ensures t < |frames| && Voiced(frames[t], threshold) ==> Rank(frames[..t], threshold) < Rank(frames, threshold)
    decreases |frames|
  {
    if t == |frames| {
      assert frames[..t] == frames;
      if t > 0 {
        RankBounds(frames[..t - 1], threshold, t - 1);
        assert frames[..t - 1][..t - 1] == frames[..t - 1];
      }
    } else {
      var n := |frames| - 1;
      assert frames[..n][..t] == frames[..t];
      RankBounds(frames[..n], threshold, t);
    }
  }

  /** Where the statistics and results of frame t are kept: compacted to voiced frames, or not. */
  ghost function PlaceOf(frames: seq<StateData>, threshold: real, compact: bool, t: nat): nat
    requires t <= |frames|
  {
    if compact then Rank(frames[..t], threshold) else t
  }

  /** Frames that have a place. */
  ghost predicate Kept(frames: seq<StateData>, threshold: real, compact: bool, t: nat)
    requires t < |frames|
  {
    compact ==> Voiced(frames[t], threshold)
  }

  /** Different frames have different places, in the same order. */
  lemma PlacesApart(frames: seq<StateData>, threshold: real, compact: bool, t: nat, u: nat)
    requires t < u < |frames| && Kept(frames, threshold, compact, t)
    ensures PlaceOf(frames, threshold, compact, t) < PlaceOf(frames, threshold, compact, u)
  {
    assert frames[..u][..t] == frames[..t];
    RankBounds(frames[..u], threshold, t);
  }

  /** The places in use are the first ones, as many as there are kept frames, with no gap. */
  lemma {:induction false} PlacesFull(frames: seq<StateData>, threshold: real, compact: bool, x: nat) returns (t: nat)
    requires x < PlaceOf(frames, threshold, compact, |frames|)
    ensures t < |frames| && Kept(frames, threshold, compact, t) && PlaceOf(frames, threshold, compact, t) == x
    decreases |frames|
  {
    if !compact {
      t := x;
    } else {
      var n := |frames| - 1;
      assert frames[..|frames|] == frames && frames[..n][..n] == frames[..n];
      if Rank(frames[..n], threshold) == x {
        t := n;
      } else {
        t := PlacesFull(frames[..n], threshold, compact, x);
        assert frames[..n][..t] == frames[..t];
      }
    }
  }

  lemma {:induction false} RankIsCount(frames: seq<StateData>, threshold: real)
    ensures Rank(frames, threshold) == |frames| <==> forall u :: 0 <= u < |frames| ==> Voiced(frames[u], threshold)
  {
    if frames != [] {
      var n := |frames| - 1;
      RankIsCount(frames[..n], threshold);
      RankBounds(frames[..n], threshold, n);
      assert frames[..n][..n] == frames[..n];
      if Rank(frames[..n], threshold) == n {
        forall u | 0 <= u < n
          ensures Voiced(frames[u], threshold)
        {
          assert frames[..n][u] == frames[u];
        }
      } else {
        var u :| 0 <= u < n && !Voiced(frames[..n][u], threshold);
        assert !Voiced(frames[u], threshold);
      }
    }
  }

  /** Equal places, for a stream that is compacted on one side only: no unvoiced frame has come before. */
  lemma SamePlaceIff(frames: seq<StateData>, threshold: real, written: bool, read: bool, t: nat)
    requires t <= |frames|
    ensures PlaceOf(frames, threshold, read, t) == PlaceOf(frames, threshold, written, t)
            <==> read == written || VoicedUpTo(frames, threshold, t)
  {
    RankIsCount(frames[..t], threshold);
    RankBounds(frames[..t], threshold, t);
    assert frames[..t][..t] == frames[..t];
    if Rank(frames[..t], threshold) == t {
      forall u | 0 <= u < t
        ensures Voiced(frames[u], threshold)
      {
        assert frames[..t][u] == frames[u];
      }
    } else {
      var u :| 0 <= u < t && !Voiced(frames[..t][u], threshold);
      assert !Voiced(frames[u], threshold);
    }
  }

  ghost predicate VoicedUpTo(frames: seq<StateData>, threshold: real, t: nat)
    requires t <= |frames|
  {
    forall u :: 0 <= u < t ==> Voiced(frames[u], threshold)
  }

  /** What is read for frame t are its own results: its statistics were written at all, and to the
      place that is read. */
  ghost predicate ReadBack(frames: seq<StateData>, threshold: real, written: bool, read: bool, t: nat)
    requires t < |frames|
  {
    Kept(frames, threshold, written, t) && PlaceOf(frames, threshold, read, t) == PlaceOf(frames, threshold, written, t)
  }

  /** If both sides agree on whether the stream is compacted, every frame that is kept is read back. If
      it is read compacted only, a frame is as long as none before it is unvoiced; if it is written
      compacted only, as long as none up to it is. */
  lemma PlacesAgreeIff(frames: seq<StateData>, threshold: real, written: bool, read: bool, t: nat)
    requires t < |frames|
    ensures ReadBack(frames, threshold, written, read, t)
            <==> if written == read then Kept(frames, threshold, written, t)
                 else VoicedUpTo(frames, threshold, if written then t + 1 else t)
  {
    SamePlaceIff(frames, threshold, written, read, t);
  }

  /** No voiced frame comes after an unvoiced one. */
  ghost predicate VoicedFirst(frames: seq<StateData>, threshold: real) {
    forall u, t :: 0 <= u < t < |frames| && Voiced(frames[t], threshold) ==> Voiced(frames[u], threshold)
  }

  /** Every frame that is read at all gets its own results exactly if the sides agree; or, written
      compacted only, if all frames are voiced; or, read compacted only, if the voiced ones come first. */
  lemma AllReadBackIff(frames: seq<StateData>, threshold: real, written: bool, read: bool)
    ensures (forall t: nat {:trigger ReadBack(frames, threshold, written, read, t)} ::
               t < |frames| && Kept(frames, threshold, read, t) ==> ReadBack(frames, threshold, written, read, t))
            <==> written == read
                 || (if written then VoicedUpTo(frames, threshold, |frames|) else VoicedFirst(frames, threshold))
  {
    var all := if written then VoicedUpTo(frames, threshold, |frames|) else VoicedFirst(frames, threshold);
    if written == read || all {
      forall t: nat | t < |frames| && Kept(frames, threshold, read, t)
        ensures ReadBack(frames, threshold, written, read, t)
      {
        PlacesAgreeIff(frames, threshold, written, read, t);
      }
    } else {
      var t := NotReadBack(frames, threshold, written);
      assert !ReadBack(frames, threshold, written, read, t);
    }
  }

  lemma NotReadBack(frames: seq<StateData>, threshold: real, written: bool) returns (t: nat)
    requires if written then !VoicedUpTo(frames, threshold, |frames|) else !VoicedFirst(frames, threshold)
    ensures t < |frames| && Kept(frames, threshold, !written, t) && !ReadBack(frames, threshold, written, !written, t)
  {
    if written {
      t :| t < |frames| && !Voiced(frames[t], threshold);
      PlacesAgreeIff(frames, threshold, written, !written, t);
    } else {
      var u: nat;
      u, t :| u < t < |frames| && Voiced(frames[t], threshold) && !Voiced(frames[u], threshold);
      PlacesAgreeIff(frames, threshold, written, !written, t);
    }
  }

  /** Where the two sides disagree: a stream that is written compacted but read plainly. No unvoiced
      frame comes before the first and its places are equal, but nothing of it was written: the slot
      holds the second frame's results. */
  lemma PlacesUnwritten(st: StateData, threshold: real)
    requires !Voiced(st, threshold)
    ensures var frames := [st, st.(msdFlag := threshold + 1.0)];
            && PlaceOf(frames, threshold, false, 0) == PlaceOf(frames, threshold, true, 0) == 0
            && Kept(frames, threshold, true, 1) && PlaceOf(frames, threshold, true, 1) == 0
            && Kept(frames, threshold, false, 0) && !ReadBack(frames, threshold, true, false, 0)
  {
    PlacesDisagree(st, threshold);
  }

  /** And: an unvoiced frame before a voiced one, of a stream that is read
      compacted but was written plainly. */
  lemma PlacesDisagree(st: StateData, threshold: real)
    requires !Voiced(st, threshold)
    ensures var frames := [st, st.(msdFlag := threshold + 1.0)];
            Voiced(frames[1], threshold) && PlaceOf(frames, threshold, true, 1) == 0 && PlaceOf(frames, threshold, false, 1) == 1
  {
    var frames := [st, st.(msdFlag := threshold + 1.0)];
    assert frames[..1] == [st] && [st][..0] == [];
    RankStep([], st, threshold);
    assert [] + [st] == [st];
  }
}
