/** A window of models from statistics to frames: marking, gathering and solving every stream, and
    reading the frames of the newest model. */
module WindowSynthesis {
  import opened Gram
  import opened GlobalVariance
  import opened LeastSquares
  import opened ParameterStream
  import opened NormalEquations
  import opened StateDurations
  import opened ModelDurations
  import opened FrameWindow
  import opened ModelQueues

  /** The memory kept for one stream: statistics, work arrays and results. */
  datatype StreamMemory = StreamMemory(mean: array2<real>, ivar: array2<real>, wuw: array2<real>, wum: array<real>,
                                       g: array<real>, par: array2<real>)

  /** One stream's place in the voice: its features, the width of its band, and its variance model
      with whether it is used. */
  datatype StreamSetup = StreamSetup(info: StreamInfo, width: nat, useGv: bool, gvMean: seq<real>, gvVari: seq<real>)

  ghost predicate MemoryFits(memory: StreamMemory, setup: StreamSetup) {
    && memory.wum != memory.g && memory.mean != memory.ivar
    && memory.wuw != memory.par && memory.wuw != memory.mean && memory.wuw != memory.ivar
    && memory.par != memory.mean && memory.par != memory.ivar
    && MAX_FRAMES <= memory.mean.Length0 && MAX_FRAMES <= memory.ivar.Length0 && MAX_FRAMES <= memory.wuw.Length0
    && MAX_FRAMES <= memory.wum.Length && MAX_FRAMES <= memory.g.Length && MAX_FRAMES <= memory.par.Length0
    && Columns(setup.info) <= memory.mean.Length1 && Columns(setup.info) <= memory.ivar.Length1
    && Columns(setup.info) <= memory.par.Length1 && 0 < memory.par.Length1
    && setup.width <= memory.wuw.Length1
  }

  ghost predicate SetupOk(setup: StreamSetup) {
    && |setup.info.windows| > 0 && StaticWindow(setup.info.windows[0])
    && (forall k :: 0 <= k < |setup.info.windows| ==>
          setup.info.windows[k].Valid() && 2 * setup.info.windows[k].radius < setup.width)
    && setup.info.staticLength <= |setup.gvMean| && setup.info.staticLength <= |setup.gvVari|
  }

  ghost predicate StreamReady(memory: StreamMemory, setup: StreamSetup, i: nat, frames: seq<StateData>, threshold: real,
                              limits: Limits, tuning: Tuning)
    requires limits.Valid()
  {
    && MemoryFits(memory, setup) && SetupOk(setup)
    && (forall t :: 0 <= t < |frames| ==> Shaped(frames[t], i, setup.info))
    && Variances(frames, limits, setup.info, i)
    && (setup.useGv ==> Curved(frames, threshold, limits, setup.info, i, tuning, setup.gvMean, setup.gvVari))
  }

  /** The results of one stream are in no other stream's memory. */
  ghost predicate Apart(a: StreamMemory, b: StreamMemory) {
    && a.par != b.par && a.par != b.mean && a.par != b.ivar && a.par != b.wuw
    && b.par != a.mean && b.par != a.ivar && b.par != a.wuw
  }

  ghost predicate AllApart(memory: seq<StreamMemory>) {
    forall i, j :: 0 <= i < j < |memory| ==> Apart(memory[i], memory[j])
  }

  ghost function Footprint(memory: seq<StreamMemory>): set<object> {
    (set i | 0 <= i < |memory| :: memory[i].mean as object) + (set i | 0 <= i < |memory| :: memory[i].ivar as object)
    + (set i | 0 <= i < |memory| :: memory[i].wuw as object) + (set i | 0 <= i < |memory| :: memory[i].wum as object)
    + (set i | 0 <= i < |memory| :: memory[i].g as object) + (set i | 0 <= i < |memory| :: memory[i].par as object)
  }

  /** The optimal trajectories of a stream: for each feature, of the problem that the window poses. */
  ghost predicate Trajectories(tracks: seq<Vector>, frames: seq<StateData>, threshold: real, limits: Limits,
                               info: StreamInfo, i: nat)
    requires limits.Valid() && forall t :: 0 <= t < |frames| ==> Shaped(frames[t], i, info)
  {
    && |tracks| == info.staticLength
    && forall m: nat {:trigger tracks[m]} :: m < info.staticLength ==> BestFor(tracks[m], frames, threshold, limits, info, i, m)
  }

  /** No trajectory has a smaller weighted error from the statistics of the window's frames. */
  ghost predicate BestFor(track: Vector, frames: seq<StateData>, threshold: real, limits: Limits, info: StreamInfo,
                          i: nat, m: nat)
    requires limits.Valid() && m < info.staticLength && forall t :: 0 <= t < |frames| ==> Shaped(frames[t], i, info)
  {
    exists p: Problem :: p.Valid() && Describes(p, frames, threshold, limits, info, i, m) && Solves(p, track) && Optimal(p, track)
  }

  /** The results of a stream are these trajectories. */
  ghost predicate Holds(par: array2<real>, tracks: seq<Vector>, frames: seq<StateData>, threshold: real, info: StreamInfo)
    reads par
  {
    var length := PlaceOf(frames, threshold, info.msd, |frames|);
    && length <= par.Length0 && |tracks| <= par.Length1
    && forall m: nat, x: nat :: m < |tracks| && x < length ==> tracks[m](x) == par[x, m]
  }

  /** One stream. */
  method SynthesizeStream(rawData: seq<ModelData>, read: nat, window: nat, memory: StreamMemory, voiced: array<bool>, total: nat,
                          setup: StreamSetup, i: nat, limits: Limits, ghost threshold: real, tuning: Tuning)
      returns (ghost tracks: seq<Vector>)
    requires |rawData| > 0 && read < |rawData| && limits.Valid()
    requires var frames := WindowFrames(WindowOf(rawData, read, window));
             && StreamReady(memory, setup, i, frames, threshold, limits, tuning)
             && total == |frames| < MAX_FRAMES && Marked(voiced, frames, threshold, total)
    modifies memory.mean, memory.ivar, memory.wuw, memory.wum, memory.g, memory.par
    ensures var frames := WindowFrames(WindowOf(rawData, read, window));
            && Trajectories(tracks, frames, threshold, limits, setup.info, i)
            && Holds(memory.par, tracks, frames, threshold, setup.info)
  {
    hide Marked, WindowFrames, Variances, Describes, PlaceOf, WindowOf, StaticWindow, Solves, Optimal, Shaped;
    ghost var frames := WindowFrames(WindowOf(rawData, read, window));
    StaticFits(setup.info);
    var length, problems :=
      OptimizeStream(rawData, read, window, memory.mean, memory.ivar, voiced, total, setup.info, i, limits, threshold,
                     setup.width, tuning, setup.useGv, setup.gvMean, setup.gvVari, memory.wuw, memory.wum, memory.g, memory.par);
    tracks := ColumnsOf(memory.par, length, setup.info.staticLength);
    forall m: nat | m < setup.info.staticLength
      ensures BestFor(tracks[m], frames, threshold, limits, setup.info, i, m)
    {
      assert tracks[m] == ColumnOf(memory.par, length, m);
      assert problems[m].Valid() && Describes(problems[m], frames, threshold, limits, setup.info, i, m);
    }
  }

  ghost function ColumnsOf(par: array2<real>, length: nat, n: nat): (s: seq<Vector>)
    reads par
    requires length <= par.Length0 && n <= par.Length1
    ensures |s| == n && forall m: nat :: m < n ==> s[m] == ColumnOf(par, length, m)
  {
    seq(n, m requires 0 <= m < n <= par.Length1 && length <= par.Length0 reads par => ColumnOf(par, length, m))
  }

  lemma StaticFits(info: StreamInfo)
    requires |info.windows| > 0
    ensures info.staticLength <= Columns(info)
  {
    assert info.staticLength * 1 <= info.staticLength * |info.windows|;
  }

  /** What stream i of frame t must be: the values of its trajectories at the place of that frame,
      wherever its statistics have a place and are read back from it. */
  ghost predicate StreamFrom(values: seq<real>, voiced: bool, tracks: seq<Vector>, frames: seq<StateData>, threshold: real,
                             msd: bool, isPitch: bool, curve: real -> real, t: nat)
    requires t < |frames|
  {
    && (isPitch && !voiced ==> values == [0.0])
    && (ReadBack(frames, threshold, msd, isPitch, t) ==>
          var x := PlaceOf(frames, threshold, msd, t);
          if isPitch then voiced && tracks != [] ==> values == [curve(tracks[0](x))]
          else forall m: nat :: m < |tracks| ==> m < |values| && values[m] == tracks[m](x))
  }

  /** What frame t of the window must be. */
  ghost predicate FrameFrom(f: Frame, tracks: seq<seq<Vector>>, frames: seq<StateData>, threshold: real,
                            setups: seq<StreamSetup>, pitch: nat, curve: real -> real, t: nat)
    requires t < |frames| && |tracks| == |setups|
  {
    && f.voiced == Voiced(frames[t], threshold) && |f.streams| == |setups|
    && forall i: nat {:trigger f.streams[i]} :: i < |setups| ==>
         StreamFrom(f.streams[i], f.voiced, tracks[i], frames, threshold, setups[i].info.msd, i == pitch, curve, t)
  }

  function ResultsOf(memory: seq<StreamMemory>): (par: seq<array2<real>>)
    ensures |par| == |memory| && forall i :: 0 <= i < |par| ==> par[i] == memory[i].par
  {
    seq(|memory|, i requires 0 <= i < |memory| => memory[i].par)
  }

  function LengthsOf(setups: seq<StreamSetup>): (lengths: seq<nat>)
    ensures |lengths| == |setups| && forall i :: 0 <= i < |lengths| ==> lengths[i] == Columns(setups[i].info)
  {
    seq(|setups|, i requires 0 <= i < |setups| => Columns(setups[i].info))
  }

  /** The results of every stream are its trajectories. */
  ghost predicate AllHold(memory: seq<StreamMemory>, tracks: seq<seq<Vector>>, setups: seq<StreamSetup>, frames: seq<StateData>,
                          threshold: real)
    reads set i | 0 <= i < |memory| :: memory[i].par
  {
    && |memory| == |setups| == |tracks|
    && forall i: nat {:trigger tracks[i]} :: i < |setups| ==>
         && |setups[i].info.windows| > 0 && |tracks[i]| == setups[i].info.staticLength
         && Holds(memory[i].par, tracks[i], frames, threshold, setups[i].info)
  }

  /** A frame read from results that hold the trajectories is made of them. */
  lemma FrameIsFrom(f: Frame, memory: seq<StreamMemory>, tracks: seq<seq<Vector>>, frames: seq<StateData>, threshold: real,
                    setups: seq<StreamSetup>, pitch: nat, curve: real -> real, t: nat)
    requires |memory| == |setups| == |tracks| && t < |frames| < MAX_FRAMES
    requires Results(ResultsOf(memory), LengthsOf(setups))
    requires FrameOk(f, ResultsOf(memory), LengthsOf(setups), pitch, curve, frames, threshold, t)
    requires AllHold(memory, tracks, setups, frames, threshold)
    ensures FrameFrom(f, tracks, frames, threshold, setups, pitch, curve, t)
  {
    forall i: nat | i < |setups|
      ensures StreamFrom(f.streams[i], f.voiced, tracks[i], frames, threshold, setups[i].info.msd, i == pitch, curve, t)
    {
      hide FrameOk, PlaceOf;
      assert StreamOk(f, ResultsOf(memory), LengthsOf(setups), pitch, curve, frames, threshold, t, i) by {
        FrameStream(f, ResultsOf(memory), LengthsOf(setups), pitch, curve, frames, threshold, t, i);
      }
      var msd := setups[i].info.msd;
      SamePlaceIff(frames, threshold, msd, i == pitch, t);
      StaticFits(setups[i].info);
      if Kept(frames, threshold, msd, t) {
        PlaceInside(frames, threshold, msd, t);
      }
    }
  }

  lemma FrameStream(f: Frame, par: seq<array2<real>>, lengths: seq<nat>, pitch: nat, curve: real -> real,
                    frames: seq<StateData>, threshold: real, t: nat, i: nat)
    requires Results(par, lengths) && |frames| < MAX_FRAMES && t < |frames| && i < |par|
    requires FrameOk(f, par, lengths, pitch, curve, frames, threshold, t)
    ensures |f.streams| == |par| && StreamOk(f, par, lengths, pitch, curve, frames, threshold, t, i)
  {
  }

  ghost predicate AllReady(memory: seq<StreamMemory>, setups: seq<StreamSetup>, frames: seq<StateData>, threshold: real,
                           limits: Limits, tuning: Tuning)
    requires limits.Valid()
  {
    && |memory| == |setups| && AllApart(memory)
    && forall i: nat {:trigger setups[i]} :: i < |setups| ==> StreamReady(memory[i], setups[i], i, frames, threshold, limits, tuning)
  }

  /** The first streams are solved. */
  ghost predicate Solved(memory: seq<StreamMemory>, tracks: seq<seq<Vector>>, setups: seq<StreamSetup>, frames: seq<StateData>,
                         threshold: real, limits: Limits, tuning: Tuning)
    reads Footprint(memory)
    requires limits.Valid() && AllReady(memory, setups, frames, threshold, limits, tuning) && |tracks| <= |setups|
  {
    forall i: nat {:trigger tracks[i]} :: i < |tracks| ==>
      && StreamReady(memory[i], setups[i], i, frames, threshold, limits, tuning)
      && Trajectories(tracks[i], frames, threshold, limits, setups[i].info, i)
      && Holds(memory[i].par, tracks[i], frames, threshold, setups[i].info)
  }

  lemma InFootprint(memory: seq<StreamMemory>, i: nat)
    requires i < |memory|
    ensures {memory[i].mean, memory[i].ivar, memory[i].wuw, memory[i].wum, memory[i].g, memory[i].par} <= Footprint(memory)
  {
  }

  lemma SolvedMore(memory: seq<StreamMemory>, i: nat, tracks: seq<seq<Vector>>, now: seq<Vector>,
                   setups: seq<StreamSetup>, frames: seq<StateData>, threshold: real, limits: Limits, tuning: Tuning)
    requires limits.Valid() && AllReady(memory, setups, frames, threshold, limits, tuning) && |tracks| == i < |setups|
    requires forall j: nat {:trigger tracks[j]} :: j < i ==>
               && StreamReady(memory[j], setups[j], j, frames, threshold, limits, tuning)
               && Trajectories(tracks[j], frames, threshold, limits, setups[j].info, j)
               && Holds(memory[j].par, tracks[j], frames, threshold, setups[j].info)
    requires StreamReady(memory[i], setups[i], i, frames, threshold, limits, tuning)
    requires Trajectories(now, frames, threshold, limits, setups[i].info, i)
    requires Holds(memory[i].par, now, frames, threshold, setups[i].info)
    ensures Solved(memory, tracks + [now], setups, frames, threshold, limits, tuning)
  {
    hide Trajectories, Footprint, Holds;
    var tracks' := tracks + [now];
    assert forall j: nat {:trigger tracks'[j]} :: j < i ==> tracks'[j] == tracks[j];
  }

  /** One stream more; it leaves the results of those before it alone. */
  method NextStream(rawData: seq<ModelData>, read: nat, window: nat, memory: seq<StreamMemory>, voiced: array<bool>,
                    total: nat, setups: seq<StreamSetup>, i: nat, limits: Limits, ghost threshold: real, tuning: Tuning,
                    ghost tracks: seq<seq<Vector>>) returns (ghost now: seq<Vector>)
    requires |rawData| > 0 && read < |rawData| && limits.Valid() && |tracks| == i < |setups|
    requires var frames := WindowFrames(WindowOf(rawData, read, window));
             && AllReady(memory, setups, frames, threshold, limits, tuning)
             && total == |frames| < MAX_FRAMES && Marked(voiced, frames, threshold, total)
             && Solved(memory, tracks, setups, frames, threshold, limits, tuning)
    modifies Footprint(memory)
    ensures Solved(memory, tracks + [now], setups, WindowFrames(WindowOf(rawData, read, window)), threshold, limits, tuning)
    ensures Marked(voiced, WindowFrames(WindowOf(rawData, read, window)), threshold, total)
  {
    hide Marked, WindowFrames, WindowOf, StreamReady, Trajectories, Holds, Footprint;
    ghost var frames := WindowFrames(WindowOf(rawData, read, window));
    assert StreamReady(memory[i], setups[i], i, frames, threshold, limits, tuning);
    InFootprint(memory, i);
    label before:
    now := SynthesizeStream(rawData, read, window, memory[i], voiced, total, setups[i], i, limits, threshold, tuning);
    forall j: nat | j < i
      ensures Holds(memory[j].par, tracks[j], frames, threshold, setups[j].info)
    {
      assert Apart(memory[j], memory[i]);
      assert old@before(Holds(memory[j].par, tracks[j], frames, threshold, setups[j].info));
    }
    SolvedMore(memory, i, tracks, now, setups, frames, threshold, limits, tuning);
  }

  /** Every stream in turn. */
  method SynthesizeStreams(rawData: seq<ModelData>, read: nat, window: nat, memory: seq<StreamMemory>, voiced: array<bool>,
                           total: nat, setups: seq<StreamSetup>, limits: Limits, ghost threshold: real, tuning: Tuning)
      returns (ghost tracks: seq<seq<Vector>>)
    requires |rawData| > 0 && read < |rawData| && limits.Valid()
    requires var frames := WindowFrames(WindowOf(rawData, read, window));
             && AllReady(memory, setups, frames, threshold, limits, tuning)
             && total == |frames| < MAX_FRAMES && Marked(voiced, frames, threshold, total)
    modifies Footprint(memory)
    ensures var frames := WindowFrames(WindowOf(rawData, read, window));
            |tracks| == |setups| && Solved(memory, tracks, setups, frames, threshold, limits, tuning)
  {
    hide Marked, WindowFrames, WindowOf, StreamReady, Footprint, AllReady;
    ghost var frames := WindowFrames(WindowOf(rawData, read, window));
    tracks := [];
    var i := 0;
    while i < |setups|
      invariant i <= |setups| && |tracks| == i
      invariant Marked(voiced, frames, threshold, total)
      invariant Solved(memory, tracks, setups, frames, threshold, limits, tuning)
    {
      ghost var now := NextStream(rawData, read, window, memory, voiced, total, setups, i, limits, threshold, tuning, tracks);
      tracks := tracks + [now];
      i := i + 1;
    }
  }

  /** A window of models, from statistics to frames: every frame of the newest model is made of the
      trajectories that fit the statistics of the whole window best, at that frame's own place. */
  method Synthesize(rawData: seq<ModelData>, read: nat, backup: nat, memory: seq<StreamMemory>, voiced: array<bool>,
                    setups: seq<StreamSetup>, limits: Limits, threshold: real, tuning: Tuning, pitch: nat, curve: real -> real)
      returns (output: seq<Frame>, ghost tracks: seq<seq<Vector>>)
    requires |rawData| > 0 && read < |rawData| && backup <= NUM_BACKUP && limits.Valid() && pitch < |setups|
    requires WindowCapped(rawData, read, backup + 1) && voiced.Length >= MAX_FRAMES
    requires AllReady(memory, setups, WindowFrames(WindowOf(rawData, read, backup + 1)), threshold, limits, tuning)
    modifies voiced, Footprint(memory)
    ensures var frames := WindowFrames(WindowOf(rawData, read, backup + 1));
            && |output| <= |frames| && |frames| - |output| == |WindowFrames(WindowOf(rawData, read, backup))|
            && |tracks| == |setups|
            && (forall i: nat {:trigger tracks[i]} :: i < |setups| ==>
                  && StreamReady(memory[i], setups[i], i, frames, threshold, limits, tuning)
                  && Trajectories(tracks[i], frames, threshold, limits, setups[i].info, i))
            && forall q: nat {:trigger output[q]} :: q < |output| ==>
                 FrameFrom(output[q], tracks, frames, threshold, setups, pitch, curve, |frames| - |output| + q)
  {
    hide Marked, WindowFrames, WindowOf, StreamReady, Trajectories, FrameOk, FrameFrom, WindowCapped, AllHold, Footprint;
    ghost var frames := WindowFrames(WindowOf(rawData, read, backup + 1));
    var total := MarkWindow(rawData, read, backup + 1, voiced, threshold);
    tracks := SynthesizeStreams(rawData, read, backup + 1, memory, voiced, total, setups, limits, threshold, tuning);
    ReadyResults(memory, setups, frames, threshold, limits, tuning);
    SolvedHolds(memory, tracks, setups, frames, threshold, limits, tuning);
    label solved:
    output := Generate(rawData, read, backup, ResultsOf(memory), LengthsOf(setups), pitch, curve, threshold);
    assert old@solved(AllHold(memory, tracks, setups, frames, threshold));
    ghost var start: nat := |frames| - |output|;
    assert forall q: nat :: q < |output| ==>
      FrameOk(output[q], ResultsOf(memory), LengthsOf(setups), pitch, curve, frames, threshold, start + q);
    FramesAreFrom(output, start, memory, tracks, frames, threshold, setups, pitch, curve);
  }

  lemma FramesAreFrom(output: seq<Frame>, start: nat, memory: seq<StreamMemory>, tracks: seq<seq<Vector>>,
                      frames: seq<StateData>, threshold: real, setups: seq<StreamSetup>, pitch: nat, curve: real -> real)
    requires |memory| == |setups| == |tracks| && start + |output| == |frames| < MAX_FRAMES
    requires Results(ResultsOf(memory), LengthsOf(setups))
    requires forall q: nat :: q < |output| ==>
               FrameOk(output[q], ResultsOf(memory), LengthsOf(setups), pitch, curve, frames, threshold, start + q)
    requires AllHold(memory, tracks, setups, frames, threshold)
    ensures forall q: nat {:trigger output[q]} :: q < |output| ==>
              FrameFrom(output[q], tracks, frames, threshold, setups, pitch, curve, start + q)
  {
    hide FrameOk, FrameFrom, AllHold, Results;
    forall q: nat | q < |output|
      ensures FrameFrom(output[q], tracks, frames, threshold, setups, pitch, curve, start + q)
    {
      FrameIsFrom(output[q], memory, tracks, frames, threshold, setups, pitch, curve, start + q);
    }
  }

  lemma ReadyResults(memory: seq<StreamMemory>, setups: seq<StreamSetup>, frames: seq<StateData>, threshold: real,
                     limits: Limits, tuning: Tuning)
    requires limits.Valid() && AllReady(memory, setups, frames, threshold, limits, tuning)
    ensures Results(ResultsOf(memory), LengthsOf(setups))
  {
    forall i: nat | i < |setups|
      ensures MemoryFits(memory[i], setups[i])
    {
      assert StreamReady(memory[i], setups[i], i, frames, threshold, limits, tuning);
    }
  }

  lemma SolvedHolds(memory: seq<StreamMemory>, tracks: seq<seq<Vector>>, setups: seq<StreamSetup>, frames: seq<StateData>,
                    threshold: real, limits: Limits, tuning: Tuning)
    requires limits.Valid() && AllReady(memory, setups, frames, threshold, limits, tuning) && |tracks| == |setups|
    requires Solved(memory, tracks, setups, frames, threshold, limits, tuning)
    ensures AllHold(memory, tracks, setups, frames, threshold)
  {
  }
}
