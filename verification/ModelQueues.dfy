/** The queue of models: gathering the statistics of a window of models into frame memory, and
    recovering each frame of the newest model from the results. */
module ModelQueues {
  import opened Bits
  import opened Rings
  import opened Gram
  import Ldl
  import opened NormalEquations
  import opened LeastSquares
  import opened GlobalVariance
  import opened ParameterStream
  import opened StateDurations
  import opened ModelDurations
  import opened FrameWindow

  /** A stream of features: whether it exists for voiced frames only, how many static features it
      has, and the windows that make the dynamic ones. */
  datatype StreamInfo = StreamInfo(msd: bool, staticLength: nat, windows: seq<Window>)

  function Columns(info: StreamInfo): nat {
    info.staticLength * |info.windows|
  }

  /** The thresholds of the inverse: constants of the HTS library. */
  datatype Limits = Limits(infty: real, infty2: real, invinf2: real) {
    predicate Valid() {
      0.0 < invinf2 < infty2 && infty > 0.0
    }
  }

  function Finv(limits: Limits, x: real): real
    requires limits.Valid()
  {
    if x >= limits.infty2 then 0.0
    else if x <= -limits.infty2 then 0.0
    else if x <= limits.invinf2 && x >= 0.0 then limits.infty
    else if x >= -limits.invinf2 && x < 0.0 then -limits.infty
    else 1.0 / x
  }

  /** w is the weight for a variance x: together they make 1, but for variances beyond the thresholds. */
  ghost predicate InverseOf(limits: Limits, x: real, w: real) {
    if x >= limits.infty2 || x <= -limits.infty2 then w == 0.0
    else if 0.0 <= x <= limits.invinf2 then w == limits.infty
    else if -limits.invinf2 <= x < 0.0 then w == -limits.infty
    else x * w == 1.0
  }

  lemma FinvInverts(limits: Limits, x: real)
    requires limits.Valid()
    ensures InverseOf(limits, x, Finv(limits, x))
  {
  }

  lemma PositiveFactor(x: real, w: real)
    requires x > 0.0 && x * w == 1.0
    ensures w > 0.0
  {
    assert w == 1.0 / x;
  }

  /** Variances below the threshold have positive inverses, others a zero one. */
  lemma InverseSign(limits: Limits, x: real, w: real)
    requires limits.Valid() && x >= 0.0 && InverseOf(limits, x, w)
    ensures w >= 0.0 && (w > 0.0 <==> x < limits.infty2)
  {
    if limits.invinf2 < x < limits.infty2 {
      PositiveFactor(x, w);
    }
  }

  /** Frame t + l exists, and is voiced where that matters. */
  ghost predicate Reaches(frames: seq<StateData>, threshold: real, msd: bool, t: int, l: int) {
    0 <= t + l < |frames| && (msd ==> Voiced(frames[t + l], threshold))
  }

  /** Window k centred at frame t stays within the frames it may use. */
  ghost predicate NotBound(frames: seq<StateData>, threshold: real, info: StreamInfo, t: nat, k: nat)
    requires k < |info.windows|
  {
    forall l :: -(info.windows[k].radius as int) <= l <= info.windows[k].radius
      ==> Reaches(frames, threshold, info.msd, t, l)
  }

  /** w is the weight of feature column k * staticLength + l at frame t: the inverse of its variance, and
      none for a dynamic feature whose window does not fit. */
  ghost predicate WeightAt(frames: seq<StateData>, threshold: real, limits: Limits, info: StreamInfo, i: nat, t: nat,
                           k: nat, l: nat, w: real)
    requires t < |frames| && k < |info.windows| && l < info.staticLength && Shaped(frames[t], i, info)
  {
    ColumnInRange(info, k, l);
    if NotBound(frames, threshold, info, t, k) || k == 0
    then InverseOf(limits, frames[t].vari[i][info.staticLength * k + l], w) else w == 0.0
  }

  lemma ColumnInRange(info: StreamInfo, k: nat, l: nat)
    requires k < |info.windows| && l < info.staticLength
    ensures info.staticLength * k + l < Columns(info)
  {
    assert info.staticLength * (k + 1) <= info.staticLength * |info.windows|;
  }

  ghost predicate Shaped(st: StateData, i: nat, info: StreamInfo) {
    && i < |st.mean| && i < |st.vari|
    && |st.mean[i]| == Columns(info) && |st.vari[i]| == Columns(info)
  }

  /** The row at x holds the statistics of frame t, complete up to a column. */
  ghost predicate RowUpTo(mean: array2<real>, ivar: array2<real>, frames: seq<StateData>, threshold: real, limits: Limits,
                          info: StreamInfo, i: nat, t: nat, x: nat, kk: nat, ll: nat)
    reads mean, ivar
    requires t < |frames| && Shaped(frames[t], i, info) && limits.Valid() && x < mean.Length0 && x < ivar.Length0
    requires Columns(info) <= mean.Length1 && Columns(info) <= ivar.Length1
  {
    forall k: nat, l: nat :: k < |info.windows| && l < info.staticLength && (k < kk || (k == kk && l < ll))
      ==> CellOk(mean, ivar, frames, threshold, limits, info, i, t, x, k, l)
  }

  ghost predicate CellOk(mean: array2<real>, ivar: array2<real>, frames: seq<StateData>, threshold: real, limits: Limits,
                         info: StreamInfo, i: nat, t: nat, x: nat, k: nat, l: nat)
    reads mean, ivar
    requires t < |frames| && Shaped(frames[t], i, info) && limits.Valid() && x < mean.Length0 && x < ivar.Length0
    requires Columns(info) <= mean.Length1 && Columns(info) <= ivar.Length1
    requires k < |info.windows| && l < info.staticLength
  {
    ColumnInRange(info, k, l);
    var m := info.staticLength * k + l;
    mean[x, m] == frames[t].mean[i][m]
    && WeightAt(frames, threshold, limits, info, i, t, k, l, ivar[x, m])
  }

  lemma ColumnsDiffer(n: nat, k: nat, l: nat, k': nat, l': nat)
    requires l < n && l' < n && (k' < k || (k' == k && l' < l))
    ensures n * k' + l' < n * k + l
  {
    if k' < k {
      assert n * (k' + 1) <= n * k;
    }
  }

  /** Whether window k fits around frame t: the search for a boundary. */
  method Fits(voiced: array<bool>, total: nat, frame: nat, info: StreamInfo, k: nat,
              ghost frames: seq<StateData>, ghost threshold: real) returns (notBound: bool)
    requires k < |info.windows| && total == |frames| <= voiced.Length
    requires forall t :: 0 <= t < total ==> voiced[t] == Voiced(frames[t], threshold)
    ensures notBound == NotBound(frames, threshold, info, frame, k)
  {
    notBound := true;
    var l := -(info.windows[k].radius as int);
    while l <= info.windows[k].radius
      invariant -(info.windows[k].radius as int) <= l <= info.windows[k].radius + 1
      invariant forall j :: -(info.windows[k].radius as int) <= j < l ==> Reaches(frames, threshold, info.msd, frame, j)
    {
      if frame + l < 0 || total <= frame + l || (info.msd && !voiced[frame + l]) {
        assert !Reaches(frames, threshold, info.msd, frame, l);
        return false;
      }
      l := l + 1;
    }
  }

  /** Writes the row of one frame. */
  method FillRow(mean: array2<real>, ivar: array2<real>, voiced: array<bool>, total: nat, frame: nat, x: nat, st: StateData,
                 info: StreamInfo, i: nat, limits: Limits, ghost frames: seq<StateData>, ghost threshold: real)
    requires mean != ivar && x < mean.Length0 && x < ivar.Length0 && limits.Valid()
    requires Columns(info) <= mean.Length1 && Columns(info) <= ivar.Length1
    requires frame < total == |frames| <= voiced.Length && st == frames[frame] && Shaped(st, i, info)
    requires forall t :: 0 <= t < total ==> voiced[t] == Voiced(frames[t], threshold)
    modifies mean, ivar
    ensures RowUpTo(mean, ivar, frames, threshold, limits, info, i, frame, x, |info.windows|, 0)
    ensures forall y, c :: 0 <= y < mean.Length0 && 0 <= c < mean.Length1 && y != x ==> mean[y, c] == old(mean[y, c])
    ensures forall y, c :: 0 <= y < ivar.Length0 && 0 <= c < ivar.Length1 && y != x ==> ivar[y, c] == old(ivar[y, c])
  {
    var k := 0;
    while k < |info.windows|
      invariant k <= |info.windows|
      invariant RowUpTo(mean, ivar, frames, threshold, limits, info, i, frame, x, k, 0)
      invariant forall y, c :: 0 <= y < mean.Length0 && 0 <= c < mean.Length1 && y != x ==> mean[y, c] == old(mean[y, c])
      invariant forall y, c :: 0 <= y < ivar.Length0 && 0 <= c < ivar.Length1 && y != x ==> ivar[y, c] == old(ivar[y, c])
    {
      var notBound := Fits(voiced, total, frame, info, k, frames, threshold);
      FillWindow(mean, ivar, frame, x, st, info, i, k, notBound, limits, frames, threshold);
      k := k + 1;
    }
  }

  method FillWindow(mean: array2<real>, ivar: array2<real>, ghost frame: nat, x: nat, st: StateData,
                    info: StreamInfo, i: nat, k: nat, notBound: bool, limits: Limits,
                    ghost frames: seq<StateData>, ghost threshold: real)
    requires mean != ivar && x < mean.Length0 && x < ivar.Length0 && limits.Valid() && k < |info.windows|
    requires Columns(info) <= mean.Length1 && Columns(info) <= ivar.Length1
    requires frame < |frames| && st == frames[frame] && Shaped(st, i, info)
    requires notBound == NotBound(frames, threshold, info, frame, k)
    requires RowUpTo(mean, ivar, frames, threshold, limits, info, i, frame, x, k, 0)
    modifies mean, ivar
    ensures RowUpTo(mean, ivar, frames, threshold, limits, info, i, frame, x, k + 1, 0)
    ensures forall y, c :: 0 <= y < mean.Length0 && 0 <= c < mean.Length1 && y != x ==> mean[y, c] == old(mean[y, c])
    ensures forall y, c :: 0 <= y < ivar.Length0 && 0 <= c < ivar.Length1 && y != x ==> ivar[y, c] == old(ivar[y, c])
  {
    hide NotBound;
    var l := 0;
    while l < info.staticLength
      invariant l <= info.staticLength
      invariant RowUpTo(mean, ivar, frames, threshold, limits, info, i, frame, x, k, l)
      invariant forall y, c :: 0 <= y < mean.Length0 && 0 <= c < mean.Length1 && y != x ==> mean[y, c] == old(mean[y, c])
      invariant forall y, c :: 0 <= y < ivar.Length0 && 0 <= c < ivar.Length1 && y != x ==> ivar[y, c] == old(ivar[y, c])
    {
      ColumnInRange(info, k, l);
      var m := info.staticLength * k + l;
      label before:
      mean[x, m] := st.mean[i][m];
      ivar[x, m] := if notBound || k == 0 then Finv(limits, st.vari[i][m]) else 0.0;
      FinvInverts(limits, st.vari[i][m]);
      forall k': nat, l': nat | k' < |info.windows| && l' < info.staticLength && (k' < k || (k' == k && l' < l + 1))
        ensures CellOk(mean, ivar, frames, threshold, limits, info, i, frame, x, k', l')
      {
        if k' != k || l' != l {
          assert old@before(CellOk(mean, ivar, frames, threshold, limits, info, i, frame, x, k', l'));
          ColumnInRange(info, k', l');
          ColumnsDiffer(info.staticLength, k, l, k', l');
        }
      }
      l := l + 1;
    }
  }

  // ----- gathering -----

  ghost predicate FullRow(mean: array2<real>, ivar: array2<real>, frames: seq<StateData>, threshold: real, limits: Limits,
                          info: StreamInfo, i: nat, t: nat)
    reads mean, ivar
    requires Memory(mean, ivar, frames, info, i) && limits.Valid() && t < |frames|
  {
    Kept(frames, threshold, info.msd, t) ==>
      var x := PlaceOf(frames, threshold, info.msd, t);
      && x < mean.Length0 && x < ivar.Length0
      && RowUpTo(mean, ivar, frames, threshold, limits, info, i, t, x, |info.windows|, 0)
  }

  /** The rows of all kept frames before the given one are complete. */
  ghost predicate Filled(mean: array2<real>, ivar: array2<real>, frames: seq<StateData>, threshold: real, limits: Limits,
                         info: StreamInfo, i: nat, upto: nat)
    reads mean, ivar
    requires Memory(mean, ivar, frames, info, i) && limits.Valid()
  {
    forall t: nat {:trigger FullRow(mean, ivar, frames, threshold, limits, info, i, t)} ::
      t < upto && t < |frames| ==> FullRow(mean, ivar, frames, threshold, limits, info, i, t)
  }

  /** The frame memory is large enough, and the statistics have the stream's shape. */
  ghost predicate Memory(mean: array2<real>, ivar: array2<real>, frames: seq<StateData>, info: StreamInfo, i: nat) {
    && mean != ivar && |frames| <= mean.Length0 && |frames| <= ivar.Length0
    && Columns(info) <= mean.Length1 && Columns(info) <= ivar.Length1
    && forall t :: 0 <= t < |frames| ==> Shaped(frames[t], i, info)
  }

  ghost predicate Marked(voiced: array<bool>, frames: seq<StateData>, threshold: real, upto: nat)
    reads voiced
  {
    upto <= |frames| <= voiced.Length && forall t :: 0 <= t < upto ==> voiced[t] == Voiced(frames[t], threshold)
  }

  /** One turn of the innermost frame loop. */
  method GatherFrame(mean: array2<real>, ivar: array2<real>, voiced: array<bool>, total: nat, frame: nat, msdFrame: nat,
                     st: StateData, info: StreamInfo, i: nat, limits: Limits,
                     ghost frames: seq<StateData>, ghost threshold: real) returns (msdFrame': nat)
    requires Memory(mean, ivar, frames, info, i) && limits.Valid()
    requires total == |frames| && Marked(voiced, frames, threshold, total)
    requires frame < total && st == frames[frame] && msdFrame == Rank(frames[..frame], threshold)
    requires Filled(mean, ivar, frames, threshold, limits, info, i, frame)
    modifies mean, ivar
    ensures Filled(mean, ivar, frames, threshold, limits, info, i, frame + 1)
    ensures msdFrame' == Rank(frames[..frame + 1], threshold)
  {
    assert frames[..frame + 1] == frames[..frame] + [st];
    RankStep(frames[..frame], st, threshold);
    RankBounds(frames, threshold, frame);
    msdFrame' := msdFrame + if voiced[frame] then 1 else 0;
    if info.msd && !voiced[frame] {
      assert !Kept(frames, threshold, info.msd, frame);
      return;
    }
    label before:
    var x := if info.msd then msdFrame else frame;
    FillRow(mean, ivar, voiced, total, frame, x, st, info, i, limits, frames, threshold);
    forall t: nat | t < frame + 1 && t < |frames|
      ensures FullRow(mean, ivar, frames, threshold, limits, info, i, t)
    {
      if t < frame && Kept(frames, threshold, info.msd, t) {
        assert old@before(FullRow(mean, ivar, frames, threshold, limits, info, i, t));
        PlacesApart(frames, threshold, info.msd, t, frame);
        ghost var y := PlaceOf(frames, threshold, info.msd, t);
        forall k: nat, l: nat | k < |info.windows| && l < info.staticLength
          ensures CellOk(mean, ivar, frames, threshold, limits, info, i, t, y, k, l)
        {
          ColumnInRange(info, k, l);
          assert old@before(CellOk(mean, ivar, frames, threshold, limits, info, i, t, y, k, l));
        }
      }
    }
  }

  /** The frames from the given one on start with these. */
  ghost predicate Continues(frames: seq<StateData>, frame: nat, next: seq<StateData>) {
    frame + |next| <= |frames| && frames[frame..frame + |next|] == next
  }

  method GatherModel(mean: array2<real>, ivar: array2<real>, voiced: array<bool>, total: nat, frame: nat, msdFrame: nat,
                     model: ModelData, info: StreamInfo, i: nat, limits: Limits,
                     ghost frames: seq<StateData>, ghost threshold: real) returns (frame': nat, msdFrame': nat)
    requires Memory(mean, ivar, frames, info, i) && limits.Valid()
    requires total == |frames| && Marked(voiced, frames, threshold, total)
    requires Continues(frames, frame, FramesOf(model.states)) && msdFrame == Rank(frames[..frame], threshold)
    requires Filled(mean, ivar, frames, threshold, limits, info, i, frame)
    modifies mean, ivar
    ensures frame' == frame + |FramesOf(model.states)|
    ensures Filled(mean, ivar, frames, threshold, limits, info, i, frame')
    ensures frame' <= |frames| && msdFrame' == Rank(frames[..frame'], threshold)
  {
    hide Filled, Memory, Shaped;
    frame', msdFrame' := frame, msdFrame;
    var s := 0;
    while s < |model.states|
      invariant s <= |model.states| && frame' == frame + |FramesOf(model.states[..s])| <= |frames|
      invariant Filled(mean, ivar, frames, threshold, limits, info, i, frame')
      invariant msdFrame' == Rank(frames[..frame'], threshold)
    {
      StateContinues(frames, frame, model.states, s);
      var st := model.states[s];
      ghost var start := frame';
      var j := 0;
      while j < st.duration
        invariant 0 <= j && (st.duration >= 0 ==> j <= st.duration) && (st.duration < 0 ==> j == 0)
        invariant frame' == start + j <= start + |Repeated(st)|
        invariant Filled(mean, ivar, frames, threshold, limits, info, i, frame')
        invariant msdFrame' == Rank(frames[..frame'], threshold)
      {
        assert frames[frame'] == Repeated(st)[j];
        msdFrame' := GatherFrame(mean, ivar, voiced, total, frame', msdFrame', st, info, i, limits, frames, threshold);
        frame', j := frame' + 1, j + 1;
      }
      s := s + 1;
    }
    assert model.states[..s] == model.states;
  }

  lemma StateContinues(frames: seq<StateData>, frame: nat, states: seq<StateData>, s: nat)
    requires s < |states| && Continues(frames, frame, FramesOf(states))
    ensures |FramesOf(states[..s + 1])| == |FramesOf(states[..s])| + |Repeated(states[s])|
    ensures var start := frame + |FramesOf(states[..s])|;
            && start + |Repeated(states[s])| <= |frames|
            && forall j :: 0 <= j < |Repeated(states[s])| ==> frames[start + j] == Repeated(states[s])[j]
  {
    FramesStep(states, s);
    FramesGrow(states, s + 1);
    var before, all := |FramesOf(states[..s])|, FramesOf(states);
    forall j | 0 <= j < |Repeated(states[s])|
      ensures frames[frame + before + j] == Repeated(states[s])[j]
    {
      assert all[before + j] == FramesOf(states[..s + 1])[before + j];
      assert frames[frame..frame + |all|][before + j] == all[before + j];
    }
  }

  // ----- the window -----

  /** The models of the window, oldest first. */
  ghost function WindowOf(rawData: seq<ModelData>, read: nat, n: nat): seq<ModelData>
    requires |rawData| > 0
  {
    seq(n, w requires 0 <= w => SlotBound(read + w, |rawData|); rawData[Slot(read + w, |rawData|)])
  }

  lemma WindowPrefix(rawData: seq<ModelData>, read: nat, n: nat, w: nat)
    requires |rawData| > 0 && w < n
    ensures Slot(read + w, |rawData|) < |rawData|
    ensures var models := WindowOf(rawData, read, n); models[w] == rawData[Slot(read + w, |rawData|)]
    ensures var frames, start := WindowFrames(WindowOf(rawData, read, n)), |WindowFrames(WindowOf(rawData, read, n)[..w])|;
            && Continues(frames, start, FramesOf(rawData[Slot(read + w, |rawData|)].states))
            && |WindowFrames(WindowOf(rawData, read, n)[..w + 1])|
               == start + |FramesOf(rawData[Slot(read + w, |rawData|)].states)|
  {
    SlotBound(read + w, |rawData|);
    var models := WindowOf(rawData, read, n);
    WindowStep(models, w);
    WindowGrows(models, w + 1);
    var before, now := WindowFrames(models[..w]), WindowFrames(models[..w + 1]);
    assert WindowFrames(models)[|before|..|now|] == now[|before|..];
  }

  /** The models of the window are as the duration control left them. */
  ghost predicate WindowCapped(rawData: seq<ModelData>, read: nat, n: nat)
    requires |rawData| > 0
  {
    forall w :: 0 <= w < n ==> Capped(WindowOf(rawData, read, n)[w])
  }

  /** One stream of the window: the statistics of every kept frame, at its place. */
  method GatherStream(rawData: seq<ModelData>, read: nat, window: nat, mean: array2<real>, ivar: array2<real>,
                      voiced: array<bool>, total: nat, info: StreamInfo, i: nat, limits: Limits, ghost threshold: real)
      returns (length: nat)
    requires |rawData| > 0 && read < |rawData| && limits.Valid()
    requires var frames := WindowFrames(WindowOf(rawData, read, window));
             Memory(mean, ivar, frames, info, i) && total == |frames| && Marked(voiced, frames, threshold, total)
    modifies mean, ivar
    ensures var frames := WindowFrames(WindowOf(rawData, read, window));
            && Filled(mean, ivar, frames, threshold, limits, info, i, |frames|)
            && length == PlaceOf(frames, threshold, info.msd, |frames|)
  {
    ghost var models := WindowOf(rawData, read, window);
    ghost var frames := WindowFrames(models);
    hide Memory, Marked, FullRow, WindowFrames, Slot;
    var frame, msdFrame, head := 0, 0, read;
    StartOfWindow(rawData, read, window);
    var w := 0;
    while w < window
      invariant w <= window && head == Slot(read + w, |rawData|)
      invariant frame == |WindowFrames(models[..w])| <= |frames| && msdFrame == Rank(frames[..frame], threshold)
      invariant Filled(mean, ivar, frames, threshold, limits, info, i, frame)
    {
      WindowPrefix(rawData, read, window, w);
      frame, msdFrame :=
        GatherModel(mean, ivar, voiced, total, frame, msdFrame, rawData[head], info, i, limits, frames, threshold);
      NextSlotIs(read + w, |rawData|);
      head := (head + 1) % |rawData|;
      w := w + 1;
    }
    assert models[..w] == models;
    length := if info.msd then msdFrame else frame;
  }

  lemma StartOfWindow(rawData: seq<ModelData>, read: nat, n: nat)
    requires |rawData| > 0 && read < |rawData|
    ensures Slot(read + 0, |rawData|) == read && WindowFrames(WindowOf(rawData, read, n)[..0]) == []
  {
  }

  lemma NextSlotIs(x: nat, n: nat)
    requires n > 0
    ensures (Slot(x, n) + 1) % n == Slot(x + 1, n)
  {
    ModStep(x, n);
  }

  // ----- voicing flags -----

  method MarkModel(model: ModelData, voiced: array<bool>, threshold: real, frame: nat, ghost frames: seq<StateData>)
      returns (frame': nat)
    requires Marked(voiced, frames, threshold, frame) && Continues(frames, frame, FramesOf(model.states))
    modifies voiced
    ensures frame' == frame + |FramesOf(model.states)| && Marked(voiced, frames, threshold, frame')
  {
    frame' := frame;
    var s := 0;
    while s < |model.states|
      invariant s <= |model.states| && frame' == frame + |FramesOf(model.states[..s])|
      invariant Marked(voiced, frames, threshold, frame')
    {
      StateContinues(frames, frame, model.states, s);
      var st := model.states[s];
      ghost var start := frame';
      var j := 0;
      while j < st.duration
        invariant 0 <= j && (st.duration >= 0 ==> j <= st.duration) && (st.duration < 0 ==> j == 0)
        invariant frame' == start + j <= start + |Repeated(st)|
        invariant Marked(voiced, frames, threshold, frame')
      {
        assert frames[frame'] == Repeated(st)[j];
        voiced[frame'] := if st.msdFlag > threshold then true else false;
        frame', j := frame' + 1, j + 1;
      }
      s := s + 1;
    }
    assert model.states[..s] == model.states;
  }

  /** The flags of all frames of the window, and how many there are: the recorded totals of the
      models, which the frame memory always holds. */
  method MarkWindow(rawData: seq<ModelData>, read: nat, window: nat, voiced: array<bool>, threshold: real)
      returns (total: nat)
    requires |rawData| > 0 && read < |rawData| && window <= NUM_BACKUP + NUM_LOOKUP + 1 && voiced.Length >= MAX_FRAMES
    requires WindowCapped(rawData, read, window)
    modifies voiced
    ensures var frames := WindowFrames(WindowOf(rawData, read, window));
            total == |frames| < MAX_FRAMES && Marked(voiced, frames, threshold, total)
            && forall t :: 0 <= t < total ==> voiced[t] == (frames[t].msdFlag > threshold)
  {
    hide Capped, WindowFrames, Slot, FramesOf, Marked;
    ghost var models := WindowOf(rawData, read, window);
    ghost var frames := WindowFrames(models);
    FramesFit(models);
    StartOfWindow(rawData, read, window);
    MarkedNone(voiced, frames, threshold);
    var frame, head, w := 0, read, 0;
    total := 0;
    while w < window
      invariant w <= window && head == Slot(read + w, |rawData|)
      invariant frame == |WindowFrames(models[..w])| && total == frame
      invariant Marked(voiced, frames, threshold, frame)
    {
      WindowPrefix(rawData, read, window, w);
      RecordedTotal(models[w]);
      frame := MarkModel(rawData[head], voiced, threshold, frame, frames);
      total := total + rawData[head].duration;
      NextSlotIs(read + w, |rawData|);
      head := (head + 1) % |rawData|;
      w := w + 1;
    }
    assert models[..w] == models;
    FlagsMarked(voiced, frames, threshold, total);
  }

  lemma FlagsMarked(voiced: array<bool>, frames: seq<StateData>, threshold: real, upto: nat)
    requires Marked(voiced, frames, threshold, upto)
    ensures upto <= |frames| <= voiced.Length && forall t :: 0 <= t < upto ==> voiced[t] == (frames[t].msdFlag > threshold)
  {
  }

  lemma MarkedNone(voiced: array<bool>, frames: seq<StateData>, threshold: real)
    requires |frames| <= voiced.Length
    ensures Marked(voiced, frames, threshold, 0)
  {
  }

  /** The total recorded for a model is the number of its frames. */
  lemma RecordedTotal(model: ModelData)
    requires Capped(model)
    ensures model.duration == |FramesOf(model.states)|
  {
    FramesCount(model.states);
  }

  // ----- the problem a stream poses -----

  /** p is the least-squares problem that the kept frames of the window pose for feature m. */
  ghost predicate Describes(p: Problem, frames: seq<StateData>, threshold: real, limits: Limits, info: StreamInfo,
                            i: nat, m: nat)
    requires limits.Valid() && m < info.staticLength
    requires forall t :: 0 <= t < |frames| ==> Shaped(frames[t], i, info)
  {
    && p.length == PlaceOf(frames, threshold, info.msd, |frames|) && p.windows == info.windows
    && forall t: nat, k: nat {:trigger Posed(p, frames, threshold, limits, info, i, m, t, k)} ::
         t < |frames| && k < |info.windows| && Kept(frames, threshold, info.msd, t)
         ==> Posed(p, frames, threshold, limits, info, i, m, t, k)
  }

  ghost predicate Posed(p: Problem, frames: seq<StateData>, threshold: real, limits: Limits, info: StreamInfo,
                        i: nat, m: nat, t: nat, k: nat)
    requires limits.Valid() && m < info.staticLength && k < |info.windows| && t < |frames| && Shaped(frames[t], i, info)
  {
    ColumnInRange(info, k, m);
    var x := PlaceOf(frames, threshold, info.msd, t);
    && WeightAt(frames, threshold, limits, info, i, t, k, m, p.ivar(x, k))
    && p.mean(x, k) == frames[t].mean[i][info.staticLength * k + m]
  }

  /** The first window has one nonzero coefficient. */
  ghost predicate StaticWindow(w: Window) {
    w.Valid() && w.At(0) != 0.0 && forall x :: x != 0 ==> w.At(x) == 0.0
  }

  /** Variances are nonnegative, and those of static features finite. */
  ghost predicate Variances(frames: seq<StateData>, limits: Limits, info: StreamInfo, i: nat)
    requires forall t :: 0 <= t < |frames| ==> Shaped(frames[t], i, info)
  {
    forall t {:trigger Shaped(frames[t], i, info)} :: 0 <= t < |frames| ==> VariancesOf(frames[t], limits, info, i)
  }

  ghost predicate VariancesOf(st: StateData, limits: Limits, info: StreamInfo, i: nat)
    requires Shaped(st, i, info)
  {
    forall m :: 0 <= m < Columns(info)
      ==> 0.0 <= st.vari[i][m] && (m < info.staticLength ==> st.vari[i][m] < limits.infty2)
  }

  lemma WeightSign(frames: seq<StateData>, threshold: real, limits: Limits, info: StreamInfo, i: nat, t: nat,
                   k: nat, m: nat, w: real)
    requires limits.Valid() && t < |frames| && k < |info.windows| && m < info.staticLength && Shaped(frames[t], i, info)
    requires VariancesOf(frames[t], limits, info, i) && WeightAt(frames, threshold, limits, info, i, t, k, m, w)
    ensures w >= 0.0 && (k == 0 ==> w > 0.0)
  {
    ColumnInRange(info, k, m);
    if NotBound(frames, threshold, info, t, k) || k == 0 {
      InverseSign(limits, frames[t].vari[i][info.staticLength * k + m], w);
    }
  }

  /** Static features are never switched off at boundaries, so no pivot can vanish. */
  lemma NoZeroPivot(p: Problem, frames: seq<StateData>, threshold: real, limits: Limits, info: StreamInfo, i: nat, m: nat)
    requires limits.Valid() && m < info.staticLength && forall t :: 0 <= t < |frames| ==> Shaped(frames[t], i, info)
    requires Describes(p, frames, threshold, limits, info, i, m) && p.Valid()
    requires |info.windows| > 0 && StaticWindow(info.windows[0]) && Variances(frames, limits, info, i)
    ensures Anchored(p) && NonnegativeWeights(p)
  {
    forall x: nat, k: nat | x < p.length && k < |p.windows|
      ensures p.ivar(x, k) >= 0.0 && (k == 0 ==> p.ivar(x, k) > 0.0)
    {
      var t := PlacesFull(frames, threshold, info.msd, x);
      assert Posed(p, frames, threshold, limits, info, i, m, t, k);
      ColumnInRange(info, k, m);
      hide InverseOf;
      WeightSign(frames, threshold, limits, info, i, t, k, m, p.ivar(x, k));
    }
  }

  // ----- generating a stream -----

  function RowsOf(a: array2<real>, n: nat): (rows: seq<seq<real>>)
    reads a
    requires n <= a.Length0
    ensures |rows| == n && forall t :: 0 <= t < n ==> |rows[t]| == a.Length1
    ensures forall t, c :: 0 <= t < n && 0 <= c < a.Length1 ==> rows[t][c] == a[t, c]
  {
    seq(n, t requires 0 <= t < n <= a.Length0 reads a =>
          seq(a.Length1, c requires 0 <= c < a.Length1 reads a => a[t, c]))
  }

  /** The stage that follows when a global variance is used divides by the curvature of its objective
      at the solution; all switches are off. */
  ghost predicate CurvedFor(p: Problem, x: seq<real>, m: nat, windows: nat, tuning: Tuning, gvMean: seq<real>, gvVari: seq<real>)
    requires p.Valid() && |x| == p.length && m < |gvMean| && m < |gvVari| && windows > 0
  {
    forall t :: 0 <= t < p.length ==> Curvature(SecondStage(p, m, windows, tuning, gvMean, gvVari), NormalMatrix(p), OfSeq(x), t) != 0.0
  }

  /** The second stage for a problem: over all its frames, with every switch off. */
  ghost function SecondStage(p: Problem, m: nat, windows: nat, tuning: Tuning, gvMean: seq<real>, gvVari: seq<real>): (s: Setting)
    requires m < |gvMean| && m < |gvVari| && p.length >= 0
    ensures p.length > 0 && windows > 0 ==> s.Valid()
  {
    Setting(p.length, windows, p.length, gvMean[m], gvVari[m], seq(p.length, _ => false), tuning)
  }

  /** No curvature vanishes at a solution of the problems that the window poses. */
  ghost predicate Curved(frames: seq<StateData>, threshold: real, limits: Limits, info: StreamInfo, i: nat,
                         tuning: Tuning, gvMean: seq<real>, gvVari: seq<real>)
    requires limits.Valid() && info.staticLength <= |gvMean| && info.staticLength <= |gvVari| && |info.windows| > 0
    requires forall t :: 0 <= t < |frames| ==> Shaped(frames[t], i, info)
  {
    forall m: nat, p: Problem, x: seq<real> {:trigger CurvedFor(p, x, m, |info.windows|, tuning, gvMean, gvVari)} ::
      m < info.staticLength && p.Valid() && Describes(p, frames, threshold, limits, info, i, m)
      && |x| == p.length && Solves(p, OfSeq(x))
      ==> CurvedFor(p, x, m, |info.windows|, tuning, gvMean, gvVari)
  }

  /** Gathers one stream and generates its parameters: each feature's trajectory, kept frame by
      kept frame, is the optimal one for the window, with a global variance or without. No division by
      zero occurs. */
  method OptimizeStream(rawData: seq<ModelData>, read: nat, window: nat, mean: array2<real>, ivar: array2<real>,
                        voiced: array<bool>, total: nat, info: StreamInfo, i: nat, limits: Limits, ghost threshold: real,
                        width: nat, tuning: Tuning, useGv: bool, gvMean: seq<real>, gvVari: seq<real>,
                        wuw: array2<real>, wum: array<real>, g: array<real>, par: array2<real>)
      returns (length: nat, ghost problems: seq<Problem>)
    requires |rawData| > 0 && read < |rawData| && limits.Valid()
    requires var frames := WindowFrames(WindowOf(rawData, read, window));
             && Memory(mean, ivar, frames, info, i) && total == |frames| && Marked(voiced, frames, threshold, total)
             && Variances(frames, limits, info, i)
             && |frames| <= wuw.Length0 && |frames| <= wum.Length && |frames| <= g.Length && |frames| <= par.Length0
    requires |info.windows| > 0 && StaticWindow(info.windows[0])
    requires forall k :: 0 <= k < |info.windows| ==> info.windows[k].Valid() && 2 * info.windows[k].radius < width
    requires width <= wuw.Length1 && info.staticLength <= par.Length1
    requires info.staticLength <= |gvMean| && info.staticLength <= |gvVari|
    requires useGv ==> Curved(WindowFrames(WindowOf(rawData, read, window)), threshold, limits, info, i, tuning, gvMean, gvVari)
    requires wuw != par && wum != g && wuw != mean && wuw != ivar && par != mean && par != ivar
    modifies mean, ivar, wuw, wum, g, par
    ensures length == PlaceOf(WindowFrames(WindowOf(rawData, read, window)), threshold, info.msd,
                              |WindowFrames(WindowOf(rawData, read, window))|)
    ensures length <= par.Length0 && |problems| == info.staticLength
    ensures forall m: nat :: m < info.staticLength ==>
              && problems[m].Valid()
              && Describes(problems[m], WindowFrames(WindowOf(rawData, read, window)), threshold, limits, info, i, m)
              && Solves(problems[m], ColumnOf(par, length, m)) && Optimal(problems[m], ColumnOf(par, length, m))
  {
    ghost var frames := WindowFrames(WindowOf(rawData, read, window));
    hide Memory, Marked, FullRow, WindowFrames, Slot, Filled, Variances, Describes, PlaceOf, WindowOf, StaticWindow, Solves, Optimal,
      Curved;
    length := GatherStream(rawData, read, window, mean, ivar, voiced, total, info, i, limits, threshold);
    problems := SolveStream(mean, ivar, info, i, limits, threshold, frames, length, width, tuning, useGv, gvMean, gvVari,
                            wuw, wum, g, par);
  }

  /** Sets up the stream object over the gathered statistics and runs the generation. */
  method SolveStream(mean: array2<real>, ivar: array2<real>, info: StreamInfo, ghost i: nat, ghost limits: Limits,
                     ghost threshold: real, ghost frames: seq<StateData>, length: nat,
                     width: nat, tuning: Tuning, useGv: bool, gvMean: seq<real>, gvVari: seq<real>,
                     wuw: array2<real>, wum: array<real>, g: array<real>, par: array2<real>)
      returns (ghost problems: seq<Problem>)
    requires limits.Valid() && Memory(mean, ivar, frames, info, i) && Variances(frames, limits, info, i)
    requires Filled(mean, ivar, frames, threshold, limits, info, i, |frames|)
    requires length == PlaceOf(frames, threshold, info.msd, |frames|)
    requires |frames| <= wuw.Length0 && |frames| <= wum.Length && |frames| <= g.Length && |frames| <= par.Length0
    requires |info.windows| > 0 && StaticWindow(info.windows[0])
    requires forall k :: 0 <= k < |info.windows| ==> info.windows[k].Valid() && 2 * info.windows[k].radius < width
    requires width <= wuw.Length1 && info.staticLength <= par.Length1
    requires info.staticLength <= |gvMean| && info.staticLength <= |gvVari|
    requires useGv ==> Curved(frames, threshold, limits, info, i, tuning, gvMean, gvVari)
    requires wuw != par && wum != g
    modifies wuw, wum, g, par
    ensures length <= par.Length0 && |problems| == info.staticLength
    ensures forall m: nat :: m < info.staticLength ==>
              && problems[m].Valid() && Describes(problems[m], frames, threshold, limits, info, i, m)
              && Solves(problems[m], ColumnOf(par, length, m)) && Optimal(problems[m], ColumnOf(par, length, m))
  {
    hide Marked, FullRow, Slot, Filled, Variances, Describes, PlaceOf, StaticWindow, Solves, Optimal, Anchored,
      NonnegativeWeights, Shaped, Curved;
    PlaceBound(frames, threshold, info.msd);
    var stream := new PStream(length, info.staticLength, width, info.windows, RowsOf(ivar, length), RowsOf(mean, length),
                              if useGv then length else 0, gvMean, gvVari, seq(length, _ => false), tuning, wuw, wum, g, par);
    assert stream.Valid() by {
      assert info.staticLength * |info.windows| == |info.windows| * info.staticLength;
    }
    problems := seq(info.staticLength, m requires 0 <= m < stream.staticLength && stream.Valid() => stream.Dimension(m));
    forall m: nat | m < info.staticLength
      ensures problems[m].Valid() && Describes(problems[m], frames, threshold, limits, info, i, m)
      ensures NonnegativeWeights(problems[m]) && stream.Solvable(m)
    {
      DimensionDescribes(stream, mean, ivar, frames, threshold, limits, info, i, m);
      NoZeroPivot(problems[m], frames, threshold, limits, info, i, m);
      PivotsPositive(problems[m]);
      StreamSolvable(stream, frames, threshold, limits, info, i, m);
    }
    stream.Mlpg();
    forall m: nat | m < info.staticLength
      ensures Solves(problems[m], ColumnOf(par, length, m)) && Optimal(problems[m], ColumnOf(par, length, m))
    {
      assert stream.Frames(m) == seq(length, t requires 0 <= t < length <= par.Length0 && m < par.Length1 reads par => par[t, m]);
    }
  }

  /** The solution's curvatures do not vanish, so the second stage can run. */
  lemma StreamSolvable(stream: PStream, frames: seq<StateData>, threshold: real, limits: Limits, info: StreamInfo, i: nat, m: nat)
    requires stream.Valid() && m < info.staticLength == stream.staticLength && limits.Valid() && |info.windows| > 0
    requires stream.windows == info.windows && (stream.gvLength == 0 || stream.gvLength == stream.length)
    requires stream.gvSwitch == seq(stream.length, _ => false)
    requires info.staticLength <= |stream.gvMean| && info.staticLength <= |stream.gvVari|
    requires forall t :: 0 <= t < |frames| ==> Shaped(frames[t], i, info)
    requires stream.gvLength > 0 ==> Curved(frames, threshold, limits, info, i, stream.tuning, stream.gvMean, stream.gvVari)
    requires Describes(stream.Dimension(m), frames, threshold, limits, info, i, m)
    requires Ldl.NonzeroPivots(NormalMatrix(stream.Dimension(m)), stream.length)
    ensures stream.Solvable(m)
  {
    hide Describes, Solves, NormalMatrix, Ldl.NonzeroPivots, Curvature;
    if stream.gvLength > 0 {
      stream.WantedSolves(m);
      var p := stream.Dimension(m);
      assert stream.gvSwitch == seq(p.length, _ => false);
      assert stream.StageOf(m) == SecondStage(p, m, |info.windows|, stream.tuning, stream.gvMean, stream.gvVari);
      assert CurvedFor(p, stream.Wanted(m), m, |info.windows|, stream.tuning, stream.gvMean, stream.gvVari);
    }
  }

  lemma PlaceBound(frames: seq<StateData>, threshold: real, compact: bool)
    ensures PlaceOf(frames, threshold, compact, |frames|) <= |frames|
  {
    RankBounds(frames, threshold, |frames|);
  }

  /** Column m of the result, as far as the stream goes. */
  ghost function ColumnOf(par: array2<real>, length: nat, m: nat): Vector
    reads par
    requires length <= par.Length0 && m < par.Length1
  {
    OfSeq(seq(length, t requires 0 <= t < length <= par.Length0 && m < par.Length1 reads par => par[t, m]))
  }

  lemma DimensionDescribes(stream: PStream, mean: array2<real>, ivar: array2<real>, frames: seq<StateData>, threshold: real,
                           limits: Limits, info: StreamInfo, i: nat, m: nat)
    requires stream.Valid() && m < info.staticLength && limits.Valid() && Memory(mean, ivar, frames, info, i)
    requires stream.length == PlaceOf(frames, threshold, info.msd, |frames|) <= |frames|
    requires stream.staticLength == info.staticLength && stream.windows == info.windows
    requires stream.ivar == RowsOf(ivar, stream.length) && stream.mean == RowsOf(mean, stream.length)
    requires Filled(mean, ivar, frames, threshold, limits, info, i, |frames|)
    ensures Describes(stream.Dimension(m), frames, threshold, limits, info, i, m)
  {
    var p := stream.Dimension(m);
    forall t: nat, k: nat | t < |frames| && k < |info.windows| && Kept(frames, threshold, info.msd, t)
      ensures Posed(p, frames, threshold, limits, info, i, m, t, k)
    {
      assert FullRow(mean, ivar, frames, threshold, limits, info, i, t);
      var x := PlaceOf(frames, threshold, info.msd, t);
      PlaceInside(frames, threshold, info.msd, t);
      assert CellOk(mean, ivar, frames, threshold, limits, info, i, t, x, k, m);
      ColumnInRange(info, k, m);
    }
  }

  lemma PlaceInside(frames: seq<StateData>, threshold: real, compact: bool, t: nat)
    requires t < |frames| && Kept(frames, threshold, compact, t)
    ensures PlaceOf(frames, threshold, compact, t) < PlaceOf(frames, threshold, compact, |frames|)
  {
    assert frames[..|frames|] == frames;
    RankBounds(frames, threshold, t);
  }

  // ----- recovering the frames -----

  /** A synthesised frame: voiced or not, and the parameters of each stream. */
  datatype Frame = Frame(voiced: bool, streams: seq<seq<real>>)

  /** The pitch of a voiced frame, the parameters of any other stream: row x of the results. */
  ghost function Recovered(par: array2<real>, isPitch: bool, voiced: bool, curve: real -> real, n: nat, x: nat): seq<real>
    reads par
    requires x < par.Length0 && n <= par.Length1 && 0 < par.Length1
  {
    if isPitch then [if voiced then curve(par[x, 0]) else 0.0]
    else seq(n, c requires 0 <= c < n <= par.Length1 && x < par.Length0 reads par => par[x, c])
  }

  /** How many results come before: voiced frames only for pitch. */
  ghost predicate Counted(qStream: seq<nat>, frames: seq<StateData>, threshold: real, pitch: nat) {
    forall i :: 0 <= i < |qStream| ==> qStream[i] == if i == pitch then Rank(frames, threshold) else |frames|
  }

  /** The results have room for every frame of a full window. */
  ghost predicate Results(par: seq<array2<real>>, lengths: seq<nat>) {
    && |par| == |lengths|
    && forall i :: 0 <= i < |par| ==> par[i].Length0 >= MAX_FRAMES && lengths[i] <= par[i].Length1 && 0 < par[i].Length1
  }

  /** What frame t of the window is made of. */
  ghost predicate FrameOk(f: Frame, par: seq<array2<real>>, lengths: seq<nat>, pitch: nat, curve: real -> real,
                          frames: seq<StateData>, threshold: real, t: nat)
    reads par
    requires Results(par, lengths) && |frames| < MAX_FRAMES && t < |frames|
  {
    && f.voiced == Voiced(frames[t], threshold) && |f.streams| == |par|
    && forall i: nat {:trigger StreamOk(f, par, lengths, pitch, curve, frames, threshold, t, i)} ::
         i < |par| ==> StreamOk(f, par, lengths, pitch, curve, frames, threshold, t, i)
  }

  ghost predicate StreamOk(f: Frame, par: seq<array2<real>>, lengths: seq<nat>, pitch: nat, curve: real -> real,
                           frames: seq<StateData>, threshold: real, t: nat, i: nat)
    reads par
    requires Results(par, lengths) && t < |frames| && i < |par| == |f.streams|
  {
    var x := PlaceOf(frames, threshold, i == pitch, t);
    x < MAX_FRAMES && f.streams[i] == Recovered(par[i], i == pitch, f.voiced, curve, lengths[i], x)
  }

  /** Skips the results of one state of a backup model. */
  method SkipState(qStream: seq<nat>, st: StateData, threshold: real, pitch: nat, ghost before: seq<StateData>)
      returns (qStream': seq<nat>)
    requires st.duration >= 0 && Counted(qStream, before, threshold, pitch)
    ensures |qStream'| == |qStream| && Counted(qStream', before + Repeated(st), threshold, pitch)
  {
    RankRepeated(before, st, st.duration, threshold);
    assert Repeated(st) == seq(st.duration as nat, _ => st);
    qStream' := qStream;
    var i := 0;
    while i < |qStream|
      invariant i <= |qStream| == |qStream'|
      invariant forall j :: i <= j < |qStream| ==> qStream'[j] == qStream[j]
      invariant forall j :: 0 <= j < i ==>
        qStream'[j] == (if j == pitch then Rank(before + Repeated(st), threshold) else |before + Repeated(st)|)
    {
      if i != pitch {
        qStream' := qStream'[i := qStream'[i] + st.duration];
      } else if st.msdFlag > threshold {
        qStream' := qStream'[i := qStream'[i] + st.duration];
      }
      i := i + 1;
    }
  }

  method SkipModel(qStream: seq<nat>, model: ModelData, threshold: real, pitch: nat, ghost before: seq<StateData>)
      returns (qStream': seq<nat>)
    requires Capped(model) && Counted(qStream, before, threshold, pitch)
    ensures |qStream'| == |qStream| && Counted(qStream', before + FramesOf(model.states), threshold, pitch)
  {
    qStream' := qStream;
    var s := 0;
    assert before + FramesOf(model.states[..0]) == before;
    while s < NUM_STATES
      invariant s <= NUM_STATES && |qStream'| == |qStream|
      invariant Counted(qStream', before + FramesOf(model.states[..s]), threshold, pitch)
    {
      assert Durations(model.states)[s] == model.states[s].duration;
      FramesStep(model.states, s);
      qStream' := SkipState(qStream', model.states[s], threshold, pitch, before + FramesOf(model.states[..s]));
      assert before + FramesOf(model.states[..s]) + Repeated(model.states[s]) == before + FramesOf(model.states[..s + 1]);
      s := s + 1;
    }
    assert model.states[..s] == model.states;
  }

  /** One frame of the newest model. */
  method MakeFrame(qStream: seq<nat>, st: StateData, par: seq<array2<real>>, lengths: seq<nat>, pitch: nat,
                   curve: real -> real, threshold: real, ghost frames: seq<StateData>, ghost t: nat)
      returns (f: Frame, qStream': seq<nat>)
    requires Results(par, lengths) && |frames| < MAX_FRAMES && t < |frames| && frames[t] == st && |qStream| == |par|
    requires pitch < |par| && Counted(qStream, frames[..t], threshold, pitch)
    ensures FrameOk(f, par, lengths, pitch, curve, frames, threshold, t)
    ensures |qStream'| == |par| && Counted(qStream', frames[..t + 1], threshold, pitch)
  {
    assert frames[..t + 1] == frames[..t] + [st];
    RankStep(frames[..t], st, threshold);
    RankBounds(frames, threshold, t);
    qStream' := qStream;
    var voiced, streams := false, [];
    var i := 0;
    while i < |par|
      invariant i <= |par| && |streams| == i && |qStream'| == |par|
      invariant voiced == (i > pitch && Voiced(st, threshold))
      invariant forall j :: i <= j < |par| ==> qStream'[j] == qStream[j]
      invariant forall j :: 0 <= j < i ==>
        qStream'[j] == (if j == pitch then Rank(frames[..t + 1], threshold) else t + 1)
      invariant forall j :: 0 <= j < i ==>
        streams[j] == Recovered(par[j], j == pitch, Voiced(st, threshold), curve, lengths[j],
                                PlaceOf(frames, threshold, j == pitch, t))
    {
      var index := qStream'[i];
      assert index == PlaceOf(frames, threshold, i == pitch, t);
      if i == pitch {
        if st.msdFlag > threshold {
          voiced := true;
          streams := streams + [[curve(par[i][index, 0])]];
          qStream' := qStream'[i := qStream'[i] + 1];
        } else {
          voiced := false;
          streams := streams + [[0.0]];
        }
      } else {
        var row := CopyRow(par[i], lengths[i], index);
        streams := streams + [row];
        qStream' := qStream'[i := qStream'[i] + 1];
      }
      i := i + 1;
    }
    f := Frame(voiced, streams);
    assert f.voiced == Voiced(frames[t], threshold);
    forall j: nat | j < |par|
      ensures StreamOk(f, par, lengths, pitch, curve, frames, threshold, t, j)
    {
    }
  }

  method CopyRow(par: array2<real>, n: nat, x: nat) returns (row: seq<real>)
    requires x < par.Length0 && n <= par.Length1 && 0 < par.Length1
    ensures forall curve: real -> real, voiced :: row == Recovered(par, false, voiced, curve, n, x)
  {
    row := [];
    var k := 0;
    while k < n
      invariant k <= n && |row| == k && forall c :: 0 <= c < k ==> row[c] == par[x, c]
    {
      row := row + [par[x, k]];
      k := k + 1;
    }
  }

  /** The frames of the newest model, each read from the place its statistics had. */
  method GenerateModel(qStream: seq<nat>, model: ModelData, par: seq<array2<real>>, lengths: seq<nat>, pitch: nat,
                       curve: real -> real, threshold: real, ghost frames: seq<StateData>, ghost start: nat)
      returns (output: seq<Frame>)
    requires Results(par, lengths) && |frames| < MAX_FRAMES && |qStream| == |par| && pitch < |par| && Capped(model)
    requires Continues(frames, start, FramesOf(model.states)) && Counted(qStream, frames[..start], threshold, pitch)
    ensures |output| == |FramesOf(model.states)| && start + |output| <= |frames|
    ensures forall q: nat :: q < |output| ==> FrameOk(output[q], par, lengths, pitch, curve, frames, threshold, start + q)
  {
    hide Results, FrameOk, Counted, Recovered;
    output := [];
    var counts := qStream;
    var s := 0;
    while s < NUM_STATES
      invariant s <= NUM_STATES && |output| == |FramesOf(model.states[..s])| && |counts| == |par|
      invariant start + |output| <= |frames| && Counted(counts, frames[..start + |output|], threshold, pitch)
      invariant forall q: nat :: q < |output| ==> FrameOk(output[q], par, lengths, pitch, curve, frames, threshold, start + q)
    {
      StateContinues(frames, start, model.states, s);
      var st := model.states[s];
      assert Durations(model.states)[s] == st.duration;
      ghost var before := |output|;
      var q := 0;
      while q < st.duration
        invariant 0 <= q <= st.duration && |output| == before + q && |counts| == |par|
        invariant start + |output| <= |frames| && Counted(counts, frames[..start + |output|], threshold, pitch)
        invariant forall q: nat :: q < |output| ==> FrameOk(output[q], par, lengths, pitch, curve, frames, threshold, start + q)
      {
        assert frames[start + |output|] == Repeated(st)[q];
        var f;
        f, counts := MakeFrame(counts, st, par, lengths, pitch, curve, threshold, frames, start + |output|);
        output, q := output + [f], q + 1;
      }
      s := s + 1;
    }
    assert model.states[..s] == model.states;
  }

  /** Skips the backup models, then recovers every frame of the newest one, in order. */
  method Generate(rawData: seq<ModelData>, read: nat, backup: nat, par: seq<array2<real>>, lengths: seq<nat>, pitch: nat,
                  curve: real -> real, threshold: real) returns (output: seq<Frame>)
    requires |rawData| > 0 && read < |rawData| && backup <= NUM_BACKUP
    requires WindowCapped(rawData, read, backup + 1)
    requires Results(par, lengths) && pitch < |par|
    ensures var frames := WindowFrames(WindowOf(rawData, read, backup + 1));
            && |frames| < MAX_FRAMES && |output| <= |frames|
            && |frames| - |output| == |WindowFrames(WindowOf(rawData, read, backup))|
            && forall q: nat :: q < |output|
                 ==> FrameOk(output[q], par, lengths, pitch, curve, frames, threshold, |frames| - |output| + q)
  {
    hide Capped, WindowFrames, Slot, FramesOf, FrameOk, Counted, Results, Continues;
    ghost var models := WindowOf(rawData, read, backup + 1);
    ghost var frames := WindowFrames(models);
    WindowSplit(rawData, read, backup);
    var qStream := SkipBackup(rawData, read, backup, |par|, threshold, pitch);
    SlotIs(read + backup, |rawData|);
    var head := (read + backup) % |rawData|;
    ghost var start := |WindowFrames(WindowOf(rawData, read, backup))|;
    output := GenerateModel(qStream, rawData[head], par, lengths, pitch, curve, threshold, frames, start);
  }

  /** The frames of the window: those of the backup models, then those of the newest. */
  lemma WindowSplit(rawData: seq<ModelData>, read: nat, backup: nat)
    requires |rawData| > 0 && read < |rawData| && backup <= NUM_BACKUP
    requires WindowCapped(rawData, read, backup + 1)
    ensures Slot(read + backup, |rawData|) < |rawData| && Capped(rawData[Slot(read + backup, |rawData|)])
    ensures WindowCapped(rawData, read, backup)
    ensures var frames, before := WindowFrames(WindowOf(rawData, read, backup + 1)), WindowFrames(WindowOf(rawData, read, backup));
            && |frames| < MAX_FRAMES && |before| <= |frames| && frames[..|before|] == before
            && Continues(frames, |before|, FramesOf(rawData[Slot(read + backup, |rawData|)].states))
            && |frames| == |before| + |FramesOf(rawData[Slot(read + backup, |rawData|)].states)|
  {
    var models := WindowOf(rawData, read, backup + 1);
    FramesFit(models);
    hide Capped, WindowFrames, Slot, FramesOf;
    WindowPrefix(rawData, read, backup + 1, backup);
    WindowGrows(models, backup);
    assert Capped(models[backup]);
    assert forall w :: 0 <= w < backup ==> WindowOf(rawData, read, backup)[w] == models[w];
    assert models[..backup] == WindowOf(rawData, read, backup);
    assert models[..backup + 1] == models;
  }

  /** Counts the results of the backup models. */
  method SkipBackup(rawData: seq<ModelData>, read: nat, backup: nat, streams: nat, threshold: real, pitch: nat)
      returns (qStream: seq<nat>)
    requires |rawData| > 0 && read < |rawData|
    requires WindowCapped(rawData, read, backup)
    ensures |qStream| == streams
    ensures Counted(qStream, WindowFrames(WindowOf(rawData, read, backup)), threshold, pitch)
  {
    ghost var models := WindowOf(rawData, read, backup);
    hide Capped, Slot, FramesOf;
    qStream := seq(streams, _ => 0);
    var w := 0;
    while w < backup
      invariant w <= backup && |qStream| == streams
      invariant Counted(qStream, WindowFrames(models[..w]), threshold, pitch)
    {
      WindowPrefix(rawData, read, backup, w);
      WindowStep(models, w);
      SlotIs(read + w, |rawData|);
      qStream := SkipModel(qStream, rawData[(read + w) % |rawData|], threshold, pitch, WindowFrames(models[..w]));
      w := w + 1;
    }
    assert models[..w] == models;
  }

  lemma SlotIs(x: nat, n: nat)
    requires n > 0
    ensures x % n == Slot(x, n)
  {
  }
}
