/** The pipeline under any schedule: whatever the threads do, in whatever order, is a run. */
module MageRuns {
  import opened ModelDurations
  import opened Queues
  import opened Pipeline
  import opened LabelRuns
  import opened MagePipeline

  /** Whether the thread concerned stands where it would take this step. */
  predicate Ready<L>(pushing: Pushing<L>, work: Work<L>, reader: Reader, a: Action<L>) {
    match a
    case CheckRoom(_) => pushing.Resting?
    case StoreLabel => pushing.Storing?
    case ClearLabels => true
    case Reset(_) => true
    case CheckLabel => work.Idle?
    case TakeLabel => work.Seen?
    case PrepareModel => work.Popped?
    case ComputeModel(duration) => work.Prepared? && duration <= MAX_DURATION
    case PushModel => work.Computed?
    case OptimizeParameters => work.Queued?
    case CheckFrameRoom => work.Generating? && work.q < work.job.duration
    case EmitFrame => work.Generating? && work.room
    case Finish => work.Generating? && work.q == work.job.duration
    case Tick => reader.Counting?
    case ReadFrame => reader.Seeing?
    case DropFrame => reader.Dropping?
  }

  /** That is whether the step can be taken: a thread stuck before a step would have none to go on with. */
  lemma ReadyIffPossible<L>(s: State<L>, a: Action<L>)
    requires Inv(s)
    ensures Ready(s.pushing, s.work, s.reader, a) <==> exists s': State<L> :: Step(s, a, s')
  {
    if Ready(s.pushing, s.work, s.reader, a) {
      if a.OptimizeParameters? {
        var s' := StartsNext(s);
      } else if Outside(a) {
        var s' := OutsideNext(s, a);
      } else {
        var s' := SynthesisNext(s, a);
      }
    } else {
      forall s': State<L>
        ensures !Step(s, a, s')
      {
      }
    }
  }

  lemma OutsideNext<L>(s: State<L>, a: Action<L>) returns (s': State<L>)
    requires Inv(s) && Outside(a) && Ready(s.pushing, s.work, s.reader, a)
    ensures Step(s, a, s')
  {
    match a
    case CheckRoom(name) => s' := if s.ring.count >= |s.ring.slots| then s else s.(pushing := Storing(name));
    case StoreLabel =>
      s' := s.(ring := Stored(s.ring, s.pushing.name), accepted := s.accepted + [s.pushing.name], pushing := Resting);
    case ClearLabels => s' := s.(ring := Cleared(s.ring), accepted := s.taken);
    case Reset(hop) => s' := s.(flag := true, sampleCount := 0, hopLen := hop);
    case Tick =>
      s' := if s.sampleCount < s.hopLen - 1 then s.(sampleCount := s.sampleCount + 1)
            else if s.frames != [] then s.(reader := Seeing) else s.(sampleCount := 0);
    case ReadFrame => s' := s.(reader := Dropping, consumed := s.consumed + [s.frames[0]]);
    case DropFrame => s' := s.(reader := Counting, frames := s.frames[1..], sampleCount := 0);
  }

  lemma SynthesisNext<L>(s: State<L>, a: Action<L>) returns (s': State<L>)
    requires Inv(s) && !Outside(a) && !a.OptimizeParameters? && Ready(s.pushing, s.work, s.reader, a)
    ensures Step(s, a, s')
  {
    match a
    case CheckLabel => s' := if s.ring.count > 0 then s.(work := Seen) else s;
    case TakeLabel =>
      var name := s.ring.slots[s.ring.read];
      s' := s.(ring := Taken(s.ring), taken := s.taken + [name], work := Popped(name));
    case PrepareModel => s' := s.(work := Prepared(s.work.name, Wrapped(s.read, s.count, MODEL_QUEUE)));
    case ComputeModel(duration) =>
      s' := s.(slots := s.slots[s.work.slot := Made(s.work.name, duration)], lasting := s.lasting + [duration],
               work := Computed(s.work.name, s.work.slot));
    case PushModel => s' := s.(count := s.count + 1, work := Queued(s.work.name));
    case CheckFrameRoom => s' := if |s.frames| >= FRAME_QUEUE then s else s.(work := s.work.(room := true));
    case EmitFrame =>
      var f := Frame(s.work.job, s.work.q);
      s' := s.(frames := s.frames + [f], produced := s.produced + [f], work := s.work.(q := s.work.q + 1, room := false));
    case Finish =>
      s' := s.(work := Idle, done := s.done + [s.work.job],
               read := if s.work.pop then (s.read + 1) % MODEL_QUEUE else s.read,
               count := if s.work.pop && s.count > 0 then s.count - 1 else s.count);
  }

  lemma StartsNext<L>(s: State<L>) returns (s': State<L>)
    requires Inv(s) && s.work.Queued?
    ensures Step(s, OptimizeParameters, s')
  {
    hide JobOk, AllFrames, ModelAt;
    var job := NewestJob(s);
    if s.count > NUM_LOOKUP + NUM_BACKUP {
      s' := s.(flag := false, work := Generating(job, 0, true, false));
    } else {
      JobIsNext(s, job);
      s' := s.(work := Generating(job, 0, false, false));
    }
  }

  /** The synthesis of the newest model with all the older ones as context. */
  lemma NewestJob<L>(s: State<L>) returns (job: Job<L>)
    requires QueueOk(s) && s.work.Queued?
    ensures s.count >= 1 && IsJob(s, job, s.count - 1)
  {
    var backup := s.count - 1;
    forall k: nat | k < s.count
      ensures Queue(s, k).Made?
    {
      assert ModelAt(s, k);
    }
    job := Job(Queue(s, backup).name, seq(backup, w requires 0 <= w < backup => Queue(s, w).name), Queue(s, backup).duration);
  }

  /** Takes one step if its thread is ready for it, and none otherwise. */
  method Perform<L(0)>(mage: Mage<L>, a: Action<L>) returns (taken: bool)
    requires mage.Valid()
    modifies mage, mage.labelQueue, mage.labelQueue.queue, mage.modelQueue, mage.modelQueue.rawData, mage.frameQueue, mage.frameQueue.rawData
    ensures mage.Valid() && taken == Ready(old(mage.pushing), old(mage.work), old(mage.reader), a)
    ensures if taken then Step(old(mage.View()), a, mage.View()) else mage.View() == old(mage.View())
  {
    hide Step, Inv;
    taken := Ready(mage.pushing, mage.work, mage.reader, a);
    if !taken {
      return;
    }
    match a
    case CheckRoom(name) => var _ := mage.CheckRoom(name);
    case StoreLabel => mage.StoreLabel();
    case ClearLabels => var _ := mage.ClearLabels();
    case Reset(hop) => mage.Reset(hop);
    case CheckLabel => var _ := mage.CheckLabel();
    case TakeLabel => mage.TakeLabel();
    case PrepareModel => mage.PrepareModel();
    case ComputeModel(duration) => mage.ComputeModel(duration);
    case PushModel => mage.PushModel();
    case OptimizeParameters => mage.OptimizeParameters();
    case CheckFrameRoom => var _ := mage.CheckFrameRoom();
    case EmitFrame => mage.EmitFrame();
    case Finish => mage.Finish();
    case Tick => var _ := mage.Tick();
    case ReadFrame => var _ := mage.ReadFrame();
    case DropFrame => mage.DropFrame();
  }

  lemma RunGrows<L>(states: seq<State<L>>, actions: seq<Action<L>>, a: Action<L>, s: State<L>)
    requires Run(states, actions) && Step(states[|actions|], a, s)
    ensures Run(states + [s], actions + [a])
  {
    var states', actions' := states + [s], actions + [a];
    forall i: nat | i < |actions'|
      ensures StepAt(states', actions', i)
    {
      assert i < |actions| ==> StepAt(states, actions, i);
    }
  }

  /** at[i] steps have been taken before the i-th of the schedule comes up: it is taken next if its
      thread is ready for it then, and passed over otherwise. */
  ghost predicate TurnOk<L>(schedule: seq<Action<L>>, states: seq<State<L>>, actions: seq<Action<L>>, at: seq<nat>, i: nat)
    requires i < |schedule| && i + 1 < |at|
  {
    && at[i] < |states|
    && var s := states[at[i]];
       if Ready(s.pushing, s.work, s.reader, schedule[i])
       then at[i] < |actions| && actions[at[i]] == schedule[i] && at[i + 1] == at[i] + 1
       else at[i + 1] == at[i]
  }

  /** The actions are exactly the steps among the first n of the schedule whose thread was ready, in order. */
  ghost predicate Follows<L>(schedule: seq<Action<L>>, n: nat, states: seq<State<L>>, actions: seq<Action<L>>, at: seq<nat>) {
    && n <= |schedule| && |at| == n + 1 && at[0] == 0 && at[n] == |actions|
    && forall i: nat {:trigger TurnOk(schedule, states, actions, at, i)} :: i < n ==> TurnOk(schedule, states, actions, at, i)
  }

  lemma FollowsTaken<L>(schedule: seq<Action<L>>, n: nat, states: seq<State<L>>, actions: seq<Action<L>>, at: seq<nat>, s: State<L>)
    requires Follows(schedule, n, states, actions, at) && n < |schedule| && |states| == |actions| + 1
    requires Ready(states[|actions|].pushing, states[|actions|].work, states[|actions|].reader, schedule[n])
    ensures Follows(schedule, n + 1, states + [s], actions + [schedule[n]], at + [|actions| + 1])
  {
    var states', actions', at' := states + [s], actions + [schedule[n]], at + [|actions| + 1];
    forall i: nat | i < n + 1
      ensures TurnOk(schedule, states', actions', at', i)
    {
      assert i < n ==> TurnOk(schedule, states, actions, at, i);
    }
  }

  lemma FollowsPassed<L>(schedule: seq<Action<L>>, n: nat, states: seq<State<L>>, actions: seq<Action<L>>, at: seq<nat>)
    requires Follows(schedule, n, states, actions, at) && n < |schedule| && |states| == |actions| + 1
    requires !Ready(states[|actions|].pushing, states[|actions|].work, states[|actions|].reader, schedule[n])
    ensures Follows(schedule, n + 1, states, actions, at + [|actions|])
  {
    var at' := at + [|actions|];
    forall i: nat | i < n + 1
      ensures TurnOk(schedule, states, actions, at', i)
    {
      assert i < n ==> TurnOk(schedule, states, actions, at, i);
    }
  }

  /** A new pipeline under any schedule goes through the run of those steps whose thread was ready. Its
      labels have been synthesised once and in order, exactly if none was taken after it had been cleared. */
  method Drive<L(0)>(schedule: seq<Action<L>>)
      returns (mage: Mage<L>, ghost states: seq<State<L>>, ghost actions: seq<Action<L>>, ghost at: seq<nat>)
    ensures mage.Valid() && Run(states, actions) && |states| == |actions| + 1 && states[|actions|] == mage.View()
    ensures Follows(schedule, |schedule|, states, actions, at)
    ensures AlwaysOnce(states, |actions|) <==> NoneCleared(actions, |actions|)
  {
    hide Step, Inv, Run, Follows, Ready;
    mage := new Mage<L>();
    states, actions, at := [mage.View()], [], [0];
    FirstRun(states[0]);
    FollowsNone(schedule, states);
    var i := 0;
    while i < |schedule|
      invariant i <= |schedule| && mage.Valid()
      invariant fresh(mage) && fresh(mage.labelQueue) && fresh(mage.labelQueue.queue) && fresh(mage.modelQueue)
      invariant fresh(mage.modelQueue.rawData) && fresh(mage.frameQueue) && fresh(mage.frameQueue.rawData)
      invariant Run(states, actions) && |states| == |actions| + 1 && states[|actions|] == mage.View()
      invariant Follows(schedule, i, states, actions, at)
    {
      ghost var before := mage.View();
      var taken := Perform(mage, schedule[i]);
      assert taken == Ready(before.pushing, before.work, before.reader, schedule[i]);
      if taken {
        RunGrows(states, actions, schedule[i], mage.View());
        FollowsTaken(schedule, i, states, actions, at, mage.View());
        states, actions, at := states + [mage.View()], actions + [schedule[i]], at + [|actions| + 1];
      } else {
        FollowsPassed(schedule, i, states, actions, at);
        at := at + [|actions|];
      }
      i := i + 1;
    }
    EachLabelOnce(states, actions, |actions|);
  }

  lemma FollowsNone<L>(schedule: seq<Action<L>>, states: seq<State<L>>)
    ensures Follows(schedule, 0, states, [], [0])
  {
  }

  lemma FirstRun<L>(s: State<L>)
    requires Init(s)
    ensures Run([s], [])
  {
  }
}
