/** The synthesis pipeline as interleaved steps: labels are pushed by one thread, synthesised by
    another, and the frames consumed by a third. A look at a queue and the change that follows it
    are separate steps, so another thread may come between them. */
module Pipeline {
  import opened ModelDurations
  import opened Queues

  const LABEL_QUEUE := 512
  const MODEL_QUEUE := 4
  const FRAME_QUEUE := 200

  /** A slot of the model queue: the label its model was computed for, and the model's duration. */
  datatype Entry<L> = Blank | Made(name: L, duration: nat)

  /** One synthesis: of this label, with these labels' models before it as context. */
  datatype Job<L> = Job(name: L, context: seq<L>, duration: nat)

  datatype Frame<L> = Frame(job: Job<L>, q: nat)

  /** Where the synthesis thread stands. */
  datatype Work<L> =
    | Idle
    | Seen
    | Popped(name: L)
    | Prepared(name: L, slot: nat)
    | Computed(name: L, slot: nat)
    | Queued(name: L)
    | Generating(job: Job<L>, q: nat, pop: bool, room: bool)

  /** Where the thread that pushes labels stands: storing a label means it has found room for it. */
  datatype Pushing<L> = Resting | Storing(name: L)

  /** Where the consumer stands: it has seen a frame, or has read it and not removed it yet. */
  datatype Reader = Counting | Seeing | Dropping

  /** The queues and flags, and what has happened so far: labels accepted (and not cleared),
      labels taken by the synthesis thread, how long the models computed for them last, jobs finished, frames produced and consumed. */
  datatype State<L> = State(ring: LabelRing<L>, pushing: Pushing<L>,
                            slots: seq<Entry<L>>, read: nat, count: nat, flag: bool, work: Work<L>,
                            frames: seq<Frame<L>>, reader: Reader, sampleCount: int, hopLen: int,
                            accepted: seq<L>, taken: seq<L>, lasting: seq<nat>, done: seq<Job<L>>,
                            produced: seq<Frame<L>>, consumed: seq<Frame<L>>)

  datatype Action<L> =
    | CheckRoom(name: L) | StoreLabel | ClearLabels | Reset(hop: int)
    | CheckLabel | TakeLabel
    | PrepareModel | ComputeModel(duration: nat) | PushModel | OptimizeParameters
    | CheckFrameRoom | EmitFrame | Finish
    | Tick | ReadFrame | DropFrame

  /** The k-th model of the queue, oldest first. */
  ghost function Queue<L>(s: State<L>, k: nat): Entry<L>
    requires |s.slots| == MODEL_QUEUE && s.read < MODEL_QUEUE && k <= MODEL_QUEUE
  {
    s.slots[Wrapped(s.read, k, MODEL_QUEUE)]
  }

  ghost predicate RingOk<L>(s: State<L>) {
    |s.slots| == MODEL_QUEUE && s.read < MODEL_QUEUE && s.count < MODEL_QUEUE
  }

  /** The synthesis of the newest model with the given number of older ones as context. */
  ghost predicate IsJob<L>(s: State<L>, job: Job<L>, backup: nat)
    requires RingOk(s) && backup < s.count
  {
    && Queue(s, backup).Made? && job.name == Queue(s, backup).name && job.duration == Queue(s, backup).duration
    && |job.context| == backup
    && forall w: nat :: w < backup ==> Queue(s, w).Made? && job.context[w] == Queue(s, w).name
  }

  /** Steps of the threads that push labels, clear them and reset the program. */
  ghost predicate ControlStep<L>(s: State<L>, a: Action<L>, s': State<L>)
    requires a.CheckRoom? || a.StoreLabel? || a.ClearLabels? || a.Reset?
  {
    match a
    case CheckRoom(name) =>
      s.pushing == Resting && s' == if s.ring.count >= |s.ring.slots| then s else s.(pushing := Storing(name))
    case StoreLabel =>
      && s.pushing.Storing? && Shaped(s.ring)
      && s' == s.(ring := Stored(s.ring, s.pushing.name), accepted := s.accepted + [s.pushing.name], pushing := Resting)
    case ClearLabels => s' == s.(ring := Cleared(s.ring), accepted := s.taken)
    case Reset(hop) => s' == s.(flag := true, sampleCount := 0, hopLen := hop)
  }

  /** Steps of the thread that plays the frames. */
  ghost predicate ConsumerStep<L>(s: State<L>, a: Action<L>, s': State<L>)
    requires a.Tick? || a.ReadFrame? || a.DropFrame?
  {
    match a
    case Tick =>
      && s.reader == Counting
      && s' == if s.sampleCount < s.hopLen - 1 then s.(sampleCount := s.sampleCount + 1)
               else if s.frames != [] then s.(reader := Seeing) else s.(sampleCount := 0)
    case ReadFrame =>
      && s.reader == Seeing
      && (s.frames != [] ==> s' == s.(reader := Dropping, consumed := s.consumed + [s.frames[0]]))
    case DropFrame =>
      && s.reader == Dropping
      && (s.frames != [] ==> s' == s.(reader := Counting, frames := s.frames[1..], sampleCount := 0))
  }

  /** Steps of the synthesis thread. */
  ghost predicate SynthesisStep<L>(s: State<L>, a: Action<L>, s': State<L>)
    requires !Outside(a)
  {
    match a
    case CheckLabel =>
      s.work == Idle && s' == if s.ring.count > 0 then s.(work := Seen) else s
    case TakeLabel =>
      && s.work == Seen && Shaped(s.ring)
      && var name := s.ring.slots[s.ring.read];
         s' == s.(ring := Taken(s.ring), taken := s.taken + [name], work := Popped(name))
    case PrepareModel =>
      && s.work.Popped? && s.read < MODEL_QUEUE && s.count <= MODEL_QUEUE
      && s' == s.(work := Prepared(s.work.name, Wrapped(s.read, s.count, MODEL_QUEUE)))
    case ComputeModel(duration) =>
      && s.work.Prepared? && s.work.slot < |s.slots| && duration <= MAX_DURATION
      && s' == s.(slots := s.slots[s.work.slot := Made(s.work.name, duration)], lasting := s.lasting + [duration],
                  work := Computed(s.work.name, s.work.slot))
    case PushModel =>
      s.work.Computed? && s' == s.(count := s.count + 1, work := Queued(s.work.name))
    case OptimizeParameters =>
      && s.work.Queued? && RingOk(s)
      && if s.count > NUM_LOOKUP + NUM_BACKUP then
           && s'.work.Generating? && s'.work.q == 0 && s'.work.pop && !s'.work.room && IsJob(s, s'.work.job, NUM_BACKUP)
           && s' == s.(flag := false, work := s'.work)
         else if s.count > NUM_LOOKUP && s.flag then
           && s'.work.Generating? && s'.work.q == 0 && !s'.work.pop && !s'.work.room && IsJob(s, s'.work.job, s.count - NUM_LOOKUP - 1)
           && s' == s.(work := s'.work)
         else s' == s.(work := Idle)
    case CheckFrameRoom =>
      && s.work.Generating? && s.work.q < s.work.job.duration
      && s' == if |s.frames| >= FRAME_QUEUE then s else s.(work := s.work.(room := true))
    case EmitFrame =>
      // Without room the ring would be overrun: then nothing is said, and it is proved not to happen.
      && s.work.Generating? && s.work.room
      && var f := Frame(s.work.job, s.work.q);
         |s.frames| < FRAME_QUEUE ==>
           s' == s.(frames := s.frames + [f], produced := s.produced + [f],
                    work := s.work.(q := s.work.q + 1, room := false))
    case Finish =>
      && s.work.Generating? && s.work.q == s.work.job.duration && RingOk(s)
      && s' == s.(work := Idle, done := s.done + [s.work.job],
                  read := if s.work.pop then (s.read + 1) % MODEL_QUEUE else s.read,
                  count := if s.work.pop && s.count > 0 then s.count - 1 else s.count)
  }

  predicate Outside<L>(a: Action<L>) {
    a.CheckRoom? || a.StoreLabel? || a.ClearLabels? || a.Reset? || a.Tick? || a.ReadFrame? || a.DropFrame?
  }

  ghost predicate Step<L>(s: State<L>, a: Action<L>, s': State<L>) {
    if a.Tick? || a.ReadFrame? || a.DropFrame? then ConsumerStep(s, a, s')
    else if Outside(a) then ControlStep(s, a, s')
    else SynthesisStep(s, a, s')
  }

  // ----- what every interleaving keeps -----

  function Min(a: nat, b: nat): nat {
    if a < b then a else b
  }

  /** The labels at most two before the n-th taken, oldest first. */
  function Context<L>(taken: seq<L>, n: nat): seq<L>
    requires n <= |taken|
  {
    taken[n - Min(n, NUM_BACKUP)..n]
  }

  /** The n-th job synthesises the n-th label taken, for as long as the model computed for it lasts, with
      its predecessors as context. */
  ghost predicate JobOk<L>(taken: seq<L>, lasting: seq<nat>, job: Job<L>, n: nat) {
    && n < |taken| && job.name == taken[n] && job.context == Context(taken, n)
    && n < |lasting| && job.duration == lasting[n]
  }

  ghost predicate JobAt<L>(s: State<L>, n: nat)
    requires n < |s.done|
  {
    JobOk(s.taken, s.lasting, s.done[n], n)
  }

  ghost predicate JobsOk<L>(s: State<L>) {
    forall n: nat {:trigger JobAt(s, n)} :: n < |s.done| ==> JobAt(s, n)
  }

  lemma JobsStay<L>(s: State<L>, s': State<L>)
    requires JobsOk(s) && s'.done == s.done && s.taken <= s'.taken && s.lasting <= s'.lasting
    ensures JobsOk(s')
  {
    forall n: nat | n < |s'.done|
      ensures JobAt(s', n)
    {
      assert JobAt(s, n);
      assert Context(s.taken, n) == Context(s'.taken, n);
    }
  }

  lemma JobDone<L>(s: State<L>, s': State<L>)
    requires JobsOk(s) && s.work.Generating? && JobOk(s.taken, s.lasting, s.work.job, |s.done|)
    requires s'.done == s.done + [s.work.job] && s'.taken == s.taken && s'.lasting == s.lasting
    ensures JobsOk(s')
  {
    forall n: nat | n < |s'.done|
      ensures JobAt(s', n)
    {
      assert n < |s.done| ==> JobAt(s, n);
    }
  }

  ghost function FramesOf<L>(job: Job<L>, n: nat): seq<Frame<L>> {
    seq(n, q requires 0 <= q => Frame(job, q))
  }

  ghost function AllFrames<L>(jobs: seq<Job<L>>): seq<Frame<L>> {
    if jobs == [] then [] else AllFrames(jobs[..|jobs| - 1]) + FramesOf(jobs[|jobs| - 1], jobs[|jobs| - 1].duration)
  }

  /** Whether the model being worked on is in the queue already. */
  ghost predicate InQueue<L>(work: Work<L>) {
    work.Queued? || work.Generating?
  }

  /** The queue holds the models of the labels taken last. */
  ghost predicate QueueOk<L>(s: State<L>) {
    && RingOk(s)
    && s.count == Min(|s.done|, NUM_BACKUP) + (if InQueue(s.work) then 1 else 0)
    && forall k: nat :: k < s.count ==> ModelAt(s, k)
  }

  ghost predicate ModelAt<L>(s: State<L>, k: nat)
    requires RingOk(s) && k < s.count
  {
    var n := |s.done| - Min(|s.done|, NUM_BACKUP) + k;
    && n < |s.taken| && Queue(s, k).Made? && Queue(s, k).name == s.taken[n]
    && n < |s.lasting| && Queue(s, k).duration == s.lasting[n]
  }

  ghost predicate WorkOk<L>(s: State<L>)
    requires RingOk(s)
  {
    && |s.lasting| == |s.done| + (if s.work.Computed? || InQueue(s.work) then 1 else 0)
    && match s.work
    case Idle => |s.taken| == |s.done|
    case Seen => |s.taken| == |s.done|
    case Popped(name) => |s.taken| == |s.done| + 1 && s.taken[|s.done|] == name
    case Prepared(name, slot) =>
      |s.taken| == |s.done| + 1 && s.taken[|s.done|] == name && slot == Wrapped(s.read, s.count, MODEL_QUEUE)
    case Computed(name, slot) =>
      && |s.taken| == |s.done| + 1 && s.taken[|s.done|] == name && slot == Wrapped(s.read, s.count, MODEL_QUEUE)
      && Queue(s, s.count).Made? && Queue(s, s.count).name == name && Queue(s, s.count).duration == s.lasting[|s.done|]
    case Queued(name) => |s.taken| == |s.done| + 1 && s.taken[|s.done|] == name
    case Generating(job, q, pop, room) =>
      && |s.taken| == |s.done| + 1 && JobOk(s.taken, s.lasting, job, |s.done|) && q <= job.duration && (pop <==> |s.done| >= NUM_BACKUP)
      && (room ==> q < job.duration)
  }

  /** The synthesis thread's own part of the invariant. */
  ghost predicate SynthesisOk<L>(s: State<L>) {
    && QueueOk(s) && WorkOk(s)
    && (s.flag || |s.done| >= NUM_BACKUP)
    && JobsOk(s)
    && s.produced == AllFrames(s.done) + InHand(s.work)
  }

  /** What no interleaving breaks, whatever the label queue holds. */
  ghost predicate Inv<L>(s: State<L>) {
    SynthesisOk(s) && FramesOk(s) && Shaped(s.ring) && |s.ring.slots| == LABEL_QUEUE
  }

  /** The frames not consumed yet. */
  function Unread<L>(s: State<L>): seq<Frame<L>> {
    if s.reader == Dropping && s.frames != [] then s.frames[1..] else s.frames
  }

  /** What a thread found when it looked still holds when it acts on it. */
  ghost predicate FramesOk<L>(s: State<L>) {
    && s.consumed + Unread(s) == s.produced && |s.frames| <= FRAME_QUEUE
    && (s.reader != Counting ==> s.frames != [])
    && (s.work.Generating? && s.work.room ==> |s.frames| < FRAME_QUEUE)
  }

  /** The frames produced so far of the synthesis in hand. */
  ghost function InHand<L>(work: Work<L>): seq<Frame<L>> {
    if work.Generating? then FramesOf(work.job, work.q) else []
  }

  ghost predicate Init<L>(s: State<L>) {
    && |s.ring.slots| == LABEL_QUEUE && s.ring.read == s.ring.write == s.ring.count == 0 && s.pushing == Resting
    && |s.slots| == MODEL_QUEUE && s.read == 0 && s.count == 0 && s.flag && s.work == Idle
    && s.frames == [] && s.reader == Counting
    && s.accepted == [] && s.taken == [] && s.lasting == [] && s.done == [] && s.produced == [] && s.consumed == []
  }

  lemma InitOk<L>(s: State<L>)
    requires Init(s)
    ensures Inv(s)
  {
  }

  lemma SynthesisSame<L>(s: State<L>, s': State<L>)
    requires SynthesisOk(s) && s'.work == s.work && s'.done == s.done && s'.taken == s.taken && s'.lasting == s.lasting && s'.produced == s.produced
    requires s'.slots == s.slots && s'.read == s.read && s'.count == s.count && (s'.flag == s.flag || s'.flag)
    ensures SynthesisOk(s')
  {
    hide QueueOk, WorkOk, JobOk, AllFrames, FramesOf, RingOk;
    JobsStay(s, s');
    QueueSame(s, s');
  }

  lemma LabelSteps<L>(s: State<L>, a: Action<L>, s': State<L>)
    requires Inv(s) && Step(s, a, s') && Outside(a) && !a.Tick? && !a.ReadFrame? && !a.DropFrame?
    ensures Inv(s')
  {
    hide SynthesisOk, Shaped, SynthesisStep, ConsumerStep;
    SynthesisSame(s, s');
    RingStays(s, a, s');
  }

  lemma ConsumerSteps<L>(s: State<L>, a: Action<L>, s': State<L>)
    requires Inv(s) && Step(s, a, s') && (a.Tick? || a.ReadFrame? || a.DropFrame?)
    ensures Inv(s')
  {
    hide SynthesisOk, Shaped, SynthesisStep, ControlStep;
    SynthesisSame(s, s');
    if a.ReadFrame? {
      FirstMoves(s.consumed, s.frames);
    }
  }

  lemma FirstMoves<T>(s: seq<T>, t: seq<T>)
    requires t != []
    ensures (s + [t[0]]) + t[1..] == s + t
  {
  }

  lemma RingStays<L>(s: State<L>, a: Action<L>, s': State<L>)
    requires Shaped(s.ring) && Step(s, a, s') && (Outside(a) || a.CheckLabel? || a.TakeLabel?)
    requires s.reader != Counting ==> s.frames != []
    ensures Shaped(s'.ring) && |s'.ring.slots| == |s.ring.slots|
  {
    hide RingOk;
    if a.StoreLabel? {
      StoredOk(s.ring, s.pushing.name);
    }
    TakenOk(s.ring);
    ClearedOk(s.ring);
  }

  lemma QueueSame<L>(s: State<L>, s': State<L>)
    requires QueueOk(s) && WorkOk(s) && s'.work == s.work && s'.done == s.done && s'.taken == s.taken && s'.lasting == s.lasting
    requires s'.slots == s.slots && s'.read == s.read && s'.count == s.count
    ensures QueueOk(s') && WorkOk(s')
  {
    forall k: nat | k < s'.count
      ensures ModelAt(s', k)
    {
      assert ModelAt(s, k);
    }
  }

  lemma TakeSteps<L>(s: State<L>, a: Action<L>, s': State<L>)
    requires Inv(s) && Step(s, a, s') && (a.CheckLabel? || a.TakeLabel? || a.PrepareModel?)
    ensures Inv(s')
  {
    hide AllFrames, FramesOf, Shaped, Taken;
    JobsStay(s, s');
    if !a.PrepareModel? {
      RingStays(s, a, s');
    }
    forall k: nat | k < s'.count
      ensures ModelAt(s', k)
    {
      assert ModelAt(s, k);
    }
  }

  /** Computing a model touches no model that is still in use. */
  lemma ComputeStep<L>(s: State<L>, a: Action<L>, s': State<L>)
    requires Inv(s) && Step(s, a, s') && a.ComputeModel?
    ensures Inv(s')
  {
    hide JobOk, AllFrames, FramesOf;
    JobsStay(s, s');
    forall k: nat | k < s'.count
      ensures ModelAt(s', k)
    {
      assert ModelAt(s, k);
      WrapApart(s.read, k, s.count, MODEL_QUEUE);
    }
  }

  lemma PushStep<L>(s: State<L>, a: Action<L>, s': State<L>)
    requires Inv(s) && Step(s, a, s') && a.PushModel?
    ensures Inv(s')
  {
    hide JobOk, AllFrames, FramesOf;
    JobsStay(s, s');
    assert Queue(s, s.count).Made?;
    forall k: nat | k < s'.count
      ensures ModelAt(s', k)
    {
      if k < s.count {
        assert ModelAt(s, k);
      }
    }
  }

  /** Whatever the branch, the job is that of the label just taken; the branch that would skip it
      is never taken. */
  lemma OptimizeStep<L>(s: State<L>, a: Action<L>, s': State<L>)
    requires Inv(s) && Step(s, a, s') && a.OptimizeParameters?
    ensures Inv(s') && s'.work.Generating?
  {
    hide ModelAt, IsJob, JobOk, AllFrames, Queue;
    JobsStay(s, s');
    JobIsNext(s, s'.work.job);
    QueueStays(s, s');
    assert FramesOf(s'.work.job, 0) == [];
  }

  /** The newest model in the queue with all the older ones is the job of the label just taken. */
  lemma JobIsNext<L>(s: State<L>, job: Job<L>)
    requires QueueOk(s) && WorkOk(s) && s.work.Queued?
    ensures s.count >= 1 && (s.count > NUM_BACKUP <==> |s.done| >= NUM_BACKUP)
    ensures IsJob(s, job, s.count - 1) ==> JobOk(s.taken, s.lasting, job, |s.done|)
  {
    hide Queue;
    var backup := s.count - 1;
    assert ModelAt(s, backup);
    if IsJob(s, job, backup) {
      JobContext(s, job, backup);
    }
  }

  lemma JobContext<L>(s: State<L>, job: Job<L>, backup: nat)
    requires QueueOk(s) && |s.taken| == |s.done| + 1 && backup == s.count - 1 == Min(|s.done|, NUM_BACKUP)
    requires IsJob(s, job, backup)
    ensures job.context == Context(s.taken, |s.done|)
  {
    hide Queue;
    forall w: nat | w < backup
      ensures job.context[w] == Context(s.taken, |s.done|)[w]
    {
      assert ModelAt(s, w);
    }
  }

  lemma QueueStays<L>(s: State<L>, s': State<L>)
    requires QueueOk(s) && InQueue(s.work) && InQueue(s'.work) && s'.done == s.done && s'.taken == s.taken && s'.lasting == s.lasting
    requires s'.slots == s.slots && s'.read == s.read && s'.count == s.count
    ensures QueueOk(s')
  {
    forall k: nat | k < s'.count
      ensures ModelAt(s', k)
    {
      assert ModelAt(s, k);
    }
  }

  lemma EmitStep<L>(s: State<L>, a: Action<L>, s': State<L>)
    requires Inv(s) && Step(s, a, s') && (a.CheckFrameRoom? || a.EmitFrame?)
    ensures Inv(s')
  {
    hide QueueOk, JobOk, AllFrames, FramesOf, ModelAt, Shaped;
    JobsStay(s, s');
    QueueStays(s, s');
    var job, q := s.work.job, s.work.q;
    OneFrameMore(job, q);
  }

  lemma OneFrameMore<L>(job: Job<L>, q: nat)
    ensures FramesOf(job, q + 1) == FramesOf(job, q) + [Frame(job, q)]
  {
  }

  lemma FinishStep<L>(s: State<L>, a: Action<L>, s': State<L>)
    requires Inv(s) && Step(s, a, s') && a.Finish?
    ensures Inv(s')
  {
    hide JobOk, AllFrames, FramesOf, QueueOk;
    JobDone(s, s');
    JobFinished(s.done, s.work.job);
    QueueMoves(s, s');
  }

  lemma JobFinished<L>(done: seq<Job<L>>, job: Job<L>)
    ensures AllFrames(done + [job]) == AllFrames(done) + FramesOf(job, job.duration)
  {
    assert (done + [job])[..|done|] == done;
  }

  /** Popping the oldest model once there are three leaves the last two. */
  lemma QueueMoves<L>(s: State<L>, s': State<L>)
    requires QueueOk(s) && WorkOk(s) && s.work.Generating? && s'.work == Idle
    requires s'.slots == s.slots && s'.taken == s.taken && s'.lasting == s.lasting && |s'.done| == |s.done| + 1
    requires s'.read == if s.work.pop then (s.read + 1) % MODEL_QUEUE else s.read
    requires s'.count == if s.work.pop && s.count > 0 then s.count - 1 else s.count
    ensures QueueOk(s')
  {
    hide JobOk;
    WrapIsRemainder(s.read, 1, MODEL_QUEUE);
    forall k: nat | k < s'.count
      ensures ModelAt(s', k)
    {
      assert ModelAt(s, if s.work.pop then k + 1 else k);
    }
  }

  /** Every step of every thread keeps the invariant. */
  lemma StepKeepsInv<L>(s: State<L>, a: Action<L>, s': State<L>)
    requires Inv(s) && Step(s, a, s')
    ensures Inv(s')
  {
    hide Inv, Step;
    match a
    case CheckRoom(_) => LabelSteps(s, a, s');
    case StoreLabel => LabelSteps(s, a, s');
    case ClearLabels => LabelSteps(s, a, s');
    case Reset(_) => LabelSteps(s, a, s');
    case Tick => ConsumerSteps(s, a, s');
    case ReadFrame => ConsumerSteps(s, a, s');
    case DropFrame => ConsumerSteps(s, a, s');
    case CheckLabel => TakeSteps(s, a, s');
    case TakeLabel => TakeSteps(s, a, s');
    case PrepareModel => TakeSteps(s, a, s');
    case ComputeModel(_) => ComputeStep(s, a, s');
    case PushModel => PushStep(s, a, s');
    case OptimizeParameters => OptimizeStep(s, a, s');
    case CheckFrameRoom => EmitStep(s, a, s');
    case EmitFrame => EmitStep(s, a, s');
    case Finish => FinishStep(s, a, s');
  }

  // ----- runs -----

  ghost predicate StepAt<L>(states: seq<State<L>>, actions: seq<Action<L>>, i: nat)
    requires |states| == |actions| + 1 && i < |actions|
  {
    Step(states[i], actions[i], states[i + 1])
  }

  ghost predicate Run<L>(states: seq<State<L>>, actions: seq<Action<L>>) {
    && |states| == |actions| + 1 && Init(states[0])
    && forall i: nat {:trigger StepAt(states, actions, i)} :: i < |actions| ==> StepAt(states, actions, i)
  }

  lemma {:induction false} RunOk<L>(states: seq<State<L>>, actions: seq<Action<L>>, i: nat)
    requires Run(states, actions) && i < |states|
    ensures Inv(states[i])
  {
    if i == 0 {
      InitOk(states[0]);
    } else {
      RunOk(states, actions, i - 1);
      assert StepAt(states, actions, i - 1);
      StepKeepsInv(states[i - 1], actions[i - 1], states[i]);
    }
  }

  /** At every moment of every run, even one that takes a label that is not there: the n-th finished
      synthesis is of the n-th label taken, lasts as long as the model computed for it, and has the labels
      at most two before it as context; all but the one in hand are finished; the model queue holds the
      last min(n, 2) models. */
  lemma EachTakenOnce<L>(states: seq<State<L>>, actions: seq<Action<L>>, i: nat)
    requires Run(states, actions) && i < |states|
    ensures TakenOnce(states[i]) && states[i].lasting == Durations(actions, i)
  {
    RunOk(states, actions, i);
    LastingIs(states, actions, i);
    var s := states[i];
    forall n: nat | n < |s.done|
      ensures DoneOnce(s, n)
    {
      assert JobAt(s, n);
    }
  }

  /** The durations that models were computed to have, by the first n actions. */
  ghost function Durations<L>(actions: seq<Action<L>>, n: nat): seq<nat>
    requires n <= |actions|
  {
    if n == 0 then []
    else if actions[n - 1].ComputeModel? then Durations(actions, n - 1) + [actions[n - 1].duration]
    else Durations(actions, n - 1)
  }

  lemma {:induction false} LastingIs<L>(states: seq<State<L>>, actions: seq<Action<L>>, i: nat)
    requires Run(states, actions) && i < |states|
    ensures states[i].lasting == Durations(actions, i)
  {
    if i > 0 {
      LastingIs(states, actions, i - 1);
      RunOk(states, actions, i - 1);
      assert StepAt(states, actions, i - 1);
      LastingStep(states[i - 1], actions[i - 1], states[i]);
    }
  }

  lemma LastingStep<L>(s: State<L>, a: Action<L>, s': State<L>)
    requires Inv(s) && Step(s, a, s')
    ensures s'.lasting == if a.ComputeModel? then s.lasting + [a.duration] else s.lasting
  {
    hide SynthesisOk, Shaped, IsJob, RingOk;
  }

  /** The n-th synthesis, with all it depends on. */
  ghost predicate DoneOnce<L>(s: State<L>, n: nat) {
    && n < |s.done| && n < |s.taken| && n < |s.lasting|
    && s.done[n].name == s.taken[n] && s.done[n].duration == s.lasting[n]
    && s.done[n].context == s.taken[if n < NUM_BACKUP then 0 else n - NUM_BACKUP..n]
  }

  ghost predicate TakenOnce<L>(s: State<L>) {
    && |s.done| <= |s.taken| <= |s.done| + 1 && (s.work == Idle || s.work == Seen <==> |s.taken| == |s.done|)
    && (forall n: nat {:trigger s.done[n]} :: n < |s.done| ==> DoneOnce(s, n))
    && (!InQueue(s.work) ==> s.count == Min(|s.done|, NUM_BACKUP))
  }

  /** How many frames the first n labels give. */
  ghost function Start(lasting: seq<nat>, n: nat): nat
    requires n <= |lasting|
  {
    if n == 0 then 0 else Start(lasting, n - 1) + lasting[n - 1]
  }

  /** The n-th of these jobs gives as many frames as it lasts, after those of the jobs before it. */
  lemma {:induction false} FramesOfEach<L>(jobs: seq<Job<L>>, lasting: seq<nat>, n: nat, q: nat)
    requires |jobs| <= |lasting| && forall k :: 0 <= k < |jobs| ==> jobs[k].duration == lasting[k]
    ensures |AllFrames(jobs)| == Start(lasting, |jobs|)
    ensures n < |jobs| && q < lasting[n] ==>
              Start(lasting, n) + q < |AllFrames(jobs)| && AllFrames(jobs)[Start(lasting, n) + q] == Frame(jobs[n], q)
    decreases |jobs|
  {
    if jobs != [] {
      FramesOfEach(jobs[..|jobs| - 1], lasting, n, q);
    }
  }

  /** Frame q of the n-th label, where it is among those produced. */
  ghost predicate GivesFrame<L>(s: State<L>, n: nat, q: nat)
    requires n < |s.done| <= |s.lasting|
  {
    Start(s.lasting, n) + q < |s.produced| && s.produced[Start(s.lasting, n) + q] == Frame(s.done[n], q)
  }

  /** The frames consumed are the first of those produced, and those are exactly the frames of the
      finished syntheses in order, with the first of the one in hand: for each label in turn as many as
      the model computed for it lasts. */
  lemma FramesInOrder<L>(states: seq<State<L>>, actions: seq<Action<L>>, i: nat)
    requires Run(states, actions) && i < |states|
    ensures var s := states[i];
            && s.consumed <= s.produced && AllFrames(s.done) <= s.produced
            && |s.produced| - |s.consumed| <= FRAME_QUEUE
            && (s.work == Idle ==> s.produced == AllFrames(s.done))
            && |s.done| <= |s.lasting| && |AllFrames(s.done)| == Start(s.lasting, |s.done|)
    ensures var s := states[i];
            forall n: nat, q: nat {:trigger GivesFrame(s, n, q)} :: n < |s.done| && q < s.lasting[n] ==> GivesFrame(s, n, q)
  {
    RunOk(states, actions, i);
    EachTakenOnce(states, actions, i);
    var s := states[i];
    assert s.consumed + Unread(s) == s.produced;
    assert forall n: nat :: n < |s.done| ==> DoneOnce(s, n);
    hide Run, AllFrames, Inv;
    FramesOfEach(s.done, s.lasting, 0, 0);
    forall n: nat, q: nat | n < |s.done| && q < s.lasting[n]
      ensures GivesFrame(s, n, q)
    {
      FramesOfEach(s.done, s.lasting, n, q);
    }
  }

  /** The slot handed out for a new model is never one of a model still in the queue. */
  lemma NextSlotIsFree<L>(states: seq<State<L>>, actions: seq<Action<L>>, i: nat, k: nat)
    requires Run(states, actions) && i < |states| && states[i].work.Prepared? && k < states[i].count
    ensures var s := states[i];
            s.read < MODEL_QUEUE && k < MODEL_QUEUE && s.work.slot != Wrapped(s.read, k, MODEL_QUEUE)
  {
    RunOk(states, actions, i);
    WrapApart(states[i].read, k, states[i].count, MODEL_QUEUE);
  }

  /** No label is ever skipped: the step after a model is queued always starts its synthesis. */
  lemma NeverSkipped<L>(states: seq<State<L>>, actions: seq<Action<L>>, i: nat)
    requires Run(states, actions) && i < |actions| && actions[i] == OptimizeParameters
    ensures states[i + 1].work.Generating?
  {
    RunOk(states, actions, i);
    assert StepAt(states, actions, i);
    OptimizeStep(states[i], actions[i], states[i + 1]);
  }
}
