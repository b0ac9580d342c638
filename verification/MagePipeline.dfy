/** The pipeline as the program keeps it: three queues, a flag and a sample counter, updated in
    place. Each method is a step of the pipeline, or the steps of one routine in a row, so whatever
    holds over all runs of the steps holds of it. */
module MagePipeline {
  import opened ModelDurations
  import opened Queues
  import opened Pipeline
  import opened LabelRuns

  class Mage<L(0)> {
    const labelQueue: LabelQueue<L>
    const modelQueue: MemQueue<Entry<L>>
    const frameQueue: MemQueue<Frame<L>>
    var flag: bool
    var sampleCount: int
    var hopLen: int
    var pushing: Pushing<L>
    var work: Work<L>
    var reader: Reader
    ghost var accepted: seq<L>
    ghost var taken: seq<L>
    ghost var lasting: seq<nat>
    ghost var done: seq<Job<L>>
    ghost var produced: seq<Frame<L>>
    ghost var consumed: seq<Frame<L>>

    ghost predicate Queues()
      reads this, labelQueue, labelQueue.queue, modelQueue, frameQueue
    {
      && labelQueue.Shape() && labelQueue.queue.Length == LABEL_QUEUE
      && modelQueue.Valid() && modelQueue.length == MODEL_QUEUE
      && frameQueue.Valid() && frameQueue.length == FRAME_QUEUE
      && (labelQueue as object) != (modelQueue as object) && (labelQueue as object) != (frameQueue as object)
      && (modelQueue as object) != (frameQueue as object)
      && (labelQueue.queue as object) != (modelQueue.rawData as object)
      && (labelQueue.queue as object) != (frameQueue.rawData as object)
      && (modelQueue.rawData as object) != (frameQueue.rawData as object)
    }

    ghost function View(): State<L>
      reads this, labelQueue, labelQueue.queue, modelQueue, modelQueue.rawData, frameQueue, frameQueue.rawData
      requires Queues()
    {
      State(labelQueue.Ring(), pushing, modelQueue.rawData[..], modelQueue.read, modelQueue.nOfItems, flag, work,
            frameQueue.Contents(), reader, sampleCount, hopLen, accepted, taken, lasting, done, produced, consumed)
    }

    ghost predicate Valid()
      reads this, labelQueue, labelQueue.queue, modelQueue, modelQueue.rawData, frameQueue, frameQueue.rawData
    {
      Queues() && Inv(View())
    }

    constructor ()
      ensures Valid() && Init(View())
      ensures fresh(labelQueue) && fresh(labelQueue.queue) && fresh(modelQueue) && fresh(modelQueue.rawData)
      ensures fresh(frameQueue) && fresh(frameQueue.rawData)
    {
      labelQueue := new LabelQueue<L>(LABEL_QUEUE);
      modelQueue := new MemQueue<Entry<L>>(MODEL_QUEUE);
      frameQueue := new MemQueue<Frame<L>>(FRAME_QUEUE);
      flag, sampleCount, hopLen, pushing, work, reader := true, 0, 240, Resting, Idle, Counting;
      accepted, taken, lasting, done, produced, consumed := [], [], [], [], [], [];
      new;
      assert View().slots == modelQueue.rawData[..];
      InitOk(View());
    }

    method CheckRoom(name: L) returns (room: bool)
      requires Valid() && pushing == Resting
      modifies this`pushing
      ensures Valid() && Step(old(View()), Action.CheckRoom(name), View())
      ensures room == (old(View()).ring.count < LABEL_QUEUE) && (room ==> pushing == Storing(name))
    {
      hide Inv;
      ghost var s := View();
      var full := labelQueue.IsFull();
      room := !full;
      if room {
        pushing := Storing(name);
      }
      StepKeepsInv(s, Action.CheckRoom(name), View());
    }

    method StoreLabel()
      requires Valid() && pushing.Storing?
      modifies this`pushing, this`accepted, labelQueue`write, labelQueue`nOfLabels, labelQueue.queue
      ensures Valid() && Step(old(View()), Action.StoreLabel, View())
    {
      hide Inv;
      ghost var s := View();
      labelQueue.Push(pushing.name);
      accepted := accepted + [pushing.name];
      pushing := Resting;
      StepKeepsInv(s, Action.StoreLabel, View());
    }

    /** Appends a label if there is room. With no other thread in between, the labels stay in order. */
    method PushLabel(name: L) returns (stored: bool, ghost between: State<L>)
      requires Valid() && pushing == Resting
      modifies this`pushing, this`accepted, labelQueue`write, labelQueue`nOfLabels, labelQueue.queue
      ensures Valid() && Step(old(View()), Action.CheckRoom(name), between)
      ensures if stored then Step(between, Action.StoreLabel, View()) else View() == between == old(View())
      ensures stored == (old(View()).ring.count < LABEL_QUEUE)
      ensures old(LabelsOk(View())) ==>
        LabelsOk(View())
        && Labels(View().ring) == old(Labels(View().ring)) + (if stored then [name] else [])
    {
      hide Inv;
      ghost var s := View();
      stored := CheckRoom(name);
      between := View();
      if stored {
        StoreLabel();
        StoredOk(between.ring, name);
        if LabelsOk(s) {
          LabelStep(s, Action.CheckRoom(name), between);
          LabelStep(between, Action.StoreLabel, View());
        }
      }
    }

    method ClearLabels() returns (next: L)
      requires Valid()
      modifies this`accepted, labelQueue`read, labelQueue`write, labelQueue`nOfLabels
      ensures Valid() && Step(old(View()), Action.ClearLabels, View())
      ensures old(LabelsOk(View())) && old(Labels(View().ring)) != [] ==> next == old(Labels(View().ring))[0]
    {
      hide Inv;
      ghost var s := View();
      next := labelQueue.Clear();
      accepted := taken;
      StepKeepsInv(s, Action.ClearLabels, View());
    }

    method Reset(defaultFrameRate: int)
      requires Valid()
      modifies this`flag, this`sampleCount, this`hopLen
      ensures Valid() && Step(old(View()), Action.Reset(defaultFrameRate), View())
    {
      hide Inv;
      ghost var s := View();
      flag, sampleCount, hopLen := true, 0, defaultFrameRate;
      StepKeepsInv(s, Action.Reset(defaultFrameRate), View());
    }

    method CheckLabel() returns (seen: bool)
      requires Valid() && work == Idle
      modifies this`work
      ensures Valid() && Step(old(View()), Action.CheckLabel, View())
      ensures seen == (old(View()).ring.count > 0) && (seen ==> work == Seen)
    {
      hide Inv;
      ghost var s := View();
      var empty := labelQueue.IsEmpty();
      seen := !empty;
      if seen {
        work := Seen;
      }
      StepKeepsInv(s, Action.CheckLabel, View());
    }

    method TakeLabel()
      requires Valid() && work == Seen
      modifies this`work, this`taken, labelQueue`read, labelQueue`nOfLabels
      ensures Valid() && Step(old(View()), Action.TakeLabel, View())
    {
      hide Inv;
      ghost var s := View();
      var name := labelQueue.Pop();
      work := Popped(name);
      taken := taken + [name];
      StepKeepsInv(s, Action.TakeLabel, View());
    }

    /** Takes the oldest label, if there is one. With no other thread in between, it is there. */
    method PopLabel() returns (popped: bool, ghost between: State<L>)
      requires Valid() && work == Idle
      modifies this`work, this`taken, labelQueue`read, labelQueue`nOfLabels
      ensures Valid() && Step(old(View()), Action.CheckLabel, between)
      ensures if popped then Step(between, Action.TakeLabel, View()) else View() == between == old(View())
      ensures popped == (old(View()).ring.count > 0)
      ensures old(LabelsOk(View())) ==>
        LabelsOk(View()) && popped == (old(Labels(View().ring)) != [])
        && (popped ==> work.Popped? && [work.name] + Labels(View().ring) == old(Labels(View().ring)))
    {
      hide Inv;
      ghost var s := View();
      popped := CheckLabel();
      between := View();
      if popped {
        TakeLabel();
        TakenOk(between.ring);
        if LabelsOk(s) {
          LabelStep(s, Action.CheckLabel, between);
          LabelStep(between, Action.TakeLabel, View());
        }
      }
    }

    method PrepareModel()
      requires Valid() && work.Popped?
      modifies this`work
      ensures Valid() && Step(old(View()), Action.PrepareModel, View())
    {
      ghost var s := View();
      var slot := modelQueue.Next();
      work := Prepared(work.name, slot);
      hide Inv;
      StepKeepsInv(s, Action.PrepareModel, View());
    }

    /** The model of the label in hand is computed in the slot prepared for it. */
    method ComputeModel(duration: nat)
      requires Valid() && work.Prepared? && duration <= MAX_DURATION
      modifies this`work, this`lasting, modelQueue.rawData
      ensures Valid() && Step(old(View()), Action.ComputeModel(duration), View())
    {
      ghost var s := View();
      modelQueue.rawData[work.slot] := Made(work.name, duration);
      lasting := lasting + [duration];
      work := Computed(work.name, work.slot);
      hide Inv;
      assert View().slots == s.slots[s.work.slot := Made(s.work.name, duration)];
      StepKeepsInv(s, Action.ComputeModel(duration), View());
    }

    method PushModel()
      requires Valid() && work.Computed?
      modifies this`work, modelQueue`write, modelQueue`nOfItems
      ensures Valid() && Step(old(View()), Action.PushModel, View())
    {
      ghost var s := View();
      modelQueue.PushNext(1);
      work := Queued(work.name);
      hide Inv;
      StepKeepsInv(s, Action.PushModel, View());
    }

    /** The newest model in the queue with so many before it: what optimizeParameters and generate
        are called for. */
    method NewJob(backup: nat) returns (job: Job<L>)
      requires Queues() && backup < modelQueue.nOfItems < MODEL_QUEUE
      requires forall k: nat :: k <= backup ==> Queue(View(), k).Made?
      ensures IsJob(View(), job, backup)
    {
      var context := [];
      var w := 0;
      while w < backup
        invariant w <= backup && |context| == w
        invariant forall k: nat :: k < w ==> context[k] == Queue(View(), k).name
      {
        WrapIsRemainder(modelQueue.read, w, MODEL_QUEUE);
        assert Queue(View(), w).Made?;
        context := context + [modelQueue.rawData[(modelQueue.read + w) % MODEL_QUEUE].name];
        w := w + 1;
      }
      WrapIsRemainder(modelQueue.read, backup, MODEL_QUEUE);
      assert Queue(View(), backup).Made?;
      var head := modelQueue.rawData[(modelQueue.read + backup) % MODEL_QUEUE];
      job := Job(head.name, context, head.duration);
    }

    method OptimizeParameters()
      requires Valid() && work.Queued?
      modifies this`flag, this`work
      ensures Valid() && Step(old(View()), Action.OptimizeParameters, View()) && work.Generating?
    {
      hide Inv, IsJob, Queue, Step, Shaped;
      ghost var s := View();
      QueueMade(s);
      if modelQueue.nOfItems > NUM_LOOKUP + NUM_BACKUP {
        flag := false;
        QueueStands(s, View());
        var job := NewJob(NUM_BACKUP);
        JobStands(s, View(), job, NUM_BACKUP);
        work := Generating(job, 0, true, false);
        StartsFull(s, View(), job);
      } else if modelQueue.nOfItems > NUM_LOOKUP && flag {
        var job := NewJob(modelQueue.nOfItems - NUM_LOOKUP - 1);
        work := Generating(job, 0, false, false);
        StartsEarly(s, View(), job);
      } else {
        work := Idle;
        Skips(s, View());
      }
      OptimizeStep(s, Action.OptimizeParameters, View());
    }

    lemma StartsFull(s: State<L>, s': State<L>, job: Job<L>)
      requires s.work.Queued? && RingOk(s) && s.count > NUM_LOOKUP + NUM_BACKUP && IsJob(s, job, NUM_BACKUP)
      requires s' == s.(flag := false, work := Generating(job, 0, true, false))
      ensures Step(s, Action.OptimizeParameters, s')
    {
      hide IsJob, Queue;
    }

    lemma StartsEarly(s: State<L>, s': State<L>, job: Job<L>)
      requires s.work.Queued? && RingOk(s) && s.flag && NUM_LOOKUP < s.count <= NUM_LOOKUP + NUM_BACKUP
      requires IsJob(s, job, s.count - NUM_LOOKUP - 1) && s' == s.(work := Generating(job, 0, false, false))
      ensures Step(s, Action.OptimizeParameters, s')
    {
      hide IsJob, Queue;
    }

    lemma Skips(s: State<L>, s': State<L>)
      requires s.work.Queued? && RingOk(s) && s' == s.(work := Idle)
      requires s.count <= NUM_LOOKUP || (s.count <= NUM_LOOKUP + NUM_BACKUP && !s.flag)
      ensures Step(s, Action.OptimizeParameters, s')
    {
      hide IsJob, Queue;
    }

    lemma QueueMade(s: State<L>)
      requires Inv(s) && s.work.Queued?
      ensures RingOk(s) && s.count >= 1 && forall k: nat :: k < s.count ==> Queue(s, k).Made?
    {
      JobIsNext(s, Job(s.work.name, [], 0));
      forall k: nat | k < s.count
        ensures Queue(s, k).Made?
      {
        assert ModelAt(s, k);
      }
    }

    lemma QueueStands(s: State<L>, s': State<L>)
      requires RingOk(s) && s'.slots == s.slots && s'.read == s.read && s'.count == s.count
      ensures RingOk(s') && forall k: nat :: k < s.count ==> Queue(s', k) == Queue(s, k)
    {
    }

    lemma JobStands(s: State<L>, s': State<L>, job: Job<L>, backup: nat)
      requires RingOk(s) && s'.slots == s.slots && s'.read == s.read && s'.count == s.count && backup < s.count
      requires IsJob(s', job, backup)
      ensures IsJob(s, job, backup)
    {
      forall w: nat | w < backup
        ensures Queue(s, w).Made? && job.context[w] == Queue(s, w).name
      {
        assert Queue(s', w) == Queue(s, w);
      }
    }

    /** Whether there is room for a frame; otherwise the caller has to wait and look again. */
    method CheckFrameRoom() returns (room: bool)
      requires Valid() && work.Generating? && work.q < work.job.duration
      modifies this`work
      ensures Valid() && Step(old(View()), Action.CheckFrameRoom, View())
      ensures room == (|View().frames| < FRAME_QUEUE) && work.Generating? && (room ==> work.room)
    {
      hide Inv;
      ghost var s := View();
      var full := frameQueue.IsFull();
      room := !full;
      if room {
        work := work.(room := true);
      }
      StepKeepsInv(s, Action.CheckFrameRoom, View());
    }

    /** Builds a frame in the next slot and then appends it. */
    method AppendFrame(f: Frame<L>)
      requires frameQueue.Valid() && frameQueue.nOfItems < frameQueue.length
      modifies frameQueue`write, frameQueue`nOfItems, frameQueue.rawData
      ensures frameQueue.Valid() && frameQueue.Contents() == old(frameQueue.Contents()) + [f]
    {
      ghost var before := frameQueue.Contents();
      var slot := frameQueue.Next();
      frameQueue.rawData[slot] := f;
      assert frameQueue.Contents() == before;
      assert frameQueue.Ahead(1) == [f];
      frameQueue.PushNext(1);
    }

    method EmitFrame()
      requires Valid() && work.Generating? && work.room
      modifies this`work, this`produced, frameQueue`write, frameQueue`nOfItems, frameQueue.rawData
      ensures Valid() && Step(old(View()), Action.EmitFrame, View()) && produced == old(produced) + [Frame(old(work).job, old(work).q)]
    {
      hide Inv;
      ghost var s := View();
      FramesFit(s);
      var f := Frame(work.job, work.q);
      AppendFrame(f);
      produced := produced + [f];
      work := work.(q := work.q + 1, room := false);
      StepKeepsInv(s, Action.EmitFrame, View());
    }

    lemma FramesFit(s: State<L>)
      requires Inv(s)
      ensures s.work.Generating? && s.work.room ==> |s.frames| < FRAME_QUEUE
      ensures s.reader != Counting ==> s.frames != []
    {
    }

    method Finish()
      requires Valid() && work.Generating? && work.q == work.job.duration
      modifies this`work, this`done, modelQueue`read, modelQueue`nOfItems
      ensures Valid() && Step(old(View()), Action.Finish, View())
    {
      hide Inv;
      ghost var s := View();
      InHand(s);
      WrapIsRemainder(modelQueue.read, 1, MODEL_QUEUE);
      done := done + [work.job];
      if work.pop {
        modelQueue.Drop(1);
      }
      work := Idle;
      StepKeepsInv(s, Action.Finish, View());
    }

    lemma InHand(s: State<L>)
      requires Inv(s) && s.work.Generating?
      ensures RingOk(s) && s.count >= 1
    {
      hide JobOk, AllFrames, Pipeline.FramesOf;
    }

    /** One sample of the consumer's clock: every hopLen samples it looks for a frame. */
    method Tick() returns (seen: bool)
      requires Valid() && reader == Counting
      modifies this`sampleCount, this`reader
      ensures Valid() && Step(old(View()), Action.Tick, View())
      ensures seen == (old(sampleCount) >= hopLen - 1 && View().frames != []) && (seen <==> reader == Seeing)
    {
      hide Inv;
      ghost var s := View();
      seen := false;
      if sampleCount >= hopLen - 1 {
        var empty := frameQueue.IsEmpty();
        if empty {
          sampleCount := 0;
        } else {
          reader, seen := Seeing, true;
        }
      } else {
        sampleCount := sampleCount + 1;
      }
      StepKeepsInv(s, Action.Tick, View());
    }

    method ReadFrame() returns (frame: Frame<L>)
      requires Valid() && reader == Seeing
      modifies this`consumed, this`reader
      ensures Valid() && Step(old(View()), Action.ReadFrame, View()) && consumed == old(consumed) + [frame] && reader == Dropping
    {
      hide Inv;
      ghost var s := View();
      FramesFit(s);
      frame := frameQueue.rawData[frameQueue.read];
      assert frame == s.frames[0];
      consumed, reader := consumed + [frame], Dropping;
      StepKeepsInv(s, Action.ReadFrame, View());
    }

    method DropFrame()
      requires Valid() && reader == Dropping
      modifies this`sampleCount, this`reader, frameQueue`read, frameQueue`nOfItems
      ensures Valid() && Step(old(View()), Action.DropFrame, View()) && reader == Counting
    {
      hide Inv;
      ghost var s := View();
      FramesFit(s);
      frameQueue.Drop(1);
      sampleCount, reader := 0, Counting;
      StepKeepsInv(s, Action.DropFrame, View());
    }

    /** The consumer's routine for a sample: the oldest frame, if it is time for one and there is one. */
    method UpdateSamples() returns (frames: seq<Frame<L>>, ghost seen: State<L>, ghost held: State<L>)
      requires Valid() && reader == Counting
      modifies this`sampleCount, this`reader, this`consumed, frameQueue`read, frameQueue`nOfItems
      ensures Valid() && reader == Counting && Step(old(View()), Action.Tick, seen)
      ensures if frames != [] then Step(seen, Action.ReadFrame, held) && Step(held, Action.DropFrame, View()) else View() == seen
      ensures consumed == old(consumed) + frames && frames + View().frames == old(View().frames)
      ensures |frames| == if old(sampleCount) >= hopLen - 1 && old(View().frames) != [] then 1 else 0
      ensures sampleCount == if old(sampleCount) >= hopLen - 1 then 0 else old(sampleCount) + 1
    {
      hide Inv, ControlStep, SynthesisStep;
      var due := Tick();
      frames, seen, held := [], View(), View();
      if due {
        FramesFit(seen);
        var frame := ReadFrame();
        frames, held := [frame], View();
        assert frame == held.consumed[|seen.consumed|] == seen.frames[0];
        DropFrame();
        assert [frame] + seen.frames[1..] == seen.frames;
      }
    }
  }
}
