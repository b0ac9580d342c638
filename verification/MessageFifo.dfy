/** The three-headed message queue between a writer, a performer and a freer that run
    concurrently: every load and store of a shared head is a step of its own, and the steps of
    the three threads interleave freely. */
module MessageFifo {
  import opened Bits
  import opened Rings

  // ----- positions -----

  /** The next position, wrapped with a mask. */
  function NextPos(pos: nat, n: nat): nat
    requires n > 0
  {
    And(pos + 1, n - 1)
  }

  /** The mask steps through the slots because the capacity is a power of two. */
  lemma NextSlot(x: nat, k: nat)
    ensures NextPos(Slot(x, Pow2(k)), Pow2(k)) == Slot(x + 1, Pow2(k))
  {
    var n := Pow2(k);
    MaskIsMod(Slot(x, n) + 1, k);
    ModStep(x, n);
  }

  // ----- the buffer -----

  ghost predicate Held<T>(items: seq<T>, base: nat, accepted: seq<T>, i: nat)
    requires |items| > 0 && i < |accepted|
  {
    items[Slot(base + i + 1, |items|)] == accepted[i]
  }

  /** The heads stand for counts that only grow: of the accepted messages, r have been performed
      and f of those freed. Fewer than the capacity are unfreed, and each of them is in its slot. */
  ghost predicate FifoOk<T>(items: seq<T>, write: nat, read: nat, free: nat, base: nat, accepted: seq<T>, r: nat, f: nat) {
    && |items| > 0
    && f <= r <= |accepted| < f + |items|
    && write == Slot(base + |accepted|, |items|)
    && read == Slot(base + r, |items|)
    && free == Slot(base + f, |items|)
    && forall i: nat {:trigger Held(items, base, accepted, i)} :: f <= i < |accepted| ==> Held(items, base, accepted, i)
  }

  /** Comparing heads compares counts. */
  lemma HeadsTell<T>(items: seq<T>, write: nat, read: nat, free: nat, base: nat, accepted: seq<T>, r: nat, f: nat, k: nat)
    requires FifoOk(items, write, read, free, base, accepted, r, f) && |items| == Pow2(k)
    ensures read == write <==> r == |accepted|
    ensures free == read <==> f == r
    ensures NextPos(write, |items|) == free <==> |accepted| + 1 == f + |items|
    ensures NextPos(write, |items|) == Slot(base + |accepted| + 1, |items|)
    ensures NextPos(read, |items|) == Slot(base + r + 1, |items|)
    ensures NextPos(free, |items|) == Slot(base + f + 1, |items|)
  {
    hide Slot, NextPos, Pow2, Held;
    var n, w := |items|, |accepted|;
    NextSlot(base + w, k);
    NextSlot(base + r, k);
    NextSlot(base + f, k);
    if r < w {
      SlotsDiffer(base + r, base + w, n);
    }
    if f < r {
      SlotsDiffer(base + f, base + r, n);
    }
    if w + 1 < f + n {
      SlotsDiffer(base + f, base + w + 1, n);
    } else {
      SlotWraps(base + f, n);
    }
  }

  /** Filling the slot after the last message disturbs no unfreed message. */
  lemma FilledNext<T>(items: seq<T>, write: nat, read: nat, free: nat, base: nat, accepted: seq<T>, r: nat, f: nat, data: T)
    requires FifoOk(items, write, read, free, base, accepted, r, f) && |accepted| + 1 < f + |items|
    ensures Slot(base + |accepted| + 1, |items|) < |items|
    ensures FifoOk(items[Slot(base + |accepted| + 1, |items|) := data], write, read, free, base, accepted, r, f)
  {
    var n, w := |items|, |accepted|;
    SlotBound(base + w + 1, n);
    var items' := items[Slot(base + w + 1, n) := data];
    forall i: nat | f <= i < w
      ensures Held(items', base, accepted, i)
    {
      assert Held(items, base, accepted, i);
      SlotBound(base + i + 1, n);
      SlotsDiffer(base + i + 1, base + w + 1, n);
    }
  }

  /** Publishing the filled slot accepts its message. */
  lemma Published<T>(items: seq<T>, write: nat, read: nat, free: nat, base: nat, accepted: seq<T>, r: nat, f: nat)
    requires FifoOk(items, write, read, free, base, accepted, r, f) && |accepted| + 1 < f + |items|
    ensures var next := Slot(base + |accepted| + 1, |items|);
            next < |items| && FifoOk(items, next, read, free, base, accepted + [items[next]], r, f)
  {
    var n, w := |items|, |accepted|;
    SlotBound(base + w + 1, n);
    var accepted' := accepted + [items[Slot(base + w + 1, n)]];
    forall i: nat | f <= i < w + 1
      ensures Held(items, base, accepted', i)
    {
      assert i < w ==> Held(items, base, accepted, i);
    }
  }

  lemma SlotHolds<T>(items: seq<T>, write: nat, read: nat, free: nat, base: nat, accepted: seq<T>, r: nat, f: nat, i: nat)
    requires FifoOk(items, write, read, free, base, accepted, r, f) && f <= i < |accepted|
    ensures Slot(base + i + 1, |items|) < |items| && items[Slot(base + i + 1, |items|)] == accepted[i]
  {
    SlotBound(base + i + 1, |items|);
    assert Held(items, base, accepted, i);
  }

  // ----- the three threads -----

  /** Where the writer stands in Write: the position it computed, and what it writes. */
  datatype Writer<T> = Outside | Loaded(next: nat, data: T) | Checked(next: nat, data: T) | Stored(next: nat, data: T)

  /** Where the performer stands in its loop, and likewise the freer. */
  datatype Taker = Resting | Taking(next: nat) | Taken(next: nat)

  /** Shared memory, the three threads, and what has happened since the queue was last emptied. */
  datatype State<T> = State(items: seq<T>, write: nat, read: nat, free: nat,
                            writer: Writer<T>, performer: Taker, freer: Taker,
                            base: nat, accepted: seq<T>, performed: seq<T>, freed: seq<T>)

  datatype Action<T> =
    | BeginWrite(data: T) | RefuseWrite | CheckWrite | StoreItem | Publish
    | FindData | PerformItem | AdvanceRead
    | FindPerformed | FreeItem | AdvanceFree
    | MakeEmpty

  ghost predicate Step<T>(s: State<T>, a: Action<T>, s': State<T>) {
    |s.items| > 0 &&
    match a
    case BeginWrite(data) =>
      s.writer == Outside && s' == s.(writer := Loaded(NextPos(s.write, |s.items|), data))
    case RefuseWrite =>
      s.writer.Loaded? && s.writer.next == s.free && s' == s.(writer := Outside)
    case CheckWrite =>
      s.writer.Loaded? && s.writer.next != s.free && s' == s.(writer := Checked(s.writer.next, s.writer.data))
    case StoreItem =>
      && s.writer.Checked? && s.writer.next < |s.items|
      && s' == s.(items := s.items[s.writer.next := s.writer.data], writer := Stored(s.writer.next, s.writer.data))
    case Publish =>
      s.writer.Stored? && s' == s.(write := s.writer.next, writer := Outside, accepted := s.accepted + [s.writer.data])
    case FindData =>
      s.performer == Resting && s.read != s.write && s' == s.(performer := Taking(NextPos(s.read, |s.items|)))
    case PerformItem =>
      && s.performer.Taking? && s.performer.next < |s.items|
      && s' == s.(performer := Taken(s.performer.next), performed := s.performed + [s.items[s.performer.next]])
    case AdvanceRead =>
      s.performer.Taken? && s' == s.(read := s.performer.next, performer := Resting)
    case FindPerformed =>
      s.freer == Resting && s.free != s.read && s' == s.(freer := Taking(NextPos(s.free, |s.items|)))
    case FreeItem =>
      && s.freer.Taking? && s.freer.next < |s.items|
      && s' == s.(freer := Taken(s.freer.next), freed := s.freed + [s.items[s.freer.next]])
    case AdvanceFree =>
      s.freer.Taken? && s' == s.(free := s.freer.next, freer := Resting)
    case MakeEmpty =>
      && s.writer == Outside && s.performer == Resting && s.freer == Resting
      && s' == s.(read := s.write, free := s.write,
                  base := s.base + |s.accepted|, accepted := [], performed := [], freed := [])
  }

  /** How many messages a head has passed: one less than begun while an item is being taken. */
  ghost function Passed<T>(log: seq<T>, taker: Taker): int {
    |log| - if taker.Taken? then 1 else 0
  }

  ghost predicate WriterOk<T>(s: State<T>)
    requires |s.items| > 0
  {
    match s.writer
    case Outside => true
    case Loaded(next, data) => next == Slot(s.base + |s.accepted| + 1, |s.items|)
    case Checked(next, data) => next == Slot(s.base + |s.accepted| + 1, |s.items|) && HasRoom(s)
    case Stored(next, data) =>
      next == Slot(s.base + |s.accepted| + 1, |s.items|) && HasRoom(s) && next < |s.items| && s.items[next] == data
  }

  /** Fewer than capacity - 1 messages are unfreed. */
  ghost predicate HasRoom<T>(s: State<T>) {
    |s.accepted| + 1 < Passed(s.freed, s.freer) + |s.items|
  }

  ghost predicate TakerOk(taker: Taker, base: nat, passed: nat, limit: nat, n: nat)
    requires n > 0
  {
    taker != Resting ==> passed < limit && taker.next == Slot(base + passed + 1, n)
  }

  /** What every interleaving keeps. */
  ghost predicate Inv<T>(s: State<T>, k: nat) {
    var r, f := Passed(s.performed, s.performer), Passed(s.freed, s.freer);
    && r >= 0 && f >= 0 && |s.items| == Pow2(k)
    && FifoOk(s.items, s.write, s.read, s.free, s.base, s.accepted, r, f)
    && s.performed <= s.accepted && s.freed <= s.performed && |s.freed| <= r
    && WriterOk(s)
    && TakerOk(s.performer, s.base, r, |s.accepted|, |s.items|)
    && TakerOk(s.freer, s.base, f, r, |s.items|)
  }

  ghost predicate Init<T>(s: State<T>, k: nat) {
    && |s.items| == Pow2(k) && s.write == 0 && s.read == 0 && s.free == 0
    && s.writer == Outside && s.performer == Resting && s.freer == Resting
    && s.base == 0 && s.accepted == [] && s.performed == [] && s.freed == []
  }

  lemma InitOk<T>(s: State<T>, k: nat)
    requires Init(s, k)
    ensures Inv(s, k)
  {
    SlotBound(0, Pow2(k));
  }

  lemma WriterSteps<T>(s: State<T>, a: Action<T>, s': State<T>, k: nat)
    requires Inv(s, k) && Step(s, a, s')
    requires a.BeginWrite? || a.RefuseWrite? || a.CheckWrite? || a.StoreItem? || a.Publish?
    ensures Inv(s', k)
  {
    var r, f := Passed(s.performed, s.performer), Passed(s.freed, s.freer);
    hide FifoOk, Slot, NextPos, Pow2;
    HeadsTell(s.items, s.write, s.read, s.free, s.base, s.accepted, r, f, k);
    match a
    case BeginWrite(data) =>
    case RefuseWrite =>
    case CheckWrite =>
      NotFull(s, r, f, k);
    case StoreItem =>
      FilledNext(s.items, s.write, s.read, s.free, s.base, s.accepted, r, f, s.writer.data);
    case Publish =>
      Published(s.items, s.write, s.read, s.free, s.base, s.accepted, r, f);
  }

  lemma NotFull<T>(s: State<T>, r: nat, f: nat, k: nat)
    requires FifoOk(s.items, s.write, s.read, s.free, s.base, s.accepted, r, f) && |s.items| == Pow2(k)
    requires s.free != Slot(s.base + |s.accepted| + 1, |s.items|)
    ensures |s.accepted| + 1 < f + |s.items|
  {
    HeadsTell(s.items, s.write, s.read, s.free, s.base, s.accepted, r, f, k);
  }

  lemma HeadAdvanced<T>(items: seq<T>, write: nat, read: nat, free: nat, base: nat, accepted: seq<T>, r: nat, f: nat)
    requires FifoOk(items, write, read, free, base, accepted, r, f)
    ensures r < |accepted| ==> FifoOk(items, write, Slot(base + r + 1, |items|), free, base, accepted, r + 1, f)
    ensures f < r ==> FifoOk(items, write, read, Slot(base + f + 1, |items|), base, accepted, r, f + 1)
  {
    hide Slot;
    forall i: nat | f + 1 <= i < |accepted|
      ensures Held(items, base, accepted, i)
    {
    }
  }

  lemma PerformerSteps<T>(s: State<T>, a: Action<T>, s': State<T>, k: nat)
    requires Inv(s, k) && Step(s, a, s') && (a.FindData? || a.PerformItem? || a.AdvanceRead?)
    ensures Inv(s', k)
  {
    var r, f := Passed(s.performed, s.performer), Passed(s.freed, s.freer);
    hide FifoOk, Slot, NextPos, Pow2;
    CountsOk(s.items, s.write, s.read, s.free, s.base, s.accepted, r, f);
    HeadsTell(s.items, s.write, s.read, s.free, s.base, s.accepted, r, f, k);
    HeadAdvanced(s.items, s.write, s.read, s.free, s.base, s.accepted, r, f);
    if a.PerformItem? {
      SlotHolds(s.items, s.write, s.read, s.free, s.base, s.accepted, r, f, r);
    }
  }

  lemma FreerSteps<T>(s: State<T>, a: Action<T>, s': State<T>, k: nat)
    requires Inv(s, k) && Step(s, a, s') && (a.FindPerformed? || a.FreeItem? || a.AdvanceFree?)
    ensures Inv(s', k)
  {
    var r, f := Passed(s.performed, s.performer), Passed(s.freed, s.freer);
    hide FifoOk, Slot, NextPos, Pow2;
    CountsOk(s.items, s.write, s.read, s.free, s.base, s.accepted, r, f);
    HeadsTell(s.items, s.write, s.read, s.free, s.base, s.accepted, r, f, k);
    HeadAdvanced(s.items, s.write, s.read, s.free, s.base, s.accepted, r, f);
    if a.FreeItem? {
      SlotHolds(s.items, s.write, s.read, s.free, s.base, s.accepted, r, f, f);
    }
  }

  lemma CountsOk<T>(items: seq<T>, write: nat, read: nat, free: nat, base: nat, accepted: seq<T>, r: nat, f: nat)
    requires FifoOk(items, write, read, free, base, accepted, r, f)
    ensures f <= r <= |accepted| < f + |items|
  {
  }

  /** The invariant is kept by every step of every thread. */
  lemma StepKeepsInv<T>(s: State<T>, a: Action<T>, s': State<T>, k: nat)
    requires Inv(s, k) && Step(s, a, s')
    ensures Inv(s', k)
  {
    if a.MakeEmpty? {
      SlotBound(s.base + |s.accepted|, |s.items|);
    } else if a.BeginWrite? || a.RefuseWrite? || a.CheckWrite? || a.StoreItem? || a.Publish? {
      WriterSteps(s, a, s', k);
    } else if a.FindData? || a.PerformItem? || a.AdvanceRead? {
      PerformerSteps(s, a, s', k);
    } else {
      FreerSteps(s, a, s', k);
    }
  }

  // ----- runs -----

  ghost predicate StepAt<T>(states: seq<State<T>>, actions: seq<Action<T>>, i: nat)
    requires |states| == |actions| + 1 && i < |actions|
  {
    Step(states[i], actions[i], states[i + 1])
  }

  ghost predicate Run<T>(states: seq<State<T>>, actions: seq<Action<T>>, k: nat) {
    && |states| == |actions| + 1 && Init(states[0], k)
    && forall i: nat {:trigger StepAt(states, actions, i)} :: i < |actions| ==> StepAt(states, actions, i)
  }

  lemma {:induction false} RunOk<T>(states: seq<State<T>>, actions: seq<Action<T>>, k: nat, i: nat)
    requires Run(states, actions, k) && i < |states|
    ensures Inv(states[i], k)
  {
    if i == 0 {
      InitOk(states[0], k);
    } else {
      RunOk(states, actions, k, i - 1);
      assert StepAt(states, actions, i - 1);
      StepKeepsInv(states[i - 1], actions[i - 1], states[i], k);
    }
  }

  /** Exactly once, in order: at every moment of every interleaving the messages performed are
      the first of those accepted, and the messages freed the first of those performed; what is
      accepted but not freed never exceeds capacity - 1. */
  lemma InOrderExactlyOnce<T>(states: seq<State<T>>, actions: seq<Action<T>>, k: nat, i: nat)
    requires Run(states, actions, k) && i < |states|
    ensures var s := states[i];
            && s.performed <= s.accepted && s.freed <= s.performed
            && |s.accepted| - |s.freed| <= Pow2(k) - 1
  {
    RunOk(states, actions, k, i);
  }

  /** When the performer and the freer find nothing to do, nothing is left to do. */
  lemma DrainedIsDone<T>(states: seq<State<T>>, actions: seq<Action<T>>, k: nat, i: nat)
    requires Run(states, actions, k) && i < |states|
    requires states[i].performer == Resting && states[i].freer == Resting
    ensures var s := states[i];
            && (s.read == s.write <==> s.performed == s.accepted)
            && (s.free == s.read <==> s.freed == s.performed)
  {
    RunOk(states, actions, k, i);
    var s := states[i];
    HeadsTell(s.items, s.write, s.read, s.free, s.base, s.accepted, |s.performed|, |s.freed|, k);
    hide FifoOk;
    assert s.performed == s.accepted[..|s.performed|] && s.freed == s.performed[..|s.freed|];
  }

  /** A write is refused exactly when capacity - 1 messages are unfreed at the moment the writer
      looks at the free head. */
  lemma RefusedIffFull<T>(states: seq<State<T>>, actions: seq<Action<T>>, k: nat, i: nat)
    requires Run(states, actions, k) && i < |actions| && states[i].writer.Loaded?
    requires actions[i].RefuseWrite? || actions[i].CheckWrite?
    ensures var s := states[i];
            actions[i].RefuseWrite? <==> |s.accepted| - Passed(s.freed, s.freer) == Pow2(k) - 1
  {
    RunOk(states, actions, k, i);
    var s := states[i];
    var r, f := Passed(s.performed, s.performer), Passed(s.freed, s.freer);
    HeadsTell(s.items, s.write, s.read, s.free, s.base, s.accepted, r, f, k);
    assert StepAt(states, actions, i);
    hide FifoOk, Slot, Pow2;
  }

  /** The slots the three threads are at work on are never the same. */
  lemma SlotsApart<T>(states: seq<State<T>>, actions: seq<Action<T>>, k: nat, i: nat)
    requires Run(states, actions, k) && i < |states|
    ensures var s := states[i];
            && (s.writer.Checked? && s.performer.Taking? ==> s.writer.next != s.performer.next)
            && (s.writer.Checked? && s.freer.Taking? ==> s.writer.next != s.freer.next)
            && (s.performer.Taking? && s.freer.Taking? ==> s.performer.next != s.freer.next)
  {
    RunOk(states, actions, k, i);
    var s := states[i];
    var w, r, f := |s.accepted|, Passed(s.performed, s.performer), Passed(s.freed, s.freer);
    if s.writer.Checked? && s.performer.Taking? {
      SlotsDiffer(s.base + r + 1, s.base + w + 1, |s.items|);
    }
    if s.writer.Checked? && s.freer.Taking? {
      SlotsDiffer(s.base + f + 1, s.base + w + 1, |s.items|);
    }
    if s.performer.Taking? && s.freer.Taking? {
      SlotsDiffer(s.base + f + 1, s.base + r + 1, |s.items|);
    }
  }

  /** Until the queue is emptied, what has been accepted, performed and freed stays so. */
  lemma {:induction false} HistoryGrows<T>(states: seq<State<T>>, actions: seq<Action<T>>, k: nat, i: nat, j: nat)
    requires Run(states, actions, k) && i <= j < |states|
    requires forall l :: i <= l < j ==> actions[l] != MakeEmpty
    ensures states[i].accepted <= states[j].accepted
    ensures states[i].performed <= states[j].performed
    ensures states[i].freed <= states[j].freed
    decreases j - i
  {
    if i < j {
      HistoryGrows(states, actions, k, i, j - 1);
      assert StepAt(states, actions, j - 1);
    }
  }

  /** No slot is written before its message is freed: the message a slot holds stays there from
      acceptance until it is freed. */
  lemma {:induction false} KeptUntilFreed<T>(states: seq<State<T>>, actions: seq<Action<T>>, k: nat, i: nat, m: nat)
    requires Run(states, actions, k) && i < |states|
    requires Passed(states[i].freed, states[i].freer) <= m < |states[i].accepted|
    ensures var s := states[i];
            |s.items| > 0 && Slot(s.base + m + 1, |s.items|) < |s.items|
            && s.items[Slot(s.base + m + 1, |s.items|)] == s.accepted[m]
  {
    RunOk(states, actions, k, i);
    var s := states[i];
    SlotHolds(s.items, s.write, s.read, s.free, s.base, s.accepted,
              Passed(s.performed, s.performer), Passed(s.freed, s.freer), m);
  }

  // ----- one thread at a time -----

  /** The queue itself, its operations taken whole. */
  class MsgFifo<T(==)> {
    const k: nat
    const items: array<T>
    var readHead: nat
    var writeHead: nat
    var freeHead: nat
    ghost var base: nat
    ghost var accepted: seq<T>
    ghost var performed: nat
    ghost var freed: nat

    ghost predicate Valid()
      reads this, items
    {
      && items.Length == Pow2(k)
      && FifoOk(items[..], writeHead, readHead, freeHead, base, accepted, performed, freed)
    }

    constructor (k: nat, blank: T)
      ensures Valid() && fresh(items) && this.k == k && accepted == []
    {
      this.k := k;
      items := new T[Pow2(k)](_ => blank);
      readHead, writeHead, freeHead := 0, 0, 0;
      base, accepted, performed, freed := 0, [], 0, 0;
      SlotBound(0, Pow2(k));
    }

    method HasData() returns (has: bool)
      requires Valid()
      ensures has <==> performed < |accepted|
    {
      HeadsTell(items[..], writeHead, readHead, freeHead, base, accepted, performed, freed, k);
      has := readHead != writeHead;
    }

    method NeedsFree() returns (needs: bool)
      requires Valid()
      ensures needs <==> freed < performed
    {
      HeadsTell(items[..], writeHead, readHead, freeHead, base, accepted, performed, freed, k);
      needs := freeHead != readHead;
    }

    /** Accepts a message unless capacity - 1 are unfreed. */
    method Write(data: T) returns (ok: bool)
      requires Valid()
      modifies this`writeHead, this`accepted, items
      ensures Valid()
      ensures ok <==> old(|accepted|) - freed < items.Length - 1
      ensures accepted == if ok then old(accepted) + [data] else old(accepted)
    {
      HeadsTell(items[..], writeHead, readHead, freeHead, base, accepted, performed, freed, k);
      hide FifoOk, Slot, Pow2;
      var next := NextPos(writeHead, items.Length);
      if next == freeHead {
        return false;
      }
      FilledNext(items[..], writeHead, readHead, freeHead, base, accepted, performed, freed, data);
      ghost var was := items[..];
      items[next] := data;
      assert items[..] == was[next := data];
      Published(items[..], writeHead, readHead, freeHead, base, accepted, performed, freed);
      writeHead := next;
      accepted := accepted + [data];
      ok := true;
    }

    /** Performs everything not yet performed, in the order it was written. */
    method Perform() returns (done: seq<T>)
      requires Valid()
      modifies this`readHead, this`performed
      ensures Valid() && performed == |accepted| && done == accepted[old(performed)..]
    {
      done := [];
      ghost var start := performed;
      var more := HasData();
      while more
        invariant Valid() && start <= performed && done == accepted[start..performed]
        invariant more <==> performed < |accepted|
        decreases |accepted| - performed
      {
        HeadsTell(items[..], writeHead, readHead, freeHead, base, accepted, performed, freed, k);
        SlotHolds(items[..], writeHead, readHead, freeHead, base, accepted, performed, freed, performed);
        var next := NextPos(readHead, items.Length);
        done := done + [items[next]];
        readHead := next;
        performed := performed + 1;
        more := HasData();
      }
    }

    /** Frees everything performed and not yet freed, in the order it was written. */
    method Free() returns (done: seq<T>)
      requires Valid()
      modifies this`freeHead, this`freed
      ensures Valid() && freed == performed && done == accepted[old(freed)..performed]
    {
      done := [];
      ghost var start := freed;
      var more := NeedsFree();
      while more
        invariant Valid() && start <= freed && done == accepted[start..freed]
        invariant more <==> freed < performed
        decreases performed - freed
      {
        HeadsTell(items[..], writeHead, readHead, freeHead, base, accepted, performed, freed, k);
        SlotHolds(items[..], writeHead, readHead, freeHead, base, accepted, performed, freed, freed);
        var next := NextPos(freeHead, items.Length);
        done := done + [items[next]];
        freeHead := next;
        freed := freed + 1;
        more := NeedsFree();
      }
    }

    /** Drops everything. */
    method MakeEmpty()
      requires Valid()
      modifies this
      ensures Valid() && accepted == [] && performed == 0 && freed == 0
    {
      readHead, freeHead := writeHead, writeHead;
      base, accepted, performed, freed := base + |accepted|, [], 0, 0;
    }
  }
}
