/** Whether every label is synthesised once. Looking for a label and taking it are two operations
    on the queue, and labels can be cleared between them. */
module LabelRuns {
  import opened Queues
  import opened Pipeline

  /** The labels accepted are those taken, in order, and then those still in the queue. */
  ghost predicate InOrder<L>(s: State<L>) {
    && Shaped(s.ring) && Proper(s.ring) && |s.ring.slots| == LABEL_QUEUE
    && s.taken + Labels(s.ring) == s.accepted
  }

  /** Each label is taken once, in the order accepted, and each one taken is synthesised once. */
  ghost predicate OnceInOrder<L>(s: State<L>) {
    InOrder(s) && TakenOnce(s)
  }

  ghost predicate LabelsOk<L>(s: State<L>) {
    InOrder(s) && (s.pushing.Storing? ==> s.ring.count < LABEL_QUEUE)
  }

  ghost predicate TakesNothing<L>(s: State<L>, a: Action<L>) {
    a.TakeLabel? && s.ring.count == 0
  }

  /** What a step does to the labels, and to the one seen. */
  ghost predicate LabelMove<L>(s: State<L>, a: Action<L>, s': State<L>)
    requires Shaped(s.ring)
  {
    && (s'.work == Seen ==> if s.work == Seen then !a.CheckLabel? && !a.TakeLabel? else a.CheckLabel? && s.ring.count > 0)
    && match a
       case StoreLabel =>
         && s.pushing.Storing? && s'.pushing == Resting && s'.ring == Stored(s.ring, s.pushing.name)
         && s'.taken == s.taken && s'.accepted == s.accepted + [s.pushing.name]
       case ClearLabels =>
         && s'.pushing == s.pushing && s'.ring == Cleared(s.ring)
         && s'.taken == s.taken && s'.accepted == s.taken
       case TakeLabel =>
         && s.work == Seen && s'.pushing == s.pushing && s'.ring == Taken(s.ring)
         && s'.taken == s.taken + [s.ring.slots[s.ring.read]] && s'.accepted == s.accepted
       case _ =>
         && (s'.pushing == s.pushing || (a.CheckRoom? && s.ring.count < |s.ring.slots|))
         && s'.ring == s.ring && s'.taken == s.taken && s'.accepted == s.accepted
  }

  lemma StepMoves<L>(s: State<L>, a: Action<L>, s': State<L>)
    requires Inv(s) && Step(s, a, s')
    ensures LabelMove(s, a, s')
  {
    hide SynthesisOk, IsJob, RingOk, Shaped, Stored, Taken, Cleared;
  }

  /** Only taking a label that is not there breaks the order. */
  lemma LabelStep<L>(s: State<L>, a: Action<L>, s': State<L>)
    requires Inv(s) && LabelsOk(s) && Step(s, a, s') && !TakesNothing(s, a)
    ensures LabelsOk(s')
  {
    hide Inv, Step, Proper, Labels;
    StepMoves(s, a, s');
    if a.StoreLabel? {
      StoredOk(s.ring, s.pushing.name);
    }
    TakenOk(s.ring);
    ClearedOk(s.ring);
  }

  /** And taking one that is not there always does: what was taken is not what was accepted. */
  lemma TakenFromNone<L>(s: State<L>, a: Action<L>, s': State<L>)
    requires Inv(s) && LabelsOk(s) && Step(s, a, s') && TakesNothing(s, a)
    ensures s'.taken == s.accepted + [s.ring.slots[s.ring.read]] && s'.accepted == s.accepted
    ensures s'.ring.count == COUNTS - 1 && !(s'.taken <= s'.accepted)
  {
    hide Step, Inv;
    StepMoves(s, a, s');
    assert s.taken == s.accepted;
  }

  // ----- when that happens -----

  /** Neither looked for a label nor stored one between the two moments. */
  ghost predicate Untouched<L>(actions: seq<Action<L>>, c: nat, k: nat) {
    forall j: nat :: c < j < k && j < |actions| ==> !actions[j].CheckLabel? && !actions[j].StoreLabel?
  }

  ghost predicate ClearsBefore<L>(actions: seq<Action<L>>, c: nat, k: nat) {
    c < k && c < |actions| && actions[c].ClearLabels? && Untouched(actions, c, k)
  }

  /** The k-th action takes a label, and since the look that found one the labels have been cleared
      and none has been stored. */
  ghost predicate TakesCleared<L>(actions: seq<Action<L>>, k: nat) {
    k < |actions| && actions[k].TakeLabel? && exists c: nat :: ClearsBefore(actions, c, k)
  }

  /** Whether the labels have been cleared since the last look or store. */
  ghost predicate Gone<L>(actions: seq<Action<L>>, k: nat)
    requires k <= |actions|
  {
    k > 0 && (actions[k - 1].ClearLabels?
              || (!actions[k - 1].CheckLabel? && !actions[k - 1].StoreLabel? && Gone(actions, k - 1)))
  }

  lemma {:induction false} GoneIff<L>(actions: seq<Action<L>>, k: nat)
    requires k <= |actions|
    ensures Gone(actions, k) <==> exists c: nat :: ClearsBefore(actions, c, k)
  {
    if k > 0 {
      GoneIff(actions, k - 1);
      if actions[k - 1].ClearLabels? {
        assert ClearsBefore(actions, k - 1, k);
      } else if Gone(actions, k) {
        var c: nat :| ClearsBefore(actions, c, k - 1);
        assert ClearsBefore(actions, c, k);
      } else if c: nat :| ClearsBefore(actions, c, k) {
        assert ClearsBefore(actions, c, k - 1);
      }
    }
  }

  ghost predicate NoneCleared<L>(actions: seq<Action<L>>, i: nat) {
    forall k: nat {:trigger TakesCleared(actions, k)} :: k < i ==> !TakesCleared(actions, k)
  }

  /** The label seen is there unless the labels have been cleared. */
  ghost predicate SeenOk<L>(s: State<L>, actions: seq<Action<L>>, k: nat)
    requires k <= |actions|
  {
    s.work == Seen ==> (s.ring.count == 0 <==> Gone(actions, k))
  }

  lemma SeenStep<L>(s: State<L>, actions: seq<Action<L>>, k: nat, s': State<L>)
    requires k < |actions| && Inv(s) && LabelsOk(s) && SeenOk(s, actions, k) && Step(s, actions[k], s')
    requires !TakesNothing(s, actions[k])
    ensures SeenOk(s', actions, k + 1)
  {
    hide Inv, Step, Proper, Labels;
    StepMoves(s, actions[k], s');
  }

  lemma {:induction false} LabelsRunOk<L>(states: seq<State<L>>, actions: seq<Action<L>>, i: nat)
    requires Run(states, actions) && i < |states| && NoneCleared(actions, i)
    ensures LabelsOk(states[i]) && SeenOk(states[i], actions, i)
  {
    hide Run, Step, Inv, LabelsOk, SeenOk, TakesCleared;
    FirstState(states, actions);
    if i > 0 {
      assert NoneCleared(actions, i - 1);
      LabelsRunOk(states, actions, i - 1);
      RunOk(states, actions, i - 1);
      RunStep(states, actions, i - 1);
      StepMoves(states[i - 1], actions[i - 1], states[i]);
      TakesIff(states[i - 1], actions, i - 1);
      assert !TakesCleared(actions, i - 1);
      LabelStep(states[i - 1], actions[i - 1], states[i]);
      SeenStep(states[i - 1], actions, i - 1, states[i]);
    }
  }

  lemma FirstState<L>(states: seq<State<L>>, actions: seq<Action<L>>)
    requires Run(states, actions)
    ensures |states| == |actions| + 1 && LabelsOk(states[0]) && SeenOk(states[0], actions, 0)
  {
  }

  lemma RunStep<L>(states: seq<State<L>>, actions: seq<Action<L>>, i: nat)
    requires Run(states, actions) && i < |actions|
    ensures |states| == |actions| + 1 && Step(states[i], actions[i], states[i + 1])
  {
    assert StepAt(states, actions, i);
  }

  /** A label that is not there is taken exactly if the labels were cleared since it was seen. */
  lemma TakesIff<L>(s: State<L>, actions: seq<Action<L>>, k: nat)
    requires k < |actions| && SeenOk(s, actions, k) && (actions[k].TakeLabel? ==> s.work == Seen)
    ensures TakesNothing(s, actions[k]) <==> TakesCleared(actions, k)
  {
    GoneIff(actions, k);
  }

  // ----- the exact condition -----

  ghost predicate AlwaysOnce<L>(states: seq<State<L>>, i: nat)
    requires i < |states|
  {
    forall j: nat {:trigger states[j]} :: j <= i ==> OnceInOrder(states[j])
  }

  ghost predicate AlwaysAccepted<L>(states: seq<State<L>>, i: nat)
    requires i < |states|
  {
    forall j: nat {:trigger states[j]} :: j <= i ==> states[j].taken <= states[j].accepted
  }

  /** Up to any moment of any run: every label has been taken and synthesised once and in order,
      exactly if no label was taken after the labels had been cleared since it was seen; and
      otherwise labels were taken that nobody pushed, or that had been cleared. */
  lemma EachLabelOnce<L>(states: seq<State<L>>, actions: seq<Action<L>>, i: nat)
    requires Run(states, actions) && i < |states|
    ensures AlwaysOnce(states, i) <==> NoneCleared(actions, i)
    ensures AlwaysAccepted(states, i) <==> NoneCleared(actions, i)
  {
    if NoneCleared(actions, i) {
      forall j: nat | j <= i
        ensures OnceInOrder(states[j]) && states[j].taken <= states[j].accepted
      {
        LabelsRunOk(states, actions, j);
        EachTakenOnce(states, actions, j);
      }
    } else {
      var k := FirstCleared(actions, i);
      LabelsRunOk(states, actions, k);
      RunOk(states, actions, k);
      RunStep(states, actions, k);
      StepMoves(states[k], actions[k], states[k + 1]);
      TakesIff(states[k], actions, k);
      TakenFromNone(states[k], actions[k], states[k + 1]);
      InOrderIsPrefix(states[k + 1]);
    }
  }

  lemma {:induction false} FirstCleared<L>(actions: seq<Action<L>>, i: nat) returns (k: nat)
    requires i <= |actions| && !NoneCleared(actions, i)
    ensures k < i && TakesCleared(actions, k) && NoneCleared(actions, k)
  {
    if NoneCleared(actions, i - 1) {
      k := i - 1;
    } else {
      k := FirstCleared(actions, i - 1);
    }
  }

  lemma InOrderIsPrefix<L>(s: State<L>)
    ensures InOrder(s) ==> s.taken <= s.accepted
  {
  }

  // ----- what follows -----

  /** More labels counted than there are slots: the queue looks full to one side, and to the other
      never empty. */
  ghost predicate Overrun<L>(s: State<L>) {
    s.pushing == Resting && Shaped(s.ring) && |s.ring.slots| == LABEL_QUEUE && s.ring.count > LABEL_QUEUE
  }

  lemma OverrunStep<L>(s: State<L>, a: Action<L>, s': State<L>)
    requires Inv(s) && Overrun(s) && Step(s, a, s') && !a.ClearLabels?
    ensures s'.pushing == Resting && Shaped(s'.ring) && s'.ring.slots == s.ring.slots && s'.accepted == s.accepted
    ensures s'.ring.count == if a.TakeLabel? then s.ring.count - 1 else s.ring.count
    ensures a.CheckRoom? ==> s' == s
    ensures a.CheckLabel? ==> s'.work == Seen
    ensures a.TakeLabel? ==> s.ring.read < |s.ring.slots| && s'.taken == s.taken + [s.ring.slots[s.ring.read]]
  {
    hide SynthesisOk, IsJob, RingOk;
    StepMoves(s, a, s');
    TakenOk(s.ring);
  }

  /** How many of the actions from i to j take a label. */
  ghost function Takes<L>(actions: seq<Action<L>>, i: nat, j: nat): nat
    requires i <= j <= |actions|
    decreases j
  {
    if i == j then 0 else Takes(actions, i, j - 1) + if actions[j - 1].TakeLabel? then 1 else 0
  }

  /** After that, however long it takes, until the labels are cleared again or 2^32 - 1 - 512 labels
      have been taken: every label pushed is refused, and every look finds a label, one of those left in
      the slots, over and over. */
  lemma {:induction false} RefusedTillCleared<L>(states: seq<State<L>>, actions: seq<Action<L>>, i: nat, j: nat)
    requires Run(states, actions) && i <= j < |states|
    requires Overrun(states[i]) && states[i].ring.count == COUNTS - 1
    requires (forall k: nat :: i <= k < j ==> !actions[k].ClearLabels?) && Takes(actions, i, j) < COUNTS - 1 - LABEL_QUEUE
    ensures Overrun(states[j]) && states[j].ring.count == COUNTS - 1 - Takes(actions, i, j)
    ensures states[j].accepted == states[i].accepted && states[j].ring.slots == states[i].ring.slots
    ensures forall k: nat :: i <= k < j ==> (actions[k].CheckRoom? ==> states[k + 1] == states[k])
                                            && (actions[k].CheckLabel? ==> states[k + 1].work == Seen)
    decreases j
  {
    hide Run, Step, Inv;
    FirstState(states, actions);
    if i < j {
      RefusedTillCleared(states, actions, i, j - 1);
      RunOk(states, actions, j - 1);
      RunStep(states, actions, j - 1);
      OverrunStep(states[j - 1], actions[j - 1], states[j]);
    }
  }

  /** One label is pushed and seen, the labels are cleared, and then it is taken: it is synthesised
      although it was cleared, and the next label pushed is refused. */
  lemma ClearedExample<L>(s0: State<L>, a: L, b: L) returns (states: seq<State<L>>, actions: seq<Action<L>>)
    requires Init(s0)
    ensures Run(states, actions) && states[0] == s0
    ensures actions == [CheckRoom(a), StoreLabel, CheckLabel, ClearLabels, TakeLabel, CheckRoom(b)]
    ensures states[5].taken == [a] && states[5].accepted == [] && states[5].work == Popped(a)
    ensures states[5].ring.count == 0xFFFF_FFFF && states[6] == states[5]
    ensures Overrun(states[5]) && TakesCleared(actions, 4)
  {
    var s1 := s0.(pushing := Storing(a));
    var s2 := s1.(ring := Stored(s1.ring, a), accepted := [a], pushing := Resting);
    var s3 := s2.(work := Seen);
    var s4 := s3.(ring := Cleared(s3.ring), accepted := []);
    var s5 := s4.(ring := Taken(s4.ring), taken := [a], work := Popped(a));
    states := [s0, s1, s2, s3, s4, s5, s5];
    actions := [CheckRoom(a), StoreLabel, CheckLabel, ClearLabels, TakeLabel, CheckRoom(b)];
    forall i: nat | i < |actions|
      ensures StepAt(states, actions, i)
    {
    }
    assert ClearsBefore(actions, 3, 4);
  }
}
