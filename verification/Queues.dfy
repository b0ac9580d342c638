/** The rings between the stages of the pipeline. Each is a first-in first-out sequence of at
    most as many items as it has slots, kept in a circular buffer. */
module Queues {

  /** The slot k places on from a slot, wrapping once. */
  function Wrapped(from: nat, k: nat, length: nat): nat
    requires from < length && from + k < 2 * length
  {
    if from + k < length then from + k else from + k - length
  }

  lemma WrapIsRemainder(from: nat, k: nat, length: nat)
    requires from < length && from + k < 2 * length
    ensures (from + k) % length == Wrapped(from, k, length) < length
  {
    if from + k >= length {
      RemainderStep(from + k - length, length);
    }
  }

  lemma RemainderStep(x: nat, n: nat)
    requires n > 0 && x < n
    ensures (x + n) % n == x
  {
    var q, r := (x + n) / n, (x + n) % n;
    assert x + n == Multiple(q, n) + r;
    MultipleGrows(q, n);
  }

  function Multiple(q: int, n: int): int {
    q * n
  }

  lemma MultipleGrows(q: int, n: nat)
    ensures q >= 2 ==> Multiple(q, n) >= 2 * n
    ensures q == 1 ==> Multiple(q, n) == n
    ensures q <= 0 ==> Multiple(q, n) <= 0
  {
  }

  /** Two offsets below the length land on the same slot only if they are equal. */
  lemma WrapApart(from: nat, j: nat, k: nat, length: nat)
    requires from < length && j < length && k < length && j != k
    ensures Wrapped(from, j, length) != Wrapped(from, k, length)
  {
  }

  /** A count of queued labels is an unsigned 32-bit number: taking one from none wraps. */
  const COUNTS := 0x1_0000_0000

  /** The label queue as a value: its slots, the next to read and to write, and its count. */
  datatype LabelRing<T> = LabelRing(slots: seq<T>, read: nat, write: nat, count: nat)

  predicate Shaped<T>(r: LabelRing<T>) {
    0 < |r.slots| < COUNTS - 1 && r.read < |r.slots| && r.write < |r.slots| && r.count < COUNTS
  }

  function Stored<T>(r: LabelRing<T>, entry: T): LabelRing<T>
    requires Shaped(r)
  {
    r.(slots := r.slots[r.write := entry], write := (r.write + 1) % |r.slots|, count := (r.count + 1) % COUNTS)
  }

  function Taken<T>(r: LabelRing<T>): LabelRing<T>
    requires Shaped(r)
  {
    r.(read := (r.read + 1) % |r.slots|, count := (r.count + COUNTS - 1) % COUNTS)
  }

  function Cleared<T>(r: LabelRing<T>): LabelRing<T> {
    r.(read := 0, write := 0, count := 0)
  }

  /** The count is that of the slots from read to write, so the ring holds a sequence of labels. */
  predicate Proper<T>(r: LabelRing<T>) {
    0 < |r.slots| && r.read < |r.slots| && r.count <= |r.slots| && r.write == Wrapped(r.read, r.count, |r.slots|)
  }

  function Labels<T>(r: LabelRing<T>): (s: seq<T>)
    requires Proper(r)
    ensures |s| == r.count
  {
    seq(r.count, k requires 0 <= k < r.count => r.slots[Wrapped(r.read, k, |r.slots|)])
  }

  /** Storing with room appends the label. */
  lemma StoredOk<T>(r: LabelRing<T>, entry: T)
    requires Shaped(r)
    ensures Shaped(Stored(r, entry))
    ensures Proper(r) && r.count < |r.slots| ==> Proper(Stored(r, entry)) && Labels(Stored(r, entry)) == Labels(r) + [entry]
  {
    WrapIsRemainder(r.write, 1, |r.slots|);
  }

  /** Taking removes the oldest label. If there is none, it hands out whatever the slot holds, and
      leaves a count near the top of the unsigned numbers, so the ring no longer holds a sequence. */
  lemma TakenOk<T>(r: LabelRing<T>)
    requires Shaped(r)
    ensures Shaped(Taken(r))
    ensures Proper(r) && r.count > 0 ==> Proper(Taken(r)) && [r.slots[r.read]] + Labels(Taken(r)) == Labels(r)
    ensures r.count == 0 ==> Taken(r).count == COUNTS - 1 && !Proper(Taken(r))
  {
    TakenAt(r);
    hide Taken;
    if Proper(r) && r.count > 0 {
      LabelsAfter(r, Taken(r));
    }
  }

  lemma TakenAt<T>(r: LabelRing<T>)
    requires Shaped(r)
    ensures var r' := Taken(r);
            && r'.slots == r.slots && r'.write == r.write && r'.read == Wrapped(r.read, 1, |r.slots|)
            && r'.count == if r.count == 0 then COUNTS - 1 else r.count - 1
  {
    WrapIsRemainder(r.read, 1, |r.slots|);
  }

  lemma LabelsAfter<T>(r: LabelRing<T>, r': LabelRing<T>)
    requires Shaped(r) && Proper(r) && r.count > 0 && r'.slots == r.slots && r'.write == r.write
    requires r'.read == Wrapped(r.read, 1, |r.slots|) && r'.count == r.count - 1
    ensures Proper(r') && [r.slots[r.read]] + Labels(r') == Labels(r)
  {
    assert forall k :: 0 <= k < r'.count ==> Wrapped(r'.read, k, |r.slots|) == Wrapped(r.read, k + 1, |r.slots|);
  }

  lemma ClearedOk<T>(r: LabelRing<T>)
    requires Shaped(r)
    ensures Shaped(Cleared(r)) && Proper(Cleared(r)) && Labels(Cleared(r)) == []
  {
  }

  /** Copies n items between separate blocks of memory. */
  method Memcpy<T>(dst: array<T>, d: nat, src: array<T>, s: nat, n: nat)
    requires dst != src && d + n <= dst.Length && s + n <= src.Length
    modifies dst
    ensures forall x :: d <= x < d + n ==> dst[x] == src[x - d + s]
    ensures forall x :: 0 <= x < dst.Length && !(d <= x < d + n) ==> dst[x] == old(dst[x])
  {
    forall x | d <= x < d + n {
      dst[x] := src[x - d + s];
    }
  }

  /** A queue of items that move in blocks. */
  class MemQueue<T(0)> {
    const length: nat
    const rawData: array<T>
    var read: nat
    var write: nat
    var nOfItems: nat

    /** What holds even of a queue that more was pushed into than it has room for. */
    ghost predicate Shape()
      reads this
    {
      0 < length == rawData.Length && read < length && write < length
    }

    ghost predicate Valid()
      reads this
    {
      Shape() && nOfItems <= length && write == Wrapped(read, nOfItems, length)
    }

    /** The queued items, oldest first. */
    ghost function Contents(): (s: seq<T>)
      reads this, rawData
      requires Valid()
      ensures |s| == nOfItems
    {
      seq(nOfItems, k requires 0 <= k < nOfItems && Valid() reads this, rawData => rawData[Wrapped(read, k, length)])
    }

    /** What stands in the next n slots to be written. */
    ghost function Ahead(n: nat): (s: seq<T>)
      reads this, rawData
      requires Shape() && n <= length
      ensures |s| == n
    {
      seq(n, k requires 0 <= k < n <= length && Shape() reads this, rawData => rawData[Wrapped(write, k, length)])
    }

    constructor (queueLen: nat)
      requires queueLen > 0
      ensures Valid() && fresh(rawData) && length == queueLen && read == 0 && Contents() == []
    {
      length := queueLen;
      rawData := new T[queueLen];
      read, write, nOfItems := 0, 0, 0;
    }

    method IsEmpty() returns (empty: bool)
      requires Shape()
      ensures empty <==> nOfItems == 0
      ensures Valid() ==> (empty <==> Contents() == [])
    {
      empty := nOfItems <= 0;
    }

    method IsFull() returns (full: bool)
      requires Shape()
      ensures full <==> nOfItems >= length
      ensures Valid() ==> (full <==> |Contents()| == length)
    {
      full := nOfItems >= length;
    }

    /** Appends the first n items of a block. Items beyond the free room overwrite the oldest ones,
        which are still counted; of a block longer than the ring the first items are overwritten by
        its last. The copy must not run over the end twice: the program writes outside its memory then. */
    method Push(item: array<T>, n: nat)
      requires Shape() && item != rawData && n <= item.Length && write + n <= 2 * length
      modifies this`write, this`nOfItems, rawData
      ensures Shape() && write == (old(write) + n) % length && nOfItems == old(nOfItems) + n
      ensures forall k :: 0 <= k < n && n - length <= k ==> rawData[Wrapped(old(write), k, length)] == old(item[k])
      ensures forall k :: n <= k < length ==> rawData[Wrapped(old(write), k, length)] == old(rawData[Wrapped(write, k, length)])
      ensures old(Valid()) && n <= length - old(nOfItems) ==> Valid() && Contents() == old(Contents()) + old(item[..n])
      ensures old(Valid()) && n > length - old(nOfItems) ==> !Valid()
      ensures old(Valid()) && length - old(nOfItems) < n <= length ==>
        forall k :: 0 <= k < n - (length - old(nOfItems)) ==>
          rawData[Wrapped(read, k, length)] == old(item[length - nOfItems + k])
    {
      ghost var before, from := if Valid() then Contents() else [], write;
      Store(item, n);
      if n <= length {
        WrapIsRemainder(write, n, length);
      }
      write := (write + n) % length;
      nOfItems := nOfItems + n;
      if old(Valid()) && n <= length - |before| {
        Appended(before, from, old(item[..n]));
      } else if old(Valid()) && n <= length {
        forall k | 0 <= k < n - (length - |before|)
          ensures rawData[Wrapped(read, k, length)] == old(item[length - nOfItems + k])
        {
          assert Wrapped(read, k, length) == Wrapped(from, length - |before| + k, length);
        }
      }
    }

    /** Slots filled from where the queue ended are its next items. */
    lemma Appended(before: seq<T>, from: nat, items: seq<T>)
      requires Valid() && nOfItems == |before| + |items| && from == Wrapped(read, |before|, length)
      requires forall k :: 0 <= k < |before| ==> rawData[Wrapped(read, k, length)] == before[k]
      requires forall k :: 0 <= k < |items| ==> rawData[Wrapped(from, k, length)] == items[k]
      ensures Contents() == before + items
    {
      forall k | 0 <= k < nOfItems
        ensures rawData[Wrapped(read, k, length)] == (before + items)[k]
      {
        if k >= |before| {
          assert Wrapped(read, k, length) == Wrapped(from, k - |before|, length);
        }
      }
    }

    /** The copy itself, in two parts when it runs over the end. */
    method Store(item: array<T>, n: nat)
      requires Shape() && item != rawData && n <= item.Length && write + n <= 2 * length
      modifies rawData
      ensures forall k :: 0 <= k < n && n - length <= k ==> rawData[Wrapped(write, k, length)] == item[k]
      ensures forall k :: n <= k < length ==> rawData[Wrapped(write, k, length)] == old(rawData[Wrapped(write, k, length)])
      ensures Valid() && n <= length - nOfItems ==>
        forall k :: 0 <= k < nOfItems ==> rawData[Wrapped(read, k, length)] == old(rawData[Wrapped(read, k, length)])
    {
      if write + n <= length {
        Memcpy(rawData, write, item, 0, n);
      } else {
        var remain := length - write;
        Memcpy(rawData, write, item, 0, remain);
        Memcpy(rawData, 0, item, remain, n - remain);
      }
    }

    /** The slot that the next item will be put in: one that is not in use, unless the queue is full. */
    method Next() returns (slot: nat)
      requires Shape()
      ensures slot == write < rawData.Length
      ensures Valid() ==> (nOfItems < length <==> forall k :: 0 <= k < nOfItems ==> Wrapped(read, k, length) != slot)
    {
      slot := write;
      assert Valid() && nOfItems == length ==> Wrapped(read, 0, length) == slot;
    }

    /** Appends the items that were built in the next n slots. */
    method PushNext(n: nat)
      requires Shape()
      modifies this`write, this`nOfItems
      ensures Shape() && write == (old(write) + n) % length && nOfItems == old(nOfItems) + n
      ensures old(Valid()) && n <= length - old(nOfItems) ==> Valid() && Contents() == old(Contents()) + old(Ahead(n))
      ensures old(Valid()) && n > length - old(nOfItems) ==> !Valid()
    {
      ghost var before, from, items := if Valid() then Contents() else [], write, if n <= length then Ahead(n) else [];
      if n <= length {
        WrapIsRemainder(write, n, length);
      }
      write := (write + n) % length;
      nOfItems := nOfItems + n;
      if old(Valid()) && n <= length - |before| {
        Appended(before, from, items);
      }
    }

    /** Copies out the oldest n items, or all there are. */
    method Get(item: array<T>, n: nat) returns (count: nat)
      requires Valid() && item != rawData && (n <= item.Length || nOfItems <= item.Length)
      modifies item
      ensures count == (if n > nOfItems then nOfItems else n) <= item.Length
      ensures item[..count] == Contents()[..count]
      ensures forall x :: count <= x < item.Length ==> item[x] == old(item[x])
    {
      count := if n > nOfItems then nOfItems else n;
      if read + count <= length {
        Memcpy(item, 0, rawData, read, count);
      } else {
        var remain := length - read;
        Memcpy(item, 0, rawData, read, remain);
        Memcpy(item, remain, rawData, 0, count - remain);
      }
    }

    /** Removes the oldest n items, or all there are. */
    method Drop(n: nat)
      requires Valid()
      modifies this`read, this`nOfItems
      ensures Valid() && Contents() == old(Contents())[if n > old(nOfItems) then old(nOfItems) else n..]
      ensures old(nOfItems) >= n ==> nOfItems == old(nOfItems) - n && read == Wrapped(old(read), n, length)
    {
      var count := if n > nOfItems then nOfItems else n;
      ghost var before, from := Contents(), read;
      WrapIsRemainder(read, count, length);
      read := (read + count) % length;
      nOfItems := nOfItems - count;
      forall k | 0 <= k < nOfItems
        ensures rawData[Wrapped(read, k, length)] == before[count + k]
      {
        assert Wrapped(read, k, length) == Wrapped(from, count + k, length);
      }
      assert Contents() == before[count..];
    }

    /** Copies out and removes the oldest n items, or all there are. */
    method Pop(item: array<T>, n: nat) returns (count: nat)
      requires Valid() && item != rawData && (n <= item.Length || nOfItems <= item.Length)
      modifies this`read, this`nOfItems, item
      ensures Valid() && count == (if n > old(nOfItems) then old(nOfItems) else n) <= item.Length
      ensures item[..count] + Contents() == old(Contents())
      ensures forall x :: count <= x < item.Length ==> item[x] == old(item[x])
    {
      ghost var before := Contents();
      count := Get(item, n);
      Drop(count);
      assert before[..count] + before[count..] == before;
    }
  }

  /** The queue of labels in front of the pipeline: one at a time, and it can be cleared. Its
      methods look at no count; that is left to their callers. */
  class LabelQueue<T(0)> {
    const queue: array<T>
    var read: nat
    var write: nat
    var nOfLabels: nat

    ghost function Ring(): (r: LabelRing<T>)
      reads this, queue
    {
      LabelRing(queue[..], read, write, nOfLabels)
    }

    ghost predicate Shape()
      reads this, queue
    {
      Shaped(Ring())
    }

    constructor (queueLen: nat)
      requires 0 < queueLen < COUNTS - 1
      ensures Shape() && fresh(queue) && queue.Length == queueLen && Proper(Ring()) && Labels(Ring()) == []
      ensures read == write == nOfLabels == 0
    {
      queue := new T[queueLen];
      read, write, nOfLabels := 0, 0, 0;
    }

    method IsEmpty() returns (empty: bool)
      requires Shape()
      ensures empty <==> nOfLabels == 0
      ensures Proper(Ring()) ==> (empty <==> Labels(Ring()) == [])
    {
      empty := nOfLabels <= 0;
    }

    method IsFull() returns (full: bool)
      requires Shape()
      ensures full <==> nOfLabels >= queue.Length
      ensures Proper(Ring()) ==> (full <==> |Labels(Ring())| == queue.Length)
    {
      full := nOfLabels >= queue.Length;
    }

    method Push(entry: T)
      requires Shape()
      modifies this`write, this`nOfLabels, queue
      ensures Shape() && Ring() == Stored(old(Ring()), entry)
      ensures old(Proper(Ring())) && old(nOfLabels) < queue.Length ==>
        Proper(Ring()) && Labels(Ring()) == old(Labels(Ring())) + [entry]
    {
      StoredOk(Ring(), entry);
      queue[write] := entry;
      write := (write + 1) % queue.Length;
      nOfLabels := (nOfLabels + 1) % COUNTS;
    }

    method Pop() returns (entry: T)
      requires Shape()
      modifies this`read, this`nOfLabels
      ensures Shape() && Ring() == Taken(old(Ring())) && entry == queue[old(read)]
      ensures old(Proper(Ring())) && old(nOfLabels) > 0 ==>
        Proper(Ring()) && [entry] + Labels(Ring()) == old(Labels(Ring()))
      ensures old(nOfLabels) == 0 ==> nOfLabels == COUNTS - 1
    {
      TakenOk(Ring());
      entry := queue[read];
      read := (read + 1) % queue.Length;
      nOfLabels := (nOfLabels + COUNTS - 1) % COUNTS;
    }

    /** Forgets every label, and tells the one that would have come next. */
    method Clear() returns (next: T)
      requires Shape()
      modifies this`read, this`write, this`nOfLabels
      ensures Shape() && Ring() == Cleared(old(Ring())) && Proper(Ring()) && Labels(Ring()) == []
      ensures next == queue[old(read)]
      ensures old(Proper(Ring())) && old(nOfLabels) > 0 ==> next == old(Labels(Ring()))[0]
    {
      nOfLabels := 0;
      next := queue[read];
      read, write := 0, 0;
    }
  }
}
