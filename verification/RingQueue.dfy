/** A bounded ring queue over a fixed buffer of optional slots. */
module RingQueue {
  import opened Common

  /** The slot that is `i` places after `head` in a buffer of `n` slots. */
  function Slot(head: nat, i: nat, n: nat): (r: nat)
    requires head < n && i < n
    ensures r < n
  {
    if head + i < n then head + i else head + i - n
  }

  /** The live window from `head` holds `contents` in order, and every other slot is empty. */
  ghost predicate Window<T(!new)>(buf: seq<Option<T>>, head: nat, contents: seq<T>)
    requires head < |buf|
  {
    && |contents| <= |buf|
    && forall i {:trigger Slot(head, i, |buf|)} :: 0 <= i < |buf| ==>
         buf[Slot(head, i, |buf|)] == if i < |contents| then Some(contents[i]) else None
  }

  lemma {:induction false} WindowPush<T(!new)>(buf: seq<Option<T>>, head: nat, contents: seq<T>, data: T)
    requires head < |buf| && Window(buf, head, contents) && |contents| < |buf|
    ensures Window(buf[Slot(head, |contents|, |buf|) := Some(data)], head, contents + [data])
  {
  }

  lemma {:induction false} WindowPop<T(!new)>(buf: seq<Option<T>>, head: nat, contents: seq<T>)
    requires head < |buf| && Window(buf, head, contents) && contents != []
    ensures buf[head] == Some(contents[0])
    ensures Window(buf[head := None], if head + 1 == |buf| then 0 else head + 1, contents[1..])
  {
    var n := |buf|;
    var next := if head + 1 == n then 0 else head + 1;
    assert Slot(head, 0, n) == head;
    forall i | 0 <= i < n
      ensures buf[head := None][Slot(next, i, n)] == if i < |contents| - 1 then Some(contents[1..][i]) else None
    {
      if i < n - 1 {
        assert Slot(next, i, n) == Slot(head, i + 1, n);
      }
    }
  }

  class RingQ<T(!new)> {
    const queue: array<Option<T>>
    var len: nat
    var head: nat
    var tail: nat
    /** The queued data, oldest first. */
    ghost var contents: seq<T>

    ghost predicate Valid()
      reads this, queue
    {
      && len == |contents| <= queue.Length
      && (queue.Length == 0 ==> head == tail == 0)
      && (queue.Length > 0 ==>
            && head < queue.Length
            && tail == (if len == queue.Length then head else Slot(head, len, queue.Length))
            && Window(queue[..], head, contents))
    }

    constructor (queueLen: nat)
      ensures Valid() && fresh(queue) && queue.Length == queueLen && contents == []
    {
      queue := new Option<T>[queueLen](_ => None);
      len, head, tail := 0, 0, 0;
      contents := [];
    }

    /** Appends `data`, or hands it back when the queue is full. */
    method Push(data: T) returns (refused: Option<T>)
      requires Valid()
      modifies this`len, this`tail, this`contents, queue
      ensures Valid()
      ensures |old(contents)| < queue.Length ==> refused == None && contents == old(contents) + [data]
      ensures |old(contents)| == queue.Length ==> refused == Some(data) && contents == old(contents)
    {
      if queue.Length == len {
        return Some(data);
      }
      WindowPush(queue[..], head, contents, data);
      queue[tail] := Some(data);
      tail := tail + 1;
      if tail == queue.Length { tail := 0; }
      len := len + 1;
      contents := contents + [data];
      return None;
    }

    /** Takes the oldest element. */
    method Pop() returns (result: Option<T>)
      requires Valid()
      modifies this`len, this`head, this`contents, queue
      ensures Valid()
      ensures old(contents) == [] ==> result == None && contents == []
      ensures old(contents) != [] ==> result == Some(old(contents)[0]) && contents == old(contents)[1..]
    {
      if len == 0 {
        return None;
      }
      WindowPop(queue[..], head, contents);
      result := queue[head];
      queue[head] := None;
      head := head + 1;
      if head == queue.Length { head := 0; }
      len := len - 1;
      contents := contents[1..];
    }

    /** The oldest element, if any. Reading the head slot needs a buffer of at least one slot. */
    method Head() returns (h: Option<T>)
      requires Valid() && queue.Length > 0
      ensures h == if contents == [] then None else Some(contents[0])
    {
      assert Slot(head, 0, queue.Length) == head;
      h := queue[head];
    }

    /** Walks over the live window as the iterator does; it never meets an empty slot. */
    method Collect() returns (items: seq<T>)
      requires Valid()
      ensures items == contents
    {
      items := [];
      var pos, left := head, len;
      while left > 0
        invariant 0 <= left <= len && items == contents[..len - left]
        invariant left > 0 ==> pos == Slot(head, len - left, queue.Length)
      {
        assert queue[Slot(head, len - left, queue.Length)] == Some(contents[len - left]);
        items := items + [queue[pos].value];
        pos := pos + 1;
        if pos == queue.Length { pos := 0; }
        left := left - 1;
      }
    }
  }
}
