/** A queue of 32 priority levels whose non-empty levels are marked in a 32-bit word. */
module PriorityQueue {
  import opened Common
  import opened Bits

  const HIGHEST_PRIORITY: nat := 31
  const LEVELS: nat := 32

  datatype Entry<T> = Entry(priority: nat, value: T)

  /** The values of one priority, oldest first. */
  function Level<T>(log: seq<Entry<T>>, p: nat): (r: seq<T>) {
    if log == [] then []
    else (if log[0].priority == p then [log[0].value] else []) + Level(log[1..], p)
  }

  /** `k` is the oldest entry of the highest priority. */
  ghost predicate IsNext<T>(log: seq<Entry<T>>, k: nat) {
    && k < |log|
    && (forall j :: 0 <= j < |log| ==> log[j].priority <= log[k].priority)
    && (forall j :: 0 <= j < k ==> log[j].priority < log[k].priority)
  }

  lemma {:induction false} LevelPush<T>(log: seq<Entry<T>>, e: Entry<T>, p: nat)
    ensures Level(log + [e], p) == Level(log, p) + if e.priority == p then [e.value] else []
  {
    if log == [] {
      assert log + [e] == [e];
    } else {
      LevelPush(log[1..], e, p);
      assert (log + [e])[1..] == log[1..] + [e];
    }
  }

  lemma {:induction false} LevelEmpty<T>(log: seq<Entry<T>>, p: nat)
    ensures Level(log, p) == [] <==> forall j :: 0 <= j < |log| ==> log[j].priority != p
  {
    if log != [] {
      LevelEmpty(log[1..], p);
      assert forall j :: 0 < j < |log| ==> log[j] == log[1..][j - 1];
    }
  }

  lemma {:induction false} WithoutTail<T>(log: seq<T>, k: nat)
    requires 0 < k < |log|
    ensures Without(log, k)[0] == log[0] && Without(log, k)[1..] == Without(log[1..], k - 1)
  {
  }

  lemma {:induction false} LevelStep<T>(log: seq<Entry<T>>, p: nat)
    requires log != []
    ensures Level(log, p) == (if log[0].priority == p then [log[0].value] else []) + Level(log[1..], p)
  {
  }

  /** Taking the oldest entry of its priority takes the front of that level and nothing else. */
  lemma {:induction false} LevelRemove<T>(log: seq<Entry<T>>, k: nat, p: nat)
    requires k < |log| && forall j :: 0 <= j < k ==> log[j].priority != log[k].priority
    ensures Level(log, log[k].priority) != [] && Level(log, log[k].priority)[0] == log[k].value
    ensures Level(Without(log, k), p) == if p == log[k].priority then Level(log, p)[1..] else Level(log, p)
  {
    if k == 0 {
      assert Without(log, 0) == log[1..];
    } else {
      var rest := log[1..];
      assert rest[k - 1] == log[k] && forall j :: 0 <= j < k - 1 ==> rest[j] == log[j + 1];
      LevelRemove(rest, k - 1, p);
      WithoutTail(log, k);
      LevelStep(Without(log, k), p);
      LevelStep(log, p);
      LevelStep(log, log[k].priority);
    }
  }

  /** The oldest entry of a non-empty level. */
  lemma {:induction false} FirstOf<T>(log: seq<Entry<T>>, p: nat) returns (k: nat)
    requires Level(log, p) != []
    ensures k < |log| && log[k].priority == p && forall j :: 0 <= j < k ==> log[j].priority != p
  {
    if log[0].priority == p {
      k := 0;
    } else {
      var i := FirstOf(log[1..], p);
      k := i + 1;
      assert forall j :: 0 < j < |log| ==> log[j] == log[1..][j - 1];
    }
  }

  /** The levels and the word that marks them hold exactly the entries of `log`. */
  ghost predicate Represents<T(!new)>(queue: seq<seq<T>>, hasEntry: nat, log: seq<Entry<T>>) {
    && |queue| == LEVELS && hasEntry < Pow2(LEVELS)
    && (forall j :: 0 <= j < |log| ==> log[j].priority <= HIGHEST_PRIORITY)
    && (forall p: nat :: p < LEVELS ==> queue[p] == Level(log, p))
    && (forall p: nat :: p < LEVELS ==> (Bit(hasEntry, p) <==> queue[p] != []))
  }

  /** The marked word with one bit set or cleared. */
  lemma {:induction false} MarkBit(x: nat, k: nat, p: nat)
    requires k < LEVELS
    ensures Bit(Or(x, Pow2(k)), p) <==> Bit(x, p) || p == k
    ensures Bit(And(x, Not(Pow2(k), LEVELS)), p) <==> Bit(x, p) && p != k && p < LEVELS
  {
    OrBit(x, Pow2(k), p);
    AndBit(x, Not(Pow2(k), LEVELS), p);
    NotBit(Pow2(k), LEVELS, p);
    Pow2Bit(k, p);
  }

  lemma {:induction false} BigBits(x: nat, w: nat, p: nat)
    requires x < Pow2(w) && w <= p
    ensures !Bit(x, p)
  {
    if p == 0 {
    } else if w == 0 {
      ZeroBit(p);
    } else {
      BigBits(x / 2, w - 1, p - 1);
    }
  }

  lemma {:induction false} MarksFit(x: nat, k: nat)
    requires x < Pow2(LEVELS) && k < LEVELS
    ensures Or(x, Pow2(k)) < Pow2(LEVELS) && And(x, Not(Pow2(k), LEVELS)) < Pow2(LEVELS)
  {
    forall p: nat | p >= LEVELS
      ensures !Bit(Or(x, Pow2(k)), p) && !Bit(And(x, Not(Pow2(k), LEVELS)), p)
    {
      MarkBit(x, k, p);
      BigBits(x, LEVELS, p);
    }
    SmallBits(Or(x, Pow2(k)), LEVELS);
    SmallBits(And(x, Not(Pow2(k), LEVELS)), LEVELS);
  }

  /** The highest marked level is the highest priority present, and its front is the next entry. */
  lemma {:induction false} HighestIsNext<T(!new)>(queue: seq<seq<T>>, hasEntry: nat, log: seq<Entry<T>>)
    returns (k: nat)
    requires Represents(queue, hasEntry, log) && hasEntry != 0
    ensures var p := 31 - LeadingZeros(hasEntry, 32);
      && 0 <= p < LEVELS && IsNext(log, k) && log[k].priority == p
      && queue[p] != [] && queue[p][0] == log[k].value
  {
    HighestBit(hasEntry, LEVELS);
    var p := 31 - LeadingZeros(hasEntry, LEVELS);
    k := FirstOf(log, p);
    LevelRemove(log, k, p);
    forall j | 0 <= j < |log| ensures log[j].priority <= p {
      LevelEmpty(log, log[j].priority);
    }
  }

  lemma {:induction false} PushRepresents<T(!new)>(
      queue: seq<seq<T>>, hasEntry: nat, log: seq<Entry<T>>, p: nat, val: T)
    requires Represents(queue, hasEntry, log) && p <= HIGHEST_PRIORITY
    ensures Represents(queue[p := queue[p] + [val]], Or(hasEntry, Pow2(p)), log + [Entry(p, val)])
  {
    var log', queue' := log + [Entry(p, val)], queue[p := queue[p] + [val]];
    MarksFit(hasEntry, p);
    forall i: nat | i < LEVELS
      ensures queue'[i] == Level(log', i) && (Bit(Or(hasEntry, Pow2(p)), i) <==> queue'[i] != [])
    {
      assert queue[i] == Level(log, i) && (Bit(hasEntry, i) <==> queue[i] != []);
      LevelPush(log, Entry(p, val), i);
      MarkBit(hasEntry, p, i);
    }
  }

  lemma {:induction false} PopRepresents<T(!new)>(queue: seq<seq<T>>, hasEntry: nat, log: seq<Entry<T>>, k: nat)
    requires Represents(queue, hasEntry, log) && IsNext(log, k) && queue[log[k].priority] != []
    ensures
      var p := log[k].priority;
      var rest := queue[p][1..];
      var marks := if rest == [] then And(hasEntry, Not(Pow2(p), LEVELS)) else hasEntry;
      Represents(queue[p := rest], marks, Without(log, k))
  {
    var p := log[k].priority;
    MarksFit(hasEntry, p);
    forall i: nat | i < LEVELS
      ensures Level(Without(log, k), i) == if i == p then Level(log, i)[1..] else Level(log, i)
      ensures Bit(And(hasEntry, Not(Pow2(p), LEVELS)), i) <==> Bit(hasEntry, i) && i != p
    {
      LevelRemove(log, k, i);
      MarkBit(hasEntry, p, i);
    }
  }

  class PriorityQueue<T(!new)> {
    var queue: seq<seq<T>>
    var hasEntry: nat
    /** What was pushed and not yet popped, in order of arrival, with clamped priorities. */
    ghost var log: seq<Entry<T>>

    ghost predicate Valid()
      reads this
    {
      Represents(queue, hasEntry, log)
    }

    constructor ()
      ensures Valid() && log == []
    {
      queue, hasEntry, log := seq(LEVELS, _ => []), 0, [];
      new;
      forall p: nat | p < LEVELS ensures !Bit(0, p) { ZeroBit(p); }
    }

    method Push(priority: nat, val: T)
      requires Valid()
      modifies this
      ensures Valid()
      ensures log == old(log) + [Entry(Min(priority, HIGHEST_PRIORITY), val)]
    {
      var p := Min(priority, HIGHEST_PRIORITY);
      PushRepresents(queue, hasEntry, log, p, val);
      queue := queue[p := queue[p] + [val]];
      hasEntry := Or(hasEntry, Pow2(p));
      log := log + [Entry(p, val)];
    }

    /** Takes the oldest entry of the highest priority; the level it looks at is never empty. */
    method Pop() returns (next: Option<T>, ghost k: nat)
      requires Valid()
      modifies this
      ensures Valid()
      ensures old(log) == [] ==> next == None && log == []
      ensures old(log) != [] ==>
        IsNext(old(log), k) && next == Some(old(log)[k].value) && log == Without(old(log), k)
    {
      if hasEntry == 0 {
        ZeroMeansEmpty(queue, log);
        return None, 0;
      }
      k := HighestIsNext(queue, hasEntry, log);
      PopRepresents(queue, hasEntry, log, k);
      var p := 31 - LeadingZeros(hasEntry, LEVELS);
      var level := queue[p];
      next := Some(level[0]);
      queue := queue[p := level[1..]];
      hasEntry := if level[1..] == [] then And(hasEntry, Not(Pow2(p), LEVELS)) else hasEntry;
      log := Without(log, k);
    }
  }

  lemma {:induction false} ZeroMeansEmpty<T(!new)>(queue: seq<seq<T>>, log: seq<Entry<T>>)
    requires Represents(queue, 0, log)
    ensures log == []
  {
    if log != [] {
      LevelEmpty(log, log[0].priority);
      ZeroBit(log[0].priority);
    }
  }
}
