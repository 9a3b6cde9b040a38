/** Small datatypes and sequence helpers shared by every part of the model. */
module Common {

  datatype Option<+T> = None | Some(value: T)

  function Min(a: int, b: int): (r: int) {
    if a <= b then a else b
  }

  function Max(a: int, b: int): (r: int) {
    if a <= b then b else a
  }

  /** The consecutive numbers `lo, lo + 1, ..., hi - 1`. */
  function Tags(lo: nat, hi: nat): (r: seq<nat>)
    requires lo <= hi
    ensures |r| == hi - lo
    ensures forall i :: 0 <= i < hi - lo ==> r[i] == lo + i
  {
    seq(hi - lo, i requires 0 <= i < hi - lo => lo + i)
  }

  /** `s` with the element at index `k` taken out. */
  function Without<T>(s: seq<T>, k: nat): (r: seq<T>)
    requires k < |s|
  {
    s[..k] + s[k + 1..]
  }

  ghost predicate NoDup<T>(s: seq<T>) {
    forall i, j :: 0 <= i < j < |s| ==> s[i] != s[j]
  }

  /** A sequence is duplicate-free exactly when it is as long as its set of elements is large. */
  lemma {:induction false} DupCardinality<T>(s: seq<T>)
    ensures |set x | x in s| <= |s|
    ensures NoDup(s) <==> |set x | x in s| == |s|
  {
    if s != [] {
      var rest := s[..|s| - 1];
      var last := s[|s| - 1];
      DupCardinality(rest);
      assert (set x | x in s) == (set x | x in rest) + {last};
      if last in rest {
        var i :| 0 <= i < |rest| && rest[i] == last;
        assert s[i] == s[|s| - 1];
        assert (set x | x in s) == (set x | x in rest);
      } else {
        assert NoDup(s) <==> NoDup(rest) by {
          if NoDup(s) {
            forall i, j | 0 <= i < j < |rest| ensures rest[i] != rest[j] { assert s[i] != s[j]; }
          }
        }
      }
    }
  }

  /** A set of numbers that all lie in `lo..hi` has at most `hi - lo` members. */
  lemma {:induction false} BoundedSetCardinality(s: set<nat>, lo: nat, hi: nat)
    requires lo <= hi
    requires forall x :: x in s ==> lo <= x < hi
    ensures |s| <= hi - lo
    decreases hi - lo
  {
    if lo == hi {
      assert s == {};
    } else {
      BoundedSetCardinality(s - {hi - 1}, lo, hi - 1);
      assert s <= (s - {hi - 1}) + {hi - 1};
      if hi - 1 !in s {
        assert s == s - {hi - 1};
      }
    }
  }

  /** A sequence shorter than `n` misses one of the first `n` numbers. */
  lemma {:induction false} MissingNumber(s: seq<nat>, n: nat) returns (p: nat)
    requires |s| < n
    ensures p < n && p !in s
  {
    var all := Tags(0, n);
    var members: set<nat>, range: set<nat> := set x | x in s, set x | x in all;
    assert NoDup(all);
    DupCardinality(all);
    DupCardinality(s);
    assert |range| == n && |members| < n;
    assert range - members != {} by {
      assert |range| == |range - members| + |range * members| && range * members <= members;
      assert |members| == |members - range| + |members * range| && members * range == range * members;
    }
    p :| p in range - members;
  }
}
