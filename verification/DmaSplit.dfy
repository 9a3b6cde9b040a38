/** When a buffer is loaded directly: exactly if its chunks can be cut into few enough segments. */
module DmaSplit {
  import opened Common
  import opened DmaMap

  /** The chunks of a mapped buffer, each in one page and one boundary window. */
  function Chunks(c: Constraints, pages: map<nat, nat>, v: nat, left: nat): (r: seq<Segment>)
    requires Mapped(pages, v, left)
    decreases left
  {
    if left == 0 then []
    else
      var cur := Translate(pages, v).value;
      var size := ChunkSize(c, v, cur, left);
      [Segment(cur, size)] + Chunks(c, pages, v + size, left - size)
  }

  function Length(xs: seq<Segment>): (r: nat) {
    if xs == [] then 0 else xs[0].len + Length(xs[1..])
  }

  /**
   Chunks that make one segment: each begins where the one before ends, all begin in the same boundary
   window, and several together are no longer than the limit.
   */
  ghost predicate Piece(c: Constraints, xs: seq<Segment>) {
    && xs != []
    && (forall i :: 0 < i < |xs| ==> xs[i].addr == xs[i - 1].addr + xs[i - 1].len)
    && (forall i :: 0 < i < |xs| && c.boundary > 0 ==> xs[i].addr / c.boundary == xs[0].addr / c.boundary)
    && (|xs| == 1 || Length(xs) <= c.maxsegsz)
  }

  /** The chunks can be cut into at most `k` pieces. */
  ghost predicate Splits(c: Constraints, xs: seq<Segment>, k: nat)
    decreases k
  {
    xs == [] || (k > 0 && exists n :: 0 < n <= |xs| && SplitsAt(c, xs, k, n))
  }

  /** The first `n` chunks are a piece, and the others can be cut into at most `k - 1`. */
  ghost predicate SplitsAt(c: Constraints, xs: seq<Segment>, k: nat, n: nat)
    requires k > 0 && 0 < n <= |xs|
    decreases k, 0
  {
    Piece(c, xs[..n]) && Splits(c, xs[n..], k - 1)
  }

  lemma {:induction false} LengthConcat(a: seq<Segment>, b: seq<Segment>)
    ensures Length(a + b) == Length(a) + Length(b)
  {
    if a == [] {
      assert a + b == b;
    } else {
      LengthConcat(a[1..], b);
      assert (a + b)[1..] == a[1..] + b;
    }
  }

  /** Part of a piece is a piece. */
  lemma {:induction false} PartOfPiece(c: Constraints, a: seq<Segment>, b: seq<Segment>)
    requires Piece(c, a + b)
    ensures (a != [] ==> Piece(c, a)) && (b != [] ==> Piece(c, b))
  {
    LengthConcat(a, b);
    var xs := a + b;
    forall i | 0 < i < |b| ensures b[i].addr == b[i - 1].addr + b[i - 1].len {
      assert xs[|a| + i] == b[i] && xs[|a| + i - 1] == b[i - 1];
    }
    if b != [] && c.boundary > 0 {
      forall i | 0 < i < |b| ensures b[i].addr / c.boundary == b[0].addr / c.boundary {
        assert xs[|a| + i] == b[i] && xs[|a|] == b[0];
      }
    }
    forall i | 0 < i < |a| ensures a[i].addr == a[i - 1].addr + a[i - 1].len {
      assert xs[i] == a[i] && xs[i - 1] == a[i - 1];
    }
    if a != [] && c.boundary > 0 {
      forall i | 0 < i < |a| ensures a[i].addr / c.boundary == a[0].addr / c.boundary {
        assert xs[i] == a[i] && xs[0] == a[0];
      }
    }
  }

  lemma {:induction false} SplitsMore(c: Constraints, xs: seq<Segment>, k: nat)
    requires Splits(c, xs, k)
    ensures Splits(c, xs, k + 1)
    decreases k
  {
    if xs != [] {
      var n :| 0 < n <= |xs| && SplitsAt(c, xs, k, n);
      SplitsMore(c, xs[n..], k - 1);
      assert SplitsAt(c, xs, k + 1, n);
    }
  }

  /** Fewer chunks need no more pieces. */
  lemma {:induction false} SplitsRest(c: Constraints, xs: seq<Segment>, k: nat)
    requires xs != [] && Splits(c, xs, k)
    ensures Splits(c, xs[1..], k)
  {
    var n :| 0 < n <= |xs| && SplitsAt(c, xs, k, n);
    if n == 1 {
      SplitsMore(c, xs[1..], k - 1);
    } else {
      var rest := xs[1..];
      assert xs[..n] == [xs[0]] + rest[..n - 1] && xs[n..] == rest[n - 1..];
      PartOfPiece(c, [xs[0]], rest[..n - 1]);
      assert SplitsAt(c, rest, k, n - 1);
    }
  }

  /** With `run` going on into the first `m` chunks, the others can be cut into at most `k` pieces. */
  ghost predicate JoinsAt(c: Constraints, run: seq<Segment>, xs: seq<Segment>, k: nat, m: nat)
    requires m <= |xs|
  {
    Piece(c, run + xs[..m]) && Splits(c, xs[m..], k)
  }

  ghost predicate Joins(c: Constraints, run: seq<Segment>, xs: seq<Segment>, k: nat) {
    exists m: nat :: m <= |xs| && JoinsAt(c, run, xs, k, m)
  }

  /** Moving the first chunk over to the run. */
  lemma {:induction false} Shifted(run: seq<Segment>, x: Segment, xs: seq<Segment>, m: nat)
    requires m <= |xs|
    ensures run + ([x] + xs)[..m + 1] == (run + [x]) + xs[..m] && ([x] + xs)[m + 1..] == xs[m..]
  {
  }

  /** If the next chunk can go on the last segment, nothing is lost by putting it there. */
  lemma {:induction false} JoinsGoesOn(c: Constraints, run: seq<Segment>, x: Segment, xs: seq<Segment>, k: nat)
    requires Piece(c, run + [x])
    ensures Joins(c, run, [x] + xs, k) <==> Joins(c, run + [x], xs, k)
  {
    if Joins(c, run, [x] + xs, k) {
      GoesOn(c, run, x, xs, k);
    }
    if m: nat :| m <= |xs| && JoinsAt(c, run + [x], xs, k, m) {
      Shifted(run, x, xs, m);
      assert JoinsAt(c, run, [x] + xs, k, m + 1);
    }
  }

  lemma {:induction false} GoesOn(c: Constraints, run: seq<Segment>, x: Segment, xs: seq<Segment>, k: nat)
    requires Piece(c, run + [x]) && Joins(c, run, [x] + xs, k)
    ensures Joins(c, run + [x], xs, k)
  {
    var all := [x] + xs;
    var m: nat :| m <= |all| && JoinsAt(c, run, all, k, m);
    if m == 0 {
      assert all[0..] == all && all[1..] == xs;
      SplitsRest(c, all, k);
      assert (run + [x]) + xs[..0] == run + [x] && xs[0..] == xs;
      assert JoinsAt(c, run + [x], xs, k, 0);
    } else {
      Shifted(run, x, xs, m - 1);
      assert JoinsAt(c, run + [x], xs, k, m - 1);
    }
  }

  /** If it cannot, it begins a new piece. */
  lemma {:induction false} JoinsBegins(c: Constraints, run: seq<Segment>, x: Segment, xs: seq<Segment>, k: nat)
    requires Piece(c, run) && !Piece(c, run + [x])
    ensures Joins(c, run, [x] + xs, k) <==> Splits(c, [x] + xs, k)
  {
    var all := [x] + xs;
    assert run + all[..0] == run && all[0..] == all;
    if m: nat :| m <= |all| && JoinsAt(c, run, all, k, m) {
      if m > 0 {
        Shifted(run, x, xs, m - 1);
        PartOfPiece(c, run + [x], xs[..m - 1]);
        assert false;
      }
    }
    if Splits(c, all, k) {
      assert JoinsAt(c, run, all, k, 0);
    }
  }

  lemma {:induction false} FirstPiece(c: Constraints, xs: seq<Segment>, k: nat) returns (n: nat)
    requires xs != [] && Splits(c, xs, k)
    ensures k > 0 && 0 < n <= |xs| && SplitsAt(c, xs, k, n)
  {
    n :| 0 < n <= |xs| && SplitsAt(c, xs, k, n);
  }

  lemma {:induction false} SplitsBegins(c: Constraints, x: Segment, xs: seq<Segment>, k: nat)
    ensures Splits(c, [x] + xs, k) <==> k > 0 && Joins(c, [x], xs, k - 1)
  {
    var all := [x] + xs;
    if Splits(c, all, k) {
      var n := FirstPiece(c, all, k);
      assert all[..n] == [x] + xs[..n - 1] && all[n..] == xs[n - 1..];
      assert JoinsAt(c, [x], xs, k - 1, n - 1);
    }
    if k > 0 && Joins(c, [x], xs, k - 1) {
      var m: nat :| m <= |xs| && JoinsAt(c, [x], xs, k - 1, m);
      assert all[..m + 1] == [x] + xs[..m] && all[m + 1..] == xs[m..];
      assert SplitsAt(c, all, k, m + 1);
    }
  }

  /** The segment that a piece makes. */
  function Merged(run: seq<Segment>): (s: Segment)
    requires run != []
  {
    Segment(run[0].addr, Length(run))
  }

  lemma {:induction false} PieceEnd(c: Constraints, run: seq<Segment>)
    requires Piece(c, run)
    ensures run[|run| - 1].addr + run[|run| - 1].len == run[0].addr + Length(run)
    decreases |run|
  {
    if |run| == 1 {
      assert run[1..] == [];
    } else {
      assert run == [run[0]] + run[1..];
      PartOfPiece(c, [run[0]], run[1..]);
      PieceEnd(c, run[1..]);
    }
  }

  /** A chunk is put on the last segment exactly if it makes one piece with the chunks there. */
  lemma {:induction false} CoalescesExact(c: Constraints, run: seq<Segment>, x: Segment)
    requires Piece(c, run)
    ensures Coalesces(c, Merged(run), x.addr, x.len) <==> Piece(c, run + [x])
    ensures Merged(run + [x]) == Segment(run[0].addr, Length(run) + x.len)
  {
    PieceEnd(c, run);
    LengthConcat(run, [x]);
    assert Length([x]) == x.len + Length([x][1..]) == x.len;
    var xs := run + [x];
    assert xs[|run|] == x && xs[|run| - 1] == run[|run| - 1];
  }

  lemma {:induction false} Single(c: Constraints, x: Segment)
    ensures Piece(c, [x]) && Merged([x]) == x
  {
    assert Length([x]) == x.len + Length([x][1..]) && [x][1..] == [];
  }

  /** What becomes of a chunk, by whether it makes one piece with those of the last segment. */
  lemma {:induction false} ChunkAdded(c: Constraints, segs: seq<Segment>, run: seq<Segment>, x: Segment)
    requires Piece(c, run) && segs != [] && segs[|segs| - 1] == Merged(run)
    ensures AddChunk(c, segs, x.addr, x.len) ==
      if Piece(c, run + [x]) then Some(segs[|segs| - 1 := Merged(run + [x])])
      else if |segs| < c.nsegments then Some(segs + [x])
      else None
  {
    CoalescesExact(c, run, x);
  }

  /** How many segments a load may have. */
  function Most(c: Constraints): (k: nat) {
    Max(1, c.nsegments)
  }

  /** All of `xs` can be added to the list one after the other. */
  predicate AddsAll(c: Constraints, segs: seq<Segment>, xs: seq<Segment>)
    decreases |xs|, 0
  {
    xs == [] || AddsFirst(c, segs, xs[0], xs[1..])
  }

  predicate AddsFirst(c: Constraints, segs: seq<Segment>, x: Segment, xs: seq<Segment>)
    decreases |xs|, 1
  {
    var next := AddChunk(c, segs, x.addr, x.len);
    next.Some? && AddsAll(c, next.value, xs)
  }

  /** The list of a mapped buffer comes to its end if all its chunks can be added. */
  lemma {:induction false} BuildAdds(c: Constraints, pages: map<nat, nat>, v: nat, left: nat, segs: seq<Segment>)
    requires Mapped(pages, v, left)
    ensures Build(c, pages, v, left, segs).Direct? <==> AddsAll(c, segs, Chunks(c, pages, v, left))
    decreases left
  {
    if left > 0 {
      var cur := Translate(pages, v).value;
      var size := ChunkSize(c, v, cur, left);
      var rest := Chunks(c, pages, v + size, left - size);
      assert Chunks(c, pages, v, left)[1..] == rest;
      var next := AddChunk(c, segs, cur, size);
      if next.Some? {
        BuildAdds(c, pages, v + size, left - size, next.value);
      }
    }
  }

  /** The next chunk goes on the run or begins a new piece. */
  lemma {:induction false} JoinsNext(c: Constraints, run: seq<Segment>, x: Segment, xs: seq<Segment>, k: nat)
    requires Piece(c, run)
    ensures Joins(c, run, [x] + xs, k) <==>
      if Piece(c, run + [x]) then Joins(c, run + [x], xs, k) else k > 0 && Joins(c, [x], xs, k - 1)
  {
    if Piece(c, run + [x]) {
      JoinsGoesOn(c, run, x, xs, k);
    } else {
      JoinsBegins(c, run, x, xs, k);
      SplitsBegins(c, x, xs, k);
    }
  }

  lemma {:induction false} NothingLeft(c: Constraints, run: seq<Segment>, k: nat)
    requires Piece(c, run)
    ensures Joins(c, run, [], k)
  {
    var none: seq<Segment> := [];
    assert run + none[..0] == run && none[0..] == [];
    assert JoinsAt(c, run, none, k, 0);
  }

  /** To a list whose last segment is made of `run`, the chunks can be added if they can be cut. */
  lemma {:induction false} AddsSplits(c: Constraints, segs: seq<Segment>, run: seq<Segment>, xs: seq<Segment>)
    requires Piece(c, run) && segs != [] && segs[|segs| - 1] == Merged(run) && |segs| <= Most(c)
    ensures AddsAll(c, segs, xs) <==> Joins(c, run, xs, Most(c) - |segs|)
    decreases |xs|
  {
    if xs == [] {
      NothingLeft(c, run, Most(c) - |segs|);
    } else {
      var x, rest := xs[0], xs[1..];
      assert xs == [x] + rest;
      JoinsNext(c, run, x, rest, Most(c) - |segs|);
      ChunkAdded(c, segs, run, x);
      if Piece(c, run + [x]) {
        AddsSplits(c, segs[|segs| - 1 := Merged(run + [x])], run + [x], rest);
      } else if |segs| < c.nsegments {
        Single(c, x);
        AddsSplits(c, segs + [x], [x], rest);
      }
    }
  }

  /** To an empty list they can be added if they can be cut into as many pieces as there may be segments. */
  lemma {:induction false} AddsFromEmpty(c: Constraints, xs: seq<Segment>)
    ensures AddsAll(c, [], xs) <==> Splits(c, xs, Most(c))
  {
    if xs != [] {
      var x, rest := xs[0], xs[1..];
      assert xs == [x] + rest;
      SplitsBegins(c, x, rest, Most(c));
      Single(c, x);
      AddsSplits(c, [x], [x], rest);
    }
  }

  /**
   A mapped buffer is loaded directly exactly if its chunks can be cut into at most as many segments as are
   allowed, and at least one is.
   */
  lemma {:induction false} DirectExact(c: Constraints, pages: map<nat, nat>, v: nat, size: nat)
    requires Mapped(pages, v, size)
    ensures Build(c, pages, v, size, []).Direct? <==> Splits(c, Chunks(c, pages, v, size), Most(c))
  {
    BuildAdds(c, pages, v, size, []);
    AddsFromEmpty(c, Chunks(c, pages, v, size));
  }

  /** The chunk that could not be added: it is one segment too many. */
  ghost predicate OneTooMany(c: Constraints, segs: seq<Segment>, cur: nat, size: nat) {
    && |segs| == Most(c)
    && var last := segs[|segs| - 1];
      || cur != last.addr + last.len
      || last.len + size > c.maxsegsz
      || (c.boundary > 0 && cur / c.boundary != last.addr / c.boundary)
  }

  /**
   A load that needs a bounce buffer has filled its list, and the chunk after it neither continues the last
   segment within the limit and the boundary window nor finds a place of its own.
   */
  lemma {:induction false} BouncedFull(c: Constraints, pages: map<nat, nat>, v: nat, left: nat, segs: seq<Segment>)
    returns (at: nat, size: nat)
    requires |segs| <= Most(c) && Build(c, pages, v, left, segs).Bounced?
    ensures v <= at < v + left && Translate(pages, at).Some? && 0 < size <= v + left - at
    ensures size == ChunkSize(c, at, Translate(pages, at).value, v + left - at)
    ensures OneTooMany(c, Build(c, pages, v, left, segs).segs, Translate(pages, at).value, size)
    decreases left
  {
    var cur := Translate(pages, v).value;
    size := ChunkSize(c, v, cur, left);
    var next := AddChunk(c, segs, cur, size);
    if next == None {
      at := v;
    } else {
      at, size := BouncedFull(c, pages, v + size, left - size, next.value);
    }
  }
}
