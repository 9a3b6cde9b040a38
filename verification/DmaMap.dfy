/**
 Loading a buffer into a DMA map: the scatter/gather list of physical segments a device is
 given for a virtual buffer. Translation goes by pages; `pages` sends a virtual page number to
 the physical address of its first byte.
 */
module DmaMap {
  import opened Common
  import opened Bits

  const PAGESIZE: nat := 4096

  datatype Constraints = Constraints(boundary: nat, maxsegsz: nat, nsegments: nat, maxsize: nat, alignment: nat)

  datatype Segment = Segment(addr: nat, len: nat)

  /** A boundary is absent or a power of two that fits in `w` bits, and an alignment is at least one. */
  ghost predicate Proper(c: Constraints, w: nat) {
    c.alignment > 0 && (c.boundary == 0 || exists k: nat :: k < w && c.boundary == Pow2(k))
  }

  /** Every physical address, and the next boundary after it, fits in `w` bits. */
  ghost predicate Fits(c: Constraints, pages: map<nat, nat>, w: nat) {
    forall p :: p in pages ==> pages[p] + PAGESIZE + c.boundary < Pow2(w)
  }

  function Translate(pages: map<nat, nat>, v: nat): (r: Option<nat>) {
    if v / PAGESIZE in pages then Some(pages[v / PAGESIZE] + v % PAGESIZE) else None
  }

  predicate Misaligned(c: Constraints, v: nat)
    requires c.alignment > 0
  {
    And(v, c.alignment - 1) != 0
  }

  /** What is left of the buffer from `v` on before its page, or the boundary, ends. */
  function ChunkSize(c: Constraints, v: nat, cur: nat, left: nat): (r: nat)
    requires left > 0
    ensures 0 < r <= left && r <= PAGESIZE - v % PAGESIZE
    ensures c.boundary > 0 ==> r <= c.boundary - cur % c.boundary
    ensures r == left || r == PAGESIZE - v % PAGESIZE || (c.boundary > 0 && r == c.boundary - cur % c.boundary)
  {
    var inPage := Min(PAGESIZE - v % PAGESIZE, left);
    if c.boundary > 0 then Min(inPage, c.boundary - cur % c.boundary) else inPage
  }

  predicate SameWindow(c: Constraints, a: nat, b: nat) {
    c.boundary == 0 || a / c.boundary == b / c.boundary
  }

  predicate Coalesces(c: Constraints, s: Segment, cur: nat, size: nat) {
    cur == s.addr + s.len && s.len + size <= c.maxsegsz && SameWindow(c, s.addr, cur)
  }

  /** Adds a chunk to the list, or nothing when one more segment would be too many. */
  function AddChunk(c: Constraints, segs: seq<Segment>, cur: nat, size: nat): (r: Option<seq<Segment>>) {
    if segs == [] then Some([Segment(cur, size)])
    else
      var last := segs[|segs| - 1];
      if Coalesces(c, last, cur, size) then Some(segs[|segs| - 1 := last.(len := last.len + size)])
      else if |segs| >= c.nsegments then None
      else Some(segs + [Segment(cur, size)])
  }

  datatype Built = Direct(segs: seq<Segment>) | Bounced(segs: seq<Segment>) | Unmapped(segs: seq<Segment>)

  /** The list for the `left` bytes from `v` on, added to `segs`. */
  function Build(c: Constraints, pages: map<nat, nat>, v: nat, left: nat, segs: seq<Segment>): (r: Built)
    decreases left
  {
    if left == 0 then Direct(segs)
    else if Translate(pages, v) == None then Unmapped(segs)
    else
      var cur := Translate(pages, v).value;
      var size := ChunkSize(c, v, cur, left);
      var next := AddChunk(c, segs, cur, size);
      if next == None then Bounced(segs) else Build(c, pages, v + size, left - size, next.value)
  }

  /** The physical addresses a list covers, byte by byte. */
  function Expand(segs: seq<Segment>): (r: seq<nat>) {
    if segs == [] then []
    else
      var last := segs[|segs| - 1];
      Expand(segs[..|segs| - 1]) + Tags(last.addr, last.addr + last.len)
  }

  predicate Mapped(pages: map<nat, nat>, v: nat, n: nat) {
    forall x :: v <= x < v + n ==> Translate(pages, x).Some?
  }

  /** The physical addresses of a buffer, byte by byte. */
  function Image(pages: map<nat, nat>, v: nat, n: nat): (r: seq<nat>)
    requires Mapped(pages, v, n)
  {
    seq(n, i requires 0 <= i < n => Translate(pages, v + i).value)
  }

  /** A segment is not empty and lies between two boundaries. */
  predicate Within(c: Constraints, s: Segment) {
    s.len > 0 && SameWindow(c, s.addr, s.addr + s.len - 1)
  }

  /** The longest chunk. */
  function Limit(c: Constraints): (r: nat) {
    if c.boundary > 0 then Min(PAGESIZE, c.boundary) else PAGESIZE
  }

  ghost predicate Good(c: Constraints, segs: seq<Segment>, longest: nat) {
    && (forall i :: 0 <= i < |segs| ==> Within(c, segs[i]) && segs[i].len <= longest)
    && |segs| <= Max(1, c.nsegments)
  }

  /** A chunk lies in one page and in one boundary window. */
  lemma {:induction false} ChunkImage(c: Constraints, pages: map<nat, nat>, v: nat, left: nat)
    requires left > 0 && Translate(pages, v).Some?
    ensures
      var cur := Translate(pages, v).value;
      var size := ChunkSize(c, v, cur, left);
      && Mapped(pages, v, size) && Image(pages, v, size) == Tags(cur, cur + size)
      && SameWindow(c, cur, cur + size - 1)
  {
    var cur := Translate(pages, v).value;
    var size := ChunkSize(c, v, cur, left);
    forall x | v <= x < v + size ensures Translate(pages, x) == Some(cur + (x - v)) {
      DivModUnique(x, PAGESIZE, v / PAGESIZE, v % PAGESIZE + (x - v));
    }
    if c.boundary > 0 {
      assert cur == (cur / c.boundary) * c.boundary + cur % c.boundary;
      DivModUnique(cur + size - 1, c.boundary, cur / c.boundary, cur % c.boundary + size - 1);
    }
  }

  lemma {:induction false} AddChunkGood(c: Constraints, segs: seq<Segment>, cur: nat, size: nat, longest: nat)
    requires Good(c, segs, longest) && Within(c, Segment(cur, size)) && size <= longest && c.maxsegsz <= longest
    requires AddChunk(c, segs, cur, size).Some?
    ensures Good(c, AddChunk(c, segs, cur, size).value, longest)
  {
    if segs != [] {
      assert Within(c, segs[|segs| - 1]);
    }
  }

  lemma {:induction false} AddChunkExpand(c: Constraints, segs: seq<Segment>, cur: nat, size: nat)
    requires AddChunk(c, segs, cur, size).Some?
    ensures Expand(AddChunk(c, segs, cur, size).value) == Expand(segs) + Tags(cur, cur + size)
  {
    var r := AddChunk(c, segs, cur, size).value;
    if segs == [] {
    } else if Coalesces(c, segs[|segs| - 1], cur, size) {
      var front, last := segs[..|segs| - 1], segs[|segs| - 1];
      assert r[..|r| - 1] == front;
      assert Tags(last.addr, cur + size) == Tags(last.addr, cur) + Tags(cur, cur + size);
    } else {
      assert r[..|r| - 1] == segs;
    }
  }

  lemma {:induction false} ImageConcat(pages: map<nat, nat>, v: nat, a: nat, b: nat)
    requires Mapped(pages, v, a) && Mapped(pages, v + a, b)
    ensures Mapped(pages, v, a + b) && Image(pages, v, a + b) == Image(pages, v, a) + Image(pages, v + a, b)
  {
  }

  lemma {:induction false} Regroup<T>(a: seq<T>, b: seq<T>, c: seq<T>)
    ensures (a + b) + c == a + (b + c)
  {
  }

  /** A direct list covers exactly the image of the buffer, in order. */
  lemma {:induction false} BuildImage(c: Constraints, pages: map<nat, nat>, v: nat, left: nat, segs: seq<Segment>)
    requires Build(c, pages, v, left, segs).Direct?
    ensures Mapped(pages, v, left)
    ensures Expand(Build(c, pages, v, left, segs).segs) == Expand(segs) + Image(pages, v, left)
    decreases left
  {
    if left > 0 {
      var cur := Translate(pages, v).value;
      var size := ChunkSize(c, v, cur, left);
      var next := AddChunk(c, segs, cur, size).value;
      ChunkImage(c, pages, v, left);
      AddChunkExpand(c, segs, cur, size);
      BuildImage(c, pages, v + size, left - size, next);
      ImageConcat(pages, v, size, left - size);
      Regroup(Expand(segs), Image(pages, v, size), Image(pages, v + size, left - size));
    }
  }

  /** Whatever way it ends, the list holds good segments only. */
  lemma {:induction false} BuildGood(
      c: Constraints, pages: map<nat, nat>, v: nat, left: nat, segs: seq<Segment>, longest: nat)
    requires Good(c, segs, longest) && c.maxsegsz <= longest && Min(Limit(c), left) <= longest
    ensures Good(c, Build(c, pages, v, left, segs).segs, longest)
    decreases left
  {
    if left > 0 && Translate(pages, v).Some? {
      var cur := Translate(pages, v).value;
      var size := ChunkSize(c, v, cur, left);
      ChunkImage(c, pages, v, left);
      assert size <= Limit(c) && Within(c, Segment(cur, size));
      if AddChunk(c, segs, cur, size).Some? {
        AddChunkGood(c, segs, cur, size, longest);
        BuildGood(c, pages, v + size, left - size, AddChunk(c, segs, cur, size).value, longest);
      }
    }
  }

  /** A buffer whose every byte is mapped is never reported as unmapped. */
  lemma {:induction false} BuildMapped(c: Constraints, pages: map<nat, nat>, v: nat, left: nat, segs: seq<Segment>)
    requires Mapped(pages, v, left)
    ensures !Build(c, pages, v, left, segs).Unmapped?
    decreases left
  {
    if left > 0 {
      var cur := Translate(pages, v).value;
      var size := ChunkSize(c, v, cur, left);
      if AddChunk(c, segs, cur, size).Some? {
        BuildMapped(c, pages, v + size, left - size, AddChunk(c, segs, cur, size).value);
      }
    }
  }

  /**
   A direct load gives the device the buffer's physical image, byte by byte and in order, in
   segments that are not empty and cross no boundary, at most as many as allowed. A segment is
   at most `maxsegsz` long if that is no less than the longest chunk can be.
   */
  lemma {:induction false} DirectLoad(c: Constraints, pages: map<nat, nat>, v: nat, size: nat)
    requires Build(c, pages, v, size, []).Direct?
    ensures
      var segs := Build(c, pages, v, size, []).segs;
      && Mapped(pages, v, size) && Expand(segs) == Image(pages, v, size)
      && (forall i :: 0 <= i < |segs| ==> Within(c, segs[i]) && segs[i].len <= Max(c.maxsegsz, Min(Limit(c), size)))
      && |segs| <= Max(1, c.nsegments)
  {
    BuildImage(c, pages, v, size, []);
    BuildGood(c, pages, v, size, [], Max(c.maxsegsz, Min(Limit(c), size)));
    assert Expand([]) + Image(pages, v, size) == Image(pages, v, size);
  }

  /**
   Every buffer that the map accepts, and whose addresses fit in `w` bits, gets segments of at most
   `maxsegsz` bytes when loaded directly.
   */
  ghost predicate RespectsMaxSegment(c: Constraints, w: nat)
    requires c.alignment > 0
  {
    forall pages: map<nat, nat>, v: nat, size: nat ::
      && 0 < v && v + size <= Pow2(w) && Fits(c, pages, w)
      && size <= c.maxsize && !Misaligned(c, v) && Build(c, pages, v, size, []).Direct? ==>
        ShortSegments(c, Build(c, pages, v, size, []).segs)
  }

  /** The alignment leaves half of the address space, and two windows and two pages fit in it. */
  ghost predicate Roomy(c: Constraints, w: nat) {
    w >= 13 && c.alignment <= Pow2(w - 1) && 2 * c.boundary + 2 * PAGESIZE < Pow2(w)
  }

  predicate ShortSegments(c: Constraints, segs: seq<Segment>) {
    forall i :: 0 <= i < |segs| ==> segs[i].len <= c.maxsegsz
  }

  /** The segment size limit is kept exactly when no chunk of an acceptable buffer can exceed it. */
  lemma {:induction false} MaxSegmentExact(c: Constraints, w: nat)
    requires c.alignment > 0
    ensures Min(Limit(c), c.maxsize) <= c.maxsegsz ==> RespectsMaxSegment(c, w)
    ensures Proper(c, w) && Roomy(c, w) ==>
      (RespectsMaxSegment(c, w) <==> Min(Limit(c), c.maxsize) <= c.maxsegsz)
  {
    var n := Min(Limit(c), c.maxsize);
    if n <= c.maxsegsz {
      forall pages: map<nat, nat>, v: nat, size: nat
        | size <= c.maxsize && !Misaligned(c, v) && Build(c, pages, v, size, []).Direct?
        ensures ShortSegments(c, Build(c, pages, v, size, []).segs)
      {
        DirectLoad(c, pages, v, size);
      }
    } else if Proper(c, w) && Roomy(c, w) {
      var v := Pow2(w - 1);
      HighAddress(c.alignment, w);
      var pages := OverLimit(c, n, v, w);
      assert v + n <= Pow2(w);
    }
  }

  /** The middle of the address space begins a page and passes every alignment it is no less than. */
  lemma {:induction false} HighAddress(a: nat, w: nat)
    requires w >= 13 && 0 < a <= Pow2(w - 1)
    ensures 0 < PAGESIZE <= Pow2(w - 1) && Pow2(w) == 2 * Pow2(w - 1)
    ensures Pow2(w - 1) % PAGESIZE == 0 && And(Pow2(w - 1), a - 1) == 0
  {
    AndAbove(w - 1, a - 1);
    assert Pow2(12) == PAGESIZE;
    Pow2Product(w - 13, 12);
    Pow2Divides(12, w - 1);
  }

  lemma {:induction false} Pow2Product(k: nat, j: nat)
    ensures Pow2(k + j) == Pow2(k) * Pow2(j)
  {
    if j == 0 {
      assert Pow2(k) * 1 == Pow2(k);
    } else {
      Pow2Product(k, j - 1);
      assert Pow2(k) * (2 * Pow2(j - 1)) == 2 * (Pow2(k) * Pow2(j - 1));
    }
  }

  /** A power of two shares no bit with a smaller number. */
  lemma {:induction false} AndAbove(j: nat, x: nat)
    requires x < Pow2(j)
    ensures And(Pow2(j), x) == 0
  {
    if x > 0 { AndAbove(j - 1, x / 2); }
  }

  /** The smaller of two powers of two divides the larger. */
  lemma {:induction false} Pow2Divides(k: nat, j: nat)
    requires k <= j
    ensures Pow2(j) % Pow2(k) == 0
  {
    Pow2Product(j - k, k);
    DivModUnique(Pow2(j), Pow2(k), Pow2(j - k), 0);
  }

  /** A multiple of two powers of two that is one of them. */
  lemma {:induction false} CommonMultiple(k: nat, j: nat) returns (x: nat)
    ensures (x == Pow2(k) || x == Pow2(j)) && x % Pow2(k) == 0 && x % Pow2(j) == 0
  {
    if k <= j {
      x := Pow2(j);
      Pow2Divides(k, j);
      Pow2Divides(j, j);
    } else {
      x := Pow2(k);
      Pow2Divides(j, k);
      Pow2Divides(k, k);
    }
  }

  /** A page after address zero at which a boundary window begins. */
  lemma {:induction false} WindowStart(c: Constraints, w: nat) returns (phy: nat)
    requires Proper(c, w) && Roomy(c, w)
    ensures 0 < phy <= c.boundary + PAGESIZE && phy % PAGESIZE == 0 && (c.boundary > 0 ==> phy % c.boundary == 0)
  {
    assert Pow2(12) == PAGESIZE;
    if c.boundary > 0 {
      var k: nat :| k < w && c.boundary == Pow2(k);
      phy := CommonMultiple(k, 12);
    } else {
      phy := PAGESIZE;
    }
  }

  /** One page, mapped where a boundary window begins, gives a segment that is too long. */
  lemma {:induction false} OverLimit(c: Constraints, n: nat, v: nat, w: nat) returns (pages: map<nat, nat>)
    requires Proper(c, w) && Roomy(c, w) && v % PAGESIZE == 0 && And(v, c.alignment - 1) == 0
    requires c.maxsegsz < n <= Min(Limit(c), c.maxsize)
    ensures Fits(c, pages, w)
    ensures Build(c, pages, v, n, []).Direct? && !ShortSegments(c, Build(c, pages, v, n, []).segs)
  {
    var phy := WindowStart(c, w);
    pages := map[v / PAGESIZE := phy];
    assert Translate(pages, v) == Some(phy) && ChunkSize(c, v, phy, n) == n;
    assert Build(c, pages, v + n, 0, [Segment(phy, n)]) == Direct([Segment(phy, n)]);
    assert Build(c, pages, v, n, []) == Direct([Segment(phy, n)]);
    assert !ShortSegments(c, [Segment(phy, n)]) by { assert [Segment(phy, n)][0].len > c.maxsegsz; }
  }

  /** For a power of two, an address passes the alignment check exactly when it is a multiple. */
  lemma {:induction false} AlignedExact(c: Constraints, v: nat, k: nat)
    requires c.alignment == Pow2(k)
    ensures !Misaligned(c, v) <==> v % c.alignment == 0
  {
    LowMask(v, k);
  }

  datatype DmaError = SizeTooLarge | BadAlignment | InvalidAddress | OutOfMemory

  /** A map as a value. `owned` is the physical address of the bounce buffer it holds, if any. */
  datatype MapState = MapState(segments: seq<Segment>, owned: Option<nat>, origVaddr: Option<nat>, mapsize: nat)

  /**
   A load: refused, direct, or through a bounce buffer, which `pool` says whether and where can be
   allocated. A failure half way leaves the segments found so far.
   */
  function Loaded(c: Constraints, pages: map<nat, nat>, pool: Option<nat>, m: MapState, v: nat, size: nat)
    : (r: (MapState, Option<DmaError>))
    requires c.alignment > 0
  {
    if size > c.maxsize then (m, Some(SizeTooLarge))
    else if Misaligned(c, v) then (m, Some(BadAlignment))
    else
      match Build(c, pages, v, size, [])
      case Direct(segs) => (MapState(segs, m.owned, Some(v), size), None)
      case Unmapped(segs) => (m.(segments := segs), Some(InvalidAddress))
      case Bounced(segs) =>
        if pool == None then (m.(segments := segs), Some(OutOfMemory))
        else (MapState([Segment(pool.value, size)], pool, Some(v), size), None)
  }

  /** What is done with a map over its life. */
  datatype Op = LoadOp(pages: map<nat, nat>, pool: Option<nat>, v: nat, size: nat) | UnloadOp

  function Apply(c: Constraints, m: MapState, op: Op): (r: MapState)
    requires c.alignment > 0
  {
    match op
    case LoadOp(pages, pool, v, size) => Loaded(c, pages, pool, m, v, size).0
    case UnloadOp => MapState([], None, None, 0)
  }

  /** A new map after `ops`. */
  function ApplyAll(c: Constraints, ops: seq<Op>): (r: MapState)
    requires c.alignment > 0
  {
    if ops == [] then MapState([], None, None, 0)
    else Apply(c, ApplyAll(c, ops[..|ops| - 1]), ops[|ops| - 1])
  }

  /** The load is acceptable and succeeds, through a bounce buffer or directly as `bounced` says. */
  predicate Goes(c: Constraints, op: Op, bounced: bool)
    requires c.alignment > 0
  {
    && op.LoadOp? && op.size <= c.maxsize && !Misaligned(c, op.v)
    && var built := Build(c, op.pages, op.v, op.size, []);
      if bounced then built.Bounced? && op.pool.Some? else built.Direct?
  }

  /** Load `i` went through a bounce buffer, and the map was not unloaded since. */
  ghost predicate HeldSince(c: Constraints, ops: seq<Op>, i: nat)
    requires c.alignment > 0
  {
    i < |ops| && Goes(c, ops[i], true) && forall j :: i < j < |ops| ==> !ops[j].UnloadOp?
  }

  /**
   A map counts as bounced exactly when some load since the last unload went through a bounce
   buffer, whatever loads came after it.
   */
  lemma {:induction false} BouncedExact(c: Constraints, ops: seq<Op>)
    requires c.alignment > 0
    ensures ApplyAll(c, ops).owned.Some? <==> exists i: nat :: HeldSince(c, ops, i)
    decreases |ops|
  {
    if ops != [] {
      var n := |ops| - 1;
      var front, last := ops[..n], ops[n];
      BouncedExact(c, front);
      forall i: nat | i < n ensures HeldSince(c, ops, i) <==> HeldSince(c, front, i) && !last.UnloadOp? {
        assert HeldSince(c, ops, i) ==> !ops[n].UnloadOp?;
      }
      assert HeldSince(c, ops, n) <==> Goes(c, last, true);
    }
  }

  /**
   A direct load gives the device the buffer itself, and yet the map counts as bounced exactly when an
   earlier load left its bounce buffer behind.
   */
  lemma {:induction false} DirectAfterBounce(c: Constraints, ops: seq<Op>, op: Op)
    requires c.alignment > 0 && Goes(c, op, false)
    ensures
      var m := ApplyAll(c, ops + [op]);
      && Mapped(op.pages, op.v, op.size) && Expand(m.segments) == Image(op.pages, op.v, op.size)
      && (m.owned.Some? <==> exists i: nat :: HeldSince(c, ops, i))
  {
    assert (ops + [op])[..|ops|] == ops;
    DirectLoad(c, op.pages, op.v, op.size);
    BouncedExact(c, ops);
  }

  /** The room up to the next boundary, computed with the mask. */
  lemma {:induction false} MaskedRoom(c: Constraints, cur: nat, w: nat)
    requires Proper(c, w) && c.boundary > 0 && cur + c.boundary < Pow2(w)
    ensures And(cur + c.boundary, Not(c.boundary - 1, w)) == cur + (c.boundary - cur % c.boundary)
  {
    var b := c.boundary;
    var k: nat :| k < w && b == Pow2(k);
    HighMask(cur + b, k, w);
    ModShift(cur, b);
  }

  /** Two addresses agree under the mask exactly when they lie in the same window. */
  lemma {:induction false} MaskedWindow(c: Constraints, a: nat, b: nat, w: nat)
    requires Proper(c, w) && c.boundary > 0 && a < Pow2(w) && b < Pow2(w)
    ensures And(a, Not(c.boundary - 1, w)) == And(b, Not(c.boundary - 1, w)) <==> SameWindow(c, a, b)
  {
    var n := c.boundary;
    var k: nat :| k < w && n == Pow2(k);
    HighMask(a, k, w);
    HighMask(b, k, w);
    SameMultiple(a, b, n);
  }

  /** A map. Its addresses are `bits` wide, 64 in the source. */
  class DmaMap {
    const bits: nat
    const tag: Constraints
    var segments: seq<Segment>
    var owned: Option<nat>
    var origVaddr: Option<nat>
    var mapsize: nat

    function View(): (m: MapState)
      reads this
    {
      MapState(segments, owned, origVaddr, mapsize)
    }

    constructor (bits: nat, tag: Constraints)
      ensures this.bits == bits && this.tag == tag && View() == MapState([], None, None, 0)
    {
      this.bits, this.tag := bits, tag;
      segments, owned, origVaddr, mapsize := [], None, None, 0;
    }

    /** The size of the next chunk, by masking as the source does. */
    method NextChunk(v: nat, cur: nat, left: nat) returns (size: nat)
      requires Proper(tag, bits) && left > 0 && cur + tag.boundary < Pow2(bits)
      ensures size == ChunkSize(tag, v, cur, left)
    {
      assert PAGESIZE == Pow2(12);
      LowMask(v, 12);
      size := PAGESIZE - And(v, PAGESIZE - 1);
      if left < size {
        size := left;
      }
      if tag.boundary > 0 {
        MaskedRoom(tag, cur, bits);
        var room := And(cur + tag.boundary, Not(tag.boundary - 1, bits)) - cur;
        if size > room {
          size := room;
        }
      }
    }

    method Load(pages: map<nat, nat>, pool: Option<nat>, v: nat, size: nat) returns (error: Option<DmaError>)
      requires Proper(tag, bits) && Fits(tag, pages, bits)
      modifies this
      ensures (View(), error) == Loaded(tag, pages, pool, old(View()), v, size)
      ensures error == Some(SizeTooLarge) <==> size > tag.maxsize
      ensures error == Some(BadAlignment) <==> size <= tag.maxsize && Misaligned(tag, v)
      ensures size > tag.maxsize || Misaligned(tag, v) ==> View() == old(View())
      ensures error.Some? ==> owned == old(owned) && origVaddr == old(origVaddr) && mapsize == old(mapsize)
      ensures error == None ==> origVaddr == Some(v) && mapsize == size
      ensures size <= tag.maxsize && !Misaligned(tag, v) ==>
        var built := Build(tag, pages, v, size, []);
        && (error == Some(InvalidAddress) <==> built.Unmapped?)
        && (error == Some(OutOfMemory) <==> built.Bounced? && pool == None)
        && (built.Bounced? && pool.Some? ==> owned == pool && segments == [Segment(pool.value, size)])
        && (!(built.Bounced? && pool.Some?) ==> owned == old(owned) && segments == built.segs)
    {
      if size > tag.maxsize {
        return Some(SizeTooLarge);
      }
      if And(v, tag.alignment - 1) != 0 {
        return Some(BadAlignment);
      }
      segments := [];
      var built := ScanBuffer(pages, v, size);
      segments := built.segs;
      match built {
        case Unmapped(_) =>
          return Some(InvalidAddress);
        case Bounced(_) =>
          if pool == None {
            return Some(OutOfMemory);
          }
          segments, owned := [Segment(pool.value, size)], pool;
        case Direct(_) =>
      }
      origVaddr, mapsize := Some(v), size;
      return None;
    }

    /** Adds a chunk, comparing boundary windows by masking as the source does. */
    method Append(segs: seq<Segment>, lastaddr: nat, cur: nat, chunk: nat) returns (next: Option<seq<Segment>>)
      requires Proper(tag, bits) && cur < Pow2(bits)
      requires segs != [] ==> segs[|segs| - 1].addr < Pow2(bits)
      requires segs != [] ==> lastaddr == segs[|segs| - 1].addr + segs[|segs| - 1].len
      ensures next == AddChunk(tag, segs, cur, chunk)
    {
      if segs == [] {
        return Some([Segment(cur, chunk)]);
      }
      var last := segs[|segs| - 1];
      var same := tag.boundary == 0;
      if !same {
        MaskedWindow(tag, last.addr, cur, bits);
        same := And(last.addr, Not(tag.boundary - 1, bits)) == And(cur, Not(tag.boundary - 1, bits));
      }
      if cur == lastaddr && last.len + chunk <= tag.maxsegsz && same {
        return Some(segs[|segs| - 1 := last.(len := last.len + chunk)]);
      }
      if |segs| >= tag.nsegments {
        return None;
      }
      return Some(segs + [Segment(cur, chunk)]);
    }

    /** The loop over the chunks of the buffer. */
    method ScanBuffer(pages: map<nat, nat>, v: nat, size: nat) returns (built: Built)
      requires Proper(tag, bits) && Fits(tag, pages, bits)
      ensures built == Build(tag, pages, v, size, [])
    {
      var segs: seq<Segment>, current: nat, left: nat, lastaddr: nat := [], v, size, 0;
      while left > 0
        invariant Build(tag, pages, current, left, segs) == Build(tag, pages, v, size, [])
        invariant segs != [] ==> lastaddr == segs[|segs| - 1].addr + segs[|segs| - 1].len
        invariant forall i :: 0 <= i < |segs| ==> segs[i].addr < Pow2(bits)
        decreases left
      {
        if current / PAGESIZE !in pages {
          return Unmapped(segs);
        }
        var cur := pages[current / PAGESIZE] + current % PAGESIZE;
        var chunk := NextChunk(current, cur, left);
        var next := Append(segs, lastaddr, cur, chunk);
        if next == None {
          return Bounced(segs);
        }
        segs := next.value;
        lastaddr, current, left := cur + chunk, current + chunk, left - chunk;
      }
      return Direct(segs);
    }

    method Unload()
      modifies this
      ensures View() == MapState([], None, None, 0)
    {
      segments, owned, origVaddr, mapsize := [], None, None, 0;
    }
  }
}
