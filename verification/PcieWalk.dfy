/**
 The walk over the PCIe buses that finds every function of every device. The hardware is an
 abstract table of the functions that answer. A bus can be reached by its number, through a
 bridge from a lower bus, or it can be found first and hung below its bridge later.
 */
module PcieWalk {
  import opened Common

  const BUSES: nat := 256
  const MAX_DEVICES: nat := 32
  const FUNCTIONS: nat := 8

  /** Bus, device and function number. */
  datatype Bdf = Bdf(bus: nat, device: nat, fn: nat)

  datatype Answer = Endpoint | HostBridge | Bridge(secondary: nat)

  type Hardware = map<Bdf, Answer>

  ghost predicate Sane(hw: Hardware) {
    forall x :: x in hw && hw[x].Bridge? ==> hw[x].secondary < BUSES
  }

  /** A function found on a bus, or a bus below it. */
  datatype Child = Unattached(bdf: Bdf) | SubBus(number: nat, devices: seq<Child>)

  /** The buses found so far that hang below no other, by number. */
  type Tree = map<nat, seq<Child>>

  /** How often function `x` occurs among the children of a bus and below them. */
  function Count(devices: seq<Child>, x: Bdf): (r: nat)
    decreases devices
  {
    if devices == [] then 0
    else
      (match devices[0]
       case Unattached(bdf) => if bdf == x then 1 else 0
       case SubBus(_, below) => Count(below, x))
      + Count(devices[1..], x)
  }

  /** The functions that hang directly below a bus, in order. */
  function Leaves(devices: seq<Child>): (r: seq<Bdf>) {
    if devices == [] then []
    else
      var last := devices[|devices| - 1];
      Leaves(devices[..|devices| - 1]) + if last.Unattached? then [last.bdf] else []
  }

  /** The functions of a device below `k` that belong in the tree, in order. */
  function InDevice(hw: Hardware, n: nat, d: nat, k: nat): (r: seq<Bdf>) {
    if k == 0 then [] else InDevice(hw, n, d, k - 1) + if Present(hw, Bdf(n, d, k - 1)) then [Bdf(n, d, k - 1)] else []
  }

  /** The functions of the devices below `k` of a bus that belong in the tree, in order. */
  function OnBus(hw: Hardware, n: nat, k: nat): (r: seq<Bdf>) {
    if k == 0 then [] else OnBus(hw, n, k - 1) + InDevice(hw, n, k - 1, FUNCTIONS)
  }

  /** A bridge on bus `n` leads to another bus `m`. */
  ghost predicate Leads(hw: Hardware, maxDevice: nat, n: nat, m: nat) {
    m != n && exists x :: x in hw && Scannable(maxDevice, x) && x.bus == n && hw[x] == Bridge(m)
  }

  /**
   Every function below bus `n` hangs directly below the bus that it is on, and every bus below a bridge to
   it, with all its functions in order; a bus found before its bridge hangs there inside itself.
   */
  ghost predicate Placed(hw: Hardware, maxDevice: nat, n: nat, devices: seq<Child>)
    decreases devices
  {
    forall i :: 0 <= i < |devices| ==>
      match devices[i]
      case Unattached(bdf) => bdf.bus == n
      case SubBus(m, below) =>
        && Leads(hw, maxDevice, n, m)
        && if Wraps(m, below) then
             Leaves(below[0].devices) == OnBus(hw, m, maxDevice) && Placed(hw, maxDevice, m, below[0].devices)
           else Leaves(below) == OnBus(hw, m, maxDevice) && Placed(hw, maxDevice, m, below)
  }

  lemma {:induction false} NeverInItself(hw: Hardware, maxDevice: nat, n: nat, devices: seq<Child>)
    requires Placed(hw, maxDevice, n, devices)
    ensures !Wraps(n, devices)
  {
  }

  ghost predicate TreePlaced(hw: Hardware, maxDevice: nat, tree: Tree) {
    forall b :: b in tree ==> Placed(hw, maxDevice, b, tree[b]) && Leaves(tree[b]) == OnBus(hw, b, maxDevice)
  }

  /** How often function `x` occurs below the buses numbered less than `k`. */
  function CountTree(tree: Tree, x: Bdf, k: nat): (r: nat) {
    if k == 0 then 0
    else CountTree(tree, x, k - 1) + if k - 1 in tree then Count(tree[k - 1], x) else 0
  }

  lemma {:induction false} CountPush(devices: seq<Child>, c: Child, x: Bdf)
    ensures Count(devices + [c], x) == Count(devices, x) + Count([c], x)
  {
    if devices == [] {
      assert devices + [c] == [c];
    } else {
      CountPush(devices[1..], c, x);
      assert (devices + [c])[1..] == devices[1..] + [c];
    }
  }

  /** Taking a bus out of the tree takes out what is below it, and putting one in puts that in. */
  lemma {:induction false} TreeRemove(tree: Tree, b: nat, x: Bdf, k: nat)
    requires b in tree
    ensures CountTree(tree, x, k) == CountTree(tree - {b}, x, k) + if b < k then Count(tree[b], x) else 0
  {
    if k > 0 {
      TreeRemove(tree, b, x, k - 1);
    }
  }

  lemma {:induction false} TreeInsert(tree: Tree, b: nat, devices: seq<Child>, x: Bdf, k: nat)
    requires b !in tree
    ensures CountTree(tree[b := devices], x, k) == CountTree(tree, x, k) + if b < k then Count(devices, x) else 0
  {
    TreeRemove(tree[b := devices], b, x, k);
    assert tree[b := devices] - {b} == tree;
  }

  /** The outer of the two buses that stand for a bus found before its bridge. */
  predicate Wraps(m: nat, below: seq<Child>) {
    |below| == 1 && below[0].SubBus? && below[0].number == m
  }

  /** How often bus `b` occurs below a bus, where a bus and the same bus around it count once. */
  function Buses(devices: seq<Child>, b: nat): (r: nat)
    decreases devices
  {
    if devices == [] then 0
    else
      (match devices[0]
       case Unattached(_) => 0
       case SubBus(m, below) => (if m == b && !Wraps(m, below) then 1 else 0) + Buses(below, b))
      + Buses(devices[1..], b)
  }

  /** How often bus `b` occurs among the buses numbered less than `k` and below them. */
  function TreeBuses(tree: Tree, b: nat, k: nat): (r: nat) {
    if k == 0 then 0
    else TreeBuses(tree, b, k - 1) + if k - 1 in tree then (if k - 1 == b then 1 else 0) + Buses(tree[k - 1], b) else 0
  }

  lemma {:induction false} BusesPush(devices: seq<Child>, c: Child, b: nat)
    ensures Buses(devices + [c], b) == Buses(devices, b) + Buses([c], b)
  {
    if devices == [] {
      assert devices + [c] == [c];
    } else {
      BusesPush(devices[1..], c, b);
      assert (devices + [c])[1..] == devices[1..] + [c];
    }
  }

  lemma {:induction false} TreeBusesRemove(tree: Tree, m: nat, b: nat, k: nat)
    requires m in tree
    ensures TreeBuses(tree, b, k) ==
      TreeBuses(tree - {m}, b, k) + if m < k then (if m == b then 1 else 0) + Buses(tree[m], b) else 0
  {
    if k > 0 {
      TreeBusesRemove(tree, m, b, k - 1);
    }
  }

  lemma {:induction false} TreeBusesInsert(tree: Tree, m: nat, devices: seq<Child>, b: nat, k: nat)
    requires m !in tree
    ensures TreeBuses(tree[m := devices], b, k) ==
      TreeBuses(tree, b, k) + if m < k then (if m == b then 1 else 0) + Buses(devices, b) else 0
  {
    TreeBusesRemove(tree[m := devices], m, b, k);
    assert tree[m := devices] - {m} == tree;
  }

  /** `x` answers and is no bridge to another bus, so it belongs in the tree. */
  predicate Present(hw: Hardware, x: Bdf) {
    x in hw && !hw[x].Bridge?
  }

  /** `x` lies in the range of devices and functions that a scan of its bus looks at. */
  predicate Scannable(maxDevice: nat, x: Bdf) {
    x.device < maxDevice && x.fn < FUNCTIONS
  }

  /**
   The buses of the tree, the buses visited, those scanned so far in order, and for each bus that was
   scanned by its number how many had been scanned when that scan ended.
   */
  datatype Walk = Walk(tree: Tree, visited: set<nat>, scanned: seq<nat>, ended: map<nat, nat>)

  /** No bus is scanned twice, none unless visited, and the tree holds scanned buses only. */
  ghost predicate Ok(w: Walk) {
    && (forall b :: b in w.visited ==> b < BUSES)
    && (forall b :: b in w.tree ==> b in w.scanned)
    && (forall b :: b in w.scanned ==> b in w.visited)
    && NoDup(w.scanned)
  }

  /** The scan of every visited bus has begun. */
  ghost predicate Covered(w: Walk) {
    forall b :: b in w.visited ==> b in w.scanned
  }

  /** The occurrences of `x` in the tree and among the children of the bus at hand. */
  function Total(devices: seq<Child>, w: Walk, x: Bdf): (r: nat) {
    Count(devices, x) + CountTree(w.tree, x, BUSES)
  }

  /** Between two moments of the walk, `x` was looked at: itself, or with its whole bus. */
  ghost predicate Seen(maxDevice: nat, w0: Walk, w: Walk, own: set<Bdf>, x: Bdf) {
    x in own || (x.bus in w.visited - w0.visited && Scannable(maxDevice, x))
  }

  /** What was seen, if it belongs in the tree, has been added once, and nothing was lost. */
  ghost predicate Adds(
      hw: Hardware, maxDevice: nat, devices0: seq<Child>, w0: Walk, devices: seq<Child>, w: Walk, own: set<Bdf>)
  {
    forall x ::
      Total(devices, w, x) ==
      Total(devices0, w0, x) + if Present(hw, x) && Seen(maxDevice, w0, w, own, x) then 1 else 0
  }

  /** The occurrences of bus `b` in the tree and below the bus at hand. */
  function BusTotal(devices: seq<Child>, w: Walk, b: nat): (r: nat) {
    Buses(devices, b) + TreeBuses(w.tree, b, BUSES)
  }

  /** Every bus visited in between has been added once, and none was lost. */
  ghost predicate AddsBuses(devices0: seq<Child>, w0: Walk, devices: seq<Child>, w: Walk) {
    forall b :: BusTotal(devices, w, b) == BusTotal(devices0, w0, b) + if b in w.visited - w0.visited then 1 else 0
  }

  /** The bridge `x`, if it leads to a higher bus, leads to a visited one. */
  ghost predicate Followed(hw: Hardware, w: Walk, x: Bdf) {
    x in hw && hw[x].Bridge? && hw[x].secondary > x.bus ==> hw[x].secondary in w.visited
  }

  ghost predicate Follows(hw: Hardware, maxDevice: nat, w0: Walk, w: Walk, own: set<Bdf>) {
    forall x :: Seen(maxDevice, w0, w, own, x) ==> Followed(hw, w, x)
  }

  /** Bus `b` is the secondary of a bridge on a lower bus in `from`. */
  ghost predicate Bridged(hw: Hardware, maxDevice: nat, from: set<nat>, b: nat) {
    exists x :: x in hw && Scannable(maxDevice, x) && x.bus in from && x.bus < b && hw[x] == Bridge(b)
  }

  /** `x` is a bridge back to the lower bus `b`. */
  ghost predicate Back(hw: Hardware, x: Bdf, b: nat) {
    x in hw && hw[x] == Bridge(b) && b < x.bus
  }

  ghost predicate SeenBack(hw: Hardware, maxDevice: nat, w0: Walk, w: Walk, own: set<Bdf>, b: nat) {
    exists x :: Seen(maxDevice, w0, w, own, x) && Back(hw, x, b)
  }

  /** A bus of the tree has left it exactly if a bridge back to it was seen. */
  ghost predicate Rehung(hw: Hardware, maxDevice: nat, w0: Walk, w: Walk, own: set<Bdf>) {
    forall b :: b in w0.tree ==> (b in w.tree <==> !SeenBack(hw, maxDevice, w0, w, own, b))
  }

  /** A part of the walk on bus `n` that looked at `own` on it. */
  ghost predicate Did(
      hw: Hardware, maxDevice: nat, n: nat, devices0: seq<Child>, w0: Walk, devices: seq<Child>, w: Walk, own: set<Bdf>)
  {
    && Ok(w) && Covered(w) && w0.visited <= w.visited && w.tree.Keys <= w0.tree.Keys
    && w0.scanned <= w.scanned && w.ended == w0.ended
    && (Placed(hw, maxDevice, n, devices0) && TreePlaced(hw, maxDevice, w0.tree) ==>
          && Placed(hw, maxDevice, n, devices) && TreePlaced(hw, maxDevice, w.tree)
          && AddsBuses(devices0, w0, devices, w))
    && Rehung(hw, maxDevice, w0, w, own)
    && Adds(hw, maxDevice, devices0, w0, devices, w, own)
    && Follows(hw, maxDevice, w0, w, own)
    && (forall b :: b in w.visited - w0.visited ==> Bridged(hw, maxDevice, {n} + (w.visited - w0.visited), b))
  }

  /** A walk may stand between two functions of bus `n`. */
  ghost predicate At(hw: Hardware, n: nat, w: Walk) {
    Sane(hw) && Ok(w) && Covered(w) && n in w.visited && n !in w.tree
  }

  /** What two parts of the walk on bus `n` have seen together. */
  lemma {:induction false} SeenThen(
      maxDevice: nat, n: nat, w0: Walk, w1: Walk, w: Walk, own0: set<Bdf>, own1: set<Bdf>, x: Bdf)
    requires w0.visited <= w1.visited <= w.visited
    ensures Seen(maxDevice, w0, w, own0 + own1, x) <==>
      Seen(maxDevice, w0, w1, own0, x) || Seen(maxDevice, w1, w, own1, x)
    ensures n in w0.visited && own0 !! own1 && (x in own0 + own1 ==> x.bus == n) ==>
      !(Seen(maxDevice, w0, w1, own0, x) && Seen(maxDevice, w1, w, own1, x))
  {
  }

  lemma {:induction false} RehungThen(
      hw: Hardware, maxDevice: nat, n: nat, w0: Walk, w1: Walk, w: Walk, own0: set<Bdf>, own1: set<Bdf>)
    requires w0.visited <= w1.visited <= w.visited && w.tree.Keys <= w1.tree.Keys <= w0.tree.Keys
    requires Rehung(hw, maxDevice, w0, w1, own0) && Rehung(hw, maxDevice, w1, w, own1)
    ensures Rehung(hw, maxDevice, w0, w, own0 + own1)
  {
    forall b | b in w0.tree ensures b in w.tree <==> !SeenBack(hw, maxDevice, w0, w, own0 + own1, b) {
      forall x ensures Seen(maxDevice, w0, w, own0 + own1, x) <==>
        Seen(maxDevice, w0, w1, own0, x) || Seen(maxDevice, w1, w, own1, x)
      {
        SeenThen(maxDevice, n, w0, w1, w, own0, own1, x);
      }
      assert SeenBack(hw, maxDevice, w0, w, own0 + own1, b) <==>
        SeenBack(hw, maxDevice, w0, w1, own0, b) || SeenBack(hw, maxDevice, w1, w, own1, b);
    }
  }

  lemma {:induction false} AddsThen(
      hw: Hardware, maxDevice: nat, n: nat, devices0: seq<Child>, w0: Walk, devices1: seq<Child>, w1: Walk,
      devices: seq<Child>, w: Walk, own0: set<Bdf>, own1: set<Bdf>)
    requires n in w0.visited && own0 !! own1 && (forall x :: x in own0 + own1 ==> x.bus == n)
    requires w0.visited <= w1.visited <= w.visited
    requires Adds(hw, maxDevice, devices0, w0, devices1, w1, own0)
    requires Adds(hw, maxDevice, devices1, w1, devices, w, own1)
    ensures Adds(hw, maxDevice, devices0, w0, devices, w, own0 + own1)
  {
    forall x ensures
      Total(devices, w, x) ==
      Total(devices0, w0, x) + if Present(hw, x) && Seen(maxDevice, w0, w, own0 + own1, x) then 1 else 0
    {
      SeenThen(maxDevice, n, w0, w1, w, own0, own1, x);
      assert Total(devices, w, x) ==
        Total(devices1, w1, x) + if Present(hw, x) && Seen(maxDevice, w1, w, own1, x) then 1 else 0;
      assert Total(devices1, w1, x) ==
        Total(devices0, w0, x) + if Present(hw, x) && Seen(maxDevice, w0, w1, own0, x) then 1 else 0;
    }
  }

  lemma {:induction false} AddsBusesThen(
      devices0: seq<Child>, w0: Walk, devices1: seq<Child>, w1: Walk, devices: seq<Child>, w: Walk)
    requires w0.visited <= w1.visited <= w.visited
    requires AddsBuses(devices0, w0, devices1, w1) && AddsBuses(devices1, w1, devices, w)
    ensures AddsBuses(devices0, w0, devices, w)
  {
    forall b ensures BusTotal(devices, w, b) ==
      BusTotal(devices0, w0, b) + if b in w.visited - w0.visited then 1 else 0
    {
      assert BusTotal(devices, w, b) == BusTotal(devices1, w1, b) + if b in w.visited - w1.visited then 1 else 0;
      assert BusTotal(devices1, w1, b) == BusTotal(devices0, w0, b) + if b in w1.visited - w0.visited then 1 else 0;
    }
  }

  /** Two parts of the walk on a bus, one after the other. */
  lemma {:induction false} DidThen(
      hw: Hardware, maxDevice: nat, n: nat, devices0: seq<Child>, w0: Walk, devices1: seq<Child>, w1: Walk,
      devices: seq<Child>, w: Walk, own0: set<Bdf>, own1: set<Bdf>)
    requires n in w0.visited && own0 !! own1 && (forall x :: x in own0 + own1 ==> x.bus == n)
    requires Did(hw, maxDevice, n, devices0, w0, devices1, w1, own0)
    requires Did(hw, maxDevice, n, devices1, w1, devices, w, own1)
    ensures Did(hw, maxDevice, n, devices0, w0, devices, w, own0 + own1)
  {
    AddsThen(hw, maxDevice, n, devices0, w0, devices1, w1, devices, w, own0, own1);
    RehungThen(hw, maxDevice, n, w0, w1, w, own0, own1);
    if Placed(hw, maxDevice, n, devices0) && TreePlaced(hw, maxDevice, w0.tree) {
      AddsBusesThen(devices0, w0, devices1, w1, devices, w);
    }
    forall x | Seen(maxDevice, w0, w, own0 + own1, x) ensures Followed(hw, w, x) {
      SeenThen(maxDevice, n, w0, w1, w, own0, own1, x);
    }
    forall b | b in w.visited - w0.visited ensures Bridged(hw, maxDevice, {n} + (w.visited - w0.visited), b) {
      if b in w1.visited {
        assert Bridged(hw, maxDevice, {n} + (w1.visited - w0.visited), b);
      } else {
        assert Bridged(hw, maxDevice, {n} + (w.visited - w1.visited), b);
      }
    }
  }

  function Unvisited(w: Walk): (r: set<nat>) {
    set b | b in Tags(0, BUSES) && b !in w.visited
  }

  lemma {:induction false} FewerLeft(w0: Walk, w: Walk)
    requires w0.visited <= w.visited
    ensures |Unvisited(w)| <= |Unvisited(w0)|
    ensures forall b :: b in w.visited - w0.visited && b < BUSES ==> |Unvisited(w)| < |Unvisited(w0)|
  {
    assert Unvisited(w0) == Unvisited(w) + (Unvisited(w0) - Unvisited(w));
    forall b | b in w.visited - w0.visited && b < BUSES ensures |Unvisited(w)| < |Unvisited(w0)| {
      assert Tags(0, BUSES)[b] == b && b in Unvisited(w0) - Unvisited(w);
    }
  }

  lemma {:induction false} NoMoreLeft(w0: Walk, w: Walk)
    requires w0.visited <= w.visited
    ensures |Unvisited(w)| <= |Unvisited(w0)|
  {
    FewerLeft(w0, w);
  }

  /** A function that does not answer, or a bridge that leads nowhere new, changes nothing. */
  lemma {:induction false} StayDid(hw: Hardware, maxDevice: nat, n: nat, devices: seq<Child>, w: Walk, here: Bdf)
    requires At(hw, n, w) && here.bus == n && !Present(hw, here) && Followed(hw, w, here)
    requires forall b :: b in w.tree ==> !Back(hw, here, b)
    ensures Did(hw, maxDevice, n, devices, w, devices, w, {here})
  {
  }

  lemma {:induction false} PlacedPush(hw: Hardware, maxDevice: nat, n: nat, devices: seq<Child>, c: Child)
    ensures Placed(hw, maxDevice, n, devices + [c])
      <==> Placed(hw, maxDevice, n, devices) && Placed(hw, maxDevice, n, [c])
  {
    var all := devices + [c];
    assert all[|devices|] == c == [c][0];
    assert forall i :: 0 <= i < |devices| ==> all[i] == devices[i];
  }

  lemma {:induction false} LeafDid(hw: Hardware, maxDevice: nat, n: nat, devices: seq<Child>, w: Walk, here: Bdf)
    requires At(hw, n, w) && here.bus == n && Present(hw, here)
    ensures Did(hw, maxDevice, n, devices, w, devices + [Unattached(here)], w, {here})
  {
    PlacedPush(hw, maxDevice, n, devices, Unattached(here));
    forall b ensures Buses(devices + [Unattached(here)], b) == Buses(devices, b) {
      BusesPush(devices, Unattached(here), b);
    }
    forall x ensures Count(devices + [Unattached(here)], x) == Count(devices, x) + if x == here then 1 else 0 {
      CountPush(devices, Unattached(here), x);
    }
  }

  /** Hanging a bus that was found before its bridge below that bridge loses nothing. */
  lemma {:induction false} ReparentDid(hw: Hardware, maxDevice: nat, n: nat, devices: seq<Child>, w: Walk, here: Bdf)
    requires At(hw, n, w) && here.bus == n && Scannable(maxDevice, here) && here in hw && hw[here].Bridge?
    requires hw[here].secondary < n && hw[here].secondary in w.tree
    ensures
      var s := hw[here].secondary;
      Did(hw, maxDevice, n, devices, w,
          devices + [SubBus(s, [SubBus(s, w.tree[s])])], w.(tree := w.tree - {s}), {here})
  {
    var s := hw[here].secondary;
    var t := w.(tree := w.tree - {s});
    ReparentAdds(hw, maxDevice, devices, w, here, s);
    ReparentRehung(hw, maxDevice, w, here, s);
    if Placed(hw, maxDevice, n, devices) && TreePlaced(hw, maxDevice, w.tree) {
      ReparentPlaced(hw, maxDevice, n, devices, w, here, s);
    }
  }

  lemma {:induction false} ReparentAdds(
      hw: Hardware, maxDevice: nat, devices: seq<Child>, w: Walk, here: Bdf, s: nat)
    requires s in w.tree && s < BUSES && !Present(hw, here)
    ensures Adds(hw, maxDevice, devices, w, devices + [SubBus(s, [SubBus(s, w.tree[s])])],
                 w.(tree := w.tree - {s}), {here})
  {
    var child := SubBus(s, [SubBus(s, w.tree[s])]);
    forall x ensures Total(devices + [child], w.(tree := w.tree - {s}), x) == Total(devices, w, x) {
      CountPush(devices, child, x);
      TreeRemove(w.tree, s, x, BUSES);
      assert Count([child], x) == Count([SubBus(s, w.tree[s])], x) == Count(w.tree[s], x);
    }
  }

  lemma {:induction false} ReparentRehung(hw: Hardware, maxDevice: nat, w: Walk, here: Bdf, s: nat)
    requires Scannable(maxDevice, here) && Back(hw, here, s)
    ensures Rehung(hw, maxDevice, w, w.(tree := w.tree - {s}), {here})
  {
    var t := w.(tree := w.tree - {s});
    assert Seen(maxDevice, w, t, {here}, here);
    forall b | b in w.tree ensures b in t.tree <==> !SeenBack(hw, maxDevice, w, t, {here}, b) {
    }
  }

  lemma {:induction false} ReparentPlaced(
      hw: Hardware, maxDevice: nat, n: nat, devices: seq<Child>, w: Walk, here: Bdf, s: nat)
    requires here.bus == n && Scannable(maxDevice, here) && here in hw && hw[here] == Bridge(s) && s < n
    requires s in w.tree && s < BUSES && Placed(hw, maxDevice, n, devices) && TreePlaced(hw, maxDevice, w.tree)
    ensures var after, t := devices + [SubBus(s, [SubBus(s, w.tree[s])])], w.(tree := w.tree - {s});
      Placed(hw, maxDevice, n, after) && TreePlaced(hw, maxDevice, t.tree) && AddsBuses(devices, w, after, t)
  {
    var child, t := SubBus(s, [SubBus(s, w.tree[s])]), w.(tree := w.tree - {s});
    PlacedPush(hw, maxDevice, n, devices, child);
    RehungPlaced(hw, maxDevice, n, here, s, w.tree[s]);
    NeverInItself(hw, maxDevice, s, w.tree[s]);
    forall b ensures BusTotal(devices + [child], t, b) == BusTotal(devices, w, b) {
      RehungBuses(devices, w.tree, s, b);
    }
  }

  lemma {:induction false} RehungBuses(devices: seq<Child>, tree: Tree, s: nat, b: nat)
    requires s in tree && s < BUSES && !Wraps(s, tree[s])
    ensures var child := SubBus(s, [SubBus(s, tree[s])]);
      Buses(devices + [child], b) + TreeBuses(tree - {s}, b, BUSES) == Buses(devices, b) + TreeBuses(tree, b, BUSES)
  {
    var inner := [SubBus(s, tree[s])];
    BusesPush(devices, SubBus(s, inner), b);
    TreeBusesRemove(tree, s, b, BUSES);
    assert Buses(inner, b) == (if s == b then 1 else 0) + Buses(tree[s], b) + Buses(inner[1..], b);
    assert Buses([SubBus(s, inner)], b) == Buses(inner, b) + Buses([SubBus(s, inner)][1..], b);
  }

  lemma {:induction false} RehungPlaced(
      hw: Hardware, maxDevice: nat, n: nat, here: Bdf, s: nat, devices: seq<Child>)
    requires here.bus == n && Scannable(maxDevice, here) && here in hw && hw[here] == Bridge(s) && s != n
    requires Placed(hw, maxDevice, s, devices) && Leaves(devices) == OnBus(hw, s, maxDevice)
    ensures Placed(hw, maxDevice, n, [SubBus(s, [SubBus(s, devices)])])
  {
    assert Leads(hw, maxDevice, n, s) && Wraps(s, [SubBus(s, devices)]);
  }

  /** What the scan of bus `s` behind the bridge `here` has seen, and the bridge itself. */
  lemma {:induction false} SeenBehind(maxDevice: nat, w0: Walk, w: Walk, here: Bdf, s: nat, x: Bdf)
    requires s !in w0.visited && s in w.visited && here.bus in w0.visited
    ensures Seen(maxDevice, w0, w, {here}, x) <==>
      x == here || Seen(maxDevice, w0.(visited := w0.visited + {s}), w, OwnBus(s, maxDevice), x)
    ensures x == here ==> !Seen(maxDevice, w0.(visited := w0.visited + {s}), w, OwnBus(s, maxDevice), x)
  {
    OwnBusIs(s, maxDevice, x);
  }

  lemma {:induction false} DescendAdds(
      hw: Hardware, maxDevice: nat, devices: seq<Child>, w0: Walk, here: Bdf, s: nat, below: seq<Child>, w: Walk)
    requires s !in w0.visited && s in w.visited && here.bus in w0.visited && !Present(hw, here)
    requires Adds(hw, maxDevice, [], w0.(visited := w0.visited + {s}), below, w, OwnBus(s, maxDevice))
    ensures Adds(hw, maxDevice, devices, w0, devices + [SubBus(s, below)], w, {here})
  {
    var w1, own, all := w0.(visited := w0.visited + {s}), OwnBus(s, maxDevice), devices + [SubBus(s, below)];
    forall x ensures
      Total(all, w, x) == Total(devices, w0, x) + if Present(hw, x) && Seen(maxDevice, w0, w, {here}, x) then 1 else 0
    {
      SeenBehind(maxDevice, w0, w, here, s, x);
      CountPush(devices, SubBus(s, below), x);
      assert Count([SubBus(s, below)], x) == Count(below, x);
      assert Total(below, w, x) == Total([], w1, x) + if Present(hw, x) && Seen(maxDevice, w1, w, own, x) then 1 else 0;
    }
  }

  lemma {:induction false} DescendBuses(devices: seq<Child>, w0: Walk, s: nat, below: seq<Child>, w: Walk)
    requires s !in w0.visited && s in w.visited && !Wraps(s, below)
    requires AddsBuses([], w0.(visited := w0.visited + {s}), below, w)
    ensures AddsBuses(devices, w0, devices + [SubBus(s, below)], w)
  {
    var w1, child := w0.(visited := w0.visited + {s}), SubBus(s, below);
    forall b ensures BusTotal(devices + [child], w, b) ==
      BusTotal(devices, w0, b) + if b in w.visited - w0.visited then 1 else 0
    {
      BusesPush(devices, child, b);
      assert Buses([child], b) == (if s == b then 1 else 0) + Buses(below, b) + Buses([child][1..], b);
      assert BusTotal(below, w, b) == BusTotal([], w1, b) + if b in w.visited - w1.visited then 1 else 0;
    }
  }

  lemma {:induction false} DescendRehung(
      hw: Hardware, maxDevice: nat, w0: Walk, here: Bdf, s: nat, w: Walk)
    requires s !in w0.visited && s in w.visited && here.bus in w0.visited
    requires here in hw && hw[here] == Bridge(s) && here.bus < s
    requires Rehung(hw, maxDevice, w0.(visited := w0.visited + {s}), w, OwnBus(s, maxDevice))
    ensures Rehung(hw, maxDevice, w0, w, {here})
  {
    var w1, own := w0.(visited := w0.visited + {s}), OwnBus(s, maxDevice);
    forall b | b in w0.tree ensures b in w.tree <==> !SeenBack(hw, maxDevice, w0, w, {here}, b) {
      forall x ensures Seen(maxDevice, w0, w, {here}, x) <==> x == here || Seen(maxDevice, w1, w, own, x) {
        SeenBehind(maxDevice, w0, w, here, s, x);
      }
      assert SeenBack(hw, maxDevice, w0, w, {here}, b) <==> SeenBack(hw, maxDevice, w1, w, own, b);
    }
  }

  /** A bridge to a bus that has now been scanned. */
  lemma {:induction false} DescendDid(
      hw: Hardware, maxDevice: nat, n: nat, devices: seq<Child>, w0: Walk, here: Bdf, below: seq<Child>, w: Walk)
    requires At(hw, n, w0) && here.bus == n && Scannable(maxDevice, here) && here in hw && hw[here].Bridge?
    requires hw[here].secondary > n && hw[here].secondary !in w0.visited
    requires
      var s := hw[here].secondary;
      && Did(hw, maxDevice, s, [], w0.(visited := w0.visited + {s}), below, w, OwnBus(s, maxDevice))
      && Leaves(below) == OnBus(hw, s, maxDevice)
    ensures Did(hw, maxDevice, n, devices, w0, devices + [SubBus(hw[here].secondary, below)], w, {here})
  {
    var s := hw[here].secondary;
    var w1, own := w0.(visited := w0.visited + {s}), OwnBus(s, maxDevice);
    assert s in w1.visited;
    DescendAdds(hw, maxDevice, devices, w0, here, s, below, w);
    DescendRehung(hw, maxDevice, w0, here, s, w);
    PlacedPush(hw, maxDevice, n, devices, SubBus(s, below));
    assert Leads(hw, maxDevice, n, s) && Placed(hw, maxDevice, s, []);
    if TreePlaced(hw, maxDevice, w0.tree) {
      NeverInItself(hw, maxDevice, s, below);
      DescendBuses(devices, w0, s, below, w);
    }
    forall x | Seen(maxDevice, w0, w, {here}, x) ensures Followed(hw, w, x) {
      SeenBehind(maxDevice, w0, w, here, s, x);
    }
    forall b | b in w.visited - w0.visited ensures Bridged(hw, maxDevice, {n} + (w.visited - w0.visited), b) {
      if b != s {
        assert Bridged(hw, maxDevice, {s} + (w.visited - w1.visited), b);
      }
    }
  }

  /** The functions of the first `k` devices of a bus. */
  function OwnBus(n: nat, k: nat): (r: set<Bdf>) {
    set d: nat, f: nat | d in Tags(0, k) && f in Tags(0, FUNCTIONS) :: Bdf(n, d, f)
  }

  /** The first `k` functions of a device. */
  function OwnDevice(n: nat, d: nat, k: nat): (r: set<Bdf>) {
    set f: nat | f in Tags(0, k) :: Bdf(n, d, f)
  }

  lemma {:induction false} TagsMember(k: nat, i: nat)
    ensures i in Tags(0, k) <==> i < k
  {
    if i < k {
      assert Tags(0, k)[i] == i;
    }
  }

  lemma {:induction false} OwnBusIs(n: nat, k: nat, x: Bdf)
    ensures x in OwnBus(n, k) <==> x.bus == n && x.device < k && x.fn < FUNCTIONS
  {
    TagsMember(k, x.device);
    TagsMember(FUNCTIONS, x.fn);
  }

  lemma {:induction false} OwnDeviceIs(n: nat, d: nat, k: nat, x: Bdf)
    ensures x in OwnDevice(n, d, k) <==> x.bus == n && x.device == d && x.fn < k
  {
    TagsMember(k, x.fn);
  }

  lemma {:induction false} OwnDeviceNext(n: nat, d: nat, k: nat)
    ensures OwnDevice(n, d, k + 1) == OwnDevice(n, d, k) + {Bdf(n, d, k)} && Bdf(n, d, k) !in OwnDevice(n, d, k)
    ensures forall x :: x in OwnDevice(n, d, k + 1) ==> x.bus == n
  {
    forall x ensures x in OwnDevice(n, d, k + 1) <==> x in OwnDevice(n, d, k) || x == Bdf(n, d, k) {
      OwnDeviceIs(n, d, k, x);
      OwnDeviceIs(n, d, k + 1, x);
    }
    OwnDeviceIs(n, d, k, Bdf(n, d, k));
  }

  lemma {:induction false} OwnBusNext(n: nat, k: nat)
    ensures OwnBus(n, k + 1) == OwnBus(n, k) + OwnDevice(n, k, FUNCTIONS) && OwnBus(n, k) !! OwnDevice(n, k, FUNCTIONS)
    ensures forall x :: x in OwnBus(n, k + 1) ==> x.bus == n
  {
    forall x
      ensures x in OwnBus(n, k + 1) <==> x in OwnBus(n, k) || x in OwnDevice(n, k, FUNCTIONS)
      ensures !(x in OwnBus(n, k) && x in OwnDevice(n, k, FUNCTIONS))
      ensures x in OwnBus(n, k + 1) ==> x.bus == n
    {
      OwnBusIs(n, k, x);
      OwnBusIs(n, k + 1, x);
      OwnDeviceIs(n, k, FUNCTIONS, x);
    }
  }

  /** Looks at one function; a bridge may lead to a bus that has to be scanned first. */
  method CheckFunction(hw: Hardware, maxDevice: nat, here: Bdf, devices0: seq<Child>, w0: Walk)
    returns (devices: seq<Child>, w: Walk)
    requires At(hw, here.bus, w0) && Scannable(maxDevice, here)
    ensures Did(hw, maxDevice, here.bus, devices0, w0, devices, w, {here})
    ensures Leaves(devices) == Leaves(devices0) + if Present(hw, here) then [here] else []
    decreases |Unvisited(w0)|, 0, 0
  {
    devices, w := devices0, w0;
    var n := here.bus;
    if here !in hw {
      StayDid(hw, maxDevice, n, devices0, w0, here);
    } else if !hw[here].Bridge? {
      LeafDid(hw, maxDevice, n, devices0, w0, here);
      devices := devices + [Unattached(here)];
    } else {
      var secondary := hw[here].secondary;
      if secondary < n && secondary in w.tree {
        ReparentDid(hw, maxDevice, n, devices0, w0, here);
        devices := devices + [SubBus(secondary, [SubBus(secondary, w.tree[secondary])])];
        w := w.(tree := w.tree - {secondary});
      } else if secondary > n && secondary !in w.visited {
        w := w.(visited := w.visited + {secondary});
        FewerLeft(w0, w);
        var below;
        below, w := CheckBus(hw, maxDevice, secondary, w);
        DescendDid(hw, maxDevice, n, devices0, w0, here, below, w);
        devices := devices + [SubBus(secondary, below)];
      } else {
        StayDid(hw, maxDevice, n, devices0, w0, here);
      }
    }
  }

  lemma {:induction false} FunctionDone(
      hw: Hardware, maxDevice: nat, n: nat, d: nat, f: nat, devices0: seq<Child>, w0: Walk,
      devices: seq<Child>, w: Walk, devices1: seq<Child>, w1: Walk)
    requires n in w0.visited && At(hw, n, w) && Did(hw, maxDevice, n, devices0, w0, devices, w, OwnDevice(n, d, f))
    requires Leaves(devices) == Leaves(devices0) + InDevice(hw, n, d, f)
    requires Did(hw, maxDevice, n, devices, w, devices1, w1, {Bdf(n, d, f)})
    requires Leaves(devices1) == Leaves(devices) + if Present(hw, Bdf(n, d, f)) then [Bdf(n, d, f)] else []
    ensures At(hw, n, w1) && Did(hw, maxDevice, n, devices0, w0, devices1, w1, OwnDevice(n, d, f + 1))
    ensures Leaves(devices1) == Leaves(devices0) + InDevice(hw, n, d, f + 1)
  {
    OwnDeviceNext(n, d, f);
    DidThen(hw, maxDevice, n, devices0, w0, devices, w, devices1, w1, OwnDevice(n, d, f), {Bdf(n, d, f)});
  }

  /** Nothing of a device, or of a bus whose scan begins, has been looked at yet. */
  lemma {:induction false} DeviceBegins(hw: Hardware, maxDevice: nat, n: nat, d: nat, devices: seq<Child>, w: Walk)
    requires At(hw, n, w)
    ensures Did(hw, maxDevice, n, devices, w, devices, w, OwnDevice(n, d, 0))
    ensures Leaves(devices) == Leaves(devices) + InDevice(hw, n, d, 0)
  {
  }

  lemma {:induction false} BusBegins(hw: Hardware, maxDevice: nat, n: nat, w0: Walk, w: Walk)
    requires Sane(hw) && Ok(w0) && n in w0.visited && n !in w0.scanned && w == w0.(scanned := w0.scanned + [n])
    requires forall b :: b in w0.visited && b != n ==> b in w0.scanned
    ensures At(hw, n, w) && Did(hw, maxDevice, n, [], w0, [], w, {})
  {
  }

  lemma {:induction false} DeviceDone(
      hw: Hardware, maxDevice: nat, n: nat, d: nat, w0: Walk,
      devices: seq<Child>, w: Walk, devices1: seq<Child>, w1: Walk)
    requires n in w0.visited && At(hw, n, w) && Did(hw, maxDevice, n, [], w0, devices, w, OwnBus(n, d))
    requires Did(hw, maxDevice, n, devices, w, devices1, w1, OwnDevice(n, d, FUNCTIONS))
    ensures At(hw, n, w1) && Did(hw, maxDevice, n, [], w0, devices1, w1, OwnBus(n, d + 1))
  {
    OwnBusNext(n, d);
    DidThen(hw, maxDevice, n, [], w0, devices, w, devices1, w1, OwnBus(n, d), OwnDevice(n, d, FUNCTIONS));
  }

  method CheckDevice(hw: Hardware, maxDevice: nat, n: nat, device: nat, devices0: seq<Child>, w0: Walk)
    returns (devices: seq<Child>, w: Walk)
    requires At(hw, n, w0) && device < maxDevice
    ensures Did(hw, maxDevice, n, devices0, w0, devices, w, OwnDevice(n, device, FUNCTIONS))
    ensures Leaves(devices) == Leaves(devices0) + InDevice(hw, n, device, FUNCTIONS)
    decreases |Unvisited(w0)|, 1, 0
  {
    devices, w := devices0, w0;
    DeviceBegins(hw, maxDevice, n, device, devices0, w0);
    for f := 0 to FUNCTIONS
      invariant At(hw, n, w) && Did(hw, maxDevice, n, devices0, w0, devices, w, OwnDevice(n, device, f))
      invariant Leaves(devices) == Leaves(devices0) + InDevice(hw, n, device, f)
    {
      NoMoreLeft(w0, w);
      var devices1, w1 := CheckFunction(hw, maxDevice, Bdf(n, device, f), devices, w);
      FunctionDone(hw, maxDevice, n, device, f, devices0, w0, devices, w, devices1, w1);
      devices, w := devices1, w1;
    }
  }

  method CheckBus(hw: Hardware, maxDevice: nat, n: nat, w0: Walk) returns (devices: seq<Child>, w: Walk)
    requires Sane(hw) && Ok(w0) && n in w0.visited && n !in w0.scanned
    requires forall b :: b in w0.visited && b != n ==> b in w0.scanned
    ensures Did(hw, maxDevice, n, [], w0, devices, w, OwnBus(n, maxDevice))
    ensures Leaves(devices) == OnBus(hw, n, maxDevice)
    decreases |Unvisited(w0)|, 2, 0
  {
    devices, w := [], w0.(scanned := w0.scanned + [n]);
    BusBegins(hw, maxDevice, n, w0, w);
    for d := 0 to maxDevice
      invariant At(hw, n, w) && Did(hw, maxDevice, n, [], w0, devices, w, OwnBus(n, d))
      invariant Leaves(devices) == OnBus(hw, n, d)
    {
      NoMoreLeft(w0, w);
      var devices1, w1 := CheckDevice(hw, maxDevice, n, d, devices, w);
      DeviceDone(hw, maxDevice, n, d, w0, devices, w, devices1, w1);
      devices, w := devices1, w1;
    }
  }

  /** The tree holds each function that belongs in it once if its bus was scanned, and nothing else. */
  ghost predicate Exact(hw: Hardware, maxDevice: nat, w: Walk) {
    forall x :: CountTree(w.tree, x, BUSES) ==
      if Present(hw, x) && x.bus in w.visited && Scannable(maxDevice, x) then 1 else 0
  }

  /** A bus from which the walk starts: its first function answers. */
  predicate Root(hw: Hardware, limit: nat, b: nat) {
    b < limit && Bdf(b, 0, 0) in hw
  }

  /** A bus scanned after the scan of `b` had ended has the bridge `x` back to `b`. */
  ghost predicate RecalledBy(hw: Hardware, maxDevice: nat, w: Walk, b: nat, x: Bdf)
    requires b in w.ended && w.ended[b] <= |w.scanned|
  {
    Scannable(maxDevice, x) && Back(hw, x, b) && x.bus in w.scanned[w.ended[b]..]
  }

  ghost predicate Recalled(hw: Hardware, maxDevice: nat, w: Walk, b: nat)
    requires b in w.ended && w.ended[b] <= |w.scanned|
  {
    exists x :: RecalledBy(hw, maxDevice, w, b, x)
  }

  /**
   A bus that was scanned by its number stays at the top of the tree, unless a bus scanned after it has a
   bridge back to it.
   */
  ghost predicate Homes(hw: Hardware, maxDevice: nat, w: Walk) {
    && w.tree.Keys <= w.ended.Keys
    && (forall b :: b in w.ended ==> w.ended[b] <= |w.scanned| && b in w.visited)
    && (forall b :: b in w.ended ==> (b in w.tree <==> !Recalled(hw, maxDevice, w, b)))
  }

  /** Every visited bus occurs once in the tree, at its top or below a bridge, and no other does. */
  ghost predicate EachBusOnce(w: Walk) {
    forall b :: TreeBuses(w.tree, b, BUSES) == if b in w.visited then 1 else 0
  }

  /** A walk that has looked for roots below `limit`. */
  ghost predicate Walked(hw: Hardware, maxDevice: nat, limit: nat, w: Walk) {
    && Ok(w) && Covered(w) && Exact(hw, maxDevice, w) && TreePlaced(hw, maxDevice, w.tree)
    && (forall x: Bdf :: x.bus in w.visited && Scannable(maxDevice, x) ==> Followed(hw, w, x))
    && (forall b :: Root(hw, limit, b) ==> b in w.visited)
    && (forall b :: b in w.visited ==> Root(hw, limit, b) || Bridged(hw, maxDevice, w.visited, b))
    && Homes(hw, maxDevice, w) && EachBusOnce(w)
  }

  /** What a scan of root bus `b` has seen is what lies on the buses it has visited. */
  lemma {:induction false} RootSees(maxDevice: nat, b: nat, w0: Walk, w: Walk, x: Bdf)
    requires b !in w0.visited && b in w.visited
    ensures Seen(maxDevice, w0.(visited := w0.visited + {b}), w, OwnBus(b, maxDevice), x)
      <==> x.bus in w.visited - w0.visited && Scannable(maxDevice, x)
  {
    OwnBusIs(b, maxDevice, x);
  }

  lemma {:induction false} RootExact(
      hw: Hardware, maxDevice: nat, b: nat, w0: Walk, devices: seq<Child>, w: Walk)
    requires Exact(hw, maxDevice, w0) && b < BUSES && b !in w0.visited && b in w.visited && b !in w.tree
    requires w0.visited <= w.visited
    requires Adds(hw, maxDevice, [], w0.(visited := w0.visited + {b}), devices, w, OwnBus(b, maxDevice))
    ensures Exact(hw, maxDevice, Joined(w, b, devices))
  {
    var w1, r, own := w0.(visited := w0.visited + {b}), Joined(w, b, devices), OwnBus(b, maxDevice);
    assert b in w1.visited;
    forall x ensures CountTree(r.tree, x, BUSES) ==
      if Present(hw, x) && x.bus in r.visited && Scannable(maxDevice, x) then 1 else 0
    {
      RootSees(maxDevice, b, w0, w, x);
      TreeInsert(w.tree, b, devices, x, BUSES);
      assert Total(devices, w, x) ==
        Total([], w1, x) + if Present(hw, x) && Seen(maxDevice, w1, w, own, x) then 1 else 0;
      assert CountTree(w0.tree, x, BUSES) ==
        if Present(hw, x) && x.bus in w0.visited && Scannable(maxDevice, x) then 1 else 0;
    }
  }

  lemma {:induction false} RootFollows(
      hw: Hardware, maxDevice: nat, b: nat, w0: Walk, devices: seq<Child>, w: Walk)
    requires Walked(hw, maxDevice, b, w0) && b < BUSES && b !in w0.visited && Bdf(b, 0, 0) in hw
    requires Did(hw, maxDevice, b, [], w0.(visited := w0.visited + {b}), devices, w, OwnBus(b, maxDevice))
    ensures forall x: Bdf :: x.bus in w.visited && Scannable(maxDevice, x) ==> Followed(hw, w, x)
  {
    assert b in w0.(visited := w0.visited + {b}).visited;
    forall x: Bdf | x.bus in w.visited && Scannable(maxDevice, x) ensures Followed(hw, w, x) {
      if x.bus in w0.visited {
        assert Followed(hw, w0, x);
      } else {
        RootSees(maxDevice, b, w0, w, x);
      }
    }
  }

  lemma {:induction false} RootJustified(
      hw: Hardware, maxDevice: nat, b: nat, w0: Walk, devices: seq<Child>, w: Walk)
    requires Walked(hw, maxDevice, b, w0) && b < BUSES && b !in w0.visited && Bdf(b, 0, 0) in hw
    requires Did(hw, maxDevice, b, [], w0.(visited := w0.visited + {b}), devices, w, OwnBus(b, maxDevice))
    ensures forall c :: c in w.visited ==> Root(hw, b + 1, c) || Bridged(hw, maxDevice, w.visited, c)
  {
    var w1 := w0.(visited := w0.visited + {b});
    assert b in w1.visited;
    forall c | c in w.visited ensures Root(hw, b + 1, c) || Bridged(hw, maxDevice, w.visited, c) {
      if c in w0.visited {
        assert Root(hw, b, c) || Bridged(hw, maxDevice, w0.visited, c);
      } else if c != b {
        assert Bridged(hw, maxDevice, {b} + (w.visited - w1.visited), c);
      }
    }
  }

  /** The buses scanned from `e` on are those from `e` to the end of `w0`, and those visited since. */
  lemma {:induction false} ScannedSince(w0: Walk, w: Walk, e: nat, m: nat)
    requires Ok(w0) && Covered(w0) && Ok(w) && Covered(w)
    requires w0.scanned <= w.scanned && w0.visited <= w.visited && e <= |w0.scanned|
    ensures m in w.scanned[e..] <==> m in w0.scanned[e..] || m in w.visited - w0.visited
  {
    var k := |w0.scanned|;
    assert w.scanned[e..] == w0.scanned[e..] + w.scanned[k..];
    assert w.scanned == w0.scanned + w.scanned[k..];
    if m in w.scanned[k..] {
      var i :| 0 <= i < |w.scanned[k..]| && w.scanned[k..][i] == m;
      assert w.scanned[k + i] == m;
    }
  }

  lemma {:induction false} RecalledSince(hw: Hardware, maxDevice: nat, b: nat, w0: Walk, w: Walk, c: nat)
    requires Ok(w0) && Covered(w0) && Ok(w) && Covered(w) && b !in w0.visited && b in w.visited
    requires w0.scanned <= w.scanned && w0.visited <= w.visited && w.ended == w0.ended
    requires c in w0.ended && w0.ended[c] <= |w0.scanned|
    ensures Recalled(hw, maxDevice, w, c) <==>
      || Recalled(hw, maxDevice, w0, c)
      || SeenBack(hw, maxDevice, w0.(visited := w0.visited + {b}), w, OwnBus(b, maxDevice), c)
  {
    forall x ensures RecalledBy(hw, maxDevice, w, c, x) <==>
      || RecalledBy(hw, maxDevice, w0, c, x)
      || (Seen(maxDevice, w0.(visited := w0.visited + {b}), w, OwnBus(b, maxDevice), x) && Back(hw, x, c))
    {
      ScannedSince(w0, w, w0.ended[c], x.bus);
      RootSees(maxDevice, b, w0, w, x);
    }
  }

  lemma {:induction false} RootHomes(
      hw: Hardware, maxDevice: nat, b: nat, w0: Walk, devices: seq<Child>, w: Walk)
    requires Ok(w0) && Covered(w0) && Ok(w) && Covered(w) && Homes(hw, maxDevice, w0)
    requires b !in w0.visited && b in w.visited && w.tree.Keys <= w0.tree.Keys
    requires w0.scanned <= w.scanned && w0.visited <= w.visited && w.ended == w0.ended
    requires Rehung(hw, maxDevice, w0.(visited := w0.visited + {b}), w, OwnBus(b, maxDevice))
    ensures Homes(hw, maxDevice, Joined(w, b, devices))
  {
    var r := Joined(w, b, devices);
    forall c | c in r.ended ensures c in r.tree <==> !Recalled(hw, maxDevice, r, c) {
      RootHome(hw, maxDevice, b, w0, devices, w, c);
    }
  }

  lemma {:induction false} RootHome(
      hw: Hardware, maxDevice: nat, b: nat, w0: Walk, devices: seq<Child>, w: Walk, c: nat)
    requires Ok(w0) && Covered(w0) && Ok(w) && Covered(w) && Homes(hw, maxDevice, w0)
    requires b !in w0.visited && b in w.visited && w.tree.Keys <= w0.tree.Keys
    requires w0.scanned <= w.scanned && w0.visited <= w.visited && w.ended == w0.ended
    requires Rehung(hw, maxDevice, w0.(visited := w0.visited + {b}), w, OwnBus(b, maxDevice))
    requires c in Joined(w, b, devices).ended && Joined(w, b, devices).ended[c] <= |w.scanned|
    ensures c in Joined(w, b, devices).tree <==> !Recalled(hw, maxDevice, Joined(w, b, devices), c)
  {
    if c == b {
      assert w.scanned[|w.scanned|..] == [];
    } else {
      RecalledSince(hw, maxDevice, b, w0, w, c);
      SameRecalled(hw, maxDevice, w, Joined(w, b, devices), c);
    }
  }

  lemma {:induction false} SameRecalled(hw: Hardware, maxDevice: nat, w: Walk, r: Walk, c: nat)
    requires c in w.ended && c in r.ended && w.ended[c] == r.ended[c] <= |w.scanned| && w.scanned == r.scanned
    ensures Recalled(hw, maxDevice, r, c) <==> Recalled(hw, maxDevice, w, c)
  {
    assert forall x :: RecalledBy(hw, maxDevice, r, c, x) <==> RecalledBy(hw, maxDevice, w, c, x);
  }

  lemma {:induction false} RootBasics(
      hw: Hardware, maxDevice: nat, b: nat, devices: seq<Child>, w: Walk)
    requires Ok(w) && Covered(w) && b in w.scanned && TreePlaced(hw, maxDevice, w.tree)
    requires Placed(hw, maxDevice, b, devices) && Leaves(devices) == OnBus(hw, b, maxDevice)
    ensures var r := Joined(w, b, devices); Ok(r) && Covered(r) && TreePlaced(hw, maxDevice, r.tree)
  {
  }

  lemma {:induction false} RootBuses(b: nat, w0: Walk, devices: seq<Child>, w: Walk)
    requires EachBusOnce(w0) && b < BUSES && b !in w0.visited && w0.visited <= w.visited
    requires b in w.visited && b !in w.tree
    requires AddsBuses([], w0.(visited := w0.visited + {b}), devices, w)
    ensures EachBusOnce(Joined(w, b, devices))
  {
    var w1, r := w0.(visited := w0.visited + {b}), Joined(w, b, devices);
    forall c ensures TreeBuses(r.tree, c, BUSES) == if c in r.visited then 1 else 0 {
      TreeBusesInsert(w.tree, b, devices, c, BUSES);
      assert BusTotal(devices, w, c) == BusTotal([], w1, c) + if c in w.visited - w1.visited then 1 else 0;
      assert TreeBuses(w0.tree, c, BUSES) == if c in w0.visited then 1 else 0;
    }
  }

  /** The walk after the scan of root bus `b` has ended. */
  function Joined(w: Walk, b: nat, devices: seq<Child>): (r: Walk) {
    w.(tree := w.tree[b := devices], ended := w.ended[b := |w.scanned|])
  }

  lemma {:induction false} SameFollowed(hw: Hardware, maxDevice: nat, w: Walk, r: Walk)
    requires r.visited == w.visited
    requires forall x: Bdf :: x.bus in w.visited && Scannable(maxDevice, x) ==> Followed(hw, w, x)
    ensures forall x: Bdf :: x.bus in r.visited && Scannable(maxDevice, x) ==> Followed(hw, r, x)
  {
    forall x: Bdf | x.bus in r.visited && Scannable(maxDevice, x) ensures Followed(hw, r, x) {
      assert Followed(hw, w, x);
    }
  }

  /** A root bus and all that was found from it join the tree. */
  lemma {:induction false} RootJoins(
      hw: Hardware, maxDevice: nat, b: nat, w0: Walk, devices: seq<Child>, w: Walk)
    requires Walked(hw, maxDevice, b, w0) && b < BUSES && b !in w0.visited && Bdf(b, 0, 0) in hw
    requires Did(hw, maxDevice, b, [], w0.(visited := w0.visited + {b}), devices, w, OwnBus(b, maxDevice))
    requires Leaves(devices) == OnBus(hw, b, maxDevice)
    ensures Walked(hw, maxDevice, b + 1, Joined(w, b, devices))
  {
    assert b in w0.(visited := w0.visited + {b}).visited && Placed(hw, maxDevice, b, []);
    RootBasics(hw, maxDevice, b, devices, w);
    RootExact(hw, maxDevice, b, w0, devices, w);
    RootFollows(hw, maxDevice, b, w0, devices, w);
    RootJustified(hw, maxDevice, b, w0, devices, w);
    RootHomes(hw, maxDevice, b, w0, devices, w);
    RootBuses(b, w0, devices, w);
    SameFollowed(hw, maxDevice, w, Joined(w, b, devices));
  }

  /**
   The walk ends for any wiring of bridges and scans no bus twice. It scans the buses whose first
   function answers and those a bridge on a lower scanned bus leads to, and no others. In the
   tree it leaves, every function that answers on a scanned bus and is no bridge between buses
   occurs exactly once, wherever its bus came to hang, and nothing else occurs.
   */
  method Init(hw: Hardware, maxBus: nat, maxDevice0: nat) returns (w: Walk)
    requires Sane(hw) && maxBus < BUSES
    ensures Walked(hw, Min(maxDevice0, MAX_DEVICES), maxBus + 1, w)
  {
    var maxDevice := maxDevice0;
    if maxDevice > MAX_DEVICES {
      maxDevice := MAX_DEVICES;
    }
    w := Walk(map[], {}, [], map[]);
    EmptyWalked(hw, maxDevice);
    for b := 0 to maxBus + 1
      invariant Walked(hw, maxDevice, b, w)
    {
      if b !in w.visited && Bdf(b, 0, 0) in hw {
        var devices, w1 := CheckBus(hw, maxDevice, b, w.(visited := w.visited + {b}));
        RootJoins(hw, maxDevice, b, w, devices, w1);
        w := Joined(w1, b, devices);
      } else {
        RootSkipped(hw, maxDevice, b, w);
      }
    }
  }

  /** A bus that was scanned already or whose first function is silent is no new root. */
  lemma {:induction false} RootSkipped(hw: Hardware, maxDevice: nat, b: nat, w: Walk)
    requires Walked(hw, maxDevice, b, w) && (b in w.visited || Bdf(b, 0, 0) !in hw)
    ensures Walked(hw, maxDevice, b + 1, w)
  {
    forall c | c in w.visited ensures Root(hw, b + 1, c) || Bridged(hw, maxDevice, w.visited, c) {
      assert Root(hw, b, c) || Bridged(hw, maxDevice, w.visited, c);
    }
  }

  lemma {:induction false} EmptyWalked(hw: Hardware, maxDevice: nat)
    ensures Walked(hw, maxDevice, 0, Walk(map[], {}, [], map[]))
  {
    forall x { EmptyTree(x, BUSES); }
    forall b { EmptyBuses(b, BUSES); }
  }

  lemma {:induction false} EmptyBuses(b: nat, k: nat)
    ensures TreeBuses(map[], b, k) == 0
  {
    if k > 0 {
      EmptyBuses(b, k - 1);
    }
  }

  lemma {:induction false} EmptyTree(x: Bdf, k: nat)
    ensures CountTree(map[], x, k) == 0
  {
    if k > 0 {
      EmptyTree(x, k - 1);
    }
  }
}
