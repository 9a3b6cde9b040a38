/** The objects behind a session: two shared unbounded channels and the endpoints that use them. */
module SessionObject {
  import opened Common
  import opened SessionTypes

  /** An unbounded channel. A receiver that found nothing leaves its waker behind. */
  class Channel {
    var queue: seq<Msg>
    var terminated: bool
    var wakerReceiver: Option<nat>

    /** A waiting receiver means that there is nothing to receive. */
    ghost predicate Valid()
      reads this
    {
      wakerReceiver.Some? ==> queue == []
    }

    ghost function View(): Wire
      reads this
    {
      Wire(queue, terminated)
    }

    constructor ()
      ensures Valid() && View() == Wire([], false)
    {
      queue, terminated, wakerReceiver := [], false, None;
    }

    /** Fails on a terminated channel; otherwise appends and wakes the waiting receiver. */
    method SendNoYield(m: Msg) returns (ok: bool, woken: Option<nat>)
      requires Valid()
      modifies this
      ensures Valid()
      ensures ok == !old(terminated)
      ensures View() == if ok then Wire(old(queue) + [m], false) else old(View())
      ensures ok ==> woken == old(wakerReceiver) && wakerReceiver == None
      ensures !ok ==> woken == None && wakerReceiver == old(wakerReceiver)
    {
      if terminated {
        return false, None;
      }
      queue := queue + [m];
      woken := wakerReceiver;
      wakerReceiver := None;
      ok := true;
    }

    /** One poll of a receive by task `w`: the oldest message, an error once terminated, or wait. */
    method PollRecv(w: nat) returns (m: Option<Msg>, pending: bool)
      requires Valid()
      modifies this
      ensures Valid()
      ensures old(queue) != [] ==>
        m == Some(old(queue)[0]) && !pending && View() == Wire(old(queue)[1..], old(terminated))
      ensures old(queue) == [] ==> m == None && pending == !old(terminated) && View() == old(View())
      ensures wakerReceiver == if pending then Some(w) else old(wakerReceiver)
    {
      if queue != [] {
        m, pending, queue := Some(queue[0]), false, queue[1..];
      } else if terminated {
        m, pending := None, false;
      } else {
        m, pending, wakerReceiver := None, true, Some(w);
      }
    }

    /** Dropping the sender terminates the channel and wakes the waiting receiver. */
    method DropSender() returns (woken: Option<nat>)
      requires Valid()
      modifies this
      ensures Valid() && View() == old(View()).(terminated := true)
      ensures woken == old(wakerReceiver) && wakerReceiver == None
    {
      terminated := true;
      woken := wakerReceiver;
      wakerReceiver := None;
    }

    /** Dropping the receiver terminates the channel. */
    method DropReceiver()
      requires Valid()
      modifies this
      ensures Valid() && View() == old(View()).(terminated := true) && wakerReceiver == old(wakerReceiver)
    {
      terminated := true;
    }
  }

  datatype ReadResult = Ready(m: Msg) | Pending | Disconnected

  /** The protocol after a communication: what follows the value, or the branch that the label names. */
  function Continues(p: Proto, m: Msg): (r: Proto) {
    match p
    case Send(_, n) => n
    case Recv(_, n) => n
    case Choose(l, r) => if m == Label(true) then l else r
    case Offer(l, r) => if m == Label(true) then l else r
    case _ => p
  }

  /** An endpoint. Its session type exists at compile time only, so it is a ghost field here. */
  class Endpoint {
    const tx: Channel
    const rx: Channel
    ghost var ty: Chan
    ghost var closed: bool

    ghost predicate Valid()
      reads this, tx, rx
    {
      tx != rx && tx.Valid() && rx.Valid()
    }

    constructor (tx: Channel, rx: Channel, ghost p: Proto)
      requires tx != rx && tx.Valid() && rx.Valid()
      ensures Valid() && this.tx == tx && this.rx == rx && ty == Chan([], p) && !closed
    {
      this.tx, this.rx, this.ty, this.closed := tx, rx, Chan([], p), false;
    }

    /** `send`, `sel1` and `sel2`. The write succeeds unless the action would panic. */
    method Write(m: Msg) returns (ok: bool)
      requires Valid() && !closed && WriteAs(ty, m).Some?
      modifies this, tx
      ensures Valid()
      ensures var o := Act(old(ty), old(closed), old(tx.View()), old(rx.View()), DoWrite(m));
        if ok then o == Done(ty, closed, tx.View(), rx.View()) else o.Panics? && ty == old(ty) && closed == old(closed)
      ensures ok <==> !old(tx.terminated)
      ensures ok ==> tx.queue == old(tx.queue) + [m] && ty.env == old(ty.env)
      ensures ok ==> ty.proto == Continues(old(ty.proto), m)
    {
      var woken;
      ok, woken := tx.SendNoYield(m);
      if ok {
        ty := WriteAs(ty, m).value;
      }
    }

    /** `recv` and `offer`, polled once by task `w`. The value is right for the type unless the action is mistyped. */
    method Read(w: nat) returns (r: ReadResult)
      requires Valid() && !closed && (ty.proto.Recv? || ty.proto.Offer?)
      modifies this, rx
      ensures Valid()
      ensures var o := Act(old(ty), old(closed), old(tx.View()), old(rx.View()), DoRead);
        match r
        case Ready(m) => o.Mistyped? || o == Done(ty, closed, tx.View(), rx.View())
        case Pending => o.Waits? && ty == old(ty) && rx.View() == old(rx.View())
        case Disconnected => o.Panics? && ty == old(ty) && rx.View() == old(rx.View())
      ensures r.Ready? ==> old(rx.queue) != [] && r.m == old(rx.queue)[0] && rx.queue == old(rx.queue)[1..]
      ensures r.Ready? && ReadAs(old(ty), r.m).Some? ==>
        ty.env == old(ty.env) && ty.proto == Continues(old(ty.proto), r.m)
    {
      var m, pending := rx.PollRecv(w);
      if m.Some? {
        if ReadAs(ty, m.value).Some? {
          ty := ReadAs(ty, m.value).value;
        }
        return Ready(m.value);
      }
      return if pending then Pending else Disconnected;
    }

    /** `close` drops both halves. */
    method Close()
      requires Valid() && !closed && ty.proto.Eps?
      modifies this, tx, rx
      ensures Valid()
      ensures Act(old(ty), old(closed), old(tx.View()), old(rx.View()), DoClose)
        == Done(ty, closed, tx.View(), rx.View())
      ensures closed && tx.terminated && rx.terminated && tx.queue == old(tx.queue) && rx.queue == old(rx.queue)
    {
      var woken := tx.DropSender();
      rx.DropReceiver();
      closed := true;
    }
  }

  /** Creates the two endpoints of a session over crossed channels. */
  method NewSession(ghost p: Proto) returns (a: Endpoint, b: Endpoint)
    ensures fresh(a) && fresh(b) && fresh(a.tx) && fresh(a.rx) && a.Valid() && b.Valid()
    ensures a.tx == b.rx && a.rx == b.tx
    ensures var s := SessionChannel(p);
      && a.ty == s.a && !a.closed && b.ty == s.b && !b.closed
      && a.tx.View() == s.ab && a.rx.View() == s.ba
  {
    var ab := new Channel();
    var ba := new Channel();
    a := new Endpoint(ab, ba, p);
    b := new Endpoint(ba, ab, Dual(p));
  }
}
