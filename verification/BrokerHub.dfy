/** The broker as an object: channels are shared with their subscribers, and one
    publish walks the whole map under the lock. */
module BrokerHub {
  import opened Wrappers
  import opened Broker

  /** A bounded channel. Receivers may drain it after it is closed. */
  class Chan<E> {
    var buffer: seq<E>
    var closed: bool

    constructor ()
      ensures buffer == [] && !closed
    {
      buffer, closed := [], false;
    }

    /** A send that gives up on a full buffer. Sending on a closed channel panics. */
    method TrySend(ev: E)
      requires !closed
      modifies this`buffer
      ensures buffer == Offered(old(buffer), ev)
    {
      if |buffer| < EVENT_BUFFER {
        buffer := buffer + [ev];
      }
    }

    /** Closing twice panics. */
    method Close()
      requires !closed
      modifies this`closed
      ensures closed
    {
      closed := true;
    }
  }

  function Offered<E>(buffer: seq<E>, ev: E): seq<E> {
    if |buffer| < EVENT_BUFFER then buffer + [ev] else buffer
  }

  // ----- the hub as its subscribers see it -----

  /** What is buffered for each subscription. */
  datatype View<E> = View(next: nat, buffers: map<nat, seq<E>>, closed: bool)

  function Joined<E>(v: View<E>): View<E> {
    if v.closed then v else View(v.next + 1, v.buffers[v.next := []], false)
  }

  function Left<E>(v: View<E>, fid: nat): View<E> {
    v.(buffers := v.buffers - {fid})
  }

  function Delivered<E>(v: View<E>, ev: E): View<E> {
    v.(buffers := map fid | fid in v.buffers :: Offered(v.buffers[fid], ev))
  }

  function Shut<E>(v: View<E>): View<E> {
    if v.closed then v else v.(buffers := map[], closed := true)
  }

  class Hub<E> {
    var next: nat
    var subs: map<nat, Chan<E>>
    var closed: bool

    /** Every channel in the map is open and in it once, so neither a send nor a
        close can hit a closed channel. */
    ghost predicate Valid()
      reads this, subs.Values
    {
      && (forall fid | fid in subs :: fid < next && !subs[fid].closed && |subs[fid].buffer| <= EVENT_BUFFER)
      && (forall f, g | f in subs && g in subs && subs[f] == subs[g] :: f == g)
      && (closed ==> subs == map[])
    }

    ghost function AsView(): View<E>
      reads this, subs.Values
    {
      View(next, map fid | fid in subs :: subs[fid].buffer, closed)
    }

    constructor ()
      ensures Valid() && AsView() == View(0, map[], false)
    {
      next, subs, closed := 0, map[], false;
    }

    /** A fresh empty channel, already closed if the broker is. */
    method Subscribe() returns (ch: Chan<E>, fid: nat)
      requires Valid()
      modifies this
      ensures Valid() && fresh(ch) && ch.buffer == [] && ch.closed == old(closed) && closed == old(closed)
      ensures subs == if closed then old(subs) else old(subs)[fid := ch]
      ensures !closed ==> fid !in old(subs) && fid == old(next)
      ensures AsView() == Joined(old(AsView()))
    {
      ch := new Chan();
      fid := next;
      if closed {
        ch.Close();
      } else {
        next := next + 1;
        subs := subs[fid := ch];
      }
    }

    /** What Subscribe's cancel function does; calling it again changes nothing. */
    method Cancel(fid: nat)
      requires Valid()
      modifies this, subs.Values
      ensures Valid() && subs == old(subs) - {fid} && closed == old(closed)
      ensures forall f | f in old(subs) :: old(subs)[f].buffer == old(subs[f].buffer)
                                        && (old(subs)[f].closed <==> f == fid)
      ensures AsView() == Left(old(AsView()), fid)
    {
      if fid in subs {
        var ch := subs[fid];
        subs := subs - {fid};
        ch.Close();
      }
    }

    /** Deliver to every subscriber with room, in whatever order the map yields. */
    method Publish(ev: E)
      requires Valid()
      modifies subs.Values
      ensures Valid() && subs == old(subs)
      ensures forall fid | fid in subs :: subs[fid].buffer == Offered(old(subs[fid].buffer), ev)
      ensures AsView() == Delivered(old(AsView()), ev)
    {
      var rest := subs.Keys;
      while rest != {}
        invariant rest <= subs.Keys && Valid()
        invariant forall fid | fid in subs ::
                    subs[fid].buffer
                    == if fid in rest then old(subs[fid].buffer) else Offered(old(subs[fid].buffer), ev)
        decreases |rest|
      {
        var fid := Pick(rest);
        subs[fid].TrySend(ev);
        rest := rest - {fid};
      }
      assert AsView().buffers == Delivered(old(AsView()), ev).buffers;
    }

    /** Close every subscriber's channel, leaving what is buffered to be drained. */
    method Close()
      requires Valid()
      modifies this, subs.Values
      ensures Valid() && closed && subs == map[]
      ensures forall fid | fid in old(subs) :: old(subs)[fid].closed && old(subs)[fid].buffer == old(subs[fid].buffer)
      ensures AsView() == Shut(old(AsView()))
    {
      if closed {
        return;
      }
      closed := true;
      var all := subs;
      var rest := subs.Keys;
      subs := map[];
      while rest != {}
        invariant rest <= all.Keys && closed && subs == map[]
        invariant forall fid | fid in all ::
                    (all[fid].closed <==> fid !in rest) && all[fid].buffer == old(subs[fid].buffer)
        modifies all.Values
        decreases |rest|
      {
        var fid := Pick(rest);
        all[fid].Close();
        rest := rest - {fid};
      }
    }
  }
}
