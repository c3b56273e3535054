/** Counting requests so that a shutdown can wait for the last one
    (internal/webdav/handler.go, Handler). */
module Shutdown {
  class Handler {
    var active: nat
    var closing: bool
    /** The channel waited on now, of all the channels made, and those closed. */
    var idle: nat
    var shut: set<nat>

    /** The channel in use is open exactly while requests are running. */
    ghost predicate Valid()
      reads this
    {
      && (forall c :: c in shut ==> c <= idle)
      && (if active > 0 then idle !in shut else idle == 0 || idle in shut)
      && (active > 0 ==> idle > 0)
    }

    constructor ()
      ensures Valid() && active == 0 && !closing
    {
      active, closing, idle, shut := 0, false, 0, {};
    }

    /** A request is turned away once the handler is closing. */
    method Enter() returns (admitted: bool)
      requires Valid()
      modifies this
      ensures Valid() && closing == old(closing) && shut == old(shut)
      ensures admitted == !closing && active == old(active) + if admitted then 1 else 0
      ensures idle == if admitted && old(active) == 0 then old(idle) + 1 else old(idle)
    {
      if closing {
        return false;
      }
      if active == 0 {
        idle := idle + 1;
      }
      active := active + 1;
      admitted := true;
    }

    method Leave()
      requires Valid() && active > 0
      modifies this
      ensures Valid() && closing == old(closing) && idle == old(idle) && active == old(active) - 1
      ensures shut == if active == 0 then old(shut) + {idle} else old(shut)
    {
      active := active - 1;
      if active == 0 {
        shut := shut + {idle};
      }
    }

    /** Starts closing, and says which channel to wait on if any. */
    method Drain() returns (waits: bool, channel: nat)
      requires Valid()
      modifies this`closing
      ensures Valid() && closing && channel == idle && waits == (active > 0)
    {
      closing := true;
      channel, waits := idle, active > 0;
    }

    /** While the handler is closing, the channel a drain waits on closes exactly when
        the last request is gone. */
    lemma WaitEndsWithLastRequest(channel: nat)
      requires Valid() && closing && channel == idle > 0
      ensures channel in shut <==> active == 0
    {
    }

    /** One more thing that may happen while a drain waits. */
    method Happen(entering: bool)
      requires Valid() && closing
      modifies this
      ensures Valid() && closing && idle == old(idle) && active <= old(active)
    {
      if entering {
        var admitted := Enter();
      } else if active > 0 {
        Leave();
      }
    }
  }

  /** Whatever happens after a drain has begun, no request starts, and the channel it
      waits on is closed exactly when none is left. */
  method DrainThrough(h: Handler, events: seq<bool>) returns (done: bool)
    requires h.Valid()
    modifies h
    ensures h.Valid() && h.closing && h.active <= old(h.active)
    ensures done <==> h.active == 0
  {
    var waits, channel := h.Drain();
    for k := 0 to |events|
      invariant h.Valid() && h.closing && h.idle == channel && h.active <= old(h.active)
      invariant waits == (old(h.active) > 0)
    {
      h.Happen(events[k]);
    }
    if waits { h.WaitEndsWithLastRequest(channel); }
    done := !waits || channel in h.shut;
  }
}
