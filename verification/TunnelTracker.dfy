/** The bridge's tunnel tracker: sockets watched, tunnels judged, dead links closed. */
module TunnelTracker {

  /** Nanoseconds. */
  type Time = int

  const UP_AFTER: Time := 3_000_000_000
  const STALE_AFTER: Time := 40_000_000_000
  const DEAD_AFTER: Time := 90_000_000_000

  /** When something last arrived, or the opening if nothing has; heard 0 means nothing has. */
  function LastSign(openedAt: Time, heard: Time): Time {
    if heard != 0 then heard else openedAt
  }

  predicate IsDead(openedAt: Time, heard: Time, now: Time) {
    now - LastSign(openedAt, heard) > DEAD_AFTER
  }

  /** The link speaks for its tunnel: heard, old enough and not silent for too long. */
  predicate CountsAsUp(openedAt: Time, heard: Time, now: Time) {
    heard != 0 && now - openedAt >= UP_AFTER && now - heard <= STALE_AFTER
  }

  // ---------- the objects

  class LinkConn {
    const openedAt: Time
    var lastRead: Time
    var done: bool // the once-guard of Close
    var socketClosed: bool

    constructor (openedAt: Time)
      ensures this.openedAt == openedAt && lastRead == 0 && !done && !socketClosed
    {
      this.openedAt, lastRead, done, socketClosed := openedAt, 0, false, false;
    }

    /** A read that returned n bytes at the given time. */
    method Read(n: nat, now: Time)
      modifies this`lastRead
      ensures lastRead == if n > 0 then now else old(lastRead)
    {
      if n > 0 {
        lastRead := now;
      }
    }

    predicate Dead(now: Time)
      reads this
    {
      IsDead(openedAt, lastRead, now)
    }

    predicate Up(now: Time)
      reads this
    {
      CountsAsUp(openedAt, lastRead, now)
    }
  }

  class FlowConn {
    var done: bool

    constructor ()
      ensures !done
    {
      done := false;
    }
  }

  class Tunnel {
    var links: set<LinkConn>
    var up: bool
    var since: Time
    var flows: int
    ghost var openFlows: set<FlowConn>

    /** Every tracked link is still open, and flows counts the flow connections not yet closed. */
    ghost predicate Valid()
      reads this, links, openFlows
    {
      && (forall l :: l in links ==> !l.done)
      && (forall f :: f in openFlows ==> !f.done)
      && flows == |openFlows|
    }

    constructor (now: Time)
      ensures Valid() && links == {} && openFlows == {} && !up && since == now
    {
      links, up, since, flows, openFlows := {}, false, now, 0, {};
    }

    method NewLink(now: Time) returns (l: LinkConn)
      requires Valid()
      modifies this`links
      ensures Valid() && fresh(l) && links == old(links) + {l} && l.openedAt == now && l.lastRead == 0
    {
      l := new LinkConn(now);
      links := links + {l};
    }

    method CloseLink(l: LinkConn)
      requires Valid()
      modifies this`links, l`done, l`socketClosed
      ensures Valid() && links == (if old(l.done) then old(links) else old(links) - {l})
      ensures l.done && l.socketClosed
    {
      if !l.done {
        l.done := true;
        links := links - {l};
      }
      l.socketClosed := true;
    }

    method OpenFlow() returns (f: FlowConn)
      requires Valid()
      modifies this`flows, this`openFlows
      ensures Valid() && fresh(f) && openFlows == old(openFlows) + {f}
    {
      f := new FlowConn();
      flows := flows + 1;
      openFlows := openFlows + {f};
    }

    /** Closing a flow twice counts once. */
    method CloseFlow(f: FlowConn)
      requires Valid() && (!f.done ==> f in openFlows)
      modifies this`flows, this`openFlows, f
      ensures Valid() && f.done && openFlows == old(openFlows) - {f}
    {
      if !f.done {
        f.done := true;
        flows := flows - 1;
        openFlows := openFlows - {f};
      }
    }

    /** One refresh with nothing else running: the judgement, its time stamp, and what it closes. */
    method Refresh(now: Time)
      requires Valid()
      modifies this`links, this`up, this`since, links
      ensures Valid()
      ensures up <==> exists l :: l in old(links) && old(l.Up(now))
      ensures since == if up == old(up) then old(since) else now
      ensures links == set l | l in old(links) && !old(l.Dead(now))
      ensures forall l :: l in old(links) ==> l.lastRead == old(l.lastRead)
      ensures forall l :: l in old(links) ==> l.socketClosed == (old(l.socketClosed) || old(l.Dead(now)))
    {
      var dead, isUp := Judge(now);
      if isUp != up {
        up, since := isUp, now;
      }
      CloseAll(dead);
    }

    method Judge(now: Time) returns (dead: set<LinkConn>, isUp: bool)
      ensures dead == set l | l in links && l.Dead(now)
      ensures isUp <==> exists l :: l in links && l.Up(now)
    {
      dead, isUp := {}, false;
      var todo := links;
      while todo != {}
        invariant todo <= links
        invariant dead == set l | l in links - todo && l.Dead(now)
        invariant isUp <==> exists l :: l in links - todo && l.Up(now)
        decreases todo
      {
        var l :| l in todo;
        var heard := l.lastRead;
        var last := l.openedAt;
        if heard != 0 {
          last := heard;
        }
        if now - last > DEAD_AFTER {
          dead := dead + {l};
        } else if heard != 0 && now - l.openedAt >= UP_AFTER && now - last <= STALE_AFTER {
          isUp := true;
        }
        assert isUp ==> l.Up(now) || exists k :: k in links - todo && k.Up(now);
        todo := todo - {l};
      }
    }

    method CloseAll(dead: set<LinkConn>)
      requires Valid() && dead <= links
      modifies this`links, dead`done, dead`socketClosed
      ensures Valid() && links == old(links) - dead
      ensures forall l :: l in dead ==> l.socketClosed
    {
      var todo := dead;
      while todo != {}
        invariant todo <= dead && links == old(links) - (dead - todo)
        invariant Valid()
        invariant forall l :: l in dead - todo ==> l.socketClosed
        decreases todo
      {
        var l :| l in todo;
        CloseLink(l);
        todo := todo - {l};
      }
    }
  }
}
