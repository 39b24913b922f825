/** The delayed-removal queue of adapter/groups/manager.go: its data, the effect of each
    lock-held region as a function on values, and the queue object itself. */
module RemovalQueue {
  import opened Common

  type Tag = string

  /** What a tag is created as. */
  datatype Kind = Outbound | Group | Endpoint

  /** The registrations of the two managers; `outbounds[t]` tells whether the outbound is a group. */
  datatype Managers = Managers(outbounds: map<Tag, bool>, endpoints: set<Tag>)

  /** `OutboundManager.Outbound` finds the tag; it looks at the endpoints too. */
  predicate Known(m: Managers, tag: Tag) {
    tag in m.outbounds || tag in m.endpoints
  }

  function Created(m: Managers, tag: Tag, kind: Kind): Managers {
    if kind.Endpoint? then m.(endpoints := m.endpoints + {tag}) else m.(outbounds := m.outbounds[tag := kind.Group?])
  }

  datatype Item = Item(tag: Tag, isEndpoint: bool, addedAt: int)

  /** One entry of the connection listing; `open` is `ClosedAt.IsZero()`. */
  datatype Connection = Connection(outbound: Tag, open: bool)

  type Pending = map<Tag, Item>

  // ---- the effect of each region -------------------------------------------------

  function Enqueued(pending: Pending, tag: Tag, isEndpoint: bool, now: int): Pending {
    if tag in pending then pending else pending[tag := Item(tag, isEndpoint, now)]
  }

  function OpenTags(conns: seq<Connection>): set<Tag> {
    set c | c in conns && c.open :: c.outbound
  }

  /** The rule a pass applies to one snapshot entry. */
  predicate Due(item: Item, open: bool, now: int, forceAfter: int) {
    !open || now - item.addedAt > forceAfter
  }

  /** What a pass leaves pending when nothing happens beside it. */
  function Surviving(pending: Pending, open: set<Tag>, clock: Tag -> int, forceAfter: int): Pending {
    map t | t in pending && !Due(pending[t], t in open, clock(t), forceAfter) :: pending[t]
  }

  /** What removing the `doomed` tags leaves of the registrations: each pending one is removed from
      the manager that its item names, and from that one only. */
  function Unregistered(m: Managers, pending: Pending, doomed: set<Tag>): Managers {
    Managers(map t | t in m.outbounds && !(t in doomed && t in pending && !pending[t].isEndpoint) :: m.outbounds[t],
             set t | t in m.endpoints && !(t in doomed && t in pending && pending[t].isEndpoint))
  }

  lemma UnregisteredOneMore(m: Managers, pending: Pending, before: set<Tag>, tag: Tag)
    ensures var held := Unregistered(m, pending, before);
            Unregistered(m, pending, before + {tag})
            == if tag !in pending || tag in before then held
               else if pending[tag].isEndpoint then held.(endpoints := held.endpoints - {tag})
               else held.(outbounds := held.outbounds - {tag})
  {}

  /** What one pass sees: the connection listing, and the clock for each entry. */
  datatype Pass = Pass(conns: seq<Connection>, clock: Tag -> int)

  function AfterPasses(pending: Pending, passes: seq<Pass>, forceAfter: int): Pending {
    if passes == [] then pending else
    var last := passes[|passes| - 1];
    Surviving(AfterPasses(pending, passes[..|passes| - 1], forceAfter), OpenTags(last.conns), last.clock, forceAfter)
  }

  /** Something is still pending after each of the passes before the last of `n`. */
  ghost predicate AllPend(pending: Pending, passes: seq<Pass>, n: nat, forceAfter: int)
    requires n <= |passes|
  {
    forall m :: 1 <= m < n ==> AfterPasses(pending, passes[..m], forceAfter) != map[]
  }

  lemma OnePassMore(pending: Pending, passes: seq<Pass>, n: nat, forceAfter: int)
    requires n < |passes|
    ensures AfterPasses(pending, passes[..n + 1], forceAfter)
         == Surviving(AfterPasses(pending, passes[..n], forceAfter), OpenTags(passes[n].conns), passes[n].clock, forceAfter)
    ensures n == 0 ==> AfterPasses(pending, passes[..n], forceAfter) == pending
    ensures 1 <= n && AllPend(pending, passes, n, forceAfter) && AfterPasses(pending, passes[..n], forceAfter) != map[] ==>
              AllPend(pending, passes, n + 1, forceAfter)
  {
    assert passes[..n + 1][..n] == passes[..n];
  }

  // ---- the objects ---------------------------------------------------------------

  /** The outbound and endpoint managers. */
  class Registry {
    var held: Managers

    constructor (held: Managers)
      ensures this.held == held
    {
      this.held := held;
    }

    /** `OutboundManager.Remove` */
    method RemoveOutbound(tag: Tag)
      modifies this
      ensures held == old(held).(outbounds := old(held).outbounds - {tag})
    {
      held := held.(outbounds := held.outbounds - {tag});
    }

    /** `EndpointManager.Remove` */
    method RemoveEndpoint(tag: Tag)
      modifies this
      ensures held == old(held).(endpoints := old(held).endpoints - {tag})
    {
      held := held.(endpoints := held.endpoints - {tag});
    }
  }

  class Queue {
    var pending: Pending
    var running: bool
    var done: bool
    const registry: Registry
    const forceAfter: int

    constructor (registry: Registry, forceAfter: int)
      ensures pending == map[] && !running && !done
      ensures this.registry == registry && this.forceAfter == forceAfter
    {
      pending, running, done := map[], false, false;
      this.registry, this.forceAfter := registry, forceAfter;
    }

    /** Returns whether a new checker was spawned. */
    method Enqueue(tag: Tag, isEndpoint: bool, now: int) returns (spawned: bool)
      modifies this`pending
      ensures old(done) || tag in old(pending) ==> pending == old(pending)
      ensures !old(done) && tag !in old(pending) ==> pending == old(pending)[tag := Item(tag, isEndpoint, now)]
      ensures spawned <==> !done && tag !in old(pending) && !running
    {
      if done || tag in pending {
        return false;
      }
      pending := pending[tag := Item(tag, isEndpoint, now)];
      return !running;
    }

    method Dequeue(tag: Tag)
      modifies this`pending
      ensures pending == old(pending) - {tag}
    {
      pending := pending - {tag};
    }

    /** The compare-and-swap at the head of `checkLoop`. */
    method TryStart() returns (won: bool)
      modifies this`running
      ensures won <==> !old(running)
      ensures running
    {
      won := !running;
      running := true;
    }

    method Close()
      modifies this`done
      ensures done
    {
      done := true;
    }

    /** The first loop of `checkPending`: which snapshot tags have an open connection. */
    static method ListOpen(snapshot: Pending, conns: seq<Connection>) returns (hasConns: map<Tag, bool>)
      ensures hasConns.Keys <= snapshot.Keys
      ensures forall t :: t in hasConns && hasConns[t] <==>
                t in snapshot && exists c :: c in conns && c.open && c.outbound == t
    {
      hasConns := map[];
      for i := 0 to |conns|
        invariant hasConns.Keys <= snapshot.Keys
        invariant forall t :: t in hasConns && hasConns[t] <==> t in snapshot && t in OpenTags(conns[..i])
      {
        assert conns[..i + 1] == conns[..i] + [conns[i]];
        var c := conns[i];
        if c.outbound in snapshot {
          var seen := c.outbound in hasConns && hasConns[c.outbound];
          hasConns := hasConns[c.outbound := seen || c.open];
        }
        assert OpenTags(conns[..i + 1]) == OpenTags(conns[..i]) + (if c.open then {c.outbound} else {});
      }
      assert conns[..|conns|] == conns;
    }

    /** The second loop: the snapshot is visited in any order, and the clock is read anew
        for each entry (`clock(t)` is the reading when the loop reaches `t`). */
    method Decide(snapshot: Pending, hasConns: map<Tag, bool>, clock: Tag -> int) returns (toRemove: seq<Tag>)
      ensures forall i, j :: 0 <= i < j < |toRemove| ==> toRemove[i] != toRemove[j]
      ensures forall t :: t in toRemove <==>
                t in snapshot && (!(t in hasConns && hasConns[t]) || clock(t) - snapshot[t].addedAt > forceAfter)
    {
      toRemove := [];
      var todo := snapshot.Keys;
      while todo != {}
        invariant todo <= snapshot.Keys
        invariant forall i, j :: 0 <= i < j < |toRemove| ==> toRemove[i] != toRemove[j]
        invariant forall t :: t in toRemove <==>
                    t in snapshot && t !in todo
                    && (!(t in hasConns && hasConns[t]) || clock(t) - snapshot[t].addedAt > forceAfter)
      {
        var tag :| tag in todo;
        todo := todo - {tag};
        if !(tag in hasConns && hasConns[tag]) || clock(tag) - snapshot[tag].addedAt > forceAfter {
          toRemove := toRemove + [tag];
        }
      }
    }

    /** The locked region that ends a pass. It re-checks only that the tag is still pending,
        and uses the item that is pending now, not the snapshot's. */
    method Commit(toRemove: seq<Tag>)
      modifies this`pending, registry
      ensures pending == old(pending) - Range(toRemove)
      ensures registry.held == Unregistered(old(registry.held), old(pending), Range(toRemove))
      ensures forall t :: t in registry.held.outbounds <==>
                t in old(registry.held).outbounds && !(t in toRemove && t in old(pending) && !old(pending)[t].isEndpoint)
      ensures forall t :: t in registry.held.endpoints <==>
                t in old(registry.held).endpoints && !(t in toRemove && t in old(pending) && old(pending)[t].isEndpoint)
      ensures forall t :: t in registry.held.outbounds ==> registry.held.outbounds[t] == old(registry.held).outbounds[t]
    {
      for i := 0 to |toRemove|
        invariant pending == old(pending) - Range(toRemove[..i])
        invariant registry.held == Unregistered(old(registry.held), old(pending), Range(toRemove[..i]))
      {
        RangeOneMore(toRemove, i);
        UnregisteredOneMore(old(registry.held), old(pending), Range(toRemove[..i]), toRemove[i]);
        var tag := toRemove[i];
        if tag in pending {
          if pending[tag].isEndpoint {
            registry.RemoveEndpoint(tag);
          } else {
            registry.RemoveOutbound(tag);
          }
          pending := pending - {tag};
        }
      }
      assert toRemove[..|toRemove|] == toRemove;
    }

    /** A whole pass with nothing interleaved. */
    method CheckPending(conns: seq<Connection>, clock: Tag -> int)
      modifies this`pending, registry
      ensures pending == Surviving(old(pending), OpenTags(conns), clock, forceAfter)
      ensures forall t :: t in pending <==>
                && t in old(pending) && (exists c :: c in conns && c.open && c.outbound == t)
                && clock(t) - old(pending)[t].addedAt <= forceAfter
      ensures forall t :: t in pending ==> pending[t] == old(pending)[t]
      ensures forall t :: t in registry.held.outbounds <==>
                t in old(registry.held).outbounds && !(t in old(pending) && t !in pending && !old(pending)[t].isEndpoint)
      ensures forall t :: t in registry.held.endpoints <==>
                t in old(registry.held).endpoints && !(t in old(pending) && t !in pending && old(pending)[t].isEndpoint)
      ensures forall t :: t in registry.held.outbounds ==> registry.held.outbounds[t] == old(registry.held).outbounds[t]
    {
      var snapshot := pending;
      var hasConns := ListOpen(snapshot, conns);
      var toRemove := Decide(snapshot, hasConns, clock);
      ghost var doomed := Range(toRemove);
      if |toRemove| > 0 {
        Commit(toRemove);
      }
      assert doomed == snapshot.Keys - pending.Keys;
    }

    /** `checkLoop` with nothing interleaved; `passes` are the first pass and the ticks that come. */
    method CheckLoop(passes: seq<Pass>) returns (n: nat)
      requires passes != []
      modifies this`pending, this`running, registry
      ensures old(running) ==> n == 0 && running && pending == old(pending) && registry.held == old(registry.held)
      ensures !old(running) ==>
                && !running && 1 <= n <= |passes| && pending == AfterPasses(old(pending), passes[..n], forceAfter)
                && (pending == map[] || done || n == |passes|)
                && AllPend(old(pending), passes, n, forceAfter)
    {
      var won := TryStart();
      if !won {
        return 0;
      }
      ghost var before := pending;
      OnePassMore(before, passes, 0, forceAfter);
      CheckPending(passes[0].conns, passes[0].clock);
      n := 1;
      while |pending| != 0 && n < |passes|
        invariant running && 1 <= n <= |passes| && pending == AfterPasses(before, passes[..n], forceAfter)
        invariant AllPend(before, passes, n, forceAfter)
        decreases |passes| - n
      {
        var stop: bool :| stop ==> done;   // the select takes either of two ready cases
        if stop {
          break;
        }
        OnePassMore(before, passes, n, forceAfter);
        CheckPending(passes[n].conns, passes[n].clock);
        n := n + 1;
      }
      assert |pending| == 0 ==> pending == map[];
      running := false;
    }
  }
}
