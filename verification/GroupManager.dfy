/** The mutable group manager of adapter/groups/manager.go, running beside the removal queue:
    tags move between groups, the pending map and the managers' registrations. */
module GroupManager {
  import opened Common
  import opened RemovalQueue
  import Q = RemovalProtocol
  import RemovalPass

  type Group = string
  type Members = map<Group, set<Tag>>

  /** How far the one call that holds the manager's mutex has got. */
  datatype Phase =
    | Idle
    | Created(group: Group, tag: Tag)   // `mgr.Create` done, `addToGroup` not yet entered
    | Joined(tag: Tag)                  // `outGroup.Add` done, `dequeue` not yet
    | Left(tag: Tag)                    // `groupObj.Remove` done, `enqueue` not yet

  /** `added` and `raced` are history variables: the tags ever successfully added to a group, and
      the tags that a commit unregistered between their own `Add` and `dequeue` and that have been
      neither created again nor removed from their group since. */
  datatype World = World(
    queue: Q.State, registered: Managers, members: Members, phase: Phase, closed: bool,
    added: set<Tag>, raced: set<Tag>)

  datatype Step =
    | Internal(step: Q.Step)                     // a checker's step, time, or the queue closing
    | Create(group: Group, tag: Tag, kind: Kind)
    | BeginAdd(group: Group, tag: Tag)
    | EndAdd
    | BeginRemove(group: Group, tag: Tag)
    | EndRemove
    | CloseManager

  /** Tells the tags that are never groups themselves. */
  type Leaves = Tag -> bool

  /** A call tests `closed` when it is entered, and the manager may close right after that test:
      so a closed manager does not disable the steps of a call. */
  predicate Enabled(cfg: Q.Config, w: World, step: Step) {
    match step
    case Internal(q) => !q.Enqueue? && !q.Dequeue? && (q.Close? ==> w.closed) && Q.Enabled(cfg, w.queue, q)
    case Create(group, _, _) => w.phase.Idle? && group in w.members
    case BeginAdd(group, tag) => group in w.members && (w.phase.Idle? || w.phase == Created(group, tag))
    case EndAdd => w.phase.Joined?
    case BeginRemove(group, _) => w.phase.Idle? && group in w.members
    case EndRemove => w.phase.Left?
    case CloseManager => true
  }

  predicate In(members: Members, g: Group, t: Tag) {
    g in members && t in members[g]
  }

  /** The single-owner hypothesis, which a caller can check before each call: an add finds the tag
      in no other group. A tag may move from group to group. Besides, a tag is created as a group
      exactly when it is not a leaf, and not while the other manager has it registered. */
  ghost predicate Respects(leaf: Leaves, w: World, step: Step) {
    match step
    case Create(_, tag, kind) =>
      && (kind.Group? <==> !leaf(tag))
      && (if kind.Endpoint? then tag !in w.registered.outbounds else tag !in w.registered.endpoints)
    case BeginAdd(group, tag) => forall g :: In(w.members, g, tag) ==> g == group
    case _ => true
  }

  /** Taking `removed` out of the pending map unregisters `t`. */
  predicate Loses(w: World, removed: set<Tag>, t: Tag) {
    && t in removed && t in w.queue.pending && Known(w.registered, t)
    && (if w.queue.pending[t].isEndpoint then t !in w.registered.outbounds else t !in w.registered.endpoints)
  }

  /** A commit that unregisters a tag between that tag's own `Add` and `dequeue`. */
  predicate Races(cfg: Q.Config, w: World, step: Step)
    requires Enabled(cfg, w, step)
  {
    step.Internal? && step.step.Commit? && w.phase.Joined? && Loses(w, Q.Removed(w.queue, step.step.i), w.phase.tag)
  }

  predicate CanJoin(members: Members, registered: Managers, group: Group, tag: Tag)
    requires group in members
  {
    tag !in members[group] && Known(registered, tag)
  }

  /** A removed tag is scheduled unless it is unknown to the managers or is itself a group. */
  predicate Schedules(registered: Managers, tag: Tag) {
    Known(registered, tag) && !(tag in registered.outbounds && registered.outbounds[tag])
  }

  function Next(cfg: Q.Config, w: World, step: Step): World
    requires Enabled(cfg, w, step)
  {
    match step
    case Internal(q) =>
      var queue := Q.Next(cfg, w.queue, q);
      if q.Commit? then
        var removed := Q.Removed(w.queue, q.i);
        var registered := Unregistered(w.registered, w.queue.pending, removed);
        w.(queue := queue, registered := registered,
           raced := if Races(cfg, w, step) then w.raced + {w.phase.tag} else w.raced)
      else w.(queue := queue)
    case Create(group, tag, kind) =>
      w.(registered := RemovalQueue.Created(w.registered, tag, kind), phase := Created(group, tag), raced := w.raced - {tag})
    case BeginAdd(group, tag) =>
      if CanJoin(w.members, w.registered, group, tag)
      then w.(members := w.members[group := w.members[group] + {tag}], phase := Joined(tag), added := w.added + {tag})
      else w.(phase := Idle)
    case EndAdd =>
      w.(queue := Q.Next(cfg, w.queue, Q.Dequeue(w.phase.tag)), phase := Idle)
    case BeginRemove(group, tag) =>
      if tag in w.members[group]
      then w.(members := w.members[group := w.members[group] - {tag}], phase := Left(tag), raced := w.raced - {tag})
      else w
    case EndRemove =>
      var tag := w.phase.tag;
      if Schedules(w.registered, tag) && !w.queue.done
      then w.(queue := Q.Next(cfg, w.queue, Q.Enqueue(tag, tag in w.registered.endpoints)), phase := Idle)
      else w.(phase := Idle)
    case CloseManager => w.(closed := true)
  }

  ghost predicate Disjoint(members: Members) {
    forall g, h, t :: In(members, g, t) && In(members, h, t) ==> g == h
  }

  ghost predicate InSome(members: Members, t: Tag) {
    exists g :: In(members, g, t)
  }

  ghost predicate InGroup(w: World, t: Tag) {
    InSome(w.members, t)
  }

  predicate IsPending(w: World, t: Tag) {
    t in w.queue.pending
  }

  predicate Gone(w: World, t: Tag) {
    !Known(w.registered, t)
  }

  /** The start: nothing pending, every group's tags registered, and in that group only. */
  ghost predicate Init(leaf: Leaves, w: World) {
    && Q.Init(w.queue) && w.phase.Idle? && !w.closed && w.raced == {} && Disjoint(w.members)
    && (forall g, t :: In(w.members, g, t) ==> Known(w.registered, t) && t in w.added)
    && (forall t :: t in w.added ==> InGroup(w, t))
    && OneManagerEach(leaf, w.registered)
  }

  /** No tag is registered with both managers, and the groups are the tags that are not leaves. */
  ghost predicate OneManagerEach(leaf: Leaves, m: Managers) {
    && (forall t :: t in m.outbounds ==> t !in m.endpoints && (m.outbounds[t] <==> !leaf(t)))
    && (forall t :: t in m.endpoints ==> leaf(t))
  }

  // ---- the three places a tag can be ---------------------------------------------

  predicate ExactlyOne(a: bool, b: bool, c: bool) {
    (a || b || c) && !(a && b) && !(a && c) && !(b && c)
  }

  /** What the call in progress is doing with a tag. */
  datatype Transit = Still | Creating | Adding | Removing

  datatype Spot = Spot(member: bool, pending: bool, gone: bool, raced: bool, transit: Transit)

  function TransitOf(w: World, t: Tag): Transit {
    match w.phase
    case Idle => Still
    case Created(_, tag) => if tag == t then Creating else Still
    case Joined(tag) => if tag == t then Adding else Still
    case Left(tag) => if tag == t then Removing else Still
  }

  ghost function SpotOf(w: World, t: Tag): Spot {
    Spot(InGroup(w, t), IsPending(w, t), Gone(w, t), t in w.raced, TransitOf(w, t))
  }

  /** Where a leaf tag that was once added is, exactly, in every fine-grained state: in one of
      the three places; or, after a race, a member that was unregistered; or in transit. */
  predicate Placed(at: Spot) {
    match at.transit
    case Still => if at.raced then at.member && at.gone && !at.pending else ExactlyOne(at.member, at.pending, at.gone)
    case Creating => !(at.member && at.pending) && !(at.pending && at.gone) && !(at.member && at.gone) && !at.raced
    case Adding => at.member && (at.gone <==> at.raced) && (at.gone ==> !at.pending)
    case Removing => !at.member && !at.pending && !at.raced
  }

  ghost predicate Books(leaf: Leaves, w: World) {
    && Disjoint(w.members)
    && (forall g, t :: In(w.members, g, t) ==> t in w.added)
    && OneManagerEach(leaf, w.registered)
    && (forall t :: IsPending(w, t) ==> leaf(t) && t in w.added)
    && (w.phase.Joined? || w.phase.Left? ==> w.phase.tag in w.added)
    && w.raced <= w.added
    && (w.queue.done ==> w.closed)
  }

  /** Every settled pending tag is registered where its item says, and only there. */
  ghost predicate Reachable(w: World) {
    forall t :: IsPending(w, t) && TransitOf(w, t).Still? ==>
      if w.queue.pending[t].isEndpoint then t in w.registered.endpoints && t !in w.registered.outbounds
      else t in w.registered.outbounds && t !in w.registered.endpoints
  }

  ghost predicate AllPlaced(leaf: Leaves, w: World) {
    forall t :: t in w.added && leaf(t) ==> Placed(SpotOf(w, t))
  }

  ghost predicate Inv(leaf: Leaves, w: World) {
    Books(leaf, w) && (!w.closed ==> Reachable(w) && AllPlaced(leaf, w))
  }

  // ---- each step keeps the places ------------------------------------------------

  lemma InternalKeeps(cfg: Q.Config, leaf: Leaves, w: World, q: Q.Step)
    requires Inv(leaf, w) && Enabled(cfg, w, Internal(q))
    ensures Inv(leaf, Next(cfg, w, Internal(q)))
  {
    if q.Commit? {
      CommitKeeps(cfg, leaf, w, q.i);
    } else {
      var w' := Next(cfg, w, Internal(q));
      CheckerEffect(cfg, w.queue, q);
      StandingKeeps(leaf, w, w');
    }
  }

  /** A checker's step other than a commit leaves the pending map alone. */
  lemma CheckerEffect(cfg: Q.Config, s: Q.State, q: Q.Step)
    requires Q.Enabled(cfg, s, q) && !q.Enqueue? && !q.Dequeue? && !q.Commit?
    ensures Q.Next(cfg, s, q).pending == s.pending && Q.Next(cfg, s, q).done == (s.done || q.Close?)
  {}

  lemma StandingKeeps(leaf: Leaves, w: World, w': World)
    requires Inv(leaf, w) && w' == w.(queue := w'.queue) && w'.queue.pending == w.queue.pending
    requires w'.queue.done ==> w.closed
    ensures Inv(leaf, w')
  {
    forall t ensures SpotOf(w', t) == SpotOf(w, t) {}
  }

  lemma CommitKeeps(cfg: Q.Config, leaf: Leaves, w: World, i: nat)
    requires Inv(leaf, w) && Enabled(cfg, w, Internal(Q.Commit(i)))
    ensures Inv(leaf, Next(cfg, w, Internal(Q.Commit(i))))
  {
    var w' := Next(cfg, w, Internal(Q.Commit(i)));
    var removed := Q.Removed(w.queue, i);
    assert w'.queue.pending == w.queue.pending - removed;
    CommitEffect(leaf, w, w', removed);
  }

  lemma CommitEffect(leaf: Leaves, w: World, w': World, removed: set<Tag>)
    requires Inv(leaf, w) && removed <= w.queue.pending.Keys
    requires w' == w.(queue := w'.queue, registered := Unregistered(w.registered, w.queue.pending, removed), raced := w'.raced)
    requires w'.queue.pending == w.queue.pending - removed && w'.queue.done == w.queue.done
    requires w'.raced == if w.phase.Joined? && Loses(w, removed, w.phase.tag) then w.raced + {w.phase.tag} else w.raced
    ensures Inv(leaf, w')
  {
    forall t ensures InGroup(w', t) == InGroup(w, t) && TransitOf(w', t) == TransitOf(w, t) {}
    if !w.closed {
      forall t | t in w'.added && leaf(t) ensures Placed(SpotOf(w', t)) {
        CommitMoves(w, w', removed, t);
      }
    }
  }

  lemma CommitMoves(w: World, w': World, removed: set<Tag>, t: Tag)
    requires Reachable(w) && Placed(SpotOf(w, t)) && removed <= w.queue.pending.Keys
    requires w' == w.(queue := w'.queue, registered := Unregistered(w.registered, w.queue.pending, removed), raced := w'.raced)
    requires w'.queue.pending == w.queue.pending - removed
    requires w'.raced == if w.phase.Joined? && Loses(w, removed, w.phase.tag) then w.raced + {w.phase.tag} else w.raced
    ensures Placed(SpotOf(w', t))
  {
    assert InGroup(w', t) == InGroup(w, t) && TransitOf(w', t) == TransitOf(w, t);
    assert Gone(w', t) <==> Gone(w, t) || Loses(w, removed, t);
  }

  /** A tag that settles takes a settled spot, and all others stay. `t` is the tag of the call. */
  lemma OneMoves(leaf: Leaves, w: World, w': World, t: Tag)
    requires AllPlaced(leaf, w) && w'.added <= w.added + {t}
    requires forall x :: x != t ==> SpotOf(w', x) == SpotOf(w, x)
    requires t in w'.added && leaf(t) ==> Placed(SpotOf(w', t))
    ensures AllPlaced(leaf, w')
  {}

  lemma CreateKeeps(cfg: Q.Config, leaf: Leaves, w: World, step: Step)
    requires Inv(leaf, w) && Enabled(cfg, w, step) && Respects(leaf, w, step) && step.Create?
    ensures Inv(leaf, Next(cfg, w, step))
  {
    var w' := Next(cfg, w, step);
    forall t ensures InGroup(w', t) == InGroup(w, t) {}
    if !w.closed {
      OneMoves(leaf, w, w', step.tag);
    }
  }

  lemma JoinedMembers(members: Members, group: Group, tag: Tag)
    requires Disjoint(members) && group in members && forall g :: In(members, g, tag) ==> g == group
    ensures var members' := members[group := members[group] + {tag}];
            && Disjoint(members')
            && (forall t :: InSome(members', t) <==> InSome(members, t) || t == tag)
            && (forall g, t :: In(members', g, t) ==> In(members, g, t) || t == tag)
  {
    var members' := members[group := members[group] + {tag}];
    assert forall g, t :: In(members', g, t) <==> In(members, g, t) || (g == group && t == tag);
    assert In(members', group, tag);
    forall t ensures InSome(members', t) <==> InSome(members, t) || t == tag {
      if g :| In(members, g, t) {
        assert In(members', g, t);
      }
    }
  }

  lemma LeftMembers(members: Members, group: Group, tag: Tag)
    requires group in members
    ensures var members' := members[group := members[group] - {tag}];
            && (forall g, t :: In(members', g, t) <==> In(members, g, t) && !(g == group && t == tag))
            && (forall t :: t != tag ==> (InSome(members', t) <==> InSome(members, t)))
            && (InSome(members', tag) <==> exists g :: g != group && In(members, g, tag))
  {
    var members' := members[group := members[group] - {tag}];
    assert forall g, t :: In(members', g, t) <==> In(members, g, t) && !(g == group && t == tag);
    forall t | t != tag ensures InSome(members', t) <==> InSome(members, t) {
      if g :| In(members, g, t) {
        assert In(members', g, t);
      }
    }
    if g :| g != group && In(members, g, tag) {
      assert In(members', g, tag);
    }
  }

  lemma BeginAddKeeps(cfg: Q.Config, leaf: Leaves, w: World, group: Group, tag: Tag)
    requires Inv(leaf, w) && Enabled(cfg, w, BeginAdd(group, tag)) && Respects(leaf, w, BeginAdd(group, tag))
    ensures Inv(leaf, Next(cfg, w, BeginAdd(group, tag)))
  {
    if CanJoin(w.members, w.registered, group, tag) {
      JoinKeeps(leaf, w, Next(cfg, w, BeginAdd(group, tag)), group, tag);
    } else {
      AddFails(leaf, w, group, tag);
    }
  }

  lemma JoinKeeps(leaf: Leaves, w: World, w': World, group: Group, tag: Tag)
    requires Inv(leaf, w) && group in w.members && (w.phase.Idle? || w.phase == Created(group, tag))
    requires CanJoin(w.members, w.registered, group, tag) && forall g :: In(w.members, g, tag) ==> g == group
    requires w' == w.(members := w.members[group := w.members[group] + {tag}], phase := Joined(tag), added := w.added + {tag})
    ensures Inv(leaf, w')
  {
    JoinedMembers(w.members, group, tag);
    if !w.closed {
      assert tag in w.added && leaf(tag) ==> Placed(SpotOf(w, tag));
      OneMoves(leaf, w, w', tag);
    }
  }

  lemma AddFails(leaf: Leaves, w: World, group: Group, tag: Tag)
    requires Inv(leaf, w) && group in w.members && (w.phase.Idle? || w.phase == Created(group, tag))
    requires !CanJoin(w.members, w.registered, group, tag) && forall g :: In(w.members, g, tag) ==> g == group
    ensures Inv(leaf, w.(phase := Idle))
  {
    var w' := w.(phase := Idle);
    assert In(w.members, group, tag) <==> tag in w.members[group];
    if !w.closed {
      assert tag in w.added && leaf(tag) ==> Placed(SpotOf(w, tag));
      OneMoves(leaf, w, w', tag);
    }
  }

  lemma EndAddKeeps(cfg: Q.Config, leaf: Leaves, w: World)
    requires Inv(leaf, w) && Enabled(cfg, w, EndAdd)
    ensures Inv(leaf, Next(cfg, w, EndAdd))
  {
    var w' := Next(cfg, w, EndAdd);
    assert w' == w.(queue := w'.queue, phase := Idle) && w'.queue.pending == w.queue.pending - {w.phase.tag};
    forall t ensures InGroup(w', t) == InGroup(w, t) {}
    if !w.closed {
      assert leaf(w.phase.tag) ==> Placed(SpotOf(w, w.phase.tag));
      OneMoves(leaf, w, w', w.phase.tag);
    }
  }

  lemma BeginRemoveKeeps(cfg: Q.Config, leaf: Leaves, w: World, group: Group, tag: Tag)
    requires Inv(leaf, w) && Enabled(cfg, w, BeginRemove(group, tag))
    ensures Inv(leaf, Next(cfg, w, BeginRemove(group, tag)))
  {
    if tag in w.members[group] {
      LeaveKeeps(leaf, w, Next(cfg, w, BeginRemove(group, tag)), group, tag);
    }
  }

  lemma LeaveKeeps(leaf: Leaves, w: World, w': World, group: Group, tag: Tag)
    requires Inv(leaf, w) && w.phase.Idle? && In(w.members, group, tag)
    requires w' == w.(members := w.members[group := w.members[group] - {tag}], phase := Left(tag), raced := w.raced - {tag})
    ensures Inv(leaf, w')
  {
    LeftMembers(w.members, group, tag);
    assert InGroup(w, tag);
    if !w.closed {
      assert leaf(tag) ==> Placed(SpotOf(w, tag));
      OneMoves(leaf, w, w', tag);
    }
  }

  /** A scheduled tag is inserted into the pending map unless it is already there. */
  lemma ScheduleEffect(cfg: Q.Config, w: World)
    requires Enabled(cfg, w, EndRemove)
    ensures var (tag, pending, w') := (w.phase.tag, w.queue.pending, Next(cfg, w, EndRemove));
            && w' == w.(queue := w'.queue, phase := Idle) && w'.queue.done == w.queue.done
            && w'.queue.pending == if Schedules(w.registered, tag) && !w.queue.done
                                   then Enqueued(pending, tag, tag in w.registered.endpoints, w.queue.now) else pending
  {}

  lemma EndRemoveKeeps(cfg: Q.Config, leaf: Leaves, w: World)
    requires Inv(leaf, w) && Enabled(cfg, w, EndRemove)
    ensures Inv(leaf, Next(cfg, w, EndRemove))
  {
    ScheduleEffect(cfg, w);
    RemovalScheduled(leaf, w, Next(cfg, w, EndRemove));
  }

  lemma RemovalScheduled(leaf: Leaves, w: World, w': World)
    requires Inv(leaf, w) && w.phase.Left? && w' == w.(queue := w'.queue, phase := Idle) && w'.queue.done == w.queue.done
    requires w'.queue.pending == if Schedules(w.registered, w.phase.tag) && !w.queue.done
                                 then Enqueued(w.queue.pending, w.phase.tag, w.phase.tag in w.registered.endpoints, w.queue.now)
                                 else w.queue.pending
    ensures Inv(leaf, w')
  {
    var tag := w.phase.tag;
    forall t ensures InGroup(w', t) == InGroup(w, t) {}
    if !w.closed {
      assert leaf(tag) ==> Placed(SpotOf(w, tag));
      OneMoves(leaf, w, w', tag);
    }
  }

  // ---- whole runs ----------------------------------------------------------------

  ghost predicate Moves(cfg: Q.Config, worlds: seq<World>, steps: seq<Step>, n: nat)
    requires n < |steps| && n + 1 < |worlds|
  {
    Enabled(cfg, worlds[n], steps[n]) && worlds[n + 1] == Next(cfg, worlds[n], steps[n])
  }

  ghost predicate Run(cfg: Q.Config, leaf: Leaves, worlds: seq<World>, steps: seq<Step>) {
    && |worlds| == |steps| + 1
    && Init(leaf, worlds[0])
    && forall n :: 0 <= n < |steps| ==> Moves(cfg, worlds, steps, n)
  }

  lemma StepAt(cfg: Q.Config, leaf: Leaves, worlds: seq<World>, steps: seq<Step>, n: nat)
    requires Run(cfg, leaf, worlds, steps) && n < |steps|
    ensures n + 1 < |worlds| && Enabled(cfg, worlds[n], steps[n]) && worlds[n + 1] == Next(cfg, worlds[n], steps[n])
  {
    assert Moves(cfg, worlds, steps, n);
  }

  ghost predicate SingleOwner(leaf: Leaves, worlds: seq<World>, steps: seq<Step>) {
    |worlds| == |steps| + 1 && forall n :: 0 <= n < |steps| ==> Respects(leaf, worlds[n], steps[n])
  }

  lemma StepKeeps(cfg: Q.Config, leaf: Leaves, w: World, step: Step)
    requires Inv(leaf, w) && Enabled(cfg, w, step) && Respects(leaf, w, step)
    ensures Inv(leaf, Next(cfg, w, step))
  {
    match step
    case Internal(q) => InternalKeeps(cfg, leaf, w, q);
    case Create(_, _, _) => CreateKeeps(cfg, leaf, w, step);
    case BeginAdd(group, tag) => BeginAddKeeps(cfg, leaf, w, group, tag);
    case EndAdd => EndAddKeeps(cfg, leaf, w);
    case BeginRemove(group, tag) => BeginRemoveKeeps(cfg, leaf, w, group, tag);
    case EndRemove => EndRemoveKeeps(cfg, leaf, w);
    case CloseManager =>
  }

  lemma InitHolds(leaf: Leaves, w: World)
    requires Init(leaf, w)
    ensures Inv(leaf, w)
  {
    forall t | t in w.added && leaf(t) ensures Placed(SpotOf(w, t)) {
      var g :| In(w.members, g, t);
    }
  }

  lemma {:induction false} RunKeeps(cfg: Q.Config, leaf: Leaves, worlds: seq<World>, steps: seq<Step>, n: nat)
    requires Run(cfg, leaf, worlds, steps) && SingleOwner(leaf, worlds, steps) && n < |worlds|
    ensures Inv(leaf, worlds[n])
  {
    if n == 0 {
      InitHolds(leaf, worlds[0]);
    } else {
      RunKeeps(cfg, leaf, worlds, steps, n - 1);
      StepAt(cfg, leaf, worlds, steps, n - 1);
      StepKeeps(cfg, leaf, worlds[n - 1], steps[n - 1]);
    }
  }

  /** No commit so far has unregistered a tag between that tag's own `Add` and `dequeue`. */
  ghost predicate Unraced(cfg: Q.Config, worlds: seq<World>, steps: seq<Step>, n: nat)
    requires n <= |steps| && |worlds| == |steps| + 1
  {
    forall k :: 0 <= k < n ==> Enabled(cfg, worlds[k], steps[k]) && !Races(cfg, worlds[k], steps[k])
  }

  lemma {:induction false} NothingRaced(cfg: Q.Config, leaf: Leaves, worlds: seq<World>, steps: seq<Step>, n: nat)
    requires Run(cfg, leaf, worlds, steps) && n < |worlds| && Unraced(cfg, worlds, steps, n)
    ensures worlds[n].raced == {}
  {
    if n > 0 {
      NothingRaced(cfg, leaf, worlds, steps, n - 1);
      StepAt(cfg, leaf, worlds, steps, n - 1);
    }
  }

  /** Partition, with add-then-dequeue atomic against a commit: while the manager is open and no
      call is in progress, every leaf tag ever added is in exactly one of {member of a group,
      pending, unregistered}, a member of one group only, and registered unless it is unregistered.
      Whatever the checkers decided, in every interleaving of their steps. */
  lemma Partition(cfg: Q.Config, leaf: Leaves, worlds: seq<World>, steps: seq<Step>, n: nat, t: Tag)
    requires Run(cfg, leaf, worlds, steps) && SingleOwner(leaf, worlds, steps) && n < |worlds|
    requires Unraced(cfg, worlds, steps, n)
    requires !worlds[n].closed && worlds[n].phase.Idle? && t in worlds[n].added && leaf(t)
    ensures ExactlyOne(InGroup(worlds[n], t), IsPending(worlds[n], t), Gone(worlds[n], t))
    ensures forall g, h :: In(worlds[n].members, g, t) && In(worlds[n].members, h, t) ==> g == h
    ensures InGroup(worlds[n], t) || IsPending(worlds[n], t) ==> Known(worlds[n].registered, t)
  {
    RunKeeps(cfg, leaf, worlds, steps, n);
    NothingRaced(cfg, leaf, worlds, steps, n);
    assert Placed(SpotOf(worlds[n], t));
  }

  /** Step `k` is a commit that unregisters `t` inside its own add. */
  ghost predicate RacesAt(cfg: Q.Config, worlds: seq<World>, steps: seq<Step>, k: nat, t: Tag)
    requires |worlds| == |steps| + 1
  {
    k < |steps| && Enabled(cfg, worlds[k], steps[k]) && Races(cfg, worlds[k], steps[k]) && worlds[k].phase.tag == t
  }

  /** Step `k` creates `t` again or removes it from its group. */
  predicate Heals(worlds: seq<World>, steps: seq<Step>, k: nat, t: Tag)
    requires k < |steps| && k < |worlds|
  {
    || (steps[k].Create? && steps[k].tag == t)
    || (steps[k].BeginRemove? && steps[k].tag == t && In(worlds[k].members, steps[k].group, t))
  }

  ghost predicate Unhealed(cfg: Q.Config, worlds: seq<World>, steps: seq<Step>, k: nat, n: nat, t: Tag)
    requires |worlds| == |steps| + 1 && n < |worlds|
  {
    k < n && RacesAt(cfg, worlds, steps, k, t) && forall m :: k < m < n ==> !Heals(worlds, steps, m, t)
  }

  lemma RacedStepAt(cfg: Q.Config, leaf: Leaves, worlds: seq<World>, steps: seq<Step>, n: nat, t: Tag)
    requires Run(cfg, leaf, worlds, steps) && n < |steps|
    ensures t in worlds[n + 1].raced <==>
            RacesAt(cfg, worlds, steps, n, t) || (t in worlds[n].raced && !Heals(worlds, steps, n, t))
  {
    StepAt(cfg, leaf, worlds, steps, n);
  }

  lemma {:induction false} RacedMeans(cfg: Q.Config, leaf: Leaves, worlds: seq<World>, steps: seq<Step>, n: nat, t: Tag)
    requires Run(cfg, leaf, worlds, steps) && n < |worlds|
    ensures t in worlds[n].raced <==> exists k :: Unhealed(cfg, worlds, steps, k, n, t)
  {
    if n > 0 {
      var p: nat := n - 1;
      RacedMeans(cfg, leaf, worlds, steps, p, t);
      RacedStepAt(cfg, leaf, worlds, steps, p, t);
      if t in worlds[n].raced {
        if RacesAt(cfg, worlds, steps, p, t) {
          assert Unhealed(cfg, worlds, steps, p, n, t);
        } else {
          var k: nat :| Unhealed(cfg, worlds, steps, k, p, t);
          assert Unhealed(cfg, worlds, steps, k, n, t);
        }
      } else {
        forall k: nat | Unhealed(cfg, worlds, steps, k, n, t) ensures false {
          assert k < p ==> Unhealed(cfg, worlds, steps, k, p, t);
        }
      }
    }
  }

  /** Partition of the code's own steps, in every fine-grained interleaving and in the middle of
      calls: a leaf tag that is not in transit is in exactly one of the three places if and only if
      no commit has unregistered it inside its own add without its having been created again or
      removed since; otherwise it is an unregistered member. */
  lemma WeakPartition(cfg: Q.Config, leaf: Leaves, worlds: seq<World>, steps: seq<Step>, n: nat, t: Tag)
    requires Run(cfg, leaf, worlds, steps) && SingleOwner(leaf, worlds, steps) && n < |worlds|
    requires !worlds[n].closed && t in worlds[n].added && leaf(t) && TransitOf(worlds[n], t).Still?
    ensures ExactlyOne(InGroup(worlds[n], t), IsPending(worlds[n], t), Gone(worlds[n], t))
            <==> forall k :: !Unhealed(cfg, worlds, steps, k, n, t)
    ensures (exists k :: Unhealed(cfg, worlds, steps, k, n, t)) ==>
              InGroup(worlds[n], t) && Gone(worlds[n], t) && !IsPending(worlds[n], t)
  {
    RunKeeps(cfg, leaf, worlds, steps, n);
    RacedMeans(cfg, leaf, worlds, steps, n, t);
    assert Placed(SpotOf(worlds[n], t));
  }

  /** Steps `m` to `n` are one add of `t` that joined, from its `Add` to its `dequeue`. */
  ghost predicate AddOf(worlds: seq<World>, steps: seq<Step>, m: nat, n: nat, t: Tag)
    requires |worlds| == |steps| + 1
  {
    && m < n < |steps| && steps[m].BeginAdd? && steps[m].tag == t
    && steps[m].group in worlds[m].members && CanJoin(worlds[m].members, worlds[m].registered, steps[m].group, t)
    && steps[n].EndAdd? && forall k :: m < k < n ==> !steps[k].EndAdd?
  }

  lemma JoinAt(cfg: Q.Config, leaf: Leaves, worlds: seq<World>, steps: seq<Step>, m: nat, n: nat, t: Tag)
    requires Run(cfg, leaf, worlds, steps) && AddOf(worlds, steps, m, n, t)
    ensures worlds[m + 1].phase == Joined(t) && In(worlds[m + 1].members, steps[m].group, t) && Known(worlds[m + 1].registered, t)
  {
    StepAt(cfg, leaf, worlds, steps, m);
  }

  lemma JoinedStepAt(cfg: Q.Config, leaf: Leaves, worlds: seq<World>, steps: seq<Step>, k: nat, t: Tag)
    requires Run(cfg, leaf, worlds, steps) && k < |steps| && worlds[k].phase == Joined(t) && !steps[k].EndAdd?
    ensures worlds[k + 1].phase == Joined(t) && worlds[k + 1].members == worlds[k].members
    ensures Known(worlds[k + 1].registered, t) <==> Known(worlds[k].registered, t) && !RacesAt(cfg, worlds, steps, k, t)
  {
    StepAt(cfg, leaf, worlds, steps, k);
  }

  /** Inside an add the tag stays a member, and stays registered exactly while no commit races. */
  lemma {:induction false} InsideAdd(cfg: Q.Config, leaf: Leaves, worlds: seq<World>, steps: seq<Step>, m: nat, k: nat, n: nat, t: Tag)
    requires Run(cfg, leaf, worlds, steps) && AddOf(worlds, steps, m, n, t) && m < k <= n
    ensures worlds[k].phase == Joined(t) && In(worlds[k].members, steps[m].group, t)
    ensures Known(worlds[k].registered, t) <==> forall e :: m < e < k ==> !RacesAt(cfg, worlds, steps, e, t)
  {
    if k == m + 1 {
      JoinAt(cfg, leaf, worlds, steps, m, n, t);
    } else {
      InsideAdd(cfg, leaf, worlds, steps, m, k - 1, n, t);
      assert !steps[k - 1].EndAdd?;
      JoinedStepAt(cfg, leaf, worlds, steps, k - 1, t);
    }
  }

  /** The race is exactly what breaks an add, whatever else happens inside it and to other tags: an
      add that joined ends with its tag in exactly one place if and only if none of the steps inside
      it was a commit that unregistered the tag. */
  lemma RaceBreaks(cfg: Q.Config, leaf: Leaves, worlds: seq<World>, steps: seq<Step>, m: nat, n: nat, t: Tag)
    requires Run(cfg, leaf, worlds, steps) && AddOf(worlds, steps, m, n, t)
    ensures ExactlyOne(InGroup(worlds[n + 1], t), IsPending(worlds[n + 1], t), Gone(worlds[n + 1], t))
            <==> forall k :: m < k < n ==> !RacesAt(cfg, worlds, steps, k, t)
  {
    InsideAdd(cfg, leaf, worlds, steps, m, n, n, t);
    StepAt(cfg, leaf, worlds, steps, n);
    assert In(worlds[n + 1].members, steps[m].group, t);
  }

  /** Without the single-owner hypothesis. A removal of `t` from `g` that has got as far as its
      scheduling, whatever the checkers did meanwhile, leaves `t` pending, and it leaves it a member
      as well if and only if another group held it when the removal began. */
  lemma RemovedButMember(cfg: Q.Config, w: World, g: Group, t: Tag, w1: World)
    requires Enabled(cfg, w, BeginRemove(g, t)) && In(w.members, g, t)
    requires w1.phase == Left(t) && w1.members == Next(cfg, w, BeginRemove(g, t)).members
    requires Schedules(w1.registered, t) && !w1.queue.done
    ensures var w' := Next(cfg, w1, EndRemove);
            IsPending(w', t) && !Gone(w', t) && (InGroup(w', t) <==> exists h :: h != g && In(w.members, h, t))
  {
    var w' := Next(cfg, w1, EndRemove);
    LeftMembers(w.members, g, t);
    ScheduleEffect(cfg, w1);
    assert w'.members == w.members[g := w.members[g] - {t}];
  }

  /** Without the other half of it: a pending tag that no group holds is, after the commit that takes
      it out of the pending map, in exactly one of the three places if and only if the manager that
      its item names was the only one to have it registered. */
  lemma OtherManagerKeeps(cfg: Q.Config, w: World, i: nat, t: Tag)
    requires Enabled(cfg, w, Internal(Q.Commit(i))) && t in Q.Removed(w.queue, i) && !InGroup(w, t) && !Gone(w, t)
    ensures var w' := Next(cfg, w, Internal(Q.Commit(i)));
            && !IsPending(w', t) && !InGroup(w', t)
            && (ExactlyOne(InGroup(w', t), IsPending(w', t), Gone(w', t))
                <==> if w.queue.pending[t].isEndpoint then t !in w.registered.outbounds else t !in w.registered.endpoints)
  {}

  /** A tag that is an endpoint stays one until a commit removes it. */
  lemma EndpointStepAt(cfg: Q.Config, leaf: Leaves, worlds: seq<World>, steps: seq<Step>, n: nat, t: Tag)
    requires Run(cfg, leaf, worlds, steps) && n < |steps| && t in worlds[n].registered.endpoints
    requires steps[n].Internal? && steps[n].step.Commit? ==> t !in worlds[n].queue.pending
    ensures t in worlds[n + 1].registered.endpoints
  {
    StepAt(cfg, leaf, worlds, steps, n);
  }

  lemma {:induction false} EndpointStays(cfg: Q.Config, leaf: Leaves, worlds: seq<World>, steps: seq<Step>, m: nat, n: nat, t: Tag)
    requires Run(cfg, leaf, worlds, steps) && m < n < |worlds| && steps[m].Create? && steps[m].tag == t && steps[m].kind == Endpoint
    requires forall k :: m < k < n && steps[k].Internal? && steps[k].step.Commit? ==> t !in worlds[k].queue.pending
    ensures t in worlds[n].registered.endpoints
  {
    if m == n - 1 {
      StepAt(cfg, leaf, worlds, steps, m);
    } else {
      EndpointStays(cfg, leaf, worlds, steps, m, n - 1, t);
      EndpointStepAt(cfg, leaf, worlds, steps, n - 1, t);
    }
  }

  /** A tag created as an endpoint, and not pending at any commit since, is scheduled for removal from
      the endpoint manager when it leaves its group. */
  lemma EndpointScheduled(cfg: Q.Config, leaf: Leaves, worlds: seq<World>, steps: seq<Step>, m: nat, n: nat, t: Tag)
    requires Run(cfg, leaf, worlds, steps) && SingleOwner(leaf, worlds, steps) && m < n < |steps|
    requires steps[m].Create? && steps[m].tag == t && steps[m].kind == Endpoint
    requires forall k :: m < k < n && steps[k].Internal? && steps[k].step.Commit? ==> t !in worlds[k].queue.pending
    requires !worlds[n].closed && worlds[n].phase == Left(t) && steps[n].EndRemove?
    ensures t in worlds[n + 1].queue.pending && worlds[n + 1].queue.pending[t].isEndpoint
  {
    EndpointStays(cfg, leaf, worlds, steps, m, n, t);
    RunKeeps(cfg, leaf, worlds, steps, n);
    assert Placed(SpotOf(worlds[n], t));
    StepAt(cfg, leaf, worlds, steps, n);
    ScheduleEffect(cfg, worlds[n]);
  }

  // ---- the queue inside the world ------------------------------------------------

  /** What a step of the world is for the queue. */
  function Along(w: World, step: Step): Q.Step {
    match step
    case Internal(q) => q
    case EndAdd => if w.phase.Joined? then Q.Dequeue(w.phase.tag) else Q.Elsewhere
    case EndRemove =>
      if w.phase.Left? && Schedules(w.registered, w.phase.tag) && !w.queue.done
      then Q.Enqueue(w.phase.tag, w.phase.tag in w.registered.endpoints) else Q.Elsewhere
    case _ => Q.Elsewhere
  }

  lemma QueueFollows(cfg: Q.Config, w: World, step: Step)
    requires Enabled(cfg, w, step)
    ensures Q.Enabled(cfg, w.queue, Along(w, step)) && Next(cfg, w, step).queue == Q.Next(cfg, w.queue, Along(w, step))
  {}

  function Queues(worlds: seq<World>): seq<Q.State> {
    seq(|worlds|, n requires 0 <= n < |worlds| => worlds[n].queue)
  }

  function Alongs(worlds: seq<World>, steps: seq<Step>): seq<Q.Step>
    requires |worlds| == |steps| + 1
  {
    seq(|steps|, n requires 0 <= n < |steps| => Along(worlds[n], steps[n]))
  }

  /** A run of the whole system is, step by step, a run of the queue's own machine: so whatever is
      proved of the queue's runs holds here. */
  lemma QueueRuns(cfg: Q.Config, leaf: Leaves, worlds: seq<World>, steps: seq<Step>)
    requires Run(cfg, leaf, worlds, steps)
    ensures Q.Run(cfg, Queues(worlds), Alongs(worlds, steps))
  {
    forall n | 0 <= n < |steps| ensures Q.Moves(cfg, Queues(worlds), Alongs(worlds, steps), n) {
      StepAt(cfg, leaf, worlds, steps, n);
      QueueFollows(cfg, worlds[n], steps[n]);
    }
  }

  /** One worker, no lost work and the age bound, in the whole system. */
  lemma QueueKeeps(cfg: Q.Config, leaf: Leaves, worlds: seq<World>, steps: seq<Step>, n: nat)
    requires Run(cfg, leaf, worlds, steps) && n < |worlds|
    ensures var q := worlds[n].queue;
            Q.OneWorker(q) && Q.WorkCovered(q) && Q.NoWindow(cfg, q) && Q.AllBacked(cfg, q) && Q.InTime(cfg, q)
  {
    QueueRuns(cfg, leaf, worlds, steps);
    Q.RunKeeps(cfg, Queues(worlds), Alongs(worlds, steps), n);
  }

  /** A step unregisters a tag only by a commit, which finds it pending with the matching kind. */
  lemma UnregistersAt(cfg: Q.Config, leaf: Leaves, worlds: seq<World>, steps: seq<Step>, j: nat, t: Tag)
    requires Run(cfg, leaf, worlds, steps) && j < |steps|
    requires Known(worlds[j].registered, t) && !Known(worlds[j + 1].registered, t)
    ensures steps[j].Internal? && steps[j].step.Commit? && Q.Enabled(cfg, worlds[j].queue, steps[j].step)
    ensures Loses(worlds[j], Q.Removed(worlds[j].queue, steps[j].step.i), t)
  {
    StepAt(cfg, leaf, worlds, steps, j);
  }

  /** Justified unregistration, over all runs of the whole system: when a tag stops being registered
      at step `j`, that step is the commit of a pass that took its snapshot at `k`, listed the
      connections at `l` and examined the tag at `d`; the tag was pending at `k` and is at `j`, and
      at `d` it had no open connection in that listing or was overdue. */
  lemma JustifiedUnregistration(cfg: Q.Config, leaf: Leaves, worlds: seq<World>, steps: seq<Step>, j: nat, t: Tag)
    returns (i: nat, conns: seq<Connection>, k: nat, l: nat, d: nat)
    requires Run(cfg, leaf, worlds, steps) && j < |steps|
    requires Known(worlds[j].registered, t) && !Known(worlds[j + 1].registered, t)
    ensures k < l < d < j && steps[j] == Internal(Q.Commit(i)) && steps[k] == Internal(Q.Snapshot(i))
    ensures steps[l] == Internal(Q.List(i, conns)) && steps[d] == Internal(Q.Decide(i, t))
    ensures t in worlds[k].queue.pending && t in worlds[j].queue.pending
    ensures if worlds[j].queue.pending[t].isEndpoint then t in worlds[j].registered.endpoints else t in worlds[j].registered.outbounds
    ensures (forall c :: c in conns && c.open ==> c.outbound != t)
            || worlds[d].queue.now - worlds[k].queue.pending[t].addedAt > cfg.forceAfter
  {
    UnregistersAt(cfg, leaf, worlds, steps, j, t);
    QueueRuns(cfg, leaf, worlds, steps);
    k, l, d := RemovedBecause(cfg, Queues(worlds), Alongs(worlds, steps), j, t);
    i, conns := steps[j].step.i, Alongs(worlds, steps)[l].conns;
  }

  lemma RemovedBecause(cfg: Q.Config, states: seq<Q.State>, steps: seq<Q.Step>, j: nat, t: Tag) returns (k: nat, l: nat, d: nat)
    requires Q.Run(cfg, states, steps) && RemovalPass.Committing(states, steps, j) && t in Q.Removed(states[j], steps[j].i)
    ensures k < l < d < j && steps[k] == Q.Snapshot(steps[j].i) && steps[l].List? && steps[l].i == steps[j].i
    ensures steps[d] == Q.Decide(steps[j].i, t) && t in states[k].pending && t in states[j].pending
    ensures (forall c :: c in steps[l].conns && c.open ==> c.outbound != t)
            || states[d].now - states[k].pending[t].addedAt > cfg.forceAfter
  {
    k, l := RemovalPass.JustifiedRemoval(cfg, states, steps, j);
    d :| RemovalPass.DecidedAt(cfg, states, steps, k, l, d, j, t);
  }

  // ---- the race happens ----------------------------------------------------------

  lemma Extend(cfg: Q.Config, leaf: Leaves, worlds: seq<World>, steps: seq<Step>, step: Step)
    returns (worlds': seq<World>, steps': seq<Step>)
    requires Run(cfg, leaf, worlds, steps) && SingleOwner(leaf, worlds, steps)
    requires Enabled(cfg, Last(worlds), step) && Respects(leaf, Last(worlds), step)
    ensures Run(cfg, leaf, worlds', steps') && SingleOwner(leaf, worlds', steps')
    ensures worlds' == worlds + [Next(cfg, Last(worlds), step)]
    ensures Last(worlds') == Next(cfg, Last(worlds), step)
  {
    worlds', steps' := worlds + [Next(cfg, Last(worlds), step)], steps + [step];
    forall n | 0 <= n < |steps'|
      ensures Moves(cfg, worlds', steps', n) && Respects(leaf, worlds'[n], steps'[n])
    {
      if n < |steps| {
        StepAt(cfg, leaf, worlds, steps, n);
        assert worlds'[n] == worlds[n] && worlds'[n + 1] == worlds[n + 1];
      }
    }
  }

  /** With every hypothesis but the atomicity, a run of the code's own steps ends with the manager
      idle and open and a tag that is a member of its group and unregistered. */
  lemma RaceHappens(cfg: Q.Config, leaf: Leaves) returns (worlds: seq<World>, steps: seq<Step>)
    requires leaf("a")
    ensures Run(cfg, leaf, worlds, steps) && SingleOwner(leaf, worlds, steps)
    ensures var w := Last(worlds);
            !w.closed && w.phase.Idle? && "a" in w.added && InGroup(w, "a") && Gone(w, "a")
  {
    worlds, steps := ScheduleTag(cfg, leaf);
    worlds, steps := DoomTag(cfg, leaf, worlds, steps);
    var w := Last(worlds);
    worlds, steps := Extend(cfg, leaf, worlds, steps, BeginAdd("g", "a"));
    assert Last(worlds).queue == w.queue && Last(worlds).phase == Joined("a");
    worlds, steps := Extend(cfg, leaf, worlds, steps, Internal(Q.Commit(0)));
    assert !Known(Last(worlds).registered, "a") && "a" in Last(worlds).members["g"];
    worlds, steps := Extend(cfg, leaf, worlds, steps, EndAdd);
    assert In(Last(worlds).members, "g", "a");
  }

  /** A member is removed from its group and becomes pending. */
  lemma ScheduleTag(cfg: Q.Config, leaf: Leaves) returns (worlds: seq<World>, steps: seq<Step>)
    requires leaf("a")
    ensures Run(cfg, leaf, worlds, steps) && SingleOwner(leaf, worlds, steps)
    ensures Last(worlds) == World(
              Q.State(map["a" := Item("a", false, 0)], false, false, [Q.Checker(Q.Spawned, 0)], 0, {}),
              Managers(map["a" := false], {}), map["g" := {"a"} - {"a"}], Idle, false, {"a"}, {})
  {
    worlds, steps := [World(Q.State(map[], false, false, [], 0, {}), Managers(map["a" := false], {}), map["g" := {"a"}],
                            Idle, false, {"a"}, {})], [];
    assert In(worlds[0].members, "g", "a");
    worlds, steps := Extend(cfg, leaf, worlds, steps, BeginRemove("g", "a"));
    var nobody: set<Tag> := {};
    assert {"a"} - {"a"} == nobody;
    worlds, steps := Extend(cfg, leaf, worlds, steps, EndRemove);
    assert Last(worlds).queue.checkers == [Q.Checker(Q.Spawned, 0)];
  }

  /** The spawned checker takes its snapshot, finds no connection, and dooms the tag. */
  lemma DoomTag(cfg: Q.Config, leaf: Leaves, before: seq<World>, beforeSteps: seq<Step>)
    returns (worlds: seq<World>, steps: seq<Step>)
    requires Run(cfg, leaf, before, beforeSteps) && SingleOwner(leaf, before, beforeSteps)
    requires var w := Last(before);
             w.queue == Q.State(map["a" := Item("a", false, 0)], false, false, [Q.Checker(Q.Spawned, 0)], 0, {})
    ensures Run(cfg, leaf, worlds, steps) && SingleOwner(leaf, worlds, steps)
    ensures var (w, w') := (Last(before), Last(worlds));
            && w' == w.(queue := w'.queue) && w'.queue.pending == w.queue.pending && |w'.queue.checkers| == 1
            && w'.queue.checkers[0].pc.Deciding? && w'.queue.checkers[0].pc.todo == {}
            && w'.queue.checkers[0].pc.doomed == {"a"}
  {
    worlds, steps := Extend(cfg, leaf, before, beforeSteps, Internal(Q.Cas(0)));
    worlds, steps := Extend(cfg, leaf, worlds, steps, Internal(Q.Snapshot(0)));
    var pending := Last(before).queue.pending;
    var due := cfg.pollInterval;
    assert Last(worlds).queue.checkers == [Q.Checker(Q.Listing(pending), due)];
    worlds, steps := DoomListed(cfg, leaf, worlds, steps, due);
  }

  lemma DoomListed(cfg: Q.Config, leaf: Leaves, before: seq<World>, beforeSteps: seq<Step>, due: int)
    returns (worlds: seq<World>, steps: seq<Step>)
    requires Run(cfg, leaf, before, beforeSteps) && SingleOwner(leaf, before, beforeSteps)
    requires var q := Last(before).queue;
             q.pending.Keys == {"a"} && q.checkers == [Q.Checker(Q.Listing(q.pending), due)]
    ensures Run(cfg, leaf, worlds, steps) && SingleOwner(leaf, worlds, steps)
    ensures var (w, w') := (Last(before), Last(worlds));
            && w' == w.(queue := w'.queue) && w'.queue.pending == w.queue.pending && |w'.queue.checkers| == 1
            && w'.queue.checkers[0].pc.Deciding? && w'.queue.checkers[0].pc.todo == {}
            && w'.queue.checkers[0].pc.doomed == {"a"}
  {
    worlds, steps := Extend(cfg, leaf, before, beforeSteps, Internal(Q.List(0, [])));
    worlds, steps := Extend(cfg, leaf, worlds, steps, Internal(Q.Decide(0, "a")));
  }

  // ---- the manager object --------------------------------------------------------

  datatype Outcome = Done | ManagerClosed | NoSuchGroup | CreateFailed | AddFailed | RemoveFailed

  class MutableGroupManager {
    var groups: Members
    var closed: bool
    const queue: Queue

    constructor (groups: Members, queue: Queue)
      ensures this.groups == groups && !closed && this.queue == queue
    {
      this.groups, closed, this.queue := groups, false, queue;
    }

    /** `w` shows this manager, its queue and its registrations, between two calls. */
    ghost predicate Shows(w: World)
      reads this, queue, queue.registry
    {
      && w.queue.pending == queue.pending && w.queue.running == queue.running && w.queue.done == queue.done
      && w.registered == queue.registry.held && w.members == groups && w.closed == closed && w.phase.Idle?
    }

    method Close()
      modifies this`closed, queue`done
      ensures closed && queue.done == (old(queue.done) || !old(closed))
    {
      if closed {
        return;
      }
      closed := true;
      queue.Close();
    }

    /** `w` stands for the state before the call; the call's steps then follow one another. */
    method AddToGroup(group: Group, tag: Tag, ghost cfg: Q.Config, ghost w: World) returns (r: Outcome)
      requires Shows(w)
      modifies this`groups, queue`pending
      ensures r.ManagerClosed? <==> old(closed)
      ensures r.NoSuchGroup? <==> !old(closed) && group !in old(groups)
      ensures r.AddFailed? <==>
                && !old(closed) && group in old(groups)
                && (tag in old(groups)[group]
                    || (tag !in queue.registry.held.outbounds && tag !in queue.registry.held.endpoints))
      ensures !r.CreateFailed? && !r.RemoveFailed?
      ensures Shows(if r.Done? then Next(cfg, Next(cfg, w, BeginAdd(group, tag)), EndAdd) else w)
      ensures r.Done? ==> tag !in old(groups)[group] && groups == old(groups)[group := old(groups)[group] + {tag}]
                          && queue.pending == old(queue.pending) - {tag}
      ensures !r.Done? ==> groups == old(groups) && queue.pending == old(queue.pending)
    {
      if closed {
        return ManagerClosed;
      }
      if group !in groups {
        return NoSuchGroup;
      }
      r := JoinGroup(group, tag);
    }

    /** `addToGroup`: the group adds the tag, then any scheduled removal is cancelled. */
    method JoinGroup(group: Group, tag: Tag) returns (r: Outcome)
      requires group in groups
      modifies this`groups, queue`pending
      ensures r == if CanJoin(old(groups), queue.registry.held, group, tag) then Done else AddFailed
      ensures groups == if r.Done? then old(groups)[group := old(groups)[group] + {tag}] else old(groups)
      ensures queue.pending == if r.Done? then old(queue.pending) - {tag} else old(queue.pending)
    {
      if tag in groups[group] || !Known(queue.registry.held, tag) {
        return AddFailed;
      }
      groups := groups[group := groups[group] + {tag}];
      queue.Dequeue(tag);
      return Done;
    }

    /** `created` is the managers' answer to `Create`. */
    method CreateForGroup(group: Group, tag: Tag, kind: Kind, created: bool, ghost cfg: Q.Config, ghost w: World)
      returns (r: Outcome)
      requires Shows(w)
      modifies this`groups, queue`pending, queue.registry
      ensures r.ManagerClosed? <==> old(closed)
      ensures r.NoSuchGroup? <==> !old(closed) && group !in old(groups)
      ensures r.CreateFailed? <==> !old(closed) && group in old(groups) && !created
      ensures r.AddFailed? <==> !old(closed) && group in old(groups) && created && tag in old(groups)[group]
      ensures !r.RemoveFailed?
      ensures r.Done? ==> Shows(Next(cfg, Next(cfg, Next(cfg, w, Create(group, tag, kind)), BeginAdd(group, tag)), EndAdd))
      ensures r.AddFailed? ==> Shows(Next(cfg, Next(cfg, w, Create(group, tag, kind)), BeginAdd(group, tag)))
      ensures !r.Done? && !r.AddFailed? ==> Shows(w) && queue.registry.held == old(queue.registry.held)
      ensures r.Done? || r.AddFailed? ==> HeldAfterCreate(old(queue.registry.held), tag, kind)
      ensures r.Done? ==> groups == old(groups)[group := old(groups)[group] + {tag}] && queue.pending == old(queue.pending) - {tag}
      ensures !r.Done? ==> groups == old(groups) && queue.pending == old(queue.pending)
    {
      if closed {
        return ManagerClosed;
      }
      if group !in groups {
        return NoSuchGroup;
      }
      if !created {
        return CreateFailed;
      }
      queue.registry.held := RemovalQueue.Created(queue.registry.held, tag, kind);
      r := JoinGroup(group, tag);
    }

    /** The tag is an endpoint if it was one or is created as one, and an outbound likewise; it is a
        group if that is what it was created as last; every other tag is as it was. */
    ghost predicate HeldAfterCreate(before: Managers, tag: Tag, kind: Kind)
      reads this, queue, queue.registry
    {
      var held := queue.registry.held;
      && (forall t :: t in held.endpoints <==> t in before.endpoints || (t == tag && kind == Endpoint))
      && (forall t :: t in held.outbounds <==> t in before.outbounds || (t == tag && kind != Endpoint))
      && (forall t :: t in held.outbounds ==>
            held.outbounds[t] == if t == tag && kind != Endpoint then kind == Kind.Group else before.outbounds[t])
    }

    method RemoveFromGroup(group: Group, tag: Tag, now: int, ghost cfg: Q.Config, ghost w: World)
      returns (r: Outcome)
      requires Shows(w) && w.queue.now == now
      modifies this`groups, queue`pending
      ensures r.ManagerClosed? <==> old(closed)
      ensures r.NoSuchGroup? <==> !old(closed) && group !in old(groups)
      ensures r.RemoveFailed? <==> !old(closed) && group in old(groups) && tag !in old(groups)[group]
      ensures !r.CreateFailed? && !r.AddFailed?
      ensures Shows(if r.Done? then Next(cfg, Next(cfg, w, BeginRemove(group, tag)), EndRemove) else w)
      ensures !r.Done? ==> groups == old(groups) && queue.pending == old(queue.pending)
      ensures r.Done? ==> groups == old(groups)[group := old(groups)[group] - {tag}]
      ensures r.Done? ==>
                var held := queue.registry.held;
                var isGroup := tag in held.outbounds && held.outbounds[tag];
                if (tag in held.outbounds || tag in held.endpoints) && !isGroup && !queue.done && tag !in old(queue.pending)
                then queue.pending == old(queue.pending)[tag := Item(tag, tag in held.endpoints, now)]
                else queue.pending == old(queue.pending)
    {
      if closed {
        return ManagerClosed;
      }
      if group !in groups {
        return NoSuchGroup;
      }
      if tag !in groups[group] {
        return RemoveFailed;
      }
      groups := groups[group := groups[group] - {tag}];
      var held := queue.registry.held;
      if !Known(held, tag) {
        return Done;
      }
      if !(tag in held.outbounds && held.outbounds[tag]) {
        var _ := queue.Enqueue(tag, tag in held.endpoints, now);
      }
      return Done;
    }
  }
}
