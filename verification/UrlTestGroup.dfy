/** The URL-test group of protocol/group/mutableurltest.go: membership, probing, and the two
    choices, each recomputed by `pickBestOutbound`. */
module UrlTestGroup {
  import opened Common
  import opened Outbounds
  import opened UrlTestPick

  datatype View = View(
    tags: seq<Tag>, outbounds: Table, history: Histories, tcp: Option<Outbound>, udp: Option<Outbound>)

  function SceneOf(v: View, network: Network, tolerance: nat): Scene {
    Scene(network, v.outbounds, v.history, tolerance)
  }

  // ---- what each call does -------------------------------------------------------

  /** `updateSelected` */
  ghost predicate UpdateStep(tolerance: nat, v: View, v': View) {
    && v' == v.(tcp := v'.tcp, udp := v'.udp)
    && if v.tags == [] then v'.tcp.None? && v'.udp.None?
       else Picks(SceneOf(v, "tcp", tolerance), v.tcp, v'.tcp) && Picks(SceneOf(v, "udp", tolerance), v.udp, v'.udp)
  }

  ghost predicate StartStep(tolerance: nat, registry: Table, v: View, v': View, ok: bool) {
    && (ok <==> forall t :: t in v.tags ==> t in registry)
    && (v.tags == [] ==> v' == v)
    && (!ok ==> v' == v.(outbounds := map[]))
    && (ok && v.tags != [] ==>
          UpdateStep(tolerance, v.(outbounds := map t | t in Range(v.tags) && t in registry :: registry[t]), v'))
  }

  predicate AddStep(registry: Table, v: View, tags: seq<Tag>, v': View, n: nat, missing: seq<Tag>) {
    && v' == v.(tags := v.tags + Joining(v.outbounds, registry, tags), outbounds := Grown(v.outbounds, registry, tags))
    && n == |Joining(v.outbounds, registry, tags)|
    && missing == Missing(v.outbounds, registry, tags)
  }

  /** The members that leave take the history recorded under their own tag with them. */
  ghost predicate RemoveStep(tolerance: nat, v: View, tags: seq<Tag>, v': View, n: nat) {
    if v.tags == [] then v' == v && n == 0 else
      && n + |v'.outbounds| == |v.outbounds|
      && Lists(v'.tags, v'.outbounds.Keys)
      && UpdateStep(tolerance, Left(v, tags, v'.tags), v')
  }

  function Left(v: View, tags: seq<Tag>, listed: seq<Tag>): View {
    v.(tags := listed, outbounds := Shrunk(v.outbounds, tags), history := Forgotten(v.history, v.outbounds, tags))
  }

  function Forgotten(history: Histories, members: Table, tags: seq<Tag>): Histories {
    history - (Range(tags) * members.Keys)
  }

  /** The group and its history after the requests `done` of a `Remove`. */
  ghost predicate Evicted(members: Table, history: Histories, done: seq<Tag>, members': Table, history': Histories, n: nat) {
    members' == Shrunk(members, done) && history' == Forgotten(history, members, done) && n + |members'| == |members|
  }

  /** One turn of the loop of `Remove`. */
  lemma EvictOneMore(members: Table, history: Histories, tags: seq<Tag>, i: nat, members': Table, history': Histories, n: nat)
    requires i < |tags| && Evicted(members, history, tags[..i], members', history', n)
    ensures var (t, done) := (tags[i], tags[..i + 1]);
            if t in members' then Evicted(members, history, done, members' - {t}, history' - {t}, n + 1)
            else Evicted(members, history, done, members', history', n)
  {
    RangeOneMore(tags, i);
    ForgetOne(history, members, Range(tags[..i]), tags[i]);
    WithoutKey(Shrunk(members, tags[..i]), tags[i]);
    ShrunkOneMore(members, tags, i);
  }

  lemma ForgetOne(history: Histories, members: Table, gone: set<Tag>, t: Tag)
    ensures history - ((gone + {t}) * members.Keys)
         == if t in members - gone then history - (gone * members.Keys) - {t} else history - (gone * members.Keys)
  {
    if t in members {
      assert (gone + {t}) * members.Keys == (gone * members.Keys) + {t};
    } else {
      assert (gone + {t}) * members.Keys == gone * members.Keys;
    }
  }

  predicate Recent(history: Histories, tag: Tag, now: int, interval: int) {
    tag in history && now - history[tag].time < interval
  }

  /** How a check is made: `clock(m)` is the reading when the loop reaches member `m`, and `others`
      are the tags whose history anybody else writes or deletes meanwhile. */
  datatype Check = Check(registry: Table, force: bool, clock: Tag -> int, interval: int, others: set<Tag>)

  /** Member `m` stands for a tag that can be probed. */
  predicate Probeable(v: View, c: Check, m: Tag)
    requires m in v.outbounds
  {
    var o := v.outbounds[m];
    !o.kind.UrlTestGroup? && RealTag(o) != "" && RealTag(o) in c.registry
  }

  /** ... and it asks for a probe. */
  predicate Asks(v: View, c: Check, m: Tag)
    requires m in v.outbounds
  {
    Probeable(v, c, m) && (c.force || !Recent(v.history, RealTag(v.outbounds[m]), c.clock(m), c.interval))
  }

  /** Nobody else can have a say in whether the tag is probed. */
  predicate Own(c: Check, tag: Tag) {
    c.force || tag !in c.others
  }

  /** The histories agree on all tags but those. */
  ghost predicate Apart(h: Histories, h': Histories, others: set<Tag>) {
    forall t :: t !in others ==> (t in h <==> t in h') && (t in h ==> h[t] == h'[t])
  }

  /** What the probes came to, and when each was done. */
  datatype Outcome = Outcome(answer: Tag -> Option<nat>, at: Tag -> int)

  function Recorded(history: Histories, probes: set<Tag>, outcome: Outcome): Histories {
    map t | t in history.Keys + probes && (t in probes ==> outcome.answer(t).Some?)
      :: if t in probes then History(outcome.answer(t).value, outcome.at(t)) else history[t]
  }

  lemma RecordedMore(history: Histories, probes: set<Tag>, more: set<Tag>, outcome: Outcome)
    ensures Recorded(Recorded(history, probes, outcome), more, outcome) == Recorded(history, probes + more, outcome)
  {}

  lemma RecordedOneMore(history: Histories, probes: set<Tag>, outcome: Outcome, tag: Tag)
    ensures var h := Recorded(history, probes, outcome);
            Recorded(history, probes + {tag}, outcome)
            == if outcome.answer(tag).Some? then h[tag := History(outcome.answer(tag).value, outcome.at(tag))]
               else h - {tag}
  {}

  /** Each job is led to by a member that stands for its tag and, unless somebody else wrote that
      tag's history, asks for it. */
  ghost predicate Led(v: View, c: Check, jobs: map<Tag, Tag>) {
    forall t :: t in jobs ==>
      && jobs[t] in v.outbounds && Probeable(v, c, jobs[t]) && RealTag(v.outbounds[jobs[t]]) == t
      && (Own(c, t) ==> Asks(v, c, jobs[t]))
  }

  /** The jobs are the tags asked for, each once. Neither the visiting order nor the member that
      leads to a tag matters, unless somebody else wrote the tag's history. */
  ghost predicate Probing(v: View, c: Check, jobs: map<Tag, Tag>) {
    && Led(v, c, jobs)
    && forall m :: m in v.outbounds && Asks(v, c, m) && Own(c, RealTag(v.outbounds[m])) ==> RealTag(v.outbounds[m]) in jobs
  }

  /** `result` reports exactly the jobs that are done and were answered. */
  ghost predicate Reports(v: View, jobs: map<Tag, Tag>, done: set<Tag>, outcome: Outcome, result: map<Tag, nat>) {
    && (forall m :: m in result ==>
          && m in v.outbounds && RealTag(v.outbounds[m]) in jobs && RealTag(v.outbounds[m]) in done
          && jobs[RealTag(v.outbounds[m])] == m && outcome.answer(RealTag(v.outbounds[m])) == Some(result[m]))
    && (forall t :: t in jobs && t in done && outcome.answer(t).Some? ==> jobs[t] in result)
  }

  ghost predicate CheckStep(tolerance: nat, v: View, c: Check, jobs: map<Tag, Tag>, outcome: Outcome, v': View) {
    && Probing(v, c, jobs)
    && Apart(v'.history, Recorded(v.history, jobs.Keys, outcome), c.others)
    && UpdateStep(tolerance, v.(history := v'.history), v')
  }

  // ---- the group object ----------------------------------------------------------

  class Group {
    var tags: seq<Tag>
    var outbounds: Table
    var history: Histories
    var tcp: Option<Outbound>
    var udp: Option<Outbound>
    var checking: bool
    var closed: bool
    const tolerance: nat
    const interval: int

    constructor (tags: seq<Tag>, tolerance: nat, interval: int)
      ensures Held() == View(tags, map[], map[], None, None) && !checking && !closed
      ensures this.tolerance == tolerance && this.interval == interval
    {
      this.tags, outbounds, history, tcp, udp := tags, map[], map[], None, None;
      checking, closed, this.tolerance, this.interval := false, false, tolerance, interval;
    }

    ghost function Held(): View
      reads this
    {
      View(tags, outbounds, history, tcp, udp)
    }

    method UpdateSelected()
      modifies this`tcp, this`udp
      ensures UpdateStep(tolerance, old(Held()), Held())
    {
      if tags == [] {
        tcp, udp := None, None;
        return;
      }
      var pick := PickBest(Scene("tcp", outbounds, history, tolerance), tcp);
      if pick != tcp {
        tcp := pick;
      }
      pick := PickBest(Scene("udp", outbounds, history, tolerance), udp);
      if pick != udp {
        udp := pick;
      }
    }

    method Start(registry: Table) returns (ok: bool)
      requires outbounds == map[]
      modifies this`outbounds, this`tcp, this`udp
      ensures StartStep(tolerance, registry, old(Held()), Held(), ok)
    {
      if tags == [] {
        return true;
      }
      for i := 0 to |tags|
        invariant tcp == old(tcp) && udp == old(udp) && forall k :: 0 <= k < i ==> tags[k] in registry
        invariant outbounds == map t | t in Range(tags[..i]) && t in registry :: registry[t]
      {
        RangeOneMore(tags, i);
        if tags[i] !in registry {
          outbounds := map[];
          return false;
        }
        outbounds := outbounds[tags[i] := registry[tags[i]]];
      }
      assert tags[..|tags|] == tags;
      UpdateSelected();
      return true;
    }

    method Close()
      modifies this`closed
      ensures closed
    {
      closed := true;
    }

    method Add(args: seq<Tag>, registry: Table) returns (n: nat, missing: seq<Tag>)
      modifies this`tags, this`outbounds
      ensures closed ==> Held() == old(Held()) && n == 0
      ensures !closed ==> AddStep(registry, old(Held()), args, Held(), n, missing)
    {
      if closed {
        return 0, [];
      }
      var tags', outbounds';
      tags', outbounds', n, missing := AddLoop(tags, outbounds, registry, args);
      tags, outbounds := tags', outbounds';
    }

    /** One turn of the loop of `Remove`. */
    method EvictOne(tag: Tag) returns (found: bool)
      modifies this`outbounds, this`history
      ensures found <==> tag in old(outbounds)
      ensures outbounds == if found then old(outbounds) - {tag} else old(outbounds)
      ensures history == if found then old(history) - {tag} else old(history)
    {
      if tag !in outbounds {
        return false;
      }
      outbounds, history := outbounds - {tag}, history - {tag};
      return true;
    }

    /** The loop of `Remove`. */
    method Evict(args: seq<Tag>) returns (n: nat)
      modifies this`outbounds, this`history
      ensures outbounds == Shrunk(old(outbounds), args) && n + |outbounds| == |old(outbounds)|
      ensures history == Forgotten(old(history), old(outbounds), args)
    {
      n := 0;
      ghost var members, recorded := outbounds, history;
      for i := 0 to |args|
        invariant Evicted(members, recorded, args[..i], outbounds, history, n)
      {
        EvictOneMore(members, recorded, args, i, outbounds, history, n);
        var found := EvictOne(args[i]);
        if found {
          n := n + 1;
        }
      }
      assert args[..|args|] == args;
    }

    method Remove(args: seq<Tag>) returns (n: nat)
      modifies this`tags, this`outbounds, this`history, this`tcp, this`udp
      ensures closed ==> Held() == old(Held()) && n == 0
      ensures !closed ==> RemoveStep(tolerance, old(Held()), args, Held(), n)
    {
      n := 0;
      if closed || tags == [] {
        return;
      }
      n := Evict(args);
      tags := Visit(outbounds.Keys);
      assert Held() == Left(old(Held()), args, tags);
      UpdateSelected();
    }

    /** `MutableURLTest.selectOutbound`: the standing choice, or a fresh pick when there is none. */
    method SelectOutbound(network: Network) returns (r: Option<Outbound>)
      ensures network != "tcp" && network != "udp" ==> r.None?
      ensures network == "tcp" && tcp.Some? ==> r == tcp
      ensures network == "udp" && udp.Some? ==> r == udp
      ensures (network == "tcp" && tcp.None?) || (network == "udp" && udp.None?) ==>
                Picks(SceneOf(Held(), network, tolerance), None, r)
    {
      if network != "tcp" && network != "udp" {
        return None;
      }
      r := if network == "tcp" then tcp else udp;
      if r.None? {
        r := PickBest(Scene(network, outbounds, history, tolerance), None);
      }
    }

    /** `urlTest` */
    method UrlTest(c: Check, outcome: Outcome) returns (result: map<Tag, nat>)
      modifies this`history, this`tcp, this`udp, this`checking
      ensures old(checking) || tags == [] ==> checking && result == map[]
                                              && unchanged(this`history) && unchanged(this`tcp) && unchanged(this`udp)
      ensures !old(checking) && tags != [] ==>
                !checking && exists jobs: map<Tag, Tag> ::
                  CheckStep(tolerance, old(Held()), c, jobs, outcome, Held())
                  && Reports(old(Held()), jobs, jobs.Keys, outcome, result)
    {
      result := map[];
      if checking {
        return;
      }
      checking := true;
      if tags == [] {
        return;
      }
      ghost var jobs;
      result, jobs := ProbeMembers(c, outcome);
      ghost var mid := Held();
      UpdateSelected();
      checking := false;
      assert mid == old(Held()).(history := history);
    }

    /** All the probes: launched one by one, then waited for. */
    method ProbeMembers(c: Check, outcome: Outcome) returns (result: map<Tag, nat>, ghost launched: map<Tag, Tag>)
      modifies this`history
      ensures Probing(old(Held()), c, launched)
      ensures Apart(history, Recorded(old(history), launched.Keys, outcome), c.others)
      ensures Reports(old(Held()), launched, launched.Keys, outcome, result)
    {
      ghost var v := Held();
      var jobs, running;
      jobs, running, result := LaunchAll(c, outcome);
      var none;
      none, result := SomeReturn(v, c, jobs, running, running, outcome, result);
      assert jobs.Keys - none == jobs.Keys;
      OthersWrite(c.others);
      launched := jobs;
    }

    /** The loop over the members. Between two of them any of the probes under way may come back, and
        anybody else may write. */
    method LaunchAll(c: Check, outcome: Outcome) returns (jobs: map<Tag, Tag>, running: set<Tag>, result: map<Tag, nat>)
      modifies this`history
      ensures Probing(old(Held()), c, jobs) && running <= jobs.Keys
      ensures Apart(history, Recorded(old(history), jobs.Keys - running, outcome), c.others)
      ensures Reports(old(Held()), jobs, jobs.Keys - running, outcome, result)
    {
      ghost var v := Held();
      var order := Visit(outbounds.Keys);
      var checked: set<Tag> := {};
      running, jobs, result := {}, map[], map[];
      assert Recorded(v.history, {}, outcome) == v.history;
      for i := 0 to |order|
        invariant running <= jobs.Keys && Launching(v, c, order, i, checked, jobs)
        invariant Apart(history, Recorded(v.history, jobs.Keys - running, outcome), c.others)
        invariant Reports(v, jobs, jobs.Keys - running, outcome, result)
      {
        OthersWrite(c.others);
        var back :| back <= running;
        running, result := SomeReturn(v, c, jobs, running, back, outcome, result);
        assert order[i] in Range(order);
        checked, jobs, running := LaunchOne(v, c, order, i, checked, jobs, running, outcome, result);
      }
      AllAsked(v, c, order, checked, jobs);
    }

    /** Anybody else writes or deletes some of the entries of `others`. */
    method OthersWrite(others: set<Tag>)
      modifies this`history
      ensures Apart(history, old(history), others)
    {
      var rest := others;
      while rest != {}
        invariant rest <= others && Apart(history, old(history), others)
      {
        var tag :| tag in rest;
        rest := rest - {tag};
        if * {
          history := history - {tag};
        } else if * {
          var delay: nat, time: int := *, *;
          history := history[tag := History(delay, time)];
        }
      }
    }

    /** One member: a probe is launched for the tag it stands for, unless there is a reason not to. */
    method LaunchOne(ghost v: View, c: Check, order: seq<Tag>, i: nat, checked: set<Tag>, jobs: map<Tag, Tag>, running: set<Tag>,
                     ghost outcome: Outcome, ghost result: map<Tag, nat>)
      returns (checked': set<Tag>, jobs': map<Tag, Tag>, running': set<Tag>)
      requires i < |order| && order[i] in outbounds && outbounds == v.outbounds
      requires running <= jobs.Keys && Launching(v, c, order, i, checked, jobs)
      requires Apart(history, Recorded(v.history, jobs.Keys - running, outcome), c.others)
      requires Reports(v, jobs, jobs.Keys - running, outcome, result)
      ensures running' <= jobs'.Keys && Launching(v, c, order, i + 1, checked', jobs')
      ensures jobs'.Keys - running' == jobs.Keys - running && Reports(v, jobs', jobs.Keys - running, outcome, result)
    {
      checked', jobs', running' := checked, jobs, running;
      var outbound := outbounds[order[i]];
      SkipKeeps(v, c, order, i, checked, jobs);
      if outbound.kind.UrlTestGroup? {
        return;
      }
      var tag := RealTag(outbound);
      if tag == "" || tag in checked {
        return;
      }
      RecentStays(v.history, jobs.Keys - running, outcome, tag, history, c.others);
      if !c.force && Recent(history, tag, c.clock(order[i]), c.interval) {
        return;
      }
      LaunchKeeps(v, c, order, i, checked, jobs, jobs.Keys - running, outcome, result);
      checked' := checked + {tag};
      if tag !in c.registry {
        return;
      }
      assert (jobs.Keys + {tag}) - (running + {tag}) == jobs.Keys - running;
      jobs', running' := jobs[tag := order[i]], running + {tag};
    }

    /** The probes of `back` are over. */
    method SomeReturn(ghost v: View, ghost c: Check, jobs: map<Tag, Tag>, running: set<Tag>, back: set<Tag>, outcome: Outcome,
                      result: map<Tag, nat>)
      returns (running': set<Tag>, result': map<Tag, nat>)
      requires back <= running <= jobs.Keys && Led(v, c, jobs)
      requires Apart(history, Recorded(v.history, jobs.Keys - running, outcome), c.others)
      requires Reports(v, jobs, jobs.Keys - running, outcome, result)
      modifies this`history
      ensures running' == running - back && Apart(history, Recorded(v.history, jobs.Keys - running', outcome), c.others)
      ensures Reports(v, jobs, jobs.Keys - running', outcome, result')
    {
      RecordedApart(history, Recorded(v.history, jobs.Keys - running, outcome), back, outcome, c.others);
      result' := Return(v, c, jobs, jobs.Keys - running, back, outcome, result);
      RecordedMore(v.history, jobs.Keys - running, back, outcome);
      running' := running - back;
      assert jobs.Keys - running + back == jobs.Keys - running';
    }

    /** The probes of `back` come back, in any order. */
    method Return(ghost v: View, ghost c: Check, jobs: map<Tag, Tag>, ghost done: set<Tag>, back: set<Tag>, outcome: Outcome,
                  result: map<Tag, nat>)
      returns (result': map<Tag, nat>)
      requires done <= jobs.Keys && back <= jobs.Keys && Led(v, c, jobs)
      requires Reports(v, jobs, done, outcome, result)
      modifies this`history
      ensures history == Recorded(old(history), back, outcome)
      ensures Reports(v, jobs, done + back, outcome, result')
    {
      result' := result;
      ghost var before := history;
      var rest := back;
      assert Recorded(before, {}, outcome) == before && done + {} == done;
      while rest != {}
        invariant rest <= back
        invariant history == Recorded(before, back - rest, outcome)
        invariant Reports(v, jobs, done + (back - rest), outcome, result')
      {
        var tag :| tag in rest;
        RecordedOneMore(before, back - rest, outcome, tag);
        ReportOneMore(v, c, jobs, done + (back - rest), tag, outcome, result');
        assert back - (rest - {tag}) == (back - rest) + {tag};
        assert done + (back - rest) + {tag} == done + (back - (rest - {tag}));
        rest := rest - {tag};
        if outcome.answer(tag).None? {
          history := history - {tag};
        } else {
          history := history[tag := History(outcome.answer(tag).value, outcome.at(tag))];
          result' := result'[jobs[tag] := outcome.answer(tag).value];
        }
      }
      assert back - rest == back;
    }
  }

  /** After the first `i` members: a checked tag has a job unless it is unknown, and every member
      visited that asks for a probe has one. */
  ghost predicate Launching(v: View, c: Check, order: seq<Tag>, i: nat, checked: set<Tag>, jobs: map<Tag, Tag>) {
    && i <= |order| && jobs.Keys <= checked && Led(v, c, jobs)
    && (forall t :: t in checked ==> t in jobs || t !in c.registry)
    && (forall k | 0 <= k < i && order[k] in v.outbounds ::
          Asks(v, c, order[k]) && Own(c, RealTag(v.outbounds[order[k]])) ==> RealTag(v.outbounds[order[k]]) in jobs)
  }

  lemma SkipKeeps(v: View, c: Check, order: seq<Tag>, i: nat, checked: set<Tag>, jobs: map<Tag, Tag>)
    requires Launching(v, c, order, i, checked, jobs) && i < |order| && order[i] in v.outbounds
    ensures (!Asks(v, c, order[i]) || !Own(c, RealTag(v.outbounds[order[i]])) || RealTag(v.outbounds[order[i]]) in checked) ==>
              Launching(v, c, order, i + 1, checked, jobs)
  {}

  lemma LaunchKeeps(v: View, c: Check, order: seq<Tag>, i: nat, checked: set<Tag>, jobs: map<Tag, Tag>, done: set<Tag>,
                    outcome: Outcome, result: map<Tag, nat>)
    requires Launching(v, c, order, i, checked, jobs) && i < |order| && order[i] in v.outbounds
    requires RealTag(v.outbounds[order[i]]) !in checked && done <= jobs.Keys && Reports(v, jobs, done, outcome, result)
    ensures var (m, tag) := (order[i], RealTag(v.outbounds[order[i]]));
            && (tag !in c.registry ==> Launching(v, c, order, i + 1, checked + {tag}, jobs))
            && (Probeable(v, c, m) && (Own(c, tag) ==> Asks(v, c, m)) ==>
                  Launching(v, c, order, i + 1, checked + {tag}, jobs[tag := m]))
            && Reports(v, jobs[tag := m], done, outcome, result)
  {}

  /** Neither a probe that came back nor anybody else changes anything for a tag that was not probed
      and is not written by others. */
  lemma RecentStays(history: Histories, done: set<Tag>, outcome: Outcome, tag: Tag, now: Histories, others: set<Tag>)
    requires tag !in done && Apart(now, Recorded(history, done, outcome), others)
    ensures tag !in others ==> forall at, interval :: Recent(now, tag, at, interval) == Recent(history, tag, at, interval)
  {}

  lemma RecordedApart(h: Histories, h': Histories, probes: set<Tag>, outcome: Outcome, others: set<Tag>)
    requires Apart(h, h', others)
    ensures Apart(Recorded(h, probes, outcome), Recorded(h', probes, outcome), others)
  {}

  lemma ReportOneMore(v: View, c: Check, jobs: map<Tag, Tag>, done: set<Tag>, tag: Tag, outcome: Outcome, result: map<Tag, nat>)
    requires Led(v, c, jobs) && tag in jobs && Reports(v, jobs, done, outcome, result)
    ensures Reports(v, jobs, done + {tag}, outcome,
                    if outcome.answer(tag).Some? then result[jobs[tag] := outcome.answer(tag).value] else result)
  {}

  /** When every member was visited the jobs are exactly the probes. */
  lemma AllAsked(v: View, c: Check, order: seq<Tag>, checked: set<Tag>, jobs: map<Tag, Tag>)
    requires Lists(order, v.outbounds.Keys) && Launching(v, c, order, |order|, checked, jobs)
    ensures Probing(v, c, jobs)
  {
    forall m | m in v.outbounds && Asks(v, c, m) && Own(c, RealTag(v.outbounds[m]))
      ensures RealTag(v.outbounds[m]) in jobs
    {
      assert m in Range(order);
    }
  }

  // ---- a full forced check -------------------------------------------------------

  ghost predicate AllLeaves(members: Table) {
    forall t :: t in members ==> members[t].kind.Leaf? && t != ""
  }

  /** The choice is nil or the map's own entry for its tag. */
  predicate MemberOrNil(members: Table, choice: Option<Outbound>) {
    choice.Some? ==> choice.value.tag in members && members[choice.value.tag] == choice.value
  }

  /** The choice can carry the network it was made for. */
  predicate Carries(choice: Option<Outbound>, network: Network) {
    choice.Some? ==> network in choice.value.networks
  }

  ghost predicate Consistent(v: View) {
    && Lists(v.tags, v.outbounds.Keys) && WellTagged(v.outbounds) && AllLeaves(v.outbounds)
    && MemberOrNil(v.outbounds, v.tcp) && MemberOrNil(v.outbounds, v.udp)
    && Carries(v.tcp, "tcp") && Carries(v.udp, "udp")
  }

  predicate Answered(v: View, network: Network, outcome: Outcome, t: Tag) {
    t in v.outbounds && network in v.outbounds[t].networks && outcome.answer(t).Some?
  }

  /** The choice for `network` is a member that carries it and answered, no slower than the best answer plus
      the tolerance. */
  ghost predicate GoodChoice(v: View, network: Network, tolerance: nat, outcome: Outcome, choice: Option<Outbound>) {
    && choice.Some? && MemberOrNil(v.outbounds, choice) && Carries(choice, network) && outcome.answer(choice.value.tag).Some?
    && forall t :: Answered(v, network, outcome, t) ==>
         outcome.answer(choice.value.tag).value <= outcome.answer(t).value + tolerance
  }

  /** The members' answers are positive, and adding the tolerance to them does not wrap. */
  predicate SaneAnswers(v: View, tolerance: nat, outcome: Outcome) {
    forall t :: t in v.outbounds && outcome.answer(t).Some? ==>
      0 < outcome.answer(t).value && outcome.answer(t).value + tolerance < UINT16
  }

  /** A full forced check, for every visiting order, every order of completion and whatever anybody
      else writes meanwhile: the history of each member that is not written by others is its probe's
      outcome, every other history not written by others is unchanged, and wherever some member that carries the network answered, the
      choice is as good as the tolerance promises, provided that others leave the members alone. */
  lemma ForcedCheck(tolerance: nat, v: View, c: Check, jobs: map<Tag, Tag>, outcome: Outcome, v': View)
    requires Consistent(v) && v.tags != [] && c.force && (forall t :: t in v.outbounds ==> t in c.registry)
    requires CheckStep(tolerance, v, c, jobs, outcome, v')
    ensures jobs.Keys == v.outbounds.Keys
    ensures forall t :: t in v.outbounds && t !in c.others ==>
              if outcome.answer(t).Some?
              then t in v'.history && v'.history[t] == History(outcome.answer(t).value, outcome.at(t))
              else t !in v'.history
    ensures forall t :: t !in v.outbounds && t !in c.others ==>
              (t in v'.history <==> t in v.history) && (t in v.history ==> v'.history[t] == v.history[t])
    ensures SaneAnswers(v, tolerance, outcome) && c.others !! v.outbounds.Keys ==>
              && ((exists t :: Answered(v, "tcp", outcome, t)) ==> GoodChoice(v, "tcp", tolerance, outcome, v'.tcp))
              && ((exists t :: Answered(v, "udp", outcome, t)) ==> GoodChoice(v, "udp", tolerance, outcome, v'.udp))
  {
    ForcedHistories(v, c, jobs, outcome, v'.history);
    if SaneAnswers(v, tolerance, outcome) && c.others !! v.outbounds.Keys {
      ChoiceAfterCheck(tolerance, v, v'.history, outcome, "tcp", v.tcp, v'.tcp);
      ChoiceAfterCheck(tolerance, v, v'.history, outcome, "udp", v.udp, v'.udp);
    }
  }

  lemma ForcedHistories(v: View, c: Check, jobs: map<Tag, Tag>, outcome: Outcome, written: Histories)
    requires WellTagged(v.outbounds) && AllLeaves(v.outbounds) && c.force && (forall t :: t in v.outbounds ==> t in c.registry)
    requires Probing(v, c, jobs) && Apart(written, Recorded(v.history, jobs.Keys, outcome), c.others)
    ensures jobs.Keys == v.outbounds.Keys
    ensures forall t :: t in v.outbounds && t !in c.others ==>
              if outcome.answer(t).Some? then t in written && written[t] == History(outcome.answer(t).value, outcome.at(t))
              else t !in written
    ensures forall t :: t !in v.outbounds && t !in c.others ==>
              (t in written <==> t in v.history) && (t in v.history ==> written[t] == v.history[t])
  {
    forall t | t in v.outbounds ensures t in jobs {
      assert Asks(v, c, t) && RealTag(v.outbounds[t]) == t;
    }
  }

  /** Any check: of the tags not written by others exactly those are probed that some member stands
      for, that are known, and that, unless the check is forced, have no recorded delay or one that is
      at least `interval` old when the member is looked at. The history of a probed tag becomes its
      outcome, that of any other is left alone. */
  lemma CheckMeans(tolerance: nat, v: View, c: Check, jobs: map<Tag, Tag>, outcome: Outcome, v': View, x: Tag)
    requires CheckStep(tolerance, v, c, jobs, outcome, v') && x !in c.others
    ensures x in jobs <==>
            exists m :: && m in v.outbounds && !v.outbounds[m].kind.UrlTestGroup? && RealTag(v.outbounds[m]) == x
                        && x != "" && x in c.registry
                        && (c.force || x !in v.history || c.clock(m) - v.history[x].time >= c.interval)
    ensures x in jobs ==>
              if outcome.answer(x).Some? then x in v'.history && v'.history[x] == History(outcome.answer(x).value, outcome.at(x))
              else x !in v'.history
    ensures x !in jobs ==> (x in v'.history <==> x in v.history) && (x in v.history ==> v'.history[x] == v.history[x])
  {
    if x in jobs {
      var m := jobs[x];
      assert m in v.outbounds && Asks(v, c, m);
    }
  }

  /** For leaf members: which of them are probed, and what `urlTest` returns for each. */
  lemma CheckedLeaves(tolerance: nat, v: View, c: Check, jobs: map<Tag, Tag>, outcome: Outcome, v': View,
                       result: map<Tag, nat>, t: Tag)
    requires CheckStep(tolerance, v, c, jobs, outcome, v') && Reports(v, jobs, jobs.Keys, outcome, result)
    requires WellTagged(v.outbounds) && AllLeaves(v.outbounds) && t in v.outbounds && t !in c.others
    ensures t in jobs <==>
            t in c.registry && (c.force || t !in v.history || c.clock(t) - v.history[t].time >= c.interval)
    ensures t in result <==> t in jobs && outcome.answer(t).Some?
    ensures t in result ==> outcome.answer(t) == Some(result[t])
  {
    assert RealTag(v.outbounds[t]) == t;
    if t in jobs {
      assert jobs[t] in v.outbounds && RealTag(v.outbounds[jobs[t]]) == t;
    }
  }

  lemma ChoiceAfterCheck(tolerance: nat, v: View, written: Histories, outcome: Outcome, network: Network,
                         current: Option<Outbound>, pick: Option<Outbound>)
    requires Consistent(v) && MemberOrNil(v.outbounds, current) && Carries(current, network)
    requires forall t :: t in v.outbounds ==>
               if outcome.answer(t).Some? then t in written && written[t] == History(outcome.answer(t).value, outcome.at(t))
               else t !in written
    requires SaneAnswers(v, tolerance, outcome)
    requires Picks(SceneOf(v.(history := written), network, tolerance), current, pick)
    ensures (exists t :: Answered(v, network, outcome, t)) ==> GoodChoice(v, network, tolerance, outcome, pick)
  {
    if t0 :| Answered(v, network, outcome, t0) {
      var s := SceneOf(v.(history := written), network, tolerance);
      forall t | Answered(v, network, outcome, t)
        ensures Candidate(s, s.members[t]) && Delay(s, s.members[t]) == outcome.answer(t).value
      {}
      assert SaneFor(s, current);
      var order, order' :| Lists(order, s.members.Keys) && Lists(order', s.members.Keys)
                           && pick == Pick(s, current, order, order');
      WithinTolerance(s, current, order, order');
    }
  }

  // ---- no flapping ---------------------------------------------------------------

  function Choice(v: View, network: Network): Option<Outbound> {
    if network == "tcp" then v.tcp else v.udp
  }

  /** For a fixed history, `updateSelected` twice selects for a network what it selects once,
      whatever the visiting orders, whenever its choice or a capable member has a recorded delay. */
  lemma NoFlapping(tolerance: nat, v: View, v1: View, v2: View, network: Network)
    requires UpdateStep(tolerance, v, v1) && UpdateStep(tolerance, v1, v2) && (network == "tcp" || network == "udp")
    requires SaneFor(SceneOf(v, network, tolerance), Choice(v, network)) && Informed(SceneOf(v, network, tolerance), Choice(v, network))
    ensures Choice(v2, network) == Choice(v1, network)
  {
    if v.tags != [] {
      SamePick(SceneOf(v, network, tolerance), Choice(v, network), Choice(v1, network), Choice(v2, network));
    }
  }

  /** Otherwise the fallback decides, and it may differ between two visiting orders: the choice for
      a network is stable in all orders if and only if it is made from history, or at most one
      member can carry the network. */
  lemma FlapsExactly(tolerance: nat, v: View, network: Network)
    requires v.tags != [] && WellTagged(v.outbounds) && (network == "tcp" || network == "udp")
    requires SaneFor(SceneOf(v, network, tolerance), Choice(v, network))
    ensures (forall v1, v2 :: UpdateStep(tolerance, v, v1) && UpdateStep(tolerance, v1, v2) ==>
               Choice(v2, network) == Choice(v1, network))
            <==> Informed(SceneOf(v, network, tolerance), Choice(v, network))
                 || AtMostOneCapable(SceneOf(v, network, tolerance))
  {
    var s := SceneOf(v, network, tolerance);
    StableExactly(s, Choice(v, network));
    if forall v1, v2 :: UpdateStep(tolerance, v, v1) && UpdateStep(tolerance, v1, v2) ==> Choice(v2, network) == Choice(v1, network) {
      forall first, second | Picks(s, Choice(v, network), first) && Picks(s, first, second) ensures first == second {
        var v1 := Updated(tolerance, v, network, first);
        var v2 := Updated(tolerance, v1, network, second);
      }
    }
  }

  /** An update that makes a given pick for one network. */
  lemma Updated(tolerance: nat, v: View, network: Network, pick: Option<Outbound>) returns (v': View)
    requires v.tags != [] && (network == "tcp" || network == "udp")
    requires Picks(SceneOf(v, network, tolerance), Choice(v, network), pick)
    ensures UpdateStep(tolerance, v, v') && Choice(v', network) == pick
  {
    var other := if network == "tcp" then "udp" else "tcp";
    var s := SceneOf(v, other, tolerance);
    var order := ListOf(s.members.Keys);
    var otherPick := Pick(s, Choice(v, other), order, order);
    assert Picks(s, Choice(v, other), otherPick);
    v' := if network == "tcp" then v.(tcp := pick, udp := otherPick) else v.(tcp := otherPick, udp := pick);
  }

  // ---- runs: the choices stay members --------------------------------------------

  datatype Step =
    | Add(registry: Table, tags: seq<Tag>, n: nat, missing: seq<Tag>)
    | Remove(tags: seq<Tag>, n: nat)
    | Write(tag: Tag, entry: Option<History>)   // a probe, at any time, of any tag; or a failed dial
    | Update                                    // the `updateSelected` that ends a check

  ghost predicate GroupStep(tolerance: nat, v: View, step: Step, v': View) {
    match step
    case Add(registry, tags, n, missing) =>
      WellTagged(registry) && AllLeaves(registry) && AddStep(registry, v, tags, v', n, missing)
    case Remove(tags, n) => RemoveStep(tolerance, v, tags, v', n)
    case Write(tag, entry) =>
      v' == v.(history := if entry.Some? then v.history[tag := entry.value] else v.history - {tag})
    case Update => UpdateStep(tolerance, v, v')
  }

  /** A pick is the current outbound, and then it has a recorded delay, or a member that carries
      the network. No assumption on the delays. */
  lemma PickStays(s: Scene, current: Option<Outbound>, pick: Option<Outbound>)
    requires WellTagged(s.members) && Picks(s, current, pick)
    ensures (MemberOrNil(s.members, pick) && Carries(pick, s.network))
            || (current.Some? && pick == current && RealTag(current.value) in s.history)
  {
    var order, order' :| Lists(order, s.members.Keys) && Lists(order', s.members.Keys)
                         && pick == Pick(s, current, order, order');
    ScanMeans(s, Start(s, current), order);
    FirstCapableMeans(s, order');
  }

  lemma AddKeeps(v: View, registry: Table, tags: seq<Tag>, v': View, n: nat, missing: seq<Tag>)
    requires Consistent(v) && WellTagged(registry) && AllLeaves(registry)
    requires AddStep(registry, v, tags, v', n, missing)
    ensures Consistent(v') && n == |v'.outbounds| - |v.outbounds|
  {
    GrowthListed(v.tags, v.outbounds, registry, tags);
  }

  lemma UpdateKeeps(tolerance: nat, v: View, v': View)
    requires Lists(v.tags, v.outbounds.Keys) && WellTagged(v.outbounds) && AllLeaves(v.outbounds)
    requires Carries(v.tcp, "tcp") && Carries(v.udp, "udp")
    requires v.tcp.Some? && !MemberOrNil(v.outbounds, v.tcp) ==> RealTag(v.tcp.value) !in v.history
    requires v.udp.Some? && !MemberOrNil(v.outbounds, v.udp) ==> RealTag(v.udp.value) !in v.history
    requires UpdateStep(tolerance, v, v')
    ensures Consistent(v')
  {
    if v.tags != [] {
      PickStays(SceneOf(v, "tcp", tolerance), v.tcp, v'.tcp);
      PickStays(SceneOf(v, "udp", tolerance), v.udp, v'.udp);
    }
  }

  /** A selected leaf that leaves takes its history with it, so it cannot stay selected. */
  lemma LeavingForgets(v: View, tags: seq<Tag>, listed: seq<Tag>, choice: Option<Outbound>)
    requires WellTagged(v.outbounds) && AllLeaves(v.outbounds) && MemberOrNil(v.outbounds, choice)
    ensures var mid := Left(v, tags, listed);
            && WellTagged(mid.outbounds) && AllLeaves(mid.outbounds)
            && (choice.Some? && !MemberOrNil(mid.outbounds, choice) ==> RealTag(choice.value) !in mid.history)
  {
    var mid := Left(v, tags, listed);
    if choice.Some? && !MemberOrNil(mid.outbounds, choice) {
      assert choice.value.tag in Range(tags) * v.outbounds.Keys;
    }
  }

  lemma RemoveKeeps(tolerance: nat, v: View, tags: seq<Tag>, v': View, n: nat)
    requires Consistent(v) && RemoveStep(tolerance, v, tags, v', n)
    ensures Consistent(v')
  {
    if v.tags != [] {
      LeavingForgets(v, tags, v'.tags, v.tcp);
      LeavingForgets(v, tags, v'.tags, v.udp);
      var mid := Left(v, tags, v'.tags);
      assert v'.outbounds == mid.outbounds;
      UpdateKeeps(tolerance, mid, v');
    }
  }

  /** Step `i` leads from view `i` to view `i + 1`. */
  ghost predicate StepAt(tolerance: nat, views: seq<View>, steps: seq<Step>, i: nat)
    requires i < |steps| && i + 1 < |views|
  {
    GroupStep(tolerance, views[i], steps[i], views[i + 1])
  }

  lemma StepKeeps(tolerance: nat, v: View, step: Step, v': View)
    requires Consistent(v) && GroupStep(tolerance, v, step, v')
    ensures Consistent(v')
    ensures step.Add? ==> step.n == |v'.outbounds| - |v.outbounds|
  {
    match step
    case Add(registry, tags, n, missing) => AddKeeps(v, registry, tags, v', n, missing);
    case Write(_, _) =>
    case Update => UpdateKeeps(tolerance, v, v');
    case Remove(tags, n) => RemoveKeeps(tolerance, v, tags, v', n);
  }

  lemma StepAtKeeps(tolerance: nat, views: seq<View>, steps: seq<Step>, i: nat)
    requires i < |steps| && i + 1 < |views| && StepAt(tolerance, views, steps, i) && Consistent(views[i])
    ensures Consistent(views[i + 1])
  {
    StepKeeps(tolerance, views[i], steps[i], views[i + 1]);
  }

  lemma StartKeeps(tolerance: nat, registry: Table, v: View, v': View)
    requires Distinct(v.tags) && v.tags != [] && v.outbounds == map[] && v.tcp.None? && v.udp.None?
    requires WellTagged(registry) && AllLeaves(registry) && StartStep(tolerance, registry, v, v', true)
    ensures Consistent(v')
  {
    assert forall t :: t in v.tags ==> t in Range(v.tags);
    var mid := v.(outbounds := map t | t in Range(v.tags) && t in registry :: registry[t]);
    assert mid.outbounds.Keys == Range(v.tags);
    UpdateKeeps(tolerance, mid, v');
  }

  lemma {:induction false} StepsKeep(tolerance: nat, views: seq<View>, steps: seq<Step>, k: nat)
    requires |views| == |steps| + 1 && k < |views| && Consistent(views[0])
    requires forall i :: 0 <= i < |steps| ==> StepAt(tolerance, views, steps, i)
    ensures Consistent(views[k])
  {
    if k > 0 {
      StepsKeep(tolerance, views, steps, k - 1);
      StepAtKeeps(tolerance, views, steps, k - 1);
    }
  }

  /** With leaf members, each `updateSelected` one step and each call atomic: over every run, with
      probe results arriving late and for any tag, the tag list and the map stay one set and both
      choices are nil or members that carry their network. */
  lemma RunConsistent(tolerance: nat, registry: Table, initial: View, views: seq<View>, steps: seq<Step>, k: nat)
    requires Distinct(initial.tags) && initial.tags != [] && initial.outbounds == map[]
    requires initial.tcp.None? && initial.udp.None? && WellTagged(registry) && AllLeaves(registry)
    requires |views| == |steps| + 1 && StartStep(tolerance, registry, initial, views[0], true) && k < |views|
    requires forall i :: 0 <= i < |steps| ==> StepAt(tolerance, views, steps, i)
    ensures Consistent(views[k])
  {
    StartKeeps(tolerance, registry, initial, views[0]);
    StepsKeep(tolerance, views, steps, k);
  }

  // ---- what the calls mean, field by field ---------------------------------------

  /** A successful start of a non-empty group holds exactly its tags' outbounds; a failed one none. */
  lemma StartMeans(tolerance: nat, registry: Table, v: View, v': View, ok: bool)
    requires StartStep(tolerance, registry, v, v', ok) && v.tags != []
    ensures v'.tags == v.tags && v'.history == v.history && (ok <==> forall t :: t in v.tags ==> t in registry)
    ensures ok ==> (forall t :: t in v'.outbounds <==> t in v.tags) && forall t :: t in v.tags ==> v'.outbounds[t] == registry[t]
    ensures !ok ==> v'.outbounds == map[] && v'.tcp == v.tcp && v'.udp == v.udp
  {
    assert forall t :: t in v.tags <==> t in Range(v.tags);
  }

  /** An add changes nothing but that each requested, registered non-member joins at the end. */
  lemma AddedMeans(registry: Table, v: View, tags: seq<Tag>, v': View, n: nat, missing: seq<Tag>, t: Tag)
    requires AddStep(registry, v, tags, v', n, missing)
    ensures v'.history == v.history && v'.tcp == v.tcp && v'.udp == v.udp
    ensures v.tags <= v'.tags && n == |v'.outbounds| - |v.outbounds| == |v'.tags| - |v.tags|
    ensures t in v'.outbounds <==> t in v.outbounds || (t in tags && t in registry)
    ensures t in v.outbounds ==> v'.outbounds[t] == v.outbounds[t]
    ensures t !in v.outbounds && t in v'.outbounds ==> v'.outbounds[t] == registry[t] && t in v'.tags[|v.tags|..]
    ensures t in missing <==> t in tags && t !in v.outbounds && t !in registry
  {
    AddMeans(v.tags, v.outbounds, registry, tags, t);
    MissingExactly(v.outbounds, registry, tags, t);
    assert v'.tags[|v.tags|..] == Joining(v.outbounds, registry, tags);
  }

  /** A remove takes the requested members out, and with each of them the history under its own tag;
      every other member and every other history stays. */
  lemma RemovedMeans(tolerance: nat, v: View, tags: seq<Tag>, v': View, n: nat, t: Tag)
    requires RemoveStep(tolerance, v, tags, v', n) && v.tags != []
    ensures t in v'.outbounds <==> t in v.outbounds && t !in tags
    ensures t in v'.outbounds ==> v'.outbounds[t] == v.outbounds[t]
    ensures t in v'.history <==> t in v.history && !(t in tags && t in v.outbounds)
    ensures t in v'.history ==> v'.history[t] == v.history[t]
    ensures n == |v.outbounds| - |v'.outbounds| && Lists(v'.tags, v'.outbounds.Keys)
  {
    RemoveMeans(v.outbounds, tags, t);
  }

  // ---- what the hypotheses keep out ----------------------------------------------

  /** A selected outbound that leaves stays selected if and only if the group is not emptied, the
      tag it stands for still has a recorded delay when the choice is made, and no remaining member
      passes the scan's guard against it. `written` is the history at that moment. In an atomic
      `Remove` it is what the eviction left; a probe that lands between the eviction and the choice
      can put anything there. */
  lemma StaysAfterLeaving(
    tolerance: nat, v: View, tags: seq<Tag>, written: Histories, v': View, network: Network, gone: Outbound)
    requires WellTagged(v.outbounds) && gone.tag in tags && Choice(v, network) == Some(gone)
    requires network == "tcp" || network == "udp"
    requires v'.tags != [] ==> Lists(v'.tags, Shrunk(v.outbounds, tags).Keys)
    requires UpdateStep(tolerance, Left(v, tags, v'.tags).(history := written), v')
    ensures Choice(v', network) == Some(gone) <==>
            v'.tags != [] && RealTag(gone) in written && Undisplaced(SceneOf(v', network, tolerance), gone)
  {
    if v'.tags != [] {
      StaysExactly(SceneOf(v', network, tolerance), gone, Choice(v', network));
    }
  }

  /** For `Remove` as one step. The history that has to be left is the one under the tag that the
      outbound stands for; a leaf's is evicted with it, a nested group's is not. */
  lemma StaysAfterRemove(tolerance: nat, v: View, tags: seq<Tag>, v': View, n: nat, network: Network, gone: Outbound)
    requires v.tags != [] && WellTagged(v.outbounds) && gone.tag in tags && Choice(v, network) == Some(gone)
    requires (network == "tcp" || network == "udp") && RemoveStep(tolerance, v, tags, v', n)
    ensures Choice(v', network) == Some(gone) <==>
            && v'.tags != [] && RealTag(gone) in v.history
            && !(RealTag(gone) in tags && RealTag(gone) in v.outbounds)
            && Undisplaced(SceneOf(v', network, tolerance), gone)
    ensures MemberOrNil(v.outbounds, Choice(v, network)) && gone.kind.Leaf? ==> Choice(v', network) != Some(gone)
  {
    StaysAfterLeaving(tolerance, v, tags, Left(v, tags, v'.tags).history, v', network, gone);
  }

  const NESTED: Outbound := Outbound(0, "group", {"tcp"}, Group("inner"))
  const PLAIN: Outbound := Outbound(1, "leaf", {"tcp"}, Leaf)

  /** A group that has selected its nested group, whose present tag has a history. */
  const NESTING: View :=
    View(["group", "leaf"], map["group" := NESTED, "leaf" := PLAIN], map["inner" := History(10, 0)], Some(NESTED), None)

  lemma NestingListed()
    ensures Lists(["leaf"], {"leaf"}) && Lists(NESTING.tags, NESTING.outbounds.Keys)
  {
    assert Range(["leaf"]) == {"leaf"} && Range(NESTING.tags) == {"group", "leaf"};
  }

  lemma NestingLeft()
    ensures Left(NESTING, ["group"], ["leaf"]) == NESTING.(tags := ["leaf"], outbounds := map["leaf" := PLAIN])
    ensures |NESTING.outbounds| == 2
  {
    assert Range(["group"]) == {"group"};
    assert NESTING.outbounds.Keys == {"group", "leaf"};
    assert NESTING.outbounds - {"group"} == map["leaf" := PLAIN];
  }

  /** It happens: a selected nested group whose present tag has a history is removed and stays. */
  lemma NestedGroupStays(tolerance: nat) returns (v': View)
    ensures Lists(NESTING.tags, NESTING.outbounds.Keys) && WellTagged(NESTING.outbounds)
    ensures MemberOrNil(NESTING.outbounds, NESTING.tcp) && NESTING.tcp == Some(NESTED)
    ensures RemoveStep(tolerance, NESTING, ["group"], v', 1)
    ensures v'.tcp == Some(NESTED) && NESTED.tag !in v'.outbounds
  {
    NestingListed();
    NestingLeft();
    var mid := Left(NESTING, ["group"], ["leaf"]);
    var pick := SomePick(SceneOf(mid, "tcp", tolerance), mid.tcp);
    v' := Updated(tolerance, mid, "tcp", pick);
    StaysAfterRemove(tolerance, NESTING, ["group"], v', 1, "tcp", NESTED);
  }

  lemma SomePick(s: Scene, current: Option<Outbound>) returns (pick: Option<Outbound>)
    ensures Picks(s, current, pick)
  {
    var order := ListOf(s.members.Keys);
    pick := Pick(s, current, order, order);
  }
}
