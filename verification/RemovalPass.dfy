/** What a pass of the removal queue does, in every interleaving: where its decisions come from,
    which item its commit acts on, and what an undisturbed pass comes to. */
module RemovalPass {
  import opened Common
  import opened RemovalQueue
  import opened RemovalProtocol

  // ---- where a pass began --------------------------------------------------------

  predicate InPass(s: State, i: nat) {
    i < |s.checkers| && (s.checkers[i].pc.Listing? || s.checkers[i].pc.Deciding?)
  }

  /** How one step can leave checker `i` inside a pass: it took its snapshot, listed the
      connections, examined one entry, or stood still. */
  lemma PassStep(cfg: Config, s: State, step: Step, i: nat)
    requires Enabled(cfg, s, step) && InPass(Next(cfg, s, step), i)
    ensures InTurn(s, step, Next(cfg, s, step), i)
  {
    if !(HasChecker(step) && step.i == i) && i < |s.checkers| {
      OthersStand(cfg, s, step, i);
    }
  }

  predicate InTurn(s: State, step: Step, s': State, i: nat)
    requires InPass(s', i)
  {
    var pc' := s'.checkers[i].pc;
    if step == Snapshot(i) then pc' == Listing(s.pending)
    else
      && InPass(s, i) && pc'.snapshot == s.checkers[i].pc.snapshot
      && if step.List? && step.i == i then pc'.Deciding? && pc'.open == OpenTags(step.conns)
         else pc'.Deciding? ==> s.checkers[i].pc.Deciding? && pc'.open == s.checkers[i].pc.open
  }

  lemma PassStepAt(cfg: Config, states: seq<State>, steps: seq<Step>, n: nat, i: nat)
    requires Run(cfg, states, steps) && n < |steps| && InPass(states[n + 1], i)
    ensures InTurn(states[n], steps[n], states[n + 1], i)
  {
    StepAt(cfg, states, steps, n);
    PassStep(cfg, states[n], steps[n], i);
  }

  /** A checker inside a pass took its snapshot at some earlier step `k`, and has taken none
      since; once it is deciding, it listed the connections at a step `l` after that. */
  lemma {:induction false} PassBegan(cfg: Config, states: seq<State>, steps: seq<Step>, n: nat, i: nat)
    returns (k: nat, l: nat)
    requires Run(cfg, states, steps) && n < |states| && InPass(states[n], i)
    ensures k < n && steps[k] == Snapshot(i) && forall m :: k < m < n ==> steps[m] != Snapshot(i)
    ensures states[n].checkers[i].pc.snapshot == states[k].pending
    ensures states[n].checkers[i].pc.Deciding? ==>
              k < l < n && steps[l].List? && steps[l].i == i
              && states[n].checkers[i].pc.open == OpenTags(steps[l].conns)
  {
    assert n > 0;
    var step := steps[n - 1];
    PassStepAt(cfg, states, steps, n - 1, i);
    if step == Snapshot(i) {
      k, l := n - 1, n;
    } else {
      k, l := PassBegan(cfg, states, steps, n - 1, i);
      if step.List? && step.i == i {
        l := n - 1;
      }
    }
  }

  /** The worker `i` is deciding and has examined `t`. */
  predicate HasDecided(s: State, i: nat, t: Tag) {
    && i < |s.checkers| && s.checkers[i].pc.Deciding?
    && t in s.checkers[i].pc.snapshot && t !in s.checkers[i].pc.todo
  }

  /** The verdict on `t` is the rule's, applied at the time `now`. */
  predicate Judged(cfg: Config, pc: Pc, t: Tag, now: int)
    requires pc.Deciding? && t in pc.snapshot
  {
    t in pc.doomed <==> Due(pc.snapshot[t], t in pc.open, now, cfg.forceAfter)
  }

  /** An examined tag was examined before, with the same verdict, or just now. */
  lemma DecideStep(cfg: Config, s: State, step: Step, i: nat, t: Tag)
    requires Enabled(cfg, s, step) && HasDecided(Next(cfg, s, step), i, t)
    requires i < |s.checkers| ==> Backed(cfg, s.checkers[i].pc, s.now)
    ensures step != Snapshot(i) && !(step.List? && step.i == i)
    ensures if step == Decide(i, t) then Judged(cfg, Next(cfg, s, step).checkers[i].pc, t, s.now)
            else HasDecided(s, i, t)
                 && forall now :: Judged(cfg, Next(cfg, s, step).checkers[i].pc, t, now) == Judged(cfg, s.checkers[i].pc, t, now)
  {
    if !(HasChecker(step) && step.i == i) && i < |s.checkers| {
      OthersStand(cfg, s, step, i);
    }
  }

  lemma DecideStepAt(cfg: Config, states: seq<State>, steps: seq<Step>, n: nat, i: nat, t: Tag)
    requires Run(cfg, states, steps) && n < |steps| && HasDecided(states[n + 1], i, t)
    ensures steps[n] != Snapshot(i) && !(steps[n].List? && steps[n].i == i)
    ensures if steps[n] == Decide(i, t) then Judged(cfg, states[n + 1].checkers[i].pc, t, states[n].now)
            else HasDecided(states[n], i, t)
                 && forall now :: Judged(cfg, states[n + 1].checkers[i].pc, t, now) == Judged(cfg, states[n].checkers[i].pc, t, now)
  {
    StepAt(cfg, states, steps, n);
    BackedAt(cfg, states, steps, n);
    DecideStep(cfg, states[n], steps[n], i, t);
  }

  /** Every tag a pass has examined was examined, after the listing, at a step `d` of that pass,
      and its verdict is the rule's at that moment. */
  lemma {:induction false} DecidedWhen(cfg: Config, states: seq<State>, steps: seq<Step>, n: nat, i: nat, t: Tag)
    returns (d: nat)
    requires Run(cfg, states, steps) && n < |states| && HasDecided(states[n], i, t)
    ensures d < n && steps[d] == Decide(i, t) && Judged(cfg, states[n].checkers[i].pc, t, states[d].now)
    ensures forall m :: d <= m < n ==> steps[m] != Snapshot(i) && !(steps[m].List? && steps[m].i == i)
  {
    assert n > 0;
    DecideStepAt(cfg, states, steps, n - 1, i, t);
    if steps[n - 1] == Decide(i, t) {
      d := n - 1;
    } else {
      d := DecidedWhen(cfg, states, steps, n - 1, i, t);
    }
  }

  /** The commit at step `j` ends the pass whose snapshot is step `k`. */
  predicate PassOf(steps: seq<Step>, k: nat, j: nat) {
    && k < j < |steps| && steps[j].Commit? && steps[k] == Snapshot(steps[j].i)
    && forall m :: k < m < j ==> steps[m] != Snapshot(steps[j].i)
  }

  /** The pass of the commit at `j`, with its snapshot at `k` and its listing at `l`, examined `t`
      at step `d`; and the commit removes `t` exactly when `t` is still pending and, when it was
      examined, had no open connection in the listing or was overdue. */
  ghost predicate DecidedAt(cfg: Config, states: seq<State>, steps: seq<Step>, k: nat, l: nat, d: nat, j: nat, t: Tag)
    requires |states| == |steps| + 1
  {
    && k < l < d < j && Committing(states, steps, j) && steps[l].List? && steps[d] == Decide(steps[j].i, t)
    && t in states[k].pending
    && (t in Removed(states[j], steps[j].i) <==>
        && t in states[j].pending
        && ((forall c :: c in steps[l].conns && c.open ==> c.outbound != t)
            || states[d].now - states[k].pending[t].addedAt > cfg.forceAfter))
  }

  /** Justified removal, in every fine-grained interleaving, and the force rule with it: a commit at
      step `j` belongs to the pass that took its snapshot at `k` and its listing at `l`; it removes
      snapshot tags only, and of those exactly the pending ones that were due when they were
      examined. So no snapshot tag without an open connection is pending afterwards. */
  lemma JustifiedRemoval(cfg: Config, states: seq<State>, steps: seq<Step>, j: nat) returns (k: nat, l: nat)
    requires Run(cfg, states, steps) && j < |steps| && steps[j].Commit?
    ensures PassOf(steps, k, j) && k < l < j && steps[l].List? && steps[l].i == steps[j].i
    ensures Committing(states, steps, j)
    ensures states[j + 1].pending == states[j].pending - Removed(states[j], steps[j].i)
    ensures Removed(states[j], steps[j].i) <= states[k].pending.Keys * states[j].pending.Keys
    ensures forall t :: t in states[k].pending ==> exists d :: DecidedAt(cfg, states, steps, k, l, d, j, t)
    ensures forall t :: t in states[k].pending && (forall c :: c in steps[l].conns && c.open ==> c.outbound != t) ==>
              t !in states[j + 1].pending
  {
    var i := steps[j].i;
    CommitAt(cfg, states, steps, j);
    k, l := PassBegan(cfg, states, steps, j, i);
    BackedAt(cfg, states, steps, j);
    assert Backed(cfg, states[j].checkers[i].pc, states[j].now);
    forall t | t in states[k].pending
      ensures exists d :: DecidedAt(cfg, states, steps, k, l, d, j, t)
    {
      var d := DecidedWhen(cfg, states, steps, j, i, t);
      assert DecidedAt(cfg, states, steps, k, l, d, j, t);
    }
  }

  /** What is in use stays: a tag with an open connection in the listing of a commit's pass is not
      removed by that commit, unless it was older than `forceAfter` when the pass examined it. */
  lemma InUseStays(cfg: Config, states: seq<State>, steps: seq<Step>, j: nat, t: Tag) returns (k: nat, l: nat, d: nat)
    requires Run(cfg, states, steps) && j < |steps| && steps[j].Commit? && t in states[j].pending
    ensures PassOf(steps, k, j) && k < l < j && steps[l].List? && steps[l].i == steps[j].i
    ensures t !in states[k].pending ==> t in states[j + 1].pending
    ensures t in states[k].pending ==> l < d < j && steps[d] == Decide(steps[j].i, t)
    ensures t in states[k].pending && (exists c :: c in steps[l].conns && c.open && c.outbound == t)
            && states[d].now - states[k].pending[t].addedAt <= cfg.forceAfter ==>
              t in states[j + 1].pending && states[j + 1].pending[t] == states[j].pending[t]
  {
    k, l := JustifiedRemoval(cfg, states, steps, j);
    d := 0;
    if t in states[k].pending {
      d :| DecidedAt(cfg, states, steps, k, l, d, j, t);
    }
  }

  /** At the commit of step `j` its worker is deciding. */
  predicate Committing(states: seq<State>, steps: seq<Step>, j: nat) {
    && j < |steps| && j < |states| && steps[j].Commit? && steps[j].i < |states[j].checkers|
    && states[j].checkers[steps[j].i].pc.Deciding?
  }

  // ---- an undisturbed pass -------------------------------------------------------

  /** Step by step: while nothing is enqueued or dequeued, a pass leaves the pending map alone. */
  lemma {:induction false} PassLeavesPending(cfg: Config, states: seq<State>, steps: seq<Step>, k: nat, n: nat, j: nat)
    requires Run(cfg, states, steps) && PassOf(steps, k, j) && k < n <= j
    requires forall e :: k < e < j ==> !steps[e].Enqueue? && !steps[e].Dequeue?
    ensures states[n].pending == states[k].pending
  {
    if k < n - 1 {
      PassLeavesPending(cfg, states, steps, k, n - 1, j);
      NoOtherCommit(cfg, states, steps, k, n - 1, j);
    }
    QuietStepAt(cfg, states, steps, n - 1);
  }

  lemma QuietStepAt(cfg: Config, states: seq<State>, steps: seq<Step>, n: nat)
    requires Run(cfg, states, steps) && n < |steps|
    requires !steps[n].Enqueue? && !steps[n].Dequeue? && !steps[n].Commit?
    ensures states[n + 1].pending == states[n].pending
  {
    StepAt(cfg, states, steps, n);
  }

  /** A pass during which nothing is enqueued or dequeued does exactly what `CheckPending` does: its
      commit keeps the entries that are not due by its listing and by the clock as read for each
      entry, and removes all the others. */
  lemma UndisturbedPass(cfg: Config, states: seq<State>, steps: seq<Step>, j: nat)
    returns (k: nat, l: nat, clock: Tag -> int)
    requires Run(cfg, states, steps) && j < |steps| && steps[j].Commit?
    requires forall k: nat, e: nat :: PassOf(steps, k, j) && k < e < j ==> !steps[e].Enqueue? && !steps[e].Dequeue?
    ensures PassOf(steps, k, j) && k < l < j && steps[l].List? && steps[l].i == steps[j].i
    ensures forall t :: t in states[k].pending ==>
              exists d :: l < d < j && steps[d] == Decide(steps[j].i, t) && clock(t) == states[d].now
    ensures states[j + 1].pending == Surviving(states[k].pending, OpenTags(steps[l].conns), clock, cfg.forceAfter)
    ensures forall t :: t in states[j + 1].pending <==>
              && t in states[k].pending && (exists c :: c in steps[l].conns && c.open && c.outbound == t)
              && clock(t) - states[k].pending[t].addedAt <= cfg.forceAfter
    ensures Committing(states, steps, j) && Removed(states[j], steps[j].i) == states[k].pending.Keys - states[j + 1].pending.Keys
  {
    CommitAt(cfg, states, steps, j);
    k, l := PassBegan(cfg, states, steps, j, steps[j].i);
    PassLeavesPending(cfg, states, steps, k, j, j);
    clock := ClockOf(cfg, states, steps, l, j, steps[j].i);
    JudgedSurvive(cfg, states[j].checkers[steps[j].i].pc, clock);
  }

  lemma CommitAt(cfg: Config, states: seq<State>, steps: seq<Step>, j: nat)
    requires Run(cfg, states, steps) && j < |steps| && steps[j].Commit?
    ensures Committing(states, steps, j) && states[j].checkers[steps[j].i].pc.todo == {}
    ensures states[j + 1].pending == states[j].pending - states[j].checkers[steps[j].i].pc.doomed
  {
    StepAt(cfg, states, steps, j);
  }

  lemma JudgedSurvive(cfg: Config, pc: Pc, clock: Tag -> int)
    requires pc.Deciding? && forall t :: t in pc.snapshot ==> Judged(cfg, pc, t, clock(t))
    ensures pc.snapshot - pc.doomed == Surviving(pc.snapshot, pc.open, clock, cfg.forceAfter)
    ensures pc.snapshot.Keys * pc.doomed == pc.snapshot.Keys - (pc.snapshot - pc.doomed).Keys
  {}

  /** The clock as a pass read it: for each entry, at the step that examined it. */
  lemma ClockOf(cfg: Config, states: seq<State>, steps: seq<Step>, l: nat, j: nat, i: nat) returns (clock: Tag -> int)
    requires Run(cfg, states, steps) && l < j < |steps| && steps[j] == Commit(i) && Committing(states, steps, j)
    requires steps[l].List? && steps[l].i == i
    ensures forall t :: t in states[j].checkers[i].pc.snapshot ==>
              && Judged(cfg, states[j].checkers[i].pc, t, clock(t))
              && exists d :: l < d < j && steps[d] == Decide(i, t) && clock(t) == states[d].now
  {
    StepAt(cfg, states, steps, j);
    var pc := states[j].checkers[i].pc;
    forall t | t in pc.snapshot
      ensures exists d :: ReadAt(cfg, states, steps, l, j, i, t, d)
    {
      var d := DecidedWhen(cfg, states, steps, j, i, t);
      assert ReadAt(cfg, states, steps, l, j, i, t, d);
    }
    var readings := map t | t in pc.snapshot :: states[ReadingOf(cfg, states, steps, l, j, i, t)].now;
    clock := t => if t in readings then readings[t] else 0;
  }

  ghost predicate ReadAt(cfg: Config, states: seq<State>, steps: seq<Step>, l: nat, j: nat, i: nat, t: Tag, d: nat) {
    && l < d < j < |steps| && j < |states| && steps[d] == Decide(i, t)
    && i < |states[j].checkers| && states[j].checkers[i].pc.Deciding? && t in states[j].checkers[i].pc.snapshot
    && Judged(cfg, states[j].checkers[i].pc, t, states[d].now)
  }

  ghost function ReadingOf(cfg: Config, states: seq<State>, steps: seq<Step>, l: nat, j: nat, i: nat, t: Tag): (d: nat)
    requires exists d :: ReadAt(cfg, states, steps, l, j, i, t, d)
    ensures ReadAt(cfg, states, steps, l, j, i, t, d)
  {
    var d :| ReadAt(cfg, states, steps, l, j, i, t, d);
    d
  }

  // ---- which item a commit acts on -----------------------------------------------

  /** Step `e` inserts `t`: it enqueues it while it is not pending. */
  predicate Inserts(states: seq<State>, steps: seq<Step>, e: nat, t: Tag) {
    e < |steps| && e < |states| && steps[e].Enqueue? && steps[e].tag == t && t !in states[e].pending
  }

  function InsertedItem(states: seq<State>, steps: seq<Step>, e: nat): Item
    requires e < |steps| && e < |states| && steps[e].Enqueue?
  {
    Item(steps[e].tag, steps[e].isEndpoint, states[e].now)
  }

  /** Step `e` is the last to insert `t` among the steps from `k` up to `j`. */
  predicate LastInserts(states: seq<State>, steps: seq<Step>, k: nat, e: nat, j: nat, t: Tag) {
    k <= e < j && Inserts(states, steps, e, t) && forall m :: e < m < j ==> !Inserts(states, steps, m, t)
  }

  /** Where a pending item comes from. */
  lemma ItemStep(cfg: Config, s: State, step: Step, t: Tag)
    requires Enabled(cfg, s, step) && t in Next(cfg, s, step).pending
    ensures if step.Enqueue? && step.tag == t && t !in s.pending
            then Next(cfg, s, step).pending[t] == Item(t, step.isEndpoint, s.now)
            else t in s.pending && Next(cfg, s, step).pending[t] == s.pending[t]
  {}

  lemma ItemStepAt(cfg: Config, states: seq<State>, steps: seq<Step>, n: nat, t: Tag)
    requires Run(cfg, states, steps) && n < |steps| && t in states[n + 1].pending
    ensures if Inserts(states, steps, n, t) then states[n + 1].pending[t] == InsertedItem(states, steps, n)
            else t in states[n].pending && states[n + 1].pending[t] == states[n].pending[t]
  {
    StepAt(cfg, states, steps, n);
    ItemStep(cfg, states[n], steps[n], t);
  }

  /** Without an insertion a pending item is the very item that was pending before. */
  lemma {:induction false} ItemStays(cfg: Config, states: seq<State>, steps: seq<Step>, k: nat, j: nat, t: Tag)
    requires Run(cfg, states, steps) && k <= j < |states| && t in states[j].pending
    requires forall e :: k <= e < j ==> !Inserts(states, steps, e, t)
    ensures t in states[k].pending && states[k].pending[t] == states[j].pending[t]
  {
    if k < j {
      ItemStepAt(cfg, states, steps, j - 1, t);
      assert !Inserts(states, steps, j - 1, t);
      ItemStays(cfg, states, steps, k, j - 1, t);
    }
  }

  /** Otherwise it is the item of the last insertion. */
  lemma ItemOfLast(cfg: Config, states: seq<State>, steps: seq<Step>, k: nat, e: nat, j: nat, t: Tag)
    requires Run(cfg, states, steps) && j < |states| && t in states[j].pending && LastInserts(states, steps, k, e, j, t)
    ensures states[j].pending[t] == InsertedItem(states, steps, e)
  {
    ItemStays(cfg, states, steps, e + 1, j, t);
    ItemStepAt(cfg, states, steps, e, t);
  }

  lemma {:induction false} FindLast(states: seq<State>, steps: seq<Step>, k: nat, j: nat, t: Tag) returns (e: nat)
    requires exists m :: k <= m < j && Inserts(states, steps, m, t)
    ensures LastInserts(states, steps, k, e, j, t)
  {
    if Inserts(states, steps, j - 1, t) {
      e := j - 1;
    } else {
      e := FindLast(states, steps, k, j - 1, t);
    }
  }

  /** When a commit acts on the item its pass examined: a tag that it removes is pending with the
      snapshot's own item if and only if no step since the snapshot inserted the tag, or the last
      that did inserted an equal item. */
  lemma ActsOnExamined(cfg: Config, states: seq<State>, steps: seq<Step>, k: nat, j: nat, t: Tag)
    requires Run(cfg, states, steps) && PassOf(steps, k, j) && Committing(states, steps, j)
    requires t in Removed(states[j], steps[j].i)
    ensures t in states[j].pending && t in states[k].pending
    ensures states[j].pending[t] == states[k].pending[t] <==>
            forall e :: LastInserts(states, steps, k, e, j, t) ==> InsertedItem(states, steps, e) == states[k].pending[t]
    ensures (forall e :: k < e < j ==> !Inserts(states, steps, e, t)) ==> states[j].pending[t] == states[k].pending[t]
  {
    var k', l := JustifiedRemoval(cfg, states, steps, j);
    assert k' == k;
    if exists m :: k <= m < j && Inserts(states, steps, m, t) {
      var e := FindLast(states, steps, k, j, t);
      ItemOfLast(cfg, states, steps, k, e, j, t);
    } else {
      ItemStays(cfg, states, steps, k, j, t);
    }
  }

  /** Without prompt scheduling an age exceeds `forceAfter` by no more than the time since the item
      was last examined: this holds of every item that has gone through a pass, whatever its delays. */
  lemma AgeAfterPass(cfg: Config, states: seq<State>, steps: seq<Step>, k: nat, j: nat, n: nat, t: Tag) returns (d: nat)
    requires Run(cfg, states, steps) && PassOf(steps, k, j) && j < n < |states| && t in states[n].pending
    requires forall e :: k <= e < n ==> !Inserts(states, steps, e, t)
    ensures k < d < j && steps[d] == Decide(steps[j].i, t)
    ensures states[n].now - states[n].pending[t].addedAt <= cfg.forceAfter + (states[n].now - states[d].now)
  {
    var k', l := JustifiedRemoval(cfg, states, steps, j);
    assert k' == k;
    ItemStays(cfg, states, steps, k, n, t);
    ItemStays(cfg, states, steps, j + 1, n, t);
    d :| DecidedAt(cfg, states, steps, k, l, d, j, t);
  }

  /** What it means to be in the exit window: the tag was inserted at a step `e` at which some worker
      was between its exit test and the clearing of `running`, and has been neither dequeued nor
      through the end of a pass since. */
  ghost predicate InWindow(states: seq<State>, steps: seq<Step>, e: nat, n: nat, t: Tag)
    requires |states| == |steps| + 1 && n < |states|
  {
    && e < n && Inserts(states, steps, e, t) && SomeExiting(states[e])
    && forall m :: e < m < n ==> !steps[m].Commit? && steps[m] != Dequeue(t)
  }

  lemma {:induction false} WindowedMeans(cfg: Config, states: seq<State>, steps: seq<Step>, n: nat, t: Tag)
    requires Run(cfg, states, steps) && n < |states|
    ensures t in states[n].windowed <==> exists e :: InWindow(states, steps, e, n, t)
  {
    if n > 0 {
      var p: nat := n - 1;
      WindowedMeans(cfg, states, steps, p, t);
      WindowStepAt(cfg, states, steps, p, t);
      if t in states[n].windowed {
        if Inserts(states, steps, p, t) {
          assert InWindow(states, steps, p, n, t);
        } else {
          var e: nat :| InWindow(states, steps, e, p, t);
          assert InWindow(states, steps, e, n, t);
        }
      } else {
        forall e: nat | InWindow(states, steps, e, n, t) ensures false {
          assert e < p ==> InWindow(states, steps, e, p, t);
        }
      }
    }
  }

  lemma WindowStepAt(cfg: Config, states: seq<State>, steps: seq<Step>, n: nat, t: Tag)
    requires Run(cfg, states, steps) && n < |steps|
    ensures t in states[n + 1].windowed <==>
            || (Inserts(states, steps, n, t) && SomeExiting(states[n]))
            || (t in states[n].windowed && !steps[n].Commit? && steps[n] != Dequeue(t))
    ensures Inserts(states, steps, n, t) ==> t !in states[n].windowed
  {
    StepAt(cfg, states, steps, n);
    RunKeeps(cfg, states, steps, n);
    if i :| 0 <= i < |states[n].checkers| && states[n].checkers[i].pc.Exiting? {
      assert Active(states[n].checkers[i]);
    }
  }

  // ---- which dequeued tags a commit removes --------------------------------------

  /** Between its snapshot and its commit a worker stays in its pass. */
  lemma {:induction false} StaysInPass(cfg: Config, states: seq<State>, steps: seq<Step>, n: nat, j: nat, i: nat)
    requires Run(cfg, states, steps) && n <= j < |states| && InPass(states[j], i)
    requires forall m :: n <= m < j ==> steps[m] != Snapshot(i)
    ensures InPass(states[n], i)
  {
    if n < j {
      PassStepAt(cfg, states, steps, j - 1, i);
      StaysInPass(cfg, states, steps, n, j - 1, i);
    }
  }

  lemma CommitLeavesPass(cfg: Config, states: seq<State>, steps: seq<Step>, n: nat)
    requires Run(cfg, states, steps) && n < |steps| && steps[n].Commit?
    ensures Committing(states, steps, n) && !InPass(states[n + 1], steps[n].i)
  {
    StepAt(cfg, states, steps, n);
  }

  /** No worker commits between the snapshot and the commit of a pass. */
  lemma NoOtherCommit(cfg: Config, states: seq<State>, steps: seq<Step>, k: nat, m: nat, j: nat)
    requires Run(cfg, states, steps) && PassOf(steps, k, j) && k < m < j
    ensures !steps[m].Commit?
  {
    if steps[m].Commit? {
      var i := steps[j].i;
      CommitLeavesPass(cfg, states, steps, j);
      CommitLeavesPass(cfg, states, steps, m);
      StaysInPass(cfg, states, steps, m, j, i);
      StaysInPass(cfg, states, steps, m + 1, j, i);
      AtMostOneWorker(cfg, states, steps, m, i, steps[m].i);
      assert false;
    }
  }

  lemma PendingStepAt(cfg: Config, states: seq<State>, steps: seq<Step>, n: nat, t: Tag)
    requires Run(cfg, states, steps) && n < |steps| && t in states[n].pending
    requires steps[n] != Dequeue(t) && !steps[n].Commit?
    ensures t in states[n + 1].pending && states[n + 1].pending[t] == states[n].pending[t]
  {
    StepAt(cfg, states, steps, n);
  }

  /** A pending tag stays pending through a pass, unless it is dequeued. */
  lemma {:induction false} PendingStays(cfg: Config, states: seq<State>, steps: seq<Step>, k: nat, m: nat, n: nat, j: nat, t: Tag)
    requires Run(cfg, states, steps) && PassOf(steps, k, j) && k < m <= n <= j && t in states[m].pending
    requires forall e :: m <= e < n ==> steps[e] != Dequeue(t)
    ensures t in states[n].pending && states[n].pending[t] == states[m].pending[t]
  {
    if m < n {
      PendingStays(cfg, states, steps, k, m, n - 1, j, t);
      NoOtherCommit(cfg, states, steps, k, n - 1, j);
      PendingStepAt(cfg, states, steps, n - 1, t);
    }
  }

  /** A dequeued tag is removed by a later commit if and only if that commit's pass has doomed it
      and it was inserted again after its last dequeue. */
  lemma RemovedAfterDequeue(cfg: Config, states: seq<State>, steps: seq<Step>, m: nat, j: nat, t: Tag)
    requires Run(cfg, states, steps) && m < j < |steps| && steps[m] == Dequeue(t) && steps[j].Commit?
    requires forall e :: m < e < j ==> steps[e] != Dequeue(t)
    ensures Committing(states, steps, j)
    ensures t in Removed(states[j], steps[j].i) <==>
            && t in states[j].checkers[steps[j].i].pc.doomed
            && exists e :: m < e < j && Inserts(states, steps, e, t)
  {
    var k, l := JustifiedRemoval(cfg, states, steps, j);
    StepAt(cfg, states, steps, m);
    if forall e :: m < e < j ==> !Inserts(states, steps, e, t) {
      NotInsertedIsAbsent(cfg, states, steps, m, j, t);
    } else if t in states[j].checkers[steps[j].i].pc.doomed {
      DoomedIsPending(cfg, states, steps, k, m, j, t);
    }
  }

  lemma NotInsertedIsAbsent(cfg: Config, states: seq<State>, steps: seq<Step>, m: nat, j: nat, t: Tag)
    requires Run(cfg, states, steps) && m < j < |steps| && steps[m] == Dequeue(t)
    requires forall e :: m < e < j ==> !Inserts(states, steps, e, t)
    ensures t !in states[j].pending
  {
    StepAt(cfg, states, steps, m);
    if t in states[j].pending {
      ItemStays(cfg, states, steps, m + 1, j, t);
    }
  }

  lemma DoomedIsPending(cfg: Config, states: seq<State>, steps: seq<Step>, k: nat, m: nat, j: nat, t: Tag)
    requires Run(cfg, states, steps) && PassOf(steps, k, j) && Committing(states, steps, j) && m < j
    requires t in states[j].checkers[steps[j].i].pc.doomed && steps[m] == Dequeue(t)
    requires forall e :: m < e < j ==> steps[e] != Dequeue(t)
    requires exists e :: m < e < j && Inserts(states, steps, e, t)
    ensures t in states[j].pending
  {
    if k < m {
      var e :| m < e < j && Inserts(states, steps, e, t);
      StepAt(cfg, states, steps, e);
      PendingStays(cfg, states, steps, k, e + 1, j, j, t);
    } else {
      var k', l := PassBegan(cfg, states, steps, j, steps[j].i);
      BackedAt(cfg, states, steps, j);
      assert Backed(cfg, states[j].checkers[steps[j].i].pc, states[j].now);
      QuietStepAt(cfg, states, steps, k);
      PendingStays(cfg, states, steps, k, k + 1, j, j, t);
    }
  }

  /** In particular a tag dequeued and not inserted again is never removed by a later commit,
      not even by a pass that took its snapshot before the dequeue. */
  lemma DequeuedIsSafe(cfg: Config, states: seq<State>, steps: seq<Step>, m: nat, j: nat, tag: Tag)
    requires Run(cfg, states, steps) && m < j < |steps| && steps[m] == Dequeue(tag) && steps[j].Commit?
    requires forall e :: m < e < j ==> !Inserts(states, steps, e, tag)
    ensures Committing(states, steps, j) && tag !in Removed(states[j], steps[j].i)
  {
    CommitLeavesPass(cfg, states, steps, j);
    NotInsertedIsAbsent(cfg, states, steps, m, j, tag);
  }

  /** The commit does not re-check its reasons: a tag dequeued and enqueued again inside the
      pass is removed on the old decision, although its present item was never examined. */
  lemma StaleDecision(cfg: Config) returns (states: seq<State>, steps: seq<Step>, j: nat)
    requires !cfg.prompt
    ensures Run(cfg, states, steps) && j < |steps| && steps[j] == Commit(0)
    ensures Enabled(cfg, states[j], steps[j]) && "a" in Removed(states[j], 0)
    ensures "a" in states[j].checkers[0].pc.snapshot
            && states[j].checkers[0].pc.snapshot["a"] != states[j].pending["a"]
  {
    states, steps := [State(map[], false, false, [], 0, {})], [];
    states, steps := Extend(cfg, states, steps, Enqueue("a", false));
    assert Last(states).checkers == [Checker(Spawned, 0)];
    states, steps := Extend(cfg, states, steps, Cas(0));
    var first := map["a" := Item("a", false, 0)];
    assert Last(states) == State(first, true, false, [Checker(AtPass, cfg.pollInterval)], 0, {});
    states, steps := StaleDecisionTail(cfg, states, steps, first);
    j := |steps| - 1;
  }

  lemma StaleDecisionTail(cfg: Config, before: seq<State>, beforeSteps: seq<Step>, first: Pending)
    returns (states: seq<State>, steps: seq<Step>)
    requires !cfg.prompt && Run(cfg, before, beforeSteps) && first == map["a" := Item("a", false, 0)]
    requires Last(before) == State(first, true, false, [Checker(AtPass, cfg.pollInterval)], 0, {})
    ensures Run(cfg, states, steps) && steps != [] && Last(steps) == Commit(0)
    ensures var s := states[|steps| - 1];
            && Enabled(cfg, s, Commit(0)) && "a" in Removed(s, 0)
            && s.checkers[0].pc.snapshot == first && s.pending["a"].addedAt == 1
  {
    states, steps := DoomInPass(cfg, before, beforeSteps, first);
    states, steps := Extend(cfg, states, steps, Dequeue("a"));
    states, steps := Extend(cfg, states, steps, Advance(1));
    states, steps := Extend(cfg, states, steps, Enqueue("a", false));
    assert Last(states).pending["a"].addedAt == 1 && Last(states).checkers[0].pc.snapshot == first;
    states, steps := Extend(cfg, states, steps, Commit(0));
  }

  lemma DoomInPass(cfg: Config, before: seq<State>, beforeSteps: seq<Step>, first: Pending)
    returns (states: seq<State>, steps: seq<Step>)
    requires Run(cfg, before, beforeSteps) && first == map["a" := Item("a", false, 0)]
    requires Last(before) == State(first, true, false, [Checker(AtPass, cfg.pollInterval)], 0, {})
    ensures Run(cfg, states, steps)
    ensures var s := Last(states);
            && s == Last(before).(checkers := s.checkers) && |s.checkers| == 1
            && s.checkers[0].pc.Deciding? && s.checkers[0].pc.snapshot == first
            && s.checkers[0].pc.todo == {} && s.checkers[0].pc.doomed == {"a"}
  {
    states, steps := Extend(cfg, before, beforeSteps, Snapshot(0));
    states, steps := Extend(cfg, states, steps, List(0, []));
    assert Last(states).checkers[0].pc.todo == {"a"} && Last(states).checkers[0].pc.snapshot == first;
    states, steps := Extend(cfg, states, steps, Decide(0, "a"));
  }
}
