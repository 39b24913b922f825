/** The removal queue as a transition system: one step per lock-held region or atomic
    operation, any number of checker goroutines, every interleaving. */
module RemovalProtocol {
  import opened Common
  import opened RemovalQueue

  /** Where a `checkLoop` goroutine stands. */
  datatype Pc =
    | Spawned                             // `go rq.checkLoop()` issued, compare-and-swap not tried
    | AtPass                              // about to call checkPending
    | Listing(snapshot: Pending)          // snapshot taken, connections not yet listed
    | Deciding(snapshot: Pending, open: set<Tag>, todo: set<Tag>, doomed: set<Tag>)
    | AtTest                              // pass over, about to test for an empty map
    | Waiting                             // in the select
    | Exiting                             // loop left, `running` not yet cleared
    | Finished

  /** `due` is the next tick of the checker's ticker. */
  datatype Checker = Checker(pc: Pc, due: int)

  /** `windowed` is a history variable: the pending tags that were inserted while some checker
      was between its exit test and the clearing of `running`, as long as no pass has ended since. */
  datatype State = State(
    pending: Pending, running: bool, done: bool, checkers: seq<Checker>, now: int, windowed: set<Tag>)

  /** `atomicExit` merges the empty test with the clearing of `running`; `prompt` lets time pass
      only while every checker waits for a tick that is not overdue. The code has neither. */
  datatype Config = Config(forceAfter: nat, pollInterval: nat, atomicExit: bool, prompt: bool)

  datatype Step =
    | Enqueue(tag: Tag, isEndpoint: bool)
    | Dequeue(tag: Tag)
    | Close
    | Advance(elapsed: nat)
    | Cas(i: nat)
    | Snapshot(i: nat)
    | List(i: nat, conns: seq<Connection>)
    | Decide(i: nat, tag: Tag)
    | Commit(i: nat)
    | Test(i: nat)
    | Tick(i: nat)
    | SeeDone(i: nat)
    | Exit(i: nat)
    | Elsewhere                           // a step of the program that does not concern the queue

  /** Past the compare-and-swap and not yet cleared. */
  predicate Active(c: Checker) {
    !c.pc.Spawned? && !c.pc.Finished?
  }

  /** Will still look at the pending map before it clears `running`. */
  predicate Live(c: Checker) {
    !c.pc.Exiting? && !c.pc.Finished?
  }

  predicate Idle(c: Checker, until: int) {
    c.pc.Finished? || (c.pc.Waiting? && until <= c.due)
  }

  predicate Enabled(cfg: Config, s: State, step: Step) {
    match step
    case Enqueue(_, _) => true
    case Dequeue(_) => true
    case Close => true
    case Advance(d) => cfg.prompt ==> forall c :: c in s.checkers ==> Idle(c, s.now + d)
    case Cas(i) => i < |s.checkers| && s.checkers[i].pc.Spawned?
    case Snapshot(i) => i < |s.checkers| && s.checkers[i].pc.AtPass?
    case List(i, _) => i < |s.checkers| && s.checkers[i].pc.Listing?
    case Decide(i, tag) => i < |s.checkers| && s.checkers[i].pc.Deciding? && tag in s.checkers[i].pc.todo
    case Commit(i) => i < |s.checkers| && s.checkers[i].pc.Deciding? && s.checkers[i].pc.todo == {}
    case Test(i) => i < |s.checkers| && s.checkers[i].pc.AtTest?
    case Tick(i) => i < |s.checkers| && s.checkers[i].pc.Waiting? && s.checkers[i].due <= s.now
    case SeeDone(i) => i < |s.checkers| && s.checkers[i].pc.Waiting? && s.done
    case Exit(i) => i < |s.checkers| && s.checkers[i].pc.Exiting?
    case Elsewhere => true
  }

  function At(s: State, i: nat, pc: Pc): State
    requires i < |s.checkers|
  {
    s.(checkers := s.checkers[i := s.checkers[i].(pc := pc)])
  }

  /** Some checker has left its loop and not yet cleared `running`. */
  predicate SomeExiting(s: State) {
    exists i :: 0 <= i < |s.checkers| && s.checkers[i].pc.Exiting?
  }

  function EnqueueStep(s: State, tag: Tag, isEndpoint: bool): State {
    if tag in s.pending then s
    else s.(
      pending := Enqueued(s.pending, tag, isEndpoint, s.now),
      checkers := if s.running then s.checkers else s.checkers + [Checker(Spawned, s.now)],
      windowed := if s.running && SomeExiting(s) then s.windowed + {tag} else s.windowed)
  }

  function Next(cfg: Config, s: State, step: Step): State
    requires Enabled(cfg, s, step)
  {
    match step
    case Enqueue(tag, isEndpoint) => EnqueueStep(s, tag, isEndpoint)
    case Dequeue(tag) => s.(pending := s.pending - {tag}, windowed := s.windowed - {tag})
    case Close => s.(done := true)
    case Advance(d) => s.(now := s.now + d)
    case Cas(i) =>
      if s.running then At(s, i, Finished)
      else s.(running := true, checkers := s.checkers[i := Checker(AtPass, s.now + cfg.pollInterval)])
    case Snapshot(i) => At(s, i, Listing(s.pending))
    case List(i, conns) =>
      var snapshot := s.checkers[i].pc.snapshot;
      At(s, i, Deciding(snapshot, OpenTags(conns), snapshot.Keys, {}))
    case Decide(i, tag) =>
      var Deciding(snapshot, open, todo, doomed) := s.checkers[i].pc;
      var due := tag in snapshot && Due(snapshot[tag], tag in open, s.now, cfg.forceAfter);
      At(s, i, Deciding(snapshot, open, todo - {tag}, if due then doomed + {tag} else doomed))
    case Commit(i) =>
      var doomed := s.checkers[i].pc.doomed;
      At(s, i, AtTest).(pending := s.pending - doomed, windowed := {})
    case Test(i) =>
      if |s.pending| != 0 then At(s, i, Waiting)
      else if cfg.atomicExit then At(s, i, Finished).(running := false)
      else At(s, i, Exiting)
    case Tick(i) =>
      s.(checkers := s.checkers[i := Checker(AtPass, s.checkers[i].due + cfg.pollInterval)])
    case SeeDone(i) => At(s, i, Exiting)
    case Exit(i) => At(s, i, Finished).(running := false)
    case Elsewhere => s
  }

  predicate Init(s: State) {
    s.pending == map[] && !s.running && !s.done && s.checkers == [] && s.windowed == {}
  }

  /** Step `n` of a sequence leads from state `n` to state `n + 1`. */
  ghost predicate Moves(cfg: Config, states: seq<State>, steps: seq<Step>, n: nat)
    requires n < |steps| && n + 1 < |states|
  {
    Enabled(cfg, states[n], steps[n]) && states[n + 1] == Next(cfg, states[n], steps[n])
  }

  ghost predicate Run(cfg: Config, states: seq<State>, steps: seq<Step>) {
    && |states| == |steps| + 1
    && Init(states[0])
    && forall n :: 0 <= n < |steps| ==> Moves(cfg, states, steps, n)
  }

  lemma StepAt(cfg: Config, states: seq<State>, steps: seq<Step>, n: nat)
    requires Run(cfg, states, steps) && n < |steps|
    ensures n + 1 < |states| && Enabled(cfg, states[n], steps[n]) && states[n + 1] == Next(cfg, states[n], steps[n])
  {
    assert Moves(cfg, states, steps, n);
  }

  // ---- one worker ----------------------------------------------------------------

  /** `running` is set exactly while one checker, and only one, is past its compare-and-swap. */
  ghost predicate OneWorker(s: State) {
    && (forall i, j | 0 <= i < |s.checkers| && 0 <= j < |s.checkers| ::
          Active(s.checkers[i]) && Active(s.checkers[j]) ==> i == j)
    && (s.running <==> exists i :: 0 <= i < |s.checkers| && Active(s.checkers[i]))
  }

  lemma OneWorkerKept(cfg: Config, s: State, step: Step)
    requires OneWorker(s) && Enabled(cfg, s, step)
    ensures OneWorker(Next(cfg, s, step))
  {
    if HasChecker(step) {
      CheckerActs(cfg, s, step);
      ActKeepsOneWorker(cfg, s, Next(cfg, s, step), step.i);
    } else if step.Enqueue? && s.running {
      var k :| 0 <= k < |s.checkers| && Active(s.checkers[k]);
      assert Active(Next(cfg, s, step).checkers[k]);
    }
  }

  predicate HasChecker(step: Step) {
    !step.Enqueue? && !step.Dequeue? && !step.Close? && !step.Advance? && !step.Elsewhere?
  }

  /** What a step of checker `i` can do to the checkers and the flags. */
  ghost predicate Acts(cfg: Config, s: State, s': State, i: nat) {
    && i < |s.checkers| == |s'.checkers| && s'.done == s.done && s'.now == s.now
    && (forall k :: 0 <= k < |s.checkers| && k != i ==> s'.checkers[k] == s.checkers[k])
    && ActsOnFlag(s.running, s.checkers[i], s'.running, s'.checkers[i])
    && LeavesInOrder(cfg, s, s'.checkers[i].pc, s.checkers[i].pc)
  }

  /** The flag follows the checker across its compare-and-swap and its exit. */
  predicate ActsOnFlag(running: bool, c: Checker, running': bool, c': Checker) {
    && running' == (if Active(c) == Active(c') then running else Active(c'))
    && (Active(c') && !Active(c) ==> !running)
  }

  /** A checker leaves its loop over an empty map or a closed queue, and finishes after that, by
      the merged exit, or because it lost the compare-and-swap. */
  predicate LeavesInOrder(cfg: Config, s: State, pc': Pc, pc: Pc) {
    && (pc'.Exiting? ==> s.done || (s.pending == map[] && !cfg.atomicExit))
    && (pc'.Finished? ==> pc.Exiting? || (pc.AtTest? && s.pending == map[]) || (pc.Spawned? && s.running))
  }

  lemma CheckerActs(cfg: Config, s: State, step: Step)
    requires Enabled(cfg, s, step) && HasChecker(step)
    ensures Acts(cfg, s, Next(cfg, s, step), step.i)
  {
    CheckerLeaves(cfg, s, step);
    CheckerFlags(cfg, s, step);
  }

  lemma CheckerLeaves(cfg: Config, s: State, step: Step)
    requires Enabled(cfg, s, step) && HasChecker(step)
    ensures LeavesInOrder(cfg, s, Next(cfg, s, step).checkers[step.i].pc, s.checkers[step.i].pc)
  {}

  lemma CheckerFlags(cfg: Config, s: State, step: Step)
    requires Enabled(cfg, s, step) && HasChecker(step)
    ensures ActsOnFlag(s.running, s.checkers[step.i], Next(cfg, s, step).running, Next(cfg, s, step).checkers[step.i])
  {}

  lemma ActKeepsOneWorker(cfg: Config, s: State, s': State, i: nat)
    requires OneWorker(s) && Acts(cfg, s, s', i)
    ensures OneWorker(s')
  {
    if s.running {
      var k :| 0 <= k < |s.checkers| && Active(s.checkers[k]);
      assert s'.running ==> Active(s'.checkers[k]);
    } else if s'.running {
      assert Active(s'.checkers[i]);
    }
  }

  // ---- no lost work --------------------------------------------------------------

  ghost predicate SomeLive(s: State) {
    exists i :: 0 <= i < |s.checkers| && Live(s.checkers[i])
  }

  /** While open: whatever is pending with nobody left to look at it, or behind a checker that
      is already leaving, was inserted inside an exit window. */
  ghost predicate WorkCovered(s: State) {
    && s.windowed <= s.pending.Keys
    && (!s.done && (SomeExiting(s) || !SomeLive(s)) ==> s.pending.Keys <= s.windowed)
  }

  /** With the merged exit there is no window before the queue is closed. */
  ghost predicate NoWindow(cfg: Config, s: State) {
    cfg.atomicExit && !s.done ==> s.windowed == {} && !SomeExiting(s)
  }

  lemma WorkCoveredKept(cfg: Config, s: State, step: Step)
    requires OneWorker(s) && WorkCovered(s) && NoWindow(cfg, s) && Enabled(cfg, s, step)
    ensures WorkCovered(Next(cfg, s, step)) && NoWindow(cfg, Next(cfg, s, step))
  {
    if step.Enqueue? {
      EnqueueCovers(cfg, s, step.tag, step.isEndpoint);
    } else if HasChecker(step) {
      CheckerCovers(cfg, s, step);
    }
  }

  lemma EnqueueCovers(cfg: Config, s: State, tag: Tag, isEndpoint: bool)
    requires OneWorker(s) && WorkCovered(s) && NoWindow(cfg, s)
    ensures WorkCovered(EnqueueStep(s, tag, isEndpoint)) && NoWindow(cfg, EnqueueStep(s, tag, isEndpoint))
  {
    var s' := EnqueueStep(s, tag, isEndpoint);
    forall k | 0 <= k < |s.checkers|
      ensures s'.checkers[k] == s.checkers[k]
    {}
    if !s.running && tag !in s.pending {
      assert Live(s'.checkers[|s.checkers|]);
      assert forall k :: 0 <= k < |s.checkers| ==> !Active(s'.checkers[k]);
    }
  }

  lemma CheckerCovers(cfg: Config, s: State, step: Step)
    requires OneWorker(s) && WorkCovered(s) && NoWindow(cfg, s) && Enabled(cfg, s, step) && HasChecker(step)
    ensures WorkCovered(Next(cfg, s, step)) && NoWindow(cfg, Next(cfg, s, step))
  {
    CheckerActs(cfg, s, step);
    CheckerTakes(cfg, s, step);
    ActCovers(cfg, s, Next(cfg, s, step), step.i);
  }

  /** Only a commit changes the pending map, and its checker goes on. */
  ghost predicate Takes(s: State, s': State, i: nat)
    requires i < |s.checkers| == |s'.checkers|
  {
    || (s'.pending == s.pending && s'.windowed == s.windowed)
    || (s'.windowed == {} && Active(s.checkers[i]) && Live(s'.checkers[i]))
  }

  lemma CheckerTakes(cfg: Config, s: State, step: Step)
    requires Enabled(cfg, s, step) && HasChecker(step)
    ensures |Next(cfg, s, step).checkers| == |s.checkers| && Takes(s, Next(cfg, s, step), step.i)
  {
    if !step.Commit? {
      OthersTakeNothing(cfg, s, step);
    }
  }

  lemma OthersTakeNothing(cfg: Config, s: State, step: Step)
    requires Enabled(cfg, s, step) && HasChecker(step) && !step.Commit?
    ensures |Next(cfg, s, step).checkers| == |s.checkers|
    ensures Next(cfg, s, step).pending == s.pending && Next(cfg, s, step).windowed == s.windowed
  {}

  lemma ActCovers(cfg: Config, s: State, s': State, i: nat)
    requires OneWorker(s) && WorkCovered(s) && NoWindow(cfg, s) && Acts(cfg, s, s', i) && Takes(s, s', i)
    ensures WorkCovered(s') && NoWindow(cfg, s')
  {
    if SomeExiting(s') {
      var k :| 0 <= k < |s'.checkers| && s'.checkers[k].pc.Exiting?;
      assert k != i ==> s.checkers[k].pc.Exiting? && Active(s.checkers[k]);
    }
    if s.checkers[i].pc.Spawned? && s'.checkers[i].pc.Finished? {
      // a lost swap: the winner is still live, or already leaving
      var k :| 0 <= k < |s.checkers| && Active(s.checkers[k]);
      assert Live(s'.checkers[k]) || s.checkers[k].pc.Exiting?;
    } else if s.checkers[i].pc.Exiting? {
      assert SomeExiting(s);
    } else if Live(s'.checkers[i]) {
      assert SomeLive(s');
    }
  }

  // ---- what a pass has decided so far --------------------------------------------

  /** Every decision already taken by a pass in progress is backed by its snapshot and its
      listing: a doomed entry had no open connection or is overdue, a spared one had one. */
  ghost predicate Backed(cfg: Config, pc: Pc, now: int) {
    pc.Deciding? ==>
      && pc.todo <= pc.snapshot.Keys
      && pc.doomed <= pc.snapshot.Keys - pc.todo
      && (forall t :: t in pc.doomed ==> Due(pc.snapshot[t], t in pc.open, now, cfg.forceAfter))
      && (forall t :: t in pc.snapshot.Keys - pc.todo - pc.doomed ==> t in pc.open)
  }

  ghost predicate AllBacked(cfg: Config, s: State) {
    forall i :: 0 <= i < |s.checkers| ==> Backed(cfg, s.checkers[i].pc, s.now)
  }

  lemma AllBackedKept(cfg: Config, s: State, step: Step)
    requires AllBacked(cfg, s) && Enabled(cfg, s, step)
    ensures AllBacked(cfg, Next(cfg, s, step))
  {
    var s' := Next(cfg, s, step);
    forall i | 0 <= i < |s'.checkers|
      ensures Backed(cfg, s'.checkers[i].pc, s'.now)
    {
      if i < |s.checkers| {
        assert Backed(cfg, s.checkers[i].pc, s.now);
      }
    }
  }

  // ---- ages under prompt scheduling ----------------------------------------------

  predicate Younger(pending: Pending, than: int, at: int) {
    forall t :: t in pending ==> at - pending[t].addedAt <= than
  }

  /** What a checker's place says about the ages of the pending items, when no time passes
      inside a pass. */
  ghost predicate Timely(cfg: Config, s: State, c: Checker) {
    match c.pc
    case Listing(snapshot) =>
      && c.due == s.now + cfg.pollInterval
      && forall t :: t in s.pending ==> s.pending[t].addedAt == s.now || (t in snapshot && snapshot[t] == s.pending[t])
    case Deciding(snapshot, _, todo, doomed) =>
      && c.due == s.now + cfg.pollInterval
      && forall t :: t in s.pending ==>
           || s.pending[t].addedAt == s.now
           || (t in snapshot && snapshot[t] == s.pending[t]
               && (t in todo || t in doomed || s.now - s.pending[t].addedAt <= cfg.forceAfter))
    case AtPass => c.due == s.now + cfg.pollInterval
    case AtTest => c.due == s.now + cfg.pollInterval && Younger(s.pending, cfg.forceAfter, s.now)
    case Waiting => c.due - cfg.pollInterval <= s.now <= c.due && Younger(s.pending, cfg.forceAfter, c.due - cfg.pollInterval)
    case _ => true
  }

  /** What was inserted outside the exit windows, or has been through a pass since. */
  function Covered(s: State): Pending {
    s.pending - s.windowed
  }

  ghost predicate InTime(cfg: Config, s: State) {
    cfg.prompt && !s.done ==>
      && Younger(Covered(s), cfg.forceAfter + cfg.pollInterval, s.now)
      && (forall i :: 0 <= i < |s.checkers| ==> Timely(cfg, s, s.checkers[i]))
      && (!s.running ==> Younger(Covered(s), 0, s.now))
  }

  lemma InTimeKept(cfg: Config, s: State, step: Step)
    requires OneWorker(s) && WorkCovered(s) && NoWindow(cfg, s) && AllBacked(cfg, s) && InTime(cfg, s)
    requires Enabled(cfg, s, step)
    ensures InTime(cfg, Next(cfg, s, step))
  {
    var s' := Next(cfg, s, step);
    if cfg.prompt && !s'.done {
      forall i | 0 <= i < |s'.checkers|
        ensures Timely(cfg, s', s'.checkers[i])
      {
        if i < |s.checkers| {
          TimelyKept(cfg, s, step, i);
        }
      }
      if step.Advance? {
        AdvanceInTime(cfg, s, step.elapsed);
      } else {
        YoungerKept(cfg, s, step);
      }
    }
  }

  lemma TimelyKept(cfg: Config, s: State, step: Step, i: nat)
    requires OneWorker(s) && AllBacked(cfg, s) && InTime(cfg, s)
    requires Enabled(cfg, s, step) && i < |s.checkers| && cfg.prompt && !s.done
    ensures i < |Next(cfg, s, step).checkers|
    ensures Timely(cfg, Next(cfg, s, step), Next(cfg, s, step).checkers[i])
  {
    if HasChecker(step) && step.i == i {
      OwnStepTimely(cfg, s, step);
    } else {
      OtherStepTimely(cfg, s, step, i);
    }
  }

  lemma OwnStepTimely(cfg: Config, s: State, step: Step)
    requires OneWorker(s) && AllBacked(cfg, s) && InTime(cfg, s)
    requires Enabled(cfg, s, step) && HasChecker(step) && cfg.prompt && !s.done
    ensures Timely(cfg, Next(cfg, s, step), Next(cfg, s, step).checkers[step.i])
  {
    assert Timely(cfg, s, s.checkers[step.i]) && Backed(cfg, s.checkers[step.i].pc, s.now);
    if step.Decide? {
      DecideTimely(cfg, s, step);
    }
  }

  lemma DecideTimely(cfg: Config, s: State, step: Step)
    requires Enabled(cfg, s, step) && step.Decide? && Timely(cfg, s, s.checkers[step.i])
    ensures Timely(cfg, Next(cfg, s, step), Next(cfg, s, step).checkers[step.i])
  {}

  lemma OtherStepTimely(cfg: Config, s: State, step: Step, i: nat)
    requires InTime(cfg, s) && Enabled(cfg, s, step) && i < |s.checkers|
    requires !(HasChecker(step) && step.i == i) && cfg.prompt && !s.done
    ensures i < |Next(cfg, s, step).checkers|
    ensures Timely(cfg, Next(cfg, s, step), Next(cfg, s, step).checkers[i])
  {
    OthersStand(cfg, s, step, i);
    assert Timely(cfg, s, s.checkers[i]);
    if step.Advance? {
      assert s.checkers[i] in s.checkers;
    } else {
      OnlyNewcomers(cfg, s, step);
      StandsTimely(cfg, s, Next(cfg, s, step), s.checkers[i]);
    }
  }

  /** A step moves at most the checker it names. */
  lemma OthersStand(cfg: Config, s: State, step: Step, i: nat)
    requires Enabled(cfg, s, step) && i < |s.checkers| && !(HasChecker(step) && step.i == i)
    ensures i < |Next(cfg, s, step).checkers| && Next(cfg, s, step).checkers[i] == s.checkers[i]
  {}

  /** What is pending afterwards was pending before, or has just been inserted. */
  ghost predicate Newcomers(s: State, s': State) {
    && s'.now == s.now
    && forall t :: t in s'.pending ==> s'.pending[t].addedAt == s.now || (t in s.pending && s'.pending[t] == s.pending[t])
  }

  lemma OnlyNewcomers(cfg: Config, s: State, step: Step)
    requires Enabled(cfg, s, step) && !step.Advance?
    ensures Newcomers(s, Next(cfg, s, step))
  {}

  lemma StandsTimely(cfg: Config, s: State, s': State, c: Checker)
    requires Timely(cfg, s, c) && Newcomers(s, s')
    ensures Timely(cfg, s', c)
  {}

  lemma YoungerKept(cfg: Config, s: State, step: Step)
    requires OneWorker(s) && WorkCovered(s) && AllBacked(cfg, s) && InTime(cfg, s)
    requires Enabled(cfg, s, step) && !step.Advance? && cfg.prompt && !s.done
    ensures var s' := Next(cfg, s, step);
            && Younger(Covered(s'), cfg.forceAfter + cfg.pollInterval, s'.now)
            && (!s'.running ==> Younger(Covered(s'), 0, s'.now))
  {
    if step.Commit? {
      OwnStepTimely(cfg, s, step);
      assert Active(s.checkers[step.i]);
    } else {
      CoveredBefore(cfg, s, step);
      if s.running && !Next(cfg, s, step).running {
        ClearsOverNothing(cfg, s, step);
      }
    }
  }

  /** Only a commit puts earlier items among the covered ones. */
  lemma CoveredBefore(cfg: Config, s: State, step: Step)
    requires Enabled(cfg, s, step) && !step.Advance? && !step.Commit?
    ensures var s' := Next(cfg, s, step);
            && s'.now == s.now
            && forall t :: t in Covered(s') ==> s'.pending[t].addedAt == s.now || (t in Covered(s) && s'.pending[t] == s.pending[t])
  {}

  /** The flag is cleared over an empty map, or over items of the window only. */
  lemma ClearsOverNothing(cfg: Config, s: State, step: Step)
    requires WorkCovered(s) && Enabled(cfg, s, step) && s.running && !Next(cfg, s, step).running && !s.done
    ensures Covered(Next(cfg, s, step)) == map[]
  {
    if step.Exit? {
      assert SomeExiting(s);
    } else {
      assert |s.pending| == 0;
    }
  }

  /** Time passes only in front of a waiting checker, or with every pending item in the window. */
  lemma AdvanceInTime(cfg: Config, s: State, elapsed: nat)
    requires OneWorker(s) && WorkCovered(s) && InTime(cfg, s)
    requires cfg.prompt && !s.done && Enabled(cfg, s, Advance(elapsed))
    ensures Younger(Covered(s), cfg.forceAfter + cfg.pollInterval, s.now + elapsed)
    ensures !s.running ==> Covered(s) == map[]
  {
    if Covered(s) != map[] {
      var t :| t in Covered(s);
      assert SomeLive(s);
      var i :| 0 <= i < |s.checkers| && Live(s.checkers[i]);
      assert s.checkers[i] in s.checkers;
      assert Timely(cfg, s, s.checkers[i]);
    }
  }

  // ---- runs ----------------------------------------------------------------------

  /** Every state of every run keeps all the invariants above. */
  lemma {:induction false} RunKeeps(cfg: Config, states: seq<State>, steps: seq<Step>, n: nat)
    requires Run(cfg, states, steps) && n < |states|
    ensures OneWorker(states[n]) && WorkCovered(states[n]) && NoWindow(cfg, states[n])
    ensures AllBacked(cfg, states[n]) && InTime(cfg, states[n])
  {
    if n > 0 {
      RunKeeps(cfg, states, steps, n - 1);
      var s, step := states[n - 1], steps[n - 1];
      StepAt(cfg, states, steps, n - 1);
      OneWorkerKept(cfg, s, step);
      WorkCoveredKept(cfg, s, step);
      AllBackedKept(cfg, s, step);
      InTimeKept(cfg, s, step);
    }
  }

  lemma {:induction false} BackedAt(cfg: Config, states: seq<State>, steps: seq<Step>, n: nat)
    requires Run(cfg, states, steps) && n < |states|
    ensures AllBacked(cfg, states[n])
  {
    RunKeeps(cfg, states, steps, n);
  }

  /** In every interleaving at most one checker is past the compare-and-swap. */
  lemma AtMostOneWorker(cfg: Config, states: seq<State>, steps: seq<Step>, n: nat, i: nat, j: nat)
    requires Run(cfg, states, steps) && n < |states|
    requires i < |states[n].checkers| && j < |states[n].checkers|
    requires Active(states[n].checkers[i]) && Active(states[n].checkers[j])
    ensures i == j && states[n].running
  {
    RunKeeps(cfg, states, steps, n);
  }

  /** No lost work. With the code's own two-step exit, a pending tag that no live checker will
      look at was inserted inside an exit window; with the merged exit there is none. */
  lemma NoLostWork(cfg: Config, states: seq<State>, steps: seq<Step>, n: nat)
    requires Run(cfg, states, steps) && n < |states| && !states[n].done
    ensures !SomeLive(states[n]) ==> states[n].pending.Keys == states[n].windowed
    ensures cfg.atomicExit && states[n].pending != map[] ==> SomeLive(states[n])
  {
    RunKeeps(cfg, states, steps, n);
  }

  /** The window is real: one removal, then an enqueue between the empty test and the clearing
      of `running`, leaves a pending tag with no checker at all. */
  lemma ExitWindowStrands(cfg: Config) returns (states: seq<State>, steps: seq<Step>)
    requires !cfg.atomicExit
    ensures Run(cfg, states, steps)
    ensures var last := Last(states);
            last.pending == map["b" := Item("b", false, last.now)] && last.windowed == {"b"} && !last.done && !last.running
            && forall c :: c in last.checkers ==> c.pc.Finished?
  {
    var due := cfg.pollInterval;
    states, steps := [State(map[], false, false, [], 0, {})], [];
    states, steps := Extend(cfg, states, steps, Enqueue("a", false));
    assert Last(states).checkers == [Checker(Spawned, 0)];
    states, steps := Extend(cfg, states, steps, Cas(0));
    assert Last(states).checkers == [Checker(AtPass, due)];
    states, steps := Extend(cfg, states, steps, Dequeue("a"));
    assert Last(states) == State(map[], true, false, [Checker(AtPass, due)], 0, {});
    states, steps := EmptyPass(cfg, states, steps, due);
    states, steps := Extend(cfg, states, steps, Enqueue("b", false));
    assert Last(states).checkers == [Checker(Exiting, due)];
    states, steps := Extend(cfg, states, steps, Exit(0));
  }

  /** A pass over an empty map takes a lone checker to its exit window. */
  lemma EmptyPass(cfg: Config, before: seq<State>, beforeSteps: seq<Step>, due: int)
    returns (states: seq<State>, steps: seq<Step>)
    requires !cfg.atomicExit && Run(cfg, before, beforeSteps)
    requires Last(before) == State(map[], true, false, [Checker(AtPass, due)], 0, {})
    ensures Run(cfg, states, steps)
    ensures Last(states) == State(map[], true, false, [Checker(Exiting, due)], 0, {})
  {
    states, steps := before, beforeSteps;
    states, steps := Extend(cfg, states, steps, Snapshot(0));
    assert Last(states).checkers == [Checker(Listing(map[]), due)];
    states, steps := Extend(cfg, states, steps, List(0, []));
    assert Last(states).checkers[0].pc.todo == {} && Last(states).checkers[0].due == due;
    states, steps := Extend(cfg, states, steps, Commit(0));
    assert Last(states) == State(map[], true, false, [Checker(AtTest, due)], 0, {});
    states, steps := Extend(cfg, states, steps, Test(0));
    assert Last(states) == State(map[], true, false, [Checker(Exiting, due)], 0, {});
  }

  lemma Extend(cfg: Config, states: seq<State>, steps: seq<Step>, step: Step)
    returns (states': seq<State>, steps': seq<Step>)
    requires Run(cfg, states, steps) && Enabled(cfg, Last(states), step)
    ensures Run(cfg, states', steps')
    ensures states' == states + [Next(cfg, Last(states), step)] && steps' == steps + [step]
    ensures Last(states') == Next(cfg, Last(states), step)
  {
    states', steps' := states + [Next(cfg, Last(states), step)], steps + [step];
    forall n | 0 <= n < |steps'|
      ensures Moves(cfg, states', steps', n)
    {
      if n < |steps| {
        StepAt(cfg, states, steps, n);
        assert states'[n] == states[n] && states'[n + 1] == states[n + 1];
      }
    }
  }

  /** A stranded tag stays stranded, in every run, until it is dequeued or a tag that is not
      pending is enqueued. */
  lemma {:induction false} StrandedStays(cfg: Config, states: seq<State>, steps: seq<Step>, m: nat, n: nat, tag: Tag)
    requires Run(cfg, states, steps) && m <= n < |states| && tag in states[m].pending
    requires forall c :: c in states[m].checkers ==> c.pc.Finished?
    requires forall e :: m <= e < n ==>
               steps[e] != Dequeue(tag) && !(steps[e].Enqueue? && steps[e].tag !in states[e].pending)
    ensures tag in states[n].pending && states[n].checkers == states[m].checkers
  {
    if m < n {
      StrandedStays(cfg, states, steps, m, n - 1, tag);
      StepAt(cfg, states, steps, n - 1);
    }
  }

  /** Timed removal: with prompt passes and a tick every `pollInterval`, the only pending items of
      an open queue that are ever older than `forceAfter + pollInterval` are those inserted inside
      an exit window that no pass has ended since; with the merged exit there are none. */
  lemma TimedRemoval(cfg: Config, states: seq<State>, steps: seq<Step>, n: nat, tag: Tag)
    requires Run(cfg, states, steps) && n < |states| && cfg.prompt
    requires !states[n].done && tag in states[n].pending
    ensures || states[n].now - states[n].pending[tag].addedAt <= cfg.forceAfter + cfg.pollInterval
            || (!cfg.atomicExit && tag in states[n].windowed)
  {
    RunKeeps(cfg, states, steps, n);
    assert tag !in states[n].windowed ==> tag in Covered(states[n]);
  }

  /** The exception is real: an item stranded in the exit window grows as old as one likes, under
      prompt scheduling too. */
  lemma StrandedAges(cfg: Config, age: nat) returns (states: seq<State>, steps: seq<Step>)
    requires !cfg.atomicExit
    ensures Run(cfg, states, steps)
    ensures var last := Last(states);
            !last.done && "b" in last.pending && "b" in last.windowed && last.now - last.pending["b"].addedAt == age
  {
    states, steps := ExitWindowStrands(cfg);
    states, steps := Extend(cfg, states, steps, Advance(age));
  }

  /** And so is the need for promptness: an item waits as long as its worker is not scheduled. */
  lemma UnscheduledAges(cfg: Config, age: nat) returns (states: seq<State>, steps: seq<Step>)
    requires !cfg.prompt
    ensures Run(cfg, states, steps)
    ensures var last := Last(states);
            !last.done && "a" in last.pending && last.windowed == {} && last.now - last.pending["a"].addedAt == age
  {
    states, steps := [State(map[], false, false, [], 0, {})], [];
    states, steps := Extend(cfg, states, steps, Enqueue("a", false));
    states, steps := Extend(cfg, states, steps, Advance(age));
  }

  /** The tags a commit takes out of the pending map. */
  function Removed(s: State, i: nat): set<Tag>
    requires i < |s.checkers| && s.checkers[i].pc.Deciding?
  {
    s.pending.Keys * s.checkers[i].pc.doomed
  }
}
