/** `pickBestOutbound` of protocol/group/mutableurltest.go: the choice with hysteresis, for every
    order in which the members may be visited. Delays are 16-bit. */
module UrlTestPick {
  import opened Common
  import opened Outbounds

  datatype History = History(delay: nat, time: int)

  type Histories = map<Tag, History>

  /** What one pick depends on. */
  datatype Scene = Scene(network: Network, members: Table, history: Histories, tolerance: nat)

  const UINT16: nat := 0x1_0000

  function Add16(a: nat, b: nat): nat {
    (a + b) % UINT16
  }

  /** The member can carry the network and stands for some tag. */
  predicate Capable(s: Scene, o: Outbound) {
    s.network in o.networks && RealTag(o) != ""
  }

  /** ... and that tag has a recorded delay. */
  predicate Candidate(s: Scene, o: Outbound) {
    Capable(s, o) && RealTag(o) in s.history
  }

  function Delay(s: Scene, o: Outbound): nat
    requires RealTag(o) in s.history
  {
    s.history[RealTag(o)].delay
  }

  /** The two local variables of the scan; `replaced` counts the assignments. */
  datatype Best = Best(delay: nat, choice: Option<Outbound>, replaced: nat)

  function Start(s: Scene, current: Option<Outbound>): Best {
    if current.Some? && RealTag(current.value) in s.history
    then Best(Delay(s, current.value), current, 0) else Best(0, None, 0)
  }

  /** The guard of the scan: a standing delay of zero counts as unset, and the sum is 16-bit. */
  predicate Displaces(s: Scene, o: Outbound, delay: nat) {
    Candidate(s, o) && (delay == 0 || delay > Add16(Delay(s, o), s.tolerance))
  }

  function Look(s: Scene, best: Best, o: Outbound): Best {
    if Displaces(s, o, best.delay)
    then Best(Delay(s, o), Some(o), best.replaced + 1) else best
  }

  function Scan(s: Scene, start: Best, order: seq<Tag>): Best
    requires Range(order) <= s.members.Keys
  {
    if order == [] then start else
    assert forall t :: t in order ==> t in Range(order);
    Look(s, Scan(s, start, order[..|order| - 1]), s.members[order[|order| - 1]])
  }

  /** The second loop: the first capable member, recorded or not. */
  function FirstCapable(s: Scene, order: seq<Tag>): Option<Outbound>
    requires Range(order) <= s.members.Keys
  {
    if order == [] then None else
    assert order[0] in Range(order);
    if Capable(s, s.members[order[0]]) then Some(s.members[order[0]]) else FirstCapable(s, order[1..])
  }

  /** The pick, when the first loop visits the members in `order` and the second in `order'`. */
  function Pick(s: Scene, current: Option<Outbound>, order: seq<Tag>, order': seq<Tag>): Option<Outbound>
    requires Lists(order, s.members.Keys) && Lists(order', s.members.Keys)
  {
    var best := Scan(s, Start(s, current), order);
    if best.choice.Some? then best.choice else FirstCapable(s, order')
  }

  /** `pick` is what some pair of visiting orders makes of the scene. */
  ghost predicate Picks(s: Scene, current: Option<Outbound>, pick: Option<Outbound>) {
    exists order, order' :: Lists(order, s.members.Keys) && Lists(order', s.members.Keys)
                            && pick == Pick(s, current, order, order')
  }

  method PickBest(s: Scene, current: Option<Outbound>) returns (pick: Option<Outbound>)
    ensures Picks(s, current, pick)
  {
    var minDelay: nat, minOutbound := 0, None;
    if current.Some? {
      var tag := RealTag(current.value);
      if tag in s.history {
        minDelay, minOutbound := s.history[tag].delay, current;
      }
    }
    ghost var replaced: nat := 0;
    var visit := Visit(s.members.Keys);
    ghost var order := visit;
    for i := 0 to |visit|
      invariant Best(minDelay, minOutbound, replaced) == Scan(s, Start(s, current), visit[..i])
    {
      assert visit[..i + 1][..i] == visit[..i] && visit[i] in Range(visit);
      var outbound := s.members[visit[i]];
      if s.network !in outbound.networks || RealTag(outbound) == "" || RealTag(outbound) !in s.history {
        continue;
      }
      var delay := s.history[RealTag(outbound)].delay;
      if minDelay == 0 || minDelay > Add16(delay, s.tolerance) {
        minDelay, minOutbound := delay, Some(outbound);
        replaced := replaced + 1;
      }
    }
    assert visit[..|visit|] == visit;
    if minOutbound.Some? {
      assert minOutbound == Pick(s, current, order, order);
      return minOutbound;
    }
    visit := Visit(s.members.Keys);
    assert Pick(s, current, order, visit) == FirstCapable(s, visit);
    for i := 0 to |visit|
      invariant FirstCapable(s, visit) == FirstCapable(s, visit[i..])
    {
      assert visit[i..][1..] == visit[i + 1..] && visit[i] in Range(visit);
      var outbound := s.members[visit[i]];
      if s.network in outbound.networks && RealTag(outbound) != "" {
        return Some(outbound);
      }
    }
    return None;
  }

  // ---- what a scan has achieved --------------------------------------------------

  /** The candidates' delays are positive, and adding the tolerance does not wrap. */
  predicate Sane(s: Scene) {
    forall t :: t in s.members && Candidate(s, s.members[t]) ==>
      0 < Delay(s, s.members[t]) && Delay(s, s.members[t]) + s.tolerance < UINT16
  }

  /** ... and so is the current outbound's, if it is recorded. */
  predicate SaneFor(s: Scene, current: Option<Outbound>) {
    Sane(s) && (current.Some? && RealTag(current.value) in s.history ==> 0 < Delay(s, current.value))
  }

  /** What `n` replacements have saved at least: each more than the tolerance. */
  function Savings(n: nat, tolerance: nat): nat {
    if n == 0 then 0 else Savings(n - 1, tolerance) + tolerance + 1
  }

  lemma {:induction false} SavingsMultiply(n: nat, tolerance: nat)
    ensures Savings(n, tolerance) == n * (tolerance + 1)
  {
    if n > 0 {
      SavingsMultiply(n - 1, tolerance);
      assert n * (tolerance + 1) == (n - 1) * (tolerance + 1) + tolerance + 1;
    }
  }

  ghost predicate Scanned(s: Scene, start: Best, order: seq<Tag>, best: Best)
    requires Range(order) <= s.members.Keys
  {
    // the choice is the start's, or a visited candidate with its own delay
    && (best.replaced == 0 ==> best == start.(replaced := 0))
    && (best.replaced > 0 ==> best.choice.Some? && exists t :: t in order && best.choice.value == s.members[t])
    && (best.replaced > 0 ==> Candidate(s, best.choice.value) && best.delay == Delay(s, best.choice.value))
    // no visited candidate beats it by more than the tolerance
    && (forall t :: t in order && Candidate(s, s.members[t]) ==>
          0 < best.delay <= Delay(s, s.members[t]) + s.tolerance)
    // each replacement of a real choice saved more than the tolerance
    && (start.delay > 0 ==> best.delay > 0 && best.delay + Savings(best.replaced, s.tolerance) <= start.delay)
  }

  lemma {:induction false} ScanAchieves(s: Scene, start: Best, order: seq<Tag>)
    requires Range(order) <= s.members.Keys && Sane(s) && start.replaced == 0
    ensures Scanned(s, start, order, Scan(s, start, order))
  {
    if order != [] {
      var init, t := order[..|order| - 1], order[|order| - 1];
      assert order == init + [t] && t in Range(order);
      assert forall x :: x in init ==> x in Range(order);
      ScanAchieves(s, start, init);
      LookAchieves(s, start, init, Scan(s, start, init), t);
      assert Scan(s, start, order) == Look(s, Scan(s, start, init), s.members[t]);
    }
  }

  lemma LookAchieves(s: Scene, start: Best, init: seq<Tag>, best: Best, t: Tag)
    requires Range(init) <= s.members.Keys && t in s.members && Sane(s) && start.replaced == 0
    requires Scanned(s, start, init, best)
    ensures Range(init + [t]) <= s.members.Keys
    ensures Scanned(s, start, init + [t], Look(s, best, s.members[t]))
  {
    assert forall x :: x in Range(init + [t]) ==> x == t || x in Range(init);
    assert t in init + [t];
  }

  // ---- the results ---------------------------------------------------------------

  /** The pick was made from the recorded delays, not by the fallback. */
  predicate Informed(s: Scene, current: Option<Outbound>) {
    || (current.Some? && RealTag(current.value) in s.history)
    || exists t :: t in s.members && s.network in s.members[t].networks
                   && RealTag(s.members[t]) != "" && RealTag(s.members[t]) in s.history
  }

  /** A pick made from history has a delay at most every candidate's delay plus the tolerance;
      it is the current outbound or a candidate. For every visiting order. */
  lemma WithinTolerance(s: Scene, current: Option<Outbound>, order: seq<Tag>, order': seq<Tag>)
    requires SaneFor(s, current) && Lists(order, s.members.Keys) && Lists(order', s.members.Keys) && Informed(s, current)
    ensures var pick := Pick(s, current, order, order');
            && pick.Some? && RealTag(pick.value) in s.history
            && (pick == current || (s.network in pick.value.networks && RealTag(pick.value) != ""
                                    && exists t :: t in s.members && s.members[t] == pick.value))
            && forall t :: t in s.members && s.network in s.members[t].networks
                           && RealTag(s.members[t]) != "" && RealTag(s.members[t]) in s.history ==>
                 s.history[RealTag(pick.value)].delay <= s.history[RealTag(s.members[t])].delay + s.tolerance
  {
    ScanAchieves(s, Start(s, current), order);
    assert forall t :: t in s.members ==> t in Range(order);
  }

  /** Hysteresis: when the current outbound has a recorded delay, the pick differs from it exactly
      when some candidate beats it by more than the tolerance. For every visiting order. */
  lemma Hysteresis(s: Scene, current: Outbound, order: seq<Tag>, order': seq<Tag>)
    requires SaneFor(s, Some(current)) && Lists(order, s.members.Keys) && Lists(order', s.members.Keys)
    requires RealTag(current) in s.history
    ensures Pick(s, Some(current), order, order') != Some(current) <==>
            exists t :: t in s.members && s.network in s.members[t].networks
                        && RealTag(s.members[t]) != "" && RealTag(s.members[t]) in s.history
                        && s.history[RealTag(current)].delay > s.history[RealTag(s.members[t])].delay + s.tolerance
  {
    ScanAchieves(s, Start(s, Some(current)), order);
    assert forall t :: t in s.members ==> t in Range(order);
    var best := Scan(s, Start(s, Some(current)), order);
  }

  /** No flapping: a pick made from history is picked again, whatever the orders of both scans. */
  lemma PickIsStable(
    s: Scene, current: Option<Outbound>, o1: seq<Tag>, o1': seq<Tag>, o2: seq<Tag>, o2': seq<Tag>)
    requires SaneFor(s, current) && Informed(s, current)
    requires Lists(o1, s.members.Keys) && Lists(o1', s.members.Keys)
    requires Lists(o2, s.members.Keys) && Lists(o2', s.members.Keys)
    ensures Pick(s, Pick(s, current, o1, o1'), o2, o2') == Pick(s, current, o1, o1')
  {
    WithinTolerance(s, current, o1, o1');
    var pick := Pick(s, current, o1, o1');
    Hysteresis(s, pick.value, o2, o2');
  }

  /** Inside one pick, the replacements after a first choice of delay `d0` number at most
      (d0 - 1) / (tolerance + 1). */
  lemma FewReplacements(s: Scene, current: Outbound, order: seq<Tag>)
    requires SaneFor(s, Some(current)) && Lists(order, s.members.Keys) && RealTag(current) in s.history
    ensures Scan(s, Start(s, Some(current)), order).replaced <= (Delay(s, current) - 1) / (s.tolerance + 1)
  {
    ScanAchieves(s, Start(s, Some(current)), order);
    var best := Scan(s, Start(s, Some(current)), order);
    SavingsMultiply(best.replaced, s.tolerance);
    Quotient(best.replaced, s.tolerance + 1, Delay(s, current) - 1);
  }

  /** `best` came from the first choice `first` by replacements that each saved more than the tolerance. */
  predicate Descends(s: Scene, first: Outbound, best: Best) {
    && Candidate(s, first) && best.replaced > 0 && best.delay > 0
    && best.delay + Savings(best.replaced - 1, s.tolerance) <= Delay(s, first)
  }

  lemma DescendsOneMore(s: Scene, first: Outbound, best: Best, o: Outbound)
    requires Sane(s) && o in s.members.Values && Descends(s, first, best)
    ensures Descends(s, first, Look(s, best, o))
  {}

  lemma {:induction false} FirstChoice(s: Scene, order: seq<Tag>) returns (first: Option<Outbound>)
    requires Sane(s) && Range(order) <= s.members.Keys
    ensures var best := Scan(s, Best(0, None, 0), order);
            if first.None? then best == Best(0, None, 0) else Descends(s, first.value, best)
  {
    first := None;
    if order != [] {
      var init, t := order[..|order| - 1], order[|order| - 1];
      assert order == init + [t] && t in Range(order);
      assert forall x :: x in init ==> x in Range(order);
      first := FirstChoice(s, init);
      var before, o := Scan(s, Best(0, None, 0), init), s.members[t];
      assert Scan(s, Best(0, None, 0), order) == Look(s, before, o);
      if first.Some? {
        DescendsOneMore(s, first.value, before, o);
      } else if Look(s, before, o) != before {
        first := Some(o);
      }
    }
  }

  /** The same when there is no usable current outbound: the first candidate visited is the first
      choice, and only what follows it counts. */
  lemma FewReplacementsFromScratch(s: Scene, order: seq<Tag>) returns (first: Option<Outbound>)
    requires Sane(s) && Range(order) <= s.members.Keys
    ensures var best := Scan(s, Best(0, None, 0), order);
            if first.None? then best == Best(0, None, 0)
            else Candidate(s, first.value) && best.replaced > 0
                 && best.replaced - 1 <= (Delay(s, first.value) - 1) / (s.tolerance + 1)
  {
    first := FirstChoice(s, order);
    if first.Some? {
      var best := Scan(s, Best(0, None, 0), order);
      SavingsMultiply(best.replaced - 1, s.tolerance);
      Quotient(best.replaced - 1, s.tolerance + 1, Delay(s, first.value) - 1);
    }
  }

  lemma Quotient(n: nat, d: nat, m: nat)
    requires d > 0 && n * d <= m
    ensures n <= m / d
  {
    MultiplyMonotone(m / d + 1, n, d);
    assert m < (m / d + 1) * d;
  }

  lemma MultiplyMonotone(a: int, b: int, d: nat)
    ensures a <= b ==> a * d <= b * d
  {
    if a <= b {
      assert (b - a) * d >= 0;
    }
  }

  // ---- with any delays -----------------------------------------------------------

  /** No member other than `current` passes the scan's guard against its delay: a standing delay of
      zero counts as unset, and the sum is 16-bit. */
  ghost predicate Undisplaced(s: Scene, current: Outbound)
    requires RealTag(current) in s.history
  {
    var delay := s.history[RealTag(current)].delay;
    forall t :: t in s.members && s.members[t] != current && s.network in s.members[t].networks
                && RealTag(s.members[t]) != "" && RealTag(s.members[t]) in s.history ==>
      delay != 0 && delay <= (s.history[RealTag(s.members[t])].delay + s.tolerance) % 0x1_0000
  }

  /** Hysteresis without any assumption on the delays, unset ones and 16-bit wrap-around included,
      and for any number of members: a recorded current outbound is picked again in every pair of
      visiting orders if and only if no other member passes the scan's guard against it. */
  lemma KeptExactly(s: Scene, current: Outbound)
    requires WellTagged(s.members) && RealTag(current) in s.history
    ensures (forall pick :: Picks(s, Some(current), pick) ==> pick == Some(current)) <==> Undisplaced(s, current)
  {
    if Undisplaced(s, current) {
      forall pick | Picks(s, Some(current), pick) ensures pick == Some(current) {
        var order, order' :| Lists(order, s.members.Keys) && Lists(order', s.members.Keys)
                             && pick == Pick(s, Some(current), order, order');
        ScanKeeps(s, current, order);
      }
    } else {
      var t :| t in s.members && s.members[t] != current && Displaces(s, s.members[t], Delay(s, current));
      var order := DisplacingOrder(s, current, t);
      assert Picks(s, Some(current), Pick(s, Some(current), order, order));
    }
  }

  lemma {:induction false} ScanKeeps(s: Scene, current: Outbound, order: seq<Tag>)
    requires RealTag(current) in s.history && Undisplaced(s, current) && Range(order) <= s.members.Keys
    ensures var best := Scan(s, Start(s, Some(current)), order);
            best.choice == Some(current) && best.delay == Delay(s, current)
  {
    if order != [] {
      assert forall t :: t in order ==> t in Range(order);
      ScanKeeps(s, current, order[..|order| - 1]);
    }
  }

  /** A current outbound that is not visited does not come back once it is displaced. */
  lemma {:induction false} ScanForgets(s: Scene, start: Best, order: seq<Tag>, current: Outbound)
    requires Range(order) <= s.members.Keys && forall t :: t in order ==> t in s.members && s.members[t] != current
    requires start.choice.Some? && start.choice != Some(current)
    ensures var best := Scan(s, start, order); best.choice.Some? && best.choice != Some(current)
  {
    if order != [] {
      assert forall t :: t in order ==> t in Range(order);
      ScanForgets(s, start, order[..|order| - 1], current);
    }
  }

  lemma {:induction false} ScanConcat(s: Scene, start: Best, a: seq<Tag>, b: seq<Tag>)
    requires Range(a) <= s.members.Keys && Range(b) <= s.members.Keys
    ensures Range(a + b) <= s.members.Keys
    ensures Scan(s, start, a + b) == Scan(s, Scan(s, start, a), b)
  {
    assert forall t :: t in Range(a + b) ==> t in Range(a) || t in Range(b);
    if b == [] {
      assert a + b == a;
    } else {
      var init := b[..|b| - 1];
      assert Range(init) <= Range(b);
      assert (a + b)[..|a + b| - 1] == a + init;
      ScanConcat(s, start, a, init);
    }
  }

  lemma ScanOne(s: Scene, start: Best, t: Tag)
    requires t in s.members
    ensures Range([t]) <= s.members.Keys && Scan(s, start, [t]) == Look(s, start, s.members[t])
  {
    assert Range([t]) == {t} && [t][..0] == [];
  }

  /** Visiting first the current outbound's own entry, if it has one, then a member that passes
      the guard, then the rest: the current outbound is lost for good. */
  lemma DisplacingOrder(s: Scene, current: Outbound, t: Tag) returns (order: seq<Tag>)
    requires WellTagged(s.members) && RealTag(current) in s.history
    requires t in s.members && s.members[t] != current && Displaces(s, s.members[t], Delay(s, current))
    ensures Lists(order, s.members.Keys)
    ensures forall order' :: Lists(order', s.members.Keys) ==> Pick(s, Some(current), order, order') != Some(current)
  {
    var start := Start(s, Some(current));
    var own := if current in s.members.Values then [current.tag] else [];
    assert current in s.members.Values ==> current.tag in s.members && s.members[current.tag] == current;
    assert Range(own) <= s.members.Keys && Scan(s, start, []) == start;
    if own != [] {
      ScanOne(s, start, current.tag);
    }
    var begun := Scan(s, start, own);
    assert begun.choice == Some(current) && begun.delay == Delay(s, current);
    var rest := ListOf(s.members.Keys - Range(own) - {t});
    assert forall x :: x in rest ==> x in Range(rest);
    ScanOne(s, begun, t);
    ScanConcat(s, start, own, [t]);
    ScanForgets(s, Look(s, begun, s.members[t]), rest, current);
    ScanConcat(s, start, own + [t], rest);
    order := own + [t] + rest;
    ListsInTurn(own, t, rest, s.members.Keys);
  }

  /** Every set of tags can be listed. */
  lemma {:induction false} ListOf(keys: set<Tag>) returns (order: seq<Tag>)
    ensures Lists(order, keys)
  {
    if keys == {} {
      order := [];
    } else {
      var t :| t in keys;
      order := ListOf(keys - {t});
      Appended(order, keys - {t}, t);
      assert keys - {t} + {t} == keys;
      order := order + [t];
    }
  }

  lemma ListsInTurn(own: seq<Tag>, t: Tag, rest: seq<Tag>, keys: set<Tag>)
    requires |own| <= 1 && Range(own) <= keys && t in keys && t !in own && Lists(rest, keys - Range(own) - {t})
    ensures Lists(own + [t] + rest, keys)
  {
    var order := own + [t] + rest;
    assert forall x :: x in rest ==> x in Range(rest);
    assert forall x :: x in own ==> x in Range(own);
    assert Range(order) == Range(own) + {t} + Range(rest);
    forall i, j | 0 <= i < j < |order| ensures order[i] != order[j] {
      if |own| < i {
        assert order[i] == rest[i - |own| - 1] && order[j] == rest[j - |own| - 1];
      } else if |own| < j {
        assert order[j] in rest;
        assert order[i] == t || order[i] in own;
      }
    }
  }

  /** The choice of a scan is the start's, or a member that can carry the network. */
  lemma {:induction false} ScanMeans(s: Scene, start: Best, order: seq<Tag>)
    requires Range(order) <= s.members.Keys
    ensures var best := Scan(s, start, order);
            || best.choice == start.choice
            || (best.choice.Some? && best.choice.value in s.members.Values && Capable(s, best.choice.value))
  {
    if order != [] {
      assert forall t :: t in order ==> t in Range(order);
      ScanMeans(s, start, order[..|order| - 1]);
    }
  }

  /** A current outbound that is not a member is picked again, in any and so in every order, if and
      only if it has a recorded delay and no member passes the scan's guard against it. */
  lemma StaysExactly(s: Scene, gone: Outbound, pick: Option<Outbound>)
    requires gone !in s.members.Values && Picks(s, Some(gone), pick)
    ensures pick == Some(gone) <==> RealTag(gone) in s.history && Undisplaced(s, gone)
  {
    var order, order' :| Lists(order, s.members.Keys) && Lists(order', s.members.Keys)
                         && pick == Pick(s, Some(gone), order, order');
    if RealTag(gone) in s.history {
      RecordedStaysExactly(s, gone, order);
    } else {
      ScanMeans(s, Start(s, Some(gone)), order);
      FirstCapableMeans(s, order');
    }
  }

  lemma RecordedStaysExactly(s: Scene, gone: Outbound, order: seq<Tag>)
    requires gone !in s.members.Values && RealTag(gone) in s.history && Lists(order, s.members.Keys)
    ensures var best := Scan(s, Start(s, Some(gone)), order);
            best.choice.Some? && (best.choice == Some(gone) <==> Undisplaced(s, gone))
  {
    ScanKeepsOrLoses(s, gone, order);
    assert forall t :: t in s.members ==> t in Range(order);
  }

  lemma {:induction false} ScanKeepsOrLoses(s: Scene, gone: Outbound, order: seq<Tag>)
    requires gone !in s.members.Values && RealTag(gone) in s.history && Range(order) <= s.members.Keys
    ensures var best := Scan(s, Start(s, Some(gone)), order);
            if exists t :: t in order && t in s.members && Displaces(s, s.members[t], Delay(s, gone))
            then best.choice.Some? && best.choice != Some(gone)
            else best.choice == Some(gone) && best.delay == Delay(s, gone)
  {
    if order != [] {
      assert forall t :: t in order ==> t in Range(order);
      var init, t := order[..|order| - 1], order[|order| - 1];
      assert order == init + [t];
      ScanKeepsOrLoses(s, gone, init);
    }
  }

  // ---- the wrap-around of two members --------------------------------------------

  /** Two leaves with 16-bit delays; the faster one is ahead by more than the tolerance. */
  predicate Pair(s: Scene, fast: Outbound, slow: Outbound) {
    && fast.kind.Leaf? && slow.kind.Leaf? && fast.tag != "" && slow.tag != "" && fast.tag != slow.tag
    && s.network in fast.networks && s.network in slow.networks
    && s.members == map[fast.tag := fast, slow.tag := slow]
    && fast.tag in s.history && slow.tag in s.history
    && 0 < Delay(s, fast) && Delay(s, fast) + s.tolerance < Delay(s, slow) < UINT16
  }

  /** So the faster of two members stays selected in every order if and only if the slower one's
      delay plus the tolerance does not wrap to below the faster one's. */
  lemma WrapExactly(s: Scene, fast: Outbound, slow: Outbound)
    requires Pair(s, fast, slow)
    ensures (forall pick :: Picks(s, Some(fast), pick) ==> pick == Some(fast))
            <==> s.history[fast.tag].delay <= (s.history[slow.tag].delay + s.tolerance) % 65536
  {
    KeptExactly(s, fast);
    assert s.members[slow.tag] == slow;
    assert Undisplaced(s, fast) <==> !Displaces(s, slow, Delay(s, fast));
  }

  /** For instance: at tolerance 50 a member at 65500 displaces the current one at 100. */
  lemma WrapPicksSlower(s: Scene, fast: Outbound, slow: Outbound)
    requires Pair(s, fast, slow)
    requires s.tolerance == 50 && Delay(s, fast) == 100 && Delay(s, slow) == 65500
    ensures exists pick :: Picks(s, Some(fast), pick) && pick != Some(fast)
  {
    WrapExactly(s, fast, slow);
  }

  // ---- without a recorded delay --------------------------------------------------

  /** When nothing usable is recorded the pick is any capable member, depending on the order only. */
  lemma UninformedPicks(s: Scene, current: Option<Outbound>, pick: Option<Outbound>)
    requires !Informed(s, current)
    ensures Picks(s, current, pick) <==> CapableOrNone(s, pick)
  {
    if Picks(s, current, pick) {
      var order, order' :| Lists(order, s.members.Keys) && Lists(order', s.members.Keys)
                           && pick == Pick(s, current, order, order');
      ScanIdles(s, Start(s, current), order);
      FirstCapableMeans(s, order');
      assert forall t :: t in s.members ==> t in Range(order');
    }
    if CapableOrNone(s, pick) {
      EachIsPicked(s, current, pick);
    }
  }

  ghost predicate CapableOrNone(s: Scene, pick: Option<Outbound>) {
    if pick.None? then forall t :: t in s.members ==> s.network !in s.members[t].networks || RealTag(s.members[t]) == ""
    else exists t :: t in s.members && s.network in s.members[t].networks && RealTag(s.members[t]) != ""
                     && s.members[t] == pick.value
  }

  lemma EachIsPicked(s: Scene, current: Option<Outbound>, pick: Option<Outbound>)
    requires !Informed(s, current) && CapableOrNone(s, pick)
    ensures Picks(s, current, pick)
  {
    var any := ListOf(s.members.Keys);
    ScanIdles(s, Start(s, current), any);
    if pick.None? {
      FirstCapableMeans(s, any);
      assert Pick(s, current, any, any) == None;
    } else {
      var t :| t in s.members && Capable(s, s.members[t]) && s.members[t] == pick.value;
      var none: seq<Tag> := [];
      var rest := ListOf(s.members.Keys - {t});
      assert none + [t] + rest == [t] + rest && s.members.Keys - Range(none) - {t} == s.members.Keys - {t};
      ListsInTurn(none, t, rest, s.members.Keys);
      assert pick == Pick(s, current, any, [t] + rest);
    }
  }

  lemma {:induction false} ScanIdles(s: Scene, start: Best, order: seq<Tag>)
    requires Range(order) <= s.members.Keys && forall t :: t in s.members ==> !Candidate(s, s.members[t])
    ensures Scan(s, start, order) == start
  {
    if order != [] {
      assert forall t :: t in order ==> t in Range(order);
      ScanIdles(s, start, order[..|order| - 1]);
    }
  }

  lemma {:induction false} FirstCapableMeans(s: Scene, order: seq<Tag>)
    requires Range(order) <= s.members.Keys
    ensures var first := FirstCapable(s, order);
            if first.None? then forall t :: t in order ==> t in s.members && !Capable(s, s.members[t])
            else exists t :: t in order && t in s.members && Capable(s, s.members[t]) && s.members[t] == first.value
  {
    if order != [] {
      assert order[0] in Range(order);
      if !Capable(s, s.members[order[0]]) {
        assert forall t :: t in order[1..] ==> t in Range(order);
        FirstCapableMeans(s, order[1..]);
      } else {
        assert order[0] in order;
      }
    }
  }

  ghost predicate AtMostOneCapable(s: Scene) {
    forall a, b | a in s.members && b in s.members && a != b ::
      || s.network !in s.members[a].networks || RealTag(s.members[a]) == ""
      || s.network !in s.members[b].networks || RealTag(s.members[b]) == ""
  }

  /** A second pick agrees with the first, for all orders of both, if and only if the first is made
      from history or leaves no choice between two capable members. */
  lemma StableExactly(s: Scene, current: Option<Outbound>)
    requires SaneFor(s, current) && WellTagged(s.members)
    ensures (forall first, second :: Picks(s, current, first) && Picks(s, first, second) ==> first == second)
            <==> Informed(s, current)
                 || AtMostOneCapable(s)
  {
    if Informed(s, current) {
      forall first, second | Picks(s, current, first) && Picks(s, first, second) ensures first == second {
        SamePick(s, current, first, second);
      }
    } else if a, b :| a in s.members && b in s.members && Capable(s, s.members[a]) && Capable(s, s.members[b]) && a != b {
      UninformedPicks(s, current, Some(s.members[a]));
      UninformedPicks(s, Some(s.members[a]), Some(s.members[b]));
      assert s.members[a].tag != s.members[b].tag;
    } else {
      forall first, second | Picks(s, current, first) && Picks(s, first, second) ensures first == second {
        UninformedPicks(s, current, first);
        UninformedPicks(s, first, second);
      }
    }
  }

  lemma SamePick(s: Scene, current: Option<Outbound>, first: Option<Outbound>, second: Option<Outbound>)
    requires SaneFor(s, current) && Informed(s, current) && Picks(s, current, first) && Picks(s, first, second)
    ensures first == second
  {
    var o1, o1' :| Lists(o1, s.members.Keys) && Lists(o1', s.members.Keys) && first == Pick(s, current, o1, o1');
    var o2, o2' :| Lists(o2, s.members.Keys) && Lists(o2', s.members.Keys) && second == Pick(s, first, o2, o2');
    PickIsStable(s, current, o1, o1', o2, o2');
  }
}
