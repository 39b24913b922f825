/** Rule wrappers of ruleset/rule.go: a started rule set wraps every router rule whose text
    mentions it, so that the rule matches only while the rule set is enabled. */
module RuleWrapper {
  import opened Text
  import F = RuleSet

  /** A router rule, or a wrapper around one. `id` stands for the rule's own matching. */
  datatype Rule = Base(id: nat, text: string) | Wrapped(rule: Rule, name: string)

  type Switches = string -> bool

  /** `String()`: a wrapper shows its switch after the wrapped rule's text. */
  function Show(r: Rule, enabled: Switches): string {
    match r
    case Base(_, text) => text
    case Wrapped(rule, name) => Show(rule, enabled) + " " + "enabled=" + (if enabled(name) then "true" else "false")
  }

  /** `Match` on a packet for which the base rules answer `base`. */
  predicate Matches(r: Rule, base: nat -> bool, enabled: Switches) {
    match r
    case Base(id, _) => base(id)
    case Wrapped(rule, name) => enabled(name) && Matches(rule, base, enabled)
  }

  function Marker(tag: string): string {
    "rule_set=" + tag
  }

  /** What starting the rule set `tag` does to one rule. */
  function Wrap(r: Rule, tag: string, enabled: Switches): Rule {
    if Contains(Show(r, enabled), Marker(tag)) then Wrapped(r, tag) else r
  }

  /** The wrappers a start keeps, in router order. */
  function Referring(rules: seq<Rule>, tag: string, enabled: Switches): seq<Rule> {
    if rules == [] then [] else
    var last := rules[|rules| - 1];
    Referring(rules[..|rules| - 1], tag, enabled)
    + (if Contains(Show(last, enabled), Marker(tag)) then [Wrapped(last, tag)] else [])
  }

  /** What the start finds in its context: the router, the rule set in it, and its type. */
  datatype Lookup = NoRouter | NoRuleSet | NotLocal | Found

  class RuleSet {
    const tag: string
    const filters: F.MutableRuleSet
    var started: bool
    var rules: seq<Rule>

    constructor (tag: string, filters: F.MutableRuleSet)
      ensures this.tag == tag && this.filters == filters && !started && rules == []
    {
      this.tag, this.filters, started, rules := tag, filters, false, [];
    }

    /** `Start`. Router rules are overwritten in place, then the filters are loaded. */
    method Start(lookup: Lookup, router: array<Rule>, enabled: Switches) returns (r: Lookup)
      modifies this, router, filters`filter
      ensures r == if old(started) then Found else lookup
      ensures started <==> r.Found?
      ensures old(started) || !r.Found? ==>
                router[..] == old(router[..]) && rules == old(rules) && filters.filter == old(filters.filter)
      ensures !old(started) && r.Found? ==> forall i :: 0 <= i < router.Length ==>
                router[i] == if Contains(Show(old(router[i]), enabled), "rule_set=" + tag) then Wrapped(old(router[i]), tag)
                             else old(router[i])
      ensures !old(started) && r.Found? ==> rules == old(rules) + Referring(old(router[..]), tag, enabled)
      ensures !old(started) && r.Found? ==>
                filters.filter == if filters.file.rules == [] then F.Filter([], [], [], [], [], [], "") else filters.file.rules[0]
    {
      if started {
        return Found;
      }
      if !lookup.Found? {
        return lookup;
      }
      WrapRules(router, enabled);
      filters.LoadFilters();
      started := true;
      return Found;
    }

    method WrapRules(router: array<Rule>, enabled: Switches)
      modifies this`rules, router
      ensures forall i :: 0 <= i < router.Length ==> router[i] == Wrap(old(router[i]), tag, enabled)
      ensures rules == old(rules) + Referring(old(router[..]), tag, enabled)
    {
      for i := 0 to router.Length
        invariant forall k :: 0 <= k < i ==> router[k] == Wrap(old(router[k]), tag, enabled)
        invariant forall k :: i <= k < router.Length ==> router[k] == old(router[k])
        invariant rules == old(rules) + Referring(old(router[..])[..i], tag, enabled)
      {
        assert old(router[..])[..i + 1][..i] == old(router[..])[..i];
        if Contains(Show(router[i], enabled), "rule_set=" + tag) {
          var wrapper := Wrapped(router[i], tag);
          router[i] := wrapper;
          rules := rules + [wrapper];
        }
      }
      assert old(router[..])[..router.Length] == old(router[..]);
    }
  }

  /** A wrapper shows the wrapped rule's text and its switch behind it. */
  lemma ShowMeans(r: Rule, name: string, enabled: Switches)
    ensures Show(Wrapped(r, name), enabled) == Show(r, enabled) + (if enabled(name) then " enabled=true" else " enabled=false")
    ensures r.Base? ==> Show(r, enabled) == r.text
  {
    var shown := "enabled=" + (if enabled(name) then "true" else "false");
    assert Show(r, enabled) + " " + "enabled=" + (if enabled(name) then "true" else "false") == Show(r, enabled) + (" " + shown);
    assert " " + shown == if enabled(name) then " enabled=true" else " enabled=false";
  }

  /** The kept wrappers are those of the referring rules, in router order. */
  lemma {:induction false} ReferringMeans(a: seq<Rule>, b: seq<Rule>, r: Rule, tag: string, enabled: Switches)
    ensures Referring([r], tag, enabled) == if Contains(Show(r, enabled), "rule_set=" + tag) then [Wrapped(r, tag)] else []
    ensures Referring(a + b, tag, enabled) == Referring(a, tag, enabled) + Referring(b, tag, enabled)
  {
    assert [r][..0] == [] && Marker(tag) == "rule_set=" + tag;
    if b == [] {
      assert a + b == a;
    } else {
      var init, last := b[..|b| - 1], b[|b| - 1];
      assert (a + b)[..|a + b| - 1] == a + init;
      ReferringMeans(a, init, r, tag, enabled);
    }
  }

  // ---- composition ---------------------------------------------------------------

  /** One start: the tag, and how the switches stood at that moment. */
  datatype StartEvent = StartEvent(tag: string, enabled: Switches)

  function WrapAll(r: Rule, starts: seq<StartEvent>): Rule {
    if starts == [] then r
    else Wrap(WrapAll(r, starts[..|starts| - 1]), starts[|starts| - 1].tag, starts[|starts| - 1].enabled)
  }

  function BaseText(r: Rule): string {
    if r.Base? then r.text else BaseText(r.rule)
  }

  function Wrappers(r: Rule, tag: string): nat {
    if r.Base? then 0 else Wrappers(r.rule, tag) + if r.name == tag then 1 else 0
  }

  /** The suffixes of earlier wrappers never change which later markers are found, however the
      switches stand. */
  lemma {:induction false} SuffixesDoNotMark(r: Rule, enabled: Switches, tag: string)
    requires ' ' !in tag
    ensures Contains(Show(r, enabled), "rule_set=" + tag) <==> Contains(BaseText(r), "rule_set=" + tag)
  {
    match r
    case Base(_, _) =>
    case Wrapped(rule, name) =>
      SuffixesDoNotMark(rule, enabled, tag);
      var shown := "enabled=" + (if enabled(name) then "true" else "false");
      assert Marker(tag)[4] == '_';
      HasCharacters(shown, Marker(tag), '_');
      assert Show(r, enabled) == Show(rule, enabled) + [' '] + shown;
      ContainsAcross(Show(rule, enabled), ' ', shown, Marker(tag));
  }

  ghost predicate Started(starts: seq<StartEvent>, tag: string) {
    exists i :: 0 <= i < |starts| && starts[i].tag == tag
  }

  /** After starting any rule sets with space-free tags, in any order and with the switches moving
      in between: a router rule matches exactly when its base rule does and every started rule set
      whose marker occurs in the base rule's text is enabled. */
  lemma {:induction false} Composition(r: Rule, starts: seq<StartEvent>, base: nat -> bool, enabled: Switches)
    requires r.Base? && forall i :: 0 <= i < |starts| ==> ' ' !in starts[i].tag
    ensures BaseText(WrapAll(r, starts)) == r.text
    ensures Matches(WrapAll(r, starts), base, enabled) <==>
            base(r.id) && forall tag :: Started(starts, tag) && Contains(r.text, "rule_set=" + tag) ==> enabled(tag)
  {
    if starts != [] {
      var init, last := starts[..|starts| - 1], starts[|starts| - 1];
      Composition(r, init, base, enabled);
      SuffixesDoNotMark(WrapAll(r, init), last.enabled, last.tag);
      forall tag ensures Started(starts, tag) <==> Started(init, tag) || tag == last.tag {
        if i :| 0 <= i < |starts| && starts[i].tag == tag {
          assert i < |init| ==> init[i].tag == tag;
        }
        if i :| 0 <= i < |init| && init[i].tag == tag {
          assert starts[i].tag == tag;
        }
        if tag == last.tag {
          assert starts[|starts| - 1].tag == tag;
        }
      }
    }
  }

  /** With distinct tags each started rule set wraps a rule exactly once if its marker occurs in
      the base text, and not at all otherwise. */
  lemma {:induction false} OneWrapperEach(r: Rule, starts: seq<StartEvent>, tag: string)
    requires r.Base? && forall i :: 0 <= i < |starts| ==> ' ' !in starts[i].tag
    requires forall i, j :: 0 <= i < j < |starts| ==> starts[i].tag != starts[j].tag
    ensures Wrappers(WrapAll(r, starts), tag)
         == if Started(starts, tag) && Contains(r.text, "rule_set=" + tag) then 1 else 0
    ensures BaseText(WrapAll(r, starts)) == r.text
  {
    if starts != [] {
      var init, last := starts[..|starts| - 1], starts[|starts| - 1];
      OneWrapperEach(r, init, tag);
      SuffixesDoNotMark(WrapAll(r, init), last.enabled, last.tag);
      assert forall i :: 0 <= i < |init| ==> starts[i] == init[i];
      assert Started(starts, tag) <==> Started(init, tag) || tag == last.tag;
      assert tag == last.tag ==> !Started(init, tag);
    }
  }

  // ---- which tags a text refers to -----------------------------------------------

  /** A rule's text is a list of parts with spaces between them. */
  datatype Part = Mention(tag: string) | Other(text: string)

  const MARK: string := "rule_set="

  function ShowPart(p: Part): string {
    match p
    case Mention(tag) => Marker(tag)
    case Other(text) => text
  }

  function Joined(parts: seq<Part>): string {
    if parts == [] then ""
    else if |parts| == 1 then ShowPart(parts[0])
    else Joined(parts[..|parts| - 1]) + [' '] + ShowPart(parts[|parts| - 1])
  }

  lemma JoinedMeans(a: seq<Part>, tag: string, text: string)
    ensures Joined([Mention(tag)]) == "rule_set=" + tag && Joined([Other(text)]) == text
    ensures a != [] ==> Joined(a + [Mention(tag)]) == Joined(a) + " rule_set=" + tag
    ensures a != [] ==> Joined(a + [Other(text)]) == Joined(a) + " " + text
  {
    if a != [] {
      assert (a + [Mention(tag)])[..|a|] == a && (a + [Other(text)])[..|a|] == a;
      assert Joined(a) + [' '] + ("rule_set=" + tag) == Joined(a) + " rule_set=" + tag;
    }
  }

  /** Mentioned tags hold no `=`, and the other parts do not hold the mark. */
  predicate PlainPart(p: Part) {
    match p
    case Mention(tag) => '=' !in tag
    case Other(text) => !Contains(text, MARK)
  }

  predicate Plain(parts: seq<Part>) {
    forall i :: 0 <= i < |parts| ==> PlainPart(parts[i])
  }

  /** `tag` is a prefix of a mentioned tag. */
  ghost predicate Reached(parts: seq<Part>, tag: string) {
    exists i :: 0 <= i < |parts| && ReachedBy(parts[i], tag)
  }

  predicate ReachedBy(p: Part, tag: string) {
    p.Mention? && tag <= p.tag
  }

  /** The search is by substring: a text that holds a longer marker holds every shorter one. */
  lemma PrefixContained(text: string, word: string, more: string)
    requires Contains(text, word + more)
    ensures Contains(text, word)
  {
    var i :| 0 <= i <= |text| && At(text, i, word + more);
    assert text[i..i + |word|] == text[i..i + |word + more|][..|word|] == word;
    assert At(text, i, word);
  }

  lemma PartContains(p: Part, tag: string)
    requires PlainPart(p)
    ensures Contains(ShowPart(p), Marker(tag)) <==> ReachedBy(p, tag)
  {
    match p
    case Other(text) =>
      assert Marker(tag) == MARK + tag;
      if Contains(text, Marker(tag)) {
        PrefixContained(text, MARK, tag);
      }
    case Mention(mentioned) =>
      if tag <= mentioned {
        assert Marker(mentioned)[0..|Marker(tag)|] == Marker(tag);
        assert At(Marker(mentioned), 0, Marker(tag));
      }
      if i :| 0 <= i <= |Marker(mentioned)| && At(Marker(mentioned), i, Marker(tag)) {
        OnlyAtStart(mentioned, tag, i);
      }
  }

  /** The `=` of the marker can only be found at the marker's own. */
  lemma OnlyAtStart(mentioned: string, tag: string, i: nat)
    requires '=' !in mentioned && At(Marker(mentioned), i, Marker(tag))
    ensures i == 0 && tag <= mentioned
  {
    var (s, w) := (Marker(mentioned), Marker(tag));
    assert w[8] == '=' && s[i..i + |w|][8] == s[i + 8];
    assert forall k :: 9 <= k < |s| ==> s[k] == mentioned[k - 9];
    assert s[..9] == MARK && forall k :: 0 <= k < 8 ==> MARK[k] != '=';
    assert i + 8 <= 8;
    assert s[..|w|] == w;
    assert mentioned[..|tag|] == s[..|w|][9..] == tag;
  }

  /** A marker is found in a text exactly when its tag is a prefix of a mentioned one. */
  lemma {:induction false} FoundExactly(parts: seq<Part>, tag: string)
    requires Plain(parts) && ' ' !in tag
    ensures Contains(Joined(parts), "rule_set=" + tag) <==> Reached(parts, tag)
  {
    if parts != [] {
      var init, last := parts[..|parts| - 1], parts[|parts| - 1];
      PartContains(last, tag);
      ReachedOneMore(parts, tag);
      if |parts| > 1 {
        FoundExactly(init, tag);
        assert ' ' !in Marker(tag);
        ContainsAcross(Joined(init), ' ', ShowPart(last), Marker(tag));
      }
    }
  }

  lemma ReachedOneMore(parts: seq<Part>, tag: string)
    requires parts != []
    ensures Reached(parts, tag) <==> Reached(parts[..|parts| - 1], tag) || ReachedBy(parts[|parts| - 1], tag)
  {
    var init, last := parts[..|parts| - 1], parts[|parts| - 1];
    if i :| 0 <= i < |parts| && ReachedBy(parts[i], tag) {
      assert i < |init| ==> init[i] == parts[i];
    }
    if i :| 0 <= i < |init| && ReachedBy(init[i], tag) {
      assert parts[i] == init[i];
    }
  }

  /** So a rule depends exactly on the switches of the started tags that are prefixes of a
      mentioned one. */
  lemma DependsExactly(r: Rule, parts: seq<Part>, starts: seq<StartEvent>, base: nat -> bool, enabled: Switches)
    requires r.Base? && r.text == Joined(parts) && Plain(parts) && forall i :: 0 <= i < |starts| ==> ' ' !in starts[i].tag
    ensures Matches(WrapAll(r, starts), base, enabled) <==>
            base(r.id) && forall tag :: Started(starts, tag) && Reached(parts, tag) ==> enabled(tag)
  {
    Composition(r, starts, base, enabled);
    forall tag | Started(starts, tag) ensures Contains(r.text, Marker(tag)) <==> Reached(parts, tag) {
      FoundExactly(parts, tag);
    }
  }

  /** No started tag is a prefix of a mentioned one without being mentioned itself. */
  ghost predicate NoStrayPrefix(parts: seq<Part>, starts: seq<StartEvent>) {
    forall tag :: Started(starts, tag) && Reached(parts, tag) ==> Mention(tag) in parts
  }

  /** Every rule set that the text mentions, and that was started, is enabled. */
  ghost predicate MentionedEnabled(parts: seq<Part>, starts: seq<StartEvent>, enabled: Switches) {
    forall tag :: Started(starts, tag) && Mention(tag) in parts ==> enabled(tag)
  }

  lemma MentionedIsReached(parts: seq<Part>, tag: string)
    requires Mention(tag) in parts
    ensures Reached(parts, tag)
  {
    var i :| 0 <= i < |parts| && parts[i] == Mention(tag);
    assert ReachedBy(parts[i], tag);
  }

  /** A stray prefix, alone switched off, switches the rule off. */
  lemma StrayPrefixSwitches(r: Rule, parts: seq<Part>, starts: seq<StartEvent>, tag: string)
    requires r.Base? && r.text == Joined(parts) && Plain(parts) && forall i :: 0 <= i < |starts| ==> ' ' !in starts[i].tag
    requires Started(starts, tag) && Reached(parts, tag) && Mention(tag) !in parts
    ensures !Matches(WrapAll(r, starts), id => true, x => x != tag) && MentionedEnabled(parts, starts, x => x != tag)
  {
    DependsExactly(r, parts, starts, id => true, x => x != tag);
  }

  /** Started rule sets do not interfere, that is, the rule depends only on those it mentions, if
      and only if no started tag is a stray prefix. */
  lemma IndependentExactly(r: Rule, parts: seq<Part>, starts: seq<StartEvent>)
    requires r.Base? && r.text == Joined(parts) && Plain(parts) && forall i :: 0 <= i < |starts| ==> ' ' !in starts[i].tag
    ensures (forall base: nat -> bool, enabled: Switches ::
               Matches(WrapAll(r, starts), base, enabled) <==> base(r.id) && MentionedEnabled(parts, starts, enabled))
            <==> NoStrayPrefix(parts, starts)
  {
    if NoStrayPrefix(parts, starts) {
      forall base: nat -> bool, enabled: Switches
        ensures Matches(WrapAll(r, starts), base, enabled) <==> base(r.id) && MentionedEnabled(parts, starts, enabled)
      {
        DependsExactly(r, parts, starts, base, enabled);
        forall tag | Mention(tag) in parts ensures Reached(parts, tag) {
          MentionedIsReached(parts, tag);
        }
      }
    } else {
      var tag :| Started(starts, tag) && Reached(parts, tag) && Mention(tag) !in parts;
      StrayPrefixSwitches(r, parts, starts, tag);
    }
  }
}
