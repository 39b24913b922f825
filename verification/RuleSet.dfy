/** The mutable rule set of ruleset/rule.go: a filter in memory and a rule file, kept in step. */
module RuleSet {
  import opened RuleList

  /** The six supported lists; `others` stands for the rule's remaining fields, which no edit reads
      or writes. */
  datatype Filter = Filter(
    domain: seq<string>, domainSuffix: seq<string>, domainKeyword: seq<string>,
    domainRegex: seq<string>, processName: seq<string>, packageName: seq<string>, others: string)

  const EMPTY: Filter := Filter([], [], [], [], [], [], "")

  const TYPES: set<string> :=
    {"domain", "domainSuffix", "domainKeyword", "domainRegex", "processName", "packageName"}

  type Action = (seq<string>, seq<string>) -> seq<string>

  function List(f: Filter, kind: string): seq<string> {
    match kind
    case "domain" => f.domain
    case "domainSuffix" => f.domainSuffix
    case "domainKeyword" => f.domainKeyword
    case "domainRegex" => f.domainRegex
    case "processName" => f.processName
    case "packageName" => f.packageName
    case _ => []
  }

  /** A diff with a single item in one list. */
  function Single(kind: string, item: string): Filter {
    EMPTY.(domain := if kind == "domain" then [item] else [],
           domainSuffix := if kind == "domainSuffix" then [item] else [],
           domainKeyword := if kind == "domainKeyword" then [item] else [],
           domainRegex := if kind == "domainRegex" then [item] else [],
           processName := if kind == "processName" then [item] else [],
           packageName := if kind == "packageName" then [item] else [])
  }

  /** What both edits do with a whole diff. */
  function Apply(f: Filter, diff: Filter, fn: Action): Filter {
    f.(domain := fn(f.domain, diff.domain),
       domainSuffix := fn(f.domainSuffix, diff.domainSuffix),
       domainKeyword := fn(f.domainKeyword, diff.domainKeyword),
       domainRegex := fn(f.domainRegex, diff.domainRegex),
       processName := fn(f.processName, diff.processName),
       packageName := fn(f.packageName, diff.packageName))
  }

  /** What a load makes of a rule file: its first rule, or nothing. */
  function Loaded(rules: seq<Filter>): Filter {
    if rules == [] then EMPTY else rules[0]
  }

  /** How a write to the file goes; after a failing one the file reads as `rules`, which need not
      be what it held before. */
  datatype Write = Saves | Fails(rules: seq<Filter>)

  // ---- the object ----------------------------------------------------------------

  class RuleFile {
    var rules: seq<Filter>

    constructor (rules: seq<Filter>)
      ensures this.rules == rules
    {
      this.rules := rules;
    }
  }

  class MutableRuleSet {
    var filter: Filter
    const file: RuleFile

    constructor (file: RuleFile)
      ensures filter == EMPTY && this.file == file
    {
      filter, this.file := EMPTY, file;
    }

    /** `saveToFile` */
    method Save(write: Write) returns (ok: bool)
      modifies file
      ensures ok == write.Saves?
      ensures file.rules == if ok then [filter] else write.rules
    {
      match write {
      case Saves => file.rules := [filter]; return true;
      case Fails(rules) => file.rules := rules; return false;
      }
    }

    method LoadFilters()
      modifies this`filter
      ensures filter == if file.rules == [] then Filter([], [], [], [], [], [], "") else file.rules[0]
    {
      var rules := file.rules;
      if |rules| == 0 {
        filter := EMPTY;
      } else {
        filter := rules[0];
      }
    }

    /** Returns whether the filter type is supported. */
    method Modify(kind: string, item: string, fn: Action) returns (known: bool)
      requires forall s :: fn(s, []) == s
      modifies this`filter
      ensures known <==> kind in TYPES
      ensures filter == if known then Apply(old(filter), Single(kind, item), fn) else old(filter)
      ensures kind == "domain" ==> filter == old(filter).(domain := fn(old(filter).domain, [item]))
      ensures kind == "domainSuffix" ==> filter == old(filter).(domainSuffix := fn(old(filter).domainSuffix, [item]))
      ensures kind == "domainKeyword" ==> filter == old(filter).(domainKeyword := fn(old(filter).domainKeyword, [item]))
      ensures kind == "domainRegex" ==> filter == old(filter).(domainRegex := fn(old(filter).domainRegex, [item]))
      ensures kind == "processName" ==> filter == old(filter).(processName := fn(old(filter).processName, [item]))
      ensures kind == "packageName" ==> filter == old(filter).(packageName := fn(old(filter).packageName, [item]))
    {
      var items := [item];
      match kind {
      case "domain" => filter := filter.(domain := fn(filter.domain, items));
      case "domainSuffix" => filter := filter.(domainSuffix := fn(filter.domainSuffix, items));
      case "domainKeyword" => filter := filter.(domainKeyword := fn(filter.domainKeyword, items));
      case "domainRegex" => filter := filter.(domainRegex := fn(filter.domainRegex, items));
      case "processName" => filter := filter.(processName := fn(filter.processName, items));
      case "packageName" => filter := filter.(packageName := fn(filter.packageName, items));
      case _ => return false;
      }
      return true;
    }

    method Patch(diff: Filter, fn: Action)
      requires forall s :: fn(s, []) == s
      modifies this`filter
      ensures filter == Apply(old(filter), diff, fn)
      ensures filter.domain == fn(old(filter).domain, diff.domain)
      ensures filter.domainSuffix == fn(old(filter).domainSuffix, diff.domainSuffix)
      ensures filter.domainKeyword == fn(old(filter).domainKeyword, diff.domainKeyword)
      ensures filter.domainRegex == fn(old(filter).domainRegex, diff.domainRegex)
      ensures filter.processName == fn(old(filter).processName, diff.processName)
      ensures filter.packageName == fn(old(filter).packageName, diff.packageName)
    {
      if |diff.domain| > 0 { filter := filter.(domain := fn(filter.domain, diff.domain)); }
      if |diff.domainSuffix| > 0 { filter := filter.(domainSuffix := fn(filter.domainSuffix, diff.domainSuffix)); }
      if |diff.domainKeyword| > 0 { filter := filter.(domainKeyword := fn(filter.domainKeyword, diff.domainKeyword)); }
      if |diff.domainRegex| > 0 { filter := filter.(domainRegex := fn(filter.domainRegex, diff.domainRegex)); }
      if |diff.processName| > 0 { filter := filter.(processName := fn(filter.processName, diff.processName)); }
      if |diff.packageName| > 0 { filter := filter.(packageName := fn(filter.packageName, diff.packageName)); }
    }

    ghost function Held(): State
      reads this, file
    {
      State(filter, file.rules)
    }

    method AddItem(kind: string, item: string, write: Write) returns (ok: bool)
      modifies this`filter, file
      ensures Held() == Next(old(Held()), AddOne(kind, item), write)
      ensures ok <==> kind in TYPES && write.Saves?
      ensures !ok ==> filter == old(filter)
    {
      var known := Modify(kind, item, Merge);
      if !known {
        return false;
      }
      ok := Save(write);
      if !ok {
        var _ := Modify(kind, item, Remove);
        RollbackIsExact(old(filter), kind, item);
      }
    }

    method RemoveItem(kind: string, item: string, write: Write) returns (ok: bool)
      modifies this`filter, file
      ensures Held() == Next(old(Held()), RemoveOne(kind, item), write)
      ensures ok <==> kind in TYPES && write.Saves?
    {
      var known := Modify(kind, item, Remove);
      if !known {
        return false;
      }
      ok := Save(write);
    }

    method AddItems(items: Filter, write: Write) returns (ok: bool)
      modifies this`filter, file
      ensures Held() == Next(old(Held()), AddMany(items), write)
      ensures ok <==> write.Saves?
    {
      Patch(items, Merge);
      ok := Save(write);
    }

    method RemoveItems(items: Filter, write: Write) returns (ok: bool)
      modifies this`filter, file
      ensures Held() == Next(old(Held()), RemoveMany(items), write)
      ensures ok <==> write.Saves?
    {
      Patch(items, Remove);
      ok := Save(write);
    }
  }

  // ---- calls as steps ------------------------------------------------------------

  datatype State = State(filter: Filter, rules: seq<Filter>)

  datatype Call =
    | Load
    | AddOne(kind: string, item: string)
    | RemoveOne(kind: string, item: string)
    | AddMany(items: Filter)
    | RemoveMany(items: Filter)

  function Next(s: State, call: Call, write: Write): State {
    match call
    case Load => s.(filter := Loaded(s.rules))
    case AddOne(kind, item) =>
      if kind !in TYPES then s
      else if write.Saves? then Saved(s.filter, Single(kind, item), Merge, write)
      else s.(rules := write.rules)
    case RemoveOne(kind, item) =>
      if kind in TYPES then Saved(s.filter, Single(kind, item), Remove, write) else s
    case AddMany(items) => Saved(s.filter, items, Merge, write)
    case RemoveMany(items) => Saved(s.filter, items, Remove, write)
  }

  function Saved(filter: Filter, diff: Filter, fn: Action, write: Write): State {
    var f := Apply(filter, diff, fn);
    State(f, if write.Saves? then [f] else write.rules)
  }

  /** The rollback of a failed `AddItem` restores the filter exactly, element for element. */
  lemma RollbackIsExact(f: Filter, kind: string, item: string)
    requires kind in TYPES
    ensures Apply(Apply(f, Single(kind, item), Merge), Single(kind, item), Remove) == f
  {
    var merged := Apply(f, Single(kind, item), Merge);
    var back := Apply(merged, Single(kind, item), Remove);
    forall k | k in TYPES ensures List(back, k) == List(f, k) {
      AppliedList(f, Single(kind, item), Merge, k);
      AppliedList(merged, Single(kind, item), Remove, k);
      SingleList(kind, item, k);
      MergeThenRemove(List(f, k), item);
    }
    SameLists(back, f);
  }

  /** A filter is its six lists and the other fields. */
  lemma SameLists(f: Filter, g: Filter)
    ensures f == g <==> f.others == g.others && forall kind :: kind in TYPES ==> List(f, kind) == List(g, kind)
  {
    if forall kind :: kind in TYPES ==> List(f, kind) == List(g, kind) {
      assert "domain" in TYPES && "domainSuffix" in TYPES && "domainKeyword" in TYPES;
      assert "domainRegex" in TYPES && "processName" in TYPES && "packageName" in TYPES;
    }
  }

  // ---- memory and file -----------------------------------------------------------

  predicate Agree(s: State) {
    s.filter == if s.rules == [] then Filter([], [], [], [], [], [], "") else s.rules[0]
  }

  /** Whether the call gets as far as writing the file. */
  predicate Writes(call: Call) {
    match call
    case Load => false
    case AddOne(kind, _) => kind in TYPES
    case RemoveOne(kind, _) => kind in TYPES
    case _ => true
  }

  /** The filter after a call that could not be saved: only `AddItem` rolls back. */
  function Unsaved(f: Filter, call: Call): Filter {
    match call
    case Load => f
    case AddOne(_, _) => f
    case RemoveOne(kind, item) => if kind in TYPES then Apply(f, Single(kind, item), Remove) else f
    case AddMany(items) => Apply(f, items, Merge)
    case RemoveMany(items) => Apply(f, items, Remove)
  }

  /** From agreement, a call ends in agreement exactly when it writes nothing, or is saved, or
      leaves a file that reads as the filter it leaves in memory. */
  lemma AfterAnyWrite(s: State, call: Call, write: Write)
    requires Agree(s)
    ensures Agree(Next(s, call, write)) <==>
            !Writes(call) || write.Saves? || Loaded(write.rules) == Unsaved(s.filter, call)
  {}

  /** Whether a call that could not be saved leaves the filter empty, told from the filter before it
      and the items of the call. */
  predicate Empties(f: Filter, call: Call) {
    match call
    case Load => f == EMPTY
    case AddOne(_, _) => f == EMPTY
    case RemoveOne(kind, item) => f == EMPTY || f == Single(kind, item)
    case AddMany(items) => f == EMPTY && forall kind :: kind in TYPES ==> List(items, kind) == []
    case RemoveMany(items) => f.others == "" && forall kind :: kind in TYPES ==> Covers(List(items, kind), List(f, kind))
  }

  /** Removing `items` takes out all of `s`. */
  predicate Covers(items: seq<string>, s: seq<string>) {
    (forall x :: x in s ==> x in items) && (|items| == 1 ==> |s| <= 1)
  }

  /** A failed write that leaves the file unreadable, as one cut short after the truncation does: any
      edit then ends in agreement exactly when it leaves the filter empty. */
  lemma AfterTruncation(s: State, call: Call)
    requires Agree(s) && Writes(call)
    ensures Agree(Next(s, call, Fails([]))) <==> Empties(s.filter, call)
  {
    AfterAnyWrite(s, call, Fails([]));
    UnsavedEmpty(s.filter, call);
  }

  lemma UnsavedEmpty(f: Filter, call: Call)
    requires Writes(call)
    ensures Unsaved(f, call) == EMPTY <==> Empties(f, call)
  {
    match call
    case AddOne(_, _) =>
    case RemoveOne(kind, item) => RemoveOneEmpties(f, kind, item);
    case AddMany(items) =>
      ApplyEmpties(f, items, Merge);
      EmptyLists(f);
    case RemoveMany(items) =>
      ApplyEmpties(f, items, Remove);
      forall kind | kind in TYPES ensures Remove(List(f, kind), List(items, kind)) == [] <==> Covers(List(items, kind), List(f, kind)) {
        RemoveClearsIff(List(f, kind), List(items, kind));
      }
  }

  lemma EmptyLists(f: Filter)
    ensures f == EMPTY <==> f.others == "" && forall kind :: kind in TYPES ==> List(f, kind) == []
  {
    SameLists(f, EMPTY);
    assert forall kind :: kind in TYPES ==> List(EMPTY, kind) == [];
  }

  lemma ApplyEmpties(f: Filter, diff: Filter, fn: Action)
    ensures Apply(f, diff, fn) == EMPTY <==>
            f.others == "" && forall kind :: kind in TYPES ==> fn(List(f, kind), List(diff, kind)) == []
  {
    EmptyLists(Apply(f, diff, fn));
    forall kind | kind in TYPES ensures List(Apply(f, diff, fn), kind) == fn(List(f, kind), List(diff, kind)) {
      AppliedList(f, diff, fn, kind);
    }
  }

  lemma RemoveOneEmpties(f: Filter, kind: string, item: string)
    requires kind in TYPES
    ensures Apply(f, Single(kind, item), Remove) == EMPTY <==> f == EMPTY || f == Single(kind, item)
  {
    ApplyEmpties(f, Single(kind, item), Remove);
    EmptyLists(f);
    SameLists(f, Single(kind, item));
    forall k | k in TYPES
      ensures List(Single(kind, item), k) == if k == kind then [item] else []
      ensures Remove(List(f, k), List(Single(kind, item), k)) == [] <==> List(f, k) == [] || List(f, k) == List(Single(kind, item), k)
    {
      SingleList(kind, item, k);
      RemoveOneClears(List(f, k), item);
    }
  }

  lemma RemoveOneClears(s: seq<string>, item: string)
    ensures Remove(s, [item]) == [] <==> s == [] || s == [item]
  {
    RemoveClearsIff(s, [item]);
    if |s| == 1 {
      assert s[0] in s;
    }
  }

  /** Whether a call that cannot be saved leaves memory and file in agreement, when the failing
      write leaves the file as it was: exactly when it would not have changed the filter.
      `AddItem` always does. */
  predicate Harmless(f: Filter, call: Call) {
    match call
    case Load => true
    case AddOne(_, _) => true
    case RemoveOne(kind, item) => item !in List(f, kind)
    case AddMany(items) => forall kind :: kind in TYPES ==> List(items, kind) == []
    case RemoveMany(items) =>
      forall kind, x | kind in TYPES && x in List(items, kind) :: x !in List(f, kind)
  }

  /** The write succeeds or leaves the file as it was. */
  predicate Intact(s: State, write: Write) {
    write.Saves? || write.rules == s.rules
  }

  lemma ApplyIdleIff(f: Filter, diff: Filter, fn: Action)
    ensures Apply(f, diff, fn) == f <==> forall kind :: kind in TYPES ==> fn(List(f, kind), List(diff, kind)) == List(f, kind)
  {
    SameLists(Apply(f, diff, fn), f);
    forall kind | kind in TYPES ensures List(Apply(f, diff, fn), kind) == fn(List(f, kind), List(diff, kind)) {
      AppliedList(f, diff, fn, kind);
    }
  }

  /** From agreement, a call whose write leaves the file intact if it fails ends in agreement
      exactly when it is saved or harmless. */
  lemma AgreementIff(s: State, call: Call, write: Write)
    requires Agree(s) && Intact(s, write)
    ensures Agree(Next(s, call, write)) <==> write.Saves? || Harmless(s.filter, call)
  {
    AfterAnyWrite(s, call, write);
    match call
    case Load =>
    case AddOne(_, _) =>
    case RemoveOne(kind, item) =>
      if kind in TYPES {
        RemoveOneIdle(s.filter, kind, item);
      } else {
        assert List(s.filter, kind) == [];
      }
    case AddMany(items) => ApplyIdleIff(s.filter, items, Merge);
    case RemoveMany(items) =>
      ApplyIdleIff(s.filter, items, Remove);
      forall kind | kind in TYPES
        ensures Remove(List(s.filter, kind), List(items, kind)) == List(s.filter, kind)
                <==> forall x :: x in List(items, kind) ==> x !in List(s.filter, kind)
      {
        RemoveIdleIff(List(s.filter, kind), List(items, kind));
      }
  }

  lemma RemoveOneIdle(f: Filter, kind: string, item: string)
    requires kind in TYPES
    ensures Apply(f, Single(kind, item), Remove) == f <==> item !in List(f, kind)
  {
    RemoveIdleIff(List(f, kind), [item]);
    ApplyIdleIff(f, Single(kind, item), Remove);
    forall k | k in TYPES ensures List(Single(kind, item), k) == if k == kind then [item] else [] {
      SingleList(kind, item, k);
    }
  }

  ghost predicate Moves(states: seq<State>, calls: seq<Call>, writes: seq<Write>, n: nat)
    requires n < |calls| == |writes| && n + 1 < |states|
  {
    states[n + 1] == Next(states[n], calls[n], writes[n])
  }

  ghost predicate Run(states: seq<State>, calls: seq<Call>, writes: seq<Write>) {
    && |states| == |calls| + 1 && |writes| == |calls|
    && forall n :: 0 <= n < |calls| ==> Moves(states, calls, writes, n)
  }

  /** Memory and file agree after every call of a run that starts in agreement (as a start does,
      by loading), in which only `AddItem` ever fails to save, and then leaves the file as it was. */
  lemma {:induction false} RunAgrees(states: seq<State>, calls: seq<Call>, writes: seq<Write>, n: nat)
    requires Run(states, calls, writes) && Agree(states[0]) && n < |states|
    requires forall k :: 0 <= k < |calls| && writes[k].Fails? ==>
               calls[k].Load? || (calls[k].AddOne? && Intact(states[k], writes[k]))
    ensures Agree(states[n])
  {
    if n > 0 {
      RunAgrees(states, calls, writes, n - 1);
      assert Moves(states, calls, writes, n - 1);
      AfterAnyWrite(states[n - 1], calls[n - 1], writes[n - 1]);
    }
  }

  /** A reload that lands between an edit and its save. If the save works, the edit is lost although
      it is reported done. If it fails, `AddItem` rolls back on the reloaded filter, which is exact
      if and only if the item was not in the list before. */
  lemma ReloadInBetween(s: State, kind: string, item: string, fn: Action)
    requires Agree(s) && kind in TYPES
    ensures var reloaded := Next(s.(filter := Apply(s.filter, Single(kind, item), fn)), Load, Saves);
            && reloaded.filter == s.filter
            && (Apply(reloaded.filter, Single(kind, item), Remove) == s.filter <==> item !in List(s.filter, kind))
  {
    RemoveOneIdle(s.filter, kind, item);
  }

  // ---- the edits, field by field -------------------------------------------------

  /** Which list a type names. */
  lemma NamedLists(f: Filter)
    ensures List(f, "domain") == f.domain && List(f, "domainSuffix") == f.domainSuffix
    ensures List(f, "domainKeyword") == f.domainKeyword && List(f, "domainRegex") == f.domainRegex
    ensures List(f, "processName") == f.processName && List(f, "packageName") == f.packageName
    ensures TYPES == {"domain", "domainSuffix", "domainKeyword", "domainRegex", "processName", "packageName"}
  {}

  /** A saved `AddItem` appends the item to the named list, in memory and as the file's only rule. */
  lemma AddedOne(s: State, item: string)
    ensures var f := s.filter.(domain := s.filter.domain + [item]); Next(s, AddOne("domain", item), Saves) == State(f, [f])
    ensures var f := s.filter.(domainSuffix := s.filter.domainSuffix + [item]);
            Next(s, AddOne("domainSuffix", item), Saves) == State(f, [f])
    ensures var f := s.filter.(domainKeyword := s.filter.domainKeyword + [item]);
            Next(s, AddOne("domainKeyword", item), Saves) == State(f, [f])
    ensures var f := s.filter.(domainRegex := s.filter.domainRegex + [item]);
            Next(s, AddOne("domainRegex", item), Saves) == State(f, [f])
    ensures var f := s.filter.(processName := s.filter.processName + [item]);
            Next(s, AddOne("processName", item), Saves) == State(f, [f])
    ensures var f := s.filter.(packageName := s.filter.packageName + [item]);
            Next(s, AddOne("packageName", item), Saves) == State(f, [f])
  {
    assert forall x :: Merge(x, []) == x;
  }

  /** An edit of many appends each of the six lists; and whatever an edit is, if it is saved the file
      holds the resulting filter as its only rule, and if it fails it holds what the write left. */
  lemma SavedMeans(s: State, call: Call, write: Write, items: Filter)
    requires Writes(call)
    ensures Next(s, call, write).rules == if write.Saves? then [Next(s, call, write).filter] else write.rules
    ensures call.AddOne? && write.Fails? ==> Next(s, call, write).filter == s.filter
    ensures var f := Next(s, AddMany(items), write).filter;
            && f.domain == s.filter.domain + items.domain && f.domainSuffix == s.filter.domainSuffix + items.domainSuffix
            && f.domainKeyword == s.filter.domainKeyword + items.domainKeyword
            && f.domainRegex == s.filter.domainRegex + items.domainRegex
            && f.processName == s.filter.processName + items.processName
            && f.packageName == s.filter.packageName + items.packageName && f.others == s.filter.others
  {}

  // ---- the multiset specification ------------------------------------------------

  /** What a call means for the multiset of one type. */
  function BagNext(kind: string, m: multiset<string>, call: Call, write: Write): multiset<string> {
    match call
    case Load => m
    case AddOne(k, item) => if k == kind && write.Saves? then m + multiset{item} else m
    case RemoveOne(k, item) => if k == kind then m - multiset{item} else m
    case AddMany(items) => m + multiset(List(items, kind))
    case RemoveMany(items) => Dropped(m, List(items, kind))
  }

  /** Every edit refines the per-type multiset specification, and touches nothing else. */
  lemma EditRefines(s: State, call: Call, write: Write, kind: string)
    requires kind in TYPES && !call.Load?
    ensures Bag(Next(s, call, write), kind) == BagNext(kind, Bag(s, kind), call, write)
    ensures Next(s, call, write).filter.others == s.filter.others
  {
    match call
    case AddOne(k, item) => AddOneRefines(s, k, item, write, kind);
    case RemoveOne(k, item) => RemoveOneRefines(s, k, item, write, kind);
    case AddMany(items) => ManyRefines(s.filter, items, kind);
    case RemoveMany(items) => ManyRefines(s.filter, items, kind);
  }

  lemma AddOneRefines(s: State, k: string, item: string, write: Write, kind: string)
    requires kind in TYPES
    ensures Bag(Next(s, AddOne(k, item), write), kind) == BagNext(kind, Bag(s, kind), AddOne(k, item), write)
  {
    SingleRefines(s.filter, k, item, kind);
  }

  lemma RemoveOneRefines(s: State, k: string, item: string, write: Write, kind: string)
    requires kind in TYPES
    ensures Bag(Next(s, RemoveOne(k, item), write), kind) == BagNext(kind, Bag(s, kind), RemoveOne(k, item), write)
  {
    SingleRefines(s.filter, k, item, kind);
  }

  lemma ManyRefines(f: Filter, items: Filter, kind: string)
    requires kind in TYPES
    ensures multiset(List(Apply(f, items, Merge), kind)) == multiset(List(f, kind)) + multiset(List(items, kind))
    ensures multiset(List(Apply(f, items, Remove), kind)) == Dropped(multiset(List(f, kind)), List(items, kind))
  {
    AppliedList(f, items, Merge, kind);
    AppliedList(f, items, Remove, kind);
    RemoveRefines(List(f, kind), List(items, kind));
  }

  lemma SingleRefines(f: Filter, k: string, item: string, kind: string)
    requires kind in TYPES
    ensures List(Apply(f, Single(k, item), Merge), kind) == if k == kind then List(f, kind) + [item] else List(f, kind)
    ensures multiset(List(Apply(f, Single(k, item), Remove), kind))
         == if k == kind then multiset(List(f, kind)) - multiset{item} else multiset(List(f, kind))
  {
    AppliedList(f, Single(k, item), Merge, kind);
    AppliedList(f, Single(k, item), Remove, kind);
    SingleList(k, item, kind);
    RemoveRefines(List(f, kind), [item]);
  }

  lemma SingleList(k: string, item: string, kind: string)
    requires kind in TYPES
    ensures List(Single(k, item), kind) == if k == kind then [item] else []
  {}

  lemma AppliedList(f: Filter, diff: Filter, fn: Action, kind: string)
    requires kind in TYPES
    ensures List(Apply(f, diff, fn), kind) == fn(List(f, kind), List(diff, kind))
  {}

  function BagAfter(kind: string, m: multiset<string>, calls: seq<Call>, writes: seq<Write>): multiset<string>
    requires |writes| == |calls|
  {
    if calls == [] then m else
    var k := |calls| - 1;
    BagNext(kind, BagAfter(kind, m, calls[..k], writes[..k]), calls[k], writes[k])
  }

  /** Over a whole run of edits the lists, as multisets, are what the specification computes from
      the first lists, the calls, and which of them were saved. */
  lemma RunRefines(states: seq<State>, calls: seq<Call>, writes: seq<Write>, n: nat, kind: string)
    requires Run(states, calls, writes) && n <= |calls| && kind in TYPES
    requires forall k :: 0 <= k < |calls| ==> !calls[k].Load?
    ensures Bag(states[n], kind) == BagAfter(kind, Bag(states[0], kind), calls[..n], writes[..n])
  {
    var bags := BagsOf(states, calls, writes, kind);
    BagsFollow(kind, bags, calls, writes, n);
  }

  lemma {:induction false} BagsOf(states: seq<State>, calls: seq<Call>, writes: seq<Write>, kind: string)
    returns (bags: seq<multiset<string>>)
    requires Run(states, calls, writes) && kind in TYPES && forall k :: 0 <= k < |calls| ==> !calls[k].Load?
    ensures |bags| == |states| && forall i :: 0 <= i < |states| ==> bags[i] == Bag(states[i], kind)
    ensures forall i :: 0 <= i < |calls| ==> bags[i + 1] == BagNext(kind, bags[i], calls[i], writes[i])
  {
    bags := [];
    for m := 0 to |states|
      invariant |bags| == m && forall i :: 0 <= i < m ==> bags[i] == Bag(states[i], kind)
    {
      bags := bags + [Bag(states[m], kind)];
    }
    forall i | 0 <= i < |calls| ensures bags[i + 1] == BagNext(kind, bags[i], calls[i], writes[i]) {
      RefinesAt(states, calls, writes, i, kind);
    }
  }

  lemma {:induction false} BagsFollow(kind: string, bags: seq<multiset<string>>, calls: seq<Call>, writes: seq<Write>, n: nat)
    requires |bags| == |calls| + 1 == |writes| + 1 && n <= |calls|
    requires forall i :: 0 <= i < |calls| ==> bags[i + 1] == BagNext(kind, bags[i], calls[i], writes[i])
    ensures bags[n] == BagAfter(kind, bags[0], calls[..n], writes[..n])
  {
    if n > 0 {
      BagsFollow(kind, bags, calls, writes, n - 1);
      BagAfterOneMore(kind, bags[0], calls, writes, n - 1);
      assert bags[n - 1 + 1] == BagNext(kind, bags[n - 1], calls[n - 1], writes[n - 1]);
    }
  }

  function Bag(s: State, kind: string): multiset<string> {
    multiset(List(s.filter, kind))
  }

  lemma RefinesAt(states: seq<State>, calls: seq<Call>, writes: seq<Write>, n: nat, kind: string)
    requires Run(states, calls, writes) && n < |calls| && kind in TYPES && !calls[n].Load?
    ensures Bag(states[n + 1], kind) == BagNext(kind, Bag(states[n], kind), calls[n], writes[n])
  {
    assert Moves(states, calls, writes, n);
    EditRefines(states[n], calls[n], writes[n], kind);
  }

  lemma BagAfterOneMore(kind: string, m: multiset<string>, calls: seq<Call>, writes: seq<Write>, k: nat)
    requires k < |calls| == |writes|
    ensures BagAfter(kind, m, calls[..k + 1], writes[..k + 1])
         == BagNext(kind, BagAfter(kind, m, calls[..k], writes[..k]), calls[k], writes[k])
  {
    assert calls[..k + 1][..k] == calls[..k] && writes[..k + 1][..k] == writes[..k];
  }
}
