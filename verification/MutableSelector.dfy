/** The mutable selector group of protocol/group/mutableselector.go. */
module MutableSelector {
  import opened Common
  import opened Outbounds

  /** What the selector holds between two calls. */
  datatype View = View(tags: seq<Tag>, outbounds: Table, selected: Option<Outbound>)

  function Now(v: View): Tag {
    if v.selected.Some? then v.selected.value.tag else ""
  }

  // ---- what each call does -------------------------------------------------------

  /** The choice restored by a start: the cached tag if it is usable, else the first tag. */
  function Restored(members: Table, tags: seq<Tag>, cached: Option<Tag>): Outbound
    requires tags != [] && tags[0] in members
  {
    if cached.Some? && cached.value != "" && cached.value in members then members[cached.value] else members[tags[0]]
  }

  /** A start that fails at tag `i`, the first unknown one, keeps the outbounds it already stored. */
  predicate FailsAt(registry: Table, v: View, v': View, i: nat) {
    && i < |v.tags| && v.tags[i] !in registry && (forall k :: 0 <= k < i ==> v.tags[k] in registry)
    && v'.outbounds == map t | t in Range(v.tags[..i]) && t in registry :: registry[t]
  }

  ghost predicate StartStep(registry: Table, cached: Option<Tag>, v: View, v': View, ok: bool) {
    && v'.tags == v.tags
    && (ok <==> forall t :: t in v.tags ==> t in registry)
    && (v.tags == [] ==> v' == v)
    && (!ok ==> v'.selected == v.selected && exists i :: FailsAt(registry, v, v', i))
    && (ok && v.tags != [] ==>
          && v'.outbounds == (map t | t in Range(v.tags) && t in registry :: registry[t])
          && v'.selected == Some(Restored(v'.outbounds, v.tags, cached)))
  }

  predicate SelectStep(v: View, tag: Tag, v': View, found: bool) {
    && (found <==> tag in v.outbounds)
    && v' == if found then v.(selected := Some(v.outbounds[tag])) else v
  }

  predicate AddStep(registry: Table, v: View, tags: seq<Tag>, v': View, n: nat, missing: seq<Tag>) {
    && v' == v.(tags := v.tags + Joining(v.outbounds, registry, tags), outbounds := Grown(v.outbounds, registry, tags))
    && n == |Joining(v.outbounds, registry, tags)|
    && missing == Missing(v.outbounds, registry, tags)
  }

  /** The tag list is rebuilt in the map's own order, whatever that is. */
  predicate RemoveStep(v: View, tags: seq<Tag>, v': View, n: nat) {
    if v.tags == [] then v' == v && n == 0 else
      && v'.outbounds == Shrunk(v.outbounds, tags)
      && n + |v'.outbounds| == |v.outbounds|
      && Lists(v'.tags, v'.outbounds.Keys)
      && v'.selected == if Now(v) in v'.outbounds then v.selected
                        else if v'.tags == [] then None else Some(v'.outbounds[v'.tags[0]])
  }

  // ---- the group object ----------------------------------------------------------

  class Selector {
    var tags: seq<Tag>
    var outbounds: Table
    var selected: Option<Outbound>
    var cached: Option<Tag>    // the selection kept in the cache file
    var interrupts: nat        // how often the open connections were interrupted
    const hasCache: bool

    constructor (tags: seq<Tag>, hasCache: bool, cached: Option<Tag>)
      ensures Held() == View(tags, map[], None) && this.cached == cached && interrupts == 0
      ensures this.hasCache == hasCache
    {
      this.tags, outbounds, selected := tags, map[], None;
      this.hasCache, this.cached, interrupts := hasCache, cached, 0;
    }

    ghost function Held(): View
      reads this
    {
      View(tags, outbounds, selected)
    }

    method Start(registry: Table) returns (ok: bool)
      requires outbounds == map[]
      modifies this`outbounds, this`selected
      ensures StartStep(registry, if hasCache then cached else None, old(Held()), Held(), ok)
    {
      if tags == [] {
        return true;
      }
      for i := 0 to |tags|
        invariant selected == old(selected) && forall k :: 0 <= k < i ==> tags[k] in registry
        invariant outbounds == map t | t in Range(tags[..i]) && t in registry :: registry[t]
      {
        RangeOneMore(tags, i);
        if tags[i] !in registry {
          assert FailsAt(registry, old(Held()), Held(), i);
          return false;
        }
        outbounds := outbounds[tags[i] := registry[tags[i]]];
      }
      assert tags[..|tags|] == tags;
      assert tags[0] in outbounds;
      if hasCache && cached.Some? && cached.value != "" && cached.value in outbounds {
        selected := Some(outbounds[cached.value]);
        return true;
      }
      selected := Some(outbounds[tags[0]]);
      return true;
    }

    /** `selectOutbound`: a change of choice is written to the cache and interrupts connections. */
    method SelectOutbound(tag: Tag) returns (found: bool)
      modifies this`selected, this`cached, this`interrupts
      ensures SelectStep(old(Held()), tag, Held(), found)
      ensures interrupts == old(interrupts) + if selected != old(selected) then 1 else 0
      ensures cached == if hasCache && selected != old(selected) then Some(tag) else old(cached)
    {
      if tag !in outbounds {
        return false;
      }
      var previous := selected;
      selected := Some(outbounds[tag]);
      if previous == selected {
        return true;
      }
      if hasCache {
        cached := Some(tag);
      }
      interrupts := interrupts + 1;
      return true;
    }

    method Add(args: seq<Tag>, registry: Table) returns (n: nat, missing: seq<Tag>)
      modifies this`tags, this`outbounds
      ensures AddStep(registry, old(Held()), args, Held(), n, missing)
    {
      var tags', outbounds';
      tags', outbounds', n, missing := AddLoop(tags, outbounds, registry, args);
      tags, outbounds := tags', outbounds';
    }

    method Remove(args: seq<Tag>) returns (n: nat)
      modifies this`tags, this`outbounds, this`selected, this`cached, this`interrupts
      ensures RemoveStep(old(Held()), args, Held(), n)
      ensures interrupts == old(interrupts) + if selected.Some? && selected != old(selected) then 1 else 0
      ensures cached == if hasCache && selected.Some? && selected != old(selected) then Some(tags[0]) else old(cached)
    {
      n := 0;
      if tags == [] {
        return;
      }
      var rest;
      rest, n := RemoveLoop(outbounds, args);
      outbounds := rest;
      tags := Visit(outbounds.Keys);
      if (if selected.Some? then selected.value.tag else "") !in outbounds {
        if tags == [] {
          selected := None;
        } else {
          assert tags[0] in Range(tags);
          var _ := SelectOutbound(tags[0]);
        }
      }
    }
  }

  // ---- runs ----------------------------------------------------------------------

  /** The tag list is duplicate-free and is the map's key set; the choice is nil or the map's
      own entry for its tag. */
  ghost predicate Consistent(v: View) {
    && Lists(v.tags, v.outbounds.Keys)
    && WellTagged(v.outbounds)
    && (v.selected.Some? ==> Now(v) in v.outbounds && v.outbounds[Now(v)] == v.selected.value)
  }

  lemma StartConsistent(registry: Table, cached: Option<Tag>, v: View, v': View)
    requires Distinct(v.tags) && v.outbounds == map[] && v.selected.None? && WellTagged(registry)
    requires StartStep(registry, cached, v, v', true)
    ensures Consistent(v')
    ensures v.tags != [] ==> v'.selected.Some?
  {
    assert forall t :: t in v.tags ==> t in Range(v.tags);
    if v.tags != [] {
      assert v'.outbounds.Keys == Range(v.tags);
    }
  }

  datatype Call =
    | Select(tag: Tag, found: bool)
    | Add(registry: Table, tags: seq<Tag>, n: nat, missing: seq<Tag>)
    | Remove(tags: seq<Tag>, n: nat)

  ghost predicate CallStep(v: View, call: Call, v': View) {
    match call
    case Select(tag, found) => SelectStep(v, tag, v', found)
    case Add(registry, tags, n, missing) => WellTagged(registry) && AddStep(registry, v, tags, v', n, missing)
    case Remove(tags, n) => RemoveStep(v, tags, v', n)
  }

  /** Call `i` leads from view `i` to view `i + 1`. */
  ghost predicate CallAt(views: seq<View>, calls: seq<Call>, i: nat)
    requires i < |calls| && i + 1 < |views|
  {
    CallStep(views[i], calls[i], views[i + 1])
  }

  lemma CallKeeps(v: View, call: Call, v': View)
    requires Consistent(v) && CallStep(v, call, v')
    ensures Consistent(v')
    ensures call.Add? ==> call.n == |v'.outbounds| - |v.outbounds|
    ensures call.Remove? ==> call.n == |v.outbounds| - |v'.outbounds|
  {
    match call
    case Select(_, _) =>
    case Add(registry, tags, n, missing) => AddKeeps(registry, v, tags, v', n, missing);
    case Remove(tags, n) => RemoveKeeps(v, tags, v', n);
  }

  lemma AddKeeps(registry: Table, v: View, tags: seq<Tag>, v': View, n: nat, missing: seq<Tag>)
    requires Consistent(v) && WellTagged(registry) && AddStep(registry, v, tags, v', n, missing)
    ensures Consistent(v') && n == |v'.outbounds| - |v.outbounds|
  {
    GrowthListed(v.tags, v.outbounds, registry, tags);
  }

  lemma RemoveKeeps(v: View, tags: seq<Tag>, v': View, n: nat)
    requires Consistent(v) && RemoveStep(v, tags, v', n)
    ensures Consistent(v') && n == |v.outbounds| - |v'.outbounds|
  {
    if v'.tags != [] {
      assert v'.tags[0] in Range(v'.tags);
    }
  }

  lemma CallAtKeeps(views: seq<View>, calls: seq<Call>, i: nat)
    requires i < |calls| && i + 1 < |views| && CallAt(views, calls, i) && Consistent(views[i])
    ensures Consistent(views[i + 1])
  {
    CallKeeps(views[i], calls[i], views[i + 1]);
  }

  lemma {:induction false} CallsKeep(views: seq<View>, calls: seq<Call>, k: nat)
    requires |views| == |calls| + 1 && k < |views| && Consistent(views[0])
    requires forall i :: 0 <= i < |calls| ==> CallAt(views, calls, i)
    ensures Consistent(views[k])
  {
    if k > 0 {
      CallsKeep(views, calls, k - 1);
      CallAtKeeps(views, calls, k - 1);
    }
  }

  /** Tag list and map stay one set, and the choice stays a member, over every run of calls after
      a successful start from duplicate-free tags. */
  lemma RunConsistent(registry: Table, cached: Option<Tag>, empty: View, views: seq<View>, calls: seq<Call>, k: nat)
    requires Distinct(empty.tags) && empty.outbounds == map[] && empty.selected.None? && WellTagged(registry)
    requires |views| == |calls| + 1 && StartStep(registry, cached, empty, views[0], true) && k < |views|
    requires forall i :: 0 <= i < |calls| ==> CallAt(views, calls, i)
    ensures Consistent(views[k])
  {
    StartConsistent(registry, cached, empty, views[0]);
    CallsKeep(views, calls, k);
  }

  // ---- what the calls mean, field by field ---------------------------------------

  /** A successful start of a non-empty group holds exactly its tags' outbounds, and restores the
      cached selection if that is a non-empty tag of the list, else it chooses the first tag. */
  lemma StartRestores(registry: Table, cached: Option<Tag>, v: View, v': View)
    requires StartStep(registry, cached, v, v', true) && v.tags != [] && WellTagged(registry)
    ensures v'.tags == v.tags && forall t :: t in v'.outbounds <==> t in v.tags
    ensures forall t :: t in v.tags ==> t in registry && v'.outbounds[t] == registry[t]
    ensures v'.selected.Some? && v'.selected.value.tag
            == if cached.Some? && cached.value != "" && cached.value in v.tags then cached.value else v.tags[0]
  {
    assert forall t :: t in v.tags <==> t in Range(v.tags);
  }

  /** A failed start leaves the choice alone and keeps the outbounds of the tags before the first
      unknown one. */
  lemma StartFails(registry: Table, cached: Option<Tag>, v: View, v': View)
    requires StartStep(registry, cached, v, v', false)
    ensures v'.selected == v.selected && v'.tags == v.tags
    ensures exists i :: 0 <= i < |v.tags| && v.tags[i] !in registry
                        && forall t :: t in v'.outbounds <==> t in v.tags[..i]
    ensures forall t :: t in v'.outbounds ==> t in registry && v'.outbounds[t] == registry[t]
  {
    var i: nat :| FailsAt(registry, v, v', i);
    forall t ensures t in v'.outbounds <==> t in v.tags[..i] {
      assert t in v.tags[..i] ==> exists k :: 0 <= k < i && v.tags[k] == t;
    }
  }

  lemma SelectMeans(v: View, tag: Tag, v': View, found: bool)
    requires SelectStep(v, tag, v', found)
    ensures v'.tags == v.tags && v'.outbounds == v.outbounds && (found <==> tag in v.outbounds)
    ensures v'.selected == if tag in v.outbounds then Some(v.outbounds[tag]) else v.selected
  {}

  /** An add changes nothing but that each requested, registered non-member joins at the end. */
  lemma AddedMeans(registry: Table, v: View, tags: seq<Tag>, v': View, n: nat, missing: seq<Tag>, t: Tag)
    requires AddStep(registry, v, tags, v', n, missing)
    ensures v'.selected == v.selected && v.tags <= v'.tags && n == |v'.outbounds| - |v.outbounds| == |v'.tags| - |v.tags|
    ensures t in v'.outbounds <==> t in v.outbounds || (t in tags && t in registry)
    ensures t in v.outbounds ==> v'.outbounds[t] == v.outbounds[t]
    ensures t !in v.outbounds && t in v'.outbounds ==> v'.outbounds[t] == registry[t] && t in v'.tags[|v.tags|..]
    ensures t in missing <==> t in tags && t !in v.outbounds && t !in registry
  {
    AddMeans(v.tags, v.outbounds, registry, tags, t);
    MissingExactly(v.outbounds, registry, tags, t);
    assert v'.tags[|v.tags|..] == Joining(v.outbounds, registry, tags);
  }

  /** A remove takes the requested members out; a choice that is still a member stays, one that left
      is replaced by the first listed member, or by nothing. */
  lemma RemovedMeans(v: View, tags: seq<Tag>, v': View, n: nat, t: Tag)
    requires Consistent(v) && RemoveStep(v, tags, v', n)
    ensures t in v'.outbounds <==> t in v.outbounds && t !in tags
    ensures t in v'.outbounds ==> v'.outbounds[t] == v.outbounds[t]
    ensures n == |v.outbounds| - |v'.outbounds| && Lists(v'.tags, v'.outbounds.Keys)
    ensures v.selected.Some? && v.selected.value.tag !in tags ==> v'.selected == v.selected
    ensures v.selected.Some? && v.selected.value.tag in tags ==>
              if v'.tags == [] then v'.selected.None?
              else v'.selected.Some? && v'.selected.value.tag == v'.tags[0] && v'.selected.value in v.outbounds.Values
  {
    RemoveMeans(v.outbounds, tags, t);
    if v'.tags != [] {
      assert v'.tags[0] in Range(v'.tags);
      RemoveMeans(v.outbounds, tags, v'.tags[0]);
    }
    if v.selected.Some? {
      RemoveMeans(v.outbounds, tags, v.selected.value.tag);
    }
    assert v.tags == [] ==> v.outbounds == map[];
  }

  // ---- the selection survives a restart ------------------------------------------

  /** The group and the selection kept in the cache file. */
  datatype Kept = Kept(view: View, cached: Option<Tag>)

  /** A call writes the cache exactly when it changes the choice to another outbound. */
  ghost predicate KeptStep(k: Kept, call: Call, k': Kept) {
    && CallStep(k.view, call, k'.view)
    && k'.cached == if k'.view.selected.Some? && k'.view.selected != k.view.selected then Some(k'.view.selected.value.tag)
                    else k.cached
  }

  ghost predicate KeptAt(kept: seq<Kept>, calls: seq<Call>, i: nat)
    requires i < |calls| && i + 1 < |kept|
  {
    KeptStep(kept[i], calls[i], kept[i + 1])
  }

  /** Once some call has changed the choice, the cache holds the choice's tag whenever there is one. */
  lemma {:induction false} CacheFollows(kept: seq<Kept>, calls: seq<Call>, i: nat, n: nat)
    requires |kept| == |calls| + 1 && i < n < |kept| && forall k :: 0 <= k < |calls| ==> KeptAt(kept, calls, k)
    requires kept[i + 1].view.selected.Some? && kept[i + 1].view.selected != kept[i].view.selected
    ensures kept[n].view.selected.Some? ==> kept[n].cached == Some(kept[n].view.selected.value.tag)
  {
    assert KeptAt(kept, calls, n - 1);
    if i < n - 1 {
      CacheFollows(kept, calls, i, n - 1);
    }
  }

  /** So a fresh start from the resulting cache and list chooses the same tag again, after every run in
      which some call changed the choice: a select, or a remove that replaced it. */
  lemma RestartKeepsChoice(kept: seq<Kept>, calls: seq<Call>, i: nat, n: nat, registry: Table, v': View)
    requires |kept| == |calls| + 1 && i < n < |kept| && forall k :: 0 <= k < |calls| ==> KeptAt(kept, calls, k)
    requires kept[i + 1].view.selected.Some? && kept[i + 1].view.selected != kept[i].view.selected
    requires Consistent(kept[n].view) && kept[n].view.selected.Some? && kept[n].view.selected.value.tag != ""
    requires WellTagged(registry) && StartStep(registry, kept[n].cached, View(kept[n].view.tags, map[], None), v', true)
    ensures v'.selected.Some? && v'.selected.value.tag == kept[n].view.selected.value.tag
  {
    CacheFollows(kept, calls, i, n);
    var tag := kept[n].view.selected.value.tag;
    assert tag in Range(kept[n].view.tags);
    StartRestores(registry, kept[n].cached, View(kept[n].view.tags, map[], None), v');
  }

  /** An add reports an error exactly when some requested tag is neither a member nor registered. */
  lemma AddErrs(registry: Table, v: View, tags: seq<Tag>, v': View, n: nat, missing: seq<Tag>)
    requires AddStep(registry, v, tags, v', n, missing)
    ensures missing != [] <==> exists t :: t in tags && t !in v.outbounds && t !in registry
  {
    forall t ensures t in missing <==> t in tags && t !in v.outbounds && t !in registry {
      MissingExactly(v.outbounds, registry, tags, t);
    }
    if missing != [] {
      assert missing[0] in missing;
    }
  }

  /** After a remove that leaves the group non-empty there is a choice, except exactly when there
      was none before and the empty tag is itself a member. */
  lemma RemoveLeavesChoice(v: View, tags: seq<Tag>, v': View, n: nat)
    requires Consistent(v) && RemoveStep(v, tags, v', n) && v.tags != [] && v'.tags != []
    ensures v'.selected.Some? <==> v.selected.Some? || "" !in v'.outbounds
    ensures v'.selected.Some? ==> Now(v') in v'.outbounds
    ensures v.selected.Some? && Now(v) !in tags ==> v'.selected == v.selected
  {
    assert v'.tags[0] in Range(v'.tags);
  }
}
