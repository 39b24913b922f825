/** Outbounds, the outbound manager's table, and the bookkeeping that both mutable groups share:
    a list of tags kept beside a map from tags to outbounds. */
module Outbounds {
  import opened Common

  type Tag = string
  type Network = string

  /** `now` is the tag a nested group currently stands for. */
  datatype Kind = Leaf | Group(now: Tag) | UrlTestGroup(now: Tag)

  /** `id` tells apart two objects registered one after the other under the same tag. */
  datatype Outbound = Outbound(id: nat, tag: Tag, networks: set<Network>, kind: Kind)

  type Table = map<Tag, Outbound>

  /** `realTag` */
  function RealTag(o: Outbound): (tag: Tag)
    ensures o.kind == Leaf ==> tag == o.tag
    ensures o.kind == Group(tag) || o.kind == UrlTestGroup(tag) || o.kind == Leaf
  {
    if o.kind.Leaf? then o.tag else o.kind.now
  }

  predicate WellTagged(m: Table) {
    forall t :: t in m ==> m[t].tag == t
  }

  /** `s` lists the elements of `keys`, each once, in some order. */
  predicate Lists(s: seq<Tag>, keys: set<Tag>) {
    Distinct(s) && Range(s) == keys
  }

  /** The members after an add: every requested tag that is registered joins. */
  function Grown(members: Table, registry: Table, tags: seq<Tag>): Table {
    members + map t | t in Range(tags) && t in registry && t !in members :: registry[t]
  }

  /** The members after a remove. */
  function Shrunk(members: Table, tags: seq<Tag>): Table {
    members - Range(tags)
  }

  /** The tags an add appends: those that join, at their first occurrence, in order. */
  function Joining(members: Table, registry: Table, tags: seq<Tag>): seq<Tag> {
    if tags == [] then [] else
    var (init, t) := (tags[..|tags| - 1], tags[|tags| - 1]);
    var r := Joining(members, registry, init);
    if t in registry && t !in members && t !in init then r + [t] else r
  }

  lemma Appended(s: seq<Tag>, keys: set<Tag>, t: Tag)
    requires Lists(s, keys) && t !in keys
    ensures Lists(s + [t], keys + {t})
  {
    assert forall x :: x in s ==> x in Range(s);
    assert Range(s + [t]) == Range(s) + {t};
  }

  /** The joining tags are the requested ones that are registered and not yet members, each once. */
  lemma {:induction false} JoiningLists(members: Table, registry: Table, tags: seq<Tag>)
    ensures Lists(Joining(members, registry, tags), set t | t in Range(tags) && t in registry && t !in members)
  {
    if tags != [] {
      var init, t := tags[..|tags| - 1], tags[|tags| - 1];
      JoiningLists(members, registry, init);
      assert tags == init + [t];
      var before := set t | t in Range(init) && t in registry && t !in members;
      var after := set t | t in Range(tags) && t in registry && t !in members;
      if t in registry && t !in members && t !in init {
        Appended(Joining(members, registry, init), before, t);
        assert after == before + {t};
      } else {
        assert after == before;
      }
    }
  }

  /** The requested tags an add reports as not found, with repetitions. */
  function Missing(members: Table, registry: Table, tags: seq<Tag>): seq<Tag> {
    if tags == [] then [] else
    var (init, t) := (tags[..|tags| - 1], tags[|tags| - 1]);
    Missing(members, registry, init) + (if t in members || t in registry then [] else [t])
  }

  lemma {:induction false} MissingExactly(members: Table, registry: Table, tags: seq<Tag>, t: Tag)
    ensures t in Missing(members, registry, tags) <==> t in tags && t !in members && t !in registry
  {
    if tags != [] {
      MissingExactly(members, registry, tags[..|tags| - 1], t);
      assert tags == tags[..|tags| - 1] + [tags[|tags| - 1]];
    }
  }

  /** The tag list keeps listing the map's keys when the joining tags are appended, and the
      number of tags appended is the growth of the map. */
  lemma GrowthListed(list: seq<Tag>, members: Table, registry: Table, tags: seq<Tag>)
    requires Lists(list, members.Keys)
    ensures Lists(list + Joining(members, registry, tags), Grown(members, registry, tags).Keys)
    ensures |Grown(members, registry, tags)| == |members| + |Joining(members, registry, tags)|
  {
    var joining := Joining(members, registry, tags);
    JoiningLists(members, registry, tags);
    var list' := list + joining;
    assert Range(list') == Range(list) + Range(joining);
    assert Grown(members, registry, tags).Keys == Range(list');
    assert Distinct(list') by {
      forall i, j | 0 <= i < j < |list'| ensures list'[i] != list'[j] {
        if i < |list| <= j {
          assert list'[i] in Range(list) && list'[j] in Range(joining);
        }
      }
    }
    DistinctSize(list);
    DistinctSize(list');
  }

  /** What an add does to the members, tag by tag, and to the list: the first part is the old list,
      the rest are the tags that joined, in the order in which they were first asked for. */
  lemma AddMeans(list: seq<Tag>, members: Table, registry: Table, tags: seq<Tag>, t: Tag)
    ensures var (members', joining) := (Grown(members, registry, tags), Joining(members, registry, tags));
            && (t in members' <==> t in members || (t in tags && t in registry))
            && (t in members ==> members'[t] == members[t])
            && (t !in members && t in members' ==> members'[t] == registry[t])
            && (t in joining <==> t in tags && t in registry && t !in members)
            && Distinct(joining) && |members'| == |members| + |joining|
  {
    var joining := Joining(members, registry, tags);
    JoiningLists(members, registry, tags);
    assert t in joining <==> t in Range(joining);
    DistinctSize(joining);
    var added := set x | x in Range(tags) && x in registry && x !in members;
    assert Grown(members, registry, tags).Keys == members.Keys + added && Range(joining) == added;
  }

  lemma {:induction false} JoiningInOrder(members: Table, registry: Table, tags: seq<Tag>, k: nat)
    requires k <= |tags|
    ensures Joining(members, registry, tags[..k]) <= Joining(members, registry, tags)
  {
    if k < |tags| {
      assert tags[..|tags| - 1][..k] == tags[..k];
      JoiningInOrder(members, registry, tags[..|tags| - 1], k);
    } else {
      assert tags[..k] == tags;
    }
  }

  /** What a remove does to the members, tag by tag. */
  lemma RemoveMeans(members: Table, tags: seq<Tag>, t: Tag)
    ensures t in Shrunk(members, tags) <==> t in members && t !in tags
    ensures t in Shrunk(members, tags) ==> Shrunk(members, tags)[t] == members[t]
  {}

  lemma {:induction false} DistinctSize(s: seq<Tag>)
    requires Distinct(s)
    ensures |Range(s)| == |s|
  {
    if s != [] {
      var init, t := s[..|s| - 1], s[|s| - 1];
      DistinctSize(init);
      assert s == init + [t];
      assert Range(s) == Range(init) + {t} && t !in Range(init);
    }
  }

  lemma GrownOneMore(members: Table, registry: Table, tags: seq<Tag>, i: nat)
    requires i < |tags|
    ensures var (m, t) := (Grown(members, registry, tags[..i]), tags[i]);
            Grown(members, registry, tags[..i + 1]) == (if t in registry && t !in m then m[t := registry[t]] else m)
  {
    RangeOneMore(tags, i);
    var (m, t) := (Grown(members, registry, tags[..i]), tags[i]);
    var m' := if t in registry && t !in m then m[t := registry[t]] else m;
    assert Grown(members, registry, tags[..i + 1]).Keys == m'.Keys;
  }

  lemma ListsOneMore(members: Table, registry: Table, tags: seq<Tag>, i: nat)
    requires i < |tags|
    ensures var (m, t) := (Grown(members, registry, tags[..i]), tags[i]);
            && Joining(members, registry, tags[..i + 1])
            == Joining(members, registry, tags[..i]) + (if t in registry && t !in m then [t] else [])
            && Missing(members, registry, tags[..i + 1])
            == Missing(members, registry, tags[..i]) + (if t !in registry && t !in m then [t] else [])
  {
    assert tags[..i + 1][..i] == tags[..i];
  }

  /** The variables of the add loop after the requests `done`. */
  ghost predicate Adding(list: seq<Tag>, members: Table, registry: Table, done: seq<Tag>,
                         list': seq<Tag>, members': Table, n: nat, missing: seq<Tag>) {
    && list' == list + Joining(members, registry, done) && members' == Grown(members, registry, done)
    && n == |Joining(members, registry, done)| && missing == Missing(members, registry, done)
  }

  lemma AddingOneMore(list: seq<Tag>, members: Table, registry: Table, tags: seq<Tag>, i: nat,
                      list': seq<Tag>, members': Table, n: nat, missing: seq<Tag>)
    requires i < |tags| && Adding(list, members, registry, tags[..i], list', members', n, missing)
    ensures var (t, done) := (tags[i], tags[..i + 1]);
            if t in members' then Adding(list, members, registry, done, list', members', n, missing)
            else if t !in registry then Adding(list, members, registry, done, list', members', n, missing + [t])
            else Adding(list, members, registry, done, list' + [t], members'[t := registry[t]], n + 1, missing)
  {
    GrownOneMore(members, registry, tags, i);
    ListsOneMore(members, registry, tags, i);
  }

  /** The add loop of both groups. */
  method AddLoop(list: seq<Tag>, members: Table, registry: Table, tags: seq<Tag>)
    returns (list': seq<Tag>, members': Table, n: nat, missing: seq<Tag>)
    ensures list' == list + Joining(members, registry, tags) && members' == Grown(members, registry, tags)
    ensures n == |Joining(members, registry, tags)| && missing == Missing(members, registry, tags)
  {
    list', members', n, missing := list, members, 0, [];
    for i := 0 to |tags|
      invariant Adding(list, members, registry, tags[..i], list', members', n, missing)
    {
      var tag := tags[i];
      AddingOneMore(list, members, registry, tags, i, list', members', n, missing);
      if tag in members' {
        continue;
      }
      if tag !in registry {
        missing := missing + [tag];
        continue;
      }
      members' := members'[tag := registry[tag]];
      list' := list' + [tag];
      n := n + 1;
    }
    assert tags[..|tags|] == tags;
  }

  lemma WithoutKey(m: Table, t: Tag)
    ensures |m - {t}| == if t in m then |m| - 1 else |m|
    ensures t !in m ==> m - {t} == m
  {
    var m' := m - {t};
    if t in m {
      assert m'.Keys == m.Keys - {t};
      assert |m.Keys - {t}| == |m.Keys| - 1;
    } else {
      assert m' == m;
    }
  }

  lemma ShrunkOneMore(members: Table, tags: seq<Tag>, i: nat)
    requires i < |tags|
    ensures Shrunk(members, tags[..i + 1]) == Shrunk(members, tags[..i]) - {tags[i]}
  {
    RangeOneMore(tags, i);
  }

  /** The remove loop of both groups. */
  method RemoveLoop(members: Table, tags: seq<Tag>) returns (members': Table, n: nat)
    ensures members' == Shrunk(members, tags) && n + |members'| == |members|
  {
    members', n := members, 0;
    for i := 0 to |tags|
      invariant members' == Shrunk(members, tags[..i])
      invariant n + |members'| == |members|
    {
      ShrunkOneMore(members, tags, i);
      WithoutKey(members', tags[i]);
      if tags[i] in members' {
        members', n := members' - {tags[i]}, n + 1;
      }
    }
    assert tags[..|tags|] == tags;
  }

  /** The keys of a map, in whatever order the runtime visits them. */
  method Visit(keys: set<Tag>) returns (order: seq<Tag>)
    ensures Lists(order, keys)
  {
    order := [];
    var rest := keys;
    while rest != {}
      invariant rest <= keys && Lists(order, keys - rest)
    {
      var t :| t in rest;
      rest := rest - {t};
      assert t !in Range(order);
      assert Range(order + [t]) == Range(order) + {t};
      order := order + [t];
    }
  }
}
