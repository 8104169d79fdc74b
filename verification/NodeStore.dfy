/** The stored node pool and every operation that changes it. */
module NodeStore {
  import opened Prelude
  import opened NodePool
  import opened NodeRefresh

  /** Bounds on what one stored node carries. */
  ghost predicate Bounded(n: Node) {
    Tidy(n) && WithinBounds(n)
  }

  /** What the link and subscription parsers hand over: distinct ids, no
      measurements, no user metadata, at most the cap. */
  ghost predicate Parsed(ns: seq<Node>) {
    Pool(ns) && forall n | n in ns :: FreshNode(n)
  }

  ghost predicate AllBounded(ns: seq<Node>) {
    forall n | n in ns :: Bounded(n)
  }

  /** The invariant of the stored file. */
  ghost predicate StoreOk(nodes: seq<Node>, selected: string) {
    && Pool(nodes) && |nodes| <= MAX_NODES && AllBounded(nodes)
    && (selected == "" || selected in Ids(nodes))
  }

  // ----- merge keeps the bounds -----

  lemma CombineBounded(there: Option<Node>, n: Node)
    requires WithinBounds(n) && (there.Some? ==> Bounded(there.value))
    ensures Bounded(Combine(there, n))
  {
  }

  lemma {:induction false} IncomingBounded(pool: seq<Node>, incoming: seq<Node>)
    requires AllBounded(pool) && forall n | n in incoming :: WithinBounds(n)
    ensures AllBounded(Incoming(pool, incoming))
    decreases incoming
  {
    if incoming != [] {
      var n := incoming[0];
      LookupFound(pool, n.id);
      CombineBounded(Lookup(pool, n.id), n);
      var next := Put(pool, Combine(Lookup(pool, n.id), n));
      assert forall x | x in next :: x in pool || x == Combine(Lookup(pool, n.id), n);
      IncomingBounded(next, incoming[1..]);
    }
  }

  /** Merging any bounded nodes, with duplicates or not, gives a good pool. */
  lemma MergeGivesPool(existing: seq<Node>, incoming: seq<Node>)
    requires AllBounded(existing) && (forall n | n in incoming :: WithinBounds(n) && n.id != "")
    ensures var r := Merge(existing, incoming);
            Pool(r) && |r| <= MAX_NODES && AllBounded(r)
  {
    var t := Table(existing);
    TableIsPool(existing);
    TableElements(existing);
    MergeThroughTable(existing, incoming);
    TableOfPool(t);
    IncomingBounded(t, incoming);
    MergeSpec(t, incoming, "");
    AddIdsExtends(Ids(t), Ids(incoming));
    var r := Merge(t, incoming);
    assert forall i | 0 <= i < |r| :: r[i] == Incoming(t, incoming)[i];
    forall x | x in Ids(r) ensures x != "" {
      assert x in AddIds(Ids(t), Ids(incoming));
    }
  }

  lemma {:induction false} MatchesBounded(kept: seq<Node>, incoming: seq<Node>)
    requires AllBounded(kept)
    ensures AllBounded(Matching(kept, incoming)) && AllBounded(MatchingById(kept, incoming))
  {
    if incoming != [] {
      MatchesBounded(kept, incoming[1..]);
      LookupFound(kept, incoming[0].id);
    }
  }

  lemma RefreshGivesPool(kept: seq<Node>, incoming: seq<Node>, refreshed: set<string>)
    requires Pool(kept) && AllBounded(kept) && (forall n | n in incoming :: FreshNode(n))
    ensures var r := RefreshWindows(kept, incoming, refreshed);
            Pool(r) && |r| <= MAX_NODES && AllBounded(r)
  {
    MatchesBounded(kept, incoming);
    MergeGivesPool(Matching(kept, incoming), incoming);
    FilterFacts(kept, n => Preserves(kept, incoming, refreshed, n));
    var f := Merge(Matching(kept, incoming), incoming);
    forall n | n in f ensures n.id != "" {
      var i :| 0 <= i < |f| && f[i] == n;
      assert Ids(f)[i] == n.id;
    }
    MergeGivesPool(Preserved(kept, incoming, refreshed), f);
  }

  lemma LinuxRefreshGivesPool(kept: seq<Node>, incoming: seq<Node>, publicSources: set<string>)
    requires Pool(kept) && AllBounded(kept) && (forall n | n in incoming :: FreshNode(n))
    ensures var r := RefreshLinux(kept, incoming, publicSources);
            Pool(r) && |r| <= MAX_NODES && AllBounded(r)
  {
    var keep := (n: Node) => n.source !in publicSources || UserKept(n);
    FilterFacts(kept, keep);
    MergeGivesPool(Filter(kept, keep), incoming);
  }

  lemma CountryRefreshGivesPool(kept: seq<Node>, incoming: seq<Node>)
    requires Pool(kept) && AllBounded(kept) && (forall n | n in incoming :: FreshNode(n))
    ensures var r := RefreshCountry(kept, incoming);
            Pool(r) && |r| <= MAX_NODES && AllBounded(r)
  {
    MatchesBounded(kept, incoming);
    MergeGivesPool(MatchingById(kept, incoming), incoming);
    var shard := Merge(MatchingById(kept, incoming), incoming);
    var keep := (n: Node) => n.id !in Ids(shard);
    FilterFacts(kept, keep);
    var rest := Filter(kept, keep);
    forall n | n in rest ensures n.id !in Ids(shard) {
      assert keep(n);
    }
    PoolJoin(shard, rest);
    PoolFront(shard + rest);
  }

  lemma PoolJoin(a: seq<Node>, b: seq<Node>)
    requires Pool(a) && Pool(b) && forall n | n in b :: n.id !in Ids(a)
    ensures Pool(a + b)
  {
    assert Ids(a + b) == Ids(a) + Ids(b);
    forall i, j | 0 <= i < |a| && 0 <= j < |b| ensures Ids(a)[i] != Ids(b)[j] {
      assert b[j] in b && Ids(a)[i] in Ids(a);
    }
  }

  lemma PoolFront(all: seq<Node>)
    requires Pool(all)
    ensures Pool(FirstN(all, MAX_NODES))
  {
    assert Ids(FirstN(all, MAX_NODES)) == FirstN(Ids(all), MAX_NODES);
  }

  datatype MetaResult = Updated | RatingInvalid | NotFound

  /** The tags that are not blank, each stripped and cut to 32 characters. */
  function CleanTags(tags: seq<string>, strip: string -> string): (r: seq<string>)
    ensures |r| <= |tags| && forall x | x in r :: 1 <= |x| <= 32
  {
    if tags == [] then []
    else if strip(tags[0]) == "" then CleanTags(tags[1..], strip)
    else [FirstN(strip(tags[0]), 32)] + CleanTags(tags[1..], strip)
  }

  class Store {
    var nodes: seq<Node>
    var selected: string

    ghost predicate Valid()
      reads this
    {
      StoreOk(nodes, selected)
    }

    constructor ()
      ensures Valid() && nodes == [] && selected == ""
    {
      nodes, selected := [], "";
    }

    /** The `for n in nodes: if n.id == id` search of every operation below. */
    method Find(id: string) returns (i: nat)
      ensures i == IndexOf(nodes, id)
    {
      i := 0;
      while i < |nodes| && nodes[i].id != id
        invariant i <= |nodes|
        invariant IndexOf(nodes, id) == i + IndexOf(nodes[i..], id)
      {
        assert nodes[i..][1..] == nodes[i + 1..];
        i := i + 1;
      }
    }

    lemma UpdateKeeps(i: nat, n: Node)
      requires Valid() && i < |nodes| && n.id == nodes[i].id && Bounded(n)
      ensures StoreOk(nodes[i := n], selected)
    {
      var next := nodes[i := n];
      assert Ids(next) == Ids(nodes);
      assert forall x | x in next :: x == n || x in nodes;
    }

    /** Import adds the parsed nodes, evicts nothing, and selects the first
        node when nothing was selected. */
    method Import(parsed: seq<Node>)
      requires Valid() && Parsed(parsed)
      modifies this
      ensures Valid() && nodes == Merge(old(nodes), parsed)
      ensures Ids(old(nodes)) <= Ids(nodes)
      ensures old(selected) != "" ==> selected == old(selected)
      ensures old(selected) == "" && nodes != [] ==> selected == nodes[0].id
    {
      var merged := MergeNodes(nodes, parsed);
      forall n | n in parsed ensures WithinBounds(n) && n.id != "" {
        assert FreshNode(n);
      }
      MergeGivesPool(nodes, parsed);
      MergeEvictsNothing(nodes, parsed);
      assert forall i | 0 <= i < |nodes| :: Ids(merged)[i] == Ids(nodes)[i];
      nodes := merged;
      if selected == "" && nodes != [] {
        selected := nodes[0].id;
        assert Ids(nodes)[0] == selected;
      }
    }

    /** A public refresh in which at least one source answered. */
    method RefreshPublic(incoming: seq<Node>, refreshed: set<string>)
      requires Valid() && forall n | n in incoming :: FreshNode(n)
      modifies this
      ensures Valid() && nodes == RefreshWindows(old(nodes), incoming, refreshed)
      ensures selected == KeepSelection(old(selected), nodes)
    {
      RefreshGivesPool(nodes, incoming, refreshed);
      var shared := MergeNodes(Matching(nodes, incoming), incoming);
      nodes := MergeNodes(Preserved(nodes, incoming, refreshed), shared);
      selected := KeepSelection(selected, nodes);
      assert nodes != [] ==> Ids(nodes)[0] == nodes[0].id;
    }

    method RefreshPublicLinux(incoming: seq<Node>, publicSources: set<string>)
      requires Valid() && forall n | n in incoming :: FreshNode(n)
      modifies this
      ensures Valid() && nodes == RefreshLinux(old(nodes), incoming, publicSources)
      ensures selected == KeepSelection(old(selected), nodes)
    {
      LinuxRefreshGivesPool(nodes, incoming, publicSources);
      nodes := MergeNodes(Filter(nodes, (n: Node) => n.source !in publicSources || UserKept(n)), incoming);
      selected := KeepSelection(selected, nodes);
      assert nodes != [] ==> Ids(nodes)[0] == nodes[0].id;
    }

    method RefreshCountryShard(incoming: seq<Node>)
      requires Valid() && forall n | n in incoming :: FreshNode(n)
      modifies this
      ensures Valid() && nodes == RefreshCountry(old(nodes), incoming)
      ensures selected == KeepSelection(old(selected), nodes)
    {
      CountryRefreshGivesPool(nodes, incoming);
      nodes := RefreshCountry(nodes, incoming);
      selected := KeepSelection(selected, nodes);
      assert nodes != [] ==> Ids(nodes)[0] == nodes[0].id;
    }

    method Select(id: string) returns (found: bool)
      requires Valid()
      modifies this`selected
      ensures Valid() && found == (id in Ids(nodes))
      ensures selected == if found then id else old(selected)
    {
      var i := Find(id);
      found := i < |nodes|;
      if found {
        assert Ids(nodes)[i] == id;
        selected := id;
      } else {
        LookupFound(nodes, id);
      }
    }

    method RecordTest(id: string, h: Health)
      requires Valid()
      modifies this`nodes
      ensures Valid() && |nodes| == |old(nodes)|
      ensures forall k | 0 <= k < |nodes| ::
                var n := old(nodes)[k];
                nodes[k] == if n.id != id then n else
                  n.(proofs := n.proofs.(lastTest := Some(h), history := LastN(n.proofs.history + [h], MAX_HISTORY)))
    {
      var i := Find(id);
      if i < |nodes| {
        var n := nodes[i];
        var updated := n.(proofs := n.proofs.(lastTest := Some(h), history := LastN(n.proofs.history + [h], MAX_HISTORY)));
        assert n in nodes;
        UpdateKeeps(i, updated);
        OthersDiffer(i);
        nodes := nodes[i := updated];
      }
    }

    method RecordPerformance(id: string, p: Performance)
      requires Valid()
      modifies this`nodes
      ensures Valid() && |nodes| == |old(nodes)|
      ensures forall k | 0 <= k < |nodes| ::
                var n := old(nodes)[k];
                nodes[k] == if n.id != id then n else
                  n.(proofs := n.proofs.(performance := Some(p),
                                         performances := LastN(n.proofs.performances + [p], MAX_PERFORMANCE)))
    {
      var i := Find(id);
      if i < |nodes| {
        var n := nodes[i];
        var updated := n.(proofs := n.proofs.(performance := Some(p),
                                              performances := LastN(n.proofs.performances + [p], MAX_PERFORMANCE)));
        assert n in nodes;
        UpdateKeeps(i, updated);
        OthersDiffer(i);
        nodes := nodes[i := updated];
      }
    }

    lemma OthersDiffer(i: nat)
      requires Valid() && i < |nodes|
      ensures forall k | 0 <= k < |nodes| && k != i :: nodes[k].id != nodes[i].id
    {
      forall k | 0 <= k < |nodes| && k != i ensures nodes[k].id != nodes[i].id {
        assert Ids(nodes)[k] != Ids(nodes)[i];
      }
    }

    method ToggleFavorite(id: string) returns (found: bool)
      requires Valid()
      modifies this`nodes
      ensures Valid() && found == (id in Ids(old(nodes))) && |nodes| == |old(nodes)|
      ensures forall k | 0 <= k < |nodes| ::
                var n := old(nodes)[k];
                nodes[k] == if n.id != id then n else n.(meta := n.meta.(favorite := !n.meta.favorite))
    {
      var i := Find(id);
      LookupFound(nodes, id);
      found := i < |nodes|;
      if found {
        var n := nodes[i];
        assert n in nodes;
        UpdateKeeps(i, n.(meta := n.meta.(favorite := !n.meta.favorite)));
        OthersDiffer(i);
        nodes := nodes[i := n.(meta := n.meta.(favorite := !n.meta.favorite))];
      }
    }

    method TogglePin(id: string) returns (found: bool)
      requires Valid()
      modifies this`nodes
      ensures Valid() && found == (id in Ids(old(nodes))) && |nodes| == |old(nodes)|
      ensures forall k | 0 <= k < |nodes| ::
                var n := old(nodes)[k];
                nodes[k] == if n.id != id then n else n.(meta := n.meta.(pinned := !n.meta.pinned))
    {
      var i := Find(id);
      LookupFound(nodes, id);
      found := i < |nodes|;
      if found {
        var n := nodes[i];
        assert n in nodes;
        UpdateKeeps(i, n.(meta := n.meta.(pinned := !n.meta.pinned)));
        OthersDiffer(i);
        nodes := nodes[i := n.(meta := n.meta.(pinned := !n.meta.pinned))];
      }
    }

    /** The user's own fields of one node; `strip` is Python's `strip`, and no
        rating is a value that is not a number. */
    method UpdateMeta(id: string, name: string, note: string, tags: seq<string>, rating: Option<int>, strip: string -> string)
      returns (r: MetaResult)
      requires Valid()
      modifies this`nodes
      ensures Valid() && |nodes| == |old(nodes)|
      ensures r == if rating.None? || !(0 <= rating.value <= 5) then RatingInvalid
                   else if id in Ids(old(nodes)) then Updated else NotFound
      ensures forall k | 0 <= k < |nodes| ::
                var n := old(nodes)[k];
                nodes[k] == if !r.Updated? || n.id != id then n else
                  n.(name := if strip(name) != "" then FirstN(strip(name), 120) else n.name,
                     meta := n.meta.(rating := rating.value, tags := FirstN(CleanTags(tags, strip), MAX_TAGS),
                                     note := FirstN(strip(note), MAX_NOTE)))
    {
      if rating.None? || !(0 <= rating.value <= 5) {
        return RatingInvalid;
      }
      var i := Find(id);
      LookupFound(nodes, id);
      if i == |nodes| {
        return NotFound;
      }
      var n := nodes[i];
      var cleanName := FirstN(strip(name), 120);
      var updated := n.(name := if cleanName != "" then cleanName else n.name,
                        meta := n.meta.(rating := rating.value, tags := FirstN(CleanTags(tags, strip), MAX_TAGS),
                                        note := FirstN(strip(note), MAX_NOTE)));
      assert n in nodes;
      UpdateKeeps(i, updated);
      OthersDiffer(i);
      nodes := nodes[i := updated];
      return Updated;
    }
  }
}
