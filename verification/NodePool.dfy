/** The keyed merge of the node pool and its specification. */
module NodePool {
  import opened Prelude

  const MAX_NODES := 2000
  const MAX_HISTORY := 20
  const MAX_PERFORMANCE := 12
  const MAX_TAGS := 16
  const MAX_NOTE := 500

  datatype Health = Health(healthy: bool, country: string, checked: string)

  datatype Endpoint = Endpoint(reachable: bool, latency: int)

  datatype Performance = Performance(ok: bool, ping: int, download: int, upload: int)

  /** What the user wrote about a node. */
  datatype Meta = Meta(favorite: bool, pinned: bool, rating: int, tags: seq<string>, note: string)

  /** What was measured on a node. */
  datatype Proofs = Proofs(lastTest: Option<Health>, endpoint: Option<Endpoint>, history: seq<Health>,
                           performance: Option<Performance>, performances: seq<Performance>)

  /** `config` stands for the connection fields the id is a digest of. */
  datatype Node = Node(id: string, name: string, protocol: string, config: string, raw: string, source: string,
                       meta: Meta, proofs: Proofs)

  function Clip(m: Meta): Meta {
    m.(tags := FirstN(m.tags, MAX_TAGS), note := FirstN(m.note, MAX_NOTE))
  }

  function Either<T>(a: Option<T>, b: Option<T>): Option<T> {
    if a.Some? then a else b
  }

  /** Old measurements win where they exist; old histories are cut to length. */
  function Keep(kept: Proofs, found: Proofs): Proofs {
    Proofs(Either(kept.lastTest, found.lastTest), Either(kept.endpoint, found.endpoint),
           if kept.history != [] then LastN(kept.history, MAX_HISTORY) else found.history,
           Either(kept.performance, found.performance),
           if kept.performances != [] then LastN(kept.performances, MAX_PERFORMANCE) else found.performances)
  }

  /** The entry stored when `n` comes in over what is there. */
  function Combine(there: Option<Node>, n: Node): (r: Node)
    ensures r.id == n.id
  {
    match there
    case None => n.(meta := Clip(n.meta))
    case Some(o) => n.(meta := Clip(o.meta), proofs := Keep(o.proofs, n.proofs))
  }

  // ----- pools: insertion-ordered tables keyed by id -----

  function Ids(pool: seq<Node>): (r: seq<string>)
    ensures |r| == |pool| && forall i | 0 <= i < |pool| :: r[i] == pool[i].id
  {
    seq(|pool|, i requires 0 <= i < |pool| => pool[i].id)
  }

  function IndexOf(pool: seq<Node>, id: string): (i: nat)
    ensures i <= |pool|
    ensures i < |pool| ==> pool[i].id == id
    ensures forall j | 0 <= j < i :: pool[j].id != id
  {
    if pool == [] || pool[0].id == id then 0 else 1 + IndexOf(pool[1..], id)
  }

  function Lookup(pool: seq<Node>, id: string): Option<Node> {
    var i := IndexOf(pool, id);
    if i < |pool| then Some(pool[i]) else None
  }

  function Put(pool: seq<Node>, n: Node): (r: seq<Node>) {
    var i := IndexOf(pool, n.id);
    if i < |pool| then pool[i := n] else pool + [n]
  }

  function Incoming(pool: seq<Node>, incoming: seq<Node>): seq<Node>
    decreases incoming
  {
    if incoming == [] then pool
    else Incoming(Put(pool, Combine(Lookup(pool, incoming[0].id), incoming[0])), incoming[1..])
  }

  /** `{str(n.id): n for n in existing if n.id}`. */
  function Table(existing: seq<Node>): seq<Node> {
    if existing == [] then []
    else
      var n := existing[|existing| - 1];
      var t := Table(existing[..|existing| - 1]);
      if n.id == "" then t else Put(t, n)
  }

  function Merge(existing: seq<Node>, incoming: seq<Node>): seq<Node> {
    FirstN(Incoming(Table(existing), incoming), MAX_NODES)
  }

  method MergeNodes(existing: seq<Node>, incoming: seq<Node>) returns (r: seq<Node>)
    ensures r == Merge(existing, incoming)
  {
    var byId := [];
    for i := 0 to |existing|
      invariant byId == Table(existing[..i])
    {
      assert existing[..i + 1][..i] == existing[..i];
      if existing[i].id != "" {
        byId := Put(byId, existing[i]);
      }
    }
    assert existing[..|existing|] == existing;
    for i := 0 to |incoming|
      invariant Incoming(byId, incoming[i..]) == Incoming(Table(existing), incoming)
    {
      var n := incoming[i];
      assert incoming[i..][1..] == incoming[i + 1..];
      byId := Put(byId, Combine(Lookup(byId, n.id), n));
    }
    return FirstN(byId, MAX_NODES);
  }

  // ----- basic facts -----

  ghost predicate Pool(pool: seq<Node>) {
    Distinct(Ids(pool)) && "" !in Ids(pool)
  }

  lemma LookupAt(pool: seq<Node>, i: nat)
    requires i < |pool| && Distinct(Ids(pool))
    ensures Lookup(pool, pool[i].id) == Some(pool[i])
  {
    var j := IndexOf(pool, pool[i].id);
    assert j <= i && Ids(pool)[j] == Ids(pool)[i];
  }

  lemma LookupFound(pool: seq<Node>, id: string)
    ensures Lookup(pool, id).Some? <==> id in Ids(pool)
    ensures Lookup(pool, id).Some? ==> Lookup(pool, id).value in pool && Lookup(pool, id).value.id == id
  {
    var i := IndexOf(pool, id);
    if i < |pool| {
      assert Ids(pool)[i] == id;
    }
    if id in Ids(pool) {
      var j :| 0 <= j < |pool| && Ids(pool)[j] == id;
      assert pool[j].id == id;
    }
  }

  /** Two pools with the same ids in the same order and the same entries are
      the same pool. */
  lemma PoolsEqual(a: seq<Node>, b: seq<Node>)
    requires Ids(a) == Ids(b) && Distinct(Ids(a))
    requires forall id | id in Ids(a) :: Lookup(a, id) == Lookup(b, id)
    ensures a == b
  {
    forall i | 0 <= i < |a| ensures a[i] == b[i] {
      LookupAt(a, i);
      LookupAt(b, i);
      assert Ids(a)[i] in Ids(a);
      assert Ids(a)[i] == Ids(b)[i];
    }
  }

  function AddId(ids: seq<string>, id: string): seq<string> {
    if id in ids then ids else ids + [id]
  }

  lemma PutEffect(pool: seq<Node>, n: Node)
    requires Distinct(Ids(pool))
    ensures Ids(Put(pool, n)) == AddId(Ids(pool), n.id) && Distinct(Ids(Put(pool, n)))
    ensures Lookup(Put(pool, n), n.id) == Some(n)
  {
    var i, r := IndexOf(pool, n.id), Put(pool, n);
    LookupFound(pool, n.id);
    if i < |pool| {
      assert Ids(r) == Ids(pool);
      LookupAt(r, i);
    } else {
      assert Ids(r) == Ids(pool) + [n.id];
      LookupAt(r, |pool|);
    }
  }

  lemma PutLeavesOthers(pool: seq<Node>, n: Node, id: string)
    requires Distinct(Ids(pool)) && id != n.id
    ensures Lookup(Put(pool, n), id) == Lookup(pool, id)
  {
    PutEffect(pool, n);
    var r, j := Put(pool, n), IndexOf(pool, id);
    LookupFound(r, id);
    LookupFound(pool, id);
    if j < |pool| {
      assert r[j] == pool[j];
      LookupAt(r, j);
    }
  }

  // ----- the specification of merge -----

  /** Ids in order of first occurrence. */
  function AddIds(ids: seq<string>, more: seq<string>): seq<string>
    decreases more
  {
    if more == [] then ids else AddIds(AddId(ids, more[0]), more[1..])
  }

  /** The incoming nodes with one id, in order. */
  function Having(incoming: seq<Node>, id: string): seq<Node> {
    if incoming == [] then []
    else if incoming[0].id == id then [incoming[0]] + Having(incoming[1..], id)
    else Having(incoming[1..], id)
  }

  function CombineAll(there: Option<Node>, ns: seq<Node>): Option<Node>
    decreases ns
  {
    if ns == [] then there else CombineAll(Some(Combine(there, ns[0])), ns[1..])
  }

  lemma {:induction false} IncomingIds(pool: seq<Node>, incoming: seq<Node>)
    requires Distinct(Ids(pool))
    ensures var r := Incoming(pool, incoming);
            Ids(r) == AddIds(Ids(pool), Ids(incoming)) && Distinct(Ids(r))
    decreases incoming
  {
    if incoming != [] {
      var n := incoming[0];
      var next := Put(pool, Combine(Lookup(pool, n.id), n));
      PutEffect(pool, Combine(Lookup(pool, n.id), n));
      IncomingIds(next, incoming[1..]);
      assert Ids(incoming)[1..] == Ids(incoming[1..]);
    }
  }

  lemma {:induction false} IncomingLookup(pool: seq<Node>, incoming: seq<Node>, id: string)
    requires Distinct(Ids(pool))
    ensures Lookup(Incoming(pool, incoming), id) == CombineAll(Lookup(pool, id), Having(incoming, id))
    decreases incoming
  {
    if incoming != [] {
      var n := incoming[0];
      var stored := Combine(Lookup(pool, n.id), n);
      PutEffect(pool, stored);
      IncomingLookup(Put(pool, stored), incoming[1..], id);
      if n.id == id {
        assert Having(incoming, id)[1..] == Having(incoming[1..], id);
      } else {
        PutLeavesOthers(pool, stored, id);
      }
    }
  }

  lemma {:induction false} AddIdsExtends(ids: seq<string>, more: seq<string>)
    requires Distinct(ids)
    ensures ids <= AddIds(ids, more) && Distinct(AddIds(ids, more))
    ensures forall x :: x in AddIds(ids, more) <==> x in ids || x in more
    decreases more
  {
    if more != [] {
      AddIdsExtends(AddId(ids, more[0]), more[1..]);
    }
  }

  lemma {:induction false} TableOfPool(pool: seq<Node>)
    requires Pool(pool)
    ensures Table(pool) == pool
  {
    if pool != [] {
      var k := |pool| - 1;
      var front := pool[..k];
      assert Ids(front) == Ids(pool)[..k];
      TableOfPool(front);
      assert Ids(pool)[k] == pool[k].id;
      LookupFound(front, pool[k].id);
      assert front + [pool[k]] == pool;
    }
  }

  lemma {:induction false} TableIsPool(existing: seq<Node>)
    ensures Pool(Table(existing))
  {
    if existing != [] {
      TableIsPool(existing[..|existing| - 1]);
      var n := existing[|existing| - 1];
      if n.id != "" {
        PutEffect(Table(existing[..|existing| - 1]), n);
      }
    }
  }

  function FirstMeta(there: Option<Node>, ns: seq<Node>): Meta
    requires ns != []
  {
    Clip(if there.Some? then there.value.meta else ns[0].meta)
  }

  /** Each measurement from the earliest entry that has it. */
  function EarliestProofs(ns: seq<Node>): Proofs
    requires ns != []
  {
    if |ns| == 1 then ns[0].proofs else Keep(ns[0].proofs, EarliestProofs(ns[1..]))
  }

  function FirstProofs(there: Option<Node>, ns: seq<Node>): Proofs
    requires ns != []
  {
    if there.Some? then Keep(there.value.proofs, EarliestProofs(ns)) else EarliestProofs(ns)
  }

  lemma LastNTwice<T>(s: seq<T>, n: nat)
    requires n > 0
    ensures LastN(LastN(s, n), n) == LastN(s, n) && (s != [] ==> LastN(s, n) != [])
  {
  }

  lemma KeepAssociates(a: Proofs, b: Proofs, c: Proofs)
    ensures Keep(Keep(a, b), c) == Keep(a, Keep(b, c))
  {
    LastNTwice(a.history, MAX_HISTORY);
    LastNTwice(a.performances, MAX_PERFORMANCE);
  }

  lemma {:induction false} CombineAllSpec(there: Option<Node>, ns: seq<Node>)
    requires ns != []
    ensures CombineAll(there, ns)
         == Some(ns[|ns| - 1].(meta := FirstMeta(there, ns), proofs := FirstProofs(there, ns)))
    decreases ns
  {
    var c := Combine(there, ns[0]);
    if |ns| > 1 {
      CombineAllSpec(Some(c), ns[1..]);
      if there.Some? {
        KeepAssociates(there.value.proofs, ns[0].proofs, EarliestProofs(ns[1..]));
      }
    }
  }

  /** The merge on a duplicate-free pool: ids in order of first occurrence,
      existing ones first; connection fields from the last incoming node of an
      id, user metadata from the existing entry (or the first incoming one),
      each measurement from the earliest entry that has it. */
  lemma MergeSpec(existing: seq<Node>, incoming: seq<Node>, id: string)
    requires Pool(existing)
    ensures Ids(Merge(existing, incoming)) == FirstN(AddIds(Ids(existing), Ids(incoming)), MAX_NODES)
    ensures id in Ids(Merge(existing, incoming)) ==>
              var there, ns := Lookup(existing, id), Having(incoming, id);
              var r := Lookup(Merge(existing, incoming), id);
              if ns == [] then r == there && there.Some?
              else r == Some(ns[|ns| - 1].(meta := FirstMeta(there, ns), proofs := FirstProofs(there, ns)))
  {
    TableOfPool(existing);
    var all := Incoming(existing, incoming);
    IncomingIds(existing, incoming);
    var r := FirstN(all, MAX_NODES);
    assert Ids(r) == FirstN(Ids(all), MAX_NODES);
    if id in Ids(r) {
      CutLookup(all, r, id);
      IncomingLookup(existing, incoming, id);
      LookupFound(r, id);
      if Having(incoming, id) != [] {
        CombineAllSpec(Lookup(existing, id), Having(incoming, id));
      }
    }
  }

  lemma CutLookup(all: seq<Node>, cut: seq<Node>, id: string)
    requires Distinct(Ids(all)) && cut <= all && id in Ids(cut)
    ensures Lookup(cut, id) == Lookup(all, id)
  {
    var i :| 0 <= i < |cut| && Ids(cut)[i] == id;
    assert Ids(cut) == Ids(all)[..|cut|];
    LookupAt(cut, i);
    LookupAt(all, i);
  }

  /** A duplicate-free pool within the cap loses no id, and keeps its order. */
  lemma MergeEvictsNothing(existing: seq<Node>, incoming: seq<Node>)
    requires Pool(existing) && |existing| <= MAX_NODES
    ensures Ids(existing) <= Ids(Merge(existing, incoming))
  {
    MergeSpec(existing, incoming, "");
    AddIdsExtends(Ids(existing), Ids(incoming));
  }

  // ----- merging twice -----

  ghost predicate WithinBounds(n: Node) {
    |n.proofs.history| <= MAX_HISTORY && |n.proofs.performances| <= MAX_PERFORMANCE
  }

  lemma {:induction false} HavingBounds(incoming: seq<Node>, id: string)
    requires forall n | n in incoming :: WithinBounds(n)
    ensures forall n | n in Having(incoming, id) :: WithinBounds(n) && n.id == id && n in incoming
    ensures Having(incoming, id) != [] <==> id in Ids(incoming)
  {
    if incoming != [] {
      HavingBounds(incoming[1..], id);
      assert forall x | x in incoming[1..] :: x in incoming;
      assert Ids(incoming) == [incoming[0].id] + Ids(incoming[1..]);
    }
  }

  /** An entry that already holds what a list of nodes would contribute. */
  predicate Settled(o: Node, n: Node) {
    Combine(Some(o), n).meta == o.meta && Combine(Some(o), n).proofs == o.proofs
  }

  lemma CombineSettles(there: Option<Node>, n: Node)
    requires WithinBounds(n)
    ensures Settled(Combine(there, n), n)
  {
  }

  lemma SettledStays(o: Node, n: Node, x: Node)
    requires Settled(o, n) && WithinBounds(x)
    ensures Settled(Combine(Some(o), x), n)
  {
  }

  lemma {:induction false} AllSettled(there: Option<Node>, ns: seq<Node>, n: Node)
    requires forall x | x in ns :: WithinBounds(x)
    requires n in ns || (there.Some? && Settled(there.value, n))
    ensures CombineAll(there, ns).Some? && Settled(CombineAll(there, ns).value, n)
    decreases ns
  {
    if ns != [] {
      var c := Combine(there, ns[0]);
      if n == ns[0] {
        CombineSettles(there, n);
      } else if there.Some? && Settled(there.value, n) {
        SettledStays(there.value, n, ns[0]);
      }
      AllSettled(Some(c), ns[1..], n);
    }
  }

  lemma {:induction false} SettledSame(o: Node, c: Node, ns: seq<Node>)
    requires ns != [] && c.meta == o.meta && c.proofs == o.proofs
    requires forall n | n in ns :: Settled(o, n)
    requires o == ns[|ns| - 1].(meta := o.meta, proofs := o.proofs)
    ensures CombineAll(Some(c), ns) == Some(o)
    decreases ns
  {
    var d := Combine(Some(c), ns[0]);
    assert ns[0] in ns;
    assert d == ns[0].(meta := Combine(Some(o), ns[0]).meta, proofs := Combine(Some(o), ns[0]).proofs);
    if |ns| > 1 {
      SettledSame(o, d, ns[1..]);
    }
  }

  lemma MergedEntryRepeats(existing: seq<Node>, incoming: seq<Node>, id: string)
    requires Pool(existing) && (forall n | n in incoming :: WithinBounds(n))
    requires id in Ids(Merge(existing, incoming))
    ensures var o := Lookup(Merge(existing, incoming), id);
            CombineAll(o, Having(incoming, id)) == o
  {
    var there, ns := Lookup(existing, id), Having(incoming, id);
    HavingBounds(incoming, id);
    MergeSpec(existing, incoming, id);
    if ns != [] {
      TableOfPool(existing);
      IncomingIds(existing, incoming);
      IncomingLookup(existing, incoming, id);
      CutLookup(Incoming(existing, incoming), Merge(existing, incoming), id);
      var o := Lookup(Merge(existing, incoming), id).value;
      forall n | n in ns ensures Settled(o, n) {
        AllSettled(there, ns, n);
      }
      SettledSame(o, o, ns);
    }
  }

  lemma {:induction false} AddIdsKnown(ids: seq<string>, more: seq<string>)
    requires forall x | x in more :: x in ids
    ensures AddIds(ids, more) == ids
    decreases more
  {
    if more != [] {
      AddIdsKnown(ids, more[1..]);
    }
  }

  /** Importing the same list twice is importing it once, at the cap or not. */
  lemma MergeTwiceIsOnce(existing: seq<Node>, incoming: seq<Node>)
    requires Pool(existing) && (forall n | n in incoming :: WithinBounds(n) && n.id != "")
    ensures var once := Merge(existing, incoming); Merge(once, incoming) == once
  {
    var once := Merge(existing, incoming);
    MergeSpec(existing, incoming, "");
    AddIdsExtends(Ids(existing), Ids(incoming));
    var all := AddIds(Ids(existing), Ids(incoming));
    assert "" !in all;
    assert Pool(once);
    var twice := Merge(once, incoming);
    MergeSpec(once, incoming, "");
    AddIdsExtends(Ids(once), Ids(incoming));
    if |all| <= MAX_NODES {
      AddIdsKnown(Ids(once), Ids(incoming));
    }
    assert Ids(twice) == Ids(once);
    forall id | id in Ids(twice) ensures Lookup(twice, id) == Lookup(once, id) {
      MergedEntryRepeats(existing, incoming, id);
      TableOfPool(once);
      IncomingIds(once, incoming);
      IncomingLookup(once, incoming, id);
      CutLookup(Incoming(once, incoming), twice, id);
    }
    PoolsEqual(twice, once);
  }
}
