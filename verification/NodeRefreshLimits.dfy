/** Inputs on which a public refresh loses what the user wrote: outside the
    conditions under which it provably does not. */
module NodeRefreshLimits {
  import opened Prelude
  import opened NodePool
  import opened NodeRefresh

  // ----- two stored nodes behind one new id -----

  /** Two stored nodes, and their two raw texts coming in under one new id. */
  predicate Collapse(kept: seq<Node>, incoming: seq<Node>, a: Node, b: Node, m: Node, n: Node) {
    && kept == [a, b] && incoming == [m, n]
    && a.id != "" && b.id != "" && a.id != b.id && a.raw != "" && b.raw != "" && a.raw != b.raw
    && m.id == n.id && m.id != "" && m.id != a.id && m.id != b.id && m.raw == a.raw && n.raw == b.raw
  }

  lemma PairFacts(a: Node, b: Node)
    ensures Ids([a, b]) == [a.id, b.id] && [a, b][..1] == [a] && [a][..0] == []
    ensures forall x :: x in [a, b] <==> x == a || x == b
  {
  }

  lemma CollapseMoves(kept: seq<Node>, incoming: seq<Node>, a: Node, b: Node, m: Node, n: Node)
    requires Collapse(kept, incoming, a, b, m, n)
    ensures Pool(kept) && Moves(kept, m) && Moves(kept, n)
    ensures ByRaw(kept, m.raw) == Some(a) && ByRaw(kept, n.raw) == Some(b)
  {
    PairFacts(a, b);
    LookupFound(kept, m.id);
    assert ByRaw([a], a.raw) == Some(a);
  }

  lemma CollapseLegacy(kept: seq<Node>, incoming: seq<Node>, a: Node, b: Node, m: Node, n: Node)
    requires Collapse(kept, incoming, a, b, m, n)
    ensures LegacyOf(kept, incoming, n.id) == Some(b)
  {
    CollapseMoves(kept, incoming, a, b, m, n);
  }

  lemma CollapseIsTraceable(kept: seq<Node>, incoming: seq<Node>, a: Node, b: Node, m: Node, n: Node)
    requires Collapse(kept, incoming, a, b, m, n)
    ensures Traceable(kept, incoming) && !Apart(kept, incoming)
  {
    CollapseMoves(kept, incoming, a, b, m, n);
    PairFacts(m, n);
    assert m in incoming && n in incoming;
  }

  lemma CollapsePreservesNone(kept: seq<Node>, incoming: seq<Node>, refreshed: set<string>, a: Node, b: Node, m: Node, n: Node)
    requires Collapse(kept, incoming, a, b, m, n)
    ensures Ids(Preserved(kept, incoming, refreshed)) == []
  {
    CollapseMoves(kept, incoming, a, b, m, n);
    PairFacts(a, b);
    PairFacts(m, n);
    assert Migrated(kept, incoming, a.id) && Migrated(kept, incoming, b.id);
    FilterNone(kept, x => Preserves(kept, incoming, refreshed, x));
  }

  lemma {:induction false} FilterNone(pool: seq<Node>, keep: Node -> bool)
    requires forall n | n in pool :: !keep(n)
    ensures Filter(pool, keep) == []
  {
    if pool != [] {
      FilterNone(pool[1..], keep);
    }
  }

  lemma CollapseIds(kept: seq<Node>, incoming: seq<Node>, refreshed: set<string>, a: Node, b: Node, m: Node, n: Node)
    requires Collapse(kept, incoming, a, b, m, n)
    ensures forall x | x in Ids(RefreshWindows(kept, incoming, refreshed)) :: x == n.id
  {
    CollapseMoves(kept, incoming, a, b, m, n);
    CollapsePreservesNone(kept, incoming, refreshed, a, b, m, n);
    RefreshIds(kept, incoming, refreshed);
    PairFacts(m, n);
    OnlyIncomingIds(kept, incoming, refreshed);
  }

  lemma OnlyIncomingIds(kept: seq<Node>, incoming: seq<Node>, refreshed: set<string>)
    requires Pool(kept)
    ensures forall x | x in Ids(RefreshWindows(kept, incoming, refreshed)) ::
              x in Ids(Preserved(kept, incoming, refreshed)) || x in Ids(incoming)
  {
    RefreshIds(kept, incoming, refreshed);
    TabledIds(kept, incoming);
    AddIdsExtends(Ids(Table(Matching(kept, incoming))), Ids(incoming));
  }

  lemma OnlyEntry(pool: seq<Node>, id: string, n: Node)
    requires Pool(pool) && n in pool && forall x | x in Ids(pool) :: x == id
    ensures Lookup(pool, id) == Some(n)
  {
    StoredIdKnown(pool, n);
    LookupFound(pool, n.id);
  }

  /** The refreshed pool then has one node, with the metadata of the second: if
      the first was the favourite, none is left, although nothing was cut. */
  lemma CollapsedMetaIsLost(kept: seq<Node>, incoming: seq<Node>, refreshed: set<string>, a: Node, b: Node, m: Node, n: Node)
    requires Collapse(kept, incoming, a, b, m, n)
    ensures Pool(kept) && Traceable(kept, incoming) && !Apart(kept, incoming)
    ensures forall x | x in RefreshWindows(kept, incoming, refreshed) :: x.id == n.id && x.meta == Clip(b.meta)
  {
    var r := RefreshWindows(kept, incoming, refreshed);
    CollapseMoves(kept, incoming, a, b, m, n);
    CollapseLegacy(kept, incoming, a, b, m, n);
    CollapseIsTraceable(kept, incoming, a, b, m, n);
    CollapseIds(kept, incoming, refreshed, a, b, m, n);
    PairFacts(m, n);
    RefreshIsPool(kept, incoming, refreshed);
    MigratedNodeKeepsMeta(kept, incoming, refreshed, n.id);
    LookupFound(r, n.id);
    forall x | x in r ensures x.id == n.id && x.meta == Clip(b.meta) {
      OnlyEntry(r, n.id, x);
    }
  }

  function Stored(id: string, raw: string, meta: Meta): Node {
    Node(id, id, "", "", raw, "", meta, NO_PROOFS)
  }

  /** One such input: a favourite, a plain node, and two nodes as parsed. */
  lemma CollapsedFavouriteIsLost(refreshed: set<string>)
    returns (kept: seq<Node>, incoming: seq<Node>)
    ensures Pool(kept) && kept != [] && kept[0].meta.favorite && (forall n | n in incoming :: FreshNode(n))
    ensures Traceable(kept, incoming)
    ensures forall n | n in RefreshWindows(kept, incoming, refreshed) :: !n.meta.favorite
  {
    var a, b := Stored("a", "r1", BLANK.(favorite := true)), Stored("b", "r2", BLANK);
    var m, n := Stored("n", "r1", BLANK), Stored("n", "r2", BLANK);
    kept, incoming := [a, b], [m, n];
    CollapsedMetaIsLost(kept, incoming, refreshed, a, b, m, n);
  }

  // ----- without traceability a favourite can be cut -----

  function Numbered(i: nat): Node {
    var name := seq(i + 1, _ => 'n');
    Node(name, name, "", "", name, "", Meta(true, false, 0, [], ""), NO_PROOFS)
  }

  /** A full pool of favourites. */
  function FullPool(): (r: seq<Node>)
    ensures |r| == MAX_NODES && forall i | 0 <= i < |r| :: r[i] == Numbered(i)
  {
    seq(MAX_NODES, i requires 0 <= i < MAX_NODES => Numbered(i))
  }

  /** The first favourite's link under a new id, and that favourite itself. */
  function Two(): seq<Node> {
    [Numbered(0).(id := "new", meta := BLANK), Numbered(0).(raw := "other", meta := BLANK)]
  }

  lemma FullPoolIsPool()
    ensures Pool(FullPool())
  {
    var ids := Ids(FullPool());
    forall i | 0 <= i < |ids| ensures |ids[i]| == i + 1 {
    }
  }

  lemma {:induction false} FilterAll(pool: seq<Node>, keep: Node -> bool)
    requires forall i | 0 <= i < |pool| :: keep(pool[i])
    ensures Filter(pool, keep) == pool
  {
    if pool != [] {
      FilterAll(pool[1..], keep);
      assert [pool[0]] + pool[1..] == pool;
    }
  }

  lemma LookupNone(pool: seq<Node>, id: string)
    requires forall i | 0 <= i < |pool| :: pool[i].id != id
    ensures Lookup(pool, id).None?
  {
  }

  lemma {:induction false} ByRawFirst(pool: seq<Node>, raw: string)
    requires raw != "" && pool != [] && pool[0].raw == raw && forall i | 0 < i < |pool| :: pool[i].raw != raw
    ensures ByRaw(pool, raw) == Some(pool[0])
  {
    if |pool| > 1 {
      ByRawFirst(pool[..|pool| - 1], raw);
    }
  }

  lemma FullPoolMatches()
    ensures Matching(FullPool(), Two()) == [Stub("new", Numbered(0)), Numbered(0)]
    ensures Moves(FullPool(), Two()[0]) && ByRaw(FullPool(), Two()[0].raw) == Some(Numbered(0))
    ensures Lookup(FullPool(), Two()[1].id) == Some(Numbered(0))
  {
    var kept := FullPool();
    FullPoolIsPool();
    forall i | 0 <= i < |kept| ensures kept[i].id != "new" && |kept[i].raw| == i + 1 {
      assert kept[i].id[0] == 'n' && (|kept[i].id| > 1 ==> kept[i].id[1] == 'n');
    }
    LookupNone(kept, "new");
    ByRawFirst(kept, Numbered(0).raw);
    LookupAt(kept, 0);
    assert Two()[1..] == [Two()[1]] && Two()[1..][1..] == [];
    assert Matching(kept, Two()[1..]) == [Numbered(0)];
  }

  /** Every other favourite is preserved, so the cap cuts the one that came in
      again under its own id: its metadata lives on under the new id only. */
  lemma ReturnedFavouriteCanBeCut(refreshed: set<string>)
    ensures Pool(FullPool()) && Numbered(0) in FullPool() && UserKept(Numbered(0)) && Numbered(0).id in Ids(Two())
    ensures Numbered(0).id !in Ids(RefreshWindows(FullPool(), Two(), refreshed))
    ensures forall n | n in Two() :: FreshNode(n)
  {
    var kept, incoming := FullPool(), Two();
    FullPoolIsPool();
    FullPoolPreserves(refreshed);
    FullPoolTable();
    TwoIsIncoming();
    MatchedIdStaysExactly(kept, incoming, refreshed, 1);
    assert kept[0] in kept;
  }

  lemma FullPoolTable()
    ensures Ids(Table(Matching(FullPool(), Two()))) == ["new", Numbered(0).id]
  {
    FullPoolMatches();
    TableOfTwo(Stub("new", Numbered(0)), Numbered(0));
  }

  lemma TwoIsIncoming()
    ensures Numbered(0).id in Ids(Two()) && forall n | n in Two() :: FreshNode(n)
  {
    assert Ids(Two())[1] == Numbered(0).id;
  }

  lemma TableOfTwo(a: Node, b: Node)
    requires a.id != "" && b.id != "" && a.id != b.id
    ensures Table([a, b]) == [a, b]
  {
    assert Ids([a, b]) == [a.id, b.id];
    TableOfPool([a, b]);
  }

  lemma OtherIsPreserved(refreshed: set<string>, i: nat)
    requires 0 < i
    ensures Preserves(FullPool(), Two(), refreshed, Numbered(i))
  {
    assert Ids(Two()) == ["new", Numbered(0).id];
    assert |Numbered(i).id| == i + 1 && Numbered(i).id[1] == 'n';
    NotMigrated(Numbered(i));
  }

  lemma FirstIsNotPreserved(refreshed: set<string>)
    ensures !Preserves(FullPool(), Two(), refreshed, Numbered(0))
  {
    assert Ids(Two())[1] == Numbered(0).id;
  }

  lemma FullPoolPreserves(refreshed: set<string>)
    ensures |Preserved(FullPool(), Two(), refreshed)| == MAX_NODES - 1
  {
    var kept, incoming := FullPool(), Two();
    var keep := n => Preserves(kept, incoming, refreshed, n);
    forall i | 0 <= i < |kept| - 1 ensures keep(kept[1..][i]) {
      assert kept[1..][i] == Numbered(i + 1);
      OtherIsPreserved(refreshed, i + 1);
    }
    FilterAll(kept[1..], keep);
    FirstIsNotPreserved(refreshed);
  }

  lemma NotMigrated(n: Node)
    requires n.id != Numbered(0).id
    ensures !Migrated(FullPool(), Two(), n.id)
  {
    FullPoolMatches();
  }
}
