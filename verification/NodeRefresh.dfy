/** Replacing the public part of the node pool without losing the user's. */
module NodeRefresh {
  import opened Prelude
  import opened NodePool

  function Filter(pool: seq<Node>, keep: Node -> bool): seq<Node> {
    if pool == [] then []
    else if keep(pool[0]) then [pool[0]] + Filter(pool[1..], keep)
    else Filter(pool[1..], keep)
  }

  /** Metadata that asks for its node to be kept. */
  predicate Keeps(meta: Meta) {
    meta.favorite || meta.pinned
  }

  predicate UserKept(n: Node) {
    Keeps(n.meta)
  }

  /** The last stored node with this raw text, if the text is not empty. */
  function ByRaw(pool: seq<Node>, raw: string): Option<Node> {
    if raw == "" || pool == [] then None
    else
      var n := pool[|pool| - 1];
      if n.raw == raw then Some(n) else ByRaw(pool[..|pool| - 1], raw)
  }

  const NO_PROOFS := Proofs(None, None, [], None, [])

  /** No user metadata. */
  const BLANK := Meta(false, false, 0, [], "")

  /** A node as the parsers hand it over. */
  predicate FreshNode(n: Node) {
    n.id != "" && n.proofs == NO_PROOFS && n.meta == BLANK
  }

  /** Only what the user wrote moves to a node whose id changed. */
  function Stub(id: string, legacy: Node): Node {
    Node(id, "", "", "", "", "", Clip(legacy.meta), NO_PROOFS)
  }

  function MatchOf(kept: seq<Node>, n: Node): Option<Node> {
    match Lookup(kept, n.id)
    case Some(o) => Some(o)
    case None =>
      var legacy := ByRaw(kept, n.raw);
      if legacy.Some? then Some(Stub(n.id, legacy.value)) else None
  }

  function Matching(kept: seq<Node>, incoming: seq<Node>): seq<Node> {
    if incoming == [] then []
    else
      var rest := Matching(kept, incoming[1..]);
      var m := MatchOf(kept, incoming[0]);
      if m.Some? then [m.value] + rest else rest
  }

  predicate Migrated(kept: seq<Node>, incoming: seq<Node>, id: string) {
    exists n | n in incoming :: Lookup(kept, n.id).None? && ByRaw(kept, n.raw).Some? && ByRaw(kept, n.raw).value.id == id
  }

  predicate Preserves(kept: seq<Node>, incoming: seq<Node>, refreshed: set<string>, n: Node) {
    n.id !in Ids(incoming) && !Migrated(kept, incoming, n.id) && (n.source !in refreshed || UserKept(n))
  }

  function Preserved(kept: seq<Node>, incoming: seq<Node>, refreshed: set<string>): seq<Node> {
    Filter(kept, n => Preserves(kept, incoming, refreshed, n))
  }

  /** The pool after a public refresh in which the `refreshed` sources answered. */
  function RefreshWindows(kept: seq<Node>, incoming: seq<Node>, refreshed: set<string>): seq<Node> {
    Merge(Preserved(kept, incoming, refreshed), Merge(Matching(kept, incoming), incoming))
  }

  function RefreshLinux(kept: seq<Node>, incoming: seq<Node>, publicSources: set<string>): seq<Node> {
    Merge(Filter(kept, (n: Node) => n.source !in publicSources || UserKept(n)), incoming)
  }

  function MatchingById(kept: seq<Node>, incoming: seq<Node>): seq<Node> {
    if incoming == [] then []
    else
      var o := Lookup(kept, incoming[0].id);
      (if o.Some? then [o.value] else []) + MatchingById(kept, incoming[1..])
  }

  /** A verified country shard goes first; the rest of the pool follows. */
  function RefreshCountry(kept: seq<Node>, incoming: seq<Node>): seq<Node> {
    var shard := Merge(MatchingById(kept, incoming), incoming);
    FirstN(shard + Filter(kept, (n: Node) => n.id !in Ids(shard)), MAX_NODES)
  }

  function KeepSelection(selected: string, pool: seq<Node>): string {
    if selected in Ids(pool) then selected else if pool == [] then "" else pool[0].id
  }

  // ----- filters and tables -----

  lemma {:induction false} FilterElements(pool: seq<Node>, keep: Node -> bool)
    ensures var r := Filter(pool, keep);
            |r| <= |pool| && forall n :: n in r <==> n in pool && keep(n)
  {
    if pool != [] {
      FilterElements(pool[1..], keep);
      assert pool == [pool[0]] + pool[1..];
    }
  }

  lemma PoolTail(pool: seq<Node>)
    requires Pool(pool) && pool != []
    ensures Pool(pool[1..]) && pool[0].id != "" && forall n | n in pool[1..] :: n.id != pool[0].id
  {
    assert Ids(pool[1..]) == Ids(pool)[1..];
    assert Ids(pool)[0] == pool[0].id;
    forall n | n in pool[1..] ensures n.id != pool[0].id {
      var i :| 0 <= i < |pool| - 1 && pool[1..][i] == n;
      assert Ids(pool)[i + 1] == n.id;
    }
  }

  lemma PoolPush(node: Node, rest: seq<Node>)
    requires Pool(rest) && node.id != "" && forall n | n in rest :: n.id != node.id
    ensures Pool([node] + rest)
  {
    assert forall i | 0 <= i < |rest| :: rest[i] in rest;
    assert Ids([node] + rest) == [node.id] + Ids(rest);
  }

  lemma {:induction false} FilterIsPool(pool: seq<Node>, keep: Node -> bool)
    requires Pool(pool)
    ensures Pool(Filter(pool, keep))
  {
    if pool != [] {
      PoolTail(pool);
      FilterIsPool(pool[1..], keep);
      FilterElements(pool[1..], keep);
      if keep(pool[0]) {
        PoolPush(pool[0], Filter(pool[1..], keep));
      }
    }
  }

  lemma FilterFacts(pool: seq<Node>, keep: Node -> bool)
    requires Pool(pool)
    ensures var r := Filter(pool, keep);
            Pool(r) && |r| <= |pool| && forall n :: n in r <==> n in pool && keep(n)
  {
    FilterElements(pool, keep);
    FilterIsPool(pool, keep);
  }

  lemma {:induction false} TableElements(existing: seq<Node>)
    ensures forall n | n in Table(existing) :: n in existing
    ensures forall n | n in existing && n.id != "" :: n.id in Ids(Table(existing))
  {
    if existing != [] {
      var k := |existing| - 1;
      var front, last := existing[..k], existing[k];
      TableElements(front);
      TableIsPool(front);
      assert existing == front + [last];
      if last.id != "" {
        PutEffect(Table(front), last);
        assert forall n | n in Put(Table(front), last) :: n == last || n in Table(front);
      }
    }
  }

  lemma {:induction false} TableLength(existing: seq<Node>)
    ensures |Table(existing)| <= |existing|
  {
    if existing != [] {
      TableLength(existing[..|existing| - 1]);
    }
  }

  lemma MergeThroughTable(existing: seq<Node>, incoming: seq<Node>)
    ensures Merge(existing, incoming) == Merge(Table(existing), incoming) && Pool(Table(existing))
  {
    TableIsPool(existing);
    TableOfPool(Table(existing));
  }

  lemma {:induction false} HavingOfPool(pool: seq<Node>, id: string)
    requires Distinct(Ids(pool))
    ensures Having(pool, id) == match Lookup(pool, id) { case None => [] case Some(n) => [n] }
  {
    if pool != [] {
      assert Ids(pool[1..]) == Ids(pool)[1..];
      HavingOfPool(pool[1..], id);
      if pool[0].id == id {
        LookupFound(pool[1..], id);
      }
    }
  }

  lemma {:induction false} AddIdsDisjoint(a: seq<string>, b: seq<string>)
    requires Distinct(a + b)
    ensures AddIds(a, b) == a + b
    decreases b
  {
    if b == [] {
      assert a + b == a;
    } else {
      assert (a + b)[|a|] == b[0];
      assert forall i | 0 <= i < |a| :: (a + b)[i] == a[i];
      assert b[0] !in a;
      ConcatAssociates(a, [b[0]], b[1..]);
      assert [b[0]] + b[1..] == b;
      AddIdsDisjoint(a + [b[0]], b[1..]);
    }
  }

  // ----- counting -----

  lemma {:induction false} DistinctSize(s: seq<string>)
    requires Distinct(s)
    ensures |set x | x in s| == |s|
  {
    if s != [] {
      DistinctSize(s[1..]);
      assert (set x | x in s) == {s[0]} + (set x | x in s[1..]);
    }
  }

  lemma SizesAdd(a: seq<string>, b: seq<string>, c: seq<string>)
    requires Distinct(a) && Distinct(b) && Distinct(c)
    requires forall x | x in a :: x in c && x !in b
    requires forall x | x in b :: x in c
    ensures |a| + |b| <= |c|
  {
    var sa, sb, sc := set x | x in a, set x | x in b, set x | x in c;
    DistinctSize(a);
    DistinctSize(b);
    DistinctSize(c);
    assert sa !! sb;
    assert |sa + sb| == |sa| + |sb|;
    SubsetSize(sa + sb, sc);
  }

  // ----- what an incoming id stands for -----

  /** This node brings the raw text of a stored node under a new id. */
  predicate Moves(kept: seq<Node>, n: Node) {
    Lookup(kept, n.id).None? && ByRaw(kept, n.raw).Some?
  }

  /** The match of the last incoming node of this id that has one. */
  function EntryOf(kept: seq<Node>, incoming: seq<Node>, id: string): Option<Node> {
    if incoming == [] then None
    else
      var n := incoming[|incoming| - 1];
      if n.id == id && MatchOf(kept, n).Some? then MatchOf(kept, n) else EntryOf(kept, incoming[..|incoming| - 1], id)
  }

  /** The stored node whose raw text the last such incoming node of this id has. */
  function LegacyOf(kept: seq<Node>, incoming: seq<Node>, id: string): Option<Node> {
    if incoming == [] then None
    else
      var n := incoming[|incoming| - 1];
      if n.id == id && ByRaw(kept, n.raw).Some? then ByRaw(kept, n.raw)
      else LegacyOf(kept, incoming[..|incoming| - 1], id)
  }

  lemma {:induction false} ByRawFound(pool: seq<Node>, raw: string)
    ensures ByRaw(pool, raw).Some? ==> ByRaw(pool, raw).value in pool && ByRaw(pool, raw).value.raw == raw
  {
    if raw != "" && pool != [] && pool[|pool| - 1].raw != raw {
      ByRawFound(pool[..|pool| - 1], raw);
    }
  }

  lemma {:induction false} LegacyWitness(kept: seq<Node>, incoming: seq<Node>, id: string) returns (n: Node)
    requires LegacyOf(kept, incoming, id).Some?
    ensures n in incoming && n.id == id && ByRaw(kept, n.raw) == LegacyOf(kept, incoming, id)
  {
    n := incoming[|incoming| - 1];
    if n.id != id || ByRaw(kept, n.raw).None? {
      n := LegacyWitness(kept, incoming[..|incoming| - 1], id);
    }
  }

  /** A stored id that came in stands for the stored node; a new id for the
      user's part of the stored node whose raw text it has. */
  lemma {:induction false} EntryIs(kept: seq<Node>, incoming: seq<Node>, id: string)
    ensures Lookup(kept, id).Some? ==> EntryOf(kept, incoming, id) == if id in Ids(incoming) then Lookup(kept, id) else None
    ensures Lookup(kept, id).None? ==>
              EntryOf(kept, incoming, id)
              == match LegacyOf(kept, incoming, id) { case None => None case Some(legacy) => Some(Stub(id, legacy)) }
  {
    if incoming != [] {
      var k := |incoming| - 1;
      EntryIs(kept, incoming[..k], id);
      assert Ids(incoming) == Ids(incoming[..k]) + [incoming[k].id];
    }
  }

  lemma {:induction false} MatchingAppends(kept: seq<Node>, a: seq<Node>, n: Node)
    ensures Matching(kept, a + [n]) == Matching(kept, a) + if MatchOf(kept, n).Some? then [MatchOf(kept, n).value] else []
  {
    if a == [] {
      assert [] + [n] == [n] && [n][1..] == [];
    } else {
      MatchingAppends(kept, a[1..], n);
      assert (a + [n])[1..] == a[1..] + [n];
    }
  }

  lemma PutLooksUp(pool: seq<Node>, n: Node, id: string)
    requires Distinct(Ids(pool))
    ensures Lookup(Put(pool, n), id) == if n.id == id then Some(n) else Lookup(pool, id)
  {
    PutEffect(pool, n);
    if n.id != id {
      PutLeavesOthers(pool, n, id);
    }
  }

  lemma TableAppends(rest: seq<Node>, m: Node, id: string)
    requires id != ""
    ensures Lookup(Table(rest + [m]), id) == if m.id == id then Some(m) else Lookup(Table(rest), id)
  {
    assert (rest + [m])[..|rest|] == rest;
    TableIsPool(rest);
    PutLooksUp(Table(rest), m, id);
  }

  /** The table the merge starts from holds just these entries. */
  lemma {:induction false} TableOfMatching(kept: seq<Node>, incoming: seq<Node>, id: string)
    requires id != ""
    ensures Lookup(Table(Matching(kept, incoming)), id) == EntryOf(kept, incoming, id)
  {
    if incoming != [] {
      var k := |incoming| - 1;
      var n, front := incoming[k], incoming[..k];
      TableOfMatching(kept, front, id);
      MatchingAppends(kept, front, n);
      assert front + [n] == incoming;
      var rest := Matching(kept, front);
      if MatchOf(kept, n).Some? {
        LookupFound(kept, n.id);
        TableAppends(rest, MatchOf(kept, n).value, id);
      } else {
        assert rest + [] == rest;
      }
    }
  }

  // ----- the ids of the refreshed pool -----

  lemma PreservedIds(kept: seq<Node>, incoming: seq<Node>, refreshed: set<string>)
    requires Pool(kept)
    ensures var p := Preserved(kept, incoming, refreshed);
            Pool(p) && |p| <= |kept| && forall x | x in Ids(p) :: x in Ids(kept) && x !in Ids(incoming)
  {
    var p := Preserved(kept, incoming, refreshed);
    FilterFacts(kept, n => Preserves(kept, incoming, refreshed, n));
    forall x | x in Ids(p) ensures x in Ids(kept) && x !in Ids(incoming) {
      var i :| 0 <= i < |p| && Ids(p)[i] == x;
      assert p[i] in p;
      var j :| 0 <= j < |kept| && kept[j] == p[i];
      assert Ids(kept)[j] == x;
    }
  }

  lemma {:induction false} MatchingIds(kept: seq<Node>, incoming: seq<Node>)
    ensures forall n | n in Matching(kept, incoming) :: n.id in Ids(incoming)
  {
    if incoming != [] {
      MatchingIds(kept, incoming[1..]);
      LookupFound(kept, incoming[0].id);
      assert Ids(incoming) == [incoming[0].id] + Ids(incoming[1..]);
    }
  }

  /** Everything the refreshed pool would hold without the cap. */
  function AllIds(kept: seq<Node>, incoming: seq<Node>, refreshed: set<string>): seq<string> {
    Ids(Preserved(kept, incoming, refreshed)) + AddIds(Ids(Table(Matching(kept, incoming))), Ids(incoming))
  }

  lemma TabledIds(kept: seq<Node>, incoming: seq<Node>)
    ensures Pool(Table(Matching(kept, incoming)))
    ensures forall x | x in Ids(Table(Matching(kept, incoming))) :: x in Ids(incoming)
  {
    var t := Table(Matching(kept, incoming));
    TableIsPool(Matching(kept, incoming));
    TableElements(Matching(kept, incoming));
    MatchingIds(kept, incoming);
    forall x | x in Ids(t) ensures x in Ids(incoming) {
      var i :| 0 <= i < |t| && Ids(t)[i] == x;
      assert t[i] in t;
    }
  }

  lemma AllIdsDistinct(kept: seq<Node>, incoming: seq<Node>, refreshed: set<string>)
    requires Pool(kept)
    ensures Pool(Preserved(kept, incoming, refreshed)) && Distinct(AllIds(kept, incoming, refreshed))
    ensures forall x | x in Ids(Preserved(kept, incoming, refreshed)) :: x !in Ids(incoming)
    ensures Ids(Table(Matching(kept, incoming))) <= AddIds(Ids(Table(Matching(kept, incoming))), Ids(incoming))
  {
    var a, t := Ids(Preserved(kept, incoming, refreshed)), Table(Matching(kept, incoming));
    var b := AddIds(Ids(t), Ids(incoming));
    PreservedIds(kept, incoming, refreshed);
    TabledIds(kept, incoming);
    AddIdsExtends(Ids(t), Ids(incoming));
    forall i, j | 0 <= i < |a| && 0 <= j < |b| ensures a[i] != b[j] {
      assert a[i] in a && b[j] in b;
    }
  }

  lemma CutOfCut(a: seq<string>, b: seq<string>, n: nat)
    ensures FirstN(a + FirstN(b, n), n) == FirstN(a + b, n)
  {
  }

  lemma CutIsDistinct(a: seq<string>, b: seq<string>, n: nat)
    requires Distinct(a + b)
    ensures Distinct(a + FirstN(b, n))
  {
    var all, cut := a + b, a + FirstN(b, n);
    forall i | 0 <= i < |cut| ensures cut[i] == all[i] {
    }
  }

  /** The refreshed pool is a merge of two apart pools, and its ids are the
      preserved ones, then the matched ones, then the rest, cut at the cap. */
  lemma RefreshIds(kept: seq<Node>, incoming: seq<Node>, refreshed: set<string>)
    requires Pool(kept)
    ensures
      var p, f := Preserved(kept, incoming, refreshed), Merge(Table(Matching(kept, incoming)), incoming);
      && Pool(p) && Distinct(Ids(p) + Ids(f)) && RefreshWindows(kept, incoming, refreshed) == Merge(p, f)
    ensures Ids(RefreshWindows(kept, incoming, refreshed)) == FirstN(AllIds(kept, incoming, refreshed), MAX_NODES)
  {
    var p, t := Preserved(kept, incoming, refreshed), Table(Matching(kept, incoming));
    var f := Merge(t, incoming);
    var b := AddIds(Ids(t), Ids(incoming));
    AllIdsDistinct(kept, incoming, refreshed);
    MergeThroughTable(Matching(kept, incoming), incoming);
    MergeSpec(t, incoming, "");
    CutIsDistinct(Ids(p), b, MAX_NODES);
    AddIdsDisjoint(Ids(p), Ids(f));
    MergeSpec(p, f, "");
    CutOfCut(Ids(p), b, MAX_NODES);
  }

  /** An element of the second part, by its place in the front of that part. */
  lemma PlaceStays(a: seq<string>, front: seq<string>, b: seq<string>, n: nat, j: nat)
    requires Distinct(a + b) && front <= b && j < |front|
    ensures front[j] in FirstN(a + b, n) <==> |a| + j < n
  {
    var all, k := a + b, |a| + j;
    assert all[k] == front[j];
    if k < n {
      assert FirstN(all, n)[k] == all[k];
    }
  }

  /** When a matched id survives the cap, for every input: exactly when the
      preserved ids and the matched ones before it leave room. */
  lemma MatchedIdStaysExactly(kept: seq<Node>, incoming: seq<Node>, refreshed: set<string>, j: nat)
    requires Pool(kept) && j < |Table(Matching(kept, incoming))|
    ensures Ids(Table(Matching(kept, incoming)))[j] in Ids(RefreshWindows(kept, incoming, refreshed))
       <==> |Preserved(kept, incoming, refreshed)| + j < MAX_NODES
  {
    var t := Ids(Table(Matching(kept, incoming)));
    RefreshIds(kept, incoming, refreshed);
    AllIdsDistinct(kept, incoming, refreshed);
    PlaceStays(Ids(Preserved(kept, incoming, refreshed)), t, AddIds(t, Ids(incoming)), MAX_NODES, j);
  }

  // ----- preserved and matched nodes fit -----

  /** Every stored node stands behind at most one incoming id: new ids with one
      stored raw text are one id, and a node whose raw text moved does not come
      in under its old id as well. */
  predicate Traceable(kept: seq<Node>, incoming: seq<Node>) {
    && (forall m, n | m in incoming && n in incoming && Moves(kept, m) && Moves(kept, n) && m.raw == n.raw :: m.id == n.id)
    && (forall n | n in incoming && Moves(kept, n) :: ByRaw(kept, n.raw).value.id !in Ids(incoming))
  }

  /** The stored id behind a matched id. */
  function OldId(kept: seq<Node>, incoming: seq<Node>, id: string): string {
    if Lookup(kept, id).None? && LegacyOf(kept, incoming, id).Some? then LegacyOf(kept, incoming, id).value.id else id
  }

  lemma MatchedIdHasEntry(kept: seq<Node>, incoming: seq<Node>, id: string)
    requires id in Ids(Table(Matching(kept, incoming)))
    ensures id != "" && id in Ids(incoming) && EntryOf(kept, incoming, id).Some?
    ensures Lookup(kept, id).Some? || LegacyOf(kept, incoming, id).Some?
  {
    TabledIds(kept, incoming);
    LookupFound(Table(Matching(kept, incoming)), id);
    TableOfMatching(kept, incoming, id);
    EntryIs(kept, incoming, id);
  }

  lemma OldIdIsStored(kept: seq<Node>, incoming: seq<Node>, refreshed: set<string>, id: string)
    requires Pool(kept) && id in Ids(Table(Matching(kept, incoming)))
    ensures OldId(kept, incoming, id) in Ids(kept)
    ensures OldId(kept, incoming, id) !in Ids(Preserved(kept, incoming, refreshed))
  {
    MatchedIdHasEntry(kept, incoming, id);
    PreservedIds(kept, incoming, refreshed);
    if Lookup(kept, id).Some? {
      LookupFound(kept, id);
    } else {
      var n := LegacyWitness(kept, incoming, id);
      ByRawFound(kept, n.raw);
      var legacy := LegacyOf(kept, incoming, id).value;
      var i :| 0 <= i < |kept| && kept[i] == legacy;
      assert Ids(kept)[i] == legacy.id;
      assert Migrated(kept, incoming, legacy.id);
      MigratedIsNotPreserved(kept, incoming, refreshed, legacy.id);
    }
  }

  lemma MigratedIsNotPreserved(kept: seq<Node>, incoming: seq<Node>, refreshed: set<string>, id: string)
    requires Pool(kept) && Migrated(kept, incoming, id)
    ensures id !in Ids(Preserved(kept, incoming, refreshed))
  {
    var p := Preserved(kept, incoming, refreshed);
    FilterElements(kept, n => Preserves(kept, incoming, refreshed, n));
    forall i | 0 <= i < |p| ensures Ids(p)[i] != id {
      assert p[i] in p;
    }
  }

  lemma StoredIdKnown(kept: seq<Node>, o: Node)
    requires Pool(kept) && o in kept
    ensures Lookup(kept, o.id) == Some(o) && o.id != ""
  {
    var i :| 0 <= i < |kept| && kept[i] == o;
    LookupAt(kept, i);
    assert Ids(kept)[i] == o.id;
  }

  lemma MovedApart(kept: seq<Node>, incoming: seq<Node>, m: Node, n: Node)
    requires Pool(kept) && Traceable(kept, incoming) && m.id != n.id
    requires m in incoming && n in incoming && Moves(kept, m) && Moves(kept, n)
    ensures ByRaw(kept, m.raw).value.id != ByRaw(kept, n.raw).value.id
  {
    ByRawFound(kept, m.raw);
    ByRawFound(kept, n.raw);
    StoredIdKnown(kept, ByRaw(kept, m.raw).value);
    StoredIdKnown(kept, ByRaw(kept, n.raw).value);
  }

  lemma MovedIsNotReturned(kept: seq<Node>, incoming: seq<Node>, n: Node, id: string)
    requires Traceable(kept, incoming) && n in incoming && Moves(kept, n) && id in Ids(incoming)
    ensures ByRaw(kept, n.raw).value.id != id
  {
  }

  /** The incoming node that moved this matched id, or none when it is stored. */
  lemma Mover(kept: seq<Node>, incoming: seq<Node>, id: string) returns (n: Option<Node>)
    requires id in Ids(Table(Matching(kept, incoming)))
    ensures id in Ids(incoming)
    ensures n.None? ==> OldId(kept, incoming, id) == id
    ensures n.Some? ==> n.value in incoming && n.value.id == id && Moves(kept, n.value)
                        && OldId(kept, incoming, id) == ByRaw(kept, n.value.raw).value.id
  {
    MatchedIdHasEntry(kept, incoming, id);
    n := None;
    if Lookup(kept, id).None? {
      var moved := LegacyWitness(kept, incoming, id);
      n := Some(moved);
    }
  }

  lemma OldIdsDiffer(kept: seq<Node>, incoming: seq<Node>, x: string, y: string)
    requires Pool(kept) && Traceable(kept, incoming) && x != y
    requires x in Ids(Table(Matching(kept, incoming))) && y in Ids(Table(Matching(kept, incoming)))
    ensures OldId(kept, incoming, x) != OldId(kept, incoming, y)
  {
    var m := Mover(kept, incoming, x);
    var n := Mover(kept, incoming, y);
    if m.Some? && n.Some? {
      MovedApart(kept, incoming, m.value, n.value);
    } else if m.Some? {
      MovedIsNotReturned(kept, incoming, m.value, y);
    } else if n.Some? {
      MovedIsNotReturned(kept, incoming, n.value, x);
    }
  }

  lemma PreservedAndMatchedFit(kept: seq<Node>, incoming: seq<Node>, refreshed: set<string>)
    requires Pool(kept) && Traceable(kept, incoming)
    ensures |Preserved(kept, incoming, refreshed)| + |Table(Matching(kept, incoming))| <= |kept|
  {
    var p, t := Preserved(kept, incoming, refreshed), Table(Matching(kept, incoming));
    PreservedIds(kept, incoming, refreshed);
    TabledIds(kept, incoming);
    var ids := Ids(t);
    var olds := seq(|t|, i requires 0 <= i < |t| => OldId(kept, incoming, ids[i]));
    forall i | 0 <= i < |t| ensures olds[i] in Ids(kept) && olds[i] !in Ids(p) {
      assert ids[i] in ids;
      OldIdIsStored(kept, incoming, refreshed, ids[i]);
    }
    forall i, j | 0 <= i < j < |t| ensures olds[i] != olds[j] {
      assert ids[i] in ids && ids[j] in ids;
      OldIdsDiffer(kept, incoming, ids[i], ids[j]);
    }
    SizesAdd(Ids(p), olds, Ids(kept));
  }

  lemma CutKeepsFront(a: seq<string>, front: seq<string>, b: seq<string>, n: nat)
    requires front <= b && |a| + |front| <= n
    ensures a + front <= FirstN(a + b, n)
  {
  }

  /** The ids the refreshed pool begins with: the preserved nodes, then the
      stored nodes that came in again, under their own or a new id. */
  lemma RefreshLeads(kept: seq<Node>, incoming: seq<Node>, refreshed: set<string>)
    requires Pool(kept) && |kept| <= MAX_NODES && Traceable(kept, incoming)
    ensures var p, t := Preserved(kept, incoming, refreshed), Table(Matching(kept, incoming));
            |p| + |t| <= MAX_NODES && Ids(p) + Ids(t) <= Ids(RefreshWindows(kept, incoming, refreshed))
  {
    var t := Ids(Table(Matching(kept, incoming)));
    PreservedAndMatchedFit(kept, incoming, refreshed);
    AllIdsDistinct(kept, incoming, refreshed);
    RefreshIds(kept, incoming, refreshed);
    CutKeepsFront(Ids(Preserved(kept, incoming, refreshed)), t, AddIds(t, Ids(incoming)), MAX_NODES);
  }

  // ----- the Windows refresh keeps the user's nodes -----

  predicate TidyMeta(meta: Meta) {
    |meta.tags| <= MAX_TAGS && |meta.note| <= MAX_NOTE
  }

  predicate Tidy(n: Node) {
    TidyMeta(n.meta)
  }

  /** What a stored entry becomes when these nodes come in for its id. */
  function Renewed(entry: Node, ns: seq<Node>): Node
    requires ns != []
  {
    ns[|ns| - 1].(meta := Clip(entry.meta), proofs := FirstProofs(Some(entry), ns))
  }

  lemma ApartIds(a: seq<string>, b: seq<string>, id: string)
    requires Distinct(a + b) && id in b
    ensures id !in a && Distinct(b)
  {
    var all := a + b;
    var k :| 0 <= k < |b| && b[k] == id;
    assert all[|a| + k] == id;
    forall i | 0 <= i < |a| ensures a[i] != id {
      assert all[i] == a[i];
    }
    assert b == all[|a|..];
  }

  /** Merging over ids the first pool does not have takes the entries over. */
  lemma MergeApart(p: seq<Node>, f: seq<Node>, id: string)
    requires Pool(p) && Distinct(Ids(p) + Ids(f))
    requires Lookup(f, id).Some? && id in Ids(Merge(p, f))
    ensures Lookup(Merge(p, f), id) == Some(Lookup(f, id).value.(meta := Clip(Lookup(f, id).value.meta)))
  {
    LookupFound(f, id);
    LookupFound(p, id);
    ApartIds(Ids(p), Ids(f), id);
    HavingOfPool(f, id);
    TableOfPool(p);
    IncomingIds(p, f);
    IncomingLookup(p, f, id);
    CutLookup(Incoming(p, f), Merge(p, f), id);
  }

  lemma {:induction false} HavingFinds(incoming: seq<Node>, id: string)
    requires id in Ids(incoming)
    ensures Having(incoming, id) != []
  {
    assert Ids(incoming) == [incoming[0].id] + Ids(incoming[1..]);
    if incoming[0].id != id {
      HavingFinds(incoming[1..], id);
    }
  }

  lemma FreshIsRenewed(t: seq<Node>, incoming: seq<Node>, id: string)
    requires Pool(t) && id in Ids(Merge(t, incoming)) && id in Ids(incoming) && Lookup(t, id).Some?
    ensures Having(incoming, id) != []
    ensures Lookup(Merge(t, incoming), id) == Some(Renewed(Lookup(t, id).value, Having(incoming, id)))
  {
    HavingFinds(incoming, id);
    MergeSpec(t, incoming, id);
  }

  lemma ClipTwice(m: Meta)
    ensures Clip(Clip(m)) == Clip(m)
  {
  }

  /** Any matched id that survives has the connection of the last incoming node
      and the user's part of the entry it stands for. */
  lemma MatchedEntryIsRenewed(kept: seq<Node>, incoming: seq<Node>, refreshed: set<string>, id: string)
    requires Pool(kept) && id in Ids(Table(Matching(kept, incoming)))
    requires id in Ids(RefreshWindows(kept, incoming, refreshed))
    ensures Having(incoming, id) != [] && EntryOf(kept, incoming, id).Some?
    ensures Lookup(RefreshWindows(kept, incoming, refreshed), id)
         == Some(Renewed(EntryOf(kept, incoming, id).value, Having(incoming, id)))
  {
    var p, t := Preserved(kept, incoming, refreshed), Table(Matching(kept, incoming));
    MatchedIdHasEntry(kept, incoming, id);
    TabledIds(kept, incoming);
    TableOfMatching(kept, incoming, id);
    RefreshIds(kept, incoming, refreshed);
    PreservedIds(kept, incoming, refreshed);
    InSecond(p, Merge(t, incoming), id);
    FreshIsRenewed(t, incoming, id);
    MergeApart(p, Merge(t, incoming), id);
    ClipTwice(EntryOf(kept, incoming, id).value.meta);
  }

  lemma InSecond(p: seq<Node>, f: seq<Node>, id: string)
    requires Pool(p) && id in Ids(Merge(p, f)) && id !in Ids(p)
    ensures id in Ids(f) && Lookup(f, id).Some?
  {
    MergeSpec(p, f, "");
    AddIdsExtends(Ids(p), Ids(f));
    LookupFound(f, id);
  }

  lemma MatchedIsTabled(kept: seq<Node>, incoming: seq<Node>, id: string)
    requires id != "" && EntryOf(kept, incoming, id).Some?
    ensures id in Ids(Table(Matching(kept, incoming)))
  {
    TableOfMatching(kept, incoming, id);
    LookupFound(Table(Matching(kept, incoming)), id);
  }

  lemma PrefixHas(a: seq<string>, b: seq<string>, whole: seq<string>, x: string)
    requires a + b <= whole && (x in a || x in b)
    ensures x in whole
  {
    assert x in a + b;
    var i :| 0 <= i < |a + b| && (a + b)[i] == x;
    assert whole[i] == x;
  }

  lemma MatchedIdStays(kept: seq<Node>, incoming: seq<Node>, refreshed: set<string>, id: string)
    requires Pool(kept) && |kept| <= MAX_NODES && Traceable(kept, incoming)
    requires id != "" && EntryOf(kept, incoming, id).Some?
    ensures id in Ids(RefreshWindows(kept, incoming, refreshed))
  {
    var p, t := Preserved(kept, incoming, refreshed), Table(Matching(kept, incoming));
    MatchedIsTabled(kept, incoming, id);
    RefreshLeads(kept, incoming, refreshed);
    PrefixHas(Ids(p), Ids(t), Ids(RefreshWindows(kept, incoming, refreshed)), id);
  }

  lemma HavingApart(f: seq<Node>, p: seq<Node>, id: string, j: nat)
    requires Distinct(Ids(p) + Ids(f)) && j < |p| && p[j].id == id
    ensures Having(f, id) == []
  {
    var both := Ids(p) + Ids(f);
    assert both[j] == id;
    assert forall i | 0 <= i < |f| :: both[|p| + i] == f[i].id;
    HavingNone(f, id);
  }

  lemma {:induction false} HavingNone(pool: seq<Node>, id: string)
    requires forall i | 0 <= i < |pool| :: pool[i].id != id
    ensures Having(pool, id) == []
  {
    if pool != [] {
      HavingNone(pool[1..], id);
    }
  }

  lemma UnreturnedNodeStays(kept: seq<Node>, incoming: seq<Node>, refreshed: set<string>, o: Node)
    requires Pool(kept) && |kept| <= MAX_NODES
    requires o in kept && Preserves(kept, incoming, refreshed, o)
    ensures Lookup(RefreshWindows(kept, incoming, refreshed), o.id) == Some(o)
  {
    var p, t := Preserved(kept, incoming, refreshed), Table(Matching(kept, incoming));
    var f := Merge(t, incoming);
    RefreshIds(kept, incoming, refreshed);
    FilterFacts(kept, n => Preserves(kept, incoming, refreshed, n));
    var j :| 0 <= j < |p| && p[j] == o;
    LookupAt(p, j);
    assert Ids(p)[j] == o.id;
    MergeEvictsNothing(p, f);
    PrefixHas(Ids(p), [], Ids(Merge(p, f)), o.id);
    HavingApart(f, p, o.id, j);
    MergeSpec(p, f, o.id);
  }

  /** A successful refresh keeps every stored node that is favourite, pinned,
      from a source that did not answer, or among the incoming ones, with its
      user metadata, even when the pool is full. A node that did not come in
      again is kept unchanged, whatever else comes in, unless its raw text now
      carries a new id (then see `MigratedNodeKeepsMeta`); one that did is safe
      from the cap when the incoming nodes are traceable, and in any case keeps
      its metadata and oldest measurements if it is not cut. */
  lemma RefreshKeepsUserNodes(kept: seq<Node>, incoming: seq<Node>, refreshed: set<string>, o: Node)
    requires Pool(kept) && |kept| <= MAX_NODES && o in kept
    ensures Preserves(kept, incoming, refreshed, o) ==>
              Lookup(RefreshWindows(kept, incoming, refreshed), o.id) == Some(o)
    ensures o.id in Ids(incoming) && Traceable(kept, incoming) ==>
              o.id in Ids(RefreshWindows(kept, incoming, refreshed))
    ensures o.id in Ids(incoming) && o.id in Ids(RefreshWindows(kept, incoming, refreshed)) ==>
              var ns := Having(incoming, o.id);
              ns != [] && Lookup(RefreshWindows(kept, incoming, refreshed), o.id) == Some(Renewed(o, ns))
  {
    StoredIdKnown(kept, o);
    if o.id in Ids(incoming) {
      EntryIs(kept, incoming, o.id);
      MatchedIsTabled(kept, incoming, o.id);
      if Traceable(kept, incoming) {
        MatchedIdStays(kept, incoming, refreshed, o.id);
      }
      if o.id in Ids(RefreshWindows(kept, incoming, refreshed)) {
        MatchedEntryIsRenewed(kept, incoming, refreshed, o.id);
      }
    } else if Preserves(kept, incoming, refreshed, o) {
      UnreturnedNodeStays(kept, incoming, refreshed, o);
    }
  }

  // ----- a node whose id changed -----

  lemma StubIsRenewed(id: string, legacy: Node, ns: seq<Node>)
    requires ns != []
    ensures Renewed(Stub(id, legacy), ns) == ns[|ns| - 1].(meta := Clip(legacy.meta), proofs := EarliestProofs(ns))
  {
    ClipTwice(legacy.meta);
  }

  lemma MigratedEntry(kept: seq<Node>, incoming: seq<Node>, id: string)
    requires id != "" && Lookup(kept, id).None? && LegacyOf(kept, incoming, id).Some?
    ensures EntryOf(kept, incoming, id) == Some(Stub(id, LegacyOf(kept, incoming, id).value))
    ensures id in Ids(Table(Matching(kept, incoming)))
  {
    EntryIs(kept, incoming, id);
    MatchedIsTabled(kept, incoming, id);
  }

  /** When stored raw texts come in under a new id, however often, the new node
      gets the user's metadata of the last of them and none of the old
      measurements; it is safe from the cap when the incoming nodes are
      traceable. */
  lemma MigratedNodeKeepsMeta(kept: seq<Node>, incoming: seq<Node>, refreshed: set<string>, id: string)
    requires Pool(kept) && |kept| <= MAX_NODES && id != ""
    requires Lookup(kept, id).None? && LegacyOf(kept, incoming, id).Some?
    ensures Traceable(kept, incoming) ==> id in Ids(RefreshWindows(kept, incoming, refreshed))
    ensures id in Ids(RefreshWindows(kept, incoming, refreshed)) ==>
              var ns := Having(incoming, id);
              && ns != []
              && Lookup(RefreshWindows(kept, incoming, refreshed), id)
                 == Some(ns[|ns| - 1].(meta := Clip(LegacyOf(kept, incoming, id).value.meta), proofs := EarliestProofs(ns)))
  {
    MigratedEntry(kept, incoming, id);
    if Traceable(kept, incoming) {
      MatchedIdStays(kept, incoming, refreshed, id);
    }
    if id in Ids(RefreshWindows(kept, incoming, refreshed)) {
      MatchedEntryIsRenewed(kept, incoming, refreshed, id);
      StubIsRenewed(id, LegacyOf(kept, incoming, id).value, Having(incoming, id));
    }
  }

  /** A node listed by several sources has one raw text, hence one old node. */
  lemma LegacyOfRepeated(kept: seq<Node>, incoming: seq<Node>, n: Node)
    requires n in incoming && Moves(kept, n)
    requires forall m | m in incoming && m.id == n.id && ByRaw(kept, m.raw).Some? :: ByRaw(kept, m.raw) == ByRaw(kept, n.raw)
    ensures LegacyOf(kept, incoming, n.id) == ByRaw(kept, n.raw)
  {
    LegacyExists(kept, incoming, n);
    var m := LegacyWitness(kept, incoming, n.id);
  }

  lemma {:induction false} LegacyExists(kept: seq<Node>, incoming: seq<Node>, n: Node)
    requires n in incoming && ByRaw(kept, n.raw).Some?
    ensures LegacyOf(kept, incoming, n.id).Some?
  {
    var last := incoming[|incoming| - 1];
    if last.id != n.id || ByRaw(kept, last.raw).None? {
      assert n in incoming[..|incoming| - 1];
      LegacyExists(kept, incoming[..|incoming| - 1], n);
    }
  }

  // ----- no user metadata is lost -----

  /** No new id stands for two stored nodes. */
  predicate Apart(kept: seq<Node>, incoming: seq<Node>) {
    forall m, n | m in incoming && n in incoming && Moves(kept, m) && Moves(kept, n) && m.id == n.id ::
      ByRaw(kept, m.raw) == ByRaw(kept, n.raw)
  }

  /** A stored node whose raw text came in under a new id that survived: its user
      metadata is there exactly when it equals that of the stored node whose raw
      text came in last under that id. */
  lemma MovedMetaStaysExactly(kept: seq<Node>, incoming: seq<Node>, refreshed: set<string>, o: Node, n: Node)
    requires Pool(kept) && |kept| <= MAX_NODES
    requires n in incoming && n.id != "" && Moves(kept, n) && ByRaw(kept, n.raw) == Some(o)
    requires n.id in Ids(RefreshWindows(kept, incoming, refreshed))
    ensures LegacyOf(kept, incoming, n.id).Some? && Lookup(RefreshWindows(kept, incoming, refreshed), n.id).Some?
    ensures Lookup(RefreshWindows(kept, incoming, refreshed), n.id).value.meta == Clip(o.meta)
       <==> Clip(LegacyOf(kept, incoming, n.id).value.meta) == Clip(o.meta)
  {
    LegacyExists(kept, incoming, n);
    MigratedNodeKeepsMeta(kept, incoming, refreshed, n.id);
  }

  /** An incoming node that brings this stored node's raw text under a new id. */
  predicate Brings(kept: seq<Node>, incoming: seq<Node>, n: Node, o: Node) {
    n in incoming && Moves(kept, n) && ByRaw(kept, n.raw) == Some(o)
  }

  /** Its id has room below the cap. */
  predicate HasRoom(kept: seq<Node>, incoming: seq<Node>, refreshed: set<string>, id: string) {
    |Preserved(kept, incoming, refreshed)| + IndexOf(Table(Matching(kept, incoming)), id) < MAX_NODES
  }

  lemma MovedStaysExactly(kept: seq<Node>, incoming: seq<Node>, refreshed: set<string>, o: Node, n: Node)
    requires Pool(kept) && |kept| <= MAX_NODES && n.id != "" && Brings(kept, incoming, n, o)
    ensures LegacyOf(kept, incoming, n.id).Some?
    ensures
      var r := Lookup(RefreshWindows(kept, incoming, refreshed), n.id);
      r.Some? && r.value.meta == Clip(o.meta)
      <==> HasRoom(kept, incoming, refreshed, n.id) && Clip(LegacyOf(kept, incoming, n.id).value.meta) == Clip(o.meta)
  {
    var t := Table(Matching(kept, incoming));
    LegacyExists(kept, incoming, n);
    MigratedEntry(kept, incoming, n.id);
    LookupFound(t, n.id);
    var j := IndexOf(t, n.id);
    assert Ids(t)[j] == n.id;
    MatchedIdStaysExactly(kept, incoming, refreshed, j);
    LookupFound(RefreshWindows(kept, incoming, refreshed), n.id);
    if n.id in Ids(RefreshWindows(kept, incoming, refreshed)) {
      MovedMetaStaysExactly(kept, incoming, refreshed, o, n);
    }
  }

  /** For every input: the metadata of a stored node is in the refreshed pool
      under an id its raw text moved to exactly when some such id has room below
      the cap and stands last for a stored node with the same metadata. */
  lemma MovedMetadataIsKeptExactly(kept: seq<Node>, incoming: seq<Node>, refreshed: set<string>, o: Node)
    requires Pool(kept) && |kept| <= MAX_NODES && "" !in Ids(incoming)
    ensures
      (exists n :: Brings(kept, incoming, n, o)
        && Lookup(RefreshWindows(kept, incoming, refreshed), n.id).Some?
        && Lookup(RefreshWindows(kept, incoming, refreshed), n.id).value.meta == Clip(o.meta))
      <==>
      (exists n :: Brings(kept, incoming, n, o)
        && HasRoom(kept, incoming, refreshed, n.id)
        && LegacyOf(kept, incoming, n.id).Some? && Clip(LegacyOf(kept, incoming, n.id).value.meta) == Clip(o.meta))
  {
    forall n | Brings(kept, incoming, n, o)
      ensures LegacyOf(kept, incoming, n.id).Some?
      ensures
        var r := Lookup(RefreshWindows(kept, incoming, refreshed), n.id);
        r.Some? && r.value.meta == Clip(o.meta)
        <==> HasRoom(kept, incoming, refreshed, n.id) && Clip(LegacyOf(kept, incoming, n.id).value.meta) == Clip(o.meta)
    {
      var i :| 0 <= i < |incoming| && incoming[i] == n;
      assert Ids(incoming)[i] == n.id;
      MovedStaysExactly(kept, incoming, refreshed, o, n);
    }
  }

  lemma ApartLegacy(kept: seq<Node>, incoming: seq<Node>, n: Node)
    requires n in incoming && Moves(kept, n) && Apart(kept, incoming)
    ensures LegacyOf(kept, incoming, n.id) == ByRaw(kept, n.raw)
  {
    LegacyExists(kept, incoming, n);
    var m := LegacyWitness(kept, incoming, n.id);
    assert Moves(kept, m);
  }

  /** The incoming node that moved a stored node's raw text. */
  lemma MigratedBy(kept: seq<Node>, incoming: seq<Node>, o: Node) returns (n: Node)
    requires Pool(kept) && o in kept && Migrated(kept, incoming, o.id)
    ensures n in incoming && Moves(kept, n) && ByRaw(kept, n.raw) == Some(o)
  {
    n :| n in incoming && Lookup(kept, n.id).None? && ByRaw(kept, n.raw).Some? && ByRaw(kept, n.raw).value.id == o.id;
    ByRawFound(kept, n.raw);
    StoredIdKnown(kept, o);
    StoredIdKnown(kept, ByRaw(kept, n.raw).value);
  }

  /** When every stored node stands behind at most one incoming id and no new id
      for two stored nodes, a refresh loses no user metadata: whatever node is
      favourite, pinned, from a source that did not answer, or came in under any
      id, its metadata is in the refreshed pool, under its own id or the new one. */
  lemma NoUserMetadataLost(kept: seq<Node>, incoming: seq<Node>, refreshed: set<string>, o: Node) returns (id: string)
    requires Pool(kept) && |kept| <= MAX_NODES && "" !in Ids(incoming) && o in kept
    requires Traceable(kept, incoming) && Apart(kept, incoming)
    requires UserKept(o) || o.source !in refreshed || o.id in Ids(incoming) || Migrated(kept, incoming, o.id)
    ensures Lookup(RefreshWindows(kept, incoming, refreshed), id).Some?
    ensures Lookup(RefreshWindows(kept, incoming, refreshed), id).value.meta in {o.meta, Clip(o.meta)}
    ensures !Migrated(kept, incoming, o.id) || o.id in Ids(incoming) ==> id == o.id
  {
    if o.id in Ids(incoming) || !Migrated(kept, incoming, o.id) {
      id := o.id;
      RefreshKeepsUserNodes(kept, incoming, refreshed, o);
    } else {
      var n := MigratedBy(kept, incoming, o);
      id := n.id;
      var i :| 0 <= i < |incoming| && incoming[i] == n;
      assert Ids(incoming)[i] == n.id;
      ApartLegacy(kept, incoming, n);
      MigratedNodeKeepsMeta(kept, incoming, refreshed, id);
    }
  }

  lemma RefreshIsPool(kept: seq<Node>, incoming: seq<Node>, refreshed: set<string>)
    requires Pool(kept) && "" !in Ids(incoming)
    ensures Pool(RefreshWindows(kept, incoming, refreshed)) && |RefreshWindows(kept, incoming, refreshed)| <= MAX_NODES
  {
    var all := AllIds(kept, incoming, refreshed);
    RefreshIds(kept, incoming, refreshed);
    AllIdsDistinct(kept, incoming, refreshed);
    PreservedIds(kept, incoming, refreshed);
    TabledIds(kept, incoming);
    AddIdsExtends(Ids(Table(Matching(kept, incoming))), Ids(incoming));
    var cut := FirstN(all, MAX_NODES);
    assert forall i, j | 0 <= i < j < |cut| :: cut[i] == all[i] && cut[j] == all[j];
  }

  // ----- the Linux refresh -----

  lemma MergedEntryIsRenewed(p: seq<Node>, incoming: seq<Node>, o: Node)
    requires Pool(p) && |p| <= MAX_NODES && o in p
    ensures
      var ns := Having(incoming, o.id);
      Lookup(Merge(p, incoming), o.id) == Some(if ns == [] then o else Renewed(o, ns))
  {
    StoredIdKnown(p, o);
    LookupFound(p, o.id);
    MergeEvictsNothing(p, incoming);
    PrefixHas(Ids(p), [], Ids(Merge(p, incoming)), o.id);
    MergeSpec(p, incoming, o.id);
  }

  /** Whatever order the sources finish in (that is, for every incoming list),
      manual, favourite and pinned nodes stay, in front, with their metadata. */
  lemma LinuxRefreshKeepsUserNodes(kept: seq<Node>, incoming: seq<Node>, publicSources: set<string>, o: Node)
    requires Pool(kept) && |kept| <= MAX_NODES
    requires o in kept && Tidy(o) && (o.source !in publicSources || UserKept(o))
    ensures
      var r, ns := Lookup(RefreshLinux(kept, incoming, publicSources), o.id), Having(incoming, o.id);
      && r == Some(if ns == [] then o else Renewed(o, ns)) && r.value.meta == o.meta
      && (o.id !in Ids(incoming) ==> r.value == o)
  {
    var keep := (n: Node) => n.source !in publicSources || UserKept(n);
    FilterFacts(kept, keep);
    MergedEntryIsRenewed(Filter(kept, keep), incoming, o);
    if o.id !in Ids(incoming) {
      forall i | 0 <= i < |incoming| ensures incoming[i].id != o.id {
        assert Ids(incoming)[i] in Ids(incoming);
      }
      HavingNone(incoming, o.id);
    }
  }
}
