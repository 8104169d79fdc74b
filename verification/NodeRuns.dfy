/** Any number of public refreshes one after the other, on both platforms. */
module NodeRuns {
  import opened Prelude
  import opened NodePool
  import opened NodeRefresh

  ghost predicate AllFresh(incoming: seq<Node>) {
    forall n | n in incoming :: FreshNode(n)
  }

  /** The source of an entry after these nodes came in. */
  function SourceAfter(incoming: seq<Node>, id: string, source: string): string {
    var ns := Having(incoming, id);
    if ns == [] then source else ns[|ns| - 1].source
  }

  /** No entry, or one without user metadata. */
  predicate Forgotten(pool: seq<Node>, id: string) {
    Lookup(pool, id).Some? ==> Lookup(pool, id).value.meta == BLANK
  }

  /** The entry with this user metadata and this source. */
  predicate Held(pool: seq<Node>, id: string, meta: Meta, source: string) {
    Lookup(pool, id).Some? && Lookup(pool, id).value.meta == meta && Lookup(pool, id).value.source == source
  }

  lemma FreshIds(incoming: seq<Node>)
    requires AllFresh(incoming)
    ensures "" !in Ids(incoming)
  {
    forall i | 0 <= i < |incoming| ensures Ids(incoming)[i] != "" {
      assert incoming[i] in incoming;
    }
  }

  lemma {:induction false} HavingElements(incoming: seq<Node>, id: string)
    ensures forall n | n in Having(incoming, id) :: n in incoming && n.id == id
  {
    if incoming != [] {
      HavingElements(incoming[1..], id);
    }
  }

  lemma ListedIsHaving(incoming: seq<Node>, id: string)
    ensures id in Ids(incoming) <==> Having(incoming, id) != []
  {
    if id in Ids(incoming) {
      HavingFinds(incoming, id);
    } else {
      forall i | 0 <= i < |incoming| ensures incoming[i].id != id {
        assert Ids(incoming)[i] in Ids(incoming);
      }
      HavingNone(incoming, id);
    }
  }

  lemma RenewedHolds(o: Node, incoming: seq<Node>, id: string)
    requires Having(incoming, id) != [] && TidyMeta(o.meta)
    ensures Renewed(o, Having(incoming, id)).meta == o.meta
    ensures Renewed(o, Having(incoming, id)).source == SourceAfter(incoming, id, o.source)
  {
  }

  lemma MergedPool(p: seq<Node>, incoming: seq<Node>)
    requires Pool(p) && "" !in Ids(incoming)
    ensures Pool(Merge(p, incoming)) && |Merge(p, incoming)| <= MAX_NODES
  {
    var all := AddIds(Ids(p), Ids(incoming));
    MergeSpec(p, incoming, "");
    AddIdsExtends(Ids(p), Ids(incoming));
    var cut := FirstN(all, MAX_NODES);
    assert forall i, j | 0 <= i < j < |cut| :: cut[i] == all[i] && cut[j] == all[j];
  }

  /** A merged entry whose earlier entry, if any, is forgotten is forgotten. */
  lemma MergeForgets(p: seq<Node>, incoming: seq<Node>, id: string)
    requires Pool(p) && AllFresh(incoming) && Forgotten(p, id)
    ensures Forgotten(Merge(p, incoming), id)
  {
    MergeSpec(p, incoming, id);
    LookupFound(Merge(p, incoming), id);
    HavingElements(incoming, id);
    var ns := Having(incoming, id);
    if ns != [] {
      assert ns[0] in ns;
    }
  }

  // ----- Linux -----

  function AfterLinux(kept: seq<Node>, rounds: seq<seq<Node>>, publicSources: set<string>): seq<Node>
    decreases |rounds|
  {
    if rounds == [] then kept else AfterLinux(RefreshLinux(kept, rounds[0], publicSources), rounds[1..], publicSources)
  }

  /** The entry is never public when a refresh begins. */
  predicate LinuxStays(rounds: seq<seq<Node>>, publicSources: set<string>, id: string, source: string)
    decreases |rounds|
  {
    || rounds == []
    || (source !in publicSources && LinuxStays(rounds[1..], publicSources, id, SourceAfter(rounds[0], id, source)))
  }

  lemma LinuxPool(kept: seq<Node>, incoming: seq<Node>, publicSources: set<string>)
    requires Pool(kept) && AllFresh(incoming)
    ensures Pool(RefreshLinux(kept, incoming, publicSources)) && |RefreshLinux(kept, incoming, publicSources)| <= MAX_NODES
  {
    var keep := (n: Node) => n.source !in publicSources || UserKept(n);
    FilterFacts(kept, keep);
    FreshIds(incoming);
    MergedPool(Filter(kept, keep), incoming);
  }

  lemma LinuxHolds(kept: seq<Node>, incoming: seq<Node>, publicSources: set<string>, id: string, meta: Meta, source: string)
    requires Pool(kept) && |kept| <= MAX_NODES && Held(kept, id, meta, source) && TidyMeta(meta)
    requires source !in publicSources || Keeps(meta)
    ensures Held(RefreshLinux(kept, incoming, publicSources), id, meta, SourceAfter(incoming, id, source))
  {
    var o := Lookup(kept, id).value;
    LookupFound(kept, id);
    LinuxRefreshKeepsUserNodes(kept, incoming, publicSources, o);
    ListedIsHaving(incoming, id);
    if Having(incoming, id) != [] {
      RenewedHolds(o, incoming, id);
    }
  }

  lemma LinuxForgets(kept: seq<Node>, incoming: seq<Node>, publicSources: set<string>, id: string)
    requires Pool(kept) && AllFresh(incoming)
    requires Lookup(kept, id).Some? ==>
               var o := Lookup(kept, id).value;
               o.meta == BLANK || (o.source in publicSources && !UserKept(o))
    ensures Forgotten(RefreshLinux(kept, incoming, publicSources), id)
  {
    var keep := (n: Node) => n.source !in publicSources || UserKept(n);
    var p := Filter(kept, keep);
    FilterFacts(kept, keep);
    LookupFound(p, id);
    if Lookup(p, id).Some? {
      StoredIdKnown(kept, Lookup(p, id).value);
    }
    MergeForgets(p, incoming, id);
  }

  lemma {:induction false} ForgottenOnLinux(kept: seq<Node>, rounds: seq<seq<Node>>, publicSources: set<string>, id: string)
    requires Pool(kept) && (forall incoming | incoming in rounds :: AllFresh(incoming)) && Forgotten(kept, id)
    ensures Forgotten(AfterLinux(kept, rounds, publicSources), id)
    decreases |rounds|
  {
    if rounds != [] {
      assert rounds[0] in rounds;
      LinuxForgets(kept, rounds[0], publicSources, id);
      LinuxPool(kept, rounds[0], publicSources);
      ForgottenOnLinux(RefreshLinux(kept, rounds[0], publicSources), rounds[1..], publicSources, id);
    }
  }

  /** Favourite and pinned nodes stay with their metadata through any number of
      refreshes, whatever comes in. */
  lemma {:induction false} LinuxRunKeepsUserNodes(kept: seq<Node>, rounds: seq<seq<Node>>, publicSources: set<string>,
                                                  id: string, meta: Meta, source: string)
    requires Pool(kept) && |kept| <= MAX_NODES && (forall incoming | incoming in rounds :: AllFresh(incoming))
    requires Held(kept, id, meta, source) && TidyMeta(meta) && Keeps(meta)
    ensures Lookup(AfterLinux(kept, rounds, publicSources), id).Some?
    ensures Lookup(AfterLinux(kept, rounds, publicSources), id).value.meta == meta
    decreases |rounds|
  {
    if rounds != [] {
      assert rounds[0] in rounds;
      LinuxHolds(kept, rounds[0], publicSources, id, meta, source);
      LinuxPool(kept, rounds[0], publicSources);
      LinuxRunKeepsUserNodes(RefreshLinux(kept, rounds[0], publicSources), rounds[1..], publicSources,
                             id, meta, SourceAfter(rounds[0], id, source));
    }
  }

  /** Any other node stays with its metadata as long as it is not public when a
      refresh begins; otherwise it is gone, or back without the metadata. */
  lemma {:induction false} LinuxRunKeepsExactly(kept: seq<Node>, rounds: seq<seq<Node>>, publicSources: set<string>,
                                                id: string, meta: Meta, source: string)
    requires Pool(kept) && |kept| <= MAX_NODES && (forall incoming | incoming in rounds :: AllFresh(incoming))
    requires Held(kept, id, meta, source) && TidyMeta(meta) && !Keeps(meta)
    ensures
      var r := Lookup(AfterLinux(kept, rounds, publicSources), id);
      if LinuxStays(rounds, publicSources, id, source) then r.Some? && r.value.meta == meta
      else r.None? || r.value.meta == BLANK
    decreases |rounds|
  {
    if rounds != [] {
      assert rounds[0] in rounds;
      var next := RefreshLinux(kept, rounds[0], publicSources);
      LinuxPool(kept, rounds[0], publicSources);
      if source !in publicSources {
        LinuxHolds(kept, rounds[0], publicSources, id, meta, source);
        LinuxRunKeepsExactly(next, rounds[1..], publicSources, id, meta, SourceAfter(rounds[0], id, source));
      } else {
        LinuxForgets(kept, rounds[0], publicSources, id);
        ForgottenOnLinux(next, rounds[1..], publicSources, id);
      }
    }
  }

  /** When everything that comes in is public, a manual node stays exactly when no
      refresh but the last has listed it. */
  lemma {:induction false} ManualStaysExactly(rounds: seq<seq<Node>>, publicSources: set<string>, id: string, source: string)
    requires source !in publicSources
    requires forall incoming, n | incoming in rounds && n in incoming :: n.source in publicSources
    ensures LinuxStays(rounds, publicSources, id, source)
       <==> forall j | 0 <= j < |rounds| - 1 :: id !in Ids(rounds[j])
    decreases |rounds|
  {
    if rounds != [] {
      var next := SourceAfter(rounds[0], id, source);
      ListedIsHaving(rounds[0], id);
      HavingElements(rounds[0], id);
      if Having(rounds[0], id) == [] {
        ManualStaysExactly(rounds[1..], publicSources, id, source);
        assert forall j | 0 <= j < |rounds| - 2 :: rounds[1..][j] == rounds[j + 1];
        assert forall j | 0 < j < |rounds| - 1 :: rounds[j] == rounds[1..][j - 1];
      } else {
        var ns := Having(rounds[0], id);
        assert ns[|ns| - 1] in ns && rounds[0] in rounds;
        assert next in publicSources;
      }
    }
  }

  // ----- Windows -----

  datatype Round = Round(incoming: seq<Node>, refreshed: set<string>)

  function AfterWindows(kept: seq<Node>, rounds: seq<Round>): seq<Node>
    decreases |rounds|
  {
    if rounds == [] then kept
    else AfterWindows(RefreshWindows(kept, rounds[0].incoming, rounds[0].refreshed), rounds[1..])
  }

  /** Every refresh whose sources include the entry's lists it again. */
  predicate WindowsStays(rounds: seq<Round>, id: string, source: string)
    decreases |rounds|
  {
    || rounds == []
    || ((id in Ids(rounds[0].incoming) || source !in rounds[0].refreshed)
        && WindowsStays(rounds[1..], id, SourceAfter(rounds[0].incoming, id, source)))
  }

  predicate NoneMoves(kept: seq<Node>, incoming: seq<Node>) {
    forall n | n in incoming :: !Moves(kept, n)
  }

  /** In no refresh does a stored raw text come in under a new id. */
  ghost predicate Still(kept: seq<Node>, rounds: seq<Round>)
    decreases |rounds|
  {
    rounds == [] ||
    (NoneMoves(kept, rounds[0].incoming)
     && Still(RefreshWindows(kept, rounds[0].incoming, rounds[0].refreshed), rounds[1..]))
  }

  /** In every refresh each stored node stands behind at most one incoming id,
      and no new id for two stored nodes. */
  ghost predicate Orderly(kept: seq<Node>, rounds: seq<Round>)
    decreases |rounds|
  {
    rounds == [] ||
    (Traceable(kept, rounds[0].incoming) && Apart(kept, rounds[0].incoming)
     && Orderly(RefreshWindows(kept, rounds[0].incoming, rounds[0].refreshed), rounds[1..]))
  }

  ghost predicate FreshRounds(rounds: seq<Round>) {
    forall round | round in rounds :: AllFresh(round.incoming)
  }

  // ----- where each stored node goes -----

  /** The id its raw text came in under, if it moved. */
  ghost function NewId(kept: seq<Node>, incoming: seq<Node>, o: Node): (r: Option<string>)
    ensures r.Some? <==> exists n :: Brings(kept, incoming, n, o)
    ensures r.Some? ==> (exists n :: Brings(kept, incoming, n, o) && n.id == r.value) && Having(incoming, r.value) != []
  {
    if exists n :: Brings(kept, incoming, n, o) then
      var n :| Brings(kept, incoming, n, o);
      BroughtIsListed(kept, incoming, n, o);
      Some(n.id)
    else None
  }

  /** What one refresh makes of a stored node: the incoming node with the user's
      part, under its own or its new id; itself; or nothing, when a refresh of
      its source lists neither it nor its raw text. */
  ghost function Next(kept: seq<Node>, round: Round, o: Node): Option<Node> {
    var ns, moved := Having(round.incoming, o.id), NewId(kept, round.incoming, o);
    if ns != [] then Some(Renewed(o, ns))
    else if moved.Some? then Some(Renewed(Stub(moved.value, o), Having(round.incoming, moved.value)))
    else if o.source !in round.refreshed || UserKept(o) then Some(o)
    else None
  }

  ghost function Final(kept: seq<Node>, rounds: seq<Round>, o: Node): Option<Node>
    decreases |rounds|
  {
    if rounds == [] then Some(o)
    else
      match Next(kept, rounds[0], o)
      case None => None
      case Some(next) => Final(RefreshWindows(kept, rounds[0].incoming, rounds[0].refreshed), rounds[1..], next)
  }

  lemma BroughtIsListed(kept: seq<Node>, incoming: seq<Node>, n: Node, o: Node)
    requires Brings(kept, incoming, n, o)
    ensures n.id in Ids(incoming) && Having(incoming, n.id) != []
  {
    var i :| 0 <= i < |incoming| && incoming[i] == n;
    assert Ids(incoming)[i] == n.id;
    HavingFinds(incoming, n.id);
  }

  lemma BroughtIsMigrated(kept: seq<Node>, incoming: seq<Node>, o: Node)
    requires Pool(kept) && o in kept
    ensures Migrated(kept, incoming, o.id) <==> exists n :: Brings(kept, incoming, n, o)
  {
    if Migrated(kept, incoming, o.id) {
      var n := MigratedBy(kept, incoming, o);
      assert Brings(kept, incoming, n, o);
    }
  }

  lemma RenewedId(entry: Node, incoming: seq<Node>, id: string)
    requires Having(incoming, id) != []
    ensures Renewed(entry, Having(incoming, id)).id == id
  {
    var ns := Having(incoming, id);
    HavingElements(incoming, id);
    assert ns[|ns| - 1] in ns;
  }

  /** The user's part of a node goes with it. */
  lemma NextMeta(kept: seq<Node>, round: Round, o: Node)
    requires Next(kept, round, o).Some?
    ensures var m := Next(kept, round, o).value.meta;
            (m == BLANK <==> o.meta == BLANK) && Keeps(m) == Keeps(o.meta) && (TidyMeta(o.meta) ==> m == o.meta)
  {
    ClipTwice(o.meta);
  }

  lemma {:induction false} FinalMeta(kept: seq<Node>, rounds: seq<Round>, o: Node)
    ensures Keeps(o.meta) ==> Final(kept, rounds, o).Some?
    ensures Final(kept, rounds, o).Some? ==>
              var m := Final(kept, rounds, o).value.meta;
              (m == BLANK <==> o.meta == BLANK) && (TidyMeta(o.meta) ==> m == o.meta)
    decreases |rounds|
  {
    if rounds != [] && Next(kept, rounds[0], o).Some? {
      NextMeta(kept, rounds[0], o);
      FinalMeta(RefreshWindows(kept, rounds[0].incoming, rounds[0].refreshed), rounds[1..],
                Next(kept, rounds[0], o).value);
    }
  }

  lemma MovedIsThere(kept: seq<Node>, round: Round, o: Node, n: Node)
    requires Pool(kept) && |kept| <= MAX_NODES && n.id != "" && Brings(kept, round.incoming, n, o)
    requires Traceable(kept, round.incoming) && Apart(kept, round.incoming)
    ensures Having(round.incoming, n.id) != []
    ensures Renewed(Stub(n.id, o), Having(round.incoming, n.id))
         in RefreshWindows(kept, round.incoming, round.refreshed)
  {
    ApartLegacy(kept, round.incoming, n);
    MigratedEntry(kept, round.incoming, n.id);
    MatchedIdStays(kept, round.incoming, round.refreshed, n.id);
    MatchedEntryIsRenewed(kept, round.incoming, round.refreshed, n.id);
    LookupFound(RefreshWindows(kept, round.incoming, round.refreshed), n.id);
  }

  lemma NextIsThere(kept: seq<Node>, round: Round, o: Node)
    requires Pool(kept) && |kept| <= MAX_NODES && "" !in Ids(round.incoming) && o in kept
    requires Traceable(kept, round.incoming) && Apart(kept, round.incoming)
    requires Next(kept, round, o).Some?
    ensures Next(kept, round, o).value in RefreshWindows(kept, round.incoming, round.refreshed)
  {
    var moved := NewId(kept, round.incoming, o);
    ListedIsHaving(round.incoming, o.id);
    BroughtIsMigrated(kept, round.incoming, o);
    if Having(round.incoming, o.id) == [] && moved.Some? {
      var n :| Brings(kept, round.incoming, n, o) && n.id == moved.value;
      BroughtIsListed(kept, round.incoming, n, o);
      MovedIsThere(kept, round, o, n);
    } else {
      RefreshKeepsUserNodes(kept, round.incoming, round.refreshed, o);
      LookupFound(RefreshWindows(kept, round.incoming, round.refreshed), o.id);
    }
  }

  lemma PreservedCameFrom(kept: seq<Node>, round: Round, f: Node)
    requires Pool(kept) && |kept| <= MAX_NODES && f.id in Ids(Preserved(kept, round.incoming, round.refreshed))
    requires Lookup(RefreshWindows(kept, round.incoming, round.refreshed), f.id) == Some(f)
    ensures f in kept && Next(kept, round, f) == Some(f)
  {
    var p := Preserved(kept, round.incoming, round.refreshed);
    FilterFacts(kept, n => Preserves(kept, round.incoming, round.refreshed, n));
    LookupFound(p, f.id);
    var o := Lookup(p, f.id).value;
    UnreturnedNodeStays(kept, round.incoming, round.refreshed, o);
    ListedIsHaving(round.incoming, o.id);
    BroughtIsMigrated(kept, round.incoming, o);
  }

  /** A moved node has one new id, and does not come in under its old one. */
  lemma MovedOnce(kept: seq<Node>, incoming: seq<Node>, o: Node, n: Node)
    requires Traceable(kept, incoming) && Brings(kept, incoming, n, o)
    ensures NewId(kept, incoming, o) == Some(n.id) && Having(incoming, o.id) == []
  {
    var m :| Brings(kept, incoming, m, o) && m.id == NewId(kept, incoming, o).value;
    ByRawFound(kept, m.raw);
    ByRawFound(kept, n.raw);
    ListedIsHaving(incoming, o.id);
  }

  lemma TabledCameFrom(kept: seq<Node>, round: Round, f: Node) returns (o: Node)
    requires Pool(kept) && Traceable(kept, round.incoming)
    requires f.id in Ids(Table(Matching(kept, round.incoming)))
    requires Lookup(RefreshWindows(kept, round.incoming, round.refreshed), f.id) == Some(f)
    ensures o in kept && Next(kept, round, o) == Some(f)
  {
    LookupFound(RefreshWindows(kept, round.incoming, round.refreshed), f.id);
    MatchedIdHasEntry(kept, round.incoming, f.id);
    MatchedEntryIsRenewed(kept, round.incoming, round.refreshed, f.id);
    EntryIs(kept, round.incoming, f.id);
    if Lookup(kept, f.id).Some? {
      LookupFound(kept, f.id);
      o := Lookup(kept, f.id).value;
    } else {
      var n := LegacyWitness(kept, round.incoming, f.id);
      ByRawFound(kept, n.raw);
      o := LegacyOf(kept, round.incoming, f.id).value;
      MovedOnce(kept, round.incoming, o, n);
    }
  }

  lemma OnlyIncoming(kept: seq<Node>, round: Round, id: string)
    requires Pool(kept) && AllFresh(round.incoming)
    requires id !in Ids(Preserved(kept, round.incoming, round.refreshed))
    requires id !in Ids(Table(Matching(kept, round.incoming)))
    ensures Forgotten(RefreshWindows(kept, round.incoming, round.refreshed), id)
  {
    var p, t := Preserved(kept, round.incoming, round.refreshed), Table(Matching(kept, round.incoming));
    RefreshIds(kept, round.incoming, round.refreshed);
    TabledIds(kept, round.incoming);
    LookupFound(t, id);
    LookupFound(p, id);
    MergeForgets(t, round.incoming, id);
    MergeOfForgotten(p, Merge(t, round.incoming), id);
  }

  lemma MergeOfForgotten(p: seq<Node>, f: seq<Node>, id: string)
    requires Pool(p) && Distinct(Ids(p) + Ids(f)) && Forgotten(p, id) && Forgotten(f, id)
    ensures Forgotten(Merge(p, f), id)
  {
    MergeSpec(p, f, id);
    LookupFound(Merge(p, f), id);
    ListedIsHaving(f, id);
    if Having(f, id) != [] {
      ApartIds(Ids(p), Ids(f), id);
      LookupFound(p, id);
      HavingOfPool(f, id);
    }
  }

  /** Every entry with metadata after a refresh is what it makes of a stored node. */
  lemma CameFrom(kept: seq<Node>, round: Round, f: Node) returns (o: Node)
    requires Pool(kept) && |kept| <= MAX_NODES && AllFresh(round.incoming) && Traceable(kept, round.incoming)
    requires f in RefreshWindows(kept, round.incoming, round.refreshed) && f.meta != BLANK
    ensures o in kept && Next(kept, round, o) == Some(f)
  {
    FreshIds(round.incoming);
    RefreshIsPool(kept, round.incoming, round.refreshed);
    StoredIdKnown(RefreshWindows(kept, round.incoming, round.refreshed), f);
    if f.id in Ids(Preserved(kept, round.incoming, round.refreshed)) {
      PreservedCameFrom(kept, round, f);
      o := f;
    } else {
      if f.id !in Ids(Table(Matching(kept, round.incoming))) {
        OnlyIncoming(kept, round, f.id);
      }
      o := TabledCameFrom(kept, round, f);
    }
  }

  /** Two stored nodes stay two entries. */
  lemma NextApart(kept: seq<Node>, round: Round, o: Node, other: Node)
    requires Pool(kept) && Apart(kept, round.incoming) && o in kept && other in kept && o != other
    requires Next(kept, round, o).Some? && Next(kept, round, other).Some?
    ensures Next(kept, round, o).value.id != Next(kept, round, other).value.id
  {
    StoredIdKnown(kept, o);
    StoredIdKnown(kept, other);
    NextId(kept, round, o);
    NextId(kept, round, other);
  }

  lemma NextId(kept: seq<Node>, round: Round, o: Node)
    requires Next(kept, round, o).Some?
    ensures var id := Next(kept, round, o).value.id;
            id == o.id || exists n :: Brings(kept, round.incoming, n, o) && n.id == id
  {
    var moved := NewId(kept, round.incoming, o);
    if Having(round.incoming, o.id) != [] {
      RenewedId(o, round.incoming, o.id);
    } else if moved.Some? {
      RenewedId(Stub(moved.value, o), round.incoming, moved.value);
    }
  }

  // ----- runs of Windows refreshes -----

  lemma {:induction false} FinalIsThere(kept: seq<Node>, rounds: seq<Round>, o: Node)
    requires Pool(kept) && |kept| <= MAX_NODES && FreshRounds(rounds) && Orderly(kept, rounds)
    requires o in kept && Final(kept, rounds, o).Some?
    ensures Pool(AfterWindows(kept, rounds)) && Final(kept, rounds, o).value in AfterWindows(kept, rounds)
    decreases |rounds|
  {
    if rounds != [] {
      assert rounds[0] in rounds;
      FreshIds(rounds[0].incoming);
      NextIsThere(kept, rounds[0], o);
      RefreshIsPool(kept, rounds[0].incoming, rounds[0].refreshed);
      FinalIsThere(RefreshWindows(kept, rounds[0].incoming, rounds[0].refreshed), rounds[1..],
                   Next(kept, rounds[0], o).value);
    }
  }

  lemma {:induction false} FinalCameFrom(kept: seq<Node>, rounds: seq<Round>, f: Node) returns (o: Node)
    requires Pool(kept) && |kept| <= MAX_NODES && FreshRounds(rounds) && Orderly(kept, rounds)
    requires f in AfterWindows(kept, rounds) && f.meta != BLANK
    ensures o in kept && Final(kept, rounds, o) == Some(f)
    decreases |rounds|
  {
    if rounds == [] {
      o := f;
    } else {
      var next := RefreshWindows(kept, rounds[0].incoming, rounds[0].refreshed);
      assert rounds[0] in rounds;
      FreshIds(rounds[0].incoming);
      RefreshIsPool(kept, rounds[0].incoming, rounds[0].refreshed);
      var x := FinalCameFrom(next, rounds[1..], f);
      FinalMeta(next, rounds[1..], x);
      o := CameFrom(kept, rounds[0], x);
    }
  }

  lemma {:induction false} FinalsApart(kept: seq<Node>, rounds: seq<Round>, o: Node, other: Node)
    requires Pool(kept) && |kept| <= MAX_NODES && FreshRounds(rounds) && Orderly(kept, rounds)
    requires o in kept && other in kept && o != other
    requires Final(kept, rounds, o).Some? && Final(kept, rounds, other).Some?
    ensures Final(kept, rounds, o).value.id != Final(kept, rounds, other).value.id
    decreases |rounds|
  {
    if rounds == [] {
      StoredIdKnown(kept, o);
      StoredIdKnown(kept, other);
    } else {
      assert rounds[0] in rounds;
      FreshIds(rounds[0].incoming);
      RefreshIsPool(kept, rounds[0].incoming, rounds[0].refreshed);
      NextIsThere(kept, rounds[0], o);
      NextIsThere(kept, rounds[0], other);
      NextApart(kept, rounds[0], o, other);
      FinalsApart(RefreshWindows(kept, rounds[0].incoming, rounds[0].refreshed), rounds[1..],
                  Next(kept, rounds[0], o).value, Next(kept, rounds[0], other).value);
    }
  }

  /** Any number of orderly refreshes, which may give nodes new ids again and
      again: the entries with metadata in the last pool are what becomes of the
      stored nodes with metadata, and no other. */
  lemma WindowsRunIs(kept: seq<Node>, rounds: seq<Round>, f: Node)
    requires Pool(kept) && |kept| <= MAX_NODES && FreshRounds(rounds) && Orderly(kept, rounds) && f.meta != BLANK
    ensures f in AfterWindows(kept, rounds) <==> exists o :: o in kept && Final(kept, rounds, o) == Some(f)
  {
    if f in AfterWindows(kept, rounds) {
      var o := FinalCameFrom(kept, rounds, f);
    }
    forall o | o in kept && Final(kept, rounds, o) == Some(f) ensures f in AfterWindows(kept, rounds) {
      FinalIsThere(kept, rounds, o);
    }
  }

  /** A stored node keeps its metadata, under its own id or the one it moved to,
      as long as every refresh of its source lists it or its raw text, or it is
      favourite or pinned; otherwise all metadata left is that of other nodes. */
  lemma WindowsRunKeepsExactly(kept: seq<Node>, rounds: seq<Round>, o: Node)
    requires Pool(kept) && |kept| <= MAX_NODES && FreshRounds(rounds) && Orderly(kept, rounds)
    requires o in kept && TidyMeta(o.meta)
    ensures Keeps(o.meta) ==> Final(kept, rounds, o).Some?
    ensures
      match Final(kept, rounds, o)
      case Some(f) => Lookup(AfterWindows(kept, rounds), f.id) == Some(f) && f.meta == o.meta
      case None =>
        forall f | f in AfterWindows(kept, rounds) && f.meta != BLANK ::
          exists other :: other in kept && other != o && Final(kept, rounds, other) == Some(f)
    ensures forall other | other in kept && other != o && Final(kept, rounds, other).Some? ::
              Final(kept, rounds, other) != Final(kept, rounds, o)
  {
    FinalMeta(kept, rounds, o);
    if Final(kept, rounds, o).Some? {
      FinalIsThere(kept, rounds, o);
      StoredIdKnown(AfterWindows(kept, rounds), Final(kept, rounds, o).value);
    } else {
      forall f | f in AfterWindows(kept, rounds) && f.meta != BLANK
        ensures exists other :: other in kept && other != o && Final(kept, rounds, other) == Some(f)
      {
        var other := FinalCameFrom(kept, rounds, f);
      }
    }
    forall other | other in kept && other != o && Final(kept, rounds, other).Some? && Final(kept, rounds, o).Some?
      ensures Final(kept, rounds, other) != Final(kept, rounds, o)
    {
      FinalsApart(kept, rounds, o, other);
    }
  }

  /** Favourite and pinned nodes keep their metadata through any number of
      orderly refreshes, under their own id or the one they moved to. */
  lemma WindowsRunKeepsUserNodes(kept: seq<Node>, rounds: seq<Round>, o: Node) returns (id: string)
    requires Pool(kept) && |kept| <= MAX_NODES && FreshRounds(rounds) && Orderly(kept, rounds)
    requires o in kept && TidyMeta(o.meta) && Keeps(o.meta)
    ensures Lookup(AfterWindows(kept, rounds), id).Some?
    ensures Lookup(AfterWindows(kept, rounds), id).value.meta == o.meta
  {
    WindowsRunKeepsExactly(kept, rounds, o);
    id := Final(kept, rounds, o).value.id;
  }

  // ----- runs in which no id changes -----

  lemma NoneBrings(kept: seq<Node>, incoming: seq<Node>, o: Node)
    requires NoneMoves(kept, incoming)
    ensures NewId(kept, incoming, o).None? && Traceable(kept, incoming) && Apart(kept, incoming)
  {
    assert forall n | n in incoming :: !Moves(kept, n);
  }

  lemma {:induction false} StillIsOrderly(kept: seq<Node>, rounds: seq<Round>, o: Node)
    requires Still(kept, rounds)
    ensures Orderly(kept, rounds)
    ensures Final(kept, rounds, o).Some? ==> Final(kept, rounds, o).value.id == o.id
    ensures !UserKept(o) ==> (Final(kept, rounds, o).Some? <==> WindowsStays(rounds, o.id, o.source))
    decreases |rounds|
  {
    if rounds != [] {
      var incoming := rounds[0].incoming;
      var next := RefreshWindows(kept, incoming, rounds[0].refreshed);
      NoneBrings(kept, incoming, o);
      ListedIsHaving(incoming, o.id);
      if Having(incoming, o.id) != [] {
        RenewedId(o, incoming, o.id);
      }
      match Next(kept, rounds[0], o)
      case None => StillIsOrderly(next, rounds[1..], o);
      case Some(x) => StillIsOrderly(next, rounds[1..], x);
    }
  }

  /** When no raw text comes in under a new id, listing alone decides: any other
      node stays with its metadata as long as every refresh of its source lists
      it; otherwise it is gone, or back without the metadata. */
  lemma ListedRunKeepsExactly(kept: seq<Node>, rounds: seq<Round>, o: Node)
    requires Pool(kept) && |kept| <= MAX_NODES && FreshRounds(rounds) && Still(kept, rounds)
    requires o in kept && TidyMeta(o.meta) && !Keeps(o.meta)
    ensures
      var r := Lookup(AfterWindows(kept, rounds), o.id);
      if WindowsStays(rounds, o.id, o.source) then r.Some? && r.value.meta == o.meta
      else r.None? || r.value.meta == BLANK
  {
    StillIsOrderly(kept, rounds, o);
    WindowsRunKeepsExactly(kept, rounds, o);
    var r := Lookup(AfterWindows(kept, rounds), o.id);
    LookupFound(AfterWindows(kept, rounds), o.id);
    if !WindowsStays(rounds, o.id, o.source) && r.Some? && r.value.meta != BLANK {
      var other := FinalCameFrom(kept, rounds, r.value);
      StillIsOrderly(kept, rounds, other);
      StoredIdKnown(kept, o);
      StoredIdKnown(kept, other);
      assert false;
    }
  }
}
