/** Benchmarking the node pool: which nodes a batch tests, and the search for
    the best node. */
module NodeBench {
  import opened Prelude
  import opened DomainPolicy
  import opened NodePool

  const UDP_PROTOCOLS := ["hysteria", "hysteria2", "tuic"]
  const SLOWEST := 999999

  // ----- ranking -----

  datatype Row = Row(key: seq<int>, node: Node, proto: string, source: string)

  function Proto(n: Node): string {
    Lower(n.protocol)
  }

  predicate Eligible(n: Node) {
    (n.proofs.endpoint.Some? && n.proofs.endpoint.value.reachable) || Proto(n) in UDP_PROTOCOLS
  }

  predicate Untested(n: Node) {
    n.proofs.performance.None?
  }

  function Flag(b: bool): int {
    if b then 0 else 1
  }

  function LatencyKey(n: Node): int {
    if n.proofs.endpoint.None? || n.proofs.endpoint.value.latency == 0 then SLOWEST
    else n.proofs.endpoint.value.latency
  }

  function SourceRank(source: string): int {
    if source == "AURX_HTTP_VERIFIED" then 0 else if source == "MORPHEUS_BEST" then 1 else 2
  }

  function SourceQuality(source: string): int {
    Flag(source == "AURX_HTTP_VERIFIED" || source == "MORPHEUS_BEST" || "AURX_COUNTRY_" <= source)
  }

  function Attempts(nodes: seq<Node>, proto: string): nat {
    if nodes == [] then 0
    else (if !Untested(nodes[0]) && Proto(nodes[0]) == proto then 1 else 0) + Attempts(nodes[1..], proto)
  }

  /** The two ports rank differently; both put never-tested nodes first. */
  function RowOf(p: Platform, all: seq<Node>, n: Node): Row {
    match p
    case Linux =>
      Row([Flag(Untested(n)), SourceRank(n.source), LatencyKey(n)], n, Proto(n), n.source)
    case Windows =>
      Row([Flag(Untested(n)), Attempts(all, Proto(n)), SourceQuality(n.source),
           Flag(n.meta.pinned), Flag(n.meta.favorite), LatencyKey(n)],
          n, Proto(n), if n.source == "" then "UNKNOWN" else n.source)
  }

  function Rows(p: Platform, all: seq<Node>, nodes: seq<Node>): seq<Row> {
    if nodes == [] then []
    else if Eligible(nodes[0]) then [RowOf(p, all, nodes[0])] + Rows(p, all, nodes[1..])
    else Rows(p, all, nodes[1..])
  }

  predicate KeyLe(a: seq<int>, b: seq<int>) {
    a == [] || (b != [] && (a[0] < b[0] || (a[0] == b[0] && KeyLe(a[1..], b[1..]))))
  }

  function Insert(r: Row, rows: seq<Row>): seq<Row> {
    if rows == [] || KeyLe(r.key, rows[0].key) then [r] + rows else [rows[0]] + Insert(r, rows[1..])
  }

  /** Stable ascending sort by key. */
  function Sort(rows: seq<Row>): seq<Row> {
    if rows == [] then [] else Insert(rows[0], Sort(rows[1..]))
  }

  function Ranked(p: Platform, nodes: seq<Node>): seq<Row> {
    Sort(Rows(p, nodes, nodes))
  }

  // ----- the three phases -----

  function Leaders(rows: seq<Row>, seen: set<string>): seq<Row> {
    if rows == [] then []
    else if rows[0].proto in seen then Leaders(rows[1..], seen)
    else [rows[0]] + Leaders(rows[1..], seen + {rows[0].proto})
  }

  function Sources(rows: seq<Row>): set<string> {
    set r | r in rows :: r.source
  }

  function PickedIds(rows: seq<Row>): set<string> {
    set r | r in rows :: r.node.id
  }

  function Spread(rows: seq<Row>, picked: seq<Row>, limit: nat): seq<Row>
    decreases rows
  {
    if rows == [] || |picked| >= limit then picked
    else if rows[0].node.id in PickedIds(picked) || rows[0].source in Sources(picked) then Spread(rows[1..], picked, limit)
    else Spread(rows[1..], picked + [rows[0]], limit)
  }

  function Fill(rows: seq<Row>, picked: seq<Row>, limit: nat): seq<Row>
    decreases rows
  {
    if rows == [] || |picked| >= limit then picked
    else if rows[0].node.id in PickedIds(picked) then Fill(rows[1..], picked, limit)
    else Fill(rows[1..], picked + [rows[0]], limit)
  }

  function Pick(rows: seq<Row>, limit: nat): seq<Row> {
    Fill(rows, Spread(rows, FirstN(Leaders(rows, {}), limit), limit), limit)
  }

  // ----- the picking loops as the program runs them -----

  lemma AppendRow(picked: seq<Row>, row: Row)
    ensures PickedIds(picked + [row]) == PickedIds(picked) + {row.node.id}
    ensures Sources(picked + [row]) == Sources(picked) + {row.source}
  {
    assert forall r :: r in picked + [row] <==> r in picked || r == row;
    assert row in picked + [row];
  }

  lemma CutAtLimit(picked: seq<Row>, rest: seq<Row>, limit: nat)
    requires |picked| == limit || (|picked| <= limit && rest == [])
    ensures FirstN(picked + rest, limit) == picked
  {
  }

  method PickLeaders(ordered: seq<Row>, limit: nat) returns (picked: seq<Row>, ids: set<string>, sources: set<string>)
    requires limit >= 1
    ensures picked == FirstN(Leaders(ordered, {}), limit)
    ensures ids == PickedIds(picked) && sources == Sources(picked)
  {
    picked, ids, sources := [], {}, {};
    var protos: set<string> := {};
    assert [] + Leaders(ordered, {}) == Leaders(ordered, {});
    var i := 0;
    while i < |ordered| && |picked| < limit
      invariant i <= |ordered| && |picked| <= limit
      invariant Leaders(ordered, {}) == picked + Leaders(ordered[i..], protos)
      invariant ids == PickedIds(picked) && sources == Sources(picked)
    {
      var row := ordered[i];
      assert ordered[i..][1..] == ordered[i + 1..];
      if row.proto !in protos {
        ConcatAssociates(picked, [row], Leaders(ordered[i + 1..], protos + {row.proto}));
        AppendRow(picked, row);
        picked, ids := picked + [row], ids + {row.node.id};
        protos, sources := protos + {row.proto}, sources + {row.source};
      }
      i := i + 1;
    }
    CutAtLimit(picked, Leaders(ordered[i..], protos), limit);
  }

  method PickSources(ordered: seq<Row>, first: seq<Row>, limit: nat) returns (picked: seq<Row>)
    ensures picked == Spread(ordered, first, limit)
  {
    var ids, sources := PickedIds(first), Sources(first);
    picked := first;
    var i := 0;
    while i < |ordered| && |picked| < limit
      invariant i <= |ordered|
      invariant Spread(ordered[i..], picked, limit) == Spread(ordered, first, limit)
      invariant ids == PickedIds(picked) && sources == Sources(picked)
    {
      var row := ordered[i];
      assert ordered[i..][1..] == ordered[i + 1..];
      if row.node.id !in ids && row.source !in sources {
        AppendRow(picked, row);
        picked := picked + [row];
        ids, sources := ids + {row.node.id}, sources + {row.source};
      }
      i := i + 1;
    }
  }

  method PickRest(ordered: seq<Row>, first: seq<Row>, limit: nat) returns (picked: seq<Row>)
    ensures picked == Fill(ordered, first, limit)
  {
    var ids := PickedIds(first);
    picked := first;
    var i := 0;
    while i < |ordered| && |picked| < limit
      invariant i <= |ordered|
      invariant Fill(ordered[i..], picked, limit) == Fill(ordered, first, limit)
      invariant ids == PickedIds(picked)
    {
      var row := ordered[i];
      assert ordered[i..][1..] == ordered[i + 1..];
      if row.node.id !in ids {
        AppendRow(picked, row);
        picked, ids := picked + [row], ids + {row.node.id};
      }
      i := i + 1;
    }
  }

  method PickRows(ordered: seq<Row>, limit: nat) returns (picked: seq<Row>)
    requires limit >= 1
    ensures picked == Pick(ordered, limit)
  {
    var ids, sources;
    picked, ids, sources := PickLeaders(ordered, limit);
    picked := PickSources(ordered, picked, limit);
    picked := PickRest(ordered, picked, limit);
  }

  // ----- what the picker guarantees -----

  ghost predicate DistinctNodes(rows: seq<Row>) {
    forall i, j | 0 <= i < j < |rows| :: rows[i].node.id != rows[j].node.id
  }

  ghost predicate SubRows(a: seq<Row>, b: seq<Row>) {
    forall r | r in a :: r in b
  }

  /** The best-ranked row of its protocol. */
  predicate Leads(rows: seq<Row>, k: nat)
    requires k < |rows|
  {
    forall j | 0 <= j < k :: rows[j].proto != rows[k].proto
  }

  lemma {:induction false} LeadersFacts(rows: seq<Row>, seen: set<string>)
    requires DistinctNodes(rows)
    ensures var l := Leaders(rows, seen);
            SubRows(l, rows) && DistinctNodes(l) && (forall r | r in l :: r.proto !in seen)
            && (forall i, j | 0 <= i < j < |l| :: l[i].proto != l[j].proto)
  {
    if rows != [] {
      var next := if rows[0].proto in seen then seen else seen + {rows[0].proto};
      LeadersFacts(rows[1..], next);
      var rest := Leaders(rows[1..], next);
      assert rows == [rows[0]] + rows[1..];
      forall i | 0 <= i < |rest| ensures rest[i].node.id != rows[0].node.id && rest[i].proto !in next {
        assert rest[i] in rest && rest[i] in rows[1..];
      }
    }
  }

  lemma {:induction false} LeadersAreTheLeads(rows: seq<Row>, seen: set<string>, k: nat)
    requires k < |rows| && rows[k].proto !in seen && Leads(rows, k)
    ensures rows[k] in Leaders(rows, seen)
  {
    if k > 0 {
      var next := if rows[0].proto in seen then seen else seen + {rows[0].proto};
      assert rows[0].proto != rows[k].proto;
      forall j | 0 <= j < k - 1 ensures rows[1..][j].proto != rows[1..][k - 1].proto {
        assert rows[j + 1].proto != rows[k].proto;
      }
      LeadersAreTheLeads(rows[1..], next, k - 1);
    }
  }

  lemma LeadOf(rows: seq<Row>, k: nat) returns (j: nat)
    requires k < |rows|
    ensures j <= k && rows[j].proto == rows[k].proto && Leads(rows, j)
  {
    j := 0;
    while rows[j].proto != rows[k].proto
      invariant j <= k && forall i | 0 <= i < j :: rows[i].proto != rows[k].proto
      decreases k - j
    {
      j := j + 1;
    }
  }

  lemma {:induction false} SpreadFacts(rows: seq<Row>, picked: seq<Row>, limit: nat, all: seq<Row>)
    requires SubRows(rows, all) && SubRows(picked, all) && DistinctNodes(picked) && |picked| <= limit
    ensures var r := Spread(rows, picked, limit);
            picked <= r && SubRows(r, all) && DistinctNodes(r) && |r| <= limit
    decreases rows
  {
    if rows != [] && |picked| < limit {
      assert rows[0] in rows;
      AppendKeeps(picked, rows[0], all);
      SpreadFacts(rows[1..], if rows[0].node.id in PickedIds(picked) || rows[0].source in Sources(picked)
                             then picked else picked + [rows[0]], limit, all);
    }
  }

  lemma AppendKeeps(picked: seq<Row>, row: Row, all: seq<Row>)
    requires SubRows(picked, all) && DistinctNodes(picked) && row in all
    ensures row.node.id !in PickedIds(picked) ==> SubRows(picked + [row], all) && DistinctNodes(picked + [row])
  {
    if row.node.id !in PickedIds(picked) {
      forall i | 0 <= i < |picked| ensures picked[i].node.id != row.node.id {
        assert picked[i] in picked;
      }
    }
  }

  lemma {:induction false} FillFacts(rows: seq<Row>, picked: seq<Row>, limit: nat, all: seq<Row>)
    requires SubRows(rows, all) && SubRows(picked, all) && DistinctNodes(picked) && |picked| <= limit
    ensures var r := Fill(rows, picked, limit);
            picked <= r && SubRows(r, all) && DistinctNodes(r) && |r| <= limit
            && (|r| < limit ==> forall x | x in rows :: x.node.id in PickedIds(r))
    decreases rows
  {
    if rows != [] && |picked| < limit {
      assert rows[0] in rows && rows == [rows[0]] + rows[1..];
      AppendKeeps(picked, rows[0], all);
      AppendRow(picked, rows[0]);
      var next := if rows[0].node.id in PickedIds(picked) then picked else picked + [rows[0]];
      FillFacts(rows[1..], next, limit, all);
      PrefixIds(next, Fill(rows[1..], next, limit));
    }
  }

  lemma PrefixIds(a: seq<Row>, b: seq<Row>)
    requires a <= b
    ensures PickedIds(a) <= PickedIds(b)
  {
    forall x | x in PickedIds(a) ensures x in PickedIds(b) {
      var r :| r in a && r.node.id == x;
      assert r in b;
    }
  }

  lemma {:induction false} IdsSize(rows: seq<Row>)
    requires DistinctNodes(rows)
    ensures |PickedIds(rows)| == |rows|
  {
    if rows != [] {
      var k := |rows| - 1;
      var front := rows[..k];
      IdsSize(front);
      AppendRow(front, rows[k]);
      assert front + [rows[k]] == rows;
      assert rows[k].node.id !in PickedIds(front);
    }
  }

  lemma PickedSize(rows: seq<Row>, picked: seq<Row>, limit: nat)
    requires DistinctNodes(rows) && DistinctNodes(picked) && SubRows(picked, rows) && |picked| <= limit
    requires |picked| < limit ==> forall x | x in rows :: x.node.id in PickedIds(picked)
    ensures |picked| == Min(limit, |rows|)
  {
    IdsSize(rows);
    IdsSize(picked);
    SubsetSize(PickedIds(picked), PickedIds(rows));
    if |picked| < limit {
      SubsetSize(PickedIds(rows), PickedIds(picked));
    }
  }

  /** The picker returns exactly min(limit, eligible) distinct eligible nodes;
      they begin with the best node of each protocol, protocols in rank order,
      as far as the limit goes. */
  lemma PickerGuarantees(rows: seq<Row>, limit: nat)
    requires DistinctNodes(rows)
    ensures var picked := Pick(rows, limit);
            |picked| == Min(limit, |rows|) && SubRows(picked, rows) && DistinctNodes(picked)
            && FirstN(Leaders(rows, {}), limit) <= picked
  {
    var first := FirstN(Leaders(rows, {}), limit);
    LeadersFacts(rows, {});
    assert forall r | r in first :: r in Leaders(rows, {});
    SpreadFacts(rows, first, limit, rows);
    var second := Spread(rows, first, limit);
    FillFacts(rows, second, limit, rows);
    PickedSize(rows, Pick(rows, limit), limit);
  }

  /** With room for every protocol, every eligible protocol gets its best node
      tested; the overall best node is always tested first. */
  lemma EveryProtocolIsCovered(rows: seq<Row>, limit: nat, k: nat)
    requires DistinctNodes(rows) && k < |rows| && limit >= 1
    ensures [rows[0]] <= Pick(rows, limit)
    ensures |Leaders(rows, {})| <= limit ==>
              exists j | 0 <= j <= k :: rows[j].proto == rows[k].proto && Leads(rows, j) && rows[j] in Pick(rows, limit)
  {
    PickerGuarantees(rows, limit);
    assert Leaders(rows, {})[0] == rows[0];
    if |Leaders(rows, {})| <= limit {
      var j := LeadOf(rows, k);
      LeadersAreTheLeads(rows, {}, j);
      assert rows[j] in Pick(rows, limit);
    }
  }

  // ----- the ranking -----

  lemma {:induction false} InsertFacts(r: Row, rows: seq<Row>)
    ensures multiset(Insert(r, rows)) == multiset{r} + multiset(rows)
  {
    if rows != [] && !KeyLe(r.key, rows[0].key) {
      InsertFacts(r, rows[1..]);
      assert rows == [rows[0]] + rows[1..];
    }
  }

  lemma {:induction false} SortIsPermutation(rows: seq<Row>)
    ensures multiset(Sort(rows)) == multiset(rows)
  {
    if rows != [] {
      SortIsPermutation(rows[1..]);
      InsertFacts(rows[0], Sort(rows[1..]));
      assert rows == [rows[0]] + rows[1..];
    }
  }

  ghost predicate Ascending(rows: seq<Row>) {
    forall i | 0 <= i < |rows| - 1 :: KeyLe(rows[i].key, rows[i + 1].key)
  }

  lemma {:induction false} KeyLeTotal(a: seq<int>, b: seq<int>)
    ensures KeyLe(a, b) || KeyLe(b, a)
  {
    if a != [] && b != [] {
      KeyLeTotal(a[1..], b[1..]);
    }
  }

  lemma {:induction false} InsertAscends(r: Row, rows: seq<Row>)
    requires Ascending(rows)
    ensures Ascending(Insert(r, rows))
    ensures var s := Insert(r, rows); s != [] && (s[0] == r || (rows != [] && s[0] == rows[0]))
  {
    if rows != [] && !KeyLe(r.key, rows[0].key) {
      KeyLeTotal(r.key, rows[0].key);
      var tail := rows[1..];
      forall i | 0 <= i < |tail| - 1 ensures KeyLe(tail[i].key, tail[i + 1].key) {
        assert tail[i] == rows[i + 1] && tail[i + 1] == rows[i + 2];
      }
      InsertAscends(r, tail);
      if |rows| > 1 {
        assert rows[1..][0] == rows[1] && KeyLe(rows[0].key, rows[1].key);
      }
    }
  }

  lemma {:induction false} SortAscends(rows: seq<Row>)
    ensures Ascending(Sort(rows))
  {
    if rows != [] {
      SortAscends(rows[1..]);
      InsertAscends(rows[0], Sort(rows[1..]));
    }
  }

  lemma {:induction false} RowsElements(p: Platform, all: seq<Node>, nodes: seq<Node>)
    ensures var r := Rows(p, all, nodes);
            (forall x | x in r :: x.node in nodes && Eligible(x.node) && x == RowOf(p, all, x.node))
            && (forall n | n in nodes && Eligible(n) :: RowOf(p, all, n) in r)
  {
    if nodes != [] {
      RowsElements(p, all, nodes[1..]);
      assert nodes == [nodes[0]] + nodes[1..];
    }
  }

  lemma HeadIdIsNew(nodes: seq<Node>)
    requires Distinct(Ids(nodes)) && nodes != []
    ensures Distinct(Ids(nodes[1..])) && forall n | n in nodes[1..] :: n.id != nodes[0].id
  {
    assert Ids(nodes[1..]) == Ids(nodes)[1..];
    forall n | n in nodes[1..] ensures n.id != nodes[0].id {
      var j :| 0 <= j < |nodes| - 1 && nodes[1..][j] == n;
      assert Ids(nodes)[j + 1] == n.id && Ids(nodes)[0] == nodes[0].id;
    }
  }

  lemma {:induction false} RowsDistinct(p: Platform, all: seq<Node>, nodes: seq<Node>)
    requires Distinct(Ids(nodes))
    ensures DistinctNodes(Rows(p, all, nodes))
  {
    if nodes != [] {
      HeadIdIsNew(nodes);
      RowsDistinct(p, all, nodes[1..]);
      RowsElements(p, all, nodes[1..]);
      var rest := Rows(p, all, nodes[1..]);
      forall i | 0 <= i < |rest| ensures rest[i].node.id != nodes[0].id {
        assert rest[i] in rest;
      }
    }
  }

  lemma RowsFacts(p: Platform, all: seq<Node>, nodes: seq<Node>)
    requires Distinct(Ids(nodes))
    ensures var r := Rows(p, all, nodes);
            DistinctNodes(r)
            && (forall x | x in r :: x.node in nodes && Eligible(x.node) && x == RowOf(p, all, x.node))
            && (forall n | n in nodes && Eligible(n) :: RowOf(p, all, n) in r)
  {
    RowsElements(p, all, nodes);
    RowsDistinct(p, all, nodes);
  }

  lemma DistinctByMultiset(a: seq<Row>, b: seq<Row>)
    requires multiset(a) == multiset(b) && DistinctNodes(a)
    ensures DistinctNodes(b) && |a| == |b| && forall r :: r in a <==> r in b
  {
    assert |multiset(a)| == |a| && |multiset(b)| == |b|;
    forall r ensures r in a <==> r in b {
      assert r in a <==> r in multiset(a);
      assert r in b <==> r in multiset(b);
    }
    IdsSize(a);
    assert PickedIds(a) == PickedIds(b);
    SizeGivesDistinct(b);
  }

  lemma {:induction false} SizeGivesDistinct(rows: seq<Row>)
    requires |PickedIds(rows)| == |rows|
    ensures DistinctNodes(rows)
  {
    if rows != [] {
      var k := |rows| - 1;
      var front := rows[..k];
      assert front + [rows[k]] == rows;
      AppendRow(front, rows[k]);
      IdsAtMost(front);
      SizeGivesDistinct(front);
      LastIsNew(front, rows[k]);
    }
  }

  lemma LastIsNew(front: seq<Row>, row: Row)
    requires DistinctNodes(front) && row.node.id !in PickedIds(front)
    ensures DistinctNodes(front + [row])
  {
    forall i | 0 <= i < |front| ensures front[i].node.id != row.node.id {
      assert front[i] in front;
    }
  }

  lemma {:induction false} IdsAtMost(rows: seq<Row>)
    ensures |PickedIds(rows)| <= |rows|
  {
    if rows != [] {
      var k := |rows| - 1;
      AppendRow(rows[..k], rows[k]);
      assert rows[..k] + [rows[k]] == rows;
      IdsAtMost(rows[..k]);
    }
  }

  /** The ranked rows are the eligible nodes, once each. */
  lemma RankedFacts(p: Platform, nodes: seq<Node>)
    requires Distinct(Ids(nodes))
    ensures var r := Ranked(p, nodes);
            DistinctNodes(r) && Ascending(r) && |r| == |Rows(p, nodes, nodes)|
            && (forall x | x in r :: x.node in nodes && Eligible(x.node) && x == RowOf(p, nodes, x.node))
            && (forall n | n in nodes && Eligible(n) :: RowOf(p, nodes, n) in r)
  {
    var rows := Rows(p, nodes, nodes);
    RowsFacts(p, nodes, nodes);
    SortIsPermutation(rows);
    SortAscends(rows);
    DistinctByMultiset(rows, Sort(rows));
  }

  lemma {:induction false} FirstKeyLeast(rows: seq<Row>, k: nat)
    requires Ascending(rows) && k < |rows| && forall r | r in rows :: r.key != []
    ensures rows[0].key[0] <= rows[k].key[0]
  {
    if k > 0 {
      FirstKeyLeast(rows, k - 1);
      assert KeyLe(rows[k - 1].key, rows[k].key);
    }
  }

  /** While an eligible node has never been tested, the row ranked first has
      never been tested. */
  lemma UntestedRanksFirst(p: Platform, nodes: seq<Node>, n: Node)
    requires Distinct(Ids(nodes)) && n in nodes && Eligible(n) && Untested(n)
    ensures Ranked(p, nodes) != [] && Untested(Ranked(p, nodes)[0].node)
  {
    var r := Ranked(p, nodes);
    RankedFacts(p, nodes);
    var k :| 0 <= k < |r| && r[k] == RowOf(p, nodes, n);
    forall x | x in r ensures x.key != [] {
      assert x == RowOf(p, nodes, x.node);
    }
    FirstKeyLeast(r, k);
    assert r[0] in r;
  }
}
