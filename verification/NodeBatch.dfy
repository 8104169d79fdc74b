/** A benchmark batch over the stored pool, and the bounded search for the
    best node (Linux port). */
module NodeBatch {
  import opened Prelude
  import opened DomainPolicy
  import opened NodePool
  import opened NodeStore
  import opened NodeBench

  /** Eligible nodes never tested: `remainingUnbenchmarked`. */
  function Remaining(nodes: seq<Node>): nat {
    if nodes == [] then 0
    else Remaining(nodes[..|nodes| - 1])
         + if Eligible(nodes[|nodes| - 1]) && Untested(nodes[|nodes| - 1]) then 1 else 0
  }

  predicate Winner(n: Node) {
    n.proofs.performance.Some? && n.proofs.performance.value.ok
  }

  function Winners(nodes: seq<Node>): nat {
    if nodes == [] then 0
    else Winners(nodes[..|nodes| - 1]) + if Winner(nodes[|nodes| - 1]) then 1 else 0
  }

  /** `n` with one more measurement, equal to what `m` shows. */
  predicate Measured(n: Node, m: Node) {
    && m.proofs.performance.Some?
    && m == n.(proofs := n.proofs.(performance := m.proofs.performance,
                                   performances := LastN(n.proofs.performances + [m.proofs.performance.value], MAX_PERFORMANCE)))
  }

  /** Exactly the nodes of `tested` were measured, once each. */
  predicate Benched(before: seq<Node>, after: seq<Node>, tested: set<string>) {
    && |after| == |before|
    && forall k | 0 <= k < |before| ::
         if before[k].id in tested then Measured(before[k], after[k]) else after[k] == before[k]
  }

  /** What a batch on a screened pool does. */
  predicate BatchStep(before: seq<Node>, after: seq<Node>, limit: nat) {
    Benched(before, after, PickedIds(Pick(Ranked(Linux, before), limit)))
  }

  lemma {:induction false} RemainingAtMost(before: seq<Node>, after: seq<Node>, tested: set<string>)
    requires Benched(before, after, tested)
    ensures Remaining(after) <= Remaining(before)
    ensures (exists k | 0 <= k < |before| :: before[k].id in tested && Eligible(before[k]) && Untested(before[k]))
              ==> Remaining(after) < Remaining(before)
  {
    if before != [] {
      var j := |before| - 1;
      RemainingAtMost(before[..j], after[..j], tested);
      if k: nat :| k < |before| && before[k].id in tested && Eligible(before[k]) && Untested(before[k]) {
        if k < j {
          assert before[..j][k] == before[k];
        }
      }
    }
  }

  lemma {:induction false} RemainingWitness(nodes: seq<Node>) returns (k: nat)
    requires Remaining(nodes) > 0
    ensures k < |nodes| && Eligible(nodes[k]) && Untested(nodes[k])
  {
    var j := |nodes| - 1;
    if Eligible(nodes[j]) && Untested(nodes[j]) {
      k := j;
    } else {
      k := RemainingWitness(nodes[..j]);
    }
  }

  /** While an eligible node is untested, a batch tests one for the first time. */
  lemma BatchProgress(before: seq<Node>, after: seq<Node>, limit: nat)
    requires Distinct(Ids(before)) && BatchStep(before, after, limit) && limit >= 1
    ensures Remaining(after) <= Remaining(before)
    ensures Remaining(before) > 0 ==> Remaining(after) < Remaining(before)
  {
    var ranked := Ranked(Linux, before);
    var tested := PickedIds(Pick(ranked, limit));
    RemainingAtMost(before, after, tested);
    if Remaining(before) > 0 {
      var k := RemainingWitness(before);
      RankedFacts(Linux, before);
      UntestedRanksFirst(Linux, before, before[k]);
      EveryProtocolIsCovered(ranked, limit, 0);
      var top := ranked[0];
      assert Pick(ranked, limit)[0] == top && top in ranked;
      assert top.node.id in tested;
      var i :| 0 <= i < |before| && before[i] == top.node;
      assert before[i].id in tested && Eligible(before[i]) && Untested(before[i]);
    }
  }

  lemma BenchedIds(before: seq<Node>, after: seq<Node>, tested: set<string>)
    requires Benched(before, after, tested)
    ensures Ids(after) == Ids(before)
  {
    forall k | 0 <= k < |before| ensures after[k].id == before[k].id {
    }
  }

  /** `pools` are the pools before and after each batch. */
  ghost predicate Batches(pools: seq<seq<Node>>, limits: seq<nat>) {
    && |pools| == |limits| + 1
    && forall i | 0 <= i < |limits| :: limits[i] >= 1 && BatchStep(pools[i], pools[i + 1], limits[i])
  }

  lemma {:induction false} BatchesKeepIds(pools: seq<seq<Node>>, limits: seq<nat>, i: nat)
    requires Batches(pools, limits) && i < |pools|
    ensures Ids(pools[i]) == Ids(pools[0])
  {
    if i > 0 {
      BatchesKeepIds(pools, limits, i - 1);
      BenchedIds(pools[i - 1], pools[i - 1 + 1], PickedIds(Pick(Ranked(Linux, pools[i - 1]), limits[i - 1])));
    }
  }

  lemma {:induction false} CountsReachZero(counts: seq<nat>, i: nat)
    requires i < |counts|
    requires forall j | 0 <= j < |counts| - 1 :: counts[j + 1] < counts[j] || counts[j + 1] == counts[j] == 0
    ensures counts[i] == 0 || counts[i] + i <= counts[0]
  {
    if i > 0 {
      CountsReachZero(counts, i - 1);
      assert counts[i - 1 + 1] == counts[i];
    }
  }

  lemma BatchCounts(pools: seq<seq<Node>>, limits: seq<nat>, j: nat)
    requires Batches(pools, limits) && Distinct(Ids(pools[0])) && j < |limits|
    ensures Remaining(pools[j + 1]) < Remaining(pools[j]) || Remaining(pools[j + 1]) == Remaining(pools[j]) == 0
  {
    BatchesKeepIds(pools, limits, j);
    BatchProgress(pools[j], pools[j + 1], limits[j]);
  }

  /** Repeated batches of any sizes leave nothing untested, after at most as
      many batches as there were untested nodes. */
  lemma BatchesReachZero(pools: seq<seq<Node>>, limits: seq<nat>)
    requires Batches(pools, limits) && Distinct(Ids(pools[0]))
    requires |limits| >= Remaining(pools[0])
    ensures Remaining(pools[|limits|]) == 0
  {
    var counts := seq(|pools|, i requires 0 <= i < |pools| => Remaining(pools[i]));
    forall j | 0 <= j < |counts| - 1 ensures counts[j + 1] < counts[j] || counts[j + 1] == counts[j] == 0 {
      BatchCounts(pools, limits, j);
    }
    CountsReachZero(counts, |limits|);
  }

  // ----- the program's loops -----

  predicate Screened(nodes: seq<Node>) {
    exists k | 0 <= k < |nodes| :: nodes[k].proofs.endpoint.Some?
  }

  /** One endpoint result per node, and nothing else, is new. */
  predicate Probed(before: seq<Node>, after: seq<Node>) {
    && |after| == |before|
    && forall k | 0 <= k < |before| ::
         && after[k].proofs.endpoint.Some?
         && after[k] == before[k].(proofs := before[k].proofs.(endpoint := after[k].proofs.endpoint))
  }

  /** `node_test_all`: every node gets a fresh endpoint result. */
  method TestAll(s: Store)
    requires s.Valid()
    modifies s`nodes
    ensures s.Valid() && Ids(s.nodes) == Ids(old(s.nodes))
    ensures Probed(old(s.nodes), s.nodes)
  {
    var i := 0;
    while i < |s.nodes|
      invariant i <= |s.nodes| == |old(s.nodes)| && s.Valid() && Ids(s.nodes) == Ids(old(s.nodes))
      invariant forall k | 0 <= k < i ::
                  && s.nodes[k].proofs.endpoint.Some?
                  && s.nodes[k] == old(s.nodes)[k].(proofs := old(s.nodes)[k].proofs.(endpoint := s.nodes[k].proofs.endpoint))
      invariant forall k | i <= k < |s.nodes| :: s.nodes[k] == old(s.nodes)[k]
    {
      var probe: Endpoint := *;
      var n := s.nodes[i];
      assert n in s.nodes;
      s.UpdateKeeps(i, n.(proofs := n.proofs.(endpoint := Some(probe))));
      ghost var was := s.nodes;
      s.nodes := s.nodes[i := n.(proofs := n.proofs.(endpoint := Some(probe)))];
      assert Ids(s.nodes) == Ids(was);
      i := i + 1;
    }
  }

  lemma BenchedNext(before: seq<Node>, mid: seq<Node>, after: seq<Node>, tested: set<string>, id: string)
    requires Benched(before, mid, tested) && id !in tested && |after| == |mid|
    requires forall k | 0 <= k < |mid| ::
               if mid[k].id == id then Measured(mid[k], after[k]) else after[k] == mid[k]
    ensures Benched(before, after, tested + {id})
  {
    forall k | 0 <= k < |before|
      ensures if before[k].id in tested + {id} then Measured(before[k], after[k]) else after[k] == before[k]
    {
      assert mid[k].id == before[k].id;
    }
  }

  /** Measuring and recording one picked node. */
  method MeasureOne(s: Store, picked: seq<Row>, i: nat, ghost before: seq<Node>) returns (passed: bool)
    requires s.Valid() && DistinctNodes(picked) && i < |picked|
    requires Benched(before, s.nodes, PickedIds(picked[..i]))
    modifies s`nodes
    ensures s.Valid() && Benched(before, s.nodes, PickedIds(picked[..i + 1]))
  {
    var id := picked[i].node.id;
    var p: Performance := *;
    ghost var mid := s.nodes;
    s.RecordPerformance(id, p);
    assert id !in PickedIds(picked[..i]);
    BenchedNext(before, mid, s.nodes, PickedIds(picked[..i]), id);
    AppendRow(picked[..i], picked[i]);
    assert picked[..i] + [picked[i]] == picked[..i + 1];
    passed := p.ok;
  }

  /** Connect to and measure each picked node in turn; either outcome is stored.
      Connecting, measuring and stopping may also raise, which ends the loop with
      the nodes before it, or that one too, recorded; `io` says that none does. */
  method MeasureAll(s: Store, picked: seq<Row>, io: bool) returns (results: seq<(string, bool)>, raised: bool)
    requires s.Valid() && DistinctNodes(picked)
    modifies s
    ensures s.Valid() && (io ==> !raised)
    ensures !raised ==> Benched(old(s.nodes), s.nodes, PickedIds(picked)) && |results| == |picked|
    ensures |results| <= |picked| && Benched(old(s.nodes), s.nodes, PickedIds(picked[..|results|]))
    ensures forall j | 0 <= j < |results| :: results[j].0 == picked[j].node.id
  {
    results, raised := [], false;
    assert PickedIds(picked[..0]) == {};
    while |results| < |picked| && !raised
      invariant |results| <= |picked| && s.Valid() && (io ==> !raised)
      invariant Benched(old(s.nodes), s.nodes, PickedIds(picked[..|results|]))
      invariant forall j | 0 <= j < |results| :: results[j].0 == picked[j].node.id
      decreases |picked| - |results|, !raised
    {
      var i, id := |results|, picked[|results|].node.id;
      var _ := s.Select(id);
      raised := *;                               // connecting or measuring
      raised := raised && !io;
      if !raised {
        var passed := MeasureOne(s, picked, i, old(s.nodes));
        results := results + [(id, passed)];
        raised := *;                             // stopping
        raised := raised && !io;
      }
    }
    assert |results| == |picked| ==> picked[..|results|] == picked;
  }

  lemma EmptyStep(limit: nat)
    ensures BatchStep([], [], limit)
  {
    assert Ranked(Linux, []) == [];
  }

  /** A batch that raised: a front part of its nodes has been tested. */
  ghost predicate CutShort(before: seq<Node>, after: seq<Node>, limit: nat) {
    var picked := Pick(Ranked(Linux, before), limit);
    exists k :: 0 <= k <= |picked| && Benched(before, after, PickedIds(picked[..k]))
  }

  /** `screened` is the pool the batch picks from: the stored one, or the stored
      one with every endpoint probed when none had been. A batch may raise; the
      selection is put back all the same, unless stopping the node raises too. */
  method Batch(s: Store, limit: nat, io: bool)
    returns (results: seq<(string, bool)>, remaining: nat, raised: bool, stopped: bool, ghost screened: seq<Node>)
    requires s.Valid() && limit >= 1
    modifies s
    ensures s.Valid() && Ids(s.nodes) == Ids(old(s.nodes)) && (io ==> !raised)
    ensures if Screened(old(s.nodes)) then screened == old(s.nodes) else Probed(old(s.nodes), screened)
    ensures !raised ==> stopped && BatchStep(screened, s.nodes, limit) && remaining == Remaining(s.nodes)
    ensures raised ==> CutShort(screened, s.nodes, limit) && results == []
    ensures |results| <= limit
    ensures !raised && results == [] ==> remaining == 0
    ensures forall i | 0 <= i < |results| :: IsTested(s.nodes, results[i].0)
    ensures stopped && old(s.selected) != "" ==> s.selected == old(s.selected)
  {
    if s.nodes == [] {
      EmptyStep(limit);
      return [], 0, false, true, [];
    }
    if !Screened(s.nodes) {
      TestAll(s);
    }
    screened := s.nodes;
    var ranked := Ranked(Linux, s.nodes);
    RankedFacts(Linux, s.nodes);
    var picked := PickRows(ranked, limit);
    PickerGuarantees(ranked, limit);
    var original := s.selected;
    results, raised := MeasureAll(s, picked, io);
    BenchedIds(screened, s.nodes, PickedIds(picked[..|results|]));
    if !raised {
      BatchResults(screened, s.nodes, picked, results);
    }
    stopped := *;                                // the `finally` block
    stopped := stopped || io;
    raised := raised || !stopped;
    if stopped && original != "" {
      var _ := s.Select(original);
    }
    if raised {
      return [], 0, raised, stopped, screened;
    }
    remaining := Remaining(s.nodes);
    if results == [] {
      NothingEligible(screened);
      RemainingAtMost(screened, s.nodes, PickedIds(picked));
    }
  }

  predicate IsTested(nodes: seq<Node>, id: string) {
    exists k | 0 <= k < |nodes| :: nodes[k].id == id && !Untested(nodes[k])
  }

  lemma BatchResults(before: seq<Node>, after: seq<Node>, picked: seq<Row>, results: seq<(string, bool)>)
    requires Benched(before, after, PickedIds(picked)) && |results| == |picked|
    requires forall r | r in picked :: r.node in before
    requires forall j | 0 <= j < |picked| :: results[j].0 == picked[j].node.id
    ensures forall i | 0 <= i < |results| :: IsTested(after, results[i].0)
  {
    forall i | 0 <= i < |results| ensures IsTested(after, results[i].0) {
      assert picked[i] in picked && picked[i].node.id in PickedIds(picked);
      var k :| 0 <= k < |before| && before[k] == picked[i].node;
      assert before[k].id in PickedIds(picked);
      assert Measured(before[k], after[k]);
      assert after[k].id == results[i].0 && !Untested(after[k]);
    }
  }

  lemma NothingEligible(nodes: seq<Node>)
    requires Distinct(Ids(nodes)) && Ranked(Linux, nodes) == []
    ensures Remaining(nodes) == 0
  {
    if Remaining(nodes) > 0 {
      var k := RemainingWitness(nodes);
      UntestedRanksFirst(Linux, nodes, nodes[k]);
    }
  }

  function BestKey(n: Node): seq<int>
    requires Winner(n)
  {
    var p := n.proofs.performance.value;
    [p.ping, -p.download, -p.upload]
  }

  /** Lowest ping, then highest download, then highest upload; the first such. */
  method Best(nodes: seq<Node>) returns (best: Option<Node>)
    ensures best.None? <==> Winners(nodes) == 0
    ensures best.Some? ==> best.value in nodes && Winner(best.value)
    ensures best.Some? ==> forall n | n in nodes && Winner(n) :: KeyLe(BestKey(best.value), BestKey(n))
  {
    best := None;
    for i := 0 to |nodes|
      invariant best.None? <==> Winners(nodes[..i]) == 0
      invariant best.Some? ==> best.value in nodes[..i] && Winner(best.value)
      invariant best.Some? ==> forall n | n in nodes[..i] && Winner(n) :: KeyLe(BestKey(best.value), BestKey(n))
    {
      var n := nodes[i];
      assert nodes[..i + 1][..i] == nodes[..i] && nodes[..i + 1] == nodes[..i] + [n];
      if Winner(n) && (best.None? || !KeyLe(BestKey(best.value), BestKey(n))) {
        if best.Some? {
          forall m | m in nodes[..i] && Winner(m) ensures KeyLe(BestKey(n), BestKey(m)) {
            KeyLeTotal(BestKey(best.value), BestKey(n));
            KeyLeChain(BestKey(n), BestKey(best.value), BestKey(m));
          }
        } else {
          NoWinner(nodes[..i]);
        }
        KeyLeTotal(BestKey(n), BestKey(n));
        best := Some(n);
      }
    }
    assert nodes[..|nodes|] == nodes;
  }

  lemma {:induction false} NoWinner(nodes: seq<Node>)
    requires Winners(nodes) == 0
    ensures forall n | n in nodes :: !Winner(n)
  {
    if nodes != [] {
      var k := |nodes| - 1;
      NoWinner(nodes[..k]);
      assert nodes == nodes[..k] + [nodes[k]];
    }
  }

  lemma {:induction false} KeyLeChain(a: seq<int>, b: seq<int>, c: seq<int>)
    requires KeyLe(a, b) && KeyLe(b, c)
    ensures KeyLe(a, c)
  {
    if a != [] && a[0] == b[0] && b[0] == c[0] {
      KeyLeChain(a[1..], b[1..], c[1..]);
    }
  }

  function Clamp(x: int, low: int, high: int): int {
    if x < low then low else if x > high then high else x
  }

  /** Terminates, tests at most `maxCandidates` (at most 24) nodes, and stops
      only for a reason: the limit, enough winners, or nothing left to test. */
  method BenchmarkBest(s: Store, maxCandidates: int, targetPasses: int, batchSize: int, io: bool)
    returns (aggregate: seq<(string, bool)>, best: Option<Node>, raised: bool, stopped: bool)
    requires s.Valid()
    modifies s
    ensures s.Valid() && Ids(s.nodes) == Ids(old(s.nodes)) && (io ==> !raised)
    ensures |aggregate| <= Clamp(maxCandidates, 4, 24)
    ensures !raised ==>
              || |aggregate| == Clamp(maxCandidates, 4, 24)
              || Winners(s.nodes) >= Clamp(targetPasses, 1, 6)
              || Remaining(s.nodes) == 0
    ensures !raised ==> stopped && (best.Some? <==> Winners(s.nodes) > 0)
    ensures best.Some? ==> best.value in s.nodes && forall n | n in s.nodes && Winner(n) ::
              Winner(best.value) && KeyLe(BestKey(best.value), BestKey(n))
    ensures stopped && old(s.selected) != "" ==> s.selected == old(s.selected)
  {
    var limit, target, size := Clamp(maxCandidates, 4, 24), Clamp(targetPasses, 1, 6), Clamp(batchSize, 1, 4);
    aggregate, best, raised, stopped := [], None, false, true;
    var first, done := true, false;
    while |aggregate| < limit && !done
      invariant |aggregate| <= limit && s.Valid() && Ids(s.nodes) == Ids(old(s.nodes))
      invariant done ==> Winners(s.nodes) >= target || Remaining(s.nodes) == 0
      invariant stopped && !raised && (old(s.selected) != "" ==> s.selected == old(s.selected))
      decreases limit - |aggregate|, !done
    {
      if !first && Winners(s.nodes) >= target {
        done := true;
      } else {
        first := false;
        var results, remaining;
        ghost var screened;
        results, remaining, raised, stopped, screened := Batch(s, Min(size, limit - |aggregate|), io);
        if raised {
          return;
        }
        aggregate := aggregate + results;
        done := results == [] || remaining == 0;
      }
    }
    best := Best(s.nodes);
  }
}
