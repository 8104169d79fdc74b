/** Runs of the quarantine tool: any number of applies and restores, each
    finished, refused, failed, or killed after any of its writes. */
module QuarantineRuns {
  import opened Prelude
  import opened Quarantine

  // ----- one run of the tool -----

  /** A module keeps its bytes and its one place whatever part has been moved. */
  lemma MovedKeeps(way: Way, d: Disk, ns: seq<string>)
    requires d.store.Ready? && Accepted(d) && Movable(way, d, ns)
    ensures Kept(d, Moved(way, d, ns))
  {
    var m := Moved(way, d, ns);
    assert forall n | n in ORPHANS :: n in m.live || n in m.held <==> n in d.live || n in d.held;
    forall n | n in m.live && n !in ORPHANS ensures n in d.live && n !in ns {
    }
    assert m.live - Names(ORPHANS) == d.live - Names(ORPHANS);
  }

  lemma PartMovedKeeps(way: Way, d: Disk, ns: seq<string>, m: Disk)
    requires d.store.Ready? && Accepted(d) && Movable(way, d, ns) && PartMoved(way, d, ns, m)
    ensures Kept(d, m)
  {
    var k :| 0 <= k <= |ns| && m == Moved(way, d, ns[..k]);
    forall n | n in ns[..k] ensures n in ns {
    }
    MovedKeeps(way, d, ns[..k]);
  }

  lemma ReceiptKeeps(d: Disk)
    requires Accepted(d) && Real(d)
    ensures Accepted(Receipted(d)) && Present(Receipted(d)) == Present(d)
  {
    if d.store.NoStore? {
      assert d.held.Keys == {};
    }
  }

  /** Wherever an apply or restore is stopped: with the receipt in place the
      disk is one the tool accepts, holding the same modules, each intact and in
      one place; without it no file has moved. */
  lemma MomentIsSound(d: Disk, m: Disk)
    requires Real(d) && (ApplyMoment(d, m) || RestoreMoment(d, m))
    ensures Kept(d, m) || (d.store.NoStore? && m == d.(store := Bare))
  {
    ReceiptKeeps(d);
    OutMovable(d);
    InMovable(d);
    if RestoreMoment(d, m) {
      PartMovedKeeps(In, d, Those(ORPHANS, d.held), m);
    } else if !(d.store.NoStore? && m == d.(store := Bare)) {
      PartMovedKeeps(Out, Receipted(d), Those(ORPHANS, d.live), m);
    }
  }

  // ----- where completed actions lead -----

  function Intact(names: set<string>): map<string, Entry> {
    map n | n in names :: Pinned
  }

  /** Taking every orphan out of a place. */
  lemma AllTaken(place: map<string, Entry>)
    ensures Taken(place, Those(ORPHANS, place)) == place - Names(ORPHANS)
  {
  }

  /** Giving every orphan of one place to the other. */
  lemma AllGiven(source: map<string, Entry>, target: map<string, Entry>)
    requires forall n | n in ORPHANS ::
      && (n in source ==> source[n].Pinned? && n !in target)
      && (n in target ==> target[n].Pinned?)
    ensures Given(source, target, Those(ORPHANS, source))
         == (target - Names(ORPHANS)) + Intact(set n | n in ORPHANS && (n in source || n in target))
  {
  }

  lemma OnlyOrphansHeld(d: Disk)
    requires Accepted(d) && Real(d)
    ensures d.held - Names(ORPHANS) == map[]
  {
  }

  /** A completed restore puts every module into the application... */
  lemma RestoredDisk(d: Disk)
    requires Accepted(d) && d.store.Ready?
    ensures Moved(In, d, Those(ORPHANS, d.held))
         == Disk(Ready, (d.live - Names(ORPHANS)) + Intact(Present(d)), map[])
  {
    AllTaken(d.held);
    AllGiven(d.held, d.live);
    OnlyOrphansHeld(d);
    assert Present(d) == set n | n in ORPHANS && (n in d.held || n in d.live);
  }

  /** ...and a completed apply all of them into the quarantine. */
  lemma QuarantinedDisk(d: Disk)
    requires Accepted(d) && Real(d)
    ensures Moved(Out, Receipted(d), Those(ORPHANS, d.live))
         == Disk(Ready, d.live - Names(ORPHANS), Intact(Present(d)))
  {
    AllTaken(d.live);
    AllGiven(d.live, d.held);
    OnlyOrphansHeld(d);
    assert map[] + Intact(Present(d)) == Intact(Present(d));
  }

  lemma QuarantinedIsAccepted(d: Disk)
    ensures
      var q := Disk(Ready, d.live - Names(ORPHANS), Intact(Present(d)));
      && Accepted(q) && Present(q) == Present(d) && AllQuarantined(q) && q.live - Names(ORPHANS) == q.live
  {
  }

  lemma OrphansBack(d: Disk)
    requires Accepted(d) && d.held == map[]
    ensures (d.live - Names(ORPHANS)) + Intact(Present(d)) == d.live
  {
  }

  /** Apply, then restore, is the identity on placement exactly when nothing was
      quarantined before. */
  lemma ApplyThenRestore(d: Disk)
    requires Accepted(d) && Real(d)
    ensures
      var q := Moved(Out, Receipted(d), Those(ORPHANS, d.live));
      var r := Moved(In, q, Those(ORPHANS, q.held));
      && AllQuarantined(q) && AllLive(r) && (r.live == d.live && r.held == d.held <==> d.held == map[])
  {
    QuarantinedDisk(d);
    QuarantinedIsAccepted(d);
    RestoredDisk(Disk(Ready, d.live - Names(ORPHANS), Intact(Present(d))));
    if d.held == map[] {
      OrphansBack(d);
    }
  }

  /** However far interrupted runs have got, also from a first apply that found
      no store: restoring from there gives the very disk that restoring at the
      start would have given (with the receipt in place); so does applying. */
  lemma InterruptionsConverge(d: Disk, m: Disk)
    requires Accepted(d) && Real(d) && Kept(d, m)
    ensures Moved(In, m, Those(ORPHANS, m.held)) == Moved(In, Receipted(d), Those(ORPHANS, d.held))
    ensures Moved(Out, m, Those(ORPHANS, m.live)) == Moved(Out, Receipted(d), Those(ORPHANS, d.live))
  {
    ReceiptKeeps(d);
    RestoredDisk(Receipted(d));
    RestoredDisk(m);
    QuarantinedDisk(d);
    QuarantinedDisk(m);
  }

  // ----- any run -----

  /** One invocation: it changes nothing, or leaves one of its moments. */
  ghost predicate Step(d: Disk, t: Disk) {
    t == d || ApplyMoment(d, t) || RestoreMoment(d, t)
  }

  ghost predicate Run(run: seq<Disk>) {
    |run| > 0 && Real(run[0]) && forall i | 0 <= i < |run| - 1 :: Step(run[i], run[i + 1])
  }

  /** Not yet begun, stopped before the receipt, or keeping everything. */
  predicate Sound(d: Disk, t: Disk) {
    t == d || (d.store.NoStore? && t == d.(store := Bare)) || Kept(d, t)
  }

  lemma StepIsSound(d: Disk, s: Disk, t: Disk)
    requires Real(d) && Accepted(d) && Sound(d, s) && Step(s, t)
    ensures Sound(d, t)
  {
    if t != s {
      assert Real(s);
      MomentIsSound(s, t);
    }
  }

  /** Every state of every run from an accepted disk. */
  lemma {:induction false} RunIsSound(run: seq<Disk>, i: nat)
    requires Run(run) && Accepted(run[0]) && i < |run|
    ensures Sound(run[0], run[i])
  {
    if i > 0 {
      RunIsSound(run, i - 1);
      assert Step(run[i - 1], run[i - 1 + 1]);
      StepIsSound(run[0], run[i - 1], run[i]);
    }
  }

  /** The tool accepts what a run has left exactly when that run was not stopped
      between making the directory and its receipt. */
  lemma AcceptedUnlessBare(run: seq<Disk>, i: nat)
    requires Run(run) && Accepted(run[0]) && i < |run|
    ensures Accepted(run[i]) <==> !run[i].store.Bare?
  {
    RunIsSound(run, i);
  }

  /** A directory without a receipt is refused for good: no later invocation,
      apply or restore, changes anything. */
  lemma {:induction false} BareForever(run: seq<Disk>, i: nat, j: nat)
    requires Run(run) && i <= j < |run| && run[i].store.Bare?
    ensures run[j] == run[i]
    ensures forall idle :: Refusal(true, idle, run[j]) == Some(ReceiptMissing)
    decreases j
  {
    if j > i {
      BareForever(run, i, j - 1);
      assert Step(run[j - 1], run[j - 1 + 1]);
    }
  }
}
