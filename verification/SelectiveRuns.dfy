/** Whole runs of the Windows transaction: any number of enables and disables,
    each finished or killed at any moment, with arbitrary registry writes by
    other programs in between. */
module SelectiveRuns {
  import opened Prelude
  import opened SelectiveWindows

  datatype Event =
    | Outside(image: Image)                    // other programs leave this image
    | Refuses                                  // a call that changes nothing
    | Enables(e: Entry)                        // returned, or killed at any moment
    | Disables(r: DisableResult, passed: seq<Moment>)
    | DisableKilled

  ghost predicate Next(m: Moment, ev: Event, m': Moment) {
    match ev
    case Outside(image) => m' == m.(world := m.world.(registry := image))
    case Refuses => m' == m
    case Enables(e) => e.start == m && EntryFits(e) && EnableMoment(e, m', false)
    case Disables(r, passed) => DisableOutcome(m, r, m', passed)
    case DisableKilled =>
      (BranchOf(m.world).CleanUp? || BranchOf(m.world).RestoreBaseline?) && DisableMoment(m, m')
  }

  /** A run starts with no policy file. */
  ghost predicate Run(ms: seq<Moment>, evs: seq<Event>) {
    && |ms| == |evs| + 1
    && ms[0].world.policy == None && ms[0].baseline == None && ms[0].committed == {}
    && forall i | 0 <= i < |evs| :: Next(ms[i], evs[i], ms[i + 1])
  }

  predicate InStreak(w: World) {
    Loaded(w).enabled || Loaded(w).inFlight
  }

  /** Each moment an enable passes through, and the one it ends in, is a step
      of `Next`: killing it anywhere gives a run of this module. */
  lemma EnableOutcomeIsStep(e: Entry, r: EnableResult, after: Moment, passed: seq<Moment>)
    requires EntryFits(e) && (r.Enabled? || r.Raised?) && EnableOutcome(e, r, after, passed)
    ensures Next(e.start, Enables(e), after)
    ensures forall i | 0 <= i < |passed| :: Next(e.start, Enables(e), passed[i])
  {
    forall i | 0 <= i < |passed| ensures EnableMoment(e, passed[i], false) {
      assert EnableMoment(e, passed[i], if r.Raised? then r.clean else true);
    }
  }

  lemma DisableOutcomeIsStep(start: Moment, r: DisableResult, after: Moment, passed: seq<Moment>)
    requires DisableOutcome(start, r, after, passed)
    ensures Next(start, Disables(r, passed), after)
    ensures forall i | 0 <= i < |passed| :: Next(start, DisableKilled, passed[i])
  {
  }

  lemma StepKeepsSound(m: Moment, ev: Event, m': Moment)
    requires Sound(m) && Next(m, ev, m')
    ensures Sound(m')
  {
  }

  lemma {:induction false} RunIsSound(ms: seq<Moment>, evs: seq<Event>, k: nat)
    requires Run(ms, evs) && k < |ms|
    ensures Sound(ms[k])
  {
    if k > 0 {
      RunIsSound(ms, evs, k - 1);
      StepKeepsSound(ms[k - 1], evs[k - 1], ms[k]);
    }
  }

  lemma StepKeepsBaseline(m: Moment, ev: Event, m': Moment)
    requires Sound(m) && Next(m, ev, m') && InStreak(m.world) && InStreak(m'.world)
    ensures m'.baseline == m.baseline
  {
  }

  lemma FirstEnableSetsBaseline(m: Moment, ev: Event, m': Moment)
    requires Sound(m) && Next(m, ev, m') && !InStreak(m.world) && InStreak(m'.world)
    ensures m'.baseline == Some(m.world.registry)
  {
  }

  /** A streak: off at `first`, on at every later moment up to `last`. */
  predicate Streak(ms: seq<Moment>, first: nat, last: nat) {
    && first < last < |ms| && !InStreak(ms[first].world)
    && forall j | first < j <= last :: InStreak(ms[j].world)
  }

  /** However many re-enables, failures, kills and outside writes a streak
      contains, the saved image stays the one its first enable found. */
  lemma {:induction false} SavedImageIsTheFirst(ms: seq<Moment>, evs: seq<Event>, first: nat, last: nat)
    requires Run(ms, evs) && Streak(ms, first, last)
    ensures Loaded(ms[last].world).previous == Some(ms[first].world.registry)
    decreases last
  {
    RunIsSound(ms, evs, last);
    RunIsSound(ms, evs, last - 1);
    if last == first + 1 {
      FirstEnableSetsBaseline(ms[first], evs[first], ms[last]);
    } else {
      SavedImageIsTheFirst(ms, evs, first, last - 1);
      StepKeepsBaseline(ms[last - 1], evs[last - 1], ms[last]);
    }
  }

  /** A disable that reports `restored` leaves exactly the two values the first
      enable of the streak found, and that image was not this program's own. */
  lemma RestoredIsTheFirstImage(ms: seq<Moment>, evs: seq<Event>, first: nat, last: nat)
    requires Run(ms, evs) && Streak(ms, first, last)
    requires last < |evs| && evs[last].Disables? && evs[last].r.Restored?
    ensures ms[last + 1].world.registry == ms[first].world.registry
    ensures !OwnUrl(ms[last + 1].world.registry.auto) && !InStreak(ms[last + 1].world)
  {
    SavedImageIsTheFirst(ms, evs, first, last);
    RunIsSound(ms, evs, last);
    assert DisableOutcome(ms[last], evs[last].r, ms[last + 1], evs[last].passed);
  }

  /** Every `restored` in a run ends some streak. */
  lemma {:induction false} StreakBegins(ms: seq<Moment>, evs: seq<Event>, k: nat) returns (first: nat)
    requires Run(ms, evs) && k < |ms| && InStreak(ms[k].world)
    ensures Streak(ms, first, k)
  {
    if !InStreak(ms[k - 1].world) {
      first := k - 1;
    } else {
      first := StreakBegins(ms, evs, k - 1);
    }
  }

  lemma {:induction false} CommittedWasAsked(ms: seq<Moment>, evs: seq<Event>, k: nat, route: Route) returns (i: nat)
    requires Run(ms, evs) && k < |ms| && route in ms[k].committed
    ensures i < k && evs[i].Enables? && evs[i].e.route == route && Committed(evs[i].e, ms[i + 1])
  {
    assert Next(ms[k - 1], evs[k - 1], ms[k]);
    if route in ms[k - 1].committed {
      i := CommittedWasAsked(ms, evs, k - 1, route);
    } else {
      i := k - 1;
    }
  }

  /** The bridge never serves a mixture: at every moment of every run, domains,
      proxy host, port and method are those of one enable that reached its
      final write, all four together. */
  lemma ServedRouteWasCommittedWhole(ms: seq<Moment>, evs: seq<Event>, k: nat) returns (i: nat)
    requires Run(ms, evs) && k < |ms| && Served(ms[k].world).Some?
    ensures i < k && evs[i].Enables? && Served(ms[k].world) == Some(evs[i].e.route)
    ensures Committed(evs[i].e, ms[i + 1]) && Served(ms[i + 1].world) == Some(evs[i].e.route)
  {
    RunIsSound(ms, evs, k);
    i := CommittedWasAsked(ms, evs, k, Served(ms[k].world).value);
  }

  // ----- recovery after a kill -----

  /** One of the two values is this call's and the image is neither end. */
  predicate Mixed(e: Entry, i: Image) {
    i != e.start.world.registry && i != Active(e.url)
  }

  /** A first enable killed at any moment (or ended, with a clean rollback),
      then a disable with no outside write between: the branch it takes. It
      refuses for drift exactly on a mixed image, which needs an original
      ProxyEnable other than (0, REG_DWORD). */
  lemma KilledFirstEnableRecovers(e: Entry, m: Moment)
    requires EntryFits(e) && !Loaded(e.start.world).enabled && EnableMoment(e, m, true)
    ensures BranchOf(m.world).DriftRefusal? <==> InFlight(e, m) && Mixed(e, m.world.registry)
    ensures Mixed(e, m.world.registry) ==> e.start.world.registry.proxyEnable != DIRECT_OFF
    ensures BranchOf(m.world).AlreadyDisabled? || BranchOf(m.world).CleanUp? ==>
              m.world.registry == e.start.world.registry
    ensures BranchOf(m.world).RestoreBaseline? ==> Loaded(m.world).previous == Some(e.start.world.registry)
    ensures !BranchOf(m.world).Unsupported?
  {
  }

  /** How that disable ends: with the original image when it reports success,
      with everything as found when it refuses, and it refuses exactly on a
      mixed image; cut short by a failing write, it lies between the two. */
  lemma KilledFirstEnableEnds(e: Entry, m: Moment, r: DisableResult, after: Moment, passed: seq<Moment>)
    requires EntryFits(e) && !Loaded(e.start.world).enabled && EnableMoment(e, m, true)
    requires DisableOutcome(m, r, after, passed)
    ensures r.Off? || r.Restored? ==> after.world.registry == e.start.world.registry && !InStreak(after.world)
    ensures r.ProxyDrift? ==> after == m && passed == []
    ensures r.ProxyDrift? <==> InFlight(e, m) && Mixed(e, m.world.registry)
    ensures !r.SnapshotFailed?
    ensures r.RestoreIncomplete? || r.ServerStillActive? || r.WriteRaised? ==>
              RegistryBetween(m.world.registry, e.start.world.registry, after.world.registry)
  {
    KilledFirstEnableRecovers(e, m);
  }

  /** The mixed image: every enable passes through this moment once its first
      registry write has succeeded, so a kill there leaves it. */
  lemma MixedImageOccurs(e: Entry)
    requires EntryFits(e) && !Loaded(e.start.world).enabled
    ensures EnableMoment(e, MixedMoment(e), true) && InFlight(e, MixedMoment(e))
    ensures Mixed(e, MixedMoment(e).world.registry) <==> e.start.world.registry.proxyEnable != DIRECT_OFF
  {
  }

  // ----- states no call of this program leaves -----

  /** Disable does nothing and enable refuses. */
  predicate Stuck(w: World) {
    Admission(w).Some? && (BranchOf(w).AlreadyDisabled? || BranchOf(w).DriftRefusal? || BranchOf(w).Unsupported?)
  }

  /** However many calls follow, killed or not: until something outside writes
      the settings, a stuck machine stays as it is, the bridge with it. */
  lemma {:induction false} StuckForever(ms: seq<Moment>, evs: seq<Event>)
    requires |ms| == |evs| + 1 && (forall i | 0 <= i < |evs| :: Next(ms[i], evs[i], ms[i + 1]) && !evs[i].Outside?)
    requires Stuck(ms[0].world)
    ensures ms[|evs|] == ms[0]
    decreases |evs|
  {
    if evs != [] {
      StepOfStuck(ms[0], evs[0], ms[1]);
      StuckForever(ms[1..], evs[1..]);
    }
  }

  lemma StepOfStuck(m: Moment, ev: Event, m': Moment)
    requires Stuck(m.world) && Next(m, ev, m') && !ev.Outside?
    ensures m' == m
  {
  }

  /** A disable cut short before it stored its record leaves the machine stuck
      exactly when the settings have left this program's image, unless the
      record was in flight and the saved image is back in full. */
  lemma CutShortDisableIsStuck(start: Moment, m: Moment)
    requires Sound(start) && BranchOf(start.world).RestoreBaseline? && DisableMoment(start, m)
    ensures BranchOf(m.world).AlreadyDisabled? <==> m.baseline == None
    ensures m.baseline.Some? ==>
              (Stuck(m.world) <==>
                && m.world.registry != start.world.registry
                && (Loaded(start.world).inFlight ==> Some(m.world.registry) != Loaded(start.world).previous))
  {
  }

  /** The smallest such case: everything restored, only the record unwritten,
      a moment every successful disable of this kind passes through. Killed
      there, the bridge goes on serving, and no number of calls of this program ends it. */
  lemma RestoredButUnrecorded(start: Moment, ms: seq<Moment>, evs: seq<Event>)
    requires Sound(start) && BranchOf(start.world).RestoreBaseline? && !Loaded(start.world).inFlight
    requires |ms| == |evs| + 1 && (forall i | 0 <= i < |evs| :: Next(ms[i], evs[i], ms[i + 1]) && !evs[i].Outside?)
    requires ms[0] == UnrecordedMoment(start)
    ensures DisableMoment(start, ms[0]) && Served(ms[|evs|].world).Some?
    ensures BranchOf(ms[|evs|].world).DriftRefusal? && Admission(ms[|evs|].world) == Some(Drift)
  {
    StuckForever(ms, evs);
  }

  /** What an enable whose rollback failed leaves once the old record is back:
      after a first enable, disable answers that all is off, although the
      settings are not those at entry exactly when a restoring write is missing;
      and the machine is stuck exactly when this program's URL is still there.
      After a re-enable it is stuck exactly when the settings differ at all. */
  lemma FailedRollbackLeaves(e: Entry, m: Moment)
    requires EntryFits(e) && Idle(e, m, false)
    ensures !Loaded(e.start.world).enabled ==>
              && BranchOf(m.world).AlreadyDisabled?
              && (Stuck(m.world) <==> m.world.registry.auto == AutoValue(e.url))
              && (Stuck(m.world) ==> Admission(m.world) == Some(ForeignOrOrphanPac))
    ensures Loaded(e.start.world).enabled ==>
              && (Stuck(m.world) <==> m.world.registry != e.start.world.registry)
              && (Stuck(m.world) ==> Admission(m.world) == Some(Drift))
  {
  }

  /** Where a rollback ends that could not restore the URL and put the files and
      the record back: disable answers for ever that all is off. */
  lemma OrphanStays(e: Entry, ms: seq<Moment>, evs: seq<Event>)
    requires EntryFits(e) && !Loaded(e.start.world).enabled
    requires |ms| == |evs| + 1 && (forall i | 0 <= i < |evs| :: Next(ms[i], evs[i], ms[i + 1]) && !evs[i].Outside?)
    requires FilesBack(e, ms[0]) && ms[0].world.registry.auto == AutoValue(e.url)
    ensures Next(e.start, Enables(e), ms[0]) && BranchOf(ms[|evs|].world).AlreadyDisabled?
    ensures ms[|evs|].world.registry.auto == AutoValue(e.url) && e.start.world.registry.auto != AutoValue(e.url)
  {
    FailedRollbackLeaves(e, ms[0]);
    StuckForever(ms, evs);
  }
}
