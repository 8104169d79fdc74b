/** Moving two modules left over from a newer release out of an installed older
    one, and back: a receipted quarantine directory, moves that may fail or be
    cut short, and rollback in reverse order. */
module Quarantine {
  import opened Prelude

  const ORPHANS: seq<string> := ["selective_tunnel.py", "tailnet_cfon_gateway.py"]

  /** A directory entry: the owner's file with the expected SHA-256, or not. */
  datatype Entry = Pinned | Altered

  /** `Bare` is the quarantine directory before its receipt is in place. */
  datatype Store = NoStore | Untrusted | Bare | Conflicting | Ready

  /** The application directory (all of it) and the quarantine directory. */
  datatype Disk = Disk(store: Store, live: map<string, Entry>, held: map<string, Entry>)

  datatype Reason =
    | Unverified | DirectoryUntrusted | ReceiptMissing | ReceiptConflict | UnknownContent
    | ForeignModule(name: string) | BothLocations(name: string) | NotIdle | NoQuarantine

  datatype Sighting = Sighting(current: seq<string>, held: seq<string>)

  // ----- inspection -----

  function StoreProblem(d: Disk): Option<Reason> {
    match d.store
    case NoStore => None
    case Untrusted => Some(DirectoryUntrusted)
    case Bare => Some(ReceiptMissing)
    case Conflicting => Some(ReceiptConflict)
    case Ready => if d.held.Keys <= (set n | n in ORPHANS) then None else Some(UnknownContent)
  }

  function ModuleProblem(d: Disk, name: string): Option<Reason> {
    if (name in d.live && d.live[name].Altered?) || (name in d.held && d.held[name].Altered?) then Some(ForeignModule(name))
    else if name in d.live && name in d.held then Some(BothLocations(name))
    else None
  }

  function Those(names: seq<string>, place: map<string, Entry>): (r: seq<string>)
    ensures forall n :: n in r <==> n in names && n in place
  {
    if names == [] then []
    else
      var rest := Those(names[..|names| - 1], place);
      var last := names[|names| - 1];
      if last in place then rest + [last] else rest
  }

  function FirstProblem(d: Disk, names: seq<string>): Option<Reason> {
    if names == [] then None
    else if ModuleProblem(d, names[0]).Some? then ModuleProblem(d, names[0])
    else FirstProblem(d, names[1..])
  }

  function Inspect(d: Disk): Result<Sighting, Reason> {
    if StoreProblem(d).Some? then Err(StoreProblem(d).value)
    else if FirstProblem(d, ORPHANS).Some? then Err(FirstProblem(d, ORPHANS).value)
    else Ok(Sighting(Those(ORPHANS, d.live), Those(ORPHANS, d.held)))
  }

  /** A trusted, complete store or none, and each module that is present in
      exactly one of the two places with its pinned bytes. */
  predicate Accepted(d: Disk) {
    && (d.store.NoStore? || (d.store.Ready? && d.held.Keys <= set n | n in ORPHANS))
    && forall n | n in ORPHANS ::
         && (n in d.live ==> d.live[n].Pinned? && n !in d.held)
         && (n in d.held ==> d.held[n].Pinned?)
  }

  lemma {:induction false} NoProblemIn(d: Disk, names: seq<string>)
    ensures FirstProblem(d, names).None? <==> forall n | n in names :: ModuleProblem(d, n).None?
  {
    if names != [] {
      NoProblemIn(d, names[1..]);
      assert forall n :: n in names <==> n == names[0] || n in names[1..];
    }
  }

  lemma InspectIsAccepted(d: Disk)
    ensures Inspect(d).Ok? <==> Accepted(d)
  {
    NoProblemIn(d, ORPHANS);
  }

  // ----- placements -----

  /** The files of a disk: without a quarantine directory nothing is in it. */
  predicate Real(d: Disk) {
    d.store.NoStore? ==> d.held == map[]
  }

  function Names(ns: seq<string>): set<string> {
    set n | n in ns
  }

  /** Into the quarantine, or back into the application. */
  datatype Way = Out | In

  function Source(way: Way, d: Disk): map<string, Entry> {
    if way.Out? then d.live else d.held
  }

  function Target(way: Way, d: Disk): map<string, Entry> {
    if way.Out? then d.held else d.live
  }

  function With(way: Way, d: Disk, source: map<string, Entry>, target: map<string, Entry>): Disk {
    if way.Out? then d.(live := source, held := target) else d.(held := source, live := target)
  }

  function Taken(source: map<string, Entry>, ns: seq<string>): map<string, Entry> {
    source - Names(ns)
  }

  function Given(source: map<string, Entry>, target: map<string, Entry>, ns: seq<string>): map<string, Entry> {
    target + map n | n in Names(ns) && n in source :: source[n]
  }

  /** The disk after moving `ns`. */
  function Moved(way: Way, d: Disk, ns: seq<string>): Disk {
    With(way, d, Taken(Source(way, d), ns), Given(Source(way, d), Target(way, d), ns))
  }

  function Receipted(d: Disk): Disk {
    d.(store := Ready)
  }

  /** Some of `ns`, from the front, have been moved. */
  ghost predicate PartMoved(way: Way, d: Disk, ns: seq<string>, m: Disk) {
    exists k :: 0 <= k <= |ns| && m == Moved(way, d, ns[..k])
  }

  /** Every state an `apply` can be stopped in, once it has begun to write. */
  ghost predicate ApplyMoment(d: Disk, m: Disk) {
    && Accepted(d)
    && ((d.store.NoStore? && m == d.(store := Bare)) || PartMoved(Out, Receipted(d), Those(ORPHANS, d.live), m))
  }

  /** The same for a `restore`. */
  ghost predicate RestoreMoment(d: Disk, m: Disk) {
    Accepted(d) && d.store.Ready? && PartMoved(In, d, Those(ORPHANS, d.held), m)
  }

  function Present(d: Disk): set<string> {
    set n | n in ORPHANS && (n in d.live || n in d.held)
  }

  /** The same modules, each in one place and intact, and no other file touched. */
  predicate Kept(d: Disk, m: Disk) {
    && m.store.Ready? && Accepted(m) && Present(m) == Present(d)
    && m.live - Names(ORPHANS) == d.live - Names(ORPHANS)
  }

  lemma {:induction false} ThoseDistinct(names: seq<string>, place: map<string, Entry>)
    requires Distinct(names)
    ensures Distinct(Those(names, place))
  {
    if names != [] {
      ThoseDistinct(names[..|names| - 1], place);
    }
  }

  lemma OrphansDistinct()
    ensures Distinct(ORPHANS)
  {
    assert |ORPHANS[0]| != |ORPHANS[1]|;
  }

  /** Files that one move can take: intact, and not at the other place. */
  predicate Movable(way: Way, d: Disk, ns: seq<string>) {
    forall n | n in ns :: n in ORPHANS && n in Source(way, d) && Source(way, d)[n].Pinned? && n !in Target(way, d)
  }

  lemma NamesGrow(ns: seq<string>, n: string)
    ensures Names(ns + [n]) == Names(ns) + {n}
  {
  }

  lemma TakenStep(source: map<string, Entry>, ns: seq<string>, n: string)
    requires n in source && n !in ns
    ensures n in Taken(source, ns) && Taken(source, ns)[n] == source[n] && n !in Taken(source, ns + [n])
    ensures Taken(source, ns + [n]) == Taken(source, ns) - {n}
    ensures Taken(source, ns) == Taken(source, ns + [n])[n := source[n]]
  {
    NamesGrow(ns, n);
  }

  lemma GivenStep(source: map<string, Entry>, target: map<string, Entry>, ns: seq<string>, n: string)
    requires n in source && n !in ns && n !in target
    ensures n !in Given(source, target, ns) && n in Given(source, target, ns + [n])
    ensures Given(source, target, ns + [n]) == Given(source, target, ns)[n := source[n]]
    ensures Given(source, target, ns) == Given(source, target, ns + [n]) - {n}
  {
    NamesGrow(ns, n);
  }

  lemma MovedNone(way: Way, d: Disk)
    ensures Moved(way, d, []) == d
  {
    assert Taken(Source(way, d), []) == Source(way, d);
    assert Given(Source(way, d), Target(way, d), []) == Target(way, d);
  }

  lemma MovedOneMore(way: Way, d: Disk, ns: seq<string>, k: nat)
    requires Distinct(ns) && Movable(way, d, ns) && k < |ns|
    ensures
      var here, next, n := Moved(way, d, ns[..k]), Moved(way, d, ns[..k + 1]), ns[k];
      && n in Source(way, here) && Source(way, here)[n].Pinned? && n !in Target(way, here)
      && n in Target(way, next) && Target(way, next)[n].Pinned? && n !in Source(way, next)
      && next == With(way, here, Source(way, here) - {n}, Target(way, here)[n := Pinned])
      && here == With(way, next, Source(way, next)[n := Pinned], Target(way, next) - {n})
  {
    var n := ns[k];
    assert n in ns && n !in ns[..k];
    assert ns[..k + 1] == ns[..k] + [n];
    TakenStep(Source(way, d), ns[..k], n);
    GivenStep(Source(way, d), Target(way, d), ns[..k], n);
  }

  lemma NothingMovedYet(way: Way, d: Disk, ns: seq<string>)
    ensures PartMoved(way, d, ns, d)
  {
    MovedNone(way, d);
    assert ns[..0] == [];
  }

  lemma AllMoved(way: Way, d: Disk, ns: seq<string>)
    ensures PartMoved(way, d, ns, Moved(way, d, ns))
  {
    assert ns[..|ns|] == ns;
  }

  predicate AllQuarantined(d: Disk) {
    forall n | n in ORPHANS :: n !in d.live
  }

  predicate AllLive(d: Disk) {
    forall n | n in ORPHANS :: n !in d.held
  }

  lemma OutMovable(d: Disk)
    requires Accepted(d)
    ensures Movable(Out, Receipted(d), Those(ORPHANS, d.live)) && Distinct(Those(ORPHANS, d.live))
  {
    OrphansDistinct();
    ThoseDistinct(ORPHANS, d.live);
  }

  lemma InMovable(d: Disk)
    requires Accepted(d)
    ensures Movable(In, d, Those(ORPHANS, d.held)) && Distinct(Those(ORPHANS, d.held))
  {
    OrphansDistinct();
    ThoseDistinct(ORPHANS, d.held);
  }

  // ----- the operations -----

  datatype Outcome =
    | Refused(reason: Reason)
    | AlreadyQuarantined | NoResidue | AlreadyRestored
    | Done(modules: seq<string>)
    | Failed

  /** Why a run stops before it writes anything, in the order of the checks. */
  function Refusal(verified: bool, idle: bool, d: Disk): Option<Reason> {
    if !verified then Some(Unverified)
    else if Inspect(d).Err? then Some(Inspect(d).error)
    else if !idle then Some(NotIdle)
    else None
  }

  /** Everything after `n` entries is a disk that a move from `d` passes through. */
  ghost predicate PassesOnly(way: Way, d: Disk, ns: seq<string>, trace: seq<Disk>, n: nat) {
    forall i | n <= i < |trace| :: PartMoved(way, d, ns, trace[i])
  }

  class Installation {
    var store: Store
    var live: map<string, Entry>
    var held: map<string, Entry>
    /** The disk after every write: where a kill can leave it. */
    ghost var trace: seq<Disk>

    function Now(): Disk
      reads this
    {
      Disk(store, live, held)
    }

    constructor (d: Disk)
      ensures Now() == d && trace == []
    {
      store, live, held, trace := d.store, d.live, d.held, [];
    }

    /** Atomic rename of one file; `io` says that file operations succeed. */
    method Rename(way: Way, name: string, io: bool) returns (ok: bool)
      requires name in Source(way, Now())
      modifies this
      ensures !ok ==> !io && Now() == old(Now()) && trace == old(trace)
      ensures ok ==> trace == old(trace) + [Now()]
      ensures ok ==>
        Now() == With(way, old(Now()), Source(way, old(Now())) - {name},
                      Target(way, old(Now()))[name := Source(way, old(Now()))[name]])
    {
      ok := *;
      ok := ok || io;
      if !ok {
        return;
      }
      if way.Out? {
        held := held[name := live[name]];
        live := live - {name};
      } else {
        live := live[name := held[name]];
        held := held - {name};
      }
      trace := trace + [Now()];
    }

    /** One turn of a rollback loop. */
    method MoveBack(way: Way, ns: seq<string>, k: nat, io: bool, ghost d: Disk) returns (ok: bool)
      requires Distinct(ns) && Movable(way, d, ns) && k < |ns| && Now() == Moved(way, d, ns[..k + 1])
      modifies this
      ensures ok ==> Now() == Moved(way, d, ns[..k]) && trace == old(trace) + [Now()]
      ensures !ok ==> !io && Now() == old(Now()) && trace == old(trace)
    {
      MovedOneMore(way, d, ns, k);
      ok := true;
      if ns[k] in Target(way, Now()) && ns[k] !in Source(way, Now()) {
        ok := Rename(if way.Out? then In else Out, ns[k], io);
      }
    }

    /** One turn of a moving loop: check, rename, check again. */
    method MoveOn(way: Way, ns: seq<string>, k: nat, io: bool, ghost d: Disk) returns (moved: bool, fine: bool)
      requires Distinct(ns) && Movable(way, d, ns) && k < |ns| && Now() == Moved(way, d, ns[..k])
      modifies this
      ensures moved ==> Now() == Moved(way, d, ns[..k + 1]) && trace == old(trace) + [Now()]
      ensures !moved ==> !fine && Now() == old(Now()) && trace == old(trace)
      ensures io ==> fine
    {
      MovedOneMore(way, d, ns, k);
      var name := ns[k];
      var read: bool := *;
      moved := (read || io) && name in Source(way, Now()) && Source(way, Now())[name].Pinned? && name !in Target(way, Now());
      if moved {
        moved := Rename(way, name, io);
      }
      read := *;
      fine := moved && (read || io) && name in Target(way, Now()) && Target(way, Now())[name].Pinned?;
    }

    /** The rollback loops: `ns` moved back in reverse order. */
    method RollBack(way: Way, ns: seq<string>, n: nat, io: bool, ghost d: Disk) returns (ok: bool)
      requires Distinct(ns) && Movable(way, d, ns) && n <= |ns| && Now() == Moved(way, d, ns[..n])
      modifies this
      ensures old(trace) <= trace && PassesOnly(way, d, ns, trace, |old(trace)|)
      ensures PartMoved(way, d, ns, Now())
      ensures ok ==> Now() == d
      ensures io ==> ok
    {
      var k := n;
      while k > 0
        invariant 0 <= k <= n && Now() == Moved(way, d, ns[..k])
        invariant old(trace) <= trace && PassesOnly(way, d, ns, trace, |old(trace)|)
      {
        ok := MoveBack(way, ns, k - 1, io, d);
        if !ok {
          return;
        }
        k := k - 1;
      }
      MovedNone(way, d);
      assert ns[..0] == [];
      ok := true;
    }

    /** The moving loops; on any failure, rollback. `undone` tells whether the
        rollback succeeded too. */
    method MoveAll(way: Way, ns: seq<string>, io: bool) returns (done: bool, ghost undone: bool)
      requires Distinct(ns) && Movable(way, Now(), ns)
      modifies this
      ensures old(trace) <= trace && PassesOnly(way, old(Now()), ns, trace, |old(trace)|)
      ensures done ==> Now() == Moved(way, old(Now()), ns)
      ensures !done ==> PartMoved(way, old(Now()), ns, Now())
      ensures !done && undone ==> Now() == old(Now())
      ensures io ==> done
    {
      ghost var d := Now();
      var k := 0;
      MovedNone(way, d);
      assert ns[..0] == [];
      while k < |ns|
        invariant 0 <= k <= |ns| && Now() == Moved(way, d, ns[..k])
        invariant old(trace) <= trace && PassesOnly(way, d, ns, trace, |old(trace)|)
      {
        var moved, fine := MoveOn(way, ns, k, io, d);
        k := if moved then k + 1 else k;
        if !fine {
          done := false;
          undone := RollBack(way, ns, k, io, d);
          return;
        }
      }
      assert ns[..k] == ns;
      done, undone := true, true;
    }

    /** `inspect`: refuses, or lists what is live and what is held. */
    method Look() returns (r: Result<Sighting, Reason>)
      ensures r == Inspect(Now())
    {
      var problem := StoreProblem(Now());
      if problem.Some? {
        return Err(problem.value);
      }
      var current, inStore := [], [];
      for i := 0 to |ORPHANS|
        invariant FirstProblem(Now(), ORPHANS) == FirstProblem(Now(), ORPHANS[i..])
        invariant current == Those(ORPHANS[..i], live) && inStore == Those(ORPHANS[..i], held)
      {
        var name := ORPHANS[i];
        assert ORPHANS[i..][1..] == ORPHANS[i + 1..];
        assert ORPHANS[..i + 1][..i] == ORPHANS[..i];
        problem := ModuleProblem(Now(), name);
        if problem.Some? {
          return Err(problem.value);
        }
        current := if name in live then current + [name] else current;
        inStore := if name in held then inStore + [name] else inStore;
      }
      assert ORPHANS[..|ORPHANS|] == ORPHANS;
      return Ok(Sighting(current, inStore));
    }

    /** `init_quarantine`: the directory first, its receipt by one atomic rename. */
    method InitQuarantine(io: bool) returns (ok: bool)
      requires store.NoStore?
      modifies this
      ensures live == old(live) && held == old(held) && old(trace) <= trace
      ensures ok ==> store.Ready? && trace == old(trace) + [old(Now()).(store := Bare), Now()]
      ensures !ok ==> !io && (store.NoStore? || store.Bare?)
      ensures !ok ==> trace == old(trace) + if store.Bare? then [Now()] else []
    {
      ok := *;
      ok := ok || io;
      if !ok {
        return;
      }
      store := Bare;
      trace := trace + [Now()];
      ok := *;
      ok := ok || io;
      if !ok {
        return;
      }
      store := Ready;
      trace := trace + [Now()];
    }

    /** The checks of `run` before either action writes. */
    method Check(verified: bool, idle: bool) returns (r: Result<Sighting, Reason>)
      ensures r.Err? <==> Refusal(verified, idle, Now()).Some?
      ensures r.Err? ==> r.error == Refusal(verified, idle, Now()).value
      ensures r.Ok? ==> r == Inspect(Now())
    {
      if !verified {
        return Err(Unverified);
      }
      r := Look();
      if r.Ok? && !idle {
        return Err(NotIdle);
      }
    }

    /** `run` with the action apply. `verified` is the check of both packages
        and the installed release, `idle` that nothing of it is running, `io`
        that every file operation succeeds. */
    method Apply(verified: bool, idle: bool, io: bool) returns (r: Outcome, ghost undone: bool)
      requires Real(Now())
      modifies this
      ensures Real(Now())
      ensures old(trace) <= trace && forall i | |old(trace)| <= i < |trace| :: ApplyMoment(old(Now()), trace[i])
      ensures r.Refused? <==> Refusal(verified, idle, old(Now())).Some?
      ensures r.Refused? ==> r.reason == Refusal(verified, idle, old(Now())).value
      ensures !r.Done? && !r.Failed? ==> Now() == old(Now()) && trace == old(trace)
      ensures r.AlreadyQuarantined? || r.NoResidue? ==> AllQuarantined(Now())
      ensures r.NoResidue? ==> Present(Now()) == {}
      ensures r.Done? ==> r.modules == Those(ORPHANS, old(live)) && r.modules != []
      ensures r.Done? ==> Now() == Moved(Out, Receipted(old(Now())), r.modules)
      ensures Now() == old(Now()) || ApplyMoment(old(Now()), Now())
      ensures old(store).NoStore? && |trace| > |old(trace)| ==> trace[|old(trace)|] == old(Now()).(store := Bare)
      ensures r.Failed? && undone ==> live == old(live) && held == old(held)
      ensures r.AlreadyRestored? ==> false
      ensures io ==> !r.Failed?
    {
      ghost var d := Now();
      undone := true;
      var seen := Check(verified, idle);
      if seen.Err? {
        return Refused(seen.error), undone;
      }
      InspectIsAccepted(d);
      if seen.value.current == [] {
        return if seen.value.held != [] then AlreadyQuarantined else NoResidue, undone;
      }
      if store.NoStore? {
        var ok := InitQuarantine(io);
        if !ok {
          return Failed, undone;
        }
      }
      OutMovable(d);
      NothingMovedYet(Out, Receipted(d), seen.value.current);
      var done: bool;
      done, undone := MoveAll(Out, seen.value.current, io);
      AllMoved(Out, Receipted(d), seen.value.current);
      r := if done then Done(seen.value.current) else Failed;
    }

    /** `run` with the action restore. */
    method Restore(verified: bool, idle: bool, io: bool) returns (r: Outcome, ghost undone: bool)
      requires Real(Now())
      modifies this
      ensures Real(Now())
      ensures old(trace) <= trace && forall i | |old(trace)| <= i < |trace| :: RestoreMoment(old(Now()), trace[i])
      ensures
        var refusal := Refusal(verified, idle, old(Now()));
        && (r.Refused? <==> refusal.Some? || old(store).NoStore?)
        && (r.Refused? ==> r.reason == if refusal.Some? then refusal.value else NoQuarantine)
      ensures !r.Done? && !r.Failed? ==> Now() == old(Now()) && trace == old(trace)
      ensures r.AlreadyRestored? ==> AllLive(Now())
      ensures r.Done? ==> r.modules == Those(ORPHANS, old(held)) && r.modules != []
      ensures r.Done? ==> Now() == Moved(In, old(Now()), r.modules)
      ensures Now() == old(Now()) || RestoreMoment(old(Now()), Now())
      ensures r.Failed? && undone ==> Now() == old(Now())
      ensures r.AlreadyQuarantined? || r.NoResidue? ==> false
      ensures io ==> !r.Failed?
    {
      ghost var d := Now();
      undone := true;
      var seen := Check(verified, idle);
      if seen.Err? {
        return Refused(seen.error), undone;
      }
      if store.NoStore? {
        return Refused(NoQuarantine), undone;
      }
      InspectIsAccepted(d);
      if seen.value.held == [] {
        return AlreadyRestored, undone;
      }
      InMovable(d);
      var done: bool;
      done, undone := MoveAll(In, seen.value.held, io);
      AllMoved(In, d, seen.value.held);
      r := if done then Done(seen.value.held) else Failed;
    }
  }
}
