/** The Windows selective-route transaction: two registry values, the policy
    file, the PAC file and the owned background service move together, any
    write may fail, the process may be killed between any two writes, and
    other programs may write the registry between calls. */
module SelectiveWindows {
  import opened Prelude
  import opened DomainPolicy
  import opened DomainDeciders

  const URL := "http://127.0.0.1:19416/route.pac"
  const TAILNET_PORT := 19551

  // ----- what is stored -----

  /** Other is any value type the snapshot refuses (binary data, for one). */
  datatype Data = Text(text: string) | Number(number: int) | Other

  datatype Value = Absent | Present(data: Data, kind: int)

  /** AutoConfigURL and ProxyEnable, the two values the feature writes. */
  datatype Image = Image(auto: Value, proxyEnable: Value)

  datatype Method = Node | Warp | Gool | Cfon | Tor | WebTunnel | Obfs4 | Tailnet

  datatype Proxy = Proxy(host: string, port: int, mode: Method)

  /** The PAC file: a script this program writes, or any other bytes. */
  datatype Pac = Script(domains: seq<string>, port: int) | Bytes(text: string)

  /** policy.json. A record that never named domains or a proxy has None there. */
  datatype Policy = Policy(enabled: bool, inFlight: bool, domains: Option<seq<string>>,
                           proxy: Option<Proxy>, pacUrl: string, token: string, previous: Option<Image>)

  const STUB := Policy(false, false, None, None, "", "", None)

  datatype World = World(registry: Image, policy: Option<Policy>, pac: Option<Pac>, serving: bool)

  /** What one successful enable asks for. */
  datatype Route = Route(domains: seq<string>, proxy: Proxy)

  // ----- reading the world -----

  function Loaded(w: World): Policy {
    if w.policy.Some? then w.policy.value else STUB
  }

  predicate Readable(v: Value) {
    v.Present? ==> !v.data.Other?
  }

  predicate Supported(i: Image) {
    Readable(i.auto) && Readable(i.proxyEnable)
  }

  /** The URL is one this program hands out. */
  predicate OwnUrl(v: Value) {
    v.Present? && v.data.Text? && URL <= v.data.text
  }

  const DIRECT_OFF := Present(Number(0), 4)

  function AutoValue(url: string): Value {
    Present(Text(url), 1)
  }

  function Active(url: string): Image {
    Image(AutoValue(url), DIRECT_OFF)
  }

  /** Both listeners answer the health probe with this token. */
  predicate Healthy(w: World, token: string) {
    w.serving && token != "" && Loaded(w).token == token
  }

  /** What the HTTP CONNECT bridge forwards with when it reads the policy now;
      None is its refusal. */
  function Served(w: World): Option<Route> {
    match w.policy
    case None => None
    case Some(p) =>
      if p.enabled && !p.inFlight && p.token != "" && p.domains.Some? && p.proxy.Some?
      then Some(Route(p.domains.value, p.proxy.value)) else None
  }

  // ----- what a call asks for -----

  datatype Request = Request(domains: string, port: int, mode: Option<Method>, host: string)

  datatype Refusal =
    | MethodNotSupported | ProxyHostInvalid | DomainsInvalid(why: DomainError) | PendingRecovery
    | SnapshotUnsupported | Drift | ForeignOrOrphanPac | SocksUnreachable

  function ProxyOf(q: Request): Option<Proxy> {
    if q.mode.None? || !(1024 <= q.port <= 65535) then None
    else if q.mode.value.Tailnet? then
      if q.port == TAILNET_PORT && IsTailnetIpv4(q.host) then Some(Proxy(q.host, q.port, Tailnet)) else None
    else if q.host == "127.0.0.1" then Some(Proxy("127.0.0.1", q.port, q.mode.value)) else None
  }

  /** The checks made before anything is read or written. */
  function Wanted(q: Request, idna: Idna): Result<Route, Refusal> {
    if q.mode.None? then Err(MethodNotSupported)
    else if ProxyOf(q).None? then Err(ProxyHostInvalid)
    else
      match Normalize(Windows, q.domains, idna)
      case Err(e) => Err(DomainsInvalid(e))
      case Ok(ds) => Ok(Route(ds, ProxyOf(q).value))
  }

  /** The refusals that depend on the stored state. */
  function Admission(w: World): Option<Refusal> {
    var p := Loaded(w);
    if p.inFlight then Some(PendingRecovery)
    else if !Supported(w.registry) then Some(SnapshotUnsupported)
    else if p.enabled && w.registry != Active(p.pacUrl) then Some(Drift)
    else if !p.enabled && OwnUrl(w.registry.auto) then Some(ForeignOrOrphanPac)
    else None
  }

  function Pending(w: World, r: Route, url: string, token: string, restore: Option<Image>): Policy {
    var p := Loaded(w);
    Policy(p.enabled, true, p.domains, Some(r.proxy), url, token, restore)
  }

  function Final(r: Route, url: string, token: string, restore: Option<Image>): Policy {
    Policy(true, false, Some(r.domains), Some(r.proxy), url, token, restore)
  }

  /** Records kept by a disable that has restored the settings. */
  function Cleared(p: Policy): Policy {
    p.(enabled := false, inFlight := false, previous := None)
  }

  datatype DisableBranch = AlreadyDisabled | Unsupported | CleanUp | DriftRefusal | RestoreBaseline

  function BranchOf(w: World): DisableBranch {
    var p := Loaded(w);
    if !p.enabled && !p.inFlight then AlreadyDisabled
    else if !Supported(w.registry) then Unsupported
    else if p.inFlight && Some(w.registry) == p.previous then CleanUp
    else if w.registry != Active(p.pacUrl) then DriftRefusal
    else RestoreBaseline
  }

  datatype EnableResult =
    | Enabled | Unchanged
    | Refused(why: Refusal)
    | Raised(clean: bool)     // clean: every rollback write succeeded

  datatype DisableResult =
    | Off                     // already disabled
    | SnapshotFailed
    | Restored(stopped: bool)
    | ServerStillActive
    | ProxyDrift
    | RestoreIncomplete
    | WriteRaised             // the clean-up could not store its record

  // ----- the invariant every moment keeps -----

  /** A moment of a run: the world, the image seen by the first enable of the
      current enabled streak, and the routes successful enables committed. */
  datatype Moment = Moment(world: World, baseline: Option<Image>, committed: set<Route>)

  ghost predicate Sound(m: Moment) {
    var p := Loaded(m.world);
    && (!p.enabled && !p.inFlight ==> m.baseline == None)
    && (p.enabled || p.inFlight ==>
          && m.baseline.Some? && p.previous == m.baseline
          && Supported(m.baseline.value) && !OwnUrl(m.baseline.value.auto)
          && p.token != "" && URL <= p.pacUrl)
    && (p.enabled && !p.inFlight ==> p.domains.Some? && p.proxy.Some?)
    && (Served(m.world).Some? ==> Served(m.world).value in m.committed)
  }

  // ----- one call of enable, seen from its entry -----

  /** The entry moment of an admitted enable and what it decided there. */
  datatype Entry = Entry(start: Moment, route: Route, source: Pac, url: string, token: string, restore: Option<Image>)

  function PendingOf(e: Entry): Policy {
    Pending(e.start.world, e.route, e.url, e.token, e.restore)
  }

  function FinalOf(e: Entry): Policy {
    Final(e.route, e.url, e.token, e.restore)
  }

  /** Between the two registry writes. */
  function MixedMoment(e: Entry): Moment {
    Moment(World(e.start.world.registry.(auto := AutoValue(e.url)), Some(PendingOf(e)), Some(e.source), true),
           e.restore, e.start.committed)
  }

  /** Admitted: a first enable saves the image it found and takes a new token,
      a re-enable keeps the saved image and the token. */
  ghost predicate EntryFits(e: Entry) {
    var p := Loaded(e.start.world);
    && Sound(e.start) && Admission(e.start.world) == None
    && e.token != "" && URL <= e.url
    && if p.enabled then e.restore == p.previous && e.token == p.token
       else e.restore == Some(e.start.world.registry)
  }

  /** Each value is the one found at entry or the one this call writes. */
  predicate RegistryStage(e: Entry, i: Image) {
    && i.auto in {e.start.world.registry.auto, AutoValue(e.url)}
    && i.proxyEnable in {e.start.world.registry.proxyEnable, DIRECT_OFF}
  }

  predicate Committed(e: Entry, m: Moment) {
    && m.world.policy == Some(FinalOf(e)) && m.world.registry == Active(e.url)
    && m.world.pac == Some(e.source) && m.world.serving
    && m.baseline == e.restore && m.committed == e.start.committed + {e.route}
  }

  predicate InFlight(e: Entry, m: Moment) {
    && m.world.policy == Some(PendingOf(e)) && RegistryStage(e, m.world.registry)
    && m.world.pac in {e.start.world.pac, Some(e.source)}
    && m.baseline == e.restore && m.committed == e.start.committed
  }

  /** The policy is the one at entry (or the stub that stands for none). */
  predicate Idle(e: Entry, m: Moment, clean: bool) {
    && m.world.policy in {e.start.world.policy, Some(Loaded(e.start.world))}
    && RegistryStage(e, m.world.registry)
    && (clean ==> m.world.registry == e.start.world.registry)
    && m.world.pac in {e.start.world.pac, Some(e.source)}
    && m.baseline == e.start.baseline && m.committed == e.start.committed
  }

  /** Every moment an enable can leave behind. `clean` excludes only the runs
      in which a write of the rollback itself failed. */
  predicate EnableMoment(e: Entry, m: Moment, clean: bool) {
    Committed(e, m) || InFlight(e, m) || Idle(e, m, clean)
  }

  ghost predicate MomentsFit(e: Entry, ms: seq<Moment>, clean: bool) {
    forall i | 0 <= i < |ms| :: EnableMoment(e, ms[i], clean)
  }

  /** Where a failed `try` block leaves the world for the rollback. */
  predicate UnwoundFrom(e: Entry, m: Moment, changed: bool) {
    && (if changed then InFlight(e, m) && m.world.registry.auto == AutoValue(e.url)
        else (InFlight(e, m) || Idle(e, m, true)) && m.world.registry == e.start.world.registry)
  }

  predicate RolledBack(e: Entry, m: Moment) {
    && m.world.registry == e.start.world.registry && m.world.pac == e.start.world.pac
    && m.world.policy == Some(Loaded(e.start.world))
    && m.baseline == e.start.baseline && m.committed == e.start.committed
  }

  /** Everything is back but, perhaps, the settings. */
  predicate FilesBack(e: Entry, m: Moment) {
    && m.world.policy == Some(Loaded(e.start.world)) && m.world.pac == e.start.world.pac
    && RegistryStage(e, m.world.registry)
    && m.baseline == e.start.baseline && m.committed == e.start.committed
  }

  /** What an admitted enable that began at `e` may return, leave behind, and
      pass through. */
  ghost predicate EnableOutcome(e: Entry, r: EnableResult, after: Moment, passed: seq<Moment>) {
    match r
    case Enabled => Committed(e, after) && MomentsFit(e, passed, true)
    case Raised(clean) =>
      EnableMoment(e, after, clean) && MomentsFit(e, passed, clean) && (clean ==> RolledBack(e, after))
    case _ => after == e.start && passed == []
  }

  /** At every moment of every enable the record is sound: in particular the
      bridge serves nothing but what some enable committed as a whole. */
  lemma MomentIsSound(e: Entry, m: Moment, clean: bool)
    requires EntryFits(e) && EnableMoment(e, m, clean)
    ensures Sound(m)
  {
  }

  lemma OutcomeIsSound(e: Entry, r: EnableResult, after: Moment, passed: seq<Moment>)
    requires EntryFits(e) && (r.Enabled? || r.Raised?) && EnableOutcome(e, r, after, passed)
    ensures Sound(after)
  {
    MomentIsSound(e, after, if r.Raised? then r.clean else true);
  }

  // ----- one call of disable, seen from its entry -----

  predicate RegistryBetween(from: Image, to: Image, i: Image) {
    i.auto in {from.auto, to.auto} && i.proxyEnable in {from.proxyEnable, to.proxyEnable}
  }

  /** Every moment a disable can leave behind: the settings lie between what it
      found and the saved image, and the record is the old one or, once the
      settings are the saved image, the cleared one. */
  predicate DisableMoment(start: Moment, m: Moment) {
    var p := Loaded(start.world);
    && p.previous.Some?
    && RegistryBetween(start.world.registry, p.previous.value, m.world.registry)
    && m.world.pac == start.world.pac && m.committed == start.committed
    && if m.world.policy == start.world.policy then m.baseline == start.baseline
       else m.world.policy == Some(Cleared(p)) && m.baseline == None && m.world.registry == p.previous.value
  }

  /** The saved image is back in full, the record not yet stored. */
  function UnrecordedMoment(start: Moment): Moment
    requires Loaded(start.world).previous.Some?
  {
    start.(world := start.world.(registry := Loaded(start.world).previous.value))
  }

  ghost predicate DisableOutcome(start: Moment, r: DisableResult, after: Moment, passed: seq<Moment>) {
    && (forall i | 0 <= i < |passed| :: DisableMoment(start, passed[i]))
    && match BranchOf(start.world)
       case AlreadyDisabled => r == Off && after == start && passed == []
       case Unsupported => r == SnapshotFailed && after == start && passed == []
       case DriftRefusal => r == ProxyDrift && after == start && passed == []
       case _ =>
         && DisableMoment(start, after)
         && (if BranchOf(start.world).CleanUp? then r.Restored? || r.ServerStillActive? || r.WriteRaised?
             else r.Restored? || r.RestoreIncomplete?)
         && (r.Restored? <==> after.baseline == None)
         && (r == Restored(true) ==> !after.world.serving)
  }

  class SelectiveRoute {
    /** The first sixteen hex digits of the SHA-256 of a PAC file. */
    const digest: Pac -> string
    const idna: Idna

    var registry: Image
    var policy: Option<Policy>
    var pac: Option<Pac>
    var serving: bool

    ghost var baseline: Option<Image>
    ghost var committed: set<Route>
    /** Every moment since the object was created, in order; a kill leaves the
        machine in one of them. */
    ghost var trace: seq<Moment>
    /** How many steps have failed. */
    ghost var faults: nat

    function PacUrl(p: Pac): string {
      URL + "?v=" + digest(p)
    }

    function Now(): World
      reads this
    {
      World(registry, policy, pac, serving)
    }

    ghost function Instant(): Moment
      reads this
    {
      Moment(Now(), baseline, committed)
    }

    ghost predicate Valid()
      reads this
    {
      Sound(Instant())
    }

    constructor (digest: Pac -> string, idna: Idna, registry: Image, pac: Option<Pac>)
      ensures this.digest == digest && this.idna == idna
      ensures Valid() && Now() == World(registry, None, pac, false)
      ensures baseline == None && committed == {} && trace == [] && faults == 0
    {
      this.digest, this.idna := digest, idna;
      this.registry, this.policy, this.pac, this.serving := registry, None, pac, false;
      baseline, committed, trace, faults := None, {}, [], 0;
    }

    // ----- single steps; each records the moment it leaves behind -----

    /** `_write_value`: takes effect or raises. */
    method WriteAuto(v: Value) returns (ok: bool)
      modifies this`registry, this`trace, this`faults
      ensures registry == if ok then old(registry).(auto := v) else old(registry)
      ensures trace == old(trace) + [Instant()] && faults == old(faults) + (if ok then 0 else 1)
    {
      if * {
        ok, registry := true, registry.(auto := v);
      } else {
        ok := false;
      }
      faults := if ok then faults else faults + 1;
      trace := trace + [Instant()];
    }

    method WriteProxyEnable(v: Value) returns (ok: bool)
      modifies this`registry, this`trace, this`faults
      ensures registry == if ok then old(registry).(proxyEnable := v) else old(registry)
      ensures trace == old(trace) + [Instant()] && faults == old(faults) + (if ok then 0 else 1)
    {
      if * {
        ok, registry := true, registry.(proxyEnable := v);
      } else {
        ok := false;
      }
      faults := if ok then faults else faults + 1;
      trace := trace + [Instant()];
    }

    /** Atomic replacement (or removal) of the PAC file. */
    method WritePac(p: Option<Pac>) returns (ok: bool)
      modifies this`pac, this`trace, this`faults
      ensures pac == if ok then p else old(pac)
      ensures trace == old(trace) + [Instant()] && faults == old(faults) + (if ok then 0 else 1)
    {
      if * {
        ok, pac := true, p;
      } else {
        ok := false;
      }
      faults := if ok then faults else faults + 1;
      trace := trace + [Instant()];
    }

    /** Atomic replacement of the policy file; the ghost arguments say what the
        new record means for the streak and for the committed routes. */
    method WritePolicy(p: Policy, ghost base: Option<Image>, ghost routes: set<Route>) returns (ok: bool)
      modifies this`policy, this`baseline, this`committed, this`trace, this`faults
      ensures if ok then policy == Some(p) && baseline == base && committed == routes
              else policy == old(policy) && baseline == old(baseline) && committed == old(committed)
      ensures trace == old(trace) + [Instant()] && faults == old(faults) + (if ok then 0 else 1)
    {
      if * {
        ok, policy := true, Some(p);
        baseline, committed := base, routes;
      } else {
        ok := false;
      }
      faults := if ok then faults else faults + 1;
      trace := trace + [Instant()];
    }

    method StartService(token: string) returns (ok: bool)
      modifies this`serving, this`trace, this`faults
      ensures ok ==> serving && (old(serving) ==> Healthy(old(Now()), token))
      ensures old(Healthy(Now(), token)) ==> ok
      ensures trace == old(trace) + [Instant()] && faults == old(faults) + (if ok then 0 else 1)
    {
      if Healthy(Now(), token) {
        ok := true;
      } else if token == "" || serving {
        ok := false;            // no token, or the port belongs to someone else
      } else if * {
        ok, serving := true, true;
      } else {
        ok, serving := false, *;  // not healthy in time; the process may be there
      }
      faults := if ok then faults else faults + 1;
      trace := trace + [Instant()];
    }

    method StopService(token: string) returns (stopped: bool)
      modifies this`serving, this`trace, this`faults
      ensures !old(Healthy(Now(), token)) ==> stopped && serving == old(serving)
      ensures old(Healthy(Now(), token)) && stopped ==> !serving
      ensures trace == old(trace) + [Instant()] && faults == old(faults) + (if stopped then 0 else 1)
    {
      if !Healthy(Now(), token) {
        stopped := true;
      } else if * {
        stopped, serving := true, false;
      } else {
        stopped, serving := false, *;
      }
      faults := if stopped then faults else faults + 1;
      trace := trace + [Instant()];
    }

    // ----- enable -----

    /** The first writes inside the `try`, up to a service that is ready. */
    method Prepare(ghost e: Entry, pending: Policy, source: Pac) returns (ok: bool)
      requires EntryFits(e) && Instant() == e.start && e.source == source && pending == PendingOf(e)
      modifies this`policy, this`pac, this`serving, this`baseline, this`committed, this`trace, this`faults
      ensures if ok then faults == old(faults) else faults > old(faults)
      ensures ok ==> Now() == World(e.start.world.registry, Some(pending), Some(source), true)
                     && baseline == e.restore && committed == e.start.committed
      ensures !ok ==> UnwoundFrom(e, Instant(), false)
      ensures old(trace) <= trace && MomentsFit(e, trace[|old(trace)|..], true)
    {
      ok := WritePac(Some(source));
      if !ok { return; }
      ok := WritePolicy(pending, e.restore, committed);
      if !ok { return; }
      ok := StartService(pending.token);
      if !ok { return; }
      ok := *;                                   // both listeners answer in time
      ok := ok && serving;
      faults := if ok then faults else faults + 1;
    }

    /** The rest of the `try`: the two settings, their check, and the record. */
    method Switch(ghost e: Entry, pending: Policy, final: Policy) returns (ok: bool, changed: bool)
      requires EntryFits(e) && pending == PendingOf(e) && final == FinalOf(e)
      requires Now() == World(e.start.world.registry, Some(pending), Some(e.source), true)
      requires baseline == e.restore && committed == e.start.committed
      modifies this`registry, this`policy, this`baseline, this`committed, this`trace, this`faults
      ensures if ok then faults == old(faults) else faults > old(faults)
      ensures ok ==> changed && Now() == World(Active(e.url), Some(final), Some(e.source), true)
                     && baseline == e.restore && committed == e.start.committed + {e.route}
      ensures changed ==> |trace| > |old(trace)| && trace[|old(trace)|] == MixedMoment(e)
      ensures !ok ==> UnwoundFrom(e, Instant(), changed)
      ensures old(trace) <= trace && MomentsFit(e, trace[|old(trace)|..], true)
    {
      changed := false;
      ok := WriteAuto(AutoValue(pending.pacUrl));
      if !ok { return; }
      changed := true;
      ok := WriteProxyEnable(DIRECT_OFF);
      if !ok { return; }
      ok := *;                                   // the refresh notification
      faults := if ok then faults else faults + 1;
      if !ok || registry != Active(pending.pacUrl) { ok := false; return; }
      ok := WritePolicy(final, baseline, committed + {e.route});
    }

    /** The writes inside the `try`, in order; stops at the first that fails. */
    method Apply(ghost e: Entry, pending: Policy, final: Policy, source: Pac) returns (ok: bool, changed: bool)
      requires EntryFits(e) && Instant() == e.start && e.source == source && e.url == PacUrl(source)
      requires pending == PendingOf(e) && final == FinalOf(e)
      modifies this`registry, this`policy, this`pac, this`serving, this`baseline, this`committed, this`trace, this`faults
      ensures if ok then faults == old(faults) else faults > old(faults)
      ensures ok ==> changed && Now() == World(Active(e.url), Some(final), Some(source), true)
                     && baseline == e.restore && committed == e.start.committed + {e.route}
      ensures !ok ==> UnwoundFrom(e, Instant(), changed)
      ensures old(trace) <= trace && MomentsFit(e, trace[|old(trace)|..], true)
      ensures changed ==> MixedMoment(e) in trace[|old(trace)|..]
    {
      changed := false;
      ok := Prepare(e, pending, source);
      if !ok { return; }
      ghost var middle := |trace|;
      ok, changed := Switch(e, pending, final);
      assert trace[|old(trace)|..] == trace[|old(trace)|..middle] + trace[middle..];
    }

    /** The `except` block: the two settings, if they were changed. Until the
        record is put back every moment is still one of the pending record. */
    method RollBackSettings(ghost e: Entry, snapshot: Image, changed: bool) returns (clean: bool)
      requires EntryFits(e) && UnwoundFrom(e, Instant(), changed) && snapshot == e.start.world.registry
      modifies this`registry, this`trace, this`faults
      ensures faults >= old(faults) + (if clean then 0 else 1)
      ensures !clean ==> changed && registry in {old(registry), old(registry).(auto := snapshot.auto)}
      ensures clean ==> registry == snapshot
      ensures InFlight(e, Instant()) || (Idle(e, Instant(), true) && clean)
      ensures old(trace) <= trace && forall i | |old(trace)| <= i < |trace| :: InFlight(e, trace[i])
    {
      clean := true;
      if changed {
        clean := WriteAuto(snapshot.auto);
        if clean {
          clean := WriteProxyEnable(snapshot.proxyEnable);
        }
      }
    }

    /** The rest of the `except` block: the PAC file, the service, the record. */
    method RollBackFiles(ghost e: Entry, previous: Policy, oldPac: Option<Pac>, token: string) returns (clean: bool)
      requires EntryFits(e) && (InFlight(e, Instant()) || Idle(e, Instant(), true))
      requires previous == Loaded(e.start.world) && oldPac == e.start.world.pac && token == e.token
      modifies this`policy, this`pac, this`serving, this`baseline, this`committed, this`trace, this`faults
      ensures faults >= old(faults) + (if clean then 0 else 1)
      ensures clean ==> FilesBack(e, Instant())
      ensures clean && registry == e.start.world.registry ==> RolledBack(e, Instant())
      ensures EnableMoment(e, Instant(), registry == e.start.world.registry)
      ensures old(trace) <= trace && MomentsFit(e, trace[|old(trace)|..], registry == e.start.world.registry)
    {
      clean := WritePac(oldPac);
      if !clean { return; }
      if !previous.enabled {
        var _ := StopService(token);
      }
      clean := WritePolicy(previous, e.start.baseline, e.start.committed);
    }

    /** The `except` block. The swallowed failure of a restoring write does not
        keep it from putting the files and the record back. */
    method RollBack(ghost e: Entry, previous: Policy, snapshot: Image, oldPac: Option<Pac>, token: string, changed: bool)
      returns (clean: bool, ghost filesBack: bool)
      requires EntryFits(e) && UnwoundFrom(e, Instant(), changed)
      requires previous == Loaded(e.start.world) && snapshot == e.start.world.registry
      requires oldPac == e.start.world.pac && token == e.token
      modifies this`registry, this`policy, this`pac, this`serving, this`baseline, this`committed, this`trace, this`faults
      ensures faults >= old(faults) + (if clean then 0 else 1)
      ensures clean ==> filesBack && RolledBack(e, Instant())
      ensures filesBack ==> FilesBack(e, Instant())
      ensures filesBack && !clean ==> changed && registry in {old(registry), old(registry).(auto := snapshot.auto)}
      ensures EnableMoment(e, Instant(), clean)
      ensures old(trace) <= trace && MomentsFit(e, trace[|old(trace)|..], clean)
    {
      clean := RollBackSettings(e, snapshot, changed);
      ghost var middle := |trace|;
      var done := RollBackFiles(e, previous, oldPac, token);
      clean, filesBack := clean && done, done;
      assert trace[|old(trace)|..] == trace[|old(trace)|..middle] + trace[middle..];
    }

    /** The entry of an enable admitted now. */
    ghost function EntryOf(r: Route, freshToken: string): Entry
      reads this
    {
      var p := Loaded(Now());
      var source := Script(r.domains, r.proxy.port);
      Entry(Instant(), r, source, PacUrl(source),
            if p.enabled then p.token else freshToken,
            if p.enabled then p.previous else Some(registry))
    }

    /** The `try` statement: apply, and undo if any step raised. */
    method Transact(ghost e: Entry, pending: Policy, final: Policy, source: Pac) returns (r: EnableResult, ghost filesBack: bool)
      requires EntryFits(e) && Instant() == e.start && e.source == source && e.url == PacUrl(source)
      requires pending == PendingOf(e) && final == FinalOf(e)
      modifies this`registry, this`policy, this`pac, this`serving, this`baseline, this`committed, this`trace, this`faults
      ensures (r.Enabled? || r.Raised?) && old(trace) <= trace
      ensures if r.Enabled? then faults == old(faults) else faults > old(faults) + (if r.clean then 0 else 1)
      ensures EnableOutcome(e, r, Instant(), trace[|old(trace)|..])
      ensures r.Enabled? ==> MixedMoment(e) in trace[|old(trace)|..]
      ensures r.Raised? && filesBack ==> FilesBack(e, Instant())
    {
      var previous, snapshot, oldPac := Loaded(Now()), registry, pac;
      ghost var begin := |trace|;
      var ok, changed := Apply(e, pending, final, source);
      if ok {
        return Enabled, true;
      }
      ghost var middle := |trace|;
      var clean;
      clean, filesBack := RollBack(e, previous, snapshot, oldPac, pending.token, changed);
      assert trace[begin..] == trace[begin..middle] + trace[middle..];
      r := Raised(clean);
    }

    /** The route is already active and healthy; `probed` is what its PAC and
        bridge answer. */
    predicate Same(route: Route, probed: bool)
      reads this
    {
      var p := Loaded(Now());
      && p.enabled && p.domains == Some(route.domains) && p.proxy == Some(route.proxy)
      && Healthy(Now(), p.token) && pac.Some? && probed
    }

    /** Why an enable changes nothing; `reachable` is whether the SOCKS5
        provider answers. */
    function Verdict(q: Request, probed: bool, reachable: bool): Option<EnableResult>
      reads this
    {
      if Wanted(q, idna).Err? then Some(Refused(Wanted(q, idna).error))
      else if Admission(Now()).Some? then Some(Refused(Admission(Now()).value))
      else if Same(Wanted(q, idna).value, probed) then Some(Unchanged)
      else if !reachable then Some(Refused(SocksUnreachable))
      else None
    }

    /** A verdict has no effect; without one the call commits when no step
        fails, and raises only when one did. */
    method Enable(q: Request, freshToken: string, probed: bool, reachable: bool)
      returns (r: EnableResult, ghost filesBack: bool)
      requires Valid() && freshToken != ""
      modifies this`registry, this`policy, this`pac, this`serving, this`baseline, this`committed, this`trace, this`faults
      ensures Valid() && old(trace) <= trace
      ensures old(Verdict(q, probed, reachable)).Some? ==>
                r == old(Verdict(q, probed, reachable)).value && Instant() == old(Instant()) && trace == old(trace)
      ensures r.Unchanged? ==> Wanted(q, idna).Ok? && Served(Now()) == Some(Wanted(q, idna).value)
      ensures old(Verdict(q, probed, reachable)).None? ==>
                && (r.Enabled? || r.Raised?) && Wanted(q, idna).Ok?
                && EntryFits(old(EntryOf(Wanted(q, idna).value, freshToken)))
                && EnableOutcome(old(EntryOf(Wanted(q, idna).value, freshToken)), r, Instant(), trace[|old(trace)|..])
      ensures r.Enabled? ==> MixedMoment(old(EntryOf(Wanted(q, idna).value, freshToken))) in trace[|old(trace)|..]
      ensures r.Raised? && filesBack ==> FilesBack(old(EntryOf(Wanted(q, idna).value, freshToken)), Instant())
      ensures if r.Raised? then faults > old(faults) + (if r.clean then 0 else 1) else faults == old(faults)
    {
      var wanted := Wanted(q, idna);
      if wanted.Err? {
        return Refused(wanted.error), true;
      }
      var route := wanted.value;
      var refusal := Admission(Now());
      if refusal.Some? {
        return Refused(refusal.value), true;
      }
      var previous := Loaded(Now());
      var restore := if previous.enabled then previous.previous else Some(registry);
      var token := if previous.enabled then previous.token else freshToken;
      if previous.enabled && previous.domains == Some(route.domains) && previous.proxy == Some(route.proxy)
         && Healthy(Now(), token) && pac.Some? && probed
      {
        return Unchanged, true;
      }
      if !reachable {
        return Refused(SocksUnreachable), true;
      }
      var source := Script(route.domains, route.proxy.port);
      ghost var e := EntryOf(route, freshToken);
      r, filesBack := Transact(e, Policy(previous.enabled, true, previous.domains, Some(route.proxy), PacUrl(source), token, restore),
                    Policy(true, false, Some(route.domains), Some(route.proxy), PacUrl(source), token, restore), source);
      OutcomeIsSound(e, r, Instant(), trace[|old(trace)|..]);
    }

    // ----- disable -----

    /** `_restore` with its verification; stops at the first step that raises. */
    method RestoreImage(image: Image) returns (ok: bool)
      modifies this`registry, this`trace, this`faults
      ensures if ok then faults == old(faults) else faults > old(faults)
      ensures ok ==> |trace| > |old(trace)| && trace[|trace| - 1] == Instant()
      ensures ok ==> registry == image
      ensures registry.auto in {old(registry).auto, image.auto}
      ensures registry.proxyEnable in {old(registry).proxyEnable, image.proxyEnable}
      ensures old(trace) <= trace
      ensures forall i | |old(trace)| <= i < |trace| ::
                && trace[i].world.policy == policy && trace[i].world.pac == pac && trace[i].world.serving == serving
                && trace[i].baseline == baseline && trace[i].committed == committed
                && RegistryBetween(old(registry), image, trace[i].world.registry)
    {
      ok := WriteAuto(image.auto);
      if !ok { return; }
      ok := WriteProxyEnable(image.proxyEnable);
      if !ok { return; }
      ok := *;                                   // the refresh notification
      faults := if ok then faults else faults + 1;
      ok := ok && registry == image;
    }

    /** The settings are already the saved image: only stop and record. */
    method ClearRecord() returns (r: DisableResult)
      requires Valid() && BranchOf(Now()).CleanUp?
      modifies this`registry, this`policy, this`serving, this`baseline, this`committed, this`trace, this`faults
      ensures Valid() && old(trace) <= trace && committed == old(committed)
      ensures DisableOutcome(old(Instant()), r, Instant(), trace[|old(trace)|..])
      ensures r == Restored(true) <==> faults == old(faults)
    {
      var p := Loaded(Now());
      var stopped := StopService(p.token);
      if !stopped {
        return ServerStillActive;
      }
      var ok := WritePolicy(Cleared(p), None, committed);
      return if ok then Restored(true) else WriteRaised;
    }

    /** Restore the saved image, record it, stop the service. */
    method RestoreAndClear() returns (r: DisableResult)
      requires Valid() && BranchOf(Now()).RestoreBaseline?
      modifies this`registry, this`policy, this`serving, this`baseline, this`committed, this`trace, this`faults
      ensures Valid() && old(trace) <= trace && committed == old(committed)
      ensures DisableOutcome(old(Instant()), r, Instant(), trace[|old(trace)|..])
      ensures r.Restored? ==> UnrecordedMoment(old(Instant())) in trace[|old(trace)|..]
      ensures r == Restored(true) <==> faults == old(faults)
    {
      var p := Loaded(Now());
      var ok := RestoreImage(p.previous.value);
      if !ok {
        return RestoreIncomplete;
      }
      ghost var back := |trace| - 1;
      assert trace[back] == UnrecordedMoment(old(Instant()));
      ok := WritePolicy(Cleared(p), None, committed);
      if !ok {
        return RestoreIncomplete;
      }
      var stopped := StopService(p.token);
      assert trace[|old(trace)|..][back - |old(trace)|] == UnrecordedMoment(old(Instant()));
      return Restored(stopped);
    }

    method Disable() returns (r: DisableResult)
      requires Valid()
      modifies this`registry, this`policy, this`serving, this`baseline, this`committed, this`trace, this`faults
      ensures Valid() && old(trace) <= trace && committed == old(committed)
      ensures DisableOutcome(old(Instant()), r, Instant(), trace[|old(trace)|..])
      ensures r.Restored? && BranchOf(old(Now())).RestoreBaseline? ==> UnrecordedMoment(old(Instant())) in trace[|old(trace)|..]
      ensures r == Off || r == SnapshotFailed || r == ProxyDrift || r == Restored(true) <==> faults == old(faults)
    {
      match BranchOf(Now())
      case AlreadyDisabled => return Off;
      case Unsupported => return SnapshotFailed;
      case DriftRefusal => return ProxyDrift;
      case CleanUp => r := ClearRecord();
      case RestoreBaseline => r := RestoreAndClear();
    }
  }
}
