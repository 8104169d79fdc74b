/** The Linux port of the selective route: two GNOME settings, a PAC file, a
    policy file and a user service. Each read and each write of a setting is a
    command of its own, and other programs may change the settings before any
    of them, also between reading a URL and writing over it. A write may take
    effect and still raise, when its command times out. */
module SelectiveLinux {
  import opened Prelude
  import opened DomainPolicy

  const URL := "http://127.0.0.1:19416/route.pac"

  datatype Mode = NoProxy | Auto | Manual | Unknown(name: string)

  datatype Settings = Settings(mode: Mode, url: string)

  datatype Pac = Script(domains: seq<string>, port: int) | Bytes(text: string)

  datatype Provider = Cfon | Warp | Gool | Tor | Node | Custom

  datatype Policy = Policy(enabled: bool, domains: seq<string>, port: int, provider: Option<Provider>,
                           previous: Option<Settings>, pacUrl: Option<string>)

  const EMPTY := Policy(false, [], 0, None, None, None)

  /** The service unit file: missing, this program's, or somebody else's. */
  datatype Unit = Missing | Owned | Foreign

  datatype Request = Request(domains: string, port: int, provider: Option<Provider>)

  datatype Refusal =
    | DomainsInvalid(why: DomainError) | PortInvalid | MethodInvalid | SettingsDrift | ProxyForeign
    | BaselineInvalid | ProbeFailed | ServiceNotOwned | SettingsUnreadable

  datatype ApplyResult = Enabled | Unchanged | Refused(why: Refusal) | Raised(clean: bool)

  datatype DisableResult = Off | Restored | Drift | RollbackStateInvalid | Partial | Unreadable

  predicate ValidBaseline(s: Settings) {
    !s.mode.Unknown? && |s.url| <= 4096
  }

  predicate OwnUrl(url: string) {
    url == URL || URL + "?v=" <= url
  }

  function Loaded(p: Option<Policy>): Policy {
    if p.Some? then p.value else EMPTY
  }

  function ActiveUrl(p: Policy): string {
    if p.pacUrl.Some? && p.pacUrl.value != "" then p.pacUrl.value else URL
  }

  /** What every stored record keeps. */
  predicate RecordOk(p: Policy) {
    p.enabled ==>
      && p.pacUrl.Some? && OwnUrl(p.pacUrl.value)
      && p.previous.Some? && ValidBaseline(p.previous.value)
      && !(p.previous.value.mode == Auto && OwnUrl(p.previous.value.url))
  }

  function Wanted(q: Request, idna: Idna): Result<seq<string>, Refusal> {
    match Normalize(Linux, q.domains, idna)
    case Err(e) => Err(DomainsInvalid(e))
    case Ok(hosts) =>
      if q.provider.None? then Err(MethodInvalid)
      else if !(1024 <= q.port <= 65535) then Err(PortInvalid)
      else Ok(hosts)
  }

  /** The refusals that depend on the stored state. */
  function Admission(p: Policy, s: Settings): Option<Refusal> {
    if p.enabled && s != Settings(Auto, ActiveUrl(p)) then Some(SettingsDrift)
    else if !p.enabled && s.mode == Auto && OwnUrl(s.url) then Some(ProxyForeign)
    else if !ValidBaseline(s) then Some(BaselineInvalid)
    else None
  }

  // ----- other programs -----

  /** What other programs set just before this program's n-th access to the
      settings, if they do. */
  type Traffic = nat -> Option<Settings>

  /** The settings that access finds. */
  function Met(traffic: Traffic, n: nat, s: Settings): Settings {
    match traffic(n)
    case None => s
    case Some(theirs) => theirs
  }

  /** A write of the URL: what it replaced, the URL this program last read
      before it, and its number among the accesses. */
  datatype UrlWrite = UrlWrite(wrote: string, read: string, found: string, at: nat)

  /** The access before this write read the URL, and the write is the very next:
      it replaces another URL than the one read exactly when another program set
      one between the two. */
  predicate ReadJustBefore(traffic: Traffic, w: UrlWrite) {
    && w.found == Met(traffic, w.at, Settings(NoProxy, w.read)).url
    && (w.found != w.read <==> traffic(w.at).Some? && traffic(w.at).value.url != w.read)
  }

  predicate GuardedWrite(traffic: Traffic, w: UrlWrite, own: string) {
    w.read == own && ReadJustBefore(traffic, w)
  }

  /** Only writes to the end of the list, at most `most` of them. */
  predicate Appended(before: seq<UrlWrite>, after: seq<UrlWrite>, most: nat) {
    before <= after && |after| <= |before| + most
  }

  class SelectiveTunnel {
    const digest: Pac -> string
    const idna: Idna
    const traffic: Traffic
    /** Whether the n-th access to the settings raises, and whether a write that
        raises has taken effect (a command may time out after it did). */
    const raises: nat -> bool
    const lands: nat -> bool
    /** Whether the n-th other step raises. */
    const fails: nat -> bool

    var settings: Settings
    var policy: Option<Policy>
    var pac: Option<Pac>
    var unit: Unit
    var active: bool
    /** Accesses to the settings, and other steps, so far. */
    var clock: nat
    var steps: nat

    /** The URL last read. */
    ghost var lastRead: string
    ghost var writes: seq<UrlWrite>
    /** Another program changed the settings during the current call. */
    ghost var disturbed: bool
    /** How many steps have failed. */
    ghost var faults: nat

    function PacUrl(p: Pac): string {
      URL + "?v=" + digest(p)
    }

    /** What the stored policy keeps: an enabled record names this program's own
        URL and a baseline that can be restored and is not this program's. */
    ghost predicate Valid()
      reads this
    {
      RecordOk(Loaded(policy))
    }

    constructor (digest: Pac -> string, idna: Idna, traffic: Traffic, raises: nat -> bool, lands: nat -> bool, fails: nat -> bool,
                 settings: Settings, policy: Option<Policy>, pac: Option<Pac>, unit: Unit)
      requires RecordOk(Loaded(policy))
      ensures Valid()
      ensures this.digest == digest && this.idna == idna && this.traffic == traffic
      ensures this.raises == raises && this.lands == lands && this.fails == fails
      ensures this.settings == settings && this.policy == policy && this.pac == pac && this.unit == unit
      ensures !active && clock == 0 && steps == 0 && writes == [] && faults == 0
    {
      this.digest, this.idna, this.traffic := digest, idna, traffic;
      this.raises, this.lands, this.fails, steps := raises, lands, fails, 0;
      this.settings, this.policy, this.pac, this.unit, active, clock := settings, policy, pac, unit, false, 0;
      lastRead, writes, disturbed, faults := "", [], false, 0;
    }

    /** Whether a write at the n-th access takes effect. */
    predicate Takes(n: nat) {
      !raises(n) || lands(n)
    }

    /** No other program, no raising access, no failing step. */
    ghost predicate Quiet() {
      forall n :: traffic(n).None?
    }

    ghost predicate Calm() {
      forall n :: !raises(n)
    }

    ghost predicate Steady() {
      forall n :: !fails(n)
    }

    // ----- accesses to the settings: each takes effect, raises, or both -----

    /** Other programs come first. */
    method Arrive() returns (ok: bool)
      modifies this`settings, this`clock, this`disturbed, this`faults
      ensures clock == old(clock) + 1 && ok == !raises(old(clock))
      ensures settings == Met(traffic, old(clock), old(settings))
      ensures disturbed == (old(disturbed) || traffic(old(clock)).Some?)
      ensures faults == old(faults) + (if ok then 0 else 1)
    {
      settings := Met(traffic, clock, settings);
      disturbed := disturbed || traffic(clock).Some?;
      ok := !raises(clock);
      faults := if ok then faults else faults + 1;
      clock := clock + 1;
    }

    method ReadMode() returns (r: Option<Mode>)
      modifies this`settings, this`clock, this`disturbed, this`faults
      ensures clock == old(clock) + 1 && r.Some? == !raises(old(clock))
      ensures settings == Met(traffic, old(clock), old(settings)) && (r.Some? ==> r.value == settings.mode)
      ensures disturbed == (old(disturbed) || traffic(old(clock)).Some?)
      ensures faults == old(faults) + (if r.Some? then 0 else 1)
    {
      var ok := Arrive();
      r := if ok then Some(settings.mode) else None;
    }

    method ReadUrl() returns (r: Option<string>)
      modifies this`settings, this`clock, this`disturbed, this`faults, this`lastRead
      ensures clock == old(clock) + 1 && r.Some? == !raises(old(clock))
      ensures settings == Met(traffic, old(clock), old(settings)) && (r.Some? ==> r.value == settings.url == lastRead)
      ensures disturbed == (old(disturbed) || traffic(old(clock)).Some?)
      ensures faults == old(faults) + (if r.Some? then 0 else 1)
    {
      var ok := Arrive();
      if ok {
        lastRead := settings.url;
      }
      r := if ok then Some(settings.url) else None;
    }

    method SetUrl(url: string) returns (ok: bool)
      modifies this`settings, this`clock, this`disturbed, this`faults, this`writes
      ensures clock == old(clock) + 1 && ok == !raises(old(clock))
      ensures disturbed == (old(disturbed) || traffic(old(clock)).Some?)
      ensures faults == old(faults) + (if ok then 0 else 1)
      ensures
        var met := Met(traffic, old(clock), old(settings));
        if Takes(old(clock)) then settings == met.(url := url) && writes == old(writes) + [UrlWrite(url, lastRead, met.url, old(clock))]
        else settings == met && writes == old(writes)
    {
      ok := Arrive();
      if Takes(clock - 1) {
        writes := writes + [UrlWrite(url, lastRead, settings.url, clock - 1)];
        settings := settings.(url := url);
      }
    }

    method SetMode(mode: Mode) returns (ok: bool)
      modifies this`settings, this`clock, this`disturbed, this`faults
      ensures clock == old(clock) + 1 && ok == !raises(old(clock))
      ensures disturbed == (old(disturbed) || traffic(old(clock)).Some?)
      ensures faults == old(faults) + (if ok then 0 else 1)
      ensures
        var met := Met(traffic, old(clock), old(settings));
        settings == if Takes(old(clock)) then met.(mode := mode) else met
    {
      ok := Arrive();
      if Takes(clock - 1) {
        settings := settings.(mode := mode);
      }
    }

    /** Both settings, the mode first. */
    method Snapshot() returns (r: Option<Settings>)
      modifies this`settings, this`clock, this`disturbed, this`faults, this`lastRead
      ensures r.Some? ==> r.value == Settings(Met(traffic, old(clock), old(settings)).mode, settings.url)
      ensures r.Some? ==> clock == old(clock) + 2 && lastRead == settings.url && faults == old(faults)
      ensures r.Some? == SnapshotReads(old(clock))
      ensures r.Some? ==> settings == Met(traffic, old(clock) + 1, Met(traffic, old(clock), old(settings)))
      ensures r.None? ==> faults > old(faults)
      ensures !disturbed ==> settings == old(settings) && (r.Some? ==> r.value == old(settings))
      ensures (old(disturbed) ==> disturbed) && (Quiet() && !old(disturbed) ==> !disturbed)
    {
      var mode := ReadMode();
      if mode.None? {
        return None;
      }
      var url := ReadUrl();
      r := if url.Some? then Some(Settings(mode.value, url.value)) else None;
    }

    predicate SnapshotReads(n: nat) {
      !raises(n) && !raises(n + 1)
    }

    // ----- the other single steps -----

    method WritePac(p: Option<Pac>) returns (ok: bool)
      modifies this`pac, this`faults, this`steps
      ensures faults == old(faults) + (if ok then 0 else 1) && ok == !fails(old(steps)) && steps == old(steps) + 1
      ensures pac == if ok then p else old(pac)
    {
      ok := Raises();
      if ok {
        pac := p;
      }
    }

    method WritePolicy(p: Policy) returns (ok: bool)
      modifies this`policy, this`faults, this`steps
      ensures faults == old(faults) + (if ok then 0 else 1) && ok == !fails(old(steps)) && steps == old(steps) + 1
      ensures policy == if ok then Some(p) else old(policy)
    {
      ok := Raises();
      if ok {
        policy := Some(p);
      }
    }

    method WriteUnit(u: Unit) returns (ok: bool)
      modifies this`unit, this`faults, this`steps
      ensures faults == old(faults) + (if ok then 0 else 1) && ok == !fails(old(steps)) && steps == old(steps) + 1
      ensures unit == if ok then u else old(unit)
    {
      ok := Raises();
      if ok {
        unit := u;
      }
    }

    method ServiceCtl(start: bool) returns (ok: bool)
      modifies this`active, this`faults, this`steps
      ensures faults == old(faults) + (if ok then 0 else 1) && ok == !fails(old(steps)) && steps == old(steps) + 1
      ensures ok ==> active == start
    {
      ok := Raises();
      if ok {
        active := start;
      } else {
        active := *;                             // it may have taken effect
      }
    }

    /** A step without an effect of its own: it succeeds or raises. */
    method Raises() returns (ok: bool)
      modifies this`faults, this`steps
      ensures faults == old(faults) + (if ok then 0 else 1) && ok == !fails(old(steps)) && steps == old(steps) + 1
    {
      ok := !fails(steps);
      steps := steps + 1;
      faults := if ok then faults else faults + 1;
    }

    // ----- apply -----

    /** The steps of the `try` before it touches the settings. */
    method Prepare(source: Pac) returns (ok: bool)
      modifies this`unit, this`pac, this`active, this`faults, this`steps
      ensures Steady() ==> ok
      ensures ok ==> pac == Some(source) && active && faults == old(faults)
      ensures !ok ==> faults > old(faults) && pac in {old(pac), Some(source)}
      ensures unit in {old(unit), Owned} && (old(unit) != Missing ==> unit == old(unit))
    {
      ok := true;
      if unit == Missing {
        ok := WriteUnit(Owned);
        if !ok { return; }
      }
      ok := WritePac(Some(source));
      if !ok { return; }
      ok := Raises();                            // daemon-reload
      if !ok { return; }
      ok := ServiceCtl(true);
      if !ok { return; }
      ok := Raises();                            // up to three seconds of polling
    }

    /** The two settings and their check; `changed` tells whether the URL was
        set. The write replaces what another program set since the snapshot. */
    method Switch(url: string) returns (ok: bool, changed: bool)
      modifies this`settings, this`clock, this`disturbed, this`faults, this`lastRead, this`writes
      ensures faults >= old(faults) && (ok ==> changed && faults == old(faults))
      ensures !ok ==> faults > old(faults) || disturbed
      ensures changed == !raises(old(clock))
      ensures writes == old(writes) + if Takes(old(clock))
                          then [UrlWrite(url, old(lastRead), Met(traffic, old(clock), old(settings)).url, old(clock))] else []
      ensures (old(disturbed) ==> disturbed) && (Quiet() && !old(disturbed) ==> !disturbed)
      ensures !disturbed && ok ==> settings == Settings(Auto, url)
      ensures !disturbed && !changed ==> settings == if lands(old(clock)) then old(settings).(url := url) else old(settings)
      ensures !disturbed && changed ==> settings.url == url
    {
      ok := SetUrl(url);
      changed := ok;
      if !ok { return; }
      ok := SetMode(Auto);
      if !ok { return; }
      var seenUrl := ReadUrl();
      if seenUrl.None? { ok := false; return; }
      if seenUrl.value != url { ok := false; return; }
      var seenMode := ReadMode();
      ok := seenMode == Some(Auto);
    }

    /** The installing write, at this access, raised after taking effect. */
    predicate StrayWrite(before: seq<UrlWrite>, after: seq<UrlWrite>, at: nat) {
      |after| > |before| && raises(at)
    }

    /** The writes inside the `try`. */
    method Install(source: Pac, final: Policy) returns (ok: bool, changed: bool)
      requires final.pacUrl == Some(PacUrl(source))
      modifies this
      ensures ok ==> faults == old(faults) && changed && policy == Some(final) && pac == Some(source) && active
      ensures faults >= old(faults) && (!ok ==> faults > old(faults) || disturbed)
      ensures !ok ==> policy == old(policy) && pac in {old(pac), Some(source)}
      ensures unit in {old(unit), Owned} && (old(unit) != Missing ==> unit == old(unit))
      ensures changed ==> !raises(old(clock))
      ensures Steady() ==> changed == !raises(old(clock)) && (|writes| > |old(writes)| <==> Takes(old(clock)))
      ensures writes == old(writes) || writes == old(writes) +
                [UrlWrite(PacUrl(source), old(lastRead), Met(traffic, old(clock), old(settings)).url, old(clock))]
      ensures |writes| > |old(writes)| <==> changed || StrayWrite(old(writes), writes, old(clock))
      ensures (old(disturbed) ==> disturbed) && (Quiet() && !old(disturbed) ==> !disturbed)
      ensures !disturbed && ok ==> settings == Settings(Auto, PacUrl(source))
      ensures !disturbed && !changed ==>
                settings == if |writes| > |old(writes)| then old(settings).(url := PacUrl(source)) else old(settings)
      ensures !disturbed && changed ==> settings.url == PacUrl(source)
    {
      changed := false;
      ok := Prepare(source);
      if !ok { return; }
      ok, changed := Switch(PacUrl(source));
      if !ok { return; }
      ok := WritePolicy(final);
    }

    /** Whether the rollback writes a URL: it reads its own, that read does not
        raise, and the write takes effect. */
    predicate RollsUrlBack(own: string, changed: bool)
      reads this
    {
      changed && !raises(clock) && Met(traffic, clock, settings).url == own && Takes(clock + 1)
    }

    /** The settings part of the `except` block. */
    method RollBackSettings(own: string, before: Settings, changed: bool) returns (stop: bool, clean: bool)
      modifies this`settings, this`clock, this`disturbed, this`faults, this`lastRead, this`writes
      ensures stop ==> !clean
      ensures faults >= old(faults) + (if clean then 0 else 1)
      ensures writes == old(writes) + if old(RollsUrlBack(own, changed))
                          then [UrlWrite(before.url, own, Met(traffic, old(clock) + 1, Met(traffic, old(clock), old(settings))).url, old(clock) + 1)]
                          else []
      ensures !changed ==> settings == old(settings) && clock == old(clock)
      ensures (old(disturbed) ==> disturbed) && (Quiet() && !old(disturbed) ==> !disturbed)
      ensures !changed ==> clean && !stop && disturbed == old(disturbed)
      ensures clean && !disturbed ==> settings == (if changed && old(settings).url == own then before else old(settings))
    {
      stop, clean := false, true;
      if changed {
        var url := ReadUrl();
        if url.None? {
          stop, clean := true, false;            // reading the URL raised again
          return;
        }
        if url.value == own {
          clean := SetUrl(before.url);
          if clean {
            clean := SetMode(before.mode);
          }
        }
      }
    }

    /** When that write replaces another program's URL: exactly when one was set
        between the read and the write. */
    predicate RollBackLosesForeign(own: string, changed: bool)
      reads this
    {
      RollsUrlBack(own, changed) && traffic(clock + 1).Some? && traffic(clock + 1).value.url != own
    }

    /** The `except` block: it writes a URL back only after reading the URL this
        call set. */
    method RollBack(source: Pac, before: Settings, oldPac: Option<Pac>, wasEnabled: bool, created: bool, changed: bool)
      returns (clean: bool)
      modifies this
      ensures policy == old(policy) && (old(disturbed) ==> disturbed) && (Quiet() && !old(disturbed) ==> !disturbed)
      ensures faults >= old(faults) + (if clean then 0 else 1)
      ensures writes == old(writes) + if old(RollsUrlBack(PacUrl(source), changed))
                          then [UrlWrite(before.url, PacUrl(source),
                                         Met(traffic, old(clock) + 1, Met(traffic, old(clock), old(settings))).url, old(clock) + 1)]
                          else []
      ensures old(RollBackLosesForeign(PacUrl(source), changed)) <==>
                |writes| > |old(writes)| && writes[|old(writes)|].found != PacUrl(source)
      ensures Steady() && !changed ==> clean
      ensures clean ==> pac == oldPac
      ensures clean && !disturbed ==>
                settings == (if changed && old(settings).url == PacUrl(source) then before else old(settings))
      ensures !changed ==> settings == old(settings)
      ensures clean && created && old(unit) != Foreign ==> unit == Missing
      ensures !created ==> unit == old(unit)
    {
      var stop;
      stop, clean := RollBackSettings(PacUrl(source), before, changed);
      if stop { return; }
      var done := WritePac(oldPac);
      if !done { clean := false; return; }
      if !wasEnabled {
        var _ := ServiceCtl(false);
      }
      if created {
        done := WriteUnit(Missing);
        clean := clean && done;
      }
    }

    /** The URL writes of one apply that began after reading `seen`: at most the
        one that installs and the one that rolls back. The installing write
        replaces a URL other than the one read exactly when another program set
        one since; the other is guarded. */
    predicate ApplyWrites(before: seq<UrlWrite>, after: seq<UrlWrite>, seen: Settings, own: string) {
      && Appended(before, after, 2)
      && (|after| > |before| ==>
            && after[|before|].wrote == own && after[|before|].read == seen.url
            && ReadJustBefore(traffic, after[|before|]))
      && (|after| > |before| + 1 ==> after[|before| + 1].wrote == seen.url && GuardedWrite(traffic, after[|before| + 1], own))
    }

    /** The `try` statement: install, and undo if any step raised. */
    method Transact(source: Pac, final: Policy, before: Settings, wasEnabled: bool) returns (r: ApplyResult)
      requires final.pacUrl == Some(PacUrl(source)) && unit != Foreign
      requires lastRead == before.url == settings.url && (!disturbed ==> before == settings)
      modifies this
      ensures r.Enabled? || r.Raised?
      ensures (old(disturbed) ==> disturbed) && (Quiet() && !old(disturbed) ==> !disturbed)
      ensures r.Enabled? ==> !raises(old(clock))
      ensures Steady() && raises(old(clock)) ==> r == Raised(true) && (|writes| > |old(writes)| <==> lands(old(clock)))
      ensures r.Enabled? ==> faults == old(faults) && policy == Some(final) && pac == Some(source) && active
      ensures r.Enabled? && !disturbed ==> settings == Settings(Auto, PacUrl(source))
      ensures r.Raised? ==> policy == old(policy) && (faults > old(faults) || disturbed)
      ensures ApplyWrites(old(writes), writes, before, PacUrl(source)) && (r.Enabled? ==> |writes| == |old(writes)| + 1)
      ensures r == Raised(true) ==> pac == old(pac) && (!disturbed ==> unit == old(unit))
      ensures r == Raised(true) && !disturbed ==>
                settings == if StrayWrite(old(writes), writes, old(clock)) then old(settings).(url := PacUrl(source)) else old(settings)
      ensures r == Raised(false) ==> faults > old(faults)
    {
      var oldPac, created := pac, unit == Missing;
      var ok, changed := Install(source, final);
      if ok {
        return Enabled;
      }
      var clean := RollBack(source, before, oldPac, wasEnabled, created, changed);
      return Raised(clean);
    }

    /** The route is the stored one and `healthy`, what the status reports. */
    predicate Same(q: Request, hosts: seq<string>, healthy: bool)
      reads this
    {
      var p := Loaded(policy);
      p.enabled && p.domains == hosts && p.port == q.port && p.provider == q.provider && healthy
    }

    /** Why an apply that read the settings as `seen` changes nothing; `probed`
        is whether the provider answers. */
    function Verdict(q: Request, seen: Settings, probed: bool, healthy: bool): Option<ApplyResult>
      reads this
    {
      var wanted := Wanted(q, idna);
      var refusal := Admission(Loaded(policy), seen);
      if wanted.Err? then Some(Refused(wanted.error))
      else if refusal.Some? then Some(Refused(refusal.value))
      else if !probed then Some(Refused(ProbeFailed))
      else if Same(q, wanted.value, healthy) then Some(Unchanged)
      else if unit == Foreign then Some(Refused(ServiceNotOwned))
      else None
    }

    /** The record a first apply or a re-apply stores. */
    function FinalOf(q: Request, hosts: seq<string>, seen: Settings): Policy
      reads this
    {
      var p := Loaded(policy);
      Policy(true, hosts, q.port, q.provider, if p.enabled then p.previous else Some(seen),
             Some(PacUrl(Script(hosts, q.port))))
    }

    /** The part of an apply before it writes anything. */
    method Admit(q: Request, probed: bool, healthy: bool) returns (r: Option<ApplyResult>, seen: Settings)
      modifies this`settings, this`clock, this`disturbed, this`faults, this`lastRead
      ensures (!disturbed ==> seen == settings == old(settings)) && (Quiet() ==> !disturbed)
      ensures r.None? ==> clock == old(clock) + 2
      ensures r == Some(Refused(SettingsUnreadable)) <==> Wanted(q, idna).Ok? && !SnapshotReads(old(clock))
      ensures r != Some(Refused(SettingsUnreadable)) ==> r == Verdict(q, seen, probed, healthy) && faults == old(faults)
      ensures faults >= old(faults)
      ensures r.None? ==> lastRead == seen.url == settings.url && Wanted(q, idna).Ok? && unit != Foreign
    {
      disturbed := false;
      seen := settings;
      var wanted := Wanted(q, idna);
      if wanted.Err? {
        return Some(Refused(wanted.error)), seen;
      }
      var read := Snapshot();
      if read.None? {
        return Some(Refused(SettingsUnreadable)), seen;
      }
      seen := read.value;
      var refusal := Admission(Loaded(policy), seen);
      if refusal.Some? {
        return Some(Refused(refusal.value)), seen;
      }
      if !probed {
        return Some(Refused(ProbeFailed)), seen;
      }
      if Same(q, wanted.value, healthy) {
        return Some(Unchanged), seen;
      }
      if unit == Foreign {
        return Some(Refused(ServiceNotOwned)), seen;
      }
      return None, seen;
    }

    /** A verdict writes nothing. Enabled: the four pieces are the new ones.
        Raised with a clean rollback and no other program about: they are the
        ones at entry, unless the installing URL write raised after it took
        effect, and then the URL is that one. It raises only if a step failed or others interfered, and
        which URLs it replaces `ApplyWrites` says exactly. */
    method Apply(q: Request, probed: bool, healthy: bool) returns (r: ApplyResult, ghost seen: Settings)
      requires Valid()
      modifies this
      ensures Valid()
      ensures (!disturbed ==> seen == old(settings)) && (Quiet() ==> !disturbed)
      ensures r == Refused(SettingsUnreadable) <==> Wanted(q, idna).Ok? && !SnapshotReads(old(clock))
      ensures old(Verdict(q, seen, probed, healthy)).Some? && r != Refused(SettingsUnreadable) ==>
                r == old(Verdict(q, seen, probed, healthy)).value
      ensures old(Verdict(q, seen, probed, healthy)).None? && r != Refused(SettingsUnreadable) ==>
                Wanted(q, idna).Ok? && (r.Enabled? || r.Raised?)
      ensures r.Refused? || r.Unchanged? ==>
                policy == old(policy) && pac == old(pac) && unit == old(unit) && writes == old(writes)
                && (!disturbed ==> settings == old(settings))
      ensures r.Enabled? ==>
                var source := Script(Wanted(q, idna).value, q.port);
                && policy == Some(old(FinalOf(q, Wanted(q, idna).value, seen))) && faults == old(faults)
                && pac == Some(source) && active && (!disturbed ==> settings == Settings(Auto, PacUrl(source)))
      ensures r.Raised? ==> Wanted(q, idna).Ok? && policy == old(policy) && (faults > old(faults) || disturbed)
      ensures r.Enabled? || r.Raised? ==>
                ApplyWrites(old(writes), writes, seen, PacUrl(Script(Wanted(q, idna).value, q.port)))
      ensures r == Raised(true) ==> pac == old(pac) && (!disturbed ==> unit == old(unit))
      ensures r == Raised(true) && !disturbed ==>
                settings == if StrayWrite(old(writes), writes, old(clock) + 2)
                            then old(settings).(url := PacUrl(Script(Wanted(q, idna).value, q.port))) else old(settings)
      ensures r.Enabled? ==> !raises(old(clock) + 2)
      ensures (r.Enabled? || r.Raised?) && Steady() && raises(old(clock) + 2) ==>
                r == Raised(true) && (|writes| > |old(writes)| <==> lands(old(clock) + 2))
      ensures r == Raised(false) ==> faults > old(faults)
    {
      var verdict, before := Admit(q, probed, healthy);
      seen := before;
      if verdict.Some? {
        return verdict.value, seen;
      }
      var hosts := Wanted(q, idna).value;
      r := Transact(Script(hosts, q.port), FinalOf(q, hosts, before), before, Loaded(policy).enabled);
    }

    // ----- disable -----

    /** What the drift check reads, when both reads succeed. */
    function Checked(): Settings
      reads this
    {
      var first := Met(traffic, clock, settings);
      Settings(first.mode, Met(traffic, clock + 1, first).url)
    }

    /** The drift check: None when both values read are this program's. */
    method CheckDrift(own: Option<string>) returns (r: Option<DisableResult>)
      modifies this`settings, this`clock, this`disturbed, this`faults, this`lastRead
      ensures r == if raises(old(clock)) then Some(Unreadable)
                   else if old(Checked().mode) != Auto then Some(Drift)
                   else if raises(old(clock) + 1) then Some(Unreadable)
                   else if Some(old(Checked().url)) != own then Some(Drift) else None
      ensures faults >= old(faults) && (r == Some(Unreadable) <==> faults > old(faults))
      ensures r.None? ==> clock == old(clock) + 2 && own.Some? && settings.url == lastRead == own.value
      ensures (old(disturbed) ==> disturbed) && (Quiet() && !old(disturbed) ==> !disturbed)
      ensures !disturbed ==> settings == old(settings)
    {
      var mode := ReadMode();
      if mode.None? { return Some(Unreadable); }
      if mode.value != Auto { return Some(Drift); }
      var url := ReadUrl();
      if url.None? { return Some(Unreadable); }
      return if Some(url.value) != own then Some(Drift) else None;
    }

    /** The two restoring writes and their check. */
    method RestoreBaseline(target: Settings) returns (ok: bool)
      modifies this`settings, this`clock, this`disturbed, this`faults, this`lastRead, this`writes
      ensures writes == old(writes) + if Takes(old(clock))
                          then [UrlWrite(target.url, old(lastRead), Met(traffic, old(clock), old(settings)).url, old(clock))] else []
      ensures (raises(old(clock)) ==> !ok) && (Quiet() && Calm() && !old(disturbed) ==> ok)
      ensures faults >= old(faults) && (ok ==> faults == old(faults)) && (!ok ==> faults > old(faults) || disturbed)
      ensures (old(disturbed) ==> disturbed) && (Quiet() && !old(disturbed) ==> !disturbed)
      ensures ok && !disturbed ==> settings == target
    {
      ok := SetUrl(target.url);
      if !ok { return; }
      ok := SetMode(target.mode);
      if !ok { return; }
      var mode := ReadMode();
      if mode != Some(target.mode) { ok := false; return; }
      var url := ReadUrl();
      ok := url == Some(target.url);
    }

    /** What follows the check: the settings, the record, the service. */
    method RestoreAndRecord(target: Settings) returns (r: DisableResult)
      modifies this`settings, this`clock, this`steps, this`disturbed, this`faults, this`lastRead, this`writes, this`policy, this`active
      ensures r.Restored? || r.Partial?
      ensures writes == old(writes) + if Takes(old(clock))
                          then [UrlWrite(target.url, old(lastRead), Met(traffic, old(clock), old(settings)).url, old(clock))] else []
      ensures raises(old(clock)) ==> r.Partial?
      ensures if r.Restored? then faults == old(faults) else faults > old(faults) || disturbed
      ensures (old(disturbed) ==> disturbed) && (Quiet() && !old(disturbed) ==> !disturbed)
      ensures policy in {old(policy), Some(old(Loaded(policy)).(enabled := false, previous := None))}
      ensures r.Restored? ==> !active && policy == Some(old(Loaded(policy)).(enabled := false, previous := None))
      ensures r.Restored? && !disturbed ==> settings == target
      ensures Quiet() && Calm() && !old(disturbed) ==>
                settings == target && (fails(old(steps)) ==> r.Partial? && policy == old(policy))
    {
      var ok := RestoreBaseline(target);
      if !ok { return Partial; }
      ok := WritePolicy(Loaded(policy).(enabled := false, previous := None));
      if !ok { return Partial; }
      ok := ServiceCtl(false);
      r := if ok then Restored else Partial;
    }

    /** Whether a disable gets as far as writing the URL. */
    predicate DisableWrites()
      reads this
    {
      && Loaded(policy).enabled && SnapshotReads(clock) && Checked().mode == Auto
      && Some(Checked().url) == Loaded(policy).pacUrl && Takes(clock + 2)
    }

    /** When that write replaces another program's URL: exactly when one was set
        between the check and the write. */
    predicate DisableLosesForeign()
      reads this
    {
      && DisableWrites() && traffic(clock + 2).Some?
      && Some(traffic(clock + 2).value.url) != Loaded(policy).pacUrl
    }

    /** It writes a URL exactly when it has just read its own there, and that
        write is guarded; whether it then succeeds or stops in the middle, or
        refuses, the rest is as stated. */
    method Disable() returns (r: DisableResult)
      requires Valid()
      modifies this
      ensures Valid() && !r.RollbackStateInvalid?
      ensures r.Off? <==> !old(Loaded(policy)).enabled
      ensures r.Unreadable? || r.Partial? ==> faults > old(faults) || disturbed
      ensures r.Off? || r.Drift? || r.Restored? ==> faults == old(faults)
      ensures pac == old(pac) && unit == old(unit)
      ensures old(DisableWrites()) ==>
                && (r.Restored? || r.Partial?) && old(Loaded(policy)).pacUrl.Some?
                && |writes| == |old(writes)| + 1 && old(writes) <= writes
                && writes[|old(writes)|].wrote == old(Loaded(policy)).previous.value.url
                && writes[|old(writes)|].at == old(clock) + 2
                && GuardedWrite(traffic, writes[|old(writes)|], old(Loaded(policy)).pacUrl.value)
      ensures !old(DisableWrites()) ==> writes == old(writes) && !r.Restored?
      ensures old(DisableLosesForeign()) <==>
                |writes| > |old(writes)| && Some(writes[|old(writes)|].found) != old(Loaded(policy)).pacUrl
      ensures policy in {old(policy), Some(old(Loaded(policy)).(enabled := false, previous := None))}
      ensures Quiet() ==> !disturbed
      ensures r.Partial? ==> old(Checked().mode) == Auto && Some(old(Checked().url)) == old(Loaded(policy)).pacUrl
      ensures Quiet() && Calm() && old(DisableWrites()) ==>
                && Some(settings) == old(Loaded(policy)).previous
                && (fails(old(steps)) ==> r.Partial? && policy == old(policy))
      ensures r.Off? || r.Drift? || r.Unreadable? ==>
                policy == old(policy) && active == old(active) && (!disturbed ==> settings == old(settings))
      ensures r.Drift? ==> old(Checked().mode) != Auto || Some(old(Checked().url)) != old(Loaded(policy)).pacUrl
      ensures r.Restored? ==>
                && !active && policy == Some(old(Loaded(policy)).(enabled := false, previous := None))
                && (!disturbed ==> Some(settings) == old(Loaded(policy)).previous)
    {
      disturbed := false;
      var p := Loaded(policy);
      if !p.enabled {
        return Off;
      }
      var drift := CheckDrift(p.pacUrl);
      if drift.Some? {
        return drift.value;
      }
      if p.previous.None? || !ValidBaseline(p.previous.value) {
        return RollbackStateInvalid;
      }
      r := RestoreAndRecord(p.previous.value);
    }
  }

  // ----- a record that no longer fits the settings -----

  /** An enabled record and other settings than this program's: both calls
      refuse. The saved baseline is always such settings. */
  lemma DriftRefuses(p: Policy, s: Settings)
    requires RecordOk(p) && p.enabled
    ensures Admission(p, s) == Some(SettingsDrift) <==> s != Settings(Auto, p.pacUrl.value)
    ensures p.previous.value != Settings(Auto, p.pacUrl.value)
  {
  }

  datatype Call = Applies(q: Request, probed: bool, healthy: bool) | Disables

  /** However often they are called: until another program sets the settings,
      nothing changes. */
  method Retry(t: SelectiveTunnel, calls: seq<Call>)
    requires t.Valid() && t.Quiet() && Loaded(t.policy).enabled
    requires t.settings != Settings(Auto, Loaded(t.policy).pacUrl.value)
    modifies t
    ensures t.settings == old(t.settings) && t.policy == old(t.policy) && t.pac == old(t.pac) && t.writes == old(t.writes)
  {
    for i := 0 to |calls|
      invariant t.Valid() && t.settings == old(t.settings) && t.policy == old(t.policy)
      invariant t.pac == old(t.pac) && t.writes == old(t.writes)
    {
      RetryOnce(t, calls[i]);
    }
  }

  method RetryOnce(t: SelectiveTunnel, call: Call)
    requires t.Valid() && t.Quiet() && Loaded(t.policy).enabled
    requires t.settings != Settings(Auto, Loaded(t.policy).pacUrl.value)
    modifies t
    ensures t.Valid() && t.settings == old(t.settings) && t.policy == old(t.policy)
    ensures t.pac == old(t.pac) && t.writes == old(t.writes)
  {
    DriftRefuses(Loaded(t.policy), t.settings);
    match call
    case Applies(q, probed, healthy) =>
      var r, seen := t.Apply(q, probed, healthy);
    case Disables =>
      assert t.Checked() == t.settings;
      var r := t.Disable();
  }

  // ----- any number of calls, then a disable -----

  /** One call of a run: the settings it began with, whether another program came
      in between, what an apply read, and whether the record is on after it. */
  datatype Step = Step(before: Settings, disturbed: bool, seen: Settings, on: bool)

  /** The call that turned the record on which is on at the end. */
  function Began(steps: seq<Step>): (i: nat)
    requires steps != [] && steps[|steps| - 1].on
    ensures i < |steps| && steps[i].on && (i > 0 ==> !steps[i - 1].on)
    ensures forall j | i <= j < |steps| :: steps[j].on
  {
    if |steps| == 1 || !steps[|steps| - 2].on then |steps| - 1 else Began(steps[..|steps| - 1])
  }

  /** The record, when on, keeps what the first apply of its streak read. */
  ghost predicate KeepsFirst(t: SelectiveTunnel, steps: seq<Step>)
    reads t
  {
    && (Loaded(t.policy).enabled <==> steps != [] && steps[|steps| - 1].on)
    && (Loaded(t.policy).enabled ==> Loaded(t.policy).previous == Some(steps[Began(steps)].seen))
    && forall i | 0 <= i < |steps| :: !steps[i].disturbed ==> steps[i].seen == steps[i].before
  }

  lemma BeganStays(steps: seq<Step>, next: Step)
    requires next.on
    ensures Began(steps + [next]) == if steps != [] && steps[|steps| - 1].on then Began(steps) else |steps|
  {
    assert (steps + [next])[..|steps|] == steps;
  }

  method CallOnce(t: SelectiveTunnel, call: Call, ghost steps: seq<Step>) returns (ghost next: Step)
    requires t.Valid() && KeepsFirst(t, steps)
    modifies t
    ensures t.Valid() && KeepsFirst(t, steps + [next]) && next.before == old(t.settings)
  {
    ghost var before, seen := t.settings, t.settings;
    match call {
      case Applies(q, probed, healthy) =>
        var r;
        r, seen := t.Apply(q, probed, healthy);
      case Disables =>
        var r := t.Disable();
    }
    next := Step(before, t.disturbed, seen, Loaded(t.policy).enabled);
    if next.on {
      BeganStays(steps, next);
    }
  }

  /** Through any calls, whatever they return and whatever other programs do, the
      saved settings stay those the first apply of the streak read. */
  method CallAll(t: SelectiveTunnel, calls: seq<Call>) returns (ghost steps: seq<Step>)
    requires t.Valid() && !Loaded(t.policy).enabled
    modifies t
    ensures t.Valid() && |steps| == |calls| && KeepsFirst(t, steps)
  {
    steps := [];
    for i := 0 to |calls|
      invariant t.Valid() && |steps| == i && KeepsFirst(t, steps)
    {
      ghost var next := CallOnce(t, calls[i], steps);
      steps := steps + [next];
    }
  }

  /** A disable that then reports success has written back the URL that the first
      apply of the streak read, and leaves exactly the settings it read when no
      other program came in between. */
  method RestoresTheFirst(t: SelectiveTunnel, calls: seq<Call>) returns (ghost steps: seq<Step>, r: DisableResult)
    requires t.Valid() && !Loaded(t.policy).enabled
    modifies t
    ensures |steps| == |calls|
    ensures r.Restored? ==>
              && steps != [] && steps[|steps| - 1].on && t.writes != []
              && t.writes[|t.writes| - 1].wrote == steps[Began(steps)].seen.url
              && (!t.disturbed ==> t.settings == steps[Began(steps)].seen)
              && (!steps[Began(steps)].disturbed ==> steps[Began(steps)].seen == steps[Began(steps)].before)
  {
    steps := CallAll(t, calls);
    r := t.Disable();
  }

  // ----- these runs happen -----

  const THEIRS: Settings := Settings(Auto, "http://proxy.example/theirs.pac")
  const STORED: Policy := Policy(true, ["example.com"], 1080, Some(Cfon), Some(Settings(NoProxy, "")), Some(URL + "?v=0"))

  /** Nothing but one foreign URL, just before the n-th access. */
  function Once(n: nat): Traffic {
    k => if k == n then Some(THEIRS) else None
  }

  function Never(n: nat): bool {
    false
  }

  /** A disable that finds its own URL, while another program sets a different
      one before the write: that URL is overwritten. */
  method DisableOverwrites(digest: Pac -> string, idna: Idna) returns (t: SelectiveTunnel, r: DisableResult)
    ensures r.Restored? || r.Partial?
    ensures |t.writes| == 1 && Some(t.writes[0].read) == STORED.pacUrl && t.writes[0].found == THEIRS.url
  {
    t := new SelectiveTunnel(digest, idna, Once(2), Never, Never, Never, Settings(Auto, URL + "?v=0"), Some(STORED), None, Owned);
    r := t.Disable();
  }

  /** A rollback that finds its own URL, likewise. */
  method RollBackOverwrites(digest: Pac -> string, idna: Idna) returns (t: SelectiveTunnel, clean: bool)
    ensures |t.writes| == 1 && t.writes[0].read == t.PacUrl(Script(["example.com"], 1080)) && t.writes[0].found == THEIRS.url
  {
    var source := Script(["example.com"], 1080);
    var own := URL + "?v=" + digest(source);
    t := new SelectiveTunnel(digest, idna, Once(1), Never, Never, Never, Settings(Auto, own), None, None, Owned);
    clean := t.RollBack(source, Settings(NoProxy, ""), None, false, false, true);
  }

  /** An apply whose installing write times out after it took effect: the
      rollback succeeds and leaves this program's URL in the settings. */
  method ApplyStrays(digest: Pac -> string, idna: Idna, q: Request) returns (t: SelectiveTunnel, r: ApplyResult)
    requires Wanted(q, idna).Ok?
    ensures r == Raised(true) && t.policy == None
    ensures t.settings == Settings(NoProxy, t.PacUrl(Script(Wanted(q, idna).value, q.port)))
  {
    t := new SelectiveTunnel(digest, idna, _ => None, n => n == 2, _ => true, Never, Settings(NoProxy, ""), None, None, Owned);
    ghost var seen;
    r, seen := t.Apply(q, true, false);
  }

  /** A disable that restores the settings and cannot store its record: from
      then on `Retry` changes nothing. */
  method DisableStopsShort(digest: Pac -> string, idna: Idna, calls: seq<Call>) returns (t: SelectiveTunnel, r: DisableResult)
    ensures r.Partial? && t.policy == Some(STORED) && Some(t.settings) == STORED.previous
  {
    t := new SelectiveTunnel(digest, idna, _ => None, Never, Never, n => n == 0, Settings(Auto, URL + "?v=0"), Some(STORED), None, Owned);
    r := t.Disable();
    Retry(t, calls);
  }
}
