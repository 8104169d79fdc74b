/** The bridge's SOCKS5 client and the gateway's server joined end to end: every
    run of the two over a network that delivers bytes late and in pieces. */
module SocksChain {
  import opened Prelude
  import opened DomainNames
  import opened DomainPolicy
  import opened DomainDeciders
  import opened Socks5

  /** One CONNECT: the host asked for, the gateway's domains, whether its own
      provider connects, and what the two applications will say. */
  datatype Call = Call(host: string, domains: seq<string>, upstream: bool, up: seq<byte>, down: seq<byte>)

  predicate Sane(call: Call) {
    HostName(call.host)
  }

  predicate Connects(call: Call) {
    SafeHost(call.host, call.domains).Ok? && call.upstream
  }

  /** Bytes each end has received so far. */
  datatype Chain = Chain(client: seq<byte>, server: seq<byte>)

  const IDLE: Chain := Chain([], [])

  function ClientSays(call: Call, got: seq<byte>): seq<byte>
    requires Sane(call)
  {
    ClientOut(call.host, got) + if ClientVerdict(got).Done? then call.up else []
  }

  function ServerSays(call: Call, got: seq<byte>): seq<byte> {
    ServerOut(GatewayPolicy(call.domains), call.upstream, got)
    + if Serve(GatewayPolicy(call.domains), got).Accepted? && call.upstream then call.down else []
  }

  /** The network delivers more of what was said, to one end at a time. */
  predicate Step(call: Call, s: Chain, t: Chain)
    requires Sane(call)
  {
    || (t.server == s.server && s.client <= t.client <= ServerSays(call, s.server))
    || (t.client == s.client && s.server <= t.server <= ClientSays(call, s.client))
  }

  ghost predicate Run(call: Call, run: seq<Chain>)
    requires Sane(call)
  {
    |run| > 0 && run[0] == IDLE && forall i | 0 <= i < |run| - 1 :: Step(call, run[i], run[i + 1])
  }

  function Asking(call: Call): (r: seq<byte>)
    requires Sane(call)
    ensures |r| == |call.host| + 10
  {
    GREETING + Request(call.host)
  }

  function Answer(call: Call): (r: seq<byte>)
    ensures |r| >= 12 && r[..2] == NO_AUTH
  {
    if SafeHost(call.host, call.domains).Err? then NO_AUTH + (Reply(2) + Reply(1))
    else NO_AUTH + Reply(if call.upstream then 0 else 1)
  }

  function FullAnswer(call: Call): seq<byte> {
    Answer(call) + if Connects(call) then call.down else []
  }

  lemma TextOfBytes(host: string)
    requires IsAscii(host)
    ensures ToText(ToBytes(host)) == host
  {
  }

  lemma HostFacts(host: string)
    requires HostName(host)
    ensures 3 <= |host| <= 253
    ensures IsAscii(host)
  {
    LabelsShape(host);
    SpelledChars(host, host);
    JoinOfSplit(host);
    var labels := Split(host);
    assert IsLabel(labels[0]) && IsLabel(labels[1]);
  }

  lemma AllowedIsHost(host: string, domains: seq<string>)
    requires HostName(host)
    ensures Allowed(host, domains) == if SafeHost(host, domains).Ok? then Some(host) else None
  {
    LabelsShape(host);
    assert Lower(host) == host && StripDots(host) == host;
  }

  /** The gateway decodes the very host the client encoded. */
  lemma SameHost(host: string, domains: seq<string>)
    requires HostName(host)
    ensures GatewayPolicy(domains)(ToBytes(host), 1, 187) == if SafeHost(host, domains).Ok? then Some(host) else None
  {
    HostFacts(host);
    TextOfBytes(host);
    AllowedIsHost(host, domains);
    AllowedHere(domains, ToBytes(host));
  }

  lemma AllowedHere(domains: seq<string>, rawHost: seq<byte>)
    ensures GatewayPolicy(domains)(rawHost, 1, 187) == Allowed(ToText(rawHost), domains)
  {
  }

  /** Everything the server can make of what a client has sent it. */
  lemma ServerHearing(call: Call, got: seq<byte>)
    requires Sane(call) && got <= Asking(call) + call.up
    ensures |got| < 3 ==> Serve(GatewayPolicy(call.domains), got) == Reading([])
    ensures 3 <= |got| < |Asking(call)| ==> Serve(GatewayPolicy(call.domains), got) == Reading(NO_AUTH)
    ensures |got| >= |Asking(call)| && SafeHost(call.host, call.domains).Ok? ==>
              Serve(GatewayPolicy(call.domains), got) == Accepted(call.host, |Asking(call)|)
    ensures |got| >= |Asking(call)| && SafeHost(call.host, call.domains).Err? ==>
              Serve(GatewayPolicy(call.domains), got) == Refused(NO_AUTH + Reply(2))
  {
    HostFacts(call.host);
    SameHost(call.host, call.domains);
    HeardUnder(GatewayPolicy(call.domains), call.host, call.up, got);
  }

  lemma HeardUnder(policy: Policy, host: string, up: seq<byte>, got: seq<byte>)
    requires 3 <= |host| <= 253 && got <= GREETING + Request(host) + up
    ensures |got| < 3 ==> Serve(policy, got) == Reading([])
    ensures 3 <= |got| < |host| + 10 ==> Serve(policy, got) == Reading(NO_AUTH)
    ensures |got| >= |host| + 10 ==>
              match policy(ToBytes(host), 1, 187)
              case None => Serve(policy, got) == Refused(NO_AUTH + Reply(2))
              case Some(named) => Serve(policy, got) == Accepted(named, |host| + 10)
  {
    WordsHeard(host, up, got);
  }

  lemma WordsHeard(host: string, up: seq<byte>, got: seq<byte>)
    requires 3 <= |host| <= 253 && got <= GREETING + Request(host) + up
    ensures Parse(got)
         == if |got| < 3 then Short([])
            else if |got| < |host| + 10 then Short(NO_AUTH)
            else Named(ToBytes(host), 1, 187, |host| + 10)
  {
    GreetingHeard(host, up, got);
    if |got| >= 3 {
      RequestHeard(host, up, got[3..]);
    }
  }

  lemma GreetingHeard(host: string, up: seq<byte>, got: seq<byte>)
    requires |host| <= 253 && got <= GREETING + Request(host) + up
    ensures |got| < 3 ==> Parse(got) == Short([])
    ensures |got| >= 3 ==> Parse(got) == ParseRequest(got[3..], 3) && got[3..] <= Request(host) + up
  {
    var whole := GREETING + Request(host) + up;
    assert whole[0] == 5 && whole[1] == 1 && whole[2] == 0;
    assert whole[3..] == Request(host) + up;
    if |got| >= 1 { assert got[0] == whole[0]; }
    if |got| >= 2 { assert got[1] == whole[1]; }
    if |got| >= 3 {
      assert got[2] == whole[2] && got[2..3] == [0];
      assert got[3..] == whole[3..][..|got| - 3];
    }
  }

  lemma RequestHeard(host: string, up: seq<byte>, got: seq<byte>)
    requires 3 <= |host| <= 253 && got <= Request(host) + up
    ensures ParseRequest(got, 3)
         == if |got| < |host| + 7 then Short(NO_AUTH) else Named(ToBytes(host), 1, 187, |host| + 10)
  {
    var whole := Request(host) + up;
    assert whole[..4] == [5, 1, 0, 3] && whole[4] == |host|;
    if |got| >= 4 {
      assert got[..4] == whole[..4];
    }
    if |got| >= 5 {
      assert got[4] == whole[4];
      assert ParseRequest(got, 3) == ParseHost(got[5..], |host|, 8);
      if |got| >= |host| + 7 {
        HostBytes(host, up, got);
      }
    }
  }

  lemma HostBytes(host: string, up: seq<byte>, got: seq<byte>)
    requires |host| <= 253 && |host| + 7 <= |got| && got <= Request(host) + up
    ensures got[5..][..|host|] == ToBytes(host) && got[5..][|host|] == 1 && got[5..][|host| + 1] == 187
  {
    var n := |host|;
    var whole := Request(host) + up;
    assert whole[5..5 + n] == ToBytes(host) && whole[5 + n] == 1 && whole[6 + n] == 187;
    assert got[5..][..n] == whole[5..5 + n];
    assert got[5..][n] == whole[5 + n] && got[5..][n + 1] == whole[6 + n];
  }

  /** Everything the client can make of what the server has sent it. */
  lemma ClientHearing(call: Call, got: seq<byte>)
    requires Sane(call) && got <= FullAnswer(call)
    ensures |got| < 2 ==> ClientOut(call.host, got) == GREETING && ClientVerdict(got) == Waiting
    ensures |got| >= 2 ==> ClientOut(call.host, got) == Asking(call)
    ensures Connects(call) ==> ClientVerdict(got) == if |got| < 12 then Waiting else Done(12)
    ensures !Connects(call) ==> ClientVerdict(got) == if |got| < 6 then Waiting else Failed
  {
    var whole := FullAnswer(call);
    assert whole[..2] == NO_AUTH;
    if |got| >= 2 {
      assert got[..2] == whole[..2];
      if |got| >= 6 {
        ReplyBytes(call, got);
      }
    }
  }

  lemma ReplyBytes(call: Call, got: seq<byte>)
    requires got <= FullAnswer(call) && |got| >= 6
    ensures got[2..][0] == 5 && got[2..][2] == 0 && got[2..][3] == 1
    ensures got[2..][1] == 0 <==> Connects(call)
  {
    var whole := Answer(call);
    assert whole[2] == 5 && whole[4] == 0 && whole[5] == 1;
    assert whole[3] == 0 <==> Connects(call);
    assert got[..6] == whole[..6];
    assert got[2] == got[..6][2] && got[3] == got[..6][3] && got[4] == got[..6][4] && got[5] == got[..6][5];
  }

  /** What holds at every moment of every run. */
  predicate Sound(call: Call, s: Chain)
    requires Sane(call)
  {
    && s.server <= Asking(call) + call.up
    && s.client <= FullAnswer(call)
    && (|s.client| > 0 ==> |s.server| >= 3)
    && (|s.server| > 3 ==> |s.client| >= 2)
    && (|s.client| > 2 ==> |s.server| >= |Asking(call)|)
    && (|s.server| > |Asking(call)| ==> Connects(call) && |s.client| >= 12)
  }

  lemma ServerSaysOf(call: Call, got: seq<byte>)
    requires Sane(call) && got <= Asking(call) + call.up
    ensures ServerSays(call, got)
      == if |got| < 3 then [] else if |got| < |Asking(call)| then NO_AUTH else FullAnswer(call)
  {
    ServerHearing(call, got);
    if |got| >= |Asking(call)| && SafeHost(call.host, call.domains).Err? {
      ConcatAssociates(NO_AUTH, Reply(2), Reply(1));
    }
  }

  lemma ClientSaysOf(call: Call, got: seq<byte>)
    requires Sane(call) && got <= FullAnswer(call)
    ensures ClientSays(call, got)
      == if |got| < 2 then GREETING
         else if Connects(call) && |got| >= 12 then Asking(call) + call.up
         else Asking(call)
  {
    ClientHearing(call, got);
  }

  lemma ClientHears(call: Call, s: Chain, t: Chain)
    requires Sane(call) && Sound(call, s)
    requires t.server == s.server && s.client <= t.client <= ServerSays(call, s.server)
    ensures Sound(call, t)
  {
    ServerSaysOf(call, s.server);
    assert NO_AUTH == FullAnswer(call)[..2];
  }

  lemma ServerHears(call: Call, s: Chain, t: Chain)
    requires Sane(call) && Sound(call, s)
    requires t.client == s.client && s.server <= t.server <= ClientSays(call, s.client)
    ensures Sound(call, t)
  {
    ClientSaysOf(call, s.client);
    assert GREETING == Asking(call)[..3];
  }

  lemma StepIsSound(call: Call, s: Chain, t: Chain)
    requires Sane(call) && Sound(call, s) && Step(call, s, t)
    ensures Sound(call, t)
  {
    if t.server == s.server && s.client <= t.client <= ServerSays(call, s.server) {
      ClientHears(call, s, t);
    } else {
      ServerHears(call, s, t);
    }
  }

  lemma {:induction false} RunIsSound(call: Call, run: seq<Chain>, i: nat)
    requires Sane(call) && Run(call, run) && i < |run|
    ensures Sound(call, run[i])
  {
    if i > 0 {
      RunIsSound(call, run, i - 1);
      assert Step(call, run[i - 1], run[i - 1 + 1]);
      StepIsSound(call, run[i - 1], run[i]);
    }
  }

  /** At every moment of every run: the gateway has accepted nothing but the
      host the client named, at the byte where its request ends; the client has
      a tunnel only when that host is allowed and connected, and then has used
      exactly the two method bytes and the ten reply bytes; neither end ever
      mistakes the other; and what lies behind the handshake is an in-order
      prefix of what the peer says. */
  lemma EndsAgree(call: Call, run: seq<Chain>, i: nat)
    requires Sane(call) && Run(call, run) && i < |run|
    ensures
      var asked, verdict := Serve(GatewayPolicy(call.domains), run[i].server), ClientVerdict(run[i].client);
      && (asked.Accepted? ==>
            && asked == Accepted(call.host, |Asking(call)|)
            && SafeHost(call.host, call.domains).Ok?
            && |run[i].server| >= asked.consumed
            && run[i].server[asked.consumed..] <= call.up)
      && (asked.Refused? ==> SafeHost(call.host, call.domains).Err?)
      && (verdict.Done? ==>
            && verdict == Done(12) && Connects(call) && asked.Accepted?
            && |run[i].client| >= 12
            && run[i].client[12..] <= call.down)
      && (verdict.Failed? ==> !Connects(call))
  {
    var s := run[i];
    RunIsSound(call, run, i);
    ServerHearing(call, s.server);
    ClientHearing(call, s.client);
    assert (Asking(call) + call.up)[|Asking(call)|..] == call.up;
    if Connects(call) {
      assert FullAnswer(call)[12..] == call.down;
    }
  }

  /** No run gets stuck: once every byte said has been delivered the client has
      its tunnel, and all data has passed both ways, or it has been refused. */
  lemma NoDeadlock(call: Call, run: seq<Chain>)
    requires Sane(call) && Run(call, run)
    requires run[|run| - 1].client == ServerSays(call, run[|run| - 1].server)
    requires run[|run| - 1].server == ClientSays(call, run[|run| - 1].client)
    ensures ClientVerdict(run[|run| - 1].client) == if Connects(call) then Done(12) else Failed
    ensures Connects(call) ==> run[|run| - 1] == Chain(FullAnswer(call), Asking(call) + call.up)
  {
    var s := run[|run| - 1];
    RunIsSound(call, run, |run| - 1);
    ServerSaysOf(call, s.server);
    ClientSaysOf(call, s.client);
    ClientHearing(call, s.client);
  }

  /** Every host the bridge lets through is one this theorem covers. */
  lemma BridgeAsksHostNames(authority: string, domains: seq<string>)
    requires ConnectTarget(authority, domains).Ok?
    ensures HostName(ConnectTarget(authority, domains).value)
    ensures ValidTarget(ConnectTarget(authority, domains).value, 443)
  {
    HostFacts(ConnectTarget(authority, domains).value);
  }
}
