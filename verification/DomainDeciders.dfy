/** The three programs that decide whether a host goes through the tunnel:
    the generated PAC script, the HTTP CONNECT bridge, the tailnet gateway. */
module DomainDeciders {
  import opened Prelude
  import opened DomainNames
  import opened DomainPolicy

  predicate MatchesAny(host: string, domains: seq<string>) {
    exists d | d in domains :: MatchesDomain(host, d)
  }

  /** What the user means by a domain list, in labels. */
  predicate Selected(host: string, domains: seq<string>) {
    exists d | d in domains :: LabelSuffix(Split(host), Split(d))
  }

  // ----- PAC script -----

  /** `FindProxyForURL` returns the bridge rather than DIRECT. */
  predicate PacSelects(domains: seq<string>, host: string) {
    MatchesAny(StripOneDot(Lower(host)), domains)
  }

  // ----- IPv4 literals -----

  function DecimalValue(x: string): (n: nat)
    requires forall i | 0 <= i < |x| :: '0' <= x[i] <= '9'
  {
    if x == "" then 0 else DecimalValue(x[..|x| - 1]) * 10 + (x[|x| - 1] as int - '0' as int)
  }

  function Octet(x: string): Option<nat> {
    if !IsDigits(x) || |x| > 3 || (|x| > 1 && x[0] == '0') || DecimalValue(x) > 255 then None
    else Some(DecimalValue(x))
  }

  predicate IsIpv4(host: string) {
    var labels := Split(host);
    |labels| == 4 && forall i | 0 <= i < 4 :: Octet(labels[i]).Some?
  }

  predicate IsTailnetIpv4(host: string) {
    && IsIpv4(host)
    && Octet(Split(host)[0]) == Some(100)
    && 64 <= Octet(Split(host)[1]).value < 128
  }

  // ----- HTTP CONNECT bridge -----

  datatype BridgeError =
    | InvalidAuthority | HostAndPortRequired | HttpsOnly | IpLiteralDenied
    | InvalidHost | InvalidDns | InvalidPolicy | HostNotAllowed

  function ColonIndex(s: string): (n: nat)
    ensures n <= |s|
    ensures forall i | 0 <= i < n :: s[i] != ':'
    ensures n < |s| ==> s[n] == ':'
  {
    if s == "" || s[0] == ':' then 0 else 1 + ColonIndex(s[1..])
  }

  /** `host` and `port` of a CONNECT request line. */
  function AuthorityParts(authority: string): Result<(string, string), BridgeError> {
    var at := ColonIndex(authority);
    if |authority| > 270 || '/' in authority || '@' in authority then Err(InvalidAuthority)
    else if at == |authority| || ':' in authority[at + 1..] then Err(HostAndPortRequired)
    else Ok((authority[..at], authority[at + 1..]))
  }

  function ConnectTarget(authority: string, domains: seq<string>): Result<string, BridgeError> {
    match AuthorityParts(authority)
    case Err(e) => Err(e)
    case Ok((host, port)) => ConnectHost(StripDots(Lower(host)), port, domains)
  }

  function ConnectHost(host: string, port: string, domains: seq<string>): Result<string, BridgeError> {
    var labels := Split(host);
    if port != "443" || |host| > 253 || "." <= host || EndsWith(host, ".") then Err(HttpsOnly)
    else if IsIpv4(host) then Err(IpLiteralDenied)
    else if |labels| < 2 || exists i | 0 <= i < |labels| :: labels[i] == "" || |labels[i]| > 63 then Err(InvalidHost)
    else if !AllLabels(labels) then Err(InvalidDns)
    else if |domains| > MAX_DOMAINS then Err(InvalidPolicy)
    else if !MatchesAny(host, domains) then Err(HostNotAllowed)
    else Ok(host)
  }

  // ----- tailnet gateway -----

  datatype GatewayError = HostNotDns | HostInvalid | TargetNotAllowed

  function SafeHost(raw: string, domains: seq<string>): Result<string, GatewayError> {
    if exists i | 0 <= i < |raw| :: raw[i] > '\U{7F}' then Err(HostNotDns)
    else
      var host := StripDots(Lower(raw));
      var labels := Split(host);
      if !(0 < |host| <= 253) then Err(HostInvalid)
      else if !(2 <= |labels| <= 12) || !AllLabels(labels) then Err(HostInvalid)
      else if !MatchesAny(host, domains) then Err(TargetNotAllowed)
      else Ok(host)
  }

  // ----- agreement -----

  /** A plain host name: at least two well-formed labels, at most 253 characters. */
  predicate HostName(host: string) {
    |host| <= 253 && |Split(host)| >= 2 && AllLabels(Split(host))
  }

  lemma MatchesAnyIsSelected(host: string, domains: seq<string>)
    ensures MatchesAny(host, domains) <==> Selected(host, domains)
  {
    forall d | d in domains ensures MatchesDomain(host, d) <==> LabelSuffix(Split(host), Split(d)) {
      MatchesIsLabelSuffix(host, d);
    }
  }

  lemma TailOfDigits(labels: seq<string>, tail: seq<string>)
    requires AllDigits(labels) && LabelSuffix(labels, tail)
    ensures AllDigits(tail)
  {
    var k := |labels| - |tail|;
    forall i | 0 <= i < |tail| ensures IsDigits(tail[i]) {
      assert tail[i] == labels[k + i];
    }
  }

  /** No listed domain can select an IPv4 literal, nor any all-numeric host. */
  lemma NumericNeverSelected(p: Platform, domains: seq<string>, host: string)
    requires NormalRows(p, domains) && AllDigits(Split(host))
    ensures !Selected(host, domains)
  {
    forall d | d in domains ensures !LabelSuffix(Split(host), Split(d)) {
      if LabelSuffix(Split(host), Split(d)) {
        TailOfDigits(Split(host), Split(d));
        assert false;
      }
    }
  }

  lemma Ipv4NeverSelected(p: Platform, domains: seq<string>, host: string)
    requires NormalRows(p, domains) && IsIpv4(host)
    ensures !PacSelects(domains, host) && SafeHost(host, domains).Err? && ConnectTarget(host + ":443", domains).Err?
  {
    Ipv4Shape(host);
    NumericNeverSelected(p, domains, host);
    MatchesAnyIsSelected(host, domains);
    AuthorityParses(host, domains);
    assert StripOneDot(host) == host && StripDots(host) == host;
  }

  lemma OctetIsLabel(x: string)
    requires Octet(x).Some?
    ensures IsDigits(x) && IsLabel(x)
  {
    assert forall i | 0 <= i < |x| :: IsLdh(x[i]);
  }

  lemma OctetsAreLabels(labels: seq<string>)
    requires forall i | 0 <= i < |labels| :: Octet(labels[i]).Some?
    ensures AllDigits(labels) && AllLabels(labels)
  {
    forall i | 0 <= i < |labels| ensures IsDigits(labels[i]) && IsLabel(labels[i]) {
      OctetIsLabel(labels[i]);
    }
  }

  lemma PlainHasNoMark(s: string)
    requires PlainAscii(s)
    ensures NoMark(s)
  {
    forall c | c in s ensures c != ':' && c != '/' && c != '@' {
      var i :| 0 <= i < |s| && s[i] == c;
      assert IsLdh(s[i]) || s[i] == '.';
    }
  }

  lemma PlainIsUnmarkedLower(s: string)
    requires PlainAscii(s)
    ensures Lower(s) == s && NoMark(s)
  {
    LowerIsFixed(s);
    PlainHasNoMark(s);
  }

  lemma Ipv4Shape(host: string)
    requires IsIpv4(host)
    ensures AllDigits(Split(host)) && Lower(host) == host && NoMark(host)
    ensures host != "" && host[|host| - 1] != '.'
  {
    OctetsAreLabels(Split(host));
    LabelsShape(host);
    PlainIsUnmarkedLower(host);
  }

  lemma {:induction false} ColonIndexOf(host: string, rest: string)
    requires forall i | 0 <= i < |host| :: host[i] != ':'
    ensures ColonIndex(host + (":" + rest)) == |host|
  {
    var whole := host + (":" + rest);
    if host != "" {
      assert whole[1..] == host[1..] + (":" + rest);
      ColonIndexOf(host[1..], rest);
    }
  }

  predicate NoMark(s: string) {
    ':' !in s && '/' !in s && '@' !in s
  }

  lemma AuthorityMarks(spelled: string)
    requires NoMark(spelled)
    ensures '/' !in spelled + ":443" && '@' !in spelled + ":443" && ':' !in "443"
  {
  }

  lemma AuthorityOf(spelled: string)
    requires NoMark(spelled)
    ensures AuthorityParts(spelled + ":443") == if |spelled| > 266 then Err(InvalidAuthority) else Ok((spelled, "443"))
  {
    var authority := spelled + ":443";
    AuthorityMarks(spelled);
    ColonIndexOf(spelled, "443");
    assert authority == spelled + (":" + "443");
    assert authority[..|spelled|] == spelled && authority[|spelled| + 1..] == "443";
  }

  lemma AuthorityParses(spelled: string, domains: seq<string>)
    requires NoMark(spelled)
    ensures ConnectTarget(spelled + ":443", domains)
         == if |spelled| > 266 then Err(InvalidAuthority) else ConnectHost(StripDots(Lower(spelled)), "443", domains)
  {
    AuthorityOf(spelled);
  }

  lemma {:induction false} StripDotsKeepsRest(s: string, i: nat)
    requires i < |s| && i >= |StripDots(s)|
    ensures s[i] == '.'
  {
    if i < |s| - 1 {
      StripDotsKeepsRest(s[..|s| - 1], i);
    }
  }

  /** Any way of typing a plain host: letters in either case, dots after it. */
  predicate Spells(spelled: string, host: string) {
    HostName(host) && StripDots(Lower(spelled)) == host
  }

  lemma SpelledChars(spelled: string, host: string)
    requires Spells(spelled, host)
    ensures NoMark(spelled) && forall i | 0 <= i < |spelled| :: spelled[i] <= '\U{7F}'
  {
    LabelsShape(host);
    var low := Lower(spelled);
    forall i | 0 <= i < |spelled|
      ensures spelled[i] <= '\U{7F}' && spelled[i] != ':' && spelled[i] != '/' && spelled[i] != '@'
    {
      if i < |host| {
        assert low[i] == host[i];
      } else {
        StripDotsKeepsRest(low, i);
      }
      assert low[i] == LowerChar(spelled[i]);
    }
  }

  lemma BridgeVerdict(p: Platform, domains: seq<string>, host: string)
    requires NormalList(p, domains) && HostName(host)
    ensures ConnectHost(host, "443", domains).Ok? <==> Selected(host, domains)
    ensures ConnectHost(host, "443", domains).Ok? ==> ConnectHost(host, "443", domains).value == host
  {
    LabelsShape(host);
    MatchesAnyIsSelected(host, domains);
    var labels := Split(host);
    if IsIpv4(host) {
      forall i | 0 <= i < |labels| ensures IsDigits(labels[i]) {
        assert Octet(labels[i]).Some?;
      }
      NumericNeverSelected(p, domains, host);
    }
    forall i | 0 <= i < |labels| ensures labels[i] != "" && |labels[i]| <= 63 {
      assert IsLabel(labels[i]);
    }
  }

  /** The three deciders on every spelling of every plain host name: each one's
      verdict is the label test, up to its own limits. The PAC script drops one
      trailing dot where the others drop all, the bridge bounds the request
      line, and only the gateway bounds the number of labels. */
  lemma DecidersAgree(p: Platform, domains: seq<string>, spelled: string, host: string)
    requires NormalList(p, domains) && Spells(spelled, host)
    ensures PacSelects(domains, spelled) <==> Selected(host, domains) && |spelled| <= |host| + 1
    ensures ConnectTarget(spelled + ":443", domains) == Ok(host) <==> Selected(host, domains) && |spelled| <= 266
    ensures SafeHost(spelled, domains) == Ok(host) <==> Selected(host, domains) && |Split(host)| <= 12
  {
    MatchesAnyIsSelected(host, domains);
    SpelledChars(spelled, host);
    AuthorityParses(spelled, domains);
    BridgeVerdict(p, domains, host);
    PacVerdict(p, domains, spelled, host);
    LabelsShape(host);
  }

  lemma DottedMatchesNothing(host: string, domain: string)
    requires host != "" && host[|host| - 1] == '.'
    requires domain != "" && domain[|domain| - 1] != '.'
    ensures !MatchesDomain(host, domain)
  {
    if |domain| + 1 <= |host| {
      var tail := host[|host| - |domain| - 1..];
      assert tail[|domain|] == '.';
      assert ("." + domain)[|domain|] == domain[|domain| - 1];
    }
  }

  lemma PacVerdict(p: Platform, domains: seq<string>, spelled: string, host: string)
    requires NormalList(p, domains) && Spells(spelled, host)
    ensures PacSelects(domains, spelled) <==> MatchesAny(host, domains) && |spelled| <= |host| + 1
  {
    var low := Lower(spelled);
    var seen := StripOneDot(low);
    LabelsShape(host);
    if |low| > |host| {
      StripDotsKeepsRest(low, |low| - 1);
    }
    if |low| <= |host| + 1 {
      assert seen == host;
    } else {
      StripDotsKeepsRest(low, |low| - 2);
      assert seen[|seen| - 1] == '.';
      forall d | d in domains ensures !MatchesDomain(seen, d) {
        var i :| 0 <= i < |domains| && domains[i] == d;
        NameHasNoSeparator(p, domains[i]);
        DottedMatchesNothing(seen, d);
      }
    }
  }

  /** Plain lower-case names of at most twelve labels: one verdict everywhere. */
  lemma PlainHostsAgree(p: Platform, domains: seq<string>, host: string)
    requires NormalList(p, domains) && HostName(host) && |Split(host)| <= 12
    ensures PacSelects(domains, host) <==> Selected(host, domains)
    ensures ConnectTarget(host + ":443", domains).Ok? <==> Selected(host, domains)
    ensures SafeHost(host, domains).Ok? <==> Selected(host, domains)
  {
    LabelsShape(host);
    assert Lower(host) == host;
    MatchesAnyIsSelected(host, domains);
    SpelledChars(host, host);
    AuthorityParses(host, domains);
    BridgeVerdict(p, domains, host);
    PacVerdict(p, domains, host, host);
  }
}
