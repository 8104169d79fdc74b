/** sing-box outbounds as JSON: the reader for nine types, and the writer. */
module Outbound {
  import opened Prelude

  // ----- JSON and the Python conversions the reader applies -----

  /** The keys looked up inside a TLS object. */
  datatype Key = Enabled | ServerName | Insecure | Alpn | Utls | Fingerprint

  /** An object is what a lookup of each key gives (null when absent) together
      with its items in order. */
  datatype Json =
    | JNull | JBool(b: bool) | JInt(n: int) | JFloat(r: real) | JStr(s: string)
    | JList(items: seq<Json>) | JDict(fields: Key -> Json, pairs: seq<(string, Json)>)

  /** An outbound, by what a lookup of each key the reader knows gives. */
  datatype Object = Object(
    typ: Json, tag: Json, server: Json, serverPort: Json, tls: Json, detour: Json,
    dialerProxy: Json, privateKeyPath: Json, certificatePath: Json, clientCertificatePath: Json, clientKeyPath: Json, uuid: Json,
    password: Json, congestionControl: Json, udpRelayMode: Json, zeroRtt: Json, idleInterval: Json, idleTimeout: Json,
    clientMetadata: Json, minIdle: Json, version: Json, upMbps: Json, downMbps: Json, authStr: Json,
    auth: Json, obfs: Json, network: Json, user: Json, privateKey: Json, passphrase: Json,
    clientVersion: Json, hostKey: Json, hostKeyAlgorithms: Json, cipher: Json, mac: Json, kexAlgorithm: Json,
    psk: Json, reuse: Json, userKey: Json, obfsMode: Json, obfsHost: Json, mode: Json,
    username: Json, udpOverTcp: Json, path: Json, headers: Json, insecureConcurrency: Json, quic: Json,
    quicCongestion: Json)

  const EMPTY := Object(
    JNull, JNull, JNull, JNull, JNull, JNull, JNull, JNull, JNull, JNull, JNull, JNull,
    JNull, JNull, JNull, JNull, JNull, JNull, JNull, JNull, JNull, JNull, JNull, JNull,
    JNull, JNull, JNull, JNull, JNull, JNull, JNull, JNull, JNull, JNull, JNull, JNull,
    JNull, JNull, JNull, JNull, JNull, JNull, JNull, JNull, JNull, JNull, JNull, JNull,
    JNull)

  type NonEmpty = s: string | s != "" witness "x"

  /** `str` and `int` on the other value types, and the Unicode tables behind
      `strip` and `lower`. */
  datatype Python = Python(text: Json -> NonEmpty, number: Json -> Option<int>, space: char -> bool, lower: string -> string)

  function Text(py: Python, j: Json): string {
    if j.JStr? then j.s else py.text(j)
  }

  function Truthy(j: Json): bool {
    match j
    case JNull => false
    case JBool(b) => b
    case JInt(n) => n != 0
    case JFloat(r) => r != 0.0
    case JStr(s) => s != ""
    case JList(items) => items != []
    case JDict(_, pairs) => pairs != []
  }

  /** `str(j or otherwise)`. */
  function TextOr(py: Python, j: Json, otherwise: string): string {
    if Truthy(j) then Text(py, j) else otherwise
  }

  function Number(py: Python, j: Json): Option<int> {
    match j
    case JInt(n) => Some(n)
    case JNull => None
    case _ => py.number(j)
  }

  /** `int(j or otherwise)`; None is the exception. */
  function NumberOr(py: Python, j: Json, otherwise: int): Option<int> {
    if Truthy(j) then Number(py, j) else Some(otherwise)
  }

  /** `j not in (None, "")`. */
  predicate Given(j: Json) {
    !j.JNull? && j != JStr("")
  }

  function Cut(py: Python, j: Json, n: nat): Option<string> {
    if Given(j) then Some(FirstN(Text(py, j), n)) else None
  }

  predicate Blank(py: Python, s: string) {
    forall i | 0 <= i < |s| :: py.space(s[i])
  }

  function StripLeft(py: Python, s: string): string {
    if s != "" && py.space(s[0]) then StripLeft(py, s[1..]) else s
  }

  function StripRight(py: Python, s: string): string {
    if s != "" && py.space(s[|s| - 1]) then StripRight(py, s[..|s| - 1]) else s
  }

  function Strip(py: Python, s: string): string {
    StripRight(py, StripLeft(py, s))
  }

  predicate Trimmed(py: Python, s: string) {
    s != "" ==> !py.space(s[0]) && !py.space(s[|s| - 1])
  }

  predicate PlainLower(s: string) {
    forall i | 0 <= i < |s| :: 'a' <= s[i] <= 'z' || '0' <= s[i] <= '9' || s[i] == '_' || s[i] == '-'
  }

  function Lower(py: Python, s: string): string {
    if PlainLower(s) then s else py.lower(s)
  }

  // ----- nodes -----

  datatype Proto = TuicP | AnyTlsP | ShadowTlsP | HysteriaP | SshP | SnellP | SocksP | HttpP | NaiveP

  /** An empty ALPN list stands for none. */
  datatype Tls = Tls(serverName: string, insecure: bool, alpn: seq<string>, fingerprint: Option<string>)

  datatype Details =
    | Tuic(uuid: string, password: string, congestion: string, relay: string, zeroRtt: bool)
    | AnyTls(password: string, interval: Option<string>, timeout: Option<string>, metadata: Option<string>, minIdle: Option<int>)
    | ShadowTls(version: int, shared: Option<string>)
    | Hysteria(up: int, down: int, authStr: Option<string>, auth: Option<string>, obfs: Option<string>, network: Option<string>)
    | Ssh(user: string, login: Option<string>, key: Option<string>, passphrase: Option<string>, client: Option<string>,
          hostKey: Option<seq<string>>, algorithms: Option<seq<string>>, cipher: Option<seq<string>>,
          mac: Option<seq<string>>, kex: Option<seq<string>>)
    | Snell(version: int, psk: string, reuse: bool, userKey: Option<string>, network: Option<string>,
            obfsMode: Option<string>, obfsHost: Option<string>, mode: Option<string>)
    | Socks(socks: string, username: Option<string>, login: Option<string>, network: Option<string>, udpOverTcp: Option<Json>)
    | Http(username: Option<string>, login: Option<string>, path: Option<string>, headers: Option<seq<(string, string)>>)
    | Naive(username: Option<string>, login: Option<string>, concurrency: int, quic: bool, quicCongestion: Option<string>)

  datatype Node = Node(name: string, server: string, port: int, tls: Option<Tls>, details: Details)

  /** Everything the node id is a digest of: all but the name. */
  function Identity(n: Node): Node {
    n.(name := "")
  }

  datatype ParseError =
    | ProtocolUnsupported | DetourUnsupported | LocalPathUnsupported | PortInvalid | HostPortRequired | TlsRequired
    | CredentialsRequired | CongestionInvalid | RelayInvalid | MinIdleInvalid | VersionInvalid
    | BandwidthRequired | BandwidthInvalid | NetworkInvalid | PskInvalid | ObfsInvalid | ModeInvalid | ConcurrencyInvalid

  // ----- reading -----

  function TypeName(p: Proto): string {
    match p
    case TuicP => "tuic" case AnyTlsP => "anytls" case ShadowTlsP => "shadowtls" case HysteriaP => "hysteria"
    case SshP => "ssh" case SnellP => "snell" case SocksP => "socks" case HttpP => "http" case NaiveP => "naive"
  }

  /** The label used in a default name. */
  function TypeLabel(p: Proto): string {
    match p
    case TuicP => "TUIC" case AnyTlsP => "ANYTLS" case ShadowTlsP => "SHADOWTLS" case HysteriaP => "HYSTERIA"
    case SshP => "SSH" case SnellP => "SNELL" case SocksP => "SOCKS" case HttpP => "HTTP" case NaiveP => "NAIVE"
  }

  function TypeOf(s: string): Option<Proto> {
    if s == "tuic" then Some(TuicP) else if s == "anytls" then Some(AnyTlsP)
    else if s == "shadowtls" then Some(ShadowTlsP) else if s == "hysteria" then Some(HysteriaP)
    else if s == "ssh" then Some(SshP) else if s == "snell" then Some(SnellP)
    else if s == "socks" then Some(SocksP) else if s == "http" then Some(HttpP)
    else if s == "naive" then Some(NaiveP) else None
  }

  function NeedsTls(p: Proto): bool {
    p.TuicP? || p.AnyTlsP? || p.ShadowTlsP? || p.HysteriaP? || p.NaiveP?
  }

  /** The texts of the entries that are not blank, each cut to `each`. */
  function CleanTexts(py: Python, items: seq<Json>, each: nat): seq<string> {
    if items == [] then []
    else
      var t := Text(py, items[0]);
      if Blank(py, t) then CleanTexts(py, items[1..], each)
      else [FirstN(t, each)] + CleanTexts(py, items[1..], each)
  }

  function AlpnOf(py: Python, j: Json): seq<string> {
    if j.JList? then FirstN(CleanAlpn(py, j.items), 8) else []
  }

  function CleanAlpn(py: Python, items: seq<Json>): seq<string> {
    if items == [] then []
    else if Blank(py, Text(py, items[0])) then CleanAlpn(py, items[1..])
    else [Text(py, items[0])] + CleanAlpn(py, items[1..])
  }

  function FingerprintOf(py: Python, j: Json): Option<string> {
    if j.JDict? && j.fields(Enabled) == JBool(true) then
      var fp := Strip(py, TextOr(py, j.fields(Fingerprint), ""));
      if fp == "" then None else Some(FirstN(fp, 64))
    else None
  }

  function ReadTls(py: Python, j: Json, server: string): Option<Tls> {
    if !j.JDict? || j.fields(Enabled) == JBool(false) then None
    else Some(Tls(TextOr(py, j.fields(ServerName), server), j.fields(Insecure) == JBool(true),
                  AlpnOf(py, j.fields(Alpn)), FingerprintOf(py, j.fields(Utls))))
  }

  /** A list option of the ssh type: at most 32 entries are looked at. */
  function ListOf(py: Python, j: Json): Option<seq<string>> {
    if j.JList? then Some(CleanTexts(py, FirstN(j.items, 32), 1024)) else None
  }

  /** The `network` option: absent, tcp or udp; the outer None is a refusal. */
  function NetworkOf(py: Python, j: Json): Option<Option<string>> {
    var n := Lower(py, TextOr(py, j, ""));
    if n == "" then Some(None) else if n == "tcp" || n == "udp" then Some(Some(n)) else None
  }

  function Utf8Length(s: string): (n: nat)
    ensures |s| <= n
  {
    if s == "" then 0
    else
      var c := s[0] as int;
      (if c < 0x80 then 1 else if c < 0x800 then 2 else if c < 0x10000 then 3 else 4) + Utf8Length(s[1..])
  }

  /** `{str(k)[:128]: str(v)[:2048] for k, v in items}`. */
  function SetPair(d: seq<(string, string)>, k: string, v: string): seq<(string, string)> {
    if d == [] then [(k, v)]
    else if d[0].0 == k then [(k, v)] + d[1..]
    else [d[0]] + SetPair(d[1..], k, v)
  }

  function HeaderDict(py: Python, pairs: seq<(string, Json)>): seq<(string, string)> {
    if pairs == [] then []
    else
      var last := pairs[|pairs| - 1];
      SetPair(HeaderDict(py, pairs[..|pairs| - 1]), FirstN(last.0, 128), FirstN(Text(py, last.1), 2048))
  }

  function ReadTuic(py: Python, o: Object): Result<Details, ParseError> {
    var uid, password := Strip(py, TextOr(py, o.uuid, "")), Strip(py, TextOr(py, o.password, ""));
    var cc := Lower(py, TextOr(py, o.congestionControl, "cubic"));
    var relay := Lower(py, TextOr(py, o.udpRelayMode, "native"));
    if uid == "" || password == "" then Err(CredentialsRequired)
    else if cc != "cubic" && cc != "new_reno" && cc != "bbr" then Err(CongestionInvalid)
    else if relay != "native" && relay != "quic" then Err(RelayInvalid)
    else Ok(Tuic(uid, password, cc, relay, Truthy(o.zeroRtt)))
  }

  function Clamp64(n: int): int {
    if n < 0 then 0 else if n > 64 then 64 else n
  }

  function ReadAnyTls(py: Python, o: Object): Result<Details, ParseError> {
    var password := Strip(py, TextOr(py, o.password, ""));
    if password == "" then Err(CredentialsRequired)
    else if !o.minIdle.JNull? && Number(py, o.minIdle).None? then Err(MinIdleInvalid)
    else Ok(AnyTls(password, Cut(py, o.idleInterval, 512), Cut(py, o.idleTimeout, 512), Cut(py, o.clientMetadata, 512),
                   if o.minIdle.JNull? then None else Some(Clamp64(Number(py, o.minIdle).value))))
  }

  function ReadShadowTls(py: Python, o: Object): Result<Details, ParseError> {
    var version := NumberOr(py, o.version, 1);
    var password := Strip(py, TextOr(py, o.password, ""));
    if version.None? || !(1 <= version.value <= 3) then Err(VersionInvalid)
    else if version.value != 1 && password == "" then Err(CredentialsRequired)
    else Ok(ShadowTls(version.value, if password == "" then None else Some(password)))
  }

  function ReadHysteria(py: Python, o: Object): Result<Details, ParseError> {
    var up, down := Number(py, o.upMbps), Number(py, o.downMbps);
    var network := NetworkOf(py, o.network);
    if up.None? || down.None? then Err(BandwidthRequired)
    else if !(1 <= up.value <= 100000 && 1 <= down.value <= 100000) then Err(BandwidthInvalid)
    else if network.None? then Err(NetworkInvalid)
    else Ok(Hysteria(up.value, down.value, Cut(py, o.authStr, 2048),
                     if Given(o.authStr) then None else Cut(py, o.auth, 4096), Cut(py, o.obfs, 2048), network.value))
  }

  function ReadSsh(py: Python, o: Object): Result<Details, ParseError> {
    var login, key := Cut(py, o.password, 2048), Cut(py, o.privateKey, 32768);
    if login.None? && key.None? then Err(CredentialsRequired)
    else Ok(Ssh(FirstN(TextOr(py, o.user, "root"), 256), login, key, Cut(py, o.passphrase, 2048), Cut(py, o.clientVersion, 2048),
                ListOf(py, o.hostKey), ListOf(py, o.hostKeyAlgorithms), ListOf(py, o.cipher),
                ListOf(py, o.mac), ListOf(py, o.kexAlgorithm)))
  }

  function ReadSnell(py: Python, o: Object): Result<Details, ParseError> {
    var version := NumberOr(py, o.version, 4);
    var psk := TextOr(py, o.psk, "");
    var network := NetworkOf(py, o.network);
    var obfs, mode := Lower(py, TextOr(py, o.obfsMode, "none")), Lower(py, TextOr(py, o.mode, "default"));
    if version.None? || (version.value != 4 && version.value != 6) then Err(VersionInvalid)
    else if psk == "" || (version.value == 6 && !(12 <= Utf8Length(psk) <= 255)) then Err(PskInvalid)
    else if network.None? then Err(NetworkInvalid)
    else if version.value == 4 then
      if obfs != "none" && obfs != "http" then Err(ObfsInvalid)
      else Ok(Snell(4, FirstN(psk, 2048), Truthy(o.reuse), Cut(py, o.userKey, 2048), network.value,
                    Some(obfs), Cut(py, o.obfsHost, 512), None))
    else if mode != "default" && mode != "unshaped" && mode != "unsafe-raw" then Err(ModeInvalid)
    else Ok(Snell(6, FirstN(psk, 2048), Truthy(o.reuse), Cut(py, o.userKey, 2048), network.value, None, None, Some(mode)))
  }

  function ReadSocks(py: Python, o: Object): Result<Details, ParseError> {
    var version := Lower(py, TextOr(py, o.version, "5"));
    var network := NetworkOf(py, o.network);
    if version != "4" && version != "4a" && version != "5" then Err(VersionInvalid)
    else if network.None? then Err(NetworkInvalid)
    else Ok(Socks(version, Cut(py, o.username, 2048), Cut(py, o.password, 2048), network.value,
                  if o.udpOverTcp.JBool? || o.udpOverTcp.JDict? then Some(o.udpOverTcp) else None))
  }

  function ReadHttp(py: Python, o: Object): Result<Details, ParseError> {
    Ok(Http(Cut(py, o.username, 2048), Cut(py, o.password, 2048), Cut(py, o.path, 2048),
            if o.headers.JDict? then Some(HeaderDict(py, FirstN(o.headers.pairs, 32))) else None))
  }

  function ReadNaive(py: Python, o: Object): Result<Details, ParseError> {
    var n := NumberOr(py, o.insecureConcurrency, 0);
    if n.None? then Err(ConcurrencyInvalid)
    else Ok(Naive(Cut(py, o.username, 2048), Cut(py, o.password, 2048), Clamp64(n.value), Truthy(o.quic),
                  Cut(py, o.quicCongestion, 64)))
  }

  function ReadDetails(py: Python, p: Proto, o: Object): Result<Details, ParseError> {
    match p
    case TuicP => ReadTuic(py, o)
    case AnyTlsP => ReadAnyTls(py, o)
    case ShadowTlsP => ReadShadowTls(py, o)
    case HysteriaP => ReadHysteria(py, o)
    case SshP => ReadSsh(py, o)
    case SnellP => ReadSnell(py, o)
    case SocksP => ReadSocks(py, o)
    case HttpP => ReadHttp(py, o)
    case NaiveP => ReadNaive(py, o)
  }

  /** The checks before the type-specific part: the port, or the refusal. */
  function ReadPort(py: Python, p: Proto, o: Object): Result<int, ParseError> {
    var server := Strip(py, TextOr(py, o.server, ""));
    var port := NumberOr(py, o.serverPort, if p.SshP? then 22 else 0);
    if Truthy(o.detour) || Truthy(o.dialerProxy) then Err(DetourUnsupported)
    else if Truthy(o.privateKeyPath) || Truthy(o.certificatePath) || Truthy(o.clientCertificatePath)
         || Truthy(o.clientKeyPath) then Err(LocalPathUnsupported)
    else if port.None? then Err(PortInvalid)
    else if server == "" || !(1 <= port.value <= 65535) then Err(HostPortRequired)
    else Ok(port.value)
  }

  /** `_singbox_json_node`, as far as the id depends on it. */
  function Read(py: Python, o: Object): Result<Node, ParseError> {
    match TypeOf(Lower(py, TextOr(py, o.typ, "")))
    case None => Err(ProtocolUnsupported)
    case Some(p) =>
      var server := Strip(py, TextOr(py, o.server, ""));
      match ReadPort(py, p, o)
      case Err(e) => Err(e)
      case Ok(port) =>
        var tls := ReadTls(py, o.tls, server);
        if tls.None? && (NeedsTls(p) || o.tls.JDict?) then Err(TlsRequired)
        else
          match ReadDetails(py, p, o)
          case Err(e) => Err(e)
          case Ok(d) => Ok(Node(FirstN(TextOr(py, o.tag, TypeLabel(p) + " " + server), 120), server, port, tls, d))
  }

  // ----- writing -----

  function ProtoOf(d: Details): Proto {
    if d.Tuic? then TuicP else if d.AnyTls? then AnyTlsP else if d.ShadowTls? then ShadowTlsP
    else if d.Hysteria? then HysteriaP else if d.Ssh? then SshP else if d.Snell? then SnellP
    else if d.Socks? then SocksP else if d.Http? then HttpP else NaiveP
  }

  function Str(s: Option<string>): Json {
    if s.Some? && s.value != "" then JStr(s.value) else JNull
  }

  function Strs(l: seq<string>): seq<Json> {
    if l == [] then [] else [JStr(l[0])] + Strs(l[1..])
  }

  /** A list is written only if it is not empty. */
  function List(l: Option<seq<string>>): Json {
    if l.Some? && l.value != [] then JList(Strs(l.value)) else JNull
  }

  function Pairs(d: seq<(string, string)>): seq<(string, Json)> {
    if d == [] then [] else [(d[0].0, JStr(d[0].1))] + Pairs(d[1..])
  }

  function UtlsField(fp: Option<string>, k: Key): Json {
    match k
    case Enabled => JBool(true)
    case Fingerprint => Str(fp)
    case _ => JNull
  }

  function TlsField(t: Tls, k: Key): Json {
    match k
    case Enabled => JBool(true)
    case ServerName => JStr(t.serverName)
    case Insecure => if t.insecure then JBool(true) else JNull
    case Alpn => List(Some(t.alpn))
    case Utls => if t.fingerprint.Some? then JDict(x => UtlsField(t.fingerprint, x), [("enabled", JBool(true))]) else JNull
    case _ => JNull
  }

  function WriteTls(t: Option<Tls>): Json {
    if t.Some? then JDict(x => TlsField(t.value, x), [("enabled", JBool(true))]) else JNull
  }

  function WriteTuic(d: Details, o: Object): Object
    requires d.Tuic?
  {
    o.(uuid := JStr(d.uuid), password := JStr(d.password), congestionControl := JStr(d.congestion),
       udpRelayMode := JStr(d.relay), zeroRtt := JBool(d.zeroRtt))
  }

  function WriteAnyTls(d: Details, o: Object): Object
    requires d.AnyTls?
  {
    o.(password := JStr(d.password), idleInterval := Str(d.interval), idleTimeout := Str(d.timeout),
       clientMetadata := Str(d.metadata), minIdle := if d.minIdle.Some? then JInt(d.minIdle.value) else JNull)
  }

  function WriteShadowTls(d: Details, o: Object): Object
    requires d.ShadowTls?
  {
    o.(version := JInt(d.version), password := Str(d.shared))
  }

  function WriteHysteria(d: Details, o: Object): Object
    requires d.Hysteria?
  {
    o.(upMbps := JInt(d.up), downMbps := JInt(d.down), authStr := Str(d.authStr), auth := Str(d.auth),
       obfs := Str(d.obfs), network := Str(d.network))
  }

  function WriteSsh(d: Details, o: Object): Object
    requires d.Ssh?
  {
    o.(user := JStr(if d.user == "" then "root" else d.user), password := Str(d.login), privateKey := Str(d.key),
       passphrase := Str(d.passphrase), clientVersion := Str(d.client), hostKey := List(d.hostKey),
       hostKeyAlgorithms := List(d.algorithms), cipher := List(d.cipher), mac := List(d.mac), kexAlgorithm := List(d.kex))
  }

  function WriteSnell(d: Details, o: Object): Object
    requires d.Snell?
  {
    o.(version := JInt(d.version), psk := JStr(d.psk), reuse := if d.reuse then JBool(true) else JNull,
       userKey := Str(d.userKey), network := Str(d.network), obfsMode := Str(d.obfsMode),
       obfsHost := Str(d.obfsHost), mode := Str(d.mode))
  }

  function WriteSocks(d: Details, o: Object): Object
    requires d.Socks?
  {
    o.(version := JStr(d.socks), username := Str(d.username), password := Str(d.login), network := Str(d.network),
       udpOverTcp := if d.udpOverTcp.Some? then d.udpOverTcp.value else JNull)
  }

  function WriteHttp(d: Details, o: Object): Object
    requires d.Http?
  {
    o.(username := Str(d.username), password := Str(d.login), path := Str(d.path),
       headers := if d.headers.Some? then JDict(x => JNull, Pairs(d.headers.value)) else JNull)
  }

  function WriteNaive(d: Details, o: Object): Object
    requires d.Naive?
  {
    o.(username := Str(d.username), password := Str(d.login), insecureConcurrency := JInt(d.concurrency),
       quic := JBool(d.quic), quicCongestion := Str(d.quicCongestion))
  }

  function WriteDetails(d: Details, o: Object): Object {
    match ProtoOf(d)
    case TuicP => WriteTuic(d, o)
    case AnyTlsP => WriteAnyTls(d, o)
    case ShadowTlsP => WriteShadowTls(d, o)
    case HysteriaP => WriteHysteria(d, o)
    case SshP => WriteSsh(d, o)
    case SnellP => WriteSnell(d, o)
    case SocksP => WriteSocks(d, o)
    case HttpP => WriteHttp(d, o)
    case NaiveP => WriteNaive(d, o)
  }

  /** The fields every outbound has. */
  function Base(n: Node): Object {
    EMPTY.(typ := JStr(TypeName(ProtoOf(n.details))), tag := JStr("provider"), server := JStr(n.server),
           serverPort := JInt(n.port), tls := WriteTls(n.tls))
  }

  /** `_outbound`. */
  function Write(n: Node): Object {
    WriteDetails(n.details, Base(n))
  }
}
