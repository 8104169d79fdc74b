/** Reading back the outbound written for a node. */
module OutboundRoundTrip {
  import opened Prelude
  import opened Outbound

  // ----- small facts about the conversions -----

  lemma {:induction false} StripOfTrimmed(py: Python, s: string)
    requires Trimmed(py, s)
    ensures Strip(py, s) == s
  {
  }

  lemma {:induction false} StripLeftFacts(py: Python, s: string)
    ensures var r := StripLeft(py, s); (r != "" ==> !py.space(r[0])) && (r == "" <==> Blank(py, s))
  {
    if s != "" && py.space(s[0]) {
      StripLeftFacts(py, s[1..]);
      if Blank(py, s[1..]) {
        forall i | 0 <= i < |s| ensures py.space(s[i]) {
          assert i > 0 ==> s[i] == s[1..][i - 1];
        }
      }
    }
  }

  lemma {:induction false} StripRightFacts(py: Python, s: string)
    requires s != "" ==> !py.space(s[0])
    ensures var r := StripRight(py, s); Trimmed(py, r) && r <= s && (r == "" <==> s == "")
  {
    if s != "" && py.space(s[|s| - 1]) {
      StripRightFacts(py, s[..|s| - 1]);
    }
  }

  lemma StripIsTrimmed(py: Python, s: string)
    ensures Trimmed(py, Strip(py, s)) && (Strip(py, s) == "" <==> Blank(py, s))
    ensures s != "" && !py.space(s[0]) ==> Strip(py, s) <= s
  {
    StripLeftFacts(py, s);
    StripRightFacts(py, StripLeft(py, s));
  }

  /** An optional text that is present is not empty and within its length. */
  predicate OptOk(s: Option<string>, n: nat) {
    s.Some? ==> 1 <= |s.value| <= n
  }

  lemma CutOfStr(py: Python, s: Option<string>, n: nat)
    requires OptOk(s, n)
    ensures Cut(py, Str(s), n) == s
  {
  }

  lemma CutIsOk(py: Python, j: Json, n: nat)
    requires n >= 1
    ensures OptOk(Cut(py, j, n), n)
  {
  }

  lemma ConstantsAreLower()
    ensures PlainLower("cubic") && PlainLower("new_reno") && PlainLower("bbr") && PlainLower("native") && PlainLower("quic")
    ensures PlainLower("tcp") && PlainLower("udp") && PlainLower("none") && PlainLower("http")
    ensures PlainLower("default") && PlainLower("unshaped") && PlainLower("unsafe-raw")
    ensures PlainLower("4") && PlainLower("4a") && PlainLower("5") && PlainLower("")
  {
  }

  lemma TypeReads(py: Python, p: Proto)
    ensures TypeOf(Lower(py, TextOr(py, JStr(TypeName(p)), ""))) == Some(p)
  {
  }

  lemma NetworkReads(py: Python, n: Option<string>)
    requires n.Some? ==> n.value == "tcp" || n.value == "udp"
    ensures NetworkOf(py, Str(n)) == Some(n)
  {
    ConstantsAreLower();
  }

  // ----- TLS -----

  predicate TlsOk(py: Python, t: Tls) {
    && t.serverName != ""
    && |t.alpn| <= 8 && (forall i | 0 <= i < |t.alpn| :: !Blank(py, t.alpn[i]))
    && (t.fingerprint.Some? ==> FingerprintOk(py, t.fingerprint.value))
  }

  /** The cut fingerprint does not end in a blank. */
  predicate TlsSettled(py: Python, t: Tls) {
    t.fingerprint.Some? && t.fingerprint.value != "" ==> !py.space(t.fingerprint.value[|t.fingerprint.value| - 1])
  }

  lemma {:induction false} CleanAlpnFacts(py: Python, items: seq<Json>)
    ensures forall i | 0 <= i < |CleanAlpn(py, items)| :: !Blank(py, CleanAlpn(py, items)[i])
  {
    if items != [] {
      CleanAlpnFacts(py, items[1..]);
    }
  }

  lemma {:induction false} CleanAlpnKeeps(py: Python, texts: seq<string>)
    requires forall i | 0 <= i < |texts| :: !Blank(py, texts[i])
    ensures CleanAlpn(py, Strs(texts)) == texts
  {
    if texts != [] {
      CleanAlpnKeeps(py, texts[1..]);
      assert !Blank(py, texts[0]);
      assert Strs(texts)[1..] == Strs(texts[1..]);
    }
  }

  lemma ReadTlsIsOk(py: Python, j: Json, server: string)
    requires server != "" && ReadTls(py, j, server).Some?
    ensures TlsOk(py, ReadTls(py, j, server).value)
  {
    var alpn, utls := j.fields(Alpn), j.fields(Utls);
    if alpn.JList? {
      CleanAlpnFacts(py, alpn.items);
    }
    if utls.JDict? {
      StripIsTrimmed(py, TextOr(py, utls.fields(Fingerprint), ""));
    }
  }

  predicate FingerprintOk(py: Python, fp: string) {
    1 <= |fp| <= 64 && !py.space(fp[0])
  }

  lemma FingerprintReadsBack(py: Python, fp: string)
    requires FingerprintOk(py, fp)
    ensures FingerprintOf(py, JDict(x => UtlsField(Some(fp), x), [("enabled", JBool(true))])) == Some(fp)
        <==> !py.space(fp[|fp| - 1])
  {
    StripIsTrimmed(py, fp);
    if !py.space(fp[|fp| - 1]) {
      StripOfTrimmed(py, fp);
    }
  }

  lemma AlpnReadsBack(py: Python, t: Tls)
    requires TlsOk(py, t)
    ensures AlpnOf(py, List(Some(t.alpn))) == t.alpn
  {
    CleanAlpnKeeps(py, t.alpn);
  }

  lemma TlsReadsBack(py: Python, t: Tls, server: string)
    requires TlsOk(py, t)
    ensures ReadTls(py, WriteTls(Some(t)), server).Some?
    ensures ReadTls(py, WriteTls(Some(t)), server) == Some(t) <==> TlsSettled(py, t)
  {
    AlpnReadsBack(py, t);
    if t.fingerprint.Some? {
      FingerprintReadsBack(py, t.fingerprint.value);
    }
    var w := WriteTls(Some(t));
    assert w.fields(Enabled) == JBool(true) && w.fields(ServerName) == JStr(t.serverName);
    assert w.fields(Alpn) == List(Some(t.alpn));
    assert w.fields(Insecure) == if t.insecure then JBool(true) else JNull;
  }

  // ----- the list options of ssh -----

  predicate ListOk(l: Option<seq<string>>) {
    l.Some? ==> |l.value| <= 32 && forall i | 0 <= i < |l.value| :: |l.value[i]| <= 1024
  }

  /** Present means not empty, and no entry is blank after its cut. */
  predicate ListSettled(py: Python, l: Option<seq<string>>) {
    l.Some? ==> l.value != [] && forall i | 0 <= i < |l.value| :: !Blank(py, l.value[i])
  }

  lemma {:induction false} CleanTextsFacts(py: Python, items: seq<Json>, each: nat)
    ensures var r := CleanTexts(py, items, each);
            |r| <= |items| && forall i | 0 <= i < |r| :: |r[i]| <= each
  {
    if items != [] {
      CleanTextsFacts(py, items[1..], each);
    }
  }

  lemma ListOfIsOk(py: Python, j: Json)
    ensures ListOk(ListOf(py, j))
  {
    if j.JList? {
      CleanTextsFacts(py, FirstN(j.items, 32), 1024);
    }
  }

  lemma {:induction false} StrsLength(l: seq<string>)
    ensures |Strs(l)| == |l|
  {
    if l != [] {
      StrsLength(l[1..]);
    }
  }

  lemma {:induction false} CleanTextsKeeps(py: Python, l: seq<string>)
    requires forall i | 0 <= i < |l| :: |l[i]| <= 1024
    ensures CleanTexts(py, Strs(l), 1024) == l <==> forall i | 0 <= i < |l| :: !Blank(py, l[i])
    ensures |CleanTexts(py, Strs(l), 1024)| <= |l|
  {
    if l != [] {
      CleanTextsKeeps(py, l[1..]);
      assert Strs(l)[1..] == Strs(l[1..]);
      var rest := CleanTexts(py, Strs(l[1..]), 1024);
      if !Blank(py, l[0]) {
        assert CleanTexts(py, Strs(l), 1024) == [l[0]] + rest;
        assert ([l[0]] + rest)[1..] == rest;
        assert l == [l[0]] + l[1..];
        if forall i | 0 <= i < |l[1..]| :: !Blank(py, l[1..][i]) {
          forall i | 0 <= i < |l| ensures !Blank(py, l[i]) {
            assert i > 0 ==> l[i] == l[1..][i - 1];
          }
        } else {
          var i :| 0 <= i < |l[1..]| && Blank(py, l[1..][i]);
          assert Blank(py, l[i + 1]);
        }
      }
    }
  }

  lemma ListReadsBack(py: Python, l: Option<seq<string>>)
    requires ListOk(l)
    ensures ListOf(py, List(l)) == l <==> ListSettled(py, l)
  {
    if l.Some? && l.value != [] {
      StrsLength(l.value);
      CleanTextsKeeps(py, l.value);
    }
  }

  // ----- the type-specific fields -----

  predicate TextOk(py: Python, s: string) {
    s != "" && Trimmed(py, s)
  }

  predicate NetworkOk(n: Option<string>) {
    n.Some? ==> n.value == "tcp" || n.value == "udp"
  }

  ghost predicate HeadersOk(h: seq<(string, string)>) {
    |h| <= 32 && DictOk(h)
  }

  // What the reader guarantees of each type's fields.

  predicate TuicOk(py: Python, d: Details) {
    && d.Tuic? && TextOk(py, d.uuid) && TextOk(py, d.password)
    && (d.congestion == "cubic" || d.congestion == "new_reno" || d.congestion == "bbr")
    && (d.relay == "native" || d.relay == "quic")
  }

  predicate AnyTlsOk(py: Python, d: Details) {
    && d.AnyTls? && TextOk(py, d.password)
    && OptOk(d.interval, 512) && OptOk(d.timeout, 512) && OptOk(d.metadata, 512)
    && (d.minIdle.Some? ==> 0 <= d.minIdle.value <= 64)
  }

  predicate ShadowTlsOk(py: Python, d: Details) {
    && d.ShadowTls? && 1 <= d.version <= 3
    && (d.shared.Some? ==> TextOk(py, d.shared.value)) && (d.version != 1 ==> d.shared.Some?)
  }

  predicate HysteriaOk(d: Details) {
    && d.Hysteria? && 1 <= d.up <= 100000 && 1 <= d.down <= 100000
    && OptOk(d.authStr, 2048) && OptOk(d.auth, 4096) && OptOk(d.obfs, 2048)
    && (d.authStr.Some? ==> d.auth.None?) && NetworkOk(d.network)
  }

  predicate SshOk(d: Details) {
    && d.Ssh? && 1 <= |d.user| <= 256
    && OptOk(d.login, 2048) && OptOk(d.key, 32768) && (d.login.Some? || d.key.Some?)
    && OptOk(d.passphrase, 2048) && OptOk(d.client, 2048)
    && ListOk(d.hostKey) && ListOk(d.algorithms) && ListOk(d.cipher) && ListOk(d.mac) && ListOk(d.kex)
  }

  predicate SnellOk(d: Details) {
    && d.Snell? && 1 <= |d.psk| <= 2048 && OptOk(d.userKey, 2048) && NetworkOk(d.network)
    && if d.version == 4 then
         (d.obfsMode == Some("none") || d.obfsMode == Some("http")) && OptOk(d.obfsHost, 512) && d.mode.None?
       else
         d.version == 6 && 12 <= Utf8Length(d.psk) <= 255 && d.obfsMode.None? && d.obfsHost.None?
         && (d.mode == Some("default") || d.mode == Some("unshaped") || d.mode == Some("unsafe-raw"))
  }

  predicate SocksOk(d: Details) {
    && d.Socks? && (d.socks == "4" || d.socks == "4a" || d.socks == "5")
    && OptOk(d.username, 2048) && OptOk(d.login, 2048) && NetworkOk(d.network)
    && (d.udpOverTcp.Some? ==> d.udpOverTcp.value.JBool? || d.udpOverTcp.value.JDict?)
  }

  ghost predicate HttpOk(d: Details) {
    && d.Http? && OptOk(d.username, 2048) && OptOk(d.login, 2048) && OptOk(d.path, 2048)
    && (d.headers.Some? ==> HeadersOk(d.headers.value))
  }

  predicate NaiveOk(d: Details) {
    && d.Naive? && OptOk(d.username, 2048) && OptOk(d.login, 2048)
    && 0 <= d.concurrency <= 64 && OptOk(d.quicCongestion, 64)
  }

  ghost predicate DetailsOk(py: Python, d: Details) {
    match ProtoOf(d)
    case TuicP => TuicOk(py, d)
    case AnyTlsP => AnyTlsOk(py, d)
    case ShadowTlsP => ShadowTlsOk(py, d)
    case HysteriaP => HysteriaOk(d)
    case SshP => SshOk(d)
    case SnellP => SnellOk(d)
    case SocksP => SocksOk(d)
    case HttpP => HttpOk(d)
    case NaiveP => NaiveOk(d)
  }

  /** The list options of an ssh node are the only fields that may not settle. */
  predicate DetailsSettled(py: Python, d: Details) {
    d.Ssh? ==> ListSettled(py, d.hostKey) && ListSettled(py, d.algorithms) && ListSettled(py, d.cipher)
               && ListSettled(py, d.mac) && ListSettled(py, d.kex)
  }

  lemma TextReadsBack(py: Python, s: string)
    requires TextOk(py, s)
    ensures Strip(py, TextOr(py, JStr(s), "")) == s
  {
    StripOfTrimmed(py, s);
  }

  lemma TuicReadsBack(py: Python, d: Details, o: Object)
    requires TuicOk(py, d)
    ensures ReadTuic(py, WriteTuic(d, o)) == Ok(d)
  {
    ConstantsAreLower();
    TextReadsBack(py, d.uuid);
    TextReadsBack(py, d.password);
  }

  lemma AnyTlsReadsBack(py: Python, d: Details, o: Object)
    requires AnyTlsOk(py, d)
    ensures ReadAnyTls(py, WriteAnyTls(d, o)) == Ok(d)
  {
    TextReadsBack(py, d.password);
    CutOfStr(py, d.interval, 512);
    CutOfStr(py, d.timeout, 512);
    CutOfStr(py, d.metadata, 512);
  }

  lemma ShadowTlsReadsBack(py: Python, d: Details, o: Object)
    requires ShadowTlsOk(py, d)
    ensures ReadShadowTls(py, WriteShadowTls(d, o)) == Ok(d)
  {
    if d.shared.Some? {
      TextReadsBack(py, d.shared.value);
    }
    StripOfTrimmed(py, "");
  }

  lemma HysteriaReadsBack(py: Python, d: Details, o: Object)
    requires HysteriaOk(d)
    ensures ReadHysteria(py, WriteHysteria(d, o)) == Ok(d)
  {
    NetworkReads(py, d.network);
    CutOfStr(py, d.authStr, 2048);
    CutOfStr(py, d.auth, 4096);
    CutOfStr(py, d.obfs, 2048);
  }

  lemma SshReadsBack(py: Python, d: Details, o: Object)
    requires SshOk(d)
    ensures ReadSsh(py, WriteSsh(d, o)).Ok?
    ensures ReadSsh(py, WriteSsh(d, o)) == Ok(d) <==> DetailsSettled(py, d)
  {
    CutOfStr(py, d.login, 2048);
    CutOfStr(py, d.key, 32768);
    CutOfStr(py, d.passphrase, 2048);
    CutOfStr(py, d.client, 2048);
    ListReadsBack(py, d.hostKey);
    ListReadsBack(py, d.algorithms);
    ListReadsBack(py, d.cipher);
    ListReadsBack(py, d.mac);
    ListReadsBack(py, d.kex);
  }

  lemma SnellReadsBack(py: Python, d: Details, o: Object)
    requires SnellOk(d)
    ensures ReadSnell(py, WriteSnell(d, o)) == Ok(d)
  {
    ConstantsAreLower();
    NetworkReads(py, d.network);
    CutOfStr(py, d.userKey, 2048);
    CutOfStr(py, d.obfsHost, 512);
  }

  lemma SocksReadsBack(py: Python, d: Details, o: Object)
    requires SocksOk(d)
    ensures ReadSocks(py, WriteSocks(d, o)) == Ok(d)
  {
    ConstantsAreLower();
    NetworkReads(py, d.network);
    CutOfStr(py, d.username, 2048);
    CutOfStr(py, d.login, 2048);
  }

  lemma {:induction false} SetNewPair(d: seq<(string, string)>, k: string, v: string)
    requires forall i | 0 <= i < |d| :: d[i].0 != k
    ensures SetPair(d, k, v) == d + [(k, v)]
  {
    if d != [] {
      SetNewPair(d[1..], k, v);
    }
  }

  lemma {:induction false} PairsAt(d: seq<(string, string)>)
    ensures |Pairs(d)| == |d| && forall i | 0 <= i < |d| :: Pairs(d)[i] == (d[i].0, JStr(d[i].1))
  {
    if d != [] {
      PairsAt(d[1..]);
    }
  }

  lemma {:induction false} HeadersReadBack(py: Python, d: seq<(string, string)>)
    requires HeadersOk(d)
    ensures HeaderDict(py, Pairs(d)) == d
  {
    PairsAt(d);
    if d != [] {
      var k := |d| - 1;
      var front := d[..k];
      PairsAt(front);
      assert Pairs(d)[..k] == Pairs(front);
      HeadersReadBack(py, front);
      SetNewPair(front, d[k].0, d[k].1);
      assert front + [(d[k].0, d[k].1)] == d;
    }
  }

  lemma HttpReadsBack(py: Python, d: Details, o: Object)
    requires HttpOk(d)
    ensures ReadHttp(py, WriteHttp(d, o)) == Ok(d)
  {
    CutOfStr(py, d.username, 2048);
    CutOfStr(py, d.login, 2048);
    CutOfStr(py, d.path, 2048);
    if d.headers.Some? {
      PairsAt(d.headers.value);
      HeadersReadBack(py, d.headers.value);
    }
  }

  lemma NaiveReadsBack(py: Python, d: Details, o: Object)
    requires NaiveOk(d)
    ensures ReadNaive(py, WriteNaive(d, o)) == Ok(d)
  {
    CutOfStr(py, d.username, 2048);
    CutOfStr(py, d.login, 2048);
    CutOfStr(py, d.quicCongestion, 64);
  }

  lemma DetailsReadBack(py: Python, n: Node)
    requires DetailsOk(py, n.details)
    ensures ReadDetails(py, ProtoOf(n.details), Write(n)).Ok?
    ensures ReadDetails(py, ProtoOf(n.details), Write(n)) == Ok(n.details) <==> DetailsSettled(py, n.details)
  {
    var d, o := n.details, Base(n);
    if d.Tuic? {
      TuicReadsBack(py, d, o);
    } else if d.AnyTls? {
      AnyTlsReadsBack(py, d, o);
    } else if d.ShadowTls? {
      ShadowTlsReadsBack(py, d, o);
    } else if d.Hysteria? {
      HysteriaReadsBack(py, d, o);
    } else if d.Ssh? {
      SshReadsBack(py, d, o);
    } else if d.Snell? {
      SnellReadsBack(py, d, o);
    } else if d.Socks? {
      SocksReadsBack(py, d, o);
    } else if d.Http? {
      HttpReadsBack(py, d, o);
    } else {
      NaiveReadsBack(py, d, o);
    }
  }

  // ----- whole nodes -----

  ghost predicate NodeOk(py: Python, n: Node) {
    && TextOk(py, n.server) && 1 <= n.port <= 65535
    && (n.tls.Some? ==> TlsOk(py, n.tls.value))
    && (NeedsTls(ProtoOf(n.details)) ==> n.tls.Some?)
    && DetailsOk(py, n.details)
  }

  /** What a caller can check before printing. */
  predicate NodeSettled(py: Python, n: Node) {
    (n.tls.Some? ==> TlsSettled(py, n.tls.value)) && DetailsSettled(py, n.details)
  }

  lemma SharedReadsBack(py: Python, n: Node)
    ensures Write(n).typ == JStr(TypeName(ProtoOf(n.details))) && Write(n).server == JStr(n.server)
    ensures Write(n).serverPort == JInt(n.port) && Write(n).tls == WriteTls(n.tls)
    ensures Write(n).detour.JNull? && Write(n).dialerProxy.JNull? && Write(n).privateKeyPath.JNull?
    ensures Write(n).certificatePath.JNull? && Write(n).clientCertificatePath.JNull? && Write(n).clientKeyPath.JNull?
  {
  }

  lemma PortReadsBack(py: Python, n: Node, p: Proto)
    requires TextOk(py, n.server) && 1 <= n.port <= 65535
    ensures ReadPort(py, p, Write(n)) == Ok(n.port)
    ensures Strip(py, TextOr(py, Write(n).server, "")) == n.server
  {
    TextReadsBack(py, n.server);
    SharedReadsBack(py, n);
  }

  /** The outbound written for a well-formed node is always read back; the
      result has the same identity exactly when the node is settled. */
  lemma WriteReadsBack(py: Python, n: Node)
    requires NodeOk(py, n)
    ensures Read(py, Write(n)).Ok?
    ensures Identity(Read(py, Write(n)).value) == Identity(n) <==> NodeSettled(py, n)
  {
    var p := ProtoOf(n.details);
    TypeReads(py, p);
    PortReadsBack(py, n, p);
    DetailsReadBack(py, n);
    SharedReadsBack(py, n);
    if n.tls.Some? {
      TlsReadsBack(py, n.tls.value, n.server);
    }
  }

  // ----- what the reader guarantees -----

  lemma StripTextIsOk(py: Python, j: Json)
    ensures var s := Strip(py, TextOr(py, j, "")); s != "" ==> TextOk(py, s)
  {
    StripIsTrimmed(py, TextOr(py, j, ""));
  }

  lemma ReadTuicIsOk(py: Python, o: Object)
    requires ReadTuic(py, o).Ok?
    ensures TuicOk(py, ReadTuic(py, o).value)
  {
    StripTextIsOk(py, o.uuid);
    StripTextIsOk(py, o.password);
  }

  lemma ReadAnyTlsIsOk(py: Python, o: Object)
    requires ReadAnyTls(py, o).Ok?
    ensures AnyTlsOk(py, ReadAnyTls(py, o).value)
  {
    StripTextIsOk(py, o.password);
    CutIsOk(py, o.idleInterval, 512);
    CutIsOk(py, o.idleTimeout, 512);
    CutIsOk(py, o.clientMetadata, 512);
  }

  lemma ReadShadowTlsIsOk(py: Python, o: Object)
    requires ReadShadowTls(py, o).Ok?
    ensures ShadowTlsOk(py, ReadShadowTls(py, o).value)
  {
    StripTextIsOk(py, o.password);
  }

  lemma NetworkIsOk(py: Python, j: Json)
    requires NetworkOf(py, j).Some?
    ensures NetworkOk(NetworkOf(py, j).value)
  {
  }

  lemma ReadHysteriaIsOk(py: Python, o: Object)
    requires ReadHysteria(py, o).Ok?
    ensures HysteriaOk(ReadHysteria(py, o).value)
  {
    NetworkIsOk(py, o.network);
    CutIsOk(py, o.authStr, 2048);
    CutIsOk(py, o.auth, 4096);
    CutIsOk(py, o.obfs, 2048);
  }

  lemma ReadSshIsOk(py: Python, o: Object)
    requires ReadSsh(py, o).Ok?
    ensures SshOk(ReadSsh(py, o).value)
  {
    CutIsOk(py, o.password, 2048);
    CutIsOk(py, o.privateKey, 32768);
    CutIsOk(py, o.passphrase, 2048);
    CutIsOk(py, o.clientVersion, 2048);
    ListOfIsOk(py, o.hostKey);
    ListOfIsOk(py, o.hostKeyAlgorithms);
    ListOfIsOk(py, o.cipher);
    ListOfIsOk(py, o.mac);
    ListOfIsOk(py, o.kexAlgorithm);
  }

  lemma ReadSnellIsOk(py: Python, o: Object)
    requires ReadSnell(py, o).Ok?
    ensures SnellOk(ReadSnell(py, o).value)
  {
    NetworkIsOk(py, o.network);
    CutIsOk(py, o.userKey, 2048);
    CutIsOk(py, o.obfsHost, 512);
  }

  lemma ReadSocksIsOk(py: Python, o: Object)
    requires ReadSocks(py, o).Ok?
    ensures SocksOk(ReadSocks(py, o).value)
  {
    NetworkIsOk(py, o.network);
    CutIsOk(py, o.username, 2048);
    CutIsOk(py, o.password, 2048);
  }

  ghost predicate DictOk(d: seq<(string, string)>) {
    && (forall i | 0 <= i < |d| :: |d[i].0| <= 128 && |d[i].1| <= 2048)
    && (forall i, j | 0 <= i < j < |d| :: d[i].0 != d[j].0)
  }

  lemma {:induction false} SetPairElements(d: seq<(string, string)>, k: string, v: string)
    ensures |SetPair(d, k, v)| <= |d| + 1
    ensures forall x | x in SetPair(d, k, v) :: x == (k, v) || x in d
  {
    if d != [] && d[0].0 != k {
      SetPairElements(d[1..], k, v);
      assert d == [d[0]] + d[1..];
    }
  }

  lemma {:induction false} SetPairKeepsDict(d: seq<(string, string)>, k: string, v: string)
    requires DictOk(d) && |k| <= 128 && |v| <= 2048
    ensures DictOk(SetPair(d, k, v))
  {
    if d != [] && d[0].0 != k {
      var tail, rest := d[1..], SetPair(d[1..], k, v);
      SetPairKeepsDict(tail, k, v);
      SetPairElements(tail, k, v);
      forall i | 0 <= i < |rest| ensures rest[i].0 != d[0].0 {
        assert rest[i] in rest;
        if rest[i] != (k, v) {
          var j :| 0 <= j < |tail| && tail[j] == rest[i];
          assert tail[j] == d[j + 1];
        }
      }
    }
  }

  lemma {:induction false} HeaderDictFacts(py: Python, pairs: seq<(string, Json)>)
    ensures DictOk(HeaderDict(py, pairs)) && |HeaderDict(py, pairs)| <= |pairs|
  {
    if pairs != [] {
      var k := |pairs| - 1;
      HeaderDictFacts(py, pairs[..k]);
      var key, value := FirstN(pairs[k].0, 128), FirstN(Text(py, pairs[k].1), 2048);
      SetPairElements(HeaderDict(py, pairs[..k]), key, value);
      SetPairKeepsDict(HeaderDict(py, pairs[..k]), key, value);
    }
  }

  lemma ReadHttpIsOk(py: Python, o: Object)
    ensures HttpOk(ReadHttp(py, o).value)
  {
    CutIsOk(py, o.username, 2048);
    CutIsOk(py, o.password, 2048);
    CutIsOk(py, o.path, 2048);
    if o.headers.JDict? {
      HeaderDictFacts(py, FirstN(o.headers.pairs, 32));
    }
  }

  lemma ReadNaiveIsOk(py: Python, o: Object)
    requires ReadNaive(py, o).Ok?
    ensures NaiveOk(ReadNaive(py, o).value)
  {
    CutIsOk(py, o.username, 2048);
    CutIsOk(py, o.password, 2048);
    CutIsOk(py, o.quicCongestion, 64);
  }

  lemma ReadDetailsIsOk(py: Python, p: Proto, o: Object)
    requires ReadDetails(py, p, o).Ok?
    ensures ProtoOf(ReadDetails(py, p, o).value) == p && DetailsOk(py, ReadDetails(py, p, o).value)
  {
    match p
    case TuicP => ReadTuicIsOk(py, o);
    case AnyTlsP => ReadAnyTlsIsOk(py, o);
    case ShadowTlsP => ReadShadowTlsIsOk(py, o);
    case HysteriaP => ReadHysteriaIsOk(py, o);
    case SshP => ReadSshIsOk(py, o);
    case SnellP => ReadSnellIsOk(py, o);
    case SocksP => ReadSocksIsOk(py, o);
    case HttpP => ReadHttpIsOk(py, o);
    case NaiveP => ReadNaiveIsOk(py, o);
  }

  lemma ReadIsOk(py: Python, o: Object)
    requires Read(py, o).Ok?
    ensures NodeOk(py, Read(py, o).value)
  {
    var p := TypeOf(Lower(py, TextOr(py, o.typ, ""))).value;
    var n := Read(py, o).value;
    StripTextIsOk(py, o.server);
    ReadDetailsIsOk(py, p, o);
    if n.tls.Some? {
      ReadTlsIsOk(py, o.tls, n.server);
    }
  }

  /** Printing a node that was read and reading it again always succeeds, for
      all nine types, and gives a node of the same identity (so the same id)
      exactly when the read node is settled: its cut fingerprint does not end
      in a blank, and its ssh lists are not empty and hold no blank entry. */
  lemma ReadWriteRead(py: Python, o: Object)
    requires Read(py, o).Ok?
    ensures var n := Read(py, o).value;
            Read(py, Write(n)).Ok? && (Identity(Read(py, Write(n)).value) == Identity(n) <==> NodeSettled(py, n))
  {
    ReadIsOk(py, o);
    WriteReadsBack(py, Read(py, o).value);
  }

  /** The smallest node that does not settle: an ssh outbound with an empty
      host-key list keeps the empty list, which the writer leaves out. */
  lemma EmptyHostKeyChangesIdentity(py: Python)
    requires !py.space('h') && !py.space('p')
    ensures var o := EMPTY.(typ := JStr("ssh"), server := JStr("h"), password := JStr("p"), hostKey := JList([]));
            Read(py, o).Ok?
            && Identity(Read(py, Write(Read(py, o).value)).value) != Identity(Read(py, o).value)
  {
    var o := EMPTY.(typ := JStr("ssh"), server := JStr("h"), password := JStr("p"), hostKey := JList([]));
    TypeReads(py, SshP);
    TextReadsBack(py, "h");
    assert ReadPort(py, SshP, o) == Ok(22);
    assert ReadSsh(py, o).Ok? && ReadSsh(py, o).value.hostKey == Some([]);
    ReadWriteRead(py, o);
  }
}
