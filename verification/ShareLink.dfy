/** Share links of the three types that also exist as JSON outbounds, and when
    the two imports of one server get the same id. */
module ShareLink {
  import opened Prelude
  import opened Outbound
  import opened OutboundRoundTrip
  import NodePool

  /** The query options read for these types; an absent option is "". */
  datatype Query = Query(sni: string, servername: string, serverName: string,
                         allowInsecure: string, allowinsecure: string, allow_insecure: string, insecure: string,
                         alpn: string, fp: string, fingerprint: string,
                         congestion: string, relay: string, reduceRtt: string, zeroRtt: string,
                         protocol: string, upmbps: string, up_mbps: string, downmbps: string, down_mbps: string,
                         peer: string, auth: string, obfs: string, obfsParam: string, obfsparam: string)

  /** A split and percent-decoded link; a host of "" and a port of None stand
      for parts the link does not have. */
  datatype Link = Link(host: string, port: Option<int>, user: string, password: string, fragment: string, query: Query)

  datatype LinkType = TuicLink | AnyTlsLink | HysteriaLink

  function Or(a: string, b: string): string {
    if a != "" then a else b
  }

  predicate Yes(py: Python, s: string) {
    var t := Lower(py, Strip(py, s));
    t == "1" || t == "true" || t == "yes" || t == "on"
  }

  /** Comma-separated pieces, empty ones dropped; `piece` is the one begun. */
  function Pieces(s: string, piece: string): seq<string>
    decreases s
  {
    if s == "" then if piece == "" then [] else [piece]
    else if s[0] == ',' then (if piece == "" then [] else [piece]) + Pieces(s[1..], "")
    else Pieces(s[1..], piece + [s[0]])
  }

  /** `_required_tls`. */
  function RequiredTls(py: Python, q: Query, server: string): Tls {
    var insecure := Lower(py, Or(q.allowInsecure, Or(q.allowinsecure, Or(q.allow_insecure, q.insecure))));
    var fp := Or(q.fp, q.fingerprint);
    Tls(Or(q.sni, Or(q.servername, Or(q.serverName, server))),
        insecure == "1" || insecure == "true" || insecure == "yes",
        Pieces(q.alpn, ""), if fp == "" then None else Some(fp))
  }

  function NameOf(l: Link, title: string): string {
    if l.fragment == "" then title + " " + l.host else FirstN(l.fragment, 120)
  }

  function HostPort(l: Link): Option<ParseError> {
    if l.host == "" || l.port.None? || l.port == Some(0) then Some(HostPortRequired)
    else if !(1 <= l.port.value <= 65535) then Some(PortInvalid)
    else None
  }

  function ParseTuic(py: Python, l: Link): Result<Node, ParseError> {
    var q := l.query;
    var uid, password := Strip(py, l.user), Strip(py, l.password);
    var cc, relay := Lower(py, Or(q.congestion, "cubic")), Lower(py, Or(q.relay, "native"));
    if HostPort(l).Some? then Err(HostPort(l).value)
    else if uid == "" || password == "" then Err(CredentialsRequired)
    else if cc != "cubic" && cc != "new_reno" && cc != "bbr" then Err(CongestionInvalid)
    else if relay != "native" && relay != "quic" then Err(RelayInvalid)
    else Ok(Node(NameOf(l, "TUIC"), l.host, l.port.value, Some(RequiredTls(py, q, l.host)),
                 Tuic(uid, password, cc, relay, Yes(py, Or(q.reduceRtt, q.zeroRtt)))))
  }

  function ParseAnyTls(py: Python, l: Link): Result<Node, ParseError> {
    var port := if l.port.None? || l.port == Some(0) then 443 else l.port.value;
    var password := Strip(py, l.user);
    if l.host == "" then Err(HostPortRequired)
    else if !(1 <= port <= 65535) then Err(PortInvalid)
    else if password == "" then Err(CredentialsRequired)
    else Ok(Node(NameOf(l, "AnyTLS"), l.host, port, Some(RequiredTls(py, l.query, l.host)),
                 AnyTls(password, None, None, None, None)))
  }

  function HysteriaTls(py: Python, q: Query, server: string): Tls {
    var alpn := Strip(py, q.alpn);
    Tls(Or(q.peer, Or(q.sni, server)), Yes(py, q.insecure), if alpn == "" then [] else [FirstN(alpn, 64)], None)
  }

  function ParseHysteria(py: Python, l: Link): Result<Node, ParseError> {
    var q := l.query;
    var up, down := Number(py, JStr(Or(q.upmbps, q.up_mbps))), Number(py, JStr(Or(q.downmbps, q.down_mbps)));
    var auth := Strip(py, q.auth);
    var obfs, secret := Lower(py, Strip(py, q.obfs)), Strip(py, Or(q.obfsParam, q.obfsparam));
    if HostPort(l).Some? then Err(HostPort(l).value)
    else if Lower(py, Or(q.protocol, "udp")) != "udp" then Err(ProtocolUnsupported)
    else if up.None? || down.None? then Err(BandwidthRequired)
    else if !(1 <= up.value <= 100000 && 1 <= down.value <= 100000) then Err(BandwidthInvalid)
    else if obfs != "" && (obfs != "xplus" || secret == "") then Err(ObfsInvalid)
    else Ok(Node(NameOf(l, "Hysteria"), l.host, l.port.value, Some(HysteriaTls(py, q, l.host)),
                 Hysteria(up.value, down.value, if auth == "" then None else Some(FirstN(auth, 2048)), None,
                          if obfs == "" then None else Some(FirstN(secret, 2048)), None)))
  }

  function Parse(py: Python, t: LinkType, l: Link): Result<Node, ParseError> {
    match t
    case TuicLink => ParseTuic(py, l)
    case AnyTlsLink => ParseAnyTls(py, l)
    case HysteriaLink => ParseHysteria(py, l)
  }

  // ----- same server, same id -----

  /** For any node at all: its printed outbound reads back with the same
      identity exactly when the node is one the reader could have produced and
      is settled. */
  lemma SameIdentityExactly(py: Python, n: Node)
    ensures (Read(py, Write(n)).Ok? && Identity(Read(py, Write(n)).value) == Identity(n))
        <==> (NodeOk(py, n) && NodeSettled(py, n))
  {
    if Read(py, Write(n)).Ok? && Identity(Read(py, Write(n)).value) == Identity(n) {
      ReadIsOk(py, Write(n));
      var m := Read(py, Write(n)).value;
      assert m.server == n.server && m.port == n.port && m.tls == n.tls && m.details == n.details;
      WriteReadsBack(py, n);
    }
    if NodeOk(py, n) && NodeSettled(py, n) {
      WriteReadsBack(py, n);
    }
  }

  /** What a caller can see on the parsed link. */
  predicate LinkSettled(py: Python, n: Node)
    requires n.tls.Some?
  {
    var t := n.tls.value;
    && Trimmed(py, n.server)
    && |t.alpn| <= 8 && (forall i | 0 <= i < |t.alpn| :: !Blank(py, t.alpn[i]))
    && (t.fingerprint.Some? ==> |t.fingerprint.value| <= 64 && Trimmed(py, t.fingerprint.value))
  }

  /** What every link that parses provides. */
  ghost predicate FromLink(py: Python, n: Node) {
    && n.server != "" && 1 <= n.port <= 65535 && n.tls.Some? && n.tls.value.serverName != ""
    && (n.tls.value.fingerprint.Some? ==> n.tls.value.fingerprint.value != "")
    && DetailsOk(py, n.details) && DetailsSettled(py, n.details)
  }

  lemma TuicFromLink(py: Python, l: Link)
    requires ParseTuic(py, l).Ok?
    ensures FromLink(py, ParseTuic(py, l).value)
  {
    StripIsTrimmed(py, l.user);
    StripIsTrimmed(py, l.password);
  }

  lemma AnyTlsFromLink(py: Python, l: Link)
    requires ParseAnyTls(py, l).Ok?
    ensures FromLink(py, ParseAnyTls(py, l).value)
  {
    StripIsTrimmed(py, l.user);
  }

  lemma HysteriaFromLink(py: Python, l: Link)
    requires ParseHysteria(py, l).Ok?
    ensures FromLink(py, ParseHysteria(py, l).value)
  {
  }

  lemma LinkDetailsOk(py: Python, t: LinkType, l: Link)
    requires Parse(py, t, l).Ok?
    ensures FromLink(py, Parse(py, t, l).value)
  {
    match t
    case TuicLink => TuicFromLink(py, l);
    case AnyTlsLink => AnyTlsFromLink(py, l);
    case HysteriaLink => HysteriaFromLink(py, l);
  }

  lemma LinkNodeAgrees(py: Python, n: Node)
    requires FromLink(py, n)
    ensures (Read(py, Write(n)).Ok? && Identity(Read(py, Write(n)).value) == Identity(n)) <==> LinkSettled(py, n)
  {
    SameIdentityExactly(py, n);
  }

  /** A tuic, anytls or hysteria server imported from its share link, and the
      same server imported from the outbound printed for it, get one id exactly
      when the host has no blank around it, there are at most eight ALPN
      entries, none blank, and the fingerprint is trimmed and at most 64 long. */
  lemma LinkAndOutboundAgree(py: Python, t: LinkType, l: Link)
    requires Parse(py, t, l).Ok?
    ensures var n := Parse(py, t, l).value;
            n.tls.Some?
            && ((Read(py, Write(n)).Ok? && Identity(Read(py, Write(n)).value) == Identity(n)) <==> LinkSettled(py, n))
  {
    LinkDetailsOk(py, t, l);
    LinkNodeAgrees(py, Parse(py, t, l).value);
  }

  // ----- one entry in the pool -----

  /** An id is never empty. */
  type Id = s: string | s != "" witness "0"

  /** The id of an identity: 20 hexadecimal digits of its SHA-256. */
  type Digest = Node -> Id

  /** A parsed node as the pool stores it when it is imported. */
  function Entry(digest: Digest, n: Node, raw: string, source: string): NodePool.Node {
    NodePool.Node(digest(Identity(n)), n.name, TypeName(ProtoOf(n.details)), "", raw, source,
                  NodePool.Meta(false, false, 0, [], ""), NodePool.Proofs(None, None, [], None, []))
  }

  /** A second import under the id of the first adds no entry, whatever the pool. */
  lemma SameIdAddsNothing(kept: seq<NodePool.Node>, a: NodePool.Node, b: NodePool.Node)
    requires NodePool.Pool(kept) && a.id == b.id != ""
    ensures
      var once := NodePool.Merge(kept, [a]);
      NodePool.Ids(NodePool.Merge(once, [b])) == NodePool.Ids(once)
  {
    var once, id := NodePool.Merge(kept, [a]), a.id;
    assert NodePool.Ids([a]) == [id] && NodePool.Ids([b]) == [id];
    NodePool.MergeSpec(kept, [a], id);
    NodePool.AddIdsExtends(NodePool.Ids(kept), [id]);
    assert [id][1..] == [];
    MergedIsPool(kept, a);
    NodePool.MergeSpec(once, [b], id);
  }

  lemma MergedIsPool(kept: seq<NodePool.Node>, a: NodePool.Node)
    requires NodePool.Pool(kept) && a.id != ""
    ensures NodePool.Pool(NodePool.Merge(kept, [a]))
  {
    assert NodePool.Ids([a]) == [a.id];
    NodePool.MergeSpec(kept, [a], "");
    NodePool.AddIdsExtends(NodePool.Ids(kept), [a.id]);
  }

  lemma FirstEntry(a: NodePool.Node)
    ensures NodePool.Ids(NodePool.Merge([], [a])) == [a.id]
  {
    assert NodePool.Ids([a]) == [a.id];
    NodePool.MergeSpec([], [a], "");
    assert NodePool.AddIds([], [a.id]) == [a.id];
  }

  lemma TwoIdsAreTwo(a: NodePool.Node, b: NodePool.Node)
    requires a.id != "" && b.id != "" && a.id != b.id
    ensures |NodePool.Merge(NodePool.Merge([], [a]), [b])| == 2
  {
    FirstEntry(a);
    MergedIsPool([], a);
    assert NodePool.Ids([b]) == [b.id];
    NodePool.MergeSpec(NodePool.Merge([], [a]), [b], "");
    assert NodePool.AddIds([a.id], [b.id]) == [a.id, b.id];
  }

  /** Importing a link and then the outbound printed for it: the pool gains no
      second entry when the link is settled, whatever the digest; and in an empty
      pool exactly then, unless the two identities differ and collide. */
  lemma LinkAndOutboundAreOneEntry(py: Python, digest: Digest, t: LinkType, l: Link, kept: seq<NodePool.Node>,
                                   raw: string, json: string, source: string)
    requires NodePool.Pool(kept)
    requires Parse(py, t, l).Ok? && Read(py, Write(Parse(py, t, l).value)).Ok?
    ensures
      var n := Parse(py, t, l).value;
      var m := Read(py, Write(n)).value;
      var a, b := Entry(digest, n, raw, source), Entry(digest, m, json, source);
      var once := NodePool.Merge(kept, [a]);
      && n.tls.Some?
      && (LinkSettled(py, n) ==> NodePool.Ids(NodePool.Merge(once, [b])) == NodePool.Ids(once))
      && ((digest(Identity(n)) == digest(Identity(m)) ==> Identity(n) == Identity(m)) ==>
            (|NodePool.Merge(NodePool.Merge([], [a]), [b])| == 1 <==> LinkSettled(py, n)))
  {
    LinkAndOutboundAgree(py, t, l);
    var n := Parse(py, t, l).value;
    EntriesAgree(digest, n, Read(py, Write(n)).value, kept, raw, json, source);
  }

  /** Two imports share an entry exactly when their ids are equal. */
  lemma EntriesAgree(digest: Digest, n: Node, m: Node, kept: seq<NodePool.Node>, raw: string, json: string, source: string)
    requires NodePool.Pool(kept)
    ensures
      var a, b := Entry(digest, n, raw, source), Entry(digest, m, json, source);
      var once := NodePool.Merge(kept, [a]);
      && (a.id == b.id ==> NodePool.Ids(NodePool.Merge(once, [b])) == NodePool.Ids(once))
      && (|NodePool.Merge(NodePool.Merge([], [a]), [b])| == 1 <==> a.id == b.id)
  {
    var a, b := Entry(digest, n, raw, source), Entry(digest, m, json, source);
    if a.id == b.id {
      SameIdAddsNothing(kept, a, b);
      SameIdAddsNothing([], a, b);
      FirstEntry(a);
    } else {
      TwoIdsAreTwo(a, b);
    }
  }
}
