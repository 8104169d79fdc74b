/** Both ends of the SOCKS5 chain (sections 3, 4 and 6 of RFC 1928): the CONNECT
    bridge's client and the tailnet gateway's server, over byte streams that
    arrive in arbitrary pieces. */
module Socks5 {
  import opened Prelude
  import opened DomainDeciders

  // ----- what each side sends, as a function of what it has received -----

  const GREETING: seq<byte> := [5, 1, 0]
  const NO_AUTH: seq<byte> := [5, 0]

  function Request(host: string): (r: seq<byte>)
    requires |host| <= 255
    ensures |r| == |host| + 7
  {
    [5, 1, 0, 3, |host|] + ToBytes(host) + [1, 187]
  }

  function Reply(code: byte): (r: seq<byte>)
    ensures |r| == 10
  {
    [5, code, 0, 1, 0, 0, 0, 0, 0, 0]
  }

  /** Waiting for more bytes, finished after `consumed` bytes, or refused. */
  datatype Verdict = Waiting | Done(consumed: nat) | Failed

  /** The client's reading of a whole inbound stream. */
  function ClientVerdict(got: seq<byte>): Verdict {
    if |got| < 2 then Waiting
    else if got[..2] != NO_AUTH then Failed
    else ReplyVerdict(got[2..])
  }

  function ReplyVerdict(got: seq<byte>): Verdict {
    if |got| < 4 then Waiting
    else if got[0] != 5 || got[1] != 0 || got[2] != 0 then Failed
    else if got[3] == 1 then Within(got, 10)
    else if got[3] == 4 then Within(got, 22)
    else if got[3] == 3 then
      if |got| < 5 then Waiting
      else
        var length: nat := got[4];
        Within(got, 7 + length)
    else Failed
  }

  /** Counting the two method-selection bytes before it. */
  function Within(got: seq<byte>, need: nat): Verdict {
    if |got| < need then Waiting else Done(2 + need)
  }

  function ClientOut(host: string, got: seq<byte>): seq<byte>
    requires |host| <= 255
  {
    if |got| >= 2 && got[..2] == NO_AUTH then GREETING + Request(host) else GREETING
  }

  /** What the bytes so far say to the server, before any policy: it needs
      more, it refuses, having sent these bytes, or it was asked for a target. */
  datatype Parsed = Short(sent: seq<byte>) | Bad(sent: seq<byte>) | Named(rawHost: seq<byte>, high: byte, low: byte, consumed: nat)

  function Parse(got: seq<byte>): Parsed {
    if |got| < 1 then Short([])
    else if got[0] != 5 then Bad([])
    else if |got| < 2 then Short([])
    else
      var n: nat := got[1];
      if !(1 <= n <= 8) then Bad([])
      else if |got| < 2 + n then Short([])
      else if 0 !in got[2..2 + n] then Bad([5, 255])
      else ParseRequest(got[2 + n..], 2 + n)
  }

  /** After the method selection has been answered. */
  function ParseRequest(got: seq<byte>, before: nat): Parsed {
    if |got| < 4 then Short(NO_AUTH)
    else if got[..4] != [5, 1, 0, 3] then Bad(NO_AUTH + Reply(7))
    else if |got| < 5 then Short(NO_AUTH)
    else
      var n: nat := got[4];
      if n < 3 then Bad(NO_AUTH + Reply(8)) else ParseHost(got[5..], n, before + 5)
  }

  /** An `n`-byte host and the port. */
  function ParseHost(got: seq<byte>, n: nat, before: nat): Parsed {
    if |got| < n + 2 then Short(NO_AUTH) else Named(got[..n], got[n], got[n + 1], before + n + 2)
  }

  /** Which host, if any, to connect to for these host bytes and port bytes. */
  type Policy = (seq<byte>, int, int) -> Option<string>

  /** The gateway's policy: port 443 of a host that its domains select. */
  function GatewayPolicy(domains: seq<string>): Policy {
    (rawHost, high, low) => if high * 256 + low != 443 then None else Allowed(ToText(rawHost), domains)
  }

  function Allowed(rawHost: string, domains: seq<string>): Option<string> {
    match SafeHost(rawHost, domains)
    case Err(_) => None
    case Ok(host) => Some(host)
  }

  /** The server's reading of a whole inbound stream. */
  datatype Asked = Reading(sent: seq<byte>) | Refused(sent: seq<byte>) | Accepted(host: string, consumed: nat)

  function Serve(policy: Policy, got: seq<byte>): Asked {
    match Parse(got)
    case Short(sent) => Reading(sent)
    case Bad(sent) => Refused(sent)
    case Named(rawHost, high, low, consumed) =>
      match policy(rawHost, high, low)
      case None => Refused(NO_AUTH + Reply(2))
      case Some(host) => Accepted(host, consumed)
  }

  /** All bytes the server sends: a refused or unconnectable request is closed
      with one more general-failure reply. */
  function ServerOut(policy: Policy, upstream: bool, got: seq<byte>): seq<byte> {
    match Serve(policy, got)
    case Reading(sent) => sent
    case Refused(sent) => sent + Reply(1)
    case Accepted(_, _) => NO_AUTH + Reply(if upstream then 0 else 1)
  }

  // ----- the streams as the program sees them -----

  datatype IoResult<T> = Got(value: T) | Closed | IoError

  class Wire {
    /** Every byte the peer sends before it closes. */
    const inbound: seq<byte>
    var taken: nat
    var sent: seq<byte>
    /** A read or a write has failed. */
    ghost var faulted: bool

    ghost predicate Valid()
      reads this
    {
      taken <= |inbound|
    }

    constructor (inbound: seq<byte>)
      ensures Valid() && this.inbound == inbound && taken == 0 && sent == [] && !faulted
    {
      this.inbound, taken, sent, faulted := inbound, 0, [], false;
    }

    /** Some of the next bytes, never more than asked for; none only at the end. */
    method Recv(most: nat) returns (r: IoResult<seq<byte>>)
      requires Valid() && most > 0
      modifies this`taken, this`faulted
      ensures Valid() && old(taken) <= taken <= old(taken) + most
      ensures faulted == (old(faulted) || r.IoError?)
      ensures !r.Got? ==> taken == old(taken)
      ensures r.Got? ==> taken > old(taken) && r.value == inbound[old(taken)..taken]
      ensures r.Closed? ==> taken == |inbound|
    {
      if * {
        faulted := true;
        return IoError;
      }
      if taken == |inbound| {
        return Closed;
      }
      var bound := Min(most, |inbound| - taken);
      var n :| 1 <= n <= bound;
      var block := inbound[taken..taken + n];
      taken := taken + n;
      return Got(block);
    }

    /** `sendall`: everything, or some prefix and an error. */
    method SendAll(data: seq<byte>) returns (ok: bool)
      modifies this`sent, this`faulted
      ensures old(sent) <= sent <= old(sent) + data
      ensures faulted == (old(faulted) || !ok)
      ensures ok ==> sent == old(sent) + data
    {
      if * {
        ok, sent := true, sent + data;
      } else {
        var n :| 0 <= n <= |data|;
        ok, sent := false, sent + data[..n];
        faulted := true;
      }
    }

    /** `_read_exact` and `_exact`: exactly `count` bytes however they arrive. */
    method ReadExact(count: nat) returns (r: IoResult<seq<byte>>)
      requires Valid()
      modifies this`taken, this`faulted
      ensures Valid() && old(taken) <= taken
      ensures faulted == (old(faulted) || r.IoError?)
      ensures r.Got? ==> taken == old(taken) + count && r.value == inbound[old(taken)..taken]
      ensures r.Closed? ==> |inbound| < old(taken) + count
    {
      var chunks: seq<byte>, left := [], count;
      while left > 0
        invariant faulted == old(faulted)
        invariant Valid() && 0 <= left <= count && taken == old(taken) + (count - left)
        invariant chunks == inbound[old(taken)..taken]
      {
        var block := Recv(left);
        if !block.Got? {
          return block;
        }
        chunks := chunks + block.value;
        left := left - |block.value|;
      }
      return Got(chunks);
    }
  }

  datatype Connected = Tunnel | Refusal | Eof | Broken | InvalidTarget

  /** Reading the reply after the request was sent. */
  method ReadReply(w: Wire) returns (r: Connected)
    requires w.Valid()
    modifies w`taken, w`faulted
    ensures w.Valid() && old(w.taken) <= w.taken
    ensures !r.InvalidTarget? && w.faulted == (old(w.faulted) || r.Broken?)
    ensures r.Tunnel? ==> ReplyVerdict(w.inbound[old(w.taken)..]) == Done(2 + w.taken - old(w.taken))
    ensures r.Refusal? ==> ReplyVerdict(w.inbound[old(w.taken)..]) == Failed
    ensures r.Eof? ==> ReplyVerdict(w.inbound[old(w.taken)..]) == Waiting
  {
    ghost var stream := w.inbound[w.taken..];
    var header := w.ReadExact(4);
    if !header.Got? {
      return if header.Closed? then Eof else Broken;
    }
    assert header.value == stream[..4];
    if header.value[0] != 5 || header.value[1] != 0 || header.value[2] != 0 {
      return Refusal;
    }
    var address := 0;
    if header.value[3] == 1 {
      address := 4;
    } else if header.value[3] == 4 {
      address := 16;
    } else if header.value[3] == 3 {
      var length := w.ReadExact(1);
      if !length.Got? {
        return if length.Closed? then Eof else Broken;
      }
      assert length.value[0] == stream[4];
      address := length.value[0];
    } else {
      return Refusal;
    }
    var rest := w.ReadExact(address);
    if !rest.Got? {
      return if rest.Closed? then Eof else Broken;
    }
    rest := w.ReadExact(2);
    if !rest.Got? {
      return if rest.Closed? then Eof else Broken;
    }
    return Tunnel;
  }

  predicate ValidTarget(host: string, port: int) {
    1 <= |host| <= 253 && IsAscii(host) && port == 443
  }

  /** `socks5_connect`: a bad target touches nothing; otherwise, for every way
      the peer's bytes are cut up, it sends what `ClientOut` says and stops
      exactly where `ClientVerdict` says, unless a read or a write fails. */
  method Socks5Connect(w: Wire, host: string, port: int) returns (r: Connected)
    requires w.Valid() && w.taken == 0 && w.sent == []
    modifies w
    ensures w.Valid()
    ensures r.InvalidTarget? <==> !ValidTarget(host, port)
    ensures w.faulted == (old(w.faulted) || r.Broken?)
    ensures r.InvalidTarget? ==> w.taken == 0 && w.sent == []
    ensures r.Tunnel? ==> ClientVerdict(w.inbound) == Done(w.taken)
    ensures r.Refusal? ==> ClientVerdict(w.inbound) == Failed
    ensures r.Eof? ==> ClientVerdict(w.inbound) == Waiting
    ensures r.Tunnel? || r.Refusal? || r.Eof? ==> w.sent == ClientOut(host, w.inbound)
  {
    if !ValidTarget(host, port) {
      return InvalidTarget;
    }
    var ok := w.SendAll(GREETING);
    if !ok {
      return Broken;
    }
    var choice := w.ReadExact(2);
    if !choice.Got? {
      return if choice.Closed? then Eof else Broken;
    }
    if choice.value != NO_AUTH {
      return Refusal;
    }
    ok := w.SendAll(Request(host));
    if !ok {
      return Broken;
    }
    r := ReadReply(w);
  }

  // ----- the gateway's server -----

  /** How reading a request, or one part of it, ended. */
  datatype Heard<T> = Read(value: T) | Rejected | Truncated | Fault

  /** Nothing in these bytes reads as a successful CONNECT reply, nor will it
      once a general failure is appended. */
  predicate Harmless(sent: seq<byte>) {
    sent <= NO_AUTH + [5] || (|sent| >= 2 && sent[1] != 0) || (|sent| >= 4 && sent[3] != 0)
  }

  /** Reading stopped early exactly where, and after sending just what, `parsed` says. */
  predicate Stopped<T>(r: Heard<T>, sent: seq<byte>, parsed: Parsed) {
    && (r.Rejected? ==> parsed == Bad(sent))
    && (r.Truncated? ==> parsed == Short(sent))
  }

  /** `_read_request`: the greeting. */
  method ReadGreeting(w: Wire) returns (r: Heard<()>)
    requires w.Valid() && w.taken == 0 && w.sent == []
    modifies w
    ensures w.Valid() && Harmless(w.sent) && w.faulted == (old(w.faulted) || r.Fault?)
    ensures r.Read? ==> w.sent == NO_AUTH && Parse(w.inbound) == ParseRequest(w.inbound[w.taken..], w.taken)
    ensures Stopped(r, w.sent, Parse(w.inbound))
  {
    var version := w.ReadExact(1);
    if !version.Got? {
      return if version.Closed? then Truncated else Fault;
    }
    if version.value != [5] {
      return Rejected;
    }
    var count := w.ReadExact(1);
    if !count.Got? {
      return if count.Closed? then Truncated else Fault;
    }
    var n: nat := count.value[0];
    if !(1 <= n <= 8) {
      return Rejected;
    }
    var choices := w.ReadExact(n);
    if !choices.Got? {
      return if choices.Closed? then Truncated else Fault;
    }
    if 0 !in choices.value {
      var ok := w.SendAll([5, 255]);
      return if ok then Rejected else Fault;
    }
    var ok := w.SendAll(NO_AUTH);
    return if ok then Read(()) else Fault;
  }

  /** Refusing with a reply code. */
  method Refuse<T>(w: Wire, code: byte) returns (r: Heard<T>)
    requires w.Valid() && w.sent == NO_AUTH && code != 0
    modifies w`sent, w`faulted
    ensures w.Valid() && Harmless(w.sent) && w.faulted == (old(w.faulted) || r.Fault?)
    ensures r == Fault || (r == Rejected && w.sent == NO_AUTH + Reply(code))
  {
    var ok := w.SendAll(Reply(code));
    return if ok then Rejected else Fault;
  }

  /** `_read_request`: the CONNECT request up to the length of the host. */
  method ReadLength(w: Wire) returns (r: Heard<nat>)
    requires w.Valid() && w.sent == NO_AUTH
    modifies w
    ensures w.Valid() && Harmless(w.sent) && w.faulted == (old(w.faulted) || r.Fault?)
    ensures
      var parsed := ParseRequest(w.inbound[old(w.taken)..], old(w.taken));
      && Stopped(r, w.sent, parsed)
      && (r.Read? ==> w.sent == NO_AUTH && parsed == ParseHost(w.inbound[w.taken..], r.value, w.taken))
  {
    ghost var stream := w.inbound[w.taken..];
    var header := w.ReadExact(4);
    if !header.Got? {
      return if header.Closed? then Truncated else Fault;
    }
    assert header.value == stream[..4];
    if header.value != [5, 1, 0, 3] {
      r := Refuse(w, 7);
      return;
    }
    var length := w.ReadExact(1);
    if !length.Got? {
      return if length.Closed? then Truncated else Fault;
    }
    assert length.value[0] == stream[4] && stream[5..] == w.inbound[w.taken..];
    if length.value[0] < 3 {
      r := Refuse(w, 8);
      return;
    }
    return Read(length.value[0]);
  }

  /** `_read_request`: an `n`-byte host and the port. */
  method ReadHostPort(w: Wire, n: nat) returns (r: Heard<Parsed>)
    requires w.Valid() && w.sent == NO_AUTH
    modifies w`taken, w`faulted
    ensures w.Valid() && !r.Rejected? && w.faulted == (old(w.faulted) || r.Fault?)
    ensures
      var parsed := ParseHost(w.inbound[old(w.taken)..], n, old(w.taken));
      && Stopped(r, w.sent, parsed)
      && (r.Read? ==> r.value == parsed && parsed.Named? && w.taken == parsed.consumed)
  {
    ghost var stream := w.inbound[w.taken..];
    var rawHost := w.ReadExact(n);
    if !rawHost.Got? {
      return if rawHost.Closed? then Truncated else Fault;
    }
    assert rawHost.value == stream[..n];
    var port := w.ReadExact(2);
    if !port.Got? {
      return if port.Closed? then Truncated else Fault;
    }
    assert port.value[0] == stream[n] && port.value[1] == stream[n + 1];
    return Read(Named(rawHost.value, port.value[0], port.value[1], w.taken));
  }

  /** `_read_request`: everything up to the verdict on the target. */
  method ReadParsed(w: Wire) returns (r: Heard<Parsed>)
    requires w.Valid() && w.taken == 0 && w.sent == []
    modifies w
    ensures w.Valid() && Harmless(w.sent) && w.faulted == (old(w.faulted) || r.Fault?)
    ensures Stopped(r, w.sent, Parse(w.inbound))
    ensures r.Read? ==> w.sent == NO_AUTH && r.value == Parse(w.inbound) && r.value.Named? && w.taken == r.value.consumed
  {
    var greeting := ReadGreeting(w);
    if !greeting.Read? {
      return if greeting.Rejected? then Rejected else if greeting.Truncated? then Truncated else Fault;
    }
    var length := ReadLength(w);
    if !length.Read? {
      return if length.Rejected? then Rejected else if length.Truncated? then Truncated else Fault;
    }
    r := ReadHostPort(w, length.value);
  }

  /** `_read_request`. */
  method ReadRequest(w: Wire, policy: Policy) returns (r: Heard<string>)
    requires w.Valid() && w.taken == 0 && w.sent == []
    modifies w
    ensures w.Valid() && Harmless(w.sent) && w.faulted == (old(w.faulted) || r.Fault?)
    ensures
      var asked := Serve(policy, w.inbound);
      && (r.Read? ==> w.sent == NO_AUTH && asked == Accepted(r.value, w.taken))
      && (r.Rejected? ==> asked == Refused(w.sent))
      && (r.Truncated? ==> asked == Reading(w.sent))
  {
    var parsed := ReadParsed(w);
    if !parsed.Read? {
      return if parsed.Rejected? then Rejected else if parsed.Truncated? then Truncated else Fault;
    }
    var host := policy(parsed.value.rawHost, parsed.value.high, parsed.value.low);
    if host.None? {
      r := Refuse(w, 2);
      return;
    }
    return Read(host.value);
  }

  datatype Session = Served | TurnedAway | CutShort | Aborted

  /** `exchange` up to the relay; `upstream` says whether the gateway's own
      provider accepts the connection. However the peer's bytes are cut up, the
      gateway sends what `ServerOut` says and stops where `Serve` says; and
      whatever fails, a client sees success only for an accepted host that is
      connected. */
  method Exchange(w: Wire, policy: Policy, upstream: bool) returns (r: Session)
    requires w.Valid() && w.taken == 0 && w.sent == []
    modifies w
    ensures w.Valid()
    ensures r.Served? ==> Serve(policy, w.inbound).Accepted? && Serve(policy, w.inbound).consumed == w.taken && upstream
    ensures r.Served? || r.TurnedAway? ==> w.sent == ServerOut(policy, upstream, w.inbound)
    ensures r.TurnedAway? ==> Serve(policy, w.inbound).Refused? || (Serve(policy, w.inbound).Accepted? && !upstream)
    ensures r.CutShort? ==> Serve(policy, w.inbound).Reading? && w.sent == ServerOut(policy, upstream, w.inbound) + Reply(1)
    ensures w.faulted == (old(w.faulted) || r.Aborted?)
    ensures NO_AUTH + [5, 0] <= w.sent ==> Serve(policy, w.inbound).Accepted? && upstream
  {
    var heard := ReadRequest(w, policy);
    if heard.Read? && upstream {
      var ok := w.SendAll(Reply(0));
      return if ok then Served else Aborted;
    }
    ghost var before := w.sent;
    var ok := w.SendAll(Reply(1));
    HarmlessStays(before, w.sent);
    r := if !ok || heard.Fault? then Aborted else if heard.Truncated? then CutShort else TurnedAway;
  }

  lemma HarmlessStays(sent: seq<byte>, more: seq<byte>)
    requires Harmless(sent) && sent <= more <= sent + Reply(1)
    ensures !(NO_AUTH + [5, 0] <= more)
  {
    var success := NO_AUTH + [5, 0];
    if |more| >= 4 {
      var i := if |sent| <= 1 || sent[1] != 0 then 1 else 3;
      assert more[i] != success[i];
    }
  }

  // ----- the relay -----

  datatype RelayEnd = Idle | Drained | Lost

  /** What `from` delivered since `start` is what `to` was given. */
  ghost predicate Carried(source: Wire, start: nat, sink: Wire, before: seq<byte>)
    requires start <= source.taken <= |source.inbound|
    reads source, sink
  {
    sink.sent == before + source.inbound[start..source.taken]
  }

  /** One readable socket of `relay_tcp`. */
  method Forward(source: Wire, sink: Wire, ghost start: nat, ghost before: seq<byte>) returns (r: RelayEnd)
    requires source != sink && source.Valid() && sink.Valid() && start <= source.taken
    requires Carried(source, start, sink, before)
    modifies source`taken, source`faulted, sink`sent, sink`faulted
    ensures r.Lost? ==> source.faulted || sink.faulted
    ensures !r.Lost? ==> source.faulted == old(source.faulted) && sink.faulted == old(sink.faulted)
    ensures source.Valid() && sink.Valid() && old(source.taken) <= source.taken
    ensures r.Idle? ==> old(source.taken) < source.taken
    ensures r.Drained? ==> source.taken == |source.inbound|
    ensures !r.Lost? ==> Carried(source, start, sink, before)
    ensures before <= sink.sent <= before + source.inbound[start..source.taken]
  {
    var data := source.Recv(32768);
    if !data.Got? {
      return if data.Closed? then Drained else Lost;
    }
    assert source.inbound[start..source.taken] == source.inbound[start..old(source.taken)] + data.value;
    var ok := sink.SendAll(data.value);
    return if ok then Idle else Lost;
  }

  /** What `select` reports in one turn. */
  datatype Turn = Turn(client: bool, upstream: bool)

  /** How often one side is read before the first turn with nothing to read. */
  function Reads(turns: seq<Turn>, client: bool): nat {
    if turns == [] || turns[0] == Turn(false, false) then 0
    else (if (if client then turns[0].client else turns[0].upstream) then 1 else 0) + Reads(turns[1..], client)
  }

  /** `relay_tcp`: whichever sockets are readable in whatever pieces, each side
      is sent an in-order prefix of what the other delivers, with nothing read
      and not passed on unless a socket failed, and it goes on until a socket
      ends, fails, or nothing is readable. */
  method RelayTcp(client: Wire, upstream: Wire, turns: seq<Turn>) returns (r: RelayEnd)
    requires client != upstream && client.Valid() && upstream.Valid()
    modifies client, upstream
    ensures client.Valid() && upstream.Valid()
    ensures old(client.taken) <= client.taken && old(upstream.taken) <= upstream.taken
    ensures old(upstream.sent) <= upstream.sent <= old(upstream.sent) + client.inbound[old(client.taken)..client.taken]
    ensures old(client.sent) <= client.sent <= old(client.sent) + upstream.inbound[old(upstream.taken)..upstream.taken]
    ensures !r.Lost? ==> Carried(client, old(client.taken), upstream, old(upstream.sent))
    ensures !r.Lost? ==> Carried(upstream, old(upstream.taken), client, old(client.sent))
    ensures r.Lost? ==> client.faulted || upstream.faulted
    ensures r.Drained? ==> client.taken == |client.inbound| || upstream.taken == |upstream.inbound|
    ensures r.Idle? ==> client.taken >= old(client.taken) + Reads(turns, true)
    ensures r.Idle? ==> upstream.taken >= old(upstream.taken) + Reads(turns, false)
  {
    var i := 0;
    while i < |turns|
      invariant 0 <= i <= |turns|
      invariant client.Valid() && upstream.Valid()
      invariant old(client.taken) <= client.taken && old(upstream.taken) <= upstream.taken
      invariant Carried(client, old(client.taken), upstream, old(upstream.sent))
      invariant Carried(upstream, old(upstream.taken), client, old(client.sent))
      invariant client.taken + Reads(turns[i..], true) >= old(client.taken) + Reads(turns, true)
      invariant upstream.taken + Reads(turns[i..], false) >= old(upstream.taken) + Reads(turns, false)
    {
      var turn := turns[i];
      assert turns[i..][1..] == turns[i + 1..];
      if turn == Turn(false, false) {
        return Idle;
      }
      if turn.client {
        var end := Forward(client, upstream, old(client.taken), old(upstream.sent));
        if !end.Idle? {
          return end;
        }
      }
      if turn.upstream {
        var end := Forward(upstream, client, old(upstream.taken), old(client.sent));
        if !end.Idle? {
          return end;
        }
      }
      i := i + 1;
    }
    return Idle;
  }

  /** One turn of the gateway's relay: whether the session has been idle too long
      when it begins, and what `select` then reports. */
  datatype GatewayTurn = GatewayTurn(late: bool, client: bool, upstream: bool)

  /** How often one side is read before the session has been idle too long. */
  function GatewayReads(turns: seq<GatewayTurn>, client: bool): nat {
    if turns == [] || turns[0].late then 0
    else (if (if client then turns[0].client else turns[0].upstream) then 1 else 0) + GatewayReads(turns[1..], client)
  }

  /** The relay loop of `exchange`: unlike the bridge's it goes on after a turn
      with nothing to read. */
  method GatewayRelay(client: Wire, upstream: Wire, turns: seq<GatewayTurn>) returns (r: RelayEnd)
    requires client != upstream && client.Valid() && upstream.Valid()
    modifies client, upstream
    ensures client.Valid() && upstream.Valid()
    ensures old(client.taken) <= client.taken && old(upstream.taken) <= upstream.taken
    ensures old(upstream.sent) <= upstream.sent <= old(upstream.sent) + client.inbound[old(client.taken)..client.taken]
    ensures old(client.sent) <= client.sent <= old(client.sent) + upstream.inbound[old(upstream.taken)..upstream.taken]
    ensures !r.Lost? ==> Carried(client, old(client.taken), upstream, old(upstream.sent))
    ensures !r.Lost? ==> Carried(upstream, old(upstream.taken), client, old(client.sent))
    ensures r.Lost? ==> client.faulted || upstream.faulted
    ensures r.Drained? ==> client.taken == |client.inbound| || upstream.taken == |upstream.inbound|
    ensures r.Idle? ==> client.taken >= old(client.taken) + GatewayReads(turns, true)
    ensures r.Idle? ==> upstream.taken >= old(upstream.taken) + GatewayReads(turns, false)
  {
    var i := 0;
    while i < |turns| && !turns[i].late
      invariant 0 <= i <= |turns|
      invariant client.Valid() && upstream.Valid()
      invariant old(client.taken) <= client.taken && old(upstream.taken) <= upstream.taken
      invariant Carried(client, old(client.taken), upstream, old(upstream.sent))
      invariant Carried(upstream, old(upstream.taken), client, old(client.sent))
      invariant client.taken + GatewayReads(turns[i..], true) >= old(client.taken) + GatewayReads(turns, true)
      invariant upstream.taken + GatewayReads(turns[i..], false) >= old(upstream.taken) + GatewayReads(turns, false)
    {
      var turn := turns[i];
      assert turns[i..][1..] == turns[i + 1..];
      if turn.client {
        var end := Forward(client, upstream, old(client.taken), old(upstream.sent));
        if !end.Idle? {
          return end;
        }
      }
      if turn.upstream {
        var end := Forward(upstream, client, old(upstream.taken), old(client.sent));
        if !end.Idle? {
          return end;
        }
      }
      i := i + 1;
    }
    return Idle;
  }

  /** All of `exchange`: the handshake, then, for an accepted host that is
      connected, the relay. Behind its answer the client is sent an in-order
      prefix of what the upstream delivers, and the upstream an in-order prefix
      of what the client says behind its request; without a tunnel neither. */
  method Gateway(w: Wire, remote: Wire, policy: Policy, upstream: bool, turns: seq<GatewayTurn>)
    returns (session: Session, end: RelayEnd)
    requires w != remote && w.Valid() && w.taken == 0 && w.sent == []
    requires remote.Valid() && remote.taken == 0 && remote.sent == []
    modifies w, remote
    ensures w.Valid() && remote.Valid()
    ensures session.Served? ==>
              var asked := Serve(policy, w.inbound);
              && asked.Accepted? && upstream && asked.consumed <= w.taken
              && remote.sent <= w.inbound[asked.consumed..w.taken]
              && ServerOut(policy, true, w.inbound) <= w.sent
              && w.sent <= ServerOut(policy, true, w.inbound) + remote.inbound[..remote.taken]
              && (!end.Lost? ==> remote.sent == w.inbound[asked.consumed..w.taken]
                                 && w.sent == ServerOut(policy, true, w.inbound) + remote.inbound[..remote.taken])
    ensures !session.Served? ==> remote.sent == [] && remote.taken == 0
    ensures session.TurnedAway? ==> w.sent == ServerOut(policy, upstream, w.inbound)
    ensures NO_AUTH + [5, 0] <= w.sent ==> Serve(policy, w.inbound).Accepted? && upstream
  {
    session := Exchange(w, policy, upstream);
    end := Idle;
    if session.Served? {
      end := GatewayRelay(w, remote, turns);
    }
  }
}
