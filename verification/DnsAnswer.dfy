/** The answer parser of the direct resolver (section 4.1 of RFC 1035). */
module DnsAnswer {
  import opened Prelude
  import opened DnsWire

  /** The four octets of an IPv4 address. */
  type Address = seq<byte>

  /** Whether an address is publicly routable. */
  type Global = Address -> bool

  function U16(data: seq<byte>, pos: nat): (n: nat)
    requires pos + 2 <= |data|
    ensures n < 0x1_0000
  {
    var high: int, low: int := data[pos], data[pos + 1];
    high * 256 + low
  }

  function U16Bytes(n: nat): (r: seq<byte>)
    requires n < 0x1_0000
    ensures |r| == 2 && U16(r, 0) == n
  {
    [n / 256, n % 256]
  }

  /** Past the question section; the two ways a short one ends differ. */
  datatype Questions = At(pos: nat) | NameError | Incomplete

  function AfterQuestions(data: seq<byte>, pos: nat, count: nat): Questions
    decreases count
  {
    if count == 0 then At(pos)
    else
      match Skip(data, pos, 0)
      case None => NameError
      case Some(end) => if end + 4 > |data| then Incomplete else AfterQuestions(data, end + 4, count - 1)
  }

  datatype Found = Found(end: nat, address: Option<Address>)

  /** The resource record at `pos`: its end and, for an A record of class IN
      with four octets, the address. */
  function NextRecord(data: seq<byte>, pos: nat): (r: Option<Found>)
    ensures r.Some? ==> pos < r.value.end <= |data|
    ensures r.Some? && r.value.address.Some? ==> |r.value.address.value| == 4
  {
    match Skip(data, pos, 0)
    case None => None
    case Some(end) =>
      if end + 10 > |data| then None
      else
        var length := U16(data, end + 8);
        var rdata := end + 10;
        if rdata + length > |data| then None
        else if U16(data, end) == 1 && U16(data, end + 2) == 1 && length == 4 then
          Some(Found(rdata + length, Some(data[rdata..rdata + length])))
        else Some(Found(rdata + length, None))
  }

  function Collect(ips: seq<Address>, address: Option<Address>, global: Global): (r: seq<Address>)
    ensures ips <= r
  {
    if address.Some? && global(address.value) && address.value !in ips then ips + [address.value] else ips
  }

  /** What stands at each position of a message. */
  type Reader = nat -> Option<Found>

  function ReaderOf(data: seq<byte>): Reader {
    (pos: nat) => NextRecord(data, pos)
  }

  function Records(next: Reader, pos: nat, count: nat, ips: seq<Address>, global: Global): (r: seq<Address>)
    ensures ips <= r
    decreases count
  {
    if count == 0 then ips
    else
      match next(pos)
      case None => ips
      case Some(found) => Records(next, found.end, count - 1, Collect(ips, found.address, global), global)
  }

  /** A response to `txid` without an error code. */
  predicate IsAnswer(data: seq<byte>, txid: seq<byte>) {
    |data| >= 12 && data[..2] == txid && data[2] >= 128 && data[3] % 16 == 0
  }

  function RecordCount(data: seq<byte>): nat
    requires |data| >= 12
  {
    U16(data, 6) + U16(data, 8) + U16(data, 10)
  }

  /** None is a ValueError, which only the question section can let out. */
  function ParseA(data: seq<byte>, txid: seq<byte>, global: Global): Option<seq<Address>> {
    if !IsAnswer(data, txid) then Some([])
    else
      match AfterQuestions(data, 12, U16(data, 4))
      case NameError => None
      case Incomplete => Some([])
      case At(pos) => Some(Records(ReaderOf(data), pos, RecordCount(data), [], global))
  }

  method ParseRecord(data: seq<byte>, start: nat) returns (r: Option<Found>)
    ensures r == ReaderOf(data)(start)
  {
    var skipped := SkipName(data, start);
    if skipped.None? {
      return None;
    }
    var pos := skipped.value;
    if pos + 10 > |data| {
      return None;
    }
    var rtype, rclass, length := U16(data, pos), U16(data, pos + 2), U16(data, pos + 8);
    pos := pos + 10;
    if pos + length > |data| {
      return None;
    }
    var rdata := data[pos..pos + length];
    pos := pos + length;
    return Some(Found(pos, if rtype == 1 && rclass == 1 && length == 4 then Some(rdata) else None));
  }

  method PassQuestions(data: seq<byte>, count: nat) returns (r: Questions)
    ensures r == AfterQuestions(data, 12, count)
  {
    var pos: nat := 12;
    for i := 0 to count
      invariant AfterQuestions(data, 12, count) == AfterQuestions(data, pos, count - i)
    {
      var end := SkipName(data, pos);
      if end.None? {
        return NameError;
      }
      if end.value + 4 > |data| {
        return Incomplete;
      }
      pos := end.value + 4;
    }
    return At(pos);
  }

  method CollectRecords(data: seq<byte>, start: nat, count: nat, global: Global) returns (ips: seq<Address>)
    ensures ips == Records(ReaderOf(data), start, count, [], global)
  {
    var pos := start;
    ips := [];
    for i := 0 to count
      invariant Records(ReaderOf(data), start, count, [], global) == Records(ReaderOf(data), pos, count - i, ips, global)
    {
      var found := ParseRecord(data, pos);
      if found.None? {
        break;
      }
      pos := found.value.end;
      var address := found.value.address;
      if address.Some? && global(address.value) && address.value !in ips {
        ips := ips + [address.value];
      }
    }
  }

  method ParseDnsA(data: seq<byte>, txid: seq<byte>, global: Global) returns (r: Option<seq<Address>>)
    ensures r == ParseA(data, txid, global)
  {
    if |data| < 12 || data[..2] != txid || data[2] < 128 || data[3] % 16 != 0 {
      return Some([]);
    }
    var questions := PassQuestions(data, U16(data, 4));
    if questions.NameError? {
      return None;
    }
    if questions.Incomplete? {
      return Some([]);
    }
    var ips := CollectRecords(data, questions.pos, RecordCount(data), global);
    return Some(ips);
  }

  // ----- a message cut short -----

  lemma {:induction false} SkipOfCut(data: seq<byte>, cut: nat, pos: nat, seen: nat)
    requires cut <= |data| && Skip(data[..cut], pos, seen).Some?
    ensures Skip(data, pos, seen) == Skip(data[..cut], pos, seen)
    decreases |data| - pos
  {
    var n: nat := data[..cut][pos];
    assert n == data[pos];
    if 0 < n < 192 {
      SkipOfCut(data, cut, pos + 1 + n, seen + 1);
    }
  }

  lemma {:induction false} QuestionsOfCut(data: seq<byte>, cut: nat, pos: nat, count: nat)
    requires cut <= |data| && AfterQuestions(data[..cut], pos, count).At?
    ensures AfterQuestions(data, pos, count) == AfterQuestions(data[..cut], pos, count)
    decreases count
  {
    if count > 0 {
      SkipOfCut(data, cut, pos, 0);
      QuestionsOfCut(data, cut, Skip(data, pos, 0).value + 4, count - 1);
    }
  }

  lemma RecordOfCut(data: seq<byte>, cut: nat, pos: nat)
    requires cut <= |data| && NextRecord(data[..cut], pos).Some?
    ensures NextRecord(data, pos) == NextRecord(data[..cut], pos)
  {
    SkipOfCut(data, cut, pos, 0);
    var end := Skip(data, pos, 0).value;
    var short := data[..cut];
    assert U16(short, end) == U16(data, end) && U16(short, end + 2) == U16(data, end + 2) && U16(short, end + 8) == U16(data, end + 8);
    var rdata, length := end + 10, U16(data, end + 8);
    assert short[rdata..rdata + length] == data[rdata..rdata + length];
  }

  lemma {:induction false} RecordsPrefix(short: Reader, full: Reader, pos: nat, count: nat, ips: seq<Address>, global: Global)
    requires forall p: nat :: short(p).Some? ==> full(p) == short(p)
    ensures Records(short, pos, count, ips, global) <= Records(full, pos, count, ips, global)
    decreases count
  {
    if count > 0 && short(pos).Some? {
      var found := full(pos).value;
      RecordsPrefix(short, full, found.end, count - 1, Collect(ips, found.address, global), global);
    }
  }

  lemma RecordsOfCut(data: seq<byte>, cut: nat, pos: nat, count: nat, global: Global)
    requires cut <= |data|
    ensures Records(ReaderOf(data[..cut]), pos, count, [], global) <= Records(ReaderOf(data), pos, count, [], global)
  {
    forall p: nat | ReaderOf(data[..cut])(p).Some? ensures ReaderOf(data)(p) == ReaderOf(data[..cut])(p) {
      RecordOfCut(data, cut, p);
    }
    RecordsPrefix(ReaderOf(data[..cut]), ReaderOf(data), pos, count, [], global);
  }

  /** Cutting a message anywhere after its header can only make the parser fail
      or lose addresses from the end of the list: it never invents one. */
  lemma CutMessageGivesPrefix(data: seq<byte>, cut: nat, txid: seq<byte>, global: Global)
    requires 12 <= cut <= |data|
    ensures
      var short, full := ParseA(data[..cut], txid, global), ParseA(data, txid, global);
      short.Some? && short.value != [] ==> full.Some? && short.value <= full.value
  {
    var short := data[..cut];
    assert short[..2] == data[..2];
    if IsAnswer(short, txid) && AfterQuestions(short, 12, U16(short, 4)).At? {
      assert U16(short, 4) == U16(data, 4) && RecordCount(short) == RecordCount(data);
      QuestionsOfCut(data, cut, 12, U16(data, 4));
      RecordsOfCut(data, cut, AfterQuestions(data, 12, U16(data, 4)).pos, RecordCount(data), global);
    }
  }

  // ----- a message written by the standard -----

  datatype Question = Question(name: seq<byte>, rest: seq<byte>)

  datatype Record = Record(name: seq<byte>, rtype: nat, rclass: nat, ttl: seq<byte>, rdata: seq<byte>)

  ghost predicate GoodQuestion(q: Question) {
    IsName(q.name) && |q.rest| == 4
  }

  ghost predicate GoodRecord(r: Record) {
    IsName(r.name) && r.rtype < 0x1_0000 && r.rclass < 0x1_0000 && |r.ttl| == 4 && |r.rdata| < 0x1_0000
  }

  ghost function QuestionBytes(q: Question): seq<byte> {
    q.name + q.rest
  }

  ghost function RecordTail(r: Record): (b: seq<byte>)
    requires GoodRecord(r)
    ensures |b| == 10
  {
    U16Bytes(r.rtype) + U16Bytes(r.rclass) + r.ttl + U16Bytes(|r.rdata|)
  }

  ghost function RecordBytes(r: Record): seq<byte>
    requires GoodRecord(r)
  {
    r.name + RecordTail(r) + r.rdata
  }

  /** These bytes stand at `pos`. */
  predicate Stands(data: seq<byte>, pos: nat, bytes: seq<byte>) {
    pos + |bytes| <= |data| && data[pos..pos + |bytes|] == bytes
  }

  ghost predicate QuestionStands(data: seq<byte>, pos: nat, q: Question, end: nat) {
    GoodQuestion(q) && Stands(data, pos, QuestionBytes(q)) && end == pos + |QuestionBytes(q)|
  }

  ghost predicate RecordStands(data: seq<byte>, pos: nat, r: Record, end: nat) {
    GoodRecord(r) && Stands(data, pos, RecordBytes(r)) && end == pos + |RecordBytes(r)|
  }

  /** The questions stand one behind the other, with these borders. */
  ghost predicate QuestionsStand(data: seq<byte>, qs: seq<Question>, borders: seq<nat>) {
    |borders| == |qs| + 1 && forall i | 0 <= i < |qs| :: QuestionStands(data, borders[i], qs[i], borders[i + 1])
  }

  ghost predicate RecordsStand(data: seq<byte>, rs: seq<Record>, borders: seq<nat>) {
    |borders| == |rs| + 1 && forall i | 0 <= i < |rs| :: RecordStands(data, borders[i], rs[i], borders[i + 1])
  }

  function AddressOf(r: Record): Option<Address> {
    if r.rtype == 1 && r.rclass == 1 && |r.rdata| == 4 then Some(r.rdata) else None
  }

  /** The public addresses of the A records, first occurrences in order. */
  function PublicAddresses(rs: seq<Record>, ips: seq<Address>, global: Global): seq<Address> {
    if rs == [] then ips else PublicAddresses(rs[1..], Collect(ips, AddressOf(rs[0]), global), global)
  }

  predicate Passes(data: seq<byte>, pos: nat, end: nat) {
    4 <= end <= |data| && Skip(data, pos, 0) == Some(end - 4)
  }

  lemma QuestionReads(data: seq<byte>, pos: nat, q: Question, end: nat)
    requires QuestionStands(data, pos, q, end)
    ensures Passes(data, pos, end)
  {
    SplitSlice(data, pos, q.name, q.rest);
    SkipOfName(data, pos, pos + |q.name|);
  }

  lemma {:induction false} QuestionsWalk(data: seq<byte>, borders: seq<nat>, k: nat)
    requires k < |borders|
    requires forall i | 0 <= i < |borders| - 1 :: Passes(data, borders[i], borders[i + 1])
    ensures AfterQuestions(data, borders[k], |borders| - 1 - k) == At(borders[|borders| - 1])
    decreases |borders| - k
  {
    if k < |borders| - 1 {
      QuestionsWalk(data, borders, k + 1);
    }
  }

  lemma RecordTailReads(r: Record)
    requires GoodRecord(r)
    ensures U16(RecordTail(r), 0) == r.rtype && U16(RecordTail(r), 2) == r.rclass && U16(RecordTail(r), 8) == |r.rdata|
  {
    var b := RecordTail(r);
    assert b[0..2] == U16Bytes(r.rtype) && b[2..4] == U16Bytes(r.rclass) && b[8..10] == U16Bytes(|r.rdata|);
  }

  lemma U16Of(data: seq<byte>, end: nat, k: nat)
    requires end + 10 <= |data| && k <= 8
    ensures U16(data, end + k) == U16(data[end..end + 10], k)
  {
  }

  lemma NextFrom(data: seq<byte>, pos: nat, end: nat, r: Record)
    requires GoodRecord(r) && Skip(data, pos, 0) == Some(end) && end + 10 + |r.rdata| <= |data|
    requires data[end..end + 10] == RecordTail(r) && data[end + 10..end + 10 + |r.rdata|] == r.rdata
    ensures NextRecord(data, pos) == Some(Found(end + 10 + |r.rdata|, AddressOf(r)))
  {
    RecordTailReads(r);
    U16Of(data, end, 0);
    U16Of(data, end, 2);
    U16Of(data, end, 8);
  }

  lemma RecordSlices(data: seq<byte>, pos: nat, name: seq<byte>, tail: seq<byte>, rdata: seq<byte>)
    requires pos + |name| + |tail| + |rdata| <= |data|
    requires data[pos..pos + |name| + |tail| + |rdata|] == name + tail + rdata
    ensures
      var end := pos + |name|;
      data[pos..end] == name && data[end..end + |tail|] == tail && data[end + |tail|..end + |tail| + |rdata|] == rdata
  {
    SplitSlice(data, pos, name + tail, rdata);
    SplitSlice(data, pos, name, tail);
  }

  lemma RecordParts(data: seq<byte>, pos: nat, r: Record, end: nat)
    requires RecordStands(data, pos, r, end)
    ensures
      var body := pos + |r.name|;
      && Skip(data, pos, 0) == Some(body) && end == body + 10 + |r.rdata| <= |data|
      && data[body..body + 10] == RecordTail(r) && data[body + 10..end] == r.rdata
  {
    RecordSlices(data, pos, r.name, RecordTail(r), r.rdata);
    SkipOfName(data, pos, pos + |r.name|);
  }

  lemma RecordReads(data: seq<byte>, pos: nat, r: Record, end: nat)
    requires RecordStands(data, pos, r, end)
    ensures NextRecord(data, pos) == Some(Found(end, AddressOf(r)))
  {
    RecordParts(data, pos, r, end);
    NextFrom(data, pos, pos + |r.name|, r);
  }

  lemma {:induction false} RecordsWalk(next: Reader, borders: seq<nat>, rs: seq<Record>, ips: seq<Address>, global: Global)
    requires |borders| == |rs| + 1
    requires forall i | 0 <= i < |rs| :: next(borders[i]) == Some(Found(borders[i + 1], AddressOf(rs[i])))
    ensures Records(next, borders[0], |rs|, ips, global) == PublicAddresses(rs, ips, global)
    decreases |rs|
  {
    if rs != [] {
      RecordsWalk(next, borders[1..], rs[1..], Collect(ips, AddressOf(rs[0]), global), global);
    }
  }

  /** Any well-formed response, with any names, compressed or not, any other
      records among the addresses and anything behind it, gives exactly the
      public addresses of its A records. */
  lemma WrittenMessageIsRead(data: seq<byte>, txid: seq<byte>, qs: seq<Question>, asked: seq<nat>, rs: seq<Record>, told: seq<nat>, global: Global)
    requires IsAnswer(data, txid) && U16(data, 4) == |qs| && RecordCount(data) == |rs|
    requires QuestionsStand(data, qs, asked) && asked[0] == 12
    requires RecordsStand(data, rs, told) && told[0] == asked[|qs|]
    ensures ParseA(data, txid, global) == Some(PublicAddresses(rs, [], global))
  {
    forall i | 0 <= i < |qs| ensures Passes(data, asked[i], asked[i + 1]) {
      QuestionReads(data, asked[i], qs[i], asked[i + 1]);
    }
    QuestionsWalk(data, asked, 0);
    forall i | 0 <= i < |rs| ensures ReaderOf(data)(told[i]) == Some(Found(told[i + 1], AddressOf(rs[i]))) {
      RecordReads(data, told[i], rs[i], told[i + 1]);
    }
    RecordsWalk(ReaderOf(data), told, rs, [], global);
  }

  /** What that list is: each public address some A record carries, once. */
  lemma {:induction false} PublicAddressesAre(rs: seq<Record>, ips: seq<Address>, global: Global)
    requires Distinct(ips)
    ensures
      var all := PublicAddresses(rs, ips, global);
      && ips <= all && Distinct(all)
      && forall a :: a in all <==> a in ips || (global(a) && exists r | r in rs :: AddressOf(r) == Some(a))
    decreases |rs|
  {
    if rs != [] {
      var next := Collect(ips, AddressOf(rs[0]), global);
      var all := PublicAddresses(rs, ips, global);
      PublicAddressesAre(rs[1..], next, global);
      forall a ensures a in all <==> a in ips || (global(a) && exists r | r in rs :: AddressOf(r) == Some(a)) {
        CarriedBy(rs, a);
      }
    }
  }

  lemma CarriedBy(rs: seq<Record>, a: Address)
    requires rs != []
    ensures (exists r | r in rs :: AddressOf(r) == Some(a))
       <==> AddressOf(rs[0]) == Some(a) || exists r | r in rs[1..] :: AddressOf(r) == Some(a)
  {
    if exists r | r in rs :: AddressOf(r) == Some(a) {
      var r :| r in rs && AddressOf(r) == Some(a);
      assert r == rs[0] || r in rs[1..];
    }
    if AddressOf(rs[0]) == Some(a) {
      assert rs[0] in rs;
    }
  }
}
