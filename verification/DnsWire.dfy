/** DNS messages on the wire (sections 2.3.4, 3.1 and 4.1 of RFC 1035): writing a
    host name, skipping a name, and collecting the public IPv4 addresses of an
    answer. */
module DnsWire {
  import opened Prelude
  import opened DomainNames
  import opened DomainPolicy

  // ----- names -----

  /** IDNA encoding of a label that is not plain ASCII; None is its error. */
  type LabelCodec = string -> Option<seq<byte>>

  ghost predicate NeverEmpty(idna: LabelCodec) {
    forall text :: idna(text).Some? ==> idna(text).value != []
  }

  function EncodeLabel(text: string, idna: LabelCodec): Option<seq<byte>> {
    var coded := if IsAscii(text) then Some(ToBytes(text)) else idna(text);
    if text == "" || coded.None? || |coded.value| > 63 then None else coded
  }

  function EncodeLabels(labels: seq<string>, idna: LabelCodec): (r: Option<seq<seq<byte>>>)
    ensures r.Some? ==> |r.value| == |labels| && forall i | 0 <= i < |labels| :: Some(r.value[i]) == EncodeLabel(labels[i], idna)
  {
    if labels == [] then Some([])
    else
      var head, rest := EncodeLabel(labels[0], idna), EncodeLabels(labels[1..], idna);
      if head.None? || rest.None? then None else Some([head.value] + rest.value)
  }

  type Label = x: seq<byte> | |x| <= 63 witness []

  /** Each label behind its length. */
  function Body(labels: seq<Label>): seq<byte> {
    if labels == [] then [] else [|labels[0]|] + labels[0] + Body(labels[1..])
  }

  function NameWire(name: string, idna: LabelCodec): Option<seq<byte>> {
    match EncodeLabels(Split(StripDots(name)), idna)
    case None => None
    case Some(labels) => Some(Body(labels) + [0])
  }

  predicate IsTail(tail: seq<byte>) {
    tail == [0] || (|tail| == 2 && tail[0] >= 192)
  }

  predicate Proper(labels: seq<Label>) {
    forall i | 0 <= i < |labels| :: labels[i] != []
  }

  /** A name on the wire: at most 127 non-empty labels, then the root or a
      compression pointer. */
  ghost predicate IsName(wire: seq<byte>) {
    exists labels: seq<Label>, tail: seq<byte> ::
      |labels| <= 127 && Proper(labels) && IsTail(tail) && wire == Body(labels) + tail
  }

  /** Where the name at `pos` ends, after `seen` labels; None is a ValueError. */
  function Skip(data: seq<byte>, pos: nat, seen: nat): (r: Option<nat>)
    ensures r.Some? ==> pos < r.value <= |data|
    decreases |data| - pos
  {
    if pos >= |data| then None
    else
      var n: nat := data[pos];
      if n >= 192 then if pos + 1 >= |data| then None else Some(pos + 2)
      else if n == 0 then Some(pos + 1)
      else if n > 63 || pos + 1 + n > |data| then None
      else if seen + 1 > 127 then None
      else Skip(data, pos + 1 + n, seen + 1)
  }

  method SkipName(data: seq<byte>, start: nat) returns (r: Option<nat>)
    ensures r == Skip(data, start, 0)
  {
    var pos, seen := start, 0;
    while pos < |data|
      invariant Skip(data, start, 0) == Skip(data, pos, seen)
      decreases |data| - pos
    {
      var n: nat := data[pos];
      if n >= 192 {
        return if pos + 1 >= |data| then None else Some(pos + 2);
      }
      if n == 0 {
        return Some(pos + 1);
      }
      if n > 63 || pos + 1 + n > |data| {
        return None;
      }
      pos := pos + (1 + n);
      seen := seen + 1;
      if seen > 127 {
        return None;
      }
    }
    return None;
  }

  lemma SliceOfSlice<T>(s: seq<T>, from: nat, to: nat, mid: nat)
    requires from <= mid <= to <= |s|
    ensures s[from..to][mid - from..] == s[mid..to]
  {
  }

  lemma {:induction false} SkipOver(data: seq<byte>, pos: nat, labels: seq<Label>, seen: nat)
    requires Proper(labels) && seen <= 127
    requires pos + |Body(labels)| <= |data| && data[pos..pos + |Body(labels)|] == Body(labels)
    ensures Skip(data, pos, seen)
         == if seen + |labels| <= 127 then Skip(data, pos + |Body(labels)|, seen + |labels|) else None
    decreases |labels|
  {
    if labels != [] {
      var n, here := |labels[0]|, Body(labels);
      var there := pos + |here|;
      assert here[0] == n && here[1 + n..] == Body(labels[1..]);
      assert data[pos] == data[pos..there][0];
      SliceOfSlice(data, pos, there, pos + 1 + n);
      if seen < 127 {
        SkipOver(data, pos + 1 + n, labels[1..], seen + 1);
      }
    }
  }

  lemma {:induction false} SkipFindsName(data: seq<byte>, pos: nat, seen: nat)
    returns (labels: seq<Label>, tail: seq<byte>)
    requires Skip(data, pos, seen).Some? && seen <= 127
    ensures seen + |labels| <= 127 && Proper(labels) && IsTail(tail)
    ensures data[pos..Skip(data, pos, seen).value] == Body(labels) + tail
    decreases |data| - pos
  {
    var n: nat := data[pos];
    var end := Skip(data, pos, seen).value;
    if n >= 192 || n == 0 {
      labels, tail := [], data[pos..end];
    } else {
      var word: Label := data[pos + 1..pos + 1 + n];
      var rest: seq<Label>;
      rest, tail := SkipFindsName(data, pos + 1 + n, seen + 1);
      labels := [word] + rest;
      assert labels[1..] == rest;
      SplitAt(data, pos, n, end);
      ConcatAssociates([n] + word, Body(rest), tail);
    }
  }

  lemma SplitAt(data: seq<byte>, pos: nat, n: nat, end: nat)
    requires pos + 1 + n <= end <= |data| && data[pos] == n
    ensures data[pos..end] == [n] + data[pos + 1..pos + 1 + n] + data[pos + 1 + n..end]
  {
  }

  lemma SplitSlice<T>(s: seq<T>, pos: nat, a: seq<T>, b: seq<T>)
    requires pos + |a| + |b| <= |s| && s[pos..pos + |a| + |b|] == a + b
    ensures s[pos..pos + |a|] == a && s[pos + |a|..pos + |a| + |b|] == b
  {
    var whole := s[pos..pos + |a| + |b|];
    assert whole[..|a|] == a && whole[|a|..] == b;
    assert s[pos..pos + |a|] == whole[..|a|];
    SliceOfSlice(s, pos, pos + |a| + |b|, pos + |a|);
  }

  lemma SkipOfTail(data: seq<byte>, pos: nat, tail: seq<byte>, seen: nat)
    requires IsTail(tail) && pos + |tail| <= |data| && data[pos..pos + |tail|] == tail
    ensures Skip(data, pos, seen) == Some(pos + |tail|)
  {
    assert data[pos] == tail[0];
  }

  lemma SkipOfParts(data: seq<byte>, pos: nat, labels: seq<Label>, tail: seq<byte>)
    requires |labels| <= 127 && Proper(labels) && IsTail(tail)
    requires pos + |Body(labels)| + |tail| <= |data|
    requires data[pos..pos + |Body(labels)| + |tail|] == Body(labels) + tail
    ensures Skip(data, pos, 0) == Some(pos + |Body(labels)| + |tail|)
  {
    SplitSlice(data, pos, Body(labels), tail);
    SkipOver(data, pos, labels, 0);
    SkipOfTail(data, pos + |Body(labels)|, tail, |labels|);
  }

  lemma SkipOfName(data: seq<byte>, pos: nat, end: nat)
    requires pos <= end <= |data| && IsName(data[pos..end])
    ensures Skip(data, pos, 0) == Some(end)
  {
    var wire := data[pos..end];
    var labels: seq<Label>, tail: seq<byte> :|
      |labels| <= 127 && Proper(labels) && IsTail(tail) && wire == Body(labels) + tail;
    SkipOfParts(data, pos, labels, tail);
  }

  /** The skipper stops at `end` exactly when what lies before `end` is a name. */
  lemma SkipIsExact(data: seq<byte>, pos: nat, end: nat)
    ensures Skip(data, pos, 0) == Some(end) <==> pos <= end <= |data| && IsName(data[pos..end])
  {
    if Skip(data, pos, 0) == Some(end) {
      var labels, tail := SkipFindsName(data, pos, 0);
    } else if pos <= end <= |data| && IsName(data[pos..end]) {
      SkipOfName(data, pos, end);
    }
  }

  lemma {:induction false} LabelsFit(labels: seq<string>)
    requires |labels| >= 1 && forall i | 0 <= i < |labels| :: labels[i] != ""
    ensures 2 * |labels| <= |Join(labels)| + 1
  {
    if |labels| > 1 {
      LabelsFit(labels[1..]);
    }
  }

  /** A written name, wherever it stands, is skipped to its very end, exactly
      when it has at most 127 labels; a host of at most 253 characters has. */
  lemma WrittenNameIsSkipped(name: string, idna: LabelCodec, before: seq<byte>, after: seq<byte>)
    requires NeverEmpty(idna) && NameWire(name, idna).Some?
    ensures
      var wire := NameWire(name, idna).value;
      && (|Split(StripDots(name))| <= 127 ==> Skip(before + wire + after, |before|, 0) == Some(|before| + |wire|))
      && (|Split(StripDots(name))| > 127 ==> Skip(before + wire + after, |before|, 0) == None)
      && (|name| <= 253 ==> |Split(StripDots(name))| <= 127)
  {
    var spelled := Split(StripDots(name));
    var labels: seq<Label> := EncodeLabels(spelled, idna).value;
    var wire := Body(labels) + [0];
    var data := before + wire + after;
    forall i | 0 <= i < |labels| ensures labels[i] != [] && spelled[i] != "" {
      assert Some(labels[i]) == EncodeLabel(spelled[i], idna);
    }
    JoinOfSplit(StripDots(name));
    LabelsFit(spelled);
    assert data[|before|..|before| + |Body(labels)|] == Body(labels);
    assert data[|before| + |Body(labels)|] == 0;
    SkipOver(data, |before|, labels, 0);
  }
}
