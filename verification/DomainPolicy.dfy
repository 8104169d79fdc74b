/** The user's domain list: how it is read, and what three independent
    deciders (browser PAC script, HTTP CONNECT bridge, tailnet gateway) make
    of it. */
module DomainPolicy {
  import opened Prelude
  import opened DomainNames

  const MAX_DOMAINS := 64

  datatype DomainError = Invalid | LocalDenied | IpDenied | PublicSuffixDenied | Limit | Empty

  /** The two ports differ in how they trim trailing dots and in one refusal. */
  datatype Platform = Windows | Linux

  /** Unicode lower-casing and IDNA encoding of a name that is not already a
      plain lower-case ASCII name; None is the encoder's UnicodeError. */
  type Idna = string -> Option<string>

  // ----- reading the list -----

  predicate IsSpace(c: char) {
    || '\t' <= c <= '\r' || c == ' ' || '\U{1C}' <= c <= '\U{1F}' || c == '\U{85}' || c == '\U{A0}'
    || c == '\U{1680}' || '\U{2000}' <= c <= '\U{200A}' || c == '\U{2028}' || c == '\U{2029}'
    || c == '\U{202F}' || c == '\U{205F}' || c == '\U{3000}'
  }

  predicate IsSeparator(c: char) {
    IsSpace(c) || c == ',' || c == ';'
  }

  function WordLength(s: string): (n: nat)
    ensures n <= |s|
    ensures forall i | 0 <= i < n :: !IsSeparator(s[i])
    ensures n < |s| ==> IsSeparator(s[n])
  {
    if s == "" || IsSeparator(s[0]) then 0 else 1 + WordLength(s[1..])
  }

  /** The non-empty pieces between runs of separators. */
  function Tokens(s: string): seq<string> {
    if s == "" then []
    else if IsSeparator(s[0]) then Tokens(s[1..])
    else
      var n := WordLength(s);
      [s[..n]] + Tokens(s[n..])
  }

  function LowerChar(c: char): char {
    if 'A' <= c <= 'Z' then ((c as int) + 32) as char else c
  }

  function Lower(s: string): (r: string)
    ensures |r| == |s| && forall i | 0 <= i < |s| :: r[i] == LowerChar(s[i])
  {
    if s == "" then "" else [LowerChar(s[0])] + Lower(s[1..])
  }

  function StripDots(s: string): (r: string)
    ensures r <= s && (r != "" ==> r[|r| - 1] != '.')
  {
    if s != "" && s[|s| - 1] == '.' then StripDots(s[..|s| - 1]) else s
  }

  function StripOneDot(s: string): (r: string) {
    if s != "" && s[|s| - 1] == '.' then s[..|s| - 1] else s
  }

  function DropWildcard(s: string): string {
    if "*." <= s then s[2..] else s
  }

  function Encode(s: string, idna: Idna): Option<string> {
    if PlainAscii(s) then Some(s) else idna(s)
  }

  predicate LocalName(host: string) {
    || EndsWith(host, ".local") || EndsWith(host, ".internal") || EndsWith(host, ".localhost")
    || EndsWith(host, ".invalid") || EndsWith(host, ".test")
  }

  predicate AllDigits(labels: seq<string>) {
    forall i | 0 <= i < |labels| :: IsDigits(labels[i])
  }

  predicate PublicSuffix(labels: seq<string>) {
    && |labels| == 2
    && labels[0] in ["co", "com", "org", "net", "gov", "ac", "edu"]
    && |labels[1]| == 2
  }

  /** The refusals of one encoded name, in the program's order. */
  function CheckName(p: Platform, host: string): Result<string, DomainError> {
    var labels := Split(host);
    if !(2 <= |labels| <= 12) || |host| > 253 || !AllLabels(labels) then Err(Invalid)
    else if LocalName(host) || (p.Linux? && "localhost." <= host) then Err(LocalDenied)
    else if AllDigits(labels) then Err(IpDenied)
    else if PublicSuffix(labels) then Err(PublicSuffixDenied)
    else Ok(host)
  }

  function CanonicalName(p: Platform, token: string, idna: Idna): Result<string, DomainError> {
    var bare := DropWildcard(Lower(token));
    var host := Encode(if p.Windows? then StripDots(bare) else StripOneDot(bare), idna);
    if host.None? then Err(Invalid) else CheckName(p, host.value)
  }

  function AddName(rows: seq<string>, host: string): seq<string> {
    if host in rows then rows else rows + [host]
  }

  /** What one word of the list stands for. */
  type Reading = string -> Result<string, DomainError>

  function Canonical(p: Platform, idna: Idna): Reading {
    token => CanonicalName(p, token, idna)
  }

  function Collect(read: Reading, tokens: seq<string>, rows: seq<string>): Result<seq<string>, DomainError> {
    if tokens == [] then if rows == [] then Err(Empty) else Ok(rows)
    else
      match read(tokens[0])
      case Err(e) => Err(e)
      case Ok(host) =>
        var next := AddName(rows, host);
        if |next| > MAX_DOMAINS then Err(Limit) else Collect(read, tokens[1..], next)
  }

  function Normalize(p: Platform, text: string, idna: Idna): Result<seq<string>, DomainError> {
    Collect(Canonical(p, idna), Tokens(text), [])
  }

  /** The reading loop as the program runs it. */
  method CollectNames(read: Reading, tokens: seq<string>) returns (r: Result<seq<string>, DomainError>)
    ensures r == Collect(read, tokens, [])
  {
    var rows := [];
    var i := 0;
    while i < |tokens|
      invariant 0 <= i <= |tokens|
      invariant Collect(read, tokens[i..], rows) == Collect(read, tokens, [])
      invariant |rows| <= MAX_DOMAINS
    {
      assert tokens[i..][1..] == tokens[i + 1..];
      var host := read(tokens[i]);
      if host.Err? {
        return Err(host.error);
      }
      if host.value !in rows {
        rows := rows + [host.value];
      }
      if |rows| > MAX_DOMAINS {
        return Err(Limit);
      }
      i := i + 1;
    }
    return if rows == [] then Err(Empty) else Ok(rows);
  }

  method NormalizeDomains(p: Platform, text: string, idna: Idna)
    returns (r: Result<seq<string>, DomainError>)
    ensures r == Normalize(p, text, idna)
  {
    r := CollectNames(Canonical(p, idna), Tokens(text));
  }

  ghost predicate NormalRows(p: Platform, rows: seq<string>) {
    Distinct(rows) && forall i | 0 <= i < |rows| :: CheckName(p, rows[i]).Ok?
  }

  /** What every list the program stores looks like. */
  ghost predicate NormalList(p: Platform, rows: seq<string>) {
    1 <= |rows| <= MAX_DOMAINS && NormalRows(p, rows)
  }

  // ----- a stored list is read back as itself -----

  /** `"\n".join(rows)`. */
  function Lines(rows: seq<string>): string {
    if rows == [] then "" else if |rows| == 1 then rows[0] else rows[0] + ("\n" + Lines(rows[1..]))
  }

  lemma {:induction false} WordLengthOf(word: string, rest: string)
    requires forall i | 0 <= i < |word| :: !IsSeparator(word[i])
    requires rest == "" || IsSeparator(rest[0])
    ensures WordLength(word + rest) == |word|
  {
    if word == "" {
      assert word + rest == rest;
    } else {
      assert (word + rest)[1..] == word[1..] + rest;
      WordLengthOf(word[1..], rest);
    }
  }

  lemma TokensOfWord(word: string, rest: string)
    requires word != "" && forall i | 0 <= i < |word| :: !IsSeparator(word[i])
    requires rest == "" || IsSeparator(rest[0])
    ensures Tokens(word + rest) == [word] + Tokens(rest)
  {
    WordLengthOf(word, rest);
    assert (word + rest)[..|word|] == word;
    assert (word + rest)[|word|..] == rest;
  }

  lemma NameHasNoSeparator(p: Platform, host: string)
    requires CheckName(p, host).Ok?
    ensures host != "" && PlainAscii(host) && host[|host| - 1] != '.'
    ensures forall i | 0 <= i < |host| :: !IsSeparator(host[i])
  {
    LabelsShape(host);
  }

  lemma {:induction false} TokensOfLines(p: Platform, rows: seq<string>)
    requires forall i | 0 <= i < |rows| :: CheckName(p, rows[i]).Ok?
    ensures Tokens(Lines(rows)) == rows
  {
    if rows != [] {
      NameHasNoSeparator(p, rows[0]);
      if |rows| == 1 {
        TokensOfWord(rows[0], "");
        assert rows[0] + "" == rows[0];
      } else {
        var tail := Lines(rows[1..]);
        TokensOfLines(p, rows[1..]);
        TokensOfWord(rows[0], "\n" + tail);
        assert ("\n" + tail)[1..] == tail;
      }
    }
  }

  lemma LowerIsFixed(host: string)
    requires PlainAscii(host)
    ensures Lower(host) == host
  {
    forall i | 0 <= i < |host| ensures Lower(host)[i] == host[i] {
      assert IsLdh(host[i]) || host[i] == '.';
    }
  }

  lemma PlainIsFixed(host: string, idna: Idna)
    requires host != "" && PlainAscii(host) && host[|host| - 1] != '.'
    ensures DropWildcard(Lower(host)) == host
    ensures StripDots(host) == host && StripOneDot(host) == host && Encode(host, idna) == Some(host)
  {
    LowerIsFixed(host);
    assert host[0] != '*' by {
      assert IsLdh(host[0]) || host[0] == '.';
    }
  }

  lemma CheckedIsItself(p: Platform, host: string)
    ensures CheckName(p, host).Ok? ==> CheckName(p, host).value == host
  {
  }

  lemma CanonicalIsFixed(p: Platform, host: string, idna: Idna)
    requires CheckName(p, host).Ok?
    ensures Canonical(p, idna)(host) == Ok(host)
  {
    NameHasNoSeparator(p, host);
    PlainIsFixed(host, idna);
    CheckedIsItself(p, host);
  }

  /** Collecting canonical names adds those not yet present, in order. */
  function Missing(rows: seq<string>, names: seq<string>): seq<string>
    decreases names
  {
    if names == [] then []
    else if names[0] in rows then Missing(rows, names[1..])
    else [names[0]] + Missing(rows + [names[0]], names[1..])
  }

  ghost predicate AllChecked(p: Platform, names: seq<string>) {
    forall i | 0 <= i < |names| :: CheckName(p, names[i]).Ok?
  }

  ghost predicate AllFixed(read: Reading, names: seq<string>) {
    forall i | 0 <= i < |names| :: read(names[i]) == Ok(names[i])
  }

  lemma {:induction false} CollectIsMissing(read: Reading, names: seq<string>, rows: seq<string>)
    requires AllFixed(read, names)
    requires names != [] || rows != []
    requires |rows| <= MAX_DOMAINS
    ensures var all := rows + Missing(rows, names);
            Collect(read, names, rows) == if |all| <= MAX_DOMAINS then Ok(all) else Err(Limit)
  {
    if names == [] {
      assert rows + [] == rows;
    } else {
      var next := AddName(rows, names[0]);
      if names[0] in rows {
        CollectIsMissing(read, names[1..], rows);
      } else {
        ConcatAssociates(rows, [names[0]], Missing(next, names[1..]));
        if |next| <= MAX_DOMAINS {
          CollectIsMissing(read, names[1..], next);
        }
      }
    }
  }

  lemma CheckedAreFixed(p: Platform, names: seq<string>, idna: Idna)
    requires AllChecked(p, names)
    ensures AllFixed(Canonical(p, idna), names)
  {
    forall i | 0 <= i < |names| ensures Canonical(p, idna)(names[i]) == Ok(names[i]) {
      CanonicalIsFixed(p, names[i], idna);
    }
  }

  lemma FixedAreCollected(read: Reading, names: seq<string>)
    requires AllFixed(read, names) && names != []
    ensures var all := Missing([], names);
            Collect(read, names, []) == if |all| <= MAX_DOMAINS then Ok(all) else Err(Limit)
  {
    CollectIsMissing(read, names, []);
    assert [] + Missing([], names) == Missing([], names);
  }

  lemma CheckedAreCollected(p: Platform, names: seq<string>, idna: Idna)
    requires AllChecked(p, names) && names != []
    ensures var all := Missing([], names);
            Collect(Canonical(p, idna), names, []) == if |all| <= MAX_DOMAINS then Ok(all) else Err(Limit)
  {
    CheckedAreFixed(p, names, idna);
    FixedAreCollected(Canonical(p, idna), names);
  }

  lemma {:induction false} MissingOfDistinct(rows: seq<string>, names: seq<string>)
    requires Distinct(rows + names)
    ensures Missing(rows, names) == names
    decreases names
  {
    if names != [] {
      var all := rows + names;
      assert all[|rows|] == names[0];
      assert forall i | 0 <= i < |rows| :: all[i] == rows[i];
      assert names[0] !in rows;
      ConcatAssociates(rows, [names[0]], names[1..]);
      assert [names[0]] + names[1..] == names;
      MissingOfDistinct(rows + [names[0]], names[1..]);
    }
  }

  lemma CanonicalIsChecked(p: Platform, token: string, idna: Idna)
    requires Canonical(p, idna)(token).Ok?
    ensures CheckName(p, Canonical(p, idna)(token).value).Ok?
  {
    var bare := DropWildcard(Lower(token));
    CheckedIsItself(p, Encode(if p.Windows? then StripDots(bare) else StripOneDot(bare), idna).value);
  }

  lemma AddKeepsRows(p: Platform, rows: seq<string>, host: string)
    requires NormalRows(p, rows) && CheckName(p, host).Ok?
    ensures NormalRows(p, AddName(rows, host))
  {
  }

  lemma {:induction false} CollectGivesNormal(p: Platform, read: Reading, tokens: seq<string>, rows: seq<string>)
    requires forall token :: read(token).Ok? ==> CheckName(p, read(token).value).Ok?
    requires NormalRows(p, rows) && |rows| <= MAX_DOMAINS
    requires Collect(read, tokens, rows).Ok?
    ensures NormalList(p, Collect(read, tokens, rows).value)
    decreases tokens
  {
    if tokens != [] {
      var host := read(tokens[0]).value;
      AddKeepsRows(p, rows, host);
      CollectGivesNormal(p, read, tokens[1..], AddName(rows, host));
    }
  }

  lemma NormalizeGivesNormal(p: Platform, text: string, idna: Idna)
    requires Normalize(p, text, idna).Ok?
    ensures NormalList(p, Normalize(p, text, idna).value)
  {
    var read := Canonical(p, idna);
    forall token | read(token).Ok? ensures CheckName(p, read(token).value).Ok? {
      CanonicalIsChecked(p, token, idna);
    }
    CollectGivesNormal(p, read, Tokens(text), []);
  }

  /** Every list the program stores is normal, and joining it and reading it
      again (as the PAC writer does) gives the same list. */
  lemma NormalizeIsIdempotent(p: Platform, text: string, idna: Idna)
    requires Normalize(p, text, idna).Ok?
    ensures var rows := Normalize(p, text, idna).value;
            NormalList(p, rows) && Normalize(p, Lines(rows), idna) == Ok(rows)
  {
    NormalizeGivesNormal(p, text, idna);
    NormalListReadsBack(p, Normalize(p, text, idna).value, idna);
  }

  lemma NormalListReadsBack(p: Platform, rows: seq<string>, idna: Idna)
    requires NormalList(p, rows)
    ensures Normalize(p, Lines(rows), idna) == Ok(rows)
  {
    TokensOfLines(p, rows);
    CheckedAreCollected(p, rows, idna);
    MissingOfDistinct([], rows);
  }

  // ----- adding domains to the list -----

  predicate Blank(s: string) {
    forall i | 0 <= i < |s| :: IsSpace(s[i])
  }

  function Existing(p: Platform, current: string, idna: Idna): Result<seq<string>, DomainError> {
    if Blank(current) then Ok([]) else Normalize(p, current, idna)
  }

  function Merge(p: Platform, current: string, extra: string, idna: Idna): Result<seq<string>, DomainError> {
    match Existing(p, current, idna)
    case Err(e) => Err(e)
    case Ok(kept) =>
      match Normalize(p, extra, idna)
      case Err(e) => Err(e)
      case Ok(more) => Normalize(p, Lines(kept + more), idna)
  }

  function Without(names: seq<string>, rows: seq<string>): seq<string> {
    if names == [] then []
    else if names[0] in rows then Without(names[1..], rows)
    else [names[0]] + Without(names[1..], rows)
  }

  lemma {:induction false} MissingIsWithout(rows: seq<string>, seen: seq<string>, names: seq<string>)
    requires Distinct(names) && forall x | x in names :: x !in seen
    ensures Missing(rows + seen, names) == Without(names, rows)
    decreases names
  {
    if names != [] {
      var x := names[0];
      if x in rows {
        MissingIsWithout(rows, seen, names[1..]);
      } else {
        ConcatAssociates(rows, seen, [x]);
        MissingIsWithout(rows, seen + [x], names[1..]);
      }
    }
  }

  lemma {:induction false} MissingOfConcat(rows: seq<string>, a: seq<string>, b: seq<string>)
    requires Distinct(rows + a)
    ensures Missing(rows, a + b) == a + Missing(rows + a, b)
    decreases a
  {
    if a == [] {
      assert a + b == b && rows + a == rows;
    } else {
      var all := rows + a;
      assert all[|rows|] == a[0];
      assert forall i | 0 <= i < |rows| :: all[i] == rows[i];
      assert a[0] !in rows;
      ConcatAssociates(rows, [a[0]], a[1..]);
      assert [a[0]] + a[1..] == a;
      MissingOfConcat(rows + [a[0]], a[1..], b);
      assert (a + b)[1..] == a[1..] + b;
      ConcatAssociates([a[0]], a[1..], Missing(rows + a, b));
    }
  }

  lemma NormalizedRows(p: Platform, text: string, idna: Idna)
    requires Normalize(p, text, idna).Ok?
    ensures NormalRows(p, Normalize(p, text, idna).value) && Normalize(p, text, idna).value != []
  {
    NormalizeGivesNormal(p, text, idna);
  }

  lemma ExistingRows(p: Platform, current: string, idna: Idna)
    requires Existing(p, current, idna).Ok?
    ensures NormalRows(p, Existing(p, current, idna).value)
  {
    if !Blank(current) {
      NormalizedRows(p, current, idna);
    }
  }

  lemma AppendedIsDistinct(p: Platform, a: seq<string>, b: seq<string>)
    requires NormalRows(p, a) && NormalRows(p, b)
    ensures Distinct(a + Without(b, a))
  {
    WithoutIsFresh(b, a);
    var added := Without(b, a);
    forall i, j | 0 <= i < |a| && 0 <= j < |added| ensures a[i] != added[j] {
      assert added[j] in added;
    }
  }

  lemma ReadTwoLists(p: Platform, a: seq<string>, b: seq<string>, idna: Idna)
    requires NormalRows(p, a) && NormalRows(p, b) && b != []
    ensures var all := a + Without(b, a);
            Normalize(p, Lines(a + b), idna) == if |all| <= MAX_DOMAINS then Ok(all) else Err(Limit)
  {
    TokensOfLines(p, a + b);
    CheckedAreCollected(p, a + b, idna);
    assert [] + a == a;
    MissingOfConcat([], a, b);
    MissingIsWithout(a, [], b);
    assert a + [] == a;
    assert [] + (a + Without(b, a)) == a + Without(b, a);
  }

  /** Merging keeps the current list as a prefix and appends exactly the new
      names in their order; it fails for length only, and only above 64. */
  lemma MergeAppendsNewNames(p: Platform, current: string, extra: string, idna: Idna)
    requires Existing(p, current, idna).Ok? && Normalize(p, extra, idna).Ok?
    ensures var kept := Existing(p, current, idna).value;
            var all := kept + Without(Normalize(p, extra, idna).value, kept);
            Merge(p, current, extra, idna) == (if |all| <= MAX_DOMAINS then Ok(all) else Err(Limit))
            && Distinct(all)
  {
    var kept := Existing(p, current, idna).value;
    var more := Normalize(p, extra, idna).value;
    ExistingRows(p, current, idna);
    NormalizedRows(p, extra, idna);
    ReadTwoLists(p, kept, more, idna);
    AppendedIsDistinct(p, kept, more);
  }

  lemma {:induction false} WithoutIsFresh(names: seq<string>, rows: seq<string>)
    requires Distinct(names)
    ensures Distinct(Without(names, rows))
    ensures forall x | x in Without(names, rows) :: x in names && x !in rows
  {
    if names != [] {
      WithoutIsFresh(names[1..], rows);
    }
  }
}
