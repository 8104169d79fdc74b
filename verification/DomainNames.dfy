/** Dotted host names: splitting at dots, joining, and the fact every domain
    decision rests on: `host == d or host.endswith("." + d)` compares labels. */
module DomainNames {
  import opened Prelude

  /** The labels of `[c] + s`, given the labels of `s`. */
  function PushChar(c: char, labels: seq<string>): (r: seq<string>)
    requires |labels| >= 1
    ensures |r| >= 1
  {
    if c == '.' then [""] + labels else [[c] + labels[0]] + labels[1..]
  }

  function Split(s: string): (labels: seq<string>)
    ensures |labels| >= 1
  {
    if s == "" then [""] else PushChar(s[0], Split(s[1..]))
  }

  function Join(labels: seq<string>): string
    requires |labels| >= 1
  {
    if |labels| == 1 then labels[0] else labels[0] + ("." + Join(labels[1..]))
  }

  predicate IsLdh(c: char) {
    'a' <= c <= 'z' || '0' <= c <= '9' || c == '-'
  }

  predicate PlainAscii(s: string) {
    forall i | 0 <= i < |s| :: IsLdh(s[i]) || s[i] == '.'
  }

  predicate IsDigits(x: string) {
    x != "" && forall i | 0 <= i < |x| :: '0' <= x[i] <= '9'
  }

  /** The label pattern of the program: 1 to 63 letters, digits or hyphens,
      with a letter or digit at both ends. */
  predicate IsLabel(x: string) {
    && 1 <= |x| <= 63
    && (forall i | 0 <= i < |x| :: IsLdh(x[i]))
    && x[0] != '-' && x[|x| - 1] != '-'
  }

  predicate AllLabels(labels: seq<string>) {
    forall i | 0 <= i < |labels| :: IsLabel(labels[i])
  }

  /** `tail` is the end of the label list `labels`. */
  predicate LabelSuffix(labels: seq<string>, tail: seq<string>) {
    |tail| <= |labels| && labels[|labels| - |tail|..] == tail
  }

  predicate MatchesDomain(host: string, domain: string) {
    host == domain || EndsWith(host, "." + domain)
  }

  lemma PushedJoin(head: string, rest: seq<string>)
    ensures Join([head] + rest) == if rest == [] then head else head + ("." + Join(rest))
  {
    assert ([head] + rest)[1..] == rest;
  }

  lemma JoinOfLetter(c: char, labels: seq<string>)
    requires |labels| >= 1
    ensures Join([[c] + labels[0]] + labels[1..]) == [c] + Join(labels)
  {
    var head, rest := labels[0], labels[1..];
    PushedJoin([c] + head, rest);
    PushedJoin(head, rest);
    assert [head] + rest == labels;
    if rest != [] {
      ConcatAssociates([c], head, "." + Join(rest));
    }
  }

  lemma JoinOfPush(c: char, labels: seq<string>)
    requires |labels| >= 1
    ensures Join(PushChar(c, labels)) == [c] + Join(labels)
  {
    if c == '.' {
      PushedJoin("", labels);
    } else {
      JoinOfLetter(c, labels);
    }
  }

  lemma {:induction false} JoinOfSplit(s: string)
    ensures Join(Split(s)) == s
  {
    if s != "" {
      JoinOfSplit(s[1..]);
      JoinOfPush(s[0], Split(s[1..]));
    }
  }

  lemma PushOfConcat(c: char, a: seq<string>, b: seq<string>)
    requires |a| >= 1
    ensures PushChar(c, a + b) == PushChar(c, a) + b
  {
    if c != '.' {
      assert (a + b)[1..] == a[1..] + b;
    }
  }

  lemma {:induction false} SplitOfConcat(a: string, b: string)
    ensures Split(a + ("." + b)) == Split(a) + Split(b)
  {
    var whole := a + ("." + b);
    if a == "" {
      assert whole[1..] == b;
    } else {
      SplitOfConcat(a[1..], b);
      assert whole[1..] == a[1..] + ("." + b);
      PushOfConcat(a[0], Split(a[1..]), Split(b));
    }
  }

  lemma {:induction false} JoinOfConcat(a: seq<string>, b: seq<string>)
    requires |a| >= 1 && |b| >= 1
    ensures Join(a + b) == Join(a) + ("." + Join(b))
  {
    assert (a + b)[1..] == a[1..] + b;
    if |a| == 1 {
      assert (a + b)[1..] == b;
    } else {
      JoinOfConcat(a[1..], b);
    }
  }

  lemma MatchGivesLabelSuffix(host: string, domain: string)
    requires MatchesDomain(host, domain)
    ensures LabelSuffix(Split(host), Split(domain))
  {
    if host != domain {
      var a := host[..|host| - |domain| - 1];
      assert host == a + ("." + domain);
      SplitOfConcat(a, domain);
    }
  }

  lemma EndsAfterDot(front: string, domain: string)
    ensures MatchesDomain(front + ("." + domain), domain)
  {
    var host, tail := front + ("." + domain), "." + domain;
    assert host[|host| - |tail|..] == tail;
  }

  lemma LabelSuffixGivesMatch(host: string, domain: string)
    requires LabelSuffix(Split(host), Split(domain))
    ensures MatchesDomain(host, domain)
  {
    JoinOfSplit(host);
    JoinOfSplit(domain);
    JoinedSuffixMatches(Split(host), Split(domain));
  }

  lemma JoinedSuffixMatches(h: seq<string>, d: seq<string>)
    requires |d| >= 1 && LabelSuffix(h, d)
    ensures MatchesDomain(Join(h), Join(d))
  {
    var p := h[..|h| - |d|];
    assert h == p + d;
    if p != [] {
      JoinOfConcat(p, d);
      EndsAfterDot(Join(p), Join(d));
    }
  }

  /** The string test used by all three deciders is exactly the label test. */
  lemma MatchesIsLabelSuffix(host: string, domain: string)
    ensures MatchesDomain(host, domain) <==> LabelSuffix(Split(host), Split(domain))
  {
    if MatchesDomain(host, domain) {
      MatchGivesLabelSuffix(host, domain);
    }
    if LabelSuffix(Split(host), Split(domain)) {
      LabelSuffixGivesMatch(host, domain);
    }
  }

  /** A host made of labels has only label characters and dots, and is neither
      empty nor framed by dots. */
  lemma {:induction false} LabelsShape(s: string)
    requires AllLabels(Split(s))
    ensures s != "" && s[0] != '.' && s[|s| - 1] != '.' && PlainAscii(s)
  {
    JoinOfSplit(s);
    JoinShape(Split(s));
  }

  lemma {:induction false} JoinShape(labels: seq<string>)
    requires |labels| >= 1 && AllLabels(labels)
    ensures var s := Join(labels);
            s != "" && s[0] != '.' && s[|s| - 1] != '.' && PlainAscii(s)
  {
    assert IsLabel(labels[0]);
    if |labels| > 1 {
      JoinShape(labels[1..]);
    }
  }
}
