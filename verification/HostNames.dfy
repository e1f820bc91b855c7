/** Host names of Kubernetes services: the ordered, unanchored patterns that read a service and its
    namespace out of any text, and the rewriting of a host to the private service. */
module HostNames {
  import opened Runs

  // ---- Text --------------------------------------------------------------------------------

  predicate LabelChar(c: char) {
    'a' <= c <= 'z' || 'A' <= c <= 'Z' || '0' <= c <= '9' || c == '-'
  }

  predicate Digit(c: char) { '0' <= c <= '9' }

  predicate All(s: string, p: char -> bool) { forall k :: 0 <= k < |s| ==> p(s[k]) }

  predicate Label(s: string) { s != "" && All(s, LabelChar) }

  /** Where the longest run of such characters from i on ends. */
  function SpanEnd(s: string, i: nat, p: char -> bool): (j: nat)
    requires i <= |s|
    ensures i <= j <= |s| && All(s[i..j], p) && (j < |s| ==> !p(s[j]))
    decreases |s| - i
  {
    if i < |s| && p(s[i]) then
      var j := SpanEnd(s, i + 1, p);
      assert s[i..j] == [s[i]] + s[i + 1..j];
      j
    else i
  }

  lemma SpanEndIs(s: string, i: nat, j: nat, p: char -> bool)
    requires i <= j <= |s| && All(s[i..j], p) && (j < |s| ==> !p(s[j]))
    ensures SpanEnd(s, i, p) == j
  {
  }

  predicate HasAt(s: string, i: nat, t: string) { i + |t| <= |s| && s[i..i + |t|] == t }

  function Dots(s: string): nat { if s == "" then 0 else Dots(s[..|s| - 1]) + if s[|s| - 1] == '.' then 1 else 0 }

  lemma {:induction false} DotsConcat(a: string, b: string)
    ensures Dots(a + b) == Dots(a) + Dots(b)
  {
    if b == "" {
      assert a + b == a;
    } else {
      DotsConcat(a, b[..|b| - 1]);
      assert (a + b)[..|a + b| - 1] == a + b[..|b| - 1];
    }
  }

  lemma {:induction false} NoDots(s: string)
    ensures Dots(s) == 0 <==> '.' !in s
  {
    if s != "" {
      NoDots(s[..|s| - 1]);
      assert s == s[..|s| - 1] + [s[|s| - 1]];
    }
  }

  // ---- The patterns ------------------------------------------------------------------------

  /** `http://`, if asked for; one label or two with a dot between, captured; a literal tail; `:` and
      digits, if asked for; a slash and a star, if asked for. */
  datatype Pattern = Pattern(http: bool, two: bool, tailKind: Tail, port: bool, star: bool) {
    const tail: string := TailText(tailKind)
  }

  datatype Tail = NoTail | Svc | SvcCluster

  function TailText(tail: Tail): string {
    match tail
    case NoTail => ""
    case Svc => ".svc"
    case SvcCluster => ".svc.cluster.local"
  }

  const HTTP := "http://"

  const PATTERNS: seq<Pattern> := [
    Pattern(true, true, SvcCluster, true, true),
    Pattern(false, true, SvcCluster, true, true),
    Pattern(true, true, SvcCluster, true, false),
    Pattern(false, true, SvcCluster, true, false),
    Pattern(true, true, SvcCluster, false, false),
    Pattern(false, true, SvcCluster, false, false),
    Pattern(true, true, Svc, false, false),
    Pattern(false, true, Svc, false, false),
    Pattern(true, true, NoTail, false, false),
    Pattern(false, true, NoTail, false, false),
    Pattern(true, false, SvcCluster, false, false),
    Pattern(false, false, SvcCluster, false, false),
    Pattern(true, false, Svc, false, false),
    Pattern(false, false, Svc, false, false),
    Pattern(true, false, NoTail, false, false),
    Pattern(false, false, NoTail, false, false)
  ]

  datatype Match = NoMatch | One(svc: string) | Two(svc: string, ns: string)

  /** The rest of a pattern after its labels. */
  predicate Rest(p: Pattern, s: string, i: nat)
    requires i <= |s|
  {
    && HasAt(s, i, p.tail)
    && var j := i + |p.tail|;
       if p.port then
         j < |s| && s[j] == ':' && SpanEnd(s, j + 1, Digit) > j + 1
         && (p.star ==> HasAt(s, SpanEnd(s, j + 1, Digit), "/*"))
       else p.star ==> HasAt(s, j, "/*")
  }

  /** A match whose first label begins at a. A label is followed by a character that no label has, or
      by nothing the pattern asks for, so the longest run is the only candidate. */
  function MatchFrom(p: Pattern, s: string, a: nat): Match
    requires a <= |s|
  {
    var e := SpanEnd(s, a, LabelChar);
    if e == a then NoMatch
    else if !p.two then (if Rest(p, s, e) then One(s[a..e]) else NoMatch)
    else if e == |s| || s[e] != '.' then NoMatch
    else
      var f := SpanEnd(s, e + 1, LabelChar);
      if f == e + 1 || !Rest(p, s, f) then NoMatch else Two(s[a..e], s[e + 1..f])
  }

  function MatchAt(p: Pattern, s: string, i: nat): Match
    requires i <= |s|
  {
    if !p.http then MatchFrom(p, s, i)
    else if HasAt(s, i, HTTP) then MatchFrom(p, s, i + |HTTP|) else NoMatch
  }

  /** FindStringSubmatch: the leftmost match. */
  function Find(p: Pattern, s: string, i: nat): Match
    requires i <= |s|
    decreases |s| - i
  {
    if MatchAt(p, s, i) != NoMatch then MatchAt(p, s, i)
    else if i < |s| then Find(p, s, i + 1) else NoMatch
  }

  /** A text that a two-label pattern describes. */
  function Text(p: Pattern, svc: string, ns: string, digits: string): string {
    (if p.http then HTTP else "") + svc + "." + ns + p.tail
    + (if p.port then ":" + digits else "") + (if p.star then "/*" else "")
  }

  predicate Number(s: string) { s != "" && All(s, Digit) }

  lemma HasConcat(s: string, i: nat, x: string, y: string)
    ensures HasAt(s, i, x + y) <==> HasAt(s, i, x) && HasAt(s, i + |x|, y)
  {
    var m, n := i + |x|, i + |x| + |y|;
    if n <= |s| {
      assert s[i..n] == s[i..m] + s[m..n];
      assert s[i..n][..|x|] == s[i..m] && (x + y)[..|x|] == x;
      assert s[i..n][|x|..] == s[m..n] && (x + y)[|x|..] == y;
    }
  }

  function Before(p: Pattern): string { if p.http then HTTP else "" }

  function After(p: Pattern, digits: string): string {
    (if p.port then ":" + digits else "") + (if p.star then "/*" else "")
  }

  /** A described text stands at i exactly when its parts stand one after the other. */
  lemma TextParts(p: Pattern, s: string, i: nat, svc: string, ns: string, digits: string)
    ensures var a := i + |Before(p)|;
      var e := a + |svc|;
      var f := e + 1 + |ns|;
      HasAt(s, i, Text(p, svc, ns, digits))
      <==> && HasAt(s, i, Before(p)) && HasAt(s, a, svc) && HasAt(s, e, ".") && HasAt(s, e + 1, ns)
           && HasAt(s, f, p.tail) && HasAt(s, f + |p.tail|, After(p, digits))
  {
    hide HasAt, TailText;
    var x1 := Before(p) + svc;
    var x2 := x1 + ".";
    var x3 := x2 + ns;
    var x4 := x3 + p.tail;
    HasConcat(s, i, Before(p), svc);
    HasConcat(s, i, x1, ".");
    HasConcat(s, i, x2, ns);
    HasConcat(s, i, x3, p.tail);
    HasConcat(s, i, x4, After(p, digits));
    assert Text(p, svc, ns, digits) == x4 + After(p, digits);
  }

  /** The rest of a pattern stands at f exactly when its tail does, and after it a number or nothing,
      and a star or nothing, as the pattern says. */
  lemma RestIsText(p: Pattern, s: string, f: nat) returns (digits: string)
    requires f <= |s| && Rest(p, s, f)
    ensures Number(digits) && HasAt(s, f, p.tail) && HasAt(s, f + |p.tail|, After(p, digits))
  {
    hide TailText;
    var j := f + |p.tail|;
    digits := "0";
    if p.port {
      var n := SpanEnd(s, j + 1, Digit);
      digits := s[j + 1..n];
      assert s[j..n] == ":" + digits;
      HasConcat(s, j, ":" + digits, if p.star then "/*" else "");
    } else {
      HasConcat(s, j, "", if p.star then "/*" else "");
    }
  }

  lemma TextIsRest(p: Pattern, s: string, f: nat, digits: string)
    requires Number(digits) && HasAt(s, f, p.tail) && HasAt(s, f + |p.tail|, After(p, digits))
    ensures Rest(p, s, f)
  {
    hide TailText;
    var j := f + |p.tail|;
    if p.port {
      HasConcat(s, j, ":" + digits, if p.star then "/*" else "");
      HasConcat(s, j, ":", digits);
      assert s[j] == s[j..j + 1][0];
      var n := j + 1 + |digits|;
      assert s[j + 1..n][0] == s[j + 1] == digits[0];
      if p.star {
        assert s[n] == s[n..n + 2][0];
        SpanEndIs(s, j + 1, n, Digit);
      }
    } else {
      HasConcat(s, j, "", if p.star then "/*" else "");
    }
  }

  /** A match is of a text the pattern describes. */
  lemma MatchIsText(p: Pattern, s: string, i: nat) returns (digits: string)
    requires p.two && i <= |s| && MatchAt(p, s, i) != NoMatch
    ensures MatchAt(p, s, i).Two? && Label(MatchAt(p, s, i).svc) && Label(MatchAt(p, s, i).ns) && Number(digits)
    ensures HasAt(s, i, Text(p, MatchAt(p, s, i).svc, MatchAt(p, s, i).ns, digits))
  {
    hide TailText, Text, After, Rest, HasAt, MatchFrom, MatchAt, SpanEnd, Label, Number, All;
    var a := i + |Before(p)|;
    SchemeStands(p, s, i);
    LabelsOfMatch(p, s, a);
    var svc, ns := MatchFrom(p, s, a).svc, MatchFrom(p, s, a).ns;
    digits := RestIsText(p, s, a + |svc| + 1 + |ns|);
    TextParts(p, s, i, svc, ns, digits);
  }

  lemma SchemeStands(p: Pattern, s: string, i: nat)
    requires i <= |s| && MatchAt(p, s, i) != NoMatch
    ensures HasAt(s, i, Before(p)) && i + |Before(p)| <= |s| && MatchAt(p, s, i) == MatchFrom(p, s, i + |Before(p)|)
  {
    hide MatchFrom;
  }

  /** Where the labels of a match stand. */
  lemma LabelsOfMatch(p: Pattern, s: string, a: nat)
    requires p.two && a <= |s| && MatchFrom(p, s, a) != NoMatch
    ensures MatchFrom(p, s, a).Two?
    ensures var svc, ns := MatchFrom(p, s, a).svc, MatchFrom(p, s, a).ns;
      var e := a + |svc|;
      var f := e + 1 + |ns|;
      && Label(svc) && Label(ns) && f <= |s|
      && HasAt(s, a, svc) && HasAt(s, e, ".") && HasAt(s, e + 1, ns) && Rest(p, s, f)
  {
    hide Rest, TailText;
    var e := SpanEnd(s, a, LabelChar);
    assert s[e..e + 1] == ".";
  }

  /** A text the pattern describes is matched wherever it stands, and with its own labels; only where
      nothing follows the second label can that label extend further. */
  lemma TextMatches(p: Pattern, s: string, i: nat, svc: string, ns: string, digits: string)
    requires p.two && Label(svc) && Label(ns) && Number(digits) && HasAt(s, i, Text(p, svc, ns, digits))
    requires p.tailKind.NoTail? ==> !p.port && !p.star
    ensures MatchAt(p, s, i).Two? && MatchAt(p, s, i).svc == svc && ns <= MatchAt(p, s, i).ns
    ensures !p.tailKind.NoTail? ==> MatchAt(p, s, i).ns == ns
  {
    hide Text, After, Rest, HasAt, TailText, MatchFrom, SpanEnd, Label, Number, All;
    TextParts(p, s, i, svc, ns, digits);
    LabelsMatch(p, s, i + |Before(p)|, svc, ns, digits);
  }

  lemma LabelsMatch(p: Pattern, s: string, a: nat, svc: string, ns: string, digits: string)
    requires p.two && Label(svc) && Label(ns) && Number(digits)
    requires p.tailKind.NoTail? ==> !p.port && !p.star
    requires var e := a + |svc|;
      var f := e + 1 + |ns|;
      && HasAt(s, a, svc) && HasAt(s, e, ".") && HasAt(s, e + 1, ns)
      && HasAt(s, f, p.tail) && HasAt(s, f + |p.tail|, After(p, digits))
    ensures MatchFrom(p, s, a).Two? && MatchFrom(p, s, a).svc == svc && ns <= MatchFrom(p, s, a).ns
    ensures !p.tailKind.NoTail? ==> MatchFrom(p, s, a).ns == ns
  {
    hide Rest, After, TailText;
    var e := a + |svc|;
    assert s[e] == s[e..e + 1][0];
    assert SpanEnd(s, a, LabelChar) == e by { SpanEndIs(s, a, e, LabelChar); }
    SecondLabel(p, s, e + 1, ns, digits);
  }

  lemma SecondLabel(p: Pattern, s: string, b: nat, ns: string, digits: string)
    requires Label(ns) && Number(digits) && HasAt(s, b, ns)
    requires p.tailKind.NoTail? ==> !p.port && !p.star
    requires HasAt(s, b + |ns|, p.tail) && HasAt(s, b + |ns| + |p.tail|, After(p, digits))
    ensures var g := SpanEnd(s, b, LabelChar);
      b < g && Rest(p, s, g) && ns <= s[b..g] && (!p.tailKind.NoTail? ==> ns == s[b..g])
  {
    hide After;
    var f := b + |ns|;
    if p.tailKind.NoTail? {
      var g := SpanEnd(s, b, LabelChar);
      SpanCovers(s, b, f, LabelChar);
      assert s[b..g][..|ns|] == ns;
      NoTailRests(p, s, g);
    } else {
      assert s[f] == s[f..f + |p.tail|][0];
      SpanEndIs(s, b, f, LabelChar);
      TextIsRest(p, s, f, digits);
    }
  }

  lemma NoTailRests(p: Pattern, s: string, g: nat)
    requires p.tailKind.NoTail? && !p.port && !p.star && g <= |s|
    ensures Rest(p, s, g)
  {
  }

  lemma SpanCovers(s: string, i: nat, j: nat, p: char -> bool)
    requires i <= j <= |s| && All(s[i..j], p)
    ensures SpanEnd(s, i, p) >= j
  {
    assert forall k :: i <= k < j ==> s[k] == s[i..j][k - i];
  }

  // ---- Reading a host ----------------------------------------------------------------------

  datatype Extracted = Ok(svc: string, ns: string) | NoNamespace(svc: string) | Invalid

  function ExtractFrom(s: string, k: nat): Extracted
    requires k <= |PATTERNS|
    decreases |PATTERNS| - k
  {
    if k == |PATTERNS| then Invalid
    else match Find(PATTERNS[k], s, 0)
      case Two(svc, ns) => Ok(svc, ns)
      case One(svc) => NoNamespace(svc)
      case NoMatch => ExtractFrom(s, k + 1)
  }

  function Extract(s: string): Extracted { ExtractFrom(s, 0) }

  /** extractNamespaceAndService: the loop over the patterns. */
  method ExtractNamespaceAndService(url: string) returns (r: Extracted)
    ensures r == Extract(url)
    ensures r.Ok? ==> exists k :: 0 <= k < |PATTERNS| && Find(PATTERNS[k], url, 0) == Two(r.svc, r.ns)
                                 && forall i :: 0 <= i < k ==> Find(PATTERNS[i], url, 0) == NoMatch
  {
    hide Find, TailText;
    for k := 0 to |PATTERNS|
      invariant Extract(url) == ExtractFrom(url, k)
      invariant forall i :: 0 <= i < k ==> Find(PATTERNS[i], url, 0) == NoMatch
    {
      match Find(PATTERNS[k], url, 0)
      case Two(svc, ns) => return Ok(svc, ns);
      case One(svc) => return NoNamespace(svc);
      case NoMatch =>
    }
    return Invalid;
  }

  // ---- Well-formed hosts -------------------------------------------------------------------

  /** `svc.ns`, `svc.ns.svc` or `svc.ns.svc.cluster.local`, perhaps with a scheme, a port, and a path
      without dots. */
  datatype Host = Host(http: bool, svc: string, ns: string, tail: Tail, port: string, path: string)

  predicate WellFormed(h: Host) {
    && Label(h.svc) && Label(h.ns)
    && (h.port == "" || (|h.port| > 1 && h.port[0] == ':' && All(h.port[1..], Digit)))
    && (h.path == "" || (h.path[0] == '/' && '.' !in h.path))
  }

  function Scheme(h: Host): string { if h.http then HTTP else "" }

  function Suffix(h: Host): string { TailText(h.tail) + h.port + h.path }

  function Show(h: Host): string { Scheme(h) + h.svc + "." + h.ns + Suffix(h) }

  function DotCount(h: Host): nat {
    match h.tail
    case NoTail => 1
    case Svc => 2
    case SvcCluster => 4
  }

  lemma DotsOfTails()
    ensures Dots("") == 0 && Dots(".svc") == 1 && Dots(".svc.cluster.local") == 3
  {
    NoDots("svc"); NoDots("cluster"); NoDots("local");
    DotsConcat(".", "svc");
    DotsConcat(".svc", ".");
    DotsConcat(".svc.", "cluster");
    DotsConcat(".svc.cluster", ".");
    DotsConcat(".svc.cluster.", "local");
    assert "." + "svc" == ".svc" && ".svc" + "." == ".svc." && ".svc." + "cluster" == ".svc.cluster";
    assert ".svc.cluster" + "." == ".svc.cluster." && ".svc.cluster." + "local" == ".svc.cluster.local";
  }

  lemma DotsOfTail(h: Host)
    ensures Dots(TailText(h.tail)) == DotCount(h) - 1
  {
    DotsOfTails();
    hide Dots;
  }

  lemma DotsOfSuffix(h: Host)
    requires WellFormed(h)
    ensures Dots(Suffix(h)) == DotCount(h) - 1
  {
    hide TailText, Dots, DotCount;
    var tail := TailText(h.tail);
    NoDots(h.port); NoDots(h.path);
    DotsConcat(tail + h.port, h.path);
    DotsConcat(tail, h.port);
    DotsOfTail(h);
  }

  lemma DotsOfHost(h: Host)
    requires WellFormed(h)
    ensures Dots(Show(h)) == DotCount(h)
    ensures Dots(h.ns + Suffix(h)) == DotCount(h) - 1
  {
    NoDots(Scheme(h)); NoDots(h.svc); NoDots(h.ns);
    assert Dots(".") == 1;
    hide Dots, DotCount, Suffix, TailText;
    DotsOfSuffix(h);
    DotsConcat(h.ns, Suffix(h));
    DotsConcat(Scheme(h) + h.svc + ".", h.ns + Suffix(h));
    DotsConcat(Scheme(h) + h.svc, ".");
    DotsConcat(Scheme(h), h.svc);
    assert Show(h) == (Scheme(h) + h.svc + ".") + (h.ns + Suffix(h));
  }

  lemma RestNeedsDots(p: Pattern, s: string, f: nat)
    requires f <= |s| && Rest(p, s, f)
    ensures Dots(s[f..]) >= Dots(p.tail)
  {
    hide Dots, TailText;
    assert s[f..] == p.tail + s[f + |p.tail|..];
    DotsConcat(p.tail, s[f + |p.tail|..]);
  }

  /** A match uses up the dots its pattern asks for. */
  lemma MatchNeedsDots(p: Pattern, s: string, a: nat)
    requires p.two && a <= |s| && MatchFrom(p, s, a) != NoMatch
    ensures Dots(s[a..]) >= Dots(p.tail) + 1
  {
    hide Dots, TailText, Rest, SpanEnd, MatchFrom;
    LabelsOfMatch(p, s, a);
    var svc, ns := MatchFrom(p, s, a).svc, MatchFrom(p, s, a).ns;
    var e := a + |svc|;
    var f := e + 1 + |ns|;
    RestNeedsDots(p, s, f);
    assert s[a..] == svc + "." + ns + s[f..];
    DotsConcat(svc + "." + ns, s[f..]);
    DotsConcat(svc + ".", ns);
    DotsConcat(svc, ".");
    NoDots(".");
  }

  lemma MatchAtNeedsDots(p: Pattern, s: string, i: nat)
    requires p.two && i <= |s| && MatchAt(p, s, i) != NoMatch
    ensures Dots(s) >= Dots(p.tail) + 1
  {
    hide Dots, TailText, MatchFrom, MatchAt, HasAt;
    var a := i + |Before(p)|;
    SchemeStands(p, s, i);
    MatchNeedsDots(p, s, a);
    DotsConcat(s[..a], s[a..]);
    assert s == s[..a] + s[a..];
  }

  lemma {:induction false} FindNothing(p: Pattern, s: string, i: nat)
    requires p.two && i <= |s| && Dots(s) < Dots(p.tail) + 1
    ensures Find(p, s, i) == NoMatch
    decreases |s| - i
  {
    hide Dots, MatchAt, TailText;
    if MatchAt(p, s, i) != NoMatch {
      MatchAtNeedsDots(p, s, i);
    } else if i < |s| {
      FindNothing(p, s, i + 1);
    }
  }

  /** What follows the labels does not go on with a label. */
  lemma SuffixEndsLabel(h: Host)
    requires WellFormed(h) && Suffix(h) != ""
    ensures !LabelChar(Suffix(h)[0])
  {
  }

  /** Where the labels of a shown host are, and what follows them. */
  lemma Layout(h: Host)
    requires WellFormed(h)
    ensures var s, a := Show(h), |Scheme(h)|;
      var e := a + |h.svc|;
      var f := e + 1 + |h.ns|;
      && e < f <= |s|
      && s[a..e] == h.svc && s[e] == '.' && s[e + 1..f] == h.ns && s[f..] == Suffix(h)
      && SpanEnd(s, a, LabelChar) == e && SpanEnd(s, e + 1, LabelChar) == f
      && (a > 0 ==> a == |HTTP| && s[a - 1] == '/' && HasAt(s, 0, HTTP))
  {
    hide Suffix;
    var s, a := Show(h), |Scheme(h)|;
    var e := a + |h.svc|;
    var f := e + 1 + |h.ns|;
    assert s[a..e] == h.svc && s[e] == '.' && s[e + 1..f] == h.ns && s[f..] == Suffix(h);
    if f < |s| {
      SuffixEndsLabel(h);
      assert s[f] == Suffix(h)[0];
    }
    SpanEndIs(s, a, e, LabelChar);
    SpanEndIs(s, e + 1, f, LabelChar);
    if h.http {
      assert s[..|HTTP|] == HTTP;
      assert s[|HTTP| - 1] == HTTP[|HTTP| - 1];
    }
  }

  /** A match that needs every dot of the host begins no later than the first of them. */
  lemma NotAfterFirstDot(p: Pattern, h: Host, a: nat)
    requires WellFormed(h) && p.two && Dots(p.tail) + 1 == DotCount(h)
    requires a <= |Show(h)| && MatchFrom(p, Show(h), a) != NoMatch
    ensures a <= |Scheme(h)| + |h.svc|
  {
    hide Show, Suffix, Dots, MatchFrom, SpanEnd, Rest;
    var s, fd := Show(h), |Scheme(h)| + |h.svc|;
    MatchNeedsDots(p, s, a);
    DotsOfHost(h);
    Layout(h);
    if a > fd {
      assert s[fd + 1..] == s[fd + 1..fd + 1 + |h.ns|] + s[fd + 1 + |h.ns|..];
      assert s[fd + 1..] == s[fd + 1..a] + s[a..];
      DotsConcat(s[fd + 1..a], s[a..]);
    }
  }

  /** No dot comes before the end of the service name. */
  lemma FirstDot(h: Host, e: nat)
    requires WellFormed(h) && e < |Scheme(h)| + |h.svc|
    ensures Show(h)[e] != '.'
  {
    var b := |Scheme(h)|;
    if e < b {
      assert Show(h)[e] == HTTP[e];
    } else {
      assert Show(h)[e] == h.svc[e - b];
    }
  }

  /** A run of label characters that ends at a dot, and begins before the first dot, is within the
      service name and ends with it. */
  lemma RunIsInService(h: Host, a: nat)
    requires WellFormed(h) && a <= |Scheme(h)| + |h.svc|
    requires var e := SpanEnd(Show(h), a, LabelChar); a < e < |Show(h)| && Show(h)[e] == '.'
    ensures SpanEnd(Show(h), a, LabelChar) == |Scheme(h)| + |h.svc| && a >= |Scheme(h)|
  {
    var s, b, fd := Show(h), |Scheme(h)|, |Scheme(h)| + |h.svc|;
    var e := SpanEnd(s, a, LabelChar);
    Layout(h);
    assert forall k :: a <= k < e ==> s[k] == s[a..e][k - a];
    if e < fd {
      FirstDot(h, e);
    }
  }

  /** When a pattern with two labels needs every dot of the host, its first label lies in the service
      name, and it also matches with that whole name. */
  lemma FirstLabel(p: Pattern, h: Host, a: nat)
    requires WellFormed(h) && p.two && Dots(p.tail) + 1 == DotCount(h)
    requires a <= |Show(h)| && MatchFrom(p, Show(h), a) != NoMatch
    ensures |Scheme(h)| <= a < |Scheme(h)| + |h.svc|
    ensures MatchFrom(p, Show(h), |Scheme(h)|) == Two(h.svc, h.ns)
  {
    hide Show, Suffix, Dots, Rest, TailText, WellFormed, HasAt, DotCount, Scheme;
    NotAfterFirstDot(p, h, a);
    RunIsInService(h, a);
    Layout(h);
  }

  /** With `http://` before it, the label begins right after the scheme. */
  lemma AfterScheme(h: Host, i: nat)
    requires WellFormed(h) && HasAt(Show(h), i, HTTP)
    requires |Scheme(h)| <= i + |HTTP| < |Scheme(h)| + |h.svc|
    ensures i + |HTTP| == |Scheme(h)| && h.http
  {
    hide Show, Suffix, SpanEnd;
    var s, a, b := Show(h), i + |HTTP|, |Scheme(h)|;
    Layout(h);
    assert forall k :: b <= k < b + |h.svc| ==> s[k] == s[b..b + |h.svc|][k - b];
    assert s[a - 1] == s[i..a][|HTTP| - 1] == '/';
  }

  /** So the leftmost match, if there is one, is of the host's own labels. */
  lemma {:induction false} FindsHost(p: Pattern, h: Host, i: nat)
    requires WellFormed(h) && p.two && Dots(p.tail) + 1 == DotCount(h) && i <= |Show(h)|
    ensures i <= (if p.http then 0 else |Scheme(h)|) ==> Find(p, Show(h), i) in {NoMatch, Two(h.svc, h.ns)}
    ensures p.http && i > 0 ==> Find(p, Show(h), i) == NoMatch
    ensures MatchFrom(p, Show(h), |Scheme(h)|) == NoMatch ==> Find(p, Show(h), i) == NoMatch
    decreases |Show(h)| - i
  {
    hide Show, Suffix, Dots, Rest, MatchFrom, SpanEnd;
    var a := if p.http then i + |HTTP| else i;
    if MatchAt(p, Show(h), i) != NoMatch {
      FirstLabel(p, h, a);
      if p.http {
        AfterScheme(h, i);
      }
    } else if i < |Show(h)| {
      FindsHost(p, h, i + 1);
    }
  }

  lemma {:induction false} FindReaches(p: Pattern, s: string, i: nat, j: nat)
    requires i <= j <= |s| && MatchAt(p, s, j) != NoMatch
    ensures Find(p, s, i) != NoMatch
    decreases j - i
  {
    if i < j && MatchAt(p, s, i) == NoMatch {
      FindReaches(p, s, i + 1, j);
    }
  }

  /** The pattern that is sure to match: without scheme and port, as long as the host. */
  function Sure(h: Host): nat {
    match h.tail
    case NoTail => 9
    case Svc => 7
    case SvcCluster => 5
  }

  lemma SuffixBegins(h: Host)
    ensures |TailText(h.tail)| <= |Suffix(h)| && Suffix(h)[..|TailText(h.tail)|] == TailText(h.tail)
  {
    hide TailText;
  }

  lemma TailMatches(p: Pattern, h: Host)
    requires WellFormed(h) && !p.http && p.two && !p.port && !p.star
    requires |p.tail| <= |Suffix(h)| && Suffix(h)[..|p.tail|] == p.tail
    ensures Find(p, Show(h), 0) != NoMatch
  {
    hide Show, Suffix, SpanEnd, Find, TailText;
    var s, f := Show(h), |Scheme(h)| + |h.svc| + 1 + |h.ns|;
    Layout(h);
    assert s[f..][..|p.tail|] == s[f..f + |p.tail|];
    assert Rest(p, s, f);
    FindReaches(p, s, 0, |Scheme(h)|);
  }

  lemma SureMatches(h: Host)
    requires WellFormed(h)
    ensures Find(PATTERNS[Sure(h)], Show(h), 0) != NoMatch
  {
    hide Show, Suffix, Find, TailText;
    SuffixBegins(h);
    TailMatches(PATTERNS[Sure(h)], h);
  }

  /** Until then every pattern either finds nothing or finds the host's labels. */
  lemma {:induction false} ExtractsFrom(h: Host, k: nat)
    requires WellFormed(h) && k <= Sure(h)
    ensures ExtractFrom(Show(h), k) == Ok(h.svc, h.ns)
    decreases Sure(h) - k
  {
    hide Show, Suffix, Dots, Find;
    var p := PATTERNS[k];
    DotsOfTails();
    DotsOfHost(h);
    SureMatches(h);
    assert p.two && p.tailKind == if k < 6 then SvcCluster else if k < 8 then Svc else NoTail;
    if Dots(p.tail) + 1 == DotCount(h) {
      FindsHost(p, h, 0);
    } else {
      FindNothing(p, Show(h), 0);
    }
    if k < Sure(h) {
      ExtractsFrom(h, k + 1);
    }
  }

  /** Every well-formed host, with or without scheme, tail, port and path, reads back as its own service and
      namespace. */
  lemma ReadsBack(h: Host)
    requires WellFormed(h)
    ensures Extract(Show(h)) == Ok(h.svc, h.ns)
  {
    ExtractsFrom(h, 0);
  }

  // ---- Which texts are accepted ------------------------------------------------------------

  /** Two labels with a dot between them stand at i. */
  predicate TwoLabelsAt(s: string, i: nat, svc: string, ns: string) {
    Label(svc) && Label(ns) && HasAt(s, i, svc + "." + ns)
  }

  lemma {:induction false} FindIsMatch(p: Pattern, s: string, i: nat) returns (j: nat)
    requires i <= |s| && Find(p, s, i) != NoMatch
    ensures i <= j <= |s| && Find(p, s, i) == MatchAt(p, s, j)
    decreases |s| - i
  {
    j := i;
    if MatchAt(p, s, i) == NoMatch {
      j := FindIsMatch(p, s, i + 1);
    }
  }

  /** Of two forms of a host the stronger one is read: first by what follows the labels, then by the scheme
      before them. */
  function Strength(p: Pattern): nat {
    (if p.star then 8 else if p.port then 6 else if p.tailKind.SvcCluster? then 4 else if p.tailKind.Svc? then 2 else 0)
    + if p.http then 1 else 0
  }

  /** The ten forms a host with two labels can have. */
  predicate TwoLabelForm(p: Pattern) {
    p.two && (p.star ==> p.port) && (p.port ==> p.tailKind.SvcCluster?)
  }

  lemma {:induction false} ReadsFrom(s: string, m: nat, k: nat) returns (n: nat, j: nat, digits: string)
    requires m <= k < 10 && Find(PATTERNS[k], s, 0) != NoMatch
    ensures m <= n <= k && ExtractFrom(s, m).Ok? && Number(digits)
    ensures HasAt(s, j, Text(PATTERNS[n], ExtractFrom(s, m).svc, ExtractFrom(s, m).ns, digits))
    decreases k - m
  {
    hide Find, Text, HasAt;
    if Find(PATTERNS[m], s, 0) == NoMatch {
      n, j, digits := ReadsFrom(s, m + 1, k);
    } else {
      n := m;
      j := FindIsMatch(PATTERNS[m], s, 0);
      digits := MatchIsText(PATTERNS[m], s, j);
    }
  }

  /** Wherever a host of some form stands in a text, the text is accepted, and what is read stands in it in a
      form at least as strong. */
  lemma StrongestWins(q: Pattern, s: string, i: nat, svc: string, ns: string, digits: string)
    returns (p: Pattern, j: nat, number: string)
    requires TwoLabelForm(q) && Label(svc) && Label(ns) && Number(digits) && HasAt(s, i, Text(q, svc, ns, digits))
    ensures TwoLabelForm(p) && Strength(p) >= Strength(q) && Extract(s).Ok? && Number(number)
    ensures HasAt(s, j, Text(p, Extract(s).svc, Extract(s).ns, number))
  {
    hide Find, Text, HasAt, Number;
    var k := 9 - Strength(q);
    assert PATTERNS[k] == q;
    TextMatches(q, s, i, svc, ns, digits);
    assert i <= |s| by { HasAtFits(s, i, Text(q, svc, ns, digits)); }
    FindReaches(q, s, 0, i);
    var n;
    n, j, number := ReadsFrom(s, 0, k);
    p := PATTERNS[n];
  }

  lemma HasAtFits(s: string, i: nat, t: string)
    requires HasAt(s, i, t)
    ensures i + |t| <= |s|
  {
  }

  lemma {:induction false} OkMeans(s: string, k: nat) returns (i: nat, svc: string, ns: string)
    requires k <= |PATTERNS| && ExtractFrom(s, k).Ok?
    ensures ExtractFrom(s, k) == Ok(svc, ns) && TwoLabelsAt(s, i, svc, ns)
    decreases |PATTERNS| - k
  {
    hide Find;
    if Find(PATTERNS[k], s, 0) == NoMatch {
      i, svc, ns := OkMeans(s, k + 1);
    } else {
      var p := PATTERNS[k];
      var j := FindIsMatch(p, s, 0);
      i, svc, ns := TwoLabels(p, s, j);
    }
  }

  lemma TwoLabels(p: Pattern, s: string, j: nat) returns (i: nat, svc: string, ns: string)
    requires j <= |s| && MatchAt(p, s, j).Two?
    ensures MatchAt(p, s, j) == Two(svc, ns) && TwoLabelsAt(s, i, svc, ns)
  {
    hide Text, TailText, After, HasAt;
    var digits := MatchIsText(p, s, j);
    svc, ns := MatchAt(p, s, j).svc, MatchAt(p, s, j).ns;
    i := j + |Before(p)|;
    TextParts(p, s, j, svc, ns, digits);
    HasConcat(s, i, svc, ".");
    HasConcat(s, i, svc + ".", ns);
  }

  /** A host is accepted if and only if two labels with a dot between them stand anywhere in it; and what
      is read are two such labels. */
  lemma AcceptedIff(s: string)
    ensures Extract(s).Ok? <==> exists i: nat, svc: string, ns: string :: TwoLabelsAt(s, i, svc, ns)
    ensures Extract(s).Ok? ==> exists i: nat :: TwoLabelsAt(s, i, Extract(s).svc, Extract(s).ns)
  {
    if Extract(s).Ok? {
      var i, svc, ns := OkMeans(s, 0);
    }
    if i: nat, svc: string, ns: string :| TwoLabelsAt(s, i, svc, ns) {
      var p := PATTERNS[9];
      assert Text(p, svc, ns, "0") == svc + "." + ns;
      var q, j, digits := StrongestWins(p, s, i, svc, ns, "0");
    }
  }

  /** A text with a label character has its longest label there as a match of the last pattern. */
  lemma LabelMatches(s: string, i: nat)
    requires i < |s| && LabelChar(s[i])
    ensures MatchAt(PATTERNS[15], s, i).One?
  {
    assert TailText(NoTail) == "";
    assert SpanEnd(s, i, LabelChar) >= i + 1;
  }

  lemma {:induction false} NotInvalidFrom(s: string, k: nat)
    requires k <= 15 && Find(PATTERNS[15], s, 0) != NoMatch
    ensures !ExtractFrom(s, k).Invalid?
    decreases 15 - k
  {
    hide Find;
    if k < 15 && Find(PATTERNS[k], s, 0) == NoMatch {
      NotInvalidFrom(s, k + 1);
    }
  }

  lemma {:induction false} NothingFound(p: Pattern, s: string, i: nat)
    requires i <= |s| && forall k :: 0 <= k < |s| ==> !LabelChar(s[k])
    ensures Find(p, s, i) == NoMatch
    decreases |s| - i
  {
    hide Rest;
    if i < |s| {
      NothingFound(p, s, i + 1);
    }
  }

  lemma {:induction false} InvalidFrom(s: string, k: nat)
    requires k <= |PATTERNS| && forall i :: 0 <= i < |s| ==> !LabelChar(s[i])
    ensures ExtractFrom(s, k).Invalid?
    decreases |PATTERNS| - k
  {
    hide Find;
    if k < |PATTERNS| {
      NothingFound(PATTERNS[k], s, 0);
      InvalidFrom(s, k + 1);
    }
  }

  /** A text is refused as no host at all if and only if it has not one label character; so a text that is
      refused for its missing namespace has a label, but never two with a dot between them. */
  lemma InvalidIff(s: string)
    ensures Extract(s).Invalid? <==> forall k :: 0 <= k < |s| ==> !LabelChar(s[k])
  {
    hide Find, MatchAt;
    if k :| 0 <= k < |s| && LabelChar(s[k]) {
      LabelMatches(s, k);
      FindReaches(PATTERNS[15], s, 0, k);
      NotInvalidFrom(s, 0);
    } else {
      InvalidFrom(s, 0);
    }
  }
}
