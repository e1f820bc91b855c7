/** From an incoming host to the public and the private service behind it, and the cache of that. */
module HostRewrite {
  import opened Runs
  import opened HostNames

  predicate NotSlash(c: char) { c != '/' }

  predicate NotDot(c: char) { c != '.' }

  /** The text before the first slash. */
  function Authority(s: string): string { s[..SpanEnd(s, 0, NotSlash)] }

  function RemoveTrailingWildcard(s: string): string {
    if |s| >= 2 && s[|s| - 2..] == "/*" then s[..|s| - 2] else s
  }

  function RemoveTrailingPath(s: string): string {
    var i := SpanEnd(s, 0, NotSlash);
    if i < |s| then s[..i] else s
  }

  function AddHTTP(s: string): string {
    if !HasAt(s, 0, HTTP) && !HasAt(s, 0, "https://") then HTTP + s else s
  }

  function Split(s: string): seq<string>
    decreases |s|
  {
    var d := SpanEnd(s, 0, NotDot);
    if d == |s| then [s] else [s[..d]] + Split(s[d + 1..])
  }

  function Join(parts: seq<string>): string
    requires parts != []
  {
    if |parts| == 1 then parts[0] else parts[0] + "." + Join(parts[1..])
  }

  function ReplaceServiceName(s: string, name: string): string {
    var parts := Split(s);
    if |parts| < 3 then s else Join(parts[0 := name])
  }

  type Hash = string -> string

  predicate HexChar(c: char) { 'a' <= c <= 'f' || '0' <= c <= '9' }

  /** All that is used of the hash: ten lower-case hexadecimal characters. */
  ghost predicate TenHex(hash: Hash) { forall x :: |hash(x)| == 10 && All(hash(x), HexChar) }

  function PrivateName(hash: Hash, svc: string): string { "elasti-" + svc + "-pvt" + "-" + hash(svc) }

  datatype Cached = Cached(incoming: string, namespace: string, sourceService: string, targetService: string,
                           sourceHost: string, targetHost: string, trafficAllowed: bool)

  function SourceHost(incoming: string): string {
    AddHTTP(RemoveTrailingPath(RemoveTrailingWildcard(incoming)))
  }

  function TargetHost(incoming: string, name: string): string {
    AddHTTP(ReplaceServiceName(SourceHost(incoming), name))
  }

  /** What GetHost makes of a host it does not know. */
  function Compute(hash: Hash, incoming: string): Option<Cached> {
    match Extract(incoming)
    case Ok(svc, ns) =>
      var name := PrivateName(hash, svc);
      Some(Cached(incoming, ns, svc, name, SourceHost(incoming), TargetHost(incoming, name), true))
    case _ => None
  }

  // ---- What the rewriting does to any text -------------------------------------------------

  /** Whatever comes in, the source host is its text before the first slash, behind `http://`. */
  lemma SourceHostIs(s: string)
    ensures SourceHost(s) == HTTP + Authority(s)
  {
    var i := SpanEnd(s, 0, NotSlash);
    var w := RemoveTrailingWildcard(s);
    if w != s {
      assert s[|s| - 2] == s[|s| - 2..][0] == '/';
      SpanStopsBy(s, |s| - 2);
      assert w[..i] == s[..i];
      SpanEndIs(w, 0, i, NotSlash);
    }
    assert RemoveTrailingPath(w) == Authority(s);
    NoSlashNoScheme(Authority(s));
  }

  lemma SpanStopsBy(s: string, j: nat)
    requires j < |s| && s[j] == '/'
    ensures SpanEnd(s, 0, NotSlash) <= j
  {
    var i := SpanEnd(s, 0, NotSlash);
    assert forall k :: 0 <= k < i ==> s[k] == s[0..i][k];
  }

  lemma PrefixChar(s: string, t: string, k: nat)
    requires k < |t|
    ensures HasAt(s, 0, t) ==> s[k] == t[k]
  {
    if HasAt(s, 0, t) {
      assert s[k] == s[0..|t|][k];
    }
  }

  lemma NoSlashNoScheme(a: string)
    requires All(a, NotSlash)
    ensures AddHTTP(a) == HTTP + a
  {
    PrefixChar(a, HTTP, 5);
    PrefixChar(a, "https://", 6);
  }

  lemma {:induction false} JoinSplit(s: string)
    ensures Join(Split(s)) == s
    ensures |Split(s)| == Dots(s) + 1
    decreases |s|
  {
    var d := SpanEnd(s, 0, NotDot);
    NoDots(s[..d]);
    assert s[0..d] == s[..d];
    if d == |s| {
      assert s[..d] == s;
    } else {
      JoinSplit(s[d + 1..]);
      assert s == s[..d] + "." + s[d + 1..];
      assert ([s[..d]] + Split(s[d + 1..]))[1..] == Split(s[d + 1..]);
      DotsConcat(s[..d] + ".", s[d + 1..]);
      DotsConcat(s[..d], ".");
    }
  }

  lemma JoinCons(x: string, rest: seq<string>)
    requires rest != []
    ensures Join([x] + rest) == x + "." + Join(rest)
  {
    assert ([x] + rest)[1..] == rest;
  }

  /** Replacing the first part changes the text before the first dot and nothing else, and only where
      there are at least two dots. */
  lemma ReplaceIs(s: string, name: string)
    ensures ReplaceServiceName(s, name)
            == if Dots(s) >= 2 then name + s[SpanEnd(s, 0, NotDot)..] else s
  {
    hide Dots, Join, SpanEnd, Split;
    JoinSplit(s);
    if Dots(s) >= 2 {
      var d := SpanEnd(s, 0, NotDot);
      SplitStep(s);
      var rest := Split(s[d + 1..]);
      JoinSplit(s[d + 1..]);
      JoinCons(name, rest);
      assert Split(s)[0 := name] == [name] + rest;
      assert s[d..] == "." + s[d + 1..];
    }
  }

  lemma SplitStep(s: string)
    requires |Split(s)| > 1
    ensures var d := SpanEnd(s, 0, NotDot);
      d < |s| && s[d] == '.' && Split(s) == [s[..d]] + Split(s[d + 1..])
  {
    hide SpanEnd;
  }

  lemma TargetText(a: string, name: string)
    requires Label(name) && name[0] != 'h'
    ensures AddHTTP(ReplaceServiceName(HTTP + a, name))
            == HTTP + if Dots(a) >= 2 then name + a[SpanEnd(a, 0, NotDot)..] else a
  {
    hide Dots, ReplaceServiceName;
    var t, d := HTTP + a, SpanEnd(a, 0, NotDot);
    NoDots(HTTP);
    DotsConcat(HTTP, a);
    ReplaceIs(t, name);
    assert t[0..|HTTP| + d] == HTTP + a[0..d];
    SpanEndIs(t, 0, |HTTP| + d, NotDot);
    assert t[|HTTP| + d..] == a[d..];
    PrefixChar(name + a[d..], HTTP, 0);
    PrefixChar(name + a[d..], "https://", 0);
    assert t[0..|HTTP|] == HTTP;
  }

  /** Whatever comes in, the target host is the source host with the text before its first dot
      replaced, if it has two dots, and otherwise the source host itself. */
  lemma TargetHostIs(s: string, name: string)
    requires Label(name) && name[0] != 'h'
    ensures var a := Authority(s);
      TargetHost(s, name) == HTTP + if Dots(a) >= 2 then name + a[SpanEnd(a, 0, NotDot)..] else a
  {
    hide Dots, ReplaceServiceName, AddHTTP, SourceHost;
    SourceHostIs(s);
    TargetText(Authority(s), name);
  }

  // ---- Well-formed hosts ---------------------------------------------------------------------

  lemma PrivateIsLabel(hash: Hash, svc: string)
    requires TenHex(hash) && Label(svc)
    ensures Label(PrivateName(hash, svc)) && PrivateName(hash, svc)[0] == 'e'
  {
    var prefix, postfix := "elasti-", "-pvt" + "-";
    assert All(prefix, LabelChar) && All(postfix, LabelChar);
    assert All(hash(svc), LabelChar);
    assert PrivateName(hash, svc) == prefix + svc + postfix + hash(svc);
  }

  /** A well-formed host without its scheme and path. */
  function Bare(h: Host): Host { h.(http := false, path := "") }

  lemma AuthorityOfHost(h: Host)
    requires WellFormed(h) && !h.http
    ensures Authority(Show(h)) == Show(Bare(h))
    ensures SpanEnd(Show(Bare(h)), 0, NotDot) == |h.svc|
  {
    var s, a := Show(h), Show(Bare(h));
    assert s == a + h.path;
    assert All(a, NotSlash) by { NoSlash(Bare(h)); }
    assert s[0..|a|] == a;
    SpanEndIs(s, 0, |a|, NotSlash);
    assert a[0..|h.svc|] == h.svc && a[|h.svc|] == '.';
    SpanEndIs(a, 0, |h.svc|, NotDot);
  }

  lemma AllConcat(s: string, t: string, p: char -> bool)
    ensures All(s + t, p) <==> All(s, p) && All(t, p)
  {
    if All(s + t, p) {
      assert forall k :: 0 <= k < |s| ==> s[k] == (s + t)[k];
      assert forall k :: 0 <= k < |t| ==> t[k] == (s + t)[|s| + k];
    }
  }

  lemma NoSlash(b: Host)
    requires WellFormed(b) && !b.http && b.path == ""
    ensures All(Show(b), NotSlash)
  {
    assert All(b.port, NotSlash) by {
      assert forall k :: 1 <= k < |b.port| ==> b.port[k] == b.port[1..][k - 1];
    }
    var tail := TailText(b.tail);
    assert All(tail, NotSlash);
    hide TailText;
    AllConcat(b.svc, ".", NotSlash);
    AllConcat(b.svc + ".", b.ns, NotSlash);
    AllConcat(b.svc + "." + b.ns, tail + b.port, NotSlash);
    AllConcat(tail, b.port, NotSlash);
    assert Show(b) == b.svc + "." + b.ns + (tail + b.port);
  }

  /** For a well-formed host with a tail and without scheme, the source host is the host itself without its path, the
      target host differs from it in the service name alone, and reading the target host again gives
      the private service in the same namespace. */
  lemma RewriteIsFaithful(hash: Hash, h: Host)
    requires TenHex(hash) && WellFormed(h) && !h.http && !h.tail.NoTail?
    ensures var name := PrivateName(hash, h.svc);
      var source := Bare(h).(http := true);
      && Compute(hash, Show(h))
         == Some(Cached(Show(h), h.ns, h.svc, name, Show(source), Show(source.(svc := name)), true))
      && Extract(Show(source.(svc := name))) == Ok(name, h.ns)
  {
    hide Extract, PrivateName, SourceHost, TargetHost, Dots, SpanEnd, Authority, Show;
    var name := PrivateName(hash, h.svc);
    var bare := Bare(h);
    ReadsBack(h);
    PrivateIsLabel(hash, h.svc);
    AuthorityOfHost(h);
    SourceHostIs(Show(h));
    TargetHostIs(Show(h), name);
    DotsOfHost(bare);
    ReadsBack(bare.(http := true, svc := name));
    ShowBare(bare, name);
  }

  lemma ShowBare(bare: Host, name: string)
    requires !bare.http
    ensures |bare.svc| <= |Show(bare)| && Show(bare.(http := true)) == HTTP + Show(bare)
    ensures Show(bare.(http := true, svc := name)) == HTTP + (name + Show(bare)[|bare.svc|..])
  {
    hide Suffix;
    var rest := "." + bare.ns + Suffix(bare);
    assert Suffix(bare.(http := true)) == Suffix(bare) by { SuffixOnly(bare, bare.(http := true)); }
    assert Suffix(bare.(http := true, svc := name)) == Suffix(bare) by { SuffixOnly(bare, bare.(http := true, svc := name)); }
    assert Show(bare) == bare.svc + rest;
    assert Show(bare)[|bare.svc|..] == rest;
  }

  lemma SuffixOnly(a: Host, b: Host)
    requires a.tail == b.tail && a.port == b.port && a.path == b.path
    ensures Suffix(a) == Suffix(b)
  {
  }

  /** With a scheme, the text before the first slash is the scheme, and the host is lost: so the source
      host is right exactly for hosts without one. */
  lemma SourceHostRightIff(h: Host)
    requires WellFormed(h)
    ensures SourceHost(Show(h)) == Show(Bare(h).(http := true)) <==> !h.http
  {
    hide SourceHost, Show, Authority, Dots;
    SourceHostIs(Show(h));
    ShowBare(Bare(h), "");
    if h.http {
      AuthorityOfScheme(h);
      NoDots("http:");
      DotsOfHost(Bare(h));
      assert HTTP + "http:" != HTTP + Show(Bare(h)) by {
        assert (HTTP + "http:")[|HTTP|..] == "http:" && (HTTP + Show(Bare(h)))[|HTTP|..] == Show(Bare(h));
      }
    } else {
      AuthorityOfHost(h);
    }
  }

  lemma AuthorityOfScheme(h: Host)
    requires WellFormed(h) && h.http
    ensures Authority(Show(h)) == "http:"
  {
    hide Suffix;
    var s := Show(h);
    assert s[..|HTTP|] == HTTP;
    assert s[0..5] == HTTP[..5] && HTTP[..5] == "http:" && s[5] == HTTP[5];
    SpanEndIs(s, 0, 5, NotSlash);
  }

  /** Every other well-formed host is accepted, and its target host is the source host: with a scheme
      both are `http://http:`, and without a tail there is one dot too few. */
  lemma NotRedirected(hash: Hash, h: Host)
    requires TenHex(hash) && WellFormed(h) && (h.http || h.tail.NoTail?)
    ensures var source := if h.http then HTTP + "http:" else Show(Bare(h).(http := true));
      Compute(hash, Show(h)) == Some(Cached(Show(h), h.ns, h.svc, PrivateName(hash, h.svc), source, source, true))
  {
    hide Extract, PrivateName, SourceHost, TargetHost, Dots, SpanEnd, Authority, Show;
    ReadsBack(h);
    PrivateIsLabel(hash, h.svc);
    SourceHostIs(Show(h));
    TargetHostIs(Show(h), PrivateName(hash, h.svc));
    if h.http {
      AuthorityOfScheme(h);
      NoDots("http:");
    } else {
      AuthorityOfHost(h);
      DotsOfHost(Bare(h));
      ShowBare(Bare(h), "");
    }
  }

  lemma AcceptedHasDot(s: string)
    requires Extract(s).Ok?
    ensures '.' in s
  {
    hide Extract;
    AcceptedIff(s);
    var i: nat, svc: string, ns: string :| TwoLabelsAt(s, i, svc, ns);
    HasConcat(s, i, svc, ".");
    HasConcat(s, i, svc + ".", ns);
    assert s[i + |svc|] == s[i + |svc|..i + |svc| + 1][0];
  }

  /** Whatever comes in: with no dot before the first slash, as after `http://` or `https://`, the target
      host is the source host, and is not accepted. */
  lemma NoDotNoTarget(s: string, name: string)
    requires Label(name) && name[0] != 'h' && '.' !in Authority(s)
    ensures TargetHost(s, name) == SourceHost(s) && !Extract(TargetHost(s, name)).Ok?
  {
    hide Extract, SourceHost, TargetHost, Dots, Authority;
    SourceHostIs(s);
    TargetHostIs(s, name);
    NoDots(Authority(s));
    assert '.' !in HTTP;
    if Extract(TargetHost(s, name)).Ok? {
      AcceptedHasDot(TargetHost(s, name));
    }
  }

  lemma PrivateDiffers(hash: Hash, svc: string)
    ensures PrivateName(hash, svc) != svc
  {
    assert |PrivateName(hash, svc)| > |svc|;
  }

  /** Different services have different private services, whatever the hash. */
  lemma PrivateNamesDiffer(hash: Hash, a: string, b: string)
    requires TenHex(hash) && PrivateName(hash, a) == PrivateName(hash, b)
    ensures a == b
  {
    var x := PrivateName(hash, a);
    assert |x| == |a| + 22 == |b| + 22;
    assert x[7..7 + |a|] == a && x[7..7 + |b|] == b;
  }

  /** A request for a well-formed host gets to the private service of the same namespace, if and only if
      the host has no scheme and has a tail. */
  lemma RedirectedIff(hash: Hash, h: Host)
    requires TenHex(hash) && WellFormed(h)
    ensures var name := PrivateName(hash, h.svc);
      Extract(TargetHost(Show(h), name)) == Ok(name, h.ns) <==> !h.http && !h.tail.NoTail?
  {
    hide Extract, PrivateName, SourceHost, TargetHost, Show, Authority;
    var name := PrivateName(hash, h.svc);
    PrivateDiffers(hash, h.svc);
    if !h.http && !h.tail.NoTail? {
      RewriteIsFaithful(hash, h);
    } else {
      NotRedirected(hash, h);
      if h.http {
        AuthorityOfScheme(h);
        PrivateIsLabel(hash, h.svc);
        NoDotNoTarget(Show(h), name);
      } else {
        ReadsBack(Bare(h).(http := true));
      }
    }
  }

  /** Any accepted text whose part before the first slash is a well-formed host with a tail, whatever
      follows: it gets to the private service of the service that was read, in the namespace of that
      host; so to the right one if and only if that is the namespace that was read. */
  lemma AuthorityDecides(hash: Hash, s: string, h: Host)
    requires TenHex(hash) && WellFormed(h) && h == Bare(h) && !h.tail.NoTail? && Authority(s) == Show(h)
    requires Extract(s).Ok?
    ensures var name := PrivateName(hash, Extract(s).svc);
      && Extract(TargetHost(s, name)) == Ok(name, h.ns)
      && (Extract(TargetHost(s, name)) == Ok(name, Extract(s).ns) <==> Extract(s).ns == h.ns)
  {
    hide Extract, PrivateName, SourceHost, TargetHost, Dots, SpanEnd, Authority, Show;
    var name := PrivateName(hash, Extract(s).svc);
    AcceptedIff(s);
    PrivateIsLabel(hash, Extract(s).svc);
    AuthorityOfHost(h);
    TargetHostIs(s, name);
    DotsOfHost(h);
    ReadsBack(h.(http := true, svc := name));
    ShowBare(h, name);
  }

  // ---- The cache -----------------------------------------------------------------------------

  class HostManager {
    const hash: Hash
    var hosts: map<string, Cached>

    /** Whatever is cached is what computing it again would give, but for the traffic flag. */
    predicate Valid()
      reads this
    {
      forall k :: k in hosts ==> Compute(hash, k).Some? && hosts[k].(trafficAllowed := true) == Compute(hash, k).value
    }

    constructor (hash: Hash)
      ensures Valid() && hosts == map[] && this.hash == hash
    {
      this.hash := hash;
      hosts := map[];
    }

    method GetHost(incoming: string) returns (r: Option<Cached>)
      requires Valid()
      modifies this
      ensures Valid()
      ensures r == if incoming in old(hosts) then Some(old(hosts)[incoming]) else Compute(hash, incoming)
      ensures hosts == if r.Some? then old(hosts)[incoming := r.value] else old(hosts)
    {
      if incoming in hosts {
        assert hosts == hosts[incoming := hosts[incoming]];
        return Some(hosts[incoming]);
      }
      var e := ExtractNamespaceAndService(incoming);
      if !e.Ok? {
        return None;
      }
      var targetService := PrivateName(hash, e.svc);
      var sourceHost := RemoveTrailingWildcard(incoming);
      sourceHost := RemoveTrailingPath(sourceHost);
      sourceHost := AddHTTP(sourceHost);
      var targetHost := ReplaceServiceName(sourceHost, targetService);
      targetHost := AddHTTP(targetHost);
      var host := Cached(incoming, e.ns, e.svc, targetService, sourceHost, targetHost, true);
      hosts := hosts[incoming := host];
      return Some(host);
    }

    /** DisableTrafficForHost and enableTrafficForHost, as the steps of the gate see them. */
    method SetTraffic(incoming: string, allowed: bool) returns (changed: bool)
      requires Valid()
      modifies this
      ensures Valid() && hosts.Keys == old(hosts).Keys
      ensures changed == (incoming in old(hosts) && old(hosts)[incoming].trafficAllowed != allowed)
      ensures forall k :: k in hosts ==>
                hosts[k] == if k == incoming then old(hosts)[k].(trafficAllowed := allowed) else old(hosts)[k]
    {
      hide Compute;
      changed := incoming in hosts && hosts[incoming].trafficAllowed != allowed;
      if changed {
        hosts := hosts[incoming := hosts[incoming].(trafficAllowed := allowed)];
      }
    }
  }
}
