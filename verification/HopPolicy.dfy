/** Which links found on a page may be followed (api/selfai_ui/browse/hop_policy.py). */
module HopPolicy {

  import opened Wrappers
  import opened Dotted

  /** What the URL parser says about a URL: a malformed authority, no host, or a host name. */
  datatype Parsed = Malformed | Hostless | Host(name: string)

  /** The platform: `urlparse` (host name and port check together) and `str.lower`. */
  datatype Platform = Platform(parse: string -> Parsed, lower: string -> string)

  function StripDots(s: string): (r: string)
    ensures r <= s && (r == "" || r[|r| - 1] != '.')
    ensures forall i | |r| <= i < |s| :: s[i] == '.'
  {
    if s != "" && s[|s| - 1] == '.' then StripDots(s[..|s| - 1]) else s
  }

  function HostOf(os: Platform, url: string): Option<string> {
    match os.parse(url)
    case Malformed => None
    case Hostless => None
    case Host(name) => if name == "" then None else Some(StripDots(os.lower(name)))
  }

  predicate IsSameSite(os: Platform, page: string, candidate: string) {
    var p, c := HostOf(os, page), HostOf(os, candidate);
    if p.None? || c.None? || p.value == "" || c.value == "" then false
    else if p == c then true
    else EndsWith(c.value, "." + p.value) || EndsWith(p.value, "." + c.value)
  }

  predicate HasHost(os: Platform, url: string) {
    HostOf(os, url).Some? && HostOf(os, url).value != ""
  }

  function Labels(os: Platform, url: string): Parts
    requires HasHost(os, url)
  {
    Split(HostOf(os, url).value)
  }

  /** The rule by labels: equal hosts, or one a subdomain of the other. Sibling subdomains and
      look-alikes such as `notexample.com` for `example.com` are refused. */
  lemma SameSiteByLabels(os: Platform, a: string, b: string)
    ensures IsSameSite(os, a, b) <==>
              && HasHost(os, a) && HasHost(os, b)
              && (|| Labels(os, a) == Labels(os, b)
                  || ProperSuffix(Labels(os, a), Labels(os, b))
                  || ProperSuffix(Labels(os, b), Labels(os, a)))
  {
    if HasHost(os, a) && HasHost(os, b) {
      var p, c := HostOf(os, a).value, HostOf(os, b).value;
      SuffixIsByParts(c, p);
      SuffixIsByParts(p, c);
      if Split(p) == Split(c) {
        SplitInjective(p, c);
      }
    }
  }

  lemma SameSiteSymmetric(os: Platform, a: string, b: string)
    ensures IsSameSite(os, a, b) == IsSameSite(os, b, a)
    ensures IsSameSite(os, a, a) <==> HasHost(os, a)
  {
  }

  // ---------------------------------------------------------------------------------------------
  // Registrable domains
  // ---------------------------------------------------------------------------------------------

  function Last(labels: Parts, k: nat): Parts
    requires k <= |labels|
  {
    labels[|labels| - k..]
  }

  /** The length of the longest public suffix among the last `k` labels; 1 when none matches. */
  function LongestUpTo(suffixes: set<Parts>, labels: Parts, k: nat): nat
    requires k <= |labels|
  {
    if k <= 1 then 1
    else if Last(labels, k) in suffixes then k
    else LongestUpTo(suffixes, labels, k - 1)
  }

  /** The length of the host's public suffix. */
  function SuffixLength(suffixes: set<Parts>, labels: Parts): (n: nat)
    ensures labels != [] ==> 1 <= n <= |labels|
  {
    if labels != [] then LongestIsLongest(suffixes, labels, |labels|); LongestUpTo(suffixes, labels, |labels|)
    else LongestUpTo(suffixes, labels, 0)
  }

  /** The public suffix and one label more; a host that is itself a public suffix has none. */
  function Registrable(suffixes: set<Parts>, labels: Parts): Option<Parts> {
    var k := SuffixLength(suffixes, labels);
    if k < |labels| then Some(Last(labels, k + 1)) else None
  }

  /** What the search computes: no longer suffix matches. */
  lemma {:induction false} LongestIsLongest(suffixes: set<Parts>, labels: Parts, k: nat)
    requires 1 <= k <= |labels|
    ensures var n := LongestUpTo(suffixes, labels, k);
            && 1 <= n <= k
            && (n == 1 || Last(labels, n) in suffixes)
            && forall j | n < j <= k :: Last(labels, j) !in suffixes
    decreases k
  {
    if k > 1 && Last(labels, k) !in suffixes {
      LongestIsLongest(suffixes, labels, k - 1);
    }
  }

  lemma LastOfSuffix(short: Parts, long: Parts, k: nat)
    requires ProperSuffix(short, long) && k <= |short|
    ensures Last(short, k) == Last(long, k)
  {
    assert long[|long| - |short|..][|short| - k..] == long[|long| - k..];
  }

  /** One hop between a host and a subdomain of it keeps the registrable domain if and only if the
      public suffix of the deeper host is a proper label-suffix of the shallower one. */
  lemma HopKeepsDomain(suffixes: set<Parts>, short: Parts, long: Parts)
    requires ProperSuffix(short, long) && |short| > 0
    ensures SuffixLength(suffixes, long) < |short| <==>
              && Registrable(suffixes, long).Some?
              && Registrable(suffixes, long) == Registrable(suffixes, short)
    ensures SuffixLength(suffixes, long) < |short| <==> ProperSuffix(Last(long, SuffixLength(suffixes, long)), short)
  {
    var n, m := SuffixLength(suffixes, long), SuffixLength(suffixes, short);
    LongestIsLongest(suffixes, long, |long|);
    LongestIsLongest(suffixes, short, |short|);
    if n < |short| {
      LastOfSuffix(short, long, n);
      LastOfSuffix(short, long, n + 1);
      LastOfSuffix(short, long, m);
      assert n == m;
    }
  }

  /** At a hop: the deeper host's public suffix is shorter than the shallower host. */
  predicate SuffixFits(os: Platform, suffixes: set<Parts>, a: string, b: string)
    requires HasHost(os, a) && HasHost(os, b)
  {
    var p, c := Labels(os, a), Labels(os, b);
    if |p| <= |c| then SuffixLength(suffixes, c) < |p| else SuffixLength(suffixes, p) < |c|
  }

  function DomainOf(os: Platform, suffixes: set<Parts>, url: string): Option<Parts> {
    if HasHost(os, url) then Registrable(suffixes, Labels(os, url)) else None
  }

  lemma HopDomain(os: Platform, suffixes: set<Parts>, a: string, b: string)
    requires IsSameSite(os, a, b)
    ensures HasHost(os, a) && HasHost(os, b)
    ensures SuffixFits(os, suffixes, a, b) <==>
              DomainOf(os, suffixes, a).Some? && DomainOf(os, suffixes, a) == DomainOf(os, suffixes, b)
  {
    SameSiteByLabels(os, a, b);
    var p, c := Labels(os, a), Labels(os, b);
    if ProperSuffix(p, c) {
      HopKeepsDomain(suffixes, p, c);
    } else if ProperSuffix(c, p) {
      HopKeepsDomain(suffixes, c, p);
    }
  }

  predicate Hop(os: Platform, urls: seq<string>, i: nat) {
    i + 1 < |urls| && IsSameSite(os, urls[i], urls[i + 1])
  }

  predicate HopFits(os: Platform, suffixes: set<Parts>, urls: seq<string>, i: nat) {
    && i + 1 < |urls| && HasHost(os, urls[i]) && HasHost(os, urls[i + 1])
    && SuffixFits(os, suffixes, urls[i], urls[i + 1])
  }

  /** A chain of links each followed from the page before. */
  predicate Chain(os: Platform, urls: seq<string>) {
    forall i | 0 <= i < |urls| - 1 :: Hop(os, urls, i)
  }

  predicate EveryHopFits(os: Platform, suffixes: set<Parts>, urls: seq<string>) {
    forall i | 0 <= i < |urls| - 1 :: HopFits(os, suffixes, urls, i)
  }

  predicate OneDomain(os: Platform, suffixes: set<Parts>, urls: seq<string>) {
    forall i | 0 <= i < |urls| ::
      DomainOf(os, suffixes, urls[i]).Some? && DomainOf(os, suffixes, urls[i]) == DomainOf(os, suffixes, urls[0])
  }

  /** MAIN RESULT. Along a chain of allowed hops of any length there is one registrable domain if and
      only if at every hop the deeper host's public suffix is a proper label-suffix of the
      shallower host. */
  lemma {:induction false} ChainStaysOnDomain(os: Platform, suffixes: set<Parts>, urls: seq<string>)
    requires Chain(os, urls) && |urls| > 1
    ensures EveryHopFits(os, suffixes, urls) <==> OneDomain(os, suffixes, urls)
  {
    var n := |urls|;
    assert Hop(os, urls, n - 2);
    HopDomain(os, suffixes, urls[n - 2], urls[n - 1]);
    HopsSplit(os, suffixes, urls);
    if n > 2 {
      var before := urls[..n - 1];
      assert forall i | 0 <= i < n - 2 :: Hop(os, before, i) == Hop(os, urls, i);
      ChainStaysOnDomain(os, suffixes, before);
    }
  }

  lemma HopsSplit(os: Platform, suffixes: set<Parts>, urls: seq<string>)
    requires |urls| > 1
    ensures EveryHopFits(os, suffixes, urls) <==>
              EveryHopFits(os, suffixes, urls[..|urls| - 1]) && HopFits(os, suffixes, urls, |urls| - 2)
    ensures OneDomain(os, suffixes, urls) <==>
              && OneDomain(os, suffixes, urls[..|urls| - 1])
              && DomainOf(os, suffixes, urls[|urls| - 1]) == DomainOf(os, suffixes, urls[|urls| - 2])
              && DomainOf(os, suffixes, urls[|urls| - 2]).Some?
  {
    var n := |urls|;
    var before := urls[..n - 1];
    assert forall i | 0 <= i < n - 1 :: before[i] == urls[i];
    assert forall i | 0 <= i < n - 2 :: HopFits(os, suffixes, before, i) == HopFits(os, suffixes, urls, i);
    assert before[n - 2] == urls[n - 2];
  }

  /** The claim that the rule never allows a hop between registrable domains is false: a page of a
      public suffix itself may lead to any site under it, so two hops lead from one site under the
      suffix to any other. */
  lemma SuffixHostLeaks(os: Platform, suffixes: set<Parts>, suffix: Parts, a: string, from: string,
      middle: string, b: string, to: string)
    requires |suffix| > 1 && suffix in suffixes && [a] + suffix !in suffixes && [b] + suffix !in suffixes
    requires HasHost(os, from) && Labels(os, from) == [a] + suffix
    requires HasHost(os, middle) && Labels(os, middle) == suffix
    requires HasHost(os, to) && Labels(os, to) == [b] + suffix
    ensures IsSameSite(os, from, middle) && IsSameSite(os, middle, to)
    ensures DomainOf(os, suffixes, from) == Some([a] + suffix) && DomainOf(os, suffixes, to) == Some([b] + suffix)
  {
    SameSiteByLabels(os, from, middle);
    SameSiteByLabels(os, middle, to);
    OwnDomain(suffixes, suffix, a);
    OwnDomain(suffixes, suffix, b);
  }

  lemma OwnDomain(suffixes: set<Parts>, suffix: Parts, a: string)
    requires |suffix| > 1 && suffix in suffixes && [a] + suffix !in suffixes
    ensures Registrable(suffixes, [a] + suffix) == Some([a] + suffix)
  {
    var labels := [a] + suffix;
    assert Last(labels, |labels|) == labels && Last(labels, |suffix|) == suffix;
    assert LongestUpTo(suffixes, labels, |suffix|) == |suffix|;
  }

  /** For instance from `foo.co.uk` over `co.uk` to `bar.co.uk`. */
  lemma CoUkLeaks(os: Platform, foo: string, bar: string, from: string, middle: string, to: string)
    requires '.' !in foo && '.' !in bar
    requires HostOf(os, from) == Some(foo + "." + "co.uk") && HostOf(os, to) == Some(bar + "." + "co.uk")
    requires HostOf(os, middle) == Some("co.uk")
    ensures IsSameSite(os, from, middle) && IsSameSite(os, middle, to)
    ensures DomainOf(os, {["co", "uk"]}, from) == Some([foo, "co", "uk"])
    ensures DomainOf(os, {["co", "uk"]}, to) == Some([bar, "co", "uk"])
  {
    UnderCoUk(foo, foo + "." + "co.uk");
    UnderCoUk(bar, bar + "." + "co.uk");
    SuffixHostLeaks(os, {["co", "uk"]}, ["co", "uk"], foo, from, middle, bar, to);
    assert forall name: string :: [name] + ["co", "uk"] == [name, "co", "uk"];
  }

  lemma UnderCoUk(name: string, host: string)
    requires '.' !in name && host == name + "." + "co.uk"
    ensures Split("co.uk") == ["co", "uk"] && Split(host) == [name] + ["co", "uk"]
  {
    SplitLabel(name);
    SplitLabel("co");
    SplitLabel("uk");
    assert "co" + "." + "uk" == "co.uk";
    SplitConcat("co", "uk");
    SplitConcat(name, "co.uk");
  }

  // ---------------------------------------------------------------------------------------------
  // Which host a URL has
  // ---------------------------------------------------------------------------------------------

  lemma {:induction false} StripDotsOf(x: string, dots: string)
    requires (x == "" || x[|x| - 1] != '.') && forall c | c in dots :: c == '.'
    ensures StripDots(x + dots) == x
    decreases |dots|
  {
    if dots != "" {
      var front := dots[..|dots| - 1];
      assert (x + dots)[..|x + dots| - 1] == x + front;
      assert dots[|dots| - 1] in dots && forall c | c in front :: c in dots;
      StripDotsOf(x, front);
    } else {
      assert x + dots == x;
    }
  }

  /** Names that differ only in case and in trailing dots are the same host, and a URL that cannot be
      parsed or has no name has none and is on no site. */
  lemma HostByName(os: Platform, url: string, name: string, host: string, dots: string, other: string)
    requires (host == "" || host[|host| - 1] != '.') && forall c | c in dots :: c == '.'
    ensures os.parse(url) == Host(name) && name != "" && os.lower(name) == host + dots ==> HostOf(os, url) == Some(host)
    ensures os.parse(url) in {Malformed, Hostless, Host("")} ==>
              HostOf(os, url) == None && !IsSameSite(os, url, other) && !IsSameSite(os, other, url)
  {
    StripDotsOf(host, dots);
  }
}
