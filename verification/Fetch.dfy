/** Fetching a page through the browser service (api/selfai_ui/browse/connection.py, lines 97-106 and
    160-292): the gates in front of the network, and the retry loop. */
module Fetch {

  import opened Wrappers
  import opened Dotted

  /** `urlparse(url).hostname`: it raises, there is no host, or there is one. */
  datatype Host = Unparsable | NoHost | Name(name: string)

  /** What name resolution says about a host; errors other than failed resolution are not caught. */
  datatype Resolution = Public | Blocked | Uncaught

  datatype Profile = Profile(blocklist: seq<string>, allowlist: seq<string>, retryCount: int)

  /** Everything the world contributes before the first request. */
  datatype Setting = Setting(serviceUrl: string, host: Host, literalBlocked: bool, resolution: Resolution)

  /** One request: an exception, or a status with a body. */
  datatype Outcome = Exception | Response(status: int, body: Body)
  datatype Body = Unreadable | Empty | Content(text: string)

  /** The page processing in use and `str.strip` emptiness; either may be any function. */
  datatype Platform = Platform(process: string -> string, blank: string -> bool, lower: string -> string)

  datatype Error = NoService | PrivateAddress | ResolvesToPrivate | OnBlocklist | NotOnAllowlist
                 | CredentialsRejected(status: int) | ServiceStatus(status: int) | NoContent | FetchFailed

  /** `Raised` is an exception that leaves the function, `NoResult` is Python's `None`. */
  datatype Result = Success(content: string) | Failure(error: Error) | Raised | NoResult

  // ---------------------------------------------------------------------------------------------
  // The gates
  // ---------------------------------------------------------------------------------------------

  predicate MatchesPattern(os: Platform, host: string, pattern: string) {
    os.lower(host) == os.lower(pattern) || EndsWith(os.lower(host), "." + os.lower(pattern))
  }

  predicate MatchesList(os: Platform, host: string, patterns: seq<string>) {
    exists p | p in patterns :: MatchesPattern(os, host, p)
  }

  /** `_hostname_matches_list` */
  method HostnameMatchesList(os: Platform, host: string, patterns: seq<string>) returns (r: bool)
    ensures r == MatchesList(os, host, patterns)
  {
    for i := 0 to |patterns|
      invariant forall j | 0 <= j < i :: !MatchesPattern(os, host, patterns[j])
    {
      if MatchesPattern(os, host, patterns[i]) {
        return true;
      }
    }
    return false;
  }

  /** A pattern covers the name itself and its subdomains, label by label. */
  lemma PatternByLabels(os: Platform, host: string, pattern: string)
    ensures MatchesPattern(os, host, pattern) <==>
              var h, p := Split(os.lower(host)), Split(os.lower(pattern)); h == p || ProperSuffix(p, h)
  {
    SuffixIsByParts(os.lower(host), os.lower(pattern));
    if Split(os.lower(host)) == Split(os.lower(pattern)) {
      SplitInjective(os.lower(host), os.lower(pattern));
    }
  }

  /** A list covers a host when one of its patterns is the host or a parent domain of it. */
  lemma ListByLabels(os: Platform, host: string, patterns: seq<string>)
    ensures MatchesList(os, host, patterns) <==>
              exists i | 0 <= i < |patterns| ::
                var h, p := Split(os.lower(host)), Split(os.lower(patterns[i])); h == p || ProperSuffix(p, h)
  {
    forall i | 0 <= i < |patterns|
      ensures MatchesPattern(os, host, patterns[i]) <==>
                var h, p := Split(os.lower(host)), Split(os.lower(patterns[i])); h == p || ProperSuffix(p, h)
    {
      PatternByLabels(os, host, patterns[i]);
    }
    if MatchesList(os, host, patterns) {
      var p :| p in patterns && MatchesPattern(os, host, p);
      var i :| 0 <= i < |patterns| && patterns[i] == p;
    }
  }

  predicate Named(w: Setting) {
    w.host.Name? && w.host.name != ""
  }

  /** The host is one this profile may fetch from. */
  predicate Allowed(os: Platform, w: Setting, p: Profile) {
    Named(w) ==>
      && !w.literalBlocked && w.resolution == Public
      && !MatchesList(os, w.host.name, p.blocklist)
      && (p.allowlist != [] ==> MatchesList(os, w.host.name, p.allowlist))
  }

  /** No gate objects. */
  predicate Passes(os: Platform, w: Setting, p: Profile) {
    w.serviceUrl != "" && !w.host.Unparsable? && Allowed(os, w, p)
  }

  /** An exception leaves the function: a URL that cannot be parsed, or an uncaught resolver error. */
  predicate Escapes(w: Setting) {
    && w.serviceUrl != ""
    && (w.host.Unparsable? || (Named(w) && !w.literalBlocked && w.resolution == Uncaught))
  }

  /** The host has a name and its addresses are public; only the profile's lists are left to ask. */
  predicate ReachesLists(w: Setting) {
    w.serviceUrl != "" && Named(w) && !w.literalBlocked && w.resolution == Public
  }

  /** The gates in order; the first that objects decides. */
  method Gates(os: Platform, w: Setting, p: Profile) returns (r: Option<Result>)
    ensures r.None? <==> Passes(os, w, p)
    ensures r == Some(Raised) <==> Escapes(w)
    ensures r == Some(Failure(NoService)) <==> w.serviceUrl == ""
    ensures r == Some(Failure(PrivateAddress)) <==> w.serviceUrl != "" && Named(w) && w.literalBlocked
    ensures r == Some(Failure(ResolvesToPrivate)) <==>
              w.serviceUrl != "" && Named(w) && !w.literalBlocked && w.resolution == Blocked
    ensures r == Some(Failure(OnBlocklist)) <==> ReachesLists(w) && MatchesList(os, w.host.name, p.blocklist)
    ensures r == Some(Failure(NotOnAllowlist)) <==>
              && ReachesLists(w) && !MatchesList(os, w.host.name, p.blocklist)
              && p.allowlist != [] && !MatchesList(os, w.host.name, p.allowlist)
    ensures r.Some? ==> r.value.Raised? || (r.value.Failure? && IsRefusal(r.value.error))
  {
    if w.serviceUrl == "" {
      return Some(Failure(NoService));
    }
    if w.host.Unparsable? {
      return Some(Raised);
    }
    if Named(w) {
      if w.literalBlocked {
        return Some(Failure(PrivateAddress));
      }
      if w.resolution.Uncaught? {
        return Some(Raised);
      }
      if w.resolution.Blocked? {
        return Some(Failure(ResolvesToPrivate));
      }
      var blocked := HostnameMatchesList(os, w.host.name, p.blocklist);
      if p.blocklist != [] && blocked {
        return Some(Failure(OnBlocklist));
      }
      var allowed := HostnameMatchesList(os, w.host.name, p.allowlist);
      if p.allowlist != [] && !allowed {
        return Some(Failure(NotOnAllowlist));
      }
    }
    return None;
  }

  /** The failures that are given before any request. */
  predicate IsRefusal(e: Error) {
    e in {NoService, PrivateAddress, ResolvesToPrivate, OnBlocklist, NotOnAllowlist}
  }

  // ---------------------------------------------------------------------------------------------
  // The retry loop
  // ---------------------------------------------------------------------------------------------

  predicate Rejects(o: Outcome) {
    o.Response? && (o.status == 401 || o.status == 403)
  }

  predicate Usable(os: Platform, o: Outcome) {
    && o.Response? && o.status == 200 && o.body.Content?
    && o.body.text != "" && !os.blank(os.process(o.body.text))
  }

  predicate Decides(os: Platform, o: Outcome) {
    Rejects(o) || Usable(os, o)
  }

  /** What each outcome counts as: credentials are rejected by 401 and 403 alone; content is usable with
      status 200, when there is some and processing leaves something that is not blank. */
  lemma OutcomeRules(os: Platform, status: int, body: Body)
    ensures !Decides(os, Exception) && ErrorOf(Exception) == FetchFailed
    ensures Rejects(Response(status, body)) <==> status == 401 || status == 403
    ensures Usable(os, Response(status, body)) <==>
              && status == 200 && body.Content? && body.text != ""
              && !os.blank(os.process(body.text))
    ensures body == Unreadable ==> ErrorOf(Response(status, body)) == FetchFailed
    ensures body != Unreadable && status != 200 ==> ErrorOf(Response(status, body)) == ServiceStatus(status)
    ensures body != Unreadable && status == 200 ==> ErrorOf(Response(status, body)) == NoContent
  {
  }

  /** The failure an attempt that decides nothing leaves behind. */
  function ErrorOf(o: Outcome): Error {
    match o
    case Exception => FetchFailed
    case Response(status, body) =>
      if body.Unreadable? then FetchFailed else if status != 200 then ServiceStatus(status) else NoContent
  }

  /** The first `n` attempts decide nothing. */
  ghost predicate Undecided(os: Platform, script: nat -> Outcome, n: nat) {
    forall j: nat | j < n :: !Decides(os, script(j))
  }

  /** MAIN RESULT. `browse_fetch`; `script(i)` is what the service does on attempt `i`, and `requests`
      counts the requests made. */
  method BrowseFetch(os: Platform, w: Setting, p: Profile, script: nat -> Outcome)
    returns (r: Result, requests: nat)
    // a refused host is never contacted, any other is when the budget allows it, and the budget is kept
    ensures requests > 0 <==> Passes(os, w, p) && p.retryCount >= 0
    ensures requests <= if p.retryCount >= 0 then p.retryCount + 1 else 0
    // the four kinds of result: an exception that leaves the function
    ensures r.Raised? <==> Escapes(w)
    // no result at all, for a negative retry count
    ensures r.NoResult? <==> Passes(os, w, p) && p.retryCount < 0
    // success: a usable outcome within the budget and before any other that decides
    ensures r.Success? <==>
              Passes(os, w, p) && exists k: nat ::
                k <= p.retryCount && Usable(os, script(k)) && Undecided(os, script, k)
    // and the content is that of the first one, and not blank
    ensures r.Success? ==>
              && Usable(os, script(requests - 1)) && Undecided(os, script, requests - 1)
              && r.content == os.process(script(requests - 1).body.text) && !os.blank(r.content)
    // otherwise an explicit failure: a refusal, if the host is never contacted
    ensures requests == 0 && r.Failure? ==> IsRefusal(r.error)
    // a rejection, which ends the attempts at once
    ensures r.Failure? && r.error.CredentialsRejected? ==>
              && requests > 0 && Rejects(script(requests - 1)) && Undecided(os, script, requests - 1)
              && r.error.status == script(requests - 1).status
    // or what the last attempt left behind, when none decided anything
    ensures requests > 0 && r.Failure? && !r.error.CredentialsRejected? ==>
              && requests == p.retryCount + 1 && Undecided(os, script, requests)
              && r.error == ErrorOf(script(p.retryCount))
  {
    var gate := Gates(os, w, p);
    if gate.Some? {
      return gate.value, 0;
    }
    r, requests := NoResult, 0;
    while requests < p.retryCount + 1
      invariant requests <= if p.retryCount >= 0 then p.retryCount + 1 else 0
      invariant Undecided(os, script, requests)
      invariant r == if requests == 0 then NoResult else Failure(ErrorOf(script(requests - 1)))
    {
      var o := script(requests);
      requests := requests + 1;
      if Rejects(o) {
        return Failure(CredentialsRejected(o.status)), requests;
      }
      if Usable(os, o) {
        return Success(os.process(o.body.text)), requests;
      }
      r := Failure(ErrorOf(o));
    }
  }
}
