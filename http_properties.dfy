/**
 * What the HTTP client promises, proved about the specification functions of
 * module HttpFetch: the entries of the request options, the seven-attempt
 * retry bound, the shape of the redirect chain `get` follows, and the depths
 * and error page of `fetch_pages`.
 */
module HttpProperties {
  import opened Wrappers
  import opened Urls
  import opened Pages
  import opened HttpFetch

  // ---------------------------------------------------------------------
  // Request options
  // ---------------------------------------------------------------------

  /** The keys `get_response` writes before the extra headers. */
  predicate IsBaseKey(k: OptionKey) {
    || k == Header("User-Agent") || k == Header("Referer") || k == Header("Cookie")
    || k == HttpBasicAuthentication || k == Proxy || k == ProxyHttpBasicAuthentication
    || k == ReadTimeout || k == Redirect
  }

  /** The options hash before the extra headers holds only the keys the
      client writes. */
  lemma BaseOptionsKeys(o: Options, jar: CookieJar, referer: Option<Url>)
    ensures forall k :: k in BaseOptions(o, jar, referer) ==> IsBaseKey(k)
  { }

  /** The header entries before the extra headers: User-Agent when one is
      configured, Referer when there is a referer, and Cookie exactly when
      cookies are sent. */
  lemma BaseOptionsHeaders(o: Options, jar: CookieJar, referer: Option<Url>)
    ensures var b := BaseOptions(o, jar, referer);
      && (Header("User-Agent") in b <==> o.userAgent.Some?)
      && (o.userAgent.Some? ==> b[Header("User-Agent")] == Text(o.userAgent.value))
      && (Header("Referer") in b <==> referer.Some?)
      && (referer.Some? ==> b[Header("Referer")] == Text(UrlString(referer.value)))
      && (Header("Cookie") in b <==> SendsCookies(o, jar))
      && (SendsCookies(o, jar) ==> b[Header("Cookie")] == Text(jar.ToHeader()))
  { }

  /** The open-uri entries before the extra headers, as the client writes
      them: basic authentication and the proxy when configured, the proxy
      credentials only when a read timeout is configured as well, never the
      read timeout, and open-uri's own redirect following always switched off. */
  lemma BaseOptionsSettings(o: Options, jar: CookieJar, referer: Option<Url>)
    ensures var b := BaseOptions(o, jar, referer);
      && (HttpBasicAuthentication in b <==> o.httpBasicAuthentication.Some?)
      && (o.httpBasicAuthentication.Some? ==> b[HttpBasicAuthentication] == Login(o.httpBasicAuthentication.value))
      && (Proxy in b <==> o.proxy.Some?)
      && (o.proxy.Some? ==> b[Proxy] == Text(o.proxy.value))
      && (ProxyHttpBasicAuthentication in b <==> o.proxyHttpBasicAuthentication.Some? && o.readTimeout.Some?)
      && (ProxyHttpBasicAuthentication in b ==> b[ProxyHttpBasicAuthentication] == Login(o.proxyHttpBasicAuthentication.value))
      && ReadTimeout !in b
      && Redirect in b && b[Redirect] == Flag(false)
  { }

  /** The evidently intended entries: one per configured option. */
  lemma IntendedOptionsSettings(o: Options, jar: CookieJar, referer: Option<Url>)
    ensures var b := IntendedBaseOptions(o, jar, referer);
      && (HttpBasicAuthentication in b <==> o.httpBasicAuthentication.Some?)
      && (o.httpBasicAuthentication.Some? ==> b[HttpBasicAuthentication] == Login(o.httpBasicAuthentication.value))
      && (Proxy in b <==> o.proxy.Some?)
      && (o.proxy.Some? ==> b[Proxy] == Text(o.proxy.value))
      && (ProxyHttpBasicAuthentication in b <==> o.proxyHttpBasicAuthentication.Some?)
      && (o.proxyHttpBasicAuthentication.Some? ==> b[ProxyHttpBasicAuthentication] == Login(o.proxyHttpBasicAuthentication.value))
      && (ReadTimeout in b <==> o.readTimeout.Some?)
      && (o.readTimeout.Some? ==> b[ReadTimeout] == Seconds(o.readTimeout.value))
      && Redirect in b && b[Redirect] == Flag(false)
  { }

  /** The two hashes differ only in the proxy credentials and the read timeout. */
  lemma IntendedAgreesElsewhere(o: Options, jar: CookieJar, referer: Option<Url>, k: OptionKey)
    requires k != ProxyHttpBasicAuthentication && k != ReadTimeout
    ensures var b, c := BaseOptions(o, jar, referer), IntendedBaseOptions(o, jar, referer);
      && (k in b <==> k in c)
      && (k in b ==> b[k] == c[k])
  { }

  /** A configured read timeout is lost: the client's hash has no entry for
      it where the intended one has. */
  lemma ReadTimeoutLost(o: Options, jar: CookieJar, referer: Option<Url>)
    requires o.readTimeout.Some?
    ensures ReadTimeout !in BaseOptions(o, jar, referer)
    ensures var c := IntendedBaseOptions(o, jar, referer);
      ReadTimeout in c && c[ReadTimeout] == Seconds(o.readTimeout.value)
  { }

  /** Configured proxy credentials are dropped when no read timeout is configured. */
  lemma ProxyLoginLost(o: Options, jar: CookieJar, referer: Option<Url>)
    requires o.proxyHttpBasicAuthentication.Some? && o.readTimeout.None?
    ensures ProxyHttpBasicAuthentication !in BaseOptions(o, jar, referer)
    ensures ProxyHttpBasicAuthentication in IntendedBaseOptions(o, jar, referer)
  { }

  /** A key no extra header names keeps its entry (or its absence). */
  lemma {:induction false} OverlayUntouched(m: RequestOptions, hs: seq<(OptionKey, OptionValue)>, k: OptionKey)
    requires forall i :: 0 <= i < |hs| ==> hs[i].0 != k
    ensures k in Overlay(m, hs) <==> k in m
    ensures k in m ==> Overlay(m, hs)[k] == m[k]
    decreases |hs|
  {
    if hs != [] {
      OverlayUntouched(m, hs[..|hs| - 1], k);
    }
  }

  /** Among the extra headers the last one naming a key wins. */
  lemma {:induction false} OverlayLast(m: RequestOptions, hs: seq<(OptionKey, OptionValue)>, i: int)
    requires 0 <= i < |hs|
    requires forall j :: i < j < |hs| ==> hs[j].0 != hs[i].0
    ensures hs[i].0 in Overlay(m, hs) && Overlay(m, hs)[hs[i].0] == hs[i].1
    decreases |hs|
  {
    if i < |hs| - 1 {
      OverlayLast(m, hs[..|hs| - 1], i);
    }
  }

  /** The extra headers written over `m`: the last header naming a key
      decides its entry, and every other key keeps its entry. */
  lemma OverlayEntries(m: RequestOptions, hs: seq<(OptionKey, OptionValue)>, k: OptionKey)
    ensures var r := Overlay(m, hs);
      && ((forall i :: 0 <= i < |hs| ==> hs[i].0 != k) ==> (k in r <==> k in m) && (k in m ==> r[k] == m[k]))
      && (forall i :: 0 <= i < |hs| && hs[i].0 == k && (forall j :: i < j < |hs| ==> hs[j].0 != k) ==> k in r && r[k] == hs[i].1)
  {
    if forall i :: 0 <= i < |hs| ==> hs[i].0 != k {
      OverlayUntouched(m, hs, k);
    }
    forall i | 0 <= i < |hs| && hs[i].0 == k && (forall j :: i < j < |hs| ==> hs[j].0 != k)
      ensures k in Overlay(m, hs) && Overlay(m, hs)[k] == hs[i].1
    {
      OverlayLast(m, hs, i);
    }
  }

  /** Unless an extra header says otherwise, open-uri is told not to follow
      redirects, so `get` sees each one. */
  lemma RedirectsLeftToGet(o: Options, jar: CookieJar, referer: Option<Url>)
    requires forall i :: 0 <= i < |o.httpRequestHeaders| ==> o.httpRequestHeaders[i].0 != Redirect
    ensures Redirect in RequestOptionsFor(o, jar, referer)
    ensures RequestOptionsFor(o, jar, referer)[Redirect] == Flag(false)
  {
    BaseOptionsSettings(o, jar, referer);
    OverlayUntouched(BaseOptions(o, jar, referer), o.httpRequestHeaders, Redirect);
  }

  /** Unless an extra header says otherwise, the Cookie header is sent exactly
      when the store holds cookies and cookies are accepted or were seeded. */
  lemma CookieHeaderSent(o: Options, jar: CookieJar, referer: Option<Url>)
    requires forall i :: 0 <= i < |o.httpRequestHeaders| ==> o.httpRequestHeaders[i].0 != Header("Cookie")
    ensures (Header("Cookie") in RequestOptionsFor(o, jar, referer)) <==> !jar.IsEmpty() && (o.acceptCookies || o.cookies.Some?)
    ensures SendsCookies(o, jar) ==> RequestOptionsFor(o, jar, referer)[Header("Cookie")] == Text(jar.ToHeader())
  {
    BaseOptionsHeaders(o, jar, referer);
    OverlayUntouched(BaseOptions(o, jar, referer), o.httpRequestHeaders, Header("Cookie"));
  }

  // ---------------------------------------------------------------------
  // full_path
  // ---------------------------------------------------------------------

  /** A request target split at its first `?` into path and query. */
  function SplitQuery(s: string): (string, Option<string>)
    decreases |s|
  {
    if s == [] then ("", None)
    else if s[0] == '?' then ("", Some(s[1..]))
    else
      var r := SplitQuery(s[1..]);
      ([s[0]] + r.0, r.1)
  }

  lemma {:induction false} SplitAfter(p: string, rest: string)
    requires '?' !in p
    ensures SplitQuery(p + rest) == (p + SplitQuery(rest).0, SplitQuery(rest).1)
    decreases |p|
  {
    if p == [] {
      assert p + rest == rest;
      assert p + SplitQuery(rest).0 == SplitQuery(rest).0;
    } else {
      assert (p + rest)[0] == p[0];
      assert (p + rest)[1..] == p[1..] + rest;
      SplitAfter(p[1..], rest);
      assert [p[0]] + (p[1..] + SplitQuery(rest).0) == p + SplitQuery(rest).0;
    }
  }

  /** `full_path` loses nothing: splitting it at the first `?` gives back the
      path and the query, as long as the path holds no `?`. */
  lemma FullPathSplits(u: Url)
    requires '?' !in u.path
    ensures SplitQuery(FullPath(u)) == (u.path, u.query)
  {
    match u.query {
      case None =>
        SplitAfter(u.path, "");
        assert u.path + "" == u.path;
      case Some(q) =>
        assert u.path + "?" + q == u.path + ("?" + q);
        assert ("?" + q)[1..] == q;
        SplitAfter(u.path, "?" + q);
        assert u.path + "" == u.path;
    }
  }

  // ---------------------------------------------------------------------
  // get_response: retries
  // ---------------------------------------------------------------------

  predicate Redirected(a: Attempt) {
    a.Opened? && a.redirect.Some?
  }

  /** From attempt `retries` on: all attempts but the last were transient
      faults; the exchange gives up exactly when the last one was transient too,
      and that is the seventh attempt; a reply is the resource of the last
      attempt. */
  lemma {:induction false} RespondAttempts(net: Network, url: Url, req: RequestOptions, accept: bool,
                                           jar: CookieJar, retries: nat, redirectTo: Option<Url>)
    requires retries <= RETRY_LIMIT
    ensures var x := Respond(net, url, req, accept, jar, retries, redirectTo);
      && retries < x.attempts <= RETRY_LIMIT + 1
      && (forall i :: retries <= i < x.attempts - 1 ==> IsTransient(net(url, req, i)))
      && (x.outcome.GaveUp? <==> IsTransient(net(url, req, x.attempts - 1)))
      && (x.outcome.GaveUp? ==> x.attempts == RETRY_LIMIT + 1)
      && (x.outcome.Returned? ==>
            && net(url, req, x.attempts - 1).Opened?
            && net(url, req, x.attempts - 1).resource == x.outcome.reply.resource
            && x.outcome.reply.resource.readFault.None?)
    decreases RETRY_LIMIT - retries
  {
    var a := net(url, req, retries);
    var redirectTo' := if a.Opened? && a.redirect.Some? then a.redirect else redirectTo;
    var jar' := if a.Opened? && accept then jar.Merge(a.resource.setCookie) else jar;
    if IsTransient(a) && retries + 1 <= RETRY_LIMIT {
      RespondAttempts(net, url, req, accept, jar', retries + 1, redirectTo');
    }
  }

  /** `get_response` returns nil exactly when each of its seven attempts met a
      transient fault. */
  lemma GaveUpIff(net: Network, o: Options, jar: CookieJar, url: Url, referer: Option<Url>)
    ensures var req := RequestOptionsFor(o, jar, referer);
      GetResponseSpec(net, o, jar, url, referer).outcome.GaveUp? <==> forall i :: 0 <= i <= RETRY_LIMIT ==> IsTransient(net(url, req, i))
  {
    RespondAttempts(net, url, RequestOptionsFor(o, jar, referer), o.acceptCookies, jar, 0, None);
  }

  /** Without `accept_cookies` the cookie store is never written. */
  lemma {:induction false} RespondKeepsJar(net: Network, url: Url, req: RequestOptions,
                                           jar: CookieJar, retries: nat, redirectTo: Option<Url>)
    requires retries <= RETRY_LIMIT
    ensures Respond(net, url, req, false, jar, retries, redirectTo).jar == jar
    decreases RETRY_LIMIT - retries
  {
    var a := net(url, req, retries);
    var redirectTo' := if a.Opened? && a.redirect.Some? then a.redirect else redirectTo;
    if IsTransient(a) && retries + 1 <= RETRY_LIMIT {
      RespondKeepsJar(net, url, req, jar, retries + 1, redirectTo');
    }
  }

  /** The redirect target of a reply is the one of the last attempt when that
      attempt was a redirect, and otherwise the one an earlier attempt left
      (or the starting value when no attempt was a redirect). */
  lemma {:induction false} RespondRedirect(net: Network, url: Url, req: RequestOptions, accept: bool,
                                           jar: CookieJar, retries: nat, redirectTo: Option<Url>)
    requires retries <= RETRY_LIMIT
    ensures var x := Respond(net, url, req, accept, jar, retries, redirectTo);
      && retries < x.attempts
      && (x.outcome.Returned? && Redirected(net(url, req, x.attempts - 1)) ==>
            x.outcome.reply.redirectTo == net(url, req, x.attempts - 1).redirect)
      && (x.outcome.Returned? && x.outcome.reply.redirectTo != redirectTo ==>
            exists i :: retries <= i < x.attempts && Redirected(net(url, req, i))
                     && net(url, req, i).redirect == x.outcome.reply.redirectTo)
    decreases RETRY_LIMIT - retries
  {
    var a := net(url, req, retries);
    var redirectTo' := if a.Opened? && a.redirect.Some? then a.redirect else redirectTo;
    var jar' := if a.Opened? && accept then jar.Merge(a.resource.setCookie) else jar;
    if IsTransient(a) && retries + 1 <= RETRY_LIMIT {
      RespondRedirect(net, url, req, accept, jar', retries + 1, redirectTo');
    }
  }

  /** A redirect whose body cannot be read, followed by a plain answer, yields
      a reply that still carries the first attempt's redirect target: the
      variable is not reset between attempts. */
  lemma StaleRedirect(net: Network, url: Url, req: RequestOptions, accept: bool, jar: CookieJar,
                      first: Resource, target: Url, second: Resource)
    requires net(url, req, 0) == Opened(first, Some(target)) && first.readFault == Some(Transient)
    requires net(url, req, 1) == Opened(second, None) && second.readFault.None?
    ensures Respond(net, url, req, accept, jar, 0, None).outcome == Returned(Reply(second, Some(target)))
  { }

  // ---------------------------------------------------------------------
  // get: the redirect chain
  // ---------------------------------------------------------------------

  /** At most this many pages: the loop body runs at least once. */
  function MaxHops(limit: int): int {
    if limit > 1 then limit else 1
  }

  /** The loop appends to the pages it was given, at most `MaxHops(limit)` of
      them, and says why it stopped: the last page has no redirect target, or a
      target that is not allowed, or the limit ran out after exactly
      `MaxHops(limit)` pages, or an exception came before that. */
  lemma {:induction false} HopsStop(net: Network, o: Options, url: Url, referer: Option<Url>, jar: CookieJar,
                                    loc: Url, limit: int, pages: seq<Page>)
    ensures var h := HopsFrom(net, o, url, referer, jar, loc, limit, pages);
      var n := |h.pages|;
      && |pages| <= n <= |pages| + MaxHops(limit)
      && h.pages[..|pages|] == pages
      && (h.stop == Unredirected ==> n > |pages| && h.pages[n - 1].redirectTo.None?)
      && (h.stop == OffSite ==> n > |pages| && h.pages[n - 1].redirectTo.Some?
                                && !Allowed(h.pages[n - 1].redirectTo.value, url))
      && (h.stop == OutOfHops ==> n == |pages| + MaxHops(limit) && h.pages[n - 1].redirectTo.Some?
                                  && Allowed(h.pages[n - 1].redirectTo.value, url))
      && (h.stop == Broken ==> n < |pages| + MaxHops(limit))
    decreases if limit > 0 then limit else 0
  {
    if !(loc.IsRelative() && url.IsRelative()) {
      var target := Resolve(url, loc);
      var x := GetResponseSpec(net, o, jar, target, referer);
      if x.outcome.Returned? && x.outcome.reply.resource.status.Some? {
        var pages' := pages + [FetchedPage(target, x.outcome.reply, referer)];
        var next := x.outcome.reply.redirectTo;
        if next.Some? && Allowed(next.value, url) && limit - 1 > 0 {
          HopsStop(net, o, url, referer, x.jar, next.value, limit - 1, pages');
          var h := HopsFrom(net, o, url, referer, x.jar, next.value, limit - 1, pages');
          assert h.pages[..|pages|] == h.pages[..|pages'|][..|pages|];
        }
      }
    }
  }

  /** Each new page after the first was fetched from the resolved redirect
      target of the page before it, and that target was allowed. */
  lemma {:induction false} HopsChain(net: Network, o: Options, url: Url, referer: Option<Url>, jar: CookieJar,
                                     loc: Url, limit: int, pages: seq<Page>)
    requires !url.IsRelative()
    ensures var h := HopsFrom(net, o, url, referer, jar, loc, limit, pages);
      && (|h.pages| > |pages| ==> h.pages[|pages|].url == Uri(Resolve(url, loc)))
      && (forall i :: |pages| <= i < |h.pages| - 1 ==>
            && h.pages[i].redirectTo.Some?
            && Allowed(h.pages[i].redirectTo.value, url)
            && h.pages[i + 1].url == Uri(Resolve(url, h.pages[i].redirectTo.value)))
    decreases if limit > 0 then limit else 0
  {
    HopsStop(net, o, url, referer, jar, loc, limit, pages);
    var target := Resolve(url, loc);
    var x := GetResponseSpec(net, o, jar, target, referer);
    if x.outcome.Returned? && x.outcome.reply.resource.status.Some? {
      var p := FetchedPage(target, x.outcome.reply, referer);
      var pages' := pages + [p];
      var next := x.outcome.reply.redirectTo;
      if next.Some? && Allowed(next.value, url) && limit - 1 > 0 {
        HopsChain(net, o, url, referer, x.jar, next.value, limit - 1, pages');
        HopsStop(net, o, url, referer, x.jar, next.value, limit - 1, pages');
        var h := HopsFrom(net, o, url, referer, x.jar, next.value, limit - 1, pages');
        assert h.pages[|pages|] == h.pages[..|pages'|][|pages|] == p;
      }
    }
  }

  /** A page as `get` yields it: fetched from the original host or from a URL
      naming no host, with the referer and an integer status, no depth yet,
      and not an error page. */
  predicate Yielded(p: Page, url: Url, referer: Option<Url>) {
    && p.url.Uri? && Allowed(p.url.uri, url)
    && p.fetched && p.code.Some? && p.referer == referer
    && p.depth.None? && !p.error
  }

  /** Resolving an allowed location against the request URL keeps it allowed. */
  lemma ResolveAllowed(url: Url, loc: Url)
    requires Allowed(loc, url) && !(loc.IsRelative() && url.IsRelative())
    ensures Allowed(Resolve(url, loc), url)
  { }

  lemma YieldedExtend(pages: seq<Page>, p: Page, h: seq<Page>, url: Url, referer: Option<Url>)
    requires |pages| < |h| && h[|pages|] == p && Yielded(p, url, referer)
    requires forall i :: |pages| + 1 <= i < |h| ==> Yielded(h[i], url, referer)
    ensures forall i :: |pages| <= i < |h| ==> Yielded(h[i], url, referer)
  { }

  /** Every page `get` yields was fetched from the original host or from a
      URL naming no host, records the referer and an integer status, and is
      not an error page. */
  lemma {:induction false} HopsPages(net: Network, o: Options, url: Url, referer: Option<Url>, jar: CookieJar,
                                     loc: Url, limit: int, pages: seq<Page>)
    requires Allowed(loc, url)
    ensures var h := HopsFrom(net, o, url, referer, jar, loc, limit, pages);
      forall i :: |pages| <= i < |h.pages| ==> Yielded(h.pages[i], url, referer)
    decreases if limit > 0 then limit else 0
  {
    HopsStop(net, o, url, referer, jar, loc, limit, pages);
    if !(loc.IsRelative() && url.IsRelative()) {
      var target := Resolve(url, loc);
      ResolveAllowed(url, loc);
      var x := GetResponseSpec(net, o, jar, target, referer);
      if x.outcome.Returned? && x.outcome.reply.resource.status.Some? {
        var p := FetchedPage(target, x.outcome.reply, referer);
        assert Yielded(p, url, referer);
        var pages' := pages + [p];
        var next := x.outcome.reply.redirectTo;
        if next.Some? && Allowed(next.value, url) && limit - 1 > 0 {
          HopsPages(net, o, url, referer, x.jar, next.value, limit - 1, pages');
          HopsStop(net, o, url, referer, x.jar, next.value, limit - 1, pages');
          var h := HopsFrom(net, o, url, referer, x.jar, next.value, limit - 1, pages');
          assert h.pages[|pages|] == h.pages[..|pages'|][|pages|] == p;
          YieldedExtend(pages, p, h.pages, url, referer);
        }
      }
    }
  }

  /** Without `accept_cookies` the redirect loop leaves the cookie store as it was. */
  lemma {:induction false} HopsKeepJar(net: Network, o: Options, url: Url, referer: Option<Url>, jar: CookieJar,
                                       loc: Url, limit: int, pages: seq<Page>)
    requires !o.acceptCookies
    ensures HopsFrom(net, o, url, referer, jar, loc, limit, pages).jar == jar
    decreases if limit > 0 then limit else 0
  {
    if !(loc.IsRelative() && url.IsRelative()) {
      var target := Resolve(url, loc);
      RespondKeepsJar(net, target, RequestOptionsFor(o, jar, referer), jar, 0, None);
      var x := GetResponseSpec(net, o, jar, target, referer);
      if x.outcome.Returned? && x.outcome.reply.resource.status.Some? {
        var pages' := pages + [FetchedPage(target, x.outcome.reply, referer)];
        var next := x.outcome.reply.redirectTo;
        if next.Some? && Allowed(next.value, url) && limit - 1 > 0 {
          HopsKeepJar(net, o, url, referer, x.jar, next.value, limit - 1, pages');
        }
      }
    }
  }

  /** `get(url, referer)`: nothing for a relative URL; otherwise at most
      `max(1, redirect_limit)` pages, the first fetched from `url` itself and
      each later one from the allowed redirect target of the page before it,
      all on the original host or naming no host. */
  lemma GetRedirectChain(net: Network, o: Options, jar: CookieJar, url: Url, referer: Option<Url>)
    ensures var h := GetSpec(net, o, jar, url, referer);
      && |h.pages| <= MaxHops(RedirectLimit(o))
      && (url.IsRelative() ==> h.pages == [])
      && (h.pages != [] ==> h.pages[0].url == Uri(url))
      && (!url.IsRelative() ==> forall i :: 0 <= i < |h.pages| - 1 ==>
            && h.pages[i].redirectTo.Some?
            && Allowed(h.pages[i].redirectTo.value, url)
            && h.pages[i + 1].url == Uri(Resolve(url, h.pages[i].redirectTo.value)))
      && (forall i :: 0 <= i < |h.pages| ==>
            h.pages[i].url.Uri? && Allowed(h.pages[i].url.uri, url) && h.pages[i].referer == referer)
  {
    HopsStop(net, o, url, referer, jar, url, RedirectLimit(o), []);
    HopsPages(net, o, url, referer, jar, url, RedirectLimit(o), []);
    if !url.IsRelative() {
      HopsChain(net, o, url, referer, jar, url, RedirectLimit(o), []);
    }
  }

  /** Fewer than `max(1, redirect_limit)` pages means the chain ended on a
      page without an allowed redirect target, or an exception cut it short;
      a redirect off the host ends it at once. */
  lemma GetStops(net: Network, o: Options, jar: CookieJar, url: Url, referer: Option<Url>)
    ensures var h := GetSpec(net, o, jar, url, referer);
      var n := |h.pages|;
      && (h.stop == OutOfHops <==> n == MaxHops(RedirectLimit(o)) && n > 0 && h.pages[n - 1].redirectTo.Some?
                                    && Allowed(h.pages[n - 1].redirectTo.value, url) && h.stop != Broken)
      && (n > 0 && h.pages[0].redirectTo.Some? && !Allowed(h.pages[0].redirectTo.value, url) ==> n == 1)
  {
    HopsStop(net, o, url, referer, jar, url, RedirectLimit(o), []);
    if !url.IsRelative() {
      HopsChain(net, o, url, referer, jar, url, RedirectLimit(o), []);
    }
  }

  /** `get` swallows exceptions: when the first request raises an exception
      that is not transient, it yields nothing and stops quietly. */
  lemma GetMayBeEmpty(net: Network, o: Options, jar: CookieJar, url: Url, referer: Option<Url>)
    requires !url.IsRelative()
    requires net(url, RequestOptionsFor(o, jar, referer), 0) == Failed(Fatal)
    ensures GetSpec(net, o, jar, url, referer).pages == []
    ensures GetSpec(net, o, jar, url, referer).stop == Broken
  { }

  // ---------------------------------------------------------------------
  // fetch_pages and fetch_page
  // ---------------------------------------------------------------------

  /** `fetch_pages`: when the URL parses, the pages of `get` in order, each at
      `depth`; when it does not, one error page for the URL, with the cookie
      store untouched. An error page appears exactly when the URL did not
      parse. */
  lemma FetchPagesResult(net: Network, parse: Parser, o: Options, jar: CookieJar,
                         url: UrlLike, referer: Option<Url>, depth: int)
    ensures var f := FetchPagesSpec(net, parse, o, jar, url, referer, depth);
      && (Parsed(parse, url).None? ==> f.pages == [ErrorPage(url)] && f.jar == jar)
      && (Parsed(parse, url).Some? ==>
            var h := GetSpec(net, o, jar, Parsed(parse, url).value, referer);
            && |f.pages| == |h.pages| <= MaxHops(RedirectLimit(o))
            && f.jar == h.jar
            && forall i :: 0 <= i < |f.pages| ==> f.pages[i] == h.pages[i].(depth := Some(depth)))
      && ((exists i :: 0 <= i < |f.pages| && f.pages[i].error) <==> Parsed(parse, url).None?)
  {
    match Parsed(parse, url) {
      case None =>
        assert FetchPagesSpec(net, parse, o, jar, url, referer, depth).pages[0].error;
      case Some(u) =>
        GetRedirectChain(net, o, jar, u, referer);
        HopsPages(net, o, u, referer, jar, u, RedirectLimit(o), []);
        var f := FetchPagesSpec(net, parse, o, jar, url, referer, depth);
        var h := GetSpec(net, o, jar, u, referer);
        assert h == HopsFrom(net, o, u, referer, jar, u, RedirectLimit(o), []);
        assert f.pages == Stamp(h.pages, depth);
        forall i | 0 <= i < |f.pages|
          ensures !f.pages[i].error
        {
          assert !h.pages[i].error;
          assert f.pages[i] == h.pages[i].(depth := Some(depth));
        }
    }
  }

  /** `fetch_page` returns the last page of `fetch_pages`, and nil only when
      the URL parsed and `get` yielded nothing. */
  lemma FetchPageLast(net: Network, parse: Parser, o: Options, jar: CookieJar,
                      url: UrlLike, referer: Option<Url>, depth: int)
    ensures var f := FetchPagesSpec(net, parse, o, jar, url, referer, depth);
      && (Last(f.pages).None? <==> Parsed(parse, url).Some? && GetSpec(net, o, jar, Parsed(parse, url).value, referer).pages == [])
      && (Last(f.pages).Some? ==> Last(f.pages).value == f.pages[|f.pages| - 1])
  { }

  /** Without `accept_cookies`, fetching leaves the cookie store as it was. */
  lemma FetchPagesKeepJar(net: Network, parse: Parser, o: Options, jar: CookieJar,
                          url: UrlLike, referer: Option<Url>, depth: int)
    requires !o.acceptCookies
    ensures FetchPagesSpec(net, parse, o, jar, url, referer, depth).jar == jar
  {
    if Parsed(parse, url).Some? {
      var u := Parsed(parse, url).value;
      HopsKeepJar(net, o, u, referer, jar, u, RedirectLimit(o), []);
    }
  }
}
