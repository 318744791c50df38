/**
 * URLs and pages, as far as the page store and the HTTP client look at them.
 * URI parsing, `to_s` and relative resolution belong to a foreign library;
 * here they are a plain record and small total functions.
 */
module Urls {
  import opened Wrappers

  /** A parsed URI: the parts the crawler core reads. */
  datatype Url = Url(scheme: Option<string>, host: Option<string>, path: string, query: Option<string>) {

    /** `URI#relative?`: a reference without a scheme. */
    predicate IsRelative() {
      scheme.None?
    }
  }

  /** The string form of a URL (`URI#to_s`), used as the page store's key. */
  function UrlString(u: Url): string {
    (match u.scheme case Some(s) => s + ":" case None => "")
    + (match u.host case Some(h) => "//" + h case None => "")
    + u.path
    + (match u.query case Some(q) => "?" + q case None => "")
  }

  /** `base.merge(ref)` for a relative `ref` and an absolute `base`: the reference
      keeps its own host when it has one, and otherwise takes the base's host;
      the scheme always comes from the base. Path resolution is not modelled. */
  function Merge(base: Url, ref: Url): Url
    requires !base.IsRelative()
  {
    if ref.host.Some? then ref.(scheme := base.scheme)
    else ref.(scheme := base.scheme, host := base.host)
  }

  /** What Ruby methods accept where they say "url": a URI object or a String. */
  datatype UrlLike = Uri(uri: Url) | Str(text: string)
}

/** The Page record. The Page class is not part of this model: only the
    attributes the page store and the HTTP client read or write are kept. */
module Pages {
  import opened Wrappers
  import opened Urls

  datatype Page = Page(
    url: UrlLike,
    links: seq<Url>,          // outbound links extracted from the body
    fetched: bool,            // `fetched?`: a response code is present
    code: Option<int>,
    referer: Option<Url>,
    redirectTo: Option<Url>,  // `redirect_to`; `redirect?` is `redirectTo.Some?`
    depth: Option<int>,
    visited: bool,
    error: bool)              // an exception was captured instead of a response
  {
    predicate IsRedirect() {
      redirectTo.Some?
    }
  }

  /** `Page.new(url)`: a placeholder that reserves a URL before it is fetched. */
  function Placeholder(url: Url): Page {
    Page(Uri(url), [], false, None, None, None, None, false, false)
  }

  /** `Page.new(url, :error => e)`: the page standing for a failed fetch. */
  function ErrorPage(url: UrlLike): Page {
    Page(url, [], false, None, None, None, None, false, true)
  }
}
