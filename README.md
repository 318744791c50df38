# Medusa crawler core in Dafny

A model of two parts of the Medusa web crawler (a fork of Anemone), with
proofs about them:

- **The page store** (`lib/medusa/page_store.rb`). This is a hash from the string form of a URL
  to its Page, and it doubles as the crawl graph. It has:
  - lookups, stores and deletes that all act on `to_s`;
  - placeholder insertion (`touch_key`, `touch_keys`);
  - `has_page?`, which treats http and https as one page;
  - `shortest_paths!`, an in-place breadth-first search that writes each reachable page's `depth`
    and `visited`. A redirect page is labelled one level below its parent but is not queued, and
    its target is then examined under the same parent (the `redo`).
- **The fetch control logic of the HTTP client** (`lib/medusa/http.rb`):
  - the options hash `get_response` hands to `open`;
  - its retry counter (at most seven attempts);
  - the redirect loop of `get`, with its limit and same-host check;
  - how `fetch_pages` stamps depths and falls back to an error page.

Layout:

| file | module | contents |
|---|---|---|
| `wrappers.dfy` | `Wrappers` | `Option` |
| `urls.dfy` | `Urls`, `Pages` | the URL record, `to_s`, `merge`, and the Page record |
| `page_store.dfy` | `PageStores` | the class `PageStore`, plus `shortest_paths!` as functions on maps (`Follow`, `VisitLinks`, `Drain`, `Traverse`). The methods are proved equal to these functions. |
| `shortest_paths.dfy` | `ShortestPaths` | what the breadth-first labelling promises |
| `distances.dfy` | `ShortestDistances` | that the labelling computes single-source shortest paths |
| `worked_example.dfy` | `WorkedExample` | the five-page example of `spec/page_store_spec.rb` |
| `http.dfy` | `HttpFetch` | the options, the request map, the network oracle, the specification functions of `get_response`, `get` and `fetch_pages`, and the class `Http`. Its methods are proved equal to those functions. |
| `http_properties.dfy` | `HttpProperties` | what the HTTP client promises |

Foreign code becomes parameters or simple stand-ins:

- The network is an oracle, `Network`. It is a function from:
  - the URL,
  - the options hash,
  - and the number of the attempt,

  to what `open` did: it produced a resource (possibly through an HTTPRedirect or an HTTPError), or it raised a transient or a fatal fault. A produced resource carries its status, its Set-Cookie header, the links of its body, and the fault reading it raises, if any.
- Parsing a string into a URI is an oracle, `Parser`.
- URIs are a record with:
  - a scheme, host, path and query;
  - `to_s`;
  - a `merge` that only fixes the scheme and the host.

## Model

| member | source | states |
|---|---|---|
| PageStores.PageStore.constructor | lib/medusa/page_store.rb:6-8 | A new store holds exactly the given map. |
| PageStores.PageStore.Get | lib/medusa/page_store.rb:12-14 | `[]` finds a page exactly when the URL's string form is a key, and the page it finds is the one stored under that string. |
| PageStores.PageStore.HasKey | lib/medusa/page_store.rb:24-26 | `key?` holds exactly when `[]` finds a page for the URL. |
| PageStores.PageStore.Set | lib/medusa/page_store.rb:12-18 | `[]=` stores under `index.to_s`. Afterwards `[]` of the index reads back the page, and every URL with a different string form reads back what it did before. |
| PageStores.PageStore.Delete | lib/medusa/page_store.rb:20-26 | `delete` returns the page that was stored under `key.to_s` (or nil) and removes exactly that key. Afterwards `key?` is false, and every other URL reads back what it did before. |
| PageStores.PageStore.TouchKey | lib/medusa/page_store.rb:28-30 | `touch_key` overwrites whatever was under the key with a fresh placeholder page. |
| PageStores.PageStore.TouchKeys | lib/medusa/page_store.rb:32-36 | `touch_keys` leaves the storage as `touch_key` applied to every key in order would. |
| PageStores.TouchAllKeys | lib/medusa/page_store.rb:32-36 | After `touch_keys`, the keys are the old keys plus the string forms of the touched URLs, and nothing else. |
| PageStores.TouchAllUntouched | lib/medusa/page_store.rb:32-36 | A key that none of the touched URLs names keeps its page. |
| PageStores.TouchAllPlaceholder | lib/medusa/page_store.rb:28-36 | A touched key holds the placeholder of the last URL in the list that names it. |
| PageStores.PageStore.HasPage | lib/medusa/page_store.rb:38-48 | For an http or https URL, `has_page?` holds iff its http variant or its https variant is a key. For any other URL it equals `key?`. Every key is a page. The argument is a value, so it is not changed. |
| PageStores.Follow | lib/medusa/page_store.rb:68-80 | One link of a page at depth d. Only present, fetched, unvisited pages are labelled, each at d+1. At most one key is added to the queue, and it is a labelled page that is not a redirect. The link ends up no longer labellable, and the count of unvisited keys plus queue length does not grow (the redo terminates). |
| PageStores.VisitLinks | lib/medusa/page_store.rb:67-82 | The links of one dequeued page, in order. It has the same labelling and queueing facts as Follow, the keys it queues are distinct, and every link ends settled. |
| PageStores.PageStore.FollowLink | lib/medusa/page_store.rb:68-80 | The body of the link loop, with `next` and `redo`, leaves the storage and the queue that Follow computes. |
| PageStores.PageStore.VisitPage | lib/medusa/page_store.rb:67-82 | The `each` over a page's links leaves the storage and the queue that VisitLinks computes. |
| PageStores.PageStore.DrainQueue | lib/medusa/page_store.rb:65-83 | The `while !q.empty?` loop leaves the storage and the dequeue order that Drain computes. |
| PageStores.PageStore.ShortestPaths | lib/medusa/page_store.rb:54-86 | A missing root raises "Root node not found" with the store untouched. Otherwise it returns the store itself, labelled as Traverse says. What Traverse's labelling is, is proved in the lemmas below, ShortestDistances.TraverseShortest among them. |
| ShortestPaths.TraverseRootMissing | lib/medusa/page_store.rb:56 | The traversal has no result exactly when the root is not a key. |
| ShortestPaths.TraverseFrame | lib/medusa/page_store.rb:61-75 | The keys stay the same, and the root is visited at depth 0. Every other page is either unchanged, or was present, fetched and unvisited and is now visited with a depth, with all other attributes kept. |
| ShortestPaths.TraverseQueue | lib/medusa/page_store.rb:58-75 | The root is dequeued first, and no key is queued twice. Every other queued key was a present, fetched, unvisited page that is not a redirect. Every relabelled page that is not a redirect was queued. Every queued page ends visited. |
| ShortestPaths.TraverseParents | lib/medusa/page_store.rb:66-80 | Every relabelled page other than the root has the depth of a dequeued page plus one. It is reached from one of that page's links through zero or more redirect pages. |
| ShortestPaths.TraverseIdempotent | lib/medusa/page_store.rb:54-86 | Running `shortest_paths!` again from the same root on its own result changes nothing. |
| ShortestDistances.TraverseShortest | lib/medusa/page_store.rb:50-86 | Single-source shortest paths, when no page was visited before. Take a path from the root: it follows the links of the root and of non-redirect pages (each hop costs 1) or the target of a redirect page (each hop costs 0), through present, fetched pages. Its last page ends visited, with a depth at most the path's cost. |
| ShortestDistances.TraverseClosed | lib/medusa/page_store.rb:58-83 | When no page was visited before, for every hop out of a visited page, the target ends visited, at a depth no more than the hop's cost below the source. |
| ShortestDistances.TraverseRelaxesLinks | lib/medusa/page_store.rb:58-82 | When no page was visited before, every visited page whose links the traversal follows ends with each fetched link target visited, at most one level deeper. |
| ShortestDistances.TraverseRelaxesRedirects | lib/medusa/page_store.rb:72-75 | When no page was visited before, every visited redirect page other than the root ends with its fetched target visited, at a depth no greater. |
| ShortestDistances.DrainRelaxesLinks | lib/medusa/page_store.rb:65-83 | While the queue is in breadth-first order, every dequeued page ends with each fetched link target visited, at most one level deeper. |
| ShortestDistances.DrainRelaxesRedirects | lib/medusa/page_store.rb:65-83 | While the queue is in breadth-first order, every redirect page the drain labels ends with its fetched target visited, at a depth no greater. |
| ShortestDistances.FrontierStep | lib/medusa/page_store.rb:65-82 | One dequeue keeps the breadth-first invariant. The queue's depths never decrease and span at most one level. No page is deeper than one level below the queue's head. |
| ShortestDistances.FollowRelaxesRedirects | lib/medusa/page_store.rb:68-80 | While no page is deeper than d+1, every redirect page that following one link labels ends with its target settled no deeper (the `redo`). |
| ShortestDistances.VisitLinksRelaxesRedirects | lib/medusa/page_store.rb:67-82 | The same, over all the links of one dequeued page. |
| ShortestDistances.VisitLinksRelaxesLinks | lib/medusa/page_store.rb:67-82 | While no page is deeper than d+1, after its links are visited, a dequeued page at depth d has each fetched link target visited at depth at most d+1. |
| WorkedExample.ExampleDepths | spec/page_store_spec.rb:14-34 | In the setup, 0 links to 1 and 3, 1 redirects to 2, and 2 links to 4. From 0, the depths are 0, 1, 1, 1 and 2, and the pages are dequeued in the order 0, 2, 3, 4. |
| HttpFetch.Http.constructor | lib/medusa/http.rb:14-17 | A new client keeps the options, and its cookie store is seeded from `:cookies` (empty when none are given). |
| HttpFetch.Http.BuildRequestOptions | lib/medusa/http.rb:175-185 | The options hash `get_response` builds entry by entry is RequestOptionsFor. This includes lines 181-182 as Ruby parses them. |
| HttpProperties.BaseOptionsKeys | lib/medusa/http.rb:175-183 | Before the extra headers, the hash holds only the keys `get_response` writes. |
| HttpProperties.BaseOptionsHeaders | lib/medusa/http.rb:176-178 | The hash has a User-Agent iff one is configured, and a Referer (`referer.to_s`) iff a referer is given. It has a Cookie iff the store is non-empty and either cookies are accepted or seed cookies were configured. |
| HttpProperties.BaseOptionsSettings | lib/medusa/http.rb:179-183 | Basic authentication and proxy each appear iff configured, with their values. Proxy authentication appears iff both it and a read timeout are configured. The read timeout never appears. `:redirect` is always false. |
| HttpProperties.ReadTimeoutLost | lib/medusa/http.rb:181-182 | A configured read timeout is missing from the hash as written, and present in the intended hash. |
| HttpProperties.ProxyLoginLost | lib/medusa/http.rb:181-182 | Proxy authentication configured without a read timeout is missing from the hash as written, and present in the intended hash. |
| HttpProperties.IntendedOptionsSettings | lib/medusa/http.rb:179-183 | In the intended hash, basic authentication, proxy, proxy authentication and read timeout each appear iff configured, with their values. `:redirect` is always false. |
| HttpProperties.IntendedAgreesElsewhere | lib/medusa/http.rb:175-183 | The hash as written and the intended hash agree on every key other than proxy authentication and read timeout. |
| HttpProperties.OverlayEntries | lib/medusa/http.rb:185 | The extra headers are applied last. The last header naming a key decides its entry, and every other key keeps its entry. |
| HttpProperties.RedirectsLeftToGet | lib/medusa/http.rb:183-185 | Unless an extra header overrides it, open-uri is told not to follow redirects. |
| HttpProperties.CookieHeaderSent | lib/medusa/http.rb:178 | Unless an extra header overrides it, the Cookie header is sent iff the store is non-empty and either cookies are accepted or seeds were given. When sent, it holds the store's string form. |
| HttpFetch.RedirectLimit | lib/medusa/http.rb:57-59 | `redirect_limit` is the configured limit when one is given, including 0, and 5 otherwise. |
| HttpFetch.Allowed | lib/medusa/http.rb:226-228 | If a redirect target is allowed, then merging it into the original request's URL keeps that URL's host. A target that is not allowed names a different host. |
| HttpProperties.FullPathSplits | lib/medusa/http.rb:173 | `full_path` is the path, plus `?` and the query when there is one. Splitting it at the first `?` gives back the path and the query. |
| HttpFetch.Http.GetResponse | lib/medusa/http.rb:172-217 | The retry loop leaves the outcome and the cookie store that Respond computes. |
| HttpProperties.RespondAttempts | lib/medusa/http.rb:187-210 | All attempts but the last met a transient fault, and there are at most seven. The exchange gives up (returning nil) exactly when the last attempt was transient too, which is then the seventh. A reply is the resource of the last attempt. |
| HttpProperties.GaveUpIff | lib/medusa/http.rb:206-210 | `get_response` returns nil iff each of its seven attempts met a transient fault. |
| HttpProperties.RespondKeepsJar | lib/medusa/http.rb:202 | Without `accept_cookies?` the cookie store is never written. |
| HttpProperties.RespondRedirect | lib/medusa/http.rb:184-195 | The redirect target of a reply comes from the last attempt when that attempt was an HTTPRedirect. Otherwise it comes from an earlier attempt, because `redirect_to` is not reset between retries. |
| HttpFetch.Http.Get | lib/medusa/http.rb:139-167 | The do-while `get` yields the pages, and leaves the cookie store, that GetSpec computes. |
| HttpProperties.HopsStop | lib/medusa/http.rb:141-161 | The loop only appends, at most max(1, limit) pages. It stops because the last page has no redirect target, or a target that is not allowed, or the limit ran out after exactly max(1, limit) pages, or an exception came before that. |
| HttpProperties.HopsChain | lib/medusa/http.rb:145-161 | Each page but the last has an allowed redirect target. The next page was fetched from that target, merged with the original URL when relative. |
| HttpProperties.HopsPages | lib/medusa/http.rb:147-159 | Every yielded page was fetched from the original host or from a URL naming no host. It records the referer and an integer status, and is not an error page. |
| HttpProperties.GetRedirectChain | lib/medusa/http.rb:139-161 | `get` yields nothing for a relative URL. Otherwise it yields at most max(1, `redirect_limit`) pages, where the limit is the configured one or 5 (lib/medusa/http.rb:57-59). The first page is fetched from the URL itself and each later one from the allowed target of the page before, all on the original host or naming no host. |
| HttpProperties.GetStops | lib/medusa/http.rb:161 | The loop ends because the limit ran out iff it yielded max(1, limit) pages and the last one had an allowed target. A first redirect to another host (not `allowed?`) ends it after one page. |
| HttpProperties.ResolveAllowed | lib/medusa/http.rb:226-228 | An allowed location stays allowed once merged with the original URL. |
| HttpProperties.GetMayBeEmpty | lib/medusa/http.rb:163-167 | A first request that raises a non-transient exception makes `get` yield nothing and stop quietly. |
| HttpProperties.HopsKeepJar | lib/medusa/http.rb:202 | Without `accept_cookies?` the redirect loop leaves the cookie store as it was. |
| HttpFetch.Http.FetchPages | lib/medusa/http.rb:31-52 | `fetch_pages` returns the pages, and leaves the cookie store, that FetchPagesSpec computes. |
| HttpProperties.FetchPagesResult | lib/medusa/http.rb:31-49 | When the URL parses, the result is the pages of `get` in order, each stamped with the requested depth. When it does not, the result is exactly one error page for the URL, with the store untouched. An error page appears iff the URL did not parse. |
| HttpFetch.Http.FetchPage | lib/medusa/http.rb:23-25 | `fetch_page` returns the last page of `fetch_pages`. |
| HttpProperties.FetchPageLast | lib/medusa/http.rb:23-25 | `fetch_page` gives nil exactly when the URL parsed and `get` yielded nothing. |

Behaviour of the code worth knowing (the model follows the code):

- `get` fetches at most max(1, `redirect_limit`) pages: it runs its body once and then continues only while the decremented limit is positive, so the limit counts fetches, not redirects after the first.
- Inside `get`, every exception is rescued, including a URI merge failure, a nil response and an unparsable status. So the only exception that reaches the rescue of `fetch_pages` is the one from URI conversion, and it comes before any page is gathered. The error case is therefore always a single error page. `fetch_pages` sets no depth on the error page, because the depth block never runs for it.
- `fetch_pages`, and so `fetch_page`, can return nothing: an empty list, or nil from `fetch_page`.
- `redirect_to` is set before the retry loop and only written on an HTTPRedirect. A body read that times out or hits end of file (a transient fault) is retried, and the attempt after it keeps the earlier attempt's redirect target (lemma `HttpProperties.StaleRedirect`).
- A `redirect_limit` of 0 is kept, because Ruby's `||` only falls back on nil or false.
- `full_path` is computed but never used afterwards.
- In `get`, the debug line (lib/medusa/http.rb:157) ends in a `rescue` modifier, so the next line, `pages.push p`, is its rescue body. That push therefore runs only when the debug callback raises. This is harmless, because `get` never reads its local `pages`: the pages reach the caller through `yield`, which the model's `Get` returns as its list.

## Findings

| source | as written | input that shows it | evidently intended | confidence | as-written member | corrected member |
|---|---|---|---|---|---|---|
| lib/medusa/http.rb:181-182 | The proxy-credentials line ends in a `rescue` modifier, so the read-timeout line is its rescue body. `rescue` binds tighter than the closing `if`, so the read-timeout guard closes the whole pair: the credentials assignment, under its own guard, with the timeout assignment as its rescue. The assignment never raises, so `:read_timeout` is never written, and the proxy credentials are written only when a read timeout is also configured. | options `read_timeout: 10` (no `:read_timeout` entry), or `proxy_http_basic_authentication: creds` without a read timeout (no proxy-credentials entry) | two independent statements: each entry written whenever its option is configured | not executed; follows from Ruby's grammar | HttpProperties.ReadTimeoutLost | HttpProperties.IntendedOptionsSettings |

## Left out

- The network call `open`, the response stream and closing it, and the OpenURI exception classes. `open` becomes the `Network` oracle. The oracle's answer depends only on the URL, the options hash and the attempt number.
- PageStores.PageStore.ShortestPaths: the root is a `Url`; a String root, which `shortest_paths!` converts with `URI(root_uri)` (lib/medusa/page_store.rb:55), and that conversion's parse error are not modelled.
- URI parsing (`URI(url)`), `to_s` and relative `merge`, which belong to a foreign library. `merge` keeps the reference's path and query and takes the scheme, and the host when the reference has none, from the base; path resolution is not modelled.
- Page internals (body parsing, `links`, `fetched?`, `redirect?`). A page is a record holding the attributes the core reads and writes. Pages are values here, so aliasing is not modelled: neither a Page object shared between the store and a caller, nor one Page object stored under two keys, where writing `visited` and `depth` through one key would show under the other too.
- CookieStore is not part of this model. A stand-in keeps cookies as a list, writes them `; `-separated, and records each Set-Cookie value. Only whether the store is read, merged or left alone is modelled.
- `sleep(3 ^ retries)` (in Ruby, `^` is exclusive or), the `delay` option, and the `response_time` measurement from the clock.
- The `debug_request` callback, `verbose?` output and `puts`.
- `proxy_host` and `proxy_port`, which the fetch logic never reads.
- Exceptions from `Page.new` itself and from `merge!`.
- PageStores.PageStore.ShortestPaths: the shortest-path promise is proved for a store in which no page was visited before, which is how a crawl leaves it. A page visited earlier keeps its old depth and blocks the search, and the model states nothing about depths there. Besides the upper bound of ShortestDistances.TraverseShortest, the model proves that each depth is one more than a dequeued page's depth (ShortestPaths.TraverseParents). It does not prove, as one lemma, that every depth equals the cost of some path.
- IntendedBaseOptions is what the rest of the model would use if lines 181-182 were two statements. The request map that `get_response` sends (RequestOptionsFor) uses the hash as written, because that is what the code sends.
- PageStores.PageStore.constructor: the default argument `storage = {}` is not modelled; a caller passes the map, the empty map for the default.
- The `false` value of options other than `accept_cookies`: each option is either given or nil.
- lib/medusa/tentacle.rb (a thread worker around queues, fetches and sleeps) and lib/medusa/cli/pagedepth.rb (command-line handling). Neither has logic of its own in the core.
- The FakeWeb and crawl setup of spec/page_store_spec.rb. Only the crawled graph and its expected depths are kept.
