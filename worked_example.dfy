/**
 * The breadth-first example of spec/page_store_spec.rb:14-34: page 0 links to
 * pages 1 and 3, page 1 redirects to page 2, and page 2 links to page 4.
 * After `shortest_paths!` from page 0 the depths are 0, 1, 1, 1 and 2: the
 * redirect target 2 sits at the depth of the redirect 1, not one below it.
 */
module WorkedExample {
  import opened Wrappers
  import opened Urls
  import opened Pages
  import opened PageStores

  function Address(c: char): Url {
    Url(Some("http"), Some("www.example.com"), [ '/', c ], None)
  }

  /** The string form of the address of page `c`: `http://www.example.com/c`. */
  function Key(c: char): string {
    UrlString(Address(c))
  }

  lemma KeyEnds(c: char)
    ensures |Key(c)| == 24 && Key(c)[23] == c
  {
    assert Key(c) == "http:" + "//www.example.com" + ['/', c];
  }

  lemma KeysDiffer(c: char, c': char)
    requires c != c'
    ensures Key(c) != Key(c')
  {
    KeyEnds(c);
    KeyEnds(c');
  }

  /** A fetched page, as the crawl leaves it once its depth is cleared. */
  function Fetched(u: Url, links: seq<Url>, redirect: Option<Url>): Page {
    Page(Uri(u), links, true, Some(if redirect.Some? then 301 else 200), None, redirect, None, false, false)
  }

  /** The five addresses of the example. */
  datatype Site = Site(u0: Url, u1: Url, u2: Url, u3: Url, u4: Url) {
    function K0(): string { UrlString(u0) }
    function K1(): string { UrlString(u1) }
    function K2(): string { UrlString(u2) }
    function K3(): string { UrlString(u3) }
    function K4(): string { UrlString(u4) }

    predicate Distinct() {
      && K0() != K1() && K0() != K2() && K0() != K3() && K0() != K4() && K1() != K2()
      && K1() != K3() && K1() != K4() && K2() != K3() && K2() != K4() && K3() != K4()
    }

    /** The store after the crawl: 0 links to 1 and 3, 1 redirects to 2, 2 links to 4. */
    function Crawled(): Storage {
      map[
        K0() := Fetched(u0, [u1, u3], None),
        K1() := Fetched(u1, [], Some(u2)),
        K2() := Fetched(u2, [u4], None),
        K3() := Fetched(u3, [], None),
        K4() := Fetched(u4, [], None)]
    }

    // The store after each page is labelled, in the order the traversal labels them.
    function S0(): Storage { Crawled()[K0() := Label(Crawled()[K0()], 0)] }
    function S1(): Storage { S0()[K1() := Label(Crawled()[K1()], 1)] }
    function S2(): Storage { S1()[K2() := Label(Crawled()[K2()], 1)] }
    function S3(): Storage { S2()[K3() := Label(Crawled()[K3()], 1)] }
    function S4(): Storage { S3()[K4() := Label(Crawled()[K4()], 2)] }
  }

  /** The store of spec/page_store_spec.rb:14-18. */
  function Example(): Site {
    Site(Address('0'), Address('1'), Address('2'), Address('3'), Address('4'))
  }

  /** The depths `shortest_paths!` assigns in the example, and the order in
      which it dequeues the pages: the redirect page 1 is never queued. */
  lemma ExampleDepths()
    ensures Traverse(Example().Crawled(), Address('0')).Some?
    ensures var r := Traverse(Example().Crawled(), Address('0')).value;
      && r.storage.Keys == Example().Crawled().Keys
      && r.storage[Key('0')].depth == Some(0)
      && r.storage[Key('1')].depth == Some(1)
      && r.storage[Key('2')].depth == Some(1)
      && r.storage[Key('3')].depth == Some(1)
      && r.storage[Key('4')].depth == Some(2)
      && r.order == [Key('0'), Key('2'), Key('3'), Key('4')]
  {
    KeysDiffer('0', '1');
    KeysDiffer('0', '2');
    KeysDiffer('0', '3');
    KeysDiffer('0', '4');
    KeysDiffer('1', '2');
    KeysDiffer('1', '3');
    KeysDiffer('1', '4');
    KeysDiffer('2', '3');
    KeysDiffer('2', '4');
    KeysDiffer('3', '4');
    SiteDepths(Example());
  }

  /** Page 0 at depth 0: link 1 redirects to 2, both at depth 1; then link 3. */
  lemma Page0Links(s: Site)
    requires s.Distinct()
    ensures VisitLinks(s.S0(), s.S0()[s.K0()].depth.value, s.S0()[s.K0()].links, []) == Traversal(s.S3(), [s.K2(), s.K3()])
  {
    assert s.S0()[s.K0()].links == [s.u1, s.u3];
    assert s.S0()[s.K0()].depth == Some(0);
    FollowStep(s.S1(), 0, s.u2, [], s.S2(), [s.K2()]);
    FollowRedirectStep(s.S0(), 0, s.u1, [], s.S1(), s.u2);
    FollowStep(s.S2(), 0, s.u3, [s.K2()], s.S3(), [s.K2(), s.K3()]);
    TwoLinks(s.S0(), 0, s.u1, s.u3, s.S2(), [s.K2()], s.S3(), [s.K2(), s.K3()]);
  }

  /** Page 2 at depth 1: link 4 at depth 2. */
  lemma Page2Links(s: Site)
    requires s.Distinct()
    ensures VisitLinks(s.S3(), s.S3()[s.K2()].depth.value, s.S3()[s.K2()].links, [s.K3()]) == Traversal(s.S4(), [s.K3(), s.K4()])
  {
    assert s.S3()[s.K2()].links == [s.u4];
    assert s.S3()[s.K2()].depth == Some(1);
    FollowStep(s.S3(), 1, s.u4, [s.K3()], s.S4(), [s.K3(), s.K4()]);
    OneLink(s.S3(), 1, s.u4, [s.K3()], s.S4(), [s.K3(), s.K4()]);
  }

  /** The store once all five pages are labelled. */
  lemma FinalStore(s: Site)
    requires s.Distinct()
    ensures s.S4().Keys == s.Crawled().Keys
    ensures s.S4()[s.K0()].depth == Some(0)
    ensures s.S4()[s.K1()].depth == Some(1)
    ensures s.S4()[s.K2()].depth == Some(1)
    ensures s.S4()[s.K3()].depth == Some(1)
    ensures s.S4()[s.K4()].depth == Some(2)
    ensures s.S4()[s.K3()].links == [] && s.S4()[s.K4()].links == []
    ensures s.S4()[s.K3()].visited && s.S4()[s.K4()].visited
  {
  }

  /** The example for any five addresses with distinct string forms. */
  lemma SiteDepths(s: Site)
    requires s.Distinct()
    ensures Traverse(s.Crawled(), s.u0).Some?
    ensures var r := Traverse(s.Crawled(), s.u0).value;
      && r.storage.Keys == s.Crawled().Keys
      && r.storage[s.K0()].depth == Some(0)
      && r.storage[s.K1()].depth == Some(1)
      && r.storage[s.K2()].depth == Some(1)
      && r.storage[s.K3()].depth == Some(1)
      && r.storage[s.K4()].depth == Some(2)
      && r.order == [s.K0(), s.K2(), s.K3(), s.K4()]
  {
    FinalStore(s);
    DrainFromRoot(s);
  }

  /** Dequeuing 3 and 4, whose pages have no links. */
  lemma DrainFrom3(s: Site)
    requires s.Distinct()
    ensures QueueOk(s.S4(), [s.K3(), s.K4()]) && Drain(s.S4(), [s.K3(), s.K4()]) == Run(s.S4(), [s.K3(), s.K4()])
  {
    FinalStore(s);
    DrainTail(s.S4(), s.K3(), s.K4());
  }

  /** Dequeuing 2, then 3 and 4. */
  lemma DrainFrom2(s: Site)
    requires s.Distinct()
    ensures QueueOk(s.S3(), [s.K2(), s.K3()]) && Drain(s.S3(), [s.K2(), s.K3()]) == Run(s.S4(), [s.K2(), s.K3(), s.K4()])
  {
    Page2Links(s);
    DrainFrom3(s);
    assert s.S3()[s.K2()].visited && s.S3()[s.K2()].depth == Some(1);
    assert s.S3()[s.K3()].visited && s.S3()[s.K3()].depth == Some(1);
    Cons(s.K2(), s.K3(), s.K4(), s.K4());
    DrainHead(s.S3(), s.K2(), [s.K3()], [s.K2(), s.K3()], s.S4(), [s.K3(), s.K4()],
              s.S4(), [s.K3(), s.K4()], [s.K2(), s.K3(), s.K4()]);
  }

  /** Dequeuing the root, then 2, 3 and 4. */
  lemma DrainFromRoot(s: Site)
    requires s.Distinct()
    ensures Traverse(s.Crawled(), s.u0) == Some(Run(s.S4(), [s.K0(), s.K2(), s.K3(), s.K4()]))
  {
    Page0Links(s);
    DrainFrom2(s);
    assert s.S0()[s.K0()].visited && s.S0()[s.K0()].depth == Some(0);
    Cons(s.K0(), s.K2(), s.K3(), s.K4());
    DrainHead(s.S0(), s.K0(), [], [s.K0()], s.S3(), [s.K2(), s.K3()],
              s.S4(), [s.K2(), s.K3(), s.K4()], [s.K0(), s.K2(), s.K3(), s.K4()]);
  }

  /** Two links, the first leading to `m'` and queue `q'`. */
  lemma TwoLinks(m: Storage, d: int, a: Url, b: Url, m': Storage, q': seq<string>, m'': Storage, q'': seq<string>)
    requires Follow(m, d, a, []) == Traversal(m', q')
    requires Follow(m', d, b, q') == Traversal(m'', q'')
    ensures VisitLinks(m, d, [a, b], []) == Traversal(m'', q'')
  {
    assert [a, b][1..] == [b];
    OneLink(m', d, b, q', m'', q'');
  }

  lemma OneLink(m: Storage, d: int, a: Url, q: seq<string>, m': Storage, q': seq<string>)
    requires Follow(m, d, a, q) == Traversal(m', q')
    ensures VisitLinks(m, d, [a], q) == Traversal(m', q')
  {
    assert [a][1..] == [];
  }

  /** The dequeue orders of the example, built by putting one key in front of
      the rest's order; stated apart so that the drain lemmas above stay within
      their resource budgets. */
  lemma Cons(a: string, b: string, c: string, d: string)
    ensures [a] + [] == [a]
    ensures [a] + [b] == [a, b]
    ensures [a] + [b, c] == [a, b, c]
    ensures [a] + [b, c, d] == [a, b, c, d]
  {
  }

  /** One turn of the drain loop whose page's links lead to `m'` and `q'`. */
  lemma DrainHead(m: Storage, p: string, rest: seq<string>, queue: seq<string>, m': Storage, q': seq<string>,
                  r: Storage, order: seq<string>, full: seq<string>)
    requires queue == [p] + rest && full == [p] + order
    requires p in m && m[p].visited && m[p].depth.Some?
    requires forall i :: 0 <= i < |rest| ==> rest[i] in m && m[rest[i]].visited && m[rest[i]].depth.Some?
    requires VisitLinks(m, m[p].depth.value, m[p].links, rest) == Traversal(m', q')
    requires QueueOk(m', q') && Drain(m', q') == Run(r, order)
    ensures QueueOk(m, queue) && Drain(m, queue) == Run(r, full)
  {
    QueueOkCons(m, p, rest);
    DrainStep(m, queue);
    assert queue[0] == p && queue[1..] == rest;
  }

  lemma QueueOkCons(m: Storage, p: string, rest: seq<string>)
    requires p in m && m[p].visited && m[p].depth.Some?
    requires forall i :: 0 <= i < |rest| ==> rest[i] in m && m[rest[i]].visited && m[rest[i]].depth.Some?
    ensures QueueOk(m, [p] + rest)
  {
    forall i | 0 <= i < |[p] + rest|
      ensures ([p] + rest)[i] in m && m[([p] + rest)[i]].visited && m[([p] + rest)[i]].depth.Some?
    {
      if i > 0 {
        assert ([p] + rest)[i] == rest[i - 1];
      }
    }
  }

  /** A link to a fetched, unvisited page that is not a redirect. */
  lemma FollowStep(m: Storage, d: int, u: Url, q: seq<string>, m': Storage, q': seq<string>)
    requires Labellable(m, UrlString(u)) && !m[UrlString(u)].IsRedirect()
    requires m' == m[UrlString(u) := Label(m[UrlString(u)], d + 1)] && q' == q + [UrlString(u)]
    ensures Follow(m, d, u, q) == Traversal(m', q')
  {
    FollowLabels(m, d, u, q);
  }

  /** A link to a fetched, unvisited redirect page: its target comes next. */
  lemma FollowRedirectStep(m: Storage, d: int, u: Url, q: seq<string>, m': Storage, target: Url)
    requires Labellable(m, UrlString(u)) && m[UrlString(u)].redirectTo == Some(target)
    requires m' == m[UrlString(u) := Label(m[UrlString(u)], d + 1)]
    ensures Follow(m, d, u, q) == Follow(m', d, target, q)
  {
    FollowLabels(m, d, u, q);
  }

  /** The last two queued pages have no links. */
  lemma DrainTail(m: Storage, k3: string, k4: string)
    requires k3 in m && k4 in m && m[k3].links == [] && m[k4].links == []
    requires m[k3].visited && m[k3].depth.Some? && m[k4].visited && m[k4].depth.Some?
    ensures QueueOk(m, [k3, k4]) && Drain(m, [k3, k4]) == Run(m, [k3, k4])
  {
    DrainStep(m, [k3, k4]);
    assert [k3, k4][1..] == [k4];
    DrainStep(m, [k4]);
    assert [k4][1..] == [];
  }
}
