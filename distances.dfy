/**
 * `shortest_paths!` computes single-source shortest paths
 * (lib/medusa/page_store.rb:50-53): when no page was visited before, every
 * page reachable from the root ends visited, and its depth is at most the
 * cost of every path to it. A path follows the links of the root and of
 * pages that do not redirect (each such hop costs 1) and the targets of
 * redirect pages (each such hop costs 0), through present, fetched pages.
 *
 * The proof shows that the final store is closed: along every hop out of a
 * visited page, the target is visited with a depth at most the source's
 * depth plus the hop's cost. That rests on the breadth-first order: the
 * queue's depths never decrease and span at most one level, and no page is
 * labelled deeper than one level below the page being dequeued.
 */
module ShortestDistances {
  import opened Wrappers
  import opened Urls
  import opened Pages
  import opened PageStores
  import opened ShortestPaths

  // ---------------------------------------------------------------------
  // Paths and their cost
  // ---------------------------------------------------------------------

  ghost predicate NothingVisited(m: Storage) {
    forall k :: k in m ==> !m[k].visited
  }

  /** The traversal follows the links of the page under `k`: it is the root,
      or it does not redirect. Otherwise it follows the redirect target. */
  predicate Expands(m: Storage, rk: string, k: string)
    requires k in m
  {
    k == rk || !m[k].IsRedirect()
  }

  /** One hop from `k` to a present, fetched page `k'`: along a link when the
      traversal expands `k`, along the redirect target otherwise. */
  ghost predicate Hop(m: Storage, rk: string, k: string, k': string) {
    && k in m && k' in m && m[k'].fetched
    && if Expands(m, rk, k) then exists l :: l in m[k].links && UrlString(l) == k'
       else UrlString(m[k].redirectTo.value) == k'
  }

  /** A link hop costs one level, a redirect hop none. */
  function HopCost(m: Storage, rk: string, k: string): int {
    if k in m && !Expands(m, rk, k) then 0 else 1
  }

  /** A path of hops from the root. */
  ghost predicate Path(m: Storage, rk: string, p: seq<string>) {
    && |p| >= 1 && p[0] == rk
    && forall i :: 0 <= i < |p| - 1 ==> Hop(m, rk, p[i], p[i + 1])
  }

  function Cost(m: Storage, rk: string, p: seq<string>): int
    decreases |p|
  {
    if |p| <= 1 then 0 else Cost(m, rk, p[..|p| - 1]) + HopCost(m, rk, p[|p| - 2])
  }

  // ---------------------------------------------------------------------
  // Relaxed hops
  // ---------------------------------------------------------------------

  /** Every visited page sits at depth at most `b`. */
  ghost predicate DepthsBelow(m: Storage, b: int) {
    forall k :: k in m && m[k].visited ==> m[k].depth.Some? && m[k].depth.value <= b
  }

  /** The hop from the visited page `k` to `k'` with cost `w` is relaxed: if
      `k'` is present and fetched, it is visited no deeper than `w` below `k`. */
  ghost predicate Relaxed(m: Storage, k: string, k': string, w: int) {
    && k in m && m[k].visited && m[k].depth.Some?
    && (k' in m && m[k'].fetched ==>
          m[k'].visited && m[k'].depth.Some? && m[k'].depth.value <= m[k].depth.value + w)
  }

  ghost predicate LinksRelaxed(m: Storage, k: string) {
    k in m && m[k].visited && forall l :: l in m[k].links ==> Relaxed(m, k, UrlString(l), 1)
  }

  ghost predicate RedirectRelaxed(m: Storage, k: string) {
    k in m && m[k].IsRedirect() && Relaxed(m, k, UrlString(m[k].redirectTo.value), 0)
  }

  /** Relaxed hops stay relaxed as pages get labelled. */
  lemma RelaxedGrows(m: Storage, m': Storage, k: string, k': string, w: int)
    requires Relaxed(m, k, k', w) && Grows(m, m')
    ensures Relaxed(m', k, k', w)
  {
    if k' in m' && m'[k'].fetched {
      assert m[k'].fetched;
    }
  }

  lemma LinksRelaxedGrows(m: Storage, m': Storage, k: string)
    requires LinksRelaxed(m, k) && Grows(m, m')
    ensures LinksRelaxed(m', k)
  {
    assert m'[k] == m[k];
    forall l | l in m'[k].links
      ensures Relaxed(m', k, UrlString(l), 1)
    {
      RelaxedGrows(m, m', k, UrlString(l), 1);
    }
  }

  lemma RedirectRelaxedGrows(m: Storage, m': Storage, k: string)
    requires RedirectRelaxed(m, k) && Grows(m, m')
    ensures RedirectRelaxed(m', k)
  {
    assert m'[k] == m[k];
    RelaxedGrows(m, m', k, UrlString(m[k].redirectTo.value), 0);
  }

  lemma DepthsBelowLabels(m: Storage, m': Storage, d: int)
    requires DepthsBelow(m, d + 1) && LabelsAt(m, m', d + 1)
    ensures DepthsBelow(m', d + 1)
  {
  }

  // ---------------------------------------------------------------------
  // One dequeued page
  // ---------------------------------------------------------------------

  /** While no page is deeper than `d + 1`, Follow relaxes the redirect hop
      of every redirect page it labels. */
  lemma {:induction false} FollowRelaxesRedirects(m: Storage, d: int, u: Url, q: seq<string>)
    requires DepthsBelow(m, d + 1)
    ensures var t := Follow(m, d, u, q).storage;
      forall j :: j in m && j in t && t[j] != m[j] && m[j].IsRedirect() ==> RedirectRelaxed(t, j)
    decreases |Unvisited(m)|
  {
    var k := UrlString(u);
    if Labellable(m, k) {
      FollowLabels(m, d, u, q);
      if m[k].IsRedirect() {
        var m' := m[k := Label(m[k], d + 1)];
        LabelShrinks(m, k, d + 1);
        var target := m[k].redirectTo.value;
        FollowRelaxesRedirects(m', d, target, q);
        var t := Follow(m', d, target, q).storage;
        DepthsBelowLabels(m', t, d);
        assert t[k] == m'[k];
        forall j | j in m && j in t && t[j] != m[j] && m[j].IsRedirect()
          ensures RedirectRelaxed(t, j)
        {
          if j != k {
            assert m'[j] == m[j];
          }
        }
      }
    }
  }

  /** The same for all the links of one dequeued page. */
  lemma {:induction false} VisitLinksRelaxesRedirects(m: Storage, d: int, links: seq<Url>, q: seq<string>)
    requires DepthsBelow(m, d + 1)
    ensures var t := VisitLinks(m, d, links, q).storage;
      forall j :: j in m && j in t && t[j] != m[j] && m[j].IsRedirect() ==> RedirectRelaxed(t, j)
    decreases links
  {
    if links != [] {
      var t1 := Follow(m, d, links[0], q);
      FollowRelaxesRedirects(m, d, links[0], q);
      DepthsBelowLabels(m, t1.storage, d);
      VisitLinksRelaxesRedirects(t1.storage, d, links[1..], t1.queue);
      var t2 := VisitLinks(t1.storage, d, links[1..], t1.queue).storage;
      LabelsAtGrows(t1.storage, t2, d + 1);
      forall j | j in m && j in t2 && t2[j] != m[j] && m[j].IsRedirect()
        ensures RedirectRelaxed(t2, j)
      {
        if t1.storage[j] != m[j] {
          RedirectRelaxedGrows(t1.storage, t2, j);
        }
      }
    }
  }

  /** After the links of the dequeued page `p` at depth `d` are visited, its
      link hops are relaxed. */
  lemma VisitLinksRelaxesLinks(m: Storage, p: string, d: int, q: seq<string>)
    requires p in m && m[p].visited && m[p].depth == Some(d) && DepthsBelow(m, d + 1)
    ensures LinksRelaxed(VisitLinks(m, d, m[p].links, q).storage, p)
  {
    var t := VisitLinks(m, d, m[p].links, q).storage;
    DepthsBelowLabels(m, t, d);
    assert t[p] == m[p];
  }

  // ---------------------------------------------------------------------
  // The queue in breadth-first order
  // ---------------------------------------------------------------------

  /** The queue's depths never decrease and span at most one level. */
  ghost predicate QueueMonotone(m: Storage, q: seq<string>) {
    && QueueOk(m, q)
    && (forall i, j :: 0 <= i <= j < |q| ==> m[q[i]].depth.value <= m[q[j]].depth.value)
    && (forall i :: 0 <= i < |q| ==> m[q[i]].depth.value <= m[q[0]].depth.value + 1)
  }

  /** The drain loop's invariant: the queue is in breadth-first order and no
      page is deeper than one level below its head. */
  ghost predicate Frontier(m: Storage, q: seq<string>) {
    && QueueMonotone(m, q)
    && (q != [] ==> DepthsBelow(m, m[q[0]].depth.value + 1))
  }

  /** The depths of the queue after one turn: the old tail keeps its depths,
      and the newly queued keys sit at `d + 1`. */
  lemma StepQueueDepths(m: Storage, q: seq<string>)
    requires Frontier(m, q) && q != []
    ensures var d := m[q[0]].depth.value;
      var t := VisitLinks(m, d, m[q[0]].links, q[1..]);
      forall i :: 0 <= i < |t.queue| ==>
        && t.queue[i] in t.storage && t.storage[t.queue[i]].visited && t.storage[t.queue[i]].depth.Some?
        && (i < |q| - 1 ==> t.storage[t.queue[i]].depth.value == m[q[i + 1]].depth.value)
        && (i >= |q| - 1 ==> t.storage[t.queue[i]].depth.value == d + 1)
  {
    var d := m[q[0]].depth.value;
    var t := VisitLinks(m, d, m[q[0]].links, q[1..]);
    forall i | 0 <= i < |t.queue|
      ensures && t.queue[i] in t.storage && t.storage[t.queue[i]].visited && t.storage[t.queue[i]].depth.Some?
              && (i < |q| - 1 ==> t.storage[t.queue[i]].depth.value == m[q[i + 1]].depth.value)
              && (i >= |q| - 1 ==> t.storage[t.queue[i]].depth.value == d + 1)
    {
      if i < |q| - 1 {
        assert t.queue[i] == t.queue[..|q| - 1][i] == q[1..][i] == q[i + 1];
      }
    }
  }

  /** A queue whose first `n` keys sit in order between `d` and `d + 1`, and
      whose other keys sit at `d + 1`, is a frontier while no page is deeper
      than `d + 1`. */
  lemma FrontierOf(s: Storage, q: seq<string>, n: int, d: int)
    requires 0 <= n <= |q| && DepthsBelow(s, d + 1)
    requires forall i :: 0 <= i < |q| ==> q[i] in s && s[q[i]].visited && s[q[i]].depth.Some?
    requires forall i :: 0 <= i < n ==> d <= s[q[i]].depth.value
    requires forall i, j :: 0 <= i <= j < n ==> s[q[i]].depth.value <= s[q[j]].depth.value
    requires forall i :: n <= i < |q| ==> s[q[i]].depth.value == d + 1
    ensures Frontier(s, q)
  {
  }

  /** The queue after one turn, as `StepQueueDepths` describes it, is a
      frontier. */
  lemma FrontierAfter(m: Storage, q: seq<string>, s: Storage, tq: seq<string>)
    requires Frontier(m, q) && q != [] && DepthsBelow(s, m[q[0]].depth.value + 1)
    requires forall i :: 0 <= i < |tq| ==>
      && tq[i] in s && s[tq[i]].visited && s[tq[i]].depth.Some?
      && (i < |q| - 1 ==> s[tq[i]].depth.value == m[q[i + 1]].depth.value)
      && (i >= |q| - 1 ==> s[tq[i]].depth.value == m[q[0]].depth.value + 1)
    ensures Frontier(s, tq)
  {
    var d := m[q[0]].depth.value;
    forall i | 0 <= i < |q| - 1 && i < |tq|
      ensures d <= s[tq[i]].depth.value
    {
      assert m[q[0]].depth.value <= m[q[i + 1]].depth.value;
    }
    forall i, j | 0 <= i <= j < |q| - 1 && j < |tq|
      ensures s[tq[i]].depth.value <= s[tq[j]].depth.value
    {
      assert m[q[i + 1]].depth.value <= m[q[j + 1]].depth.value;
    }
    FrontierOf(s, tq, if |q| - 1 <= |tq| then |q| - 1 else |tq|, d);
  }

  /** One turn of the drain loop keeps the frontier invariant. */
  lemma FrontierStep(m: Storage, q: seq<string>)
    requires Frontier(m, q) && q != []
    ensures var d := m[q[0]].depth.value;
      var t := VisitLinks(m, d, m[q[0]].links, q[1..]);
      && Frontier(t.storage, t.queue)
      && DepthsBelow(t.storage, d + 1)
  {
    var d := m[q[0]].depth.value;
    var t := VisitLinks(m, d, m[q[0]].links, q[1..]);
    StepQueueDepths(m, q);
    DepthsBelowLabels(m, t.storage, d);
    FrontierAfter(m, q, t.storage, t.queue);
  }

  // ---------------------------------------------------------------------
  // The whole drain
  // ---------------------------------------------------------------------

  /** After the drain, the link hops of every dequeued page are relaxed. */
  lemma {:induction false} DrainRelaxesLinks(m: Storage, q: seq<string>)
    requires Frontier(m, q)
    ensures var r := Drain(m, q); forall j :: 0 <= j < |r.order| ==> LinksRelaxed(r.storage, r.order[j])
    decreases |Unvisited(m)| + |q|
  {
    if q != [] {
      var p := q[0];
      var d := m[p].depth.value;
      DrainStep(m, q);
      FrontierStep(m, q);
      var t := VisitLinks(m, d, m[p].links, q[1..]);
      DrainRelaxesLinks(t.storage, t.queue);
      DrainGrows(t.storage, t.queue);
      var rest := Drain(t.storage, t.queue);
      VisitLinksRelaxesLinks(m, p, d, q[1..]);
      LinksRelaxedGrows(t.storage, rest.storage, p);
      var r := Drain(m, q);
      forall j | 0 <= j < |r.order|
        ensures LinksRelaxed(r.storage, r.order[j])
      {
        if j > 0 {
          assert r.order[j] == rest.order[j - 1];
        }
      }
    }
  }

  /** After the drain, the redirect hop of every redirect page it labelled
      is relaxed. */
  lemma {:induction false} DrainRelaxesRedirects(m: Storage, q: seq<string>)
    requires Frontier(m, q)
    ensures var r := Drain(m, q).storage;
      forall k :: k in m && k in r && r[k] != m[k] && m[k].IsRedirect() ==> RedirectRelaxed(r, k)
    decreases |Unvisited(m)| + |q|
  {
    if q != [] {
      var p := q[0];
      var d := m[p].depth.value;
      DrainStep(m, q);
      FrontierStep(m, q);
      var t := VisitLinks(m, d, m[p].links, q[1..]).storage;
      var tq := VisitLinks(m, d, m[p].links, q[1..]).queue;
      VisitLinksRelaxesRedirects(m, d, m[p].links, q[1..]);
      DrainRelaxesRedirects(t, tq);
      DrainGrows(t, tq);
      var r := Drain(t, tq).storage;
      forall k | k in m && k in r && r[k] != m[k] && m[k].IsRedirect()
        ensures RedirectRelaxed(r, k)
      {
        if t[k] != m[k] {
          RedirectRelaxedGrows(t, r, k);
        }
      }
    }
  }

  // ---------------------------------------------------------------------
  // The traversal
  // ---------------------------------------------------------------------

  /** Along every hop out of a visited page of `r`, the target is visited no
      deeper than the hop's cost below it. */
  ghost predicate Closed(m: Storage, rk: string, r: Storage) {
    forall k, k' :: Hop(m, rk, k, k') && k in r && r[k].visited && r[k].depth.Some? ==>
      k' in r && r[k'].visited && r[k'].depth.Some? && r[k'].depth.value <= r[k].depth.value + HopCost(m, rk, k)
  }

  /** A link hop out of a dequeued page, read back in the final store. */
  lemma LinkHopClosed(m: Storage, rk: string, r: Storage, k: string, k': string)
    requires SameShape(m, r) && Hop(m, rk, k, k') && Expands(m, rk, k) && LinksRelaxed(r, k)
    ensures k' in r && r[k'].visited && r[k'].depth.Some? && r[k'].depth.value <= r[k].depth.value + HopCost(m, rk, k)
  {
    var l :| l in m[k].links && UrlString(l) == k';
    assert r[k].links == m[k].links;
    assert Relaxed(r, k, UrlString(l), 1);
    assert r[k'].fetched;
  }

  /** A redirect hop out of a labelled redirect page, read back in the final store. */
  lemma RedirectHopClosed(m: Storage, rk: string, r: Storage, k: string, k': string)
    requires SameShape(m, r) && Hop(m, rk, k, k') && !Expands(m, rk, k) && RedirectRelaxed(r, k)
    ensures k' in r && r[k'].visited && r[k'].depth.Some? && r[k'].depth.value <= r[k].depth.value + HopCost(m, rk, k)
  {
    assert r[k].redirectTo == m[k].redirectTo;
    assert r[k'].fetched;
  }

  /** The traversal changes nothing but visited flags and depths. */
  lemma TraverseShape(m: Storage, root: Url)
    requires UrlString(root) in m
    ensures SameShape(m, Traverse(m, root).value.storage)
  {
    TraverseFrame(m, root);
  }

  /** Every page the traversal expands ends with its link hops relaxed. */
  lemma TraverseRelaxesLinks(m: Storage, root: Url)
    requires UrlString(root) in m && NothingVisited(m)
    ensures var r := Traverse(m, root).value.storage;
      forall k :: k in m && k in r && r[k].visited && Expands(m, UrlString(root), k) ==> LinksRelaxed(r, k)
  {
    var rk := UrlString(root);
    var m1 := m[rk := Label(m[rk], 0)];
    assert Frontier(m1, [rk]);
    DrainRelaxesLinks(m1, [rk]);
    TraverseQueue(m, root);
    var run := Drain(m1, [rk]);
    forall k | k in m && k in run.storage && run.storage[k].visited && Expands(m, rk, k)
      ensures LinksRelaxed(run.storage, k)
    {
      if k == rk {
        assert run.order[0] == k;
      } else {
        assert run.storage[k] != m[k];
        assert k in run.order;
      }
      var j :| 0 <= j < |run.order| && run.order[j] == k;
      assert LinksRelaxed(Drain(m1, [rk]).storage, Drain(m1, [rk]).order[j]);
    }
  }

  /** Every redirect page the traversal labels ends with its redirect hop relaxed. */
  lemma TraverseRelaxesRedirects(m: Storage, root: Url)
    requires UrlString(root) in m && NothingVisited(m)
    ensures var r := Traverse(m, root).value.storage;
      forall k :: k in m && k in r && r[k].visited && !Expands(m, UrlString(root), k) ==> RedirectRelaxed(r, k)
  {
    var rk := UrlString(root);
    var m1 := m[rk := Label(m[rk], 0)];
    assert Frontier(m1, [rk]);
    DrainRelaxesRedirects(m1, [rk]);
    var r := Drain(m1, [rk]).storage;
    forall k | k in m && k in r && r[k].visited && !Expands(m, rk, k)
      ensures RedirectRelaxed(r, k)
    {
      assert m1[k] == m[k];
    }
  }

  /** From a store where nothing was visited, the result of `shortest_paths!`
      is closed. */
  lemma TraverseClosed(m: Storage, root: Url)
    requires UrlString(root) in m && NothingVisited(m)
    ensures Closed(m, UrlString(root), Traverse(m, root).value.storage)
  {
    var rk := UrlString(root);
    var r := Traverse(m, root).value.storage;
    TraverseShape(m, root);
    TraverseRelaxesLinks(m, root);
    TraverseRelaxesRedirects(m, root);
    forall k, k' | Hop(m, rk, k, k') && k in r && r[k].visited && r[k].depth.Some?
      ensures k' in r && r[k'].visited && r[k'].depth.Some? && r[k'].depth.value <= r[k].depth.value + HopCost(m, rk, k)
    {
      if Expands(m, rk, k) {
        LinkHopClosed(m, rk, r, k, k');
      } else {
        RedirectHopClosed(m, rk, r, k, k');
      }
    }
  }

  /** Single-source shortest paths: from a store where nothing was visited,
      every page at the end of a path from the root ends visited, and its
      depth is at most the path's cost. */
  lemma {:induction false} TraverseShortest(m: Storage, root: Url, p: seq<string>)
    requires UrlString(root) in m && NothingVisited(m) && Path(m, UrlString(root), p)
    ensures var r := Traverse(m, root).value.storage;
      var k := p[|p| - 1];
      k in r && r[k].visited && r[k].depth.Some? && r[k].depth.value <= Cost(m, UrlString(root), p)
    decreases |p|
  {
    var rk := UrlString(root);
    var r := Traverse(m, root).value.storage;
    TraverseFrame(m, root);
    if |p| > 1 {
      var p' := p[..|p| - 1];
      assert Path(m, rk, p') by {
        forall i | 0 <= i < |p'| - 1
          ensures Hop(m, rk, p'[i], p'[i + 1])
        {
          assert p'[i] == p[i] && p'[i + 1] == p[i + 1];
        }
      }
      TraverseShortest(m, root, p');
      TraverseClosed(m, root);
      assert Hop(m, rk, p[|p| - 2], p[|p| - 1]);
      assert p'[|p'| - 1] == p[|p| - 2];
    }
  }
}
