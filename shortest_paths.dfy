/**
 * What `shortest_paths!` (lib/medusa/page_store.rb:54-86) promises, proved
 * about its specification PageStores.Traverse:
 *  - only present, fetched, unvisited pages are relabelled, each once, and the
 *    root ends at depth 0;
 *  - the queue is first-in first-out, no key enters it twice, and only
 *    non-redirect pages enter it;
 *  - every relabelled page sits one level below a dequeued page, reached from
 *    one of that page's links through zero or more redirect pages;
 *  - running it again from the same root changes nothing.
 */
module ShortestPaths {
  import opened Wrappers
  import opened Urls
  import opened Pages
  import opened PageStores

  // ---------------------------------------------------------------------
  // Frame: what the traversal may change
  // ---------------------------------------------------------------------

  lemma {:induction false} DrainGrows(m: Storage, q: seq<string>)
    requires QueueOk(m, q)
    ensures Grows(m, Drain(m, q).storage)
    decreases |Unvisited(m)| + |q|
  {
    if q != [] {
      DrainStep(m, q);
      var t := VisitLinks(m, m[q[0]].depth.value, m[q[0]].links, q[1..]);
      DrainGrows(t.storage, t.queue);
      LabelsAtGrows(m, t.storage, m[q[0]].depth.value + 1);
      GrowsTransitive(m, t.storage, Drain(t.storage, t.queue).storage);
    }
  }

  /** After `shortest_paths!`, the root is visited at depth 0, the keys are
      those of the input, and every other page is either as it was or was
      present, fetched and unvisited and is now visited with a depth, all its
      other attributes unchanged. */
  lemma TraverseFrame(m: Storage, root: Url)
    requires UrlString(root) in m
    ensures var r := Traverse(m, root).value.storage;
      && r.Keys == m.Keys
      && r[UrlString(root)] == m[UrlString(root)].(depth := Some(0), visited := true)
      && forall k :: k in m && k != UrlString(root) ==>
           r[k] == m[k] || (Labellable(m, k) && r[k].depth.Some? && r[k] == Label(m[k], r[k].depth.value))
  {
    var rk := UrlString(root);
    var m1 := m[rk := Label(m[rk], 0)];
    DrainGrows(m1, [rk]);
  }

  /** The root missing: nothing is computed. */
  lemma TraverseRootMissing(m: Storage, root: Url)
    ensures Traverse(m, root).None? <==> UrlString(root) !in m
  {
  }

  // ---------------------------------------------------------------------
  // The queue
  // ---------------------------------------------------------------------

  /** Follow enqueues every non-redirect page it relabels. */
  lemma {:induction false} FollowEnqueuesLabelled(m: Storage, d: int, u: Url, q: seq<string>)
    ensures var t := Follow(m, d, u, q);
      forall k :: k in m && t.storage[k] != m[k] && !m[k].IsRedirect() ==> k in t.queue[|q|..]
    decreases |Unvisited(m)|
  {
    var k := UrlString(u);
    if Labellable(m, k) {
      var link := m[k];
      var q' := if link.IsRedirect() then q else q + [k];
      var m' := m[k := Label(link, d + 1)];
      LabelShrinks(m, k, d + 1);
      if link.IsRedirect() {
        FollowEnqueuesLabelled(m', d, link.redirectTo.value, q');
        var t := Follow(m', d, link.redirectTo.value, q');
        forall j | j in m && t.storage[j] != m[j] && !m[j].IsRedirect()
          ensures j in t.queue[|q|..]
        {
          assert j != k;
          assert t.queue[|q|..] == t.queue[|q'|..];
        }
      }
    }
  }

  lemma {:induction false} VisitLinksEnqueuesLabelled(m: Storage, d: int, links: seq<Url>, q: seq<string>)
    ensures var t := VisitLinks(m, d, links, q);
      forall k :: k in m && t.storage[k] != m[k] && !m[k].IsRedirect() ==> k in t.queue[|q|..]
    decreases links
  {
    if links != [] {
      var t1 := Follow(m, d, links[0], q);
      var t2 := VisitLinks(t1.storage, d, links[1..], t1.queue);
      FollowEnqueuesLabelled(m, d, links[0], q);
      VisitLinksEnqueuesLabelled(t1.storage, d, links[1..], t1.queue);
      forall k | k in m && t2.storage[k] != m[k] && !m[k].IsRedirect()
        ensures k in t2.queue[|q|..]
      {
        if t1.storage[k] != m[k] {
          var i :| 0 <= i < |t1.queue[|q|..]| && t1.queue[|q|..][i] == k;
          assert t2.queue[|q| + i] == t1.queue[|q| + i];
          assert t2.queue[|q|..][i] == k;
        } else {
          var i :| 0 <= i < |t2.queue[|t1.queue|..]| && t2.queue[|t1.queue|..][i] == k;
          assert t2.queue[|q|..][|t1.queue| - |q| + i] == k;
        }
      }
    }
  }

  /** Every listed key names a visited page. */
  ghost predicate Settled(m: Storage, s: seq<string>) {
    forall i :: 0 <= i < |s| ==> s[i] in m && m[s[i]].visited
  }

  /** The drain loop dequeues the queued keys first, in order. */
  lemma {:induction false} DrainFifo(m: Storage, q: seq<string>)
    requires QueueOk(m, q)
    ensures var r := Drain(m, q); |q| <= |r.order| && r.order[..|q|] == q
    ensures var r := Drain(m, q); forall i :: 0 <= i < |q| ==> r.order[i] == q[i]
    decreases |Unvisited(m)| + |q|
  {
    if q != [] {
      DrainStep(m, q);
      var t := VisitLinks(m, m[q[0]].depth.value, m[q[0]].links, q[1..]);
      DrainFifo(t.storage, t.queue);
      FifoCombine(q[0], q[1..], t.queue, Drain(t.storage, t.queue).order);
      assert [q[0]] + q[1..] == q;
    }
  }

  /** A queue that starts with `q1` gives an order that starts with `q1`, and
      so the order after `p` starts with `p` and `q1`. */
  lemma FifoCombine(p: string, q1: seq<string>, tq: seq<string>, order: seq<string>)
    requires |q1| <= |tq| && tq[..|q1|] == q1
    requires |tq| <= |order| && order[..|tq|] == tq
    ensures |[p] + q1| <= |[p] + order| && ([p] + order)[..|[p] + q1|] == [p] + q1
    ensures forall i :: 0 <= i < |[p] + q1| ==> ([p] + order)[i] == ([p] + q1)[i]
  {
    assert order[..|q1|] == order[..|tq|][..|q1|];
    assert ([p] + order)[..|[p] + q1|] == [p] + order[..|q1|];
  }

  /** One turn of the drain loop seen from its pieces: the keys dequeued after
      the turn's own queue `tq` are fresh in `ms`, and those `tq` gained over
      `q1` were enqueued from `m`; so all of them were fresh in `m`. */
  lemma FreshCombine(m: Storage, ms: Storage, d: int, p: string, q1: seq<string>, tq: seq<string>, order: seq<string>)
    requires LabelsAt(m, ms, d + 1)
    requires |q1| <= |tq| && forall i :: |q1| <= i < |tq| ==> Enqueued(m, ms, tq[i], d + 1)
    requires |tq| <= |order| && forall i :: 0 <= i < |tq| ==> order[i] == tq[i]
    requires forall i :: |tq| <= i < |order| ==> Labellable(ms, order[i]) && !ms[order[i]].IsRedirect()
    ensures forall i :: |q1| + 1 <= i < |order| + 1 ==>
      Labellable(m, ([p] + order)[i]) && !m[([p] + order)[i]].IsRedirect()
  {
    forall i | |q1| + 1 <= i < |order| + 1
      ensures Labellable(m, ([p] + order)[i]) && !m[([p] + order)[i]].IsRedirect()
    {
      assert ([p] + order)[i] == order[i - 1];
      if i - 1 < |tq| {
        assert Enqueued(m, ms, tq[i - 1], d + 1);
      }
    }
  }

  /** Every key the drain loop dequeues beyond the initial queue was a present,
      fetched, unvisited page that is not a redirect. */
  lemma {:induction false} DrainDequeuesFresh(m: Storage, q: seq<string>)
    requires QueueOk(m, q)
    ensures var r := Drain(m, q);
      forall i :: |q| <= i < |r.order| ==> Labellable(m, r.order[i]) && !m[r.order[i]].IsRedirect()
    decreases |Unvisited(m)| + |q|
  {
    if q != [] {
      var d := m[q[0]].depth.value;
      DrainStep(m, q);
      var t := VisitLinks(m, d, m[q[0]].links, q[1..]);
      DrainFifo(t.storage, t.queue);
      DrainDequeuesFresh(t.storage, t.queue);
      FreshCombine(m, t.storage, d, q[0], q[1..], t.queue, Drain(t.storage, t.queue).order);
    }
  }

  /** The queue after one turn holds no duplicate when the queue before held none. */
  lemma StepNoDup(m: Storage, q: seq<string>)
    requires QueueOk(m, q) && NoDup(q) && q != []
    ensures NoDup(VisitLinks(m, m[q[0]].depth.value, m[q[0]].links, q[1..]).queue)
  {
    var d := m[q[0]].depth.value;
    var t := VisitLinks(m, d, m[q[0]].links, q[1..]);
    var q1 := q[1..];
    forall i, j | 0 <= i < j < |t.queue|
      ensures t.queue[i] != t.queue[j]
    {
      if j < |q1| {
        assert t.queue[i] == t.queue[..|q1|][i] == q[i + 1];
        assert t.queue[j] == t.queue[..|q1|][j] == q[j + 1];
      } else if i < |q1| {
        assert t.queue[i] == t.queue[..|q1|][i] == q[i + 1];
        assert Enqueued(m, t.storage, t.queue[j], d + 1);
      } else {
        assert t.queue[i] == t.queue[|q1|..][i - |q1|];
        assert t.queue[j] == t.queue[|q1|..][j - |q1|];
      }
    }
  }

  /** The dequeued key `p`, visited in `m` and not queued again, is not
      dequeued by the rest of the drain. */
  lemma NotDequeuedAgain(m: Storage, ms: Storage, d: int, p: string, q1: seq<string>, tq: seq<string>, order: seq<string>)
    requires p in m && m[p].visited && p !in q1
    requires LabelsAt(m, ms, d + 1)
    requires |q1| <= |tq| && tq[..|q1|] == q1
    requires forall i :: |q1| <= i < |tq| ==> Enqueued(m, ms, tq[i], d + 1)
    requires |tq| <= |order| && forall i :: 0 <= i < |tq| ==> order[i] == tq[i]
    requires forall i :: |tq| <= i < |order| ==> Labellable(ms, order[i])
    ensures p !in order
  {
    forall i | 0 <= i < |order|
      ensures order[i] != p
    {
      if i < |q1| {
        assert order[i] == tq[..|q1|][i] == q1[i];
      } else if i < |tq| {
        assert Enqueued(m, ms, tq[i], d + 1);
      } else {
        assert Labellable(ms, order[i]);
      }
    }
  }

  lemma NoDupCons(p: string, s: seq<string>)
    requires NoDup(s) && p !in s
    ensures NoDup([p] + s)
  {
    forall i, j | 0 <= i < j < |[p] + s|
      ensures ([p] + s)[i] != ([p] + s)[j]
    {
      assert ([p] + s)[j] == s[j - 1];
      if i > 0 {
        assert ([p] + s)[i] == s[i - 1];
      }
    }
  }

  /** No key is dequeued twice. */
  lemma {:induction false} DrainNoDup(m: Storage, q: seq<string>)
    requires QueueOk(m, q) && NoDup(q)
    ensures NoDup(Drain(m, q).order)
    decreases |Unvisited(m)| + |q|
  {
    if q != [] {
      var d := m[q[0]].depth.value;
      DrainStep(m, q);
      StepNoDup(m, q);
      var t := VisitLinks(m, d, m[q[0]].links, q[1..]);
      DrainNoDup(t.storage, t.queue);
      DrainFifo(t.storage, t.queue);
      DrainDequeuesFresh(t.storage, t.queue);
      var rest := Drain(t.storage, t.queue);
      assert q[0] !in q[1..] by {
        forall i | 0 <= i < |q[1..]|
          ensures q[1..][i] != q[0]
        {
          assert q[1..][i] == q[i + 1];
        }
      }
      NotDequeuedAgain(m, t.storage, d, q[0], q[1..], t.queue, rest.order);
      NoDupCons(q[0], rest.order);
    }
  }

  /** A key changed over one turn of the drain loop is among the keys that
      turn enqueued, or was changed by the rest of the drain. */
  lemma CoverCombine(m: Storage, ms: Storage, rs: Storage, p: string, q1: seq<string>, tq: seq<string>, order: seq<string>)
    requires ms.Keys == m.Keys && |q1| <= |tq|
    requires forall k :: k in m && ms[k] != m[k] && !m[k].IsRedirect() ==> k in tq[|q1|..]
    requires forall k :: k in ms && k in rs && rs[k] != ms[k] && !ms[k].IsRedirect() ==> k in order
    requires |tq| <= |order| && order[..|tq|] == tq
    ensures forall k :: k in m && k in rs && rs[k] != m[k] && !m[k].IsRedirect() ==> k in [p] + order
  {
    forall k | k in m && k in rs && rs[k] != m[k] && !m[k].IsRedirect()
      ensures k in [p] + order
    {
      if ms[k] != m[k] {
        var i :| 0 <= i < |tq[|q1|..]| && tq[|q1|..][i] == k;
        assert order[..|tq|][|q1| + i] == tq[|q1| + i];
      }
      assert k in order;
    }
  }

  /** Every non-redirect page the drain loop relabels is dequeued. */
  lemma {:induction false} DrainDequeuesLabelled(m: Storage, q: seq<string>)
    requires QueueOk(m, q)
    ensures var r := Drain(m, q);
      forall k :: k in m && k in r.storage && r.storage[k] != m[k] && !m[k].IsRedirect() ==> k in r.order
    decreases |Unvisited(m)| + |q|
  {
    if q != [] {
      var d := m[q[0]].depth.value;
      DrainStep(m, q);
      var t := VisitLinks(m, d, m[q[0]].links, q[1..]);
      DrainDequeuesLabelled(t.storage, t.queue);
      DrainFifo(t.storage, t.queue);
      VisitLinksEnqueuesLabelled(m, d, m[q[0]].links, q[1..]);
      CoverCombine(m, t.storage, Drain(t.storage, t.queue).storage, q[0], q[1..], t.queue, Drain(t.storage, t.queue).order);
    }
  }

  lemma SettledCons(m: Storage, p: string, s: seq<string>)
    requires Settled(m, s) && p in m && m[p].visited
    ensures Settled(m, [p] + s)
  {
    forall i | 0 <= i < |[p] + s|
      ensures ([p] + s)[i] in m && m[([p] + s)[i]].visited
    {
      if i > 0 {
        assert ([p] + s)[i] == s[i - 1];
      }
    }
  }

  /** Every dequeued page ends visited. */
  lemma {:induction false} DrainSettles(m: Storage, q: seq<string>)
    requires QueueOk(m, q)
    ensures Settled(Drain(m, q).storage, Drain(m, q).order)
    decreases |Unvisited(m)| + |q|
  {
    if q != [] {
      DrainStep(m, q);
      var t := VisitLinks(m, m[q[0]].depth.value, m[q[0]].links, q[1..]);
      DrainSettles(t.storage, t.queue);
      DrainGrows(t.storage, t.queue);
      SettledCons(Drain(t.storage, t.queue).storage, q[0], Drain(t.storage, t.queue).order);
    }
  }

  /** The drain facts read back for the store before the root was labelled. */
  lemma RootCombine(m: Storage, rk: string, s: Storage, order: seq<string>)
    requires rk in m
    requires var m1 := m[rk := Label(m[rk], 0)];
      && |order| >= 1 && order[0] == rk
      && (forall i :: 1 <= i < |order| ==> Labellable(m1, order[i]) && !m1[order[i]].IsRedirect())
      && (forall k :: k in m1 && k in s && s[k] != m1[k] && !m1[k].IsRedirect() ==> k in order)
    ensures forall i :: 1 <= i < |order| ==> Labellable(m, order[i]) && !m[order[i]].IsRedirect()
    ensures forall k :: k in m && k in s && k != rk && s[k] != m[k] && !m[k].IsRedirect() ==> k in order
  {
    var m1 := m[rk := Label(m[rk], 0)];
    forall i | 1 <= i < |order|
      ensures Labellable(m, order[i]) && !m[order[i]].IsRedirect()
    {
      assert Labellable(m1, order[i]);
    }
    forall k | k in m && k in s && k != rk && s[k] != m[k] && !m[k].IsRedirect()
      ensures k in order
    {
      assert m1[k] == m[k];
    }
  }

  /** `shortest_paths!` queues the root first; no key is queued twice; every
      other queued key was a present, fetched, unvisited page that is not a
      redirect; every non-redirect page it relabels was queued; and every
      queued page ends visited. */
  lemma TraverseQueue(m: Storage, root: Url)
    requires UrlString(root) in m
    ensures var r := Traverse(m, root).value;
      && |r.order| >= 1 && r.order[0] == UrlString(root)
      && NoDup(r.order)
      && (forall i :: 1 <= i < |r.order| ==> Labellable(m, r.order[i]) && !m[r.order[i]].IsRedirect())
      && (forall k :: k in m && k in r.storage && k != UrlString(root) && r.storage[k] != m[k] && !m[k].IsRedirect() ==> k in r.order)
      && Settled(r.storage, r.order)
  {
    var rk := UrlString(root);
    var m1 := m[rk := Label(m[rk], 0)];
    assert QueueOk(m1, [rk]);
    DrainFifo(m1, [rk]);
    DrainNoDup(m1, [rk]);
    DrainDequeuesFresh(m1, [rk]);
    DrainDequeuesLabelled(m1, [rk]);
    DrainSettles(m1, [rk]);
    RootCombine(m, rk, Drain(m1, [rk]).storage, Drain(m1, [rk]).order);
  }

  // ---------------------------------------------------------------------
  // Depths: one below a dequeued parent, through redirects
  // ---------------------------------------------------------------------

  /** Starting at link `u`, `n` redirect hops lead to the key `k`. */
  ghost predicate Chain(m: Storage, u: Url, k: string, n: nat)
    decreases n
  {
    if n == 0 then UrlString(u) == k
    else
      && UrlString(u) in m
      && m[UrlString(u)].redirectTo.Some?
      && Chain(m, m[UrlString(u)].redirectTo.value, k, n - 1)
  }

  lemma {:induction false} ChainExtend(m: Storage, u: Url, k: string, n: nat)
    requires Chain(m, u, k, n) && k in m && m[k].redirectTo.Some?
    ensures Chain(m, u, UrlString(m[k].redirectTo.value), n + 1)
    decreases n
  {
    if n > 0 {
      ChainExtend(m, m[UrlString(u)].redirectTo.value, k, n - 1);
    }
  }

  /** The key `k` is reached from one of the links of the page under `p`
      through zero or more redirect pages. */
  ghost predicate ReachedFrom(m: Storage, p: string, k: string) {
    p in m && exists i, n: nat :: 0 <= i < |m[p].links| && Chain(m, m[p].links[i], k, n)
  }

  /** In the store `r`, the page under `k` is one level below the page under
      `p`, and is reached from one of `p`'s links in the original store `m0`. */
  ghost predicate ParentOf(m0: Storage, r: Storage, p: string, k: string) {
    && p in r && k in r && r[p].depth.Some?
    && r[k].depth == Some(r[p].depth.value + 1)
    && ReachedFrom(m0, p, k)
  }

  /** Only depth and visited differ between the two stores. */
  ghost predicate SameShape(m0: Storage, m: Storage) {
    && m.Keys == m0.Keys
    && forall k :: k in m0 ==> m[k] == m0[k].(depth := m[k].depth, visited := m[k].visited)
  }

  /** Every dequeued key is visited with a depth, and every page changed since
      `m0` (other than the root's) has a parent among the dequeued keys. */
  ghost predicate Parented(m0: Storage, m: Storage, done: seq<string>, rk: string) {
    && (forall j :: 0 <= j < |done| ==> done[j] in m && m[done[j]].visited && m[done[j]].depth.Some?)
    && forall k :: Changed(m0, m, k) && k != rk ==>
         exists j :: 0 <= j < |done| && ParentOf(m0, m, done[j], k)
  }

  /** The page under `k` differs between the two stores. */
  ghost predicate Changed(m0: Storage, m: Storage, k: string) {
    k in m0 && k in m && m[k] != m0[k]
  }

  lemma ParentOfFrame(m0: Storage, m: Storage, m': Storage, p: string, k: string)
    requires ParentOf(m0, m, p, k)
    requires p in m' && k in m' && m'[p] == m[p] && m'[k] == m[k]
    ensures ParentOf(m0, m', p, k)
  {
  }

  /** A page changed since `m0` (other than the root's) keeps a parent when
      another key `k` is labelled, and `k` itself gets the parent `done[j]`. */
  lemma LabelKeepsParent(m0: Storage, m: Storage, done: seq<string>, rk: string, j: int, k: string, d: int, k': string)
    requires Parented(m0, m, done, rk)
    requires 0 <= j < |done| && m[done[j]].depth == Some(d)
    requires Labellable(m, k) && ReachedFrom(m0, done[j], k)
    requires var m' := m[k := Label(m[k], d + 1)]; k' in m0 && k' in m' && k' != rk && m'[k'] != m0[k']
    ensures exists j' :: 0 <= j' < |done| && ParentOf(m0, m[k := Label(m[k], d + 1)], done[j'], k')
  {
    var m' := m[k := Label(m[k], d + 1)];
    if k' == k {
      assert done[j] != k;
      assert ParentOf(m0, m', done[j], k');
    } else {
      assert Changed(m0, m, k');
      var j' :| 0 <= j' < |done| && ParentOf(m0, m, done[j'], k');
      assert done[j'] != k;
      ParentOfFrame(m0, m, m', done[j'], k');
    }
  }

  /** Labelling changes only depth and visited. */
  lemma LabelSameShape(m0: Storage, m: Storage, k: string, d: int)
    requires SameShape(m0, m) && k in m
    ensures SameShape(m0, m[k := Label(m[k], d)])
  {
  }

  /** Labelling one unvisited key at depth `d + 1` where `d` is the depth of the
      dequeued page `done[j]`, whose link leads to the key, keeps Parented. */
  lemma LabelParented(m0: Storage, m: Storage, done: seq<string>, rk: string, j: int, k: string, d: int)
    requires Parented(m0, m, done, rk)
    requires 0 <= j < |done| && m[done[j]].depth == Some(d)
    requires Labellable(m, k) && ReachedFrom(m0, done[j], k)
    ensures Parented(m0, m[k := Label(m[k], d + 1)], done, rk)
  {
    var m' := m[k := Label(m[k], d + 1)];
    forall j' | 0 <= j' < |done|
      ensures done[j'] in m' && m'[done[j']].visited && m'[done[j']].depth.Some?
    {
    }
    forall k' | k' in m0 && k' in m' && k' != rk && m'[k'] != m0[k']
      ensures exists j' :: 0 <= j' < |done| && ParentOf(m0, m', done[j'], k')
    {
      LabelKeepsParent(m0, m, done, rk, j, k, d, k');
    }
  }

  lemma {:induction false} FollowParented(m0: Storage, m: Storage, done: seq<string>, rk: string,
                                          j: int, i: int, n: nat, d: int, u: Url, q: seq<string>)
    requires Parented(m0, m, done, rk) && SameShape(m0, m)
    requires 0 <= j < |done| && m[done[j]].depth == Some(d)
    requires done[j] in m0 && 0 <= i < |m0[done[j]].links| && Chain(m0, m0[done[j]].links[i], UrlString(u), n)
    ensures var t := Follow(m, d, u, q); Parented(m0, t.storage, done, rk) && SameShape(m0, t.storage)
    decreases |Unvisited(m)|, 1
  {
    if Labellable(m, UrlString(u)) {
      FollowLabelledParented(m0, m, done, rk, j, i, n, d, u, q);
    }
  }

  /** The case of FollowParented where the link is relabelled. */
  lemma {:induction false} FollowLabelledParented(m0: Storage, m: Storage, done: seq<string>, rk: string,
                                                  j: int, i: int, n: nat, d: int, u: Url, q: seq<string>)
    requires Parented(m0, m, done, rk) && SameShape(m0, m)
    requires 0 <= j < |done| && m[done[j]].depth == Some(d)
    requires done[j] in m0 && 0 <= i < |m0[done[j]].links| && Chain(m0, m0[done[j]].links[i], UrlString(u), n)
    requires Labellable(m, UrlString(u))
    ensures var t := Follow(m, d, u, q); Parented(m0, t.storage, done, rk) && SameShape(m0, t.storage)
    decreases |Unvisited(m)|, 0
  {
    var k := UrlString(u);
    var m' := m[k := Label(m[k], d + 1)];
    LabelShrinks(m, k, d + 1);
    LabelParented(m0, m, done, rk, j, k, d);
    LabelSameShape(m0, m, k, d + 1);
    FollowLabels(m, d, u, q);
    if m[k].IsRedirect() {
      assert m0[k].redirectTo == m[k].redirectTo;
      ChainExtend(m0, m0[done[j]].links[i], k, n);
      FollowParented(m0, m', done, rk, j, i, n + 1, d, m[k].redirectTo.value, q);
    }
  }

  lemma {:induction false} VisitLinksParented(m0: Storage, m: Storage, done: seq<string>, rk: string,
                                              j: int, i: int, d: int, q: seq<string>)
    requires Parented(m0, m, done, rk) && SameShape(m0, m)
    requires 0 <= j < |done| && m[done[j]].depth == Some(d)
    requires done[j] in m0 && 0 <= i <= |m0[done[j]].links|
    ensures var t := VisitLinks(m, d, m0[done[j]].links[i..], q); Parented(m0, t.storage, done, rk) && SameShape(m0, t.storage)
    decreases |m0[done[j]].links| - i
  {
    var links := m0[done[j]].links;
    if i < |links| {
      FollowParented(m0, m, done, rk, j, i, 0, d, links[i], q);
      var t1 := Follow(m, d, links[i], q);
      assert t1.storage[done[j]] == m[done[j]];
      VisitLinksParented(m0, t1.storage, done, rk, j, i + 1, d, t1.queue);
      assert links[i..][1..] == links[i + 1..];
    }
  }

  /** A dequeued key, visited with a depth, joins the dequeued keys. */
  lemma ParentedExtend(m0: Storage, m: Storage, done: seq<string>, rk: string, p: string)
    requires Parented(m0, m, done, rk)
    requires p in m && m[p].visited && m[p].depth.Some?
    ensures Parented(m0, m, done + [p], rk)
  {
    var done' := done + [p];
    forall j | 0 <= j < |done'|
      ensures done'[j] in m && m[done'[j]].visited && m[done'[j]].depth.Some?
    {
      if j < |done| {
        assert done'[j] == done[j];
      }
    }
    forall k | k in m0 && k in m && k != rk && m[k] != m0[k]
      ensures exists j :: 0 <= j < |done'| && ParentOf(m0, m, done'[j], k)
    {
      assert Changed(m0, m, k);
      var j :| 0 <= j < |done| && ParentOf(m0, m, done[j], k);
      assert done'[j] == done[j];
    }
  }

  /** Regroups the dequeued keys around one turn of the drain loop, stated
      apart so that DrainParented's own proof stays within its resource budget. */
  lemma AppendCons(a: seq<string>, p: string, b: seq<string>)
    ensures (a + [p]) + b == a + ([p] + b)
  {
  }

  lemma {:induction false} DrainParented(m0: Storage, m: Storage, q: seq<string>, done: seq<string>, rk: string)
    requires QueueOk(m, q) && SameShape(m0, m) && Parented(m0, m, done, rk)
    ensures var r := Drain(m, q); Parented(m0, r.storage, done + r.order, rk)
    decreases |Unvisited(m)| + |q|
  {
    if q == [] {
      assert done + [] == done;
    } else {
      var p := q[0];
      var d := m[p].depth.value;
      var done' := done + [p];
      ParentedExtend(m0, m, done, rk, p);
      DrainStep(m, q);
      assert m0[p].links[0..] == m[p].links;
      VisitLinksParented(m0, m, done', rk, |done|, 0, d, q[1..]);
      var t := VisitLinks(m, d, m[p].links, q[1..]);
      DrainParented(m0, t.storage, t.queue, done', rk);
      var rest := Drain(t.storage, t.queue);
      AppendCons(done, p, rest.order);
    }
  }

  /** Every page `shortest_paths!` relabels, other than the root, has depth one
      more than a page it dequeued, and is reached from one of that page's
      links through zero or more redirect pages. */
  lemma TraverseParents(m: Storage, root: Url)
    requires UrlString(root) in m
    ensures var r := Traverse(m, root).value;
      forall k :: k in m && k in r.storage && k != UrlString(root) && r.storage[k] != m[k] ==>
        exists j :: 0 <= j < |r.order| && ParentOf(m, r.storage, r.order[j], k)
  {
    var rk := UrlString(root);
    var m1 := m[rk := Label(m[rk], 0)];
    DrainParented(m, m1, [rk], [], rk);
    ParentedChanged(m, Drain(m1, [rk]).storage, Drain(m1, [rk]).order, rk);
  }

  /** Parented, read back for every changed key. */
  lemma ParentedChanged(m0: Storage, m: Storage, done: seq<string>, rk: string)
    requires Parented(m0, m, [] + done, rk)
    ensures forall k :: k in m0 && k in m && k != rk && m[k] != m0[k] ==>
      exists j :: 0 <= j < |done| && ParentOf(m0, m, done[j], k)
  {
    assert [] + done == done;
    forall k | k in m0 && k in m && k != rk && m[k] != m0[k]
      ensures exists j :: 0 <= j < |done| && ParentOf(m0, m, done[j], k)
    {
      assert Changed(m0, m, k);
    }
  }

  // ---------------------------------------------------------------------
  // Running the traversal twice
  // ---------------------------------------------------------------------

  /** Links that are all settled leave VisitLinks nothing to do. */
  lemma {:induction false} VisitSettledLinks(m: Storage, d: int, links: seq<Url>, q: seq<string>)
    requires forall l :: l in links ==> !Labellable(m, UrlString(l))
    ensures VisitLinks(m, d, links, q) == Traversal(m, q)
    decreases links
  {
    if links != [] {
      VisitSettledLinks(m, d, links[1..], q);
    }
  }

  /** The links of the page under `k` leave nothing to relabel in `m`. */
  ghost predicate LinksSettled(m: Storage, k: string) {
    k in m ==> forall l :: l in m[k].links ==> !Labellable(m, UrlString(l))
  }

  /** Settled links stay settled as pages get labelled. */
  lemma LinksSettledGrows(m: Storage, m': Storage, k: string)
    requires LinksSettled(m, k) && Grows(m, m')
    ensures LinksSettled(m', k)
  {
    if k in m' {
      assert m'[k].links == m[k].links;
      forall l | l in m'[k].links
        ensures !Labellable(m', UrlString(l))
      {
        assert !Labellable(m, UrlString(l));
      }
    }
  }

  /** After the drain, the links of every dequeued page are settled. */
  lemma {:induction false} DrainSettlesLinks(m: Storage, q: seq<string>)
    requires QueueOk(m, q)
    ensures var r := Drain(m, q); forall j :: 0 <= j < |r.order| ==> LinksSettled(r.storage, r.order[j])
    decreases |Unvisited(m)| + |q|
  {
    if q != [] {
      var p := q[0];
      DrainStep(m, q);
      var t := VisitLinks(m, m[p].depth.value, m[p].links, q[1..]);
      DrainSettlesLinks(t.storage, t.queue);
      DrainGrows(t.storage, t.queue);
      var rest := Drain(t.storage, t.queue);
      assert LinksSettled(t.storage, p);
      LinksSettledGrows(t.storage, rest.storage, p);
      var r := Drain(m, q);
      forall j | 0 <= j < |r.order|
        ensures LinksSettled(r.storage, r.order[j])
      {
        if j > 0 {
          assert r.order[j] == rest.order[j - 1];
        }
      }
    }
  }

  /** Re-running `shortest_paths!` from the same root on its own result
      changes nothing: the depths it assigns are the same. */
  lemma TraverseIdempotent(m: Storage, root: Url)
    requires UrlString(root) in m
    ensures var r := Traverse(m, root).value.storage;
      Traverse(r, root).Some? && Traverse(r, root).value.storage == r
  {
    var rk := UrlString(root);
    var m1 := m[rk := Label(m[rk], 0)];
    TraverseFrame(m, root);
    TraverseQueue(m, root);
    DrainSettlesLinks(m1, [rk]);
    assert LinksSettled(Drain(m1, [rk]).storage, Drain(m1, [rk]).order[0]);
    var r := Drain(m1, [rk]).storage;
    assert r[rk := Label(r[rk], 0)] == r;
    VisitSettledLinks(r, 0, r[rk].links, []);
    DrainStep(r, [rk]);
  }
}
