/**
 * The page store of the crawler (lib/medusa/page_store.rb): a hash from the
 * string form of a URL to its Page, which doubles as the crawl graph, and the
 * in-place breadth-first labelling `shortest_paths!`.
 *
 * The traversal is specified by functions on maps (Follow, VisitLinks, Drain,
 * Traverse) and the method PageStore.ShortestPaths is proved to compute them;
 * the lemmas of module ShortestPaths state what the traversal promises.
 */
module PageStores {
  import opened Wrappers
  import opened Urls
  import opened Pages

  type Storage = map<string, Page>

  /** The schemes `has_page?` treats as one. */
  const Schemes: seq<string> := ["http", "https"]

  predicate IsWeb(url: Url) {
    url.scheme.Some? && url.scheme.value in Schemes
  }

  // ---------------------------------------------------------------------
  // Placeholder insertion (touch_keys) as a function of the old storage
  // ---------------------------------------------------------------------

  /** The storage after touching every key of `keys`, in order. */
  function TouchAll(m: Storage, keys: seq<Url>): Storage
    decreases |keys|
  {
    if keys == [] then m
    else
      var last := keys[|keys| - 1];
      TouchAll(m, keys[..|keys| - 1])[UrlString(last) := Placeholder(last)]
  }

  /** `keys[i]` is the last entry of `keys` with its string form. */
  predicate LastWithKey(keys: seq<Url>, i: int)
    requires 0 <= i < |keys|
  {
    forall j :: i < j < |keys| ==> UrlString(keys[j]) != UrlString(keys[i])
  }

  /** `touch_keys` adds exactly the keys' string forms to the store. */
  lemma {:induction false} TouchAllKeys(m: Storage, keys: seq<Url>)
    ensures forall k :: k in TouchAll(m, keys) <==> k in m || exists i :: 0 <= i < |keys| && UrlString(keys[i]) == k
    decreases |keys|
  {
    if keys != [] {
      var n := |keys| - 1;
      var ks := keys[..n];
      TouchAllKeys(m, ks);
      forall k | k in TouchAll(m, keys)
        ensures k in m || exists i :: 0 <= i < |keys| && UrlString(keys[i]) == k
      {
        if k != UrlString(keys[n]) && k !in m {
          var i :| 0 <= i < |ks| && UrlString(ks[i]) == k;
          assert keys[i] == ks[i];
        }
      }
      forall k | k in m || exists i :: 0 <= i < |keys| && UrlString(keys[i]) == k
        ensures k in TouchAll(m, keys)
      {
        if k !in m {
          var i :| 0 <= i < |keys| && UrlString(keys[i]) == k;
          if i < n {
            assert UrlString(ks[i]) == k;
          }
        }
      }
    }
  }

  /** `touch_keys` leaves every page whose key it does not touch alone. */
  lemma {:induction false} TouchAllUntouched(m: Storage, keys: seq<Url>, k: string)
    requires k in m && forall i :: 0 <= i < |keys| ==> UrlString(keys[i]) != k
    ensures k in TouchAll(m, keys) && TouchAll(m, keys)[k] == m[k]
    decreases |keys|
  {
    if keys != [] {
      var n := |keys| - 1;
      assert forall i :: 0 <= i < n ==> keys[..n][i] == keys[i];
      TouchAllUntouched(m, keys[..n], k);
    }
  }

  /** After `touch_keys`, the page under each key is a placeholder for the
      last entry of `keys` with that string form. */
  lemma {:induction false} TouchAllPlaceholder(m: Storage, keys: seq<Url>, i: int)
    requires 0 <= i < |keys| && LastWithKey(keys, i)
    ensures UrlString(keys[i]) in TouchAll(m, keys)
    ensures TouchAll(m, keys)[UrlString(keys[i])] == Placeholder(keys[i])
    decreases |keys|
  {
    var n := |keys| - 1;
    if i < n {
      var ks := keys[..n];
      assert UrlString(keys[n]) != UrlString(keys[i]);
      assert ks[i] == keys[i];
      assert LastWithKey(ks, i) by {
        forall j | i < j < |ks|
          ensures UrlString(ks[j]) != UrlString(ks[i])
        {
          assert ks[j] == keys[j];
        }
      }
      TouchAllPlaceholder(m, ks, i);
    }
  }

  // ---------------------------------------------------------------------
  // The breadth-first labelling, as functions on the storage
  // ---------------------------------------------------------------------

  /** Keys whose page is not yet visited. Every labelling step removes one,
      which is what makes the traversal terminate. */
  ghost function Unvisited(m: Storage): set<string> {
    set k | k in m && !m[k].visited
  }

  /** The guard of lib/medusa/page_store.rb:70 negated: the key is present,
      fetched and not yet visited, so the traversal labels it. */
  predicate Labellable(m: Storage, k: string) {
    k in m && m[k].fetched && !m[k].visited
  }

  /** A page marked visited at depth `d`. */
  function Label(p: Page, d: int): Page {
    p.(visited := true, depth := Some(d))
  }

  lemma LabelShrinks(m: Storage, k: string, d: int)
    requires k in m && !m[k].visited
    ensures |Unvisited(m[k := Label(m[k], d)])| == |Unvisited(m)| - 1
  {
    assert Unvisited(m[k := Label(m[k], d)]) == Unvisited(m) - {k};
  }

  /** `m'` is `m` with some labellable pages labelled at depth `d`. */
  ghost predicate LabelsAt(m: Storage, m': Storage, d: int) {
    && m'.Keys == m.Keys
    && forall k :: k in m ==> m'[k] == m[k] || (Labellable(m, k) && m'[k] == Label(m[k], d))
  }

  /** `m'` is `m` with some labellable pages labelled, at any depths. */
  ghost predicate Grows(m: Storage, m': Storage) {
    && m'.Keys == m.Keys
    && forall k :: k in m ==>
         m'[k] == m[k] || (Labellable(m, k) && m'[k].depth.Some? && m'[k] == Label(m[k], m'[k].depth.value))
  }

  lemma LabelsAtGrows(m: Storage, m': Storage, d: int)
    requires LabelsAt(m, m', d)
    ensures Grows(m, m')
  {
  }

  lemma GrowsTransitive(m: Storage, m': Storage, m'': Storage)
    requires Grows(m, m') && Grows(m', m'')
    ensures Grows(m, m'')
  {
  }

  /** `k` was enqueued by a step from `m` to `m'` at depth `d`. */
  ghost predicate Enqueued(m: Storage, m': Storage, k: string, d: int) {
    Labellable(m, k) && !m[k].IsRedirect() && k in m' && m'[k] == Label(m[k], d)
  }

  /** Every queued key names a visited page with a depth. */
  ghost predicate QueueOk(m: Storage, q: seq<string>) {
    forall i :: 0 <= i < |q| ==> q[i] in m && m[q[i]].visited && m[q[i]].depth.Some?
  }

  predicate NoDup(s: seq<string>) {
    forall i, j :: 0 <= i < j < |s| ==> s[i] != s[j]
  }

  datatype Traversal = Traversal(storage: Storage, queue: seq<string>)

  /** The store after the traversal, and the keys in the order they were dequeued. */
  datatype Run = Run(storage: Storage, order: seq<string>)

  /** One link `u` of a dequeued page at depth `d` (lib/medusa/page_store.rb:69-80):
      skipped when missing, unfetched or visited; otherwise labelled at `d + 1`,
      enqueued unless it redirects, and when it redirects its target is
      examined in turn under the same parent depth (the `redo`). */
  function Follow(m: Storage, d: int, u: Url, q: seq<string>): (t: Traversal)
    ensures LabelsAt(m, t.storage, d + 1)
    ensures |Unvisited(t.storage)| + |t.queue| <= |Unvisited(m)| + |q|
    ensures |q| <= |t.queue| <= |q| + 1 && t.queue[..|q|] == q
    ensures forall i :: |q| <= i < |t.queue| ==> Enqueued(m, t.storage, t.queue[i], d + 1)
    ensures !Labellable(t.storage, UrlString(u))
    decreases |Unvisited(m)|
  {
    var k := UrlString(u);
    if !Labellable(m, k) then Traversal(m, q)
    else
      var link := m[k];
      var q' := if link.IsRedirect() then q else q + [k];
      var m' := m[k := Label(link, d + 1)];
      LabelShrinks(m, k, d + 1);
      if link.IsRedirect() then
        var t := Follow(m', d, link.redirectTo.value, q');
        assert t.queue[..|q|] == t.queue[..|q'|][..|q|];
        t
      else Traversal(m', q')
  }

  /** Follow on a link it relabels, unfolded once. */
  lemma FollowLabels(m: Storage, d: int, u: Url, q: seq<string>)
    requires Labellable(m, UrlString(u))
    ensures var k := UrlString(u); var m' := m[k := Label(m[k], d + 1)];
      Follow(m, d, u, q) ==
        if m[k].IsRedirect() then Follow(m', d, m[k].redirectTo.value, q) else Traversal(m', q + [k])
  {
  }

  /** The links of one dequeued page at depth `d`, in order
      (lib/medusa/page_store.rb:67-82). */
  function VisitLinks(m: Storage, d: int, links: seq<Url>, q: seq<string>): (t: Traversal)
    ensures LabelsAt(m, t.storage, d + 1)
    ensures |Unvisited(t.storage)| + |t.queue| <= |Unvisited(m)| + |q|
    ensures |q| <= |t.queue| && t.queue[..|q|] == q
    ensures forall i :: |q| <= i < |t.queue| ==> Enqueued(m, t.storage, t.queue[i], d + 1)
    ensures NoDup(t.queue[|q|..])
    ensures forall l :: l in links ==> !Labellable(t.storage, UrlString(l))
    decreases links
  {
    if links == [] then Traversal(m, q)
    else
      var t1 := Follow(m, d, links[0], q);
      var t2 := VisitLinks(t1.storage, d, links[1..], t1.queue);
      VisitLinksStep(m, d, links, q, t1, t2);
      t2
  }

  /** The composition of one Follow with the rest of VisitLinks keeps the
      facts VisitLinks promises. */
  lemma VisitLinksStep(m: Storage, d: int, links: seq<Url>, q: seq<string>, t1: Traversal, t2: Traversal)
    requires links != []
    requires LabelsAt(m, t1.storage, d + 1)
    requires |q| <= |t1.queue| <= |q| + 1 && t1.queue[..|q|] == q
    requires forall i :: |q| <= i < |t1.queue| ==> Enqueued(m, t1.storage, t1.queue[i], d + 1)
    requires !Labellable(t1.storage, UrlString(links[0]))
    requires LabelsAt(t1.storage, t2.storage, d + 1)
    requires |t1.queue| <= |t2.queue| && t2.queue[..|t1.queue|] == t1.queue
    requires forall i :: |t1.queue| <= i < |t2.queue| ==> Enqueued(t1.storage, t2.storage, t2.queue[i], d + 1)
    requires NoDup(t2.queue[|t1.queue|..])
    requires forall l :: l in links[1..] ==> !Labellable(t2.storage, UrlString(l))
    ensures LabelsAt(m, t2.storage, d + 1)
    ensures |q| <= |t2.queue| && t2.queue[..|q|] == q
    ensures forall i :: |q| <= i < |t2.queue| ==> Enqueued(m, t2.storage, t2.queue[i], d + 1)
    ensures NoDup(t2.queue[|q|..])
    ensures forall l :: l in links ==> !Labellable(t2.storage, UrlString(l))
  {
    assert t2.queue[..|q|] == t2.queue[..|t1.queue|][..|q|];
    forall i | |q| <= i < |t2.queue|
      ensures Enqueued(m, t2.storage, t2.queue[i], d + 1)
    {
      if i < |t1.queue| {
        assert t2.queue[i] == t1.queue[i];
      }
    }
    forall i, j | |q| <= i < j < |t2.queue|
      ensures t2.queue[i] != t2.queue[j]
    {
      if j < |t1.queue| {
        assert false;
      } else if i < |t1.queue| {
        assert t2.queue[i] == t1.queue[i];
      } else {
        assert t2.queue[i] == t2.queue[|t1.queue|..][i - |t1.queue|];
        assert t2.queue[j] == t2.queue[|t1.queue|..][j - |t1.queue|];
      }
    }
    forall l | l in links
      ensures !Labellable(t2.storage, UrlString(l))
    {
      if l != links[0] {
        assert l in links[1..];
      }
    }
  }

  /** The `while !q.empty?` loop (lib/medusa/page_store.rb:65-83): dequeue a key
      and visit the links of its page at that page's depth. */
  function Drain(m: Storage, q: seq<string>): (r: Run)
    requires QueueOk(m, q)
    decreases |Unvisited(m)| + |q|
  {
    if q == [] then Run(m, [])
    else
      var page := m[q[0]];
      var t := VisitLinks(m, page.depth.value, page.links, q[1..]);
      assert QueueOk(t.storage, t.queue) by {
        forall i | 0 <= i < |t.queue|
          ensures t.queue[i] in t.storage && t.storage[t.queue[i]].visited && t.storage[t.queue[i]].depth.Some?
        {
          if i < |q| - 1 {
            assert t.queue[i] == q[1..][i] == q[i + 1];
          }
        }
      }
      var rest := Drain(t.storage, t.queue);
      Run(rest.storage, [q[0]] + rest.order)
  }

  /** One turn of the drain loop, unfolded. */
  lemma DrainStep(m: Storage, q: seq<string>)
    requires QueueOk(m, q) && q != []
    ensures var t := VisitLinks(m, m[q[0]].depth.value, m[q[0]].links, q[1..]);
      && QueueOk(t.storage, t.queue)
      && Drain(m, q) == Run(Drain(t.storage, t.queue).storage, [q[0]] + Drain(t.storage, t.queue).order)
  {
    var t := VisitLinks(m, m[q[0]].depth.value, m[q[0]].links, q[1..]);
    forall i | 0 <= i < |t.queue|
      ensures t.queue[i] in t.storage && t.storage[t.queue[i]].visited && t.storage[t.queue[i]].depth.Some?
    {
      if i < |q| - 1 {
        assert t.queue[i] == q[1..][i] == q[i + 1];
      }
    }
  }

  /** `shortest_paths!(root)` as a function: None when the root is not a key
      (the raise of lib/medusa/page_store.rb:56); otherwise the root is labelled
      at depth 0 and queued, and the queue is drained. */
  function Traverse(m: Storage, root: Url): Option<Run> {
    var rk := UrlString(root);
    if rk !in m then None
    else Some(Drain(m[rk := Label(m[rk], 0)], [rk]))
  }

  /** What `shortest_paths!` returns: the store itself, or the raised error. */
  datatype ShortestPathsOutcome = Ok(store: PageStore) | RootNotFound

  // ---------------------------------------------------------------------
  // The store
  // ---------------------------------------------------------------------

  class PageStore {
    /** `@storage`: pages by the string form of their URL. */
    var storage: Storage

    constructor (initial: Storage)
      ensures storage == initial
    {
      storage := initial;
    }

    /** `[]`: the page stored under `index.to_s`, if any. */
    function Get(index: Url): (r: Option<Page>)
      reads this
      ensures r.Some? <==> UrlString(index) in storage
      ensures r.Some? ==> r.value == storage[UrlString(index)]
    {
      if UrlString(index) in storage then Some(storage[UrlString(index)]) else None
    }

    /** `key?`: whether `[]` finds a page for the key. */
    predicate HasKey(key: Url)
      reads this
      ensures HasKey(key) <==> Get(key).Some?
    {
      UrlString(key) in storage
    }

    /** `[]=`: after the store, `index` reads back `other` and every other key
        reads back what it did before. */
    method Set(index: Url, other: Page)
      modifies this
      ensures storage == old(storage)[UrlString(index) := other]
      ensures Get(index) == Some(other)
      ensures forall u :: UrlString(u) != UrlString(index) ==> Get(u) == old(Get(u))
    {
      storage := storage[UrlString(index) := other];
    }

    /** `delete`: returns the page that was stored under the key, if any, and
        leaves every other key alone. */
    method Delete(key: Url) returns (r: Option<Page>)
      modifies this
      ensures r == old(Get(key))
      ensures storage == old(storage) - {UrlString(key)}
      ensures !HasKey(key)
      ensures forall u :: UrlString(u) != UrlString(key) ==> Get(u) == old(Get(u))
    {
      r := Get(key);
      storage := storage - {UrlString(key)};
    }

    /** `touch_key`: overwrite the key with a fresh placeholder. */
    method TouchKey(key: Url)
      modifies this
      ensures storage == old(storage)[UrlString(key) := Placeholder(key)]
      ensures Get(key) == Some(Placeholder(key))
    {
      Set(key, Placeholder(key));
    }

    /** `touch_keys`: `touch_key` for every key, in order. */
    method TouchKeys(keys: seq<Url>)
      modifies this
      ensures storage == TouchAll(old(storage), keys)
    {
      for i := 0 to |keys|
        invariant storage == TouchAll(old(storage), keys[..i])
      {
        assert keys[..i + 1][..i] == keys[..i];
        TouchKey(keys[i]);
      }
      assert keys[..|keys|] == keys;
    }

    /** `has_page?`: for an http or https URL, whether either variant is a key;
        for any other URL, whether it is a key. */
    predicate HasPage(url: Url)
      reads this
      ensures HasPage(url) <==>
        if IsWeb(url)
        then HasKey(url.(scheme := Some("http"))) || HasKey(url.(scheme := Some("https")))
        else HasKey(url)
      ensures HasKey(url) ==> HasPage(url)
    {
      if IsWeb(url) then exists s :: s in Schemes && HasKey(url.(scheme := Some(s)))
      else HasKey(url)
    }

    /** `shortest_paths!`: label every page reachable from `root` with its
        breadth-first depth, in place. Raises (RootNotFound) without touching
        the store when the root is not a key; otherwise returns the store and
        leaves it as Traverse says; `order` is the sequence of dequeued keys. */
    method ShortestPaths(root: Url) returns (r: ShortestPathsOutcome, ghost order: seq<string>)
      modifies this
      ensures UrlString(root) !in old(storage) ==> r == RootNotFound && storage == old(storage)
      ensures UrlString(root) in old(storage) ==> r == Ok(this) && Traverse(old(storage), root) == Some(Run(storage, order))
    {
      var rk := UrlString(root);
      if rk !in storage {
        r, order := RootNotFound, [];
        return;
      }
      var q := [rk];
      var rootPage := storage[rk];
      rootPage := rootPage.(depth := Some(0), visited := true);
      storage := storage[rk := rootPage];
      assert storage == old(storage)[rk := Label(old(storage)[rk], 0)];
      order := DrainQueue(q);
      r := Ok(this);
    }

    /** The `while !q.empty?` loop: dequeue a key and visit its page's links. */
    method DrainQueue(q0: seq<string>) returns (ghost order: seq<string>)
      requires QueueOk(storage, q0)
      modifies this
      ensures Run(storage, order) == Drain(old(storage), q0)
    {
      var q := q0;
      order := [];
      ghost var goal := Drain(storage, q0);
      while q != []
        invariant QueueOk(storage, q)
        invariant goal == Run(Drain(storage, q).storage, order + Drain(storage, q).order)
        decreases |Unvisited(storage)| + |q|
      {
        var key := q[0];
        var page := storage[key];
        DrainStep(storage, q);
        q := VisitPage(page.depth.value, page.links, q[1..]);
        order := order + [key];
      }
      assert Drain(storage, q) == Run(storage, []);
    }

    /** The `each` over the links of a dequeued page at depth `d`. */
    method VisitPage(d: int, links: seq<Url>, q0: seq<string>) returns (q: seq<string>)
      modifies this
      ensures Traversal(storage, q) == VisitLinks(old(storage), d, links, q0)
    {
      q := q0;
      for i := 0 to |links|
        invariant VisitLinks(storage, d, links[i..], q) == VisitLinks(old(storage), d, links, q0)
      {
        assert links[i..][1..] == links[i + 1..];
        q := FollowLink(d, links[i], q);
      }
      assert links[|links|..] == [];
    }

    /** The body of that `each` for one link `u0`: skip it (`next`), or label
        it at `d + 1`, enqueue it unless it redirects, and for a redirect
        repeat with its target (`redo`). */
    method FollowLink(d: int, u0: Url, q0: seq<string>) returns (q: seq<string>)
      modifies this
      ensures Traversal(storage, q) == Follow(old(storage), d, u0, q0)
    {
      var u := u0;
      q := q0;
      var settled := false;
      while !settled
        invariant !settled ==> Follow(storage, d, u, q) == Follow(old(storage), d, u0, q0)
        invariant settled ==> Traversal(storage, q) == Follow(old(storage), d, u0, q0)
        decreases |Unvisited(storage)|, !settled
      {
        var k := UrlString(u);
        if k !in storage || !storage[k].fetched || storage[k].visited {
          settled := true;  // `next`
        } else {
          var link := storage[k];
          if !link.IsRedirect() {
            q := q + [k];
          }
          LabelShrinks(storage, k, d + 1);
          link := link.(visited := true, depth := Some(d + 1));
          storage := storage[k := link];
          if link.IsRedirect() {
            u := link.redirectTo.value;  // `redo` with the redirect target
          } else {
            settled := true;
          }
        }
      }
    }
  }
}
