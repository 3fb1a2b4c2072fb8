/** The host's CacheStorage (section 5.5 of the W3C Service Workers
    specification) and its Cache objects (section 5.4) as a value: an ordered
    list of cache names and, per name, a cache that maps a request key to the
    stored response. Request keys are request URLs, already resolved; a cache
    holds one response per key, so a put replaces the previous entry. */
module CacheStorage {
  import opened Base

  type Key = string
  type Cache = map<Key, Response>

  predicate Distinct(xs: seq<string>) {
    forall i, j :: 0 <= i < j < |xs| ==> xs[i] != xs[j]
  }

  /** `order` is the insertion order of the name-to-cache map, which
      `caches.keys()` reports and `caches.match` walks. */
  datatype Storage = Storage(order: seq<string>, caches: map<string, Cache>) {
    ghost predicate Valid() {
      && Distinct(order)
      && forall n :: n in caches <==> n in order
    }
  }

  /** The response cache `name` holds for `key`, if the cache exists and holds one. */
  function Lookup(s: Storage, name: string, key: Key): Option<Response> {
    if name in s.caches && key in s.caches[name] then Some(s.caches[name][key]) else None
  }

  /** `xs` with every name in `gone` dropped and the rest kept in order. */
  function Without(xs: seq<string>, gone: set<string>): (r: seq<string>)
    ensures forall x :: x in r <==> x in xs && x !in gone
    ensures Distinct(xs) ==> Distinct(r)
    ensures |r| <= |xs|
  {
    if xs == [] then []
    else if xs[0] in gone then Without(xs[1..], gone)
    else [xs[0]] + Without(xs[1..], gone)
  }

  lemma {:induction false} WithoutTwice(xs: seq<string>, a: set<string>, b: set<string>)
    ensures Without(Without(xs, a), b) == Without(xs, a + b)
  {
    if xs != [] {
      WithoutTwice(xs[1..], a, b);
      if xs[0] !in a {
        assert Without(xs, a) == [xs[0]] + Without(xs[1..], a);
        assert Without(xs, a)[1..] == Without(xs[1..], a);
      }
    }
  }

  /** Filtering out nothing keeps the list as it is. */
  lemma {:induction false} WithoutNothing(xs: seq<string>)
    ensures Without(xs, {}) == xs
  {
    if xs != [] {
      WithoutNothing(xs[1..]);
    }
  }

  /** Filtering distributes over concatenation: each part keeps its own order. */
  lemma {:induction false} WithoutAppend(xs: seq<string>, ys: seq<string>, gone: set<string>)
    ensures Without(xs + ys, gone) == Without(xs, gone) + Without(ys, gone)
  {
    if xs != [] {
      assert (xs + ys)[0] == xs[0] && (xs + ys)[1..] == xs[1..] + ys;
      WithoutAppend(xs[1..], ys, gone);
    } else {
      assert xs + ys == ys;
    }
  }

  /** Two names that survive the filter keep their relative order. */
  lemma {:induction false} WithoutKeepsOrder(xs: seq<string>, gone: set<string>, i: nat, j: nat)
    requires i < j < |xs| && xs[i] !in gone && xs[j] !in gone
    ensures exists p, q ::
      && 0 <= p < q < |Without(xs, gone)|
      && Without(xs, gone)[p] == xs[i] && Without(xs, gone)[q] == xs[j]
  {
    var front, back := xs[..j], xs[j..];
    assert xs == front + back;
    WithoutAppend(front, back, gone);
    var a, b := Without(front, gone), Without(back, gone);
    assert front[i] == xs[i] && xs[i] in front;
    assert xs[i] in a;
    var p :| 0 <= p < |a| && a[p] == xs[i];
    assert back[0] == xs[j] && b == [xs[j]] + Without(back[1..], gone);
    assert Without(xs, gone) == a + b;
    assert (a + b)[p] == xs[i] && (a + b)[|a|] == xs[j];
  }

  /** `caches.open(name)`: an existing cache is left as it is; a missing one
      is created empty and appended to the name order. No stored response changes. */
  function Open(s: Storage, name: string): (s': Storage)
    ensures s.Valid() ==> s'.Valid()
    ensures name in s'.caches
    ensures name !in s.caches ==> s'.caches[name] == map[]
    ensures forall n :: n in s'.caches <==> n in s.caches || n == name
    ensures forall n :: n in s.caches ==> s'.caches[n] == s.caches[n]
    ensures s.order <= s'.order && |s'.order| <= |s.order| + 1
    ensures forall n, k :: Lookup(s', n, k) == Lookup(s, n, k)
  {
    if name in s.caches then s
    else Storage(s.order + [name], s.caches[name := map[]])
  }

  /** `cache.put(key, response)` on the cache `caches.open(name)` yields:
      the entry for `key` becomes `response` and every other entry of every
      cache keeps its value. */
  function Put(s: Storage, name: string, key: Key, response: Response): (s': Storage)
    ensures s.Valid() ==> s'.Valid()
    ensures Lookup(s', name, key) == Some(response)
    ensures forall n, k :: (n != name || k != key) ==> Lookup(s', n, k) == Lookup(s, n, k)
    ensures forall n :: n in s'.caches <==> n in s.caches || n == name
    ensures s.order <= s'.order && |s'.order| <= |s.order| + 1
    ensures name in s.caches ==> s'.order == s.order
  {
    var o := Open(s, name);
    Storage(o.order, o.caches[name := o.caches[name][key := response]])
  }

  /** Putting the same response under the same key twice leaves the storage
      as one put did: one entry for the key, no duplicate. */
  lemma PutIdempotent(s: Storage, name: string, key: Key, response: Response)
    ensures Put(Put(s, name, key, response), name, key, response) == Put(s, name, key, response)
  {
    var once := Put(s, name, key, response);
    assert Open(once, name) == once;
    assert once.caches[name][key := response] == once.caches[name];
  }

  /** `caches.delete(name)`: the cache disappears from both the name order and
      the map; every other cache is untouched. */
  function Delete(s: Storage, name: string): (s': Storage)
    ensures s.Valid() ==> s'.Valid()
    ensures name !in s'.caches && name !in s'.order
    ensures forall n :: n != name ==> (n in s'.caches <==> n in s.caches)
    ensures forall n, k :: n != name ==> Lookup(s', n, k) == Lookup(s, n, k)
    // The remaining names keep their order.
    ensures s'.order == Without(s.order, {name})
  {
    Storage(Without(s.order, {name}), s.caches - {name})
  }

  /** Deleting one cache never reorders the others, so it never changes which
      of two remaining caches `caches.match` reaches first. */
  lemma DeleteKeepsOrder(s: Storage, name: string, i: nat, j: nat)
    requires i < j < |s.order| && s.order[i] != name && s.order[j] != name
    ensures exists p, q ::
      && 0 <= p < q < |Delete(s, name).order|
      && Delete(s, name).order[p] == s.order[i] && Delete(s, name).order[q] == s.order[j]
  {
    assert s.order[i] !in {name} && s.order[j] !in {name};
    assert Delete(s, name).order == Without(s.order, {name});
    WithoutKeepsOrder(s.order, {name}, i, j);
  }

  /** Index of the first name in `names` whose cache holds `key`, or `|names|`
      when none does. */
  function FirstHolder(s: Storage, names: seq<string>, key: Key): (i: nat)
    ensures i <= |names|
    ensures forall j :: 0 <= j < i ==> Lookup(s, names[j], key).None?
    ensures i < |names| ==> Lookup(s, names[i], key).Some?
    decreases |names|
  {
    if names == [] then 0
    else if Lookup(s, names[0], key).Some? then 0
    else 1 + FirstHolder(s, names[1..], key)
  }

  /** `caches.match(key)`: walk the caches in name order and answer the first
      stored response for `key`; absent when no cache holds it. */
  function Match(s: Storage, key: Key): (r: Option<Response>)
    ensures r.None? <==> forall j :: 0 <= j < |s.order| ==> Lookup(s, s.order[j], key).None?
    ensures r.Some? ==>
      exists i :: 0 <= i < |s.order| && Lookup(s, s.order[i], key) == r &&
        forall j :: 0 <= j < i ==> Lookup(s, s.order[j], key).None?
  {
    var i := FirstHolder(s, s.order, key);
    if i < |s.order| then Lookup(s, s.order[i], key) else None
  }

  /** On a well-formed storage, `caches.match` finds a response exactly when
      some cache holds the key. */
  lemma MatchFindsAnyHolder(s: Storage, key: Key)
    requires s.Valid()
    ensures Match(s, key).Some? <==> exists n :: n in s.caches && key in s.caches[n]
  {
    if exists n :: n in s.caches && key in s.caches[n] {
      var n :| n in s.caches && key in s.caches[n];
      var j :| 0 <= j < |s.order| && s.order[j] == n;
      assert Lookup(s, s.order[j], key).Some?;
    }
  }

  /** When a single cache holds the key, `caches.match` returns exactly what
      that cache stores. */
  lemma MatchSoleHolder(s: Storage, name: string, key: Key)
    requires s.Valid()
    requires name in s.caches && key in s.caches[name]
    requires forall n :: n in s.caches && n != name ==> key !in s.caches[n]
    ensures Match(s, key) == Some(s.caches[name][key])
  {
    var j :| 0 <= j < |s.order| && s.order[j] == name;
    assert Lookup(s, s.order[j], key).Some?;
  }
}
