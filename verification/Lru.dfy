/** The recency discipline of the WebView pool, on values.

  A window's life is seen here as a trace of requests: a dashboard is shown, or a
  refresh leaves only some ids on the list. `Pool` is what an LRU pool of size `k`
  holds afterwards, least recently used first, and `Loads` how many pages it loaded.
  The theorems are about every trace, refreshes that drop ids included. */
module Lru {
  import opened Models

  datatype Request = Show(id: Id) | Retain(ids: set<Id>)

  datatype Filter = Except(gone: Id) | Among(ids: set<Id>) {
    predicate Admits(id: Id) {
      match this
      case Except(gone) => id != gone
      case Among(ids) => id in ids
    }
  }

  ghost predicate Distinct(s: seq<Id>) {
    forall i, j :: 0 <= i < j < |s| ==> s[i] != s[j]
  }

  ghost function Elems(s: seq<Id>): set<Id> {
    set x | x in s
  }

  ghost predicate IsSuffix(a: seq<Id>, b: seq<Id>) {
    |a| <= |b| && a == b[|b| - |a|..]
  }

  /** The elements of `s` that the filter admits, in their order. */
  ghost function Keep(s: seq<Id>, f: Filter): (r: seq<Id>)
    ensures |r| <= |s|
    ensures forall x :: x in r <==> x in s && f.Admits(x)
  {
    if s == [] then []
    else
      var front := Keep(s[..|s| - 1], f);
      assert s == s[..|s| - 1] + [s[|s| - 1]];
      if f.Admits(s[|s| - 1]) then front + [s[|s| - 1]] else front
  }

  /** The last `k` elements, or all of them when there are fewer. */
  ghost function Last(s: seq<Id>, k: nat): seq<Id> {
    if |s| <= k then s else s[|s| - k..]
  }

  ghost function Serve(order: seq<Id>, r: Request, k: nat): seq<Id> {
    match r
    case Show(id) => Last(Keep(order, Except(id)) + [id], k)
    case Retain(ids) => Keep(order, Among(ids))
  }

  ghost function Pool(trace: seq<Request>, k: nat): seq<Id> {
    if trace == [] then [] else Serve(Pool(trace[..|trace| - 1], k), trace[|trace| - 1], k)
  }

  ghost function Miss(order: seq<Id>, r: Request): nat {
    if r.Show? && r.id !in order then 1 else 0
  }

  ghost function Loads(trace: seq<Request>, k: nat): nat {
    if trace == [] then 0
    else Loads(trace[..|trace| - 1], k) + Miss(Pool(trace[..|trace| - 1], k), trace[|trace| - 1])
  }

  /** Every id still allowed, in order of its last showing: the pool with no limit. */
  ghost function Recent(trace: seq<Request>): seq<Id> {
    if trace == [] then []
    else
      match trace[|trace| - 1]
      case Show(id) => Keep(Recent(trace[..|trace| - 1]), Except(id)) + [id]
      case Retain(ids) => Keep(Recent(trace[..|trace| - 1]), Among(ids))
  }

  // ----- filtering

  lemma {:induction false} KeepConcat(a: seq<Id>, b: seq<Id>, f: Filter)
    ensures Keep(a + b, f) == Keep(a, f) + Keep(b, f)
  {
    if b == [] {
      assert a + b == a;
    } else {
      var n := |b| - 1;
      assert (a + b)[..|a + b| - 1] == a + b[..n];
      KeepConcat(a, b[..n], f);
    }
  }

  lemma {:induction false} KeepAll(s: seq<Id>, f: Filter)
    requires forall x :: x in s ==> f.Admits(x)
    ensures Keep(s, f) == s
  {
    if s != [] {
      assert s == s[..|s| - 1] + [s[|s| - 1]];
      KeepAll(s[..|s| - 1], f);
    }
  }

  lemma {:induction false} KeepDistinct(s: seq<Id>, f: Filter)
    requires Distinct(s)
    ensures Distinct(Keep(s, f))
  {
    if s != [] {
      KeepDistinct(s[..|s| - 1], f);
    }
  }

  lemma DistinctSnoc(s: seq<Id>, id: Id)
    requires Distinct(s) && id !in s
    ensures Distinct(s + [id])
  {
  }

  lemma KeepSuffix(a: seq<Id>, b: seq<Id>, f: Filter)
    requires IsSuffix(a, b)
    ensures IsSuffix(Keep(a, f), Keep(b, f))
  {
    var c := b[..|b| - |a|];
    assert b == c + a;
    KeepConcat(c, a, f);
  }

  /** In a duplicate-free order, dropping one id closes the gap where it stood. */
  lemma KeepAround(a: seq<Id>, id: Id, b: seq<Id>)
    requires id !in a && id !in b
    ensures Keep(a + [id] + b, Except(id)) == a + b
  {
    KeepConcat(a + [id], b, Except(id));
    KeepConcat(a, [id], Except(id));
    KeepAll(a, Except(id));
    KeepAll(b, Except(id));
    assert Keep([id], Except(id)) == [] by {
      assert [id][..0] == [];
    }
  }

  // ----- shape

  lemma Snoc(trace: seq<Request>, r: Request, k: nat)
    ensures Pool(trace + [r], k) == Serve(Pool(trace, k), r, k)
    ensures Loads(trace + [r], k) == Loads(trace, k) + Miss(Pool(trace, k), r)
  {
    assert (trace + [r])[..|trace + [r]| - 1] == trace;
  }

  /** The pool never lists an id twice, never exceeds its limit, and always ends with
      the id shown last. */
  lemma {:induction false} PoolShape(trace: seq<Request>, k: nat)
    requires k >= 1
    ensures Distinct(Pool(trace, k)) && |Pool(trace, k)| <= k
    ensures trace != [] && trace[|trace| - 1].Show? ==>
              Pool(trace, k) != [] && Pool(trace, k)[|Pool(trace, k)| - 1] == trace[|trace| - 1].id
  {
    if trace != [] {
      PoolShape(trace[..|trace| - 1], k);
      var order := Pool(trace[..|trace| - 1], k);
      match trace[|trace| - 1]
      case Show(id) =>
        KeepDistinct(order, Except(id));
        assert !Except(id).Admits(id);
        DistinctSnoc(Keep(order, Except(id)), id);
      case Retain(ids) =>
        KeepDistinct(order, Among(ids));
    }
  }

  lemma SuffixStep(a: seq<Id>, b: seq<Id>, r: Request, k: nat, l: nat)
    requires IsSuffix(a, b) && k <= l
    ensures IsSuffix(Serve(a, r, k), Serve(b, r, l))
  {
    match r
    case Show(id) =>
      KeepSuffix(a, b, Except(id));
      var x, y := Keep(a, Except(id)) + [id], Keep(b, Except(id)) + [id];
      assert IsSuffix(x, y);
      assert IsSuffix(Last(x, k), y) && IsSuffix(Last(y, l), y);
      SuffixesNest(Last(x, k), Last(y, l), y);
    case Retain(ids) =>
      KeepSuffix(a, b, Among(ids));
  }

  lemma SuffixesNest(a: seq<Id>, b: seq<Id>, c: seq<Id>)
    requires IsSuffix(a, c) && IsSuffix(b, c) && |a| <= |b|
    ensures IsSuffix(a, b)
  {
  }

  /** No Belady anomaly: on the same trace a smaller pool is always a suffix of a larger
      one, so a larger limit never loads more pages. */
  lemma {:induction false} StackInclusion(trace: seq<Request>, k: nat, l: nat)
    requires k <= l
    ensures IsSuffix(Pool(trace, k), Pool(trace, l))
    ensures Loads(trace, l) <= Loads(trace, k)
  {
    if trace != [] {
      StackInclusion(trace[..|trace| - 1], k, l);
      SuffixStep(Pool(trace[..|trace| - 1], k), Pool(trace[..|trace| - 1], l), trace[|trace| - 1], k, l);
    }
  }

  /** The pool is always the most recent end of the unbounded recency list. */
  lemma {:induction false} PoolIsRecentSuffix(trace: seq<Request>, k: nat)
    ensures IsSuffix(Pool(trace, k), Recent(trace))
  {
    if trace != [] {
      PoolIsRecentSuffix(trace[..|trace| - 1], k);
      var a, b := Pool(trace[..|trace| - 1], k), Recent(trace[..|trace| - 1]);
      SuffixStep(a, b, trace[|trace| - 1], k, k + |b| + 1);
    }
  }

  // ----- reuse distance

  ghost predicate AllShowOthers(mid: seq<Request>, id: Id) {
    forall i :: 0 <= i < |mid| ==> mid[i].Show? && mid[i].id != id
  }

  ghost function Shown(mid: seq<Request>): set<Id>
  {
    set i | 0 <= i < |mid| && mid[i].Show? :: mid[i].id
  }

  /** `id` is resident with exactly the ids of `newer` used after it. */
  ghost predicate Resident(order: seq<Id>, id: Id, newer: set<Id>) {
    exists i :: 0 <= i < |order| && order[i] == id && Elems(order[i + 1..]) == newer
  }

  lemma {:induction false} DistinctSize(s: seq<Id>)
    requires Distinct(s)
    ensures |Elems(s)| == |s|
  {
    if s != [] {
      var n := |s| - 1;
      DistinctSize(s[..n]);
      assert s == s[..n] + [s[n]];
      assert Elems(s) == Elems(s[..n]) + {s[n]};
      assert s[n] !in s[..n];
    }
  }

  lemma {:induction false} ResidentSplit(order: seq<Id>, id: Id, newer: set<Id>) returns (a: seq<Id>, b: seq<Id>)
    requires Distinct(order) && Resident(order, id, newer)
    ensures order == a + [id] + b && Elems(b) == newer
    ensures id !in a && id !in b && Distinct(b)
  {
    var i :| 0 <= i < |order| && order[i] == id && Elems(order[i + 1..]) == newer;
    a, b := order[..i], order[i + 1..];
  }

  lemma ResidentJoin(a: seq<Id>, id: Id, b: seq<Id>)
    ensures Resident(a + [id] + b, id, Elems(b))
  {
    var order := a + [id] + b;
    assert order[|a|] == id && order[|a| + 1..] == b;
  }

  lemma LastOf(a: seq<Id>, id: Id, b: seq<Id>, k: nat)
    requires id !in b
    ensures |b| < k ==> Resident(Last(a + [id] + b, k), id, Elems(b))
    ensures |b| >= k ==> id !in Last(a + [id] + b, k)
  {
    var full := a + [id] + b;
    if |b| < k {
      var cut := if |full| <= k then 0 else |full| - k;
      assert Last(full, k) == a[cut..] + [id] + b;
      ResidentJoin(a[cut..], id, b);
    } else {
      assert Last(full, k) == Last(b, k);
    }
  }

  /** Showing another id keeps what is older than `id` older, and adds one newer. */
  lemma KeepBoth(a: seq<Id>, id: Id, b: seq<Id>, y: Id)
    requires y != id && Distinct(b)
    ensures var b' := Keep(b, Except(y)) + [y];
            && Keep(a + [id] + b, Except(y)) + [y] == Keep(a, Except(y)) + [id] + b'
            && Elems(b') == Elems(b) + {y} && Distinct(b')
  {
    hide Keep, Distinct;
    KeepConcat(a + [id], b, Except(y));
    KeepConcat(a, [id], Except(y));
    KeepAll([id], Except(y));
    KeepDistinct(b, Except(y));
    assert !Except(y).Admits(y);
    DistinctSnoc(Keep(b, Except(y)), y);
  }

  /** One showing of another id: it joins the newer ones, and pushes `id` out exactly when
      there are then as many newer ids as the pool has room for. */
  lemma ResidentStep(order: seq<Id>, id: Id, newer: set<Id>, y: Id, k: nat)
    requires Distinct(order) && y != id
    requires Resident(order, id, newer)
    ensures var next := Serve(order, Show(y), k);
            if |newer + {y}| < k then Resident(next, id, newer + {y}) else id !in next
  {
    var a, b := ResidentSplit(order, id, newer);
    KeepBoth(a, id, b, y);
    var b' := Keep(b, Except(y)) + [y];
    DistinctSize(b');
    LastOf(Keep(a, Except(y)), id, b', k);
  }

  /** LRU by its reuse distance: after any history, an id shown and then followed by
      showings of others is still live exactly when fewer than `k` different ids came
      since. */
  lemma {:induction false} ReuseDistance(pre: seq<Request>, id: Id, mid: seq<Request>, k: nat)
    requires k >= 1 && AllShowOthers(mid, id)
    ensures var order := Pool(pre + [Show(id)] + mid, k);
            if |Shown(mid)| < k then Resident(order, id, Shown(mid)) else id !in order
  {
    var start := pre + [Show(id)];
    if mid == [] {
      assert start + mid == start && Shown(mid) == {};
      PoolShape(start, k);
      var order := Pool(start, k);
      assert order == order[..|order| - 1] + [id] + [];
      ResidentJoin(order[..|order| - 1], id, []);
    } else {
      var n := |mid| - 1;
      ReuseDistance(pre, id, mid[..n], k);
      ReuseStep(start, id, mid[..n], mid[n].id, k);
      assert start + mid == start + mid[..n] + [mid[n]];
      assert mid == mid[..n] + [mid[n]];
    }
  }

  lemma ReuseStep(start: seq<Request>, id: Id, mid: seq<Request>, y: Id, k: nat)
    requires k >= 1 && y != id
    requires var order := Pool(start + mid, k);
             if |Shown(mid)| < k then Resident(order, id, Shown(mid)) else id !in order
    ensures var order := Pool(start + mid + [Show(y)], k);
            var shown := Shown(mid + [Show(y)]);
            if |shown| < k then Resident(order, id, shown) else id !in order
  {
    Snoc(start + mid, Show(y), k);
    PoolShape(start + mid, k);
    ShownSnoc(mid, y);
    if |Shown(mid)| < k {
      ResidentStep(Pool(start + mid, k), id, Shown(mid), y, k);
    } else {
      SubsetSize(Shown(mid), Shown(mid) + {y});
    }
  }

  lemma ShownSnoc(mid: seq<Request>, y: Id)
    ensures Shown(mid + [Show(y)]) == Shown(mid) + {y}
  {
    var next := mid + [Show(y)];
    assert next[|mid|] == Show(y);
    forall x | x in Shown(mid)
      ensures x in Shown(next)
    {
      var i :| 0 <= i < |mid| && mid[i].Show? && mid[i].id == x;
      assert next[i] == mid[i];
    }
  }

  lemma SubsetSize(a: set<Id>, b: set<Id>)
    requires a <= b
    ensures |a| <= |b|
  {
    assert b == a + (b - a);
  }
}
