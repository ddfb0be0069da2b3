/** The pool against a rival with a smaller limit, refreshes included.

  A trace is cut into phases: a phase ends with the k-th showing of an id not yet marked in
  it. A refresh takes the mark off the ids it drops. Our pool loads at most once for each id
  that is marked; the rival, who has at most `h - 1` ids in hand beside the one showing, has
  to load all the others. */
module Phases {
  import opened Models
  import opened Lru
  import opened Competitive

  datatype Marks = Marks(marked: set<Id>, joined: nat, phases: nat)

  ghost function Mark(m: Marks, r: Request, k: nat): Marks {
    match r
    case Show(id) =>
      if id in m.marked then m
      else if m.joined + 1 >= k then Marks({id}, 0, m.phases + 1)
      else Marks(m.marked + {id}, m.joined + 1, m.phases)
    case Retain(ids) => m.(marked := m.marked * ids)
  }

  ghost function MarksOf(trace: seq<Request>, k: nat): Marks {
    if trace == [] then Marks({}, 0, 0) else Mark(MarksOf(trace[..|trace| - 1], k), trace[|trace| - 1], k)
  }

  // ----- our pool

  /** The most recent end of the order lists exactly these ids. */
  ghost predicate Newest(order: seq<Id>, ids: set<Id>) {
    exists i :: 0 <= i <= |order| && Elems(order[i..]) == ids
  }

  lemma NewestSplit(order: seq<Id>, ids: set<Id>) returns (a: seq<Id>, b: seq<Id>)
    requires Newest(order, ids)
    ensures order == a + b && Elems(b) == ids
  {
    var i :| 0 <= i <= |order| && Elems(order[i..]) == ids;
    a, b := order[..i], order[i..];
  }

  lemma NewestJoin(a: seq<Id>, b: seq<Id>)
    ensures Newest(a + b, Elems(b))
  {
    assert (a + b)[|a|..] == b;
  }

  lemma NewestLast(a: seq<Id>, b: seq<Id>, k: nat)
    requires |b| <= k
    ensures Newest(Last(a + b, k), Elems(b))
  {
    var cut := if |a + b| <= k then 0 else |a + b| - k;
    assert Last(a + b, k) == a[cut..] + b;
    NewestJoin(a[cut..], b);
  }

  /** Showing an id puts it among the newest, if the pool has room for them all. */
  lemma NewestShow(order: seq<Id>, ids: set<Id>, id: Id, k: nat)
    requires Distinct(order) && Newest(order, ids) && |ids + {id}| <= k
    ensures Newest(Serve(order, Show(id), k), ids + {id})
  {
    var a, b := NewestSplit(order, ids);
    hide Keep, Distinct, Newest, Elems, Last, Serve;
    DistinctTail(a, b);
    var ending := ShownEnding(b, id);
    ServeSplit(a, b, id, k);
    NewestLast(Keep(a, Except(id)), ending, k);
  }

  lemma ServeSplit(a: seq<Id>, b: seq<Id>, id: Id, k: nat)
    ensures Serve(a + b, Show(id), k) == Last(Keep(a, Except(id)) + (Keep(b, Except(id)) + [id]), k)
  {
    hide Keep, Last;
    KeepConcat(a, b, Except(id));
    var x, y := Keep(a, Except(id)), Keep(b, Except(id));
    assert x + y + [id] == x + (y + [id]);
  }

  lemma ShownEnding(b: seq<Id>, id: Id) returns (ending: seq<Id>)
    requires Distinct(b)
    ensures ending == Keep(b, Except(id)) + [id] && Elems(ending) == Elems(b) + {id}
    ensures |ending| == |Elems(b) + {id}|
  {
    ending := Keep(b, Except(id)) + [id];
    KeepDistinct(b, Except(id));
    assert !Except(id).Admits(id);
    hide Keep;
    DistinctSnoc(Keep(b, Except(id)), id);
    DistinctSize(ending);
    assert Elems(ending) == Elems(b) + {id};
  }

  lemma DistinctTail(a: seq<Id>, b: seq<Id>)
    requires Distinct(a + b)
    ensures Distinct(b)
  {
    assert forall i :: 0 <= i < |b| ==> b[i] == (a + b)[|a| + i];
  }

  lemma NewestRetain(order: seq<Id>, ids: set<Id>, kept: set<Id>, k: nat)
    requires Newest(order, ids)
    ensures Newest(Serve(order, Retain(kept), k), ids * kept)
  {
    var a, b := NewestSplit(order, ids);
    KeepConcat(a, b, Among(kept));
    assert Elems(Keep(b, Among(kept))) == ids * kept;
    NewestJoin(Keep(a, Among(kept)), Keep(b, Among(kept)));
  }

  /** What the marks say about our pool. */
  ghost predicate Ours(order: seq<Id>, m: Marks, k: nat) {
    && Distinct(order) && Newest(order, m.marked)
    && m.joined < k && |m.marked| <= m.joined + 1
  }

  lemma OursStep(order: seq<Id>, m: Marks, r: Request, k: nat)
    requires k >= 1 && Ours(order, m, k) && Distinct(Serve(order, r, k))
    ensures Ours(Serve(order, r, k), Mark(m, r, k), k)
    ensures k * m.phases + m.joined + Miss(order, r) <= k * Mark(m, r, k).phases + Mark(m, r, k).joined
  {
    hide Distinct, Newest, Serve, Elems;
    match r
    case Show(id) =>
      if id in m.marked {
        MarkedHeld(order, m.marked, id);
        assert m.marked + {id} == m.marked;
        NewestShow(order, m.marked, id, k);
      } else if m.joined + 1 >= k {
        NewestAlone(order, id, k);
        NextPhase(k, m.phases);
      } else {
        NewestShow(order, m.marked, id, k);
      }
    case Retain(ids) =>
      NewestRetain(order, m.marked, ids, k);
      SubsetSize(m.marked * ids, m.marked);
  }

  lemma MarkedHeld(order: seq<Id>, marked: set<Id>, id: Id)
    requires Newest(order, marked) && id in marked
    ensures id in order
  {
    var a, b := NewestSplit(order, marked);
    assert id in b;
  }

  lemma NewestAlone(order: seq<Id>, id: Id, k: nat)
    requires k >= 1
    ensures Newest(Serve(order, Show(id), k), {id})
  {
    NewestLast(Keep(order, Except(id)), [id], k);
    assert Elems([id]) == {id};
  }

  lemma NextPhase(k: nat, phases: nat)
    ensures k * (phases + 1) == k * phases + k
  {
  }

  /** Our loads, phase by phase. */
  lemma {:induction false} OurLoads(trace: seq<Request>, k: nat)
    requires k >= 1
    ensures var m := MarksOf(trace, k);
            Ours(Pool(trace, k), m, k) && Loads(trace, k) <= k * m.phases + m.joined
  {
    if trace == [] {
      assert Elems([]) == {};
      NewestJoin([], []);
    } else {
      var n := |trace| - 1;
      OurLoads(trace[..n], k);
      PoolShape(trace[..n], k);
      PoolShape(trace, k);
      hide Distinct, Newest, Mark;
      OursStep(Pool(trace[..n], k), MarksOf(trace[..n], k), trace[n], k);
    }
  }

  // ----- the rival

  /** What the marks say about the rival's cost. */
  ghost predicate Theirs(cost: nat, theirs: set<Id>, m: Marks, h: nat, k: nat)
    requires h <= k
  {
    && (k - h + 1) * m.phases <= cost
    && (k - h + 1) * m.phases + m.joined + |theirs - m.marked| <= cost + h - 1
  }

  lemma MovedOut(was: set<Id>, now: set<Id>, marked: set<Id>)
    ensures |now - marked| <= |was - marked| + |now - was|
  {
    SubsetSize(now - marked, (was - marked) + (now - was));
    UnionSize(was - marked, now - was);
  }

  lemma UnionSize(a: set<Id>, b: set<Id>)
    ensures |a + b| <= |a| + |b|
  {
    assert a + b == a + (b - a);
    SubsetSize(b - a, b);
  }

  lemma WithoutOne(s: set<Id>, id: Id)
    requires id in s
    ensures |s - {id}| == |s| - 1
  {
  }

  lemma TheirsStep(cost: nat, was: set<Id>, now: set<Id>, m: Marks, r: Request, h: nat, k: nat)
    requires 1 <= h <= k && Theirs(cost, was, m, h, k) && Allowed(r, now, h) && m.joined < k
    ensures Theirs(cost + |now - was|, now, Mark(m, r, k), h, k)
  {
    MovedOut(was, now, m.marked);
    match r
    case Show(id) =>
      if id !in m.marked {
        WithoutOne(now - m.marked, id);
        WithoutOne(now, id);
        assert now - (m.marked + {id}) == (now - m.marked) - {id};
        NextPhase(k - h + 1, m.phases);
      }
    case Retain(ids) =>
      assert now - m.marked * ids == now - m.marked;
  }

  lemma TheirStart(pools: seq<set<Id>>, h: nat, k: nat)
    requires 1 <= h <= k && Rival([], pools, h)
    ensures pools != [] && Theirs(Cost(pools), pools[|pools| - 1], Marks({}, 0, 0), h, k)
  {
    assert pools == [{}];
    assert pools[0] - {} == {};
  }

  lemma TheirNext(trace: seq<Request>, r: Request, pools: seq<set<Id>>, next: set<Id>, h: nat, k: nat)
    requires 1 <= h <= k && pools != [] && Allowed(r, next, h)
    requires Theirs(Cost(pools), pools[|pools| - 1], MarksOf(trace, k), h, k)
    ensures Theirs(Cost(pools + [next]), next, MarksOf(trace + [r], k), h, k)
  {
    hide Theirs, Allowed, Mark, Ours, Pool, Loads;
    OurLoads(trace, k);
    OursBound(Pool(trace, k), MarksOf(trace, k), k);
    CostSnoc(pools, next);
    TheirsStep(Cost(pools), pools[|pools| - 1], next, MarksOf(trace, k), r, h, k);
    assert (trace + [r])[..|trace|] == trace;
  }

  lemma OursBound(order: seq<Id>, m: Marks, k: nat)
    requires Ours(order, m, k)
    ensures m.joined < k
  {
  }

  lemma {:induction false} TheirLoads(trace: seq<Request>, pools: seq<set<Id>>, h: nat, k: nat)
    requires 1 <= h <= k && Rival(trace, pools, h)
    ensures pools != [] && Theirs(Cost(pools), pools[|pools| - 1], MarksOf(trace, k), h, k)
  {
    hide Theirs, Rival, Allowed, Cost;
    if trace == [] {
      TheirStart(pools, h, k);
    } else {
      hide MarksOf;
      var n := |trace| - 1;
      RivalFront(trace, pools, h);
      TheirLoads(trace[..n], pools[..n + 1], h, k);
      assert pools == pools[..n + 1] + [pools[n + 1]] && trace == trace[..n] + [trace[n]];
      TheirNext(trace[..n], trace[n], pools[..n + 1], pools[n + 1], h, k);
    }
  }

  /** Over any trace, refreshes that drop dashboards included, against any rival that keeps
      at most `h` views where we keep `k`: our loads are at most `k / (k - h + 1)` times
      theirs, and less than `k` more. */
  lemma LruAgainstSmaller(trace: seq<Request>, pools: seq<set<Id>>, h: nat, k: nat)
    requires 1 <= h <= k && Rival(trace, pools, h)
    ensures (k - h + 1) * Loads(trace, k) <= k * Cost(pools) + (k - h + 1) * (k - 1)
  {
    var m, c := MarksOf(trace, k), k - h + 1;
    hide Loads, Cost, Rival, MarksOf, Ours, Theirs;
    OurLoads(trace, k);
    OursBound(Pool(trace, k), m, k);
    TheirLoads(trace, pools, h, k);
    TheirsPhases(Cost(pools), pools[|pools| - 1], m, h, k, c);
    Combine(c, k, Loads(trace, k), Cost(pools), m.phases, m.joined);
  }

  lemma TheirsPhases(cost: nat, theirs: set<Id>, m: Marks, h: nat, k: nat, c: nat)
    requires h <= k && c == k - h + 1 && Theirs(cost, theirs, m, h, k)
    ensures c * m.phases <= cost
  {
  }

  lemma Combine(c: nat, k: nat, loads: nat, cost: nat, phases: nat, joined: nat)
    requires loads <= k * phases + joined && c * phases <= cost && joined + 1 <= k
    ensures c * loads <= k * cost + c * (k - 1)
  {
    MulMono(c, loads, k * phases + joined);
    MulMono(c, joined, k - 1);
    MulMono(k, c * phases, cost);
    assert c * (k * phases + joined) == k * (c * phases) + c * joined;
  }
}
