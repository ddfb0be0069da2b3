/** How far the LRU pool can be from the best possible policy.

  A rival is any sequence of pools, chosen with the whole trace in view, that never holds
  more than `k` pages or a page that left the list, and always has the shown page live. */
module Competitive {
  import opened Models
  import opened Lru

  ghost predicate Rival(trace: seq<Request>, pools: seq<set<Id>>, k: nat) {
    && |pools| == |trace| + 1
    && pools[0] == {}
    && forall i :: 0 <= i < |trace| ==> Allowed(trace[i], pools[1..][i], k)
  }

  ghost predicate Allowed(r: Request, pool: set<Id>, k: nat) {
    |pool| <= k && Serves(r, pool)
  }

  ghost predicate Serves(r: Request, pool: set<Id>) {
    match r
    case Show(id) => id in pool
    case Retain(ids) => pool <= ids
  }

  /** The pages a rival loads: every id that enters its pool, each time it enters. */
  ghost function Cost(pools: seq<set<Id>>): nat {
    if |pools| <= 1 then 0
    else Cost(pools[..|pools| - 1]) + |pools[|pools| - 1] - pools[|pools| - 2]|
  }

  /** The potential of our pool against the rival's: an id only we hold counts its rank,
      `top` for the most recent and one less for each older one; a shared id counts -1. */
  ghost function Debt(order: seq<Id>, theirs: set<Id>, top: int): int {
    if order == [] then 0
    else
      (if order[|order| - 1] in theirs then -1 else top) + Debt(order[..|order| - 1], theirs, top - 1)
  }

  ghost function Count(order: seq<Id>, ids: set<Id>): nat {
    if order == [] then 0
    else (if order[|order| - 1] in ids then 1 else 0) + Count(order[..|order| - 1], ids)
  }

  lemma {:induction false} CountBound(order: seq<Id>, ids: set<Id>)
    requires Distinct(order)
    ensures Count(order, ids) <= |ids|
    ensures Count(order, ids) <= |order|
  {
    if order != [] {
      var n := |order| - 1;
      if order[n] in ids {
        CountBound(order[..n], ids - {order[n]});
        CountSame(order[..n], ids, ids - {order[n]});
      } else {
        CountBound(order[..n], ids);
      }
    }
  }

  lemma {:induction false} CountSame(order: seq<Id>, a: set<Id>, b: set<Id>)
    requires forall x :: x in order ==> (x in a <==> x in b)
    ensures Count(order, a) == Count(order, b)
  {
    if order != [] {
      CountSame(order[..|order| - 1], a, b);
    }
  }

  /** Everyone one rank older: each id only we hold gives back one. */
  lemma {:induction false} Age(order: seq<Id>, theirs: set<Id>, top: int)
    ensures Debt(order, theirs, top - 1) == Debt(order, theirs, top) - (|order| - Count(order, theirs))
  {
    if order != [] {
      Age(order[..|order| - 1], theirs, top - 1);
    }
  }

  lemma {:induction false} DebtConcat(a: seq<Id>, b: seq<Id>, theirs: set<Id>, top: int)
    ensures Debt(a + b, theirs, top) == Debt(a, theirs, top - |b|) + Debt(b, theirs, top)
    ensures Count(a + b, theirs) == Count(a, theirs) + Count(b, theirs)
  {
    if b == [] {
      assert a + b == a;
    } else {
      var n := |b| - 1;
      assert (a + b)[..|a + b| - 1] == a + b[..n];
      DebtConcat(a, b[..n], theirs, top - 1);
    }
  }

  lemma {:induction false} DebtFloor(order: seq<Id>, theirs: set<Id>, top: int)
    requires |order| <= top + 1
    ensures Debt(order, theirs, top) + Count(order, theirs) >= 0
  {
    if order != [] {
      DebtFloor(order[..|order| - 1], theirs, top - 1);
    }
  }

  /** The rival replaces its pool: each id it gives up costs us at most `k`. */
  lemma {:induction false} RivalMoves(order: seq<Id>, was: set<Id>, now: set<Id>, top: int, k: nat)
    requires |order| <= top + 1 <= k
    ensures Debt(order, now, top) <= Debt(order, was, top) + k * Count(order, was - now)
  {
    if order != [] {
      var l := order[|order| - 1];
      RivalMoves(order[..|order| - 1], was, now, top - 1, k);
      var rest := Count(order[..|order| - 1], was - now);
      if l in was && l !in now {
        assert k * (1 + rest) == k + k * rest;
      }
    }
  }

  lemma SetMove(was: set<Id>, now: set<Id>)
    ensures |now| - |was| == |now - was| - |was - now|
  {
    assert now == (now - was) + (now * was);
    assert was == (was - now) + (now * was);
  }

  lemma RivalPays(order: seq<Id>, was: set<Id>, now: set<Id>, k: nat)
    requires Distinct(order) && |order| <= k
    ensures k * |now| + Debt(order, now, k - 1)
         <= k * |was| + Debt(order, was, k - 1) + k * |now - was|
  {
    RivalMoves(order, was, now, k - 1, k);
    CountBound(order, was - now);
    SetMove(was, now);
    var gone, count := |was - now|, Count(order, was - now);
    assert k * count <= k * gone by { MulMono(k, count, gone); }
    assert k * |now| == k * |was| + k * |now - was| - k * gone by {
      assert |now| == |was| + |now - was| - gone;
      Distribute(k, |was|, |now - was|, gone);
    }
  }

  lemma MulMono(k: nat, a: nat, b: nat)
    requires a <= b
    ensures k * a <= k * b
  {
  }

  lemma Distribute(k: nat, a: nat, b: nat, c: nat)
    ensures k * (a + b - c) == k * a + k * b - k * c
  {
  }

  /** We serve a hit. */
  lemma Hit(order: seq<Id>, id: Id, theirs: set<Id>, k: nat)
    requires Distinct(order) && |order| <= k && id in order && id in theirs
    ensures Debt(Serve(order, Show(id), k), theirs, k - 1) <= Debt(order, theirs, k - 1)
  {
    var a, b := SplitAt(order, id);
    KeepAround(a, id, b);
    Reorder(a, id, b, theirs, k - 1);
    assert a + b + [id] == a + (b + [id]);
    assert |a + b + [id]| <= k;
  }

  lemma SplitAt(order: seq<Id>, id: Id) returns (a: seq<Id>, b: seq<Id>)
    requires Distinct(order) && id in order
    ensures order == a + [id] + b && id !in a && id !in b
  {
    var i :| 0 <= i < |order| && order[i] == id;
    a, b := order[..i], order[i + 1..];
  }

  lemma Reorder(a: seq<Id>, id: Id, b: seq<Id>, theirs: set<Id>, top: int)
    requires id in theirs
    ensures Debt(a + (b + [id]), theirs, top) <= Debt(a + [id] + b, theirs, top)
  {
    assert a + [id] + b == a + ([id] + b);
    DebtConcat(a, [id] + b, theirs, top);
    DebtConcat([id], b, theirs, top);
    DebtConcat(a, b + [id], theirs, top);
    DebtConcat(b, [id], theirs, top);
    Age(b, theirs, top);
    CountLength(b, theirs);
    assert Debt([id], theirs, top) == -1 && Debt([id], theirs, top - |b|) == -1;
  }

  lemma {:induction false} CountLength(order: seq<Id>, ids: set<Id>)
    ensures Count(order, ids) <= |order|
  {
    if order != [] {
      CountLength(order[..|order| - 1], ids);
    }
  }

  /** Appending a shared id that we lacked: every id only we hold grows older. */
  lemma Append(order: seq<Id>, id: Id, theirs: set<Id>, top: int)
    requires id in theirs
    ensures Debt(order + [id], theirs, top) == Debt(order, theirs, top) - (|order| - Count(order, theirs)) - 1
  {
    DebtConcat(order, [id], theirs, top);
    Age(order, theirs, top);
    assert Debt([id], theirs, top) == -1;
  }

  /** An id that has sunk to rank -1 may leave for nothing. */
  lemma DropOldest(full: seq<Id>, theirs: set<Id>, top: int)
    requires full != [] && |full| == top + 2
    ensures Debt(full[1..], theirs, top) == Debt(full, theirs, top) + 1
  {
    assert full == [full[0]] + full[1..];
    DebtConcat([full[0]], full[1..], theirs, top);
    assert Debt([full[0]], theirs, -1) == -1;
  }

  /** The rival holds an id we lack, so some of ours are only ours once we are full. */
  lemma SharedFewer(order: seq<Id>, id: Id, theirs: set<Id>)
    requires Distinct(order) && id !in order && id in theirs
    ensures Count(order, theirs) <= |theirs| - 1
  {
    CountBound(order, theirs - {id});
    CountSame(order, theirs, theirs - {id});
  }

  /** We serve a miss: the load is paid for by the ids that only we hold growing older. */
  lemma Fault(order: seq<Id>, id: Id, theirs: set<Id>, k: nat)
    requires k >= 1 && Distinct(order) && |order| <= k
    requires id !in order && id in theirs && |theirs| <= k
    ensures Debt(Serve(order, Show(id), k), theirs, k - 1) + 1 <= Debt(order, theirs, k - 1)
  {
    KeepAll(order, Except(id));
    Append(order, id, theirs, k - 1);
    SharedFewer(order, id, theirs);
    CountLength(order, theirs);
    if |order| == k {
      DropOldest(order + [id], theirs, k - 1);
    }
  }

  /** A refresh drops ids from both sides: what an id gives up covers what the older ones
      gain by moving up a rank. */
  lemma {:induction false} DropBoth(order: seq<Id>, ids: set<Id>, theirs: set<Id>, top: int)
    requires Distinct(order) && |order| <= top + 1 && theirs <= ids
    ensures Debt(Keep(order, Among(ids)), theirs, top) <= Debt(order, theirs, top)
  {
    if order != [] {
      var n := |order| - 1;
      var front := order[..n];
      DropBoth(front, ids, theirs, top - 1);
      var kept := Keep(front, Among(ids));
      if order[n] in ids {
        assert (kept + [order[n]])[..|kept|] == kept;
      } else {
        Age(kept, theirs, top);
      }
    }
  }

  lemma ServeDebt(order: seq<Id>, r: Request, theirs: set<Id>, k: nat)
    requires k >= 1 && Distinct(order) && |order| <= k
    requires Serves(r, theirs) && |theirs| <= k
    ensures Debt(Serve(order, r, k), theirs, k - 1) + Miss(order, r) <= Debt(order, theirs, k - 1)
  {
    match r
    case Show(id) =>
      if id in order {
        Hit(order, id, theirs, k);
      } else {
        Fault(order, id, theirs, k);
      }
    case Retain(ids) =>
      DropBoth(order, ids, theirs, k - 1);
  }

  /** The whole potential: `k` for each id the rival holds, plus our debt. */
  ghost function Potential(order: seq<Id>, theirs: set<Id>, k: nat): int {
    k * |theirs| + Debt(order, theirs, k - 1)
  }

  /** One request, the rival moving first: our load is covered by the rival's loads. */
  lemma Step(order: seq<Id>, r: Request, was: set<Id>, now: set<Id>, k: nat)
    requires k >= 1 && Distinct(order) && |order| <= k && Allowed(r, now, k)
    ensures Miss(order, r) + Potential(Serve(order, r, k), now, k)
         <= Potential(order, was, k) + k * |now - was|
  {
    RivalPays(order, was, now, k);
    ServeDebt(order, r, now, k);
  }

  lemma AmortisedStep(trace: seq<Request>, r: Request, pools: seq<set<Id>>, next: set<Id>, k: nat)
    requires k >= 1 && pools != [] && Allowed(r, next, k)
    requires Loads(trace, k) + Potential(Pool(trace, k), pools[|pools| - 1], k) <= k * Cost(pools)
    ensures Loads(trace + [r], k) + Potential(Pool(trace + [r], k), next, k) <= k * Cost(pools + [next])
  {
    var last := pools[|pools| - 1];
    PoolShape(trace, k);
    Step(Pool(trace, k), r, last, next, k);
    Snoc(trace, r, k);
    CostSnoc(pools, next);
    PayOff(k, Cost(pools), |next - last|, Cost(pools + [next]),
           Loads(trace, k) + Potential(Pool(trace, k), last, k),
           Loads(trace + [r], k) + Potential(Pool(trace + [r], k), next, k));
  }

  lemma PayOff(k: nat, cost: nat, paid: nat, total: nat, before: int, after: int)
    requires before <= k * cost && after <= before + k * paid && total == cost + paid
    ensures after <= k * total
  {
    Distribute(k, cost, paid, 0);
  }

  lemma {:induction false} Amortised(trace: seq<Request>, pools: seq<set<Id>>, k: nat)
    requires k >= 1 && Rival(trace, pools, k)
    ensures pools != [] && Loads(trace, k) + Potential(Pool(trace, k), pools[|pools| - 1], k) <= k * Cost(pools)
  {
    hide Potential, Loads, Pool, Cost, Rival, Allowed;
    if trace == [] {
      AmortisedStart(pools, k);
    } else {
      var n := |trace| - 1;
      RivalFront(trace, pools, k);
      Amortised(trace[..n], pools[..n + 1], k);
      assert pools == pools[..n + 1] + [pools[n + 1]] && trace == trace[..n] + [trace[n]];
      AmortisedStep(trace[..n], trace[n], pools[..n + 1], pools[n + 1], k);
    }
  }

  lemma AmortisedStart(pools: seq<set<Id>>, k: nat)
    requires Rival([], pools, k)
    ensures pools != []
    ensures Loads([], k) + Potential(Pool([], k), pools[|pools| - 1], k) <= k * Cost(pools)
  {
    assert pools == [{}];
    assert Potential([], {}, k) == 0;
  }

  lemma RivalFront(trace: seq<Request>, pools: seq<set<Id>>, k: nat)
    requires trace != [] && Rival(trace, pools, k)
    ensures |pools| == |trace| + 1 && Allowed(trace[|trace| - 1], pools[|trace|], k)
    ensures Rival(trace[..|trace| - 1], pools[..|trace|], k)
  {
    assert pools[1..][|trace| - 1] == pools[|trace|];
    var front, held := trace[..|trace| - 1], pools[..|trace|];
    forall i | 0 <= i < |front|
      ensures Allowed(front[i], held[1..][i], k)
    {
      assert held[1..][i] == pools[1..][i] && front[i] == trace[i];
    }
  }

  lemma CostSnoc(front: seq<set<Id>>, pool: set<Id>)
    requires front != []
    ensures Cost(front + [pool]) == Cost(front) + |pool - front[|front| - 1]|
  {
    var all := front + [pool];
    assert all[..|all| - 1] == front;
  }

  lemma PotentialFloor(order: seq<Id>, theirs: set<Id>, k: nat)
    requires k >= 1 && Distinct(order) && |order| <= k
    ensures Potential(order, theirs, k) >= 0
  {
    DebtFloor(order, theirs, k - 1);
    CountBound(order, theirs);
    MulMono(|theirs|, 1, k);
  }

  /** Over any trace, refreshes that drop dashboards included, the LRU pool loads at most
      `k` times the pages of any rival with the same limit. */
  lemma LruCompetitive(trace: seq<Request>, pools: seq<set<Id>>, k: nat)
    requires k >= 1 && Rival(trace, pools, k)
    ensures Loads(trace, k) <= k * Cost(pools)
  {
    Amortised(trace, pools, k);
    PoolShape(trace, k);
    PotentialFloor(Pool(trace, k), pools[|pools| - 1], k);
  }

  // ----- the bound is about something: our own history is a rival

  ghost function History(trace: seq<Request>, k: nat): (pools: seq<set<Id>>)
    ensures |pools| == |trace| + 1
  {
    if trace == [] then [{}] else History(trace[..|trace| - 1], k) + [Elems(Pool(trace, k))]
  }

  lemma ServeElems(order: seq<Id>, r: Request, k: nat)
    requires k >= 1 && Distinct(order) && |order| <= k
    ensures var next := Elems(Serve(order, r, k));
            && next - Elems(order) == (if r.Show? && r.id !in order then {r.id} else {})
            && Serves(r, next)
  {
    match r
    case Show(id) =>
      var full := Keep(order, Except(id)) + [id];
      var kept := Last(full, k);
      assert kept[|kept| - 1] == id;
      assert forall x :: x in kept ==> x in full;
      assert forall x :: x in full ==> x == id || x in order;
    case Retain(ids) =>
  }

  /** The LRU pool's own history is a rival, and costs exactly its loads. */
  lemma {:induction false} HistoryIsRival(trace: seq<Request>, k: nat)
    requires k >= 1
    ensures Rival(trace, History(trace, k), k)
    ensures Cost(History(trace, k)) == Loads(trace, k)
    ensures History(trace, k)[|trace|] == Elems(Pool(trace, k))
  {
    if trace != [] {
      HistoryIsRival(trace[..|trace| - 1], k);
      HistoryNext(trace, k);
    }
  }

  lemma HistoryNext(trace: seq<Request>, k: nat)
    requires k >= 1 && trace != []
    requires var front := trace[..|trace| - 1];
             && Rival(front, History(front, k), k) && Cost(History(front, k)) == Loads(front, k)
             && History(front, k)[|front|] == Elems(Pool(front, k))
    ensures Rival(trace, History(trace, k), k)
    ensures Cost(History(trace, k)) == Loads(trace, k)
    ensures History(trace, k)[|trace|] == Elems(Pool(trace, k))
  {
    hide Pool, Distinct, Elems, Rival, Serves, Cost;
    var n := |trace| - 1;
    var front, next := History(trace[..n], k), Elems(Pool(trace, k));
    assert trace == trace[..n] + [trace[n]];
    PoolSize(trace, k);
    HistoryStep(trace, k);
    RivalSnoc(trace[..n], trace[n], front, next, k);
    CostSnoc(front, next);
  }

  lemma PoolSize(trace: seq<Request>, k: nat)
    requires k >= 1
    ensures |Elems(Pool(trace, k))| <= k
  {
    PoolShape(trace, k);
    DistinctSize(Pool(trace, k));
  }

  lemma HistoryStep(trace: seq<Request>, k: nat)
    requires k >= 1 && trace != []
    ensures var order := Pool(trace[..|trace| - 1], k);
            && Serves(trace[|trace| - 1], Elems(Pool(trace, k)))
            && |Elems(Pool(trace, k)) - Elems(order)| == Miss(order, trace[|trace| - 1])
  {
    PoolShape(trace[..|trace| - 1], k);
    ServeElems(Pool(trace[..|trace| - 1], k), trace[|trace| - 1], k);
  }

  lemma RivalSnoc(trace: seq<Request>, r: Request, pools: seq<set<Id>>, next: set<Id>, k: nat)
    requires Rival(trace, pools, k) && Allowed(r, next, k)
    ensures Rival(trace + [r], pools + [next], k)
  {
    var requests, held := trace + [r], pools + [next];
    forall i | 0 <= i < |requests|
      ensures Allowed(requests[i], held[1..][i], k)
    {
      if i < |trace| {
        assert held[1..][i] == pools[1..][i] && requests[i] == trace[i];
      }
    }
  }
}
