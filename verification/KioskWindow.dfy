/** The full-screen window: a stack of lazily created WebViews, one per dashboard, of
  which only the most recently used few stay alive, under a chooser overlay.

  A view is known by its serial, the number of pages loaded before it, so that a view
  released and loaded again is a different child of the stack. Every method is proved
  against `Navigation`, and the pool it keeps is proved to be the one `Lru` describes. */
module KioskWindow {
  import opened Text
  import opened Models
  import opened Lru
  import opened Menu
  import opened Navigation

  /** What the stack shows. Removing the visible child leaves the choice to the toolkit. */
  datatype Child = SetupScreen | Placeholder | View(serial: nat) | Unspecified

  datatype LoadEvent = Started | Finished | OtherStage

  /** Each live view is the latest load of its id, so no two ids share a view. */
  ghost predicate SerialsOk(views: map<Id, nat>, loads: seq<Id>) {
    forall id :: id in views ==> views[id] < |loads| && loads[views[id]] == id
  }

  /** The order lists exactly the live views, once each. */
  ghost predicate Lists(order: seq<Id>, views: map<Id, nat>) {
    multiset(order) == multiset(views.Keys)
  }

  /** The pool is what its request history says it must be. */
  ghost predicate PoolOk(views: map<Id, nat>, order: seq<Id>, loads: seq<Id>, trace: seq<Request>, k: nat) {
    && SerialsOk(views, loads)
    && Lists(order, views)
    && order == Pool(trace, k)
    && |loads| == Loads(trace, k)
  }

  ghost predicate Submap(a: map<Id, nat>, b: map<Id, nat>) {
    a.Keys <= b.Keys && forall id :: id in a ==> a[id] == b[id]
  }

  ghost predicate EndsWith(order: seq<Id>, id: Id) {
    order != [] && order[|order| - 1] == id
  }

  class Window {
    const maxLiveViews: int
    const menu: DashboardMenu

    var dashboards: seq<Dashboard>
    var views: map<Id, nat>
    var viewOrder: seq<Id>
    var current: int
    var loadingIds: set<Id>
    var needsSetup: bool
    var visible: Child
    var splash: bool

    ghost var trace: seq<Request>
    // Every page load so far, in order.
    ghost var loads: seq<Id>
    // The number of views created so far, which is the next serial.
    var nextSerial: nat

    function Limit(): (n: nat) {
      Max(1, maxLiveViews)
    }

    ghost function State(): Nav
      reads this, menu
    {
      Nav(needsSetup, dashboards, current, menu.revealed, menu.selected, trace)
    }

    function CurrentId(): Option<Id>
      reads this
    {
      if 0 <= current < |dashboards| then Some(dashboards[current].id) else None
    }

    ghost predicate PoolValid()
      reads `views, `viewOrder, `loads, `trace, `nextSerial
    {
      PoolOk(views, viewOrder, loads, trace, Limit()) && nextSerial == |loads|
    }

    ghost predicate ScreenValid()
      reads this
    {
      && (needsSetup ==> dashboards == [] && trace == [] && visible == SetupScreen)
      && (dashboards == [] ==> current == -1 && viewOrder == [])
      && (dashboards == [] && !needsSetup ==> visible == Placeholder)
      && (dashboards != [] ==>
            && 0 <= current < |dashboards|
            && EndsWith(viewOrder, dashboards[current].id)
            && dashboards[current].id in views
            && visible == View(views[dashboards[current].id])
            && splash == (dashboards[current].id in loadingIds))
    }

    ghost predicate Valid()
      reads this, menu
    {
      && menu.Valid() && menu.dashboards == dashboards
      && PoolValid()
      && ScreenValid()
      && views.Keys <= Ids(dashboards)
      && (dashboards == [] ==> views == map[])
    }

    /** Only live views are marked as loading. Kept unless a view that is gone reports. */
    ghost predicate Tidy()
      reads this
    {
      loadingIds <= views.Keys
    }

    constructor (maxLiveViews: int, configured: bool)
      ensures Valid() && Tidy() && fresh(menu)
      ensures this.maxLiveViews == maxLiveViews
      ensures State() == Start(configured) && loads == []
    {
      this.maxLiveViews := maxLiveViews;
      menu := new DashboardMenu();
      dashboards, views, viewOrder, current := [], map[], [], -1;
      loadingIds, needsSetup, splash := {}, !configured, false;
      visible := if configured then Placeholder else SetupScreen;
      trace, loads, nextSerial := [], [], 0;
    }

    // ----- the pool

    /** `view_order.remove`: drops the first occurrence. */
    method RemoveFromOrder(id: Id)
      requires Distinct(viewOrder) && id in viewOrder
      modifies `viewOrder
      ensures viewOrder == Keep(old(viewOrder), Except(id)) && Distinct(viewOrder)
    {
      ghost var at :| 0 <= at < |viewOrder| && viewOrder[at] == id;
      var i := 0;
      while viewOrder[i] != id
        invariant 0 <= i <= at && viewOrder == old(viewOrder)
        decreases at - i
      {
        i := i + 1;
      }
      assert viewOrder == viewOrder[..i] + [id] + viewOrder[i + 1..];
      KeepAround(viewOrder[..i], id, viewOrder[i + 1..]);
      KeepDistinct(viewOrder, Except(id));
      viewOrder := viewOrder[..i] + viewOrder[i + 1..];
    }

    method Touch(id: Id)
      requires Distinct(viewOrder)
      modifies `viewOrder
      ensures viewOrder == Keep(old(viewOrder), Except(id)) + [id] && Distinct(viewOrder)
    {
      if id in viewOrder {
        RemoveFromOrder(id);
      } else {
        KeepAll(viewOrder, Except(id));
      }
      assert !Except(id).Admits(id);
      DistinctSnoc(viewOrder, id);
      viewOrder := viewOrder + [id];
    }

    method ReleaseView(id: Id)
      requires Lists(viewOrder, views) && SerialsOk(views, loads)
      modifies `views, `viewOrder, `loadingIds, `visible
      ensures views == old(views) - {id}
      ensures viewOrder == Keep(old(viewOrder), Except(id))
      ensures Lists(viewOrder, views) && SerialsOk(views, loads)
      ensures loadingIds == if id in old(views) then old(loadingIds) - {id} else old(loadingIds)
      ensures visible == if id in old(views) && old(visible) == View(old(views)[id]) then Unspecified
                         else old(visible)
    {
      hide Keep, Distinct, SerialsOk, Lists, Elems;
      Released(viewOrder, views, loads, id);
      ListsMembers(viewOrder, views);
      if id !in views {
        KeepAll(viewOrder, Except(id));
        return;
      }
      var view := views[id];
      views := views - {id};
      if id in viewOrder {
        assert Distinct(viewOrder) by { ListsBoth(viewOrder, old(views)); }
        RemoveFromOrder(id);
      }
      loadingIds := loadingIds - {id};
      if visible == View(view) {
        visible := Unspecified;
      }
    }

    /** The least recently used live view other than the current one. */
    method FindVictim(currentId: Option<Id>) returns (victim: Option<Id>)
      ensures match victim
              case Some(id) => exists i :: Victim(i, currentId) && viewOrder[i] == id &&
                                 forall j :: 0 <= j < i ==> !Victim(j, currentId)
              case None => forall i :: !Victim(i, currentId)
    {
      for i := 0 to |viewOrder|
        invariant forall j :: 0 <= j < i ==> !Victim(j, currentId)
      {
        if Some(viewOrder[i]) != currentId && viewOrder[i] in views {
          assert Victim(i, currentId);
          return Some(viewOrder[i]);
        }
      }
      return None;
    }

    ghost predicate Victim(i: int, currentId: Option<Id>)
      reads `viewOrder, `views
    {
      0 <= i < |viewOrder| && Some(viewOrder[i]) != currentId && viewOrder[i] in views
    }

    /** One turn of the eviction loop. With two views or more there is always a victim, and
        it is the least recently used of all. */
    method EvictOne(currentId: Option<Id>) returns (evicted: bool)
      requires Lists(viewOrder, views) && SerialsOk(views, loads)
      requires |viewOrder| >= 2 && currentId.Some? && EndsWith(viewOrder, currentId.value)
      modifies `views, `viewOrder, `loadingIds, `visible
      ensures evicted
      ensures viewOrder == old(viewOrder)[1..] && views == old(views) - {old(viewOrder)[0]}
      ensures Lists(viewOrder, views) && SerialsOk(views, loads)
      ensures loadingIds == old(loadingIds) - {old(viewOrder)[0]} && old(viewOrder)[0] in old(views)
      ensures visible == old(visible) || visible == Unspecified
    {
      hide Lists, SerialsOk, Keep, Distinct;
      var victim := FindVictim(currentId);
      OldestIsVictim(viewOrder, views);
      assert Victim(0, currentId);
      if victim.None? {
        assert false;
        return false;
      }
      ReleaseView(victim.value);
      return true;
    }

    /** Called with the current dashboard most recent and at most one view too many. The
        loop always finds a victim, and what is left is the recent end of the order. */
    method EvictSurplus()
      requires Lists(viewOrder, views) && SerialsOk(views, loads)
      requires CurrentId().Some? && EndsWith(viewOrder, CurrentId().value)
      modifies `views, `viewOrder, `loadingIds, `visible
      ensures viewOrder == Last(old(viewOrder), Limit())
      ensures Lists(viewOrder, views) && SerialsOk(views, loads)
      ensures Submap(views, old(views))
      ensures |old(views)| <= maxLiveViews ==> views == old(views)
      ensures |views| <= if maxLiveViews < 1 then 1 else maxLiveViews
      ensures loadingIds == old(loadingIds) - (old(views).Keys - views.Keys)
      ensures visible == old(visible) || visible == Unspecified
    {
      hide Lists, SerialsOk, Keep, Distinct, EndsWith, Last, IsSuffix, Submap;
      var currentId := CurrentId();
      ghost var before := viewOrder;
      ListsSize(viewOrder, views);
      Trivial(before, views);
      while |views| > Limit()
        invariant IsSuffix(viewOrder, before) && EndsWith(viewOrder, currentId.value)
        invariant |viewOrder| < |before| ==> |viewOrder| >= Limit()
        invariant Lists(viewOrder, views) && |views| == |viewOrder|
        invariant SerialsOk(views, loads)
        invariant Submap(views, old(views))
        invariant |old(views)| <= maxLiveViews ==> views == old(views)
        invariant loadingIds == old(loadingIds) - (old(views).Keys - views.Keys)
        invariant visible == old(visible) || visible == Unspecified
        decreases |views|
      {
        SuffixTail(viewOrder, before, currentId.value);
        assert viewOrder[0] in views by { ListsMembers(viewOrder, views); }
        LoadingStep(old(loadingIds), old(views), views, viewOrder[0]);
        ghost var held, lost := views, viewOrder[0];
        var evicted := EvictOne(currentId);
        if !evicted {
          assert false;
          return;
        }
        SubmapLess(held, old(views), lost);
        ListsSize(viewOrder, views);
      }
      SuffixIsLast(viewOrder, before, Limit());
    }

    /** The view of the current dashboard, loading its page when it has none. */
    method ViewFor(d: Dashboard) returns (view: nat)
      requires PoolValid() && CurrentId() == Some(d.id)
      modifies `views, `viewOrder, `loadingIds, `visible, `trace, `loads, `nextSerial
      ensures trace == old(trace) + [Show(d.id)]
      ensures PoolValid()
      ensures EndsWith(viewOrder, d.id)
      ensures d.id in views && view == views[d.id] && views.Keys <= old(views).Keys + {d.id}
      ensures d.id in old(views) ==> loads == old(loads) && views == old(views) && loadingIds == old(loadingIds)
      // A new view is loading; a released one is not.
      ensures d.id !in old(views) ==>
                loads == old(loads) + [d.id] && loadingIds == old(loadingIds) + {d.id} - (old(views).Keys - views.Keys)
      ensures old(Tidy()) ==> Tidy()
    {
      hide Keep, Distinct, SerialsOk, Lists, Pool, Loads, Elems, Serve;
      trace := trace + [Show(d.id)];
      Snoc(old(trace), Show(d.id), Limit());
      PoolShape(old(trace), Limit());
      ListsMembers(viewOrder, views);
      if d.id in views {
        view := views[d.id];
        Touched(viewOrder, views, d.id, Limit());
        Touch(d.id);
        return;
      }
      view := LoadView(d);
    }

    /** The other half of ViewFor: a new view, its page, and the eviction it may cause. */
    method LoadView(d: Dashboard) returns (view: nat)
      requires Lists(viewOrder, views) && SerialsOk(views, loads) && nextSerial == |loads|
      requires d.id !in views && CurrentId() == Some(d.id)
      modifies `views, `viewOrder, `loadingIds, `visible, `loads, `nextSerial
      ensures viewOrder == Serve(old(viewOrder), Show(d.id), Limit())
      ensures Lists(viewOrder, views) && SerialsOk(views, loads) && nextSerial == |loads|
      ensures EndsWith(viewOrder, d.id)
      ensures d.id in views && view == views[d.id]
      ensures loads == old(loads) + [d.id]
      ensures views.Keys <= old(views).Keys + {d.id}
      // Nothing is released while there is room, and never more is kept than the setting says.
      ensures |old(views)| < maxLiveViews ==> views == old(views)[d.id := view]
      ensures |views| <= if maxLiveViews < 1 then 1 else maxLiveViews
      ensures loadingIds == old(loadingIds) + {d.id} - (old(views).Keys - views.Keys)
      ensures old(Tidy()) ==> Tidy()
    {
      hide Keep, Distinct, SerialsOk, Lists, Elems, Serve, Last, EndsWith;
      Added(viewOrder, views, loads, d.id, Limit());
      loadingIds := loadingIds + {d.id};
      view := nextSerial;
      nextSerial, loads := nextSerial + 1, loads + [d.id];
      views := views[d.id := view];
      Touch(d.id);
      EvictSurplus();
      EndsWithListed(viewOrder, views, d.id);
    }

    method DropStaleViews(liveIds: set<Id>)
      requires PoolValid()
      modifies `views, `viewOrder, `loadingIds, `visible, `trace
      ensures trace == old(trace) + [Retain(liveIds)]
      ensures PoolValid()
      ensures views.Keys == old(views).Keys * liveIds
      ensures loadingIds == old(loadingIds) - (old(views).Keys - liveIds)
    {
      hide Keep, Distinct, SerialsOk, Lists, Pool, Loads, Elems;
      trace := trace + [Retain(liveIds)];
      Snoc(old(trace), Retain(liveIds), Limit());
      var stale := set id | id in views && id !in liveIds;
      ghost var kept := views.Keys;
      ListsMembers(viewOrder, views);
      KeepAll(viewOrder, Among(kept));
      while stale != {}
        invariant views.Keys == kept && kept == (old(views).Keys * liveIds) + stale
        invariant stale <= old(views).Keys - liveIds && trace == old(trace) + [Retain(liveIds)]
        invariant SerialsOk(views, loads) && Lists(viewOrder, views)
        invariant Submap(views, old(views))
        invariant viewOrder == Keep(old(viewOrder), Among(kept))
        invariant loadingIds == old(loadingIds) - (old(views).Keys - kept)
        decreases stale
      {
        var id :| id in stale;
        KeepKeep(old(viewOrder), Among(kept), Except(id), Among(kept - {id}));
        ReleaseView(id);
        stale, kept := stale - {id}, kept - {id};
      }
      ListsMembers(old(viewOrder), old(views));
      KeepSame(old(viewOrder), Among(kept), Among(liveIds));
    }

    // ----- what is shown

    method ShowIndex(index: int)
      requires menu.Valid() && menu.dashboards == dashboards && PoolValid()
      requires views.Keys <= Ids(dashboards)
      requires dashboards == [] ==> ScreenValid() && views == map[]
      requires dashboards != [] ==> !needsSetup
      modifies `current, `views, `viewOrder, `loadingIds, `visible, `splash, `trace, `loads, `nextSerial
      ensures Valid()
      ensures State() == Navigation.ShowIndex(old(State()), index)
      ensures dashboards == [] ==> loads == old(loads)
      ensures dashboards != [] && dashboards[index % |dashboards|].id in old(views) ==>
                loads == old(loads) && views == old(views) && loadingIds == old(loadingIds)
      ensures dashboards != [] && dashboards[index % |dashboards|].id !in old(views) ==>
                loads == old(loads) + [dashboards[index % |dashboards|].id] && splash
      ensures old(Tidy()) ==> Tidy()
    {
      hide PoolOk, EndsWith, Ids;
      if dashboards == [] {
        return;
      }
      var i := index % |dashboards|;
      var d := dashboards[i];
      current := i;
      var view := ViewFor(d);
      visible := View(view);
      SyncLoading();
      IdListed(dashboards, i);
    }

    method SyncLoading()
      modifies `splash
      ensures splash == (0 <= current < |dashboards| && dashboards[current].id in loadingIds)
    {
      var id := CurrentId();
      splash := id.Some? && id.value in loadingIds;
    }

    /** The first listed position of an id, or the length of the list. */
    method Position(boards: seq<Dashboard>, id: Id) returns (index: nat)
      ensures index == Find(boards, id)
    {
      index := 0;
      while index < |boards|
        invariant index <= |boards|
        invariant forall j :: 0 <= j < index ==> boards[j].id != id
      {
        if boards[index].id == id {
          FindFirst(boards, id, index);
          return;
        }
        index := index + 1;
      }
      FindNone(boards, id);
    }

    method SetDashboards(boards: seq<Dashboard>, keepCurrent: bool)
      requires Valid()
      modifies this, menu
      ensures Valid()
      ensures State() == Navigation.SetDashboards(old(State()), boards, keepCurrent)
      ensures old(Tidy()) ==> Tidy()
    {
      hide PoolOk, EndsWith, Find, Clamp, Navigation.ShowIndex, RowFor;
      if needsSetup {
        return;
      }
      var previous := CurrentId();
      dashboards := boards;
      menu.SetDashboards(boards);
      DropStaleViews(Navigation.Ids(boards));
      if boards == [] {
        visible, current := Placeholder, -1;
        assert viewOrder == [] by { NoViews(views, viewOrder, loads, trace, Limit()); }
        return;
      }
      assert State() == Nav(false, boards, old(current), old(menu.revealed), Clamp(old(menu.selected), |boards|),
                            old(trace) + [Retain(Navigation.Ids(boards))]);
      ShowRefreshed(previous, keepCurrent);
    }

    /** The end of a refresh: back to the dashboard that was showing, if it is still listed. */
    method ShowRefreshed(previous: Option<Id>, keepCurrent: bool)
      requires menu.Valid() && menu.dashboards == dashboards && PoolValid()
      requires views.Keys <= Ids(dashboards) && dashboards != [] && !needsSetup
      modifies `current, `views, `viewOrder, `loadingIds, `visible, `splash, `trace, `loads, `nextSerial
      ensures Valid()
      ensures State() == if keepCurrent && previous.Some? && Find(dashboards, previous.value) < |dashboards|
                         then Navigation.ShowIndex(old(State()), Find(dashboards, previous.value))
                         else Navigation.ShowIndex(old(State()), 0)
      ensures old(Tidy()) ==> Tidy()
    {
      hide PoolOk, EndsWith, Find, Navigation.ShowIndex;
      if keepCurrent && previous.Some? {
        var index := Position(dashboards, previous.value);
        if index < |dashboards| {
          ShowIndex(index);
          return;
        }
      }
      ShowIndex(0);
    }

    method OnLoadChanged(event: LoadEvent, id: Id)
      requires Valid()
      modifies `loadingIds, `splash
      ensures Valid() && State() == old(State())
      ensures loadingIds == match event
                            case Started => old(loadingIds) + {id}
                            case Finished => old(loadingIds) - {id}
                            case OtherStage => old(loadingIds)
      ensures splash == (dashboards != [] && dashboards[current].id in loadingIds)
      ensures old(Tidy()) && (event.Started? ==> id in views) ==> Tidy()
    {
      hide PoolOk, Distinct, Pool, Loads;
      match event {
        case Started => loadingIds := loadingIds + {id};
        case Finished => loadingIds := loadingIds - {id};
        case OtherStage =>
      }
      SyncLoading();
    }

    method OnLoadFailed()
      requires Valid()
      modifies `loadingIds, `splash
      ensures Valid() && State() == old(State())
      ensures dashboards != [] ==> !splash && loadingIds == old(loadingIds) - {dashboards[current].id}
      ensures dashboards == [] ==> loadingIds == old(loadingIds) && splash == old(splash)
      ensures old(Tidy()) ==> Tidy()
    {
      hide PoolOk, Distinct, Pool, Loads;
      var id := CurrentId();
      if id.Some? {
        loadingIds := loadingIds - {id.value};
        SyncLoading();
      }
    }

    method LeaveSetup()
      requires Valid()
      modifies `needsSetup, `visible
      ensures Valid()
      ensures State() == old(State()).(setup := false)
    {
      hide PoolOk, Distinct, Pool, Loads;
      if !needsSetup {
        return;
      }
      needsSetup := false;
      visible := Placeholder;
    }

    // ----- actions

    method HandleAction(action: Action)
      requires Valid()
      modifies this, menu
      ensures Valid()
      ensures State() == OnPress(old(State()), action)
      ensures old(Tidy()) ==> Tidy()
    {
      hide PoolValid, ScreenValid, Ids, MoveMenu, OpenMenu, CloseAndShow, Navigation.ShowIndex;
      match action
      case Digit(digit) => JumpToDigit(digit);
      case MenuToggle => ToggleMenu();
      case MenuClose => CloseMenu();
      case MenuUp => MenuStep(-1);
      case MenuDown => MenuStep(1);
      case MenuActivate => Activate();
      case DashboardNext => Step(1);
      case DashboardPrev => Step(-1);
      case DashboardHome => GoTo(0);
      case _ =>
    }

    /** ShowIndex on a window at rest. */
    method GoTo(index: int)
      requires Valid()
      modifies this
      ensures Valid()
      ensures State() == Navigation.ShowIndex(old(State()), index)
      ensures old(Tidy()) ==> Tidy()
    {
      hide PoolOk, EndsWith, Ids, Navigation.ShowIndex;
      ShowIndex(index);
    }

    method ToggleMenu()
      requires Valid()
      modifies menu
      ensures Valid()
      ensures State() == OnPress(old(State()), MenuToggle)
    {
      hide PoolOk, EndsWith, Ids;
      menu.Toggle(Max(current, 0));
    }

    method CloseMenu()
      requires Valid()
      modifies menu
      ensures Valid()
      ensures State() == old(State()).(menuOpen := false)
    {
      hide PoolOk, EndsWith, Ids;
      menu.Close();
    }

    method MenuStep(delta: int)
      requires Valid()
      modifies menu
      ensures Valid()
      ensures State() == if old(menu.revealed) then MoveMenu(old(State()), delta) else OpenMenu(old(State()))
    {
      hide PoolOk, EndsWith, Ids;
      if !menu.revealed {
        menu.Open(Max(current, 0));
        return;
      }
      menu.Move(delta);
    }

    method Activate()
      requires Valid()
      modifies this, menu
      ensures Valid()
      ensures State() == OnPress(old(State()), MenuActivate)
      ensures old(Tidy()) ==> Tidy()
    {
      hide PoolValid, ScreenValid, Ids;
      if menu.revealed {
        if menu.dashboards != [] {
          OnMenuActivate(menu.selected);
        }
      } else {
        menu.Open(Max(current, 0));
      }
    }

    method Step(delta: int)
      requires Valid()
      modifies this, menu
      ensures Valid()
      ensures State() == if old(menu.revealed) then MoveMenu(old(State()), delta)
                         else Navigation.ShowIndex(old(State()), old(current) + delta)
      ensures old(Tidy()) ==> Tidy()
    {
      hide PoolOk, EndsWith, Ids;
      if menu.revealed {
        menu.Move(delta);
        return;
      }
      if dashboards != [] {
        ShowIndex(current + delta);
      }
    }

    method JumpToDigit(digit: DigitKey)
      requires Valid()
      modifies this, menu
      ensures Valid()
      ensures State() == OnPress(old(State()), Digit(digit))
      ensures old(Tidy()) ==> Tidy()
    {
      hide PoolOk, EndsWith, Ids;
      var index := if digit > 0 then digit - 1 else 9;
      if index < |dashboards| {
        menu.Close();
        ShowIndex(index);
      }
    }

    method OnMenuActivate(index: int)
      requires Valid()
      modifies this, menu
      ensures Valid()
      ensures State() == CloseAndShow(old(State()), index)
      ensures old(Tidy()) ==> Tidy()
    {
      hide PoolOk, EndsWith, Ids;
      menu.Close();
      ShowIndex(index);
    }

    // ----- whole runs

    method Receive(e: Event)
      requires Valid()
      modifies this, menu
      ensures Valid() && State() == Next(old(State()), e)
      ensures e.LoadStarted? ==> loadingIds == old(loadingIds) + {e.id}
      ensures e.LoadFinished? ==> loadingIds == old(loadingIds) - {e.id}
      ensures e.LoadFailed? ==> !(dashboards != [] && splash)
    {
      hide PoolOk, EndsWith, Ids, OnPress, CloseAndShow, Navigation.ShowIndex, Navigation.SetDashboards, ScreenValid;
      match e
      case Press(action) => HandleAction(action);
      case RowActivated(index) => OnMenuActivate(index);
      case Refresh(boards, keepCurrent) => SetDashboards(boards, keepCurrent);
      case ShowAt(position) => GoTo(position);
      case LeaveSetup => LeaveSetup();
      case LoadStarted(id) => OnLoadChanged(Started, id);
      case LoadFinished(id) => OnLoadChanged(Finished, id);
      case LoadFailed => OnLoadFailed();
    }

    /** Any run of the window: the screen and the chooser follow `Navigation`, and the pool
        and the page loads are those of the LRU pool on the run's requests. */
    method Play(events: seq<Event>)
      requires Valid()
      modifies this, menu
      ensures Valid() && State() == Run(old(State()), events)
      ensures viewOrder == Pool(State().trace, Limit()) && |loads| == Loads(State().trace, Limit())
      ensures views.Keys == Elems(viewOrder) && |viewOrder| == |views|
      ensures |views| <= if maxLiveViews < 1 then 1 else maxLiveViews
    {
      hide PoolOk, ScreenValid, Next;
      for n := 0 to |events|
        invariant Valid() && State() == Run(old(State()), events[..n])
      {
        assert events[..n + 1][..n] == events[..n];
        Receive(events[n]);
      }
      assert events[..|events|] == events;
      PoolFacts(views, viewOrder, loads, trace, Limit());
    }
  }

  lemma PoolFacts(views: map<Id, nat>, order: seq<Id>, loads: seq<Id>, trace: seq<Request>, k: nat)
    requires PoolOk(views, order, loads, trace, k) && k >= 1
    ensures order == Pool(trace, k) && |loads| == Loads(trace, k)
    ensures views.Keys == Elems(order) && |order| == |views| <= k
  {
    PoolShape(trace, k);
    ListsBoth(order, views);
    ListsSize(order, views);
  }

  lemma {:induction false} ListsBoth(order: seq<Id>, views: map<Id, nat>)
    ensures Lists(order, views) <==> Distinct(order) && Elems(order) == views.Keys
  {
    if Distinct(order) {
      DistinctCounts(order);
    }
    if Lists(order, views) {
      CountsDistinct(order);
    }
    assert forall x :: x in order <==> x in multiset(order);
  }

  lemma {:induction false} DistinctCounts(s: seq<Id>)
    requires Distinct(s)
    ensures forall x :: multiset(s)[x] == if x in s then 1 else 0
  {
    if s != [] {
      var n := |s| - 1;
      DistinctCounts(s[..n]);
      assert s == s[..n] + [s[n]];
      assert s[n] !in s[..n];
    }
  }

  lemma {:induction false} CountsDistinct(s: seq<Id>)
    requires forall x :: multiset(s)[x] <= 1
    ensures Distinct(s)
  {
    if s != [] {
      var n := |s| - 1;
      assert s == s[..n] + [s[n]];
      assert forall x :: multiset(s)[x] == multiset(s[..n])[x] + multiset{s[n]}[x];
      CountsDistinct(s[..n]);
      assert multiset(s[..n])[s[n]] == 0;
      DistinctSnoc(s[..n], s[n]);
    }
  }

  lemma Released(order: seq<Id>, views: map<Id, nat>, loads: seq<Id>, id: Id)
    requires Lists(order, views) && SerialsOk(views, loads)
    ensures Lists(Keep(order, Except(id)), views - {id}) && SerialsOk(views - {id}, loads)
  {
    ListsBoth(order, views);
    KeepDistinct(order, Except(id));
    var kept := Keep(order, Except(id));
    assert Elems(kept) == Elems(order) - {id};
    ListsBoth(kept, views - {id});
  }

  lemma ListsMembers(order: seq<Id>, views: map<Id, nat>)
    requires Lists(order, views)
    ensures forall x :: x in order <==> x in views
  {
    ListsBoth(order, views);
    assert forall x :: x in order <==> x in Elems(order);
  }

  lemma ListsSize(order: seq<Id>, views: map<Id, nat>)
    requires Lists(order, views)
    ensures |views| == |order|
  {
    ListsBoth(order, views);
    DistinctSize(order);
    assert |views.Keys| == |views|;
  }

  /** With two views or more, the least recent is not the most recent. */
  lemma OldestIsVictim(order: seq<Id>, views: map<Id, nat>)
    requires Lists(order, views) && |order| >= 2
    ensures order[0] in views && order[0] != order[|order| - 1]
    ensures Keep(order, Except(order[0])) == order[1..]
  {
    ListsBoth(order, views);
    assert order[0] in Elems(order);
    assert order == [] + [order[0]] + order[1..];
    KeepAround([], order[0], order[1..]);
  }

  lemma Trivial(s: seq<Id>, m: map<Id, nat>)
    ensures IsSuffix(s, s) && Submap(m, m)
  {
  }

  lemma SubmapLess(a: map<Id, nat>, b: map<Id, nat>, id: Id)
    requires Submap(a, b)
    ensures Submap(a - {id}, b)
  {
  }

  lemma SuffixTail(s: seq<Id>, t: seq<Id>, id: Id)
    requires IsSuffix(s, t) && |s| >= 2 && EndsWith(s, id)
    ensures IsSuffix(s[1..], t) && EndsWith(s[1..], id)
  {
  }

  lemma SuffixIsLast(s: seq<Id>, t: seq<Id>, k: nat)
    requires IsSuffix(s, t) && |s| <= k && (|s| < |t| ==> |s| == k)
    ensures s == Last(t, k)
  {
  }

  lemma LoadingStep(loading: set<Id>, before: map<Id, nat>, now: map<Id, nat>, gone: Id)
    requires gone in now && Submap(now, before)
    ensures loading - (before.Keys - now.Keys) - {gone} == loading - (before.Keys - (now - {gone}).Keys)
  {
  }

  lemma Touched(order: seq<Id>, views: map<Id, nat>, id: Id, k: nat)
    requires Lists(order, views) && id in views && |order| <= k
    ensures Distinct(order)
    ensures Lists(Keep(order, Except(id)) + [id], views)
    ensures Serve(order, Show(id), k) == Keep(order, Except(id)) + [id]
    ensures EndsWith(Keep(order, Except(id)) + [id], id)
  {
    ListsBoth(order, views);
    ListsMembers(order, views);
    KeepDistinct(order, Except(id));
    assert !Except(id).Admits(id);
    var kept := Keep(order, Except(id));
    DistinctSnoc(kept, id);
    assert Elems(kept + [id]) == Elems(order);
    ListsBoth(kept + [id], views);
    ListsSize(order, views);
    ListsSize(kept + [id], views);
  }

  lemma Added(order: seq<Id>, views: map<Id, nat>, loads: seq<Id>, id: Id, k: nat)
    requires Lists(order, views) && SerialsOk(views, loads) && id !in views && k >= 1
    ensures Distinct(order)
    ensures Lists(Keep(order, Except(id)) + [id], views[id := |loads|])
    ensures SerialsOk(views[id := |loads|], loads + [id])
    ensures EndsWith(Keep(order, Except(id)) + [id], id)
    ensures Serve(order, Show(id), k) == Last(Keep(order, Except(id)) + [id], k)
    ensures EndsWith(Serve(order, Show(id), k), id)
  {
    hide Keep;
    AddedListed(order, views, id, |loads|);
    KeepAll(order, Except(id));
  }

  lemma AddedListed(order: seq<Id>, views: map<Id, nat>, id: Id, serial: nat)
    requires Lists(order, views) && id !in views
    ensures Distinct(order) && forall x :: x in order ==> Except(id).Admits(x)
    ensures Lists(order + [id], views[id := serial])
  {
    hide Distinct, Lists;
    ListsBoth(order, views);
    ListsMembers(order, views);
    DistinctSnoc(order, id);
    assert Elems(order + [id]) == Elems(order) + {id};
    ListsBoth(order + [id], views[id := serial]);
  }

  lemma NoViews(views: map<Id, nat>, order: seq<Id>, loads: seq<Id>, trace: seq<Request>, k: nat)
    requires PoolOk(views, order, loads, trace, k) && views.Keys == {}
    ensures order == [] && views == map[]
  {
    ListsSize(order, views);
    assert |views.Keys| == |views|;
  }

  lemma IdListed(boards: seq<Dashboard>, i: nat)
    requires i < |boards|
    ensures boards[i].id in Ids(boards)
  {
  }

  lemma EndsWithListed(order: seq<Id>, views: map<Id, nat>, id: Id)
    requires Lists(order, views) && EndsWith(order, id)
    ensures id in views
  {
    ListsMembers(order, views);
  }

  lemma {:induction false} KeepKeep(s: seq<Id>, f: Filter, g: Filter, both: Filter)
    requires forall x :: both.Admits(x) <==> f.Admits(x) && g.Admits(x)
    ensures Keep(Keep(s, f), g) == Keep(s, both)
  {
    if s != [] {
      var n := |s| - 1;
      KeepKeep(s[..n], f, g, both);
      if f.Admits(s[n]) {
        var kept := Keep(s[..n], f);
        assert (kept + [s[n]])[..|kept|] == kept;
      }
    }
  }

  lemma {:induction false} KeepSame(s: seq<Id>, f: Filter, g: Filter)
    requires forall x :: x in s ==> (f.Admits(x) <==> g.Admits(x))
    ensures Keep(s, f) == Keep(s, g)
  {
    if s != [] {
      KeepSame(s[..|s| - 1], f, g);
    }
  }

  lemma {:induction false} FindFirst(boards: seq<Dashboard>, id: Id, index: nat)
    requires index < |boards| && boards[index].id == id
    requires forall j :: 0 <= j < index ==> boards[j].id != id
    ensures Find(boards, id) == index
  {
  }

  lemma FindNone(boards: seq<Dashboard>, id: Id)
    requires forall j :: 0 <= j < |boards| ==> boards[j].id != id
    ensures Find(boards, id) == |boards|
  {
  }
}
