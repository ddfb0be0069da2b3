/** Whole runs of the window: what every sequence of actions, refreshes and load events
  keeps, and what the pool does along it under any view limit. */
module Runs {
  import opened Digits
  import opened Models
  import opened Lru
  import opened Menu
  import opened Navigation
  import opened Competitive
  import opened Phases

  ghost predicate Inv(n: Nav) {
    && (n.boards == [] <==> n.current == -1)
    && (n.boards != [] ==> HasCurrent(n) && n.selected < |n.boards|)
    && (n.setup ==> n.boards == [] && n.trace == [])
    && 0 <= n.selected
    && (n.boards != [] ==> Showing(n.trace, n.boards[n.current].id))
  }

  /** The pool was last asked for this id. */
  ghost predicate Showing(trace: seq<Request>, id: Id) {
    trace != [] && trace[|trace| - 1] == Show(id)
  }

  lemma ShowKeeps(n: Nav, index: int)
    requires n.boards != [] && !n.setup && 0 <= n.selected < |n.boards|
    ensures Inv(ShowIndex(n, index))
  {
    ModRange(index, |n.boards|);
  }

  lemma ModRange(index: int, size: nat)
    requires size > 0
    ensures 0 <= index % size < size
  {
  }

  lemma SetKeeps(n: Nav, boards: seq<Dashboard>, keepCurrent: bool)
    requires Inv(n)
    ensures Inv(SetDashboards(n, boards, keepCurrent))
  {
    hide Find, Ids, ShowIndex;
    if !n.setup && boards != [] {
      var listed := n.(boards := boards, selected := Clamp(n.selected, |boards|), trace := n.trace + [Retain(Ids(boards))]);
      ShowKeeps(listed, 0);
      if HasCurrent(n) {
        ShowKeeps(listed, Find(boards, n.boards[n.current].id));
      }
    }
  }

  lemma PressKeeps(n: Nav, action: Action)
    requires Inv(n)
    ensures Inv(OnPress(n, action))
  {
    if n.boards != [] {
      ModRange(n.selected + 1, |n.boards|);
      ModRange(n.selected - 1, |n.boards|);
      ShowKeeps(n, n.current + 1);
      ShowKeeps(n, n.current - 1);
      ShowKeeps(n, 0);
      ShowKeeps(n.(menuOpen := false), n.selected);
      if action.Digit? {
        ShowKeeps(n.(menuOpen := false), if action.digit > 0 then action.digit - 1 else 9);
      }
    }
    hide ShowIndex;
  }

  /** Every event keeps the invariant, whatever came before. */
  lemma StepInv(n: Nav, e: Event)
    requires Inv(n)
    ensures Inv(Next(n, e))
  {
    hide SetDashboards, OnPress, ShowIndex;
    match e
    case Press(action) => PressKeeps(n, action);
    case RowActivated(index) => ShowOrNothing(n.(menuOpen := false), index);
    case Refresh(boards, keepCurrent) => SetKeeps(n, boards, keepCurrent);
    case ShowAt(position) => ShowOrNothing(n, position);
    case _ =>
  }

  lemma ShowOrNothing(n: Nav, index: int)
    requires Inv(n)
    ensures Inv(ShowIndex(n, index))
  {
    if n.boards != [] {
      ShowKeeps(n, index);
    }
  }

  lemma {:induction false} RunInv(configured: bool, events: seq<Event>)
    ensures Inv(Run(Start(configured), events))
  {
    if events != [] {
      RunInv(configured, events[..|events| - 1]);
      StepInv(Run(Start(configured), events[..|events| - 1]), events[|events| - 1]);
    }
  }

  predicate LoadReport(e: Event) {
    e.LoadStarted? || e.LoadFinished? || e.LoadFailed?
  }

  /** The same inputs, up to the load events of whichever views happened to be live. */
  ghost predicate SameInputs(es: seq<Event>, fs: seq<Event>) {
    |es| == |fs| && forall i :: 0 <= i < |es| ==> es[i] == fs[i] || (LoadReport(es[i]) && LoadReport(fs[i]))
  }

  lemma {:induction false} SameRun(n: Nav, es: seq<Event>, fs: seq<Event>)
    requires SameInputs(es, fs)
    ensures Run(n, es) == Run(n, fs)
  {
    if es != [] {
      SameRun(n, es[..|es| - 1], fs[..|fs| - 1]);
    }
  }

  /** No Belady anomaly for the whole window: two kiosks given the same inputs show the
      same dashboard; the one with the smaller limit has a suffix of the other's pool live,
      and has loaded at least as many pages. */
  lemma WindowInclusion(configured: bool, es: seq<Event>, fs: seq<Event>, k: nat, l: nat)
    requires k <= l && SameInputs(es, fs)
    ensures var n, m := Run(Start(configured), es), Run(Start(configured), fs);
            && n == m
            && IsSuffix(Pool(n.trace, k), Pool(m.trace, l))
            && Loads(m.trace, l) <= Loads(n.trace, k)
  {
    SameRun(Start(configured), es, fs);
    StackInclusion(Run(Start(configured), es).trace, k, l);
  }

  /** The pages the window has loaded are at most `k` times those of any rival policy. */
  lemma WindowCompetitive(configured: bool, events: seq<Event>, pools: seq<set<Id>>, k: nat)
    requires k >= 1 && Rival(Run(Start(configured), events).trace, pools, k)
    ensures Loads(Run(Start(configured), events).trace, k) <= k * Cost(pools)
  {
    LruCompetitive(Run(Start(configured), events).trace, pools, k);
  }

  /** Against a rival that keeps fewer views the factor shrinks. */
  lemma WindowAgainstSmaller(configured: bool, events: seq<Event>, pools: seq<set<Id>>, h: nat, k: nat)
    requires 1 <= h <= k && Rival(Run(Start(configured), events).trace, pools, h)
    ensures (k - h + 1) * Loads(Run(Start(configured), events).trace, k) <= k * Cost(pools) + (k - h + 1) * (k - 1)
  {
    hide Rival, Run;
    LruAgainstSmaller(Run(Start(configured), events).trace, pools, h, k);
  }

  /** Setup hides everything else: until it is left nothing is listed, shown or loaded. */
  lemma {:induction false} SetupFirst(events: seq<Event>)
    requires forall i :: 0 <= i < |events| ==> !events[i].LeaveSetup?
    ensures var n := Run(Start(false), events);
            n.setup && n.boards == [] && n.trace == [] && !n.menuOpen
  {
    if events != [] {
      SetupFirst(events[..|events| - 1]);
    }
  }

  // ----- actions

  lemma UpDown(x: nat, size: nat)
    requires x < size
    ensures ((x + 1) % size - 1) % size == x && ((x - 1) % size + 1) % size == x
  {
    Wrap(x, size);
    WrapBack(x, size);
    if x + 1 == size {
      WrapBack(0, size);
    } else {
      WrapBack(x + 1, size);
    }
    Wrap(if x == 0 then size - 1 else x - 1, size);
  }

  lemma WrapBack(x: nat, size: nat)
    requires x < size
    ensures (x - 1) % size == if x == 0 then size - 1 else x - 1
  {
  }

  lemma ChannelKeys(n: Nav)
    requires !n.menuOpen
    ensures OnPress(n, DashboardNext) == ShowIndex(n, n.current + 1)
    ensures OnPress(n, DashboardPrev) == ShowIndex(n, n.current - 1)
  {
  }

  lemma ShowAfter(n: Nav)
    requires HasCurrent(n)
    ensures var i := if n.current + 1 == |n.boards| then 0 else n.current + 1;
            ShowIndex(n, n.current + 1) == n.(current := i, trace := n.trace + [Show(n.boards[i].id)])
  {
    Wrap(n.current, |n.boards|);
  }

  lemma ShowBefore(n: Nav)
    requires HasCurrent(n)
    ensures var i := if n.current == 0 then |n.boards| - 1 else n.current - 1;
            ShowIndex(n, n.current - 1) == n.(current := i, trace := n.trace + [Show(n.boards[i].id)])
  {
    WrapBack(n.current, |n.boards|);
  }

  lemma ScreenUndo(n: Nav)
    requires HasCurrent(n) && !n.menuOpen
    ensures OnPress(OnPress(n, DashboardNext), DashboardPrev).current == n.current
    ensures OnPress(OnPress(n, DashboardPrev), DashboardNext).current == n.current
  {
    hide ShowIndex, OnPress;
    var up, down := ShowIndex(n, n.current + 1), ShowIndex(n, n.current - 1);
    ShowAfter(n);
    ShowBefore(n);
    ChannelKeys(n);
    ChannelKeys(up);
    ChannelKeys(down);
    ShowBefore(up);
    ShowAfter(down);
  }

  lemma MenuUndo(n: Nav)
    requires Inv(n) && n.boards != [] && n.menuOpen
    ensures OnPress(OnPress(n, MenuDown), MenuUp) == n
    ensures OnPress(OnPress(n, MenuUp), MenuDown) == n
  {
    UpDown(n.selected, |n.boards|);
    assert OnPress(n, MenuDown) == MoveMenu(n, 1);
    assert OnPress(n, MenuUp) == MoveMenu(n, -1);
  }

  /** Opposite keys undo each other, on the screen and in the chooser, wrapping round both
      ends of the list; with the chooser open the channel keys move it too. */
  lemma OppositesUndo(n: Nav)
    requires Inv(n) && n.boards != []
    ensures !n.menuOpen ==>
              && OnPress(OnPress(n, DashboardNext), DashboardPrev).current == n.current
              && OnPress(OnPress(n, DashboardPrev), DashboardNext).current == n.current
    ensures n.menuOpen ==>
              && OnPress(OnPress(n, MenuDown), MenuUp) == n && OnPress(OnPress(n, MenuUp), MenuDown) == n
              && OnPress(n, DashboardNext) == OnPress(n, MenuDown) && OnPress(n, DashboardPrev) == OnPress(n, MenuUp)
  {
    if n.menuOpen {
      MenuUndo(n);
    } else {
      ScreenUndo(n);
    }
    hide ShowIndex, MoveMenu, Inv;
  }

  /** Opening the chooser highlights what is showing, and confirming shows what is
      highlighted, so opening and confirming at once changes nothing but the recency. */
  lemma ConfirmShowsHighlight(n: Nav)
    requires Inv(n) && n.boards != []
    ensures n.menuOpen ==>
              var m := OnPress(n, MenuActivate);
              !m.menuOpen && m.current == n.selected && m.trace == n.trace + [Show(n.boards[n.selected].id)]
    ensures !n.menuOpen ==>
              var m := OnPress(n, MenuActivate);
              m.menuOpen && m.selected == n.current && OnPress(m, MenuActivate).current == n.current
  {
    Small(n.selected, |n.boards|);
    Small(n.current, |n.boards|);
  }

  ghost predicate Jumps(n: Nav, digit: DigitKey, i: nat) {
    OnPress(n, Digit(digit)).current == i && OnPress(n, Digit(digit)) != n
  }

  /** The digit keys reach exactly the first ten dashboards, each by one key only, closing
      the chooser and showing the dashboard; the other digits do nothing at all. */
  lemma DigitsReach(n: Nav, i: nat)
    requires Inv(n) && i < |n.boards|
    ensures (exists digit: DigitKey :: Jumps(n, digit, i)) <==> i < 10
    ensures forall d: DigitKey, e: DigitKey :: Jumps(n, d, i) && Jumps(n, e, i) ==> d == e
    ensures forall d: DigitKey :: Jumps(n, d, i) ==>
              OnPress(n, Digit(d)) == n.(menuOpen := false, current := i, trace := n.trace + [Show(n.boards[i].id)])
  {
    forall digit: DigitKey
      ensures Jumps(n, digit, i) <==> i == KeyIndex(digit)
      ensures Jumps(n, digit, i) ==>
                OnPress(n, Digit(digit)) == n.(menuOpen := false, current := i, trace := n.trace + [Show(n.boards[i].id)])
    {
      DigitJumps(n, digit, i);
    }
    if i < 10 {
      var digit: DigitKey := if i == 9 then 0 else i + 1;
      assert Jumps(n, digit, i);
    }
  }

  function KeyIndex(digit: DigitKey): nat {
    if digit > 0 then digit - 1 else 9
  }

  lemma DigitJumps(n: Nav, digit: DigitKey, i: nat)
    requires Inv(n) && i < |n.boards|
    ensures Jumps(n, digit, i) <==> i == KeyIndex(digit)
    ensures Jumps(n, digit, i) ==>
              OnPress(n, Digit(digit)) == n.(menuOpen := false, current := i, trace := n.trace + [Show(n.boards[i].id)])
  {
    if KeyIndex(digit) < |n.boards| {
      Small(KeyIndex(digit), |n.boards|);
      var m := OnPress(n, Digit(digit));
      assert |m.trace| == |n.trace| + 1;
    }
  }

  // ----- every key, in plain positions

  ghost function Shows(n: Nav, i: nat): Nav
    requires i < |n.boards|
  {
    n.(current := i, trace := n.trace + [Show(n.boards[i].id)])
  }

  function After(x: nat, size: nat): nat { if x + 1 == size then 0 else x + 1 }

  function Before(x: nat, size: nat): int { if x == 0 then size - 1 else x - 1 }

  lemma ShowPlain(n: Nav, i: nat)
    requires i < |n.boards|
    ensures ShowIndex(n, i) == Shows(n, i)
  {
    Small(i, |n.boards|);
  }

  /** With the chooser closed the channel keys step round the list and HOME goes to its first
      dashboard; four keys open the chooser on what is showing, and the rest do nothing. */
  lemma KeysClosed(n: Nav)
    requires Inv(n) && n.boards != [] && !n.menuOpen
    ensures OnPress(n, DashboardNext) == Shows(n, After(n.current, |n.boards|))
    ensures OnPress(n, DashboardPrev) == Shows(n, Before(n.current, |n.boards|))
    ensures OnPress(n, DashboardHome) == Shows(n, 0)
    ensures forall key :: key in {MenuToggle, MenuUp, MenuDown, MenuActivate} ==>
              OnPress(n, key) == n.(menuOpen := true, selected := n.current)
    ensures forall key :: key in {MenuClose, DashboardReload, RotateToggle, InfoToggle, BlankOn, BlankOff} ==>
              OnPress(n, key) == n
  {
    ShowAfter(n);
    ShowBefore(n);
    ShowPlain(n, 0);
    hide ShowIndex;
  }

  /** With the chooser open the channel keys and the arrows move its highlight, down towards
      the end of the list; toggle and close shut it, OK shows what is highlighted, and HOME
      shows the first dashboard behind it. */
  lemma KeysOpen(n: Nav)
    requires Inv(n) && n.boards != [] && n.menuOpen
    ensures OnPress(n, MenuDown) == OnPress(n, DashboardNext) == n.(selected := After(n.selected, |n.boards|))
    ensures OnPress(n, MenuUp) == OnPress(n, DashboardPrev) == n.(selected := Before(n.selected, |n.boards|))
    ensures OnPress(n, MenuToggle) == OnPress(n, MenuClose) == n.(menuOpen := false)
    ensures OnPress(n, MenuActivate) == Shows(n.(menuOpen := false), n.selected)
    ensures OnPress(n, DashboardHome) == Shows(n, 0)
    ensures forall key :: key in {DashboardReload, RotateToggle, InfoToggle, BlankOn, BlankOff} ==> OnPress(n, key) == n
  {
    Wrap(n.selected, |n.boards|);
    WrapBack(n.selected, |n.boards|);
    ShowPlain(n, 0);
    ShowPlain(n.(menuOpen := false), n.selected);
    hide ShowIndex;
  }

  /** With nothing listed keys do nothing but shut an open chooser. */
  lemma KeysEmpty(n: Nav, key: Action)
    requires n.boards == []
    ensures OnPress(n, key) == if key == MenuToggle || key == MenuClose then n.(menuOpen := false) else n
  {
  }

  /** A row that is activated is shown, and so is a position asked for. */
  lemma PositionsShown(n: Nav, i: nat)
    requires i < |n.boards|
    ensures Next(n, RowActivated(i)) == Shows(n.(menuOpen := false), i)
    ensures Next(n, ShowAt(i)) == Shows(n, i)
  {
    ShowPlain(n, i);
    ShowPlain(n.(menuOpen := false), i);
  }

  /** The badge of a row from 1 to 9 is the digit key that jumps to it. */
  lemma BadgeIsKey(n: Nav, i: nat, digit: DigitKey)
    requires Inv(n) && i < |n.boards| && i < 9
    ensures RowFor(i + 1, n.boards[i]).badge == Decimal(digit) <==> Jumps(n, digit, i)
  {
    DigitJumps(n, digit, i);
    OneDigitEach(i + 1, digit);
    hide Jumps;
  }

  lemma OneDigitEach(x: nat, y: nat)
    requires x <= 9 && y <= 9
    ensures Decimal(x) == Decimal(y) <==> x == y
  {
    assert Decimal(x)[0] as int == x + 48 && Decimal(y)[0] as int == y + 48;
  }

  // ----- refreshes

  lemma FindListed(boards: seq<Dashboard>, id: Id)
    requires id in Ids(boards)
    ensures Find(boards, id) < |boards|
  {
    var i :| 0 <= i < |boards| && boards[i].id == id;
  }

  /** A refresh that still lists the current dashboard keeps it current, loads nothing,
      drops exactly the views that left the list and keeps the others in their order. */
  lemma RefreshStable(n: Nav, boards: seq<Dashboard>, k: nat)
    requires k >= 1 && Inv(n) && n.boards != [] && n.boards[n.current].id in Ids(boards)
    ensures var m := Next(n, Refresh(boards, true));
            && HasCurrent(m) && m.boards[m.current].id == n.boards[n.current].id
            && Loads(m.trace, k) == Loads(n.trace, k)
            && Pool(m.trace, k) == Keep(Pool(n.trace, k), Among(Ids(boards)))
            && m.menuOpen == n.menuOpen
  {
    var id, ids := n.boards[n.current].id, Ids(boards);
    hide Keep, Pool, Loads, Find, Ids, Distinct, SetDashboards, Serve;
    FindListed(boards, id);
    PoolShape(n.trace, k);
    Snoc(n.trace, Retain(ids), k);
    Snoc(n.trace + [Retain(ids)], Show(id), k);
    RefreshServe(Pool(n.trace, k), id, ids, k);
    RefreshTrace(n, boards);
  }

  lemma RefreshTrace(n: Nav, boards: seq<Dashboard>)
    requires Inv(n) && n.boards != [] && Find(boards, n.boards[n.current].id) < |boards|
    ensures var m := Next(n, Refresh(boards, true));
            && HasCurrent(m) && m.boards[m.current].id == n.boards[n.current].id
            && m.trace == n.trace + [Retain(Ids(boards))] + [Show(n.boards[n.current].id)]
            && m.menuOpen == n.menuOpen
  {
    hide Ids;
    var i := Find(boards, n.boards[n.current].id);
    Small(i, |boards|);
  }

  /** Any other refresh goes to the first dashboard, or to nothing when the list is empty; the
      chooser stays as it is, its highlight at most on the last row. */
  lemma RefreshMoves(n: Nav, boards: seq<Dashboard>, keepCurrent: bool)
    requires Inv(n) && !n.setup
    requires !keepCurrent || n.boards == [] || n.boards[n.current].id !in Ids(boards)
    ensures var m := Next(n, Refresh(boards, keepCurrent));
            && m.boards == boards && m.menuOpen == n.menuOpen && !m.setup
            && (boards == [] ==>
                  m.current == -1 && m.selected == n.selected && m.trace == n.trace + [Retain({})])
            && (boards != [] ==>
                  && m.current == 0 && m.trace == n.trace + [Retain(Ids(boards))] + [Show(boards[0].id)]
                  && m.selected == if n.selected < |boards| then n.selected else |boards| - 1)
  {
    if n.boards != [] && n.boards[n.current].id !in Ids(boards) {
      FindAbsent(boards, n.boards[n.current].id);
    }
    if boards == [] {
      assert Ids(boards) == {};
    } else {
      Small(0, |boards|);
    }
    hide Find;
  }

  /** In setup a refresh is ignored. */
  lemma RefreshInSetup(n: Nav, boards: seq<Dashboard>, keepCurrent: bool)
    requires n.setup
    ensures Next(n, Refresh(boards, keepCurrent)) == n
  {
  }

  /** An empty list from the cache is ignored, one from the server clears the screen. */
  lemma ApplyEmpty(n: Nav, wanted: string)
    requires Inv(n) && !n.setup
    ensures Apply(n, [], true, wanted) == n
    ensures Apply(n, [], false, wanted).boards == [] && Apply(n, [], false, wanted).current == -1
  {
  }

  lemma Small(i: nat, size: nat)
    requires i < size
    ensures i % size == i
  {
  }

  lemma RefreshServe(order: seq<Id>, id: Id, ids: set<Id>, k: nat)
    requires Distinct(order) && |order| <= k && order != [] && order[|order| - 1] == id && id in ids
    ensures var kept := Serve(order, Retain(ids), k);
            && kept == Keep(order, Among(ids))
            && id in kept && Serve(kept, Show(id), k) == kept
            && Miss(order, Retain(ids)) == 0 && Miss(kept, Show(id)) == 0
  {
    hide Keep, Distinct;
    var front := order[..|order| - 1];
    DistinctEnd(order);
    assert order == front + [id];
    KeptShape(front, id, ids);
  }

  lemma DistinctEnd(order: seq<Id>)
    requires Distinct(order) && order != []
    ensures order[|order| - 1] !in order[..|order| - 1]
  {
  }

  lemma KeptShape(front: seq<Id>, id: Id, ids: set<Id>)
    requires id !in front && id in ids
    ensures var kept := Keep(front + [id], Among(ids));
            kept != [] && kept[|kept| - 1] == id && Keep(kept, Except(id)) + [id] == kept
  {
    hide Keep;
    KeepConcat(front, [id], Among(ids));
    KeepAll([id], Among(ids));
    var kept := Keep(front, Among(ids));
    KeepAround(kept, id, []);
    assert kept + [id] + [] == kept + [id] && kept + [] == kept;
  }

  /** A refresh respects the viewer's choice: whatever the start dashboard is set to, the
      dashboard that was showing stays, as long as it is still listed. */
  lemma ApplyKeepsChoice(n: Nav, boards: seq<Dashboard>, fromCache: bool, wanted: string, k: nat)
    requires k >= 1 && Inv(n) && n.boards != [] && n.boards[n.current].id in Ids(boards)
    ensures var m := Apply(n, boards, fromCache, wanted);
            && HasCurrent(m) && m.boards[m.current].id == n.boards[n.current].id
            && Loads(m.trace, k) == Loads(n.trace, k)
  {
    assert boards != [];
    hide Ids, SelectStart, SetDashboards, Pool, Loads;
    RefreshStable(n, boards, k);
  }

  /** With nothing listed there is nothing live. */
  ghost predicate BareWhenEmpty(n: Nav, k: nat) {
    n.boards == [] ==> Pool(n.trace, k) == []
  }

  lemma EmptyRefresh(n: Nav, boards: seq<Dashboard>, keepCurrent: bool, k: nat)
    requires BareWhenEmpty(n, k)
    ensures BareWhenEmpty(SetDashboards(n, boards, keepCurrent), k)
  {
    hide Keep, Pool, Find;
    if boards == [] {
      Snoc(n.trace, Retain(Ids(boards)), k);
      assert Ids(boards) == {};
      NothingKept(Pool(n.trace, k));
    }
  }

  lemma {:induction false} NothingKept(order: seq<Id>)
    ensures Keep(order, Among({})) == []
  {
    if order != [] {
      NothingKept(order[..|order| - 1]);
    }
  }

  lemma StepBare(n: Nav, e: Event, k: nat)
    requires BareWhenEmpty(n, k)
    ensures BareWhenEmpty(Next(n, e), k)
  {
    hide Pool, SetDashboards;
    match e
    case Refresh(boards, keepCurrent) => EmptyRefresh(n, boards, keepCurrent, k);
    case _ =>
  }

  lemma {:induction false} RunBare(configured: bool, events: seq<Event>, k: nat)
    ensures BareWhenEmpty(Run(Start(configured), events), k)
  {
    if events != [] {
      hide BareWhenEmpty, Next;
      RunBare(configured, events[..|events| - 1], k);
      StepBare(Run(Start(configured), events[..|events| - 1]), events[|events| - 1], k);
    }
  }

  /** Where the first list opens: on the start dashboard when that is set and listed, else on
      the first. */
  ghost function StartId(boards: seq<Dashboard>, wanted: string): Id
    requires boards != []
  {
    if wanted != "" && Id(wanted) in Ids(boards) then Id(wanted) else boards[0].id
  }

  /** In every run, the first list after an empty one, from the cache or the server, opens on
      the start dashboard exactly when that is listed, else on the first; reaching a start
      dashboard other than the first costs the load of the first as well. */
  lemma ApplyStarts(configured: bool, events: seq<Event>, boards: seq<Dashboard>, fromCache: bool, wanted: string, k: nat)
    requires k >= 1 && boards != []
    requires var n := Run(Start(configured), events); !n.setup && n.boards == []
    ensures var n := Run(Start(configured), events);
            var m := Apply(n, boards, fromCache, wanted);
            && HasCurrent(m) && m.boards == boards && m.boards[m.current].id == StartId(boards, wanted)
            && Loads(m.trace, k) == Loads(n.trace, k) + if StartId(boards, wanted) == boards[0].id then 1 else 2
  {
    hide Run, Apply, Inv, Pool, Loads, Ids, StartId;
    RunInv(configured, events);
    RunBare(configured, events, k);
    FirstListLoads(Run(Start(configured), events), boards, fromCache, wanted, k);
  }

  lemma FirstListLoads(n: Nav, boards: seq<Dashboard>, fromCache: bool, wanted: string, k: nat)
    requires k >= 1 && Inv(n) && !n.setup && n.boards == [] && boards != [] && Pool(n.trace, k) == []
    ensures var m := Apply(n, boards, fromCache, wanted);
            && HasCurrent(m) && m.boards == boards && m.boards[m.current].id == StartId(boards, wanted)
            && Loads(m.trace, k) == Loads(n.trace, k) + if StartId(boards, wanted) == boards[0].id then 1 else 2
  {
    hide Find, Ids, Pool, Loads, Serve, Apply, Inv;
    StartListed(n, boards, fromCache, wanted);
    var first := boards[0].id;
    Snoc(n.trace, Retain(Ids(boards)), k);
    Snoc(n.trace + [Retain(Ids(boards))], Show(first), k);
    Snoc(n.trace + [Retain(Ids(boards))] + [Show(first)], Show(Id(wanted)), k);
    FirstAlone(first, Ids(boards), k);
  }

  /** The requests of a first list: the first dashboard, then perhaps the start dashboard. */
  lemma StartListed(n: Nav, boards: seq<Dashboard>, fromCache: bool, wanted: string)
    requires Inv(n) && !n.setup && n.boards == [] && boards != []
    ensures var m := Apply(n, boards, fromCache, wanted);
            var listed := n.trace + [Retain(Ids(boards))] + [Show(boards[0].id)];
            && HasCurrent(m) && m.boards == boards
            && (wanted != "" && Id(wanted) in Ids(boards) ==>
                  m.boards[m.current].id == Id(wanted) && m.trace == listed + [Show(Id(wanted))])
            && (wanted == "" || Id(wanted) !in Ids(boards) ==>
                  m.boards[m.current].id == boards[0].id && m.trace == listed)
  {
    Small(0, |boards|);
    if Id(wanted) in Ids(boards) {
      FindListed(boards, Id(wanted));
      Small(Find(boards, Id(wanted)), |boards|);
    } else {
      FindAbsent(boards, Id(wanted));
    }
    hide Find, Ids;
  }

  lemma FirstAlone(id: Id, ids: set<Id>, k: nat)
    requires k >= 1
    ensures Serve([], Show(id), k) == [id] && Serve([], Retain(ids), k) == []
  {
  }

  lemma FindAbsent(boards: seq<Dashboard>, id: Id)
    requires id !in Ids(boards)
    ensures Find(boards, id) == |boards|
  {
    forall i | 0 <= i < |boards|
      ensures boards[i].id != id
    {
      IdAt(boards, i);
    }
  }

  lemma IdAt(boards: seq<Dashboard>, i: nat)
    requires i < |boards|
    ensures boards[i].id in Ids(boards)
  {
  }

  // ----- carousel laps

  ghost function Spin(n: Nav, steps: nat): Nav {
    if steps == 0 then n else Next(Spin(n, steps - 1), Press(DashboardNext))
  }

  /** The position `j` steps ahead of the current one, round the list. */
  ghost function Ahead(n: Nav, j: nat): (p: nat)
    requires HasCurrent(n)
    ensures p < |n.boards|
  {
    if j == 0 then n.current
    else if Ahead(n, j - 1) + 1 == |n.boards| then 0
    else Ahead(n, j - 1) + 1
  }

  ghost function Tour(n: Nav, from: nat, steps: nat): seq<Request>
    requires HasCurrent(n)
  {
    if steps == 0 then []
    else Tour(n, from, steps - 1) + [Show(n.boards[Ahead(n, from + steps - 1)].id)]
  }

  ghost predicate DistinctIds(boards: seq<Dashboard>) {
    forall i, j :: 0 <= i < j < |boards| ==> boards[i].id != boards[j].id
  }

  /** Within one lap the position is a sum, wrapped at most once. */
  lemma {:induction false} AheadBy(n: Nav, j: nat, d: nat)
    requires HasCurrent(n) && d <= |n.boards|
    ensures Ahead(n, j + d) == if Ahead(n, j) + d < |n.boards| then Ahead(n, j) + d
                               else Ahead(n, j) + d - |n.boards|
  {
    if d > 0 {
      AheadBy(n, j, d - 1);
    }
  }

  lemma AheadNext(n: Nav, j: nat)
    requires HasCurrent(n)
    ensures Ahead(n, j + 1) == if Ahead(n, j) + 1 == |n.boards| then 0 else Ahead(n, j) + 1
  {
  }

  lemma AheadZero(n: Nav)
    requires HasCurrent(n)
    ensures Ahead(n, 0) == n.current
  {
  }

  lemma AheadDiffer(n: Nav, i: nat, j: nat)
    requires HasCurrent(n) && i < j < i + |n.boards|
    ensures Ahead(n, i) != Ahead(n, j)
    ensures DistinctIds(n.boards) ==> n.boards[Ahead(n, i)].id != n.boards[Ahead(n, j)].id
  {
    AheadBy(n, i, j - i);
  }

  lemma Wrap(x: nat, size: nat)
    requires x < size
    ensures (x + 1) % size == if x + 1 == size then 0 else x + 1
  {
  }

  lemma {:induction false} SpinIsTour(n: Nav, steps: nat)
    requires HasCurrent(n) && !n.menuOpen
    ensures Spin(n, steps) == n.(current := Ahead(n, steps), trace := n.trace + Tour(n, 1, steps))
  {
    if steps == 0 {
      assert n.trace + [] == n.trace;
    } else {
      hide Ahead, OnPress, ShowIndex;
      SpinIsTour(n, steps - 1);
      AheadNext(n, steps - 1);
      var m := Spin(n, steps - 1);
      ChannelKeys(m);
      ShowAfter(m);
      var shown := [Show(n.boards[Ahead(n, steps)].id)];
      assert n.trace + Tour(n, 1, steps - 1) + shown == n.trace + (Tour(n, 1, steps - 1) + shown);
    }
  }

  lemma {:induction false} TourShape(n: Nav, from: nat, steps: nat)
    requires HasCurrent(n)
    ensures |Tour(n, from, steps)| == steps
    ensures forall i :: 0 <= i < steps ==> Tour(n, from, steps)[i] == Show(n.boards[Ahead(n, from + i)].id)
  {
    if steps > 0 {
      TourShape(n, from, steps - 1);
    }
  }

  lemma TourSplit(n: Nav, from: nat, a: nat, b: nat)
    requires HasCurrent(n)
    ensures Tour(n, from, a + b) == Tour(n, from, a) + Tour(n, from + a, b)
  {
    TourShape(n, from, a + b);
    TourShape(n, from, a);
    TourShape(n, from + a, b);
  }

  /** Less than a lap shows as many different dashboards as it has steps. */
  lemma {:induction false} TourDistinct(n: Nav, from: nat, steps: nat)
    requires HasCurrent(n) && DistinctIds(n.boards) && steps < |n.boards|
    ensures AllShowOthers(Tour(n, from + 1, steps), n.boards[Ahead(n, from)].id)
    ensures |Shown(Tour(n, from + 1, steps))| == steps
  {
    if steps == 0 {
      assert Shown(Tour(n, from + 1, 0)) == {};
    } else {
      hide Ahead, Shown, DistinctIds, AllShowOthers;
      TourDistinct(n, from, steps - 1);
      var shorter, last := Tour(n, from + 1, steps - 1), n.boards[Ahead(n, from + steps)].id;
      assert Tour(n, from + 1, steps) == shorter + [Show(last)];
      AheadDiffer(n, from, from + steps);
      OthersSnoc(shorter, n.boards[Ahead(n, from)].id, last);
      ShownSnoc(shorter, last);
      TourMisses(n, from, steps);
    }
  }

  lemma OthersSnoc(mid: seq<Request>, id: Id, y: Id)
    requires AllShowOthers(mid, id) && y != id
    ensures AllShowOthers(mid + [Show(y)], id)
  {
  }

  lemma TourMisses(n: Nav, from: nat, steps: nat)
    requires HasCurrent(n) && DistinctIds(n.boards) && 0 < steps < |n.boards|
    ensures n.boards[Ahead(n, from + steps)].id !in Shown(Tour(n, from + 1, steps - 1))
  {
    var tour := Tour(n, from + 1, steps - 1);
    TourShape(n, from + 1, steps - 1);
    forall i | 0 <= i < |tour|
      ensures tour[i].Show? && tour[i].id != n.boards[Ahead(n, from + steps)].id
    {
      AheadDiffer(n, from + 1 + i, from + steps);
    }
  }

  /** One lap of NEXT visits every position exactly once and comes home. */
  lemma Lap(n: Nav)
    requires HasCurrent(n) && !n.menuOpen
    ensures Spin(n, |n.boards|).current == n.current
    ensures forall i, j :: 1 <= i < j <= |n.boards| ==> Spin(n, i).current != Spin(n, j).current
    ensures forall p :: 0 <= p < |n.boards| ==> Visited(n, p)
  {
    hide Ahead, Tour, Spin, DistinctIds;
    var size := |n.boards|;
    SpinIsTour(n, size);
    AheadZero(n);
    AheadBy(n, 0, size);
    forall i, j | 1 <= i < j <= size
      ensures Spin(n, i).current != Spin(n, j).current
    {
      SpinIsTour(n, i);
      SpinIsTour(n, j);
      AheadDiffer(n, i, j);
    }
    forall p | 0 <= p < size
      ensures Visited(n, p)
    {
      var i := if p > n.current then p - n.current else p - n.current + size;
      AheadBy(n, 0, i);
      SpinIsTour(n, i);
      assert Spin(n, i).current == p;
    }
  }

  ghost predicate Visited(n: Nav, p: int) {
    exists i :: 1 <= i <= |n.boards| && Spin(n, i).current == p
  }

  /** After one lap the carousel either never loads again or loads at every step, and the
      limit alone decides which. */
  lemma LapLoads(n: Nav, steps: nat, k: nat)
    requires k >= 1 && HasCurrent(n) && !n.menuOpen && DistinctIds(n.boards) && steps >= |n.boards|
    ensures Loads(Spin(n, steps + 1).trace, k)
         == Loads(Spin(n, steps).trace, k) + if |n.boards| <= k then 0 else 1
  {
    hide Ahead, Tour, Spin, Pool, Loads, Resident, Distinct, DistinctIds, Shown, AllShowOthers;
    var size := |n.boards|;
    var back := steps + 1 - size;
    var id := n.boards[Ahead(n, back)].id;
    var pre, mid := n.trace + Tour(n, 1, back - 1), Tour(n, back + 1, size - 1);
    var before := n.trace + Tour(n, 1, steps);
    LapTrace(n, back, size - 1);
    SpinIsTour(n, steps);
    SpinIsTour(n, steps + 1);
    LapTrace(n, steps + 1, 0);
    AheadBy(n, back, size);
    Snoc(before, Show(id), k);
    TourDistinct(n, back, size - 1);
    ReuseDistance(pre, id, mid, k);
    ResidentIn(Pool(before, k), id, Shown(mid));
  }

  lemma LapTrace(n: Nav, back: nat, rest: nat)
    requires HasCurrent(n) && back >= 1
    ensures n.trace + Tour(n, 1, back + rest)
         == n.trace + Tour(n, 1, back - 1) + [Show(n.boards[Ahead(n, back)].id)] + Tour(n, back + 1, rest)
    ensures rest == 0 ==> n.trace + Tour(n, 1, back) == n.trace + Tour(n, 1, back - 1) + [Show(n.boards[Ahead(n, back)].id)]
  {
    TourSplit(n, 1, back, rest);
    assert Tour(n, 1, back) == Tour(n, 1, back - 1) + [Show(n.boards[Ahead(n, back)].id)];
  }

  lemma ResidentIn(order: seq<Id>, id: Id, newer: set<Id>)
    ensures Resident(order, id, newer) ==> id in order
  {
  }
}
