/** What the kiosk shows and where its highlight is, on values, apart from the pool.

  Nothing here depends on the view limit or on page loads: `Nav` records the requests
  made of the pool, so that every result about traces in `Lru` and `Competitive` becomes
  one about every run of remote actions, refreshes and load events. */
module Navigation {
  import opened Models
  import opened Lru
  import opened Menu

  datatype Nav = Nav(
    setup: bool,
    boards: seq<Dashboard>,
    current: int,
    menuOpen: bool,
    selected: int,
    trace: seq<Request>
  )

  type DigitKey = d: nat | d <= 9

  datatype Action =
    | MenuToggle | MenuClose | MenuUp | MenuDown | MenuActivate
    | DashboardNext | DashboardPrev | DashboardReload | DashboardHome
    | RotateToggle | InfoToggle | BlankOn | BlankOff
    | Digit(digit: DigitKey)

  /** Whatever reaches the window from the main loop. */
  datatype Event =
    | Press(action: Action)
    | RowActivated(index: nat)
    | Refresh(boards: seq<Dashboard>, keepCurrent: bool)
    | ShowAt(position: int)
    | LeaveSetup
    | LoadStarted(id: Id)
    | LoadFinished(id: Id)
    | LoadFailed

  function Ids(boards: seq<Dashboard>): set<Id> {
    set i | 0 <= i < |boards| :: boards[i].id
  }

  function Start(configured: bool): Nav {
    Nav(!configured, [], -1, false, 0, [])
  }

  predicate HasCurrent(n: Nav) {
    0 <= n.current < |n.boards|
  }

  /** The first position with that id, or the length of the list. */
  function Find(boards: seq<Dashboard>, id: Id): (i: nat)
    ensures i <= |boards|
    ensures i < |boards| ==> boards[i].id == id
    ensures forall j :: 0 <= j < i ==> boards[j].id != id
  {
    if boards == [] then 0
    else if boards[0].id == id then 0
    else 1 + Find(boards[1..], id)
  }

  function ShowIndex(n: Nav, index: int): Nav {
    if n.boards == [] then n
    else
      var i := index % |n.boards|;
      n.(current := i, trace := n.trace + [Show(n.boards[i].id)])
  }

  ghost function SetDashboards(n: Nav, boards: seq<Dashboard>, keepCurrent: bool): Nav {
    if n.setup then n
    else
      var listed := n.(boards := boards,
                       selected := if boards == [] then n.selected else Clamp(n.selected, |boards|),
                       trace := n.trace + [Retain(Ids(boards))]);
      if boards == [] then listed.(current := -1)
      else if keepCurrent && HasCurrent(n) && Find(boards, n.boards[n.current].id) < |boards| then
        ShowIndex(listed, Find(boards, n.boards[n.current].id))
      else ShowIndex(listed, 0)
  }

  function OpenMenu(n: Nav): Nav {
    if n.boards == [] then n
    else n.(menuOpen := true, selected := Clamp(Max(n.current, 0), |n.boards|))
  }

  function MoveMenu(n: Nav, delta: int): Nav {
    if n.boards == [] then n else n.(selected := (n.selected + delta) % |n.boards|)
  }

  function CloseAndShow(n: Nav, index: int): Nav {
    ShowIndex(n.(menuOpen := false), index)
  }

  function OnPress(n: Nav, action: Action): Nav {
    match action
    case MenuToggle => if n.menuOpen then n.(menuOpen := false) else OpenMenu(n)
    case MenuClose => n.(menuOpen := false)
    case MenuUp => if n.menuOpen then MoveMenu(n, -1) else OpenMenu(n)
    case MenuDown => if n.menuOpen then MoveMenu(n, 1) else OpenMenu(n)
    case MenuActivate =>
      if !n.menuOpen then OpenMenu(n)
      else if n.boards == [] then n
      else CloseAndShow(n, n.selected)
    case DashboardNext => if n.menuOpen then MoveMenu(n, 1) else ShowIndex(n, n.current + 1)
    case DashboardPrev => if n.menuOpen then MoveMenu(n, -1) else ShowIndex(n, n.current - 1)
    case DashboardHome => ShowIndex(n, 0)
    case Digit(digit) =>
      var index := if digit > 0 then digit - 1 else 9;
      if index < |n.boards| then CloseAndShow(n, index) else n
    case _ => n
  }

  /** The configured start dashboard, when it is listed. */
  function SelectStart(n: Nav, wanted: string): Nav {
    if wanted == "" || Find(n.boards, Id(wanted)) == |n.boards| then n
    else ShowIndex(n, Find(n.boards, Id(wanted)))
  }

  /** What the controller does with a list of dashboards from the server or the cache. */
  ghost function Apply(n: Nav, boards: seq<Dashboard>, fromCache: bool, wanted: string): Nav {
    if fromCache && boards == [] then n
    else if n.boards == [] then SelectStart(SetDashboards(n, boards, true), wanted)
    else SetDashboards(n, boards, true)
  }

  ghost function Next(n: Nav, e: Event): Nav {
    match e
    case Press(action) => OnPress(n, action)
    case RowActivated(index) => CloseAndShow(n, index)
    case Refresh(boards, keepCurrent) => SetDashboards(n, boards, keepCurrent)
    case ShowAt(position) => ShowIndex(n, position)
    case LeaveSetup => n.(setup := false)
    case _ => n
  }

  ghost function Run(n: Nav, events: seq<Event>): Nav {
    if events == [] then n else Next(Run(n, events[..|events| - 1]), events[|events| - 1])
  }
}
