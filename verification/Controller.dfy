/** The parts of the controller that live on the main loop: applying lists of dashboards
  to the window, and the carousel clock. Its enrolment threads are in `Enrolment`. */
module Controller {
  import opened Text
  import opened Models
  import opened Navigation
  import opened KioskWindow
  import opened Api

  /** The main loop's timeouts. A timeout is due no earlier than its interval after it was
      added or last fired; how much later it fires is up to the loop. */
  class MainLoop {
    var due: map<nat, int>
    var nextId: nat

    ghost predicate Valid()
      reads this
    {
      nextId > 0 && forall id :: id in due ==> 0 < id < nextId
    }

    constructor ()
      ensures Valid() && due == map[]
    {
      due, nextId := map[], 1;
    }

    method TimeoutAdd(now: int, interval: int) returns (id: nat)
      requires Valid()
      modifies this
      ensures Valid() && id != 0 && id !in old(due) && due == old(due)[id := now + interval]
    {
      id, nextId := nextId, nextId + 1;
      due := due[id := now + interval];
    }

    method SourceRemove(id: nat)
      requires Valid() && id in due
      modifies `due
      ensures Valid() && due == old(due) - {id}
    {
      due := due - {id};
    }

    /** What the loop does after a callback that asks to go on. */
    method Rearm(id: nat, now: int, interval: int)
      requires Valid() && id in due
      modifies `due
      ensures Valid() && due == old(due)[id := now + interval]
    {
      due := due[id := now + interval];
    }
  }

  /** What the carousel clock must keep apart: its own advances, and actions from the
      remote. */
  datatype Mark = Advance(at: int) | Remote(at: int)

  ghost predicate Before(log: seq<Mark>, now: int) {
    forall i :: 0 <= i < |log| ==> log[i].at <= now
  }

  /** No automatic advance sooner than the interval after the one before it, or after any
      action of the remote. */
  ghost predicate Spaced(log: seq<Mark>, interval: int) {
    forall i, j :: 0 <= i < j < |log| && log[j].Advance? ==> log[j].at - log[i].at >= interval
  }

  datatype Phase = Detached | Attached | Stopped

  class Controller {
    const window: Window
    const loop: MainLoop
    const rotateInterval: int
    const startDashboard: string
    var rotateSource: nat
    var rotating: bool
    var serverDefault: Option<string>

    ghost var phase: Phase
    ghost var log: seq<Mark>

    ghost predicate ClockValid()
      reads this, loop
    {
      && loop.Valid()
      && (rotateInterval == 0 || rotateInterval >= 5)
      // At most one rotate source is live, and it is the one on record.
      && loop.due.Keys == (if rotateSource == 0 then {} else {rotateSource})
      && (rotateSource != 0 ==> rotateInterval != 0)
      && (rotateSource != 0 ==> Before(log, loop.due[rotateSource] - rotateInterval))
      && Spaced(log, rotateInterval)
    }

    /** Between attach and stop the source is live exactly while rotating. */
    ghost predicate PhaseValid()
      reads this
    {
      && (phase == Detached ==> rotateSource == 0)
      && (phase == Attached ==> (rotateSource != 0 <==> rotating && rotateInterval != 0))
    }

    ghost predicate Valid()
      reads this, loop, window, window.menu
    {
      ClockValid() && PhaseValid() && window.Valid()
    }

    constructor (window: Window, rotateInterval: int, startDashboard: string)
      requires window.Valid()
      requires rotateInterval == 0 || rotateInterval >= 5
      ensures Valid() && fresh(loop) && loop.due == map[]
      ensures this.window == window && this.rotateInterval == rotateInterval && this.startDashboard == startDashboard
      ensures phase == Detached && log == [] && rotating == (rotateInterval != 0)
    {
      this.window, this.rotateInterval, this.startDashboard := window, rotateInterval, startDashboard;
      loop := new MainLoop();
      rotateSource, rotating, serverDefault := 0, rotateInterval != 0, None;
      phase, log := Detached, [];
    }

    // ----- the carousel clock

    method CancelRotation()
      requires ClockValid()
      modifies `rotateSource, loop
      ensures ClockValid() && rotateSource == 0
    {
      if rotateSource != 0 {
        loop.SourceRemove(rotateSource);
        rotateSource := 0;
      }
    }

    method ApplyRotation(now: int)
      requires ClockValid() && Before(log, now)
      modifies `rotateSource, loop
      ensures ClockValid()
      ensures rotateSource != 0 <==> rotating && rotateInterval != 0
      ensures rotateSource != 0 ==> loop.due[rotateSource] == now + rotateInterval
    {
      CancelRotation();
      if !(rotating && rotateInterval != 0) {
        return;
      }
      rotateSource := loop.TimeoutAdd(now, rotateInterval);
    }

    method Attach(now: int)
      requires Valid() && phase == Detached && Before(log, now)
      modifies `rotateSource, `phase, loop
      ensures Valid() && phase == Attached && log == old(log)
      ensures rotateSource != 0 ==> loop.due[rotateSource] == now + rotateInterval
    {
      phase := Attached;
      ApplyRotation(now);
    }

    method RestartRotationClock(now: int)
      requires ClockValid() && Before(log, now)
      modifies `rotateSource, loop
      ensures ClockValid()
      ensures rotateSource != 0 <==> old(rotateSource) != 0 && rotating
      ensures rotateSource != 0 ==> loop.due[rotateSource] == now + rotateInterval
    {
      if rotateSource != 0 {
        ApplyRotation(now);
      }
    }

    method ToggleRotation(now: int)
      requires ClockValid() && Before(log, now)
      modifies `rotateSource, `rotating, loop
      ensures ClockValid()
      ensures rotating == (if rotateInterval == 0 then old(rotating) else !old(rotating))
      ensures rotateInterval == 0 ==> rotateSource == 0
      ensures rotateInterval != 0 ==> (rotateSource != 0 <==> rotating)
      ensures rotateSource != 0 ==> loop.due[rotateSource] == now + rotateInterval
    {
      if rotateInterval == 0 {
        return;
      }
      rotating := !rotating;
      ApplyRotation(now);
    }

    /** An action from the remote, at the moment the main loop takes it up. */
    method Dispatch(action: Action, now: int)
      requires Valid() && phase != Detached && Before(log, now)
      modifies this, loop, window, window.menu
      ensures Valid() && phase == old(phase) && log == old(log) + [Remote(now)]
      ensures window.State() == if action.RotateToggle? then old(window.State())
                                else OnPress(old(window.State()), action)
      ensures rotateSource != 0 ==> loop.due[rotateSource] == now + rotateInterval
    {
      hide OnPress, Spaced, Before, Window.Valid;
      RemoteNext(log, now, rotateInterval);
      if action.RotateToggle? {
        ToggleRotation(now);
        log := log + [Remote(now)];
        return;
      }
      RestartRotationClock(now);
      log := log + [Remote(now)];
      window.HandleAction(action);
    }

    /** The rotate source fires, not before it is due. */
    method Rotate(now: int)
      requires Valid() && rotateSource != 0 && now >= loop.due[rotateSource]
      modifies this, loop, window, window.menu
      ensures Valid() && phase == old(phase) && rotating == old(rotating)
      ensures log == old(log) + [Advance(now)]
      ensures rotateSource == old(rotateSource) && loop.due[rotateSource] == now + rotateInterval
      ensures window.State() == OnPress(old(window.State()), DashboardNext)
    {
      hide OnPress, Spaced, Window.Valid;
      SpacedNext(log, now, rotateInterval);
      log := log + [Advance(now)];
      window.HandleAction(DashboardNext);
      loop.Rearm(rotateSource, now, rotateInterval);
    }

    method Stop()
      requires Valid()
      modifies `rotateSource, `phase, loop
      ensures Valid() && phase == Stopped && rotateSource == 0 && loop.due == map[] && log == old(log)
    {
      CancelRotation();
      phase := Stopped;
    }

    // ----- dashboards

    method ApplyConfig(c: ClientConfig, fromCache: bool)
      requires Valid()
      modifies this, window, window.menu
      ensures Valid() && phase == old(phase) && log == old(log)
      ensures window.State() == Navigation.Apply(old(window.State()), c.dashboards, fromCache,
                                                 Wanted(startDashboard, c.defaultId))
    {
      hide Window.Valid, SetDashboards, SelectStart, Before, Spaced;
      if fromCache && c.dashboards == [] {
        return;
      }
      var hadNone := window.dashboards == [];
      serverDefault := c.defaultId;
      window.SetDashboards(c.dashboards, true);
      if hadNone {
        SelectStartDashboard();
      }
    }

    method SelectStartDashboard()
      requires Valid()
      modifies window
      ensures Valid()
      ensures window.State() == SelectStart(old(window.State()), Wanted(startDashboard, serverDefault))
    {
      var wanted := Wanted(startDashboard, serverDefault);
      if wanted == "" {
        return;
      }
      var index := window.Position(window.dashboards, Id(wanted));
      if index < |window.dashboards| {
        window.GoTo(index);
      }
    }
  }

  /** The device's own setting wins over the server's; either may be unset. */
  function Wanted(startDashboard: string, serverDefault: Option<string>): string {
    if startDashboard != "" then startDashboard
    else if serverDefault.Some? then serverDefault.value
    else ""
  }

  /** The device's own setting decides, listed or not; the server's only where the device has
      none. */
  lemma StartChosen(n: Nav, startDashboard: string, serverDefault: Option<string>)
    requires n.boards != []
    ensures var m := SelectStart(n, Wanted(startDashboard, serverDefault));
            && m.boards == n.boards
            && (startDashboard != "" && Id(startDashboard) in Ids(n.boards) ==>
                  HasCurrent(m) && m.boards[m.current].id == Id(startDashboard))
            && (startDashboard != "" && Id(startDashboard) !in Ids(n.boards) ==> m == n)
            && (startDashboard == "" && serverDefault.None? ==> m == n)
            && (startDashboard == "" && serverDefault.Some? && serverDefault.value != "" ==>
                  if Id(serverDefault.value) in Ids(n.boards)
                  then HasCurrent(m) && m.boards[m.current].id == Id(serverDefault.value)
                  else m == n)
  {
    var own := Id(startDashboard);
    FoundIff(n.boards, own);
    InRange(Find(n.boards, own), |n.boards|);
    if serverDefault.Some? {
      FoundIff(n.boards, Id(serverDefault.value));
      InRange(Find(n.boards, Id(serverDefault.value)), |n.boards|);
    }
    hide Find, Ids;
  }

  lemma FoundIff(boards: seq<Dashboard>, id: Id)
    ensures Find(boards, id) < |boards| <==> id in Ids(boards)
  {
    if id in Ids(boards) {
      var i :| 0 <= i < |boards| && boards[i].id == id;
    }
  }

  lemma InRange(i: nat, size: nat)
    requires size > 0
    ensures i < size ==> i % size == i
  {
  }

  lemma RemoteNext(log: seq<Mark>, now: int, interval: int)
    requires Spaced(log, interval) && Before(log, now)
    ensures Spaced(log + [Remote(now)], interval) && Before(log + [Remote(now)], now + interval - interval)
  {
  }

  lemma SpacedNext(log: seq<Mark>, now: int, interval: int)
    requires Spaced(log, interval) && Before(log, now - interval)
    ensures Spaced(log + [Advance(now)], interval)
  {
  }
}
