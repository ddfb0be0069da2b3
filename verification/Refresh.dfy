/** The chains of configuration refreshes. A chain is a timer that is armed, or a refresh
  that runs, or the gap between the check for a stop and the arming of the next timer;
  threads may be preempted in that gap. */
module Refresh {
  datatype Chains = Chains(armed: nat, running: nat, passed: nat, stopped: bool, late: nat)

  datatype ChainStep = Arm | Fire | Complete | Cancel

  /** No chain yet, and not stopped. */
  const QUIET := Chains(0, 0, 0, false, 0)

  /** The check at the head of scheduling: nothing starts when stopped or switched off. */
  function Schedule(c: Chains, interval: int): Chains {
    if c.stopped || interval == 0 then c else c.(passed := c.passed + 1)
  }

  function Advance(c: Chains, s: ChainStep, interval: int): Chains {
    match s
    case Arm => if c.passed > 0 then c.(passed := c.passed - 1, armed := c.armed + 1) else c
    case Fire =>
      if c.armed > 0 then
        c.(armed := c.armed - 1, running := c.running + 1, late := if c.stopped then c.late + 1 else c.late)
      else c
    case Complete => if c.running > 0 then Schedule(c.(running := c.running - 1), interval) else c
    case Cancel => if c.stopped && c.armed > 0 then c.(armed := c.armed - 1) else c
  }

  function Live(c: Chains): nat {
    c.armed + c.running + c.passed
  }

  /** Refreshes started since the stop, and those a chain past its check may still start. */
  function Owed(c: Chains): nat {
    c.late + c.armed + c.passed
  }

  /** A chain goes on for ever until the stop; afterwards it owes at most one refresh. */
  lemma AdvanceKeeps(c: Chains, s: ChainStep, interval: int)
    requires interval != 0
    ensures var d := Advance(c, s, interval);
            && d.stopped == c.stopped
            && (!c.stopped ==> Live(d) == Live(c) && d.late == c.late)
            && (c.stopped ==> Owed(d) <= Owed(c) && Live(d) <= Live(c))
  {
  }

  function Remaining(c: Chains): nat {
    3 * c.passed + 2 * c.armed + c.running
  }

  function RunChains(c: Chains, steps: seq<ChainStep>, interval: int): Chains {
    if steps == [] then c else Advance(RunChains(c, steps[..|steps| - 1], interval), steps[|steps| - 1], interval)
  }

  /** The number of steps of a run that actually did something. */
  function Effective(c: Chains, steps: seq<ChainStep>, interval: int): nat {
    if steps == [] then 0
    else
      var before := RunChains(c, steps[..|steps| - 1], interval);
      Effective(c, steps[..|steps| - 1], interval)
      + if Advance(before, steps[|steps| - 1], interval) == before then 0 else 1
  }

  /** After the stop the chains run dry: every run does at most `Remaining` things, starts
      at most one more refresh for each chain not already refreshing, and re-arms only a
      chain that had passed its check before the stop. */
  lemma {:induction false} Drains(c: Chains, steps: seq<ChainStep>, interval: int)
    requires c.stopped
    ensures var d := RunChains(c, steps, interval);
            && d.stopped
            && Effective(c, steps, interval) + Remaining(d) <= Remaining(c)
            && d.late <= c.late + c.armed + c.passed
            && d.late + d.armed + d.passed <= c.late + c.armed + c.passed
            && d.passed <= c.passed
  {
    if steps != [] {
      Drains(c, steps[..|steps| - 1], interval);
    }
  }

  /** Cancelling every timer that is armed leaves only the refreshes under way, and none of
      the timers ever fires. */
  lemma {:induction false} CancelsAll(c: Chains, steps: seq<ChainStep>, interval: int)
    requires c.stopped && |steps| == c.armed && forall i :: 0 <= i < |steps| ==> steps[i].Cancel?
    ensures RunChains(c, steps, interval) == c.(armed := 0)
  {
    Cancelled(c, steps, interval);
  }

  lemma {:induction false} Cancelled(c: Chains, steps: seq<ChainStep>, interval: int)
    requires c.stopped && |steps| <= c.armed && forall i :: 0 <= i < |steps| ==> steps[i].Cancel?
    ensures RunChains(c, steps, interval) == c.(armed := c.armed - |steps|)
  {
    if steps != [] {
      Cancelled(c, steps[..|steps| - 1], interval);
    }
  }
}
