/** Client and configure hook sharing one directory: every interleaving of the client's
  own writes with the steps of hook runs, interrupted ones included. */
module Provisioning {
  import opened Text
  import opened Settings

  /** How far a hook run has come: it has composed its file, kept the outgoing one, and
      put the new one in place, in this order. */
  datatype Stage = Resting | Composed | BackedUp | Swapped

  /** The files, the stage of the hook run under way, and config.json as that run found it. */
  datatype World = World(self: File, config: File, tmp: File, backup: File, stage: Stage, found: File)

  datatype Step =
    | Record(f: Field, value: string)
    | ComposeStep(snap: map<Field, string>)
    | BackupStep
    | SwapStep
    | CheckStep
    | Interrupt

  const EMPTY := World(Absent, Absent, Absent, Absent, Resting, Absent)

  /** One atomic step; a step that is not due changes nothing. */
  ghost function Take(w: World, s: Step, host: Host): World {
    match s
    case Record(f, value) =>
      if Own(f) && Writable(w.self) then w.(self := Recorded(w.self, f, value)) else w
    case ComposeStep(snap) =>
      if w.stage == Resting then w.(tmp := Generated(snap), stage := Composed, found := w.config) else w
    case BackupStep =>
      if w.stage == Composed then w.(backup := w.config, stage := BackedUp) else w
    case SwapStep =>
      if w.stage == BackedUp then w.(config := w.tmp, tmp := Absent, stage := Swapped) else w
    case CheckStep =>
      if w.stage != Swapped then w
      else if Loadable(w.self, w.config, host) then w.(backup := Absent, stage := Resting)
      else w.(config := w.backup, backup := Absent, stage := Resting)
    case Interrupt => w.(stage := Resting)
  }

  ghost function Go(w: World, steps: seq<Step>, host: Host): World {
    if steps == [] then w else Take(Go(w, steps[..|steps| - 1], host), steps[|steps| - 1], host)
  }

  ghost predicate Sound(w: World, host: Host) {
    && OwnFile(w.self)
    && (w.stage != Swapped ==> Loadable(w.self, w.config, host))
    && (w.stage == Composed || w.stage == BackedUp ==> w.found == w.config)
    && (w.stage == BackedUp ==> w.backup == w.config)
    && (w.stage == Swapped ==> w.backup == w.found && Loadable(w.self, w.found, host))
  }

  lemma TakeSound(w: World, s: Step, host: Host)
    requires Sound(w, host) && !s.Interrupt?
    ensures Sound(Take(w, s, host), host)
  {
    if s.Record? && Own(s.f) {
      hide Loadable, Recorded, OwnFile;
      OwnNotScalar(w.self);
      RecordedOwn(w.self, s.f, s.value);
      var next := Recorded(w.self, s.f, s.value);
      OwnFileIrrelevant(w.self, next, w.config, host);
      OwnFileIrrelevant(w.self, next, w.found, host);
    } else {
      hide Loadable, OwnFile, Generated;
    }
  }

  lemma OwnNotScalar(self: File)
    requires OwnFile(self)
    ensures Writable(self)
  {
  }

  /** As long as no hook run is cut short, a start from an empty directory can load its
      configuration at every moment but those between the swap and the check. */
  lemma {:induction false} AlwaysLoadable(steps: seq<Step>, host: Host)
    requires Loadable(Absent, Absent, host)
    requires forall i :: 0 <= i < |steps| ==> !steps[i].Interrupt?
    ensures Sound(Go(EMPTY, steps, host), host)
    ensures var w := Go(EMPTY, steps, host);
            w.stage != Swapped ==> Loadable(w.self, w.config, host)
  {
    if steps != [] {
      AlwaysLoadable(steps[..|steps| - 1], host);
      TakeSound(Go(EMPTY, steps[..|steps| - 1], host), steps[|steps| - 1], host);
    }
  }

  /** A rejected run leaves config.json exactly as it found it, or absent as it found it. */
  lemma RejectionRestores(steps: seq<Step>, host: Host)
    requires Loadable(Absent, Absent, host)
    requires forall i :: 0 <= i < |steps| ==> !steps[i].Interrupt?
    requires var w := Go(EMPTY, steps, host);
             w.stage == Swapped && !Loadable(w.self, w.config, host)
    ensures var w := Go(EMPTY, steps, host);
            Take(w, CheckStep, host).config == w.found
  {
    hide Loadable, Go, OwnFile;
    AlwaysLoadable(steps, host);
  }

  // ----- one run, however the client's writes fall among its steps

  ghost predicate Records(steps: seq<Step>) {
    forall i :: 0 <= i < |steps| ==> steps[i].Record?
  }

  /** Recording touches the client's file and nothing else. */
  lemma {:induction false} RecordsAlone(w: World, steps: seq<Step>, host: Host)
    requires OwnFile(w.self) && Records(steps)
    ensures var v := Go(w, steps, host);
            OwnFile(v.self) && v == w.(self := v.self)
  {
    if steps != [] {
      RecordsAlone(w, steps[..|steps| - 1], host);
      var v := Go(w, steps[..|steps| - 1], host);
      OwnNotScalar(v.self);
      if Own(steps[|steps| - 1].f) {
        RecordedOwn(v.self, steps[|steps| - 1].f, steps[|steps| - 1].value);
      }
    }
  }

  /** What the client recorded stays on disk through every hook step, interruption and write of
      its other keys. */
  lemma {:induction false} RecordStays(w: World, f: Field, value: string, steps: seq<Step>, host: Host)
    requires Own(f) && Writable(w.self)
    requires forall i :: 0 <= i < |steps| ==> !(steps[i].Record? && steps[i].f == f)
    ensures var v := Go(Take(w, Record(f, value), host), steps, host);
            v.self.Object? && f in v.self.entries && v.self.entries[f] == Str(value)
  {
    if steps != [] {
      hide Loadable, Generated;
      RecordStays(w, f, value, steps[..|steps| - 1], host);
    }
  }

  /** The world a hook run leaves, its steps spread among the client's. */
  ghost function HookRun(w: World, snap: map<Field, string>, a: seq<Step>, b: seq<Step>, c: seq<Step>, host: Host): World {
    var composed := Go(Take(w, ComposeStep(snap), host), a, host);
    var kept := Go(Take(composed, BackupStep, host), b, host);
    var swapped := Go(Take(kept, SwapStep, host), c, host);
    Take(swapped, CheckStep, host)
  }

  /** Whatever an earlier interruption left lying about, and wherever the client's writes
      fall, a complete run accepts exactly the loadable settings, and otherwise puts back
      what it found. */
  lemma HookRunAtomic(w: World, snap: map<Field, string>, a: seq<Step>, b: seq<Step>, c: seq<Step>, host: Host)
    requires w.stage == Resting && OwnFile(w.self) && Records(a) && Records(b) && Records(c)
    ensures var v := HookRun(w, snap, a, b, c, host);
            && v.stage == Resting && v.backup == Absent && v.tmp == Absent
            && v.config == if Loadable(w.self, Generated(snap), host) then Generated(snap) else w.config
  {
    hide Loadable, OwnFile, Generated, Go, Records;
    var one := Take(w, ComposeStep(snap), host);
    RecordsAlone(one, a, host);
    var two := Take(Go(one, a, host), BackupStep, host);
    RecordsAlone(two, b, host);
    var three := Take(Go(two, b, host), SwapStep, host);
    RecordsAlone(three, c, host);
    OwnFileIrrelevant(w.self, Go(three, c, host).self, Generated(snap), host);
  }

  // ----- interruptions

  /** The world a hook run leaves when it is cut short `at` some stage, its steps so far
      spread among the client's. */
  ghost function CutShort(w: World, snap: map<Field, string>, a: seq<Step>, b: seq<Step>, c: seq<Step>, at: Stage,
                          host: Host): World {
    var composed := Go(Take(w, ComposeStep(snap), host), a, host);
    var kept := Go(Take(composed, BackupStep, host), b, host);
    var swapped := Go(Take(kept, SwapStep, host), c, host);
    Take(match at
         case Resting => w
         case Composed => composed
         case BackedUp => kept
         case Swapped => swapped, Interrupt, host)
  }

  /** A hook run cut short leaves the settings as loadable as they were when it comes before
      the swap, and exactly as loadable as the new ones when it comes after. */
  lemma InterruptIff(w: World, snap: map<Field, string>, a: seq<Step>, b: seq<Step>, c: seq<Step>, at: Stage, host: Host)
    requires w.stage == Resting && OwnFile(w.self) && Records(a) && Records(b) && Records(c)
    ensures var v := CutShort(w, snap, a, b, c, at, host);
            && v.stage == Resting
            && v.config == (if at == Swapped then Generated(snap) else w.config)
            && v.tmp == (if at == Resting then w.tmp else if at == Swapped then Absent else Generated(snap))
            && v.backup == (if at == BackedUp || at == Swapped then w.config else w.backup)
            && (Loadable(v.self, v.config, host)
                <==> Loadable(w.self, if at == Swapped then Generated(snap) else w.config, host))
  {
    hide Loadable, OwnFile, Generated, Go, Records;
    var one := Take(w, ComposeStep(snap), host);
    RecordsAlone(one, a, host);
    var two := Take(Go(one, a, host), BackupStep, host);
    RecordsAlone(two, b, host);
    var three := Take(Go(two, b, host), SwapStep, host);
    RecordsAlone(three, c, host);
    var v := CutShort(w, snap, a, b, c, at, host);
    assert OwnFile(v.self);
    OwnFileIrrelevant(w.self, v.self, v.config, host);
  }

  /** A run that really does leave the directory unloadable: a value with a line break,
      cut short after the swap. */
  lemma InterruptBreaks(host: Host)
    ensures var w := CutShort(EMPTY, map[OsdName := "a\nb"], [], [], [], Swapped, host);
            w.stage == Resting && !Loadable(w.self, w.config, host)
  {
    var snap := map[OsdName := "a\nb"];
    BrokenValue(snap);
    NotJsonFails(Absent, host);
    hide Generated, Loadable, CutShort;
    InterruptIff(EMPTY, snap, [], [], [], Swapped, host);
  }

  lemma BrokenValue(snap: map<Field, string>)
    requires snap == map[OsdName := "a\nb"]
    ensures Generated(snap) == NotJson
  {
    assert SnapValue(snap, OsdName) == "a\nb" && "a\nb"[1] as int < 32;
    assert HOOK_KEYS[5] == OsdName;
  }

  lemma NotJsonFails(self: File, host: Host)
    ensures !Loadable(self, NotJson, host)
  {
  }

  /** One complete run mends unloadable settings exactly when its own can be loaded. */
  lemma StuckUntilAccepted(w: World, snap: map<Field, string>, a: seq<Step>, b: seq<Step>, c: seq<Step>, host: Host)
    requires w.stage == Resting && OwnFile(w.self) && Records(a) && Records(b) && Records(c)
    requires !Loadable(w.self, w.config, host)
    ensures var v := HookRun(w, snap, a, b, c, host);
            Loadable(v.self, v.config, host) <==> Loadable(w.self, Generated(snap), host)
  {
    hide Loadable, OwnFile, Generated, Go, Records;
    HookRunAtomic(w, snap, a, b, c, host);
    HookRunOwn(w, snap, a, b, c, host);
    var v := HookRun(w, snap, a, b, c, host);
    OwnFileIrrelevant(w.self, v.self, v.config, host);
  }

  /** The one step that mends: settings that can be loaded are swapped in. */
  ghost predicate Mends(w: World, s: Step, host: Host) {
    s.SwapStep? && w.stage == BackedUp && Loadable(w.self, w.tmp, host)
  }

  /** Neither the settings in place nor those a check could put back can be loaded. */
  ghost predicate Stuck(w: World, host: Host) {
    && OwnFile(w.self) && !Loadable(w.self, w.config, host)
    && (w.stage == BackedUp || w.stage == Swapped ==> !Loadable(w.self, w.backup, host))
  }

  lemma StuckStep(w: World, s: Step, host: Host)
    requires Stuck(w, host)
    ensures if Mends(w, s, host) then Loadable(Take(w, s, host).self, Take(w, s, host).config, host)
            else Stuck(Take(w, s, host), host)
  {
    if s.Record? && Own(s.f) {
      hide Loadable, Recorded, OwnFile;
      OwnNotScalar(w.self);
      RecordedOwn(w.self, s.f, s.value);
      var next := Recorded(w.self, s.f, s.value);
      OwnFileIrrelevant(w.self, next, w.config, host);
      OwnFileIrrelevant(w.self, next, w.backup, host);
    } else {
      hide Loadable, OwnFile, Generated;
    }
  }

  ghost predicate SomeMends(w: World, steps: seq<Step>, host: Host) {
    exists i :: 0 <= i < |steps| && Mends(Go(w, steps[..i], host), steps[i], host)
  }

  lemma SomeMendsSnoc(w: World, steps: seq<Step>, host: Host)
    requires steps != []
    ensures var front, last := steps[..|steps| - 1], steps[|steps| - 1];
            SomeMends(w, steps, host) <==> SomeMends(w, front, host) || Mends(Go(w, front, host), last, host)
  {
    hide Mends, Go;
    var front := steps[..|steps| - 1];
    assert forall i :: 0 <= i < |front| ==> steps[..i] == front[..i] && steps[i] == front[i];
    if SomeMends(w, front, host) {
      var i :| 0 <= i < |front| && Mends(Go(w, front[..i], host), front[i], host);
      assert steps[..i] == front[..i];
    }
  }

  /** No settings that can be loaded are ever in place. */
  ghost predicate NeverLoadable(w: World, steps: seq<Step>, host: Host) {
    forall n :: 0 <= n <= |steps| ==> !Loadable(Go(w, steps[..n], host).self, Go(w, steps[..n], host).config, host)
  }

  lemma NeverLoadableSnoc(w: World, steps: seq<Step>, host: Host)
    requires steps != []
    ensures var front, v := steps[..|steps| - 1], Go(w, steps, host);
            NeverLoadable(w, steps, host) <==> NeverLoadable(w, front, host) && !Loadable(v.self, v.config, host)
  {
    hide Loadable, Go;
    var front := steps[..|steps| - 1];
    assert forall n :: 0 <= n <= |front| ==> steps[..n] == front[..n];
    assert steps[..|steps|] == steps;
    if NeverLoadable(w, steps, host) {
      forall n | 0 <= n <= |front|
        ensures !Loadable(Go(w, front[..n], host).self, Go(w, front[..n], host).config, host)
      {
        assert steps[..n] == front[..n];
      }
    }
  }

  lemma {:induction false} StuckOrMended(w: World, steps: seq<Step>, host: Host)
    requires Stuck(w, host)
    ensures !SomeMends(w, steps, host) ==> Stuck(Go(w, steps, host), host) && NeverLoadable(w, steps, host)
    ensures SomeMends(w, steps, host) ==> !NeverLoadable(w, steps, host)
  {
    if steps != [] {
      var front, last := steps[..|steps| - 1], steps[|steps| - 1];
      StuckOrMended(w, front, host);
      SomeMendsSnoc(w, steps, host);
      NeverLoadableSnoc(w, steps, host);
      hide SomeMends, NeverLoadable, OwnFile, Loadable, Mends, Take;
      if !SomeMends(w, front, host) {
        StuckStep(Go(w, front, host), last, host);
      }
    }
  }

  /** Unloadable settings stay so through every client write, hook step and interruption,
      exactly until a hook run swaps in settings that can be loaded. */
  lemma StuckUntilMended(w: World, steps: seq<Step>, host: Host)
    requires w.stage == Resting && OwnFile(w.self) && !Loadable(w.self, w.config, host)
    ensures NeverLoadable(w, steps, host) <==> !SomeMends(w, steps, host)
  {
    hide OwnFile, Loadable, NeverLoadable, SomeMends;
    StuckOrMended(w, steps, host);
  }

  lemma HookRunOwn(w: World, snap: map<Field, string>, a: seq<Step>, b: seq<Step>, c: seq<Step>, host: Host)
    requires OwnFile(w.self) && Records(a) && Records(b) && Records(c)
    ensures OwnFile(HookRun(w, snap, a, b, c, host).self)
  {
    hide Loadable, OwnFile, Generated, Go, Records;
    var one := Take(w, ComposeStep(snap), host);
    RecordsAlone(one, a, host);
    var two := Take(Go(one, a, host), BackupStep, host);
    RecordsAlone(two, b, host);
    RecordsAlone(Take(Go(two, b, host), SwapStep, host), c, host);
  }

  // ----- a setting the hook never passes on

  ghost predicate Silent(file: File, f: Field) {
    file.Object? ==> f !in file.entries
  }

  ghost predicate AllSilent(w: World, f: Field) {
    Silent(w.self, f) && Silent(w.config, f) && Silent(w.tmp, f) && Silent(w.backup, f)
  }

  lemma {:induction false} HookSilence(steps: seq<Step>, f: Field, host: Host)
    requires f !in HOOK_KEYS && !Own(f)
    ensures AllSilent(Go(EMPTY, steps, host), f)
  {
    if steps != [] {
      HookSilence(steps[..|steps| - 1], f, host);
    }
  }

  /** `snap set dhcp-discovery=true` is documented, but the hook does not read that key:
      whatever is set, discovery is on exactly when the environment turns it on. */
  lemma DiscoveryIgnoresSnap(steps: seq<Step>, host: Host)
    ensures var w := Go(EMPTY, steps, host);
            Setting(DhcpDiscovery, w.self, w.config, host) == Setting(DhcpDiscovery, Absent, Absent, host)
    ensures DhcpDiscovery !in EnvEntries(host.env) ==>
              var w := Go(EMPTY, steps, host);
              Setting(DhcpDiscovery, w.self, w.config, host) == Some(B(false))
  {
    assert DhcpDiscovery !in HOOK_KEYS;
    HookSilence(steps, DhcpDiscovery, host);
    hide Go, Coerce;
    var w := Go(EMPTY, steps, host);
    assert DhcpDiscovery !in Entries(w.self) && DhcpDiscovery !in Entries(w.config);
  }
}
