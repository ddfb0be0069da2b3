/** Exactly when the token is lost, and what a loss means. */
module Losses {
  import opened Text
  import opened Settings
  import opened Enrolment
  import opened Tokens
  import opened Identity

  /** Nobody but the client sets the token or the device id, and an invented id is written
      down. */
  ghost predicate SureRun(steps: seq<Step>, host: Host) {
    && SteadyRun(steps, host)
    && forall i :: 0 <= i < |steps| ==> Undisturbed(Go(FRESH, steps[..i], host), steps[i], host, ApiToken)
  }

  /** A token that was issued belongs to an approved record. */
  ghost predicate Booked(w: World) {
    w.server.issued != [] ==>
      exists id :: id in w.server.records && w.server.records[id].approved && w.server.records[id].delivered
  }

  lemma BookedStep(w: World, s: Step, host: Host)
    requires Booked(w)
    ensures Booked(Take(w, s, host))
  {
    hide Loadable, UuidText, Started, StartedSelf, Recorded, Moves, ServerAddress.Normalise, Requestable, GoodToken;
    if w.server.issued != [] {
      var id :| id in w.server.records && w.server.records[id].approved && w.server.records[id].delivered;
      var server := Take(w, s, host).server;
      assert id in server.records && server.records[id].approved && server.records[id].delivered;
    } else if s.Serve? && w.proc.Some? && w.proc.value.flight.Asked? {
      var id, server := w.proc.value.flight.snap.deviceId, Take(w, s, host).server;
      assert server.issued != [] ==> id in server.records && server.records[id].approved && server.records[id].delivered;
    }
  }

  /** The first loss: the token is nowhere on disk and the server will not repeat it. */
  lemma LossGone(w: World, s: Step, host: Host)
    requires Conserved(w) && Same(w, host) && Booked(w) && Loses(w, s)
    ensures var v, id := Take(w, s, host), LoadedId(w, host);
            && Gone(v, id, true, host) && LoadedId(v, host) == id && |v.server.issued| == 1
            && (!s.Save? ==> Stranded(v, id, host))
  {
    hide TextSetting, Entries, EnvEntries, StrongId, Mirrors, TokensGood, Requestable, GoodToken;
    assert w.proc.Some?;
  }

  lemma CarefulSnoc(steps: seq<Step>, host: Host)
    requires steps != []
    ensures var front, last := steps[..|steps| - 1], steps[|steps| - 1];
            CarefulRun(steps, host) <==> CarefulRun(front, host) && Careful(Go(FRESH, front, host), last, host)
  {
    hide Careful, Go;
    var front := steps[..|steps| - 1];
    assert forall i :: 0 <= i < |front| ==> steps[..i] == front[..i] && steps[i] == front[i];
    if CarefulRun(steps, host) {
      forall i | 0 <= i < |front|
        ensures Careful(Go(FRESH, front[..i], host), front[i], host)
      {
        assert front[..i] == steps[..i];
      }
    }
  }

  lemma SurePrefix(steps: seq<Step>, host: Host)
    requires SureRun(steps, host) && steps != []
    ensures var front, last := steps[..|steps| - 1], steps[|steps| - 1];
            && SureRun(front, host) && Steady(Go(FRESH, front, host), last, host)
            && Undisturbed(Go(FRESH, front, host), last, host, ApiToken)
  {
    hide Steady, Undisturbed, Go;
    var front := steps[..|steps| - 1];
    forall i | 0 <= i < |front|
      ensures Steady(Go(FRESH, front[..i], host), front[i], host)
      ensures Undisturbed(Go(FRESH, front[..i], host), front[i], host, ApiToken)
    {
      assert front[..i] == steps[..i];
    }
  }

  /** Either nothing was lost so far, or the token is gone for good. */
  ghost predicate Decided(w: World, careful: bool, host: Host) {
    && WorldOk(w) && Same(w, host) && Booked(w)
    && if careful then Conserved(w) else Gone(w, LoadedId(w, host), true, host) && |w.server.issued| == 1
  }

  lemma {:induction false} RunDecided(steps: seq<Step>, host: Host)
    requires SureRun(steps, host)
    ensures Decided(Go(FRESH, steps, host), CarefulRun(steps, host), host)
  {
    if steps == [] {
      FreshDecided(host);
    } else {
      var front, last := steps[..|steps| - 1], steps[|steps| - 1];
      SurePrefix(steps, host);
      CarefulSnoc(steps, host);
      hide SureRun, CarefulRun, Decided, Take, Careful, Steady, Undisturbed;
      RunDecided(front, host);
      StepDecided(Go(FRESH, front, host), last, CarefulRun(front, host), host);
    }
  }

  lemma FreshDecided(host: Host)
    ensures Decided(FRESH, true, host)
  {
    var nothing: seq<Step> := [];
    RunSame(nothing, host);
    CarefulRunConserves(nothing, host);
  }

  lemma StepDecided(w: World, s: Step, careful: bool, host: Host)
    requires Decided(w, careful, host) && Steady(w, s, host) && Undisturbed(w, s, host, ApiToken)
    ensures Decided(Take(w, s, host), careful && Careful(w, s, host), host)
  {
    hide WorldOk, Booked, Conserved, Same, Gone, Loses, Undisturbed, Take;
    TakeOk(w, s, host);
    StepSame(w, s, host);
    BookedStep(w, s, host);
    if careful && !Loses(w, s) {
      CarefulStep(w, s, host);
    } else if careful {
      LossGone(w, s, host);
    } else {
      GoneStep(w, s, LoadedId(w, host), true, host);
      GoneId(Take(w, s, host), LoadedId(w, host), host);
    }
  }

  lemma GoneId(w: World, id: string, host: Host)
    requires Gone(w, id, true, host)
    ensures LoadedId(w, host) == id
  {
  }

  /** The law of the token, for every run in which nobody else sets the token or the id: the
      server issues at most one, and once one is issued it is on disk, outside the moment
      between hearing and saving, exactly when no step of the run lost it. On disk every
      later start finds it; otherwise the next start finds none. */
  lemma TokenKeptIff(steps: seq<Step>, host: Host, uuid: string, offered: string)
    requires SureRun(steps, host) && ApiToken !in EnvEntries(host.env)
    ensures var w := Go(FRESH, steps, host);
            && |w.server.issued| <= 1
            && (w.server.issued != [] && !Carrying(w) ==>
                  && (ApiToken in Entries(w.self) <==> CarefulRun(steps, host))
                  && Started(w.self, w.config, host, uuid, offered).id.token
                     == if CarefulRun(steps, host) then w.server.issued[0] else "")
            && (!CarefulRun(steps, host) ==> w.server.issued != [] && !Carrying(w))
  {
    RunDecided(steps, host);
    var w := Go(FRESH, steps, host);
    if CarefulRun(steps, host) {
      TokenConservation(steps, host, uuid, offered);
    } else {
      hide Go, CarefulRun, Same, WorldOk, Booked;
      GoneReads(w, LoadedId(w, host), host, uuid, offered);
    }
  }

  lemma GoneReads(w: World, id: string, host: Host, uuid: string, offered: string)
    requires Gone(w, id, true, host) && ApiToken !in EnvEntries(host.env)
    ensures ApiToken !in Entries(w.self) && !Carrying(w)
    ensures Started(w.self, w.config, host, uuid, offered).id.token == ""
  {
    UnsetReads(ApiToken, w.self, w.config, host);
    hide Entries, EnvEntries, TextSetting, Setting, StrongId, Interval, Discovery.ParseOption, Mirrors;
  }

  // ----- the ledger, whatever happens to the device's id

  /** Nobody but the client sets the token. */
  ghost predicate UntouchedRun(steps: seq<Step>, host: Host) {
    forall i :: 0 <= i < |steps| ==> Undisturbed(Go(FRESH, steps[..i], host), steps[i], host, ApiToken)
  }

  ghost function LostTokens(steps: seq<Step>, host: Host): nat {
    if steps == [] then 0
    else LostTokens(steps[..|steps| - 1], host) + One(Loses(Go(FRESH, steps[..|steps| - 1], host), steps[|steps| - 1]))
  }

  /** The process has this token, or is about to write it into its configuration. */
  predicate HasToken(p: Proc, token: string) {
    p.id.token == token || (p.flight.Returned? && p.flight.next.token == token && Delivers(p.flight.reply))
  }

  ghost predicate OnDisk(w: World)
    requires ApiToken in Entries(w.self)
  {
    && Entries(w.self)[ApiToken].Str? && GoodToken(Entries(w.self)[ApiToken].s) && !Carrying(w)
    && (w.proc.Some? ==> HasToken(w.proc.value, Entries(w.self)[ApiToken].s))
  }

  ghost predicate Ledger(w: World, lost: nat) {
    && WorldOk(w) && FileOk(w) && TokensGood(w.server)
    && (Carrying(w) ==> GoodToken(w.proc.value.flight.reply.registration.token))
    && (ApiToken in Entries(w.self) ==> OnDisk(w))
    && |w.server.issued| == lost + One(ApiToken in Entries(w.self) || Carrying(w))
  }

  /** A process that has its token neither asks nor hears. */
  lemma HasNoFlight(p: Proc, token: string)
    requires ProcOk(p) && HasToken(p, token) && token != ""
    ensures !p.flight.Asked? && !p.flight.Heard?
    ensures p.flight.Returned? ==> p.flight.next.token == token
  {
  }

  lemma LedgerBoot(w: World, uuid: string, offered: string, written: bool, lost: nat, host: Host)
    requires Ledger(w, lost) && w.proc.None? && ApiToken !in EnvEntries(host.env)
    ensures var v := w.(proc := Some(Started(w.self, w.config, host, uuid, offered)),
                        self := StartedSelf(w.self, w.config, host, uuid, offered, written));
            WorldOk(v) ==> Ledger(v, lost)
  {
    StartedSelfToken(w.self, w.config, host, uuid, offered, written);
    hide TextSetting, StartedSelf, Entries, EnvEntries, StrongId, Setting, Interval, Discovery.ParseOption, WorldOk, Mirrors,
         TokensGood, Trimmed;
    if ApiToken in Entries(w.self) {
      SetReads(ApiToken, w.self, w.config, host, Entries(w.self)[ApiToken].s);
    }
  }

  lemma LedgerServe(w: World, outcome: Outcome, lost: nat)
    requires Ledger(w, lost) && w.proc.Some? && w.proc.value.flight.Asked?
    ensures var (p, server) := Served(w.proc.value, w.server, outcome);
            var v := w.(proc := Some(p), server := server);
            WorldOk(v) ==> Ledger(v, lost + One(Loses(w, Serve(outcome))))
  {
    if ApiToken in Entries(w.self) {
      HasNoFlight(w.proc.value, Entries(w.self)[ApiToken].s);
    }
    hide Entries, Mirrors, WorldOk, Trimmed, Requestable;
  }

  lemma LedgerSave(w: World, written: bool, lost: nat, host: Host)
    requires Ledger(w, lost) && w.proc.Some? && w.proc.value.flight.Heard?
    ensures var v := Take(w, Save(written), host);
            WorldOk(v) ==> Ledger(v, lost + One(Loses(w, Save(written))))
  {
    if ApiToken in Entries(w.self) {
      HasNoFlight(w.proc.value, Entries(w.self)[ApiToken].s);
    }
    hide Entries, Recorded, WorldOk, TokensGood, Trimmed;
    if Carrying(w) {
      RecordedEntries(w.self, ApiToken, w.proc.value.flight.reply.registration.token);
    }
  }

  lemma LedgerSubmit(w: World, text: string, written: bool, lost: nat, host: Host)
    requires Ledger(w, lost)
    ensures var v := Take(w, Submit(text, written), host);
            WorldOk(v) ==> Ledger(v, lost)
  {
    hide Entries, Recorded, WorldOk, TokensGood, ServerAddress.Normalise, GoodToken;
    var url := ServerAddress.Normalise(text);
    if url != "" {
      RecordedEntries(w.self, ServerUrl, url);
    }
  }

  lemma LedgerMoves(w: World, s: Step, lost: nat)
    requires Ledger(w, lost) && w.proc.Some?
    ensures var v := w.(proc := Some(Moves(w.proc.value, s)));
            WorldOk(v) ==> Ledger(v, lost)
  {
    if ApiToken in Entries(w.self) {
      HasNoFlight(w.proc.value, Entries(w.self)[ApiToken].s);
    }
    hide Entries, Mirrors, WorldOk, TokensGood, GoodToken, Moves;
    MovesFlight(w.proc.value, s);
  }

  lemma LedgerStep(w: World, s: Step, lost: nat, host: Host)
    requires Ledger(w, lost) && Undisturbed(w, s, host, ApiToken)
    ensures Ledger(Take(w, s, host), lost + One(Loses(w, s)))
  {
    TakeOk(w, s, host);
    hide Entries, EnvEntries, WorldOk, Started, StartedSelf, Recorded, Moves, Served, Loadable, UuidText, Mirrors;
    match s
    case Boot(uuid, offered, written) =>
      if w.proc.None? && UuidText(uuid) && Loadable(w.self, w.config, host) {
        LedgerBoot(w, uuid, offered, written, lost, host);
      }
    case Approve(_, _) =>
    case Reconfigure(_) =>
    case Exit =>
    case Submit(text, written) => LedgerSubmit(w, text, written, lost, host);
    case Serve(outcome) =>
      if w.proc.Some? && w.proc.value.flight.Asked? {
        LedgerServe(w, outcome, lost);
      }
    case Save(written) =>
      if w.proc.Some? && w.proc.value.flight.Heard? {
        LedgerSave(w, written, lost, host);
      }
    case _ =>
      if w.proc.Some? {
        LedgerMoves(w, s, lost);
      }
  }

  lemma UntouchedPrefix(steps: seq<Step>, host: Host)
    requires UntouchedRun(steps, host) && steps != []
    ensures UntouchedRun(steps[..|steps| - 1], host)
    ensures Undisturbed(Go(FRESH, steps[..|steps| - 1], host), steps[|steps| - 1], host, ApiToken)
  {
    hide Undisturbed, Go;
    var front := steps[..|steps| - 1];
    forall i | 0 <= i < |front|
      ensures Undisturbed(Go(FRESH, front[..i], host), front[i], host, ApiToken)
    {
      assert front[..i] == steps[..i];
    }
  }

  lemma FreshLedger()
    ensures Ledger(FRESH, 0)
  {
  }

  lemma {:induction false} RunLedger(steps: seq<Step>, host: Host)
    requires UntouchedRun(steps, host)
    ensures Ledger(Go(FRESH, steps, host), LostTokens(steps, host))
  {
    hide Ledger, UntouchedRun, Take, Loses, Undisturbed;
    if steps == [] {
      FreshLedger();
    } else {
      var front := steps[..|steps| - 1];
      UntouchedPrefix(steps, host);
      RunLedger(front, host);
      LedgerStep(Go(FRESH, front, host), steps[|steps| - 1], LostTokens(front, host), host);
    }
  }

  /** No token is unaccounted for, in any run where nobody else sets one, whatever becomes of
      the device's id: every token the server issued was lost by exactly one step, save the
      one that is on disk, or has been heard and is about to be. */
  lemma TokenLedger(steps: seq<Step>, host: Host)
    requires UntouchedRun(steps, host)
    ensures var w := Go(FRESH, steps, host);
            |w.server.issued| == LostTokens(steps, host) + if ApiToken in Entries(w.self) || Carrying(w) then 1 else 0
  {
    RunLedger(steps, host);
    hide Go, LostTokens;
  }

  /** The first step of a run that loses the token strands the device, at once or, when only
      the save failed, at the end of the process. */
  lemma LossStrands(steps: seq<Step>, s: Step, host: Host)
    requires SureRun(steps, host) && CarefulRun(steps, host) && Loses(Go(FRESH, steps, host), s)
    ensures var w := Go(FRESH, steps, host);
            var v, id := Take(w, s, host), LoadedId(w, host);
            && (!s.Save? ==> Stranded(v, id, host))
            && Stranded(Take(v, Exit, host), id, host)
            && v.server.issued == Take(v, Exit, host).server.issued && |v.server.issued| == 1
  {
    RunDecided(steps, host);
    var w := Go(FRESH, steps, host);
    hide Go, CarefulRun, SureRun;
    LossGone(w, s, host);
    GoneExit(Take(w, s, host), LoadedId(w, host), host);
  }

  lemma GoneExit(w: World, id: string, host: Host)
    requires Gone(w, id, true, host)
    ensures Stranded(Take(w, Exit, host), id, host) && Take(w, Exit, host).server == w.server
  {
    hide TextSetting, Entries, StrongId, Mirrors;
  }

  // ----- one such run, from the factory

  lemma FactorySettings(host: Host)
    requires host.env == map[]
    ensures TextSetting(DeviceId, Absent, Absent, host) == Strip(host.hostname)
    ensures TextSetting(ServerUrl, Absent, Absent, host) == TextSetting(ApiToken, Absent, Absent, host) == ""
  {
    hide Setting, Strip, Fallback;
    NothingSet(DeviceId, host);
    NothingSet(ServerUrl, host);
    NothingSet(ApiToken, host);
    assert OutOfBox(DeviceId, host) == S(Strip(host.hostname));
    assert OutOfBox(ServerUrl, host) == S("") && OutOfBox(ApiToken, host) == S("");
    hide OutOfBox;
  }

  lemma NoOffer()
    ensures Discovery.ParseOption("") == ""
  {
  }

  /** The id a new device goes by. */
  function FirstId(uuid: string, host: Host): string {
    if StrongId(Strip(host.hostname)) then Strip(host.hostname) else DEVICE_ID_PREFIX + uuid
  }

  ghost predicate AtEntry(w: World, id: string) {
    && w.server == FRESH.server && Writable(w.self) && w.proc.Some?
    && var p := w.proc.value;
       p.id == Ident("", "", id) && p.setup && p.entry && p.flight.Grounded? && !p.chains.stopped
  }

  ghost predicate Waiting(w: World, url: string, id: string) {
    && w.server.records == map[id := Record(false, "", false)] && Writable(w.self) && w.proc.Some?
    && var p := w.proc.value;
       p.id == Ident(url, "", id) && p.flight.Grounded? && p.polls > 0 && !p.chains.stopped
  }

  ghost predicate Asking(w: World, url: string, id: string, token: string) {
    && id in w.server.records && w.server.records[id] == Record(true, token, false) && Writable(w.self)
    && w.proc.Some? && w.proc.value.flight.Asked? && w.proc.value.flight.snap == Ident(url, "", id)
  }

  lemma FirstBoot(uuid: string, host: Host)
    requires host.env == map[] && UuidText(uuid)
    ensures AtEntry(Take(FRESH, Boot(uuid, "", true), host), FirstId(uuid, host))
  {
    hide Loadable, Setting, TextSetting, StrongId, Strip, UuidText, Discovery.ParseOption;
    DefaultsLoadable(host);
    FactorySettings(host);
    NoOffer();
  }

  ghost predicate Launched(w: World, url: string, id: string) {
    && w.server == FRESH.server && Writable(w.self) && w.proc.Some?
    && var p := w.proc.value;
       p.id == Ident(url, "", id) && p.flight == Spawned(FromSetup) && p.setup && !p.chains.stopped
  }

  lemma SubmitLaunches(w: World, id: string, text: string, host: Host)
    requires AtEntry(w, id) && ServerAddress.Normalise(text) != ""
    ensures Launched(Take(w, Submit(text, true), host), ServerAddress.Normalise(text), id)
  {
    hide Recorded, ServerAddress.Normalise, Loadable, Started, StartedSelf, Moves, Served;
    RecordedObject(w.self, ServerUrl, ServerAddress.Normalise(text));
  }

  /** The setup screen registers and leaves the device waiting for its approval. */
  lemma SetupRegisters(w: World, url: string, id: string, host: Host)
    requires Launched(w, url, id) && url != "" && Requestable(url)
    ensures Waiting(Attempt(w, host), url, id)
  {
    hide Recorded, Requestable;
  }

  lemma RecordedObject(self: File, f: Field, value: string)
    requires Writable(self)
    ensures Writable(Recorded(self, f, value))
  {
  }

  /** Once the administrator has approved, the next poll asks for the token. */
  lemma PollAsks(w: World, url: string, id: string, token: string, host: Host)
    requires Waiting(w, url, id) && GoodToken(token) && url != ""
    ensures Asking(Take(Take(Take(w, Approve(id, token), host), PollFires, host), Begin, host), url, id, token)
  {
    hide Recorded, GoodToken, Settle;
  }

  /** A device is set up, approved, and polls again. */
  function Approach(uuid: string, text: string, id: string, token: string): seq<Step> {
    [Boot(uuid, "", true), Submit(text, true), Begin, Serve(Answered), Save(true), Finish,
     Approve(id, token), PollFires, Begin]
  }

  lemma Onward(w: World, steps: seq<Step>, s: Step, host: Host)
    ensures Go(w, steps + [s], host) == Take(Go(w, steps, host), s, host)
  {
    assert (steps + [s])[..|steps|] == steps;
  }

  lemma ApproachGoes(uuid: string, text: string, id: string, token: string, host: Host)
    ensures Go(FRESH, Approach(uuid, text, id, token), host)
         == Take(Take(Take(Attempt(Take(Take(FRESH, Boot(uuid, "", true), host), Submit(text, true), host), host),
                           Approve(id, token), host), PollFires, host), Begin, host)
  {
    hide Take, Attempt;
    var steps := Approach(uuid, text, id, token);
    forall n | 1 <= n <= 9
      ensures Go(FRESH, steps[..n], host) == Take(Go(FRESH, steps[..n - 1], host), steps[n - 1], host)
    {
      Onward(FRESH, steps[..n - 1], steps[n - 1], host);
      assert steps[..n] == steps[..n - 1] + [steps[n - 1]];
    }
    assert Go(FRESH, steps[..0], host) == FRESH;
    assert steps[..9] == steps;
    hide Go;
    var submitted := Go(FRESH, steps[..2], host);
    assert submitted == Take(Take(FRESH, steps[0], host), steps[1], host);
    var asked := Go(FRESH, steps[..4], host);
    assert asked == Take(Take(submitted, Begin, host), Serve(Answered), host) by {
      assert Go(FRESH, steps[..3], host) == Take(submitted, steps[2], host);
    }
    assert Go(FRESH, steps[..6], host) == Attempt(submitted, host) by {
      assert Go(FRESH, steps[..5], host) == Take(asked, steps[4], host);
      AttemptIs(submitted, host);
    }
    assert Go(FRESH, steps[..7], host) == Take(Go(FRESH, steps[..6], host), Approve(id, token), host);
  }

  lemma AttemptIs(w: World, host: Host)
    ensures Attempt(w, host) == Take(Take(Take(Take(w, Begin, host), Serve(Answered), host), Save(true), host), Finish, host)
  {
    hide Take;
  }

  lemma ApproachGentle(uuid: string, text: string, id: string, token: string, host: Host)
    requires host.env == map[]
    ensures var steps := Approach(uuid, text, id, token);
            SureRun(steps, host) && CarefulRun(steps, host)
  {
    hide Go, Entries, StrongId, TextSetting, Carrying;
  }

  /** From the factory, whatever the host name: one lost reply after nine faultless steps
      strands the device, where the reply and a save would have kept the token. */
  lemma OneLostReply(uuid: string, text: string, token: string, host: Host)
    requires host.env == map[] && UuidText(uuid) && GoodToken(token)
    requires ServerAddress.Normalise(text) != "" && Requestable(ServerAddress.Normalise(text))
    ensures var id := FirstId(uuid, host);
            var w := Go(FRESH, Approach(uuid, text, id, token), host);
            var saved := Take(Take(w, Serve(Answered), host), Save(true), host);
            && Stranded(Take(w, Serve(ReplyLost), host), LoadedId(w, host), host)
            && ApiToken in Entries(saved.self) && Entries(saved.self)[ApiToken] == Str(token)
  {
    var id, url := FirstId(uuid, host), ServerAddress.Normalise(text);
    var booted := Take(FRESH, Boot(uuid, "", true), host);
    var steps := Approach(uuid, text, id, token);
    var w := Go(FRESH, steps, host);
    hide Strip, ServerAddress.Normalise, Recorded, StrongId, UuidText, GoodToken, Take, Go, Attempt, AtEntry, Launched,
         Waiting, WorldOk, Approach, Entries, FirstId, Requestable, SureRun, CarefulRun, Gone;
    FirstBoot(uuid, host);
    SubmitLaunches(booted, id, text, host);
    SetupRegisters(Take(booted, Submit(text, true), host), url, id, host);
    PollAsks(Attempt(Take(booted, Submit(text, true), host), host), url, id, token, host);
    ApproachGoes(uuid, text, id, token, host);
    assert Asking(w, url, id, token);
    ApproachGentle(uuid, text, id, token, host);
    assert Loses(w, Serve(ReplyLost));
    LossStrands(steps, Serve(ReplyLost), host);
    HeardIsSaved(w, url, id, token, host);
  }

  lemma HeardIsSaved(w: World, url: string, id: string, token: string, host: Host)
    requires Asking(w, url, id, token) && GoodToken(token) && Requestable(url)
    ensures var saved := Take(Take(w, Serve(Answered), host), Save(true), host);
            ApiToken in Entries(saved.self) && Entries(saved.self)[ApiToken] == Str(token)
  {
    RecordedEntries(w.self, ApiToken, token);
    hide Recorded, Entries, Requestable;
  }
}
