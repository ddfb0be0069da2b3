/** What becomes of the one token the server hands out. */
module Tokens {
  import opened Text
  import opened Settings
  import opened Enrolment

  /** The hook's file sets a field only to what the client's own file already holds, as the
      mirroring of the client's values into snapd makes it do. */
  predicate Mirrors(config: File, self: File, f: Field) {
    f in Entries(config) ==> f in Entries(self) && Entries(self)[f] == Entries(config)[f]
  }

  /** Nobody but the client sets this field. */
  predicate Undisturbed(w: World, s: Step, host: Host, f: Field) {
    f !in EnvEntries(host.env) && (s.Reconfigure? ==> Mirrors(s.file, w.self, f))
  }

  /** The device is about to hear, or has heard and not yet recorded, a token. */
  predicate Carrying(w: World) {
    w.proc.Some? && w.proc.value.flight.Heard? && Delivers(w.proc.value.flight.reply)
  }

  /** A request is out whose reply will carry the token. */
  predicate Awaiting(w: World) {
    && w.proc.Some? && w.proc.value.flight.Asked? && Requestable(w.proc.value.flight.snap.url)
    && var id := w.proc.value.flight.snap.deviceId;
       id in w.server.records && w.server.records[id].approved && !w.server.records[id].delivered
  }

  /** The server serves the request, but its reply never becomes an answer. */
  predicate Unheard(outcome: Outcome) {
    outcome.ReplyLost? || outcome == Raised(true)
  }

  /** The steps by which a token goes astray: the reply that carries it is lost, it cannot
      be written down, or the process ends before it is. */
  predicate Loses(w: World, s: Step) {
    || (s.Serve? && Unheard(s.outcome) && Awaiting(w))
    || (s.Save? && !s.written && Carrying(w))
    || (s.Exit? && Carrying(w))
  }

  predicate Careful(w: World, s: Step, host: Host) {
    Undisturbed(w, s, host, ApiToken) && !Loses(w, s)
  }

  /** A run in which no token is lost and nobody but the client sets one. */
  ghost predicate CarefulRun(steps: seq<Step>, host: Host) {
    forall i :: 0 <= i < |steps| ==> Careful(Go(FRESH, steps[..i], host), steps[i], host)
  }

  // ----- what a file says about a field

  lemma RecordedEntries(self: File, f: Field, value: string)
    requires Writable(self) && value != ""
    ensures Entries(Recorded(self, f, value)) == Entries(self)[f := Str(value)]
    ensures Writable(Recorded(self, f, value))
  {
  }

  lemma UnsetReads(f: Field, self: File, config: File, host: Host)
    requires f == ApiToken && f !in EnvEntries(host.env) && f !in Entries(self) && Mirrors(config, self, f)
    ensures TextSetting(f, self, config, host) == ""
  {
  }

  lemma SetReads(f: Field, self: File, config: File, host: Host, value: string)
    requires Own(f) && f !in EnvEntries(host.env) && Mirrors(config, self, f)
    requires f in Entries(self) && Entries(self)[f] == Str(value) && Trimmed(value)
    ensures TextSetting(f, self, config, host) == value
  {
    hide Entries, EnvEntries, Strip;
    StripTrimmed(value);
  }

  // ----- conservation

  ghost predicate FileOk(w: World) {
    Writable(w.self) && Mirrors(w.config, w.self, ApiToken)
  }

  /** Nobody holds a token and none was issued. */
  ghost predicate NoneYet(w: World) {
    && w.server.issued == []
    && ApiToken !in Entries(w.self)
    && (w.proc.Some? ==>
          && w.proc.value.id.token == ""
          && (w.proc.value.flight.Heard? || w.proc.value.flight.Returned? ==> !Delivers(w.proc.value.flight.reply)))
  }

  /** The issued token has been heard and is about to be recorded. */
  ghost predicate InHand(w: World) {
    && Carrying(w) && ApiToken !in Entries(w.self)
    && w.server.issued == [w.proc.value.flight.reply.registration.token]
  }

  /** The issued token is on disk, and in memory or on its way there. */
  ghost predicate Kept(w: World) {
    && |w.server.issued| == 1
    && ApiToken in Entries(w.self) && Entries(w.self)[ApiToken] == Str(w.server.issued[0])
    && !Carrying(w)
    && (w.proc.Some? ==>
          || w.proc.value.id.token == w.server.issued[0]
          || (w.proc.value.flight.Returned? && w.proc.value.flight.next.token == w.server.issued[0]
              && Delivers(w.proc.value.flight.reply)))
  }

  ghost predicate TokensGood(server: Server) {
    && (forall t :: t in server.issued ==> GoodToken(t))
    && (forall id :: id in server.records && server.records[id].approved ==> GoodToken(server.records[id].token))
  }

  ghost predicate Conserved(w: World) {
    && WorldOk(w) && FileOk(w) && TokensGood(w.server)
    && w.server.late == 0
    && (NoneYet(w) || InHand(w) || Kept(w))
  }

  lemma BootConserves(w: World, uuid: string, offered: string, written: bool, host: Host)
    requires Conserved(w) && w.proc.None? && ApiToken !in EnvEntries(host.env)
    ensures var v := w.(proc := Some(Started(w.self, w.config, host, uuid, offered)),
                        self := StartedSelf(w.self, w.config, host, uuid, offered, written));
            FileOk(v) && (NoneYet(v) || Kept(v))
  {
    StartedSelfToken(w.self, w.config, host, uuid, offered, written);
    hide TextSetting, StartedSelf, Entries, EnvEntries, StrongId, Setting, Interval, Discovery.ParseOption, GoodToken;
    if NoneYet(w) {
      UnsetReads(ApiToken, w.self, w.config, host);
    } else {
      KeptTrimmed(w);
      SetReads(ApiToken, w.self, w.config, host, w.server.issued[0]);
    }
  }

  lemma KeptTrimmed(w: World)
    requires Kept(w) && TokensGood(w.server)
    ensures Trimmed(w.server.issued[0]) && w.server.issued[0] != ""
  {
    assert w.server.issued[0] in w.server.issued;
  }

  lemma StartedSelfToken(self: File, config: File, host: Host, uuid: string, offered: string, written: bool)
    requires Writable(self) && Mirrors(config, self, ApiToken)
    ensures var next := StartedSelf(self, config, host, uuid, offered, written);
            && Writable(next) && Mirrors(config, next, ApiToken)
            && (ApiToken in Entries(next) <==> ApiToken in Entries(self))
            && (ApiToken in Entries(self) ==> Entries(next)[ApiToken] == Entries(self)[ApiToken])
  {
    hide TextSetting, Entries, StrongId, Setting, Recorded, Discovery.ParseOption;
    var id, url := DEVICE_ID_PREFIX + uuid, Discovery.ParseOption(offered);
    RecordedEntries(self, DeviceId, id);
    RecordedEntries(Recorded(self, DeviceId, id), ServerUrl, if url == "" then "x" else url);
    RecordedEntries(self, ServerUrl, if url == "" then "x" else url);
  }

  /** An address taken from the network is written down, so that later starts find it. */
  lemma OfferSticks(self: File, config: File, host: Host, uuid: string, offered: string)
    requires Writable(self) && TextSetting(ServerUrl, self, config, host) == ""
    requires Started(self, config, host, uuid, offered).id.url != ""
    ensures var next := StartedSelf(self, config, host, uuid, offered, true);
            && ServerUrl in Entries(next)
            && Entries(next)[ServerUrl] == Str(Started(self, config, host, uuid, offered).id.url)
  {
    hide TextSetting, Entries, StrongId, Recorded, Discovery.ParseOption;
    var id, url := DEVICE_ID_PREFIX + uuid, Discovery.ParseOption(offered);
    RecordedEntries(self, DeviceId, id);
    RecordedEntries(Recorded(self, DeviceId, id), ServerUrl, url);
    RecordedEntries(self, ServerUrl, url);
  }

  lemma ServeConserves(w: World, outcome: Outcome)
    requires Conserved(w) && w.proc.Some? && w.proc.value.flight.Asked? && !Loses(w, Serve(outcome))
    ensures var (p, server) := Served(w.proc.value, w.server, outcome);
            var v := w.(proc := Some(p), server := server);
            TokensGood(server) && server.late == 0 && (NoneYet(v) || InHand(v))
  {
    if Kept(w) {
      KeptTrimmed(w);
    }
    hide Entries, Mirrors, Trimmed;
    assert NoneYet(w);
  }

  lemma SaveConserves(w: World, written: bool, host: Host)
    requires Conserved(w) && w.proc.Some? && w.proc.value.flight.Heard? && (Carrying(w) ==> written)
    ensures var v := Take(w, Save(written), host);
            FileOk(v) && (NoneYet(v) || Kept(v))
  {
    hide Entries, Recorded, ProcOk;
    if Carrying(w) {
      RecordedEntries(w.self, ApiToken, w.proc.value.flight.reply.registration.token);
    } else {
    }
  }

  lemma SubmitConserves(w: World, text: string, written: bool, host: Host)
    requires Conserved(w)
    ensures var v := Take(w, Submit(text, written), host);
            FileOk(v) && (NoneYet(v) || InHand(v) || Kept(v))
  {
    hide Entries, Recorded, ServerAddress.Normalise;
    var url := ServerAddress.Normalise(text);
    if url != "" {
      RecordedEntries(w.self, ServerUrl, url);
    }
  }

  lemma MovesConserve(w: World, s: Step)
    requires Conserved(w) && w.proc.Some?
    ensures var v := w.(proc := Some(Moves(w.proc.value, s)));
            NoneYet(v) || InHand(v) || Kept(v)
  {
    if Kept(w) {
      KeptTrimmed(w);
    }
    hide Entries, Mirrors, TokensGood;
  }

  lemma CarefulStep(w: World, s: Step, host: Host)
    requires Conserved(w) && Careful(w, s, host)
    ensures Conserved(Take(w, s, host))
  {
    TakeOk(w, s, host);
    hide Entries, EnvEntries, WorldOk, Started, StartedSelf, Recorded, Moves, Served;
    match s
    case Boot(uuid, offered, written) =>
      if w.proc.None? && UuidText(uuid) && Loadable(w.self, w.config, host) {
        BootConserves(w, uuid, offered, written, host);
      }
    case Approve(id, token) =>
    case Reconfigure(_) =>
    case Exit =>
    case Submit(text, written) => SubmitConserves(w, text, written, host);
    case Serve(outcome) =>
      if w.proc.Some? && w.proc.value.flight.Asked? {
        ServeConserves(w, outcome);
      }
    case Save(written) =>
      if w.proc.Some? && w.proc.value.flight.Heard? {
        SaveConserves(w, written, host);
      }
    case _ =>
      if w.proc.Some? {
        MovesConserve(w, s);
      }
  }

  lemma {:induction false} CarefulRunConserves(steps: seq<Step>, host: Host)
    requires CarefulRun(steps, host)
    ensures Conserved(Go(FRESH, steps, host))
  {
    if steps != [] {
      var n := |steps| - 1;
      assert CarefulRun(steps[..n], host) by {
        forall i | 0 <= i < n
          ensures Careful(Go(FRESH, steps[..n][..i], host), steps[..n][i], host)
        {
          assert steps[..n][..i] == steps[..i];
        }
      }
      CarefulRunConserves(steps[..n], host);
      CarefulStep(Go(FRESH, steps[..n], host), steps[n], host);
    }
  }

  /** In every careful run, over any number of boots: the server issues at most one token
      and hears from the device no more once it has; and outside the one moment between
      hearing and saving, an issued token is on disk, where every later start finds it. */
  lemma TokenConservation(steps: seq<Step>, host: Host, uuid: string, offered: string)
    requires CarefulRun(steps, host) && ApiToken !in EnvEntries(host.env)
    ensures var w := Go(FRESH, steps, host);
            && |w.server.issued| <= 1 && w.server.late == 0
            && (w.server.issued != [] && !Carrying(w) ==>
                  && ApiToken in Entries(w.self) && Entries(w.self)[ApiToken] == Str(w.server.issued[0])
                  && Started(w.self, w.config, host, uuid, offered).id.token == w.server.issued[0])
  {
    CarefulRunConserves(steps, host);
    var w := Go(FRESH, steps, host);
    hide Go, Entries, EnvEntries, TextSetting, Setting, StrongId, Interval, Discovery.ParseOption;
    if Kept(w) {
      KeptTrimmed(w);
      SetReads(ApiToken, w.self, w.config, host, w.server.issued[0]);
    }
  }

  // ----- and if it is lost

  ghost predicate GoneProc(p: Proc, id: string, memory: bool) {
    && p.id.deviceId == id && (memory || p.id.token == "")
    && match p.flight
       case Grounded => true
       case Spawned(_) => true
       case Asked(_, snap) => snap == p.id
       case Heard(_, snap, reply) => snap == p.id && !Delivers(reply)
       case Returned(_, reply, next) => next.deviceId == id && (memory || (next == p.id && !Delivers(reply)))
  }

  /** The server has delivered this device's token and it is not on disk; with `memory` the
      running process may still hold it. */
  ghost predicate Gone(w: World, id: string, memory: bool, host: Host) {
    && Writable(w.self) && Mirrors(w.config, w.self, ApiToken) && Mirrors(w.config, w.self, DeviceId)
    && ApiToken !in Entries(w.self)
    && StrongId(id) && TextSetting(DeviceId, w.self, w.config, host) == id
    && id in w.server.records && w.server.records[id].approved && w.server.records[id].delivered
    && (w.proc.Some? ==> GoneProc(w.proc.value, id, memory))
  }

  /** The server has delivered this device's token and the device has it nowhere. */
  ghost predicate Stranded(w: World, id: string, host: Host) {
    Gone(w, id, false, host)
  }

  predicate Quiet(w: World, s: Step, host: Host) {
    Undisturbed(w, s, host, ApiToken) && Undisturbed(w, s, host, DeviceId)
  }

  lemma DeviceIdUnmoved(self: File, config: File, host: Host, value: string)
    requires Writable(self) && value != "" && Mirrors(config, self, DeviceId) && Mirrors(config, self, ApiToken)
    requires ApiToken !in Entries(self)
    ensures var next := Recorded(self, ServerUrl, value);
            && TextSetting(DeviceId, next, config, host) == TextSetting(DeviceId, self, config, host)
            && Mirrors(config, next, DeviceId) && Mirrors(config, next, ApiToken)
            && ApiToken !in Entries(next) && Writable(next)
  {
    RecordedEntries(self, ServerUrl, value);
    hide Entries, EnvEntries, Recorded, Coerce;
  }

  lemma SameDeviceId(self: File, a: File, b: File, host: Host)
    requires Mirrors(a, self, DeviceId) && Mirrors(b, self, DeviceId)
    ensures TextSetting(DeviceId, self, a, host) == TextSetting(DeviceId, self, b, host)
  {
    hide Entries, EnvEntries, Coerce;
  }

  lemma GoneBoot(w: World, uuid: string, offered: string, written: bool, id: string, memory: bool, host: Host)
    requires Gone(w, id, memory, host) && ApiToken !in EnvEntries(host.env)
    ensures var v := w.(proc := Some(Started(w.self, w.config, host, uuid, offered)),
                        self := StartedSelf(w.self, w.config, host, uuid, offered, written));
            Gone(v, id, memory, host)
  {
    UnsetReads(ApiToken, w.self, w.config, host);
    var url := Discovery.ParseOption(offered);
    if url != "" {
      DeviceIdUnmoved(w.self, w.config, host, url);
    }
    hide TextSetting, Entries, EnvEntries, Recorded, StrongId, Setting, Interval, Discovery.ParseOption, Mirrors;
  }

  lemma GoneServe(w: World, outcome: Outcome, id: string, memory: bool, host: Host)
    requires Gone(w, id, memory, host) && w.proc.Some? && w.proc.value.flight.Asked?
    ensures var (p, server) := Served(w.proc.value, w.server, outcome);
            Gone(w.(proc := Some(p), server := server), id, memory, host) && server.issued == w.server.issued
  {
    hide TextSetting, Entries, StrongId, Mirrors, Served;
    ServedFlight(w.proc.value, w.server, outcome);
  }

  lemma GoneMoves(p: Proc, s: Step, id: string, memory: bool)
    requires GoneProc(p, id, memory)
    ensures GoneProc(Moves(p, s), id, memory)
  {
    hide Moves;
    MovesFlight(p, s);
  }

  lemma GoneSubmit(w: World, text: string, written: bool, id: string, memory: bool, host: Host)
    requires WorldOk(w) && Gone(w, id, memory, host)
    ensures Gone(Take(w, Submit(text, written), host), id, memory, host)
  {
    hide ServerAddress.Normalise, Entries, TextSetting, Mirrors, Recorded, StrongId;
    var url := ServerAddress.Normalise(text);
    if url != "" {
      DeviceIdUnmoved(w.self, w.config, host, url);
    }
  }

  /** What is lost stays lost, and nothing makes the server issue again. */
  lemma GoneStep(w: World, s: Step, id: string, memory: bool, host: Host)
    requires WorldOk(w) && Gone(w, id, memory, host) && Quiet(w, s, host)
    ensures Gone(Take(w, s, host), id, memory, host) && Take(w, s, host).server.issued == w.server.issued
  {
    hide TextSetting, Entries, EnvEntries, StrongId, Mirrors, Started, StartedSelf, Moves, Served, Recorded,
         Loadable, UuidText, GoodToken, ServerAddress.Normalise;
    match s
    case Boot(uuid, offered, written) =>
      if w.proc.None? && UuidText(uuid) && Loadable(w.self, w.config, host) {
        GoneBoot(w, uuid, offered, written, id, memory, host);
      }
    case Reconfigure(file) => SameDeviceId(w.self, w.config, file, host);
    case Submit(text, written) => GoneSubmit(w, text, written, id, memory, host);
    case Serve(outcome) =>
      if w.proc.Some? && w.proc.value.flight.Asked? {
        GoneServe(w, outcome, id, memory, host);
      }
    case Approve(_, _) =>
    case Exit =>
    case Save(_) =>
    case _ =>
      if w.proc.Some? {
        GoneMoves(w.proc.value, s, id, memory);
      }
  }

  ghost predicate QuietRun(w: World, steps: seq<Step>, host: Host) {
    forall i :: 0 <= i < |steps| ==> Quiet(Go(w, steps[..i], host), steps[i], host)
  }

  /** A stranded device stays so: no run of boots, polls, setups, approvals and hooks ever
      brings the token back, and nothing it can do makes the server issue another. */
  lemma {:induction false} StrandedForever(w: World, steps: seq<Step>, id: string, host: Host)
    requires WorldOk(w) && Stranded(w, id, host) && QuietRun(w, steps, host)
    ensures var v := Go(w, steps, host);
            && WorldOk(v) && Stranded(v, id, host) && v.server.issued == w.server.issued
            && (v.proc.Some? ==> v.proc.value.id.token == "")
  {
    hide Gone, Take, WorldOk, Quiet;
    if steps != [] {
      var n := |steps| - 1;
      QuietPrefix(w, steps, host);
      StrandedForever(w, steps[..n], id, host);
      assert steps[..n] == steps[..|steps| - 1];
      GoneStep(Go(w, steps[..n], host), steps[n], id, false, host);
      TakeOk(Go(w, steps[..n], host), steps[n], host);
    }
    StrandedTokenless(Go(w, steps, host), id, host);
  }

  lemma QuietPrefix(w: World, steps: seq<Step>, host: Host)
    requires QuietRun(w, steps, host) && steps != []
    ensures QuietRun(w, steps[..|steps| - 1], host)
  {
    hide Quiet, Go;
    var front := steps[..|steps| - 1];
    forall i | 0 <= i < |front|
      ensures Quiet(Go(w, front[..i], host), front[i], host)
    {
      assert front[..i] == steps[..i];
    }
  }

  lemma StrandedTokenless(w: World, id: string, host: Host)
    requires Stranded(w, id, host)
    ensures w.proc.Some? ==> w.proc.value.id.token == ""
  {
  }
}
