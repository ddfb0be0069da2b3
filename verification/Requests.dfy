/** What every run puts before the server, and that every run leaves a device that can start. */
module Requests {
  import opened Settings
  import opened Refresh
  import opened Enrolment
  import opened Tokens

  // ----- requests

  /** Whether the server sees the request, whatever becomes of its reply. */
  predicate Reaches(outcome: Outcome) {
    match outcome
    case Unreached => false
    case ReplyLost => true
    case Answered => true
    case OddAnswer(_) => true
    case Raised(reached) => reached
  }

  /** The id that one step puts before the server, if any. */
  function Asks(w: World, s: Step): seq<string> {
    if s.Serve? && w.proc.Some? && w.proc.value.flight.Asked? && Requestable(w.proc.value.flight.snap.url)
       && Reaches(s.outcome)
    then [w.proc.value.flight.snap.deviceId] else []
  }

  ghost function AllAsked(w: World, steps: seq<Step>, host: Host): seq<string> {
    if steps == [] then []
    else
      var front := steps[..|steps| - 1];
      AllAsked(w, front, host) + Asks(Go(w, front, host), steps[|steps| - 1])
  }

  lemma RegisterCounts(server: Server, id: string)
    ensures var after := Register(server, id).0;
            && after.calls == server.calls + [id]
            && after.late == server.late + (if server.issued == [] then 0 else 1)
            && (server.issued != [] ==> after.issued != [])
  {
  }

  lemma StepAsks(w: World, s: Step, host: Host)
    ensures var v := Take(w, s, host);
            && v.server.calls == w.server.calls + Asks(w, s)
            && (w.server.issued != [] ==> v.server.issued != [] && v.server.late == w.server.late + |Asks(w, s)|)
  {
    hide Loadable, Started, StartedSelf, Recorded, ServerAddress.Normalise, Moves, Requestable, Register, UuidText,
         GoodToken;
    if s.Serve? && w.proc.Some? && w.proc.value.flight.Asked? {
      RegisterCounts(w.server, w.proc.value.flight.snap.deviceId);
    }
  }

  /** The server hears exactly the requests that reach it, in their order; and once it has
      issued a token, each of them counts as late. */
  lemma {:induction false} CallLedger(w: World, steps: seq<Step>, host: Host)
    ensures var v := Go(w, steps, host);
            && v.server.calls == w.server.calls + AllAsked(w, steps, host)
            && (w.server.issued != [] ==>
                  v.server.issued != [] && v.server.late == w.server.late + |AllAsked(w, steps, host)|)
  {
    if steps != [] {
      hide Take, Asks;
      var front := steps[..|steps| - 1];
      CallLedger(w, front, host);
      StepAsks(Go(w, front, host), steps[|steps| - 1], host);
    }
  }

  lemma {:induction false} GoOn(w: World, a: seq<Step>, b: seq<Step>, host: Host)
    ensures Go(w, a + b, host) == Go(Go(w, a, host), b, host)
  {
    hide Take;
    if b == [] {
      assert a + b == a;
    } else {
      var n := |b| - 1;
      assert (a + b)[..|a + b| - 1] == a + b[..n];
      GoOn(w, a, b[..n], host);
    }
  }

  /** Where no token is lost and nobody else sets one, the request that brings the token is
      the last that the server ever hears, over all later boots. */
  lemma TokenEndsCalls(a: seq<Step>, b: seq<Step>, host: Host)
    requires CarefulRun(a, host) && CarefulRun(a + b, host)
    requires Go(FRESH, a, host).server.issued != []
    ensures Go(FRESH, a + b, host).server.calls == Go(FRESH, a, host).server.calls
  {
    hide CarefulRun, Go, AllAsked;
    CarefulRunConserves(a, host);
    CarefulRunConserves(a + b, host);
    GoOn(FRESH, a, b, host);
    CallLedger(Go(FRESH, a, host), b, host);
  }

  // ----- starts

  /** The client's file holds only what the client writes, and a start would succeed. */
  ghost predicate Bootable(w: World, host: Host) {
    OwnFile(w.self) && Loadable(w.self, w.config, host)
  }

  lemma RecordedBoots(self: File, f: Field, value: string, config: File, host: Host)
    requires OwnFile(self) && Own(f) && Loadable(self, config, host)
    ensures OwnFile(Recorded(self, f, value)) && Loadable(Recorded(self, f, value), config, host)
  {
    RecordedOwn(self, f, value);
    OwnFileIrrelevant(self, Recorded(self, f, value), config, host);
  }

  lemma StartedBoots(w: World, uuid: string, offered: string, written: bool, host: Host)
    requires Bootable(w, host)
    ensures var self := StartedSelf(w.self, w.config, host, uuid, offered, written);
            OwnFile(self) && Loadable(self, w.config, host)
  {
    hide Loadable, OwnFile, Recorded, TextSetting, StrongId, Setting, Discovery.ParseOption;
    var id := DEVICE_ID_PREFIX + uuid;
    OwnWritable(w.self);
    RecordedBoots(w.self, DeviceId, id, w.config, host);
    RecordedBoots(w.self, ServerUrl, Discovery.ParseOption(offered), w.config, host);
    RecordedBoots(Recorded(w.self, DeviceId, id), ServerUrl, Discovery.ParseOption(offered), w.config, host);
  }

  lemma StepBootable(w: World, s: Step, host: Host)
    requires Bootable(w, host)
    ensures Bootable(Take(w, s, host), host)
  {
    hide Loadable, OwnFile, Started, StartedSelf, Recorded, ServerAddress.Normalise, Moves, Served, UuidText, GoodToken;
    match s
    case Boot(uuid, offered, written) => StartedBoots(w, uuid, offered, written, host);
    case Submit(text, _) => RecordedBoots(w.self, ServerUrl, ServerAddress.Normalise(text), w.config, host);
    case Save(_) =>
      if w.proc.Some? && w.proc.value.flight.Heard? && w.proc.value.flight.reply.Answer? {
        RecordedBoots(w.self, ApiToken, w.proc.value.flight.reply.registration.token, w.config, host);
      }
    case Reconfigure(file) =>
      if Loadable(w.self, file, host) {
        assert Take(w, s, host).self == w.self;
      }
    case _ =>
  }

  /** A device that could start with nothing set can start after every run, wherever it is cut
      and whatever is discovered, typed, saved or set on the way. */
  lemma {:induction false} AlwaysBootable(steps: seq<Step>, host: Host)
    requires Loadable(File.Absent, File.Absent, host)
    ensures var w := Go(FRESH, steps, host);
            Loadable(w.self, w.config, host)
    ensures Bootable(Go(FRESH, steps, host), host)
    ensures var self := Go(FRESH, steps, host).self;
            !self.Absent? ==> self.Object? && self.entries.Keys <= {ServerUrl, ApiToken, DeviceId}
  {
    hide Loadable, Take;
    if steps != [] {
      AlwaysBootable(steps[..|steps| - 1], host);
      StepBootable(Go(FRESH, steps[..|steps| - 1], host), steps[|steps| - 1], host);
    }
  }

  // ----- the stop, and an address that cannot be kept

  /** The stop takes the poll's timer away. */
  lemma StopDisarms(steps: seq<Step>, host: Host)
    requires Go(FRESH, steps, host).proc.Some?
    ensures var v := Take(Go(FRESH, steps, host), Stop, host);
            v.proc.Some? && v.proc.value.polls == 0 && v.proc.value.chains.stopped
  {
    AlwaysOk(steps, host);
    OnePoll(Go(FRESH, steps, host).proc.value);
    hide Go, ProcOk;
  }

  lemma OnePoll(p: Proc)
    requires ProcOk(p)
    ensures p.polls <= 1
  {
  }

  /** An address that could not be written down leaves everything as it was, so that the same
      entry can be submitted again. */
  lemma SubmitUnwritten(w: World, text: string, again: string, host: Host)
    ensures Take(Take(w, Submit(text, false), host), Submit(again, true), host) == Take(w, Submit(again, true), host)
  {
    hide ServerAddress.Normalise, Recorded;
  }
}
