/** The device is one device to the server, however often it boots. */
module Identity {
  import opened Text
  import opened Settings
  import opened Enrolment
  import opened Tokens

  lemma NewIdStrong(uuid: string)
    requires UuidText(uuid)
    ensures StrongId(DEVICE_ID_PREFIX + uuid) && Trimmed(DEVICE_ID_PREFIX + uuid)
  {
    var id := DEVICE_ID_PREFIX + uuid;
    assert |id| == 53 && |Lower(id)| == 53;
    assert id[0] == 'v' && id[52] == uuid[35];
  }

  /** The device id a start would load. */
  function LoadedId(w: World, host: Host): string {
    TextSetting(DeviceId, w.self, w.config, host)
  }

  /** The hook's file names no other device than the client's own, and a start that has to
      invent an id manages to write it down. */
  predicate Steady(w: World, s: Step, host: Host) {
    && Undisturbed(w, s, host, DeviceId)
    && (s.Boot? && !StrongId(LoadedId(w, host)) ==> s.written)
  }

  /** The process goes by this id. */
  ghost predicate GoesBy(p: Proc, id: string) {
    && p.id.deviceId == id
    && match p.flight
       case Asked(_, snap) => snap.deviceId == id
       case Heard(_, snap, _) => snap.deviceId == id
       case Returned(_, _, next) => next.deviceId == id
       case _ => true
  }

  /** The device has a lasting id, the process goes by it and the server has heard no other. */
  ghost predicate Known(w: World, id: string) {
    && StrongId(id)
    && (w.proc.Some? ==> GoesBy(w.proc.value, id))
    && (forall c :: c in w.server.calls ==> c == id)
    && w.server.records.Keys <= {id}
  }

  /** No start has happened yet. */
  ghost predicate Unborn(w: World) {
    w.proc.None? && w.server.calls == [] && w.server.records == map[]
  }

  ghost predicate FilesSteady(w: World) {
    Writable(w.self) && Mirrors(w.config, w.self, DeviceId)
  }

  ghost predicate Same(w: World, host: Host) {
    FilesSteady(w) && (if StrongId(LoadedId(w, host)) then Known(w, LoadedId(w, host)) else Unborn(w) && NoId(w))
  }

  /** A weak id can only come from the host name. */
  predicate NoId(w: World) {
    DeviceId !in Entries(w.self) && DeviceId !in Entries(w.config)
  }

  lemma RecordKeepsId(self: File, config: File, host: Host, f: Field, value: string)
    requires Writable(self) && value != "" && Mirrors(config, self, DeviceId) && Own(f) && f != DeviceId
    ensures var next := Recorded(self, f, value);
            && Writable(next) && Mirrors(config, next, DeviceId)
            && TextSetting(DeviceId, next, config, host) == TextSetting(DeviceId, self, config, host)
            && (DeviceId in Entries(next) <==> DeviceId in Entries(self))
  {
    RecordedEntries(self, f, value);
    hide Entries, EnvEntries, Recorded, Coerce;
  }

  lemma RecordSetsId(self: File, config: File, host: Host, id: string)
    requires Writable(self) && Trimmed(id) && id != "" && DeviceId !in EnvEntries(host.env) && DeviceId !in Entries(config)
    ensures var next := Recorded(self, DeviceId, id);
            && Writable(next) && Mirrors(config, next, DeviceId)
            && TextSetting(DeviceId, next, config, host) == id
  {
    RecordedEntries(self, DeviceId, id);
    SetReads(DeviceId, Recorded(self, DeviceId, id), config, host, id);
  }

  lemma BootSame(w: World, uuid: string, offered: string, written: bool, host: Host)
    requires Same(w, host) && w.proc.None? && UuidText(uuid) && Steady(w, Boot(uuid, offered, written), host)
    ensures Same(w.(proc := Some(Started(w.self, w.config, host, uuid, offered)),
                    self := StartedSelf(w.self, w.config, host, uuid, offered, written)), host)
  {
    hide TextSetting, StrongId, StartedSelf, Started, Mirrors;
    StartSettlesId(w, uuid, offered, written, host);
    StartedId(w.self, w.config, host, uuid, offered);
  }

  lemma StartedId(self: File, config: File, host: Host, uuid: string, offered: string)
    ensures var p := Started(self, config, host, uuid, offered);
            && p.flight == Grounded
            && p.id.deviceId == if StrongId(TextSetting(DeviceId, self, config, host))
                                then TextSetting(DeviceId, self, config, host) else DEVICE_ID_PREFIX + uuid
  {
  }

  /** After a start the files name the id the process goes by. */
  lemma StartSettlesId(w: World, uuid: string, offered: string, written: bool, host: Host)
    requires FilesSteady(w) && UuidText(uuid) && Steady(w, Boot(uuid, offered, written), host)
    requires !StrongId(LoadedId(w, host)) ==> NoId(w)
    ensures var v := w.(self := StartedSelf(w.self, w.config, host, uuid, offered, written));
            && FilesSteady(v) && StrongId(LoadedId(v, host))
            && LoadedId(v, host) == if StrongId(LoadedId(w, host)) then LoadedId(w, host) else "visiontak_client_" + uuid
  {
    hide TextSetting, Entries, EnvEntries, StrongId, Recorded, Mirrors, Setting, Discovery.ParseOption, UuidText, Trimmed;
    var strong := StrongId(LoadedId(w, host));
    var id := DEVICE_ID_PREFIX + uuid;
    NewIdStrong(uuid);
    assert id != "";
    if !strong {
      RecordSetsId(w.self, w.config, host, id);
    }
    var withId := if strong || !written then w.self else Recorded(w.self, DeviceId, id);
    assert Writable(withId) && Mirrors(w.config, withId, DeviceId);
    assert TextSetting(DeviceId, withId, w.config, host) == if strong then LoadedId(w, host) else id;
    AddressKeepsId(withId, w.config, host, Discovery.ParseOption(offered));
  }

  lemma AddressKeepsId(self: File, config: File, host: Host, url: string)
    requires Writable(self) && Mirrors(config, self, DeviceId)
    ensures var next := Recorded(self, ServerUrl, url);
            url != "" ==>
              && Writable(next) && Mirrors(config, next, DeviceId)
              && TextSetting(DeviceId, next, config, host) == TextSetting(DeviceId, self, config, host)
  {
    if url != "" {
      RecordKeepsId(self, config, host, ServerUrl, url);
    }
  }

  lemma FilesSame(w: World, f: Field, value: string, host: Host)
    requires Same(w, host) && value != "" && Own(f) && f != DeviceId
    ensures var v := w.(self := Recorded(w.self, f, value));
            FilesSteady(v) && LoadedId(v, host) == LoadedId(w, host) && (NoId(v) <==> NoId(w))
  {
    RecordKeepsId(w.self, w.config, host, f, value);
  }

  lemma ConfigSame(w: World, file: File, host: Host)
    requires Same(w, host) && Mirrors(file, w.self, DeviceId)
    ensures Same(w.(config := file), host)
  {
    SameDeviceId(w.self, w.config, file, host);
    hide TextSetting, Entries, EnvEntries, StrongId;
  }

  lemma ServeSame(w: World, outcome: Outcome, host: Host)
    requires Same(w, host) && w.proc.Some? && w.proc.value.flight.Asked?
    ensures var (p, server) := Served(w.proc.value, w.server, outcome);
            Same(w.(proc := Some(p), server := server), host)
  {
    hide TextSetting, Entries, StrongId, Mirrors, Served;
    ServedFlight(w.proc.value, w.server, outcome);
  }

  lemma MovesSame(p: Proc, s: Step, id: string)
    requires GoesBy(p, id)
    ensures GoesBy(Moves(p, s), id)
  {
    hide Moves;
    MovesFlight(p, s);
  }

  lemma SaveSame(w: World, written: bool, host: Host)
    requires Same(w, host) && w.proc.Some? && w.proc.value.flight.Heard?
    ensures Same(Take(w, Save(written), host), host)
  {
    hide TextSetting, Entries, StrongId, Mirrors, Recorded;
    var reply := w.proc.value.flight.reply;
    if Delivers(reply) {
      FilesSame(w, ApiToken, reply.registration.token, host);
    }
  }

  lemma SubmitSame(w: World, text: string, written: bool, host: Host)
    requires WorldOk(w) && Same(w, host)
    ensures Same(Take(w, Submit(text, written), host), host)
  {
    hide TextSetting, Entries, StrongId, Mirrors, Recorded, ServerAddress.Normalise;
    var url := ServerAddress.Normalise(text);
    if url != "" {
      FilesSame(w, ServerUrl, url, host);
    }
  }

  lemma StepSame(w: World, s: Step, host: Host)
    requires WorldOk(w) && Same(w, host) && Steady(w, s, host)
    ensures Same(Take(w, s, host), host)
  {
    hide TextSetting, Entries, EnvEntries, StrongId, Mirrors, Started, StartedSelf, Moves, Served, Recorded,
         Loadable, UuidText, GoodToken, ServerAddress.Normalise, WorldOk;
    match s
    case Boot(uuid, offered, written) =>
      if w.proc.None? && UuidText(uuid) && Loadable(w.self, w.config, host) {
        BootSame(w, uuid, offered, written, host);
      }
    case Reconfigure(file) => ConfigSame(w, file, host);
    case Submit(text, written) => SubmitSame(w, text, written, host);
    case Serve(outcome) =>
      if w.proc.Some? && w.proc.value.flight.Asked? {
        ServeSame(w, outcome, host);
      }
    case Save(written) =>
      if w.proc.Some? && w.proc.value.flight.Heard? {
        SaveSame(w, written, host);
      }
    case Approve(_, _) =>
    case Exit =>
    case _ =>
      if w.proc.Some? {
        MovesSame(w.proc.value, s, LoadedId(w, host));
      }
  }

  ghost predicate SteadyRun(steps: seq<Step>, host: Host) {
    forall i :: 0 <= i < |steps| ==> Steady(Go(FRESH, steps[..i], host), steps[i], host)
  }

  lemma {:induction false} RunSame(steps: seq<Step>, host: Host)
    requires SteadyRun(steps, host)
    ensures WorldOk(Go(FRESH, steps, host)) && Same(Go(FRESH, steps, host), host)
  {
    if steps != [] {
      hide Same, Take, WorldOk, Steady;
      var n := |steps| - 1;
      assert SteadyRun(steps[..n], host) by {
        forall i | 0 <= i < n
          ensures Steady(Go(FRESH, steps[..n][..i], host), steps[..n][i], host)
        {
          assert steps[..n][..i] == steps[..i];
        }
      }
      RunSame(steps[..n], host);
      assert steps[..n] == steps[..|steps| - 1];
      StepSame(Go(FRESH, steps[..n], host), steps[n], host);
      TakeOk(Go(FRESH, steps[..n], host), steps[n], host);
    }
  }

  lemma AtMostOne(records: set<string>, id: string)
    requires records <= {id}
    ensures |records| <= 1
  {
    assert records == {} || records == {id};
  }

  /** Over any number of boots every register request carries one and the same id, long
      enough and not a weak name, so the server keeps a single record of the device. */
  lemma OneIdentity(steps: seq<Step>, host: Host)
    requires SteadyRun(steps, host)
    ensures var server := Go(FRESH, steps, host).server;
            && |server.records| <= 1
            && (forall i, j :: 0 <= i < j < |server.calls| ==> server.calls[i] == server.calls[j])
            && (forall i :: 0 <= i < |server.calls| ==>
                  && |server.calls[i]| >= 8
                  && Lower(server.calls[i]) !in {"localhost", "localhost.localdomain", "ubuntu", "raspberrypi", ""})
  {
    RunSame(steps, host);
    var w := Go(FRESH, steps, host);
    SameSingle(w, host);
    hide Go, Same, Lower;
    forall i | 0 <= i < |w.server.calls|
      ensures |w.server.calls[i]| >= 8
      ensures Lower(w.server.calls[i]) !in {"localhost", "localhost.localdomain", "ubuntu", "raspberrypi", ""}
    {
      StrongIdIff(w.server.calls[i]);
      assert |"ubuntu"| == 6;
    }
  }

  lemma SameSingle(w: World, host: Host)
    requires Same(w, host)
    ensures |w.server.records| <= 1
    ensures forall i, j :: 0 <= i < j < |w.server.calls| ==> w.server.calls[i] == w.server.calls[j]
    ensures forall i :: 0 <= i < |w.server.calls| ==> StrongId(w.server.calls[i])
  {
    hide LoadedId, StrongId, FilesSteady, NoId;
    var id := LoadedId(w, host);
    if StrongId(id) {
      AtMostOne(w.server.records.Keys, id);
      assert |w.server.records.Keys| == |w.server.records|;
      assert forall i :: 0 <= i < |w.server.calls| ==> w.server.calls[i] in w.server.calls;
    }
  }
}
