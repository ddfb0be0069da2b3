/** Enrolment as a protocol over many boots.

  One device, its two settings files, the process that may be running on it and the
  server. Every step below is one that the source performs without interruption; between
  any two of them a thread may be preempted, a timer may fire, an administrator may act,
  a hook may run or the power may fail. A step that is not due changes nothing, so every
  sequence of steps is a run. */
module Enrolment {
  import opened Text
  import opened Settings
  import opened Api
  import opened Refresh
  import ServerAddress = ServerUrl
  import Discovery

  // ----- identity

  const WEAK_DEVICE_IDS: set<string> := {"localhost", "localhost.localdomain", "ubuntu", "raspberrypi", ""}
  const DEVICE_ID_MIN_LEN := 8
  const DEVICE_ID_PREFIX := "visiontak_client_"

  predicate StrongId(id: string) {
    Lower(id) !in WEAK_DEVICE_IDS && |id| >= DEVICE_ID_MIN_LEN
  }

  /** The 36 characters of a UUID. */
  predicate UuidText(s: string) {
    |s| == 36 && forall i :: 0 <= i < 36 ==> IsHexDigit(s[i]) || s[i] == '-'
  }

  // ----- the process

  datatype Ident = Ident(url: string, token: string, deviceId: string)

  datatype Origin = FromSetup | FromPoll

  datatype Reply = NoAnswer | Answer(registration: Registration)

  /** A registration attempt and how far its thread has come: spawned, the configuration
      read and the request sent, the reply received, the attempt returned. */
  datatype Flight =
    | Grounded
    | Spawned(origin: Origin)
    | Asked(origin: Origin, snap: Ident)
    | Heard(origin: Origin, snap: Ident, reply: Reply)
    | Returned(origin: Origin, reply: Reply, next: Ident)

  datatype Proc = Proc(
    id: Ident,
    interval: int,
    // The setup screen is up; its entry takes input; a callback waits to give the entry
    // back, or to take the screen down.
    setup: bool,
    entry: bool,
    retry: bool,
    leave: bool,
    polls: nat,
    flight: Flight,
    chains: Chains,
    // Since this process started: a token was gained; an attempt ended in an exception
    // that nothing catches.
    gained: bool,
    raised: bool
  )

  // ----- the server

  datatype Record = Record(approved: bool, token: string, delivered: bool)

  /** `calls` are the device ids of all register requests that reached the server, `issued`
      the tokens it handed out, `late` the requests it saw after handing one out. */
  datatype Server = Server(records: map<string, Record>, calls: seq<string>, issued: seq<string>, late: nat)

  function Called(s: Server, id: string): Server {
    s.(calls := s.calls + [id], late := if s.issued == [] then s.late else s.late + 1)
  }

  /** The documented contract: pending until approved, then the token exactly once. */
  function Register(s: Server, id: string): (Server, Registration) {
    var known := if id in s.records then s.records[id] else Record(false, "", false);
    var heard := Called(s, id);
    if !known.approved then (heard.(records := s.records[id := known]), Registration("pending", ""))
    else if known.delivered then (heard, Registration("approved", ""))
    else
      (heard.(records := s.records[id := known.(delivered := true)], issued := s.issued + [known.token]),
       Registration("approved", known.token))
  }

  // ----- what can be asked for at all

  /** `rpartition`: the fragment, after the last `#`, is not sent. */
  function BeforeFragment(s: string): (r: string)
    ensures |r| <= |s| && r == s[..|r|]
  {
    if '#' !in s then s
    else if s[|s| - 1] == '#' then s[..|s| - 1]
    else
      assert s == s[..|s| - 1] + [s[|s| - 1]];
      BeforeFragment(s[..|s| - 1])
  }

  /** No space or control character anywhere, nor a character beyond ASCII after the host. */
  predicate ClearAt(rest: string, i: nat)
    requires i < |rest|
  {
    && rest[i] as int > 0x20 && rest[i] as int != 0x7F
    && (rest[i] as int < 0x80 || ('/' !in rest[..i] && '?' !in rest[..i]))
  }

  /** What follows the `://`; without a host it is refused more politely. */
  predicate Clear(rest: string) {
    || rest == "" || rest[0] == '/' || rest[0] == '?' || rest[0] == '#'
    || forall i :: 0 <= i < |rest| ==> ClearAt(rest, i)
  }

  predicate Sendable(line: string) {
    var colon := FindChar(line, ':');
    if colon == 0 || colon == |line| || '/' in line[..colon] then false
    else if ServerAddress.HttpScheme(line[..colon]) && ServerAddress.SeparatorAt(line, colon) then Clear(line[colon + 3..])
    else true
  }

  /** An address in which the library finds a scheme and, when that is HTTP, nothing it will
      not put on the wire. Any other makes every request raise an exception that is no
      `ApiError`. Whether one that can be requested is answered is another matter. */
  predicate Requestable(url: string) {
    var base := RStripChar(url, '/');
    base == "" || Sendable(BeforeFragment(base))
  }

  // ----- the world

  datatype World = World(self: File, config: File, proc: Option<Proc>, server: Server)

  /** What becomes of a request. `Raised` stands for every failure that is no `ApiError`, so
      that it escapes the attempt and ends its thread: a reply cut off in its body, a reply
      that is not UTF-8, and the like; `reached` tells whether the server served it. */
  datatype Outcome = Unreached | ReplyLost | Answered | OddAnswer(status: string) | Raised(reached: bool)

  datatype Step =
    | Boot(uuid: string, offered: string, written: bool)
    | Submit(text: string, written: bool)
    | PollFires
    | Begin
    | Serve(outcome: Outcome)
    | Save(written: bool)
    | Finish
    | RetryCallback
    | LeaveCallback
    | ChainMoves(move: ChainStep)
    | Approve(id: string, token: string)
    | Reconfigure(file: File)
    | Stop
    | Exit

  /** A token the server may issue: it survives the trimming of a reload. */
  predicate GoodToken(token: string) {
    token != "" && Trimmed(token)
  }

  function TextSetting(f: Field, self: File, config: File, host: Host): string
    requires Own(f)
  {
    Setting(f, self, config, host).value.s
  }

  function Interval(self: File, config: File, host: Host): int {
    match Setting(RefreshInterval, self, config, host)
    case Some(v) => if v.I? then v.i else 0
    case None => 0
  }

  /** Starting the process: load, make the device id good, look for an offered address,
      and attach the window. */
  function Started(self: File, config: File, host: Host, uuid: string, offered: string): Proc {
    var loaded := TextSetting(DeviceId, self, config, host);
    var deviceId := if StrongId(loaded) then loaded else DEVICE_ID_PREFIX + uuid;
    var configured := TextSetting(ServerUrl, self, config, host);
    var url := if configured == "" && Setting(DhcpDiscovery, self, config, host) == Some(B(true))
               then Discovery.ParseOption(offered) else configured;
    var token := TextSetting(ApiToken, self, config, host);
    var interval := Interval(self, config, host);
    Proc(Ident(url, token, deviceId), interval, url == "", true, false, false,
         if url != "" && token == "" then 1 else 0, Grounded, Schedule(QUIET, interval), false, false)
  }

  /** What the start writes down for itself. */
  function StartedSelf(self: File, config: File, host: Host, uuid: string, offered: string, written: bool): File {
    if !Writable(self) || !written then self
    else
      var loaded := TextSetting(DeviceId, self, config, host);
      var withId := if StrongId(loaded) then self else Recorded(self, DeviceId, DEVICE_ID_PREFIX + uuid);
      var configured := TextSetting(ServerUrl, self, config, host);
      if configured == "" && Setting(DhcpDiscovery, self, config, host) == Some(B(true))
         && Discovery.ParseOption(offered) != ""
      then Recorded(withId, ServerUrl, Discovery.ParseOption(offered)) else withId
  }

  predicate Delivers(reply: Reply) {
    reply.Answer? && reply.registration.Approved() && reply.registration.token != ""
  }

  /** Back from an attempt: the configuration is written, and the next move decided. */
  function Settle(p: Proc): Proc
    requires p.flight.Returned?
  {
    var Returned(origin, reply, next) := p.flight;
    var q := p.(id := next, flight := Grounded);
    if reply.Answer? && reply.registration.Approved() && next.token != "" then
      q.(gained := true, chains := Schedule(p.chains, p.interval), leave := p.leave || origin.FromSetup?)
    else if origin.FromPoll? then q.(polls := p.polls + 1)
    else if reply.NoAnswer? then q.(retry := true)
    else q.(leave := true, polls := if next.url != "" && next.token == "" then p.polls + 1 else p.polls)
  }

  /** A poll's timer fires: nothing after the stop, and otherwise an attempt. */
  function FirePoll(p: Proc): Proc {
    if p.polls == 0 then p
    else if p.chains.stopped then p.(polls := p.polls - 1)
    else p.(polls := p.polls - 1, flight := if p.flight.Grounded? then Spawned(FromPoll) else p.flight)
  }

  /** The attempt's thread reads the configuration, and asks unless there is nothing to ask. */
  function BeginAttempt(p: Proc): Proc {
    if !p.flight.Spawned? then p
    else if p.id.url == "" || p.id.token != "" then p.(flight := Returned(p.flight.origin, NoAnswer, p.id))
    else p.(flight := Asked(p.flight.origin, p.id))
  }

  /** One step of a running process that touches nothing else. */
  function Moves(p: Proc, s: Step): Proc {
    match s
    case PollFires => FirePoll(p)
    case Begin => BeginAttempt(p)
    case Finish => if p.flight.Returned? then Settle(p) else p
    case RetryCallback => if p.retry then p.(retry := false, entry := true) else p
    case LeaveCallback => if p.leave then p.(leave := false, setup := false) else p
    case ChainMoves(move) => p.(chains := Advance(p.chains, move, p.interval))
    case Stop => p.(chains := p.chains.(stopped := true), polls := if p.polls > 0 then p.polls - 1 else 0)
    case _ => p
  }

  function Served(p: Proc, server: Server, outcome: Outcome): (Proc, Server)
    requires p.flight.Asked?
  {
    var Asked(origin, snap) := p.flight;
    if !Requestable(snap.url) then (p.(flight := Grounded, raised := true), server)
    else
      match outcome
      case Unreached => (p.(flight := Heard(origin, snap, NoAnswer)), server)
      case ReplyLost => (p.(flight := Heard(origin, snap, NoAnswer)), Register(server, snap.deviceId).0)
      case Answered =>
        (p.(flight := Heard(origin, snap, Answer(Register(server, snap.deviceId).1))), Register(server, snap.deviceId).0)
      case OddAnswer(status) =>
        (p.(flight := Heard(origin, snap, Answer(Registration(status, "")))), Called(server, snap.deviceId))
      case Raised(reached) =>
        (p.(flight := Grounded, raised := true), if reached then Register(server, snap.deviceId).0 else server)
  }

  ghost function Take(w: World, s: Step, host: Host): World {
    match s
    case Boot(uuid, offered, written) =>
      if w.proc.Some? || !UuidText(uuid) || !Loadable(w.self, w.config, host) then w
      else w.(proc := Some(Started(w.self, w.config, host, uuid, offered)),
              self := StartedSelf(w.self, w.config, host, uuid, offered, written))
    case Approve(id, token) =>
      if id in w.server.records && !w.server.records[id].approved && GoodToken(token)
      then w.(server := w.server.(records := w.server.records[id := Record(true, token, false)]))
      else w
    case Reconfigure(file) => if Loadable(w.self, file, host) then w.(config := file) else w
    case Exit => w.(proc := None)
    case Submit(text, written) =>
      var url := ServerAddress.Normalise(text);
      if w.proc.None? || !w.proc.value.setup || !w.proc.value.entry || url == "" || !written || !Writable(w.self) then w
      else
        var p := w.proc.value;
        w.(self := Recorded(w.self, ServerUrl, url),
           proc := Some(p.(id := p.id.(url := url), entry := false,
                           flight := if p.flight.Grounded? then Spawned(FromSetup) else p.flight)))
    case Serve(outcome) =>
      if w.proc.None? || !w.proc.value.flight.Asked? then w
      else
        var (p, server) := Served(w.proc.value, w.server, outcome);
        w.(proc := Some(p), server := server)
    case Save(written) =>
      if w.proc.None? || !w.proc.value.flight.Heard? then w
      else
        var p := w.proc.value;
        var Heard(origin, snap, reply) := p.flight;
        if Delivers(reply) then
          w.(self := if written && Writable(w.self) then Recorded(w.self, ApiToken, reply.registration.token) else w.self,
             proc := Some(p.(flight := Returned(origin, reply, snap.(token := reply.registration.token)))))
        else w.(proc := Some(p.(flight := Returned(origin, reply, snap))))
    case _ => if w.proc.None? then w else w.(proc := Some(Moves(w.proc.value, s)))
  }

  ghost function Go(w: World, steps: seq<Step>, host: Host): World {
    if steps == [] then w else Take(Go(w, steps[..|steps| - 1], host), steps[|steps| - 1], host)
  }

  /** A device fresh from the factory and a server that has never heard of it. */
  const FRESH := World(File.Absent, File.Absent, None, Server(map[], [], [], 0))

  // ----- one attempt at a time

  function One(b: bool): nat { if b then 1 else 0 }

  /** What could start, or is, a registration attempt: a timer, a thread, the setup entry,
      or the callback that will hand the entry back. */
  function Batons(p: Proc): nat {
    p.polls + One(!p.flight.Grounded?) + One(p.retry) + One(p.setup && p.entry)
  }

  /** The setup screen has the enrolment in hand, rather than the poll. */
  predicate InSetup(p: Proc) { p.setup && !p.leave }

  predicate SnapshotFresh(p: Proc) {
    match p.flight
    case Grounded => true
    case Spawned(_) => true
    case Asked(_, snap) => snap == p.id && p.id.url != "" && p.id.token == ""
    case Heard(_, snap, _) => snap == p.id && p.id.url != "" && p.id.token == ""
    case Returned(_, reply, next) =>
      && (Delivers(reply) ==> p.id.url != "" && next == p.id.(token := reply.registration.token))
      && (!Delivers(reply) ==> next == p.id)
      && (reply.Answer? ==> p.id.url != "" && p.id.token == "")
  }

  predicate Attempts(p: Proc) {
    && Batons(p) <= 1
    && (p.raised ==> Batons(p) == 0)
    && (p.leave ==> p.setup && !p.entry)
    && (InSetup(p) ==> (p.raised || Batons(p) == 1) && p.polls == 0
                       && (!p.flight.Grounded? ==> p.flight.origin == FromSetup))
    && (!InSetup(p) ==> !p.retry && (!p.flight.Grounded? ==> p.flight.origin == FromPoll && p.id.token == ""))
    && (p.polls > 0 ==> p.id.url != "" && p.id.token == "")
    && SnapshotFresh(p)
    && (!InSetup(p) && p.id.token == "" && !p.chains.stopped && !p.raised ==> p.polls + One(!p.flight.Grounded?) == 1)
    && (!InSetup(p) ==> p.id.url != "")
  }

  /** At most two refresh chains, the second only once a token was gained. */
  predicate ChainsBounded(p: Proc) {
    && (p.gained ==> p.id.token != "" && p.flight.Grounded? && p.polls == 0 && !InSetup(p))
    && (!p.chains.stopped ==>
          Live(p.chains) == (if p.interval == 0 then 0 else 1 + One(p.gained)) && p.chains.late == 0)
    && (p.chains.stopped ==> Owed(p.chains) <= 2)
  }

  predicate ProcOk(p: Proc) { Attempts(p) && ChainsBounded(p) }

  predicate WorldOk(w: World) { w.proc.Some? ==> ProcOk(w.proc.value) }

  lemma StartedOk(self: File, config: File, host: Host, uuid: string, offered: string)
    ensures ProcOk(Started(self, config, host, uuid, offered))
  {
    hide TextSetting, StrongId, Setting, Discovery.ParseOption;
  }

  lemma ServedOk(p: Proc, server: Server, outcome: Outcome)
    requires ProcOk(p) && p.flight.Asked?
    ensures ProcOk(Served(p, server, outcome).0)
  {
    hide Register, Called, Requestable;
  }

  lemma MovesOk(p: Proc, s: Step)
    requires ProcOk(p)
    ensures ProcOk(Moves(p, s))
  {
    if s.Finish? && p.flight.Returned? {
      SettleOk(p);
    }
  }

  lemma SettleOk(p: Proc)
    requires ProcOk(p) && p.flight.Returned?
    ensures ProcOk(Settle(p))
  {
  }

  /** What the steps of a running process do to its identity and its attempt. */
  lemma MovesFlight(p: Proc, s: Step)
    ensures Moves(p, s).raised == p.raised && (p.flight.Heard? ==> Moves(p, s).flight == p.flight)
    ensures Moves(p, s).interval == p.interval
    ensures var q := Moves(p, s);
            if p.flight.Returned? && s.Finish? then q.id == p.flight.next && q.flight.Grounded?
            else q.id == p.id && (q.flight == p.flight || q.flight.Spawned? || (q.flight.Asked? && q.flight.snap == p.id)
                                  || (q.flight.Returned? && q.flight.next == p.id && q.flight.reply.NoAnswer?))
  {
    hide FirePoll, BeginAttempt, Settle, Advance, Schedule;
    match s
    case PollFires => FirePollFlight(p);
    case Begin => BeginFlight(p);
    case Finish =>
      if p.flight.Returned? {
        SettleFlight(p);
      }
    case _ =>
  }

  /** What an answer, or the lack of one, does to them. */
  lemma ServedFlight(p: Proc, server: Server, outcome: Outcome)
    requires p.flight.Asked?
    ensures var (q, after) := Served(p, server, outcome);
            var snap := p.flight.snap;
            && q.id == p.id
            && (after == server || after == Called(server, snap.deviceId) || after == Register(server, snap.deviceId).0)
            && (q.flight.Grounded?
                || (q.flight.Heard? && q.flight.snap == snap
                    && (!Delivers(q.flight.reply)
                        || q.flight.reply == Answer(Register(server, snap.deviceId).1))))
  {
    hide Requestable, Register, Called;
  }

  lemma FirePollFlight(p: Proc)
    ensures FirePoll(p).interval == p.interval
    ensures FirePoll(p).raised == p.raised && (p.flight.Heard? ==> FirePoll(p).flight == p.flight)
    ensures var q := FirePoll(p);
            q.id == p.id && (q.flight == p.flight || q.flight.Spawned?)
  {
  }

  lemma BeginFlight(p: Proc)
    ensures BeginAttempt(p).interval == p.interval
    ensures BeginAttempt(p).raised == p.raised && (p.flight.Heard? ==> BeginAttempt(p).flight == p.flight)
    ensures var q := BeginAttempt(p);
            q.id == p.id && (q.flight == p.flight || (q.flight.Asked? && q.flight.snap == p.id)
                             || (q.flight.Returned? && q.flight.next == p.id && q.flight.reply.NoAnswer?))
  {
  }

  lemma SettleFlight(p: Proc)
    requires p.flight.Returned?
    ensures Settle(p).interval == p.interval
    ensures Settle(p).flight == Grounded && Settle(p).id == p.flight.next && Settle(p).raised == p.raised
  {
    hide Schedule;
    var q := p.(id := p.flight.next, flight := Grounded);
    assert q.flight == Grounded && q.id == p.flight.next && q.raised == p.raised && q.interval == p.interval;
  }

  lemma SubmitOk(w: World, text: string, written: bool, host: Host)
    requires WorldOk(w)
    ensures WorldOk(Take(w, Submit(text, written), host))
  {
    hide Recorded, ServerAddress.Normalise;
  }

  lemma SaveOk(w: World, written: bool, host: Host)
    requires WorldOk(w)
    ensures WorldOk(Take(w, Save(written), host))
  {
    hide Recorded;
  }

  lemma TakeOk(w: World, s: Step, host: Host)
    requires WorldOk(w)
    ensures WorldOk(Take(w, s, host))
  {
    hide ProcOk, Started, StartedSelf, Moves, Served, Recorded, Loadable, UuidText, GoodToken, ServerAddress.Normalise;
    match s
    case Boot(uuid, offered, written) => StartedOk(w.self, w.config, host, uuid, offered);
    case Approve(_, _) =>
    case Reconfigure(_) =>
    case Exit =>
    case Submit(text, written) => SubmitOk(w, text, written, host);
    case Serve(outcome) =>
      if w.proc.Some? && w.proc.value.flight.Asked? {
        ServedOk(w.proc.value, w.server, outcome);
      }
    case Save(written) => SaveOk(w, written, host);
    case _ =>
      if w.proc.Some? {
        MovesOk(w.proc.value, s);
      }
  }

  lemma {:induction false} AlwaysOk(steps: seq<Step>, host: Host)
    ensures WorldOk(Go(FRESH, steps, host))
  {
    if steps != [] {
      AlwaysOk(steps[..|steps| - 1], host);
      TakeOk(Go(FRESH, steps[..|steps| - 1], host), steps[|steps| - 1], host);
    }
  }

  /** An enrolment somebody is still waiting for. */
  predicate Wanting(p: Proc) {
    InSetup(p) || (p.id.token == "" && !p.chains.stopped)
  }

  /** In every run, whatever is lost, interrupted or raised: one registration attempt at a
      time; and for as long as an enrolment is wanted, exactly one timer, thread, callback or
      setup entry carries it on, unless an attempt of this process has raised: then none. */
  lemma SingleFlight(steps: seq<Step>, host: Host)
    requires Go(FRESH, steps, host).proc.Some?
    ensures var p := Go(FRESH, steps, host).proc.value;
            && Batons(p) <= 1
            && (Wanting(p) ==> Batons(p) == if p.raised then 0 else 1)
            && (!InSetup(p) ==> Batons(p) == p.polls + One(!p.flight.Grounded?))
  {
    AlwaysOk(steps, host);
    BatonKinds(Go(FRESH, steps, host).proc.value);
  }

  lemma BatonKinds(p: Proc)
    requires ProcOk(p)
    ensures Wanting(p) ==> Batons(p) == if p.raised then 0 else 1
    ensures !InSetup(p) ==> Batons(p) == p.polls + One(!p.flight.Grounded?)
  {
  }

  /** What a returning attempt writes over the configuration differs from it in the token
      only, so no update made meanwhile is lost. */
  lemma NoLostUpdate(steps: seq<Step>, host: Host)
    requires Go(FRESH, steps, host).proc.Some? && Go(FRESH, steps, host).proc.value.flight.Returned?
    ensures var p := Go(FRESH, steps, host).proc.value;
            p.flight.next == p.id.(token := p.flight.next.token)
  {
    AlwaysOk(steps, host);
  }

  function TextOf(c: Config, f: Field): string { if f in c && c[f].S? then c[f].s else "" }

  function NumberOf(c: Config, f: Field): int { if f in c && c[f].I? then c[f].i else 0 }

  function FlagOf(c: Config, f: Field): bool { f in c && c[f] == B(true) }

  /** What a process starts as, told by the configuration its files load to: the configured
      interval, token and address, an address that the network offers only where none is
      configured and discovery is on, setup exactly without an address, a poll exactly with an
      address and no token, and the configured device id when it is a good one. */
  lemma StartedAs(c: Config, self: File, config: File, host: Host, uuid: string, offered: string)
    requires Reflects(c, self, config, host)
    ensures var p := Started(self, config, host, uuid, offered);
            && p.interval == NumberOf(c, RefreshInterval) && p.id.token == TextOf(c, ApiToken)
            && p.id.url == (if TextOf(c, ServerUrl) == "" && FlagOf(c, DhcpDiscovery) then Discovery.ParseOption(offered)
                            else TextOf(c, ServerUrl))
            && (p.setup <==> p.id.url == "")
            && p.polls == (if p.id.url == "" || p.id.token != "" then 0 else 1)
            && p.entry && !p.retry && !p.leave && !p.gained && !p.raised && p.flight == Grounded && !p.chains.stopped
            && Live(p.chains) == (if NumberOf(c, RefreshInterval) == 0 then 0 else 1)
            && p.id.deviceId == (if StrongId(TextOf(c, DeviceId)) then TextOf(c, DeviceId) else "visiontak_client_" + uuid)
  {
    hide StrongId, Discovery.ParseOption;
    FieldsAre(c, self, config, host);
    hide Setting, Reflects;
  }

  lemma FieldsAre(c: Config, self: File, config: File, host: Host)
    requires Reflects(c, self, config, host)
    ensures Setting(RefreshInterval, self, config, host) == Some(I(NumberOf(c, RefreshInterval)))
    ensures Setting(ApiToken, self, config, host) == Some(S(TextOf(c, ApiToken)))
    ensures Setting(ServerUrl, self, config, host) == Some(S(TextOf(c, ServerUrl)))
    ensures Setting(DeviceId, self, config, host) == Some(S(TextOf(c, DeviceId)))
    ensures Setting(DhcpDiscovery, self, config, host) == Some(B(FlagOf(c, DhcpDiscovery)))
  {
    hide Setting;
    assert Setting(RefreshInterval, self, config, host) == Some(c[RefreshInterval]);
    assert Setting(ApiToken, self, config, host) == Some(c[ApiToken]);
    assert Setting(ServerUrl, self, config, host) == Some(c[ServerUrl]);
    assert Setting(DeviceId, self, config, host) == Some(c[DeviceId]);
    assert Setting(DhcpDiscovery, self, config, host) == Some(c[DhcpDiscovery]);
  }

  /** What a load returns reflects the files. */
  lemma LoadedReflects(c: Config, self: File, config: File, host: Host)
    requires LoadsAs(Loaded(c), self, config, host)
    ensures Typed(c) && Reflects(c, self, config, host)
  {
    hide Reflects, AllCoerce, Acceptable, Typed;
  }

  /** An id is good when it has at least eight characters and is none of three names; the
      other weak names are too short anyway. */
  lemma StrongIdIff(id: string)
    ensures StrongId(id) <==>
            |id| > 7 && Lower(id) != "localhost" && Lower(id) != "localhost.localdomain" && Lower(id) != "raspberrypi"
  {
    hide Lower;
    assert |"ubuntu"| == 6 && |Lower(id)| == |id|;
  }

  lemma ServedInterval(p: Proc, server: Server, outcome: Outcome)
    requires p.flight.Asked?
    ensures Served(p, server, outcome).0.interval == p.interval
  {
    hide Requestable, Register, Called;
  }

  lemma StepInterval(w: World, s: Step, host: Host)
    requires w.proc.Some? && !s.Exit?
    ensures var v := Take(w, s, host);
            v.proc.Some? && v.proc.value.interval == w.proc.value.interval
  {
    hide Loadable, Started, StartedSelf, Recorded, ServerAddress.Normalise, Moves, Served;
    match s
    case Boot(_, _, _) =>
    case Submit(_, _) =>
    case Serve(outcome) =>
      if w.proc.value.flight.Asked? {
        ServedInterval(w.proc.value, w.server, outcome);
      }
    case Save(_) =>
    case Approve(_, _) =>
    case Reconfigure(_) =>
    case Exit =>
    case _ => MovesFlight(w.proc.value, s);
  }

  lemma {:induction false} RunInterval(w: World, steps: seq<Step>, host: Host)
    requires w.proc.Some? && WorldOk(w) && forall i :: 0 <= i < |steps| ==> !steps[i].Exit?
    ensures var v := Go(w, steps, host);
            v.proc.Some? && v.proc.value.interval == w.proc.value.interval && WorldOk(v)
  {
    if steps != [] {
      hide Take, WorldOk;
      RunInterval(w, steps[..|steps| - 1], host);
      StepInterval(Go(w, steps[..|steps| - 1], host), steps[|steps| - 1], host);
      TakeOk(Go(w, steps[..|steps| - 1], host), steps[|steps| - 1], host);
    }
  }

  lemma ChainsOf(p: Proc)
    requires ProcOk(p)
    ensures !p.chains.stopped ==> Live(p.chains) == if p.interval == 0 then 0 else if p.gained then 2 else 1
    ensures p.chains.stopped ==> p.chains.late <= 2
  {
    hide Attempts;
  }

  /** A process started on settings with a refresh interval has exactly one refresh chain
      before it gains a token and two after it, until the stop; from then on at most two more
      refreshes start. One started without an interval has none. */
  lemma ChainCount(before: seq<Step>, uuid: string, offered: string, written: bool, during: seq<Step>, c: Config, host: Host)
    requires UuidText(uuid) && forall i :: 0 <= i < |during| ==> !during[i].Exit?
    requires Go(FRESH, before, host).proc.None?
    requires LoadsAs(Loaded(c), Go(FRESH, before, host).self, Go(FRESH, before, host).config, host)
    ensures var w := Go(Take(Go(FRESH, before, host), Boot(uuid, offered, written), host), during, host);
            && w.proc.Some?
            && var p := w.proc.value;
               && (!p.chains.stopped ==>
                     Live(p.chains) == if NumberOf(c, RefreshInterval) == 0 then 0 else if p.gained then 2 else 1)
               && (p.chains.stopped ==> p.chains.late <= 2)
  {
    var off := Go(FRESH, before, host);
    var booted := Take(off, Boot(uuid, offered, written), host);
    hide Go, Typed, LoadsAs, ProcOk, UuidText, StartedSelf;
    AlwaysOk(before, host);
    LoadedReflects(c, off.self, off.config, host);
    StartedAs(c, off.self, off.config, host, uuid, offered);
    TakeOk(off, Boot(uuid, offered, written), host);
    assert Loadable(off.self, off.config, host);
    hide Started, Loadable;
    RunInterval(booted, during, host);
    ChainsOf(Go(booted, during, host).proc.value);
  }

  // ----- after the stop

  /** Stopped, with no attempt under way and none that the setup screen could still start. */
  predicate Quieted(p: Proc) {
    p.chains.stopped && p.flight.Grounded? && !(p.setup && p.entry) && !p.retry
  }

  lemma StepQuieted(w: World, s: Step, host: Host)
    requires w.proc.Some? && Quieted(w.proc.value) && !s.Exit?
    ensures var v := Take(w, s, host);
            v.proc.Some? && Quieted(v.proc.value) && v.server.calls == w.server.calls
  {
    hide Loadable, Started, StartedSelf, Recorded, ServerAddress.Normalise, Requestable, Register, Called, Settle;
  }

  /** No request leaves a process once it is stopped and at rest, whatever timers are left. */
  lemma {:induction false} StopIsQuiet(w: World, steps: seq<Step>, host: Host)
    requires w.proc.Some? && Quieted(w.proc.value) && forall i :: 0 <= i < |steps| ==> !steps[i].Exit?
    ensures var v := Go(w, steps, host);
            v.proc.Some? && Quieted(v.proc.value) && v.server.calls == w.server.calls
  {
    if steps != [] {
      hide Take, Quieted;
      StopIsQuiet(w, steps[..|steps| - 1], host);
      StepQuieted(Go(w, steps[..|steps| - 1], host), steps[|steps| - 1], host);
    }
  }

  // ----- progress

  /** One attempt that meets an answering server and a working disk. */
  ghost function Attempt(w: World, host: Host): World {
    Take(Take(Take(Take(w, Begin, host), Serve(Answered), host), Save(true), host), Finish, host)
  }

  /** Approval needs nobody at the screen: the next poll that reaches the server brings the
      token into memory and onto disk, and starts the second refresh chain. */
  lemma NextPollEnrols(w: World, host: Host)
    requires WorldOk(w) && w.proc.Some? && Writable(w.self)
    requires var p := w.proc.value;
             && !InSetup(p) && p.flight.Grounded? && p.id.token == "" && !p.chains.stopped
             && !p.raised && Requestable(p.id.url)
             && p.id.deviceId in w.server.records
             && var r := w.server.records[p.id.deviceId]; r.approved && !r.delivered && GoodToken(r.token)
    ensures var p, v := w.proc.value, Attempt(Take(w, PollFires, host), host);
            var token := w.server.records[p.id.deviceId].token;
            && v.proc.Some? && v.proc.value.id == p.id.(token := token) && v.proc.value.gained
            && v.self == Recorded(w.self, ApiToken, token)
            && v.server.issued == w.server.issued + [token]
  {
    hide Recorded, Advance, Requestable;
  }

  /** The setup screen, on an answering server, gives way exactly when no token was preset
      and the address can be requested. With a preset token the attempt asks nobody, reports
      no answer and hands the entry back; with an address that cannot be requested it raises,
      and the screen stays up with an entry that takes no input. */
  lemma SetupEndsIff(w: World, text: string, host: Host)
    requires WorldOk(w) && w.proc.Some? && Writable(w.self)
    requires var p := w.proc.value; p.setup && p.entry && ServerAddress.Normalise(text) != ""
    ensures var v := Take(Attempt(Take(w, Submit(text, true), host), host), LeaveCallback, host);
            && v.proc.Some?
            && (!v.proc.value.setup <==> w.proc.value.id.token == "" && Requestable(ServerAddress.Normalise(text)))
            && (w.proc.value.id.token != "" ==> v.proc.value.retry && v.server == w.server)
            && (w.proc.value.id.token == "" && !Requestable(ServerAddress.Normalise(text)) ==>
                  v.proc.value.raised && Batons(v.proc.value) == 0 && v.server == w.server)
  {
    hide Recorded, Advance, ServerAddress.Normalise, Requestable;
  }
}
