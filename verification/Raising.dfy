/** Attempts that end in an exception nothing catches. The client expects every failure of a
  request to be an `ApiError`; one that is not ends the thread, and with it the polling or
  the setup screen's way on. */
module Raising {
  import opened Text
  import opened Settings
  import opened Refresh
  import opened Enrolment
  import opened Tokens

  /** The step in which a request raises: always when its address cannot be requested. */
  predicate Raises(w: World, s: Step) {
    && s.Serve? && w.proc.Some? && w.proc.value.flight.Asked?
    && (s.outcome.Raised? || !Requestable(w.proc.value.flight.snap.url))
  }

  ghost predicate SomeRaises(w: World, steps: seq<Step>, host: Host) {
    exists i :: 0 <= i < |steps| && Raises(Go(w, steps[..i], host), steps[i])
  }

  lemma SomeRaisesSnoc(w: World, steps: seq<Step>, host: Host)
    requires steps != []
    ensures var front, last := steps[..|steps| - 1], steps[|steps| - 1];
            SomeRaises(w, steps, host) <==> SomeRaises(w, front, host) || Raises(Go(w, front, host), last)
  {
    hide Raises, Go;
    var front := steps[..|steps| - 1];
    assert forall i :: 0 <= i < |front| ==> steps[..i] == front[..i] && steps[i] == front[i];
    if SomeRaises(w, front, host) {
      var i :| 0 <= i < |front| && Raises(Go(w, front[..i], host), front[i]);
      assert steps[..i] == front[..i];
    }
  }

  lemma ServedRaised(p: Proc, server: Server, outcome: Outcome)
    requires p.flight.Asked?
    ensures Served(p, server, outcome).0.raised <==> p.raised || outcome.Raised? || !Requestable(p.flight.snap.url)
  {
    hide Requestable, Register, Called;
  }

  lemma StepRaised(w: World, s: Step, host: Host)
    requires w.proc.Some? && !s.Exit?
    ensures var v := Take(w, s, host);
            v.proc.Some? && (v.proc.value.raised <==> w.proc.value.raised || Raises(w, s))
  {
    hide Loadable, Started, StartedSelf, Recorded, ServerAddress.Normalise, Requestable, Moves, Served;
    match s
    case Serve(outcome) =>
      if w.proc.value.flight.Asked? {
        ServedRaised(w.proc.value, w.server, outcome);
      }
    case Boot(_, _, _) =>
    case Submit(_, _) =>
    case Save(_) =>
    case Approve(_, _) =>
    case Reconfigure(_) =>
    case Exit =>
    case _ => MovesFlight(w.proc.value, s);
  }

  lemma {:induction false} RunRaised(w: World, steps: seq<Step>, host: Host)
    requires w.proc.Some? && forall i :: 0 <= i < |steps| ==> !steps[i].Exit?
    ensures var v := Go(w, steps, host);
            v.proc.Some? && (v.proc.value.raised <==> w.proc.value.raised || SomeRaises(w, steps, host))
  {
    if steps != [] {
      var front, last := steps[..|steps| - 1], steps[|steps| - 1];
      RunRaised(w, front, host);
      SomeRaisesSnoc(w, steps, host);
      hide Raises, SomeRaises, Take;
      StepRaised(Go(w, front, host), last, host);
    }
  }

  /** While one process runs, an enrolment that is still wanted is carried on by exactly one
      timer, thread, callback or setup entry if no attempt has raised, and by none at all if
      one has. */
  lemma CarriedOnIff(before: seq<Step>, during: seq<Step>, host: Host)
    requires Go(FRESH, before, host).proc.Some? && !Go(FRESH, before, host).proc.value.raised
    requires forall i :: 0 <= i < |during| ==> !during[i].Exit?
    ensures var w := Go(FRESH, before, host);
            var v := Go(w, during, host);
            && v.proc.Some?
            && (Wanting(v.proc.value) ==>
                  Batons(v.proc.value) == if SomeRaises(w, during, host) then 0 else 1)
  {
    var w := Go(FRESH, before, host);
    hide SomeRaises;
    RunRaised(w, during, host);
    AlwaysOk(before, host);
    RunOk(w, during, host);
    BatonKinds(Go(w, during, host).proc.value);
  }

  lemma {:induction false} RunOk(w: World, steps: seq<Step>, host: Host)
    requires WorldOk(w)
    ensures WorldOk(Go(w, steps, host))
  {
    if steps != [] {
      hide WorldOk, Take;
      RunOk(w, steps[..|steps| - 1], host);
      TakeOk(Go(w, steps[..|steps| - 1], host), steps[|steps| - 1], host);
    }
  }

  // ----- addresses that raise every time

  /** Any host with a path that has a space inside: accepted, and never requestable. */
  lemma InnerSpace(host: string)
    requires ServerAddress.HostName(host)
    ensures ServerAddress.Normalise(host + "/a b") == "http://" + (host + "/a b")
    ensures !Requestable("http://" + (host + "/a b"))
  {
    hide ServerAddress.HostName, ServerAddress.Normalise, Requestable, Clear;
    ServerAddress.InnerSpaceKept(host);
    var rest := host + "/a b";
    HostPlain(host);
    assert rest[|rest| - 1] == 'b';
    NotClear(rest, |host| + 2);
    HttpRequestable(rest);
  }

  lemma NotClear(rest: string, i: nat)
    requires i < |rest| && rest[i] == ' ' && rest[0] != '/' && rest[0] != '?' && rest[0] != '#'
    ensures !Clear(rest)
  {
    assert !ClearAt(rest, i);
  }

  lemma HttpRequestable(rest: string)
    requires rest != "" && '#' !in rest && rest[|rest| - 1] != '/'
    ensures Requestable("http://" + rest) <==> Clear(rest)
  {
    assert "http" + "://" + rest == "http://" + rest;
    SchemeRequestable("http", rest);
  }

  lemma SchemeRequestable(scheme: string, rest: string)
    requires scheme == "http" || scheme == "https"
    requires rest != "" && '#' !in rest && rest[|rest| - 1] != '/'
    ensures Requestable(scheme + "://" + rest) <==> Clear(rest)
  {
    hide Clear, RStripChar, BeforeFragment, FindChar, ServerAddress.HttpScheme;
    var url := scheme + "://" + rest;
    UrlParts(scheme, rest);
    Whole(url);
    HttpIsHttp(scheme);
  }

  lemma UrlParts(scheme: string, rest: string)
    requires scheme == "http" || scheme == "https"
    requires rest != "" && '#' !in rest && rest[|rest| - 1] != '/'
    ensures var url, n := scheme + "://" + rest, |scheme|;
            && url != "" && url[|url| - 1] != '/' && '#' !in url && FindChar(url, ':') == n
            && url[..n] == scheme && url[n + 3..] == rest && ServerAddress.SeparatorAt(url, n) && '/' !in scheme
  {
    var url, n := scheme + "://" + rest, |scheme|;
    assert url[|url| - 1] == rest[|rest| - 1];
    assert url[..n] == scheme && url[n + 3..] == rest;
    assert url[n] == ':';
    assert forall i :: 0 <= i < n ==> url[i] == scheme[i] && scheme[i] != ':' && scheme[i] != '#';
    assert forall i :: n + 3 <= i < |url| ==> url[i] == rest[i - n - 3];
  }

  /** An address without a fragment or a slash at its end is asked for as it is. */
  lemma Whole(url: string)
    requires url != "" && url[|url| - 1] != '/' && '#' !in url
    ensures RStripChar(url, '/') == url && BeforeFragment(url) == url
  {
  }

  lemma HttpIsHttp(scheme: string)
    requires scheme == "http" || scheme == "https"
    ensures ServerAddress.HttpScheme(scheme)
  {
    ServerAddress.LowerHttp(scheme);
  }

  predicate Visible(s: string) {
    forall i :: 0 <= i < |s| ==> 33 <= s[i] as int <= 126
  }

  /** An accepted address without a fragment can be requested exactly when every character is
      visible ASCII. */
  lemma RequestableIff(scheme: string, authority: string, path: string)
    requires scheme == "http" || scheme == "https"
    requires ServerAddress.Authority(authority) && ServerAddress.Path(path) && '#' !in path
    ensures Requestable(scheme + "://" + (authority + path)) <==> Visible(path)
  {
    var rest := authority + path;
    AuthorityVisible(authority);
    ServerAddress.AuthorityNonEmpty(authority);
    hide ServerAddress.Authority, Requestable, Clear;
    assert forall i :: 0 <= i < |authority| ==> rest[i] == authority[i];
    assert forall i :: |authority| <= i < |rest| ==> rest[i] == path[i - |authority|];
    SchemeRequestable(scheme, rest);
    ClearIff(authority, path);
  }

  lemma AuthorityVisible(authority: string)
    requires ServerAddress.Authority(authority)
    ensures forall i :: 0 <= i < |authority| ==>
              && 33 <= authority[i] as int <= 126
              && authority[i] != '/' && authority[i] != '?' && authority[i] != '#'
  {
    forall i | 0 <= i < |authority|
      ensures 33 <= authority[i] as int <= 126
      ensures authority[i] != '/' && authority[i] != '?' && authority[i] != '#'
    {
      ServerAddress.AuthorityCodes(authority, i);
    }
  }

  lemma ClearIff(authority: string, path: string)
    requires authority != "" && ServerAddress.Path(path)
    requires forall i :: 0 <= i < |authority| ==>
               && 33 <= authority[i] as int <= 126
               && authority[i] != '/' && authority[i] != '?' && authority[i] != '#'
    ensures Clear(authority + path) <==> Visible(path)
  {
    var rest, n := authority + path, |authority|;
    assert forall i :: 0 <= i < n ==> rest[i] == authority[i];
    assert forall i :: n <= i < |rest| ==> rest[i] == path[i - n];
    forall i | 0 <= i < |rest|
      ensures ClearAt(rest, i) <==> 33 <= rest[i] as int <= 126
    {
      if i > n {
        assert rest[..i][n] == '/';
      }
    }
    hide ClearAt;
    if !Visible(path) {
      var j :| 0 <= j < |path| && !(33 <= path[j] as int <= 126);
      assert rest[n + j] == path[j];
      assert !ClearAt(rest, n + j);
    }
  }

  /** What stands behind the last `#` does not matter. */
  lemma FragmentIgnored(url: string, tail: string)
    requires url != "" && url[|url| - 1] != '/' && '#' !in url && '#' !in tail
    ensures Requestable(url + "#" + tail) <==> Requestable(url)
  {
    hide Sendable;
    var all := url + "#" + tail;
    var base := RStripChar(all, '/');
    assert all[|url|] == '#';
    assert |base| > |url|;
    var rest := base[|url| + 1..];
    assert base == (url + "#") + rest;
    assert forall i :: 0 <= i < |rest| ==> rest[i] == tail[i];
    assert (url + "#")[..|url|] == url;
    FragmentExtends(url + "#", rest);
    assert '#' in url + "#" by { assert (url + "#")[|url|] == '#'; }
    assert RStripChar(url, '/') == url;
  }

  lemma HostPlain(host: string)
    requires ServerAddress.HostName(host)
    ensures host != "" && host[0] != '/' && host[0] != '?' && host[0] != '#'
    ensures '#' !in host && ':' !in host && '/' !in host
  {
  }

  /** Any address without a colon, such as a bare host name, which only the setup screen
      and the DHCP option turn into one with a scheme. */
  lemma NoScheme(url: string)
    requires ':' !in url && RStripChar(url, '/') != ""
    ensures !Requestable(url)
  {
    var base := RStripChar(url, '/');
    var line := BeforeFragment(base);
    assert forall c :: c in line ==> c in base;
    assert forall c :: c in base ==> c in url;
  }

  /** The address in force cannot be requested, and nothing in the running process can ask
      for another. */
  ghost predicate Mute(w: World, host: Host) {
    && BadUrl(TextSetting(ServerUrl, w.self, w.config, host))
    && (w.proc.Some? ==> MuteProc(w.proc.value))
  }

  predicate BadUrl(url: string) { url != "" && !Requestable(url) }

  ghost predicate MuteProc(p: Proc) {
    && BadUrl(p.id.url) && !p.retry
    && (p.setup ==> !p.entry && p.polls == 0 && p.flight.Grounded?)
    && match p.flight
       case Grounded => true
       case Spawned(origin) => origin.FromPoll?
       case Asked(origin, snap) => origin.FromPoll? && snap == p.id
       case Heard(_, _, _) => false
       case Returned(origin, reply, next) => origin.FromPoll? && reply.NoAnswer? && next == p.id
  }

  lemma MuteMoves(p: Proc, s: Step)
    requires MuteProc(p)
    ensures MuteProc(Moves(p, s))
  {
    hide Requestable, Advance, Schedule;
  }

  lemma MuteServe(p: Proc, server: Server, outcome: Outcome)
    requires MuteProc(p) && p.flight.Asked?
    ensures MuteProc(Served(p, server, outcome).0) && Served(p, server, outcome).1 == server
  {
    hide Requestable;
  }

  lemma MuteStarted(self: File, config: File, host: Host, uuid: string, offered: string)
    requires BadUrl(TextSetting(ServerUrl, self, config, host))
    ensures MuteProc(Started(self, config, host, uuid, offered))
  {
    hide Requestable, TextSetting, Setting, StrongId;
  }

  lemma AddressKept(self: File, config: File, host: Host, value: string)
    requires Writable(self)
    ensures TextSetting(ServerUrl, Recorded(self, DeviceId, value), config, host) == TextSetting(ServerUrl, self, config, host)
  {
    OtherEntry(self, value);
    hide Entries, EnvEntries, Recorded, Coerce;
  }

  lemma OtherEntry(self: File, value: string)
    requires Writable(self)
    ensures var next := Recorded(self, DeviceId, value);
            && (ServerUrl in Entries(next) <==> ServerUrl in Entries(self))
            && (ServerUrl in Entries(self) ==> Entries(next)[ServerUrl] == Entries(self)[ServerUrl])
  {
  }

  lemma MuteBoot(w: World, uuid: string, offered: string, written: bool, host: Host)
    requires Mute(w, host) && w.proc.None?
    ensures Mute(w.(proc := Some(Started(w.self, w.config, host, uuid, offered)),
                    self := StartedSelf(w.self, w.config, host, uuid, offered, written)), host)
  {
    hide TextSetting, Entries, Recorded, Setting, StrongId, MuteProc, Started, Requestable, Discovery.ParseOption;
    MuteStarted(w.self, w.config, host, uuid, offered);
    if Writable(w.self) {
      AddressKept(w.self, w.config, host, DEVICE_ID_PREFIX + uuid);
    }
  }

  /** The hook leaves the address in force as it is. */
  predicate AddressStays(w: World, s: Step, host: Host) {
    s.Reconfigure? ==> TextSetting(ServerUrl, w.self, s.file, host) == TextSetting(ServerUrl, w.self, w.config, host)
  }

  lemma MuteStep(w: World, s: Step, host: Host)
    requires Mute(w, host) && AddressStays(w, s, host)
    ensures Mute(Take(w, s, host), host) && Take(w, s, host).server.calls == w.server.calls
  {
    hide TextSetting, Entries, EnvEntries, Started, StartedSelf, Moves, Served, Recorded, Requestable,
         Loadable, UuidText, GoodToken, ServerAddress.Normalise;
    match s
    case Boot(uuid, offered, written) =>
      if w.proc.None? && UuidText(uuid) && Loadable(w.self, w.config, host) {
        MuteBoot(w, uuid, offered, written, host);
      }
    case Reconfigure(_) =>
    case Submit(_, _) =>
    case Serve(outcome) =>
      if w.proc.Some? && w.proc.value.flight.Asked? {
        MuteServe(w.proc.value, w.server, outcome);
      }
    case Save(_) =>
    case Approve(_, _) =>
    case Exit =>
    case _ =>
      if w.proc.Some? {
        MuteMoves(w.proc.value, s);
      }
  }

  ghost predicate AddressLeft(w: World, steps: seq<Step>, host: Host) {
    forall i :: 0 <= i < |steps| ==> AddressStays(Go(w, steps[..i], host), steps[i], host)
  }

  lemma AddressLeftPrefix(w: World, steps: seq<Step>, host: Host)
    requires AddressLeft(w, steps, host) && steps != []
    ensures AddressLeft(w, steps[..|steps| - 1], host)
  {
    hide AddressStays, Go;
    var front := steps[..|steps| - 1];
    forall i | 0 <= i < |front|
      ensures AddressStays(Go(w, front[..i], host), front[i], host)
    {
      assert front[..i] == steps[..i];
    }
  }

  /** Every boot of such a device ends in the same silence: no request ever reaches the server
      again, and the setup screen never takes another address, until the hook sets one. */
  lemma {:induction false} MuteForever(w: World, steps: seq<Step>, host: Host)
    requires Mute(w, host) && AddressLeft(w, steps, host)
    ensures var v := Go(w, steps, host);
            && Mute(v, host) && v.server.calls == w.server.calls
            && (v.proc.Some? ==> !(v.proc.value.setup && v.proc.value.entry))
  {
    hide Mute, Take, AddressStays;
    if steps != [] {
      var front := steps[..|steps| - 1];
      AddressLeftPrefix(w, steps, host);
      MuteForever(w, front, host);
      MuteStep(Go(w, front, host), steps[|steps| - 1], host);
    }
    MuteCloses(Go(w, steps, host), host);
  }

  lemma MuteCloses(w: World, host: Host)
    requires Mute(w, host)
    ensures w.proc.Some? ==> !(w.proc.value.setup && w.proc.value.entry)
  {
  }

  // ----- and the setup screen takes such an address

  lemma {:induction false} FragmentExtends(base: string, more: string)
    requires '#' !in more
    ensures BeforeFragment(base + more) == if '#' in base then BeforeFragment(base) else base + more
  {
    if more == "" {
      assert base + more == base;
    } else {
      var t, n := base + more, |more| - 1;
      assert t[..|t| - 1] == base + more[..n] && t[|t| - 1] == more[n];
      assert '#' in t <==> '#' in base;
      FragmentExtends(base, more[..n]);
    }
  }

  lemma SendableExtends(line: string, more: string)
    requires !Sendable(line) && ':' !in more
    ensures !Sendable(line + more)
  {
    hide ClearAt, ServerAddress.HttpScheme;
    var t, colon := line + more, FindChar(line, ':');
    if colon == |line| {
      assert ':' !in t;
    } else {
      assert t[colon] == ':' && t[..colon] == line[..colon];
      assert forall j :: 0 <= j < colon ==> t[j] == line[j];
      assert FindChar(t, ':') == colon;
      if colon > 0 && '/' !in line[..colon] {
        assert t[colon + 3..] == line[colon + 3..] + more;
        ClearExtends(line[colon + 3..], more);
      }
    }
  }

  lemma ClearExtends(rest: string, more: string)
    requires !Clear(rest)
    ensures !Clear(rest + more)
  {
    var i :| 0 <= i < |rest| && !ClearAt(rest, i);
    assert (rest + more)[..i] == rest[..i] && !ClearAt(rest + more, i);
  }

  /** A space at the end does not make an address better. */
  lemma BadSnoc(s: string, c: char)
    requires !Requestable(s) && IsSpace(c)
    ensures !Requestable(s + [c])
  {
    hide Sendable;
    var t, base := s + [c], RStripChar(s, '/');
    var more := t[|base|..];
    assert t == base + more;
    assert forall j :: 0 <= j < |more| ==> more[j] == '/' || more[j] == c;
    assert RStripChar(t, '/') == t;
    FragmentExtends(base, more);
    FragmentExtends(base, "");
    if '#' !in base {
      assert base + "" == base;
      SendableExtends(base, more);
    }
  }

  lemma {:induction false} BadUntrimmed(s: string)
    requires !Requestable(RStrip(s))
    ensures !Requestable(s)
  {
    if s != "" && IsSpace(s[|s| - 1]) {
      BadUntrimmed(s[..|s| - 1]);
      BadSnoc(s[..|s| - 1], s[|s| - 1]);
      assert s[..|s| - 1] + [s[|s| - 1]] == s;
    }
  }

  lemma BadAsTyped(text: string)
    requires BadUrl(Strip(ServerAddress.Normalise(text)))
    ensures BadUrl(ServerAddress.Normalise(text))
  {
    var url := ServerAddress.Normalise(text);
    hide ServerAddress.Normalise, Requestable;
    ServerAddress.ResultEnd(text);
    assert LStrip(url) == url;
    BadUntrimmed(url);
  }

  /** Once the setup screen has been given an address that is accepted but cannot be
      requested, one attempt is enough, whatever the network does. */
  lemma SubmitMutes(w: World, text: string, outcome: Outcome, host: Host)
    requires WorldOk(w) && AtPrompt(w) && ServerUrl !in Entries(w.config) && ServerUrl !in EnvEntries(host.env)
    requires BadUrl(Strip(ServerAddress.Normalise(text)))
    ensures var v := Take(Take(Take(w, Submit(text, true), host), Begin, host), Serve(outcome), host);
            Mute(v, host) && v.proc.Some? && v.proc.value.raised && v.server == w.server
  {
    var url := ServerAddress.Normalise(text);
    hide ServerAddress.Normalise, Requestable, Strip, Recorded, Entries, EnvEntries, TextSetting, Mirrors, Take, WorldOk,
         MuteProc;
    BadAsTyped(text);
    AddressRecorded(w.self, w.config, host, url);
    AttemptRaises(w, text, outcome, host);
  }

  /** The setup screen waits for an address, and no token was preset. */
  predicate AtPrompt(w: World) {
    Writable(w.self) && w.proc.Some? && w.proc.value.setup && w.proc.value.entry && w.proc.value.id.token == ""
  }

  lemma AddressRecorded(self: File, config: File, host: Host, url: string)
    requires Writable(self) && url != "" && ServerUrl !in Entries(config) && ServerUrl !in EnvEntries(host.env)
    ensures var next := Recorded(self, ServerUrl, url);
            && Writable(next) && Mirrors(config, next, ServerUrl) && ServerUrl in Entries(next)
            && TextSetting(ServerUrl, next, config, host) == Strip(url)
  {
    RecordedEntries(self, ServerUrl, url);
    CoerceHost(url);
    hide Entries, EnvEntries, Recorded, Strip, Coerce, Fallback;
  }

  lemma AttemptRaises(w: World, text: string, outcome: Outcome, host: Host)
    requires WorldOk(w) && AtPrompt(w) && BadUrl(ServerAddress.Normalise(text))
    ensures var v := Take(Take(Take(w, Submit(text, true), host), Begin, host), Serve(outcome), host);
            && v == w.(self := Recorded(w.self, ServerUrl, ServerAddress.Normalise(text)), proc := v.proc)
            && v.proc.Some? && MuteProc(v.proc.value) && v.proc.value.raised
  {
    hide ServerAddress.Normalise, Requestable, Recorded, Loadable, Started, StartedSelf, Register, Called;
  }

  // ----- and so does the hook

  /** The hook accepts a bare host name as the address, on every device that starts at all,
      and such a device is mute. */
  lemma HookMutes(address: string, w: World, host: Host)
    requires ServerAddress.HostName(address) && ServerUrl !in EnvEntries(host.env)
    requires Loadable(w.self, Absent, host) && w.proc.None?
    ensures var config := Generated(map[ServerUrl := address]);
            Loadable(w.self, config, host) && Mute(w.(config := config), host)
  {
    var config := Object(map[ServerUrl := Str(address)]);
    HookWrites(address);
    AddressInForce(w.self, address, host);
    LoadableWithAddress(w.self, address, host);
    HostPlain(address);
    HostBase(address);
    NoScheme(address);
    hide Generated, Loadable, TextSetting, Requestable;
  }

  lemma HostBase(host: string)
    requires ServerAddress.HostName(host)
    ensures host != "" && RStripChar(host, '/') == host && Trimmed(host) && !HasControl(host) && DropNewlines(host) == host
  {
  }

  lemma HookWrites(address: string)
    requires ServerAddress.HostName(address)
    ensures Generated(map[ServerUrl := address]) == Object(map[ServerUrl := Str(address)])
  {
    HostBase(address);
    hide HasControl, DropNewlines;
    var snap := map[ServerUrl := address];
    assert !HasControl("") by { NoControl(); }
    assert HOOK_KEYS[0] == ServerUrl;
    assert forall f: Field :: SnapValue(snap, f) == if f == ServerUrl then address else "";
    assert Chosen(snap, HOOK_KEYS) == map[ServerUrl := Str(address)];
  }

  lemma AddressInForce(self: File, address: string, host: Host)
    requires ServerAddress.HostName(address) && ServerUrl !in EnvEntries(host.env)
    ensures TextSetting(ServerUrl, self, Object(map[ServerUrl := Str(address)]), host) == address
  {
    hide Strip, Coerce, Trimmed, Entries, EnvEntries, Fallback, ServerAddress.HostName;
    HostBase(address);
    StripTrimmed(address);
    CoerceHost(address);
    OneEntry(address);
  }

  lemma OneEntry(address: string)
    requires address != ""
    ensures Entries(Object(map[ServerUrl := Str(address)])) == map[ServerUrl := Str(address)]
  {
  }

  lemma LoadableWithAddress(self: File, address: string, host: Host)
    requires address != "" && Loadable(self, Absent, host)
    ensures Loadable(self, Object(map[ServerUrl := Str(address)]), host)
  {
    var config := Object(map[ServerUrl := Str(address)]);
    LoadableFieldwise(self, Absent, host);
    LoadableFieldwise(self, config, host);
    hide Loadable, Strip, EnvEntries, Fallback;
    forall f: Field
      ensures RawFits(f, Raw(f, self, config, host))
    {
      assert RawFits(f, Raw(f, self, Absent, host));
      if f == ServerUrl {
        TextFits(Raw(f, self, config, host));
      } else {
        assert f !in Entries(config);
      }
    }
  }

  lemma TextFits(raw: Option<RawValue>)
    ensures RawFits(ServerUrl, raw)
  {
    hide Coerce;
  }
}
