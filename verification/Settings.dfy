/** The settings of one kiosk: how the client's own file, the file the configure hook
  writes and the environment become one configuration, and what each step does to disk. */
module Settings {
  import opened Text
  import opened Digits

  datatype Field =
    | ServerUrl | ApiToken | DeviceId | CecBackend | CecDevice | OsdName
    | RefreshInterval | RotateInterval | StartDashboard | VerifyTls | RequestTimeout
    | AllowedHosts | MaxLiveViews | HardwareAcceleration | DhcpDiscovery

  const FIELDS: seq<Field> := [
    ServerUrl, ApiToken, DeviceId, CecBackend, CecDevice, OsdName, RefreshInterval,
    RotateInterval, StartDashboard, VerifyTls, RequestTimeout, AllowedHosts, MaxLiveViews,
    HardwareAcceleration, DhcpDiscovery]

  /** What the configure hook reads back from `snap set`. */
  const HOOK_KEYS: seq<Field> := [
    ServerUrl, ApiToken, DeviceId, CecBackend, CecDevice, OsdName, RefreshInterval,
    RotateInterval, StartDashboard, VerifyTls, AllowedHosts, MaxLiveViews, HardwareAcceleration]

  datatype Kind = TextKind | IntKind | BoolKind

  datatype Value = S(s: string) | I(i: int) | B(b: bool)

  function KindOf(f: Field): Kind {
    match f
    case RefreshInterval => IntKind
    case RotateInterval => IntKind
    case RequestTimeout => IntKind
    case MaxLiveViews => IntKind
    case VerifyTls => BoolKind
    case DhcpDiscovery => BoolKind
    case _ => TextKind
  }

  predicate HasKind(v: Value, k: Kind) {
    match k
    case TextKind => v.S?
    case IntKind => v.I?
    case BoolKind => v.B?
  }

  function Default(f: Field): (v: Value)
    ensures HasKind(v, KindOf(f))
  {
    match f
    case CecBackend => S("auto")
    case CecDevice => S("/dev/cec0")
    case OsdName => S("VisionTAK")
    case RefreshInterval => I(300)
    case RotateInterval => I(0)
    case VerifyTls => B(true)
    case RequestTimeout => I(15)
    case AllowedHosts => S("*")
    case MaxLiveViews => I(3)
    case HardwareAcceleration => S("auto")
    case DhcpDiscovery => B(false)
    case _ => S("")
  }

  /** A complete configuration gives every field a value of its kind. */
  type Config = map<Field, Value>

  predicate Typed(c: Config) {
    forall f: Field :: f in c && HasKind(c[f], KindOf(f))
  }

  // ----- coercion

  /** What a settings file or the environment may give a field: null, a text, or any other
      value, of which only the text that `str` makes of it is ever used. */
  datatype RawValue = Null | Str(s: string) | Other(text: string)

  function Shown(raw: RawValue): string {
    match raw
    case Null => "None"
    case Str(s) => s
    case Other(text) => text
  }

  /** Decimal digits of any script, single underscores allowed between them, as `int` reads
      them. */
  function ParseDigits(s: string): Option<nat> {
    if s == "" || DecimalDigit(s[|s| - 1]).None? then None
    else
      var digit := DecimalDigit(s[|s| - 1]).value;
      var front := s[..|s| - 1];
      if front == "" then Some(digit)
      else
        var more := if front[|front| - 1] == '_' then ParseDigits(front[..|front| - 1]) else ParseDigits(front);
        match more
        case Some(n) => Some(n * 10 + digit)
        case None => None
  }

  function DigitCount(s: string): nat {
    if s == "" then 0 else DigitCount(s[..|s| - 1]) + if s[|s| - 1] == '_' then 0 else 1
  }

  function ParseNat(s: string): Option<nat> {
    if DigitCount(s) > MAX_STR_DIGITS then None else ParseDigits(s)
  }

  function ParseInt(s: string): Option<int> {
    if s != "" && s[0] == '-' then
      match ParseNat(s[1..])
      case Some(n) => Some(0 - n)
      case None => None
    else if s != "" && s[0] == '+' then
      match ParseNat(s[1..])
      case Some(n) => Some(n)
      case None => None
    else
      match ParseNat(s)
      case Some(n) => Some(n)
      case None => None
  }

  function Coerce(raw: RawValue, k: Kind): (v: Option<Value>)
    ensures v.Some? ==> HasKind(v.value, k)
    ensures k == TextKind ==> v == Some(S(Strip(Shown(raw))))
  {
    match k
    case TextKind => Some(S(Strip(Shown(raw))))
    case IntKind =>
      (match ParseInt(Strip(Shown(raw)))
       case Some(n) => Some(I(n))
       case None => None)
    case BoolKind =>
      var text := Lower(Strip(Shown(raw)));
      if text == "1" || text == "true" || text == "yes" || text == "on" then Some(B(true))
      else if text == "0" || text == "false" || text == "no" || text == "off" then Some(B(false))
      else None
  }

  function Utf8Length(s: string): nat {
    if s == "" then 0
    else
      var n := s[|s| - 1] as int;
      (if n < 0x80 then 1 else if n < 0x800 then 2 else if n < 0x10000 then 3 else 4) + Utf8Length(s[..|s| - 1])
  }

  /** What the constructor of a configuration insists on. */
  predicate Acceptable(c: Config)
    requires Typed(c)
  {
    && (c[RefreshInterval].i == 0 || c[RefreshInterval].i >= 10)
    && (c[RotateInterval].i == 0 || c[RotateInterval].i >= 5)
    && c[CecBackend].s in {"auto", "kernel", "libcec", "none"}
    && c[MaxLiveViews].i >= 1
    && c[HardwareAcceleration].s in {"auto", "always", "never"}
    && Utf8Length(c[OsdName].s) <= 14
  }

  // ----- files

  /** A settings file: missing; not JSON; refused by the parser in another way, as a file
      that is not UTF-8 is; an object of settings; an array or a string in which no setting's
      name is found; and any other JSON value, or an array or a string in which one is, where
      looking a setting up is a type error. */
  datatype File = Absent | NotJson | Garbled | Object(entries: map<Field, RawValue>) | Inert | Unusable

  /** The files the client can add a setting of its own to. */
  predicate Writable(self: File) {
    self.Absent? || self.NotJson? || self.Object?
  }

  /** The files of the hook that a start can look its settings up in. */
  predicate Searchable(config: File) {
    config.Absent? || config.Object? || config.Inert?
  }

  /** What does not change while the device is up. */
  datatype Host = Host(env: map<Field, string>, hostname: string, memoryMib: Option<nat>)

  predicate IsSet(entries: map<Field, RawValue>, f: Field) {
    f in entries && entries[f] != Null && entries[f] != Str("")
  }

  /** The entries of a file that count: present and neither null nor empty. */
  function Entries(file: File): map<Field, RawValue> {
    match file
    case Object(entries) => map f | f in entries && IsSet(entries, f) :: entries[f]
    case _ => map[]
  }

  function EnvEntries(env: map<Field, string>): map<Field, RawValue> {
    map f | f in env && env[f] != "" :: Str(env[f])
  }

  const LOW_MEMORY_MIB := 1536
  const HIGH_MEMORY_MIB := 3072
  // As a text, like every raw value.
  const HIGH_MEMORY_LIVE_VIEWS := "6"

  /** What a field falls back on when nobody has set it. */
  function Fallback(f: Field, host: Host): Option<RawValue> {
    match f
    case DeviceId => Some(Str(host.hostname))
    case MaxLiveViews =>
      if host.memoryMib.Some? && host.memoryMib.value < LOW_MEMORY_MIB then Some(Other("1"))
      else if host.memoryMib.Some? && host.memoryMib.value >= HIGH_MEMORY_MIB then Some(Other(HIGH_MEMORY_LIVE_VIEWS))
      else None
    case HardwareAcceleration =>
      if host.memoryMib.Some? && host.memoryMib.value < LOW_MEMORY_MIB then Some(Str("never")) else None
    case _ => None
  }

  /** The precedence rule, field by field: environment, hook's file, client's file, board. */
  function Raw(f: Field, self: File, config: File, host: Host): Option<RawValue> {
    if f in EnvEntries(host.env) then Some(EnvEntries(host.env)[f])
    else if f in Entries(config) then Some(Entries(config)[f])
    else if f in Entries(self) then Some(Entries(self)[f])
    else Fallback(f, host)
  }

  /** A mapping that holds every field's raw value, and nothing for the fields without one. */
  ghost predicate Merged(values: map<Field, RawValue>, self: File, config: File, host: Host) {
    forall f: Field :: Raw(f, self, config, host) == if f in values then Some(values[f]) else None
  }

  function Setting(f: Field, self: File, config: File, host: Host): (v: Option<Value>)
    ensures v.Some? ==> HasKind(v.value, KindOf(f))
  {
    match Raw(f, self, config, host)
    case None => Some(Default(f))
    case Some(raw) => Coerce(raw, KindOf(f))
  }

  datatype LoadResult = Loaded(config: Config) | Invalid | TypeFailure

  ghost predicate AllCoerce(self: File, config: File, host: Host) {
    forall f: Field :: Setting(f, self, config, host).Some?
  }

  /** Every field at its coerced setting. */
  ghost predicate Reflects(c: Config, self: File, config: File, host: Host) {
    forall f: Field :: f in c && Setting(f, self, config, host) == Some(c[f])
  }

  lemma ReflectsTyped(c: Config, self: File, config: File, host: Host)
    requires Reflects(c, self, config, host)
    ensures Typed(c) && AllCoerce(self, config, host)
  {
  }

  /** The meaning of a load: which files make it fail, and otherwise the configuration
      whose every field obeys the precedence rule. */
  ghost predicate LoadsAs(r: LoadResult, self: File, config: File, host: Host) {
    if self.Unusable? then r == TypeFailure
    else if config.NotJson? || config.Garbled? then r == Invalid
    else if config.Unusable? then r == TypeFailure
    else if !AllCoerce(self, config, host) then r == Invalid
    else
      match r
      case Loaded(c) => Reflects(c, self, config, host) && Typed(c) && Acceptable(c)
      case Invalid => exists c :: Reflects(c, self, config, host) && Typed(c) && !Acceptable(c)
      case TypeFailure => false
  }

  ghost predicate Loadable(self: File, config: File, host: Host) {
    exists c :: LoadsAs(Loaded(c), self, config, host)
  }

  lemma ReflectsUnique(a: Config, b: Config, self: File, config: File, host: Host)
    requires Reflects(a, self, config, host) && Reflects(b, self, config, host)
    ensures a == b
  {
    assert forall f: Field :: f in a && f in b && a[f] == b[f];
  }

  /** A load has one outcome. */
  lemma LoadDeterministic(r: LoadResult, q: LoadResult, self: File, config: File, host: Host)
    requires LoadsAs(r, self, config, host) && LoadsAs(q, self, config, host)
    ensures r == q
  {
    if !self.Unusable? && Searchable(config) && AllCoerce(self, config, host) {
      forall c, d | Reflects(c, self, config, host) && Reflects(d, self, config, host)
        ensures c == d
      {
        ReflectsUnique(c, d, self, config, host);
      }
    }
  }

  /** A client file that cannot be parsed, or holds an array or a string without a setting's
      name, is as good as none; only one in which looking a setting up is a type error stops a
      load with one. */
  lemma SelfTolerated(r: LoadResult, self: File, config: File, host: Host)
    requires LoadsAs(r, self, config, host) && !config.Unusable?
    ensures r == TypeFailure <==> self.Unusable?
    ensures !self.Unusable? && !self.Object? ==> LoadsAs(r, Absent, config, host)
  {
    hide Coerce, EnvEntries, Fallback, Acceptable;
    if !self.Unusable? && !self.Object? {
      assert Entries(self) == Entries(Absent);
      assert forall f: Field :: Setting(f, self, config, host) == Setting(f, Absent, config, host);
      assert AllCoerce(self, config, host) <==> AllCoerce(Absent, config, host);
      assert forall c :: Reflects(c, self, config, host) <==> Reflects(c, Absent, config, host);
    }
  }

  // ----- the disk

  /** The keys the client writes for itself. */
  predicate Own(f: Field) {
    f == ServerUrl || f == ApiToken || f == DeviceId
  }

  predicate OwnFile(self: File) {
    self.Absent? || (self.Object? && forall f :: f in self.entries ==> Own(f))
  }

  /** The client's file after one more setting is recorded. */
  function Recorded(self: File, f: Field, value: string): File
    requires Writable(self)
  {
    match self
    case Object(entries) => Object(entries[f := Str(value)])
    case _ => Object(map[f := Str(value)])
  }

  function DropNewlines(s: string): string {
    RStripChar(s, '\n')
  }

  predicate HasControl(s: string) {
    exists i :: 0 <= i < |s| && s[i] as int < 32
  }

  /** What `snapctl get` yields for a key, the empty text when it is unset. */
  function SnapValue(snap: map<Field, string>, f: Field): string {
    if f in snap then DropNewlines(snap[f]) else ""
  }

  /** The file the hook composes: every set key, and not JSON at all when a value holds a
      control character, which the hook does not escape. */
  ghost function Generated(snap: map<Field, string>): File {
    if Clean(snap, HOOK_KEYS) then Object(Chosen(snap, HOOK_KEYS)) else NotJson
  }

  ghost function Chosen(snap: map<Field, string>, keys: seq<Field>): map<Field, RawValue> {
    map f | f in keys && SnapValue(snap, f) != "" :: Str(SnapValue(snap, f))
  }

  ghost predicate Clean(snap: map<Field, string>, keys: seq<Field>) {
    forall f :: f in keys ==> !HasControl(SnapValue(snap, f))
  }

  class Disk {
    const host: Host
    var self: File
    var config: File
    var tmp: File
    var backup: File

    constructor (host: Host)
      ensures this.host == host
      ensures self == config == tmp == backup == Absent
    {
      this.host := host;
      self, config, tmp, backup := Absent, Absent, Absent, Absent;
    }

    /** The known fields of one mapping, picked out one by one. */
    static method FromMapping(source: map<Field, RawValue>) returns (out: map<Field, RawValue>)
      ensures out == Entries(Object(source))
    {
      hide IsSet, FIELDS;
      out := map[];
      for n := 0 to |FIELDS|
        invariant out == map f | f in source && IsSet(source, f) && f in FIELDS[..n] :: source[f]
      {
        var field := FIELDS[n];
        assert forall f :: f in FIELDS[..n + 1] <==> f in FIELDS[..n] || f == field;
        if field !in source || source[field] == Null || source[field] == Str("") {
          Unset(source, field);
          continue;
        }
        Unset(source, field);
        out := out[field := source[field]];
      }
      assert FIELDS[..|FIELDS|] == FIELDS;
      EveryField();
    }

    method Load() returns (r: LoadResult)
      ensures LoadsAs(r, self, config, host)
    {
      hide IsSet, EnvEntries, Setting, Raw, Acceptable;
      var values: map<Field, RawValue> := map[];
      if self.Unusable? {
        return TypeFailure;
      }
      if self.Object? {
        values := FromMapping(self.entries);
      }
      if config.NotJson? || config.Garbled? {
        return Invalid;
      }
      if config.Unusable? {
        return TypeFailure;
      }
      if config.Object? {
        var more := FromMapping(config.entries);
        values := values + more;
      }
      var env := FromMapping(map f | f in host.env :: Str(host.env[f]));
      EnvLayer(host.env);
      values := values + env;
      values := Defaults(values);
      r := Build(values);
    }

    /** The settings the board decides when nobody else has. */
    method Defaults(given: map<Field, RawValue>) returns (values: map<Field, RawValue>)
      requires given == Entries(self) + Entries(config) + EnvEntries(host.env)
      ensures Merged(values, self, config, host)
    {
      hide Merged, Entries, EnvEntries;
      values := given;
      if DeviceId !in values {
        values := values[DeviceId := Str(host.hostname)];
      }
      if host.memoryMib.Some? && host.memoryMib.value < LOW_MEMORY_MIB {
        if MaxLiveViews !in values {
          values := values[MaxLiveViews := Other("1")];
        }
        if HardwareAcceleration !in values {
          values := values[HardwareAcceleration := Str("never")];
        }
      } else if host.memoryMib.Some? && host.memoryMib.value >= HIGH_MEMORY_MIB {
        if MaxLiveViews !in values {
          values := values[MaxLiveViews := Other(HIGH_MEMORY_LIVE_VIEWS)];
        }
      }
      MergedFallback(given, values, self, config, host);
    }

    /** The typed pass over the fields, and the constructor's checks. */
    method Build(values: map<Field, RawValue>) returns (r: LoadResult)
      requires !self.Unusable? && Searchable(config)
      requires Merged(values, self, config, host)
      ensures LoadsAs(r, self, config, host)
    {
      var c: Config := map[];
      for n := 0 to |FIELDS|
        invariant c.Keys == set f | f in FIELDS[..n]
        invariant forall f :: f in c ==> Setting(f, self, config, host) == Some(c[f])
      {
        var field := FIELDS[n];
        assert forall f :: f in FIELDS[..n + 1] <==> f in FIELDS[..n] || f == field;
        if field in values {
          var v := Coerce(values[field], KindOf(field));
          if v.None? {
            assert Setting(field, self, config, host).None?;
            return Invalid;
          }
          c := c[field := v.value];
        } else {
          c := c[field := Default(field)];
        }
      }
      assert FIELDS[..|FIELDS|] == FIELDS;
      EveryField();
      assert Reflects(c, self, config, host);
      ReflectsTyped(c, self, config, host);
      if Acceptable(c) {
        return Loaded(c);
      }
      return Invalid;
    }

    /** `written` tells whether the temporary file could be written and moved. */
    method Persist(f: Field, value: string, written: bool) returns (ok: bool)
      modifies `self
      ensures ok == (written && (old(self) == Absent || old(self) == NotJson || old(self).Object?))
      ensures self == if ok then Recorded(old(self), f, value) else old(self)
    {
      var current: map<Field, RawValue> := map[];
      if self.Object? {
        current := self.entries;
      } else if !Writable(self) {
        return false;
      }
      current := current[f := Str(value)];
      if !written {
        return false;
      }
      self := Object(current);
      return true;
    }

    /** One uninterrupted run of the configure hook. */
    method Configure(snap: map<Field, string>) returns (accepted: bool)
      modifies `config, `tmp, `backup
      ensures accepted <==> Loadable(self, Generated(snap), host)
      ensures config == if accepted then Generated(snap) else old(config)
      ensures backup == Absent && tmp == Absent
    {
      tmp := Compose(snap);
      if config != Absent {
        backup := config;
      } else {
        backup := Absent;
      }
      config, tmp := tmp, Absent;
      var checked := Load();
      LoadableIff(checked, self, config, host);
      if !checked.Loaded? {
        if backup != Absent {
          config, backup := backup, Absent;
        } else {
          config := Absent;
        }
        return false;
      }
      backup := Absent;
      return true;
    }

    /** The loop over the hook's keys. */
    static method Compose(snap: map<Field, string>) returns (file: File)
      ensures file == Generated(snap)
    {
      hide SnapValue, HasControl;
      var entries: map<Field, RawValue> := map[];
      var readable := true;
      for n := 0 to |HOOK_KEYS|
        invariant entries == Chosen(snap, HOOK_KEYS[..n])
        invariant readable <==> Clean(snap, HOOK_KEYS[..n])
      {
        var key := HOOK_KEYS[n];
        var value := SnapValue(snap, key);
        ChosenNext(snap, HOOK_KEYS[..n], key);
        assert HOOK_KEYS[..n + 1] == HOOK_KEYS[..n] + [key];
        if value == "" {
          assert !HasControl("") by { NoControl(); }
          continue;
        }
        if HasControl(value) {
          readable := false;
        }
        entries := entries[key := Str(value)];
      }
      assert HOOK_KEYS[..|HOOK_KEYS|] == HOOK_KEYS;
      return if readable then Object(entries) else NotJson;
    }
  }

  lemma NoControl()
    ensures !HasControl("")
  {
  }

  lemma ChosenNext(snap: map<Field, string>, keys: seq<Field>, key: Field)
    ensures Chosen(snap, keys + [key])
         == if SnapValue(snap, key) == "" then Chosen(snap, keys) else Chosen(snap, keys)[key := Str(SnapValue(snap, key))]
    ensures Clean(snap, keys + [key]) <==> Clean(snap, keys) && !HasControl(SnapValue(snap, key))
  {
    hide SnapValue, HasControl;
    assert forall f :: f in keys + [key] <==> f in keys || f == key;
  }

  lemma Unset(source: map<Field, RawValue>, f: Field)
    ensures IsSet(source, f) <==> f in source && source[f] != Null && source[f] != Str("")
  {
  }

  lemma EnvLayer(env: map<Field, string>)
    ensures Entries(Object(map f | f in env :: Str(env[f]))) == EnvEntries(env)
  {
  }

  lemma MergedFallback(given: map<Field, RawValue>, values: map<Field, RawValue>, self: File, config: File, host: Host)
    requires given == Entries(self) + Entries(config) + EnvEntries(host.env)
    requires forall f :: f in given ==> f in values && values[f] == given[f]
    requires forall f: Field :: f !in given ==> Fallback(f, host) == if f in values then Some(values[f]) else None
    ensures Merged(values, self, config, host)
  {
    hide Entries, EnvEntries, Fallback;
  }

  lemma EveryField()
    ensures forall f: Field :: f in FIELDS
  {
    forall f: Field
      ensures f in FIELDS
    {
      match f
      case ServerUrl => assert FIELDS[0] == f;
      case ApiToken => assert FIELDS[1] == f;
      case DeviceId => assert FIELDS[2] == f;
      case CecBackend => assert FIELDS[3] == f;
      case CecDevice => assert FIELDS[4] == f;
      case OsdName => assert FIELDS[5] == f;
      case RefreshInterval => assert FIELDS[6] == f;
      case RotateInterval => assert FIELDS[7] == f;
      case StartDashboard => assert FIELDS[8] == f;
      case VerifyTls => assert FIELDS[9] == f;
      case RequestTimeout => assert FIELDS[10] == f;
      case AllowedHosts => assert FIELDS[11] == f;
      case MaxLiveViews => assert FIELDS[12] == f;
      case HardwareAcceleration => assert FIELDS[13] == f;
      case DhcpDiscovery => assert FIELDS[14] == f;
    }
  }

  lemma LoadableIff(r: LoadResult, self: File, config: File, host: Host)
    requires LoadsAs(r, self, config, host)
    ensures r.Loaded? <==> Loadable(self, config, host)
  {
    if Loadable(self, config, host) {
      var c :| LoadsAs(Loaded(c), self, config, host);
      LoadDeterministic(r, Loaded(c), self, config, host);
    }
  }

  // ----- exactly what stops a start

  /** The constructor's check on one field. */
  predicate Meets(f: Field, v: Value)
    requires HasKind(v, KindOf(f))
  {
    match f
    case RefreshInterval => v.i == 0 || v.i >= 10
    case RotateInterval => v.i == 0 || v.i >= 5
    case CecBackend => v.s in {"auto", "kernel", "libcec", "none"}
    case MaxLiveViews => v.i >= 1
    case HardwareAcceleration => v.s in {"auto", "always", "never"}
    case OsdName => Utf8Length(v.s) <= 14
    case _ => true
  }

  /** A raw value that a field can take. */
  predicate Fits(f: Field, raw: RawValue) {
    Coerce(raw, KindOf(f)).Some? && Meets(f, Coerce(raw, KindOf(f)).value)
  }

  predicate RawFits(f: Field, raw: Option<RawValue>) {
    raw.Some? ==> Fits(f, raw.value)
  }

  lemma DefaultMeets(f: Field)
    ensures Meets(f, Default(f))
  {
    Utf8Ascii("VisionTAK");
    hide Utf8Length;
  }

  lemma AcceptableFieldwise(c: Config)
    requires Typed(c)
    ensures Acceptable(c) <==> forall f: Field :: Meets(f, c[f])
  {
    hide Utf8Length;
    if forall f: Field :: Meets(f, c[f]) {
      assert Meets(RefreshInterval, c[RefreshInterval]) && Meets(RotateInterval, c[RotateInterval]);
      assert Meets(CecBackend, c[CecBackend]) && Meets(MaxLiveViews, c[MaxLiveViews]);
      assert Meets(HardwareAcceleration, c[HardwareAcceleration]) && Meets(OsdName, c[OsdName]);
    }
  }

  lemma SettingFits(f: Field, self: File, config: File, host: Host)
    ensures RawFits(f, Raw(f, self, config, host))
       <==> Setting(f, self, config, host).Some? && Meets(f, Setting(f, self, config, host).value)
  {
    DefaultMeets(f);
    hide Raw, Coerce, Default, Meets;
  }

  ghost predicate AllFit(self: File, config: File, host: Host) {
    forall f: Field :: RawFits(f, Raw(f, self, config, host))
  }

  lemma LoadableFits(self: File, config: File, host: Host)
    requires Loadable(self, config, host)
    ensures AllFit(self, config, host)
  {
    hide Raw, RawFits, Setting, Meets, Acceptable;
    var c :| LoadsAs(Loaded(c), self, config, host);
    AcceptableFieldwise(c);
    forall f: Field
      ensures RawFits(f, Raw(f, self, config, host))
    {
      SettingFits(f, self, config, host);
    }
  }

  lemma FitsLoadable(self: File, config: File, host: Host)
    requires AllFit(self, config, host) && !self.Unusable? && Searchable(config)
    ensures Loadable(self, config, host)
  {
    hide Raw, RawFits, Setting, Meets, Acceptable, FIELDS;
    forall f: Field
      ensures Setting(f, self, config, host).Some? && Meets(f, Setting(f, self, config, host).value)
    {
      assert RawFits(f, Raw(f, self, config, host));
      SettingFits(f, self, config, host);
    }
    EveryField();
    var c: Config := map f: Field | f in FIELDS :: Setting(f, self, config, host).value;
    ReflectsTyped(c, self, config, host);
    AcceptableFieldwise(c);
    hide AllFit;
    assert LoadsAs(Loaded(c), self, config, host);
  }

  /** A start succeeds exactly when both files can be searched for keys and every field's raw
      value can be read and passes that field's check. */
  lemma LoadableFieldwise(self: File, config: File, host: Host)
    ensures Loadable(self, config, host)
       <==> !self.Unusable? && Searchable(config) && AllFit(self, config, host)
  {
    hide AllFit;
    if Loadable(self, config, host) {
      LoadableFits(self, config, host);
    } else if !self.Unusable? && Searchable(config) && AllFit(self, config, host) {
      FitsLoadable(self, config, host);
    }
  }

  /** A field whose value comes from the client's file. */
  predicate FromSelf(f: Field, self: File, config: File, host: Host) {
    f in Entries(self) && f !in Entries(config) && f !in EnvEntries(host.env)
  }

  /** On a device that could start without it, the client's own file stops the start exactly
      when looking a setting up in it is a type error, as in a number, a boolean or null, or
      when it gives a field that nobody overrides a value the field cannot take. */
  lemma SelfStopsIff(self: File, config: File, host: Host)
    requires Loadable(Absent, config, host)
    ensures Loadable(self, config, host)
       <==> !self.Unusable? && forall f: Field :: FromSelf(f, self, config, host) ==> Fits(f, Entries(self)[f])
  {
    LoadableFieldwise(Absent, config, host);
    LoadableFieldwise(self, config, host);
    hide Loadable, Fits, EnvEntries, Fallback;
    forall f: Field
      ensures RawFits(f, Raw(f, self, config, host))
         <==> (FromSelf(f, self, config, host) ==> Fits(f, Entries(self)[f]))
    {
      SelfLayer(f, self, config, host);
    }
  }

  lemma SelfLayer(f: Field, self: File, config: File, host: Host)
    ensures Raw(f, self, config, host)
         == if FromSelf(f, self, config, host) then Some(Entries(self)[f]) else Raw(f, Absent, config, host)
  {
  }

  /** A stray key in an otherwise sound file is enough, on every device. */
  lemma StrayKeyStops(host: Host)
    requires CecBackend !in EnvEntries(host.env)
    ensures !Loadable(Object(map[CecBackend := Str("x")]), Absent, host)
    ensures Loadable(NotJson, Absent, host) <==> Loadable(Absent, Absent, host)
  {
    var self := Object(map[CecBackend := Str("x")]);
    LoadableFieldwise(self, Absent, host);
    LoadableFieldwise(NotJson, Absent, host);
    LoadableFieldwise(Absent, Absent, host);
    StripTrimmed("x");
    hide Loadable, Strip, EnvEntries;
    assert Raw(CecBackend, self, Absent, host) == Some(Str("x"));
    assert !Fits(CecBackend, Str("x"));
    assert forall f: Field :: Raw(f, NotJson, Absent, host) == Raw(f, Absent, Absent, host);
  }

  /** With nothing set anywhere every board, small or large, can start. */
  lemma DefaultsLoadable(host: Host)
    requires host.env == map[]
    ensures Loadable(Absent, Absent, host)
  {
    hide FIELDS, Setting, Acceptable, OutOfBox;
    EveryField();
    var c: Config := map f: Field | f in FIELDS :: OutOfBox(f, host);
    forall f: Field
      ensures f in c && Setting(f, Absent, Absent, host) == Some(c[f])
    {
      NothingSet(f, host);
    }
    OutOfBoxAcceptable(c, host);
    ReflectsTyped(c, Absent, Absent, host);
    assert LoadsAs(Loaded(c), Absent, Absent, host);
  }

  lemma OutOfBoxAcceptable(c: Config, host: Host)
    requires forall f: Field :: f in c && c[f] == OutOfBox(f, host)
    ensures Typed(c) && Acceptable(c)
  {
    assert c[OsdName] == OutOfBox(OsdName, host) && c[CecBackend] == OutOfBox(CecBackend, host);
    assert c[MaxLiveViews] == OutOfBox(MaxLiveViews, host) && c[RefreshInterval] == OutOfBox(RefreshInterval, host);
    assert c[RotateInterval] == OutOfBox(RotateInterval, host);
    assert c[HardwareAcceleration] == OutOfBox(HardwareAcceleration, host);
    OutOfBoxValues(host);
    Utf8Ascii("VisionTAK");
    hide OutOfBox, Utf8Length, Strip;
  }

  lemma OutOfBoxValues(host: Host)
    ensures OutOfBox(OsdName, host) == S("VisionTAK") && OutOfBox(CecBackend, host) == S("auto")
    ensures OutOfBox(MaxLiveViews, host).i >= 1 && OutOfBox(HardwareAcceleration, host).s in {"auto", "never"}
    ensures OutOfBox(RefreshInterval, host) == Default(RefreshInterval)
    ensures OutOfBox(RotateInterval, host) == Default(RotateInterval)
  {
    hide Strip;
  }

  /** The value of each field on a board nobody has configured. */
  function OutOfBox(f: Field, host: Host): (v: Value)
    ensures HasKind(v, KindOf(f))
  {
    if f == DeviceId then S(Strip(host.hostname))
    else if f == MaxLiveViews && Fallback(f, host).Some? then I(if Fallback(f, host) == Some(Other("1")) then 1 else 6)
    else if f == HardwareAcceleration && Fallback(f, host).Some? then S("never")
    else Default(f)
  }

  lemma NothingSet(f: Field, host: Host)
    requires host.env == map[]
    ensures Setting(f, Absent, Absent, host) == Some(OutOfBox(f, host))
  {
    hide Coerce, Strip, ParseInt;
    CoerceDigit('1');
    CoerceDigit('6');
    NeverTrimmed();
    CoerceTrimmed("never");
    CoerceHost(host.hostname);
    NoLayer(f, host);
    hide EnvEntries, Entries, Trimmed, Raw;
  }

  lemma NoLayer(f: Field, host: Host)
    requires host.env == map[]
    ensures Raw(f, Absent, Absent, host) == Fallback(f, host)
  {
  }

  lemma NeverTrimmed()
    ensures Trimmed("never")
  {
  }

  lemma CoerceHost(name: string)
    ensures Coerce(Str(name), TextKind) == Some(S(Strip(name)))
  {
    hide Coerce, Strip;
  }

  lemma CoerceTrimmed(s: string)
    requires Trimmed(s)
    ensures Coerce(Str(s), TextKind) == Some(S(s))
  {
    hide Strip;
    StripTrimmed(s);
  }

  lemma CoerceDigit(c: char)
    requires IsDigit(c)
    ensures Coerce(Other([c]), IntKind) == Some(I(c as int - '0' as int))
  {
    hide Strip, ParseInt;
    OneDigit(c);
  }

  lemma OneDigit(c: char)
    requires IsDigit(c)
    ensures Strip([c]) == [c] && ParseInt([c]) == Some(c as int - '0' as int)
  {
    StripTrimmed([c]);
    hide Strip;
    assert [c][..0] == [];
    assert DigitCount([c]) == 1;
  }

  lemma {:induction false} Utf8Ascii(s: string)
    requires forall i :: 0 <= i < |s| ==> s[i] as int < 0x80
    ensures Utf8Length(s) == |s|
  {
    if s != "" {
      Utf8Ascii(s[..|s| - 1]);
    }
  }

  // ----- what the client writes never makes a load fail

  /** Loading depends on the hook's file and the environment only, not on which of its own
      settings the client has recorded. */
  lemma OwnFileIrrelevant(a: File, b: File, config: File, host: Host)
    requires OwnFile(a) && OwnFile(b)
    ensures Loadable(a, config, host) <==> Loadable(b, config, host)
  {
    if Loadable(a, config, host) {
      OwnFileTransfer(a, b, config, host);
    }
    if Loadable(b, config, host) {
      OwnFileTransfer(b, a, config, host);
    }
  }

  lemma OwnFileTransfer(a: File, b: File, config: File, host: Host)
    requires OwnFile(a) && OwnFile(b) && Loadable(a, config, host)
    ensures Loadable(b, config, host)
  {
    var c :| LoadsAs(Loaded(c), a, config, host);
    var d := Transferred(c, a, b, config, host);
    SameAcceptable(c, d);
    OwnWritable(b);
    hide Reflects, Acceptable, Typed, OwnFile, AllCoerce;
    assert LoadsAs(Loaded(d), b, config, host);
  }

  /** The configuration that differs from `c` only in what the client recorded. */
  lemma Transferred(c: Config, a: File, b: File, config: File, host: Host) returns (d: Config)
    requires OwnFile(a) && OwnFile(b) && Reflects(c, a, config, host)
    ensures Reflects(d, b, config, host) && Typed(d) && AllCoerce(b, config, host)
    ensures forall f: Field :: !Own(f) ==> c[f] == d[f]
  {
    hide Coerce, Fallback, EnvEntries, Entries, Raw, Setting, OwnFile;
    EveryField();
    d := map f: Field | f in FIELDS :: if Own(f) then OwnSetting(f, b, config, host) else c[f];
    forall f: Field
      ensures f in d && Setting(f, b, config, host) == Some(d[f])
    {
      if !Own(f) {
        OtherSetting(f, a, b, config, host);
      }
    }
    ReflectsTyped(d, b, config, host);
  }

  lemma OwnWritable(self: File)
    requires OwnFile(self)
    ensures Writable(self)
  {
  }

  lemma SameAcceptable(c: Config, d: Config)
    requires Typed(c) && Typed(d) && forall f: Field :: !Own(f) ==> c[f] == d[f]
    ensures Acceptable(c) <==> Acceptable(d)
  {
    hide Utf8Length;
  }

  function OwnSetting(f: Field, self: File, config: File, host: Host): (v: Value)
    requires Own(f)
    ensures Setting(f, self, config, host) == Some(v)
  {
    Setting(f, self, config, host).value
  }

  lemma OtherSetting(f: Field, a: File, b: File, config: File, host: Host)
    requires OwnFile(a) && OwnFile(b) && !Own(f)
    ensures Setting(f, a, config, host) == Setting(f, b, config, host)
  {
    assert f !in Entries(a) && f !in Entries(b);
  }

  lemma RecordedOwn(self: File, f: Field, value: string)
    requires OwnFile(self) && Own(f)
    ensures OwnFile(Recorded(self, f, value))
  {
  }
}
