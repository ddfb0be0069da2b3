/** What the settings of `Settings` mean in plain numbers and texts: how numbers and words are
  read, what a new board starts with, which layer decides, and how what is set through snap
  reaches the client. */
module Readings {
  import opened Text
  import opened Digits
  import opened Settings

  // ----- what the texts mean

  lemma {:induction false} DigitsRead(s: string)
    requires AsciiDigits(s) && s != ""
    ensures ParseDigits(s) == Some(PlaceValue(s)) && DigitCount(s) == |s|
  {
    DigitCode(s[|s| - 1]);
    PlaceValueEnd(s);
    var front := s[..|s| - 1];
    if front != "" {
      DigitCode(front[|front| - 1]);
      DigitsRead(front);
    }
    hide DecimalDigit;
  }

  lemma DigitCode(c: char)
    requires 48 <= c as int <= 57
    ensures DecimalDigit(c) == Some(c as int - 48) && c != '_' && !IsSpace(c) && c != '-' && c != '+'
  {
  }

  lemma SignedReads(text: string, sign: string, digits: string)
    requires sign == "" || sign == "+" || sign == "-"
    requires text == sign + digits && digits != "" && digits[0] != '-' && digits[0] != '+'
    ensures ParseInt(text) == match ParseNat(digits)
                              case None => None
                              case Some(n) => Some(if sign == "-" then 0 - n else n)
  {
    hide ParseNat;
    if sign == "" {
      assert text == digits;
    } else {
      assert text[0] == sign[0] && text[1..] == digits;
    }
  }

  lemma NatReads(digits: string)
    requires digits != "" && AsciiDigits(digits)
    ensures ParseNat(digits) == if |digits| > 4300 then None else Some(PlaceValue(digits))
  {
    hide ParseDigits, DigitCount, PlaceValue, AsciiDigits;
    DigitsRead(digits);
  }

  lemma CoerceInt(raw: RawValue)
    ensures Coerce(raw, IntKind) == match ParseInt(Strip(Shown(raw)))
                                    case None => None
                                    case Some(n) => Some(I(n))
  {
    hide ParseInt, Strip, Shown;
  }

  /** A number in decimal digits, perhaps signed, however padded, reads as what its digits are
      worth. */
  lemma IntReads(raw: RawValue, sign: string, digits: string)
    requires sign == "" || sign == "+" || sign == "-"
    requires digits != "" && AsciiDigits(digits) && Strip(Shown(raw)) == sign + digits
    ensures |digits| > 4300 ==> Coerce(raw, IntKind) == None
    ensures |digits| <= 4300 ==>
              Coerce(raw, IntKind) == Some(I(if sign == "-" then 0 - PlaceValue(digits) else PlaceValue(digits)))
  {
    hide ParseNat, ParseInt, Coerce, Strip, Shown, PlaceValue, AsciiDigits;
    FirstDigit(digits);
    NatReads(digits);
    SignedReads(sign + digits, sign, digits);
    CoerceInt(raw);
  }

  lemma FirstDigit(digits: string)
    requires digits != "" && AsciiDigits(digits)
    ensures digits[0] != '-' && digits[0] != '+' && !IsSpace(digits[0]) && !IsSpace(digits[|digits| - 1])
  {
    DigitCode(digits[0]);
    DigitCode(digits[|digits| - 1]);
  }

  /** Every number that is not too long reads back from its own spelling, be it a JSON number
      or a text. */
  lemma IntRoundTrip(n: nat, plain: RawValue, negative: RawValue)
    requires Shown(plain) == Decimal(n) && Shown(negative) == "-" + Decimal(n) && |Decimal(n)| <= 4300
    ensures Coerce(plain, IntKind) == Some(I(n)) && Coerce(negative, IntKind) == Some(I(0 - n as int))
  {
    var s := Decimal(n);
    hide Decimal, Coerce, PlaceValue, AsciiDigits, Strip, IsSpace, Shown;
    DecimalSpells(n);
    FirstDigit(s);
    NotSpace('-');
    SpelledInt(plain, negative, s);
  }

  lemma SpelledInt(plain: RawValue, negative: RawValue, s: string)
    requires s != "" && AsciiDigits(s) && |s| <= 4300 && !IsSpace(s[0]) && !IsSpace(s[|s| - 1])
    requires Shown(plain) == s && Shown(negative) == "-" + s
    ensures Coerce(plain, IntKind) == Some(I(PlaceValue(s))) && Coerce(negative, IntKind) == Some(I(0 - PlaceValue(s)))
  {
    hide Coerce, PlaceValue, AsciiDigits, Strip, IsSpace, Shown, Trimmed;
    KeptWithSign("", s);
    KeptWithSign("-", s);
    assert "" + s == s;
    IntReads(plain, "", s);
    IntReads(negative, "-", s);
  }

  lemma KeptWithSign(sign: string, s: string)
    requires sign == "" || sign == "-"
    requires s != "" && !IsSpace(s[0]) && !IsSpace(s[|s| - 1])
    ensures Strip(sign + s) == sign + s
  {
    NotSpace('-');
    hide Strip, IsSpace;
    var t := sign + s;
    assert t[|t| - 1] == s[|s| - 1];
    StripTrimmed(t);
  }

  lemma NotSpace(c: char)
    requires c == '-'
    ensures !IsSpace(c)
  {
  }

  /** One step of the reading, from the right. */
  lemma ReadStep(t: string, more: Option<nat>)
    requires |t| >= 2 && 48 <= t[|t| - 1] as int <= 57
    requires more == if t[|t| - 2] == '_' then ParseDigits(t[..|t| - 2]) else ParseDigits(t[..|t| - 1])
    ensures ParseDigits(t) == if more.None? then None else Some(more.value * 10 + (t[|t| - 1] as int - 48))
  {
    DigitCode(t[|t| - 1]);
    hide DecimalDigit;
    var front := t[..|t| - 1];
    assert front[|front| - 1] == t[|t| - 2] && front[..|front| - 1] == t[..|t| - 2];
  }

  /** One more digit behind the others. */
  lemma DigitAppended(s: string, t: string, c: char)
    requires s != "" && s[|s| - 1] != '_' && 48 <= c as int <= 57 && ParseDigits(s).Some? && t == s + [c]
    ensures ParseDigits(t) == Some(ParseDigits(s).value * 10 + (c as int - 48))
  {
    hide ParseDigits;
    Ends(s, [c]);
    ReadStep(t, ParseDigits(s));
  }

  /** One more digit behind an underscore. */
  lemma DigitSetOff(s: string, t: string, c: char)
    requires s != "" && 48 <= c as int <= 57 && ParseDigits(s).Some? && t == s + ['_', c]
    ensures ParseDigits(t) == Some(ParseDigits(s).value * 10 + (c as int - 48))
  {
    hide ParseDigits;
    Ends(s, ['_', c]);
    ReadStep(t, ParseDigits(s));
  }

  lemma Ends(s: string, end: string)
    ensures (s + end)[..|s|] == s
  {
  }

  /** An underscore between two digits changes nothing. */
  lemma {:induction false} UnderscoreIgnored(a: string, b: string)
    requires AsciiDigits(a) && a != "" && AsciiDigits(b) && b != ""
    ensures ParseDigits(a + "_" + b) == Some(PlaceValue(a + b))
  {
    hide ParseDigits, PlaceValue;
    var front, c := b[..|b| - 1], b[|b| - 1];
    assert b == front + [c];
    var t := a + b;
    PlaceValueEnd(t);
    assert t[..|t| - 1] == a + front;
    if front == "" {
      assert a + front == a && a + "_" + b == a + ['_', c];
      DigitsRead(a);
      DigitSetOff(a, a + "_" + b, c);
    } else {
      UnderscoreIgnored(a, front);
      var broken := a + "_" + front;
      assert broken[|broken| - 1] == front[|front| - 1] && a + "_" + b == broken + [c];
      DigitAppended(broken, a + "_" + b, c);
    }
  }

  /** Digits of any script read as the ASCII digits they correspond to. */
  lemma {:induction false} ScriptsAgree(s: string, t: string)
    requires AsciiDigits(t) && |s| == |t|
    requires forall i :: 0 <= i < |t| ==> DecimalDigit(s[i]) == Some(t[i] as int - 48)
    ensures ParseDigits(s) == ParseDigits(t) && DigitCount(s) == DigitCount(t)
  {
    UnderscoreNoDigit();
    if t != "" {
      var n := |t| - 1;
      DigitCode(t[n]);
      hide DecimalDigit;
      ScriptsAgree(s[..n], t[..n]);
    }
  }

  lemma UnderscoreNoDigit()
    ensures DecimalDigit('_') == None
  {
  }

  /** Four words for yes and four for no, in any letters and however padded; nothing else. */
  lemma BoolReads(raw: RawValue)
    ensures var word := Lower(Strip(Shown(raw)));
            Coerce(raw, BoolKind) == if word in {"1", "true", "yes", "on"} then Some(B(true))
                                     else if word in {"0", "false", "no", "off"} then Some(B(false))
                                     else None
  {
    hide Lower, Strip, Shown;
  }

  // ----- what a configuration is

  /** What a board nobody has configured starts with, field by field. */
  lemma FactoryField(f: Field, host: Host)
    requires host.env == map[]
    ensures Setting(f, Absent, Absent, host)
         == Some(match f
                 case ServerUrl => S("")
                 case ApiToken => S("")
                 case DeviceId => S(Strip(host.hostname))
                 case CecBackend => S("auto")
                 case CecDevice => S("/dev/cec0")
                 case OsdName => S("VisionTAK")
                 case RefreshInterval => I(300)
                 case RotateInterval => I(0)
                 case StartDashboard => S("")
                 case VerifyTls => B(true)
                 case RequestTimeout => I(15)
                 case AllowedHosts => S("*")
                 case MaxLiveViews =>
                   I(if host.memoryMib.None? then 3
                     else if host.memoryMib.value < 1536 then 1
                     else if host.memoryMib.value >= 3072 then 6 else 3)
                 case HardwareAcceleration =>
                   S(if host.memoryMib.Some? && host.memoryMib.value < 1536 then "never" else "auto")
                 case DhcpDiscovery => B(false))
  {
    NothingSet(f, host);
    hide Setting, Strip;
  }

  /** The constructor takes a configuration exactly within these bounds. */
  lemma ConstructorTakes(c: Config)
    requires Typed(c)
    ensures Acceptable(c) <==>
            && (c[RefreshInterval].i == 0 || c[RefreshInterval].i > 9)
            && (c[RotateInterval].i == 0 || c[RotateInterval].i > 4)
            && c[MaxLiveViews].i > 0 && Utf8Length(c[OsdName].s) < 15
            && (c[CecBackend] == S("auto") || c[CecBackend] == S("kernel") || c[CecBackend] == S("libcec")
                || c[CecBackend] == S("none"))
            && (c[HardwareAcceleration] == S("auto") || c[HardwareAcceleration] == S("always")
                || c[HardwareAcceleration] == S("never"))
  {
    hide Utf8Length;
  }

  /** The size of a name is that of its UTF-8 encoding, character by character. */
  lemma NameSize(s: string, c: char)
    ensures Utf8Length("") == 0
    ensures Utf8Length(s + [c]) == Utf8Length(s) + match c as int
                                                    case n => if n <= 0x7F then 1 else if n <= 0x7FF then 2
                                                              else if n <= 0xFFFF then 3 else 4
  {
    assert (s + [c])[..|s|] == s;
  }

  // ----- which layer decides

  /** A field set in the environment ignores both files, one set in the hook's file ignores the
      client's, and a field the client's file alone sets is read from it. */
  lemma Layers(f: Field, self: File, config: File, host: Host)
    ensures f in host.env && host.env[f] != "" ==>
              Setting(f, self, config, host) == Coerce(Str(host.env[f]), KindOf(f))
    ensures f !in host.env || host.env[f] == "" ==>
              && (config.Object? && f in config.entries && config.entries[f] != Null && config.entries[f] != Str("") ==>
                    Setting(f, self, config, host) == Coerce(config.entries[f], KindOf(f)))
              && (!config.Object? && self.Object? && f in self.entries && self.entries[f] != Null
                    && self.entries[f] != Str("") ==>
                    Setting(f, self, config, host) == Coerce(self.entries[f], KindOf(f)))
  {
    hide Coerce, Fallback, Default;
  }

  /** A null or an empty text in a file is as good as no entry. */
  lemma EmptyIsUnset(f: Field, entries: map<Field, RawValue>, other: File, host: Host)
    requires f in entries && (entries[f] == Null || entries[f] == Str(""))
    ensures Setting(f, Object(entries), other, host) == Setting(f, Absent, other, host)
    ensures Setting(f, other, Object(entries), host) == Setting(f, other, Absent, host)
  {
    hide Coerce, Fallback, EnvEntries, Default;
    assert f !in Entries(Object(entries)) && f !in Entries(Absent);
  }

  // ----- the hook, from what is set to what is read

  /** The hook passes on every setting but two. */
  lemma HookKeysAre(f: Field)
    ensures f in HOOK_KEYS <==> f != RequestTimeout && f != DhcpDiscovery
  {
    if f != RequestTimeout && f != DhcpDiscovery {
      KeyAt(f);
    }
  }

  lemma KeyAt(f: Field)
    requires f != RequestTimeout && f != DhcpDiscovery
    ensures f in HOOK_KEYS
  {
    match f
    case ServerUrl => assert HOOK_KEYS[0] == f;
    case ApiToken => assert HOOK_KEYS[1] == f;
    case DeviceId => assert HOOK_KEYS[2] == f;
    case CecBackend => assert HOOK_KEYS[3] == f;
    case CecDevice => assert HOOK_KEYS[4] == f;
    case OsdName => assert HOOK_KEYS[5] == f;
    case RefreshInterval => assert HOOK_KEYS[6] == f;
    case RotateInterval => assert HOOK_KEYS[7] == f;
    case StartDashboard => assert HOOK_KEYS[8] == f;
    case VerifyTls => assert HOOK_KEYS[9] == f;
    case AllowedHosts => assert HOOK_KEYS[10] == f;
    case MaxLiveViews => assert HOOK_KEYS[11] == f;
    case HardwareAcceleration => assert HOOK_KEYS[12] == f;
  }

  /** What is set, less the line breaks at its end, is what the start reads, unless the
      environment says otherwise. */
  lemma SnapReaches(snap: map<Field, string>, f: Field, value: string, breaks: string, self: File, host: Host)
    requires f != RequestTimeout && f != DhcpDiscovery && f !in EnvEntries(host.env)
    requires Generated(snap).Object? && f in snap && snap[f] == value + breaks && value != ""
    requires (forall i :: 0 <= i < |breaks| ==> breaks[i] as int == 10) && value[|value| - 1] as int != 10
    ensures Setting(f, self, Generated(snap), host) == Coerce(Str(value), KindOf(f))
  {
    KeyAt(f);
    BreaksDropped(value, breaks);
    ChosenCounts(snap);
    hide HOOK_KEYS, Coerce, Fallback, EnvEntries, Default, DropNewlines, Clean, Entries;
    assert Generated(snap) == Object(Chosen(snap, HOOK_KEYS));
    assert Chosen(snap, HOOK_KEYS)[f] == Str(value);
  }

  /** A key that is not set, or to line breaks only, leaves the field as it was. */
  lemma SnapLeaves(snap: map<Field, string>, f: Field, self: File, host: Host)
    requires Generated(snap).Object?
    requires f !in snap || forall i :: 0 <= i < |snap[f]| ==> snap[f][i] as int == 10
    ensures Setting(f, self, Generated(snap), host) == Setting(f, self, Absent, host)
  {
    hide HOOK_KEYS, Coerce, Fallback, EnvEntries, Default, DropNewlines, Clean, Entries;
    assert SnapValue(snap, f) == "" by {
      if f in snap {
        BreaksDropped("", snap[f]);
        assert "" + snap[f] == snap[f];
      }
    }
    hide SnapValue;
    ChosenCounts(snap);
    NotChosen(snap, f);
    BareEntries(f);
  }

  lemma NotChosen(snap: map<Field, string>, f: Field)
    requires Generated(snap).Object? && SnapValue(snap, f) == ""
    ensures Generated(snap) == Object(Chosen(snap, HOOK_KEYS)) && f !in Chosen(snap, HOOK_KEYS)
  {
    hide HOOK_KEYS, SnapValue, Clean;
  }

  lemma BareEntries(f: Field)
    ensures f !in Entries(Absent)
  {
  }

  lemma ChosenCounts(snap: map<Field, string>)
    ensures Entries(Object(Chosen(snap, HOOK_KEYS))) == Chosen(snap, HOOK_KEYS)
  {
    hide SnapValue, HOOK_KEYS;
  }

  lemma {:induction false} BreaksDropped(value: string, breaks: string)
    requires (forall i :: 0 <= i < |breaks| ==> breaks[i] as int == 10) && (value != "" ==> value[|value| - 1] as int != 10)
    ensures DropNewlines(value + breaks) == value
  {
    if breaks == "" {
      assert value + breaks == value;
    } else {
      var n := |breaks| - 1;
      assert (value + breaks)[..|value| + n] == value + breaks[..n];
      assert (value + breaks)[|value| + n] == '\n';
      BreaksDropped(value, breaks[..n]);
    }
  }

  /** The value of a key once the line breaks at its end are dropped has no character below
      the space. */
  predicate Plain(snap: map<Field, string>, f: Field) {
    f in snap ==> forall i :: 0 <= i < |DropNewlines(snap[f])| ==> DropNewlines(snap[f])[i] as int >= 32
  }

  lemma PlainIff(snap: map<Field, string>, f: Field)
    ensures Plain(snap, f) <==> !HasControl(SnapValue(snap, f))
  {
    hide DropNewlines;
    var value := SnapValue(snap, f);
    if f in snap && !HasControl(value) {
      forall i | 0 <= i < |value|
        ensures value[i] as int >= 32
      {
      }
    }
  }

  /** The hook's file is JSON exactly when every value it passes on is plain. */
  lemma ComposesJson(snap: map<Field, string>)
    ensures Generated(snap).Object? <==> forall f: Field :: f != RequestTimeout && f != DhcpDiscovery ==> Plain(snap, f)
  {
    forall f: Field
      ensures Plain(snap, f) <==> !HasControl(SnapValue(snap, f))
      ensures f in HOOK_KEYS <==> f != RequestTimeout && f != DhcpDiscovery
    {
      PlainIff(snap, f);
      HookKeysAre(f);
    }
    hide HOOK_KEYS, Plain, HasControl, SnapValue;
  }
}
