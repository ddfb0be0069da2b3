/** Reading the server address out of DHCP option 225, which a lease may carry as text or
  as hexadecimal bytes. */
module Discovery {
  import opened Text
  import ServerUrl

  function HexValue(c: char): nat
    requires IsHexDigit(c)
  {
    if IsDigit(c) then c as int - '0' as int
    else if c <= 'F' then c as int - 'A' as int + 10
    else c as int - 'a' as int + 10
  }

  predicate AllHex(s: string) {
    forall i :: 0 <= i < |s| ==> IsHexDigit(s[i])
  }

  function FromHex(s: string): (r: seq<nat>)
    requires AllHex(s) && |s| % 2 == 0
    ensures |r| == |s| / 2
    ensures forall i :: 0 <= i < |r| ==> r[i] == HexValue(s[2 * i]) * 16 + HexValue(s[2 * i + 1])
  {
    seq(|s| / 2, i requires 0 <= i < |s| / 2 => HexValue(s[2 * i]) * 16 + HexValue(s[2 * i + 1]))
  }

  /** Strict decoding, for the bytes below 128. */
  function DecodeAscii(bytes: seq<nat>): (r: Option<string>)
    ensures r.Some? <==> forall i :: 0 <= i < |bytes| ==> bytes[i] < 128
    ensures r.Some? ==> |r.value| == |bytes| && forall i :: 0 <= i < |bytes| ==> r.value[i] as int == bytes[i]
  {
    if forall i :: 0 <= i < |bytes| ==> bytes[i] < 128 then
      Some(seq(|bytes|, i requires 0 <= i < |bytes| => bytes[i] as char))
    else None
  }

  predicate Printable(s: string) {
    forall i :: 0 <= i < |s| ==> 32 <= s[i] as int <= 126
  }

  /** `text.replace(":", "").replace(" ", "")`. */
  function Compact(s: string): (r: string)
    ensures forall i :: 0 <= i < |r| ==> r[i] in s
  {
    if s == "" then ""
    else if s[0] == ':' || s[0] == ' ' then Compact(s[1..])
    else [s[0]] + Compact(s[1..])
  }

  predicate LooksHex(compact: string) {
    |compact| >= 4 && |compact| % 2 == 0 && AllHex(compact)
  }

  function Decode(value: string): string {
    var text := StripChar(Strip(value), '"');
    if text == "" then ""
    else
      var compact := Compact(text);
      if LooksHex(compact) then
        match DecodeAscii(FromHex(compact))
        case None => text
        case Some(bytes) =>
          var decoded := Strip(StripChar(bytes, '\0'));
          if decoded != "" && Printable(decoded) then decoded else text
      else text
  }

  function ParseOption(value: string): string {
    var text := Decode(value);
    if text == "" then "" else ServerUrl.Normalise(text)
  }

  // ----- the two wire forms

  function HexDigitOf(n: nat, upper: bool): (c: char)
    requires n < 16
    ensures IsHexDigit(c) && HexValue(c) == n
  {
    if n < 10 then (n + '0' as int) as char
    else if upper then (n - 10 + 'A' as int) as char
    else (n - 10 + 'a' as int) as char
  }

  /** The bytes of a text as a lease spells them, with or without a colon between bytes. */
  function HexBytes(text: string, colons: bool, upper: bool): string
    requires Printable(text)
  {
    if text == "" then ""
    else
      HexByte(text[0], upper) + (if colons && |text| > 1 then ":" else "") + HexBytes(text[1..], colons, upper)
  }

  function HexByte(c: char, upper: bool): string
    requires 32 <= c as int <= 126
  {
    [HexDigitOf(c as int / 16, upper), HexDigitOf(c as int % 16, upper)]
  }

  lemma CompactHead(c: char, s: string)
    ensures Compact([c] + s) == if c == ':' || c == ' ' then Compact(s) else [c] + Compact(s)
  {
    assert ([c] + s)[1..] == s;
  }

  lemma CompactPair(a: char, b: char, s: string)
    requires IsHexDigit(a) && IsHexDigit(b)
    ensures Compact([a, b] + s) == [a, b] + Compact(s)
    ensures Compact([a, b] + ":" + s) == [a, b] + Compact(s)
  {
    hide Compact;
    assert [a, b] + s == [a] + ([b] + s);
    assert [a, b] + ":" + s == [a] + ([b] + ([':'] + s));
    assert [a, b] + Compact(s) == [a] + ([b] + Compact(s));
    CompactHead(a, [b] + s);
    CompactHead(b, s);
    CompactHead(a, [b] + ([':'] + s));
    CompactHead(b, [':'] + s);
    CompactHead(':', s);
  }

  lemma FromHexPair(a: char, b: char, rest: string)
    requires IsHexDigit(a) && IsHexDigit(b) && AllHex(rest) && |rest| % 2 == 0
    ensures AllHex([a, b] + rest)
    ensures FromHex([a, b] + rest) == [HexValue(a) * 16 + HexValue(b)] + FromHex(rest)
  {
    hide HexValue, IsHexDigit;
    var all := [a, b] + rest;
    forall i | 0 < i < |all| / 2
      ensures FromHex(all)[i] == FromHex(rest)[i - 1]
    {
      assert all[2 * i] == rest[2 * (i - 1)] && all[2 * i + 1] == rest[2 * (i - 1) + 1];
    }
  }

  lemma {:induction false} HexBytesShape(text: string, colons: bool, upper: bool)
    requires Printable(text)
    ensures var h := HexBytes(text, colons, upper);
            && (text == "" ==> h == "")
            && (text != "" ==> h != "" && IsHexDigit(h[0]) && IsHexDigit(h[|h| - 1]))
  {
    if |text| > 1 {
      HexBytesShape(text[1..], colons, upper);
    }
  }

  function Codes(text: string): seq<nat> {
    seq(|text|, i requires 0 <= i < |text| => text[i] as int)
  }

  lemma CodesHead(text: string)
    requires text != ""
    ensures Codes(text) == [text[0] as int] + Codes(text[1..])
  {
  }

  lemma {:induction false} HexBytesCompact(text: string, colons: bool, upper: bool)
    requires Printable(text)
    ensures Compact(HexBytes(text, colons, upper)) == HexBytes(text, false, upper)
    ensures |HexBytes(text, false, upper)| == 2 * |text| && AllHex(HexBytes(text, false, upper))
    ensures FromHex(HexBytes(text, false, upper)) == Codes(text)
  {
    NothingSpelled();
    HexBytesStep(text, colons, upper);
    HexBytesStep(text, false, upper);
    hide Compact, AllHex, FromHex, Codes, HexByte, HexBytes;
    if text != "" {
      HexBytesCompact(text[1..], colons, upper);
      CodesHead(text);
      ByteInFront(text[0], upper, colons && |text| > 1, HexBytes(text[1..], colons, upper),
                  HexBytes(text[1..], false, upper));
    }
  }

  lemma HexBytesStep(text: string, colons: bool, upper: bool)
    requires Printable(text)
    ensures HexBytes(text, colons, upper) ==
            if text == "" then ""
            else HexByte(text[0], upper) + (if colons && |text| > 1 then ":" else "")
                 + HexBytes(text[1..], colons, upper)
  {
  }

  lemma NothingSpelled()
    ensures Compact("") == "" && AllHex("") && FromHex("") == Codes("")
  {
  }

  lemma ByteInFront(c: char, upper: bool, colon: bool, spelled: string, plain: string)
    requires 32 <= c as int <= 126 && Compact(spelled) == plain && AllHex(plain) && |plain| % 2 == 0
    ensures Compact(HexByte(c, upper) + (if colon then ":" else "") + spelled) == HexByte(c, upper) + "" + plain
    ensures AllHex(HexByte(c, upper) + "" + plain)
    ensures FromHex(HexByte(c, upper) + "" + plain) == [c as int] + FromHex(plain)
    ensures |HexByte(c, upper) + "" + plain| == 2 + |plain|
  {
    hide Compact, AllHex, FromHex, IsHexDigit, HexDigitOf, HexValue;
    var a, b := HexDigitOf(c as int / 16, upper), HexDigitOf(c as int % 16, upper);
    CompactPair(a, b, spelled);
    FromHexPair(a, b, plain);
    assert HexByte(c, upper) + "" == [a, b];
  }

  lemma StripCharKept(s: string, c: char)
    requires s != "" && s[0] != c && s[|s| - 1] != c
    ensures StripChar(s, c) == s
  {
  }

  lemma HexChar(c: char)
    requires IsHexDigit(c)
    ensures !IsSpace(c) && c != '"'
  {
  }

  lemma HexNotStripped(s: string)
    requires s != "" && IsHexDigit(s[0]) && IsHexDigit(s[|s| - 1])
    ensures StripChar(Strip(s), '"') == s
  {
    hide IsHexDigit, IsSpace, StripChar, Strip;
    HexChar(s[0]);
    HexChar(s[|s| - 1]);
    StripTrimmed(s);
    StripCharKept(s, '"');
  }

  lemma PrintableKept(text: string)
    requires text != "" && Printable(text) && Trimmed(text)
    ensures Strip(StripChar(text, '\0')) == text
  {
    assert text[0] != '\0' && text[|text| - 1] != '\0';
    hide Strip, StripChar, Trimmed, Printable;
    StripTrimmed(text);
    StripCharKept(text, '\0');
  }

  lemma DecodeHexBytes(text: string, colons: bool, upper: bool)
    requires Printable(text) && Trimmed(text) && |text| >= 2
    ensures Decode(HexBytes(text, colons, upper)) == text
  {
    hide HexBytes, Compact, AllHex, FromHex, StripChar, Strip, Printable, Codes, DecodeAscii, IsHexDigit;
    var h := HexBytes(text, colons, upper);
    HexBytesShape(text, colons, upper);
    HexNotStripped(h);
    HexBytesCompact(text, colons, upper);
    DecodesBack(text);
    PrintableKept(text);
  }

  lemma DecodesBack(text: string)
    requires Printable(text)
    ensures DecodeAscii(Codes(text)) == Some(text)
  {
    var bytes := Codes(text);
    assert DecodeAscii(bytes).value == text;
  }

  /** Whichever way the lease spells the bytes, the option means the address they spell. */
  lemma WireAgrees(text: string, colons: bool, upper: bool)
    requires Printable(text) && Trimmed(text) && |text| >= 2
    ensures ParseOption(HexBytes(text, colons, upper)) == ServerUrl.Normalise(text)
  {
    DecodeHexBytes(text, colons, upper);
  }

  /** What makes a text that needs no trimming unmistakable as text. */
  predicate Unmistakable(text: string) {
    && exists i :: 0 <= i < |text| && !IsHexDigit(text[i]) && text[i] != ':' && text[i] != ' '
  }

  lemma {:induction false} CompactKeeps(s: string, i: nat)
    requires i < |s| && s[i] != ':' && s[i] != ' '
    ensures s[i] in Compact(s)
  {
    if i > 0 {
      CompactKeeps(s[1..], i - 1);
    }
  }

  /** The bytes and the text itself mean the same address, for every unquoted text with a
      character that no hexadecimal spelling has. */
  lemma TextAgrees(text: string, colons: bool, upper: bool)
    requires Printable(text) && Trimmed(text) && |text| >= 2 && Unmistakable(text)
    requires text[0] != '"' && text[|text| - 1] != '"'
    ensures ParseOption(text) == ServerUrl.Normalise(text)
    ensures ParseOption(text) == ParseOption(HexBytes(text, colons, upper))
  {
    WireAgrees(text, colons, upper);
    StripTrimmed(text);
    StripCharKept(text, '"');
    hide Strip, StripChar, HexBytes, FromHex, Printable, DecodeAscii, ServerUrl.Normalise, Compact;
    var i :| 0 <= i < |text| && !IsHexDigit(text[i]) && text[i] != ':' && text[i] != ' ';
    CompactKeeps(text, i);
    assert !LooksHex(Compact(text));
  }

  /** Exactly when a bare text is taken as itself: it spells no bytes, or its bytes do not
      read as an address. */
  predicate SpellsBytes(text: string) {
    LooksHex(Compact(text)) && DecodeAscii(FromHex(Compact(text))).Some? &&
    var decoded := Strip(StripChar(DecodeAscii(FromHex(Compact(text))).value, '\0'));
    decoded != "" && Printable(decoded)
  }

  lemma DecodeIff(text: string)
    requires text != "" && Trimmed(text) && text[0] != '"' && text[|text| - 1] != '"'
    ensures Decode(text) == text <==> !SpellsBytes(text)
  {
    StripTrimmed(text);
    StripCharKept(text, '"');
    if SpellsBytes(text) {
      DecodedShorter(text);
    }
  }

  lemma {:induction false} CompactLength(s: string)
    ensures |Compact(s)| <= |s|
  {
    if s != "" {
      CompactLength(s[1..]);
    }
  }

  lemma StripCharLength(s: string, c: char)
    ensures |StripChar(s, c)| <= |s|
  {
  }

  lemma DecodedShorter(text: string)
    requires SpellsBytes(text) && StripChar(Strip(text), '"') == text
    ensures |Decode(text)| < |text|
  {
    hide Compact, AllHex, FromHex, StripChar, Strip, Printable, DecodeAscii;
    CompactLength(text);
    var bytes := DecodeAscii(FromHex(Compact(text))).value;
    StripCharLength(bytes, '\0');
  }

  // ----- the digits, and the edges of an option

  /** The sixteen digits, in either case. */
  lemma HexDigitTable(n: nat)
    requires n < 16
    ensures HexDigitOf(n, false) == "0123456789abcdef"[n] && HexDigitOf(n, true) == "0123456789ABCDEF"[n]
    ensures HexValue("0123456789abcdef"[n]) == n && HexValue("0123456789ABCDEF"[n]) == n
  {
  }

  /** Pieces are read one after the other, and a colon or a space between them is skipped. */
  lemma {:induction false} CompactSkips(a: string, b: string)
    ensures Compact(a + b) == Compact(a) + Compact(b)
  {
    hide Compact;
    if a == "" {
      assert a + b == b;
      NothingSkipped();
    } else {
      CompactSkips(a[1..], b);
      assert [a[0]] + a[1..] == a;
      CompactStep(a[0], a[1..], b);
    }
  }

  lemma CompactStep(c: char, s: string, b: string)
    requires Compact(s + b) == Compact(s) + Compact(b)
    ensures Compact([c] + s + b) == Compact([c] + s) + Compact(b)
  {
    hide Compact;
    assert [c] + s + b == [c] + (s + b);
    CompactHead(c, s);
    CompactHead(c, s + b);
    assert [c] + Compact(s) + Compact(b) == [c] + (Compact(s) + Compact(b));
  }

  lemma NothingSkipped()
    ensures Compact("") == ""
  {
  }

  lemma SkippedAlone(c: char)
    requires c == ':' || c == ' '
    ensures Compact([c]) == ""
  {
    assert [c][1..] == "";
  }

  /** Quotes around an option, and spaces around those, mean nothing. */
  lemma QuotedOption(before: string, text: string, after: string)
    requires AllSpaces(before) && AllSpaces(after)
    requires text != "" && Trimmed(text) && text[0] != '"' && text[|text| - 1] != '"'
    ensures Decode(before + ("\"" + text + "\"") + after) == Decode(text)
  {
    hide IsSpace, Strip, StripChar, Compact, LooksHex, FromHex, DecodeAscii, Printable, AllSpaces;
    var quoted := "\"" + text + "\"";
    QuoteNoSpace();
    assert quoted[0] == '"' && quoted[|quoted| - 1] == '"';
    StripPadded(before, quoted, after);
    Unquoted(text);
    StripTrimmed(text);
    StripCharKept(text, '"');
  }

  lemma QuoteNoSpace()
    ensures !IsSpace('"')
  {
  }

  lemma Unquoted(text: string)
    requires text != "" && text[0] != '"' && text[|text| - 1] != '"'
    ensures StripChar("\"" + text + "\"", '"') == text
  {
    var quoted := "\"" + text + "\"";
    var inner := text + "\"";
    assert quoted[1..] == inner && inner[0] == text[0];
    assert LStripChar(quoted, '"') == inner;
    assert inner[..|inner| - 1] == text;
  }

  /** Too few digits, or an odd number of them, are taken as text. */
  lemma FewDigits(text: string)
    requires text != "" && Trimmed(text) && text[0] != '"' && text[|text| - 1] != '"'
    requires |Compact(text)| < 4 || |Compact(text)| % 2 == 1
    ensures Decode(text) == text
  {
    StripTrimmed(text);
    StripCharKept(text, '"');
    hide Strip, StripChar, Compact, FromHex, DecodeAscii, Printable;
  }

  /** Bytes ended by a zero byte, as text options often are, mean the text before it. */
  lemma ZeroTerminated(text: string, upper: bool)
    requires Printable(text) && Trimmed(text) && |text| >= 2
    ensures Decode(HexBytes(text, false, upper) + "00") == text
  {
    var h := HexBytes(text, false, upper);
    hide HexBytes, Compact, AllHex, FromHex, StripChar, Strip, Printable, Codes, DecodeAscii, IsHexDigit, HexValue, IsSpace,
         Trimmed, Decode;
    HexBytesShape(text, false, upper);
    HexBytesCompact(text, false, upper);
    ZeroDigits();
    CompactSkips(h, "00");
    ZeroByte(text, h);
    ZeroDropped(text);
    DecodesTo(h + "00", text + "\0", text);
  }

  /** The decoding of plain hexadecimal digits. */
  lemma DecodesTo(digits: string, bytes: string, text: string)
    requires |digits| >= 4 && |digits| % 2 == 0 && AllHex(digits) && Compact(digits) == digits
    requires DecodeAscii(FromHex(digits)) == Some(bytes) && Strip(StripChar(bytes, '\0')) == text
    requires text != "" && Printable(text)
    ensures Decode(digits) == text
  {
    hide Compact, AllHex, FromHex, StripChar, Strip, Printable, DecodeAscii, IsHexDigit, IsSpace;
    HexEnds(digits);
    HexNotStripped(digits);
    assert LooksHex(digits);
    assert StripChar(Strip(digits), '"') == digits;
  }

  lemma HexEnds(digits: string)
    requires digits != "" && AllHex(digits)
    ensures IsHexDigit(digits[0]) && IsHexDigit(digits[|digits| - 1])
  {
  }

  lemma ZeroDigits()
    ensures IsHexDigit('0') && Compact("00") == "00"
  {
    assert "00"[1..] == "0" && "0"[1..] == "";
  }

  lemma ZeroByte(text: string, h: string)
    requires Printable(text) && AllHex(h) && |h| == 2 * |text| && FromHex(h) == Codes(text)
    ensures AllHex(h + "00") && |h + "00"| % 2 == 0 && DecodeAscii(FromHex(h + "00")) == Some(text + "\0")
  {
    hide HexValue, IsHexDigit;
    ZeroDigits();
    ZeroValue();
    var all := h + "00";
    assert forall i :: 0 <= i < |h| ==> all[i] == h[i];
    assert all[|h|] == '0' && all[|h| + 1] == '0';
    var bytes := FromHex(all);
    assert forall i :: 0 <= i < |text| ==> bytes[i] == FromHex(h)[i] == text[i] as int;
    assert bytes[|text|] == 0;
    assert DecodeAscii(bytes).value == text + "\0";
  }

  lemma ZeroValue()
    ensures IsHexDigit('0') && HexValue('0') == 0
  {
  }

  lemma ZeroDropped(text: string)
    requires text != "" && Printable(text) && Trimmed(text)
    ensures Strip(StripChar(text + "\0", '\0')) == text
  {
    var all := text + "\0";
    assert text[0] != '\0' && text[|text| - 1] != '\0' && all[0] == text[0];
    hide Strip, Trimmed, Printable;
    StripTrimmed(text);
    assert LStripChar(all, '\0') == all;
    assert all[..|all| - 1] == text;
  }

  /** What counts as printable: codes 32 to 126. */
  lemma PrintableCodes(s: string, c: char)
    ensures Printable("") && (Printable(s + [c]) <==> Printable(s) && 31 < c as int < 127)
  {
    var t := s + [c];
    assert t[|s|] == c;
    assert forall i :: 0 <= i < |s| ==> t[i] == s[i];
  }
}
