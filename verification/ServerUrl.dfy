/** Making a typed server address usable, or refusing it. */
module ServerUrl {
  import opened Text
  import opened Digits

  // ----- the algorithm

  predicate SeparatorAt(s: string, i: int) {
    0 <= i && i + 3 <= |s| && s[i] == ':' && s[i + 1] == '/' && s[i + 2] == '/'
  }

  /** The first index of "://", or the length when it does not occur. */
  function FindSeparator(s: string): (i: nat)
    ensures i <= |s|
    ensures i < |s| ==> SeparatorAt(s, i)
    ensures forall j :: 0 <= j < i ==> !SeparatorAt(s, j)
  {
    if s == "" || SeparatorAt(s, 0) then 0
    else
      assert forall j :: SeparatorAt(s, j) && j > 0 ==> SeparatorAt(s[1..], j - 1);
      assert forall j :: SeparatorAt(s[1..], j) ==> SeparatorAt(s, j + 1);
      FindSeparator(s[1..]) + 1
  }

  predicate ValidPort(port: string) {
    port != "" && AllDigits(port) && 0 < DigitsValue(port) <= 65535
  }

  predicate IsHostChar(c: char) { IsAlnum(c) || c == '.' || c == '-' }

  predicate HostName(host: string) {
    && host != "" && IsAlnum(host[0]) && IsAlnum(host[|host| - 1])
    && forall i :: 0 <= i < |host| ==> IsHostChar(host[i])
  }

  predicate AddressLiteral(host: string) {
    host != "" && forall i :: 0 <= i < |host| ==> IsHexDigit(host[i]) || host[i] == ':' || host[i] == '.'
  }

  predicate ValidAuthority(authority: string) {
    if authority != "" && authority[0] == '[' then
      var close := FindChar(authority, ']');
      if close < 2 || close == |authority| then false
      else
        var host, port := authority[1..close], authority[close + 1..];
        if port != "" && !(port[0] == ':' && ValidPort(port[1..])) then false else AddressLiteral(host)
    else
      var colon := FindChar(authority, ':');
      if colon < |authority| && !ValidPort(authority[colon + 1..]) then false
      else HostName(authority[..colon])
  }

  function AuthorityOf(rest: string): string {
    rest[..FindChar(rest, '/')]
  }

  function WithScheme(text: string): string {
    if FindSeparator(text) == |text| then "http://" + text else text
  }

  function Accept(full: string): string {
    var i := FindSeparator(full);
    if i == |full| then ""
    else
      var scheme, rest := Lower(full[..i]), RStripChar(full[i + 3..], '/');
      if (scheme != "http" && scheme != "https") || rest == "" then ""
      else if !ValidAuthority(AuthorityOf(rest)) then ""
      else scheme + "://" + rest
  }

  function Normalise(raw: string): string {
    var text := Strip(raw);
    if text == "" then "" else Accept(WithScheme(text))
  }

  // ----- what an address is, said on its own

  /** `:port` or nothing. */
  predicate PortPart(s: string) {
    s == "" || (s[0] == ':' && ValidPort(s[1..]))
  }

  /** A host name or a bracketed address literal, then perhaps a port. */
  ghost predicate Authority(s: string) {
    exists n :: 0 < n <= |s| && PortPart(s[n..]) &&
      (HostName(s[..n]) || (n >= 3 && s[0] == '[' && s[n - 1] == ']' && AddressLiteral(s[1..n - 1])))
  }

  /** Nothing, or a path that does not end in a slash. */
  predicate Path(s: string) {
    s == "" || (s[0] == '/' && s[|s| - 1] != '/')
  }

  ghost predicate Canonical(url: string) {
    exists scheme: string, authority: string, path: string ::
      && url == scheme + "://" + (authority + path)
      && (scheme == "http" || scheme == "https") && Authority(authority) && Path(path)
  }

  // ----- the parts of the grammar, in character codes and numbers

  /** A port is spelled in ASCII digits, leading zeros allowed, and lies between 1 and 65535. */
  lemma PortIff(port: string)
    ensures ValidPort(port) <==> port != "" && AsciiDigits(port) && 1 <= PlaceValue(port) <= 65535
  {
    if AsciiDigits(port) {
      DigitsByPlace(port);
    }
  }

  /** Every number is a port exactly when it lies in that range. */
  lemma PortNumbers(n: nat)
    ensures ValidPort(Decimal(n)) <==> 1 <= n <= 65535
  {
    DecimalSpells(n);
    PortIff(Decimal(n));
  }

  predicate HostInner(c: char) {
    var n := c as int;
    48 <= n <= 57 || 65 <= n <= 90 || 97 <= n <= 122 || n == 45 || n == 46
  }

  predicate HostEdge(c: char) {
    HostInner(c) && c as int != 45 && c as int != 46
  }

  predicate AllInner(s: string) {
    forall i :: 0 <= i < |s| ==> HostInner(s[i])
  }

  /** One letter or digit, or two with letters, digits, dots and hyphens between them. */
  ghost predicate HostShape(host: string) {
    || (exists a :: host == [a] && HostEdge(a))
    || (exists a, inner, b :: host == [a] + inner + [b] && HostEdge(a) && HostEdge(b) && AllInner(inner))
  }

  lemma HostCodes(c: char)
    ensures IsHostChar(c) <==> HostInner(c)
    ensures IsAlnum(c) <==> HostEdge(c)
  {
  }

  lemma HostShaped(host: string)
    requires HostName(host)
    ensures HostShape(host)
  {
    forall i | 0 <= i < |host|
      ensures HostInner(host[i]) && (IsAlnum(host[i]) <==> HostEdge(host[i]))
    {
      HostCodes(host[i]);
    }
    hide HostInner, HostEdge;
    if |host| == 1 {
      assert host == [host[0]];
    } else {
      var inner := host[1..|host| - 1];
      assert host == [host[0]] + inner + [host[|host| - 1]];
      assert AllInner(inner);
    }
  }

  lemma ShapedHost(a: char, inner: string, b: char)
    requires HostEdge(a) && HostEdge(b) && AllInner(inner)
    ensures HostName([a] + inner + [b])
  {
    var host := [a] + inner + [b];
    forall i | 0 <= i < |host|
      ensures IsHostChar(host[i])
    {
      HostCodes(host[i]);
      if 0 < i < |host| - 1 {
        assert host[i] == inner[i - 1];
      }
    }
  }

  lemma HostNameIff(host: string)
    ensures HostName(host) <==> HostShape(host)
  {
    if HostName(host) {
      HostShaped(host);
    }
    forall a | host == [a] && HostEdge(a)
      ensures HostName(host)
    {
      HostCodes(a);
    }
    forall a, inner, b | host == [a] + inner + [b] && HostEdge(a) && HostEdge(b) && AllInner(inner)
      ensures HostName(host)
    {
      ShapedHost(a, inner, b);
    }
    hide HostName, HostEdge, AllInner;
  }

  /** An address literal is one or more hexadecimal digits, colons and dots. */
  lemma LiteralIff(host: string)
    ensures AddressLiteral(host) <==>
              host != "" && forall i :: 0 <= i < |host| ==>
                var n := host[i] as int; 48 <= n <= 58 || 65 <= n <= 70 || 97 <= n <= 102 || n == 46
  {
    assert ':' as int == 58 && '.' as int == 46;
  }

  // ----- the authority check is that grammar

  lemma HostHasNo(host: string, i: nat)
    requires HostName(host) && i < |host|
    ensures host[i] != ':' && host[i] != '[' && host[i] != ']' && host[i] != '/'
  {
  }

  lemma AuthoritySound(s: string)
    requires ValidAuthority(s)
    ensures Authority(s)
  {
    if s != "" && s[0] == '[' {
      var close := FindChar(s, ']');
      assert PortPart(s[close + 1..]) && s[1..close + 1 - 1] == s[1..close];
    } else {
      var colon := FindChar(s, ':');
      if colon < |s| {
        assert s[colon..][1..] == s[colon + 1..];
      }
      assert PortPart(s[colon..]);
    }
  }

  lemma AuthorityComplete(s: string)
    requires Authority(s)
    ensures ValidAuthority(s)
  {
    var n :| 0 < n <= |s| && PortPart(s[n..]) &&
      (HostName(s[..n]) || (n >= 3 && s[0] == '[' && s[n - 1] == ']' && AddressLiteral(s[1..n - 1])));
    if HostName(s[..n]) {
      HostAuthority(s, n);
    } else {
      LiteralAuthority(s, n);
    }
  }

  lemma HostAuthority(s: string, n: nat)
    requires 0 < n <= |s| && PortPart(s[n..]) && HostName(s[..n])
    ensures ValidAuthority(s)
  {
    assert s[0] == s[..n][0];
    HostHasNo(s[..n], 0);
    var colon := FindChar(s, ':');
    if colon < n {
      HostHasNo(s[..n], colon);
    }
    if n < |s| {
      assert s[n] == s[n..][0] == ':';
      assert s[n..][1..] == s[n + 1..];
    }
  }

  lemma LiteralAuthority(s: string, n: nat)
    requires 3 <= n <= |s| && PortPart(s[n..])
    requires s[0] == '[' && s[n - 1] == ']' && AddressLiteral(s[1..n - 1])
    ensures ValidAuthority(s)
  {
    var close := FindChar(s, ']');
    forall i | 1 <= i < n - 1
      ensures s[i] != ']'
    {
      assert s[1..n - 1][i - 1] == s[i];
    }
    assert close == n - 1;
    assert s[close + 1..] == s[n..];
  }

  lemma AuthorityIff(s: string)
    ensures ValidAuthority(s) <==> Authority(s)
  {
    if ValidAuthority(s) {
      AuthoritySound(s);
    }
    if Authority(s) {
      AuthorityComplete(s);
    }
  }

  lemma AuthorityChars(s: string, i: nat)
    requires Authority(s) && i < |s|
    ensures s[i] != '/' && !IsSpace(s[i])
  {
    hide HostName, AddressLiteral, PortPart, IsSpace;
    var n :| 0 < n <= |s| && PortPart(s[n..]) &&
      (HostName(s[..n]) || (n >= 3 && s[0] == '[' && s[n - 1] == ']' && AddressLiteral(s[1..n - 1])));
    if i >= n {
      PortChars(s[n..], i - n);
    } else if HostName(s[..n]) {
      HostChars(s[..n], i);
    } else {
      BracketChars(s[i]);
      if 0 < i < n - 1 {
        LiteralChars(s[1..n - 1], i - 1);
      }
    }
  }

  /** Every character of an authority is visible ASCII. */
  lemma AuthorityCodes(s: string, i: nat)
    requires Authority(s) && i < |s|
    ensures 33 <= s[i] as int <= 126 && s[i] != '/' && s[i] != '?' && s[i] != '#'
  {
    hide HostName, AddressLiteral, PortPart;
    var n :| 0 < n <= |s| && PortPart(s[n..]) &&
      (HostName(s[..n]) || (n >= 3 && s[0] == '[' && s[n - 1] == ']' && AddressLiteral(s[1..n - 1])));
    if i >= n {
      PortCodes(s[n..], i - n);
    } else if HostName(s[..n]) {
      HostNameCodes(s[..n], i);
    } else if 0 < i < n - 1 {
      LiteralCodes(s[1..n - 1], i - 1);
    } else {
      BracketCodes(s[i]);
    }
  }

  lemma PortCodes(s: string, i: nat)
    requires PortPart(s) && i < |s|
    ensures 48 <= s[i] as int <= 58
  {
    hide DigitsValue;
    if i > 0 {
      assert IsDigit(s[1..][i - 1]);
    }
  }

  lemma HostNameCodes(s: string, i: nat)
    requires HostName(s) && i < |s|
    ensures 45 <= s[i] as int <= 122 && s[i] != '/' && s[i] != '?'
  {
    assert IsHostChar(s[i]);
  }

  lemma LiteralCodes(s: string, i: nat)
    requires AddressLiteral(s) && i < |s|
    ensures 46 <= s[i] as int <= 102 && s[i] != '/' && s[i] != '?'
  {
    assert IsHexDigit(s[i]) || s[i] == ':' || s[i] == '.';
  }

  lemma BracketCodes(c: char)
    ensures c == '[' ==> c as int == 91
    ensures c == ']' ==> c as int == 93
  {
  }

  lemma PortChars(s: string, i: nat)
    requires PortPart(s) && i < |s|
    ensures s[i] != '/' && !IsSpace(s[i])
  {
    hide DigitsValue;
    if i > 0 {
      assert IsDigit(s[1..][i - 1]);
    }
  }

  lemma HostChars(s: string, i: nat)
    requires HostName(s) && i < |s|
    ensures s[i] != '/' && !IsSpace(s[i])
  {
    assert IsHostChar(s[i]);
  }

  lemma LiteralChars(s: string, i: nat)
    requires AddressLiteral(s) && i < |s|
    ensures s[i] != '/' && !IsSpace(s[i])
  {
    assert IsHexDigit(s[i]) || s[i] == ':' || s[i] == '.';
  }

  lemma BracketChars(c: char)
    ensures c == '[' || c == ']' ==> c != '/' && !IsSpace(c)
  {
  }

  // ----- what comes out is such an address, and such an address is kept

  lemma AcceptSound(full: string)
    requires Accept(full) != ""
    ensures Canonical(Accept(full))
  {
    hide Lower, FindSeparator, ValidAuthority, RStripChar, Authority;
    var i := FindSeparator(full);
    assert i + 3 <= |full|;
    hide SeparatorAt;
    var scheme, rest := Lower(full[..i]), RStripChar(full[i + 3..], '/');
    var authority := AuthorityOf(rest);
    var path := rest[|authority|..];
    AuthoritySound(authority);
    assert rest == authority + path;
    assert Path(path);
    assert Accept(full) == scheme + "://" + (authority + path);
  }

  /** Every result is `http` or `https`, then a host and perhaps a port in the grammar
      above, then perhaps a path with no trailing slash. */
  lemma NormaliseSound(raw: string)
    requires Normalise(raw) != ""
    ensures Canonical(Normalise(raw))
  {
    hide Canonical, Accept, WithScheme, Strip;
    AcceptSound(WithScheme(Strip(raw)));
  }

  lemma SeparatorAfter(scheme: string, tail: string)
    requires forall i :: 0 <= i < |scheme| ==> scheme[i] != ':'
    ensures FindSeparator(scheme + "://" + tail) == |scheme|
  {
    var url := scheme + "://" + tail;
    assert SeparatorAt(url, |scheme|);
    forall j | 0 <= j < |scheme|
      ensures !SeparatorAt(url, j)
    {
      assert url[j] == scheme[j];
    }
  }

  lemma RestParts(authority: string, path: string)
    requires Authority(authority) && Path(path)
    ensures authority + path != "" && RStripChar(authority + path, '/') == authority + path
    ensures AuthorityOf(authority + path) == authority
  {
    var rest := authority + path;
    forall i | 0 <= i < |authority|
      ensures rest[i] != '/' && authority[i] != '/'
    {
      AuthorityChars(authority, i);
    }
    var slash := FindChar(rest, '/');
    if path != "" {
      assert rest[|authority|] == path[0];
      assert rest[|rest| - 1] == path[|path| - 1];
    } else {
      assert rest == authority;
    }
    assert slash == |authority|;
  }

  lemma LowerHttp(scheme: string)
    requires scheme == "http" || scheme == "https"
    ensures Lower(scheme) == scheme
    ensures forall i :: 0 <= i < |scheme| ==> scheme[i] != ':'
  {
  }

  /** An address with a scheme comes out as its parts, less any trailing slashes. */
  lemma AcceptParts(scheme: string, authority: string, path: string, rest: string)
    requires (scheme == "http" || scheme == "https") && Authority(authority) && Path(path)
    requires RStripChar(rest, '/') == authority + path
    ensures Accept(scheme + "://" + rest) == scheme + "://" + (authority + path)
    ensures WithScheme(scheme + "://" + rest) == scheme + "://" + rest
  {
    LowerHttp(scheme);
    hide FindSeparator, ValidAuthority, RStripChar, Authority, Path, SeparatorAt, Lower, AuthorityOf;
    var full := scheme + "://" + rest;
    SeparatorAfter(scheme, rest);
    assert full[..|scheme|] == scheme && full[|scheme| + 3..] == rest;
    RestParts(authority, path);
    AuthorityComplete(authority);
  }

  lemma TrimmedKept(scheme: string, authority: string, path: string)
    requires (scheme == "http" || scheme == "https") && Authority(authority) && Path(path)
    requires Trimmed(scheme + "://" + (authority + path))
    ensures Normalise(scheme + "://" + (authority + path)) == scheme + "://" + (authority + path)
  {
    hide Strip, Accept, WithScheme, Authority, Path, RStripChar, Trimmed;
    StripTrimmed(scheme + "://" + (authority + path));
    RestParts(authority, path);
    AcceptParts(scheme, authority, path, authority + path);
  }

  /** A canonical address that does not end in a space is left exactly as it is. */
  lemma CanonicalKept(url: string)
    requires Canonical(url) && Trimmed(url)
    ensures Normalise(url) == url
  {
    hide Normalise, Authority, Path, Trimmed;
    var scheme: string, authority: string, path: string :|
      && url == scheme + "://" + (authority + path)
      && (scheme == "http" || scheme == "https") && Authority(authority) && Path(path);
    TrimmedKept(scheme, authority, path);
  }

  /** The last character of what is left of the input after trimming spaces, then slashes. */
  predicate EndsInSpace(raw: string) {
    var text := RStripChar(Strip(raw), '/');
    text != "" && IsSpace(text[|text| - 1])
  }

  lemma {:induction false} TrimmedAt(s: string, c: char, n: nat)
    requires 0 < n <= |s| && s[n - 1] != c
    requires forall j :: n <= j < |s| ==> s[j] == c
    ensures RStripChar(s, c) == s[..n]
  {
    if n < |s| {
      TrimmedAt(s[..|s| - 1], c, n);
      assert s[..|s| - 1][..n] == s[..n];
    } else {
      assert s[..n] == s;
    }
  }

  /** Slashes are trimmed alike with and without what stands before them. */
  lemma TrimTail(head: string, tail: string)
    requires RStripChar(tail, '/') != ""
    ensures var t := RStripChar(tail, '/');
            RStripChar(head + tail, '/') == head + t
  {
    var t := RStripChar(tail, '/');
    var all, n := head + tail, |head| + |t|;
    assert all[n - 1] == t[|t| - 1];
    TrimmedAt(all, '/', n);
    assert all[..n] == head + t;
  }

  lemma AcceptEnd(full: string)
    requires Accept(full) != ""
    ensures var kept := RStripChar(full, '/');
            && kept != "" && Accept(full)[|Accept(full)| - 1] == kept[|kept| - 1]
            && FindSeparator(full) + 3 < |kept| && Accept(full)[0] == 'h'
  {
    hide Accept, FindSeparator, RStripChar;
    var scheme, rest := AcceptShape(full);
    var i := FindSeparator(full);
    var head, tail := full[..i + 3], full[i + 3..];
    assert full == head + tail;
    TrimTail(head, tail);
    Ends(scheme + "://", rest);
    Ends(head, rest);
  }

  lemma AcceptShape(full: string) returns (scheme: string, rest: string)
    requires Accept(full) != ""
    ensures FindSeparator(full) + 3 <= |full|
    ensures rest == RStripChar(full[FindSeparator(full) + 3..], '/') && rest != ""
    ensures Accept(full) == scheme + "://" + rest && scheme != "" && scheme[0] == 'h'
  {
    hide Lower, FindSeparator, ValidAuthority, RStripChar, AuthorityOf;
    scheme, rest := Lower(full[..FindSeparator(full)]), RStripChar(full[FindSeparator(full) + 3..], '/');
  }

  lemma Ends(head: string, tail: string)
    requires head != "" && tail != ""
    ensures (head + tail)[|head + tail| - 1] == tail[|tail| - 1] && (head + tail)[0] == head[0]
  {
  }

  lemma ResultEnd(raw: string)
    requires Normalise(raw) != ""
    ensures var url := Normalise(raw);
            url[0] == 'h' && (IsSpace(url[|url| - 1]) <==> EndsInSpace(raw))
  {
    hide Accept, Strip, RStripChar, FindSeparator, IsSpace;
    var text := Strip(raw);
    var full := WithScheme(text);
    AcceptEnd(full);
    if FindSeparator(text) == |text| {
      SeparatorAfter("http", text);
      if RStripChar(text, '/') == "" {
        AllSlashes(text);
      } else {
        TrimTail("http://", text);
      }
    }
  }

  lemma AllSlashes(text: string)
    requires RStripChar(text, '/') == ""
    ensures |RStripChar("http://" + text, '/')| <= 7
  {
    var full := "http://" + text;
    forall j | 7 <= j < |full|
      ensures full[j] == '/'
    {
      assert full[j] == text[j - 7];
    }
  }

  // ----- which inputs are accepted

  /** An authority, then nothing or anything that starts with a slash. */
  ghost predicate HostAndTail(rest: string) {
    exists n :: 0 < n <= |rest| && Authority(rest[..n]) && (n == |rest| || rest[n] == '/')
  }

  predicate HttpScheme(scheme: string) {
    Lower(scheme) == "http" || Lower(scheme) == "https"
  }

  /** What may be typed: `http://` or `https://` in any case, or no `://` at all, and then a
      host, perhaps a port, and perhaps a path. */
  ghost predicate Address(text: string) {
    || (FindSeparator(text) == |text| && HostAndTail(text))
    || (exists scheme, rest :: text == scheme + "://" + rest && HttpScheme(scheme) && HostAndTail(rest))
  }

  lemma HostAndTailIff(rest: string)
    ensures var kept := RStripChar(rest, '/');
            HostAndTail(rest) <==> kept != "" && ValidAuthority(AuthorityOf(kept))
  {
    hide Authority, ValidAuthority;
    var kept := RStripChar(rest, '/');
    if kept != "" && ValidAuthority(AuthorityOf(kept)) {
      var n := FindChar(kept, '/');
      AuthoritySound(kept[..n]);
      AuthorityNonEmpty(kept[..n]);
      assert rest[..n] == kept[..n];
    }
    if HostAndTail(rest) {
      var n :| 0 < n <= |rest| && Authority(rest[..n]) && (n == |rest| || rest[n] == '/');
      HeadKept(rest, n);
      AuthorityComplete(rest[..n]);
    }
  }

  lemma HeadKept(rest: string, n: nat)
    requires 0 < n <= |rest| && Authority(rest[..n]) && (n == |rest| || rest[n] == '/')
    ensures RStripChar(rest, '/') != "" && AuthorityOf(RStripChar(rest, '/')) == rest[..n]
  {
    hide Authority;
    var kept := RStripChar(rest, '/');
    forall i | 0 <= i < n
      ensures rest[i] != '/'
    {
      AuthorityChars(rest[..n], i);
      assert rest[..n][i] == rest[i];
    }
    assert rest[n - 1] != '/' && |kept| >= n;
    assert FindChar(kept, '/') == n;
    assert kept[..n] == rest[..n];
  }

  lemma AcceptIff(scheme: string, rest: string)
    requires forall i :: 0 <= i < |scheme| ==> scheme[i] != ':'
    ensures Accept(scheme + "://" + rest) != "" <==> HttpScheme(scheme) && HostAndTail(rest)
  {
    hide Lower, FindSeparator, ValidAuthority, RStripChar, HostAndTail, AuthorityOf, SeparatorAt;
    var full := scheme + "://" + rest;
    SeparatorAfter(scheme, rest);
    assert full[..|scheme|] == scheme && full[|scheme| + 3..] == rest;
    HostAndTailIff(rest);
  }

  lemma HttpNoColon(scheme: string)
    requires HttpScheme(scheme)
    ensures forall i :: 0 <= i < |scheme| ==> scheme[i] != ':'
  {
    forall i | 0 <= i < |scheme|
      ensures scheme[i] != ':'
    {
      assert Lower(scheme)[i] == LowerChar(scheme[i]);
    }
  }

  lemma EmptyIsNoAddress()
    ensures !Address("")
  {
  }

  lemma PlainAccepted(text: string)
    requires FindSeparator(text) == |text|
    ensures Accept("http://" + text) != "" <==> HostAndTail(text)
  {
    hide Accept, HostAndTail, FindSeparator;
    LowerHttp("http");
    AcceptIff("http", text);
    HttpPrefix(text);
  }

  lemma SchemedAccepted(text: string)
    requires FindSeparator(text) < |text|
    ensures Accept(text) != "" <==>
              exists scheme, rest :: text == scheme + "://" + rest && HttpScheme(scheme) && HostAndTail(rest)
  {
    hide HostAndTail, FindSeparator, HttpScheme, Lower, Accept;
    forall scheme, rest | text == scheme + "://" + rest && HttpScheme(scheme) && HostAndTail(rest)
      ensures Accept(text) != ""
    {
      HttpNoColon(scheme);
      AcceptIff(scheme, rest);
    }
    if Accept(text) != "" {
      var i := FindSeparator(text);
      var scheme, rest := text[..i], text[i + 3..];
      assert text == scheme + "://" + rest;
      AcceptScheme(text);
      HttpNoColon(scheme);
      AcceptIff(scheme, rest);
    }
  }

  lemma AcceptScheme(full: string)
    requires Accept(full) != ""
    ensures FindSeparator(full) < |full| && HttpScheme(full[..FindSeparator(full)])
  {
    hide Lower, FindSeparator, ValidAuthority, RStripChar, AuthorityOf;
  }

  /** An input is accepted exactly when, trimmed of spaces, it is an address in the grammar
      above. */
  lemma AcceptedIff(raw: string)
    ensures Normalise(raw) != "" <==> Address(Strip(raw))
  {
    var text := Strip(raw);
    hide Accept, FindSeparator, HostAndTail, HttpScheme, Strip;
    if text == "" {
      EmptyIsNoAddress();
    } else if FindSeparator(text) == |text| {
      PlainAccepted(text);
      NoScheme(text);
    } else {
      SchemedAccepted(text);
    }
  }

  /** A text without `://` is no address with a scheme. */
  lemma NoScheme(text: string)
    requires FindSeparator(text) == |text|
    ensures forall scheme, rest :: text == scheme + "://" + rest ==> false
  {
    forall scheme, rest | text == scheme + "://" + rest
      ensures false
    {
      assert SeparatorAt(text, |scheme|);
    }
  }

  /** Normalising twice is normalising once exactly when the input is no address, or does not
      end in a space once trimmed of spaces and then of slashes. */
  lemma NormaliseIdempotentIff(raw: string)
    ensures Normalise(Normalise(raw)) == Normalise(raw)
       <==> !Address(Strip(raw)) || !EndsInSpace(raw)
  {
    var url := Normalise(raw);
    NormaliseEmpty();
    AcceptedIff(raw);
    hide Normalise, EndsInSpace, Canonical, IsSpace, Strip, Address;
    if url != "" {
      ResultEnd(raw);
      NormaliseSound(raw);
      if EndsInSpace(raw) {
        NormaliseTrims(url);
        assert |Normalise(url)| < |url|;
      } else {
        LetterFirst(url);
        CanonicalKept(url);
      }
    }
  }

  lemma NormaliseEmpty()
    ensures Normalise("") == ""
  {
  }

  lemma LetterFirst(url: string)
    requires url != "" && url[0] == 'h' && !IsSpace(url[|url| - 1])
    ensures Trimmed(url)
  {
  }

  /** A canonical text that ends in a space keeps its scheme and loses the space. */
  lemma NormaliseTrims(url: string)
    requires Canonical(url) && url[0] == 'h' && IsSpace(url[|url| - 1])
    ensures |Normalise(url)| < |url|
  {
    assert !IsSpace(url[0]);
    hide Authority, Path, Accept, IsSpace, Strip, WithScheme;
    var scheme: string, authority: string, path: string :|
      && url == scheme + "://" + (authority + path)
      && (scheme == "http" || scheme == "https") && Authority(authority) && Path(path);
    var text := Strip(url);
    StripsEnd(url, |scheme| + 3, authority);
    KeepsScheme(scheme, url, text);
    AcceptShorter(text);
  }

  lemma KeepsScheme(scheme: string, url: string, text: string)
    requires scheme == "http" || scheme == "https"
    requires |scheme| + 3 <= |text| <= |url| && text == url[..|text|]
    requires url[..|scheme| + 3] == scheme + "://"
    ensures WithScheme(text) == text
  {
    LowerHttp(scheme);
    var n := |scheme| + 3;
    assert text[..n] == url[..n];
    assert text == scheme + "://" + text[n..];
    SeparatorAfter(scheme, text[n..]);
  }

  lemma StripsEnd(url: string, n: nat, authority: string)
    requires Authority(authority) && 0 < n && n + |authority| <= |url|
    requires url[n..n + |authority|] == authority
    requires !IsSpace(url[0]) && IsSpace(url[|url| - 1])
    ensures n < |Strip(url)| < |url| && Strip(url) == url[..|Strip(url)|]
  {
    hide Authority, IsSpace;
    assert LStrip(url) == url;
    AuthorityNonEmpty(authority);
    AuthorityChars(authority, |authority| - 1);
    assert url[n + |authority| - 1] == authority[|authority| - 1];
    RStripKeeps(url, n + |authority| - 1);
  }

  lemma AuthorityNonEmpty(authority: string)
    requires Authority(authority)
    ensures authority != ""
  {
  }

  lemma {:induction false} RStripKeeps(s: string, i: nat)
    requires i < |s| && !IsSpace(s[i])
    ensures |RStrip(s)| > i
  {
    if IsSpace(s[|s| - 1]) {
      RStripKeeps(s[..|s| - 1], i);
    }
  }

  lemma AcceptShorter(full: string)
    ensures |Accept(full)| <= |full|
  {
    hide ValidAuthority;
  }

  /** Typing it with one, in whatever letters, keeps the scheme in small letters. */
  lemma SchemedForm(scheme: string, authority: string, path: string, rest: string, raw: string)
    requires HttpScheme(scheme) && Authority(authority) && Path(path)
    requires Strip(raw) == scheme + "://" + rest && RStripChar(rest, '/') == authority + path
    ensures Normalise(raw) == Lower(scheme) + "://" + (authority + path)
  {
    HttpNoColon(scheme);
    hide FindSeparator, ValidAuthority, RStripChar, Authority, Path, SeparatorAt, Lower, AuthorityOf, Strip;
    var full := scheme + "://" + rest;
    SeparatorAfter(scheme, rest);
    assert full[..|scheme|] == scheme && full[|scheme| + 3..] == rest;
    RestParts(authority, path);
    AuthorityComplete(authority);
  }

  /** Typing the address without a scheme, in any spacing and with any trailing slashes,
      reaches the same server as the pedantic form. */
  lemma TypedForm(authority: string, path: string, raw: string)
    requires Authority(authority) && Path(path) && Trimmed(authority + path)
    requires RStripChar(Strip(raw), '/') == authority + path && FindSeparator(Strip(raw)) == |Strip(raw)|
    ensures Normalise(raw) == "http://" + (authority + path)
  {
    hide Strip, RStripChar, FindSeparator, Authority, Path, Accept, Trimmed;
    RestParts(authority, path);
    AcceptParts("http", authority, path, Strip(raw));
    HttpPrefix(Strip(raw));
    HttpPrefix(authority + path);
  }

  /** The family on which a second pass changes the address: a host, a slash, a space and
      a slash. */
  lemma SecondPassDiffers(host: string)
    requires HostName(host)
    ensures Normalise(host + "/ /") == "http://" + (host + "/ ")
    ensures Normalise("http://" + (host + "/ ")) == "http://" + (host + "")
  {
    assert Authority(host) by { assert host[..|host|] == host; }
    FirstPass(host);
    SecondPass(host);
  }

  lemma FirstPass(host: string)
    requires HostName(host) && Authority(host)
    ensures Normalise(host + "/ /") == "http://" + (host + "/ ")
  {
    hide HostName, Authority, Strip, RStripChar, FindSeparator, Accept, Path;
    var raw := host + "/ /";
    RawKept(host);
    NoSeparator(raw, host);
    AcceptParts("http", host, "/ ", raw);
    HttpPrefix(raw);
    HttpPrefix(host + "/ ");
  }

  lemma HttpPrefix(tail: string)
    ensures "http" + "://" + tail == "http://" + tail
  {
  }

  lemma NonEmpty(tail: string)
    ensures "http://" + tail != ""
  {
  }

  lemma RawKept(host: string)
    requires HostName(host)
    ensures Strip(host + "/ /") == host + "/ /" && RStripChar(host + "/ /", '/') == host + "/ " && Path("/ ")
  {
    var raw := host + "/ /";
    assert !IsSpace(raw[0]) by { assert raw[0] == host[0] && IsAlnum(host[0]); }
    assert raw[|raw| - 1] == '/' && raw[|host| + 1] == ' ' && !IsSpace('/');
    hide HostName, Strip, IsSpace, RStripChar;
    StripTrimmed(raw);
    TrimmedAt(raw, '/', |host| + 2);
    assert raw[..|host| + 2] == host + "/ ";
  }

  lemma StripOneSpace(kept: string)
    requires kept != "" && Trimmed(kept)
    ensures Strip(kept + " ") == kept
  {
    var s := kept + " ";
    assert s[0] == kept[0] && s[|s| - 1] == ' ' && IsSpace(' ');
    assert LStrip(s) == s;
    assert s[..|s| - 1] == kept;
    assert RStrip(s) == RStrip(kept);
  }

  lemma OnceIsKept(host: string)
    requires HostName(host)
    ensures Strip("http://" + (host + "/ ")) == "http://" + (host + "/")
    ensures RStripChar(host + "/", '/') == host + ""
  {
    hide HostName, Strip;
    var once, kept := "http://" + (host + "/ "), "http://" + (host + "/");
    assert kept[0] == 'h' && kept[|kept| - 1] == '/';
    assert once == kept + " ";
    StripOneSpace(kept);
    HostEnd(host);
    TrimmedAt(host + "/", '/', |host|);
    assert (host + "/")[..|host|] == host + "";
  }

  lemma HostEnd(host: string)
    requires HostName(host)
    ensures host != "" && host[|host| - 1] != '/'
  {
  }

  lemma SecondPass(host: string)
    requires HostName(host) && Authority(host)
    ensures Normalise("http://" + (host + "/ ")) == "http://" + (host + "")
  {
    assert Path("");
    hide HostName, Authority, Strip, RStripChar, FindSeparator, Accept, Path, Trimmed, WithScheme;
    OnceIsKept(host);
    AcceptParts("http", host, "", host + "/");
    HttpPrefix(host + "/");
    HttpPrefix(host + "");
    NonEmpty(host + "/");
  }

  lemma NoSeparator(raw: string, host: string)
    requires HostName(host) && raw == host + "/ /"
    ensures FindSeparator(raw) == |raw|
  {
    forall j | 0 <= j < |raw|
      ensures raw[j] != ':'
    {
      if j < |host| {
        HostHasNo(host, j);
        assert raw[j] == host[j];
      }
    }
  }

  /** A space inside the path is no reason to refuse an address. */
  lemma InnerSpaceKept(host: string)
    requires HostName(host)
    ensures Normalise(host + "/a b") == "http://" + (host + "/a b")
  {
    assert Authority(host) by { assert host[..|host|] == host; }
    var raw := host + "/a b";
    PlainRaw(host);
    hide HostName, Authority, Strip, RStripChar, FindSeparator, Accept, Path, Trimmed, IsSpace;
    TypedForm(host, "/a b", raw);
  }

  lemma PlainRaw(host: string)
    requires HostName(host)
    ensures var raw := host + "/a b";
            Trimmed(raw) && Strip(raw) == raw && RStripChar(raw, '/') == raw && Path("/a b") && FindSeparator(raw) == |raw|
  {
    var raw := host + "/a b";
    assert !IsSpace(raw[0]) by { assert raw[0] == host[0] && IsAlnum(host[0]); }
    assert raw[|raw| - 1] == 'b';
    StripTrimmed(raw);
    forall j | 0 <= j < |raw|
      ensures raw[j] != ':'
    {
      if j < |host| {
        HostHasNo(host, j);
        assert raw[j] == host[j];
      }
    }
  }
}
