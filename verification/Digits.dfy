/** Digits as Python knows them. `str.isdigit` says yes to more characters than `int` can
  read, and `int` reads the decimal digits of every script. Characters are those of
  Unicode 15.0. */
module Digits {
  import opened Text

  /** The zero of each script's ten decimal digits beyond ASCII, in order, by the row. */
  const ZEROS: seq<seq<int>> := [
    [0x660, 0x6F0, 0x7C0, 0x966, 0x9E6, 0xA66, 0xAE6, 0xB66, 0xBE6, 0xC66],
    [0xCE6, 0xD66, 0xDE6, 0xE50, 0xED0, 0xF20, 0x1040, 0x1090, 0x17E0, 0x1810],
    [0x1946, 0x19D0, 0x1A80, 0x1A90, 0x1B50, 0x1BB0, 0x1C40, 0x1C50, 0xA620, 0xA8D0],
    [0xA900, 0xA9D0, 0xA9F0, 0xAA50, 0xABF0, 0xFF10, 0x104A0, 0x10D30, 0x11066, 0x110F0],
    [0x11136, 0x111D0, 0x112F0, 0x11450, 0x114D0, 0x11650, 0x116C0, 0x11730, 0x118E0, 0x11950],
    [0x11C50, 0x11D50, 0x11DA0, 0x11F50, 0x16A60, 0x16AC0, 0x16B50, 0x1D7CE, 0x1D7D8, 0x1D7E2],
    [0x1D7EC, 0x1D7F6, 0x1E140, 0x1E2F0, 0x1E4F0, 0x1E950, 0x1FBF0]]

  /** First and last of each run of digits that are no decimal digits, such as the
      superscripts, in order. */
  const OTHERS: seq<(int, int)> := [
    (0xB2, 0xB3), (0xB9, 0xB9), (0x1369, 0x1371), (0x19DA, 0x19DA), (0x2070, 0x2070),
    (0x2074, 0x2079), (0x2080, 0x2089), (0x2460, 0x2468), (0x2474, 0x247C), (0x2488, 0x2490),
    (0x24EA, 0x24EA), (0x24F5, 0x24FD), (0x24FF, 0x24FF), (0x2776, 0x277E), (0x2780, 0x2788),
    (0x278A, 0x2792), (0x10A40, 0x10A43), (0x10E60, 0x10E68), (0x11052, 0x1105A),
    (0x1F100, 0x1F10A)]

  /** `int` gives up on longer runs of digits. */
  const MAX_STR_DIGITS := 4300

  function DigitInRow(c: int, row: seq<int>): (v: Option<nat>)
    ensures v.Some? ==> v.value <= 9
  {
    if row == [] || c < row[0] then None
    else if c <= row[0] + 9 then Some(c - row[0])
    else DigitInRow(c, row[1..])
  }

  function DigitAbove(c: int, rows: seq<seq<int>>): (v: Option<nat>)
    ensures v.Some? ==> v.value <= 9
  {
    if rows == [] || rows[0] == [] || c < rows[0][0] then None
    else if DigitInRow(c, rows[0]).Some? then DigitInRow(c, rows[0])
    else DigitAbove(c, rows[1..])
  }

  predicate Within(c: int, ranges: seq<(int, int)>) {
    if ranges == [] || c < ranges[0].0 then false
    else c <= ranges[0].1 || Within(c, ranges[1..])
  }

  /** The value `int` gives a character. */
  function DecimalDigit(c: char): (v: Option<nat>)
    ensures v.Some? ==> v.value <= 9
  {
    if c as int < 0x80 then if IsDigit(c) then Some(c as int - '0' as int) else None
    else DigitAbove(c as int, ZEROS)
  }

  /** `str.isdigit` on one character. */
  predicate LooksDigit(c: char) {
    DecimalDigit(c).Some? || (c as int >= 0x80 && Within(c as int, OTHERS))
  }

  predicate AllLookDigits(s: string) {
    forall i :: 0 <= i < |s| ==> LooksDigit(s[i])
  }

  predicate AllDecimal(s: string) {
    forall i :: 0 <= i < |s| ==> DecimalDigit(s[i]).Some?
  }

  /** The number that a run of decimal digits spells, in whatever scripts. */
  function DecimalValue(s: string): nat
    requires AllDecimal(s)
  {
    if s == "" then 0 else DecimalValue(s[..|s| - 1]) * 10 + DecimalDigit(s[|s| - 1]).value
  }

  lemma SuperscriptTwo()
    ensures LooksDigit('\U{00B2}') && DecimalDigit('\U{00B2}') == None
  {
    assert ZEROS[0][0] == 0x660 && OTHERS[0] == (0xB2, 0xB3);
  }

  /** `str` of a number. */
  function Decimal(n: nat): (s: string)
    ensures s != "" && IsDigit(s[|s| - 1])
  {
    var digit := [(n % 10 + '0' as int) as char];
    if n < 10 then digit else Decimal(n / 10) + digit
  }

  // ----- looking a character up finds exactly what the tables list

  /** Ten codes for each zero, without overlap, in order. */
  ghost predicate Spread(row: seq<int>) {
    row != [] && forall i :: 0 < i < |row| ==> row[i - 1] + 9 < row[i]
  }

  ghost predicate AllSpread(rows: seq<seq<int>>) {
    && (forall r :: 0 <= r < |rows| ==> Spread(rows[r]))
    && (forall r :: 0 < r < |rows| ==> rows[r - 1][|rows[r - 1]| - 1] + 9 < rows[r][0])
  }

  lemma RowSpread(r: nat)
    requires r < |ZEROS|
    ensures Spread(ZEROS[r])
  {
    var row := ZEROS[r];
    forall i | 0 < i < |row|
      ensures row[i - 1] + 9 < row[i]
    {
      if
      case i == 1 =>
      case i == 2 =>
      case i == 3 =>
      case i == 4 =>
      case i == 5 =>
      case i == 6 =>
      case i == 7 =>
      case i == 8 =>
      case i == 9 =>
    }
  }

  lemma ZerosSpread()
    ensures AllSpread(ZEROS)
  {
    forall r | 0 <= r < |ZEROS|
      ensures Spread(ZEROS[r])
    {
      RowSpread(r);
    }
    hide Spread;
    forall r | 0 < r < |ZEROS|
      ensures ZEROS[r - 1][|ZEROS[r - 1]| - 1] + 9 < ZEROS[r][0]
    {
      if
      case r == 1 =>
      case r == 2 =>
      case r == 3 =>
      case r == 4 =>
      case r == 5 =>
      case r == 6 =>
    }
  }

  lemma {:induction false} FirstLeast(row: seq<int>, i: nat)
    requires Spread(row) && i < |row|
    ensures row[0] <= row[i]
  {
    if i > 0 {
      FirstLeast(row, i - 1);
    }
  }

  lemma {:induction false} RowIff(c: int, row: seq<int>, d: nat)
    requires Spread(row)
    ensures DigitInRow(c, row) == Some(d) <==> d <= 9 && c - d in row
  {
    assert row == [row[0]] + row[1..];
    if d <= 9 && c - d in row {
      var i :| 0 <= i < |row| && row[i] == c - d;
      FirstLeast(row, i);
    }
    if |row| > 1 {
      RowIff(c, row[1..], d);
      if d <= 9 && c - d in row[1..] {
        var i :| 0 <= i < |row[1..]| && row[1..][i] == c - d;
        FirstLeast(row[1..], i);
      }
    }
  }

  lemma RowWithin(row: seq<int>, i: nat)
    requires Spread(row) && i < |row|
    ensures row[0] <= row[i] <= row[|row| - 1]
    decreases |row| - i
  {
    FirstLeast(row, i);
    if i < |row| - 1 {
      RowWithin(row, i + 1);
    }
  }

  lemma {:induction false} RowsAscend(rows: seq<seq<int>>, r: nat, z: int)
    requires AllSpread(rows) && 0 < r < |rows| && z in rows[r]
    ensures rows[0][|rows[0]| - 1] + 9 < z
  {
    hide Spread;
    var i :| 0 <= i < |rows[r]| && rows[r][i] == z;
    RowWithin(rows[r], i);
    if r > 1 {
      NotEmpty(rows[r - 1]);
      RowsAscend(rows, r - 1, rows[r - 1][0]);
      RowWithin(rows[r - 1], 0);
    }
  }

  lemma NotEmpty(row: seq<int>)
    requires Spread(row)
    ensures row != []
  {
  }

  lemma {:induction false} RowsIff(c: int, rows: seq<seq<int>>, d: nat)
    requires AllSpread(rows)
    ensures DigitAbove(c, rows) == Some(d) <==> d <= 9 && exists r :: 0 <= r < |rows| && c - d in rows[r]
  {
    hide Spread, DigitInRow;
    if rows != [] {
      var row, rest := rows[0], rows[1..];
      NotEmpty(row);
      RowIff(c, row, d);
      RowsIff(c, rest, d);
      assert forall r :: 0 < r < |rows| ==> rows[r] == rest[r - 1];
      assert forall r :: 0 <= r < |rest| ==> rest[r] == rows[r + 1];
      forall r, z | 0 <= r < |rows| && z in rows[r]
        ensures row[0] <= z
        ensures r > 0 ==> row[|row| - 1] + 9 < z
      {
        var i :| 0 <= i < |rows[r]| && rows[r][i] == z;
        RowWithin(rows[r], i);
        if r > 0 {
          RowsAscend(rows, r, z);
          RowWithin(row, 0);
        }
      }
      InRowBound(c, row);
    }
  }

  lemma InRowBound(c: int, row: seq<int>)
    requires Spread(row)
    ensures DigitInRow(c, row).Some? ==> c <= row[|row| - 1] + 9
  {
    if DigitInRow(c, row).Some? {
      var d := DigitInRow(c, row).value;
      RowIff(c, row, d);
      var i :| 0 <= i < |row| && row[i] == c - d;
      RowWithin(row, i);
    }
  }

  /** A character is worth `d` to `int` exactly when it is the `d`-th after the ASCII zero or
      after one of the listed ones. */
  lemma DecimalIff(c: char, d: nat)
    ensures DecimalDigit(c) == Some(d) <==>
            d <= 9 && (c as int - d == 48 || exists r :: 0 <= r < |ZEROS| && c as int - d in ZEROS[r])
  {
    ZerosSpread();
    RowsIff(c as int, ZEROS, d);
    forall r, z | 0 <= r < |ZEROS| && z in ZEROS[r]
      ensures z >= 0x660
    {
      BeyondAscii(r, z);
    }
    hide ZEROS, DigitAbove;
  }

  lemma BeyondAscii(r: nat, z: int)
    requires r < |ZEROS| && z in ZEROS[r]
    ensures z >= 0x660
  {
    ZerosSpread();
    assert ZEROS[0][0] == 0x660;
    hide ZEROS;
    if r > 0 {
      RowsAscend(ZEROS, r, z);
      RowWithin(ZEROS[0], 0);
    } else {
      var i :| 0 <= i < |ZEROS[0]| && ZEROS[0][i] == z;
      RowWithin(ZEROS[0], i);
    }
  }

  /** Runs in order, none touching the next. */
  ghost predicate Apart(ranges: seq<(int, int)>) {
    && (forall i :: 0 <= i < |ranges| ==> ranges[i].0 <= ranges[i].1)
    && (forall i :: 0 < i < |ranges| ==> ranges[i - 1].1 < ranges[i].0)
  }

  lemma {:induction false} WithinIff(c: int, ranges: seq<(int, int)>)
    requires Apart(ranges)
    ensures Within(c, ranges) <==> exists i :: 0 <= i < |ranges| && ranges[i].0 <= c <= ranges[i].1
  {
    if ranges != [] {
      var rest := ranges[1..];
      WithinIff(c, rest);
      assert forall i :: 0 < i < |ranges| ==> ranges[i] == rest[i - 1];
      forall i | 0 <= i < |ranges|
        ensures ranges[0].0 <= ranges[i].0
      {
        RunsAscend(ranges, i);
      }
    }
  }

  lemma {:induction false} RunsAscend(ranges: seq<(int, int)>, i: nat)
    requires Apart(ranges) && i < |ranges|
    ensures ranges[0].0 <= ranges[i].0
  {
    if i > 0 {
      RunsAscend(ranges, i - 1);
    }
  }

  lemma OthersApart()
    ensures Apart(OTHERS)
  {
  }

  /** `str.isdigit` says yes to the decimal digits and the listed runs, and to no more. */
  lemma LooksIff(c: char)
    ensures LooksDigit(c) <==>
            || DecimalDigit(c).Some?
            || exists i :: 0 <= i < |OTHERS| && OTHERS[i].0 <= c as int <= OTHERS[i].1
  {
    OthersApart();
    WithinIff(c as int, OTHERS);
    assert OTHERS[0].0 == 0xB2;
    hide OTHERS, DecimalDigit, Within;
    forall i | 0 <= i < |OTHERS|
      ensures OTHERS[i].0 >= 0xB2
    {
      RunsAscend(OTHERS, i);
    }
  }

  // ----- what a decimal spelling means, by the places of its digits

  ghost function Power10(n: nat): nat {
    if n == 0 then 1 else 10 * Power10(n - 1)
  }

  /** The ASCII digits 48 to 57, each worth its code less 48 times the power of ten of its
      place, added up from the left. */
  ghost function PlaceValue(s: string): nat
    requires AsciiDigits(s)
  {
    if s == "" then 0 else (s[0] as int - 48) * Power10(|s| - 1) + PlaceValue(s[1..])
  }

  ghost predicate AsciiDigits(s: string) {
    forall i :: 0 <= i < |s| ==> 48 <= s[i] as int <= 57
  }

  /** One more digit at the end. */
  lemma {:induction false} PlaceValueEnd(s: string)
    requires AsciiDigits(s) && s != ""
    ensures PlaceValue(s) == PlaceValue(s[..|s| - 1]) * 10 + (s[|s| - 1] as int - 48)
  {
    if |s| == 1 {
      assert s[1..] == "" && s[..0] == "" && Power10(0) == 1;
    } else {
      var front := s[..|s| - 1];
      assert s[1..][..|s| - 2] == front[1..] && front[0] == s[0];
      PlaceValueEnd(s[1..]);
      TenTimes(s[0] as int - 48, |s| - 2);
    }
  }

  lemma TenTimes(d: nat, n: nat)
    ensures d * Power10(n + 1) == d * Power10(n) * 10
  {
    assert d * (10 * Power10(n)) == d * Power10(n) * 10;
  }

  lemma {:induction false} DigitsByPlace(s: string)
    requires AsciiDigits(s)
    ensures AllDigits(s) && AllDecimal(s)
    ensures DigitsValue(s) == PlaceValue(s) && DecimalValue(s) == PlaceValue(s)
  {
    if s != "" {
      DigitsByPlace(s[..|s| - 1]);
      PlaceValueEnd(s);
    }
  }

  /** The spelling of a number has only ASCII digits, no leading zero unless it is zero
      itself, and is worth the number. */
  lemma {:induction false} DecimalSpells(n: nat)
    ensures AsciiDigits(Decimal(n)) && PlaceValue(Decimal(n)) == n
    ensures Decimal(n)[0] == '0' ==> n == 0 && Decimal(n) == "0"
  {
    var s := Decimal(n);
    if n < 10 {
      assert s[1..] == "" && Power10(0) == 1;
    } else {
      DecimalSpells(n / 10);
      assert s[..|s| - 1] == Decimal(n / 10);
      assert s[0] == Decimal(n / 10)[0];
      PlaceValueEnd(s);
    }
  }
}
