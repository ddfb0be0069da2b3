/** The dashboards a server allows, as they come out of its JSON, and their order. */
module Models {
  import opened Text
  import opened Digits

  datatype Json =
    | Null
    | Bool(b: bool)
    | Num(n: int)
    | Str(s: string)
    | Arr(items: seq<Json>)
    | Obj(fields: map<string, Json>)

  predicate Truthy(j: Json) {
    match j
    case Null => false
    case Bool(b) => b
    case Num(n) => n != 0
    case Str(s) => s != ""
    case Arr(items) => items != []
    case Obj(fields) => fields != map[]
  }

  /** `str(value)`. The text of a list or an object is not modelled. */
  function PyStr(j: Json): (s: string)
    ensures Truthy(j) ==> s != ""
  {
    match j
    case Null => "None"
    case Bool(b) => if b then "True" else "False"
    case Num(n) => if n < 0 then "-" + Decimal(-n) else Decimal(n)
    case Str(s) => s
    case Arr(_) => "[...]"
    case Obj(_) => "{...}"
  }

  datatype Id = Id(text: string)

  datatype Dashboard = Dashboard(id: Id, name: string, url: string, order: int, group: string)

  datatype Alias = IdAlias | NameAlias | OrderAlias | EnabledAlias | GroupAlias

  function Aliases(a: Alias): seq<string> {
    match a
    case IdAlias => ["id", "dashboardId", "dashboard_id", "uuid"]
    case NameAlias => ["name", "title", "label"]
    case OrderAlias => ["sortOrder", "sort_order", "order", "position"]
    case EnabledAlias => ["isEnabled", "is_enabled", "enabled"]
    case GroupAlias => ["group", "groupName", "group_name", "category", "folder"]
  }

  function PickFrom(payload: map<string, Json>, aliases: seq<string>): Json {
    if aliases == [] then Null
    else if aliases[0] in payload && payload[aliases[0]] != Null then payload[aliases[0]]
    else PickFrom(payload, aliases[1..])
  }

  function Pick(payload: map<string, Json>, a: Alias): Json {
    PickFrom(payload, Aliases(a))
  }

  function ViewUrl(baseUrl: string, id: string): string {
    RStripChar(baseUrl, '/') + "/view" + "/" + id
  }

  // ----- display order

  /** `int` on a text without spaces, underscores or a plus: a sign, then decimal digits. */
  function SignedValue(text: string): Option<int> {
    if text != "" && text[0] == '-' then
      if IntDigits(text[1..]) then Some(0 - DecimalValue(text[1..])) else None
    else if IntDigits(text) then Some(DecimalValue(text))
    else None
  }

  predicate IntDigits(s: string) {
    s != "" && |s| <= MAX_STR_DIGITS && AllDecimal(s)
  }

  /** None is the ValueError of a text that looks like digits to one test and not to `int`. */
  function AsOrder(value: Json): Option<int> {
    match value
    case Null => Some(0)
    case Bool(_) => Some(0)
    case Num(n) => Some(n)
    case _ =>
      var text := Strip(PyStr(value));
      var unsigned := LStripChar(text, '-');
      if unsigned != "" && AllLookDigits(unsigned) then SignedValue(text) else Some(0)
  }

  /** Digits behind any number of minus signs that are no number to `int`: more than one
      sign, a digit such as a superscript, or too many digits. */
  predicate OddNumber(text: string) {
    var unsigned := LStripChar(text, '-');
    && unsigned != "" && AllLookDigits(unsigned)
    && (|text| - |unsigned| >= 2 || |unsigned| > MAX_STR_DIGITS
        || exists i :: 0 <= i < |unsigned| && DecimalDigit(unsigned[i]).None?)
  }

  /** The order of a text value fails exactly on such an odd number. */
  lemma OrderFailsIff(s: string)
    ensures AsOrder(Str(s)) == None <==> OddNumber(Strip(s))
  {
    hide Strip, SignedValue, LStripChar, LooksDigit, DecimalDigit;
    var text := Strip(s);
    if LStripChar(text, '-') != "" && AllLookDigits(LStripChar(text, '-')) {
      SignsIff(text);
    }
  }

  lemma SignsIff(text: string)
    requires LStripChar(text, '-') != "" && AllLookDigits(LStripChar(text, '-'))
    ensures SignedValue(text) == None <==> OddNumber(text)
  {
    MinusNoDigit();
    LStripCharExact(text, '-');
    hide LooksDigit, DecimalDigit, DecimalValue, LStripChar;
    var unsigned := LStripChar(text, '-');
    var signs := |text| - |unsigned|;
    if signs == 0 {
      assert unsigned == text;
    } else if signs == 1 {
      assert unsigned == text[1..];
    } else {
      assert text[1..][0] == text[1] == '-';
    }
  }

  lemma MinusNoDigit()
    ensures DecimalDigit('-') == None && !LooksDigit('-')
  {
  }

  /** An order spelled with some signs and then digits. */
  lemma SpelledOrder(signs: string, digits: string)
    requires (forall i :: 0 <= i < |signs| ==> signs[i] == '-') && digits != "" && digits[0] != '-'
    requires AllLookDigits(digits) && |digits| <= MAX_STR_DIGITS && Trimmed(signs + digits)
    ensures AsOrder(Str(signs + digits)) == None <==> |signs| >= 2 || !AllDecimal(digits)
  {
    hide Strip, LStripChar, LooksDigit, DecimalDigit, AsOrder, OddNumber;
    var text := signs + digits;
    StripTrimmed(text);
    StripSigns(signs, digits);
    OrderFailsIff(text);
    OddAfterSigns(text, digits);
  }

  lemma OddAfterSigns(text: string, digits: string)
    requires LStripChar(text, '-') == digits != "" && AllLookDigits(digits) && |digits| <= MAX_STR_DIGITS
    ensures OddNumber(text) <==> |text| - |digits| >= 2 || !AllDecimal(digits)
  {
    hide LStripChar, LooksDigit, DecimalDigit;
  }

  /** Two inputs that lose the dashboard. */
  lemma OrderWitnesses()
    ensures AsOrder(Str("--5")) == None && AsOrder(Str("\U{00B2}")) == None
  {
    SuperscriptTwo();
    FiveIs();
    hide DecimalDigit, LooksDigit, DecimalValue, AsOrder;
    assert "--" + "5" == "--5";
    assert "" + "\U{00B2}" == "\U{00B2}";
    SpelledOrder("--", "5");
    SpelledOrder("", "\U{00B2}");
  }

  lemma FiveIs()
    ensures DecimalDigit('5') == Some(5) && LooksDigit('5') && DecimalValue("5") == 5
  {
    assert "5"[..0] == "";
  }

  lemma {:induction false} StripSigns(signs: string, digits: string)
    requires forall i :: 0 <= i < |signs| ==> signs[i] == '-'
    requires digits != "" && digits[0] != '-'
    ensures LStripChar(signs + digits, '-') == digits
  {
    if signs == "" {
      assert signs + digits == digits;
    } else {
      assert (signs + digits)[1..] == signs[1..] + digits;
      StripSigns(signs[1..], digits);
    }
  }

  function FromPayload(payload: map<string, Json>, baseUrl: string): Option<Dashboard> {
    var rawId := Pick(payload, IdAlias);
    if !Truthy(rawId) then None
    else
      var id, name := PyStr(rawId), Pick(payload, NameAlias);
      match AsOrder(Pick(payload, OrderAlias))
      case None => None
      case Some(order) =>
        var group := Pick(payload, GroupAlias);
        Some(Dashboard(Id(id), if Truthy(name) then PyStr(name) else id, ViewUrl(baseUrl, id), order,
                       if Truthy(group) then PyStr(group) else ""))
  }

  predicate IsEnabled(payload: map<string, Json>) {
    var value := Pick(payload, EnabledAlias);
    value == Null || Truthy(value)
  }

  /** Ordering is meant to be cosmetic, yet an odd number loses the dashboard. */
  lemma OddOrderDropped(payload: map<string, Json>, baseUrl: string, s: string)
    requires Pick(payload, OrderAlias) == Str(s) && Truthy(Pick(payload, IdAlias))
    ensures FromPayload(payload, baseUrl) == None <==> OddNumber(Strip(s))
  {
    OrderFailsIff(s);
  }

  // ----- the stable sort

  predicate TextLeq(a: string, b: string) {
    if a == "" then true
    else if b == "" then false
    else a[0] < b[0] || (a[0] == b[0] && TextLeq(a[1..], b[1..]))
  }

  predicate Leq(a: Dashboard, b: Dashboard) {
    a.order < b.order || (a.order == b.order && TextLeq(Lower(a.name), Lower(b.name)))
  }

  predicate Sorted(ds: seq<Dashboard>) {
    forall i, j :: 0 <= i < j < |ds| ==> Leq(ds[i], ds[j])
  }

  function Insert(d: Dashboard, ds: seq<Dashboard>): (r: seq<Dashboard>)
    ensures |r| == |ds| + 1
  {
    if ds == [] || Leq(d, ds[0]) then [d] + ds else [ds[0]] + Insert(d, ds[1..])
  }

  function SortDashboards(ds: seq<Dashboard>): (r: seq<Dashboard>)
    ensures |r| == |ds|
  {
    if ds == [] then [] else Insert(ds[0], SortDashboards(ds[1..]))
  }

  lemma {:induction false} TextTotal(a: string, b: string)
    ensures TextLeq(a, b) || TextLeq(b, a)
    ensures TextLeq(a, a)
  {
    if a != "" && b != "" {
      TextTotal(a[1..], b[1..]);
    } else if a != "" {
      TextTotal(a[1..], b);
    }
  }

  lemma {:induction false} TextTransitive(a: string, b: string, c: string)
    requires TextLeq(a, b) && TextLeq(b, c)
    ensures TextLeq(a, c)
  {
    if a != "" && a[0] == b[0] == c[0] {
      TextTransitive(a[1..], b[1..], c[1..]);
    }
  }

  lemma LeqTotal(a: Dashboard, b: Dashboard)
    ensures Leq(a, b) || Leq(b, a)
    ensures Leq(a, a)
  {
    TextTotal(Lower(a.name), Lower(b.name));
  }

  lemma LeqTransitive(a: Dashboard, b: Dashboard, c: Dashboard)
    requires Leq(a, b) && Leq(b, c)
    ensures Leq(a, c)
  {
    if a.order == c.order {
      TextTransitive(Lower(a.name), Lower(b.name), Lower(c.name));
    }
  }

  /** The dashboards that tie with `d`, in their order. */
  function Ties(ds: seq<Dashboard>, d: Dashboard): seq<Dashboard> {
    if ds == [] then []
    else (if Leq(ds[0], d) && Leq(d, ds[0]) then [ds[0]] else []) + Ties(ds[1..], d)
  }

  lemma {:induction false} InsertSorted(d: Dashboard, ds: seq<Dashboard>)
    requires Sorted(ds)
    ensures Sorted(Insert(d, ds))
    ensures forall x :: x in Insert(d, ds) <==> x == d || x in ds
  {
    if ds == [] {
    } else if Leq(d, ds[0]) {
      forall j | 0 <= j < |ds|
        ensures Leq(d, ds[j])
      {
        if j > 0 {
          LeqTransitive(d, ds[0], ds[j]);
        }
      }
    } else {
      InsertSorted(d, ds[1..]);
      LeqTotal(d, ds[0]);
      var rest := Insert(d, ds[1..]);
      forall j | 0 <= j < |rest|
        ensures Leq(ds[0], rest[j])
      {
        assert rest[j] == d || rest[j] in ds[1..];
      }
      assert ds == [ds[0]] + ds[1..];
    }
  }

  lemma {:induction false} InsertTies(d: Dashboard, ds: seq<Dashboard>, e: Dashboard)
    ensures Ties(Insert(d, ds), e) == Ties([d] + ds, e)
  {
    assert ([d] + ds)[1..] == ds;
    if ds != [] && !Leq(d, ds[0]) {
      InsertTies(d, ds[1..], e);
      assert ([d] + ds[1..])[1..] == ds[1..];
      assert ([ds[0]] + Insert(d, ds[1..]))[1..] == Insert(d, ds[1..]);
      if Leq(d, e) && Leq(e, d) && Leq(ds[0], e) && Leq(e, ds[0]) {
        LeqTransitive(d, e, ds[0]);
      }
    }
  }

  /** Sorting puts the list in display order and keeps ties as they came. */
  lemma {:induction false} SortCorrect(ds: seq<Dashboard>)
    ensures Sorted(SortDashboards(ds))
    ensures forall d :: Ties(SortDashboards(ds), d) == Ties(ds, d)
    ensures forall x :: x in SortDashboards(ds) <==> x in ds
  {
    if ds != [] {
      SortCorrect(ds[1..]);
      var rest := SortDashboards(ds[1..]);
      InsertSorted(ds[0], rest);
      assert ds == [ds[0]] + ds[1..];
      forall d
        ensures Ties(SortDashboards(ds), d) == Ties(ds, d)
      {
        InsertTies(ds[0], rest, d);
        assert ([ds[0]] + rest)[1..] == rest;
      }
    }
  }

  lemma TiesHead(ds: seq<Dashboard>, d: Dashboard)
    requires ds != [] && Leq(ds[0], d) && Leq(d, ds[0])
    ensures Ties(ds, d) == [ds[0]] + Ties(ds[1..], d)
  {
  }

  lemma {:induction false} TiesMember(ds: seq<Dashboard>, d: Dashboard)
    requires Sorted(ds) && Ties(ds, d) != []
    ensures ds != [] && Leq(ds[0], d)
  {
    if !(Leq(ds[0], d) && Leq(d, ds[0])) {
      TiesMember(ds[1..], d);
      LeqTransitive(ds[0], ds[1], d);
    }
  }

  /** There is only one list in display order that keeps ties as given. */
  lemma {:induction false} StableSortUnique(a: seq<Dashboard>, b: seq<Dashboard>)
    requires Sorted(a) && Sorted(b)
    requires forall d :: Ties(a, d) == Ties(b, d)
    ensures a == b
  {
    if a == [] {
      if b != [] {
        LeqTotal(b[0], b[0]);
        TiesHead(b, b[0]);
        assert false;
      }
    } else {
      LeqTotal(a[0], a[0]);
      TiesHead(a, a[0]);
      TiesMember(b, a[0]);
      LeqTotal(b[0], b[0]);
      TiesHead(b, b[0]);
      TiesMember(a, b[0]);
      TiesHead(b, a[0]);
      assert a[0] == Ties(a, a[0])[0] == Ties(b, a[0])[0] == b[0];
      forall d
        ensures Ties(a[1..], d) == Ties(b[1..], d)
      {
        var head := if Leq(a[0], d) && Leq(d, a[0]) then [a[0]] else [];
        assert Ties(a, d) == head + Ties(a[1..], d);
        assert Ties(b, d) == head + Ties(b[1..], d);
        assert Ties(a[1..], d) == Ties(a, d)[|head|..];
        assert Ties(b[1..], d) == Ties(b, d)[|head|..];
      }
      StableSortUnique(a[1..], b[1..]);
      assert a == [a[0]] + a[1..] && b == [b[0]] + b[1..];
    }
  }

  /** A list already in display order is left as it is. */
  lemma SortedKept(ds: seq<Dashboard>)
    requires Sorted(ds)
    ensures SortDashboards(ds) == ds
  {
    SortCorrect(ds);
    StableSortUnique(SortDashboards(ds), ds);
  }
}
