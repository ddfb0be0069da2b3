/** What `Models` and `Api` make of a server's answer, in plain terms: which keys count, what
  becomes of their values, and which way the list runs. */
module Payloads {
  import opened Text
  import opened Digits
  import opened Models
  import opened Api

  // ----- keys

  predicate Has(payload: map<string, Json>, key: string) {
    key in payload && payload[key] != Null
  }

  function Get(payload: map<string, Json>, key: string): Json {
    if key in payload then payload[key] else Null
  }

  function FirstOf(payload: map<string, Json>, a: string, b: string, c: string): Json {
    if Has(payload, a) then Get(payload, a) else if Has(payload, b) then Get(payload, b) else Get(payload, c)
  }

  lemma PickHead(payload: map<string, Json>, aliases: seq<string>, rest: seq<string>)
    requires aliases != [] && rest == aliases[1..]
    ensures PickFrom(payload, aliases)
         == if Has(payload, aliases[0]) then payload[aliases[0]] else PickFrom(payload, rest)
  {
  }

  lemma PickThree(payload: map<string, Json>, a: string, b: string, c: string)
    ensures PickFrom(payload, [a, b, c]) == FirstOf(payload, a, b, c)
  {
    PickHead(payload, [a, b, c], [b, c]);
    PickHead(payload, [b, c], [c]);
    PickHead(payload, [c], []);
  }

  /** The spellings of each key, the first that is present and not null deciding. */
  lemma KeysRead(payload: map<string, Json>)
    ensures Pick(payload, IdAlias)
         == if Has(payload, "id") then payload["id"] else FirstOf(payload, "dashboardId", "dashboard_id", "uuid")
    ensures Pick(payload, NameAlias) == FirstOf(payload, "name", "title", "label")
    ensures Pick(payload, OrderAlias)
         == if Has(payload, "sortOrder") then payload["sortOrder"] else FirstOf(payload, "sort_order", "order", "position")
    ensures Pick(payload, EnabledAlias) == FirstOf(payload, "isEnabled", "is_enabled", "enabled")
    ensures Pick(payload, GroupAlias)
         == if Has(payload, "group") then payload["group"]
            else if Has(payload, "groupName") then payload["groupName"]
            else FirstOf(payload, "group_name", "category", "folder")
  {
    hide Has, FirstOf, PickFrom;
    PickHead(payload, Aliases(IdAlias), ["dashboardId", "dashboard_id", "uuid"]);
    PickThree(payload, "dashboardId", "dashboard_id", "uuid");
    PickThree(payload, "name", "title", "label");
    PickHead(payload, Aliases(OrderAlias), ["sort_order", "order", "position"]);
    PickThree(payload, "sort_order", "order", "position");
    PickThree(payload, "isEnabled", "is_enabled", "enabled");
    PickHead(payload, Aliases(GroupAlias), ["groupName", "group_name", "category", "folder"]);
    PickHead(payload, ["groupName", "group_name", "category", "folder"], ["group_name", "category", "folder"]);
    PickThree(payload, "group_name", "category", "folder");
  }

  // ----- values

  /** A whole number is shown in decimal digits, behind a minus when it is negative, and the
      other plain values as Python has them. */
  lemma ShownAs(n: nat, s: string, b: bool)
    ensures AsciiDigits(PyStr(Num(n))) && PlaceValue(PyStr(Num(n))) == n
    ensures n > 0 ==> PyStr(Num(-(n as int))) == "-" + PyStr(Num(n))
    ensures PyStr(Str(s)) == s && PyStr(Bool(b)) == (if b then "True" else "False") && PyStr(Null) == "None"
  {
    DecimalSpells(n);
  }

  /** Only false, zero, empty and null values are not taken as given. */
  lemma Given(j: Json)
    ensures Truthy(j) <==> j != Null && j != Bool(false) && j != Num(0) && j != Str("") && j != Arr([]) && j != Obj(map[])
  {
  }

  /** A dashboard is switched off only by a flag that is there and is not taken as given; the
      text "false" does not switch it off. */
  lemma SwitchedOff(payload: map<string, Json>)
    ensures !IsEnabled(payload) <==>
            var flag := FirstOf(payload, "isEnabled", "is_enabled", "enabled");
            flag == Bool(false) || flag == Num(0) || flag == Str("") || flag == Arr([]) || flag == Obj(map[])
  {
    KeysRead(payload);
    hide Pick;
    Given(FirstOf(payload, "isEnabled", "is_enabled", "enabled"));
  }

  /** What a dashboard is made of. */
  lemma Made(payload: map<string, Json>, baseUrl: string)
    requires Truthy(Pick(payload, IdAlias)) && AsOrder(Pick(payload, OrderAlias)).Some?
    ensures var d := FromPayload(payload, baseUrl);
            && d.Some? && d.value.id.text == PyStr(Pick(payload, IdAlias))
            && d.value.name == PyStr(if Truthy(Pick(payload, NameAlias)) then Pick(payload, NameAlias)
                                     else Pick(payload, IdAlias))
            && d.value.url == ViewUrl(baseUrl, d.value.id.text)
            && Some(d.value.order) == AsOrder(Pick(payload, OrderAlias))
            && (d.value.group == "" || d.value.group == PyStr(Pick(payload, GroupAlias)))
            && (Truthy(Pick(payload, GroupAlias)) ==> d.value.group == PyStr(Pick(payload, GroupAlias)))
  {
    hide Pick, AsOrder, PyStr, Truthy;
  }

  /** Its page lies under `/view/`, however many slashes the server's address ends in. */
  lemma PageAddress(server: string, slashes: string, id: string)
    requires server != "" && server[|server| - 1] != '/' && forall i :: 0 <= i < |slashes| ==> slashes[i] == '/'
    ensures ViewUrl(server + slashes, id) == server + "/view/" + id
  {
    SlashesDropped(server, slashes);
    hide RStripChar;
    assert server + "/view" + "/" + id == server + "/view/" + id;
  }

  lemma {:induction false} SlashesDropped(server: string, slashes: string)
    requires server != "" && server[|server| - 1] != '/' && forall i :: 0 <= i < |slashes| ==> slashes[i] == '/'
    ensures RStripChar(server + slashes, '/') == server
  {
    if slashes == "" {
      assert server + slashes == server;
    } else {
      var all := server + slashes;
      assert all[..|all| - 1] == server + slashes[..|slashes| - 1];
      SlashesDropped(server, slashes[..|slashes| - 1]);
    }
  }

  /** An order spelled in digits, perhaps behind one minus, is that number. */
  lemma OrderReads(sign: string, digits: string)
    requires (sign == "" || sign == "-") && digits != "" && AsciiDigits(digits) && |digits| <= 4300
    ensures AsOrder(Str(sign + digits)) == Some(if sign == "-" then 0 - PlaceValue(digits) else PlaceValue(digits))
  {
    var text := sign + digits;
    hide Strip, LStripChar, LooksDigit, DecimalDigit, DecimalValue, PlaceValue, AsciiDigits, IsSpace, SignedValue,
         AllLookDigits;
    PlainDigits(digits);
    StripSigns(sign, digits);
    OrderText(text, sign, digits);
    assert text[|text| - 1] == digits[|digits| - 1];
    StripTrimmed(text);
  }

  lemma OrderText(text: string, sign: string, digits: string)
    requires (sign == "" || sign == "-") && digits != "" && AsciiDigits(digits) && |digits| <= 4300 && text == sign + digits
    ensures SignedValue(text) == Some(if sign == "-" then 0 - PlaceValue(digits) else PlaceValue(digits))
  {
    hide DecimalDigit, DecimalValue, PlaceValue, AsciiDigits, IntDigits, AllDecimal, LooksDigit, AllLookDigits, IsSpace;
    IntPlain(digits);
    PlainDigits(digits);
    if sign == "" {
      assert text == digits;
    } else {
      assert text[1..] == digits && text[0] == '-';
    }
  }

  lemma IntPlain(digits: string)
    requires digits != "" && AsciiDigits(digits) && |digits| <= 4300
    ensures IntDigits(digits) && DecimalValue(digits) == PlaceValue(digits)
  {
    hide DecimalDigit, DecimalValue, PlaceValue, AsciiDigits, AllDecimal;
    DigitsByPlace(digits);
  }

  /** A number is itself, and a missing order or a boolean counts as zero. */
  lemma OrderPlain(n: int, b: bool)
    ensures AsOrder(Num(n)) == Some(n) && AsOrder(Null) == Some(0) && AsOrder(Bool(b)) == Some(0)
  {
  }

  lemma PlainDigits(digits: string)
    requires digits != "" && AsciiDigits(digits)
    ensures AllLookDigits(digits) && digits[0] != '-'
    ensures !IsSpace('-') && !IsSpace(digits[0]) && !IsSpace(digits[|digits| - 1])
  {
  }

  /** Any other text counts as zero. */
  lemma NoNumber(s: string)
    requires LStripChar(Strip(s), '-') == "" || !AllLookDigits(LStripChar(Strip(s), '-'))
    ensures AsOrder(Str(s)) == Some(0)
  {
    hide Strip, LStripChar, AllLookDigits;
  }

  // ----- collections

  predicate HasList(fields: map<string, Json>, key: string) {
    key in fields && fields[key].Arr?
  }

  lemma ListHead(fields: map<string, Json>, keys: seq<string>, rest: seq<string>)
    requires keys != [] && rest == keys[1..]
    ensures FirstCollection(fields, keys)
         == if HasList(fields, keys[0]) then Ok(fields[keys[0]].items) else FirstCollection(fields, rest)
  {
  }

  /** A list is taken as it is, an object by the first of five keys that holds one. */
  lemma ListFound(fields: map<string, Json>, items: seq<Json>)
    ensures UnwrapCollection(Arr(items)) == Ok(items)
    ensures UnwrapCollection(Obj(fields))
         == if HasList(fields, "allowedDashboards") then Ok(fields["allowedDashboards"].items)
            else if HasList(fields, "dashboards") then Ok(fields["dashboards"].items)
            else if HasList(fields, "data") then Ok(fields["data"].items)
            else if HasList(fields, "items") then Ok(fields["items"].items)
            else if HasList(fields, "results") then Ok(fields["results"].items)
            else Result.ApiError
  {
    hide HasList, FirstCollection;
    ListHead(fields, COLLECTION_KEYS, ["dashboards", "data", "items", "results"]);
    ListHead(fields, ["dashboards", "data", "items", "results"], ["data", "items", "results"]);
    ListHead(fields, ["data", "items", "results"], ["items", "results"]);
    ListHead(fields, ["items", "results"], ["results"]);
    ListHead(fields, ["results"], []);
    NoKeys(fields);
  }

  lemma NoKeys(fields: map<string, Json>)
    ensures FirstCollection(fields, []) == Result.ApiError
  {
  }

  /** The server's default is the text of its key, when that is there and given. */
  lemma DefaultRead(fields: map<string, Json>, items: seq<Json>)
    ensures DefaultId(Obj(fields)) == if "defaultDashboardId" in fields && Truthy(fields["defaultDashboardId"])
                                      then Some(PyStr(fields["defaultDashboardId"])) else None
    ensures DefaultId(Arr(items)) == None
  {
    hide PyStr, Truthy;
  }

  /** The keys of the stored copy, at the top and in each of its entries. */
  lemma CacheKeys(c: ClientConfig, i: nat)
    requires i < |c.dashboards|
    ensures Document(c).Obj? && Document(c).fields.Keys == {"defaultDashboardId", "allowedDashboards"}
    ensures var list := Document(c).fields["allowedDashboards"];
            && list.Arr? && |list.items| == |c.dashboards|
            && list.items[i].Obj? && list.items[i].fields.Keys == {"id", "name", "sortOrder"}
  {
  }

  // ----- which way the list runs

  /** Before, or the same: a beginning of the other text, or the smaller character where they
      first differ. */
  ghost predicate TextBefore(a: string, b: string) {
    || a <= b
    || exists p :: 0 <= p < |a| && p < |b| && a[..p] == b[..p] && a[p] < b[p]
  }

  lemma {:induction false} TextLeqIff(a: string, b: string)
    ensures TextLeq(a, b) <==> TextBefore(a, b)
  {
    if a != "" && b != "" {
      if a[0] == b[0] {
        TextLeqIff(a[1..], b[1..]);
        TextTails(a, b);
      } else {
        HeadsDiffer(a, b);
      }
    }
  }

  lemma HeadsDiffer(a: string, b: string)
    requires a != "" && b != "" && a[0] != b[0]
    ensures TextBefore(a, b) <==> a[0] < b[0]
  {
    if a[0] < b[0] {
      assert a[..0] == b[..0];
    }
    forall p | 0 < p < |a| && p < |b|
      ensures a[..p] != b[..p]
    {
      assert a[..p][0] != b[..p][0];
    }
  }

  lemma TextTails(a: string, b: string)
    requires a != "" && b != "" && a[0] == b[0]
    ensures TextBefore(a, b) <==> TextBefore(a[1..], b[1..])
  {
    assert a <= b <==> a[1..] <= b[1..] by {
      if a[1..] <= b[1..] {
        assert forall i :: 0 < i < |a| ==> a[i] == a[1..][i - 1] == b[1..][i - 1] == b[i];
      }
      if a <= b {
        assert a[1..] <= b[1..];
      }
    }
    forall p | 0 <= p < |a| && p < |b| && a[..p] == b[..p] && a[p] < b[p]
      ensures TextBefore(a[1..], b[1..])
    {
      assert p > 0 && a[1..][..p - 1] == a[..p][1..] == b[..p][1..] == b[1..][..p - 1];
      assert a[1..][p - 1] == a[p] && b[1..][p - 1] == b[p];
    }
    forall q | 0 <= q < |a[1..]| && q < |b[1..]| && a[1..][..q] == b[1..][..q] && a[1..][q] < b[1..][q]
      ensures TextBefore(a, b)
    {
      assert a[..q + 1] == [a[0]] + a[1..][..q] && b[..q + 1] == [b[0]] + b[1..][..q];
      assert a[q + 1] < b[q + 1];
    }
  }

  /** The list runs from the smallest order to the largest, and at equal orders by name in
      small letters, and it holds the same dashboards as often as before. */
  lemma DisplayOrder(ds: seq<Dashboard>)
    ensures var r := SortDashboards(ds);
            && multiset(r) == multiset(ds)
            && forall i, j :: 0 <= i < j < |r| ==>
                 && r[i].order <= r[j].order
                 && (r[i].order == r[j].order ==> TextBefore(Lower(r[i].name), Lower(r[j].name)))
  {
    SortCorrect(ds);
    SortKeepsAll(ds);
    var r := SortDashboards(ds);
    hide Lower, TextBefore, TextLeq, SortDashboards;
    forall i, j | 0 <= i < j < |r|
      ensures r[i].order <= r[j].order
      ensures r[i].order == r[j].order ==> TextBefore(Lower(r[i].name), Lower(r[j].name))
    {
      assert Leq(r[i], r[j]);
      TextLeqIff(Lower(r[i].name), Lower(r[j].name));
    }
  }

  lemma {:induction false} InsertKeepsAll(d: Dashboard, ds: seq<Dashboard>)
    ensures multiset(Insert(d, ds)) == multiset(ds) + multiset{d}
  {
    if ds != [] && !Leq(d, ds[0]) {
      InsertKeepsAll(d, ds[1..]);
      assert ds == [ds[0]] + ds[1..];
    }
  }

  lemma {:induction false} SortKeepsAll(ds: seq<Dashboard>)
    ensures multiset(SortDashboards(ds)) == multiset(ds)
  {
    if ds != [] {
      SortKeepsAll(ds[1..]);
      InsertKeepsAll(ds[0], SortDashboards(ds[1..]));
      assert ds == [ds[0]] + ds[1..];
    }
  }

  lemma UsableOne(fields: map<string, Json>, baseUrl: string)
    requires IsEnabled(fields) && FromPayload(fields, baseUrl).Some?
    ensures Usable([Obj(fields)], baseUrl) == [FromPayload(fields, baseUrl).value]
  {
    hide IsEnabled, FromPayload;
    assert [Obj(fields)][..0] == [];
  }

  lemma UsableAmong(a: seq<Json>, e: Json, b: seq<Json>, baseUrl: string)
    ensures Usable(a + [e] + b, baseUrl) == Usable(a, baseUrl) + Usable([e], baseUrl) + Usable(b, baseUrl)
    ensures Usable(a + b, baseUrl) == Usable(a, baseUrl) + Usable(b, baseUrl)
  {
    hide Usable;
    UsableConcat(a, b, baseUrl);
    UsableConcat(a + [e], b, baseUrl);
    UsableConcat(a, [e], baseUrl);
  }

  lemma ParsedHolds(entries: seq<Json>, baseUrl: string)
    ensures Parsed(Arr(entries), baseUrl).Ok?
    ensures multiset(Parsed(Arr(entries), baseUrl).value.dashboards) == multiset(Usable(entries, baseUrl))
  {
    hide Usable, SortDashboards, DefaultId;
    SortKeepsAll(Usable(entries, baseUrl));
  }

  /** One entry that is switched on, has an id and an order that is no odd number adds its own
      dashboard to the list, wherever it stands and whatever the others are. */
  lemma Listed(a: seq<Json>, fields: map<string, Json>, b: seq<Json>, baseUrl: string)
    requires IsEnabled(fields) && Truthy(Pick(fields, IdAlias)) && AsOrder(Pick(fields, OrderAlias)).Some?
    ensures FromPayload(fields, baseUrl).Some?
    ensures Parsed(Arr(a + [Obj(fields)] + b), baseUrl).Ok? && Parsed(Arr(a + b), baseUrl).Ok?
    ensures multiset(Parsed(Arr(a + [Obj(fields)] + b), baseUrl).value.dashboards)
         == multiset(Parsed(Arr(a + b), baseUrl).value.dashboards) + multiset{FromPayload(fields, baseUrl).value}
  {
    Made(fields, baseUrl);
    hide Pick, IsEnabled, Truthy, AsOrder, FromPayload, Usable, Parsed;
    UsableOne(fields, baseUrl);
    UsableAmong(a, Obj(fields), b, baseUrl);
    ParsedHolds(a + b, baseUrl);
    ParsedHolds(a + [Obj(fields)] + b, baseUrl);
  }
}
