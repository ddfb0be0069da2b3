/** What the client makes of the server's answers, and the copy it keeps on disk. */
module Api {
  import opened Text
  import opened Models

  datatype Result<T> = Ok(value: T) | ApiError

  datatype ClientConfig = ClientConfig(dashboards: seq<Dashboard>, defaultId: Option<string>)

  const COLLECTION_KEYS: seq<string> := ["allowedDashboards", "dashboards", "data", "items", "results"]

  function FirstCollection(fields: map<string, Json>, keys: seq<string>): Result<seq<Json>> {
    if keys == [] then ApiError
    else if keys[0] in fields && fields[keys[0]].Arr? then Ok(fields[keys[0]].items)
    else FirstCollection(fields, keys[1..])
  }

  function UnwrapCollection(payload: Json): Result<seq<Json>> {
    match payload
    case Arr(items) => Ok(items)
    case Obj(fields) => FirstCollection(fields, COLLECTION_KEYS)
    case _ => ApiError
  }

  /** The dashboards of the usable entries, in the order the server sent them. */
  function Usable(entries: seq<Json>, baseUrl: string): seq<Dashboard> {
    if entries == [] then []
    else
      var front := Usable(entries[..|entries| - 1], baseUrl);
      match entries[|entries| - 1]
      case Obj(fields) =>
        (match FromPayload(fields, baseUrl)
         case Some(d) => if IsEnabled(fields) then front + [d] else front
         case None => front)
      case _ => front
  }

  function DefaultId(payload: Json): Option<string> {
    if payload.Obj? && "defaultDashboardId" in payload.fields && Truthy(payload.fields["defaultDashboardId"]) then
      Some(PyStr(payload.fields["defaultDashboardId"]))
    else None
  }

  /** Display order over exactly the usable entries: the meaning of a parse. */
  function Parsed(payload: Json, baseUrl: string): Result<ClientConfig> {
    match UnwrapCollection(payload)
    case ApiError => ApiError
    case Ok(entries) => Ok(ClientConfig(SortDashboards(Usable(entries, baseUrl)), DefaultId(payload)))
  }

  method ParseClientConfig(payload: Json, baseUrl: string) returns (r: Result<ClientConfig>)
    ensures r == Parsed(payload, baseUrl)
  {
    hide FromPayload, IsEnabled, SortDashboards, DefaultId;
    var collection := UnwrapCollection(payload);
    if collection.ApiError? {
      return ApiError;
    }
    var entries := collection.value;
    var dashboards: seq<Dashboard> := [];
    for n := 0 to |entries|
      invariant dashboards == Usable(entries[..n], baseUrl)
    {
      assert entries[..n + 1][..n] == entries[..n];
      if !entries[n].Obj? {
        continue;
      }
      if !IsEnabled(entries[n].fields) {
        continue;
      }
      var d := FromPayload(entries[n].fields, baseUrl);
      if d.Some? {
        dashboards := dashboards + [d.value];
      }
    }
    assert entries[..|entries|] == entries;
    r := Ok(ClientConfig(SortDashboards(dashboards), DefaultId(payload)));
  }

  /** A list is read entry by entry: what one entry holds never affects another. */
  lemma {:induction false} UsableConcat(a: seq<Json>, b: seq<Json>, baseUrl: string)
    ensures Usable(a + b, baseUrl) == Usable(a, baseUrl) + Usable(b, baseUrl)
  {
    hide FromPayload, IsEnabled;
    if b == [] {
      assert a + b == a;
    } else {
      var n := |b| - 1;
      assert (a + b)[..|a + b| - 1] == a + b[..n];
      UsableConcat(a, b[..n], baseUrl);
    }
  }

  /** One entry that is no object, has no id or is switched off loses nothing else. */
  lemma BadEntryIgnored(a: seq<Json>, bad: Json, b: seq<Json>, baseUrl: string)
    requires bad.Obj? ==> !IsEnabled(bad.fields) || !Truthy(Pick(bad.fields, IdAlias))
    ensures Parsed(Arr(a + [bad] + b), baseUrl) == Parsed(Arr(a + b), baseUrl)
  {
    hide Pick, IsEnabled;
    assert Usable([bad], baseUrl) == [] by {
      assert [bad][..0] == [];
    }
    UsableConcat(a, b, baseUrl);
    UsableConcat(a + [bad], b, baseUrl);
    UsableConcat(a, [bad], baseUrl);
  }

  // ----- registration replies

  datatype Registration = Registration(status: string, token: string) {
    predicate Approved() { status == "approved" }
  }

  function ReadRegistration(body: Json): Result<Registration> {
    match body
    case Obj(fields) =>
      var status := if "status" in fields && Truthy(fields["status"]) then PyStr(fields["status"]) else "";
      var token := if "token" in fields && fields["token"].Str? then fields["token"].s else "";
      Ok(Registration(status, token))
    case _ => ApiError
  }

  /** A reply hands over a token exactly when its status is the text "approved" and its
      token a text that is not empty; everything else an object can hold reads as no token. */
  lemma DeliveryIff(fields: map<string, Json>)
    ensures var r := ReadRegistration(Obj(fields)).value;
            r.Approved() && r.token != "" <==>
              && "status" in fields && fields["status"] == Str("approved")
              && "token" in fields && fields["token"].Str? && fields["token"].s != ""
  {
    if "status" in fields && Truthy(fields["status"]) && !fields["status"].Str? {
      var text := PyStr(fields["status"]);
      assert text[|text| - 1] != 'd';
    }
  }

  // ----- the cache

  function Entry(d: Dashboard): Json {
    Obj(map["id" := Str(d.id.text), "name" := Str(d.name), "sortOrder" := Num(d.order)])
  }

  function Document(c: ClientConfig): Json {
    Obj(map["defaultDashboardId" := if c.defaultId.Some? then Str(c.defaultId.value) else Null,
            "allowedDashboards" := Arr(seq(|c.dashboards|, i requires 0 <= i < |c.dashboards| => Entry(c.dashboards[i])))])
  }

  /** The cache on disk: missing, not JSON, not even UTF-8, or a document. */
  datatype CacheFile = Absent | Corrupt | Garbled | Holding(document: Json)

  const NOTHING := ClientConfig([], None)

  /** What a cache that can be read at all gives back. */
  function Recall(file: CacheFile, baseUrl: string): ClientConfig {
    match file
    case Holding(document) =>
      (match Parsed(document, baseUrl)
       case Ok(c) => c
       case ApiError => NOTHING)
    case _ => NOTHING
  }

  class ConfigCache {
    var file: CacheFile

    constructor (file: CacheFile)
      ensures this.file == file
    {
      this.file := file;
    }

    /** The file is replaced whole, never half written. */
    method Save(c: ClientConfig)
      modifies this
      ensures file == Holding(Document(c))
    {
      var entries := [];
      for n := 0 to |c.dashboards|
        invariant |entries| == n && forall i :: 0 <= i < n ==> entries[i] == Entry(c.dashboards[i])
        invariant unchanged(this)
      {
        entries := entries + [Entry(c.dashboards[n])];
      }
      assert entries == Document(c).fields["allowedDashboards"].items;
      file := Holding(Obj(map["defaultDashboardId" := if c.defaultId.Some? then Str(c.defaultId.value) else Null,
                              "allowedDashboards" := Arr(entries)]));
    }

    /** None stands for the UnicodeDecodeError of a file that is not UTF-8, which nothing
        catches. */
    method Load(baseUrl: string) returns (c: Option<ClientConfig>)
      ensures c == if file.Garbled? then None else Some(Recall(file, baseUrl))
    {
      if file.Garbled? {
        return None;
      }
      if !file.Holding? {
        return Some(NOTHING);
      }
      var parsed := ParseClientConfig(file.document, baseUrl);
      if parsed.ApiError? {
        return Some(NOTHING);
      }
      return Some(parsed.value);
    }
  }

  // ----- the round trip

  function Ungrouped(ds: seq<Dashboard>): (r: seq<Dashboard>)
    ensures |r| == |ds| && forall i :: 0 <= i < |ds| ==> r[i] == ds[i].(group := "")
  {
    seq(|ds|, i requires 0 <= i < |ds| => ds[i].(group := ""))
  }

  /** What every parsed dashboard satisfies. */
  predicate Servable(d: Dashboard, baseUrl: string) {
    d.id.text != "" && d.name != "" && d.url == ViewUrl(baseUrl, d.id.text)
  }

  lemma {:induction false} UsableServable(entries: seq<Json>, baseUrl: string)
    ensures forall d :: d in Usable(entries, baseUrl) ==> Servable(d, baseUrl)
  {
    if entries != [] {
      UsableServable(entries[..|entries| - 1], baseUrl);
    }
  }

  lemma EntryKeys(d: Dashboard)
    ensures var f := Entry(d).fields;
            && Pick(f, IdAlias) == Str(d.id.text) && Pick(f, NameAlias) == Str(d.name)
            && Pick(f, OrderAlias) == Num(d.order) && Pick(f, EnabledAlias) == Null && Pick(f, GroupAlias) == Null
  {
    var f := Entry(d).fields;
    assert Aliases(IdAlias)[0] == "id" && Aliases(NameAlias)[0] == "name" && Aliases(OrderAlias)[0] == "sortOrder";
    AbsentAliases(f, Aliases(EnabledAlias));
    AbsentAliases(f, Aliases(GroupAlias));
  }

  lemma {:induction false} AbsentAliases(f: map<string, Json>, aliases: seq<string>)
    requires forall i :: 0 <= i < |aliases| ==> aliases[i] !in f
    ensures PickFrom(f, aliases) == Null
  {
    if aliases != [] {
      AbsentAliases(f, aliases[1..]);
    }
  }

  lemma EntryBack(d: Dashboard, baseUrl: string)
    requires Servable(d, baseUrl)
    ensures Entry(d).Obj?
    ensures FromPayload(Entry(d).fields, baseUrl) == Some(d.(group := "")) && IsEnabled(Entry(d).fields)
  {
    EntryKeys(d);
  }

  lemma UsableSnoc(entries: seq<Json>, d: Dashboard, baseUrl: string)
    requires Servable(d, baseUrl)
    ensures Usable(entries + [Entry(d)], baseUrl) == Usable(entries, baseUrl) + [d.(group := "")]
  {
    EntryBack(d, baseUrl);
    hide FromPayload, IsEnabled, Servable, Entry;
    assert (entries + [Entry(d)])[..|entries|] == entries;
  }

  lemma UngroupedSnoc(ds: seq<Dashboard>, d: Dashboard)
    ensures Ungrouped(ds + [d]) == Ungrouped(ds) + [d.(group := "")]
  {
  }

  lemma {:induction false} EntriesBack(ds: seq<Dashboard>, entries: seq<Json>, baseUrl: string)
    requires |entries| == |ds| && forall i :: 0 <= i < |ds| ==> entries[i] == Entry(ds[i])
    requires forall i :: 0 <= i < |ds| ==> Servable(ds[i], baseUrl)
    ensures Usable(entries, baseUrl) == Ungrouped(ds)
  {
    if ds != [] {
      hide Usable, Ungrouped, Servable, Entry;
      var n := |ds| - 1;
      EntriesBack(ds[..n], entries[..n], baseUrl);
      UsableSnoc(entries[..n], ds[n], baseUrl);
      UngroupedSnoc(ds[..n], ds[n]);
      Snoc(entries);
      Snoc(ds);
    }
  }

  lemma Snoc<T>(s: seq<T>)
    requires s != []
    ensures s[..|s| - 1] + [s[|s| - 1]] == s
  {
  }

  lemma UngroupedSorted(ds: seq<Dashboard>)
    requires Sorted(ds)
    ensures Sorted(Ungrouped(ds))
  {
  }

  lemma DocumentParts(c: ClientConfig)
    ensures UnwrapCollection(Document(c)) == Ok(Document(c).fields["allowedDashboards"].items)
    ensures DefaultId(Document(c)) == if c.defaultId == Some("") then None else c.defaultId
  {
    assert COLLECTION_KEYS[0] == "allowedDashboards";
  }

  /** What was parsed and saved is recalled: the same dashboards in the same order, less
      only their grouping, and the same default. */
  lemma CacheRoundTrip(payload: Json, baseUrl: string, c: ClientConfig)
    requires Parsed(payload, baseUrl) == Ok(c)
    ensures Recall(Holding(Document(c)), baseUrl) == c.(dashboards := Ungrouped(c.dashboards))
  {
    var usable := Usable(UnwrapCollection(payload).value, baseUrl);
    UsableServable(UnwrapCollection(payload).value, baseUrl);
    SortCorrect(usable);
    var entries := Document(c).fields["allowedDashboards"].items;
    assert forall i :: 0 <= i < |c.dashboards| ==> c.dashboards[i] in usable;
    EntriesBack(c.dashboards, entries, baseUrl);
    UngroupedSorted(c.dashboards);
    SortedKept(Ungrouped(c.dashboards));
    DocumentParts(c);
  }

  /** Saving what was recalled changes nothing further. */
  lemma CacheSettles(payload: Json, baseUrl: string, c: ClientConfig)
    requires Parsed(payload, baseUrl) == Ok(c)
    ensures var once := Recall(Holding(Document(c)), baseUrl);
            Recall(Holding(Document(once)), baseUrl) == once
  {
    CacheRoundTrip(payload, baseUrl, c);
    var once := Recall(Holding(Document(c)), baseUrl);
    DocumentParts(c);
    assert Parsed(Document(c), baseUrl) == Ok(once);
    CacheRoundTrip(Document(c), baseUrl, once);
    assert Ungrouped(Ungrouped(c.dashboards)) == Ungrouped(c.dashboards);
  }
}
