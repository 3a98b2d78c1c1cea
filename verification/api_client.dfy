/** The front end's HTTP client: which statuses resolve, the retry schedule
    after a connection error, the vulnerabilities cache, the feed query, the
    normalisation of a CVE record, the dispatch on the feed's reply shape,
    the collector filter and the report-item-types unwrapping.

    Every reply is a parameter: its status and its parsed body (`Json`). */
module ApiClient {
  import opened Wrappers
  import opened Text
  import opened JsonData
  import opened Lists
  import opened Upstream
  import ContentRoutes

  // ---------------------------------------------------------------------
  // Settling a reply
  // ---------------------------------------------------------------------

  /** `validateStatus`: the statuses axios resolves instead of rejecting. */
  predicate AcceptedStatus(status: int) {
    200 <= status < 500
  }

  datatype Settled = Resolved(data: Json) | Rejected(message: string)

  /** A reply that arrived, after the response interceptor: an accepted
      status resolves with the body, any other is rethrown as
      `Erreur API <status>: <message>` with the body's `message` or
      `Erreur inconnue`. */
  function Settle(status: int, data: Json): (s: Settled)
    ensures s.Resolved? <==> AcceptedStatus(status)
    ensures s.Resolved? ==> s.data == data
    ensures s.Rejected? ==> s.message == RejectionText(status, data)
  {
    if AcceptedStatus(status) then Resolved(data) else Rejected(RejectionText(status, data))
  }

  /** The text of a rejected reply: the body's `message` when it is truthy,
      `Erreur inconnue` otherwise, after the status. */
  function RejectionText(status: int, data: Json): (m: string)
    ensures JsTruthyOpt(Field(data, "message")) ==>
              m == "Erreur API " + IntToString(status) + ": " + JsString(data.fields["message"])
    ensures !JsTruthyOpt(Field(data, "message")) ==>
              m == "Erreur API " + IntToString(status) + ": " + UnknownError
  {
    "Erreur API " + IntToString(status) + ": " +
      (if JsTruthyOpt(Field(data, "message")) then JsString(data.fields["message"]) else UnknownError)
  }

  const UnknownError := "Erreur inconnue"

  /** Client errors are handed to the caller as data, never thrown: a 404
      resolves, a 500 rejects. */
  lemma ClientErrorsResolve(data: Json)
    ensures Settle(404, data) == Resolved(data)
    ensures Settle(500, data).Rejected? && Settle(199, data).Rejected?
  {
  }

  // ---------------------------------------------------------------------
  // Retry after a connection error
  // ---------------------------------------------------------------------

  function Pow2(n: nat): (p: nat)
    ensures p >= 1
  {
    if n == 0 then 1 else 2 * Pow2(n - 1)
  }

  /** `Math.min(1000 * Math.pow(2, retryCount), 10000)`, in milliseconds. */
  function RetryDelay(retryCount: nat): (d: nat)
    ensures 1000 <= d <= 10000
    ensures d == 10000 || d == 1000 * Pow2(retryCount)
  {
    if 1000 * Pow2(retryCount) < 10000 then 1000 * Pow2(retryCount) else 10000
  }

  /** The delay doubles from one second and stops growing at ten. */
  lemma {:induction false} RetryDelaySchedule(a: nat, b: nat)
    ensures RetryDelay(0) == 1000 && RetryDelay(1) == 2000 && RetryDelay(2) == 4000 && RetryDelay(3) == 8000
    ensures b >= 4 ==> RetryDelay(b) == 10000
    ensures a <= b ==> RetryDelay(a) <= RetryDelay(b)
  {
    if b >= 4 {
      Pow2Monotone(4, b);
    }
    if a <= b {
      Pow2Monotone(a, b);
    }
  }

  lemma {:induction false} Pow2Monotone(a: nat, b: nat)
    requires a <= b
    ensures Pow2(a) <= Pow2(b)
    decreases b
  {
    if a < b {
      Pow2Monotone(a, b - 1);
    }
  }

  datatype RetryStep = Rethrow | WaitThenRetry(delay: nat)

  /** `retryRequest`: rethrow once the retries are used up, otherwise wait
      and send the same request again. */
  function RetryRequest(retryCount: nat, maxRetries: nat): (s: RetryStep)
    ensures s.Rethrow? <==> retryCount >= maxRetries
    ensures s.WaitThenRetry? ==> s.delay == RetryDelay(retryCount) && s.delay <= 10000
  {
    if retryCount >= maxRetries then Rethrow else WaitThenRetry(RetryDelay(retryCount))
  }

  /** `handleApiError` calls the retry with its defaults (no retry made yet,
      three allowed), so a connection error is retried once, after one
      second; the repeated request goes through plain axios, without this
      handler. */
  lemma ConnectionErrorRetriesOnce()
    ensures RetryRequest(0, 3) == WaitThenRetry(1000)
  {
  }

  // ---------------------------------------------------------------------
  // Normalising a CVE record
  // ---------------------------------------------------------------------

  /** A normalised record: the members defaulted with `||` (see
      `DefaultedNames`), the two upper-cased texts and the four flags. */
  datatype Cve = Cve(values: map<string, Json>, severity: string, status: string,
                     isKev: bool, hasPoc: bool, hasTemplate: bool, reportedOnHackerone: bool)

  /** The members `normalizeVulnerability` takes with `cve.x || default`,
      in the order it lists them. */
  const DefaultedNames: seq<string> :=
    ["cve_id", "title", "description", "cvss_score", "epss_score", "epss_percentile", "published_date",
     "vendor", "product", "taranis_link", "affected_systems", "source", "tags", "family", "country",
     "region", "risk_score", "taranis_collected_date", "last_updated_at"]

  /** The default of a defaulted member; `now` is
      `new Date().toISOString()`. */
  function Default(name: string, now: string): Json {
    if name in ["cve_id", "title", "description", "taranis_link", "tags"] then JStr("")
    else if name in ["cvss_score", "epss_score", "epss_percentile", "affected_systems", "risk_score"] then JInt(0)
    else if name in ["published_date", "taranis_collected_date", "last_updated_at"] then JStr(now)
    else if name == "source" then JStr("NVD")
    else JStr("Unknown")
  }

  /** The names of the other members of a normalised record. */
  const OtherNames: seq<string> :=
    ["severity", "status", "is_kev", "has_poc", "has_template", "reported_on_hackerone"]

  /** `v?.toUpperCase() || d`: `undefined`, `null` and `""` give `d`, a
      string is upper-cased, anything else throws (`None`). */
  function UpperOr(v: Option<Json>, d: string): (r: Option<string>)
    requires d != ""
    ensures v.None? || v.value.JNull? ==> r == Some(d)
    ensures v.Some? && v.value.JStr? ==> r == Some(if v.value.s == "" then d else Upper(v.value.s))
    ensures r.None? <==> v.Some? && !v.value.JNull? && !v.value.JStr?
    ensures r.Some? ==> r.value != ""
  {
    match v
    case None => Some(d)
    case Some(JNull) => Some(d)
    case Some(JStr(s)) => Some(if s == "" then d else Upper(s))
    case Some(_) => None
  }

  /** The defaulted members of `cve`. */
  function Defaulted(cve: Json, now: string): (m: map<string, Json>)
    ensures forall k :: k in m <==> k in DefaultedNames
    ensures forall k :: k in m ==> m[k] == JsOr(Field(cve, k), Default(k, now))
  {
    map k | k in DefaultedNames :: JsOr(Field(cve, k), Default(k, now))
  }

  /** The records `normalizeVulnerability` reads without throwing: not
      `null`, and a severity and a status that are absent, `null` or text. */
  predicate Normalizable(cve: Json)
  {
    !cve.JNull? && UpperOr(Field(cve, "severity"), "UNKNOWN").Some? &&
    UpperOr(Field(cve, "status"), "OPEN").Some?
  }

  /** `normalizeVulnerability`; `now` is `new Date().toISOString()`. Reading
      a member of `null` throws; any other value has no members and gets the
      defaults. */
  function NormalizeCve(cve: Json, now: string): (r: Option<Cve>)
    ensures r.Some? <==> Normalizable(cve)
    ensures r.Some? ==>
              r.value.severity == UpperOr(Field(cve, "severity"), "UNKNOWN").value &&
              r.value.status == UpperOr(Field(cve, "status"), "OPEN").value &&
              r.value.isKev == JsTruthyOpt(Field(cve, "is_kev")) &&
              r.value.hasPoc == JsTruthyOpt(Field(cve, "has_poc")) &&
              r.value.hasTemplate == JsTruthyOpt(Field(cve, "has_template")) &&
              r.value.reportedOnHackerone == JsTruthyOpt(Field(cve, "reported_on_hackerone"))
    ensures r.Some? ==>
              (forall k :: k in r.value.values <==> k in DefaultedNames) &&
              (forall k :: k in DefaultedNames && JsTruthyOpt(Field(cve, k)) ==> r.value.values[k] == cve.fields[k]) &&
              (forall k :: k in DefaultedNames && !JsTruthyOpt(Field(cve, k)) ==> r.value.values[k] == Default(k, now))
  {
    if cve.JNull? then None
    else match (UpperOr(Field(cve, "severity"), "UNKNOWN"), UpperOr(Field(cve, "status"), "OPEN"))
      case (Some(severity), Some(status)) =>
        Some(Cve(Defaulted(cve, now), severity, status,
                 JsBoolean(Field(cve, "is_kev")), JsBoolean(Field(cve, "has_poc")),
                 JsBoolean(Field(cve, "has_template")), JsBoolean(Field(cve, "reported_on_hackerone"))))
      case _ => None
  }

  /** An empty record gets every default: `UNKNOWN`, `OPEN`, no flag set,
      `Unknown` vendor and product, source `NVD`, score 0 and the current
      time as its dates. */
  lemma EmptyRecordDefaults(now: string)
    ensures NormalizeCve(JObj(map[]), now).Some?
    ensures var c := NormalizeCve(JObj(map[]), now).value;
            c.severity == "UNKNOWN" && c.status == "OPEN" &&
            !c.isKev && !c.hasPoc && !c.hasTemplate && !c.reportedOnHackerone &&
            "vendor" in c.values && c.values["vendor"] == JStr("Unknown") &&
            "product" in c.values && c.values["product"] == JStr("Unknown") &&
            "source" in c.values && c.values["source"] == JStr("NVD") &&
            "cvss_score" in c.values && c.values["cvss_score"] == JInt(0) &&
            "published_date" in c.values && c.values["published_date"] == JStr(now) &&
            "last_updated_at" in c.values && c.values["last_updated_at"] == JStr(now)
  {
    var e := JObj(map[]);
    assert UpperOr(Field(e, "severity"), "UNKNOWN") == Some("UNKNOWN");
    assert UpperOr(Field(e, "status"), "OPEN") == Some("OPEN");
    var c := NormalizeCve(e, now).value;
    assert c.values == Defaulted(e, now);
    assert c.severity == "UNKNOWN" && c.status == "OPEN";
    assert !c.isKev && !c.hasPoc && !c.hasTemplate && !c.reportedOnHackerone;
    EmptyDefaulted(now);
  }

  /** The defaulted members of an empty record. */
  lemma EmptyDefaulted(now: string)
    ensures var m := Defaulted(JObj(map[]), now);
            "vendor" in m && m["vendor"] == JStr("Unknown") && "product" in m && m["product"] == JStr("Unknown") &&
            "source" in m && m["source"] == JStr("NVD") && "cvss_score" in m && m["cvss_score"] == JInt(0) &&
            "published_date" in m && m["published_date"] == JStr(now) &&
            "last_updated_at" in m && m["last_updated_at"] == JStr(now)
  {
    var e := JObj(map[]);
    assert DefaultedNames[7] == "vendor" && DefaultedNames[8] == "product" && DefaultedNames[11] == "source";
    assert DefaultedNames[3] == "cvss_score" && DefaultedNames[6] == "published_date";
    assert DefaultedNames[18] == "last_updated_at";
    SomeDefaults(now);
  }

  lemma SomeDefaults(now: string)
    ensures Default("vendor", now) == JStr("Unknown") && Default("product", now) == JStr("Unknown")
    ensures Default("source", now) == JStr("NVD") && Default("cvss_score", now) == JInt(0)
    ensures Default("published_date", now) == JStr(now) && Default("last_updated_at", now) == JStr(now)
  {
    VendorDefaults(now);
    SourceAndScoreDefaults(now);
    DateDefaults(now);
  }

  lemma VendorDefaults(now: string)
    ensures Default("vendor", now) == JStr("Unknown") && Default("product", now) == JStr("Unknown")
  {
  }

  lemma SourceAndScoreDefaults(now: string)
    ensures Default("source", now) == JStr("NVD") && Default("cvss_score", now) == JInt(0)
  {
  }

  lemma DateDefaults(now: string)
    ensures Default("published_date", now) == JStr(now) && Default("last_updated_at", now) == JStr(now)
  {
  }

  /** A normalised record as JSON, with the member names of the feed. */
  function Render(c: Cve): (j: Json)
    ensures j.JObj?
  {
    JObj(map["severity" := JStr(c.severity), "status" := JStr(c.status),
             "is_kev" := JBool(c.isKev), "has_poc" := JBool(c.hasPoc),
             "has_template" := JBool(c.hasTemplate), "reported_on_hackerone" := JBool(c.reportedOnHackerone)]
         + c.values)
  }

  lemma UpperOrIdempotent(v: Option<Json>, d: string)
    requires d != "" && Upper(d) == d && UpperOr(v, d).Some?
    ensures UpperOr(Some(JStr(UpperOr(v, d).value)), d) == UpperOr(v, d)
  {
    if v.Some? && v.value.JStr? && v.value.s != "" {
      UpperIdempotent(v.value.s);
    }
  }

  /** Rendering keeps each member where the feed expects it. */
  lemma RenderFields(c: Cve)
    requires forall k :: k in c.values ==> k in DefaultedNames
    ensures var j := Render(c);
            (forall k :: k in c.values ==> Field(j, k) == Some(c.values[k])) &&
            Field(j, "severity") == Some(JStr(c.severity)) && Field(j, "status") == Some(JStr(c.status)) &&
            Field(j, "is_kev") == Some(JBool(c.isKev)) && Field(j, "has_poc") == Some(JBool(c.hasPoc)) &&
            Field(j, "has_template") == Some(JBool(c.hasTemplate)) &&
            Field(j, "reported_on_hackerone") == Some(JBool(c.reportedOnHackerone))
  {
    RenderValueFields(c);
    RenderOtherFields(c);
  }

  lemma RenderValueFields(c: Cve)
    ensures forall k :: k in c.values ==> Field(Render(c), k) == Some(c.values[k])
  {
  }

  lemma RenderOtherFields(c: Cve)
    requires forall k :: k in c.values ==> k in DefaultedNames
    ensures var j := Render(c);
            Field(j, "severity") == Some(JStr(c.severity)) && Field(j, "status") == Some(JStr(c.status)) &&
            Field(j, "is_kev") == Some(JBool(c.isKev)) && Field(j, "has_poc") == Some(JBool(c.hasPoc)) &&
            Field(j, "has_template") == Some(JBool(c.hasTemplate)) &&
            Field(j, "reported_on_hackerone") == Some(JBool(c.reportedOnHackerone))
  {
    RenderTextFields(c);
    RenderFlagFields(c);
  }

  lemma RenderTextFields(c: Cve)
    requires forall k :: k in c.values ==> k in DefaultedNames
    ensures Field(Render(c), "severity") == Some(JStr(c.severity))
    ensures Field(Render(c), "status") == Some(JStr(c.status))
  {
    NamesDisjoint();
  }

  lemma RenderFlagFields(c: Cve)
    requires forall k :: k in c.values ==> k in DefaultedNames
    ensures Field(Render(c), "is_kev") == Some(JBool(c.isKev)) && Field(Render(c), "has_poc") == Some(JBool(c.hasPoc))
    ensures Field(Render(c), "has_template") == Some(JBool(c.hasTemplate))
    ensures Field(Render(c), "reported_on_hackerone") == Some(JBool(c.reportedOnHackerone))
  {
    NamesDisjoint();
  }

  /** No defaulted member shares its name with another member. */
  lemma NamesDisjoint()
    ensures forall k :: k in OtherNames ==> k !in DefaultedNames
  {
  }

  /** A record whose texts are already upper-cased and whose defaulted
      members are truthy or already their default comes back unchanged from
      a second normalisation. */
  lemma RenderNormalizes(c: Cve, now: string)
    requires UpperOr(Some(JStr(c.severity)), "UNKNOWN") == Some(c.severity)
    requires UpperOr(Some(JStr(c.status)), "OPEN") == Some(c.status)
    requires forall k :: k in c.values <==> k in DefaultedNames
    requires forall k :: k in c.values ==> JsOr(Some(c.values[k]), Default(k, now)) == c.values[k]
    ensures NormalizeCve(Render(c), now) == Some(c)
  {
    RenderKeepsTexts(c);
    RenderKeepsValues(c, now);
  }

  /** The texts and flags of a rendered record read back as they were. */
  lemma RenderKeepsTexts(c: Cve)
    requires UpperOr(Some(JStr(c.severity)), "UNKNOWN") == Some(c.severity)
    requires UpperOr(Some(JStr(c.status)), "OPEN") == Some(c.status)
    requires forall k :: k in c.values ==> k in DefaultedNames
    ensures var j := Render(c);
            UpperOr(Field(j, "severity"), "UNKNOWN") == Some(c.severity) &&
            UpperOr(Field(j, "status"), "OPEN") == Some(c.status) &&
            JsBoolean(Field(j, "is_kev")) == c.isKev && JsBoolean(Field(j, "has_poc")) == c.hasPoc &&
            JsBoolean(Field(j, "has_template")) == c.hasTemplate &&
            JsBoolean(Field(j, "reported_on_hackerone")) == c.reportedOnHackerone
  {
    RenderOtherFields(c);
  }

  /** The defaulted members of a rendered record are defaulted to
      themselves. */
  lemma RenderKeepsValues(c: Cve, now: string)
    requires forall k :: k in c.values <==> k in DefaultedNames
    requires forall k :: k in c.values ==> JsOr(Some(c.values[k]), Default(k, now)) == c.values[k]
    ensures Defaulted(Render(c), now) == c.values
  {
    RenderValueFields(c);
  }

  /** Normalisation is idempotent: a normalised record passes through a
      second normalisation unchanged, so re-reading cached data is safe. */
  lemma NormalizeIsIdempotent(cve: Json, now: string)
    requires Normalizable(cve)
    ensures NormalizeCve(Render(NormalizeCve(cve, now).value), now) == NormalizeCve(cve, now)
  {
    var c := NormalizeCve(cve, now).value;
    NormalizedTextsStable(cve, now);
    NormalizedValuesStable(cve, now);
    RenderNormalizes(c, now);
  }

  lemma NormalizedTextsStable(cve: Json, now: string)
    requires Normalizable(cve)
    ensures var c := NormalizeCve(cve, now).value;
            UpperOr(Some(JStr(c.severity)), "UNKNOWN") == Some(c.severity) &&
            UpperOr(Some(JStr(c.status)), "OPEN") == Some(c.status)
  {
    DefaultTextsUpper();
    var sev := UpperOr(Field(cve, "severity"), "UNKNOWN");
    var st := UpperOr(Field(cve, "status"), "OPEN");
    assert NormalizeCve(cve, now).value.severity == sev.value;
    assert NormalizeCve(cve, now).value.status == st.value;
    UpperOrIdempotent(Field(cve, "severity"), "UNKNOWN");
    UpperOrIdempotent(Field(cve, "status"), "OPEN");
  }

  lemma DefaultTextsUpper()
    ensures Upper("UNKNOWN") == "UNKNOWN" && Upper("OPEN") == "OPEN"
  {
  }

  lemma NormalizedValuesStable(cve: Json, now: string)
    requires Normalizable(cve)
    ensures var c := NormalizeCve(cve, now).value;
            (forall k :: k in c.values <==> k in DefaultedNames) &&
            (forall k :: k in c.values ==> JsOr(Some(c.values[k]), Default(k, now)) == c.values[k])
  {
    var m := Defaulted(cve, now);
    assert NormalizeCve(cve, now).value.values == m;
    forall k | k in m ensures JsOr(Some(m[k]), Default(k, now)) == m[k] {
      JsOrIdempotent(Field(cve, k), Default(k, now));
    }
  }

  lemma JsOrIdempotent(a: Option<Json>, d: Json)
    ensures JsOr(Some(JsOr(a, d)), d) == JsOr(a, d)
  {
  }

  // ---------------------------------------------------------------------
  // Dispatch on the feed's reply shape
  // ---------------------------------------------------------------------

  datatype Page = Page(items: seq<Cve>, totalCount: Json)

  /** `xs.map(normalizeVulnerability)`: throws when one element does. */
  function NormalizeAll(xs: seq<Json>, now: string): (r: Option<seq<Cve>>)
    ensures r.Some? <==> forall i :: 0 <= i < |xs| ==> Normalizable(xs[i])
    ensures r.Some? ==> |r.value| == |xs| && forall i :: 0 <= i < |xs| ==> r.value[i] == NormalizeCve(xs[i], now).value
  {
    Traverse(xs, x => NormalizeCve(x, now))
  }

  /** `xs.map(f)` where `f` may throw: the results in order, or `None` when
      one application throws. */
  function Traverse<T, U>(xs: seq<T>, f: T -> Option<U>): (r: Option<seq<U>>)
    ensures r.Some? <==> forall i :: 0 <= i < |xs| ==> f(xs[i]).Some?
    ensures r.Some? ==> |r.value| == |xs| && forall i :: 0 <= i < |xs| ==> r.value[i] == f(xs[i]).value
    decreases |xs|
  {
    if |xs| == 0 then Some([])
    else
      var head := f(xs[0]);
      var tail := Traverse(xs[1..], f);
      assert forall i :: 1 <= i < |xs| ==> xs[i] == xs[1..][i - 1];
      if head.None? || tail.None? then None else Some([head.value] + tail.value)
  }


  /** A JSON array `all_cves` member. */
  predicate HasAllCves(data: Json) {
    data.JObj? && "all_cves" in data.fields && data.fields["all_cves"].JArr?
  }

  /** A JSON array `items` member. */
  predicate HasItems(data: Json) {
    data.JObj? && "items" in data.fields && data.fields["items"].JArr?
  }

  /** The page `fetchVulnerabilities` builds from the feed's body: an empty
      body gives nothing; `all_cves` and a bare array are counted by length;
      `items` takes `total_count` when that is truthy; any other shape
      throws (`None`). */
  function FeedPage(data: Json, now: string): (r: Option<Page>)
    ensures !JsTruthy(data) ==> r == Some(Page([], JInt(0)))
    ensures HasAllCves(data) ==>
              var xs := data.fields["all_cves"].elems;
              r.Some? == NormalizeAll(xs, now).Some? &&
              (r.Some? ==> r.value == Page(NormalizeAll(xs, now).value, JInt(|xs|)))
    ensures data.JArr? ==>
              r.Some? == NormalizeAll(data.elems, now).Some? &&
              (r.Some? ==> r.value == Page(NormalizeAll(data.elems, now).value, JInt(|data.elems|)))
    ensures !HasAllCves(data) && HasItems(data) ==>
              var xs := data.fields["items"].elems;
              r.Some? == NormalizeAll(xs, now).Some? &&
              (r.Some? ==> r.value == Page(NormalizeAll(xs, now).value, JsOr(Field(data, "total_count"), JInt(|xs|))))
    ensures JsTruthy(data) && !data.JArr? && !HasAllCves(data) && !HasItems(data) ==> r.None?
  {
    if !JsTruthy(data) then Some(Page([], JInt(0)))
    else
      var shape :=
        if HasAllCves(data) then Some(data.fields["all_cves"].elems)
        else if data.JArr? then Some(data.elems)
        else if HasItems(data) then Some(data.fields["items"].elems)
        else None;
      match shape
      case None => None
      case Some(xs) =>
        match NormalizeAll(xs, now)
        case None => None
        case Some(cs) =>
          var total := if HasAllCves(data) || data.JArr? then JInt(|cs|)
                       else JsOr(Field(data, "total_count"), JInt(|cs|));
          Some(Page(cs, total))
  }

  /** The three accepted shapes agree: a bare array, the same array under
      `all_cves`, and the same array under `items` with no `total_count` all
      give the same page. */
  lemma FeedShapesAgree(xs: seq<Json>, now: string)
    ensures FeedPage(JArr(xs), now) == FeedPage(JObj(map["all_cves" := JArr(xs)]), now)
    ensures FeedPage(JArr(xs), now) == FeedPage(JObj(map["items" := JArr(xs)]), now)
  {
  }

  // ---------------------------------------------------------------------
  // The vulnerabilities cache
  // ---------------------------------------------------------------------

  /** `vulnerabilitiesCache`. `filters` is the `JSON.stringify` text of the
      filters (`{}` for none). */
  datatype Cache = Cache(data: Option<seq<Cve>>, filters: string, timestamp: int,
                         page: int, pageSize: int, totalCount: Json)

  const InitialCache := Cache(None, "{}", 0, 1, 100000, JInt(0))

  /** Five minutes, in milliseconds. */
  const CacheLifetime := 5 * 60 * 1000

  /** The cache answers when no refresh is forced, something is cached
      (an empty array counts), the filters serialise alike, the page and the
      page size agree, and the entry is under five minutes old. */
  predicate CacheHit(forceRefresh: bool, cache: Cache, filters: string, page: int, pageSize: int, now: int) {
    !forceRefresh && cache.data.Some? && filters == cache.filters &&
    page == cache.page && pageSize == cache.pageSize && now - cache.timestamp < CacheLifetime
  }

  /** The cache after a successful fetch. */
  function Store(page: Page, filters: string, now: int, pageNumber: int, pageSize: int): (c: Cache)
    ensures c.data == Some(page.items) && c.totalCount == page.totalCount && c.timestamp == now
  {
    Cache(Some(page.items), filters, now, pageNumber, pageSize, page.totalCount)
  }

  /** A stored page answers the same query, and only the same query, for
      five minutes; a forced refresh always refetches, and the cache starts
      empty. */
  lemma CacheAnswersStoredQuery(page: Page, filters: string, stored: int, pageNumber: int, pageSize: int,
                                filters': string, pageNumber': int, pageSize': int, now: int)
    requires stored <= now
    ensures var c := Store(page, filters, stored, pageNumber, pageSize);
            CacheHit(false, c, filters', pageNumber', pageSize', now) <==>
              filters' == filters && pageNumber' == pageNumber && pageSize' == pageSize && now < stored + CacheLifetime
    ensures !CacheHit(true, Store(page, filters, stored, pageNumber, pageSize), filters', pageNumber', pageSize', now)
    ensures !CacheHit(false, InitialCache, filters', pageNumber', pageSize', now)
  {
  }

  // ---------------------------------------------------------------------
  // The feed query
  // ---------------------------------------------------------------------

  /** A score bound as a caller gives it: `units / 10^scale` (`7.5` is
      `Decimal(75, 1)`). */
  datatype Decimal = Decimal(units: int, scale: nat)

  function Pow10(n: nat): (p: nat)
    ensures p >= 1
  {
    if n == 0 then 1 else 10 * Pow10(n - 1)
  }

  function Zeros(n: nat): (s: string)
    ensures |s| == n && forall i :: 0 <= i < n ==> s[i] == '0'
  {
    seq(n, i => '0')
  }

  /** `s` left-padded with zeros to width `w`. */
  function PadZeros(s: string, w: nat): (r: string)
    ensures |r| == if |s| < w then w else |s|
    ensures r[|r| - |s|..] == s
    ensures forall i :: 0 <= i < |r| - |s| ==> r[i] == '0'
  {
    Zeros(if |s| < w then w - |s| else 0) + s
  }

  /** `s` without its trailing zeros. */
  function TrimZeros(s: string): (r: string)
    ensures |r| <= |s| && r == s[..|r|]
    ensures |r| == 0 || r[|r| - 1] != '0'
    ensures forall i :: |r| <= i < |s| ==> s[i] == '0'
    decreases |s|
  {
    if |s| > 0 && s[|s| - 1] == '0' then TrimZeros(s[..|s| - 1]) else s
  }

  function Abs(i: int): nat {
    if i < 0 then -i else i
  }

  /** `Number.prototype.toString` for a bound: the sign, the integer part,
      then a point and the fraction without trailing zeros when there is
      one. */
  function DecimalText(d: Decimal): (t: string)
    ensures |t| > 0
    ensures t[0] == '-' <==> d.units < 0
    ensures '.' in t <==> Abs(d.units) % Pow10(d.scale) != 0
    ensures '.' in t ==> t[|t| - 1] != '0'
  {
    var n := Abs(d.units);
    var p := Pow10(d.scale);
    var whole := WholeText(n, p);
    var fraction := FractionText(n, p, d.scale);
    PointOnlyInFraction(whole, fraction);
    WithSign(d.units < 0, whole + fraction)
  }

  /** The integer part of `n / p`. */
  function WholeText(n: nat, p: nat): (r: string)
    requires p >= 1
    ensures |r| > 0 && AllDigits(r)
  {
    NatToString(n / p)
  }

  /** The point and the digits of the fraction of `n / p`, `p == 10^w`;
      nothing when `p` divides `n`. */
  function FractionText(n: nat, p: nat, w: nat): (r: string)
    requires p >= 1
    ensures r == "" <==> n % p == 0
    ensures r != "" ==> |r| > 1 && r[0] == '.' && AllDigits(r[1..]) && r[|r| - 1] != '0'
  {
    if n % p == 0 then ""
    else
      var digits := FractionDigits(n % p, w);
      assert ("." + digits)[1..] == digits;
      "." + digits
  }

  /** The digits after the point of a non-zero fraction `f / 10^w`. */
  function FractionDigits(f: nat, w: nat): (r: string)
    requires f > 0
    ensures |r| > 0 && r[|r| - 1] != '0' && AllDigits(r)
  {
    var s := NatToString(f);
    var padded := PadZeros(s, w);
    assert padded[|padded| - |s|] == s[0] != '0';
    TrimZeros(padded)
  }

  /** A number text with a minus sign in front when `negative`. */
  function WithSign(negative: bool, body: string): (t: string)
    requires |body| > 0 && body[0] != '-'
    ensures |t| > 0 && (t[0] == '-' <==> negative)
    ensures '.' in t <==> '.' in body
    ensures t[|t| - 1] == body[|body| - 1]
  {
    if negative then "-" + body else body
  }

  /** In a text made of digits and an optional fraction, the point appears
      exactly when the fraction does, and the text ends as the fraction
      does. */
  lemma PointOnlyInFraction(whole: string, fraction: string)
    requires |whole| > 0 && AllDigits(whole)
    requires fraction == "" || (|fraction| > 1 && fraction[0] == '.' && AllDigits(fraction[1..]))
    ensures var t := whole + fraction;
            t[0] != '-' && ('.' in t <==> fraction != "") &&
            (fraction != "" ==> t[|t| - 1] == fraction[|fraction| - 1])
  {
    var t := whole + fraction;
    if fraction != "" {
      assert t[|whole|] == '.';
    } else {
      assert forall i :: 0 <= i < |t| ==> t[i] != '.' by {
        forall i | 0 <= i < |t| ensures t[i] != '.' {
          assert t[i] == whole[i];
        }
      }
    }
  }

  /** A whole bound reads as the integer it is. */
  lemma DecimalTextOfInteger(i: int)
    ensures DecimalText(Decimal(i, 0)) == IntToString(i)
  {
  }

  /** The text depends on the number only: `7.5` and `7.50` read alike. */
  lemma {:induction false} DecimalTextScaleFree(units: int, scale: nat)
    ensures DecimalText(Decimal(10 * units, scale + 1)) == DecimalText(Decimal(units, scale))
  {
    var n := Abs(units);
    var p := Pow10(scale);
    assert Abs(10 * units) == 10 * n;
    assert Pow10(scale + 1) == 10 * p;
    DecimalTextParts(Decimal(10 * units, scale + 1));
    DecimalTextParts(Decimal(units, scale));
    WholeTextScaled(n, p);
    FractionTextScaled(n, p, scale);
  }

  /** Scaling both terms by ten leaves the integer part alone. */
  lemma WholeTextScaled(n: nat, p: nat)
    requires p >= 1
    ensures WholeText(10 * n, 10 * p) == WholeText(n, p)
  {
    DivModScaled(n, p);
  }

  /** Scaling both terms by ten, with one more digit of width, leaves the
      fraction alone. */
  lemma FractionTextScaled(n: nat, p: nat, w: nat)
    requires p >= 1
    ensures FractionText(10 * n, 10 * p, w + 1) == FractionText(n, p, w)
  {
    DivModScaled(n, p);
    if n % p != 0 {
      FractionDigitsScaled(n % p, w);
    }
  }

  /** One more trailing zero and one more digit of width give the same
      fraction digits. */
  lemma FractionDigitsScaled(f: nat, w: nat)
    requires f > 0
    ensures FractionDigits(10 * f, w + 1) == FractionDigits(f, w)
  {
    NatToStringTimesTen(f);
    var s := NatToString(f);
    assert PadZeros(s + "0", w + 1) == PadZeros(s, w) + "0";
    TrimZerosDropsZero(PadZeros(s, w));
  }

  lemma DivModScaled(n: nat, p: nat)
    requires p >= 1
    ensures (10 * n) / (10 * p) == n / p && (10 * n) % (10 * p) == 10 * (n % p)
  {
    var q := n / p;
    var r := n % p;
    assert n == q * p + r;
    assert 10 * n == q * (10 * p) + 10 * r;
    DivModUnique(10 * n, 10 * p, q, 10 * r);
  }

  /** Division is determined by its quotient and remainder. */
  lemma DivModUnique(a: nat, b: nat, q: nat, r: nat)
    requires b > 0 && a == q * b + r && r < b
    ensures a / b == q && a % b == r
  {
    var q0 := a / b;
    var r0 := a % b;
    assert a == q0 * b + r0 && r0 < b;
    if q0 < q {
      NextMultiple(q0, b);
      MulMonotone(q0 + 1, q, b);
      assert false;
    } else if q0 > q {
      NextMultiple(q, b);
      MulMonotone(q + 1, q0, b);
      assert false;
    }
  }

  lemma NextMultiple(q: nat, b: nat)
    ensures (q + 1) * b == q * b + b
  {
  }

  lemma MulMonotone(x: nat, y: nat, b: nat)
    requires x <= y
    ensures x * b <= y * b
  {
    assert y * b == x * b + (y - x) * b;
  }

  lemma NatToStringTimesTen(m: nat)
    requires m > 0
    ensures NatToString(10 * m) == NatToString(m) + "0"
  {
    assert (10 * m) / 10 == m && (10 * m) % 10 == 0;
  }

  lemma TrimZerosDropsZero(s: string)
    ensures TrimZeros(s + "0") == TrimZeros(s)
  {
    assert (s + "0")[..|s|] == s;
  }

  /** Two examples: `7.5` and `-0.05`. */
  lemma DecimalTextSevenAndAHalf(d: Decimal)
    requires d == Decimal(75, 1)
    ensures DecimalText(d) == "7.5"
  {
    DecimalTextParts(d);
    SevenAndAHalfParts(Abs(d.units), Pow10(d.scale));
    SevenAndAHalfJoined();
  }

  lemma SevenAndAHalfParts(n: nat, p: nat)
    requires n == 75 && p == 10
    ensures WholeText(n, p) == "7" && FractionText(n, p, 1) == ".5"
  {
    assert WholeText(n, p) == "7" by {
      assert n / p == 7;
    }
    assert n % p == 5;
    assert NatToString(5) == "5";
    assert PadZeros("5", 1) == "5";
    assert TrimZeros("5") == "5";
  }

  lemma SevenAndAHalfJoined()
    ensures "7" + ".5" == "7.5"
  {
  }

  lemma DecimalTextSmallNegative(d: Decimal)
    requires d == Decimal(-5, 2)
    ensures DecimalText(d) == "-0.05"
  {
    DecimalTextParts(d);
    SmallNegativeParts(Abs(d.units), Pow10(d.scale));
    SmallNegativeJoined();
  }

  lemma SmallNegativeParts(n: nat, p: nat)
    requires n == 5 && p == 100
    ensures WholeText(n, p) == "0" && FractionText(n, p, 2) == ".05"
  {
    assert WholeText(n, p) == "0" by {
      assert n / p == 0;
    }
    assert n % p == 5;
    assert NatToString(5) == "5";
    assert PadZeros("5", 2) == "05";
    assert TrimZeros("05") == "05";
  }

  lemma SmallNegativeJoined()
    ensures "-" + ("0" + ".05") == "-0.05"
  {
  }

  /** `DecimalText` is the sign, the whole part and the fraction part. */
  lemma DecimalTextParts(d: Decimal)
    ensures DecimalText(d) ==
            WithSign(d.units < 0, WholeText(Abs(d.units), Pow10(d.scale)) + FractionText(Abs(d.units), Pow10(d.scale), d.scale))
  {
  }


  /** The filters a caller may pass. Text filters are sent only when
      non-empty; flags and bounds whenever they are defined, `false` and `0`
      included; the score bounds are decimals. */
  datatype Filters = Filters(
    severity: Option<string>, status: Option<string>, vendor: Option<string>, product: Option<string>,
    kev: Option<bool>, hasPoc: Option<bool>,
    cvssMin: Option<Decimal>, cvssMax: Option<Decimal>, epssMin: Option<Decimal>, epssMax: Option<Decimal>,
    dateFrom: Option<string>, dateTo: Option<string>)

  /** Number of filter names. */
  const FilterCount: nat := 12

  /** The query names of the filters, in the order they are appended. */
  function FilterName(i: nat): string
    requires i < FilterCount
  {
    match i
    case 0 => "severity"
    case 1 => "status"
    case 2 => "vendor"
    case 3 => "product"
    case 4 => "kev"
    case 5 => "has_poc"
    case 6 => "cvss_min"
    case 7 => "cvss_max"
    case 8 => "epss_min"
    case 9 => "epss_max"
    case 10 => "date_from"
    case _ => "date_to"
  }

  function TextFilter(v: Option<string>): Option<string> {
    if v.Some? && v.value != "" then v else None
  }

  function FlagFilter(v: Option<bool>): Option<string> {
    if v.None? then None else Some(if v.value then "true" else "false")
  }

  /** `v.toString()` whenever `v` is defined, `0` included. */
  function NumberFilter(v: Option<Decimal>): Option<string> {
    if v.None? then None else Some(DecimalText(v.value))
  }

  /** Whether the `i`-th filter is sent: a non-empty text, a defined flag
      or bound. */
  predicate FilterSet(f: Filters, i: nat)
    requires i < FilterCount
  {
    match i
    case 0 => f.severity.Some? && f.severity.value != ""
    case 1 => f.status.Some? && f.status.value != ""
    case 2 => f.vendor.Some? && f.vendor.value != ""
    case 3 => f.product.Some? && f.product.value != ""
    case 4 => f.kev.Some?
    case 5 => f.hasPoc.Some?
    case 6 => f.cvssMin.Some?
    case 7 => f.cvssMax.Some?
    case 8 => f.epssMin.Some?
    case 9 => f.epssMax.Some?
    case 10 => f.dateFrom.Some? && f.dateFrom.value != ""
    case _ => f.dateTo.Some? && f.dateTo.value != ""
  }

  /** The value sent for the `i`-th filter name, `None` when it is left out. */
  function FilterValue(f: Filters, i: nat): (r: Option<string>)
    requires i < FilterCount
    ensures r.Some? <==> FilterSet(f, i)
  {
    match i
    case 0 => TextFilter(f.severity)
    case 1 => TextFilter(f.status)
    case 2 => TextFilter(f.vendor)
    case 3 => TextFilter(f.product)
    case 4 => FlagFilter(f.kev)
    case 5 => FlagFilter(f.hasPoc)
    case 6 => NumberFilter(f.cvssMin)
    case 7 => NumberFilter(f.cvssMax)
    case 8 => NumberFilter(f.epssMin)
    case 9 => NumberFilter(f.epssMax)
    case 10 => TextFilter(f.dateFrom)
    case _ => TextFilter(f.dateTo)
  }

  /** The positions of the filters sent, from the `i`-th name on: in
      increasing order (so no name twice), and exactly the set ones. */
  function SentFilters(f: Filters, i: nat): (js: seq<nat>)
    requires i <= FilterCount
    ensures forall k :: 0 <= k < |js| ==> i <= js[k] < FilterCount && FilterSet(f, js[k])
    ensures forall k, l :: 0 <= k < l < |js| ==> js[k] < js[l]
    ensures forall j :: i <= j < FilterCount && FilterSet(f, j) ==> j in js
  {
    SetPositions(FilterFlags(f), i)
  }

  /** Which of the twelve filters are set, by position. */
  function FilterFlags(f: Filters): (flags: seq<bool>)
    ensures |flags| == FilterCount && forall j :: 0 <= j < FilterCount ==> flags[j] == FilterSet(f, j)
  {
    seq(FilterCount, j requires 0 <= j < FilterCount => FilterSet(f, j))
  }

  /** The positions from `i` on that hold `true`, in increasing order. */
  function SetPositions(flags: seq<bool>, i: nat): (js: seq<nat>)
    requires i <= |flags|
    ensures forall k :: 0 <= k < |js| ==> i <= js[k] < |flags| && flags[js[k]]
    ensures forall k, l :: 0 <= k < l < |js| ==> js[k] < js[l]
    ensures forall j :: i <= j < |flags| && flags[j] ==> j in js
    decreases |flags| - i
  {
    if i == |flags| then []
    else
      var rest := SetPositions(flags, i + 1);
      if flags[i] then [i] + rest else rest
  }

  /** The query string's parameters: the set filters in the fixed order,
      then `page` and `page_size`, always last. */
  function FeedQuery(filters: Option<Filters>, page: int, pageSize: int): (q: seq<(string, string)>)
    ensures |q| >= 2
    ensures q[|q| - 2] == ("page", IntToString(page)) && q[|q| - 1] == ("page_size", IntToString(pageSize))
    ensures filters.None? ==> |q| == 2
    ensures filters.Some? ==>
              var js := SentFilters(filters.value, 0);
              |q| == |js| + 2 &&
              forall k :: 0 <= k < |js| ==> q[k] == (FilterName(js[k]), FilterValue(filters.value, js[k]).value)
  {
    var fs := if filters.None? then []
              else
                var js := SentFilters(filters.value, 0);
                seq(|js|, k requires 0 <= k < |js| => (FilterName(js[k]), FilterValue(filters.value, js[k]).value));
    fs + [("page", IntToString(page)), ("page_size", IntToString(pageSize))]
  }

  lemma OnlyFirstNameIsSeverity()
    ensures forall j :: 1 <= j < FilterCount ==> FilterName(j) != "severity"
  {
  }

  /** A flag set to `false` is still sent, while an empty text filter is
      dropped. */
  lemma FalseFlagIsSent(f: Filters, page: int, pageSize: int)
    requires f.kev == Some(false) && f.severity == Some("")
    ensures ("kev", "false") in FeedQuery(Some(f), page, pageSize)
    ensures forall k :: 0 <= k < |FeedQuery(Some(f), page, pageSize)| ==> FeedQuery(Some(f), page, pageSize)[k].0 != "severity"
  {
    FalseKevSent(f, page, pageSize);
    EmptySeverityDropped(f, page, pageSize);
  }

  lemma FalseKevSent(f: Filters, page: int, pageSize: int)
    requires f.kev == Some(false)
    ensures ("kev", "false") in FeedQuery(Some(f), page, pageSize)
  {
    var q := FeedQuery(Some(f), page, pageSize);
    var js := SentFilters(f, 0);
    assert FilterValue(f, 4) == Some("false");
    assert 4 in js;
    var k4 :| 0 <= k4 < |js| && js[k4] == 4;
    assert FilterName(4) == "kev";
    assert q[k4] == ("kev", "false");
  }

  /** A decimal bound is sent as its decimal text: a minimum score of
      `7.5` reaches the feed as `cvss_min=7.5`. */
  lemma DecimalBoundSent(f: Filters, page: int, pageSize: int)
    requires f.cvssMin == Some(Decimal(75, 1))
    ensures ("cvss_min", "7.5") in FeedQuery(Some(f), page, pageSize)
  {
    var q := FeedQuery(Some(f), page, pageSize);
    var js := SentFilters(f, 0);
    assert FilterSet(f, 6);
    assert 6 in js;
    var k6 :| 0 <= k6 < |js| && js[k6] == 6;
    DecimalTextSevenAndAHalf(f.cvssMin.value);
    assert FilterValue(f, 6) == Some("7.5");
    assert q[k6] == ("cvss_min", "7.5");
  }

  lemma EmptySeverityDropped(f: Filters, page: int, pageSize: int)
    requires f.severity == Some("")
    ensures forall k :: 0 <= k < |FeedQuery(Some(f), page, pageSize)| ==> FeedQuery(Some(f), page, pageSize)[k].0 != "severity"
  {
    var q := FeedQuery(Some(f), page, pageSize);
    var js := SentFilters(f, 0);
    OnlyFirstNameIsSeverity();
    forall k | 0 <= k < |q| ensures q[k].0 != "severity" {
      if k < |js| {
        assert js[k] != 0;
      }
    }
  }

  // ---------------------------------------------------------------------
  // Collectors and report item types
  // ---------------------------------------------------------------------

  const DefaultCollectorName := "Default Docker Collector"

  /** `collector.name === 'Default Docker Collector'`. */
  predicate IsDefaultCollector(c: Json) {
    Field(c, "name") == Some(JStr(DefaultCollectorName))
  }

  /** `getCollectors`: the default collector entries of a well-formed reply,
      in their order, `[]` for any other reply; reading the name of a `null`
      entry throws. */
  function GetCollectors(data: Json): (r: Option<seq<Json>>)
    ensures !HasItems(data) ==> r == Some([])
    ensures HasItems(data) ==>
              var xs := data.fields["items"].elems;
              (r.Some? <==> forall i :: 0 <= i < |xs| ==> !xs[i].JNull?) &&
              (r.Some? ==> r.value == Filter(xs, IsDefaultCollector) &&
                           (forall c :: c in r.value <==> c in xs && IsDefaultCollector(c)) &&
                           |r.value| == CountIf(xs, IsDefaultCollector))
  {
    if !HasItems(data) then Some([])
    else
      var xs := data.fields["items"].elems;
      if exists i :: 0 <= i < |xs| && xs[i].JNull? then None
      else Some(Filter(xs, IsDefaultCollector))
  }

  /** Filtering the answer again changes nothing: every collector returned
      is the default one. */
  lemma GetCollectorsOnlyDefault(data: Json)
    requires GetCollectors(data).Some?
    ensures forall c :: c in GetCollectors(data).value ==> IsDefaultCollector(c)
    ensures GetCollectors(JObj(map["items" := JArr(GetCollectors(data).value)])) == GetCollectors(data)
  {
    var r := GetCollectors(data).value;
    var again := JObj(map["items" := JArr(r)]);
    assert HasItems(again) && again.fields["items"].elems == r;
    forall i | 0 <= i < |r| ensures !r[i].JNull? {
      assert r[i] in r;
      DefaultCollectorIsObject(r[i]);
    }
    FilterAll(r, IsDefaultCollector);
  }

  /** The collectors keep the reply's order: the items `xs + ys` give the
      collectors of `xs` followed by those of `ys`, and a single item gives
      itself exactly when it is the default collector. */
  lemma GetCollectorsKeepsOrder(xs: seq<Json>, ys: seq<Json>)
    requires GetCollectors(Envelope(xs)).Some? && GetCollectors(Envelope(ys)).Some?
    ensures GetCollectors(Envelope(xs + ys)) ==
            Some(GetCollectors(Envelope(xs)).value + GetCollectors(Envelope(ys)).value)
  {
    var zs := xs + ys;
    assert HasItems(Envelope(xs)) && HasItems(Envelope(ys)) && HasItems(Envelope(zs));
    forall i | 0 <= i < |zs| ensures !zs[i].JNull? {
      if i < |xs| {
        assert zs[i] == xs[i];
      } else {
        assert zs[i] == ys[i - |xs|];
      }
    }
    FilterAppend(xs, ys, IsDefaultCollector);
  }

  lemma GetCollectorsOfOne(x: Json)
    requires !x.JNull?
    ensures GetCollectors(Envelope([x])) == Some(if IsDefaultCollector(x) then [x] else [])
  {
    assert HasItems(Envelope([x]));
    FilterSingle(x, IsDefaultCollector);
  }

  lemma DefaultCollectorIsObject(c: Json)
    requires IsDefaultCollector(c)
    ensures c.JObj?
  {
  }

  /** `fetchReportItemTypesSimple`: the body's truthy `items`, else the body
      when it is an array, else `[]`; a rejected reply throws (`None`). */
  function FetchReportItemTypes(status: int, data: Json): (r: Option<Json>)
    ensures r.Some? <==> AcceptedStatus(status)
    ensures r.Some? && JsTruthy(data) && JsTruthyOpt(Field(data, "items")) ==> r.value == data.fields["items"]
    ensures r.Some? && !JsTruthyOpt(Field(data, "items")) ==> r.value == (if data.JArr? then data else JArr([]))
  {
    if !AcceptedStatus(status) then None
    else if JsTruthy(data) && JsTruthyOpt(Field(data, "items")) then Some(data.fields["items"])
    else if data.JArr? then Some(data)
    else Some(JArr([]))
  }

  /** End to end with the gateway's report-item-types listing: whatever the
      upstream answered, the front end gets exactly the listed items, or
      throws when the gateway's status is not accepted. */
  lemma ReportItemTypesEndToEnd(res: Resp, exc: string)
    ensures var o := ContentRoutes.GetReportItemTypesSimple(res, exc);
            FetchReportItemTypes(o.status, o.body) ==
              (if AcceptedStatus(o.status) then Some(JArr(ListedItems(o))) else None)
  {
  }
}
