/** The data-collection routes of the front-end server: OSINT sources and
    OSINT source groups (lookup by id over the full list, id forcing on
    update, placeholder ids on create, 204 translation on delete) and the
    parse-failure branch of the collectors listing. */
module DataCollectionRoutes {
  import opened Wrappers
  import opened JsonData
  import opened Upstream

  const SourcePlaceholderId: string := "00000000-0000-0000-0000-000000000000"
  const GroupPlaceholderId: string := "00000000-0000-0000-0000-000000000001"

  // ---------------------------------------------------------------------
  // Collectors listing
  // ---------------------------------------------------------------------

  /** The body sent back when the collectors listing does not parse. */
  function ParseFailureBody(detail: string, res: Resp): (b: Json)
    ensures b.JObj? && b.fields.Keys == {"error", "details", "status_code", "raw_text"}
    ensures b.fields["status_code"] == JInt(res.status) && b.fields["raw_text"] == JStr(res.text)
  {
    JObj(map["error" := JStr("Erreur de parsing JSON"), "details" := JStr(detail),
             "status_code" := JInt(res.status), "raw_text" := JStr(res.text)])
  }

  /** `get_collector_nodes`: `res` is `None` when the request itself raised;
      `detail` and `exc` are the texts of the exceptions. */
  function GetCollectorNodes(res: Option<Resp>, detail: string, exc: string): (o: Outcome)
    ensures o.Reply?
    ensures res.Some? && res.value.body.Some? ==> o == Reply(res.value.status, res.value.body.value)
    ensures res.Some? && res.value.body.None? ==> o.status == 500 && o.body == ParseFailureBody(detail, res.value)
    ensures res.None? ==> o == Reply(500, ErrorBody("Erreur de connexion ou requête : " + exc))
  {
    match res
    case None => Reply(500, ErrorBody("Erreur de connexion ou requête : " + exc))
    case Some(r) =>
      match r.body
      case Some(b) => Reply(r.status, b)
      case None => Reply(500, ParseFailureBody(detail, r))
  }

  // ---------------------------------------------------------------------
  // Lookup by id
  // ---------------------------------------------------------------------

  /** A source whose `id` equals the path id. */
  predicate SourceMatches(x: Json, sourceId: string) {
    x.JObj? && "id" in x.fields && PyEqStr(x.fields["id"], sourceId)
  }

  /** A source that `src["id"]` can be read from without raising. */
  predicate HasId(x: Json) {
    x.JObj? && "id" in x.fields
  }

  /** `src["id"] == source_id`: raises unless `src` is a dict with an `id`. */
  function SourceTest(sourceId: string): Json -> Option<bool> {
    x => if HasId(x) then Some(SourceMatches(x, sourceId)) else None
  }

  /** The scan treats every string element alike, so the placeholder keys
      of an iterated dict stand for any keys. */
  lemma SourceTestOnStrings(sourceId: string, s: string, t: string)
    ensures SourceTest(sourceId)(JStr(s)) == SourceTest(sourceId)(JStr(t)) == None
  {
  }

  /** `source` with the two option lists added. */
  function WithSourceOptions(source: Json, groups: Json, wordlists: Json): (r: Outcome)
    ensures source.JObj? ==> r.Reply? && r.status == 200 && r.body.JObj?
    ensures source.JObj? ==> r.body.fields.Keys == source.fields.Keys + {"available_groups", "available_wordlists"}
    ensures source.JObj? ==> r.body.fields["available_groups"] == groups && r.body.fields["available_wordlists"] == wordlists
    ensures source.JObj? ==> forall k :: k in source.fields && k != "available_groups" && k != "available_wordlists" ==>
                                r.body.fields[k] == source.fields[k]
  {
    match PySet(source, "available_groups", groups)
    case None => Crash
    case Some(s1) =>
      match PySet(s1, "available_wordlists", wordlists)
      case None => Crash
      case Some(s2) => Reply(200, s2)
  }

  /** `get_osint_source_by_id`: `list` answers the listing of all sources,
      `groups` and `wordlists` the two option lists fetched for a hit. */
  function GetOsintSourceById(sourceId: string, list: Resp, groups: Resp, wordlists: Resp): (o: Outcome)
    ensures list.status != 200 ==> o == Reply(list.status, ErrorBody("Failed to fetch OSINT sources"))
    ensures list.status == 200 && list.body.None? ==> o.Crash?
    // a miss over a well-formed list
    ensures list.status == 200 && list.body.Some? && list.body.value.JArr? &&
            (forall j :: 0 <= j < |list.body.value.elems| ==>
               HasId(list.body.value.elems[j]) && !SourceMatches(list.body.value.elems[j], sourceId))
            ==> o == Reply(404, ErrorBody("OSINT source not found"))
    // a hit is the first matching source, with two keys added
    ensures o.Reply? && o.status == 200 ==>
              list.status == 200 && list.body.Some? && list.body.value.JArr? &&
              groups.body.Some? && wordlists.body.Some? &&
              exists i :: 0 <= i < |list.body.value.elems| &&
                SourceMatches(list.body.value.elems[i], sourceId) &&
                (forall j :: 0 <= j < i ==> HasId(list.body.value.elems[j]) && !SourceMatches(list.body.value.elems[j], sourceId)) &&
                o == WithSourceOptions(list.body.value.elems[i], groups.body.value, wordlists.body.value)
  {
    if list.status != 200 then Reply(list.status, ErrorBody("Failed to fetch OSINT sources"))
    else match list.body
      case None => Crash
      case Some(all) =>
        match PyScan(all, SourceTest(sourceId))
        case Raised => Crash
        case Miss => Reply(404, ErrorBody("OSINT source not found"))
        case Hit(i) =>
          var source := PyIter(all).value[i];
          if !PyTruthy(source) then Reply(404, ErrorBody("OSINT source not found"))
          else match (groups.body, wordlists.body)
            case (Some(g), Some(w)) => WithSourceOptions(source, g, w)
            case _ => Crash
  }

  /** A source that matches carries an id, so `if not source` never rejects
      it: the 404 answer means exactly that no source matched. */
  lemma MatchingSourceIsTruthy(x: Json, sourceId: string)
    requires SourceMatches(x, sourceId)
    ensures PyTruthy(x)
  {
    assert "id" in x.fields;
  }

  /** Over a well-formed list, the lookup succeeds exactly when some source
      matches. */
  lemma SourceLookupHitIffMatch(sourceId: string, xs: seq<Json>, groups: Json, wordlists: Json)
    requires forall j :: 0 <= j < |xs| ==> HasId(xs[j])
    ensures var o := GetOsintSourceById(sourceId, Resp(200, "", Some(JArr(xs))), Resp(200, "", Some(groups)), Resp(200, "", Some(wordlists)));
            (o.Reply? && o.status == 200) <==> exists i :: 0 <= i < |xs| && SourceMatches(xs[i], sourceId)
  {
    var o := GetOsintSourceById(sourceId, Resp(200, "", Some(JArr(xs))), Resp(200, "", Some(groups)), Resp(200, "", Some(wordlists)));
    var r := PyNext(xs, SourceTest(sourceId));
    if r.Hit? {
      MatchingSourceIsTruthy(xs[r.index], sourceId);
    }
  }

  /** A group whose `id` equals the path id; `g.get("id")` is `None` when
      the key is absent, which never equals a path id. */
  predicate GroupMatches(x: Json, groupId: string) {
    x.JObj? && "id" in x.fields && PyEqStr(x.fields["id"], groupId)
  }

  /** `isinstance(g, dict) and g.get("id") == group_id`: never raises. */
  function GroupTest(groupId: string): Json -> Option<bool> {
    x => Some(GroupMatches(x, groupId))
  }

  /** `get_osint_source_group_by_id`. The listing's `items` (missing means
      empty) are scanned, skipping anything that is not a dict; `sources`
      answers the listing of all sources added to a hit. */
  function GetOsintSourceGroupById(groupId: string, list: Resp, sources: Resp): (o: Outcome)
    ensures list.status != 200 ==> o == Reply(list.status, ErrorBody("Failed to fetch OSINT source groups"))
    ensures list.status == 200 && list.body.Some? && list.body.value.JObj? && "items" !in list.body.value.fields
            ==> o == Reply(404, ErrorBody("OSINT source group not found"))
    ensures list.status == 200 && list.body.Some? && list.body.value.JObj? &&
            "items" in list.body.value.fields && list.body.value.fields["items"].JArr? &&
            (forall j :: 0 <= j < |list.body.value.fields["items"].elems| ==>
               !GroupMatches(list.body.value.fields["items"].elems[j], groupId))
            ==> o == Reply(404, ErrorBody("OSINT source group not found"))
    ensures o.Reply? && o.status == 200 ==>
              list.status == 200 && list.body.Some? && list.body.value.JObj? &&
              "items" in list.body.value.fields && list.body.value.fields["items"].JArr? && sources.body.Some? &&
              var xs := list.body.value.fields["items"].elems;
              exists i :: 0 <= i < |xs| && GroupMatches(xs[i], groupId) &&
                (forall j :: 0 <= j < i ==> !GroupMatches(xs[j], groupId)) &&
                o.body == JObj(xs[i].fields["available_sources" := sources.body.value])
  {
    if list.status != 200 then Reply(list.status, ErrorBody("Failed to fetch OSINT source groups"))
    else match list.body
      case None => Crash
      case Some(b) =>
        match PyGet(b, "items", JArr([]))
        case None => Crash
        case Some(items) =>
          match PyScan(items, GroupTest(groupId))
          case Raised => Crash
          case Miss => Reply(404, ErrorBody("OSINT source group not found"))
          case Hit(i) =>
            var group := PyIter(items).value[i];
            if !PyTruthy(group) then Reply(404, ErrorBody("OSINT source group not found"))
            else match sources.body
              case None => Crash
              case Some(s) =>
                match PySet(group, "available_sources", s)
                case None => Crash
                case Some(g) => Reply(200, g)
  }

  /** Only a non-iterable `items` can make the group scan raise: strings and
      dict keys are skipped like any other non-dict entry. */
  lemma GroupScanRaisesOnlyOnNonIterable(groupId: string, items: Json)
    ensures PyScan(items, GroupTest(groupId)).Raised? <==> PyIter(items).None?
  {

  }

  // ---------------------------------------------------------------------
  // Writes
  // ---------------------------------------------------------------------

  /** `update_osint_source`. */
  function UpdateOsintSource(sourceId: string, data: Json, res: Resp): (e: Exchange)
    ensures e == ForceId(data, JStr(sourceId), res)
    ensures e.sent.Some? ==> e.sent.value.fields["id"] == JStr(sourceId)
  {
    ForceId(data, JStr(sourceId), res)
  }

  /** `update_osint_source_group`. */
  function UpdateOsintSourceGroup(groupId: string, data: Json, res: Resp): (e: Exchange)
    ensures e == ForceId(data, JStr(groupId), res)
    ensures e.sent.Some? ==> e.sent.value.fields["id"] == JStr(groupId)
  {
    ForceId(data, JStr(groupId), res)
  }

  /** `if 'id' not in data: data['id'] = placeholder` then POST. */
  function WithPlaceholderId(data: Json, placeholder: string, res: Resp): (e: Exchange)
    ensures data.JObj? && "id" in data.fields ==> e == Exchange(Some(data), Relay(res))
    ensures data.JObj? && "id" !in data.fields ==>
              e.sent == Some(JObj(data.fields["id" := JStr(placeholder)])) && e.out == Relay(res)
    ensures data.JNull? || data.JBool? || data.JInt? ==> e == Exchange(None, Crash)
    ensures e.sent.Some? ==> e.out == Relay(res)
  {
    match PyContainsStr(data, "id")
    case None => Exchange(None, Crash)
    case Some(true) => Exchange(Some(data), Relay(res))
    case Some(false) =>
      match PySet(data, "id", JStr(placeholder))
      case None => Exchange(None, Crash)
      case Some(d) => Exchange(Some(d), Relay(res))
  }

  /** `create_osint_source`. */
  function CreateOsintSource(data: Json, res: Resp): (e: Exchange)
    ensures e == WithPlaceholderId(data, SourcePlaceholderId, res)
    ensures data.JObj? ==>
              e.sent.Some? && e.sent.value.JObj? &&
              e.sent.value.fields["id"] == (if "id" in data.fields then data.fields["id"] else JStr(SourcePlaceholderId))
  {
    WithPlaceholderId(data, SourcePlaceholderId, res)
  }

  /** `create_osint_source_group`. */
  function CreateOsintSourceGroup(data: Json, res: Resp): (e: Exchange)
    ensures e == WithPlaceholderId(data, GroupPlaceholderId, res)
    ensures data.JObj? ==>
              e.sent.Some? && e.sent.value.JObj? &&
              e.sent.value.fields["id"] == (if "id" in data.fields then data.fields["id"] else JStr(GroupPlaceholderId))
  {
    WithPlaceholderId(data, GroupPlaceholderId, res)
  }

  /** A supplied id is never replaced, and a missing one is filled in: in
      both cases the forwarded payload has an `id`. */
  lemma CreateAlwaysSendsAnId(data: Json, placeholder: string, res: Resp)
    requires data.JObj?
    ensures var e := WithPlaceholderId(data, placeholder, res);
            e.sent.Some? && e.sent.value.JObj? && "id" in e.sent.value.fields &&
            e.sent.value.fields["id"] == (if "id" in data.fields then data.fields["id"] else JStr(placeholder))
  {
  }

  /** `delete_osint_source`. */
  function DeleteOsintSource(res: Resp): (o: Outcome)
    ensures res.status == 204 <==> o == Reply(200, MessageBody("OSINT source deleted"))
    ensures res.status != 204 ==> o == Reply(res.status, ErrorBody("Failed to delete OSINT source"))
  {
    DeleteReply(res, "OSINT source deleted", "Failed to delete OSINT source")
  }

  /** `delete_osint_source_group`. */
  function DeleteOsintSourceGroup(res: Resp): (o: Outcome)
    ensures res.status == 204 <==> o == Reply(200, MessageBody("OSINT source group deleted"))
    ensures res.status != 204 ==> o == Reply(res.status, ErrorBody("Failed to delete OSINT source group"))
  {
    DeleteReply(res, "OSINT source group deleted", "Failed to delete OSINT source group")
  }
}
