/** The bot routes of the front-end server: the simplified bots-nodes
    listing, preset lookup by id, the fresh id on create, the id forced on
    update, and the delete echo. */
module BotsRoutes {
  import opened Wrappers
  import opened Text
  import opened JsonData
  import opened Upstream

  /** One listed bot node: exactly `id`, `title`, `description`, `url` (read
      from `api_url`) and `tag`, each `null` when absent. A node that is not
      a dict raises. */
  function SimplifyBotNode(item: Json): (r: Option<Json>)
    ensures r.Some? <==> item.JObj?
    ensures r.Some? ==> r.value.JObj? && r.value.fields.Keys == {"id", "title", "description", "url", "tag"}
    ensures r.Some? ==> r.value.fields["url"] == GetOrNull(item, "api_url")
    ensures r.Some? ==> forall k :: k in {"id", "title", "description", "tag"} ==> r.value.fields[k] == GetOrNull(item, k)
  {
    if !item.JObj? then None
    else Some(JObj(map["id" := GetOrNull(item, "id"), "title" := GetOrNull(item, "title"),
                       "description" := GetOrNull(item, "description"),
                       "url" := GetOrNull(item, "api_url"), "tag" := GetOrNull(item, "tag")]))
  }

  /** `get_bots_nodes`: every node simplified in order, the upstream total
      (0 when missing) and status passed on. */
  function GetBotsNodes(res: Resp, exc: string): (o: Outcome)
    ensures o.Reply?
    ensures UpstreamItems(res).Some? && (forall i :: 0 <= i < |UpstreamItems(res).value| ==> UpstreamItems(res).value[i].JObj?) ==>
              var xs := UpstreamItems(res).value;
              o.status == res.status &&
              o.body.JObj? && o.body.fields.Keys == {"total_count", "items"} &&
              o.body.fields["total_count"] == UpstreamTotal(res) &&
              |ListedItems(o)| == |xs| &&
              forall i :: 0 <= i < |xs| ==>
                ListedItems(o)[i] == SimplifyBotNode(xs[i]).value &&
                ListedItems(o)[i].fields.Keys == {"id", "title", "description", "url", "tag"} &&
                ListedItems(o)[i].fields["url"] == GetOrNull(xs[i], "api_url") &&
                forall k :: k in {"id", "title", "description", "tag"} ==> ListedItems(o)[i].fields[k] == GetOrNull(xs[i], k)
    ensures UpstreamItems(res).Some? && (exists i :: 0 <= i < |UpstreamItems(res).value| && !UpstreamItems(res).value[i].JObj?) ==>
              o == Reply(500, ErrorBody(exc))
    ensures res.body.None? ==> o == Reply(500, ErrorBody(exc))
  {
    assert "" + exc == exc;
    SimplifiedListing(res, SimplifyBotNode, "", exc)
  }

  /** The listing keeps the upstream order: listing `xs + ys` lists the
      entries of `xs` and then those of `ys`. */
  lemma GetBotsNodesKeepsOrder(status: int, text: string, xs: seq<Json>, ys: seq<Json>, exc: string)
    requires forall i :: 0 <= i < |xs| ==> xs[i].JObj?
    requires forall i :: 0 <= i < |ys| ==> ys[i].JObj?
    ensures ListedItems(GetBotsNodes(Resp(status, text, Some(Envelope(xs + ys))), exc)) ==
            ListedItems(GetBotsNodes(Resp(status, text, Some(Envelope(xs))), exc)) +
            ListedItems(GetBotsNodes(Resp(status, text, Some(Envelope(ys))), exc))
  {
    var zs := xs + ys;
    var rz, rx, ry := Resp(status, text, Some(Envelope(zs))), Resp(status, text, Some(Envelope(xs))), Resp(status, text, Some(Envelope(ys)));
    assert GetBotsNodes(rz, exc) == SimplifiedListing(rz, SimplifyBotNode, "", exc);
    assert GetBotsNodes(rx, exc) == SimplifiedListing(rx, SimplifyBotNode, "", exc);
    assert GetBotsNodes(ry, exc) == SimplifiedListing(ry, SimplifyBotNode, "", exc);
    ListingKeepsOrder(status, text, xs, ys, SimplifyBotNode, "", exc);
  }

  /** A preset whose `id` equals the path id. */
  predicate PresetMatches(x: Json, presetId: string) {
    x.JObj? && "id" in x.fields && PyEqStr(x.fields["id"], presetId)
  }

  /** `item["id"] == preset_id`: raises unless `item` is a dict with an id. */
  function PresetTest(presetId: string): Json -> Option<bool> {
    (x: Json) => if x.JObj? && "id" in x.fields then Some(PresetMatches(x, presetId)) else None
  }

  /** `get_bot_preset_by_id`; every exception becomes 500 with its text. */
  function GetBotPresetById(presetId: string, res: Resp, exc: string): (o: Outcome)
    ensures o.Reply?
    ensures res.status != 200 ==> o == Reply(res.status, ErrorBody("Taranis response: " + IntToString(res.status)))
    ensures res.status == 200 && UpstreamItems(res).Some? && (forall x :: x in UpstreamItems(res).value ==> x.JObj? && "id" in x.fields) ==>
              var xs := UpstreamItems(res).value;
              (o.status == 404 <==> forall j :: 0 <= j < |xs| ==> !PresetMatches(xs[j], presetId)) &&
              (o.status == 200 ==> exists i :: 0 <= i < |xs| && o.body == xs[i] && PresetMatches(xs[i], presetId) &&
                                                forall j :: 0 <= j < i ==> !PresetMatches(xs[j], presetId))
  {
    Guarded(PresetLookup(presetId, res), "", exc)
  }

  /** Over a listing of dicts with ids, the lookup answers 404 exactly
      when no id matches and 200 exactly when one does. */
  lemma BotPresetLookupHitIffMatch(presetId: string, xs: seq<Json>, exc: string)
    requires forall j :: 0 <= j < |xs| ==> xs[j].JObj? && "id" in xs[j].fields
    ensures var o := GetBotPresetById(presetId, Resp(200, "", Some(Envelope(xs))), exc);
            (o.status == 404 <==> forall j :: 0 <= j < |xs| ==> !PresetMatches(xs[j], presetId)) &&
            (o.status == 200 <==> exists j :: 0 <= j < |xs| && PresetMatches(xs[j], presetId))
  {
    var res := Resp(200, "", Some(Envelope(xs)));
    var test := PresetTest(presetId);
    assert PyGet(Envelope(xs), "items", JArr([])) == Some(JArr(xs));
    forall j | 0 <= j < |xs| ensures test(xs[j]) == Some(PresetMatches(xs[j], presetId)) { }
    var r := PyNext(xs, test);
    assert PyScan(JArr(xs), test) == r;
    assert !r.Raised?;
    if r.Hit? {
      assert "id" in xs[r.index].fields;
      assert PyTruthy(xs[r.index]);
      assert PresetLookup(presetId, res) == Reply(200, xs[r.index]);
      assert PresetMatches(xs[r.index], presetId);
    } else {
      assert PresetLookup(presetId, res) == Reply(404, ErrorBody("Preset not found"));
      assert forall j :: 0 <= j < |xs| ==> !PresetMatches(xs[j], presetId);
    }
  }

  function PresetLookup(presetId: string, res: Resp): Outcome {
    if res.status != 200 then Reply(res.status, ErrorBody("Taranis response: " + IntToString(res.status)))
    else match res.body
      case None => Crash
      case Some(b) =>
        match PyGet(b, "items", JArr([]))
        case None => Crash
        case Some(items) =>
          match PyScan(items, PresetTest(presetId))
          case Raised => Crash
          case Miss => Reply(404, ErrorBody("Preset not found"))
          case Hit(i) =>
            var preset := PyIter(items).value[i];
            if PyTruthy(preset) then Reply(200, preset) else Reply(404, ErrorBody("Preset not found"))
  }

  /** `create_bot_preset`: the id is overwritten with a fresh UUID (a
      parameter here) even when the caller supplied one; the assignment is
      outside the `try`, the POST inside it. */
  function CreateBotPreset(data: Json, uuid: string, res: Resp, exc: string): (e: Exchange)
    ensures e.sent.Some? <==> data.JObj?
    ensures e.sent.Some? ==> e.sent.value.JObj? && e.sent.value.fields.Keys == data.fields.Keys + {"id"} &&
                             e.sent.value.fields["id"] == JStr(uuid) &&
                             forall k :: k in data.fields && k != "id" ==> e.sent.value.fields[k] == data.fields[k]
    ensures e.sent.Some? ==> e.out == Guarded(Relay(res), "Erreur POST bots preset: ", exc)
    ensures e.sent.None? ==> e.out.Crash?
  {
    var f := ForceId(data, JStr(uuid), res);
    if f.sent.Some? then Exchange(f.sent, Guarded(f.out, "Erreur POST bots preset: ", exc)) else f
  }

  /** `update_bot_preset`: the id is forced to the path id. */
  function UpdateBotPreset(presetId: string, data: Json, res: Resp, exc: string): (e: Exchange)
    ensures e.sent.Some? <==> data.JObj?
    ensures e.sent.Some? ==> e.sent.value.JObj? && e.sent.value.fields.Keys == data.fields.Keys + {"id"} &&
                             e.sent.value.fields["id"] == JStr(presetId) &&
                             forall k :: k in data.fields && k != "id" ==> e.sent.value.fields[k] == data.fields[k]
    ensures e.sent.Some? ==> e.out == Guarded(Relay(res), "Erreur PUT bots preset: ", exc)
    ensures e.sent.None? ==> e.out.Crash?
  {
    var f := ForceId(data, JStr(presetId), res);
    if f.sent.Some? then Exchange(f.sent, Guarded(f.out, "Erreur PUT bots preset: ", exc)) else f
  }

  /** `delete_bot_preset`: `{"deleted": preset_id}` with whatever status the
      upstream answered; `res` is `None` when the request raised. */
  function DeleteBotPreset(presetId: string, res: Option<Resp>, exc: string): (o: Outcome)
    ensures res.Some? ==> o.Reply? && o.status == res.value.status &&
                          o.body.JObj? && o.body.fields.Keys == {"deleted"} && o.body.fields["deleted"] == JStr(presetId)
    ensures res.None? ==> o == Reply(500, ErrorBody("Erreur DELETE bots preset: " + exc))
  {
    GuardedFixedReply(res, JObj(map["deleted" := JStr(presetId)]), "Erreur DELETE bots preset: ", exc)
  }
}
