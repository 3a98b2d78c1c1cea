/** The publisher-preset routes of the gateway that reshape a reply: the
    lookup by id over the bare upstream list, and the delete confirmation. */
module PublishRoutes {
  import opened Wrappers
  import opened JsonData
  import opened Upstream

  const LookupError := "Erreur get by id: "
  const DeleteError := "Erreur suppression preset : "

  /** `p.get("id") == preset_id`: raises unless `p` is a dict. */
  function PresetTest(presetId: string): Json -> Option<bool> {
    (x: Json) => if x.JObj? then Some(PyEqStr(GetOrNull(x, "id"), presetId)) else None
  }

  predicate PresetMatches(x: Json, presetId: string) {
    x.JObj? && "id" in x.fields && x.fields["id"] == JStr(presetId)
  }

  function PresetLookup(presetId: string, res: Resp): Outcome {
    if res.status != 200 then Reply(res.status, ErrorBody("Impossible de récupérer les presets"))
    else match res.body
      case None => Crash
      case Some(presets) =>
        match PyScan(presets, PresetTest(presetId))
        case Raised => Crash
        case Miss => Reply(404, ErrorBody("Preset introuvable"))
        case Hit(i) => Reply(200, PyIter(presets).value[i])
  }

  /** `get_publisher_preset_by_id`: the upstream body is iterated as it
      stands, so only a list of dicts can be searched; a dict body iterates
      over its keys and raises, as does anything else. */
  function GetPublisherPresetById(presetId: string, res: Resp, exc: string): (o: Outcome)
    ensures o.Reply?
    ensures res.status != 200 ==> o == Reply(res.status, ErrorBody("Impossible de récupérer les presets"))
    ensures res.status == 200 && res.body.Some? && res.body.value.JObj? && |res.body.value.fields| > 0 ==>
              o == Reply(500, ErrorBody(LookupError + exc))
    ensures o.status == 200 ==>
              res.body.Some? && res.body.value.JArr? &&
              var xs := res.body.value.elems;
              exists i :: 0 <= i < |xs| && o.body == xs[i] && PresetMatches(xs[i], presetId) &&
                          forall j :: 0 <= j < i ==> xs[j].JObj? && !PresetMatches(xs[j], presetId)
  {
    var o := PresetLookup(presetId, res);
    if res.status == 200 && res.body.Some? && res.body.value.JObj? && |res.body.value.fields| > 0 then
      assert PyIter(res.body.value).value[0].JStr?;
      Guarded(o, LookupError, exc)
    else if o.Reply? && o.status == 200 && res.body.value.JArr? then
      var xs := res.body.value.elems;
      var i := PyNext(xs, PresetTest(presetId)).index;
      assert forall j :: 0 <= j < i ==> PresetTest(presetId)(xs[j]) == Some(false);
      Guarded(o, LookupError, exc)
    else
      Guarded(o, LookupError, exc)
  }

  /** Over a list of dicts, the lookup answers 404 exactly when no id
      matches and 200 otherwise. */
  lemma PresetLookupHitIffMatch(presetId: string, xs: seq<Json>, exc: string)
    requires forall j :: 0 <= j < |xs| ==> xs[j].JObj?
    ensures var o := GetPublisherPresetById(presetId, Resp(200, "", Some(JArr(xs))), exc);
            (o.status == 404 <==> forall j :: 0 <= j < |xs| ==> !PresetMatches(xs[j], presetId)) &&
            (o.status == 200 <==> exists j :: 0 <= j < |xs| && PresetMatches(xs[j], presetId))
  {
    var r := PyNext(xs, PresetTest(presetId));
    if r.Miss? {
      forall j | 0 <= j < |xs| ensures !PresetMatches(xs[j], presetId) {
        assert PresetTest(presetId)(xs[j]) == Some(false);
      }
    }
  }

  /** `delete_publisher_preset`. */
  function DeletePublisherPreset(res: Option<Resp>, exc: string): (o: Outcome)
    ensures res.Some? ==> o == Reply(res.value.status, MessageBody("Preset supprimé"))
    ensures res.None? ==> o == Reply(500, ErrorBody(DeleteError + exc))
  {
    GuardedFixedReply(res, MessageBody("Preset supprimé"), DeleteError, exc)
  }
}
