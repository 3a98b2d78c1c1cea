/** The report-item-type routes of the gateway that reshape a reply: the
    simplified listing and the delete confirmation. */
module ContentRoutes {
  import opened JsonData
  import opened Wrappers
  import opened Upstream

  const ListingError := "Erreur get report-item-types-simple : "
  const DeleteError := "Erreur DELETE report-item-type : "

  /** One listed report-item type: exactly `id`, `title`, `description`,
      `subtitle` and `tag`, each `null` when absent; raises on a non-dict. */
  function SimplifyReportItemType(item: Json): (r: Option<Json>)
    ensures r.Some? <==> item.JObj?
    ensures r.Some? ==> r.value.JObj? && r.value.fields.Keys == {"id", "title", "description", "subtitle", "tag"}
    ensures r.Some? ==> forall k :: k in r.value.fields ==> r.value.fields[k] == GetOrNull(item, k)
  {
    if !item.JObj? then None
    else Some(JObj(map["id" := GetOrNull(item, "id"), "title" := GetOrNull(item, "title"),
                       "description" := GetOrNull(item, "description"),
                       "subtitle" := GetOrNull(item, "subtitle"), "tag" := GetOrNull(item, "tag")]))
  }

  /** `get_report_item_types_simple`: every type simplified in order, the
      upstream total (0 when missing) and status passed on. */
  function GetReportItemTypesSimple(res: Resp, exc: string): (o: Outcome)
    ensures o.Reply?
    ensures res.body.None? ==> o == Reply(500, ErrorBody(ListingError + exc))
    ensures UpstreamItems(res).Some? && (forall i :: 0 <= i < |UpstreamItems(res).value| ==> UpstreamItems(res).value[i].JObj?) ==>
              var xs := UpstreamItems(res).value;
              o.status == res.status &&
              o.body.JObj? && o.body.fields.Keys == {"total_count", "items"} &&
              o.body.fields["total_count"] == UpstreamTotal(res) &&
              |ListedItems(o)| == |xs| &&
              forall i :: 0 <= i < |xs| ==>
                ListedItems(o)[i] == SimplifyReportItemType(xs[i]).value &&
                ListedItems(o)[i].fields.Keys == {"id", "title", "description", "subtitle", "tag"} &&
                forall k :: k in ListedItems(o)[i].fields ==> ListedItems(o)[i].fields[k] == GetOrNull(xs[i], k)
    ensures UpstreamItems(res).Some? && (exists i :: 0 <= i < |UpstreamItems(res).value| && !UpstreamItems(res).value[i].JObj?) ==>
              o == Reply(500, ErrorBody(ListingError + exc))
  {
    SimplifiedListing(res, SimplifyReportItemType, ListingError, exc)
  }

  /** The listing keeps the upstream order: listing `xs + ys` lists the
      entries of `xs` and then those of `ys`. */
  lemma ReportItemTypesKeepOrder(status: int, text: string, xs: seq<Json>, ys: seq<Json>, exc: string)
    requires forall i :: 0 <= i < |xs| ==> xs[i].JObj?
    requires forall i :: 0 <= i < |ys| ==> ys[i].JObj?
    ensures ListedItems(GetReportItemTypesSimple(Resp(status, text, Some(Envelope(xs + ys))), exc)) ==
            ListedItems(GetReportItemTypesSimple(Resp(status, text, Some(Envelope(xs))), exc)) +
            ListedItems(GetReportItemTypesSimple(Resp(status, text, Some(Envelope(ys))), exc))
  {
    var zs := xs + ys;
    var rz, rx, ry := Resp(status, text, Some(Envelope(zs))), Resp(status, text, Some(Envelope(xs))), Resp(status, text, Some(Envelope(ys)));
    assert GetReportItemTypesSimple(rz, exc) == SimplifiedListing(rz, SimplifyReportItemType, ListingError, exc);
    assert GetReportItemTypesSimple(rx, exc) == SimplifiedListing(rx, SimplifyReportItemType, ListingError, exc);
    assert GetReportItemTypesSimple(ry, exc) == SimplifiedListing(ry, SimplifyReportItemType, ListingError, exc);
    ListingKeepsOrder(status, text, xs, ys, SimplifyReportItemType, ListingError, exc);
  }

  /** An envelope without `items` or `total_count` lists nothing with a
      total of 0. */
  lemma EmptyEnvelopeListsNothing(status: int, text: string, exc: string)
    ensures GetReportItemTypesSimple(Resp(status, text, Some(JObj(map[]))), exc)
            == Reply(status, JObj(map["total_count" := JInt(0), "items" := JArr([])]))
  {
    var o := GetReportItemTypesSimple(Resp(status, text, Some(JObj(map[]))), exc);
    assert o.body.fields["items"] == JArr([]);
  }

  /** `delete_report_item_type`: a fixed success message with the upstream
      status, even when that status reports a failure. */
  function DeleteReportItemType(res: Option<Resp>, exc: string): (o: Outcome)
    ensures res.Some? ==> o == Reply(res.value.status, MessageBody("Supprimé avec succès"))
    ensures res.None? ==> o == Reply(500, ErrorBody(DeleteError + exc))
  {
    GuardedFixedReply(res, MessageBody("Supprimé avec succès"), DeleteError, exc)
  }
}
