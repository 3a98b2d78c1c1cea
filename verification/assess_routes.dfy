/** The vulnerability route of the gateway: one large request for every
    news-item aggregate of the vulnerabilities group, answered as
    `{total, items}`. */
module AssessRoutes {
  import opened Wrappers
  import opened JsonData
  import opened Upstream
  import AccessControlRoutes

  const VulnerabilitiesGroupId := "8f63a699-23e1-4568-ad4b-4f495ba24d85"
  const GenericError := "Erreur lors de la récupération des items"
  const AuthError := "Échec d'authentification sur Taranis"

  /** The aggregates of the vulnerabilities group. */
  const AssessPath := "/api/v1/assess/news-item-aggregates-by-group/" + VulnerabilitiesGroupId

  /** An outgoing GET: the path below the API root, the query parameters
      and the timeout in seconds. */
  datatype Request = Request(path: string, params: map<string, Json>, timeout: nat)

  /** What the route did: the request it issued (`None` when it answered
      before issuing one) and its reply. */
  datatype Call = Call(sent: Option<Request>, out: Outcome)

  /** `resp.raise_for_status()` raises for client and server errors only. */
  predicate RaisesForStatus(status: int) {
    400 <= status < 600
  }

  /** The body of the `try`: a reply that `raise_for_status` lets through
      and whose `items` (missing means empty) has a length is answered
      with that length and the items; everything else raises. */
  function AssessBody(res: Resp): (o: Outcome)
    ensures RaisesForStatus(res.status) ==> o.Crash?
    ensures o.Reply? ==>
              o.status == 200 && res.body.Some? &&
              var b := res.body.value;
              b.JObj? &&
              var items := if "items" in b.fields then b.fields["items"] else JArr([]);
              o.body.JObj? && o.body.fields.Keys == {"total", "items"} &&
              o.body.fields["items"] == items && PyLen(items).Some? &&
              o.body.fields["total"] == JInt(PyLen(items).value)
  {
    if RaisesForStatus(res.status) then Crash
    else match res.body
      case None => Crash
      case Some(b) =>
        match PyGet(b, "items", JArr([]))
        case None => Crash
        case Some(items) =>
          match PyLen(items)
          case None => Crash
          case Some(n) => Reply(200, JObj(map["total" := JInt(n), "items" := items]))
  }

  /** `get_vulnerability_assess_items`: `token` is the login result and `res`
      the upstream reply, `None` when the request raised (network failure or
      the 60-second timeout). */
  function GetVulnerabilityAssessItems(token: Option<string>, res: Option<Resp>): (c: Call)
    ensures c.out.Reply?
    ensures c.sent.Some? ==>
              c.sent.value.path == AssessPath &&
              c.sent.value.params == map["limit" := JInt(50000), "range" := JStr("ALL")] &&
              c.sent.value.timeout == 60
    ensures c.out.status == 401 ==> c.sent.None?
    ensures res.None? ==> c.out == Reply(500, ErrorBody(GenericError))
    ensures res.Some? && RaisesForStatus(res.value.status) ==> c.out == Reply(500, ErrorBody(GenericError))
    ensures c.out.status == 200 ==>
              res.Some? && !RaisesForStatus(res.value.status) && res.value.body.Some? &&
              var b := res.value.body.value;
              b.JObj? &&
              var items := if "items" in b.fields then b.fields["items"] else JArr([]);
              c.out.body.JObj? && c.out.body.fields.Keys == {"total", "items"} &&
              c.out.body.fields["items"] == items && PyLen(items).Some? &&
              c.out.body.fields["total"] == JInt(PyLen(items).value)
    ensures c.out.status != 200 ==> c.out == Reply(500, ErrorBody(GenericError)) || c.out.status == 401
  {
    var headers := AccessControlRoutes.AuthHeaders(token);
    if !PyTruthy(headers) then Call(None, Reply(401, ErrorBody(AuthError)))
    else
      var req := Request(AssessPath, map["limit" := JInt(50000), "range" := JStr("ALL")], 60);
      match res
      case None => Call(Some(req), Reply(500, ErrorBody(GenericError)))
      case Some(r) =>
        match AssessBody(r)
        case Crash => Call(Some(req), Reply(500, ErrorBody(GenericError)))
        case Reply(s, b) => Call(Some(req), Reply(s, b))
  }

  /** The authentication branch is dead: the headers are built even when the
      login fails, so the request is always issued and 401 is never
      answered. */
  lemma AuthenticationBranchUnreachable(token: Option<string>, res: Option<Resp>)
    ensures GetVulnerabilityAssessItems(token, res).sent.Some?
    ensures GetVulnerabilityAssessItems(token, res).out.status != 401
  {
    AccessControlRoutes.AuthHeadersAlwaysTruthy(token);
  }

  /** A list of items comes back whole, in order, counted. */
  lemma AssessReturnsItemsCounted(token: Option<string>, status: int, text: string, xs: seq<Json>)
    requires !RaisesForStatus(status)
    ensures GetVulnerabilityAssessItems(token, Some(Resp(status, text, Some(JObj(map["items" := JArr(xs)])))))
            .out == Reply(200, JObj(map["total" := JInt(|xs|), "items" := JArr(xs)]))
  {
    AccessControlRoutes.AuthHeadersAlwaysTruthy(token);
  }

  /** A reply without `items` is `{total: 0, items: []}`. */
  lemma AssessWithoutItemsIsEmpty(token: Option<string>, status: int, text: string)
    requires !RaisesForStatus(status)
    ensures GetVulnerabilityAssessItems(token, Some(Resp(status, text, Some(JObj(map[])))))
            .out == Reply(200, JObj(map["total" := JInt(0), "items" := JArr([])]))
  {
    AccessControlRoutes.AuthHeadersAlwaysTruthy(token);
  }
}
