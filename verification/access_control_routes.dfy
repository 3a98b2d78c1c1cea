/** The access-control routes of the gateway: the authorisation headers every
    call carries, the users listing with role and organisation names, and
    the user lookup by integer id. */
module AccessControlRoutes {
  import opened Wrappers
  import opened JsonData
  import opened Upstream

  // ---------------------------------------------------------------------
  // Authorisation headers
  // ---------------------------------------------------------------------

  /** `get_auth_headers`: `token` is the login result, `None` when the login
      failed. The header is built either way, so a failed login still yields
      `"Bearer None"`. */
  function AuthHeaders(token: Option<string>): (h: Json)
    ensures h.JObj? && h.fields.Keys == {"Authorization", "Content-Type"}
    ensures h.fields["Content-Type"] == JStr("application/json")
    ensures token.Some? ==> h.fields["Authorization"] == JStr("Bearer " + token.value)
    ensures token.None? ==> h.fields["Authorization"] == JStr("Bearer None")
  {
    var shown := if token.Some? then token.value else "None";
    assert "Bearer " + "None" == "Bearer None";
    JObj(map["Authorization" := JStr("Bearer " + shown), "Content-Type" := JStr("application/json")])
  }

  /** The headers are never falsy, whatever the login did; a route that
      tests `if not headers` never takes that branch. */
  lemma AuthHeadersAlwaysTruthy(token: Option<string>)
    ensures PyTruthy(AuthHeaders(token))
  {
    assert "Content-Type" in AuthHeaders(token).fields;
  }

  // ---------------------------------------------------------------------
  // Users listing
  // ---------------------------------------------------------------------

  /** `role.get("name")`: raises unless the element is a dict. */
  function NameOf(x: Json): (r: Option<Json>)
    ensures r.Some? <==> x.JObj?
    ensures r.Some? ==> r.value == GetOrNull(x, "name")
  {
    if x.JObj? then Some(GetOrNull(x, "name")) else None
  }

  /** `[x.get("name") for x in user.get(k, [])]`. */
  function NamesOf(user: Json, k: string): (r: Option<Json>)
    requires user.JObj?
    ensures k !in user.fields ==> r == Some(JArr([]))
    ensures k in user.fields && user.fields[k].JArr? ==>
              var xs := user.fields[k].elems;
              (r.Some? <==> forall i :: 0 <= i < |xs| ==> xs[i].JObj?) &&
              (r.Some? ==> r.value.JArr? && |r.value.elems| == |xs| &&
                           forall i :: 0 <= i < |xs| ==> r.value.elems[i] == GetOrNull(xs[i], "name"))
    ensures r.Some? ==> r.value.JArr?
  {
    match PyIter(PyGet(user, k, JArr([])).value)
    case None => None
    case Some(xs) =>
      match PyMap(xs, NameOf)
      case None => None
      case Some(ys) => Some(JArr(ys))
  }

  /** One listed user: id, username, name and tag copied, `roles` and
      `organizations` reduced to their names. */
  function SimplifyUser(user: Json): (r: Option<Json>)
    ensures r.Some? <==> user.JObj? && NamesOf(user, "roles").Some? && NamesOf(user, "organizations").Some?
    ensures r.Some? ==>
              r.value.JObj? &&
              r.value.fields.Keys == {"id", "username", "name", "roles", "organizations", "tag"} &&
              r.value.fields["roles"] == NamesOf(user, "roles").value &&
              r.value.fields["organizations"] == NamesOf(user, "organizations").value &&
              forall k :: k in {"id", "username", "name", "tag"} ==> r.value.fields[k] == GetOrNull(user, k)
  {
    if !user.JObj? then None
    else match (NamesOf(user, "roles"), NamesOf(user, "organizations"))
      case (Some(roles), Some(orgs)) =>
        Some(JObj(map["id" := GetOrNull(user, "id"), "username" := GetOrNull(user, "username"),
                      "name" := GetOrNull(user, "name"), "roles" := roles,
                      "organizations" := orgs, "tag" := GetOrNull(user, "tag")]))
      case _ => None
  }

  /** A user without role or organisation entries lists both as empty. */
  lemma UserWithoutRolesListsNone(user: Json)
    requires user.JObj? && "roles" !in user.fields && "organizations" !in user.fields
    ensures SimplifyUser(user).Some?
    ensures SimplifyUser(user).value.fields["roles"] == JArr([])
    ensures SimplifyUser(user).value.fields["organizations"] == JArr([])
  {
  }

  /** `get_users`: every user simplified in order, the upstream total
      (0 when missing) and status passed on. */
  function GetUsers(res: Resp, exc: string): (o: Outcome)
    ensures o.Reply?
    ensures res.body.None? ==> o == Reply(500, ErrorBody(exc))
    ensures UpstreamItems(res).Some? && (forall i :: 0 <= i < |UpstreamItems(res).value| ==> SimplifyUser(UpstreamItems(res).value[i]).Some?) ==>
              var xs := UpstreamItems(res).value;
              o.status == res.status &&
              o.body.JObj? && o.body.fields.Keys == {"total_count", "items"} &&
              o.body.fields["total_count"] == UpstreamTotal(res) &&
              |ListedItems(o)| == |xs| &&
              forall i :: 0 <= i < |xs| ==>
                ListedItems(o)[i] == SimplifyUser(xs[i]).value &&
                ListedItems(o)[i].fields.Keys == {"id", "username", "name", "roles", "organizations", "tag"} &&
                (forall k :: k in {"id", "username", "name", "tag"} ==> ListedItems(o)[i].fields[k] == GetOrNull(xs[i], k)) &&
                ListedItems(o)[i].fields["roles"] == NamesOf(xs[i], "roles").value &&
                ListedItems(o)[i].fields["organizations"] == NamesOf(xs[i], "organizations").value
    ensures UpstreamItems(res).Some? && (exists i :: 0 <= i < |UpstreamItems(res).value| && SimplifyUser(UpstreamItems(res).value[i]).None?) ==>
              o == Reply(500, ErrorBody(exc))
  {
    assert "" + exc == exc;
    SimplifiedListing(res, SimplifyUser, "", exc)
  }

  /** The listing keeps the upstream order: listing `xs + ys` lists the
      entries of `xs` and then those of `ys`. */
  lemma GetUsersKeepsOrder(status: int, text: string, xs: seq<Json>, ys: seq<Json>, exc: string)
    requires forall i :: 0 <= i < |xs| ==> SimplifyUser(xs[i]).Some?
    requires forall i :: 0 <= i < |ys| ==> SimplifyUser(ys[i]).Some?
    ensures ListedItems(GetUsers(Resp(status, text, Some(Envelope(xs + ys))), exc)) ==
            ListedItems(GetUsers(Resp(status, text, Some(Envelope(xs))), exc)) +
            ListedItems(GetUsers(Resp(status, text, Some(Envelope(ys))), exc))
  {
    var zs := xs + ys;
    var rz, rx, ry := Resp(status, text, Some(Envelope(zs))), Resp(status, text, Some(Envelope(xs))), Resp(status, text, Some(Envelope(ys)));
    assert GetUsers(rz, exc) == SimplifiedListing(rz, SimplifyUser, "", exc);
    assert GetUsers(rx, exc) == SimplifiedListing(rx, SimplifyUser, "", exc);
    assert GetUsers(ry, exc) == SimplifiedListing(ry, SimplifyUser, "", exc);
    ListingKeepsOrder(status, text, xs, ys, SimplifyUser, "", exc);
  }

  // ---------------------------------------------------------------------
  // User lookup
  // ---------------------------------------------------------------------

  /** `u.get("id") == user_id`, with Python's `True == 1`; raises unless the
      element is a dict. */
  function UserTest(userId: nat): Json -> Option<bool> {
    (x: Json) => if x.JObj? then Some(PyEqInt(GetOrNull(x, "id"), userId)) else None
  }

  predicate UserMatches(x: Json, userId: nat) {
    x.JObj? && "id" in x.fields && PyEqInt(x.fields["id"], userId)
  }

  function UserLookup(userId: nat, res: Resp): Outcome {
    match res.body
    case None => Crash
    case Some(b) =>
      match PyGet(b, "items", JArr([]))
      case None => Crash
      case Some(users) =>
        match PyScan(users, UserTest(userId))
        case Raised => Crash
        case Miss => Reply(404, ErrorBody("User not found"))
        case Hit(i) =>
          var user := PyIter(users).value[i];
          if PyTruthy(user) then Reply(200, user) else Reply(404, ErrorBody("User not found"))
  }

  /** `get_user_by_id`: the user is returned whole, not projected. The
      upstream status is never looked at. */
  function GetUserById(userId: nat, res: Resp, exc: string): (o: Outcome)
    ensures o.Reply?
    ensures o.status != 500 ==> res.body.Some? && res.body.value.JObj?
    ensures o.status == 200 ==>
              var xs := UpstreamItems(res);
              xs.Some? && exists i :: 0 <= i < |xs.value| && o.body == xs.value[i] && UserMatches(xs.value[i], userId) &&
                                       forall j :: 0 <= j < i ==> xs.value[j].JObj? && !UserMatches(xs.value[j], userId)
    ensures res.body.Some? && res.body.value.JObj? && "items" !in res.body.value.fields ==> o == Reply(404, ErrorBody("User not found"))
  {
    Guarded(UserLookup(userId, res), "", exc)
  }

  /** Over a list of dicts, the lookup answers 404 exactly when no id
      matches and 200 otherwise, whatever the upstream status. */
  lemma UserLookupHitIffMatch(userId: nat, status: int, xs: seq<Json>, exc: string)
    requires forall j :: 0 <= j < |xs| ==> xs[j].JObj?
    ensures var o := GetUserById(userId, Resp(status, "", Some(JObj(map["items" := JArr(xs)]))), exc);
            (o.status == 404 <==> forall j :: 0 <= j < |xs| ==> !UserMatches(xs[j], userId)) &&
            (o.status == 200 <==> exists j :: 0 <= j < |xs| && UserMatches(xs[j], userId))
  {
    var r := PyNext(xs, UserTest(userId));
    if r.Hit? {
      assert "id" in xs[r.index].fields;
    } else if r.Miss? {
      forall j | 0 <= j < |xs| ensures !UserMatches(xs[j], userId) {
        assert UserTest(userId)(xs[j]) == Some(false);
      }
    }
  }

  /** The lookup reads the body only: two replies with the same body give
      the same answer whatever their statuses. */
  lemma UserLookupIgnoresStatus(userId: nat, r1: Resp, r2: Resp, exc: string)
    requires r1.body == r2.body
    ensures GetUserById(userId, r1, exc) == GetUserById(userId, r2, exc)
  {
  }
}
