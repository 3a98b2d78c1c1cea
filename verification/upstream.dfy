/** The gateway's view of the upstream threat-intelligence API, and what a
    Flask route hands back to its caller.

    Every HTTP call a route makes is replaced by a `Resp` parameter: the
    status code, the raw text and the parsed body (`None` when `res.json()`
    would raise). A route either replies, or raises an exception it does not
    catch (`Crash`), which Flask turns into its own error page. */
module Upstream {
  import opened Wrappers
  import opened JsonData

  datatype Resp = Resp(status: int, text: string, body: Option<Json>)

  datatype Outcome = Reply(status: int, body: Json) | Crash

  /** A route that writes upstream: the payload it sent (`None` when it
      failed before sending) and what it answered. */
  datatype Exchange = Exchange(sent: Option<Json>, out: Outcome)

  /** `{"error": msg}`. */
  function ErrorBody(msg: string): (b: Json)
    ensures b.JObj? && b.fields.Keys == {"error"} && b.fields["error"] == JStr(msg)
  {
    JObj(map["error" := JStr(msg)])
  }

  /** `{"message": msg}`. */
  function MessageBody(msg: string): (b: Json)
    ensures b.JObj? && b.fields.Keys == {"message"} && b.fields["message"] == JStr(msg)
  {
    JObj(map["message" := JStr(msg)])
  }

  /** `return jsonify(res.json()), res.status_code`: the upstream body and
      status are passed through; an unparsable body raises. */
  function Relay(r: Resp): (o: Outcome)
    ensures o.Reply? <==> r.body.Some?
    ensures o.Reply? ==> o.status == r.status && o.body == r.body.value
  {
    match r.body
    case Some(b) => Reply(r.status, b)
    case None => Crash
  }

  /** A route body wrapped in `try: ... except Exception as e: return
      jsonify({"error": prefix + str(e)}), 500`. The text of the exception
      is a parameter, since messages are not part of the model. */
  function Guarded(o: Outcome, prefix: string, exc: string): (g: Outcome)
    ensures g.Reply?
    ensures o.Reply? ==> g == o
    ensures o.Crash? ==> g == Reply(500, ErrorBody(prefix + exc))
  {
    match o
    case Reply(_, _) => o
    case Crash => Reply(500, ErrorBody(prefix + exc))
  }

  /** The delete translation: upstream 204 becomes 200 with a fixed message,
      every other status (200 included) is passed on with a fixed error. */
  function DeleteReply(r: Resp, done: string, failed: string): (o: Outcome)
    ensures r.status == 204 <==> o == Reply(200, MessageBody(done))
    ensures r.status != 204 ==> o == Reply(r.status, ErrorBody(failed))
  {
    if r.status == 204 then Reply(200, MessageBody(done))
    else Reply(r.status, ErrorBody(failed))
  }

  /** Result of a Python generator scan
      `next((x for x in xs if test(x)), None)`. */
  datatype Scan = Hit(index: nat) | Miss | Raised

  /** Elements are examined in order, lazily: the scan stops at the first
      element whose test is true, so elements after it are never looked at.
      A test is `None` when evaluating it raises. */
  function PyNext(xs: seq<Json>, test: Json -> Option<bool>): (r: Scan)
    ensures r.Hit? ==> r.index < |xs| && test(xs[r.index]) == Some(true)
    ensures r.Hit? ==> forall j :: 0 <= j < r.index ==> test(xs[j]) == Some(false)
    ensures r.Miss? <==> forall j :: 0 <= j < |xs| ==> test(xs[j]) == Some(false)
    ensures r.Raised? ==> exists i :: 0 <= i < |xs| && test(xs[i]).None? &&
                                      forall j :: 0 <= j < i ==> test(xs[j]) == Some(false)
    decreases |xs|
  {
    if |xs| == 0 then Miss
    else match test(xs[0])
      case None => Raised
      case Some(true) => Hit(0)
      case Some(false) =>
        match PyNext(xs[1..], test)
        case Hit(i) => Hit(i + 1)
        case Miss => Miss
        case Raised => Raised
  }

  /** Laziness: once a prefix contains a match, nothing appended after it
      (even an element whose test raises) changes the result. */
  lemma {:induction false} PyNextStopsAtMatch(xs: seq<Json>, ys: seq<Json>, test: Json -> Option<bool>)
    requires PyNext(xs, test).Hit?
    ensures PyNext(xs + ys, test) == PyNext(xs, test)
    decreases |xs|
  {
    if test(xs[0]) != Some(true) {
      assert (xs + ys)[1..] == xs[1..] + ys;
      PyNextStopsAtMatch(xs[1..], ys, test);
    }
  }

  /** A scan over a sequence of strings whose test treats every string the
      same gives the same result for any other strings of the same number. */
  lemma {:induction false} PyNextOnStrings(xs: seq<Json>, ys: seq<Json>, test: Json -> Option<bool>)
    requires |xs| == |ys|
    requires forall i :: 0 <= i < |xs| ==> xs[i].JStr? && ys[i].JStr?
    requires forall s: string, t: string :: test(JStr(s)) == test(JStr(t))
    ensures PyNext(xs, test) == PyNext(ys, test)
    decreases |xs|
  {
    if |xs| > 0 {
      assert test(xs[0]) == test(ys[0]);
      PyNextOnStrings(xs[1..], ys[1..], test);
    }
  }

  /** `for x in v` followed by a scan: a value that is not iterable raises. */
  function PyScan(v: Json, test: Json -> Option<bool>): (r: Scan)
    ensures v.JArr? ==> r == PyNext(v.elems, test)
    ensures v.JNull? || v.JBool? || v.JInt? ==> r == Raised
  {
    match PyIter(v)
    case None => Raised
    case Some(xs) => PyNext(xs, test)
  }

  /** The element a successful scan found. */
  function Found(v: Json, r: Scan): Json
    requires PyIter(v).Some? && r.Hit? && r.index < |PyIter(v).value|
  {
    PyIter(v).value[r.index]
  }

  // ---------------------------------------------------------------------
  // Simplified listings
  // ---------------------------------------------------------------------

  /** A list comprehension `[f(x) for x in xs]`: `None` when evaluating `f`
      raises on some element. */
  function PyMap(xs: seq<Json>, f: Json -> Option<Json>): (r: Option<seq<Json>>)
    ensures r.Some? <==> forall i :: 0 <= i < |xs| ==> f(xs[i]).Some?
    ensures r.Some? ==> |r.value| == |xs| && forall i :: 0 <= i < |xs| ==> r.value[i] == f(xs[i]).value
    decreases |xs|
  {
    if |xs| == 0 then Some([])
    else match f(xs[0])
      case None => None
      case Some(y) =>
        match PyMap(xs[1..], f)
        case None => None
        case Some(ys) =>
          assert forall i :: 1 <= i < |xs| ==> xs[i] == xs[1..][i - 1];
          Some([y] + ys)
  }

  /** The common body of the simplified listings: the reply's `items`
      (missing means empty) are mapped through `project`, `total_count`
      defaults to 0, and the upstream status is passed on. The listing sits
      in a `try` whose handler answers 500 with `prefix + exc`. */
  function SimplifiedListing(res: Resp, project: Json -> Option<Json>, prefix: string, exc: string): (o: Outcome)
    ensures o.Reply?
    ensures res.body.None? ==> o == Reply(500, ErrorBody(prefix + exc))
    ensures UpstreamItems(res).Some? ==>
              var xs := UpstreamItems(res).value;
              (forall i :: 0 <= i < |xs| ==> project(xs[i]).Some?) ==>
                o.status == res.status && o.body.JObj? && o.body.fields.Keys == {"total_count", "items"} &&
                o.body.fields["total_count"] == UpstreamTotal(res) &&
                |ListedItems(o)| == |xs| &&
                forall i :: 0 <= i < |xs| ==> ListedItems(o)[i] == project(xs[i]).value
    ensures UpstreamItems(res).Some? ==>
              var xs := UpstreamItems(res).value;
              (exists i :: 0 <= i < |xs| && project(xs[i]).None?) ==> o == Reply(500, ErrorBody(prefix + exc))
  {
    Guarded(ListingBody(res, project), prefix, exc)
  }

  function ListingBody(res: Resp, project: Json -> Option<Json>): Outcome {
    match res.body
    case None => Crash
    case Some(full) =>
      match PyGet(full, "items", JArr([]))
      case None => Crash
      case Some(items) =>
        match PyIter(items)
        case None => Crash
        case Some(xs) =>
          match PyMap(xs, project)
          case None => Crash
          case Some(ys) =>
            var total := PyGet(full, "total_count", JInt(0)).value;
            Reply(res.status, JObj(map["total_count" := total, "items" := JArr(ys)]))
  }

  /** `x.get(k)` on a dict: the member, or `None` (JSON `null`). */
  function GetOrNull(x: Json, k: string): (r: Json)
    requires x.JObj?
    ensures k in x.fields ==> r == x.fields[k]
    ensures k !in x.fields ==> r == JNull
  {
    if k in x.fields then x.fields[k] else JNull
  }

  /** `data["id"] = id` followed by a PUT or POST of `data`: the payload
      forwarded always carries `id`, whatever `id` the caller sent, and its
      other members are the caller's. */
  function ForceId(data: Json, id: Json, res: Resp): (e: Exchange)
    ensures e.sent.Some? <==> data.JObj?
    ensures e.sent.None? ==> e.out.Crash?
    ensures e.sent.Some? ==> e.sent.value.JObj? && e.sent.value.fields.Keys == data.fields.Keys + {"id"}
    ensures e.sent.Some? ==> e.sent.value.fields["id"] == id
    ensures e.sent.Some? ==> forall k :: k in data.fields && k != "id" ==> e.sent.value.fields[k] == data.fields[k]
    ensures e.sent.Some? ==> e.out == Relay(res)
  {
    match PySet(data, "id", id)
    case None => Exchange(None, Crash)
    case Some(d) => Exchange(Some(d), Relay(res))
  }

  /** A reply with a fixed body and the upstream status, whatever that
      status is (`jsonify({...}), res.status_code` without reading the
      upstream body). */
  function FixedReply(r: Resp, body: Json): (o: Outcome)
    ensures o.Reply? && o.status == r.status && o.body == body
  {
    Reply(r.status, body)
  }

  /** Such a reply depends on the upstream status only: neither the text nor
      the body of the upstream reply can change it. */
  lemma FixedReplyIgnoresUpstreamBody(r1: Resp, r2: Resp, body: Json)
    requires r1.status == r2.status
    ensures FixedReply(r1, body) == FixedReply(r2, body)
  {
  }

  /** A delete in a `try`: `res` is `None` when the request itself raised. */
  function GuardedFixedReply(res: Option<Resp>, body: Json, prefix: string, exc: string): (o: Outcome)
    ensures res.Some? ==> o == Reply(res.value.status, body)
    ensures res.None? ==> o == Reply(500, ErrorBody(prefix + exc))
  {
    match res
    case Some(r) => FixedReply(r, body)
    case None => Guarded(Crash, prefix, exc)
  }

  /** The items of a simplified listing's reply, when it has the listing
      shape. */
  function ListedItems(o: Outcome): seq<Json> {
    if o.Reply? && o.body.JObj? && "items" in o.body.fields && o.body.fields["items"].JArr?
    then o.body.fields["items"].elems else []
  }

  /** A listing reply holding only `items`. */
  function Envelope(xs: seq<Json>): (e: Json)
    ensures e.JObj? && e.fields.Keys == {"items"} && e.fields["items"] == JArr(xs)
  {
    JObj(map["items" := JArr(xs)])
  }

  /** A sequence that agrees with `b` and then with `c` position by
      position is their concatenation. */
  lemma ConcatByElements(a: seq<Json>, b: seq<Json>, c: seq<Json>)
    requires |a| == |b| + |c|
    requires forall i :: 0 <= i < |b| ==> a[i] == b[i]
    requires forall i :: 0 <= i < |c| ==> a[|b| + i] == c[i]
    ensures a == b + c
  {
    forall i | 0 <= i < |a| ensures a[i] == (b + c)[i] {
      if i >= |b| {
        assert a[|b| + (i - |b|)] == c[i - |b|];
      }
    }
  }

  /** Mapping a concatenation maps each part. */
  lemma PyMapAppend(xs: seq<Json>, ys: seq<Json>, f: Json -> Option<Json>)
    requires PyMap(xs, f).Some? && PyMap(ys, f).Some?
    ensures PyMap(xs + ys, f) == Some(PyMap(xs, f).value + PyMap(ys, f).value)
  {
    var zs := xs + ys;
    forall i | 0 <= i < |zs| ensures f(zs[i]).Some? {
      if i < |xs| { assert zs[i] == xs[i]; } else { assert zs[i] == ys[i - |xs|]; }
    }
    assert PyMap(zs, f).Some?;
    var a, b, c := PyMap(zs, f).value, PyMap(xs, f).value, PyMap(ys, f).value;
    assert |a| == |b| + |c|;
    forall i | 0 <= i < |b| ensures a[i] == b[i] {
      assert zs[i] == xs[i];
    }
    forall i | 0 <= i < |c| ensures a[|b| + i] == c[i] {
      assert zs[|xs| + i] == ys[i];
    }
    ConcatByElements(a, b, c);
  }

  /** A listing of a reply holding only `items` lists the projected
      items. */
  lemma ListedEnvelope(status: int, text: string, xs: seq<Json>, project: Json -> Option<Json>, prefix: string, exc: string)
    requires forall i :: 0 <= i < |xs| ==> project(xs[i]).Some?
    ensures PyMap(xs, project).Some?
    ensures ListedItems(SimplifiedListing(Resp(status, text, Some(Envelope(xs))), project, prefix, exc)) == PyMap(xs, project).value
  {
    var e := Envelope(xs);
    var r := Resp(status, text, Some(e));
    assert PyGet(e, "items", JArr([])) == Some(JArr(xs));
    assert UpstreamItems(r) == Some(xs);
    assert PyMap(xs, project).Some?;
  }

  /** A listing keeps the upstream order: listing `xs + ys` lists the
      entries of `xs` and then those of `ys`. */
  lemma ListingKeepsOrder(status: int, text: string, xs: seq<Json>, ys: seq<Json>,
                          project: Json -> Option<Json>, prefix: string, exc: string)
    requires forall i :: 0 <= i < |xs| ==> project(xs[i]).Some?
    requires forall i :: 0 <= i < |ys| ==> project(ys[i]).Some?
    ensures ListedItems(SimplifiedListing(Resp(status, text, Some(Envelope(xs + ys))), project, prefix, exc)) ==
            ListedItems(SimplifiedListing(Resp(status, text, Some(Envelope(xs))), project, prefix, exc)) +
            ListedItems(SimplifiedListing(Resp(status, text, Some(Envelope(ys))), project, prefix, exc))
  {
    var zs := xs + ys;
    forall i | 0 <= i < |zs| ensures project(zs[i]).Some? {
      if i >= |xs| { assert zs[i] == ys[i - |xs|]; }
    }
    ListedEnvelope(status, text, xs, project, prefix, exc);
    ListedEnvelope(status, text, ys, project, prefix, exc);
    ListedEnvelope(status, text, zs, project, prefix, exc);
    PyMapAppend(xs, ys, project);
  }

  /** `data.get("total_count", 0)` of a listing reply whose body is a
      dict. */
  function UpstreamTotal(res: Resp): Json
    requires res.body.Some? && res.body.value.JObj?
  {
    var f := res.body.value.fields;
    if "total_count" in f then f["total_count"] else JInt(0)
  }

  /** The upstream `items` of a listing reply whose body is a dict and whose
      `items` (missing means empty) is a list. */
  function UpstreamItems(res: Resp): Option<seq<Json>> {
    if res.body.Some? && res.body.value.JObj? then
      var f := res.body.value.fields;
      if "items" !in f then Some([])
      else if f["items"].JArr? then Some(f["items"].elems) else None
    else None
  }
}
