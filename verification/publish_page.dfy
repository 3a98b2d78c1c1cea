/** The products list of the publishing page: how a delete reply is read
    (including the upstream's habit of answering 401 with a success
    message), the two selection toggles, and the title search. */
module PublishPage {
  import opened Wrappers
  import opened Text
  import opened JsonData
  import opened Lists
  import opened ApiClient

  // ---------------------------------------------------------------------
  // Delete
  // ---------------------------------------------------------------------

  /** A JavaScript error as the `catch` block sees it: the `response` and
      `request` members it tests, and its message. */
  datatype JsError = JsError(response: Option<(int, Json)>, request: bool, message: string)

  /** What reached `handleDeleteFromList`: a reply (status and body), or an
      error the client raised without one — a connection failure after the
      retry, or a request that never left. */
  datatype DeleteReply = Arrived(status: int, data: Json) | Lost(request: bool, message: string)

  /** The page's verdict: the list is fetched again, or an alert is shown. */
  datatype Verdict = Deleted | Alert(text: string)

  /** The `try` block's end: it returns normally, or throws. */
  datatype Attempt = Done | Threw(error: JsError)

  const ProductDeleted := "Product deleted"

  /** `x.data?.message === 'Product deleted'`. */
  predicate SaysDeleted(data: Json) {
    Field(data, "message") == Some(JStr(ProductDeleted))
  }

  /** The `try` block on a resolved reply: 401 with the success message, or
      any 2xx, counts as deleted; anything else throws `Unexpected response`. */
  function ResolvedDelete(status: int, data: Json): (r: Attempt)
    ensures r.Done? <==> (status == 401 && SaysDeleted(data)) || 200 <= status < 300
    ensures r.Threw? ==> r.error.response.None? && !r.error.request &&
                           r.error.message == "Unexpected response: " + IntToString(status) + " - " +
                                              JsString(JsOr(Field(data, "message"), JStr("Unknown error")))
  {
    if status == 401 && SaysDeleted(data) then Done
    else if 200 <= status < 300 then Done
    else Threw(JsError(None, false, "Unexpected response: " + IntToString(status) + " - " +
                                      JsString(JsOr(Field(data, "message"), JStr("Unknown error")))))
  }

  /** The `catch` block: an error carrying a 401 reply with the success
      message still counts as deleted; otherwise the alert depends on which
      members the error has. */
  function CaughtDelete(e: JsError): (v: Verdict)
    ensures v.Deleted? <==> e.response.Some? && e.response.value.0 == 401 && SaysDeleted(e.response.value.1)
    ensures e.response.None? && e.request ==>
              v == Alert("No response received from server. Please check your connection.")
    ensures e.response.None? && !e.request ==> v == Alert("Error: " + e.message)
  {
    match e.response
    case Some((status, data)) =>
      if status == 401 && SaysDeleted(data) then Deleted
      else
        var shown := JsString(JsOr(Field(data, "error"), JsOr(Field(data, "message"), JStr("Unknown error occurred"))));
        Alert("Failed to delete product: " + shown)
    case None =>
      if e.request then Alert("No response received from server. Please check your connection.")
      else Alert("Error: " + e.message)
  }

  /** `handleDeleteFromList` after the confirmation: the reply first goes
      through the client's status check and interceptor. */
  function HandleDelete(reply: DeleteReply): (v: Verdict)
    ensures reply.Arrived? ==>
              (v.Deleted? <==> (reply.status == 401 && SaysDeleted(reply.data)) || 200 <= reply.status < 300)
    ensures reply.Lost? ==> v.Alert?
  {
    match reply
    case Lost(request, message) => CaughtDelete(JsError(None, request, message))
    case Arrived(status, data) =>
      match Settle(status, data)
      case Rejected(message) => CaughtDelete(JsError(None, false, message))
      case Resolved(d) =>
        match ResolvedDelete(status, d)
        case Done => Deleted
        case Threw(e) => CaughtDelete(e)
  }

  /** The second 401 rule, in the `catch` block, is never what decides:
      every error that reaches it lacks a `response`, because the client's
      interceptor replaces each rejected reply by a plain `Error`. The
      verdict is the same as with that rule deleted. */
  lemma CatchRuleNeverFires(reply: DeleteReply)
    ensures var v := HandleDelete(reply);
            v.Deleted? <==> reply.Arrived? && ResolvedDelete(reply.status, reply.data).Done?
  {
  }

  /** A 5xx reply is shown with the interceptor's text, never as "Failed to
      delete product". */
  lemma ServerErrorShowsInterceptorText(status: int, data: Json)
    requires 500 <= status
    ensures HandleDelete(Arrived(status, data)) == Alert("Error: " + Settle(status, data).message)
  {
  }

  /** A 3xx or 4xx reply (other than the 401 success) is resolved by the
      client, so it is shown as an unexpected response, never as "Failed to
      delete product". */
  lemma ClientErrorIsUnexpected(status: int, data: Json)
    requires 300 <= status < 500 && !(status == 401 && SaysDeleted(data))
    ensures HandleDelete(Arrived(status, data)) ==
            Alert("Error: " + ResolvedDelete(status, data).error.message)
  {
    assert Settle(status, data) == Resolved(data);
  }

  // ---------------------------------------------------------------------
  // Selection toggles and search
  // ---------------------------------------------------------------------

  /** `handleReportItemToggle` and `handlePresetToggle`. */
  function ToggleSelection<T(==,!new)>(selected: seq<T>, id: T): (r: seq<T>)
    ensures id in r <==> id !in selected
    ensures forall y :: y != id ==> (y in r <==> y in selected)
    ensures id !in selected ==> r == selected + [id]
  {
    Toggle(selected, id)
  }

  lemma ToggleSelectionTwice<T(!new)>(selected: seq<T>, id: T)
    requires id !in selected
    ensures ToggleSelection(ToggleSelection(selected, id), id) == selected
  {
    ToggleTwiceAbsent(selected, id);
  }

  datatype Product = Product(id: int, title: string)

  function TitleMatches(search: string): Product -> bool {
    (p: Product) => Contains(Lower(p.title), Lower(search))
  }

  /** `filteredItems`: the products whose lower-cased title contains the
      lower-cased query, in list order. */
  function Search(items: seq<Product>, search: string): (r: seq<Product>)
    ensures forall p :: p in r <==> p in items && Contains(Lower(p.title), Lower(search))
    ensures |r| <= |items|
  {
    Filter(items, TitleMatches(search))
  }

  /** The matches keep the list order: searching `xs + ys` gives the
      matches in `xs` and then those in `ys`. */
  lemma SearchAppend(xs: seq<Product>, ys: seq<Product>, search: string)
    ensures Search(xs + ys, search) == Search(xs, search) + Search(ys, search)
  {
    FilterAppend(xs, ys, TitleMatches(search));
  }

  /** A single product is kept exactly when its title contains the query,
      both lower-cased. */
  lemma SearchOfOne(p: Product, search: string)
    ensures Search([p], search) == if Contains(Lower(p.title), Lower(search)) then [p] else []
  {
    FilterSingle(p, TitleMatches(search));
  }

  /** An empty query keeps every product. */
  lemma EmptySearchKeepsAll(items: seq<Product>)
    ensures Search(items, "") == items
  {
    forall p | p in items ensures TitleMatches("")(p) {
      assert Lower("") <= Lower(p.title)[0..];
    }
    FilterAll(items, TitleMatches(""));
  }

  /** The search ignores the case of the query. */
  lemma SearchIgnoresQueryCase(items: seq<Product>, search: string)
    ensures Search(items, Upper(search)) == Search(items, search)
  {
    LowerUpper(search);
    assert TitleMatches(Upper(search)) == TitleMatches(search);
  }
}
