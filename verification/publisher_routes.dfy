/** The product routes of the front-end server: the fixed product listing
    query, and the translation of upstream write replies whose body may be
    blank or not JSON at all. */
module PublisherRoutes {
  import opened Wrappers
  import opened Text
  import opened JsonData
  import opened Upstream

  /** The query the product listing always sends. */
  const ProductsQuery := "search=&range=ALL&sort=DATE_DESC&offset=0&limit=20"

  const AuthFailed := "Authentication failed. Please check credentials."

  /** An outgoing request (path below the API root, query string included)
      and the reply the route gave. */
  datatype Call = Call(url: string, out: Outcome)

  /** `get_products`: the caller's query arguments are not read. */
  function GetProducts(args: map<string, string>, res: Resp): (c: Call)
    ensures c.url == "/publish/products?" + ProductsQuery
    ensures c.out == Relay(res)
  {
    Call("/publish/products?" + ProductsQuery, Relay(res))
  }

  /** Whatever the caller asks for, the same listing is requested. */
  lemma ProductsQueryIgnoresArgs(a1: map<string, string>, a2: map<string, string>, res: Resp)
    ensures GetProducts(a1, res) == GetProducts(a2, res)
  {
  }

  /** `post_general_product`: a non-blank reply is relayed, a blank one gets
      a default message, and any exception (the request failing, `res` being
      `None`, or a non-blank body that is not JSON) becomes 500. */
  function PostGeneralProduct(res: Option<Resp>, exc: string): (o: Outcome)
    ensures o.Reply?
    ensures res.None? ==> o == Reply(500, ErrorBody(exc))
    ensures res.Some? && Strip(res.value.text) == "" ==>
              o == Reply(res.value.status, MessageBody("Produit publié avec succès."))
    ensures res.Some? && Strip(res.value.text) != "" ==>
              (res.value.body.Some? ==> o == Reply(res.value.status, res.value.body.value)) &&
              (res.value.body.None? ==> o == Reply(500, ErrorBody(exc)))
  {
    assert "" + exc == exc;
    match res
    case None => Guarded(Crash, "", exc)
    case Some(r) =>
      if Strip(r.text) != "" then Guarded(Relay(r), "", exc)
      else Reply(r.status, MessageBody("Produit publié avec succès."))
  }

  /** `r.text[:200] if r.text else "Empty response"`. */
  function RawResponse(text: string): (r: string)
    ensures |text| > 0 ==> |r| <= 200 && r <= text
    ensures |text| > 0 && |text| <= 200 ==> r == text
    ensures |text| == 0 ==> r == "Empty response"
  {
    if |text| > 0 then text[..if |text| < 200 then |text| else 200] else "Empty response"
  }

  /** The 500 body of a reply that could not be parsed. */
  function InvalidResponseBody(r: Resp): (b: Json)
    ensures b.JObj? && b.fields.Keys == {"error", "status_code", "raw_response"}
    ensures b.fields["status_code"] == JInt(r.status)
    ensures b.fields["raw_response"] == JStr(RawResponse(r.text))
  {
    JObj(map["error" := JStr("Invalid response from Taranis API"), "status_code" := JInt(r.status),
             "raw_response" := JStr(RawResponse(r.text))])
  }

  /** The shared translation of `update_product` and
      `publish_product_with_preset`: an upstream 401 is answered with a fixed
      authentication error, whatever its body; otherwise a blank reply gets
      `success`, a JSON reply is relayed, and anything else becomes 500
      carrying the upstream status and the start of its text. */
  function TranslateWrite(r: Resp, success: Json): (o: Outcome)
    ensures o.Reply?
    ensures r.status == 401 <==> o == Reply(401, ErrorBody(AuthFailed))
    ensures r.status != 401 && Strip(r.text) == "" ==> o == Reply(r.status, success)
    ensures r.status != 401 && Strip(r.text) != "" && r.body.Some? ==> o == Reply(r.status, r.body.value)
    ensures r.status != 401 && Strip(r.text) != "" && r.body.None? ==> o == Reply(500, InvalidResponseBody(r))
  {
    if r.status == 401 then Reply(401, ErrorBody(AuthFailed))
    else if Strip(r.text) != "" then
      match r.body
      case Some(b) => Reply(r.status, b)
      case None => Reply(500, InvalidResponseBody(r))
    else Reply(r.status, success)
  }

  /** The 500 answer always quotes the upstream text: it is only given for
      a non-blank text, so the `"Empty response"` fallback is never taken
      and the quote is the first 200 characters. */
  lemma InvalidResponseQuotesText(r: Resp, success: Json)
    requires r.status != 401 && Strip(r.text) != "" && r.body.None?
    ensures TranslateWrite(r, success).body.fields["raw_response"]
            == JStr(r.text[..if |r.text| < 200 then |r.text| else 200])
  {
  }

  /** `update_product`. */
  function UpdateProduct(res: Resp): (o: Outcome)
    ensures o.Reply?
    ensures res.status == 401 ==> o == Reply(401, ErrorBody(AuthFailed))
    ensures res.status != 401 && Strip(res.text) == "" ==>
              o.status == res.status && o.body.JObj? && o.body.fields.Keys == {"message", "status"} &&
              o.body.fields["message"] == JStr("Product updated successfully") &&
              o.body.fields["status"] == JStr("success")
    ensures res.status != 401 && Strip(res.text) != "" && res.body.Some? ==> o == Reply(res.status, res.body.value)
    ensures res.status != 401 && Strip(res.text) != "" && res.body.None? ==> o == Reply(500, InvalidResponseBody(res))
  {
    TranslateWrite(res, JObj(map["message" := JStr("Product updated successfully"), "status" := JStr("success")]))
  }

  /** The path the front end calls, and the upstream path it is sent to:
      the `publish` segment becomes `publishers`. */
  function LocalPublishPath(productId: nat, presetId: string): string {
    "/publish/products/" + NatToString(productId) + "/publish/" + presetId
  }

  function UpstreamPublishPath(productId: nat, presetId: string): (p: string)
    ensures p == "/publish/products/" + NatToString(productId) + "/publishers/" + presetId
  {
    "/publish/products/" + NatToString(productId) + "/publishers/" + presetId
  }

  /** The two paths agree on the product and preset and differ only in the
      segment between them. */
  lemma PublishPathRewrite(productId: nat, presetId: string)
    ensures var head := "/publish/products/" + NatToString(productId);
            LocalPublishPath(productId, presetId) == head + "/publish/" + presetId &&
            UpstreamPublishPath(productId, presetId) == head + "/publishers/" + presetId
    ensures LocalPublishPath(productId, presetId) != UpstreamPublishPath(productId, presetId)
  {
    var head := "/publish/products/" + NatToString(productId);
    var local := LocalPublishPath(productId, presetId);
    var up := UpstreamPublishPath(productId, presetId);
    assert local[|head| + 8] == '/';
    assert up[|head| + 8] == 'e';
  }

  /** `publish_product_with_preset`: the same translation, with a default
      message naming the preset. */
  function PublishProductWithPreset(productId: nat, presetId: string, res: Resp): (c: Call)
    ensures c.url == UpstreamPublishPath(productId, presetId)
    ensures c.out.Reply?
    ensures res.status == 401 ==> c.out == Reply(401, ErrorBody(AuthFailed))
    ensures res.status != 401 && Strip(res.text) == "" ==>
              c.out.status == res.status && c.out.body.JObj? && c.out.body.fields.Keys == {"message", "status"} &&
              c.out.body.fields["message"] == JStr("Product published with preset " + presetId) &&
              c.out.body.fields["status"] == JStr("success")
    ensures res.status != 401 && Strip(res.text) != "" && res.body.Some? ==>
              c.out == Reply(res.status, res.body.value)
    ensures res.status != 401 && Strip(res.text) != "" && res.body.None? ==>
              c.out == Reply(500, InvalidResponseBody(res))
  {
    Call(UpstreamPublishPath(productId, presetId),
         TranslateWrite(res, JObj(map["message" := JStr("Product published with preset " + presetId),
                                      "status" := JStr("success")])))
  }

  /** Two writes that differ only in their success record answer alike
      unless the reply is blank and not 401. */
  lemma TranslateWriteAgrees(r: Resp, a: Json, b: Json)
    ensures r.status == 401 || Strip(r.text) != "" ==> TranslateWrite(r, a) == TranslateWrite(r, b)
    ensures a != b && r.status != 401 && Strip(r.text) == "" ==> TranslateWrite(r, a) != TranslateWrite(r, b)
  {
  }

  /** Updating and publishing translate an upstream reply alike, except
      that a blank reply gets a different success message. */
  lemma WritesDifferOnlyWhenBlank(productId: nat, presetId: string, res: Resp)
    ensures res.status == 401 || Strip(res.text) != "" ==>
              UpdateProduct(res) == PublishProductWithPreset(productId, presetId, res).out
    ensures res.status != 401 && Strip(res.text) == "" ==>
              UpdateProduct(res) != PublishProductWithPreset(productId, presetId, res).out
  {
    var updated := "Product updated successfully";
    var published := "Product published with preset " + presetId;
    var a := JObj(map["message" := JStr(updated), "status" := JStr("success")]);
    var b := JObj(map["message" := JStr(published), "status" := JStr("success")]);
    assert updated[8] != published[8];
    assert a.fields["message"] != b.fields["message"];
    TranslateWriteAgrees(res, a, b);
    assert UpdateProduct(res) == TranslateWrite(res, a);
    assert PublishProductWithPreset(productId, presetId, res).out == TranslateWrite(res, b);
  }

  /** `delete_product`: a fixed message with the upstream status. */
  function DeleteProduct(res: Resp): (o: Outcome)
    ensures o == Reply(res.status, MessageBody("Product deleted"))
  {
    FixedReply(res, MessageBody("Product deleted"))
  }
}
