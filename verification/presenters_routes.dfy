/** The product-type routes of the gateway: lookup by id (ids compared as
    text) with the presenters list added, the case-insensitive title
    uniqueness check on create, the integer id forced on update, and the
    204 translation on delete. None of these routes catches exceptions. */
module PresentersRoutes {
  import opened Wrappers
  import opened Text
  import opened JsonData
  import opened Upstream

  // ---------------------------------------------------------------------
  // Lookup by id
  // ---------------------------------------------------------------------

  /** `str(pt["id"]) == str(type_id)`. A container-valued id is taken never
      to match (its printed form is not part of the model). */
  predicate TypeMatches(x: Json, typeId: string) {
    x.JObj? && "id" in x.fields && PyStr(x.fields["id"]) == Some(typeId)
  }

  /** The scan test: `pt["id"]` raises unless `pt` is a dict with an id. */
  function TypeTest(typeId: string): Json -> Option<bool> {
    (x: Json) => if x.JObj? && "id" in x.fields then Some(TypeMatches(x, typeId)) else None
  }

  /** Ids are compared as text, so the numeric id 5 matches the path "5". */
  lemma NumericIdMatchesItsText(x: Json, n: int)
    requires x.JObj? && "id" in x.fields && x.fields["id"] == JInt(n)
    ensures TypeMatches(x, IntToString(n))
    ensures forall t :: TypeMatches(x, t) ==> t == IntToString(n)
  {
  }

  /** `get_product_type_by_id`: `list` answers the product-type listing and
      `presenters` the presenters listing added to a hit. */
  function GetProductTypeById(typeId: string, list: Resp, presenters: Resp): (o: Outcome)
    ensures list.status != 200 ==> o == Reply(list.status, ErrorBody("Failed to fetch product types"))
    ensures list.status == 200 && list.body.Some? && list.body.value.JObj? && "items" !in list.body.value.fields
            ==> o == Reply(404, ErrorBody("Product type not found"))
    ensures o.Reply? && o.status == 200 ==>
              list.status == 200 && list.body.Some? && list.body.value.JObj? &&
              "items" in list.body.value.fields && presenters.body.Some? &&
              var items := list.body.value.fields["items"];
              PyIter(items).Some? &&
              var xs := PyIter(items).value;
              exists i :: 0 <= i < |xs| && TypeMatches(xs[i], typeId) &&
                (forall j :: 0 <= j < i ==> TypeTest(typeId)(xs[j]) == Some(false)) &&
                o.body.JObj? && o.body.fields == xs[i].fields["available_presenters" := presenters.body.value]
  {
    if list.status != 200 then Reply(list.status, ErrorBody("Failed to fetch product types"))
    else match list.body
      case None => Crash
      case Some(b) =>
        match PyGet(b, "items", JArr([]))
        case None => Crash
        case Some(items) =>
          match PyScan(items, TypeTest(typeId))
          case Raised => Crash
          case Miss => Reply(404, ErrorBody("Product type not found"))
          case Hit(i) =>
            var item := PyIter(items).value[i];
            if !PyTruthy(item) then Reply(404, ErrorBody("Product type not found"))
            else match presenters.body
              case None => Crash
              case Some(p) =>
                match PySet(item, "available_presenters", p)
                case None => Crash
                case Some(enriched) => Reply(200, enriched)
  }

  /** Over a list of dicts that all carry an id, the lookup answers 404
      exactly when no id matches, and 200 otherwise. */
  lemma ProductTypeLookupHitIffMatch(typeId: string, xs: seq<Json>, presenters: Json)
    requires forall j :: 0 <= j < |xs| ==> xs[j].JObj? && "id" in xs[j].fields
    ensures var o := GetProductTypeById(typeId, Resp(200, "", Some(JObj(map["items" := JArr(xs)]))), Resp(200, "", Some(presenters)));
            o.Reply? &&
            (o.status == 404 <==> forall j :: 0 <= j < |xs| ==> !TypeMatches(xs[j], typeId)) &&
            (o.status == 200 <==> exists j :: 0 <= j < |xs| && TypeMatches(xs[j], typeId))
  {
    var r := PyNext(xs, TypeTest(typeId));
    if r.Hit? {
      assert "id" in xs[r.index].fields;
    }
  }

  // ---------------------------------------------------------------------
  // Title uniqueness on create
  // ---------------------------------------------------------------------

  /** Lower-casing a stripped text keeps its non-blank ends and leaves no
      upper-case ASCII letter. */
  lemma LowerStrippedShape(t: string)
    ensures var r := Lower(Strip(t));
            |r| <= |t| && (|r| > 0 ==> !IsSpace(r[0]) && !IsSpace(r[|r| - 1])) &&
            forall i :: 0 <= i < |r| ==> !('A' <= r[i] <= 'Z')
  {
    var s := Strip(t);
    if |s| > 0 {
      LowerCharKeepsSpace(s[0]);
      LowerCharKeepsSpace(s[|s| - 1]);
    }
    LowerLeavesNoCapital(s);
  }

  lemma LowerLeavesNoCapital(s: string)
    ensures forall i :: 0 <= i < |s| ==> !('A' <= Lower(s)[i] <= 'Z')
  {
    forall i | 0 <= i < |s| ensures !('A' <= Lower(s)[i] <= 'Z') {
      assert Lower(s)[i] == LowerChar(s[i]);
    }
  }

  /** `title.strip().lower()`: no surrounding whitespace and no upper-case
      letter is left. */
  function NormalizeTitle(t: string): (r: string)
    ensures |r| <= |t|
    ensures |r| > 0 ==> !IsSpace(r[0]) && !IsSpace(r[|r| - 1])
    ensures forall i :: 0 <= i < |r| ==> !('A' <= r[i] <= 'Z')
  {
    LowerStrippedShape(t);
    Lower(Strip(t))
  }

  /** Normalising a normalised title changes nothing, so the comparison is
      between canonical forms. */
  lemma NormalizeTitleIdempotent(t: string)
    ensures NormalizeTitle(NormalizeTitle(t)) == NormalizeTitle(t)
  {
    var r := NormalizeTitle(t);
    if |r| > 0 {
      NoLeadingSpace(r);
      NoTrailingSpace(StripLeft(r));
    }
    assert Strip(r) == r;
    LowerIdempotent(Strip(t));
  }

  /** The title of the caller's payload, when `data["title"].strip()` can be
      evaluated. */
  function DataTitle(data: Json): (r: Option<string>)
    ensures r.Some? <==> data.JObj? && "title" in data.fields && data.fields["title"].JStr?
    ensures r.Some? ==> r.value == data.fields["title"].s
  {
    if data.JObj? && "title" in data.fields && data.fields["title"].JStr? then Some(data.fields["title"].s)
    else None
  }

  /** An existing entry the uniqueness check looks at: a dict with a title. */
  predicate Titled(x: Json) {
    x.JObj? && "title" in x.fields
  }

  /** An existing entry whose title equals `title` after strip and lower. */
  predicate Conflicts(x: Json, title: string) {
    Titled(x) && x.fields["title"].JStr? && NormalizeTitle(x.fields["title"].s) == NormalizeTitle(title)
  }

  /** The loop body: untitled entries and non-dicts are skipped; comparing
      raises when either title is not a string or the payload has none. */
  function TitleTest(data: Json): Json -> Option<bool> {
    (x: Json) => if !Titled(x) then Some(false)
         else if !x.fields["title"].JStr? then None
         else match DataTitle(data)
           case None => None
           case Some(t) => Some(Conflicts(x, t))
  }

  /** The 409 body. */
  function TitleTakenBody(title: string): Json {
    ErrorBody("Title '" + title + "' already exists.")
  }

  /** `create_product_type`: `existing` answers the product-type listing used
      for the uniqueness check, `res` the POST. */
  function CreateProductType(data: Json, existing: Resp, res: Resp): (e: Exchange)
    ensures existing.status != 200 ==> e == Exchange(Some(data), Relay(res))
    ensures e.sent.Some? ==> e.sent.value == data && e.out == Relay(res)
    ensures e.sent.None? && e.out.Reply? ==>
              existing.status == 200 && DataTitle(data).Some? &&
              e.out == Reply(409, TitleTakenBody(DataTitle(data).value))
    ensures (existing.status == 200 && existing.body.Some? && existing.body.value.JObj? &&
             "items" !in existing.body.value.fields) ==> e == Exchange(Some(data), Relay(res))
  {
    if existing.status != 200 then Exchange(Some(data), Relay(res))
    else match existing.body
      case None => Exchange(None, Crash)
      case Some(b) =>
        match PyGet(b, "items", JArr([]))
        case None => Exchange(None, Crash)
        case Some(items) =>
          match PyScan(items, TitleTest(data))
          case Raised => Exchange(None, Crash)
          case Miss => Exchange(Some(data), Relay(res))
          case Hit(_) =>
            match DataTitle(data)
            case None => Exchange(None, Crash)
            case Some(t) => Exchange(None, Reply(409, TitleTakenBody(t)))
  }

  /** Over a listing whose titled entries all have string titles, a payload
      with a string title is refused (409, nothing posted) exactly when some
      existing title equals it after strip and lower-casing. */
  lemma CreateRefusedIffTitleTaken(data: Json, xs: seq<Json>, res: Resp)
    requires DataTitle(data).Some?
    requires forall j :: 0 <= j < |xs| && Titled(xs[j]) ==> xs[j].fields["title"].JStr?
    ensures var e := CreateProductType(data, Resp(200, "", Some(JObj(map["items" := JArr(xs)]))), res);
            (e.sent.None? <==> exists j :: 0 <= j < |xs| && Conflicts(xs[j], DataTitle(data).value)) &&
            (e.sent.None? ==> e.out == Reply(409, TitleTakenBody(DataTitle(data).value)))
  {
    var t := DataTitle(data).value;
    var test := TitleTest(data);
    var b := JObj(map["items" := JArr(xs)]);
    assert PyGet(b, "items", JArr([])) == Some(JArr(xs));
    forall j | 0 <= j < |xs| ensures test(xs[j]) == Some(Conflicts(xs[j], t)) { }
    var r := PyNext(xs, test);
    assert PyScan(JArr(xs), test) == r;
    assert !r.Raised?;
    var e := CreateProductType(data, Resp(200, "", Some(b)), res);
    if r.Miss? {
      assert e.sent.Some?;
      assert forall j :: 0 <= j < |xs| ==> !Conflicts(xs[j], t);
    } else {
      assert e == Exchange(None, Reply(409, TitleTakenBody(t)));
      assert Conflicts(xs[r.index], t);
    }
  }

  /** The check is case-insensitive: an upper-cased title normalises like
      the original. */
  lemma TitleCheckIgnoresCase(title: string)
    ensures NormalizeTitle(Upper(title)) == NormalizeTitle(title)
  {
    StripUpper(title);
    LowerUpper(Strip(title));
  }

  // ---------------------------------------------------------------------
  // Update and delete
  // ---------------------------------------------------------------------

  /** `update_product_type`: `data['id'] = int(type_id)`. A path id that is
      not a decimal integer raises before anything is sent. */
  function UpdateProductType(typeId: string, data: Json, res: Resp): (e: Exchange)
    ensures PyInt(typeId).None? ==> e == Exchange(None, Crash)
    ensures PyInt(typeId).Some? ==> e == ForceId(data, JInt(PyInt(typeId).value), res)
    ensures e.sent.Some? ==> e.sent.value.fields["id"] == JInt(PyInt(typeId).value)
  {
    match PyInt(typeId)
    case None => Exchange(None, Crash)
    case Some(n) => ForceId(data, JInt(n), res)
  }

  /** The forced id is the integer the path spells. */
  lemma UpdateSendsPathInteger(n: int, data: Json, res: Resp)
    requires data.JObj?
    ensures var e := UpdateProductType(IntToString(n), data, res);
            e.sent.Some? && e.sent.value.fields["id"] == JInt(n)
  {
    PyIntRoundTrip(n);
  }

  /** A path starting with the separator U+001C makes `int()` raise, so
      nothing is sent, although stripping the path would leave a number. */
  lemma UpdateRefusesSeparatorPath(typeId: string, data: Json, res: Resp)
    requires typeId == "\U{1C}5"
    ensures UpdateProductType(typeId, data, res) == Exchange(None, Crash)
    ensures PyInt(Strip(typeId)) == Some(5)
  {
    PyIntKeepsSeparators(typeId);
  }

  /** `delete_product_type`. */
  function DeleteProductType(res: Resp): (o: Outcome)
    ensures res.status == 204 <==> o == Reply(200, MessageBody("Product type deleted"))
    ensures res.status != 204 ==> o == Reply(res.status, ErrorBody("Failed to delete product type"))
  {
    DeleteReply(res, "Product type deleted", "Failed to delete product type")
  }
}
