/** The product edit page: finding the product named by the route among
    all products, the save payload and its fallbacks, publishing (the
    checks, the update, one publish request per preset and the failures
    collected), and the `template_path` parameter value. */
module ProductEdit {
  import opened Wrappers
  import opened Text
  import opened JsonData
  import opened Lists
  import opened Upstream

  /** `String(id)` for the route parameter, `undefined` when missing. */
  function RouteText(routeId: Option<string>): string {
    if routeId.None? then "undefined" else routeId.value
  }

  /** `a || d` for an optional string: `undefined` and `""` give `d`. */
  function OrText(a: Option<string>, d: string): (r: string)
    ensures a.Some? && a.value != "" ==> r == a.value
    ensures a.None? || a.value == "" ==> r == d
  {
    if a.Some? && a.value != "" then a.value else d
  }

  // ---------------------------------------------------------------------
  // Finding the product
  // ---------------------------------------------------------------------

  datatype Lookup = Found(product: Json) | NotFound(message: string) | LoadFailed

  /** `String(p.id) === String(id)`; reading `id` of `null` throws. */
  function ProductTest(routeId: Option<string>): Json -> Option<bool> {
    (p: Json) => if p.JNull? then None else Some(JsStringOpt(Field(p, "id")) == RouteText(routeId))
  }

  predicate ProductMatches(p: Json, routeId: Option<string>) {
    !p.JNull? && JsStringOpt(Field(p, "id")) == RouteText(routeId)
  }

  /** `data.items?.find(...)` and the `!product` check. `data` is the body of
      the products reply: `null` throws on `.items`, `items` missing or
      `null` finds nothing, and an `items` that is not an array has no
      `find` and throws. A thrown error becomes `LoadFailed`. */
  function FindProduct(data: Json, routeId: Option<string>): (r: Lookup)
    ensures r.NotFound? ==> r.message == "Product with ID " + RouteText(routeId) + " not found."
    ensures data.JNull? ==> r.LoadFailed?
    ensures !data.JNull? && (Field(data, "items").None? || Field(data, "items") == Some(JNull)) ==> r.NotFound?
    ensures Field(data, "items").Some? && !Field(data, "items").value.JNull? && !Field(data, "items").value.JArr? ==>
              r.LoadFailed?
    ensures r.Found? ==>
              Field(data, "items").Some? && Field(data, "items").value.JArr? &&
              var xs := Field(data, "items").value.elems;
              exists i :: 0 <= i < |xs| && r.product == xs[i] && ProductMatches(xs[i], routeId) &&
                          forall j :: 0 <= j < i ==> !xs[j].JNull? && !ProductMatches(xs[j], routeId)
  {
    var notFound := NotFound("Product with ID " + RouteText(routeId) + " not found.");
    if data.JNull? then LoadFailed
    else match Field(data, "items")
      case None => notFound
      case Some(items) =>
        if items.JNull? then notFound
        else if !items.JArr? then LoadFailed
        else
          var xs := items.elems;
          match PyNext(xs, ProductTest(routeId))
          case Raised => LoadFailed
          case Miss => notFound
          case Hit(i) =>
            assert forall j :: 0 <= j < i ==> ProductTest(routeId)(xs[j]) == Some(false);
            if JsTruthy(xs[i]) then Found(xs[i]) else notFound
  }

  /** Over a list of products (objects), the lookup finds the first product
      whose id prints as the route id, and reports "not found" exactly when
      there is none. */
  lemma FindProductIffMatch(xs: seq<Json>, routeId: Option<string>)
    requires forall j :: 0 <= j < |xs| ==> xs[j].JObj?
    ensures var r := FindProduct(JObj(map["items" := JArr(xs)]), routeId);
            (r.NotFound? <==> forall j :: 0 <= j < |xs| ==> !ProductMatches(xs[j], routeId)) &&
            (r.Found? <==> exists j :: 0 <= j < |xs| && ProductMatches(xs[j], routeId))
  {
    var data := JObj(map["items" := JArr(xs)]);
    assert Field(data, "items") == Some(JArr(xs));
    var r := PyNext(xs, ProductTest(routeId));
    if r.Hit? {
      assert JsTruthy(xs[r.index]) && ProductMatches(xs[r.index], routeId);
      assert FindProduct(data, routeId) == Found(xs[r.index]);
    } else if r.Miss? {
      assert forall j :: 0 <= j < |xs| ==> ProductTest(routeId)(xs[j]) == Some(false);
      assert FindProduct(data, routeId).NotFound?;
    }
  }

  /** A numeric product id matches the route that spells it. */
  lemma NumericIdMatchesRoute(p: Json, n: int)
    requires p.JObj? && "id" in p.fields && p.fields["id"] == JInt(n)
    ensures ProductMatches(p, Some(IntToString(n)))
  {
  }

  // ---------------------------------------------------------------------
  // Saving
  // ---------------------------------------------------------------------

  datatype Form = Form(title: Option<string>, description: Option<string>, productTypeId: Option<string>)

  datatype ReportItem = ReportItem(id: int, title: string)

  /** The update payload; a `NaN` from `parseInt` is `None` (sent as
      `null`). */
  datatype Payload = Payload(id: Option<int>, title: string, description: string, productTypeId: Option<int>,
                             reportItems: seq<ReportItem>)

  function IsSelected(selected: seq<int>): ReportItem -> bool {
    (ri: ReportItem) => ri.id in selected
  }

  /** The report items sent: the loaded ones whose ids are selected, in
      the order they were loaded. */
  function SelectedItems(reportItems: seq<ReportItem>, selected: seq<int>): (r: seq<ReportItem>)
    ensures forall ri :: ri in r <==> ri in reportItems && ri.id in selected
    ensures |r| <= |reportItems|
  {
    Filter(reportItems, IsSelected(selected))
  }

  /** The items are sent in loaded order: loading `xs + ys` sends the
      selected items of `xs` and then those of `ys`. */
  lemma SelectedItemsAppend(xs: seq<ReportItem>, ys: seq<ReportItem>, selected: seq<int>)
    ensures SelectedItems(xs + ys, selected) == SelectedItems(xs, selected) + SelectedItems(ys, selected)
  {
    FilterAppend(xs, ys, IsSelected(selected));
  }

  /** A single loaded item is sent exactly when its id is selected. */
  lemma SelectedItemsOfOne(ri: ReportItem, selected: seq<int>)
    ensures SelectedItems([ri], selected) == if ri.id in selected then [ri] else []
  {
    FilterSingle(ri, IsSelected(selected));
  }

  /** Items come out in the order they were loaded, not in the order they
      were selected. */
  lemma SelectedInLoadedOrder(a: ReportItem, b: ReportItem)
    requires a.id != b.id
    ensures SelectedItems([a, b], [b.id, a.id]) == [a, b]
  {
    FilterAll([a, b], IsSelected([b.id, a.id]));
  }

  /** `handleSave`'s payload; both ids go through `parseInt` without a
      radix. */
  function SaveBody(routeId: Option<string>, form: Form, reportItems: seq<ReportItem>, selected: seq<int>): (p: Payload)
    ensures p.id == ParseIntAuto(OrText(routeId, "0"))
    ensures p.title == OrText(form.title, "Product " + RouteText(routeId))
    ensures p.description == OrText(form.description, "Product description for " + RouteText(routeId))
    ensures p.productTypeId == ParseIntAuto(OrText(form.productTypeId, OrText(routeId, "0")))
    ensures p.reportItems == SelectedItems(reportItems, selected)
  {
    Payload(ParseIntAuto(OrText(routeId, "0")),
            OrText(form.title, "Product " + RouteText(routeId)),
            OrText(form.description, "Product description for " + RouteText(routeId)),
            ParseIntAuto(OrText(form.productTypeId, OrText(routeId, "0"))),
            SelectedItems(reportItems, selected))
  }

  /** On the route of product `n`, an empty form saves product `n` under its
      default title, typed with its own id. */
  lemma EmptyFormFallsBackToRoute(n: nat, reportItems: seq<ReportItem>, selected: seq<int>)
    ensures var p := SaveBody(Some(NatToString(n)), Form(None, None, None), reportItems, selected);
            p.id == Some(n) && p.productTypeId == Some(n) && p.title == "Product " + NatToString(n)
  {
    var s := NatToString(n);
    assert s != "" && IntToString(n) == s;
    ParseIntAutoRoundTrip(n);
    var f := Form(None, None, None);
    assert OrText(Some(s), "0") == s;
    assert OrText(f.productTypeId, OrText(Some(s), "0")) == s;
    assert OrText(f.title, "Product " + RouteText(Some(s))) == "Product " + s;
  }

  /** A product type chosen in the form wins over the route id. */
  lemma FormTypeWins(routeId: Option<string>, m: int, form: Form, reportItems: seq<ReportItem>, selected: seq<int>)
    requires form.productTypeId == Some(IntToString(m))
    ensures SaveBody(routeId, form, reportItems, selected).productTypeId == Some(m)
  {
    ParseIntAutoRoundTrip(m);
    assert IntToString(m) != "" by {
      if m < 0 { assert |IntToString(m)| > 1; } else { assert |NatToString(m)| > 0; }
    }
  }

  /** Without a route id, both ids fall back to 0. */
  lemma NoRouteSavesZero(form: Form, reportItems: seq<ReportItem>, selected: seq<int>)
    requires form.productTypeId.None?
    ensures var p := SaveBody(None, form, reportItems, selected);
            p.id == Some(0) && p.productTypeId == Some(0)
  {
    assert ParseIntAuto("0") == Some(0) by {
      ParseIntAutoRoundTrip(0);
      assert IntToString(0) == "0";
    }
  }

  /** A route id in hexadecimal notation is read as hexadecimal: the route
      `0x1f` saves product 31. */
  lemma HexRouteIdReadAsHex(h: string, form: Form, reportItems: seq<ReportItem>, selected: seq<int>)
    requires |h| > 0 && AllHex(h)
    ensures SaveBody(Some("0x" + h), form, reportItems, selected).id == Some(HexValue(h))
  {
    var s := "0x" + h;
    assert OrText(Some(s), "0") == s by { assert |s| > 0; }
    ParseIntAutoHex(h, "");
    assert h + "" == h;
  }

  // ---------------------------------------------------------------------
  // Publishing
  // ---------------------------------------------------------------------

  /** The checks `handlePublish` makes, in order; the message of the first
      that fails. */
  function PublishCheck(routeId: Option<string>, selectedItems: seq<int>, selectedPresets: seq<string>): (r: Option<string>)
    ensures r.None? <==> routeId.Some? && routeId.value != "" && |selectedItems| > 0 && |selectedPresets| > 0
    ensures (routeId.None? || routeId.value == "") ==> r == Some("Product ID is required for publishing.")
    ensures routeId.Some? && routeId.value != "" && |selectedItems| == 0 ==>
              r == Some("Please select at least one report item to publish.")
    ensures routeId.Some? && routeId.value != "" && |selectedItems| > 0 && |selectedPresets| == 0 ==>
              r == Some("Please select at least one publisher preset to publish.")
  {
    if routeId.None? || routeId.value == "" then Some("Product ID is required for publishing.")
    else if |selectedItems| == 0 then Some("Please select at least one report item to publish.")
    else if |selectedPresets| == 0 then Some("Please select at least one publisher preset to publish.")
    else None
  }

  /** The update sent before publishing: no `'0'` fallback, since the id is
      known to be there. */
  function PublishBody(routeId: string, form: Form, reportItems: seq<ReportItem>, selected: seq<int>): Payload {
    Payload(ParseIntAuto(routeId), OrText(form.title, "Product " + routeId),
            OrText(form.description, "Product description for " + routeId),
            ParseIntAuto(OrText(form.productTypeId, routeId)), SelectedItems(reportItems, selected))
  }

  /** The publish update is the save payload: the missing fallback never
      matters once the checks have passed. */
  lemma PublishSendsSaveBody(routeId: string, form: Form, reportItems: seq<ReportItem>, selected: seq<int>)
    requires routeId != ""
    ensures PublishBody(routeId, form, reportItems, selected) == SaveBody(Some(routeId), form, reportItems, selected)
  {
  }

  /** The presets whose publish request failed, in the order tried;
      `ok[i]` is the fate of the request for `presets[i]`. */
  function FailedPresets(presets: seq<string>, ok: seq<bool>): (r: seq<string>)
    requires |ok| == |presets|
    ensures |r| <= |presets|
    ensures r == [] <==> forall i :: 0 <= i < |ok| ==> ok[i]
    ensures forall x :: x in r <==> exists i :: 0 <= i < |presets| && presets[i] == x && !ok[i]
    decreases |presets|
  {
    if |presets| == 0 then []
    else
      var rest := FailedPresets(presets[1..], ok[1..]);
      assert forall i :: 1 <= i < |ok| ==> ok[i] == ok[1..][i - 1] && presets[i] == presets[1..][i - 1];
      assert forall i :: 0 <= i < |ok[1..]| ==> ok[1..][i] == ok[i + 1] && presets[1..][i] == presets[i + 1];
      (if ok[0] then [] else [presets[0]]) + rest
  }

  /** Failures are collected in the order the presets were tried: the
      failures of `p1 + p2` are those of `p1` followed by those of `p2`. */
  lemma {:induction false} FailedPresetsAppend(p1: seq<string>, p2: seq<string>, o1: seq<bool>, o2: seq<bool>)
    requires |o1| == |p1| && |o2| == |p2|
    ensures FailedPresets(p1 + p2, o1 + o2) == FailedPresets(p1, o1) + FailedPresets(p2, o2)
    decreases |p1|
  {
    if |p1| == 0 {
      assert p1 + p2 == p2 && o1 + o2 == o2;
    } else {
      assert (p1 + p2)[1..] == p1[1..] + p2 && (o1 + o2)[1..] == o1[1..] + o2;
      FailedPresetsAppend(p1[1..], p2, o1[1..], o2);
    }
  }

  /** A single preset is reported exactly when its request failed. */
  lemma FailedPresetsOfOne(p: string, ok: bool)
    ensures FailedPresets([p], [ok]) == if ok then [] else [p]
  {
    assert [p][1..] == [] && [ok][1..] == [];
  }

  /** `publishErrors.join(', ')`. */
  function JoinComma(xs: seq<string>): (r: string)
    ensures |xs| == 1 ==> r == xs[0]
    ensures xs == [] ==> r == ""
  {
    if |xs| == 0 then "" else if |xs| == 1 then xs[0] else xs[0] + ", " + JoinComma(xs[1..])
  }

  /** Each further element is appended after a comma and a space, so the
      text lists the elements in order, separated by `", "`. */
  lemma {:induction false} JoinCommaAppend(xs: seq<string>, x: string)
    requires |xs| > 0
    ensures JoinComma(xs + [x]) == JoinComma(xs) + ", " + x
    decreases |xs|
  {
    if |xs| > 1 {
      assert (xs + [x])[1..] == xs[1..] + [x];
      JoinCommaAppend(xs[1..], x);
    } else {
      assert (xs + [x])[1..] == [x];
    }
  }

  datatype Published = Refused(message: string) | UpdateFailed | Done | SomeFailed(presets: seq<string>, message: string)

  /** `handlePublish`: `putOk` is whether the update succeeded, `postOk[i]`
      whether publishing with the `i`-th selected preset did. A failed
      update stops before any publish request. */
  function Publish(routeId: Option<string>, form: Form, selectedItems: seq<int>, selectedPresets: seq<string>,
                   putOk: bool, postOk: seq<bool>): (r: Published)
    requires |postOk| == |selectedPresets|
    ensures r.Refused? <==> PublishCheck(routeId, selectedItems, selectedPresets).Some?
    ensures r.Refused? ==> r.message == PublishCheck(routeId, selectedItems, selectedPresets).value
    ensures r.UpdateFailed? <==> PublishCheck(routeId, selectedItems, selectedPresets).None? && !putOk
    ensures r.Done? <==> PublishCheck(routeId, selectedItems, selectedPresets).None? && putOk &&
                         forall i :: 0 <= i < |postOk| ==> postOk[i]
    ensures r.SomeFailed? ==>
              r.presets != [] && r.presets == FailedPresets(selectedPresets, postOk) &&
              r.message == "Erreur lors de la publication pour les presets : " + JoinComma(r.presets)
  {
    match PublishCheck(routeId, selectedItems, selectedPresets)
    case Some(m) => Refused(m)
    case None =>
      if !putOk then UpdateFailed
      else
        var failed := FailedPresets(selectedPresets, postOk);
        if failed == [] then Done
        else SomeFailed(failed, "Erreur lors de la publication pour les presets : " + JoinComma(failed))
  }

  /** One failing preset among several is named alone. */
  lemma OneFailureNamed(routeId: string, form: Form, selectedItems: seq<int>, a: string, b: string)
    requires routeId != "" && |selectedItems| > 0
    ensures Publish(Some(routeId), form, selectedItems, [a, b], true, [true, false]) ==
            SomeFailed([b], "Erreur lors de la publication pour les presets : " + b)
  {
    assert [a, b][1..] == [b];
    assert [true, false][1..] == [false];
    assert FailedPresets([b], [false]) == [b];
  }

  // ---------------------------------------------------------------------
  // The template path parameter
  // ---------------------------------------------------------------------

  datatype Parameter = Parameter(key: string, name: string, kind: string, description: string, defaultValue: string)

  datatype ParameterValue = ParameterValue(parameter: Parameter, value: string)

  const TemplatePathKey := "template_path"

  function IsTemplatePath(pv: ParameterValue): bool {
    pv.parameter.key == TemplatePathKey
  }

  /** The entry appended when the product has none. */
  function NewTemplatePath(value: string): ParameterValue {
    ParameterValue(Parameter(TemplatePathKey, "Template Path", "string", "", ""), value)
  }

  /** `getTemplatePathValue`: the value of the first `template_path` entry,
      or `''`; `values` is `None` while the form has no parameter values. */
  function TemplatePath(values: Option<seq<ParameterValue>>): (r: string)
    ensures values.None? ==> r == ""
    ensures values.Some? && (forall j :: 0 <= j < |values.value| ==> !IsTemplatePath(values.value[j])) ==> r == ""
    ensures values.Some? ==>
              forall i :: (0 <= i < |values.value| && IsTemplatePath(values.value[i]) &&
                           (forall j :: 0 <= j < i ==> !IsTemplatePath(values.value[j]))) ==> r == values.value[i].value
  {
    if values.None? then ""
    else match FindFirst(values.value, IsTemplatePath)
      case None => ""
      case Some(i) => values.value[i].value
  }

  /** `setTemplatePathValue`: the first `template_path` entry gets the new
      value and nothing else changes; without one, a new entry is appended. */
  function SetTemplatePath(values: Option<seq<ParameterValue>>, value: string): (r: seq<ParameterValue>)
    ensures var xs := values.GetOr([]);
            match FindFirst(xs, IsTemplatePath)
            case None => r == xs + [NewTemplatePath(value)]
            case Some(i) => |r| == |xs| && r[i] == xs[i].(value := value) &&
                            forall j :: 0 <= j < |xs| && j != i ==> r[j] == xs[j]
  {
    var xs := values.GetOr([]);
    match FindFirst(xs, IsTemplatePath)
    case None => xs + [NewTemplatePath(value)]
    case Some(i) => xs[i := xs[i].(value := value)]
  }

  /** Reading back the value just set gives it. */
  lemma TemplatePathRoundTrip(values: Option<seq<ParameterValue>>, value: string)
    ensures TemplatePath(Some(SetTemplatePath(values, value))) == value
  {
    var xs := values.GetOr([]);
    var r := SetTemplatePath(values, value);
    match FindFirst(xs, IsTemplatePath)
    case None =>
      assert IsTemplatePath(r[|xs|]);
      assert forall j :: 0 <= j < |xs| ==> r[j] == xs[j];
    case Some(i) =>
      assert IsTemplatePath(r[i]);
  }

  /** Setting twice is setting once, with the later value. */
  lemma TemplatePathSetTwice(values: Option<seq<ParameterValue>>, v1: string, v2: string)
    ensures SetTemplatePath(Some(SetTemplatePath(values, v1)), v2) == SetTemplatePath(values, v2)
  {
    var xs := values.GetOr([]);
    var r1 := SetTemplatePath(values, v1);
    match FindFirst(xs, IsTemplatePath)
    case None =>
      assert forall j :: 0 <= j < |xs| ==> r1[j] == xs[j] && !IsTemplatePath(r1[j]);
      FindFirstAt(r1, IsTemplatePath, |xs|);
      assert r1[|xs| := r1[|xs|].(value := v2)] == xs + [NewTemplatePath(v2)];
    case Some(i) =>
      assert forall j :: 0 <= j < i ==> r1[j] == xs[j];
      FindFirstAt(r1, IsTemplatePath, i);
      assert r1[i := r1[i].(value := v2)] == xs[i := xs[i].(value := v2)];
  }

  // ---------------------------------------------------------------------
  // Saving before the preview
  // ---------------------------------------------------------------------

  /** The parameter `handleShowPreview` takes the template from: a
      non-empty key whose upper-cased text contains `TEMPLATE_PATH`. */
  function IsPreviewTemplate(pv: ParameterValue): bool {
    pv.parameter.key != "" && Contains(Upper(pv.parameter.key), "TEMPLATE_PATH")
  }

  /** The template the preview uses: the value of the first such parameter,
      or `''`. */
  function PreviewTemplate(values: Option<seq<ParameterValue>>): (r: string)
    ensures values.None? ==> r == ""
    ensures values.Some? && (forall j :: 0 <= j < |values.value| ==> !IsPreviewTemplate(values.value[j])) ==> r == ""
    ensures values.Some? ==>
              forall i :: (0 <= i < |values.value| && IsPreviewTemplate(values.value[i]) &&
                           (forall j :: 0 <= j < i ==> !IsPreviewTemplate(values.value[j]))) ==> r == values.value[i].value
  {
    if values.None? then ""
    else match FindFirst(values.value, IsPreviewTemplate)
      case None => ""
      case Some(i) => values.value[i].value
  }

  /** The `template_path` entry the editor sets is one the preview accepts,
      so when no other key mentions the template path, the preview uses the
      value just set. */
  lemma PreviewUsesTemplatePath(values: Option<seq<ParameterValue>>, value: string)
    requires forall j :: 0 <= j < |values.GetOr([])| ==>
               IsPreviewTemplate(values.GetOr([])[j]) ==> IsTemplatePath(values.GetOr([])[j])
    ensures PreviewTemplate(Some(SetTemplatePath(values, value))) == value
  {
    var xs := values.GetOr([]);
    var r := SetTemplatePath(values, value);
    assert Upper(TemplatePathKey) == "TEMPLATE_PATH";
    assert Contains(Upper(TemplatePathKey), "TEMPLATE_PATH") by {
      assert "TEMPLATE_PATH" <= Upper(TemplatePathKey)[0..];
    }
    match FindFirst(xs, IsTemplatePath)
    case None =>
      assert IsPreviewTemplate(r[|xs|]);
      assert forall j :: 0 <= j < |xs| ==> r[j] == xs[j] && !IsPreviewTemplate(r[j]);
    case Some(i) =>
      assert IsPreviewTemplate(r[i]);
      assert forall j :: 0 <= j < i ==> r[j] == xs[j] && !IsPreviewTemplate(r[j]);
  }

  datatype Preview = PreviewRefused(message: string) | PreviewReady(template: string, reportItemId: int)

  /** The checks `handleShowPreview` makes, in order; when they pass, the
      template and the first selected report item the preview opens. */
  function PreviewCheck(form: Form, values: Option<seq<ParameterValue>>, selected: seq<int>): (r: Preview)
    ensures r.PreviewReady? <==> OrText(form.productTypeId, "") != "" && |selected| > 0 && PreviewTemplate(values) != ""
    ensures r.PreviewReady? ==> r.template == PreviewTemplate(values) && r.reportItemId == selected[0]
    ensures OrText(form.productTypeId, "") == "" ==> r == PreviewRefused("Please select a product type to preview.")
    ensures OrText(form.productTypeId, "") != "" && |selected| == 0 ==>
              r == PreviewRefused("Please select at least one report item to preview.")
    ensures OrText(form.productTypeId, "") != "" && |selected| > 0 && PreviewTemplate(values) == "" ==>
              r == PreviewRefused("No template path found for this product type.")
  {
    if OrText(form.productTypeId, "") == "" then PreviewRefused("Please select a product type to preview.")
    else if |selected| == 0 then PreviewRefused("Please select at least one report item to preview.")
    else
      var template := PreviewTemplate(values);
      if template == "" then PreviewRefused("No template path found for this product type.")
      else PreviewReady(template, selected[0])
  }

  /** The update sent before the preview: the save payload, except that both
      ids go through `parseInt` with radix 10. */
  function PreviewSaveBody(routeId: Option<string>, form: Form, reportItems: seq<ReportItem>, selected: seq<int>): (p: Payload)
    ensures var s := SaveBody(routeId, form, reportItems, selected);
            p.title == s.title && p.description == s.description && p.reportItems == s.reportItems
    ensures !HasHexPrefix(AfterSign(JsTrimStart(OrText(routeId, "0")))) ==>
              p.id == SaveBody(routeId, form, reportItems, selected).id
    ensures !HasHexPrefix(AfterSign(JsTrimStart(OrText(form.productTypeId, OrText(routeId, "0"))))) ==>
              p.productTypeId == SaveBody(routeId, form, reportItems, selected).productTypeId
  {
    Payload(ParseInt(OrText(routeId, "0")),
            OrText(form.title, "Product " + RouteText(routeId)),
            OrText(form.description, "Product description for " + RouteText(routeId)),
            ParseInt(OrText(form.productTypeId, OrText(routeId, "0"))),
            SelectedItems(reportItems, selected))
  }

  /** On a hexadecimal route id the two saves disagree: for the route
      `0x1f` the preview's save sends product 0 and the plain save product
      31. */
  lemma PreviewAndSaveDisagreeOnHex(h: string, form: Form, reportItems: seq<ReportItem>, selected: seq<int>)
    requires |h| > 0 && AllHex(h)
    ensures PreviewSaveBody(Some("0x" + h), form, reportItems, selected).id == Some(0)
    ensures SaveBody(Some("0x" + h), form, reportItems, selected).id == Some(HexValue(h))
  {
    var s := "0x" + h;
    assert OrText(Some(s), "0") == s by { assert |s| > 0; }
    ParseIntStopsAtHexPrefix(h);
    assert PreviewSaveBody(Some(s), form, reportItems, selected).id == ParseInt(s);
    HexRouteIdReadAsHex(h, form, reportItems, selected);
  }
}
