/** The report preview: how a report item's attributes become the fields the
    report template reads. Attributes are matched to template fields by
    their group-item id (1 to 9); list fields collect every value in
    attribute order, scalar fields keep the last value. */
module TemplatePreview {
  import opened Wrappers
  import opened Text
  import opened JsonData

  /** The template field of group-item ids 1 to 9, in that order. */
  const FieldNames: seq<string> :=
    ["cvss", "tlp", "confidentiality", "impact", "cve", "ioc", "affected_systems", "recommendations", "links"]

  /** The fields that collect a list of values. */
  predicate IsListField(name: string) {
    name == "cve" || name == "impact" || name == "ioc" || name == "affected_systems" || name == "links"
  }

  lemma {:induction false} SmallNumberText(k: int)
    ensures (|IntToString(k)| == 1 && '1' <= IntToString(k)[0] <= '9') <==> 1 <= k <= 9
    ensures 1 <= k <= 9 ==> DigitValue(IntToString(k)[0]) == k
  {
    if k >= 10 {
      assert NatToString(k) == NatToString(k / 10) + [DigitChar(k % 10)];
    }
  }

  /** `attributeIdMap[id]`: the id is used as a property key, so the number
      5 and the text "5" both name the `cve` field. */
  function TemplateField(id: Option<Json>): (r: Option<string>)
    ensures r.Some? ==> r.value in FieldNames
    ensures id.Some? && id.value.JInt? ==>
              (r.Some? <==> 1 <= id.value.i <= 9) && (r.Some? ==> r.value == FieldNames[id.value.i - 1])
    ensures id.None? || id.value.JNull? || id.value.JBool? ==> r.None?
  {
    var key := if id.None? then "undefined" else JsString(id.value);
    var r := if |key| == 1 && '1' <= key[0] <= '9' then Some(FieldNames[DigitValue(key[0]) - 1]) else None;
    if id.Some? && id.value.JInt? then SmallNumberText(id.value.i); r else r
  }

  /** `attr.value`; a missing value is taken as `null`. */
  function ValueOf(attr: Json): Json {
    if attr.JObj? && "value" in attr.fields then attr.fields["value"] else JNull
  }

  /** The field an attribute feeds, if any. */
  function FieldOf(attr: Json): Option<string> {
    TemplateField(Field(attr, "attribute_group_item_id"))
  }

  /** What one attribute adds to a list field: an array's elements, a
      truthy value, or nothing. */
  function Contribution(v: Json): seq<Json> {
    if v.JArr? then v.elems else if JsTruthy(v) then [v] else []
  }

  /** The value a mapped attribute leaves in its field. */
  function StepValue(attrs: map<string, Json>, name: string, v: Json): Json {
    if IsListField(name) then
      var prev := if name in attrs && attrs[name].JArr? then attrs[name].elems else [];
      JArr(prev + Contribution(v))
    else if name == "cvss" then JObj(map["vectorString" := v])
    else v
  }

  /** One iteration of the attribute loop; reading a member of `null`
      throws. */
  function Step(attrs: map<string, Json>, attr: Json): Option<map<string, Json>> {
    if attr.JNull? then None
    else match FieldOf(attr)
      case None => Some(attrs)
      case Some(name) => Some(attrs[name := StepValue(attrs, name, ValueOf(attr))])
  }

  // Reference definitions of what the loop accumulates.

  /** Some attribute feeds `name`. */
  predicate Mentions(xs: seq<Json>, name: string) {
    exists i :: 0 <= i < |xs| && FieldOf(xs[i]) == Some(name)
  }

  /** Everything the attributes feeding `name` contribute, in order. */
  function Collected(xs: seq<Json>, name: string): seq<Json>
    decreases |xs|
  {
    if |xs| == 0 then []
    else Collected(xs[..|xs| - 1], name) +
         (if FieldOf(xs[|xs| - 1]) == Some(name) then Contribution(ValueOf(xs[|xs| - 1])) else [])
  }

  /** The value of the last attribute feeding `name`. */
  function LastValue(xs: seq<Json>, name: string): Option<Json>
    decreases |xs|
  {
    if |xs| == 0 then None
    else if FieldOf(xs[|xs| - 1]) == Some(name) then Some(ValueOf(xs[|xs| - 1]))
    else LastValue(xs[..|xs| - 1], name)
  }

  /** What the loop has built after the attributes `xs`: exactly the
      mentioned fields are set, ... */
  ghost predicate SetFields(xs: seq<Json>, m: map<string, Json>) {
    forall name :: name in m <==> Mentions(xs, name)
  }

  /** ... each list field holds all the contributions in order, ... */
  ghost predicate ListsCollected(xs: seq<Json>, m: map<string, Json>) {
    forall name :: name in m && IsListField(name) ==> m[name] == JArr(Collected(xs, name))
  }

  /** ... each other scalar field the last value, ... */
  ghost predicate ScalarsLast(xs: seq<Json>, m: map<string, Json>) {
    forall name :: name in m && !IsListField(name) && name != "cvss" ==> LastValue(xs, name) == Some(m[name])
  }

  /** ... and `cvss` the last value wrapped as `{vectorString}`. */
  ghost predicate CvssLast(xs: seq<Json>, m: map<string, Json>) {
    "cvss" in m ==> LastValue(xs, "cvss").Some? && m["cvss"] == JObj(map["vectorString" := LastValue(xs, "cvss").value])
  }

  ghost predicate Accumulated(xs: seq<Json>, m: map<string, Json>) {
    SetFields(xs, m) && ListsCollected(xs, m) && ScalarsLast(xs, m) && CvssLast(xs, m)
  }

  lemma {:induction false} UnmentionedCollectsNothing(xs: seq<Json>, name: string)
    requires !Mentions(xs, name)
    ensures Collected(xs, name) == []
    decreases |xs|
  {
    if |xs| > 0 {
      UnmentionedCollectsNothing(xs[..|xs| - 1], name);
    }
  }

  /** The whole loop, from an empty object: it fails exactly when an
      attribute is `null`. */
  function Fold(xs: seq<Json>): (r: Option<map<string, Json>>)
    ensures r.Some? <==> forall i :: 0 <= i < |xs| ==> !xs[i].JNull?
    decreases |xs|
  {
    if |xs| == 0 then Some(map[])
    else
      var init := xs[..|xs| - 1];
      assert forall i :: 0 <= i < |init| ==> init[i] == xs[i];
      match Fold(init)
      case None => None
      case Some(m) => Step(m, xs[|xs| - 1])
  }

  /** The reference definitions, one attribute further. */
  lemma AppendOne(init: seq<Json>, last: Json, name: string)
    ensures Collected(init + [last], name) ==
            Collected(init, name) + (if FieldOf(last) == Some(name) then Contribution(ValueOf(last)) else [])
    ensures LastValue(init + [last], name) ==
            (if FieldOf(last) == Some(name) then Some(ValueOf(last)) else LastValue(init, name))
    ensures Mentions(init + [last], name) <==> Mentions(init, name) || FieldOf(last) == Some(name)
  {
    var xs := init + [last];
    assert xs[..|xs| - 1] == init && xs[|xs| - 1] == last;
    if Mentions(init, name) {
      var i :| 0 <= i < |init| && FieldOf(init[i]) == Some(name);
      assert xs[i] == init[i];
    }
    if Mentions(xs, name) && FieldOf(last) != Some(name) {
      var i :| 0 <= i < |xs| && FieldOf(xs[i]) == Some(name);
      assert i < |init| && init[i] == xs[i];
    }
  }

  lemma StepSetFields(init: seq<Json>, m: map<string, Json>, last: Json)
    requires SetFields(init, m) && !last.JNull?
    ensures Step(m, last).Some? && SetFields(init + [last], Step(m, last).value)
  {
    var m' := Step(m, last).value;
    forall name ensures name in m' <==> Mentions(init + [last], name) {
      AppendOne(init, last, name);
    }
  }

  lemma StepListsCollected(init: seq<Json>, m: map<string, Json>, last: Json)
    requires SetFields(init, m) && ListsCollected(init, m) && !last.JNull?
    ensures Step(m, last).Some? && ListsCollected(init + [last], Step(m, last).value)
  {
    var m' := Step(m, last).value;
    forall name | name in m' && IsListField(name) ensures m'[name] == JArr(Collected(init + [last], name)) {
      StepListCollected(init, m, last, name);
    }
  }

  /** The same, for one list field. */
  lemma StepListCollected(init: seq<Json>, m: map<string, Json>, last: Json, name: string)
    requires name in m <==> Mentions(init, name)
    requires name in m ==> m[name] == JArr(Collected(init, name))
    requires !last.JNull? && IsListField(name)
    ensures Step(m, last).Some?
    ensures name in Step(m, last).value ==> Step(m, last).value[name] == JArr(Collected(init + [last], name))
  {
    AppendOne(init, last, name);
    var f := FieldOf(last);
    if f == Some(name) {
      if name !in m {
        UnmentionedCollectsNothing(init, name);
      }
      var prev := if name in m && m[name].JArr? then m[name].elems else [];
      assert prev == Collected(init, name);
      assert Step(m, last) == Some(m[name := JArr(prev + Contribution(ValueOf(last)))]);
    } else if f.Some? {
      assert Step(m, last) == Some(m[f.value := StepValue(m, f.value, ValueOf(last))]);
    } else {
      assert Step(m, last) == Some(m);
    }
  }

  lemma StepScalarsLast(init: seq<Json>, m: map<string, Json>, last: Json)
    requires ScalarsLast(init, m) && !last.JNull?
    ensures Step(m, last).Some? && ScalarsLast(init + [last], Step(m, last).value)
  {
    var m' := Step(m, last).value;
    forall name | name in m' && !IsListField(name) && name != "cvss" ensures LastValue(init + [last], name) == Some(m'[name]) {
      AppendOne(init, last, name);
    }
  }

  lemma StepCvssLast(init: seq<Json>, m: map<string, Json>, last: Json)
    requires CvssLast(init, m) && !last.JNull?
    ensures Step(m, last).Some? && CvssLast(init + [last], Step(m, last).value)
  {
    AppendOne(init, last, "cvss");
  }

  /** One more attribute keeps the accumulation faithful. */
  lemma StepAccumulates(init: seq<Json>, m: map<string, Json>, last: Json)
    requires Accumulated(init, m) && !last.JNull?
    ensures Step(m, last).Some? && Accumulated(init + [last], Step(m, last).value)
  {
    StepSetFields(init, m, last);
    StepListsCollected(init, m, last);
    StepScalarsLast(init, m, last);
    StepCvssLast(init, m, last);
  }

  /** The loop's result is the accumulation its reference definitions
      describe. */
  lemma {:induction false} FoldAccumulates(xs: seq<Json>)
    requires Fold(xs).Some?
    ensures Accumulated(xs, Fold(xs).value)
    decreases |xs|
  {
    if |xs| == 0 {
    } else {
      var init := xs[..|xs| - 1];
      assert xs == init + [xs[|xs| - 1]];
      FoldAccumulates(init);
      StepAccumulates(init, Fold(init).value, xs[|xs| - 1]);
    }
  }

  /** The loop, one attribute further. */
  lemma FoldSnoc(init: seq<Json>, last: Json)
    ensures Fold(init + [last]) == (if Fold(init).None? then None else Step(Fold(init).value, last))
  {
    var xs := init + [last];
    assert xs[..|xs| - 1] == init && xs[|xs| - 1] == last;
  }

  /** An attribute whose id names no field changes nothing, wherever it
      stands. */
  lemma {:induction false} UnknownAttributeIgnored(xs: seq<Json>, a: Json, ys: seq<Json>)
    requires !a.JNull? && FieldOf(a).None?
    ensures Fold(xs + [a] + ys) == Fold(xs + ys)
    decreases |ys|
  {
    if |ys| == 0 {
      assert xs + [a] + ys == xs + [a] && xs + ys == xs;
      FoldSnoc(xs, a);
    } else {
      var ys', y := ys[..|ys| - 1], ys[|ys| - 1];
      UnknownAttributeIgnored(xs, a, ys');
      assert xs + [a] + ys == (xs + [a] + ys') + [y];
      assert xs + ys == (xs + ys') + [y];
      FoldSnoc(xs + [a] + ys', y);
      FoldSnoc(xs + ys', y);
    }
  }

  /** A falsy scalar value adds nothing to a list field, but the field is
      still created as an empty list. */
  lemma FalsyValueStillCreatesList(id: int, v: Json)
    requires 1 <= id <= 9 && IsListField(FieldNames[id - 1])
    requires !v.JArr? && !JsTruthy(v)
    ensures var a := JObj(map["attribute_group_item_id" := JInt(id), "value" := v]);
            Fold([a]) == Some(map[FieldNames[id - 1] := JArr([])])
  {
    var a := JObj(map["attribute_group_item_id" := JInt(id), "value" := v]);
    assert [a][..0] == [];
    assert Field(a, "attribute_group_item_id") == Some(JInt(id));
    assert FieldOf(a) == Some(FieldNames[id - 1]);
    assert ValueOf(a) == v && Contribution(v) == [];
    assert Fold([a][..0]) == Some(map[]);
    var empty: map<string, Json> := map[];
    assert StepValue(empty, FieldNames[id - 1], v) == JArr([]);
    assert Step(empty, a) == Some(empty[FieldNames[id - 1] := JArr([])]);
  }

  /** The attributes the loop walks: `reportItem.attributes || []`. A
      string walks its characters, which name no field; any other truthy
      value that is not an array is not iterable and throws. */
  function AttributesOf(reportItem: Json): (r: Option<seq<Json>>)
    requires !reportItem.JNull?
    ensures var a := Field(reportItem, "attributes");
            (a.Some? && a.value.JArr? ==> r == Some(a.value.elems)) &&
            (!JsTruthyOpt(a) ==> r == Some([]))
  {
    match JsOr(Field(reportItem, "attributes"), JArr([]))
    case JArr(xs) => Some(xs)
    case JStr(_) => Some([])
    case _ => None
  }

  /** `mapReportItemToTemplate`: the folded attributes plus the base fields,
      wrapped as `{attrs}`. */
  function MapReportItemToTemplate(reportItem: Json): (r: Option<Json>)
    ensures r.Some? ==> r.value.JObj? && r.value.fields.Keys == {"attrs"} && r.value.fields["attrs"].JObj?
    ensures r.Some? ==>
              var a := r.value.fields["attrs"].fields;
              {"title", "description", "exposure_date", "update_date", "uuid", "completed"} <= a.Keys &&
              a["title"] == JsOr(Field(reportItem, "title"), JStr("")) &&
              a["description"] == JsOr(Field(reportItem, "description"), JsOr(Field(reportItem, "title"), JStr(""))) &&
              a["completed"] == JsOr(Field(reportItem, "completed"), JBool(false)) &&
              a["uuid"] == JsOr(Field(reportItem, "uuid"), JStr("")) &&
              a["exposure_date"] == JsOr(Field(reportItem, "created"), JStr("")) &&
              a["update_date"] == JsOr(Field(reportItem, "last_updated"), JStr(""))
    ensures reportItem.JObj? && "attributes" !in reportItem.fields ==>
              r.Some? && r.value.fields["attrs"].fields.Keys ==
                {"title", "description", "exposure_date", "update_date", "uuid", "completed"}
  {
    if reportItem.JNull? then None
    else match AttributesOf(reportItem)
      case None => None
      case Some(xs) =>
        match Fold(xs)
        case None => None
        case Some(m) =>
          var title := JsOr(Field(reportItem, "title"), JStr(""));
          var attrs := m["title" := title]
                        ["description" := JsOr(Field(reportItem, "description"), title)]
                        ["exposure_date" := JsOr(Field(reportItem, "created"), JStr(""))]
                        ["update_date" := JsOr(Field(reportItem, "last_updated"), JStr(""))]
                        ["uuid" := JsOr(Field(reportItem, "uuid"), JStr(""))]
                        ["completed" := JsOr(Field(reportItem, "completed"), JBool(false))];
          Some(JObj(map["attrs" := JObj(attrs)]))
  }

  /** In the preview, a list field that some attribute feeds holds every
      value fed to it, in attribute order, and a scalar field the last one. */
  lemma PreviewFieldsFromAttributes(reportItem: Json, name: string)
    requires reportItem.JObj? && "attributes" in reportItem.fields && reportItem.fields["attributes"].JArr?
    requires MapReportItemToTemplate(reportItem).Some?
    requires name in FieldNames && Mentions(reportItem.fields["attributes"].elems, name)
    ensures var a := MapReportItemToTemplate(reportItem).value.fields["attrs"].fields;
            var xs := reportItem.fields["attributes"].elems;
            name in a &&
            (IsListField(name) ==> a[name] == JArr(Collected(xs, name))) &&
            (!IsListField(name) && name != "cvss" ==> LastValue(xs, name) == Some(a[name]))
  {
    var xs := reportItem.fields["attributes"].elems;
    assert AttributesOf(reportItem) == Some(xs);
    var m := Fold(xs).value;
    FoldAccumulates(xs);
    assert name in m;
    FieldNameNotBase(name);
  }

  /** No template field shares its name with a base field. */
  lemma FieldNameNotBase(name: string)
    requires name in FieldNames
    ensures name !in {"title", "description", "exposure_date", "update_date", "uuid", "completed"}
  {
  }
}
