/** The report-item-type editor: finding the type in the listing, turning
    it into editable groups and attributes (temporary ids for those without
    one), removing groups and attributes, and the save payload, which omits
    temporary ids and numbers groups and attributes by position. */
module ReportItemTypeEditor {
  import opened Wrappers
  import opened Text
  import opened JsonData
  import opened Lists
  import opened Upstream

  datatype Attr = Attr(id: Json, attributeId: Option<Json>, name: Json, description: Json, kind: Json,
                       minOccurrence: Json, maxOccurrence: Json)

  datatype Group = Group(id: Json, name: Json, description: Json, section: Json, attributes: seq<Attr>)

  datatype EditableType = EditableType(id: Json, title: Json, description: Json,
                                       subtitle: Option<Json>, tag: Option<Json>, groups: seq<Group>)

  // ---------------------------------------------------------------------
  // Loading
  // ---------------------------------------------------------------------

  datatype Loaded = Loaded(t: EditableType) | Failed(message: string)

  /** `response.data.items || response.data`: `None` when that is not an
      array (or `data` is `null`, whose members cannot be read). */
  function ListedTypes(data: Json): (r: Option<seq<Json>>)
    ensures !data.JNull? && JsTruthyOpt(Field(data, "items")) && data.fields["items"].JArr? ==> r == Some(data.fields["items"].elems)
    ensures !JsTruthyOpt(Field(data, "items")) && data.JArr? ==> r == Some(data.elems)
    ensures r.Some? ==> (JsTruthyOpt(Field(data, "items")) && data.fields["items"].JArr?) || data.JArr?
  {
    if data.JNull? then None
    else match JsOr(Field(data, "items"), data)
      case JArr(xs) => Some(xs)
      case _ => None
  }

  /** `item.id.toString() === id`: throws for `null` items and for a missing
      or `null` id. */
  function IdTest(id: string): Json -> Option<bool> {
    (item: Json) =>
      if item.JNull? then None
      else match JsToString(Field(item, "id"))
        case None => None
        case Some(s) => Some(s == id)
  }

  predicate HasIdText(item: Json, id: string) {
    item.JObj? && "id" in item.fields && !item.fields["id"].JNull? && JsString(item.fields["id"]) == id
  }

  /** `x || y` where both may be `undefined`. */
  function OrUndefined(x: Option<Json>, y: Option<Json>): (r: Option<Json>)
    ensures JsTruthyOpt(x) ==> r == x
    ensures !JsTruthyOpt(x) ==> r == y
  {
    if JsTruthyOpt(x) then x else y
  }

  /** `(x || [])` followed by `.map`: `None` when that is not an array. */
  function ArrayOr(x: Option<Json>): (r: Option<seq<Json>>)
    ensures !JsTruthyOpt(x) ==> r == Some([])
    ensures JsTruthyOpt(x) ==> (r.Some? <==> x.value.JArr?) && (r.Some? ==> r.value == x.value.elems)
  {
    if !JsTruthyOpt(x) then Some([])
    else if x.value.JArr? then Some(x.value.elems) else None
  }

  /** One attribute: a falsy id is replaced by `now + position`; the other
      defaults are `''`, `'Text'`, 0 and 1. Reading a member of `null`
      throws. */
  function ToAttr(a: Json, index: nat, now: int): (r: Option<Attr>)
    ensures r.Some? <==> !a.JNull?
    ensures r.Some? ==>
              r.value.id == JsOr(Field(a, "id"), JInt(now + index)) &&
              r.value.kind == JsOr(Field(a, "type"), JStr("Text")) &&
              r.value.minOccurrence == JsOr(Field(a, "min_occurrence"), JInt(0)) &&
              r.value.maxOccurrence == JsOr(Field(a, "max_occurrence"), JInt(1)) &&
              r.value.name == JsOr(Field(a, "title"), JsOr(Field(a, "name"), JStr("")))
  {
    if a.JNull? then None
    else Some(Attr(JsOr(Field(a, "id"), JInt(now + index)),
                   OrUndefined(Field(a, "attribute_id"), Field(a, "id")),
                   JsOr(Field(a, "title"), JsOr(Field(a, "name"), JStr(""))),
                   JsOr(Field(a, "description"), JStr("")),
                   JsOr(Field(a, "type"), JStr("Text")),
                   JsOr(Field(a, "min_occurrence"), JInt(0)),
                   JsOr(Field(a, "max_occurrence"), JInt(1))))
  }

  function ToAttrs(xs: seq<Json>, now: int): (r: Option<seq<Attr>>)
    ensures r.Some? <==> forall i :: 0 <= i < |xs| ==> !xs[i].JNull?
    ensures r.Some? ==> |r.value| == |xs| && forall i :: 0 <= i < |xs| ==> Some(r.value[i]) == ToAttr(xs[i], i, now)
  {
    if exists i :: 0 <= i < |xs| && xs[i].JNull? then None
    else Some(seq(|xs|, i requires 0 <= i < |xs| => ToAttr(xs[i], i, now).value))
  }

  function ToGroup(g: Json, index: nat, now: int): (r: Option<Group>)
    ensures r.Some? ==> r.value.id == JsOr(Field(g, "id"), JInt(now + index))
    ensures r.Some? ==> r.value.name == JsOr(Field(g, "title"), JsOr(Field(g, "name"), JStr("")))
  {
    if g.JNull? then None
    else
      var items := OrUndefined(Field(g, "attribute_group_items"), Field(g, "attributes"));
      match ArrayOr(items)
      case None => None
      case Some(xs) =>
        match ToAttrs(xs, now)
        case None => None
        case Some(attrs) =>
          Some(Group(JsOr(Field(g, "id"), JInt(now + index)),
                     JsOr(Field(g, "title"), JsOr(Field(g, "name"), JStr(""))),
                     JsOr(Field(g, "description"), JStr("")), JsOr(Field(g, "section"), JStr("")), attrs))
  }

  function ToGroups(xs: seq<Json>, now: int): (r: Option<seq<Group>>)
    ensures r.Some? <==> forall i :: 0 <= i < |xs| ==> ToGroup(xs[i], i, now).Some?
    ensures r.Some? ==> |r.value| == |xs| && forall i :: 0 <= i < |xs| ==> Some(r.value[i]) == ToGroup(xs[i], i, now)
  {
    if exists i :: 0 <= i < |xs| && ToGroup(xs[i], i, now).None? then None
    else Some(seq(|xs|, i requires 0 <= i < |xs| => ToGroup(xs[i], i, now).value))
  }

  /** The type's editable form; `now` is `Date.now()`. The title falls
      back to the name and then to "", the description to "", and the
      groups are converted one by one. */
  function Transform(data: Json, now: int): (r: Option<EditableType>)
    requires data.JObj? && "id" in data.fields
    ensures r.Some? <==> ArrayOr(Field(data, "attribute_groups")).Some? &&
                         ToGroups(ArrayOr(Field(data, "attribute_groups")).value, now).Some?
    ensures r.Some? ==> r.value.id == data.fields["id"] &&
                        r.value.subtitle == Field(data, "subtitle") && r.value.tag == Field(data, "tag")
    ensures r.Some? ==>
              (JsTruthyOpt(Field(data, "title")) ==> r.value.title == data.fields["title"]) &&
              (!JsTruthyOpt(Field(data, "title")) && JsTruthyOpt(Field(data, "name")) ==> r.value.title == data.fields["name"]) &&
              (!JsTruthyOpt(Field(data, "title")) && !JsTruthyOpt(Field(data, "name")) ==> r.value.title == JStr(""))
    ensures r.Some? ==>
              (JsTruthyOpt(Field(data, "description")) ==> r.value.description == data.fields["description"]) &&
              (!JsTruthyOpt(Field(data, "description")) ==> r.value.description == JStr(""))
    ensures r.Some? ==>
              var gs := ArrayOr(Field(data, "attribute_groups")).value;
              |r.value.groups| == |gs| && forall i :: 0 <= i < |gs| ==> Some(r.value.groups[i]) == ToGroup(gs[i], i, now)
  {
    match ArrayOr(Field(data, "attribute_groups"))
    case None => None
    case Some(gs) =>
      match ToGroups(gs, now)
      case None => None
      case Some(groups) =>
        Some(EditableType(data.fields["id"],
                          JsOr(Field(data, "title"), JsOr(Field(data, "name"), JStr(""))),
                          JsOr(Field(data, "description"), JStr("")),
                          Field(data, "subtitle"), Field(data, "tag"), groups))
  }

  const NotAnArray := "API did not return an array of items."

  function NotFound(id: string): string {
    "Report item type with ID " + id + " not found in the list."
  }

  /** `fetchReportItemType`: `exc` is the text of a `TypeError` thrown while
      reading the listing. */
  function LoadType(id: string, data: Json, now: int, exc: string): (r: Loaded)
    ensures ListedTypes(data).None? && !data.JNull? ==> r == Failed(NotAnArray)
    ensures ListedTypes(data).Some? && (forall i :: 0 <= i < |ListedTypes(data).value| ==> IdTest(id)(ListedTypes(data).value[i]).Some?) ==>
              var xs := ListedTypes(data).value;
              ((forall i :: 0 <= i < |xs| ==> !HasIdText(xs[i], id)) ==>
                 r == Failed(NotFound(id))) &&
              ((exists i :: 0 <= i < |xs| && HasIdText(xs[i], id)) ==> r.Loaded? || r == Failed(exc))
    ensures r.Loaded? ==>
              ListedTypes(data).Some? &&
              var xs := ListedTypes(data).value;
              exists i :: 0 <= i < |xs| && HasIdText(xs[i], id) && Transform(xs[i], now) == Some(r.t) &&
                          forall j :: 0 <= j < i ==> !HasIdText(xs[j], id)
  {
    if data.JNull? then Failed(exc)
    else match ListedTypes(data)
      case None => Failed(NotAnArray)
      case Some(xs) =>
        match PyNext(xs, IdTest(id))
        case Raised => Failed(exc)
        case Miss => Failed(NotFound(id))
        case Hit(i) =>
          assert forall j :: 0 <= j < i ==> IdTest(id)(xs[j]) == Some(false);
          assert HasIdText(xs[i], id);
          match Transform(xs[i], now)
          case None => Failed(exc)
          case Some(t) => Loaded(t)
  }

  /** Over a listing where every item has a readable id, the type loaded
      is the conversion of the first item whose id prints as the path id;
      a conversion that throws gives its error text. */
  lemma LoadTypeFindsFirstMatch(id: string, data: Json, now: int, exc: string, i: int)
    requires ListedTypes(data).Some?
    requires forall j :: 0 <= j < |ListedTypes(data).value| ==> IdTest(id)(ListedTypes(data).value[j]).Some?
    requires 0 <= i < |ListedTypes(data).value| && HasIdText(ListedTypes(data).value[i], id)
    requires forall j :: 0 <= j < i ==> !HasIdText(ListedTypes(data).value[j], id)
    ensures var x := ListedTypes(data).value[i];
            LoadType(id, data, now, exc) == if Transform(x, now).Some? then Loaded(Transform(x, now).value) else Failed(exc)
  {
    var xs := ListedTypes(data).value;
    var test := IdTest(id);
    forall j | 0 <= j < |xs| ensures test(xs[j]) == Some(HasIdText(xs[j], id)) { }
    var r := PyNext(xs, test);
    assert !r.Miss? by { assert test(xs[i]) == Some(true); }
    assert r == Hit(i);
  }

  /** A type whose numeric id prints as the path id is found and loaded,
      with no groups when it lists none. */
  lemma LoadFindsNumericId(n: int, x: Json, now: int, exc: string)
    requires x.JObj? && "id" in x.fields && x.fields["id"] == JInt(n) && "attribute_groups" !in x.fields
    ensures var r := LoadType(IntToString(n), JObj(map["items" := JArr([x])]), now, exc);
            r.Loaded? && r.t.id == JInt(n) && r.t.groups == []
  {
    var xs := [x];
    assert IdTest(IntToString(n))(x) == Some(true);
    assert PyNext(xs, IdTest(IntToString(n))) == Hit(0);
  }

  // ---------------------------------------------------------------------
  // Editing
  // ---------------------------------------------------------------------

  /** `handleAddAttributeGroup`: an empty group with the temporary id `now`. */
  function AddGroup(t: EditableType, now: int): (r: EditableType)
    ensures |r.groups| == |t.groups| + 1 && r.groups[..|t.groups|] == t.groups
    ensures r.groups[|t.groups|] == Group(JInt(now), JStr(""), JStr(""), JStr(""), [])
  {
    t.(groups := t.groups + [Group(JInt(now), JStr(""), JStr(""), JStr(""), [])])
  }

  /** `handleRemoveAttributeGroup`: only the group at the index goes; the
      others keep their order. */
  function RemoveGroup(t: EditableType, groupIndex: int): (r: EditableType)
    ensures 0 <= groupIndex < |t.groups| ==>
              (|r.groups| == |t.groups| - 1 &&
               (forall j :: 0 <= j < groupIndex ==> r.groups[j] == t.groups[j]) &&
               (forall j :: groupIndex <= j < |r.groups| ==> r.groups[j] == t.groups[j + 1]))
    ensures !(0 <= groupIndex < |t.groups|) ==> r == t
    ensures r.(groups := t.groups) == t
  {
    t.(groups := RemoveAt(t.groups, groupIndex))
  }

  /** Removing the group just added restores the type. */
  lemma RemoveAddedGroup(t: EditableType, now: int)
    ensures RemoveGroup(AddGroup(t, now), |t.groups|) == t
  {
    var r := RemoveGroup(AddGroup(t, now), |t.groups|);
    assert r.groups == t.groups;
  }

  /** `handleAddAttribute`: a new attribute with the temporary id `now`; a
      group index out of range throws. */
  function AddAttribute(t: EditableType, groupIndex: int, now: int): (r: Option<EditableType>)
    ensures r.Some? <==> 0 <= groupIndex < |t.groups|
    ensures r.Some? ==>
              (|r.value.groups| == |t.groups| &&
               (forall j :: 0 <= j < |t.groups| && j != groupIndex ==> r.value.groups[j] == t.groups[j]) &&
               r.value.groups[groupIndex].attributes ==
                 t.groups[groupIndex].attributes + [Attr(JInt(now), None, JStr("New Attribute"), JStr(""), JStr("Text"), JInt(1), JInt(1))])
  {
    if !(0 <= groupIndex < |t.groups|) then None
    else
      var g := t.groups[groupIndex];
      var a := Attr(JInt(now), None, JStr("New Attribute"), JStr(""), JStr("Text"), JInt(1), JInt(1));
      Some(t.(groups := t.groups[groupIndex := g.(attributes := g.attributes + [a])]))
  }

  /** `handleRemoveAttribute`: only the attribute at the index goes; every
      other group and attribute is kept in order; a group index out of range
      throws. */
  function RemoveAttribute(t: EditableType, groupIndex: int, attrIndex: int): (r: Option<EditableType>)
    ensures r.Some? <==> 0 <= groupIndex < |t.groups|
    ensures r.Some? ==>
              (|r.value.groups| == |t.groups| &&
               (forall j :: 0 <= j < |t.groups| && j != groupIndex ==> r.value.groups[j] == t.groups[j]) &&
               r.value.groups[groupIndex].attributes == RemoveAt(t.groups[groupIndex].attributes, attrIndex) &&
               r.value.groups[groupIndex].(attributes := t.groups[groupIndex].attributes) == t.groups[groupIndex])
  {
    if !(0 <= groupIndex < |t.groups|) then None
    else
      var g := t.groups[groupIndex];
      Some(t.(groups := t.groups[groupIndex := g.(attributes := RemoveAt(g.attributes, attrIndex))]))
  }

  /** Removing the attribute just added restores the type. */
  lemma RemoveAddedAttribute(t: EditableType, groupIndex: int, now: int)
    requires 0 <= groupIndex < |t.groups|
    ensures var added := AddAttribute(t, groupIndex, now).value;
            RemoveAttribute(added, groupIndex, |t.groups[groupIndex].attributes|) == Some(t)
  {
    var added := AddAttribute(t, groupIndex, now).value;
    var r := RemoveAttribute(added, groupIndex, |t.groups[groupIndex].attributes|).value;
    var attrs := t.groups[groupIndex].attributes;
    assert r.groups[groupIndex].attributes == attrs;
    assert r.groups[groupIndex] == t.groups[groupIndex];
    assert r.groups == t.groups;
  }

  // ---------------------------------------------------------------------
  // Saving
  // ---------------------------------------------------------------------

  /** Ids above 10^12 are the `Date.now()` temporaries of new entries. */
  const TempIdThreshold := 1000000000000

  /** `id > 1000000000000 ? {} : {id}`, for integer ids. */
  predicate KeepsId(id: Json) {
    !(id.JInt? && id.i > TempIdThreshold)
  }

  datatype PayloadItem = PayloadItem(id: Option<Json>, title: Json, description: Json, kind: Json, index: nat,
                                     minOccurrence: Json, maxOccurrence: Json, attributeId: Option<Json>)

  datatype PayloadGroup = PayloadGroup(id: Option<Json>, title: Json, description: Json, index: nat,
                                       items: seq<PayloadItem>)

  function ItemPayload(a: Attr, index: nat): PayloadItem {
    PayloadItem(if KeepsId(a.id) then Some(a.id) else None, a.name, a.description, a.kind, index,
                a.minOccurrence, a.maxOccurrence, a.attributeId)
  }

  /** A group's payload: its own name and description, numbered by
      position, and one item per attribute carrying the attribute's name,
      description, type, occurrence bounds and attribute id, numbered by
      position within the group. Temporary ids are left out. */
  function GroupPayload(g: Group, index: nat): (p: PayloadGroup)
    ensures p.index == index && |p.items| == |g.attributes|
    ensures p.title == g.name && p.description == g.description
    ensures p.id.Some? <==> KeepsId(g.id)
    ensures p.id.Some? ==> p.id.value == g.id
    ensures forall j :: 0 <= j < |p.items| ==>
              p.items[j].index == j && (p.items[j].id.Some? <==> KeepsId(g.attributes[j].id)) &&
              (p.items[j].id.Some? ==> p.items[j].id.value == g.attributes[j].id)
    ensures forall j :: 0 <= j < |p.items| ==>
              var a := g.attributes[j];
              p.items[j].title == a.name && p.items[j].description == a.description && p.items[j].kind == a.kind &&
              p.items[j].minOccurrence == a.minOccurrence && p.items[j].maxOccurrence == a.maxOccurrence &&
              p.items[j].attributeId == a.attributeId
  {
    PayloadGroup(if KeepsId(g.id) then Some(g.id) else None, g.name, g.description, index,
                 seq(|g.attributes|, j requires 0 <= j < |g.attributes| => ItemPayload(g.attributes[j], j)))
  }

  /** The groups of the PUT payload. */
  function SavePayload(t: EditableType): (p: seq<PayloadGroup>)
    ensures |p| == |t.groups|
    ensures forall i :: 0 <= i < |p| ==> p[i] == GroupPayload(t.groups[i], i)
  {
    seq(|t.groups|, i requires 0 <= i < |t.groups| => GroupPayload(t.groups[i], i))
  }

  /** A group added in the editor (its id a `Date.now()` above 10^12) is
      sent without an id, and the payload still numbers every group by its
      position, so after removing one the rest are renumbered from 0. */
  lemma NewGroupsSentWithoutId(t: EditableType, now: int, i: int)
    requires now > TempIdThreshold
    requires 0 <= i < |t.groups|
    ensures var p := SavePayload(AddGroup(t, now));
            p[|t.groups|].id.None? && p[|t.groups|].index == |t.groups|
    ensures var p := SavePayload(RemoveGroup(t, i));
            forall j :: 0 <= j < |p| ==> p[j].index == j && p[j].title == (if j < i then t.groups[j] else t.groups[j + 1]).name
  {
  }
}
