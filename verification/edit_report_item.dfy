/** The report-item editor: choosing a report type, editing attribute
    values, attaching news-item aggregates and building the save payload. */
module EditReportItem {
  import opened Wrappers
  import opened Text
  import opened Lists

  /** A report type: its id and, per attribute group, the ids of the group's
      items. */
  datatype ReportType = ReportType(id: int, groups: seq<seq<int>>)

  datatype Aggregate = Aggregate(id: int, title: string, created: string, newsItems: seq<int>)

  /** A news-item aggregate offered by the selection dialog. */
  datatype Offered = Offered(id: int, title: string, created: string)

  datatype ReportItem = ReportItem(typeId: int, aggregates: seq<Aggregate>)

  /** The form. Attribute values are keyed by group-item id: the page keys
      them by `id.toString()` and reads them back with `parseInt`, a round
      trip `Text.ParseIntRoundTrip` shows to be exact for every id printed
      in plain decimal digits (JavaScript prints ids from 10^21 on in
      exponent notation, which this model leaves out). Form fields the page
      never set are `None` (`undefined`). */
  datatype Form = Form(title: Option<string>, titlePrefix: Option<string>, completed: Option<bool>,
                       attributes: map<int, string>)

  datatype Editor = Editor(reportType: Option<ReportType>, form: Option<Form>, report: Option<ReportItem>)

  // ---------------------------------------------------------------------
  // Choosing a type
  // ---------------------------------------------------------------------

  /** A group item of the type. */
  predicate HasItem(t: ReportType, item: int) {
    exists g :: 0 <= g < |t.groups| && item in t.groups[g]
  }

  function GroupItems(groups: seq<seq<int>>): (r: set<int>)
    ensures forall item :: item in r <==> exists g :: 0 <= g < |groups| && item in groups[g]
    decreases |groups|
  {
    if |groups| == 0 then {}
    else
      var init := groups[..|groups| - 1];
      assert forall g :: 0 <= g < |init| ==> init[g] == groups[g];
      var last := groups[|groups| - 1];
      GroupItems(init) + set i | 0 <= i < |last| :: last[i]
  }

  /** The blank attribute values: one empty entry per group item, across all
      groups. */
  function InitialAttributes(t: ReportType): (a: map<int, string>)
    ensures forall item :: item in a <==> HasItem(t, item)
    ensures forall item :: item in a ==> a[item] == ""
  {
    map item | item in GroupItems(t.groups) :: ""
  }

  /** The first type with the id. */
  function FindType(types: seq<ReportType>, id: int): (r: Option<ReportType>)
    ensures r.Some? ==> r.value in types && r.value.id == id
    ensures r.None? <==> forall i :: 0 <= i < |types| ==> types[i].id != id
    decreases |types|
  {
    if |types| == 0 then None
    else if types[0].id == id then Some(types[0])
    else FindType(types[1..], id)
  }

  /** `handleTypeSelect`: an unparsable or zero id clears the type and the
      report; an unknown id changes nothing; a known one sets the type,
      blank attributes and an empty report of that type. */
  function SelectType(e: Editor, typeId: string, types: seq<ReportType>): (r: Editor)
    ensures ParseInt(typeId).None? || ParseInt(typeId) == Some(0) ==>
              r == Editor(None, e.form, None)
    ensures ParseInt(typeId).Some? && ParseInt(typeId).value != 0 ==>
              var found := FindType(types, ParseInt(typeId).value);
              (found.None? ==> r == e) &&
              (found.Some? ==> r.reportType == found && r.form.Some? &&
                               r.form.value.attributes == InitialAttributes(found.value) &&
                               r.report == Some(ReportItem(found.value.id, [])))
  {
    match ParseInt(typeId)
    case None => Editor(None, e.form, None)
    case Some(selected) =>
      if selected == 0 then Editor(None, e.form, None)
      else match FindType(types, selected)
        case None => e
        case Some(t) =>
          var attrs := InitialAttributes(t);
          var form := match e.form
            case Some(f) => f.(attributes := attrs)
            case None => Form(None, None, None, attrs);
          Editor(Some(t), Some(form), Some(ReportItem(t.id, [])))
  }

  /** The type select offers ids as text: choosing a listed type by its id
      text selects that type, and keeps the form's other fields. */
  lemma SelectingListedTypeSelectsIt(e: Editor, types: seq<ReportType>, i: int)
    requires 0 <= i < |types| && types[i].id != 0
    requires forall j :: 0 <= j < i ==> types[j].id != types[i].id
    ensures var r := SelectType(e, IntToString(types[i].id), types);
            r.reportType == Some(types[i]) &&
            (e.form.Some? ==> r.form.value.title == e.form.value.title && r.form.value.completed == e.form.value.completed)
  {
    ParseIntRoundTrip(types[i].id);
    FindFirstListed(types, i);
  }

  lemma {:induction false} FindFirstListed(types: seq<ReportType>, i: int)
    requires 0 <= i < |types|
    requires forall j :: 0 <= j < i ==> types[j].id != types[i].id
    ensures FindType(types, types[i].id) == Some(types[i])
    decreases i
  {
    if i > 0 {
      FindFirstListed(types[1..], i - 1);
    }
  }

  // ---------------------------------------------------------------------
  // Editing
  // ---------------------------------------------------------------------

  /** `handleAttributeChange`: without a form nothing happens. */
  function ChangeAttribute(form: Option<Form>, groupItemId: int, value: string): (r: Option<Form>)
    ensures r.Some? <==> form.Some?
    ensures r.Some? ==> r.value.attributes.Keys == form.value.attributes.Keys + {groupItemId} &&
                        r.value.attributes[groupItemId] == value &&
                        r.value.(attributes := form.value.attributes) == form.value
    ensures r.Some? ==> forall k :: k in form.value.attributes && k != groupItemId ==>
                          r.value.attributes[k] == form.value.attributes[k]
  {
    match form
    case None => None
    case Some(f) => Some(f.(attributes := f.attributes[groupItemId := value]))
  }

  /** Editing the same attribute twice keeps the later value; edits to two
      different attributes commute. */
  lemma ChangesCompose(form: Form, a: int, b: int, x: string, y: string)
    ensures ChangeAttribute(ChangeAttribute(Some(form), a, x), a, y) == ChangeAttribute(Some(form), a, y)
    ensures a != b ==> ChangeAttribute(ChangeAttribute(Some(form), a, x), b, y) ==
                       ChangeAttribute(ChangeAttribute(Some(form), b, y), a, x)
  {
    assert form.attributes[a := x][a := y] == form.attributes[a := y];
    if a != b {
      assert form.attributes[a := x][b := y] == form.attributes[b := y][a := x];
    }
  }

  // ---------------------------------------------------------------------
  // Attaching news-item aggregates
  // ---------------------------------------------------------------------

  function AggregateIds(xs: seq<Aggregate>): (ids: set<int>)
    ensures forall id :: id in ids <==> exists i :: 0 <= i < |xs| && xs[i].id == id
  {
    set i | 0 <= i < |xs| :: xs[i].id
  }

  function AsAggregate(x: Offered): Aggregate {
    Aggregate(x.id, x.title, x.created, [])
  }

  /** The offered items whose id is not attached yet, as empty aggregates,
      in offered order. Duplicates within the batch are all kept. */
  function NewAggregates(offered: seq<Offered>, existing: set<int>): (r: seq<Aggregate>)
    ensures |r| <= |offered|
    ensures forall i :: 0 <= i < |r| ==> r[i].id !in existing && r[i].newsItems == []
    ensures forall x :: x in offered && x.id !in existing ==> AsAggregate(x) in r
    ensures forall a :: a in r ==> exists x :: x in offered && a == AsAggregate(x)
    decreases |offered|
  {
    if |offered| == 0 then []
    else
      var rest := NewAggregates(offered[..|offered| - 1], existing);
      var last := offered[|offered| - 1];
      assert forall x :: x in offered ==> x in offered[..|offered| - 1] || x == last;
      if last.id in existing then rest else rest + [AsAggregate(last)]
  }

  /** The new aggregates keep the offered order: offering `xs + ys` adds
      the new items of `xs` and then those of `ys`. */
  lemma {:induction false} NewAggregatesAppend(xs: seq<Offered>, ys: seq<Offered>, existing: set<int>)
    ensures NewAggregates(xs + ys, existing) == NewAggregates(xs, existing) + NewAggregates(ys, existing)
    decreases |ys|
  {
    if |ys| == 0 {
      assert xs + ys == xs;
    } else {
      var init := ys[..|ys| - 1];
      assert (xs + ys)[..|xs + ys| - 1] == xs + init;
      assert (xs + ys)[|xs + ys| - 1] == ys[|ys| - 1];
      NewAggregatesAppend(xs, init, existing);
    }
  }

  /** A single offered item is added, as an empty aggregate, exactly when
      its id is not attached yet. */
  lemma NewAggregatesOfOne(x: Offered, existing: set<int>)
    ensures NewAggregates([x], existing) == if x.id in existing then [] else [AsAggregate(x)]
  {
    assert [x][..0] == [];
  }

  /** `handleAddNewsItems`: the new aggregates go after the existing ones,
      which keep their order; with nothing new, or no report, nothing
      changes. */
  function AddNewsItems(report: Option<ReportItem>, offered: seq<Offered>): (r: Option<ReportItem>)
    ensures r.Some? <==> report.Some?
    ensures r.Some? ==>
              var old_ := report.value.aggregates;
              var added := NewAggregates(offered, AggregateIds(old_));
              r.value.typeId == report.value.typeId &&
              r.value.aggregates == old_ + added
  {
    match report
    case None => None
    case Some(ri) =>
      var added := NewAggregates(offered, AggregateIds(ri.aggregates));
      if |added| > 0 then Some(ri.(aggregates := ri.aggregates + added)) else report
  }

  /** Offering the same batch again adds nothing: every id it holds is
      attached after the first time. */
  lemma {:induction false} AddNewsItemsIdempotent(report: Option<ReportItem>, offered: seq<Offered>)
    ensures AddNewsItems(AddNewsItems(report, offered), offered) == AddNewsItems(report, offered)
  {
    if report.Some? {
      var ri := AddNewsItems(report, offered).value;
      var existing := AggregateIds(ri.aggregates);
      forall x | x in offered ensures x.id in existing {
        if x.id !in AggregateIds(report.value.aggregates) {
          var added := NewAggregates(offered, AggregateIds(report.value.aggregates));
          var k :| 0 <= k < |added| && added[k] == AsAggregate(x);
          assert ri.aggregates[|report.value.aggregates| + k] == AsAggregate(x);
        } else {
          var k :| 0 <= k < |report.value.aggregates| && report.value.aggregates[k].id == x.id;
          assert ri.aggregates[k] == report.value.aggregates[k];
        }
      }
      NothingNew(offered, existing);
    }
  }

  lemma {:induction false} NothingNew(offered: seq<Offered>, existing: set<int>)
    requires forall x :: x in offered ==> x.id in existing
    ensures NewAggregates(offered, existing) == []
    decreases |offered|
  {
    if |offered| > 0 {
      NothingNew(offered[..|offered| - 1], existing);
    }
  }

  /** An item offered twice in one batch is attached twice. */
  lemma BatchDuplicatesKept(ri: ReportItem, x: Offered)
    requires x.id !in AggregateIds(ri.aggregates)
    ensures AddNewsItems(Some(ri), [x, x]) == Some(ri.(aggregates := ri.aggregates + [AsAggregate(x), AsAggregate(x)]))
  {
    var existing := AggregateIds(ri.aggregates);
    assert [x, x][..1] == [x] && [x][..0] == [];
    assert NewAggregates([x], existing) == [AsAggregate(x)];
    assert NewAggregates([x, x], existing) == [AsAggregate(x), AsAggregate(x)];
  }

  // ---------------------------------------------------------------------
  // Saving
  // ---------------------------------------------------------------------

  datatype Payload = Payload(title: Option<string>, titlePrefix: Option<string>, completed: Option<bool>,
                             typeId: int, attributes: map<int, string>, aggregateIds: seq<int>)

  /** `handleSave`: refused (`None`) until both the form and the type exist;
      otherwise one attribute per form entry and the attached aggregates'
      ids, in order. */
  function SavePayload(e: Editor): (p: Option<Payload>)
    ensures p.None? <==> e.form.None? || e.reportType.None?
    ensures p.Some? ==>
              p.value.typeId == e.reportType.value.id &&
              p.value.attributes == e.form.value.attributes &&
              p.value.title == e.form.value.title && p.value.titlePrefix == e.form.value.titlePrefix &&
              p.value.completed == e.form.value.completed &&
              (e.report.None? ==> p.value.aggregateIds == []) &&
              (e.report.Some? ==>
                 |p.value.aggregateIds| == |e.report.value.aggregates| &&
                 forall i :: 0 <= i < |p.value.aggregateIds| ==> p.value.aggregateIds[i] == e.report.value.aggregates[i].id)
  {
    if e.form.None? || e.reportType.None? then None
    else
      var f := e.form.value;
      var ids := if e.report.Some? then seq(|e.report.value.aggregates|, i requires 0 <= i < |e.report.value.aggregates| => e.report.value.aggregates[i].id) else [];
      Some(Payload(f.title, f.titlePrefix, f.completed, e.reportType.value.id, f.attributes, ids))
  }

  /** Choosing a type and filling one attribute saves every group item of
      the type, blank except the one filled. */
  lemma SaveAfterSelectAndEdit(e: Editor, typeId: string, types: seq<ReportType>, item: int, value: string)
    requires ParseInt(typeId).Some? && ParseInt(typeId).value != 0
    requires FindType(types, ParseInt(typeId).value).Some?
    requires HasItem(FindType(types, ParseInt(typeId).value).value, item)
    ensures var s := SelectType(e, typeId, types);
            var p := SavePayload(s.(form := ChangeAttribute(s.form, item, value)));
            var t := FindType(types, ParseInt(typeId).value).value;
            p.Some? && (forall k :: k in p.value.attributes <==> HasItem(t, k)) &&
            p.value.attributes[item] == value &&
            (forall k :: k in p.value.attributes && k != item ==> p.value.attributes[k] == "") &&
            p.value.aggregateIds == []
  {
  }
}
