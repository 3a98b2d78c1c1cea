/** The new-report-item-type form: the attribute dialog, adding and removing
    groups and attributes by their temporary ids, and the creation payload,
    which carries no group or attribute ids and numbers both by position. */
module NewReportItemType {
  import opened Wrappers
  import opened Lists

  /** An attribute configured in a group; `id` is the temporary `Date.now()`
      key, `attributeId` the attribute chosen from the catalogue. */
  datatype Configured = Configured(id: int, attributeId: int, name: string, description: string,
                                   minOccurrence: int, maxOccurrence: int)

  datatype Group = Group(id: int, name: string, description: string, section: string, attributes: seq<Configured>)

  /** The dialog's `handleSave`: refused while no attribute is chosen (the
      select's empty value, or the id 0). */
  function DialogSave(selected: Option<int>, name: string, description: string, minOccurrence: int,
                      maxOccurrence: int, now: int): (r: Option<Configured>)
    ensures r.None? <==> selected.None? || selected.value == 0
    ensures r.Some? ==> r.value == Configured(now, selected.value, name, description, minOccurrence, maxOccurrence)
  {
    if selected.None? || selected.value == 0 then None
    else Some(Configured(now, selected.value, name, description, minOccurrence, maxOccurrence))
  }

  /** `handleAddAttributeToGroup`: without an active group nothing changes;
      otherwise the attribute is appended to every group with that id and
      to no other. */
  function AddAttribute(groups: seq<Group>, active: Option<int>, a: Configured): (r: seq<Group>)
    ensures active.None? ==> r == groups
    ensures |r| == |groups|
    ensures forall i :: 0 <= i < |r| ==>
              (active.Some? && groups[i].id == active.value ==>
                 r[i] == groups[i].(attributes := groups[i].attributes + [a])) &&
              (active.None? || groups[i].id != active.value ==> r[i] == groups[i])
  {
    if active.None? then groups
    else seq(|groups|, i requires 0 <= i < |groups| =>
               if groups[i].id == active.value then groups[i].(attributes := groups[i].attributes + [a]) else groups[i])
  }

  /** `attr.id !== attributeId`. */
  function OtherAttribute(attributeId: int): Configured -> bool {
    (c: Configured) => c.id != attributeId
  }

  /** `handleRemoveAttribute`: within the groups with the id, every
      attribute with the attribute id goes; other groups are untouched. */
  function RemoveAttribute(groups: seq<Group>, groupId: int, attributeId: int): (r: seq<Group>)
    ensures |r| == |groups|
    ensures forall i :: 0 <= i < |r| ==>
              r[i].(attributes := groups[i].attributes) == groups[i] &&
              (groups[i].id != groupId ==> r[i] == groups[i]) &&
              (groups[i].id == groupId ==>
                 forall c :: c in r[i].attributes <==> c in groups[i].attributes && c.id != attributeId)
  {
    seq(|groups|, i requires 0 <= i < |groups| =>
          if groups[i].id == groupId
          then groups[i].(attributes := Filter(groups[i].attributes, OtherAttribute(attributeId)))
          else groups[i])
  }

  /** Within a group the attributes left keep their order: removing from
      a group listing `xs + ys` leaves what is left of `xs` followed by
      what is left of `ys`. */
  lemma RemoveAttributeAppend(g: Group, xs: seq<Configured>, ys: seq<Configured>, attributeId: int)
    ensures RemoveAttribute([g.(attributes := xs + ys)], g.id, attributeId)[0].attributes ==
            RemoveAttribute([g.(attributes := xs)], g.id, attributeId)[0].attributes +
            RemoveAttribute([g.(attributes := ys)], g.id, attributeId)[0].attributes
  {
    FilterAppend(xs, ys, OtherAttribute(attributeId));
  }

  /** A single attribute of the group is kept exactly when its id is not
      the one removed. */
  lemma RemoveAttributeOfOne(g: Group, c: Configured, attributeId: int)
    ensures RemoveAttribute([g.(attributes := [c])], g.id, attributeId)[0].attributes ==
            if c.id == attributeId then [] else [c]
  {
    FilterSingle(c, OtherAttribute(attributeId));
  }

  /** Removing an attribute just added, under an id its group did not use
      yet, gives back the groups as they were. */
  lemma RemoveUndoesAdd(groups: seq<Group>, g: int, a: Configured)
    requires forall i, c :: 0 <= i < |groups| && groups[i].id == g && c in groups[i].attributes ==> c.id != a.id
    ensures RemoveAttribute(AddAttribute(groups, Some(g), a), g, a.id) == groups
  {
    var added := AddAttribute(groups, Some(g), a);
    var r := RemoveAttribute(added, g, a.id);
    forall i | 0 <= i < |groups| ensures r[i] == groups[i] {
      if groups[i].id == g {
        var xs := groups[i].attributes;
        FilterAll(xs, OtherAttribute(a.id));
        FilterAppend(xs, [a], OtherAttribute(a.id));
        assert Filter([a], OtherAttribute(a.id)) == [] by {
          assert [a][..0] == [];
        }
        assert xs + [] == xs;
      }
    }
  }

  /** `handleAddAttributeGroup`: an empty group with the id `now`. */
  function AddGroup(groups: seq<Group>, now: int): (r: seq<Group>)
    ensures r == groups + [Group(now, "", "", "", [])]
  {
    groups + [Group(now, "", "", "", [])]
  }

  function OtherGroup(groupId: int): Group -> bool {
    (g: Group) => g.id != groupId
  }

  /** `handleRemoveAttributeGroup`: every group with the id goes, the others
      keep their order. */
  function RemoveGroup(groups: seq<Group>, groupId: int): (r: seq<Group>)
    ensures forall i :: 0 <= i < |r| ==> r[i].id != groupId
    ensures forall g :: g in r <==> g in groups && g.id != groupId
    ensures |r| == |groups| - CountIf(groups, (g: Group) => g.id == groupId)
  {
    var r := Filter(groups, OtherGroup(groupId));
    CountIfComplement(groups, OtherGroup(groupId), (g: Group) => g.id == groupId);
    assert forall i :: 0 <= i < |r| ==> r[i] in r;
    r
  }

  /** The groups kept stay in order: removing from `xs + ys` removes from
      `xs` and from `ys` and keeps what is left in that order. */
  lemma RemoveGroupAppend(xs: seq<Group>, ys: seq<Group>, groupId: int)
    ensures RemoveGroup(xs + ys, groupId) == RemoveGroup(xs, groupId) + RemoveGroup(ys, groupId)
  {
    FilterAppend(xs, ys, OtherGroup(groupId));
  }

  /** A single group is kept exactly when its id is not the one removed. */
  lemma RemoveGroupOfOne(g: Group, groupId: int)
    ensures RemoveGroup([g], groupId) == if g.id == groupId then [] else [g]
  {
    FilterSingle(g, OtherGroup(groupId));
  }

  /** Removing a group just added, under an id no group used, gives back the
      groups as they were. */
  lemma RemoveGroupUndoesAdd(groups: seq<Group>, now: int)
    requires forall i :: 0 <= i < |groups| ==> groups[i].id != now
    ensures RemoveGroup(AddGroup(groups, now), now) == groups
  {
    var g := Group(now, "", "", "", []);
    FilterAppend(groups, [g], OtherGroup(now));
    FilterAll(groups, OtherGroup(now));
    assert [g][..0] == [];
    assert Filter([g], OtherGroup(now)) == [];
    assert groups + [] == groups;
  }

  // ---------------------------------------------------------------------
  // Creation payload
  // ---------------------------------------------------------------------

  const TypeIcon := "mdi-file-table-outline"

  datatype PayloadItem = PayloadItem(title: string, description: string, index: nat,
                                     minOccurrence: int, maxOccurrence: int, attributeId: int)

  datatype PayloadGroup = PayloadGroup(title: string, description: string, index: nat, items: seq<PayloadItem>)

  datatype Payload = Payload(id: int, title: string, description: string, subtitle: string, tag: string,
                             groups: seq<PayloadGroup>)

  function ItemPayload(c: Configured, index: nat): PayloadItem {
    PayloadItem(c.name, c.description, index, c.minOccurrence, c.maxOccurrence, c.attributeId)
  }

  function GroupPayload(g: Group, index: nat): (p: PayloadGroup)
    ensures p.index == index && p.title == g.name && p.description == g.description && |p.items| == |g.attributes|
    ensures forall j :: 0 <= j < |p.items| ==>
              p.items[j].index == j && p.items[j].attributeId == g.attributes[j].attributeId &&
              p.items[j].title == g.attributes[j].name && p.items[j].description == g.attributes[j].description &&
              p.items[j].minOccurrence == g.attributes[j].minOccurrence &&
              p.items[j].maxOccurrence == g.attributes[j].maxOccurrence
  {
    PayloadGroup(g.name, g.description, index,
                 seq(|g.attributes|, j requires 0 <= j < |g.attributes| => ItemPayload(g.attributes[j], j)))
  }

  /** `handleSubmit`'s payload: the subtitle repeats the description, the
      tag is the fixed icon, and groups and items are numbered by position
      (the payload types have no place for their temporary ids). */
  function CreatePayload(name: string, description: string, groups: seq<Group>, now: int): (p: Payload)
    ensures p.id == now
    ensures p.title == name && p.subtitle == description && p.description == description && p.tag == TypeIcon
    ensures |p.groups| == |groups|
    ensures forall i :: 0 <= i < |p.groups| ==> p.groups[i] == GroupPayload(groups[i], i)
  {
    Payload(now, name, description, description, TypeIcon,
            seq(|groups|, i requires 0 <= i < |groups| => GroupPayload(groups[i], i)))
  }
}
