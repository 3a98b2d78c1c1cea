/** The bot preset form: the generated preset id, loading an existing
    preset, the node/type/parameter editing rules, and the payload built on
    submit. */
module BotPresetForm {
  import opened Wrappers
  import opened Lists

  // ---------------------------------------------------------------------
  // Generated ids
  // ---------------------------------------------------------------------

  const UuidTemplate := "xxxxxxxx-xxxx-4xxx-yxxx-xxxxxxxxxxxx"

  /** `v.toString(16)` for `0 <= v < 16`. */
  function HexDigit(v: nat): char
    requires v < 16
  {
    "0123456789abcdef"[v]
  }

  predicate IsHexDigit(c: char) {
    '0' <= c <= '9' || 'a' <= c <= 'f'
  }

  /** The digits `8`, `9`, `a` and `b` that carry the RFC 4122 variant. */
  predicate IsVariantDigit(c: char) {
    '8' <= c <= '9' || 'a' <= c <= 'b'
  }

  /** The positions of the dashes, the version digit and the variant digit
      in a UUID. */
  predicate FixedPosition(i: int) {
    i == 8 || i == 13 || i == 14 || i == 18 || i == 19 || i == 23
  }

  /** `r & 0x3 | 0x8`: the variant nibble. */
  function VariantNibble(r: nat): (v: nat)
    requires r < 16
    ensures 8 <= v < 12
  {
    (((r as bv8) & 0x3) | 0x8) as nat
  }

  /** The random draws `Math.random() * 16 | 0`, the `k`-th one being
      `draw(k)`. */
  ghost predicate IsNibbleSource(draw: nat -> nat) {
    forall k: nat :: draw(k) < 16
  }

  /** `t.replace(/[xy]/g, ...)`: each placeholder takes the next random
      nibble, starting from draw `k`; an `x` prints it, a `y` prints its
      variant form; every other character is kept. */
  function Fill(t: string, draw: nat -> nat, k: nat): (u: string)
    requires IsNibbleSource(draw)
    ensures |u| == |t|
    ensures forall i :: 0 <= i < |t| ==>
              (t[i] != 'x' && t[i] != 'y' ==> u[i] == t[i]) &&
              (t[i] == 'x' ==> IsHexDigit(u[i])) &&
              (t[i] == 'y' ==> IsVariantDigit(u[i]))
    decreases |t|
  {
    if |t| == 0 then ""
    else
      if t[0] == 'x' then [HexDigit(draw(k))] + Fill(t[1..], draw, k + 1)
      else if t[0] == 'y' then [HexDigit(VariantNibble(draw(k)))] + Fill(t[1..], draw, k + 1)
      else [t[0]] + Fill(t[1..], draw, k)
  }

  /** `generateUUID`. */
  function GenerateUuid(draw: nat -> nat): string
    requires IsNibbleSource(draw)
  {
    Fill(UuidTemplate, draw, 0)
  }

  /** The 8-4-4-4-12 shape of a version-4 UUID: dashes at 8, 13, 18 and
      23, the version digit `4` at 14, a variant digit in `8`..`b` at 19,
      and lower-case hex digits elsewhere. */
  predicate IsVersion4Uuid(u: string) {
    |u| == 36 && u[8] == '-' && u[13] == '-' && u[18] == '-' && u[23] == '-' &&
    u[14] == '4' && IsVariantDigit(u[19]) &&
    forall i :: 0 <= i < 36 && !FixedPosition(i) ==> IsHexDigit(u[i])
  }

  /** The template's layout: the fixed characters of the UUID and an `x` or
      `y` placeholder where the random digits go. */
  predicate IsUuidTemplate(t: string) {
    |t| == 36 && t[8] == '-' && t[13] == '-' && t[18] == '-' && t[23] == '-' && t[14] == '4' && t[19] == 'y' &&
    forall i :: 0 <= i < 36 && !FixedPosition(i) ==> t[i] == 'x'
  }

  /** A generated id is a version-4 UUID. */
  lemma GeneratedIdIsVersion4Uuid(draw: nat -> nat)
    requires IsNibbleSource(draw)
    ensures IsVersion4Uuid(GenerateUuid(draw))
  {
    TemplateShape();
    FillShape(UuidTemplate, draw, 0);
  }

  /** Filling any template laid out like the UUID one gives a UUID. */
  lemma FillShape(t: string, draw: nat -> nat, k: nat)
    requires IsNibbleSource(draw)
    requires IsUuidTemplate(t)
    ensures IsVersion4Uuid(Fill(t, draw, k))
  {
  }

  /** The template is laid out as a UUID. */
  lemma TemplateShape()
    ensures IsUuidTemplate(UuidTemplate)
  {
    var t := UuidTemplate;
    assert t == "xxxxxxxx" + "-" + "xxxx" + "-4" + "xxx" + "-y" + "xxx" + "-" + "xxxxxxxxxxxx";
    AllX("xxxxxxxx");
    AllX("xxxx");
    AllX("xxx");
    AllX("xxxxxxxxxxxx");
  }

  lemma AllX(s: string)
    requires s == "xxxxxxxx" || s == "xxxx" || s == "xxx" || s == "xxxxxxxxxxxx"
    ensures forall i :: 0 <= i < |s| ==> s[i] == 'x'
  {
  }

  // ---------------------------------------------------------------------
  // Bot types and the form
  // ---------------------------------------------------------------------

  datatype BotParameter = BotParameter(id: int, key: string, name: string, kind: string, description: string,
                                       defaultValue: Option<string>)

  /** A bot type of a node. `id` is not part of the declared type, so it
      is `undefined` unless the server happens to send one. */
  datatype BotType = BotType(id: Option<string>, kind: string, name: string, parameters: seq<BotParameter>)

  datatype BotNode = BotNode(id: string, bots: seq<BotType>)

  datatype Form = Form(title: string, subtitle: string, tag: string, name: string, description: string,
                       node: string, botType: string, values: map<string, string>, error: Option<string>)

  const DefaultTag := "mdi-robot"

  function EmptyForm(): Form {
    Form("", "", DefaultTag, "", "", "", "", map[], None)
  }

  /** `handleBotNodeChange`: a new node forgets the type and every value. */
  function ChangeNode(f: Form, nodeId: string): (r: Form)
    ensures r.node == nodeId && r.botType == "" && r.values == map[]
    ensures r.(node := f.node, botType := f.botType, values := f.values) == f
  {
    f.(node := nodeId, botType := "", values := map[])
  }

  /** `handleBotTypeChange`: a new type forgets every value. */
  function ChangeType(f: Form, typeName: string): (r: Form)
    ensures r.botType == typeName && r.values == map[] && r.node == f.node
    ensures r.(botType := f.botType, values := f.values) == f
  {
    f.(botType := typeName, values := map[])
  }

  /** `handleParameterChange`. */
  function ChangeParameter(f: Form, key: string, value: string): (r: Form)
    ensures key in r.values && r.values[key] == value
    ensures forall k :: k in f.values && k != key ==> k in r.values && r.values[k] == f.values[k]
    ensures r.values.Keys == f.values.Keys + {key}
  {
    f.(values := f.values[key := value])
  }

  // ---------------------------------------------------------------------
  // Loading an existing preset
  // ---------------------------------------------------------------------

  datatype StoredValue = StoredValue(key: string, value: string)

  datatype StoredPreset = StoredPreset(id: string, title: Option<string>, subtitle: Option<string>,
                                       tag: Option<string>, name: Option<string>, description: Option<string>,
                                       botId: Option<string>, parameterValues: Option<seq<StoredValue>>)

  /** `x || d` for an optional string. */
  function Or(a: Option<string>, d: string): (r: string)
    ensures a.Some? && a.value != "" ==> r == a.value
    ensures a.None? || a.value == "" ==> r == d
  {
    if a.Some? && a.value != "" then a.value else d
  }

  function KeyValue(v: StoredValue): (string, string) {
    (v.key, v.value)
  }

  /** `paramObj[pv.parameter.key] = pv.value` over the stored values. */
  function LoadedValues(stored: Option<seq<StoredValue>>): (m: map<string, string>)
    ensures stored.None? ==> m == map[]
    ensures stored.Some? ==> forall k :: k in m <==> exists i :: 0 <= i < |stored.value| && stored.value[i].key == k
  {
    if stored.None? then map[]
    else
      var pairs := seq(|stored.value|, i requires 0 <= i < |stored.value| => KeyValue(stored.value[i]));
      assert forall i :: 0 <= i < |pairs| ==> pairs[i].0 == stored.value[i].key;
      LastWins(pairs)
  }

  /** A key stored twice keeps its last value. */
  lemma LoadedValuesLastWins(stored: seq<StoredValue>, i: nat)
    requires i < |stored|
    requires forall j :: i < j < |stored| ==> stored[j].key != stored[i].key
    ensures stored[i].key in LoadedValues(Some(stored)) && LoadedValues(Some(stored))[stored[i].key] == stored[i].value
  {
    var pairs := seq(|stored|, j requires 0 <= j < |stored| => KeyValue(stored[j]));
    LastWinsValue(pairs, i);
  }

  function IsPreset(id: string): StoredPreset -> bool {
    (p: StoredPreset) => p.id == id
  }

  /** The edit branch of `loadData`, which first clears the error: the
      first preset with the route id fills the form; the type is left
      unselected. */
  function LoadPreset(f: Form, presets: seq<StoredPreset>, id: string): (r: Form)
    ensures Find(presets, IsPreset(id)).None? ==> r == f.(error := Some("Bot Preset not found."))
    ensures Find(presets, IsPreset(id)).Some? ==>
              var p := Find(presets, IsPreset(id)).value;
              p.id == id && r.node == Or(p.botId, "") && r.botType == "" && r.tag == Or(p.tag, DefaultTag) &&
              r.title == Or(p.title, "") && r.subtitle == Or(p.subtitle, "") && r.name == Or(p.name, "") &&
              r.description == Or(p.description, "") && r.values == LoadedValues(p.parameterValues) &&
              r.error.None?
  {
    match Find(presets, IsPreset(id))
    case None => f.(error := Some("Bot Preset not found."))
    case Some(p) =>
      f.(title := Or(p.title, ""), subtitle := Or(p.subtitle, ""), tag := Or(p.tag, DefaultTag),
         name := Or(p.name, ""), description := Or(p.description, ""), node := Or(p.botId, ""),
         botType := "", values := LoadedValues(p.parameterValues), error := None)
  }

  // ---------------------------------------------------------------------
  // Submitting
  // ---------------------------------------------------------------------

  function NodeIs(id: string): BotNode -> bool {
    (n: BotNode) => n.id == id
  }

  function TypeIs(kind: string): BotType -> bool {
    (b: BotType) => b.kind == kind
  }

  /** Position `i` holds the first node with the id. */
  predicate FirstNodeAt(nodes: seq<BotNode>, id: string, i: int) {
    0 <= i < |nodes| && nodes[i].id == id && forall j :: 0 <= j < i ==> nodes[j].id != id
  }

  /** Position `k` holds the first type of the kind. */
  predicate FirstTypeAt(bots: seq<BotType>, kind: string, k: int) {
    0 <= k < |bots| && bots[k].kind == kind && forall j :: 0 <= j < k ==> bots[j].kind != kind
  }

  /** `getCurrentBotType`: the type of that name on the first node with
      that id. Only that node is searched: a later node with the same id is
      never looked at. */
  function CurrentBotType(f: Form, nodes: seq<BotNode>): (r: Option<BotType>)
    ensures f.node == "" || f.botType == "" ==> r.None?
    ensures f.node != "" && f.botType != "" ==>
              (r.Some? <==> exists i :: FirstNodeAt(nodes, f.node, i) &&
                                        exists k :: 0 <= k < |nodes[i].bots| && nodes[i].bots[k].kind == f.botType)
    ensures r.Some? ==> exists i, k :: FirstNodeAt(nodes, f.node, i) && FirstTypeAt(nodes[i].bots, f.botType, k) &&
                                       r.value == nodes[i].bots[k]
  {
    if f.node == "" || f.botType == "" then None
    else
      var found := Find(nodes, NodeIs(f.node));
      FirstNodeFound(nodes, f.node);
      match found
      case None => None
      case Some(n) =>
        FirstTypeFound(n.bots, f.botType);
        Find(n.bots, TypeIs(f.botType))
  }

  /** A node appended after one with the same id is never consulted, even
      when it lists the chosen type. */
  lemma LaterNodeIgnored(f: Form, nodes: seq<BotNode>, extra: BotNode)
    requires exists i :: 0 <= i < |nodes| && nodes[i].id == f.node
    ensures CurrentBotType(f, nodes + [extra]) == CurrentBotType(f, nodes)
  {
    var all := nodes + [extra];
    var i :| 0 <= i < |nodes| && nodes[i].id == f.node;
    var first := FindFirst(nodes, NodeIs(f.node));
    assert NodeIs(f.node)(nodes[i]);
    var k := first.value;
    assert forall j :: 0 <= j < k ==> all[j] == nodes[j];
    FindFirstAt(all, NodeIs(f.node), k);
    assert Find(all, NodeIs(f.node)) == Find(nodes, NodeIs(f.node));
  }

  /** `Find` by id gives the node at the first position with that id, and
      finds nothing exactly when no position has it. */
  lemma FirstNodeFound(nodes: seq<BotNode>, id: string)
    ensures Find(nodes, NodeIs(id)).None? <==> forall i :: !FirstNodeAt(nodes, id, i)
    ensures forall i :: FirstNodeAt(nodes, id, i) ==> Find(nodes, NodeIs(id)) == Some(nodes[i])
  {
    forall i | FirstNodeAt(nodes, id, i) ensures Find(nodes, NodeIs(id)) == Some(nodes[i]) {
      FindFirstAt(nodes, NodeIs(id), i);
    }
    if Find(nodes, NodeIs(id)).Some? {
      var r := Find(nodes, NodeIs(id));
      var i' :| 0 <= i' < |nodes| && nodes[i'] == r.value && NodeIs(id)(nodes[i']) &&
                forall j :: 0 <= j < i' ==> !NodeIs(id)(nodes[j]);
      assert FirstNodeAt(nodes, id, i');
    }
  }

  /** The same for a type of a kind among a node's types. */
  lemma FirstTypeFound(bots: seq<BotType>, kind: string)
    ensures Find(bots, TypeIs(kind)).None? <==> forall k :: 0 <= k < |bots| ==> bots[k].kind != kind
    ensures Find(bots, TypeIs(kind)).Some? ==>
              exists k :: FirstTypeAt(bots, kind, k) && Find(bots, TypeIs(kind)).value == bots[k]
  {
    assert forall k :: 0 <= k < |bots| ==> (TypeIs(kind)(bots[k]) <==> bots[k].kind == kind);
  }

  datatype ParameterValue = ParameterValue(value: string, parameter: BotParameter)

  /** The value sent for one parameter: what was entered, else its default,
      else `''`. */
  function ValueFor(values: map<string, string>, p: BotParameter): (v: ParameterValue)
    ensures v.parameter == p
    ensures p.key in values && values[p.key] != "" ==> v.value == values[p.key]
    ensures (p.key !in values || values[p.key] == "") ==> v.value == Or(p.defaultValue, "")
  {
    var entered := if p.key in values then Some(values[p.key]) else None;
    ParameterValue(if entered.Some? && entered.value != "" then entered.value else Or(p.defaultValue, ""), p)
  }

  datatype Payload = Payload(id: string, title: string, subtitle: string, tag: string, name: string,
                             description: string, botId: Option<string>, parameterValues: seq<ParameterValue>)

  datatype Submitted = Refused(message: string) | Create(payload: Payload) | Update(id: string, payload: Payload)

  /** `handleSubmit`: `routeId` is the id being edited (`None` or `''` when
      creating) and `uuid` the id `generateUUID` would give. */
  function Submit(f: Form, nodes: seq<BotNode>, routeId: Option<string>, uuid: string): (r: Submitted)
    ensures f.node == "" || f.botType == "" ==> r == Refused("Please select both a bot node and a bot type.")
    ensures f.node != "" && f.botType != "" && CurrentBotType(f, nodes).None? ==> r == Refused("Selected bot type not found.")
    ensures !r.Refused? ==>
              var t := CurrentBotType(f, nodes).value;
              var p := r.payload;
              p.title == Or(Some(f.title), f.name) && p.subtitle == Or(Some(f.subtitle), f.description) &&
              p.tag == f.tag && p.name == f.name && p.description == f.description &&
              p.botId == t.id && |p.parameterValues| == |t.parameters| &&
              forall i :: 0 <= i < |t.parameters| ==> p.parameterValues[i] == ValueFor(f.values, t.parameters[i])
    ensures r.Update? <==> !r.Refused? && routeId.Some? && routeId.value != ""
    ensures r.Update? ==> r.id == routeId.value && r.payload.id == routeId.value
    ensures r.Create? ==> r.payload.id == uuid
  {
    if f.node == "" || f.botType == "" then Refused("Please select both a bot node and a bot type.")
    else match CurrentBotType(f, nodes)
      case None => Refused("Selected bot type not found.")
      case Some(t) =>
        var values := seq(|t.parameters|, i requires 0 <= i < |t.parameters| => ValueFor(f.values, t.parameters[i]));
        var id := Or(routeId, uuid);
        var p := Payload(id, Or(Some(f.title), f.name), Or(Some(f.subtitle), f.description), f.tag, f.name,
                         f.description, t.id, values);
        if routeId.Some? && routeId.value != "" then Update(routeId.value, p) else Create(p)
  }

  /** A freshly chosen type sends every parameter at its default. */
  lemma NewTypeSendsDefaults(f: Form, nodes: seq<BotNode>, typeName: string, routeId: Option<string>, uuid: string)
    ensures var r := Submit(ChangeType(f, typeName), nodes, routeId, uuid);
            !r.Refused? ==>
              var t := CurrentBotType(ChangeType(f, typeName), nodes).value;
              forall i :: 0 <= i < |t.parameters| ==> r.payload.parameterValues[i].value == Or(t.parameters[i].defaultValue, "")
  {
  }

  /** After a node change the form cannot be submitted until a type is
      chosen again. */
  lemma NodeChangeNeedsType(f: Form, nodeId: string, nodes: seq<BotNode>, routeId: Option<string>, uuid: string)
    ensures Submit(ChangeNode(f, nodeId), nodes, routeId, uuid).Refused?
  {
  }

  /** Loading a preset leaves the type unselected, and selecting one clears
      the loaded values: an edited preset is always sent with the values
      entered after loading, or the defaults. */
  lemma LoadedValuesNeverSent(f: Form, presets: seq<StoredPreset>, id: string, nodes: seq<BotNode>,
                              routeId: Option<string>, uuid: string, typeName: string)
    ensures Submit(LoadPreset(f, presets, id), nodes, routeId, uuid).Refused? || Find(presets, IsPreset(id)).None?
    ensures ChangeType(LoadPreset(f, presets, id), typeName).values == map[] || Find(presets, IsPreset(id)).None?
  {
  }
}
