/** JSON values as both halves of the system see them: the Python gateway
    (dicts, lists, `None`) and the TypeScript front end (objects, arrays,
    `null`). Numbers are integers; objects are maps, so key order is not
    represented. The module also fixes the two languages' rules for
    truthiness, equality with a path parameter, member access and
    conversion to text. */
module JsonData {
  import opened Wrappers
  import opened Text

  datatype Json =
    | JNull
    | JBool(b: bool)
    | JInt(i: int)
    | JStr(s: string)
    | JArr(elems: seq<Json>)
    | JObj(fields: map<string, Json>)

  // ---------------------------------------------------------------------
  // Member access
  // ---------------------------------------------------------------------

  /** The member `k` of an object. `None` is JavaScript's `undefined` and, in
      Python, the `KeyError`/`TypeError` that `v[k]` raises. */
  function Field(v: Json, k: string): (r: Option<Json>)
    ensures r.Some? <==> v.JObj? && k in v.fields
    ensures r.Some? ==> r.value == v.fields[k]
  {
    if v.JObj? && k in v.fields then Some(v.fields[k]) else None
  }

  /** Python `v.get(k, d)`: the member or the default on a dict; `None` stands
      for the `AttributeError` raised on anything that is not a dict. */
  function PyGet(v: Json, k: string, d: Json): (r: Option<Json>)
    ensures r.Some? <==> v.JObj?
    ensures v.JObj? && k in v.fields ==> r == Some(v.fields[k])
    ensures v.JObj? && k !in v.fields ==> r == Some(d)
  {
    if v.JObj? then Some(if k in v.fields then v.fields[k] else d) else None
  }

  /** Python `d[k] = x` on a dict: `k` is bound to `x`, every other key keeps
      its value. `None` is the `TypeError` raised when `v` is not a dict. */
  function PySet(v: Json, k: string, x: Json): (r: Option<Json>)
    ensures r.Some? <==> v.JObj?
    ensures r.Some? ==> r.value.JObj? && r.value.fields.Keys == v.fields.Keys + {k}
    ensures r.Some? ==> r.value.fields[k] == x
    ensures r.Some? ==> forall j :: j in v.fields && j != k ==> r.value.fields[j] == v.fields[j]
  {
    if v.JObj? then Some(JObj(v.fields[k := x])) else None
  }

  // ---------------------------------------------------------------------
  // Truthiness
  // ---------------------------------------------------------------------

  /** JavaScript truthiness: `null`, `false`, `0` and `""` are falsy; every
      array and object is truthy. */
  predicate JsTruthy(v: Json) {
    match v
    case JNull => false
    case JBool(b) => b
    case JInt(i) => i != 0
    case JStr(s) => s != ""
    case JArr(_) => true
    case JObj(_) => true
  }

  /** JavaScript truthiness of a possibly `undefined` value. */
  predicate JsTruthyOpt(v: Option<Json>) {
    v.Some? && JsTruthy(v.value)
  }

  /** Python truthiness: `None`, `False`, `0`, `""`, `[]` and `{}` are falsy. */
  predicate PyTruthy(v: Json) {
    match v
    case JNull => false
    case JBool(b) => b
    case JInt(i) => i != 0
    case JStr(s) => s != ""
    case JArr(e) => e != []
    case JObj(m) => m != map[]
  }

  /** The two languages differ only on empty containers. */
  lemma TruthinessDiffersOnlyOnEmptyContainers(v: Json)
    ensures JsTruthy(v) != PyTruthy(v) <==> v == JArr([]) || v == JObj(map[])
  {
  }

  /** JavaScript `a || d` where `a` may be `undefined`. */
  function JsOr(a: Option<Json>, d: Json): (r: Json)
    ensures JsTruthyOpt(a) ==> r == a.value
    ensures !JsTruthyOpt(a) ==> r == d
  {
    if JsTruthyOpt(a) then a.value else d
  }

  /** JavaScript `Boolean(a)`. */
  function JsBoolean(a: Option<Json>): (r: bool)
    ensures r <==> JsTruthyOpt(a)
  {
    a.Some? && JsTruthy(a.value)
  }

  // ---------------------------------------------------------------------
  // Equality and conversion to text
  // ---------------------------------------------------------------------

  /** Python `v == s` for a string `s`: only an equal string matches. */
  predicate PyEqStr(v: Json, s: string) {
    v == JStr(s)
  }

  /** Python `v == n` for an integer `n`: `True == 1` and `False == 0`. */
  predicate PyEqInt(v: Json, n: int) {
    (v.JInt? && v.i == n) || (v.JBool? && (if v.b then 1 else 0) == n)
  }

  /** Python `str(v)` for a scalar. The text of a container is not part of
      the model (`None`). */
  function PyStr(v: Json): (r: Option<string>)
    ensures r.None? <==> v.JArr? || v.JObj?
    ensures v.JStr? ==> r == Some(v.s)
    ensures v.JInt? ==> r == Some(IntToString(v.i))
  {
    match v
    case JNull => Some("None")
    case JBool(b) => Some(if b then "True" else "False")
    case JInt(i) => Some(IntToString(i))
    case JStr(s) => Some(s)
    case JArr(_) => None
    case JObj(_) => None
  }

  /** JavaScript `String(v)`: arrays print their elements joined by `,` (with
      `null` elements printed as nothing), objects print as
      `[object Object]`. */
  function JsString(v: Json): (r: string)
    ensures v.JStr? ==> r == v.s
    ensures v.JInt? ==> r == IntToString(v.i)
    decreases v, 1
  {
    match v
    case JNull => "null"
    case JBool(b) => if b then "true" else "false"
    case JInt(i) => IntToString(i)
    case JStr(s) => s
    case JArr(e) => JoinElements(v, e)
    case JObj(_) => "[object Object]"
  }

  /** The `Array.prototype.join(",")` text of `e`, the elements of `parent`. */
  function JoinElements(parent: Json, e: seq<Json>): (r: string)
    requires forall x :: x in e ==> x < parent
    decreases parent, 0, |e|
  {
    if |e| == 0 then ""
    else
      assert e[0] in e;
      assert forall x :: x in e[1..] ==> x in e;
      var head := if e[0].JNull? then "" else JsString(e[0]);
      if |e| == 1 then head else head + "," + JoinElements(parent, e[1..])
  }

  /** JavaScript `String(v)` on a possibly `undefined` value. */
  function JsStringOpt(v: Option<Json>): (r: string)
    ensures v.None? ==> r == "undefined"
    ensures v.Some? ==> r == JsString(v.value)
  {
    if v.None? then "undefined" else JsString(v.value)
  }

  /** JavaScript `v.toString()` on a possibly `undefined` value; `None` is the
      `TypeError` thrown for `null` and `undefined`. */
  function JsToString(v: Option<Json>): (r: Option<string>)
    ensures r.None? <==> v.None? || v.value.JNull?
    ensures r.Some? ==> r.value == JsString(v.value)
  {
    if v.None? || v.value.JNull? then None else Some(JsString(v.value))
  }

  /** An integer id and its decimal text compare equal under `String(...)`,
      which is how the front end matches numeric ids against route
      parameters. */
  lemma JsStringOfIntMatchesText(n: int, text: string)
    ensures JsString(JInt(n)) == JsString(JStr(text)) <==> text == IntToString(n)
  {
  }

  // ---------------------------------------------------------------------
  // Python iteration and membership
  // ---------------------------------------------------------------------

  /** The elements `for x in v` visits in Python; `None` is the `TypeError`
      raised on a value that is not iterable. A list yields its elements, a
      string its one-character strings, and a dict its keys, which are
      strings: since the object model keeps no key order, each key is
      represented by the same placeholder string. Every scan in the gateway
      treats a string element alike whatever its text (see the lemmas next
      to each scan), so only the number of keys matters. */
  function PyIter(v: Json): (r: Option<seq<Json>>)
    ensures r.None? <==> v.JNull? || v.JBool? || v.JInt?
    ensures v.JArr? ==> r == Some(v.elems)
    ensures v.JObj? ==> r.Some? && |r.value| == |v.fields|
    ensures r.Some? && !v.JArr? ==> forall x :: x in r.value ==> x.JStr?
  {
    match v
    case JArr(e) => Some(e)
    case JStr(s) => Some(seq(|s|, i requires 0 <= i < |s| => JStr([s[i]])))
    case JObj(m) => Some(seq(|m|, i => JStr("")))
    case _ => None
  }

  /** Python `x in v` for a string `x`: key membership in a dict, element
      equality in a list, substring in a string; `None` is the `TypeError`
      raised otherwise. */
  function PyContainsStr(v: Json, x: string): (r: Option<bool>)
    ensures r.None? <==> v.JNull? || v.JBool? || v.JInt?
    ensures v.JObj? ==> r == Some(x in v.fields)
    ensures v.JArr? ==> r == Some(JStr(x) in v.elems)
  {
    match v
    case JObj(m) => Some(x in m)
    case JArr(e) => Some(JStr(x) in e)
    case JStr(s) => Some(Contains(s, x))
    case _ => None
  }

  /** Python `len(v)`: the number of elements, keys or characters; `None`
      is the `TypeError` raised on a scalar. */
  function PyLen(v: Json): (r: Option<nat>)
    ensures r.None? <==> v.JNull? || v.JBool? || v.JInt?
    ensures v.JArr? ==> r == Some(|v.elems|)
  {
    match v
    case JArr(e) => Some(|e|)
    case JObj(m) => Some(|m|)
    case JStr(s) => Some(|s|)
    case _ => None
  }
}
