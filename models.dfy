/**
 * Record hydration: a catalogue row (as the SQLite driver returns it) becomes a
 * Component. Python exceptions become `Err` values; `json.loads` and the text form
 * of a REAL key are parameters, since they are library code outside the model.
 */
module Models {
  import opened Wrappers
  import opened Text
  import UnitUtils

  /** A value as SQLite hands it to Python: NULL, INTEGER, REAL or TEXT. */
  datatype SqlValue = SqlNull | SqlInt(i: int) | SqlReal(r: real) | SqlText(s: string)

  /** `dict(row)`: column name to value. */
  type Row = map<string, SqlValue>

  /** A value `json.loads` produces. */
  datatype Json =
    | JNull
    | JBool(b: bool)
    | JInt(n: int)
    | JReal(r: real)
    | JStr(s: string)
    | JList(items: seq<Json>)
    | JObj(fields: map<string, Json>)

  /** The exceptions hydration can raise, and `sqlite3.OperationalError` from running a statement. */
  datatype PyError = KeyError(key: string) | TypeError | ValueError | JsonDecodeError | AttributeError
    | SqliteOperationalError(message: string)

  /** `json.loads`: None stands for a decode error. */
  type Loads = string -> Option<Json>

  datatype PriceTier = PriceTier(qty: int, price: real)

  datatype AttributeValue = AttributeValue(value: Json, unit: Json)

  /** An attribute is either a structured value with a unit or a raw JSON value kept verbatim. */
  datatype Attribute = Structured(av: AttributeValue) | Plain(raw: Json)

  datatype Component = Component(
    lcsc: string,
    mfr: SqlValue,
    description: SqlValue,
    manufacturer: SqlValue,
    category: SqlValue,
    subcategory: SqlValue,
    joints: int,
    basic: bool,
    stock: int,
    priceTiers: seq<PriceTier>,
    attributes: map<string, Attribute>)
  {
    /** The unit price: the first tier's price, or 0.0 without tiers. */
    function Price(): (p: real)
      ensures priceTiers == [] ==> p == 0.0
      ensures priceTiers != [] ==> p == priceTiers[0].price
    {
      if priceTiers == [] then 0.0 else priceTiers[0].price
    }

    function GetAttribute(name: string): (r: Option<Attribute>)
      ensures r.Some? <==> name in attributes
      ensures r.Some? ==> r.value == attributes[name]
    {
      if name in attributes then Some(attributes[name]) else None
    }

    /** The attribute's value without its unit; JNull (Python's None) when absent. */
    function GetAttributeValue(name: string): (v: Json)
      ensures name !in attributes ==> v == JNull
      ensures name in attributes && attributes[name].Structured? ==> v == attributes[name].av.value
      ensures name in attributes && attributes[name].Plain? ==> v == attributes[name].raw
    {
      match GetAttribute(name)
      case None => JNull
      case Some(Structured(av)) => av.value
      case Some(Plain(raw)) => raw
    }
  }

  // ---------------------------------------------------------------------------
  // Python conversions

  /** int() of a real: truncation toward zero. */
  function Truncate(r: real): (n: int)
    ensures r >= 0.0 ==> n as real <= r < n as real + 1.0
    ensures r < 0.0 ==> n as real - 1.0 < r <= n as real
  {
    if r >= 0.0 then r.Floor else -((-r).Floor)
  }

  /** int() of a string: optional sign and ASCII digits, surrounding white space allowed. */
  function ParseIntText(s: string): (r: Result<int, PyError>)
    ensures r.Err? ==> r.error == ValueError
  {
    var t := Strip(s);
    var n := UnitUtils.SignLength(t);
    var digits := t[n..];
    if digits != [] && AllDigits(digits) then
      Ok(if t[..n] == "-" then -(DigitsValue(digits) as int) else DigitsValue(digits) as int)
    else Err(ValueError)
  }

  /** float() of a string, restricted to the plain decimal grammar. */
  function ParseFloatText(s: string): (r: Result<real, PyError>)
    ensures r.Err? ==> r.error == ValueError
  {
    var t := Strip(s);
    var n := UnitUtils.SignLength(t);
    var run := t[n..];
    if UnitUtils.ValidDecimal(run) then Ok(UnitUtils.Magnitude(t[..n], run)) else Err(ValueError)
  }

  function JsonToInt(j: Json): (r: Result<int, PyError>)
    ensures j.JInt? ==> r == Ok(j.n)
    ensures j.JNull? || j.JList? || j.JObj? ==> r == Err(TypeError)
  {
    match j
    case JInt(n) => Ok(n)
    case JBool(b) => Ok(if b then 1 else 0)
    case JReal(r) => Ok(Truncate(r))
    case JStr(s) => ParseIntText(s)
    case _ => Err(TypeError)
  }

  function JsonToFloat(j: Json): (r: Result<real, PyError>)
    ensures j.JReal? ==> r == Ok(j.r)
    ensures j.JInt? ==> r == Ok(j.n as real)
    ensures j.JNull? || j.JList? || j.JObj? ==> r == Err(TypeError)
  {
    match j
    case JInt(n) => Ok(n as real)
    case JBool(b) => Ok(if b then 1.0 else 0.0)
    case JReal(r) => Ok(r)
    case JStr(s) => ParseFloatText(s)
    case _ => Err(TypeError)
  }

  function SqlToInt(v: SqlValue): (r: Result<int, PyError>)
    ensures v.SqlInt? ==> r == Ok(v.i)
    ensures v.SqlNull? ==> r == Err(TypeError)
  {
    match v
    case SqlNull => Err(TypeError)
    case SqlInt(i) => Ok(i)
    case SqlReal(r) => Ok(Truncate(r))
    case SqlText(s) => ParseIntText(s)
  }

  /** bool(): Python truthiness. */
  predicate Truthy(v: SqlValue) {
    match v
    case SqlNull => false
    case SqlInt(i) => i != 0
    case SqlReal(r) => r != 0.0
    case SqlText(s) => s != ""
  }

  /** The key as the Component holds it: "C" and the digits for an integer key, str() of anything else. */
  function LcscText(v: SqlValue, floatRepr: real -> string): (s: string)
    ensures v.SqlInt? ==> s == "C" + IntToString(v.i)
    ensures v.SqlText? ==> s == v.s
  {
    match v
    case SqlInt(i) => "C" + IntToString(i)
    case SqlText(s) => s
    case SqlNull => "None"
    case SqlReal(r) => floatRepr(r)
  }

  /** A non-negative integer key round-trips through its text form. */
  lemma LcscOfNatKey(n: nat, floatRepr: real -> string)
    ensures var s := LcscText(SqlInt(n), floatRepr);
      |s| >= 2 && s[0] == 'C' && AllDigits(s[1..]) && DigitsValue(s[1..]) == n
  {
    var s := LcscText(SqlInt(n), floatRepr);
    assert s[1..] == NatToString(n);
    DigitsValueOfNatToString(n);
  }

  /** Distinct integer keys hydrate to distinct identifiers. */
  lemma LcscInjective(m: nat, n: nat, floatRepr: real -> string)
    requires LcscText(SqlInt(m), floatRepr) == LcscText(SqlInt(n), floatRepr)
    ensures m == n
  {
    LcscOfNatKey(m, floatRepr);
    LcscOfNatKey(n, floatRepr);
  }

  // ---------------------------------------------------------------------------
  // Price tiers

  /** PriceTier.from_dict: the tier's starting quantity and unit price. */
  function TierFromDict(data: Json): (r: Result<PriceTier, PyError>)
    ensures !data.JObj? ==> r == Err(TypeError)
    ensures data.JObj? && "qFrom" !in data.fields ==> r == Err(KeyError("qFrom"))
    ensures r.Ok? ==>
      && data.JObj? && "qFrom" in data.fields && "price" in data.fields
      && JsonToInt(data.fields["qFrom"]) == Ok(r.value.qty)
      && JsonToFloat(data.fields["price"]) == Ok(r.value.price)
  {
    if !data.JObj? then Err(TypeError)
    else if "qFrom" !in data.fields then Err(KeyError("qFrom"))
    else match JsonToInt(data.fields["qFrom"])
      case Err(e) => Err(e)
      case Ok(qty) =>
        if "price" !in data.fields then Err(KeyError("price"))
        else match JsonToFloat(data.fields["price"])
          case Err(e) => Err(e)
          case Ok(price) => Ok(PriceTier(qty, price))
  }

  /** The tier comprehension: one tier per element, in order, or the first element's error. */
  function PriceTiers(items: seq<Json>): (r: Result<seq<PriceTier>, PyError>)
    ensures r.Ok? ==> |r.value| == |items| && forall i :: 0 <= i < |items| ==> TierFromDict(items[i]) == Ok(r.value[i])
    ensures r.Err? ==> exists i :: 0 <= i < |items| && TierFromDict(items[i]) == Err(r.error)
  {
    if items == [] then Ok([])
    else match TierFromDict(items[0])
      case Err(e) => Err(e)
      case Ok(t) =>
        match PriceTiers(items[1..])
        case Err(e) =>
          var i :| 0 <= i < |items[1..]| && TierFromDict(items[1..][i]) == Err(e);
          assert TierFromDict(items[i + 1]) == Err(e);
          Err(e)
        case Ok(ts) => Ok([t] + ts)
  }

  /** Every element converts exactly when the comprehension succeeds. */
  lemma PriceTiersFailIffSomeTierFails(items: seq<Json>)
    ensures PriceTiers(items).Err? <==> exists i :: 0 <= i < |items| && TierFromDict(items[i]).Err?
  {
    if PriceTiers(items).Ok? {
      forall i | 0 <= i < |items| ensures TierFromDict(items[i]).Ok? {
        assert TierFromDict(items[i]) == Ok(PriceTiers(items).value[i]);
      }
    }
  }

  /** What iterating the stored price yields: a JSON list's elements; an empty string or object yields nothing; anything else fails. */
  function PriceItems(v: SqlValue, loads: Loads): (r: Result<seq<Json>, PyError>)
    ensures v.SqlText? && loads(v.s).Some? && loads(v.s).value.JList? ==> r == Ok(loads(v.s).value.items)
    ensures v.SqlText? && loads(v.s).None? ==> r == Err(JsonDecodeError)
    ensures !v.SqlText? ==> r == Err(TypeError)
  {
    if !v.SqlText? then Err(TypeError)
    else match loads(v.s)
      case None => Err(JsonDecodeError)
      case Some(JList(items)) => Ok(items)
      case Some(JObj(m)) => if m == map[] then Ok([]) else Err(TypeError)
      case Some(JStr(t)) => if t == "" then Ok([]) else Err(TypeError)
      case Some(_) => Err(TypeError)
  }

  // ---------------------------------------------------------------------------
  // Attributes

  /** The attributes payload: absent, NULL or "" mean no attributes; text is decoded and must be an object. */
  function AttributesData(row: Row, loads: Loads): (r: Result<map<string, Json>, PyError>)
    ensures "attributes" !in row ==> r == Ok(map[])
    ensures "attributes" in row && row["attributes"] in {SqlNull, SqlText("")} ==> r == Ok(map[])
    ensures "attributes" in row && (row["attributes"].SqlInt? || row["attributes"].SqlReal?) ==> r == Err(AttributeError)
  {
    if "attributes" !in row || row["attributes"] == SqlNull || row["attributes"] == SqlText("") then Ok(map[])
    else if !row["attributes"].SqlText? then Err(AttributeError)
    else match loads(row["attributes"].s)
      case None => Err(JsonDecodeError)
      case Some(JObj(m)) => Ok(m)
      case Some(_) => Err(AttributeError)
  }

  /** AttributeValue.from_dict: an object gives its "value" and optional "unit"; a scalar gives itself without unit. */
  function AttributeValueFromDict(data: Json): (r: Result<AttributeValue, PyError>)
    ensures data.JObj? && "value" in data.fields ==> r.Ok? && r.value.value == data.fields["value"]
    ensures data.JObj? && "value" !in data.fields ==> r == Err(KeyError("value"))
    ensures !data.JObj? ==> r == Ok(AttributeValue(data, JNull))
    ensures r.Ok? && data.JObj? ==> r.value.unit == (if "unit" in data.fields then data.fields["unit"] else JNull)
  {
    match data
    case JObj(m) =>
      if "value" in m then Ok(AttributeValue(m["value"], if "unit" in m then m["unit"] else JNull))
      else Err(KeyError("value"))
    case _ => Ok(AttributeValue(data, JNull))
  }

  predicate HasValueField(v: Json) {
    v.JObj? && "value" in v.fields
  }

  /** One attribute: an object with a "value" field becomes structured, anything else is kept verbatim. */
  function ConvertAttribute(v: Json): (a: Attribute)
    ensures HasValueField(v) <==> a.Structured?
    ensures a.Structured? ==> Ok(a.av) == AttributeValueFromDict(v)
    ensures a.Plain? ==> a.raw == v
  {
    if HasValueField(v) then Structured(AttributeValueFromDict(v).value) else Plain(v)
  }

  function ConvertAttributes(m: map<string, Json>): (r: map<string, Attribute>)
    ensures r.Keys == m.Keys
    ensures forall k :: k in m ==> r[k] == ConvertAttribute(m[k])
  {
    map k | k in m :: ConvertAttribute(m[k])
  }

  /** The hydration loop over the decoded attributes, filling the result one key at a time. */
  method BuildAttributes(m: map<string, Json>) returns (attrs: map<string, Attribute>)
    ensures attrs.Keys == m.Keys
    ensures forall k :: k in m ==> attrs[k] == ConvertAttribute(m[k])
  {
    attrs := map[];
    var todo := m.Keys;
    while todo != {}
      invariant todo <= m.Keys
      invariant attrs.Keys == m.Keys - todo
      invariant forall k :: k in attrs ==> attrs[k] == ConvertAttribute(m[k])
      decreases |todo|
    {
      var key :| key in todo;
      var value := m[key];
      if value.JObj? && "value" in value.fields {
        var av := AttributeValueFromDict(value);
        attrs := attrs[key := Structured(av.value)];
      } else {
        attrs := attrs[key := Plain(value)];
      }
      todo := todo - {key};
    }
  }

  // ---------------------------------------------------------------------------
  // Component.from_db_row

  function Column(row: Row, name: string): (r: Result<SqlValue, PyError>)
    ensures name in row <==> r.Ok?
    ensures r.Ok? ==> r.value == row[name]
    ensures r.Err? ==> r.error == KeyError(name)
  {
    if name in row then Ok(row[name]) else Err(KeyError(name))
  }

  /** The fields after the attributes, evaluated in the order the constructor call lists them. */
  function Finish(row: Row, lcsc: string, tiers: seq<PriceTier>, attributes: map<string, Attribute>): Result<Component, PyError> {
    match Column(row, "mfr")
    case Err(e) => Err(e)
    case Ok(mfr) =>
    match Column(row, "description")
    case Err(e) => Err(e)
    case Ok(description) =>
    match Column(row, "manufacturer")
    case Err(e) => Err(e)
    case Ok(manufacturer) =>
    match Column(row, "category")
    case Err(e) => Err(e)
    case Ok(category) =>
    match Column(row, "subcategory")
    case Err(e) => Err(e)
    case Ok(subcategory) =>
    match Column(row, "joints")
    case Err(e) => Err(e)
    case Ok(jv) =>
    match SqlToInt(jv)
    case Err(e) => Err(e)
    case Ok(joints) =>
    match Column(row, "basic")
    case Err(e) => Err(e)
    case Ok(bv) =>
    match Column(row, "stock")
    case Err(e) => Err(e)
    case Ok(sv) =>
    match SqlToInt(sv)
    case Err(e) => Err(e)
    case Ok(stock) =>
      Ok(Component(lcsc, mfr, description, manufacturer, category, subcategory,
                   joints, Truthy(bv), stock, tiers, attributes))
  }

  /** Component.from_db_row. */
  function FromDbRow(row: Row, loads: Loads, floatRepr: real -> string): (r: Result<Component, PyError>)
    ensures "lcsc" !in row ==> r == Err(KeyError("lcsc"))
    ensures "lcsc" in row && "price" !in row ==> r == Err(KeyError("price"))
  {
    match Column(row, "lcsc")
    case Err(e) => Err(e)
    case Ok(key) =>
    var lcsc := LcscText(key, floatRepr);
    match Column(row, "price")
    case Err(e) => Err(e)
    case Ok(pv) =>
    match PriceItems(pv, loads)
    case Err(e) => Err(e)
    case Ok(items) =>
    match PriceTiers(items)
    case Err(e) => Err(e)
    case Ok(tiers) =>
    match AttributesData(row, loads)
    case Err(e) => Err(e)
    case Ok(data) => Finish(row, lcsc, tiers, ConvertAttributes(data))
  }

  /** What a successful hydration took from the row: the key's text, the tiers in stored order, the converted attributes, the integer and truth conversions. */
  lemma HydratedFields(row: Row, loads: Loads, floatRepr: real -> string)
    requires FromDbRow(row, loads, floatRepr).Ok?
    ensures var c := FromDbRow(row, loads, floatRepr).value;
      && "lcsc" in row && c.lcsc == LcscText(row["lcsc"], floatRepr)
      && "price" in row && PriceItems(row["price"], loads).Ok?
      && PriceTiers(PriceItems(row["price"], loads).value) == Ok(c.priceTiers)
      && AttributesData(row, loads).Ok?
      && c.attributes == ConvertAttributes(AttributesData(row, loads).value)
      && "mfr" in row && c.mfr == row["mfr"]
      && "joints" in row && SqlToInt(row["joints"]) == Ok(c.joints)
      && "basic" in row && c.basic == Truthy(row["basic"])
      && "stock" in row && SqlToInt(row["stock"]) == Ok(c.stock)
  {
  }

  /** An integer key n hydrates to "C" followed by the decimal digits of n. */
  lemma IntegerKeyHydration(row: Row, loads: Loads, floatRepr: real -> string, n: nat)
    requires "lcsc" in row && row["lcsc"] == SqlInt(n)
    requires FromDbRow(row, loads, floatRepr).Ok?
    ensures FromDbRow(row, loads, floatRepr).value.lcsc == "C" + NatToString(n)
  {
    HydratedFields(row, loads, floatRepr);
  }

  /** Stored tiers keep their count and order; the price is the first stored tier's price or 0.0. */
  lemma TiersKeepStoredOrder(row: Row, loads: Loads, floatRepr: real -> string, s: string, items: seq<Json>)
    requires "price" in row && row["price"] == SqlText(s) && loads(s) == Some(JList(items))
    requires FromDbRow(row, loads, floatRepr).Ok?
    ensures var c := FromDbRow(row, loads, floatRepr).value;
      && |c.priceTiers| == |items|
      && (forall i :: 0 <= i < |items| ==> TierFromDict(items[i]) == Ok(c.priceTiers[i]))
      && (items == [] ==> c.Price() == 0.0)
      && (items != [] ==> JsonToFloat(items[0].fields["price"]) == Ok(c.Price()))
  {
    HydratedFields(row, loads, floatRepr);
  }

  /** A row with any unconvertible tier does not hydrate. */
  lemma BadTierRejectsRow(row: Row, loads: Loads, floatRepr: real -> string, s: string, items: seq<Json>, i: int)
    requires "price" in row && row["price"] == SqlText(s) && loads(s) == Some(JList(items))
    requires 0 <= i < |items| && TierFromDict(items[i]).Err?
    ensures FromDbRow(row, loads, floatRepr).Err?
  {
    PriceTiersFailIffSomeTierFails(items);
    if FromDbRow(row, loads, floatRepr).Ok? {
      HydratedFields(row, loads, floatRepr);
    }
  }

  /** get_attribute_value on a hydrated component reads straight through to the stored JSON. */
  lemma AttributeValueFromStoredJson(row: Row, loads: Loads, floatRepr: real -> string, name: string)
    requires FromDbRow(row, loads, floatRepr).Ok?
    ensures var c := FromDbRow(row, loads, floatRepr).value;
      var m := AttributesData(row, loads).value;
      && (name !in m ==> c.GetAttributeValue(name) == JNull)
      && (name in m && HasValueField(m[name]) ==> c.GetAttributeValue(name) == m[name].fields["value"])
      && (name in m && !HasValueField(m[name]) ==> c.GetAttributeValue(name) == m[name])
  {
    HydratedFields(row, loads, floatRepr);
  }
}
