/**
 * `getCategoryColor`: the fixed colour table of the dashboard's pie chart.
 * Matching is exact and case-sensitive; any other name gets the neutral grey,
 * which is also the colour listed for "Other".
 */
module Colors {

  const DefaultColor: string := "#b3b3b3"

  /** The eight names of the table, in declaration order. */
  const PaletteNames: seq<string> := [
    "Shopping", "Bills & Utilities", "Healthcare", "Groceries",
    "Transportation", "Food & Dining", "Other", "Home & Garden"]

  /** The colour of a category: its table entry, or the grey default for any other string. */
  function CategoryColor(category: string): (c: string)
    ensures category !in PaletteNames ==> c == DefaultColor
    ensures c == DefaultColor <==> category !in PaletteNames || category == "Other"
    ensures |c| == 7 && c[0] == '#'
  {
    if category == "Shopping" then "#4287f5"
    else if category == "Bills & Utilities" then "#f54242"
    else if category == "Healthcare" then "#42f5b3"
    else if category == "Groceries" then "#f5a142"
    else if category == "Transportation" then "#a142f5"
    else if category == "Food & Dining" then "#f542a7"
    else if category == "Other" then "#b3b3b3"
    else if category == "Home & Garden" then "#b3f542"
    else DefaultColor
  }

  /** Distinct table names get distinct colours, except that "Other" shares the default's. */
  lemma ColorsDistinct(a: string, b: string)
    requires a in PaletteNames && b in PaletteNames && a != b
    ensures CategoryColor(a) != CategoryColor(b)
  {
  }

  /**
   * Names the dashboard meets that are not in the table: four budget categories
   * of the budget form, the empty string, and the lower-case values the
   * add-transaction form stores.  All of them are grey.
   */
  lemma UnlistedNamesAreGrey()
    ensures CategoryColor("Entertainment") == DefaultColor
    ensures CategoryColor("Travel") == DefaultColor
    ensures CategoryColor("Health") == DefaultColor
    ensures CategoryColor("Education") == DefaultColor
    ensures CategoryColor("") == DefaultColor
    ensures CategoryColor("food") == DefaultColor
    ensures CategoryColor("shopping") == DefaultColor
    ensures CategoryColor("Shopping") == "#4287f5"
  {
  }

  /*** The lookup as written: an object literal indexed by an arbitrary string ***/

  /** The JavaScript values `colors[category]` can produce. */
  datatype JsValue = JsString(s: string) | JsFunction(name: string) | JsObject | Undefined

  /** Members every object literal inherits from `Object.prototype`: functions, and the prototype itself under "__proto__". */
  const InheritedFunctions: seq<string> := [
    "constructor", "hasOwnProperty", "isPrototypeOf", "propertyIsEnumerable",
    "toLocaleString", "toString", "valueOf",
    "__defineGetter__", "__defineSetter__", "__lookupGetter__", "__lookupSetter__"]
  const ProtoName: string := "__proto__"

  /** `colors[category]` on the object literal: own entries first, then inherited members. */
  function PropertyAsWritten(category: string): JsValue {
    if category in PaletteNames then JsString(CategoryColor(category))
    else if category in InheritedFunctions then JsFunction(category)
    else if category == ProtoName then JsObject
    else Undefined
  }

  predicate Truthy(v: JsValue) {
    match v
    case JsString(s) => s != ""
    case JsFunction(_) => true
    case JsObject => true
    case Undefined => false
  }

  /** `colors[category] || '#b3b3b3'` exactly as the source evaluates it. */
  function ColorAsWritten(category: string): (r: JsValue)
    ensures r != Undefined
    ensures r.JsString? <==> category !in InheritedFunctions && category != ProtoName
  {
    var v := PropertyAsWritten(category);
    if Truthy(v) then v else JsString(DefaultColor)
  }

  /** On every name that is not an inherited member, the source's lookup is `CategoryColor`. */
  lemma ColorAsWrittenAgrees(category: string)
    requires category !in InheritedFunctions && category != ProtoName
    ensures ColorAsWritten(category) == JsString(CategoryColor(category))
  {
  }

  /** A transaction category named "constructor" or "toString" gets a function, not a colour. */
  lemma InheritedNameLeaks()
    ensures ColorAsWritten("constructor") == JsFunction("constructor")
    ensures ColorAsWritten("toString") == JsFunction("toString")
    ensures ColorAsWritten(ProtoName) == JsObject
  {
    assert "constructor" !in PaletteNames;
    assert "toString" !in PaletteNames;
    assert ProtoName !in PaletteNames && ProtoName !in InheritedFunctions;
  }
}
