/** The record every part of the form shares: one dynamically added field.
    Its `type` stays the string the source stores ("text", "number",
    "dropdown", or anything else a caller passes); `Kind` classifies it. */
module Fields {
  import opened Js

  /** `string | number`: what a field can hold. */
  datatype Value = Str(s: string) | Num(n: JsNumber)

  datatype Field = Field(
    id: string,
    fieldType: string,
    fieldLabel: string,
    value: Value,
    options: Option<seq<string>>)

  /** `Omit<Field, "id">`: what a caller hands to `addField`. */
  datatype NewField = NewField(
    fieldType: string,
    fieldLabel: string,
    value: Value,
    options: Option<seq<string>>)

  datatype Kind = Text | Number | Dropdown | Other

  /** The source compares `type` against three string literals. */
  function KindOf(fieldType: string): (k: Kind)
    ensures k == Text <==> fieldType == "text"
    ensures k == Number <==> fieldType == "number"
    ensures k == Dropdown <==> fieldType == "dropdown"
  {
    if fieldType == "text" then Text
    else if fieldType == "number" then Number
    else if fieldType == "dropdown" then Dropdown
    else Other
  }

  /** `(value as string).trim() === ""`. A number in a text field is not blank
      here; the source would throw on it, and its callers never store one. */
  predicate TextBlank(v: Value)
  {
    v.Str? && IsBlank(v.s)
  }

  /** The global `isNaN(value)`, which converts a string with `Number(...)`
      first; `toNumber` stands for that conversion. */
  predicate IsNaNValue(v: Value, toNumber: string -> JsNumber)
  {
    match v
    case Num(n) => n.NaN?
    case Str(s) => toNumber(s).NaN?
  }

  /** Every text field holds a string, as the source's `as string` casts assume. */
  predicate TextValuesAreStrings(fields: seq<Field>)
  {
    forall i :: 0 <= i < |fields| && fields[i].fieldType == "text" ==> fields[i].value.Str?
  }

  /** The ids of `fields` are pairwise distinct. */
  predicate DistinctIds(fields: seq<Field>)
  {
    forall i, j :: 0 <= i < j < |fields| ==> fields[i].id != fields[j].id
  }

  /** No field of `fields` carries `id`. */
  predicate IdAbsent(fields: seq<Field>, id: string)
  {
    forall i :: 0 <= i < |fields| ==> fields[i].id != id
  }
}
