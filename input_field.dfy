/** One rendered field of the form: what a keystroke turns into and which
    inline error it shows. */
module Input {
  import opened Js
  import opened Fields
  import opened Registry
  import opened Submission

  const TextFieldRequired := "Text field is required"
  const ValidNumberRequired := "Please enter a valid number"

  /** The value `handleChange` passes on: `Number(raw)` for a number field,
      the raw text for every other type. */
  function Coerce(fieldType: string, raw: string, toNumber: string -> JsNumber): (v: Value)
    ensures v.Num? <==> fieldType == "number"
    ensures v.Num? ==> v.n == toNumber(raw)
    ensures v.Str? ==> v.s == raw
  {
    if fieldType == "number" then Num(toNumber(raw)) else Str(raw)
  }

  /** The inline error `handleChange` chooses for the text typed, judged on
      the coerced value; `None` clears it. */
  function ChangeError(fieldType: string, raw: string, toNumber: string -> JsNumber): (e: Option<string>)
    ensures e == Some(TextFieldRequired) <==> fieldType == "text" && IsBlank(raw)
    ensures e == Some(ValidNumberRequired) <==> fieldType == "number" && toNumber(raw).NaN?
    ensures e == None <==>
      !(fieldType == "text" && IsBlank(raw)) && !(fieldType == "number" && toNumber(raw).NaN?)
  {
    var v := Coerce(fieldType, raw, toNumber);
    if fieldType == "text" && TextBlank(v) then Some(TextFieldRequired)
    else if fieldType == "number" && IsNaNValue(v, toNumber) then Some(ValidNumberRequired)
    else None
  }

  /** Dropdowns and unknown types never show an inline error. */
  lemma OnlyTextAndNumberComplain(fieldType: string, raw: string, toNumber: string -> JsNumber)
    requires fieldType != "text" && fieldType != "number"
    ensures ChangeError(fieldType, raw, toNumber) == None
  {
  }

  /** For text and number fields the inline error appears exactly when the
      submission check would reject the stored value. A dropdown shows none,
      even on the empty choice that blocks submission. */
  lemma ChangeErrorAgreesWithSubmission(f: Field, raw: string, toNumber: string -> JsNumber)
    requires f.value == Coerce(f.fieldType, raw, toNumber)
    ensures KindOf(f.fieldType) != Dropdown ==>
      (ChangeError(f.fieldType, raw, toNumber).Some? <==> FieldFails(f, toNumber))
    ensures KindOf(f.fieldType) == Dropdown ==>
      ChangeError(f.fieldType, raw, toNumber) == None && (FieldFails(f, toNumber) <==> raw == "")
  {
  }

  /** Writing a coerced keystroke into the registry keeps every text field
      holding a string, the condition the submission check relies on. */
  lemma CoercedUpdateKeepsStrings(fields: seq<Field>, k: nat, raw: string, toNumber: string -> JsNumber)
    requires TextValuesAreStrings(fields) && DistinctIds(fields)
    requires k < |fields|
    ensures var id := fields[k].id;
      TextValuesAreStrings(Updated(fields, id, Coerce(fields[k].fieldType, raw, toNumber)))
  {
    var id := fields[k].id;
    var r := Updated(fields, id, Coerce(fields[k].fieldType, raw, toNumber));
    forall i | 0 <= i < |r| && r[i].fieldType == "text" ensures r[i].value.Str? {
      if fields[i].id == id {
        assert i == k;
      }
    }
  }

  class InputField {
    const fieldType: string
    var error: Option<string>

    constructor (fieldType: string)
      ensures this.fieldType == fieldType && error == None
    {
      this.fieldType := fieldType;
      error := None;
    }

    /** `handleChange`: picks the inline error, then always emits the coerced
        value, whatever the error. */
    method HandleChange(raw: string, toNumber: string -> JsNumber) returns (emitted: Value)
      modifies this`error
      ensures emitted == Coerce(fieldType, raw, toNumber)
      ensures error == ChangeError(fieldType, raw, toNumber)
    {
      var newValue := if fieldType == "number" then Num(toNumber(raw)) else Str(raw);
      if fieldType == "text" && IsBlank(newValue.s) {
        error := Some(TextFieldRequired);
      } else if fieldType == "number" && newValue.n.NaN? {
        error := Some(ValidNumberRequired);
      } else {
        error := None;
      }
      emitted := newValue;
    }
  }
}
