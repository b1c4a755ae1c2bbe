/** The "Add Field" dialog: the state behind its inputs and the check that
    `handleAddField` runs before a new field reaches the registry. */
module Builder {
  import opened Js
  import opened Fields
  import opened Registry

  const FieldNameRequired := "Field name is required."
  const OptionsRequired := "Please add at least one option for the dropdown."

  /** What one press of "Add Field" decides: a rejection with its message, or
      the record handed to `addField`. */
  datatype Outcome = Rejected(message: string) | Accepted(field: NewField)

  /** The decision `handleAddField` takes on the dialog's current type, name
      and option list. The name check comes first; the accepted record keeps
      the name untrimmed, starts empty, and carries the options exactly when
      the type is "dropdown". */
  function AddFieldOutcome(fieldType: string, name: string, options: seq<string>): (r: Outcome)
    ensures r == Rejected(FieldNameRequired) <==> IsBlank(name)
    ensures r == Rejected(OptionsRequired) <==>
      !IsBlank(name) && fieldType == "dropdown" && options == []
    ensures r.Rejected? ==> r.message in {FieldNameRequired, OptionsRequired}
    ensures r.Accepted? ==>
      && r.field.fieldType == fieldType && r.field.fieldLabel == name
      && r.field.value == Str("")
      && (r.field.options.Some? <==> fieldType == "dropdown")
      && (r.field.options.Some? ==> r.field.options.value == options)
  {
    if IsBlank(name) then Rejected(FieldNameRequired)
    else if fieldType == "dropdown" && |options| == 0 then Rejected(OptionsRequired)
    else Accepted(NewField(fieldType, name, Str(""),
                           if fieldType == "dropdown" then Some(options) else None))
  }

  /** Every record the dialog accepts is well formed: its label is not blank,
      and a dropdown carries at least one option. */
  lemma AcceptedIsWellFormed(fieldType: string, name: string, options: seq<string>)
    requires AddFieldOutcome(fieldType, name, options).Accepted?
    ensures var f := AddFieldOutcome(fieldType, name, options).field;
      && !IsBlank(f.fieldLabel)
      && (f.fieldType == "dropdown" ==> f.options.Some? && |f.options.value| > 0)
  {
  }

  /** The dialog's state slots. `dropdownOptions` is the list the nested
      option editor writes to. */
  class FormBuilder {
    var newFieldType: string
    var newFieldName: string
    var dropdownOptions: seq<string>
    var error: string

    constructor ()
      ensures newFieldType == "text" && newFieldName == ""
      ensures dropdownOptions == [] && error == ""
    {
      newFieldType := "text";
      newFieldName := "";
      dropdownOptions := [];
      error := "";
    }

    /** `handleAddField`. The fresh id `addField` would draw is supplied by the
        caller; `closed` reports whether `onClose` was called. A rejection only
        sets the error; an acceptance appends the record and resets the
        dialog. The selected type is never touched. */
    method HandleAddField(registry: FieldRegistry, id: string) returns (closed: bool)
      requires registry.Valid() && id !in registry.Issued
      modifies this`newFieldName, this`dropdownOptions, this`error, registry
      ensures registry.Valid()
      ensures var outcome := AddFieldOutcome(old(newFieldType), old(newFieldName), old(dropdownOptions));
        && (closed <==> outcome.Accepted?)
        && (closed ==>
              && registry.fields == old(registry.fields) + [WithId(outcome.field, id)]
              && registry.Issued == old(registry.Issued) + {id}
              && newFieldName == "" && dropdownOptions == [] && error == "")
        && (!closed ==>
              && registry.fields == old(registry.fields)
              && registry.Issued == old(registry.Issued)
              && newFieldName == old(newFieldName)
              && dropdownOptions == old(dropdownOptions)
              && error == outcome.message)
    {
      if IsBlank(newFieldName) {
        error := FieldNameRequired;
        return false;
      }
      if newFieldType == "dropdown" && |dropdownOptions| == 0 {
        error := OptionsRequired;
        return false;
      }
      var newField := NewField(newFieldType, newFieldName, Str(""),
                               if newFieldType == "dropdown" then Some(dropdownOptions) else None);
      registry.AddField(newField, id);
      newFieldName := "";
      dropdownOptions := [];
      error := "";
      closed := true;
    }
  }
}
