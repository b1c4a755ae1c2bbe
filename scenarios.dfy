/** Concrete runs of the form logic, stated as facts about the model. */
module Scenarios {
  import opened Js
  import opened Fields
  import opened Registry
  import opened Submission
  import opened Builder
  import opened Dropdown

  /** "a@b.com" has the shape `\S+@\S+\.\S+`. */
  lemma SampleEmailMatches()
    ensures !IsBlank("a@b.com") && MatchesEmailPattern("a@b.com")
    ensures EmailErrors("a@b.com") == []
  {
    var s := "a@b.com";
    assert !IsWhitespace(s[0]);
    assert EmailMatchAt(s, 1, 3);
  }

  /** A text with no '@' is refused as an address, not as missing. */
  lemma AddressWithoutAtIsInvalid()
    ensures EmailErrors("alice") == [EmailInvalid]
  {
    var s := "alice";
    assert !IsWhitespace(s[0]);
    forall at, dot | 0 <= at < |s| && 0 <= dot < |s| ensures !EmailMatchAt(s, at, dot) {
      assert s[at] != '@';
    }
  }

  /** No short-circuit: a valid address with a blank name, a blank message and
      one blank text field yields exactly those three errors, in that order. */
  lemma ThreeErrors(toNumber: string -> JsNumber)
    ensures ValidationErrors("a@b.com", "", " ", [Field("f1", "text", "Notes", Str(""), None)], toNumber)
            == [NameRequired, MessageRequired, "Notes is required."]
  {
    SampleEmailMatches();
    assert IsBlank(" ");
    var f := Field("f1", "text", "Notes", Str(""), None);
    FieldErrorsAtMostOne(f, toNumber);
    assert TextRequired("Notes") == "Notes is required.";
    FieldsErrorsSnoc([], f, toNumber);
    assert [] + [f] == [f];
  }

  /** A dropdown left on "Select an option" blocks submission. */
  lemma UnselectedDropdown(toNumber: string -> JsNumber)
    ensures FieldErrors(Field("d1", "dropdown", "Priority", Str(""), Some(["Low", "High"])), toNumber)
            == ["Please select an option for Priority."]
  {
    FieldErrorsAtMostOne(Field("d1", "dropdown", "Priority", Str(""), Some(["Low", "High"])), toNumber);
    assert SelectRequired("Priority") == "Please select an option for Priority.";
  }

  /** With no extra fields, the payload carries only the static entries. */
  lemma PlainPayload()
    ensures BuildPayload("a@b.com", "Alice", "Hi", [])
            == Payload("a@b.com", map["name" := Str("Alice"), "message" := Str("Hi")])
  {
  }

  /** Two fields with one label: the later value is the one sent, and a field
      labelled "name" replaces the static name. */
  lemma LaterLabelWins()
    ensures var fields := [Field("1", "text", "Note", Str("first"), None),
                           Field("2", "text", "Note", Str("second"), None),
                           Field("3", "text", "name", Str("Bob"), None)];
      var p := BuildPayload("a@b.com", "Alice", "Hi", fields);
      p.formData["Note"] == Str("second") && p.formData["name"] == Str("Bob")
      && p.formData["message"] == Str("Hi")
  {
    var fields := [Field("1", "text", "Note", Str("first"), None),
                   Field("2", "text", "Note", Str("second"), None),
                   Field("3", "text", "name", Str("Bob"), None)];
    PayloadShape("a@b.com", "Alice", "Hi", fields);
    assert LastWithLabel(fields, 1, "Note");
    assert LastWithLabel(fields, 2, "name");
    assert "message" !in Labels(fields);
  }

  /** Building a dropdown through the dialog: without options it is refused
      and nothing is added; after one option is entered it is accepted, the
      registry holds exactly that field and the dialog is reset. */
  method DropdownDialogFlow() returns (added: seq<Field>, firstError: string)
    ensures firstError == OptionsRequired
    ensures added == [Field("f1", "dropdown", "Priority", Str(""), Some(["Low"]))]
  {
    var registry := new FieldRegistry();
    var dialog := new FormBuilder();
    var editor := new DropdownOptions();
    dialog.newFieldType := "dropdown";
    dialog.newFieldName := "Priority";
    assert !IsWhitespace(dialog.newFieldName[0]);
    var closed := dialog.HandleAddField(registry, "f1");
    assert !closed && registry.fields == [];
    firstError := dialog.error;
    editor.newOption := "Low";
    assert !IsWhitespace(editor.newOption[0]);
    editor.HandleAddOption(dialog);
    assert dialog.dropdownOptions == ["Low"];
    closed := dialog.HandleAddField(registry, "f1");
    assert closed && dialog.newFieldName == "" && dialog.dropdownOptions == [];
    added := registry.fields;
  }
}
