/** `FormSubmitter`: collects every violation of the submission rules, in a
    fixed order, and only when there is none builds the payload that goes to
    the transport. */
module Submission {
  import opened Js
  import opened Fields

  const EmailRequired := "Email is required."
  const EmailInvalid := "Please enter a valid email address."
  const NameRequired := "Name is required."
  const MessageRequired := "Message is required."

  function TextRequired(fieldLabel: string): string { fieldLabel + " is required." }
  function NumberInvalid(fieldLabel: string): string { fieldLabel + " must be a valid number." }
  function SelectRequired(fieldLabel: string): string { "Please select an option for " + fieldLabel + "." }

  /** `\S`: one character that is not whitespace. */
  predicate NonBlankChar(c: char)
  {
    !IsWhitespace(c)
  }

  /** `s[lo..hi]` holds no whitespace. */
  predicate NonBlankBetween(s: string, lo: int, hi: int)
    requires 0 <= lo <= hi <= |s|
  {
    forall k :: lo <= k < hi ==> NonBlankChar(s[k])
  }

  /** `/\S+@\S+\.\S+/` matches around an '@' at index `at` and a '.' at
      index `dot`: a non-whitespace character before the '@', at least one
      character between the two and only non-whitespace ones, and a
      non-whitespace character after the '.'. */
  predicate EmailMatchAt(s: string, at: int, dot: int)
  {
    && 0 < at && at + 1 < dot && dot + 1 < |s|
    && s[at] == '@' && s[dot] == '.'
    && NonBlankChar(s[at - 1]) && NonBlankChar(s[dot + 1])
    && NonBlankBetween(s, at + 1, dot)
  }

  /** The unanchored regular expression `/\S+@\S+\.\S+/` finds a match
      somewhere in `s`. */
  predicate MatchesEmailPattern(s: string)
  {
    exists at, dot | 0 <= at < |s| && 0 <= dot < |s| :: EmailMatchAt(s, at, dot)
  }

  /** A string made only of whitespace cannot match the email pattern. */
  lemma BlankNeverMatches(s: string)
    requires IsBlank(s)
    ensures !MatchesEmailPattern(s)
  {
  }

  /** The email rule: "required" when blank after trimming, otherwise
      "invalid" when the pattern does not match; never both. */
  function EmailErrors(email: string): (r: seq<string>)
    ensures |r| <= 1
    ensures r == [EmailRequired] <==> IsBlank(email)
    ensures r == [EmailInvalid] <==> !IsBlank(email) && !MatchesEmailPattern(email)
    ensures r == [] <==> MatchesEmailPattern(email)
  {
    if IsBlank(email) then
      BlankNeverMatches(email);
      [EmailRequired]
    else if !MatchesEmailPattern(email) then [EmailInvalid]
    else []
  }

  /** The three checks on the always-present inputs, in source order. */
  function BaseErrors(email: string, name: string, message: string): seq<string>
  {
    EmailErrors(email)
    + (if IsBlank(name) then [NameRequired] else [])
    + (if IsBlank(message) then [MessageRequired] else [])
  }

  /** The errors one extra field contributes: the three independent `if`s of
      the `forEach` body. */
  function FieldErrors(f: Field, toNumber: string -> JsNumber): seq<string>
  {
    var kind := KindOf(f.fieldType);
    (if kind == Text && TextBlank(f.value) then [TextRequired(f.fieldLabel)] else [])
    + (if kind == Number && IsNaNValue(f.value, toNumber) then [NumberInvalid(f.fieldLabel)] else [])
    + (if kind == Dropdown && f.value == Str("") then [SelectRequired(f.fieldLabel)] else [])
  }

  /** The per-type rule the field breaks, if any. */
  predicate FieldFails(f: Field, toNumber: string -> JsNumber)
  {
    match KindOf(f.fieldType)
    case Text => TextBlank(f.value)
    case Number => IsNaNValue(f.value, toNumber)
    case Dropdown => f.value == Str("")
    case Other => false
  }

  /** Each field contributes at most one error: the message for its own type,
      and nothing for a type the validator does not know. */
  lemma FieldErrorsAtMostOne(f: Field, toNumber: string -> JsNumber)
    ensures |FieldErrors(f, toNumber)| == if FieldFails(f, toNumber) then 1 else 0
    ensures f.fieldType == "text" && TextBlank(f.value) ==>
      FieldErrors(f, toNumber) == [TextRequired(f.fieldLabel)]
    ensures f.fieldType == "number" && IsNaNValue(f.value, toNumber) ==>
      FieldErrors(f, toNumber) == [NumberInvalid(f.fieldLabel)]
    ensures f.fieldType == "dropdown" && f.value == Str("") ==>
      FieldErrors(f, toNumber) == [SelectRequired(f.fieldLabel)]
    ensures KindOf(f.fieldType) == Other ==> FieldErrors(f, toNumber) == []
  {
  }

  /** The errors of all extra fields, in list order. */
  function FieldsErrors(fields: seq<Field>, toNumber: string -> JsNumber): seq<string>
  {
    if fields == [] then [] else FieldErrors(fields[0], toNumber) + FieldsErrors(fields[1..], toNumber)
  }

  /** `fieldErrors` as `validateFields` leaves it. */
  function ValidationErrors(email: string, name: string, message: string,
                            fields: seq<Field>, toNumber: string -> JsNumber): seq<string>
  {
    BaseErrors(email, name, message) + FieldsErrors(fields, toNumber)
  }

  /** What the three pushes of one `forEach` turn leave after `before`. */
  lemma PushedFieldErrors(before: seq<string>, after: seq<string>, f: Field, toNumber: string -> JsNumber)
    requires KindOf(f.fieldType) == Text ==> f.value.Str?
    requires var kind := KindOf(f.fieldType);
      after == before
      + (if kind == Text && IsBlank(f.value.s) then [TextRequired(f.fieldLabel)] else [])
      + (if kind == Number && IsNaNValue(f.value, toNumber) then [NumberInvalid(f.fieldLabel)] else [])
      + (if kind == Dropdown && f.value == Str("") then [SelectRequired(f.fieldLabel)] else [])
    ensures after == before + FieldErrors(f, toNumber)
  {
    var kind := KindOf(f.fieldType);
    var t := if kind == Text && TextBlank(f.value) then [TextRequired(f.fieldLabel)] else [];
    var n := if kind == Number && IsNaNValue(f.value, toNumber) then [NumberInvalid(f.fieldLabel)] else [];
    var d := if kind == Dropdown && f.value == Str("") then [SelectRequired(f.fieldLabel)] else [];
    ConcatAssoc(before, t, n);
    ConcatAssoc(before, t + n, d);
  }

  /** The errors of a list extended by one field: what one more turn of the
      `forEach` loop appends. */
  lemma {:induction false} FieldsErrorsSnoc(fields: seq<Field>, f: Field, toNumber: string -> JsNumber)
    ensures FieldsErrors(fields + [f], toNumber) == FieldsErrors(fields, toNumber) + FieldErrors(f, toNumber)
  {
    if fields == [] {
      assert fields + [f] == [f];
      assert [f][1..] == [];
    } else {
      var longer, tail := fields + [f], fields[1..];
      assert longer[0] == fields[0];
      assert longer[1..] == tail + [f];
      FieldsErrorsSnoc(tail, f, toNumber);
      ConcatAssoc(FieldErrors(fields[0], toNumber), FieldsErrors(tail, toNumber), FieldErrors(f, toNumber));
    }
  }

  /** One turn of the `forEach` over field `i` extends the errors of the
      fields before it to the errors of the fields up to and including it. */
  lemma ForEachTurn(base: seq<string>, before: seq<string>, after: seq<string>,
                    fields: seq<Field>, i: nat, toNumber: string -> JsNumber)
    requires i < |fields| && before == base + FieldsErrors(fields[..i], toNumber)
    requires KindOf(fields[i].fieldType) == Text ==> fields[i].value.Str?
    requires var f, kind := fields[i], KindOf(fields[i].fieldType);
      after == before
      + (if kind == Text && IsBlank(f.value.s) then [TextRequired(f.fieldLabel)] else [])
      + (if kind == Number && IsNaNValue(f.value, toNumber) then [NumberInvalid(f.fieldLabel)] else [])
      + (if kind == Dropdown && f.value == Str("") then [SelectRequired(f.fieldLabel)] else [])
    ensures after == base + FieldsErrors(fields[..i + 1], toNumber)
  {
    var field := fields[i];
    PushedFieldErrors(before, after, field, toNumber);
    FieldsErrorsSnoc(fields[..i], field, toNumber);
    ConcatAssoc(base, FieldsErrors(fields[..i], toNumber), FieldErrors(field, toNumber));
    assert fields[..i + 1] == fields[..i] + [field];
  }

  /** The errors of a concatenation are the concatenation of the errors. */
  lemma {:induction false} FieldsErrorsAppend(a: seq<Field>, b: seq<Field>, toNumber: string -> JsNumber)
    ensures FieldsErrors(a + b, toNumber) == FieldsErrors(a, toNumber) + FieldsErrors(b, toNumber)
  {
    if a == [] {
      assert a + b == b;
    } else {
      var joined, tail := a + b, a[1..];
      assert joined[0] == a[0];
      assert joined[1..] == tail + b;
      FieldsErrorsAppend(tail, b, toNumber);
      ConcatAssoc(FieldErrors(a[0], toNumber), FieldsErrors(tail, toNumber), FieldsErrors(b, toNumber));
    }
  }

  /** Error order follows field order: every error of field `i` comes after
      the errors of the fields before it and before those of the fields after it. */
  lemma FieldsErrorsAt(fields: seq<Field>, i: nat, toNumber: string -> JsNumber)
    requires i < |fields|
    ensures FieldsErrors(fields, toNumber) ==
      FieldsErrors(fields[..i], toNumber) + FieldErrors(fields[i], toNumber) + FieldsErrors(fields[i + 1..], toNumber)
  {
    var rest := fields[i..];
    assert fields == fields[..i] + rest;
    FieldsErrorsAppend(fields[..i], rest, toNumber);
    assert rest[0] == fields[i];
    assert rest[1..] == fields[i + 1..];
    var before, here, after := FieldsErrors(fields[..i], toNumber), FieldErrors(fields[i], toNumber),
      FieldsErrors(fields[i + 1..], toNumber);
    assert FieldsErrors(rest, toNumber) == here + after;
    ConcatAssoc(before, here, after);
  }

  /** The indices of the extra fields that break their rule. */
  function FailingFields(fields: seq<Field>, toNumber: string -> JsNumber): set<nat>
  {
    set i: nat | i < |fields| && FieldFails(fields[i], toNumber)
  }

  lemma FailingFieldsSnoc(fields: seq<Field>, toNumber: string -> JsNumber)
    requires fields != []
    ensures var n := |fields| - 1;
      |FailingFields(fields, toNumber)| ==
        |FailingFields(fields[..n], toNumber)| + if FieldFails(fields[n], toNumber) then 1 else 0
  {
    var n := |fields| - 1;
    var init := fields[..n];
    var before, after := FailingFields(init, toNumber), FailingFields(fields, toNumber);
    var added: set<nat> := if FieldFails(fields[n], toNumber) then {n} else {};
    forall i: nat ensures i in after <==> i in before + added {
      if i < n { assert fields[i] == init[i]; }
    }
    assert after == before + added;
    assert before !! added;
  }

  /** No short-circuit: the extra fields produce exactly one error per field
      that breaks its rule. */
  lemma {:induction false} FieldsErrorsCount(fields: seq<Field>, toNumber: string -> JsNumber)
    ensures |FieldsErrors(fields, toNumber)| == |FailingFields(fields, toNumber)|
    decreases |fields|
  {
    if fields == [] {
      assert FailingFields(fields, toNumber) == {};
    } else {
      var n := |fields| - 1;
      var init, last := fields[..n], fields[n];
      assert fields == init + [last];
      FieldsErrorsSnoc(init, last, toNumber);
      FieldsErrorsCount(init, toNumber);
      FieldErrorsAtMostOne(last, toNumber);
      FailingFieldsSnoc(fields, toNumber);
    }
  }

  /** The number of errors is the number of checks that fail: the email
      check, the name check, the message check and one per failing field. */
  lemma ErrorCount(email: string, name: string, message: string,
                   fields: seq<Field>, toNumber: string -> JsNumber)
    ensures |ValidationErrors(email, name, message, fields, toNumber)| ==
      (if MatchesEmailPattern(email) then 0 else 1)
      + (if IsBlank(name) then 1 else 0)
      + (if IsBlank(message) then 1 else 0)
      + |FailingFields(fields, toNumber)|
  {
    FieldsErrorsCount(fields, toNumber);
  }

  lemma NoFailingFields(fields: seq<Field>, toNumber: string -> JsNumber)
    ensures FailingFields(fields, toNumber) == {} <==>
      forall i :: 0 <= i < |fields| ==> !FieldFails(fields[i], toNumber)
  {
    if i :| 0 <= i < |fields| && FieldFails(fields[i], toNumber) {
      assert i in FailingFields(fields, toNumber);
    }
  }

  /** Validation succeeds exactly when every rule holds. */
  lemma NoErrorsIff(email: string, name: string, message: string,
                    fields: seq<Field>, toNumber: string -> JsNumber)
    ensures ValidationErrors(email, name, message, fields, toNumber) == [] <==>
      && MatchesEmailPattern(email) && !IsBlank(name) && !IsBlank(message)
      && forall i :: 0 <= i < |fields| ==> !FieldFails(fields[i], toNumber)
  {
    ErrorCount(email, name, message, fields, toNumber);
    NoFailingFields(fields, toNumber);
  }

  lemma ConcatParts<T>(a: seq<T>, b: seq<T>, c: seq<T>, d: seq<T>)
    ensures var s := a + b + c + d;
      && s[..|a|] == a
      && s[|a|..|a| + |b|] == b
      && s[|a| + |b|..|a| + |b| + |c|] == c
      && s[|a| + |b| + |c|..] == d
  {
  }

  lemma ConcatAssoc<T>(a: seq<T>, b: seq<T>, c: seq<T>)
    ensures a + (b + c) == a + b + c
  {
  }

  /** The email error, the name error and the message error come first, in
      that order, followed by the field errors. */
  lemma ErrorOrder(email: string, name: string, message: string,
                   fields: seq<Field>, toNumber: string -> JsNumber)
    ensures var errs := ValidationErrors(email, name, message, fields, toNumber);
      var e := |EmailErrors(email)|;
      var n := if IsBlank(name) then 1 else 0;
      var m := if IsBlank(message) then 1 else 0;
      && |errs| >= e + n + m
      && errs[..e] == EmailErrors(email)
      && (IsBlank(name) ==> errs[e] == NameRequired)
      && (IsBlank(message) ==> errs[e + n] == MessageRequired)
      && errs[e + n + m..] == FieldsErrors(fields, toNumber)
  {
    var ee := EmailErrors(email);
    var ne := if IsBlank(name) then [NameRequired] else [];
    var me := if IsBlank(message) then [MessageRequired] else [];
    var fe := FieldsErrors(fields, toNumber);
    ConcatParts(ee, ne, me, fe);
    var errs := ee + ne + me + fe;
    assert IsBlank(name) ==> errs[|ee|] == errs[|ee|..|ee| + |ne|][0];
    assert IsBlank(message) ==> errs[|ee| + |ne|] == errs[|ee| + |ne|..|ee| + |ne| + |me|][0];
  }

  /** `{ to, formData }` */
  datatype Payload = Payload(to: string, formData: map<string, Value>)

  /** `fields.reduce((acc, field) => ({ ...acc, [field.label]: field.value }), acc)` */
  function Reduce(acc: map<string, Value>, fields: seq<Field>): map<string, Value>
    decreases |fields|
  {
    if fields == [] then acc
    else Reduce(acc[fields[0].fieldLabel := fields[0].value], fields[1..])
  }

  /** The labels of `fields`. */
  function Labels(fields: seq<Field>): set<string>
  {
    set i | 0 <= i < |fields| :: fields[i].fieldLabel
  }

  /** Field `i` is the last one in list order labelled `key`. */
  predicate LastWithLabel(fields: seq<Field>, i: int, key: string)
  {
    0 <= i < |fields| && fields[i].fieldLabel == key
    && forall j :: i < j < |fields| ==> fields[j].fieldLabel != key
  }

  lemma LabelsCons(fields: seq<Field>)
    requires fields != []
    ensures Labels(fields) == {fields[0].fieldLabel} + Labels(fields[1..])
  {
    forall l | l in Labels(fields) ensures l in {fields[0].fieldLabel} + Labels(fields[1..]) {
      var i :| 0 <= i < |fields| && fields[i].fieldLabel == l;
      if i > 0 { assert fields[1..][i - 1] == fields[i]; }
    }
    forall l | l in Labels(fields[1..]) ensures l in Labels(fields) {
      var i :| 0 <= i < |fields[1..]| && fields[1..][i].fieldLabel == l;
      assert fields[i + 1] == fields[1..][i];
    }
  }

  lemma {:induction false} ReduceKeys(acc: map<string, Value>, fields: seq<Field>)
    ensures Reduce(acc, fields).Keys == acc.Keys + Labels(fields)
    decreases |fields|
  {
    if fields != [] {
      ReduceKeys(acc[fields[0].fieldLabel := fields[0].value], fields[1..]);
      LabelsCons(fields);
    }
  }

  /** Folding left to right: a key no field carries keeps the accumulator's
      value, and a label maps to the value of its last field. */
  lemma {:induction false} ReduceValue(acc: map<string, Value>, fields: seq<Field>, key: string)
    ensures key in Labels(fields) || key in acc ==> key in Reduce(acc, fields)
    ensures key !in Labels(fields) && key in acc ==> Reduce(acc, fields)[key] == acc[key]
    ensures forall i :: LastWithLabel(fields, i, key) ==> Reduce(acc, fields)[key] == fields[i].value
    decreases |fields|
  {
    ReduceKeys(acc, fields);
    if fields != [] {
      var acc' := acc[fields[0].fieldLabel := fields[0].value];
      var tail := fields[1..];
      ReduceValue(acc', tail, key);
      LabelsCons(fields);
      forall i | LastWithLabel(fields, i, key) ensures Reduce(acc, fields)[key] == fields[i].value {
        if i == 0 {
          assert key !in Labels(tail) by {
            forall j | 0 <= j < |tail| ensures tail[j].fieldLabel != key {
              assert tail[j] == fields[j + 1];
            }
          }
        } else {
          assert LastWithLabel(tail, i - 1, key) by {
            forall j | i - 1 < j < |tail| ensures tail[j].fieldLabel != key {
              assert tail[j] == fields[j + 1];
            }
          }
        }
      }
    }
  }

  /** The payload of `handleSubmit`: the static name and message first, then
      the fields folded over them. */
  function BuildPayload(email: string, name: string, message: string, fields: seq<Field>): Payload
  {
    Payload(email, map["name" := Str(name), "message" := Str(message)] + Reduce(map[], fields))
  }

  /** The payload goes to the email; its keys are "name", "message" and the
      field labels; each label carries the value of its last field in list
      order, overriding the static name or message; the static values stay
      where no field shadows them. */
  lemma PayloadShape(email: string, name: string, message: string, fields: seq<Field>)
    ensures var p := BuildPayload(email, name, message, fields);
      && p.to == email
      && p.formData.Keys == {"name", "message"} + Labels(fields)
      && (forall i :: 0 <= i < |fields| && LastWithLabel(fields, i, fields[i].fieldLabel) ==>
            p.formData[fields[i].fieldLabel] == fields[i].value)
      && ("name" !in Labels(fields) ==> p.formData["name"] == Str(name))
      && ("message" !in Labels(fields) ==> p.formData["message"] == Str(message))
  {
    var p := BuildPayload(email, name, message, fields);
    var r := Reduce(map[], fields);
    ReduceKeys(map[], fields);
    forall i | 0 <= i < |fields| && LastWithLabel(fields, i, fields[i].fieldLabel)
      ensures p.formData[fields[i].fieldLabel] == fields[i].value
    {
      ReduceValue(map[], fields, fields[i].fieldLabel);
    }
  }

  /** Every label in the payload maps to some field's value; which one is the
      last of that label, so two fields "Note" with "first" then "second" give
      "second". */
  lemma LabelHasLastField(fields: seq<Field>, key: string)
    requires key in Labels(fields)
    ensures exists i :: LastWithLabel(fields, i, key)
  {
    var i :| 0 <= i < |fields| && fields[i].fieldLabel == key;
    while exists j :: i < j < |fields| && fields[j].fieldLabel == key
      invariant 0 <= i < |fields| && fields[i].fieldLabel == key
      decreases |fields| - i
    {
      var j :| i < j < |fields| && fields[j].fieldLabel == key;
      i := j;
    }
    assert LastWithLabel(fields, i, key);
  }

  /** The opening checks of `validateFields`: the recipient, the name and
      the message, each violation pushed in that order. */
  method PushBaseErrors(email: string, name: string, message: string) returns (fieldErrors: seq<string>)
    ensures fieldErrors == BaseErrors(email, name, message)
  {
    fieldErrors := [];
    if IsBlank(email) {
      fieldErrors := fieldErrors + [EmailRequired];
    } else if !MatchesEmailPattern(email) {
      fieldErrors := fieldErrors + [EmailInvalid];
    }
    if IsBlank(name) {
      fieldErrors := fieldErrors + [NameRequired];
    }
    if IsBlank(message) {
      fieldErrors := fieldErrors + [MessageRequired];
    }
  }

  /** The `forEach` of `validateFields`: each field's failed checks are
      pushed after what was collected so far, in field order. */
  method PushFieldErrors(collected: seq<string>, fields: seq<Field>, toNumber: string -> JsNumber)
    returns (fieldErrors: seq<string>)
    requires TextValuesAreStrings(fields)
    ensures fieldErrors == collected + FieldsErrors(fields, toNumber)
  {
    fieldErrors := collected;
    var i := 0;
    while i < |fields|
      invariant 0 <= i <= |fields|
      invariant fieldErrors == collected + FieldsErrors(fields[..i], toNumber)
    {
      ghost var before := fieldErrors;
      var field := fields[i];
      var kind := KindOf(field.fieldType);
      if kind == Text && IsBlank(field.value.s) {
        fieldErrors := fieldErrors + [TextRequired(field.fieldLabel)];
      }
      if kind == Number && IsNaNValue(field.value, toNumber) {
        fieldErrors := fieldErrors + [NumberInvalid(field.fieldLabel)];
      }
      if kind == Dropdown && field.value == Str("") {
        fieldErrors := fieldErrors + [SelectRequired(field.fieldLabel)];
      }
      ForEachTurn(collected, before, fieldErrors, fields, i, toNumber);
      i := i + 1;
    }
    assert fields[..i] == fields;
  }

  /** The component's state: the recipient, the static name and message, and
      the error list it shows. */
  class FormSubmitter {
    var email: string
    var name: string
    var message: string
    var errors: seq<string>

    constructor ()
      ensures email == "" && name == "" && message == "" && errors == []
    {
      email, name, message, errors := "", "", "", [];
    }

    /** `validateFields`: every check runs, each violation is pushed in order,
        and the list is stored as the shown errors. */
    method ValidateFields(fields: seq<Field>, toNumber: string -> JsNumber) returns (ok: bool)
      requires TextValuesAreStrings(fields)
      modifies this`errors
      ensures errors == ValidationErrors(email, name, message, fields, toNumber)
      ensures ok <==> errors == []
    {
      var fieldErrors := PushBaseErrors(email, name, message);
      fieldErrors := PushFieldErrors(fieldErrors, fields, toNumber);
      errors := fieldErrors;
      ok := |fieldErrors| == 0;
    }

    /** `handleSubmit` up to the hand-off to the transport: the payload exists
        only when validation passed, and building it reads `fields` without
        changing them. */
    method HandleSubmit(fields: seq<Field>, toNumber: string -> JsNumber) returns (payload: Option<Payload>)
      requires TextValuesAreStrings(fields)
      modifies this`errors
      ensures errors == ValidationErrors(email, name, message, fields, toNumber)
      ensures payload.Some? <==> errors == []
      ensures payload.Some? ==> payload.value == BuildPayload(email, name, message, fields)
    {
      var ok := ValidateFields(fields, toNumber);
      if !ok {
        return None;
      }
      payload := Some(BuildPayload(email, name, message, fields));
    }
  }
}
