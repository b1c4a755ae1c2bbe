# Dynamic contact form — verified model

This project models the logic of a React contact form. Users can add their own fields (text, number or dropdown) to the fixed email/name/message form. It covers:

- the **field registry**: the `useFormFields` hook, which appends, filters and maps an ordered list of `{id, type, label, value, options?}` records;
- the **submission check**: `validateFields` collects every violation, in a fixed order, into a list of messages;
- the **payload**: `handleSubmit` spreads the static name/message and then folds the fields, so a later label wins;
- the **"Add Field" dialog**: `handleAddField` refuses a blank name or an empty dropdown;
- the **option editor** of that dialog, which appends non-blank options and removes them by index;
- the **per-keystroke handler** of a rendered field: it coerces the input to a number for number fields and picks an inline error.

Modules:

| module | file | models |
|---|---|---|
| `Js` | js.dfy | `String.prototype.trim`, the whitespace class `\s`, the shape of JS numbers |
| `Fields` | fields.dfy | the `Field` record, its value type, the classification of `type` |
| `Registry` | registry.dfy | `src/hooks/useFormFields.tsx`; class `FieldRegistry` |
| `Submission` | submission.dfy | `validateFields` and the payload in `src/components/FormSubmitter.tsx`; class `FormSubmitter` |
| `Builder` | builder.dfy | `src/components/FormBuilder.tsx`; class `FormBuilder` |
| `Dropdown` | dropdown.dfy | `src/components/common/DropdownOptions.tsx`; class `DropdownOptions` |
| `Input` | input_field.dfy | `handleChange` of `src/components/common/InputField.tsx`; class `InputField` |
| `Scenarios` | scenarios.dfy | concrete runs: a three-error submission, a label override, a dropdown created through the dialog |

Each piece of state the source keeps with `useState` is a field of a class, except `isSending`. Each handler that writes that state is a method, except the input bindings that only copy typed text into state. Both exceptions are listed under "## Left out". The method's `ensures` ties the new state to a pure function, and the properties are proved as lemmas about those functions:

- `Removed`, `Updated`, `ValidationErrors`, `BuildPayload`, `AddFieldOutcome`, `RemoveAt`, `Coerce` and `ChangeError`.

Two external pieces are handled as follows:

- JavaScript's `Number(...)` conversion is a parameter `toNumber: string -> JsNumber`. `isNaN` of a string asks whether that conversion gives `NaN`.
- The random field id is a parameter that the caller must supply fresh.

## Model

| member | source | states |
|---|---|---|
| Js.BlankIffTrimEmpty | src/components/FormSubmitter.tsx:39 | `s.trim() === ""` holds exactly when every character of `s` is ECMAScript whitespace, so "blank" can be stated character by character |
| Fields.KindOf | src/components/FormSubmitter.tsx:54-64 | a field is text, number or dropdown exactly when its `type` string equals "text", "number" or "dropdown"; anything else is a fourth kind |
| Registry.WithId | src/hooks/useFormFields.tsx:14-17 | the stored record carries the given id and exactly the caller's type, label, value and options |
| Registry.Removed | src/hooks/useFormFields.tsx:23 | filtering never lengthens the list |
| Registry.Updated | src/hooks/useFormFields.tsx:28 | the map keeps length and order and every id, type, label and options; only records with the matching id get the new value, and all others keep theirs |
| Registry.RemovedMembers | src/hooks/useFormFields.tsx:23 | a record survives `removeField(id)` if and only if it was present and its id differs |
| Registry.RemovedAbsent | src/hooks/useFormFields.tsx:23 | removing an id no record carries leaves the list identical |
| Registry.RemovedIdempotent | src/hooks/useFormFields.tsx:23 | removing the same id twice equals removing it once |
| Registry.RemovedAtIndex | src/hooks/useFormFields.tsx:23 | with distinct ids, removing the id of record `k` gives exactly the list without position `k`, with the other records in their original order |
| Registry.RemovedLength | src/hooks/useFormFields.tsx:23 | with distinct ids, removal keeps the length when the id is absent and shortens it by exactly one when it is present |
| Registry.RemovedKeepsAbsent | src/hooks/useFormFields.tsx:23 | filtering cannot bring in an id the list did not carry |
| Registry.RemovedKeepsDistinct | src/hooks/useFormFields.tsx:23 | removal keeps ids pairwise distinct |
| Registry.UpdatedKeepsDistinct | src/hooks/useFormFields.tsx:28 | a value update keeps ids pairwise distinct |
| Registry.UpdatedAbsent | src/hooks/useFormFields.tsx:28 | updating an id no record carries leaves the list identical |
| Registry.AppendFreshKeepsDistinct | src/hooks/useFormFields.tsx:13-19 | appending a record whose id is fresh keeps ids pairwise distinct |
| Registry.FieldRegistry.constructor | src/hooks/useFormFields.tsx:11 | the registry starts empty and no id has been issued |
| Registry.FieldRegistry.AddField | src/hooks/useFormFields.tsx:13-20 | the list grows by exactly the new record at the end and the earlier records are unchanged; the id, which must never have been issued, is recorded; distinct ids are preserved |
| Registry.FieldRegistry.RemoveField | src/hooks/useFormFields.tsx:22-24 | the new list is the id filter of the old one; distinct ids are preserved |
| Registry.FieldRegistry.UpdateFieldValue | src/hooks/useFormFields.tsx:26-30 | the new list is the value map of the old one, for any value, so writes are never refused; distinct ids are preserved |
| Submission.BlankNeverMatches | src/components/FormSubmitter.tsx:39-42 | a blank address never has the shape `\S+@\S+\.\S+`, so the two email errors cannot both be pushed |
| Submission.EmailErrors | src/components/FormSubmitter.tsx:39-43 | at most one email error; "Email is required." exactly when the address is blank; the format error exactly when it is non-blank and does not match the pattern; none exactly when it matches |
| Submission.FieldErrorsAtMostOne | src/components/FormSubmitter.tsx:53-67 | each field adds one message when its type's check fails and none otherwise: "`<label>` is required." for a blank text field, "`<label>` must be a valid number." for a NaN number field, "Please select an option for `<label>`." for a dropdown on "", nothing for any other type |
| Submission.PushedFieldErrors | src/components/FormSubmitter.tsx:54-66 | the three conditional pushes made for one field append exactly that field's messages to the list |
| Submission.FieldsErrorsSnoc | src/components/FormSubmitter.tsx:53-68 | handling one more field appends its messages after those of the earlier fields |
| Submission.ForEachTurn | src/components/FormSubmitter.tsx:53-68 | one turn of the `forEach` over field `i` turns the messages of the fields before it into the messages of the fields up to and including it |
| Submission.FieldsErrorsAppend | src/components/FormSubmitter.tsx:53-68 | the per-field messages of two consecutive runs of fields concatenate in list order |
| Submission.FieldsErrorsAt | src/components/FormSubmitter.tsx:53-68 | field `i`'s messages sit between those of the fields before it and those after it |
| Submission.FieldsErrorsCount | src/components/FormSubmitter.tsx:53-68 | no short-circuit: the number of field messages equals the number of failing fields |
| Submission.ErrorCount | src/components/FormSubmitter.tsx:36-68 | the error count is the sum of the failing checks: one for a bad email, one each for a blank name and a blank message, and one per failing field |
| Submission.NoFailingFields | src/components/FormSubmitter.tsx:53-68 | no field fails exactly when every field passes its type's check |
| Submission.NoErrorsIff | src/components/FormSubmitter.tsx:36-71 | the list is empty, which is what makes `validateFields` return true, exactly when the email matches, the name and message are not blank, and every field passes |
| Submission.ErrorOrder | src/components/FormSubmitter.tsx:39-68 | the list is the email error (if any), then the name error, then the message error, then the field errors in field order |
| Submission.ReduceKeys | src/components/FormSubmitter.tsx:85-88 | folding the fields adds exactly their labels as keys |
| Submission.ReduceValue | src/components/FormSubmitter.tsx:85-88 | after the fold each label maps to the value of the last field carrying it, and a key that no field uses keeps its earlier value |
| Submission.LabelHasLastField | src/components/FormSubmitter.tsx:86 | every label in use has a last field carrying it |
| Submission.PayloadShape | src/components/FormSubmitter.tsx:81-89 | `to` is the email; the keys are exactly "name", "message" and the field labels; each label maps to its last field's value, which overrides a static name or message; the static values stay when no field shadows them |
| Submission.FormSubmitter.constructor | src/components/FormSubmitter.tsx:21-27 | email, name and message start empty and there are no errors |
| Submission.PushBaseErrors | src/components/FormSubmitter.tsx:39-51 | the opening pushes leave exactly the email error (if any), then the name error, then the message error |
| Submission.PushFieldErrors | src/components/FormSubmitter.tsx:53-68 | the `forEach` loop appends exactly the per-field messages of all fields, in field order, after what was collected before it |
| Submission.FormSubmitter.ValidateFields | src/components/FormSubmitter.tsx:36-72 | the loop stores exactly the specified error list and returns true exactly when the list is empty |
| Submission.FormSubmitter.HandleSubmit | src/components/FormSubmitter.tsx:74-90 | errors are set as by validation; a payload is built only when there are none, and it is the specified payload of the unchanged fields |
| Builder.AddFieldOutcome | src/components/FormBuilder.tsx:23-39 | a blank name is refused with "Field name is required." before anything else; a non-blank name with type "dropdown" and no options is refused with the dropdown message; otherwise the record has the chosen type, the untrimmed name as label and value "", and it carries options exactly when the type is "dropdown", equal to the current list |
| Builder.AcceptedIsWellFormed | src/components/FormBuilder.tsx:24-39 | every accepted record has a non-blank label, and an accepted dropdown has at least one option |
| Builder.FormBuilder.constructor | src/components/FormBuilder.tsx:18-21 | the dialog starts on type "text" with an empty name, no options and no error |
| Builder.FormBuilder.HandleAddField | src/components/FormBuilder.tsx:23-46 | on acceptance the registry gains exactly the new record, the name, options and error are reset to "", [] and "", and the dialog closes; on refusal only the error is set, and the registry, the name and the options stay as they were |
| Dropdown.RemoveAt | src/components/common/DropdownOptions.tsx:22 | the index filter never lengthens the list |
| Dropdown.KeepOthersOutside | src/components/common/DropdownOptions.tsx:22 | the index filter over a part of the list that does not reach `index` keeps that part whole |
| Dropdown.KeepOthersInside | src/components/common/DropdownOptions.tsx:22 | the index filter over a part of the list that reaches `index` drops exactly the element at `index` and keeps the rest in order |
| Dropdown.RemoveAtSpec | src/components/common/DropdownOptions.tsx:21-23 | an index inside the list removes exactly that option, keeping the rest in order and shortening the list by one; any other index leaves the list unchanged |
| Dropdown.DropdownOptions.constructor | src/components/common/DropdownOptions.tsx:12 | the option input starts empty |
| Dropdown.DropdownOptions.HandleAddOption | src/components/common/DropdownOptions.tsx:14-19 | a non-blank entry is appended untrimmed at the end, duplicates allowed, and the input is cleared; a blank entry changes nothing |
| Dropdown.DropdownOptions.HandleRemoveOption | src/components/common/DropdownOptions.tsx:21-23 | the option list becomes its index filter |
| Input.Coerce | src/components/common/InputField.tsx:16-17 | the emitted value is a number exactly for type "number", where it is `Number(raw)`; for every other type it is the raw text |
| Input.ChangeError | src/components/common/InputField.tsx:19-25 | "Text field is required" exactly for a text field with blank input; "Please enter a valid number" exactly for a number field whose input converts to NaN; no error otherwise, so at most one message |
| Input.OnlyTextAndNumberComplain | src/components/common/InputField.tsx:19-25 | dropdowns and other types never show an inline error |
| Input.ChangeErrorAgreesWithSubmission | src/components/common/InputField.tsx:19-25 | for text and number fields the inline error shows exactly when the submission check would reject the stored value; a dropdown shows none, even on "" which blocks submission |
| Input.CoercedUpdateKeepsStrings | src/components/common/InputField.tsx:16-27 | writing a coerced keystroke into the registry keeps every text field holding a string, which the submission check's `as string` relies on |
| Input.InputField.constructor | src/components/common/InputField.tsx:11 | a field starts without an error |
| Input.InputField.HandleChange | src/components/common/InputField.tsx:13-28 | the error becomes the chosen inline error, and the coerced value is always emitted, whatever the error |
| Scenarios.SampleEmailMatches | src/components/FormSubmitter.tsx:41 | "a@b.com" matches the address pattern and gets no email error |
| Scenarios.AddressWithoutAtIsInvalid | src/components/FormSubmitter.tsx:41-42 | "alice" gets exactly the format error |
| Scenarios.ThreeErrors | src/components/FormSubmitter.tsx:36-68 | a valid address with a blank name, a blank message and one blank text field "Notes" gives exactly three messages, in order |
| Scenarios.UnselectedDropdown | src/components/FormSubmitter.tsx:62-67 | a dropdown "Priority" on "" gives "Please select an option for Priority." |
| Scenarios.PlainPayload | src/components/FormSubmitter.tsx:81-90 | with no extra fields the payload is the address plus the static name and message |
| Scenarios.LaterLabelWins | src/components/FormSubmitter.tsx:84-88 | of two fields labelled "Note" the later value is sent, and a field labelled "name" replaces the static name |
| Scenarios.DropdownDialogFlow | src/components/FormBuilder.tsx:23-46 | a dropdown without options is refused with the dropdown message; after one option is added through the editor, the same press adds exactly that field with that option |

## Left out

- The POST to the remote endpoint is left out: the `axios` call, the success `alert`, `console.error`, the `isSending` flag and the `onFormSubmit` callback (src/components/FormSubmitter.tsx:79, 92-106). These are asynchronous I/O into a foreign library. `HandleSubmit` stops where the payload is handed over.
- The 3-second timer that clears the error list (src/components/FormSubmitter.tsx:29-34) is left out, because it is a timer effect.
- All JSX rendering and styling is left out, including the input bindings `setEmail`, `setFormDataStatic`, `setNewFieldName`, `setNewFieldType` and `setNewOption`. These only copy the typed text into state, so the model assigns the state fields directly.
- The id token `useId + Math.random()...` (src/hooks/useFormFields.tsx:16) is randomness. `Registry.FieldRegistry.AddField` takes the id as a parameter and requires that it was never issued before. The source does not itself guarantee this freshness.
- JavaScript number semantics are left out: `Number(...)` is the parameter `toNumber`. For example, `Number("")` is 0, so an untouched number field passes. The code tests only `isNaN`, so `Infinity` counts as a valid number; the model follows the code.
- Fields.TextBlank treats a number stored in a text field as non-blank. The source would throw at `(value as string).trim()` on such a value. For this reason `Submission.FormSubmitter.ValidateFields` and `Submission.FormSubmitter.HandleSubmit` require text fields to hold strings. `Input.CoercedUpdateKeepsStrings` shows that the input handler preserves this.
- Submission.FieldErrorsAtMostOne does not cover a dropdown whose value is `undefined` (src/components/FormSubmitter.tsx:64). The `Field` type declares `value: string | number`, so the model has no undefined value.
- The `Field` interface inside src/hooks/useFormFields.tsx omits `options`. The hook's spread copies it anyway, so the registry model carries `options`, as src/components/FormBuilder.tsx:4-10 declares.
- src/App.tsx and src/components/FieldModal.tsx are not part of this model. They hold layout, modal open/close flags and click-outside detection.
