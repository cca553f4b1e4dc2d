# Registration form: validation and record store

This project models the core of a browser registration form. The form collects a
user record: name, age, date of birth, phone number, one or more address rows and a
password pair. It validates the record against a schema and keeps the accepted
records in an in-memory list. The list is shown as a table whose rows can be
edited or deleted.

Modules:

- `Records` (`records.dfy`): the record (`FormDataItem`), the form's input values
  (`FormValues`) and an address row (`Address`).
- `FormSlice` (`form_slice.dfy`): the record store. `FormState` is a class whose
  field `formDataArray` holds a sequence that the three reducers change in place:
  - `updateFormData` upserts by `id`;
  - `saveFormData` appends;
  - `deleteFormData` filters the list by `id`.
  The pure functions `FindIndex`, `Upserted` and `Without` specify the reducers.
  The lemmas beside them state uniqueness, idempotence and order preservation.
- `FormSchema` (`form_schema.dfy`): the validation schema.
  - Each field's check chain becomes the list of issues it raises.
  - `Issues` lists every issue in the schema's key order, then the password refinement.
  - `FirstPerPath` is the resolver's error map. For each field path it keeps the first message.
  - `Validate` returns the accepted values or that map.
  - `ErrorAt` is the entry the error map holds at one path.
  - Lemmas give each field's entry in closed form and prove that validation
    accepts exactly when every field rule holds.
- `AddressDisplay` (`address_display.dfy`): the table's Address cell. A lemma proves it
  is the address values joined with `", "`.
- `Page` (`page.dfy`): the page's state as class `Home`. It holds `editMode`, the
  button label, the input values, the form's `id` value, the error map and whether the
  form has been submitted. Its methods are the handlers: typing into an input, submit,
  edit click, delete click, add address row and remove address row. `Displayed` names
  the inputs that show their error entry. `Home.Valid()` is an invariant that every handler keeps:
  - the label matches the mode;
  - the form has at least one address row;
  - every stored record has at least one address row.

Where the code behaves differently from what its types, messages or names suggest, the model follows the code:

- The type declaration gives `age` and `phoneNumber` the type `number` (lib/globla.types.ts:4, 6).
  But the schema yields strings for both (pages/index.tsx:21, 30), and the edit handler
  converts them back with `toString()` (pages/index.tsx:87-88). The model keeps both as
  strings, so that conversion is the identity.
- `dob` uses `.max(Date.now(), …)` on a string schema (pages/index.tsx:20). That bounds the
  string's length, not the date. The model takes the bound as a parameter `now` and
  compares it with `|dob|`. It does not compare dates.
- The upsert replaces only the first record with the payload's `id`. It keeps ids unique
  only when they were unique before (`FormSlice.UpsertKeepsUniqueIds`). `saveFormData`
  checks nothing, so it can create duplicates (`FormSlice.SaveMayDuplicateIds`).
- The schema puts no minimum on the number of address rows (`FormSchema.AddressReported`).
  The form never has fewer than one row, because the first row has no remove button.
  `Page.Home.Valid` states this as an invariant.
- The schema library collects every failing check of every field, and it runs the object
  refinement even when fields have failed (those issues are not fatal). The resolver keeps
  the first message per path. So every failing field is reported together, each with the
  message of its first failing check.
- Only the name, date of birth, phone number and password inputs are given a `message`
  (pages/index.tsx:101-133). The age input and the address rows are not (pages/index.tsx:106-110,
  139-143). So a form that fails only on age or on an address row is rejected and shows no
  message at all (`Page.SilentRejection`).
- The form sets no validation `mode` (pages/index.tsx:37-49), so the form library's defaults
  apply: nothing is validated while typing until the first submit; after it, each change
  re-validates the changed input and rewrites its error entry (`Page.Home.EnterValue`).

## Model

| member | source | states |
|---|---|---|
| Records.WithId | pages/index.tsx:67-70 | the record `{ id, ...data }` has the given `id` and carries exactly the values `data` |
| FormSlice.FindIndex | store/formSlice.ts:18 | -1 exactly when no record has the `id`; otherwise the index holds that `id` and no earlier index does |
| FormSlice.Upserted | store/formSlice.ts:16-25 | `id` present: same length, the first matching index holds the payload, every other index unchanged; `id` absent: the old list with the payload appended last; nothing else enters the list |
| FormSlice.Without | store/formSlice.ts:29-32 | no record with the `id` remains; every survivor comes from the old list; an absent `id` leaves the list unchanged |
| FormSlice.WithoutKeepsOthers | store/formSlice.ts:31 | every record with another `id` survives deletion as many times as it occurred |
| FormSlice.FormState.constructor | store/formSlice.ts:8-10 | the initial state is the empty list |
| FormSlice.FormState.UpdateFormData | store/formSlice.ts:16-25 | the new list is the upsert of the payload into the old one |
| FormSlice.FormState.SaveFormData | store/formSlice.ts:26-28 | the payload is appended to the old list, with no identifier check |
| FormSlice.FormState.DeleteFormData | store/formSlice.ts:29-32 | the new list is the old one without the records carrying the `id` |
| FormSlice.UpsertReplacesFirstOnly | store/formSlice.ts:18-21 | a later record with the same `id` is left untouched by the upsert |
| FormSlice.UpsertKeepsUniqueIds | store/formSlice.ts:16-25 | if ids are unique before an upsert, they are unique after it |
| FormSlice.UpsertIdempotent | store/formSlice.ts:16-25 | repeating the same upsert leaves the list unchanged |
| FormSlice.UpsertGrowth | store/formSlice.ts:20-24 | the upsert grows the list by one exactly when the `id` is new, and otherwise keeps its length |
| FormSlice.SaveMayDuplicateIds | store/formSlice.ts:26-28 | saving a record whose `id` is already present makes the ids non-unique |
| FormSlice.WithoutAppend | store/formSlice.ts:31 | deletion distributes over concatenation, so the survivors keep their relative order |
| FormSlice.WithoutIdempotent | store/formSlice.ts:31 | deleting the same `id` twice equals deleting it once |
| FormSlice.WithoutKeepsUniqueIds | store/formSlice.ts:31 | deletion keeps unique ids unique |
| FormSchema.TrimStartSuffix | pages/index.tsx:30 | the result is a suffix of the input; everything removed is white space; the result does not start with white space |
| FormSchema.AddressIssuesLookup | pages/index.tsx:22-26 | the rows raise "Address cannot be blank" on `address.i.value` exactly when row `i` exists and is empty |
| FormSchema.AddressIssuesOther | pages/index.tsx:22-26 | the rows raise no issue on any path other than a row path |
| FormSchema.LookupFinds | pages/index.tsx:37-38 | a first message on a path is found exactly when some issue lies on that path |
| FormSchema.FirstPerPathIsFirst | pages/index.tsx:37-38 | the resolver's error map holds, for each path, the message of the first issue on it, and no entry for paths without issues |
| FormSchema.ErrorAtIsFirstIssue | pages/index.tsx:37-38 | the error map's entry at a path is the first issue on that path, and there is none when validation succeeds |
| FormSchema.ValidateAcceptsIff | pages/index.tsx:18-36 | validation succeeds iff name, dob, phone, every address row, age and the password pair all pass, and the accepted value is the input |
| FormSchema.ValidateIdempotent | pages/index.tsx:18-36 | validating an accepted value again accepts it again, unchanged |
| FormSchema.NameReported | pages/index.tsx:19 | the name message is "blank" for the empty name, else "too long" above 20 characters, else "bad characters" outside `[A-Za-z ]`; no message iff the name is accepted |
| FormSchema.DobReported | pages/index.tsx:20 | the dob message is "blank" for the empty string, else "greater than today" when its length exceeds the `Date.now()` bound; none otherwise |
| FormSchema.PhoneReported | pages/index.tsx:21 | the phone message is the first failing check in the order non-empty, digits only, at least 8, at most 10; no message iff it is accepted |
| FormSchema.AddressReported | pages/index.tsx:22-26 | the error map holds "Address cannot be blank" for row `i` exactly when it exists and is empty; no check on the number of rows |
| FormSchema.AgeReported | pages/index.tsx:30-32 | the error map holds the age message exactly when `parseInt(val, 10)` is NaN |
| FormSchema.ConfirmPasswordReported | pages/index.tsx:33-36 | the error map holds "Passwords do not match" on `confirmPassword` exactly when the two differ; equal strings, both empty included, pass |
| FormSchema.PasswordNeverReported | pages/index.tsx:27-29 | no rule ever reports a message on `password` |
| FormSchema.ParsesAsIntDigitPrefix | pages/index.tsx:30 | white space, an optional sign and a digit make `parseInt` succeed, whatever follows |
| FormSchema.ParsesAsIntShape | pages/index.tsx:30 | conversely, every string that parses is white space, an optional sign and a digit, followed by anything |
| FormSchema.NoDigitNoInt | pages/index.tsx:30 | a string with no decimal digit, the empty one included, never parses |
| FormSchema.AgeExamples | pages/index.tsx:30-32 | "12abc" and " -7" pass the age rule; "", "abc" and "-" fail it |
| AddressDisplay.DisplayIsJoin | pages/index.tsx:186 | the Address cell is the row values joined with ", ", with no separator before the first |
| AddressDisplay.DisplayLength | pages/index.tsx:186 | for n rows the cell is the values plus exactly n-1 two-character separators |
| AddressDisplay.DisplaySingle | pages/index.tsx:186 | a single row shows its value alone |
| AddressDisplay.DisplayAppend | pages/index.tsx:186 | one more row appends ", " and its value to the cell |
| Page.Home.constructor | pages/index.tsx:14-15 | the page starts outside edit mode with the label "Register User", default inputs and no errors |
| Page.SilentRejection | pages/index.tsx:101-143 | a rejected form shows no message on any input exactly when name, dob, phone and the password pair pass and the age or an address row fails |
| Page.Revalidated | pages/index.tsx:37-49 | re-validating at a path replaces only that path's entry, with the validation's message there, or removes it when there is none |
| Page.Home.EnterValue | pages/index.tsx:101-143 | typing changes only the one input; before the first submit the error map stays as it is, afterwards the typed path's entry is re-validated and every other entry stays |
| Page.Home.SubmitHandler | pages/index.tsx:65-80 | in edit mode the values are upserted under the given id, then the mode is cleared and the label becomes "Register User"; otherwise they are saved under the fresh id and the mode is unchanged; afterwards the form is reset |
| Page.Home.Reset | pages/index.tsx:79 | the inputs and the form's `id` return to their defaults and the errors are cleared |
| Page.Home.HandleSubmit | pages/index.tsx:98 | rejected values only set the error map and leave the store alone; accepted values satisfy every field rule and go through the submit handler, which resets the inputs, the form's `id` and the errors; either way the form then counts as submitted |
| Page.Home.HandleEditClick | pages/index.tsx:82-93 | the label becomes "Update User", edit mode is on, and every input, `id` included, is loaded from the record |
| Page.Home.HandleDeleteClick | pages/index.tsx:195 | the store drops every record with the row's `id` |
| Page.Home.AppendAddressRow | pages/index.tsx:155 | one empty row is appended and nothing else changes |
| Page.Home.RemoveAddressRow | pages/index.tsx:144-145 | only a row after the first can be removed, so at least one row always remains |

## Left out

- Rendering: the JSX, icons, styling and table layout. The one piece of display logic kept is the Address cell join.
- The input wrapper in components/ui/input.tsx. It shows a message when one is present. The model computes the error map's entries (`FormSchema.ErrorAt`) and which inputs are given one (`Page.Displayed`).
- The store wiring in store/index.ts and the internals of the schema, resolver, form, Immer and Redux libraries. Only their observable effect is modelled.
- Clock time. `Date.now()` becomes parameters: `freshId` for a new record's id, and `now` for the dob length bound and the default form id.
- Page.Home.SubmitHandler: takes the edit-mode id as the parameter `payloadId`. The schema declares no `id` key, and the resolver library is not part of this model, so the model cannot say whether `data.id` reaches the handler. For the same reason it does not model whether `{ id, ...data }` lets a surviving `data.id` override the fresh id.
- React state timing and re-rendering. Each handler is one atomic step.
- Page.Home.HandleSubmit: counts the form as submitted after the handler has run, even though the handler's `reset()` clears that flag. The form library records the submission after calling the handler, and its code is not part of this model.
- Page.Home.AppendAddressRow: does not re-validate the address rows after a submit. The form library's field-array code, which does, is not part of this model.
- Page.Home.RemoveAddressRow: does not shift the address-row error entries along with the rows, nor re-validate them after a submit. The form library does both in its field-array code, which is not part of this model.
- Character lengths count Dafny characters, not UTF-16 code units. The two differ only for characters outside the Basic Multilingual Plane.
- Field paths are a datatype (`FormSchema.FieldPath`), not the dotted strings such as `address.0.value`.
