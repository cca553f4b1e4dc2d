/**
 * The registration page's handlers (pages/index.tsx): the edit-mode flag and
 * the submit button's label, the form's input values and reported errors, and
 * the dispatches into the record store. Each handler is one atomic step.
 */
module Page {
  import opened Wrappers
  import opened Records
  import FormSchema
  import FormSlice

  const RegisterLabel := "Register User"
  const UpdateLabel := "Update User"

  /** The form's `defaultValues` (without `id`): every input empty, one empty address row. */
  function DefaultValues(): (v: FormValues)
    ensures v.address == [Address("")]
  {
    FormValues("", "", "", "", [Address("")], "", "")
  }

  /**
   * The paths whose input is given a `message`: name, date of birth, phone
   * number and the password pair. The age input and the address rows get none.
   */
  predicate Displayed(p: FormSchema.FieldPath)
  {
    p == FormSchema.Name || p == FormSchema.Dob || p == FormSchema.PhoneNumber
    || p == FormSchema.Password || p == FormSchema.ConfirmPassword
  }

  /** No input on the page shows a message. */
  ghost predicate NothingShown(v: FormValues, now: int)
  {
    forall p :: Displayed(p) ==> FormSchema.ErrorAt(v, now, p).None?
  }

  /**
   * A rejected form shows no message at all exactly when name, date of birth,
   * phone number and the password pair pass and the age or an address row fails.
   */
  lemma SilentRejection(v: FormValues, now: int)
    ensures FormSchema.Validate(v, now).Err? && NothingShown(v, now)
        <==> && FormSchema.NameAccepted(v.name)
             && FormSchema.DobAccepted(v.dob, now)
             && FormSchema.PhoneAccepted(v.phoneNumber)
             && v.password == v.confirmPassword
             && !(FormSchema.ParsesAsInt(v.age) && FormSchema.AddressesAccepted(v.address))
  {
    FormSchema.ValidateAcceptsIff(v, now);
    FormSchema.NameReported(v, now);
    FormSchema.DobReported(v, now);
    FormSchema.PhoneReported(v, now);
    FormSchema.PasswordNeverReported(v, now);
    FormSchema.ConfirmPasswordReported(v, now);
  }

  /** `after` is `before` with only the input registered at `p` typed into. */
  predicate EditedAt(before: FormValues, after: FormValues, p: FormSchema.FieldPath)
  {
    match p
    case Name => after == before.(name := after.name)
    case Age => after == before.(age := after.age)
    case Dob => after == before.(dob := after.dob)
    case PhoneNumber => after == before.(phoneNumber := after.phoneNumber)
    case AddressValue(i) =>
      && i < |before.address| == |after.address|
      && after == before.(address := before.address[i := after.address[i]])
    case Password => after == before.(password := after.password)
    case ConfirmPassword => after == before.(confirmPassword := after.confirmPassword)
  }

  /** `errors` with the entry at `p` replaced by what validating `v` gives there. */
  function Revalidated(errors: map<FormSchema.FieldPath, string>, v: FormValues, now: int, p: FormSchema.FieldPath)
    : (r: map<FormSchema.FieldPath, string>)
    ensures forall q :: q != p ==> (q in r <==> q in errors)
    ensures forall q :: q != p && q in r ==> r[q] == errors[q]
    ensures p in r <==> FormSchema.ErrorAt(v, now, p).Some?
    ensures p in r ==> FormSchema.ErrorAt(v, now, p) == Some(r[p])
  {
    match FormSchema.ErrorAt(v, now, p)
    case Some(m) => errors[p := m]
    case None => errors - {p}
  }

  class Home {
    /** `editMode` */
    var editMode: bool
    /** `lableText`, the submit button's text */
    var labelText: string
    /** The inputs' current values. */
    var values: FormValues
    /** The form's `id` value. */
    var formId: int
    /** `formState.isSubmitted`: once set, each change re-validates the changed input. */
    var submitted: bool
    /** `formState.errors`: the first message per path; only `Displayed` paths are shown. */
    var errors: map<FormSchema.FieldPath, string>
    /** The `id` the form's `defaultValues` were built with. */
    const defaultId: int
    /** The record store the page dispatches to. */
    const store: FormSlice.FormState

    /**
     * The label always matches the mode, the form always has at least one
     * address row, and so does every stored record.
     */
    ghost predicate Valid()
      reads this, store
    {
      && labelText == (if editMode then UpdateLabel else RegisterLabel)
      && |values.address| >= 1
      && forall r :: r in store.formDataArray ==> |r.address| >= 1
    }

    /** The first render: not editing, default inputs, no errors. */
    constructor (store: FormSlice.FormState, now: int)
      requires forall r :: r in store.formDataArray ==> |r.address| >= 1
      ensures Valid()
      ensures this.store == store && defaultId == now
      ensures !editMode && labelText == RegisterLabel
      ensures values == DefaultValues() && formId == now && errors == map[] && !submitted
    {
      this.store := store;
      defaultId := now;
      editMode := false;
      labelText := RegisterLabel;
      values := DefaultValues();
      formId := now;
      errors := map[];
      submitted := false;
    }

    /**
     * Typing into the input registered at `p`, which gives the values `v`.
     * Before the first submit nothing is validated; afterwards the form
     * library re-validates the changed input and rewrites its error entry.
     */
    method EnterValue(p: FormSchema.FieldPath, v: FormValues, now: int)
      requires Valid()
      requires EditedAt(values, v, p)
      modifies this
      ensures Valid()
      ensures values == v
      ensures editMode == old(editMode) && labelText == old(labelText)
      ensures formId == old(formId) && submitted == old(submitted)
      ensures errors == if old(submitted) then Revalidated(old(errors), v, now, p) else old(errors)
    {
      values := v;
      if submitted {
        errors := Revalidated(errors, v, now, p);
      }
    }

    /**
     * `submitHandler`, called with the validated values. In edit mode the
     * values are upserted under `payloadId` and the page leaves edit mode;
     * otherwise they are saved under `freshId`. Then the form is reset.
     */
    method SubmitHandler(data: FormValues, payloadId: int, freshId: int)
      requires Valid()
      requires |data.address| >= 1
      modifies this, store
      ensures Valid()
      ensures old(editMode) ==>
        && store.formDataArray == FormSlice.Upserted(old(store.formDataArray), WithId(payloadId, data))
        && !editMode && labelText == RegisterLabel
      ensures !old(editMode) ==>
        && store.formDataArray == old(store.formDataArray) + [WithId(freshId, data)]
        && editMode == old(editMode) && labelText == old(labelText)
      ensures values == DefaultValues() && formId == defaultId && errors == map[] && !submitted
    {
      if editMode {
        store.UpdateFormData(WithId(payloadId, data));
        editMode := false;
        labelText := RegisterLabel;
      } else {
        store.SaveFormData(WithId(freshId, data));
      }
      Reset();
    }

    /**
     * `reset()`: the inputs and the form's `id` go back to their defaults, the
     * errors are cleared and the form no longer counts as submitted.
     */
    method Reset()
      modifies this
      ensures values == DefaultValues() && formId == defaultId && errors == map[] && !submitted
      ensures editMode == old(editMode) && labelText == old(labelText)
    {
      values := DefaultValues();
      formId := defaultId;
      errors := map[];
      submitted := false;
    }

    /**
     * `handleSubmit(submitHandler)`: the inputs are validated; on failure the
     * error map is stored and nothing else changes, on success `SubmitHandler`
     * runs with the accepted values. Either way the form then counts as submitted.
     */
    method HandleSubmit(now: int, payloadId: int, freshId: int)
      requires Valid()
      modifies this, store
      ensures Valid()
      ensures submitted
      ensures FormSchema.Validate(old(values), now).Err? ==>
        && errors == FormSchema.Validate(old(values), now).error
        && store.formDataArray == old(store.formDataArray)
        && values == old(values) && formId == old(formId)
        && editMode == old(editMode) && labelText == old(labelText)
      ensures FormSchema.Validate(old(values), now).Ok? ==>
        && FormSchema.FormAccepted(old(values), now)
        && (old(editMode) ==>
              store.formDataArray == FormSlice.Upserted(old(store.formDataArray), WithId(payloadId, old(values))))
        && (!old(editMode) ==>
              store.formDataArray == old(store.formDataArray) + [WithId(freshId, old(values))])
        && !editMode && labelText == RegisterLabel
        && values == DefaultValues() && formId == defaultId && errors == map[]
    {
      var result := FormSchema.Validate(values, now);
      FormSchema.ValidateAcceptsIff(values, now);
      if result.Err? {
        errors := result.error;
      } else {
        assert result.value == values;
        SubmitHandler(values, payloadId, freshId);
      }
      submitted := true;
    }

    /** `handleEditClick`: load every field of the record and switch to edit mode. */
    method HandleEditClick(formData: FormDataItem)
      requires Valid()
      requires formData in store.formDataArray
      modifies this
      ensures Valid()
      ensures editMode && labelText == UpdateLabel
      ensures values == ValuesOf(formData) && formId == formData.id
      ensures errors == old(errors) && submitted == old(submitted)
    {
      labelText := UpdateLabel;
      formId := formData.id;
      values := ValuesOf(formData);
      editMode := true;
    }

    /** The delete button of a table row. */
    method HandleDeleteClick(id: int)
      requires Valid()
      modifies store
      ensures Valid()
      ensures store.formDataArray == FormSlice.Without(old(store.formDataArray), id)
    {
      store.DeleteFormData(id);
    }

    /** The add-row button: `append({ value: "" })`. */
    method AppendAddressRow()
      requires Valid()
      modifies this
      ensures Valid()
      ensures values == old(values).(address := old(values.address) + [Address("")])
      ensures editMode == old(editMode) && labelText == old(labelText)
      ensures formId == old(formId) && errors == old(errors) && submitted == old(submitted)
    {
      values := values.(address := values.address + [Address("")]);
    }

    /** The remove button, which only rows after the first have: `remove(index)`. */
    method RemoveAddressRow(index: int)
      requires Valid()
      requires 0 < index < |values.address|
      modifies this
      ensures Valid()
      ensures values == old(values).(address := old(values.address)[..index] + old(values.address)[index + 1..])
      ensures |values.address| == |old(values.address)| - 1
      ensures editMode == old(editMode) && labelText == old(labelText)
      ensures formId == old(formId) && errors == old(errors) && submitted == old(submitted)
    {
      values := values.(address := values.address[..index] + values.address[index + 1..]);
    }
  }
}
