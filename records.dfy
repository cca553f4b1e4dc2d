/**
 * The record that the registration form produces and the store keeps
 * (`FormDataItem` in lib/globla.types.ts).
 *
 * The type declaration gives `age` and `phoneNumber` the type `number`,
 * but the schema that produces the record yields strings for both, and the
 * edit handler turns them back into strings with `toString()`; the model
 * keeps both as strings throughout.
 */
module Records {
  /** One address row of the form, `{ value: string }`. */
  datatype Address = Address(value: string)

  /** The values of the form's inputs, as the form library holds them. */
  datatype FormValues = FormValues(
    name: string,
    age: string,
    dob: string,
    phoneNumber: string,
    address: seq<Address>,
    password: string,
    confirmPassword: string)

  /** A stored record: the form values plus the identifier the store is keyed by. */
  datatype FormDataItem = FormDataItem(
    id: int,
    name: string,
    age: string,
    dob: string,
    phoneNumber: string,
    address: seq<Address>,
    password: string,
    confirmPassword: string)

  /** The form values a record carries (what the edit handler loads into the inputs). */
  function ValuesOf(r: FormDataItem): FormValues
  {
    FormValues(r.name, r.age, r.dob, r.phoneNumber, r.address, r.password, r.confirmPassword)
  }

  /** The record `{ id, ...data }`: the values `v` under identifier `id`. */
  function WithId(id: int, v: FormValues): (r: FormDataItem)
    ensures r.id == id && ValuesOf(r) == v
  {
    FormDataItem(id, v.name, v.age, v.dob, v.phoneNumber, v.address, v.password, v.confirmPassword)
  }
}
