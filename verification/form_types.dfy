/** The records and enumerations the form is built from: the accommodation
    listing, the owner's contact details, the aggregate form data and the
    step key (src/types/form.ts). */
module FormTypes {
  import opened Wrappers

  /** `AccommodationType`: the three values the type select offers. */
  datatype AccommodationType = Apartment | Villa | House

  /** The string the select control stores for each accommodation type. */
  function TypeName(t: AccommodationType): (r: string)
    ensures r != ""
  {
    match t
    case Apartment => "apartment"
    case Villa => "villa"
    case House => "house"
  }

  /** `AccommodationData`. The source's `type` property is called `kind` here
      (`type` is a Dafny keyword); `description` is optional. */
  datatype AccommodationData = AccommodationData(
    name: string,
    address: string,
    description: Option<string>,
    kind: AccommodationType,
    photos: seq<string>)

  /** `OwnerData`; `phone` is optional. */
  datatype OwnerData = OwnerData(name: string, email: string, phone: Option<string>)

  /** `Record<string, unknown>`: the values are opaque to the form, which
      only copies and merges them, so they are kept as strings. */
  type GenericRecord = map<string, string>

  /** `FormData`: one slice per step; the summary slice is optional and is
      absent from the initial value. */
  datatype FormData = FormData(
    accommodation: AccommodationData,
    owner: OwnerData,
    summary: Option<GenericRecord>)

  /** `FormStep`: the step keys, in the order the form visits them. */
  datatype FormStep = Accommodation | Owner | Summary

  /** `Partial<AccommodationData>`: a key is present exactly when its entry is
      `Some`. */
  datatype AccommodationPatch = AccommodationPatch(
    name: Option<string>,
    address: Option<string>,
    description: Option<string>,
    kind: Option<AccommodationType>,
    photos: Option<seq<string>>)

  /** `Partial<OwnerData>`. */
  datatype OwnerPatch = OwnerPatch(
    name: Option<string>,
    email: Option<string>,
    phone: Option<string>)

  /** The patch with no key present: `{}`. */
  const EmptyAccommodationPatch := AccommodationPatch(None, None, None, None, None)
  const EmptyOwnerPatch := OwnerPatch(None, None, None)
}
