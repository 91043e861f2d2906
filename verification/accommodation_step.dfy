/** The accommodation step (src/components/AccommodationForm/steps/AccommodationStep.tsx):
    the field validator, the blur bookkeeping of touched flags and recorded
    errors, the photo list rules and the gate on the Next button. The step's
    data arrives as a parameter (the React prop); its own local state is the
    error map and the touched map. */
module AccommodationStep {
  import opened Wrappers
  import opened Text
  import opened FormTypes
  import opened Records

  /** `keyof AccommodationData`. */
  datatype AccField = Name | Address | Description | Type | Photos

  const NameRequired := "Name is required"
  const NameLength := "Name must be between 4 and 128 characters"
  const NameDigits := "Name cannot contain numbers"
  const AddressRequired := "Address is required"
  const AddressLength := "Address must be between 4 and 128 characters"
  const DescriptionLength := "Description must be between 128 and 2048 characters"
  const TypeRequired := "Type is required"
  const MaxPhotosMessage := "Maximum 2 photos allowed"
  const DimensionsMessage := "All images must be exactly 500x500 pixels"

  const MaxPhotoCount := 2
  const PhotoSide := 500

  // ---------------------------------------------------------------------
  // Reference constraints: what a valid value of each field looks like.
  // ---------------------------------------------------------------------

  /** A listing name: 4 to 128 characters, none of them a digit. */
  predicate ValidName(s: string) {
    4 <= |s| <= 128 && AllDigitFree(s)
  }

  /** An address: 4 to 128 characters, any content. */
  predicate ValidAddress(s: string) {
    4 <= |s| <= 128
  }

  /** A description: absent or empty, or 128 to 2048 characters. */
  predicate ValidDescription(s: string) {
    s == "" || 128 <= |s| <= 2048
  }

  /** The constraint each field's text must meet; a field without a rule
      (the photo list) accepts anything. */
  predicate FieldConstraint(field: AccField, value: string) {
    match field
    case Name => ValidName(value)
    case Address => ValidAddress(value)
    case Description => ValidDescription(value)
    case Type => value != ""
    case Photos => true
  }

  // ---------------------------------------------------------------------
  // validateField
  // ---------------------------------------------------------------------

  /** `validateField`: the error message for a field's text, `""` when the
      text is acceptable. The checks run in the order required, length,
      content, and the first failing one decides the message. */
  function ValidateField(field: AccField, value: string): (r: string)
    ensures r == "" <==> FieldConstraint(field, value)
    ensures r != "" ==> r in ErrorMessages(field)
  {
    match field
    case Name =>
      if value == "" then NameRequired
      else if |value| < 4 || |value| > 128 then NameLength
      else if HasDigit(value) then NameDigits
      else ""
    case Address =>
      if value == "" then AddressRequired
      else if |value| < 4 || |value| > 128 then AddressLength
      else ""
    case Description =>
      if value != "" && (|value| < 128 || |value| > 2048) then DescriptionLength
      else ""
    case Type =>
      if value == "" then TypeRequired else ""
    case Photos => ""
  }

  /** The messages the validator may report for each field. */
  function ErrorMessages(field: AccField): set<string> {
    match field
    case Name => {NameRequired, NameLength, NameDigits}
    case Address => {AddressRequired, AddressLength}
    case Description => {DescriptionLength}
    case Type => {TypeRequired}
    case Photos => {}
  }

  /** The name checks in order: an empty name is "required"; a name of the
      wrong length reports the length whatever it contains; only a name of
      acceptable length is checked for digits. */
  lemma NameCheckOrder(s: string)
    ensures s == "" ==> ValidateField(Name, s) == NameRequired
    ensures s != "" && !(4 <= |s| <= 128) ==> ValidateField(Name, s) == NameLength
    ensures ValidateField(Name, s) == NameDigits <==>
              4 <= |s| <= 128 && exists k :: 0 <= k < |s| && IsDigit(s[k])
  {
  }

  /** A short name that contains a digit is reported for its length, not for
      the digit. */
  lemma ShortNameWithDigitReportsLength()
    ensures ValidateField(Name, "A1") == NameLength
    ensures ValidateField(Name, "Apt 1") == NameDigits
  {
  }

  /** The address checks: "required", then the length bounds, no content rule. */
  lemma AddressCheckOrder(s: string)
    ensures s == "" ==> ValidateField(Address, s) == AddressRequired
    ensures s != "" && !(4 <= |s| <= 128) ==> ValidateField(Address, s) == AddressLength
    ensures 4 <= |s| <= 128 ==> ValidateField(Address, s) == ""
  {
  }

  /** The description: the empty text is always valid; otherwise only the
      length is checked. */
  lemma DescriptionRule(s: string)
    ensures ValidateField(Description, "") == ""
    ensures s != "" ==> (ValidateField(Description, s) == "" <==> 128 <= |s| <= 2048)
    ensures ValidateField(Description, s) != "" ==> ValidateField(Description, s) == DescriptionLength
  {
  }

  // ---------------------------------------------------------------------
  // Step-local state and handleBlur
  // ---------------------------------------------------------------------

  /** The step's local state: the recorded error of each field that has one
      (`ValidationErrors`), and the touched flag of each field. */
  datatype StepState = StepState(errors: map<AccField, string>, touched: map<AccField, bool>)

  /** The state the step mounts with: no recorded error, nothing touched. */
  function InitialState(): (st: StepState)
    ensures st.errors == map[]
    ensures st.touched.Keys == {Name, Address, Description, Type, Photos}
    ensures forall f :: f in st.touched ==> !st.touched[f]
  {
    StepState(map[], map[Name := false, Address := false, Description := false,
                         Type := false, Photos := false])
  }

  /** The text `handleBlur` validates for a field: `data[field]?.toString() || ''`.
      An absent description reads as the empty text, the type as its select
      value and the photo list as its elements joined with commas. */
  function FieldText(data: AccommodationData, field: AccField): (r: string)
    ensures field == Name ==> r == data.name
    ensures field == Address ==> r == data.address
    ensures field == Description ==> r == data.description.GetOr("")
    ensures field == Description ==> (r == "" <==> data.description.None? || data.description == Some(""))
    ensures field == Type ==> r == TypeName(data.kind) && r != ""
    ensures field == Photos && data.photos == [] ==> r == ""
  {
    match field
    case Name => data.name
    case Address => data.address
    case Description => data.description.GetOr("")
    case Type => TypeName(data.kind)
    case Photos => JoinWithCommas(data.photos)
  }

  /** `handleBlur(field)`: the field becomes touched and its recorded error is
      rewritten with the validator's verdict on the field's current text; every
      other entry of both maps is kept. */
  function Blur(data: AccommodationData, st: StepState, field: AccField): (r: StepState)
    ensures field in r.touched && r.touched[field]
    ensures field in r.errors && r.errors[field] == ValidateField(field, FieldText(data, field))
    ensures forall g :: g != field ==> SameEntry(st.touched, r.touched, g) && SameEntry(st.errors, r.errors, g)
  {
    var error := ValidateField(field, FieldText(data, field));
    StepState(st.errors[field := error], st.touched[field := true])
  }

  /** Blurring the same field twice without editing in between changes nothing
      the second time. */
  lemma BlurIdempotent(data: AccommodationData, st: StepState, field: AccField)
    ensures Blur(data, Blur(data, st, field), field) == Blur(data, st, field)
  {
  }

  /** Blurs of two fields commute: the order in which fields lose focus does
      not matter to the recorded state. */
  lemma BlursCommute(data: AccommodationData, st: StepState, f: AccField, g: AccField)
    ensures Blur(data, Blur(data, st, f), g) == Blur(data, Blur(data, st, g), f)
  {
  }

  // ---------------------------------------------------------------------
  // isValid and the Next button
  // ---------------------------------------------------------------------

  /** `isValid`: no recorded error is non-empty, and the required fields
      name, address and type are non-empty. It reads the recorded errors,
      which only blur and photo uploads write; it does not re-validate the
      current data. */
  function IsValid(data: AccommodationData, st: StepState): (r: bool)
    ensures r <==> (forall f :: f in st.errors ==> st.errors[f] == "") && data.name != "" && data.address != ""
  {
    var hasErrors := exists f :: f in st.errors && st.errors[f] != "";
    var hasRequiredFields := data.name != "" && data.address != "" && TypeName(data.kind) != "";
    !hasErrors && hasRequiredFields
  }

  /** `disabled={!isValid() || !touched}` on the Next button. Because the
      touched record is an object, `!touched` is always false, so the button
      is disabled exactly when the step is not valid: touching no field at
      all does not keep it disabled. */
  function NextDisabled(data: AccommodationData, st: StepState): (r: bool)
    ensures r <==> (exists f :: f in st.errors && st.errors[f] != "") || data.name == "" || data.address == ""
  {
    !IsValid(data, st) || !ObjectIsTruthy(st.touched)
  }

  /** Because `isValid` only reads recorded errors, an invalid name that has
      not been blurred yet does not keep the step invalid. */
  lemma UnblurredInvalidNameIsAccepted()
    ensures var data := AccommodationData("Al", "Main Street", None, Apartment, []);
            !ValidName(data.name) && IsValid(data, InitialState()) && !NextDisabled(data, InitialState())
  {
    var data := AccommodationData("Al", "Main Street", None, Apartment, []);
    assert !ValidName(data.name);
  }

  /** Blurring a field whose text the validator rejects disables Next. */
  lemma BlurredInvalidFieldDisablesNext(data: AccommodationData, st: StepState, field: AccField)
    requires !FieldConstraint(field, FieldText(data, field))
    ensures NextDisabled(data, Blur(data, st, field))
  {
  }

  /** The two-character name "Al", once blurred, reports the length message
      and leaves Next disabled. */
  lemma ShortNameScenario(data: AccommodationData, st: StepState)
    requires data.name == "Al"
    ensures Blur(data, st, Name).errors[Name] == NameLength
    ensures NextDisabled(data, Blur(data, st, Name))
  {
  }

  /** The type field, read from the data, always passes its check. */
  lemma TypeFieldAlwaysValid(data: AccommodationData)
    ensures ValidateField(Type, FieldText(data, Type)) == ""
    ensures forall s :: ValidateField(Photos, s) == ""
  {
  }

  /** Once every text field has been blurred, starting from the freshly
      mounted step, the step is valid exactly when the data meets the
      listing's constraints: a valid name, a valid address and a valid (or
      absent) description. */
  lemma {:induction false} BlurAllThenValid(data: AccommodationData)
    ensures var st := Blur(data, Blur(data, Blur(data, Blur(data, InitialState(), Name), Address), Description), Type);
            IsValid(data, st) <==>
              ValidName(data.name) && ValidAddress(data.address) && ValidDescription(data.description.GetOr(""))
  {
    var st := Blur(data, Blur(data, Blur(data, Blur(data, InitialState(), Name), Address), Description), Type);
    assert st.errors.Keys == {Name, Address, Description, Type};
    assert st.errors[Name] == ValidateField(Name, data.name);
    assert st.errors[Address] == ValidateField(Address, data.address);
    assert st.errors[Description] == ValidateField(Description, data.description.GetOr(""));
    assert st.errors[Type] == "";
    if IsValid(data, st) {
      assert st.errors[Name] == "" && st.errors[Address] == "" && st.errors[Description] == "";
    }
  }

  // ---------------------------------------------------------------------
  // Photos
  // ---------------------------------------------------------------------

  /** A selected file as the upload handler sees it: the decoded image's
      dimensions and the data URL the file reader produces for it. */
  datatype ImageFile = ImageFile(width: nat, height: nat, encoded: string)

  /** The dimension rule: exactly 500 by 500 pixels. */
  predicate IsSquare500(f: ImageFile) {
    f.width == PhotoSide && f.height == PhotoSide
  }

  /** `handlePhotoUpload`: an empty selection does nothing; a selection that
      would bring the total above two is refused with the count message; a
      selection with any image not exactly 500x500 is refused with the
      dimension message; otherwise the encoded images are appended in
      selection order and the photo error is cleared. A refused selection
      leaves the photo list as it was. */
  method HandlePhotoUpload(photos: seq<string>, errors: map<AccField, string>, files: seq<ImageFile>)
    returns (photos': seq<string>, errors': map<AccField, string>)
    ensures |files| == 0 ==> photos' == photos && errors' == errors
    ensures |files| > 0 && |photos| + |files| > MaxPhotoCount ==>
              photos' == photos && errors' == errors[Photos := MaxPhotosMessage]
    ensures |files| > 0 && |photos| + |files| <= MaxPhotoCount && (exists k :: 0 <= k < |files| && !IsSquare500(files[k])) ==>
              photos' == photos && errors' == errors[Photos := DimensionsMessage]
    ensures |files| > 0 && |photos| + |files| <= MaxPhotoCount && (forall k :: 0 <= k < |files| ==> IsSquare500(files[k])) ==>
              && |photos'| == |photos| + |files|
              && photos'[..|photos|] == photos
              && (forall k :: 0 <= k < |files| ==> photos'[|photos| + k] == files[k].encoded)
              && errors' == errors[Photos := ""]
    ensures |files| > 0 && photos' == photos ==> Photos in errors' && errors'[Photos] != ""
    ensures photos' == photos || |photos'| <= MaxPhotoCount
  {
    photos' := photos;
    errors' := errors;
    if |files| == 0 {
      return;
    }
    if |photos| + |files| > MaxPhotoCount {
      errors' := errors'[Photos := MaxPhotosMessage];
      return;
    }

    // Decode every selected image and check its dimensions; each failing
    // image (re)records the dimension error.
    var allValid := true;
    var i := 0;
    while i < |files|
      invariant 0 <= i <= |files|
      invariant allValid <==> forall k :: 0 <= k < i ==> IsSquare500(files[k])
      invariant errors' == if allValid then errors else errors[Photos := DimensionsMessage]
    {
      if !IsSquare500(files[i]) {
        allValid := false;
        errors' := errors'[Photos := DimensionsMessage];
      }
      i := i + 1;
    }

    if allValid {
      // Encode the images in selection order.
      var newPhotos: seq<string> := [];
      var j := 0;
      while j < |files|
        invariant 0 <= j <= |files|
        invariant |newPhotos| == j
        invariant forall k :: 0 <= k < j ==> newPhotos[k] == files[k].encoded
      {
        newPhotos := newPhotos + [files[j].encoded];
        j := j + 1;
      }
      photos' := photos + newPhotos;
      errors' := errors'[Photos := ""];
    }
  }

  /** `photos.filter((_, i) => i !== index)` where the scan has reached
      position `from`: keeps every element whose position differs from
      `index`. */
  function KeepAllBut(s: seq<string>, index: int, from: int): (r: seq<string>)
    ensures from <= index < from + |s| ==> r == s[..index - from] + s[index - from + 1..]
    ensures !(from <= index < from + |s|) ==> r == s
    decreases |s|
  {
    if s == [] then []
    else
      var rest := KeepAllBut(s[1..], index, from + 1);
      if from == index then
        rest
      else
        [s[0]] + rest
  }

  /** `removePhoto(index)`: the photo at `index` is removed and the others
      keep their order; an index outside the list changes nothing. */
  function RemovePhoto(photos: seq<string>, index: int): (r: seq<string>)
    ensures 0 <= index < |photos| ==>
              && |r| == |photos| - 1
              && (forall k :: 0 <= k < index ==> r[k] == photos[k])
              && (forall k :: index <= k < |r| ==> r[k] == photos[k + 1])
    ensures !(0 <= index < |photos|) ==> r == photos
    ensures |r| <= |photos|
  {
    KeepAllBut(photos, index, 0)
  }

  /** A recorded photo error, such as the one a refused upload leaves,
      disables Next until a successful upload clears it. */
  lemma PhotoErrorBlocksNext(data: AccommodationData, st: StepState)
    requires Photos in st.errors && st.errors[Photos] != ""
    ensures NextDisabled(data, st)
  {
  }
}
