# Accommodation listing form — decision logic in Dafny

This project models the logic behind a two-step accommodation listing form
(an embeddable React widget). The first step collects the listing: name,
address, optional description, type and up to two photos. The second step
collects the owner's name, email and optional phone. A controller holds the
aggregate form data and the current step. Its forward transition agrees with
the order of the step registry (`HandleNext`'s contract).

The model covers:

- the field validators of both steps, with their exact messages and the
  order of their checks;
- the step-local bookkeeping of touched flags and recorded errors on blur;
- the photo rules: at most two photos, each exactly 500x500, appended in
  selection order, and removal by index;
- the validity check that gates each step's Next button;
- the controller's initial state, its `handleNext` transition, and its
  shallow `updateFormData` merge;
- the step registry (keys, order, titles) and the step-to-data-type mapping.

Modules follow the source files:

| module | file | source |
|---|---|---|
| `Wrappers` | wrappers.dfy | optional values (TypeScript `?` properties, `Partial<T>` keys) |
| `Records` | records.dfy | the framing of a spread update, and object truthiness |
| `Text` | text.dfy | the character classes `\d` and `\s`, string search |
| `FormTypes` | form_types.dfy | src/types/form.ts |
| `AccommodationStep` | accommodation_step.dfy | src/components/AccommodationForm/steps/AccommodationStep.tsx |
| `OwnerStep` | owner_step.dfy | src/components/AccommodationForm/steps/OwnerStep.tsx |
| `FormSteps` | form_steps.dfy | src/config/form-steps.tsx |
| `AccommodationForm` | accommodation_form.dfy | src/components/AccommodationForm/index.tsx |

Modelling choices:

- React state updates are pure functions from the old state to the new one.
- A step's data (its React prop) is a parameter. The step's own state is its
  error map and its touched map.
- The source's `type` property is named `kind`, because `type` is a Dafny
  keyword.
- Optional properties are `Option` values. A `Partial<T>` is a record of
  `Option`s, where a key is present exactly when its entry is `Some`.
- `Record<string, unknown>` is a `map<string, string>`. The form only copies
  and merges its values.
- Each selected photo file is an `ImageFile`: its decoded width and height,
  plus the data URL the file reader would produce.
- The email and phone patterns are stated as what the regular expression
  matches. `EmailShapedIffPattern` proves that the direct check used by
  `validateEmail` accepts exactly those strings.

Two behaviours of the code are modelled as written:

- The Next button's `disabled={!isValid() || !touched}` applies `!` to the
  touched record. That record is an object and so always truthy, which means
  the button is disabled exactly when the step is not valid. Touching no
  field does not keep it disabled (`NextDisabled` in both steps).
- The accommodation `isValid` reads the recorded errors, which only blur and
  photo uploads write. An invalid name that has never been blurred does not
  block Next (`UnblurredInvalidNameIsAccepted`). The owner `isValid`, by
  contrast, re-validates the current data.

Further behaviours of the code that the model keeps:

- A name of the wrong length reports the length message even when it
  contains a digit (`ShortNameWithDigitReportsLength`).
- The Next buttons ignore the touched flags, as explained above.
- The controller implements only `handleNext`, and `FormStep` has no result
  value.
- `updateFormData` on the summary step merges into an optional slice, and
  spreading an absent slice adds no key. The first merge into the absent
  summary slice therefore creates `{}`, even for an empty patch
  (`EmptyPatchIsIdentity`).

## Model

| member | source | states |
|---|---|---|
| `FormTypes.TypeName` | src/types/form.ts:1 | every accommodation type is stored as a non-empty select value, so the "type required" check can never fail on form data |
| `Text.HasDigit` | src/components/AccommodationForm/steps/AccommodationStep.tsx:33 | the left-to-right scan `/\d/.test` is true exactly when some character is an ASCII digit |
| `Text.JoinWithCommas` | src/components/AccommodationForm/steps/AccommodationStep.tsx:60 | `toString` of the photo list: empty for no photos, the single photo for one, and otherwise the first photo followed by a comma |
| `AccommodationStep.ValidateField` | src/components/AccommodationForm/steps/AccommodationStep.tsx:28-49 | the validator returns `''` exactly when the text meets its field's constraint (name 4–128 characters with no digit, address 4–128, description empty or 128–2048, type non-empty, photos unconstrained); any other result is one of that field's messages |
| `AccommodationStep.NameCheckOrder` | src/components/AccommodationForm/steps/AccommodationStep.tsx:30-34 | an empty name is "required"; a wrong-length name gets the length message; the digit message occurs exactly for names of 4–128 characters that contain a digit |
| `AccommodationStep.ShortNameWithDigitReportsLength` | src/components/AccommodationForm/steps/AccommodationStep.tsx:30-34 | "A1" gets the length message, while "Apt 1" gets the digit message |
| `AccommodationStep.AddressCheckOrder` | src/components/AccommodationForm/steps/AccommodationStep.tsx:35-38 | an address is "required", then length-checked to 4–128, with no content rule |
| `AccommodationStep.DescriptionRule` | src/components/AccommodationForm/steps/AccommodationStep.tsx:39-43 | the empty description is valid; a non-empty one is valid exactly when its length is 128–2048; the only error is the length message |
| `AccommodationStep.TypeFieldAlwaysValid` | src/components/AccommodationForm/steps/AccommodationStep.tsx:44-48 | the type read from the data always passes, and the photos field validates to `''` for any text |
| `AccommodationStep.InitialState` | src/components/AccommodationForm/steps/AccommodationStep.tsx:19-26 | the step mounts with no recorded error and all five fields untouched |
| `AccommodationStep.FieldText` | src/components/AccommodationForm/steps/AccommodationStep.tsx:60 | blur validates the name, address and a present description as their own text; an absent description reads as the empty text; the type reads as its non-empty select value; an empty photo list reads as the empty text |
| `AccommodationStep.Blur` | src/components/AccommodationForm/steps/AccommodationStep.tsx:58-63 | blur marks the field touched, records the validator's verdict on the field's current text, and keeps every other entry of both maps |
| `AccommodationStep.BlurIdempotent` | src/components/AccommodationForm/steps/AccommodationStep.tsx:58-63 | blurring the same field again without an edit changes nothing |
| `AccommodationStep.BlursCommute` | src/components/AccommodationForm/steps/AccommodationStep.tsx:58-63 | the order in which two fields are blurred does not affect the resulting state |
| `AccommodationStep.HandlePhotoUpload` | src/components/AccommodationForm/steps/AccommodationStep.tsx:65-116 | an empty selection is a no-op; more than two photos in total gives the count error; any image that is not 500x500 gives the dimension error; in both error cases the photos are unchanged; otherwise the encoded images are appended in selection order and the photo error is cleared, so the list never grows past two |
| `AccommodationStep.KeepAllBut` | src/components/AccommodationForm/steps/AccommodationStep.tsx:120 | the index filter drops exactly the element at the given position and keeps the rest in order |
| `AccommodationStep.RemovePhoto` | src/components/AccommodationForm/steps/AccommodationStep.tsx:118-122 | removing an in-range index deletes exactly that photo and shifts the later ones down; an out-of-range index leaves the list unchanged |
| `AccommodationStep.IsValid` | src/components/AccommodationForm/steps/AccommodationStep.tsx:124-129 | the step is valid exactly when every recorded error is empty and the name and address are non-empty; the type never blocks it |
| `AccommodationStep.NextDisabled` | src/components/AccommodationForm/steps/AccommodationStep.tsx:245-248 | Next is disabled exactly when a recorded error is non-empty or the name or address is empty; the touched flags play no part |
| `AccommodationStep.UnblurredInvalidNameIsAccepted` | src/components/AccommodationForm/steps/AccommodationStep.tsx:124-129 | with no recorded errors, the invalid name "Al" still leaves the step valid and Next enabled |
| `AccommodationStep.BlurredInvalidFieldDisablesNext` | src/components/AccommodationForm/steps/AccommodationStep.tsx:124-129 | once a field whose text breaks its constraint has been blurred, Next is disabled |
| `AccommodationStep.ShortNameScenario` | src/components/AccommodationForm/steps/AccommodationStep.tsx:30-32 | blurring the name "Al" records the length message and disables Next |
| `AccommodationStep.BlurAllThenValid` | src/components/AccommodationForm/steps/AccommodationStep.tsx:124-129 | after blurring every text field of a fresh step, the step is valid exactly when name, address and description meet the listing constraints |
| `AccommodationStep.PhotoErrorBlocksNext` | src/components/AccommodationForm/steps/AccommodationStep.tsx:126 | a recorded photo error keeps Next disabled |
| `OwnerStep.ValidateName` | src/components/AccommodationForm/steps/OwnerStep.tsx:22-26 | the owner name is valid exactly when it has 4–64 characters; an empty name is "required", and any other failure is the length message |
| `OwnerStep.EmailShapedIffPattern` | src/components/AccommodationForm/steps/OwnerStep.tsx:30 | the direct check (no whitespace, exactly one '@' with a non-empty local part, a domain with an inner '.') accepts exactly the strings `^[^\s@]+@[^\s@]+\.[^\s@]+$` matches |
| `OwnerStep.ValidateEmail` | src/components/AccommodationForm/steps/OwnerStep.tsx:28-32 | the email is valid exactly when the pattern matches; empty gives "Email is required", any other failure "Invalid email format" |
| `OwnerStep.NoAtExample` | src/components/AccommodationForm/steps/OwnerStep.tsx:28-32 | "bad-email" gets the format message |
| `OwnerStep.PlainAddressExample` | src/components/AccommodationForm/steps/OwnerStep.tsx:28-32 | "a@b.es" is accepted |
| `OwnerStep.TrailingDotExample` | src/components/AccommodationForm/steps/OwnerStep.tsx:28-32 | "ana@host." is refused, since its only dot ends the domain |
| `OwnerStep.ValidatePhone` | src/components/AccommodationForm/steps/OwnerStep.tsx:34-38 | the phone is valid exactly when it is empty or has at most nine characters, all ASCII digits; every failure gives the one phone message |
| `OwnerStep.PhoneWithLetterScenario` | src/components/AccommodationForm/steps/OwnerStep.tsx:34-38 | "12a45" and a ten-digit number are refused; a nine-digit number is accepted |
| `OwnerStep.InitialState` | src/components/AccommodationForm/steps/OwnerStep.tsx:15-20 | the step mounts with no recorded error and its three fields untouched |
| `OwnerStep.Blur` | src/components/AccommodationForm/steps/OwnerStep.tsx:40-55 | blur marks the field touched and records the matching validator's verdict on the input's text, which is empty exactly when that text is valid for the field; every other entry is kept |
| `OwnerStep.BadEmailScenario` | src/components/AccommodationForm/steps/OwnerStep.tsx:40-55 | blurring the email "bad-email" records "Invalid email format" |
| `OwnerStep.IsValid` | src/components/AccommodationForm/steps/OwnerStep.tsx:57-62 | the owner step is valid exactly when the name has 4–64 characters, the email matches the pattern, and the phone (absent read as empty) is empty or matches its pattern |
| `OwnerStep.NextDisabled` | src/components/AccommodationForm/steps/OwnerStep.tsx:115-118 | Next is disabled exactly when the current name, email or phone (absent read as empty) fails its rule; the touched flags play no part |
| `OwnerStep.NextIgnoresStepState` | src/components/AccommodationForm/steps/OwnerStep.tsx:57-62 | the owner gate re-validates the data and ignores the recorded errors and touched flags |
| `FormSteps.FindStep` | src/config/form-steps.tsx:24-40 | locating a key in the registry returns its first position, or nothing exactly when the key is absent |
| `FormSteps.Successor` | src/config/form-steps.tsx:24-40 | the successor of a key is the key at the next registry position; a key without a successor sits at the last position |
| `FormSteps.RegistryListsEveryStepOnce` | src/config/form-steps.tsx:24-40 | the registry lists accommodation, owner and summary at positions 0, 1 and 2, each once, covering every step |
| `FormSteps.SuccessorFollowsRegistryOrder` | src/config/form-steps.tsx:24-40 | the registry successor of accommodation is owner and of owner is summary; summary alone has none |
| `FormSteps.RegistryTitles` | src/config/form-steps.tsx:28-38 | the titles are "Accommodation Details", "Owner Details" and "Summary" |
| `FormSteps.StepDataType` | src/config/form-steps.tsx:5-9 | accommodation maps to accommodation data, owner to owner data, and every other step to a generic record |
| `AccommodationForm.SliceOf` | src/config/form-steps.tsx:5-9 | the slice a step edits has the type `StepDataType` gives the step: accommodation data, owner data, or a generic record |
| `AccommodationForm.InitialState` | src/components/AccommodationForm/index.tsx:6-20 | the form starts at the first registry step, with an empty listing of type apartment and no photos, an empty owner, and no summary slice |
| `AccommodationForm.InitialDataBlocksNext` | src/components/AccommodationForm/index.tsx:6-20 | neither step accepts the initial data |
| `AccommodationForm.HandleNext` | src/components/AccommodationForm/index.tsx:22-28 | the next step is the registry successor of the current one; summary, which has no successor, is a fixed point; the form data never changes |
| `AccommodationForm.NextTimesWalksRegistry` | src/components/AccommodationForm/index.tsx:22-28 | n presses of Next move n registry positions forward, stopping at the last, and leave the data unchanged |
| `AccommodationForm.MergeAccommodation` | src/components/AccommodationForm/index.tsx:33-36 | each key present in the patch takes the patch's value; every other key keeps its old value |
| `AccommodationForm.MergeOwner` | src/components/AccommodationForm/index.tsx:33-36 | the same key-by-key override for the owner slice |
| `AccommodationForm.MergeRecord` | src/components/AccommodationForm/index.tsx:33-36 | the merged record has the keys of both, with the patch's values winning; an absent record contributes no key |
| `AccommodationForm.UpdateFormData` | src/components/AccommodationForm/index.tsx:30-38 | only the addressed step's slice changes, merged with the patch; the other slices and the current step are unchanged |
| `AccommodationForm.EmptyPatchIsIdentity` | src/components/AccommodationForm/index.tsx:30-38 | merging an empty patch leaves the slice as it reads, and the whole state unchanged unless the summary slice was absent |
| `AccommodationForm.UpdateIdempotent` | src/components/AccommodationForm/index.tsx:30-38 | merging the same patch twice equals merging it once |
| `AccommodationForm.AccommodationMergesCompose` | src/components/AccommodationForm/index.tsx:30-38 | two successive merges equal one merge of the combined patch, where the later patch wins key by key |
| `AccommodationForm.RemovePhotoThroughController` | src/components/AccommodationForm/steps/AccommodationStep.tsx:118-122 | removing a photo through the controller's merge keeps the count within two, shortens the list exactly when the index is in range, and leaves the owner slice alone |

## Left out

- Image decoding, object URLs, the file reader's base64 encoding and the `await` sequencing inside the photo upload handler are browser I/O. Each selected file is given as its dimensions and its encoded string. A missing file list is treated as an empty selection.
- AccommodationStep.HandlePhotoUpload: assumes every selected file decodes and reads. The handler installs only `img.onload`, so a file that fails to decode leaves its promise unresolved. The handler then stalls: no error is recorded, the photos stay unchanged and later files are never checked. A failed read still fires `onloadend`, which appends `reader.result` (null) as a photo. The model has neither outcome, because every `ImageFile` carries dimensions and an encoded string.
- The controller renders only the accommodation step, so its Next leads to a step that shows nothing. The owner step, its gate and updates to the owner and summary slices cannot be reached through this controller. The owner step is modelled as a component on its own, and `UpdateFormData` covers every step the merge's signature admits.
- React hooks, re-rendering and closure timing are not modelled. This includes the type select reading the data from before its own update when it blurs.
- `handleInputChange` is not modelled. It is event plumbing that forwards `{[name]: value}` to the merge.
- Back, submit, reset, the random submission outcome and a result step are not implemented by the controller shown, so they are not modelled.
- The summary and result steps, the embedding shell and its event re-dispatch, style injection, the app entry points and the build configuration are left out. They are rendering, DOM plumbing and configuration with no decision logic.
- JavaScript string length counts UTF-16 code units. Here strings are sequences of characters.
- AccommodationForm.UpdateFormData: requires the patch to have the shape that `StepDataType` gives the step. The source's TypeScript union type would also let a caller spread foreign keys into a slice, and fixed records cannot express that.
