/** The form controller (src/components/AccommodationForm/index.tsx): the
    initial form data and step, the forward transition `handleNext`, and the
    shallow merge `updateFormData` of a partial update into one step's slice.
    State updates are pure functions from the old state to the new one. */
module AccommodationForm {
  import opened Wrappers
  import opened FormTypes
  import opened FormSteps
  import AccommodationStep
  import OwnerStep

  /** The controller's state: the current step and the aggregate form data. */
  datatype FormState = FormState(currentStep: FormStep, formData: FormData)

  /** The state the form mounts with: the first registry step, an empty
      listing of type apartment with no photos, an empty owner, and no
      summary slice. */
  function InitialState(): (s: FormState)
    ensures FindStep(Registry, s.currentStep) == Some(0)
    ensures var a := s.formData.accommodation;
            a.name == "" && a.address == "" && a.description == Some("") && a.kind == Apartment && a.photos == []
    ensures var o := s.formData.owner;
            o.name == "" && o.email == "" && o.phone == Some("")
    ensures s.formData.summary.None?
  {
    FormState(Accommodation,
      FormData(AccommodationData("", "", Some(""), Apartment, []),
               OwnerData("", "", Some("")),
               None))
  }

  /** Neither step accepts the initial data: Next starts disabled on both. */
  lemma InitialDataBlocksNext()
    ensures AccommodationStep.NextDisabled(InitialState().formData.accommodation, AccommodationStep.InitialState())
    ensures OwnerStep.NextDisabled(InitialState().formData.owner, OwnerStep.InitialState())
  {
  }

  /** `handleNext`: accommodation moves to owner, owner to summary, and any
      other step stays put. It agrees with the registry: the new step is the
      registry successor of the current one, and a step without a successor
      is a fixed point. The form data is never touched. */
  function HandleNext(s: FormState): (r: FormState)
    ensures r.formData == s.formData
    ensures Successor(s.currentStep).Some? ==> r.currentStep == Successor(s.currentStep).value
    ensures Successor(s.currentStep).None? ==> r == s
  {
    if s.currentStep == Accommodation then s.(currentStep := Owner)
    else if s.currentStep == Owner then s.(currentStep := Summary)
    else s
  }

  /** `n` presses of Next. */
  function NextTimes(s: FormState, n: nat): FormState {
    if n == 0 then s else HandleNext(NextTimes(s, n - 1))
  }

  /** From any registry position, `n` presses of Next reach the position `n`
      further on, stopping at the last entry, and leave the data alone. */
  lemma {:induction false} NextTimesWalksRegistry(s: FormState, n: nat, i: nat)
    requires i < |Registry| && Registry[i].key == s.currentStep
    ensures var j := if i + n < |Registry| then i + n else |Registry| - 1;
            NextTimes(s, n).currentStep == Registry[j].key
    ensures NextTimes(s, n).formData == s.formData
  {
    RegistryListsEveryStepOnce();
    SuccessorFollowsRegistryOrder();
    if n > 0 {
      NextTimesWalksRegistry(s, n - 1, i);
    }
  }

  // ---------------------------------------------------------------------
  // updateFormData
  // ---------------------------------------------------------------------

  /** `{ ...prev.accommodation, ...patch }`: every key present in the patch
      takes the patch's value, every other key keeps its old value. */
  function MergeAccommodation(a: AccommodationData, p: AccommodationPatch): (r: AccommodationData)
    ensures r.name == p.name.GetOr(a.name)
    ensures r.address == p.address.GetOr(a.address)
    ensures r.description == (if p.description.Some? then p.description else a.description)
    ensures r.kind == p.kind.GetOr(a.kind)
    ensures r.photos == p.photos.GetOr(a.photos)
  {
    AccommodationData(
      if p.name.Some? then p.name.value else a.name,
      if p.address.Some? then p.address.value else a.address,
      if p.description.Some? then p.description else a.description,
      if p.kind.Some? then p.kind.value else a.kind,
      if p.photos.Some? then p.photos.value else a.photos)
  }

  /** `{ ...prev.owner, ...patch }`. */
  function MergeOwner(o: OwnerData, p: OwnerPatch): (r: OwnerData)
    ensures r.name == p.name.GetOr(o.name)
    ensures r.email == p.email.GetOr(o.email)
    ensures r.phone == (if p.phone.Some? then p.phone else o.phone)
  {
    OwnerData(
      if p.name.Some? then p.name.value else o.name,
      if p.email.Some? then p.email.value else o.email,
      if p.phone.Some? then p.phone else o.phone)
  }

  /** `{ ...prev.summary, ...patch }` on a generic record; spreading an
      absent record contributes no key. */
  function MergeRecord(m: Option<GenericRecord>, p: GenericRecord): (r: GenericRecord)
    ensures r.Keys == m.GetOr(map[]).Keys + p.Keys
    ensures forall k :: k in p ==> r[k] == p[k]
    ensures forall k :: k in m.GetOr(map[]) && k !in p ==> r[k] == m.GetOr(map[])[k]
  {
    m.GetOr(map[]) + p
  }

  /** `formData[step]`: the slice a step edits, with an absent summary read
      as the empty record. */
  function SliceOf(fd: FormData, step: FormStep): (r: StepSlice)
    ensures SliceType(r) == StepDataType(step)
  {
    match step
    case Accommodation => AccommodationSlice(fd.accommodation)
    case Owner => OwnerSlice(fd.owner)
    case Summary => RecordSlice(fd.summary.GetOr(map[]))
  }

  /** `updateFormData(step, patch)`: shallow-merges the patch into the slice
      of `step`. The patch has the shape the registry's `StepDataType` gives
      that step. Only that slice changes; the current step does not. */
  function UpdateFormData(s: FormState, step: FormStep, patch: StepPatch): (r: FormState)
    requires PatchType(patch) == StepDataType(step)
    ensures r.currentStep == s.currentStep
    ensures step != Accommodation ==> r.formData.accommodation == s.formData.accommodation
    ensures step != Owner ==> r.formData.owner == s.formData.owner
    ensures step != Summary ==> r.formData.summary == s.formData.summary
    ensures step == Accommodation ==>
              r.formData.accommodation == MergeAccommodation(s.formData.accommodation, patch.accommodation)
    ensures step == Owner ==> r.formData.owner == MergeOwner(s.formData.owner, patch.owner)
    ensures step == Summary ==> r.formData.summary == Some(MergeRecord(s.formData.summary, patch.record))
  {
    var fd := s.formData;
    var fd' :=
      match step
      case Accommodation => fd.(accommodation := MergeAccommodation(fd.accommodation, patch.accommodation))
      case Owner => fd.(owner := MergeOwner(fd.owner, patch.owner))
      case Summary => fd.(summary := Some(MergeRecord(fd.summary, patch.record)));
    s.(formData := fd')
  }

  /** The patch with no key for a step's data type. */
  function EmptyPatch(step: FormStep): (p: StepPatch)
    ensures PatchType(p) == StepDataType(step)
  {
    match step
    case Accommodation => AccommodationUpdate(EmptyAccommodationPatch)
    case Owner => OwnerUpdate(EmptyOwnerPatch)
    case Summary => RecordUpdate(map[])
  }

  /** Merging an empty patch leaves the step's slice as it reads: the state
      is unchanged, except that an absent summary slice becomes the empty
      record. */
  lemma EmptyPatchIsIdentity(s: FormState, step: FormStep)
    ensures SliceOf(UpdateFormData(s, step, EmptyPatch(step)).formData, step) == SliceOf(s.formData, step)
    ensures step != Summary || s.formData.summary.Some? ==> UpdateFormData(s, step, EmptyPatch(step)) == s
  {
  }

  /** Merging the same patch twice is the same as merging it once. */
  lemma UpdateIdempotent(s: FormState, step: FormStep, patch: StepPatch)
    requires PatchType(patch) == StepDataType(step)
    ensures UpdateFormData(UpdateFormData(s, step, patch), step, patch) == UpdateFormData(s, step, patch)
  {
    var once := UpdateFormData(s, step, patch);
    var twice := UpdateFormData(once, step, patch);
    if step == Summary {
      assert twice.formData.summary.value == once.formData.summary.value;
    }
  }

  /** A later patch overrides an earlier one key by key: two merges into the
      accommodation slice equal one merge of the combined patch. */
  lemma AccommodationMergesCompose(a: AccommodationData, p: AccommodationPatch, q: AccommodationPatch)
    ensures MergeAccommodation(MergeAccommodation(a, p), q) ==
            MergeAccommodation(a, AccommodationPatch(
              if q.name.Some? then q.name else p.name,
              if q.address.Some? then q.address else p.address,
              if q.description.Some? then q.description else p.description,
              if q.kind.Some? then q.kind else p.kind,
              if q.photos.Some? then q.photos else p.photos))
  {
  }

  /** Removing a photo through the controller keeps the photo count within
      the limit of two and shortens the list by one exactly when the index is
      in range. */
  lemma RemovePhotoThroughController(s: FormState, index: int)
    requires |s.formData.accommodation.photos| <= AccommodationStep.MaxPhotoCount
    ensures var photos := s.formData.accommodation.photos;
            var patch := AccommodationUpdate(EmptyAccommodationPatch.(photos := Some(AccommodationStep.RemovePhoto(photos, index))));
            var r := UpdateFormData(s, Accommodation, patch);
            && |r.formData.accommodation.photos| <= AccommodationStep.MaxPhotoCount
            && (|r.formData.accommodation.photos| == |photos| - 1 <==> 0 <= index < |photos|)
            && r.formData.owner == s.formData.owner
  {
  }
}
