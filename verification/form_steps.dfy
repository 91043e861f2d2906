/** The step registry (src/config/form-steps.tsx): the ordered list of step
    keys with their titles, and the mapping from a step to the type of its
    data slice (`StepDataType`), which also fixes the shape of the partial
    update a step may send. The step components themselves are rendering
    and are not modelled. */
module FormSteps {
  import opened Wrappers
  import opened FormTypes

  /** `StepConfig` without its component: the step key and its title. */
  datatype StepConfig = StepConfig(key: FormStep, title: string)

  /** `FORM_STEPS`, in traversal order. */
  const Registry: seq<StepConfig> := [
    StepConfig(Accommodation, "Accommodation Details"),
    StepConfig(Owner, "Owner Details"),
    StepConfig(Summary, "Summary")
  ]

  /** The position of the first entry of `steps` whose key is `key`, if any
      (a left-to-right search). */
  function FindStep(steps: seq<StepConfig>, key: FormStep): (r: Option<nat>)
    ensures r.Some? ==> r.value < |steps| && steps[r.value].key == key
    ensures r.Some? ==> forall k :: 0 <= k < r.value ==> steps[k].key != key
    ensures r.None? <==> forall k :: 0 <= k < |steps| ==> steps[k].key != key
  {
    if steps == [] then None
    else if steps[0].key == key then Some(0)
    else match FindStep(steps[1..], key)
      case None => None
      case Some(i) => Some(i + 1)
  }

  /** The key after `key` in the registry (its index plus one), or `None`
      for the last entry. */
  function Successor(key: FormStep): (r: Option<FormStep>)
    ensures r.Some? ==> exists i :: 0 <= i && i + 1 < |Registry| && Registry[i].key == key && Registry[i + 1].key == r.value
    ensures r.None? ==> forall i :: 0 <= i < |Registry| && Registry[i].key == key ==> i == |Registry| - 1
  {
    match FindStep(Registry, key)
    case None => None
    case Some(i) => if i + 1 < |Registry| then Some(Registry[i + 1].key) else None
  }

  /** The title the registry gives a step. */
  function Title(key: FormStep): Option<string> {
    match FindStep(Registry, key)
    case None => None
    case Some(i) => Some(Registry[i].title)
  }

  /** The registry lists every step key exactly once, in the order
      accommodation, owner, summary. */
  lemma RegistryListsEveryStepOnce()
    ensures forall i, j :: 0 <= i < j < |Registry| ==> Registry[i].key != Registry[j].key
    ensures forall key :: FindStep(Registry, key).Some?
    ensures FindStep(Registry, Accommodation) == Some(0)
    ensures FindStep(Registry, Owner) == Some(1)
    ensures FindStep(Registry, Summary) == Some(2)
  {
  }

  /** Accommodation is followed by owner, owner by summary, and summary, the
      last entry, has no successor. */
  lemma SuccessorFollowsRegistryOrder()
    ensures Successor(Accommodation) == Some(Owner)
    ensures Successor(Owner) == Some(Summary)
    ensures Successor(Summary) == None
    ensures forall key :: Successor(key).None? <==> key == Summary
  {
  }

  /** The registry's titles. */
  lemma RegistryTitles()
    ensures Title(Accommodation) == Some("Accommodation Details")
    ensures Title(Owner) == Some("Owner Details")
    ensures Title(Summary) == Some("Summary")
  {
  }

  /** The data types a step slice can have. */
  datatype DataType = AccommodationDataType | OwnerDataType | GenericRecordType

  /** `StepDataType<T>`: accommodation data for the accommodation step, owner
      data for the owner step, a generic record for any other step. */
  function StepDataType(step: FormStep): (r: DataType)
    ensures r == AccommodationDataType <==> step == Accommodation
    ensures r == OwnerDataType <==> step == Owner
    ensures r == GenericRecordType <==> step != Accommodation && step != Owner
  {
    if step == Accommodation then AccommodationDataType
    else if step == Owner then OwnerDataType
    else GenericRecordType
  }

  /** `Partial<StepDataType<T>>`: the partial update a step sends. */
  datatype StepPatch =
    | AccommodationUpdate(accommodation: AccommodationPatch)
    | OwnerUpdate(owner: OwnerPatch)
    | RecordUpdate(record: GenericRecord)

  /** The data type a partial update is a part of. */
  function PatchType(p: StepPatch): DataType {
    match p
    case AccommodationUpdate(_) => AccommodationDataType
    case OwnerUpdate(_) => OwnerDataType
    case RecordUpdate(_) => GenericRecordType
  }

  /** A step's data slice, tagged with its type. */
  datatype StepSlice =
    | AccommodationSlice(accommodation: AccommodationData)
    | OwnerSlice(owner: OwnerData)
    | RecordSlice(record: GenericRecord)

  /** The data type of a slice. */
  function SliceType(s: StepSlice): DataType {
    match s
    case AccommodationSlice(_) => AccommodationDataType
    case OwnerSlice(_) => OwnerDataType
    case RecordSlice(_) => GenericRecordType
  }
}
