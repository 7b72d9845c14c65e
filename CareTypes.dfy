/** Entities of the daily pet-care store: pets, care tasks and their enumerations. */
module CareTypes {

  /** An optional value; `None` stands for a property that is `undefined` in the stored JSON. */
  datatype Option<+T> = None | Some(value: T)

  /** The outcome of a store mutation that can be rejected with an error message. */
  datatype Result<+T> = Ok(value: T) | Err(message: string)

  /** One weight observation of a pet. */
  datatype WeightEntry = WeightEntry(date: string, weight: real)

  /** A registered pet; only `id` and `name` are read by the core, the other fields are carried along. */
  datatype Pet = Pet(
    id: string,
    name: string,
    photoUri: Option<string>,
    species: Option<string>,
    breed: Option<string>,
    birthDate: Option<string>,
    color: Option<string>,
    weightHistory: Option<seq<WeightEntry>>)

  /** The four fixed daily periods a care task recurs in. */
  datatype TimeSlot = Morning | Noon | Evening | Bedtime

  /** The kind of care a task stands for. */
  datatype TaskType = Medication | Feeding | Grooming | Exercise | Other

  /** A daily care task; `completedAt` is an ISO timestamp and `createdDate` a YYYY-MM-DD day. */
  datatype CareTask = CareTask(
    id: string,
    petId: string,
    taskName: string,
    taskType: TaskType,
    timeSlot: TimeSlot,
    details: Option<string>,
    isCompleted: bool,
    completedAt: Option<string>,
    createdDate: string)

  /** JavaScript truthiness of an optional string: present and not the empty string. */
  predicate Truthy(o: Option<string>): (b: bool)
    ensures b <==> o != None && o != Some("")
  {
    o.Some? && o.value != ""
  }
}
