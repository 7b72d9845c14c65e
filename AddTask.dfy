/**
 * The add-task form: its enumerations of presets and time slots, the checks
 * run when the form is saved, and the task that is then handed to the store.
 */
module AddTask {
  import opened CareTypes
  import opened JsString
  import opened CareDaily

  /** A quick-pick preset: choosing it fills in the task type and the task name. */
  datatype Preset = Preset(taskType: TaskType, name: string, emoji: string)

  /**
   * The presets with their emoji strings as the source file holds them: each
   * emoji's UTF-8 bytes read back as Mac Roman, so the first one is
   * U+F8FF U+00FC U+00ED U+00E4 rather than the pill U+1F48A.
   */
  const TaskPresets: seq<Preset> := [
    Preset(Medication, "Give medication", "\U{F8FF}\U{00FC}\U{00ED}\U{00E4}"),
    Preset(Feeding, "Feed", "\U{F8FF}\U{00FC}\U{00E7}\U{00F1}"),
    Preset(Grooming, "Brush/Groom", "\U{201A}\U{00FA}\U{00C7}\U{00D4}\U{220F}\U{00E8}"),
    Preset(Exercise, "Walk", "\U{F8FF}\U{00FC}\U{00E8}\U{00C9}"),
    Preset(Other, "Other", "\U{201A}\U{2260}\U{00EA}")
  ]

  /** The slots the form offers, in the order it lists them. */
  const TimeSlots: seq<TimeSlot> := [Morning, Noon, Evening, Bedtime]

  /** The form lists every slot once, in the same order the today view sorts them. */
  lemma TimeSlotsListed()
    ensures |TimeSlots| == 4
    ensures forall s: TimeSlot :: s in TimeSlots
    ensures forall i :: 0 <= i < |TimeSlots| ==> SlotOrder(TimeSlots[i]) == i
  {
    forall s: TimeSlot ensures s in TimeSlots {
      assert TimeSlots[SlotOrder(s)] == s;
    }
  }

  /** The task types of the presets, in order. */
  function PresetTypes(): seq<TaskType>
  {
    seq(|TaskPresets|, i requires 0 <= i < |TaskPresets| => TaskPresets[i].taskType)
  }

  /** There is exactly one preset per task type. */
  lemma PresetsCoverTaskTypes()
    ensures forall i, j :: 0 <= i < j < |PresetTypes()| ==> PresetTypes()[i] != PresetTypes()[j]
    ensures forall ty: TaskType :: ty in PresetTypes()
  {
    var types := PresetTypes();
    assert types == [Medication, Feeding, Grooming, Exercise, Other];
    forall ty: TaskType ensures ty in types {
      match ty
      case Medication => assert types[0] == ty;
      case Feeding => assert types[1] == ty;
      case Grooming => assert types[2] == ty;
      case Exercise => assert types[3] == ty;
      case Other => assert types[4] == ty;
    }
  }

  /** A preset's name passes the name check of the form. */
  lemma PresetNamesNotBlank()
    ensures forall i :: 0 <= i < |TaskPresets| ==> !AllWhitespace(TaskPresets[i].name)
  {
    forall i | 0 <= i < |TaskPresets| ensures !AllWhitespace(TaskPresets[i].name) {
      assert !IsWhitespace(TaskPresets[i].name[0]);
    }
  }

  const MissingInformation := "Missing Information"
  const EnterTaskName := "Please enter a task name."
  const SelectPet := "Please select a pet."

  /** What saving the form does: show an alert, or save the new task. */
  datatype SaveOutcome = Alert(title: string, message: string) | Save(task: CareTask)

  /**
   * The task handleSave builds from the form's fields, the new id (the clock
   * reading in milliseconds, as text) and the current ISO time `now`: it
   * starts open and created on the day of `now`.
   */
  function NewTask(taskName: string, selectedPetId: string, taskType: TaskType, timeSlot: TimeSlot,
                   details: string, id: string, now: string): (t: CareTask)
    ensures t.id == id && t.petId == selectedPetId && t.taskName == Trim(taskName)
    ensures t.taskType == taskType && t.timeSlot == timeSlot && t.timeSlot in TimeSlots
    ensures t.details == if AllWhitespace(details) then None else Some(Trim(details))
    ensures !t.isCompleted && t.completedAt.None?
    ensures t.createdDate == DatePart(now) && StartsWith(now, t.createdDate)
  {
    TimeSlotsListed();
    var d := Trim(details);
    CareTask(
      id := id,
      petId := selectedPetId,
      taskName := Trim(taskName),
      taskType := taskType,
      timeSlot := timeSlot,
      details := if d != "" then Some(d) else None,
      isCompleted := false,
      completedAt := None,
      createdDate := DatePart(now))
  }

  /**
   * handleSave: a blank name is refused first, then a missing pet; otherwise
   * the new task is built, with a name that is not blank.
   */
  function HandleSave(taskName: string, selectedPetId: string, taskType: TaskType, timeSlot: TimeSlot,
                      details: string, id: string, now: string): (r: SaveOutcome)
    ensures r == Alert(MissingInformation, EnterTaskName) <==> AllWhitespace(taskName)
    ensures r == Alert(MissingInformation, SelectPet) <==> !AllWhitespace(taskName) && selectedPetId == ""
    ensures r.Save? <==> !AllWhitespace(taskName) && selectedPetId != ""
    ensures r.Save? ==>
              r.task == NewTask(taskName, selectedPetId, taskType, timeSlot, details, id, now) && r.task.taskName != ""
  {
    if Trim(taskName) == "" then Alert(MissingInformation, EnterTaskName)
    else if selectedPetId == "" then Alert(MissingInformation, SelectPet)
    else Save(NewTask(taskName, selectedPetId, taskType, timeSlot, details, id, now))
  }

  /** A task saved at `now` shows in the today view of that day, as an open task of its pet. */
  lemma NewTaskShownToday(pets: seq<Pet>, tasks: seq<CareTask>, taskName: string, selectedPetId: string,
                          taskType: TaskType, timeSlot: TimeSlot, details: string, id: string, now: string)
    requires HandleSave(taskName, selectedPetId, taskType, timeSlot, details, id, now).Save?
    ensures var t := HandleSave(taskName, selectedPetId, taskType, timeSlot, details, id, now).task;
            && WithPet(t, pets) in TodayTasks(pets, tasks + [t], DatePart(now))
            && t in PetTasks(tasks + [t], selectedPetId)
  {
    var t := HandleSave(taskName, selectedPetId, taskType, timeSlot, details, id, now).task;
    assert (tasks + [t])[|tasks|] == t;
    TodayTasksContents(pets, tasks + [t], DatePart(now), WithPet(t, pets));
    assert t in multiset(tasks + [t]);
    assert t in multiset(PetTasks(tasks + [t], selectedPetId));
  }

  /** handleSave followed by addTask: on success the built task is appended to the store, otherwise nothing changes. */
  method SaveNewTask(store: CareDailyStore, taskName: string, selectedPetId: string, taskType: TaskType,
                     timeSlot: TimeSlot, details: string, id: string, now: string) returns (r: SaveOutcome)
    modifies store
    ensures r == HandleSave(taskName, selectedPetId, taskType, timeSlot, details, id, now)
    ensures store.tasks == (if r.Save? then old(store.tasks) + [r.task] else old(store.tasks))
    ensures store.pets == old(store.pets)
  {
    r := HandleSave(taskName, selectedPetId, taskType, timeSlot, details, id, now);
    if r.Save? {
      store.AddTask(r.task);
    }
  }
}
