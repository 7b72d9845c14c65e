/**
 * The daily pet-care store: the collection transforms each mutation applies,
 * the two read views built on the collections, and the store object whose
 * mutations write the transformed collections back.
 */
module CareDaily {
  import opened CareTypes
  import opened JsString
  import opened Seqs

  function PetId(p: Pet): string { p.id }
  function TaskId(t: CareTask): string { t.id }
  function TaskPetId(t: CareTask): string { t.petId }

  const TaskNotFound := "Task not found"
  const UnknownPet := "Unknown Pet"

  /** Every task belongs to a pet that is in the store. */
  predicate TasksReferencePets(pets: seq<Pet>, tasks: seq<CareTask>)
  {
    forall i :: 0 <= i < |tasks| ==> tasks[i].petId in Ids(pets, PetId)
  }

  // ---------------------------------------------------------------------------
  // markTaskComplete and resetTodayTasks

  /** The copy of `t` that markTaskComplete writes: completed at `now`, every other field kept. */
  function Completed(t: CareTask, now: string): (r: CareTask)
    ensures r.isCompleted && r.completedAt == Some(now)
    ensures r.(isCompleted := t.isCompleted, completedAt := t.completedAt) == t
    ensures Truthy(r.completedAt) <==> now != ""
  {
    t.(isCompleted := true, completedAt := Some(now))
  }

  /**
   * The task list markTaskComplete writes back, or its error when no task has
   * the id. Every task with the id becomes the completed copy of the FIRST
   * such task; the other tasks stay where they are.
   */
  function CompleteTask(tasks: seq<CareTask>, taskId: string, now: string): (r: Result<seq<CareTask>>)
    ensures r.Err? <==> forall i :: 0 <= i < |tasks| ==> tasks[i].id != taskId
    ensures r.Err? ==> r.message == TaskNotFound
    ensures r.Ok? ==> |r.value| == |tasks|
    ensures r.Ok? ==>
              var first := tasks[FirstIndex(tasks, TaskId, taskId)];
              forall i :: 0 <= i < |tasks| ==>
                r.value[i] == if tasks[i].id == taskId then Completed(first, now) else tasks[i]
  {
    match FindById(tasks, TaskId, taskId)
    case None => Err(TaskNotFound)
    case Some(task) => Ok(ReplaceById(tasks, TaskId, taskId, Completed(task, now)))
  }

  /** The task was completed on the day `today`: its `completedAt` is truthy and starts with that day. */
  predicate CompletedOn(t: CareTask, today: string): (b: bool)
    ensures b ==> t.completedAt.Some? && |today| <= |t.completedAt.value|
    ensures today == "" ==> (b <==> Truthy(t.completedAt))
    ensures t.completedAt.Some? && t.completedAt.value == today + "T" ==> b
  {
    Truthy(t.completedAt) && StartsWith(t.completedAt.value, today)
  }

  /** The copy of `t` that resetTodayTasks writes: not completed, no completion time. */
  function Reopened(t: CareTask): (r: CareTask)
    ensures !r.isCompleted && !Truthy(r.completedAt) && r.completedAt.None?
    ensures r.(isCompleted := t.isCompleted, completedAt := t.completedAt) == t
    ensures forall today :: !CompletedOn(r, today)
  {
    t.(isCompleted := false, completedAt := None)
  }

  /** resetTodayTasks: the tasks completed on `today` are reopened, all others are kept as they are. */
  function ResetTasks(tasks: seq<CareTask>, today: string): (r: seq<CareTask>)
    ensures |r| == |tasks|
    ensures forall i :: 0 <= i < |tasks| ==>
              r[i] == if CompletedOn(tasks[i], today) then Reopened(tasks[i]) else tasks[i]
    ensures forall i :: 0 <= i < |r| ==> !CompletedOn(r[i], today)
  {
    if tasks == [] then []
    else
      [if CompletedOn(tasks[0], today) then Reopened(tasks[0]) else tasks[0]] + ResetTasks(tasks[1..], today)
  }

  /** Resetting twice on the same day is the same as resetting once. */
  lemma {:induction false} ResetIdempotent(tasks: seq<CareTask>, today: string)
    ensures ResetTasks(ResetTasks(tasks, today), today) == ResetTasks(tasks, today)
  {
    var once := ResetTasks(tasks, today);
    var twice := ResetTasks(once, today);
    forall i | 0 <= i < |once| ensures twice[i] == once[i] {
      assert !CompletedOn(once[i], today);
    }
  }

  /** A completion made at `now` is undone by a reset on the day `now` falls on. */
  lemma CompletionUndoneByReset(tasks: seq<CareTask>, taskId: string, now: string, i: nat)
    requires now != "" && i < |tasks| && tasks[i].id == taskId
    ensures CompleteTask(tasks, taskId, now).Ok?
    ensures var done := CompleteTask(tasks, taskId, now).value;
            var reset := ResetTasks(done, DatePart(now));
            && done[i].isCompleted && done[i].completedAt == Some(now)
            && !reset[i].isCompleted && reset[i].completedAt.None?
  {
    var done := CompleteTask(tasks, taskId, now).value;
    assert CompletedOn(done[i], DatePart(now));
  }

  // ---------------------------------------------------------------------------
  // useTodayTasks

  /** The filter of useTodayTasks: created today, or not completed on `today`. */
  predicate ShownToday(t: CareTask, today: string): (b: bool)
    ensures b <==> !(t.createdDate != today && CompletedOn(t, today))
  {
    t.createdDate == today || !Truthy(t.completedAt) || !StartsWith(t.completedAt.value, today)
  }

  /** The tasks useTodayTasks keeps: a task is dropped exactly when it was created on another day and completed today. */
  function ShownTasks(tasks: seq<CareTask>, today: string): (r: seq<CareTask>)
    ensures forall i :: 0 <= i < |r| ==> r[i].createdDate == today || !CompletedOn(r[i], today)
    ensures forall t {:trigger multiset(r)[t]} ::
              multiset(r)[t] == if t.createdDate != today && CompletedOn(t, today) then 0 else multiset(tasks)[t]
  {
    Filter(tasks, t => ShownToday(t, today))
  }

  /** After a reset, the today view drops nothing. */
  lemma ResetShowsAll(tasks: seq<CareTask>, today: string)
    ensures ShownTasks(ResetTasks(tasks, today), today) == ResetTasks(tasks, today)
  {
    var reset := ResetTasks(tasks, today);
    assert forall i :: 0 <= i < |reset| ==> ShownToday(reset[i], today);
  }

  /** A task of the today view, with the name and photo of its pet joined in. */
  datatype TodayTask = TodayTask(task: CareTask, petName: string, petPhoto: Option<string>)

  /** The join of useTodayTasks: the first pet with the task's petId gives its name, or 'Unknown Pet' when it has none. */
  function WithPet(t: CareTask, pets: seq<Pet>): (r: TodayTask)
    ensures r.task == t
    ensures var k := FirstIndex(pets, PetId, t.petId);
            && r.petName == (if k < |pets| && pets[k].name != "" then pets[k].name else UnknownPet)
            && r.petPhoto == (if k < |pets| then pets[k].photoUri else None)
  {
    match FindById(pets, PetId, t.petId)
    case None => TodayTask(t, UnknownPet, None)
    case Some(p) => TodayTask(t, if p.name != "" then p.name else UnknownPet, p.photoUri)
  }

  /** The join applied to every task, in order. */
  function JoinPets(tasks: seq<CareTask>, pets: seq<Pet>): (r: seq<TodayTask>)
    ensures |r| == |tasks|
    ensures forall i :: 0 <= i < |tasks| ==> r[i] == WithPet(tasks[i], pets)
  {
    if tasks == [] then [] else [WithPet(tasks[0], pets)] + JoinPets(tasks[1..], pets)
  }

  /** An element of the join is the join of one of the tasks. */
  lemma {:induction false} JoinPetsMember(tasks: seq<CareTask>, pets: seq<Pet>, y: TodayTask)
    ensures y in JoinPets(tasks, pets) <==> y.task in tasks && y == WithPet(y.task, pets)
  {
    var r := JoinPets(tasks, pets);
    if y in r {
      var i :| 0 <= i < |r| && r[i] == y;
      assert tasks[i] == y.task;
    }
    if y.task in tasks && y == WithPet(y.task, pets) {
      var i :| 0 <= i < |tasks| && tasks[i] == y.task;
      assert r[i] == y;
    }
  }

  /** The position of a slot in the view's time-slot order. */
  function SlotOrder(s: TimeSlot): (n: nat)
    ensures n < 4
  {
    match s
    case Morning => 0
    case Noon => 1
    case Evening => 2
    case Bedtime => 3
  }

  /** Incomplete tasks rank 0-3 and completed ones 4-7, by slot within each. */
  function Rank(t: TodayTask): nat
  {
    (if t.task.isCompleted then 4 else 0) + SlotOrder(t.task.timeSlot)
  }

  /** The comparator of useTodayTasks: incomplete before completed, then by time slot. It orders exactly as `Rank` does. */
  function Compare(a: TodayTask, b: TodayTask): (c: int)
    ensures c < 0 <==> Rank(a) < Rank(b)
    ensures c == 0 <==> Rank(a) == Rank(b)
  {
    if a.task.isCompleted != b.task.isCompleted then (if a.task.isCompleted then 1 else -1)
    else SlotOrder(a.task.timeSlot) - SlotOrder(b.task.timeSlot)
  }

  predicate SortedByRank(s: seq<TodayTask>)
  {
    forall i, j :: 0 <= i < j < |s| ==> Rank(s[i]) <= Rank(s[j])
  }

  /** The first element of a sorted sequence ranks no higher than any of its elements. */
  lemma HeadIsLeast(s: seq<TodayTask>, y: TodayTask)
    requires SortedByRank(s) && y in s
    ensures Rank(s[0]) <= Rank(y)
  {
    var j :| 0 <= j < |s| && s[j] == y;
    if j > 0 {
      assert Rank(s[0]) <= Rank(s[j]);
    }
  }

  /** Putting an element no higher than all of a sorted sequence in front of it keeps it sorted. */
  lemma ConsSorted(y: TodayTask, t: seq<TodayTask>)
    requires SortedByRank(t)
    requires forall j :: 0 <= j < |t| ==> Rank(y) <= Rank(t[j])
    ensures SortedByRank([y] + t)
  {
    var r := [y] + t;
    forall i, j | 0 <= i < j < |r| ensures Rank(r[i]) <= Rank(r[j]) {
      assert r[j] == t[j - 1];
      if i > 0 {
        assert r[i] == t[i - 1];
      }
    }
  }

  /** `x` goes in front of a sorted sequence whose head does not rank below it. */
  lemma InsertFrontSorted(x: TodayTask, s: seq<TodayTask>)
    requires SortedByRank(s) && (s == [] || Rank(x) <= Rank(s[0]))
    ensures SortedByRank([x] + s)
  {
    forall j | 0 <= j < |s| ensures Rank(x) <= Rank(s[j]) {
      HeadIsLeast(s, s[j]);
    }
    ConsSorted(x, s);
  }

  /** The head `y` of a sorted `[y] + t` stays in front once `x`, ranked above `y`, is inserted into `t`. */
  lemma InsertBehindSorted(x: TodayTask, y: TodayTask, t: seq<TodayTask>, rest: seq<TodayTask>)
    requires SortedByRank([y] + t) && SortedByRank(rest) && Rank(y) < Rank(x)
    requires multiset(rest) == multiset(t) + multiset{x}
    ensures SortedByRank([y] + rest)
  {
    var s := [y] + t;
    forall j | 0 <= j < |rest| ensures Rank(y) <= Rank(rest[j]) {
      assert rest[j] in multiset(rest);
      if rest[j] != x {
        assert rest[j] in multiset(t);
        assert rest[j] in s;
        HeadIsLeast(s, rest[j]);
      }
    }
    ConsSorted(y, rest);
  }

  /** `x` inserted into a sequence before the first element it does not compare after; a sorted sequence stays sorted. */
  function Insert(x: TodayTask, s: seq<TodayTask>): (r: seq<TodayTask>)
    ensures |r| == |s| + 1
    ensures multiset(r) == multiset(s) + multiset{x}
    ensures SortedByRank(s) ==> SortedByRank(r)
  {
    if s == [] || Compare(x, s[0]) <= 0 then
      assert SortedByRank(s) ==> SortedByRank([x] + s) by {
        if SortedByRank(s) { InsertFrontSorted(x, s); }
      }
      [x] + s
    else
      var rest := Insert(x, s[1..]);
      assert s == [s[0]] + s[1..];
      assert SortedByRank(s) ==> SortedByRank([s[0]] + rest) by {
        if SortedByRank(s) { InsertBehindSorted(x, s[0], s[1..], rest); }
      }
      [s[0]] + rest
  }

  /** The stable sort of useTodayTasks: sorted by the comparator and a permutation of its input. */
  function SortForToday(s: seq<TodayTask>): (r: seq<TodayTask>)
    ensures SortedByRank(r)
    ensures multiset(r) == multiset(s)
  {
    if s == [] then []
    else
      assert s == [s[0]] + s[1..];
      Insert(s[0], SortForToday(s[1..]))
  }

  /** The test `OfRank` filters by. */
  function HasRank(k: nat): TodayTask -> bool
  {
    t => Rank(t) == k
  }

  /** The elements of one rank, in order. */
  function OfRank(s: seq<TodayTask>, k: nat): seq<TodayTask>
  {
    Filter(s, HasRank(k))
  }

  /** `OfRank` of a sequence with `y` in front of it. */
  lemma OfRankCons(y: TodayTask, t: seq<TodayTask>, k: nat)
    ensures OfRank([y] + t, k) == (if Rank(y) == k then [y] else []) + OfRank(t, k)
  {
    assert ([y] + t)[0] == y && ([y] + t)[1..] == t;
  }

  /**
   * One step of `InsertStable`: putting `y`, of a lower rank than `x`, in
   * front of two sequences whose `OfRank` differ by `x` alone keeps them so.
   */
  lemma ConsBelow(x: TodayTask, y: TodayTask, rest: seq<TodayTask>, t: seq<TodayTask>, k: nat)
    requires Rank(y) < Rank(x)
    requires OfRank(rest, k) == (if Rank(x) == k then [x] else []) + OfRank(t, k)
    ensures OfRank([y] + rest, k) == (if Rank(x) == k then [x] else []) + OfRank([y] + t, k)
  {
    var before: seq<TodayTask> := if Rank(y) == k then [y] else [];
    var mine: seq<TodayTask> := if Rank(x) == k then [x] else [];
    var tail := OfRank(t, k);
    OfRankCons(y, rest, k);
    OfRankCons(y, t, k);
    if Rank(x) == k {
      assert before == [];
      assert before + (mine + tail) == mine + tail;
      assert before + tail == tail;
    } else {
      assert mine == [];
      assert mine + (before + tail) == before + tail;
    }
  }

  /** Inserting places `x` ahead of the elements of its own rank. */
  lemma {:induction false} InsertStable(x: TodayTask, s: seq<TodayTask>, k: nat)
    ensures OfRank(Insert(x, s), k) == (if Rank(x) == k then [x] else []) + OfRank(s, k)
  {
    if s == [] || Compare(x, s[0]) <= 0 {
      OfRankCons(x, s, k);
    } else {
      InsertStable(x, s[1..], k);
      assert s == [s[0]] + s[1..];
      ConsBelow(x, s[0], Insert(x, s[1..]), s[1..], k);
    }
  }

  /** The sort is stable: the elements of each rank keep their relative order. */
  lemma {:induction false} SortStable(s: seq<TodayTask>, k: nat)
    ensures OfRank(SortForToday(s), k) == OfRank(s, k)
  {
    if s != [] {
      SortStable(s[1..], k);
      InsertStable(s[0], SortForToday(s[1..]), k);
    }
  }

  /**
   * useTodayTasks: the shown tasks joined with their pets, every incomplete
   * task before every completed one and, within the same state, in slot order.
   */
  function TodayTasks(pets: seq<Pet>, tasks: seq<CareTask>, today: string): (r: seq<TodayTask>)
    ensures multiset(r) == multiset(JoinPets(ShownTasks(tasks, today), pets))
    ensures forall i, j :: 0 <= i < j < |r| && r[i].task.isCompleted ==> r[j].task.isCompleted
    ensures forall i, j :: 0 <= i < j < |r| && r[i].task.isCompleted == r[j].task.isCompleted ==>
              SlotOrder(r[i].task.timeSlot) <= SlotOrder(r[j].task.timeSlot)
  {
    SortForToday(JoinPets(ShownTasks(tasks, today), pets))
  }

  /** The today view holds, joined with its pet, exactly each task that is not dropped. */
  lemma TodayTasksContents(pets: seq<Pet>, tasks: seq<CareTask>, today: string, y: TodayTask)
    ensures y in TodayTasks(pets, tasks, today)
        <==> y.task in tasks && ShownToday(y.task, today) && y == WithPet(y.task, pets)
  {
    var shown := ShownTasks(tasks, today);
    var r := TodayTasks(pets, tasks, today);
    JoinPetsMember(shown, pets, y);
    assert y in r <==> y in multiset(JoinPets(shown, pets));
    assert y.task in shown <==> y.task in multiset(shown);
    assert y.task in tasks <==> y.task in multiset(tasks);
  }

  /**
   * Completing a task that was created on an earlier day takes it out of that
   * day's view altogether, rather than moving it among the completed tasks.
   */
  lemma CompletingOlderTaskHidesIt(pets: seq<Pet>, tasks: seq<CareTask>, taskId: string, now: string, i: nat)
    requires now != "" && i < |tasks| && tasks[i].id == taskId
    requires tasks[FirstIndex(tasks, TaskId, taskId)].createdDate != DatePart(now)
    ensures CompleteTask(tasks, taskId, now).Ok?
    ensures var done := CompleteTask(tasks, taskId, now).value;
            WithPet(done[i], pets) !in TodayTasks(pets, done, DatePart(now))
  {
    var done := CompleteTask(tasks, taskId, now).value;
    TodayTasksContents(pets, done, DatePart(now), WithPet(done[i], pets));
  }

  // ---------------------------------------------------------------------------
  // usePetTasks

  /** usePetTasks: exactly the tasks of the pet, in their stored order. */
  function PetTasks(tasks: seq<CareTask>, petId: string): (r: seq<CareTask>)
    ensures forall i :: 0 <= i < |r| ==> r[i].petId == petId
    ensures forall t {:trigger multiset(r)[t]} :: multiset(r)[t] == if t.petId == petId then multiset(tasks)[t] else 0
  {
    SelectById(tasks, TaskPetId, petId)
  }

  /** usePetTasks distributes over concatenation: the pet's tasks come out in stored order. */
  lemma PetTasksAppend(a: seq<CareTask>, b: seq<CareTask>, petId: string)
    ensures PetTasks(a + b, petId) == PetTasks(a, petId) + PetTasks(b, petId)
  {
    SelectByIdAppend(a, b, TaskPetId, petId);
  }

  /** Two tasks of the pet appear in its task list in the order they are stored in. */
  lemma PetTasksKeepsOrder(tasks: seq<CareTask>, petId: string, i: nat, j: nat)
    requires i < j < |tasks| && tasks[i].petId == petId && tasks[j].petId == petId
    ensures PetTasks(tasks, petId)
         == PetTasks(tasks[..i], petId) + [tasks[i]] + PetTasks(tasks[i + 1..j], petId) + [tasks[j]]
            + PetTasks(tasks[j + 1..], petId)
  {
    SelectByIdKeepsOrder(tasks, TaskPetId, petId, i, j);
  }

  /** Once a pet is deleted, it has no tasks left. */
  lemma DeletedPetHasNoTasks(tasks: seq<CareTask>, petId: string)
    ensures PetTasks(RemoveById(tasks, TaskPetId, petId), petId) == []
  {
    var left := RemoveById(tasks, TaskPetId, petId);
    var r := PetTasks(left, petId);
    assert forall t :: multiset(r)[t] == 0;
    assert multiset(r) == multiset{};
    assert |r| == |multiset(r)|;
  }

  // ---------------------------------------------------------------------------
  // Referential integrity through the mutations

  lemma AddPetKeepsReferences(pets: seq<Pet>, tasks: seq<CareTask>, pet: Pet)
    requires TasksReferencePets(pets, tasks)
    ensures TasksReferencePets(pets + [pet], tasks)
  {
    forall i | 0 <= i < |tasks| ensures tasks[i].petId in Ids(pets + [pet], PetId) {
      var j :| 0 <= j < |pets| && pets[j].id == tasks[i].petId;
      assert (pets + [pet])[j] == pets[j];
    }
  }

  /** An update keeps the set of pet ids, so every task still has its pet. */
  lemma UpdatePetKeepsReferences(pets: seq<Pet>, tasks: seq<CareTask>, pet: Pet)
    requires TasksReferencePets(pets, tasks)
    ensures Ids(ReplaceById(pets, PetId, pet.id, pet), PetId) == Ids(pets, PetId)
    ensures TasksReferencePets(ReplaceById(pets, PetId, pet.id, pet), tasks)
  {
    var updated := ReplaceById(pets, PetId, pet.id, pet);
    assert forall j :: 0 <= j < |pets| ==> updated[j].id == pets[j].id;
    assert Ids(updated, PetId) == Ids(pets, PetId) by {
      forall x | x in Ids(pets, PetId) ensures x in Ids(updated, PetId) {
        var j :| 0 <= j < |pets| && pets[j].id == x;
        assert updated[j].id == x;
      }
    }
  }

  /** Deleting a pet with its tasks keeps every remaining task's pet, and leaves no task of the deleted pet. */
  lemma DeletePetKeepsReferences(pets: seq<Pet>, tasks: seq<CareTask>, petId: string)
    requires TasksReferencePets(pets, tasks)
    ensures TasksReferencePets(RemoveById(pets, PetId, petId), RemoveById(tasks, TaskPetId, petId))
    ensures petId !in Ids(RemoveById(pets, PetId, petId), PetId)
  {
    var ps := RemoveById(pets, PetId, petId);
    var ts := RemoveById(tasks, TaskPetId, petId);
    forall i | 0 <= i < |ts| ensures ts[i].petId in Ids(ps, PetId) {
      assert ts[i] in multiset(ts);
      assert ts[i] in tasks;
      var k :| 0 <= k < |tasks| && tasks[k] == ts[i];
      var j :| 0 <= j < |pets| && pets[j].id == tasks[k].petId;
      assert pets[j] in multiset(pets);
      assert pets[j] in multiset(ps);
      var m :| 0 <= m < |ps| && ps[m] == pets[j];
    }
  }

  /** Appending a task keeps every task's pet exactly when the new task's pet is in the store. */
  lemma AddTaskReferences(pets: seq<Pet>, tasks: seq<CareTask>, task: CareTask)
    requires TasksReferencePets(pets, tasks)
    ensures TasksReferencePets(pets, tasks + [task]) <==> task.petId in Ids(pets, PetId)
  {
    assert (tasks + [task])[|tasks|] == task;
  }

  /** Replacing tasks by one whose pet is in the store keeps every task's pet. */
  lemma UpdateTaskReferences(pets: seq<Pet>, tasks: seq<CareTask>, id: string, task: CareTask)
    requires TasksReferencePets(pets, tasks) && task.petId in Ids(pets, PetId)
    ensures TasksReferencePets(pets, ReplaceById(tasks, TaskId, id, task))
  {
  }

  lemma DeleteTaskKeepsReferences(pets: seq<Pet>, tasks: seq<CareTask>, taskId: string)
    requires TasksReferencePets(pets, tasks)
    ensures TasksReferencePets(pets, RemoveById(tasks, TaskId, taskId))
  {
    var ts := RemoveById(tasks, TaskId, taskId);
    forall i | 0 <= i < |ts| ensures ts[i].petId in Ids(pets, PetId) {
      assert ts[i] in multiset(ts);
      assert ts[i] in tasks;
    }
  }

  /** Completing keeps every task's pet, although the duplicates of the id take the first match's pet. */
  lemma CompleteTaskKeepsReferences(pets: seq<Pet>, tasks: seq<CareTask>, taskId: string, now: string)
    requires TasksReferencePets(pets, tasks) && CompleteTask(tasks, taskId, now).Ok?
    ensures TasksReferencePets(pets, CompleteTask(tasks, taskId, now).value)
  {
    var k := FirstIndex(tasks, TaskId, taskId);
    assert tasks[k].petId in Ids(pets, PetId);
  }

  lemma ResetKeepsReferences(pets: seq<Pet>, tasks: seq<CareTask>, today: string)
    requires TasksReferencePets(pets, tasks)
    ensures TasksReferencePets(pets, ResetTasks(tasks, today))
  {
  }

  // ---------------------------------------------------------------------------
  // The store

  /**
   * The provider's two collections. Each mutation reads a whole collection,
   * transforms it and writes it back; one mutation runs at a time.
   */
  class CareDailyStore {
    var pets: seq<Pet>
    var tasks: seq<CareTask>

    /** Nothing stored yet: both collections are empty. */
    constructor ()
      ensures pets == [] && tasks == []
    {
      pets := [];
      tasks := [];
    }

    /** addPet: the pet is appended after all existing ones. */
    method AddPet(pet: Pet)
      modifies this
      ensures pets == old(pets) + [pet] && tasks == old(tasks)
      ensures TasksReferencePets(old(pets), old(tasks)) ==> TasksReferencePets(pets, tasks)
    {
      assert TasksReferencePets(pets, tasks) ==> TasksReferencePets(pets + [pet], tasks) by {
        if TasksReferencePets(pets, tasks) { AddPetKeepsReferences(pets, tasks, pet); }
      }
      pets := pets + [pet];
    }

    /** updatePet: every pet with the argument's id is replaced by it. */
    method UpdatePet(pet: Pet)
      modifies this
      ensures pets == ReplaceById(old(pets), PetId, pet.id, pet) && tasks == old(tasks)
      ensures TasksReferencePets(old(pets), old(tasks)) ==> TasksReferencePets(pets, tasks)
    {
      assert TasksReferencePets(pets, tasks) ==> TasksReferencePets(ReplaceById(pets, PetId, pet.id, pet), tasks) by {
        if TasksReferencePets(pets, tasks) { UpdatePetKeepsReferences(pets, tasks, pet); }
      }
      pets := ReplaceById(pets, PetId, pet.id, pet);
    }

    /** deletePet: the pets with the id and all their tasks are removed. */
    method DeletePet(petId: string)
      modifies this
      ensures pets == RemoveById(old(pets), PetId, petId)
      ensures tasks == RemoveById(old(tasks), TaskPetId, petId)
      ensures forall i :: 0 <= i < |tasks| ==> tasks[i].petId != petId
      ensures TasksReferencePets(old(pets), old(tasks)) ==> TasksReferencePets(pets, tasks)
    {
      assert TasksReferencePets(pets, tasks) ==>
             TasksReferencePets(RemoveById(pets, PetId, petId), RemoveById(tasks, TaskPetId, petId)) by {
        if TasksReferencePets(pets, tasks) { DeletePetKeepsReferences(pets, tasks, petId); }
      }
      pets := RemoveById(pets, PetId, petId);
      tasks := RemoveById(tasks, TaskPetId, petId);
    }

    /** addTask: the task is appended after all existing ones. */
    method AddTask(task: CareTask)
      modifies this
      ensures tasks == old(tasks) + [task] && pets == old(pets)
      ensures TasksReferencePets(old(pets), old(tasks)) && task.petId in Ids(pets, PetId) ==> TasksReferencePets(pets, tasks)
    {
      assert TasksReferencePets(pets, tasks) && task.petId in Ids(pets, PetId) ==> TasksReferencePets(pets, tasks + [task]) by {
        if TasksReferencePets(pets, tasks) { AddTaskReferences(pets, tasks, task); }
      }
      tasks := tasks + [task];
    }

    /** updateTask: every task with the argument's id is replaced by it. */
    method UpdateTask(task: CareTask)
      modifies this
      ensures tasks == ReplaceById(old(tasks), TaskId, task.id, task) && pets == old(pets)
      ensures TasksReferencePets(old(pets), old(tasks)) && task.petId in Ids(pets, PetId) ==> TasksReferencePets(pets, tasks)
    {
      tasks := ReplaceById(tasks, TaskId, task.id, task);
    }

    /** deleteTask: the tasks with the id are removed. */
    method DeleteTask(taskId: string)
      modifies this
      ensures tasks == RemoveById(old(tasks), TaskId, taskId) && pets == old(pets)
      ensures TasksReferencePets(old(pets), old(tasks)) ==> TasksReferencePets(pets, tasks)
    {
      assert TasksReferencePets(pets, tasks) ==> TasksReferencePets(pets, RemoveById(tasks, TaskId, taskId)) by {
        if TasksReferencePets(pets, tasks) { DeleteTaskKeepsReferences(pets, tasks, taskId); }
      }
      tasks := RemoveById(tasks, TaskId, taskId);
    }

    /** markTaskComplete at the time `now`: on an unknown id it fails and writes nothing. */
    method MarkTaskComplete(taskId: string, now: string) returns (r: Result<seq<CareTask>>)
      modifies this
      ensures r == CompleteTask(old(tasks), taskId, now)
      ensures tasks == (if r.Ok? then r.value else old(tasks)) && pets == old(pets)
      ensures TasksReferencePets(old(pets), old(tasks)) ==> TasksReferencePets(pets, tasks)
    {
      r := CompleteTask(tasks, taskId, now);
      if r.Ok? {
        assert TasksReferencePets(pets, tasks) ==> TasksReferencePets(pets, r.value) by {
          if TasksReferencePets(pets, tasks) { CompleteTaskKeepsReferences(pets, tasks, taskId, now); }
        }
        tasks := r.value;
      }
    }

    /** resetTodayTasks on the day `today`. */
    method ResetTodayTasks(today: string)
      modifies this
      ensures tasks == ResetTasks(old(tasks), today) && pets == old(pets)
      ensures TasksReferencePets(old(pets), old(tasks)) ==> TasksReferencePets(pets, tasks)
    {
      tasks := ResetTasks(tasks, today);
    }
  }
}
