# Paws Daily: the daily pet-care task store, in Dafny

This project models the core of the Paws Daily mobile app. It keeps a list of
pets and a list of daily care tasks. Every task belongs to a pet and sits in one
of four time slots: Morning, Noon, Evening or Bedtime.

The store, from `providers/CareDailyProvider.tsx`, has eight mutations:

- add, update and delete a pet;
- add, update and delete a task;
- mark a task complete at a given time;
- reset the completions of a given day.

Each mutation reads a whole collection, changes it in memory with spread,
`map` or `filter`, and writes the whole collection back. Two read views sit on
top of the store:

- *today's tasks*: filtered, joined with the pet's name, then sorted;
- *a pet's tasks*.

Two form handlers come before the store:

- the add-task form's save handler (`app/add-task.tsx`) checks the form and builds the new task;
- the sign-up form's handler (`app/signup.tsx`) checks the fields in a fixed order before a sign-up request is sent.

Files:

- `CareTypes.dfy`: pets, care tasks, time slots, task types, and JavaScript truthiness of an optional string.
- `JsString.dfy`: `trim` over ECMAScript's whitespace set, `length` in UTF-16 code units, `startsWith`, and `split('T')[0]`.
- `Seqs.dfy`: the array transforms, each specified on its own: `filter`, `find` (first match), replace-by-id `map`, remove-by-id and select-by-id.
- `CareDaily.dfy`: the store. It holds the pure transform behind each mutation, the two views, the sort and its stability, and the referential-integrity lemmas. The class `CareDailyStore` has the two collections as `seq` fields, and each method reassigns them through the transforms.
- `AddTask.dfy`: the presets, the time-slot list, `handleSave`, and `SaveNewTask`, which runs `handleSave` and then `addTask` on the store.
- `SignUp.dfy`: `handleSignUp`.

The clock is never read. The current ISO time `now`, the day `today` (a
YYYY-MM-DD string) and the new task's id are passed in as parameters.

Behaviour the model keeps from the code:

- `markTaskComplete` looks up the *first* task with the id. It then overwrites *every* task with that id with the completed copy of that first task (`CompleteTask`).
- Every test on `completedAt` uses JavaScript truthiness. An empty `completedAt`, like a missing one, counts as "not completed".
- A pet whose name is empty is shown as "Unknown Pet".
- The today view keeps a task when it was created today or was not completed today. So a task created on an earlier day and completed today drops out of the view, instead of being listed among the completed tasks. The lemma `CompletingOlderTaskHidesIt` states this.
- `useTodayTasks` does no grouping: it only filters, joins and sorts. The Today screen groups the incomplete tasks by pet afterwards (`app/(tabs)/index.tsx:39-46`), which is outside this model.
- The emoji strings of the task presets (`app/add-task.tsx:10-14`) are mis-encoded in the source file itself: each emoji's UTF-8 bytes were read back as Mac Roman, so the app shows strings such as U+F8FF U+00FC U+00ED U+00E4 in place of a pill. `TaskPresets` carries those strings as written.

## Model

| member | source | states |
|---|---|---|
| CareDaily.CareDailyStore.constructor | providers/CareDailyProvider.tsx:14-28 | with nothing stored, both collections are empty |
| CareDaily.CareDailyStore.AddPet | providers/CareDailyProvider.tsx:39-44 | the new pet list is the old one with the pet appended at the end; tasks are unchanged; every task still has its pet |
| CareDaily.CareDailyStore.UpdatePet | providers/CareDailyProvider.tsx:51-56 | the pets become `ReplaceById` of the old pets; tasks are unchanged; every task still has its pet |
| CareDaily.CareDailyStore.DeletePet | providers/CareDailyProvider.tsx:63-71 | the pets with the id and all tasks of that pet are removed; no remaining task has that petId; every remaining task still has its pet |
| CareDaily.CareDailyStore.AddTask | providers/CareDailyProvider.tsx:79-84 | the new task list is the old one with the task appended; pets are unchanged |
| CareDaily.CareDailyStore.UpdateTask | providers/CareDailyProvider.tsx:91-96 | the tasks become `ReplaceById` of the old tasks; pets are unchanged |
| CareDaily.CareDailyStore.DeleteTask | providers/CareDailyProvider.tsx:103-108 | the tasks with the id are removed; pets are unchanged |
| CareDaily.CareDailyStore.MarkTaskComplete | providers/CareDailyProvider.tsx:115-136 | it returns `CompleteTask` of the old tasks; on the error nothing is written, otherwise the tasks become the returned list |
| CareDaily.CareDailyStore.ResetTodayTasks | providers/CareDailyProvider.tsx:143-156 | the tasks become `ResetTasks` of the old tasks for the given day; pets are unchanged |
| Seqs.Filter | providers/CareDailyProvider.tsx:67-68 | the result holds only elements that pass, and every element that passes with its full multiplicity; when everything passes the sequence is unchanged |
| Seqs.FilterAppend | providers/CareDailyProvider.tsx:67-68 | filtering distributes over concatenation |
| Seqs.FilterAround | providers/CareDailyProvider.tsx:106 | a kept element splits the result into the filtered prefix, itself, and the filtered suffix |
| Seqs.FilterKeepsOrder | providers/CareDailyProvider.tsx:106 | two kept elements keep their relative order |
| Seqs.FirstIndex | providers/CareDailyProvider.tsx:118 | the index of the first element with the id, or the length when there is none |
| Seqs.FindById | providers/CareDailyProvider.tsx:118 | it finds nothing exactly when no element has the id; otherwise it returns the element at the first matching index |
| Seqs.ReplaceById | providers/CareDailyProvider.tsx:54 | the length is kept; each element with the id becomes the argument and every other element stays in place |
| Seqs.RemoveById | providers/CareDailyProvider.tsx:106 | exactly the elements with the id are gone; every other element stays with its multiplicity; an absent id leaves the sequence unchanged |
| Seqs.RemoveByIdAppend | providers/CareDailyProvider.tsx:106 | removing by id distributes over concatenation |
| Seqs.RemoveByIdKeepsOrder | providers/CareDailyProvider.tsx:106 | two surviving elements keep their relative order |
| Seqs.SelectById | providers/CareDailyProvider.tsx:201 | exactly the elements with the id, each with its multiplicity |
| Seqs.SelectByIdAppend | providers/CareDailyProvider.tsx:201 | selecting by id distributes over concatenation |
| Seqs.SelectByIdKeepsOrder | providers/CareDailyProvider.tsx:201 | two selected elements keep their relative order |
| CareDaily.Completed | providers/CareDailyProvider.tsx:124-128 | the copy is completed with completedAt set to `now`; every other field is kept; its completedAt is truthy exactly when `now` is not empty |
| CareDaily.CompleteTask | providers/CareDailyProvider.tsx:115-132 | it fails with "Task not found" exactly when no task has the id; otherwise the length is kept, every task with the id becomes the first match with isCompleted true and completedAt now, and other tasks are unchanged |
| CareDaily.CompletedOn | providers/CareDailyProvider.tsx:149 | it holds only when completedAt is present and at least as long as the day; for an empty day it is truthiness alone; a completedAt of the day followed by 'T' satisfies it |
| CareDaily.Reopened | providers/CareDailyProvider.tsx:150 | the copy is not completed and has no completedAt, so it is completed on no day; every other field is kept |
| CareDaily.ResetTasks | providers/CareDailyProvider.tsx:146-153 | the length is kept; each task whose truthy completedAt starts with the day is reopened with its other fields kept; every other task is unchanged; afterwards no task is completed on that day |
| CareDaily.ResetIdempotent | providers/CareDailyProvider.tsx:148-153 | resetting twice on one day equals resetting once |
| CareDaily.CompletionUndoneByReset | providers/CareDailyProvider.tsx:122-153 | a task completed at `now` is reopened by a reset on the date part of `now` |
| CareDaily.ShownToday | providers/CareDailyProvider.tsx:185 | a task passes exactly unless it was created on another day and completed on this one |
| CareDaily.ShownTasks | providers/CareDailyProvider.tsx:185 | a task is dropped exactly when it was created on another day and completed today; kept tasks keep their multiplicity |
| CareDaily.ResetShowsAll | providers/CareDailyProvider.tsx:185 | after a reset on a day, that day's filter drops no task |
| CareDaily.WithPet | providers/CareDailyProvider.tsx:186-189 | the task is kept; petName is the name of the first pet with the task's petId, or "Unknown Pet" when there is no such pet or its name is empty; petPhoto is that pet's photo |
| CareDaily.JoinPets | providers/CareDailyProvider.tsx:186-189 | each task, in order, joined with its pet |
| CareDaily.JoinPetsMember | providers/CareDailyProvider.tsx:186-189 | an element of the join is exactly the join of one of the tasks |
| CareDaily.SlotOrder | providers/CareDailyProvider.tsx:194 | each slot gets its position, Morning 0 to Bedtime 3 |
| CareDaily.Compare | providers/CareDailyProvider.tsx:190-196 | the comparator is negative, zero or positive exactly as the rank (completion first, then slot) is smaller, equal or larger |
| CareDaily.Insert | providers/CareDailyProvider.tsx:190-196 | one element more, and the multiset gains exactly the inserted element; inserting into a sorted sequence gives a sorted sequence |
| CareDaily.SortForToday | providers/CareDailyProvider.tsx:190-196 | the result is sorted by the comparator and is a permutation of the input |
| CareDaily.InsertStable | providers/CareDailyProvider.tsx:190-196 | the inserted element goes ahead of the elements of its own rank |
| CareDaily.SortStable | providers/CareDailyProvider.tsx:190-196 | elements of the same rank keep their relative order |
| CareDaily.TodayTasks | providers/CareDailyProvider.tsx:180-197 | the view is a permutation of the filtered, joined tasks; every incomplete task comes before every completed one; within the same completion state, slots do not decrease |
| CareDaily.TodayTasksContents | providers/CareDailyProvider.tsx:184-189 | an entry is in the view exactly when it is a stored task that passes the filter, joined with its pet |
| CareDaily.CompletingOlderTaskHidesIt | providers/CareDailyProvider.tsx:185 | a task created on an earlier day is hidden from the view of the day it is completed on |
| CareDaily.PetTasks | providers/CareDailyProvider.tsx:199-201 | exactly the tasks with that petId, each with its multiplicity |
| CareDaily.PetTasksAppend | providers/CareDailyProvider.tsx:199-201 | the pet's tasks of a concatenation are those of each part, in order |
| CareDaily.PetTasksKeepsOrder | providers/CareDailyProvider.tsx:199-201 | two tasks of the pet keep their stored order |
| CareDaily.DeletedPetHasNoTasks | providers/CareDailyProvider.tsx:63-71 | after a pet's tasks are removed, that pet has no tasks |
| CareDaily.AddPetKeepsReferences | providers/CareDailyProvider.tsx:39-44 | adding a pet keeps every task's pet in the store |
| CareDaily.UpdatePetKeepsReferences | providers/CareDailyProvider.tsx:51-56 | updating a pet keeps the set of pet ids, so every task keeps its pet |
| CareDaily.DeletePetKeepsReferences | providers/CareDailyProvider.tsx:63-71 | the cascade keeps every remaining task's pet, and the deleted id is gone from the pets |
| CareDaily.AddTaskReferences | providers/CareDailyProvider.tsx:79-84 | after an append, every task has its pet exactly when the new task's pet is in the store |
| CareDaily.UpdateTaskReferences | providers/CareDailyProvider.tsx:91-96 | an update to a task whose pet exists keeps every task's pet |
| CareDaily.DeleteTaskKeepsReferences | providers/CareDailyProvider.tsx:103-108 | deleting tasks keeps every task's pet |
| CareDaily.CompleteTaskKeepsReferences | providers/CareDailyProvider.tsx:115-132 | completing keeps every task's pet, even when duplicates take the first match's petId |
| CareDaily.ResetKeepsReferences | providers/CareDailyProvider.tsx:143-153 | a reset keeps every task's pet |
| JsString.TrimStart | app/add-task.tsx:38 | the index of the first character that is not whitespace, or the length; everything before it is whitespace; it is the length exactly when the input is all whitespace |
| JsString.TrimEnd | app/add-task.tsx:38 | one past the last character of a range that is not whitespace, or the range's start; everything after it in the range is whitespace |
| JsString.Trim | app/add-task.tsx:38 | the infix of the input that starts at its first character that is not whitespace; everything outside it is whitespace; no whitespace at either end; empty exactly when the input is all whitespace |
| JsString.TrimIdempotent | app/add-task.tsx:52 | trimming twice equals trimming once |
| JsString.Utf16Length | app/signup.tsx:27 | between one and two units per character; equal to the character count exactly when all characters are in the Basic Multilingual Plane |
| JsString.Utf16LengthAppend | app/signup.tsx:27 | the length of a concatenation is the sum of the lengths |
| JsString.Utf16LengthChar | app/signup.tsx:27 | one character counts one unit inside the Basic Multilingual Plane and two outside it |
| JsString.StartsWith | providers/CareDailyProvider.tsx:149 | the prefix is no longer than the string and equals its first characters |
| JsString.DatePart | providers/CareDailyProvider.tsx:146 | a prefix of the ISO string with no 'T' in it, followed by 'T' when anything follows |
| CareTypes.Truthy | providers/CareDailyProvider.tsx:185 | an optional string is falsy exactly when it is missing or empty |
| AddTask.TimeSlotsListed | app/add-task.tsx:17 | the form lists all four slots, in the order the view sorts them |
| AddTask.PresetsCoverTaskTypes | app/add-task.tsx:9-15 | there is exactly one preset per task type |
| AddTask.PresetNamesNotBlank | app/add-task.tsx:9-15 | a preset's name passes the form's name check |
| AddTask.NewTask | app/add-task.tsx:48-58 | the task has the given id and petId, the trimmed name, the type and a listed time slot; details is absent when the input is blank and trimmed otherwise; it is open, with no completedAt, created on the date part of `now` |
| AddTask.HandleSave | app/add-task.tsx:37-58 | a blank name is refused with "Please enter a task name."; otherwise an empty pet id is refused with "Please select a pet."; otherwise the new task is saved, with a non-empty name |
| AddTask.NewTaskShownToday | app/add-task.tsx:48-58 | a saved task shows in that day's view and in its pet's tasks |
| AddTask.SaveNewTask | app/add-task.tsx:60-63 | on success the built task is appended to the store; otherwise nothing changes |
| SignUp.HandleSignUp | app/signup.tsx:16-41 | a blank e-mail or an empty password field gives "Please fill in all fields"; then a mismatch gives "Passwords do not match"; then fewer than 6 UTF-16 units gives "Password must be at least 6 characters"; then a running sign-up ignores the press; otherwise it sends the trimmed, non-blank e-mail and the password as typed |
| SignUp.SixCharactersAccepted | app/signup.tsx:27-30 | a password of exactly six units passes |
| SignUp.LengthCheckCountsCharacters | app/signup.tsx:27 | for text in the Basic Multilingual Plane, a filled and matching form is sent exactly when the password has at least 6 characters |

## Left out

- Storage and caching: AsyncStorage, JSON serialisation, the storage keys and react-query's cache and invalidation are I/O. The model keeps only each collection's value before and after a mutation, as if the write succeeded and the query reloaded what was written. A failed write is not modelled, so neither is the "Failed to add task" alert of the add-task form.
- Load state: before a query has loaded, the code reads its collection as empty. A mutation run then would write that empty list plus the change. The store always holds the loaded collections.
- Concurrency: two mutations in flight at once can lose an update through the read-modify-write race. The model runs one mutation at a time.
- The notification `useEffect` and `utils/notifications.ts` only log.
- isLoading, isAddingPet and isMarkingComplete are query plumbing.
- Haptics, navigation (`router.back`), console logging and styling are UI. An `Alert` becomes an outcome value.
- The clock: `Date.now().toString()`, `new Date().toISOString()` and the derived day are parameters. The model does not check that they are well formed, and it does not make ids unique.
- Strings: a JavaScript string can hold lone surrogates. Dafny's `string` holds Unicode scalar values only, so the model cannot represent them.
- Sorting: `SortForToday` is a stable sort, as ECMAScript 2019 requires of `Array.prototype.sort`. The ordering and permutation properties do not depend on stability.
- `handlePresetSelect` only sets form state. The presets are modelled as data, with the lemma that their names pass the name check.
- The sign-up request itself: the mock authentication provider, and the alert shown when the request fails, are not part of this model.
- Pet weights are JavaScript numbers and are modelled as `real`. Nothing in the core computes with them.
- Not part of this model: `app/login.tsx`, `app/onboarding.tsx`, `app/_layout.tsx`, `providers/AuthProvider.tsx`, `utils/dateHelpers.ts` and `constants/colors.ts`. Also out are the medication, schedule, medication-log and settings types, and the medication, calendar and history screens. None of the core code computes with them.
