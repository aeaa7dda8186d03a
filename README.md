# Volunteer shifts and jobs

This project models two parts of a Django volunteer-management system (vms).

- **The shift registration engine.** It holds a table of shifts and a table of `VolunteerShift` rows. Each shift belongs to a job, has a date and has a `max_volunteers` capacity. Each row says that one volunteer is signed up for one shift.
  - Volunteers `register` for shifts and `cancel_shift_registration`.
  - The queries are `is_signed_up`, `get_shift_by_id`, `get_volunteer_shift_by_id`, `get_shifts_signed_up_for` and `get_shifts_ordered_by_date`.
  - The module `shift/services.py` that implements these is not part of this model. Their behaviour is taken from the test suite `vms/shift/tests.py`, which drives them step by step.
  - `ShiftServices.ShiftRegistry` is a class. It has a map of shifts keyed by primary key, a set of registration rows and the next primary key to hand out.
  - `Valid()` is preserved by every mutator. It keeps every row pointing at a stored shift, and every shift's row count at or below its capacity. A single row per volunteer/shift pair holds by construction, because the rows form a set.
- **The job lookup service** (`vms/job/services.py`). This is an existence-checked fetch, a delete that returns a boolean, and a listing sorted by name. All three work over `JobServices.JobStore`, a class holding the job table.
- **Scenarios.** The modules `ShiftExamples` and `JobExamples` restate the scenarios of the test suite as methods that Dafny verifies, plus a delete scenario and a listing scenario for jobs. Their `ensures` state the outcomes the tests assert.

The common modules are:

- `Wrappers`: `Option`, `Result` and `Outcome`.
- `Calendar`: a date as an ordered (year, month, day).
- `Text`: the string order behind `order_by('name')`. It compares code points lexicographically, so a prefix comes first.
- `Sorting`: an insertion sort over a total preorder, proved sorted and a permutation.
- `Store`: listing the records of an id-keyed table in key order. It proves that any reordering of such a listing holds each record exactly once.

Design choices:

- **Errors are values.** Django raises `ObjectDoesNotExist`; the model returns `Failure(NotFound)` or `Fail(NotFound)` instead. It returns `None` where the source returns `None`.
- **What `register` returns.** `register` returns a `RegisterOutcome`, which no test reads. Only the `Registered` outcome changes any state.
- **Over-capacity registration** is a silent no-op. The tests show this: John's sign-up for the one-place shift raises nothing (tests.py:112, :388). The row is still missing later (tests.py:120, :396).
- **Registering an already-registered pair** is also a no-op. The tests do not exercise this; it is a design choice that keeps one row per pair.
- **Registering for a shift id that is not stored** returns `UnknownShift` and changes nothing. No test calls `register` this way; it is a design choice. An implementation that looks the shift up with `Shift.objects.get` would raise `ObjectDoesNotExist` instead.
- **Job ids are opaque in the shift tables.** `CreateShift` accepts any job id, and `ShiftRegistry` is not linked to `JobStore`.

## Model

| member | source | states |
|---|---|---|
| ShiftServices.ShiftRegistry.Register | vms/shift/tests.py:108-114 | Signs the volunteer up exactly when the shift exists, the pair is not yet registered and the shift's count is below `max_volunteers`. Otherwise nothing changes: this covers the full-shift case the tests hit at lines 112 and 388. It adds exactly that row. No other pair's status changes. Only that shift's count goes up, by one. The capacity invariant is kept. |
| ShiftServices.ShiftRegistry.CancelShiftRegistration | vms/shift/tests.py:86-122 | Succeeds exactly when the pair was registered. It then removes exactly that row and lowers that shift's count by one. Otherwise it fails with NotFound and changes nothing, so a repeated cancel fails again. Afterwards the pair is not signed up, and every other pair keeps its status. |
| ShiftServices.ShiftRegistry.IsSignedUp | vms/shift/tests.py:472-496 | True exactly when a registration row exists whose volunteer and shift are the given ones. |
| ShiftServices.ShiftRegistry.GetShiftById | vms/shift/tests.py:162-185 | Gives a shift exactly when the id is stored, and then it is the stored shift. Otherwise it gives None. |
| ShiftServices.ShiftRegistry.GetVolunteerShiftById | vms/shift/tests.py:383-398 | Finds the row exactly when the volunteer is signed up for the shift, and it is that pair's row. Otherwise it fails with NotFound. |
| ShiftServices.ShiftRegistry.GetShiftsSignedUpFor | vms/shift/tests.py:303-310 | Lists every shift the volunteer is signed up for exactly once, and nothing else. Its length is the number of such shifts. |
| ShiftServices.ShiftRegistry.GetShiftsOrderedByDate | vms/shift/tests.py:225-237 | Lists every shift of the job exactly once, and nothing else, in ascending date order. |
| ShiftServices.ShiftRegistry.CreateShift | vms/shift/tests.py:64-84 | Saving a shift gives it the next, fresh primary key and adds it with no registrations. The registration table is unchanged. |
| ShiftServices.ShiftRegistry.constructor | vms/shift/tests.py:15 | An empty database: no shifts, no rows and nobody signed up for anything. |
| ShiftServices.SignUpsAdd | vms/shift/tests.py:109-114 | A new row raises its own shift's count by one and leaves every other count alone. |
| ShiftServices.SignUpsRemove | vms/shift/tests.py:117-122 | Deleting a row lowers its own shift's count by one and leaves every other count alone. |
| ShiftExamples.CancelShiftRegistrationScenario | vms/shift/tests.py:15-122 | Each of the seven early cancels fails with NotFound. Of the six registrations, only John's on the one-place shift is full. The five later cancels succeed. John's cancel for the one-place shift fails with NotFound. |
| ShiftExamples.GetShiftByIdScenario | vms/shift/tests.py:124-185 | Each of the three shifts is found under its own id. Ids 100, 200, 300 and 400 give None. |
| ShiftExamples.GetShiftsOrderedByDateScenario | vms/shift/tests.py:187-237 | The shifts dated 2012-1-10, 2012-6-25 and 2012-12-9 are listed as exactly those three, in that order. |
| ShiftExamples.GetShiftsSignedUpForScenario | vms/shift/tests.py:239-310 | After three sign-ups, the list has length 3 and holds each of the three shifts. |
| ShiftExamples.GetVolunteerShiftByIdScenario | vms/shift/tests.py:312-398 | The row of each of the five successful registrations is found. The over-capacity pair gives NotFound. |
| ShiftExamples.IsSignedUpScenario | vms/shift/tests.py:401-496 | Before any registration Yoshi is signed up for none of the three shifts. After Yoshi's three sign-ups Yoshi is signed up for all three and John for none. After John registers for the two- and four-place shifts, John is signed up for those two and still not for the one-place shift, which John never registered for. |
| ShiftExamples.ListSignedUpFor | vms/shift/tests.py:304-310 | A volunteer signed up for all three stored shifts gets a list of length 3 holding each of them. |
| ShiftExamples.ListOfJob | vms/shift/tests.py:226-237 | When a job owns all three shifts and their dates increase with their ids, its date-ordered list is the three shifts in id order. |
| ShiftExamples.ThreeInDateOrder | vms/shift/tests.py:229-237 | A date-sorted list of three shifts with strictly increasing dates is exactly those shifts in that order. |
| ShiftExamples.RegisterThenCancel | vms/shift/tests.py:108-122 | Cancelling right after registering removes the pair. The table is back to what it was unless the pair was already registered. The cancel succeeds exactly when the register signed the pair up or found it already registered. |
| JobServices.JobStore.GetJobById | vms/job/services.py:17-30 | Gives the stored job exactly when the id is a key of the table. Otherwise it gives None. |
| JobServices.JobStore.DeleteJob | vms/job/services.py:5-15 | Returns true exactly when the id was stored. It removes exactly that key. Afterwards the job is not found, and every other id finds what it found before. |
| JobServices.JobStore.GetJobsOrderedByTitle | vms/job/services.py:32-34 | Lists every stored job exactly once, and nothing else, in ascending name order. Its length is the number of jobs. |
| JobServices.JobStore.CreateJob | vms/job/views.py:15-16 | Saving a job gives it the next, fresh primary key and stores it under that key, where it is found. |
| JobServices.JobStore.constructor | vms/job/services.py:3 | An empty job table. |
| JobServices.ByNameIsTotalPreorder | vms/job/services.py:33 | The name order is total and transitive, so sorting by it is well defined. |
| JobExamples.DeleteJobScenario | vms/job/services.py:5-30 | Deleting a job returns true once and false the second time. The deleted job is not found; the other one still is. A job saved afterwards gets a key different from the deleted one. |
| JobExamples.OrderedByTitleScenario | vms/job/services.py:32-34 | Jobs saved as "Systems Administrator" then "Software Developer" are listed as "Software Developer" first. |
| JobExamples.TitlesInOrder | vms/shift/tests.py:49-59 | "Software Developer" sorts strictly before "Systems Administrator". |
| JobExamples.TwoInNameOrder | vms/job/services.py:32-34 | A name-sorted list of two jobs with strictly ordered names holds them in that order. |
| JobExamples.CreateThenDelete | vms/job/services.py:5-15 | Deleting the job just saved returns true and puts the table back as it was. |
| Text.LessOrEqualTotal | vms/job/services.py:33 | Any two names are comparable. |
| Text.LessOrEqualTransitive | vms/job/services.py:33 | The name order is transitive. |
| Text.LessOrEqualAntisymmetric | vms/job/services.py:33 | Two names each at or below the other are equal, so only equal names can tie. |
| Sorting.InsertionSort | vms/job/services.py:33 | The result is sorted by the given order and is a permutation of the input. |
| Sorting.Insert | vms/job/services.py:33 | Inserting into a sorted list keeps it sorted and adds exactly the one element. |
| Store.SortedKeys | vms/job/services.py:33 | The keys of a table in strictly ascending order: exactly the table's keys, each once. |
| Store.HasLeast | vms/job/services.py:33 | Every nonempty set of keys has a least key. |
| Store.TableListing | vms/job/services.py:33 | Any reordering of a keyed table's listing has the listed set's size. It holds only stored records, and each of them exactly once. |
| Store.DistinctOccursOnce | vms/job/services.py:33 | In a list without repetitions every member occurs exactly once. |

## Left out

- The implementation `shift/services.py` is not part of this model. The shift operations follow what `vms/shift/tests.py` asserts about them.
- Volunteers, users and events: volunteer, event and job ids are opaque integers. The shift tables are not linked to the job table, so a shift may name a job that is not stored, and deleting a job leaves its shifts in place. The model does not check that a volunteer exists before registering them.
- Shift start and end times, and the other payload fields of volunteers, events and jobs, are left out. No test makes an assertion about them. Dates are modelled as (year, month, day) and never parsed from strings.
- The ORM's exception machinery is left out; lookups return `Option`/`Result` values instead. Whether `job.delete()` cascades to the job's shifts depends on model definitions that are not part of this model, so no cascade is modelled.
- Concurrency and transactions are left out: every operation is one sequential step.
- Views, forms, templates and URL routing in `vms/job/views.py`, `vms/authentication/views.py` and the `urls.py` files only forward to the services or render pages. They are left out.
- ShiftServices.ShiftRegistry.GetShiftsSignedUpFor: the tests promise no order, and the model lists in primary-key order. The contract states only membership, multiplicity and length.
- ShiftServices.ShiftRegistry.GetShiftsOrderedByDate: the order among shifts on the same date is not stated.
- JobServices.JobStore.GetJobsOrderedByTitle: the order among jobs with equal names is not stated. Names compare by code point, without a database collation or case folding.
- The test method at vms/shift/tests.py:187 is named `get_shifts_ordered_by_date` without the `test_` prefix, so the Django test runner never collects it. `ShiftExamples.GetShiftsOrderedByDateScenario` models the scenario it describes.
