/** The shift registration engine: volunteers sign up for shifts and cancel, subject to each
    shift's `max_volunteers`, over the table of shifts and the table of VolunteerShift rows. */
module ShiftServices {
  import opened Wrappers
  import opened Sorting
  import opened Store
  import opened Calendar

  type ShiftId = int
  type JobId = int
  type VolunteerId = int

  /** A shift record; `id` is its primary key and `jobId` the job it belongs to.
      Start and end times are not part of the model. */
  datatype Shift = Shift(id: ShiftId, jobId: JobId, date: Date, maxVolunteers: nat)

  /** A registration row: this volunteer is signed up for this shift. */
  datatype VolunteerShift = VolunteerShift(volunteerId: VolunteerId, shiftId: ShiftId)

  /** What a failed lookup raises (`ObjectDoesNotExist`). */
  datatype Error = NotFound

  /** How a `register` call ended. The source reports none of these to its caller: only
      `Registered` changes anything, every other case is a silent no-op. */
  datatype RegisterOutcome = Registered | AlreadyRegistered | ShiftFull | UnknownShift

  function ShiftKey(shift: Shift): ShiftId
  {
    shift.id
  }

  /** The order of `order_by('date')`. */
  predicate ByDate(a: Shift, b: Shift)
  {
    OnOrBefore(a.date, b.date)
  }

  lemma ByDateIsTotalPreorder()
    ensures IsTotalPreorder(ByDate)
  {
  }

  /** The registration rows for shift `s`. */
  function RowsFor(rows: set<VolunteerShift>, s: ShiftId): set<VolunteerShift>
  {
    set r | r in rows && r.shiftId == s
  }

  /** The number of volunteers signed up for shift `s`. */
  function SignUps(rows: set<VolunteerShift>, s: ShiftId): nat
  {
    |RowsFor(rows, s)|
  }

  /** The shifts that volunteer `v` has a row for. */
  function ShiftsOf(shifts: map<ShiftId, Shift>, rows: set<VolunteerShift>, v: VolunteerId): set<ShiftId>
  {
    set k | k in shifts && VolunteerShift(v, k) in rows
  }

  /** The shifts of job `j`. */
  function ShiftsOfJob(shifts: map<ShiftId, Shift>, j: JobId): set<ShiftId>
  {
    set k | k in shifts && shifts[k].jobId == j
  }

  /** Adding a new row adds one to the count of its shift and leaves the other counts alone. */
  lemma SignUpsAdd(rows: set<VolunteerShift>, row: VolunteerShift, s: ShiftId)
    requires row !in rows
    ensures SignUps(rows + {row}, s) == SignUps(rows, s) + (if row.shiftId == s then 1 else 0)
  {
    if row.shiftId == s {
      assert RowsFor(rows + {row}, s) == RowsFor(rows, s) + {row};
    } else {
      assert RowsFor(rows + {row}, s) == RowsFor(rows, s);
    }
  }

  /** Deleting a row lowers the count of its shift by one and leaves the other counts alone. */
  lemma SignUpsRemove(rows: set<VolunteerShift>, row: VolunteerShift, s: ShiftId)
    requires row in rows
    ensures SignUps(rows - {row}, s) == SignUps(rows, s) - (if row.shiftId == s then 1 else 0)
  {
    if row.shiftId == s {
      assert RowsFor(rows - {row}, s) == RowsFor(rows, s) - {row};
    } else {
      assert RowsFor(rows - {row}, s) == RowsFor(rows, s);
    }
  }

  /** A shift without rows has a count of zero. */
  lemma SignUpsOfUnknownShift(rows: set<VolunteerShift>, s: ShiftId)
    requires forall r :: r in rows ==> r.shiftId != s
    ensures SignUps(rows, s) == 0
  {
    assert RowsFor(rows, s) == {};
  }

  /** The table of shifts with the table of registrations for them. */
  class ShiftRegistry {
    var shifts: map<ShiftId, Shift>
    /** The VolunteerShift table; as a set it holds at most one row per pair. */
    var records: set<VolunteerShift>
    /** The next primary key the shift table hands out. */
    var nextId: ShiftId

    /** Every shift is stored under its own primary key; every row refers to a stored shift; no
        shift has more rows than its `maxVolunteers`. */
    ghost predicate Valid()
      reads this
    {
      && (forall k :: k in shifts ==> shifts[k].id == k && k < nextId)
      && (forall r :: r in records ==> r.shiftId in shifts)
      && (forall k :: k in shifts ==> SignUps(records, k) <= shifts[k].maxVolunteers)
    }

    constructor ()
      ensures Valid()
      ensures shifts == map[] && records == {} && nextId == 1
      ensures forall v, s :: !IsSignedUp(v, s)
    {
      shifts := map[];
      records := {};
      nextId := 1;
    }

    /** Saving a new shift: it receives the next primary key and has no registrations. */
    method CreateShift(jobId: JobId, date: Date, maxVolunteers: nat) returns (shift: Shift)
      requires Valid()
      modifies this
      ensures Valid()
      ensures shift == Shift(old(nextId), jobId, date, maxVolunteers) && nextId == old(nextId) + 1
      ensures shift.id !in old(shifts)
      ensures shifts == old(shifts)[shift.id := shift]
      ensures records == old(records)
      ensures SignUps(records, shift.id) == 0
    {
      shift := Shift(nextId, jobId, date, maxVolunteers);
      SignUpsOfUnknownShift(records, nextId);
      shifts := shifts[nextId := shift];
      nextId := nextId + 1;
    }

    /** Whether volunteer `v` has a registration row for shift `s`. */
    predicate IsSignedUp(v: VolunteerId, s: ShiftId): (signed: bool)
      reads this
      ensures signed <==> exists r :: r in records && r.volunteerId == v && r.shiftId == s
    {
      VolunteerShift(v, s) in records
    }

    /** The shift stored under `id`, or None when there is none. */
    function GetShiftById(id: ShiftId): (r: Option<Shift>)
      reads this
      ensures r.Some? <==> id in shifts
      ensures r.Some? ==> r.value == shifts[id]
    {
      if id in shifts then Some(shifts[id]) else None
    }

    /** The registration row of volunteer `v` for shift `s`; NotFound when there is none. */
    function GetVolunteerShiftById(v: VolunteerId, s: ShiftId): (r: Result<VolunteerShift, Error>)
      reads this
      ensures r.Success? <==> IsSignedUp(v, s)
      ensures r.Success? ==> r.value == VolunteerShift(v, s) && r.value in records
      ensures r.Failure? ==> r.error == NotFound
    {
      if VolunteerShift(v, s) in records then Success(VolunteerShift(v, s)) else Failure(NotFound)
    }

    /** Signs volunteer `v` up for shift `s` when the shift exists, `v` is not signed up for it yet
        and it has room; otherwise nothing changes. */
    method Register(v: VolunteerId, s: ShiftId) returns (outcome: RegisterOutcome)
      requires Valid()
      modifies this
      ensures Valid()
      ensures shifts == old(shifts) && nextId == old(nextId)
      ensures outcome == UnknownShift <==> s !in shifts
      ensures outcome == AlreadyRegistered <==> s in shifts && old(IsSignedUp(v, s))
      ensures outcome == Registered <==>
                s in shifts && !old(IsSignedUp(v, s)) && old(SignUps(records, s)) < shifts[s].maxVolunteers
      ensures records == if outcome == Registered then old(records) + {VolunteerShift(v, s)} else old(records)
      ensures IsSignedUp(v, s) <==> s in shifts && (old(IsSignedUp(v, s)) || outcome == Registered)
      ensures forall w, t :: (w, t) != (v, s) ==> (IsSignedUp(w, t) <==> old(IsSignedUp(w, t)))
      ensures forall t :: SignUps(records, t)
                          == old(SignUps(records, t)) + (if outcome == Registered && t == s then 1 else 0)
    {
      if s !in shifts {
        outcome := UnknownShift;
      } else if IsSignedUp(v, s) {
        outcome := AlreadyRegistered;
      } else if SignUps(records, s) >= shifts[s].maxVolunteers {
        outcome := ShiftFull;
      } else {
        var row := VolunteerShift(v, s);
        forall t ensures SignUps(records + {row}, t) == SignUps(records, t) + (if t == s then 1 else 0) {
          SignUpsAdd(records, row, t);
        }
        records := records + {row};
        outcome := Registered;
      }
    }

    /** Removes the registration of volunteer `v` for shift `s`; fails with NotFound, and changes
        nothing, when there is none. */
    method CancelShiftRegistration(v: VolunteerId, s: ShiftId) returns (status: Outcome<Error>)
      requires Valid()
      modifies this
      ensures Valid()
      ensures shifts == old(shifts) && nextId == old(nextId)
      ensures status == Pass <==> old(IsSignedUp(v, s))
      ensures status.Fail? ==> status.error == NotFound
      ensures records == old(records) - {VolunteerShift(v, s)}
      ensures !IsSignedUp(v, s)
      ensures forall w, t :: (w, t) != (v, s) ==> (IsSignedUp(w, t) <==> old(IsSignedUp(w, t)))
      ensures forall t :: SignUps(records, t)
                          == old(SignUps(records, t)) - (if status == Pass && t == s then 1 else 0)
    {
      var found := GetVolunteerShiftById(v, s);
      if found.Failure? {
        status := Fail(NotFound);
        assert records == records - {VolunteerShift(v, s)};
      } else {
        var row := found.value;
        forall t ensures SignUps(records - {row}, t) == SignUps(records, t) - (if t == s then 1 else 0) {
          SignUpsRemove(records, row, t);
        }
        records := records - {row};
        status := Pass;
      }
    }

    /** The shifts volunteer `v` is signed up for, each once, in primary-key order. */
    function GetShiftsSignedUpFor(v: VolunteerId): (r: seq<Shift>)
      reads this
      requires Valid()
      ensures forall x :: x in r ==> x.id in shifts && shifts[x.id] == x && IsSignedUp(v, x.id)
      ensures forall k :: IsSignedUp(v, k) ==> k in shifts && multiset(r)[shifts[k]] == 1
      ensures |r| == |ShiftsOf(shifts, records, v)|
    {
      var table := shifts;
      var mine := ShiftsOf(shifts, records, v);
      var r := Lookup(table, SortedKeys(mine));
      TableListing(table, ShiftKey, mine, r);
      assert forall k :: IsSignedUp(v, k) ==> k in mine by {
        forall k | IsSignedUp(v, k) ensures k in mine {
          assert VolunteerShift(v, k) in records;
        }
      }
      r
    }

    /** The shifts of job `j`, each once, ordered by date. */
    function GetShiftsOrderedByDate(j: JobId): (r: seq<Shift>)
      reads this
      requires Valid()
      ensures forall a, b :: 0 <= a < b < |r| ==> OnOrBefore(r[a].date, r[b].date)
      ensures forall x :: x in r ==> x.id in shifts && shifts[x.id] == x && x.jobId == j
      ensures forall k :: k in shifts && shifts[k].jobId == j ==> multiset(r)[shifts[k]] == 1
      ensures |r| == |ShiftsOfJob(shifts, j)|
    {
      var table := shifts;
      var ofJob := ShiftsOfJob(shifts, j);
      ByDateIsTotalPreorder();
      var r := InsertionSort(Lookup(table, SortedKeys(ofJob)), ByDate);
      TableListing(table, ShiftKey, ofJob, r);
      assert SortedBy(r, ByDate);
      r
    }
  }
}
