/** The scenarios of the shift test suite, replayed against the model: each scenario method
    builds the tables its test builds, and its postcondition states what the test observes. */
module ShiftExamples {
  import opened Wrappers
  import opened Calendar
  import opened ShiftServices

  /** The two volunteers of the tests, Yoshi Turtle and John Doe. */
  const Yoshi: VolunteerId := 1
  const John: VolunteerId := 2

  /** The two jobs of the tests, "Software Developer" and "Systems Administrator". */
  const SoftwareDeveloper: JobId := 1
  const SystemsAdministrator: JobId := 2

  /** The date most shifts of the tests fall on, 2012-10-23. */
  const ShiftDay := Date(2012, 10, 23)

  /** The three shifts every test creates, under keys 1, 2 and 3, with 1, 2 and 4 places. */
  ghost predicate ThreeShifts(registry: ShiftRegistry)
    reads registry
  {
    && registry.Valid()
    && registry.shifts.Keys == {1, 2, 3}
    && registry.shifts[1].maxVolunteers == 1
    && registry.shifts[2].maxVolunteers == 2
    && registry.shifts[3].maxVolunteers == 4
  }

  /** A fresh registry holding the three shifts of a test and no registrations. */
  method SetUp(job3: JobId, d1: Date, d2: Date, d3: Date) returns (registry: ShiftRegistry)
    ensures fresh(registry)
    ensures ThreeShifts(registry) && registry.records == {}
    ensures registry.shifts[1] == Shift(1, SoftwareDeveloper, d1, 1)
    ensures registry.shifts[2] == Shift(2, SoftwareDeveloper, d2, 2)
    ensures registry.shifts[3] == Shift(3, job3, d3, 4)
  {
    registry := new ShiftRegistry();
    var s1 := registry.CreateShift(SoftwareDeveloper, d1, 1);
    var s2 := registry.CreateShift(SoftwareDeveloper, d2, 2);
    var s3 := registry.CreateShift(job3, d3, 4);
  }

  /** Yoshi signs up for all three shifts; each has room. */
  method RegisterYoshi(registry: ShiftRegistry) returns (outcomes: seq<RegisterOutcome>)
    requires ThreeShifts(registry) && registry.records == {}
    modifies registry
    ensures ThreeShifts(registry) && registry.shifts == old(registry.shifts)
    ensures outcomes == [Registered, Registered, Registered]
    ensures registry.records == {VolunteerShift(Yoshi, 1), VolunteerShift(Yoshi, 2), VolunteerShift(Yoshi, 3)}
    ensures SignUps(registry.records, 1) == 1 && SignUps(registry.records, 2) == 1
    ensures SignUps(registry.records, 3) == 1
  {
    var r1 := registry.Register(Yoshi, 1);
    var r2 := registry.Register(Yoshi, 2);
    var r3 := registry.Register(Yoshi, 3);
    outcomes := [r1, r2, r3];
  }

  /** John then signs up for all three shifts: the first, with one place, is full. */
  method RegisterJohn(registry: ShiftRegistry) returns (outcomes: seq<RegisterOutcome>)
    requires ThreeShifts(registry)
    requires registry.records == {VolunteerShift(Yoshi, 1), VolunteerShift(Yoshi, 2), VolunteerShift(Yoshi, 3)}
    requires SignUps(registry.records, 1) == 1 && SignUps(registry.records, 2) == 1
    requires SignUps(registry.records, 3) == 1
    modifies registry
    ensures ThreeShifts(registry) && registry.shifts == old(registry.shifts)
    ensures outcomes == [ShiftFull, Registered, Registered]
    ensures registry.records == {VolunteerShift(Yoshi, 1), VolunteerShift(Yoshi, 2), VolunteerShift(Yoshi, 3),
                                 VolunteerShift(John, 2), VolunteerShift(John, 3)}
  {
    var r1 := registry.Register(John, 1);
    var r2 := registry.Register(John, 2);
    var r3 := registry.Register(John, 3);
    outcomes := [r1, r2, r3];
  }

  /** Cancelling before any registration fails for every pair, also when repeated. */
  method CancelUnregistered(registry: ShiftRegistry) returns (results: seq<Outcome<Error>>)
    requires ThreeShifts(registry) && registry.records == {}
    modifies registry
    ensures ThreeShifts(registry) && registry.shifts == old(registry.shifts) && registry.records == {}
    ensures results == [Fail(NotFound), Fail(NotFound), Fail(NotFound), Fail(NotFound),
                        Fail(NotFound), Fail(NotFound), Fail(NotFound)]
  {
    var e1 := registry.CancelShiftRegistration(Yoshi, 1);
    var e2 := registry.CancelShiftRegistration(Yoshi, 1);
    var e3 := registry.CancelShiftRegistration(Yoshi, 2);
    var e4 := registry.CancelShiftRegistration(Yoshi, 3);
    var e5 := registry.CancelShiftRegistration(John, 1);
    var e6 := registry.CancelShiftRegistration(John, 2);
    var e7 := registry.CancelShiftRegistration(John, 3);
    results := [e1, e2, e3, e4, e5, e6, e7];
  }

  /** Yoshi's three registrations can be cancelled. */
  method CancelYoshi(registry: ShiftRegistry) returns (results: seq<Outcome<Error>>)
    requires ThreeShifts(registry)
    requires registry.records == {VolunteerShift(Yoshi, 1), VolunteerShift(Yoshi, 2), VolunteerShift(Yoshi, 3),
                                  VolunteerShift(John, 2), VolunteerShift(John, 3)}
    modifies registry
    ensures ThreeShifts(registry)
    ensures registry.records == {VolunteerShift(John, 2), VolunteerShift(John, 3)}
    ensures results == [Pass, Pass, Pass]
  {
    var l1 := registry.CancelShiftRegistration(Yoshi, 1);
    var l2 := registry.CancelShiftRegistration(Yoshi, 2);
    var l3 := registry.CancelShiftRegistration(Yoshi, 3);
    results := [l1, l2, l3];
  }

  /** John's two registrations can be cancelled; his over-capacity one, never made, cannot. */
  method CancelJohn(registry: ShiftRegistry) returns (results: seq<Outcome<Error>>, overCapacity: Outcome<Error>)
    requires ThreeShifts(registry)
    requires registry.records == {VolunteerShift(John, 2), VolunteerShift(John, 3)}
    modifies registry
    ensures ThreeShifts(registry) && registry.records == {}
    ensures results == [Pass, Pass]
    ensures overCapacity == Fail(NotFound)
  {
    var l4 := registry.CancelShiftRegistration(John, 2);
    var l5 := registry.CancelShiftRegistration(John, 3);
    results := [l4, l5];
    overCapacity := registry.CancelShiftRegistration(John, 1);
  }

  /** Cancelling before any registration fails, also when repeated; after both volunteers sign up
      for all three shifts, John's sign-up for the one-place shift is a silent no-op, so the other
      five registrations can be cancelled and his for that shift cannot. */
  method CancelShiftRegistrationScenario()
    returns (early: seq<Outcome<Error>>, signUps: seq<RegisterOutcome>,
             late: seq<Outcome<Error>>, overCapacity: Outcome<Error>)
    ensures early == [Fail(NotFound), Fail(NotFound), Fail(NotFound), Fail(NotFound),
                      Fail(NotFound), Fail(NotFound), Fail(NotFound)]
    ensures signUps == [Registered, Registered, Registered, ShiftFull, Registered, Registered]
    ensures late == [Pass, Pass, Pass, Pass, Pass]
    ensures overCapacity == Fail(NotFound)
  {
    var registry := SetUp(SystemsAdministrator, ShiftDay, ShiftDay, ShiftDay);
    early := CancelUnregistered(registry);
    var yoshi := RegisterYoshi(registry);
    var john := RegisterJohn(registry);
    signUps := yoshi + john;
    var yoshiCancels := CancelYoshi(registry);
    var johnCancels;
    johnCancels, overCapacity := CancelJohn(registry);
    late := yoshiCancels + johnCancels;
  }

  /** Stored shifts are found under their ids; ids that were never handed out give None. */
  method GetShiftByIdScenario()
    returns (created: seq<Shift>, found: seq<Option<Shift>>, missing: seq<Option<Shift>>)
    ensures |created| == 3
    ensures found == [Some(created[0]), Some(created[1]), Some(created[2])]
    ensures missing == [None, None, None, None]
  {
    var registry := SetUp(SoftwareDeveloper, ShiftDay, ShiftDay, ShiftDay);
    created := [registry.shifts[1], registry.shifts[2], registry.shifts[3]];
    found := [registry.GetShiftById(1), registry.GetShiftById(2), registry.GetShiftById(3)];
    missing := [registry.GetShiftById(100), registry.GetShiftById(200),
                registry.GetShiftById(300), registry.GetShiftById(400)];
  }

  lemma SignedUpForAll(shifts: map<ShiftId, Shift>, rows: set<VolunteerShift>, v: VolunteerId)
    requires shifts.Keys == {1, 2, 3}
    requires VolunteerShift(v, 1) in rows && VolunteerShift(v, 2) in rows && VolunteerShift(v, 3) in rows
    ensures ShiftsOf(shifts, rows, v) == {1, 2, 3}
  {
  }

  lemma AllOfJob(shifts: map<ShiftId, Shift>, j: JobId)
    requires shifts.Keys == {1, 2, 3}
    requires shifts[1].jobId == j && shifts[2].jobId == j && shifts[3].jobId == j
    ensures ShiftsOfJob(shifts, j) == {1, 2, 3}
  {
  }

  /** The list of a volunteer signed up for all three shifts holds those three. */
  method ListSignedUpFor(registry: ShiftRegistry, v: VolunteerId) returns (listed: seq<Shift>)
    requires ThreeShifts(registry) && ShiftsOf(registry.shifts, registry.records, v) == {1, 2, 3}
    ensures |listed| == 3
    ensures registry.shifts[1] in listed && registry.shifts[2] in listed && registry.shifts[3] in listed
  {
    listed := registry.GetShiftsSignedUpFor(v);
    assert registry.IsSignedUp(v, 1) && registry.IsSignedUp(v, 2) && registry.IsSignedUp(v, 3);
    OnceEach(listed, registry.shifts[1], registry.shifts[2], registry.shifts[3]);
  }

  /** The date-ordered list of a job owning all three shifts, dated in id order, is the three
      shifts in id order. */
  method ListOfJob(registry: ShiftRegistry, j: JobId) returns (listed: seq<Shift>)
    requires ThreeShifts(registry) && ShiftsOfJob(registry.shifts, j) == {1, 2, 3}
    requires !OnOrBefore(registry.shifts[2].date, registry.shifts[1].date)
    requires !OnOrBefore(registry.shifts[3].date, registry.shifts[2].date)
    requires !OnOrBefore(registry.shifts[3].date, registry.shifts[1].date)
    ensures listed == [registry.shifts[1], registry.shifts[2], registry.shifts[3]]
  {
    listed := registry.GetShiftsOrderedByDate(j);
    OnceEach(listed, registry.shifts[1], registry.shifts[2], registry.shifts[3]);
    ThreeInDateOrder(listed, registry.shifts[1], registry.shifts[2], registry.shifts[3]);
  }

  /** Three values each occurring once in a list are in it. */
  lemma OnceEach(r: seq<Shift>, a: Shift, b: Shift, c: Shift)
    requires multiset(r)[a] == 1 && multiset(r)[b] == 1 && multiset(r)[c] == 1
    ensures a in r && b in r && c in r
  {
  }

  /** A date-sorted list of three shifts with strictly increasing dates is those three in
      date order. */
  lemma ThreeInDateOrder(r: seq<Shift>, a: Shift, b: Shift, c: Shift)
    requires |r| == 3 && a in r && b in r && c in r
    requires forall i, j :: 0 <= i < j < |r| ==> OnOrBefore(r[i].date, r[j].date)
    requires !OnOrBefore(b.date, a.date) && !OnOrBefore(c.date, b.date) && !OnOrBefore(c.date, a.date)
    ensures r == [a, b, c]
  {
    var ia :| 0 <= ia < 3 && r[ia] == a;
    var ib :| 0 <= ib < 3 && r[ib] == b;
    var ic :| 0 <= ic < 3 && r[ic] == c;
    assert ia < ib && ib < ic;
  }

  /** The shifts of a job dated 2012-1-10, 2012-6-25 and 2012-12-9 are listed in that order. */
  method GetShiftsOrderedByDateScenario() returns (created: seq<Shift>, listed: seq<Shift>)
    ensures |created| == 3
    ensures listed == created
    ensures [listed[0].date, listed[1].date, listed[2].date]
            == [Date(2012, 1, 10), Date(2012, 6, 25), Date(2012, 12, 9)]
  {
    var registry := SetUp(SoftwareDeveloper, Date(2012, 1, 10), Date(2012, 6, 25), Date(2012, 12, 9));
    created := [registry.shifts[1], registry.shifts[2], registry.shifts[3]];
    AllOfJob(registry.shifts, SoftwareDeveloper);
    listed := ListOfJob(registry, SoftwareDeveloper);
  }

  /** After signing up for three shifts of two jobs, the volunteer's list holds exactly those
      three. */
  method GetShiftsSignedUpForScenario() returns (created: seq<Shift>, listed: seq<Shift>)
    ensures |created| == 3
    ensures |listed| == 3
    ensures created[0] in listed && created[1] in listed && created[2] in listed
  {
    var registry := SetUp(SystemsAdministrator, ShiftDay, ShiftDay, ShiftDay);
    created := [registry.shifts[1], registry.shifts[2], registry.shifts[3]];
    var outcomes := RegisterYoshi(registry);
    SignedUpForAll(registry.shifts, registry.records, Yoshi);
    listed := ListSignedUpFor(registry, Yoshi);
  }

  /** The row of each successful registration can be fetched; the over-capacity one cannot. */
  method GetVolunteerShiftByIdScenario()
    returns (fetched: seq<Result<VolunteerShift, Error>>, overCapacity: Result<VolunteerShift, Error>)
    ensures fetched == [Success(VolunteerShift(Yoshi, 1)), Success(VolunteerShift(Yoshi, 2)),
                        Success(VolunteerShift(Yoshi, 3)), Success(VolunteerShift(John, 2)),
                        Success(VolunteerShift(John, 3))]
    ensures overCapacity == Failure(NotFound)
  {
    var registry := SetUp(SystemsAdministrator, ShiftDay, ShiftDay, ShiftDay);
    var yoshi := RegisterYoshi(registry);
    var john := RegisterJohn(registry);
    fetched := [registry.GetVolunteerShiftById(Yoshi, 1), registry.GetVolunteerShiftById(Yoshi, 2),
                registry.GetVolunteerShiftById(Yoshi, 3), registry.GetVolunteerShiftById(John, 2),
                registry.GetVolunteerShiftById(John, 3)];
    overCapacity := registry.GetVolunteerShiftById(John, 1);
  }

  /** Nobody is signed up at first; signing one volunteer up does not sign up the other; a second
      volunteer fits on the shifts with two and four places. */
  method IsSignedUpScenario()
    returns (before: seq<bool>, afterYoshi: seq<bool>, johnBefore: seq<bool>, johnAfter: seq<bool>)
    ensures before == [false, false, false]
    ensures afterYoshi == [true, true, true]
    ensures johnBefore == [false, false, false]
    ensures johnAfter == [false, true, true]
  {
    var registry := SetUp(SystemsAdministrator, ShiftDay, ShiftDay, ShiftDay);
    before := [registry.IsSignedUp(Yoshi, 1), registry.IsSignedUp(Yoshi, 2), registry.IsSignedUp(Yoshi, 3)];
    var yoshi := RegisterYoshi(registry);
    afterYoshi := [registry.IsSignedUp(Yoshi, 1), registry.IsSignedUp(Yoshi, 2), registry.IsSignedUp(Yoshi, 3)];
    johnBefore := [registry.IsSignedUp(John, 1), registry.IsSignedUp(John, 2), registry.IsSignedUp(John, 3)];
    var r2 := registry.Register(John, 2);
    var r3 := registry.Register(John, 3);
    johnAfter := [registry.IsSignedUp(John, 1), registry.IsSignedUp(John, 2), registry.IsSignedUp(John, 3)];
  }

  /** Cancelling right after registering removes the pair again: the registration table is back
      to what it was unless the pair was already there, and then it has lost that one row. */
  method RegisterThenCancel(registry: ShiftRegistry, v: VolunteerId, s: ShiftId)
    returns (outcome: RegisterOutcome, status: Outcome<Error>)
    requires registry.Valid()
    modifies registry
    ensures registry.Valid()
    ensures registry.records == old(registry.records) - {VolunteerShift(v, s)}
    ensures !old(registry.IsSignedUp(v, s)) ==> registry.records == old(registry.records)
    ensures status == Pass <==> outcome == Registered || outcome == AlreadyRegistered
  {
    outcome := registry.Register(v, s);
    status := registry.CancelShiftRegistration(v, s);
  }
}
