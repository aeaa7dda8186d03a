/** Scenarios for the job service: deleting a job twice, and listing two jobs whose titles
    were saved out of order. */
module JobExamples {
  import opened Wrappers
  import opened Calendar
  import Text
  import opened JobServices

  const Start := Date(2012, 10, 22)
  const End := Date(2012, 10, 23)

  /** Deleting a job succeeds once and then reports that there is nothing to delete; the other
      job is still found, and a job saved afterwards does not get the deleted job's key. */
  method DeleteJobScenario()
    returns (first: bool, second: bool, gone: Option<Job>, kept: Option<Job>, deletedId: JobId, laterId: JobId)
    ensures first && !second
    ensures gone == None
    ensures kept.Some? && kept.value.name == "Systems Administrator"
    ensures laterId != deletedId
  {
    var store := new JobStore();
    var developer := store.CreateJob("Software Developer", Start, End, "A software job", 1);
    var administrator := store.CreateJob("Systems Administrator", Start, End, "A systems job", 1);
    first := store.DeleteJob(developer.id);
    second := store.DeleteJob(developer.id);
    gone := store.GetJobById(developer.id);
    kept := store.GetJobById(administrator.id);
    deletedId := developer.id;
    var later := store.CreateJob("Software Developer", Start, End, "A software job", 1);
    laterId := later.id;
  }

  /** "Software Developer" sorts before "Systems Administrator", and not the other way round. */
  lemma TitlesInOrder()
    ensures Text.LessOrEqual("Software Developer", "Systems Administrator")
    ensures !Text.LessOrEqual("Systems Administrator", "Software Developer")
  {
    var a, b := "Software Developer", "Systems Administrator";
    assert a[0] == b[0] && a[1] < b[1];
    assert a[1..][0] < b[1..][0];
  }

  /** A name-ordered list of two jobs whose names are strictly ordered is those two in order. */
  lemma TwoInNameOrder(r: seq<Job>, a: Job, b: Job)
    requires |r| == 2 && a in r && b in r
    requires forall i, j :: 0 <= i < j < |r| ==> Text.LessOrEqual(r[i].name, r[j].name)
    requires !Text.LessOrEqual(b.name, a.name)
    ensures r == [a, b]
  {
    var ia :| 0 <= ia < 2 && r[ia] == a;
    var ib :| 0 <= ib < 2 && r[ib] == b;
    Text.LessOrEqualTotal(a.name, a.name);
    assert ia < ib;
  }

  /** Jobs saved as "Systems Administrator" then "Software Developer" are listed by title. */
  method OrderedByTitleScenario() returns (listed: seq<Job>)
    ensures |listed| == 2
    ensures listed[0].name == "Software Developer" && listed[1].name == "Systems Administrator"
  {
    var store := new JobStore();
    var administrator := store.CreateJob("Systems Administrator", Start, End, "A systems job", 1);
    var developer := store.CreateJob("Software Developer", Start, End, "A software job", 1);
    listed := store.GetJobsOrderedByTitle();
    assert store.jobs.Keys == {administrator.id, developer.id};
    assert multiset(listed)[store.jobs[developer.id]] == 1;
    assert multiset(listed)[store.jobs[administrator.id]] == 1;
    TitlesInOrder();
    TwoInNameOrder(listed, developer, administrator);
  }

  /** Deleting the job just saved puts the table back as it was and reports success. */
  method CreateThenDelete(store: JobStore, name: string, description: string, eventId: EventId)
    returns (job: Job, deleted: bool)
    requires store.Valid()
    modifies store
    ensures store.Valid()
    ensures deleted
    ensures store.jobs == old(store.jobs)
    ensures store.GetJobById(job.id) == None
  {
    job := store.CreateJob(name, Start, End, description, eventId);
    deleted := store.DeleteJob(job.id);
  }
}
