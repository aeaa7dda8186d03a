/** The job lookup service: fetch by id, delete, and the title-ordered listing, over the table of
    jobs keyed by primary key. */
module JobServices {
  import opened Wrappers
  import opened Sorting
  import opened Store
  import Text
  import opened Calendar

  type JobId = int
  type EventId = int

  /** A job record; `id` is its primary key and `eventId` the event it belongs to. */
  datatype Job = Job(id: JobId, name: string, startDate: Date, endDate: Date,
                     description: string, eventId: EventId)

  function JobKey(job: Job): JobId
  {
    job.id
  }

  /** The order of `order_by('name')`. */
  predicate ByName(a: Job, b: Job)
  {
    Text.LessOrEqual(a.name, b.name)
  }

  lemma ByNameIsTotalPreorder()
    ensures IsTotalPreorder(ByName)
  {
    forall a: Job, b: Job ensures ByName(a, b) || ByName(b, a) {
      Text.LessOrEqualTotal(a.name, b.name);
    }
    forall a: Job, b: Job, c: Job | ByName(a, b) && ByName(b, c) ensures ByName(a, c) {
      Text.LessOrEqualTransitive(a.name, b.name, c.name);
    }
  }

  lemma SortedByNameOrdersNames(r: seq<Job>)
    requires SortedBy(r, ByName)
    ensures forall i, j :: 0 <= i < j < |r| ==> Text.LessOrEqual(r[i].name, r[j].name)
  {
    forall i, j | 0 <= i < j < |r| ensures Text.LessOrEqual(r[i].name, r[j].name) {
      assert ByName(r[i], r[j]);
    }
  }

  /** The table of jobs. */
  class JobStore {
    var jobs: map<JobId, Job>
    /** The next primary key the table hands out. */
    var nextId: JobId

    /** Every job is stored under its own primary key, and keys come from the sequence. */
    ghost predicate Valid()
      reads this
    {
      forall k :: k in jobs ==> jobs[k].id == k && k < nextId
    }

    constructor ()
      ensures Valid()
      ensures jobs == map[] && nextId == 1
    {
      jobs := map[];
      nextId := 1;
    }

    /** Saving a new job: it receives a fresh primary key. */
    method CreateJob(name: string, startDate: Date, endDate: Date, description: string,
                     eventId: EventId) returns (job: Job)
      requires Valid()
      modifies this
      ensures Valid()
      ensures job == Job(old(nextId), name, startDate, endDate, description, eventId)
      ensures nextId == old(nextId) + 1
      ensures job.id !in old(jobs)
      ensures jobs == old(jobs)[job.id := job]
      ensures GetJobById(job.id) == Some(job)
    {
      job := Job(nextId, name, startDate, endDate, description, eventId);
      jobs := jobs[nextId := job];
      nextId := nextId + 1;
    }

    /** The job stored under `id`, or None when there is none. */
    function GetJobById(id: JobId): (r: Option<Job>)
      reads this
      ensures r.Some? <==> id in jobs
      ensures r.Some? ==> r.value == jobs[id]
    {
      if id in jobs then Some(jobs[id]) else None
    }

    /** Deletes the job stored under `id`; false when there is none. */
    method DeleteJob(id: JobId) returns (result: bool)
      requires Valid()
      modifies this
      ensures Valid()
      ensures result <==> id in old(jobs)
      ensures jobs == old(jobs) - {id}
      ensures nextId == old(nextId)
      ensures GetJobById(id) == None
      ensures forall k :: k != id ==> GetJobById(k) == old(GetJobById(k))
    {
      result := true;
      var job := GetJobById(id);
      if job.Some? {
        jobs := jobs - {id};
      } else {
        result := false;
        assert jobs == jobs - {id};
      }
    }

    /** All jobs, ordered by name. */
    function GetJobsOrderedByTitle(): (r: seq<Job>)
      reads this
      requires Valid()
      ensures forall i, j :: 0 <= i < j < |r| ==> Text.LessOrEqual(r[i].name, r[j].name)
      ensures forall x :: x in r ==> x.id in jobs && jobs[x.id] == x
      ensures forall k :: k in jobs ==> multiset(r)[jobs[k]] == 1
      ensures |r| == |jobs|
    {
      var table := jobs;
      ByNameIsTotalPreorder();
      var all := Lookup(table, SortedKeys(table.Keys));
      var r := InsertionSort(all, ByName);
      TableListing(table, JobKey, table.Keys, r);
      SortedByNameOrdersNames(r);
      r
    }
  }
}
