/** Narrowing the fetched records to the developer interviews of the tech
    department (greenhouse.py lines 63-79). */
module Scope {
  import opened Wrappers
  import opened Text
  import opened Seqs
  import opened Records

  /** `next(...)` finds no department named `tech` and raises `StopIteration`. */
  datatype Error = NoTechDepartment

  /** The department's lower-cased name is `tech`. */
  predicate IsTech(d: Department) {
    Lower(d.name) == "tech"
  }

  /** Index `i` holds the first department named `tech`. */
  predicate FirstTechAt(ds: seq<Department>, i: int) {
    && 0 <= i < |ds|
    && IsTech(ds[i])
    && forall j :: 0 <= j < i ==> !IsTech(ds[j])
  }

  /** Position of the first department named `tech`, if any. */
  function FirstTechIndex(ds: seq<Department>): (r: Option<nat>)
    ensures r.Some? ==> FirstTechAt(ds, r.value)
    ensures r.None? ==> forall i :: 0 <= i < |ds| ==> !IsTech(ds[i])
  {
    if |ds| == 0 then None
    else if IsTech(ds[0]) then Some(0)
    else
      match FirstTechIndex(ds[1..])
      case None => None
      case Some(i) => Some(i + 1)
  }

  /** `tech_department_id`: the id of the first department named `tech`;
      failing when there is none. */
  function TechDepartmentId(ds: seq<Department>): (r: Result<int, Error>)
    ensures r.Failure? <==> forall i :: 0 <= i < |ds| ==> !IsTech(ds[i])
    ensures r.Success? ==> exists i :: FirstTechAt(ds, i) && ds[i].id == r.value
  {
    match FirstTechIndex(ds)
    case None => Failure(NoTechDepartment)
    case Some(i) => Success(ds[i].id)
  }

  /** `tech_job_ids`: ids of the jobs that list department `dept`. */
  function TechJobIds(jobs: seq<Job>, dept: int): set<int> {
    set j | j in jobs && dept in j.departmentIds :: j.id
  }

  /** `tech_application_ids`: ids of the applications sharing a job id with
      `jobIds`. */
  function TechApplicationIds(apps: seq<Application>, jobIds: set<int>): set<int> {
    set a | a in apps && (exists k :: k in a.jobIds && k in jobIds) :: a.id
  }

  /** The scorecard's application lists a job that lists department `dept`. */
  ghost predicate BelongsTo(s: Scorecard, dept: int, jobs: seq<Job>, apps: seq<Application>) {
    exists a, j :: a in apps && j in jobs && a.id == s.applicationId && j.id in a.jobIds && dept in j.departmentIds
  }

  /** The filter of line 79: the interview name starts with `Dev ` and does
      not mention `Application Review`. */
  predicate IsDev(interview: string) {
    StartsWith(interview, "Dev ") && !Contains(interview, "Application Review")
  }

  /** `kept` holds exactly the developer interviews of department `dept`
      among `cards`. */
  ghost predicate Selects(kept: seq<Scorecard>, cards: seq<Scorecard>, dept: int, jobs: seq<Job>, apps: seq<Application>) {
    forall s :: s in kept <==> s in cards && IsDev(s.interview) && BelongsTo(s, dept, jobs, apps)
  }

  /** `kept` holds every developer interview of department `dept` as often
      as `cards` does, and nothing else. */
  ghost predicate SelectsAll(kept: seq<Scorecard>, cards: seq<Scorecard>, dept: int, jobs: seq<Job>, apps: seq<Application>) {
    forall s :: multiset(kept)[s] == if IsDev(s.interview) && BelongsTo(s, dept, jobs, apps) then multiset(cards)[s] else 0
  }

  /** `dev_scorecards`: the scorecards of tech applications whose interview
      is a developer interview, in their original order. */
  function DevScorecards(ds: seq<Department>, jobs: seq<Job>, apps: seq<Application>, cards: seq<Scorecard>)
    : (r: Result<seq<Scorecard>, Error>)
    ensures r.Failure? <==> forall i :: 0 <= i < |ds| ==> !IsTech(ds[i])
    ensures r.Success? ==> exists i :: FirstTechAt(ds, i) && SelectsAll(r.value, cards, ds[i].id, jobs, apps)
    // The next two follow from the one above: the set-level view and the
    // bound by the input, stated for readers.
    ensures r.Success? ==> exists i :: FirstTechAt(ds, i) && Selects(r.value, cards, ds[i].id, jobs, apps)
    ensures r.Success? ==> multiset(r.value) <= multiset(cards)
    ensures r.Success? ==> Resolves(apps, ApplicationIds(r.value))
  {
    var dept :- TechDepartmentId(ds);
    var appIds := TechApplicationIds(apps, TechJobIds(jobs, dept));
    var tech := Filter(cards, (s: Scorecard) => s.applicationId in appIds);
    var dev := Filter(tech, (s: Scorecard) => IsDev(s.interview));
    DevSelectsAll(cards, dept, jobs, apps);
    Success(dev)
  }

  /** The two filters of lines 76 and 79 keep every developer interview of
      department `dept` as often as it occurs. */
  lemma DevSelectsAll(cards: seq<Scorecard>, dept: int, jobs: seq<Job>, apps: seq<Application>)
    ensures var appIds := TechApplicationIds(apps, TechJobIds(jobs, dept));
            var tech := Filter(cards, (s: Scorecard) => s.applicationId in appIds);
            SelectsAll(Filter(tech, (s: Scorecard) => IsDev(s.interview)), cards, dept, jobs, apps)
  {
    var appIds := TechApplicationIds(apps, TechJobIds(jobs, dept));
    var tech := Filter(cards, (s: Scorecard) => s.applicationId in appIds);
    var dev := Filter(tech, (s: Scorecard) => IsDev(s.interview));
    forall s: Scorecard
      ensures multiset(dev)[s] == if IsDev(s.interview) && BelongsTo(s, dept, jobs, apps) then multiset(cards)[s] else 0
    {
      FilterCount(tech, (s: Scorecard) => IsDev(s.interview), s);
      FilterCount(cards, (s: Scorecard) => s.applicationId in appIds, s);
      TechIdsBelong(s, dept, jobs, apps);
    }
  }

  /** A scorecard's application id is one of the tech application ids
      exactly when the scorecard belongs to the department. */
  lemma TechIdsBelong(s: Scorecard, dept: int, jobs: seq<Job>, apps: seq<Application>)
    ensures s.applicationId in TechApplicationIds(apps, TechJobIds(jobs, dept)) <==> BelongsTo(s, dept, jobs, apps)
  {
    if BelongsTo(s, dept, jobs, apps) {
      var a, j :| a in apps && j in jobs && a.id == s.applicationId && j.id in a.jobIds && dept in j.departmentIds;
      assert j.id in TechJobIds(jobs, dept);
    }
  }
}
