/** The flat records the report reads. Only the fields the report uses are
    kept; nested references (`job['departments']`, `application['jobs']`)
    are flattened to the referenced ids. */
module Records {
  import opened Wrappers

  datatype Department = Department(id: int, name: string)

  datatype Job = Job(id: int, departmentIds: seq<int>)

  datatype Application = Application(id: int, candidateId: int, jobIds: seq<int>, status: string)

  /** One question of a scorecard; notes have no id (`None`). */
  datatype Question = Question(id: Option<int>, text: string, answer: string)

  /** One interviewer's evaluation; `submitter` is `submitted_by.name`. */
  datatype Scorecard = Scorecard(
    applicationId: int,
    candidateId: int,
    interview: string,
    recommendation: string,
    submitter: string,
    questions: seq<Question>)

  /** Some application record carries the id `id`. */
  predicate HasApplication(apps: seq<Application>, id: int) {
    exists a :: a in apps && a.id == id
  }

  /** Every id in `ids` names an application. Indexing `applications_by_id`
      with any other id raises `KeyError`. */
  predicate Resolves(apps: seq<Application>, ids: set<int>) {
    forall id :: id in ids ==> HasApplication(apps, id)
  }

  /** `applications_by_id[id]`, where `applications_by_id` is built by a
      dict comprehension over `apps`: of several records with the same id the
      last one wins. */
  function ById(apps: seq<Application>, id: int): (a: Application)
    requires HasApplication(apps, id)
    ensures a in apps && a.id == id
    ensures exists i ::
              && 0 <= i < |apps| && apps[i] == a
              && forall j :: i < j < |apps| ==> apps[j].id != id
  {
    var n := |apps| - 1;
    if apps[n].id == id then apps[n]
    else
      assert apps == apps[..n] + [apps[n]];
      ById(apps[..n], id)
  }

  /** Distinct candidate ids among `cards` (`phone_screen_candidates` etc.). */
  function CandidateIds(cards: seq<Scorecard>): set<int> {
    set s | s in cards :: s.candidateId
  }

  /** Distinct application ids among `cards` (`final_round_applications`). */
  function ApplicationIds(cards: seq<Scorecard>): set<int> {
    set s | s in cards :: s.applicationId
  }
}
