/** The whole analysis: from the fetched records to the numbers of every
    report section (greenhouse.py lines 63-199). */
module Report {
  import opened Wrappers
  import opened Records
  import opened Scope
  import opened Stages
  import opened Funnel
  import SecondRound
  import opened FinalRound
  import opened Calibration
  import opened PhoneScreen
  import opened Sorting
  import opened Percent

  /** Everything the script prints, before formatting. */
  datatype Summary = Summary(
    funnel: Funnel,
    questions: Tally,
    secondRound: SecondRound.Report,
    finalRows: seq<Row>,
    interviewers: map<string, InterviewerStats>)

  /** `final_round_candidates_not_rejected` (line 144): the candidates of
      the final-round applications that were not rejected. */
  function KeptCandidates(apps: seq<Application>, ids: set<int>): (r: set<int>)
    requires Resolves(apps, ids)
    ensures forall id :: id in ids && ById(apps, id).status != "rejected" ==> ById(apps, id).candidateId in r
    ensures forall c :: c in r ==> exists id :: id in ids && ById(apps, id).status != "rejected" && ById(apps, id).candidateId == c
  {
    set id | id in NotRejected(apps, ids) :: ById(apps, id).candidateId
  }

  /** Scorecards drawn from a list whose application ids resolve keep
      resolving. */
  lemma ResolvesSubset(apps: seq<Application>, part: seq<Scorecard>, whole: seq<Scorecard>)
    requires Resolves(apps, ApplicationIds(whole))
    requires forall s :: s in part ==> s in whole
    ensures Resolves(apps, ApplicationIds(part))
  {
    forall id | id in ApplicationIds(part)
      ensures HasApplication(apps, id)
    {
      var s :| s in part && s.applicationId == id;
      assert id in ApplicationIds(whole);
    }
  }

  /** The funnel counts the candidates of each round and the calibration
      lists every interviewer who submitted a Dev scorecard. */
  ghost predicate Counted(r: Summary, dev: seq<Scorecard>) {
    && r.funnel.phoneScreens == |StageCandidates(dev, PhoneScreen)|
    && r.funnel.secondRounds == |StageCandidates(dev, SecondRound)|
    && r.funnel.finalRounds == |StageCandidates(dev, FinalRound)|
    && (forall name :: name in r.interviewers <==> Submitted(dev, name, AnyRound))
  }

  /** The percentages as printed: the stage-to-stage funnel shares and every
      second-round share are floored, the second-round outcomes add up to
      its total, and each interviewer's overall line is the pass rate and
      count of all their results. */
  ghost predicate AsPrinted(r: Summary, dev: seq<Scorecard>) {
    && FlooredShare(r.funnel.secondOfPhone, r.funnel.secondRounds, r.funnel.phoneScreens)
    && FlooredShare(r.funnel.finalOfSecond, r.funnel.finalRounds, r.funnel.secondRounds)
    && r.funnel.finalPassed.None? == (r.funnel.finalRounds == 0)
    && r.secondRound.passedBoth + r.secondRound.failedBoth + r.secondRound.disagreed == r.secondRound.total
    && FlooredShare(r.secondRound.passedPercent, r.secondRound.passedBoth, r.secondRound.total)
    && FlooredShare(r.secondRound.failedPercent, r.secondRound.failedBoth, r.secondRound.total)
    && FlooredShare(r.secondRound.disagreedPercent, r.secondRound.disagreed, r.secondRound.total)
    && (forall name :: name in r.interviewers ==> Describes(r.interviewers[name].overall, ResultsBy(dev, name, AnyRound)))
  }

  /** The round lists the analysis builds from the developer scorecards. */
  function RoundLists(dev: seq<Scorecard>): (b: Buckets)
    ensures InOwnRound(b)
  {
    Bucketize(dev, InterviewTypes(dev))
  }

  /** The final rows are the rows of the final-round applications, and the
      shares that depend on final-round outcomes (lines 111, 151 and 152)
      are the floored shares of their counts. */
  ghost predicate Outcomes(r: Summary, dev: seq<Scorecard>, apps: seq<Application>)
    requires Resolves(apps, ApplicationIds(dev))
  {
    var b := RoundLists(dev);
    ResolvesSubset(apps, b.final, dev);
    var finalApps := ApplicationIds(b.final);
    && multiset(r.finalRows) == multiset(UnsortedRows(b.final, apps))
    && FlooredShare(r.funnel.finalPassed, |NotRejected(apps, finalApps)|, r.funnel.finalRounds)
    && SecondRound.FlooredShares(r.secondRound, SecondRound.Classify(SecondRound.TechnicalResults(b.second)),
                                 CandidateIds(b.final), KeptCandidates(apps, finalApps))
  }

  /** Every section of lines 80-199 as written, from the developer
      scorecards: percentages are floored where the script floors them. */
  function Sections(dev: seq<Scorecard>, apps: seq<Application>): (r: Summary)
    requires Resolves(apps, ApplicationIds(dev))
    ensures Counted(r, dev)
    ensures AsPrinted(r, dev)
    ensures Outcomes(r, dev, apps)
    ensures SecondRound.WellFormed(r.secondRound)
    ensures SortedBy(r.finalRows, ByResults())
  {
    var types := InterviewTypes(dev);
    var b := RoundLists(dev);
    ResolvesSubset(apps, b.final, dev);
    FunnelCountsCandidatesPerRound(dev, types, apps);
    var finalApps := ApplicationIds(b.final);
    Summary(
      ComputeFunnel(b, apps),
      PhoneScreenQuestions(b.phone),
      SecondRound.Analyze(b.second, CandidateIds(b.final), KeptCandidates(apps, finalApps)),
      FinalRows(b.final, apps),
      Interviewers(dev))
  }

  /** The analysis of lines 63-199 on one snapshot of the records. It fails
      only when no department is named `tech`; the lookups of
      `applications_by_id` cannot fail, because every scorecard kept belongs
      to a fetched application. */
  function Analyze(ds: seq<Department>, jobs: seq<Job>, apps: seq<Application>, cards: seq<Scorecard>)
    : (r: Result<Summary, Error>)
    ensures r.Failure? <==> forall i :: 0 <= i < |ds| ==> !IsTech(ds[i])
    ensures r.Success? ==> DevScorecards(ds, jobs, apps, cards).Success?
    ensures r.Success? ==> Counted(r.value, DevScorecards(ds, jobs, apps, cards).value)
    ensures r.Success? ==> AsPrinted(r.value, DevScorecards(ds, jobs, apps, cards).value)
    ensures r.Success? ==> Outcomes(r.value, DevScorecards(ds, jobs, apps, cards).value, apps)
    ensures r.Success? ==> SecondRound.WellFormed(r.value.secondRound)
    ensures r.Success? ==> SortedBy(r.value.finalRows, ByResults())
  {
    var dev :- DevScorecards(ds, jobs, apps, cards);
    Success(Sections(dev, apps))
  }
}
