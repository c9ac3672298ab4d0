/** Candidate counts and pass rates per round (greenhouse.py lines 98-111). */
module Funnel {
  import opened Wrappers
  import opened Seqs
  import opened Records
  import opened Stages
  import opened Percent

  /** Distinct candidate ids among the scorecards of `cards` in round `st`,
      whatever order the round lists were built in. */
  ghost function StageCandidates(cards: seq<Scorecard>, st: Stage): set<int> {
    set s | s in cards && StageOf(s.interview) == Some(st) :: s.candidateId
  }

  /** `final_round_applications_not_rejected` (line 104): the ids whose
      application's status is not `rejected`. */
  function NotRejected(apps: seq<Application>, ids: set<int>): (r: set<int>)
    requires Resolves(apps, ids)
    ensures r <= ids
    ensures forall id :: id in ids ==> (id in r <==> ById(apps, id).status != "rejected")
  {
    set id | id in ids && ById(apps, id).status != "rejected"
  }

  /** The funnel section's numbers. Percentages are `None` where the source
      divides by zero. */
  datatype Funnel = Funnel(
    phoneScreens: nat,
    secondRounds: nat,
    finalRounds: nat,
    secondOfPhone: Option<nat>,
    finalOfSecond: Option<nat>,
    finalPassed: Option<nat>)

  /** Line 111 as written: not-rejected final-round APPLICATIONS over
      final-round CANDIDATES, floored. */
  function PassedShareAsWritten(finals: seq<Scorecard>, apps: seq<Application>): (r: Option<nat>)
    requires Resolves(apps, ApplicationIds(finals))
    ensures r.None? <==> finals == []
    ensures FlooredShare(r, |NotRejected(apps, ApplicationIds(finals))|, |CandidateIds(finals)|)
  {
    SeqImageCard(finals);
    FloorPercent(|NotRejected(apps, ApplicationIds(finals))|, |CandidateIds(finals)|)
  }

  /** Two hired applications of candidate 7. */
  const TwoHired: seq<Application> := [Application(1, 7, [], "hired"), Application(2, 7, [], "hired")]

  /** A final-round scorecard for each of them. */
  const TwoFinals: seq<Scorecard> := [Scorecard(1, 7, FinalInterview, "yes", "x", []),
                                      Scorecard(2, 7, FinalInterview, "yes", "x", [])]

  lemma TwoFinalsIds()
    ensures ApplicationIds(TwoFinals) == {1, 2} && CandidateIds(TwoFinals) == {7}
  {
    assert TwoFinals[0] in TwoFinals && TwoFinals[1] in TwoFinals;
  }

  lemma TwoHiredKept()
    ensures Resolves(TwoHired, {1, 2}) && NotRejected(TwoHired, {1, 2}) == {1, 2}
  {
    assert TwoHired[0] in TwoHired && TwoHired[1] in TwoHired;
    assert TwoHired[1..][0] == TwoHired[1];
    assert ById(TwoHired, 1).status == "hired" && ById(TwoHired, 2).status == "hired";
  }

  /** One candidate with two hired applications that both reached the final
      round: line 111 reports 200%. */
  lemma PassedShareCanExceedWhole()
    ensures Resolves(TwoHired, ApplicationIds(TwoFinals)) && PassedShareAsWritten(TwoFinals, TwoHired) == Some(200)
  {
    TwoFinalsIds();
    TwoHiredKept();
    assert |{1, 2}| == 2 && |{7}| == 1;
  }

  /** The share the line evidently means: not-rejected final-round
      applications over all final-round applications; never above 100. */
  function PassedShare(finals: seq<Scorecard>, apps: seq<Application>): (r: Option<nat>)
    requires Resolves(apps, ApplicationIds(finals))
    ensures r.None? <==> finals == []
    ensures r.Some? ==> r.value <= 100
    ensures FlooredShare(r, |NotRejected(apps, ApplicationIds(finals))|, |ApplicationIds(finals)|)
  {
    var ids := ApplicationIds(finals);
    assert |finals| > 0 ==> finals[0].applicationId in ids;
    var kept := NotRejected(apps, ids);
    assert |kept| <= |ids| by { SubsetCard(kept, ids); }
    FloorPercent(|kept|, |ids|)
  }

  /** Lines 99-111 as written: the two stage-to-stage percentages go through
      `math.floor(... + 0.5)` on an integer quotient, so they are floored,
      and the passed share divides by the final-round candidates. */
  function ComputeFunnel(b: Buckets, apps: seq<Application>): (f: Funnel)
    requires Resolves(apps, ApplicationIds(b.final))
    ensures f.phoneScreens == |CandidateIds(b.phone)|
    ensures f.secondRounds == |CandidateIds(b.second)|
    ensures f.finalRounds == |CandidateIds(b.final)|
    ensures FlooredShare(f.secondOfPhone, f.secondRounds, f.phoneScreens)
    ensures FlooredShare(f.finalOfSecond, f.finalRounds, f.secondRounds)
    ensures FlooredShare(f.finalPassed, |NotRejected(apps, ApplicationIds(b.final))|, f.finalRounds)
  {
    var phone, second, final := CandidateIds(b.phone), CandidateIds(b.second), CandidateIds(b.final);
    Funnel(|phone|, |second|, |final|,
           HalfAdjustedAsWritten(|second|, |phone|),
           HalfAdjustedAsWritten(|final|, |second|),
           PassedShareAsWritten(b.final, apps))
  }

  /** Lines 99-111 as evidently intended: the stage-to-stage percentages
      rounded half up, and the passed share taken over the final-round
      applications, so it never exceeds 100. */
  function ComputeFunnelIntended(b: Buckets, apps: seq<Application>): (f: Funnel)
    requires Resolves(apps, ApplicationIds(b.final))
    ensures f.phoneScreens == |CandidateIds(b.phone)|
    ensures f.secondRounds == |CandidateIds(b.second)|
    ensures f.finalRounds == |CandidateIds(b.final)|
    ensures RoundedShare(f.secondOfPhone, f.secondRounds, f.phoneScreens)
    ensures RoundedShare(f.finalOfSecond, f.finalRounds, f.secondRounds)
    ensures FlooredShare(f.finalPassed, |NotRejected(apps, ApplicationIds(b.final))|, |ApplicationIds(b.final)|)
    ensures f.finalPassed.Some? ==> f.finalPassed.value <= 100
  {
    var phone, second, final := CandidateIds(b.phone), CandidateIds(b.second), CandidateIds(b.final);
    Funnel(|phone|, |second|, |final|,
           RoundHalfUp(|second|, |phone|),
           RoundHalfUp(|final|, |second|),
           PassedShare(b.final, apps))
  }

  /** The corrected funnel reports the same counts as the script, and each
      stage-to-stage percentage is the printed one or one point more. */
  lemma IntendedNearAsWritten(b: Buckets, apps: seq<Application>)
    requires Resolves(apps, ApplicationIds(b.final))
    ensures var printed, intended := ComputeFunnel(b, apps), ComputeFunnelIntended(b, apps);
            && intended.phoneScreens == printed.phoneScreens
            && intended.secondRounds == printed.secondRounds
            && intended.finalRounds == printed.finalRounds
            && NearFloor(printed.secondOfPhone, intended.secondOfPhone)
            && NearFloor(printed.finalOfSecond, intended.finalOfSecond)
  {
    var phone, second, final := |CandidateIds(b.phone)|, |CandidateIds(b.second)|, |CandidateIds(b.final)|;
    if phone > 0 {
      RoundHalfUpNearFloor(second, phone);
    }
    if second > 0 {
      RoundHalfUpNearFloor(final, second);
    }
  }

  /** Both percentages are absent, or `rounded` is `floored` or one more. */
  predicate NearFloor(floored: Option<nat>, rounded: Option<nat>) {
    && floored.None? == rounded.None?
    && (floored.Some? ==> floored.value <= rounded.value <= floored.value + 1)
  }

  /** A non-empty list has at least one and at most as many distinct
      candidates as scorecards. */
  lemma {:induction false} SeqImageCard(cards: seq<Scorecard>)
    ensures |CandidateIds(cards)| <= |cards|
    ensures |CandidateIds(cards)| == 0 <==> cards == []
  {
    if |cards| > 0 {
      var rest := cards[1..];
      assert cards == [cards[0]] + rest;
      SeqImageCard(rest);
      assert CandidateIds(cards) == {cards[0].candidateId} + CandidateIds(rest);
      assert cards[0].candidateId in CandidateIds(cards);
    }
  }

  /** The funnel counts distinct candidates per round directly from the
      developer scorecards: the order in which the interview names were
      visited does not matter. */
  lemma FunnelCountsCandidatesPerRound(dev: seq<Scorecard>, types: seq<string>, apps: seq<Application>)
    requires Enumerates(types, dev)
    requires Resolves(apps, ApplicationIds(Bucketize(dev, types).final))
    ensures var f := ComputeFunnel(Bucketize(dev, types), apps);
            && f.phoneScreens == |StageCandidates(dev, PhoneScreen)|
            && f.secondRounds == |StageCandidates(dev, SecondRound)|
            && f.finalRounds == |StageCandidates(dev, FinalRound)|
  {
    RoundCandidates(dev, types, PhoneScreen);
    RoundCandidates(dev, types, SecondRound);
    RoundCandidates(dev, types, FinalRound);
  }

  /** A round's list has the candidates of that round's scorecards. */
  lemma RoundCandidates(dev: seq<Scorecard>, types: seq<string>, st: Stage)
    requires Enumerates(types, dev)
    ensures CandidateIds(Bucket(dev, types, st)) == StageCandidates(dev, st)
  {
    var b := Bucket(dev, types, st);
    forall cid | cid in StageCandidates(dev, st)
      ensures cid in CandidateIds(b)
    {
      var s :| s in dev && StageOf(s.interview) == Some(st) && s.candidateId == cid;
      assert s in b;
    }
  }
}
