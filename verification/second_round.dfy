/** How often the two technical second-round interviews of a candidate
    disagree (greenhouse.py lines 131-152). */
module SecondRound {
  import opened Wrappers
  import opened Seqs
  import opened Text
  import opened Records
  import opened Recommendation
  import opened Percent

  /** The pattern `non.technical` matches at index `i`; `.` matches any
      character but a newline. */
  predicate NonTechnicalAt(s: string, i: int) {
    && 0 <= i && i + 13 <= |s|
    && s[i..i + 3] == "non" && s[i + 3] != '\n' && s[i + 4..i + 13] == "technical"
  }

  predicate MentionsNonTechnical(s: string) {
    exists i | 0 <= i <= |s| - 13 :: NonTechnicalAt(s, i)
  }

  /** The scorecard's lower-cased interview name does not match
      `non.technical`. */
  predicate IsTechnical(s: Scorecard) {
    !MentionsNonTechnical(Lower(s.interview))
  }

  /** Line 134 drops every interview whose name mentions `non technical`
      with any one separator, in any letter case. */
  lemma NonTechnicalSpellings(s: Scorecard, i: int)
    requires At(Lower(s.interview), "non-technical", i) || At(Lower(s.interview), "non technical", i)
          || At(Lower(s.interview), "non_technical", i)
    ensures !IsTechnical(s)
  {
    var name := Lower(s.interview);
    assert name[i..i + 3] == name[i..i + 13][..3];
    assert name[i + 4..i + 13] == name[i..i + 13][4..];
    assert name[i + 3] == name[i..i + 13][3];
    assert NonTechnicalAt(name, i);
  }

  /** Reference definition: the result characters of candidate `cid`'s
      technical scorecards, in list order. */
  function ResultsOf(cards: seq<Scorecard>, cid: int): (r: string)
    ensures IsBinary(r) && |r| <= |cards|
    ensures (forall s :: s in cards && IsTechnical(s) ==> s.candidateId != cid) ==> r == ""
  {
    if |cards| == 0 then ""
    else
      var n := |cards| - 1;
      var s := cards[n];
      assert forall x :: x in cards[..n] ==> x in cards;
      ResultsOf(cards[..n], cid) + (if IsTechnical(s) && s.candidateId == cid then BinaryResult(s.recommendation) else "")
  }

  /** One iteration of lines 133-139: a technical scorecard appends its
      result to its candidate's string, starting from the empty string. */
  function AddResult(m: map<int, string>, s: Scorecard): (m': map<int, string>)
    ensures forall cid :: cid in m' <==> cid in m || (IsTechnical(s) && s.candidateId == cid)
    ensures forall cid :: cid in m' ==>
      m'[cid] == (if cid in m then m[cid] else "") + (if IsTechnical(s) && s.candidateId == cid then BinaryResult(s.recommendation) else "")
  {
    if IsTechnical(s) then
      var before := if s.candidateId in m then m[s.candidateId] else "";
      m[s.candidateId := before + BinaryResult(s.recommendation)]
    else m
  }

  /** `technical_second_round_results`: one pass over the second-round
      scorecards appending each technical scorecard's result to its
      candidate's string. */
  function TechnicalResults(cards: seq<Scorecard>): (m: map<int, string>)
    ensures forall cid :: cid in m <==> exists s :: s in cards && IsTechnical(s) && s.candidateId == cid
    ensures forall cid :: cid in m ==> m[cid] == ResultsOf(cards, cid)
    ensures AllBinary(m)
  {
    if |cards| == 0 then map[]
    else
      var n := |cards| - 1;
      var s := cards[n];
      assert forall x :: x in cards <==> x in cards[..n] || x == s by {
        assert cards == cards[..n] + [s];
      }
      AddResult(TechnicalResults(cards[..n]), s)
  }

  /** The three outcomes of line 140-143 and the number of candidates with
      exactly two technical results. */
  datatype Agreement = Agreement(passedBoth: set<int>, failedBoth: set<int>, disagreed: set<int>, total: nat)

  predicate AllBinary(m: map<int, string>) {
    forall cid :: cid in m ==> IsBinary(m[cid])
  }

  /** Lines 140-143. */
  function Classify(m: map<int, string>): (a: Agreement)
    ensures a.passedBoth !! a.failedBoth && a.passedBoth !! a.disagreed && a.failedBoth !! a.disagreed
    ensures forall cid :: cid in a.passedBoth + a.failedBoth + a.disagreed ==> cid in m && |m[cid]| == 2
    ensures forall cid :: cid in a.passedBoth <==> cid in m && m[cid] == "11"
    ensures forall cid :: cid in a.failedBoth <==> cid in m && m[cid] == "00"
    ensures forall cid :: cid in a.disagreed <==> cid in m && m[cid] in ["01", "10"]
    ensures a.total == |set cid | cid in m && |m[cid]| == 2|
    ensures AllBinary(m) ==> |a.passedBoth| + |a.failedBoth| + |a.disagreed| == a.total
  {
    var passed := set cid | cid in m && m[cid] == "11";
    var failed := set cid | cid in m && m[cid] == "00";
    var disagreed := set cid | cid in m && m[cid] in ["01", "10"];
    var pairs := set cid | cid in m && |m[cid]| == 2;
    OutcomesDisjoint(m, passed, failed, disagreed, pairs);
    PairsPartition(m, passed, failed, disagreed, pairs);
    Agreement(passed, failed, disagreed, |pairs|)
  }

  /** The three outcomes are disjoint sets of candidates with two results. */
  lemma OutcomesDisjoint(m: map<int, string>, passed: set<int>, failed: set<int>, disagreed: set<int>, pairs: set<int>)
    requires passed == set cid | cid in m && m[cid] == "11"
    requires failed == set cid | cid in m && m[cid] == "00"
    requires disagreed == set cid | cid in m && m[cid] in ["01", "10"]
    requires pairs == set cid | cid in m && |m[cid]| == 2
    ensures passed !! failed && passed !! disagreed && failed !! disagreed
    ensures passed + failed + disagreed <= pairs
  {
    assert "11" != "00" && "11" != "01" && "11" != "10" && "00" != "01" && "00" != "10";
  }

  /** A string of two result characters is one of the four pairs. */
  lemma TwoResults(r: string)
    requires IsBinary(r) && |r| == 2
    ensures r == "11" || r == "00" || r in ["01", "10"]
  {
    assert r == [r[0], r[1]];
  }

  /** For binary results the three outcomes split the pairs. */
  lemma PairsPartition(m: map<int, string>, passed: set<int>, failed: set<int>, disagreed: set<int>, pairs: set<int>)
    requires passed == set cid | cid in m && m[cid] == "11"
    requires failed == set cid | cid in m && m[cid] == "00"
    requires disagreed == set cid | cid in m && m[cid] in ["01", "10"]
    requires pairs == set cid | cid in m && |m[cid]| == 2
    ensures AllBinary(m) ==> |passed| + |failed| + |disagreed| == |pairs|
  {
    if !AllBinary(m) {
      return;
    }
    OutcomesDisjoint(m, passed, failed, disagreed, pairs);
    forall cid | cid in pairs
      ensures cid in passed + failed + disagreed
    {
      TwoResults(m[cid]);
    }
    assert pairs == passed + failed + disagreed;
    assert |passed + failed| == |passed| + |failed|;
  }

  /** The second-round section's numbers; percentages are `None` where the
      source divides by zero. */
  datatype Report = Report(
    total: nat,
    passedBoth: nat,
    failedBoth: nat,
    disagreed: nat,
    passedPercent: Option<nat>,
    failedPercent: Option<nat>,
    disagreedPercent: Option<nat>,
    reachedFinal: Option<nat>,
    rejected: Option<nat>)

  /** A percentage that is either absent or at most 100. */
  predicate AtMostWhole(p: Option<nat>) {
    p.Some? ==> p.value <= 100
  }

  /** The three shares of the total are absent together, and so are the two
      shares of the disagreements; none exceeds 100. */
  predicate WellFormed(r: Report) {
    && r.failedPercent.None? == r.passedPercent.None? && r.disagreedPercent.None? == r.passedPercent.None?
    && r.rejected.None? == r.reachedFinal.None?
    && AtMostWhole(r.passedPercent) && AtMostWhole(r.failedPercent) && AtMostWhole(r.disagreedPercent)
    && AtMostWhole(r.reachedFinal) && AtMostWhole(r.rejected)
  }

  /** Reference definition: the candidates of `second` whose technical
      result string is one of `results`. */
  function Outcome(second: seq<Scorecard>, results: seq<string>): set<int> {
    set cid | cid in CandidateIds(second) && ResultsOf(second, cid) in results
  }

  /** Reference definition: the candidates of `second` with exactly two
      technical results. */
  function Paired(second: seq<Scorecard>): set<int> {
    set cid | cid in CandidateIds(second) && |ResultsOf(second, cid)| == 2
  }

  /** Classifying the one-pass results gives the reference outcomes: the
      candidates who passed both technical interviews, ... */
  lemma PassedMatches(second: seq<Scorecard>)
    ensures Classify(TechnicalResults(second)).passedBoth == Outcome(second, ["11"])
  {
    OutcomeMatches(second, ["11"], Classify(TechnicalResults(second)).passedBoth);
  }

  /** ... those who failed both, ... */
  lemma FailedMatches(second: seq<Scorecard>)
    ensures Classify(TechnicalResults(second)).failedBoth == Outcome(second, ["00"])
  {
    OutcomeMatches(second, ["00"], Classify(TechnicalResults(second)).failedBoth);
  }

  /** ... and those with one result of each. */
  lemma DisagreedMatches(second: seq<Scorecard>)
    ensures Classify(TechnicalResults(second)).disagreed == Outcome(second, ["01", "10"])
  {
    OutcomeMatches(second, ["01", "10"], Classify(TechnicalResults(second)).disagreed);
  }

  /** A candidate has one-pass results exactly when they have a technical
      scorecard, and a candidate without any has no results. */
  lemma ResultsKeys(second: seq<Scorecard>, cid: int)
    ensures cid in TechnicalResults(second) ==> cid in CandidateIds(second)
    ensures cid !in TechnicalResults(second) ==> ResultsOf(second, cid) == ""
  {
    if cid in TechnicalResults(second) {
      var s :| s in second && IsTechnical(s) && s.candidateId == cid;
    }
  }

  /** The candidates whose one-pass results are among `results` are the
      reference outcome, when no outcome is the empty string. */
  lemma OutcomeMatches(second: seq<Scorecard>, results: seq<string>, chosen: set<int>)
    requires "" !in results
    requires forall cid :: cid in chosen <==> cid in TechnicalResults(second) && TechnicalResults(second)[cid] in results
    ensures chosen == Outcome(second, results)
  {
    forall cid | cid in Outcome(second, results)
      ensures cid in chosen
    {
      ResultsKeys(second, cid);
    }
    forall cid | cid in chosen
      ensures cid in Outcome(second, results)
    {
      ResultsKeys(second, cid);
    }
  }

  /** The candidates with two one-pass results are the reference pairs. */
  lemma PairedMatches(second: seq<Scorecard>)
    ensures Classify(TechnicalResults(second)).total == |Paired(second)|
  {
    var m := TechnicalResults(second);
    forall cid | cid in Paired(second)
      ensures cid in m && |m[cid]| == 2
    {
      ResultsKeys(second, cid);
    }
    forall cid | cid in m && |m[cid]| == 2
      ensures cid in Paired(second)
    {
      ResultsKeys(second, cid);
    }
    assert (set cid | cid in m && |m[cid]| == 2) == Paired(second);
  }

  /** The disagreements minus those also in `part` number the disagreements
      outside `part`. */
  lemma OutsideCard(d: set<int>, part: set<int>)
    ensures |d| - |d * part| == |d - part|
  {
    assert d == (d * part) + (d - part);
    assert (d * part) !! (d - part);
  }

  /** The shares of lines 147-152 as printed: each floored. */
  ghost predicate FlooredShares(r: Report, a: Agreement, finalCandidates: set<int>, keptCandidates: set<int>) {
    && FlooredShare(r.passedPercent, |a.passedBoth|, a.total)
    && FlooredShare(r.failedPercent, |a.failedBoth|, a.total)
    && FlooredShare(r.disagreedPercent, |a.disagreed|, a.total)
    && FlooredShare(r.reachedFinal, |a.disagreed * finalCandidates|, |a.disagreed|)
    && FlooredShare(r.rejected, |a.disagreed - keptCandidates|, |a.disagreed|)
  }

  /** The shares of lines 147-152 as evidently intended: each rounded half
      up. */
  ghost predicate RoundedShares(r: Report, a: Agreement, finalCandidates: set<int>, keptCandidates: set<int>) {
    && RoundedShare(r.passedPercent, |a.passedBoth|, a.total)
    && RoundedShare(r.failedPercent, |a.failedBoth|, a.total)
    && RoundedShare(r.disagreedPercent, |a.disagreed|, a.total)
    && RoundedShare(r.reachedFinal, |a.disagreed * finalCandidates|, |a.disagreed|)
    && RoundedShare(r.rejected, |a.disagreed - keptCandidates|, |a.disagreed|)
  }

  /** The report counts the classified candidates. */
  predicate CountsOf(r: Report, a: Agreement) {
    && r.total == a.total
    && r.passedBoth == |a.passedBoth| && r.failedBoth == |a.failedBoth| && r.disagreed == |a.disagreed|
  }

  /** Lines 132-152 as written. `finalCandidates` are the candidates with a
      final-round scorecard and `keptCandidates` those with a final-round
      application that was not rejected. */
  function Analyze(second: seq<Scorecard>, finalCandidates: set<int>, keptCandidates: set<int>): (r: Report)
    ensures r.total == |Paired(second)|
    ensures r.passedBoth == |Outcome(second, ["11"])|
    ensures r.failedBoth == |Outcome(second, ["00"])|
    ensures r.disagreed == |Outcome(second, ["01", "10"])|
    ensures r.passedBoth + r.failedBoth + r.disagreed == r.total
    ensures FlooredShares(r, Classify(TechnicalResults(second)), finalCandidates, keptCandidates)
    ensures WellFormed(r)
  {
    var a := Classify(TechnicalResults(second));
    PassedMatches(second);
    FailedMatches(second);
    DisagreedMatches(second);
    PairedMatches(second);
    Summarize(a, finalCandidates, keptCandidates)
  }

  /** Lines 132-152 with the rounding the `+ 0.5` evidently aims at. */
  function AnalyzeIntended(second: seq<Scorecard>, finalCandidates: set<int>, keptCandidates: set<int>): (r: Report)
    ensures r.total == |Paired(second)|
    ensures r.passedBoth == |Outcome(second, ["11"])|
    ensures r.failedBoth == |Outcome(second, ["00"])|
    ensures r.disagreed == |Outcome(second, ["01", "10"])|
    ensures r.passedBoth + r.failedBoth + r.disagreed == r.total
    ensures RoundedShares(r, Classify(TechnicalResults(second)), finalCandidates, keptCandidates)
    ensures WellFormed(r)
  {
    var a := Classify(TechnicalResults(second));
    PassedMatches(second);
    FailedMatches(second);
    DisagreedMatches(second);
    PairedMatches(second);
    SummarizeIntended(a, finalCandidates, keptCandidates)
  }

  /** Counts and percentages of lines 147-152 as printed, from a
      classification whose three outcomes add up to its total. */
  function Summarize(a: Agreement, finalCandidates: set<int>, keptCandidates: set<int>): (r: Report)
    requires |a.passedBoth| + |a.failedBoth| + |a.disagreed| == a.total
    ensures CountsOf(r, a)
    ensures FlooredShares(r, a, finalCandidates, keptCandidates)
    ensures WellFormed(r)
  {
    var dis := |a.disagreed|;
    var reached := |a.disagreed * finalCandidates|;
    var kept := |a.disagreed * keptCandidates|;
    SubsetCard(a.disagreed * finalCandidates, a.disagreed);
    SubsetCard(a.disagreed * keptCandidates, a.disagreed);
    OutsideCard(a.disagreed, keptCandidates);
    Report(a.total, |a.passedBoth|, |a.failedBoth|, dis,
           HalfAdjustedAsWritten(|a.passedBoth|, a.total),
           HalfAdjustedAsWritten(|a.failedBoth|, a.total),
           HalfAdjustedAsWritten(dis, a.total),
           HalfAdjustedAsWritten(reached, dis),
           HalfAdjustedAsWritten(dis - kept, dis))
  }

  /** Counts and percentages of lines 147-152, rounded half up. */
  function SummarizeIntended(a: Agreement, finalCandidates: set<int>, keptCandidates: set<int>): (r: Report)
    requires |a.passedBoth| + |a.failedBoth| + |a.disagreed| == a.total
    ensures CountsOf(r, a)
    ensures RoundedShares(r, a, finalCandidates, keptCandidates)
    ensures WellFormed(r)
  {
    var dis := |a.disagreed|;
    var reached := |a.disagreed * finalCandidates|;
    var kept := |a.disagreed * keptCandidates|;
    SubsetCard(a.disagreed * finalCandidates, a.disagreed);
    SubsetCard(a.disagreed * keptCandidates, a.disagreed);
    OutsideCard(a.disagreed, keptCandidates);
    Report(a.total, |a.passedBoth|, |a.failedBoth|, dis,
           RoundHalfUp(|a.passedBoth|, a.total),
           RoundHalfUp(|a.failedBoth|, a.total),
           RoundHalfUp(dis, a.total),
           RoundHalfUp(reached, dis),
           RoundHalfUp(dis - kept, dis))
  }

  /** Two technical scorecards of one candidate, one passing and one
      failing, make a disagreement in either order. */
  lemma MixedVerdictsDisagree(pass: Scorecard, fail: Scorecard)
    requires IsTechnical(pass) && IsTechnical(fail)
    requires pass.candidateId == fail.candidateId
    requires BinaryResult(pass.recommendation) == "1" && BinaryResult(fail.recommendation) == "0"
    ensures pass.candidateId in Classify(TechnicalResults([pass, fail])).disagreed
    ensures pass.candidateId in Classify(TechnicalResults([fail, pass])).disagreed
  {
    assert "1" + "0" == "10" && "0" + "1" == "01";
    PairDisagrees(pass, fail);
    PairDisagrees(fail, pass);
  }

  /** Two technical scorecards of one candidate whose results differ make a
      disagreement. */
  lemma PairDisagrees(first: Scorecard, second: Scorecard)
    requires IsTechnical(first) && IsTechnical(second)
    requires first.candidateId == second.candidateId
    requires BinaryResult(first.recommendation) + BinaryResult(second.recommendation) in ["01", "10"]
    ensures first.candidateId in Classify(TechnicalResults([first, second])).disagreed
  {
    PairResults(first, second);
  }

  /** Two technical scorecards of one candidate give that candidate their
      two results in order. */
  lemma PairResults(first: Scorecard, second: Scorecard)
    requires IsTechnical(first) && IsTechnical(second)
    requires first.candidateId == second.candidateId
    ensures var m := TechnicalResults([first, second]);
      first.candidateId in m && m[first.candidateId] == BinaryResult(first.recommendation) + BinaryResult(second.recommendation)
  {
    assert [first, second][..1] == [first];
    assert [first][..0] == [];
  }
}
