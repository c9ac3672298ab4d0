/** Per-interviewer pass rates (greenhouse.py lines 53-61 and 178-199). */
module Calibration {
  import opened Wrappers
  import opened Text
  import opened Records
  import opened Recommendation
  import opened Stages
  import opened Percent

  /** The optional `scorecard_filter`: none, `_scorecard_is_final` or
      `_scorecard_is_not_final`. */
  datatype RoundFilter = AnyRound | FinalOnly | NonFinalOnly

  /** `_scorecard_is_final`. */
  predicate IsFinal(s: Scorecard) {
    s.interview == FinalInterview
  }

  /** `not scorecard_filter or scorecard_filter(s)`. */
  predicate Admits(f: RoundFilter, s: Scorecard) {
    match f
    case AnyRound => true
    case FinalOnly => IsFinal(s)
    case NonFinalOnly => !IsFinal(s)
  }

  /** Reference definition: interviewer `name`'s result characters over the
      admitted scorecards, in list order. */
  function ResultsBy(cards: seq<Scorecard>, name: string, f: RoundFilter): string {
    if |cards| == 0 then ""
    else
      var n := |cards| - 1;
      var s := cards[n];
      assert cards == cards[..n] + [s];
      ResultsBy(cards[..n], name, f) + ResultFor(s, name, f)
  }

  /** The result character an admitted scorecard of `name` contributes. */
  function ResultFor(s: Scorecard, name: string, f: RoundFilter): string {
    if Admits(f, s) && s.submitter == name then BinaryResult(s.recommendation) else ""
  }

  /** One iteration of lines 56-60: an admitted scorecard appends its result
      to its interviewer's string, starting from the empty string. */
  function AddResult(m: map<string, string>, s: Scorecard, f: RoundFilter): (m': map<string, string>)
    requires forall name :: name in m ==> IsBinary(m[name])
    ensures forall name :: name in m' <==> name in m || (Admits(f, s) && s.submitter == name)
    ensures forall name :: name in m' ==> m'[name] == (if name in m then m[name] else "") + ResultFor(s, name, f)
    ensures forall name :: name in m' ==> IsBinary(m'[name])
  {
    if Admits(f, s) then
      var before := if s.submitter in m then m[s.submitter] else "";
      BinaryAppend(before, BinaryResult(s.recommendation));
      m[s.submitter := before + BinaryResult(s.recommendation)]
    else m
  }

  /** `name` submitted a scorecard of `dev` that the filter admits. */
  predicate Submitted(dev: seq<Scorecard>, name: string, f: RoundFilter) {
    exists s :: s in dev && Admits(f, s) && s.submitter == name
  }

  /** `calibrate_interviewers(scorecards, scorecard_filter)`. Its loop walks
      the global `dev_scorecards` (here `dev`) and never reads the
      `scorecards` argument. */
  function CalibrateInterviewers(scorecards: seq<Scorecard>, dev: seq<Scorecard>, f: RoundFilter): (m: map<string, string>)
    ensures forall name :: name in m <==> Submitted(dev, name, f)
    ensures forall name :: name in m ==> m[name] == ResultsBy(dev, name, f)
    ensures forall name :: name !in m ==> ResultsBy(dev, name, f) == ""
    ensures forall name :: name in m ==> IsBinary(m[name])
  {
    if |dev| == 0 then map[]
    else
      var n := |dev| - 1;
      var s := dev[n];
      assert forall x :: x in dev <==> x in dev[..n] || x == s by {
        assert dev == dev[..n] + [s];
      }
      var m := CalibrateInterviewers(scorecards, dev[..n], f);
      AddResult(m, s, f)
  }

  /** Every scorecard is final or not final, never both, so an interviewer's
      results over all rounds are those of the final and non-final rounds
      together. */
  lemma {:induction false} RoundsSplit(cards: seq<Scorecard>, name: string)
    ensures multiset(ResultsBy(cards, name, AnyRound))
         == multiset(ResultsBy(cards, name, FinalOnly)) + multiset(ResultsBy(cards, name, NonFinalOnly))
  {
    if |cards| > 0 {
      var n := |cards| - 1;
      var s := cards[n];
      RoundsSplit(cards[..n], name);
      ResultForSplit(s, name);
      ResultsByStep(cards, name, AnyRound);
      ResultsByStep(cards, name, FinalOnly);
      ResultsByStep(cards, name, NonFinalOnly);
      AppendSplit(ResultsBy(cards[..n], name, AnyRound), ResultsBy(cards[..n], name, FinalOnly),
                  ResultsBy(cards[..n], name, NonFinalOnly), ResultFor(s, name, AnyRound),
                  ResultFor(s, name, FinalOnly), ResultFor(s, name, NonFinalOnly));
    }
  }

  /** The last scorecard appends its result after those of the others. */
  lemma ResultsByStep(cards: seq<Scorecard>, name: string, f: RoundFilter)
    requires |cards| > 0
    ensures ResultsBy(cards, name, f) == ResultsBy(cards[..|cards| - 1], name, f) + ResultFor(cards[|cards| - 1], name, f)
  {
  }

  /** A single scorecard counts in exactly one of the final and non-final
      rounds. */
  lemma ResultForSplit(s: Scorecard, name: string)
    ensures multiset(ResultFor(s, name, AnyRound))
         == multiset(ResultFor(s, name, FinalOnly)) + multiset(ResultFor(s, name, NonFinalOnly))
  {
    if IsFinal(s) {
      assert ResultFor(s, name, NonFinalOnly) == "";
    } else {
      assert ResultFor(s, name, FinalOnly) == "";
    }
  }

  lemma AppendSplit(x: string, y: string, z: string, a: string, b: string, c: string)
    requires multiset(x) == multiset(y) + multiset(z)
    requires multiset(a) == multiset(b) + multiset(c)
    ensures multiset(x + a) == multiset(y + b) + multiset(z + c)
  {
  }

  /** The string stored for `name`, or the empty string when there is none. */
  function Get(m: map<string, string>, name: string): string {
    if name in m then m[name] else ""
  }

  /** For every interviewer the all-rounds string has the length and the
      number of passes of the final and non-final strings combined. */
  lemma InterviewerTotals(dev: seq<Scorecard>, name: string)
    ensures var all := CalibrateInterviewers(dev, dev, AnyRound);
            var final := CalibrateInterviewers(dev, dev, FinalOnly);
            var nonFinal := CalibrateInterviewers(dev, dev, NonFinalOnly);
            && (name in all <==> name in final || name in nonFinal)
            && |Get(all, name)| == |Get(final, name)| + |Get(nonFinal, name)|
            && multiset(Get(all, name))['1'] == multiset(Get(final, name))['1'] + multiset(Get(nonFinal, name))['1']
  {
    RoundsSplit(dev, name);
    var all := ResultsBy(dev, name, AnyRound);
    assert |multiset(all)| == |all|;
  }

  /** `len(results.replace("0", "")) * 100 / len(results)`: the share of
      passes among an interviewer's results. */
  function PassRate(results: string): (r: Option<nat>)
    requires IsBinary(results)
    ensures r.None? <==> results == ""
    ensures r.Some? ==> r.value * |results| <= 100 * multiset(results)['1'] < (r.value + 1) * |results|
    ensures r.Some? ==> r.value <= 100
  {
    RemoveZerosCountsOnes(results);
    FloorPercent(|Remove(results, '0')|, |results|)
  }

  /** A pass rate and the number of results it is taken over. */
  datatype RoundStats = RoundStats(passRate: Option<nat>, interviews: nat)

  /** One line of the interviewer section. */
  datatype InterviewerStats = InterviewerStats(overall: RoundStats, nonFinal: Option<RoundStats>, final: Option<RoundStats>)

  /** `st` is the pass rate and the number of results of `results`. */
  predicate Describes(st: RoundStats, results: string) {
    && st.interviews == |results|
    && FlooredShare(st.passRate, multiset(results)['1'], |results|)
  }

  function StatsOf(results: string): (st: RoundStats)
    requires IsBinary(results)
    ensures Describes(st, results)
  {
    RoundStats(PassRate(results), |results|)
  }

  /** Number of results behind optional stats; none without them. */
  function Interviews(s: Option<RoundStats>): nat {
    if s.Some? then s.value.interviews else 0
  }

  /** The three result maps of lines 185-187 have binary strings, and an
      interviewer's all-rounds string is as long as the other two together. */
  predicate Consistent(all: map<string, string>, final: map<string, string>, nonFinal: map<string, string>) {
    && (forall name :: name in all ==> IsBinary(all[name]))
    && (forall name :: name in final ==> IsBinary(final[name]))
    && (forall name :: name in nonFinal ==> IsBinary(nonFinal[name]))
    && (forall name :: name in all ==> |all[name]| == |Get(final, name)| + |Get(nonFinal, name)|)
  }

  lemma CalibrationConsistent(dev: seq<Scorecard>)
    ensures Consistent(CalibrateInterviewers(dev, dev, AnyRound), CalibrateInterviewers(dev, dev, FinalOnly),
                       CalibrateInterviewers(dev, dev, NonFinalOnly))
  {
    var all := CalibrateInterviewers(dev, dev, AnyRound);
    forall name | name in all
      ensures |all[name]| == |Get(CalibrateInterviewers(dev, dev, FinalOnly), name)|
                             + |Get(CalibrateInterviewers(dev, dev, NonFinalOnly), name)|
    {
      InterviewerTotals(dev, name);
    }
  }

  /** The line of interviewer `name`. */
  function LineOf(all: map<string, string>, final: map<string, string>, nonFinal: map<string, string>, name: string)
    : (line: InterviewerStats)
    requires Consistent(all, final, nonFinal) && name in all
    ensures line.final.Some? <==> name in final
    ensures line.nonFinal.Some? <==> name in nonFinal
    ensures line.overall.interviews == Interviews(line.nonFinal) + Interviews(line.final)
    ensures Describes(line.overall, all[name])
    ensures line.final.Some? ==> Describes(line.final.value, final[name])
    ensures line.nonFinal.Some? ==> Describes(line.nonFinal.value, nonFinal[name])
  {
    InterviewerStats(
      StatsOf(all[name]),
      if name in nonFinal then Some(StatsOf(nonFinal[name])) else None,
      if name in final then Some(StatsOf(final[name])) else None)
  }

  /** Lines 185-199: for each interviewer with a developer scorecard, the
      overall pass rate and, where present, the non-final and final ones. */
  function Interviewers(dev: seq<Scorecard>): (m: map<string, InterviewerStats>)
    ensures forall name :: name in m <==> Submitted(dev, name, AnyRound)
    ensures forall name :: name in m ==> (m[name].final.Some? <==> Submitted(dev, name, FinalOnly))
    ensures forall name :: name in m ==> (m[name].nonFinal.Some? <==> Submitted(dev, name, NonFinalOnly))
    ensures forall name :: name in m ==> m[name].overall.interviews == Interviews(m[name].nonFinal) + Interviews(m[name].final)
    ensures forall name :: name in m ==> Describes(m[name].overall, ResultsBy(dev, name, AnyRound))
    ensures forall name :: name in m && m[name].final.Some? ==> Describes(m[name].final.value, ResultsBy(dev, name, FinalOnly))
    ensures forall name :: name in m && m[name].nonFinal.Some? ==> Describes(m[name].nonFinal.value, ResultsBy(dev, name, NonFinalOnly))
  {
    var all := CalibrateInterviewers(dev, dev, AnyRound);
    var final := CalibrateInterviewers(dev, dev, FinalOnly);
    var nonFinal := CalibrateInterviewers(dev, dev, NonFinalOnly);
    CalibrationConsistent(dev);
    map name | name in all :: LineOf(all, final, nonFinal, name)
  }
}
