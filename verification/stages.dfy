/** Sorting the developer scorecards into the three interview rounds
    (greenhouse.py lines 80-96). */
module Stages {
  import opened Wrappers
  import opened Text
  import opened Seqs
  import opened Records

  datatype Stage = PhoneScreen | SecondRound | FinalRound

  /** The one interview name that makes up the final round. */
  const FinalInterview: string := "Dev Peer Panel Review"

  /** The `if`/`elif` chain of lines 91-96: `round 1` is checked first, then
      `round 2` or `second round` (all on the lower-cased name), then the
      exact final interview name; any other name falls into no round. */
  function StageOf(interview: string): (r: Option<Stage>)
    ensures r == Some(PhoneScreen) <==> Contains(Lower(interview), "round 1")
    ensures r == Some(SecondRound) <==>
      && !Contains(Lower(interview), "round 1")
      && (Contains(Lower(interview), "round 2") || Contains(Lower(interview), "second round"))
    ensures r.None? <==>
      && !Contains(Lower(interview), "round 1") && !Contains(Lower(interview), "round 2")
      && !Contains(Lower(interview), "second round") && interview != FinalInterview
  {
    var name := Lower(interview);
    if Contains(name, "round 1") then Some(PhoneScreen)
    else if Contains(name, "round 2") || Contains(name, "second round") then Some(SecondRound)
    else if interview == FinalInterview then Some(FinalRound)
    else None
  }

  /** Exactly the final interview name lands in the final round: it does
      not mention `round 1`, `round 2` or `second round`. */
  lemma FinalRoundIsFinalInterview(interview: string)
    ensures StageOf(interview) == Some(FinalRound) <==> interview == FinalInterview
  {
    if interview == FinalInterview {
      var name := Lower(interview);
      LowerFinalInterview();
      ContainsHasChar(name, "round 1", 6);
      ContainsHasChar(name, "round 2", 6);
      ContainsHasChar(name, "second round", 0);
      assert '1' !in name && '2' !in name && 's' !in name;
    }
  }

  /** A name mentioning both `round 1` and `round 2` (or `second round`)
      goes to the phone screen: the first branch of the chain wins. */
  lemma RoundOneBeforeRoundTwo(interview: string)
    requires Contains(Lower(interview), "round 1")
    requires Contains(Lower(interview), "round 2") || Contains(Lower(interview), "second round")
    ensures StageOf(interview) == Some(PhoneScreen)
  {
  }

  /** The final interview name, lower-cased. */
  lemma LowerFinalInterview()
    ensures Lower(FinalInterview) == "dev peer panel review"
  {
  }

  /** `dev_interview_types` as a list: each interview name of `cards` once,
      in order of first appearance. */
  function InterviewTypes(cards: seq<Scorecard>): (ts: seq<string>)
    ensures Enumerates(ts, cards)
  {
    if |cards| == 0 then []
    else
      var n := |cards| - 1;
      var ts := InterviewTypes(cards[..n]);
      assert cards == cards[..n] + [cards[n]];
      if cards[n].interview in ts then ts else ts + [cards[n].interview]
  }

  /** `types` lists every interview name occurring in `cards` exactly once,
      as iterating over the keys of `dev_scorecards_by_interview_type` does. */
  ghost predicate Enumerates(types: seq<string>, cards: seq<Scorecard>) {
    && Distinct(types)
    && forall t :: t in types <==> exists s :: s in cards && s.interview == t
  }

  function OfType(t: string): Scorecard -> bool {
    (s: Scorecard) => s.interview == t
  }

  function InStage(st: Stage): Scorecard -> bool {
    (s: Scorecard) => StageOf(s.interview) == Some(st)
  }

  function InStageAmong(types: seq<string>, st: Stage): Scorecard -> bool {
    (s: Scorecard) => s.interview in types && StageOf(s.interview) == Some(st)
  }

  /** One round's list: for each interview name in `types`, in turn, the
      scorecards of that name are appended when the name maps to `st`. */
  function Bucket(cards: seq<Scorecard>, types: seq<string>, st: Stage): (b: seq<Scorecard>)
    ensures forall s :: s in b <==> s in cards && s.interview in types && StageOf(s.interview) == Some(st)
  {
    if |types| == 0 then []
    else
      (if StageOf(types[0]) == Some(st) then Filter(cards, OfType(types[0])) else [])
      + Bucket(cards, types[1..], st)
  }

  /** With no name listed twice, a round's list holds each scorecard of that
      round as often as `cards` does. */
  lemma {:induction false} BucketMultiset(cards: seq<Scorecard>, types: seq<string>, st: Stage)
    requires Distinct(types)
    ensures multiset(Bucket(cards, types, st)) == multiset(Filter(cards, InStageAmong(types, st)))
  {
    if |types| == 0 {
      FilterNone(cards, InStageAmong(types, st));
    } else {
      var t, rest := types[0], types[1..];
      assert Distinct(rest) by {
        forall i, j | 0 <= i < j < |rest|
          ensures rest[i] != rest[j]
        {
          assert rest[i] == types[i + 1] && rest[j] == types[j + 1];
        }
      }
      assert t !in rest by {
        forall i | 0 <= i < |rest|
          ensures rest[i] != t
        {
          assert rest[i] == types[i + 1];
        }
      }
      BucketMultiset(cards, rest, st);
      var head := (s: Scorecard) => s.interview == t && StageOf(s.interview) == Some(st);
      FilterSplit(cards, InStageAmong(types, st), head, InStageAmong(rest, st));
      if StageOf(t) == Some(st) {
        FilterExt(cards, head, OfType(t));
      } else {
        FilterNone(cards, head);
      }
    }
  }

  /** The three round lists of lines 87-96. */
  datatype Buckets = Buckets(phone: seq<Scorecard>, second: seq<Scorecard>, final: seq<Scorecard>)

  /** Every scorecard of a round list maps to that round, so no scorecard
      is in two lists. */
  predicate InOwnRound(b: Buckets) {
    && (forall s :: s in b.phone ==> StageOf(s.interview) == Some(PhoneScreen))
    && (forall s :: s in b.second ==> StageOf(s.interview) == Some(SecondRound))
    && (forall s :: s in b.final ==> StageOf(s.interview) == Some(FinalRound))
  }

  /** Builds the three round lists, visiting the interview names in the
      order `types`, which enumerates the names occurring in `cards`. */
  function Bucketize(cards: seq<Scorecard>, types: seq<string>): (b: Buckets)
    requires Enumerates(types, cards)
    ensures InOwnRound(b)
    ensures forall s :: s in b.phone || s in b.second || s in b.final <==> s in cards && StageOf(s.interview).Some?
    ensures multiset(b.phone) == multiset(Filter(cards, InStage(PhoneScreen)))
    ensures multiset(b.second) == multiset(Filter(cards, InStage(SecondRound)))
    ensures multiset(b.final) == multiset(Filter(cards, InStage(FinalRound)))
    ensures |b.phone| + |b.second| + |b.final| <= |cards|
  {
    StagesCover(cards, types, PhoneScreen);
    StagesCover(cards, types, SecondRound);
    StagesCover(cards, types, FinalRound);
    StagesWithinCards(cards);
    Buckets(Bucket(cards, types, PhoneScreen), Bucket(cards, types, SecondRound), Bucket(cards, types, FinalRound))
  }

  /** When `types` lists every interview name of `cards` once, a round list
      matches, up to order, the plain filter of `cards` by round. */
  lemma StagesCover(cards: seq<Scorecard>, types: seq<string>, st: Stage)
    requires Enumerates(types, cards)
    ensures multiset(Bucket(cards, types, st)) == multiset(Filter(cards, InStage(st)))
  {
    BucketMultiset(cards, types, st);
    FilterExt(cards, InStageAmong(types, st), InStage(st));
  }

  /** The three plain round filters together select at most `cards`. */
  lemma StagesWithinCards(cards: seq<Scorecard>)
    ensures |Filter(cards, InStage(PhoneScreen))| + |Filter(cards, InStage(SecondRound))|
            + |Filter(cards, InStage(FinalRound))| <= |cards|
  {
    var later := (s: Scorecard) => StageOf(s.interview) == Some(SecondRound) || StageOf(s.interview) == Some(FinalRound);
    var any := (s: Scorecard) => StageOf(s.interview).Some?;
    FilterSplit(cards, later, InStage(SecondRound), InStage(FinalRound));
    FilterSplit(cards, any, InStage(PhoneScreen), later);
    assert |multiset(Filter(cards, any))| <= |cards|;
  }
}
