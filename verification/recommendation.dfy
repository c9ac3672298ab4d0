/** Interpreting a scorecard's `overall_recommendation` string. */
module Recommendation {
  import opened Wrappers
  import opened Text

  /** The recommendation scale, from the weakest to the strongest verdict. */
  datatype Verdict = DefinitelyNot | No | Yes | StrongYes

  /** The string the data source uses for a verdict. */
  function Name(v: Verdict): string {
    match v
    case DefinitelyNot => "definitely_not"
    case No => "no"
    case Yes => "yes"
    case StrongYes => "strong_yes"
  }

  /** Position on the scale, weakest first. */
  function Rank(v: Verdict): nat {
    match v
    case DefinitelyNot => 0
    case No => 1
    case Yes => 2
    case StrongYes => 3
  }

  /** `s in outcomes`: recognises exactly the four scale names. */
  function Parse(s: string): (r: Option<Verdict>)
    ensures r.Some? ==> Name(r.value) == s
    ensures r.None? ==> forall v :: Name(v) != s
  {
    if s == "definitely_not" then Some(DefinitelyNot)
    else if s == "no" then Some(No)
    else if s == "yes" then Some(Yes)
    else if s == "strong_yes" then Some(StrongYes)
    else None
  }

  /** Names and parsing are inverse to each other. */
  lemma ParseName(v: Verdict)
    ensures Parse(Name(v)) == Some(v)
  {
  }

  /** `binary_result`: `"1"` when the recommendation mentions `yes`,
      otherwise `"0"` when it mentions `no`, otherwise nothing. */
  function BinaryResult(recommendation: string): (r: string)
    ensures |r| <= 1 && IsBinary(r)
    ensures r == "1" <==> Contains(recommendation, "yes")
    ensures r == "0" <==> !Contains(recommendation, "yes") && Contains(recommendation, "no")
    ensures r == "" <==> !Contains(recommendation, "yes") && !Contains(recommendation, "no")
  {
    if Contains(recommendation, "yes") then "1"
    else if Contains(recommendation, "no") then "0"
    else ""
  }

  /** On the four scale names the substring test agrees with the scale:
      the two upper verdicts pass and the two lower ones fail. */
  lemma BinaryResultOnScale(v: Verdict)
    ensures BinaryResult(Name(v)) == if Rank(v) >= 2 then "1" else "0"
  {
    match v
    case DefinitelyNot =>
      ContainsHasChar("definitely_not", "yes", 2);
      assert At("definitely_not", "no", 11);
    case No =>
      ContainsHasChar("no", "yes", 0);
      assert At("no", "no", 0);
    case Yes =>
      assert At("yes", "yes", 0);
    case StrongYes =>
      assert At("strong_yes", "yes", 7);
  }
}
