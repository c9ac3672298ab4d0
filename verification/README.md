# Greenhouse hiring-funnel analysis, modelled in Dafny

`greenhouse.py` reads departments, jobs, applications and scorecards from a
Greenhouse recruiting account. From them it prints five sections about the
developer hiring pipeline:

- **Funnel**: how many candidates reached the phone screen, the second round
  and the final round, with stage-to-stage conversion percentages.
- **Phone-screen question tally**: how often each phone-screen question was
  graded Average, Strong or Weak.
- **Second-round disagreements**: how often the two technical interviewers of
  the second round disagreed, and what became of those candidates.
- **Final-round results**: each final-round application's verdicts as a
  sorted string of letters, shown as glyphs.
- **Interviewer calibration**: each interviewer's pass rate, split into final
  and non-final rounds.

This project models the analysis that turns the fetched records into those
numbers. Fetching, caching and printing are not modelled. The analysis is a
set of pure functions over immutable datatypes, one module per step of the
script:

| module | file | models |
|---|---|---|
| `Wrappers` | wrappers.dfy | `Option` and `Result` |
| `Text` | text.dfy | lower-casing, `re.search` for a literal, `str.replace` |
| `Seqs` | seqs.dfy | list comprehensions with a condition |
| `Records` | records.dfy | the four record kinds and `applications_by_id` |
| `Recommendation` | recommendation.dfy | the recommendation scale and `binary_result` |
| `Scope` | scope.dfy | narrowing to the `tech` department's developer scorecards |
| `Stages` | stages.dfy | sorting scorecards into the three rounds |
| `Percent` | percent.dfy | the percentage arithmetic |
| `Funnel` | funnel.dfy | the funnel section |
| `PhoneScreen` | phone_screen.dfy | the phone-screen question tally |
| `SecondRound` | second_round.dfy | the second-round disagreement section |
| `Sorting` | sorting.dfy | `list.sort` with a key, as an insertion sort |
| `FinalRound` | final_round.dfy | the final-round section |
| `Calibration` | calibration.dfy | `calibrate_interviewers` and the interviewer section |
| `Report` | report.dfy | the whole analysis, from records to all sections |

Rounds are recognised by the text of the interview name. The script floors
every percentage it prints: lines 109-110 and 148-152 add `0.5` to a Python 2
integer quotient, which is already whole, and line 111 has no rounding at
all. `Funnel.ComputeFunnel`, `SecondRound.Analyze` and `Report.Analyze`
compute what the script prints, including the share at line 111 that can
exceed 100%. The rounding and the denominator the code evidently intends are
modelled separately, as `Funnel.ComputeFunnelIntended` and
`SecondRound.AnalyzeIntended` (see Findings).

Python's dict iteration order is not modelled. Two choices stand in for it:

- `Stages.Bucketize` takes any list that names each interview type once.
  The analysis passes the types in order of first appearance.
- Final-round rows start in order of first appearance of their application
  id, before they are sorted.

A division by zero in the script raises `ZeroDivisionError`. In the model
the percentage is `None` instead.

## Model

| member | source | states |
|---|---|---|
| Recommendation.Parse | greenhouse.py:157-164 | a recognised string is the name of its verdict; an unrecognised one is no verdict's name |
| Recommendation.ParseName | greenhouse.py:157-164 | each scale name is recognised as its own verdict |
| Recommendation.BinaryResult | greenhouse.py:46-51 | `1` exactly when the recommendation contains `yes`; `0` exactly when it contains `no` but not `yes`; empty otherwise; never longer than one character |
| Recommendation.BinaryResultOnScale | greenhouse.py:46-51 | on the four-value scale, the yes and strong-yes verdicts pass and the no and definitely-not verdicts fail |
| Records.ById | greenhouse.py:103 | the looked-up application carries the id, comes from the list, and no later record has that id, so the last duplicate wins |
| Scope.TechDepartmentId | greenhouse.py:64 | fails exactly when no department's lower-cased name is `tech`; otherwise the id of the first such department |
| Scope.DevScorecards | greenhouse.py:64-79 | fails exactly when there is no tech department; otherwise keeps every scorecard of an application on a job of the first such department whose interview starts with `Dev ` and does not mention `Application Review`, exactly as often as it occurs in the input, and no other scorecard; every kept scorecard's application can be looked up |
| Stages.StageOf | greenhouse.py:91-96 | a name is a phone screen exactly when it mentions `round 1`; it is a second round exactly when it mentions `round 2` or `second round` but not `round 1`; it falls into no round exactly when it mentions none of the three phrases and is not the final interview name |
| Stages.RoundOneBeforeRoundTwo | greenhouse.py:91-94 | a name mentioning both `round 1` and `round 2` (or `second round`) goes to the phone screen, because the first branch wins |
| Stages.FinalRoundIsFinalInterview | greenhouse.py:91-96 | an interview falls in the final round exactly when its name is `Dev Peer Panel Review` |
| Stages.InterviewTypes | greenhouse.py:80 | lists every interview name of the scorecards exactly once |
| Stages.Bucket | greenhouse.py:82-96 | a scorecard is in a round's bucket exactly when it is one of the scorecards, its interview name is among the visited types and the name belongs to that round |
| Stages.BucketMultiset | greenhouse.py:82-96 | for any list naming each interview type once, a round's bucket holds that round's scorecards with their multiplicities, whatever the order of the types |
| Stages.Bucketize | greenhouse.py:82-96 | each round's list is a permutation of the scorecards of that round; a scorecard is in some list exactly when its name belongs to a round; together the lists are no longer than the input |
| Stages.StagesCover | greenhouse.py:82-96 | when the types name every interview once, a round's list holds, up to order, exactly the scorecards whose interview belongs to that round |
| Percent.FloorPercent | greenhouse.py:111 | no value for a zero denominator; otherwise the largest whole percentage not above the ratio, at most 100 when the part is at most the whole |
| Percent.HalfAdjustedAsWritten | greenhouse.py:109-110 | `math.floor(n * 100 / d + 0.5)` with Python 2 integer division is always the floored percentage |
| Percent.HalfAdjustmentLost | greenhouse.py:109 | 2 of 3 comes out as 66 where rounding gives 67 |
| Percent.RoundHalfUp | greenhouse.py:109-110 | no value for a zero denominator; otherwise the whole percentage nearest the ratio, halves rounded up, at most 100 when the part is at most the whole |
| Percent.RoundHalfUpNearFloor | greenhouse.py:109-110 | the rounded percentage is the floored one or one more |
| Funnel.NotRejected | greenhouse.py:104 | exactly the given application ids whose application's status is not `rejected` |
| Funnel.PassedShareAsWritten | greenhouse.py:111 | not-rejected final-round applications over final-round candidates, rounded down (both halves of the floor bracket); no value without final-round scorecards |
| Funnel.PassedShareCanExceedWhole | greenhouse.py:111 | one candidate with two hired final-round applications gives 200% |
| Funnel.PassedShare | greenhouse.py:104-111 | not-rejected final-round applications over all final-round applications, rounded down (both halves of the floor bracket); no value without final-round scorecards; never above 100 |
| Funnel.ComputeFunnel | greenhouse.py:99-111 | as the script prints it: the counts are the distinct candidates of each round list; the two stage-to-stage percentages are the floored shares of those counts and absent exactly when the count divided by is zero; the passed share is the floored share of not-rejected final-round applications over final-round candidates |
| Funnel.ComputeFunnelIntended | greenhouse.py:109-111 | as evidently intended: the same counts; the stage-to-stage percentages rounded half up; the passed share taken over final-round applications and never above 100 |
| Funnel.IntendedNearAsWritten | greenhouse.py:109-110 | the intended funnel has the printed counts, and each stage-to-stage percentage is the printed one or one point more |
| Funnel.FunnelCountsCandidatesPerRound | greenhouse.py:99-108 | the three counts are the numbers of distinct candidates with a scorecard in each round, whatever order the interview types were visited in |
| PhoneScreen.StripNumber | greenhouse.py:123 | removes a prefix only from a text starting with `q`; what it removes is a `q`, digits, whitespace and an optional colon |
| PhoneScreen.StripNumberRemovesTheMatch | greenhouse.py:123 | the removed prefix is the greedy match of `^q[0-9]*\s*:?` |
| PhoneScreen.TallyOf | greenhouse.py:117-128 | every stored count is the number of times its question and answer occur; the stored pairs are exactly the occurring ones, so no zero count is stored; no question is stored without an answer |
| PhoneScreen.PhoneScreenQuestions | greenhouse.py:117-128 | over the phone-screen scorecards: a question and answer are stored exactly when some graded question produces them, with the number of times it does; no question is stored without an answer |
| PhoneScreen.TallyTotal | greenhouse.py:117-128 | the counts of the tally add up to the number of pairs counted |
| PhoneScreen.PhoneScreenTotal | greenhouse.py:117-128 | the counts add up to the number of graded questions with an id over all phone-screen scorecards |
| SecondRound.NonTechnicalSpellings | greenhouse.py:134 | an interview whose lower-cased name has `non-technical`, `non technical` or `non_technical` is not technical |
| SecondRound.TechnicalResults | greenhouse.py:132-139 | a candidate has an entry exactly when they have a technical second-round scorecard; the entry is their results in scorecard order; every entry is a string of `0`s and `1`s |
| SecondRound.Classify | greenhouse.py:140-143 | passed-both, failed-both and disagreed are disjoint sets of candidates with exactly two results; for binary results their sizes add up to the total |
| SecondRound.PassedMatches | greenhouse.py:140 | the passed-both set is the set of candidates whose technical results, in scorecard order, are `11` |
| SecondRound.FailedMatches | greenhouse.py:141 | the failed-both set is the set of candidates whose technical results are `00` |
| SecondRound.DisagreedMatches | greenhouse.py:142 | the disagreement set is the set of candidates whose technical results are `01` or `10` |
| SecondRound.PairedMatches | greenhouse.py:143 | the total is the number of candidates with exactly two technical results |
| SecondRound.MixedVerdictsDisagree | greenhouse.py:140-142 | one passing and one failing technical scorecard of a candidate make a disagreement in either order |
| SecondRound.Analyze | greenhouse.py:132-152 | as the script prints it: the counts are the numbers of candidates whose technical results are `11`, `00`, and `01` or `10`, and of those with two results, which they add up to; each share is the floored share of its count, the share of disagreements that reached the final round is over the disagreements with a final-round scorecard, the rejected share over those without a non-rejected final-round application; none exceeds 100 |
| SecondRound.AnalyzeIntended | greenhouse.py:132-152 | as evidently intended: the same counts, with every share rounded half up |
| SecondRound.Summarize | greenhouse.py:147-152 | the printed counts are the sizes of the classified sets and each printed share is the floored share of its count |
| FinalRound.LetterOrderMatchesScale | greenhouse.py:157-162 | the letters order the verdicts as the recommendation scale does |
| FinalRound.LettersByApplication | greenhouse.py:163-167 | an application has an entry exactly when it has a final-round scorecard with a recognised recommendation; the entry is its letters in scorecard order |
| FinalRound.RecordedApplications | greenhouse.py:163-171 | lists each application with a recognised final-round verdict exactly once |
| FinalRound.SortLetters | greenhouse.py:170 | the letters in ascending order, a permutation of the input |
| FinalRound.ByResultsIsTotalPreorder | greenhouse.py:172 | comparing rows by their result strings is total and transitive |
| FinalRound.RowOf | greenhouse.py:168-171 | the row of an application carries its status and its letters, sorted |
| FinalRound.UnsortedRows | greenhouse.py:168-171 | one row per application with recorded verdicts |
| FinalRound.FinalRows | greenhouse.py:168-172 | the rows sorted by result string, a permutation of the unsorted rows |
| FinalRound.Glyphs | greenhouse.py:174 | the chained replacements map each letter to its glyph on its own and keep the length |
| FinalRound.GlyphsRoundTrip | greenhouse.py:174 | a string of letters is recovered from its glyphs |
| Calibration.CalibrateInterviewers | greenhouse.py:53-61 | an interviewer has an entry exactly when they submitted a developer scorecard the filter admits; the entry is their results in scorecard order; the `scorecards` argument is not read |
| Calibration.RoundsSplit | greenhouse.py:181-187 | an interviewer's results over all rounds are those of the final and non-final rounds together |
| Calibration.InterviewerTotals | greenhouse.py:185-199 | an interviewer appears overall exactly when they appear in the final or non-final rounds; counts of results and of passes add up |
| Calibration.PassRate | greenhouse.py:192-199 | no value for an empty result string; otherwise the floored share of passes, at most 100 |
| Calibration.LineOf | greenhouse.py:188-199 | an interviewer's line has the pass rate and count of each of their result strings, with the non-final and final parts present exactly when they have such results |
| Calibration.Interviewers | greenhouse.py:185-199 | one line per interviewer with a developer scorecard; the overall part is the floored share of passes and the number of all their results; the final and non-final parts are present exactly when the interviewer has such scorecards and are the share and count of those results; the overall count is the sum of the two |
| Report.KeptCandidates | greenhouse.py:144 | exactly the candidates of the not-rejected final-round applications |
| Report.Sections | greenhouse.py:80-199 | from the developer scorecards: the funnel counts the candidates of each round and floors its stage-to-stage shares and the line-111 share; the second-round outcomes add up to its total and all five of its shares, including the two about disagreements, are floored shares of their counts; the final rows are, up to order, the rows of the final-round applications, sorted by result string; each interviewer with a developer scorecard has a line with the pass rate and count of all their results |
| Report.Analyze | greenhouse.py:63-199 | fails exactly when there is no tech department; otherwise the sections as printed, as `Report.Sections` states them, over the developer scorecards |

## Left out

- Fetching, caching and printing (`list_things`, lines 22-44; argument parsing; the `print` and `pprint` calls) are not modelled; the record lists are parameters.
- Per-interview-type scorecard counts (line 85) are only printed, so they are not modelled.
- Python dict iteration order is not modelled: interview types are taken in a caller-given order that names each type once, and final-round rows start in order of first appearance.
- Only ASCII letters are lower-cased; Python's Unicode case mapping is not modelled.
- Recommendations, answers and question texts are strings; the JSON `null` values the API may return are not modelled.
- Division by zero raises `ZeroDivisionError` in the script; the model gives `None` for that percentage and carries on.
- A `KeyError` from `applications_by_id` is a precondition (`Records.Resolves`); `Report.Analyze` proves it always holds for the scorecards the analysis keeps.
- Report.Sections: the phone-screen tally and the final and non-final interviewer parts are stated by `PhoneScreen.PhoneScreenQuestions` and `Calibration.Interviewers`, not repeated in this contract; the second-round counts are tied to the technical results by `SecondRound.Analyze` over the round list. `Report.Analyze` inherits the same omissions.
- FinalRound.FinalRows: `list.sort` is stable; the model sorts by the same key but does not state stability.

## Findings

| source | as written | input that shows it | evidently intended | confidence | as-written member | corrected member |
|---|---|---|---|---|---|---|
| greenhouse.py:109 | `math.floor(a * 100 / b + 0.5)` divides integers before adding 0.5, so the result is always floored (also lines 110 and 148-152) | 2 second rounds of 3 phone screens prints 66, not 67 | round the percentage half up | high; not executed | Percent.HalfAdjustmentLost | Percent.RoundHalfUp |
| greenhouse.py:111 | divides the not-rejected final-round applications by the final-round candidates | one candidate with two hired applications that both reached the final round prints 200% | the share of final-round applications not rejected, at most 100% | medium; not executed | Funnel.PassedShareCanExceedWhole | Funnel.PassedShare |
