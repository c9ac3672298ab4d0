/** The final-round result strings (greenhouse.py lines 155-174). */
module FinalRound {
  import opened Wrappers
  import opened Text
  import opened Seqs
  import opened Records
  import opened Recommendation
  import opened Sorting

  /** The `outcomes` table: one letter per verdict. */
  function Letter(v: Verdict): char {
    match v
    case DefinitelyNot => 'a'
    case No => 'b'
    case Yes => 'c'
    case StrongYes => 'd'
  }

  /** The letters sort in the order of the scale, so sorting a result
      string sorts its verdicts from weakest to strongest. */
  lemma LetterOrderMatchesScale(v: Verdict, w: Verdict)
    ensures Rank(v) <= Rank(w) <==> Letter(v) <= Letter(w)
    ensures Letter(v) == Letter(w) ==> v == w
  {
  }

  /** The scorecard's recommendation is a key of `outcomes`. */
  predicate Recorded(s: Scorecard) {
    Parse(s.recommendation).Some?
  }

  predicate IsLetter(c: char) {
    'a' <= c <= 'd'
  }

  /** Reference definition: the letters recorded for application `id`, in
      list order. */
  function LettersOf(cards: seq<Scorecard>, id: int): (r: string)
    ensures forall i :: 0 <= i < |r| ==> IsLetter(r[i])
    ensures r == "" <==> forall s :: s in cards && Recorded(s) ==> s.applicationId != id
  {
    if |cards| == 0 then ""
    else
      var n := |cards| - 1;
      var s := cards[n];
      assert cards == cards[..n] + [s];
      LettersOf(cards[..n], id) + LetterFor(s, id)
  }

  /** The letter a recorded scorecard contributes, or nothing. */
  function LetterFor(s: Scorecard, id: int): string {
    if Recorded(s) && s.applicationId == id then [Letter(Parse(s.recommendation).value)] else ""
  }

  /** One iteration of lines 164-167: a recorded scorecard appends its
      letter to its application's list, starting from the empty list. */
  function AddLetter(m: map<int, string>, s: Scorecard): (m': map<int, string>)
    ensures forall id :: id in m' <==> id in m || (Recorded(s) && s.applicationId == id)
    ensures forall id :: id in m' ==> m'[id] == (if id in m then m[id] else "") + LetterFor(s, id)
  {
    if Recorded(s) then
      var before := if s.applicationId in m then m[s.applicationId] else "";
      m[s.applicationId := before + [Letter(Parse(s.recommendation).value)]]
    else m
  }

  /** `final_round_results`: one pass over the final-round scorecards
      appending each recorded letter to its application's list. */
  function LettersByApplication(cards: seq<Scorecard>): (m: map<int, string>)
    ensures forall id :: id in m <==> exists s :: s in cards && Recorded(s) && s.applicationId == id
    ensures forall id :: id in m ==> m[id] == LettersOf(cards, id)
  {
    if |cards| == 0 then map[]
    else
      var n := |cards| - 1;
      var s := cards[n];
      assert forall x :: x in cards <==> x in cards[..n] || x == s by {
        assert cards == cards[..n] + [s];
      }
      AddLetter(LettersByApplication(cards[..n]), s)
  }

  /** The keys of `final_round_results`, each once, in order of first
      appearance; this fixes the dict's iteration order. */
  function RecordedApplications(cards: seq<Scorecard>): (ids: seq<int>)
    ensures Distinct(ids)
    ensures forall id :: id in ids <==> exists s :: s in cards && Recorded(s) && s.applicationId == id
    ensures forall id :: id in ids ==> id in ApplicationIds(cards)
  {
    if |cards| == 0 then []
    else
      var n := |cards| - 1;
      var s := cards[n];
      var ids := RecordedApplications(cards[..n]);
      assert cards == cards[..n] + [s];
      if Recorded(s) && s.applicationId !in ids then ids + [s.applicationId] else ids
  }

  predicate Ordered(s: string) {
    forall i, j :: 0 <= i < j < |s| ==> s[i] <= s[j]
  }

  /** `"".join(sorted(results))`. */
  function SortLetters(s: string): (r: string)
    ensures Ordered(r)
    ensures multiset(r) == multiset(s)
  {
    var le := (a: char, b: char) => a <= b;
    assert TotalPreorder(le);
    SortBy(s, le)
  }

  /** Python's string comparison: lexicographic by character, a proper
      prefix first. */
  predicate LexLe(a: string, b: string) {
    |a| == 0 || (|b| > 0 && (a[0] < b[0] || (a[0] == b[0] && LexLe(a[1..], b[1..]))))
  }

  lemma {:induction false} LexLeTotal(a: string, b: string)
    ensures LexLe(a, b) || LexLe(b, a)
  {
    if |a| > 0 && |b| > 0 && a[0] == b[0] {
      LexLeTotal(a[1..], b[1..]);
    }
  }

  lemma {:induction false} LexLeTransitive(a: string, b: string, c: string)
    requires LexLe(a, b) && LexLe(b, c)
    ensures LexLe(a, c)
  {
    if |a| > 0 && |b| > 0 && |c| > 0 && a[0] == b[0] && b[0] == c[0] {
      LexLeTransitive(a[1..], b[1..], c[1..]);
    }
  }

  /** One printed row: the application's status and its sorted letters. */
  datatype Row = Row(status: string, results: string)

  /** The sort key of line 172. */
  function ByResults(): (Row, Row) -> bool {
    (x: Row, y: Row) => LexLe(x.results, y.results)
  }

  lemma ByResultsIsTotalPreorder()
    ensures TotalPreorder(ByResults())
  {
    forall x: Row, y: Row
      ensures ByResults()(x, y) || ByResults()(y, x)
    {
      LexLeTotal(x.results, y.results);
    }
    forall x: Row, y: Row, z: Row | ByResults()(x, y) && ByResults()(y, z)
      ensures ByResults()(x, z)
    {
      LexLeTransitive(x.results, y.results, z.results);
    }
  }

  /** The row of application `id`: its status and its letters in
      ascending order. */
  function RowOf(cards: seq<Scorecard>, apps: seq<Application>, id: int): (row: Row)
    requires HasApplication(apps, id)
    ensures row.status == ById(apps, id).status
    ensures multiset(row.results) == multiset(LettersOf(cards, id))
    ensures Ordered(row.results)
  {
    Row(ById(apps, id).status, SortLetters(LettersOf(cards, id)))
  }

  /** `final_round_results_sorted` before the sort (lines 168-171): one row
      per application with recorded letters. */
  function UnsortedRows(cards: seq<Scorecard>, apps: seq<Application>): (rows: seq<Row>)
    requires Resolves(apps, ApplicationIds(cards))
    ensures |rows| == |RecordedApplications(cards)|
    ensures forall i :: 0 <= i < |rows| ==> rows[i] == RowOf(cards, apps, RecordedApplications(cards)[i])
  {
    RecordedResolve(cards, apps);
    RowsOf(RecordedApplications(cards), LettersByApplication(cards), apps)
  }

  /** Lines 168-171 over the keys `ids` of `final_round_results`: the
      application's status and its letters, sorted. */
  function RowsOf(ids: seq<int>, m: map<int, string>, apps: seq<Application>): (rows: seq<Row>)
    requires forall id :: id in ids ==> id in m && HasApplication(apps, id)
    ensures |rows| == |ids|
    ensures forall i :: 0 <= i < |ids| ==> rows[i] == Row(ById(apps, ids[i]).status, SortLetters(m[ids[i]]))
  {
    seq(|ids|, i requires 0 <= i < |ids| => Row(ById(apps, ids[i]).status, SortLetters(m[ids[i]])))
  }

  /** Every recorded application has its letters in `final_round_results`
      and can be looked up in `applications_by_id`. */
  lemma RecordedResolve(cards: seq<Scorecard>, apps: seq<Application>)
    requires Resolves(apps, ApplicationIds(cards))
    ensures forall id :: id in RecordedApplications(cards) ==>
      id in LettersByApplication(cards) && LettersByApplication(cards)[id] == LettersOf(cards, id) && HasApplication(apps, id)
  {
  }

  /** Lines 168-172: the rows sorted by their result strings. */
  function FinalRows(cards: seq<Scorecard>, apps: seq<Application>): (rows: seq<Row>)
    requires Resolves(apps, ApplicationIds(cards))
    ensures SortedBy(rows, ByResults())
    ensures multiset(rows) == multiset(UnsortedRows(cards, apps))
  {
    ByResultsIsTotalPreorder();
    SortBy(UnsortedRows(cards, apps), ByResults())
  }

  /** The display glyph of a letter: `.` for definitely not, `0` for no,
      `1` for yes and `*` for strong yes. */
  function GlyphOf(c: char): char {
    if c == 'a' then '.' else if c == 'b' then '0' else if c == 'c' then '1' else if c == 'd' then '*' else c
  }

  /** The chained `replace` calls of line 174. No replacement produces a
      letter a later replacement rewrites, so the chain maps each character
      on its own and keeps the length. */
  function Glyphs(results: string): (r: string)
    ensures |r| == |results|
    ensures forall i :: 0 <= i < |results| ==> r[i] == GlyphOf(results[i])
  {
    ReplaceChar(ReplaceChar(ReplaceChar(ReplaceChar(results, 'a', '.'), 'b', '0'), 'c', '1'), 'd', '*')
  }

  /** Reading the glyphs back. */
  function LetterOfGlyph(c: char): char {
    if c == '.' then 'a' else if c == '0' then 'b' else if c == '1' then 'c' else if c == '*' then 'd' else c
  }

  /** The display loses nothing: a string of letters is recovered from its
      glyphs. */
  lemma GlyphsRoundTrip(results: string)
    requires forall i :: 0 <= i < |results| ==> IsLetter(results[i])
    ensures seq(|results|, i requires 0 <= i < |results| => LetterOfGlyph(Glyphs(results)[i])) == results
  {
  }
}
