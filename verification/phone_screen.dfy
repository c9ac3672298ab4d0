/** Tally of graded phone-screen answers per question (greenhouse.py lines
    114-129). */
module PhoneScreen {
  import opened Text
  import opened Wrappers
  import opened Records

  /** `q['id']` is truthy: present and not zero. Note questions have none. */
  predicate HasId(q: Question) {
    q.id.Some? && q.id.value != 0
  }

  /** `q['answer'] in ['Average', 'Strong', 'Weak']`. */
  predicate IsGrade(answer: string) {
    answer in ["Average", "Strong", "Weak"]
  }

  /** The question enters the tally. */
  predicate Graded(q: Question) {
    HasId(q) && IsGrade(q.answer)
  }

  /** End of the run of digits starting at `i`. */
  function DigitRun(s: string, i: nat): (j: nat)
    requires i <= |s|
    ensures i <= j <= |s|
    ensures forall t :: i <= t < j ==> IsDigit(s[t])
    ensures j == |s| || !IsDigit(s[j])
    decreases |s| - i
  {
    if i < |s| && IsDigit(s[i]) then DigitRun(s, i + 1) else i
  }

  /** End of the run of `\s` characters starting at `i`. */
  function SpaceRun(s: string, i: nat): (j: nat)
    requires i <= |s|
    ensures i <= j <= |s|
    ensures forall t :: i <= t < j ==> IsSpace(s[t])
    ensures j == |s| || !IsSpace(s[j])
    decreases |s| - i
  {
    if i < |s| && IsSpace(s[i]) then SpaceRun(s, i + 1) else i
  }

  /** `q[0-9]*\s*:?` matches `s[..n]` with its greedy choices: digits up to
      `j`, whitespace up to `k`, then a colon when one follows. */
  predicate NumberPrefix(s: string, j: int, k: int, n: int) {
    && 1 <= j <= k <= n <= |s| && s[0] == 'q'
    && (forall t :: 1 <= t < j ==> IsDigit(s[t])) && (j == |s| || !IsDigit(s[j]))
    && (forall t :: j <= t < k ==> IsSpace(s[t])) && (k == |s| || !IsSpace(s[k]))
    && ((n == k + 1 && s[k] == ':') || (n == k && (k == |s| || s[k] != ':')))
  }

  /** `s[..n]` is a match of `q[0-9]*\s*:?` with greedy choices. */
  ghost predicate MatchesNumberPrefix(s: string, n: int) {
    exists j, k :: NumberPrefix(s, j, k, n)
  }

  /** A digit run is determined by where it starts. */
  lemma {:induction false} DigitRunUnique(s: string, i: nat, j: nat)
    requires i <= j <= |s|
    requires forall t :: i <= t < j ==> IsDigit(s[t])
    requires j == |s| || !IsDigit(s[j])
    ensures j == DigitRun(s, i)
    decreases |s| - i
  {
    if i < j {
      DigitRunUnique(s, i + 1, j);
    }
  }

  /** A whitespace run is determined by where it starts. */
  lemma {:induction false} SpaceRunUnique(s: string, i: nat, j: nat)
    requires i <= j <= |s|
    requires forall t :: i <= t < j ==> IsSpace(s[t])
    requires j == |s| || !IsSpace(s[j])
    ensures j == SpaceRun(s, i)
    decreases |s| - i
  {
    if i < j {
      SpaceRunUnique(s, i + 1, j);
    }
  }

  /** `re.sub(r'^q[0-9]*\s*:?', '', s)`: drops a leading `q` with the
      number, whitespace and colon after it. */
  function StripNumber(s: string): (r: string)
    ensures |r| <= |s| && r == s[|s| - |r|..]
    ensures (|s| == 0 || s[0] != 'q') ==> r == s
    ensures |s| > 0 && s[0] == 'q' ==> MatchesNumberPrefix(s, |s| - |r|)
  {
    if |s| > 0 && s[0] == 'q' then
      var j := DigitRun(s, 1);
      var k := SpaceRun(s, j);
      var n := if k < |s| && s[k] == ':' then k + 1 else k;
      assert NumberPrefix(s, j, k, n);
      s[n..]
    else s
  }

  /** The greedy match is unique, so the prefix `StripNumber` removes is
      the one the regular expression matches. */
  lemma StripNumberRemovesTheMatch(s: string, j: int, k: int, n: int)
    requires NumberPrefix(s, j, k, n)
    ensures StripNumber(s) == s[n..]
  {
    DigitRunUnique(s, 1, j);
    SpaceRunUnique(s, j, k);
    StripNumberUnfolds(s);
  }

  /** `StripNumber` on a text starting with `q` removes the digit run, the
      whitespace run after it and a colon when one follows. */
  lemma StripNumberUnfolds(s: string)
    requires |s| > 0 && s[0] == 'q'
    ensures var k := SpaceRun(s, DigitRun(s, 1));
            StripNumber(s) == s[(if k < |s| && s[k] == ':' then k + 1 else k)..]
  {
  }

  /** The tally key of a question: lower-cased, number prefix removed. */
  function QuestionKey(text: string): string {
    StripNumber(Lower(text))
  }

  /** The (key, answer) pairs of the graded questions of `qs`, in order. */
  function GradedPairs(qs: seq<Question>): (ps: seq<(string, string)>)
    ensures |ps| <= |qs|
  {
    if |qs| == 0 then []
    else
      var n := |qs| - 1;
      GradedPairs(qs[..n]) + (if Graded(qs[n]) then [(QuestionKey(qs[n].text), qs[n].answer)] else [])
  }

  /** The pairs the nested loop of lines 118-128 visits, in order. */
  function Visited(cards: seq<Scorecard>): seq<(string, string)> {
    if |cards| == 0 then []
    else Visited(cards[..|cards| - 1]) + GradedPairs(cards[|cards| - 1].questions)
  }

  /** `phone_screen_questions`: question key to answer to count. */
  type Tally = map<string, map<string, nat>>

  /** Lines 124-128: counts one more `answer` for `key`. */
  function Bump(t: Tally, key: string, answer: string): (t': Tally)
    ensures forall k :: k in t' <==> k in t || k == key
    ensures forall k, a :: k in t' && a in t'[k] <==> (k in t && a in t[k]) || (k == key && a == answer)
    ensures forall k, a :: k in t' && a in t'[k] ==>
      t'[k][a] == (if k in t && a in t[k] then t[k][a] else 0) + (if k == key && a == answer then 1 else 0)
  {
    var inner := if key in t then t[key] else map[];
    var count := if answer in inner then inner[answer] else 0;
    t[key := inner[answer := count + 1]]
  }

  /** Every stored count is the number of times its (key, answer) pair
      occurs in `ps`, ... */
  ghost predicate CountsExact(t: Tally, ps: seq<(string, string)>) {
    forall key, answer :: key in t && answer in t[key] ==> t[key][answer] == multiset(ps)[(key, answer)]
  }

  /** ... the stored pairs are exactly those occurring, ... */
  ghost predicate StoresOccurring(t: Tally, ps: seq<(string, string)>) {
    forall key, answer :: key in t && answer in t[key] <==> (key, answer) in multiset(ps)
  }

  /** ... and no question is stored without an answer. */
  ghost predicate NoEmptyQuestion(t: Tally) {
    forall key :: key in t ==> |t[key]| > 0
  }

  ghost predicate Counts(t: Tally, ps: seq<(string, string)>) {
    CountsExact(t, ps) && StoresOccurring(t, ps) && NoEmptyQuestion(t)
  }

  /** Counting the last pair keeps the stored pairs those occurring. */
  lemma BumpStores(t: Tally, ps: seq<(string, string)>)
    requires |ps| > 0 && StoresOccurring(t, ps[..|ps| - 1])
    ensures StoresOccurring(Bump(t, ps[|ps| - 1].0, ps[|ps| - 1].1), ps)
  {
    var n := |ps| - 1;
    assert ps == ps[..n] + [ps[n]];
    assert multiset(ps) == multiset(ps[..n]) + multiset{ps[n]};
  }

  /** Counting the last pair keeps every stored count exact. */
  lemma BumpExact(t: Tally, ps: seq<(string, string)>)
    requires |ps| > 0 && CountsExact(t, ps[..|ps| - 1]) && StoresOccurring(t, ps[..|ps| - 1])
    ensures CountsExact(Bump(t, ps[|ps| - 1].0, ps[|ps| - 1].1), ps)
  {
    var n := |ps| - 1;
    var p, before := ps[n], multiset(ps[..n]);
    var t' := Bump(t, p.0, p.1);
    assert ps == ps[..n] + [p];
    assert multiset(ps) == before + multiset{p};
    forall key, answer | key in t' && answer in t'[key]
      ensures t'[key][answer] == multiset(ps)[(key, answer)]
    {
      assert (key, answer) == p <==> key == p.0 && answer == p.1;
      if !(key in t && answer in t[key]) {
        assert before[(key, answer)] == 0;
      }
    }
  }

  /** Counting a pair stores an answer under its question. */
  lemma BumpNotEmpty(t: Tally, key: string, answer: string)
    requires NoEmptyQuestion(t)
    ensures NoEmptyQuestion(Bump(t, key, answer))
  {
    var t' := Bump(t, key, answer);
    forall k | k in t'
      ensures |t'[k]| > 0
    {
      if k == key {
        assert answer in t'[k];
      } else {
        assert t'[k] == t[k];
      }
    }
  }

  /** Counting the pairs one at a time. Every stored count is the number of
      times its (key, answer) pair occurs, every occurring pair is stored,
      no other pair is, and no question is stored without an answer. */
  function TallyOf(ps: seq<(string, string)>): (t: Tally)
    ensures forall key, answer :: key in t && answer in t[key] ==> t[key][answer] == multiset(ps)[(key, answer)]
    ensures forall key, answer :: (key, answer) in multiset(ps) ==> key in t && answer in t[key]
    ensures forall key, answer :: key in t && answer in t[key] ==> (key, answer) in multiset(ps)
    ensures forall key :: key in t ==> |t[key]| > 0
  {
    TallyCounts(ps);
    TallyFold(ps)
  }

  /** Lines 118-128 as a left fold of `Bump` over the pairs. */
  function TallyFold(ps: seq<(string, string)>): Tally {
    if |ps| == 0 then map[]
    else Bump(TallyFold(ps[..|ps| - 1]), ps[|ps| - 1].0, ps[|ps| - 1].1)
  }

  lemma {:induction false} TallyCounts(ps: seq<(string, string)>)
    ensures Counts(TallyFold(ps), ps)
  {
    if |ps| > 0 {
      var n := |ps| - 1;
      TallyCounts(ps[..n]);
      var t := TallyFold(ps[..n]);
      BumpStores(t, ps);
      BumpExact(t, ps);
      BumpNotEmpty(t, ps[n].0, ps[n].1);
    }
  }

  /** The phone-screen section: the tally over all graded questions of the
      phone-screen scorecards. */
  function PhoneScreenQuestions(phone: seq<Scorecard>): (t: Tally)
    ensures forall key, answer :: key in t && answer in t[key] <==> (key, answer) in multiset(Visited(phone))
    ensures forall key, answer :: key in t && answer in t[key] ==> t[key][answer] == multiset(Visited(phone))[(key, answer)]
    ensures forall key :: key in t ==> |t[key]| > 0
  {
    TallyOf(Visited(phone))
  }

  /** Some key of a non-empty map. */
  ghost function Pick<K>(m: map<K, nat>): (k: K)
    requires |m| > 0
    ensures k in m
  {
    assert m.Keys != {};
    var k :| k in m;
    k
  }

  /** Sum of the values of a map. */
  ghost function SumOf<K>(m: map<K, nat>): nat
    decreases |m|
  {
    if |m| == 0 then 0
    else
      var k := Pick(m);
      m[k] + SumOf(m - {k})
  }

  /** The sum does not depend on which key is taken out first. */
  lemma {:induction false} SumOfRemove<K>(m: map<K, nat>, k: K)
    requires k in m
    ensures SumOf(m) == m[k] + SumOf(m - {k})
    decreases |m|
  {
    var k' := Pick(m);
    if k' != k {
      var a, b := m - {k'}, m - {k};
      assert k in a && a[k] == m[k];
      assert k' in b && b[k'] == m[k'];
      SumOfRemove(a, k);
      SumOfRemove(b, k');
      RemoveTwo(m, k, k');
    }
  }

  lemma RemoveTwo<K>(m: map<K, nat>, k: K, k': K)
    ensures (m - {k'}) - {k} == (m - {k}) - {k'}
  {
  }

  /** Sum of all counts of a tally. */
  ghost function Total(t: Tally): nat {
    SumOf(KeySums(t))
  }

  /** Replacing one value changes the sum by the difference. */
  lemma SumOfUpdate<K>(m: map<K, nat>, k: K, v: nat)
    ensures SumOf(m[k := v]) + (if k in m then m[k] else 0) == SumOf(m) + v
  {
    SumOfRemove(m[k := v], k);
    RemoveUpdated(m, k, v);
    if k in m {
      SumOfRemove(m, k);
    } else {
      RemoveAbsent(m, k);
    }
  }

  lemma RemoveUpdated<K>(m: map<K, nat>, k: K, v: nat)
    ensures m[k := v] - {k} == m - {k}
  {
  }

  lemma RemoveAbsent<K>(m: map<K, nat>, k: K)
    requires k !in m
    ensures m - {k} == m
  {
  }

  /** The per-key sums of a tally. */
  ghost function KeySums(t: Tally): map<string, nat> {
    map key | key in t :: SumOf(t[key])
  }

  /** Storing a new inner map under `key` replaces that key's sum. */
  lemma KeySumsUpdate(t: Tally, key: string, inner: map<string, nat>)
    ensures KeySums(t[key := inner]) == KeySums(t)[key := SumOf(inner)]
  {
    var sums', expected := KeySums(t[key := inner]), KeySums(t)[key := SumOf(inner)];
    forall k | k in sums'
      ensures sums'[k] == expected[k]
    {
      if k != key {
        assert t[key := inner][k] == t[k];
      }
    }
  }

  /** Counting one more answer raises the total by one. */
  lemma BumpTotal(t: Tally, key: string, answer: string)
    ensures Total(Bump(t, key, answer)) == Total(t) + 1
  {
    var inner := if key in t then t[key] else map[];
    var inner' := inner[answer := (if answer in inner then inner[answer] else 0) + 1];
    calc {
      Total(Bump(t, key, answer));
      { BumpIs(t, key, answer); }
      Total(t[key := inner']);
      { TotalUpdate(t, key, inner'); }
      Total(t) + SumOf(inner') - SumOf(inner);
      { CountGrows(inner, answer); }
      Total(t) + 1;
    }
  }

  /** `Bump` stores the raised count under `key`. */
  lemma BumpIs(t: Tally, key: string, answer: string)
    ensures var inner := if key in t then t[key] else map[];
            Bump(t, key, answer) == t[key := inner[answer := (if answer in inner then inner[answer] else 0) + 1]]
  {
  }

  /** One more answer raises the inner sum by one. */
  lemma CountGrows(inner: map<string, nat>, answer: string)
    ensures SumOf(inner[answer := (if answer in inner then inner[answer] else 0) + 1]) == SumOf(inner) + 1
  {
    SumOfUpdate(inner, answer, (if answer in inner then inner[answer] else 0) + 1);
  }

  /** Replacing the answers of `key` changes the total by the difference of
      their sums. */
  lemma TotalUpdate(t: Tally, key: string, inner': map<string, nat>)
    ensures Total(t[key := inner']) + SumOf(if key in t then t[key] else map[]) == Total(t) + SumOf(inner')
  {
    KeySumsUpdate(t, key, inner');
    KeySumAt(t, key);
    SumOfUpdate(KeySums(t), key, SumOf(inner'));
  }

  /** The sum stored for `key`, or nothing for a key without answers. */
  lemma KeySumAt(t: Tally, key: string)
    ensures (if key in KeySums(t) then KeySums(t)[key] else 0) == SumOf(if key in t then t[key] else map[])
  {
    if key !in t {
      var empty: map<string, nat> := map[];
      assert |empty| == 0;
    }
  }

  /** The counts of the tally add up to the number of graded questions. */
  lemma {:induction false} TallyTotal(ps: seq<(string, string)>)
    ensures Total(TallyOf(ps)) == |ps|
  {
    if |ps| == 0 {
      assert TallyOf(ps) == map[];
    } else {
      var n := |ps| - 1;
      TallyTotal(ps[..n]);
      BumpTotal(TallyFold(ps[..n]), ps[n].0, ps[n].1);
    }
  }

  /** Every graded phone-screen question is counted exactly once. */
  lemma PhoneScreenTotal(phone: seq<Scorecard>)
    ensures Total(PhoneScreenQuestions(phone)) == |Visited(phone)|
  {
    TallyTotal(Visited(phone));
  }
}
