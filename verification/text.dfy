/** String predicates standing in for the few regular expressions and string
    methods the report applies. Only ASCII case folding is modelled. */
module Text {

  /** Lower-cases an ASCII letter and leaves every other character alone. */
  function LowerChar(c: char): char {
    if 'A' <= c <= 'Z' then (c as int + 32) as char else c
  }

  /** `s.lower()`, restricted to ASCII letters. */
  function Lower(s: string): string {
    seq(|s|, i requires 0 <= i < |s| => LowerChar(s[i]))
  }

  /** `p` occurs in `s` starting at index `i`. */
  predicate At(s: string, p: string, i: int) {
    0 <= i && i + |p| <= |s| && s[i..i + |p|] == p
  }

  /** `re.search(p, s)` for a pattern `p` without metacharacters. */
  predicate Contains(s: string, p: string) {
    exists i | 0 <= i <= |s| - |p| :: At(s, p, i)
  }

  /** `re.search('^' + p, s)`: the match is anchored at the start. */
  predicate StartsWith(s: string, p: string) {
    At(s, p, 0)
  }

  /** Every occurrence of `p` in `s` puts each character of `p` in `s`;
      used to rule out an occurrence by a character `s` lacks. */
  lemma ContainsHasChar(s: string, p: string, k: nat)
    requires k < |p|
    ensures Contains(s, p) ==> p[k] in s
  {
    if Contains(s, p) {
      var i :| 0 <= i <= |s| - |p| && At(s, p, i);
      assert s[i + k] == s[i..i + |p|][k];
    }
  }

  predicate IsDigit(c: char) {
    '0' <= c <= '9'
  }

  /** The characters `\s` matches in a pattern compiled without the
      Unicode flag: space, tab, newline, carriage return, vertical tab and
      form feed. */
  predicate IsSpace(c: char) {
    c == ' ' || c == '\t' || c == '\n' || c == '\r' || c as int == 11 || c as int == 12
  }

  /** A string made of result characters only. */
  predicate IsBinary(s: string) {
    forall i :: 0 <= i < |s| ==> s[i] == '0' || s[i] == '1'
  }

  /** Result strings stay result strings when joined. */
  lemma BinaryAppend(a: string, b: string)
    requires IsBinary(a) && IsBinary(b)
    ensures IsBinary(a + b)
  {
    forall i | 0 <= i < |a + b|
      ensures (a + b)[i] == '0' || (a + b)[i] == '1'
    {
      if i >= |a| {
        assert (a + b)[i] == b[i - |a|];
      }
    }
  }

  /** `s.replace(c, "")`: `s` with every occurrence of `c` deleted. */
  function Remove(s: string, c: char): (r: string)
    ensures |r| + multiset(s)[c] == |s|
    ensures c !in r
    ensures forall d :: d != c ==> multiset(r)[d] == multiset(s)[d]
  {
    if |s| == 0 then ""
    else
      assert s == [s[0]] + s[1..];
      (if s[0] == c then "" else [s[0]]) + Remove(s[1..], c)
  }

  /** For a string of result characters, deleting the zeros leaves exactly
      its ones. */
  lemma RemoveZerosCountsOnes(s: string)
    requires IsBinary(s)
    ensures |Remove(s, '0')| == multiset(s)['1']
  {
    var r := Remove(s, '0');
    forall d | d in multiset(r)
      ensures d == '1'
    {
      assert d in r;
      var i :| 0 <= i < |r| && r[i] == d;
      assert multiset(s)[d] == multiset(r)[d] > 0;
      assert d in s;
    }
    MultisetOfOneChar(r, '1');
  }

  /** A string whose multiset holds only `c` has as many characters as `c`s. */
  lemma {:induction false} MultisetOfOneChar(s: string, c: char)
    requires forall d :: d in multiset(s) ==> d == c
    ensures |s| == multiset(s)[c]
  {
    if |s| > 0 {
      assert s == [s[0]] + s[1..];
      assert s[0] in multiset(s);
      forall d | d in multiset(s[1..])
        ensures d == c
      {
        assert d in multiset(s);
      }
      MultisetOfOneChar(s[1..], c);
    }
  }

  /** `s.replace(a, b)` for single characters `a` and `b`. */
  function ReplaceChar(s: string, a: char, b: char): (r: string)
    ensures |r| == |s|
    ensures forall i :: 0 <= i < |s| ==> r[i] == (if s[i] == a then b else s[i])
  {
    seq(|s|, i requires 0 <= i < |s| => if s[i] == a then b else s[i])
  }
}
