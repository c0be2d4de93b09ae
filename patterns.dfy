/** The regular expressions of the genkey decoder, each written out as a predicate (or, for the two
    whose match text is used, a function) over the string it is applied to.

    Unanchored searches use `Search` over a sequence of character classes. A search for a pattern
    whose repetitions are all single classes followed by `+` succeeds exactly when a search with
    each repetition taken once succeeds (any match contains such a shorter match, and the shorter
    match is itself a match), so `\d+\.\d+` is searched for as `\d\.\d`. Anchored patterns (`^…`)
    measure the run of leading letters: as the class after the run never contains a letter, the
    regular expression can only match with the whole run. */
module Patterns {
  import opened Wrappers
  import opened Text

  datatype Class = Char(c: char) | Digit | Space | Word | NonWord

  predicate InClass(c: char, k: Class) {
    match k
    case Char(x) => c == x
    case Digit => IsDigit(c)
    case Space => IsSpace(c)
    case Word => IsWordChar(c)
    case NonWord => !IsWordChar(c)
  }

  /** The classes of `p` match the first `|p|` characters of `s`. */
  predicate MatchesPrefix(s: string, p: seq<Class>)
    decreases |p|
  {
    |p| <= |s| && (p == [] || (InClass(s[0], p[0]) && MatchesPrefix(s[1..], p[1..])))
  }

  /** `re.search(p, s)` succeeds. */
  predicate Search(s: string, p: seq<Class>)
    decreases |s|
  {
    MatchesPrefix(s, p) || (|s| > 0 && Search(s[1..], p))
  }

  /** A match puts a character of class `p[k]` at position `k`. */
  lemma {:induction false} MatchAt(s: string, p: seq<Class>, k: nat)
    requires MatchesPrefix(s, p) && k < |p|
    ensures k < |s| && InClass(s[k], p[k])
    decreases k
  {
    if k > 0 {
      MatchAt(s[1..], p[1..], k - 1);
    }
  }

  /** A pattern with a class that matches no character of `s` is found nowhere in it. */
  lemma {:induction false} NoSearch(s: string, p: seq<Class>, k: nat)
    requires k < |p| && forall i :: 0 <= i < |s| ==> !InClass(s[i], p[k])
    ensures !Search(s, p)
    decreases |s|
  {
    if MatchesPrefix(s, p) {
      MatchAt(s, p, k);
    }
    if |s| > 0 {
      NoSearch(s[1..], p, k);
    }
  }

  // ---------------------------------------------------------------- anchored key patterns

  /** The length of the run of `[A-Z]` at the start of `s`. */
  function UpperRun(s: string): (n: nat)
    ensures n <= |s|
    ensures forall i :: 0 <= i < n ==> IsUpper(s[i])
    ensures n < |s| ==> !IsUpper(s[n])
  {
    if s != [] && IsUpper(s[0]) then 1 + UpperRun(s[1..]) else 0
  }

  /** The length of the run of `[a-zA-Z]` at the start of `s`. */
  function LetterRun(s: string): (n: nat)
    ensures n <= |s|
    ensures forall i :: 0 <= i < n ==> IsLetter(s[i])
    ensures n < |s| ==> !IsLetter(s[n])
  {
    if s != [] && IsLetter(s[0]) then 1 + LetterRun(s[1..]) else 0
  }

  /** `^[a-zA-Z]+\s\w+`: a line that names a second-level key. */
  predicate SecondLevelLine(s: string) {
    var k := LetterRun(s);
    0 < k && k + 1 < |s| && IsSpace(s[k]) && IsWordChar(s[k + 1])
  }

  /** `^[a-zA-Z]+\=|^[a-zA-Z]+\s\=`: a line that starts with a third-level `KEY=`. */
  predicate ThirdLevelLine(s: string) {
    var k := LetterRun(s);
    0 < k < |s| && (s[k] == '=' || (IsSpace(s[k]) && k + 1 < |s| && s[k + 1] == '='))
  }

  /** `^[A-Z]+\s`: a token that starts with an upper-case word and a whitespace character. */
  predicate KeyThenSpace(s: string) {
    var k := UpperRun(s);
    0 < k < |s| && IsSpace(s[k])
  }

  /** `^[A-Z]+\=`: a token that starts with `KEY=`. */
  predicate KeyThenEquals(s: string) {
    var k := UpperRun(s);
    0 < k < |s| && s[k] == '='
  }

  /** `^[A-Z]+\=\(`: a token that starts with `KEY=(`. */
  predicate KeyOpensTuple(s: string) {
    var k := UpperRun(s);
    0 < k && k + 1 < |s| && s[k] == '=' && s[k + 1] == '('
  }

  /** `^[A-Z]+\=\(|^[A-Z]+\s\=\s\(`: `KEY=(`, or `KEY = (` with single whitespace characters. */
  predicate KeyOpensTupleSpaced(s: string) {
    var k := UpperRun(s);
    KeyOpensTuple(s)
    || (0 < k && k + 3 < |s| && IsSpace(s[k]) && s[k + 1] == '=' && IsSpace(s[k + 2]) && s[k + 3] == '(')
  }

  // ---------------------------------------------------------------- the closing parenthesis

  /** `$` at position `j`: the end of `s`, or a final newline. */
  predicate AtEnd(s: string, j: nat) {
    j == |s| || (j + 1 == |s| && s[j] == '\n')
  }

  /** `.+$` matching at the start of `t`: at least one character, no newline except a final one. */
  predicate RestOfLine(t: string) {
    var u := if |t| > 0 && t[|t| - 1] == '\n' then t[..|t| - 1] else t;
    u != [] && '\n' !in u
  }

  predicate ClosesAt(s: string, i: nat)
    requires i < |s|
  {
    s[i] == ')' && (AtEnd(s, i + 1) || (i + 1 < |s| && IsSpace(s[i + 1]) && RestOfLine(s[i + 2..])))
  }

  predicate ClosesFrom(s: string, i: nat)
    decreases |s| - i
  {
    i < |s| && (ClosesAt(s, i) || ClosesFrom(s, i + 1))
  }

  /** `\)$|\)\s.+$`: a `)` that ends the text, or that is followed by whitespace and the rest of
      the line. */
  predicate ClosesTuple(s: string) {
    ClosesFrom(s, 0)
  }

  /** A token whose last character is `)` closes a tuple. */
  lemma EndingParenCloses(s: string)
    requires s != [] && s[|s| - 1] == ')'
    ensures ClosesTuple(s)
  {
    ClosesFromReaches(s, 0, |s| - 1);
  }

  lemma {:induction false} ClosesFromReaches(s: string, i: nat, j: nat)
    requires i <= j < |s| && ClosesAt(s, j)
    ensures ClosesFrom(s, i)
    decreases j - i
  {
    if i < j {
      ClosesFromReaches(s, i + 1, j);
    }
  }

  // ---------------------------------------------------------------- the first-level label

  /** The index of the first newline at or after `j`, or `|s|`. */
  function LineEnd(s: string, j: nat): (e: nat)
    requires j <= |s|
    ensures j <= e <= |s|
    ensures e < |s| ==> s[e] == '\n'
    ensures forall k :: j <= k < e ==> s[k] != '\n'
    decreases |s| - j
  {
    if j == |s| || s[j] == '\n' then j else LineEnd(s, j + 1)
  }

  predicate LabelAt(s: string, i: nat) {
    i + 3 < |s| && s[i] == '!' && IsSpace(s[i + 1]) && IsWordChar(s[i + 2]) && s[i + 3] != '\n'
  }

  /** The match of `re.search('!\s\w+.+', s[i..])`: it starts at the first `!` followed by a
      whitespace character, a word character and one more character other than a newline, and
      runs to the end of that line. */
  function LabelFrom(s: string, i: nat): (m: Option<string>)
    ensures m.Some? ==> m.value != [] && m.value[0] == '!'
    decreases |s| - i
  {
    if i + 3 >= |s| then None
    else if LabelAt(s, i) then Some(s[i..LineEnd(s, i + 3)])
    else LabelFrom(s, i + 1)
  }

  // ---------------------------------------------------------------- splitting at `\s\n`

  predicate BreakAt(s: string, i: nat) {
    i + 1 < |s| && IsSpace(s[i]) && s[i + 1] == '\n'
  }

  /** The first index at or after `i` where `\s\n` matches, or `|s|`. */
  function NextBreak(s: string, i: nat): (k: nat)
    requires i <= |s|
    ensures i <= k <= |s|
    ensures k < |s| ==> BreakAt(s, k)
    ensures forall j :: i <= j < k ==> !BreakAt(s, j)
    decreases |s| - i
  {
    if i == |s| || BreakAt(s, i) then i else NextBreak(s, i + 1)
  }

  /** `re.split(r'\s\n', s)`: the pieces between the leftmost non-overlapping matches. */
  function SplitAtBreaks(s: string): (pieces: seq<string>)
    ensures |pieces| >= 1
    decreases |s|
  {
    var k := NextBreak(s, 0);
    if k == |s| then [s] else [s[..k]] + SplitAtBreaks(s[k + 2..])
  }

  /** The texts `re.split(r'\s\n', s)` removes: one whitespace character and a newline each. */
  function Breaks(s: string): (bs: seq<string>)
    ensures forall b :: b in bs ==> |b| == 2 && IsSpace(b[0]) && b[1] == '\n'
    decreases |s|
  {
    var k := NextBreak(s, 0);
    if k == |s| then [] else [s[k..k + 2]] + Breaks(s[k + 2..])
  }

  /** The pieces with the separators put back between them. */
  function Interleave(pieces: seq<string>, seps: seq<string>): string
    requires |pieces| == |seps| + 1
  {
    if seps == [] then pieces[0] else pieces[0] + seps[0] + Interleave(pieces[1..], seps[1..])
  }

  /** The text before the first break holds no break. */
  lemma NoBreakBefore(s: string, k: nat)
    requires k == NextBreak(s, 0)
    ensures forall j :: !BreakAt(s[..k], j)
  {
    forall j | 0 <= j
      ensures !BreakAt(s[..k], j)
    {
      if j + 1 < k {
        assert !BreakAt(s, j);
        assert s[..k][j] == s[j] && s[..k][j + 1] == s[j + 1];
      }
    }
  }

  /** No piece of `re.split(r'\s\n', s)` holds a `\s\n`. */
  lemma {:induction false} SplitAtBreaksAvoid(s: string)
    ensures forall p, j :: p in SplitAtBreaks(s) ==> !BreakAt(p, j)
    decreases |s|
  {
    var k := NextBreak(s, 0);
    NoBreakBefore(s, k);
    if k < |s| {
      SplitAtBreaksAvoid(s[k + 2..]);
    }
  }

  lemma CutAround(s: string, k: nat)
    requires k + 2 <= |s|
    ensures s[..k] + s[k..k + 2] + s[k + 2..] == s
  {
    assert s[..k] + s[k..k + 2] == s[..k + 2];
  }

  /** There is one break between each two pieces of `re.split(r'\s\n', s)`, and putting the
      breaks back between them gives `s`. */
  lemma {:induction false} SplitAtBreaksRejoined(s: string)
    ensures |SplitAtBreaks(s)| == |Breaks(s)| + 1
    ensures Interleave(SplitAtBreaks(s), Breaks(s)) == s
    decreases |s|
  {
    var k := NextBreak(s, 0);
    if k < |s| {
      var rest := s[k + 2..];
      var ps, bs := SplitAtBreaks(s), Breaks(s);
      SplitAtBreaksRejoined(rest);
      assert ps == [s[..k]] + SplitAtBreaks(rest);
      assert bs == [s[k..k + 2]] + Breaks(rest);
      assert Interleave(ps, bs) == s[..k] + s[k..k + 2] + Interleave(SplitAtBreaks(rest), Breaks(rest)) by {
        assert ps[1..] == SplitAtBreaks(rest) && bs[1..] == Breaks(rest);
      }
      CutAround(s, k);
    }
  }
}
