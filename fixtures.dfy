/** Worked examples: single inputs in the form the repository's tests and its report files use,
    with the value each decoder gives them. */
module Fixtures {
  import opened Wrappers
  import opened Text
  import opened Patterns
  import opened Literals
  import opened GenkeyValues
  import Tpl
  /** `5 s` is a number and a unit, and `ENDTIME` is no terminal key. */
  lemma EndTimeRule()
    ensures RuleFor("ENDTIME", "5 s") == UnitRule && !Contains("ENDTIME", "TERMINALS")
  {
    var v := "5 s";
    NoSearch(v, [Char('('), Char('"'), Char('.'), Char('.'), Char('/')], 0);
    NoSearch(v, [Char('('), Char('"'), Word], 0);
    assert "ENDTIME"[..4][0] == 'E';
    assert MatchesPrefix(v, [Digit, Space, Word]);
  }
  /** The number words and the unit word of `5 s`. */
  lemma EndTimeParts()
    ensures NumberWords("5 s") == "5" && UnitWord("5 s") == "s"
  {
    var v := "5 s";
    assert v[0..1] == "5";
    IndexOfAt(v, " ", 1);
    SplitUnfold(v, " ");
    assert v[2..] == "s" && v[..1] == "5";
    assert IndexOf("s", " ") == 1;
    SplitWhole("s", " ");
    assert Split(v, " ") == ["5", "s"];
  }
  /** `5` is the integer literal 5. */
  lemma ReadFive()
    ensures ReadLiteral("5") == Some(Scalar(Int(5)))
  {
    var t := "5";
    assert Trimmed(t) && Strip(t) == t;
    assert IndexOf(t, ",") == 1;
    SplitWhole(t, ",");
    assert DigitRun(t) == 1 && t[..1] == t && t[1..] == [];
    assert ReadNumber(t) == Some(Int(5));
  }

  /** `ENDTIME 5 s` reads as the quantity 5 in seconds. */
  lemma EndTime()
    ensures Coerce("ENDTIME", "5 s") == Ok(Quantity([Int(5)], "s"))
  {
    EndTimeRule();
    EndTimeParts();
    ReadFive();
    CoerceQuantity("ENDTIME", "5 s");
  }

  /** A word, then whitespace: `split()` gives the word, then the words of the rest. */
  lemma WordThen(w: string, s: string)
    requires w != [] && forall i :: 0 <= i < |w| ==> !IsSpace(w[i])
    requires s == [] || IsSpace(s[0])
    ensures WordLength(w + s) == |w|
    ensures SplitWhitespace(w + s) == [w] + SplitWhitespace(s)
  {
    if |w| > 1 {
      WordThen(w[1..], s);
      assert (w + s)[1..] == w[1..] + s;
    } else {
      assert (w + s)[1..] == s;
    }
    assert (w + s)[..|w|] == w && (w + s)[|w|..] == s;
  }

  /** Leading whitespace is skipped. */
  lemma SpaceThen(c: char, s: string)
    requires IsSpace(c)
    ensures SplitWhitespace([c] + s) == SplitWhitespace(s)
  {
    assert ([c] + s)[1..] == s;
  }

  /** A geometry line such as `GEOMETRY' (M)  '`: a first word, a space, the unit word, then
      whitespace or nothing; the geometry is the unit word. */
  lemma GeometryUnit(a: string, sp: char, b: string, rest: string)
    requires a != [] && forall i :: 0 <= i < |a| ==> !IsSpace(a[i])
    requires IsSpace(sp)
    requires b != [] && forall i :: 0 <= i < |b| ==> !IsSpace(b[i])
    requires rest == [] || IsSpace(rest[0])
    ensures Tpl.Geometry(a + [sp] + b + rest) == Some(b)
  {
    var tail := [sp] + (b + rest);
    assert a + [sp] + b + rest == a + tail;
    assert SplitWhitespace(tail) == [b] + SplitWhitespace(rest) by {
      WordThen(b, rest);
      SpaceThen(sp, b + rest);
    }
    assert SplitWhitespace(a + tail) == [a] + SplitWhitespace(tail) by {
      WordThen(a, tail);
    }
  }
}
