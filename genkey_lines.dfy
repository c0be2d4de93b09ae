/** `Genkey.clean_lines` and `Genkey.split_values`: the stages that turn the text of one block of a
    genkey file into logical lines, and each logical line into its raw tokens. Each loop of the
    source is a method whose state after `i` steps is given by a fold over the first `i` inputs. */
module GenkeyLines {
  import opened Text
  import opened Patterns

  // ---------------------------------------------------------------- clean_lines, first pass

  /** The state of the first pass: the continued text gathered so far (`_el`) and the lines
      produced (`broken_lines`). */
  datatype JoinState = JoinState(pending: string, lines: seq<string>)

  /** `re.search('\\\\', el)`: the physical line holds a backslash. */
  predicate HasBackslash(el: string) {
    Contains(el, "\\")
  }

  /** The pieces around each backslash, each stripped, joined with single spaces, stripped. */
  function JoinContinued(s: string): string {
    Strip(Join(StripEach(Split(s, "\\")), " "))
  }

  /** One physical line of the first pass. A line with a backslash is appended to the pending
      text (both branches of the source amount to this). A non-blank line ends a pending
      continuation; otherwise a non-blank line is kept stripped. A blank line leaves a pending
      continuation waiting. The source's extra test for a doubled backslash always holds here,
      as the line has no backslash at all. */
  function JoinStep(st: JoinState, el: string): JoinState {
    if HasBackslash(el) then JoinState(st.pending + el, st.lines)
    else if st.pending != [] && !IsBlank(el) then
      JoinState("", st.lines + [JoinContinued(st.pending + el)])
    else if !IsBlank(el) then JoinState(st.pending, st.lines + [Strip(el)])
    else st
  }

  function JoinAfter(ls: seq<string>, i: nat): JoinState
    requires i <= |ls|
  {
    if i == 0 then JoinState("", []) else JoinStep(JoinAfter(ls, i - 1), ls[i - 1])
  }

  /** The lines of the first pass over `text.split('\n')`; a continuation still pending at the
      end is dropped. */
  function BrokenLines(text: string): seq<string> {
    var ls := Split(text, "\n");
    JoinAfter(ls, |ls|).lines
  }

  /** What every line of the first pass is: not empty, trimmed, and without a backslash. */
  predicate CleanLine(l: string) {
    l != [] && Trimmed(l) && '\\' !in l
  }

  /** Every line of the first pass is non-blank, whitespace-trimmed and holds no backslash. */
  lemma BrokenLinesClean(text: string)
    ensures forall l :: l in BrokenLines(text) ==> CleanLine(l)
  {
    var ls := Split(text, "\n");
    JoinAfterClean(ls, |ls|);
  }

  lemma {:induction false} JoinAfterClean(ls: seq<string>, i: nat)
    requires i <= |ls|
    ensures forall l :: l in JoinAfter(ls, i).lines ==> CleanLine(l)
  {
    if i > 0 {
      JoinAfterClean(ls, i - 1);
      JoinStepClean(JoinAfter(ls, i - 1), ls[i - 1]);
    }
  }

  lemma JoinStepClean(st: JoinState, el: string)
    requires forall l :: l in st.lines ==> CleanLine(l)
    ensures forall l :: l in JoinStep(st, el).lines ==> CleanLine(l)
  {
    if !HasBackslash(el) && !IsBlank(el) {
      ContainsChar(el, '\\');
      if st.pending != [] {
        ContinuedClean(st.pending, el);
      }
    }
  }

  /** Ending a continuation with a non-blank line without a backslash gives a clean line. */
  lemma ContinuedClean(p: string, el: string)
    requires '\\' !in el && !IsBlank(el)
    ensures CleanLine(JoinContinued(p + el))
  {
    var x := p + el;
    var k :| 0 <= k < |el| && !IsSpace(el[k]);
    assert x[|p| + k] == el[k] && el[k] in el;
    JoinedNotBlank(x, '\\', |p| + k);
    SplitAvoids(x, '\\');
    var q := StripEach(Split(x, "\\"));
    assert JoinContinued(x) == Strip(StripJoin(x, '\\'));
    assert forall s :: s in q ==> '\\' !in s;
    JoinAvoids(q, " ", '\\');
  }

  /** A text with a character that is neither whitespace nor `c` keeps a non-blank remainder
      after splitting at `c`, stripping the pieces and joining them with spaces. */
  lemma {:induction false} JoinedNotBlank(x: string, c: char, w: nat)
    requires w < |x| && !IsSpace(x[w]) && x[w] != c
    ensures !IsBlank(StripJoin(x, c))
    decreases |x|
  {
    var i := IndexOf(x, [c]);
    if i == |x| {
      StripJoinWhole(x, c);
      NotBlankStrip(x, w);
      assert !IsBlank(StripJoin(x, c));
    } else {
      var rest := x[i + 1..];
      FoundChar(x, c);
      if w < i {
        assert x[..i][w] == x[w];
        NotBlankStrip(x[..i], w);
      } else {
        assert w > i;
        var v := w - i - 1;
        assert rest[v] == x[w];
        JoinedNotBlank(rest, c, v);
      }
      StripJoinNotBlank(x, c, i);
    }
  }

  lemma StripJoinNotBlank(x: string, c: char, i: nat)
    requires i == IndexOf(x, [c]) < |x|
    requires !IsBlank(Strip(x[..i])) || !IsBlank(StripJoin(x[i + 1..], c))
    ensures !IsBlank(StripJoin(x, c))
  {
    StripJoinCons(x, c, i);
    NotBlankCons(Strip(x[..i]), StripJoin(x[i + 1..], c));
  }

  lemma NotBlankCons(head: string, tail: string)
    requires !IsBlank(head) || !IsBlank(tail)
    ensures !IsBlank(head + (" " + tail))
  {
    if !IsBlank(head) {
      NotBlankPrefix(head, " " + tail);
    } else {
      NotBlankAfter(" ", tail);
      NotBlankAfter(head, " " + tail);
    }
  }

  /** The pieces of `x` around `c`, stripped and joined with spaces. */
  function StripJoin(x: string, c: char): string {
    Join(StripEach(Split(x, [c])), " ")
  }

  lemma FoundChar(x: string, c: char)
    requires IndexOf(x, [c]) < |x|
    ensures x[IndexOf(x, [c])] == c
  {
    var i := IndexOf(x, [c]);
    IndexOfOccurs(x, [c]);
    assert x[i..i + 1] == [c];
    assert x[i] == x[i..i + 1][0];
  }

  lemma StripJoinWhole(x: string, c: char)
    requires IndexOf(x, [c]) == |x|
    ensures StripJoin(x, c) == Strip(x)
  {
    SplitWhole(x, [c]);
    assert StripEach(Split(x, [c]))[0] == Strip(x);
  }

  lemma StripJoinCons(x: string, c: char, i: nat)
    requires i == IndexOf(x, [c]) < |x|
    ensures StripJoin(x, c) == Strip(x[..i]) + (" " + StripJoin(x[i + 1..], c))
  {
    SplitDropHead(x, [c]);
    SplitUnfoldHead(x, [c]);
    JoinStripCons(Split(x, [c]));
  }

  lemma JoinStripCons(parts: seq<string>)
    requires |parts| >= 2
    ensures Join(StripEach(parts), " ") == Strip(parts[0]) + (" " + Join(StripEach(parts[1..]), " "))
  {
    var q := StripEach(parts);
    StripEachDrop(parts);
    assert Join(q, " ") == q[0] + " " + Join(q[1..], " ");
  }

  lemma StripEachDrop(parts: seq<string>)
    requires |parts| > 0
    ensures StripEach(parts)[1..] == StripEach(parts[1..])
  {
    var a, b := StripEach(parts)[1..], StripEach(parts[1..]);
    assert |a| == |b|;
    assert forall k :: 0 <= k < |a| ==> a[k] == b[k];
  }

  lemma NotBlankStrip(s: string, w: nat)
    requires w < |s| && !IsSpace(s[w])
    ensures !IsBlank(Strip(s))
  {
    assert !IsBlank(s);
    var r := Strip(s);
    assert !IsSpace(r[0]);
  }

  lemma NotBlankPrefix(a: string, b: string)
    requires !IsBlank(a)
    ensures !IsBlank(a + b)
  {
    var k :| 0 <= k < |a| && !IsSpace(a[k]);
    assert (a + b)[k] == a[k];
  }

  lemma NotBlankAfter(a: string, b: string)
    requires !IsBlank(b)
    ensures !IsBlank(a + b)
  {
    var k :| 0 <= k < |b| && !IsSpace(b[k]);
    assert (a + b)[|a| + k] == b[k];
  }

  /** The lines of `ls[i..m]` that hold a backslash, concatenated; blank lines without one are
      left out. */
  function RunText(ls: seq<string>, i: nat, m: nat): string
    requires i <= m <= |ls|
    decreases m - i
  {
    if m == i then ""
    else RunText(ls, i, m - 1) + (if HasBackslash(ls[m - 1]) then ls[m - 1] else "")
  }

  /** A run of physical lines that each hold a backslash or are blank, starting with a backslash
      line and followed by a non-blank line without one, becomes a single line: the pieces around
      every backslash of the run's backslash lines and the closing line, stripped and joined with
      single spaces. Blank lines inside the run contribute nothing. */
  lemma ContinuationJoined(ls: seq<string>, i: nat, j: nat)
    requires i < j < |ls|
    requires JoinAfter(ls, i).pending == []
    requires HasBackslash(ls[i])
    requires forall m :: i <= m < j ==> HasBackslash(ls[m]) || IsBlank(ls[m])
    requires !HasBackslash(ls[j]) && !IsBlank(ls[j])
    ensures JoinAfter(ls, j + 1)
      == JoinState("", JoinAfter(ls, i).lines + [JoinContinued(RunText(ls, i, j) + ls[j])])
  {
    PendingRun(ls, i, j, JoinAfter(ls, i).lines);
    PendingNotEmpty(ls, i, j);
  }

  lemma {:induction false} PendingNotEmpty(ls: seq<string>, i: nat, m: nat)
    requires i < m <= |ls| && HasBackslash(ls[i])
    ensures RunText(ls, i, m) != []
    decreases m - i
  {
    if m > i + 1 {
      PendingNotEmpty(ls, i, m - 1);
    } else {
      ContainsChar(ls[i], '\\');
      RunTextStep(ls, i, m);
    }
  }

  /** While a continuation runs, the pending text is the run's backslash lines concatenated and
      nothing is emitted. */
  lemma PendingRun(ls: seq<string>, i: nat, m: nat, lines: seq<string>)
    requires i <= m < |ls|
    requires JoinAfter(ls, i) == JoinState("", lines)
    requires RunLines(ls, i, m)
    ensures JoinAfter(ls, m) == JoinState(RunText(ls, i, m), lines)
    decreases m - i
  {
    if m > i {
      PendingRun(ls, i, m - 1, lines);
      RunLineAt(ls, i, m, m - 1);
      PendingStep(ls, i, m - 1, lines);
    }
  }

  lemma RunLineAt(ls: seq<string>, i: nat, m: nat, n: nat)
    requires i <= n < m <= |ls| && RunLines(ls, i, m)
    ensures HasBackslash(ls[n]) || IsBlank(ls[n])
  {
  }

  /** Every line of `ls[i..m]` holds a backslash or is blank. */
  predicate RunLines(ls: seq<string>, i: nat, m: nat)
    requires i <= m <= |ls|
  {
    forall n :: i <= n < m ==> HasBackslash(ls[n]) || IsBlank(ls[n])
  }

  lemma PendingStep(ls: seq<string>, i: nat, k: nat, lines: seq<string>)
    requires i <= k < |ls|
    requires JoinAfter(ls, k) == JoinState(RunText(ls, i, k), lines)
    requires HasBackslash(ls[k]) || IsBlank(ls[k])
    ensures JoinAfter(ls, k + 1) == JoinState(RunText(ls, i, k + 1), lines)
  {
    var st := JoinAfter(ls, k);
    assert JoinAfter(ls, k + 1) == JoinStep(st, ls[k]);
    if HasBackslash(ls[k]) {
      BackslashStep(st, ls[k]);
    } else {
      BlankStep(st, ls[k]);
    }
    RunTextStep(ls, i, k + 1);
  }

  lemma RunTextStep(ls: seq<string>, i: nat, m: nat)
    requires i < m <= |ls|
    ensures RunText(ls, i, m)
      == RunText(ls, i, m - 1) + (if HasBackslash(ls[m - 1]) then ls[m - 1] else "")
  {
  }

  lemma BackslashStep(st: JoinState, el: string)
    requires HasBackslash(el)
    ensures JoinStep(st, el) == JoinState(st.pending + el, st.lines)
  {
  }

  lemma BlankStep(st: JoinState, el: string)
    requires !HasBackslash(el) && IsBlank(el)
    ensures JoinStep(st, el) == st
  {
  }

  // ---------------------------------------------------------------- clean_lines, second pass

  /** The state of the second pass: the current second-level line with the third-level lines
      attached so far (`_el`), and the lines produced (`fixed_lines`). */
  datatype AttachState = AttachState(acc: string, lines: seq<string>)

  /** A second-level line starts a new accumulator and is emitted; a third-level line is attached
      after one space and the grown accumulator is emitted; any other line is dropped. */
  function AttachStep(st: AttachState, line: string): AttachState {
    if SecondLevelLine(line) then AttachState(line, st.lines + [line])
    else if ThirdLevelLine(line) then
      var grown := st.acc + " " + line;
      AttachState(grown, st.lines + [grown])
    else st
  }

  function AttachAfter(ls: seq<string>, i: nat): AttachState
    requires i <= |ls|
  {
    if i == 0 then AttachState("", []) else AttachStep(AttachAfter(ls, i - 1), ls[i - 1])
  }

  /** `clean_lines(text)`: both passes. */
  function CleanLinesSpec(text: string): seq<string> {
    var b := BrokenLines(text);
    AttachAfter(b, |b|).lines
  }

  /** The lines the second pass keeps, in order. */
  function KeptUpTo(ls: seq<string>, i: nat): (k: seq<string>)
    requires i <= |ls|
    ensures forall x :: x in k ==> x in ls
    ensures forall x :: x in k ==> SecondLevelLine(x) || ThirdLevelLine(x)
  {
    if i == 0 then []
    else
      var k := KeptUpTo(ls, i - 1);
      var l := ls[i - 1];
      if SecondLevelLine(l) || ThirdLevelLine(l) then k + [l] else k
  }

  /** How the output of the second pass is made from the kept lines: one output per kept line;
      a second-level line is output as it is; a third-level line is output appended, after one
      space, to the previous output (to the empty text when there is none). */
  predicate Attached(k: seq<string>, out: seq<string>) {
    |out| == |k| && forall j :: 0 <= j < |k| ==> AttachedAt(k, out, j)
  }

  predicate AttachedAt(k: seq<string>, out: seq<string>, j: nat)
    requires j < |k| == |out|
  {
    if SecondLevelLine(k[j]) then out[j] == k[j] else out[j] == Before(out, j) + " " + k[j]
  }

  /** The output before position `j`, or the empty text at the start. */
  function Before(out: seq<string>, j: nat): string
    requires j <= |out|
  {
    if j == 0 then "" else out[j - 1]
  }

  /** The second pass outputs exactly one line per kept line, built as `Attached` describes; lines
      matching neither pattern are dropped. */
  lemma {:induction false} AttachShape(ls: seq<string>, i: nat)
    requires i <= |ls|
    ensures Attached(KeptUpTo(ls, i), AttachAfter(ls, i).lines)
    ensures AttachAfter(ls, i).acc == Before(AttachAfter(ls, i).lines, |AttachAfter(ls, i).lines|)
  {
    if i > 0 {
      AttachShape(ls, i - 1);
      var st, l := AttachAfter(ls, i - 1), ls[i - 1];
      if SecondLevelLine(l) || ThirdLevelLine(l) {
        AttachedAppend(KeptUpTo(ls, i - 1), st.lines, l, AttachStep(st, l).lines[|st.lines|]);
      }
    }
  }

  lemma AttachedAppend(k: seq<string>, out: seq<string>, line: string, o: string)
    requires Attached(k, out)
    requires if SecondLevelLine(line) then o == line else o == Before(out, |out|) + " " + line
    ensures Attached(k + [line], out + [o])
  {
    var k2, out2 := k + [line], out + [o];
    forall j | 0 <= j < |k2| ensures AttachedAt(k2, out2, j) {
      if j < |k| {
        assert AttachedAt(k, out, j);
        assert k2[j] == k[j] && out2[j] == out[j] && Before(out2, j) == Before(out, j);
      }
    }
  }

  /** Second and third-level lines are told apart by what follows the leading letters. */
  lemma LevelsExclusive(s: string)
    ensures !(SecondLevelLine(s) && ThirdLevelLine(s))
  {
  }

  /** Every output line of `clean_lines` is non-blank and ends without whitespace, and it starts
      without whitespace exactly when a second-level line was kept at or before it (a third-level
      line before any second-level line is attached to the empty text, after a space). */
  lemma CleanLinesTrimmed(text: string)
    ensures var b := BrokenLines(text);
      var k, out := KeptUpTo(b, |b|), CleanLinesSpec(text);
      |out| == |k|
      && forall j :: 0 <= j < |out| ==>
        out[j] != [] && !IsSpace(out[j][|out[j]| - 1])
        && (!IsSpace(out[j][0]) <==> exists m :: 0 <= m <= j && SecondLevelLine(k[m]))
  {
    var b := BrokenLines(text);
    BrokenLinesClean(text);
    var k := KeptUpTo(b, |b|);
    AttachShape(b, |b|);
    var out := CleanLinesSpec(text);
    forall j | 0 <= j < |out|
      ensures out[j] != [] && !IsSpace(out[j][|out[j]| - 1])
      ensures !IsSpace(out[j][0]) <==> exists m :: 0 <= m <= j && SecondLevelLine(k[m])
    {
      AttachedEnds(k, out, j);
      AttachedStarts(k, out, j);
    }
  }

  lemma AttachedEnds(k: seq<string>, out: seq<string>, j: nat)
    requires Attached(k, out) && j < |out|
    requires forall x :: x in k ==> CleanLine(x)
    ensures out[j] != [] && !IsSpace(out[j][|out[j]| - 1])
  {
    assert k[j] in k && AttachedAt(k, out, j);
    var o := out[j];
    if !SecondLevelLine(k[j]) {
      assert o[|o| - 1] == k[j][|k[j]| - 1];
    }
  }

  lemma {:induction false} AttachedStarts(k: seq<string>, out: seq<string>, j: nat)
    requires Attached(k, out) && j < |out|
    requires forall x :: x in k ==> CleanLine(x)
    ensures out[j] != []
    ensures !IsSpace(out[j][0]) <==> exists m :: 0 <= m <= j && SecondLevelLine(k[m])
  {
    AttachedEnds(k, out, j);
    assert k[j] in k && AttachedAt(k, out, j);
    if !SecondLevelLine(k[j]) {
      if j > 0 {
        AttachedEnds(k, out, j - 1);
        AttachedStarts(k, out, j - 1);
        assert out[j][0] == out[j - 1][0];
        assert (exists m :: 0 <= m <= j && SecondLevelLine(k[m]))
          <==> (exists m :: 0 <= m <= j - 1 && SecondLevelLine(k[m]));
      } else {
        assert out[j][0] == ' ';
      }
    }
  }

  /** `Genkey.clean_lines`: the two loops of the source. */
  method CleanLines(text: string) returns (fixed: seq<string>)
    ensures fixed == CleanLinesSpec(text)
  {
    var physical := Split(text, "\n");
    var pending := "";
    var broken: seq<string> := [];
    var i := 0;
    while i < |physical|
      invariant i <= |physical|
      invariant JoinState(pending, broken) == JoinAfter(physical, i)
    {
      pending, broken := JoinLine(pending, broken, physical[i]);
      i := i + 1;
    }
    var acc := "";
    fixed := [];
    var j := 0;
    while j < |broken|
      invariant j <= |broken|
      invariant AttachState(acc, fixed) == AttachAfter(broken, j)
    {
      acc, fixed := AttachLine(acc, fixed, broken[j]);
      j := j + 1;
    }
  }

  /** One pass of the first loop of `clean_lines` over the physical line `el`. */
  method JoinLine(pending: string, broken: seq<string>, el: string)
    returns (pending': string, broken': seq<string>)
    ensures JoinState(pending', broken') == JoinStep(JoinState(pending, broken), el)
  {
    pending', broken' := pending, broken;
    if HasBackslash(el) {
      if pending' == [] {
        pending' := el;
      } else {
        pending' := pending' + el;
      }
    } else if pending' != [] && !IsBlank(el) {
      pending' := pending' + el;
      pending' := Join(StripEach(Split(pending', "\\")), " ");
      broken' := broken' + [Strip(pending')];
      pending' := "";
    } else if !IsBlank(el) {
      broken' := broken' + [Strip(el)];
    }
  }

  /** One pass of the second loop of `clean_lines` over the logical line `line`. */
  method AttachLine(acc: string, fixed: seq<string>, line: string)
    returns (acc': string, fixed': seq<string>)
    ensures AttachState(acc', fixed') == AttachStep(AttachState(acc, fixed), line)
  {
    acc', fixed' := acc, fixed;
    if SecondLevelLine(line) {
      acc' := line;
      fixed' := fixed' + [line];
    } else if ThirdLevelLine(line) {
      acc' := acc' + " " + line;
      fixed' := fixed' + [acc'];
    }
  }

  // ---------------------------------------------------------------- split_values

  /** The state of `split_values`: a pending `INFO=` token (`_info`), the tuple being gathered
      (`_el`), whether a tuple is open (`flag`), and the tokens produced (`clean_line`). */
  datatype SplitState = SplitState(info: string, acc: string, open: bool, out: seq<string>)

  /** A token `KEY value` is cut at its first space: the key, then the rest joined again. */
  function SecondKeyHead(el: string): string {
    Split(el, " ")[0]
  }

  function SecondKeyRest(el: string): string {
    Join(Split(el, " ")[1..], " ")
  }

  /** One token of `split_values`, in the order the source tests its patterns. `last` says
      whether it is the last token of the line. */
  function SplitStep(st: SplitState, el: string, last: bool): SplitState {
    if KeyThenSpace(el) then
      var head, rest := SecondKeyHead(el), SecondKeyRest(el);
      if KeyOpensTupleSpaced(rest) then st.(acc := rest, open := true, out := st.out + [head])
      else st.(out := st.out + [head, rest])
    else if KeyOpensTuple(el) then st.(acc := el, open := true)
    else if KeyThenEquals(el) then
      if last then st.(out := st.out + [el])
      else if StartsWith(el, "INFO") then st.(info := el)
      else st.(out := st.out + [el])
    else if StartsWith(st.info, "INFO") then st.(info := "", out := st.out + [st.info + ", " + el])
    else if st.open then
      var grown := st.acc + (", " + el);
      if ClosesTuple(", " + el) then st.(acc := "", open := false, out := st.out + [grown])
      else st.(acc := grown)
    else st
  }

  function SplitAfter(toks: seq<string>, i: nat): SplitState
    requires i <= |toks|
  {
    if i == 0 then SplitState("", "", false, [])
    else SplitStep(SplitAfter(toks, i - 1), toks[i - 1], i == |toks|)
  }

  /** `split_values(line)` over `line.split(', ')`. */
  function SplitValuesSpec(line: string): seq<string> {
    var toks := Split(line, ", ");
    SplitAfter(toks, |toks|).out
  }

  /** A token that none of the key patterns matches: a value continuing an `INFO=` token or an
      open tuple. */
  predicate Plain(el: string) {
    !KeyThenSpace(el) && !KeyThenEquals(el)
  }

  /** The produced tokens only grow: each step appends to them. */
  lemma {:induction false} SplitOutGrows(toks: seq<string>, i: nat, j: nat)
    requires i <= j <= |toks|
    ensures SplitAfter(toks, i).out <= SplitAfter(toks, j).out
    decreases j - i
  {
    if i < j {
      SplitOutGrows(toks, i, j - 1);
      StepGrows(SplitAfter(toks, j - 1), toks[j - 1], j == |toks|);
      PrefixTrans(SplitAfter(toks, i).out, SplitAfter(toks, j - 1).out, SplitAfter(toks, j).out);
    }
  }

  lemma PrefixTrans(a: seq<string>, b: seq<string>, c: seq<string>)
    requires a <= b && b <= c
    ensures a <= c
  {
    assert forall k :: 0 <= k < |a| ==> a[k] == b[k] == c[k];
  }

  lemma StepGrows(st: SplitState, el: string, last: bool)
    ensures st.out <= SplitStep(st, el, last).out
  {
  }

  /** The pending info is empty or an `INFO=` token. */
  lemma {:induction false} InfoShape(toks: seq<string>, i: nat)
    requires i <= |toks|
    ensures var info := SplitAfter(toks, i).info; info == "" || StartsWith(info, "INFO")
  {
    if i > 0 {
      InfoShape(toks, i - 1);
      StepInfo(SplitAfter(toks, i - 1), toks[i - 1], i == |toks|);
    }
  }

  lemma StepInfo(st: SplitState, el: string, last: bool)
    requires st.info == "" || StartsWith(st.info, "INFO")
    ensures var info := SplitStep(st, el, last).info; info == "" || StartsWith(info, "INFO")
  {
  }

  /** A token `KEY value` with a space after the upper-case key gives the key, then the text after
      the space; together they spell the token again. */
  lemma SecondKeyParts(el: string)
    requires KeyThenSpace(el) && el[UpperRun(el)] == ' '
    ensures SecondKeyHead(el) == el[..UpperRun(el)]
    ensures SecondKeyRest(el) == el[UpperRun(el) + 1..]
    ensures SecondKeyHead(el) + " " + SecondKeyRest(el) == el
  {
    var k := UpperRun(el);
    assert IndexOf(el, " ") == k by {
      assert OccursAt(el, " ", k);
      forall j | 0 <= j < k ensures !OccursAt(el, " ", j) {
        assert el[j..j + 1][0] == el[j];
      }
      IndexOfAt(el, " ", k);
    }
    SplitHead(el, " ");
    assert el == el[..k] + " " + el[k + 1..];
  }

  /** A `KEY=value` token for `INFO` that, not last on its line, is held back in `_info`. */
  predicate InfoToken(el: string) {
    KeyThenEquals(el) && !KeyOpensTuple(el) && StartsWith(el, "INFO")
  }

  /** A key token, not for `INFO`: it neither reads nor changes the held `_info`. */
  predicate PassesInfo(el: string) {
    !Plain(el) && !StartsWith(el, "INFO")
  }

  lemma StepKeepsInfo(st: SplitState, el: string, last: bool, t: string)
    requires PassesInfo(el)
    ensures SplitStep(st.(info := t), el, last) == SplitStep(st, el, last).(info := t)
  {
  }

  /** Two lines that agree before `i` are split alike up to there. */
  lemma {:induction false} SplitPrefix(a: seq<string>, b: seq<string>, i: nat)
    requires i < |a| && i < |b| && a[..i] == b[..i]
    ensures SplitAfter(a, i) == SplitAfter(b, i)
    decreases i
  {
    if i > 0 {
      assert a[..i - 1] == a[..i][..i - 1] && b[..i - 1] == b[..i][..i - 1];
      assert a[i - 1] == a[..i][i - 1] && b[i - 1] == b[..i][i - 1];
      SplitPrefix(a, b, i - 1);
    }
  }

  /** A key token not for `INFO` keeps the relation between a line holding a token and the line
      without it. */
  lemma HeldStep(toks: seq<string>, rest: seq<string>, j: nat, t: string)
    requires 1 < j <= |toks| && |rest| == |toks| - 1
    requires rest[j - 2] == toks[j - 1] && PassesInfo(toks[j - 1])
    requires SplitAfter(toks, j - 1) == SplitAfter(rest, j - 2).(info := t)
    ensures SplitAfter(toks, j) == SplitAfter(rest, j - 1).(info := t)
  {
    StepKeepsInfo(SplitAfter(rest, j - 2), toks[j - 1], j == |toks|, t);
  }

  lemma DropIndex(toks: seq<string>, i: nat, m: nat)
    requires i <= m && m + 1 < |toks|
    ensures (toks[..i] + toks[i + 1..])[m] == toks[m + 1]
  {
  }

  /** An `INFO=` token not last on its line, followed only by key tokens not for `INFO`, is
      held in `_info`: everything else is as if the line did not have it. */
  lemma {:induction false} InfoHeld(toks: seq<string>, i: nat, j: nat)
    requires i + 1 < |toks| && i < j <= |toks|
    requires InfoToken(toks[i])
    requires forall k :: i < k < j ==> PassesInfo(toks[k])
    ensures SplitAfter(toks, j) == SplitAfter(toks[..i] + toks[i + 1..], j - 1).(info := toks[i])
    decreases j
  {
    var rest := toks[..i] + toks[i + 1..];
    if j == i + 1 {
      assert rest[..i] == toks[..i];
      SplitPrefix(toks, rest, i);
      assert !KeyThenSpace(toks[i]);
    } else {
      InfoHeld(toks, i, j - 1);
      DropIndex(toks, i, j - 2);
      HeldStep(toks, rest, j, toks[i]);
    }
  }

  /** An `INFO=` token not last on its line is emitted joined with `, ` to the first plain token
      after it; key tokens not for `INFO` in between are emitted on their own meanwhile. */
  lemma InfoJoinedWithNext(toks: seq<string>, i: nat, j: nat)
    requires i < j < |toks|
    requires InfoToken(toks[i])
    requires forall k :: i < k < j ==> PassesInfo(toks[k])
    requires Plain(toks[j])
    ensures var st := SplitAfter(toks, j);
      st.info == toks[i]
      && SplitAfter(toks, j + 1) == st.(info := "", out := st.out + [toks[i] + ", " + toks[j]])
  {
    InfoHeld(toks, i, j);
  }

  /** An `INFO=` token not last on its line that no plain token follows is never emitted: the
      line gives what it gives without that token. */
  lemma InfoDropped(toks: seq<string>, i: nat)
    requires i + 1 < |toks|
    requires InfoToken(toks[i])
    requires forall k :: i < k < |toks| ==> PassesInfo(toks[k])
    ensures var rest := toks[..i] + toks[i + 1..];
      SplitAfter(toks, |toks|).info == toks[i] && SplitAfter(toks, |toks|).out == SplitAfter(rest, |rest|).out
  {
    var rest := toks[..i] + toks[i + 1..];
    assert |rest| == |toks| - 1;
    InfoHeld(toks, i, |toks|);
  }

  /** The last token of a line, when it is `KEY=value`, is produced as it is, even an `INFO=`. */
  lemma LastKeyKept(toks: seq<string>)
    requires |toks| > 0
    requires var el := toks[|toks| - 1]; KeyThenEquals(el) && !KeyOpensTuple(el)
    ensures var n := |toks|; SplitAfter(toks, n).out == SplitAfter(toks, n - 1).out + [toks[n - 1]]
  {
    assert !KeyThenSpace(toks[|toks| - 1]);
  }

  /** The tokens `toks[i..m]` joined again with `, `. */
  function JoinRange(toks: seq<string>, i: nat, m: nat): string
    requires i < m <= |toks|
    decreases m - i
  {
    if m == i + 1 then toks[i] else JoinRange(toks, i, m - 1) + (", " + toks[m - 1])
  }

  lemma {:induction false} JoinRangeIsJoin(toks: seq<string>, i: nat, m: nat)
    requires i < m <= |toks|
    ensures JoinRange(toks, i, m) == Join(toks[i..m], ", ")
    decreases m - i
  {
    if m > i + 1 {
      JoinRangeIsJoin(toks, i, m - 1);
      assert toks[i..m] == toks[i..m - 1] + [toks[m - 1]];
      JoinAppend(toks[i..m - 1], toks[m - 1], ", ");
    }
  }

  /** While a tuple opened by a `KEY=(` token is open, the plain tokens after it are gathered. */
  lemma {:induction false} OpenRun(toks: seq<string>, i: nat, m: nat)
    requires i < m <= |toks|
    requires KeyOpensTuple(toks[i]) && !StartsWith(SplitAfter(toks, i).info, "INFO")
    requires forall n :: i < n < m ==> Plain(toks[n]) && !ClosesTuple(", " + toks[n])
    ensures SplitAfter(toks, m) == SplitAfter(toks, i).(acc := JoinRange(toks, i, m), open := true)
    decreases m - i
  {
    if m == i + 1 {
      assert !KeyThenSpace(toks[i]);
    } else {
      OpenRun(toks, i, m - 1);
      var st := SplitAfter(toks, m - 1);
      assert SplitAfter(toks, m) == SplitStep(st, toks[m - 1], m == |toks|);
      OpenStep(st, toks[m - 1], m == |toks|);
      JoinRangeStep(toks, i, m);
    }
  }

  /** A plain token that does not close the open tuple is gathered into it. */
  lemma OpenStep(st: SplitState, el: string, last: bool)
    requires Plain(el) && !StartsWith(st.info, "INFO") && st.open && !ClosesTuple(", " + el)
    ensures SplitStep(st, el, last) == st.(acc := st.acc + (", " + el))
  {
  }

  lemma JoinRangeStep(toks: seq<string>, i: nat, m: nat)
    requires i + 1 < m <= |toks|
    ensures JoinRange(toks, i, m) == JoinRange(toks, i, m - 1) + (", " + toks[m - 1])
  {
  }

  /** A tuple opened by a `KEY=(` token and closed by a later token ending in `)` (or `) ...`) is
      produced as one token: the tokens from the opening one to the closing one, joined again with
      `, `, as they stood in the line. */
  lemma TupleSpanRejoined(toks: seq<string>, i: nat, j: nat)
    requires i < j < |toks|
    requires KeyOpensTuple(toks[i]) && !StartsWith(SplitAfter(toks, i).info, "INFO")
    requires forall n :: i < n < j ==> Plain(toks[n]) && !ClosesTuple(", " + toks[n])
    requires Plain(toks[j]) && ClosesTuple(", " + toks[j])
    ensures var st := SplitAfter(toks, i);
      SplitAfter(toks, j + 1)
        == st.(acc := "", open := false, out := st.out + [Join(toks[i..j + 1], ", ")])
  {
    OpenRun(toks, i, j);
    JoinRangeIsJoin(toks, i, j + 1);
  }

  /** `Genkey.split_values`: the loop of the source. */
  method SplitValues(line: string) returns (clean: seq<string>)
    ensures clean == SplitValuesSpec(line)
  {
    var toks := Split(line, ", ");
    var info, acc, open := "", "", false;
    clean := [];
    var n := 0;
    while n < |toks|
      invariant n <= |toks|
      invariant SplitState(info, acc, open, clean) == SplitAfter(toks, n)
    {
      info, acc, open, clean := SplitToken(info, acc, open, clean, toks[n], n + 1 == |toks|);
      n := n + 1;
    }
  }

  /** The body of `split_values`'s loop for the token `el`; `last` says whether it is the last
      token of the line. */
  method SplitToken(info: string, acc: string, open: bool, clean: seq<string>, el: string, last: bool)
    returns (info': string, acc': string, open': bool, clean': seq<string>)
    ensures SplitState(info', acc', open', clean') == SplitStep(SplitState(info, acc, open, clean), el, last)
  {
    info', acc', open', clean' := info, acc, open, clean;
    if KeyThenSpace(el) {
      var pieces := Split(el, " ");
      clean' := clean' + [pieces[0]];
      var second := Join(pieces[1..], " ");
      if KeyOpensTupleSpaced(second) {
        acc' := second;
        open' := true;
        return;
      }
      clean' := clean' + [second];
      return;
    }
    if KeyOpensTuple(el) {
      acc' := el;
      open' := true;
      return;
    }
    if KeyThenEquals(el) {
      if last {
        clean' := clean' + [el];
        return;
      }
      if StartsWith(el, "INFO") {
        info' := el;
        return;
      }
      clean' := clean' + [el];
      return;
    }
    if StartsWith(info, "INFO") {
      info' := info + ", " + el;
      clean' := clean' + [info'];
      info' := "";
      return;
    }
    if open {
      var grown := ", " + el;
      acc' := acc + grown;
      if ClosesTuple(grown) {
        clean' := clean' + [acc'];
        acc' := "";
        open' := false;
      }
    }
  }
}
