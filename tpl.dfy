/** The header and elevation-profile decoders of an OLGA `.tpl` report: `Info` takes ten fields
    from fixed lines of the header, `Profile` is the list of (x, y) points read from the lines
    between the header and `CATALOG`. */
module Tpl {
  import opened Wrappers
  import opened Text
  import opened Literals
  import opened OrderedDict

  datatype TplError =
    | MissingLine(index: nat)       // a header line the decoder indexes is absent
    | BadNetwork(text: string)      // the network line is not a numeric literal
    | NoGeometry(line: string)      // the geometry line has fewer than two words
    | NoProfileLines                // nothing after the first 20 lines to drop the last one of
    | BadFloat(token: string)       // a profile token that is not a number

  // ---------------------------------------------------------------- Info

  /** `string.replace("'", "").strip()`: no quote is left and the ends are trimmed. */
  function DeleteQuotes(s: string): (r: string)
    ensures '\'' !in r && Trimmed(r)
    ensures forall c :: c in r ==> c in s && c != '\''
  {
    Strip(Remove(s, '\''))
  }

  /** A quote-free, trimmed text is left alone, so deleting quotes twice is deleting them once. */
  lemma DeleteQuotesFixed(s: string)
    ensures DeleteQuotes(s) == s <==> '\'' !in s && Trimmed(s)
    ensures DeleteQuotes(DeleteQuotes(s)) == DeleteQuotes(s)
  {
    var t := DeleteQuotes(s);
    assert Remove(t, '\'') == t;
  }

  /** The ten fields of an `Info`; `None` is a field not assigned yet. */
  datatype InfoState = InfoState(
    version: Option<string>, inputFile: Option<string>, pvtFile: Option<string>,
    date: Option<string>, project: Option<string>, title: Option<string>, author: Option<string>,
    network: Option<Literal>, geometry: Option<string>, branch: Option<string>)

  const Unset := InfoState(None, None, None, None, None, None, None, None, None, None)

  /** `file.split('\n')[:19]`. */
  function Header(file: string): (lines: seq<string>)
    ensures 1 <= |lines| <= 19
    ensures |lines| == if |Split(file, "\n")| <= 19 then |Split(file, "\n")| else 19
    ensures forall i :: 0 <= i < |lines| ==> lines[i] == Split(file, "\n")[i]
  {
    var all := Split(file, "\n");
    if |all| <= 19 then all else all[..19]
  }

  /** `line.split()[1]`, absent when the line has fewer than two words. */
  function Geometry(line: string): (g: Option<string>)
    ensures g.Some? <==> |SplitWhitespace(line)| >= 2
    ensures g.Some? ==> g.value != [] && g.value == SplitWhitespace(line)[1]
  {
    var words := SplitWhitespace(line);
    if |words| >= 2 then Some(words[1]) else None
  }

  /** The text fields of `set_info`, version to author, each from its line with `quotes`
      converting it; the first missing line stops it, leaving the fields assigned so far. */
  function SetTextFields(st: InfoState, lines: seq<string>, quotes: string -> string)
    : (InfoState, Option<TplError>)
    requires |lines| >= 1
  {
    var s0 := st.(version := Some(quotes(lines[0])));
    if |lines| <= 3 then (s0, Some(MissingLine(3))) else
    var s1 := s0.(inputFile := Some(quotes(lines[3])));
    if |lines| <= 5 then (s1, Some(MissingLine(5))) else
    var s2 := s1.(pvtFile := Some(quotes(lines[5])));
    if |lines| <= 7 then (s2, Some(MissingLine(7))) else
    var s3 := s2.(date := Some(quotes(lines[7])));
    if |lines| <= 9 then (s3, Some(MissingLine(9))) else
    var s4 := s3.(project := Some(quotes(lines[9])));
    if |lines| <= 11 then (s4, Some(MissingLine(11))) else
    var s5 := s4.(title := Some(quotes(lines[11])));
    if |lines| <= 13 then (s5, Some(MissingLine(13))) else
    (s5.(author := Some(quotes(lines[13]))), None)
  }

  /** `set_info` on the header lines, with `quotes`, `literal` and `geometry` converting a line to
      a text field, the network and the geometry: the fields in the order the source assigns them,
      each from its line; the first missing line or failed conversion stops it, leaving the
      fields assigned so far. */
  function SetInfoWith(st: InfoState, lines: seq<string>, quotes: string -> string,
                       literal: string -> Option<Literal>, geometry: string -> Option<string>)
    : (InfoState, Option<TplError>)
    requires |lines| >= 1
  {
    var (s6, e) := SetTextFields(st, lines, quotes);
    if e.Some? then (s6, e) else
    if |lines| <= 15 then (s6, Some(MissingLine(15))) else
    var network := literal(lines[15]);
    if network.None? then (s6, Some(BadNetwork(lines[15]))) else
    var s7 := s6.(network := network);
    if |lines| <= 16 then (s7, Some(MissingLine(16))) else
    var g := geometry(lines[16]);
    if g.None? then (s7, Some(NoGeometry(lines[16]))) else
    var s8 := s7.(geometry := g);
    (s8.(branch := Some(quotes(lines[|lines| - 1]))), None)
  }

  /** `set_info(file)`: only the first 19 lines are looked at. */
  function SetInfoSpec(st: InfoState, file: string): (InfoState, Option<TplError>) {
    SetInfoWith(st, Header(file), DeleteQuotes, ReadLiteral, Geometry)
  }

  /** `set_info` succeeds exactly when the header has at least 17 lines, line 15 converts to a
      network and line 16 to a geometry; then every field comes from its line, whatever the
      fields held before, and the branch from the last of the (at most 19) header lines. */
  lemma SetInfoSucceedsWith(st: InfoState, lines: seq<string>, quotes: string -> string,
                            literal: string -> Option<Literal>, geometry: string -> Option<string>)
    requires |lines| >= 1
    ensures var r := SetInfoWith(st, lines, quotes, literal, geometry);
      r.1 == None <==> |lines| >= 17 && literal(lines[15]).Some? && geometry(lines[16]).Some?
    ensures var r := SetInfoWith(st, lines, quotes, literal, geometry);
      r.1 == None ==> r.0 == InfoState(
        Some(quotes(lines[0])), Some(quotes(lines[3])), Some(quotes(lines[5])),
        Some(quotes(lines[7])), Some(quotes(lines[9])), Some(quotes(lines[11])),
        Some(quotes(lines[13])), literal(lines[15]), geometry(lines[16]),
        Some(quotes(lines[|lines| - 1])))
  {
  }

  /** A header of fewer than 17 lines fails at the first indexed line it lacks; the version is
      still assigned, and geometry and branch keep their previous values. */
  lemma SetInfoShortWith(st: InfoState, lines: seq<string>, quotes: string -> string,
                         literal: string -> Option<Literal>, geometry: string -> Option<string>)
    requires 1 <= |lines| < 17
    ensures var n := |lines|;
      var missing := if n <= 3 then 3 else if n <= 5 then 5 else if n <= 7 then 7
        else if n <= 9 then 9 else if n <= 11 then 11 else if n <= 13 then 13
        else if n <= 15 then 15 else 16;
      var r := SetInfoWith(st, lines, quotes, literal, geometry);
      (r.1 == Some(MissingLine(missing)) || (n == 16 && r.1 == Some(BadNetwork(lines[15]))))
      && r.0.version == Some(quotes(lines[0]))
      && r.0.geometry == st.geometry && r.0.branch == st.branch
  {
  }

  /** `set_info` on a file succeeds exactly when its header has at least 17 lines, line 15 is a
      numeric literal and line 16 has two words; then every field comes from its line, text
      fields without quotes, whatever the fields held before. */
  lemma SetInfoSucceeds(st: InfoState, file: string)
    ensures var lines := Header(file);
      SetInfoSpec(st, file).1 == None <==>
        |lines| >= 17 && ReadLiteral(lines[15]).Some? && |SplitWhitespace(lines[16])| >= 2
    ensures var lines := Header(file);
      SetInfoSpec(st, file).1 == None ==> SetInfoSpec(st, file).0 == InfoState(
        Some(DeleteQuotes(lines[0])), Some(DeleteQuotes(lines[3])), Some(DeleteQuotes(lines[5])),
        Some(DeleteQuotes(lines[7])), Some(DeleteQuotes(lines[9])), Some(DeleteQuotes(lines[11])),
        Some(DeleteQuotes(lines[13])), ReadLiteral(lines[15]), Some(SplitWhitespace(lines[16])[1]),
        Some(DeleteQuotes(lines[|lines| - 1])))
  {
    SetInfoSucceedsWith(st, Header(file), DeleteQuotes, ReadLiteral, Geometry);
  }

  /** With a full header the branch is line 18, and nothing after it is looked at. */
  lemma SetInfoBranch(st: InfoState, file: string)
    requires |Split(file, "\n")| >= 19
    ensures SetInfoSpec(st, file).1 == None ==>
      SetInfoSpec(st, file).0.branch == Some(DeleteQuotes(Split(file, "\n")[18]))
  {
    var lines := Header(file);
    assert |lines| == 19 && lines[18] == Split(file, "\n")[18];
    SetInfoSucceedsWith(st, lines, DeleteQuotes, ReadLiteral, Geometry);
  }

  /** A value of the dictionary `Info.serialize` returns. */
  datatype InfoValue = TextField(text: Option<string>) | NetworkField(network: Option<Literal>)

  const InfoKeys: seq<string> :=
    ["version", "input_file", "pvt_file", "date", "project", "title", "author", "network",
     "geometry", "branch"]

  /** `serialize`: the ten keys, each with its field. */
  function SerializeState(st: InfoState): seq<(string, InfoValue)> {
    [("version", TextField(st.version)), ("input_file", TextField(st.inputFile)),
     ("pvt_file", TextField(st.pvtFile)), ("date", TextField(st.date)),
     ("project", TextField(st.project)), ("title", TextField(st.title)),
     ("author", TextField(st.author)), ("network", NetworkField(st.network)),
     ("geometry", TextField(st.geometry)), ("branch", TextField(st.branch))]
  }

  function TextAt(d: seq<(string, InfoValue)>, k: string): Option<Option<string>> {
    var v := Lookup(d, k);
    if v.Some? && v.value.TextField? then Some(v.value.text) else None
  }

  /** The fields read back from a serialized dictionary by key; absent when a key is missing or
      holds the wrong kind of value. */
  function Deserialize(d: seq<(string, InfoValue)>): Option<InfoState> {
    var version, inputFile, pvtFile := TextAt(d, "version"), TextAt(d, "input_file"), TextAt(d, "pvt_file");
    var date, project, title := TextAt(d, "date"), TextAt(d, "project"), TextAt(d, "title");
    var author, geometry, branch := TextAt(d, "author"), TextAt(d, "geometry"), TextAt(d, "branch");
    var network := Lookup(d, "network");
    if network.Some? && network.value.NetworkField? && version.Some? && inputFile.Some?
       && pvtFile.Some? && date.Some? && project.Some? && title.Some? && author.Some?
       && geometry.Some? && branch.Some?
    then Some(InfoState(version.value, inputFile.value, pvtFile.value, date.value, project.value,
                        title.value, author.value, network.value.network, geometry.value, branch.value))
    else None
  }

  /** In a dictionary with distinct keys, every entry is found by its key. */
  lemma LookupEntry<V>(d: seq<(string, V)>, i: nat)
    requires i < |d| && Distinct(Keys(d))
    ensures Lookup(d, d[i].0) == Some(d[i].1)
  {
    var j := IndexOfKey(d, d[i].0);
    assert Keys(d)[j] == Keys(d)[i];
  }

  /** The ten keys differ from each other. */
  lemma InfoKeysDistinct()
    ensures Distinct(InfoKeys)
  {
    forall i, j | 0 <= i < j < |InfoKeys| ensures InfoKeys[i] != InfoKeys[j] {
      assert InfoKeys[i][0] != InfoKeys[j][0] || |InfoKeys[i]| != |InfoKeys[j]|;
    }
  }

  /** `serialize` has exactly the ten keys, each once, and every field can be read back by its
      key. */
  lemma SerializeRoundTrip(st: InfoState)
    ensures Keys(SerializeState(st)) == InfoKeys && Distinct(InfoKeys)
    ensures Deserialize(SerializeState(st)) == Some(st)
  {
    var d := SerializeState(st);
    assert Keys(d) == InfoKeys;
    InfoKeysDistinct();
    forall i | 0 <= i < 10 ensures Lookup(d, InfoKeys[i]) == Some(d[i].1) {
      LookupEntry(d, i);
    }
    assert TextAt(d, "version") == Some(st.version) by { assert InfoKeys[0] == "version"; }
    assert TextAt(d, "input_file") == Some(st.inputFile) by { assert InfoKeys[1] == "input_file"; }
    assert TextAt(d, "pvt_file") == Some(st.pvtFile) by { assert InfoKeys[2] == "pvt_file"; }
    assert TextAt(d, "date") == Some(st.date) by { assert InfoKeys[3] == "date"; }
    assert TextAt(d, "project") == Some(st.project) by { assert InfoKeys[4] == "project"; }
    assert TextAt(d, "title") == Some(st.title) by { assert InfoKeys[5] == "title"; }
    assert TextAt(d, "author") == Some(st.author) by { assert InfoKeys[6] == "author"; }
    assert Lookup(d, "network") == Some(NetworkField(st.network)) by { assert InfoKeys[7] == "network"; }
    assert TextAt(d, "geometry") == Some(st.geometry) by { assert InfoKeys[8] == "geometry"; }
    assert TextAt(d, "branch") == Some(st.branch) by { assert InfoKeys[9] == "branch"; }
  }

  /** The `Info` object: ten fields, all `None` until `set_info` assigns them. */
  class Info {
    var version: Option<string>
    var inputFile: Option<string>
    var pvtFile: Option<string>
    var date: Option<string>
    var project: Option<string>
    var title: Option<string>
    var author: Option<string>
    var network: Option<Literal>
    var geometry: Option<string>
    var branch: Option<string>

    function State(): InfoState
      reads this
    {
      InfoState(version, inputFile, pvtFile, date, project, title, author, network, geometry, branch)
    }

    constructor ()
      ensures State() == Unset
    {
      version, inputFile, pvtFile, date, project := None, None, None, None, None;
      title, author, network, geometry, branch := None, None, None, None, None;
    }

    /** `set_info`, assigning the fields one after another; a failure leaves the fields assigned
        before it. */
    method SetInfo(file: string) returns (err: Option<TplError>)
      modifies this
      ensures (State(), err) == SetInfoSpec(old(State()), file)
    {
      var lines := Header(file);
      err := AssignFields(lines, DeleteQuotes, ReadLiteral, Geometry);
    }

    /** The assignments of `set_info` over the header lines, with the line conversions as
        parameters. */
    method AssignFields(lines: seq<string>, quotes: string -> string,
                        literal: string -> Option<Literal>, toGeometry: string -> Option<string>)
      returns (err: Option<TplError>)
      requires |lines| >= 1
      modifies this
      ensures (State(), err) == SetInfoWith(old(State()), lines, quotes, literal, toGeometry)
    {
      err := AssignTextFields(lines, quotes);
      if err.Some? {
        return;
      }
      if |lines| <= 15 {
        return Some(MissingLine(15));
      }
      var n := literal(lines[15]);
      if n.None? {
        return Some(BadNetwork(lines[15]));
      }
      network := n;
      if |lines| <= 16 {
        return Some(MissingLine(16));
      }
      var g := toGeometry(lines[16]);
      if g.None? {
        return Some(NoGeometry(lines[16]));
      }
      geometry := g;
      branch := Some(quotes(lines[|lines| - 1]));
    }

    /** The text-field assignments of `set_info`, version to author. */
    method AssignTextFields(lines: seq<string>, quotes: string -> string) returns (err: Option<TplError>)
      requires |lines| >= 1
      modifies this
      ensures (State(), err) == SetTextFields(old(State()), lines, quotes)
    {
      version := Some(quotes(lines[0]));
      if |lines| <= 3 {
        return Some(MissingLine(3));
      }
      inputFile := Some(quotes(lines[3]));
      if |lines| <= 5 {
        return Some(MissingLine(5));
      }
      pvtFile := Some(quotes(lines[5]));
      if |lines| <= 7 {
        return Some(MissingLine(7));
      }
      date := Some(quotes(lines[7]));
      if |lines| <= 9 {
        return Some(MissingLine(9));
      }
      project := Some(quotes(lines[9]));
      if |lines| <= 11 {
        return Some(MissingLine(11));
      }
      title := Some(quotes(lines[11]));
      if |lines| <= 13 {
        return Some(MissingLine(13));
      }
      author := Some(quotes(lines[13]));
      return None;
    }

    /** `serialize`: the ten keys, from which the current fields read back. */
    function Serialize(): (d: seq<(string, InfoValue)>)
      reads this
      ensures Keys(d) == InfoKeys && Deserialize(d) == Some(State())
    {
      SerializeRoundTrip(State());
      SerializeState(State())
    }
  }

  // ---------------------------------------------------------------- Profile

  /** A point of the profile. Coordinates are kept as the exact decimals written in the file. */
  datatype Point = Point(x: Number, y: Number)

  /** An argument of `Profile.append`, by its Python type. */
  datatype Arg = FloatArg(value: Number) | OtherArg

  /** What `append(x, y)` adds: one point when both coordinates are floats, nothing otherwise. */
  function Appended(x: Arg, y: Arg): (ps: seq<Point>)
    ensures |ps| == 1 <==> x.FloatArg? && y.FloatArg?
    ensures |ps| <= 1 && (|ps| == 1 ==> ps[0] == Point(x.value, y.value))
  {
    if x.FloatArg? && y.FloatArg? then [Point(x.value, y.value)] else []
  }

  /** `float` on one token: a signed decimal literal, except that a run of digits alone may
      have leading zeros, and the result is always a float. */
  function ReadFloat(token: string): (r: Option<Number>)
    ensures r.Some? ==> r.value.Float?
  {
    var negative := token != [] && token[0] == '-';
    var u := if token != [] && (token[0] == '-' || token[0] == '+') then token[1..] else token;
    var n := if u != [] && AllDigits(u) then Some(Float(DigitsValue(u), 0)) else ReadUnsigned(u);
    match n
    case None => None
    case Some(x) =>
      Some(if negative then Negate(x) else x)
  }

  /** The number `eval` makes of a literal, as a float. */
  function AsFloat(n: Number): Number {
    match n
    case Int(v) => Float(v, 0)
    case Float(m, e) => Float(m, e)
  }

  /** `float(t)` accepts every decimal literal `eval` accepts, with the same value:
      `float(t) == float(eval(t))`. */
  lemma ReadFloatWidens(t: string)
    ensures ReadNumber(t).Some? ==> ReadFloat(t) == Some(AsFloat(ReadNumber(t).value))
  {
    var u := if t != [] && (t[0] == '-' || t[0] == '+') then t[1..] else t;
    if ReadUnsigned(u).Some? && u != [] && AllDigits(u) {
      var a := DigitRun(u);
      if a < |u| {
        assert false;
      }
      assert u[..a] == u && u[a..] == [];
    }
  }

  /** Leading zeros: `float("007")` is 7.0 where `eval("007")` is a syntax error. */
  lemma ReadFloatLeadingZeros()
    ensures ReadFloat("007") == Some(Float(7, 0))
    ensures ReadNumber("007") == None
  {
    var t := "007";
    assert AllDigits(t);
    assert t[..2] == "00" && "00"[..1] == "0" && "0"[..0] == "";
    assert DigitsValue("0") == 0;
    assert DigitsValue("00") == 0;
    assert DigitsValue(t) == 7;
    assert DigitRun(t) == 3 by {
      assert t[1..] == "07" && t[1..][1..] == "7" && t[1..][1..][1..] == "";
    }
    assert t[..3] == t && t[3..] == [];
  }

  /** Token `i` is the first that is not a number. */
  predicate FirstBadFloat(tokens: seq<string>, i: int) {
    0 <= i < |tokens| && ReadFloat(tokens[i]).None? && forall j :: 0 <= j < i ==> ReadFloat(tokens[j]).Some?
  }

  /** `list(map(float, tokens))`: fails on the first token that is not a number. */
  function ReadFloats(tokens: seq<string>): (r: Result<seq<Number>, TplError>)
    ensures r.Ok? <==> forall i :: 0 <= i < |tokens| ==> ReadFloat(tokens[i]).Some?
    ensures r.Ok? ==> |r.value| == |tokens|
    ensures r.Ok? ==> forall i :: 0 <= i < |tokens| ==> ReadFloat(tokens[i]) == Some(r.value[i])
    ensures r.Err? ==> exists i :: FirstBadFloat(tokens, i) && r.error == BadFloat(tokens[i])
  {
    if tokens == [] then Ok([])
    else
      match ReadFloat(tokens[0])
      case None => Err(BadFloat(tokens[0]))
      case Some(n) =>
        match ReadFloats(tokens[1..])
        case Err(e) =>
          ghost var i :| FirstBadFloat(tokens[1..], i) && e == BadFloat(tokens[1..][i]);
          assert tokens[i + 1] == tokens[1..][i];
          assert forall j :: 1 <= j < i + 1 ==> tokens[j] == tokens[1..][j - 1];
          assert FirstBadFloat(tokens, i + 1);
          Err(e)
        case Ok(ns) =>
          assert forall i :: 1 <= i < |tokens| ==> tokens[i] == tokens[1..][i - 1];
          Ok([n] + ns)
  }

  /** `string_list_2_float_list`: the lines joined without separator, split at whitespace, every
      token read as a number. */
  function StringListToFloatList(vals: seq<string>): Result<seq<Number>, TplError> {
    ReadFloats(SplitWhitespace(Concat(vals)))
  }

  /** The lines succeed exactly when every whitespace-separated token of their concatenation is
      a number, giving those numbers in order; otherwise the first token that is not one is
      reported. */
  lemma StringListReads(vals: seq<string>)
    ensures var toks, r := SplitWhitespace(Concat(vals)), StringListToFloatList(vals);
      (r.Ok? <==> forall i :: 0 <= i < |toks| ==> ReadFloat(toks[i]).Some?)
      && (r.Ok? ==> |r.value| == |toks| && forall i :: 0 <= i < |toks| ==> ReadFloat(toks[i]) == Some(r.value[i]))
      && (r.Err? ==> exists i :: FirstBadFloat(toks, i) && r.error == BadFloat(toks[i]))
  {
    var toks := SplitWhitespace(Concat(vals));
    assert StringListToFloatList(vals) == ReadFloats(toks);
  }

  /** The tokens of each line, one line after another. */
  function LineTokens(lines: seq<string>): seq<string> {
    if lines == [] then [] else SplitWhitespace(lines[0]) + LineTokens(lines[1..])
  }

  predicate EndsBlank(s: string) {
    s == [] || IsSpace(s[|s| - 1])
  }

  lemma {:induction false} WordLengthAppend(a: string, b: string)
    requires a != [] && IsSpace(a[|a| - 1])
    ensures WordLength(a + b) == WordLength(a) < |a|
    decreases |a|
  {
    if !IsSpace(a[0]) {
      assert (a + b)[1..] == a[1..] + b;
      WordLengthAppend(a[1..], b);
    }
  }

  /** Text ending in whitespace splits independently of what follows it. */
  lemma {:induction false} SplitWhitespaceAppend(a: string, b: string)
    requires EndsBlank(a)
    ensures SplitWhitespace(a + b) == SplitWhitespace(a) + SplitWhitespace(b)
    decreases |a|
  {
    if a == [] {
      assert a + b == b;
    } else if IsSpace(a[0]) {
      assert (a + b)[1..] == a[1..] + b;
      SplitWhitespaceAppend(a[1..], b);
    } else {
      var n := WordLength(a);
      WordLengthAppend(a, b);
      assert (a + b)[..n] == a[..n];
      assert (a + b)[n..] == a[n..] + b;
      SplitWhitespaceAppend(a[n..], b);
    }
  }

  /** Joining lines without a separator keeps their tokens apart when every line ends in
      whitespace (the profile lines of a report do). */
  lemma {:induction false} ConcatTokens(lines: seq<string>)
    requires forall i :: 0 <= i < |lines| ==> EndsBlank(lines[i])
    ensures SplitWhitespace(Concat(lines)) == LineTokens(lines)
    decreases |lines|
  {
    if lines != [] {
      SplitWhitespaceAppend(lines[0], Concat(lines[1..]));
      ConcatTokens(lines[1..]);
    }
  }

  /** `list(zip(xs, ys))` made into points: as long as the shorter list. */
  function PointsOf(xs: seq<Number>, ys: seq<Number>): (ps: seq<Point>)
    ensures |ps| == if |xs| <= |ys| then |xs| else |ys|
    ensures forall i :: 0 <= i < |ps| ==> ps[i] == Point(xs[i], ys[i])
  {
    var n := if |xs| <= |ys| then |xs| else |ys|;
    seq(n, i requires 0 <= i < n => Point(xs[i], ys[i]))
  }

  /** The lines of the profile: before the first `CATALOG`, without the first 20 lines; `None`
      when nothing is left for `pop(-1)`, otherwise without the final fragment. */
  function ProfileLines(file: string): (r: Option<seq<string>>)
    ensures r.None? <==> |Split(Split(file, "CATALOG")[0], "\n")| <= 20
  {
    var lines := Split(Split(file, "CATALOG")[0], "\n");
    if |lines| <= 20 then None else Some(lines[20..|lines| - 1])
  }

  /** `set_profile`: the first half of the profile lines (rounded down) gives the x values, the
      rest the y values, paired up to the shorter of the two. */
  function ProfileSpec(file: string): Result<seq<Point>, TplError> {
    PointsOfLines(ProfileLines(file))
  }

  /** The points from the profile lines, halved into the x and the y block. */
  function PointsOfLines(found: Option<seq<string>>): Result<seq<Point>, TplError> {
    match found
    case None => Err(NoProfileLines)
    case Some(lines) =>
      var sep := |lines| / 2;
      var xs :- StringListToFloatList(lines[..sep]);
      var ys :- StringListToFloatList(lines[sep..]);
      Ok(PointsOf(xs, ys))
  }

  /** The points of a profile are the numbers of the x block paired with those of the y block,
      as many as the shorter block has. */
  lemma ProfilePoints(lines: seq<string>)
    requires PointsOfLines(Some(lines)).Ok?
    ensures var xt, yt := SplitWhitespace(Concat(lines[..|lines| / 2])), SplitWhitespace(Concat(lines[|lines| / 2..]));
      var ps := PointsOfLines(Some(lines)).value;
      |ps| == (if |xt| <= |yt| then |xt| else |yt|)
      && forall i :: 0 <= i < |ps| ==> ReadFloat(xt[i]) == Some(ps[i].x) && ReadFloat(yt[i]) == Some(ps[i].y)
  {
  }

  /** No `CATALOG` in `a` means the split finds the one after it. */
  lemma CatalogAt(a: string, b: string)
    requires !Contains(a, "CATALOG")
    ensures Split(a + "CATALOG" + b, "CATALOG")[0] == a
    ensures Split(a, "CATALOG")[0] == a
  {
    var s := a + "CATALOG" + b;
    assert OccursAt(s, "CATALOG", |a|) by {
      assert s[|a|..|a| + 7] == "CATALOG";
    }
    forall j | 0 <= j < |a|
      ensures !OccursAt(s, "CATALOG", j)
    {
      if j + 7 <= |a| {
        IndexOfIsFirst(a, "CATALOG", j);
        assert a[j..j + 7] == s[j..j + 7];
      } else {
        NoStraddle(s, j, |a|);
      }
    }
    IndexOfAt(s, "CATALOG", |a|);
    SplitHead(s, "CATALOG");
    assert s[..|a|] == a;
    SplitHead(a, "CATALOG");
  }

  /** `CATALOG` has its only `C` first, so no occurrence starts just before a `C`. */
  lemma NoStraddle(s: string, j: nat, p: nat)
    requires j < p < j + 7 && p < |s| && s[p] == 'C'
    ensures !OccursAt(s, "CATALOG", j)
  {
    if j + 7 <= |s| {
      assert s[j..j + 7][p - j] == s[p];
    }
  }

  /** Lines that each end in whitespace, as the lines of a report do, give the numbers of each
      line in turn. */
  lemma StringListLines(vals: seq<string>)
    requires forall i :: 0 <= i < |vals| ==> EndsBlank(vals[i])
    ensures StringListToFloatList(vals) == ReadFloats(LineTokens(vals))
  {
    ConcatTokens(vals);
  }

  /** Only the text before the first `CATALOG` is read. */
  lemma ProfileBeforeCatalog(a: string, b: string)
    requires !Contains(a, "CATALOG")
    ensures ProfileSpec(a + "CATALOG" + b) == ProfileSpec(a)
  {
    CatalogAt(a, b);
    assert ProfileLines(a + "CATALOG" + b) == ProfileLines(a);
  }

  /** The x values of points. */
  function Xs(ps: seq<Point>): (xs: seq<Number>)
    ensures |xs| == |ps| && forall i :: 0 <= i < |ps| ==> xs[i] == ps[i].x
  {
    seq(|ps|, i requires 0 <= i < |ps| => ps[i].x)
  }

  function Ys(ps: seq<Point>): (ys: seq<Number>)
    ensures |ys| == |ps| && forall i :: 0 <= i < |ps| ==> ys[i] == ps[i].y
  {
    seq(|ps|, i requires 0 <= i < |ps| => ps[i].y)
  }

  function Pairs(ps: seq<Point>): (r: seq<(Number, Number)>)
    ensures |r| == |ps| && forall i :: 0 <= i < |ps| ==> r[i] == (ps[i].x, ps[i].y)
  {
    seq(|ps|, i requires 0 <= i < |ps| => (ps[i].x, ps[i].y))
  }

  /** The dictionary `Profile.serialize` returns. */
  datatype ProfileRecord = ProfileRecord(profile: seq<(Number, Number)>, x: seq<Number>, y: seq<Number>)

  /** The x and y lists have the profile's length, the profile pairs them up, and zipping them
      gives the points back. */
  lemma ProfileColumns(ps: seq<Point>)
    ensures |Xs(ps)| == |Ys(ps)| == |Pairs(ps)| == |ps|
    ensures forall i :: 0 <= i < |ps| ==> Pairs(ps)[i] == (Xs(ps)[i], Ys(ps)[i])
    ensures PointsOf(Xs(ps), Ys(ps)) == ps
  {
    var back := PointsOf(Xs(ps), Ys(ps));
    assert |back| == |ps|;
    assert forall i :: 0 <= i < |ps| ==> back[i] == ps[i];
  }

  /** The `Profile` list: its points in the order they were appended. */
  class Profile {
    var points: seq<Point>

    constructor ()
      ensures points == []
    {
      points := [];
    }

    /** `append(x, y)`: one point when both are floats; the list is unchanged otherwise. */
    method Append(x: Arg, y: Arg)
      modifies this
      ensures points == old(points) + Appended(x, y)
    {
      if x.FloatArg? && y.FloatArg? {
        points := points + [Point(x.value, y.value)];
      }
    }

    /** The `x` property. */
    function X(): (xs: seq<Number>)
      reads this
      ensures |xs| == |points| && forall i :: 0 <= i < |points| ==> xs[i] == points[i].x
    {
      Xs(points)
    }

    /** The `y` property. */
    function Y(): (ys: seq<Number>)
      reads this
      ensures |ys| == |points| && forall i :: 0 <= i < |points| ==> ys[i] == points[i].y
    {
      Ys(points)
    }

    /** The `profile` property: the x and y values paired. */
    function ProfilePairs(): (r: seq<(Number, Number)>)
      reads this
      ensures |r| == |points| && forall i :: 0 <= i < |points| ==> r[i] == (X()[i], Y()[i])
    {
      Pairs(points)
    }

    /** `serialize`: the profile, x and y properties, from which the points read back. */
    function Serialize(): (r: ProfileRecord)
      reads this
      ensures r.x == X() && r.y == Y() && r.profile == ProfilePairs()
      ensures |r.x| == |r.y| == |points|
      ensures PointsOf(r.x, r.y) == points
      ensures |r.profile| == |points| && forall i :: 0 <= i < |points| ==> r.profile[i] == (r.x[i], r.y[i])
    {
      ProfileColumns(points);
      ProfileRecord(Pairs(points), Xs(points), Ys(points))
    }

    /** `set_profile`: the points of the file appended after the existing ones; on a failure
        nothing is appended. */
    method SetProfile(file: string) returns (err: Option<TplError>)
      modifies this
      ensures match ProfileSpec(file)
        case Ok(ps) => err == None && points == old(points) + ps
        case Err(e) => err == Some(e) && points == old(points)
    {
      var found := ReadProfileLines(file);
      if found.None? {
        return Some(NoProfileLines);
      }
      var lines := found.value;
      var sep := |lines| / 2;
      var xs := StringListToFloatList(lines[..sep]);
      if xs.Err? {
        return Some(xs.error);
      }
      var ys := StringListToFloatList(lines[sep..]);
      if ys.Err? {
        return Some(ys.error);
      }
      AppendAll(PointsOf(xs.value, ys.value));
      return None;
    }

    /** The line handling of `set_profile`: cut at `CATALOG`, split into lines, drop the first 20
        and pop the last. */
    static method ReadProfileLines(file: string) returns (r: Option<seq<string>>)
      ensures r == ProfileLines(file)
    {
      var part := Split(file, "CATALOG")[0];
      var lines := Split(part, "\n");
      lines := if |lines| <= 20 then [] else lines[20..];
      if lines == [] {
        return None;
      }
      assert lines[..|lines| - 1] == Split(part, "\n")[20..|Split(part, "\n")| - 1];
      return Some(lines[..|lines| - 1]);
    }

    /** The loop of `set_profile`: each point appended in turn. */
    method AppendAll(pts: seq<Point>)
      modifies this
      ensures points == old(points) + pts
    {
      var i := 0;
      while i < |pts|
        invariant i <= |pts|
        invariant points == old(points) + pts[..i]
      {
        Append(FloatArg(pts[i].x), FloatArg(pts[i].y));
        assert pts[..i + 1] == pts[..i] + [pts[i]];
        i := i + 1;
      }
      assert pts[..i] == pts;
    }
  }
}
