/** `Genkey.get_dict_values`: the tokens `KEY=value` of one logical line become a dictionary whose
    values are typed by a cascade of patterns tried in order. */
module GenkeyValues {
  import opened Wrappers
  import opened Text
  import opened Patterns
  import opened Literals
  import opened OrderedDict

  /** What reading a genkey file can fail with: a logical line that gives no tokens (the source's
      `el[0]` on an empty list), a token without `=` (`el.split('=')[1]`), and a value handed to
      `eval` that is not a literal. */
  datatype Error = EmptyLine | MissingEquals(token: string) | BadLiteral(key: string, text: string)

  /** A typed value: a text, a tuple of texts, what `eval` returned, or a `{'VALUE': ..., 'UNIT':
      ...}` record whose `VALUE` is always a tuple. */
  datatype Value =
    | Text(text: string)
    | Texts(items: seq<string>)
    | Evaluated(lit: Literal)
    | Quantity(amount: seq<Number>, unit: string)

  // ---------------------------------------------------------------- the patterns on values

  /** `\(\"\.\./|\(\"\w+`: a parenthesised quoted path or name. */
  predicate QuotedTuple(v: string) {
    Search(v, [Char('('), Char('"'), Char('.'), Char('.'), Char('/')])
    || Search(v, [Char('('), Char('"'), Word])
  }

  /** `\d\s\w|\d\)\s\w+|\d\)\s\%|\d\s\%|\(\"\w+`: a number followed by a unit. */
  predicate WithUnit(v: string) {
    Search(v, [Digit, Space, Word]) || Search(v, [Digit, Char(')'), Space, Word])
    || Search(v, [Digit, Char(')'), Space, Char('%')]) || Search(v, [Digit, Space, Char('%')])
    || Search(v, [Char('('), Char('"'), Word])
  }

  /** `^[0-9]*$`: only digits, possibly none, before the end or a final newline. */
  predicate DigitsOnly(v: string) {
    AllDigits(v) || (v != [] && v[|v| - 1] == '\n' && AllDigits(v[..|v| - 1]))
  }

  /** `\d+\.\d+|^[0-9]*$|\(\d+`: text to evaluate. */
  predicate NumericText(v: string) {
    Search(v, [Digit, Char('.'), Digit]) || DigitsOnly(v) || Search(v, [Char('('), Digit])
  }

  /** `\(\w+`: a parenthesised list of names. */
  predicate NameTuple(v: string) {
    Search(v, [Char('('), Word])
  }

  /** `\d+\ \W+`: a number, a space, and a symbol. */
  predicate NumberThenSymbol(v: string) {
    Search(v, [Digit, Char(' '), NonWord])
  }

  // ---------------------------------------------------------------- the rule cascade

  /** The branches of the loop body, in the order the source tries them. */
  datatype Rule = QuotedRule | InfoRule | PvtRule | UnitRule | NumericRule | NamesRule | SymbolRule
    | PlainRule

  function Rank(r: Rule): nat {
    match r
    case QuotedRule => 0
    case InfoRule => 1
    case PvtRule => 2
    case UnitRule => 3
    case NumericRule => 4
    case NamesRule => 5
    case SymbolRule => 6
    case PlainRule => 7
  }

  /** When each branch's own test holds; the PVTFILE branch's second test repeats the negation of
      the first branch's and is implied by the order. */
  predicate Applies(r: Rule, key: string, val: string) {
    match r
    case QuotedRule => QuotedTuple(val)
    case InfoRule => StartsWith(key, "INFO")
    case PvtRule => Contains(key, "PVTFILE")
    case UnitRule => WithUnit(val)
    case NumericRule => NumericText(val)
    case NamesRule => NameTuple(val)
    case SymbolRule => NumberThenSymbol(val)
    case PlainRule => true
  }

  /** The branch taken: the first whose test holds. */
  function RuleFor(key: string, val: string): (r: Rule)
    ensures Applies(r, key, val)
    ensures forall q :: Rank(q) < Rank(r) ==> !Applies(q, key, val)
  {
    if QuotedTuple(val) then QuotedRule
    else if StartsWith(key, "INFO") then InfoRule
    else if Contains(key, "PVTFILE") then PvtRule
    else if WithUnit(val) then UnitRule
    else if NumericText(val) then NumericRule
    else if NameTuple(val) then NamesRule
    else if NumberThenSymbol(val) then SymbolRule
    else PlainRule
  }

  /** `e.replace('"', '').replace('(', '').replace(')', '').strip()`. */
  function CleanQuoted(e: string): string {
    Strip(Remove(Remove(Remove(e, '"'), '('), ')'))
  }

  function CleanAll(es: seq<string>): (r: seq<string>)
    ensures |r| == |es| && forall i :: 0 <= i < |es| ==> r[i] == CleanQuoted(es[i])
  {
    seq(|es|, i requires 0 <= i < |es| => CleanQuoted(es[i]))
  }

  /** The TERMINALS loop: consecutive items taken two at a time and joined with a space; an odd
      last item is dropped. */
  function Paired(items: seq<string>): (pairs: seq<string>) {
    seq(|items| / 2, j requires 0 <= j < |items| / 2 => items[2 * j] + " " + items[2 * j + 1])
  }

  /** The numbers of an evaluated `VALUE`: a tuple's items, or the one number in a tuple of one. */
  function Amount(lit: Literal): seq<Number> {
    match lit
    case Scalar(n) => [n]
    case Tuple(items) => items
  }

  /** `[el.strip() for el in pieces if el]`: the non-empty pieces, stripped. */
  function StripNonEmpty(pieces: seq<string>): (r: seq<string>)
    ensures |r| <= |pieces|
    ensures forall x :: x in r ==> Trimmed(x)
  {
    if pieces == [] then []
    else (if pieces[0] != [] then [Strip(pieces[0])] else []) + StripNonEmpty(pieces[1..])
  }

  /** The words of a TERMINALS value: parentheses and commas removed, split at single spaces,
      stripped. */
  function TerminalWords(val: string): seq<string> {
    StripEach(Split(Remove(Remove(Remove(val, '('), ')'), ','), " "))
  }

  /** `' '.join(val.split(' ')[:-1])`: the words before the unit. */
  function NumberWords(val: string): string {
    var parts := Split(val, " ");
    Join(parts[..|parts| - 1], " ")
  }

  /** `val.split(' ')[-1].strip(',')`: the unit. */
  function UnitWord(val: string): (u: string)
    ensures u == [] || (u[0] != ',' && u[|u| - 1] != ',')
  {
    var parts := Split(val, " ");
    StripChar(parts[|parts| - 1], ',')
  }

  /** The value of one key after the cascade. */
  function Coerce(key: string, val: string): Result<Value, Error> {
    match RuleFor(key, val)
    case QuotedRule => Ok(Texts(CleanAll(Split(val, ","))))
    case InfoRule => Ok(Text(Remove(val, '"')))
    case PvtRule => Ok(Text(Remove(val, '"')))
    case UnitRule =>
      if Contains(key, "TERMINALS") then Ok(Texts(Paired(TerminalWords(val))))
      else
        (match ReadLiteral(NumberWords(val))
         case None => Err(BadLiteral(key, NumberWords(val)))
         case Some(lit) => Ok(Quantity(Amount(lit), UnitWord(val))))
    case NumericRule =>
      (match ReadLiteral(val)
       case None => Err(BadLiteral(key, val))
       case Some(lit) => Ok(Evaluated(lit)))
    case NamesRule => Ok(Texts(StripNonEmpty(Split(StripChar(StripChar(val, '('), ')'), ","))))
    case SymbolRule =>
      var words := SymbolWords(val);
      (match ReadLiteral(words[0])
       case None => Err(BadLiteral(key, words[0]))
       case Some(lit) => Ok(Quantity(Amount(lit), words[|words| - 1])))
    case PlainRule => Ok(Text(Remove(val, '"')))
  }

  /** A non-empty run of non-whitespace characters. */
  predicate IsWord(w: string) {
    w != [] && forall i :: 0 <= i < |w| ==> !IsSpace(w[i])
  }

  /** `val.strip().split()` for a number then a symbol: never empty, so its first word exists. */
  function SymbolWords(val: string): (words: seq<string>)
    requires NumberThenSymbol(val)
    ensures words != []
    ensures forall w :: w in words ==> IsWord(w)
  {
    SymbolWordsExist(val);
    SplitWhitespace(Strip(val))
  }

  lemma SymbolWordsExist(val: string)
    requires NumberThenSymbol(val)
    ensures SplitWhitespace(Strip(val)) != []
  {
    var i := SearchFirstClass(val, [Digit, Char(' '), NonWord]);
    assert !IsBlank(val);
    var t := Strip(val);
    assert t != [] && !IsSpace(t[0]);
  }

  /** A search that succeeds finds a character of the pattern's first class. */
  lemma {:induction false} SearchFirstClass(s: string, p: seq<Class>) returns (i: nat)
    requires |p| > 0 && Search(s, p)
    ensures i < |s| && InClass(s[i], p[0])
    decreases |s|
  {
    if MatchesPrefix(s, p) {
      i := 0;
    } else {
      var j := SearchFirstClass(s[1..], p);
      i := j + 1;
    }
  }

  // ---------------------------------------------------------------- what the cascade gives

  /** The text branches drop every double quote, and leave a value without one as it is. */
  lemma CoerceText(key: string, val: string)
    requires RuleFor(key, val) in {InfoRule, PvtRule, PlainRule}
    ensures Coerce(key, val).Ok? && Coerce(key, val).value.Text?
    ensures '"' !in Coerce(key, val).value.text
    ensures '"' !in val ==> Coerce(key, val).value.text == val
  {
  }

  /** A quoted tuple gives one trimmed item per comma-separated piece, without quotes or
      parentheses. */
  lemma CoerceQuoted(key: string, val: string)
    requires QuotedTuple(val)
    ensures Coerce(key, val).Ok? && Coerce(key, val).value.Texts?
    ensures var items := Coerce(key, val).value.items;
      |items| == |Split(val, ",")|
      && forall x :: x in items ==> Trimmed(x) && '"' !in x && '(' !in x && ')' !in x
  {
    var items := CleanAll(Split(val, ","));
    forall x | x in items ensures Trimmed(x) && '"' !in x && '(' !in x && ')' !in x {
      var i :| 0 <= i < |items| && items[i] == x;
      var e := Split(val, ",")[i];
      assert x == Strip(Remove(Remove(Remove(e, '"'), '('), ')'));
    }
  }

  /** A number with a unit outside TERMINALS is read from the words before the last one; a tuple
      gives its items, a single number a tuple of one; the unit is the last word without commas at
      its ends. Text that does not read is reported with its key. */
  lemma CoerceQuantity(key: string, val: string)
    requires RuleFor(key, val) == UnitRule && !Contains(key, "TERMINALS")
    ensures Coerce(key, val).Ok? <==> ReadLiteral(NumberWords(val)).Some?
    ensures Coerce(key, val).Err? ==> Coerce(key, val).error == BadLiteral(key, NumberWords(val))
    ensures Coerce(key, val).Ok? ==>
      var q, lit := Coerce(key, val).value, ReadLiteral(NumberWords(val)).value;
      q.Quantity? && q.amount == Amount(lit) && (lit.Scalar? ==> |q.amount| == 1)
      && q.unit == UnitWord(val)
  {
  }

  /** A TERMINALS value gives the words two by two. */
  lemma CoerceTerminals(key: string, val: string)
    requires RuleFor(key, val) == UnitRule && Contains(key, "TERMINALS")
    ensures var w := TerminalWords(val);
      Coerce(key, val) == Ok(Texts(Paired(w)))
      && |Paired(w)| == |w| / 2
      && forall j :: 0 <= j < |w| / 2 ==> Paired(w)[j] == w[2 * j] + " " + w[2 * j + 1]
  {
  }

  /** Text to evaluate gives what the reader gives, or an error naming the key and the text. */
  lemma CoerceNumeric(key: string, val: string)
    requires RuleFor(key, val) == NumericRule
    ensures match ReadLiteral(val)
      case None => Coerce(key, val) == Err(BadLiteral(key, val))
      case Some(lit) => Coerce(key, val) == Ok(Evaluated(lit))
  {
  }

  /** A number then a symbol gives a quantity read from the first word, with the last word, one
      without whitespace, as its unit; a first word that does not read is reported. */
  lemma CoerceSymbol(key: string, val: string)
    requires RuleFor(key, val) == SymbolRule
    ensures var words := SymbolWords(val);
      match ReadLiteral(words[0])
      case None => Coerce(key, val) == Err(BadLiteral(key, words[0]))
      case Some(lit) =>
        Coerce(key, val) == Ok(Quantity(Amount(lit), words[|words| - 1]))
        && IsWord(words[|words| - 1])
  {
    var words := SymbolWords(val);
    assert words[|words| - 1] in words;
  }

  /** Only the branches that evaluate can fail, and a failure names the key. */
  lemma CoerceFails(key: string, val: string)
    requires Coerce(key, val).Err?
    ensures RuleFor(key, val) in {UnitRule, NumericRule, SymbolRule}
    ensures Coerce(key, val).error.BadLiteral? && Coerce(key, val).error.key == key
  {
  }

  /** A value without parentheses, points or whitespace that is not all digits matches none of
      the patterns, so outside the INFO and PVTFILE keys it is kept as text: negative numbers and
      floats written with an exponent are never evaluated. */
  lemma CoercePlainWord(key: string, val: string)
    requires !StartsWith(key, "INFO") && !Contains(key, "PVTFILE")
    requires forall i :: 0 <= i < |val| ==> val[i] != '(' && val[i] != '.' && !IsSpace(val[i])
    requires !DigitsOnly(val)
    ensures RuleFor(key, val) == PlainRule
    ensures Coerce(key, val) == Ok(Text(Remove(val, '"')))
  {
    PlainWordPatterns(val);
  }

  lemma PlainWordPatterns(val: string)
    requires forall i :: 0 <= i < |val| ==> val[i] != '(' && val[i] != '.' && !IsSpace(val[i])
    ensures !QuotedTuple(val) && !WithUnit(val) && !NameTuple(val) && !NumberThenSymbol(val)
    ensures !Search(val, [Digit, Char('.'), Digit]) && !Search(val, [Char('('), Digit])
  {
    NoParenPatterns(val);
    NoSpacePatterns(val);
    NoSearch(val, [Digit, Char('.'), Digit], 1);
  }

  lemma NoParenPatterns(val: string)
    requires '(' !in val
    ensures !Search(val, [Char('('), Char('"'), Char('.'), Char('.'), Char('/')])
    ensures !Search(val, [Char('('), Char('"'), Word])
    ensures !Search(val, [Char('('), Digit]) && !Search(val, [Char('('), Word])
  {
    NoSearch(val, [Char('('), Char('"'), Char('.'), Char('.'), Char('/')], 0);
    NoSearch(val, [Char('('), Char('"'), Word], 0);
    NoSearch(val, [Char('('), Digit], 0);
    NoSearch(val, [Char('('), Word], 0);
  }

  lemma NoSpacePatterns(val: string)
    requires forall i :: 0 <= i < |val| ==> !IsSpace(val[i])
    ensures !Search(val, [Digit, Space, Word]) && !Search(val, [Digit, Char(')'), Space, Word])
    ensures !Search(val, [Digit, Char(')'), Space, Char('%')])
    ensures !Search(val, [Digit, Space, Char('%')]) && !Search(val, [Digit, Char(' '), NonWord])
  {
    NoSearch(val, [Digit, Space, Word], 1);
    NoSearch(val, [Digit, Char(')'), Space, Word], 2);
    NoSearch(val, [Digit, Char(')'), Space, Char('%')], 2);
    NoSearch(val, [Digit, Space, Char('%')], 1);
    NoSearch(val, [Digit, Char(' '), NonWord], 1);
  }

  /** Outside the INFO and PVTFILE keys, the written form of a number is evaluated back to the
      number exactly when it is a non-negative integer; the text of a negative integer or of a
      float with an exponent matches no pattern and stays a text, although it would read back. */
  lemma CoerceWrittenNumber(key: string, n: Number)
    requires !StartsWith(key, "INFO") && !Contains(key, "PVTFILE")
    ensures ReadLiteral(ShowNumber(n)) == Some(Scalar(n))
    ensures n.Int? && n.value >= 0 ==> Coerce(key, ShowNumber(n)) == Ok(Evaluated(Scalar(n)))
    ensures !(n.Int? && n.value >= 0) ==> Coerce(key, ShowNumber(n)) == Ok(Text(ShowNumber(n)))
  {
    var s := ShowNumber(n);
    ShowNumberPlain(n);
    ReadLiteralShowNumber(n);
    WrittenDigitsOnly(n);
    if n.Int? && n.value >= 0 {
      NoParenPatterns(s);
      NoSpacePatterns(s);
      assert RuleFor(key, s) == NumericRule;
    } else {
      CoercePlainWord(key, s);
    }
  }

  lemma WrittenDigitsOnly(n: Number)
    ensures DigitsOnly(ShowNumber(n)) <==> n.Int? && n.value >= 0
  {
    ShowNumberChars(n);
  }

  /** A value `() <unit>`, with a unit that starts with a number and holds no space, is a quantity
      outside the TERMINALS key; its words before the last space, `()`, evaluate to the empty
      tuple, so the quantity has no amount. */
  lemma CoerceEmptyAmount(key: string, u: string)
    requires !StartsWith(key, "INFO") && !Contains(key, "PVTFILE") && !Contains(key, "TERMINALS")
    requires MatchesPrefix(u, [Digit, Space, Word]) && ' ' !in u && '"' !in u
    ensures Coerce(key, "() " + u) == Ok(Quantity([], StripChar(u, ',')))
  {
    var v := "() " + u;
    EmptyAmountRule(u);
    assert RuleFor(key, v) == UnitRule;
    EmptyAmountWords(u);
    var w := v[..2];
    assert w[0] == '(' && w[1] == ')' && IsBlank(w[1..1]);
    ReadEmptyTuple(w);
    CoerceQuantity(key, v);
  }

  lemma EmptyAmountRule(u: string)
    requires MatchesPrefix(u, [Digit, Space, Word]) && '"' !in u
    ensures !QuotedTuple("() " + u) && WithUnit("() " + u)
  {
    var v, p := "() " + u, [Digit, Space, Word];
    assert forall i :: 3 <= i < |v| ==> v[i] == u[i - 3];
    NoSearch(v, [Char('('), Char('"'), Char('.'), Char('.'), Char('/')], 1);
    NoSearch(v, [Char('('), Char('"'), Word], 1);
    assert Search(u, p);
    assert v[2..][1..] == u;
    assert Search(v[2..], p);
    assert v[1..][1..] == v[2..];
    assert Search(v[1..], p);
  }

  lemma EmptyAmountWords(u: string)
    requires ' ' !in u
    ensures NumberWords("() " + u) == ("() " + u)[..2] && UnitWord("() " + u) == StripChar(u, ',')
  {
    var v := "() " + u;
    assert v[2..3] == " " && v[0..1] == "(" && v[1..2] == ")";
    IndexOfAt(v, " ", 2);
    SplitUnfold(v, " ");
    assert v[..2] == "()" && v[3..] == u;
    ContainsChar(u, ' ');
    SplitWhole(u, " ");
    assert Split(v, " ") == ["()", u];
  }

  // ---------------------------------------------------------------- keys and values

  /** `'=' in el`: the token can be cut into a key and a value. */
  predicate HasEquals(el: string) {
    '=' in el
  }

  /** `el.split('=')[0].strip()`. */
  function KeyOf(el: string): string {
    Strip(Split(el, "=")[0])
  }

  /** `el.split('=')[1].strip()`, for a token with `=`. */
  function ValueOf(el: string): string
    requires HasEquals(el)
  {
    var parts := Split(el, "=");
    if |parts| >= 2 then Strip(parts[1]) else ""
  }

  /** The key is the text before the first `=` and the value the text between the first `=` and
      the next one (or the end), both stripped; only a token with `=` gives a value. */
  lemma KeyValueParts(el: string)
    ensures |Split(el, "=")| >= 2 <==> HasEquals(el)
    ensures var i := IndexOf(el, "=");
      KeyOf(el) == Strip(el[..i])
      && (HasEquals(el) ==>
            var rest := el[i + 1..];
            |Split(el, "=")| >= 2 && ValueOf(el) == Strip(rest[..IndexOf(rest, "=")]))
  {
    ContainsChar(el, '=');
    SplitUnfoldHead(el, "=");
    var i := IndexOf(el, "=");
    if i < |el| {
      SplitDropHead(el, "=");
      SplitUnfoldHead(el[i + 1..], "=");
      assert Split(el, "=")[1] == Split(el[i + 1..], "=")[0];
    } else {
      SplitWhole(el, "=");
    }
  }

  /** The position of the first token without `=`, or the number of tokens. */
  function FirstMissing(tokens: seq<string>): (i: nat)
    ensures i <= |tokens|
    ensures i < |tokens| ==> !HasEquals(tokens[i])
    ensures forall j :: 0 <= j < i ==> HasEquals(tokens[j])
  {
    if tokens == [] then 0
    else if !HasEquals(tokens[0]) then 0
    else 1 + FirstMissing(tokens[1..])
  }

  /** The two list comprehensions of keys and values, zipped; the values' comprehension fails on
      the first token without `=`. */
  function KeyValues(tokens: seq<string>): (r: Result<seq<(string, string)>, Error>)
    ensures r.Ok? ==> |r.value| == |tokens|
  {
    var m := FirstMissing(tokens);
    if m < |tokens| then Err(MissingEquals(tokens[m]))
    else Ok(seq(|tokens|, i requires 0 <= i < |tokens| && HasEquals(tokens[i]) =>
                          (KeyOf(tokens[i]), ValueOf(tokens[i]))))
  }

  /** The position of the first entry whose value `f` fails on, or the number of entries. */
  function FirstFailing(d: seq<(string, string)>, f: (string, string) -> Result<Value, Error>): (i: nat)
    ensures i <= |d|
    ensures i < |d| ==> f(d[i].0, d[i].1).Err?
    ensures forall j :: 0 <= j < i ==> f(d[j].0, d[j].1).Ok?
  {
    if d == [] then 0
    else if f(d[0].0, d[0].1).Err? then 0
    else 1 + FirstFailing(d[1..], f)
  }

  /** Every value coerced by `f` in dictionary order; the first failure ends the loop. */
  function CoerceAll(d: seq<(string, string)>, f: (string, string) -> Result<Value, Error>)
    : (r: Result<seq<(string, Value)>, Error>)
    ensures r.Ok? ==> |r.value| == |d|
  {
    var m := FirstFailing(d, f);
    if m < |d| then Err(f(d[m].0, d[m].1).error)
    else Ok(seq(|d|, i requires 0 <= i < |d| && f(d[i].0, d[i].1).Ok? =>
                     (d[i].0, f(d[i].0, d[i].1).value)))
  }

  /** The loop succeeds exactly when `f` succeeds on every entry, and then every key holds what
      `f` made of its value. */
  lemma CoerceAllValues(d: seq<(string, string)>, f: (string, string) -> Result<Value, Error>)
    ensures CoerceAll(d, f).Ok? <==> forall j :: 0 <= j < |d| ==> f(d[j].0, d[j].1).Ok?
    ensures CoerceAll(d, f).Ok? ==>
      forall j :: 0 <= j < |d| ==> CoerceAll(d, f).value[j] == (d[j].0, f(d[j].0, d[j].1).value)
  {
    var m := FirstFailing(d, f);
    if m < |d| {
      assert !f(d[m].0, d[m].1).Ok?;
    }
  }

  /** One more entry coerced: the result grows by that entry. */
  lemma CoerceAllExtends(d: seq<(string, string)>, i: nat, f: (string, string) -> Result<Value, Error>)
    requires i < |d| && CoerceAll(d[..i], f).Ok? && f(d[i].0, d[i].1).Ok?
    ensures CoerceAll(d[..i + 1], f)
      == Ok(CoerceAll(d[..i], f).value + [(d[i].0, f(d[i].0, d[i].1).value)])
  {
    var p, q := d[..i], d[..i + 1];
    CoerceAllValues(p, f);
    CoerceAllValues(q, f);
    assert forall j :: 0 <= j < i ==> q[j] == p[j];
    assert q[i] == d[i];
    assert forall j :: 0 <= j < |q| ==> f(q[j].0, q[j].1).Ok?;
    assert CoerceAll(q, f).Ok?;
    var a, b := CoerceAll(q, f).value, CoerceAll(p, f).value + [(d[i].0, f(d[i].0, d[i].1).value)];
    assert |a| == |b| && forall j :: 0 <= j < |a| ==> a[j] == b[j];
    assert a == b;
  }

  /** The first entry that fails ends the loop with its error. */
  lemma CoerceAllStops(d: seq<(string, string)>, i: nat, f: (string, string) -> Result<Value, Error>)
    requires i < |d| && CoerceAll(d[..i], f).Ok? && f(d[i].0, d[i].1).Err?
    ensures CoerceAll(d, f) == Err(f(d[i].0, d[i].1).error)
  {
    assert forall j :: 0 <= j < i ==> d[..i][j] == d[j];
    assert FirstFailing(d, f) == i;
  }

  /** `get_dict_values(values)`. */
  function DictValues(tokens: seq<string>): Result<seq<(string, Value)>, Error> {
    var pairs :- KeyValues(tokens);
    CoerceAll(FromPairs(pairs), Coerce)
  }

  /** The keys of the dictionary are the tokens' keys, each once, in order of first appearance;
      a key given twice holds the coerced value given last. */
  lemma DictValuesLookup(tokens: seq<string>, k: string)
    requires KeyValues(tokens).Ok? && DictValues(tokens).Ok?
    ensures var pairs := KeyValues(tokens).value; var d := DictValues(tokens).value;
      Keys(d) == FirstOccurrences(Keys(pairs))
      && match LastValue(pairs, k)
         case None => Lookup(d, k) == None
         case Some(v) => Coerce(k, v).Ok? && Lookup(d, k) == Some(Coerce(k, v).value)
  {
    var pairs := KeyValues(tokens).value;
    var raw := FromPairs(pairs);
    var d := DictValues(tokens).value;
    CoerceAllValues(raw, Coerce);
    assert Keys(d) == Keys(raw);
    FromPairsLookup(pairs, k);
    IndexOfKeyByKeys(raw, d, k);
    var i := IndexOfKey(raw, k);
    if i < |raw| {
      assert Lookup(raw, k) == Some(raw[i].1);
    }
  }

  /** A token without `=` fails the whole line, reported with the first such token. */
  lemma DictValuesMissing(tokens: seq<string>, i: nat)
    requires i < |tokens| && !HasEquals(tokens[i])
    requires forall j :: 0 <= j < i ==> HasEquals(tokens[j])
    ensures DictValues(tokens) == Err(MissingEquals(tokens[i]))
  {
  }

  // ---------------------------------------------------------------- the loops

  /** The TERMINALS loop of the source, with its counter `n`. */
  method PairTerminals(items: seq<string>) returns (pairs: seq<string>)
    ensures pairs == Paired(items)
  {
    pairs := [];
    var first := "";
    var n := 0;
    var i := 0;
    while i < |items|
      invariant i <= |items|
      invariant n == i % 2 && |pairs| == i / 2
      invariant n == 1 ==> first == items[i - 1]
      invariant forall j :: 0 <= j < |pairs| ==> pairs[j] == items[2 * j] + " " + items[2 * j + 1]
    {
      var el := items[i];
      i := i + 1;
      n := n + 1;
      if n == 1 {
        first := el;
        continue;
      }
      if n == 2 {
        pairs := pairs + [first + " " + el];
        n := 0;
      }
    }
  }

  /** The body of the source's loop over the dictionary, for one entry. */
  method CoerceValue(key: string, val: string) returns (r: Result<Value, Error>)
    ensures r == Coerce(key, val)
  {
    if QuotedTuple(val) {
      return Ok(Texts(CleanAll(Split(val, ","))));
    }
    if StartsWith(key, "INFO") {
      return Ok(Text(Remove(val, '"')));
    }
    if Contains(key, "PVTFILE") && !QuotedTuple(val) {
      return Ok(Text(Remove(val, '"')));
    }
    if WithUnit(val) {
      if Contains(key, "TERMINALS") {
        var pairs := PairTerminals(TerminalWords(val));
        return Ok(Texts(pairs));
      }
      var parts := Split(val, " ");
      var text := Join(parts[..|parts| - 1], " ");
      var unit := parts[|parts| - 1];
      var lit := ReadLiteral(text);
      if lit.None? {
        return Err(BadLiteral(key, text));
      }
      return Ok(Quantity(Amount(lit.value), StripChar(unit, ',')));
    }
    if NumericText(val) {
      var lit := ReadLiteral(val);
      if lit.None? {
        return Err(BadLiteral(key, val));
      }
      return Ok(Evaluated(lit.value));
    }
    if NameTuple(val) {
      var inner := StripChar(StripChar(val, '('), ')');
      return Ok(Texts(StripNonEmpty(Split(inner, ","))));
    }
    if NumberThenSymbol(val) {
      var words := SymbolWords(val);
      var lit := ReadLiteral(words[0]);
      if lit.None? {
        return Err(BadLiteral(key, words[0]));
      }
      return Ok(Quantity(Amount(lit.value), words[|words| - 1]));
    }
    return Ok(Text(Remove(val, '"')));
  }

  /** `Genkey.get_dict_values`: the keys and values cut from the tokens, zipped into a dictionary,
      then each value coerced in dictionary order. */
  method GetDictValues(values: seq<string>) returns (r: Result<seq<(string, Value)>, Error>)
    ensures r == DictValues(values)
  {
    var kv := KeyValues(values);
    if kv.Err? {
      return Err(kv.error);
    }
    var d := FromPairs(kv.value);
    ghost var f := Coerce;
    var out: seq<(string, Value)> := [];
    var i := 0;
    while i < |d|
      invariant i <= |d|
      invariant CoerceAll(d[..i], f) == Ok(out)
    {
      var v := CoerceValue(d[i].0, d[i].1);
      assert v == f(d[i].0, d[i].1);
      if v.Err? {
        CoerceAllStops(d, i, f);
        return Err(v.error);
      }
      CoerceAllExtends(d, i, f);
      out := out + [(d[i].0, v.value)];
      i := i + 1;
    }
    assert d[..i] == d;
    return Ok(out);
  }
}
