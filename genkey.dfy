/** `Genkey.read` from the file text on, and the `_keys` helpers of the `Genkey` dictionary. The
    text is cut into blocks at whitespace-then-newline; each block with a `! label` line gives a
    first-level key and a section (its second-level keys grouped); sections of a repeated label are
    grouped too. */
module GenkeyReader {
  import opened Wrappers
  import opened Text
  import opened Patterns
  import opened OrderedDict
  import opened GenkeyLines
  import opened GenkeyValues

  /** The dictionary made from one logical line's tokens. */
  type Dict = seq<(string, Value)>

  /** The second-level dictionary of a block: a key met once holds its dictionary, a key met
      several times the list of them. */
  type Section = seq<(string, Grouped<Dict>)>

  /** A first-level value: `None` for an empty section met once, the section met once, or the list
      of sections of a repeated label. */
  datatype Entry = Null | Single(section: Section) | Listed(sections: seq<Section>)

  // ---------------------------------------------------------------- the first-level key

  /** `' '.join([c.strip() for c in el.split(' ')])`. */
  function Normalise(el: string): string {
    Join(StripEach(Split(el, " ")), " ")
  }

  /** The first-level key of a block: the text matched by `!\s\w+.+`, without `!`, stripped. */
  function FirstLevelKey(el: string): (k: Option<string>)
    ensures k.Some? ==> '!' !in k.value && Trimmed(k.value)
  {
    match LabelFrom(Normalise(el), 0)
    case None => None
    case Some(m) => Some(Strip(Remove(m, '!')))
  }

  // ---------------------------------------------------------------- mapping with the first failure

  /** `f` of each of the first `i` elements, in order; the first failure ends the map. */
  function MapUpTo<A, B>(xs: seq<A>, i: nat, f: A -> Result<B, Error>): (r: Result<seq<B>, Error>)
    requires i <= |xs|
    ensures r.Ok? ==> |r.value| == i
  {
    if i == 0 then Ok([])
    else
      var bs :- MapUpTo(xs, i - 1, f);
      var b :- f(xs[i - 1]);
      Ok(bs + [b])
  }

  /** The map succeeds exactly when `f` succeeds on every element, and then holds `f`'s values in
      order. */
  lemma {:induction false} MapUpToValues<A, B>(xs: seq<A>, i: nat, f: A -> Result<B, Error>)
    requires i <= |xs|
    ensures MapUpTo(xs, i, f).Ok? <==> forall j :: 0 <= j < i ==> f(xs[j]).Ok?
    ensures MapUpTo(xs, i, f).Ok? ==> forall j :: 0 <= j < i ==> MapUpTo(xs, i, f).value[j] == f(xs[j]).value
  {
    if i > 0 {
      MapUpToValues(xs, i - 1, f);
    }
  }

  /** One more element: its failure is the map's failure, its value is appended. */
  lemma MapStep<A, B>(xs: seq<A>, i: nat, f: A -> Result<B, Error>, bs: seq<B>)
    requires i < |xs| && MapUpTo(xs, i, f) == Ok(bs)
    ensures MapUpTo(xs, i + 1, f) ==
      match f(xs[i]) case Ok(b) => Ok(bs + [b]) case Err(e) => Err(e)
  {
  }

  /** Once the map has failed, later elements do not change the failure. */
  lemma {:induction false} MapStop<A, B>(xs: seq<A>, i: nat, n: nat, f: A -> Result<B, Error>)
    requires i <= n <= |xs| && MapUpTo(xs, i, f).Err?
    ensures MapUpTo(xs, n, f) == MapUpTo(xs, i, f)
    decreases n - i
  {
    if i < n {
      MapStop(xs, i, n - 1, f);
    }
  }

  // ---------------------------------------------------------------- one block

  /** `list(map(self.split_values, self.clean_lines(el)))`. */
  function BlockElements(el: string): (es: seq<seq<string>>)
    ensures |es| == |CleanLinesSpec(el)|
    ensures forall i :: 0 <= i < |es| ==> es[i] == SplitValuesSpec(CleanLinesSpec(el)[i])
  {
    var lines := CleanLinesSpec(el);
    seq(|lines|, i requires 0 <= i < |lines| => SplitValuesSpec(lines[i]))
  }

  /** The position of the first logical line that gives no tokens, or the number of lines. */
  function FirstEmpty(es: seq<seq<string>>): (i: nat)
    ensures i <= |es|
    ensures i < |es| ==> es[i] == []
    ensures forall j :: 0 <= j < i ==> es[j] != []
  {
    if es == [] then 0 else if es[0] == [] then 0 else 1 + FirstEmpty(es[1..])
  }

  /** `zip(second_keys, values)`. */
  function Zip<V>(ks: seq<string>, vs: seq<V>): (ps: seq<(string, V)>)
    requires |ks| == |vs|
    ensures |ps| == |ks| && forall i :: 0 <= i < |ks| ==> ps[i] == (ks[i], vs[i])
  {
    seq(|ks|, i requires 0 <= i < |ks| => (ks[i], vs[i]))
  }

  /** The second-level keys: the first token of every line. */
  function Heads(es: seq<seq<string>>): (hs: seq<string>)
    requires forall j :: 0 <= j < |es| ==> es[j] != []
    ensures |hs| == |es| && forall i :: 0 <= i < |es| ==> hs[i] == es[i][0]
  {
    seq(|es|, i requires 0 <= i < |es| && es[i] != [] => es[i][0])
  }

  /** A section from the token lists of its lines, `f` making the dictionary of a line: a line
      without tokens fails the block before any dictionary is made; otherwise every line's first
      token keys the dictionary `f` makes of it, grouped by key, a key met once collapsed. */
  function SectionOf<D>(es: seq<seq<string>>, f: seq<string> -> Result<D, Error>)
    : Result<seq<(string, Grouped<D>)>, Error>
  {
    if FirstEmpty(es) < |es| then Err(EmptyLine)
    else
      var ds :- MapUpTo(es, |es|, f);
      Ok(MapValues(Group(Zip(Heads(es), ds)), CollapseOne))
  }

  /** `e[1:]`: the tokens after the second-level key. */
  function Tail(e: seq<string>): (t: seq<string>)
    ensures e != [] ==> e == [e[0]] + t
  {
    if e == [] then [] else e[1..]
  }

  /** `get_dict_values(e[1:])`. */
  function LineDict(e: seq<string>): Result<Dict, Error> {
    DictValues(Tail(e))
  }

  /** The section of one block. */
  function BlockSection(el: string): Result<Section, Error> {
    SectionOf(BlockElements(el), LineDict)
  }

  /** In a section, a second-level key met on one line holds that line's dictionary, a key met on
      several lines holds their dictionaries in order, and a key on no line is absent. */
  lemma SectionLookup<D>(es: seq<seq<string>>, f: seq<string> -> Result<D, Error>, k: string)
    requires SectionOf(es, f).Ok?
    ensures FirstEmpty(es) == |es| && MapUpTo(es, |es|, f).Ok?
    ensures var sel := Select(Zip(Heads(es), MapUpTo(es, |es|, f).value), k);
      Lookup(SectionOf(es, f).value, k) ==
        if sel == [] then None else if |sel| == 1 then Some(One(sel[0])) else Some(Many(sel))
  {
    GroupCollapseLookup(Zip(Heads(es), MapUpTo(es, |es|, f).value), k);
  }

  /** A section fails exactly when a line has no tokens (`EmptyLine`) or a line's dictionary
      fails, and then with the error of the first such line. */
  lemma SectionFails<D>(es: seq<seq<string>>, f: seq<string> -> Result<D, Error>)
    ensures SectionOf(es, f).Err? <==>
      (exists j :: 0 <= j < |es| && es[j] == []) || (exists j :: 0 <= j < |es| && f(es[j]).Err?)
    ensures FirstEmpty(es) < |es| ==> SectionOf(es, f) == Err(EmptyLine)
  {
    MapUpToValues(es, |es|, f);
  }

  // ---------------------------------------------------------------- the whole text

  /** The labelled sections of the first `i` blocks, in order, `key` giving a block's label and
      `section` its section: blocks without a label are skipped, and the first failing section
      ends the loop. */
  function LabelledUpTo<S>(blocks: seq<string>, i: nat, key: string -> Option<string>,
                           section: string -> Result<S, Error>): Result<seq<(string, S)>, Error>
    requires i <= |blocks|
  {
    if i == 0 then Ok([])
    else
      var ps :- LabelledUpTo(blocks, i - 1, key, section);
      match key(blocks[i - 1])
      case None => Ok(ps)
      case Some(k) =>
        var s :- section(blocks[i - 1]);
        Ok(ps + [(k, s)])
  }

  /** One more block: skipped without a label, otherwise its section's failure is the failure and
      its section is appended. */
  function AddBlock<S>(ps: seq<(string, S)>, k: Option<string>, s: Result<S, Error>)
    : Result<seq<(string, S)>, Error>
  {
    match k
    case None => Ok(ps)
    case Some(k) => match s case Ok(s) => Ok(ps + [(k, s)]) case Err(e) => Err(e)
  }

  lemma LabelledStep<S>(blocks: seq<string>, i: nat, key: string -> Option<string>,
                        section: string -> Result<S, Error>, ps: seq<(string, S)>)
    requires i < |blocks| && LabelledUpTo(blocks, i, key, section) == Ok(ps)
    ensures LabelledUpTo(blocks, i + 1, key, section) == AddBlock(ps, key(blocks[i]), section(blocks[i]))
  {
  }

  /** Once a section has failed, later blocks do not change the failure. */
  lemma {:induction false} LabelledStop<S>(blocks: seq<string>, i: nat, n: nat,
                                           key: string -> Option<string>, section: string -> Result<S, Error>)
    requires i <= n <= |blocks| && LabelledUpTo(blocks, i, key, section).Err?
    ensures LabelledUpTo(blocks, n, key, section) == LabelledUpTo(blocks, i, key, section)
    decreases n - i
  {
    if i < n {
      LabelledStop(blocks, i, n - 1, key, section);
    }
  }

  /** The labels of the labelled blocks among the first `i`, in order. */
  function LabelsUpTo(blocks: seq<string>, i: nat, key: string -> Option<string>): seq<string>
    requires i <= |blocks|
  {
    if i == 0 then []
    else
      var ls := LabelsUpTo(blocks, i - 1, key);
      match key(blocks[i - 1]) case None => ls case Some(k) => ls + [k]
  }

  /** The labelled sections pair every label of a labelled block, in order, with its section;
      blocks without a label add nothing. */
  lemma {:induction false} LabelledKeys<S>(blocks: seq<string>, i: nat, key: string -> Option<string>,
                                           section: string -> Result<S, Error>)
    requires i <= |blocks| && LabelledUpTo(blocks, i, key, section).Ok?
    ensures Keys(LabelledUpTo(blocks, i, key, section).value) == LabelsUpTo(blocks, i, key)
  {
    if i > 0 {
      LabelledKeys(blocks, i - 1, key, section);
      var ps := LabelledUpTo(blocks, i - 1, key, section).value;
      match key(blocks[i - 1])
      case None =>
      case Some(k) =>
        var s := section(blocks[i - 1]).value;
        assert Keys(ps + [(k, s)]) == Keys(ps) + [k];
    }
  }

  /** The two collapse loops: a label met once holds its section, `None` when the section is
      empty; a repeated label holds the list of its sections. */
  function Collapse(ss: seq<Section>): Entry {
    if |ss| == 1 then (if ss[0] == [] then Null else Single(ss[0])) else Listed(ss)
  }

  /** The labelled sections of a whole text, in file order. */
  function Sections(text: string): Result<seq<(string, Section)>, Error> {
    var blocks := SplitAtBreaks(text);
    LabelledUpTo(blocks, |blocks|, FirstLevelKey, BlockSection)
  }

  /** `Genkey().read(path)` on the text of the file. */
  function ReadSpec(text: string): Result<seq<(string, Entry)>, Error> {
    var ps :- Sections(text);
    Ok(MapValues(Group(ps), Collapse))
  }

  /** The first-level keys of a read file are the labels of its labelled blocks, each once, in
      order of first appearance. */
  lemma ReadKeys(text: string)
    requires ReadSpec(text).Ok?
    ensures var blocks := SplitAtBreaks(text);
      Keys(ReadSpec(text).value) == FirstOccurrences(LabelsUpTo(blocks, |blocks|, FirstLevelKey))
  {
    var blocks := SplitAtBreaks(text);
    LabelledKeys(blocks, |blocks|, FirstLevelKey, BlockSection);
  }

  /** A label met once holds its section (`None` when empty); a label met several times holds its
      sections in file order; a label never met is absent. */
  lemma ReadLookup(text: string, k: string)
    requires ReadSpec(text).Ok?
    ensures var sel := Select(Sections(text).value, k);
      Lookup(ReadSpec(text).value, k) ==
        if sel == [] then None
        else if |sel| == 1 then Some(if sel[0] == [] then Null else Single(sel[0]))
        else Some(Listed(sel))
  {
    var ps := Sections(text).value;
    GroupLookup(ps, k);
    LookupMapValues(Group(ps), Collapse, k);
  }

  // ---------------------------------------------------------------- the methods

  /** One step of a `setdefault(key, []).append(value)` loop. */
  lemma GroupStep<V>(ps: seq<(string, V)>, i: nat)
    requires i < |ps|
    ensures Group(ps[..i + 1]) == AppendTo(Group(ps[..i]), ps[i].0, ps[i].1)
  {
    assert ps[..i + 1][..i] == ps[..i];
  }

  /** `setdefault(key, []).append(value)` over the pairs, in order. */
  method GroupPairs<V>(ps: seq<(string, V)>) returns (grouped: seq<(string, seq<V>)>)
    ensures grouped == Group(ps)
  {
    grouped := [];
    var i := 0;
    while i < |ps|
      invariant i <= |ps|
      invariant grouped == Group(ps[..i])
    {
      GroupStep(ps, i);
      grouped := AppendTo(grouped, ps[i].0, ps[i].1);
      i := i + 1;
    }
    assert ps[..i] == ps;
  }

  /** The collapse loop: every grouped value rewritten with `collapse`, keys and order kept. */
  method CollapseEach<V, W>(grouped: seq<(string, V)>, collapse: V -> W) returns (d: seq<(string, W)>)
    ensures d == MapValues(grouped, collapse)
  {
    d := [];
    var i := 0;
    while i < |grouped|
      invariant i <= |grouped| && |d| == i
      invariant forall j :: 0 <= j < i ==> d[j] == (grouped[j].0, collapse(grouped[j].1))
    {
      d := d + [(grouped[i].0, collapse(grouped[i].1))];
      i := i + 1;
    }
  }

  /** The `setdefault` loop followed by the collapse loop. */
  method GroupAndCollapse<V, W>(ps: seq<(string, V)>, collapse: seq<V> -> W) returns (d: seq<(string, W)>)
    ensures d == MapValues(Group(ps), collapse)
  {
    var grouped := GroupPairs(ps);
    d := CollapseEach(grouped, collapse);
  }

  /** The tokens of every logical line of a block. */
  method BlockTokens(el: string) returns (es: seq<seq<string>>)
    ensures es == BlockElements(el)
  {
    var lines := CleanLines(el);
    es := [];
    var i := 0;
    while i < |lines|
      invariant i <= |lines| && |es| == i
      invariant forall j :: 0 <= j < i ==> es[j] == SplitValuesSpec(lines[j])
    {
      var e := SplitValues(lines[i]);
      es := es + [e];
      i := i + 1;
    }
  }

  /** `[e[0] for e in elements]`, which fails on a line without tokens. */
  method SecondKeys(es: seq<seq<string>>) returns (hs: Option<seq<string>>)
    ensures hs.None? <==> FirstEmpty(es) < |es|
    ensures hs.Some? ==> hs.value == Heads(es)
  {
    var heads: seq<string> := [];
    var i := 0;
    while i < |es|
      invariant i <= |es| && |heads| == i
      invariant forall j :: 0 <= j < i ==> es[j] != [] && heads[j] == es[j][0]
    {
      if es[i] == [] {
        assert FirstEmpty(es) == i;
        return None;
      }
      heads := heads + [es[i][0]];
      i := i + 1;
    }
    assert FirstEmpty(es) == |es|;
    return Some(heads);
  }

  /** `[f(x) for x in xs]` where `f` may fail: the first failure ends the loop. */
  method MapUntilFailure<A, B>(xs: seq<A>, f: A -> Result<B, Error>) returns (r: Result<seq<B>, Error>)
    ensures r == MapUpTo(xs, |xs|, f)
  {
    var bs: seq<B> := [];
    var i := 0;
    while i < |xs|
      invariant i <= |xs|
      invariant MapUpTo(xs, i, f) == Ok(bs)
    {
      var b := f(xs[i]);
      MapStep(xs, i, f, bs);
      if b.Err? {
        MapStop(xs, i + 1, |xs|, f);
        return Err(b.error);
      }
      bs := bs + [b.value];
      i := i + 1;
    }
    return Ok(bs);
  }

  /** The body of `read`'s loop for a labelled block. */
  method ReadBlock(el: string) returns (r: Result<Section, Error>)
    ensures r == BlockSection(el)
  {
    var es := BlockTokens(el);
    var heads := SecondKeys(es);
    if heads.None? {
      return Err(EmptyLine);
    }
    var ds := MapUntilFailure(es, LineDict);
    if ds.Err? {
      return Err(ds.error);
    }
    var section := GroupAndCollapse(Zip(heads.value, ds.value), CollapseOne);
    return Ok(section);
  }

  /** `read`'s loop over the blocks, with the label and the section of one block given by `key` and `section`. */
  method LabelledLoop<S>(blocks: seq<string>, key: string -> Option<string>, section: string -> Result<S, Error>)
    returns (r: Result<seq<(string, S)>, Error>)
    ensures r == LabelledUpTo(blocks, |blocks|, key, section)
  {
    var ps: seq<(string, S)> := [];
    var i := 0;
    while i < |blocks|
      invariant i <= |blocks|
      invariant LabelledUpTo(blocks, i, key, section) == Ok(ps)
    {
      LabelledStep(blocks, i, key, section, ps);
      var k := key(blocks[i]);
      if k.Some? {
        var s := section(blocks[i]);
        if s.Err? {
          LabelledStop(blocks, i + 1, |blocks|, key, section);
          return Err(s.error);
        }
        ps := ps + [(k.value, s.value)];
      }
      i := i + 1;
    }
    return Ok(ps);
  }

  /** `read`'s loop over the blocks: the label and section of every labelled block, in order. */
  method LabelledSections(text: string) returns (r: Result<seq<(string, Section)>, Error>)
    ensures r == Sections(text)
  {
    var blocks := SplitAtBreaks(text);
    r := LabelledLoop(blocks, FirstLevelKey, BlockSection);
  }

  /** The `Genkey` dictionary: its entries in insertion order, and the `_keys` list. */
  class Genkey {
    var keys: seq<string>
    var items: seq<(string, Entry)>

    constructor ()
      ensures keys == [] && items == []
    {
      keys := [];
      items := [];
    }

    /** `__append_key`: a key not yet listed is appended. */
    method AppendKey(k: string)
      modifies this
      ensures keys == AddKey(old(keys), k) && items == old(items)
    {
      if k !in keys {
        keys := keys + [k];
      }
    }

    /** `__clean_keys`. */
    method CleanKeys()
      modifies this
      ensures keys == [] && items == old(items)
    {
      keys := [];
    }

    /** `__clean_last_key`: `pop(-1)`, which fails on an empty list and changes nothing. */
    method CleanLastKey() returns (ok: bool)
      modifies this
      ensures ok <==> old(keys) != []
      ensures keys == if ok then old(keys)[..|old(keys)| - 1] else old(keys)
      ensures items == old(items)
    {
      if keys == [] {
        return false;
      }
      keys := keys[..|keys| - 1];
      return true;
    }

    /** `read` on the text of the file, for a fresh `Genkey`: on success the entries are the file's
        first-level keys and values; on failure nothing is stored. */
    method Read(text: string) returns (err: Option<Error>)
      requires items == []
      modifies this
      ensures keys == old(keys)
      ensures match ReadSpec(text)
        case Ok(d) => err == None && items == d
        case Err(e) => err == Some(e) && items == old(items)
    {
      var ps := LabelledSections(text);
      if ps.Err? {
        return Some(ps.error);
      }
      var entries := GroupAndCollapse(ps.value, Collapse);
      items := entries;
      return None;
    }
  }
}
