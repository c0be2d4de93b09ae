# OLGA genkey and tpl decoders in Dafny

This project models the two text decoders of `airflow_df`. Both read files produced by the OLGA
pipeline-flow simulator.

- **Genkey** (`airflow_df/io/olga/genkey.py`) turns a keyword/value configuration file into a nested
  dictionary. `read` cuts the text into blocks and keeps each block that has a `! label` line.
  `clean_lines` joins backslash-continued lines and re-attaches third-level `KEY=` lines to the
  second-level line before them. `split_values` cuts a logical line at `", "`, keeping
  parenthesised spans and `INFO=` text together. `get_dict_values` types every `KEY=value` through
  an ordered cascade of patterns. `read` then groups repeated keys at both levels, collapses keys
  met once and turns empty first-level sections into `None`.
- **Tpl** (`airflow_df/io/olga/tpl.py`) holds `Info`, ten header fields taken from fixed lines, and
  `Profile`, the list of elevation points read from the lines between the header and `CATALOG`.

The model starts from the file text as a string. Python's dictionaries keep insertion order, so
they are modelled as sequences of key/value pairs (`OrderedDict`). Regular expressions are
written as predicates on strings (`Patterns`). The two uses of `eval` on numeric text are
replaced by a reader for decimal literals and tuples of them (`Literals`).

Errors the Python code raises are modelled as `Result`/`Option` values:

- an `IndexError` on a line without tokens or a token without `=`;
- an `eval` of non-literal text;
- a missing header line;
- a `float` of a non-number.

Modules, one per file:

- `Wrappers`: `Option` and `Result`.
- `Text`: `str.strip`, `split`, `join`, `split()` and `replace`.
- `Patterns`: the regular expressions of both decoders.
- `Literals`: the numeric literal reader.
- `OrderedDict`: insertion-ordered dictionaries, `setdefault().append` and the collapse loops.
- `GenkeyLines`: `clean_lines` and `split_values`.
- `GenkeyValues`: `get_dict_values`.
- `GenkeyReader`: `read` and the `_keys` helpers.
- `Tpl`: `Info` and `Profile`.
- `Fixtures`: fixture values from the tests worked out.

Each loop of the source is a `method` with a `while` loop. It is proved equal to a function that
folds the input prefix by prefix: `JoinAfter`, `AttachAfter`, `SplitAfter`, `CoerceAll`,
`MapUpTo`, `LabelledUpTo` and `Group`. The properties of those functions are proved as lemmas.
`Genkey` and `Info` are classes whose fields the methods update. `Profile`, a `list` subclass in
Python, is a class with a `points` sequence field.

## Model

| member | source | states |
|---|---|---|
| Text.Strip | airflow_df/io/olga/genkey.py:64 | the result has no whitespace at either end; it is empty exactly when the input is blank; a trimmed input is returned unchanged; every character comes from the input |
| Text.Remove | airflow_df/io/olga/tpl.py:43 | `replace(c, '')` leaves no `c`, keeps only characters of the input, and changes nothing when `c` is absent |
| Text.JoinSplit | airflow_df/io/olga/genkey.py:63 | joining the pieces of `s.split(sep)` with `sep` gives `s` back |
| Text.SplitAvoids | airflow_df/io/olga/genkey.py:63 | no piece of `s.split(c)` contains `c` |
| Text.StripEach | airflow_df/io/olga/genkey.py:63 | the list comprehension strips every piece and keeps their number and order |
| Text.SplitWhitespace | airflow_df/io/olga/tpl.py:149 | `str.split()` gives non-empty words without whitespace |
| Text.ConcatAppend | airflow_df/io/olga/tpl.py:148 | `''.join` of one more line is the old text followed by that line |
| Patterns.NextBreak | airflow_df/io/olga/genkey.py:271 | the next whitespace-then-newline is the first one at or after the position |
| Patterns.LabelFrom | airflow_df/io/olga/genkey.py:278 | a match of `!\s\w+.+` starts with `!` |
| Patterns.EndingParenCloses | airflow_df/io/olga/genkey.py:103 | a token ending in `)` matches the closing-parenthesis pattern |
| Patterns.SplitAtBreaks | airflow_df/io/olga/genkey.py:271-275 | `re.split(r'\s\n', file)` gives at least one piece |
| Patterns.Breaks | airflow_df/io/olga/genkey.py:271-275 | every text the split removes is one whitespace character followed by a newline |
| Patterns.SplitAtBreaksAvoid | airflow_df/io/olga/genkey.py:271-275 | no piece of the split holds a whitespace-then-newline |
| Patterns.SplitAtBreaksRejoined | airflow_df/io/olga/genkey.py:271-275 | there is one removed break between each two pieces, and putting the breaks back between the pieces gives the file text |
| Literals.ReadNumbers | airflow_df/io/olga/genkey.py:220 | every piece of a tuple is read as one number, or the tuple is refused |
| Literals.ReadUnsignedInt | airflow_df/io/olga/genkey.py:220 | the decimal text of a natural number reads back as that integer |
| Literals.ReadUnsignedFloat | airflow_df/io/olga/genkey.py:220 | `digits e exponent` reads back as that float |
| Literals.ShowNumberReads | airflow_df/io/olga/genkey.py:207 | every number written out as a literal reads back as the same number |
| Literals.ReadLiteralShowNumber | airflow_df/io/olga/genkey.py:219-221 | `eval` of the literal text of any number gives that number |
| Literals.ReadEmptyTuple | airflow_df/io/olga/genkey.py:207 | `eval` of parentheses around blank text gives the empty tuple |
| OrderedDict.AddKey | airflow_df/io/olga/genkey.py:29-33 | appending a key not yet listed keeps the list free of duplicates, keeps the old list as a prefix and adds exactly that key |
| OrderedDict.FirstOccurrences | airflow_df/io/olga/genkey.py:159 | the keys of a dict built from pairs are all the keys, each once |
| OrderedDict.Put | airflow_df/io/olga/genkey.py:167 | `d[k] = v` maps `k` to `v`, leaves every other key's value alone, and appends `k` only if new |
| OrderedDict.FromPairs | airflow_df/io/olga/genkey.py:157-159 | `dict(zip(k, v))` has the keys in order of first occurrence |
| OrderedDict.FromPairsLookup | airflow_df/io/olga/genkey.py:157-159 | in `dict(zip(k, v))` a repeated key holds its last value |
| OrderedDict.AppendTo | airflow_df/io/olga/genkey.py:299 | `setdefault(k, []).append(v)` appends `v` to `k`'s list, starting one when absent, and changes no other key |
| OrderedDict.Group | airflow_df/io/olga/genkey.py:298-299 | grouping the pairs lists every key once, in order of first occurrence |
| OrderedDict.GroupLookup | airflow_df/io/olga/genkey.py:298-299 | a key's list holds the values paired with that key, in order, and a key never paired is absent |
| OrderedDict.MapValues | airflow_df/io/olga/genkey.py:301-303 | rewriting every value in place keeps the keys and their order |
| OrderedDict.LookupMapValues | airflow_df/io/olga/genkey.py:301-303 | after the rewrite each key holds the rewritten value of what it held |
| OrderedDict.GroupCollapseLookup | airflow_df/io/olga/genkey.py:298-303 | a key met once holds its value bare, a key met several times holds the list of its values in order, and an unmet key is absent |
| GenkeyLines.BrokenLinesClean | airflow_df/io/olga/genkey.py:50-69 | every line of the first pass is non-empty, whitespace-trimmed and free of backslashes |
| GenkeyLines.ContinuedClean | airflow_df/io/olga/genkey.py:61-64 | a continuation ended by a non-blank line without a backslash gives a clean line |
| GenkeyLines.ContinuationJoined | airflow_df/io/olga/genkey.py:53-66 | a run of backslash lines, possibly with blank lines among them, followed by a non-blank line without a backslash becomes one line: the backslash lines and the closing line concatenated, cut at each backslash, the pieces stripped and joined with single spaces; the blank lines add nothing |
| GenkeyLines.PendingRun | airflow_df/io/olga/genkey.py:53-69 | while a run of backslash or blank lines lasts, the pending text is the run's backslash lines concatenated and nothing is emitted |
| GenkeyLines.JoinLine | airflow_df/io/olga/genkey.py:54-69 | one pass of the first loop over a physical line is one step of `JoinAfter` |
| GenkeyLines.AttachLine | airflow_df/io/olga/genkey.py:77-87 | one pass of the second loop over a logical line is one step of `AttachAfter` |
| GenkeyLines.KeptUpTo | airflow_df/io/olga/genkey.py:77-87 | the second pass keeps only first-pass lines that match the second- or third-level pattern |
| GenkeyLines.AttachShape | airflow_df/io/olga/genkey.py:77-87 | each kept second-level line is emitted as it is, and each kept third-level line is emitted appended after one space to the accumulator |
| GenkeyLines.LevelsExclusive | airflow_df/io/olga/genkey.py:74-75 | no line matches both the second-level and the third-level pattern |
| GenkeyLines.CleanLinesTrimmed | airflow_df/io/olga/genkey.py:47-89 | one output line per kept line, never empty, never ending in whitespace; it starts with whitespace exactly when no second-level line came before it |
| GenkeyLines.CleanLines | airflow_df/io/olga/genkey.py:47-89 | the two loops compute `CleanLinesSpec` |
| GenkeyLines.SplitValues | airflow_df/io/olga/genkey.py:91-151 | the loop over the `", "` tokens computes `SplitValuesSpec` |
| GenkeyLines.SplitToken | airflow_df/io/olga/genkey.py:106-149 | one iteration of the loop is one step of the token fold, in the source's order of tests |
| GenkeyLines.SplitOutGrows | airflow_df/io/olga/genkey.py:105-149 | the emitted tokens only grow, each step appending |
| GenkeyLines.InfoShape | airflow_df/io/olga/genkey.py:129-140 | the held `_info` is always empty or an `INFO` token |
| GenkeyLines.SecondKeyParts | airflow_df/io/olga/genkey.py:106-116 | a token `KEY value` is emitted as its upper-case key and the text after the first space, which together spell the token |
| GenkeyLines.InfoHeld | airflow_df/io/olga/genkey.py:124-131 | a non-final `INFO=` token followed only by key tokens not for `INFO` is held in `_info`, and the state is otherwise that of the line without it |
| GenkeyLines.InfoJoinedWithNext | airflow_df/io/olga/genkey.py:124-140 | a non-final `INFO=` token is emitted joined by `", "` with the first plain token after it; key tokens in between are emitted on their own meanwhile |
| GenkeyLines.InfoDropped | airflow_df/io/olga/genkey.py:124-131 | a non-final `INFO=` token that no plain token follows is never emitted: the line gives what it gives without that token |
| GenkeyLines.LastKeyKept | airflow_df/io/olga/genkey.py:124-127 | a `KEY=value` token last on its line is emitted unchanged, even an `INFO=` one |
| GenkeyLines.OpenRun | airflow_df/io/olga/genkey.py:142-149 | while a tuple is open, the buffer is the tokens from the opening one rejoined with `", "` |
| GenkeyLines.TupleSpanRejoined | airflow_df/io/olga/genkey.py:119-149 | a tuple opened by `KEY=(` is emitted as one token: the tokens up to the first closing one, rejoined with `", "` |
| GenkeyValues.RuleFor | airflow_df/io/olga/genkey.py:162-245 | the rule chosen applies to the key and value, and no rule earlier in the cascade does |
| GenkeyValues.CleanAll | airflow_df/io/olga/genkey.py:164-165 | every piece of a quoted tuple is cleaned, in order |
| GenkeyValues.StripNonEmpty | airflow_df/io/olga/genkey.py:225 | the word tuple keeps only non-empty pieces, each stripped |
| GenkeyValues.UnitWord | airflow_df/io/olga/genkey.py:202-217 | the unit has no comma at either end |
| GenkeyValues.SymbolWords | airflow_df/io/olga/genkey.py:231 | a value matching `\d+\ \W+` has words, each non-empty and free of whitespace |
| GenkeyValues.CoerceText | airflow_df/io/olga/genkey.py:170-245 | `INFO`, `PVTFILE` and fallback values stay text, lose every `"`, and are otherwise unchanged |
| GenkeyValues.CoerceQuoted | airflow_df/io/olga/genkey.py:163-168 | a quoted tuple gives one trimmed text per comma piece, free of quotes and parentheses |
| GenkeyValues.CoerceQuantity | airflow_df/io/olga/genkey.py:202-217 | a number with a unit succeeds exactly when the number text is a literal; `VALUE` is then always a tuple, of length 1 for a scalar, and `UNIT` is the last word without commas; otherwise the error names the key |
| GenkeyValues.CoerceTerminals | airflow_df/io/olga/genkey.py:180-201 | `TERMINALS` words are paired in order, each pair joined by one space, and an odd last word is dropped |
| GenkeyValues.CoerceNumeric | airflow_df/io/olga/genkey.py:219-221 | numeric text becomes what the literal reads, or an error naming the key |
| GenkeyValues.CoerceSymbol | airflow_df/io/olga/genkey.py:229-243 | a number followed by a symbol becomes `{VALUE: tuple, UNIT: last word}`, or an error naming the key |
| GenkeyValues.CoercePlainWord | airflow_df/io/olga/genkey.py:162-245 | outside `INFO` and `PVTFILE` keys, a value without parentheses, points or whitespace that is not all digits matches no pattern and stays a text without its quotes |
| GenkeyValues.CoerceWrittenNumber | airflow_df/io/olga/genkey.py:219-221 | outside `INFO` and `PVTFILE` keys, the literal text of a number is evaluated back to it exactly when it is a non-negative integer; a negative integer or a float with an exponent stays text, although `eval` would read it back |
| GenkeyValues.CoerceEmptyAmount | airflow_df/io/olga/genkey.py:202-214 | `() 5<tab>s`-shaped values are quantities whose `VALUE` is the empty tuple and whose `UNIT` is the whole last word |
| GenkeyValues.CoerceFails | airflow_df/io/olga/genkey.py:202-243 | typing fails only at one of the three `eval`s, naming the key |
| GenkeyValues.KeyValueParts | airflow_df/io/olga/genkey.py:157-158 | the key is the stripped text before the first `=`, and the value the stripped text between the first and second `=` |
| GenkeyValues.FirstMissing | airflow_df/io/olga/genkey.py:158 | the first token without `=` is found |
| GenkeyValues.KeyValues | airflow_df/io/olga/genkey.py:157-158 | one key/value pair per token |
| GenkeyValues.CoerceAllValues | airflow_df/io/olga/genkey.py:162-245 | the loop succeeds exactly when every value types, and then every key holds its typed value |
| GenkeyValues.CoerceAllExtends | airflow_df/io/olga/genkey.py:162-245 | one more entry that types appends its typed value |
| GenkeyValues.CoerceAllStops | airflow_df/io/olga/genkey.py:162-245 | the first entry that fails to type is the failure |
| GenkeyValues.DictValuesLookup | airflow_df/io/olga/genkey.py:153-247 | the dictionary has the keys in order of first occurrence, and each holds the typed form of its last value |
| GenkeyValues.DictValuesMissing | airflow_df/io/olga/genkey.py:158 | the first token without `=` makes the line fail |
| GenkeyValues.PairTerminals | airflow_df/io/olga/genkey.py:184-199 | the pairing loop computes `Paired` |
| GenkeyValues.CoerceValue | airflow_df/io/olga/genkey.py:162-245 | the loop body for one entry computes `Coerce` |
| GenkeyValues.GetDictValues | airflow_df/io/olga/genkey.py:153-247 | the method computes `DictValues` |
| GenkeyReader.FirstLevelKey | airflow_df/io/olga/genkey.py:283-287 | a first-level key holds no `!` and is trimmed |
| GenkeyReader.MapUpToValues | airflow_df/io/olga/genkey.py:291-294 | mapping succeeds exactly when every element converts, and then holds each converted element in order |
| GenkeyReader.MapStop | airflow_df/io/olga/genkey.py:294 | after the first failure, later elements do not change the failure |
| GenkeyReader.BlockElements | airflow_df/io/olga/genkey.py:290-291 | one token list per cleaned line, each `split_values` of that line |
| GenkeyReader.FirstEmpty | airflow_df/io/olga/genkey.py:292 | the first line without tokens is found |
| GenkeyReader.Zip | airflow_df/io/olga/genkey.py:295 | `zip` pairs equal-length lists position by position |
| GenkeyReader.Heads | airflow_df/io/olga/genkey.py:292 | each line's second-level key is its first token |
| GenkeyReader.Tail | airflow_df/io/olga/genkey.py:293 | `e[1:]` is what follows the first token |
| GenkeyReader.SectionLookup | airflow_df/io/olga/genkey.py:290-303 | in a block's section, a second-level key met once holds its line's dictionary, and a repeated key the list of them in order |
| GenkeyReader.SectionFails | airflow_df/io/olga/genkey.py:290-294 | a block fails exactly when a line has no tokens or a line's dictionary fails, and a line without tokens fails first |
| GenkeyReader.LabelledKeys | airflow_df/io/olga/genkey.py:282-305 | the labelled sections pair the labels of the labelled blocks, in order; unlabelled blocks add nothing |
| GenkeyReader.ReadKeys | airflow_df/io/olga/genkey.py:282-317 | the first-level keys are the block labels, each once, in order of first appearance |
| GenkeyReader.ReadLookup | airflow_df/io/olga/genkey.py:307-321 | a label met once holds its section, or `None` when the section is empty; a repeated label holds the list of its sections in file order |
| GenkeyReader.GroupPairs | airflow_df/io/olga/genkey.py:298-299 | the `setdefault().append` loop computes `Group` |
| GenkeyReader.CollapseEach | airflow_df/io/olga/genkey.py:301-303 | the in-place collapse loop computes `MapValues` |
| GenkeyReader.GroupAndCollapse | airflow_df/io/olga/genkey.py:297-303 | grouping then collapsing computes `MapValues(Group(..))` |
| GenkeyReader.BlockTokens | airflow_df/io/olga/genkey.py:290-291 | `map(split_values, clean_lines(el))` computes `BlockElements` |
| GenkeyReader.SecondKeys | airflow_df/io/olga/genkey.py:292 | fails exactly when a line has no tokens, and otherwise gives every line's first token |
| GenkeyReader.MapUntilFailure | airflow_df/io/olga/genkey.py:294 | the `map` of a failing conversion computes `MapUpTo` |
| GenkeyReader.ReadBlock | airflow_df/io/olga/genkey.py:290-305 | the body of the block loop computes `BlockSection` |
| GenkeyReader.LabelledLoop | airflow_df/io/olga/genkey.py:282-305 | the loop over the blocks computes `LabelledUpTo` |
| GenkeyReader.LabelledSections | airflow_df/io/olga/genkey.py:270-305 | splitting and the block loop compute `Sections` |
| GenkeyReader.Genkey.constructor | airflow_df/io/olga/genkey.py:7-11 | a new `Genkey` is empty, with no `_keys` |
| GenkeyReader.Genkey.AppendKey | airflow_df/io/olga/genkey.py:29-33 | `__append_key` appends a key only when it is not listed, and leaves the entries alone |
| GenkeyReader.Genkey.CleanKeys | airflow_df/io/olga/genkey.py:35-37 | `__clean_keys` empties `_keys` and leaves the entries alone |
| GenkeyReader.Genkey.CleanLastKey | airflow_df/io/olga/genkey.py:39-41 | `__clean_last_key` drops the last key, and reports failure on an empty list |
| GenkeyReader.Genkey.Read | airflow_df/io/olga/genkey.py:249-323 | on success the entries are `ReadSpec` of the text; on failure they are unchanged and the error is reported; `_keys` is untouched |
| Tpl.DeleteQuotes | airflow_df/io/olga/tpl.py:36-43 | the result holds no `'`, is trimmed, and keeps only characters of the input |
| Tpl.DeleteQuotesFixed | airflow_df/io/olga/tpl.py:43 | a text is unchanged exactly when it is quote-free and trimmed, so applying it twice is applying it once |
| Tpl.Header | airflow_df/io/olga/tpl.py:65 | the header is the first 19 lines, or all of them when fewer |
| Tpl.Geometry | airflow_df/io/olga/tpl.py:75 | the geometry is the second whitespace word, present exactly when the line has two words |
| Tpl.SetInfoSucceedsWith | airflow_df/io/olga/tpl.py:65-76 | `set_info` succeeds exactly when line 16 exists and lines 15 and 16 convert; then each field comes from its line and `branch` from the last header line |
| Tpl.SetInfoShortWith | airflow_df/io/olga/tpl.py:67-75 | a header of fewer than 17 lines fails at the first missing line it indexes, or at the network line, after `version` is set and before `geometry` and `branch` are |
| Tpl.SetInfoSucceeds | airflow_df/io/olga/tpl.py:65-76 | the same with `delete_quotes`, the literal reader and `split()[1]` |
| Tpl.SetInfoBranch | airflow_df/io/olga/tpl.py:65-76 | for a file of at least 19 lines, `branch` comes from line 18 |
| Tpl.InfoKeysDistinct | airflow_df/io/olga/tpl.py:97-108 | the ten serialized keys are distinct |
| Tpl.SerializeRoundTrip | airflow_df/io/olga/tpl.py:97-108 | the serialized dict has exactly the ten keys in order, and reading them back gives the fields |
| Tpl.Info.constructor | airflow_df/io/olga/tpl.py:22-33 | a new `Info` has every field unset |
| Tpl.Info.SetInfo | airflow_df/io/olga/tpl.py:65-76 | the fields and the error are `SetInfoSpec` of the old fields |
| Tpl.Info.AssignFields | airflow_df/io/olga/tpl.py:67-76 | assigning the ten fields in order computes `SetInfoWith` |
| Tpl.Info.AssignTextFields | airflow_df/io/olga/tpl.py:67-73 | assigning `version` to `author` computes `SetTextFields` |
| Tpl.Info.Serialize | airflow_df/io/olga/tpl.py:97-108 | the dict has exactly the ten keys, and reading it back gives the current fields |
| Tpl.Appended | airflow_df/io/olga/tpl.py:134-137 | `append` adds one point exactly when both coordinates are floats, and that point is `(x, y)` |
| Tpl.ReadFloat | airflow_df/io/olga/tpl.py:151 | `float` of a token, when it succeeds, is always a float |
| Tpl.ReadFloatWidens | airflow_df/io/olga/tpl.py:151 | `float` accepts every decimal literal `eval` accepts, with the same value as a float |
| Tpl.ReadFloatLeadingZeros | airflow_df/io/olga/tpl.py:151 | `float("007")` is 7.0, although `007` is no Python literal |
| Tpl.StringListReads | airflow_df/io/olga/tpl.py:140-151 | `string_list_2_float_list` succeeds exactly when every whitespace token of the concatenated lines is a number, giving them in order; otherwise it reports the first token that is not one |
| Tpl.StringListLines | airflow_df/io/olga/tpl.py:140-151 | lines that each end in whitespace give the numbers of each line in turn |
| Tpl.ReadFloats | airflow_df/io/olga/tpl.py:151 | `map(float, ..)` succeeds exactly when every token is a number, giving each in order; otherwise it fails on the first bad token |
| Tpl.SplitWhitespaceAppend | airflow_df/io/olga/tpl.py:148-149 | text ending in whitespace splits independently of what follows it |
| Tpl.ConcatTokens | airflow_df/io/olga/tpl.py:148-149 | lines ending in whitespace, joined with no separator, give the tokens of each line in turn |
| Tpl.PointsOf | airflow_df/io/olga/tpl.py:168 | `zip` stops at the shorter list and pairs position by position |
| Tpl.ProfileLines | airflow_df/io/olga/tpl.py:160-162 | the profile lines are missing exactly when the text before `CATALOG` has at most 20 lines |
| Tpl.ProfilePoints | airflow_df/io/olga/tpl.py:164-168 | the points pair the numbers of the first half of the lines, rounded down, with those of the rest, as many as the shorter half has |
| Tpl.ProfileBeforeCatalog | airflow_df/io/olga/tpl.py:160 | whatever follows the first `CATALOG` does not change the profile |
| Tpl.ProfileColumns | airflow_df/io/olga/tpl.py:176-192 | `x`, `y` and `profile` have the list's length, `profile[i] == (x[i], y[i])`, and zipping `x` and `y` gives the points back |
| Tpl.Profile.constructor | airflow_df/io/olga/tpl.py:121-123 | a new `Profile` has no points |
| Tpl.Profile.Append | airflow_df/io/olga/tpl.py:125-137 | the points grow by `Appended(x, y)` and by nothing else |
| Tpl.Profile.X | airflow_df/io/olga/tpl.py:176-180 | `x` is each point's x, in order |
| Tpl.Profile.Y | airflow_df/io/olga/tpl.py:182-186 | `y` is each point's y, in order |
| Tpl.Profile.ProfilePairs | airflow_df/io/olga/tpl.py:188-192 | `profile[i]` is `(x[i], y[i])` for every point |
| Tpl.Profile.Serialize | airflow_df/io/olga/tpl.py:194-209 | the record holds exactly the `x`, `y` and `profile` properties, each as long as the profile; `x` and `y` zip back to the points, and `profile[i] == (x[i], y[i])` |
| Tpl.Profile.SetProfile | airflow_df/io/olga/tpl.py:153-174 | on success the points grow by `ProfileSpec(file)`; on failure they are unchanged and the error is reported |
| Tpl.Profile.ReadProfileLines | airflow_df/io/olga/tpl.py:160-162 | the method computes `ProfileLines` |
| Tpl.Profile.AppendAll | airflow_df/io/olga/tpl.py:170-174 | appending the zipped points in order adds exactly them |
| Fixtures.EndTime | airflow_df/tests/test_olga.py:125-128 | `ENDTIME 5 s` types as `{VALUE: (5,), UNIT: 's'}` |
| Fixtures.GeometryUnit | airflow_df/tests/test_tpl.py:31 | a geometry line of the form of `GEOMETRY' (M)  '` (a word, a space, the unit word, then whitespace) gives the unit word, `(M)` there, as the geometry |

## Code and description differ

Where the repository's own description and its code disagree, the model follows the code:

- `set_info` does not require 19 header lines. The code reads `file[:19]`, so a header of 17 or 18
  lines also succeeds, and `branch` then comes from its last line.
- In `clean_lines`' second pass, a second-level line is emitted. Each third-level line after it
  emits the grown accumulator as one more line. The earlier, shorter lines stay in the output.
- An `INFO=` token that is not last on its line is joined with one following token, not with
  every following token: the first plain token after it (one matching none of the key
  patterns). Key tokens in between are emitted on their own meanwhile (`InfoJoinedWithNext`).
  When no plain token follows, the `INFO=` token is dropped: `INFO=a, K=1` gives `['K=1']`
  (`InfoDropped`).
- Only first-level values equal to `{}` become `None`. An empty second-level dictionary stays
  empty.
- A unit-tagged `VALUE` is always a tuple. Some expectations in `airflow_df/tests/test_genkey.py`
  write it as a scalar; the code, and `airflow_df/tests/test_olga.py`, make it a one-element
  tuple.
- The lines `clean_lines` returns are not always trimmed. A third-level line that comes before any
  second-level line is attached to the empty accumulator after one space, so it is returned with
  a leading space (`GenkeyLines.CleanLinesTrimmed`).
- A unit-tagged `VALUE` can be the empty tuple. In `K=() 5<tab>s` the text before the last space
  is `()`, which evaluates to `()` (`GenkeyValues.CoerceEmptyAmount`).
- Numbers do not survive being written out and typed again. The text of a non-negative integer
  is evaluated back to that integer, but the text of a negative integer (`-5`) or of a float with
  an exponent (`1e-05`) matches none of the patterns and stays a string
  (`GenkeyValues.CoerceWrittenNumber`).

## Left out

- File reading: `open`, the parent-directory fallback and `TPL.read_raw_file` are left out. The
  model starts from the file text.
- `eval` is not modelled in general. It is replaced by a reader that accepts:
  - a signed decimal integer or float;
  - a parenthesised one;
  - comma-separated tuples of them.

  Other text that Python's `eval` would accept (expressions, hexadecimal, underscores, nested
  tuples) is reported as `BadLiteral`.
- Floating point: binary floating point and `round(x, 3)` are not modelled. A coordinate is the
  exact decimal written in the file, typed as a float.
- Tpl.ReadFloats: `float` is modelled on signed decimal literals, including digit runs with
  leading zeros. It does not accept underscores between digits (`1_000`), `inf`, `infinity` or
  `nan`, which Python's `float` does. Surrounding whitespace cannot occur, because the tokens come
  from `str.split()`.
- The `re` engine is not modelled. Each pattern is a predicate. `\w` and `\d` are ASCII only,
  while whitespace is Python's full whitespace set.
- `set_previous_line`, `get_previous_line`, `set_previous_item` and `get_previous_item` are left
  out, because `read` never uses them.
- The `Data` class (pandas code) is left out. So is the `TPL` wrapper class, which only delegates
  to `Info`, `Profile` and `Data`, or is a stub (`TPL.read`).
- `GenkeyReader.Genkey.Read` requires an empty dictionary, because every caller reads into a new
  `Genkey`. Reading into a non-empty one would merge with its entries, and the model does not
  cover that.
- `GenkeyReader.Genkey.CleanLastKey` reports an empty `_keys` as `false`, where Python raises
  `IndexError`.
- In-place rewrites of Python dictionaries and lists are modelled on values. Examples are
  `k_v[key] = ...` inside the loop over `k_v.items()` and the collapse loops. Aliasing between
  those objects is not modelled.
- The loop over the blocks and the `map` over the lines of a block are generic methods
  (`LabelledLoop`, `MapUntilFailure`). They take the per-block and per-line conversions as
  function values (`BlockSection`, `LineDict`). `ReadBlock` and `GetDictValues` are proved to
  compute those functions, but the loops do not call these methods.
- Whole-file fixtures are not modelled: the expected first-level key order and the 19-point
  profile. The fixture files are not part of this model.
