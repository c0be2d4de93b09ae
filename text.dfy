/** The Python `str` operations the two decoders rely on, over strings as sequences of characters:
    `strip`, `strip(c)`, `replace(c, '')`, `split(sep)`, `sep.join`, `split()` and `''.join`. */
module Text {

  /** `str.isspace()`; it is also what `\s` matches in a `re` pattern over `str`. */
  predicate IsSpace(c: char) {
    var n := c as int;
    9 <= n <= 13 || 28 <= n <= 32 || n == 0x85 || n == 0xA0 || n == 0x1680
    || 0x2000 <= n <= 0x200A || n == 0x2028 || n == 0x2029 || n == 0x202F
    || n == 0x205F || n == 0x3000
  }

  /** `\d`, restricted to ASCII digits. */
  predicate IsDigit(c: char) {
    '0' <= c <= '9'
  }

  /** `[A-Z]`. */
  predicate IsUpper(c: char) {
    'A' <= c <= 'Z'
  }

  /** `[a-zA-Z]`. */
  predicate IsLetter(c: char) {
    'A' <= c <= 'Z' || 'a' <= c <= 'z'
  }

  /** `\w`, restricted to ASCII letters, digits and the underscore. */
  predicate IsWordChar(c: char) {
    IsLetter(c) || IsDigit(c) || c == '_'
  }

  predicate IsBlank(s: string) {
    forall i :: 0 <= i < |s| ==> IsSpace(s[i])
  }

  /** No whitespace at either end. */
  predicate Trimmed(s: string) {
    s == [] || (!IsSpace(s[0]) && !IsSpace(s[|s| - 1]))
  }

  // ---------------------------------------------------------------- stripping

  function TrimStart(s: string, drop: char -> bool): (r: string)
    ensures |r| <= |s| && r == s[|s| - |r|..]
    ensures r == [] || !drop(r[0])
    ensures forall i :: 0 <= i < |s| - |r| ==> drop(s[i])
  {
    if |s| > 0 && drop(s[0]) then
      var r := TrimStart(s[1..], drop);
      assert forall i :: 1 <= i < |s| - |r| ==> s[i] == s[1..][i - 1];
      r
    else s
  }

  function TrimEnd(s: string, drop: char -> bool): (r: string)
    ensures |r| <= |s| && r == s[..|r|]
    ensures r == [] || !drop(r[|r| - 1])
    ensures forall i :: |r| <= i < |s| ==> drop(s[i])
  {
    if |s| > 0 && drop(s[|s| - 1]) then
      var r := TrimEnd(s[..|s| - 1], drop);
      assert forall i :: |r| <= i < |s| - 1 ==> s[i] == s[..|s| - 1][i];
      r
    else s
  }

  /** `s.strip()`: the result has no whitespace at either end, is empty exactly when `s` is
      blank, leaves an already trimmed string alone and adds no character. */
  function Strip(s: string): (r: string)
    ensures Trimmed(r)
    ensures r == [] <==> IsBlank(s)
    ensures Trimmed(s) ==> r == s
    ensures forall c :: c in r ==> c in s
  {
    var t := TrimStart(s, IsSpace);
    var r := TrimEnd(t, IsSpace);
    StripFacts(s, t, r);
    r
  }

  /** The ends trimmed from `s` are exactly its leading and trailing whitespace. */
  lemma StripFacts(s: string, t: string, r: string)
    requires t == TrimStart(s, IsSpace) && r == TrimEnd(t, IsSpace)
    ensures Trimmed(r)
    ensures r == [] <==> IsBlank(s)
    ensures Trimmed(s) ==> r == s
    ensures forall c :: c in r ==> c in s
  {
    assert r != [] ==> r[0] == t[0];
    if r == [] {
      assert t == [];
      assert forall i :: 0 <= i < |s| ==> IsSpace(s[i]);
    }
    SliceChars(s, |s| - |t|, |r|);
  }

  lemma SliceChars(s: string, a: nat, n: nat)
    requires a + n <= |s|
    ensures forall c :: c in s[a..][..n] ==> c in s
  {
    forall c | c in s[a..][..n] ensures c in s {
      var k :| 0 <= k < n && s[a..][..n][k] == c;
      assert s[a + k] == c;
    }
  }

  /** `s.strip(c)` for a one-character argument: removes every `c` at either end. */
  function StripChar(s: string, c: char): (r: string)
    ensures r == [] || (r[0] != c && r[|r| - 1] != c)
  {
    var t := TrimStart(s, x => x == c);
    var r := TrimEnd(t, x => x == c);
    assert r != [] ==> r[0] == t[0];
    r
  }

  /** `s.replace(c, '')`. */
  function Remove(s: string, c: char): (r: string)
    ensures c !in r
    ensures forall x :: x in r ==> x in s
    ensures c !in s ==> r == s
  {
    if s == [] then [] else (if s[0] == c then [] else [s[0]]) + Remove(s[1..], c)
  }

  // ---------------------------------------------------------------- searching

  predicate StartsWith(s: string, prefix: string) {
    |prefix| <= |s| && s[..|prefix|] == prefix
  }

  predicate OccursAt(s: string, sep: string, i: nat) {
    i + |sep| <= |s| && s[i..i + |sep|] == sep
  }

  /** The index of the first occurrence of `sep` in `s`, or `|s|` when there is none. */
  function IndexOf(s: string, sep: string): (i: nat)
    requires |sep| > 0
    ensures i <= |s|
    ensures i < |s| ==> i + |sep| <= |s|
    decreases |s|
  {
    if |s| < |sep| then |s|
    else if s[..|sep|] == sep then 0
    else 1 + IndexOf(s[1..], sep)
  }

  /** `sep` occurs where `IndexOf` finds it. */
  lemma {:induction false} IndexOfOccurs(s: string, sep: string)
    requires |sep| > 0
    ensures IndexOf(s, sep) < |s| ==> OccursAt(s, sep, IndexOf(s, sep))
    decreases |s|
  {
    if |s| >= |sep| && s[..|sep|] != sep {
      var k := IndexOf(s[1..], sep);
      IndexOfOccurs(s[1..], sep);
      if k < |s| - 1 {
        assert s[k + 1..k + 1 + |sep|] == s[1..][k..k + |sep|];
      }
    }
  }

  /** No occurrence of `sep` starts before `IndexOf(s, sep)`. */
  lemma {:induction false} IndexOfIsFirst(s: string, sep: string, j: nat)
    requires |sep| > 0 && j < IndexOf(s, sep)
    ensures !OccursAt(s, sep, j)
    decreases |s|
  {
    if |s| >= |sep| && s[..|sep|] != sep && j > 0 {
      IndexOfIsFirst(s[1..], sep, j - 1);
      if j + |sep| <= |s| {
        assert s[j..j + |sep|] == s[1..][j - 1..j - 1 + |sep|];
      }
    }
  }

  /** A first occurrence is what `IndexOf` finds. */
  lemma {:induction false} IndexOfAt(s: string, sep: string, k: nat)
    requires |sep| > 0 && OccursAt(s, sep, k)
    requires forall j :: 0 <= j < k ==> !OccursAt(s, sep, j)
    ensures IndexOf(s, sep) == k
    decreases |s|
  {
    if k > 0 {
      assert !OccursAt(s, sep, 0);
      assert s[..|sep|] == s[0..|sep|];
      forall j | 0 <= j < k - 1 ensures !OccursAt(s[1..], sep, j) {
        assert !OccursAt(s, sep, j + 1);
        if j + |sep| <= |s| - 1 {
          assert s[1..][j..j + |sep|] == s[j + 1..j + 1 + |sep|];
        }
      }
      assert s[1..][k - 1..k - 1 + |sep|] == s[k..k + |sep|];
      IndexOfAt(s[1..], sep, k - 1);
    }
  }

  /** `sep in s`, for a non-empty `sep`. */
  predicate Contains(s: string, sep: string)
    requires |sep| > 0
  {
    IndexOf(s, sep) < |s|
  }

  /** For a one-character separator, `Contains` is membership. */
  lemma ContainsChar(s: string, c: char)
    ensures Contains(s, [c]) <==> c in s
  {
    var i := IndexOf(s, [c]);
    IndexOfOccurs(s, [c]);
    if i < |s| {
      assert s[i..i + 1] == [c];
      assert s[i] == c;
    } else {
      forall j | 0 <= j < |s| ensures s[j] != c {
        IndexOfIsFirst(s, [c], j);
        assert s[j..j + 1] == [s[j]];
      }
    }
  }

  // ---------------------------------------------------------------- split and join

  /** `s.split(sep)` for a non-empty separator: cut at each leftmost non-overlapping occurrence. */
  function Split(s: string, sep: string): (parts: seq<string>)
    requires |sep| > 0
    ensures |parts| >= 1
    decreases |s|
  {
    var i := IndexOf(s, sep);
    if i == |s| then [s] else [s[..i]] + Split(s[i + |sep|..], sep)
  }

  /** `sep.join(parts)`. */
  function Join(parts: seq<string>, sep: string): string {
    if |parts| == 0 then ""
    else if |parts| == 1 then parts[0]
    else parts[0] + sep + Join(parts[1..], sep)
  }

  /** The definition of `Split`, stated once so that callers need not unfold it themselves. */
  lemma SplitDef(s: string, sep: string)
    requires |sep| > 0
    ensures Split(s, sep) == if IndexOf(s, sep) == |s| then [s]
      else [s[..IndexOf(s, sep)]] + Split(s[IndexOf(s, sep) + |sep|..], sep)
  {
  }

  /** One step of `Split` when the separator occurs. */
  lemma SplitUnfold(s: string, sep: string)
    requires |sep| > 0 && IndexOf(s, sep) < |s|
    ensures Split(s, sep) == [s[..IndexOf(s, sep)]] + Split(s[IndexOf(s, sep) + |sep|..], sep)
  {
    SplitDef(s, sep);
  }

  lemma SplitUnfoldLength(s: string, sep: string)
    requires |sep| > 0 && IndexOf(s, sep) < |s|
    ensures |Split(s, sep)| == 1 + |Split(s[IndexOf(s, sep) + |sep|..], sep)|
  {
    SplitUnfold(s, sep);
  }

  lemma SplitUnfoldHead(s: string, sep: string)
    requires |sep| > 0
    ensures Split(s, sep)[0] == s[..IndexOf(s, sep)]
  {
    SplitDef(s, sep);
  }

  lemma SplitUnfoldTail(s: string, sep: string)
    requires |sep| > 0 && IndexOf(s, sep) < |s|
    ensures var tail := Split(s[IndexOf(s, sep) + |sep|..], sep);
      forall k :: 0 <= k < |tail| ==> Split(s, sep)[k + 1] == tail[k]
  {
    SplitUnfold(s, sep);
  }

  /** `Split` when the separator does not occur. */
  lemma SplitWhole(s: string, sep: string)
    requires |sep| > 0 && IndexOf(s, sep) == |s|
    ensures Split(s, sep) == [s]
  {
    var a := Split(s, sep);
    assert |a| == 1 && a[0] == s;
  }

  lemma JoinCons(p: string, tail: seq<string>, sep: string)
    requires |tail| > 0
    ensures Join([p] + tail, sep) == p + sep + Join(tail, sep)
  {
    assert ([p] + tail)[1..] == tail;
  }

  /** The text around a found separator. */
  lemma AroundSeparator(s: string, sep: string, i: nat)
    requires OccursAt(s, sep, i)
    ensures s == s[..i] + sep + s[i + |sep|..]
  {
    assert s == s[..i] + s[i..i + |sep|] + s[i + |sep|..];
  }

  /** Splitting and joining again with the same separator gives the original string back. */
  lemma {:induction false} JoinSplit(s: string, sep: string)
    requires |sep| > 0
    ensures Join(Split(s, sep), sep) == s
    decreases |s|
  {
    var i := IndexOf(s, sep);
    if i < |s| {
      var rest := s[i + |sep|..];
      SplitUnfold(s, sep);
      JoinCons(s[..i], Split(rest, sep), sep);
      JoinSplit(rest, sep);
      IndexOfOccurs(s, sep);
      AroundSeparator(s, sep, i);
    } else {
      SplitWhole(s, sep);
    }
  }

  /** The first piece of a split is the text before the first separator, and the remaining pieces
      joined again are the text after it. */
  lemma SplitHead(s: string, sep: string)
    requires |sep| > 0
    ensures Split(s, sep)[0] == s[..IndexOf(s, sep)]
    ensures IndexOf(s, sep) < |s| ==>
      |Split(s, sep)| >= 2 && Join(Split(s, sep)[1..], sep) == s[IndexOf(s, sep) + |sep|..]
  {
    SplitUnfoldHead(s, sep);
    if IndexOf(s, sep) < |s| {
      SplitRestJoin(s, sep);
    }
  }

  lemma SplitRestJoin(s: string, sep: string)
    requires |sep| > 0 && IndexOf(s, sep) < |s|
    ensures |Split(s, sep)| >= 2 && Join(Split(s, sep)[1..], sep) == s[IndexOf(s, sep) + |sep|..]
  {
    var rest := s[IndexOf(s, sep) + |sep|..];
    SplitDropHead(s, sep);
    JoinSplit(rest, sep);
  }

  lemma SplitDropHead(s: string, sep: string)
    requires |sep| > 0 && IndexOf(s, sep) < |s|
    ensures |Split(s, sep)| >= 2
    ensures Split(s, sep)[1..] == Split(s[IndexOf(s, sep) + |sep|..], sep)
  {
    SplitUnfoldLength(s, sep);
    SplitUnfoldTail(s, sep);
    var parts, tail := Split(s, sep), Split(s[IndexOf(s, sep) + |sep|..], sep);
    assert |parts[1..]| == |tail|;
    assert forall k :: 0 <= k < |tail| ==> parts[1..][k] == tail[k];
  }

  lemma JoinAppend(parts: seq<string>, x: string, sep: string)
    requires |parts| > 0
    ensures Join(parts + [x], sep) == Join(parts, sep) + sep + x
    decreases |parts|
  {
    if |parts| > 1 {
      assert (parts + [x])[1..] == parts[1..] + [x];
      JoinAppend(parts[1..], x, sep);
    }
  }

  /** No piece of a split on a one-character separator contains that character. */
  lemma {:induction false} SplitAvoids(s: string, c: char)
    ensures forall p :: p in Split(s, [c]) ==> c !in p
    decreases |s|
  {
    var i := IndexOf(s, [c]);
    forall j | 0 <= j < i ensures s[j] != c {
      IndexOfIsFirst(s, [c], j);
      assert s[j..j + 1] == [s[j]];
    }
    assert c !in s[..i];
    if i < |s| {
      SplitAvoids(s[i + 1..], c);
    }
  }

  /** `sep.join(parts)` ends with the last part. */
  lemma {:induction false} JoinEndsWithLast(parts: seq<string>, sep: string)
    requires |parts| > 0
    ensures var j := Join(parts, sep); var l := parts[|parts| - 1];
      |l| <= |j| && j[|j| - |l|..] == l
    decreases |parts|
  {
    if |parts| > 1 {
      JoinEndsWithLast(parts[1..], sep);
      assert parts[1..][|parts| - 2] == parts[|parts| - 1];
    }
  }

  /** A text that ends with a non-blank text is not blank. */
  lemma NotBlankSuffix(s: string, t: string)
    requires |t| <= |s| && s[|s| - |t|..] == t && !IsBlank(t)
    ensures !IsBlank(s)
  {
    var k :| 0 <= k < |t| && !IsSpace(t[k]);
    assert s[|s| - |t| + k] == t[k];
  }

  /** `[p.strip() for p in parts]`. */
  function StripEach(parts: seq<string>): (r: seq<string>)
    ensures |r| == |parts| && forall i :: 0 <= i < |parts| ==> r[i] == Strip(parts[i])
  {
    seq(|parts|, i requires 0 <= i < |parts| => Strip(parts[i]))
  }

  /** Joining parts that avoid a character, with a separator that avoids it, avoids it. */
  lemma {:induction false} JoinAvoids(parts: seq<string>, sep: string, c: char)
    requires c !in sep && forall p :: p in parts ==> c !in p
    ensures c !in Join(parts, sep)
    decreases |parts|
  {
    if |parts| > 1 {
      assert parts[0] in parts;
      assert forall p :: p in parts[1..] ==> p in parts;
      JoinAvoids(parts[1..], sep, c);
    } else if |parts| == 1 {
      assert parts[0] in parts;
    }
  }

  // ---------------------------------------------------------------- whitespace split

  /** The length of the longest prefix of `s` without whitespace. */
  function WordLength(s: string): (n: nat)
    ensures n <= |s|
    ensures forall i :: 0 <= i < n ==> !IsSpace(s[i])
    ensures n < |s| ==> IsSpace(s[n])
  {
    if s == [] || IsSpace(s[0]) then 0 else 1 + WordLength(s[1..])
  }

  /** `s.split()`: the maximal runs of non-whitespace characters, in order. */
  function SplitWhitespace(s: string): (words: seq<string>)
    ensures forall w :: w in words ==> w != [] && forall i :: 0 <= i < |w| ==> !IsSpace(w[i])
    decreases |s|
  {
    if s == [] then []
    else if IsSpace(s[0]) then SplitWhitespace(s[1..])
    else
      var n := WordLength(s);
      [s[..n]] + SplitWhitespace(s[n..])
  }

  /** `''.join(parts)`. */
  function Concat(parts: seq<string>): string {
    if parts == [] then "" else parts[0] + Concat(parts[1..])
  }

  lemma {:induction false} ConcatAppend(parts: seq<string>, x: string)
    ensures Concat(parts + [x]) == Concat(parts) + x
    decreases |parts|
  {
    if parts == [] {
      assert [x][1..] == [];
    } else {
      assert (parts + [x])[1..] == parts[1..] + [x];
      ConcatAppend(parts[1..], x);
    }
  }
}
