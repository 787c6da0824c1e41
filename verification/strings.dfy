/** ASCII string primitives shared by every part of the contact pipeline.

    The scripts work on Python `str` values and use `lower()`, `upper()`,
    `title()`, `strip()`, `split()` and the `in` substring test. These are
    modelled here for the ASCII range; characters outside it are left as they
    are by the case mappings and are never whitespace.
 */
module Strings {

  // ---------------------------------------------------------------------------
  // Characters
  // ---------------------------------------------------------------------------

  predicate IsUpperChar(c: char) { 'A' <= c <= 'Z' }

  predicate IsLowerChar(c: char) { 'a' <= c <= 'z' }

  predicate IsLetter(c: char) { IsUpperChar(c) || IsLowerChar(c) }

  predicate IsDigit(c: char) { '0' <= c <= '9' }

  predicate IsAlnum(c: char) { IsLetter(c) || IsDigit(c) }

  /** Python's `str.isspace()` restricted to ASCII: blank, \t \n \v \f \r and
      the four separator controls 0x1C-0x1F. */
  predicate IsSpace(c: char) {
    c == ' ' || (9 <= c as int <= 13) || (28 <= c as int <= 31)
  }

  function LowerChar(c: char): char {
    if IsUpperChar(c) then (c as int + 32) as char else c
  }

  function UpperChar(c: char): char {
    if IsLowerChar(c) then (c as int - 32) as char else c
  }

  // ---------------------------------------------------------------------------
  // Case mappings
  // ---------------------------------------------------------------------------

  /** `s.lower()` */
  function Lower(s: string): (r: string)
    ensures |r| == |s|
    ensures forall i :: 0 <= i < |s| ==> r[i] == LowerChar(s[i])
  {
    seq(|s|, i requires 0 <= i < |s| => LowerChar(s[i]))
  }

  /** `s.upper()` */
  function Upper(s: string): (r: string)
    ensures |r| == |s|
    ensures forall i :: 0 <= i < |s| ==> r[i] == UpperChar(s[i])
  {
    seq(|s|, i requires 0 <= i < |s| => UpperChar(s[i]))
  }

  /** `s.title()`: a letter is upper-cased when the character before it is not
      a letter, and lower-cased otherwise. */
  function Title(s: string): (r: string)
    ensures |r| == |s|
    ensures forall i :: 0 <= i < |s| ==> r[i] == TitleChar(s, i)
  {
    seq(|s|, i requires 0 <= i < |s| => TitleChar(s, i))
  }

  function TitleChar(s: string, i: nat): char
    requires i < |s|
  {
    if i == 0 || !IsLetter(s[i - 1]) then UpperChar(s[i]) else LowerChar(s[i])
  }

  /** A lower-case word title-cases to its capitalised first letter and the rest unchanged. */
  lemma TitleOfLowerWord(s: string)
    requires |s| > 0 && forall i :: 0 <= i < |s| ==> IsLowerChar(s[i])
    ensures Title(s) == [UpperChar(s[0])] + s[1..]
  {
  }

  /** Title-casing treats the words on either side of a space separately. */
  lemma TitleAroundSpace(a: string, b: string)
    requires |a| > 0 && IsLetter(a[|a| - 1])
    ensures Title(a + " " + b) == Title(a) + " " + Title(b)
  {
    var s := a + " " + b;
    var r := Title(a) + " " + Title(b);
    forall i | 0 <= i < |s|
      ensures Title(s)[i] == r[i]
    {
      if i < |a| {
        assert s[i] == a[i];
        if i > 0 { assert s[i - 1] == a[i - 1]; }
      } else if i > |a| + 1 {
        assert s[i] == b[i - |a| - 1] && s[i - 1] == b[i - |a| - 2];
      }
    }
  }

  /** Every character of a lower-cased string is outside A-Z. */
  lemma LowerHasNoUpper(s: string)
    ensures forall i :: 0 <= i < |Lower(s)| ==> !IsUpperChar(Lower(s)[i])
  {
  }

  /** Lower-casing is idempotent. */
  lemma LowerIdempotent(s: string)
    ensures Lower(Lower(s)) == Lower(s)
  {
  }

  // ---------------------------------------------------------------------------
  // Substrings
  // ---------------------------------------------------------------------------

  /** `pat` occurs in `text` starting at index `i`. */
  predicate OccursAt(text: string, pat: string, i: int) {
    0 <= i && i + |pat| <= |text| && text[i..i + |pat|] == pat
  }

  /** Python's `pat in text`. */
  predicate Contains(text: string, pat: string) {
    exists i | 0 <= i <= |text| - |pat| :: OccursAt(text, pat, i)
  }

  /** `any(p in text for p in pats)` */
  predicate ContainsAny(text: string, pats: seq<string>) {
    exists k | 0 <= k < |pats| :: Contains(text, pats[k])
  }

  /** Index of the first pattern of `pats` that occurs in `text`, or |pats|. */
  function FirstContained(text: string, pats: seq<string>): (k: nat)
    ensures k <= |pats|
    ensures k < |pats| ==> Contains(text, pats[k])
    ensures forall j :: 0 <= j < k ==> !Contains(text, pats[j])
  {
    if |pats| == 0 then 0
    else if Contains(text, pats[0]) then 0
    else 1 + FirstContained(text, pats[1..])
  }

  /** Keyword lists, one per class, in the order a first-match rule tests them. */
  type KeywordGroups = seq<seq<string>>

  /** Index of the first group having a keyword in `text`, or |groups|. */
  function FirstGroup(text: string, groups: KeywordGroups): (k: nat)
    ensures k <= |groups|
    ensures k < |groups| ==> ContainsAny(text, groups[k])
    ensures forall j :: 0 <= j < k ==> !ContainsAny(text, groups[j])
  {
    if |groups| == 0 then 0
    else if ContainsAny(text, groups[0]) then 0
    else 1 + FirstGroup(text, groups[1..])
  }

  /** Number of patterns of `pats` that occur in `text` (each counted once). */
  function CountContained(text: string, pats: seq<string>): (n: nat)
    ensures n <= |pats|
    ensures n == 0 <==> !ContainsAny(text, pats)
  {
    if |pats| == 0 then 0
    else (if Contains(text, pats[0]) then 1 else 0) + CountContained(text, pats[1..])
  }

  /** A text that contains another matches at least as many patterns. */
  lemma {:induction false} CountContainedMonotone(a: string, b: string, pats: seq<string>)
    requires Contains(b, a)
    ensures CountContained(a, pats) <= CountContained(b, pats)
  {
    if |pats| > 0 {
      CountContainedMonotone(a, b, pats[1..]);
      if Contains(a, pats[0]) {
        ContainsTransitive(b, a, pats[0]);
      }
    }
  }

  /** Lower-casing keeps every occurrence. */
  lemma LowerKeepsContains(a: string, b: string)
    requires Contains(b, a)
    ensures Contains(Lower(b), Lower(a))
  {
    var i :| 0 <= i <= |b| - |a| && OccursAt(b, a, i);
    assert forall k :: 0 <= k < |a| ==> b[i + k] == a[k];
    assert Lower(b)[i..i + |a|] == Lower(a);
    assert OccursAt(Lower(b), Lower(a), i);
  }

  lemma FirstContainedIsAny(text: string, pats: seq<string>)
    ensures FirstContained(text, pats) < |pats| <==> ContainsAny(text, pats)
  {
  }

  lemma ContainsWitness(text: string, pat: string, i: int)
    requires OccursAt(text, pat, i)
    ensures Contains(text, pat)
  {
  }

  /** Substring containment is transitive. */
  lemma {:induction false} ContainsTransitive(a: string, b: string, c: string)
    requires Contains(a, b) && Contains(b, c)
    ensures Contains(a, c)
  {
    var i :| 0 <= i <= |a| - |b| && OccursAt(a, b, i);
    var j :| 0 <= j <= |b| - |c| && OccursAt(b, c, j);
    forall k | 0 <= k < |c|
      ensures a[i + j + k] == c[k]
    {
      assert a[i..i + |b|][j + k] == b[j + k];
      assert b[j..j + |c|][k] == c[k];
    }
    assert a[i + j..i + j + |c|] == c;
    assert OccursAt(a, c, i + j);
  }

  /** A string contains every one of its characters. */
  lemma {:induction false} ContainsChar(text: string, pat: string, k: int)
    requires Contains(text, pat) && 0 <= k < |pat|
    ensures pat[k] in text
  {
    var i :| 0 <= i <= |text| - |pat| && OccursAt(text, pat, i);
    assert text[i + k] == pat[k];
  }

  /** Whatever `text` contains, `pre + text + post` contains too. */
  lemma {:induction false} ContainsExtend(pre: string, text: string, post: string, pat: string)
    requires Contains(text, pat)
    ensures Contains(pre + text + post, pat)
  {
    var i :| 0 <= i <= |text| - |pat| && OccursAt(text, pat, i);
    var whole := pre + text + post;
    assert whole[|pre| + i..|pre| + i + |pat|] == text[i..i + |pat|];
    assert OccursAt(whole, pat, |pre| + i);
  }

  /** A pattern with a character the text lacks does not occur in it. */
  lemma MissingCharNotContained(text: string, pat: string, k: int)
    requires 0 <= k < |pat| && pat[k] !in text
    ensures !Contains(text, pat)
  {
    if Contains(text, pat) {
      ContainsChar(text, pat, k);
    }
  }

  /** Lower-casing commutes with slicing. */
  lemma LowerSlice(s: string, i: int, j: int)
    requires 0 <= i <= j <= |s|
    ensures Lower(s[i..j]) == Lower(s)[i..j]
  {
  }

  /** Lower-casing a text with neither case of a letter leaves that letter out. */
  lemma LowerLacks(s: string, c: char)
    requires IsLowerChar(c) && c !in s && UpperChar(c) !in s
    ensures c !in Lower(s)
  {
    forall i | 0 <= i < |s|
      ensures Lower(s)[i] != c
    {
      if IsUpperChar(s[i]) {
        assert s[i] != UpperChar(c);
      }
    }
  }

  lemma ContainsSelf(s: string)
    ensures Contains(s, s)
  {
    assert OccursAt(s, s, 0);
  }

  // ---------------------------------------------------------------------------
  // Whitespace trimming and splitting
  // ---------------------------------------------------------------------------

  function TrimStart(s: string): (r: string)
    ensures |r| <= |s|
    ensures r == s[|s| - |r|..]
    ensures |r| > 0 ==> !IsSpace(r[0])
  {
    if |s| > 0 && IsSpace(s[0]) then TrimStart(s[1..]) else s
  }

  /** What `TrimStart` drops is whitespace. */
  lemma {:induction false} TrimStartDropsSpaces(s: string)
    ensures forall i :: 0 <= i < |s| - |TrimStart(s)| ==> IsSpace(s[i])
  {
    if |s| > 0 && IsSpace(s[0]) {
      TrimStartDropsSpaces(s[1..]);
      assert forall i :: 1 <= i < |s| ==> s[i] == s[1..][i - 1];
    }
  }

  function TrimEnd(s: string): (r: string)
    ensures |r| <= |s|
    ensures r == s[..|r|]
    ensures |r| > 0 ==> !IsSpace(r[|r| - 1])
  {
    if |s| > 0 && IsSpace(s[|s| - 1]) then TrimEnd(s[..|s| - 1]) else s
  }

  /** `s.strip()` */
  function Strip(s: string): (r: string)
    ensures |r| <= |s|
    ensures |r| > 0 ==> !IsSpace(r[0]) && !IsSpace(r[|r| - 1])
  {
    TrimEnd(TrimStart(s))
  }

  /** `s.split(sep)` with a one-character separator: the pieces between
      separators, always at least one. */
  function Split(s: string, sep: char): (r: seq<string>)
    ensures |r| >= 1
    ensures forall k :: 0 <= k < |r| ==> sep !in r[k]
    ensures sep !in s ==> r == [s]
    ensures sep in s ==> |r| >= 2 && r[0] == s[..IndexOf(s, sep)]
    decreases |s|
  {
    if sep !in s then [s]
    else
      var i := IndexOf(s, sep);
      [s[..i]] + Split(s[i + 1..], sep)
  }

  /** Index of the first occurrence of `c` in `s`. */
  function IndexOf(s: string, c: char): (i: nat)
    requires c in s
    ensures i < |s| && s[i] == c && c !in s[..i]
  {
    if s[0] == c then 0 else 1 + IndexOf(s[1..], c)
  }

  /** A text with exactly one separator splits into the parts around it. */
  lemma SplitOnce(a: string, b: string, sep: char)
    requires sep !in a && sep !in b
    ensures Split(a + [sep] + b, sep) == [a, b]
  {
    var s := a + [sep] + b;
    assert s[|a|] == sep;
    var i := IndexOf(s, sep);
    assert i == |a|;
    assert s[..i] == a && s[i + 1..] == b;
  }

  /** Lower-casing and stripping never introduce a character that is not a letter. */
  lemma StripLowerKeepsAbsent(s: string, c: char)
    requires c !in s && !IsLetter(c)
    ensures c !in Strip(Lower(s))
  {
    var l := Lower(s);
    assert c !in l;
    var t := TrimStart(l);
    assert t == l[|l| - |t|..];
    assert c !in t;
    assert TrimEnd(t) == t[..|TrimEnd(t)|];
  }

  /** Joining the pieces of `Split` with the separator gives back the input. */
  function JoinWith(parts: seq<string>, sep: char): string
    requires |parts| >= 1
  {
    if |parts| == 1 then parts[0] else parts[0] + [sep] + JoinWith(parts[1..], sep)
  }

  lemma {:induction false} SplitJoin(s: string, sep: char)
    ensures JoinWith(Split(s, sep), sep) == s
    decreases |s|
  {
    if sep in s {
      var i := IndexOf(s, sep);
      SplitJoin(s[i + 1..], sep);
      assert s == s[..i] + [sep] + s[i + 1..];
    }
  }

  /** Length of the run of non-space characters at the start of `s`. */
  function WordLength(s: string): (n: nat)
    ensures n <= |s|
    ensures forall i :: 0 <= i < n ==> !IsSpace(s[i])
    ensures n < |s| ==> IsSpace(s[n])
  {
    if |s| == 0 || IsSpace(s[0]) then 0 else 1 + WordLength(s[1..])
  }

  /** Length of the longest prefix of `s` whose characters all satisfy `p`. */
  function Run(s: string, p: char -> bool): (n: nat)
    ensures n <= |s|
    ensures forall i :: 0 <= i < n ==> p(s[i])
    ensures n < |s| ==> !p(s[n])
  {
    if |s| == 0 || !p(s[0]) then 0 else 1 + Run(s[1..], p)
  }

  /** Length of the longest suffix of `s` whose characters all satisfy `p`. */
  function RunBack(s: string, p: char -> bool): (n: nat)
    ensures n <= |s|
    ensures forall i :: |s| - n <= i < |s| ==> p(s[i])
    ensures n < |s| ==> !p(s[|s| - n - 1])
  {
    if |s| == 0 || !p(s[|s| - 1]) then 0 else 1 + RunBack(s[..|s| - 1], p)
  }

  /** A word of `str.split()`: never empty. */
  type Word = w: string | |w| > 0 witness "_"

  /** `s.split()`: the maximal runs of non-space characters, in order. */
  function Words(s: string): seq<Word>
  {
    if |s| == 0 then []
    else if IsSpace(s[0]) then Words(s[1..])
    else
      var n := WordLength(s);
      [s[..n]] + Words(s[n..])
  }

  /** A text has no words exactly when it is all whitespace. */
  lemma {:induction false} WordsOfBlank(s: string)
    ensures |Words(s)| == 0 <==> forall i :: 0 <= i < |s| ==> IsSpace(s[i])
  {
    if |s| > 0 && IsSpace(s[0]) {
      WordsOfBlank(s[1..]);
      assert forall i :: 1 <= i < |s| ==> s[i] == s[1..][i - 1];
    }
  }

  /** The first word of a text that starts with a word and a space. */
  lemma FirstWord(w: string, rest: string)
    requires |w| > 0 && forall i :: 0 <= i < |w| ==> !IsSpace(w[i])
    ensures |Words(w + " " + rest)| > 0 && Words(w + " " + rest)[0] == w
  {
    var s := w + " " + rest;
    assert s[0] == w[0];
    assert s[|w|] == ' ';
    var n := WordLength(s);
    assert forall i :: 0 <= i < |w| ==> s[i] == w[i];
    assert n == |w|;
    assert s[..n] == w;
  }

  /** A text of one word is that word. */
  lemma SingleWord(w: string)
    requires |w| > 0 && forall i :: 0 <= i < |w| ==> !IsSpace(w[i])
    ensures Words(w) == [w]
  {
    WholeWord(w);
    var e := w[|w|..];
    assert |e| == 0;
    assert |Words(e)| == 0;
    assert w[..|w|] == w;
  }

  lemma WholeWord(w: string)
    requires forall i :: 0 <= i < |w| ==> !IsSpace(w[i])
    ensures WordLength(w) == |w|
  {
  }

  /** The first word is made of non-space characters of the text. */
  lemma {:induction false} FirstWordChars(s: string)
    requires |Words(s)| > 0
    ensures forall i :: 0 <= i < |Words(s)[0]| ==> Words(s)[0][i] in s && !IsSpace(Words(s)[0][i])
  {
    if IsSpace(s[0]) {
      FirstWordChars(s[1..]);
      assert Words(s) == Words(s[1..]);
      forall i | 0 <= i < |Words(s)[0]|
        ensures Words(s)[0][i] in s
      {
        var c := Words(s)[0][i];
        var j :| 0 <= j < |s[1..]| && s[1..][j] == c;
        assert s[j + 1] == c;
      }
    } else {
      var n := WordLength(s);
      var w := Words(s)[0];
      assert w == s[..n];
      forall i | 0 <= i < |w|
        ensures w[i] in s && !IsSpace(w[i])
      {
        assert w[i] == s[i];
      }
    }
  }

  /** `s.replace(a, b)` for single characters. */
  function ReplaceChar(s: string, a: char, b: char): (r: string)
    ensures |r| == |s|
    ensures forall i :: 0 <= i < |s| ==> r[i] == (if s[i] == a then b else s[i])
  {
    seq(|s|, i requires 0 <= i < |s| => if s[i] == a then b else s[i])
  }

  /** `s.replace(c, '')` for a single character. */
  function RemoveChar(s: string, c: char): (r: string)
    ensures |r| <= |s|
    ensures c !in r
  {
    if |s| == 0 then ""
    else if s[0] == c then RemoveChar(s[1..], c)
    else [s[0]] + RemoveChar(s[1..], c)
  }

  /** The first `n` characters of `s`, Python's `s[:n]`. */
  function Take(s: string, n: nat): (r: string)
    ensures |r| == if n < |s| then n else |s|
  {
    if n < |s| then s[..n] else s
  }

  /** Joins strings with a separator: Python's `sep.join(parts)`. */
  function Join(parts: seq<string>, sep: string): string
  {
    if |parts| == 0 then ""
    else if |parts| == 1 then parts[0]
    else parts[0] + sep + Join(parts[1..], sep)
  }

  /** True iff `s` has no duplicate elements. */
  predicate Distinct<T(==)>(s: seq<T>) {
    forall i, j :: 0 <= i < j < |s| ==> s[i] != s[j]
  }

  /** `xs` is `ys` with some elements dropped, order kept. */
  ghost predicate IsSubsequence<T>(xs: seq<T>, ys: seq<T>) {
    |xs| == 0
    || (|ys| > 0 && ((xs[0] == ys[0] && IsSubsequence(xs[1..], ys[1..])) || IsSubsequence(xs, ys[1..])))
  }

  /** Order-preserving removal of repeated elements (first occurrence wins). */
  function Dedup<T(==, !new)>(s: seq<T>): (r: seq<T>)
    ensures Distinct(r)
    ensures forall x :: x in r <==> x in s
    ensures |r| <= |s|
  {
    DedupFrom(s, {})
  }

  function DedupFrom<T(==, !new)>(s: seq<T>, seen: set<T>): (r: seq<T>)
    ensures Distinct(r)
    ensures forall x :: x in r <==> x in s && x !in seen
    ensures |r| <= |s|
  {
    if |s| == 0 then []
    else if s[0] in seen then DedupFrom(s[1..], seen)
    else [s[0]] + DedupFrom(s[1..], seen + {s[0]})
  }

  // ---------------------------------------------------------------------------
  // Ordering
  // ---------------------------------------------------------------------------

  /** Python's `a < b` on strings: lexicographic by code point, a proper
      prefix first. */
  predicate LexLess(a: string, b: string) {
    if |a| == 0 then |b| > 0
    else if |b| == 0 then false
    else if a[0] != b[0] then a[0] < b[0]
    else LexLess(a[1..], b[1..])
  }

  lemma {:induction false} LexLessIrreflexive(a: string)
    ensures !LexLess(a, a)
  {
    if |a| > 0 {
      LexLessIrreflexive(a[1..]);
    }
  }

  lemma {:induction false} LexLessTransitive(a: string, b: string, c: string)
    requires LexLess(a, b) && LexLess(b, c)
    ensures LexLess(a, c)
  {
    if |a| > 0 && |b| > 0 && |c| > 0 && a[0] == b[0] && b[0] == c[0] {
      LexLessTransitive(a[1..], b[1..], c[1..]);
    }
  }

  /** Two different strings are ordered one way or the other. */
  lemma {:induction false} LexLessTotal(a: string, b: string)
    requires a != b
    ensures LexLess(a, b) || LexLess(b, a)
  {
    if |a| > 0 && |b| > 0 && a[0] == b[0] {
      assert a == [a[0]] + a[1..] && b == [b[0]] + b[1..];
      LexLessTotal(a[1..], b[1..]);
    }
  }

  lemma {:induction false} LexLessAsymmetric(a: string, b: string)
    requires LexLess(a, b)
    ensures !LexLess(b, a)
  {
    if |a| > 0 && |b| > 0 && a[0] == b[0] {
      LexLessAsymmetric(a[1..], b[1..]);
    }
  }
}
