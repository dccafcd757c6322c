/**
 * The Python string built-ins the chatbot leans on, restricted to ASCII:
 * `str.lower()`, `str.strip()`, `str.split()`, `str.split(',')` and the
 * substring test `needle in hay`.
 */
module Text {

  /** `str.isspace()` and the regex class `\s` on ASCII: tab, line feed,
      vertical tab, form feed, carriage return, the four information
      separators (28..31) and space. */
  predicate IsSpace(c: char) {
    9 <= c as int <= 13 || 28 <= c as int <= 32
  }

  predicate IsUpper(c: char) {
    'A' <= c <= 'Z'
  }

  /** The regex class `\w` on ASCII: letters, digits and underscore. */
  predicate IsWordChar(c: char) {
    'a' <= c <= 'z' || 'A' <= c <= 'Z' || '0' <= c <= '9' || c == '_'
  }

  function LowerChar(c: char): (r: char)
    ensures !IsUpper(r)
    ensures IsUpper(c) ==> 'a' <= r <= 'z'
    ensures IsSpace(r) <==> IsSpace(c)
    ensures IsWordChar(r) <==> IsWordChar(c)
    ensures !IsUpper(c) ==> r == c
  {
    if IsUpper(c) then (c as int + 32) as char else c
  }

  /** `str.lower()`. */
  function Lower(s: string): (r: string)
    ensures |r| == |s|
    ensures forall i :: 0 <= i < |s| ==> r[i] == LowerChar(s[i])
  {
    seq(|s|, i requires 0 <= i < |s| => LowerChar(s[i]))
  }

  predicate IsLowerCase(s: string) {
    forall i :: 0 <= i < |s| ==> !IsUpper(s[i])
  }

  /** Lower-casing a lower-case string changes nothing. */
  lemma {:induction false} LowerOfLowerCase(s: string)
    requires IsLowerCase(s)
    ensures Lower(s) == s
  {
  }

  /** Number of whitespace characters at the start of `s`. */
  function LeadingSpaces(s: string): (n: nat)
    ensures n <= |s|
    ensures forall i :: 0 <= i < n ==> IsSpace(s[i])
    ensures n < |s| ==> !IsSpace(s[n])
  {
    if |s| > 0 && IsSpace(s[0]) then 1 + LeadingSpaces(s[1..]) else 0
  }

  /** Number of whitespace characters at the end of `s`. */
  function TrailingSpaces(s: string): (n: nat)
    ensures n <= |s|
    ensures forall i :: |s| - n <= i < |s| ==> IsSpace(s[i])
    ensures n < |s| ==> !IsSpace(s[|s| - n - 1])
  {
    if |s| > 0 && IsSpace(s[|s| - 1]) then 1 + TrailingSpaces(s[..|s| - 1]) else 0
  }

  /** `needle` occurs in `hay` starting at index `i`. */
  predicate OccursAt(needle: string, hay: string, i: int) {
    0 <= i <= |hay| - |needle| && hay[i..i + |needle|] == needle
  }

  /** `str.strip()`: the slice of `s` that starts after its leading
      whitespace and ends before its trailing whitespace. It is empty exactly
      when `s` is all whitespace, and otherwise starts and ends with a
      non-whitespace character. */
  function Strip(s: string): (r: string)
    ensures OccursAt(r, s, LeadingSpaces(s))
    ensures r == [] || (!IsSpace(r[0]) && !IsSpace(r[|r| - 1]))
    ensures r == [] <==> forall i :: 0 <= i < |s| ==> IsSpace(s[i])
    ensures forall i :: LeadingSpaces(s) + |r| <= i < |s| ==> IsSpace(s[i])
  {
    var a := LeadingSpaces(s);
    var b := |s| - TrailingSpaces(s[a..]);
    StripSlice(s, a, b);
    StripSliceEmpty(s, a, b);
    StripSliceTail(s, a, b);
    s[a..b]
  }

  /** Everything after the slice is whitespace. */
  lemma {:induction false} StripSliceTail(s: string, a: nat, b: int)
    requires a <= |s|
    requires b == |s| - TrailingSpaces(s[a..])
    ensures forall i :: b <= i < |s| ==> IsSpace(s[i])
  {
    var rest := s[a..];
    forall i | b <= i < |s| ensures IsSpace(s[i]) {
      assert rest[i - a] == s[i];
    }
  }

  /** The slice between the leading and the trailing whitespace is within
      bounds and, when non-empty, starts and ends with non-whitespace. */
  lemma {:induction false} StripSlice(s: string, a: nat, b: int)
    requires a == LeadingSpaces(s)
    requires b == |s| - TrailingSpaces(s[a..])
    ensures a <= b <= |s|
    ensures a < |s| ==> a < b
    ensures a < b ==> !IsSpace(s[a]) && !IsSpace(s[b - 1])
  {
    var rest := s[a..];
    var n := TrailingSpaces(rest);
    if a < |s| {
      assert rest[0] == s[a];
      assert rest[|rest| - n - 1] == s[b - 1];
    }
  }

  /** The slice is empty exactly when the whole string is whitespace. */
  lemma {:induction false} StripSliceEmpty(s: string, a: nat, b: int)
    requires a == LeadingSpaces(s)
    requires a <= b <= |s|
    requires a < |s| ==> a < b
    ensures a == b <==> forall i :: 0 <= i < |s| ==> IsSpace(s[i])
  {
    if a < |s| {
      assert !IsSpace(s[a]);
    }
  }

  lemma {:induction false} StripKeepsLowerCase(s: string)
    requires IsLowerCase(s)
    ensures IsLowerCase(Strip(s))
  {
    var t := Strip(s);
    var k := LeadingSpaces(s);
    forall i | 0 <= i < |t| ensures !IsUpper(t[i]) {
      assert t[i] == s[k + i];
    }
  }

  /** A string without whitespace at either end is its own strip. */
  lemma {:induction false} StripOfTrimmed(s: string)
    requires s == [] || (!IsSpace(s[0]) && !IsSpace(s[|s| - 1]))
    ensures Strip(s) == s
  {
  }

  /** `needle in hay` on strings: `needle` occurs at some position of `hay`
      (the empty string occurs everywhere). */
  function IsSubstring(needle: string, hay: string): (r: bool)
    ensures r <==> exists i :: OccursAt(needle, hay, i)
    decreases |hay|
  {
    if |needle| > |hay| then false
    else if hay[..|needle|] == needle then assert OccursAt(needle, hay, 0); true
    else
      var r := IsSubstring(needle, hay[1..]);
      assert forall j :: OccursAt(needle, hay[1..], j) ==> OccursAt(needle, hay, j + 1);
      assert forall i :: OccursAt(needle, hay, i) ==> i > 0 && OccursAt(needle, hay[1..], i - 1);
      r
  }

  /** A needle with a character that the haystack lacks does not occur in it. */
  lemma {:induction false} CharMissingNotSubstring(needle: string, hay: string, j: nat)
    requires j < |needle|
    requires forall i :: 0 <= i < |hay| ==> hay[i] != needle[j]
    ensures !IsSubstring(needle, hay)
  {
    forall i | 0 <= i <= |hay| - |needle| ensures !OccursAt(needle, hay, i) {
      assert hay[i..i + |needle|][j] == hay[i + j];
    }
  }

  /** A token of `str.split()`: non-empty, without whitespace. */
  predicate IsWord(w: string) {
    |w| > 0 && forall i :: 0 <= i < |w| ==> !IsSpace(w[i])
  }

  /** Length of the leading run of non-whitespace characters of `s`. */
  function TokenLength(s: string): (n: nat)
    requires |s| > 0 && !IsSpace(s[0])
    ensures 0 < n <= |s|
    ensures n == |s| || IsSpace(s[n])
    ensures forall i :: 0 <= i < n ==> !IsSpace(s[i])
  {
    if |s| == 1 || IsSpace(s[1]) then 1 else 1 + TokenLength(s[1..])
  }

  /** `str.split()` without a separator: the maximal runs of non-whitespace
      characters, left to right; leading, trailing and repeated whitespace
      produce no empty tokens. */
  function Words(s: string): (r: seq<string>)
    ensures forall k :: 0 <= k < |r| ==> IsWord(r[k])
    decreases |s|
  {
    if |s| == 0 then []
    else if IsSpace(s[0]) then Words(s[1..])
    else
      var n := TokenLength(s);
      [s[..n]] + Words(s[n..])
  }

  /** `' '.join(ws)`. */
  function JoinWords(ws: seq<string>): string {
    if |ws| == 0 then ""
    else if |ws| == 1 then ws[0]
    else ws[0] + " " + JoinWords(ws[1..])
  }

  lemma {:induction false} TokenLengthOfWord(w: string, tail: string)
    requires IsWord(w)
    requires tail == [] || IsSpace(tail[0])
    ensures TokenLength(w + tail) == |w|
  {
    var s := w + tail;
    assert forall i :: 0 <= i < |w| ==> s[i] == w[i];
    assert tail != [] ==> s[|w|] == tail[0];
  }

  /** Splitting a space-joined list of tokens gives the tokens back. */
  lemma {:induction false} WordsOfJoin(ws: seq<string>)
    requires forall k :: 0 <= k < |ws| ==> IsWord(ws[k])
    ensures Words(JoinWords(ws)) == ws
  {
    if |ws| == 1 {
      TokenLengthOfWord(ws[0], "");
      assert ws[0][..|ws[0]|] == ws[0];
    } else if |ws| > 1 {
      var rest := JoinWords(ws[1..]);
      var tail := " " + rest;
      var s := ws[0] + tail;
      assert JoinWords(ws) == s;
      TokenLengthOfWord(ws[0], tail);
      assert s[..|ws[0]|] == ws[0];
      assert s[|ws[0]|..] == tail;
      assert tail[1..] == rest;
      WordsOfJoin(ws[1..]);
      assert Words(s) == [ws[0]] + Words(tail);
      assert ws == [ws[0]] + ws[1..];
    }
  }

  /** A single token splits into itself. */
  lemma {:induction false} WordsOfWord(w: string)
    requires IsWord(w)
    ensures Words(w) == [w]
  {
    WordsOfJoin([w]);
  }

  /** The token at the front of `a` is unchanged by appending text that
      starts with whitespace, or by appending anything when the token ends
      inside `a`. */
  lemma {:induction false} TokenLengthExtend(a: string, t: string)
    requires |a| > 0 && !IsSpace(a[0])
    requires TokenLength(a) < |a| || t == [] || IsSpace(t[0])
    ensures TokenLength(a + t) == TokenLength(a)
  {
    var n := TokenLength(a);
    var w := a[..n];
    var tail := a[n..] + t;
    assert a + t == w + tail;
    assert forall i :: 0 <= i < |w| ==> w[i] == a[i];
    assert tail != [] ==> IsSpace(tail[0]);
    TokenLengthOfWord(w, tail);
  }

  /** A whitespace character separates tokens: the tokens of `a c b` are
      those of `a` followed by those of `b`. */
  lemma {:induction false} WordsAtSpace(a: string, c: char, b: string)
    requires IsSpace(c)
    ensures Words(a + [c] + b) == Words(a) + Words(b)
    decreases |a|
  {
    var s := a + [c] + b;
    if |a| == 0 {
      assert s[1..] == b;
    } else if IsSpace(a[0]) {
      assert s[1..] == a[1..] + [c] + b;
      WordsAtSpace(a[1..], c, b);
    } else {
      var n := TokenLength(a);
      TokenLengthExtend(a, [c] + b);
      assert s == a + ([c] + b);
      assert s[..n] == a[..n];
      assert s[n..] == a[n..] + [c] + b;
      WordsAtSpace(a[n..], c, b);
    }
  }

  /** Number of occurrences of `c` in `s`. */
  function Count(s: string, c: char): nat {
    if |s| == 0 then 0 else (if s[0] == c then 1 else 0) + Count(s[1..], c)
  }

  /** `s.split(sep)` for a one-character separator: the fields between the
      separators, left to right, empty fields included. */
  function Split(s: string, sep: char): (r: seq<string>)
    ensures |r| == Count(s, sep) + 1
    ensures forall k, i :: 0 <= k < |r| && 0 <= i < |r[k]| ==> r[k][i] != sep
    decreases |s|
  {
    if |s| == 0 then [""]
    else
      var rest := Split(s[1..], sep);
      if s[0] == sep then [""] + rest
      else [[s[0]] + rest[0]] + rest[1..]
  }

  /** `sep.join(fields)`. */
  function Join(fields: seq<string>, sep: char): string
    requires |fields| > 0
  {
    if |fields| == 1 then fields[0] else fields[0] + [sep] + Join(fields[1..], sep)
  }

  /** Joining the fields of a split restores the string. */
  lemma {:induction false} JoinSplit(s: string, sep: char)
    ensures Join(Split(s, sep), sep) == s
  {
    if |s| > 0 {
      var rest := Split(s[1..], sep);
      JoinSplit(s[1..], sep);
      if s[0] == sep {
        assert ([""] + rest)[1..] == rest;
      } else {
        var r := [[s[0]] + rest[0]] + rest[1..];
        assert r[1..] == rest[1..];
        if |rest| > 1 {
          assert Join(rest, sep) == rest[0] + [sep] + Join(rest[1..], sep);
        }
      }
    }
  }

  lemma {:induction false} SplitWithoutSeparator(s: string, sep: char)
    requires forall i :: 0 <= i < |s| ==> s[i] != sep
    ensures Split(s, sep) == [s]
  {
    if |s| > 0 {
      SplitWithoutSeparator(s[1..], sep);
      assert [s[0]] + s[1..] == s;
    }
  }

  /** Splitting distributes over a separator: the fields of `a`, then those of `b`. */
  lemma {:induction false} SplitConcat(a: string, b: string, sep: char)
    ensures Split(a + [sep] + b, sep) == Split(a, sep) + Split(b, sep)
  {
    var s := a + [sep] + b;
    if |a| == 0 {
      assert s[1..] == b;
    } else {
      assert s[1..] == a[1..] + [sep] + b;
      SplitConcat(a[1..], b, sep);
    }
  }

  /** Splitting a joined list of separator-free fields gives the fields back. */
  lemma {:induction false} SplitJoin(fields: seq<string>, sep: char)
    requires |fields| > 0
    requires forall k, i :: 0 <= k < |fields| && 0 <= i < |fields[k]| ==> fields[k][i] != sep
    ensures Split(Join(fields, sep), sep) == fields
  {
    SplitWithoutSeparator(fields[0], sep);
    if |fields| > 1 {
      SplitJoin(fields[1..], sep);
      SplitConcat(fields[0], Join(fields[1..], sep), sep);
      assert fields == [fields[0]] + fields[1..];
    }
  }
}
