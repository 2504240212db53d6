/**
 * The string primitives the line codec and the registry rely on, stated on
 * `seq<char>` (Unicode scalar values, as Rust's `char`):
 * `str::split_whitespace`, `str::split(char)`, `str::split_once(char)`, and
 * joining pieces with a separator (the effect of the `format!` loops).
 */
module Strings {
  import opened Wrappers

  /** Rust's `char::is_whitespace`: the Unicode White_Space property. */
  predicate IsWhitespace(c: char) {
    var n := c as int;
    (0x09 <= n <= 0x0D) || n == 0x20 || n == 0x85 || n == 0xA0 || n == 0x1680
    || (0x2000 <= n <= 0x200A) || n == 0x2028 || n == 0x2029 || n == 0x202F
    || n == 0x205F || n == 0x3000
  }

  predicate NoWhitespace(s: string) {
    forall c :: c in s ==> !IsWhitespace(c)
  }

  /** Length of the run of non-whitespace characters at the start of s. */
  function WordLength(s: string): (n: nat)
    ensures n <= |s|
    ensures forall i :: 0 <= i < n ==> !IsWhitespace(s[i])
    ensures n < |s| ==> IsWhitespace(s[n])
  {
    if s == [] || IsWhitespace(s[0]) then 0 else 1 + WordLength(s[1..])
  }

  /** `str::split_whitespace`: the maximal non-empty runs of non-whitespace, in order. */
  function Words(s: string): (ws: seq<string>)
    ensures forall i :: 0 <= i < |ws| ==> |ws[i]| > 0 && NoWhitespace(ws[i])
    decreases |s|
  {
    if s == [] then []
    else if IsWhitespace(s[0]) then Words(s[1..])
    else
      var n := WordLength(s);
      [s[..n]] + Words(s[n..])
  }

  lemma {:induction false} WordLengthBeforeSpace(a: string, w: char, b: string)
    requires IsWhitespace(w)
    ensures WordLength(a + [w] + b) == WordLength(a)
  {
    if a != [] && !IsWhitespace(a[0]) {
      assert (a + [w] + b)[1..] == a[1..] + [w] + b;
      WordLengthBeforeSpace(a[1..], w, b);
    }
  }

  lemma {:induction false} WordLengthOfWord(s: string)
    requires NoWhitespace(s)
    ensures WordLength(s) == |s|
  {
    if s != [] {
      WordLengthOfWord(s[1..]);
    }
  }

  /** A whitespace character separates the words on its left from those on its right. */
  lemma {:induction false} WordsAroundSpace(a: string, w: char, b: string)
    requires IsWhitespace(w)
    ensures Words(a + [w] + b) == Words(a) + Words(b)
    decreases |a|
  {
    var s := a + [w] + b;
    if a == [] {
      assert s[1..] == b;
    } else if IsWhitespace(a[0]) {
      assert s[1..] == a[1..] + [w] + b;
      WordsAroundSpace(a[1..], w, b);
    } else {
      var n := WordLength(a);
      WordLengthBeforeSpace(a, w, b);
      assert s[..n] == a[..n];
      assert s[n..] == a[n..] + [w] + b;
      WordsAroundSpace(a[n..], w, b);
    }
  }

  /** A non-empty text without whitespace is a single word. */
  lemma WordsOfWord(s: string)
    requires |s| > 0 && NoWhitespace(s)
    ensures Words(s) == [s]
  {
    WordLengthOfWord(s);
    assert s[..|s|] == s && s[|s|..] == [];
  }

  /** Index of the first occurrence of c in s, or |s| when c does not occur. */
  function IndexOf(s: string, c: char): (i: nat)
    ensures i <= |s|
    ensures i < |s| ==> s[i] == c
    ensures forall j :: 0 <= j < i ==> s[j] != c
  {
    if s == [] || s[0] == c then 0 else 1 + IndexOf(s[1..], c)
  }

  lemma {:induction false} IndexOfBeforeSeparator(a: string, c: char, b: string)
    requires c !in a
    ensures IndexOf(a + [c] + b, c) == |a|
  {
    if a != [] {
      assert (a + [c] + b)[1..] == a[1..] + [c] + b;
      IndexOfBeforeSeparator(a[1..], c, b);
    }
  }

  lemma {:induction false} IndexOfInPrefix(a: string, c: char, t: string)
    requires IndexOf(a, c) < |a|
    ensures IndexOf(a + t, c) == IndexOf(a, c)
  {
    if a[0] != c {
      assert (a + t)[1..] == a[1..] + t;
      IndexOfInPrefix(a[1..], c, t);
    }
  }

  /** `str::split(sep)`: the pieces between occurrences of sep; one piece when sep does not occur. */
  function Split(s: string, sep: char): (parts: seq<string>)
    ensures |parts| >= 1
    ensures forall i :: 0 <= i < |parts| ==> sep !in parts[i]
    decreases |s|
  {
    var i := IndexOf(s, sep);
    if i == |s| then [s] else [s[..i]] + Split(s[i + 1..], sep)
  }

  /** Every piece of a split consists of characters of the split text. */
  lemma {:induction false} SplitPieces(s: string, sep: char)
    ensures forall i, c :: 0 <= i < |Split(s, sep)| && c in Split(s, sep)[i] ==> c in s
    decreases |s|
  {
    var i := IndexOf(s, sep);
    if i < |s| {
      SplitPieces(s[i + 1..], sep);
      assert forall c :: c in s[..i] || c in s[i + 1..] ==> c in s;
    }
  }

  /** The pieces joined with sep between consecutive ones. */
  function Join(parts: seq<string>, sep: char): string
  {
    if |parts| == 0 then []
    else if |parts| == 1 then parts[0]
    else parts[0] + [sep] + Join(parts[1..], sep)
  }

  /** `str::split_once(sep)`: the text before and after the first sep, if there is one. */
  function SplitOnce(s: string, sep: char): (r: Option<(string, string)>)
    ensures r.Some? <==> sep in s
    ensures r.Some? ==> sep !in r.value.0 && s == r.value.0 + [sep] + r.value.1
  {
    var i := IndexOf(s, sep);
    if i == |s| then None else Some((s[..i], s[i + 1..]))
  }

  /** Appending one piece to a non-empty list appends the separator and the piece. */
  lemma {:induction false} JoinSnoc(parts: seq<string>, p: string, sep: char)
    requires |parts| > 0
    ensures Join(parts + [p], sep) == Join(parts, sep) + [sep] + p
    decreases |parts|
  {
    if |parts| > 1 {
      assert (parts + [p])[1..] == parts[1..] + [p];
      JoinSnoc(parts[1..], p, sep);
    }
  }

  /** A joined text contains only the characters of its pieces and the separator. */
  lemma {:induction false} JoinAvoids(parts: seq<string>, sep: char, c: char)
    requires c != sep
    requires forall i :: 0 <= i < |parts| ==> c !in parts[i]
    ensures c !in Join(parts, sep)
    decreases |parts|
  {
    if |parts| > 1 {
      JoinAvoids(parts[1..], sep, c);
    }
  }

  /** Splitting at a separator occurrence splits the two sides independently. */
  lemma {:induction false} SplitAround(a: string, sep: char, b: string)
    ensures Split(a + [sep] + b, sep) == Split(a, sep) + Split(b, sep)
    decreases |a|
  {
    var s := a + [sep] + b;
    var i := IndexOf(a, sep);
    if i == |a| {
      IndexOfBeforeSeparator(a, sep, b);
      assert s[..|a|] == a;
      assert s[|a| + 1..] == b;
    } else {
      IndexOfInPrefix(a, sep, [sep] + b);
      assert a + ([sep] + b) == s;
      assert s[..i] == a[..i];
      assert s[i + 1..] == a[i + 1..] + [sep] + b;
      SplitAround(a[i + 1..], sep, b);
    }
  }

  /** Split undoes Join when no piece contains the separator. */
  lemma {:induction false} SplitJoin(parts: seq<string>, sep: char)
    requires |parts| > 0
    requires forall i :: 0 <= i < |parts| ==> sep !in parts[i]
    ensures Split(Join(parts, sep), sep) == parts
    decreases |parts|
  {
    if |parts| == 1 {
      assert IndexOf(parts[0], sep) == |parts[0]|;
    } else {
      SplitAround(parts[0], sep, Join(parts[1..], sep));
      assert IndexOf(parts[0], sep) == |parts[0]|;
      SplitJoin(parts[1..], sep);
      assert parts == [parts[0]] + parts[1..];
    }
  }

  /** split_once recovers the two sides of the first separator. */
  lemma SplitOnceAt(k: string, sep: char, v: string)
    requires sep !in k
    ensures SplitOnce(k + [sep] + v, sep) == Some((k, v))
  {
    IndexOfBeforeSeparator(k, sep, v);
    var s := k + [sep] + v;
    assert s[..|k|] == k;
    assert s[|k| + 1..] == v;
  }
}
