/** String operations of the Java and the TypeScript runtimes, written out with
    the semantics each runtime gives them. Strings are sequences of chars;
    case mapping covers the ASCII letters only. */
module Text {
  import opened Wrappers

  // ---------------------------------------------------------------------
  // Character classes
  // ---------------------------------------------------------------------

  /** Java's Character.isWhitespace, the test behind String.isBlank: the
      ASCII controls TAB..CR and FS..US, the space, and the Unicode space
      separators other than the no-break spaces. */
  predicate IsJavaWhitespace(c: char) {
    ('\t' <= c <= '\r') || ('\U{001C}' <= c <= '\U{001F}') || c == ' '
    || c == '\U{1680}' || ('\U{2000}' <= c <= '\U{2006}') || ('\U{2008}' <= c <= '\U{200A}')
    || c == '\U{2028}' || c == '\U{2029}' || c == '\U{205F}' || c == '\U{3000}'
  }

  /** The characters Java's String.trim removes: everything up to U+0020. */
  predicate IsJavaTrimmable(c: char) {
    c <= ' '
  }

  /** ECMAScript WhiteSpace and LineTerminator: what String.prototype.trim
      removes and what the regular-expression class \s matches. */
  predicate IsJsWhitespace(c: char) {
    ('\t' <= c <= '\r') || c == ' ' || c == '\U{00A0}' || c == '\U{1680}'
    || ('\U{2000}' <= c <= '\U{200A}') || c == '\U{2028}' || c == '\U{2029}'
    || c == '\U{202F}' || c == '\U{205F}' || c == '\U{3000}' || c == '\U{FEFF}'
  }

  predicate IsDigit(c: char) {
    '0' <= c <= '9'
  }

  // ---------------------------------------------------------------------
  // Blank tests and trimming
  // ---------------------------------------------------------------------

  /** Java's `s == null || s.isBlank()`. */
  predicate IsBlank(s: Option<string>) {
    match s
    case None => true
    case Some(t) => forall i :: 0 <= i < |t| ==> IsJavaWhitespace(t[i])
  }

  function TrimStartBy(s: string, strip: char -> bool): (r: string)
    ensures |r| <= |s|
    ensures |r| > 0 ==> !strip(r[0])
    ensures forall i :: 0 <= i < |s| - |r| ==> strip(s[i])
  {
    if |s| > 0 && strip(s[0]) then
      var r := TrimStartBy(s[1..], strip);
      assert forall i :: 1 <= i < |s| - |r| ==> s[i] == s[1..][i - 1];
      r
    else s
  }

  function TrimEndBy(s: string, strip: char -> bool): (r: string)
    ensures |r| <= |s|
    ensures |r| > 0 ==> !strip(r[|r| - 1])
    ensures forall i :: |r| <= i < |s| ==> strip(s[i])
  {
    if |s| > 0 && strip(s[|s| - 1]) then
      var r := TrimEndBy(s[..|s| - 1], strip);
      r
    else s
  }

  /** Removes the leading and trailing characters that satisfy `strip`. */
  function TrimBy(s: string, strip: char -> bool): (r: string)
    ensures |r| <= |s|
    ensures |r| > 0 ==> !strip(r[0]) && !strip(r[|r| - 1])
  {
    var t := TrimStartBy(s, strip);
    TrimEndIsPrefix(t, strip);
    TrimEndBy(t, strip)
  }

  /** What TrimStartBy leaves is a suffix of its input. */
  lemma {:induction false} TrimStartIsSuffix(s: string, strip: char -> bool)
    ensures TrimStartBy(s, strip) == s[|s| - |TrimStartBy(s, strip)|..]
  {
    if |s| > 0 && strip(s[0]) {
      TrimStartIsSuffix(s[1..], strip);
      var r := TrimStartBy(s[1..], strip);
      assert s[1..][|s| - 1 - |r|..] == s[|s| - |r|..];
    }
  }

  /** Trimming the front of a text that ends in a kept character leaves
      that last character in place. */
  lemma TrimStartKeepsLast(s: string, strip: char -> bool)
    requires |s| > 0 && !strip(s[|s| - 1])
    ensures var r := TrimStartBy(s, strip); |r| > 0 && r[|r| - 1] == s[|s| - 1]
  {
    TrimStartIsSuffix(s, strip);
  }

  /** What TrimEndBy leaves is a prefix of its input. */
  lemma {:induction false} TrimEndIsPrefix(s: string, strip: char -> bool)
    ensures TrimEndBy(s, strip) == s[..|TrimEndBy(s, strip)|]
  {
    if |s| > 0 && strip(s[|s| - 1]) {
      TrimEndIsPrefix(s[..|s| - 1], strip);
      var r := TrimEndBy(s[..|s| - 1], strip);
      assert s[..|s| - 1][..|r|] == s[..|r|];
    }
  }

  /** Java's String.trim. */
  function JavaTrim(s: string): string {
    TrimBy(s, IsJavaTrimmable)
  }

  /** TypeScript's String.prototype.trim. */
  function JsTrim(s: string): string {
    TrimBy(s, IsJsWhitespace)
  }

  lemma {:induction false} TrimStartFixed(s: string, strip: char -> bool)
    requires |s| == 0 || !strip(s[0])
    ensures TrimStartBy(s, strip) == s
  {
  }

  lemma {:induction false} TrimEndFixed(s: string, strip: char -> bool)
    requires |s| == 0 || !strip(s[|s| - 1])
    ensures TrimEndBy(s, strip) == s
  {
  }

  /** Trimming twice is trimming once. */
  lemma TrimIdempotent(s: string, strip: char -> bool)
    ensures TrimBy(TrimBy(s, strip), strip) == TrimBy(s, strip)
  {
    var r := TrimBy(s, strip);
    TrimStartFixed(r, strip);
    TrimEndFixed(r, strip);
  }

  // ---------------------------------------------------------------------
  // Case mapping (ASCII letters)
  // ---------------------------------------------------------------------

  function LowerChar(c: char): (d: char)
    ensures !('A' <= d <= 'Z')
  {
    if 'A' <= c <= 'Z' then (c as int - 'A' as int + 'a' as int) as char else c
  }

  function UpperChar(c: char): (d: char)
    ensures !('a' <= d <= 'z')
  {
    if 'a' <= c <= 'z' then (c as int - 'a' as int + 'A' as int) as char else c
  }

  /** toLowerCase / toLowerCase(Locale.ROOT), restricted to ASCII letters. */
  function ToLower(s: string): (r: string)
    ensures |r| == |s| && forall i :: 0 <= i < |s| ==> r[i] == LowerChar(s[i])
  {
    seq(|s|, i requires 0 <= i < |s| => LowerChar(s[i]))
  }

  /** toUpperCase(Locale.ROOT), restricted to ASCII letters. */
  function ToUpper(s: string): (r: string)
    ensures |r| == |s| && forall i :: 0 <= i < |s| ==> r[i] == UpperChar(s[i])
  {
    seq(|s|, i requires 0 <= i < |s| => UpperChar(s[i]))
  }

  /** Java's `a.equalsIgnoreCase(b)` for non-null strings: the same length
      and the same characters up to case. */
  predicate EqualsIgnoreCase(a: string, b: string) {
    ToUpper(a) == ToUpper(b)
  }

  /** Java's string conversion in a concatenation: null reads "null". */
  function JavaStr(s: Option<string>): string {
    match s
    case None => "null"
    case Some(t) => t
  }

  // ---------------------------------------------------------------------
  // Searching
  // ---------------------------------------------------------------------

  /** `t` occurs in `s` starting at position `k`. */
  predicate OccursAt(s: string, t: string, k: int) {
    0 <= k <= |s| - |t| && s[k..k + |t|] == t
  }

  /** `s.contains(t)` in Java, `s.includes(t)` in TypeScript: `t` occurs
      at some position of `s`. */
  predicate Contains(s: string, t: string) {
    exists k :: 0 <= k <= |s| - |t| && OccursAt(s, t, k)
  }

  /** `s.startsWith(p)`. */
  predicate StartsWith(s: string, p: string) {
    |p| <= |s| && s[..|p|] == p
  }

  /** A string occurs wherever it was glued in. */
  lemma ContainsConcat(a: string, t: string, b: string)
    ensures Contains(a + t + b, t)
  {
    var s := a + t + b;
    assert s[|a|..|a| + |t|] == t;
    assert OccursAt(s, t, |a|);
  }

  /** The lower-cased `s` does not contain `t` when the letter `t[i]` is
      the lower case of no character of `s`. */
  lemma LowerLacksChar(s: string, t: string, i: nat)
    requires i < |t|
    requires forall j :: 0 <= j < |s| ==> LowerChar(s[j]) != t[i]
    ensures !Contains(ToLower(s), t)
  {
    var m := ToLower(s);
    forall k | 0 <= k <= |m| - |t| ensures !OccursAt(m, t, k) {
      assert m[k..k + |t|][i] == m[k + i];
    }
  }

  /** The lower-cased `s` does not contain `t` when the two letters
      `t[i]`, `t[i + 1]` are never the lower case of two neighbours in `s`. */
  lemma LowerLacksPair(s: string, t: string, i: nat)
    requires i + 1 < |t|
    requires forall j :: 0 <= j < |s| - 1 ==> !(LowerChar(s[j]) == t[i] && LowerChar(s[j + 1]) == t[i + 1])
    ensures !Contains(ToLower(s), t)
  {
    var m := ToLower(s);
    forall k | 0 <= k <= |m| - |t| ensures !OccursAt(m, t, k) {
      assert m[k..k + |t|][i] == m[k + i] && m[k..k + |t|][i + 1] == m[k + i + 1];
    }
  }

  /** The lower-cased `s` contains `t` when the characters of `s` from
      position `k` on lower-case to `t`. */
  lemma LowerHasAt(s: string, t: string, k: nat)
    requires k + |t| <= |s|
    requires forall j :: 0 <= j < |t| ==> LowerChar(s[k + j]) == t[j]
    ensures Contains(ToLower(s), t)
  {
    var m := ToLower(s);
    assert m[k..k + |t|] == t;
    assert OccursAt(m, t, k);
  }

  // ---------------------------------------------------------------------
  // Building strings
  // ---------------------------------------------------------------------

  /** Array.prototype.join / String.join. */
  function Join(parts: seq<string>, sep: string): (r: string)
    ensures |parts| == 1 ==> r == parts[0]
  {
    if |parts| == 0 then ""
    else if |parts| == 1 then parts[0]
    else parts[0] + sep + Join(parts[1..], sep)
  }

  /** Keeps the characters that satisfy `keep`, in order: a regular
      expression replaceAll of the complement class by "". */
  function Filter(s: string, keep: char -> bool): (r: string)
    ensures |r| <= |s|
    ensures forall i :: 0 <= i < |r| ==> keep(r[i])
  {
    if s == [] then ""
    else (if keep(s[0]) then [s[0]] else "") + Filter(s[1..], keep)
  }

  lemma {:induction false} FilterKeepsAll(s: string, keep: char -> bool)
    requires forall i :: 0 <= i < |s| ==> keep(s[i])
    ensures Filter(s, keep) == s
  {
    if s != [] {
      FilterKeepsAll(s[1..], keep);
    }
  }

  // ---------------------------------------------------------------------
  // Splitting
  // ---------------------------------------------------------------------

  /** TypeScript's `s.split(sep)` for a one-character separator: every piece,
      empty ones included; "" gives [""]. */
  function SplitJs(s: string, sep: char): (parts: seq<string>)
    ensures |parts| >= 1
    ensures |parts| >= 2 <==> sep in s
    ensures forall i :: 0 <= i < |parts| ==> sep !in parts[i]
    ensures Join(parts, [sep]) == s
  {
    if sep in s then
      var k := FirstIndex(s, sep);
      var rest := SplitJs(s[k + 1..], sep);
      assert s == s[..k] + [sep] + s[k + 1..];
      [s[..k]] + rest
    else
      [s]
  }

  function FirstIndex(s: string, c: char): (k: nat)
    requires c in s
    ensures k < |s| && s[k] == c && c !in s[..k]
  {
    if s[0] == c then 0 else 1 + FirstIndex(s[1..], c)
  }

  lemma {:induction false} FirstIndexAt(s: string, c: char, k: nat)
    requires k < |s| && s[k] == c && c !in s[..k]
    ensures FirstIndex(s, c) == k
  {
    if k > 0 {
      assert s[0] in s[..k];
      assert s[1..][..k - 1] == s[1..k];
      assert forall x :: x in s[1..k] ==> x in s[..k];
      FirstIndexAt(s[1..], c, k - 1);
    }
  }

  /** Splitting "a:b" at ':' when neither side holds a ':'. */
  lemma SplitAround(a: string, sep: char, b: string)
    requires sep !in a && sep !in b
    ensures SplitJs(a + [sep] + b, sep) == [a, b]
  {
    var s := a + [sep] + b;
    assert s[|a|] == sep;
    assert s[..|a|] == a;
    FirstIndexAt(s, sep, |a|);
    assert s[|a| + 1..] == b;
  }

  /** Splitting at the first separator: the piece before it, then the
      pieces of the rest. */
  lemma SplitCons(a: string, sep: char, rest: string)
    requires sep !in a
    ensures SplitJs(a + [sep] + rest, sep) == [a] + SplitJs(rest, sep)
  {
    var s := a + [sep] + rest;
    assert s[|a|] == sep;
    assert s[..|a|] == a;
    FirstIndexAt(s, sep, |a|);
    assert s[|a| + 1..] == rest;
  }

  /** Splitting undoes joining when no piece holds the separator. */
  lemma {:induction false} SplitJoin(parts: seq<string>, sep: char)
    requires |parts| >= 1
    requires forall i :: 0 <= i < |parts| ==> sep !in parts[i]
    ensures SplitJs(Join(parts, [sep]), sep) == parts
  {
    if |parts| > 1 {
      var rest := Join(parts[1..], [sep]);
      SplitJoin(parts[1..], sep);
      SplitCons(parts[0], sep, rest);
      assert [parts[0]] + parts[1..] == parts;
    }
  }

  /** Java's split of "a:b" when neither side holds a ':' and b is not empty. */
  lemma SplitJavaAround(a: string, sep: char, b: string)
    requires sep !in a && sep !in b && b != ""
    ensures SplitJava(a + [sep] + b, sep) == [a, b]
  {
    var s := a + [sep] + b;
    assert s[|a|] == sep;
    SplitAround(a, sep, b);
  }

  /** Removes the empty strings at the end of `parts`. */
  function DropTrailingEmpty(parts: seq<string>): (r: seq<string>)
    ensures |r| <= |parts| && r == parts[..|r|]
    ensures |r| > 0 ==> r[|r| - 1] != ""
    ensures forall i :: |r| <= i < |parts| ==> parts[i] == ""
  {
    if |parts| > 0 && parts[|parts| - 1] == "" then DropTrailingEmpty(parts[..|parts| - 1])
    else parts
  }

  /** Java's `s.split(sep)` for a one-character separator: the same pieces
      as TypeScript's split, with the trailing empty strings removed, except
      that a string without the separator (the empty string included) gives
      the one-element array [s]. */
  function SplitJava(s: string, sep: char): (parts: seq<string>)
    ensures sep !in s ==> parts == [s]
    ensures sep in s ==> parts == DropTrailingEmpty(SplitJs(s, sep))
  {
    if sep in s then DropTrailingEmpty(SplitJs(s, sep)) else [s]
  }

  // ---------------------------------------------------------------------
  // Ordering
  // ---------------------------------------------------------------------

  /** Lexicographic order by character codes: TypeScript's `<` on strings and
      the sign of Java's String.compareTo. */
  predicate LexLess(a: string, b: string) {
    if |a| == 0 then |b| > 0
    else if |b| == 0 then false
    else a[0] < b[0] || (a[0] == b[0] && LexLess(a[1..], b[1..]))
  }

  lemma {:induction false} LexLessIrreflexive(a: string)
    ensures !LexLess(a, a)
  {
    if |a| > 0 {
      LexLessIrreflexive(a[1..]);
    }
  }

  lemma {:induction false} LexLessTransitive(a: string, b: string, c: string)
    requires LexLess(a, b) && LexLess(b, c)
    ensures LexLess(a, c)
  {
    if |a| > 0 && |b| > 0 && |c| > 0 && a[0] == b[0] == c[0] {
      LexLessTransitive(a[1..], b[1..], c[1..]);
    }
  }

  lemma {:induction false} LexLessTotal(a: string, b: string)
    ensures a == b || LexLess(a, b) || LexLess(b, a)
  {
    if |a| > 0 && |b| > 0 && a[0] == b[0] {
      LexLessTotal(a[1..], b[1..]);
      if a[1..] == b[1..] {
        assert a == [a[0]] + a[1..] && b == [b[0]] + b[1..];
      }
    }
  }

  lemma {:induction false} LexLessAsymmetric(a: string, b: string)
    requires LexLess(a, b)
    ensures !LexLess(b, a)
  {
    if |a| > 0 && |b| > 0 && a[0] == b[0] {
      LexLessAsymmetric(a[1..], b[1..]);
    }
  }

  /** Comparing two strings with a common prefix compares what follows it. */
  lemma {:induction false} LexLessCommonPrefix(p: string, a: string, b: string)
    ensures LexLess(p + a, p + b) <==> LexLess(a, b)
  {
    if |p| > 0 {
      assert (p + a)[1..] == p[1..] + a;
      assert (p + b)[1..] == p[1..] + b;
      LexLessCommonPrefix(p[1..], a, b);
    } else {
      assert p + a == a && p + b == b;
    }
  }
}
