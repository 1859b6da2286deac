/**
 * The few JavaScript string operations the modelled code relies on:
 * `trim`, `toLowerCase`, `includes`, `startsWith`, `endsWith`, `split` and `join`
 * on a single-character separator, and `split(sep).pop()`.
 */
module JsString {
  import opened Common

  /** The WhiteSpace and LineTerminator code points that `String.prototype.trim` strips. */
  predicate IsWhitespace(c: char) {
    || c == '\t' || c == '\n' || c == '\U{000B}' || c == '\U{000C}' || c == '\r' || c == ' '
    || c == '\U{00A0}' || c == '\U{1680}' || ('\U{2000}' <= c <= '\U{200A}')
    || c == '\U{2028}' || c == '\U{2029}' || c == '\U{202F}' || c == '\U{205F}'
    || c == '\U{3000}' || c == '\U{FEFF}'
  }

  /** `s.trimStart()`. */
  function TrimStart(s: string): string
    decreases |s|
  {
    if s != [] && IsWhitespace(s[0]) then TrimStart(s[1..]) else s
  }

  /** `s.trimEnd()`. */
  function TrimEnd(s: string): string
    decreases |s|
  {
    if s != [] && IsWhitespace(s[|s| - 1]) then TrimEnd(s[..|s| - 1]) else s
  }

  /** `s.trim()`. */
  function Trim(s: string): string {
    TrimEnd(TrimStart(s))
  }

  /** `trimStart` drops the leading whitespace and nothing else: what is left is a suffix that starts with a non-whitespace character. */
  lemma {:induction false} TrimStartSpec(s: string)
    ensures var r := TrimStart(s);
      && |r| <= |s| && r == s[|s| - |r|..]
      && (forall i :: 0 <= i < |s| - |r| ==> IsWhitespace(s[i]))
      && (r == [] || !IsWhitespace(r[0]))
    decreases |s|
  {
    if s != [] && IsWhitespace(s[0]) {
      TrimStartSpec(s[1..]);
    }
  }

  /** `trimEnd` drops the trailing whitespace and nothing else: what is left is a prefix that ends with a non-whitespace character. */
  lemma {:induction false} TrimEndSpec(s: string)
    ensures var r := TrimEnd(s);
      && |r| <= |s| && r == s[..|r|]
      && (forall i :: |r| <= i < |s| ==> IsWhitespace(s[i]))
      && (r == [] || !IsWhitespace(r[|r| - 1]))
    decreases |s|
  {
    if s != [] && IsWhitespace(s[|s| - 1]) {
      TrimEndSpec(s[..|s| - 1]);
    }
  }

  /** A trimmed string is empty exactly when every character of the original is whitespace. */
  lemma TrimEmptyIff(s: string)
    ensures Trim(s) == [] <==> forall i :: 0 <= i < |s| ==> IsWhitespace(s[i])
  {
    var t := TrimStart(s);
    TrimStartSpec(s);
    TrimEndSpec(t);
    if Trim(s) == [] {
      assert t == [];
    }
  }

  /** A trimmed string starts and ends with a character that is not whitespace. */
  lemma TrimEnds(s: string)
    ensures var r := Trim(s); r == [] || (!IsWhitespace(r[0]) && !IsWhitespace(r[|r| - 1]))
  {
    var t := TrimStart(s);
    var r := TrimEnd(t);
    TrimStartSpec(s);
    TrimEndSpec(t);
    if r != [] {
      assert r[0] == t[0];
    }
  }

  /** `toLowerCase` on one character: ASCII and Latin-1 capitals become small letters. */
  function ToLowerChar(c: char): char {
    if 'A' <= c <= 'Z' || ('\U{00C0}' <= c <= '\U{00DE}' && c != '\U{00D7}')
    then (c as int + 32) as char
    else c
  }

  /** `s.toLowerCase()`, character by character. */
  function ToLower(s: string): string {
    seq(|s|, i requires 0 <= i < |s| => ToLowerChar(s[i]))
  }

  /** Lower-casing works on each piece of a string apart: it commutes with concatenation. */
  lemma ToLowerAppend(a: string, b: string)
    ensures ToLower(a + b) == ToLower(a) + ToLower(b)
  {
  }

  /** A string is its own lower-case form exactly when none of its characters is a capital. */
  lemma ToLowerFixed(s: string)
    ensures ToLower(s) == s <==> forall i :: 0 <= i < |s| ==> ToLowerChar(s[i]) == s[i]
  {
    if ToLower(s) == s {
      forall i | 0 <= i < |s| ensures ToLowerChar(s[i]) == s[i] {
        assert ToLower(s)[i] == s[i];
      }
    }
  }

  /** Lower-casing twice changes nothing more than lower-casing once. */
  lemma ToLowerIdempotent(s: string)
    ensures ToLower(ToLower(s)) == ToLower(s)
  {
  }

  /** `s.startsWith(p)`. */
  predicate StartsWith(s: string, p: string) {
    |p| <= |s| && s[..|p|] == p
  }

  /** `s.endsWith(suffix)`. */
  predicate EndsWith(s: string, suffix: string) {
    |suffix| <= |s| && s[|s| - |suffix|..] == suffix
  }

  /** `sub` occurs in `s` starting at index `i`. */
  predicate OccursAt(s: string, sub: string, i: int) {
    0 <= i && i + |sub| <= |s| && s[i..i + |sub|] == sub
  }

  /** `s.includes(sub)`. */
  predicate Contains(s: string, sub: string) {
    exists i :: 0 <= i <= |s| && OccursAt(s, sub, i)
  }

  /** `s.split(sep)` with a one-character separator: never empty, one more part than separators. */
  function Split(s: string, sep: char): (parts: seq<string>)
    ensures |parts| >= 1
    decreases |s|
  {
    if s == [] then [[]]
    else
      var rest := Split(s[1..], sep);
      if s[0] == sep then [[]] + rest
      else [[s[0]] + rest[0]] + rest[1..]
  }

  /** `parts.join(sep)`. */
  function Join(parts: seq<string>, sep: char): string
    requires |parts| >= 1
  {
    if |parts| == 1 then parts[0] else parts[0] + [sep] + Join(parts[1..], sep)
  }

  /** The concatenation of a sequence of strings, as a listener that appends every chunk sees it. */
  function Concat(parts: seq<string>): string {
    if parts == [] then [] else parts[0] + Concat(parts[1..])
  }

  /** No part of a split contains the separator. */
  lemma {:induction false} SplitPartsFree(s: string, sep: char)
    ensures forall k :: 0 <= k < |Split(s, sep)| ==> sep !in Split(s, sep)[k]
    decreases |s|
  {
    if s != [] {
      SplitPartsFree(s[1..], sep);
    }
  }

  /** Joining what was split gives back the original string. */
  lemma {:induction false} JoinSplit(s: string, sep: char)
    ensures Join(Split(s, sep), sep) == s
    decreases |s|
  {
    if s != [] {
      var rest := Split(s[1..], sep);
      JoinSplit(s[1..], sep);
      if s[0] == sep {
        assert ([[]] + rest)[1..] == rest;
      } else if |rest| > 1 {
        var parts := [[s[0]] + rest[0]] + rest[1..];
        assert parts[1..] == rest[1..];
        calc {
          Join(parts, sep);
          ([s[0]] + rest[0]) + [sep] + Join(rest[1..], sep);
          [s[0]] + (rest[0] + [sep] + Join(rest[1..], sep));
          [s[0]] + s[1..];
        }
      }
    }
  }

  /** What `SplitLast` states about the parts of `s`. */
  predicate LastPartFacts(s: string, sep: char, parts: seq<string>)
    requires |parts| >= 1
  {
    var l := Last(parts);
    && sep !in l
    && |l| <= |s| && l == s[|s| - |l|..]
    && (|l| == |s| || s[|s| - |l| - 1] == sep)
    && (|parts| == 1 ==> parts[0] == s)
    && (|parts| > 1 ==> sep in s)
  }

  /** A leading separator opens a new first part and leaves the last part alone. */
  lemma SplitLastAfterSep(s: string, sep: char)
    requires s != [] && s[0] == sep && LastPartFacts(s[1..], sep, Split(s[1..], sep))
    ensures LastPartFacts(s, sep, Split(s, sep))
  {
    var tail := s[1..];
    var rest := Split(tail, sep);
    var l := Last(rest);
    assert Split(s, sep) == [[]] + rest;
    assert Last(Split(s, sep)) == l;
    assert tail[|tail| - |l|..] == s[|s| - |l|..];
    if |l| == |tail| {
      assert s[|s| - |l| - 1] == s[0];
    } else {
      assert s[|s| - |l| - 1] == tail[|tail| - |l| - 1];
    }
    assert s[0] in s;
  }

  /** Any other first character joins the first part; with a single part that part is the whole string. */
  lemma SplitLastSinglePart(s: string, sep: char)
    requires s != [] && s[0] != sep && LastPartFacts(s[1..], sep, Split(s[1..], sep))
    requires |Split(s[1..], sep)| == 1
    ensures LastPartFacts(s, sep, Split(s, sep))
  {
    var tail := s[1..];
    var rest := Split(tail, sep);
    assert rest[0] == Last(rest) == tail;
    assert sep !in tail;
    assert [s[0]] + tail == s;
    assert Split(s, sep) == [s];
    assert sep !in s;
    assert s[|s| - |s|..] == s;
  }

  /** Any other first character joins the first part; with several parts the last one is untouched. */
  lemma SplitLastSeveralParts(s: string, sep: char)
    requires s != [] && s[0] != sep && LastPartFacts(s[1..], sep, Split(s[1..], sep))
    requires |Split(s[1..], sep)| > 1
    ensures LastPartFacts(s, sep, Split(s, sep))
  {
    var tail := s[1..];
    var rest := Split(tail, sep);
    var l := Last(rest);
    assert Split(s, sep) == [[s[0]] + rest[0]] + rest[1..];
    assert Last(Split(s, sep)) == l;
    assert tail[|tail| - |l|..] == s[|s| - |l|..];
    assert |l| != |tail|;
    assert s[|s| - |l| - 1] == tail[|tail| - |l| - 1];
    var i :| 0 <= i < |tail| && tail[i] == sep;
    assert s[i + 1] == sep;
  }

  /**
   * The last part of a split is the text after the last separator: it contains no separator,
   * it ends the string, and it is the whole string or follows a separator.
   */
  lemma {:induction false} SplitLast(s: string, sep: char)
    ensures var l := Last(Split(s, sep));
      && sep !in l
      && |l| <= |s| && l == s[|s| - |l|..]
      && (|l| == |s| || s[|s| - |l| - 1] == sep)
    ensures |Split(s, sep)| == 1 ==> Split(s, sep)[0] == s
    ensures |Split(s, sep)| > 1 ==> sep in s
    decreases |s|
  {
    if s != [] {
      SplitLast(s[1..], sep);
      if s[0] == sep {
        SplitLastAfterSep(s, sep);
      } else if |Split(s[1..], sep)| == 1 {
        SplitLastSinglePart(s, sep);
      } else {
        SplitLastSeveralParts(s, sep);
      }
    }
  }

  /** `s.split(sep).pop()`: the text after the last separator. */
  function LastSegment(s: string, sep: char): string {
    Last(Split(s, sep))
  }

  /** The last segment of `p + sep + n` is `n` whenever `n` holds no separator. */
  lemma LastSegmentAfter(p: string, sep: char, n: string)
    requires sep !in n
    ensures LastSegment(p + [sep] + n, sep) == n
  {
    var s := p + [sep] + n;
    var l := LastSegment(s, sep);
    SplitLast(s, sep);
    assert s[|p|] == sep;
    assert forall i :: |p| < i < |s| ==> s[i] != sep by {
      assert s[|p| + 1..] == n;
    }
    assert forall i :: |s| - |l| <= i < |s| ==> s[i] != sep;
  }

  /** A string without separator is its own last segment. */
  lemma LastSegmentWhole(s: string, sep: char)
    requires sep !in s
    ensures LastSegment(s, sep) == s
  {
    SplitLast(s, sep);
  }

  /** `path.split('/').pop() || fallback`: the last path segment, or the fallback when it is empty. */
  function LastSegmentOr(path: string, fallback: string): string {
    var name := LastSegment(path, '/');
    if name == [] then fallback else name
  }

  /**
   * The name taken from a path is the fallback exactly when the path is empty or ends with '/';
   * otherwise it is the non-empty, slash-free tail of the path that follows its last '/'.
   */
  lemma LastSegmentOrSpec(path: string, fallback: string)
    ensures var r := LastSegmentOr(path, fallback);
      && (r == fallback <== (path == [] || path[|path| - 1] == '/'))
      && (path != [] && path[|path| - 1] != '/' ==>
            && r != [] && '/' !in r && EndsWith(path, r)
            && (|r| == |path| || path[|path| - |r| - 1] == '/'))
  {
    SplitLast(path, '/');
    var l := LastSegment(path, '/');
    if path != [] && l != [] {
      assert l[|l| - 1] == path[|path| - 1];
      assert path[|path| - 1] in l;
    }
    if path != [] && path[|path| - 1] != '/' {
      assert l != [];
      assert path[|path| - |l|..] == l;
    }
  }
}
