/**
  The JavaScript string built-ins the core relies on: `String.prototype.trim`,
  `Array.prototype.join`, `String.prototype.split` (by one character),
  `String.prototype.indexOf` and `String.prototype.substring` with one argument.
  Strings are sequences of Unicode scalar values rather than UTF-16 code units.
 */
module JsText {

  /** WhiteSpace and LineTerminator code points of ECMAScript, which `trim` removes. */
  predicate IsWhiteSpace(c: char)
  {
    || c == '\t' || c == '\n' || c == '\U{000B}' || c == '\U{000C}' || c == '\r' || c == ' '
    || c == '\U{00A0}' || c == '\U{1680}' || ('\U{2000}' <= c <= '\U{200A}')
    || c == '\U{2028}' || c == '\U{2029}' || c == '\U{202F}' || c == '\U{205F}'
    || c == '\U{3000}' || c == '\U{FEFF}'
  }

  /** True when `r` is what remains of `s` after dropping some prefix. */
  predicate IsSuffix(r: string, s: string)
  {
    |r| <= |s| && r == s[|s| - |r|..]
  }

  /** `s` with its leading white space removed. */
  function TrimStart(s: string): (r: string)
    ensures IsSuffix(r, s)
    ensures forall k :: 0 <= k < |s| - |r| ==> IsWhiteSpace(s[k])
    ensures r == [] || !IsWhiteSpace(r[0])
  {
    if s != [] && IsWhiteSpace(s[0]) then TrimStart(s[1..]) else s
  }

  /** `s` with its trailing white space removed. */
  function TrimEnd(s: string): (r: string)
    ensures |r| <= |s| && r == s[..|r|]
    ensures forall k :: |r| <= k < |s| ==> IsWhiteSpace(s[k])
    ensures r == [] || !IsWhiteSpace(r[|r| - 1])
  {
    if s != [] && IsWhiteSpace(s[|s| - 1]) then TrimEnd(s[..|s| - 1]) else s
  }

  /** `s.trim()`: neither end of the result is white space. */
  function Trim(s: string): (r: string)
    ensures |r| <= |s|
    ensures r == [] || (!IsWhiteSpace(r[0]) && !IsWhiteSpace(r[|r| - 1]))
  {
    TrimEnd(TrimStart(s))
  }

  /** A string that neither starts nor ends with white space is left as it is by `trim`. */
  lemma TrimKeepsTrimmed(s: string)
    requires s == [] || (!IsWhiteSpace(s[0]) && !IsWhiteSpace(s[|s| - 1]))
    ensures Trim(s) == s
  {
  }

  /** Trimming twice is trimming once. */
  lemma TrimIdempotent(s: string)
    ensures Trim(Trim(s)) == Trim(s)
  {
    TrimKeepsTrimmed(Trim(s));
  }

  /** When a string ends in a character other than white space, `trim` only strips its start. */
  lemma TrimOfNonBlankEnd(s: string)
    requires s != [] && !IsWhiteSpace(s[|s| - 1])
    ensures Trim(s) == TrimStart(s)
  {
  }

  /** `TrimStart` never cuts into a suffix that starts with a character other than white space. */
  lemma {:induction false} TrimStartKeepsSuffix(p: string, q: string)
    requires q != [] && !IsWhiteSpace(q[0])
    ensures TrimStart(p + q) == TrimStart(p) + q
    decreases |p|
  {
    if p == [] {
      assert p + q == q;
    } else if IsWhiteSpace(p[0]) {
      assert (p + q)[1..] == p[1..] + q;
      TrimStartKeepsSuffix(p[1..], q);
    } else {
      assert (p + q)[0] == p[0];
    }
  }

  /** `lines.join(sep)`. */
  function Join(lines: seq<string>, sep: string): (r: string)
    ensures lines == [] ==> r == []
    ensures |lines| == 1 ==> r == lines[0]
  {
    if lines == [] then []
    else if |lines| == 1 then lines[0]
    else lines[0] + sep + Join(lines[1..], sep)
  }

  /** `s.split(sep)` for a one-character separator: always at least one part. */
  function Split(s: string, sep: char): (r: seq<string>)
    ensures |r| >= 1
    ensures forall i :: 0 <= i < |r| ==> sep !in r[i]
  {
    if s == [] then [[]]
    else
      var rest := Split(s[1..], sep);
      if s[0] == sep then [[]] + rest else [[s[0]] + rest[0]] + rest[1..]
  }

  /** A string without the separator splits into itself alone. */
  lemma {:induction false} SplitWithoutSeparator(s: string, sep: char)
    requires sep !in s
    ensures Split(s, sep) == [s]
    decreases |s|
  {
    if s != [] {
      SplitWithoutSeparator(s[1..], sep);
      assert [s[0]] + s[1..] == s;
    }
  }

  /** Splitting at the first separator peels off the part before it. */
  lemma {:induction false} SplitAtFirstSeparator(p: string, sep: char, t: string)
    requires sep !in p
    ensures Split(p + [sep] + t, sep) == [p] + Split(t, sep)
    decreases |p|
  {
    if p == [] {
      assert p + [sep] + t == [sep] + t;
      assert ([sep] + t)[1..] == t;
    } else {
      var s := p + [sep] + t;
      assert s[0] == p[0];
      assert s[1..] == p[1..] + [sep] + t;
      SplitAtFirstSeparator(p[1..], sep, t);
      assert [p[0]] + p[1..] == p;
    }
  }

  /** `split` undoes `join` when no part contains the separator and there is at least one part. */
  lemma {:induction false} SplitJoin(lines: seq<string>, sep: char)
    requires |lines| >= 1
    requires forall i :: 0 <= i < |lines| ==> sep !in lines[i]
    ensures Split(Join(lines, [sep]), sep) == lines
    decreases |lines|
  {
    if |lines| == 1 {
      SplitWithoutSeparator(lines[0], sep);
    } else {
      SplitJoin(lines[1..], sep);
      SplitAtFirstSeparator(lines[0], sep, Join(lines[1..], [sep]));
      assert [lines[0]] + lines[1..] == lines;
    }
  }

  /** True when `key` occurs in `s` at position `i`. */
  predicate OccursAt(s: string, key: string, i: int)
  {
    0 <= i && i + |key| <= |s| && s[i..i + |key|] == key
  }

  /** The first position at or after `from` where `key` occurs in `s`, or -1. */
  function IndexFrom(s: string, key: string, from: nat): (r: int)
    ensures r == -1 || (from <= r && OccursAt(s, key, r))
    ensures forall j :: from <= j && (r == -1 || j < r) ==> !OccursAt(s, key, j)
    decreases |s| - from
  {
    if from + |key| > |s| then -1
    else if s[from..from + |key|] == key then from
    else IndexFrom(s, key, from + 1)
  }

  /** `s.indexOf(key)`: the first position where `key` occurs, or -1 when it does not occur. */
  function IndexOf(s: string, key: string): (r: int)
    ensures r == -1 || OccursAt(s, key, r)
    ensures forall j :: 0 <= j && (r == -1 || j < r) ==> !OccursAt(s, key, j)
  {
    IndexFrom(s, key, 0)
  }

  /** `s.substring(start)`: the start is clamped to the string's bounds. */
  function Substring(s: string, start: int): (r: string)
    ensures IsSuffix(r, s)
    ensures 0 <= start <= |s| ==> |r| == |s| - start
    ensures start < 0 ==> r == s
    ensures start > |s| ==> r == []
  {
    if start < 0 then s else if start > |s| then [] else s[start..]
  }
}
