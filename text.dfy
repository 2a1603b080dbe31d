/**
 * The handful of Python `str` operations the application relies on, as
 * functions on `seq<char>`: `isspace`/`strip`, `in`, `startswith`,
 * `endswith`, `replace`, `count`, `split("\n")`/`"\n".join`, `lower`,
 * `isdigit` and `str(int)`.
 */
module Text {

  /** Python's `str.isspace()` for one character (the Unicode whitespace set). */
  predicate IsSpace(c: char) {
    c == ' ' || ('\t' <= c <= '\r') || ('\U{1C}' <= c <= '\U{1F}')
    || c == '\U{85}' || c == '\U{A0}' || c == '\U{1680}'
    || ('\U{2000}' <= c <= '\U{200A}') || c == '\U{2028}' || c == '\U{2029}'
    || c == '\U{202F}' || c == '\U{205F}' || c == '\U{3000}'
  }

  /** `s.lstrip()`: the longest suffix of `s` that does not start with whitespace. */
  function TrimStart(s: string): (r: string)
    ensures |r| <= |s| && r == s[|s| - |r|..]
    ensures r == [] || !IsSpace(r[0])
    ensures forall i :: 0 <= i < |s| - |r| ==> IsSpace(s[i])
    decreases |s|
  {
    if s != [] && IsSpace(s[0]) then TrimStart(s[1..]) else s
  }

  /** `s.rstrip()`: the longest prefix of `s` that does not end with whitespace. */
  function TrimEnd(s: string): (r: string)
    ensures |r| <= |s| && r == s[..|r|]
    ensures r == [] || !IsSpace(r[|r| - 1])
    ensures forall i :: |r| <= i < |s| ==> IsSpace(s[i])
    decreases |s|
  {
    if s != [] && IsSpace(s[|s| - 1]) then TrimEnd(s[..|s| - 1]) else s
  }

  /** `s.strip()` */
  function Strip(s: string): (r: string)
    ensures |r| <= |s|
    ensures r == [] || (!IsSpace(r[0]) && !IsSpace(r[|r| - 1]))
    ensures r == [] <==> forall i :: 0 <= i < |s| ==> IsSpace(s[i])
  {
    var t := TrimStart(s);
    var r := TrimEnd(t);
    assert r == [] ==> t == [];
    r
  }

  /** Python's truth value of `s.strip()`: false for empty and all-blank text. */
  predicate IsBlank(s: string) {
    Strip(s) == []
  }

  predicate StartsWith(s: string, p: string) {
    |p| <= |s| && s[..|p|] == p
  }

  predicate EndsWith(s: string, p: string) {
    |p| <= |s| && s[|s| - |p|..] == p
  }

  /** Python's `p in s` for strings: `p` occurs in `s` as a contiguous substring. */
  predicate Contains(s: string, p: string)
    decreases |s|
  {
    StartsWith(s, p) || (s != [] && Contains(s[1..], p))
  }

  lemma {:induction false} ContainsAt(s: string, p: string, i: nat)
    requires i + |p| <= |s| && s[i..i + |p|] == p
    ensures Contains(s, p)
    decreases i
  {
    if i > 0 {
      assert s[1..][i - 1..i - 1 + |p|] == s[i..i + |p|];
      ContainsAt(s[1..], p, i - 1);
    } else {
      assert s[..|p|] == s[0..|p|];
    }
  }

  /** An occurrence of `p` in `s` is an occurrence in any text that has `s` inside it. */
  lemma ContainsInside(a: string, s: string, b: string, p: string)
    requires Contains(s, p)
    ensures Contains(a + s + b, p)
  {
    var i := ContainsIndex(s, p);
    assert (a + s + b)[|a| + i..|a| + i + |p|] == s[i..i + |p|];
    ContainsAt(a + s + b, p, |a| + i);
  }

  /** The position of an occurrence, read back from `Contains`. */
  lemma {:induction false} ContainsIndex(s: string, p: string) returns (i: nat)
    requires Contains(s, p)
    ensures i + |p| <= |s| && s[i..i + |p|] == p
    decreases |s|
  {
    if StartsWith(s, p) {
      i := 0;
    } else {
      var j := ContainsIndex(s[1..], p);
      assert s[1 + j..1 + j + |p|] == s[1..][j..j + |p|];
      i := 1 + j;
    }
  }

  /** Every character of a pattern occurs in a text that contains it. */
  lemma CharNeeded(s: string, p: string, k: nat)
    requires k < |p|
    ensures Contains(s, p) ==> p[k] in s
  {
    if Contains(s, p) {
      var i := ContainsIndex(s, p);
      assert s[i + k] == s[i..i + |p|][k];
    }
  }

  /** A pattern is never longer than a text that contains it. */
  lemma ContainsShorter(s: string, p: string)
    ensures Contains(s, p) ==> |p| <= |s|
  {
    if Contains(s, p) {
      var i := ContainsIndex(s, p);
    }
  }

  /** An occurrence of a pattern that lacks `c` lies on one side of a `c`. */
  lemma ContainsAcross(a: string, c: char, b: string, p: string)
    requires c !in p
    ensures Contains(a + [c] + b, p) ==> Contains(a, p) || Contains(b, p)
  {
    var t := a + [c] + b;
    if Contains(t, p) {
      var i := ContainsIndex(t, p);
      assert t[|a|] == c;
      assert forall k :: 0 <= k < |p| ==> p[k] == t[i + k];
      assert i + |p| <= |a| || i > |a|;
      if i + |p| <= |a| {
        assert a[i..i + |p|] == t[i..i + |p|];
        ContainsAt(a, p, i);
      } else {
        assert b[i - |a| - 1..i - |a| - 1 + |p|] == t[i..i + |p|];
        ContainsAt(b, p, i - |a| - 1);
      }
    }
  }

  /** `s.count(c)` for a one-character argument. */
  function Count(s: string, c: char): nat {
    multiset(s)[c]
  }

  /** `s.replace(pat, rep)`: every non-overlapping occurrence, scanning left to right. */
  function Replace(s: string, pat: string, rep: string): string
    requires pat != []
    decreases |s|
  {
    if StartsWith(s, pat) then rep + Replace(s[|pat|..], pat, rep)
    else if s == [] then []
    else [s[0]] + Replace(s[1..], pat, rep)
  }

  /** Replacing a pattern that does not occur changes nothing. */
  lemma {:induction false} ReplaceAbsent(s: string, pat: string, rep: string)
    requires pat != [] && !Contains(s, pat)
    ensures Replace(s, pat, rep) == s
    decreases |s|
  {
    if s != [] {
      ReplaceAbsent(s[1..], pat, rep);
    }
  }

  /** A character that is in neither the pattern nor the replacement keeps its count. */
  lemma {:induction false} ReplaceKeepsCount(s: string, pat: string, rep: string, c: char)
    requires pat != [] && c !in pat && c !in rep
    ensures Count(Replace(s, pat, rep), c) == Count(s, c)
    decreases |s|
  {
    if StartsWith(s, pat) {
      ReplaceKeepsCount(s[|pat|..], pat, rep, c);
      assert s == pat + s[|pat|..];
      assert multiset(pat)[c] == 0 && multiset(rep)[c] == 0;
    } else if s != [] {
      ReplaceKeepsCount(s[1..], pat, rep, c);
      assert s == [s[0]] + s[1..];
    }
  }

  /** A one-for-one character replacement acts position by position. */
  lemma {:induction false} ReplaceChar(s: string, a: char, b: char)
    ensures |Replace(s, [a], [b])| == |s|
    ensures forall i :: 0 <= i < |s| ==> Replace(s, [a], [b])[i] == if s[i] == a then b else s[i]
    decreases |s|
  {
    if s != [] {
      ReplaceChar(s[1..], a, b);
      assert StartsWith(s, [a]) <==> s[0] == a;
    }
  }

  /** Deleting a character (`s.replace("-", "")`) keeps exactly the other characters, in order. */
  lemma {:induction false} ReplaceDeletesChar(s: string, a: char)
    ensures Replace(s, [a], []) == Without(s, a)
    decreases |s|
  {
    if s != [] {
      ReplaceDeletesChar(s[1..], a);
      assert StartsWith(s, [a]) <==> s[0] == a;
    }
  }

  /** `s` with every `a` removed. */
  function Without(s: string, a: char): (r: string)
    ensures a !in r
    ensures forall c :: c in r <==> c in s && c != a
    ensures a !in s ==> r == s
    decreases |s|
  {
    if s == [] then []
    else if s[0] == a then Without(s[1..], a)
    else [s[0]] + Without(s[1..], a)
  }

  /** Removal works character by character in order: removing from a concatenation removes from each part, in turn. */
  lemma {:induction false} WithoutAppend(x: string, y: string, a: char)
    ensures Without(x + y, a) == Without(x, a) + Without(y, a)
    decreases |x|
  {
    if x == [] {
      assert x + y == y;
    } else {
      assert (x + y)[1..] == x[1..] + y;
      WithoutAppend(x[1..], y, a);
    }
  }

  /** One character is removed exactly when it is `a`, and kept as itself otherwise. */
  lemma WithoutOne(c: char, a: char)
    ensures Without([c], a) == if c == a then [] else [c]
  {
    assert [c][1..] == [];
  }

  /** Python's `s.split("\n")`: always at least one piece, none holding a newline. */
  function SplitLines(s: string): (r: seq<string>)
    ensures |r| >= 1
    ensures forall i :: 0 <= i < |r| ==> '\n' !in r[i]
    decreases |s|
  {
    if s == [] then [""]
    else
      var rest := SplitLines(s[1..]);
      if s[0] == '\n' then [""] + rest else [[s[0]] + rest[0]] + rest[1..]
  }

  /** Python's `"\n".join(lines)`. */
  function JoinLines(lines: seq<string>): string
    decreases |lines|
  {
    if lines == [] then ""
    else if |lines| == 1 then lines[0]
    else lines[0] + "\n" + JoinLines(lines[1..])
  }

  /** Joining the pieces of a split gives the text back. */
  lemma {:induction false} JoinSplit(s: string)
    ensures JoinLines(SplitLines(s)) == s
    decreases |s|
  {
    if s != [] {
      JoinSplit(s[1..]);
      var rest := SplitLines(s[1..]);
      if s[0] == '\n' {
        assert SplitLines(s) == [""] + rest;
        assert ([""] + rest)[1..] == rest;
      } else {
        JoinHead(s[0], rest);
      }
    }
  }

  lemma JoinHead(c: char, rest: seq<string>)
    requires |rest| >= 1
    ensures JoinLines([[c] + rest[0]] + rest[1..]) == [c] + JoinLines(rest)
  {
    var ls := [[c] + rest[0]] + rest[1..];
    if |rest| > 1 {
      assert ls[1..] == rest[1..];
    }
  }

  /** Splitting lines that hold no newline and were joined gives the lines back. */
  lemma {:induction false} SplitJoin(lines: seq<string>)
    requires |lines| >= 1
    requires forall i :: 0 <= i < |lines| ==> '\n' !in lines[i]
    ensures SplitLines(JoinLines(lines)) == lines
    decreases |lines|
  {
    if |lines| == 1 {
      SplitNoNewline(lines[0]);
    } else {
      SplitJoin(lines[1..]);
      var tail := "\n" + JoinLines(lines[1..]);
      SplitPrefix(lines[0], tail);
      assert tail[1..] == JoinLines(lines[1..]);
      assert SplitLines(tail) == [""] + lines[1..];
      assert lines[0] + "\n" + JoinLines(lines[1..]) == lines[0] + tail;
      assert lines[0] + "" == lines[0];
      assert [lines[0]] + lines[1..] == lines;
    }
  }

  lemma {:induction false} SplitNoNewline(s: string)
    requires '\n' !in s
    ensures SplitLines(s) == [s]
    decreases |s|
  {
    if s != [] {
      SplitNoNewline(s[1..]);
      assert [s[0]] + s[1..] == s;
    }
  }

  lemma {:induction false} SplitPrefix(a: string, t: string)
    requires '\n' !in a
    ensures SplitLines(a + t) == [a + SplitLines(t)[0]] + SplitLines(t)[1..]
    decreases |a|
  {
    if a != [] {
      SplitPrefix(a[1..], t);
      assert (a + t)[1..] == a[1..] + t;
      assert [a[0]] + (a[1..] + SplitLines(t)[0]) == a + SplitLines(t)[0];
    } else {
      assert a + t == t;
      assert a + SplitLines(t)[0] == SplitLines(t)[0];
    }
  }

  /** ASCII `str.lower()` for one character. */
  function LowerChar(c: char): char {
    if 'A' <= c <= 'Z' then (c as int + 32) as char else c
  }

  function Lower(s: string): (r: string)
    ensures |r| == |s|
    ensures forall i :: 0 <= i < |s| ==> r[i] == LowerChar(s[i])
  {
    seq(|s|, i requires 0 <= i < |s| => LowerChar(s[i]))
  }

  predicate IsDigit(c: char) {
    '0' <= c <= '9'
  }

  /** Python's `s.isdigit()` over ASCII digits: false for the empty string. */
  predicate IsDigits(s: string) {
    s != [] && forall i :: 0 <= i < |s| ==> IsDigit(s[i])
  }

  /** `str(n)` for a non-negative integer. */
  function NatToDecimal(n: nat): (r: string)
    ensures IsDigits(r)
    ensures |r| == 1 || r[0] != '0'
    decreases n
  {
    if n < 10 then [('0' as int + n) as char]
    else NatToDecimal(n / 10) + [('0' as int + n % 10) as char]
  }

  /** The value of a string of decimal digits. */
  function DecimalValue(s: string): nat
    requires forall i :: 0 <= i < |s| ==> IsDigit(s[i])
    decreases |s|
  {
    if s == [] then 0
    else
      assert IsDigit(s[|s| - 1]);
      DecimalValue(s[..|s| - 1]) * 10 + (s[|s| - 1] as int - '0' as int)
  }

  /** Reading back `str(n)` gives `n`. */
  lemma {:induction false} DecimalRoundTrip(n: nat)
    ensures DecimalValue(NatToDecimal(n)) == n
    decreases n
  {
    if n >= 10 {
      DecimalRoundTrip(n / 10);
      var r := NatToDecimal(n);
      assert r[..|r| - 1] == NatToDecimal(n / 10);
    }
  }

  /** `str(i)` for any integer. */
  function IntToDecimal(i: int): (r: string)
    ensures r != []
    ensures i >= 0 ==> IsDigits(r) && DecimalValue(r) == i
    ensures i < 0 ==> r[0] == '-' && IsDigits(r[1..]) && DecimalValue(r[1..]) == -i
  {
    if i >= 0 then
      DecimalRoundTrip(i);
      NatToDecimal(i)
    else
      DecimalRoundTrip(-i);
      var d := NatToDecimal(-i);
      assert ("-" + d)[1..] == d;
      "-" + d
  }
}
