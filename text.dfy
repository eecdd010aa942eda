/** The few Python `str` operations the backend relies on, over `seq<char>`:
    `isspace`, `lower`/`upper` (ASCII letters only), `startswith`, `strip()`,
    `split(sep)` and the first element of `split()`. */
module Text {
  import opened Wrappers

  /** The code points `str.isspace` accepts, as inclusive ranges. */
  const SpaceRanges: seq<(int, int)> := [
    (9, 13), (28, 32), (0x85, 0x85), (0xA0, 0xA0), (0x1680, 0x1680),
    (0x2000, 0x200A), (0x2028, 0x2029), (0x202F, 0x202F), (0x205F, 0x205F), (0x3000, 0x3000)
  ]

  /** `n` lies in one of the ranges. */
  predicate InRanges(n: int, ranges: seq<(int, int)>) {
    ranges != [] && (ranges[0].0 <= n <= ranges[0].1 || InRanges(n, ranges[1..]))
  }

  /** `str.isspace` for one character: the characters that `strip()` and
      `split()` treat as whitespace. */
  predicate IsSpace(c: char) {
    InRanges(c as int, SpaceRanges)
  }

  predicate AllSpace(s: string) {
    forall i :: 0 <= i < |s| ==> IsSpace(s[i])
  }

  predicate NoSpace(s: string) {
    forall i :: 0 <= i < |s| ==> !IsSpace(s[i])
  }

  predicate IsUpperLetter(c: char) { 'A' <= c <= 'Z' }

  predicate IsLowerLetter(c: char) { 'a' <= c <= 'z' }

  function LowerChar(c: char): char {
    if IsUpperLetter(c) then (c as int + 32) as char else c
  }

  function UpperChar(c: char): char {
    if IsLowerLetter(c) then (c as int - 32) as char else c
  }

  /** `str.lower()`: the result has no upper-case letter left, and differs from
      the input only in the case of letters. */
  function Lower(s: string): (r: string)
    ensures |r| == |s|
    ensures forall i :: 0 <= i < |r| ==> !IsUpperLetter(r[i])
    ensures forall i :: 0 <= i < |s| ==> UpperChar(r[i]) == UpperChar(s[i])
    ensures forall i :: 0 <= i < |s| && !IsUpperLetter(s[i]) ==> r[i] == s[i]
  {
    seq(|s|, i requires 0 <= i < |s| => LowerChar(s[i]))
  }

  /** `str.upper()`: the result has no lower-case letter left, and differs from
      the input only in the case of letters. */
  function Upper(s: string): (r: string)
    ensures |r| == |s|
    ensures forall i :: 0 <= i < |r| ==> !IsLowerLetter(r[i])
    ensures forall i :: 0 <= i < |s| ==> LowerChar(r[i]) == LowerChar(s[i])
    ensures forall i :: 0 <= i < |s| && !IsLowerLetter(s[i]) ==> r[i] == s[i]
  {
    seq(|s|, i requires 0 <= i < |s| => UpperChar(s[i]))
  }

  /** Lower-casing twice is lower-casing once. */
  lemma LowerIdempotent(s: string)
    ensures Lower(Lower(s)) == Lower(s)
  {
    var t := Lower(s);
    assert forall i :: 0 <= i < |t| ==> Lower(t)[i] == t[i];
  }

  /** `str.startswith(prefix)`. */
  predicate StartsWith(s: string, prefix: string) {
    |prefix| <= |s| && s[..|prefix|] == prefix
  }

  /** `str.endswith(suffix)`. */
  predicate EndsWith(s: string, suffix: string) {
    |suffix| <= |s| && s[|s| - |suffix|..] == suffix
  }

  /** The inverse of `Split`: the parts with `sep` between them. */
  function Join(parts: seq<string>, sep: char): string {
    if parts == [] then ""
    else if |parts| == 1 then parts[0]
    else parts[0] + [sep] + Join(parts[1..], sep)
  }

  /** `str.split(sep)` for a one-character separator: always at least one part,
      no part holds the separator, and joining the parts gives `s` back. */
  function Split(s: string, sep: char): (parts: seq<string>)
    ensures |parts| >= 1
    ensures forall i :: 0 <= i < |parts| ==> sep !in parts[i]
    ensures Join(parts, sep) == s
  {
    if s == [] then [""]
    else
      var rest := Split(s[1..], sep);
      if s[0] == sep then
        [""] + rest
      else
        var parts := [[s[0]] + rest[0]] + rest[1..];
        assert parts[1..] == rest[1..];
        assert Join(rest, sep) == rest[0] + Join(rest, sep)[|rest[0]|..];
        parts
  }

  lemma {:induction false} SplitNoSep(p: string, sep: char)
    requires sep !in p
    ensures Split(p, sep) == [p]
  {
    if p != [] {
      SplitNoSep(p[1..], sep);
      assert [p[0]] + p[1..] == p;
    }
  }

  lemma {:induction false} SplitAfterPart(p: string, sep: char, t: string)
    requires sep !in p
    ensures Split(p + [sep] + t, sep) == [p] + Split(t, sep)
  {
    if p == [] {
      assert (p + [sep] + t)[1..] == t;
    } else {
      assert (p + [sep] + t)[1..] == p[1..] + [sep] + t;
      SplitAfterPart(p[1..], sep, t);
      assert [p[0]] + p[1..] == p;
    }
  }

  /** Splitting a join of separator-free parts gives the parts back. */
  lemma {:induction false} SplitJoin(parts: seq<string>, sep: char)
    requires |parts| >= 1
    requires forall i :: 0 <= i < |parts| ==> sep !in parts[i]
    ensures Split(Join(parts, sep), sep) == parts
  {
    if |parts| == 1 {
      SplitNoSep(parts[0], sep);
    } else {
      SplitJoin(parts[1..], sep);
      SplitAfterPart(parts[0], sep, Join(parts[1..], sep));
      assert [parts[0]] + parts[1..] == parts;
    }
  }

  /** `str.lstrip()`: a suffix of `s` that does not start with whitespace. */
  function TrimStart(s: string): (r: string)
    ensures |r| <= |s| && r == s[|s| - |r|..]
    ensures r != [] ==> !IsSpace(r[0])
  {
    if s != [] && IsSpace(s[0]) then TrimStart(s[1..]) else s
  }

  /** `lstrip()` cuts off whitespace only. */
  lemma {:induction false} TrimStartCutsSpace(s: string)
    ensures AllSpace(s[..|s| - |TrimStart(s)|])
  {
    if s != [] && IsSpace(s[0]) {
      TrimStartCutsSpace(s[1..]);
      var k := |s| - |TrimStart(s)|;
      forall i | 0 <= i < k
        ensures IsSpace(s[..k][i])
      {
        if i > 0 {
          assert s[..k][i] == s[1..][..k - 1][i - 1];
        }
      }
    }
  }

  /** `str.rstrip()`: a prefix of `s` that does not end with whitespace. */
  function TrimEnd(s: string): (r: string)
    ensures |r| <= |s| && r == s[..|r|]
    ensures r != [] ==> !IsSpace(r[|r| - 1])
  {
    if s != [] && IsSpace(s[|s| - 1]) then TrimEnd(s[..|s| - 1]) else s
  }

  /** `rstrip()` cuts off whitespace only. */
  lemma {:induction false} TrimEndCutsSpace(s: string)
    ensures AllSpace(s[|TrimEnd(s)|..])
  {
    if s != [] && IsSpace(s[|s| - 1]) {
      var n := |s| - 1;
      TrimEndCutsSpace(s[..n]);
      var k := |TrimEnd(s)|;
      forall i | 0 <= i < |s| - k
        ensures IsSpace(s[k..][i])
      {
        if k + i < n {
          assert s[k..][i] == s[..n][k..][i];
        }
      }
    }
  }

  /** `str.strip()`: `lstrip()` then `rstrip()`. */
  function Strip(s: string): string {
    TrimEnd(TrimStart(s))
  }

  /** `strip()` gives a slice of `s`, starting where the leading whitespace
      ends. */
  lemma StripIsSlice(s: string)
    ensures var lo, r := |s| - |TrimStart(s)|, Strip(s);
            lo + |r| <= |s| && s[lo..lo + |r|] == r
  {
    PrefixOfSuffix(s, TrimStart(s), Strip(s));
  }

  /** A prefix of a suffix of `s` is a slice of `s`. */
  lemma PrefixOfSuffix(s: string, t: string, r: string)
    requires |t| <= |s| && t == s[|s| - |t|..] && |r| <= |t| && r == t[..|r|]
    ensures |s| - |t| + |r| <= |s| && s[|s| - |t|..|s| - |t| + |r|] == r
  {
  }

  /** `strip()` cuts off only whitespace, on either side. */
  lemma StripCutsSpace(s: string)
    ensures var lo, r := |s| - |TrimStart(s)|, Strip(s);
            lo + |r| <= |s| && AllSpace(s[..lo]) && AllSpace(s[lo + |r|..])
  {
    var t := TrimStart(s);
    var r := TrimEnd(t);
    TrimStartCutsSpace(s);
    TrimEndCutsSpace(t);
    SliceOfSuffix(s, |s| - |t|, t, |r|);
  }

  /** `strip()` neither starts nor ends with whitespace. */
  lemma StripEnds(s: string)
    ensures Strip(s) != [] ==> !IsSpace(Strip(s)[0]) && !IsSpace(Strip(s)[|Strip(s)| - 1])
  {
    var t := TrimStart(s);
    var r := TrimEnd(t);
    if r != [] {
      assert r[0] == t[0];
    }
  }

  /** Slicing a suffix of `s` is slicing `s` further on. */
  lemma SliceOfSuffix(s: string, lo: int, t: string, n: int)
    requires 0 <= lo <= |s| && t == s[lo..] && 0 <= n <= |t|
    ensures s[lo..lo + n] == t[..n] && s[lo + n..] == t[n..]
  {
  }

  /** The longest prefix of `s` without whitespace: a prefix of `s`. */
  function Word(s: string): (w: string)
    ensures |w| <= |s| && w == s[..|w|]
  {
    if s == [] || IsSpace(s[0]) then [] else [s[0]] + Word(s[1..])
  }

  /** The prefix holds no whitespace and is followed by whitespace or the
      end of `s`. */
  lemma {:induction false} WordIsRun(s: string)
    ensures NoSpace(Word(s))
    ensures |Word(s)| == |s| || IsSpace(s[|Word(s)|])
  {
    if s != [] && !IsSpace(s[0]) {
      WordIsRun(s[1..]);
      var w := Word(s);
      forall i | 0 <= i < |w|
        ensures !IsSpace(w[i])
      {
        if i > 0 {
          assert w[i] == Word(s[1..])[i - 1];
        }
      }
      if |w| < |s| {
        assert s[|w|] == s[1..][|w| - 1];
      }
    }
  }

  /** Only whitespace trims away to nothing. */
  lemma TrimStartEmpty(s: string)
    ensures TrimStart(s) == [] <==> AllSpace(s)
  {
    var t := TrimStart(s);
    TrimStartCutsSpace(s);
    if t != [] {
      assert s[|s| - |t|] == t[0];
    } else {
      assert s[..|s|] == s;
    }
  }

  /** The first element of `str.split()` (no argument: split on runs of
      whitespace), or `None` when that list is empty. */
  function FirstField(s: string): (r: Option<string>)
    ensures r.None? <==> AllSpace(s)
  {
    var t := TrimStart(s);
    TrimStartEmpty(s);
    if t == [] then None else Some(Word(t))
  }

  /** The first field, when there is one, starts where the leading
      whitespace ends. */
  lemma FirstFieldPosition(s: string)
    requires FirstField(s).Some?
    ensures var lo, w := |s| - |TrimStart(s)|, FirstField(s).value;
            && AllSpace(s[..lo]) && lo + |w| <= |s| && s[lo..lo + |w|] == w
  {
    var t := TrimStart(s);
    TrimStartCutsSpace(s);
    SliceOfSuffix(s, |s| - |t|, t, |Word(t)|);
  }

  /** The first field, when there is one, is a maximal run of
      non-whitespace characters: non-empty, holding no whitespace, and
      followed by whitespace or the end of `s`. */
  lemma FirstFieldIsRun(s: string)
    requires FirstField(s).Some?
    ensures var lo, w := |s| - |TrimStart(s)|, FirstField(s).value;
            && w != [] && NoSpace(w) && lo + |w| <= |s|
            && (lo + |w| == |s| || IsSpace(s[lo + |w|]))
  {
    var t := TrimStart(s);
    var w := Word(t);
    WordIsRun(t);
    assert w != [] by {
      assert !IsSpace(t[0]);
    }
    if |s| - |t| + |w| < |s| {
      assert s[|s| - |t| + |w|] == t[|w|];
    }
  }

  /** A trailing whitespace character does not change the first run. */
  lemma {:induction false} WordDropTrailingSpace(t: string)
    requires t != [] && IsSpace(t[|t| - 1])
    ensures Word(t[..|t| - 1]) == Word(t)
  {
    var t' := t[..|t| - 1];
    if |t| > 1 && !IsSpace(t[0]) {
      WordDropTrailingSpace(t[1..]);
      assert t'[1..] == t[1..][..|t| - 2];
    }
  }

  /** Trailing whitespace does not change the first run. */
  lemma {:induction false} WordTrimEnd(t: string)
    ensures Word(TrimEnd(t)) == Word(t)
  {
    if t != [] && IsSpace(t[|t| - 1]) {
      WordTrimEnd(t[..|t| - 1]);
      WordDropTrailingSpace(t);
    }
  }

  /** Stripping first does not change the first field: `s.strip().split()[0]`
      is `s.split()[0]`. */
  lemma StripKeepsFirstField(s: string)
    ensures FirstField(Strip(s)) == FirstField(s)
  {
    var t := TrimStart(s);
    var u := TrimEnd(t);
    assert Strip(s) == u;
    WordTrimEnd(t);
    if t != [] {
      assert Word(t) != [];
      assert u[0] == t[0];
    }
  }
}
