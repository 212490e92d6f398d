/** The handful of Python `str` operations the asset registries rely on,
    stated on `seq<char>`: `lower`, `strip`, `replace` and the `in` test. */
module Text {

  /** An ASCII upper-case letter. */
  predicate IsUpper(c: char) {
    'A' <= c <= 'Z'
  }

  /** `c.lower()` for ASCII; every other character is left alone. */
  function LowerChar(c: char): char {
    if IsUpper(c) then (c as int + 32) as char else c
  }

  /** `s.lower()`, character by character. */
  function Lower(s: string): (r: string)
    ensures |r| == |s|
    ensures forall i :: 0 <= i < |s| ==> r[i] == LowerChar(s[i])
    ensures forall c :: c in r ==> !IsUpper(c)
  {
    seq(|s|, i requires 0 <= i < |s| => LowerChar(s[i]))
  }

  /** The characters Python's argument-less `strip()` removes
      (those `str.isspace()` accepts). */
  predicate IsSpace(c: char) {
    || ('\t' <= c <= '\r')
    || ('\U{1C}' <= c <= ' ')
    || c == '\U{85}' || c == '\U{A0}' || c == '\U{1680}'
    || ('\U{2000}' <= c <= '\U{200A}')
    || c == '\U{2028}' || c == '\U{2029}' || c == '\U{202F}' || c == '\U{205F}' || c == '\U{3000}'
  }

  /** `s.lstrip()`: the longest suffix of `s` that does not start with whitespace. */
  function StripLeft(s: string): (r: string)
    ensures |r| <= |s| && r == s[|s| - |r|..]
    ensures forall k :: 0 <= k < |s| - |r| ==> IsSpace(s[k])
    ensures r != [] ==> !IsSpace(r[0])
  {
    if s != [] && IsSpace(s[0]) then StripLeft(s[1..]) else s
  }

  /** `s.rstrip()`: the longest prefix of `s` that does not end with whitespace. */
  function StripRight(s: string): (r: string)
    ensures |r| <= |s| && r == s[..|r|]
    ensures forall k :: |r| <= k < |s| ==> IsSpace(s[k])
    ensures r != [] ==> !IsSpace(r[|r| - 1])
  {
    if s != [] && IsSpace(s[|s| - 1]) then StripRight(s[..|s| - 1]) else s
  }

  /** `r` is the slice `s[i..j]`, and everything cut off before `i` and from `j` on
      is whitespace. */
  predicate TrimmedSlice(s: string, r: string, i: int, j: int) {
    && 0 <= i <= j <= |s| && r == s[i..j]
    && (forall k :: 0 <= k < i ==> IsSpace(s[k]))
    && (forall k :: j <= k < |s| ==> IsSpace(s[k]))
  }

  /** `s.strip()`: whitespace removed from both ends, nothing else touched. */
  function Strip(s: string): (r: string)
    ensures r != [] ==> !IsSpace(r[0]) && !IsSpace(r[|r| - 1])
    ensures forall c :: c in r ==> c in s
    ensures exists i, j :: TrimmedSlice(s, r, i, j)
  {
    var l := StripLeft(s);
    var r := StripRight(l);
    TrimBothEnds(s, l, r);
    r
  }

  /** Cutting whitespace off the start of `s`, giving `l`, and then off the end of
      `l`, giving `r`, leaves `r` as a slice of `s` trimmed of whitespace only. */
  lemma TrimBothEnds(s: string, l: string, r: string)
    requires |l| <= |s| && l == s[|s| - |l|..] && forall k :: 0 <= k < |s| - |l| ==> IsSpace(s[k])
    requires |r| <= |l| && r == l[..|r|] && forall k :: |r| <= k < |l| ==> IsSpace(l[k])
    ensures forall c :: c in r ==> c in s
    ensures TrimmedSlice(s, r, |s| - |l|, |s| - |l| + |r|)
  {
    var i := |s| - |l|;
    forall k | i + |r| <= k < |s|
      ensures IsSpace(s[k])
    {
      assert s[k] == l[k - i];
    }
    assert r == s[i..i + |r|];
    assert forall c :: c in r ==> c in s[i..i + |r|];
  }

  /** `s.startswith(p)`. */
  predicate StartsWith(s: string, p: string) {
    |p| <= |s| && s[..|p|] == p
  }

  /** `s.endswith(p)`. */
  predicate EndsWith(s: string, p: string) {
    |p| <= |s| && s[|s| - |p|..] == p
  }

  /** `a` is a prefix of `a + b`, and what follows it is `b`. */
  lemma Affix(a: string, b: string)
    ensures StartsWith(a + b, a) && EndsWith(a + b, b) && (a + b)[|a|..] == b
  {
    assert (a + b)[..|a|] == a;
  }

  /** `sub in s`: `sub` occurs in `s` at some position (the empty string occurs everywhere). */
  predicate Contains(s: string, sub: string)
    decreases |s|
  {
    StartsWith(s, sub) || (s != [] && Contains(s[1..], sub))
  }

  /** What `s.replace("", rep)` yields: `rep` before every character and at the end. */
  function Interleave(s: string, rep: string): string
    decreases |s|
  {
    if s == [] then rep else rep + [s[0]] + Interleave(s[1..], rep)
  }

  /** `s.replace(pat, rep)`: the occurrences of `pat` found by scanning left to right,
      without overlap, are each replaced by `rep`. */
  function Replace(s: string, pat: string, rep: string): string
    decreases |s|
  {
    if pat == [] then Interleave(s, rep)
    else if |s| < |pat| then s
    else if s[..|pat|] == pat then rep + Replace(s[|pat|..], pat, rep)
    else [s[0]] + Replace(s[1..], pat, rep)
  }

  /** Replacing every occurrence of the one character `c` by `rep`, character by character:
      the reference definition a single-character `replace` is proved against. */
  function SubstChar(s: string, c: char, rep: string): string
    decreases |s|
  {
    if s == [] then [] else (if s[0] == c then rep else [s[0]]) + SubstChar(s[1..], c, rep)
  }

  /** The pairs of `pairs` applied in order, each `replace` working on the result of the previous one. */
  function ReplaceEach(s: string, pairs: seq<(string, string)>): string
    decreases |pairs|
  {
    if pairs == [] then s else ReplaceEach(Replace(s, pairs[0].0, pairs[0].1), pairs[1..])
  }

  /** Appending one more pair to the table runs one more `replace` on the result so far. */
  lemma {:induction false} ReplaceEachSnoc(s: string, pairs: seq<(string, string)>, p: (string, string))
    ensures ReplaceEach(s, pairs + [p]) == Replace(ReplaceEach(s, pairs), p.0, p.1)
    decreases |pairs|
  {
    if pairs == [] {
      assert [] + [p] == [p];
      assert [p][1..] == [];
    } else {
      assert (pairs + [p])[0] == pairs[0];
      assert (pairs + [p])[1..] == pairs[1..] + [p];
      ReplaceEachSnoc(Replace(s, pairs[0].0, pairs[0].1), pairs[1..], p);
    }
  }

  /** A single-character `replace` is the character-by-character substitution. */
  lemma {:induction false} ReplaceOneChar(s: string, c: char, rep: string)
    ensures Replace(s, [c], rep) == SubstChar(s, c, rep)
    decreases |s|
  {
    if s != [] {
      ReplaceOneChar(s[1..], c, rep);
      assert s[..1] == [c] <==> s[0] == c;
      assert s[1..] == s[|[c]|..];
    }
  }

  /** Substitution distributes over concatenation. */
  lemma {:induction false} SubstCharAppend(a: string, b: string, c: char, rep: string)
    ensures SubstChar(a + b, c, rep) == SubstChar(a, c, rep) + SubstChar(b, c, rep)
    decreases |a|
  {
    if a != [] {
      assert (a + b)[0] == a[0];
      assert (a + b)[1..] == a[1..] + b;
      SubstCharAppend(a[1..], b, c, rep);
    } else {
      assert a + b == b;
    }
  }

  /** After substitution a character `d` is present only if it was present before
      (and was not the replaced one) or comes from the replacement. */
  lemma {:induction false} SubstCharChars(s: string, c: char, rep: string, d: char)
    ensures d in SubstChar(s, c, rep) ==> (d in s && d != c) || d in rep
    decreases |s|
  {
    if s != [] {
      SubstCharChars(s[1..], c, rep, d);
      assert SubstChar(s, c, rep) == (if s[0] == c then rep else [s[0]]) + SubstChar(s[1..], c, rep);
    }
  }

  /** Substituting a character that does not occur changes nothing. */
  lemma {:induction false} SubstCharAbsent(s: string, c: char, rep: string)
    requires c !in s
    ensures SubstChar(s, c, rep) == s
    decreases |s|
  {
    if s != [] {
      assert c !in s[1..];
      SubstCharAbsent(s[1..], c, rep);
    }
  }

  /** Every character of `Interleave(s, rep)` comes from `s` or from `rep`. */
  lemma {:induction false} InterleaveChars(s: string, rep: string, d: char)
    ensures d in Interleave(s, rep) ==> d in s || d in rep
    decreases |s|
  {
    if s != [] {
      InterleaveChars(s[1..], rep, d);
    }
  }

  /** `replace` introduces no character beyond those of the subject and of the replacement. */
  lemma {:induction false} ReplaceChars(s: string, pat: string, rep: string, d: char)
    ensures d in Replace(s, pat, rep) ==> d in s || d in rep
    decreases |s|
  {
    if pat == [] {
      InterleaveChars(s, rep, d);
    } else if |s| < |pat| {
    } else if s[..|pat|] == pat {
      ReplaceChars(s[|pat|..], pat, rep, d);
      assert d in s[|pat|..] ==> d in s;
    } else {
      ReplaceChars(s[1..], pat, rep, d);
      assert d in s[1..] ==> d in s;
    }
  }

  /** Replacing a non-empty pattern that does not occur changes nothing. */
  lemma {:induction false} ReplaceAbsent(s: string, pat: string, rep: string)
    requires pat != [] && !Contains(s, pat)
    ensures Replace(s, pat, rep) == s
    decreases |s|
  {
    if |s| >= |pat| {
      assert s[..|pat|] != pat;
      ReplaceAbsent(s[1..], pat, rep);
      assert [s[0]] + s[1..] == s;
    }
  }

  /** A string that contains `sub` contains every character of `sub`. */
  lemma {:induction false} ContainsChars(s: string, sub: string, d: char)
    requires Contains(s, sub) && d in sub
    ensures d in s
    decreases |s|
  {
    if StartsWith(s, sub) {
      assert d in s[..|sub|];
    } else {
      ContainsChars(s[1..], sub, d);
    }
  }

  /** Stripping a string without whitespace at either end changes nothing. */
  lemma StripUnchanged(s: string)
    requires s != [] ==> !IsSpace(s[0]) && !IsSpace(s[|s| - 1])
    ensures Strip(s) == s
  {
  }
}
