/**
 * String helpers with JavaScript semantics: `String.prototype.trim`,
 * UTF-16 `length`, `Array.prototype.join`, ASCII case folding, substring
 * search and the code-unit order used by `<` on strings.
 */
module Text {

  /** The characters `String.prototype.trim` strips: WhiteSpace and LineTerminator of ECMA-262. */
  predicate IsSpace(c: char) {
    || c == ' ' || c == '\t' || c == '\n' || c == '\U{000B}' || c == '\U{000C}' || c == '\r'
    || c == '\U{00A0}' || c == '\U{1680}' || ('\U{2000}' <= c <= '\U{200A}')
    || c == '\U{2028}' || c == '\U{2029}' || c == '\U{202F}' || c == '\U{205F}'
    || c == '\U{3000}' || c == '\U{FEFF}'
  }

  predicate AllSpace(s: string) {
    forall i :: 0 <= i < |s| ==> IsSpace(s[i])
  }

  /** Drops leading white space; the result is the suffix that starts at the first non-space. */
  function TrimStart(s: string): (r: string)
    ensures |r| <= |s| && r == s[|s| - |r|..]
    ensures AllSpace(s[..|s| - |r|])
    ensures r == [] || !IsSpace(r[0])
  {
    if |s| > 0 && IsSpace(s[0]) then
      var r := TrimStart(s[1..]);
      DropLeadingSpace(s, r);
      r
    else s
  }

  /** Drops trailing white space; the result is the prefix that ends at the last non-space. */
  function TrimEnd(s: string): (r: string)
    ensures |r| <= |s| && r == s[..|r|]
    ensures AllSpace(s[|r|..])
    ensures r == [] || !IsSpace(r[|r| - 1])
  {
    if |s| > 0 && IsSpace(s[|s| - 1]) then
      var r := TrimEnd(s[..|s| - 1]);
      DropTrailingSpace(s, r);
      r
    else s
  }

  /** The step of `TrimStart`: a suffix of `s[1..]` past its leading white space is one of `s` when `s[0]` is white space. */
  lemma DropLeadingSpace(s: string, r: string)
    requires 0 < |s| && IsSpace(s[0]) && |r| < |s|
    requires r == s[1..][|s| - 1 - |r|..] && AllSpace(s[1..][..|s| - 1 - |r|])
    ensures r == s[|s| - |r|..] && AllSpace(s[..|s| - |r|])
  {
    assert s[1..][|s| - 1 - |r|..] == s[|s| - |r|..];
    var cut := s[..|s| - |r|];
    forall i | 0 < i < |cut| ensures IsSpace(cut[i]) {
      assert cut[i] == s[1..][..|s| - 1 - |r|][i - 1];
    }
  }

  /** The step of `TrimEnd`: a prefix of `s[..|s| - 1]` before its trailing white space is one of `s` when the last character is white space. */
  lemma DropTrailingSpace(s: string, r: string)
    requires 0 < |s| && IsSpace(s[|s| - 1]) && |r| < |s|
    requires r == s[..|s| - 1][..|r|] && AllSpace(s[..|s| - 1][|r|..])
    ensures r == s[..|r|] && AllSpace(s[|r|..])
  {
    assert s[..|s| - 1][..|r|] == s[..|r|];
    var cut := s[|r|..];
    forall i | 0 <= i < |cut| - 1 ensures IsSpace(cut[i]) {
      assert cut[i] == s[..|s| - 1][|r|..][i];
    }
  }

  /** `s.trim()`; `TrimIsSlice` and `TrimmedTrim` state what it returns. */
  function Trim(s: string): string {
    TrimEnd(TrimStart(s))
  }

  /** `s.trim() === ""`, stated as "every character is white space" (see `BlankIffTrimEmpty`). */
  predicate IsBlank(s: string) {
    AllSpace(s)
  }

  /** No white space at either end: the form `trim()` leaves a string in. */
  predicate Trimmed(s: string) {
    s == [] || (!IsSpace(s[0]) && !IsSpace(s[|s| - 1]))
  }

  /** A string is trimmed exactly when trimming leaves it as it is. */
  lemma TrimmedIff(s: string)
    ensures Trimmed(s) <==> Trim(s) == s
  {
    var _, _ := TrimIsSlice(s);
    if Trimmed(s) && s != [] {
      assert TrimStart(s) == s;
      assert TrimEnd(s) == s;
    }
  }

  /** Whatever `trim()` returns is trimmed. */
  lemma TrimmedTrim(s: string)
    ensures Trimmed(Trim(s))
  {
    var _, _ := TrimIsSlice(s);
  }

  /** The result of trimming is a slice of the input, with only white space cut at either end. */
  lemma {:induction false} TrimIsSlice(s: string) returns (i: nat, j: nat)
    ensures i <= j <= |s| && Trim(s) == s[i..j]
    ensures AllSpace(s[..i]) && AllSpace(s[j..])
    ensures Trim(s) == [] || (!IsSpace(Trim(s)[0]) && !IsSpace(Trim(s)[|Trim(s)| - 1]))
  {
    var a := TrimStart(s);
    var b := TrimEnd(a);
    i := |s| - |a|;
    j := i + |b|;
    SliceOfSuffix(s, a, b);
  }

  /** A prefix `b` of a suffix `a` of `s`, with only white space around it, is such a slice of `s`. */
  lemma SliceOfSuffix(s: string, a: string, b: string)
    requires |a| <= |s| && a == s[|s| - |a|..] && AllSpace(s[..|s| - |a|])
    requires |b| <= |a| && b == a[..|b|] && AllSpace(a[|b|..])
    requires a == [] || !IsSpace(a[0])
    requires b == [] || !IsSpace(b[|b| - 1])
    ensures b == s[|s| - |a|..|s| - |a| + |b|]
    ensures AllSpace(s[|s| - |a| + |b|..])
    ensures b == [] || (!IsSpace(b[0]) && !IsSpace(b[|b| - 1]))
  {
    assert s[|s| - |a| + |b|..] == a[|b|..];
    if b != [] {
      assert b[0] == a[0];
    }
  }

  /** Trimming twice is trimming once. */
  lemma TrimIdempotent(s: string)
    ensures Trim(Trim(s)) == Trim(s)
  {
    var t := Trim(s);
    var _, _ := TrimIsSlice(s);
    if t != [] {
      assert TrimStart(t) == t;
      assert TrimEnd(t) == t;
    }
  }

  /** A string is blank exactly when trimming leaves nothing. */
  lemma BlankIffTrimEmpty(s: string)
    ensures IsBlank(s) <==> Trim(s) == []
  {
    var i, j := TrimIsSlice(s);
    if Trim(s) == [] {
      assert s == s[..i] + s[j..];
      forall k | 0 <= k < |s| ensures IsSpace(s[k]) {
        if k < i { assert s[k] == s[..i][k]; } else { assert s[k] == s[j..][k - j]; }
      }
    } else {
      assert !IsSpace(s[i]);
    }
  }

  /** A non-blank string keeps a non-empty trimmed form. */
  lemma TrimNonBlank(s: string)
    requires !IsBlank(s)
    ensures Trim(s) != [] && !IsBlank(Trim(s))
  {
    BlankIffTrimEmpty(s);
    TrimIdempotent(s);
    BlankIffTrimEmpty(Trim(s));
  }

  /** `s.length`: UTF-16 code units, two for a character outside the Basic Multilingual Plane. */
  function CodeUnits(s: string): (n: nat)
    ensures |s| <= n <= 2 * |s|
  {
    if s == [] then 0 else (if s[0] as int > 0xFFFF then 2 else 1) + CodeUnits(s[1..])
  }

  lemma {:induction false} CodeUnitsAppend(a: string, b: string)
    ensures CodeUnits(a + b) == CodeUnits(a) + CodeUnits(b)
  {
    if a != [] {
      assert (a + b)[0] == a[0];
      assert (a + b)[1..] == a[1..] + b;
      CodeUnitsAppend(a[1..], b);
    } else {
      assert a + b == b;
    }
  }

  /** A slice is never longer, in code units, than the string it is cut from. */
  lemma CodeUnitsSlice(s: string, i: nat, j: nat)
    requires i <= j <= |s|
    ensures CodeUnits(s[i..j]) <= CodeUnits(s)
  {
    CodeUnitsSplit(s, j);
    CodeUnitsSplit(s[..j], i);
    assert s[..j][i..] == s[i..j];
  }

  /** Cutting a string in two splits its code units between the parts. */
  lemma CodeUnitsSplit(s: string, k: nat)
    requires k <= |s|
    ensures CodeUnits(s[..k]) + CodeUnits(s[k..]) == CodeUnits(s)
  {
    assert s[..k] + s[k..] == s;
    CodeUnitsAppend(s[..k], s[k..]);
  }

  /** Trimming never lengthens a string. */
  lemma TrimCodeUnits(s: string)
    ensures CodeUnits(Trim(s)) <= CodeUnits(s)
  {
    var i, j := TrimIsSlice(s);
    CodeUnitsSlice(s, i, j);
  }

  /** `xs.join(sep)`. */
  function Join(xs: seq<string>, sep: string): (r: string)
    ensures xs == [] ==> r == []
    ensures xs != [] ==> xs[0] <= r
    ensures |xs| == 1 ==> r == xs[0]
  {
    if xs == [] then []
    else if |xs| == 1 then xs[0]
    else xs[0] + sep + Join(xs[1..], sep)
  }

  /** The summed lengths of the items. */
  function TotalLength(xs: seq<string>): nat {
    if xs == [] then 0 else |xs[0]| + TotalLength(xs[1..])
  }

  /** A join is as long as its items together plus one separator between each neighbouring pair. */
  lemma {:induction false} JoinLength(xs: seq<string>, sep: string)
    ensures |Join(xs, sep)| == if xs == [] then 0 else TotalLength(xs) + (|xs| - 1) * |sep|
  {
    if |xs| >= 2 {
      JoinLength(xs[1..], sep);
    }
  }

  /** `p` occurs in `s` at offset `i`. */
  predicate OccursAt(s: string, p: string, i: int) {
    0 <= i && i + |p| <= |s| && s[i..i + |p|] == p
  }

  /** `s.includes(p)`, computed by scanning. */
  function Contains(s: string, p: string): (b: bool)
    ensures b <==> exists i :: OccursAt(s, p, i)
  {
    if |p| <= |s| && s[..|p|] == p then
      assert OccursAt(s, p, 0);
      true
    else if s == [] then
      assert forall i :: !OccursAt(s, p, i);
      false
    else
      var b := Contains(s[1..], p);
      assert !OccursAt(s, p, 0);
      assert b ==> exists i :: OccursAt(s, p, i) by {
        if b {
          var i :| OccursAt(s[1..], p, i);
          assert s[i + 1..i + 1 + |p|] == s[1..][i..i + |p|];
          assert OccursAt(s, p, i + 1);
        }
      }
      assert (exists i :: OccursAt(s, p, i)) ==> b by {
        if exists i :: OccursAt(s, p, i) {
          var i :| OccursAt(s, p, i);
          assert i != 0;
          assert s[1..][i - 1..i - 1 + |p|] == s[i..i + |p|];
          assert OccursAt(s[1..], p, i - 1);
        }
      }
      b
  }

  /** Every element of a joined list occurs in the joined string. */
  lemma {:induction false} JoinContainsEach(xs: seq<string>, sep: string, k: nat)
    requires k < |xs|
    ensures Contains(Join(xs, sep), xs[k])
  {
    var r := Join(xs, sep);
    if |xs| == 1 {
      assert OccursAt(r, xs[0], 0);
    } else if k == 0 {
      assert r[0..|xs[0]|] == xs[0];
      assert OccursAt(r, xs[0], 0);
    } else {
      JoinContainsEach(xs[1..], sep, k - 1);
      var rest := Join(xs[1..], sep);
      var i :| OccursAt(rest, xs[k], i);
      var off := |xs[0] + sep|;
      assert r == (xs[0] + sep) + rest;
      assert r[off + i..off + i + |xs[k]|] == rest[i..i + |xs[k]|];
      assert OccursAt(r, xs[k], off + i);
    }
  }

  /** ASCII upper-to-lower folding (the folding the "i" regex flag applies to ASCII letters). */
  function LowerChar(c: char): (d: char)
    ensures 'A' <= c <= 'Z' ==> d as int == c as int + 32
    ensures !('A' <= c <= 'Z') ==> d == c
  {
    if 'A' <= c <= 'Z' then (c as int + 32) as char else c
  }

  function Lower(s: string): (r: string)
    ensures |r| == |s|
    ensures forall i :: 0 <= i < |s| ==> r[i] == LowerChar(s[i])
  {
    seq(|s|, i requires 0 <= i < |s| => LowerChar(s[i]))
  }

  /** Folding twice is folding once. */
  lemma LowerIdempotent(s: string)
    ensures Lower(Lower(s)) == Lower(s)
  {
    assert forall i :: 0 <= i < |s| ==> LowerChar(LowerChar(s[i])) == LowerChar(s[i]);
  }

  /** Case-insensitive (ASCII) substring test. */
  predicate ContainsIgnoreCase(s: string, p: string) {
    Contains(Lower(s), Lower(p))
  }

  /** `a < b` on JavaScript strings: lexicographic by code unit, a proper prefix first. */
  predicate LexLess(a: string, b: string) {
    if b == [] then false
    else if a == [] then true
    else if a[0] != b[0] then a[0] < b[0]
    else LexLess(a[1..], b[1..])
  }
}
