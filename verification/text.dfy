/**
 * The ECMAScript string operations the core relies on, over `seq<char>`:
 * `startsWith`, `includes`, `split` on one character, `join`, literal
 * replacement (`replace` with a string pattern and `replace` with a global
 * literal regular expression), `trim`, `toLowerCase` (ASCII letters only) and
 * decimal rendering of a non-negative integer.
 */
module Text {

  /** `s.startsWith(p)` */
  predicate StartsWith(s: string, p: string) {
    |p| <= |s| && s[..|p|] == p
  }

  /** `sub` occurs in `s` at offset `i`. */
  predicate OccursAt(s: string, sub: string, i: int) {
    0 <= i && i + |sub| <= |s| && s[i..i + |sub|] == sub
  }

  /** A string that differs from `p` at some position of `p` does not start with `p`. */
  lemma DifferentAt(s: string, p: string, k: nat)
    requires k < |p| && k < |s| && s[k] != p[k]
    ensures !StartsWith(s, p)
  {
    if |p| <= |s| {
      assert s[..|p|][k] != p[k];
    }
  }

  /** `s.includes(sub)` */
  predicate Contains(s: string, sub: string) {
    exists i :: 0 <= i <= |s| - |sub| && OccursAt(s, sub, i)
  }

  /** A string that contains `a + sub + b` contains `sub`. */
  lemma ContainsInner(s: string, a: string, sub: string, b: string)
    requires Contains(s, a + sub + b)
    ensures Contains(s, sub)
  {
    var w := a + sub + b;
    var i :| 0 <= i <= |s| - |w| && OccursAt(s, w, i);
    assert |w| == |a| + |sub| + |b|;
    forall k | 0 <= k < |sub| ensures s[i + |a| + k] == sub[k] {
      assert s[i..i + |w|][|a| + k] == w[|a| + k];
    }
    assert s[i + |a|..i + |a| + |sub|] == sub;
    assert OccursAt(s, sub, i + |a|);
  }

  /** Index of the first occurrence of `c` in `s`. */
  function FirstIndex(s: string, c: char): (i: nat)
    requires c in s
    ensures i < |s| && s[i] == c && c !in s[..i]
  {
    FirstIndexFrom(s, c, 0)
  }

  /** Index of the first occurrence of `c` in `s` at or after `from`. */
  function FirstIndexFrom(s: string, c: char, from: nat): (i: nat)
    requires from <= |s| && c in s[from..]
    ensures from <= i < |s| && s[i] == c
    ensures forall k :: from <= k < i ==> s[k] != c
    decreases |s| - from
  {
    if s[from] == c then from else FirstIndexFrom(s, c, from + 1)
  }

  lemma FirstIndexOfConcat(a: string, c: char, b: string)
    requires c !in a
    ensures c in a + [c] + b && FirstIndex(a + [c] + b, c) == |a|
  {
    var s := a + [c] + b;
    assert s[|a|] == c;
    var i := FirstIndex(s, c);
    assert s[..|a|] == a;
  }

  /** `s.split(sep)` for a one-character separator. */
  function Split(s: string, sep: char): (parts: seq<string>)
    ensures |parts| >= 1
    ensures forall k :: 0 <= k < |parts| ==> sep !in parts[k]
    decreases |s|
  {
    if sep !in s then [s]
    else
      var i := FirstIndex(s, sep);
      [s[..i]] + Split(s[i + 1..], sep)
  }

  /** `parts.join(sep)` */
  function Join(parts: seq<string>, sep: string): string
  {
    if |parts| == 0 then ""
    else if |parts| == 1 then parts[0]
    else parts[0] + sep + Join(parts[1..], sep)
  }

  /** The first piece of a split is everything before the first separator. */
  lemma SplitFirst(a: string, sep: char, b: string)
    requires sep !in a
    ensures Split(a + [sep] + b, sep)[0] == a
  {
    var s := a + [sep] + b;
    FirstIndexOfConcat(a, sep, b);
    assert s[..|a|] == a;
  }

  /** Splitting at the first separator: the piece before it, then the split of the rest. */
  lemma SplitCons(a: string, sep: char, b: string)
    requires sep !in a
    ensures Split(a + [sep] + b, sep) == [a] + Split(b, sep)
  {
    var s := a + [sep] + b;
    FirstIndexOfConcat(a, sep, b);
    assert s[..|a|] == a;
    assert s[|a| + 1..] == b;
  }

  /** A character in neither the parts nor the separator is not in their join. */
  lemma {:induction false} JoinWithout(parts: seq<string>, sep: string, c: char)
    requires c !in sep
    requires forall k :: 0 <= k < |parts| ==> c !in parts[k]
    ensures c !in Join(parts, sep)
  {
    if |parts| > 1 {
      JoinWithout(parts[1..], sep, c);
    }
  }

  /** Splitting undoes joining when no part contains the separator. */
  lemma {:induction false} SplitJoin(parts: seq<string>, sep: char)
    requires |parts| >= 1
    requires forall k :: 0 <= k < |parts| ==> sep !in parts[k]
    ensures Split(Join(parts, [sep]), sep) == parts
  {
    if |parts| > 1 {
      var rest := Join(parts[1..], [sep]);
      var s := parts[0] + [sep] + rest;
      assert Join(parts, [sep]) == s;
      FirstIndexOfConcat(parts[0], sep, rest);
      assert s[..|parts[0]|] == parts[0];
      assert s[|parts[0]| + 1..] == rest;
      SplitJoin(parts[1..], sep);
    }
  }

  /** The last element of a non-empty sequence. */
  function Last<T>(xs: seq<T>): T
    requires |xs| > 0
  {
    xs[|xs| - 1]
  }

  /** `s.replace(/a/g, b)` for single characters `a` and `b`. */
  function ReplaceChar(s: string, a: char, b: char): (r: string)
    ensures |r| == |s|
    ensures forall k :: 0 <= k < |s| ==> r[k] == if s[k] == a then b else s[k]
  {
    if s == [] then [] else [if s[0] == a then b else s[0]] + ReplaceChar(s[1..], a, b)
  }

  /**
   * `s.replace(/pat/g, rep)` for a literal pattern: every occurrence, left to
   * right, without overlap.
   */
  function ReplaceAll(s: string, pat: string, rep: string): string
    requires |pat| > 0
    decreases |s|
  {
    if s == [] then []
    else if StartsWith(s, pat) then rep + ReplaceAll(s[|pat|..], pat, rep)
    else [s[0]] + ReplaceAll(s[1..], pat, rep)
  }

  /** `s.replace(pat, rep)` with a string pattern: the first occurrence only. */
  function ReplaceFirst(s: string, pat: string, rep: string): string
    requires |pat| > 0
    decreases |s|
  {
    if |s| < |pat| then s
    else if StartsWith(s, pat) then rep + s[|pat|..]
    else [s[0]] + ReplaceFirst(s[1..], pat, rep)
  }

  /** A string that starts with the pattern has its prefix replaced. */
  lemma ReplaceFirstPrefix(s: string, pat: string, rep: string)
    requires |pat| > 0 && StartsWith(s, pat)
    ensures ReplaceFirst(s, pat, rep) == rep + s[|pat|..]
  {
  }

  /** Without an occurrence of the pattern, `replace` changes nothing. */
  lemma {:induction false} ReplaceFirstAbsent(s: string, pat: string, rep: string)
    requires |pat| > 0 && !Contains(s, pat)
    ensures ReplaceFirst(s, pat, rep) == s
  {
    if |s| >= |pat| {
      if StartsWith(s, pat) {
        assert OccursAt(s, pat, 0);
      }
      if !StartsWith(s, pat) {
        if Contains(s[1..], pat) {
          var i :| 0 <= i <= |s[1..]| - |pat| && OccursAt(s[1..], pat, i);
          assert s[i + 1..i + 1 + |pat|] == s[1..][i..i + |pat|];
          assert OccursAt(s, pat, i + 1);
        }
        ReplaceFirstAbsent(s[1..], pat, rep);
      }
    }
  }

  /**
   * The characters ECMAScript counts as WhiteSpace or LineTerminator: what
   * `\s` matches in a regular expression and what `trim` removes.
   */
  predicate IsWhiteSpace(c: char) {
    var n := c as int;
    n == 0x09 || n == 0x0A || n == 0x0B || n == 0x0C || n == 0x0D || n == 0x20
    || n == 0xA0 || n == 0x1680 || (0x2000 <= n <= 0x200A)
    || n == 0x2028 || n == 0x2029 || n == 0x202F || n == 0x205F
    || n == 0x3000 || n == 0xFEFF
  }

  predicate NoWhiteSpace(s: string) {
    forall k :: 0 <= k < |s| ==> !IsWhiteSpace(s[k])
  }

  function TrimStart(s: string): (r: string)
    ensures r == [] || !IsWhiteSpace(r[0])
    ensures |r| <= |s| && r == s[|s| - |r|..]
    ensures forall k :: 0 <= k < |s| - |r| ==> IsWhiteSpace(s[k])
  {
    if s != [] && IsWhiteSpace(s[0]) then TrimStart(s[1..]) else s
  }

  function TrimEnd(s: string): (r: string)
    ensures r == [] || !IsWhiteSpace(r[|r| - 1])
    ensures |r| <= |s| && r == s[..|r|]
    ensures forall k :: |r| <= k < |s| ==> IsWhiteSpace(s[k])
  {
    if s != [] && IsWhiteSpace(s[|s| - 1]) then TrimEnd(s[..|s| - 1]) else s
  }

  /** `s.trim()`: the longest slice of `s` without white space at either end. */
  function Trim(s: string): (r: string)
    ensures r == [] || (!IsWhiteSpace(r[0]) && !IsWhiteSpace(r[|r| - 1]))
  {
    TrimEnd(TrimStart(s))
  }

  /** Trimming keeps a slice of the string, so it adds no character. */
  lemma TrimWithin(s: string, c: char)
    requires c !in s
    ensures c !in Trim(s)
  {
    var t := TrimStart(s);
    assert t == s[|s| - |t|..];
    assert c !in t by {
      forall k | 0 <= k < |t| ensures t[k] != c {
        assert t[k] == s[|s| - |t| + k];
      }
    }
    assert Trim(s) == t[..|Trim(s)|];
  }

  /** Trimming a string that has no white space at all changes nothing. */
  lemma TrimNoWhiteSpace(s: string)
    requires NoWhiteSpace(s)
    ensures Trim(s) == s
  {
  }

  /** Trimming twice is trimming once. */
  lemma TrimIdempotent(s: string)
    ensures Trim(Trim(s)) == Trim(s)
  {
    var r := Trim(s);
    assert TrimStart(r) == r;
  }

  function LowerChar(c: char): char {
    if 'A' <= c <= 'Z' then (c as int + 32) as char else c
  }

  /** `s.toLowerCase()` on ASCII letters; every other character is kept. */
  function AsciiLower(s: string): (r: string)
    ensures |r| == |s|
    ensures forall k :: 0 <= k < |s| ==> r[k] == LowerChar(s[k])
  {
    seq(|s|, k requires 0 <= k < |s| => LowerChar(s[k]))
  }

  predicate IsLower(s: string) {
    forall k :: 0 <= k < |s| ==> !('A' <= s[k] <= 'Z')
  }

  lemma LowerOfLower(s: string)
    requires IsLower(s)
    ensures AsciiLower(s) == s
  {
  }

  /** Lower-casing neither adds nor removes white space, so it commutes with trimming. */
  lemma LowerTrimCommute(s: string)
    ensures AsciiLower(Trim(s)) == Trim(AsciiLower(s))
  {
    LowerTrimStart(s);
    LowerTrimEnd(TrimStart(s));
  }

  lemma LowerIsLower(s: string)
    ensures IsLower(AsciiLower(s))
  {
    var t := AsciiLower(s);
    forall k | 0 <= k < |t| ensures !('A' <= t[k] <= 'Z') {
      assert t[k] == LowerChar(s[k]);
    }
  }

  /** Whatever is trimmed from a lower-cased string is still lower case. */
  lemma SliceIsLower(s: string, i: nat, j: nat)
    requires IsLower(s) && i <= j <= |s|
    ensures IsLower(s[i..j])
  {
    forall k | 0 <= k < j - i ensures !('A' <= s[i..j][k] <= 'Z') {
      assert s[i..j][k] == s[i + k];
    }
  }

  lemma TrimLowerIsLower(s: string)
    ensures IsLower(Trim(AsciiLower(s)))
  {
    var t := AsciiLower(s);
    LowerIsLower(s);
    var u := TrimStart(t);
    SliceIsLower(t, |t| - |u|, |t|);
    assert t[|t| - |u|..|t|] == u;
    var r := TrimEnd(u);
    SliceIsLower(u, 0, |r|);
    assert u[0..|r|] == r;
  }

  /** Lower-casing works character by character, so it distributes over concatenation. */
  lemma LowerConcat(a: string, b: string)
    ensures AsciiLower(a + b) == AsciiLower(a) + AsciiLower(b)
  {
    var l := AsciiLower(a + b);
    var r := AsciiLower(a) + AsciiLower(b);
    forall k | 0 <= k < |l| ensures l[k] == r[k] {
      if k < |a| {
        assert (a + b)[k] == a[k];
      } else {
        assert (a + b)[k] == b[k - |a|];
      }
    }
  }

  /** White space has no letters to lower. */
  lemma LowerWhiteSpace(w: string)
    requires forall k :: 0 <= k < |w| ==> IsWhiteSpace(w[k])
    ensures AsciiLower(w) == w
  {
    assert IsLower(w) by {
      forall k | 0 <= k < |w| ensures !('A' <= w[k] <= 'Z') {
        assert IsWhiteSpace(w[k]);
      }
    }
    LowerOfLower(w);
  }

  lemma {:induction false} TrimStartWhiteSpacePrefix(w: string, x: string)
    requires forall k :: 0 <= k < |w| ==> IsWhiteSpace(w[k])
    ensures TrimStart(w + x) == TrimStart(x)
    decreases |w|
  {
    if w == [] {
      assert w + x == x;
    } else {
      var y := w + x;
      assert y[0] == w[0] && IsWhiteSpace(w[0]);
      assert y[1..] == w[1..] + x;
      var u := w[1..];
      forall k | 0 <= k < |u| ensures IsWhiteSpace(u[k]) {
        assert u[k] == w[k + 1];
      }
      TrimStartWhiteSpacePrefix(w[1..], x);
    }
  }

  lemma {:induction false} TrimEndWhiteSpaceSuffix(x: string, w: string)
    requires forall k :: 0 <= k < |w| ==> IsWhiteSpace(w[k])
    ensures TrimEnd(x + w) == TrimEnd(x)
    decreases |w|
  {
    if w == [] {
      assert x + w == x;
    } else {
      var y := x + w;
      assert y[|y| - 1] == w[|w| - 1] && IsWhiteSpace(w[|w| - 1]);
      assert y[..|y| - 1] == x + w[..|w| - 1];
      var u := w[..|w| - 1];
      forall k | 0 <= k < |u| ensures IsWhiteSpace(u[k]) {
        assert u[k] == w[k];
      }
      TrimEndWhiteSpaceSuffix(x, w[..|w| - 1]);
    }
  }

  /** Trimming the front leaves a white-space tail where it was, unless nothing but white space remains. */
  lemma {:induction false} TrimStartAppend(x: string, w: string)
    requires forall k :: 0 <= k < |w| ==> IsWhiteSpace(w[k])
    ensures TrimStart(x) != [] ==> TrimStart(x + w) == TrimStart(x) + w
    ensures TrimStart(x) == [] ==> TrimStart(x + w) == []
    decreases |x|
  {
    if x == [] {
      TrimStartWhiteSpacePrefix(w, []);
      assert w + [] == w;
    } else {
      assert (x + w)[0] == x[0];
      assert (x + w)[1..] == x[1..] + w;
      if IsWhiteSpace(x[0]) {
        TrimStartAppend(x[1..], w);
      }
    }
  }

  /** White space around a string does not change what trimming leaves. */
  lemma TrimPadding(before: string, x: string, after: string)
    requires forall k :: 0 <= k < |before| ==> IsWhiteSpace(before[k])
    requires forall k :: 0 <= k < |after| ==> IsWhiteSpace(after[k])
    ensures Trim(before + x + after) == Trim(x)
  {
    assert before + x + after == before + (x + after);
    TrimStartWhiteSpacePrefix(before, x + after);
    TrimStartAppend(x, after);
    if TrimStart(x) != [] {
      TrimEndWhiteSpaceSuffix(TrimStart(x), after);
    }
  }

  lemma {:induction false} LowerTrimStart(s: string)
    ensures AsciiLower(TrimStart(s)) == TrimStart(AsciiLower(s))
    decreases |s|
  {
    if s != [] {
      var t := AsciiLower(s);
      assert t[0] == LowerChar(s[0]);
      assert IsWhiteSpace(t[0]) == IsWhiteSpace(s[0]);
      assert t[1..] == AsciiLower(s[1..]);
      if IsWhiteSpace(s[0]) {
        LowerTrimStart(s[1..]);
      }
    }
  }

  lemma {:induction false} LowerTrimEnd(s: string)
    ensures AsciiLower(TrimEnd(s)) == TrimEnd(AsciiLower(s))
    decreases |s|
  {
    var t := AsciiLower(s);
    if s != [] && IsWhiteSpace(s[|s| - 1]) {
      var s', t' := s[..|s| - 1], t[..|s| - 1];
      assert t[|s| - 1] == s[|s| - 1];
      assert t' == AsciiLower(s');
      assert TrimEnd(s) == TrimEnd(s');
      assert TrimEnd(t) == TrimEnd(t');
      LowerTrimEnd(s');
    } else if s != [] {
      assert t[|s| - 1] == LowerChar(s[|s| - 1]);
      assert !IsWhiteSpace(t[|s| - 1]);
    }
  }

  function DigitChar(d: nat): char
    requires d < 10
  {
    ('0' as int + d) as char
  }

  /** The decimal rendering of `n`, as `String(n)` gives it. */
  function NatToString(n: nat): (r: string)
    ensures |r| >= 1
    ensures forall k :: 0 <= k < |r| ==> '0' <= r[k] <= '9'
  {
    if n < 10 then [DigitChar(n)] else NatToString(n / 10) + [DigitChar(n % 10)]
  }
}
