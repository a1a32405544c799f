/**
 * The JavaScript string operations the scripts rely on, on `seq<char>`:
 * ASCII case mapping, the `\s` character class, `trim`, `/\s+/g` collapsing,
 * `includes`/`indexOf`, `replace` with a string (first occurrence) and with a
 * literal global pattern, `split` on one character, `padStart`, and decimal
 * printing and parsing of numbers.
 */
module Strings {
  import opened Wrappers

  // ---------------------------------------------------------------- characters

  /** The ECMAScript WhiteSpace and LineTerminator characters: what `\s` and `trim` use. */
  predicate IsSpace(c: char) {
    c == ' ' || c == '\t' || c == '\n' || c == '\r' || c == '\U{B}' || c == '\U{C}'
    || c == '\U{A0}' || c == '\U{1680}' || ('\U{2000}' <= c <= '\U{200A}')
    || c == '\U{2028}' || c == '\U{2029}' || c == '\U{202F}' || c == '\U{205F}'
    || c == '\U{3000}' || c == '\U{FEFF}'
  }

  predicate IsDigit(c: char) { '0' <= c <= '9' }

  predicate IsAsciiLetter(c: char) { 'a' <= c <= 'z' || 'A' <= c <= 'Z' }

  /** The class `[a-z0-9]` under the `i` flag. */
  predicate IsAsciiAlnum(c: char) { IsAsciiLetter(c) || IsDigit(c) }

  function Lower(c: char): char {
    if 'A' <= c <= 'Z' then (c as int + 32) as char else c
  }

  function Upper(c: char): char {
    if 'a' <= c <= 'z' then (c as int - 32) as char else c
  }

  /** `toLowerCase`, on the ASCII letters. */
  function ToLower(s: string): (r: string)
    ensures |r| == |s| && forall i :: 0 <= i < |s| ==> r[i] == Lower(s[i])
  {
    seq(|s|, i requires 0 <= i < |s| => Lower(s[i]))
  }

  /** `toUpperCase`, on the ASCII letters. */
  function ToUpper(s: string): (r: string)
    ensures |r| == |s| && forall i :: 0 <= i < |s| ==> r[i] == Upper(s[i])
  {
    seq(|s|, i requires 0 <= i < |s| => Upper(s[i]))
  }

  // ------------------------------------------------------------- substrings

  predicate OccursAt(s: string, pat: string, i: int) {
    0 <= i && i + |pat| <= |s| && s[i..i + |pat|] == pat
  }

  /** `s.startsWith(p)`. */
  predicate StartsWith(s: string, p: string) {
    |p| <= |s| && s[..|p|] == p
  }

  /** `s.endsWith(p)`. */
  predicate EndsWith(s: string, p: string) {
    |p| <= |s| && s[|s| - |p|..] == p
  }

  lemma StartsWithJoin(a: string, b: string, c: string)
    ensures StartsWith(a + b + c, a + b) && StartsWith(a + b, a)
  {
    assert (a + b + c)[..|a + b|] == a + b;
    assert (a + b)[..|a|] == a;
  }

  lemma StartsWithLonger(s: string, p: string, t: string)
    requires StartsWith(s, p)
    ensures StartsWith(s + t, p)
  {
    assert (s + t)[..|p|] == s[..|p|];
  }

  /** Two texts that part ways right after a common prefix. */
  lemma StartsWithDiffers(p: string, y: string, q: string)
    requires y != [] && q != [] && y[0] != q[0]
    ensures !StartsWith(p + y, p + q)
  {
    assert (p + y)[|p|] == y[0];
    assert (p + q)[|p|] == q[0];
  }

  lemma EndsWithJoin(a: string, b: string)
    ensures EndsWith(a + b, b)
  {
    assert (a + b)[|a|..] == b;
  }

  lemma EndsWithTail(p: string, x: string, y: string)
    ensures EndsWith(p + x + y, x + y)
  {
    assert p + x + y == p + (x + y);
    EndsWithJoin(p, x + y);
  }

  lemma EndsWithTail3(p: string, x: string, y: string, z: string)
    ensures EndsWith(p + x + y + z, x + y + z)
  {
    assert p + x + y + z == p + (x + y + z);
    EndsWithJoin(p, x + y + z);
  }

  lemma ConcatAt(a: string, v: string)
    ensures (a + v)[..|a|] == a && (a + v)[|a|..] == v
    ensures forall i :: 0 <= i < |v| ==> (a + v)[|a| + i] == v[i]
  {
  }

  /** Positions in a suffix of `s` are positions in `s`, shifted. */
  lemma SuffixFacts(s: string, j: nat, u: string, x: nat, y: nat)
    requires j <= |s| && s[j..] == u && x < |u| && y <= |u|
    ensures s[j + x] == u[x] && s[j + x..] == u[x..] && s[j..j + y] == u[..y]
  {
  }

  /** `s.indexOf(pat, from)`: the first occurrence at or after `from`. */
  function IndexOfFrom(s: string, pat: string, from: nat): (r: Option<nat>)
    ensures r.Some? ==> from <= r.value && OccursAt(s, pat, r.value)
    ensures r.Some? ==> forall j :: from <= j < r.value ==> !OccursAt(s, pat, j)
    ensures r.None? ==> forall j :: from <= j ==> !OccursAt(s, pat, j)
    decreases |s| - from
  {
    if from + |pat| > |s| then None
    else if s[from..from + |pat|] == pat then Some(from)
    else IndexOfFrom(s, pat, from + 1)
  }

  function IndexOf(s: string, pat: string): (r: Option<nat>)
    ensures r.Some? ==> OccursAt(s, pat, r.value)
    ensures r.Some? ==> forall j :: 0 <= j < r.value ==> !OccursAt(s, pat, j)
    ensures r.None? ==> forall j :: !OccursAt(s, pat, j)
  {
    IndexOfFrom(s, pat, 0)
  }

  /** `s.includes(pat)`. */
  predicate Contains(s: string, pat: string) {
    IndexOf(s, pat).Some?
  }

  lemma ContainsAt(s: string, pat: string, i: int)
    requires OccursAt(s, pat, i)
    ensures Contains(s, pat)
  {
  }

  lemma ContainsPrefix(s: string, pat: string, rest: string)
    requires s == pat + rest
    ensures Contains(s, pat)
  {
    assert OccursAt(s, pat, 0);
  }

  /** `s.replace(pat, rep)` with a string pattern: only the first occurrence is replaced. */
  function ReplaceFirst(s: string, pat: string, rep: string): (r: string)
    ensures !Contains(s, pat) ==> r == s
    ensures Contains(s, pat) ==>
      var k := IndexOf(s, pat).value;
      r == s[..k] + rep + s[k + |pat|..]
  {
    match IndexOf(s, pat)
    case None => s
    case Some(k) => s[..k] + rep + s[k + |pat|..]
  }

  /** Equality of two equally long strings, optionally up to ASCII case. */
  predicate SameText(a: string, b: string, ignoreCase: bool) {
    if ignoreCase then ToLower(a) == ToLower(b) else a == b
  }

  /** The empty pattern under the `g` flag matches before every character and at the end. */
  function InterleaveEmpty(s: string, rep: string): (r: string)
    ensures |r| == |s| + (|s| + 1) * |rep|
    decreases |s|
  {
    if s == [] then rep else rep + [s[0]] + InterleaveEmpty(s[1..], rep)
  }

  /**
   * `s.replace(new RegExp(pat, flags), rep)` where `flags` holds `g` (and `i` when
   * `ignoreCase`) and `pat` has no regular-expression metacharacters: matches are
   * found left to right and do not overlap.
   */
  function ReplaceAllWith(s: string, pat: string, rep: string, ignoreCase: bool): string
    decreases |s|
  {
    if pat == [] then InterleaveEmpty(s, rep)
    else if |s| < |pat| then s
    else if SameText(s[..|pat|], pat, ignoreCase) then rep + ReplaceAllWith(s[|pat|..], pat, rep, ignoreCase)
    else [s[0]] + ReplaceAllWith(s[1..], pat, rep, ignoreCase)
  }

  function ReplaceAll(s: string, pat: string, rep: string): string {
    ReplaceAllWith(s, pat, rep, false)
  }

  /** A non-empty pattern that does not occur leaves the text as it was. */
  lemma {:induction false} ReplaceAllAbsent(s: string, pat: string, rep: string)
    requires pat != [] && !Contains(s, pat)
    ensures ReplaceAll(s, pat, rep) == s
    decreases |s|
  {
    if |s| >= |pat| {
      assert !OccursAt(s, pat, 0);
      assert s[..|pat|] != pat;
      forall j ensures !OccursAt(s[1..], pat, j) {
        if OccursAt(s[1..], pat, j) {
          assert s[1..][j..j + |pat|] == s[j + 1..j + 1 + |pat|];
          assert OccursAt(s, pat, j + 1);
        }
      }
      ReplaceAllAbsent(s[1..], pat, rep);
    }
  }

  /** A text that is exactly the pattern becomes exactly the replacement. */
  lemma ReplaceAllWhole(pat: string, rep: string)
    requires pat != []
    ensures ReplaceAll(pat, pat, rep) == rep
  {
    assert pat[..|pat|] == pat;
    assert pat[|pat|..] == [];
    assert ReplaceAllWith([], pat, rep, false) == [];
  }

  /** An occurrence in the tail of a text is an occurrence one place further on in the text. */
  lemma OccursInTail(s: string, pat: string, j: int)
    requires s != [] && OccursAt(s[1..], pat, j)
    ensures OccursAt(s, pat, j + 1)
  {
    assert s[1..][j..j + |pat|] == s[j + 1..j + 1 + |pat|];
  }

  /** A prefix in which the pattern starts nowhere is kept as it is, and the scan goes on after it. */
  lemma {:induction false} ReplaceAllAfterPrefix(before: string, rest: string, pat: string, rep: string)
    requires pat != []
    requires forall j :: 0 <= j < |before| ==> !OccursAt(before + rest, pat, j)
    ensures ReplaceAll(before + rest, pat, rep) == before + ReplaceAll(rest, pat, rep)
    decreases |before|
  {
    var s := before + rest;
    if before == [] {
      assert s == rest;
    } else {
      assert !OccursAt(s, pat, 0);
      assert s[1..] == before[1..] + rest;
      forall j | 0 <= j < |before| - 1
        ensures !OccursAt(before[1..] + rest, pat, j)
      {
        if OccursAt(before[1..] + rest, pat, j) {
          OccursInTail(s, pat, j);
        }
      }
      ReplaceAllAfterPrefix(before[1..], rest, pat, rep);
      if |s| >= |pat| {
        assert s[..|pat|] != pat;
      } else {
        ReplaceAllAbsent(rest, pat, rep);
      }
    }
  }

  /**
   * A text whose only occurrence of the pattern is the one after `before`
   * has exactly that occurrence replaced.
   */
  lemma ReplaceAllOnce(before: string, after: string, pat: string, rep: string)
    requires pat != []
    requires IndexOf(before + pat + after, pat) == Some(|before|)
    requires !Contains(after, pat)
    ensures ReplaceAll(before + pat + after, pat, rep) == before + rep + after
  {
    assert before + pat + after == before + (pat + after);
    ReplaceAllAfterPrefix(before, pat + after, pat, rep);
    assert (pat + after)[..|pat|] == pat;
    assert (pat + after)[|pat|..] == after;
    ReplaceAllAbsent(after, pat, rep);
  }

  /** Replacing every newline by the two characters `\` `n`. */
  lemma {:induction false} ReplaceNewlines(s: string)
    ensures '\n' !in ReplaceAll(s, "\n", "\\n")
    ensures |ReplaceAll(s, "\n", "\\n")| == |s| + Count(s, '\n')
    decreases |s|
  {
    if s != [] {
      ReplaceNewlines(s[1..]);
      assert s[..1] == [s[0]];
      assert |"\n"| == 1;
      if s[0] == '\n' {
        assert ReplaceAll(s, "\n", "\\n") == "\\n" + ReplaceAll(s[1..], "\n", "\\n");
      } else {
        assert ReplaceAll(s, "\n", "\\n") == [s[0]] + ReplaceAll(s[1..], "\n", "\\n");
      }
    }
  }

  function Count(s: string, c: char): nat
    decreases |s|
  {
    if s == [] then 0 else (if s[0] == c then 1 else 0) + Count(s[1..], c)
  }

  lemma CountAppend(a: string, b: string, c: char)
    ensures Count(a + b, c) == Count(a, c) + Count(b, c)
  {
    if a != [] {
      assert (a + b)[1..] == a[1..] + b;
      CountAppend(a[1..], b, c);
    } else {
      assert a + b == b;
    }
  }

  // ------------------------------------------------------------ whitespace

  function TrimStart(s: string): (r: string)
    ensures |r| <= |s| && r == s[|s| - |r|..]
    ensures forall i :: 0 <= i < |s| - |r| ==> IsSpace(s[i])
    ensures r != [] ==> !IsSpace(r[0])
    decreases |s|
  {
    if s != [] && IsSpace(s[0]) then TrimStart(s[1..]) else s
  }

  function TrimEnd(s: string): (r: string)
    ensures |r| <= |s| && r == s[..|r|]
    ensures forall i :: |r| <= i < |s| ==> IsSpace(s[i])
    ensures r != [] ==> !IsSpace(r[|r| - 1])
    decreases |s|
  {
    if s != [] && IsSpace(s[|s| - 1]) then TrimEnd(s[..|s| - 1]) else s
  }

  /** `s.trim()`: the text without leading and trailing white space. */
  function Trim(s: string): (r: string)
    ensures r != [] ==> !IsSpace(r[0]) && !IsSpace(r[|r| - 1])
    ensures |r| <= |s|
    ensures (forall i :: 0 <= i < |s| ==> IsSpace(s[i])) <==> r == []
  {
    var t := TrimStart(s);
    var r := TrimEnd(t);
    assert r != [] ==> r[0] == t[0];
    assert r == [] ==> t == [];
    r
  }

  /** Every white-space character in a non-empty text is removed by `trim` or kept. */
  function DropSpaces(s: string): (r: string)
    ensures |r| <= |s| && (r != [] ==> !IsSpace(r[0]))
    ensures r == s[|s| - |r|..]
    decreases |s|
  {
    if s != [] && IsSpace(s[0]) then DropSpaces(s[1..]) else s
  }

  /** `s.replace(/\s+/g, ' ')`: every run of white space becomes one space. */
  function Collapse(s: string): (r: string)
    ensures forall i :: 0 <= i < |r| && IsSpace(r[i]) ==> r[i] == ' '
    ensures forall i :: 0 <= i < |r| - 1 ==> !(IsSpace(r[i]) && IsSpace(r[i + 1]))
    ensures r != [] && s != [] ==> (IsSpace(r[0]) <==> IsSpace(s[0]))
    ensures s == [] <==> r == []
    decreases |s|
  {
    if s == [] then []
    else if IsSpace(s[0]) then [' '] + Collapse(DropSpaces(s))
    else [s[0]] + Collapse(s[1..])
  }

  /** `s.replace(/\s+/g, ' ').trim()`: white space reduced to single inner spaces. */
  function Normalize(s: string): (r: string)
    ensures forall i :: 0 <= i < |r| && IsSpace(r[i]) ==> r[i] == ' '
    ensures forall i :: 0 <= i < |r| - 1 ==> !(IsSpace(r[i]) && IsSpace(r[i + 1]))
    ensures r != [] ==> !IsSpace(r[0]) && !IsSpace(r[|r| - 1])
  {
    var c := Collapse(s);
    var t := TrimStart(c);
    var r := TrimEnd(t);
    NormalizeSlice(c, t, r);
    r
  }

  lemma NormalizeSlice(c: string, t: string, r: string)
    requires forall i :: 0 <= i < |c| && IsSpace(c[i]) ==> c[i] == ' '
    requires forall i :: 0 <= i < |c| - 1 ==> !(IsSpace(c[i]) && IsSpace(c[i + 1]))
    requires |t| <= |c| && t == c[|c| - |t|..] && |r| <= |t| && r == t[..|r|]
    ensures forall i :: 0 <= i < |r| && IsSpace(r[i]) ==> r[i] == ' '
    ensures forall i :: 0 <= i < |r| - 1 ==> !(IsSpace(r[i]) && IsSpace(r[i + 1]))
  {
    var a := |c| - |t|;
    assert r == c[a..a + |r|];
    SliceSpacing(c, a, a + |r|);
  }

  /** A slice of a collapsed text is still collapsed. */
  lemma SliceSpacing(c: string, a: nat, b: nat)
    requires a <= b <= |c|
    requires forall i :: 0 <= i < |c| && IsSpace(c[i]) ==> c[i] == ' '
    requires forall i :: 0 <= i < |c| - 1 ==> !(IsSpace(c[i]) && IsSpace(c[i + 1]))
    ensures var r := c[a..b];
      (forall i :: 0 <= i < |r| && IsSpace(r[i]) ==> r[i] == ' ')
      && (forall i :: 0 <= i < |r| - 1 ==> !(IsSpace(r[i]) && IsSpace(r[i + 1])))
  {
    var r := c[a..b];
    forall i | 0 <= i < |r| - 1 ensures !(IsSpace(r[i]) && IsSpace(r[i + 1])) {
      assert r[i] == c[a + i] && r[i + 1] == c[a + i + 1];
    }
  }

  /** The longest prefix of `s` whose characters satisfy `p`. */
  function Run(s: string, p: char -> bool): (n: nat)
    ensures n <= |s| && (forall i :: 0 <= i < n ==> p(s[i])) && (n < |s| ==> !p(s[n]))
    decreases |s|
  {
    if s != [] && p(s[0]) then 1 + Run(s[1..], p) else 0
  }

  /** A run of `p` characters followed by one that is not `p`, or by nothing. */
  lemma {:induction false} RunOf(x: string, y: string, p: char -> bool)
    requires forall i :: 0 <= i < |x| ==> p(x[i])
    requires y == [] || !p(y[0])
    ensures Run(x + y, p) == |x|
    decreases |x|
  {
    if x != [] {
      assert (x + y)[1..] == x[1..] + y;
      RunOf(x[1..], y, p);
    } else {
      assert x + y == y;
    }
  }

  // ---------------------------------------------------------- split and join

  /** `s.split(sep)` for a one-character separator. */
  function Split(s: string, sep: char): (r: seq<string>)
    ensures |r| >= 1
    ensures forall k :: 0 <= k < |r| ==> sep !in r[k]
    decreases |s|
  {
    if sep !in s then [s]
    else
      var k := FirstIndex(s, sep);
      [s[..k]] + Split(s[k + 1..], sep)
  }

  function FirstIndex(s: string, c: char): (k: nat)
    requires c in s
    ensures k < |s| && s[k] == c && c !in s[..k]
  {
    if s[0] == c then 0 else 1 + FirstIndex(s[1..], c)
  }

  lemma SplitWhole(s: string, sep: char)
    requires sep !in s
    ensures Split(s, sep) == [s]
  {
  }

  /** The first separator is at `k` when `s[k]` is one and none comes before it. */
  lemma FirstIndexIs(s: string, c: char, k: nat)
    requires k < |s| && s[k] == c && c !in s[..k]
    ensures FirstIndex(s, c) == k
  {
  }

  /** Splitting at a separator placed between two texts splits each text on its own. */
  lemma {:induction false} SplitAppend(x: string, y: string, sep: char)
    ensures Split(x + [sep] + y, sep) == Split(x, sep) + Split(y, sep)
    decreases |x|
  {
    var s := x + [sep] + y;
    if sep !in x {
      assert s[..|x|] == x;
      FirstIndexIs(s, sep, |x|);
      assert s[|x| + 1..] == y;
    } else {
      var j := FirstIndex(x, sep);
      assert s[..j] == x[..j];
      FirstIndexIs(s, sep, j);
      assert s[j + 1..] == x[j + 1..] + [sep] + y;
      SplitAppend(x[j + 1..], y, sep);
    }
  }

  /** A word followed by the separator splits off as one part. */
  lemma SplitStep(w: string, t: string, sep: char)
    requires sep !in w
    ensures Split(w + [sep] + t, sep) == [w] + Split(t, sep)
  {
    SplitWhole(w, sep);
    SplitAppend(w, t, sep);
  }

  /** Each word followed by the separator: `w0/w1/.../`. */
  function Prefixed(ws: seq<string>, sep: char): string
    decreases |ws|
  {
    if ws == [] then [] else ws[0] + [sep] + Prefixed(ws[1..], sep)
  }

  lemma PrefixedCons(ws: seq<string>, t: string, sep: char)
    requires ws != []
    ensures Prefixed(ws, sep) + t == ws[0] + [sep] + (Prefixed(ws[1..], sep) + t)
  {
  }

  lemma SplitCons(ws: seq<string>, a: string, rest: string, t: string, sep: char)
    requires ws != []
    requires Split(a, sep) == [ws[0]] + Split(rest, sep)
    requires Split(rest, sep) == ws[1..] + Split(t, sep)
    ensures Split(a, sep) == ws + Split(t, sep)
  {
    assert ws == [ws[0]] + ws[1..];
  }

  /** Separator-free words written before a text come back first when it is split. */
  lemma {:induction false} SplitPrefixed(ws: seq<string>, t: string, sep: char)
    requires forall i :: 0 <= i < |ws| ==> sep !in ws[i]
    ensures Split(Prefixed(ws, sep) + t, sep) == ws + Split(t, sep)
    decreases |ws|
  {
    if ws == [] {
      assert Prefixed(ws, sep) + t == t;
    } else {
      var rest := Prefixed(ws[1..], sep) + t;
      SplitPrefixed(ws[1..], t, sep);
      PrefixedCons(ws, t, sep);
      SplitStep(ws[0], rest, sep);
      SplitCons(ws, Prefixed(ws, sep) + t, rest, t, sep);
    }
  }

  /** `parts.join(sep)`. */
  function Join(parts: seq<string>, sep: string): string
    decreases |parts|
  {
    if parts == [] then []
    else if |parts| == 1 then parts[0]
    else parts[0] + sep + Join(parts[1..], sep)
  }

  /** Splitting and joining again on the same character gives back the text. */
  lemma {:induction false} JoinSplit(s: string, sep: char)
    ensures Join(Split(s, sep), [sep]) == s
    decreases |s|
  {
    if sep in s {
      var k := FirstIndex(s, sep);
      JoinSplit(s[k + 1..], sep);
      assert s == s[..k] + [sep] + s[k + 1..];
    }
  }

  /** `String(n).padStart(2, '0')`. */
  function Pad2(n: nat): (r: string)
    ensures n < 100 ==> |r| == 2 && IsDigits(r) && ParseDigits(r) == n
    ensures n >= 100 ==> r == NatToString(n)
  {
    var s := NatToString(n);
    NatToStringFacts(n);
    if |s| < 2 then
      assert s == [DigitChar(n)];
      var r := "0" + s;
      assert r[..1] == "0" && r[..0] == [];
      r
    else s
  }

  // ---------------------------------------------------------------- numbers

  function DigitChar(d: nat): char
    requires d < 10
  {
    ('0' as int + d) as char
  }

  function DigitValue(c: char): nat
    requires IsDigit(c)
  {
    c as int - '0' as int
  }

  predicate IsDigits(s: string) {
    forall i :: 0 <= i < |s| ==> IsDigit(s[i])
  }

  /** `String(n)` for a non-negative integer: decimal, no leading zero. */
  function NatToString(n: nat): string
    decreases n
  {
    if n < 10 then [DigitChar(n)] else NatToString(n / 10) + [DigitChar(n % 10)]
  }

  /** The value of a string of decimal digits, as `parseInt(s, 10)` reads it. */
  function ParseDigits(s: string): nat
    requires IsDigits(s)
    decreases |s|
  {
    if s == [] then 0 else ParseDigits(s[..|s| - 1]) * 10 + DigitValue(s[|s| - 1])
  }

  lemma {:induction false} NatToStringFacts(n: nat)
    ensures var s := NatToString(n);
      s != [] && IsDigits(s) && ParseDigits(s) == n
      && (n < 10 <==> |s| == 1) && (n < 100 ==> |s| <= 2) && (s[0] == '0' ==> n == 0)
    decreases n
  {
    if n >= 10 {
      NatToStringFacts(n / 10);
      var s := NatToString(n);
      assert s[..|s| - 1] == NatToString(n / 10);
    }
  }

  /** Four-digit numbers print as four characters. */
  lemma NatToStringFour(n: nat)
    requires 1000 <= n <= 9999
    ensures |NatToString(n)| == 4
  {
    var m := n / 10;
    assert 100 <= m <= 999;
    assert m / 10 == n / 100;
    NatToStringFacts(n / 100);
  }

  /** Printing is injective: two numbers with the same decimal text are equal. */
  lemma NatToStringInjective(a: nat, b: nat)
    requires NatToString(a) == NatToString(b)
    ensures a == b
  {
    NatToStringFacts(a);
    NatToStringFacts(b);
  }

  /** `String(i)` for any integer. */
  function IntToString(i: int): string {
    if i < 0 then "-" + NatToString(-i) else NatToString(i)
  }
}
