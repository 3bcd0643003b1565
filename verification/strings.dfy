/** The string operations the application relies on, written after the
    semantics of Python's `str` methods and JavaScript's `String.includes`. */
module Strings {
  import opened Wrappers

  /** `p` occurs in `s` starting at index `i`. */
  predicate OccursAt(s: string, p: string, i: int) {
    0 <= i && i + |p| <= |s| && s[i..i + |p|] == p
  }

  /** `p in s` in Python, `s.includes(p)` in JavaScript. */
  function Contains(s: string, p: string): bool
    decreases |s|
  {
    p <= s || (|s| > 0 && Contains(s[1..], p))
  }

  /** An occurrence past the first character is an occurrence in the tail. */
  lemma OccursShift(s: string, p: string, i: int)
    requires |s| > 0 && i > 0
    ensures OccursAt(s, p, i) <==> OccursAt(s[1..], p, i - 1)
  {
    if i + |p| <= |s| {
      assert s[1..][i - 1..i - 1 + |p|] == s[i..i + |p|];
    }
  }

  /** An occurrence in a slice is an occurrence in the whole string. */
  lemma OccursInSlice(s: string, p: string, a: int, b: int, i: int)
    requires 0 <= a <= b <= |s|
    ensures OccursAt(s[a..b], p, i) ==> OccursAt(s, p, a + i)
  {
    if 0 <= i && i + |p| <= b - a {
      forall k | a + i <= k < a + i + |p|
        ensures s[a..b][k - a] == s[k]
      {
      }
      assert s[a..b][i..i + |p|] == s[a + i..a + i + |p|];
    }
  }

  /** `Contains` finds an occurrence exactly when there is one at some index. */
  lemma {:induction false} ContainsIff(s: string, p: string)
    ensures Contains(s, p) <==> exists i :: OccursAt(s, p, i)
    decreases |s|
  {
    if p <= s {
      assert OccursAt(s, p, 0);
    } else if |s| == 0 {
      assert forall i :: !OccursAt(s, p, i);
    } else {
      ContainsIff(s[1..], p);
      forall i | i > 0
        ensures OccursAt(s, p, i) <==> OccursAt(s[1..], p, i - 1)
      {
        OccursShift(s, p, i);
      }
      if Contains(s[1..], p) {
        var i :| OccursAt(s[1..], p, i);
        assert OccursAt(s, p, i + 1);
      } else {
        assert !OccursAt(s, p, 0);
        assert forall i :: !OccursAt(s, p, i);
      }
    }
  }

  /** A slice of a string without occurrences of `p` has none either. */
  lemma SliceAvoids(s: string, p: string, a: int, b: int)
    requires 0 <= a <= b <= |s|
    requires !Contains(s, p)
    ensures !Contains(s[a..b], p)
  {
    ContainsIff(s, p);
    ContainsIff(s[a..b], p);
    forall i
      ensures OccursAt(s[a..b], p, i) ==> OccursAt(s, p, a + i)
    {
      OccursInSlice(s, p, a, b, i);
    }
  }

  /** A string without `p` cannot contain any longer string that begins with `p`. */
  lemma AvoidsExtension(s: string, p: string, q: string)
    requires !Contains(s, p)
    ensures !Contains(s, p + q)
  {
    ContainsIff(s, p);
    ContainsIff(s, p + q);
    forall i
      ensures OccursAt(s, p + q, i) ==> OccursAt(s, p, i)
    {
      OccursPrefix(s, p, q, i);
    }
  }

  /** An occurrence of `p + q` starts with an occurrence of `p`. */
  lemma OccursPrefix(s: string, p: string, q: string, i: int)
    ensures OccursAt(s, p + q, i) ==> OccursAt(s, p, i)
  {
    if 0 <= i && i + |p + q| <= |s| {
      assert s[i..i + |p|] == s[i..i + |p + q|][..|p|];
    }
  }

  // ---------------------------------------------------------------------------
  // str.replace(pat, rep): leftmost, non-overlapping, left to right
  // ---------------------------------------------------------------------------

  /** Python's `s.replace(pat, rep)` for a non-empty `pat`: every occurrence
      found scanning left to right, skipping past each match, is replaced. */
  function ReplaceAll(s: string, pat: string, rep: string): (r: string)
    requires |pat| > 0
    ensures !Contains(s, pat) ==> r == s
    ensures |rep| <= |pat| ==> |r| <= |s|
    ensures |rep| == |pat| ==> |r| == |s|
    decreases |s|
  {
    if |s| == 0 then ""
    else if pat <= s then rep + ReplaceAll(s[|pat|..], pat, rep)
    else [s[0]] + ReplaceAll(s[1..], pat, rep)
  }

  /** Replacing one character by another is a character-by-character map. */
  lemma {:induction false} ReplaceCharPointwise(s: string, a: char, b: char)
    ensures var r := ReplaceAll(s, [a], [b]);
      |r| == |s| && forall i :: 0 <= i < |s| ==> r[i] == (if s[i] == a then b else s[i])
    decreases |s|
  {
    if |s| > 0 {
      ReplaceCharPointwise(s[1..], a, b);
      if [a] <= s {
        assert s[|[a]|..] == s[1..];
      }
    }
  }

  /** After replacing `a` by a different character `b`, no `a` is left. */
  lemma ReplaceCharRemoves(s: string, a: char, b: char)
    requires a != b
    ensures !Contains(ReplaceAll(s, [a], [b]), [a])
  {
    var r := ReplaceAll(s, [a], [b]);
    ReplaceCharPointwise(s, a, b);
    ContainsIff(r, [a]);
    forall i | 0 <= i < |r|
      ensures !OccursAt(r, [a], i)
    {
      assert r[i] != a;
      assert i + 1 <= |r| ==> r[i..i + 1][0] == r[i];
    }
  }

  /** A prefix without backticks passes through the replacement of a pattern
      that starts with a backtick unchanged. */
  lemma {:induction false} NoTickPrefix(s: string, tail: string, pat: string, rep: string)
    requires |pat| > 0 && pat[0] == '`'
    requires forall i :: 0 <= i < |s| ==> s[i] != '`'
    ensures ReplaceAll(s + tail, pat, rep) == s + ReplaceAll(tail, pat, rep)
    decreases |s|
  {
    if |s| == 0 {
      assert s + tail == tail;
    } else {
      var u := s + tail;
      SkipsHead(u, pat, rep);
      assert u[1..] == s[1..] + tail;
      NoTickPrefix(s[1..], tail, pat, rep);
      assert [s[0]] + (s[1..] + ReplaceAll(tail, pat, rep)) == s + ReplaceAll(tail, pat, rep);
    }
  }

  /** A string whose head differs from the pattern's keeps that head. */
  lemma SkipsHead(u: string, pat: string, rep: string)
    requires |pat| > 0 && |u| > 0 && u[0] != pat[0]
    ensures ReplaceAll(u, pat, rep) == [u[0]] + ReplaceAll(u[1..], pat, rep)
  {
    assert !(pat <= u);
  }

  /** The Markdown code-fence marker. */
  const Fence := "```"

  /** `ReplaceAll` of a non-`Fence` head keeps that head character. */
  lemma KeepsHead(s: string)
    requires |s| > 0 && !(Fence <= s)
    ensures ReplaceAll(s, Fence, "") == [s[0]] + ReplaceAll(s[1..], Fence, "")
  {
  }

  /** Removing every fence leaves no fence behind: a removal never glues
      backticks from both sides into a new marker, because the scan always
      takes the leftmost run of three. */
  lemma {:induction false} RemovingFencesLeavesNone(s: string)
    ensures !Contains(ReplaceAll(s, Fence, ""), Fence)
    decreases |s|
  {
    if |s| == 0 {
    } else if Fence <= s {
      RemovingFencesLeavesNone(s[3..]);
      assert ReplaceAll(s, Fence, "") == ReplaceAll(s[3..], Fence, "");
    } else {
      var t := ReplaceAll(s[1..], Fence, "");
      RemovingFencesLeavesNone(s[1..]);
      var r := [s[0]] + t;
      assert r[1..] == t;
      if s[0] == '`' {
        if |s| < 3 {
          assert |t| <= 1;
        } else if s[1] != '`' {
          KeepsHead(s[1..]);
          assert t[0] == s[1];
        } else {
          assert s[2] != '`';
          KeepsHead(s[1..]);
          KeepsHead(s[2..]);
          assert s[1..][1..] == s[2..];
          assert t[1] == s[2];
        }
      }
      assert !(Fence <= r);
    }
  }

  // ---------------------------------------------------------------------------
  // str.strip(): Python's whitespace set
  // ---------------------------------------------------------------------------

  /** The characters Python's `str.isspace` accepts, which `str.strip()` removes. */
  predicate IsSpace(c: char) {
    || c == ' ' || c == '\t' || c == '\n' || c == '\r'
    || c == '\U{000B}' || c == '\U{000C}'
    || ('\U{001C}' <= c <= '\U{001F}')
    || c == '\U{0085}' || c == '\U{00A0}' || c == '\U{1680}'
    || ('\U{2000}' <= c <= '\U{200A}')
    || c == '\U{2028}' || c == '\U{2029}' || c == '\U{202F}' || c == '\U{205F}' || c == '\U{3000}'
  }

  /** Neither the first nor the last character is whitespace. */
  predicate Trimmed(s: string) {
    |s| == 0 || (!IsSpace(s[0]) && !IsSpace(s[|s| - 1]))
  }

  /** The first index at or after `i` that is not whitespace (or `|s|`). */
  function SkipSpaces(s: string, i: nat): (j: nat)
    requires i <= |s|
    ensures i <= j <= |s|
    ensures forall k :: i <= k < j ==> IsSpace(s[k])
    ensures j < |s| ==> !IsSpace(s[j])
    decreases |s| - i
  {
    if i < |s| && IsSpace(s[i]) then SkipSpaces(s, i + 1) else i
  }

  /** The end of `s[lo..j]` once its trailing whitespace is dropped. */
  function SkipSpacesBack(s: string, lo: nat, j: nat): (k: nat)
    requires lo <= j <= |s|
    ensures lo <= k <= j
    ensures forall m :: k <= m < j ==> IsSpace(s[m])
    ensures lo < k ==> !IsSpace(s[k - 1])
    decreases j
  {
    if lo < j && IsSpace(s[j - 1]) then SkipSpacesBack(s, lo, j - 1) else j
  }

  /** Python's `s.strip()`: `s` is whitespace, then the result, then
      whitespace, and the result itself starts and ends with a non-space. */
  function Strip(s: string): (r: string)
    ensures Trimmed(r)
    ensures var a := SkipSpaces(s, 0);
      a + |r| <= |s| && r == s[a..a + |r|]
      && (forall k :: 0 <= k < a ==> IsSpace(s[k]))
      && (forall k :: a + |r| <= k < |s| ==> IsSpace(s[k]))
  {
    var a := SkipSpaces(s, 0);
    s[a..SkipSpacesBack(s, a, |s|)]
  }

  /** Stripping a string that is already trimmed changes nothing. */
  lemma StripTrimmed(s: string)
    requires Trimmed(s)
    ensures Strip(s) == s
  {
  }

  /** Stripping never introduces an occurrence of `p`. */
  lemma StripAvoids(s: string, p: string)
    requires !Contains(s, p)
    ensures !Contains(Strip(s), p)
  {
    var r := Strip(s);
    var a := SkipSpaces(s, 0);
    SliceAvoids(s, p, a, a + |r|);
  }

  // ---------------------------------------------------------------------------
  // sep.join(lines) and s.split(sep)
  // ---------------------------------------------------------------------------

  /** Python's `sep.join(xs)`. */
  function Join(xs: seq<string>, sep: string): string
    decreases |xs|
  {
    if |xs| == 0 then ""
    else if |xs| == 1 then xs[0]
    else xs[0] + sep + Join(xs[1..], sep)
  }

  /** Python's `s.split(c)` for a one-character separator: always at least one
      part, empty parts kept. */
  function Split(s: string, c: char): (parts: seq<string>)
    ensures |parts| > 0
    decreases |s|
  {
    if |s| == 0 then [""]
    else
      var rest := Split(s[1..], c);
      if s[0] == c then [""] + rest
      else [[s[0]] + rest[0]] + rest[1..]
  }

  lemma {:induction false} SplitWithout(a: string, c: char)
    requires !Contains(a, [c])
    ensures Split(a, c) == [a]
    decreases |a|
  {
    if |a| > 0 {
      assert a[0] != c by { assert !([c] <= a); }
      SplitWithout(a[1..], c);
      assert a == [a[0]] + a[1..];
    }
  }

  lemma {:induction false} SplitAtFirst(a: string, c: char, b: string)
    requires !Contains(a, [c])
    ensures Split(a + [c] + b, c) == [a] + Split(b, c)
    decreases |a|
  {
    var s := a + [c] + b;
    if |a| == 0 {
      assert s[1..] == b;
    } else {
      assert a[0] != c by { assert !([c] <= a); }
      assert s[0] == a[0];
      assert s[1..] == a[1..] + [c] + b;
      SplitAtFirst(a[1..], c, b);
      assert a == [a[0]] + a[1..];
    }
  }

  /** Splitting a joined list gives the list back, as long as no element
      contains the separator. */
  lemma {:induction false} SplitJoin(xs: seq<string>, c: char)
    requires |xs| > 0
    requires forall i :: 0 <= i < |xs| ==> !Contains(xs[i], [c])
    ensures Split(Join(xs, [c]), c) == xs
    decreases |xs|
  {
    if |xs| == 1 {
      SplitWithout(xs[0], c);
    } else {
      SplitJoin(xs[1..], c);
      SplitAtFirst(xs[0], c, Join(xs[1..], [c]));
    }
  }

  // ---------------------------------------------------------------------------
  // str(int) and its inverse
  // ---------------------------------------------------------------------------

  predicate IsDigit(c: char) {
    '0' <= c <= '9'
  }

  function DigitChar(d: nat): (c: char)
    requires d < 10
    ensures IsDigit(c) && c as int - '0' as int == d
  {
    (d + '0' as int) as char
  }

  /** The decimal digits of `n`, most significant first, no leading zero. */
  function NatToString(n: nat): (s: string)
    ensures |s| > 0 && forall i :: 0 <= i < |s| ==> IsDigit(s[i])
    ensures |s| > 1 ==> s[0] != '0'
    decreases n
  {
    if n < 10 then [DigitChar(n)] else NatToString(n / 10) + [DigitChar(n % 10)]
  }

  /** Python's `str(i)` / `f"{i}"` for an integer. */
  function IntToString(i: int): string {
    if i < 0 then "-" + NatToString(-i) else NatToString(i)
  }

  function DigitValue(c: char): nat
    requires IsDigit(c)
  {
    c as int - '0' as int
  }

  /** The value of a string of decimal digits. */
  function DigitsValue(s: string): nat
    requires forall i :: 0 <= i < |s| ==> IsDigit(s[i])
    decreases |s|
  {
    if |s| == 0 then 0
    else 10 * DigitsValue(s[..|s| - 1]) + DigitValue(s[|s| - 1])
  }

  /** Reads an optionally negative decimal numeral; the reference reading of
      what `IntToString` writes. */
  function ParseInt(s: string): Option<int> {
    if |s| > 0 && s[0] == '-' then
      if |s| > 1 && forall i :: 1 <= i < |s| ==> IsDigit(s[i]) then Some(-(DigitsValue(s[1..]) as int)) else None
    else if |s| > 0 && forall i :: 0 <= i < |s| ==> IsDigit(s[i]) then Some(DigitsValue(s))
    else None
  }

  lemma {:induction false} DigitsOfNat(n: nat)
    ensures DigitsValue(NatToString(n)) == n
    decreases n
  {
    if n >= 10 {
      DigitsOfNat(n / 10);
      var s := NatToString(n);
      assert s[..|s| - 1] == NatToString(n / 10);
    }
  }

  lemma NatRoundTrip(n: nat)
    ensures ParseInt(NatToString(n)) == Some(n)
  {
    var s := NatToString(n);
    assert s[0] != '-' by { assert IsDigit(s[0]); }
    DigitsOfNat(n);
  }

  /** Writing an integer in decimal and reading it back gives the integer. */
  lemma IntToStringRoundTrip(i: int)
    ensures ParseInt(IntToString(i)) == Some(i)
  {
    if i < 0 {
      var t := NatToString(-i);
      var s := "-" + t;
      assert s[1..] == t;
      assert forall j :: 1 <= j < |s| ==> s[j] == t[j - 1];
      DigitsOfNat(-i);
    } else {
      NatRoundTrip(i);
    }
  }

  // ---------------------------------------------------------------------------
  // f-string templates
  // ---------------------------------------------------------------------------

  /** An f-string with fixed text `pieces` around the placeholders `args`:
      pieces[0] + args[0] + pieces[1] + ... + args[n-1] + pieces[n]. */
  function Fill(pieces: seq<string>, args: seq<string>): string
    requires |pieces| == |args| + 1
    decreases |args|
  {
    if |args| == 0 then pieces[0] else pieces[0] + args[0] + Fill(pieces[1..], args[1..])
  }

  /** Where the `k`-th argument starts in the filled template. */
  function ArgOffset(pieces: seq<string>, args: seq<string>, k: nat): nat
    requires |pieces| == |args| + 1 && k < |args|
    decreases k
  {
    if k == 0 then |pieces[0]| else |pieces[0]| + |args[0]| + ArgOffset(pieces[1..], args[1..], k - 1)
  }

  /** The `k`-th argument sits at its offset in the filled template. */
  lemma {:induction false} ArgAt(pieces: seq<string>, args: seq<string>, k: nat)
    requires |pieces| == |args| + 1 && k < |args|
    ensures ArgOffset(pieces, args, k) + |args[k]| <= |Fill(pieces, args)|
    ensures Fill(pieces, args)[ArgOffset(pieces, args, k)..ArgOffset(pieces, args, k) + |args[k]|] == args[k]
    decreases k
  {
    var f := Fill(pieces, args);
    var rest := Fill(pieces[1..], args[1..]);
    var h := |pieces[0]| + |args[0]|;
    assert f == pieces[0] + args[0] + rest;
    if k == 0 {
      assert f[|pieces[0]|..h] == args[0];
    } else {
      ArgAt(pieces[1..], args[1..], k - 1);
      var o := ArgOffset(pieces[1..], args[1..], k - 1);
      assert args[1..][k - 1] == args[k];
      assert f[h + o..h + o + |args[k]|] == rest[o..o + |args[k]|];
    }
  }

  /** Each argument ends before the next one starts. */
  lemma {:induction false} ArgOrder(pieces: seq<string>, args: seq<string>, k: nat)
    requires |pieces| == |args| + 1 && k + 1 < |args|
    ensures ArgOffset(pieces, args, k) + |args[k]| <= ArgOffset(pieces, args, k + 1)
    decreases k
  {
    if k > 0 {
      ArgOrder(pieces[1..], args[1..], k - 1);
      assert args[1..][k - 1] == args[k];
    }
  }

  /** `r` opens with the first piece and holds every argument verbatim at its
      offset, each one ending before the next one starts. */
  predicate PlacesArgs(pieces: seq<string>, args: seq<string>, r: string)
    requires |pieces| == |args| + 1
  {
    && pieces[0] <= r
    && (forall k :: 0 <= k < |args| ==>
          ArgOffset(pieces, args, k) + |args[k]| <= |r|
          && r[ArgOffset(pieces, args, k)..ArgOffset(pieces, args, k) + |args[k]|] == args[k])
    && (forall k :: 0 <= k < |args| - 1 ==>
          ArgOffset(pieces, args, k) + |args[k]| <= ArgOffset(pieces, args, k + 1))
  }

  /** Filling a template places every argument verbatim, in order. */
  lemma FillPlacesArgs(pieces: seq<string>, args: seq<string>)
    requires |pieces| == |args| + 1
    ensures PlacesArgs(pieces, args, Fill(pieces, args))
  {
    forall k | 0 <= k < |args|
      ensures ArgOffset(pieces, args, k) + |args[k]| <= |Fill(pieces, args)|
      ensures Fill(pieces, args)[ArgOffset(pieces, args, k)..ArgOffset(pieces, args, k) + |args[k]|] == args[k]
    {
      ArgAt(pieces, args, k);
    }
    forall k | 0 <= k < |args| - 1
      ensures ArgOffset(pieces, args, k) + |args[k]| <= ArgOffset(pieces, args, k + 1)
    {
      ArgOrder(pieces, args, k);
    }
    if |args| > 0 {
      assert Fill(pieces, args) == pieces[0] + (args[0] + Fill(pieces[1..], args[1..]));
    }
  }
}
