/**
 * String helpers standing in for the parts of java.lang.String and
 * StringBuilder that the market code relies on: decimal rendering of
 * integers, `trim`, ASCII upper-casing, `contains` and joining.
 */
module Text {

  /** Java's `trim` removes every leading and trailing char whose code is at most U+0020. */
  predicate IsTrimmable(c: char) {
    c as int <= 0x20
  }

  predicate IsDigit(c: char) {
    '0' <= c <= '9'
  }

  function DigitChar(d: nat): (c: char)
    requires d < 10
    ensures IsDigit(c)
  {
    (48 + d) as char
  }

  /** Decimal rendering of a natural number, as `String.valueOf(long)` prints it. */
  function NatToString(n: nat): (s: string)
    ensures |s| > 0
    ensures forall i :: 0 <= i < |s| ==> IsDigit(s[i])
  {
    if n < 10 then [DigitChar(n)] else NatToString(n / 10) + [DigitChar(n % 10)]
  }

  /** Decimal rendering of any integer: a minus sign in front of negative values. */
  function IntToString(i: int): (s: string)
    ensures |s| > 0
    ensures i >= 0 ==> s == NatToString(i)
    ensures i < 0 ==> s == "-" + NatToString(-i)
  {
    if i < 0 then "-" + NatToString(-i) else NatToString(i)
  }

  /** The leading padding removed. */
  function TrimStart(s: string): (r: string)
    ensures |r| <= |s|
  {
    if |s| > 0 && IsTrimmable(s[0]) then TrimStart(s[1..]) else s
  }

  /** The trailing padding removed. */
  function TrimEnd(s: string): (r: string)
    ensures |r| <= |s|
  {
    if |s| > 0 && IsTrimmable(s[|s| - 1]) then TrimEnd(s[..|s| - 1]) else s
  }

  /** `TrimStart` keeps a suffix, which starts with text, and drops only padding. */
  lemma {:induction false} TrimStartShape(s: string)
    ensures var r := TrimStart(s);
      && r == s[|s| - |r|..]
      && (|r| > 0 ==> !IsTrimmable(r[0]))
      && forall i :: 0 <= i < |s| - |r| ==> IsTrimmable(s[i])
    decreases |s|
  {
    if |s| > 0 && IsTrimmable(s[0]) {
      TrimStartShape(s[1..]);
      var r := TrimStart(s);
      assert s[1..][|s| - 1 - |r|..] == s[|s| - |r|..];
    }
  }

  /** `TrimEnd` keeps a prefix, which ends with text, and drops only padding. */
  lemma {:induction false} TrimEndShape(s: string)
    ensures var r := TrimEnd(s);
      && r == s[..|r|]
      && (|r| > 0 ==> !IsTrimmable(r[|r| - 1]))
      && forall i :: |r| <= i < |s| ==> IsTrimmable(s[i])
    decreases |s|
  {
    if |s| > 0 && IsTrimmable(s[|s| - 1]) {
      TrimEndShape(s[..|s| - 1]);
      var r := TrimEnd(s);
      assert s[..|s| - 1][..|r|] == s[..|r|];
    }
  }

  /** `String.trim()`. */
  function Trim(s: string): string {
    TrimEnd(TrimStart(s))
  }

  /** A string with no trimmable character at either end is its own trim. */
  lemma TrimOfTrimmed(s: string)
    requires |s| > 0 ==> !IsTrimmable(s[0]) && !IsTrimmable(s[|s| - 1])
    ensures Trim(s) == s
  {
  }

  /** Appending padding on the right or the left does not survive a trim. */
  lemma {:induction false} TrimDropsPadding(pre: string, s: string, post: string)
    requires forall i :: 0 <= i < |pre| ==> IsTrimmable(pre[i])
    requires forall i :: 0 <= i < |post| ==> IsTrimmable(post[i])
    ensures Trim(pre + s + post) == Trim(s)
  {
    var tail := s + post;
    assert pre + s + post == pre + tail;
    TrimStartDropsPrefix(pre, tail);
    TrimStartKeepsSuffix(s, post);
    var front := TrimStart(s);
    TrimEndDropsSuffix(front + post, post, front);
  }

  lemma {:induction false} TrimStartDropsPrefix(pre: string, s: string)
    requires forall i :: 0 <= i < |pre| ==> IsTrimmable(pre[i])
    ensures TrimStart(pre + s) == TrimStart(s)
  {
    if |pre| > 0 {
      assert (pre + s)[1..] == pre[1..] + s;
      TrimStartDropsPrefix(pre[1..], s);
    } else {
      assert pre + s == s;
    }
  }

  /** Trimming the front of `s + post` only touches `s` unless `s` is all padding. */
  lemma {:induction false} TrimStartKeepsSuffix(s: string, post: string)
    requires forall i :: 0 <= i < |post| ==> IsTrimmable(post[i])
    ensures TrimEnd(TrimStart(s + post)) == TrimEnd(TrimStart(s) + post)
  {
    if |s| > 0 {
      if IsTrimmable(s[0]) {
        assert (s + post)[1..] == s[1..] + post;
        TrimStartKeepsSuffix(s[1..], post);
      } else {
        assert TrimStart(s + post) == s + post;
      }
    } else {
      assert s + post == post;
      assert TrimStart(s) == s;
      TrimStartDropsPrefix(post, []);
      assert post + [] == post;
      TrimEndAllPadding(post);
    }
  }

  lemma {:induction false} TrimEndAllPadding(s: string)
    requires forall i :: 0 <= i < |s| ==> IsTrimmable(s[i])
    ensures TrimEnd(s) == [] && TrimStart(s) == []
  {
    if |s| > 0 {
      TrimEndAllPadding(s[..|s| - 1]);
      TrimEndAllPadding(s[1..]);
    }
  }

  lemma {:induction false} TrimEndDropsSuffix(whole: string, post: string, s: string)
    requires whole == s + post
    requires forall i :: 0 <= i < |post| ==> IsTrimmable(post[i])
    ensures TrimEnd(whole) == TrimEnd(s)
  {
    if |post| > 0 {
      assert whole[..|whole| - 1] == s + post[..|post| - 1];
      TrimEndDropsSuffix(whole[..|whole| - 1], post[..|post| - 1], s);
    } else {
      assert whole == s;
    }
  }

  /** ASCII upper-casing of one character. */
  function UpperChar(c: char): char {
    if 'a' <= c <= 'z' then (c as int - 32) as char else c
  }

  /** `String.toUpperCase()` restricted to the ASCII letters. */
  function ToUpper(s: string): (r: string)
    ensures |r| == |s|
    ensures forall i :: 0 <= i < |s| ==> r[i] == UpperChar(s[i])
  {
    if s == [] then [] else [UpperChar(s[0])] + ToUpper(s[1..])
  }

  predicate StartsWith(s: string, pat: string) {
    |pat| <= |s| && s[..|pat|] == pat
  }

  /** `s.contains(pat)`: `pat` starts at some position of `s`. */
  predicate Contains(s: string, pat: string) {
    StartsWith(s, pat) || (|s| > 0 && Contains(s[1..], pat))
  }

  /** `Collectors.joining(sep)`. */
  function Join(parts: seq<string>, sep: string): (r: string)
    ensures |parts| == 1 ==> r == parts[0]
  {
    if |parts| == 0 then ""
    else if |parts| == 1 then parts[0]
    else parts[0] + sep + Join(parts[1..], sep)
  }

  /** Joining a list that ends in `last` is joining the front, the separator and `last`. */
  lemma {:induction false} JoinSnoc(parts: seq<string>, last: string, sep: string)
    requires |parts| > 0
    ensures Join(parts + [last], sep) == Join(parts, sep) + sep + last
  {
    if |parts| == 1 {
      assert (parts + [last])[1..] == [last];
    } else {
      assert (parts + [last])[1..] == parts[1..] + [last];
      JoinSnoc(parts[1..], last, sep);
    }
  }

  /** `String.replace(target, replacement)`: every occurrence, scanning from the left, none overlapping. */
  function ReplaceAll(s: string, pat: string, rep: string): string
    requires |pat| > 0
    decreases |s|
  {
    if |s| < |pat| then s
    else if s[..|pat|] == pat then rep + ReplaceAll(s[|pat|..], pat, rep)
    else [s[0]] + ReplaceAll(s[1..], pat, rep)
  }

  /** A string without the target comes back unchanged. */
  lemma {:induction false} ReplaceAbsent(s: string, pat: string, rep: string)
    requires |pat| > 0 && !Contains(s, pat)
    ensures ReplaceAll(s, pat, rep) == s
    decreases |s|
  {
    if |s| >= |pat| {
      ReplaceAbsent(s[1..], pat, rep);
      assert [s[0]] + s[1..] == s;
    }
  }

  /** A string that is exactly the target becomes the replacement. */
  lemma ReplaceWhole(pat: string, rep: string)
    requires |pat| > 0
    ensures ReplaceAll(pat, pat, rep) == rep
  {
    assert pat[..|pat|] == pat;
    assert pat[|pat|..] == [];
    assert rep + [] == rep;
  }
}
