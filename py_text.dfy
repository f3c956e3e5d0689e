/** The few Python string operations the evaluation scripts rely on:
    `str(n)` for a non-negative int, `s.split(sep)` and `s.rstrip("\n")`. */
module PyText {

  /** The decimal digit character for `d`. */
  function DigitChar(d: nat): (c: char)
    requires d < 10
    ensures '0' <= c <= '9'
  {
    ('0' as int + d) as char
  }

  predicate IsDigits(s: string) {
    forall k :: 0 <= k < |s| ==> '0' <= s[k] <= '9'
  }

  /** `str(n)` for a non-negative integer: its decimal digits. */
  function NatToString(n: nat): (s: string)
    ensures 1 <= |s| && IsDigits(s)
    ensures n >= 10 ==> |s| >= 2
    decreases n
  {
    if n < 10 then [DigitChar(n)] else NatToString(n / 10) + [DigitChar(n % 10)]
  }

  /** The value of a string of decimal digits (what `int(s)` gives for one). */
  function DigitsValue(s: string): nat
    requires IsDigits(s)
  {
    if s == [] then 0
    else DigitsValue(s[..|s| - 1]) * 10 + (s[|s| - 1] as int - '0' as int)
  }

  /** Reading back the digits of `str(n)` gives `n`. */
  lemma {:induction false} DigitsValueOfNatToString(n: nat)
    ensures DigitsValue(NatToString(n)) == n
    decreases n
  {
    var s := NatToString(n);
    if n >= 10 {
      DigitsValueOfNatToString(n / 10);
      assert s[..|s| - 1] == NatToString(n / 10);
    }
  }

  /** `str` is injective on non-negative integers: distinct sample ids give
      distinct strings. */
  lemma NatToStringInjective(a: nat, b: nat)
    requires NatToString(a) == NatToString(b)
    ensures a == b
  {
    DigitsValueOfNatToString(a);
    DigitsValueOfNatToString(b);
  }

  /** No character of `s` is `c`. */
  predicate Free(s: string, c: char) {
    forall k :: 0 <= k < |s| ==> s[k] != c
  }

  lemma DigitsAreFree(s: string, c: char)
    requires IsDigits(s) && !('0' <= c <= '9')
    ensures Free(s, c)
  {
  }

  /** `sep` occurs in `s` starting at position `k`. */
  ghost predicate OccursAt(s: string, sep: string, k: int) {
    0 <= k && k + |sep| <= |s| && s[k..k + |sep|] == sep
  }

  /** `sep` occurs somewhere in `s`. */
  ghost predicate Occurs(s: string, sep: string) {
    exists k :: OccursAt(s, sep, k)
  }

  /** A string free of the separator's first character does not contain the
      separator. */
  lemma FreeDoesNotOccur(s: string, sep: string)
    requires |sep| > 0 && Free(s, sep[0])
    ensures !Occurs(s, sep)
  {
    forall k | 0 <= k && k + |sep| <= |s|
      ensures !OccursAt(s, sep, k)
    {
      assert s[k..k + |sep|][0] == s[k] != sep[0];
    }
  }

  /** Python's `s.split(sep)` for a non-empty separator: cut `s` at every
      leftmost, non-overlapping occurrence of `sep`. */
  function Split(s: string, sep: string): (parts: seq<string>)
    requires |sep| > 0
    ensures |parts| >= 1
    decreases |s|
  {
    if |sep| <= |s| && s[..|sep|] == sep then [""] + Split(s[|sep|..], sep)
    else if s == [] then [""]
    else
      var rest := Split(s[1..], sep);
      [[s[0]] + rest[0]] + rest[1..]
  }

  /** A string in which the separator does not occur is not cut. */
  lemma {:induction false} SplitWithoutSeparator(s: string, sep: string)
    requires |sep| > 0 && !Occurs(s, sep)
    ensures Split(s, sep) == [s]
    decreases |s|
  {
    if |sep| <= |s| {
      assert !OccursAt(s, sep, 0);
      assert s[0..0 + |sep|] == s[..|sep|];
    }
    if s != [] {
      forall k | OccursAt(s[1..], sep, k)
        ensures OccursAt(s, sep, k + 1)
      {
        assert s[k + 1..k + 1 + |sep|] == s[1..][k..k + |sep|];
      }
      SplitWithoutSeparator(s[1..], sep);
      assert [s[0]] + s[1..] == s;
    }
  }

  /** A string that does occur splits into at least two parts, so the
      converse of SplitWithoutSeparator holds as well. */
  lemma {:induction false} SplitAtSeparator(s: string, sep: string)
    requires |sep| > 0 && Occurs(s, sep)
    ensures |Split(s, sep)| >= 2
    decreases |s|
  {
    if |sep| <= |s| && s[..|sep|] == sep {
    } else {
      var k :| OccursAt(s, sep, k);
      assert k != 0 by {
        if |sep| <= |s| {
          assert s[..|sep|] == s[0..0 + |sep|];
        }
      }
      assert s[1..][k - 1..k - 1 + |sep|] == s[k..k + |sep|];
      assert OccursAt(s[1..], sep, k - 1);
      SplitAtSeparator(s[1..], sep);
    }
  }

  /** A leading field free of the separator's first character is cut off as
      the first part. */
  lemma {:induction false} SplitAfterField(a: string, sep: string, rest: string)
    requires |sep| > 0 && Free(a, sep[0])
    ensures Split(a + sep + rest, sep) == [a] + Split(rest, sep)
    decreases |a|
  {
    var s := a + sep + rest;
    if a == [] {
      assert s == sep + rest;
      assert s[..|sep|] == sep;
      assert s[|sep|..] == rest;
    } else {
      assert s[0] == a[0] != sep[0];
      assert s[..|sep|][0] != sep[0];
      SplitAfterField(a[1..], sep, rest);
      assert s[1..] == a[1..] + sep + rest;
      assert [a[0]] + a[1..] == a;
    }
  }

  /** Fields free of the separator's first character, joined by the
      separator, split back into themselves: two, three and four fields. */
  lemma SplitTwo(c: string, d: string, sep: string)
    requires |sep| > 0 && Free(c, sep[0]) && Free(d, sep[0])
    ensures Split(c + sep + d, sep) == [c, d]
  {
    FreeDoesNotOccur(d, sep);
    SplitWithoutSeparator(d, sep);
    SplitAfterField(c, sep, d);
  }

  lemma SplitThree(b: string, c: string, d: string, sep: string)
    requires |sep| > 0 && Free(b, sep[0]) && Free(c, sep[0]) && Free(d, sep[0])
    ensures Split(b + sep + c + sep + d, sep) == [b, c, d]
  {
    SplitThreeNested(b, c, d, sep);
    JoinRegroup3(b, c, d, sep);
  }

  lemma SplitFour(a: string, b: string, c: string, d: string, sep: string)
    requires |sep| > 0
    requires Free(a, sep[0]) && Free(b, sep[0]) && Free(c, sep[0]) && Free(d, sep[0])
    ensures Split(a + sep + b + sep + c + sep + d, sep) == [a, b, c, d]
  {
    SplitFourNested(a, b, c, d, sep);
    JoinRegroup4(a, b, c, d, sep);
  }

  // The steps below are kept apart: proving a regrouping of a concatenation
  // next to facts about `Split` sends the solver into a loop.

  lemma SplitThreeNested(b: string, c: string, d: string, sep: string)
    requires |sep| > 0 && Free(b, sep[0]) && Free(c, sep[0]) && Free(d, sep[0])
    ensures Split(b + sep + (c + sep + d), sep) == [b, c, d]
  {
    SplitTwo(c, d, sep);
    SplitAfterField(b, sep, c + sep + d);
  }

  lemma SplitFourNested(a: string, b: string, c: string, d: string, sep: string)
    requires |sep| > 0
    requires Free(a, sep[0]) && Free(b, sep[0]) && Free(c, sep[0]) && Free(d, sep[0])
    ensures Split(a + sep + (b + sep + c + sep + d), sep) == [a, b, c, d]
  {
    SplitThree(b, c, d, sep);
    SplitAfterField(a, sep, b + sep + c + sep + d);
  }

  lemma JoinRegroup3(b: string, c: string, d: string, sep: string)
    ensures b + sep + (c + sep + d) == b + sep + c + sep + d
  {
  }

  lemma JoinRegroup4(a: string, b: string, c: string, d: string, sep: string)
    ensures a + sep + (b + sep + c + sep + d) == a + sep + b + sep + c + sep + d
  {
  }

  /** The number of occurrences of the character `c` in `s`. */
  function CountChar(s: string, c: char): nat {
    if s == [] then 0 else (if s[0] == c then 1 else 0) + CountChar(s[1..], c)
  }

  /** Splitting on one character gives one more part than there are
      occurrences of that character. */
  lemma {:induction false} SplitOnCharCount(s: string, c: char)
    ensures |Split(s, [c])| == CountChar(s, c) + 1
    decreases |s|
  {
    if s != [] {
      SplitOnCharCount(s[1..], c);
      if s[0] == c {
        assert s[..1] == [c];
        assert s[1..] == s[|[c]|..];
      } else {
        assert s[..1] != [c];
      }
    }
  }

  /** `s.rstrip("\n")`: drop every trailing newline. */
  function RStripNewlines(s: string): (r: string)
    ensures |r| <= |s| && r == s[..|r|]
    ensures r == [] || r[|r| - 1] != '\n'
    ensures forall k :: |r| <= k < |s| ==> s[k] == '\n'
  {
    if s != [] && s[|s| - 1] == '\n' then RStripNewlines(s[..|s| - 1]) else s
  }

  /** Stripping one final newline from a string that does not already end in
      a newline gives the string back. */
  lemma RStripOneNewline(s: string)
    requires s == [] || s[|s| - 1] != '\n'
    ensures RStripNewlines(s + "\n") == s
  {
    assert (s + "\n")[..|s|] == s;
  }
}
