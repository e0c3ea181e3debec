/** Optional values, as the source's `None` returns. */
module Options {
  datatype Option<+T> = None | Some(value: T)
}

/** The ASCII string helpers of the source language: strip, lower, upper, replace, isdigit. */
module Text {

  predicate IsSpace(c: char) {
    c == ' ' || 9 <= c as int <= 13 || 28 <= c as int <= 31
  }

  predicate IsDigit(c: char) {
    '0' <= c <= '9'
  }

  /** str.isdigit: false on the empty string. */
  predicate IsDigits(s: string) {
    s != "" && forall i :: 0 <= i < |s| ==> IsDigit(s[i])
  }

  function LowerChar(c: char): char {
    if 'A' <= c <= 'Z' then c - 'A' + 'a' else c
  }

  function UpperChar(c: char): char {
    if 'a' <= c <= 'z' then c - 'a' + 'A' else c
  }

  function Lower(s: string): string {
    seq(|s|, i requires 0 <= i < |s| => LowerChar(s[i]))
  }

  function Upper(s: string): string {
    seq(|s|, i requires 0 <= i < |s| => UpperChar(s[i]))
  }

  function StripLeft(s: string): string {
    if s != "" && IsSpace(s[0]) then StripLeft(s[1..]) else s
  }

  function StripRight(s: string): string {
    if s != "" && IsSpace(s[|s| - 1]) then StripRight(s[..|s| - 1]) else s
  }

  function Strip(s: string): string {
    StripRight(StripLeft(s))
  }

  /** No whitespace at either end. */
  predicate IsTrimmed(s: string) {
    s != "" ==> !IsSpace(s[0]) && !IsSpace(s[|s| - 1])
  }

  /** s.replace(c, "") */
  function Without(s: string, c: char): string {
    if s == "" then "" else (if s[0] == c then "" else [s[0]]) + Without(s[1..], c)
  }

  /** s.replace(old, new) for single characters. */
  function Replaced(s: string, old_: char, new_: char): string {
    seq(|s|, i requires 0 <= i < |s| => if s[i] == old_ then new_ else s[i])
  }

  lemma {:induction false} StripRightShape(s: string)
    ensures var r := StripRight(s); r <= s && (r != "" ==> !IsSpace(r[|r| - 1]))
  {
    if s != "" && IsSpace(s[|s| - 1]) {
      StripRightShape(s[..|s| - 1]);
    }
  }

  lemma {:induction false} StripLeftShape(s: string)
    ensures var r := StripLeft(s); r != "" ==> !IsSpace(r[0])
  {
    if s != "" && IsSpace(s[0]) {
      StripLeftShape(s[1..]);
    }
  }

  lemma StripIsTrimmed(s: string)
    ensures IsTrimmed(Strip(s))
  {
    StripLeftShape(s);
    StripRightShape(StripLeft(s));
  }

  /** strip() is the identity exactly on trimmed strings. */
  lemma StripFixesTrimmed(s: string)
    ensures Strip(s) == s <==> IsTrimmed(s)
  {
    StripIsTrimmed(s);
  }

  predicate IsBlank(s: string) {
    forall i :: 0 <= i < |s| ==> IsSpace(s[i])
  }

  lemma {:induction false} StripRightIs(s: string) returns (after: string)
    ensures s == StripRight(s) + after && IsBlank(after)
  {
    after := "";
    if s != "" && IsSpace(s[|s| - 1]) {
      var more := StripRightIs(s[..|s| - 1]);
      after := more + [s[|s| - 1]];
    }
  }

  lemma {:induction false} StripLeftIs(s: string) returns (before: string)
    ensures s == before + StripLeft(s) && IsBlank(before)
  {
    before := "";
    if s != "" && IsSpace(s[0]) {
      var more := StripLeftIs(s[1..]);
      before := [s[0]] + more;
    }
  }

  /** strip() takes whitespace off both ends and nothing else. */
  lemma StripIs(s: string) returns (before: string, after: string)
    ensures s == before + Strip(s) + after && IsBlank(before) && IsBlank(after)
  {
    before := StripLeftIs(s);
    after := StripRightIs(StripLeft(s));
  }

  lemma {:induction false} StripRightOfLower(s: string)
    ensures StripRight(Lower(s)) == Lower(StripRight(s))
  {
    if s != "" && IsSpace(s[|s| - 1]) {
      StripRightOfLower(s[..|s| - 1]);
      assert Lower(s)[..|s| - 1] == Lower(s[..|s| - 1]);
    }
  }

  lemma {:induction false} StripLeftOfLower(s: string)
    ensures StripLeft(Lower(s)) == Lower(StripLeft(s))
  {
    if s != "" && IsSpace(s[0]) {
      StripLeftOfLower(s[1..]);
      assert Lower(s)[1..] == Lower(s[1..]);
    }
  }

  lemma StripOfLower(s: string)
    ensures Strip(Lower(s)) == Lower(Strip(s))
  {
    StripLeftOfLower(s);
    StripRightOfLower(StripLeft(s));
  }

  lemma {:induction false} WithoutSplits(a: string, b: string, c: char)
    ensures Without(a + b, c) == Without(a, c) + Without(b, c)
  {
    if a == "" {
      assert a + b == b;
    } else {
      assert (a + b)[1..] == a[1..] + b;
      WithoutSplits(a[1..], b, c);
    }
  }

  lemma LowerKeepsSpace(s: string)
    ensures IsTrimmed(Lower(s)) <==> IsTrimmed(s)
  {
  }

  lemma LowerTwice(s: string)
    ensures Lower(Lower(s)) == Lower(s)
  {
  }
}
