/** The character classes and `str` methods the matcher relies on:
    `isdigit`, `strip`, `lower` and `split`, with the white space `strip`
    removes and the search for the separator `split` cuts at.
    Digits are the ASCII digits '0'..'9'. */
module Text {

  predicate IsDigit(c: char) {
    '0' <= c <= '9'
  }

  predicate AllDigits(s: string) {
    forall i | 0 <= i < |s| :: IsDigit(s[i])
  }

  /** `str.isdigit()`: at least one character, and every one a digit.
      Such a string holds no `R`, no point and no white space. */
  predicate IsDigitString(s: string)
    ensures IsDigitString(s) ==> 'R' !in s && '.' !in s
    ensures IsDigitString(s) ==> forall i | 0 <= i < |s| :: !IsSpace(s[i])
  {
    |s| > 0 && AllDigits(s)
  }

  /** The white space that `str.strip()` removes: the characters Python
      treats as white space, ASCII and Unicode alike. */
  predicate IsSpace(c: char) {
    || c == ' '
    || '\t' <= c <= '\r'
    || '\U{1C}' <= c <= '\U{1F}'
    || c == '\U{85}' || c == '\U{A0}' || c == '\U{1680}'
    || '\U{2000}' <= c <= '\U{200A}'
    || c == '\U{2028}' || c == '\U{2029}' || c == '\U{202F}' || c == '\U{205F}' || c == '\U{3000}'
  }

  /** How many times `c` occurs in `s`. */
  function Count(s: string, c: char): nat {
    multiset(s)[c]
  }

  /** A character found at two different indices occurs at least twice. */
  lemma TwoIndicesCountTwice(s: string, c: char, i: nat, j: nat)
    requires i < |s| && j < |s| && s[i] == c
    ensures s[j] == c && i != j ==> Count(s, c) >= 2
  {
    if s[j] == c && i != j {
      var m := if i < j then j else i;
      var n := if i < j then i else j;
      assert s == s[..m] + s[m..];
      assert s[n] in s[..m] && s[m] in s[m..];
      assert multiset(s) == multiset(s[..m]) + multiset(s[m..]);
    }
  }

  /** A character placed once between two pieces free of it occurs once,
      and is first found where it was placed. */
  lemma PlacedOnce(a: string, c: char, b: string)
    requires c !in a && c !in b
    ensures Count(a + [c] + b, c) == 1
    ensures c in a + [c] + b && IndexOf(a + [c] + b, c) == |a|
  {
    var s := a + [c] + b;
    assert multiset(s) == multiset(a) + multiset{c} + multiset(b);
    assert s[|a|] == c && s[..|a|] == a;
    TwoIndicesCountTwice(s, c, |a|, IndexOf(s, c));
  }

  /** Drops the white space at the front of `s`. */
  function TrimStart(s: string): string {
    if |s| > 0 && IsSpace(s[0]) then TrimStart(s[1..]) else s
  }

  /** Drops the white space at the back of `s`. */
  function TrimEnd(s: string): string {
    if |s| > 0 && IsSpace(s[|s| - 1]) then TrimEnd(s[..|s| - 1]) else s
  }

  /** What is left after trimming the front is a suffix; only white space
      was dropped, and what is left does not start with white space. */
  lemma {:induction false} TrimStartShape(s: string)
    ensures |TrimStart(s)| <= |s| && TrimStart(s) == s[|s| - |TrimStart(s)|..]
    ensures forall i | 0 <= i < |s| - |TrimStart(s)| :: IsSpace(s[i])
    ensures TrimStart(s) == [] || !IsSpace(TrimStart(s)[0])
  {
    if |s| > 0 && IsSpace(s[0]) {
      var t := s[1..];
      TrimStartShape(t);
      assert TrimStart(s) == TrimStart(t);
      forall i | 1 <= i < |s| - |TrimStart(s)|
        ensures IsSpace(s[i])
      {
        assert s[i] == t[i - 1];
      }
    }
  }

  /** What is left after trimming the back is a prefix; only white space
      was dropped, and what is left does not end with white space. */
  lemma {:induction false} TrimEndShape(s: string)
    ensures |TrimEnd(s)| <= |s| && TrimEnd(s) == s[..|TrimEnd(s)|]
    ensures forall i | |TrimEnd(s)| <= i < |s| :: IsSpace(s[i])
    ensures TrimEnd(s) == [] || !IsSpace(TrimEnd(s)[|TrimEnd(s)| - 1])
  {
    if |s| > 0 && IsSpace(s[|s| - 1]) {
      var t := s[..|s| - 1];
      TrimEndShape(t);
      assert TrimEnd(s) == TrimEnd(t);
      assert t[..|TrimEnd(t)|] == s[..|TrimEnd(t)|];
    }
  }

  /** `str.strip()` with no argument: what is left once the white space at
      both ends is gone. */
  function Strip(s: string): (r: string)
    ensures r == [] || (!IsSpace(r[0]) && !IsSpace(r[|r| - 1]))
    ensures exists i :: SpaceAround(s, r, i)
  {
    var e := TrimEnd(s);
    TrimEndShape(s);
    TrimStartShape(e);
    var r := TrimStart(e);
    var i := |e| - |r|;
    assert forall k | 0 <= k < i :: s[k] == e[k];
    assert r == s[i..i + |r|];
    assert SpaceAround(s, r, i);
    r
  }

  /** `r` sits at index `i` of `s` with nothing but white space around it. */
  predicate SpaceAround(s: string, r: string, i: int) {
    && 0 <= i <= |s| - |r|
    && r == s[i..i + |r|]
    && (forall k | 0 <= k < i :: IsSpace(s[k]))
    && (forall k | i + |r| <= k < |s| :: IsSpace(s[k]))
  }

  /** `str.lower()` on one character; only ASCII letters change. */
  function LowerChar(c: char): (l: char)
    ensures 'A' <= c <= 'Z' ==> 'a' <= l <= 'z'
    ensures !('A' <= c <= 'Z') ==> l == c
  {
    if 'A' <= c <= 'Z' then (c as int - 'A' as int + 'a' as int) as char else c
  }

  function Lower(s: string): (r: string)
    ensures |r| == |s|
    ensures forall i {:trigger r[i]} | 0 <= i < |s| :: r[i] == LowerChar(s[i])
  {
    if s == [] then [] else [LowerChar(s[0])] + Lower(s[1..])
  }

  /** Lower-casing twice is lower-casing once. */
  lemma LowerTwice(s: string)
    ensures Lower(Lower(s)) == Lower(s)
  {
  }

  /** A string with no upper-case ASCII letter is its own lower case. */
  lemma LowerNoUpper(s: string)
    requires forall i | 0 <= i < |s| :: !('A' <= s[i] <= 'Z')
    ensures Lower(s) == s
  {
  }

  /** A string with no white space at either end is its own strip. */
  lemma StripUnchanged(s: string)
    requires s != [] && !IsSpace(s[0]) && !IsSpace(s[|s| - 1])
    ensures Strip(s) == s
  {
  }

  /** Where `split` cuts: the index of the first occurrence of `c`, when
      `c` occurs. */
  function IndexOf(s: string, c: char): (k: nat)
    requires c in s
    ensures k < |s| && s[k] == c && c !in s[..k]
  {
    if s[0] == c then 0 else 1 + IndexOf(s[1..], c)
  }

  /** `str.split(sep)` for a one-character separator: the pieces between
      the separators, always one more piece than there are separators, and
      none of them holding the separator. */
  function Split(s: string, sep: char): (parts: seq<string>)
    ensures |parts| == Count(s, sep) + 1
    ensures forall k | 0 <= k < |parts| :: sep !in parts[k]
  {
    if s == [] then [[]]
    else
      var rest := Split(s[1..], sep);
      assert s == [s[0]] + s[1..];
      if s[0] == sep then [[]] + rest
      else [[s[0]] + rest[0]] + rest[1..]
  }

  /** A string with exactly one separator splits into the text before it and
      the text after it. */
  lemma {:induction false} SplitAtOnlySeparator(s: string, sep: char, k: nat)
    requires k < |s| && s[k] == sep && Count(s, sep) == 1
    ensures Split(s, sep) == [s[..k], s[k + 1..]]
  {
    assert s == [s[0]] + s[1..];
    if k == 0 {
      assert Count(s[1..], sep) == 0;
      assert sep !in s[1..];
      SplitWithoutSeparator(s[1..], sep);
    } else {
      SplitAtOnlySeparator(s[1..], sep, k - 1);
      assert s[1..][..k - 1] == s[1..k];
      assert [s[0]] + s[1..k] == s[..k];
    }
  }

  /** Without a separator, splitting gives the whole string back. */
  lemma {:induction false} SplitWithoutSeparator(s: string, sep: char)
    requires sep !in s
    ensures Split(s, sep) == [s]
  {
    if s != [] {
      SplitWithoutSeparator(s[1..], sep);
      assert [s[0]] + s[1..] == s;
    }
  }
}
