/** `CapacitorValueMatcher.extract_patterns`: the candidate value tokens of
    a part number — every 3- and 4-character window made only of digits,
    plus the left-to-right matches of the two R-notation expressions
    `\d*R\d*` and `R\d+`, with duplicates collapsed. */
module PatternExtraction {
  import opened Wrappers
  import opened Text

  /** The two regular expressions handed to `re.findall`. */
  datatype Pattern =
    | DigitsRDigits  // \d*R\d*
    | RDigits        // R\d+

  /** Where the run of digits that starts at `i` ends. */
  function DigitRunEnd(p: string, i: nat): (e: nat)
    requires i <= |p|
    ensures i <= e <= |p|
    ensures AllDigits(p[i..e])
    ensures e == |p| || !IsDigit(p[e])
    decreases |p| - i
  {
    if i < |p| && IsDigit(p[i]) then DigitRunEnd(p, i + 1) else i
  }

  /** A token in R-notation: digits, one `R`, digits. */
  predicate IsRToken(t: string) {
    && Count(t, 'R') == 1
    && forall k | 0 <= k < |t| :: t[k] == 'R' || IsDigit(t[k])
  }

  /** A token in exponent-code notation: three or four digits. */
  predicate IsDigitToken(t: string) {
    (|t| == 3 || |t| == 4) && AllDigits(t)
  }

  /** The `w` characters of `p` from index `i`: `p[i:i+w]`. */
  function Window(p: string, i: nat, w: nat): (s: string)
    requires i + w <= |p|
    ensures |s| == w
  {
    p[i..i + w]
  }

  predicate IsSubstring(t: string, p: string) {
    exists i: nat | i + |t| <= |p| :: Window(p, i, |t|) == t
  }

  /** Digits, an `R`, digits: an R-notation token. */
  lemma RTokenAround(p: string, i: nat, k: nat, e: nat)
    requires i <= k < e <= |p| && p[k] == 'R' && AllDigits(p[i..k]) && AllDigits(p[k + 1..e])
    ensures IsRToken(p[i..e])
  {
    assert p[i..e] == p[i..k] + ['R'] + p[k + 1..e];
    assert multiset(p[i..e]) == multiset(p[i..k]) + multiset{'R'} + multiset(p[k + 1..e]);
    assert 'R' !in p[i..k] && 'R' !in p[k + 1..e];
  }

  /** The end of the match of `pat` anchored at `i`, if there is one.
      Both expressions are greedy and a shorter digit run can never be
      followed by `R`, so the match (when there is one) runs to the end of
      the digits after the `R`. */
  function MatchAt(pat: Pattern, p: string, i: nat): (e: Option<nat>)
    requires i <= |p|
    ensures e.Some? ==> i < e.value <= |p| && IsRToken(p[i..e.value])
    ensures e.Some? ==> e.value == |p| || !IsDigit(p[e.value])
    ensures e.Some? && pat == RDigits ==> p[i] == 'R' && e.value >= i + 2
    ensures pat == RDigits && e.None? ==> i == |p| || p[i] != 'R' || i + 1 == |p| || !IsDigit(p[i + 1])
    ensures pat == DigitsRDigits && e.None? ==>
              DigitRunEnd(p, i) == |p| || p[DigitRunEnd(p, i)] != 'R'
  {
    match pat
    case DigitsRDigits =>
      var k := DigitRunEnd(p, i);
      if k < |p| && p[k] == 'R' then
        var e := DigitRunEnd(p, k + 1);
        RTokenAround(p, i, k, e);
        Some(e)
      else None
    case RDigits =>
      if i + 1 < |p| && p[i] == 'R' && IsDigit(p[i + 1]) then
        var e := DigitRunEnd(p, i + 1);
        RTokenAround(p, i, i, e);
        Some(e)
      else None
  }

  /** `re.findall(pat, p[from:])`: scan from `from`; at each position take
      the match there and resume after it, or move one character on. */
  function FindAll(pat: Pattern, p: string, from: nat): seq<string>
    requires from <= |p|
    decreases |p| - from
  {
    if from == |p| then []
    else match MatchAt(pat, p, from)
      case Some(e) => [p[from..e]] + FindAll(pat, p, e)
      case None => FindAll(pat, p, from + 1)
  }

  /** `re.findall` as the regular-expression engine runs it: a cursor that
      jumps past each match. */
  method FindAllMatches(pat: Pattern, p: string) returns (found: seq<string>)
    ensures found == FindAll(pat, p, 0)
  {
    found := [];
    var i := 0;
    while i < |p|
      invariant i <= |p|
      invariant found + FindAll(pat, p, i) == FindAll(pat, p, 0)
      decreases |p| - i
    {
      var m := MatchAt(pat, p, i);
      if m.Some? {
        found := found + [p[i..m.value]];
        i := m.value;
      } else {
        i := i + 1;
      }
    }
  }

  /** The `w`-character windows starting before `n` that are all digits. */
  function DigitWindowsBelow(p: string, w: nat, n: int): set<string> {
    set i: nat | i < n && i + w <= |p| && IsDigitString(Window(p, i, w)) :: Window(p, i, w)
  }

  /** Moving the bound past `n` adds the window at `n`, when it is all digits. */
  lemma DigitWindowsStep(p: string, w: nat, n: nat)
    requires n + w <= |p|
    ensures DigitWindowsBelow(p, w, n + 1) ==
            DigitWindowsBelow(p, w, n) + if IsDigitString(Window(p, n, w)) then {Window(p, n, w)} else {}
  {
  }

  /** All the `w`-character windows of `p` that are all digits. */
  function DigitWindows(p: string, w: nat): set<string> {
    DigitWindowsBelow(p, w, |p|)
  }

  /** The token set `extract_patterns` returns for a string part number. */
  function Tokens(p: string): set<string> {
    DigitWindows(p, 3) + DigitWindows(p, 4)
    + (set t | t in FindAll(DigitsRDigits, p, 0))
    + (set t | t in FindAll(RDigits, p, 0))
  }

  /** `extract_patterns`: no tokens for a missing (or non-text) part number,
      otherwise the windows and R-notation matches, each text once. */
  method ExtractPatterns(partNumber: Option<string>) returns (patterns: set<string>)
    ensures partNumber.None? ==> patterns == {}
    ensures partNumber.Some? ==> patterns == Tokens(partNumber.value)
  {
    if partNumber.None? {
      return {};
    }
    var p := partNumber.value;
    var found: seq<string> := [];
    var i := 0;
    while i < |p| - 2
      invariant 0 <= i <= if |p| < 2 then 0 else |p| - 2
      invariant forall t :: t in found <==> t in DigitWindowsBelow(p, 3, i)
    {
      DigitWindowsStep(p, 3, i);
      var window := Window(p, i, 3);
      if IsDigitString(window) {
        found := found + [window];
      }
      i := i + 1;
    }
    i := 0;
    while i < |p| - 3
      invariant 0 <= i <= if |p| < 3 then 0 else |p| - 3
      invariant forall t :: t in found <==> t in DigitWindows(p, 3) || t in DigitWindowsBelow(p, 4, i)
    {
      DigitWindowsStep(p, 4, i);
      var window := Window(p, i, 4);
      if IsDigitString(window) {
        found := found + [window];
      }
      i := i + 1;
    }
    var general := FindAllMatches(DigitsRDigits, p);
    var leading := FindAllMatches(RDigits, p);
    found := found + general + leading;
    patterns := set t | t in found;
  }
}

/** What `extract_patterns` promises about the tokens it returns. */
module ExtractionProperties {
  import opened Wrappers
  import opened Text
  import opened PatternExtraction

  /** Every match `findall` reports is a piece of the part number in
      R-notation; those of `R\d+` start with `R` and have a digit after it. */
  lemma {:induction false} FindAllShape(pat: Pattern, p: string, from: nat, t: string)
    requires from <= |p| && t in FindAll(pat, p, from)
    ensures IsSubstring(t, p) && IsRToken(t)
    ensures pat == RDigits ==> |t| >= 2 && t[0] == 'R'
    decreases |p| - from
  {
    if from < |p| {
      match MatchAt(pat, p, from)
      case Some(e) =>
        if t == p[from..e] {
          assert Window(p, from, |t|) == t;
        } else {
          FindAllShape(pat, p, e, t);
        }
      case None =>
        FindAllShape(pat, p, from + 1, t);
    }
  }

  /** Every `R` at or after the cursor lies inside one of the `\d*R\d*`
      matches: the scan never steps over an `R`. */
  lemma {:induction false} FindAllCoversEveryR(p: string, from: nat, k: nat)
    requires from <= k < |p| && p[k] == 'R'
    ensures exists i: nat, e: nat | from <= i <= k < e <= |p| :: p[i..e] in FindAll(DigitsRDigits, p, from)
    decreases |p| - from
  {
    var found := FindAll(DigitsRDigits, p, from);
    match MatchAt(DigitsRDigits, p, from)
    case Some(e) =>
      assert p[from..e] in found;
      if e <= k {
        FindAllCoversEveryR(p, e, k);
        var i: nat, e': nat :| e <= i <= k < e' <= |p| && p[i..e'] in FindAll(DigitsRDigits, p, e);
        assert p[i..e'] in found;
      }
    case None =>
      assert from < k;
      FindAllCoversEveryR(p, from + 1, k);
      var i: nat, e': nat :| from + 1 <= i <= k < e' <= |p| && p[i..e'] in FindAll(DigitsRDigits, p, from + 1);
      assert p[i..e'] in found;
  }

  /** The 3- and 4-character tokens are exactly the all-digit substrings of
      those lengths. */
  lemma DigitWindowsAreDigitSubstrings(p: string, w: nat, t: string)
    ensures t in DigitWindows(p, w) <==> |t| == w && IsDigitString(t) && IsSubstring(t, p)
  {
    if |t| == w && IsDigitString(t) && IsSubstring(t, p) {
      var i: nat :| i + |t| <= |p| && Window(p, i, |t|) == t;
      assert i < |p|;
    }
  }

  /** Extraction: nothing for a missing part number; otherwise every token
      is a piece of the part number, and is either three or four digits or
      digits around exactly one `R`. */
  lemma TokensShape(p: string, t: string)
    requires t in Tokens(p)
    ensures IsSubstring(t, p)
    ensures IsDigitToken(t) || IsRToken(t)
  {
    if t in DigitWindows(p, 3) {
      DigitWindowsAreDigitSubstrings(p, 3, t);
    } else if t in DigitWindows(p, 4) {
      DigitWindowsAreDigitSubstrings(p, 4, t);
    } else if t in FindAll(DigitsRDigits, p, 0) {
      FindAllShape(DigitsRDigits, p, 0, t);
    } else {
      FindAllShape(RDigits, p, 0, t);
    }
  }

  /** Every `R` in the part number is inside some extracted token. */
  lemma EveryRInAToken(p: string, k: nat)
    requires k < |p| && p[k] == 'R'
    ensures exists i: nat, e: nat | i <= k < e <= |p| :: p[i..e] in Tokens(p)
  {
    FindAllCoversEveryR(p, 0, k);
    var i: nat, e: nat :| i <= k < e <= |p| && p[i..e] in FindAll(DigitsRDigits, p, 0);
    assert p[i..e] in Tokens(p);
  }
}
