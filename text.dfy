/**
 * The Python `str` operations the scrapers rely on, over ASCII: `strip`, `lower`,
 * `rstrip(c)`, `replace`, `find`, `in`, `startswith`, `endswith`, `split(c)[0]`
 * and `isdigit`. Non-ASCII whitespace, case mappings and digits are not modelled.
 */
module Text {
  import opened Wrappers

  /** `str.isspace` on ASCII: tab, line feed, vertical tab, form feed, carriage
      return, the four information separators and space. */
  predicate IsSpace(c: char) {
    (9 <= c as int <= 13) || (28 <= c as int <= 32)
  }

  /** `str.isdigit` and the regular-expression class `\d` on ASCII. */
  predicate IsDigit(c: char) {
    '0' <= c <= '9'
  }

  predicate AllDigits(s: string) {
    forall i :: 0 <= i < |s| ==> IsDigit(s[i])
  }

  predicate HasDigit(s: string) {
    exists i :: 0 <= i < |s| && IsDigit(s[i])
  }

  function LowerChar(c: char): char {
    if 'A' <= c <= 'Z' then (c as int + 32) as char else c
  }

  /** `str.lower`. */
  function Lower(s: string): (r: string)
    ensures |r| == |s|
    ensures forall i :: 0 <= i < |s| ==> r[i] == LowerChar(s[i])
  {
    seq(|s|, i requires 0 <= i < |s| => LowerChar(s[i]))
  }

  /** How many whitespace characters `s` starts with. */
  function LeadingSpaces(s: string): (n: nat)
    ensures n <= |s|
  {
    if s != [] && IsSpace(s[0]) then 1 + LeadingSpaces(s[1..]) else 0
  }

  /** How many whitespace characters `s` ends with. */
  function TrailingSpaces(s: string): (n: nat)
    ensures n <= |s|
  {
    if s != [] && IsSpace(s[|s| - 1]) then 1 + TrailingSpaces(s[..|s| - 1]) else 0
  }

  /** The leading run is all whitespace and is followed by a non-whitespace
      character or the end of `s`. */
  lemma {:induction false} LeadingSpacesSpec(s: string)
    ensures forall i :: 0 <= i < LeadingSpaces(s) ==> IsSpace(s[i])
    ensures LeadingSpaces(s) < |s| ==> !IsSpace(s[LeadingSpaces(s)])
  {
    if s != [] && IsSpace(s[0]) {
      LeadingSpacesSpec(s[1..]);
      forall i | 0 <= i < LeadingSpaces(s) ensures IsSpace(s[i]) {
        if i > 0 {
          assert s[i] == s[1..][i - 1];
        }
      }
    }
  }

  /** The trailing run is all whitespace and is preceded by a non-whitespace
      character or the start of `s`. */
  lemma {:induction false} TrailingSpacesSpec(s: string)
    ensures forall i :: |s| - TrailingSpaces(s) <= i < |s| ==> IsSpace(s[i])
    ensures TrailingSpaces(s) < |s| ==> !IsSpace(s[|s| - TrailingSpaces(s) - 1])
  {
    if s != [] && IsSpace(s[|s| - 1]) {
      var init := s[..|s| - 1];
      TrailingSpacesSpec(init);
      forall i | |s| - TrailingSpaces(s) <= i < |s| ensures IsSpace(s[i]) {
        if i < |s| - 1 {
          assert s[i] == init[i];
        }
      }
    }
  }

  /** `str.lstrip()`: `s` without its leading whitespace. */
  function TrimStart(s: string): (r: string) {
    s[LeadingSpaces(s)..]
  }

  /** `str.rstrip()`: `s` without its trailing whitespace. */
  function TrimEnd(s: string): (r: string) {
    s[..|s| - TrailingSpaces(s)]
  }

  /** `str.strip()`: `s` without its leading and trailing whitespace. */
  function Strip(s: string): (r: string) {
    TrimEnd(TrimStart(s))
  }

  /** What `strip` removes: `s` is the result with whitespace only around it,
      and the result neither starts nor ends with whitespace. */
  lemma StripSpec(s: string)
    ensures var r := Strip(s); var k := LeadingSpaces(s);
      && k + |r| <= |s| && r == s[k..k + |r|]
      && (forall i :: 0 <= i < k ==> IsSpace(s[i]))
      && (forall i :: k + |r| <= i < |s| ==> IsSpace(s[i]))
    ensures Strip(s) == [] || (!IsSpace(Strip(s)[0]) && !IsSpace(Strip(s)[|Strip(s)| - 1]))
  {
    StripSlice(s);
    LeadingSpacesSpec(s);
    StripTail(s);
    StripEnds(s);
  }

  /** The strip of `s` is the slice that starts after its leading whitespace. */
  lemma StripSlice(s: string)
    ensures LeadingSpaces(s) + |Strip(s)| <= |s|
    ensures Strip(s) == s[LeadingSpaces(s)..LeadingSpaces(s) + |Strip(s)|]
  {
    SuffixPrefix(s, LeadingSpaces(s), |Strip(s)|);
  }

  /** What follows the strip of `s` is whitespace. */
  lemma StripTail(s: string)
    ensures forall i :: LeadingSpaces(s) + |Strip(s)| <= i < |s| ==> IsSpace(s[i])
  {
    var t := TrimStart(s);
    var k := LeadingSpaces(s);
    TrailingSpacesSpec(t);
    forall i | k + |Strip(s)| <= i < |s| ensures IsSpace(s[i]) {
      assert s[i] == t[i - k];
    }
  }

  /** The strip of `s` neither starts nor ends with whitespace. */
  lemma StripEnds(s: string)
    ensures Strip(s) == [] || (!IsSpace(Strip(s)[0]) && !IsSpace(Strip(s)[|Strip(s)| - 1]))
  {
    var t := TrimStart(s);
    var n := TrailingSpaces(t);
    var r := Strip(s);
    if r != [] {
      LeadingSpacesSpec(s);
      TrailingSpacesSpec(t);
      assert r[0] == t[0] == s[LeadingSpaces(s)];
      assert r[|r| - 1] == t[|t| - n - 1];
    }
  }

  /** A prefix of a suffix is a slice. */
  lemma SuffixPrefix(s: string, k: nat, m: nat)
    requires k + m <= |s|
    ensures s[k..][..m] == s[k..k + m]
  {
  }

  /** A string without surrounding whitespace is its own strip. */
  lemma StripUnspaced(s: string)
    requires s == [] || (!IsSpace(s[0]) && !IsSpace(s[|s| - 1]))
    ensures Strip(s) == s
  {
    assert LeadingSpaces(s) == 0;
    assert TrimStart(s) == s;
    assert TrailingSpaces(s) == 0;
  }

  /** A string of whitespace strips to the empty string. */
  lemma {:induction false} BlankStrips(s: string)
    requires forall i :: 0 <= i < |s| ==> IsSpace(s[i])
    ensures LeadingSpaces(s) == |s|
    ensures Strip(s) == []
  {
    if s != [] {
      BlankStrips(s[1..]);
    }
  }

  /** Stripping twice is stripping once. */
  lemma StripIdempotent(s: string)
    ensures Strip(Strip(s)) == Strip(s)
  {
    StripSpec(s);
    StripUnspaced(Strip(s));
  }

  /** `str.rstrip(c)` for one character `c`: `s` without its trailing run of `c`. */
  function RStripChar(s: string, c: char): (r: string)
    ensures |r| <= |s| && r == s[..|r|]
    ensures r == [] || r[|r| - 1] != c
    ensures forall i :: |r| <= i < |s| ==> s[i] == c
  {
    if s != [] && s[|s| - 1] == c then RStripChar(s[..|s| - 1], c) else s
  }

  /** `str.replace(c, d)` for single characters. */
  function ReplaceChar(s: string, c: char, d: char): (r: string)
    ensures |r| == |s|
    ensures forall i :: 0 <= i < |s| ==> r[i] == (if s[i] == c then d else s[i])
  {
    seq(|s|, i requires 0 <= i < |s| => if s[i] == c then d else s[i])
  }

  /** After replacing `c` by another character, `c` no longer occurs; other
      characters that did not occur and are not `d` still do not. */
  lemma ReplaceCharRemoves(s: string, c: char, d: char, e: char)
    requires c != d && e != d && (e == c || e !in s)
    ensures e !in ReplaceChar(s, c, d)
  {
    var r := ReplaceChar(s, c, d);
    forall i | 0 <= i < |r| ensures r[i] != e {
      assert s[i] != e || s[i] == c;
    }
  }

  /** `pat` occurs in `s` at index `j`. */
  predicate OccursAt(s: string, pat: string, j: int) {
    0 <= j && j + |pat| <= |s| && s[j..j + |pat|] == pat
  }

  /** `str.replace(pat, rep)` for a non-empty `pat`: non-overlapping occurrences,
      found left to right, are replaced. */
  function ReplaceAll(s: string, pat: string, rep: string): (r: string)
    requires pat != []
    decreases |s|
  {
    if |s| < |pat| then s
    else if s[..|pat|] == pat then rep + ReplaceAll(s[|pat|..], pat, rep)
    else [s[0]] + ReplaceAll(s[1..], pat, rep)
  }

  /** Replacing a pattern that does not occur leaves the string unchanged. */
  lemma {:induction false} ReplaceAllAbsent(s: string, pat: string, rep: string)
    requires pat != []
    requires forall j :: !OccursAt(s, pat, j)
    ensures ReplaceAll(s, pat, rep) == s
    decreases |s|
  {
    if |s| >= |pat| {
      assert !OccursAt(s, pat, 0);
      assert s[..|pat|] != pat;
      forall j ensures !OccursAt(s[1..], pat, j) {
        if OccursAt(s[1..], pat, j) {
          assert s[1..][j..j + |pat|] == s[j + 1..j + 1 + |pat|];
          assert OccursAt(s, pat, j + 1);
        }
      }
      ReplaceAllAbsent(s[1..], pat, rep);
    }
  }

  /** An occurrence at the front is replaced. */
  lemma ReplaceAllHere(s: string, pat: string, rep: string)
    requires pat != [] && OccursAt(s, pat, 0)
    ensures ReplaceAll(s, pat, rep) == rep + ReplaceAll(s[|pat|..], pat, rep)
  {
    assert s[..|pat|] == pat;
  }

  /** A front character that does not start an occurrence is kept. */
  lemma ReplaceAllSkip(s: string, pat: string, rep: string)
    requires pat != [] && |s| >= |pat| && !OccursAt(s, pat, 0)
    ensures ReplaceAll(s, pat, rep) == [s[0]] + ReplaceAll(s[1..], pat, rep)
  {
    assert s[..|pat|] != pat;
  }

  /** Dropping the front character moves every occurrence one place left: none
      before `k - 1` in `s[1..]`, and the one at `k` is at `k - 1`. */
  lemma NoOccurrenceShift(s: string, pat: string, k: nat)
    requires 0 < k && OccursAt(s, pat, k)
    requires forall j :: 0 <= j < k ==> !OccursAt(s, pat, j)
    ensures forall j :: 0 <= j < k - 1 ==> !OccursAt(s[1..], pat, j)
    ensures OccursAt(s[1..], pat, k - 1)
  {
    forall j | 0 <= j < k - 1 ensures !OccursAt(s[1..], pat, j) {
      assert !OccursAt(s, pat, j + 1);
      assert s[1..][j..j + |pat|] == s[j + 1..j + 1 + |pat|];
    }
    assert s[1..][k - 1..k - 1 + |pat|] == s[k..k + |pat|];
  }

  /** The front character put back before a replaced prefix. */
  lemma Reassemble(s: string, k: nat, whole: string, rest: string, rep: string, tail: string, sameTail: string)
    requires 0 < k <= |s|
    requires whole == [s[0]] + rest
    requires rest == s[1..][..k - 1] + rep + tail
    requires tail == sameTail
    ensures whole == s[..k] + rep + sameTail
  {
    assert [s[0]] + s[1..][..k - 1] == s[..k];
  }

  /** `str.replace` works left to right: when `pat` first occurs at `k`, the
      text before it is kept, that occurrence is replaced, and the rest after it
      is replaced in turn. */
  lemma {:induction false} ReplaceAllFirst(s: string, pat: string, rep: string, k: nat)
    requires pat != [] && OccursAt(s, pat, k)
    requires forall j :: 0 <= j < k ==> !OccursAt(s, pat, j)
    ensures ReplaceAll(s, pat, rep) == s[..k] + rep + ReplaceAll(s[k + |pat|..], pat, rep)
    decreases k, 1
  {
    if k == 0 {
      ReplaceAllHere(s, pat, rep);
      assert s[k + |pat|..] == s[|pat|..];
      assert s[..k] + rep == rep;
    } else {
      ReplaceAllFirstStep(s, pat, rep, k);
    }
  }

  /** The step of `ReplaceAllFirst`: a front character that does not start an
      occurrence is kept in front of what replacing the rest gives. */
  lemma {:induction false} ReplaceAllFirstStep(s: string, pat: string, rep: string, k: nat)
    requires pat != [] && 0 < k && OccursAt(s, pat, k)
    requires forall j :: 0 <= j < k ==> !OccursAt(s, pat, j)
    ensures ReplaceAll(s, pat, rep) == s[..k] + rep + ReplaceAll(s[k + |pat|..], pat, rep)
    decreases k, 0
  {
    assert !OccursAt(s, pat, 0);
    ReplaceAllSkip(s, pat, rep);
    NoOccurrenceShift(s, pat, k);
    ReplaceAllFirst(s[1..], pat, rep, k - 1);
    assert s[1..][k - 1 + |pat|..] == s[k + |pat|..];
    Reassemble(s, k, ReplaceAll(s, pat, rep), ReplaceAll(s[1..], pat, rep), rep,
               ReplaceAll(s[1..][k - 1 + |pat|..], pat, rep), ReplaceAll(s[k + |pat|..], pat, rep));
  }

  /** Removing a pattern never makes a string longer. */
  lemma {:induction false} RemoveAllShrinks(s: string, pat: string)
    requires pat != []
    ensures |ReplaceAll(s, pat, "")| <= |s|
    decreases |s|
  {
    if |s| >= |pat| {
      if s[..|pat|] == pat {
        RemoveAllShrinks(s[|pat|..], pat);
      } else {
        RemoveAllShrinks(s[1..], pat);
      }
    }
  }

  function FindFrom(s: string, pat: string, i: nat): (r: Option<nat>)
    requires i <= |s|
    ensures r.Some? ==> i <= r.value && OccursAt(s, pat, r.value)
    ensures r.Some? ==> forall j :: i <= j < r.value ==> !OccursAt(s, pat, j)
    ensures r.None? ==> forall j :: i <= j ==> !OccursAt(s, pat, j)
    decreases |s| - i
  {
    if i + |pat| > |s| then None
    else if s[i..i + |pat|] == pat then Some(i)
    else FindFrom(s, pat, i + 1)
  }

  /** `str.find(pat)`: the lowest index at which `pat` occurs, None for -1. */
  function Find(s: string, pat: string): (r: Option<nat>)
    ensures r.Some? ==> OccursAt(s, pat, r.value)
    ensures r.Some? ==> forall j :: 0 <= j < r.value ==> !OccursAt(s, pat, j)
    ensures r.None? ==> forall j :: !OccursAt(s, pat, j)
  {
    FindFrom(s, pat, 0)
  }

  /** Python's `pat in s` for strings. */
  predicate Contains(s: string, pat: string) {
    Find(s, pat).Some?
  }

  /** `s.startswith(p)`. */
  predicate StartsWith(s: string, p: string) {
    |p| <= |s| && s[..|p|] == p
  }

  /** `s.endswith(p)`. */
  predicate EndsWith(s: string, p: string) {
    |p| <= |s| && s[|s| - |p|..] == p
  }

  /** `s.split(c)[0]`: the part of `s` before the first `c`, or all of `s`. */
  function BeforeFirst(s: string, c: char): (r: string)
    ensures |r| <= |s| && r == s[..|r|]
    ensures c !in r
    ensures |r| < |s| ==> s[|r|] == c
  {
    if s == [] || s[0] == c then [] else [s[0]] + BeforeFirst(s[1..], c)
  }

  /** The longest prefix of `s` made of digits and commas: what the regular
      expression `[\d,]*` matches at the start of `s`. */
  function DigitCommaRun(s: string): (r: string)
    ensures |r| <= |s| && r == s[..|r|]
    ensures forall i :: 0 <= i < |r| ==> IsDigit(r[i]) || r[i] == ','
    ensures |r| < |s| ==> !IsDigit(s[|r|]) && s[|r|] != ','
  {
    if s != [] && (IsDigit(s[0]) || s[0] == ',') then [s[0]] + DigitCommaRun(s[1..]) else []
  }
}
