/** Character-level helpers of the parser: the ASCII classes of `isspace`
    and `isdigit`, reads through `std::string::operator[]` (which yields '\0'
    at index `size()`), `compare`, `find`, and the backward scans over trailing
    whitespace and over runs of backslashes. */
module Chars {
  import opened Values

  /** `isspace` in the "C" locale. */
  predicate IsSpace(c: char)
  {
    c == ' ' || c == '\t' || c == '\n' || c == '\U{0B}' || c == '\U{0C}' || c == '\r'
  }

  /** `isdigit` */
  predicate IsDigit(c: char)
  {
    '0' <= c <= '9'
  }

  /** `s[i]`, including the terminating '\0' that `operator[]` gives at
      `size()` (and, for a total function, past it). */
  function At(s: string, i: nat): char
  {
    if i < |s| then s[i] else '\0'
  }

  /** `s.compare(i, |lit|, lit) == 0`: the text at `i` is exactly `lit`. */
  predicate MatchesAt(s: string, i: nat, lit: string)
  {
    i + |lit| <= |s| && forall k :: 0 <= k < |lit| ==> s[i + k] == lit[k]
  }

  /** `s.find(c, i)`: the first index at or after `i` that holds `c`. */
  function FindFrom(s: string, i: nat, c: char): (r: Option<nat>)
    ensures r.Some? ==> i <= r.value < |s| && s[r.value] == c
    decreases |s| - i
  {
    if i >= |s| then None
    else if s[i] == c then Some(i)
    else FindFrom(s, i + 1, c)
  }

  /** `find` returns the first occurrence: nothing between `i` and it holds `c`. */
  lemma {:induction false} FindFromFirst(s: string, i: nat, c: char)
    requires FindFrom(s, i, c).Some?
    ensures forall k :: i <= k < FindFrom(s, i, c).value ==> s[k] != c
    decreases |s| - i
  {
    if s[i] != c {
      FindFromFirst(s, i + 1, c);
    }
  }

  /** `find` fails (`npos`) only when no position from `i` on holds `c`. */
  lemma {:induction false} FindFromNone(s: string, i: nat, c: char)
    ensures FindFrom(s, i, c).None? <==> forall k :: i <= k < |s| ==> s[k] != c
    decreases |s| - i
  {
    if i < |s| && s[i] != c {
      FindFromNone(s, i + 1, c);
    }
  }

  /** The first position at or after `i` that does not hold whitespace
      (`while (isspace(s[i])) i++`). */
  function SkipSpaces(s: string, i: nat): (j: nat)
    requires i <= |s|
    ensures i <= j <= |s|
    ensures !IsSpace(At(s, j))
    decreases |s| - i
  {
    if i < |s| && IsSpace(s[i]) then SkipSpaces(s, i + 1) else i
  }

  /** The first position at or after `i` that does not hold a digit
      (`while (isdigit(s[i])) i++`). */
  function SkipDigits(s: string, i: nat): (j: nat)
    requires i <= |s|
    ensures i <= j <= |s|
    ensures !IsDigit(At(s, j))
    decreases |s| - i
  {
    if i < |s| && IsDigit(s[i]) then SkipDigits(s, i + 1) else i
  }

  /** The text does not end in whitespace. */
  predicate NoTrailingSpace(s: string)
  {
    s == [] || !IsSpace(s[|s| - 1])
  }

  /** `s` without its trailing whitespace: the longest prefix of `s` that does
      not end in whitespace and after which only whitespace follows. */
  function StripTrailingSpace(s: string): (r: string)
    ensures |r| <= |s| && r == s[..|r|]
    ensures NoTrailingSpace(r)
  {
    if s == [] || !IsSpace(s[|s| - 1]) then s
    else StripTrailingSpace(s[..|s| - 1])
  }

  /** The number of consecutive backslashes immediately before position `i`. */
  function RunBefore(s: string, i: nat): (n: nat)
    requires i <= |s|
    ensures n <= i
    ensures n < i ==> s[i - n - 1] != '\\'
  {
    if i == 0 || s[i - 1] != '\\' then 0 else 1 + RunBefore(s, i - 1)
  }
}
