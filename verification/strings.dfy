/**
 * String helpers shared by the components: substring search as JavaScript's
 * `indexOf`/`includes`/`startsWith`, first-occurrence removal as
 * `replace(pattern, '')`, prefix scanning, truthiness of optional strings
 * and the decimal rendering of a number inside a template literal.
 */
module Strings {
  import opened Options

  /** `pat` occurs in `s` starting at index `i`. */
  predicate OccursAt(s: string, pat: string, i: nat) {
    i + |pat| <= |s| && s[i..i + |pat|] == pat
  }

  predicate StartsWith(s: string, pat: string) {
    OccursAt(s, pat, 0)
  }

  predicate EndsWith(s: string, pat: string) {
    |pat| <= |s| && OccursAt(s, pat, |s| - |pat|)
  }

  /**
   * `s.indexOf(pat)`: the index of the first occurrence, with `None` for -1.
   * What it finds is stated by `IndexOfFirst`, kept apart so that
   * evaluating a search does not drag its quantified meaning along.
   */
  function IndexOf(s: string, pat: string): (r: Option<nat>)
    ensures r.Some? ==> r.value + |pat| <= |s|
  {
    if |pat| > |s| then None
    else if s[..|pat|] == pat then Some(0)
    else match IndexOf(s[1..], pat)
      case None => None
      case Some(k) => Some(k + 1)
  }

  /** `s.includes(pat)`. */
  function Contains(s: string, pat: string): bool {
    IndexOf(s, pat).Some?
  }

  /** A concatenation starts with its first part and ends with its second. */
  lemma ConcatEnds(a: string, b: string)
    ensures StartsWith(a + b, a) && EndsWith(a + b, b)
  {
    assert (a + b)[..|a|] == a;
    assert (a + b)[|a|..] == b;
  }

  /** `IndexOf` returns an occurrence, and no occurrence lies before it; `None` means there is none at all. */
  lemma {:induction false} IndexOfFirst(s: string, pat: string)
    ensures IndexOf(s, pat).Some? ==> OccursAt(s, pat, IndexOf(s, pat).value)
    ensures forall j: nat :: (IndexOf(s, pat).None? || j < IndexOf(s, pat).value) ==> !OccursAt(s, pat, j)
  {
    if |pat| <= |s| && s[..|pat|] != pat {
      IndexOfFirst(s[1..], pat);
      assert forall j: nat :: 1 <= j ==> (OccursAt(s, pat, j) <==> OccursAt(s[1..], pat, j - 1));
    }
  }

  /** `includes` holds exactly when the pattern occurs somewhere. */
  lemma ContainsOccurrence(s: string, pat: string)
    ensures Contains(s, pat) <==> exists j: nat :: OccursAt(s, pat, j)
  {
    IndexOfFirst(s, pat);
  }

  /**
   * `s.replace(pat, '')` for a string pattern: without an occurrence the
   * string is unchanged; otherwise one occurrence is cut out, and
   * `RemoveFirstAt` states that it is the first.
   */
  function RemoveFirst(s: string, pat: string): (r: string)
    ensures !Contains(s, pat) ==> r == s
    ensures Contains(s, pat) ==> |r| == |s| - |pat|
  {
    match IndexOf(s, pat)
    case None => s
    case Some(i) => s[..i] + s[i + |pat|..]
  }

  /** `pat` occurs at `i` and nowhere before it. */
  predicate FirstOccurrenceAt(s: string, pat: string, i: nat) {
    OccursAt(s, pat, i) && forall j: nat :: j < i ==> !OccursAt(s, pat, j)
  }

  /** At the first occurrence, `replace` cuts out exactly that occurrence. */
  lemma {:induction false} RemoveFirstAt(s: string, pat: string, i: nat)
    requires FirstOccurrenceAt(s, pat, i)
    ensures IndexOf(s, pat) == Some(i)
    ensures RemoveFirst(s, pat) == s[..i] + s[i + |pat|..]
  {
    IndexOfFirst(s, pat);
  }

  /** The longest prefix of `s` all of whose characters satisfy `keep`. */
  function TakeWhile(s: string, keep: char -> bool): (r: string)
    ensures r <= s
    ensures forall k :: 0 <= k < |r| ==> keep(r[k])
    ensures |r| < |s| ==> !keep(s[|r|])
  {
    if |s| == 0 || !keep(s[0]) then "" else [s[0]] + TakeWhile(s[1..], keep)
  }

  /** The three facts `TakeWhile` ensures pin its result down. */
  lemma TakeWhileUnique(s: string, keep: char -> bool, r: string)
    requires r <= s
    requires forall k :: 0 <= k < |r| ==> keep(r[k])
    requires |r| < |s| ==> !keep(s[|r|])
    ensures r == TakeWhile(s, keep)
  {
  }

  /**
   * Cutting `s` anywhere at or after a character that `keep` rejects does
   * not change the prefix `TakeWhile` returns.
   */
  lemma TakeWhileOfPrefix(s: string, p: string, keep: char -> bool, j: nat)
    requires p <= s
    requires j <= |p| && j < |s| && !keep(s[j])
    ensures TakeWhile(p, keep) == TakeWhile(s, keep)
  {
    TakeWhileUnique(p, keep, TakeWhile(s, keep));
  }

  /** An occurrence in `x + [c] + y` lies inside `x`, inside `y`, or covers `c`. */
  lemma OccurrenceAcross(x: string, c: char, y: string, pat: string, i: nat)
    requires OccursAt(x + [c] + y, pat, i)
    ensures OccursAt(x, pat, i) || (i > |x| && OccursAt(y, pat, i - |x| - 1)) || c in pat
  {
    var s := x + [c] + y;
    if i + |pat| <= |x| {
      assert s[i..i + |pat|] == x[i..i + |pat|];
    } else if i > |x| {
      var k: nat := i - |x| - 1;
      assert s[i..i + |pat|] == y[k..k + |pat|];
    } else {
      assert pat[|x| - i] == s[|x|];
    }
  }

  /**
   * A pattern cannot occur across a character it does not contain, so it
   * occurs in `x + [c] + y` only if it occurs in `x` or in `y`.
   */
  lemma NotContainsAcross(x: string, c: char, y: string, pat: string)
    requires c !in pat
    requires !Contains(x, pat) && !Contains(y, pat)
    ensures !Contains(x + [c] + y, pat)
  {
    ContainsOccurrence(x, pat);
    ContainsOccurrence(y, pat);
    ContainsOccurrence(x + [c] + y, pat);
    forall i: nat ensures !OccursAt(x + [c] + y, pat, i) {
      if OccursAt(x + [c] + y, pat, i) {
        OccurrenceAcross(x, c, y, pat, i);
      }
    }
  }

  /** A pattern holding a character that `s` lacks does not occur in `s`. */
  lemma NotContainsMissingChar(s: string, pat: string, c: char)
    requires c in pat
    requires forall k :: 0 <= k < |s| ==> s[k] != c
    ensures !Contains(s, pat)
  {
    ContainsOccurrence(s, pat);
    forall j: nat ensures !OccursAt(s, pat, j) {
      if j + |pat| <= |s| {
        var k :| 0 <= k < |pat| && pat[k] == c;
        assert s[j..j + |pat|][k] != c;
      }
    }
  }

  /** The text before the first occurrence of a non-empty pattern does not contain it. */
  lemma BeforeFirstLacks(s: string, pat: string, i: nat)
    requires |pat| > 0 && FirstOccurrenceAt(s, pat, i)
    ensures !Contains(s[..i], pat)
  {
    ContainsOccurrence(s[..i], pat);
    forall j: nat ensures !OccursAt(s[..i], pat, j) {
      if j + |pat| <= i {
        assert s[..i][j..j + |pat|] == s[j..j + |pat|];
        assert !OccursAt(s, pat, j);
      }
    }
  }

  /** JavaScript truthiness of an optional string: present and non-empty. */
  predicate Truthy(o: Option<string>) {
    o.Some? && o.value != ""
  }

  predicate IsDigit(c: char) {
    '0' <= c <= '9'
  }

  function DigitChar(d: nat): (c: char)
    requires d < 10
    ensures IsDigit(c)
    ensures c as int - '0' as int == d
  {
    ('0' as int + d) as char
  }

  function DigitValue(c: char): (d: nat)
    requires IsDigit(c)
    ensures d < 10 && DigitChar(d) == c
  {
    c as int - '0' as int
  }

  /**
   * The decimal text of `n`, as a number interpolated into a template
   * literal: digits only, with a leading `0` exactly for zero itself.
   */
  function NatToString(n: nat): (s: string)
    ensures |s| >= 1
    ensures forall k :: 0 <= k < |s| ==> IsDigit(s[k])
    ensures s[0] == '0' <==> n == 0
  {
    if n < 10 then [DigitChar(n)] else NatToString(n / 10) + [DigitChar(n % 10)]
  }

  /** Reads a string of decimal digits back as a number. */
  function ParseNat(s: string): nat
    requires forall k :: 0 <= k < |s| ==> IsDigit(s[k])
  {
    if |s| == 0 then 0 else 10 * ParseNat(s[..|s| - 1]) + DigitValue(s[|s| - 1])
  }

  /** Decimal rendering round-trips through `ParseNat`. */
  lemma {:induction false} ParseNatToString(n: nat)
    ensures ParseNat(NatToString(n)) == n
  {
    var s := NatToString(n);
    if n < 10 {
      assert s[..|s| - 1] == [];
    } else {
      ParseNatToString(n / 10);
      assert s[..|s| - 1] == NatToString(n / 10);
    }
  }

  /** Distinct numbers render as distinct strings. */
  lemma NatToStringInjective(n: nat, m: nat)
    requires NatToString(n) == NatToString(m)
    ensures n == m
  {
    ParseNatToString(n);
    ParseNatToString(m);
  }
}
