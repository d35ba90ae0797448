/**
 * The JavaScript string operations the application relies on, over ASCII.
 *
 * `\s` and the characters `String.prototype.trim` removes are taken to be the six ASCII
 * whitespace characters; `\w` is `[A-Za-z0-9_]`; `toLowerCase` maps only `A`-`Z`.
 * A JavaScript value that may be `undefined` is an `Option`, and "truthy" for a string
 * means present and non-empty.
 */
module Strings {
  import opened Wrappers

  // ---------------------------------------------------------------------------
  // Character classes

  /** ASCII `\s`: space, tab, line feed, vertical tab, form feed, carriage return. */
  predicate IsSpace(c: char) {
    c == ' ' || c == '\t' || c == '\n' || c == '\U{000B}' || c == '\U{000C}' || c == '\r'
  }

  /** ASCII `\w`. */
  predicate IsWordChar(c: char) {
    ('a' <= c <= 'z') || ('A' <= c <= 'Z') || ('0' <= c <= '9') || c == '_'
  }

  predicate AllSpace(s: string) {
    forall i :: 0 <= i < |s| ==> IsSpace(s[i])
  }

  predicate NoSpace(s: string) {
    forall i :: 0 <= i < |s| ==> !IsSpace(s[i])
  }

  // ---------------------------------------------------------------------------
  // JavaScript truthiness of an optional string, and `a || b`

  /** A string value is truthy when it is present and not empty. */
  predicate Truthy(o: Option<string>) {
    o.Some? && o.value != ""
  }

  /** `a || b` on optional strings: the first operand when it is truthy, else the second. */
  function Or(a: Option<string>, b: Option<string>): (r: Option<string>)
    ensures Truthy(r) <==> Truthy(a) || Truthy(b)
    ensures Truthy(a) ==> r == a
    ensures !Truthy(a) ==> r == b
  {
    if Truthy(a) then a else b
  }

  /** Reference definition of a precedence list: the first truthy candidate, if any. */
  function FirstTruthy(cs: seq<Option<string>>): (r: Option<string>)
    ensures r.Some? ==> r.value != "" && exists i :: 0 <= i < |cs| && cs[i] == r && forall j :: 0 <= j < i ==> !Truthy(cs[j])
    ensures r.None? <==> forall i :: 0 <= i < |cs| ==> !Truthy(cs[i])
  {
    if cs == [] then None
    else if Truthy(cs[0]) then cs[0]
    else
      var r := FirstTruthy(cs[1..]);
      assert forall i :: 1 <= i < |cs| ==> cs[i] == cs[1..][i - 1];
      r
  }

  // ---------------------------------------------------------------------------
  // Runs of characters, and `trim`

  /** The end of the maximal run of whitespace that starts at `i`. */
  function SpaceRunEnd(t: string, i: nat): (j: nat)
    requires i <= |t|
    ensures i <= j <= |t|
    ensures forall k :: i <= k < j ==> IsSpace(t[k])
    ensures j == |t| || !IsSpace(t[j])
    decreases |t| - i
  {
    if i < |t| && IsSpace(t[i]) then SpaceRunEnd(t, i + 1) else i
  }

  /** The end of the maximal run of `\w` characters that starts at `i`. */
  function WordRunEnd(t: string, i: nat): (j: nat)
    requires i <= |t|
    ensures i <= j <= |t|
    ensures forall k :: i <= k < j ==> IsWordChar(t[k])
    ensures j == |t| || !IsWordChar(t[j])
    decreases |t| - i
  {
    if i < |t| && IsWordChar(t[i]) then WordRunEnd(t, i + 1) else i
  }

  /** The start of the maximal run of whitespace that ends at `j`, not going below `lo`. */
  function SpaceRunStart(t: string, lo: nat, j: nat): (k: nat)
    requires lo <= j <= |t|
    ensures lo <= k <= j
    ensures forall m :: k <= m < j ==> IsSpace(t[m])
    ensures k == lo || !IsSpace(t[k - 1])
    decreases j
  {
    if lo < j && IsSpace(t[j - 1]) then SpaceRunStart(t, lo, j - 1) else j
  }

  /** The run ends are determined by their contracts. */
  lemma SpaceRunEndIs(t: string, i: nat, j: nat)
    requires i <= j <= |t|
    requires forall k :: i <= k < j ==> IsSpace(t[k])
    requires j == |t| || !IsSpace(t[j])
    ensures SpaceRunEnd(t, i) == j
  {
  }

  lemma WordRunEndIs(t: string, i: nat, j: nat)
    requires i <= j <= |t|
    requires forall k :: i <= k < j ==> IsWordChar(t[k])
    requires j == |t| || !IsWordChar(t[j])
    ensures WordRunEnd(t, i) == j
  {
  }

  lemma SpaceRunStartIs(t: string, lo: nat, j: nat, k: nat)
    requires lo <= k <= j <= |t|
    requires forall m :: k <= m < j ==> IsSpace(t[m])
    requires k == lo || !IsSpace(t[k - 1])
    ensures SpaceRunStart(t, lo, j) == k
  {
  }

  /** Neither end of `s` is whitespace. */
  predicate Trimmed(s: string) {
    s == [] || (!IsSpace(s[0]) && !IsSpace(s[|s| - 1]))
  }

  /** `s.trim()`: no whitespace at either end, and trimmed text is left as it is. */
  function Trim(s: string): (r: string)
    ensures Trimmed(r)
    ensures Trimmed(s) ==> r == s
    ensures |r| <= |s|
  {
    var start := SpaceRunEnd(s, 0);
    var end := SpaceRunStart(s, start, |s|);
    var r := s[start..end];
    assert r != [] ==> r[0] == s[start] && r[|r| - 1] == s[end - 1];
    assert Trimmed(s) && s != [] ==> start == 0 && end == |s|;
    r
  }

  /** What `trim` removes is a whitespace prefix and a whitespace suffix. */
  lemma TrimRemovesSpaceEnds(s: string)
    ensures exists a, b :: s == a + Trim(s) + b && AllSpace(a) && AllSpace(b)
  {
    var start := SpaceRunEnd(s, 0);
    var end := SpaceRunStart(s, start, |s|);
    var a, b := s[..start], s[end..];
    assert s == a + s[start..end] + b;
    assert AllSpace(a) && AllSpace(b);
  }

  /** Text made only of whitespace trims to nothing. */
  lemma TrimAllSpace(s: string)
    requires AllSpace(s)
    ensures Trim(s) == ""
  {
    SpaceRunEndIs(s, 0, |s|);
  }

  lemma TrimIdempotent(s: string)
    ensures Trim(Trim(s)) == Trim(s)
  {
  }

  // ---------------------------------------------------------------------------
  // `toLowerCase`

  function LowerChar(c: char): char {
    if 'A' <= c <= 'Z' then (c as int + 32) as char else c
  }

  /** `s.toLowerCase()` over ASCII: same length, each letter `A`-`Z` lowered, nothing else changed. */
  function ToLower(s: string): (r: string)
    ensures |r| == |s|
    ensures forall i :: 0 <= i < |s| ==> r[i] == LowerChar(s[i])
    decreases |s|
  {
    if s == [] then [] else [LowerChar(s[0])] + ToLower(s[1..])
  }

  // ---------------------------------------------------------------------------
  // `includes`, `startsWith`, `replace` with a string pattern

  /** `pat` occurs in `s` starting at position `i`. */
  predicate OccursAt(s: string, pat: string, i: nat) {
    i + |pat| <= |s| && s[i..i + |pat|] == pat
  }

  /** The position of the first occurrence of `pat` in `s` (`s.indexOf(pat)`, absent for -1). */
  function FirstOccurrence(s: string, pat: string): (r: Option<nat>)
    ensures r.Some? ==> OccursAt(s, pat, r.value) && forall k :: 0 <= k < r.value ==> !OccursAt(s, pat, k)
    ensures r.None? ==> forall k: nat :: !OccursAt(s, pat, k)
    decreases |s|
  {
    if pat <= s then
      assert s[0..|pat|] == pat;
      Some(0)
    else if s == [] then None
    else
      assert !OccursAt(s, pat, 0);
      assert forall k: nat :: 1 <= k ==> (OccursAt(s, pat, k) <==> OccursAt(s[1..], pat, k - 1)) by {
        forall k: nat | 1 <= k ensures OccursAt(s, pat, k) <==> OccursAt(s[1..], pat, k - 1) {
          if k + |pat| <= |s| { assert s[k..k + |pat|] == s[1..][k - 1..k - 1 + |pat|]; }
        }
      }
      match FirstOccurrence(s[1..], pat)
      case None => None
      case Some(k) => Some(k + 1)
  }

  /** `s.includes(sub)`. */
  predicate Contains(s: string, sub: string) {
    FirstOccurrence(s, sub).Some?
  }

  lemma NotContainsWithoutHead(s: string, sub: string)
    requires |sub| > 0 && sub[0] !in s
    ensures !Contains(s, sub)
  {
  }

  /**
   * `s.replace(pat, rep)` with a string pattern: only the FIRST occurrence is replaced, and
   * without one the string is unchanged.
   */
  function ReplaceFirst(s: string, pat: string, rep: string): (r: string)
    ensures FirstOccurrence(s, pat).None? ==> r == s
    ensures FirstOccurrence(s, pat).Some? ==>
      var k := FirstOccurrence(s, pat).value; r == s[..k] + rep + s[k + |pat|..]
    decreases |s|
  {
    if pat <= s then
      assert FirstOccurrence(s, pat) == Some(0);
      assert s[..0] + rep + s[|pat|..] == rep + s[|pat|..];
      rep + s[|pat|..]
    else if s == [] then s
    else
      var rest := ReplaceFirst(s[1..], pat, rep);
      FirstOccurrenceStep(s, pat);
      match FirstOccurrence(s[1..], pat)
      case None =>
        assert [s[0]] + s[1..] == s;
        [s[0]] + rest
      case Some(k) =>
        ReplaceAfterHead(s, pat, rep, k);
        [s[0]] + rest
  }

  /** Past a mismatch at the head, the first occurrence is the tail's, one further along. */
  lemma FirstOccurrenceStep(s: string, pat: string)
    requires !(pat <= s) && s != []
    ensures FirstOccurrence(s, pat) ==
      if FirstOccurrence(s[1..], pat).Some? then Some(FirstOccurrence(s[1..], pat).value + 1) else None
  {
  }

  /** Replacing at `k` in the tail of `s` is replacing at `k + 1` in `s`. */
  lemma ReplaceAfterHead(s: string, pat: string, rep: string, k: nat)
    requires s != [] && k + |pat| <= |s| - 1
    ensures [s[0]] + (s[1..][..k] + rep + s[1..][k + |pat|..]) == s[..k + 1] + rep + s[k + 1 + |pat|..]
  {
    assert [s[0]] + s[1..][..k] == s[..k + 1];
    assert s[1..][k + |pat|..] == s[k + 1 + |pat|..];
  }

  // ---------------------------------------------------------------------------
  // `split` on one character and `join`

  /** `s.split(sep)` for a one-character separator: at least one part, none containing `sep`. */
  function Split(s: string, sep: char): (parts: seq<string>)
    ensures |parts| >= 1
    ensures forall i :: 0 <= i < |parts| ==> sep !in parts[i]
    ensures sep in s ==> |parts| >= 2
    decreases |s|
  {
    if s == [] then [""]
    else
      var rest := Split(s[1..], sep);
      if s[0] == sep then [""] + rest
      else
        assert sep in s ==> sep in s[1..];
        [[s[0]] + rest[0]] + rest[1..]
  }

  /** The last element, what `parts.pop()` returns. */
  function Last(parts: seq<string>): string
    requires |parts| >= 1
  {
    parts[|parts| - 1]
  }

  /** `parts.join(sep)`. */
  function Join(parts: seq<string>, sep: string): string
    decreases |parts|
  {
    if |parts| == 0 then ""
    else if |parts| == 1 then parts[0]
    else parts[0] + sep + Join(parts[1..], sep)
  }

  /** Splitting and joining back on the same character gives the original string. */
  lemma {:induction false} JoinSplit(s: string, sep: char)
    ensures Join(Split(s, sep), [sep]) == s
    decreases |s|
  {
    if s != [] {
      JoinSplit(s[1..], sep);
      var rest := Split(s[1..], sep);
      if s[0] == sep {
        assert ([""] + rest)[1..] == rest;
      } else {
        var parts := [[s[0]] + rest[0]] + rest[1..];
        if |rest| == 1 {
          assert parts == [[s[0]] + rest[0]];
        } else {
          assert parts[1..] == rest[1..];
          assert Join(rest, [sep]) == rest[0] + [sep] + Join(rest[1..], [sep]);
        }
      }
    }
  }

  lemma {:induction false} SplitNoSep(s: string, sep: char)
    requires sep !in s
    ensures Split(s, sep) == [s]
    decreases |s|
  {
    if s != [] {
      SplitNoSep(s[1..], sep);
      assert [s[0]] + s[1..] == s;
    }
  }

  lemma {:induction false} SplitAfterPart(p: string, sep: char, q: string)
    requires sep !in p
    ensures Split(p + [sep] + q, sep) == [p] + Split(q, sep)
    decreases |p|
  {
    if p == [] {
      assert ([sep] + q)[1..] == q;
    } else {
      SplitAfterPart(p[1..], sep, q);
      assert (p + [sep] + q)[1..] == p[1..] + [sep] + q;
      assert [p[0]] + p[1..] == p;
    }
  }

  /**
   * Joining parts that do not contain the separator and splitting again gives the parts back.
   */
  lemma {:induction false} SplitJoin(parts: seq<string>, sep: char)
    requires |parts| >= 1
    requires forall i :: 0 <= i < |parts| ==> sep !in parts[i]
    ensures Split(Join(parts, [sep]), sep) == parts
    decreases |parts|
  {
    if |parts| == 1 {
      SplitNoSep(parts[0], sep);
    } else {
      SplitJoin(parts[1..], sep);
      SplitAfterPart(parts[0], sep, Join(parts[1..], [sep]));
      assert [parts[0]] + parts[1..] == parts;
    }
  }

  lemma {:induction false} JoinLast(parts: seq<string>, sep: string)
    requires |parts| >= 2
    ensures Join(parts, sep) == Join(parts[..|parts| - 1], sep) + sep + Last(parts)
    decreases |parts|
  {
    if |parts| > 2 {
      JoinLast(parts[1..], sep);
      assert parts[..|parts| - 1][1..] == parts[1..][..|parts| - 2];
    }
  }

  /**
   * The last part of a split is what follows the last separator: the whole string when it
   * has no separator, otherwise the suffix after a separator that contains none.
   */
  lemma LastPartFollowsLastSeparator(s: string, sep: char)
    ensures sep !in Last(Split(s, sep))
    ensures (sep !in s && Last(Split(s, sep)) == s)
         || (exists pre :: s == pre + [sep] + Last(Split(s, sep)))
  {
    var parts := Split(s, sep);
    JoinSplit(s, sep);
    if |parts| == 1 {
      assert Join(parts, [sep]) == parts[0];
    } else {
      JoinLast(parts, [sep]);
      var pre := Join(parts[..|parts| - 1], [sep]);
      assert s == pre + [sep] + Last(parts);
    }
  }

  /** The part after the last separator, whatever precedes that separator. */
  lemma {:induction false} LastPartAfter(p: string, sep: char, q: string)
    requires sep !in q
    ensures Last(Split(p + [sep] + q, sep)) == q
    decreases |p|
  {
    if p == [] {
      assert ([sep] + q)[1..] == q;
      SplitNoSep(q, sep);
    } else {
      LastPartAfter(p[1..], sep, q);
      var t := p + [sep] + q;
      assert t[1..] == p[1..] + [sep] + q;
      assert sep in t[1..] by { assert t[1..][|p| - 1] == sep; }
    }
  }

  // ---------------------------------------------------------------------------
  // Number-to-string conversion in a template literal

  function DigitChar(d: nat): char
    requires d < 10
  {
    ('0' as int + d) as char
  }

  /** The value of a string of decimal digits. */
  function DecimalValue(s: string): int
    decreases |s|
  {
    if s == [] then 0 else 10 * DecimalValue(s[..|s| - 1]) + (s[|s| - 1] as int - '0' as int)
  }

  /**
   * `${n}` for a non-negative integer: a non-empty string of decimal digits, in canonical
   * form: it starts with '0' only when it is "0".
   */
  function NatToString(n: nat): (r: string)
    ensures |r| > 0
    ensures forall i :: 0 <= i < |r| ==> '0' <= r[i] <= '9'
    ensures r[0] == '0' <==> n == 0
    ensures n == 0 ==> r == "0"
    decreases n
  {
    if n < 10 then [DigitChar(n)] else NatToString(n / 10) + [DigitChar(n % 10)]
  }

  /** Reading the digits back gives the number. */
  lemma {:induction false} NatToStringRoundTrip(n: nat)
    ensures DecimalValue(NatToString(n)) == n
    decreases n
  {
    if n >= 10 {
      NatToStringRoundTrip(n / 10);
      var s := NatToString(n);
      assert s[..|s| - 1] == NatToString(n / 10);
    }
  }
}
