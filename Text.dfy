/**
 * The JavaScript string operations the client relies on, over `seq<char>`:
 * `trim`, `startsWith`, `endsWith`, `includes`, the pieces produced by
 * `split('/')`, ASCII `toUpperCase` and decimal rendering of a status code.
 */
module Text {

  import opened Options

  /** ECMAScript WhiteSpace and LineTerminator code points: what `String.prototype.trim` removes. */
  predicate IsSpace(c: char) {
    c == '\t' || c == '\n' || c == '\U{000B}' || c == '\U{000C}' || c == '\r' || c == ' '
    || c == '\U{00A0}' || c == '\U{1680}' || ('\U{2000}' <= c <= '\U{200A}')
    || c == '\U{2028}' || c == '\U{2029}' || c == '\U{202F}' || c == '\U{205F}'
    || c == '\U{3000}' || c == '\U{FEFF}'
  }

  predicate AllSpace(s: string) {
    forall k :: 0 <= k < |s| ==> IsSpace(s[k])
  }

  /** The first position at or after `i` that does not hold whitespace (`|s|` when there is none). */
  function FirstNonSpace(s: string, i: nat): (j: nat)
    requires i <= |s|
    ensures i <= j <= |s|
    ensures forall k :: i <= k < j ==> IsSpace(s[k])
    ensures j < |s| ==> !IsSpace(s[j])
    decreases |s| - i
  {
    if i == |s| || !IsSpace(s[i]) then i else FirstNonSpace(s, i + 1)
  }

  /** The end of the text in `s[lo..j]` once trailing whitespace is dropped. */
  function EndOfText(s: string, lo: nat, j: nat): (e: nat)
    requires lo <= j <= |s|
    ensures lo <= e <= j
    ensures forall k :: e <= k < j ==> IsSpace(s[k])
    ensures e > lo ==> !IsSpace(s[e - 1])
    decreases j
  {
    if j == lo || !IsSpace(s[j - 1]) then j else EndOfText(s, lo, j - 1)
  }

  /** Number of whitespace characters `trim` removes from the front of `s`. */
  function LeadingSpace(s: string): nat {
    FirstNonSpace(s, 0)
  }

  /** `String.prototype.trim`: empty exactly when `s` is all whitespace (see `TrimShape` for the rest). */
  function Trim(s: string): (r: string)
    ensures r == [] <==> AllSpace(s)
  {
    var lead := FirstNonSpace(s, 0);
    s[lead..EndOfText(s, lead, |s|)]
  }

  /**
   * The result of `trim` is `s` with whitespace removed at both ends and
   * nowhere else: a slice of `s` whose own ends are not whitespace.
   */
  lemma TrimShape(s: string)
    ensures LeadingSpace(s) + |Trim(s)| <= |s|
    ensures Trim(s) == s[LeadingSpace(s)..LeadingSpace(s) + |Trim(s)|]
    ensures forall k :: 0 <= k < LeadingSpace(s) ==> IsSpace(s[k])
    ensures forall k :: LeadingSpace(s) + |Trim(s)| <= k < |s| ==> IsSpace(s[k])
    ensures Trim(s) != [] ==> !IsSpace(Trim(s)[0]) && !IsSpace(Trim(s)[|Trim(s)| - 1])
  {
    var lead := FirstNonSpace(s, 0);
    var e := EndOfText(s, lead, |s|);
    assert Trim(s) == s[lead..e];
    if e > lead {
      assert Trim(s)[0] == s[lead];
      assert Trim(s)[|Trim(s)| - 1] == s[e - 1];
    }
  }

  /** Text that has no whitespace at either end is left as it is by `trim`. */
  lemma TrimKeepsTrimmed(s: string)
    requires s != [] ==> !IsSpace(s[0]) && !IsSpace(s[|s| - 1])
    ensures Trim(s) == s
  {
    if s != [] {
      assert FirstNonSpace(s, 0) == 0;
      assert EndOfText(s, 0, |s|) == |s|;
      assert s[0..|s|] == s;
    }
  }

  predicate StartsWith(s: string, prefix: string) {
    |prefix| <= |s| && s[..|prefix|] == prefix
  }

  predicate EndsWith(s: string, suffix: string) {
    |suffix| <= |s| && s[|s| - |suffix|..] == suffix
  }

  lemma EndsWithAppend(s: string, suffix: string)
    ensures EndsWith(s + suffix, suffix)
  {
    assert forall k :: 0 <= k < |suffix| ==> (s + suffix)[|s|..][k] == suffix[k];
  }

  /** `part` occurs in `s` starting at index `i`. */
  predicate OccursAt(s: string, part: string, i: nat) {
    i + |part| <= |s| && s[i..i + |part|] == part
  }

  /** `String.prototype.includes`. */
  function Contains(s: string, part: string): (r: bool)
    ensures r <==> exists i: nat :: OccursAt(s, part, i)
    decreases |s|
  {
    if StartsWith(s, part) then
      assert OccursAt(s, part, 0);
      true
    else if s == [] then
      assert forall i: nat :: !OccursAt(s, part, i);
      false
    else
      var r := Contains(s[1..], part);
      assert forall i: nat :: OccursAt(s[1..], part, i) <==> OccursAt(s, part, i + 1);
      assert forall i: nat :: OccursAt(s, part, i) && i > 0 ==> OccursAt(s[1..], part, i - 1);
      r
  }

  /** The position just after the last `/` in `s[..j]`, or 0 when there is none. */
  function SegmentStart(s: string, j: nat): (k: nat)
    requires j <= |s|
    ensures k <= j
    ensures forall i :: k <= i < j ==> s[i] != '/'
    ensures k > 0 ==> s[k - 1] == '/'
    decreases j
  {
    if j == 0 || s[j - 1] == '/' then j else SegmentStart(s, j - 1)
  }

  /**
   * `s.includes('/') ? s.split('/').pop() : s`: the text after the last `/`,
   * or all of `s` when it has none.
   */
  function LastSegment(s: string): (r: string)
    ensures '/' !in r
    ensures EndsWith(s, r)
    ensures |r| < |s| ==> s[|s| - |r| - 1] == '/'
    ensures '/' !in s ==> r == s
  {
    var k := SegmentStart(s, |s|);
    assert forall i :: 0 <= i < |s| - k ==> s[k..][i] == s[k + i];
    assert k > 0 ==> s[k - 1] in s;
    s[k..]
  }

  /** A namespaced name `ns/.../name` normalises to its bare trailing `name`. */
  lemma LastSegmentOfNamespaced(s: string, name: string)
    requires '/' !in name
    requires EndsWith(s, "/" + name)
    ensures LastSegment(s) == name
  {
    var r := LastSegment(s);
    var slash := |s| - |name| - 1;
    assert s[slash] == ("/" + name)[0] == '/';
    assert s[|s| - |name|..] == ("/" + name)[1..] == name;
  }

  /** `s.split('/')[0]`: the text before the first `/`, or all of `s`. */
  function FirstSegment(s: string): (r: string)
    ensures '/' !in r
    ensures StartsWith(s, r)
    ensures |r| < |s| ==> s[|r|] == '/'
    ensures '/' !in s ==> r == s
  {
    if s == [] || s[0] == '/' then [] else [s[0]] + FirstSegment(s[1..])
  }

  /** `s.split('/')[1]`: the second `/`-separated piece, absent when `s` has no `/`. */
  function SecondSegment(s: string): (r: Option<string>)
    ensures r.None? <==> '/' !in s
    ensures r.Some? ==> '/' !in r.value
  {
    if '/' in s then
      var head := FirstSegment(s);
      assert |head| < |s|;
      Some(FirstSegment(s[|head| + 1..]))
    else None
  }

  /** Splitting `a/b...` (with `a`, `b` free of `/`) yields `b` as its second piece. */
  lemma {:induction false} SecondSegmentOf(a: string, b: string, rest: string)
    requires '/' !in a && '/' !in b
    requires rest == [] || rest[0] == '/'
    ensures SecondSegment(a + "/" + b + rest) == Some(b)
  {
    var s := a + "/" + b + rest;
    assert s[|a|] == '/';
    FirstSegmentOf(a, "/" + b + rest);
    assert s[|a| + 1..] == b + rest;
    FirstSegmentOf(b, rest);
  }

  /** The first piece of `a` followed by `/...` (or by nothing) is `a`. */
  lemma {:induction false} FirstSegmentOf(a: string, rest: string)
    requires '/' !in a
    requires rest == [] || rest[0] == '/'
    ensures FirstSegment(a + rest) == a
  {
    if a != [] {
      assert (a + rest)[1..] == a[1..] + rest;
      FirstSegmentOf(a[1..], rest);
    }
  }

  /** A lower-case ASCII letter becomes its capital; any other character is kept. */
  function UpperAscii(c: char): (u: char)
    ensures !('a' <= u <= 'z')
    ensures 'a' <= c <= 'z' ==> 'A' <= u <= 'Z' && u as int - 'A' as int == c as int - 'a' as int
    ensures !('a' <= c <= 'z') ==> u == c
  {
    if 'a' <= c <= 'z' then (c as int - 32) as char else c
  }

  /** `String.prototype.toUpperCase`, for the ASCII letters. */
  function ToUpper(s: string): (r: string)
    ensures |r| == |s|
    ensures forall k :: 0 <= k < |s| ==> r[k] == UpperAscii(s[k])
  {
    seq(|s|, k requires 0 <= k < |s| => UpperAscii(s[k]))
  }

  predicate IsDigit(c: char) {
    '0' <= c <= '9'
  }

  function DigitChar(d: nat): (c: char)
    requires d < 10
    ensures IsDigit(c) && c as int - '0' as int == d
  {
    ('0' as int + d) as char
  }

  /** Decimal rendering of a number, as in `${status}`. */
  function NatToString(n: nat): (r: string)
    ensures r != [] && forall k :: 0 <= k < |r| ==> IsDigit(r[k])
  {
    if n < 10 then [DigitChar(n)] else NatToString(n / 10) + [DigitChar(n % 10)]
  }

  /** The number a string of decimal digits denotes. */
  function DecimalValue(s: string): nat
    requires forall k :: 0 <= k < |s| ==> IsDigit(s[k])
  {
    if s == [] then 0
    else
      assert IsDigit(s[|s| - 1]);
      10 * DecimalValue(s[..|s| - 1]) + (s[|s| - 1] as int - '0' as int)
  }

  /** Rendering a status code loses nothing: reading the digits back gives the code. */
  lemma {:induction false} NatToStringRoundTrip(n: nat)
    ensures DecimalValue(NatToString(n)) == n
  {
    if n >= 10 {
      var r := NatToString(n);
      assert r[..|r| - 1] == NatToString(n / 10);
      NatToStringRoundTrip(n / 10);
    }
  }
}
