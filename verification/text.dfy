/**
 * Characters and substrings as the scraper's regular expressions see them.
 *
 * JavaScript strings are modelled as `seq<char>`. Character classes are the
 * ones the patterns in the scraper use: `[a-z]`, `[A-Z]`, `\d`, `\s`, and the
 * line terminators that `.` refuses to match.
 */
module Text {

  datatype Option<+T> = None | Some(value: T)

  /** `[a-z]` */
  predicate IsLower(c: char) { 'a' <= c <= 'z' }

  /** `[A-Z]` */
  predicate IsUpper(c: char) { 'A' <= c <= 'Z' }

  /** `\d` */
  predicate IsDigit(c: char) { '0' <= c <= '9' }

  /** `\s`: the ECMAScript white space and line terminator characters. */
  predicate IsSpace(c: char) {
    var n := c as int;
    || n == 0x09 || n == 0x0A || n == 0x0B || n == 0x0C || n == 0x0D || n == 0x20
    || n == 0xA0 || n == 0x1680 || 0x2000 <= n <= 0x200A || n == 0x2028 || n == 0x2029
    || n == 0x202F || n == 0x205F || n == 0x3000 || n == 0xFEFF
  }

  /** The characters that the regular-expression atom `.` does not match. */
  predicate IsLineTerminator(c: char) {
    c == '\n' || c == '\r' || c as int == 0x2028 || c as int == 0x2029
  }

  predicate NoLineTerminator(s: string) {
    forall i :: 0 <= i < |s| ==> !IsLineTerminator(s[i])
  }

  /** Upper-casing of one character, on the ASCII letters. */
  function ToUpper(c: char): char {
    if IsLower(c) then (c as int - 32) as char else c
  }

  /** Lower-casing of one character, on the ASCII letters. */
  function ToLower(c: char): char {
    if IsUpper(c) then (c as int + 32) as char else c
  }

  /** `s.toLowerCase()`, on the ASCII letters. */
  function LowerCase(s: string): (r: string)
    ensures |r| == |s|
    ensures forall i :: 0 <= i < |s| ==> r[i] == ToLower(s[i])
  {
    if s == [] then [] else [ToLower(s[0])] + LowerCase(s[1..])
  }

  lemma {:induction false} LowerCaseHasNoUpper(s: string)
    ensures forall i :: 0 <= i < |s| ==> !IsUpper(LowerCase(s)[i])
    ensures LowerCase(LowerCase(s)) == LowerCase(s)
  {
    var r := LowerCase(s);
    assert forall i :: 0 <= i < |s| ==> r[i] == ToLower(s[i]);
    assert forall i :: 0 <= i < |r| ==> LowerCase(r)[i] == ToLower(r[i]);
  }

  /** `p` occurs in `s` starting at index `m`. */
  predicate OccursAt(s: string, p: string, m: int) {
    0 <= m && m + |p| <= |s| && s[m..m + |p|] == p
  }

  /** `s.indexOf(p)`: the first index at which `p` occurs in `s`. */
  function IndexOf(s: string, p: string): (r: Option<nat>)
    ensures r.Some? ==> OccursAt(s, p, r.value)
    ensures r.Some? ==> forall m :: 0 <= m < r.value ==> !OccursAt(s, p, m)
    ensures r.None? ==> forall m :: !OccursAt(s, p, m)
    decreases |s|
  {
    if p <= s then Some(0)
    else if s == [] then None
    else
      OccursAtTail(s, p);
      match IndexOf(s[1..], p)
      case None => None
      case Some(i) => Some(i + 1)
  }

  /** Occurrences in `s[1..]` are those in `s` shifted by one; none starts at 0 unless `p` is a prefix. */
  lemma OccursAtTail(s: string, p: string)
    requires s != []
    ensures OccursAt(s, p, 0) <==> p <= s
    ensures forall m :: 1 <= m ==> (OccursAt(s, p, m) <==> OccursAt(s[1..], p, m - 1))
  {
    forall m | 1 <= m
      ensures OccursAt(s, p, m) <==> OccursAt(s[1..], p, m - 1)
    {
      if m + |p| <= |s| {
        var here, there := s[m..m + |p|], s[1..][m - 1..m - 1 + |p|];
        assert |here| == |there|;
        assert forall q :: 0 <= q < |here| ==> here[q] == s[m + q] == there[q];
        assert here == there;
      }
    }
  }

  /** `re.test(s)` for a regular expression that is a plain literal `p`. */
  predicate Contains(s: string, p: string) {
    IndexOf(s, p).Some?
  }

  lemma ContainsIff(s: string, p: string)
    ensures Contains(s, p) <==> exists m :: OccursAt(s, p, m)
  {
  }

  /** `s.lastIndexOf(c)` for one character `c`. */
  function LastIndexOf(s: string, c: char): (r: Option<nat>)
    ensures r.Some? ==> r.value < |s| && s[r.value] == c
    ensures r.Some? ==> forall j :: r.value < j < |s| ==> s[j] != c
    ensures r.None? ==> forall j :: 0 <= j < |s| ==> s[j] != c
  {
    if s == [] then None
    else match LastIndexOf(s[1..], c)
      case Some(k) => Some(k + 1)
      case None => if s[0] == c then Some(0) else None
  }
}
