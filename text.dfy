/**
 * The few string built-ins of Python that the bot relies on: `upper`, `lower`,
 * `capitalize`, the substring test `a in b`, and `split(',')` / `','.join`.
 * Case mapping is modelled on ASCII letters only (see README, "Left out").
 */
module Text {

  predicate IsUpperChar(c: char) { 'A' <= c <= 'Z' }

  predicate IsLowerChar(c: char) { 'a' <= c <= 'z' }

  function UpperChar(c: char): (u: char)
    ensures !IsLowerChar(u)
  {
    if IsLowerChar(c) then (c as int - 32) as char else c
  }

  function LowerChar(c: char): (l: char)
    ensures !IsUpperChar(l)
  {
    if IsUpperChar(c) then (c as int + 32) as char else c
  }

  /** `s.upper()` */
  function Upper(s: string): (r: string)
    ensures |r| == |s|
  {
    seq(|s|, i requires 0 <= i < |s| => UpperChar(s[i]))
  }

  /** `s.lower()` */
  function Lower(s: string): (r: string)
    ensures |r| == |s|
  {
    seq(|s|, i requires 0 <= i < |s| => LowerChar(s[i]))
  }

  /** `s.capitalize()`: first character upper-cased, all the others lower-cased. */
  function Capitalize(s: string): (r: string)
    ensures |r| == |s|
  {
    if |s| == 0 then "" else [UpperChar(s[0])] + Lower(s[1..])
  }

  lemma UpperIdempotent(s: string)
    ensures Upper(Upper(s)) == Upper(s)
  {
  }

  /** Lower-casing first does not change what `upper` yields. */
  lemma UpperOfLower(s: string)
    ensures Upper(Lower(s)) == Upper(s)
  {
  }

  /** A string `Upper` can produce has no lower-case letter. */
  lemma UpperHasNoLower(s: string, i: nat)
    requires i < |s|
    ensures !IsLowerChar(Upper(s)[i])
  {
  }

  /** Past its first character, a capitalized string has no upper-case letter. */
  lemma CapitalizeTailHasNoUpper(s: string, i: nat)
    requires 1 <= i < |s|
    ensures !IsUpperChar(Capitalize(s)[i])
  {
    assert Capitalize(s)[i] == Lower(s[1..])[i - 1];
  }

  predicate IsPrefix(p: string, s: string)
  {
    |p| <= |s| && s[..|p|] == p
  }

  /** Python's `p in s` for strings. */
  predicate IsSubstring(p: string, s: string)
    decreases |s|
  {
    IsPrefix(p, s) || (|s| > 0 && IsSubstring(p, s[1..]))
  }

  lemma EmptyIsSubstring(s: string)
    ensures IsSubstring("", s)
  {
    assert IsPrefix("", s);
  }

  /** `s.split(',')`: never empty; "" splits into [""]. */
  function Split(s: string): (parts: seq<string>)
    ensures |parts| >= 1
    ensures forall i :: 0 <= i < |parts| ==> ',' !in parts[i]
    decreases |s|
  {
    if |s| == 0 then [""]
    else if s[0] == ',' then [""] + Split(s[1..])
    else
      var rest := Split(s[1..]);
      [[s[0]] + rest[0]] + rest[1..]
  }

  /** `','.join(parts)` */
  function Join(parts: seq<string>): string
    decreases |parts|
  {
    if |parts| == 0 then ""
    else if |parts| == 1 then parts[0]
    else parts[0] + "," + Join(parts[1..])
  }

  predicate NoCommas(parts: seq<string>)
  {
    forall i :: 0 <= i < |parts| ==> ',' !in parts[i]
  }

  /** Splitting a joined list of comma-free entries gives the entries back. */
  lemma {:induction false} SplitJoin(parts: seq<string>)
    requires |parts| >= 1 && NoCommas(parts)
    ensures Split(Join(parts)) == parts
    decreases |Join(parts)|
  {
    if |parts| == 1 {
      SplitNoComma(parts[0]);
    } else if |parts[0]| == 0 {
      assert Join(parts) == "," + Join(parts[1..]);
      assert Join(parts)[1..] == Join(parts[1..]);
      SplitJoin(parts[1..]);
    } else {
      var head := parts[0];
      var shorter := [head[1..]] + parts[1..];
      assert NoCommas(shorter) by {
        assert forall c :: c in head[1..] ==> c in head;
      }
      assert Join(shorter) == head[1..] + "," + Join(parts[1..]);
      assert Join(parts) == [head[0]] + Join(shorter);
      SplitJoin(shorter);
      assert Join(parts)[1..] == Join(shorter);
      assert [head[0]] + head[1..] == head;
    }
  }

  /** A string with no comma splits into itself. */
  lemma {:induction false} SplitNoComma(s: string)
    requires ',' !in s
    ensures Split(s) == [s]
    decreases |s|
  {
    if |s| > 0 {
      assert forall c :: c in s[1..] ==> c in s;
      SplitNoComma(s[1..]);
      assert [s[0]] + s[1..] == s;
    }
  }
}
