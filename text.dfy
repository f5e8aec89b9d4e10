/** String helpers shared by the CSV codec, the routing rules and the record
    generators: Python's `str.split(sep)`, `sep.join(parts)`, prefix and
    suffix tests, and ASCII case mapping. */
module Text {

  /** Python's `s.split(sep)` for a one-character separator: the pieces
      between separators, an empty piece where two separators touch or at
      either end. */
  function Split(s: string, sep: char): (parts: seq<string>)
    ensures |parts| >= 1
    ensures forall i :: 0 <= i < |parts| ==> sep !in parts[i]
    ensures forall i, c :: 0 <= i < |parts| && c in parts[i] ==> c in s
  {
    if s == [] then [""]
    else
      assert forall c :: c in s[1..] ==> c in s;
      if s[0] == sep then [""] + Split(s[1..], sep)
      else
        var rest := Split(s[1..], sep);
        [[s[0]] + rest[0]] + rest[1..]
  }

  /** The first piece of a split is a prefix of the string. */
  lemma {:induction false} SplitFirstIsPrefix(s: string, sep: char)
    ensures |Split(s, sep)[0]| <= |s| && s[..|Split(s, sep)[0]|] == Split(s, sep)[0]
  {
    if s != [] && s[0] != sep {
      SplitFirstIsPrefix(s[1..], sep);
    }
  }

  /** Text after the first separator does not change the first piece. */
  lemma {:induction false} SplitFirstExtends(a: string, b: string, sep: char)
    requires sep in a
    ensures Split(a + b, sep)[0] == Split(a, sep)[0]
  {
    assert (a + b)[0] == a[0] && (a + b)[1..] == a[1..] + b;
    if a[0] != sep {
      SplitFirstExtends(a[1..], b, sep);
    }
  }

  /** Python's `sep.join(parts)`. */
  function Join(parts: seq<string>, sep: char): string
  {
    if parts == [] then ""
    else if |parts| == 1 then parts[0]
    else parts[0] + [sep] + Join(parts[1..], sep)
  }

  lemma {:induction false} SplitNoSep(a: string, sep: char)
    requires sep !in a
    ensures Split(a, sep) == [a]
  {
    if a != [] {
      SplitNoSep(a[1..], sep);
      assert [a[0]] + a[1..] == a;
    }
  }

  lemma {:induction false} SplitAfterPiece(a: string, sep: char, rest: string)
    requires sep !in a
    ensures Split(a + [sep] + rest, sep) == [a] + Split(rest, sep)
  {
    if a == [] {
      assert a + [sep] + rest == [sep] + rest;
      assert ([sep] + rest)[1..] == rest;
    } else {
      var s := a + [sep] + rest;
      assert s[0] == a[0] && s[1..] == a[1..] + [sep] + rest;
      SplitAfterPiece(a[1..], sep, rest);
      assert [a[0]] + a[1..] == a;
    }
  }

  /** Splitting a join gives the pieces back, provided no piece holds the
      separator. */
  lemma {:induction false} SplitJoin(parts: seq<string>, sep: char)
    requires |parts| >= 1
    requires forall i :: 0 <= i < |parts| ==> sep !in parts[i]
    ensures Split(Join(parts, sep), sep) == parts
  {
    if |parts| == 1 {
      SplitNoSep(parts[0], sep);
    } else {
      SplitJoin(parts[1..], sep);
      SplitAfterPiece(parts[0], sep, Join(parts[1..], sep));
      assert [parts[0]] + parts[1..] == parts;
    }
  }

  predicate StartsWith(s: string, prefix: string)
  {
    |prefix| <= |s| && s[..|prefix|] == prefix
  }

  predicate EndsWith(s: string, suffix: string)
  {
    |suffix| <= |s| && s[|s| - |suffix|..] == suffix
  }

  predicate IsAsciiLower(c: char) { 'a' <= c <= 'z' }

  predicate IsAsciiUpper(c: char) { 'A' <= c <= 'Z' }

  /** ASCII lower-casing: an upper-case letter becomes the lower-case
      letter at the same place in the alphabet; every other character is
      kept. */
  function LowerChar(c: char): (l: char)
    ensures !IsAsciiUpper(l)
    ensures IsAsciiUpper(c) ==> IsAsciiLower(l) && l as int - 'a' as int == c as int - 'A' as int
    ensures !IsAsciiUpper(c) ==> l == c
  {
    if IsAsciiUpper(c) then (c as int + 32) as char else c
  }

  /** ASCII upper-casing: a lower-case letter becomes the upper-case letter
      that lower-cases back to it; every other character is kept. */
  function UpperChar(c: char): (u: char)
    ensures !IsAsciiLower(u)
    ensures IsAsciiLower(c) ==> IsAsciiUpper(u) && LowerChar(u) == c
    ensures !IsAsciiLower(c) ==> u == c
  {
    if IsAsciiLower(c) then (c as int - 32) as char else c
  }

  /** Upper-casing undoes lower-casing on upper-case letters. */
  lemma UpperOfLower(c: char)
    requires IsAsciiUpper(c)
    ensures UpperChar(LowerChar(c)) == c
  {
  }

  /** Two strings spell the same text when case is ignored. */
  predicate SameIgnoringCase(a: string, b: string)
  {
    |a| == |b| && forall i :: 0 <= i < |a| ==> LowerChar(a[i]) == LowerChar(b[i])
  }

  /** Python's `s.upper()`, restricted to ASCII letters: the same text
      ignoring case, with no lower-case letter left. */
  function Upper(s: string): (u: string)
    ensures SameIgnoringCase(u, s)
    ensures forall i :: 0 <= i < |u| ==> !IsAsciiLower(u[i])
  {
    seq(|s|, i requires 0 <= i < |s| => UpperChar(s[i]))
  }

  /** Upper-casing twice is upper-casing once. */
  lemma UpperIdempotent(s: string)
    ensures Upper(Upper(s)) == Upper(s)
  {
    var u := Upper(s);
    assert forall i :: 0 <= i < |u| ==> Upper(u)[i] == u[i];
  }

  /** Python's `s.capitalize()`, restricted to ASCII letters: the same text
      ignoring case, whose first character is not a lower-case letter and
      whose other characters are not upper-case letters. */
  function Capitalize(s: string): (c: string)
    ensures SameIgnoringCase(c, s)
    ensures |c| > 0 ==> !IsAsciiLower(c[0])
    ensures forall i :: 0 < i < |c| ==> !IsAsciiUpper(c[i])
  {
    if s == [] then ""
    else [UpperChar(s[0])] + seq(|s| - 1, i requires 0 <= i < |s| - 1 => LowerChar(s[i + 1]))
  }

  /** Capitalising twice is capitalising once. */
  lemma CapitalizeIdempotent(s: string)
    ensures Capitalize(Capitalize(s)) == Capitalize(s)
  {
    var c := Capitalize(s);
    assert forall i :: 0 <= i < |c| ==> Capitalize(c)[i] == c[i];
  }
}
