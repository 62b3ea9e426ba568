/**
 * The string handling the bot relies on: Python's str.strip(), str.split(sep),
 * str.split(sep, 1), int() on a str and str() on an int.
 */
module Text {
  import opened Wrappers

  /** Python's str.isspace() restricted to ASCII: tab through carriage return,
      the separators 0x1C to 0x1F, and the space. */
  predicate IsSpace(c: char) {
    c == ' ' || ('\t' <= c <= '\r') || ('\U{1C}' <= c <= '\U{1F}')
  }

  /** Leading whitespace removed. */
  function StripLeft(s: string): (r: string)
    ensures |r| <= |s| && r == s[|s| - |r|..]
    ensures forall i :: 0 <= i < |s| - |r| ==> IsSpace(s[i])
    ensures r != [] ==> !IsSpace(r[0])
  {
    if s != [] && IsSpace(s[0]) then StripLeft(s[1..]) else s
  }

  /** Trailing whitespace removed. */
  function StripRight(s: string): (r: string)
    ensures |r| <= |s| && r == s[..|r|]
    ensures forall i :: |r| <= i < |s| ==> IsSpace(s[i])
    ensures r != [] ==> !IsSpace(r[|r| - 1])
  {
    if s != [] && IsSpace(s[|s| - 1]) then StripRight(s[..|s| - 1]) else s
  }

  /** Python's s.strip(): neither end of the result is whitespace. */
  function Strip(s: string): (r: string)
    ensures |r| <= |s|
    ensures r != [] ==> !IsSpace(r[0]) && !IsSpace(r[|r| - 1])
    ensures var a := |s| - |StripLeft(s)|; a + |r| <= |s| && r == s[a..a + |r|]
    ensures var a := |s| - |StripLeft(s)|; forall i :: 0 <= i < a ==> IsSpace(s[i])
    ensures var a := |s| - |StripLeft(s)|; forall i :: a + |r| <= i < |s| ==> IsSpace(s[i])
  {
    StripSlice(s);
    StripRight(StripLeft(s))
  }

  /** What survives both strips is one slice of s, with only whitespace around it. */
  lemma StripSlice(s: string)
    ensures var l := StripLeft(s);
            var r := StripRight(l);
            var a := |s| - |l|;
            a + |r| <= |s| && r == s[a..a + |r|] &&
            (forall i :: 0 <= i < a ==> IsSpace(s[i])) && (forall i :: a + |r| <= i < |s| ==> IsSpace(s[i]))
  {
    StripSliceInner(s);
    StripSliceTrailing(s);
  }

  lemma StripSliceInner(s: string)
    ensures var l := StripLeft(s);
            var r := StripRight(l);
            var a := |s| - |l|;
            a + |r| <= |s| && r == s[a..a + |r|]
  {
    var l := StripLeft(s);
    var r := StripRight(l);
    var a := |s| - |l|;
    forall i | 0 <= i < |r|
      ensures r[i] == s[a + i]
    {
      assert r[i] == l[i] == s[a + i];
    }
    assert |s[a..a + |r|]| == |r|;
  }

  lemma StripSliceTrailing(s: string)
    ensures var l := StripLeft(s);
            var r := StripRight(l);
            var a := |s| - |l|;
            forall i :: a + |r| <= i < |s| ==> IsSpace(s[i])
  {
    var l := StripLeft(s);
    var r := StripRight(l);
    var a := |s| - |l|;
    forall i | a + |r| <= i < |s|
      ensures IsSpace(s[i])
    {
      assert s[i] == l[i - a];
    }
  }

  /** A string that neither starts nor ends with whitespace is its own strip. */
  lemma StripUnchanged(s: string)
    requires s != [] && !IsSpace(s[0]) && !IsSpace(s[|s| - 1])
    ensures Strip(s) == s
  {
  }

  /** Stripping twice is stripping once. */
  lemma StripIdempotent(s: string)
    ensures Strip(Strip(s)) == Strip(s)
  {
    if Strip(s) != [] {
      StripUnchanged(Strip(s));
    }
  }

  predicate IsDigit(c: char) {
    '0' <= c <= '9'
  }

  predicate AllDigits(s: string) {
    forall i :: 0 <= i < |s| ==> IsDigit(s[i])
  }

  /** The value of a string of decimal digits, most significant first. */
  function DigitsValue(s: string): nat
    requires AllDigits(s)
  {
    if s == [] then 0 else DigitsValue(s[..|s| - 1]) * 10 + (s[|s| - 1] as int - '0' as int)
  }

  /** What Python's int() accepts once the whitespace around the number is
      gone: an optional sign and one or more decimal digits. */
  function ParseDecimal(s: string): (r: Option<int>)
    ensures r.Some? ==> s != [] && forall i :: 0 <= i < |s| ==> IsDigit(s[i]) || (i == 0 && (s[i] == '-' || s[i] == '+'))
    ensures r.Some? ==> IsDigit(s[|s| - 1])
  {
    if s == [] then None
    else if s[0] == '-' || s[0] == '+' then
      var digits := s[1..];
      if digits != [] && AllDigits(digits) then
        var v: int := DigitsValue(digits);
        Some(if s[0] == '-' then -v else v)
      else None
    else if AllDigits(s) then Some(DigitsValue(s))
    else None
  }

  /** Python's int(s): None where int() raises ValueError. */
  function PyInt(s: string): (r: Option<int>)
    ensures r.Some? ==> exists i :: 0 <= i < |s| && IsDigit(s[i])
    ensures r.Some? ==> forall i :: 0 <= i < |s| ==> IsDigit(s[i]) || IsSpace(s[i]) || s[i] == '-' || s[i] == '+'
  {
    PyIntChars(s);
    ParseDecimal(Strip(s))
  }

  /** The characters of a string int() accepts: digits, signs and whitespace, and at
      least one digit. */
  lemma PyIntChars(s: string)
    ensures ParseDecimal(Strip(s)).Some? ==> exists i :: 0 <= i < |s| && IsDigit(s[i])
    ensures ParseDecimal(Strip(s)).Some? ==>
              forall i :: 0 <= i < |s| ==> IsDigit(s[i]) || IsSpace(s[i]) || s[i] == '-' || s[i] == '+'
  {
    var t := Strip(s);
    var a := |s| - |StripLeft(s)|;
    if ParseDecimal(t).Some? {
      forall i | 0 <= i < |s|
        ensures IsDigit(s[i]) || IsSpace(s[i]) || s[i] == '-' || s[i] == '+'
      {
        if a <= i < a + |t| {
          assert s[i] == t[i - a];
        }
      }
      assert s[a + |t| - 1] == t[|t| - 1];
    }
  }

  function DigitChar(d: nat): (c: char)
    requires d < 10
    ensures IsDigit(c) && c as int - '0' as int == d
  {
    ('0' as int + d) as char
  }

  /** Python's str(n) for n >= 0: the decimal digits of n. */
  function NatToString(n: nat): (r: string)
    ensures r != [] && AllDigits(r) && DigitsValue(r) == n
    decreases n
  {
    if n < 10 then [DigitChar(n)]
    else
      var high := NatToString(n / 10);
      var r := high + [DigitChar(n % 10)];
      assert r[..|r| - 1] == high;
      r
  }

  /** Python's str(n): a minus sign for negative numbers, then the digits. */
  function IntToString(n: int): (r: string)
    ensures r != [] && !IsSpace(r[0]) && !IsSpace(r[|r| - 1])
    ensures forall i :: 0 <= i < |r| ==> IsDigit(r[i]) || (i == 0 && r[i] == '-')
  {
    if n < 0 then "-" + NatToString(-n) else NatToString(n)
  }

  /** int(str(n)) == n. */
  lemma IntToStringRoundTrip(n: int)
    ensures PyInt(IntToString(n)) == Some(n)
  {
    var r := IntToString(n);
    StripUnchanged(r);
    if n < 0 {
      assert r[1..] == NatToString(-n);
    }
  }

  /** Distinct integers print differently. */
  lemma IntToStringInjective(a: int, b: int)
    ensures IntToString(a) == IntToString(b) <==> a == b
  {
    IntToStringRoundTrip(a);
    IntToStringRoundTrip(b);
  }

  /** No separator used in a callback string or the admin list occurs in str(n). */
  lemma IntToStringHasNo(n: int, c: char)
    requires !IsDigit(c) && c != '-'
    ensures c !in IntToString(n)
  {
  }

  /** Python's s.split(sep): the pieces between separators, always at least one. */
  function Split(s: string, sep: char): (parts: seq<string>)
    ensures |parts| >= 1
    ensures forall p :: p in parts ==> sep !in p
  {
    if s == [] then [[]]
    else
      var rest := Split(s[1..], sep);
      if s[0] == sep then [[]] + rest
      else
        assert sep !in rest[0];
        [[s[0]] + rest[0]] + rest[1..]
  }

  /** Python's sep.join(parts), for a non-empty list. */
  function Join(parts: seq<string>, sep: char): string
    requires |parts| >= 1
  {
    if |parts| == 1 then parts[0] else parts[0] + [sep] + Join(parts[1..], sep)
  }

  /** Joining the pieces of a split gives back the original string. */
  lemma {:induction false} JoinSplit(s: string, sep: char)
    ensures Join(Split(s, sep), sep) == s
  {
    if s != [] {
      JoinSplit(s[1..], sep);
      var rest := Split(s[1..], sep);
      if s[0] == sep {
        assert ([[]] + rest)[1..] == rest;
      } else if |rest| > 1 {
        var parts := [[s[0]] + rest[0]] + rest[1..];
        assert parts[1..] == rest[1..];
        assert Join(rest, sep) == rest[0] + [sep] + Join(rest[1..], sep);
      }
    }
  }

  /** A split of a string that starts with a separator-free piece a. */
  lemma {:induction false} SplitAfterPiece(a: string, t: string, sep: char)
    requires sep !in a
    ensures Split(a + t, sep) == [a + Split(t, sep)[0]] + Split(t, sep)[1..]
  {
    if a != [] {
      SplitAfterPiece(a[1..], t, sep);
      assert (a + t)[1..] == a[1..] + t;
      assert [a[0]] + (a[1..] + Split(t, sep)[0]) == a + Split(t, sep)[0];
    } else {
      var pieces := Split(t, sep);
      assert a + t == t && a + pieces[0] == pieces[0];
      assert pieces == [pieces[0]] + pieces[1..];
    }
  }

  /** A separator-free string splits into itself. */
  lemma SplitNoSeparator(a: string, sep: char)
    requires sep !in a
    ensures Split(a, sep) == [a]
  {
    SplitAfterPiece(a, [], sep);
    var empty: string := [];
    assert a + empty == a;
    assert Split(empty, sep) == [empty];
    assert Split(a, sep) == [a + empty] + [];
  }

  /** Splitting a + sep + t yields a and then the pieces of t. */
  lemma SplitOnSeparator(a: string, t: string, sep: char)
    requires sep !in a
    ensures Split(a + [sep] + t, sep) == [a] + Split(t, sep)
  {
    SplitAfterPiece(a, [sep] + t, sep);
    var u := [sep] + t;
    var empty: string := [];
    assert a + [sep] + t == a + u;
    assert u[1..] == t;
    assert Split(u, sep) == [empty] + Split(t, sep);
    assert a + empty == a;
  }

  /** Splitting the join of separator-free pieces gives back the pieces. */
  lemma {:induction false} SplitJoin(parts: seq<string>, sep: char)
    requires |parts| >= 1 && forall p :: p in parts ==> sep !in p
    ensures Split(Join(parts, sep), sep) == parts
  {
    if |parts| == 1 {
      SplitNoSeparator(parts[0], sep);
    } else {
      assert parts[0] in parts;
      assert forall p :: p in parts[1..] ==> p in parts;
      SplitJoin(parts[1..], sep);
      SplitOnSeparator(parts[0], Join(parts[1..], sep), sep);
      assert parts == [parts[0]] + parts[1..];
    }
  }

  /** Python's s.split(sep, 1): the text before the first separator and the
      text after it, or the whole string when it holds no separator. */
  function SplitOnce(s: string, sep: char): (parts: seq<string>)
    ensures |parts| == 1 || |parts| == 2
    ensures |parts| == 1 <==> sep !in s
    ensures |parts| == 1 ==> parts[0] == s
    ensures |parts| == 2 ==> sep !in parts[0] && parts[0] + [sep] + parts[1] == s
  {
    var all := Split(s, sep);
    JoinSplit(s, sep);
    if |all| == 1 then
      assert all[0] in all;
      [s]
    else
      assert all[0] in all;
      assert s[|all[0]|] == sep;
      [all[0], Join(all[1..], sep)]
  }

  /** The piece before the first separator is determined by the string. */
  lemma SplitOnceAfter(prefix: string, t: string, sep: char)
    requires sep !in prefix
    ensures SplitOnce(prefix + [sep] + t, sep) == [prefix, t]
  {
    var s := prefix + [sep] + t;
    assert s[|prefix|] == sep;
    var parts := SplitOnce(s, sep);
    var p0 := parts[0];
    assert s[|p0|] == sep;
    assert forall i :: 0 <= i < |p0| ==> s[i] == p0[i] && s[i] != sep;
    assert forall i :: 0 <= i < |prefix| ==> s[i] == prefix[i] && s[i] != sep;
    assert |p0| == |prefix|;
    assert p0 == s[..|p0|] == prefix;
    assert parts[1] == s[|p0| + 1..] == t;
  }
}
