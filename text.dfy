/** The pieces of Python's string and integer built-ins that the CRM mutations
    rely on: `str.strip()`, the case folding behind Django's `iexact` lookup,
    `str(int)`, `repr` of a list of ints and `int(str)` for ids. */
module Text {
  import opened Wrappers

  // ---------------------------------------------------------------------------
  // Whitespace and str.strip()
  // ---------------------------------------------------------------------------

  /** The characters Python's `str.isspace()` accepts; `str.strip()` removes
      exactly these from both ends. */
  predicate IsSpace(c: char)
  {
    c == ' ' || ('\t' <= c <= '\r') || ('\U{1c}' <= c <= '\U{1f}') ||
    c == '\U{85}' || c == '\U{a0}' || c == '\U{1680}' || ('\U{2000}' <= c <= '\U{200a}') ||
    c == '\U{2028}' || c == '\U{2029}' || c == '\U{202f}' || c == '\U{205f}' || c == '\U{3000}'
  }

  /** No whitespace at either end: what `strip()` leaves behind. */
  predicate Unpadded(s: string)
  {
    s == [] || (!IsSpace(s[0]) && !IsSpace(s[|s| - 1]))
  }

  /** `s.lstrip()`: the suffix of `s` left after dropping leading whitespace. */
  function TrimStart(s: string): (r: string)
    ensures |r| <= |s| && r == s[|s| - |r|..]
    ensures forall k :: 0 <= k < |s| - |r| ==> IsSpace(s[k])
    ensures r == [] || !IsSpace(r[0])
  {
    if |s| > 0 && IsSpace(s[0]) then TrimStart(s[1..]) else s
  }

  /** `s.rstrip()`: the prefix of `s` left after dropping trailing whitespace. */
  function TrimEnd(s: string): (r: string)
    ensures |r| <= |s| && r == s[..|r|]
    ensures forall k :: |r| <= k < |s| ==> IsSpace(s[k])
    ensures r == [] || !IsSpace(r[|r| - 1])
  {
    if |s| > 0 && IsSpace(s[|s| - 1]) then TrimEnd(s[..|s| - 1]) else s
  }

  /** The number of whitespace characters `lstrip()` removes from `s`. */
  function LeadingSpaces(s: string): (n: nat)
    ensures n <= |s|
    ensures forall k :: 0 <= k < n ==> IsSpace(s[k])
    ensures n == |s| || !IsSpace(s[n])
  {
    |s| - |TrimStart(s)|
  }

  /** `s.strip()`: the infix of `s` left after removing whitespace, and only
      whitespace, from both ends. */
  function Strip(s: string): (r: string)
    ensures Unpadded(r)
    ensures LeadingSpaces(s) + |r| <= |s|
    ensures r == s[LeadingSpaces(s)..LeadingSpaces(s) + |r|]
    ensures forall k :: LeadingSpaces(s) + |r| <= k < |s| ==> IsSpace(s[k])
  {
    TrimEnd(TrimStart(s))
  }

  /** Stripping a string that has no whitespace at its ends changes nothing. */
  lemma StripUnpadded(s: string)
    requires Unpadded(s)
    ensures Strip(s) == s
  {
  }

  /** One space on each side of an unpadded string is stripped away. */
  lemma {:induction false} StripPadded(s: string)
    requires Unpadded(s)
    ensures Strip(" " + s + " ") == s
  {
    var t := " " + s + " ";
    assert t[1..] == s + " ";
    if s == [] {
      assert TrimStart(t[1..][1..]) == [];
    } else {
      var u := s + " ";
      assert TrimStart(t) == u;
      assert u[..|u| - 1] == s;
      assert TrimEnd(u) == TrimEnd(s);
      StripUnpadded(s);
    }
  }

  /** `strip()` is idempotent: a stored (stripped) value strips to itself. */
  lemma StripIdempotent(s: string)
    ensures Strip(Strip(s)) == Strip(s)
  {
    StripUnpadded(Strip(s));
  }

  /** Stripping a value that carries one extra leading space gives the value. */
  lemma {:induction false} StripLeadingSpace(s: string)
    requires Unpadded(s)
    ensures Strip(" " + s) == s
  {
    var t := " " + s;
    assert t[1..] == s;
    assert TrimStart(t) == TrimStart(s);
    StripUnpadded(s);
  }

  /** Strings of different lengths never match ignoring case. */
  lemma DifferentLengthsDiffer(a: string, b: string)
    requires |a| != |b|
    ensures !EqualIgnoringCase(a, b)
  {
    assert |Lower(a)| != |Lower(b)|;
  }

  /** `not s.strip()`: a string strips to nothing exactly when it is all
      whitespace (the empty string included). */
  lemma StripBlank(s: string)
    ensures Strip(s) == [] <==> forall k :: 0 <= k < |s| ==> IsSpace(s[k])
  {
    if forall k :: 0 <= k < |s| ==> IsSpace(s[k]) {
      assert LeadingSpaces(s) == |s|;
    }
  }

  // ---------------------------------------------------------------------------
  // Case-insensitive comparison (Django's `iexact`)
  // ---------------------------------------------------------------------------

  /** ASCII lower-casing, as SQLite's LIKE folds case. */
  function LowerChar(c: char): (r: char)
    ensures 'A' <= c <= 'Z' ==> r as int == c as int + 32
    ensures !('A' <= c <= 'Z') ==> r == c
  {
    if 'A' <= c <= 'Z' then (c as int + 32) as char else c
  }

  function Lower(s: string): (r: string)
    ensures |r| == |s|
    ensures forall i :: 0 <= i < |s| ==> r[i] == LowerChar(s[i])
  {
    seq(|s|, i requires 0 <= i < |s| => LowerChar(s[i]))
  }

  /** `a__iexact=b`: equal once both are case-folded. */
  predicate EqualIgnoringCase(a: string, b: string)
  {
    Lower(a) == Lower(b)
  }

  /** Two strings match ignoring case exactly when they have the same length
      and agree character by character up to case. */
  lemma EqualIgnoringCaseAt(a: string, b: string)
    ensures EqualIgnoringCase(a, b) <==>
              |a| == |b| && forall i :: 0 <= i < |a| ==> LowerChar(a[i]) == LowerChar(b[i])
  {
    if |a| == |b| && forall i :: 0 <= i < |a| ==> LowerChar(a[i]) == LowerChar(b[i]) {
      assert forall i :: 0 <= i < |a| ==> Lower(a)[i] == Lower(b)[i];
    }
  }

  // ---------------------------------------------------------------------------
  // Decimal digits: str(n), repr of a list of ints and int(s)
  // ---------------------------------------------------------------------------

  predicate IsDigit(c: char)
  {
    '0' <= c <= '9'
  }

  function DigitChar(d: nat): (c: char)
    requires d < 10
    ensures IsDigit(c) && c as int - '0' as int == d
  {
    ('0' as int + d) as char
  }

  function DigitValue(c: char): (d: nat)
    requires IsDigit(c)
    ensures d < 10 && DigitChar(d) == c
  {
    c as int - '0' as int
  }

  /** `str(n)` for a natural number: its shortest decimal numeral. */
  function NatToString(n: nat): (r: string)
    ensures |r| > 0 && forall i :: 0 <= i < |r| ==> IsDigit(r[i])
    ensures |r| > 1 ==> r[0] != '0'
    decreases n
  {
    if n < 10 then [DigitChar(n)] else NatToString(n / 10) + [DigitChar(n % 10)]
  }

  /** `str(n)` for any integer. */
  function IntToString(n: int): (r: string)
    ensures |r| > 0 && Unpadded(r)
    ensures r[0] == '-' <==> n < 0
  {
    if n < 0 then "-" + NatToString(-n) else NatToString(n)
  }

  /** The elements of a list joined by ", ", each rendered by `str`. */
  function JoinInts(xs: seq<int>): (r: string)
  {
    if xs == [] then ""
    else if |xs| == 1 then IntToString(xs[0])
    else IntToString(xs[0]) + ", " + JoinInts(xs[1..])
  }

  /** `str(xs)` for a Python list of ints, e.g. "[1, 2, 999]". */
  function ListToString(xs: seq<int>): (r: string)
    ensures |r| >= 2 && r[0] == '[' && r[|r| - 1] == ']'
  {
    "[" + JoinInts(xs) + "]"
  }

  /** The digit groups `int()` accepts in base 10: digits, with single
      underscores allowed between two digits ("1_000"). */
  predicate DigitGroups(b: string)
  {
    && |b| > 0 && IsDigit(b[0]) && IsDigit(b[|b| - 1])
    && forall i :: 0 <= i < |b| ==> IsDigit(b[i]) || (b[i] == '_' && i + 1 < |b| && IsDigit(b[i + 1]))
  }

  /** The number written by the digits of `b`, underscores ignored. */
  function GroupsValue(b: string): (v: nat)
  {
    if b == [] then 0
    else
      var last := b[|b| - 1];
      var prefix := GroupsValue(b[..|b| - 1]);
      if IsDigit(last) then 10 * prefix + DigitValue(last) else prefix
  }

  /** The number of digits in `b`, underscores not counted. */
  function DigitCount(b: string): (n: nat)
    ensures n <= |b|
  {
    if b == [] then 0
    else DigitCount(b[..|b| - 1]) + if IsDigit(b[|b| - 1]) then 1 else 0
  }

  /** CPython's default limit on the digits of an integer converted from or
      to a decimal string (`sys.get_int_max_str_digits()`). */
  const MaxStrDigits: nat := 4300

  /** `str(n)` has at most `MaxStrDigits` digits, so CPython converts it. */
  predicate WithinDigitLimit(n: int)
  {
    |NatToString(if n < 0 then -n else n)| <= MaxStrDigits
  }

  /** The whitespace CPython's `int()` skips around the digits: the C
      locale's space, tab, newline, vertical tab, form feed and carriage
      return, and the non-ASCII characters `str.isspace()` accepts (which
      CPython first turns into spaces). The ASCII separators U+001C to U+001F
      are never skipped, although `str.isspace()` accepts them. */
  predicate IsIntSpace(c: char)
  {
    c == ' ' || ('\t' <= c <= '\r') || (c > '\U{7f}' && IsSpace(c))
  }

  /** `s` without the leading whitespace `int()` skips. */
  function IntTrimStart(s: string): (r: string)
    ensures |r| <= |s| && r == s[|s| - |r|..]
    ensures forall k :: 0 <= k < |s| - |r| ==> IsIntSpace(s[k])
    ensures r == [] || !IsIntSpace(r[0])
  {
    if |s| > 0 && IsIntSpace(s[0]) then IntTrimStart(s[1..]) else s
  }

  /** `s` without the trailing whitespace `int()` skips. */
  function IntTrimEnd(s: string): (r: string)
    ensures |r| <= |s| && r == s[..|r|]
    ensures forall k :: |r| <= k < |s| ==> IsIntSpace(s[k])
    ensures r == [] || !IsIntSpace(r[|r| - 1])
  {
    if |s| > 0 && IsIntSpace(s[|s| - 1]) then IntTrimEnd(s[..|s| - 1]) else s
  }

  /** The text `int()` reads once it has skipped the surrounding whitespace:
      the infix of `s` left after removing `IsIntSpace` characters, and only
      those, from both ends. */
  function IntStrip(s: string): (r: string)
    ensures r == [] || (!IsIntSpace(r[0]) && !IsIntSpace(r[|r| - 1]))
    ensures IntLeading(s) + |r| <= |s| && r == s[IntLeading(s)..IntLeading(s) + |r|]
    ensures forall k :: 0 <= k < IntLeading(s) ==> IsIntSpace(s[k])
    ensures forall k :: IntLeading(s) + |r| <= k < |s| ==> IsIntSpace(s[k])
  {
    var u := IntTrimStart(s);
    var r := IntTrimEnd(u);
    forall k | IntLeading(s) + |r| <= k < |s| ensures IsIntSpace(s[k]) {
      assert s[k] == u[k - IntLeading(s)];
    }
    r
  }

  /** How many characters `int()` skips before the text it reads. */
  function IntLeading(s: string): (n: nat)
    ensures n <= |s|
  {
    |s| - |IntTrimStart(s)|
  }

  /** A string with no skippable whitespace at its ends is parsed as a
      numeral without trimming. */
  lemma ParseUnpaddedNumeral(t: string)
    requires |t| > 0 && !IsIntSpace(t[0]) && !IsIntSpace(t[|t| - 1])
    ensures ParseInt(t) == ParseNumeral(t)
  {
    assert IntStrip(t) == t;
  }

  /** The text `int()` accepts once surrounding whitespace is skipped: one
      optional sign, then digit groups of at most `MaxStrDigits` digits. */
  predicate IsNumeral(t: string)
  {
    var d := if |t| > 0 && (t[0] == '-' || t[0] == '+') then t[1..] else t;
    DigitGroups(d) && DigitCount(d) <= MaxStrDigits
  }

  /** `int(s)` for a string in base 10: it succeeds exactly when the text left
      after skipping `int()`'s whitespace (`IntStrip`) is a numeral, and its
      value is negative only after a minus sign; anything else raises
      ValueError (None). */
  function ParseInt(s: string): (r: Option<int>)
    ensures r.Some? <==> IsNumeral(IntStrip(s))
    ensures r.Some? ==> IntStrip(s) != [] && (r.value < 0 ==> IntStrip(s)[0] == '-')
    ensures r.Some? && IntStrip(s)[0] == '-' ==> r.value <= 0
  {
    ParseNumeral(IntStrip(s))
  }

  /** What `int()` makes of the text between the skipped whitespace. */
  function ParseNumeral(t: string): (r: Option<int>)
    ensures r.Some? <==> IsNumeral(t)
    ensures r.Some? ==> t != [] && (r.value < 0 ==> t[0] == '-')
    ensures r.Some? && t[0] == '-' ==> r.value <= 0
  {
    if |t| > 0 && (t[0] == '-' || t[0] == '+') then
      if DigitGroups(t[1..]) && DigitCount(t[1..]) <= MaxStrDigits then
        var v: int := GroupsValue(t[1..]);
        assert IsDigit(t[1..][0]);
        assert IsDigit(t[1]);
        Some(if t[0] == '-' then -v else v)
      else None
    else if DigitGroups(t) && DigitCount(t) <= MaxStrDigits then
      assert IsDigit(t[0]);
      Some(GroupsValue(t))
    else None
  }

  lemma {:induction false} NatToStringValue(n: nat)
    ensures DigitGroups(NatToString(n))
    ensures GroupsValue(NatToString(n)) == n
    ensures DigitCount(NatToString(n)) == |NatToString(n)|
    decreases n
  {
    var r := NatToString(n);
    if n >= 10 {
      NatToStringValue(n / 10);
      assert r[..|r| - 1] == NatToString(n / 10);
    }
  }

  /** A minus sign followed by digit groups parses to the negated value of
      the groups. */
  lemma ParseMinus(d: string)
    requires DigitGroups(d) && DigitCount(d) <= MaxStrDigits
    ensures ParseNumeral("-" + d) == Some(-(GroupsValue(d) as int))
  {
    var t := "-" + d;
    assert t[1..] == d;
  }

  lemma {:induction false} ParseNatural(n: nat)
    requires |NatToString(n)| <= MaxStrDigits
    ensures ParseNumeral(NatToString(n)) == Some(n)
  {
    var r := NatToString(n);
    NatToStringValue(n);
    assert IsDigit(r[0]);
  }

  /** `str(n)` is ASCII and starts and ends with a non-space character, so
      `int()` reads all of it. */
  lemma {:induction false} ParseOwnNumeral(n: int)
    ensures ParseInt(IntToString(n)) == ParseNumeral(IntToString(n))
  {
    var t := IntToString(n);
    assert t[0] == '-' || IsDigit(t[0]);
    var m: nat := if n < 0 then -n else n;
    var d := NatToString(m);
    if n < 0 {
      assert t == "-" + d && t[|t| - 1] == d[|d| - 1];
    } else {
      assert t == d;
    }
    assert IsDigit(t[|t| - 1]);
    ParseUnpaddedNumeral(t);
  }

  /** `int(str(n)) == n`: the numeral written for an id parses back to it,
      when it is within CPython's digit limit. */
  lemma {:induction false} ParseIntToString(n: int)
    requires WithinDigitLimit(n)
    ensures ParseInt(IntToString(n)) == Some(n)
  {
    ParseOwnNumeral(n);
    if n < 0 {
      ParseNegative(n);
    } else {
      ParseNatural(n);
    }
  }

  lemma {:induction false} ParseNegative(n: int)
    requires n < 0 && WithinDigitLimit(n)
    ensures ParseNumeral(IntToString(n)) == Some(n)
  {
    var d := NatToString(-n);
    NatToStringValue(-n);
    assert IntToString(n) == "-" + d;
    ParseMinus(d);
  }

  /** The value of every numeral `int()` accepts: the value of its digit
      groups, negated after a minus sign. */
  lemma ParseNumeralValue(t: string)
    requires IsNumeral(t)
    ensures var signed := t[0] == '-' || t[0] == '+';
            var v: int := GroupsValue(if signed then t[1..] else t);
            ParseNumeral(t) == Some(if t[0] == '-' then -v else v)
  {
    if t[0] != '-' && t[0] != '+' {
      assert IsDigit(t[0]);
    }
  }

  /** An underscore between digit groups does not change their value. */
  lemma {:induction false} GroupsValueSkipsUnderscore(a: string, b: string)
    ensures GroupsValue(a + "_" + b) == GroupsValue(a + b)
    decreases |b|
  {
    if b == [] {
      assert (a + "_")[..|a|] == a;
      assert a + "_" + b == a + "_" && a + b == a;
    } else {
      var b' := b[..|b| - 1];
      GroupsValueSkipsUnderscore(a, b');
      assert (a + "_" + b)[..|a + "_" + b| - 1] == a + "_" + b';
      assert (a + b)[..|a + b| - 1] == a + b';
    }
  }

  /** A leading zero does not change the value of digit groups. */
  lemma {:induction false} GroupsValueSkipsLeadingZero(b: string)
    ensures GroupsValue("0" + b) == GroupsValue(b)
    decreases |b|
  {
    if b == [] {
      assert ("0" + b)[..0] == [];
    } else {
      var b' := b[..|b| - 1];
      GroupsValueSkipsLeadingZero(b');
      assert ("0" + b)[..|b|] == "0" + b';
    }
  }

  /** Leading zeros, underscores and a plus sign are all accepted. */
  lemma NonCanonicalNumerals()
    ensures ParseNumeral("007") == Some(7)
    ensures ParseNumeral("1_000") == Some(1000)
    ensures ParseNumeral("+5") == Some(5)
  {
    LeadingZerosNumeral();
    UnderscoreNumeral();
    PlusNumeral();
  }

  lemma LeadingZerosNumeral()
    ensures ParseNumeral("007") == Some(7)
  {
    GroupsValueSkipsLeadingZero("07");
    GroupsValueSkipsLeadingZero("7");
    assert "0" + "07" == "007" && "0" + "7" == "07";
    assert GroupsValue("7") == 7 by { assert "7"[..0] == []; }
    assert IsNumeral("007") by { assert DigitCount("007") <= 3; }
    ParseNumeralValue("007");
  }

  lemma UnderscoreNumeral()
    ensures ParseNumeral("1_000") == Some(1000)
  {
    GroupsValueSkipsUnderscore("1", "000");
    assert "1" + "_" + "000" == "1_000" && "1" + "000" == "1000";
    NatToStringValue(1000);
    assert NatToString(1000) == "1000";
    assert IsNumeral("1_000") by { assert DigitGroups("1_000"); assert DigitCount("1_000") <= 5; }
    ParseNumeralValue("1_000");
  }

  lemma PlusNumeral()
    ensures ParseNumeral("+5") == Some(5)
  {
    assert GroupsValue("5") == 5 by { assert "5"[..0] == []; }
    assert "+5"[1..] == "5";
    ParseNumeralValue("+5");
  }

  /** A numeral with more digits than CPython's limit does not parse. */
  lemma {:induction false} ParseTooManyDigits(n: int)
    requires !WithinDigitLimit(n)
    ensures ParseInt(IntToString(n)) == None
  {
    ParseOwnNumeral(n);
    var m: nat := if n < 0 then -n else n;
    var d := NatToString(m);
    NatToStringValue(m);
    var t := IntToString(n);
    if n < 0 {
      assert t == "-" + d && t[1..] == d;
    } else {
      assert t == d && IsDigit(t[0]);
    }
  }

  /** `int()` skips a space and a newline around the digits. */
  lemma IntSkipsCSpace()
    ensures ParseInt(" 1\n") == Some(1)
  {
    SpaceNewlineSkipped();
    OneIsANumeral();
  }

  lemma SpaceNewlineSkipped()
    ensures IntStrip(" 1\n") == "1"
  {
    var s := " 1\n";
    assert |s| == 3 && s[0] == ' ' && s[1] == '1' && s[2] == '\n';
    IntStripOneEach(s);
    assert s[1..2] == "1";
  }

  /** When `s` has one skippable character at each end and none inside
      those, `int()` reads exactly what lies between them. */
  lemma IntStripOneEach(s: string)
    requires |s| >= 3 && IsIntSpace(s[0]) && IsIntSpace(s[|s| - 1])
    requires !IsIntSpace(s[1]) && !IsIntSpace(s[|s| - 2])
    ensures IntStrip(s) == s[1..|s| - 1]
  {
    var u := s[1..];
    assert IntTrimStart(u) == u by { assert u[0] == s[1]; }
    assert u[..|u| - 1] == s[1..|s| - 1];
  }

  /** When `s` has one skippable character before the rest and no skippable
      character at either end of the rest, `int()` reads the rest. */
  lemma IntStripOneBefore(s: string)
    requires |s| >= 2 && IsIntSpace(s[0]) && !IsIntSpace(s[1]) && !IsIntSpace(s[|s| - 1])
    ensures IntStrip(s) == s[1..]
  {
  }

  lemma OneIsANumeral()
    ensures ParseNumeral("1") == Some(1)
  {
    assert GroupsValue("1") == 1 by {
      assert "1"[..0] == [];
    }
  }

  /** `int()` does not skip the separator U+001C, although `str.isspace()`
      counts it as whitespace and `strip()` removes it. */
  lemma IntKeepsSeparator()
    ensures ParseInt("\U{1c}1") == None
    ensures Strip("\U{1c}1") == "1"
  {
    SeparatorNotANumeral();
    SeparatorStripped();
  }

  lemma SeparatorNotANumeral()
    ensures ParseInt("\U{1c}1") == None
  {
    var u := "\U{1c}1";
    ParseUnpaddedNumeral(u);
    assert !IsDigit(u[0]) && u[0] != '-' && u[0] != '+';
  }

  lemma SeparatorStripped()
    ensures Strip("\U{1c}1") == "1"
  {
    var u := "\U{1c}1";
    assert u[1..] == "1";
    StripUnpadded("1");
  }

  /** In a string that is not all ASCII, `int()` skips a non-ASCII space
      (U+00A0) but still not the separator U+001C that follows it. */
  lemma IntKeepsSeparatorAfterNoBreakSpace()
    ensures ParseInt("\U{a0}\U{1c}1") == None
  {
    var s := "\U{a0}\U{1c}1";
    NoBreakSpaceSkipped();
    assert IntStrip(s) == s[1..];
    var u := s[1..];
    assert u[0] == '\U{1c}' && !IsDigit(u[0]) && u[0] != '-' && u[0] != '+';
  }

  lemma NoBreakSpaceSkipped()
    ensures IntStrip("\U{a0}\U{1c}1") == "\U{1c}1"
  {
    var s := "\U{a0}\U{1c}1";
    assert |s| == 3 && s[0] == '\U{a0}' && s[1] == '\U{1c}' && s[2] == '1';
    IntStripOneBefore(s);
    assert s[1..] == "\U{1c}1";
  }

  /** A numeral between non-ASCII spaces parses. */
  lemma IntSkipsNoBreakSpace()
    ensures ParseInt("\U{a0}1\U{3000}") == Some(1)
  {
    NoBreakSpacesSkipped();
    OneIsANumeral();
  }

  lemma NoBreakSpacesSkipped()
    ensures IntStrip("\U{a0}1\U{3000}") == "1"
  {
    var s := "\U{a0}1\U{3000}";
    assert |s| == 3 && s[0] == '\U{a0}' && s[1] == '1' && s[2] == '\U{3000}';
    assert IsIntSpace('\U{a0}') && IsIntSpace('\U{3000}') && !IsIntSpace('1');
    IntStripOneEach(s);
    assert s[1..2] == "1";
  }
}
