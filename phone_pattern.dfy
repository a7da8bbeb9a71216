/** The phone format check. `PHONE_RE` is written as a regular expression,
    given the meaning Python's `re.match` gives it; `PhoneMatch` is the same
    format written out by hand, and `PhoneMatchIsRegexMatch` proves the two
    agree on every string. */
module PhonePattern {
  import opened Text

  // ---------------------------------------------------------------------------
  // A regular-expression fragment and its meaning under re.match
  // ---------------------------------------------------------------------------

  datatype Regex =
    | Lit(c: char)                        // a literal character
    | Digit                               // \d
    | Cat(a: Regex, b: Regex)             // ab
    | Alt(a: Regex, b: Regex)             // a|b (also a group)
    | Rep(r: Regex, lo: nat, hi: nat)     // r{lo,hi}
    | Start                               // ^
    | End                                 // $: end of string, or before a final "\n"

  function Size(r: Regex): (n: nat)
  {
    match r
    case Cat(a, b) => 1 + Size(a) + Size(b)
    case Alt(a, b) => 1 + Size(a) + Size(b)
    case Rep(x, _, hi) => 1 + Size(x) + hi
    case _ => 1
  }

  /** The positions where a match of `r` that starts at position `i` of `s`
      can end. */
  ghost function Ends(r: Regex, s: string, i: nat): (e: set<nat>)
    requires i <= |s|
    ensures forall k :: k in e ==> i <= k <= |s|
    decreases Size(r), 1
  {
    match r
    case Lit(c) => if i < |s| && s[i] == c then {i + 1} else {}
    case Digit => if i < |s| && IsDigit(s[i]) then {i + 1} else {}
    case Cat(a, b) => Follow(Ends(a, s, i), b, s)
    case Alt(a, b) => Ends(a, s, i) + Ends(b, s, i)
    case Rep(x, lo, hi) =>
      if hi == 0 then (if lo == 0 then {i} else {})
      else (if lo == 0 then {i} else {}) + Follow(Ends(x, s, i), Rep(x, RepLo(lo), hi - 1), s)
    case Start => if i == 0 then {i} else {}
    case End => if i == |s| || (i + 1 == |s| && s[i] == '\n') then {i} else {}
  }

  /** The lower bound left after one more repetition has matched. */
  function RepLo(lo: nat): (r: nat)
  {
    if lo == 0 then 0 else lo - 1
  }

  /** Where a match of `b` can end when it starts at any position in `e`. */
  ghost function Follow(e: set<nat>, b: Regex, s: string): (ends: set<nat>)
    requires forall j :: j in e ==> j <= |s|
    decreases Size(b), 2
  {
    set j, k | j in e && k in Ends(b, s, j) :: k
  }

  /** `re.match(r, s)` returns a match object. */
  ghost predicate RegexMatches(r: Regex, s: string)
  {
    Ends(r, s, 0) != {}
  }

  /** `r"^(\+\d{10,15}|\d{3}-\d{3}-\d{4})$"` */
  const PhoneRe: Regex :=
    Cat(Start, Cat(Alt(InternationalRe, LocalRe), End))

  // ---------------------------------------------------------------------------
  // The same format, written out
  // ---------------------------------------------------------------------------

  predicate AllDigits(s: string, i: nat, k: nat)
    requires i <= k <= |s|
  {
    forall m :: i <= m < k ==> IsDigit(s[m])
  }

  /** "+" followed by 10 to 15 digits. */
  predicate InternationalNumber(q: string)
  {
    11 <= |q| <= 16 && q[0] == '+' && AllDigits(q, 1, |q|)
  }

  /** ddd-ddd-dddd */
  predicate LocalNumber(q: string)
  {
    |q| == 12 && q[3] == '-' && q[7] == '-' &&
    AllDigits(q, 0, 3) && AllDigits(q, 4, 7) && AllDigits(q, 8, 12)
  }

  predicate PhoneShape(q: string)
  {
    InternationalNumber(q) || LocalNumber(q)
  }

  /** What `PHONE_RE.match(p)` accepts: a phone shape, optionally followed by
      one newline (Python's `$` also matches just before a final "\n"). */
  predicate PhoneMatch(p: string)
  {
    PhoneShape(p) || (|p| > 0 && p[|p| - 1] == '\n' && PhoneShape(p[..|p| - 1]))
  }

  // ---------------------------------------------------------------------------
  // The two agree
  // ---------------------------------------------------------------------------

  /** `\d{lo,hi}` from `i` ends at `k` exactly when `s[i..k]` is lo to hi digits. */
  lemma {:induction false} RepDigitEnds(s: string, i: nat, lo: nat, hi: nat, k: nat)
    requires i <= |s|
    ensures k in Ends(Rep(Digit, lo, hi), s, i) <==>
              i + lo <= k <= i + hi && k <= |s| && AllDigits(s, i, k)
    decreases hi
  {
    if hi > 0 {
      var rest := Rep(Digit, RepLo(lo), hi - 1);
      var first := Ends(Digit, s, i);
      var tail := Follow(first, rest, s);
      assert Ends(Rep(Digit, lo, hi), s, i) == (if lo == 0 then {i} else {}) + tail;
      if i < |s| && IsDigit(s[i]) {
        assert first == {i + 1};
        assert k in tail <==> k in Ends(rest, s, i + 1);
        RepDigitEnds(s, i + 1, RepLo(lo), hi - 1, k);
        assert i < k <= |s| ==> (AllDigits(s, i, k) <==> AllDigits(s, i + 1, k));
      } else {
        assert first == {};
        assert tail == {};
      }
    }
  }

  /** A literal followed by `b`. */
  lemma CatLitEnds(c: char, b: Regex, s: string, i: nat, k: nat)
    requires i <= |s|
    ensures k in Ends(Cat(Lit(c), b), s, i) <==> i < |s| && s[i] == c && k in Ends(b, s, i + 1)
  {
    if i < |s| && s[i] == c {
      assert Ends(Lit(c), s, i) == {i + 1};
    } else {
      assert Ends(Lit(c), s, i) == {};
    }
  }

  /** A concatenation ends where `b` ends after starting where `a` ended. */
  lemma CatEnds(a: Regex, b: Regex, s: string, i: nat, k: nat)
    requires i <= |s|
    ensures k in Ends(Cat(a, b), s, i) <==> exists j :: j in Ends(a, s, i) && k in Ends(b, s, j)
  {
    var e := Ends(a, s, i);
    assert Ends(Cat(a, b), s, i) == Follow(e, b, s);
    if k in Follow(e, b, s) {
      var j, k' :| j in e && k' in Ends(b, s, j) && k' == k;
      assert j in e && k in Ends(b, s, j);
    }
    if exists j :: j in e && k in Ends(b, s, j) {
      var j :| j in e && k in Ends(b, s, j);
      assert k in Follow(e, b, s);
    }
  }

  /** Exactly `n` digits followed by `b`. */
  lemma CatDigitsEnds(n: nat, b: Regex, s: string, i: nat, k: nat)
    requires i <= |s|
    ensures k in Ends(Cat(Rep(Digit, n, n), b), s, i) <==>
              i + n <= |s| && AllDigits(s, i, i + n) && k in Ends(b, s, i + n)
  {
    var d := Rep(Digit, n, n);
    CatEnds(d, b, s, i, k);
    if k in Ends(Cat(d, b), s, i) {
      var j :| j in Ends(d, s, i) && k in Ends(b, s, j);
      RepDigitEnds(s, i, n, n, j);
    }
    if i + n <= |s| && AllDigits(s, i, i + n) && k in Ends(b, s, i + n) {
      RepDigitEnds(s, i, n, n, i + n);
    }
  }

  /** Where the international branch `\+\d{10,15}` can end. */
  lemma InternationalEnds(s: string, k: nat)
    ensures k in Ends(Cat(Lit('+'), Rep(Digit, 10, 15)), s, 0) <==>
              |s| > 0 && s[0] == '+' && 11 <= k <= 16 && k <= |s| && AllDigits(s, 1, k)
  {
    CatLitEnds('+', Rep(Digit, 10, 15), s, 0, k);
    if |s| > 0 {
      RepDigitEnds(s, 1, 10, 15, k);
    }
  }

  /** `ddd-ddd-dddd` occupies `s[..12]`, read in place. */
  predicate LocalAt(s: string)
  {
    12 <= |s| && s[3] == '-' && s[7] == '-' &&
    AllDigits(s, 0, 3) && AllDigits(s, 4, 7) && AllDigits(s, 8, 12)
  }

  /** Where `-\d{4}` can end when it starts at position 7. */
  lemma DashFourEnds(s: string, k: nat)
    requires 7 <= |s|
    ensures k in Ends(Cat(Lit('-'), Rep(Digit, 4, 4)), s, 7) <==>
              k == 12 && 12 <= |s| && s[7] == '-' && AllDigits(s, 8, 12)
  {
    CatLitEnds('-', Rep(Digit, 4, 4), s, 7, k);
    if 8 <= |s| {
      RepDigitEnds(s, 8, 4, 4, k);
    }
  }

  /** Where `\d{3}-\d{4}` can end when it starts at position 4. */
  lemma ThreeDashFourEnds(s: string, k: nat)
    requires 4 <= |s|
    ensures k in Ends(Cat(Rep(Digit, 3, 3), Cat(Lit('-'), Rep(Digit, 4, 4))), s, 4) <==>
              k == 12 && 12 <= |s| && AllDigits(s, 4, 7) && s[7] == '-' && AllDigits(s, 8, 12)
  {
    CatDigitsEnds(3, Cat(Lit('-'), Rep(Digit, 4, 4)), s, 4, k);
    if 7 <= |s| {
      DashFourEnds(s, k);
    }
  }

  /** Where `-\d{3}-\d{4}` can end when it starts at position 3. */
  lemma LocalTailEnds(s: string, k: nat)
    requires 3 <= |s|
    ensures k in Ends(Cat(Lit('-'), Cat(Rep(Digit, 3, 3), Cat(Lit('-'), Rep(Digit, 4, 4)))), s, 3) <==>
              k == 12 && 12 <= |s| && s[3] == '-' && s[7] == '-' &&
              AllDigits(s, 4, 7) && AllDigits(s, 8, 12)
  {
    CatLitEnds('-', Cat(Rep(Digit, 3, 3), Cat(Lit('-'), Rep(Digit, 4, 4))), s, 3, k);
    if 4 <= |s| {
      ThreeDashFourEnds(s, k);
    }
  }

  /** Where the local branch `\d{3}-\d{3}-\d{4}` can end. */
  lemma LocalEnds(s: string, k: nat)
    ensures k in Ends(Cat(Rep(Digit, 3, 3), Cat(Lit('-'), Cat(Rep(Digit, 3, 3), Cat(Lit('-'), Rep(Digit, 4, 4))))), s, 0) <==>
              k == 12 && LocalAt(s)
  {
    var t1 := Cat(Lit('-'), Cat(Rep(Digit, 3, 3), Cat(Lit('-'), Rep(Digit, 4, 4))));
    CatDigitsEnds(3, t1, s, 0, k);
    if 3 <= |s| {
      LocalTailEnds(s, k);
    }
  }

  lemma LocalAtPrefix(s: string)
    requires 12 <= |s|
    ensures LocalAt(s) <==> LocalNumber(s[..12])
  {
    AllDigitsPrefix(s, 12, 0, 3);
    AllDigitsPrefix(s, 12, 4, 7);
    AllDigitsPrefix(s, 12, 8, 12);
  }

  lemma AllDigitsPrefix(s: string, n: nat, a: nat, b: nat)
    requires a <= b <= n <= |s|
    ensures AllDigits(s[..n], a, b) <==> AllDigits(s, a, b)
  {
    assert forall m :: a <= m < b ==> s[..n][m] == s[m];
  }

  const InternationalRe: Regex := Cat(Lit('+'), Rep(Digit, 10, 15))
  const LocalRe: Regex := Cat(Rep(Digit, 3, 3), Cat(Lit('-'), Cat(Rep(Digit, 3, 3), Cat(Lit('-'), Rep(Digit, 4, 4)))))

  lemma InternationalPrefix(s: string, j: nat)
    requires j <= |s|
    ensures (|s| > 0 && s[0] == '+' && 11 <= j <= 16 && AllDigits(s, 1, j)) <==> InternationalNumber(s[..j])
  {
    if j >= 1 {
      AllDigitsPrefix(s, j, 1, j);
    }
  }

  /** The phone pattern's alternation can end at `j` exactly when `s[..j]`
      has a phone shape. */
  lemma ShapeEnds(s: string, j: nat)
    requires j <= |s|
    ensures j in Ends(Alt(InternationalRe, LocalRe), s, 0) <==> PhoneShape(s[..j])
  {
    assert j in Ends(Alt(InternationalRe, LocalRe), s, 0) <==>
      j in Ends(InternationalRe, s, 0) || j in Ends(LocalRe, s, 0);
    InternationalEnds(s, j);
    InternationalPrefix(s, j);
    LocalEnds(s, j);
    if j == 12 {
      LocalAtPrefix(s);
    }
  }

  /** Where `$` lets a match end: at the end, or just before a final newline. */
  predicate AtEnd(p: string, j: nat)
  {
    j == |p| || (j + 1 == |p| && p[j] == '\n')
  }

  /** `^` at position 0 matches the empty string, so `^b` ends where `b` does. */
  lemma StartThenEnds(b: Regex, p: string, k: nat)
    ensures k in Ends(Cat(Start, b), p, 0) <==> k in Ends(b, p, 0)
  {
    assert Ends(Start, p, 0) == {0};
    CatEnds(Start, b, p, 0, k);
  }

  /** `r$` ends where `r` ends, provided `$` may match there. */
  lemma ThenEndEnds(r: Regex, p: string, k: nat)
    ensures k in Ends(Cat(r, End), p, 0) <==> k in Ends(r, p, 0) && AtEnd(p, k)
  {
    CatEnds(r, End, p, 0, k);
    if k in Ends(r, p, 0) && AtEnd(p, k) {
      assert k in Ends(End, p, k);
    }
  }

  /** The anchors: in `^r$`, `^` pins the match to position 0 and `$` lets
      `r` end only where `AtEnd` holds. */
  lemma AnchoredEnds(r: Regex, p: string)
    ensures RegexMatches(Cat(Start, Cat(r, End)), p) <==> exists j :: j in Ends(r, p, 0) && AtEnd(p, j)
  {
    if RegexMatches(Cat(Start, Cat(r, End)), p) {
      var k :| k in Ends(Cat(Start, Cat(r, End)), p, 0);
      StartThenEnds(Cat(r, End), p, k);
      ThenEndEnds(r, p, k);
    }
    if exists j :: j in Ends(r, p, 0) && AtEnd(p, j) {
      var j :| j in Ends(r, p, 0) && AtEnd(p, j);
      ThenEndEnds(r, p, j);
      StartThenEnds(Cat(r, End), p, j);
    }
  }

  lemma PhoneReAnchored(p: string)
    ensures RegexMatches(PhoneRe, p) <==> exists j :: j in Ends(Alt(InternationalRe, LocalRe), p, 0) && AtEnd(p, j)
  {
    AnchoredEnds(Alt(InternationalRe, LocalRe), p);
  }

  /** `PhoneMatch` read the way `$` works: a phone shape ending where `$` may. */
  lemma PhoneMatchAtEnd(p: string)
    ensures PhoneMatch(p) <==> exists j :: 0 <= j <= |p| && AtEnd(p, j) && PhoneShape(p[..j])
  {
    if PhoneShape(p) {
      assert p[..|p|] == p;
    }
  }

  /** `PHONE_RE.match(p)` succeeds exactly when `PhoneMatch(p)` holds. */
  lemma PhoneMatchIsRegexMatch(p: string)
    ensures RegexMatches(PhoneRe, p) <==> PhoneMatch(p)
  {
    PhoneReAnchored(p);
    PhoneMatchAtEnd(p);
    forall j | 0 <= j <= |p|
      ensures j in Ends(Alt(InternationalRe, LocalRe), p, 0) <==> PhoneShape(p[..j])
    {
      ShapeEnds(p, j);
    }
  }
}
