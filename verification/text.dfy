/**
 * Character classes and string helpers that the form validators rely on:
 * JavaScript's `String.prototype.trim`, the `\s`/`\S` classes, the email
 * shape `^\S+@\S+\.\S+$`, the Indian mobile pattern `^[6-9]\d{9}$`, and the
 * decimal rendering of integers used by the counter labels.
 */
module Text {

  /**
   * JavaScript's WhiteSpace and LineTerminator code points. This one set is
   * what `\s` matches and what `trim()` removes from both ends.
   */
  predicate IsSpace(c: char)
  {
    || c == ' ' || c == '\t' || c == '\n' || c == '\r' || c == '\U{B}' || c == '\U{C}'
    || c == '\U{A0}' || c == '\U{1680}' || ('\U{2000}' <= c <= '\U{200A}')
    || c == '\U{2028}' || c == '\U{2029}' || c == '\U{202F}' || c == '\U{205F}'
    || c == '\U{3000}' || c == '\U{FEFF}'
  }

  /** `\d` in a JavaScript regular expression without the `u` flag: ASCII 0-9 only. */
  predicate IsDigit(c: char)
  {
    '0' <= c <= '9'
  }

  predicate AllDigits(s: string)
  {
    forall k :: 0 <= k < |s| ==> IsDigit(s[k])
  }

  predicate NoSpace(s: string)
  {
    forall k :: 0 <= k < |s| ==> !IsSpace(s[k])
  }

  /** Drops leading white space. */
  function TrimStart(s: string): (r: string)
    ensures |r| <= |s| && r == s[|s| - |r|..]
    ensures r == [] || !IsSpace(r[0])
    ensures forall k :: 0 <= k < |s| - |r| ==> IsSpace(s[k])
  {
    if s != [] && IsSpace(s[0]) then
      var r := TrimStart(s[1..]);
      assert s[1..][|s| - 1 - |r|..] == s[|s| - |r|..];
      assert forall k :: 1 <= k < |s| - |r| ==> s[k] == s[1..][k - 1];
      r
    else
      s
  }

  /** Drops trailing white space. */
  function TrimEnd(s: string): (r: string)
    ensures |r| <= |s| && r == s[..|r|]
    ensures r == [] || !IsSpace(r[|r| - 1])
    ensures forall k :: |r| <= k < |s| ==> IsSpace(s[k])
  {
    if s != [] && IsSpace(s[|s| - 1]) then TrimEnd(s[..|s| - 1]) else s
  }

  /** `s.trim()`. */
  function Trim(s: string): (r: string)
    ensures |r| <= |s|
    ensures r == [] || (!IsSpace(r[0]) && !IsSpace(r[|r| - 1]))
  {
    TrimEnd(TrimStart(s))
  }

  /** `!s.trim()`: the value counts as not filled in. */
  predicate Blank(s: string)
  {
    Trim(s) == []
  }

  /** A value is blank exactly when every one of its characters is white space. */
  lemma BlankIffAllSpace(s: string)
    ensures Blank(s) <==> forall k :: 0 <= k < |s| ==> IsSpace(s[k])
  {
    var a := TrimStart(s);
    if a != [] {
      assert !IsSpace(a[0]);
    }
  }

  // ---------------------------------------------------------------- email

  /**
   * The reference reading of `^\S+@\S+\.\S+$`: no white space anywhere, and an
   * `@` and a later `.` that each have at least one character on both sides.
   */
  ghost predicate EmailShape(s: string)
  {
    NoSpace(s) &&
    exists i, j :: 0 < i && i + 1 < j && j + 1 < |s| && s[i] == '@' && s[j] == '.'
  }

  /** The smallest index at or after `from` holding `c`, or `|s|` when there is none. */
  function IndexFrom(s: string, c: char, from: nat): (r: nat)
    requires from <= |s|
    ensures from <= r <= |s|
    ensures r < |s| ==> s[r] == c
    ensures forall k :: from <= k < r ==> s[k] != c
    decreases |s| - from
  {
    if from == |s| || s[from] == c then from else IndexFrom(s, c, from + 1)
  }

  /** The largest index below `upto` holding `c`, or -1 when there is none. */
  function LastIndexBelow(s: string, c: char, upto: nat): (r: int)
    requires upto <= |s|
    ensures -1 <= r < upto
    ensures r >= 0 ==> s[r] == c
    ensures forall k :: r < k < upto ==> s[k] != c
  {
    if upto == 0 then -1
    else if s[upto - 1] == c then upto - 1
    else LastIndexBelow(s, c, upto - 1)
  }

  /**
   * How the pattern is decided: take the first `@` after position 0 and the
   * last `.` before the final character, and require a character between them.
   */
  predicate MatchesEmail(s: string)
  {
    |s| >= 5 && NoSpace(s) &&
    var i := IndexFrom(s, '@', 1);
    var j := LastIndexBelow(s, '.', |s| - 1);
    i < |s| && i + 1 < j
  }

  /** The decision procedure accepts exactly the strings of the pattern's shape. */
  lemma MatchesEmailIffShape(s: string)
    ensures MatchesEmail(s) <==> EmailShape(s)
  {
    if MatchesEmail(s) {
      var i := IndexFrom(s, '@', 1);
      var j := LastIndexBelow(s, '.', |s| - 1);
      assert 0 < i && i + 1 < j && j + 1 < |s| && s[i] == '@' && s[j] == '.';
    }
    if EmailShape(s) {
      var i0, j0 :| 0 < i0 && i0 + 1 < j0 && j0 + 1 < |s| && s[i0] == '@' && s[j0] == '.';
      var i := IndexFrom(s, '@', 1);
      var j := LastIndexBelow(s, '.', |s| - 1);
      assert i <= i0;
      assert j >= j0;
    }
  }

  lemma EmailExamples()
    ensures MatchesEmail("a@b.c")
    ensures !MatchesEmail("not-an-email")
    ensures !MatchesEmail(" a@b.c")
  {
    MatchesEmailIffShape("not-an-email");
    var s := "not-an-email";
    assert forall k :: 0 <= k < |s| ==> s[k] != '@';
    assert IsSpace(" a@b.c"[0]);
  }

  // ---------------------------------------------------------------- phone

  /** `^[6-9]\d{9}$`: exactly ten ASCII digits, the first of them 6, 7, 8 or 9. */
  predicate IsIndianMobile(s: string)
  {
    |s| == 10 && '6' <= s[0] <= '9' && AllDigits(s)
  }

  predicate IsPhoneSeparator(c: char)
  {
    IsSpace(c) || c == '-' || c == '+'
  }

  /** `s.replace(/[\s\-\+]/g, '')`: every white space, hyphen and plus sign removed, the rest kept in order. */
  function StripPhoneSeparators(s: string): (r: string)
    ensures |r| <= |s|
    ensures forall k :: 0 <= k < |r| ==> !IsPhoneSeparator(r[k])
  {
    if s == [] then []
    else if IsPhoneSeparator(s[0]) then StripPhoneSeparators(s[1..])
    else [s[0]] + StripPhoneSeparators(s[1..])
  }

  /** Stripping distributes over concatenation. */
  lemma {:induction false} StripAppend(a: string, b: string)
    ensures StripPhoneSeparators(a + b) == StripPhoneSeparators(a) + StripPhoneSeparators(b)
  {
    if a != [] {
      assert (a + b)[1..] == a[1..] + b;
      StripAppend(a[1..], b);
    } else {
      assert a + b == b;
    }
  }

  /** A string without separators is left as it is, so stripping is idempotent. */
  lemma {:induction false} StripKeepsClean(s: string)
    requires forall k :: 0 <= k < |s| ==> !IsPhoneSeparator(s[k])
    ensures StripPhoneSeparators(s) == s
  {
    if s != [] {
      StripKeepsClean(s[1..]);
    }
  }

  /** Stripping a digit string leaves it as it is. */
  lemma StripKeepsDigits(s: string)
    requires AllDigits(s)
    ensures StripPhoneSeparators(s) == s
  {
    assert forall k :: 0 <= k < |s| ==> IsDigit(s[k]) && !IsPhoneSeparator(s[k]);
    StripKeepsClean(s);
  }

  /** Stripping a lone separator leaves nothing. */
  lemma StripSeparator(c: char)
    requires IsPhoneSeparator(c)
    ensures StripPhoneSeparators([c]) == []
  {
    assert [c][1..] == [];
  }

  /** Two digit groups joined by a space strip to the digits alone. */
  lemma StripSpacedDigits(a: string, b: string)
    requires AllDigits(a) && AllDigits(b)
    ensures StripPhoneSeparators(a + [' '] + b) == a + b
  {
    StripKeepsDigits(a);
    StripKeepsDigits(b);
    StripSeparator(' ');
    StripAppend(a, [' ']);
    StripAppend(a + [' '], b);
  }

  /** A plus sign in front is dropped as well. */
  lemma StripPlusPrefix(a: string)
    ensures StripPhoneSeparators(['+'] + a) == StripPhoneSeparators(a)
  {
    assert (['+'] + a)[1..] == a;
  }

  lemma SeparatedPhonePasses()
    ensures IsIndianMobile(StripPhoneSeparators("98765 43210"))
  {
    StripSpacedDigits("98765", "43210");
    assert "98765 43210" == "98765" + [' '] + "43210";
  }

  /** Stripping keeps a leading digit in front. */
  lemma StripKeepsLeadingDigit(s: string)
    requires s != [] && IsDigit(s[0])
    ensures StripPhoneSeparators(s) != [] && StripPhoneSeparators(s)[0] == s[0]
  {
  }

  lemma LeadingOnePhoneFails()
    ensures !IsIndianMobile(StripPhoneSeparators("1234567890"))
  {
    StripKeepsLeadingDigit("1234567890");
  }

  /** A space and a digit group appended after anything strip to the digits alone. */
  lemma StripSpaceThenDigits(x: string, b: string)
    requires AllDigits(b)
    ensures StripPhoneSeparators(x + [' '] + b) == StripPhoneSeparators(x) + b
  {
    StripSeparator(' ');
    StripKeepsDigits(b);
    StripAppend(x, [' ']);
    StripAppend(x + [' '], b);
  }

  /** A number written `+cc aaaaa bbbbb` strips to all of its digits, the country code included. */
  lemma StripInternational(cc: string, a: string, b: string)
    requires AllDigits(cc) && AllDigits(a) && AllDigits(b)
    ensures StripPhoneSeparators(['+'] + cc + [' '] + a + [' '] + b) == cc + a + b
  {
    var x := cc + [' '] + a;
    StripSpacedDigits(cc, a);
    StripSpaceThenDigits(x, b);
    StripPlusPrefix(x + [' '] + b);
    assert ['+'] + cc + [' '] + a + [' '] + b == ['+'] + (x + [' '] + b);
  }

  lemma CountryCodePhoneFails()
    ensures !IsIndianMobile(StripPhoneSeparators("+91 98765 43210"))
  {
    StripInternational("91", "98765", "43210");
    assert "+91 98765 43210" == ['+'] + "91" + [' '] + "98765" + [' '] + "43210";
  }

  /** Without stripping, an embedded space makes the pattern fail. */
  lemma UnstrippedSeparatedPhoneFails()
    ensures !IsIndianMobile("98765 43210")
  {
  }

  // ---------------------------------------------------------------- substrings

  /** `s.endsWith(t)`. */
  predicate EndsWith(s: string, t: string)
  {
    |t| <= |s| && s[|s| - |t|..] == t
  }

  /** `s.includes(t)`: `t` occurs somewhere in `s`. */
  predicate Contains(s: string, t: string)
  {
    |t| <= |s| && (s[..|t|] == t || Contains(s[1..], t))
  }

  /** A string contains whatever is spliced into it. */
  lemma {:induction false} ContainsInfix(p: string, t: string, q: string)
    ensures Contains(p + t + q, t)
  {
    var s := p + t + q;
    if p == [] {
      assert s[..|t|] == t;
    } else {
      ContainsInfix(p[1..], t, q);
      assert s[1..] == p[1..] + t + q;
    }
  }

  /** Where `includes` finds `t`: the first position at which `t` starts. */
  function FoundAt(s: string, t: string): (i: nat)
    requires Contains(s, t)
    ensures i + |t| <= |s| && s[i..i + |t|] == t
  {
    if s[..|t|] == t then 0 else 1 + FoundAt(s[1..], t)
  }

  /** `includes` finds nothing else: whatever it finds, the string is that text with something on either side. */
  lemma ContainsOnlyInfix(s: string, t: string)
    requires Contains(s, t)
    ensures exists p, q :: s == p + t + q
  {
    var i := FoundAt(s, t);
    assert s == s[..i] + t + s[i + |t|..];
  }

  /** `s.includes(t)` holds exactly when `s` is `t` with something on either side. */
  lemma ContainsIffInfix(s: string, t: string)
    ensures Contains(s, t) <==> exists p, q :: s == p + t + q
  {
    if Contains(s, t) {
      ContainsOnlyInfix(s, t);
    } else if exists p, q :: s == p + t + q {
      var p, q :| s == p + t + q;
      ContainsInfix(p, t, q);
    }
  }

  // ---------------------------------------------------------------- numbers

  function DigitChar(d: nat): (c: char)
    requires d < 10
    ensures IsDigit(c) && c as int - '0' as int == d
  {
    ('0' as int + d) as char
  }

  /** The decimal numeral JavaScript prints for a non-negative integer. */
  function DecimalString(n: nat): (r: string)
    ensures |r| >= 1 && AllDigits(r)
    ensures r[0] == '0' ==> n == 0
  {
    if n < 10 then [DigitChar(n)] else DecimalString(n / 10) + [DigitChar(n % 10)]
  }

  /** The value of a string of decimal digits. */
  function DecimalValue(s: string): nat
    requires AllDigits(s)
  {
    if s == [] then 0 else 10 * DecimalValue(s[..|s| - 1]) + (s[|s| - 1] as int - '0' as int)
  }

  /** Reading the numeral back gives the number: the rendering loses nothing. */
  lemma {:induction false} DecimalRoundTrip(n: nat)
    ensures DecimalValue(DecimalString(n)) == n
  {
    var r := DecimalString(n);
    if n >= 10 {
      DecimalRoundTrip(n / 10);
      assert r[..|r| - 1] == DecimalString(n / 10);
    }
  }

  /** A number below one thousand has at most three digits. */
  lemma DecimalBelowThousand(n: nat)
    requires n < 1000
    ensures |DecimalString(n)| <= 3
  {
    if n >= 10 {
      assert |DecimalString(n / 10)| <= 2 by {
        if n / 10 >= 10 {
          assert |DecimalString(n / 100)| == 1;
        }
      }
    }
  }

  /** The string JavaScript produces for an integer in `n + ''`. */
  function IntString(n: int): (r: string)
    ensures |r| >= 1
    ensures n < 0 <==> r[0] == '-'
  {
    if n < 0 then "-" + DecimalString(-n) else DecimalString(n)
  }
}
