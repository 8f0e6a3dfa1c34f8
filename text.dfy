/** The few Python `str` operations the core relies on: `upper`, `lower`,
    `capitalize`, `str(int)`, `in` on a string, and `split(sep)[-1]`.
    Case mapping covers the ASCII letters only. */
module Text {

  predicate IsUpperLetter(c: char) {
    'A' <= c <= 'Z'
  }

  predicate IsLowerLetter(c: char) {
    'a' <= c <= 'z'
  }

  function UpperChar(c: char): (r: char)
    ensures IsLowerLetter(c) ==> IsUpperLetter(r)
    ensures !IsLowerLetter(c) ==> r == c
  {
    if IsLowerLetter(c) then (c as int - 32) as char else c
  }

  function LowerChar(c: char): (r: char)
    ensures IsUpperLetter(c) ==> IsLowerLetter(r)
    ensures !IsUpperLetter(c) ==> r == c
  {
    if IsUpperLetter(c) then (c as int + 32) as char else c
  }

  /** `s.upper()` */
  function Upper(s: string): (r: string)
    ensures |r| == |s|
    ensures forall i :: 0 <= i < |s| ==> !IsLowerLetter(r[i])
    ensures forall i :: 0 <= i < |s| ==> LowerChar(r[i]) == LowerChar(s[i])
  {
    seq(|s|, i requires 0 <= i < |s| => UpperChar(s[i]))
  }

  /** `s.lower()` */
  function Lower(s: string): (r: string)
    ensures |r| == |s|
    ensures forall i :: 0 <= i < |s| ==> !IsUpperLetter(r[i])
    ensures forall i :: 0 <= i < |s| ==> UpperChar(r[i]) == UpperChar(s[i])
  {
    seq(|s|, i requires 0 <= i < |s| => LowerChar(s[i]))
  }

  /** `s.capitalize()`: first character upper-cased, the rest lower-cased. */
  function Capitalize(s: string): (r: string)
    ensures |r| == |s|
    ensures IsCapitalized(r)
  {
    if s == [] then [] else [UpperChar(s[0])] + Lower(s[1..])
  }

  /** A string as `capitalize` leaves it. */
  predicate IsCapitalized(s: string) {
    (|s| > 0 ==> !IsLowerLetter(s[0])) && forall i :: 0 < i < |s| ==> !IsUpperLetter(s[i])
  }

  lemma UpperCharLowerChar(c: char)
    ensures UpperChar(LowerChar(c)) == UpperChar(c)
    ensures LowerChar(UpperChar(c)) == LowerChar(c)
  {
  }

  /** `capitalize` ignores the case its input was written in: "SER", "ser"
      and "Ser" all become "Ser". */
  lemma CapitalizeIgnoresCase(s: string)
    ensures Capitalize(Upper(s)) == Capitalize(s)
    ensures Capitalize(Lower(s)) == Capitalize(s)
  {
    CapitalizeOfCased(s, Upper(s));
    CapitalizeOfCased(s, Lower(s));
  }

  /** `lower` ignores the case its input was written in: "PHOSPHORYLATION"
      and "Phosphorylation" both become "phosphorylation". */
  lemma LowerIgnoresCase(s: string)
    ensures Lower(Upper(s)) == Lower(s)
    ensures Lower(Capitalize(s)) == Lower(s)
  {
    LowerOfCased(s, Upper(s));
    CapitalizeKeepsLetters(s);
    LowerOfCased(s, Capitalize(s));
  }

  /** `capitalize` changes only the case of each character. */
  lemma CapitalizeKeepsLetters(s: string)
    ensures forall i :: 0 <= i < |s| ==> LowerChar(Capitalize(s)[i]) == LowerChar(s[i])
  {
    if s != [] {
      UpperCharLowerChar(s[0]);
    }
  }

  /** Strings that agree letter by letter up to case have the same
      lower-casing. */
  lemma LowerOfCased(s: string, t: string)
    requires |t| == |s| && forall i :: 0 <= i < |s| ==> LowerChar(t[i]) == LowerChar(s[i])
    ensures Lower(t) == Lower(s)
  {
  }

  /** Two strings that differ only in the case of their letters have the
      same capitalisation. */
  lemma CapitalizeOfCased(s: string, t: string)
    requires t == Upper(s) || t == Lower(s)
    ensures Capitalize(t) == Capitalize(s)
  {
    if s != [] {
      UpperCharLowerChar(s[0]);
      assert UpperChar(t[0]) == UpperChar(s[0]);
      forall i | 0 <= i < |s| - 1 ensures Lower(t[1..])[i] == Lower(s[1..])[i] {
        UpperCharLowerChar(s[i + 1]);
      }
    }
  }

  /** A capitalised string is its own capitalisation. */
  lemma CapitalizeCapitalized(s: string)
    requires IsCapitalized(s)
    ensures Capitalize(s) == s
  {
    if s != [] {
      assert Lower(s[1..]) == s[1..];
    }
  }

  /** Upper-casing an already upper-cased string changes nothing. */
  lemma UpperIdempotent(s: string)
    ensures Upper(Upper(s)) == Upper(s)
  {
  }

  /** A string without lower-case letters is its own upper-casing, and
      upper-casing its lower-casing gives it back. */
  lemma UpperOfUpperCase(s: string)
    requires forall i :: 0 <= i < |s| ==> !IsLowerLetter(s[i])
    ensures Upper(s) == s && Upper(Lower(s)) == s
  {
    forall i | 0 <= i < |s| ensures Upper(Lower(s))[i] == s[i] {
      UpperCharLowerChar(s[i]);
    }
  }

  /** A string without upper-case letters is its own lower-casing, and
      lower-casing its upper-casing gives it back. */
  lemma LowerOfLowerCase(s: string)
    requires forall i :: 0 <= i < |s| ==> !IsUpperLetter(s[i])
    ensures Lower(s) == s && Lower(Upper(s)) == s
  {
    forall i | 0 <= i < |s| ensures Lower(Upper(s))[i] == s[i] {
      UpperCharLowerChar(s[i]);
    }
  }

  /** Lower-casing does not introduce a character that is not a letter. */
  lemma LowerKeepsAbsent(s: string, c: char)
    requires c !in s && !IsUpperLetter(c) && !IsLowerLetter(c)
    ensures c !in Lower(s)
  {
    forall i | 0 <= i < |s| ensures Lower(s)[i] != c {
      assert s[i] in s;
    }
  }

  /** `s.split(sep)[-1]`: the text after the last `sep`, or all of `s` when
      it has none. The result is the longest suffix of `s` free of `sep`. */
  function AfterLast(s: string, sep: char): (r: string)
    ensures |r| <= |s| && r == s[|s| - |r|..]
    ensures sep !in r
    ensures |r| < |s| ==> s[|s| - |r| - 1] == sep
  {
    if s == [] then []
    else if s[|s| - 1] == sep then []
    else AfterLast(s[..|s| - 1], sep) + [s[|s| - 1]]
  }

  /** The text after the last separator is the whole string exactly when the
      separator does not occur. */
  lemma AfterLastWhole(s: string, sep: char)
    ensures AfterLast(s, sep) == s <==> sep !in s
  {
  }

  /** Whatever precedes the last separator does not matter. */
  lemma {:induction false} AfterLastSplit(prefix: string, sep: char, tail: string)
    requires sep !in tail
    ensures AfterLast(prefix + [sep] + tail, sep) == tail
  {
    var s := prefix + [sep] + tail;
    if tail != [] {
      var init := tail[..|tail| - 1];
      assert s[..|s| - 1] == prefix + [sep] + init;
      assert tail[|tail| - 1] in tail;
      AfterLastSplit(prefix, sep, init);
      assert tail == init + [tail[|tail| - 1]];
    }
  }

  // ---- str(int) -------------------------------------------------------

  predicate IsDigit(c: char) {
    '0' <= c <= '9'
  }

  function DigitChar(d: nat): (c: char)
    requires d < 10
    ensures IsDigit(c)
  {
    (d + 48) as char
  }

  function DigitValue(c: char): (d: nat)
    requires IsDigit(c)
    ensures d < 10
  {
    c as int - 48
  }

  /** Decimal digits of a natural number, most significant first, without
      leading zeros. */
  function NatDigits(n: nat): (r: string)
    ensures |r| > 0
    ensures forall i :: 0 <= i < |r| ==> IsDigit(r[i])
    ensures |r| > 1 ==> r[0] != '0'
    ensures n < 10 <==> |r| == 1
  {
    if n < 10 then [DigitChar(n)] else NatDigits(n / 10) + [DigitChar(n % 10)]
  }

  /** Reads a string of decimal digits back as a number. */
  function ParseNat(s: string): nat
    requires forall i :: 0 <= i < |s| ==> IsDigit(s[i])
  {
    if s == [] then 0 else ParseNat(s[..|s| - 1]) * 10 + DigitValue(s[|s| - 1])
  }

  /** Python's `str(n)` for an `int`: a minus sign before the digits of a
      negative number. */
  function DecimalString(n: int): (r: string)
    ensures |r| > 0
    ensures r[0] == '-' <==> n < 0
  {
    if n < 0 then "-" + NatDigits(-n) else NatDigits(n)
  }

  function ParseDecimal(s: string): int
    requires |s| > 0
    requires s[0] == '-' ==> forall i :: 1 <= i < |s| ==> IsDigit(s[i])
    requires s[0] != '-' ==> forall i :: 0 <= i < |s| ==> IsDigit(s[i])
  {
    if s[0] == '-' then -(ParseNat(s[1..]) as int) else ParseNat(s)
  }

  lemma {:induction false} ParseNatDigits(n: nat)
    ensures ParseNat(NatDigits(n)) == n
  {
    if n >= 10 {
      ParseNatDigits(n / 10);
      var ds := NatDigits(n);
      assert ds[..|ds| - 1] == NatDigits(n / 10);
    }
  }

  /** `str(n)` can be read back as `n`. */
  lemma DecimalRoundTrip(n: int)
    ensures ParseDecimal(DecimalString(n)) == n
  {
    if n < 0 {
      ParseNatDigits(-n);
      assert DecimalString(n)[1..] == NatDigits(-n);
    } else {
      ParseNatDigits(n);
    }
  }

  /** Distinct positions are rendered as distinct strings. */
  lemma DecimalStringInjective(m: int, n: int)
    requires DecimalString(m) == DecimalString(n)
    ensures m == n
  {
    DecimalRoundTrip(m);
    DecimalRoundTrip(n);
  }
}
