/**
 * Credential text normalisation: turning a short staff PIN into an
 * acceptable password, and normalising phone numbers for matching.
 */
module Pin {

  /** The characters JavaScript's `String.prototype.trim` removes (white space and line terminators). */
  predicate IsSpace(c: char) {
    c == ' ' || c == '\t' || c == '\n' || c == '\r' || c == '\U{000B}' || c == '\U{000C}'
    || c == '\U{00A0}' || c == '\U{1680}' || ('\U{2000}' <= c <= '\U{200A}')
    || c == '\U{2028}' || c == '\U{2029}' || c == '\U{202F}' || c == '\U{205F}'
    || c == '\U{3000}' || c == '\U{FEFF}'
  }

  predicate IsDigit(c: char) { '0' <= c <= '9' }

  /** The input without its leading run of white space. */
  function TrimStart(s: string): (r: string)
    ensures |r| <= |s| && r == s[|s| - |r|..]
    ensures forall i :: 0 <= i < |s| - |r| ==> IsSpace(s[i])
    ensures r != [] ==> !IsSpace(r[0])
  {
    if s != [] && IsSpace(s[0]) then
      TrimStart(s[1..])
    else
      s
  }

  /** The input without its trailing run of white space. */
  function TrimEnd(s: string): (r: string)
    ensures |r| <= |s| && r == s[..|r|]
    ensures forall i :: |r| <= i < |s| ==> IsSpace(s[i])
    ensures r != [] ==> !IsSpace(r[|r| - 1])
  {
    if s != [] && IsSpace(s[|s| - 1]) then
      TrimEnd(s[..|s| - 1])
    else
      s
  }

  /** `trim()`: `TrimEnd` after `TrimStart`; the result neither starts nor ends with white space. */
  function Trim(s: string): (r: string)
    ensures |r| <= |s|
    ensures r != [] ==> !IsSpace(r[0]) && !IsSpace(r[|r| - 1])
  {
    TrimEnd(TrimStart(s))
  }

  /** Text with no white space at either end is its own trim. */
  lemma TrimmedUnchanged(s: string)
    requires s != [] ==> !IsSpace(s[0]) && !IsSpace(s[|s| - 1])
    ensures Trim(s) == s
  {
  }

  /** Blank text trims to nothing. */
  lemma TrimBlank(s: string)
    requires forall i :: 0 <= i < |s| ==> IsSpace(s[i])
    ensures Trim(s) == []
  {
  }

  /** `pinToPassword`: a PIN shorter than six characters is doubled so that it is long enough for a password. */
  function PinToPassword(pinRaw: string): string {
    var pin := Trim(pinRaw);
    if |pin| < 6 then pin + pin else pin
  }

  /** A PIN of three or more characters always yields a password of at least six. */
  lemma PasswordLength(pinRaw: string)
    ensures var pin := Trim(pinRaw);
            && (|pin| < 6 ==> PinToPassword(pinRaw) == pin + pin && |PinToPassword(pinRaw)| == 2 * |pin|)
            && (|pin| >= 6 ==> PinToPassword(pinRaw) == pin)
            && (|pin| >= 3 ==> |PinToPassword(pinRaw)| >= 6)
  {
  }

  /** Distinct PINs on the same side of the six-character boundary give distinct passwords. */
  lemma PinToPasswordInjective(p: string, q: string)
    requires Trim(p) != Trim(q)
    requires (|Trim(p)| < 6) == (|Trim(q)| < 6)
    ensures PinToPassword(p) != PinToPassword(q)
  {
    DoubledInjective(Trim(p), Trim(q));
  }

  lemma DoubledInjective(a: string, b: string)
    ensures a + a == b + b ==> a == b
  {
    if a + a == b + b {
      assert |a| == |b|;
      assert a == (a + a)[..|a|];
      assert b == (b + b)[..|b|];
    }
  }

  /** Across that boundary passwords can coincide: a PIN `w` of three to five characters and the PIN `w + w` (for instance "123" and "123123") share one. */
  lemma ShortAndLongPinCollide(w: string)
    requires 3 <= |w| < 6
    requires !IsSpace(w[0]) && !IsSpace(w[|w| - 1])
    ensures w != w + w
    ensures PinToPassword(w) == PinToPassword(w + w)
  {
    TrimmedUnchanged(w);
    TrimmedUnchanged(w + w);
  }

  /** The digits of the input, in order (`replace(/[^0-9]/g, "")`). */
  function Digits(s: string): (r: string)
    ensures forall i :: 0 <= i < |r| ==> IsDigit(r[i])
    ensures |r| <= |s|
    ensures (forall i :: 0 <= i < |s| ==> !IsDigit(s[i])) ==> r == []
  {
    if s == [] then []
    else if IsDigit(s[0]) then [s[0]] + Digits(s[1..])
    else Digits(s[1..])
  }

  lemma {:induction false} DigitsOfDigits(s: string)
    requires forall i :: 0 <= i < |s| ==> IsDigit(s[i])
    ensures Digits(s) == s
  {
    if s != [] {
      DigitsOfDigits(s[1..]);
    }
  }

  predicate StartsWith00(p: string) {
    |p| >= 2 && p[0] == '0' && p[1] == '0'
  }

  /** `normalizePhone`: trims, turns a leading "00" into "+", keeps only digits, and keeps one leading "+" if the user typed a "+" anywhere. */
  function NormalizePhone(phoneRaw: string): string {
    var p := Trim(phoneRaw);
    if p == [] then []
    else
      var hasPlus := '+' in p || StartsWith00(p);
      var p' := if StartsWith00(p) then "+" + p[2..] else p;
      var digits := Digits(p');
      if hasPlus then "+" + digits else digits
  }

  /** Empty or blank input normalises to the empty string. */
  lemma BlankPhoneIsEmpty(phoneRaw: string)
    requires forall i :: 0 <= i < |phoneRaw| ==> IsSpace(phoneRaw[i])
    ensures NormalizePhone(phoneRaw) == []
  {
    TrimBlank(phoneRaw);
  }

  /** The output is digits, optionally after one leading '+'. */
  lemma PhoneShape(phoneRaw: string)
    ensures var r := NormalizePhone(phoneRaw);
            forall i :: 0 <= i < |r| ==> IsDigit(r[i]) || (i == 0 && r[i] == '+')
  {
  }

  /** The output starts with '+' exactly when the trimmed input contains '+' or starts with "00". */
  lemma PhonePlusRule(phoneRaw: string)
    ensures var r := NormalizePhone(phoneRaw);
            var p := Trim(phoneRaw);
            (|r| > 0 && r[0] == '+') <==> ('+' in p || StartsWith00(p))
  {
  }

  /** A leading "00" is read as an international prefix: '+' and then the digits after it. */
  lemma PhoneDoubleZero(phoneRaw: string)
    requires StartsWith00(Trim(phoneRaw))
    ensures NormalizePhone(phoneRaw) == "+" + Digits(Trim(phoneRaw)[2..])
  {
    var p := Trim(phoneRaw);
    assert ("+" + p[2..])[1..] == p[2..];
  }

  /** Normalising again changes nothing, unless the digits themselves begin with "00". */
  lemma PhoneIdempotent(phoneRaw: string)
    requires !StartsWith00(NormalizePhone(phoneRaw))
    ensures NormalizePhone(NormalizePhone(phoneRaw)) == NormalizePhone(phoneRaw)
  {
    var r := NormalizePhone(phoneRaw);
    PhoneShape(phoneRaw);
    TrimmedUnchanged(r);
    if r != [] {
      if r[0] == '+' {
        assert '+' in r;
        DigitsOfDigits(r[1..]);
        assert r == "+" + r[1..];
      } else {
        assert '+' !in r;
        DigitsOfDigits(r);
      }
    }
  }

  lemma {:induction false} DigitsConcat(a: string, b: string)
    ensures Digits(a + b) == Digits(a) + Digits(b)
  {
    if a != [] {
      assert (a + b)[1..] == a[1..] + b;
      DigitsConcat(a[1..], b);
    } else {
      assert a + b == b;
    }
  }

  /** Read left to right, each digit of the input is kept and every other character is dropped. */
  lemma DigitsStep(s: string, i: nat)
    requires i < |s|
    ensures Digits(s[..i + 1]) == Digits(s[..i]) + (if IsDigit(s[i]) then [s[i]] else [])
  {
    assert s[..i + 1] == s[..i] + [s[i]];
    DigitsConcat(s[..i], [s[i]]);
    assert [s[i]][1..] == [];
  }

  /**
   * The exception: digits that begin with "00" but were not typed as a
   * prefix (as in "(0044)1234") come out unchanged, and a second pass then
   * turns the "00" into '+'.
   */
  lemma PhoneNotIdempotentOnDoubleZeroDigits(d: string)
    requires StartsWith00(d)
    requires forall i :: 0 <= i < |d| ==> IsDigit(d[i])
    ensures NormalizePhone("(" + d + ")") == d
    ensures NormalizePhone(d) == "+" + d[2..] != d
  {
    BracketedDigits(d);
    DoubleZeroDigits(d);
  }

  lemma BracketedDigits(d: string)
    requires StartsWith00(d)
    requires forall i :: 0 <= i < |d| ==> IsDigit(d[i])
    ensures NormalizePhone("(" + d + ")") == d
  {
    var wrapped := "(" + d + ")";
    TrimmedUnchanged(wrapped);
    assert '+' !in wrapped by {
      forall i | 0 <= i < |wrapped| ensures wrapped[i] != '+' {
        if 0 < i < |wrapped| - 1 { assert wrapped[i] == d[i - 1]; }
      }
    }
    assert !StartsWith00(wrapped);
    DigitsConcat("(", d);
    DigitsConcat("(" + d, ")");
    DigitsOfDigits(d);
  }

  lemma DoubleZeroDigits(d: string)
    requires StartsWith00(d)
    requires forall i :: 0 <= i < |d| ==> IsDigit(d[i])
    ensures NormalizePhone(d) == "+" + d[2..]
  {
    TrimmedUnchanged(d);
    DigitsOfDigits(d[2..]);
    assert ("+" + d[2..])[1..] == d[2..];
  }
}
