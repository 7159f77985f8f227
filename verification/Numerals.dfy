/** Decimal text: what a number on the wire denotes, and the digits Kraken's checksum keeps of it. */
module Numerals {
  import opened Collections

  predicate IsDigit(c: char) {
    '0' <= c <= '9'
  }

  predicate AllDigits(s: string) {
    forall i :: 0 <= i < |s| ==> IsDigit(s[i])
  }

  function DigitValue(c: char): nat
    requires IsDigit(c)
  {
    c as int - '0' as int
  }

  /** The number a run of digits denotes. */
  function NatOf(s: string): nat
    requires AllDigits(s)
  {
    if s == [] then 0 else 10 * NatOf(s[..|s| - 1]) + DigitValue(s[|s| - 1])
  }

  function Pow10(n: nat): (r: nat)
    ensures r > 0
  {
    if n == 0 then 1 else 10 * Pow10(n - 1)
  }

  /** Where `c` first occurs, or the length. */
  function IndexOf(s: string, c: char): (i: nat)
    ensures i <= |s|
    ensures i < |s| ==> s[i] == c
    ensures forall j :: 0 <= j < i ==> s[j] != c
  {
    if s == [] || s[0] == c then 0 else 1 + IndexOf(s[1..], c)
  }

  /** Digits with at most one dot among them, at least one digit in all. */
  function ParseMantissa(s: string): Option<real> {
    var dot := IndexOf(s, '.');
    var whole, fraction := s[..dot], if dot < |s| then s[dot + 1..] else [];
    if whole + fraction == [] || !AllDigits(whole + fraction) then None
    else Some(NatOf(whole + fraction) as real / Pow10(|fraction|) as real)
  }

  /** A sign, then digits. */
  function ParseExponent(s: string): Option<int> {
    var digits := if s != [] && s[0] in "+-" then s[1..] else s;
    if digits == [] || !AllDigits(digits) then None
    else
      var n: int := NatOf(digits);
      Some(if s[0] == '-' then -n else n)
  }

  function Scaled(x: real, exponent: int): real {
    if exponent >= 0 then x * Pow10(exponent) as real else x / Pow10(-exponent) as real
  }

  function ParseUnsigned(s: string): Option<real> {
    var e := if IndexOf(s, 'e') < |s| then IndexOf(s, 'e') else IndexOf(s, 'E');
    if e == |s| then ParseMantissa(s)
    else
      var mantissa, exponent := ParseMantissa(s[..e]), ParseExponent(s[e + 1..]);
      if mantissa.None? || exponent.None? then None else Some(Scaled(mantissa.value, exponent.value))
  }

  /**
   `str::parse::<f64>` on finite numbers, without rounding: `None` for any other JSON text. Its
   words for infinity and not-a-number are no JSON value and are left out.
   */
  function ParseNumber(s: string): Option<real> {
    if s != [] && s[0] == '-' then
      var r := ParseUnsigned(s[1..]);
      if r.None? then None else Some(-r.value)
    else ParseUnsigned(if s != [] && s[0] == '+' then s[1..] else s)
  }

  // ---------------------------------------------------------------- the checksum text

  function NotDot(c: char): bool {
    c != '.'
  }

  function TrimZeros(s: string): string {
    if s != [] && s[0] == '0' then TrimZeros(s[1..]) else s
  }

  /** No dot, no leading zeros, and "0" rather than nothing. */
  function StripForChecksum(raw: string): string {
    var trimmed := TrimZeros(Filter(raw, NotDot));
    if trimmed == [] then "0" else trimmed
  }

  /** Digits with no leading zero, or "0": the one numeral of its number. */
  predicate Canonical(s: string) {
    s != [] && AllDigits(s) && (s[0] == '0' ==> s == "0")
  }

  /** Digit text with at most one dot, as the venue writes prices and quantities. */
  predicate DigitText(raw: string) {
    var dot := IndexOf(raw, '.');
    |raw| > (if dot < |raw| then 1 else 0) && AllDigits(raw[..dot]) && (dot < |raw| ==> AllDigits(raw[dot + 1..]))
  }

  /** The digits on both sides of the dot. */
  function Undotted(raw: string): string {
    var dot := IndexOf(raw, '.');
    raw[..dot] + if dot < |raw| then raw[dot + 1..] else []
  }

  /** Digits behind the dot. */
  function Decimals(raw: string): nat {
    var dot := IndexOf(raw, '.');
    if dot < |raw| then |raw| - dot - 1 else 0
  }

  lemma UndottedIsFilter(raw: string)
    requires DigitText(raw)
    ensures Filter(raw, NotDot) == Undotted(raw)
  {
    var dot := IndexOf(raw, '.');
    var whole := raw[..dot];
    assert Filter(whole, NotDot) == whole by {
      FilterAllOrNothing(whole, NotDot);
    }
    if dot < |raw| {
      var tail := raw[dot + 1..];
      assert Filter(tail, NotDot) == tail by {
        FilterAllOrNothing(tail, NotDot);
      }
      assert Filter(whole + ['.'] + tail, NotDot) == whole + tail by {
        DropDot(whole, tail);
      }
      SplitAt(raw, dot);
    } else {
      assert raw == whole;
    }
  }

  lemma SplitAt(s: string, i: nat)
    requires i < |s|
    ensures s == s[..i] + [s[i]] + s[i + 1..]
  {
  }

  lemma DropDot(s: string, t: string)
    ensures Filter(s + ['.'] + t, NotDot) == Filter(s, NotDot) + Filter(t, NotDot)
  {
    var dot := ['.'];
    assert Filter(dot, NotDot) == [] by {
      FilterAllOrNothing(dot, NotDot);
    }
    assert Filter(s + dot, NotDot) == Filter(s, NotDot) by {
      FilterConcat(s, dot, NotDot);
    }
    assert Filter(s + dot + t, NotDot) == Filter(s + dot, NotDot) + Filter(t, NotDot) by {
      FilterConcat(s + dot, t, NotDot);
    }
  }

  lemma {:induction false} TrimZerosDrops(s: string) returns (zeros: nat)
    ensures zeros <= |s| && TrimZeros(s) == s[zeros..]
    ensures (forall i :: 0 <= i < zeros ==> s[i] == '0') && (zeros < |s| ==> s[zeros] != '0')
  {
    zeros := 0;
    if s != [] && s[0] == '0' {
      zeros := TrimZerosDrops(s[1..]);
      zeros := zeros + 1;
    }
  }

  /** Of any text the checksum keeps what is left without dots behind its leading zeros, or "0" if nothing is. */
  lemma StripKeeps(raw: string) returns (zeros: nat)
    ensures var undotted := Filter(raw, NotDot);
            && zeros <= |undotted|
            && (forall i :: 0 <= i < zeros ==> undotted[i] == '0') && (zeros < |undotted| ==> undotted[zeros] != '0')
            && StripForChecksum(raw) == if zeros == |undotted| then "0" else undotted[zeros..]
  {
    zeros := TrimZerosDrops(Filter(raw, NotDot));
  }

  lemma {:induction false} LeadingZero(s: string)
    requires AllDigits(s) && s != [] && s[0] == '0'
    ensures NatOf(s) == NatOf(s[1..])
  {
    if |s| > 1 {
      LeadingZero(s[..|s| - 1]);
      assert s[..|s| - 1][1..] == s[1..][..|s| - 2];
    }
  }

  lemma {:induction false} TrimKeepsValue(s: string)
    requires AllDigits(s)
    ensures AllDigits(TrimZeros(s)) && NatOf(TrimZeros(s)) == NatOf(s)
    ensures TrimZeros(s) != [] ==> TrimZeros(s)[0] != '0'
  {
    if s != [] && s[0] == '0' {
      LeadingZero(s);
      TrimKeepsValue(s[1..]);
    }
  }

  /** The checksum text is the canonical numeral of the dot-free integer. */
  lemma StripIsCanonicalNumeral(raw: string)
    requires DigitText(raw)
    ensures Canonical(StripForChecksum(raw))
    ensures AllDigits(Undotted(raw)) && NatOf(StripForChecksum(raw)) == NatOf(Undotted(raw))
  {
    UndottedIsFilter(raw);
    assert AllDigits(Undotted(raw)) && Undotted(raw) != [];
    TrimKeepsValue(Undotted(raw));
    assert "0"[..0] == [];
  }

  lemma DigitTextHasNo(raw: string, c: char)
    requires DigitText(raw) && !IsDigit(c) && c != '.'
    ensures IndexOf(raw, c) == |raw|
  {
    DigitTextChars(raw);
  }

  lemma MantissaOfDigitText(raw: string)
    requires DigitText(raw)
    ensures AllDigits(Undotted(raw)) && Undotted(raw) != []
    ensures ParseMantissa(raw) == Some(NatOf(Undotted(raw)) as real / Pow10(Decimals(raw)) as real)
  {
  }

  lemma DigitTextIsMantissa(raw: string)
    requires DigitText(raw)
    ensures ParseNumber(raw) == ParseMantissa(raw)
  {
    DigitTextChars(raw);
    DigitTextHasNo(raw, 'e');
    DigitTextHasNo(raw, 'E');
    assert ParseUnsigned(raw) == ParseMantissa(raw);
  }

  /** Together with the number of decimals it gives back the parsed value. */
  lemma StripDeterminesValue(raw: string)
    requires DigitText(raw)
    ensures Canonical(StripForChecksum(raw))
    ensures ParseNumber(raw) == Some(NatOf(StripForChecksum(raw)) as real / Pow10(Decimals(raw)) as real)
  {
    StripIsCanonicalNumeral(raw);
    DigitTextIsMantissa(raw);
    MantissaOfDigitText(raw);
  }

  lemma DigitTextChars(raw: string)
    requires DigitText(raw)
    ensures forall i :: 0 <= i < |raw| ==> IsDigit(raw[i]) || raw[i] == '.'
  {
    var dot := IndexOf(raw, '.');
    forall i | 0 <= i < |raw| ensures IsDigit(raw[i]) || raw[i] == '.' {
      if i < dot {
        assert raw[i] == raw[..dot][i];
      } else if i > dot {
        assert raw[i] == raw[dot + 1..][i - dot - 1];
      }
    }
  }

  lemma {:induction false} CanonicalSize(s: string)
    requires Canonical(s)
    ensures s != "0" ==> NatOf(s) >= 1
    ensures |s| >= 2 ==> NatOf(s) >= 10
  {
    if |s| >= 2 {
      var t := s[..|s| - 1];
      assert t[0] == s[0];
      CanonicalSize(t);
      assert t != "0";
    } else {
      assert s[..0] == [];
      assert NatOf(s) == DigitValue(s[0]);
      if s[0] == '0' {
        assert s == "0";
      }
    }
  }

  /** A number has one canonical numeral. */
  lemma {:induction false} CanonicalUnique(s: string, t: string)
    requires Canonical(s) && Canonical(t) && NatOf(s) == NatOf(t)
    ensures s == t
    decreases |s|
  {
    CanonicalSize(s);
    CanonicalSize(t);
    var u, v := s[..|s| - 1], t[..|t| - 1];
    assert s == u + [s[|s| - 1]] && t == v + [t[|t| - 1]];
    assert NatOf(s) == 10 * NatOf(u) + DigitValue(s[|s| - 1]);
    assert NatOf(t) == 10 * NatOf(v) + DigitValue(t[|t| - 1]);
    assert NatOf(u) == NatOf(v) && DigitValue(s[|s| - 1]) == DigitValue(t[|t| - 1]);
    assert (|s| == 1 ==> u == []) && (|t| == 1 ==> v == []);
    if |s| >= 2 && |t| >= 2 {
      assert u[0] == s[0] && v[0] == t[0];
      CanonicalUnique(u, v);
    }
  }

  /** Two texts have the same checksum digits exactly when their dot-free integers are equal. */
  lemma StripEqualIff(raw: string, other: string)
    requires DigitText(raw) && DigitText(other)
    ensures AllDigits(Undotted(raw)) && AllDigits(Undotted(other))
    ensures StripForChecksum(raw) == StripForChecksum(other) <==> NatOf(Undotted(raw)) == NatOf(Undotted(other))
  {
    StripIsCanonicalNumeral(raw);
    StripIsCanonicalNumeral(other);
    if NatOf(Undotted(raw)) == NatOf(Undotted(other)) {
      CanonicalUnique(StripForChecksum(raw), StripForChecksum(other));
    }
  }

  /** Stripping twice is stripping once, whatever the text. */
  lemma StripIdempotent(raw: string)
    ensures StripForChecksum(StripForChecksum(raw)) == StripForChecksum(raw)
  {
    var trimmed := TrimZeros(Filter(raw, NotDot));
    FilterElements(raw, NotDot);
    TrimElements(Filter(raw, NotDot));
    FilterAllOrNothing(StripForChecksum(raw), NotDot);
    if trimmed == [] {
      assert StripForChecksum(raw) == "0";
      assert TrimZeros("0") == [] by {
        assert "0"[1..] == [];
      }
    }
  }

  lemma {:induction false} TrimElements(s: string)
    ensures forall c :: c in TrimZeros(s) ==> c in s
    ensures TrimZeros(s) != [] ==> TrimZeros(s)[0] != '0'
  {
    if s != [] && s[0] == '0' {
      TrimElements(s[1..]);
    }
  }
}
