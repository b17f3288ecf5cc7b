/** What the texts of numbers and of ids stand for. */
module TextLaws {
  import opened Texts

  /** A digit's value: 0 to 9, and a to f for 10 to 15. */
  function DigitValue(c: char): int {
    if '0' <= c <= '9' then c as int - '0' as int else c as int - 'a' as int + 10
  }

  /** The number that some digits stand for. */
  function Value(digits: string, radix: int): int {
    if digits == "" then 0
    else Value(digits[..|digits| - 1], radix) * radix + DigitValue(digits[|digits| - 1])
  }

  lemma {:induction false} DigitStandsFor(d: nat)
    requires d < 16
    ensures DigitValue(Digit(d)) == d && ('0' <= Digit(d) <= '9' <==> d < 10) && (d >= 10 ==> 'a' <= Digit(d) <= 'f')
  {
  }

  /** The decimal form stands for its number, in digits alone and without a leading zero. */
  lemma {:induction false} DecimalStandsFor(n: nat)
    ensures Value(Decimal(n), 10) == n
    ensures forall i :: 0 <= i < |Decimal(n)| ==> '0' <= Decimal(n)[i] <= '9'
    ensures Decimal(n) != "" && (Decimal(n)[0] == '0' <==> n == 0)
  {
    hide Digit;
    DigitStandsFor(n % 10);
    var s := Decimal(n);
    if n >= 10 {
      DecimalStandsFor(n / 10);
      assert s[..|s| - 1] == Decimal(n / 10) && s[|s| - 1] == Digit(n % 10);
    } else {
      assert s == [Digit(n)] && s[..0] == "";
      if Digit(n) == '0' {
        assert DigitValue('0') == 0;
      }
      assert Value(s[..0], 10) == 0;
    }
  }

  lemma {:induction false} HexStandsFor(n: nat, width: nat)
    requires n < Power16(width)
    ensures Value(Hex(n, width), 16) == n
  {
    if width > 0 {
      var s := Hex(n, width);
      assert s[..width - 1] == Hex(n / 16, width - 1) && s[width - 1] == Digit(n % 16);
      HexStandsFor(n / 16, width - 1);
      DigitStandsFor(n % 16);
    }
  }

  /** The canonical form of an id is 32 hexadecimal digits that stand for it, in groups of 8, 4, 4, 4 and 12 with dashes
      between them. */
  lemma {:induction false} CanonicalStandsFor(id: nat)
    requires IsUuid(id)
    ensures var s := Canonical(id);
      && |s| == 36 && s[8] == s[13] == s[18] == s[23] == '-'
      && Value(s[..8] + s[9..13] + s[14..18] + s[19..23] + s[24..], 16) == id
  {
    hide Hex;
    var h := Hex(id, 32);
    GroupingKeepsDigits(h);
    GroupedAt(h, 8);
    GroupedAt(h, 13);
    GroupedAt(h, 18);
    GroupedAt(h, 23);
    HexStandsFor(id, 32);
  }
}
