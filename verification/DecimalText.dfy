/** Numbers and their decimal texts. */
module DecimalText {

  predicate IsDigit(c: char) {
    '0' <= c <= '9'
  }

  /** `str(n)` of a natural number. */
  function Decimal(n: nat): (text: string)
    ensures |text| >= 1
  {
    if n < 10 then ['0' + n as char] else Decimal(n / 10) + ['0' + (n % 10) as char]
  }

  /** `str(n)` */
  function Text(n: int): string {
    if n < 0 then "-" + Decimal(-n) else Decimal(n)
  }

  /** `int(text)` of decimal digits. */
  function Number(text: string): nat
    requires forall i | 0 <= i < |text| :: IsDigit(text[i])
  {
    if text == [] then 0
    else
      assert IsDigit(text[|text| - 1]);
      10 * Number(text[..|text| - 1]) + (text[|text| - 1] - '0') as nat
  }

  lemma {:induction false} NumberOfDecimal(n: nat)
    ensures forall i | 0 <= i < |Decimal(n)| :: IsDigit(Decimal(n)[i])
    ensures Number(Decimal(n)) == n
    ensures n > 0 ==> Decimal(n)[0] != '0'
  {
    if n >= 10 {
      NumberOfDecimal(n / 10);
      var text := Decimal(n);
      assert text[..|text| - 1] == Decimal(n / 10);
    } else {
      assert Decimal(n)[..0] == [];
    }
  }

  lemma {:induction false} DecimalOfNumber(text: string)
    requires |text| >= 1 && text[0] != '0' && forall i | 0 <= i < |text| :: IsDigit(text[i])
    ensures Number(text) >= 1 && Decimal(Number(text)) == text
  {
    var high, low := text[..|text| - 1], text[|text| - 1];
    if |text| == 1 {
      assert high == [];
    } else {
      DecimalOfNumber(high);
      assert text == high + [low];
    }
  }

  function Power10(k: nat): nat {
    if k == 0 then 1 else 10 * Power10(k - 1)
  }

  lemma {:induction false} DecimalLength(n: nat, k: nat)
    requires 1 <= k
    ensures n >= 1 ==> (|Decimal(n)| == k <==> Power10(k - 1) <= n < Power10(k))
    decreases n
  {
    if n >= 10 {
      if k == 1 {
        assert Power10(1) == 10;
      } else {
        DecimalLength(n / 10, k - 1);
        assert Power10(k) == 10 * Power10(k - 1) && Power10(k - 1) == 10 * Power10(k - 2);
      }
    } else if k > 1 {
      PowerAtLeastTen(k - 1);
    }
  }

  lemma {:induction false} PowerAtLeastTen(k: nat)
    requires 1 <= k
    ensures Power10(k) >= 10
  {
    if k > 1 {
      PowerAtLeastTen(k - 1);
    } else {
      assert Power10(0) == 1;
    }
  }
}
