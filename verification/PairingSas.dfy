/** The short authentication string of a pairing: reducing derived bytes to twelve digits,
    displaying them, and how evenly the displays are spread. */
module PairingSas {
  const U64_LIMIT: nat := 0x1_0000_0000_0000_0000
  const SAS_DECIMAL_MODULUS: nat := 1_000_000_000_000

  /** The displays that have one derived value more than the others. */
  const FAVOURED: nat := 73_709_551_616
  const FEWER: nat := 18_446_744

  function Reduce(derived: nat): nat {
    derived % SAS_DECIMAL_MODULUS
  }

  // ---- Decimal text -----------------------------------------------------

  function Digit(n: nat): char
    requires n < 10
  {
    '0' + n as char
  }

  function Decimal(n: nat): string {
    if n < 10 then [Digit(n)] else Decimal(n / 10) + [Digit(n % 10)]
  }

  function Zeros(n: nat): string {
    seq(n, _ => '0')
  }

  /** A number with at least four digits. */
  function Padded(text: string): string {
    if |text| < 4 then Zeros(4 - |text|) + text else text
  }

  function FourDigits(n: nat): string {
    Padded(Decimal(n))
  }

  function Display(sas: nat): string {
    FourDigits(sas / 100_000_000) + " " + FourDigits(sas / 10_000 % 10_000) + " " + FourDigits(sas % 10_000)
  }

  // ---- Reading a display ------------------------------------------------

  function DigitValue(c: char): nat {
    if '0' <= c <= '9' then (c - '0') as nat else 0
  }

  function Value(text: string): nat {
    if text == [] then 0 else 10 * Value(text[..|text| - 1]) + DigitValue(text[|text| - 1])
  }

  /** The value of three groups of four digits. */
  function ReadDisplay(text: string): nat
    requires |text| == 14
  {
    Value(text[..4]) * 100_000_000 + Value(text[5..9]) * 10_000 + Value(text[10..])
  }

  lemma {:induction false} DecimalHasValue(n: nat)
    ensures Value(Decimal(n)) == n
    ensures forall i | 0 <= i < |Decimal(n)| :: '0' <= Decimal(n)[i] <= '9'
  {
    if n >= 10 {
      DecimalHasValue(n / 10);
      assert Decimal(n)[..|Decimal(n)| - 1] == Decimal(n / 10);
    }
  }

  lemma {:induction false} DecimalLength(n: nat)
    ensures |Decimal(n)| >= 1
    ensures n < 100 ==> |Decimal(n)| <= 2
    ensures n < 1_000 ==> |Decimal(n)| <= 3
    ensures n < 10_000 ==> |Decimal(n)| <= 4
  {
    if n >= 10 {
      DecimalLength(n / 10);
    }
  }

  lemma {:induction false} ZerosAreWorthless(n: nat, text: string)
    ensures Value(Zeros(n) + text) == Value(text)
    decreases |text|, n
  {
    var all := Zeros(n) + text;
    if text != [] {
      assert all[..|all| - 1] == Zeros(n) + text[..|text| - 1];
      ZerosAreWorthless(n, text[..|text| - 1]);
    } else if n > 0 {
      assert all[..|all| - 1] == Zeros(n - 1) + text;
      ZerosAreWorthless(n - 1, text);
    }
  }

  lemma PaddingKeepsValue(text: string)
    requires |text| <= 4 && forall i | 0 <= i < |text| :: '0' <= text[i] <= '9'
    ensures |Padded(text)| == 4 && Value(Padded(text)) == Value(text)
    ensures forall i | 0 <= i < 4 :: '0' <= Padded(text)[i] <= '9'
  {
    ZerosAreWorthless(4 - |text|, text);
  }

  lemma FourDigitsHaveValue(n: nat)
    requires n < 10_000
    ensures |FourDigits(n)| == 4 && Value(FourDigits(n)) == n
    ensures forall i | 0 <= i < 4 :: '0' <= FourDigits(n)[i] <= '9'
  {
    DecimalLength(n);
    DecimalHasValue(n);
    PaddingKeepsValue(Decimal(n));
  }

  /** A display has twelve digits in three groups, and reads back as what it displays. */
  lemma DisplayReadsBack(sas: nat)
    requires sas < SAS_DECIMAL_MODULUS
    ensures |Display(sas)| == 14
    ensures forall i | 0 <= i < 14 :: Display(sas)[i] == ' ' <==> i == 4 || i == 9
    ensures ReadDisplay(Display(sas)) == sas
  {
    var g1, g2, g3 := sas / 100_000_000, sas / 10_000 % 10_000, sas % 10_000;
    FourDigitsHaveValue(g1);
    FourDigitsHaveValue(g2);
    FourDigitsHaveValue(g3);
    var text := Display(sas);
    assert text[..4] == FourDigits(g1);
    assert text[5..9] == FourDigits(g2);
    assert text[10..] == FourDigits(g3);
    assert sas / 10_000 / 10_000 == sas / 100_000_000;
    forall i | 0 <= i < 14 && i != 4 && i != 9
      ensures '0' <= text[i] <= '9'
    {
      assert text[i] == if i < 4 then FourDigits(g1)[i] else if i < 9 then FourDigits(g2)[i - 5]
                        else FourDigits(g3)[i - 10];
    }
  }

  /** Different values are displayed differently. */
  lemma DisplayIsInjective(a: nat, b: nat)
    requires a < SAS_DECIMAL_MODULUS && b < SAS_DECIMAL_MODULUS && Display(a) == Display(b)
    ensures a == b
  {
    DisplayReadsBack(a);
    DisplayReadsBack(b);
  }

  // ---- How evenly displays are spread -----------------------------------

  /** The derived values that lead to one display. */
  ghost function Preimages(display: string): set<nat> {
    set derived: nat | derived < U64_LIMIT && Display(Reduce(derived)) == display
  }

  ghost function Image<T>(n: nat, f: nat -> T): set<T> {
    set i: nat | i < n :: f(i)
  }

  lemma {:induction false} ImageCount<T>(n: nat, f: nat -> T)
    requires forall i: nat, j: nat | i < j < n :: f(i) != f(j)
    ensures |Image(n, f)| == n
  {
    if n == 0 {
      assert Image(0, f) == {};
    } else {
      ImageCount(n - 1, f);
      assert Image(n, f) == Image(n - 1, f) + {f(n - 1)};
    }
  }

  ghost function Multiples(n: nat, sas: nat): set<nat> {
    Image(n, (k: nat) => k * SAS_DECIMAL_MODULUS + sas)
  }

  function Count(sas: nat): nat {
    if sas < FAVOURED then FEWER + 1 else FEWER
  }

  lemma IsMultiple(derived: nat, sas: nat)
    requires derived < U64_LIMIT && Reduce(derived) == sas
    ensures derived in Multiples(Count(sas), sas)
  {
    var k := derived / SAS_DECIMAL_MODULUS;
    assert derived == ((k: nat) => k * SAS_DECIMAL_MODULUS + sas)(k) && k < Count(sas);
  }

  lemma MultipleReduces(k: nat, sas: nat)
    requires sas < SAS_DECIMAL_MODULUS && k < Count(sas)
    ensures k * SAS_DECIMAL_MODULUS + sas < U64_LIMIT
    ensures Reduce(k * SAS_DECIMAL_MODULUS + sas) == sas
  {
    FitsInto64Bits(k, sas);
    assert (k * SAS_DECIMAL_MODULUS + sas) / SAS_DECIMAL_MODULUS == k;
  }

  lemma FitsInto64Bits(k: nat, sas: nat)
    requires sas < SAS_DECIMAL_MODULUS && k < Count(sas)
    ensures k * SAS_DECIMAL_MODULUS + sas < U64_LIMIT
  {
  }

  /** Every display is reached from one of two almost equal numbers of derived values. */
  lemma PreimagesCount(sas: nat)
    requires sas < SAS_DECIMAL_MODULUS
    ensures |Preimages(Display(sas))| == Count(sas)
  {
    var preimages, multiples := Preimages(Display(sas)), Multiples(Count(sas), sas);
    forall derived | derived in preimages
      ensures derived in multiples
    {
      DisplayIsInjective(Reduce(derived), sas);
      IsMultiple(derived, sas);
    }
    forall derived | derived in multiples
      ensures derived in preimages
    {
      var k: nat :| k < Count(sas) && derived == k * SAS_DECIMAL_MODULUS + sas;
      MultipleReduces(k, sas);
    }
    assert preimages == multiples;
    ImageCount(Count(sas), (k: nat) => k * SAS_DECIMAL_MODULUS + sas);
  }

  ghost function Displays(n: nat): set<string> {
    Image(n, Display)
  }

  lemma DisplaysCount(n: nat)
    requires n <= SAS_DECIMAL_MODULUS
    ensures |Displays(n)| == n
  {
    forall i: nat, j: nat | i < j < n
      ensures Display(i) != Display(j)
    {
      if Display(i) == Display(j) {
        DisplayIsInjective(i, j);
      }
    }
    ImageCount(n, Display);
  }

  /** Exactly this many of all displays are reached once more often than the rest. */
  lemma FavouredCount()
    ensures |Displays(SAS_DECIMAL_MODULUS)| == SAS_DECIMAL_MODULUS
    ensures |set display | display in Displays(SAS_DECIMAL_MODULUS) && |Preimages(display)| == FEWER + 1| == FAVOURED
  {
    var favoured := set display | display in Displays(SAS_DECIMAL_MODULUS) && |Preimages(display)| == FEWER + 1;
    forall sas: nat | sas < SAS_DECIMAL_MODULUS
      ensures |Preimages(Display(sas))| == FEWER + 1 <==> sas < FAVOURED
    {
      PreimagesCount(sas);
    }
    assert favoured == Displays(FAVOURED);
    DisplaysCount(FAVOURED);
    DisplaysCount(SAS_DECIMAL_MODULUS);
  }

  /** A display, digit for digit. */
  lemma Displayed()
    ensures Display(123_400_567_890) == "1234 0056 7890"
  {
    assert Decimal(1234) == "1234" && Decimal(56) == "56" && Decimal(7890) == "7890" by {
      assert Decimal(1) == "1" && Decimal(12) == "12" && Decimal(123) == "123";
      assert Decimal(5) == "5";
      assert Decimal(7) == "7" && Decimal(78) == "78" && Decimal(789) == "789";
    }
    assert Zeros(2) == "00";
    assert 123_400_567_890 / 100_000_000 == 1234 && 123_400_567_890 / 10_000 % 10_000 == 56
      && 123_400_567_890 % 10_000 == 7890;
  }

  /** The derived bytes are reduced to twelve digits. */
  lemma ReducedMeans(derived: nat)
    ensures Reduce(derived) < 1_000_000_000_000
    ensures exists q: nat :: derived == q * 1_000_000_000_000 + Reduce(derived)
  {
    assert derived == derived / 1_000_000_000_000 * 1_000_000_000_000 + Reduce(derived);
  }
}
