/**
 * Printed Indonesian prose: words, codes, amounts of rupiah, numerals with dotted thousands, plain
 * numbers and decimals, with one space between them; and how numerals read.
 */
module ProsePrinter {
  import opened Text
  import opened ProseNumbers

  // ---------------------------------------------------------------------------
  // Numerals
  // ---------------------------------------------------------------------------

  function Digit(d: nat): (c: char)
    requires d < 10
    ensures IsDigit(c)
  {
    (48 + d) as char
  }

  /** The decimal numeral of a number. */
  function Decimal(n: nat): string {
    (if n < 10 then "" else Decimal(n / 10)) + [Digit(n % 10)]
  }

  function ThreeDigits(n: nat): string
    requires n < 1000
  {
    [Digit(n / 100), Digit(n / 10 % 10), Digit(n % 10)]
  }

  /** The numeral with a dot before every group of three digits: 1.250.000. */
  function Dotted(n: nat): string {
    if n < 1000 then Decimal(n) else Dotted(n / 1000) + "." + ThreeDigits(n % 1000)
  }

  predicate AreDigits(digits: seq<nat>) {
    forall i :: 0 <= i < |digits| ==> digits[i] < 10
  }

  function DigitsText(digits: seq<nat>): (s: string)
    requires AreDigits(digits)
    ensures |s| == |digits| && forall i :: 0 <= i < |s| ==> s[i] == Digit(digits[i])
  {
    seq(|digits|, i requires 0 <= i < |digits| => Digit(digits[i]))
  }

  /** What the digits after a decimal mark are worth. */
  function FractionValue(digits: seq<nat>): real {
    if digits == [] then 0.0 else (digits[0] as real + FractionValue(digits[1..])) / 10.0
  }

  // ---------------------------------------------------------------------------
  // Tokens
  // ---------------------------------------------------------------------------

  /** A piece of prose; a code is a word of letters and digits, as in 30x or A4. */
  datatype Token =
    | Words(text: string)
    | Code(text: string)
    | Rupiah(letters: string, gap: string, dotted: bool, amount: nat)
    | Thousands(amount: nat)
    | Number(amount: nat)
    | Fraction(whole: nat, mark: char, digits: seq<nat>)

  predicate DigitFree(s: string) {
    forall i :: 0 <= i < |s| ==> !IsDigit(s[i])
  }

  predicate AllDigits(s: string) {
    forall i :: 0 <= i < |s| ==> IsDigit(s[i])
  }

  /** The letters `Rp` in any case. */
  predicate StartsRp(s: string) {
    |s| >= 2 && s[0] in "Rr" && s[1] in "Pp"
  }

  predicate WellFormed(t: Token) {
    match t
    case Words(text) => DigitFree(text)
    case Code(text) =>
      && (forall i :: 0 <= i < |text| ==> IsWord(text[i])) && !AllDigits(text)
      && (StartsRp(text) ==> |text| > 2 && !IsDigit(text[2]))
    case Rupiah(letters, gap, _, _) => |letters| == 2 && StartsRp(letters) && AllSpace(gap)
    case Thousands(amount) => amount >= 1000
    case Number(_) => true
    case Fraction(whole, mark, digits) =>
      mark in ".," && digits != [] && AreDigits(digits) && (mark == '.' && whole < 1000 ==> |digits| != 3)
  }

  type Piece = t: Token | WellFormed(t) witness Words("")

  function Print(t: Piece): string {
    match t
    case Words(text) => text
    case Code(text) => text
    case Rupiah(letters, gap, dotted, amount) => letters + gap + (if dotted then Dotted(amount) else Decimal(amount))
    case Thousands(amount) => Dotted(amount)
    case Number(amount) => Decimal(amount)
    case Fraction(whole, mark, digits) => Decimal(whole) + [mark] + DigitsText(digits)
  }

  /** The tokens with one space between them. */
  function Prose(tokens: seq<Piece>): string
    decreases |tokens|, 0
  {
    if tokens == [] then "" else Print(tokens[0]) + Continued(tokens[1..])
  }

  function Continued(tokens: seq<Piece>): (s: string)
    ensures s == "" || s[0] == ' '
    decreases |tokens|, 1
  {
    if tokens == [] then "" else " " + Prose(tokens)
  }

  // ---------------------------------------------------------------------------
  // What the tokens are worth
  // ---------------------------------------------------------------------------

  /** The pass that is to find a token: amounts of rupiah first, then dotted thousands, then other numbers; words never. */
  function PassOf(t: Token): nat {
    match t
    case Rupiah(_, _, _, _) => 0
    case Thousands(_) => 1
    case Number(_) => 2
    case Fraction(_, _, _) => 2
    case _ => 3
  }

  function ValueOf(t: Token): real {
    match t
    case Words(_) => 0.0
    case Code(_) => 0.0
    case Rupiah(_, _, _, amount) => amount as real
    case Thousands(amount) => amount as real
    case Number(amount) => amount as real
    case Fraction(whole, _, digits) => whole as real + FractionValue(digits)
  }

  /** The values of the tokens that a pass is to find, in order. */
  function ValuesOf(tokens: seq<Piece>, pass: nat): seq<real> {
    if tokens == [] then []
    else (if PassOf(tokens[0]) == pass then [ValueOf(tokens[0])] else []) + ValuesOf(tokens[1..], pass)
  }

  // ---------------------------------------------------------------------------
  // The numeral is read in full, as its number
  // ---------------------------------------------------------------------------

  lemma {:induction false} DigitsValueOfMore(s: string, d: nat)
    requires d < 10
    ensures DigitsValue(s + [Digit(d)]) == 10 * DigitsValue(s) + d
  {
    assert (s + [Digit(d)])[..|s|] == s;
  }

  lemma {:induction false} DigitsValueOfThree(s: string, n: nat)
    requires n < 1000
    ensures DigitsValue(s + ThreeDigits(n)) == 1000 * DigitsValue(s) + n
  {
    var a := s + [Digit(n / 100)];
    var b := a + [Digit(n / 10 % 10)];
    DigitsValueOfMore(s, n / 100);
    DigitsValueOfMore(a, n / 10 % 10);
    DigitsValueOfMore(b, n % 10);
    assert s + ThreeDigits(n) == b + [Digit(n % 10)];
    ThreeDigitsAdd(n);
  }

  lemma {:induction false} ThreeDigitsAdd(n: nat)
    requires n < 1000
    ensures n == 100 * (n / 100) + 10 * (n / 10 % 10) + n % 10
  {
  }

  lemma {:induction false} DecimalReads(n: nat)
    ensures DigitsValue(Decimal(n)) == n
    ensures AllDigits(Decimal(n)) && Decimal(n) != ""
  {
    if n < 10 {
      DigitsValueOfMore("", n);
      assert Decimal(n) == "" + [Digit(n)];
    } else {
      DecimalReads(n / 10);
      DigitsValueOfMore(Decimal(n / 10), n % 10);
    }
  }

  lemma {:induction false} DecimalLength(n: nat)
    requires n < 1000
    ensures 1 <= |Decimal(n)| <= 3
  {
    if n >= 10 {
      assert |Decimal(n)| == |Decimal(n / 10)| + 1;
      if n >= 100 { assert |Decimal(n / 10)| == |Decimal(n / 10 / 10)| + 1; }
    }
  }

  lemma {:induction false} WithoutDotsOfJoin(s: string, t: string)
    ensures WithoutDots(s + t) == WithoutDots(s) + WithoutDots(t)
  {
    if s == "" {
      assert s + t == t;
    } else {
      assert (s + t)[1..] == s[1..] + t;
      WithoutDotsOfJoin(s[1..], t);
    }
  }

  lemma {:induction false} WithoutDotsKeeps(s: string)
    requires AllDigits(s)
    ensures WithoutDots(s) == s
  {
    if s != "" {
      WithoutDotsKeeps(s[1..]);
      assert s == [s[0]] + s[1..];
    }
  }

  lemma {:induction false} DottedReads(n: nat)
    ensures DigitsValue(WithoutDots(Dotted(n))) == n
  {
    if n < 1000 {
      DecimalReads(n);
      WithoutDotsKeeps(Decimal(n));
    } else {
      DottedReads(n / 1000);
      var head, tail := Dotted(n / 1000), ThreeDigits(n % 1000);
      WithoutDotsOfJoin(head + ".", tail);
      WithoutDotsOfJoin(head, ".");
      WithoutDotsKeeps(tail);
      assert WithoutDots(".") == "";
      assert Dotted(n) == head + "." + tail;
      assert WithoutDots(Dotted(n)) == WithoutDots(head) + tail;
      DigitsValueOfThree(WithoutDots(head), n % 1000);
    }
  }

  lemma {:induction false} DigitRunOfJoin(s: string, t: string)
    requires AllDigits(s)
    requires t == "" || !IsDigit(t[0])
    ensures DigitRun(s + t) == |s|
  {
    if s == "" {
      assert s + t == t;
    } else {
      assert (s + t)[1..] == s[1..] + t;
      DigitRunOfJoin(s[1..], t);
    }
  }

  /** `m` is read as one to three digits and then groups, up to where `t` begins. */
  ghost predicate IsNumeral(m: string, t: string, grouped: bool) {
    var s := m + t;
    var d := DigitRun(s);
    && 1 <= d <= 3
    && d + GroupRun(s[d..]) == |m| + GroupRun(t)
    && (if grouped then GroupRun(s[d..]) > 0 else d == |m|)
  }

  lemma {:induction false} OneGroupMore(m: string, g: string, t: string, grouped: bool)
    requires |g| == 4 && IsGroup(g) && IsNumeral(m, g + t, grouped)
    ensures IsNumeral(m + g, t, true)
  {
    assert (g + t)[4..] == t;
    assert GroupRun(g + t) == 4 + GroupRun(t);
    assert m + (g + t) == m + g + t;
  }

  lemma {:induction false} DigitsAreNumeral(m: string, t: string)
    requires 1 <= |m| <= 3 && AllDigits(m)
    requires t == "" || !IsDigit(t[0])
    ensures IsNumeral(m, t, false)
  {
    DigitRunOfJoin(m, t);
    assert (m + t)[|m|..] == t;
  }

  lemma {:induction false} DottedIsNumeral(n: nat, t: string)
    requires t == "" || !IsDigit(t[0])
    ensures IsNumeral(Dotted(n), t, n >= 1000)
  {
    if n < 1000 {
      DecimalLength(n);
      DecimalReads(n);
      DigitsAreNumeral(Decimal(n), t);
    } else {
      var g := "." + ThreeDigits(n % 1000);
      DottedIsNumeral(n / 1000, g + t);
      OneGroupMore(Dotted(n / 1000), g, t, n / 1000 >= 1000);
      assert Dotted(n) == Dotted(n / 1000) + g;
    }
  }

  lemma {:induction false} DottedLengths(n: nat, t: string)
    requires t == "" || t[0] == ' '
    ensures AmountLength(Dotted(n) + t) == |Dotted(n)| > 0
    ensures GroupedLength(Dotted(n) + t) == if n < 1000 then 0 else |Dotted(n)|
    ensures n < 1000 ==> DigitRun(Dotted(n) + t) == |Dotted(n)|
    ensures n >= 1000 ==> DigitRun(Dotted(n) + t) < |Dotted(n)|
  {
    DottedIsNumeral(n, t);
    assert GroupRun(t) == 0;
  }

  lemma {:induction false} DottedStart(n: nat)
    ensures Dotted(n) != "" && IsDigit(Dotted(n)[0])
  {
    DottedIsNumeral(n, "");
    assert Dotted(n) + "" == Dotted(n);
  }

  lemma {:induction false} DecimalIsLong(n: nat)
    requires n >= 1000
    ensures |Decimal(n)| >= 4
  {
    assert |Decimal(n)| == |Decimal(n / 10)| + 1;
    assert |Decimal(n / 10)| == |Decimal(n / 10 / 10)| + 1;
    assert |Decimal(n / 10 / 10)| == |Decimal(n / 10 / 10 / 10)| + 1;
  }

  /** Plain digits before a space or the end are read in full, and not as thousands. */
  lemma {:induction false} DecimalLengths(n: nat, t: string)
    requires t == "" || t[0] == ' '
    ensures var s := Decimal(n) + t;
            DigitRun(s) == |Decimal(n)| && GroupedLength(s) == 0 && AmountLength(s) == |Decimal(n)| > 0
  {
    DecimalReads(n);
    DigitRunOfJoin(Decimal(n), t);
    assert (Decimal(n) + t)[|Decimal(n)|..] == t;
    assert GroupRun(t) == 0;
  }

  // ---------------------------------------------------------------------------
  // Fractions
  // ---------------------------------------------------------------------------

  lemma {:induction false} FractionReads(digits: seq<nat>)
    requires AreDigits(digits)
    ensures FractionOf(DigitsText(digits)) == FractionValue(digits)
  {
    if digits != [] {
      FractionReads(digits[1..]);
      assert DigitsText(digits)[1..] == DigitsText(digits[1..]);
      assert DigitsText(digits)[0] as int - '0' as int == digits[0];
    }
  }
}
