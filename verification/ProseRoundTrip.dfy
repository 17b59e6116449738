/**
 * Printing prose and extracting its numbers again (backend/hargaturun/schemas.py:388-422): the
 * amounts of rupiah come back in order, then the dotted thousands, then the plain numbers and
 * decimals, and nothing else does.
 */
module ProseRoundTrip {
  import opened Text
  import opened Wrappers
  import opened ProseNumbers
  import opened ProsePrinter
  import opened ProseScan

  // ---------------------------------------------------------------------------
  // White space and digits
  // ---------------------------------------------------------------------------

  /** No digit follows the white space at the start. */
  predicate NoLeadingDigit(s: string) {
    DigitRun(s[SpaceRun(s)..]) == 0
  }

  lemma {:induction false} NoLeadingDigitAfterOne(c: char, s: string)
    requires !IsDigit(c) && NoLeadingDigit(s)
    ensures NoLeadingDigit([c] + s)
  {
    assert ([c] + s)[1..] == s;
    if IsSpace(c) {
      assert ([c] + s)[1 + SpaceRun(s)..] == s[SpaceRun(s)..];
    }
  }

  lemma {:induction false} NoLeadingDigitAfter(w: string, s: string)
    requires DigitFree(w) && (AllSpace(w) ==> NoLeadingDigit(s))
    ensures NoLeadingDigit(w + s)
  {
    if w == "" {
      assert w + s == s;
    } else if IsSpace(w[0]) {
      assert AllSpace(w[1..]) ==> AllSpace(w) by { assert w == [w[0]] + w[1..]; }
      NoLeadingDigitAfter(w[1..], s);
      NoLeadingDigitAfterOne(w[0], w[1..] + s);
      assert w + s == [w[0]] + (w[1..] + s);
    } else {
      assert (w + s)[0] == w[0];
    }
  }

  /** The characters of a numeral: digits, dots and commas. */
  predicate Numeric(s: string) {
    forall i :: 0 <= i < |s| ==> IsDigit(s[i]) || s[i] in ".,"
  }

  predicate IsNumber(t: Token) {
    t.Thousands? || t.Number? || t.Fraction?
  }

  lemma {:induction false} DottedIsNumeric(n: nat)
    ensures Numeric(Dotted(n))
  {
    if n < 1000 {
      DecimalReads(n);
    } else {
      DottedIsNumeric(n / 1000);
    }
  }

  predicate LooksNumeric(s: string) {
    Numeric(s) && s != "" && IsDigit(s[0])
  }

  lemma {:induction false} DigitsLookNumeric(d: string)
    requires AllDigits(d) && d != ""
    ensures LooksNumeric(d)
  {
  }

  lemma {:induction false} JoinLooksNumeric(d: string, mark: char, f: string)
    requires AllDigits(d) && d != "" && AllDigits(f) && mark in ".,"
    ensures LooksNumeric(d + [mark] + f)
  {
    assert (d + [mark] + f)[0] == d[0];
  }

  lemma {:induction false} DottedLooksNumeric(n: nat)
    ensures LooksNumeric(Dotted(n))
  {
    DottedStart(n);
    DottedIsNumeric(n);
  }

  lemma {:induction false} FractionLooksNumeric(t: Piece)
    requires t.Fraction?
    ensures LooksNumeric(Print(t))
  {
    DecimalReads(t.whole);
    JoinLooksNumeric(Decimal(t.whole), t.mark, DigitsText(t.digits));
  }

  /** A number starts with a digit and has only the characters of a numeral. */
  lemma {:induction false} NumberLooksNumeric(t: Piece)
    requires IsNumber(t)
    ensures LooksNumeric(Print(t))
  {
    if t.Thousands? {
      DottedLooksNumeric(t.amount);
    } else if t.Number? {
      DecimalReads(t.amount);
      DigitsLookNumeric(Decimal(t.amount));
    } else {
      FractionLooksNumeric(t);
    }
  }

  lemma {:induction false} NoDigitNext(tokens: seq<Piece>)
    requires !DigitNext(tokens)
    ensures NoLeadingDigit(Continued(tokens))
  {
    if tokens != [] {
      var t, rest := tokens[0], Continued(tokens[1..]);
      if t.Words? {
        if AllSpace(t.text) { NoDigitNext(tokens[1..]); }
        NoLeadingDigitAfter(t.text, rest);
      } else {
        if IsNumber(t) {
          NumberLooksNumeric(t);
        }
        assert (Print(t) + rest)[0] == Print(t)[0];
      }
      NoLeadingDigitAfterOne(' ', Prose(tokens));
    }
  }

  /** A code has a letter after its leading digits. */
  lemma {:induction false} CodeRun(w: string, s: string)
    requires !AllDigits(w)
    ensures var d := DigitRun(w + s); d < |w| && !IsDigit(w[d])
  {
    if IsDigit(w[0]) {
      assert (w + s)[1..] == w[1..] + s;
      assert !AllDigits(w[1..]) by { assert w == [w[0]] + w[1..]; }
      CodeRun(w[1..], s);
    }
  }

  // ---------------------------------------------------------------------------
  // The currency pattern
  // ---------------------------------------------------------------------------

  lemma {:induction false} NoCurrencyAt(p: Option<char>, u: string, s: string)
    requires DigitFree(u) && u != "" && (s == "" || s[0] == ' ')
    requires StartsRp(u) && AllSpace(u[2..]) && (p.Some? ==> !IsWord(p.value)) ==> NoLeadingDigit(s)
    ensures MatchCurrency(p, u + s) == None
  {
    var text := u + s;
    if !(p.Some? && IsWord(p.value)) && |text| >= 2 && text[0] in "Rr" && text[1] in "Pp" {
      assert |u| >= 2 && text[2..] == u[2..] + s;
      NoLeadingDigitAfter(u[2..], s);
      assert text[2 + SpaceRun(text[2..])..] == text[2..][SpaceRun(text[2..])..];
    }
  }

  lemma {:induction false} CurrencyPassesWords(prev: Option<char>, w: string, s: string)
    requires prev in {None, Some(' ')} && DigitFree(w) && (s == "" || s[0] == ' ')
    requires EndsInRp(w) ==> NoLeadingDigit(s)
    ensures Silent(MatchCurrency, prev, w, s)
  {
    forall i | 0 <= i < |w| ensures MatchCurrency(Before(prev, w, i), w[i..] + s) == None {
      assert StartsRp(w[i..]) && AllSpace(w[i..][2..]) ==> w[i..][2..] == w[i + 2..];
      assert StartsRp(w[i..]) && AllSpace(w[i..][2..]) && (i > 0 ==> !IsWord(w[i - 1])) ==> RpAt(w, i);
      NoCurrencyAt(Before(prev, w, i), w[i..], s);
    }
  }

  lemma {:induction false} CurrencyPassesCode(prev: Option<char>, w: string, s: string)
    requires WellFormed(Code(w)) && (s == "" || s[0] == ' ')
    ensures Silent(MatchCurrency, prev, w, s)
  {
    forall i | 0 <= i < |w| ensures MatchCurrency(Before(prev, w, i), w[i..] + s) == None {
      if i == 0 {
        assert w[0..] + s == w + s;
        NoCurrencyAtCode(prev, w, s);
      }
    }
  }

  lemma {:induction false} NoCurrencyAtCode(p: Option<char>, w: string, s: string)
    requires WellFormed(Code(w)) && (s == "" || s[0] == ' ')
    ensures MatchCurrency(p, w + s) == None
  {
    var text := w + s;
    if |text| >= 2 && text[0] in "Rr" && text[1] in "Pp" {
      assert StartsRp(w);
      assert text[2..][0] == w[2];
      assert SpaceRun(text[2..]) == 0 && DigitRun(text[2..]) == 0;
      assert text[2..][0..] == text[2..];
    }
  }

  lemma {:induction false} CurrencyPassesNumeral(prev: Option<char>, w: string, s: string)
    requires Numeric(w)
    ensures Silent(MatchCurrency, prev, w, s)
  {
    forall i | 0 <= i < |w| ensures MatchCurrency(Before(prev, w, i), w[i..] + s) == None {
      assert (w[i..] + s)[0] == w[i];
    }
  }

  /** `rest` follows the two letters and the gap of `text`. */
  predicate FollowsRp(text: string, gap: nat, rest: string) {
    && |text| == 2 + gap + |rest| && StartsRp(text)
    && SpaceRun(text[2..]) == gap && text[2 + gap..] == rest
  }

  lemma {:induction false} SpaceRunOfJoin(a: string, s: string)
    requires AllSpace(a) && (s == "" || !IsSpace(s[0]))
    ensures SpaceRun(a + s) == |a|
  {
    if a == "" {
      assert a + s == s;
    } else {
      assert (a + s)[1..] == a[1..] + s;
      SpaceRunOfJoin(a[1..], s);
    }
  }

  lemma {:induction false} PrintFollowsRp(letters: string, gap: string, m: string, s: string)
    requires |letters| == 2 && StartsRp(letters) && AllSpace(gap) && m != "" && IsDigit(m[0])
    ensures FollowsRp(letters + gap + m + s, |gap|, m + s)
  {
    var text := letters + gap + m + s;
    assert text[2..] == gap + (m + s);
    SpaceRunOfJoin(gap, m + s);
    assert text[2 + |gap|..] == m + s;
  }

  lemma {:induction false} CurrencyIn(prev: Option<char>, text: string, gap: nat, rest: string, n: nat, value: nat)
    requires prev in {None, Some(' ')} && FollowsRp(text, gap, rest)
    requires AmountLength(rest) == n > 0 && DigitsValue(WithoutDots(rest[..n])) == value
    ensures MatchCurrency(prev, text) == Some(Match(2 + gap + n, value as real))
  {
    assert text[2 + gap..2 + gap + n] == rest[..n];
  }

  /** Before `s`, `m` is the whole amount, of this value. */
  predicate IsAmount(m: string, s: string, value: nat) {
    && m != "" && IsDigit(m[0])
    && AmountLength(m + s) == |m| && DigitsValue(WithoutDots((m + s)[..|m|])) == value
  }

  /** An amount in either style, as the currency pattern reads it. */
  lemma {:induction false} AmountIsRead(n: nat, dotted: bool, s: string)
    requires s == "" || s[0] == ' '
    ensures IsAmount(if dotted then Dotted(n) else Decimal(n), s, n)
  {
    if dotted {
      DottedLengths(n, s);
      DottedReads(n);
      DottedStart(n);
      assert (Dotted(n) + s)[..|Dotted(n)|] == Dotted(n);
    } else {
      DecimalLengths(n, s);
      DecimalReads(n);
      WithoutDotsKeeps(Decimal(n));
      assert (Decimal(n) + s)[..|Decimal(n)|] == Decimal(n);
    }
  }

  lemma {:induction false} RupiahInText(prev: Option<char>, letters: string, gap: string, m: string, s: string, value: nat)
    requires prev in {None, Some(' ')} && |letters| == 2 && StartsRp(letters) && AllSpace(gap)
    requires IsAmount(m, s, value)
    ensures MatchCurrency(prev, letters + gap + m + s) == Some(Match(|letters + gap + m|, value as real))
  {
    PrintFollowsRp(letters, gap, m, s);
    CurrencyIn(prev, letters + gap + m + s, |gap|, m + s, |m|, value);
  }

  lemma {:induction false} Taken(pattern: Pattern, pass: nat, prev: Option<char>, t: Piece, rest: seq<Piece>, m: string, value: real)
    requires PassOf(t) == pass && Print(t) == m != "" && ValueOf(t) == value
    requires pattern(prev, m + Continued(rest)) == Some(Match(|m|, value))
    ensures IsRead(pattern, pass, prev, t, rest)
  {
  }

  lemma {:induction false} RupiahIsFound(prev: Option<char>, t: Piece, rest: seq<Piece>, m: string)
    requires t.Rupiah? && prev in {None, Some(' ')} && m == if t.dotted then Dotted(t.amount) else Decimal(t.amount)
    requires IsAmount(m, Continued(rest), t.amount)
    ensures IsRead(MatchCurrency, 0, prev, t, rest)
  {
    RupiahInText(prev, t.letters, t.gap, m, Continued(rest), t.amount);
    Taken(MatchCurrency, 0, prev, t, rest, t.letters + t.gap + m, t.amount as real);
  }

  lemma {:induction false} CurrencyReads()
    ensures Reads(MatchCurrency, 0)
  {
    forall prev, t: Piece, rest: seq<Piece> | prev in {None, Some(' ')} && Apart(t, rest)
      ensures IsRead(MatchCurrency, 0, prev, t, rest)
    {
      var s := Continued(rest);
      match t
      case Words(w) =>
        if EndsInRp(w) { NoDigitNext(rest); }
        CurrencyPassesWords(prev, w, s);
      case Code(w) => CurrencyPassesCode(prev, w, s);
      case Rupiah(_, _, dotted, n) =>
        AmountIsRead(n, dotted, s);
        RupiahIsFound(prev, t, rest, if dotted then Dotted(n) else Decimal(n));
      case _ =>
        NumberLooksNumeric(t);
        CurrencyPassesNumeral(prev, Print(t), s);
    }
  }

  // ---------------------------------------------------------------------------
  // The grouped pattern
  // ---------------------------------------------------------------------------

  lemma {:induction false} GroupedPassesWords(prev: Option<char>, w: string, s: string)
    requires DigitFree(w)
    ensures Silent(MatchGrouped, prev, w, s) && Silent(MatchPlain, prev, w, s)
  {
    forall i | 0 <= i < |w|
      ensures MatchGrouped(Before(prev, w, i), w[i..] + s) == MatchPlain(Before(prev, w, i), w[i..] + s) == None
    {
      assert (w[i..] + s)[0] == w[i];
      assert DigitRun(w[i..] + s) == 0;
    }
  }

  /** Inside a numeral, and inside a code, the character before bars both patterns. */
  lemma {:induction false} OnlyAtStart(prev: Option<char>, w: string, s: string)
    requires forall i :: 0 <= i < |w| ==> IsWord(w[i]) || w[i] in ".,"
    requires w != "" ==> MatchGrouped(prev, w + s) == None
    ensures Silent(MatchGrouped, prev, w, s)
  {
    forall i | 0 <= i < |w| ensures MatchGrouped(Before(prev, w, i), w[i..] + s) == None {
      if i == 0 { assert w[0..] + s == w + s; }
    }
  }

  lemma {:induction false} LeadingIsRun(s: string)
    ensures |LeadingDigits(s)| == DigitRun(s) && AfterDigits(s) == s[DigitRun(s)..]
  {
    if s != "" && IsDigit(s[0]) {
      LeadingIsRun(s[1..]);
    }
  }

  lemma {:induction false} NoGroupedCode(p: Option<char>, w: string, s: string)
    requires WellFormed(Code(w))
    ensures MatchGrouped(p, w + s) == None
  {
    CodeRun(w, s);
    var d := DigitRun(w + s);
    assert (w + s)[d..][0] == w[d];
    assert IsWord(w[d]);
    assert GroupRun((w + s)[d..]) == 0;
  }

  lemma {:induction false} NoPlainCode(p: Option<char>, w: string, s: string)
    requires WellFormed(Code(w))
    ensures MatchPlain(p, w + s) == None
  {
    CodeRun(w, s);
    LeadingIsRun(w + s);
    var d := DigitRun(w + s);
    assert AfterDigits(w + s)[0] == (w + s)[d] == w[d];
    assert IsWord(w[d]);
  }

  lemma {:induction false} CodeIsSilent(prev: Option<char>, w: string, s: string)
    requires WellFormed(Code(w))
    ensures Silent(MatchGrouped, prev, w, s) && Silent(MatchPlain, prev, w, s)
  {
    NoGroupedCode(prev, w, s);
    NoPlainCode(prev, w, s);
    OnlyAtStart(prev, w, s);
    forall i | 0 <= i < |w| ensures MatchPlain(Before(prev, w, i), w[i..] + s) == None {
      if i == 0 { assert w[0..] + s == w + s; }
    }
  }

  lemma {:induction false} NoGroupedNumber(p: Option<char>, n: nat, s: string)
    requires s == "" || s[0] == ' '
    ensures MatchGrouped(p, Decimal(n) + s) == None
  {
    DecimalLengths(n, s);
  }

  /** What follows the whole part of a decimal is at most one group, and a digit follows that. */
  lemma {:induction false} GroupsOfFraction(mark: char, f: string, s: string)
    requires AllDigits(f) && f != "" && (s == "" || s[0] == ' ')
    ensures var tail := [mark] + f + s;
            && (mark != '.' || |f| < 3 ==> GroupRun(tail) == 0)
            && (mark == '.' && |f| > 3 ==> GroupRun(tail) == 4 && IsDigit(tail[4]))
  {
    var tail := [mark] + f + s;
    if mark == '.' && |f| > 3 {
      assert tail[4] == f[3];
      assert tail[4..][0] == f[3];
      assert GroupRun(tail[4..]) == 0;
    } else if mark == '.' && |f| < 3 && |tail| >= 4 {
      assert tail[1 + |f|] == ' ';
    }
  }

  lemma {:induction false} NoGroupedFraction(p: Option<char>, d: string, mark: char, f: string, s: string)
    requires AllDigits(d) && d != "" && AllDigits(f) && f != "" && mark in ".," && (s == "" || s[0] == ' ')
    requires mark == '.' && |d| <= 3 ==> |f| != 3
    ensures MatchGrouped(p, d + ([mark] + f + s)) == None
  {
    var tail := [mark] + f + s;
    DigitRunOfJoin(d, tail);
    assert (d + tail)[|d|..] == tail;
    GroupsOfFraction(mark, f, s);
    if |d| <= 3 && GroupRun(tail) > 0 {
      assert (d + tail)[|d| + 4] == tail[4];
    }
  }

  lemma {:induction false} ShortDecimal(n: nat)
    ensures n < 1000 <==> |Decimal(n)| <= 3
  {
    if n < 1000 { DecimalLength(n); } else { DecimalIsLong(n); }
  }

  lemma {:induction false} FractionBeforeText(d: string, mark: char, f: string, s: string)
    ensures d + [mark] + f + s == d + ([mark] + f + s)
  {
  }

  lemma {:induction false} NoGroupedFractionToken(p: Option<char>, t: Piece, s: string)
    requires t.Fraction? && (s == "" || s[0] == ' ')
    ensures MatchGrouped(p, Print(t) + s) == None
  {
    var d, f := Decimal(t.whole), DigitsText(t.digits);
    DecimalReads(t.whole);
    ShortDecimal(t.whole);
    NoGroupedFraction(p, d, t.mark, f, s);
    FractionBeforeText(d, t.mark, f, s);
  }

  lemma {:induction false} GroupedPassesNumeral(prev: Option<char>, t: Piece, s: string)
    requires (t.Number? || t.Fraction?) && (s == "" || s[0] == ' ')
    ensures Silent(MatchGrouped, prev, Print(t), s)
  {
    NumberLooksNumeric(t);
    if t.Number? {
      NoGroupedNumber(prev, t.amount, s);
    } else {
      NoGroupedFractionToken(prev, t, s);
    }
    OnlyAtStart(prev, Print(t), s);
  }

  lemma {:induction false} GroupedAtStart(prev: Option<char>, m: string, s: string, value: nat)
    requires prev in {None, Some(' ')} && (s == "" || s[0] == ' ')
    requires GroupedLength(m + s) == |m| > DigitRun(m + s) && DigitsValue(WithoutDots(m)) == value
    ensures MatchGrouped(prev, m + s) == Some(Match(|m|, value as real))
  {
    assert (m + s)[..|m|] == m;
    if |m| < |m + s| { assert (m + s)[|m|] == s[0]; }
  }

  lemma {:induction false} ThousandsAreFound(prev: Option<char>, n: nat, s: string)
    requires n >= 1000 && prev in {None, Some(' ')} && (s == "" || s[0] == ' ')
    ensures MatchGrouped(prev, Dotted(n) + s) == Some(Match(|Dotted(n)|, n as real))
  {
    DottedLengths(n, s);
    DottedReads(n);
    GroupedAtStart(prev, Dotted(n), s, n);
  }

  lemma {:induction false} GroupedReads()
    ensures Reads(MatchGrouped, 1)
  {
    forall prev, t: Piece, rest: seq<Piece> | prev in {None, Some(' ')} && 1 <= PassOf(t)
      ensures IsRead(MatchGrouped, 1, prev, t, rest)
    {
      var s := Continued(rest);
      match t
      case Words(w) => GroupedPassesWords(prev, w, s);
      case Code(w) => CodeIsSilent(prev, w, s);
      case Thousands(n) =>
        DottedStart(n);
        ThousandsAreFound(prev, n, s);
      case _ => GroupedPassesNumeral(prev, t, s);
    }
  }

  // ---------------------------------------------------------------------------
  // The plain pattern
  // ---------------------------------------------------------------------------

  lemma {:induction false} LeadingOfJoin(d: string, t: string)
    requires AllDigits(d) && (t == "" || !IsDigit(t[0]))
    ensures LeadingDigits(d + t) == d && AfterDigits(d + t) == t
  {
    if d == "" {
      assert d + t == t;
    } else {
      assert (d + t)[1..] == d[1..] + t;
      LeadingOfJoin(d[1..], t);
      assert d == [d[0]] + d[1..];
    }
  }

  lemma {:induction false} PlainDigits(prev: Option<char>, d: string, s: string)
    requires prev in {None, Some(' ')} && AllDigits(d) && d != "" && (s == "" || s[0] == ' ')
    ensures MatchPlain(prev, d + s) == Some(Match(|d|, DigitsValue(d) as real))
  {
    LeadingOfJoin(d, s);
  }

  lemma {:induction false} PlainAt(prev: Option<char>, text: string, rest: string, more: string, after: string, d: string, f: string)
    requires prev in {None, Some(' ')} && d != "" && f != ""
    requires LeadingDigits(text) == d && AfterDigits(text) == rest
    requires rest != "" && rest[0] in ".," && rest[1..] == more
    requires LeadingDigits(more) == f && AfterDigits(more) == after && !WordGoesOn(after)
    ensures MatchPlain(prev, text) == Some(Match(|d| + 1 + |f|, DigitsValue(d) as real + FractionOf(f)))
  {
  }

  lemma {:induction false} PlainDecimals(prev: Option<char>, d: string, mark: char, f: string, s: string)
    requires prev in {None, Some(' ')} && AllDigits(d) && d != "" && AllDigits(f) && f != "" && mark in ".,"
    requires s == "" || s[0] == ' '
    ensures MatchPlain(prev, d + [mark] + f + s) == Some(Match(|d| + 1 + |f|, DigitsValue(d) as real + FractionOf(f)))
  {
    var tail := [mark] + f + s;
    FractionBeforeText(d, mark, f, s);
    LeadingOfJoin(d, tail);
    assert tail[1..] == f + s;
    LeadingOfJoin(f, s);
    PlainAt(prev, d + [mark] + f + s, tail, f + s, s, d, f);
  }

  lemma {:induction false} FractionIsFound(prev: Option<char>, n: nat, mark: char, digits: seq<nat>, s: string)
    requires WellFormed(Fraction(n, mark, digits)) && prev in {None, Some(' ')} && (s == "" || s[0] == ' ')
    ensures MatchPlain(prev, Decimal(n) + [mark] + DigitsText(digits) + s) ==
            Some(Match(|Decimal(n)| + 1 + |digits|, n as real + FractionValue(digits)))
  {
    DecimalReads(n);
    FractionReads(digits);
    PlainDecimals(prev, Decimal(n), mark, DigitsText(digits), s);
  }

  lemma {:induction false} NumberIsFound(prev: Option<char>, n: nat, s: string)
    requires prev in {None, Some(' ')} && (s == "" || s[0] == ' ')
    ensures MatchPlain(prev, Decimal(n) + s) == Some(Match(|Decimal(n)|, n as real))
  {
    DecimalReads(n);
    PlainDigits(prev, Decimal(n), s);
  }

  lemma {:induction false} PlainReadsNumber(prev: Option<char>, t: Piece, rest: seq<Piece>)
    requires prev in {None, Some(' ')} && t.Number?
    ensures IsRead(MatchPlain, 2, prev, t, rest)
  {
    NumberLooksNumeric(t);
    NumberIsFound(prev, t.amount, Continued(rest));
  }

  lemma {:induction false} PlainReadsFraction(prev: Option<char>, t: Piece, rest: seq<Piece>)
    requires prev in {None, Some(' ')} && t.Fraction?
    ensures IsRead(MatchPlain, 2, prev, t, rest)
  {
    FractionIsFound(prev, t.whole, t.mark, t.digits, Continued(rest));
    Taken(MatchPlain, 2, prev, t, rest, Print(t), ValueOf(t));
  }

  lemma {:induction false} PlainReads()
    ensures Reads(MatchPlain, 2)
  {
    forall prev, t: Piece, rest: seq<Piece> | prev in {None, Some(' ')} && 2 <= PassOf(t)
      ensures IsRead(MatchPlain, 2, prev, t, rest)
    {
      match t
      case Words(w) => GroupedPassesWords(prev, w, Continued(rest));
      case Code(w) => CodeIsSilent(prev, w, Continued(rest));
      case Number(_) => PlainReadsNumber(prev, t, rest);
      case Fraction(_, _, _) => PlainReadsFraction(prev, t, rest);
    }
  }

  // ---------------------------------------------------------------------------
  // The round trips
  // ---------------------------------------------------------------------------

  /**
   * Every number printed comes back, amounts of rupiah first, then dotted thousands, then plain
   * numbers and decimals, each in order; words and codes give none.
   */
  lemma {:induction false} PrintedNumbersComeBack(tokens: seq<Piece>)
    requires AllApart(tokens)
    ensures Numbers(Prose(tokens)) == AllValues(tokens)
  {
    CurrencyReads();
    GroupedReads();
    PlainReads();
    ReadInThreePasses(MatchCurrency, MatchGrouped, MatchPlain, tokens);
  }

  lemma {:induction false} ValuesExactly(tokens: seq<Piece>, pass: nat, x: real)
    ensures x in ValuesOf(tokens, pass) <==> exists i :: 0 <= i < |tokens| && PassOf(tokens[i]) == pass && ValueOf(tokens[i]) == x
  {
    if tokens != [] {
      ValuesExactly(tokens[1..], pass, x);
      assert forall i :: 0 < i < |tokens| ==> tokens[i] == tokens[1..][i - 1];
    }
  }

  /** The number check passes exactly when every number printed is allowed. */
  lemma {:induction false} CheckPassesExactly(tokens: seq<Piece>, allowed: set<real>)
    requires AllApart(tokens)
    ensures Unsupported(Numbers(Prose(tokens)), allowed) == []
       <==> forall i :: 0 <= i < |tokens| && PassOf(tokens[i]) < 3 ==> ValueOf(tokens[i]) in allowed
  {
    PrintedNumbersComeBack(tokens);
    AllowedExactly(tokens, allowed);
  }

  lemma {:induction false} AllowedExactly(tokens: seq<Piece>, allowed: set<real>)
    ensures Unsupported(AllValues(tokens), allowed) == []
       <==> forall i :: 0 <= i < |tokens| && PassOf(tokens[i]) < 3 ==> ValueOf(tokens[i]) in allowed
  {
    var values := AllValues(tokens);
    forall x ensures x in values <==> exists i :: 0 <= i < |tokens| && PassOf(tokens[i]) < 3 && ValueOf(tokens[i]) == x {
      ValuesExactly(tokens, 0, x);
      ValuesExactly(tokens, 1, x);
      ValuesExactly(tokens, 2, x);
    }
    assert forall k :: 0 <= k < |values| ==> values[k] in values;
    forall i | 0 <= i < |tokens| && PassOf(tokens[i]) < 3 ensures ValueOf(tokens[i]) in values {}
  }

  lemma {:induction false} OneToken(t: Piece)
    requires PassOf(t) < 3
    ensures AllApart([t]) && Prose([t]) == Print(t) && AllValues([t]) == [ValueOf(t)]
  {
    var all, rest := [t], [t][1..];
    assert rest == [];
    assert Continued(rest) == "" && Prose(all) == Print(t) + Continued(rest);
    assert AllApart(rest) && Apart(t, rest);
    forall pass: nat ensures ValuesOf(all, pass) == if PassOf(t) == pass then [ValueOf(t)] else [] {
      assert ValuesOf(all, pass) == (if PassOf(t) == pass then [ValueOf(t)] else []) + ValuesOf(rest, pass);
    }
  }

  lemma {:induction false} AloneComesBack(t: Piece)
    requires PassOf(t) < 3
    ensures Numbers(Print(t)) == [ValueOf(t)]
  {
    OneToken(t);
    PrintedNumbersComeBack([t]);
  }

  /** A numeral with dotted thousands and no `Rp` is read as its number. */
  lemma {:induction false} BareNumeralComesBack(n: nat)
    ensures Numbers(Dotted(n)) == [n as real]
  {
    AloneComesBack(if n < 1000 then Number(n) else Thousands(n));
  }
}
