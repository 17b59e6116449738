/**
 * The numbers claimed by Indonesian prose (backend/hargaturun/schemas.py:388-422) and the check
 * that only allowed ones occur (backend/hargaturun/schemas.py:309-314), on ASCII text.
 *
 * A pattern is modelled by what it matches at a position: the character before it, for the
 * look-behinds and the word boundary, and the text from it on.
 */
module ProseNumbers {
  import opened Text
  import opened Wrappers

  predicate IsWord(c: char) {
    IsDigit(c) || 'a' <= c <= 'z' || 'A' <= c <= 'Z' || c == '_'
  }

  // ---------------------------------------------------------------------------
  // Runs of characters
  // ---------------------------------------------------------------------------

  function DigitRun(s: string): (n: nat)
    ensures n <= |s|
  {
    if s != "" && IsDigit(s[0]) then 1 + DigitRun(s[1..]) else 0
  }

  function SpaceRun(s: string): (n: nat)
    ensures n <= |s|
  {
    if s != "" && IsSpace(s[0]) then 1 + SpaceRun(s[1..]) else 0
  }

  predicate IsGroup(s: string) {
    |s| >= 4 && s[0] == '.' && IsDigit(s[1]) && IsDigit(s[2]) && IsDigit(s[3])
  }

  /** The length of the longest run of dot-and-three-digits groups. */
  function GroupRun(s: string): (n: nat)
    ensures n <= |s| && n % 4 == 0
  {
    if IsGroup(s) then 4 + GroupRun(s[4..]) else 0
  }

  // ---------------------------------------------------------------------------
  // The three patterns
  // ---------------------------------------------------------------------------

  datatype Match = Match(length: nat, value: real)

  function DigitsValue(s: string): nat {
    if s == "" then 0
    else 10 * DigitsValue(s[..|s| - 1]) + (if IsDigit(s[|s| - 1]) then s[|s| - 1] as nat - '0' as nat else 0)
  }

  function WithoutDots(s: string): string {
    if s == "" then "" else (if s[0] == '.' then "" else [s[0]]) + WithoutDots(s[1..])
  }

  /** What the digits after a decimal mark are worth. */
  function FractionOf(digits: string): real {
    if digits == "" then 0.0
    else ((if IsDigit(digits[0]) then digits[0] as int - '0' as int else 0) as real + FractionOf(digits[1..])) / 10.0
  }

  /** One to three digits and at least one group: the most the grouped alternative takes. */
  function GroupedLength(s: string): (n: nat)
    ensures n <= |s|
  {
    var d := DigitRun(s);
    if 1 <= d <= 3 && GroupRun(s[d..]) > 0 then d + GroupRun(s[d..]) else 0
  }

  /** An amount after `Rp`: grouped if it can be, otherwise all the digits there are. */
  function AmountLength(s: string): (n: nat)
    ensures n <= |s|
  {
    if GroupedLength(s) > 0 then GroupedLength(s) else DigitRun(s)
  }

  function MatchCurrency(prev: Option<char>, s: string): (m: Option<Match>)
    ensures m.Some? ==> 0 < m.value.length <= |s|
  {
    if prev.Some? && IsWord(prev.value) then None
    else if |s| < 2 || s[0] !in "Rr" || s[1] !in "Pp" then None
    else
      var start := 2 + SpaceRun(s[2..]);
      var n := AmountLength(s[start..]);
      if n == 0 then None
      else Some(Match(start + n, DigitsValue(WithoutDots(s[start..start + n])) as real))
  }

  /** The groups are given back, one, when a digit follows them. */
  function MatchGrouped(prev: Option<char>, s: string): (m: Option<Match>)
    ensures m.Some? ==> 0 < m.value.length <= |s|
  {
    if prev.Some? && (IsWord(prev.value) || prev.value in ".,") then None
    else
      var full := GroupedLength(s);
      var n := if full > 0 && full < |s| && IsDigit(s[full]) then full - 4 else full;
      if full == 0 || n == DigitRun(s) then None
      else Some(Match(n, DigitsValue(WithoutDots(s[..n])) as real))
  }

  /** The digits at the start of the text, and what comes after them. */
  function LeadingDigits(s: string): (d: string)
    ensures |d| + |AfterDigits(s)| == |s|
  {
    if s != "" && IsDigit(s[0]) then [s[0]] + LeadingDigits(s[1..]) else ""
  }

  function AfterDigits(s: string): string {
    if s != "" && IsDigit(s[0]) then AfterDigits(s[1..]) else s
  }

  predicate WordGoesOn(s: string) {
    s != "" && IsWord(s[0])
  }

  /** The decimal part is given back when a letter follows it, and the whole match when one follows the digits. */
  function MatchPlain(prev: Option<char>, s: string): (m: Option<Match>)
    ensures m.Some? ==> 0 < m.value.length <= |s|
  {
    var whole, rest := LeadingDigits(s), AfterDigits(s);
    if (prev.Some? && IsWord(prev.value)) || whole == "" then None
    else
      var decimals := if rest != "" && rest[0] in ".," then LeadingDigits(rest[1..]) else "";
      if decimals != "" && !WordGoesOn(AfterDigits(rest[1..])) then
        Some(Match(|whole| + 1 + |decimals|, DigitsValue(whole) as real + FractionOf(decimals)))
      else if !WordGoesOn(rest) then Some(Match(|whole|, DigitsValue(whole) as real))
      else None
  }

  /** What a pattern matches after the given character, at the start of the given text. */
  type Pattern = p: (Option<char>, string) -> Option<Match> |
    forall prev, s :: p(prev, s).Some? ==> 0 < p(prev, s).value.length <= |s|
    witness (_, _) => None

  datatype Scanned = Scanned(numbers: seq<real>, text: string)

  function Spaces(n: nat): (s: string)
    ensures |s| == n
  {
    seq(n, _ => ' ')
  }

  /** Left to right: the values of the matches, and the text with each match blanked out. */
  function Scan(pattern: Pattern, prev: Option<char>, s: string): (r: Scanned)
    ensures |r.text| == |s|
    decreases |s|
  {
    if s == "" then Scanned([], "")
    else
      var m := pattern(prev, s);
      if m.None? then
        var r := Scan(pattern, Some(s[0]), s[1..]);
        Scanned(r.numbers, [s[0]] + r.text)
      else
        var n := m.value.length;
        var r := Scan(pattern, Some(s[n - 1]), s[n..]);
        Scanned([m.value.value] + r.numbers, Spaces(n) + r.text)
  }

  /** Each pass reads what the one before it left. */
  function InThreePasses(p: Pattern, q: Pattern, r: Pattern, text: string): seq<real> {
    var first := Scan(p, None, text);
    var second := Scan(q, None, first.text);
    first.numbers + second.numbers + Scan(r, None, second.text).numbers
  }

  function Numbers(text: string): seq<real> {
    InThreePasses(MatchCurrency, MatchGrouped, MatchPlain, text)
  }

  /** A scan of which `numbers` and the text `done` are settled and `s` is still to be read. */
  ghost predicate Settled(pattern: Pattern, all: Scanned, numbers: seq<real>, done: string, prev: Option<char>, s: string) {
    var r := Scan(pattern, prev, s);
    all.numbers == numbers + r.numbers && all.text == done + r.text
  }

  lemma {:induction false} SettleNext(pattern: Pattern, all: Scanned, numbers: seq<real>, done: string, prev: Option<char>, s: string)
    requires s != "" && Settled(pattern, all, numbers, done, prev, s)
    ensures
      var m := pattern(prev, s);
      if m.None? then Settled(pattern, all, numbers, done + [s[0]], Some(s[0]), s[1..])
      else
        var n := m.value.length;
        Settled(pattern, all, numbers + [m.value.value], done + Spaces(n), Some(s[n - 1]), s[n..])
  {
  }

  /** The text with the characters from `i` up to `j` overwritten by spaces. */
  function Blanked(s: string, i: nat, j: nat): (r: string)
    requires i <= j <= |s|
    ensures |r| == |s|
  {
    s[..i] + Spaces(j - i) + s[j..]
  }

  /** The text `chars` is what was scanned, `done`, and the `rest` of the original. */
  ghost predicate ReadUpTo(
    pattern: Pattern, text: string, prev: Option<char>, numbers: seq<real>, chars: string, done: string, rest: string)
  {
    && |text| == |chars| == |done| + |rest|
    && (forall k :: 0 <= k < |done| ==> chars[k] == done[k])
    && (forall k :: 0 <= k < |rest| ==> chars[|done| + k] == rest[k] == text[|done| + k])
    && Settled(pattern, Scan(pattern, None, text), numbers, done, prev, rest)
  }

  lemma {:induction false} ReadNothing(pattern: Pattern, text: string)
    ensures ReadUpTo(pattern, text, None, [], text, "", text)
  {
    var r := Scan(pattern, None, text);
    assert [] + r.numbers == r.numbers && "" + r.text == r.text;
  }

  lemma {:induction false} ReadNext(
    pattern: Pattern, text: string, prev: Option<char>, numbers: seq<real>, chars: string, done: string, rest: string)
    requires rest != "" && ReadUpTo(pattern, text, prev, numbers, chars, done, rest)
    ensures |done| + |rest| == |chars|
    ensures
      var m := pattern(prev, rest);
      if m.None? then ReadUpTo(pattern, text, Some(rest[0]), numbers, chars, done + [rest[0]], rest[1..])
      else
        var n := m.value.length;
        ReadUpTo(pattern, text, Some(rest[n - 1]), numbers + [m.value.value], Blanked(chars, |done|, |done| + n),
                 done + Spaces(n), rest[n..])
  {
    SettleNext(pattern, Scan(pattern, None, text), numbers, done, prev, rest);
  }

  lemma {:induction false} ReadAll(pattern: Pattern, text: string, prev: Option<char>, numbers: seq<real>, chars: string, done: string)
    requires ReadUpTo(pattern, text, prev, numbers, chars, done, "")
    ensures Scanned(numbers, chars) == Scan(pattern, None, text)
  {
    assert chars == done;
  }

  /** One step of a pass: over one character, or over a match, which is recorded and blanked out. */
  method Advance(
    pattern: Pattern, pos: nat, prev: Option<char>, numbers: seq<real>, chars: string, rest: string,
    ghost text: string, ghost done: string)
    returns (next: nat, last: Option<char>, found: seq<real>, blanked: string, left: string, ghost doneNow: string)
    requires pos == |done| && rest != "" && ReadUpTo(pattern, text, prev, numbers, chars, done, rest)
    ensures next == |doneNow| && |left| < |rest|
    ensures ReadUpTo(pattern, text, last, found, blanked, doneNow, left)
  {
    var m := pattern(prev, rest);
    ReadNext(pattern, text, prev, numbers, chars, done, rest);
    if m.None? {
      next, last, found, blanked, left, doneNow := pos + 1, Some(rest[0]), numbers, chars, rest[1..], done + [rest[0]];
    } else {
      var n := m.value.length;
      next, last, left, doneNow := pos + n, Some(rest[n - 1]), rest[n..], done + Spaces(n);
      found, blanked := numbers + [m.value.value], Blanked(chars, pos, pos + n);
    }
  }

  /** One pass of the scanner: appends to a list and overwrites the matched characters. */
  method RunPass(pattern: Pattern, text: string) returns (numbers: seq<real>, chars: string)
    ensures Scanned(numbers, chars) == Scan(pattern, None, text)
  {
    numbers, chars := [], text;
    var pos, prev, rest := 0, None, text;
    ghost var done := "";
    ReadNothing(pattern, text);
    while rest != ""
      invariant pos == |done| && ReadUpTo(pattern, text, prev, numbers, chars, done, rest)
      decreases |rest|
    {
      pos, prev, numbers, chars, rest, done := Advance(pattern, pos, prev, numbers, chars, rest, text, done);
    }
    ReadAll(pattern, text, prev, numbers, chars, done);
  }

  method ExtractNumbers(text: string) returns (out: seq<real>)
    ensures out == Numbers(text)
  {
    var first, remainder := RunPass(MatchCurrency, text);
    var second, rest := RunPass(MatchGrouped, remainder);
    var third, _ := RunPass(MatchPlain, rest);
    out := first + second + third;
  }

  /** The numbers that are not allowed, in order. */
  function Unsupported(numbers: seq<real>, allowed: set<real>): (r: seq<real>)
    ensures r == [] <==> forall k :: 0 <= k < |numbers| ==> numbers[k] in allowed
  {
    if numbers == [] then []
    else
      var last := |numbers| - 1;
      var r := Unsupported(numbers[..last], allowed);
      if numbers[last] in allowed then r else r + [numbers[last]]
  }

  /** A further number is a further error if and only if it is not allowed, and changes no other. */
  lemma {:induction false} UnsupportedOneMore(s: seq<real>, x: real, allowed: set<real>)
    ensures Unsupported(s + [x], allowed) == if x in allowed then Unsupported(s, allowed) else Unsupported(s, allowed) + [x]
  {
    assert (s + [x])[..|s|] == s;
  }

  method CheckNumbers(numbers: seq<real>, allowed: set<real>) returns (errors: seq<real>)
    ensures errors == Unsupported(numbers, allowed)
  {
    errors := [];
    for i := 0 to |numbers|
      invariant errors == Unsupported(numbers[..i], allowed)
    {
      assert numbers[..i + 1][..i] == numbers[..i];
      if numbers[i] !in allowed {
        errors := errors + [numbers[i]];
      }
    }
    assert numbers[..|numbers|] == numbers;
  }

  /** The check of one text: an error for each number in it that is not allowed. */
  method UnsupportedNumbers(text: string, allowed: set<real>) returns (errors: seq<real>)
    ensures errors == Unsupported(Numbers(text), allowed)
  {
    var numbers := ExtractNumbers(text);
    errors := CheckNumbers(numbers, allowed);
  }
}
