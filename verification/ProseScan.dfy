/**
 * One pass over printed prose (backend/hargaturun/schemas.py:405-420), for any pattern that takes
 * the tokens meant for it whole and finds nothing in the others: it returns their values in order,
 * and leaves the same prose with those tokens blanked out.
 */
module ProseScan {
  import opened Text
  import opened Wrappers
  import opened ProseNumbers
  import opened ProsePrinter

  // ---------------------------------------------------------------------------
  // What the scan does with what a pattern finds
  // ---------------------------------------------------------------------------

  lemma {:induction false} ScanSkips(pattern: Pattern, prev: Option<char>, c: char, s: string)
    requires pattern(prev, [c] + s) == None
    ensures var r := Scan(pattern, Some(c), s);
            Scan(pattern, prev, [c] + s) == Scanned(r.numbers, [c] + r.text)
  {
    assert ([c] + s)[1..] == s;
  }

  lemma {:induction false} ScanTakes(pattern: Pattern, prev: Option<char>, m: string, s: string, value: real)
    requires m != "" && pattern(prev, m + s) == Some(Match(|m|, value))
    ensures var r := Scan(pattern, Some(m[|m| - 1]), s);
            Scan(pattern, prev, m + s) == Scanned([value] + r.numbers, Spaces(|m|) + r.text)
  {
    assert (m + s)[|m|..] == s;
    assert (m + s)[|m| - 1] == m[|m| - 1];
  }

  /** The character before position `i` of `w`. */
  function Before(prev: Option<char>, w: string, i: nat): Option<char>
    requires i <= |w|
  {
    if i == 0 then prev else Some(w[i - 1])
  }

  /** Nothing is found from inside `w` on when `s` follows it. */
  ghost predicate Silent(pattern: Pattern, prev: Option<char>, w: string, s: string) {
    forall i :: 0 <= i < |w| ==> pattern(Before(prev, w, i), w[i..] + s) == None
  }

  lemma {:induction false} SilentTail(pattern: Pattern, prev: Option<char>, w: string, s: string)
    requires w != "" && Silent(pattern, prev, w, s)
    ensures w + s == [w[0]] + (w[1..] + s)
    ensures pattern(prev, [w[0]] + (w[1..] + s)) == None
    ensures Silent(pattern, Some(w[0]), w[1..], s)
  {
    assert w[0..] + s == w + s == [w[0]] + (w[1..] + s);
    assert Before(prev, w, 0) == prev;
    forall i | 0 <= i < |w[1..]| ensures pattern(Before(Some(w[0]), w[1..], i), w[1..][i..] + s) == None {
      assert w[1..][i..] == w[i + 1..];
      assert Before(Some(w[0]), w[1..], i) == Before(prev, w, i + 1);
    }
  }

  /** A silent stretch stays as it was. */
  lemma {:induction false} ScanPassesOver(pattern: Pattern, prev: Option<char>, w: string, s: string)
    requires Silent(pattern, prev, w, s)
    ensures var r := Scan(pattern, Before(prev, w, |w|), s);
            Scan(pattern, prev, w + s) == Scanned(r.numbers, w + r.text)
    decreases |w|
  {
    if w == "" {
      assert w + s == s;
    } else {
      SilentTail(pattern, prev, w, s);
      ScanSkips(pattern, prev, w[0], w[1..] + s);
      ScanPassesOver(pattern, Some(w[0]), w[1..], s);
      assert Before(Some(w[0]), w[1..], |w| - 1) == Before(prev, w, |w|);
      assert forall rest: string :: [w[0]] + (w[1..] + rest) == w + rest;
    }
  }

  // ---------------------------------------------------------------------------
  // Where a currency marker would reach a number that is not its own
  // ---------------------------------------------------------------------------

  /** The text ends in a word `Rp` and white space. */
  predicate EndsInRp(s: string) {
    exists i :: 0 <= i < |s| && RpAt(s, i)
  }

  predicate RpAt(s: string, i: nat)
    requires i < |s|
  {
    StartsRp(s[i..]) && AllSpace(s[i + 2..]) && (i > 0 ==> !IsWord(s[i - 1]))
  }

  /** After white space the prose goes on with a digit. */
  predicate DigitNext(tokens: seq<Piece>) {
    tokens != []
    && if tokens[0].Words? && AllSpace(tokens[0].text) then DigitNext(tokens[1..])
       else Print(tokens[0]) != "" && IsDigit(Print(tokens[0])[0])
  }

  /** Words that end in `Rp` are not followed by a number: that would be an amount of rupiah. */
  predicate Apart(t: Piece, rest: seq<Piece>) {
    t.Words? && EndsInRp(t.text) ==> !DigitNext(rest)
  }

  predicate AllApart(tokens: seq<Piece>) {
    tokens != [] ==> Apart(tokens[0], tokens[1..]) && AllApart(tokens[1..])
  }

  // ---------------------------------------------------------------------------
  // A pass
  // ---------------------------------------------------------------------------

  /** What the pass leaves of a token. */
  function Left(t: Piece, pass: nat): Piece {
    if PassOf(t) == pass then Words(Spaces(|Print(t)|)) else t
  }

  function LeftOf(tokens: seq<Piece>, pass: nat): (left: seq<Piece>)
    ensures |left| == |tokens|
  {
    if tokens == [] then [] else [Left(tokens[0], pass)] + LeftOf(tokens[1..], pass)
  }

  /** Every token is left for this pass or a later one. */
  predicate LeftFor(tokens: seq<Piece>, pass: nat) {
    forall i :: 0 <= i < |tokens| ==> pass <= PassOf(tokens[i])
  }

  /** A token of the pass is taken whole, with its value; in any other nothing is found. */
  ghost predicate IsRead(pattern: Pattern, pass: nat, prev: Option<char>, t: Piece, rest: seq<Piece>) {
    if PassOf(t) == pass then
      Print(t) != "" && pattern(prev, Print(t) + Continued(rest)) == Some(Match(|Print(t)|, ValueOf(t)))
    else Silent(pattern, prev, Print(t), Continued(rest))
  }

  /** What a pass needs of its pattern. */
  ghost predicate Reads(pattern: Pattern, pass: nat) {
    && (forall p, s: string :: pattern(p, " " + s) == None)
    && (forall prev, t: Piece, rest: seq<Piece> ::
          prev in {None, Some(' ')} && pass <= PassOf(t) && (pass == 0 ==> Apart(t, rest)) ==>
            IsRead(pattern, pass, prev, t, rest))
  }

  /** The scan of the rest of the prose, settled. */
  ghost predicate Settles(r: Scanned, tokens: seq<Piece>, pass: nat, text: string) {
    r.numbers == ValuesOf(tokens, pass) && r.text == text
  }

  lemma {:induction false} TokenThenRest(pattern: Pattern, pass: nat, prev: Option<char>, t: Piece, rest: seq<Piece>)
    requires IsRead(pattern, pass, prev, t, rest)
    requires Settles(Scan(pattern, Before(prev, Print(t), |Print(t)|), Continued(rest)), rest, pass, Continued(LeftOf(rest, pass)))
    ensures var r := Scan(pattern, prev, Print(t) + Continued(rest));
            && r.numbers == (if PassOf(t) == pass then [ValueOf(t)] else []) + ValuesOf(rest, pass)
            && r.text == Print(Left(t, pass)) + Continued(LeftOf(rest, pass))
  {
    if PassOf(t) == pass {
      ScanTakes(pattern, prev, Print(t), Continued(rest), ValueOf(t));
    } else {
      ScanPassesOver(pattern, prev, Print(t), Continued(rest));
    }
  }

  lemma {:induction false} ProseIsRead(pattern: Pattern, pass: nat, prev: Option<char>, tokens: seq<Piece>)
    requires Reads(pattern, pass) && LeftFor(tokens, pass) && (pass == 0 ==> AllApart(tokens)) && prev in {None, Some(' ')}
    ensures Settles(Scan(pattern, prev, Prose(tokens)), tokens, pass, Prose(LeftOf(tokens, pass)))
    decreases |tokens|, 0
  {
    if tokens != [] {
      var t, rest := tokens[0], tokens[1..];
      assert IsRead(pattern, pass, prev, t, rest);
      ContinuedIsRead(pattern, pass, Before(prev, Print(t), |Print(t)|), rest);
      TokenThenRest(pattern, pass, prev, t, rest);
      assert LeftOf(tokens, pass)[1..] == LeftOf(rest, pass);
    }
  }

  lemma {:induction false} ContinuedIsRead(pattern: Pattern, pass: nat, prev: Option<char>, tokens: seq<Piece>)
    requires Reads(pattern, pass) && LeftFor(tokens, pass) && (pass == 0 ==> AllApart(tokens))
    ensures Settles(Scan(pattern, prev, Continued(tokens)), tokens, pass, Continued(LeftOf(tokens, pass)))
    decreases |tokens|, 1
  {
    if tokens != [] {
      ScanSkips(pattern, prev, ' ', Prose(tokens));
      ProseIsRead(pattern, pass, Some(' '), tokens);
    }
  }

  // ---------------------------------------------------------------------------
  // Three passes
  // ---------------------------------------------------------------------------

  lemma {:induction false} LeftForNext(tokens: seq<Piece>, pass: nat)
    requires LeftFor(tokens, pass) && pass < 3
    ensures LeftFor(LeftOf(tokens, pass), pass + 1)
    ensures forall later: nat :: pass < later < 3 ==> ValuesOf(LeftOf(tokens, pass), later) == ValuesOf(tokens, later)
  {
    if tokens != [] {
      LeftForNext(tokens[1..], pass);
      assert LeftOf(tokens, pass)[1..] == LeftOf(tokens[1..], pass);
    }
  }

  /** Amounts of rupiah, then dotted thousands, then other numbers, each in order. */
  function AllValues(tokens: seq<Piece>): seq<real> {
    ValuesOf(tokens, 0) + ValuesOf(tokens, 1) + ValuesOf(tokens, 2)
  }

  lemma {:induction false} ReadInThreePasses(p: Pattern, q: Pattern, r: Pattern, tokens: seq<Piece>)
    requires Reads(p, 0) && Reads(q, 1) && Reads(r, 2) && AllApart(tokens)
    ensures InThreePasses(p, q, r, Prose(tokens)) == AllValues(tokens)
  {
    var second := LeftOf(tokens, 0);
    var third := LeftOf(second, 1);
    ProseIsRead(p, 0, None, tokens);
    LeftForNext(tokens, 0);
    ProseIsRead(q, 1, None, second);
    LeftForNext(second, 1);
    ProseIsRead(r, 2, None, third);
  }
}
