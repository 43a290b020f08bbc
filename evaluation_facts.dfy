/** What applying a parsed formula computes, and which band each spelling selects. */
module EvaluationFacts {
  import opened Errors
  import opened Syntax
  import opened Evaluation
  import Grammar
  import GrammarFacts
  import Scan

  /** A two-digit band reads index 10*tens + units: a number in 0..99 from which both digits
      can be read back, so distinct two-digit spellings select distinct bands. */
  lemma TwoDigitIndex(t: char, u: char)
    requires Scan.IsDigit(t) && Scan.IsDigit(u)
    ensures BandIndex(TwoDigit(t, u)).Ok?
    ensures var i := BandIndex(TwoDigit(t, u)).value;
      0 <= i <= 99 && i / 10 == Scan.DigitValue(t) && i % 10 == Scan.DigitValue(u)
  {
  }

  /** B1..B8 read indices 0..7 and B9 reads 9: index 8 is left to B8A, and no two of these
      spellings select the same band. */
  lemma OneDigitIndex(d: nat, d': nat)
    requires 1 <= d <= 9 && 1 <= d' <= 9
    ensures BandIndex(OneDigit(d)) == Ok(if d <= 8 then d - 1 else 9)
    ensures BandIndex(OneDigit(d)) != Ok(8)
    ensures BandIndex(OneDigit(d)) == BandIndex(OneDigit(d')) ==> d == d'
  {
  }

  /** B0 computes index -1, which Python's indexing turns into the last band. */
  lemma ZeroBandIsLast(x: seq<real>)
    requires x != []
    ensures Eval(Band(OneDigit(0)), x) == Ok(x[|x| - 1])
  {
  }

  /** The code character of B?A is never looked at: every such band reads index 8. */
  lemma LetterAReadsEight(c: char, l: char, v: seq<real>)
    ensures Eval(Band(LetterA(c, l)), v) == At(v, 8)
  {
  }

  /** For d in 1..8 the zero-padded and the single-digit spelling disagree: B0d reads index
      d while Bd reads d-1, so B08 reads the same index as B8A. */
  lemma SpellingsDisagree(d: nat)
    requires 1 <= d <= 8
    ensures BandIndex(TwoDigit('0', DigitChar(d))) == Ok(d)
    ensures BandIndex(OneDigit(d)) == Ok(d - 1)
    ensures BandIndex(TwoDigit('0', '8')) == BandIndex(LetterA('8', 'A'))
  {
    assert Scan.DigitValue(DigitChar(d)) == d;
  }

  /** The tens character of a two-digit band is converted only when the formula is applied: a
      non-digit there is accepted by the parser and raises ValueError on every call. */
  lemma TensCheckedWhenApplied(t: char, u: char, rest: seq<char>, x: seq<real>)
    requires !Scan.IsSpace(t) && !Scan.IsDigit(t) && Scan.IsDigit(u)
    ensures Grammar.Term(Spell(Band(TwoDigit(t, u)), rest)) == Ok((Band(TwoDigit(t, u)), rest))
    ensures Eval(Band(TwoDigit(t, u)), x) == Err(NotADigit(t))
  {
    GrammarFacts.PairedBandRoundTrip(TwoDigit(t, u), rest);
  }

  /** The digit of a single-digit band is converted while parsing: a non-digit there is a
      ValueError before any formula is applied. */
  lemma SingleCheckedWhenParsed(c: char, rest: seq<char>)
    requires !Scan.IsSpace(c) && !Scan.IsDigit(c)
    requires GrammarFacts.Delimits(rest)
    ensures Grammar.Term(['B'] + ([c] + rest)) == Err(NotADigit(c))
  {
    GrammarFacts.DispatchBand([c] + rest);
    Scan.NonBlankFirst(c, rest);
  }

  /** On non-negative operands (reflectances) the normalised difference I(a,b) lies in [-1, 1]. */
  lemma NormalizedWithinUnit(a: Expr, b: Expr, x: seq<real>)
    requires Eval(a, x).Ok? && Eval(a, x).value >= 0.0
    requires Eval(b, x).Ok? && Eval(b, x).value >= 0.0
    requires Eval(Binary(Normalized, a, b), x).Ok?
    ensures -1.0 <= Eval(Binary(Normalized, a, b), x).value <= 1.0
  {
    var va, vb := Eval(a, x).value, Eval(b, x).value;
    assert Eval(Binary(Normalized, a, b), x) == Ok((va - vb) / (va + vb));
    UnitRatio(va, vb);
  }

  lemma UnitRatio(p: real, q: real)
    requires p >= 0.0 && q >= 0.0 && p + q != 0.0
    ensures -1.0 <= (p - q) / (p + q) <= 1.0
  {
    var s := p + q;
    var v := (p - q) / s;
    assert v * s == p - q;
    assert (v - 1.0) * s == -2.0 * q;
    assert (v + 1.0) * s == 2.0 * p;
  }

  /** Swapping the operands of I or S negates the result, since both operands are evaluated on
      the same vector. */
  lemma SwapNegates(op: BinOp, a: Expr, b: Expr, x: seq<real>)
    requires op == Normalized || op == Difference
    requires Eval(Binary(op, a, b), x).Ok?
    ensures Eval(Binary(op, b, a), x) == Ok(-Eval(Binary(op, a, b), x).value)
  {
    var va, vb := Eval(a, x).value, Eval(b, x).value;
    if op == Normalized {
      assert Eval(Binary(op, a, b), x) == Ok((va - vb) / (va + vb));
      assert Eval(Binary(op, b, a), x) == Ok((vb - va) / (vb + va));
      NegatedRatio(va, vb);
    }
  }

  lemma NegatedRatio(p: real, q: real)
    requires p + q != 0.0
    ensures (q - p) / (q + p) == -((p - q) / (p + q))
  {
    assert q + p == p + q;
    assert q - p == -(p - q);
  }

  /** I, S and R evaluate their left operand first: its error is the term's error, and the
      right operand's error counts only once the left one has a value. */
  lemma BinaryLeftFirst(op: BinOp, a: Expr, b: Expr, x: seq<real>)
    ensures Eval(a, x).Err? ==> Eval(Binary(op, a, b), x) == Eval(a, x)
    ensures Eval(a, x).Ok? && Eval(b, x).Err? ==> Eval(Binary(op, a, b), x) == Eval(b, x)
  {
  }

  /** D evaluates its first, second and third operands in that order, and tests the divisor
      for zero only once all three have values. */
  lemma SumRatioLeftFirst(a: Expr, b: Expr, c: Expr, x: seq<real>)
    ensures Eval(a, x).Err? ==> Eval(SumRatio(a, b, c), x) == Eval(a, x)
    ensures Eval(a, x).Ok? && Eval(b, x).Err? ==> Eval(SumRatio(a, b, c), x) == Eval(b, x)
    ensures Eval(a, x).Ok? && Eval(b, x).Ok? && Eval(c, x).Err? ==>
      Eval(SumRatio(a, b, c), x) == Eval(c, x)
    ensures Eval(a, x).Ok? && Eval(b, x).Ok? && Eval(c, x) == Ok(0.0) ==>
      Eval(SumRatio(a, b, c), x) == Err(ZeroDivision)
  {
  }

  /** A term that raises an error makes the whole call raise the first such error. */
  lemma FirstErrorWins(parsed: seq<Expr>, x: seq<real>, k: nat)
    requires k < |parsed| && Eval(parsed[k], x).Err?
    requires forall j :: 0 <= j < k ==> Eval(parsed[j], x).Ok?
    ensures Call(parsed, x) == Err(Eval(parsed[k], x).error)
  {
    var r := Call(parsed, x);
    assert r.Err?;
    var i :| 0 <= i < |parsed| && Eval(parsed[i], x) == Err(r.error) &&
             forall j :: 0 <= j < i ==> Eval(parsed[j], x).Ok?;
    assert i == k;
  }

  /** "B01;B1;B8A" parses to three bands, ... */
  lemma ThreeSpellingsParse()
    ensures var es := [Band(TwoDigit('0', '1')), Band(OneDigit(1)), Band(LetterA('8', 'A'))];
      Grammar.Terms("B01;B1;B8A") == Ok(es)
  {
    var b01, b1, b8a := Band(TwoDigit('0', '1')), Band(OneDigit(1)), Band(LetterA('8', 'A'));
    var es := [b01, b1, b8a];
    assert es[1..] == [b1, b8a] && es[1..][1..] == [b8a];
    assert SpellAll([b8a]) == "B8A";
    assert SpellAll([b1, b8a]) == "B1;B8A";
    assert SpellAll(es) == "B01;B1;B8A";
    GrammarFacts.TermsRoundTrip(es);
  }

  /** ... which read indices 1, 0 and 8. */
  lemma ThreeSpellingsCall(x: seq<real>)
    requires |x| >= 9
    ensures Call([Band(TwoDigit('0', '1')), Band(OneDigit(1)), Band(LetterA('8', 'A'))], x) ==
      Ok([x[1], x[0], x[8]])
  {
    var es := [Band(TwoDigit('0', '1')), Band(OneDigit(1)), Band(LetterA('8', 'A'))];
    var vs := [x[1], x[0], x[8]];
    assert Eval(es[0], x) == Ok(vs[0]);
    assert Eval(es[1], x) == Ok(vs[1]);
    assert Eval(es[2], x) == Ok(vs[2]);
    CallCollects(es, x, vs);
  }

  /** When every term evaluates, __call__ returns exactly their values, in order. */
  lemma CallCollects(parsed: seq<Expr>, x: seq<real>, vs: seq<real>)
    requires |vs| == |parsed|
    requires forall i :: 0 <= i < |parsed| ==> Eval(parsed[i], x) == Ok(vs[i])
    ensures Call(parsed, x) == Ok(vs)
  {
    var r := Call(parsed, x);
    assert r.Ok?;
    assert forall i :: 0 <= i < |vs| ==> r.value[i] == vs[i];
    assert r.value == vs;
  }
}
