/** What a successful parse says about its input: the parser reads only from the front, and the
    text it reads, with whitespace removed, is exactly the spelling of what it returns. */
module GrammarSoundness {
  import opened Errors
  import opened Syntax
  import opened Grammar
  import Scan
  import GrammarFacts

  /** ensure_follows takes whitespace and the expected character from the front. */
  lemma FollowsTakes(s: seq<char>, expected: char)
    requires Follows(s, expected).Ok?
    ensures Scan.Suffix(Follows(s, expected).value, s)
    ensures Scan.Unspaced(s) == [expected] + Scan.Unspaced(Follows(s, expected).value)
  {
    Scan.NextTakes(s);
  }

  /** A term that parses is well formed, and the text read for it, without whitespace, is its
      spelling; a single-digit band is only ever read in front of a delimiter. */
  lemma {:induction false} TermSound(s: seq<char>)
    requires Term(s).Ok?
    ensures var (e, r) := Term(s).value;
      WellFormed(e) && Scan.Suffix(r, s) && Scan.Unspaced(s) == Spell(e, Scan.Unspaced(r)) &&
      (BareDigit(e) ==> GrammarFacts.Delimits(r))
    decreases |s|, 1
  {
    var n := Scan.Next(s).value;
    Scan.NextTakes(s);
    var ch := n.0;
    if ch == 'I' || ch == 'S' || ch == 'R' {
      var op := if ch == 'I' then Normalized else if ch == 'S' then Difference else Ratio;
      BinaryTailSound(op, n.1);
    } else if ch == 'D' {
      SumRatioTailSound(n.1);
    } else {
      BandTailSound(n.1);
    }
    Scan.SuffixTrans(Term(s).value.1, n.1, s);
  }

  /** An operand and the punctuation after it: the text read, without whitespace, is the
      operand's spelling followed by the punctuation. */
  lemma {:induction false} OperandSound(x: seq<char>, sep: char)
    requires Term(x).Ok? && Follows(Term(x).value.1, sep).Ok?
    ensures var (e, y) := (Term(x).value.0, Follows(Term(x).value.1, sep).value);
      WellFormed(e) && Scan.Suffix(y, x) && Scan.Unspaced(x) == Spell(e, [sep] + Scan.Unspaced(y))
    decreases |x|, 2
  {
    var a := Term(x).value;
    TermSound(x);
    FollowsTakes(a.1, sep);
    Scan.SuffixTrans(Follows(a.1, sep).value, a.1, x);
  }

  /** I, S and R accept exactly "(T,T)" after their letter. */
  lemma {:induction false} BinaryTailSound(op: BinOp, s: seq<char>)
    requires BinaryTail(op, s).Ok?
    ensures var (e, r) := BinaryTail(op, s).value;
      WellFormed(e) && Scan.Suffix(r, s) && [Letter(op)] + Scan.Unspaced(s) == Spell(e, Scan.Unspaced(r))
    decreases |s|, 0
  {
    var s1 := Follows(s, '(').value;
    FollowsTakes(s, '(');
    var s2 := Follows(Term(s1).value.1, ',').value;
    OperandSound(s1, ',');
    var s3 := Follows(Term(s2).value.1, ')').value;
    OperandSound(s2, ')');
    Scan.SuffixTrans(s3, s2, s1);
    Scan.SuffixTrans(s3, s1, s);
  }

  /** D accepts exactly "(T,T,T)" after its letter. */
  lemma {:induction false} SumRatioTailSound(s: seq<char>)
    requires SumRatioTail(s).Ok?
    ensures var (e, r) := SumRatioTail(s).value;
      WellFormed(e) && Scan.Suffix(r, s) && ['D'] + Scan.Unspaced(s) == Spell(e, Scan.Unspaced(r))
    decreases |s|, 0
  {
    var s1 := Follows(s, '(').value;
    FollowsTakes(s, '(');
    var s2 := Follows(Term(s1).value.1, ',').value;
    OperandSound(s1, ',');
    var s3 := Follows(Term(s2).value.1, ',').value;
    OperandSound(s2, ',');
    var s4 := Follows(Term(s3).value.1, ')').value;
    OperandSound(s3, ')');
    Scan.SuffixTrans(s4, s3, s2);
    Scan.SuffixTrans(s4, s2, s1);
    Scan.SuffixTrans(s4, s1, s);
  }

  /** parse_B reads two non-blank characters, and pops the second only when it is a digit or
      'a'/'A'; otherwise the first was a digit and the second is left as a delimiter. */
  lemma BandTailSound(s: seq<char>)
    requires BandTail(s).Ok?
    ensures var (e, r) := BandTail(s).value;
      WellFormed(e) && Scan.Suffix(r, s) && ['B'] + Scan.Unspaced(s) == Spell(e, Scan.Unspaced(r)) &&
      (BareDigit(e) ==> GrammarFacts.Delimits(r))
  {
    var n := Scan.Next(s).value;
    Scan.NextTakes(s);
    var p := Scan.Peek(n.1).value;
    Scan.PeekTakes(n.1);
    var t := p.1;
    Scan.SuffixTrans(t, n.1, s);
    if Scan.IsDigit(p.0) || Scan.IsLetterA(p.0) {
      assert Scan.Suffix(t[1..], t);
      Scan.SuffixTrans(t[1..], t, s);
    } else {
      assert DigitChar(Scan.DigitValue(n.0)) == n.0;
      GrammarFacts.SkipNonBlank(t);
    }
  }

  /** One step of parse_E: the first term, then either the end of the formula or ';' and
      the terms after it. */
  lemma TermsStep(s: seq<char>)
    requires Terms(s).Ok?
    ensures Term(s).Ok?
    ensures var (e, r) := Term(s).value;
      if r == [] then Terms(s).value == [e]
      else (Follows(r, ';').Ok? && Terms(Follows(r, ';').value).Ok? &&
        Terms(s).value == [e] + Terms(Follows(r, ';').value).value)
  {
  }

  /** `s` without its whitespace is the spelling of `es`, a list of well-formed terms joined by
      ';' whose last term is not a single-digit band. */
  predicate ReadsAs(s: seq<char>, es: seq<Expr>) {
    es != [] && (forall i :: 0 <= i < |es| ==> WellFormed(es[i])) && !BareDigit(es[|es| - 1]) &&
    Scan.Unspaced(s) == SpellAll(es)
  }

  /** A formula that parses is a list of well-formed terms whose spellings, joined by ';', are
      the formula without its whitespace, in order. The last term is never a single-digit band.
      A band's second character may itself be ';' (see GrammarFacts.SeparatorInsideBand), so a
      ';' in the text is not always a separator. */
  lemma {:induction false} TermsSound(s: seq<char>)
    requires Terms(s).Ok?
    ensures ReadsAs(s, Terms(s).value)
    decreases |s|
  {
    TermsStep(s);
    var (e, r) := Term(s).value;
    TermSound(s);
    if r == [] {
      LastSound(s, e, r);
    } else {
      var rest := Follows(r, ';').value;
      FollowsTakes(r, ';');
      TermsSound(rest);
      JoinSound(s, e, r, rest, Terms(rest).value);
    }
  }

  /** A formula that ends after its first term: that term cannot be a single-digit band, since
      one is only read in front of a delimiter. */
  lemma LastSound(s: seq<char>, e: Expr, r: seq<char>)
    requires WellFormed(e) && Scan.Unspaced(s) == Spell(e, Scan.Unspaced(r))
    requires BareDigit(e) ==> GrammarFacts.Delimits(r)
    requires r == []
    ensures ReadsAs(s, [e])
  {
  }

  /** Joining the first term's reading to the reading of the terms after the ';'. */
  lemma JoinSound(s: seq<char>, e: Expr, r: seq<char>, rest: seq<char>, es: seq<Expr>)
    requires WellFormed(e) && Scan.Unspaced(s) == Spell(e, Scan.Unspaced(r))
    requires Scan.Unspaced(r) == [';'] + Scan.Unspaced(rest)
    requires ReadsAs(rest, es)
    ensures ReadsAs(s, [e] + es)
  {
    SpellJoin(e, es);
  }

  /** Whitespace never changes a successful parse: the formula with its whitespace removed
      parses to the same terms. */
  lemma SpacesIrrelevant(s: seq<char>)
    requires Terms(s).Ok?
    ensures Terms(Scan.Unspaced(s)) == Terms(s)
  {
    TermsSound(s);
    GrammarFacts.TermsRoundTrip(Terms(s).value);
  }
}
