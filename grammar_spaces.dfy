/** Whitespace: the parser reads the input exactly as it reads the input with its whitespace
    removed, except that whitespace at the very end still asks for another term. */
module GrammarSpaces {
  import opened Errors
  import opened Syntax
  import opened Grammar
  import Scan
  import GrammarFacts
  import GrammarSoundness

  /** A result read from the input, restated for the same input without its whitespace. */
  function UnspacedRest(r: Result<seq<char>>): Result<seq<char>> {
    if r.Ok? then Ok(Scan.Unspaced(r.value)) else r
  }

  function UnspacedTerm(r: Result<(Expr, seq<char>)>): Result<(Expr, seq<char>)> {
    if r.Ok? then Ok((r.value.0, Scan.Unspaced(r.value.1))) else r
  }

  /** ensure_follows checks the same character and fails alike. */
  lemma FollowsUnspaced(s: seq<char>, expected: char)
    ensures Follows(Scan.Unspaced(s), expected) == UnspacedRest(Follows(s, expected))
  {
    Scan.NextUnspaced(s);
  }

  /** parse_T gives the same term, or raises the same error, on the input without whitespace. */
  lemma {:induction false} TermUnspaced(s: seq<char>)
    ensures Term(Scan.Unspaced(s)) == UnspacedTerm(Term(s))
    decreases |s|, 1
  {
    Scan.NextUnspaced(s);
    if Scan.Next(s).Ok? {
      var (ch, rest) := Scan.Next(s).value;
      if ch == 'I' {
        BinaryTailUnspaced(Normalized, rest);
      } else if ch == 'S' {
        BinaryTailUnspaced(Difference, rest);
      } else if ch == 'R' {
        BinaryTailUnspaced(Ratio, rest);
      } else if ch == 'D' {
        SumRatioTailUnspaced(rest);
      } else if ch == 'B' {
        BandTailUnspaced(rest);
      }
    }
  }

  lemma {:induction false} BinaryTailUnspaced(op: BinOp, s: seq<char>)
    ensures BinaryTail(op, Scan.Unspaced(s)) == UnspacedTerm(BinaryTail(op, s))
    decreases |s|, 0
  {
    FollowsUnspaced(s, '(');
    if Follows(s, '(').Ok? {
      var s1 := Follows(s, '(').value;
      TermUnspaced(s1);
      if Term(s1).Ok? {
        var a := Term(s1).value;
        FollowsUnspaced(a.1, ',');
        if Follows(a.1, ',').Ok? {
          var s2 := Follows(a.1, ',').value;
          TermUnspaced(s2);
          if Term(s2).Ok? {
            FollowsUnspaced(Term(s2).value.1, ')');
          }
        }
      }
    }
  }

  lemma {:induction false} SumRatioTailUnspaced(s: seq<char>)
    ensures SumRatioTail(Scan.Unspaced(s)) == UnspacedTerm(SumRatioTail(s))
    decreases |s|, 0
  {
    FollowsUnspaced(s, '(');
    if Follows(s, '(').Ok? {
      var s1 := Follows(s, '(').value;
      TermUnspaced(s1);
      if Term(s1).Ok? {
        var a := Term(s1).value;
        FollowsUnspaced(a.1, ',');
        if Follows(a.1, ',').Ok? {
          var s2 := Follows(a.1, ',').value;
          TermUnspaced(s2);
          if Term(s2).Ok? {
            var b := Term(s2).value;
            FollowsUnspaced(b.1, ',');
            if Follows(b.1, ',').Ok? {
              var s3 := Follows(b.1, ',').value;
              TermUnspaced(s3);
              if Term(s3).Ok? {
                FollowsUnspaced(Term(s3).value.1, ')');
              }
            }
          }
        }
      }
    }
  }

  lemma BandTailUnspaced(s: seq<char>)
    ensures BandTail(Scan.Unspaced(s)) == UnspacedTerm(BandTail(s))
  {
    Scan.NextUnspaced(s);
    if Scan.Next(s).Ok? {
      var n := Scan.Next(s).value;
      Scan.PeekUnspaced(n.1);
      if Scan.Peek(n.1).Ok? {
        var t := Scan.Peek(n.1).value.1;
        PoppedUnspaced(n.1);
        assert Scan.Unspaced(t)[1..] == Scan.Unspaced(t[1..]);
      }
    }
  }

  /** Popping the character peeked at pops it from the input without whitespace too. */
  lemma PoppedUnspaced(s: seq<char>)
    requires Scan.Peek(s).Ok?
    ensures var t := Scan.Peek(s).value.1;
      Scan.Unspaced(t) == [t[0]] + Scan.Unspaced(t[1..])
  {
  }

  /** parse_E on input that does not end in whitespace gives the same terms, or raises the same
      error, as on that input with its whitespace removed. */
  lemma {:induction false} SpacesIgnored(s: seq<char>)
    requires Scan.EndsBlankFree(s)
    ensures Terms(s) == Terms(Scan.Unspaced(s))
    decreases |s|
  {
    TermUnspaced(s);
    if Term(s).Ok? {
      var (e, r) := Term(s).value;
      GrammarSoundness.TermSound(s);
      Scan.SuffixEndsBlankFree(r, s);
      if r != [] {
        FollowsUnspaced(r, ';');
        if Follows(r, ';').Ok? {
          var rest := Follows(r, ';').value;
          GrammarSoundness.FollowsTakes(r, ';');
          Scan.SuffixTrans(rest, r, s);
          Scan.SuffixEndsBlankFree(rest, s);
          SpacesIgnored(rest);
        }
      }
    }
  }

  /** On input that does not end in whitespace, parse_E returns `es` exactly when the input,
      without its whitespace, is the spellings of `es` joined by ';' and the last of them is not
      a single-digit band. */
  lemma SpacedReads(s: seq<char>, es: seq<Expr>)
    requires Scan.EndsBlankFree(s)
    ensures Terms(s) == Ok(es) <==> GrammarSoundness.ReadsAs(s, es)
  {
    SpacesIgnored(s);
    if GrammarSoundness.ReadsAs(s, es) {
      GrammarFacts.TermsRoundTrip(es);
    }
    if Terms(s) == Ok(es) {
      GrammarSoundness.TermsSound(s);
    }
  }

  /** Whitespace after a single-digit band, before the ';' that ends it. */
  lemma SpacedSeparator()
    ensures Terms("B1 ;B01") == Ok([Band(OneDigit(1)), Band(TwoDigit('0', '1'))])
  {
    var es := [Band(OneDigit(1)), Band(TwoDigit('0', '1'))];
    assert Scan.Unspaced("B1 ;B01") == SpellAll(es);
    SpacesIgnored("B1 ;B01");
    GrammarFacts.TermsRoundTrip(es);
  }
}
