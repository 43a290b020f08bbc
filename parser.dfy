/** FeatureExtendedExtractor's parsing routines, advancing one shared lexer in place; each is
    proved to return what the reference parser in Grammar returns and to leave the lexer
    where it says. */
module Parser {
  import opened Errors
  import opened Syntax
  import Grammar
  import Scan
  import opened Lexing

  /** `r` and the lexer's remaining characters `left` are what `spec` predicts. */
  predicate Agrees(r: Result<Expr>, spec: Result<(Expr, seq<char>)>, left: seq<char>) {
    match spec
    case Ok(p) => r == Ok(p.0) && left == p.1
    case Err(e) => r == Err(e)
  }

  method EnsureFollows(lexer: Lexer, expected: char) returns (r: Result<()>)
    modifies lexer
    ensures r.Ok? <==> Grammar.Follows(old(lexer.chars), expected).Ok?
    ensures r.Ok? ==> lexer.chars == Grammar.Follows(old(lexer.chars), expected).value
    ensures r.Err? ==> r.error == Grammar.Follows(old(lexer.chars), expected).error
  {
    var ch :- lexer.Next();
    if ch != expected {
      return Err(Unexpected(expected, ch));
    }
    return Ok(());
  }

  method ParseT(lexer: Lexer) returns (r: Result<Expr>)
    modifies lexer
    ensures Agrees(r, Grammar.Term(old(lexer.chars)), lexer.chars)
    decreases |lexer.chars|, 3
  {
    var ch :- lexer.Next();
    if ch == 'I' {
      r := ParseI(lexer);
    } else if ch == 'S' {
      r := ParseS(lexer);
    } else if ch == 'R' {
      r := ParseR(lexer);
    } else if ch == 'D' {
      r := ParseD(lexer);
    } else if ch == 'B' {
      r := ParseB(lexer);
    } else {
      r := Err(UnknownTerm(ch));
    }
  }

  method ParseI(lexer: Lexer) returns (r: Result<Expr>)
    modifies lexer
    ensures Agrees(r, Grammar.BinaryTail(Normalized, old(lexer.chars)), lexer.chars)
    decreases |lexer.chars|, 2
  {
    r := ParseBinary(lexer, Normalized);
  }

  method ParseS(lexer: Lexer) returns (r: Result<Expr>)
    modifies lexer
    ensures Agrees(r, Grammar.BinaryTail(Difference, old(lexer.chars)), lexer.chars)
    decreases |lexer.chars|, 2
  {
    r := ParseBinary(lexer, Difference);
  }

  method ParseR(lexer: Lexer) returns (r: Result<Expr>)
    modifies lexer
    ensures Agrees(r, Grammar.BinaryTail(Ratio, old(lexer.chars)), lexer.chars)
    decreases |lexer.chars|, 2
  {
    r := ParseBinary(lexer, Ratio);
  }

  /** The body shared by parse_I, parse_S and parse_R: "(T,T)". */
  method ParseBinary(lexer: Lexer, op: BinOp) returns (r: Result<Expr>)
    modifies lexer
    ensures Agrees(r, Grammar.BinaryTail(op, old(lexer.chars)), lexer.chars)
    decreases |lexer.chars|, 1
  {
    var open :- EnsureFollows(lexer, '(');
    var fst :- ParseT(lexer);
    var comma :- EnsureFollows(lexer, ',');
    var snd :- ParseT(lexer);
    var close :- EnsureFollows(lexer, ')');
    return Ok(Binary(op, fst, snd));
  }

  method ParseD(lexer: Lexer) returns (r: Result<Expr>)
    modifies lexer
    ensures Agrees(r, Grammar.SumRatioTail(old(lexer.chars)), lexer.chars)
    decreases |lexer.chars|, 1
  {
    var open :- EnsureFollows(lexer, '(');
    var fst :- ParseT(lexer);
    var comma1 :- EnsureFollows(lexer, ',');
    var snd :- ParseT(lexer);
    var comma2 :- EnsureFollows(lexer, ',');
    var thd :- ParseT(lexer);
    var close :- EnsureFollows(lexer, ')');
    return Ok(SumRatio(fst, snd, thd));
  }

  method ParseB(lexer: Lexer) returns (r: Result<Expr>)
    modifies lexer
    ensures Agrees(r, Grammar.BandTail(old(lexer.chars)), lexer.chars)
  {
    var num :- lexer.Next();
    var nxt :- lexer.Peek();
    if Scan.IsDigit(nxt) {
      var popped := lexer.PopLeft();
      return Ok(Band(TwoDigit(num, nxt)));
    }
    if Scan.IsLetterA(nxt) {
      var popped := lexer.PopLeft();
      return Ok(Band(LetterA(num, nxt)));
    }
    if !Scan.IsDigit(num) {
      return Err(NotADigit(num));
    }
    return Ok(Band(OneDigit(Scan.DigitValue(num))));
  }

  /** parse_E: one term, then "; term" for as long as input is left. */
  method ParseE(lexer: Lexer) returns (r: Result<seq<Expr>>)
    modifies lexer
    ensures r == Grammar.Terms(old(lexer.chars))
    ensures r.Ok? ==> lexer.chars == []
  {
    ghost var input := lexer.chars;
    var first := ParseT(lexer);
    if first.Err? {
      return Err(first.error);
    }
    var vals := [first.value];
    assert Grammar.Terms(input) == Grammar.Prefixed(vals, Grammar.Continue(lexer.chars));
    while lexer.HasInput()
      invariant Grammar.Terms(input) == Grammar.Prefixed(vals, Grammar.Continue(lexer.chars))
      decreases |lexer.chars|
    {
      ghost var before := lexer.chars;
      var semicolon := EnsureFollows(lexer, ';');
      if semicolon.Err? {
        return Err(semicolon.error);
      }
      ghost var after := lexer.chars;
      var next := ParseT(lexer);
      if next.Err? {
        assert Grammar.Continue(before) == Grammar.Terms(after);
        return Err(next.error);
      }
      assert Grammar.Continue(before) == Grammar.Prefixed([next.value], Grammar.Continue(lexer.chars));
      Grammar.PrefixedTwice(vals, [next.value], Grammar.Continue(lexer.chars));
      vals := vals + [next.value];
    }
    assert Grammar.Continue(lexer.chars) == Ok([]);
    assert vals + [] == vals;
    return Ok(vals);
  }

  /** The constructor of FeatureExtendedExtractor: parses the whole formula text into the list
      of terms it keeps, or raises the first error met. */
  method Build(expr: seq<char>) returns (r: Result<seq<Expr>>)
    ensures r == Grammar.Terms(expr)
    ensures r.Ok? ==> |r.value| >= 1
  {
    var lexer := new Lexer(expr);
    r := ParseE(lexer);
  }
}
