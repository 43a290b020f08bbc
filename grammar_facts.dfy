/** What the reference parser accepts and rejects. */
module GrammarFacts {
  import opened Errors
  import opened Syntax
  import opened Grammar
  import Scan

  /** A text after a single-digit band lets parse_B's peek see a character that ends it. */
  predicate Delimits(rest: seq<char>) {
    var t := Scan.SkipSpace(rest);
    t != [] && !Scan.IsDigit(t[0]) && !Scan.IsLetterA(t[0])
  }

  /** What a term leaves unread: all of `rest`, except that a single-digit band's peek has
      already popped the whitespace in front of the next character. */
  function After(e: Expr, rest: seq<char>): seq<char> {
    if BareDigit(e) then Scan.SkipSpace(rest) else rest
  }

  lemma SkipNonBlank(s: seq<char>)
    requires s != [] && !Scan.IsSpace(s[0])
    ensures Scan.SkipSpace(s) == s
  {
  }

  /** ensure_follows on a non-blank first character. */
  lemma FollowsOn(c: char, t: seq<char>, expected: char)
    requires !Scan.IsSpace(c)
    ensures Follows([c] + t, expected) == if c == expected then Ok(t) else Err(Unexpected(expected, c))
  {
    Scan.NonBlankFirst(c, t);
  }

  /** A well-formed term followed by punctuation is read up to the punctuation. */
  lemma {:induction false} Operand(a: Expr, sep: char, tail: seq<char>)
    requires WellFormed(a)
    requires sep == ',' || sep == ')' || sep == ';'
    ensures Term(Spell(a, [sep] + tail)) == Ok((a, [sep] + tail))
    decreases a, 2
  {
    var rest := [sep] + tail;
    match a
    case Binary(op, l, r) => BinaryRoundTrip(op, l, r, rest);
    case SumRatio(l, m, r) => SumRatioRoundTrip(l, m, r, rest);
    case Band(name) =>
      if name.OneDigit? {
        SkipNonBlank(rest);
        OneDigitRoundTrip(name.digit, rest);
      } else {
        PairedBandRoundTrip(name, rest);
      }
  }

  /** parse_T hands everything after the letter to the routine the letter names. */
  lemma DispatchBinary(op: BinOp, x: seq<char>)
    ensures Term([Letter(op)] + x) == BinaryTail(op, x)
  {
    Scan.NonBlankFirst(Letter(op), x);
    match op
    case Normalized =>
    case Difference =>
    case Ratio =>
  }

  lemma DispatchSumRatio(x: seq<char>)
    ensures Term(['D'] + x) == SumRatioTail(x)
  {
    Scan.NonBlankFirst('D', x);
  }

  lemma DispatchBand(x: seq<char>)
    ensures Term(['B'] + x) == BandTail(x)
  {
    Scan.NonBlankFirst('B', x);
  }

  /** "(a,b" followed by `y`: the outcome is decided by whether `y` starts with ')'. */
  lemma BinaryTailSteps(op: BinOp, x2: seq<char>, x3: seq<char>, a: Expr, b: Expr, y: seq<char>)
    requires Term(x2) == Ok((a, [','] + x3))
    requires Term(x3) == Ok((b, y))
    ensures var f := Follows(y, ')');
      BinaryTail(op, ['('] + x2) == if f.Ok? then Ok((Binary(op, a, b), f.value)) else Err(f.error)
  {
    FollowsOn('(', x2, '(');
    FollowsOn(',', x3, ',');
  }

  /** "(a,b,c" followed by `y`: the outcome is decided by whether `y` starts with ')'. */
  lemma SumRatioTailSteps(x2: seq<char>, x3: seq<char>, x4: seq<char>, a: Expr, b: Expr, c: Expr, y: seq<char>)
    requires Term(x2) == Ok((a, [','] + x3))
    requires Term(x3) == Ok((b, [','] + x4))
    requires Term(x4) == Ok((c, y))
    ensures var f := Follows(y, ')');
      SumRatioTail(['('] + x2) == if f.Ok? then Ok((SumRatio(a, b, c), f.value)) else Err(f.error)
  {
    FollowsOn('(', x2, '(');
    FollowsOn(',', x3, ',');
    FollowsOn(',', x4, ',');
  }

  /** A single-digit band is read back when a delimiter follows; parse_B's peek has by then
      popped the whitespace in front of it. */
  lemma OneDigitRoundTrip(d: nat, rest: seq<char>)
    requires d < 10 && Delimits(rest)
    ensures Term(Spell(Band(OneDigit(d)), rest)) == Ok((Band(OneDigit(d)), Scan.SkipSpace(rest)))
  {
    var ch := DigitChar(d);
    DispatchBand([ch] + rest);
    Scan.NonBlankFirst(ch, rest);
    assert Scan.IsDigit(ch) && Scan.DigitValue(ch) == d;
  }

  /** The two bands spelled with three characters: B<tens><units> and B<code>A. */
  lemma PairedBandRoundTrip(name: BandName, rest: seq<char>)
    requires WellFormed(Band(name)) && !name.OneDigit?
    ensures Term(Spell(Band(name), rest)) == Ok((Band(name), rest))
  {
    var (c1, c2) := if name.TwoDigit? then (name.tens, name.units) else (name.code, name.letter);
    DispatchBand([c1] + ([c2] + rest));
    Scan.NonBlankFirst(c1, [c2] + rest);
    Scan.NonBlankFirst(c2, rest);
    assert ([c2] + rest)[1..] == rest;
  }

  lemma {:induction false} BinaryRoundTrip(op: BinOp, a: Expr, b: Expr, rest: seq<char>)
    requires WellFormed(a) && WellFormed(b)
    ensures Term(Spell(Binary(op, a, b), rest)) == Ok((Binary(op, a, b), rest))
    decreases Binary(op, a, b), 1
  {
    var x3 := Spell(b, [')'] + rest);
    var x2 := Spell(a, [','] + x3);
    DispatchBinary(op, ['('] + x2);
    Operand(a, ',', x3);
    Operand(b, ')', rest);
    BinaryTailSteps(op, x2, x3, a, b, [')'] + rest);
    FollowsOn(')', rest, ')');
  }

  lemma {:induction false} SumRatioRoundTrip(a: Expr, b: Expr, c: Expr, rest: seq<char>)
    requires WellFormed(a) && WellFormed(b) && WellFormed(c)
    ensures Term(Spell(SumRatio(a, b, c), rest)) == Ok((SumRatio(a, b, c), rest))
    decreases SumRatio(a, b, c), 1
  {
    var x4 := Spell(c, [')'] + rest);
    var x3 := Spell(b, [','] + x4);
    var x2 := Spell(a, [','] + x3);
    DispatchSumRatio(['('] + x2);
    Operand(a, ',', x3);
    Operand(b, ',', x4);
    Operand(c, ')', rest);
    SumRatioTailSteps(x2, x3, x4, a, b, c, [')'] + rest);
    FollowsOn(')', rest, ')');
  }

  /** Every well-formed term is read back from its spelling, and exactly its spelling is read. */
  lemma TermRoundTrip(e: Expr, rest: seq<char>)
    requires WellFormed(e)
    requires BareDigit(e) ==> Delimits(rest)
    ensures Term(Spell(e, rest)) == Ok((e, After(e, rest)))
  {
    match e
    case Binary(op, a, b) => BinaryRoundTrip(op, a, b, rest);
    case SumRatio(a, b, c) => SumRatioRoundTrip(a, b, c, rest);
    case Band(name) =>
      if name.OneDigit? {
        OneDigitRoundTrip(name.digit, rest);
      } else {
        PairedBandRoundTrip(name, rest);
      }
  }

  /** A list of well-formed terms joined by ';' is read back as exactly that list, unless the
      last term is a single-digit band: then parse_B's peek runs off the end. */
  lemma TermsRoundTrip(es: seq<Expr>)
    requires es != [] && forall i :: 0 <= i < |es| ==> WellFormed(es[i])
    ensures Terms(SpellAll(es)) == if BareDigit(es[|es| - 1]) then Err(EndOfInput) else Ok(es)
  {
    ReadsBackAll(es);
  }

  /** The round trip above, for `es`. */
  predicate ReadsBack(es: seq<Expr>)
    requires es != [] && forall i :: 0 <= i < |es| ==> WellFormed(es[i])
  {
    Terms(SpellAll(es)) == if BareDigit(es[|es| - 1]) then Err(EndOfInput) else Ok(es)
  }

  lemma {:induction false} ReadsBackAll(es: seq<Expr>)
    requires es != [] && forall i :: 0 <= i < |es| ==> WellFormed(es[i])
    ensures ReadsBack(es)
    decreases |es|
  {
    var e := es[0];
    if |es| == 1 {
      assert es == [e];
      LastTermRoundTrip(e);
    } else {
      var rest := es[1..];
      ReadsBackAll(rest);
      JoinRoundTrip(e, rest);
      assert [e] + rest == es;
    }
  }

  /** A term and ';' in front of a formula read back as that term in front of the formula's
      terms, and a failure of the formula stays the failure. */
  lemma JoinRoundTrip(e: Expr, es: seq<Expr>)
    requires WellFormed(e) && es != [] && forall i :: 0 <= i < |es| ==> WellFormed(es[i])
    requires ReadsBack(es)
    ensures forall i :: 0 <= i < |[e] + es| ==> WellFormed(([e] + es)[i])
    ensures ReadsBack([e] + es)
  {
    SpellJoin(e, es);
    var tail := SpellAll(es);
    Operand(e, ';', tail);
    FollowsOn(';', tail, ';');
  }

  /** The last term of a formula is read back on its own, unless it is a single-digit band. */
  lemma LastTermRoundTrip(e: Expr)
    requires WellFormed(e)
    ensures Terms(Spell(e, [])) == if BareDigit(e) then Err(EndOfInput) else Ok([e])
  {
    if BareDigit(e) {
      var ch := DigitChar(e.name.digit);
      DispatchBand([ch]);
      Scan.NonBlankFirst(ch, []);
      assert [ch] + [] == [ch];
    } else {
      TermRoundTrip(e, []);
      assert [e] + [] == [e];
    }
  }

  /** Input that is empty or only whitespace is rejected: there is no first term. */
  lemma BlankInputFails(s: seq<char>)
    requires Scan.AllSpace(s)
    ensures Terms(s) == Err(EndOfInput)
  {
    Scan.SkipSpaceDrops(s);
  }

  lemma FollowsExtends(s: seq<char>, ch: char, w: seq<char>)
    requires Follows(s, ch).Ok?
    ensures Follows(s + w, ch) == Ok(Follows(s, ch).value + w)
  {
    Scan.NextExtends(s, w);
  }

  /** A term that parses keeps parsing the same way whatever is appended after it: the parser
      never looks past the end of a complete term. */
  lemma {:induction false} TermExtends(s: seq<char>, w: seq<char>)
    requires Term(s).Ok?
    ensures Term(s + w) == Ok((Term(s).value.0, Term(s).value.1 + w))
    decreases |s|, 1
  {
    var n := Scan.Next(s).value;
    Scan.NextExtends(s, w);
    var ch := n.0;
    if ch == 'I' || ch == 'S' || ch == 'R' {
      var op := if ch == 'I' then Normalized else if ch == 'S' then Difference else Ratio;
      BinaryTailExtends(op, n.1, w);
    } else if ch == 'D' {
      SumRatioTailExtends(n.1, w);
    } else {
      BandTailExtends(n.1, w);
    }
  }

  lemma {:induction false} BinaryTailExtends(op: BinOp, s: seq<char>, w: seq<char>)
    requires BinaryTail(op, s).Ok?
    ensures BinaryTail(op, s + w) == Ok((BinaryTail(op, s).value.0, BinaryTail(op, s).value.1 + w))
    decreases |s|, 0
  {
    var s1 := Follows(s, '(').value;
    FollowsExtends(s, '(', w);
    var a := Term(s1).value;
    TermExtends(s1, w);
    var s2 := Follows(a.1, ',').value;
    FollowsExtends(a.1, ',', w);
    var b := Term(s2).value;
    TermExtends(s2, w);
    FollowsExtends(b.1, ')', w);
  }

  lemma {:induction false} SumRatioTailExtends(s: seq<char>, w: seq<char>)
    requires SumRatioTail(s).Ok?
    ensures SumRatioTail(s + w) == Ok((SumRatioTail(s).value.0, SumRatioTail(s).value.1 + w))
    decreases |s|, 0
  {
    var s1 := Follows(s, '(').value;
    FollowsExtends(s, '(', w);
    var a := Term(s1).value;
    TermExtends(s1, w);
    var s2 := Follows(a.1, ',').value;
    FollowsExtends(a.1, ',', w);
    var b := Term(s2).value;
    TermExtends(s2, w);
    var s3 := Follows(b.1, ',').value;
    FollowsExtends(b.1, ',', w);
    var c := Term(s3).value;
    TermExtends(s3, w);
    FollowsExtends(c.1, ')', w);
  }

  lemma BandTailExtends(s: seq<char>, w: seq<char>)
    requires BandTail(s).Ok?
    ensures BandTail(s + w) == Ok((BandTail(s).value.0, BandTail(s).value.1 + w))
  {
    var n := Scan.Next(s).value;
    Scan.NextExtends(s, w);
    var p := Scan.Peek(n.1).value;
    Scan.PeekExtends(n.1, w);
    assert Scan.Next(s + w) == Ok((n.0, n.1 + w));
    assert Scan.Peek(n.1 + w) == Ok((p.0, p.1 + w));
    assert (p.1 + w)[1..] == p.1[1..] + w;
  }

  /** A failure other than running out of input is already decided by what was read: appending
      text does not change it. */
  lemma FollowsErrExtends(s: seq<char>, ch: char, w: seq<char>)
    requires Follows(s, ch).Err? && Follows(s, ch).error != EndOfInput
    ensures Follows(s + w, ch) == Follows(s, ch)
  {
    Scan.NextExtends(s, w);
  }

  lemma {:induction false} TermErrExtends(s: seq<char>, w: seq<char>)
    requires Term(s).Err? && Term(s).error != EndOfInput
    ensures Term(s + w) == Term(s)
    decreases |s|, 1
  {
    var n := Scan.Next(s).value;
    Scan.NextExtends(s, w);
    var ch := n.0;
    if ch == 'I' || ch == 'S' || ch == 'R' {
      var op := if ch == 'I' then Normalized else if ch == 'S' then Difference else Ratio;
      BinaryTailErrExtends(op, n.1, w);
    } else if ch == 'D' {
      SumRatioTailErrExtends(n.1, w);
    } else if ch == 'B' {
      BandTailErrExtends(n.1, w);
    }
  }

  /** One operand and the punctuation after it, when together they succeed. */
  lemma {:induction false} OperandExtends(x: seq<char>, sep: char, w: seq<char>)
    requires Term(x).Ok? && Follows(Term(x).value.1, sep).Ok?
    ensures Term(x + w) == Ok((Term(x).value.0, Term(x).value.1 + w))
    ensures Follows(Term(x).value.1 + w, sep) == Ok(Follows(Term(x).value.1, sep).value + w)
    decreases |x|, 2
  {
    TermExtends(x, w);
    FollowsExtends(Term(x).value.1, sep, w);
  }

  /** One operand and the punctuation after it, when together they fail without running out. */
  lemma {:induction false} OperandErrExtends(x: seq<char>, sep: char, w: seq<char>)
    requires var f := Term(x); f.Err? ==> f.error != EndOfInput
    requires Term(x).Ok? ==> var g := Follows(Term(x).value.1, sep); g.Err? && g.error != EndOfInput
    ensures Term(x).Err? ==> Term(x + w) == Term(x)
    ensures Term(x).Ok? ==> (Term(x + w) == Ok((Term(x).value.0, Term(x).value.1 + w)) &&
                             Follows(Term(x).value.1 + w, sep) == Follows(Term(x).value.1, sep))
    decreases |x|, 2
  {
    if Term(x).Err? {
      TermErrExtends(x, w);
    } else {
      TermExtends(x, w);
      FollowsErrExtends(Term(x).value.1, sep, w);
    }
  }

  lemma {:induction false} BinaryTailErrExtends(op: BinOp, s: seq<char>, w: seq<char>)
    requires BinaryTail(op, s).Err? && BinaryTail(op, s).error != EndOfInput
    ensures BinaryTail(op, s + w) == BinaryTail(op, s)
    decreases |s|, 0
  {
    var f := Follows(s, '(');
    if f.Err? {
      FollowsErrExtends(s, '(', w);
    } else {
      FollowsExtends(s, '(', w);
      var s1 := f.value;
      if Term(s1).Err? || Follows(Term(s1).value.1, ',').Err? {
        OperandErrExtends(s1, ',', w);
      } else {
        OperandExtends(s1, ',', w);
        OperandErrExtends(Follows(Term(s1).value.1, ',').value, ')', w);
      }
    }
  }

  lemma {:induction false} SumRatioTailErrExtends(s: seq<char>, w: seq<char>)
    requires SumRatioTail(s).Err? && SumRatioTail(s).error != EndOfInput
    ensures SumRatioTail(s + w) == SumRatioTail(s)
    decreases |s|, 0
  {
    var f := Follows(s, '(');
    if f.Err? {
      FollowsErrExtends(s, '(', w);
    } else {
      FollowsExtends(s, '(', w);
      var s1 := f.value;
      if Term(s1).Err? || Follows(Term(s1).value.1, ',').Err? {
        OperandErrExtends(s1, ',', w);
      } else {
        OperandExtends(s1, ',', w);
        var s2 := Follows(Term(s1).value.1, ',').value;
        if Term(s2).Err? || Follows(Term(s2).value.1, ',').Err? {
          OperandErrExtends(s2, ',', w);
        } else {
          OperandExtends(s2, ',', w);
          OperandErrExtends(Follows(Term(s2).value.1, ',').value, ')', w);
        }
      }
    }
  }

  lemma BandTailErrExtends(s: seq<char>, w: seq<char>)
    requires BandTail(s).Err? && BandTail(s).error != EndOfInput
    ensures BandTail(s + w) == BandTail(s)
  {
    var n := Scan.Next(s).value;
    Scan.NextExtends(s, w);
    Scan.PeekExtends(n.1, w);
  }

  /** Input that runs out inside a term raises IndexError: every proper prefix of a term's
      spelling fails with EndOfInput, however the term goes on. */
  lemma TruncatedTermFails(e: Expr, k: nat)
    requires WellFormed(e) && k < |Spell(e, [])|
    ensures Term(Spell(e, [])[..k]) == Err(EndOfInput)
    ensures Terms(Spell(e, [])[..k]) == Err(EndOfInput)
  {
    var full := Spell(e, []);
    var p, w := full[..k], full[k..];
    assert p + w == full;
    if BareDigit(e) {
      if k == 1 {
        assert p == ['B'];
        DispatchBand([]);
      }
    } else {
      TermRoundTrip(e, []);
      if Term(p).Ok? {
        TermExtends(p, w);
      } else if Term(p).error != EndOfInput {
        TermErrExtends(p, w);
      }
    }
  }

  /** Whitespace after the last term is rejected: the loop sees input left and demands a ';',
      and the lexer runs out looking for it. */
  lemma {:induction false} TrailingSpaceFails(s: seq<char>, w: seq<char>)
    requires Terms(s).Ok?
    requires w != [] && Scan.AllSpace(w)
    ensures Terms(s + w) == Err(EndOfInput)
    decreases |s|
  {
    var p := Term(s).value;
    TermExtends(s, w);
    if p.1 == [] {
      assert p.1 + w == w;
      Scan.SkipSpaceDrops(w);
    } else {
      var rest := Follows(p.1, ';').value;
      FollowsExtends(p.1, ';', w);
      TrailingSpaceFails(rest, w);
    }
  }

  /** A term starts with one of I, S, R, D, B; any other first character is a KeyError. */
  lemma TermLetters(s: seq<char>)
    requires Scan.Next(s).Ok?
    ensures var ch := Scan.Next(s).value.0;
      ch !in {'I', 'S', 'R', 'D', 'B'} ==> Term(s) == Err(UnknownTerm(ch))
    ensures Term(s).Ok? ==> Scan.Next(s).value.0 == Head(Term(s).value.0)
  {
  }

  /** The letter a term's spelling starts with. */
  function Head(e: Expr): char {
    match e
    case Binary(op, _, _) => Letter(op)
    case SumRatio(_, _, _) => 'D'
    case Band(_) => 'B'
  }

  /** I, S and R take exactly two operands: a third is a SyntaxError at its comma. */
  lemma BinaryRejectsThirdOperand(op: BinOp, a: Expr, b: Expr, tail: seq<char>)
    requires WellFormed(a) && WellFormed(b)
    ensures Term([Letter(op)] + (['('] + Spell(a, [','] + Spell(b, [','] + tail)))) == Err(Unexpected(')', ','))
  {
    var x3 := Spell(b, [','] + tail);
    var x2 := Spell(a, [','] + x3);
    DispatchBinary(op, ['('] + x2);
    Operand(a, ',', x3);
    Operand(b, ',', tail);
    BinaryTailSteps(op, x2, x3, a, b, [','] + tail);
    FollowsOn(',', tail, ')');
  }

  /** D takes exactly three operands: closing after two is a SyntaxError. */
  lemma SumRatioRejectsTwoOperands(a: Expr, b: Expr, tail: seq<char>)
    requires WellFormed(a) && WellFormed(b)
    ensures Term(['D'] + (['('] + Spell(a, [','] + Spell(b, [')'] + tail)))) == Err(Unexpected(',', ')'))
  {
    var x3 := Spell(b, [')'] + tail);
    var x2 := Spell(a, [','] + x3);
    DispatchSumRatio(['('] + x2);
    Operand(a, ',', x3);
    Operand(b, ')', tail);
    SumRatioRejectsSteps(x2, x3, a, b, tail);
  }

  lemma SumRatioRejectsSteps(x2: seq<char>, x3: seq<char>, a: Expr, b: Expr, tail: seq<char>)
    requires Term(x2) == Ok((a, [','] + x3))
    requires Term(x3) == Ok((b, [')'] + tail))
    ensures SumRatioTail(['('] + x2) == Err(Unexpected(',', ')'))
  {
    FollowsOn('(', x2, '(');
    FollowsOn(',', x3, ',');
    FollowsOn(')', tail, ',');
  }

  /** parse_B takes any non-blank character after the B, the separators ';' and ',' included,
      so such a character belongs to the band rather than ending it: "B;A" is one letter-A band
      and "B;1" one two-digit band, not a band followed by a second term. */
  lemma SeparatorInsideBand(c: char, u: char, l: char)
    requires !Scan.IsSpace(c) && Scan.IsDigit(u) && Scan.IsLetterA(l)
    ensures Terms(['B', c, l]) == Ok([Band(LetterA(c, l))])
    ensures Terms(['B', c, u]) == Ok([Band(TwoDigit(c, u))])
  {
    var letterA, twoDigit := Band(LetterA(c, l)), Band(TwoDigit(c, u));
    assert SpellAll([letterA]) == ['B', c, l];
    TermsRoundTrip([letterA]);
    assert SpellAll([twoDigit]) == ['B', c, u];
    TermsRoundTrip([twoDigit]);
  }

  /** The same inside an operand: in "I(B,A,B01)" the first operand is the band "B,A". */
  lemma CommaInsideOperand()
    ensures Terms("I(B,A,B01)") ==
      Ok([Binary(Normalized, Band(LetterA(',', 'A')), Band(TwoDigit('0', '1')))])
  {
    var i := Binary(Normalized, Band(LetterA(',', 'A')), Band(TwoDigit('0', '1')));
    assert SpellAll([i]) == "I(B,A,B01)";
    TermsRoundTrip([i]);
  }
}
