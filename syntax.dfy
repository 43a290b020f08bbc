/** The parsed form of a band formula, and its canonical spelling. */
module Syntax {
  import Scan

  /** The three two-operand terms: I (normalised difference), S (difference), R (ratio). */
  datatype BinOp = Normalized | Difference | Ratio

  /** A band reference as parse_B leaves it. The two-digit case keeps the raw tens character
      because it is converted only when the formula is applied; the letter-A case never
      looks at its code character. */
  datatype BandName =
    | TwoDigit(tens: char, units: char)   // B<tens><digit>
    | LetterA(code: char, letter: char)   // B<code>A or B<code>a
    | OneDigit(digit: nat)                // B<digit>, checked when parsed

  datatype Expr =
    | Binary(op: BinOp, left: Expr, right: Expr)
    | SumRatio(first: Expr, second: Expr, divisor: Expr)   // D(a,b,c) = (a+b)/c
    | Band(name: BandName)

  function Letter(op: BinOp): char {
    match op
    case Normalized => 'I'
    case Difference => 'S'
    case Ratio => 'R'
  }

  function DigitChar(d: nat): char
    requires d < 10
  {
    ('0' as int + d) as char
  }

  /** The shapes the parser can produce. */
  predicate WellFormed(e: Expr) {
    match e
    case Binary(_, a, b) => WellFormed(a) && WellFormed(b)
    case SumRatio(a, b, c) => WellFormed(a) && WellFormed(b) && WellFormed(c)
    case Band(TwoDigit(t, u)) => !Scan.IsSpace(t) && Scan.IsDigit(u)
    case Band(LetterA(c, l)) => !Scan.IsSpace(c) && Scan.IsLetterA(l)
    case Band(OneDigit(d)) => d < 10
  }

  /** A single-digit band standing alone, which needs a following character to be parsed. */
  predicate BareDigit(e: Expr) {
    e.Band? && e.name.OneDigit?
  }

  /** The spelling of a term, without whitespace, in front of `rest`. */
  function Spell(e: Expr, rest: seq<char>): seq<char>
    requires WellFormed(e)
  {
    match e
    case Binary(op, a, b) => [Letter(op)] + (['('] + Spell(a, [','] + Spell(b, [')'] + rest)))
    case SumRatio(a, b, c) => ['D'] + (['('] + Spell(a, [','] + Spell(b, [','] + Spell(c, [')'] + rest))))
    case Band(TwoDigit(t, u)) => ['B'] + ([t] + ([u] + rest))
    case Band(LetterA(c, l)) => ['B'] + ([c] + ([l] + rest))
    case Band(OneDigit(d)) => ['B'] + ([DigitChar(d)] + rest)
  }

  /** Terms joined by ';'. */
  function SpellAll(es: seq<Expr>): seq<char>
    requires es != [] && forall i :: 0 <= i < |es| ==> WellFormed(es[i])
  {
    if |es| == 1 then Spell(es[0], []) else Spell(es[0], [';'] + SpellAll(es[1..]))
  }

  /** Putting a term in front of a list puts its spelling and a ';' in front of the list's. */
  lemma SpellJoin(e: Expr, es: seq<Expr>)
    requires WellFormed(e) && es != [] && forall i :: 0 <= i < |es| ==> WellFormed(es[i])
    ensures forall i :: 0 <= i < |[e] + es| ==> WellFormed(([e] + es)[i])
    ensures ([e] + es)[|es|] == es[|es| - 1]
    ensures SpellAll([e] + es) == Spell(e, [';'] + SpellAll(es))
  {
    assert ([e] + es)[1..] == es;
  }
}
