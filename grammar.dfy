/** The reference parser: what each parse_* routine returns and what input it leaves, as
    functions from the remaining characters. */
module Grammar {
  import opened Errors
  import opened Syntax
  import Scan

  /** ensure_follows: the next non-blank character must be `expected`. */
  function Follows(s: seq<char>, expected: char): (r: Result<seq<char>>)
    ensures r.Ok? ==> |r.value| < |s|
  {
    var n :- Scan.Next(s);
    if n.0 == expected then Ok(n.1) else Err(Unexpected(expected, n.0))
  }

  /** parse_T: the first non-blank character chooses the kind of term. */
  function Term(s: seq<char>): (r: Result<(Expr, seq<char>)>)
    ensures r.Ok? ==> |r.value.1| < |s|
    decreases |s|, 1
  {
    var n :- Scan.Next(s);
    var (ch, rest) := n;
    if ch == 'I' then BinaryTail(Normalized, rest)
    else if ch == 'S' then BinaryTail(Difference, rest)
    else if ch == 'R' then BinaryTail(Ratio, rest)
    else if ch == 'D' then SumRatioTail(rest)
    else if ch == 'B' then BandTail(rest)
    else Err(UnknownTerm(ch))
  }

  /** parse_I, parse_S and parse_R after their letter: "(T,T)". */
  function BinaryTail(op: BinOp, s: seq<char>): (r: Result<(Expr, seq<char>)>)
    ensures r.Ok? ==> |r.value.1| < |s| && r.value.0.Binary? && r.value.0.op == op
    decreases |s|, 0
  {
    var s1 :- Follows(s, '(');
    var a :- Term(s1);
    var s2 :- Follows(a.1, ',');
    var b :- Term(s2);
    var s3 :- Follows(b.1, ')');
    Ok((Binary(op, a.0, b.0), s3))
  }

  /** parse_D after its letter: "(T,T,T)". */
  function SumRatioTail(s: seq<char>): (r: Result<(Expr, seq<char>)>)
    ensures r.Ok? ==> |r.value.1| < |s| && r.value.0.SumRatio?
    decreases |s|, 0
  {
    var s1 :- Follows(s, '(');
    var a :- Term(s1);
    var s2 :- Follows(a.1, ',');
    var b :- Term(s2);
    var s3 :- Follows(b.1, ',');
    var c :- Term(s3);
    var s4 :- Follows(c.1, ')');
    Ok((SumRatio(a.0, b.0, c.0), s4))
  }

  /** parse_B after its letter: the next character, then a peek at the one after it. */
  function BandTail(s: seq<char>): (r: Result<(Expr, seq<char>)>)
    ensures r.Ok? ==> |r.value.1| < |s| && r.value.0.Band?
  {
    var n :- Scan.Next(s);
    var p :- Scan.Peek(n.1);
    var (num, nxt, t) := (n.0, p.0, p.1);
    if Scan.IsDigit(nxt) then Ok((Band(TwoDigit(num, nxt)), t[1..]))
    else if Scan.IsLetterA(nxt) then Ok((Band(LetterA(num, nxt)), t[1..]))
    else if Scan.IsDigit(num) then Ok((Band(OneDigit(Scan.DigitValue(num))), t))
    else Err(NotADigit(num))
  }

  /** Prepends the terms already parsed to a successful parse of the rest. */
  function Prefixed(done: seq<Expr>, r: Result<seq<Expr>>): Result<seq<Expr>> {
    if r.Ok? then Ok(done + r.value) else r
  }

  lemma PrefixedTwice(a: seq<Expr>, b: seq<Expr>, r: Result<seq<Expr>>)
    ensures Prefixed(a, Prefixed(b, r)) == Prefixed(a + b, r)
  {
    if r.Ok? {
      assert a + (b + r.value) == (a + b) + r.value;
    }
  }

  /** parse_E: E -> T | T;E, where the whole input must be consumed. */
  function Terms(s: seq<char>): (r: Result<seq<Expr>>)
    ensures r.Ok? ==> |r.value| >= 1
    decreases |s|
  {
    var p :- Term(s);
    Prefixed([p.0], Continue(p.1))
  }

  /** What follows a term: nothing, or ';' and more terms. The loop adds terms exactly when
      input is left, and input that is only whitespace demands a ';' and raises IndexError. */
  function Continue(s: seq<char>): (r: Result<seq<Expr>>)
    ensures r == Ok([]) <==> s == []
    ensures s != [] && Scan.SkipSpace(s) == [] ==> r == Err(EndOfInput)
    decreases |s|
  {
    if s == [] then Ok([])
    else
      var rest :- Follows(s, ';');
      Terms(rest)
  }
}
