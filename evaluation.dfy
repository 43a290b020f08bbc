/** Applying parsed terms to a band vector: the closures built by parse_I, parse_S, parse_R,
    parse_D and parse_B, and FeatureExtendedExtractor.__call__. */
module Evaluation {
  import opened Errors
  import opened Syntax
  import Scan

  /** The index a band reference reads, computed when the formula is applied. Only a two-digit
      band can fail, with the first of its characters that is not a digit; B?A always reads 8,
      and a single-digit band never does. */
  function BandIndex(b: BandName): (r: Result<int>)
    ensures r.Err? <==> b.TwoDigit? && !(Scan.IsDigit(b.tens) && Scan.IsDigit(b.units))
    ensures r.Err? ==> r.error == NotADigit(if Scan.IsDigit(b.tens) then b.units else b.tens)
    ensures b.TwoDigit? && r.Ok? ==> 0 <= r.value <= 99
    ensures b.LetterA? ==> r == Ok(8)
    ensures b.OneDigit? ==> r.Ok? && -1 <= r.value && r.value != 8
  {
    match b
    case TwoDigit(t, u) =>
      if !Scan.IsDigit(t) then Err(NotADigit(t))
      else if !Scan.IsDigit(u) then Err(NotADigit(u))
      else Ok(10 * Scan.DigitValue(t) + Scan.DigitValue(u))
    case LetterA(_, _) => Ok(8)
    case OneDigit(d) =>
      var nr := d - 1;
      Ok(if nr < 8 then nr else nr + 1)
  }

  /** Python's x[i]: a negative index counts from the end. */
  function At(x: seq<real>, i: int): (r: Result<real>)
    ensures r.Ok? <==> -|x| <= i < |x|
    ensures r.Err? ==> r.error == NoSuchBand(i)
    ensures r.Ok? && 0 <= i ==> r.value == x[i]
    ensures r.Ok? && i < 0 ==> r.value == x[|x| + i]
  {
    if 0 <= i < |x| then Ok(x[i])
    else if -|x| <= i < 0 then Ok(x[|x| + i])
    else Err(NoSuchBand(i))
  }

  /** The value of a term on the vector `x`; operands are evaluated left to right, each on
      the same `x`, and the first error raised is the result. */
  function Eval(e: Expr, x: seq<real>): (r: Result<real>)
    ensures r.Err? ==> r.error == ZeroDivision || r.error.NotADigit? || r.error.NoSuchBand?
    ensures e.Band? ==> (r.Ok? <==> BandIndex(e.name).Ok? && -|x| <= BandIndex(e.name).value < |x|)
  {
    match e
    case Binary(op, a, b) =>
      var va :- Eval(a, x);
      var vb :- Eval(b, x);
      (match op
       case Normalized => if va + vb == 0.0 then Err(ZeroDivision) else Ok((va - vb) / (va + vb))
       case Difference => Ok(va - vb)
       case Ratio => if vb == 0.0 then Err(ZeroDivision) else Ok(va / vb))
    case SumRatio(a, b, c) =>
      var va :- Eval(a, x);
      var vb :- Eval(b, x);
      var vc :- Eval(c, x);
      if vc == 0.0 then Err(ZeroDivision) else Ok((va + vb) / vc)
    case Band(name) =>
      var i :- BandIndex(name);
      At(x, i)
  }

  /** __call__: every parsed term applied to `x`, in order; the first error aborts the list. */
  function Call(parsed: seq<Expr>, x: seq<real>): (r: Result<seq<real>>)
    ensures r.Ok? <==> forall i :: 0 <= i < |parsed| ==> Eval(parsed[i], x).Ok?
    ensures r.Ok? ==> (|r.value| == |parsed| &&
                       forall i :: 0 <= i < |parsed| ==> Eval(parsed[i], x) == Ok(r.value[i]))
    ensures r.Err? ==> (exists i :: 0 <= i < |parsed| && Eval(parsed[i], x) == Err(r.error) &&
                                   forall j :: 0 <= j < i ==> Eval(parsed[j], x).Ok?)
  {
    if parsed == [] then Ok([])
    else
      var v :- Eval(parsed[0], x);
      var vs :- Call(parsed[1..], x);
      Ok([v] + vs)
  }
}
