/** The lexer: a list of characters that the parser consumes from the front, in place. */
module Lexing {
  import opened Errors
  import Scan

  class Lexer {
    /** The characters not yet consumed. */
    var chars: seq<char>

    constructor (s: seq<char>)
      ensures chars == s
    {
      chars := s;
    }

    /** The truth value of the list: when it is false, next and peek raise IndexError; when the
        first character is not blank, next pops it. */
    predicate HasInput(): (r: bool)
      reads this
      ensures !r ==> Scan.Next(chars) == Err(EndOfInput) && Scan.Peek(chars) == Err(EndOfInput)
      ensures chars != [] && !Scan.IsSpace(chars[0]) ==> r && Scan.Next(chars) == Ok((chars[0], chars[1..]))
    {
      chars != []
    }

    /** Pops whitespace until a non-blank character is first; running out is an IndexError. */
    method SkipWhitespace() returns (r: Result<()>)
      modifies this
      ensures chars == Scan.SkipSpace(old(chars))
      ensures r.Ok? <==> chars != []
      ensures r.Err? ==> r.error == EndOfInput
    {
      while chars != [] && Scan.IsSpace(chars[0])
        invariant Scan.SkipSpace(chars) == Scan.SkipSpace(old(chars))
        decreases |chars|
      {
        chars := chars[1..];
      }
      if chars == [] {
        return Err(EndOfInput);
      }
      return Ok(());
    }

    /** Removes and returns the first character; an empty list is an IndexError. */
    method PopLeft() returns (r: Result<char>)
      modifies this
      ensures old(chars) == [] ==> r == Err(EndOfInput) && chars == old(chars)
      ensures old(chars) != [] ==> r == Ok(old(chars)[0]) && chars == old(chars)[1..]
    {
      if chars == [] {
        return Err(EndOfInput);
      }
      r := Ok(chars[0]);
      chars := chars[1..];
    }

    method Next() returns (r: Result<char>)
      modifies this
      ensures r.Ok? <==> Scan.Next(old(chars)).Ok?
      ensures r.Ok? ==> (r.value, chars) == Scan.Next(old(chars)).value
      ensures r.Err? ==> r.error == EndOfInput && chars == []
    {
      var skipped :- SkipWhitespace();
      r := PopLeft();
    }

    method Peek() returns (r: Result<char>)
      modifies this
      ensures r.Ok? <==> Scan.Peek(old(chars)).Ok?
      ensures r.Ok? ==> (r.value, chars) == Scan.Peek(old(chars)).value
      ensures r.Err? ==> r.error == EndOfInput && chars == []
    {
      var skipped :- SkipWhitespace();
      r := Ok(chars[0]);
    }
  }
}
