/** Character classes and the pure meaning of the lexer's operations on a list of characters. */
module Scan {
  import opened Errors

  /** Python's str.isspace on a single character: the Unicode whitespace code points. None of
      them is a character the grammar reads. */
  predicate IsSpace(c: char): (r: bool)
    ensures c == ' ' || c == '\t' || c == '\n' || c == '\r' ==> r
    ensures r ==> !IsDigit(c) && !IsLetterA(c) && c !in "ISRDB(),;"
  {
    var n := c as int;
    n == 0x20 || 0x09 <= n <= 0x0D || 0x1C <= n <= 0x1F || n == 0x85 || n == 0xA0 ||
    n == 0x1680 || 0x2000 <= n <= 0x200A || n == 0x2028 || n == 0x2029 ||
    n == 0x202F || n == 0x205F || n == 0x3000
  }

  /** str.isdigit, restricted to the ASCII digits. */
  predicate IsDigit(c: char): (r: bool)
    ensures r <==> c in "0123456789"
  {
    '0' <= c <= '9'
  }

  /** int(c) for a digit character: the digit it writes. */
  function DigitValue(c: char): (r: nat)
    requires IsDigit(c)
    ensures r <= 9 && c as int == '0' as int + r
  {
    (c as int) - ('0' as int)
  }

  /** c.lower() == 'a' */
  predicate IsLetterA(c: char): (r: bool)
    ensures r ==> !IsDigit(c) && c in "aA"
  {
    c == 'a' || c == 'A'
  }

  predicate AllSpace(s: seq<char>) {
    forall i :: 0 <= i < |s| ==> IsSpace(s[i])
  }

  /** What is left of `s` after skip_whitespace has popped its leading whitespace. */
  function SkipSpace(s: seq<char>): (r: seq<char>)
    ensures |r| <= |s|
    ensures r != [] ==> !IsSpace(r[0])
  {
    if s != [] && IsSpace(s[0]) then SkipSpace(s[1..]) else s
  }

  /** skip_whitespace pops exactly the leading whitespace: what it pops is all blank, and what
      it leaves is the rest of `s`, unchanged, starting at a non-blank character if any. */
  lemma {:induction false} SkipSpaceDrops(s: seq<char>)
    ensures var r := SkipSpace(s);
      r == s[|s| - |r|..] && AllSpace(s[..|s| - |r|]) && (r == [] <==> AllSpace(s))
  {
    if s != [] && IsSpace(s[0]) {
      SkipSpaceDrops(s[1..]);
      var r := SkipSpace(s[1..]);
      assert s[..|s| - |r|] == [s[0]] + s[1..][..|s| - 1 - |r|];
      if !AllSpace(s[1..]) {
        var i :| 0 <= i < |s[1..]| && !IsSpace(s[1..][i]);
        assert s[i + 1] == s[1..][i];
      }
    } else if s != [] {
      assert !IsSpace(s[0]);
    }
  }

  /** `next`: skip whitespace, then pop the first character; running out is an error. */
  function Next(s: seq<char>): (r: Result<(char, seq<char>)>)
    ensures r.Ok? ==> |r.value.1| < |s|
  {
    var t := SkipSpace(s);
    if t == [] then Err(EndOfInput) else Ok((t[0], t[1..]))
  }

  /** `peek`: skip whitespace and report the first character without popping it. */
  function Peek(s: seq<char>): (r: Result<(char, seq<char>)>)
    ensures r.Ok? ==> r.value.1 != [] && |r.value.1| <= |s|
  {
    var t := SkipSpace(s);
    if t == [] then Err(EndOfInput) else Ok((t[0], t))
  }

  /** `next` fails exactly on blank input; otherwise it drops the leading whitespace, pops one
      non-blank character and leaves the rest of the input unchanged. */
  lemma NextPops(s: seq<char>)
    ensures Next(s).Ok? <==> !AllSpace(s)
    ensures Next(s).Ok? ==> var k := |s| - |Next(s).value.1| - 1;
      0 <= k && AllSpace(s[..k]) && s[k] == Next(s).value.0 && !IsSpace(s[k]) &&
      Next(s).value.1 == s[k + 1..]
  {
    SkipSpaceDrops(s);
  }

  /** `peek` fails exactly on blank input; otherwise it drops the leading whitespace and leaves
      the non-blank character it reports in place. */
  lemma PeekKeeps(s: seq<char>)
    ensures Peek(s).Ok? <==> !AllSpace(s)
    ensures Peek(s).Ok? ==> var k := |s| - |Peek(s).value.1|;
      AllSpace(s[..k]) && s[k] == Peek(s).value.0 && !IsSpace(s[k]) && Peek(s).value.1 == s[k..]
  {
    SkipSpaceDrops(s);
  }

  /** On a non-blank first character, `next` pops it and `peek` reports it. */
  lemma NonBlankFirst(c: char, t: seq<char>)
    requires !IsSpace(c)
    ensures Next([c] + t) == Ok((c, t))
    ensures Peek([c] + t) == Ok((c, [c] + t))
  {
    assert ([c] + t)[1..] == t;
  }

  /** `next` is `peek` followed by popping the character peeked at. */
  lemma NextIsPeekThenPop(s: seq<char>)
    ensures Next(s).Ok? <==> Peek(s).Ok?
    ensures Next(s).Ok? ==> Next(s).value == (Peek(s).value.0, Peek(s).value.1[1..])
  {
  }

  /** Once a non-blank character is in sight, appending to the input only appends to what remains. */
  lemma {:induction false} SkipSpaceExtends(s: seq<char>, w: seq<char>)
    requires !AllSpace(s)
    ensures SkipSpace(s + w) == SkipSpace(s) + w
  {
    SkipSpaceDrops(s);
    if s != [] && IsSpace(s[0]) {
      assert (s + w)[1..] == s[1..] + w;
      assert !AllSpace(s[1..]) by {
        var i :| 0 <= i < |s| && !IsSpace(s[i]);
        assert s[1..][i - 1] == s[i];
      }
      SkipSpaceExtends(s[1..], w);
    } else {
      assert s != [];
      assert (s + w)[0] == s[0];
    }
  }

  lemma NextExtends(s: seq<char>, w: seq<char>)
    requires Next(s).Ok?
    ensures Next(s + w) == Ok((Next(s).value.0, Next(s).value.1 + w))
  {
    SkipSpaceDrops(s);
    SkipSpaceExtends(s, w);
    var t := SkipSpace(s);
    assert (t + w)[1..] == t[1..] + w;
  }

  lemma PeekExtends(s: seq<char>, w: seq<char>)
    requires Peek(s).Ok?
    ensures Peek(s + w) == Ok((Peek(s).value.0, Peek(s).value.1 + w))
  {
    SkipSpaceDrops(s);
    SkipSpaceExtends(s, w);
  }

  /** The characters of `s` that are not whitespace, in order. */
  function Unspaced(s: seq<char>): seq<char> {
    if s == [] then []
    else if IsSpace(s[0]) then Unspaced(s[1..])
    else [s[0]] + Unspaced(s[1..])
  }

  /** `r` is what is left of `s` once some characters have been taken from its front. */
  predicate Suffix(r: seq<char>, s: seq<char>) {
    |r| <= |s| && s[|s| - |r|..] == r
  }

  lemma SuffixTrans(a: seq<char>, b: seq<char>, c: seq<char>)
    requires Suffix(a, b) && Suffix(b, c)
    ensures Suffix(a, c)
  {
    assert c[|c| - |a|..] == c[|c| - |b|..][|b| - |a|..];
  }

  lemma {:induction false} UnspacedSkip(s: seq<char>)
    ensures Unspaced(SkipSpace(s)) == Unspaced(s)
  {
    if s != [] && IsSpace(s[0]) {
      UnspacedSkip(s[1..]);
    }
  }

  /** What `next` takes from the front of the input is whitespace and the character it returns. */
  lemma NextTakes(s: seq<char>)
    requires Next(s).Ok?
    ensures Suffix(Next(s).value.1, s)
    ensures Unspaced(s) == [Next(s).value.0] + Unspaced(Next(s).value.1)
  {
    SkipSpaceDrops(s);
    UnspacedSkip(s);
    var t := SkipSpace(s);
    assert s[|s| - |t[1..]|..] == t[1..];
  }

  /** What `peek` takes from the front of the input is whitespace only. */
  lemma PeekTakes(s: seq<char>)
    requires Peek(s).Ok?
    ensures Suffix(Peek(s).value.1, s)
    ensures Unspaced(s) == Unspaced(Peek(s).value.1)
  {
    SkipSpaceDrops(s);
    UnspacedSkip(s);
  }

  /** `next` reads the same character from the input with its whitespace removed, and what it
      leaves there is the rest of the input with its whitespace removed; both fail alike. */
  lemma NextUnspaced(s: seq<char>)
    ensures var r := Next(s);
      Next(Unspaced(s)) == if r.Ok? then Ok((r.value.0, Unspaced(r.value.1))) else r
  {
    UnspacedSkip(s);
    var t := SkipSpace(s);
    if t != [] {
      NonBlankFirst(t[0], Unspaced(t[1..]));
    }
  }

  /** The same for `peek`. */
  lemma PeekUnspaced(s: seq<char>)
    ensures var r := Peek(s);
      Peek(Unspaced(s)) == if r.Ok? then Ok((r.value.0, Unspaced(r.value.1))) else r
  {
    UnspacedSkip(s);
    var t := SkipSpace(s);
    if t != [] {
      NonBlankFirst(t[0], Unspaced(t[1..]));
    }
  }

  /** Input that does not end in whitespace: what is left of it after some characters have been
      taken does not either, and it still holds a non-blank character unless nothing is left. */
  predicate EndsBlankFree(s: seq<char>) {
    s == [] || !IsSpace(s[|s| - 1])
  }

  lemma SuffixEndsBlankFree(r: seq<char>, s: seq<char>)
    requires Suffix(r, s) && EndsBlankFree(s)
    ensures EndsBlankFree(r)
    ensures r != [] ==> Unspaced(r) != []
  {
    if r != [] {
      assert r[|r| - 1] == s[|s| - 1];
      LastKept(r);
    }
  }

  lemma {:induction false} LastKept(s: seq<char>)
    requires s != [] && !IsSpace(s[|s| - 1])
    ensures Unspaced(s) != []
  {
    if IsSpace(s[0]) {
      assert s[1..][|s| - 2] == s[|s| - 1];
      LastKept(s[1..]);
    }
  }
}
