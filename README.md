# Band-formula extractor of eo-learn, in Dafny

This project models the small formula language of eo-learn's feature extractor
(`features/eolearn/features/feature_extractor.py`). A formula is a `;`-separated list of terms.
Each term is built from the grammar

    E -> T | T;E
    T -> I(T,T) | S(T,T) | D(T,T,T) | R(T,T) | B

A term denotes a function of a band vector `x`:

- `I(a,b) = (a-b)/(a+b)`
- `S(a,b) = a-b`
- `R(a,b) = a/b`
- `D(a,b,c) = (a+b)/c`
- `B..` selects one entry of `x`

The source has two parts. `Lexer` is a Python list of characters that is consumed from the front in
place. `FeatureExtendedExtractor` is a recursive-descent parser that advances one shared lexer.
Its constructor keeps the parsed terms, and calling it applies every term to a vector.

The model has the same two layers, plus a reference layer:

- `Errors`: the exceptions the source raises.
  - `EndOfInput`: the IndexError from indexing or popping an empty list.
  - `UnknownTerm`: the KeyError from parse_T's dispatch dictionary.
  - `Unexpected`: the SyntaxError of ensure_follows.
  - `NotADigit`: the ValueError of `int()`.
  - `ZeroDivision`: division by zero.
  - `NoSuchBand`: an index outside the vector.
- `Scan`: Python's `isspace`, `isdigit` and `lower() == 'a'` on one character. Also the pure
  meaning of `skip_whitespace`, `next` and `peek` on a character sequence.
- `Lexing.Lexer`: a class whose field `chars` is the list. It has the methods `SkipWhitespace` (a
  while loop that pops), `PopLeft`, `Next` and `Peek`. Each method is proved to leave `chars` as
  the `Scan` function predicts.
- `Syntax`: the parsed form. `Expr` has three constructors: `Binary` (I, S, R), `SumRatio` (D) and
  `Band`. It also gives `Spell`, the spelling of a term without whitespace.
  - `BandName` keeps the raw characters where the source defers or skips the digit check.
  - `TwoDigit` keeps the tens character unconverted, because `int()` runs only when the formula
    is applied.
  - `LetterA` keeps a code character that is never looked at.
  - `OneDigit` holds the value `int()` produced while parsing.
- `Grammar`: the reference parser. For each `parse_*` routine it has a function from the remaining
  input to the term it returns and the input it leaves, or the error it raises.
- `Parser`: the parse methods, written as the source writes them, mutating one `Lexer`. Each
  method's postcondition says that it returns what the matching `Grammar` function returns. It also
  says that it leaves the lexer where that function says. `ParseE` is the `while lexer` loop.
  `Build` is the constructor.
- `GrammarFacts`: what the grammar accepts and rejects.
  - A well-formed term is read back from its spelling. A single-digit band is read back only when
    the next non-blank character is not a digit and not 'a'/'A'.
  - Terms joined by ';' are read back as that list, in order, unless the last term is a
    single-digit band; then `peek` runs off the end and the parse raises IndexError.
  - A complete term is unaffected by what follows it.
  - A failure other than IndexError is decided by the text already read.
  - Input that runs out inside a term raises IndexError, at every proper prefix of its spelling.
  - Blank input and trailing whitespace are rejected.
  - I, S or R given a third operand, and D closed after two, raise SyntaxError.
- `GrammarSoundness`: the converse, about every input that parses.
  - The parser reads only from the front of its input.
  - Its input, without whitespace, is the spelling of what it returns followed by what it leaves.
  - So, up to whitespace, I, S and R accept only `(T,T)` and D only `(T,T,T)`.
  - A whole formula, without its whitespace, is its terms' spellings joined by ';', in order.
    A band's second character may itself be ';' or ',': `B;A` is one band, not two terms.
  - Removing the whitespace from a formula that parses does not change its terms.
- `GrammarSpaces`: whitespace, in both directions.
  - Every parse routine returns the same term, or raises the same error, on its input with the
    whitespace removed, and what it leaves is what it left before, without whitespace.
  - So a formula that does not end in whitespace parses exactly as it does without whitespace,
    errors included. `" B01"`, `"B1 ;B01"` and `"I(B08, B04)"` parse like `"B01"`, `"B1;B01"` and
    `"I(B08,B04)"`.
  - Together with the round trip, such a formula parses to a list of terms exactly when, without
    its whitespace, it is their spellings joined by ';' and the last is not a single-digit band.
    With the round trip, I, S and R therefore accept exactly `(T,T)` and D exactly `(T,T,T)`.
- `Evaluation` and `EvaluationFacts`: `BandIndex`, Python's `x[i]`, the value of a term, and
  `__call__`, with facts about which band each spelling selects and about the arithmetic.

Whitespace may appear before any character the parser reads with `next` or `peek`. It follows
Python's `str.isspace`, code point by code point. Except at the very end of a formula, it never
changes the result. One quirk of `parse_B` is modelled as written
and proved as a lemma. The grammar lists bands as `B01 ... B12` without saying which entry each
selects, so it is not evident which spelling is the wrong one:

- For `d` in 1..8, the zero-padded spelling `B0d` reads index `d`, while `Bd` reads `d-1`.
  `B09` and `B9` both read index 9.
- So `B01` and `B1` select different entries.
- `B08` reads index 8, the same entry as `B8A`.

The surrounding system also contains a dependency-graph workflow executor. It is not part of this
model.

## Model

| member | source | states |
|---|---|---|
| Scan.IsSpace | features/eolearn/features/feature_extractor.py:23 | str.isspace on one character. It holds for space, tab, newline and carriage return, and never for a digit, 'a'/'A' or a character the grammar reads. The code points are U+0009-U+000D, U+001C-U+0020, U+0085, U+00A0, U+1680, U+2000-U+200A, U+2028, U+2029, U+202F, U+205F and U+3000 |
| Scan.IsDigit | features/eolearn/features/feature_extractor.py:117 | str.isdigit holds exactly for the characters 0-9 |
| Scan.DigitValue | features/eolearn/features/feature_extractor.py:119-123 | int() of a digit character is the digit it writes, 0..9 |
| Scan.IsLetterA | features/eolearn/features/feature_extractor.py:120 | nxt.lower() == 'a' holds only for 'a' and 'A', never for a digit |
| Scan.SkipSpace | features/eolearn/features/feature_extractor.py:22-24 | what is left after skip_whitespace never starts with whitespace and is no longer than the input |
| Scan.SkipSpaceDrops | features/eolearn/features/feature_extractor.py:22-24 | skip_whitespace pops exactly the leading whitespace: the popped prefix is all blank, the rest is the input's unchanged suffix, and nothing is left exactly when the input is blank |
| Scan.Next | features/eolearn/features/feature_extractor.py:29-31 | a successful next strictly shortens the input |
| Scan.Peek | features/eolearn/features/feature_extractor.py:33-35 | a successful peek leaves a non-empty input no longer than before |
| Scan.NextPops | features/eolearn/features/feature_extractor.py:29-31 | next fails exactly on blank input; otherwise it returns the first non-blank character, drops the whitespace before it and leaves everything after it unchanged |
| Scan.PeekKeeps | features/eolearn/features/feature_extractor.py:33-35 | peek fails exactly on blank input; otherwise it returns the first non-blank character and leaves it in place, with only the leading whitespace dropped |
| Scan.NonBlankFirst | features/eolearn/features/feature_extractor.py:29-35 | on a non-blank first character next pops exactly that character and peek returns it without consuming anything |
| Scan.NextIsPeekThenPop | features/eolearn/features/feature_extractor.py:29-35 | next succeeds exactly when peek does, and equals peek followed by popping the peeked character |
| Scan.SkipSpaceExtends | features/eolearn/features/feature_extractor.py:22-24 | once a non-blank character is in the input, appending text only appends to what skip_whitespace leaves |
| Scan.NextExtends | features/eolearn/features/feature_extractor.py:29-31 | a successful next returns the same character when text is appended, and the appended text stays at the end |
| Scan.PeekExtends | features/eolearn/features/feature_extractor.py:33-35 | a successful peek returns the same character when text is appended, and the appended text stays at the end |
| Scan.NextTakes | features/eolearn/features/feature_extractor.py:29-31 | what next takes from the front of the input is whitespace and the character it returns; what it leaves is a suffix of the input |
| Scan.PeekTakes | features/eolearn/features/feature_extractor.py:33-35 | what peek takes from the front of the input is whitespace only; what it leaves is a suffix of the input |
| Lexing.Lexer.constructor | features/eolearn/features/feature_extractor.py:40 | Lexer(expr) holds exactly the formula's characters |
| Lexing.Lexer.SkipWhitespace | features/eolearn/features/feature_extractor.py:22-24 | the pop loop leaves the list as SkipSpace of the old list; it raises IndexError exactly when the list runs out |
| Lexing.Lexer.PopLeft | features/eolearn/features/feature_extractor.py:26-27 | pop(0) returns the first character and leaves the rest unchanged; on an empty list it raises IndexError and changes nothing |
| Lexing.Lexer.Next | features/eolearn/features/feature_extractor.py:29-31 | returns the character and leaves the list as Scan.Next says, and raises IndexError with an emptied list otherwise |
| Lexing.Lexer.Peek | features/eolearn/features/feature_extractor.py:33-35 | returns the character and leaves the list as Scan.Peek says, and raises IndexError with an emptied list otherwise |
| Lexing.Lexer.HasInput | features/eolearn/features/feature_extractor.py:54 | the list's truth value: when it is false, next and peek raise IndexError; when the first character is not blank, next pops it |
| Grammar.Follows | features/eolearn/features/feature_extractor.py:45-49 | a successful ensure_follows strictly shortens the input |
| Grammar.Term | features/eolearn/features/feature_extractor.py:60-68 | a parsed term strictly shortens the input |
| Grammar.BinaryTail | features/eolearn/features/feature_extractor.py:70-100 | I, S and R produce a two-operand term with their own operator and consume input (GrammarSoundness.BinaryTailSound says exactly what they accept) |
| Grammar.SumRatioTail | features/eolearn/features/feature_extractor.py:102-111 | D produces a three-operand term and consumes input (GrammarSoundness.SumRatioTailSound says exactly what it accepts) |
| Grammar.BandTail | features/eolearn/features/feature_extractor.py:113-124 | B produces a band reference and consumes input |
| Grammar.Terms | features/eolearn/features/feature_extractor.py:51-58 | a successful parse yields at least one term (GrammarSoundness.TermsSound says which) |
| Grammar.Continue | features/eolearn/features/feature_extractor.py:54-57 | the loop adds terms exactly when input is left, and input that is only whitespace asks for ';' and raises IndexError |
| Parser.EnsureFollows | features/eolearn/features/feature_extractor.py:45-49 | succeeds, leaves the lexer and raises the SyntaxError exactly as Grammar.Follows says |
| Parser.ParseT | features/eolearn/features/feature_extractor.py:60-68 | returns the term and leaves the lexer as Grammar.Term says, or raises its error |
| Parser.ParseI | features/eolearn/features/feature_extractor.py:70-82 | agrees with Grammar.BinaryTail for the normalised difference |
| Parser.ParseS | features/eolearn/features/feature_extractor.py:84-91 | agrees with Grammar.BinaryTail for the difference |
| Parser.ParseR | features/eolearn/features/feature_extractor.py:93-100 | agrees with Grammar.BinaryTail for the ratio |
| Parser.ParseBinary | features/eolearn/features/feature_extractor.py:70-100 | the steps shared by parse_I, parse_S and parse_R agree with Grammar.BinaryTail |
| Parser.ParseD | features/eolearn/features/feature_extractor.py:102-111 | agrees with Grammar.SumRatioTail |
| Parser.ParseB | features/eolearn/features/feature_extractor.py:113-124 | agrees with Grammar.BandTail, including the popped units character and the ValueError on a non-digit single band |
| Parser.ParseE | features/eolearn/features/feature_extractor.py:51-58 | the while-lexer loop returns exactly Grammar.Terms of the input, and on success the lexer is empty |
| Parser.Build | features/eolearn/features/feature_extractor.py:39-40 | the constructor keeps exactly Grammar.Terms of the formula, with at least one term |
| GrammarFacts.FollowsOn | features/eolearn/features/feature_extractor.py:45-49 | on a non-blank character ensure_follows consumes exactly that character when it is the expected one, and raises SyntaxError naming both characters otherwise |
| GrammarFacts.FollowsExtends | features/eolearn/features/feature_extractor.py:45-49 | a successful ensure_follows is unaffected by appended text |
| GrammarFacts.DispatchBinary | features/eolearn/features/feature_extractor.py:60-68 | the letters I, S and R hand the rest of the input to the matching routine |
| GrammarFacts.DispatchSumRatio | features/eolearn/features/feature_extractor.py:60-68 | the letter D hands the rest of the input to parse_D |
| GrammarFacts.DispatchBand | features/eolearn/features/feature_extractor.py:60-68 | the letter B hands the rest of the input to parse_B |
| GrammarFacts.Operand | features/eolearn/features/feature_extractor.py:60-124 | a well-formed term followed by ',', ')' or ';' is read back exactly, stopping at that character |
| GrammarFacts.BinaryTailSteps | features/eolearn/features/feature_extractor.py:70-100 | after "(a,b", whether I, S or R succeeds depends only on the ')' that ensure_follows demands |
| GrammarFacts.SumRatioTailSteps | features/eolearn/features/feature_extractor.py:102-111 | after "(a,b,c", whether D succeeds depends only on the ')' that ensure_follows demands |
| GrammarFacts.OneDigitRoundTrip | features/eolearn/features/feature_extractor.py:113-124 | Bd followed by a character that is not a digit or 'a' is read back as the single-digit band, with the whitespace before that character already popped by peek |
| GrammarFacts.PairedBandRoundTrip | features/eolearn/features/feature_extractor.py:113-122 | B followed by a character and then a digit or 'a'/'A' is read back exactly, whatever follows |
| GrammarFacts.BinaryRoundTrip | features/eolearn/features/feature_extractor.py:70-100 | the spelling of I(a,b), S(a,b) or R(a,b) is read back as exactly that term, whatever follows |
| GrammarFacts.SumRatioRoundTrip | features/eolearn/features/feature_extractor.py:102-111 | the spelling of D(a,b,c) is read back as exactly that term, whatever follows |
| GrammarFacts.TermRoundTrip | features/eolearn/features/feature_extractor.py:60-124 | every well-formed term is read back from its spelling, and nothing after its spelling is consumed except the whitespace a single-digit band's peek pops |
| GrammarFacts.TermsRoundTrip | features/eolearn/features/feature_extractor.py:51-124 | terms joined by ';' parse back to exactly that list, in order; when the last is a single-digit band, peek runs off the end and the parse raises IndexError |
| GrammarFacts.BlankInputFails | features/eolearn/features/feature_extractor.py:51-52 | an empty or all-whitespace formula raises IndexError |
| GrammarFacts.TermExtends | features/eolearn/features/feature_extractor.py:60-124 | a term that parses is parsed the same way when text is appended, and the appended text is left unread |
| GrammarFacts.BinaryTailExtends | features/eolearn/features/feature_extractor.py:70-100 | a successful I, S or R is unaffected by appended text |
| GrammarFacts.SumRatioTailExtends | features/eolearn/features/feature_extractor.py:102-111 | a successful D is unaffected by appended text |
| GrammarFacts.BandTailExtends | features/eolearn/features/feature_extractor.py:113-124 | a successful B is unaffected by appended text |
| GrammarFacts.TrailingSpaceFails | features/eolearn/features/feature_extractor.py:54-55 | whitespace after a formula that parses makes it fail with IndexError, since the loop then demands a ';' |
| GrammarFacts.FollowsErrExtends | features/eolearn/features/feature_extractor.py:45-49 | a SyntaxError from ensure_follows is unaffected by appended text |
| GrammarFacts.TermErrExtends | features/eolearn/features/feature_extractor.py:60-124 | a term that fails with anything but IndexError fails with the same error when text is appended |
| GrammarFacts.OperandExtends | features/eolearn/features/feature_extractor.py:70-111 | an operand and the punctuation after it, read successfully, are read the same way when text is appended |
| GrammarFacts.OperandErrExtends | features/eolearn/features/feature_extractor.py:70-111 | an operand or its punctuation that fails with anything but IndexError fails the same way when text is appended |
| GrammarFacts.BinaryTailErrExtends | features/eolearn/features/feature_extractor.py:70-100 | an I, S or R that fails with anything but IndexError fails the same way when text is appended |
| GrammarFacts.SumRatioTailErrExtends | features/eolearn/features/feature_extractor.py:102-111 | a D that fails with anything but IndexError fails the same way when text is appended |
| GrammarFacts.BandTailErrExtends | features/eolearn/features/feature_extractor.py:113-124 | a B that raises ValueError raises it also when text is appended |
| GrammarFacts.TruncatedTermFails | features/eolearn/features/feature_extractor.py:22-31 | every proper prefix of a term's spelling, as a term and as a whole formula, raises IndexError |
| GrammarSoundness.FollowsTakes | features/eolearn/features/feature_extractor.py:45-49 | a successful ensure_follows takes only whitespace and the expected character from the front |
| GrammarSoundness.TermSound | features/eolearn/features/feature_extractor.py:60-124 | a term that parses is well formed, what is left is a suffix of the input, and the input without whitespace is the term's spelling followed by what is left; a single-digit band is always followed by a delimiter |
| GrammarSoundness.OperandSound | features/eolearn/features/feature_extractor.py:70-111 | an operand and the punctuation after it read, without whitespace, exactly the operand's spelling and that punctuation |
| GrammarSoundness.BinaryTailSound | features/eolearn/features/feature_extractor.py:70-100 | whatever I, S and R accept is "(a,b)" for two well-formed operands, up to whitespace |
| GrammarSoundness.SumRatioTailSound | features/eolearn/features/feature_extractor.py:102-111 | whatever D accepts is "(a,b,c)" for three well-formed operands, up to whitespace |
| GrammarSoundness.BandTailSound | features/eolearn/features/feature_extractor.py:113-124 | whatever B accepts is a two-digit, letter-A or single-digit band spelling, up to whitespace, and a single-digit band is left in front of a delimiter |
| GrammarSoundness.TermsSound | features/eolearn/features/feature_extractor.py:51-58 | a formula that parses, without its whitespace, is its terms' spellings joined by ';', in order, all well formed, and the last never a single-digit band |
| GrammarSoundness.SpacesIrrelevant | features/eolearn/features/feature_extractor.py:51-58 | a formula that parses gives the same terms with its whitespace removed; GrammarSpaces.SpacesIgnored gives the converse for formulas that do not end in whitespace |
| Scan.NextUnspaced | features/eolearn/features/feature_extractor.py:22-31 | next on the input without whitespace returns the same character, leaves the old remainder without whitespace, and fails alike |
| Scan.PeekUnspaced | features/eolearn/features/feature_extractor.py:22-35 | peek on the input without whitespace returns the same character, leaves the old remainder without whitespace, and fails alike |
| Scan.SuffixEndsBlankFree | features/eolearn/features/feature_extractor.py:22-35 | what is left of an input that does not end in whitespace does not either, and still holds a non-blank character unless nothing is left |
| GrammarSpaces.FollowsUnspaced | features/eolearn/features/feature_extractor.py:45-49 | ensure_follows gives the same result, or the same SyntaxError or IndexError, on the input without whitespace |
| GrammarSpaces.TermUnspaced | features/eolearn/features/feature_extractor.py:60-68 | parse_T returns the same term, or raises the same error, on the input without whitespace, and leaves the old remainder without whitespace |
| GrammarSpaces.BinaryTailUnspaced | features/eolearn/features/feature_extractor.py:70-100 | I, S and R give the same result or error on the input without whitespace |
| GrammarSpaces.SumRatioTailUnspaced | features/eolearn/features/feature_extractor.py:102-111 | D gives the same result or error on the input without whitespace |
| GrammarSpaces.BandTailUnspaced | features/eolearn/features/feature_extractor.py:113-124 | B gives the same band or error on the input without whitespace, whitespace between its characters included |
| GrammarSpaces.SpacesIgnored | features/eolearn/features/feature_extractor.py:51-58 | a formula that does not end in whitespace gives the same terms, or raises the same error, as the formula without whitespace |
| GrammarSpaces.SpacedReads | features/eolearn/features/feature_extractor.py:51-124 | a formula that does not end in whitespace parses to a list of terms exactly when, without whitespace, it is their spellings joined by ';', all well formed, the last not a single-digit band |
| GrammarSpaces.SpacedSeparator | features/eolearn/features/feature_extractor.py:51-124 | "B1 ;B01" parses to a single-digit and a two-digit band: peek skips the blank before the ';' |
| GrammarFacts.TermLetters | features/eolearn/features/feature_extractor.py:60-68 | a first character other than I, S, R, D, B raises KeyError naming it; a parsed term's kind is the one its first character names |
| GrammarFacts.BinaryRejectsThirdOperand | features/eolearn/features/feature_extractor.py:70-75 | I, S and R given a third operand raise SyntaxError expecting ')' and getting ',' |
| GrammarFacts.SumRatioRejectsTwoOperands | features/eolearn/features/feature_extractor.py:102-107 | D closed after two operands raises SyntaxError expecting ',' and getting ')' |
| GrammarFacts.SeparatorInsideBand | features/eolearn/features/feature_extractor.py:113-122 | a band's second character may be any non-blank character, ';' and ',' included: B;A and B;1 are single bands, not a band followed by a second term |
| GrammarFacts.CommaInsideOperand | features/eolearn/features/feature_extractor.py:70-76 | in I(B,A,B01) the first operand is the band B,A, so a ',' is not always an operand separator |
| Evaluation.BandIndex | features/eolearn/features/feature_extractor.py:117-124 | only a two-digit band can fail, with ValueError on its first non-digit character; a two-digit band reads 0..99, B?A reads 8, and a single-digit band never reads 8 (TwoDigitIndex, OneDigitIndex and LetterAReadsEight give the exact values) |
| Evaluation.Eval | features/eolearn/features/feature_extractor.py:77-124 | applying a term raises only ZeroDivisionError, ValueError or IndexError, and a band has a value exactly when its index lies inside the vector (NormalizedWithinUnit, SwapNegates and BinaryLeftFirst state the arithmetic and the order) |
| Evaluation.At | features/eolearn/features/feature_extractor.py:119-124 | x[i] is defined exactly for -len(x) <= i < len(x), counts negative indices from the end, and raises IndexError otherwise |
| Evaluation.Call | features/eolearn/features/feature_extractor.py:42-43 | __call__ succeeds exactly when every term evaluates; the result then has one value per term, in order; otherwise it raises the error of the first failing term |
| EvaluationFacts.TwoDigitIndex | features/eolearn/features/feature_extractor.py:117-119 | Bd1d2 reads index 10*d1+d2, a number in 0..99 from which both digits are recovered |
| EvaluationFacts.OneDigitIndex | features/eolearn/features/feature_extractor.py:123-124 | B1..B8 read indices 0..7, B9 reads 9, none reads 8, and distinct digits read distinct indices |
| EvaluationFacts.ZeroBandIsLast | features/eolearn/features/feature_extractor.py:123-124 | B0 computes index -1, which reads the last entry of the vector |
| EvaluationFacts.LetterAReadsEight | features/eolearn/features/feature_extractor.py:120-122 | B?A and B?a read index 8 whatever the code character is |
| EvaluationFacts.SpellingsDisagree | features/eolearn/features/feature_extractor.py:113-124 | for d in 1..8, B0d reads index d while Bd reads d-1, and B08 reads the same index as B8A |
| EvaluationFacts.TensCheckedWhenApplied | features/eolearn/features/feature_extractor.py:117-119 | a non-digit tens character is accepted by the parser and raises ValueError on every application |
| EvaluationFacts.SingleCheckedWhenParsed | features/eolearn/features/feature_extractor.py:123 | a non-digit single band character raises ValueError while parsing |
| EvaluationFacts.NormalizedWithinUnit | features/eolearn/features/feature_extractor.py:77-80 | on non-negative operands the normalised difference lies in [-1, 1] |
| EvaluationFacts.SwapNegates | features/eolearn/features/feature_extractor.py:77-91 | swapping the operands of I or S negates the result |
| EvaluationFacts.BinaryLeftFirst | features/eolearn/features/feature_extractor.py:77-100 | I, S and R evaluate the left operand first: its error is the term's error, and the right operand's error counts only when the left one has a value |
| EvaluationFacts.SumRatioLeftFirst | features/eolearn/features/feature_extractor.py:111 | D evaluates its first, second and third operands in that order, the first error raised being the term's error, and raises ZeroDivisionError on a zero divisor only once all three have values |
| EvaluationFacts.CallCollects | features/eolearn/features/feature_extractor.py:42-43 | when every term evaluates, __call__ returns exactly those values, in order |
| EvaluationFacts.FirstErrorWins | features/eolearn/features/feature_extractor.py:42-43 | when term k fails and all earlier terms succeed, the call raises term k's error |
| EvaluationFacts.ThreeSpellingsParse | features/eolearn/features/feature_extractor.py:113-124 | "B01;B1;B8A" parses to a two-digit, a single-digit and a letter-A band, in that order |
| EvaluationFacts.ThreeSpellingsCall | features/eolearn/features/feature_extractor.py:119-124 | those three bands read entries 1, 0 and 8 of the vector |

## Left out

- `FeatureExtractionTask` (lines 127-145) is not part of this model. It applies the extractor with
  numpy's `apply_along_axis`, stores the result in an EOPatch whose code is not modelled, and logs.
- The dependency-graph workflow executor of the surrounding system is not part of this model.
  None of its code is among the modelled files.
- Evaluation.Eval: the arithmetic is exact, over `real`. Rounding is not modelled. A zero
  denominator in I, R or D is the ZeroDivisionError of Python floats. numpy's inf/nan results for
  array elements are not modelled.
- Evaluation.Eval: the closures that parse_I ... parse_B return are represented as `Expr` values,
  and Eval gives their meaning. Closure identity is not modelled.
- Scan.IsDigit: `str.isdigit` and `int()` are modelled on the ASCII digits only. Other Unicode
  digits, superscripts among them, are not modelled.
- Parser.ParseT, Parser.ParseI, Parser.ParseS, Parser.ParseR, Parser.ParseBinary, Parser.ParseD,
  Parser.ParseB, Parser.EnsureFollows and Parser.ParseE do not state what the lexer holds after
  an error. An exception ends the parse and the lexer is then discarded.
- Python's recursion limit is not modelled. Deeply nested formulas raise RecursionError in the
  source, while parsing and while applying the nested closures. The model parses and evaluates
  them at any depth.
- Lexing.Lexer: only the list operations the parser uses are modelled, not the rest of Python's
  `list`.
- `core/eolearn/tests/test_eodata.py` tests EOPatch loading and saving. It is not part of this
  model.
