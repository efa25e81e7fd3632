/**
 The lexer of the Simple-Compiler front end, as a pure function from source text to
 tokens. At every position the first character decides the rule: a digit starts a
 number, a letter starts a word, a newline or a blank starts a silent run, one of
 `( ) + = ,` is a punctuation token, and anything else is reported and skipped.
 */
module Lexer {
  import opened Tokens

  predicate IsDigit(c: char) { '0' <= c <= '9' }
  predicate IsLetter(c: char) { 'A' <= c <= 'Z' || 'a' <= c <= 'z' }
  predicate IsWordChar(c: char) { IsLetter(c) || IsDigit(c) || c == '_' }
  predicate IsNewline(c: char) { c == '\n' || c == '\r' }
  predicate IsBlank(c: char) { c == ' ' || c == '\t' }

  /** A character that starts no rule: the lexer's error rule handles it. */
  predicate IsIllegal(c: char) {
    !IsDigit(c) && !IsLetter(c) && !IsNewline(c) && !IsBlank(c) && !IsPunct(c)
  }

  predicate All(w: string, p: char -> bool) {
    forall k :: 0 <= k < |w| ==> p(w[k])
  }

  /** Text matching the word rule: a letter, then letters, digits or underscores. */
  predicate IsWord(w: string) {
    |w| > 0 && IsLetter(w[0]) && All(w, IsWordChar)
  }

  /** Text matching the number rule: one or more decimal digits. */
  predicate IsDigits(w: string) {
    |w| > 0 && All(w, IsDigit)
  }

  /** The length of the longest prefix of `s` whose characters all satisfy `p`. */
  function RunLength(s: string, p: char -> bool): (n: nat)
    ensures n <= |s|
    ensures forall k :: 0 <= k < n ==> p(s[k])
    ensures n == |s| || !p(s[n])
  {
    if |s| == 0 || !p(s[0]) then 0 else 1 + RunLength(s[1..], p)
  }

  function DigitValue(c: char): (d: nat)
    requires IsDigit(c)
    ensures d < 10
  {
    (c as int) - ('0' as int)
  }

  /** The integer a string of decimal digits denotes, most significant digit first. */
  function DecimalValue(ds: string): nat
    requires All(ds, IsDigit)
  {
    if |ds| == 0 then 0
    else 10 * DecimalValue(ds[..|ds| - 1]) + DigitValue(ds[|ds| - 1])
  }

  /**
   A token as the lexer's rules produce it: a number carries an integer; a word carries
   its text and the kind the keyword table assigns to it; punctuation carries its one
   character and that character's kind.
   */
  predicate WellFormed(t: Token) {
    match t.value
    case Num(_) => t.kind == Number
    case Text(w) =>
      || (IsWord(w) && t.kind == Classify(w))
      || (|w| == 1 && IsPunct(w[0]) && t.kind == PunctKind(w[0]))
  }

  /** An illegal character, with the line it was met on. */
  datatype LexError = LexError(ch: char, line: nat)

  /** The tokens and errors of one run, and the value of the line counter at its end. */
  datatype LexResult = LexResult(tokens: seq<Token>, errors: seq<LexError>, line: nat)

  function Emit(t: Token, r: LexResult): LexResult {
    r.(tokens := [t] + r.tokens)
  }

  /**
   The length of the text matched at the start of a non-empty `s` by the rule its first
   character selects: a maximal run for numbers, words, newlines and blanks, one
   character for punctuation and for the error rule's skip.
   */
  function MatchLength(s: string): (n: nat)
    requires |s| > 0
    ensures 0 < n <= |s|
  {
    if IsDigit(s[0]) then RunLength(s, IsDigit)
    else if IsLetter(s[0]) then RunLength(s, IsWordChar)
    else if IsNewline(s[0]) then RunLength(s, IsNewline)
    else if IsBlank(s[0]) then RunLength(s, IsBlank)
    else 1
  }

  /** The line counter after the rule applied at the start of `s`: newlines advance it. */
  function LineAfter(s: string, line: nat): nat
    requires |s| > 0
  {
    if IsNewline(s[0]) then line + MatchLength(s) else line
  }

  /**
   Lexes `s` with the line counter starting at `line`. Every token is well formed, a
   `NameVar` token never carries keyword text, tokens come in non-decreasing line order,
   and every reported character is illegal.
   */
  function LexFrom(s: string, line: nat): (r: LexResult)
    ensures line <= r.line
    ensures forall k :: 0 <= k < |r.tokens| ==>
              WellFormed(r.tokens[k]) && line <= r.tokens[k].line <= r.line
    ensures forall k :: 0 <= k < |r.tokens| && r.tokens[k].kind == NameVar ==>
              r.tokens[k].value.Text? && r.tokens[k].value.text !in Keywords
    ensures forall a, b :: 0 <= a < b < |r.tokens| ==> r.tokens[a].line <= r.tokens[b].line
    ensures forall k :: 0 <= k < |r.errors| ==>
              IsIllegal(r.errors[k].ch) && line <= r.errors[k].line <= r.line
    decreases |s|
  {
    if |s| == 0 then LexResult([], [], line)
    else
      var c := s[0];
      var n := MatchLength(s);
      var rest := LexFrom(s[n..], LineAfter(s, line));
      if IsDigit(c) then Emit(Token(Number, Num(DecimalValue(s[..n])), line), rest)
      else if IsLetter(c) then Emit(Token(Classify(s[..n]), Text(s[..n]), line), rest)
      else if IsPunct(c) then Emit(Token(PunctKind(c), Text([c]), line), rest)
      else if IsIllegal(c) then rest.(errors := [LexError(c, line)] + rest.errors)
      else rest
  }

  /** Lexes a whole source text; the line counter starts at 1. */
  function Lex(s: string): LexResult {
    LexFrom(s, 1)
  }

  /** The kinds of a token sequence: what the grammar sees. */
  function Kinds(ts: seq<Token>): (ks: seq<Kind>)
    ensures |ks| == |ts|
    ensures forall k :: 0 <= k < |ts| ==> ks[k] == ts[k].kind
  {
    seq(|ts|, k requires 0 <= k < |ts| => ts[k].kind)
  }
}
