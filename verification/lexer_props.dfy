/**
 Properties of the lexer: what each rule emits for a maximal run, how the line counter
 and the error list account for the input, and a rendering of tokens back to text that
 the lexer inverts.
 */
module LexerProps {
  import opened Tokens
  import opened Lexer

  /** The characters of `s` that satisfy `p`, in order. */
  function Filter(s: string, p: char -> bool): (r: string)
    ensures |r| <= |s|
    ensures All(r, p)
  {
    if |s| == 0 then [] else (if p(s[0]) then [s[0]] else []) + Filter(s[1..], p)
  }

  lemma {:induction false} FilterAppend(a: string, b: string, p: char -> bool)
    ensures Filter(a + b, p) == Filter(a, p) + Filter(b, p)
    decreases |a|
  {
    if |a| > 0 {
      assert (a + b)[1..] == a[1..] + b;
      FilterAppend(a[1..], b, p);
    } else {
      assert a + b == b;
    }
  }

  lemma {:induction false} FilterAll(w: string, p: char -> bool)
    requires All(w, p)
    ensures Filter(w, p) == w
    decreases |w|
  {
    if |w| > 0 {
      FilterAll(w[1..], p);
    }
  }

  lemma {:induction false} FilterNone(w: string, p: char -> bool, q: char -> bool)
    requires All(w, q)
    requires forall c :: q(c) ==> !p(c)
    ensures Filter(w, p) == []
    decreases |w|
  {
    if |w| > 0 {
      FilterNone(w[1..], p, q);
    }
  }

  /** The characters of a list of lexical errors. */
  function ErrorChars(es: seq<LexError>): (cs: string)
    ensures |cs| == |es|
    ensures forall k :: 0 <= k < |es| ==> cs[k] == es[k].ch
  {
    seq(|es|, k requires 0 <= k < |es| => es[k].ch)
  }

  /**
   A character that no rule can consume anywhere. An underscore is illegal at the start
   of a token but is consumed inside a word, so it is not foreign.
   */
  predicate IsForeign(c: char) {
    IsIllegal(c) && c != '_'
  }

  /** Only the newline rule consumes newlines; it consumes nothing else. */
  lemma MatchNewlines(s: string)
    requires |s| > 0
    ensures Filter(s[..MatchLength(s)], IsNewline) == if IsNewline(s[0]) then s[..MatchLength(s)] else []
  {
    var n := MatchLength(s);
    if IsDigit(s[0]) {
      FilterNone(s[..n], IsNewline, IsDigit);
    } else if IsLetter(s[0]) {
      FilterNone(s[..n], IsNewline, IsWordChar);
    } else if IsNewline(s[0]) {
      FilterAll(s[..n], IsNewline);
    } else if IsBlank(s[0]) {
      FilterNone(s[..n], IsNewline, IsBlank);
    } else {
      assert s[..n] == [s[0]];
    }
  }

  /** A rule consumes a foreign character only as the one character the error rule skips. */
  lemma MatchForeign(s: string)
    requires |s| > 0
    ensures Filter(s[..MatchLength(s)], IsForeign) == if IsForeign(s[0]) then [s[0]] else []
  {
    var n := MatchLength(s);
    if IsDigit(s[0]) {
      FilterNone(s[..n], IsForeign, IsDigit);
    } else if IsLetter(s[0]) {
      FilterNone(s[..n], IsForeign, IsWordChar);
    } else if IsNewline(s[0]) {
      FilterNone(s[..n], IsForeign, IsNewline);
    } else if IsBlank(s[0]) {
      FilterNone(s[..n], IsForeign, IsBlank);
    } else {
      assert s[..n] == [s[0]];
    }
  }

  /** Lexing a non-empty text is the first rule followed by lexing what it left. */
  lemma LexStep(s: string, line: nat)
    requires |s| > 0
    ensures LexFrom(s, line).line == LexFrom(s[MatchLength(s)..], LineAfter(s, line)).line
    ensures LexFrom(s, line).errors
         == (if IsIllegal(s[0]) then [LexError(s[0], line)] else [])
            + LexFrom(s[MatchLength(s)..], LineAfter(s, line)).errors
  {
  }

  /** The line counter grows by exactly the number of newline characters in the input. */
  lemma {:induction false} LexLineCount(s: string, line: nat)
    ensures LexFrom(s, line).line == line + |Filter(s, IsNewline)|
    decreases |s|
  {
    if |s| > 0 {
      var n := MatchLength(s);
      assert s == s[..n] + s[n..];
      FilterAppend(s[..n], s[n..], IsNewline);
      MatchNewlines(s);
      LexStep(s, line);
      LexLineCount(s[n..], LineAfter(s, line));
    }
  }

  /**
   The foreign characters among the reported errors are exactly the foreign characters
   of the input, in order.
   */
  lemma {:induction false} LexErrorChars(s: string, line: nat)
    ensures Filter(ErrorChars(LexFrom(s, line).errors), IsForeign) == Filter(s, IsForeign)
    decreases |s|
  {
    if |s| == 0 {
      assert ErrorChars([]) == [];
    } else {
      var n := MatchLength(s);
      assert s == s[..n] + s[n..];
      FilterAppend(s[..n], s[n..], IsForeign);
      MatchForeign(s);
      var es := LexFrom(s[n..], LineAfter(s, line)).errors;
      LexErrorChars(s[n..], LineAfter(s, line));
      LexStep(s, line);
      var first: seq<LexError> := if IsIllegal(s[0]) then [LexError(s[0], line)] else [];
      assert ErrorChars(first + es) == ErrorChars(first) + ErrorChars(es);
      FilterAppend(ErrorChars(first), ErrorChars(es), IsForeign);
    }
  }

  /** A maximal run is measured exactly. */
  lemma {:induction false} RunLengthOf(w: string, rest: string, p: char -> bool)
    requires All(w, p)
    requires |rest| == 0 || !p(rest[0])
    ensures RunLength(w + rest, p) == |w|
    decreases |w|
  {
    if |w| == 0 {
      assert w + rest == rest;
    } else {
      assert (w + rest)[0] == w[0];
      assert (w + rest)[1..] == w[1..] + rest;
      RunLengthOf(w[1..], rest, p);
    }
  }

  /** A maximal digit run yields one `Number` token holding the integer it denotes. */
  lemma LexNumber(ds: string, rest: string, line: nat)
    requires IsDigits(ds)
    requires |rest| == 0 || !IsDigit(rest[0])
    ensures LexFrom(ds + rest, line)
         == Emit(Token(Number, Num(DecimalValue(ds)), line), LexFrom(rest, line))
  {
    RunLengthOf(ds, rest, IsDigit);
    assert (ds + rest)[..|ds|] == ds;
    assert (ds + rest)[|ds|..] == rest;
  }

  /**
   A maximal word yields one token carrying the word: its keyword kind when the word is
   one of the nine keywords, `NameVar` otherwise.
   */
  lemma LexWord(w: string, rest: string, line: nat)
    requires IsWord(w)
    requires |rest| == 0 || !IsWordChar(rest[0])
    ensures LexFrom(w + rest, line) == Emit(Token(Classify(w), Text(w), line), LexFrom(rest, line))
    ensures w in Keywords ==> Classify(w) == Keywords[w]
    ensures w !in Keywords ==> Classify(w) == NameVar
  {
    RunLengthOf(w, rest, IsWordChar);
    assert (w + rest)[..|w|] == w;
    assert (w + rest)[|w|..] == rest;
  }

  /** Each punctuation character yields exactly one token of its kind. */
  lemma LexPunct(c: char, rest: string, line: nat)
    requires IsPunct(c)
    ensures LexFrom([c] + rest, line) == Emit(Token(PunctKind(c), Text([c]), line), LexFrom(rest, line))
    ensures c == '(' ==> PunctKind(c) == OpenBrack
    ensures c == ')' ==> PunctKind(c) == CloseBrack
    ensures c == '+' ==> PunctKind(c) == Plus
    ensures c == '=' ==> PunctKind(c) == Equal
    ensures c == ',' ==> PunctKind(c) == Comma
  {
    assert ([c] + rest)[1..] == rest;
  }

  /** A maximal run of spaces and tabs emits nothing and leaves the line counter alone. */
  lemma LexBlanks(bs: string, rest: string, line: nat)
    requires |bs| > 0 && All(bs, IsBlank)
    requires |rest| == 0 || !IsBlank(rest[0])
    ensures LexFrom(bs + rest, line) == LexFrom(rest, line)
  {
    RunLengthOf(bs, rest, IsBlank);
    LexSilent(bs, rest, line, line);
  }

  /** A run of newlines or blanks the lexer matches whole emits nothing; lexing resumes on line `line'`. */
  lemma LexSilent(run: string, rest: string, line: nat, line': nat)
    requires |run| > 0 && (IsNewline(run[0]) || IsBlank(run[0]))
    requires RunLength(run + rest, if IsNewline(run[0]) then IsNewline else IsBlank) == |run|
    requires line' == if IsNewline(run[0]) then line + |run| else line
    ensures LexFrom(run + rest, line) == LexFrom(rest, line')
  {
    var s := run + rest;
    assert s[0] == run[0];
    assert s[|run|..] == rest;
  }

  /** A maximal run of newlines emits nothing and advances the line counter by its length. */
  lemma LexNewlines(ns: string, rest: string, line: nat)
    requires |ns| > 0 && All(ns, IsNewline)
    requires |rest| == 0 || !IsNewline(rest[0])
    ensures LexFrom(ns + rest, line) == LexFrom(rest, line + |ns|)
  {
    RunLengthOf(ns, rest, IsNewline);
    LexSilent(ns, rest, line, line + |ns|);
  }

  /**
   An illegal character is reported and skipped by exactly one position; lexing goes on
   with the rest, and no token is emitted for it.
   */
  lemma LexIllegal(c: char, rest: string, line: nat)
    requires IsIllegal(c)
    ensures LexFrom([c] + rest, line).tokens == LexFrom(rest, line).tokens
    ensures LexFrom([c] + rest, line).errors == [LexError(c, line)] + LexFrom(rest, line).errors
    ensures LexFrom([c] + rest, line).line == LexFrom(rest, line).line
  {
    assert ([c] + rest)[1..] == rest;
  }

  // Rendering tokens back to text.

  function DigitChar(d: nat): (c: char)
    requires d < 10
    ensures IsDigit(c) && DigitValue(c) == d
  {
    ('0' as int + d) as char
  }

  /** The decimal spelling of a natural number, without leading zeros. */
  function NatToDecimal(n: nat): (ds: string)
    ensures IsDigits(ds)
    ensures DecimalValue(ds) == n
  {
    if n < 10 then [DigitChar(n)]
    else
      var prefix := NatToDecimal(n / 10);
      var ds := prefix + [DigitChar(n % 10)];
      assert ds[..|ds| - 1] == prefix;
      ds
  }

  /** The text of a well-formed token, which lexes back to that token. */
  function Spelling(t: Token): (w: string)
    requires WellFormed(t)
    ensures |w| > 0 && !IsBlank(w[0]) && !IsNewline(w[0])
  {
    match t.value
    case Num(n) => NatToDecimal(n)
    case Text(w) => w
  }

  function Newlines(n: nat): (ns: string)
    ensures |ns| == n && All(ns, IsNewline)
  {
    seq(n, _ => '\n')
  }

  /** Tokens in the shape the lexer produces them, starting at or after `line`. */
  predicate Lexable(ts: seq<Token>, line: nat) {
    && (forall k :: 0 <= k < |ts| ==> WellFormed(ts[k]) && line <= ts[k].line)
    && (forall a, b :: 0 <= a < b < |ts| ==> ts[a].line <= ts[b].line)
  }

  /**
   Text for a token sequence: each token preceded by as many newlines as its line is
   ahead of the previous one, and followed by one space.
   */
  function RenderFrom(ts: seq<Token>, line: nat): (s: string)
    requires Lexable(ts, line)
    ensures |s| == 0 || !IsBlank(s[0])
    decreases |ts|
  {
    if |ts| == 0 then ""
    else
      var t := ts[0];
      Newlines(t.line - line) + Spelling(t) + " " + RenderFrom(ts[1..], t.line)
  }

  /** Lexing one well-formed token's spelling followed by a space emits exactly that token. */
  lemma LexSpelling(t: Token, tail: string)
    requires WellFormed(t)
    requires |tail| > 0 && tail[0] == ' '
    ensures LexFrom(Spelling(t) + tail, t.line) == Emit(t, LexFrom(tail, t.line))
  {
    match t.value
    case Num(n) =>
      LexNumber(NatToDecimal(n), tail, t.line);
    case Text(w) => LexSpellingText(t, w, tail);
  }

  lemma LexSpellingText(t: Token, w: string, tail: string)
    requires WellFormed(t) && t.value == Text(w)
    requires |tail| > 0 && tail[0] == ' '
    ensures LexFrom(w + tail, t.line) == Emit(t, LexFrom(tail, t.line))
  {
    if IsWord(w) && t.kind == Classify(w) {
      LexWord(w, tail, t.line);
    } else {
      assert [w[0]] == w;
      LexPunct(w[0], tail, t.line);
    }
  }

  /** A newline run in front of a token's text only advances the line counter. */
  lemma LexAfterNewlines(n: nat, word: string, line: nat, line': nat)
    requires |word| > 0 && !IsNewline(word[0])
    requires line' == line + n
    ensures LexFrom(Newlines(n) + word, line) == LexFrom(word, line')
  {
    if n > 0 {
      LexNewlines(Newlines(n), word, line);
    } else {
      assert Newlines(n) + word == word;
    }
  }

  /** A token's spelling followed by one space emits that token, then lexes what follows. */
  lemma LexTokenThenRest(t: Token, rest: string)
    requires WellFormed(t)
    requires |rest| == 0 || !IsBlank(rest[0])
    ensures LexFrom(Spelling(t) + (" " + rest), t.line) == Emit(t, LexFrom(rest, t.line))
  {
    LexSpelling(t, " " + rest);
    LexBlanks(" ", rest, t.line);
  }

  lemma LexableTail(ts: seq<Token>, line: nat)
    requires Lexable(ts, line) && |ts| > 0
    ensures Lexable(ts[1..], ts[0].line)
  {
    forall k | 0 <= k < |ts| - 1
      ensures WellFormed(ts[1..][k]) && ts[0].line <= ts[1..][k].line
    {
      assert ts[1..][k] == ts[k + 1];
    }
  }

  lemma RenderCons(ts: seq<Token>, line: nat)
    requires Lexable(ts, line) && |ts| > 0
    requires Lexable(ts[1..], ts[0].line)
    ensures RenderFrom(ts, line)
         == Newlines(ts[0].line - line) + (Spelling(ts[0]) + (" " + RenderFrom(ts[1..], ts[0].line)))
  {
  }

  /** The rendering of one token, after the newlines that bring it to its line. */
  lemma LexRenderedToken(t: Token, line: nat, rest: string)
    requires WellFormed(t) && line <= t.line
    requires |rest| == 0 || !IsBlank(rest[0])
    ensures LexFrom(Newlines(t.line - line) + (Spelling(t) + (" " + rest)), line)
         == Emit(t, LexFrom(rest, t.line))
  {
    var word := Spelling(t) + (" " + rest);
    assert word[0] == Spelling(t)[0];
    LexAfterNewlines(t.line - line, word, line, t.line);
    LexTokenThenRest(t, rest);
  }

  /** Rendering then lexing a non-empty sequence emits its first token, then the rest. */
  lemma LexRenderStep(ts: seq<Token>, line: nat)
    requires Lexable(ts, line) && |ts| > 0
    ensures Lexable(ts[1..], ts[0].line)
    ensures LexFrom(RenderFrom(ts, line), line)
         == Emit(ts[0], LexFrom(RenderFrom(ts[1..], ts[0].line), ts[0].line))
  {
    LexableTail(ts, line);
    RenderCons(ts, line);
    LexRenderedToken(ts[0], line, RenderFrom(ts[1..], ts[0].line));
  }

  /**
   The lexer inverts rendering: any token sequence the lexer could have produced is
   recovered exactly, lines included, with no errors.
   */
  lemma {:induction false} LexRender(ts: seq<Token>, line: nat)
    requires Lexable(ts, line)
    ensures LexFrom(RenderFrom(ts, line), line).tokens == ts
    ensures LexFrom(RenderFrom(ts, line), line).errors == []
    decreases |ts|
  {
    if |ts| > 0 {
      var t := ts[0];
      var tail := ts[1..];
      LexRenderStep(ts, line);
      var r := LexFrom(RenderFrom(tail, t.line), t.line);
      assert LexFrom(RenderFrom(ts, line), line) == Emit(t, r);
      LexRender(tail, t.line);
      assert r.tokens == tail;
      assert ts == [t] + tail;
    }
  }
}
