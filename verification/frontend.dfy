/**
 The whole front end: the parser pulls its tokens from the lexer, so a source text is
 accepted when the kinds of the tokens the lexer emits form a program. Characters the
 lexer reports and skips never reach the parser.
 */
module Frontend {
  import opened Wrappers
  import opened Tokens
  import opened Lexer
  import opened LexerProps
  import opened Grammar
  import opened Parser
  import opened Completeness

  /** The verdict on a source text: no syntax error is reported. */
  function Accepts(text: string): bool {
    Recognize(Kinds(Lex(text).tokens))
  }

  /** A text is accepted exactly when the kinds of its tokens are derivable from `program`. */
  lemma AcceptsCorrect(text: string)
    ensures Accepts(text) <==> IsProgram(Kinds(Lex(text).tokens))
  {
    RecognizeCorrect(Kinds(Lex(text).tokens));
  }

  /** An illegal character in front of a text is reported and does not change the verdict. */
  lemma IllegalIgnored(c: char, rest: string)
    requires IsIllegal(c)
    ensures Accepts([c] + rest) == Accepts(rest)
    ensures Lex([c] + rest).errors == [LexError(c, 1)] + Lex(rest).errors
  {
    LexIllegal(c, rest, 1);
  }

  /**
   No token carries a character that no rule consumes: the text of every token is a word
   or one punctuation character.
   */
  lemma TokensHaveNoForeignChars(s: string, line: nat)
    ensures forall k :: 0 <= k < |LexFrom(s, line).tokens| ==> NoForeignText(LexFrom(s, line).tokens[k])
  {
    var ts := LexFrom(s, line).tokens;
    forall k | 0 <= k < |ts|
      ensures NoForeignText(ts[k])
    {
      forall m | ts[k].value.Text? && 0 <= m < |ts[k].value.text|
        ensures !IsForeign(ts[k].value.text[m])
      {
        WellFormedNoForeign(ts[k], m);
      }
    }
  }

  predicate NoForeignText(t: Token) {
    t.value.Text? ==> forall m :: 0 <= m < |t.value.text| ==> !IsForeign(t.value.text[m])
  }

  lemma WellFormedNoForeign(t: Token, m: nat)
    requires WellFormed(t) && t.value.Text? && m < |t.value.text|
    ensures !IsForeign(t.value.text[m])
  {
    var w := t.value.text;
    if !IsWord(w) {
      assert m == 0;
    }
  }

  /** `int f(int x) = x + 1`, as kinds: a one-parameter function whose body is a sum. */
  lemma AcceptsSum()
    ensures Recognize([Int, NameVar, OpenBrack, Int, NameVar, CloseBrack, Equal, NameVar, Plus, Number])
  {
    var p := Program(LastFun(FunParams(TypeId(IntType), LastTypeId(TypeId(IntType)),
                                       BinExp(PlusOp, NameExp, NumberExp))));
    assert YieldProgram(p) == [Int, NameVar, OpenBrack, Int, NameVar, CloseBrack, Equal, NameVar, Plus, Number];
    RecognizeCorrect(YieldProgram(p));
  }

  /** `int f() = g()`: a call needs at least one argument, so this is a syntax error. */
  lemma RejectsEmptyCall()
    ensures !Recognize([Int, NameVar, OpenBrack, CloseBrack, Equal, NameVar, OpenBrack, CloseBrack])
  {
    var s := [Int, NameVar, OpenBrack, CloseBrack, Equal, NameVar, OpenBrack, CloseBrack];
    assert ParseOperand(s, 7) == None;
    assert ParseExps(s, 7) == None;
    assert ParseOperand(s, 5) == None;
    assert ParseExp(s, 5) == None;
    assert ParseFun(s, 0) == None;
  }

  /** `int f() = 1 bool g() = true`: a program of two functions without parameters. */
  lemma AcceptsTwoFunctions()
    ensures Recognize([Int, NameVar, OpenBrack, CloseBrack, Equal, Number,
                       Bool, NameVar, OpenBrack, CloseBrack, Equal, True])
  {
    var p := Program(MoreFuns(FunNoParams(TypeId(IntType), NumberExp),
                              LastFun(FunNoParams(TypeId(BoolType), BValueExp(TrueValue)))));
    assert YieldProgram(p) == [Int, NameVar, OpenBrack, CloseBrack, Equal, Number,
                               Bool, NameVar, OpenBrack, CloseBrack, Equal, True];
    RecognizeCorrect(YieldProgram(p));
  }

  /** The empty text has no functions and is rejected. */
  lemma RejectsEmpty()
    ensures !Accepts("")
  {
    assert Lex("").tokens == [];
    assert ParseFun([], 0) == None;
  }
}
