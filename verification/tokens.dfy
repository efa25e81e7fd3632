/**
 The vocabulary shared by the lexer and the grammar: the declared token kinds,
 the keyword table, and the single-character punctuation table.
 */
module Tokens {

  /** The declared token set: seven non-keyword kinds followed by the nine keywords. */
  datatype Kind =
    | OpenBrack | CloseBrack | Plus | Equal | NameVar | Number | Comma
    | Int | Bool | True | False | Let | In | If | Then | Else

  /** The value a token carries: the matched text, or the integer a digit run denotes. */
  datatype TokenValue = Text(text: string) | Num(n: nat)

  /** A token as the lexer hands it to the parser, with the line it was found on. */
  datatype Token = Token(kind: Kind, value: TokenValue, line: nat)

  /** The keyword table: reserved words and the kind each one is reclassified to. */
  const Keywords: map<string, Kind> :=
    map["int" := Int, "bool" := Bool, "true" := True, "false" := False,
        "let" := Let, "in" := In, "if" := If, "then" := Then, "else" := Else]

  predicate IsKeywordKind(k: Kind) {
    k.Int? || k.Bool? || k.True? || k.False? || k.Let? || k.In? || k.If? || k.Then? || k.Else?
  }

  /** The text of a keyword kind: the inverse of the keyword table. */
  function KeywordText(k: Kind): (w: string)
    requires IsKeywordKind(k)
    ensures w in Keywords && Keywords[w] == k
  {
    match k
    case Int => "int"
    case Bool => "bool"
    case True => "true"
    case False => "false"
    case Let => "let"
    case In => "in"
    case If => "if"
    case Then => "then"
    case Else => "else"
  }

  /** Every entry of the keyword table maps to a keyword kind whose text is the entry itself. */
  lemma KeywordTableInverse(w: string)
    requires w in Keywords
    ensures IsKeywordKind(Keywords[w]) && KeywordText(Keywords[w]) == w
  {
  }

  /**
   Reclassification of an identifier-shaped word: the keyword table's kind when the
   word is a key of the table, `NameVar` otherwise.
   */
  function Classify(w: string): (k: Kind)
    ensures k == NameVar <==> w !in Keywords
    ensures k != NameVar ==> IsKeywordKind(k) && KeywordText(k) == w
  {
    if w in Keywords then
      KeywordTableInverse(w);
      Keywords[w]
    else NameVar
  }

  predicate IsPunct(c: char) {
    c == '(' || c == ')' || c == '+' || c == '=' || c == ','
  }

  predicate IsPunctKind(k: Kind) {
    k.OpenBrack? || k.CloseBrack? || k.Plus? || k.Equal? || k.Comma?
  }

  /** The character a punctuation kind is spelt with. */
  function PunctChar(k: Kind): (c: char)
    requires IsPunctKind(k)
    ensures IsPunct(c)
  {
    match k
    case OpenBrack => '('
    case CloseBrack => ')'
    case Plus => '+'
    case Equal => '='
    case Comma => ','
  }

  /** The kind of a single-character punctuation token. */
  function PunctKind(c: char): (k: Kind)
    requires IsPunct(c)
    ensures IsPunctKind(k) && PunctChar(k) == c
  {
    if c == '(' then OpenBrack
    else if c == ')' then CloseBrack
    else if c == '+' then Plus
    else if c == '=' then Equal
    else Comma
  }
}
