# Simple-Compiler front end in Dafny

This project models the two analysers of Simple-Compiler, a PLY-based front end for a small ML-like
language. The language is grammar 5.1 of Mogensen's *Basics of Compiler Design*, extended with
zero-parameter functions and boolean literals.

- **Lexer** (`Lexing`). Modelled as a pure function `Lexer.LexFrom` from text to tokens, lexical
  errors and the final line counter.
  - The first character decides the rule:
    - a digit run becomes `NUMBER` with its integer value;
    - an identifier-shaped word is reclassified through the nine-entry keyword table;
    - one of `( ) + = ,` becomes its punctuation kind;
    - a run of `\n`/`\r` advances the line counter by its length;
    - a run of spaces and tabs is silent;
    - any other character is reported with its line and skipped by one position.
  - Numbers are unbounded, as Python's `int` is.
  - A `char` stands for one byte of the Python 2 `str` the source reads. The rules and the
    one-position skip work a byte at a time, so non-ASCII text is reported once per byte.
- **Grammar** (`Parsing`).
  - Derivation trees have one constructor per production (module `Grammar`). Their yield is the
    string of token kinds they derive. `IsProgram(s)` holds when some tree for `program` yields `s`.
  - The source's semantic actions are all empty, so what it computes is a verdict: a syntax error
    is reported, or it is not.
  - The model decides this verdict with a deterministic recursive-descent recogniser
    (module `Parser`). It proves that the recogniser accepts exactly the language of the grammar:
    `Completeness.RecognizeCorrect` shows `Recognize(s) <==> IsProgram(s)` for every kind string.
  - The proof has two halves:
    - soundness (module `Soundness`): an accepted string is the yield of the tree returned;
    - completeness (modules `Canonical` and `Completeness`).
  - For completeness, every derivation can be rearranged into a *canonical* one. A canonical
    derivation nests operators to the right, and the left operand of an operator is closed.
  - The recogniser rebuilds any canonical tree from its yield, so canonical trees are unique for
    their yield.
- **Front end** (module `Frontend`). The parser reads its tokens from the lexer
  (`parse(s, lexico)` in `run`). The front end's verdict on a text is therefore the recogniser's
  verdict on the kinds the lexer emits. Characters the lexer skips never reach the parser.

The grammar is ambiguous, and the source declares no precedence. Its eight shift/reduce
conflicts are settled inside the parser generator. The model therefore claims only language
membership. The right-nested trees are a choice of this recogniser, not behaviour of the source.

Points of the code that shape the model:

- `+` and `=` have no declared precedence or associativity, so no tree shape is claimed.
- Tokens carry only their line. The code keeps a line counter and an absolute offset `lexpos`,
  and no column.
- No numeric literal is rejected. `int(t.value)` is unbounded, so a `NUMBER` token holds a `nat`.
- A `\r\n` pair advances the line counter by two, because the newline rule adds the length of the
  whole run.
- An underscore cannot start a token, so the error rule reports it. It is accepted inside a word.

## Model

| member | source | states |
|---|---|---|
| Tokens.KeywordTableInverse | compiler.py:60-61 | each of the nine keyword entries maps to a keyword kind whose spelling is the entry itself |
| Tokens.KeywordText | compiler.py:60-63 | every keyword kind in the declared token set is the image of one keyword-table entry |
| Tokens.Classify | compiler.py:78-81 | a word gets kind `NAMEVAR` exactly when it is not a key of the keyword table; otherwise it gets the keyword kind spelt as the word |
| Tokens.PunctKind | compiler.py:65-69 | each of `( ) + = ,` gets a punctuation kind spelt with that very character |
| Lexer.RunLength | compiler.py:72-89 | the regular-expression rules match the longest run: every character counted satisfies the class, and the next one does not |
| Lexer.MatchLength | compiler.py:65-94 | every rule consumes at least one character and no more than remain, so lexing always terminates |
| Lexer.LexFrom | compiler.py:72-94 | every token is well formed for its rule; a `NAMEVAR` token never carries keyword text; token lines never decrease and lie between the start and end values of the counter; only illegal characters are reported |
| LexerProps.LexNumber | compiler.py:72-76 | a maximal digit run yields exactly one `NUMBER` token whose value is the integer the digits denote, then lexing continues after the run |
| LexerProps.LexWord | compiler.py:78-81 | a maximal word yields exactly one token carrying the word; its kind is the keyword's when the word is a keyword and `NAMEVAR` otherwise |
| LexerProps.LexPunct | compiler.py:65-69 | `(`, `)`, `+`, `=`, `,` each yield one token of kind `OPENBRACK`, `CLOSEBRACK`, `PLUS`, `EQUAL`, `COMMA` respectively |
| LexerProps.LexSilent | compiler.py:83-89 | a matched run of newlines or blanks emits nothing; lexing resumes after it with the counter advanced only for newlines |
| LexerProps.LexBlanks | compiler.py:87-89 | a maximal run of spaces and tabs emits nothing and leaves the line counter unchanged |
| LexerProps.LexNewlines | compiler.py:83-85 | a maximal run of `\n`/`\r` emits nothing and advances the line counter by its length |
| LexerProps.LexIllegal | compiler.py:91-94 | a character no rule matches is reported on the current line and skipped by one position; lexing continues and no token is emitted for it |
| LexerProps.LexLineCount | compiler.py:83-85 | over a whole text, the line counter grows by exactly the number of newline characters in it |
| LexerProps.LexErrorChars | compiler.py:91-94 | the characters no rule can consume appear among the reported errors exactly as they appear in the text, in order |
| LexerProps.NatToDecimal | compiler.py:72-76 | every natural number has a decimal spelling that the number rule decodes back to it |
| LexerProps.LexSpelling | compiler.py:65-81 | the text of any well-formed token, followed by a space, lexes to that token alone |
| LexerProps.LexRender | compiler.py:62-94 | the lexer recovers every token sequence it could have produced, with their lines, and reports no errors: lexing inverts rendering |
| Parser.ParseTypeId | compiler.py:149-153 | a `type_id` is recognised exactly when `INT` or `BOOL` is followed by `NAMEVAR`; it consumes those two tokens, and its type is `int` exactly when the first is `INT` |
| Soundness.TypeIdsSound | compiler.py:155-159 | an accepted `type_ids` is the yield of the comma-separated parameter list returned |
| Soundness.ExpSound | compiler.py:162-173 | an accepted `exp`, including `exp PLUS exp` and `exp EQUAL exp`, is exactly the yield of the tree returned |
| Soundness.OperandSound | compiler.py:162-172 | the non-infix `exp` alternatives (`NUMBER`, `NAMEVAR`, `b_value`, conditional, call, `let`) are accepted only as the yield of the tree returned |
| Soundness.CallSound | compiler.py:170 | an accepted call is `NAMEVAR OPENBRACK exps CLOSEBRACK` around the yield of its arguments |
| Soundness.IfSound | compiler.py:169 | an accepted conditional is `IF exp THEN exp ELSE exp` over the yields of its three parts |
| Soundness.LetSound | compiler.py:171 | an accepted `let` is `LET NAMEVAR EQUAL exp IN exp` over the yields of its two parts |
| Soundness.ExpsSound | compiler.py:175-179 | an accepted argument list is the comma-separated yield of its expressions |
| Soundness.FunSound | compiler.py:142-146 | an accepted function, with or without parameters, is the yield of the function tree returned |
| Soundness.FunsSound | compiler.py:135-139 | an accepted non-empty function sequence is the concatenated yield of its functions |
| Soundness.ProgramSound | compiler.py:127-133 | when the whole input is accepted, the program returned derives exactly that input |
| Canonical.Reassoc | compiler.py:167-168 | two canonical trees joined by `PLUS` or `EQUAL` can be rearranged into a canonical tree with the same yield |
| Canonical.NormalizeProgram | compiler.py:129-187 | every derivation of a program can be replaced by a canonical derivation with the same yield |
| Completeness.ParseExpComplete | compiler.py:162-173 | the recogniser rebuilds any canonical `exp` from its yield when nothing after it could extend it |
| Completeness.ParseExpsComplete | compiler.py:175-179 | the recogniser rebuilds any canonical argument list from its yield |
| Completeness.ParseTypeIdsComplete | compiler.py:155-159 | the recogniser rebuilds any parameter list from its yield |
| Completeness.ParseFunComplete | compiler.py:142-146 | the recogniser rebuilds any canonical function, with or without parameters, from its yield |
| Completeness.ParseFunsComplete | compiler.py:135-139 | the recogniser rebuilds any canonical function sequence from its yield |
| Completeness.ParseProgramComplete | compiler.py:127-139 | the recogniser accepts the yield of any canonical program and returns that program |
| Completeness.RecognizeCorrect | compiler.py:127-193 | a kind string is accepted (no syntax error) exactly when the grammar derives it from `program` |
| Completeness.CanonicalUnique | compiler.py:162-173 | two canonical derivations with the same yield are the same tree |
| Frontend.AcceptsCorrect | compiler.py:195-201 | a text is accepted exactly when the kinds of the tokens the lexer emits for it are derivable from `program` |
| Frontend.IllegalIgnored | compiler.py:91-94 | an illegal character is reported on line 1 and does not change the verdict on the text it precedes |
| Frontend.TokensHaveNoForeignChars | compiler.py:62-94 | no token the lexer emits carries a character that no rule consumes |
| Frontend.AcceptsSum | compiler.py:144 | the kinds of `int f(int x) = x + 1` form a program |
| Frontend.AcceptsTwoFunctions | compiler.py:137-145 | the kinds of `int f() = 1 bool g() = true`, two functions without parameters, form a program |
| Frontend.RejectsEmptyCall | compiler.py:170 | a call with no arguments (`int f() = g()`) is a syntax error |
| Frontend.RejectsEmpty | compiler.py:137-138 | the empty text is a syntax error, because a program has at least one function |

## Left out

- The parser-generator machinery is not modelled: `lexer.lex`, `yacc.yacc`, table generation, debug output, and how generated tables settle the shift/reduce conflicts (compiler.py:98-106, 195-201). It is a foreign library. The recogniser decides the same language by other means.
- Error recovery is not modelled. The generated parser may resume after `p_error` and report further errors. The model stops at a verdict, and `run` returns nothing useful in either case.
- Diagnostic text is not modelled: the messages printed by `t_ANY_error` and `p_error`, and the absolute offset `lexpos` they quote. They are output side effects.
- `p_error` at end of input is not modelled. There `p_error` receives no token, and reading `p.value` fails. Since messages are not modelled, the model only records that the input is rejected.
- `Lexing.test`, `build`, `input` and `token` are not modelled (compiler.py:98-117). They are wrappers around the foreign lexer and string formatting.
- The `Compiler` class (file I/O, exception handling, console output) and the `__main__` driver are not modelled.
- Tree shape, precedence and associativity are not modelled beyond language membership, because the source has no semantic actions and no precedence table.
- Frontend.AcceptsSum: stated on the kind string of the example rather than on its source text, because lexing a concrete text is left to the general lexer lemmas.
- Frontend.AcceptsTwoFunctions: stated on the kind string of the example rather than on its source text, for the same reason.
- Frontend.RejectsEmptyCall: stated on the kind string of the example rather than on its source text, for the same reason.
- Characters are not decoded from bytes. A `char` models one byte of the Python 2 `str`, so a multi-byte UTF-8 character is one `char` per byte here, and the source reports each of those bytes as its own error.
- That repeated runs give the same verdict is not stated separately: every operation is a pure function.
