/**
 A deterministic recursive-descent recognizer for the grammar. Each function parses one
 nonterminal starting at position `i` of a kind string and, on success, returns a
 derivation tree together with the position after it. Module `Soundness` proves that the
 tree's yield is exactly the kinds consumed, so whatever is accepted is derivable.

 Choices are made on the next kind alone: `NAMEVAR` followed by `OPENBRACK` is a call;
 after an operand, `PLUS` or `EQUAL` continues the expression to the right. The
 trees returned are therefore right-nested; that shape is a choice of this recognizer
 and not something the grammar fixes.
 */
module Parser {
  import opened Wrappers
  import opened Tokens
  import opened Grammar

  /** Position `i` holds kind `k`. */
  predicate At(s: seq<Kind>, i: nat, k: Kind) {
    i < |s| && s[i] == k
  }

  function ParseTypeId(s: seq<Kind>, i: nat): (r: Option<(TypeId, nat)>)
    requires i <= |s|
    ensures r.Some? ==> r.value.1 == i + 2 <= |s|
    ensures r.None? ==> !(i + 1 < |s| && (s[i] == Int || s[i] == Bool) && s[i + 1] == NameVar)
    ensures r.Some? ==> (s[i] == Int || s[i] == Bool) && s[i + 1] == NameVar
    ensures r.Some? ==> (r.value.0.ty == IntType <==> s[i] == Int)
  {
    if i + 1 < |s| && (s[i] == Int || s[i] == Bool) && s[i + 1] == NameVar then
      Some((TypeId(if s[i] == Int then IntType else BoolType), i + 2))
    else None
  }

  function ParseTypeIds(s: seq<Kind>, i: nat): (r: Option<(TypeIds, nat)>)
    requires i <= |s|
    ensures r.Some? ==> i < r.value.1 <= |s|
    decreases |s| - i
  {
    match ParseTypeId(s, i)
    case None => None
    case Some((h, j)) =>
      if At(s, j, Comma) then
        match ParseTypeIds(s, j + 1)
        case None => None
        case Some((tail, k)) => Some((MoreTypeIds(h, tail), k))
      else Some((LastTypeId(h), j))
  }

  /**
   `exp`: one operand, then, if the next kind is `PLUS` or `EQUAL`, the operator and
   the rest of the expression.
   */
  function ParseExp(s: seq<Kind>, i: nat): (r: Option<(Exp, nat)>)
    requires i <= |s|
    ensures r.Some? ==> i < r.value.1 <= |s|
    decreases |s| - i, 2
  {
    match ParseOperand(s, i)
    case None => None
    case Some((a, j)) =>
      if At(s, j, Plus) || At(s, j, Equal) then
        var op := if s[j] == Plus then PlusOp else EqualOp;
        match ParseExp(s, j + 1)
        case None => None
        case Some((b, k)) => Some((BinExp(op, a, b), k))
      else Some((a, j))
  }

  /**
   An operand: every `exp` alternative except the two infix ones, chosen by the next
   kind; `NAMEVAR` is a call when `OPENBRACK` follows it and a variable otherwise.
   */
  function ParseOperand(s: seq<Kind>, i: nat): (r: Option<(Exp, nat)>)
    requires i <= |s|
    ensures r.Some? ==> i < r.value.1 <= |s|
    decreases |s| - i, 1
  {
    if i == |s| then None
    else match s[i] {
      case Number => Some((NumberExp, i + 1))
      case True => Some((BValueExp(TrueValue), i + 1))
      case False => Some((BValueExp(FalseValue), i + 1))
      case NameVar => if At(s, i + 1, OpenBrack) then ParseCall(s, i) else Some((NameExp, i + 1))
      case If => ParseIf(s, i)
      case Let => ParseLet(s, i)
      case _ => None
    }
  }

  /** `NAMEVAR OPENBRACK exps CLOSEBRACK`: the argument list is never empty. */
  function ParseCall(s: seq<Kind>, i: nat): (r: Option<(Exp, nat)>)
    requires i + 1 < |s| && s[i] == NameVar && s[i + 1] == OpenBrack
    ensures r.Some? ==> i < r.value.1 <= |s|
    decreases |s| - i, 0
  {
    match ParseExps(s, i + 2) {
      case None => None
      case Some((args, j)) =>
        if !At(s, j, CloseBrack) then None
        else Some((CallExp(args), j + 1))
    }
  }

  /** `IF exp THEN exp ELSE exp`: the condition, then the rest from `THEN`. */
  function ParseIf(s: seq<Kind>, i: nat): (r: Option<(Exp, nat)>)
    requires i < |s| && s[i] == If
    ensures r.Some? ==> i < r.value.1 <= |s|
    decreases |s| - i, 0
  {
    match ParseExp(s, i + 1)
    case None => None
    case Some((c, j)) => if At(s, j, Then) then ParseThen(s, c, j) else None
  }

  /** The rest of a conditional from its `THEN` at `j`, the condition `c` being parsed. */
  function ParseThen(s: seq<Kind>, c: Exp, j: nat): (r: Option<(Exp, nat)>)
    requires j < |s| && s[j] == Then
    ensures r.Some? ==> j < r.value.1 <= |s|
    decreases |s| - j, 0
  {
    match ParseExp(s, j + 1)
    case None => None
    case Some((t, k)) => if At(s, k, Else) then ParseElse(s, c, t, k) else None
  }

  /** The last part of a conditional from its `ELSE` at `k`; it extends as far as `ParseExp` takes it. */
  function ParseElse(s: seq<Kind>, c: Exp, t: Exp, k: nat): (r: Option<(Exp, nat)>)
    requires k < |s| && s[k] == Else
    ensures r.Some? ==> k < r.value.1 <= |s|
    decreases |s| - k, 0
  {
    match ParseExp(s, k + 1)
    case None => None
    case Some((f, m)) => Some((IfExp(c, t, f), m))
  }

  /** `LET NAMEVAR EQUAL exp IN exp`: the bound expression, then the rest from `IN`. */
  function ParseLet(s: seq<Kind>, i: nat): (r: Option<(Exp, nat)>)
    requires i < |s| && s[i] == Let
    ensures r.Some? ==> i < r.value.1 <= |s|
    decreases |s| - i, 0
  {
    if !(At(s, i + 1, NameVar) && At(s, i + 2, Equal)) then None
    else match ParseExp(s, i + 3) {
      case None => None
      case Some((v, j)) => if At(s, j, In) then ParseIn(s, v, j) else None
    }
  }

  /** The body of a `let` from its `IN` at `j`; it extends as far as `ParseExp` takes it. */
  function ParseIn(s: seq<Kind>, v: Exp, j: nat): (r: Option<(Exp, nat)>)
    requires j < |s| && s[j] == In
    ensures r.Some? ==> j < r.value.1 <= |s|
    decreases |s| - j, 0
  {
    match ParseExp(s, j + 1)
    case None => None
    case Some((b, k)) => Some((LetExp(v, b), k))
  }

  /** `exps`: a non-empty comma-separated list of expressions. */
  function ParseExps(s: seq<Kind>, i: nat): (r: Option<(Exps, nat)>)
    requires i <= |s|
    ensures r.Some? ==> i < r.value.1 <= |s|
    decreases |s| - i, 3
  {
    match ParseExp(s, i)
    case None => None
    case Some((h, j)) =>
      if At(s, j, Comma) then
        match ParseExps(s, j + 1)
        case None => None
        case Some((tail, k)) => Some((MoreExps(h, tail), k))
      else Some((LastExp(h), j))
  }

  /**
   `fun`: a signature, then `OPENBRACK`; a `CLOSEBRACK` right after it means the function
   has no parameters.
   */
  function ParseFun(s: seq<Kind>, i: nat): (r: Option<(Fun, nat)>)
    requires i <= |s|
    ensures r.Some? ==> i < r.value.1 <= |s|
  {
    match ParseTypeId(s, i)
    case None => None
    case Some((sig, j)) =>
      if !At(s, j, OpenBrack) then None
      else if At(s, j + 1, CloseBrack) then ParseNoParams(s, sig, j + 1)
      else ParseParams(s, sig, j + 1)
  }

  /** `CLOSEBRACK EQUAL exp` of a function without parameters, from position `j`. */
  function ParseNoParams(s: seq<Kind>, sig: TypeId, j: nat): (r: Option<(Fun, nat)>)
    requires j < |s| && s[j] == CloseBrack
    ensures r.Some? ==> j < r.value.1 <= |s|
  {
    if !At(s, j + 1, Equal) then None
    else match ParseExp(s, j + 2) {
      case None => None
      case Some((body, k)) => Some((FunNoParams(sig, body), k))
    }
  }

  /** `type_ids CLOSEBRACK EQUAL exp` of a function with parameters, from position `j`. */
  function ParseParams(s: seq<Kind>, sig: TypeId, j: nat): (r: Option<(Fun, nat)>)
    requires j <= |s|
    ensures r.Some? ==> j < r.value.1 <= |s|
  {
    match ParseTypeIds(s, j)
    case None => None
    case Some((ps, k)) => if At(s, k, CloseBrack) then ParseParamsBody(s, sig, ps, k) else None
  }

  /** `CLOSEBRACK EQUAL exp` after the parameter list `ps`, from position `k`. */
  function ParseParamsBody(s: seq<Kind>, sig: TypeId, ps: TypeIds, k: nat): (r: Option<(Fun, nat)>)
    requires k < |s| && s[k] == CloseBrack
    ensures r.Some? ==> k < r.value.1 <= |s|
  {
    if !At(s, k + 1, Equal) then None
    else match ParseExp(s, k + 2) {
      case None => None
      case Some((body, m)) => Some((FunParams(sig, ps, body), m))
    }
  }

  /** `funs`: one function, then more while the next kind can start a function. */
  function ParseFuns(s: seq<Kind>, i: nat): (r: Option<(Funs, nat)>)
    requires i <= |s|
    ensures r.Some? ==> i < r.value.1 <= |s|
    decreases |s| - i
  {
    match ParseFun(s, i)
    case None => None
    case Some((h, j)) =>
      if At(s, j, Int) || At(s, j, Bool) then
        match ParseFuns(s, j)
        case None => None
        case Some((tail, k)) => Some((MoreFuns(h, tail), k))
      else Some((LastFun(h), j))
  }

  /** `program`: the functions must use up the whole input; anything else is a syntax error. */
  function ParseProgram(s: seq<Kind>): Option<Program> {
    match ParseFuns(s, 0)
    case None => None
    case Some((fs, k)) => if k == |s| then Some(Program(fs)) else None
  }

  /** The recognizer's verdict: accept, or reject with a syntax error. */
  function Recognize(s: seq<Kind>): bool {
    ParseProgram(s).Some?
  }
}
