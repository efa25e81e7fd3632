/**
 The grammar the parser declares (grammar 5.1 of Mogensen's "Basics of Compiler Design",
 extended with zero-parameter functions and boolean literals), as derivation trees. Each
 constructor is one production; the yield of a tree is the string of token kinds it
 derives. A token string belongs to the language when some tree yields it.
 */
module Grammar {
  import opened Tokens

  /** `type_id : INT NAMEVAR | BOOL NAMEVAR` */
  datatype TypeName = IntType | BoolType
  datatype TypeId = TypeId(ty: TypeName)

  /** `type_ids : type_id | type_id COMMA type_ids` */
  datatype TypeIds = LastTypeId(head: TypeId) | MoreTypeIds(head: TypeId, tail: TypeIds)

  /** `b_value : TRUE | FALSE` */
  datatype BValue = TrueValue | FalseValue

  /** The two infix productions `exp PLUS exp` and `exp EQUAL exp`. */
  datatype Op = PlusOp | EqualOp

  /**
   `exp : NUMBER | NAMEVAR | b_value | exp PLUS exp | exp EQUAL exp
        | IF exp THEN exp ELSE exp | NAMEVAR OPENBRACK exps CLOSEBRACK
        | LET NAMEVAR EQUAL exp IN exp`
   */
  datatype Exp =
    | NumberExp
    | NameExp
    | BValueExp(b: BValue)
    | BinExp(op: Op, left: Exp, right: Exp)
    | IfExp(cond: Exp, thn: Exp, els: Exp)
    | CallExp(args: Exps)
    | LetExp(bound: Exp, body: Exp)

  /** `exps : exp | exp COMMA exps` */
  datatype Exps = LastExp(head: Exp) | MoreExps(head: Exp, tail: Exps)

  /**
   `fun : type_id OPENBRACK type_ids CLOSEBRACK EQUAL exp
        | type_id OPENBRACK CLOSEBRACK EQUAL exp`
   */
  datatype Fun = FunParams(sig: TypeId, params: TypeIds, body: Exp) | FunNoParams(sig: TypeId, body: Exp)

  /** `funs : fun funs | fun` */
  datatype Funs = LastFun(head: Fun) | MoreFuns(head: Fun, tail: Funs)

  /** `program : funs`, the start symbol. */
  datatype Program = Program(funs: Funs)

  function OpKind(op: Op): Kind {
    match op
    case PlusOp => Plus
    case EqualOp => Equal
  }

  function YieldTypeId(t: TypeId): seq<Kind> {
    [if t.ty == IntType then Int else Bool, NameVar]
  }

  function YieldTypeIds(ts: TypeIds): seq<Kind> {
    match ts
    case LastTypeId(h) => YieldTypeId(h)
    case MoreTypeIds(h, tail) => YieldTypeId(h) + [Comma] + YieldTypeIds(tail)
  }

  function YieldBValue(b: BValue): seq<Kind> {
    [if b == TrueValue then True else False]
  }

  function YieldExp(e: Exp): seq<Kind> {
    match e
    case NumberExp => [Number]
    case NameExp => [NameVar]
    case BValueExp(b) => YieldBValue(b)
    case BinExp(op, l, r) => YieldExp(l) + [OpKind(op)] + YieldExp(r)
    case IfExp(c, t, f) => [If] + YieldExp(c) + [Then] + YieldExp(t) + [Else] + YieldExp(f)
    case CallExp(args) => [NameVar, OpenBrack] + YieldExps(args) + [CloseBrack]
    case LetExp(v, b) => [Let, NameVar, Equal] + YieldExp(v) + [In] + YieldExp(b)
  }

  function YieldExps(es: Exps): seq<Kind> {
    match es
    case LastExp(h) => YieldExp(h)
    case MoreExps(h, tail) => YieldExp(h) + [Comma] + YieldExps(tail)
  }

  function YieldFun(f: Fun): seq<Kind> {
    match f
    case FunParams(sig, ps, body) =>
      YieldTypeId(sig) + [OpenBrack] + YieldTypeIds(ps) + [CloseBrack, Equal] + YieldExp(body)
    case FunNoParams(sig, body) =>
      YieldTypeId(sig) + [OpenBrack, CloseBrack, Equal] + YieldExp(body)
  }

  function YieldFuns(fs: Funs): seq<Kind> {
    match fs
    case LastFun(h) => YieldFun(h)
    case MoreFuns(h, tail) => YieldFun(h) + YieldFuns(tail)
  }

  function YieldProgram(p: Program): seq<Kind> {
    YieldFuns(p.funs)
  }

  /** The language of the grammar: token-kind strings derivable from `program`. */
  ghost predicate IsProgram(s: seq<Kind>) {
    exists p: Program :: YieldProgram(p) == s
  }
}
