/**
 Canonical derivation trees. The grammar is ambiguous: `exp PLUS exp` and `exp EQUAL exp`
 may nest either way, and the last `exp` of a conditional or a `let` may or may not
 swallow a following operator. A canonical tree always nests to the right: the left
 operand of an operator is a number, a name, a boolean or a call. Every tree can be
 rearranged into a canonical one with the same yield, so the canonical trees derive
 the whole language.
 */
module Canonical {
  import opened Tokens
  import opened Grammar

  /** An operand that ends where its own tokens end: nothing can extend it to the right. */
  predicate IsClosed(e: Exp) {
    e.NumberExp? || e.NameExp? || e.BValueExp? || e.CallExp?
  }

  predicate CanonExp(e: Exp) {
    match e
    case BinExp(_, l, r) => IsClosed(l) && CanonExp(l) && CanonExp(r)
    case IfExp(c, t, f) => CanonExp(c) && CanonExp(t) && CanonExp(f)
    case CallExp(args) => CanonExps(args)
    case LetExp(v, b) => CanonExp(v) && CanonExp(b)
    case _ => true
  }

  predicate CanonExps(es: Exps) {
    match es
    case LastExp(h) => CanonExp(h)
    case MoreExps(h, tail) => CanonExp(h) && CanonExps(tail)
  }

  predicate CanonFun(f: Fun) {
    CanonExp(f.body)
  }

  predicate CanonFuns(fs: Funs) {
    match fs
    case LastFun(h) => CanonFun(h)
    case MoreFuns(h, tail) => CanonFun(h) && CanonFuns(tail)
  }

  predicate CanonProgram(p: Program) {
    CanonFuns(p.funs)
  }

  /**
   Joins two canonical trees with an operator, pushing the operator down the right
   spine of the left tree until its left operand is closed.
   */
  function Reassoc(l: Exp, op: Op, r: Exp): (x: Exp)
    requires CanonExp(l) && CanonExp(r)
    ensures CanonExp(x)
    ensures YieldExp(x) == YieldExp(l) + [OpKind(op)] + YieldExp(r)
    decreases l
  {
    if l.BinExp? then
      var x' := Reassoc(l.right, op, r);
      AppendBelowBin(l.op, l.left, l.right, x', OpKind(op), YieldExp(r));
      BinExp(l.op, l.left, x')
    else if l.IfExp? then
      var x' := Reassoc(l.els, op, r);
      AppendBelowIf(l.cond, l.thn, l.els, x', OpKind(op), YieldExp(r));
      IfExp(l.cond, l.thn, x')
    else if l.LetExp? then
      var x' := Reassoc(l.body, op, r);
      AppendBelowLet(l.bound, l.body, x', OpKind(op), YieldExp(r));
      LetExp(l.bound, x')
    else BinExp(op, l, r)
  }

  // Replacing the last subtree by one that yields more tokens appends them to the whole.

  lemma AppendBelowBin(op: Op, a: Exp, e: Exp, e': Exp, k: Kind, more: seq<Kind>)
    requires YieldExp(e') == YieldExp(e) + [k] + more
    ensures YieldExp(BinExp(op, a, e')) == YieldExp(BinExp(op, a, e)) + [k] + more
  {
    AppendAssoc(YieldExp(a) + [OpKind(op)], YieldExp(e), [k], more);
  }

  lemma AppendBelowIf(c: Exp, t: Exp, e: Exp, e': Exp, k: Kind, more: seq<Kind>)
    requires YieldExp(e') == YieldExp(e) + [k] + more
    ensures YieldExp(IfExp(c, t, e')) == YieldExp(IfExp(c, t, e)) + [k] + more
  {
    AppendAssoc([If] + YieldExp(c) + [Then] + YieldExp(t) + [Else], YieldExp(e), [k], more);
  }

  lemma AppendBelowLet(v: Exp, e: Exp, e': Exp, k: Kind, more: seq<Kind>)
    requires YieldExp(e') == YieldExp(e) + [k] + more
    ensures YieldExp(LetExp(v, e')) == YieldExp(LetExp(v, e)) + [k] + more
  {
    AppendAssoc([Let, NameVar, Equal] + YieldExp(v) + [In], YieldExp(e), [k], more);
  }

  lemma AppendAssoc(p: seq<Kind>, a: seq<Kind>, b: seq<Kind>, c: seq<Kind>)
    ensures p + (a + b + c) == p + a + b + c
  {
  }

  /** A canonical tree with the same yield as `e`. */
  function NormalizeExp(e: Exp): (x: Exp)
    ensures CanonExp(x)
    ensures YieldExp(x) == YieldExp(e)
    decreases e
  {
    match e
    case BinExp(op, l, r) => Reassoc(NormalizeExp(l), op, NormalizeExp(r))
    case IfExp(c, t, f) => IfExp(NormalizeExp(c), NormalizeExp(t), NormalizeExp(f))
    case CallExp(args) => CallExp(NormalizeExps(args))
    case LetExp(v, b) => LetExp(NormalizeExp(v), NormalizeExp(b))
    case _ => e
  }

  function NormalizeExps(es: Exps): (xs: Exps)
    ensures CanonExps(xs)
    ensures YieldExps(xs) == YieldExps(es)
    decreases es
  {
    match es
    case LastExp(h) => LastExp(NormalizeExp(h))
    case MoreExps(h, tail) => MoreExps(NormalizeExp(h), NormalizeExps(tail))
  }

  function NormalizeFun(f: Fun): (g: Fun)
    ensures CanonFun(g)
    ensures YieldFun(g) == YieldFun(f)
  {
    match f
    case FunParams(sig, ps, body) => FunParams(sig, ps, NormalizeExp(body))
    case FunNoParams(sig, body) => FunNoParams(sig, NormalizeExp(body))
  }

  function NormalizeFuns(fs: Funs): (gs: Funs)
    ensures CanonFuns(gs)
    ensures YieldFuns(gs) == YieldFuns(fs)
  {
    match fs
    case LastFun(h) => LastFun(NormalizeFun(h))
    case MoreFuns(h, tail) => MoreFuns(NormalizeFun(h), NormalizeFuns(tail))
  }

  /** Every derivation of a program can be replaced by a canonical one. */
  function NormalizeProgram(p: Program): (q: Program)
    ensures CanonProgram(q)
    ensures YieldProgram(q) == YieldProgram(p)
  {
    Program(NormalizeFuns(p.funs))
  }
}
