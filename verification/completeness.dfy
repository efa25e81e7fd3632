/**
 The recognizer accepts exactly the language of the grammar. On the yield of a canonical
 tree it returns that very tree; since every derivation has a canonical counterpart with
 the same yield, every derivable kind string is accepted, and by the parse functions'
 own contracts every accepted string is derivable.
 */
module Completeness {
  import opened Wrappers
  import opened Tokens
  import opened Grammar
  import opened Parser
  import opened Canonical
  import opened Soundness

  /** The kinds `y` appear in `s` starting at position `i`. */
  predicate Occurs(s: seq<Kind>, i: nat, y: seq<Kind>)
    decreases |y|
  {
    if |y| == 0 then i <= |s| else At(s, i, y[0]) && Occurs(s, i + 1, y[1..])
  }

  lemma OccursBound(s: seq<Kind>, i: nat, y: seq<Kind>)
    requires Occurs(s, i, y)
    ensures i + |y| <= |s|
    decreases |y|
  {
    if |y| > 0 {
      OccursBound(s, i + 1, y[1..]);
    }
  }

  /** Every suffix occurs where it starts. */
  lemma OccursSuffix(s: seq<Kind>, i: nat)
    requires i <= |s|
    ensures Occurs(s, i, s[i..])
    decreases |s| - i
  {
    if i < |s| {
      assert s[i..][1..] == s[i + 1..];
      OccursSuffix(s, i + 1);
    }
  }

  /**
   An expression may end before position `j`: nothing there could continue it, as an
   operator would continue an operand and `OPENBRACK` would turn a name into a call.
   */
  predicate Ends(s: seq<Kind>, j: nat) {
    !At(s, j, Plus) && !At(s, j, Equal) && !At(s, j, OpenBrack)
  }

  // Splitting an occurrence; `j` is where the second part starts.

  lemma OccursConcat(s: seq<Kind>, i: nat, a: seq<Kind>, b: seq<Kind>, j: nat)
    requires Occurs(s, i, a + b) && j == i + |a|
    ensures Occurs(s, i, a) && Occurs(s, j, b)
    decreases |a|
  {
    if |a| == 0 {
      assert a + b == b;
      OccursBound(s, i, b);
    } else {
      assert (a + b)[0] == a[0];
      assert (a + b)[1..] == a[1..] + b;
      OccursConcat(s, i + 1, a[1..], b, j);
    }
  }

  lemma OccursHead(s: seq<Kind>, i: nat, k: Kind, b: seq<Kind>)
    requires Occurs(s, i, [k] + b)
    ensures At(s, i, k) && Occurs(s, i + 1, b)
  {
    assert ([k] + b)[1..] == b;
  }

  lemma OccursSingle(s: seq<Kind>, i: nat, k: Kind)
    requires Occurs(s, i, [k])
    ensures At(s, i, k)
  {
  }

  lemma OccursAround(s: seq<Kind>, i: nat, a: seq<Kind>, k: Kind, b: seq<Kind>, j: nat)
    requires Occurs(s, i, a + [k] + b) && j == i + |a|
    ensures Occurs(s, i, a) && At(s, j, k) && Occurs(s, j + 1, b)
  {
    OccursConcat(s, i, a + [k], b, j + 1);
    OccursConcat(s, i, a, [k], j);
  }

  lemma OccursPair(s: seq<Kind>, i: nat, a: Kind, b: Kind)
    requires Occurs(s, i, [a, b])
    ensures At(s, i, a) && At(s, i + 1, b)
  {
    assert [a, b] == [a] + [b];
    OccursHead(s, i, a, [b]);
  }

  lemma OccursTriple(s: seq<Kind>, i: nat, a: Kind, b: Kind, c: Kind)
    requires Occurs(s, i, [a, b, c])
    ensures At(s, i, a) && At(s, i + 1, b) && At(s, i + 2, c)
  {
    assert [a, b, c] == [a] + [b, c];
    OccursHead(s, i, a, [b, c]);
    OccursPair(s, i + 1, b, c);
  }

  /** A yield begins with the token that starts its first production. */
  lemma OccursFirst(s: seq<Kind>, i: nat, y: seq<Kind>)
    requires Occurs(s, i, y) && |y| > 0
    ensures At(s, i, y[0])
  {
  }

  // The parts of each production's yield, located in `s`. The caller names the
  // positions between the parts; the last one given is where the whole yield ends.

  lemma OccursBin(s: seq<Kind>, i: nat, op: Op, l: Exp, r: Exp, j: nat, k: nat)
    requires Occurs(s, i, YieldExp(BinExp(op, l, r)))
    requires j == i + |YieldExp(l)| && k == i + |YieldExp(BinExp(op, l, r))|
    ensures Occurs(s, i, YieldExp(l)) && At(s, j, OpKind(op)) && Occurs(s, j + 1, YieldExp(r))
    ensures k == j + 1 + |YieldExp(r)|
  {
    OccursAround(s, i, YieldExp(l), OpKind(op), YieldExp(r), j);
  }

  lemma OccursIf(s: seq<Kind>, i: nat, c: Exp, t: Exp, f: Exp, j: nat, k: nat, m: nat)
    requires Occurs(s, i, YieldExp(IfExp(c, t, f)))
    requires j == i + 1 + |YieldExp(c)| && k == j + 1 + |YieldExp(t)|
    requires m == i + |YieldExp(IfExp(c, t, f))|
    ensures At(s, i, If) && Occurs(s, i + 1, YieldExp(c))
    ensures At(s, j, Then) && Occurs(s, j + 1, YieldExp(t))
    ensures At(s, k, Else) && Occurs(s, k + 1, YieldExp(f))
    ensures m == k + 1 + |YieldExp(f)|
  {
    var yc, yt, yf := YieldExp(c), YieldExp(t), YieldExp(f);
    OccursAround(s, i, [If] + yc + [Then] + yt, Else, yf, k);
    OccursAround(s, i, [If] + yc, Then, yt, j);
    OccursHead(s, i, If, yc);
  }

  lemma OccursLet(s: seq<Kind>, i: nat, v: Exp, b: Exp, j: nat, k: nat)
    requires Occurs(s, i, YieldExp(LetExp(v, b)))
    requires j == i + 3 + |YieldExp(v)| && k == i + |YieldExp(LetExp(v, b))|
    ensures At(s, i, Let) && At(s, i + 1, NameVar) && At(s, i + 2, Equal)
    ensures Occurs(s, i + 3, YieldExp(v)) && At(s, j, In) && Occurs(s, j + 1, YieldExp(b))
    ensures k == j + 1 + |YieldExp(b)|
  {
    var yv, yb := YieldExp(v), YieldExp(b);
    OccursAround(s, i, [Let, NameVar, Equal] + yv, In, yb, j);
    OccursConcat(s, i, [Let, NameVar, Equal], yv, i + 3);
    OccursTriple(s, i, Let, NameVar, Equal);
  }

  lemma OccursCall(s: seq<Kind>, i: nat, args: Exps, j: nat, k: nat)
    requires Occurs(s, i, YieldExp(CallExp(args)))
    requires j == i + 2 + |YieldExps(args)| && k == i + |YieldExp(CallExp(args))|
    ensures At(s, i, NameVar) && At(s, i + 1, OpenBrack) && Occurs(s, i + 2, YieldExps(args))
    ensures At(s, j, CloseBrack) && k == j + 1
  {
    var ya := YieldExps(args);
    OccursConcat(s, i, [NameVar, OpenBrack] + ya, [CloseBrack], j);
    OccursConcat(s, i, [NameVar, OpenBrack], ya, i + 2);
    OccursPair(s, i, NameVar, OpenBrack);
    OccursSingle(s, j, CloseBrack);
  }

  lemma OccursFunParams(s: seq<Kind>, i: nat, sig: TypeId, ps: TypeIds, body: Exp, k: nat, m: nat)
    requires Occurs(s, i, YieldFun(FunParams(sig, ps, body)))
    requires k == i + 3 + |YieldTypeIds(ps)| && m == i + |YieldFun(FunParams(sig, ps, body))|
    ensures Occurs(s, i, YieldTypeId(sig)) && At(s, i + 2, OpenBrack)
    ensures Occurs(s, i + 3, YieldTypeIds(ps)) && At(s, k, CloseBrack) && At(s, k + 1, Equal)
    ensures Occurs(s, k + 2, YieldExp(body))
    ensures m == k + 2 + |YieldExp(body)|
  {
    OccursFunParamsTail(s, i, sig, ps, body, k, m);
    OccursAround(s, i, YieldTypeId(sig), OpenBrack, YieldTypeIds(ps), i + 2);
  }

  lemma OccursFunParamsTail(s: seq<Kind>, i: nat, sig: TypeId, ps: TypeIds, body: Exp, k: nat, m: nat)
    requires Occurs(s, i, YieldFun(FunParams(sig, ps, body)))
    requires k == i + 3 + |YieldTypeIds(ps)| && m == i + |YieldFun(FunParams(sig, ps, body))|
    ensures Occurs(s, i, YieldTypeId(sig) + [OpenBrack] + YieldTypeIds(ps))
    ensures At(s, k, CloseBrack) && At(s, k + 1, Equal) && Occurs(s, k + 2, YieldExp(body))
    ensures m == k + 2 + |YieldExp(body)|
  {
    var head := YieldTypeId(sig) + [OpenBrack] + YieldTypeIds(ps);
    OccursConcat(s, i, head + [CloseBrack, Equal], YieldExp(body), k + 2);
    OccursConcat(s, i, head, [CloseBrack, Equal], k);
    OccursPair(s, k, CloseBrack, Equal);
  }

  lemma OccursFunNoParams(s: seq<Kind>, i: nat, sig: TypeId, body: Exp, m: nat)
    requires Occurs(s, i, YieldFun(FunNoParams(sig, body)))
    requires m == i + |YieldFun(FunNoParams(sig, body))|
    ensures Occurs(s, i, YieldTypeId(sig)) && At(s, i + 2, OpenBrack)
    ensures At(s, i + 3, CloseBrack) && At(s, i + 4, Equal) && Occurs(s, i + 5, YieldExp(body))
    ensures m == i + 5 + |YieldExp(body)|
  {
    var ys, yb := YieldTypeId(sig), YieldExp(body);
    OccursConcat(s, i, ys + [OpenBrack, CloseBrack, Equal], yb, i + 5);
    OccursConcat(s, i, ys, [OpenBrack, CloseBrack, Equal], i + 2);
    OccursTriple(s, i + 2, OpenBrack, CloseBrack, Equal);
  }

  /** A parameter list starts with `INT` or `BOOL`, never with `CLOSEBRACK`. */
  lemma YieldTypeIdsStart(ts: TypeIds)
    ensures |YieldTypeIds(ts)| > 0 && (YieldTypeIds(ts)[0] == Int || YieldTypeIds(ts)[0] == Bool)
  {
  }

  /** A list of functions starts with `INT` or `BOOL`. */
  lemma YieldFunsStart(fs: Funs)
    ensures |YieldFuns(fs)| > 0 && (YieldFuns(fs)[0] == Int || YieldFuns(fs)[0] == Bool)
  {
    var h := fs.head;
    assert YieldFun(h)[0] == YieldTypeId(h.sig)[0];
  }

  // One unfolding of a parse function each: what it returns once its parts are known.

  lemma ExpStepOperand(s: seq<Kind>, i: nat, e: Exp, j: nat)
    requires i <= |s| && ParseOperand(s, i) == Some((e, j))
    requires !At(s, j, Plus) && !At(s, j, Equal)
    ensures ParseExp(s, i) == Some((e, j))
  {
  }

  lemma ExpStepBin(s: seq<Kind>, i: nat, l: Exp, j: nat, op: Op, r: Exp, k: nat)
    requires i <= |s| && ParseOperand(s, i) == Some((l, j)) && At(s, j, OpKind(op))
    requires j + 1 <= |s| && ParseExp(s, j + 1) == Some((r, k))
    ensures ParseExp(s, i) == Some((BinExp(op, l, r), k))
  {
  }

  lemma CallStep(s: seq<Kind>, i: nat, args: Exps, j: nat)
    requires At(s, i, NameVar) && At(s, i + 1, OpenBrack)
    requires ParseExps(s, i + 2) == Some((args, j)) && At(s, j, CloseBrack)
    ensures ParseCall(s, i) == Some((CallExp(args), j + 1))
  {
  }

  lemma OperandStepCall(s: seq<Kind>, i: nat, args: Exps, j: nat)
    requires At(s, i, NameVar) && At(s, i + 1, OpenBrack)
    requires ParseExps(s, i + 2) == Some((args, j)) && At(s, j, CloseBrack)
    ensures ParseOperand(s, i) == Some((CallExp(args), j + 1))
  {
    CallStep(s, i, args, j);
  }

  lemma IfStep(s: seq<Kind>, i: nat, c: Exp, j: nat, t: Exp, k: nat, f: Exp, m: nat)
    requires At(s, i, If) && ParseExp(s, i + 1) == Some((c, j))
    requires At(s, j, Then) && ParseExp(s, j + 1) == Some((t, k))
    requires At(s, k, Else) && ParseExp(s, k + 1) == Some((f, m))
    ensures ParseIf(s, i) == Some((IfExp(c, t, f), m))
  {
    assert ParseElse(s, c, t, k) == Some((IfExp(c, t, f), m));
    assert ParseThen(s, c, j) == Some((IfExp(c, t, f), m));
  }

  lemma OperandStepIf(s: seq<Kind>, i: nat, e: Exp, m: nat)
    requires At(s, i, If) && ParseIf(s, i) == Some((e, m))
    ensures ParseOperand(s, i) == Some((e, m))
  {
  }

  lemma LetStep(s: seq<Kind>, i: nat, v: Exp, j: nat, b: Exp, k: nat)
    requires At(s, i, Let) && At(s, i + 1, NameVar) && At(s, i + 2, Equal)
    requires ParseExp(s, i + 3) == Some((v, j))
    requires At(s, j, In) && ParseExp(s, j + 1) == Some((b, k))
    ensures ParseLet(s, i) == Some((LetExp(v, b), k))
  {
    assert ParseIn(s, v, j) == Some((LetExp(v, b), k));
  }

  lemma OperandStepLet(s: seq<Kind>, i: nat, e: Exp, k: nat)
    requires At(s, i, Let) && ParseLet(s, i) == Some((e, k))
    ensures ParseOperand(s, i) == Some((e, k))
  {
  }

  lemma ExpsStepLast(s: seq<Kind>, i: nat, h: Exp, j: nat)
    requires i <= |s| && ParseExp(s, i) == Some((h, j)) && !At(s, j, Comma)
    ensures ParseExps(s, i) == Some((LastExp(h), j))
  {
  }

  lemma ExpsStepMore(s: seq<Kind>, i: nat, h: Exp, j: nat, tail: Exps, k: nat)
    requires i <= |s| && ParseExp(s, i) == Some((h, j)) && At(s, j, Comma)
    requires ParseExps(s, j + 1) == Some((tail, k))
    ensures ParseExps(s, i) == Some((MoreExps(h, tail), k))
  {
  }

  lemma TypeIdsStepLast(s: seq<Kind>, i: nat, h: TypeId, j: nat)
    requires i <= |s| && ParseTypeId(s, i) == Some((h, j)) && !At(s, j, Comma)
    ensures ParseTypeIds(s, i) == Some((LastTypeId(h), j))
  {
  }

  lemma TypeIdsStepMore(s: seq<Kind>, i: nat, h: TypeId, j: nat, tail: TypeIds, k: nat)
    requires i <= |s| && ParseTypeId(s, i) == Some((h, j)) && At(s, j, Comma)
    requires ParseTypeIds(s, j + 1) == Some((tail, k))
    ensures ParseTypeIds(s, i) == Some((MoreTypeIds(h, tail), k))
  {
  }

  lemma FunStepNoParams(s: seq<Kind>, i: nat, sig: TypeId, body: Exp, k: nat)
    requires i <= |s| && ParseTypeId(s, i) == Some((sig, i + 2))
    requires At(s, i + 2, OpenBrack) && At(s, i + 3, CloseBrack) && At(s, i + 4, Equal)
    requires ParseExp(s, i + 5) == Some((body, k))
    ensures ParseFun(s, i) == Some((FunNoParams(sig, body), k))
  {
    assert ParseNoParams(s, sig, i + 3) == Some((FunNoParams(sig, body), k));
  }

  lemma FunStepParams(s: seq<Kind>, i: nat, sig: TypeId, ps: TypeIds, k: nat, body: Exp, m: nat)
    requires i <= |s| && ParseTypeId(s, i) == Some((sig, i + 2))
    requires At(s, i + 2, OpenBrack) && !At(s, i + 3, CloseBrack)
    requires ParseTypeIds(s, i + 3) == Some((ps, k))
    requires At(s, k, CloseBrack) && At(s, k + 1, Equal) && ParseExp(s, k + 2) == Some((body, m))
    ensures ParseFun(s, i) == Some((FunParams(sig, ps, body), m))
  {
    assert ParseParamsBody(s, sig, ps, k) == Some((FunParams(sig, ps, body), m));
    assert ParseParams(s, sig, i + 3) == Some((FunParams(sig, ps, body), m));
  }

  lemma FunsStepLast(s: seq<Kind>, i: nat, h: Fun, j: nat)
    requires i <= |s| && ParseFun(s, i) == Some((h, j)) && !At(s, j, Int) && !At(s, j, Bool)
    ensures ParseFuns(s, i) == Some((LastFun(h), j))
  {
  }

  lemma FunsStepMore(s: seq<Kind>, i: nat, h: Fun, j: nat, tail: Funs, k: nat)
    requires i <= |s| && ParseFun(s, i) == Some((h, j)) && (At(s, j, Int) || At(s, j, Bool))
    requires ParseFuns(s, j) == Some((tail, k))
    ensures ParseFuns(s, i) == Some((MoreFuns(h, tail), k))
  {
  }
  /**
   The recognizer rebuilds a canonical expression from its yield, which ends at `j`
   with nothing after it that could extend the expression.
   */
  lemma {:induction false} ParseExpComplete(s: seq<Kind>, i: nat, e: Exp, j: nat)
    requires CanonExp(e) && Occurs(s, i, YieldExp(e)) && j == i + |YieldExp(e)| && Ends(s, j)
    ensures ParseExp(s, i) == Some((e, j))
    decreases e, 3
  {
    match e
    case BinExp(op, l, r) =>
      var jl := i + |YieldExp(l)|;
      OccursBin(s, i, op, l, r, jl, j);
      ParseOperandComplete(s, i, l, jl);
      ParseExpComplete(s, jl + 1, r, j);
      ExpStepBin(s, i, l, jl, op, r, j);
    case _ =>
      ParseOperandComplete(s, i, e, j);
      ExpStepOperand(s, i, e, j);
  }

  /** The recognizer rebuilds a canonical operand from its yield, which ends at `j`. */
  lemma {:induction false} ParseOperandComplete(s: seq<Kind>, i: nat, e: Exp, j: nat)
    requires CanonExp(e) && !e.BinExp? && Occurs(s, i, YieldExp(e)) && j == i + |YieldExp(e)|
    requires e.NameExp? ==> !At(s, j, OpenBrack)
    requires e.IfExp? || e.LetExp? ==> Ends(s, j)
    ensures ParseOperand(s, i) == Some((e, j))
    decreases e, 2
  {
    match e
    case NumberExp => OccursSingle(s, i, Number);
    case NameExp => OccursSingle(s, i, NameVar);
    case BValueExp(b) => OccursSingle(s, i, if b == TrueValue then True else False);
    case CallExp(args) => ParseCallComplete(s, i, args, j);
    case IfExp(c, t, f) => ParseIfComplete(s, i, c, t, f, j);
    case LetExp(v, b) => ParseLetComplete(s, i, v, b, j);
  }

  lemma {:induction false} ParseCallComplete(s: seq<Kind>, i: nat, args: Exps, k: nat)
    requires CanonExps(args) && Occurs(s, i, YieldExp(CallExp(args)))
    requires k == i + |YieldExp(CallExp(args))|
    ensures ParseOperand(s, i) == Some((CallExp(args), k))
    decreases CallExp(args), 0
  {
    var j := i + 2 + |YieldExps(args)|;
    OccursCall(s, i, args, j, k);
    ParseExpsComplete(s, i + 2, args, j);
    OperandStepCall(s, i, args, j);
  }

  lemma {:induction false} ParseIfComplete(s: seq<Kind>, i: nat, c: Exp, t: Exp, f: Exp, m: nat)
    requires CanonExp(c) && CanonExp(t) && CanonExp(f) && Occurs(s, i, YieldExp(IfExp(c, t, f)))
    requires m == i + |YieldExp(IfExp(c, t, f))| && Ends(s, m)
    ensures ParseOperand(s, i) == Some((IfExp(c, t, f), m))
    decreases IfExp(c, t, f), 1
  {
    var j := i + 1 + |YieldExp(c)|;
    var k := j + 1 + |YieldExp(t)|;
    OccursIf(s, i, c, t, f, j, k, m);
    ParseExpComplete(s, i + 1, c, j);
    ParseThenComplete(s, i, c, t, f, j, k, m);
  }

  /** The branches of a conditional whose condition the recognizer has already rebuilt. */
  lemma {:induction false} ParseThenComplete(s: seq<Kind>, i: nat, c: Exp, t: Exp, f: Exp, j: nat, k: nat, m: nat)
    requires CanonExp(t) && CanonExp(f)
    requires At(s, i, If) && ParseExp(s, i + 1) == Some((c, j))
    requires At(s, j, Then) && Occurs(s, j + 1, YieldExp(t)) && k == j + 1 + |YieldExp(t)|
    requires At(s, k, Else) && Occurs(s, k + 1, YieldExp(f)) && m == k + 1 + |YieldExp(f)|
    requires Ends(s, m)
    ensures ParseOperand(s, i) == Some((IfExp(c, t, f), m))
    decreases IfExp(c, t, f), 0
  {
    ParseExpComplete(s, j + 1, t, k);
    ParseExpComplete(s, k + 1, f, m);
    IfStep(s, i, c, j, t, k, f, m);
    OperandStepIf(s, i, IfExp(c, t, f), m);
  }

  lemma {:induction false} ParseLetComplete(s: seq<Kind>, i: nat, v: Exp, b: Exp, k: nat)
    requires CanonExp(v) && CanonExp(b) && Occurs(s, i, YieldExp(LetExp(v, b)))
    requires k == i + |YieldExp(LetExp(v, b))| && Ends(s, k)
    ensures ParseOperand(s, i) == Some((LetExp(v, b), k))
    decreases LetExp(v, b), 0
  {
    var j := i + 3 + |YieldExp(v)|;
    OccursLet(s, i, v, b, j, k);
    ParseExpComplete(s, i + 3, v, j);
    ParseExpComplete(s, j + 1, b, k);
    LetStep(s, i, v, j, b, k);
    OperandStepLet(s, i, LetExp(v, b), k);
  }

  /** The recognizer rebuilds a canonical argument list from its yield, which ends at `k`. */
  lemma {:induction false} ParseExpsComplete(s: seq<Kind>, i: nat, es: Exps, k: nat)
    requires CanonExps(es) && Occurs(s, i, YieldExps(es)) && k == i + |YieldExps(es)|
    requires Ends(s, k) && !At(s, k, Comma)
    ensures ParseExps(s, i) == Some((es, k))
    decreases es
  {
    match es
    case LastExp(h) =>
      ParseExpComplete(s, i, h, k);
      ExpsStepLast(s, i, h, k);
    case MoreExps(h, tail) =>
      var j := i + |YieldExp(h)|;
      OccursAround(s, i, YieldExp(h), Comma, YieldExps(tail), j);
      ParseExpComplete(s, i, h, j);
      ParseExpsComplete(s, j + 1, tail, k);
      ExpsStepMore(s, i, h, j, tail, k);
  }

  lemma ParseTypeIdComplete(s: seq<Kind>, i: nat, sig: TypeId)
    requires Occurs(s, i, YieldTypeId(sig))
    ensures ParseTypeId(s, i) == Some((sig, i + 2))
  {
    OccursPair(s, i, YieldTypeId(sig)[0], NameVar);
  }

  /** The recognizer rebuilds a parameter list from its yield, which ends at `k`. */
  lemma {:induction false} ParseTypeIdsComplete(s: seq<Kind>, i: nat, ts: TypeIds, k: nat)
    requires Occurs(s, i, YieldTypeIds(ts)) && k == i + |YieldTypeIds(ts)| && !At(s, k, Comma)
    ensures ParseTypeIds(s, i) == Some((ts, k))
    decreases ts
  {
    match ts
    case LastTypeId(h) =>
      ParseTypeIdComplete(s, i, h);
      TypeIdsStepLast(s, i, h, k);
    case MoreTypeIds(h, tail) =>
      OccursAround(s, i, YieldTypeId(h), Comma, YieldTypeIds(tail), i + 2);
      ParseTypeIdComplete(s, i, h);
      ParseTypeIdsComplete(s, i + 3, tail, k);
      TypeIdsStepMore(s, i, h, i + 2, tail, k);
  }

  /** The recognizer rebuilds a canonical function from its yield, which ends at `m`. */
  lemma ParseFunComplete(s: seq<Kind>, i: nat, f: Fun, m: nat)
    requires CanonFun(f) && Occurs(s, i, YieldFun(f)) && m == i + |YieldFun(f)| && Ends(s, m)
    ensures ParseFun(s, i) == Some((f, m))
  {
    match f
    case FunParams(sig, ps, body) => ParseFunParamsComplete(s, i, sig, ps, body, m);
    case FunNoParams(sig, body) => ParseFunNoParamsComplete(s, i, sig, body, m);
  }

  lemma ParseFunParamsComplete(s: seq<Kind>, i: nat, sig: TypeId, ps: TypeIds, body: Exp, m: nat)
    requires CanonExp(body) && Occurs(s, i, YieldFun(FunParams(sig, ps, body)))
    requires m == i + |YieldFun(FunParams(sig, ps, body))| && Ends(s, m)
    ensures ParseFun(s, i) == Some((FunParams(sig, ps, body), m))
  {
    var k := i + 3 + |YieldTypeIds(ps)|;
    OccursFunParams(s, i, sig, ps, body, k, m);
    ParseTypeIdComplete(s, i, sig);
    ParseTypeIdsComplete(s, i + 3, ps, k);
    YieldTypeIdsStart(ps);
    OccursFirst(s, i + 3, YieldTypeIds(ps));
    ParseExpComplete(s, k + 2, body, m);
    FunStepParams(s, i, sig, ps, k, body, m);
  }

  lemma ParseFunNoParamsComplete(s: seq<Kind>, i: nat, sig: TypeId, body: Exp, m: nat)
    requires CanonExp(body) && Occurs(s, i, YieldFun(FunNoParams(sig, body)))
    requires m == i + |YieldFun(FunNoParams(sig, body))| && Ends(s, m)
    ensures ParseFun(s, i) == Some((FunNoParams(sig, body), m))
  {
    OccursFunNoParams(s, i, sig, body, m);
    ParseTypeIdComplete(s, i, sig);
    ParseExpComplete(s, i + 5, body, m);
    FunStepNoParams(s, i, sig, body, m);
  }

  /** The recognizer rebuilds canonical functions that run to the end of the input. */
  lemma {:induction false} ParseFunsComplete(s: seq<Kind>, i: nat, fs: Funs)
    requires CanonFuns(fs) && Occurs(s, i, YieldFuns(fs)) && i + |YieldFuns(fs)| == |s|
    ensures ParseFuns(s, i) == Some((fs, |s|))
    decreases fs
  {
    match fs
    case LastFun(h) =>
      ParseFunComplete(s, i, h, |s|);
      FunsStepLast(s, i, h, |s|);
    case MoreFuns(h, tail) =>
      var j := i + |YieldFun(h)|;
      OccursConcat(s, i, YieldFun(h), YieldFuns(tail), j);
      YieldFunsStart(tail);
      OccursFirst(s, j, YieldFuns(tail));
      ParseFunComplete(s, i, h, j);
      ParseFunsComplete(s, j, tail);
      FunsStepMore(s, i, h, j, tail, |s|);
  }

  /** On the yield of a canonical program the recognizer returns that program. */
  lemma ParseProgramComplete(p: Program)
    requires CanonProgram(p)
    ensures ParseProgram(YieldProgram(p)) == Some(p)
  {
    var s := YieldProgram(p);
    OccursSuffix(s, 0);
    assert s[0..] == YieldFuns(p.funs);
    ParseFunsComplete(s, 0, p.funs);
  }

  /** The recognizer accepts a kind string exactly when the grammar derives it. */
  lemma RecognizeCorrect(s: seq<Kind>)
    ensures Recognize(s) <==> IsProgram(s)
  {
    if Recognize(s) {
      ProgramSound(s);
    }
    if IsProgram(s) {
      var p :| YieldProgram(p) == s;
      ParseProgramComplete(NormalizeProgram(p));
    }
  }

  /** Two canonical derivations of the same kind string are the same tree. */
  lemma CanonicalUnique(p: Program, q: Program)
    requires CanonProgram(p) && CanonProgram(q)
    requires YieldProgram(p) == YieldProgram(q)
    ensures p == q
  {
    ParseProgramComplete(p);
    ParseProgramComplete(q);
  }
}
