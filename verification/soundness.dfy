/**
 Soundness of the recognizer: whenever a parse function succeeds, the yield of the tree
 it returns is exactly the slice of kinds it consumed. The proofs follow the parse
 functions' own recursion.
 */
module Soundness {
  import opened Wrappers
  import opened Tokens
  import opened Grammar
  import opened Parser

  // How a slice splits around the tokens a production places between its parts.

  lemma SliceSplit(s: seq<Kind>, i: nat, j: nat, k: nat)
    requires i <= j <= k <= |s|
    ensures s[i..k] == s[i..j] + s[j..k]
  {
  }

  lemma SliceAround(s: seq<Kind>, i: nat, j: nat, k: nat)
    requires i <= j < k <= |s|
    ensures s[i..k] == s[i..j] + [s[j]] + s[j + 1..k]
  {
    assert s[j..k] == [s[j]] + s[j + 1..k];
  }

  lemma SliceCall(s: seq<Kind>, i: nat, j: nat)
    requires i + 2 <= j < |s|
    ensures s[i..j + 1] == [s[i], s[i + 1]] + s[i + 2..j] + [s[j]]
  {
    assert s[i..j + 1] == s[i..i + 2] + s[i + 2..j] + s[j..j + 1];
  }

  lemma SliceIf(s: seq<Kind>, i: nat, j: nat, k: nat, m: nat)
    requires i < j < k < m <= |s|
    ensures s[i..m] == [s[i]] + s[i + 1..j] + [s[j]] + s[j + 1..k] + [s[k]] + s[k + 1..m]
  {
    assert s[i..j] == [s[i]] + s[i + 1..j];
  }

  lemma SliceLet(s: seq<Kind>, i: nat, j: nat, k: nat)
    requires i + 3 <= j < k <= |s|
    ensures s[i..k] == [s[i], s[i + 1], s[i + 2]] + s[i + 3..j] + [s[j]] + s[j + 1..k]
  {
    assert s[i..j] == [s[i], s[i + 1], s[i + 2]] + s[i + 3..j];
  }

  lemma SliceFunNoParams(s: seq<Kind>, i: nat, j: nat, k: nat)
    requires i <= j && j + 3 <= k <= |s|
    ensures s[i..k] == s[i..j] + [s[j], s[j + 1], s[j + 2]] + s[j + 3..k]
  {
    assert s[j..k] == [s[j], s[j + 1], s[j + 2]] + s[j + 3..k];
  }

  lemma SliceFunParams(s: seq<Kind>, i: nat, j: nat, k: nat, m: nat)
    requires i <= j < k && k + 2 <= m <= |s|
    ensures s[i..m] == s[i..j] + [s[j]] + s[j + 1..k] + [s[k], s[k + 1]] + s[k + 2..m]
  {
    assert s[j + 1..m] == s[j + 1..k] + [s[k], s[k + 1]] + s[k + 2..m];
  }
  // The yield of each production, read off the slices of its parts.

  lemma IfYield(s: seq<Kind>, i: nat, c: Exp, j: nat, t: Exp, k: nat, f: Exp, m: nat)
    requires i < j < k < m <= |s| && s[i] == If && s[j] == Then && s[k] == Else
    requires YieldExp(c) == s[i + 1..j] && YieldExp(t) == s[j + 1..k] && YieldExp(f) == s[k + 1..m]
    ensures YieldExp(IfExp(c, t, f)) == s[i..m]
  {
    SliceIf(s, i, j, k, m);
  }

  lemma LetYield(s: seq<Kind>, i: nat, v: Exp, j: nat, b: Exp, k: nat)
    requires i + 3 <= j < k <= |s| && s[i] == Let && s[i + 1] == NameVar && s[i + 2] == Equal
    requires s[j] == In && YieldExp(v) == s[i + 3..j] && YieldExp(b) == s[j + 1..k]
    ensures YieldExp(LetExp(v, b)) == s[i..k]
  {
    SliceLet(s, i, j, k);
  }

  lemma CallYield(s: seq<Kind>, i: nat, args: Exps, j: nat)
    requires i + 2 <= j < |s| && s[i] == NameVar && s[i + 1] == OpenBrack && s[j] == CloseBrack
    requires YieldExps(args) == s[i + 2..j]
    ensures YieldExp(CallExp(args)) == s[i..j + 1]
  {
    SliceCall(s, i, j);
  }

  lemma BinYield(s: seq<Kind>, i: nat, a: Exp, j: nat, op: Op, b: Exp, k: nat)
    requires i <= j < k <= |s| && s[j] == OpKind(op)
    requires YieldExp(a) == s[i..j] && YieldExp(b) == s[j + 1..k]
    ensures YieldExp(BinExp(op, a, b)) == s[i..k]
  {
    SliceAround(s, i, j, k);
  }

  lemma MoreExpsYield(s: seq<Kind>, i: nat, h: Exp, j: nat, tail: Exps, k: nat)
    requires i <= j < k <= |s| && s[j] == Comma
    requires YieldExp(h) == s[i..j] && YieldExps(tail) == s[j + 1..k]
    ensures YieldExps(MoreExps(h, tail)) == s[i..k]
  {
    SliceAround(s, i, j, k);
  }

  lemma MoreTypeIdsYield(s: seq<Kind>, i: nat, h: TypeId, j: nat, tail: TypeIds, k: nat)
    requires i <= j < k <= |s| && s[j] == Comma
    requires YieldTypeId(h) == s[i..j] && YieldTypeIds(tail) == s[j + 1..k]
    ensures YieldTypeIds(MoreTypeIds(h, tail)) == s[i..k]
  {
    SliceAround(s, i, j, k);
  }

  lemma FunNoParamsYield(s: seq<Kind>, i: nat, sig: TypeId, j: nat, body: Exp, k: nat)
    requires i <= j && j + 3 <= k <= |s|
    requires s[j] == OpenBrack && s[j + 1] == CloseBrack && s[j + 2] == Equal
    requires YieldTypeId(sig) == s[i..j] && YieldExp(body) == s[j + 3..k]
    ensures YieldFun(FunNoParams(sig, body)) == s[i..k]
  {
    SliceFunNoParams(s, i, j, k);
  }

  lemma FunParamsYield(s: seq<Kind>, i: nat, sig: TypeId, j: nat, ps: TypeIds, k: nat, body: Exp, m: nat)
    requires i <= j < k && k + 2 <= m <= |s|
    requires s[j] == OpenBrack && s[k] == CloseBrack && s[k + 1] == Equal
    requires YieldTypeId(sig) == s[i..j] && YieldTypeIds(ps) == s[j + 1..k]
    requires YieldExp(body) == s[k + 2..m]
    ensures YieldFun(FunParams(sig, ps, body)) == s[i..m]
  {
    SliceFunParams(s, i, j, k, m);
  }

  lemma MoreFunsYield(s: seq<Kind>, i: nat, h: Fun, j: nat, tail: Funs, k: nat)
    requires i <= j <= k <= |s|
    requires YieldFun(h) == s[i..j] && YieldFuns(tail) == s[j..k]
    ensures YieldFuns(MoreFuns(h, tail)) == s[i..k]
  {
    SliceSplit(s, i, j, k);
  }

  lemma TypeIdSound(s: seq<Kind>, i: nat)
    requires i <= |s|
    ensures var r := ParseTypeId(s, i); r.Some? ==> YieldTypeId(r.value.0) == s[i..r.value.1]
  {
  }

  lemma {:induction false} TypeIdsSound(s: seq<Kind>, i: nat)
    requires i <= |s|
    ensures var r := ParseTypeIds(s, i); r.Some? ==> YieldTypeIds(r.value.0) == s[i..r.value.1]
    decreases |s| - i
  {
    TypeIdSound(s, i);
    match ParseTypeId(s, i)
    case None =>
    case Some((h, j)) =>
      if At(s, j, Comma) {
        TypeIdsSound(s, j + 1);
        match ParseTypeIds(s, j + 1)
        case None =>
        case Some((tail, k)) => MoreTypeIdsYield(s, i, h, j, tail, k);
      }
  }

  lemma {:induction false} ExpSound(s: seq<Kind>, i: nat)
    requires i <= |s|
    ensures var r := ParseExp(s, i); r.Some? ==> YieldExp(r.value.0) == s[i..r.value.1]
    decreases |s| - i, 2
  {
    OperandSound(s, i);
    match ParseOperand(s, i)
    case None =>
    case Some((a, j)) =>
      if At(s, j, Plus) || At(s, j, Equal) {
        ExpSound(s, j + 1);
        match ParseExp(s, j + 1)
        case None =>
        case Some((b, k)) => BinYield(s, i, a, j, if s[j] == Plus then PlusOp else EqualOp, b, k);
      }
  }

  lemma {:induction false} OperandSound(s: seq<Kind>, i: nat)
    requires i <= |s|
    ensures var r := ParseOperand(s, i); r.Some? ==> YieldExp(r.value.0) == s[i..r.value.1]
    decreases |s| - i, 1
  {
    if i < |s| {
      assert s[i..i + 1] == [s[i]];
      match s[i]
      case NameVar => if At(s, i + 1, OpenBrack) { CallSound(s, i); }
      case If => IfSound(s, i);
      case Let => LetSound(s, i);
      case _ =>
    }
  }

  lemma {:induction false} CallSound(s: seq<Kind>, i: nat)
    requires i + 1 < |s| && s[i] == NameVar && s[i + 1] == OpenBrack
    ensures var r := ParseCall(s, i); r.Some? ==> YieldExp(r.value.0) == s[i..r.value.1]
    decreases |s| - i, 0
  {
    ExpsSound(s, i + 2);
    match ParseExps(s, i + 2)
    case None =>
    case Some((args, j)) => if At(s, j, CloseBrack) { CallYield(s, i, args, j); }
  }

  lemma {:induction false} IfSound(s: seq<Kind>, i: nat)
    requires i < |s| && s[i] == If
    ensures var r := ParseIf(s, i); r.Some? ==> YieldExp(r.value.0) == s[i..r.value.1]
    decreases |s| - i, 0
  {
    ExpSound(s, i + 1);
    match ParseExp(s, i + 1)
    case None =>
    case Some((c, j)) => if At(s, j, Then) { ThenSound(s, i, c, j); }
  }

  lemma {:induction false} ThenSound(s: seq<Kind>, i: nat, c: Exp, j: nat)
    requires i < j < |s| && s[i] == If && s[j] == Then && YieldExp(c) == s[i + 1..j]
    ensures var r := ParseThen(s, c, j); r.Some? ==> YieldExp(r.value.0) == s[i..r.value.1]
    decreases |s| - j, 0
  {
    ExpSound(s, j + 1);
    match ParseExp(s, j + 1)
    case None =>
    case Some((t, k)) => if At(s, k, Else) { ElseSound(s, i, c, j, t, k); }
  }

  lemma {:induction false} ElseSound(s: seq<Kind>, i: nat, c: Exp, j: nat, t: Exp, k: nat)
    requires i < j < k < |s| && s[i] == If && s[j] == Then && s[k] == Else
    requires YieldExp(c) == s[i + 1..j] && YieldExp(t) == s[j + 1..k]
    ensures var r := ParseElse(s, c, t, k); r.Some? ==> YieldExp(r.value.0) == s[i..r.value.1]
    decreases |s| - k, 0
  {
    ExpSound(s, k + 1);
    match ParseExp(s, k + 1)
    case None =>
    case Some((f, m)) => IfYield(s, i, c, j, t, k, f, m);
  }

  lemma {:induction false} LetSound(s: seq<Kind>, i: nat)
    requires i < |s| && s[i] == Let
    ensures var r := ParseLet(s, i); r.Some? ==> YieldExp(r.value.0) == s[i..r.value.1]
    decreases |s| - i, 0
  {
    if At(s, i + 1, NameVar) && At(s, i + 2, Equal) {
      ExpSound(s, i + 3);
      match ParseExp(s, i + 3)
      case None =>
      case Some((v, j)) => if At(s, j, In) { InSound(s, i, v, j); }
    }
  }

  lemma {:induction false} InSound(s: seq<Kind>, i: nat, v: Exp, j: nat)
    requires i + 3 <= j < |s| && s[i] == Let && s[i + 1] == NameVar && s[i + 2] == Equal
    requires s[j] == In && YieldExp(v) == s[i + 3..j]
    ensures var r := ParseIn(s, v, j); r.Some? ==> YieldExp(r.value.0) == s[i..r.value.1]
    decreases |s| - j, 0
  {
    ExpSound(s, j + 1);
    match ParseExp(s, j + 1)
    case None =>
    case Some((b, k)) => LetYield(s, i, v, j, b, k);
  }

  lemma {:induction false} ExpsSound(s: seq<Kind>, i: nat)
    requires i <= |s|
    ensures var r := ParseExps(s, i); r.Some? ==> YieldExps(r.value.0) == s[i..r.value.1]
    decreases |s| - i, 3
  {
    ExpSound(s, i);
    match ParseExp(s, i)
    case None =>
    case Some((h, j)) =>
      if At(s, j, Comma) {
        ExpsSound(s, j + 1);
        match ParseExps(s, j + 1)
        case None =>
        case Some((tail, k)) => MoreExpsYield(s, i, h, j, tail, k);
      }
  }

  lemma FunSound(s: seq<Kind>, i: nat)
    requires i <= |s|
    ensures var r := ParseFun(s, i); r.Some? ==> YieldFun(r.value.0) == s[i..r.value.1]
  {
    TypeIdSound(s, i);
    match ParseTypeId(s, i)
    case None =>
    case Some((sig, j)) =>
      if At(s, j, OpenBrack) {
        if At(s, j + 1, CloseBrack) {
          NoParamsSound(s, i, sig, j);
        } else {
          ParamsSound(s, i, sig, j);
        }
      }
  }

  lemma NoParamsSound(s: seq<Kind>, i: nat, sig: TypeId, o: nat)
    requires i <= o && o + 1 < |s| && s[o] == OpenBrack && s[o + 1] == CloseBrack
    requires YieldTypeId(sig) == s[i..o]
    ensures var r := ParseNoParams(s, sig, o + 1); r.Some? ==> YieldFun(r.value.0) == s[i..r.value.1]
  {
    if At(s, o + 2, Equal) {
      ExpSound(s, o + 3);
      match ParseExp(s, o + 3)
      case None =>
      case Some((body, k)) => FunNoParamsYield(s, i, sig, o, body, k);
    }
  }

  lemma ParamsSound(s: seq<Kind>, i: nat, sig: TypeId, o: nat)
    requires i <= o < |s| && s[o] == OpenBrack && YieldTypeId(sig) == s[i..o]
    ensures var r := ParseParams(s, sig, o + 1); r.Some? ==> YieldFun(r.value.0) == s[i..r.value.1]
  {
    TypeIdsSound(s, o + 1);
    match ParseTypeIds(s, o + 1)
    case None =>
    case Some((ps, k)) => if At(s, k, CloseBrack) { ParamsBodySound(s, i, sig, o, ps, k); }
  }

  lemma ParamsBodySound(s: seq<Kind>, i: nat, sig: TypeId, o: nat, ps: TypeIds, k: nat)
    requires i <= o < k < |s| && s[o] == OpenBrack && s[k] == CloseBrack
    requires YieldTypeId(sig) == s[i..o] && YieldTypeIds(ps) == s[o + 1..k]
    ensures var r := ParseParamsBody(s, sig, ps, k); r.Some? ==> YieldFun(r.value.0) == s[i..r.value.1]
  {
    if At(s, k + 1, Equal) {
      ExpSound(s, k + 2);
      match ParseExp(s, k + 2)
      case None =>
      case Some((body, m)) => FunParamsYield(s, i, sig, o, ps, k, body, m);
    }
  }

  lemma {:induction false} FunsSound(s: seq<Kind>, i: nat)
    requires i <= |s|
    ensures var r := ParseFuns(s, i); r.Some? ==> YieldFuns(r.value.0) == s[i..r.value.1]
    decreases |s| - i
  {
    FunSound(s, i);
    match ParseFun(s, i)
    case None =>
    case Some((h, j)) =>
      if At(s, j, Int) || At(s, j, Bool) {
        FunsSound(s, j);
        match ParseFuns(s, j)
        case None =>
        case Some((tail, k)) => MoreFunsYield(s, i, h, j, tail, k);
      }
  }

  /** Whatever the recognizer accepts is derived by the tree it returns. */
  lemma ProgramSound(s: seq<Kind>)
    ensures ParseProgram(s).Some? ==> YieldProgram(ParseProgram(s).value) == s
  {
    FunsSound(s, 0);
    assert s[0..|s|] == s;
  }
}
