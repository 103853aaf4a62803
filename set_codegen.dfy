/**
 * The code one ConstraintSet emits: applyConstraints (statements that move
 * each bounded variable into its bounds) and generateCheck (an expression
 * that is 1 exactly when every bound holds), with their meaning under the
 * evaluator of GenAst.
 */
module SetCodegen {
  import opened Bits
  import opened GenAst
  import opened ConstraintExpr
  import opened ConstraintSets
  import opened Keys

  /** The variable occurs in the set. */
  predicate Bounds(s: ConstraintSet, v: VarId) {
    v in s.mins || v in s.maxs
  }

  /**
   * The statements of one variable: with a lower bound m (and m1 = m + 1 in
   * m's width), `v := v mod (max - m1)` when it also has an upper bound, then
   * `v := v + m1`; with only an upper bound, `v := v modS max`.
   */
  function KeyStmts(s: ConstraintSet, from: From, v: VarId): seq<Stmt>
    requires WellFormed(s) && ValidFrom(from) && Bounds(s, v)
  {
    var r := CreateRef(v, from);
    if v in s.mins then
      var m1 := Inc(s.mins[v]);
      (if v in s.maxs then [Assign(Whole(r), ModDiv(Load(r), Sub(Const(s.maxs[v]), Const(m1))))] else [])
      + [Assign(Whole(r), Add(Load(r), Const(m1)))]
    else [Assign(Whole(r), ModDivS(Load(r), Const(s.maxs[v])))]
  }

  function GroupStmts(s: ConstraintSet, from: From, ks: seq<VarId>): seq<Stmt>
    requires WellFormed(s) && ValidFrom(from)
    requires forall i :: 0 <= i < |ks| ==> Bounds(s, ks[i])
    decreases |ks|
  {
    if ks == [] then [] else KeyStmts(s, from, ks[0]) + GroupStmts(s, from, ks[1..])
  }

  /** ConstraintSet::applyConstraints: the lower-bounded variables in key order, then those with only an upper bound. */
  function ApplySet(s: ConstraintSet, from: From): seq<Stmt>
    requires WellFormed(s) && ValidFrom(from)
  {
    GroupStmts(s, from, SortedKeys(s.mins.Keys)) + GroupStmts(s, from, SortedKeys(s.maxs.Keys - s.mins.Keys))
  }

  function CheckMins(acc: Expr, s: ConstraintSet, from: From, ks: seq<VarId>): Expr
    requires ValidFrom(from) && forall i :: 0 <= i < |ks| ==> ks[i] in s.mins
    decreases |ks|
  {
    if ks == [] then acc
    else CheckMins(And(acc, Gt(Load(CreateRef(ks[0], from)), Const(s.mins[ks[0]]))), s, from, ks[1..])
  }

  function CheckMaxs(acc: Expr, s: ConstraintSet, from: From, ks: seq<VarId>): Expr
    requires ValidFrom(from) && forall i :: 0 <= i < |ks| ==> ks[i] in s.maxs
    decreases |ks|
  {
    if ks == [] then acc
    else CheckMaxs(And(acc, Lt(Load(CreateRef(ks[0], from)), Const(s.maxs[ks[0]]))), s, from, ks[1..])
  }

  /** The 32-bit constant 1. */
  const One := Const(Num(1, 32))

  /** ConstraintSet::generateCheck: `1 && v > min ... && v < max ...`. */
  function GenerateCheck(s: ConstraintSet, from: From): Expr
    requires ValidFrom(from)
  {
    CheckMaxs(CheckMins(One, s, from, SortedKeys(s.mins.Keys)), s, from, SortedKeys(s.maxs.Keys))
  }

  /** The values the emitted code holds for the set's variables. */
  function ValuationOf(env: map<Ref, nat>, from: From, s: ConstraintSet): (val: Valuation)
    requires ValidFrom(from)
    ensures forall v :: Bounds(s, v) ==> At(val, v) == Val(env, CreateRef(v, from))
  {
    map v | v in s.mins.Keys + s.maxs.Keys :: Val(env, CreateRef(v, from))
  }

  // ----- The emitting loops -----

  /**
   * ConstraintSet::applyConstraints as written: one pass over the lower
   * bounds in key order, then one pass over the upper bounds of variables
   * without a lower bound. (The code consumes a copy of the upper bounds in
   * the first pass; what is left of the copy is exactly those bounds.)
   */
  method ApplyConstraints(s: ConstraintSet, from: From) returns (stmts: seq<Stmt>)
    requires WellFormed(s) && ValidFrom(from)
    ensures stmts == ApplySet(s, from)
  {
    var first := ApplyMinLoop(s, from, SortedKeys(s.mins.Keys));
    var second := ApplyMaxLoop(s, from, SortedKeys(s.maxs.Keys - s.mins.Keys));
    stmts := first + second;
  }

  /** The pass over the lower-bounded variables. */
  method ApplyMinLoop(s: ConstraintSet, from: From, ks: seq<VarId>) returns (stmts: seq<Stmt>)
    requires WellFormed(s) && ValidFrom(from) && forall k :: 0 <= k < |ks| ==> ks[k] in s.mins
    ensures stmts == GroupStmts(s, from, ks)
  {
    stmts := [];
    var i := 0;
    while i < |ks|
      invariant 0 <= i <= |ks|
      invariant stmts == GroupStmts(s, from, ks[..i])
    {
      var v := ks[i];
      var r := CreateRef(v, from);
      var m1 := Inc(s.mins[v]);
      var part := [Assign(Whole(r), Add(Load(r), Const(m1)))];
      if v in s.maxs {
        part := [Assign(Whole(r), ModDiv(Load(r), Sub(Const(s.maxs[v]), Const(m1))))] + part;
      }
      GroupSnoc(s, from, ks, i);
      stmts := stmts + part;
      i := i + 1;
    }
    assert ks[..i] == ks;
  }

  /** The pass over the variables bounded only from above. */
  method ApplyMaxLoop(s: ConstraintSet, from: From, ks: seq<VarId>) returns (stmts: seq<Stmt>)
    requires WellFormed(s) && ValidFrom(from)
    requires forall k :: 0 <= k < |ks| ==> ks[k] in s.maxs && ks[k] !in s.mins
    ensures stmts == GroupStmts(s, from, ks)
  {
    stmts := [];
    var j := 0;
    while j < |ks|
      invariant 0 <= j <= |ks|
      invariant stmts == GroupStmts(s, from, ks[..j])
    {
      var v := ks[j];
      var r := CreateRef(v, from);
      GroupSnoc(s, from, ks, j);
      stmts := stmts + [Assign(Whole(r), ModDivS(Load(r), Const(s.maxs[v])))];
      j := j + 1;
    }
    assert ks[..j] == ks;
  }

  lemma {:induction false} GroupAppend(s: ConstraintSet, from: From, a: seq<VarId>, b: seq<VarId>)
    requires WellFormed(s) && ValidFrom(from)
    requires forall k :: 0 <= k < |a| ==> Bounds(s, a[k])
    requires forall k :: 0 <= k < |b| ==> Bounds(s, b[k])
    ensures forall k :: 0 <= k < |a + b| ==> Bounds(s, (a + b)[k])
    ensures GroupStmts(s, from, a + b) == GroupStmts(s, from, a) + GroupStmts(s, from, b)
    decreases |a|
  {
    if a == [] {
      assert a + b == b;
    } else {
      assert (a + b)[1..] == a[1..] + b;
      GroupAppend(s, from, a[1..], b);
    }
  }

  lemma GroupSnoc(s: ConstraintSet, from: From, ks: seq<VarId>, i: nat)
    requires WellFormed(s) && ValidFrom(from) && i < |ks|
    requires forall k :: 0 <= k < |ks| ==> Bounds(s, ks[k])
    ensures GroupStmts(s, from, ks[..i + 1]) == GroupStmts(s, from, ks[..i]) + KeyStmts(s, from, ks[i])
  {
    assert ks[..i + 1] == ks[..i] + [ks[i]];
    GroupAppend(s, from, ks[..i], [ks[i]]);
    assert GroupStmts(s, from, [ks[i]]) == KeyStmts(s, from, ks[i]) + GroupStmts(s, from, []);
  }

  /** ConstraintSet::generateCheck as written: the accumulator starts at 1 and is and-ed with each bound's comparison. */
  method BuildCheck(s: ConstraintSet, from: From) returns (e: Expr)
    requires ValidFrom(from)
    ensures e == GenerateCheck(s, from)
  {
    e := BuildMinChecks(s, from, One, SortedKeys(s.mins.Keys));
    e := BuildMaxChecks(s, from, e, SortedKeys(s.maxs.Keys));
  }

  method BuildMinChecks(s: ConstraintSet, from: From, acc: Expr, ks: seq<VarId>) returns (e: Expr)
    requires ValidFrom(from) && forall k :: 0 <= k < |ks| ==> ks[k] in s.mins
    ensures e == CheckMins(acc, s, from, ks)
  {
    e := acc;
    var i := 0;
    while i < |ks|
      invariant 0 <= i <= |ks|
      invariant CheckMins(e, s, from, ks[i..]) == CheckMins(acc, s, from, ks)
    {
      CheckMinsUnfold(e, s, from, ks, i);
      e := And(e, Gt(Load(CreateRef(ks[i], from)), Const(s.mins[ks[i]])));
      i := i + 1;
    }
  }

  method BuildMaxChecks(s: ConstraintSet, from: From, acc: Expr, ks: seq<VarId>) returns (e: Expr)
    requires ValidFrom(from) && forall k :: 0 <= k < |ks| ==> ks[k] in s.maxs
    ensures e == CheckMaxs(acc, s, from, ks)
  {
    e := acc;
    var i := 0;
    while i < |ks|
      invariant 0 <= i <= |ks|
      invariant CheckMaxs(e, s, from, ks[i..]) == CheckMaxs(acc, s, from, ks)
    {
      CheckMaxsUnfold(e, s, from, ks, i);
      e := And(e, Lt(Load(CreateRef(ks[i], from)), Const(s.maxs[ks[i]])));
      i := i + 1;
    }
  }

  lemma CheckMinsUnfold(acc: Expr, s: ConstraintSet, from: From, ks: seq<VarId>, i: nat)
    requires ValidFrom(from) && i < |ks| && forall k :: 0 <= k < |ks| ==> ks[k] in s.mins
    ensures CheckMins(acc, s, from, ks[i..]) ==
      CheckMins(And(acc, Gt(Load(CreateRef(ks[i], from)), Const(s.mins[ks[i]]))), s, from, ks[i + 1..])
  {
    assert ks[i..][1..] == ks[i + 1..];
  }

  lemma CheckMaxsUnfold(acc: Expr, s: ConstraintSet, from: From, ks: seq<VarId>, i: nat)
    requires ValidFrom(from) && i < |ks| && forall k :: 0 <= k < |ks| ==> ks[k] in s.maxs
    ensures CheckMaxs(acc, s, from, ks[i..]) ==
      CheckMaxs(And(acc, Lt(Load(CreateRef(ks[i], from)), Const(s.maxs[ks[i]]))), s, from, ks[i + 1..])
  {
    assert ks[i..][1..] == ks[i + 1..];
  }

  // ----- The check -----

  lemma BitAndBits(a: nat, b: nat)
    requires a <= 1 && b <= 1
    ensures BitAnd(a, b) == (if a == 1 && b == 1 then 1 else 0)
  {
    if a == 1 && b == 1 {
      assert BitAnd(1, 1) == 2 * BitAnd(0, 0) + 1;
    }
  }

  /** Every listed variable is above its lower bound. */
  predicate AboveMins(s: ConstraintSet, from: From, env: map<Ref, nat>, ks: seq<VarId>)
    requires ValidFrom(from) && forall i :: 0 <= i < |ks| ==> ks[i] in s.mins
  {
    forall i :: 0 <= i < |ks| ==> Val(env, CreateRef(ks[i], from)) > s.mins[ks[i]].value
  }

  /** Every listed variable is below its upper bound. */
  predicate BelowMaxs(s: ConstraintSet, from: From, env: map<Ref, nat>, ks: seq<VarId>)
    requires ValidFrom(from) && forall i :: 0 <= i < |ks| ==> ks[i] in s.maxs
  {
    forall i :: 0 <= i < |ks| ==> Val(env, CreateRef(ks[i], from)) < s.maxs[ks[i]].value
  }

  lemma AboveMinsSplit(s: ConstraintSet, from: From, env: map<Ref, nat>, ks: seq<VarId>)
    requires ValidFrom(from) && ks != [] && forall i :: 0 <= i < |ks| ==> ks[i] in s.mins
    ensures AboveMins(s, from, env, ks) <==>
      Val(env, CreateRef(ks[0], from)) > s.mins[ks[0]].value && AboveMins(s, from, env, ks[1..])
  {
    if Val(env, CreateRef(ks[0], from)) > s.mins[ks[0]].value && AboveMins(s, from, env, ks[1..]) {
      forall i | 1 <= i < |ks|
        ensures Val(env, CreateRef(ks[i], from)) > s.mins[ks[i]].value
      {
        assert ks[i] == ks[1..][i - 1];
      }
    }
  }

  lemma BelowMaxsSplit(s: ConstraintSet, from: From, env: map<Ref, nat>, ks: seq<VarId>)
    requires ValidFrom(from) && ks != [] && forall i :: 0 <= i < |ks| ==> ks[i] in s.maxs
    ensures BelowMaxs(s, from, env, ks) <==>
      Val(env, CreateRef(ks[0], from)) < s.maxs[ks[0]].value && BelowMaxs(s, from, env, ks[1..])
  {
    if Val(env, CreateRef(ks[0], from)) < s.maxs[ks[0]].value && BelowMaxs(s, from, env, ks[1..]) {
      forall i | 1 <= i < |ks|
        ensures Val(env, CreateRef(ks[i], from)) < s.maxs[ks[i]].value
      {
        assert ks[i] == ks[1..][i - 1];
      }
    }
  }

  lemma EvalCompare(r: Ref, c: Num, env: map<Ref, nat>, ctx: Ctx, d: nat, w: nat)
    ensures Eval(Gt(Load(r), Const(c)), env, ctx, d, w) == if Val(env, r) > c.value then 1 else 0
    ensures Eval(Lt(Load(r), Const(c)), env, ctx, d, w) == if Val(env, r) < c.value then 1 else 0
  {
    var cw := Max(RefWidth(r, ctx), c.width);
    assert Eval(Load(r), env, ctx, d, cw) == Val(env, r);
    assert Eval(Const(c), env, ctx, d, cw) == c.value;
  }

  lemma {:induction false} CheckMinsMeaning(acc: Expr, s: ConstraintSet, from: From, ks: seq<VarId>,
                                            env: map<Ref, nat>, ctx: Ctx, d: nat, w: nat)
    requires ValidFrom(from) && forall i :: 0 <= i < |ks| ==> ks[i] in s.mins
    requires Eval(acc, env, ctx, d, w) <= 1
    ensures Eval(CheckMins(acc, s, from, ks), env, ctx, d, w) ==
      if Eval(acc, env, ctx, d, w) == 1 && AboveMins(s, from, env, ks) then 1 else 0
    decreases |ks|
  {
    if ks != [] {
      var g := Gt(Load(CreateRef(ks[0], from)), Const(s.mins[ks[0]]));
      var next := And(acc, g);
      var a := Eval(acc, env, ctx, d, w);
      var b := Eval(g, env, ctx, d, w);
      EvalCompare(CreateRef(ks[0], from), s.mins[ks[0]], env, ctx, d, w);
      BitAndBits(a, b);
      assert Eval(next, env, ctx, d, w) == BitAnd(a, b);
      CheckMinsMeaning(next, s, from, ks[1..], env, ctx, d, w);
      AboveMinsSplit(s, from, env, ks);
    }
  }

  lemma {:induction false} CheckMaxsMeaning(acc: Expr, s: ConstraintSet, from: From, ks: seq<VarId>,
                                            env: map<Ref, nat>, ctx: Ctx, d: nat, w: nat)
    requires ValidFrom(from) && forall i :: 0 <= i < |ks| ==> ks[i] in s.maxs
    requires Eval(acc, env, ctx, d, w) <= 1
    ensures Eval(CheckMaxs(acc, s, from, ks), env, ctx, d, w) ==
      if Eval(acc, env, ctx, d, w) == 1 && BelowMaxs(s, from, env, ks) then 1 else 0
    decreases |ks|
  {
    if ks != [] {
      var g := Lt(Load(CreateRef(ks[0], from)), Const(s.maxs[ks[0]]));
      var next := And(acc, g);
      var a := Eval(acc, env, ctx, d, w);
      var b := Eval(g, env, ctx, d, w);
      EvalCompare(CreateRef(ks[0], from), s.maxs[ks[0]], env, ctx, d, w);
      BitAndBits(a, b);
      assert Eval(next, env, ctx, d, w) == BitAnd(a, b);
      CheckMaxsMeaning(next, s, from, ks[1..], env, ctx, d, w);
      BelowMaxsSplit(s, from, env, ks);
    }
  }

  lemma GenerateCheckValue(s: ConstraintSet, from: From, env: map<Ref, nat>, ctx: Ctx, d: nat, w: nat)
    requires ValidFrom(from)
    ensures Eval(GenerateCheck(s, from), env, ctx, d, w) ==
      if AboveMins(s, from, env, SortedKeys(s.mins.Keys)) && BelowMaxs(s, from, env, SortedKeys(s.maxs.Keys)) then 1 else 0
  {
    var kmin := SortedKeys(s.mins.Keys);
    var c1 := CheckMins(One, s, from, kmin);
    assert Eval(One, env, ctx, d, w) == 1;
    CheckMinsMeaning(One, s, from, kmin, env, ctx, d, w);
    CheckMaxsMeaning(c1, s, from, SortedKeys(s.maxs.Keys), env, ctx, d, w);
  }

  /** The check evaluates to 1 when every bound of the set holds, and to 0 otherwise. */
  lemma GenerateCheckMeaning(s: ConstraintSet, from: From, env: map<Ref, nat>, ctx: Ctx, d: nat, w: nat)
    requires ValidFrom(from)
    ensures Eval(GenerateCheck(s, from), env, ctx, d, w) == if SetHolds(s, ValuationOf(env, from, s)) then 1 else 0
  {
    GenerateCheckValue(s, from, env, ctx, d, w);
    AboveMinsAll(s, from, env);
    BelowMaxsAll(s, from, env);
    SetHoldsOfEnv(s, from, env);
  }

  lemma AboveMinsAll(s: ConstraintSet, from: From, env: map<Ref, nat>)
    requires ValidFrom(from)
    ensures AboveMins(s, from, env, SortedKeys(s.mins.Keys)) <==>
      forall v :: v in s.mins ==> Val(env, CreateRef(v, from)) > s.mins[v].value
  {
    var ks := SortedKeys(s.mins.Keys);
    if AboveMins(s, from, env, ks) {
      forall v | v in s.mins
        ensures Val(env, CreateRef(v, from)) > s.mins[v].value
      {
        var i :| 0 <= i < |ks| && ks[i] == v;
      }
    }
  }

  lemma BelowMaxsAll(s: ConstraintSet, from: From, env: map<Ref, nat>)
    requires ValidFrom(from)
    ensures BelowMaxs(s, from, env, SortedKeys(s.maxs.Keys)) <==>
      forall v :: v in s.maxs ==> Val(env, CreateRef(v, from)) < s.maxs[v].value
  {
    var ks := SortedKeys(s.maxs.Keys);
    if BelowMaxs(s, from, env, ks) {
      forall v | v in s.maxs
        ensures Val(env, CreateRef(v, from)) < s.maxs[v].value
      {
        var i :| 0 <= i < |ks| && ks[i] == v;
      }
    }
  }

  // ----- Applying the bounds -----

  /**
   * When applying one variable's bounds lands inside them, given its value
   * `x` before and its width `w`: a lower bound m must have m + 1 below 2^m's
   * width; with an upper bound M as well, m + 1 < M <= 2^w; with a lower bound
   * alone, x + m + 1 < 2^w; with an upper bound alone, M is positive and both
   * M and x read as non-negative in the width of the signed modulus.
   */
  predicate ApplyInRange(s: ConstraintSet, v: VarId, x: nat, w: nat)
    requires WellFormed(s)
  {
    if v in s.mins then
      var m1 := s.mins[v].value + 1;
      m1 < Pow2(s.mins[v].width) &&
      (if v in s.maxs then m1 < s.maxs[v].value <= Pow2(w) else x + m1 < Pow2(w))
    else v in s.maxs ==>
      var cw := Max(w, s.maxs[v].width);
      cw > 0 && 0 < s.maxs[v].value < Pow2(cw - 1) && x < Pow2(cw - 1)
  }

  /** The value lies strictly inside the variable's bounds. */
  predicate InBounds(s: ConstraintSet, v: VarId, y: nat) {
    (v in s.mins ==> y > s.mins[v].value) && (v in s.maxs ==> y < s.maxs[v].value)
  }

  lemma RefWidthOf(v: VarId, from: From, ctx: Ctx)
    requires ValidFrom(from)
    ensures RefWidth(CreateRef(v, from), ctx) == WidthOf(ctx.widths, v)
  {
  }

  lemma ExecOne(a: Stmt, st: State, ctx: Ctx)
    ensures Exec([a], st, ctx) == Step(a, st, ctx)
  {
    assert [a][1..] == [];
  }

  lemma ExecTwo(a: Stmt, b: Stmt, st: State, ctx: Ctx)
    ensures Exec([a, b], st, ctx) == Step(b, Step(a, st, ctx), ctx)
  {
    assert [a, b] == [a] + [b];
    ExecAppend([a], [b], st, ctx);
    ExecOne(a, st, ctx);
    ExecOne(b, Step(a, st, ctx), ctx);
  }

  lemma StepAssign(r: Ref, e: Expr, st: State, ctx: Ctx)
    ensures Val(Step(Assign(Whole(r), e), st, ctx).env, r) == AssignedValue(r, e, st.env, ctx, NextDraw(st))
  {
  }

  /** Adding m1 to a value below 2^w - m1 lands at value + m1. */
  lemma AddStep(r: Ref, m1: Num, st: State, ctx: Ctx)
    requires Val(st.env, r) + m1.value < Pow2(RefWidth(r, ctx))
    ensures Val(Step(Assign(Whole(r), Add(Load(r), Const(m1))), st, ctx).env, r) == Val(st.env, r) + m1.value
  {
    var w := RefWidth(r, ctx);
    var e := Add(Load(r), Const(m1));
    assert SelfWidth(e, ctx) == Max(w, m1.width);
    var cw := Max(w, SelfWidth(e, ctx));
    Pow2Monotone(w, cw);
    var x := Val(st.env, r);
    assert Eval(e, st.env, ctx, NextDraw(st), cw) == Trunc(x + m1.value, cw) == x + m1.value;
    assert AssignedValue(r, e, st.env, ctx, NextDraw(st)) == x + m1.value;
    StepAssign(r, e, st, ctx);
  }

  lemma BothStep(r: Ref, m1: Num, mx: Num, st: State, ctx: Ctx)
    requires Fits(mx) && m1.value < mx.value <= Pow2(RefWidth(r, ctx))
    ensures Val(Step(Assign(Whole(r), ModDiv(Load(r), Sub(Const(mx), Const(m1)))), st, ctx).env, r)
            == Val(st.env, r) % (mx.value - m1.value)
  {
    var w := RefWidth(r, ctx);
    var sub := Sub(Const(mx), Const(m1));
    var e := ModDiv(Load(r), sub);
    assert SelfWidth(sub, ctx) == Max(mx.width, m1.width);
    assert SelfWidth(e, ctx) == Max(w, SelfWidth(sub, ctx));
    var cw := Max(w, SelfWidth(e, ctx));
    Pow2Monotone(mx.width, cw);
    var dv := mx.value - m1.value;
    assert Eval(sub, st.env, ctx, NextDraw(st), cw) == Trunc(dv, cw) == dv;
    var x := Val(st.env, r);
    var y := x % dv;
    assert Eval(e, st.env, ctx, NextDraw(st), cw) == y;
    assert y < Pow2(w);
    assert AssignedValue(r, e, st.env, ctx, NextDraw(st)) == y;
    StepAssign(r, e, st, ctx);
  }

  lemma MaxOnlyStep(r: Ref, mx: Num, st: State, ctx: Ctx)
    requires Fits(mx)
    requires var cw := Max(RefWidth(r, ctx), mx.width);
      cw > 0 && 0 < mx.value < Pow2(cw - 1) && Val(st.env, r) < Pow2(cw - 1)
    ensures Val(Step(Assign(Whole(r), ModDivS(Load(r), Const(mx))), st, ctx).env, r) < mx.value
  {
    var w := RefWidth(r, ctx);
    var e := ModDivS(Load(r), Const(mx));
    assert SelfWidth(e, ctx) == Max(w, mx.width);
    var cw := Max(w, SelfWidth(e, ctx));
    assert cw == Max(w, mx.width);
    var x := Val(st.env, r);
    assert Pow2(cw) == 2 * Pow2(cw - 1);
    assert ToSigned(x, cw) == x;
    assert ToSigned(mx.value, cw) == mx.value;
    var y := x % mx.value;
    assert TruncRem(x, mx.value) == y;
    assert Eval(e, st.env, ctx, NextDraw(st), cw) == Trunc(y, cw) == y;
    assert AssignedValue(r, e, st.env, ctx, NextDraw(st)) <= y;
    StepAssign(r, e, st, ctx);
  }

  /** Applying one variable's bounds puts it inside them, when ApplyInRange holds. */
  lemma KeyStmtsEffect(s: ConstraintSet, from: From, v: VarId, st: State, ctx: Ctx)
    requires WellFormed(s) && ValidFrom(from) && Bounds(s, v)
    requires ApplyInRange(s, v, Val(st.env, CreateRef(v, from)), WidthOf(ctx.widths, v))
    ensures InBounds(s, v, Val(Exec(KeyStmts(s, from, v), st, ctx).env, CreateRef(v, from)))
  {
    var r := CreateRef(v, from);
    RefWidthOf(v, from, ctx);
    if v in s.mins {
      var m1 := Inc(s.mins[v]);
      var add := Assign(Whole(r), Add(Load(r), Const(m1)));
      if v in s.maxs {
        var md := Assign(Whole(r), ModDiv(Load(r), Sub(Const(s.maxs[v]), Const(m1))));
        assert KeyStmts(s, from, v) == [md, add];
        ExecTwo(md, add, st, ctx);
        BothStep(r, m1, s.maxs[v], st, ctx);
        var st1 := Step(md, st, ctx);
        AddStep(r, m1, st1, ctx);
      } else {
        assert KeyStmts(s, from, v) == [add];
        ExecOne(add, st, ctx);
        AddStep(r, m1, st, ctx);
      }
    } else {
      var md := Assign(Whole(r), ModDivS(Load(r), Const(s.maxs[v])));
      assert KeyStmts(s, from, v) == [md];
      ExecOne(md, st, ctx);
      MaxOnlyStep(r, s.maxs[v], st, ctx);
    }
  }

  lemma {:induction false} KeyStmtsTargets(s: ConstraintSet, from: From, v: VarId)
    requires WellFormed(s) && ValidFrom(from) && Bounds(s, v)
    ensures Targets(KeyStmts(s, from, v)) == {CreateRef(v, from)}
  {
    var r := CreateRef(v, from);
    if v in s.mins {
      var m1 := Inc(s.mins[v]);
      var a := [Assign(Whole(r), Add(Load(r), Const(m1)))];
      assert Targets(a) == {r} by {
        assert Targets(a) == StmtTargets(a[0]) + Targets(a[1..]);
        assert a[1..] == [];
      }
      if v in s.maxs {
        var b := [Assign(Whole(r), ModDiv(Load(r), Sub(Const(s.maxs[v]), Const(m1))))];
        assert Targets(b) == {r} by {
          assert Targets(b) == StmtTargets(b[0]) + Targets(b[1..]);
          assert b[1..] == [];
        }
        TargetsAppend(b, a);
      } else {
        assert KeyStmts(s, from, v) == [] + a;
      }
    } else {
      var a := [Assign(Whole(r), ModDivS(Load(r), Const(s.maxs[v])))];
      assert Targets(a) == StmtTargets(a[0]) + Targets(a[1..]);
      assert a[1..] == [];
    }
  }

  /** The references of the variables of a key list. */
  function RefsOf(ks: seq<VarId>, from: From): set<Ref>
    requires ValidFrom(from)
  {
    set i | 0 <= i < |ks| :: CreateRef(ks[i], from)
  }

  lemma {:induction false} GroupTargets(s: ConstraintSet, from: From, ks: seq<VarId>)
    requires WellFormed(s) && ValidFrom(from)
    requires forall i :: 0 <= i < |ks| ==> Bounds(s, ks[i])
    ensures Targets(GroupStmts(s, from, ks)) == RefsOf(ks, from)
    decreases |ks|
  {
    if ks != [] {
      KeyStmtsTargets(s, from, ks[0]);
      GroupTargets(s, from, ks[1..]);
      TargetsAppend(KeyStmts(s, from, ks[0]), GroupStmts(s, from, ks[1..]));
      assert RefsOf(ks, from) == {CreateRef(ks[0], from)} + RefsOf(ks[1..], from) by {
        forall r | r in RefsOf(ks, from)
          ensures r in {CreateRef(ks[0], from)} + RefsOf(ks[1..], from)
        {
          var i :| 0 <= i < |ks| && r == CreateRef(ks[i], from);
          if i > 0 {
            assert ks[i] == ks[1..][i - 1];
          }
        }
        forall r | r in RefsOf(ks[1..], from)
          ensures r in RefsOf(ks, from)
        {
          var i :| 0 <= i < |ks[1..]| && r == CreateRef(ks[1..][i], from);
          assert ks[1..][i] == ks[i + 1];
        }
      }
    } else {
      assert RefsOf(ks, from) == {};
    }
  }

  /** A reference to a variable outside the key list is not in its references. */
  lemma NotInRefs(ks: seq<VarId>, from: From, v: VarId)
    requires ValidFrom(from) && forall i :: 0 <= i < |ks| ==> ks[i] != v
    ensures CreateRef(v, from) !in RefsOf(ks, from)
  {
    forall i | 0 <= i < |ks|
      ensures CreateRef(ks[i], from) != CreateRef(v, from)
    {
      CreateRefInjective(ks[i], v, from);
    }
  }

  /** Applying the bounds of distinct variables in turn puts each inside its bounds and touches nothing else. */
  lemma {:induction false} GroupEffect(s: ConstraintSet, from: From, ks: seq<VarId>, st: State, ctx: Ctx)
    requires WellFormed(s) && ValidFrom(from)
    requires forall i :: 0 <= i < |ks| ==> Bounds(s, ks[i])
    requires forall i, j :: 0 <= i < j < |ks| ==> ks[i] != ks[j]
    requires forall i :: 0 <= i < |ks| ==>
      ApplyInRange(s, ks[i], Val(st.env, CreateRef(ks[i], from)), WidthOf(ctx.widths, ks[i]))
    ensures forall i :: 0 <= i < |ks| ==>
      InBounds(s, ks[i], Val(Exec(GroupStmts(s, from, ks), st, ctx).env, CreateRef(ks[i], from)))
    decreases |ks|
  {
    if ks != [] {
      var k := ks[0];
      var a := KeyStmts(s, from, k);
      var rest := GroupStmts(s, from, ks[1..]);
      ExecAppend(a, rest, st, ctx);
      var st1 := Exec(a, st, ctx);
      KeyStmtsEffect(s, from, k, st, ctx);
      KeyStmtsTargets(s, from, k);
      forall i | 0 <= i < |ks[1..]|
        ensures ApplyInRange(s, ks[1..][i], Val(st1.env, CreateRef(ks[1..][i], from)), WidthOf(ctx.widths, ks[1..][i]))
      {
        assert ks[1..][i] == ks[i + 1] != k;
        CreateRefInjective(ks[i + 1], k, from);
        ExecFrame(a, st, ctx, CreateRef(ks[i + 1], from));
      }
      GroupEffect(s, from, ks[1..], st1, ctx);
      GroupTargets(s, from, ks[1..]);
      NotInRefs(ks[1..], from, k);
      ExecFrame(rest, st1, ctx, CreateRef(k, from));
      forall i | 1 <= i < |ks|
        ensures InBounds(s, ks[i], Val(Exec(rest, st1, ctx).env, CreateRef(ks[i], from)))
      {
        assert ks[i] == ks[1..][i - 1];
      }
    }
  }

  /** A variable outside the key list keeps its value. */
  lemma GroupKeeps(s: ConstraintSet, from: From, ks: seq<VarId>, st: State, ctx: Ctx, v: VarId)
    requires WellFormed(s) && ValidFrom(from)
    requires forall i :: 0 <= i < |ks| ==> Bounds(s, ks[i])
    requires forall i :: 0 <= i < |ks| ==> ks[i] != v
    ensures Val(Exec(GroupStmts(s, from, ks), st, ctx).env, CreateRef(v, from)) == Val(st.env, CreateRef(v, from))
  {
    GroupTargets(s, from, ks);
    NotInRefs(ks, from, v);
    ExecFrame(GroupStmts(s, from, ks), st, ctx, CreateRef(v, from));
  }

  /** Every variable of the set lies inside its bounds. */
  ghost predicate AllInBounds(s: ConstraintSet, from: From, env: map<Ref, nat>)
    requires ValidFrom(from)
  {
    forall v :: Bounds(s, v) ==> InBounds(s, v, Val(env, CreateRef(v, from)))
  }

  lemma SetHoldsOfEnv(s: ConstraintSet, from: From, env: map<Ref, nat>)
    requires ValidFrom(from)
    ensures SetHolds(s, ValuationOf(env, from, s)) <==> AllInBounds(s, from, env)
  {
  }

  lemma ApplySetInBounds(s: ConstraintSet, from: From, st: State, ctx: Ctx)
    requires WellFormed(s) && ValidFrom(from)
    requires forall v :: Bounds(s, v) ==> ApplyInRange(s, v, Val(st.env, CreateRef(v, from)), WidthOf(ctx.widths, v))
    ensures AllInBounds(s, from, Exec(ApplySet(s, from), st, ctx).env)
  {
    var k1 := SortedKeys(s.mins.Keys);
    var k2 := SortedKeys(s.maxs.Keys - s.mins.Keys);
    SortedKeysIncreasing(s.mins.Keys);
    SortedKeysIncreasing(s.maxs.Keys - s.mins.Keys);
    var g1 := GroupStmts(s, from, k1);
    var g2 := GroupStmts(s, from, k2);
    ExecAppend(g1, g2, st, ctx);
    var st1 := Exec(g1, st, ctx);
    var st2 := Exec(g2, st1, ctx);
    assert forall i :: 0 <= i < |k1| ==> Bounds(s, k1[i]);
    GroupEffect(s, from, k1, st, ctx);
    forall i | 0 <= i < |k2|
      ensures ApplyInRange(s, k2[i], Val(st1.env, CreateRef(k2[i], from)), WidthOf(ctx.widths, k2[i]))
    {
      GroupKeeps(s, from, k1, st, ctx, k2[i]);
    }
    GroupEffect(s, from, k2, st1, ctx);
    forall v | Bounds(s, v)
      ensures InBounds(s, v, Val(st2.env, CreateRef(v, from)))
    {
      if v in s.mins {
        assert v in k1;
        var i :| 0 <= i < |k1| && k1[i] == v;
        GroupKeeps(s, from, k2, st1, ctx, v);
      } else {
        assert v in s.maxs.Keys - s.mins.Keys;
        assert v in k2;
        var i :| 0 <= i < |k2| && k2[i] == v;
      }
    }
  }

  /** Applying the set's bounds establishes all of them, when every variable is within ApplyInRange. */
  lemma ApplySetEstablishes(s: ConstraintSet, from: From, st: State, ctx: Ctx)
    requires WellFormed(s) && ValidFrom(from)
    requires forall v :: Bounds(s, v) ==> ApplyInRange(s, v, Val(st.env, CreateRef(v, from)), WidthOf(ctx.widths, v))
    ensures SetHolds(s, ValuationOf(Exec(ApplySet(s, from), st, ctx).env, from, s))
  {
    ApplySetInBounds(s, from, st, ctx);
    SetHoldsOfEnv(s, from, Exec(ApplySet(s, from), st, ctx).env);
  }

  /** After applying a set's bounds within ApplyInRange, its check evaluates to 1. */
  lemma ApplyThenCheck(s: ConstraintSet, from: From, st: State, ctx: Ctx, d: nat, w: nat)
    requires WellFormed(s) && ValidFrom(from)
    requires forall v :: Bounds(s, v) ==> ApplyInRange(s, v, Val(st.env, CreateRef(v, from)), WidthOf(ctx.widths, v))
    ensures Eval(GenerateCheck(s, from), Exec(ApplySet(s, from), st, ctx).env, ctx, d, w) == 1
  {
    ApplySetEstablishes(s, from, st, ctx);
    GenerateCheckMeaning(s, from, Exec(ApplySet(s, from), st, ctx).env, ctx, d, w);
  }
}
