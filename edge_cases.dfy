/**
 * Inputs at the edges of the bound arithmetic, worked through on 8-bit
 * variables. They show what the exactness and range hypotheses of the
 * general lemmas exclude: an inclusive bound at the edge of its width wraps
 * around, and applying the bounds can overflow or use a signed remainder.
 */
module EdgeCases {
  import opened Bits
  import opened GenAst
  import opened ConstraintExpr
  import opened ConstraintSets
  import opened SetCodegen
  import opened Keys

  /**
   * `a >= 8'd0` holds for every 8-bit value, but its bound 0 - 1 wraps to
   * 255, so the set it yields holds for none.
   */
  lemma GteZeroWraps(a: VarId, val: Valuation, widths: map<VarId, nat>)
    requires At(val, a) < 256
    ensures var e := Biop(OpGte, VarRefE(a), ConstE(Num(0, 8)));
      ConstsFit(e) &&
      AddConstraint(EmptySet, e).result == ConstraintSet(map[a := Num(255, 8)], map[]) &&
      CompareHolds(e.op, e.lhs, e.rhs, val, widths) &&
      !SetHolds(AddConstraint(EmptySet, e).result, val)
  {
    assert Pow2(8) == 256 && Pow2(7) == 128;
    var s := ConstraintSet(map[a := Num(255, 8)], map[]);
    assert Dec(Num(0, 8)) == Num(255, 8);
    assert !(At(val, a) > s.mins[a].value);
  }

  /**
   * `a <= 8'd255` holds for every 8-bit value, but its bound 255 + 1 wraps
   * to 0, so the set it yields holds for none.
   */
  lemma LteAllOnesWraps(a: VarId, val: Valuation, widths: map<VarId, nat>)
    requires At(val, a) < 256
    ensures var e := Biop(OpLte, VarRefE(a), ConstE(Num(255, 8)));
      ConstsFit(e) &&
      AddConstraint(EmptySet, e).result == ConstraintSet(map[], map[a := Num(0, 8)]) &&
      CompareHolds(e.op, e.lhs, e.rhs, val, widths) &&
      !SetHolds(AddConstraint(EmptySet, e).result, val)
  {
    assert Pow2(8) == 256 && Pow2(7) == 128;
    var s := ConstraintSet(map[], map[a := Num(0, 8)]);
    assert Inc(Num(255, 8)) == Num(0, 8);
    assert !(At(val, a) < s.maxs[a].value);
  }

  /**
   * `a >s 8'hFF` compares `a` with -1, so it holds for 0..127, but the pass
   * bounds a signed comparison like an unsigned one: the exclusive lower
   * bound 255 leaves a set that holds for no value. The operands are not
   * sign-safe, which is what the exactness lemmas exclude.
   */
  lemma SignedGtMisbounded(a: VarId, val: Valuation, widths: map<VarId, nat>)
    requires At(val, a) < 128 && WidthOf(widths, a) == 8
    ensures var e := Biop(OpGtS, VarRefE(a), ConstE(Num(255, 8)));
      ConstsFit(e) &&
      AddConstraint(EmptySet, e).result == ConstraintSet(map[a := Num(255, 8)], map[]) &&
      CompareHolds(e.op, e.lhs, e.rhs, val, widths) &&
      !SetHolds(AddConstraint(EmptySet, e).result, val) &&
      !SignSafe(e, val, widths)
  {
    assert Pow2(8) == 256 && Pow2(7) == 128;
    var e := Biop(OpGtS, VarRefE(a), ConstE(Num(255, 8)));
    assert Signed(e.rhs, val, widths) == -1;
    assert Signed(e.lhs, val, widths) == At(val, a);
    var s := ConstraintSet(map[a := Num(255, 8)], map[]);
    assert !(At(val, a) > s.mins[a].value);
  }

  /** The code for a single variable with only the lower bound 10. */
  lemma MinOnlyCode(a: VarId)
    ensures var s := ConstraintSet(map[a := Num(10, 8)], map[]);
      WellFormed(s) && ApplySet(s, NoFrom) == [Assign(Whole(VarRef(a)), Add(Load(VarRef(a)), Const(Num(11, 8))))]
  {
    assert Pow2(8) == 256 && Pow2(7) == 128;
    var s := ConstraintSet(map[a := Num(10, 8)], map[]);
    assert SortedKeys({a}) == [a] && SortedKeys({}) == [] by {
      assert SortedKeys({a})[0] in {a};
    }
    assert s.mins.Keys == {a} && s.maxs.Keys - s.mins.Keys == {};
    assert Inc(Num(10, 8)) == Num(11, 8);
    assert GroupStmts(s, NoFrom, [a]) == KeyStmts(s, NoFrom, a) + GroupStmts(s, NoFrom, []);
  }

  /** The code for a single variable with only the upper bound 100. */
  lemma MaxOnlyCode(a: VarId)
    ensures var s := ConstraintSet(map[], map[a := Num(100, 8)]);
      WellFormed(s) && ApplySet(s, NoFrom) == [Assign(Whole(VarRef(a)), ModDivS(Load(VarRef(a)), Const(Num(100, 8))))]
  {
    assert Pow2(8) == 256 && Pow2(7) == 128;
    var s := ConstraintSet(map[], map[a := Num(100, 8)]);
    assert SortedKeys({a}) == [a] && SortedKeys({}) == [] by {
      assert SortedKeys({a})[0] in {a};
    }
    assert s.mins.Keys == {} && s.maxs.Keys - s.mins.Keys == {a};
    assert GroupStmts(s, NoFrom, [a]) == KeyStmts(s, NoFrom, a) + GroupStmts(s, NoFrom, []);
  }

  /**
   * With only a lower bound, `a > 10` is applied as `a := a + 11`; from the
   * random value 250 that wraps to 5, which violates the bound.
   */
  lemma MinOnlyOverflows(a: VarId, ctx: Ctx, draws: seq<nat>)
    requires a in ctx.widths && ctx.widths[a] == 8
    ensures var s := ConstraintSet(map[a := Num(10, 8)], map[]);
      var st := State(map[VarRef(a) := 250], draws);
      WellFormed(s) &&
      Val(Exec(ApplySet(s, NoFrom), st, ctx).env, VarRef(a)) == 5 &&
      !AllInBounds(s, NoFrom, Exec(ApplySet(s, NoFrom), st, ctx).env)
  {
    assert Pow2(8) == 256 && Pow2(7) == 128;
    var st := State(map[VarRef(a) := 250], draws);
    var r := VarRef(a);
    var stmt := Assign(Whole(r), Add(Load(r), Const(Num(11, 8))));
    var e := Add(Load(r), Const(Num(11, 8)));
    MinOnlyCode(a);
    ExecOne(stmt, st, ctx);
    assert RefWidth(r, ctx) == 8 && SelfWidth(e, ctx) == 8;
    assert Eval(Load(r), st.env, ctx, NextDraw(st), 8) == 250;
    assert Trunc(250 + 11, 8) == 5;
    assert Eval(e, st.env, ctx, NextDraw(st), 8) == 5;
    assert AssignedValue(r, e, st.env, ctx, NextDraw(st)) == 5;
    var env' := Step(stmt, st, ctx).env;
    assert Val(env', r) == 5;
    assert !InBounds(ConstraintSet(map[a := Num(10, 8)], map[]), a, Val(env', CreateRef(a, NoFrom)));
  }

  /**
   * With only an upper bound, `a < 100` is applied as the signed remainder
   * `a := a %s 100`; the random value 200 reads as -56, whose remainder is
   * -56 again, the pattern 200, which violates the bound.
   */
  lemma MaxOnlySignedRemainder(a: VarId, ctx: Ctx, draws: seq<nat>)
    requires a in ctx.widths && ctx.widths[a] == 8
    ensures var s := ConstraintSet(map[], map[a := Num(100, 8)]);
      var st := State(map[VarRef(a) := 200], draws);
      WellFormed(s) &&
      Val(Exec(ApplySet(s, NoFrom), st, ctx).env, VarRef(a)) == 200 &&
      !AllInBounds(s, NoFrom, Exec(ApplySet(s, NoFrom), st, ctx).env)
  {
    assert Pow2(8) == 256 && Pow2(7) == 128;
    var st := State(map[VarRef(a) := 200], draws);
    var r := VarRef(a);
    var stmt := Assign(Whole(r), ModDivS(Load(r), Const(Num(100, 8))));
    var e := ModDivS(Load(r), Const(Num(100, 8)));
    MaxOnlyCode(a);
    ExecOne(stmt, st, ctx);
    assert RefWidth(r, ctx) == 8 && SelfWidth(e, ctx) == 8;
    assert Eval(Load(r), st.env, ctx, NextDraw(st), 8) == 200;
    assert ToSigned(200, 8) == -56 && ToSigned(100, 8) == 100;
    assert TruncRem(-56, 100) == -56;
    assert Trunc(-56, 8) == 200;
    assert Eval(e, st.env, ctx, NextDraw(st), 8) == 200;
    assert AssignedValue(r, e, st.env, ctx, NextDraw(st)) == 200;
    var env' := Step(stmt, st, ctx).env;
    assert Val(env', r) == 200;
    assert !InBounds(ConstraintSet(map[], map[a := Num(100, 8)]), a, Val(env', CreateRef(a, NoFrom)));
  }
}
