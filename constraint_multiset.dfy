/**
 * ConstraintMultiset: a disjunction of ConstraintSets. A constraint is put
 * into disjunctive form while it is folded in: and-ing folds both operands
 * into the same sets, or-ing copies the whole multiset, folds the left side
 * into the original and the right side into the copy, and appends the copy.
 * Applying a multiset of several sets draws one of them at random through a
 * function-local temporary and a `case`; its check is the or of the sets' checks.
 */
module ConstraintMultisets {
  import opened Wrappers
  import opened Bits
  import opened GenAst
  import opened ConstraintExpr
  import opened ConstraintSets
  import opened SetCodegen
  import opened Classes
  import opened MultisetCodegen

  /** The sets after a fold, and the nodes reported as "Unsupported constraint", in report order. */
  datatype Folded = Folded(sets: seq<ConstraintSet>, unsupported: seq<CExpr>)

  predicate IsConj(e: CExpr) {
    e.Biop? && (e.op == OpAnd || e.op == OpLogAnd)
  }

  predicate IsDisj(e: CExpr) {
    e.Biop? && (e.op == OpOr || e.op == OpLogOr)
  }

  /** ConstraintMultiset::addConstraint on a list of sets. */
  function Fold(sets: seq<ConstraintSet>, e: CExpr): Folded
    requires ConstsFit(e)
    decreases e
  {
    if IsConj(e) then
      var a := Fold(sets, e.lhs);
      var b := Fold(a.sets, e.rhs);
      Folded(b.sets, a.unsupported + b.unsupported)
    else if IsDisj(e) then
      var a := Fold(sets, e.lhs);
      var b := Fold(sets, e.rhs);
      Folded(a.sets + b.sets, a.unsupported + b.unsupported)
    else AddToEach(sets, e)
  }

  /** A leaf added to every set, first to last. */
  function AddToEach(sets: seq<ConstraintSet>, e: CExpr): (r: Folded)
    requires ConstsFit(e)
    ensures |r.sets| == |sets|
    ensures forall i :: 0 <= i < |sets| ==> r.sets[i] == ConstraintSets.AddConstraint(sets[i], e).result
    decreases |sets|
  {
    if sets == [] then Folded([], [])
    else
      var a := AddToEach(sets[..|sets| - 1], e);
      var b := ConstraintSets.AddConstraint(sets[|sets| - 1], e);
      Folded(a.sets + [b.result], a.unsupported + b.unsupported)
  }

  /** Folding a list of conditions in order. */
  function FoldAll(sets: seq<ConstraintSet>, es: seq<CExpr>): Folded
    requires forall i :: 0 <= i < |es| ==> ConstsFit(es[i])
    decreases |es|
  {
    if es == [] then Folded(sets, [])
    else
      var a := FoldAll(sets, es[..|es| - 1]);
      var b := Fold(a.sets, es[|es| - 1]);
      Folded(b.sets, a.unsupported + b.unsupported)
  }

  /** The conditions of the `constraint` members of a member list, in order (addConstraints of a node list). */
  function CondsOf(ms: seq<Member>): seq<CExpr>
    decreases |ms|
  {
    if ms == [] then []
    else CondsOf(ms[..|ms| - 1]) + (if ms[|ms| - 1].ConstraintMember? then ms[|ms| - 1].conds else [])
  }

  /** The conditions of a class and then of each ancestor (addConstraints of a class). */
  function ClassConds(cs: ClassTable, depth: map<ClassId, nat>, chain: seq<ClassId>): seq<CExpr>
    requires forall i :: 0 <= i < |chain| ==> chain[i] in cs
    decreases |chain|
  {
    if chain == [] then []
    else ClassConds(cs, depth, chain[..|chain| - 1]) + CondsOf(cs[chain[|chain| - 1]].members)
  }

  predicate CondsFit(es: seq<CExpr>) {
    forall i :: 0 <= i < |es| ==> ConstsFit(es[i])
  }

  /** Every constant in the members' constraints is a bit pattern of its width. */
  predicate MembersFit(ms: seq<Member>) {
    forall i :: 0 <= i < |ms| ==> ms[i].ConstraintMember? ==> CondsFit(ms[i].conds)
  }

  predicate ClassesFit(cs: ClassTable) {
    forall c {:trigger MembersFit(cs[c].members)} :: c in cs ==> MembersFit(cs[c].members)
  }

  lemma {:induction false} CondsOfFit(ms: seq<Member>)
    requires MembersFit(ms)
    ensures CondsFit(CondsOf(ms))
    decreases |ms|
  {
    if ms != [] {
      CondsOfFit(ms[..|ms| - 1]);
    }
  }

  lemma {:induction false} ClassCondsFit(cs: ClassTable, depth: map<ClassId, nat>, chain: seq<ClassId>)
    requires forall i :: 0 <= i < |chain| ==> chain[i] in cs
    requires ClassesFit(cs)
    ensures CondsFit(ClassConds(cs, depth, chain))
    decreases |chain|
  {
    if chain != [] {
      ClassCondsFit(cs, depth, chain[..|chain| - 1]);
      CondsOfFit(cs[chain[|chain| - 1]].members);
    }
  }

  class ConstraintMultiset {
    var sets: seq<ConstraintSet>

    /** Every set's bounds are bit patterns of their widths. */
    predicate Valid()
      reads this
    {
      AllWellFormed(sets)
    }

    /** A fresh multiset holds exactly one empty set. */
    constructor ()
      ensures sets == [EmptySet] && Valid()
    {
      sets := [EmptySet];
    }

    /** The copy `constraintsCopy = *this`. */
    constructor Copy(other: ConstraintMultiset)
      ensures sets == other.sets
    {
      sets := other.sets;
    }

    /** `m_constraints = {}`. */
    method Reset()
      modifies this`sets
      ensures sets == [EmptySet] && Valid()
    {
      sets := [EmptySet];
    }

    /** ConstraintMultiset::addConstraint. */
    method AddConstraint(e: CExpr) returns (unsupported: seq<CExpr>)
      requires ConstsFit(e) && Valid()
      modifies this`sets
      ensures Folded(sets, unsupported) == Fold(old(sets), e)
      ensures Valid()
      decreases e
    {
      FoldWellFormed(sets, e);
      if IsConj(e) {
        var u1 := AddConstraint(e.lhs);
        var u2 := AddConstraint(e.rhs);
        unsupported := u1 + u2;
      } else if IsDisj(e) {
        var copy := new ConstraintMultiset.Copy(this);
        var u1 := AddConstraint(e.lhs);
        var u2 := copy.AddConstraint(e.rhs);
        sets := sets + copy.sets;
        unsupported := u1 + u2;
      } else {
        unsupported := AddLeaf(e);
      }
    }

    /** A leaf goes into every set, in place. */
    method AddLeaf(e: CExpr) returns (unsupported: seq<CExpr>)
      requires ConstsFit(e)
      modifies this`sets
      ensures Folded(sets, unsupported) == AddToEach(old(sets), e)
    {
      ghost var start := sets;
      unsupported := [];
      var i := 0;
      while i < |sets|
        invariant 0 <= i <= |sets| == |start|
        invariant sets[..i] == AddToEach(start[..i], e).sets
        invariant sets[i..] == start[i..]
        invariant unsupported == AddToEach(start[..i], e).unsupported
      {
        ghost var done := sets[..i];
        assert sets[i] == start[i] by { assert sets[i..][0] == start[i..][0]; }
        var a := ConstraintSets.AddConstraint(sets[i], e);
        AddToEachSnoc(start, i, e);
        sets := sets[..i] + [a.result] + sets[i + 1..];
        assert sets[..i + 1] == done + [a.result];
        assert sets[i + 1..] == start[i + 1..];
        unsupported := unsupported + a.unsupported;
        i := i + 1;
      }
      assert start[..i] == start;
      assert sets[..i] == sets;
    }

    /** addConstraints over a node list: the conditions of each `constraint`, in order. */
    method AddConstraintList(ms: seq<Member>) returns (unsupported: seq<CExpr>)
      requires MembersFit(ms) && Valid()
      modifies this`sets
      ensures Valid()
      ensures CondsFit(CondsOf(ms))
      ensures Folded(sets, unsupported) == FoldAll(old(sets), CondsOf(ms))
    {
      CondsOfFit(ms);
      unsupported := [];
      var i := 0;
      while i < |ms|
        invariant 0 <= i <= |ms|
        invariant CondsFit(CondsOf(ms[..i])) && Valid()
        invariant Folded(sets, unsupported) == FoldAll(old(sets), CondsOf(ms[..i]))
      {
        assert ms[..i + 1][..i] == ms[..i];
        CondsOfFit(ms[..i + 1]);
        ghost var done := CondsOf(ms[..i]);
        ghost var mid := sets;
        if ms[i].ConstraintMember? {
          var u := AddConds(ms[i].conds);
          assert CondsOf(ms[..i + 1]) == done + ms[i].conds;
          FoldAllAppend(old(sets), done, ms[i].conds);
          unsupported := unsupported + u;
        } else {
          assert CondsOf(ms[..i + 1]) == done + [];
          assert done + [] == done;
        }
        i := i + 1;
      }
      assert ms[..i] == ms;
    }

    /** The conditions of one `constraint`, in order. */
    method AddConds(conds: seq<CExpr>) returns (unsupported: seq<CExpr>)
      requires CondsFit(conds) && Valid()
      modifies this`sets
      ensures Valid()
      ensures Folded(sets, unsupported) == FoldAll(old(sets), conds)
    {
      unsupported := [];
      var j := 0;
      while j < |conds|
        invariant 0 <= j <= |conds|
        invariant Folded(sets, unsupported) == FoldAll(old(sets), conds[..j]) && Valid()
      {
        var u := AddConstraint(conds[j]);
        assert conds[..j + 1][..j] == conds[..j];
        unsupported := unsupported + u;
        j := j + 1;
      }
      assert conds[..j] == conds;
    }

    /** addConstraints of a class: its own constraints, then each ancestor's. */
    method AddClassConstraints(cs: ClassTable, depth: map<ClassId, nat>, c: ClassId) returns (unsupported: seq<CExpr>)
      requires ChainOk(cs, depth) && c in cs && ClassesFit(cs) && Valid()
      modifies this`sets
      ensures Valid()
      ensures CondsFit(ClassConds(cs, depth, Chain(cs, depth, c)))
      ensures Folded(sets, unsupported) == FoldAll(old(sets), ClassConds(cs, depth, Chain(cs, depth, c)))
    {
      var chain := Chain(cs, depth, c);
      ClassCondsFit(cs, depth, chain);
      ClassCondsFit(cs, depth, chain[..0]);
      unsupported := [];
      var i := 0;
      while i < |chain|
        invariant 0 <= i <= |chain|
        invariant CondsFit(ClassConds(cs, depth, chain[..i])) && Valid()
        invariant Folded(sets, unsupported) == FoldAll(old(sets), ClassConds(cs, depth, chain[..i]))
      {
        var u := AddConstraintList(cs[chain[i]].members);
        assert chain[..i + 1][..i] == chain[..i];
        ClassCondsFit(cs, depth, chain[..i + 1]);
        FoldAllAppend(old(sets), ClassConds(cs, depth, chain[..i]), CondsOf(cs[chain[i]].members));
        unsupported := unsupported + u;
        i := i + 1;
      }
      assert chain[..i] == chain;
    }

    /**
     * ConstraintMultiset::applyConstraints; `varCnt` is the pass's counter
     * of temporaries, returned advanced when a temporary is declared.
     */
    method ApplyConstraints(from: From, varCnt: nat) returns (stmts: seq<Stmt>, varCnt': nat)
      requires Valid() && ValidFrom(from)
      ensures Applied(stmts, varCnt') == ApplyMulti(sets, from, varCnt)
    {
      if |sets| == 0 {
        return [], varCnt;
      }
      if |sets| == 1 {
        stmts := SetCodegen.ApplyConstraints(sets[0], from);
        return stmts, varCnt;
      }
      var items := BuildCases(sets, from);
      var name := TempName(varCnt);
      stmts := [DeclTemp(name),
                Assign(Whole(LocalRef(name)), ModDiv(Rand(32), Const32(|sets|))),
                Case(Load(LocalRef(name)), items)];
      varCnt' := varCnt + 1;
    }

    /** ConstraintMultiset::generateCheck. */
    method GenerateCheck(from: From) returns (e: Expr)
      requires ValidFrom(from)
      ensures e == CheckMulti(sets, from)
    {
      if |sets| == 0 {
        return One;
      }
      e := BuildOrChecks(sets, from);
    }
  }

  /** Folding a concatenation folds the first list, then the second into the result. */
  lemma {:induction false} FoldAllAppend(sets: seq<ConstraintSet>, a: seq<CExpr>, b: seq<CExpr>)
    requires CondsFit(a) && CondsFit(b)
    ensures CondsFit(a + b)
    ensures FoldAll(sets, a + b) ==
      Folded(FoldAll(FoldAll(sets, a).sets, b).sets, FoldAll(sets, a).unsupported + FoldAll(FoldAll(sets, a).sets, b).unsupported)
    decreases |b|
  {
    if b == [] {
      assert a + b == a;
    } else {
      var b' := b[..|b| - 1];
      assert (a + b)[..|a + b| - 1] == a + b';
      assert (a + b)[|a + b| - 1] == b[|b| - 1];
      FoldAllAppend(sets, a, b');
    }
  }

  // ----- Shape of the fold -----

  /** The number of sets a constraint multiplies a multiset by: disjuncts add, conjuncts multiply. */
  function Disjuncts(e: CExpr): nat {
    if IsConj(e) then Disjuncts(e.lhs) * Disjuncts(e.rhs)
    else if IsDisj(e) then Disjuncts(e.lhs) + Disjuncts(e.rhs)
    else 1
  }

  /** Or-ing copies the whole multiset, so the counts of sibling disjunctions multiply. */
  lemma {:induction false} FoldCount(sets: seq<ConstraintSet>, e: CExpr)
    requires ConstsFit(e)
    ensures |Fold(sets, e).sets| == |sets| * Disjuncts(e)
    decreases e
  {
    var n := |sets|;
    if IsConj(e) {
      var a := Fold(sets, e.lhs);
      FoldCount(sets, e.lhs);
      FoldCount(a.sets, e.rhs);
      MulAssoc(n, Disjuncts(e.lhs), Disjuncts(e.rhs));
    } else if IsDisj(e) {
      FoldCount(sets, e.lhs);
      FoldCount(sets, e.rhs);
      MulDistrib(n, Disjuncts(e.lhs), Disjuncts(e.rhs));
    } else {
      assert |Fold(sets, e).sets| == |AddToEach(sets, e).sets|;
    }
  }

  /** Helpers that keep the nonlinear steps out of FoldCount's context. */
  lemma MulDistrib(a: nat, b: nat, c: nat)
    ensures a * b + a * c == a * (b + c)
  {
  }

  lemma MulAssoc(a: nat, b: nat, c: nat)
    ensures (a * b) * c == a * (b * c)
  {
  }

  lemma {:induction false} DisjunctsPositive(e: CExpr)
    ensures Disjuncts(e) >= 1
  {
    if IsConj(e) {
      DisjunctsPositive(e.lhs);
      DisjunctsPositive(e.rhs);
      assert Disjuncts(e.lhs) * Disjuncts(e.rhs) >= 1 * 1;
    } else if IsDisj(e) {
      DisjunctsPositive(e.lhs);
    }
  }

  /** Folding keeps every set well formed. */
  lemma {:induction false} FoldWellFormed(sets: seq<ConstraintSet>, e: CExpr)
    requires ConstsFit(e) && AllWellFormed(sets)
    ensures AllWellFormed(Fold(sets, e).sets)
    decreases e
  {
    if IsConj(e) {
      FoldWellFormed(sets, e.lhs);
      FoldWellFormed(Fold(sets, e.lhs).sets, e.rhs);
    } else if IsDisj(e) {
      FoldWellFormed(sets, e.lhs);
      FoldWellFormed(sets, e.rhs);
    } else {
      forall i | 0 <= i < |sets|
        ensures WellFormed(Fold(sets, e).sets[i])
      {
        AddConstraintWellFormed(sets[i], e);
      }
    }
  }

  /** Folding a list of conditions keeps every set well formed. */
  lemma {:induction false} FoldAllWellFormed(sets: seq<ConstraintSet>, es: seq<CExpr>)
    requires CondsFit(es) && AllWellFormed(sets)
    ensures AllWellFormed(FoldAll(sets, es).sets)
    decreases |es|
  {
    if es != [] {
      var es' := es[..|es| - 1];
      assert CondsFit(es');
      FoldAllWellFormed(sets, es');
      FoldWellFormed(FoldAll(sets, es').sets, es[|es| - 1]);
    }
  }

  /** An 8-bit equality `a == c` with 0 < c < 255 bounds `a` to (c - 1, c + 1). */
  lemma EqLeaf(a: VarId, c: nat)
    requires 1 <= c < 255
    ensures ConstsFit(Biop(OpEq, VarRefE(a), ConstE(Num(c, 8))))
    ensures ConstraintSets.AddConstraint(EmptySet, Biop(OpEq, VarRefE(a), ConstE(Num(c, 8)))) ==
      Added(ConstraintSet(map[a := Num(c - 1, 8)], map[a := Num(c + 1, 8)]), [])
  {
    assert Pow2(8) == 256;
    assert Dec(Num(c, 8)) == Num(c - 1, 8) && Inc(Num(c, 8)) == Num(c + 1, 8);
  }

  /** Adding a leaf to one more set extends the result by that set's outcome. */
  lemma AddToEachSnoc(sets: seq<ConstraintSet>, i: nat, e: CExpr)
    requires ConstsFit(e) && i < |sets|
    ensures var a := AddToEach(sets[..i], e); var b := ConstraintSets.AddConstraint(sets[i], e);
      AddToEach(sets[..i + 1], e) == Folded(a.sets + [b.result], a.unsupported + b.unsupported)
  {
    assert sets[..i + 1][..i] == sets[..i];
  }

  /** A leaf added to a single set. */
  lemma AddToEachSingle(s: ConstraintSet, e: CExpr)
    requires ConstsFit(e)
    ensures var a := ConstraintSets.AddConstraint(s, e);
      AddToEach([s], e) == Folded([a.result], a.unsupported)
  {
    assert [s][..0] == [];
  }

  /** `a == 1 || a == 2` on an 8-bit `a` yields two sets, bounds (0, 2) and (1, 3). */
  lemma OrExample(a: VarId)
    ensures var e := Biop(OpLogOr, Biop(OpEq, VarRefE(a), ConstE(Num(1, 8))), Biop(OpEq, VarRefE(a), ConstE(Num(2, 8))));
      ConstsFit(e) &&
      Fold([EmptySet], e) ==
        Folded([ConstraintSet(map[a := Num(0, 8)], map[a := Num(2, 8)]),
                ConstraintSet(map[a := Num(1, 8)], map[a := Num(3, 8)])], [])
  {
    var e1 := Biop(OpEq, VarRefE(a), ConstE(Num(1, 8)));
    var e2 := Biop(OpEq, VarRefE(a), ConstE(Num(2, 8)));
    var e := Biop(OpLogOr, e1, e2);
    EqLeaf(a, 1);
    EqLeaf(a, 2);
    AddToEachSingle(EmptySet, e1);
    AddToEachSingle(EmptySet, e2);
    assert !IsConj(e1) && !IsDisj(e1) && !IsConj(e2) && !IsDisj(e2);
    assert Fold([EmptySet], e1) == Folded([ConstraintSet(map[a := Num(0, 8)], map[a := Num(2, 8)])], []);
    assert Fold([EmptySet], e2) == Folded([ConstraintSet(map[a := Num(1, 8)], map[a := Num(3, 8)])], []);
    assert IsDisj(e) && !IsConj(e);
  }

  // ----- Meaning of the fold -----

  /** Some set of the multiset holds. */
  ghost predicate AnyHolds(sets: seq<ConstraintSet>, val: Valuation) {
    exists i :: 0 <= i < |sets| && SetHolds(sets[i], val)
  }

  /** Every supported leaf below the and/or structure has a non-wrapping bound and is sign-safe. */
  predicate Exact(e: CExpr, val: Valuation, widths: map<VarId, nat>) {
    if IsConj(e) || IsDisj(e) then Exact(e.lhs, val, widths) && Exact(e.rhs, val, widths)
    else SupportedLeaf(e) ==> NoWrap(e) && SignSafe(e, val, widths)
  }

  lemma AddToEachExact(sets: seq<ConstraintSet>, e: CExpr, val: Valuation, widths: map<VarId, nat>)
    requires ConstsFit(e) && !IsConj(e) && !IsDisj(e) && Exact(e, val, widths)
    ensures AnyHolds(AddToEach(sets, e).sets, val) <==> AnyHolds(sets, val) && Holds(e, val, widths)
  {
    var r := AddToEach(sets, e).sets;
    forall i | 0 <= i < |sets|
      ensures SetHolds(r[i], val) <==> SetHolds(sets[i], val) && Holds(e, val, widths)
    {
      AddConstraintExact(sets[i], e, val, widths);
    }
    if AnyHolds(r, val) {
      var i :| 0 <= i < |r| && SetHolds(r[i], val);
      assert SetHolds(sets[i], val);
    }
    if AnyHolds(sets, val) && Holds(e, val, widths) {
      var i :| 0 <= i < |sets| && SetHolds(sets[i], val);
      assert SetHolds(r[i], val);
    }
  }

  /**
   * The fold is exact: some resulting set holds iff some original set does
   * and the constraint holds, when its leaves' bounds do not wrap and its
   * signed comparisons see non-negative operands.
   */
  lemma {:induction false} FoldExact(sets: seq<ConstraintSet>, e: CExpr, val: Valuation, widths: map<VarId, nat>)
    requires ConstsFit(e) && Exact(e, val, widths)
    ensures AnyHolds(Fold(sets, e).sets, val) <==> AnyHolds(sets, val) && Holds(e, val, widths)
    decreases e
  {
    if IsConj(e) {
      FoldExact(sets, e.lhs, val, widths);
      FoldExact(Fold(sets, e.lhs).sets, e.rhs, val, widths);
    } else if IsDisj(e) {
      var a := Fold(sets, e.lhs).sets;
      var b := Fold(sets, e.rhs).sets;
      FoldExact(sets, e.lhs, val, widths);
      FoldExact(sets, e.rhs, val, widths);
      AnyHoldsAppend(a, b, val);
    } else {
      AddToEachExact(sets, e, val, widths);
    }
  }

  lemma AnyHoldsAppend(a: seq<ConstraintSet>, b: seq<ConstraintSet>, val: Valuation)
    ensures AnyHolds(a + b, val) <==> AnyHolds(a, val) || AnyHolds(b, val)
  {
    if AnyHolds(a + b, val) {
      var i :| 0 <= i < |a + b| && SetHolds((a + b)[i], val);
      if i >= |a| {
        assert (a + b)[i] == b[i - |a|];
      }
    }
    if AnyHolds(b, val) {
      var i :| 0 <= i < |b| && SetHolds(b[i], val);
      assert (a + b)[|a| + i] == b[i];
    }
    if AnyHolds(a, val) {
      var i :| 0 <= i < |a| && SetHolds(a[i], val);
      assert (a + b)[i] == a[i];
    }
  }

  // ----- What the generated code achieves -----

  /** The values the code holds for the listed variables. */
  function EnvValuation(env: map<Ref, nat>, from: From, vs: set<VarId>): (val: Valuation)
    requires ValidFrom(from)
    ensures forall v :: v in vs ==> At(val, v) == Val(env, CreateRef(v, from))
  {
    map v | v in vs :: Val(env, CreateRef(v, from))
  }

  /** A set whose variables lie inside its bounds holds for the code's values. */
  lemma InBoundsHolds(s: ConstraintSet, from: From, env: map<Ref, nat>, vs: set<VarId>)
    requires ValidFrom(from) && forall v :: Bounds(s, v) ==> v in vs
    requires AllInBounds(s, from, env)
    ensures SetHolds(s, EnvValuation(env, from, vs))
  {
  }

  /**
   * The randomization is sound: after the code emitted for a constraint `e`
   * runs (from variables within ApplyInRange, with fewer than 2^32 sets),
   * the variables' values satisfy `e`, when its leaves are exact at those
   * values. The sets are those folded into the initial multiset.
   */
  lemma RandomizedValuesSatisfy(e: CExpr, from: From, varCnt: nat, st: State, ctx: Ctx, vs: set<VarId>)
    requires ConstsFit(e) && ValidFrom(from)
    requires var sets := Fold([EmptySet], e).sets;
      AllWellFormed(sets) && |sets| < Pow2(32) && AllApplyInRange(sets, from, st.env, ctx) &&
      forall i, v :: 0 <= i < |sets| && Bounds(sets[i], v) ==> v in vs
    requires var sets := Fold([EmptySet], e).sets;
      Exact(e, EnvValuation(Exec(ApplyMulti(sets, from, varCnt).stmts, st, ctx).env, from, vs), ctx.widths)
    ensures var sets := Fold([EmptySet], e).sets;
      Holds(e, EnvValuation(Exec(ApplyMulti(sets, from, varCnt).stmts, st, ctx).env, from, vs), ctx.widths)
  {
    var sets := Fold([EmptySet], e).sets;
    var env' := Exec(ApplyMulti(sets, from, varCnt).stmts, st, ctx).env;
    var val := EnvValuation(env', from, vs);
    FoldCount([EmptySet], e);
    DisjunctsPositive(e);
    ApplyMultiInBounds(sets, from, varCnt, st, ctx);
    var k := Chosen(|sets|, st);
    InBoundsHolds(sets[k], from, env', vs);
    FoldExact([EmptySet], e, val, ctx.widths);
  }
}
