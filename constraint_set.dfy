/**
 * ConstraintSet: one conjunction of bounds, per variable an exclusive lower
 * bound (`mins`) and an exclusive upper bound (`maxs`), each a V3Number.
 * The C++ struct is copied by value whenever the enclosing multiset is
 * copied, so it is modelled as a value with functions over it.
 *
 * Both maps are std::maps keyed by the variable; they are iterated in key
 * order (Keys.SortedKeys). Nothing proved here depends on that order.
 */
module ConstraintSets {
  import opened Bits
  import opened GenAst
  import opened ConstraintExpr
  import opened Keys

  datatype ConstraintSet = ConstraintSet(mins: map<VarId, Num>, maxs: map<VarId, Num>)

  /** A set with no bounds. */
  const EmptySet := ConstraintSet(map[], map[])

  /** Every stored bound is a bit pattern of its width. */
  predicate WellFormed(s: ConstraintSet) {
    (forall v :: v in s.mins ==> Fits(s.mins[v])) && (forall v :: v in s.maxs ==> Fits(s.maxs[v]))
  }

  /** Every set of a multiset is well formed. */
  predicate AllWellFormed(sets: seq<ConstraintSet>) {
    forall i :: 0 <= i < |sets| ==> WellFormed(sets[i])
  }

  /** The exclusive lower bound of `v > c`, or of `v >= c` when orEqual: c - 1 in c's width. */
  function MinBound(c: Num, orEqual: bool): (b: Num)
    requires Fits(c)
    ensures Fits(b) && b.width == c.width
    ensures !orEqual ==> b == c
    ensures orEqual && c.value >= 1 ==> b.value == c.value - 1
    ensures orEqual && c.value == 0 ==> b.value == Pow2(c.width) - 1
  {
    if orEqual then Dec(c) else c
  }

  /** The exclusive upper bound of `v < c`, or of `v <= c` when orEqual: c + 1 in c's width. */
  function MaxBound(c: Num, orEqual: bool): (b: Num)
    requires Fits(c)
    ensures Fits(b) && b.width == c.width
    ensures !orEqual ==> b == c
    ensures orEqual && c.value + 1 < Pow2(c.width) ==> b.value == c.value + 1
    ensures orEqual && c.value + 1 == Pow2(c.width) ==> b.value == 0
  {
    if orEqual then Inc(c) else c
  }

  /** Storing a lower bound: inserted if `v` has none, else it replaces the stored one only if strictly greater. */
  function AddMin(s: ConstraintSet, v: VarId, b: Num): (r: ConstraintSet)
    ensures r.maxs == s.maxs
    ensures r.mins.Keys == s.mins.Keys + {v}
    ensures forall u :: u in s.mins && u != v ==> r.mins[u] == s.mins[u]
    ensures r.mins[v].value == (if v in s.mins then Max(s.mins[v].value, b.value) else b.value)
    ensures r.mins[v] == b || (v in s.mins && r.mins[v] == s.mins[v])
  {
    if v in s.mins && !(b.value > s.mins[v].value) then s
    else s.(mins := s.mins[v := b])
  }

  /** Storing an upper bound: inserted if `v` has none, else it replaces the stored one only if strictly smaller. */
  function AddMax(s: ConstraintSet, v: VarId, b: Num): (r: ConstraintSet)
    ensures r.mins == s.mins
    ensures r.maxs.Keys == s.maxs.Keys + {v}
    ensures forall u :: u in s.maxs && u != v ==> r.maxs[u] == s.maxs[u]
    ensures r.maxs[v].value == (if v in s.maxs && s.maxs[v].value < b.value then s.maxs[v].value else b.value)
    ensures r.maxs[v] == b || (v in s.maxs && r.maxs[v] == s.maxs[v])
  {
    if v in s.maxs && !(b.value < s.maxs[v].value) then s
    else s.(maxs := s.maxs[v := b])
  }

  /**
   * The bounds a comparison of `v` with constant `c` contributes; `swapped`
   * when the constant is on the left, which exchanges the roles of > and <.
   */
  function Bounded(s: ConstraintSet, v: VarId, op: BinOp, c: Num, swapped: bool): ConstraintSet
    requires IsCompare(op) && Fits(c)
  {
    if IsEq(op) then AddMax(AddMin(s, v, MinBound(c, true)), v, MaxBound(c, true))
    else if IsGt(op) != swapped then AddMin(s, v, MinBound(c, IsInclusive(op)))
    else AddMax(s, v, MaxBound(c, IsInclusive(op)))
  }

  /** The new set and the nodes reported as "Unsupported constraint". */
  datatype Added = Added(result: ConstraintSet, unsupported: seq<CExpr>)

  /** ConstraintSet::addConstraint. */
  function AddConstraint(s: ConstraintSet, e: CExpr): (r: Added)
    requires ConstsFit(e)
    decreases e
  {
    if e.Biop? && e.op == OpLogAnd then
      var a := AddConstraint(s, e.lhs);
      var b := AddConstraint(a.result, e.rhs);
      Added(b.result, a.unsupported + b.unsupported)
    else if e.Biop? && GetVar(e.lhs).Some? then
      assert ConstsFit(e.lhs) && ConstsFit(e.rhs);
      if e.rhs.ConstE? && IsCompare(e.op) then Added(Bounded(s, GetVar(e.lhs).value, e.op, e.rhs.n, false), [])
      else Added(s, [e])
    else if e.Biop? && GetVar(e.rhs).Some? && e.lhs.ConstE? && IsCompare(e.op) then
      assert ConstsFit(e.lhs) && ConstsFit(e.rhs);
      Added(Bounded(s, GetVar(e.rhs).value, e.op, e.lhs.n, true), [])
    else Added(s, [e])
  }

  /** A leaf that is not of the supported shape is reported once and changes nothing; a supported one is never reported. */
  lemma LeafReported(s: ConstraintSet, e: CExpr)
    requires ConstsFit(e) && !(e.Biop? && e.op == OpLogAnd)
    ensures !SupportedLeaf(e) ==> AddConstraint(s, e) == Added(s, [e])
    ensures SupportedLeaf(e) ==> AddConstraint(s, e).unsupported == []
  {
  }

  lemma {:induction false} AddConstraintWellFormed(s: ConstraintSet, e: CExpr)
    requires WellFormed(s) && ConstsFit(e)
    ensures WellFormed(AddConstraint(s, e).result)
    decreases e
  {
    if e.Biop? && e.op == OpLogAnd {
      AddConstraintWellFormed(s, e.lhs);
      AddConstraintWellFormed(AddConstraint(s, e.lhs).result, e.rhs);
    } else if e.Biop? && GetVar(e.lhs).Some? {
      if e.rhs.ConstE? && IsCompare(e.op) {
        BoundedWellFormed(s, GetVar(e.lhs).value, e.op, e.rhs.n, false);
      }
    } else if e.Biop? && GetVar(e.rhs).Some? && e.lhs.ConstE? && IsCompare(e.op) {
      BoundedWellFormed(s, GetVar(e.rhs).value, e.op, e.lhs.n, true);
    }
  }

  lemma BoundedWellFormed(s: ConstraintSet, v: VarId, op: BinOp, c: Num, swapped: bool)
    requires WellFormed(s) && IsCompare(op) && Fits(c)
    ensures WellFormed(Bounded(s, v, op, c, swapped))
  {
    var lo := MinBound(c, IsEq(op) || IsInclusive(op));
    var hi := MaxBound(c, IsEq(op) || IsInclusive(op));
    if IsEq(op) {
      var s1 := AddMin(s, v, lo);
      assert WellFormed(s1);
      assert WellFormed(AddMax(s1, v, hi));
    } else if IsGt(op) != swapped {
      assert WellFormed(AddMin(s, v, lo));
    } else {
      assert WellFormed(AddMax(s, v, hi));
    }
  }

  // ----- Meaning of a set -----

  /** The valuation satisfies every bound of the set. */
  predicate SetHolds(s: ConstraintSet, val: Valuation) {
    (forall v :: v in s.mins ==> At(val, v) > s.mins[v].value) &&
    (forall v :: v in s.maxs ==> At(val, v) < s.maxs[v].value)
  }

  lemma AddMinHolds(s: ConstraintSet, v: VarId, b: Num, val: Valuation)
    ensures SetHolds(AddMin(s, v, b), val) <==> SetHolds(s, val) && At(val, v) > b.value
  {
    var r := AddMin(s, v, b);
    if SetHolds(r, val) {
      forall u | u in s.mins
        ensures At(val, u) > s.mins[u].value
      {
        if u != v {
          assert r.mins[u] == s.mins[u];
        } else {
          assert r.mins[v].value >= s.mins[v].value;
        }
      }
    }
  }

  lemma AddMaxHolds(s: ConstraintSet, v: VarId, b: Num, val: Valuation)
    ensures SetHolds(AddMax(s, v, b), val) <==> SetHolds(s, val) && At(val, v) < b.value
  {
    var r := AddMax(s, v, b);
    if SetHolds(r, val) {
      forall u | u in s.maxs
        ensures At(val, u) < s.maxs[u].value
      {
        if u != v {
          assert r.maxs[u] == s.maxs[u];
        } else {
          assert r.maxs[v].value <= s.maxs[v].value;
        }
      }
    }
  }

  /** The constant of a supported leaf. */
  function LeafConst(e: CExpr): Num
    requires SupportedLeaf(e)
  {
    if GetVar(e.lhs).Some? then e.rhs.n else e.lhs.n
  }

  /** The variable of a supported leaf. */
  function LeafVar(e: CExpr): VarId
    requires SupportedLeaf(e)
  {
    if GetVar(e.lhs).Some? then GetVar(e.lhs).value else GetVar(e.rhs).value
  }

  /**
   * The inclusive bound of the leaf does not wrap: c - 1 is taken only for
   * c >= 1 and c + 1 only below 2^width.
   */
  predicate NoWrap(e: CExpr)
    requires SupportedLeaf(e)
  {
    var c := LeafConst(e);
    var lower := IsGt(e.op) != GetVar(e.lhs).None?;
    (IsEq(e.op) ==> 1 <= c.value && c.value + 1 < Pow2(c.width)) &&
    (IsInclusive(e.op) && lower ==> 1 <= c.value) &&
    (IsInclusive(e.op) && !lower ==> c.value + 1 < Pow2(c.width))
  }

  /** For a signed comparison, both operands read the same signed as unsigned (the pass compares unsigned). */
  predicate SignSafe(e: CExpr, val: Valuation, widths: map<VarId, nat>)
    requires e.Biop?
  {
    IsSigned(e.op) ==>
      Signed(e.lhs, val, widths) == Unsigned(e.lhs, val) && Signed(e.rhs, val, widths) == Unsigned(e.rhs, val)
  }

  /**
   * The bounds are exclusive and exact: adding a supported leaf whose
   * inclusive bound does not wrap strengthens the set by exactly that leaf.
   */
  lemma LeafExact(s: ConstraintSet, e: CExpr, val: Valuation, widths: map<VarId, nat>)
    requires ConstsFit(e) && SupportedLeaf(e) && NoWrap(e) && SignSafe(e, val, widths)
    ensures SetHolds(AddConstraint(s, e).result, val) <==> SetHolds(s, val) && CompareHolds(e.op, e.lhs, e.rhs, val, widths)
  {
    var c := LeafConst(e);
    var v := LeafVar(e);
    var swapped := GetVar(e.lhs).None?;
    assert AddConstraint(s, e).result == Bounded(s, v, e.op, c, swapped);
    var x := At(val, v);
    assert swapped ==> Unsigned(e.rhs, val) == x && Unsigned(e.lhs, val) == c.value;
    assert !swapped ==> Unsigned(e.lhs, val) == x && Unsigned(e.rhs, val) == c.value;
    if IsEq(e.op) {
      var s1 := AddMin(s, v, MinBound(c, true));
      AddMinHolds(s, v, MinBound(c, true), val);
      AddMaxHolds(s1, v, MaxBound(c, true), val);
    } else if IsGt(e.op) != swapped {
      AddMinHolds(s, v, MinBound(c, IsInclusive(e.op)), val);
    } else {
      AddMaxHolds(s, v, MaxBound(c, IsInclusive(e.op)), val);
    }
  }

  /** Constraints built with && over leaves, as ConstraintSet::addConstraint walks them. */
  predicate Conjunctive(e: CExpr) {
    if e.Biop? && e.op == OpLogAnd then Conjunctive(e.lhs) && Conjunctive(e.rhs)
    else !(e.Biop? && (e.op == OpAnd || e.op == OpOr || e.op == OpLogOr))
  }

  /** Every supported leaf of a conjunction has a non-wrapping bound and is sign-safe. */
  predicate ExactLeaves(e: CExpr, val: Valuation, widths: map<VarId, nat>) {
    if e.Biop? && e.op == OpLogAnd then ExactLeaves(e.lhs, val, widths) && ExactLeaves(e.rhs, val, widths)
    else SupportedLeaf(e) ==> NoWrap(e) && SignSafe(e, val, widths)
  }

  /**
   * Folding a conjunction into a set is exact: the new set holds iff the
   * old one and the constraint both do (an unsupported leaf is dropped).
   */
  lemma {:induction false} AddConstraintExact(s: ConstraintSet, e: CExpr, val: Valuation, widths: map<VarId, nat>)
    requires ConstsFit(e) && Conjunctive(e) && ExactLeaves(e, val, widths)
    ensures SetHolds(AddConstraint(s, e).result, val) <==> SetHolds(s, val) && Holds(e, val, widths)
    decreases e
  {
    if e.Biop? && e.op == OpLogAnd {
      AddConstraintExact(s, e.lhs, val, widths);
      AddConstraintExact(AddConstraint(s, e.lhs).result, e.rhs, val, widths);
    } else if SupportedLeaf(e) {
      LeafExact(s, e, val, widths);
    } else {
      LeafReported(s, e);
    }
  }

  // ----- Tightening -----

  /** A run of lower bounds for one variable, stored in order. */
  function AddMins(s: ConstraintSet, v: VarId, bs: seq<Num>): ConstraintSet
    decreases |bs|
  {
    if bs == [] then s else AddMins(AddMin(s, v, bs[0]), v, bs[1..])
  }

  /** A run of upper bounds for one variable, stored in order. */
  function AddMaxs(s: ConstraintSet, v: VarId, bs: seq<Num>): ConstraintSet
    decreases |bs|
  {
    if bs == [] then s else AddMaxs(AddMax(s, v, bs[0]), v, bs[1..])
  }

  /** The stored lower bound is the maximum of all lower bounds seen, whatever their order. */
  lemma {:induction false} StoredMinIsMaximum(s: ConstraintSet, v: VarId, bs: seq<Num>)
    requires |bs| > 0 || v in s.mins
    ensures v in AddMins(s, v, bs).mins
    ensures var m := AddMins(s, v, bs).mins[v].value;
      (forall i :: 0 <= i < |bs| ==> m >= bs[i].value) &&
      (v in s.mins ==> m >= s.mins[v].value) &&
      ((exists i :: 0 <= i < |bs| && m == bs[i].value) || (v in s.mins && m == s.mins[v].value))
    decreases |bs|
  {
    if bs != [] {
      var s1 := AddMin(s, v, bs[0]);
      StoredMinIsMaximum(s1, v, bs[1..]);
      var m := AddMins(s, v, bs).mins[v].value;
      assert AddMins(s, v, bs) == AddMins(s1, v, bs[1..]);
      forall i | 0 <= i < |bs|
        ensures m >= bs[i].value
      {
        if i > 0 {
          assert bs[i] == bs[1..][i - 1];
        }
      }
      if exists i :: 0 <= i < |bs[1..]| && m == bs[1..][i].value {
        var i :| 0 <= i < |bs[1..]| && m == bs[1..][i].value;
        assert m == bs[i + 1].value;
      }
    }
  }

  /** The stored upper bound is the minimum of all upper bounds seen, whatever their order. */
  lemma {:induction false} StoredMaxIsMinimum(s: ConstraintSet, v: VarId, bs: seq<Num>)
    requires |bs| > 0 || v in s.maxs
    ensures v in AddMaxs(s, v, bs).maxs
    ensures var m := AddMaxs(s, v, bs).maxs[v].value;
      (forall i :: 0 <= i < |bs| ==> m <= bs[i].value) &&
      (v in s.maxs ==> m <= s.maxs[v].value) &&
      ((exists i :: 0 <= i < |bs| && m == bs[i].value) || (v in s.maxs && m == s.maxs[v].value))
    decreases |bs|
  {
    if bs != [] {
      var s1 := AddMax(s, v, bs[0]);
      StoredMaxIsMinimum(s1, v, bs[1..]);
      var m := AddMaxs(s, v, bs).maxs[v].value;
      assert AddMaxs(s, v, bs) == AddMaxs(s1, v, bs[1..]);
      forall i | 0 <= i < |bs|
        ensures m <= bs[i].value
      {
        if i > 0 {
          assert bs[i] == bs[1..][i - 1];
        }
      }
      if exists i :: 0 <= i < |bs[1..]| && m == bs[1..][i].value {
        var i :| 0 <= i < |bs[1..]| && m == bs[1..][i].value;
        assert m == bs[i + 1].value;
      }
    }
  }

  /** Tightening is order-independent: any rearrangement of the bounds stores the same values. */
  lemma TighteningOrderFree(v: VarId, bs1: seq<Num>, bs2: seq<Num>)
    requires |bs1| > 0 && multiset(bs1) == multiset(bs2)
    ensures v in AddMins(EmptySet, v, bs1).mins && v in AddMins(EmptySet, v, bs2).mins
    ensures v in AddMaxs(EmptySet, v, bs1).maxs && v in AddMaxs(EmptySet, v, bs2).maxs
    ensures AddMins(EmptySet, v, bs1).mins[v].value == AddMins(EmptySet, v, bs2).mins[v].value
    ensures AddMaxs(EmptySet, v, bs1).maxs[v].value == AddMaxs(EmptySet, v, bs2).maxs[v].value
  {
    assert |bs2| == |multiset(bs2)| == |bs1|;
    assert forall b :: b in bs1 <==> b in bs2 by {
      forall b
        ensures b in bs1 <==> b in bs2
      {
        assert b in bs1 <==> b in multiset(bs1);
        assert b in bs2 <==> b in multiset(bs2);
      }
    }
    StoredMinIsMaximum(EmptySet, v, bs1);
    StoredMinIsMaximum(EmptySet, v, bs2);
    StoredMaxIsMinimum(EmptySet, v, bs1);
    StoredMaxIsMinimum(EmptySet, v, bs2);
    var a := AddMins(EmptySet, v, bs1).mins[v].value;
    var b := AddMins(EmptySet, v, bs2).mins[v].value;
    var i :| 0 <= i < |bs1| && a == bs1[i].value;
    var j :| 0 <= j < |bs2| && b == bs2[j].value;
    assert bs1[i] in bs2;
    assert bs2[j] in bs1;
    var p := AddMaxs(EmptySet, v, bs1).maxs[v].value;
    var q := AddMaxs(EmptySet, v, bs2).maxs[v].value;
    var k :| 0 <= k < |bs1| && p == bs1[k].value;
    var l :| 0 <= l < |bs2| && q == bs2[l].value;
    assert bs1[k] in bs2;
    assert bs2[l] in bs1;
  }
}
