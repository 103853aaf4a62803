/**
 * Constraint expressions as they reach the randomize pass (the conditions of
 * `constraint` blocks and of `randomize() with { ... }`), and what they mean.
 *
 * A leaf the pass understands compares one variable with one constant. The
 * variable operand may be a variable reference, a zero-extension of a
 * variable reference, or a member selection; getVarp returns the variable
 * in each case. An AstExtend over anything but a variable reference makes
 * getVarp crash, so the model has no such node.
 */
module ConstraintExpr {
  import opened Wrappers
  import opened Bits
  import opened GenAst

  /** The binary node kinds that matter to constraint handling; OpOther is every other binary node. */
  datatype BinOp =
    | OpAnd | OpLogAnd | OpOr | OpLogOr
    | OpEq | OpEqWild
    | OpGt | OpGtS | OpGte | OpGteS
    | OpLt | OpLtS | OpLte | OpLteS
    | OpOther

  datatype CExpr =
    | Biop(op: BinOp, lhs: CExpr, rhs: CExpr)
    | VarRefE(v: VarId)
      /** An AstExtend whose operand is a reference to `v`. */
    | ExtendVar(v: VarId)
    | MemberSelE(from: CExpr, v: VarId)
    | ConstE(n: Num)
    | OtherE

  /** getVarp: the variable an operand refers to, if it is a reference, an extension of one, or a member selection. */
  function GetVar(e: CExpr): (r: Option<VarId>)
    ensures r.Some? <==> (e.VarRefE? || e.ExtendVar? || e.MemberSelE?)
  {
    match e
    case VarRefE(v) => Some(v)
    case ExtendVar(v) => Some(v)
    case MemberSelE(_, v) => Some(v)
    case _ => None
  }

  predicate IsEq(op: BinOp) { op == OpEq || op == OpEqWild }
  predicate IsGt(op: BinOp) { op == OpGt || op == OpGtS || op == OpGte || op == OpGteS }
  predicate IsLt(op: BinOp) { op == OpLt || op == OpLtS || op == OpLte || op == OpLteS }
  /** The comparison includes equality (the "orEqual" flag of the bound). */
  predicate IsInclusive(op: BinOp) { op == OpGte || op == OpGteS || op == OpLte || op == OpLteS }
  predicate IsSigned(op: BinOp) { op == OpGtS || op == OpGteS || op == OpLtS || op == OpLteS }
  predicate IsCompare(op: BinOp) { IsEq(op) || IsGt(op) || IsLt(op) }

  /** A value assignment to variables; an unlisted variable is 0. */
  type Valuation = map<VarId, nat>

  function At(val: Valuation, v: VarId): nat {
    if v in val then val[v] else 0
  }

  function WidthOf(widths: map<VarId, nat>, v: VarId): nat {
    if v in widths then widths[v] else 0
  }

  /** Every constant is a bit pattern of its width (the V3Number invariant). */
  predicate ConstsFit(e: CExpr) {
    match e
    case Biop(_, l, r) => ConstsFit(l) && ConstsFit(r)
    case MemberSelE(f, _) => ConstsFit(f)
    case ConstE(n) => Fits(n)
    case _ => true
  }

  /** An operand's unsigned value: a variable's value (zero-extension keeps it) or a constant's. */
  function Unsigned(e: CExpr, val: Valuation): nat {
    match e
    case ConstE(n) => n.value
    case _ => if GetVar(e).Some? then At(val, GetVar(e).value) else 0
  }

  /** An operand's two's-complement value for the signed comparisons. */
  function Signed(e: CExpr, val: Valuation, widths: map<VarId, nat>): int {
    match e
    case ConstE(n) => ToSigned(n.value, n.width)
    case ExtendVar(v) => At(val, v)
    case _ => if GetVar(e).Some? then ToSigned(At(val, GetVar(e).value), WidthOf(widths, GetVar(e).value)) else 0
  }

  /** The truth of a comparison leaf `l op r` (IEEE 1800-2017 section 11.4.4). */
  function CompareHolds(op: BinOp, l: CExpr, r: CExpr, val: Valuation, widths: map<VarId, nat>): bool
    requires IsCompare(op)
  {
    var a := Unsigned(l, val);
    var b := Unsigned(r, val);
    var sa := Signed(l, val, widths);
    var sb := Signed(r, val, widths);
    match op
    case OpEq => a == b
    case OpEqWild => a == b
    case OpGt => a > b
    case OpGte => a >= b
    case OpLt => a < b
    case OpLte => a <= b
    case OpGtS => sa > sb
    case OpGteS => sa >= sb
    case OpLtS => sa < sb
    case OpLteS => sa <= sb
  }

  /** A leaf of the shape the pass turns into bounds: a comparison of a variable operand with a constant, either way round. */
  predicate SupportedLeaf(e: CExpr) {
    e.Biop? && IsCompare(e.op) &&
    ((GetVar(e.lhs).Some? && e.rhs.ConstE?) || (GetVar(e.lhs).None? && GetVar(e.rhs).Some? && e.lhs.ConstE?))
  }

  /** The truth of a constraint built from and/or over supported leaves; any other leaf counts as true. */
  function Holds(e: CExpr, val: Valuation, widths: map<VarId, nat>): bool {
    match e
    case Biop(op, l, r) =>
      if op == OpAnd || op == OpLogAnd then Holds(l, val, widths) && Holds(r, val, widths)
      else if op == OpOr || op == OpLogOr then Holds(l, val, widths) || Holds(r, val, widths)
      else if SupportedLeaf(e) then CompareHolds(op, l, r, val, widths)
      else true
    case _ => true
  }
}
