/**
 * The statements and expressions that the randomize passes emit, and a small
 * evaluator for them.
 *
 * Only the node kinds the passes create are modelled: variable and member
 * references, constants, `$random`-style draws, modulus (unsigned and
 * signed), add, subtract, the two comparisons, bitwise and/or, enum table
 * lookups, `std::randomize` and member `randomize()` calls; assignments
 * (whole variable or a bit slice), function-local temporaries and `case`.
 *
 * Evaluation follows the sizing rules of IEEE 1800-2017 section 11.6: the
 * operands of an assignment's right-hand side are sized to the larger of the
 * target width and the operands' own widths; the comparison operators size
 * their operands to their own larger width and yield one bit; the result is
 * truncated to the target width on assignment. Division and modulus by zero
 * give 0, as Verilator's runtime does. Each executed assignment consumes one
 * raw random draw from the state; a draw is an arbitrary input.
 */
module GenAst {
  import opened Bits

  /** A variable declaration (an AstVar), identified by a number. */
  type VarId = nat

  /** A reference as emitted: a variable, a member selected from a reference, or a function-local name. */
  datatype Ref = VarRef(v: VarId) | MemberSel(from: Ref, v: VarId) | LocalRef(name: string)

  /** What class members are reached through (createRef's `fromp`): nothing, an existing reference, or a variable. */
  datatype From = NoFrom | FromRef(r: Ref) | FromVar(obj: VarId)

  /** createRef accepts only a variable reference or a member selection as an existing reference. */
  predicate ValidFrom(from: From) {
    from.FromRef? ==> !from.r.LocalRef?
  }

  /** createRef: a plain reference when there is no object, else a member selection of `v` from the object. */
  function CreateRef(v: VarId, from: From): (r: Ref)
    requires ValidFrom(from)
    ensures !r.LocalRef? && r.v == v
    ensures r.VarRef? <==> from.NoFrom?
    ensures from.FromRef? ==> r.from == from.r
    ensures from.FromVar? ==> r.from == VarRef(from.obj)
  {
    match from
    case NoFrom => VarRef(v)
    case FromRef(f) => MemberSel(f, v)
    case FromVar(o) => MemberSel(VarRef(o), v)
  }

  /** References to different variables through the same object never coincide. */
  lemma CreateRefInjective(a: VarId, b: VarId, from: From)
    requires ValidFrom(from) && a != b
    ensures CreateRef(a, from) != CreateRef(b, from)
  {
    assert CreateRef(a, from).v == a && CreateRef(b, from).v == b;
  }

  datatype Expr =
    | Const(n: Num)
    | Load(r: Ref)
    | Rand(width: nat)
    | ModDiv(a: Expr, b: Expr)
    | ModDivS(a: Expr, b: Expr)
    | Add(a: Expr, b: Expr)
    | Sub(a: Expr, b: Expr)
    | Gt(a: Expr, b: Expr)
    | Lt(a: Expr, b: Expr)
    | And(a: Expr, b: Expr)
    | Or(a: Expr, b: Expr)
      /** `table[index]` into a constant enum value table whose elements are `width` bits wide. */
    | TableSel(table: string, width: nat, index: Expr)
    | StdRandomize(r: Ref)
    | RandomizeCall(r: Ref)

  /** An assignment target: the whole reference or `width` bits of it starting at bit `lsb`. */
  datatype LValue = Whole(r: Ref) | Slice(r: Ref, lsb: nat, width: nat)

  datatype Stmt =
    | Assign(lhs: LValue, rhs: Expr)
      /** A function-local temporary, 32 bits wide. */
    | DeclTemp(name: string)
    | Case(sel: Expr, items: seq<CaseItem>)

  datatype CaseItem = CaseItem(value: nat, body: seq<Stmt>)

  /**
   * A function as emitted: its name (also the name of its return variable),
   * the width and signedness of the return value, and its flags.
   */
  datatype Func = Func(name: string, retWidth: nat, signed: bool, isVirtual: bool,
                       classMethod: bool, body: seq<Stmt>)

  /** What evaluation needs to know about declarations: variable widths and enum table contents. */
  datatype Ctx = Ctx(widths: map<VarId, nat>, tables: map<string, seq<nat>>)

  datatype State = State(env: map<Ref, nat>, draws: seq<nat>)

  /** The return variable of a function. */
  function RetRef(f: Func): Ref {
    LocalRef(f.name)
  }

  function RefWidth(r: Ref, ctx: Ctx): nat {
    match r
    case LocalRef(_) => 32
    case _ => if r.v in ctx.widths then ctx.widths[r.v] else 0
  }

  function Max(a: nat, b: nat): nat {
    if a >= b then a else b
  }

  /** The self-determined width of an expression (IEEE 1800-2017 table 11-21). */
  function SelfWidth(e: Expr, ctx: Ctx): nat {
    match e
    case Const(n) => n.width
    case Load(r) => RefWidth(r, ctx)
    case Rand(w) => w
    case ModDiv(a, b) => Max(SelfWidth(a, ctx), SelfWidth(b, ctx))
    case ModDivS(a, b) => Max(SelfWidth(a, ctx), SelfWidth(b, ctx))
    case Add(a, b) => Max(SelfWidth(a, ctx), SelfWidth(b, ctx))
    case Sub(a, b) => Max(SelfWidth(a, ctx), SelfWidth(b, ctx))
    case Gt(_, _) => 1
    case Lt(_, _) => 1
    case And(a, b) => Max(SelfWidth(a, ctx), SelfWidth(b, ctx))
    case Or(a, b) => Max(SelfWidth(a, ctx), SelfWidth(b, ctx))
    case TableSel(_, w, _) => w
    case StdRandomize(_) => 32
    case RandomizeCall(_) => 32
  }

  /** Reduction modulo 2^w, the truncation to a w-bit pattern. */
  function Trunc(x: int, w: nat): (r: nat)
    ensures r < Pow2(w)
    ensures 0 <= x < Pow2(w) ==> r == x
    ensures Pow2(w) <= x < 2 * Pow2(w) ==> r == x - Pow2(w)
    ensures x < 0 && 0 <= x + Pow2(w) ==> r == x + Pow2(w)
    ensures x >= 0 ==> r <= x
  {
    var p := Pow2(w);
    if 0 <= x < p then x
    else if p <= x < 2 * p then x - p
    else if x < 0 && 0 <= x + p then x + p
    else x % p
  }

  /** The value held by a reference; one never assigned reads as 0. */
  function Val(env: map<Ref, nat>, r: Ref): nat {
    if r in env then env[r] else 0
  }

  /** The value of `e` when its context width is `w`; `draw` is the raw random value of the enclosing statement. */
  function Eval(e: Expr, env: map<Ref, nat>, ctx: Ctx, draw: nat, w: nat): nat
    decreases e
  {
    match e
    case Const(n) => n.value
    case Load(r) => Val(env, r)
    case Rand(rw) => Trunc(draw, rw)
    case ModDiv(a, b) =>
      var x := Eval(a, env, ctx, draw, w);
      var y := Eval(b, env, ctx, draw, w);
      if y == 0 then 0 else x % y
    case ModDivS(a, b) =>
      var x := ToSigned(Eval(a, env, ctx, draw, w), w);
      var y := ToSigned(Eval(b, env, ctx, draw, w), w);
      if y == 0 then 0 else Trunc(TruncRem(x, y), w)
    case Add(a, b) => Trunc(Eval(a, env, ctx, draw, w) + Eval(b, env, ctx, draw, w), w)
    case Sub(a, b) => Trunc(Eval(a, env, ctx, draw, w) - Eval(b, env, ctx, draw, w), w)
    case Gt(a, b) =>
      var cw := Max(SelfWidth(a, ctx), SelfWidth(b, ctx));
      if Eval(a, env, ctx, draw, cw) > Eval(b, env, ctx, draw, cw) then 1 else 0
    case Lt(a, b) =>
      var cw := Max(SelfWidth(a, ctx), SelfWidth(b, ctx));
      if Eval(a, env, ctx, draw, cw) < Eval(b, env, ctx, draw, cw) then 1 else 0
    case And(a, b) => BitAnd(Eval(a, env, ctx, draw, w), Eval(b, env, ctx, draw, w))
    case Or(a, b) => BitOr(Eval(a, env, ctx, draw, w), Eval(b, env, ctx, draw, w))
    case TableSel(t, _, i) =>
      var k := Eval(i, env, ctx, draw, SelfWidth(i, ctx));
      if t in ctx.tables && k < |ctx.tables[t]| then ctx.tables[t][k] else 0
    case StdRandomize(_) => Trunc(draw, 32)
    case RandomizeCall(_) => Trunc(draw, 32)
  }

  /** `prev` with the `width` bits from `lsb` replaced by the low bits of `v`. */
  function SetBits(prev: nat, lsb: nat, width: nat, v: nat): nat
    decreases lsb
  {
    if lsb == 0 then SetLow(prev, width, v)
    else 2 * SetBits(prev / 2, lsb - 1, width, v) + prev % 2
  }

  /** `prev` with its low `width` bits replaced by those of `v`. */
  function SetLow(prev: nat, width: nat, v: nat): nat
    decreases width
  {
    if width == 0 then prev
    else 2 * SetLow(prev / 2, width - 1, v / 2) + v % 2
  }

  /** Value of an expression assigned to `r`: evaluated at the IEEE context width, then truncated to r. */
  function AssignedValue(r: Ref, e: Expr, env: map<Ref, nat>, ctx: Ctx, draw: nat): (v: nat)
    ensures v < Pow2(RefWidth(r, ctx))
  {
    var tw := RefWidth(r, ctx);
    Trunc(Eval(e, env, ctx, draw, Max(tw, SelfWidth(e, ctx))), tw)
  }

  function NextDraw(st: State): nat {
    if st.draws == [] then 0 else st.draws[0]
  }

  function RestDraws(st: State): seq<nat> {
    if st.draws == [] then [] else st.draws[1..]
  }

  /** Executes one statement. */
  function Step(s: Stmt, st: State, ctx: Ctx): State
    decreases s
  {
    match s
    case Assign(Whole(r), e) =>
      State(st.env[r := AssignedValue(r, e, st.env, ctx, NextDraw(st))], RestDraws(st))
    case Assign(Slice(r, lsb, width), e) =>
      var prev := if r in st.env then st.env[r] else 0;
      var v := Trunc(Eval(e, st.env, ctx, NextDraw(st), Max(width, SelfWidth(e, ctx))), width);
      State(st.env[r := Trunc(SetBits(prev, lsb, width, v), RefWidth(r, ctx))], RestDraws(st))
    case DeclTemp(name) => State(st.env[LocalRef(name) := 0], st.draws)
    case Case(sel, items) =>
      var k := Eval(sel, st.env, ctx, 0, SelfWidth(sel, ctx));
      var i := FirstMatch(items, k);
      if i < |items| then Exec(items[i].body, st, ctx) else st
  }

  /** Index of the first case item whose value is `k`, or |items| when none is. */
  function FirstMatch(items: seq<CaseItem>, k: nat): (i: nat)
    ensures i <= |items|
    ensures i < |items| ==> items[i].value == k
    ensures forall j :: 0 <= j < i ==> items[j].value != k
  {
    if items == [] then 0
    else if items[0].value == k then 0
    else 1 + FirstMatch(items[1..], k)
  }

  /** Executes a statement list from first to last. */
  function Exec(ss: seq<Stmt>, st: State, ctx: Ctx): State
    decreases ss
  {
    if ss == [] then st else Exec(ss[1..], Step(ss[0], st, ctx), ctx)
  }

  /** Executing a concatenation runs the first part, then the second. */
  lemma {:induction false} ExecAppend(a: seq<Stmt>, b: seq<Stmt>, st: State, ctx: Ctx)
    ensures Exec(a + b, st, ctx) == Exec(b, Exec(a, st, ctx), ctx)
    decreases a
  {
    if a != [] {
      assert (a + b)[1..] == a[1..] + b;
      assert (a + b)[0] == a[0];
      ExecAppend(a[1..], b, Step(a[0], st, ctx), ctx);
    } else {
      assert a + b == b;
    }
  }

  /** The references a statement list may assign. */
  function Targets(ss: seq<Stmt>): set<Ref>
    decreases ss
  {
    if ss == [] then {} else StmtTargets(ss[0]) + Targets(ss[1..])
  }

  lemma {:induction false} TargetsAppend(a: seq<Stmt>, b: seq<Stmt>)
    ensures Targets(a + b) == Targets(a) + Targets(b)
    decreases a
  {
    if a == [] {
      assert a + b == b;
    } else {
      assert (a + b)[0] == a[0];
      assert (a + b)[1..] == a[1..] + b;
      TargetsAppend(a[1..], b);
    }
  }

  function StmtTargets(s: Stmt): set<Ref>
    decreases s
  {
    match s
    case Assign(lv, _) => {lv.r}
    case DeclTemp(name) => {LocalRef(name)}
    case Case(_, items) => ItemTargets(items)
  }

  function ItemTargets(items: seq<CaseItem>): set<Ref>
    decreases items
  {
    if items == [] then {} else Targets(items[0].body) + ItemTargets(items[1..])
  }

  lemma {:induction false} ItemTargetsContain(items: seq<CaseItem>, i: nat)
    requires i < |items|
    ensures Targets(items[i].body) <= ItemTargets(items)
    decreases items
  {
    if i > 0 {
      ItemTargetsContain(items[1..], i - 1);
    }
  }

  /** A statement list changes no reference outside its targets. */
  lemma {:induction false} ExecFrame(ss: seq<Stmt>, st: State, ctx: Ctx, r: Ref)
    requires r !in Targets(ss)
    ensures Val(Exec(ss, st, ctx).env, r) == Val(st.env, r)
    decreases ss
  {
    if ss != [] {
      StepFrame(ss[0], st, ctx, r);
      ExecFrame(ss[1..], Step(ss[0], st, ctx), ctx, r);
    }
  }

  lemma {:induction false} StepFrame(s: Stmt, st: State, ctx: Ctx, r: Ref)
    requires r !in StmtTargets(s)
    ensures Val(Step(s, st, ctx).env, r) == Val(st.env, r)
    decreases s
  {
    match s
    case Assign(_, _) =>
    case DeclTemp(_) =>
    case Case(sel, items) =>
      var k := Eval(sel, st.env, ctx, 0, SelfWidth(sel, ctx));
      var i := FirstMatch(items, k);
      if i < |items| {
        ItemTargetsContain(items, i);
        ExecFrame(items[i].body, st, ctx, r);
      }
  }
}
