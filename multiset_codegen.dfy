/**
 * The code emitted for a constraint multiset (ConstraintMultiset::
 * applyConstraints and ::generateCheck in src/V3Randomize.cpp): with two
 * or more sets, a 32-bit temporary takes a random value modulo the number
 * of sets and a case statement applies the set of that index; the check
 * is the `|` of the sets' checks.
 */
module MultisetCodegen {
  import opened Bits
  import opened GenAst
  import opened ConstraintExpr
  import opened ConstraintSets
  import opened SetCodegen

  /** The name of temporary number n. */
  function TempName(n: nat): string {
    "__Vtemp_randomize" + Decimal(n)
  }

  /** Temporaries with different numbers have different names. */
  lemma TempNameInjective(a: nat, b: nat)
    requires a != b
    ensures TempName(a) != TempName(b)
  {
    var p := "__Vtemp_randomize";
    DecimalInjective(a, b);
    assert (p + Decimal(a))[|p|..] == Decimal(a);
    assert (p + Decimal(b))[|p|..] == Decimal(b);
  }

  /** A 32-bit constant; the count is a size_t narrowed to 32 bits. */
  function Const32(n: nat): Expr {
    Const(Num(Trunc(n, 32), 32))
  }

  /** One case item per set, labelled by its index as a uint32_t; each applies its set. */
  function CaseItems(sets: seq<ConstraintSet>, from: From): seq<CaseItem>
    requires AllWellFormed(sets) && ValidFrom(from)
  {
    seq(|sets|, i requires 0 <= i < |sets| => CaseItem(Trunc(i, 32), ApplySet(sets[i], from)))
  }

  /** The statements, and the temporaries' counter after them. */
  datatype Applied = Applied(stmts: seq<Stmt>, varCnt: nat)

  /** ConstraintMultiset::applyConstraints: nothing, the single set, or a random choice among the sets. */
  function ApplyMulti(sets: seq<ConstraintSet>, from: From, varCnt: nat): Applied
    requires AllWellFormed(sets) && ValidFrom(from)
  {
    if |sets| == 0 then Applied([], varCnt)
    else if |sets| == 1 then Applied(ApplySet(sets[0], from), varCnt)
    else
      var t := LocalRef(TempName(varCnt));
      Applied([DeclTemp(TempName(varCnt)),
               Assign(Whole(t), ModDiv(Rand(32), Const32(|sets|))),
               Case(Load(t), CaseItems(sets, from))], varCnt + 1)
  }

  /** The checks of the first `n` sets joined by `|`, first to last. */
  function OrChecks(sets: seq<ConstraintSet>, from: From, n: nat): Expr
    requires ValidFrom(from) && 1 <= n <= |sets|
  {
    if n == 1 then GenerateCheck(sets[0], from)
    else Or(OrChecks(sets, from, n - 1), GenerateCheck(sets[n - 1], from))
  }

  /** ConstraintMultiset::generateCheck: the constant 1 when there are no sets. */
  function CheckMulti(sets: seq<ConstraintSet>, from: From): Expr
    requires ValidFrom(from)
  {
    if sets == [] then One else OrChecks(sets, from, |sets|)
  }

  // ----- The emitting loops -----

  /** The loop of ConstraintMultiset::applyConstraints that builds one case item per set. */
  method BuildCases(sets: seq<ConstraintSet>, from: From) returns (items: seq<CaseItem>)
    requires AllWellFormed(sets) && ValidFrom(from)
    ensures items == CaseItems(sets, from)
  {
    items := [];
    var i := 0;
    while i < |sets|
      invariant 0 <= i <= |sets|
      invariant items == CaseItems(sets[..i], from)
    {
      var body := ApplyConstraints(sets[i], from);
      CaseItemsSnoc(sets, from, i);
      items := items + [CaseItem(Trunc(i, 32), body)];
      i := i + 1;
    }
    assert sets[..i] == sets;
  }

  lemma CaseItemsSnoc(sets: seq<ConstraintSet>, from: From, i: nat)
    requires AllWellFormed(sets) && ValidFrom(from) && i < |sets|
    ensures AllWellFormed(sets[..i]) && AllWellFormed(sets[..i + 1])
    ensures CaseItems(sets[..i + 1], from) == CaseItems(sets[..i], from) + [CaseItem(Trunc(i, 32), ApplySet(sets[i], from))]
  {
    var a := CaseItems(sets[..i + 1], from);
    var b := CaseItems(sets[..i], from) + [CaseItem(Trunc(i, 32), ApplySet(sets[i], from))];
    assert |a| == |b|;
    forall j | 0 <= j < |a|
      ensures a[j] == b[j]
    {
      if j < i {
        assert sets[..i + 1][j] == sets[..i][j];
      } else {
        assert sets[..i + 1][j] == sets[i];
      }
    }
  }

  /** The loop of ConstraintMultiset::generateCheck over a nonempty multiset. */
  method BuildOrChecks(sets: seq<ConstraintSet>, from: From) returns (e: Expr)
    requires ValidFrom(from) && |sets| >= 1
    ensures e == OrChecks(sets, from, |sets|)
  {
    e := BuildCheck(sets[0], from);
    var i := 1;
    while i < |sets|
      invariant 1 <= i <= |sets|
      invariant e == OrChecks(sets, from, i)
    {
      var c := BuildCheck(sets[i], from);
      e := Or(e, c);
      i := i + 1;
    }
  }

  // ----- Meaning of the check -----

  /** Some set has all of its variables inside its bounds. */
  ghost predicate SomeInBounds(sets: seq<ConstraintSet>, from: From, env: map<Ref, nat>)
    requires ValidFrom(from)
  {
    exists i :: 0 <= i < |sets| && AllInBounds(sets[i], from, env)
  }

  lemma BitOrBits(a: nat, b: nat)
    requires a <= 1 && b <= 1
    ensures BitOr(a, b) == (if a == 1 || b == 1 then 1 else 0)
  {
    if a == 1 && b == 1 {
      assert BitOr(1, 1) == 2 * BitOr(0, 0) + 1;
    }
  }

  /** A set's check is 1 exactly when the set's variables are inside its bounds. */
  lemma SetCheckMeaning(s: ConstraintSet, from: From, env: map<Ref, nat>, ctx: Ctx, d: nat, w: nat)
    requires ValidFrom(from)
    ensures Eval(GenerateCheck(s, from), env, ctx, d, w) == if AllInBounds(s, from, env) then 1 else 0
  {
    GenerateCheckMeaning(s, from, env, ctx, d, w);
    SetHoldsOfEnv(s, from, env);
  }

  /** `x | y` of two truth values is their disjunction. */
  lemma OrMeaning(x: Expr, y: Expr, env: map<Ref, nat>, ctx: Ctx, d: nat, w: nat, p: bool, q: bool)
    requires Eval(x, env, ctx, d, w) == (if p then 1 else 0)
    requires Eval(y, env, ctx, d, w) == (if q then 1 else 0)
    ensures Eval(Or(x, y), env, ctx, d, w) == if p || q then 1 else 0
  {
    BitOrBits(Eval(x, env, ctx, d, w), Eval(y, env, ctx, d, w));
  }

  /** One of the first `n` sets has all of its variables inside its bounds. */
  ghost predicate SomeBelow(sets: seq<ConstraintSet>, from: From, env: map<Ref, nat>, n: nat)
    requires ValidFrom(from) && n <= |sets|
  {
    exists i :: 0 <= i < n && AllInBounds(sets[i], from, env)
  }

  lemma SomeBelowStep(sets: seq<ConstraintSet>, from: From, env: map<Ref, nat>, n: nat)
    requires ValidFrom(from) && 1 <= n <= |sets|
    ensures SomeBelow(sets, from, env, n) == (SomeBelow(sets, from, env, n - 1) || AllInBounds(sets[n - 1], from, env))
  {
    if SomeBelow(sets, from, env, n) {
      var i :| 0 <= i < n && AllInBounds(sets[i], from, env);
      if i < n - 1 {
        assert SomeBelow(sets, from, env, n - 1);
      }
    }
    if AllInBounds(sets[n - 1], from, env) {
      assert 0 <= n - 1 < n;
    }
  }

  /** The `|` of the first `n` checks is 1 exactly when one of those sets holds. */
  lemma {:induction false} OrChecksMeaning(sets: seq<ConstraintSet>, from: From, n: nat,
                                           env: map<Ref, nat>, ctx: Ctx, d: nat, w: nat)
    requires ValidFrom(from) && 1 <= n <= |sets|
    ensures Eval(OrChecks(sets, from, n), env, ctx, d, w) == if SomeBelow(sets, from, env, n) then 1 else 0
  {
    var last := GenerateCheck(sets[n - 1], from);
    SetCheckMeaning(sets[n - 1], from, env, ctx, d, w);
    SomeBelowStep(sets, from, env, n);
    if n > 1 {
      OrChecksMeaning(sets, from, n - 1, env, ctx, d, w);
      assert OrChecks(sets, from, n) == Or(OrChecks(sets, from, n - 1), last);
      OrMeaning(OrChecks(sets, from, n - 1), last, env, ctx, d, w,
                SomeBelow(sets, from, env, n - 1), AllInBounds(sets[n - 1], from, env));
    }
  }

  /** The multiset's check is 1 exactly when there are no sets or some set holds, and 0 otherwise. */
  lemma CheckMultiMeaning(sets: seq<ConstraintSet>, from: From, env: map<Ref, nat>, ctx: Ctx, d: nat, w: nat)
    requires ValidFrom(from)
    ensures Eval(CheckMulti(sets, from), env, ctx, d, w) == if sets == [] || SomeInBounds(sets, from, env) then 1 else 0
  {
    if sets != [] {
      OrChecksMeaning(sets, from, |sets|, env, ctx, d, w);
      assert SomeBelow(sets, from, env, |sets|) == SomeInBounds(sets, from, env);
    }
  }

  // ----- Meaning of the choice -----

  /** The index of the set the random draw selects. */
  function Chosen(n: nat, st: State): nat
    requires n >= 1
  {
    Trunc(NextDraw(st), 32) % n
  }

  /** The state in which the chosen set is applied: the temporary holds the index, one draw is used. */
  function AfterChoice(st: State, name: string, k: nat): State {
    State(st.env[LocalRef(name) := 0][LocalRef(name) := k], RestDraws(st))
  }

  /** The case statement reaches the item whose label is the chosen index. */
  lemma FirstMatchIsIndex(items: seq<CaseItem>, k: nat)
    requires k < |items| < Pow2(32)
    requires forall i :: 0 <= i < |items| ==> items[i].value == Trunc(i, 32)
    ensures FirstMatch(items, k) == k
  {
    assert items[k].value == k;
  }

  /**
   * The choice as emitted: declaring the temporary, drawing into it modulo
   * the number of items, and casing on it runs the item whose index is the
   * 32-bit draw modulo that number (for fewer than 2^32 items, labelled by index).
   */
  lemma ChoiceRuns(items: seq<CaseItem>, name: string, st: State, ctx: Ctx)
    requires 2 <= |items| < Pow2(32)
    requires forall i :: 0 <= i < |items| ==> items[i].value == Trunc(i, 32)
    ensures var t := LocalRef(name); var k := Chosen(|items|, st);
      Exec([DeclTemp(name), Assign(Whole(t), ModDiv(Rand(32), Const32(|items|))), Case(Load(t), items)], st, ctx) ==
        Exec(items[k].body, AfterChoice(st, name, k), ctx)
  {
    var n := |items|;
    var t := LocalRef(name);
    var k := Chosen(n, st);
    var a := Assign(Whole(t), ModDiv(Rand(32), Const32(n)));
    var c := Case(Load(t), items);
    var st1 := State(st.env[t := 0], st.draws);
    var st2 := AfterChoice(st, name, k);
    assert Trunc(n, 32) == n;
    DrawStep(t, n, st1, ctx);
    assert Step(a, st1, ctx) == st2;
    FirstMatchIsIndex(items, k);
    ExecThree(DeclTemp(name), a, c, st, ctx);
  }

  /** Drawing into the temporary modulo n stores the 32-bit draw modulo n. */
  lemma DrawStep(t: Ref, n: nat, st: State, ctx: Ctx)
    requires t.LocalRef? && 1 <= n < Pow2(32)
    ensures Step(Assign(Whole(t), ModDiv(Rand(32), Const32(n))), st, ctx) ==
      State(st.env[t := Trunc(NextDraw(st), 32) % n], RestDraws(st))
  {
    var d := NextDraw(st);
    var e := ModDiv(Rand(32), Const32(n));
    var x := Trunc(d, 32);
    assert Trunc(n, 32) == n;
    assert SelfWidth(e, ctx) == 32 && RefWidth(t, ctx) == 32;
    assert Eval(Rand(32), st.env, ctx, d, 32) == x;
    assert Eval(Const32(n), st.env, ctx, d, 32) == n;
    assert Eval(e, st.env, ctx, d, 32) == x % n;
    assert AssignedValue(t, e, st.env, ctx, d) == x % n;
  }

  lemma ExecThree(a: Stmt, b: Stmt, c: Stmt, st: State, ctx: Ctx)
    ensures Exec([a, b, c], st, ctx) == Step(c, Step(b, Step(a, st, ctx), ctx), ctx)
  {
    assert [a, b, c] == [a] + [b, c];
    ExecAppend([a], [b, c], st, ctx);
    ExecOne(a, st, ctx);
    ExecTwo(b, c, Step(a, st, ctx), ctx);
  }

  /**
   * With two or more sets (fewer than 2^32), the emitted code applies exactly
   * the set whose index is the 32-bit draw modulo the number of sets.
   */
  lemma ApplyMultiChooses(sets: seq<ConstraintSet>, from: From, varCnt: nat, st: State, ctx: Ctx)
    requires AllWellFormed(sets) && ValidFrom(from) && 2 <= |sets| < Pow2(32)
    ensures var k := Chosen(|sets|, st);
      Exec(ApplyMulti(sets, from, varCnt).stmts, st, ctx) ==
        Exec(ApplySet(sets[k], from), AfterChoice(st, TempName(varCnt), k), ctx)
  {
    var items := CaseItems(sets, from);
    ChoiceRuns(items, TempName(varCnt), st, ctx);
  }

  /** Every variable of every set starts where applying its set lands inside the bounds. */
  ghost predicate AllApplyInRange(sets: seq<ConstraintSet>, from: From, env: map<Ref, nat>, ctx: Ctx)
    requires AllWellFormed(sets) && ValidFrom(from)
  {
    forall i, v :: 0 <= i < |sets| && Bounds(sets[i], v) ==>
      ApplyInRange(sets[i], v, Val(env, CreateRef(v, from)), WidthOf(ctx.widths, v))
  }

  /**
   * Applying the multiset lands the chosen set's variables inside its
   * bounds, when every variable starts within ApplyInRange and there are
   * fewer than 2^32 sets.
   */
  lemma ApplyMultiInBounds(sets: seq<ConstraintSet>, from: From, varCnt: nat, st: State, ctx: Ctx)
    requires AllWellFormed(sets) && ValidFrom(from) && 1 <= |sets| < Pow2(32)
    requires AllApplyInRange(sets, from, st.env, ctx)
    ensures AllInBounds(sets[Chosen(|sets|, st)], from, Exec(ApplyMulti(sets, from, varCnt).stmts, st, ctx).env)
  {
    if |sets| == 1 {
      assert Chosen(|sets|, st) == 0;
      ApplySetInBounds(sets[0], from, st, ctx);
    } else {
      ManyInBounds(sets, from, varCnt, st, ctx);
    }
  }

  /** ApplyMultiInBounds when a temporary selects among two or more sets. */
  lemma ManyInBounds(sets: seq<ConstraintSet>, from: From, varCnt: nat, st: State, ctx: Ctx)
    requires AllWellFormed(sets) && ValidFrom(from) && 2 <= |sets| < Pow2(32)
    requires AllApplyInRange(sets, from, st.env, ctx)
    ensures AllInBounds(sets[Chosen(|sets|, st)], from, Exec(ApplyMulti(sets, from, varCnt).stmts, st, ctx).env)
  {
    var k := Chosen(|sets|, st);
    var s := sets[k];
    var st2 := AfterChoice(st, TempName(varCnt), k);
    ApplyMultiChooses(sets, from, varCnt, st, ctx);
    forall v | Bounds(s, v)
      ensures ApplyInRange(s, v, Val(st2.env, CreateRef(v, from)), WidthOf(ctx.widths, v))
    {
      assert Val(st2.env, CreateRef(v, from)) == Val(st.env, CreateRef(v, from));
    }
    ApplySetInBounds(s, from, st2, ctx);
  }

  /**
   * The generated randomize() returns 1: after applying the multiset, its
   * check evaluates to 1 (with no sets, nothing is applied and the check is 1).
   */
  lemma ApplyMultiThenCheck(sets: seq<ConstraintSet>, from: From, varCnt: nat, st: State, ctx: Ctx, d: nat, w: nat)
    requires AllWellFormed(sets) && ValidFrom(from) && |sets| < Pow2(32)
    requires AllApplyInRange(sets, from, st.env, ctx)
    ensures Eval(CheckMulti(sets, from), Exec(ApplyMulti(sets, from, varCnt).stmts, st, ctx).env, ctx, d, w) == 1
  {
    var env' := Exec(ApplyMulti(sets, from, varCnt).stmts, st, ctx).env;
    CheckMultiMeaning(sets, from, env', ctx, d, w);
    if sets != [] {
      ApplyMultiInBounds(sets, from, varCnt, st, ctx);
      assert AllInBounds(sets[Chosen(|sets|, st)], from, env');
    }
  }
}
