/**
 * V3RandomizeMethod, the older randomize() pass.
 *
 * Its marking visitor is the one of RandomizeMark with `ancestors` false:
 * markMembers looks at the class's own members only. Its synthesis visitor
 * walks the netlist children first; at a class still marked it finds or
 * creates the class's `randomize()` (always virtual), appends
 * `randomize = 1` and then, for every rand member of the class and of each
 * ancestor (nearest first, members in declaration order), either
 * `randomize = randomize & std::randomize(m)` (basic type after typedefs)
 * or `randomize = randomize & m.randomize()` (class handle, whose class
 * gets its method declared on demand); any other rand member is reported as
 * unsupported. The class's mark is then cleared.
 *
 * The method returns 1 exactly when every call returned 1, since each call
 * returns 0 or 1 and the accumulator uses the bitwise AND.
 */
module RandomizeMethod {
  import opened Bits
  import opened GenAst
  import opened Classes
  import opened RandomizeFunc
  import opened RandomizeMark
  import W = RandomizeSynthSpec

  /** The return variable of randomize(). */
  const Ret: Ref := LocalRef(RandomizeName)

  /** `randomize = 1`, a 32-bit constant: the first statement each synthesized body gets. */
  const InitRet: Stmt := Assign(Whole(Ret), Const(Num(1, 32)))

  /** `randomize = randomize & call`. */
  function Accumulate(call: Expr): Stmt {
    Assign(Whole(Ret), And(Load(Ret), call))
  }

  /** A statement of the accumulator form, around a `std::randomize` or a member `randomize()` call. */
  predicate IsAccumulate(s: Stmt) {
    s.Assign? && s.lhs == Whole(Ret) && s.rhs.And? && s.rhs.a == Load(Ret) &&
    (s.rhs.b.StdRandomize? || s.rhs.b.RandomizeCall?)
  }

  /** What members contribute: statements, warnings, and the classes whose randomize() is declared for them, in order. */
  datatype Out = Out(stmts: seq<Stmt>, warnings: seq<W.Warning>, callees: seq<ClassId>)

  const NoOut := Out([], [], [])

  function Join(a: Out, b: Out): Out {
    Out(a.stmts + b.stmts, a.warnings + b.warnings, a.callees + b.callees)
  }

  /** A rand variable member: what the synthesis visitor makes of it. */
  predicate IsRandVar(m: Member) {
    m.VarMember? && m.isRand
  }

  /**
   * One member: a rand variable of basic type (after typedefs) gets
   * std::randomize, one whose declared type is a class handle a call of
   * that class's randomize(), any other one a warning; other members give
   * nothing.
   */
  function MemberOut(m: Member): (r: Out)
    ensures |r.stmts| + |r.warnings| == (if IsRandVar(m) then 1 else 0)
    ensures r.callees == (if IsRandClassRef(m) then [m.dtype.cls] else [])
    ensures forall i :: 0 <= i < |r.stmts| ==> IsAccumulate(r.stmts[i])
  {
    if !IsRandVar(m) then NoOut
    else if SkipRef(m.dtype).BasicDType? then Out([Accumulate(StdRandomize(VarRef(m.v)))], [], [])
    else if m.dtype.ClassRefDType? then Out([Accumulate(RandomizeCall(VarRef(m.v)))], [], [m.dtype.cls])
    else Out([], [W.UnsupportedMember(m.name)], [])
  }

  /** A rand member whose type names an enum gets std::randomize, as a basic-typed one does. */
  lemma RandEnumMemberOut(m: Member)
    requires IsRandVar(m) && IsEnum(m.dtype)
    ensures MemberOut(m) == Out([Accumulate(StdRandomize(VarRef(m.v)))], [], [])
  {
    EnumSkipsToBase(m.dtype);
  }

  /** The number of rand variables among some members. */
  function RandVars(ms: seq<Member>): nat
    decreases |ms|
  {
    if ms == [] then 0 else RandVars(ms[..|ms| - 1]) + (if IsRandVar(ms[|ms| - 1]) then 1 else 0)
  }

  /**
   * A member list in declaration order: one statement or one warning per
   * rand variable, every statement an accumulator step, and the callees
   * are exactly the classes of the rand class-handle members.
   */
  function MembersOut(ms: seq<Member>): (r: Out)
    ensures |r.stmts| + |r.warnings| == RandVars(ms)
    ensures forall i :: 0 <= i < |r.stmts| ==> IsAccumulate(r.stmts[i])
    ensures forall t :: t in r.callees <==> t in RandRefs(ms)
    decreases |ms|
  {
    if ms == [] then NoOut else Join(MembersOut(ms[..|ms| - 1]), MemberOut(ms[|ms| - 1]))
  }

  /** A class chain, nearest first: the members of each class in turn. */
  function ChainOut(cs: ClassTable, ch: seq<ClassId>): (r: Out)
    requires forall i :: 0 <= i < |ch| ==> ch[i] in cs
    ensures forall i :: 0 <= i < |r.stmts| ==> IsAccumulate(r.stmts[i])
    decreases |ch|
  {
    if ch == [] then NoOut else Join(ChainOut(cs, ch[..|ch| - 1]), MembersOut(cs[ch[|ch| - 1]].members))
  }

  // ----- The class table -----

  /** Inheritance chains end and every rand class handle names a declared class. */
  predicate MethodTableOk(cs: ClassTable, depth: map<ClassId, nat>) {
    ChainOk(cs, depth) && forall c :: c in cs ==> RefsDeclared(cs, c)
  }

  /** The rand class handles of class c name declared classes. */
  predicate RefsDeclared(cs: ClassTable, c: ClassId) {
    c in cs && RandRefs(cs[c].members) <= cs.Keys
  }

  /** declareIn on each class of `ts` in turn (a class not in the table is passed over). */
  function DeclareAll(cs: ClassTable, ts: seq<ClassId>): (r: ClassTable)
    ensures r.Keys == cs.Keys
    decreases |ts|
  {
    if ts == [] then cs
    else
      var p := DeclareAll(cs, ts[..|ts| - 1]);
      var t := ts[|ts| - 1];
      if t in p then p[t := WithRandomize(p[t], true)] else p
  }

  lemma AppendAssoc<T>(a: seq<T>, b: seq<T>, c: seq<T>)
    ensures a + b + c == a + (b + c)
  {
  }

  /** The members up to j + 1 contribute those up to j and then member j. */
  lemma MembersOutSnoc(ms: seq<Member>, j: nat)
    requires j < |ms|
    ensures MembersOut(ms[..j + 1]) == Join(MembersOut(ms[..j]), MemberOut(ms[j]))
  {
    assert ms[..j + 1][..j] == ms[..j];
  }

  /** The chain up to k + 1 contributes that up to k and then the members of class k. */
  lemma ChainOutSnoc(cs: ClassTable, ch: seq<ClassId>, k: nat)
    requires k < |ch| && forall i :: 0 <= i < |ch| ==> ch[i] in cs
    ensures ChainOut(cs, ch[..k + 1]) == Join(ChainOut(cs, ch[..k]), MembersOut(cs[ch[k]].members))
  {
    assert ch[..k + 1][..k] == ch[..k];
  }

  /** declareIn on one more class. */
  lemma DeclareAllSnoc(cs: ClassTable, ts: seq<ClassId>, t: ClassId)
    ensures DeclareAll(cs, ts + [t]) ==
            var p := DeclareAll(cs, ts); if t in p then p[t := WithRandomize(p[t], true)] else p
  {
    assert (ts + [t])[..|ts|] == ts;
  }

  /** d' is d with functions appended: what find-or-create does to a class. */
  predicate Extends(d: ClassDecl, d': ClassDecl) {
    d'.base == d.base && d'.extended == d.extended && d.members <= d'.members &&
    forall i :: |d.members| <= i < |d'.members| ==> d'.members[i].FuncMember?
  }

  predicate TableExtends(cs: ClassTable, cs': ClassTable) {
    cs'.Keys == cs.Keys && forall k {:trigger Extends(cs[k], cs'[k])} :: k in cs ==> Extends(cs[k], cs'[k])
  }

  lemma ExtendsTrans(a: ClassDecl, b: ClassDecl, c: ClassDecl)
    requires Extends(a, b) && Extends(b, c)
    ensures Extends(a, c)
  {
    forall i | |a.members| <= i < |c.members| ensures c.members[i].FuncMember? {
      if i < |b.members| {
        assert c.members[i] == b.members[i];
      }
    }
  }

  lemma TableExtendsTrans(a: ClassTable, b: ClassTable, c: ClassTable)
    requires TableExtends(a, b) && TableExtends(b, c)
    ensures TableExtends(a, c)
  {
    forall k | k in a ensures Extends(a[k], c[k]) {
      assert Extends(a[k], b[k]) && Extends(b[k], c[k]);
      ExtendsTrans(a[k], b[k], c[k]);
    }
  }

  lemma WithRandomizeExtends(d: ClassDecl, v: bool)
    ensures Extends(d, WithRandomize(d, v))
  {
  }

  lemma {:induction false} DeclareAllExtends(cs: ClassTable, ts: seq<ClassId>)
    ensures TableExtends(cs, DeclareAll(cs, ts))
    decreases |ts|
  {
    if ts != [] {
      var p := DeclareAll(cs, ts[..|ts| - 1]);
      var t := ts[|ts| - 1];
      DeclareAllExtends(cs, ts[..|ts| - 1]);
      if t in p {
        var q := p[t := WithRandomize(p[t], true)];
        WithRandomizeExtends(p[t], true);
        assert TableExtends(p, q) by {
          forall k | k in p ensures Extends(p[k], q[k]) {
            if k == t { assert q[k] == WithRandomize(p[t], true); } else { assert q[k] == p[k]; }
          }
        }
        TableExtendsTrans(cs, p, q);
      }
    }
  }

  lemma {:induction false} DeclareAllAppend(cs: ClassTable, a: seq<ClassId>, b: seq<ClassId>)
    ensures DeclareAll(DeclareAll(cs, a), b) == DeclareAll(cs, a + b)
    decreases |b|
  {
    if b == [] {
      assert a + b == a;
    } else {
      assert (a + b)[..|a + b| - 1] == a + b[..|b| - 1];
      DeclareAllAppend(cs, a, b[..|b| - 1]);
    }
  }

  /** Functions appended to a member list change neither its rand handles nor what it contributes. */
  lemma {:induction false} ExtendedMembers(ms: seq<Member>, ms': seq<Member>)
    requires ms <= ms' && forall i :: |ms| <= i < |ms'| ==> ms'[i].FuncMember?
    ensures RandRefs(ms') == RandRefs(ms) && MembersOut(ms') == MembersOut(ms)
    decreases |ms'|
  {
    if |ms'| > |ms| {
      assert ms <= ms'[..|ms'| - 1];
      ExtendedMembers(ms, ms'[..|ms'| - 1]);
    } else {
      assert ms' == ms;
    }
  }

  /** Replacing a function member by another function leaves the rand handles alone. */
  lemma {:induction false} SwapFuncRefs(ms: seq<Member>, slot: nat, f: Func)
    requires slot < |ms| && ms[slot].FuncMember?
    ensures RandRefs(ms[slot := FuncMember(f)]) == RandRefs(ms)
    decreases |ms|
  {
    var ms' := ms[slot := FuncMember(f)];
    if slot < |ms| - 1 {
      assert ms'[..|ms'| - 1] == ms[..|ms| - 1][slot := FuncMember(f)];
      SwapFuncRefs(ms[..|ms| - 1], slot, f);
    } else {
      assert ms'[..|ms'| - 1] == ms[..|ms| - 1];
    }
  }

  lemma TableExtendsOk(cs: ClassTable, cs': ClassTable, depth: map<ClassId, nat>)
    requires MethodTableOk(cs, depth) && TableExtends(cs, cs')
    ensures MethodTableOk(cs', depth)
  {
    forall k | k in cs' ensures RefsDeclared(cs', k) {
      assert Extends(cs[k], cs'[k]);
      ExtendedMembers(cs[k].members, cs'[k].members);
      assert RefsDeclared(cs, k);
    }
    forall d | d in cs ensures cs'[d].base == cs[d].base {
      assert Extends(cs[d], cs'[d]);
    }
    ChainSameBasesAll(cs, cs', depth);
  }

  lemma ChainSameBasesAll(cs: ClassTable, cs': ClassTable, depth: map<ClassId, nat>)
    requires ChainOk(cs, depth)
    requires cs'.Keys == cs.Keys && forall d :: d in cs ==> cs'[d].base == cs[d].base
    ensures ChainOk(cs', depth)
  {
    forall c | c in cs'
      ensures c in depth && (cs'[c].base.Some? ==>
                               cs'[c].base.value in cs' && cs'[c].base.value in depth && depth[cs'[c].base.value] < depth[c])
    {
      assert cs[c].base == cs'[c].base;
    }
  }

  /** Filling in the body of a class's function keeps the table's invariant. */
  lemma AppendBodyOk(cs: ClassTable, depth: map<ClassId, nat>, c: ClassId, slot: nat, more: seq<Stmt>)
    requires MethodTableOk(cs, depth) && c in cs && slot < |cs[c].members| && cs[c].members[slot].FuncMember?
    ensures MethodTableOk(cs[c := AppendBody(cs[c], slot, more)], depth)
  {
    var d := cs[c];
    var f := d.members[slot].f;
    var cs' := cs[c := AppendBody(d, slot, more)];
    SwapFuncRefs(d.members, slot, Func(f.name, f.retWidth, f.signed, f.isVirtual, f.classMethod, f.body + more));
    forall k | k in cs' ensures RefsDeclared(cs', k) {
      if k != c {
        assert cs'[k] == cs[k];
      }
    }
    ChainSameBasesAll(cs, cs', depth);
  }

  /** Filling in the body of a function of a class that extends one of cs keeps the chains. */
  lemma AppendBodyChain(cs: ClassTable, cs': ClassTable, depth: map<ClassId, nat>, c: ClassId, slot: nat, more: seq<Stmt>)
    requires ChainOk(cs, depth) && TableExtends(cs, cs') && c in cs
    requires slot < |cs'[c].members| && cs'[c].members[slot].FuncMember?
    ensures ChainOk(cs'[c := AppendBody(cs'[c], slot, more)], depth)
  {
    var cs'' := cs'[c := AppendBody(cs'[c], slot, more)];
    forall d | d in cs ensures cs''[d].base == cs[d].base {
      assert Extends(cs[d], cs'[d]);
    }
    ChainSameBasesAll(cs, cs'', depth);
  }

  /** The table after the callees of class c are declared, before c's body is stored. */
  function Declared(cs: ClassTable, depth: map<ClassId, nat>, c: ClassId): ClassTable
    requires ChainOk(cs, depth) && c in cs
  {
    DeclareAll(cs[c := WithRandomize(cs[c], true)], ChainOut(cs, Chain(cs, depth, c)).callees)
  }

  /** The method found or created for c sits where it did, untouched, after the callees are declared. */
  lemma DeclaredKeeps(cs: ClassTable, depth: map<ClassId, nat>, c: ClassId)
    requires ChainOk(cs, depth) && c in cs
    ensures var r := Declared(cs, depth, c); var slot := RandomizeSlot(cs[c]);
            TableExtends(cs, r) &&
            slot < |r[c].members| && r[c].members[slot] == WithRandomize(cs[c], true).members[slot] &&
            r[c].members[slot].FuncMember? && r[c].members[slot].f.name == RandomizeName
  {
    var d := cs[c];
    var cs1 := cs[c := WithRandomize(d, true)];
    FindOrCreate(d, true);
    WithRandomizeExtends(d, true);
    assert TableExtends(cs, cs1) by {
      forall k | k in cs ensures Extends(cs[k], cs1[k]) {
        if k != c { assert cs1[k] == cs[k]; }
      }
    }
    var ts := ChainOut(cs, Chain(cs, depth, c)).callees;
    DeclareAllExtends(cs1, ts);
    TableExtendsTrans(cs, cs1, DeclareAll(cs1, ts));
    assert Extends(cs1[c], DeclareAll(cs1, ts)[c]);
  }

  /** The table and the warnings: the part of the netlist the synthesis visitor changes. */
  datatype MState = MState(cs: ClassTable, warnings: seq<W.Warning>)

  /**
   * The synthesis of class c: its randomize() found or created (virtual),
   * the randomize() of each class handled by a rand member declared, and
   * `randomize = 1` plus one accumulator step per supported rand member of
   * c and its ancestors appended to the method's statements. (A class
   * outside the table, or a table whose chains do not end, is left alone;
   * the visitor never meets either.)
   */
  function SynthClass(st: MState, depth: map<ClassId, nat>, c: ClassId): (r: MState)
    ensures r.cs.Keys == st.cs.Keys
    ensures ChainOk(st.cs, depth) ==> ChainOk(r.cs, depth)
  {
    if c in st.cs && ChainOk(st.cs, depth) then
      var o := ChainOut(st.cs, Chain(st.cs, depth, c));
      var cs2 := Declared(st.cs, depth, c);
      var slot := RandomizeSlot(st.cs[c]);
      DeclaredKeeps(st.cs, depth, c);
      AppendBodyChain(st.cs, cs2, depth, c, slot, [InitRet] + o.stmts);
      MState(cs2[c := AppendBody(cs2[c], slot, [InitRet] + o.stmts)], st.warnings + o.warnings)
    else st
  }

  /** A step applied to each class of a list in turn. */
  function Fold(f: (MState, ClassId) -> MState, st: MState, order: seq<ClassId>): MState
    decreases |order|
  {
    if order == [] then st else f(Fold(f, st, order[..|order| - 1]), order[|order| - 1])
  }

  lemma {:induction false} FoldAppend(f: (MState, ClassId) -> MState, st: MState, a: seq<ClassId>, b: seq<ClassId>)
    ensures Fold(f, Fold(f, st, a), b) == Fold(f, st, a + b)
    decreases |b|
  {
    if b == [] {
      assert a + b == a;
    } else {
      assert (a + b)[..|a + b| - 1] == a + b[..|b| - 1];
      FoldAppend(f, st, a, b[..|b| - 1]);
    }
  }

  /** The synthesis step with the depth certificate fixed. */
  function SynthStep(depth: map<ClassId, nat>): (MState, ClassId) -> MState {
    (s: MState, c: ClassId) => SynthClass(s, depth, c)
  }

  /** The classes synthesized in turn. */
  function SynthAll(st: MState, depth: map<ClassId, nat>, order: seq<ClassId>): MState {
    Fold(SynthStep(depth), st, order)
  }

  lemma SynthAllAppend(st: MState, depth: map<ClassId, nat>, a: seq<ClassId>, b: seq<ClassId>)
    ensures SynthAll(SynthAll(st, depth, a), depth, b) == SynthAll(st, depth, a + b)
  {
    FoldAppend(SynthStep(depth), st, a, b);
  }

  // ----- Which classes are synthesized, in which order -----

  /** The class nodes of a subtree in the order the visitor finishes them: children first. */
  function PostOrder(n: Node): seq<ClassId>
    decreases n, 1
  {
    KidsOrder(n, |n.kids|) + (if n.kind.ClassKind? then [n.kind.cls] else [])
  }

  function KidsOrder(n: Node, i: nat): seq<ClassId>
    requires i <= |n.kids|
    decreases n, 0, i
  {
    if i == 0 then [] else KidsOrder(n, i - 1) + PostOrder(n.kids[i - 1])
  }

  /** The classes listed are those declared in the subtree. */
  lemma {:induction false} PostOrderClasses(n: Node)
    ensures forall x :: x in PostOrder(n) <==> x in ClassesIn(n)
    decreases n, 1
  {
    KidsOrderClasses(n, |n.kids|);
  }

  lemma {:induction false} KidsOrderClasses(n: Node, i: nat)
    requires i <= |n.kids|
    ensures forall x :: x in KidsOrder(n, i) <==> x in ClassesOfKids(n, i)
    decreases n, 0, i
  {
    if i > 0 {
      KidsOrderClasses(n, i - 1);
      PostOrderClasses(n.kids[i - 1]);
    }
  }

  /**
   * The classes of xs still marked when reached: those of M, each at its
   * first occurrence (the mark is cleared there).
   */
  function Synthesized(M: set<ClassId>, xs: seq<ClassId>): seq<ClassId>
    decreases |xs|
  {
    if xs == [] then []
    else
      var p := Synthesized(M, xs[..|xs| - 1]);
      var x := xs[|xs| - 1];
      if x in M && x !in xs[..|xs| - 1] then p + [x] else p
  }

  /** Each marked class of the list is synthesized, and only once. */
  lemma {:induction false} SynthesizedOnce(M: set<ClassId>, xs: seq<ClassId>)
    ensures forall x :: x in Synthesized(M, xs) <==> x in M && x in xs
    ensures forall i, j :: 0 <= i < j < |Synthesized(M, xs)| ==> Synthesized(M, xs)[i] != Synthesized(M, xs)[j]
    decreases |xs|
  {
    if xs != [] {
      var init := xs[..|xs| - 1];
      SynthesizedOnce(M, init);
      forall x ensures x in xs <==> x in init || x == xs[|xs| - 1] {
        assert xs == init + [xs[|xs| - 1]];
      }
    }
  }

  /** Visiting a second list after a first: the first's classes are no longer marked. */
  lemma {:induction false} SynthesizedAppend(M: set<ClassId>, M': set<ClassId>, a: seq<ClassId>, b: seq<ClassId>)
    requires forall x :: x in M' <==> x in M && x !in a
    ensures Synthesized(M, a + b) == Synthesized(M, a) + Synthesized(M', b)
    decreases |b|
  {
    if b == [] {
      assert a + b == a;
    } else {
      var b0 := b[..|b| - 1];
      var x := b[|b| - 1];
      assert (a + b)[..|a + b| - 1] == a + b0;
      SynthesizedAppend(M, M', a, b0);
      assert x in a + b0 <==> x in a || x in b0;
    }
  }

  // ----- What the emitted body computes -----

  lemma OneBit()
    ensures Pow2(32) >= 2
  {
    Pow2Monotone(1, 32);
  }

  /**
   * A run of accumulator steps, each consuming one call result of 0 or 1:
   * the return variable ends 1 exactly when it started 1 and every call
   * returned 1.
   */
  lemma {:induction false} AccumulateMeaning(ss: seq<Stmt>, st: State, ctx: Ctx)
    requires forall i :: 0 <= i < |ss| ==> IsAccumulate(ss[i])
    requires Val(st.env, Ret) <= 1 && |ss| <= |st.draws| && forall i :: 0 <= i < |ss| ==> st.draws[i] <= 1
    ensures Val(Exec(ss, st, ctx).env, Ret) ==
            if Val(st.env, Ret) == 1 && forall i :: 0 <= i < |ss| ==> st.draws[i] == 1 then 1 else 0
    decreases ss
  {
    if ss != [] {
      var st' := GenAst.Step(ss[0], st, ctx);
      assert ss[0] == Accumulate(ss[0].rhs.b);
      AccumulateStep(ss[0].rhs.b, st, ctx);
      assert Exec(ss, st, ctx) == Exec(ss[1..], st', ctx);
      AccumulateMeaning(ss[1..], st', ctx);
      assert (forall i :: 0 <= i < |ss| ==> st.draws[i] == 1) <==>
             st.draws[0] == 1 && forall i :: 0 <= i < |ss| - 1 ==> st'.draws[i] == 1;
    }
  }

  /** One accumulator step with a call result of 0 or 1: the AND of the two bits, one draw consumed. */
  lemma AccumulateStep(call: Expr, st: State, ctx: Ctx)
    requires (call.StdRandomize? || call.RandomizeCall?) && Val(st.env, Ret) <= 1 && |st.draws| >= 1 && st.draws[0] <= 1
    ensures var st' := GenAst.Step(Accumulate(call), st, ctx);
            Val(st'.env, Ret) == (if Val(st.env, Ret) == 1 && st.draws[0] == 1 then 1 else 0) &&
            st'.draws == st.draws[1..]
  {
    var a := Val(st.env, Ret);
    var d := st.draws[0];
    AccumulateValue(call, st.env, ctx, d);
    BitAndBits(a, d);
    StepWhole(Ret, And(Load(Ret), call), st, ctx);
  }

  /** Assigning a whole variable stores the assigned value and consumes one draw. */
  lemma StepWhole(r: Ref, e: Expr, st: State, ctx: Ctx)
    ensures GenAst.Step(Assign(Whole(r), e), st, ctx) ==
            State(st.env[r := AssignedValue(r, e, st.env, ctx, NextDraw(st))], RestDraws(st))
  {
  }

  /** The accumulator's new value is the AND of its old value and the call result. */
  lemma AccumulateValue(call: Expr, env: map<Ref, nat>, ctx: Ctx, d: nat)
    requires (call.StdRandomize? || call.RandomizeCall?) && Val(env, Ret) <= 1 && d <= 1
    ensures AssignedValue(Ret, And(Load(Ret), call), env, ctx, d) == BitAnd(Val(env, Ret), d)
  {
    CallValue(call, env, ctx, d);
    var e := And(Load(Ret), call);
    assert Eval(e, env, ctx, d, 32) == BitAnd(Val(env, Ret), d);
    BitAndBits(Val(env, Ret), d);
    assert SelfWidth(e, ctx) == 32;
  }

  /** A call result of 0 or 1 is read as it is, in 32 bits. */
  lemma CallValue(call: Expr, env: map<Ref, nat>, ctx: Ctx, d: nat)
    requires (call.StdRandomize? || call.RandomizeCall?) && d <= 1
    ensures Eval(call, env, ctx, d, 32) == d && SelfWidth(call, ctx) == 32
  {
    OneBit();
    assert Trunc(d, 32) == d;
    match call
    case StdRandomize(r) =>
      assert Eval(StdRandomize(r), env, ctx, d, 32) == Trunc(d, 32);
    case RandomizeCall(r) =>
      assert Eval(RandomizeCall(r), env, ctx, d, 32) == Trunc(d, 32);
  }

  lemma BitAndBits(a: nat, d: nat)
    requires a <= 1 && d <= 1
    ensures BitAnd(a, d) == if a == 1 && d == 1 then 1 else 0
  {
    if a == 1 && d == 1 {
      assert BitAnd(1, 1) == 2 * BitAnd(0, 0) + 1;
    }
  }

  /**
   * The statements synthesized for a class, run with call results of 0 or
   * 1: randomize() returns 1 exactly when every call returned 1 (the first
   * draw goes to `randomize = 1`).
   */
  lemma BodyMeaning(ss: seq<Stmt>, st: State, ctx: Ctx)
    requires forall i :: 0 <= i < |ss| ==> IsAccumulate(ss[i])
    requires |ss| < |st.draws| && forall i :: 1 <= i <= |ss| ==> st.draws[i] <= 1
    ensures Val(Exec([InitRet] + ss, st, ctx).env, Ret) == if forall i :: 1 <= i <= |ss| ==> st.draws[i] == 1 then 1 else 0
  {
    OneBit();
    var st' := GenAst.Step(InitRet, st, ctx);
    assert Val(st'.env, Ret) == 1;
    assert st'.draws == st.draws[1..];
    assert ([InitRet] + ss)[1..] == ss;
    AccumulateMeaning(ss, st', ctx);
    assert (forall i :: 1 <= i <= |ss| ==> st.draws[i] == 1) <==> forall i :: 0 <= i < |ss| ==> st'.draws[i] == 1;
  }

  /**
   * What the synthesis of c leaves in c: the method at the slot find-or-create
   * picked is a 32-bit signed class method named randomize (virtual when it
   * was created), its statements are the old ones followed by
   * `randomize = 1` and the accumulator steps of c's chain; the class keeps
   * its base and flags; the callees each declare a randomize(); and the
   * warnings are those of the chain.
   */
  lemma SynthClassResult(st: MState, depth: map<ClassId, nat>, c: ClassId)
    requires ChainOk(st.cs, depth) && c in st.cs
    ensures var r := SynthClass(st, depth, c);
            var o := ChainOut(st.cs, Chain(st.cs, depth, c));
            var slot := RandomizeSlot(st.cs[c]);
            var d := WithRandomize(st.cs[c], true);
            r.cs[c].base == st.cs[c].base && r.cs[c].extended == st.cs[c].extended &&
            slot < |r.cs[c].members| && r.cs[c].members[slot].FuncMember? &&
            r.cs[c].members[slot].f == Func(RandomizeName, d.members[slot].f.retWidth, d.members[slot].f.signed,
                                            d.members[slot].f.isVirtual, d.members[slot].f.classMethod,
                                            d.members[slot].f.body + ([InitRet] + o.stmts)) &&
            (!HasOwnRandomize(st.cs[c]) ==> d.members[slot].f == Func(RandomizeName, 32, true, true, true, [])) &&
            (forall i :: 0 <= i < |o.stmts| ==> IsAccumulate(o.stmts[i])) &&
            r.warnings == st.warnings + o.warnings
  {
    var o := ChainOut(st.cs, Chain(st.cs, depth, c));
    var cs2 := Declared(st.cs, depth, c);
    var slot := RandomizeSlot(st.cs[c]);
    FindOrCreate(st.cs[c], true);
    DeclaredKeeps(st.cs, depth, c);
    assert Extends(st.cs[c], cs2[c]);
    var r := SynthClass(st, depth, c);
    assert r.cs[c] == AppendBody(cs2[c], slot, [InitRet] + o.stmts);
  }

  /** After the synthesis of c, every class a rand member of c's chain handles declares randomize(). */
  lemma SynthClassCallees(st: MState, depth: map<ClassId, nat>, c: ClassId, t: ClassId)
    requires MethodTableOk(st.cs, depth) && c in st.cs
    requires t in ChainOut(st.cs, Chain(st.cs, depth, c)).callees
    ensures t in st.cs && Declares(SynthClass(st, depth, c).cs[t])
  {
    ChainOutCallees(st.cs, depth, Chain(st.cs, depth, c));
    var cs1 := st.cs[c := WithRandomize(st.cs[c], true)];
    var ts := ChainOut(st.cs, Chain(st.cs, depth, c)).callees;
    DeclaredKeeps(st.cs, depth, c);
    DeclareAllDeclares(cs1, ts, t);
    var cs2 := Declared(st.cs, depth, c);
    var slot := RandomizeSlot(st.cs[c]);
    if t == c {
      FindOrCreate(st.cs[c], true);
      var r := SynthClass(st, depth, c).cs[c];
      assert r.members[slot].FuncMember? && r.members[slot].f.name == RandomizeName;
    } else {
      assert SynthClass(st, depth, c).cs[t] == cs2[t];
    }
  }

  /** The callees of a chain are declared classes. */
  lemma {:induction false} ChainOutCallees(cs: ClassTable, depth: map<ClassId, nat>, ch: seq<ClassId>)
    requires MethodTableOk(cs, depth) && forall i :: 0 <= i < |ch| ==> ch[i] in cs
    ensures forall t :: t in ChainOut(cs, ch).callees ==> t in cs
    decreases |ch|
  {
    if ch != [] {
      ChainOutCallees(cs, depth, ch[..|ch| - 1]);
      assert RefsDeclared(cs, ch[|ch| - 1]);
    }
  }

  /** declareIn on t, among others, leaves t declaring randomize(). */
  lemma {:induction false} DeclareAllDeclares(cs: ClassTable, ts: seq<ClassId>, t: ClassId)
    requires t in ts && t in cs
    ensures Declares(DeclareAll(cs, ts)[t])
    decreases |ts|
  {
    var init := ts[..|ts| - 1];
    var last := ts[|ts| - 1];
    var p := DeclareAll(cs, init);
    if last == t {
      FindOrCreate(p[t], true);
      var i := RandomizeSlot(p[t]);
      assert DeclareAll(cs, ts)[t].members[i].FuncMember?;
    } else {
      assert ts == init + [last];
      DeclareAllDeclares(cs, init, t);
      if last in p {
        WithRandomizeExtends(p[last], true);
      }
      assert DeclareAll(cs, ts)[t] == p[t];
    }
  }

  /**
   * RandomizeMethodVisitor: the class table it adds methods to, the
   * classes still marked (AstClass::user1), and the warnings issued.
   */
  class MethodVisitor {
    var cs: ClassTable
    const depth: map<ClassId, nat>
    var marked: set<ClassId>
    var warnings: seq<W.Warning>

    ghost predicate Valid()
      reads this
    {
      MethodTableOk(cs, depth) && marked <= cs.Keys
    }

    constructor (cs: ClassTable, depth: map<ClassId, nat>, marked: set<ClassId>)
      requires MethodTableOk(cs, depth) && marked <= cs.Keys
      ensures Valid() && this.cs == cs && this.depth == depth && this.marked == marked && warnings == []
    {
      this.cs := cs;
      this.depth := depth;
      this.marked := marked;
      warnings := [];
    }

    /** V3RandomizeMethod::declareIn: find-or-create the class's randomize(), always virtual; returns where it sits. */
    method DeclareIn(c: ClassId) returns (slot: nat)
      requires Valid() && c in cs
      modifies this`cs
      ensures Valid()
      ensures cs == old(cs)[c := WithRandomize(old(cs)[c], true)] && slot == RandomizeSlot(old(cs)[c])
    {
      var d := cs[c];
      ghost var cs0 := cs;
      cs := cs[c := WithRandomize(d, true)];
      WithRandomizeExtends(d, true);
      assert TableExtends(cs0, cs) by {
        forall k | k in cs0 ensures Extends(cs0[k], cs[k]) {
          if k != c { assert cs[k] == cs0[k]; }
        }
      }
      TableExtendsOk(cs0, cs, depth);
      slot := RandomizeSlot(d);
    }

    /** The members of one class of the chain: a statement, a warning or nothing for each, callees declared on the way. */
    method RandMembers(a: ClassId) returns (more: seq<Stmt>)
      requires Valid() && a in cs
      modifies this`cs, this`warnings
      ensures Valid()
      ensures var o := MembersOut(old(cs)[a].members);
              cs == DeclareAll(old(cs), o.callees) && more == o.stmts && warnings == old(warnings) + o.warnings
    {
      // Members appended while the list is walked are functions, which contribute nothing.
      var ms := cs[a].members;
      assert RefsDeclared(cs, a);
      more := [];
      var j := 0;
      ghost var acc := NoOut;
      while j < |ms|
        invariant 0 <= j <= |ms| && Valid() && cs.Keys == old(cs).Keys
        invariant acc == MembersOut(ms[..j])
        invariant cs == DeclareAll(old(cs), acc.callees)
        invariant more == acc.stmts && warnings == old(warnings) + acc.warnings
      {
        MembersOutSnoc(ms, j);
        ghost var o := MemberOut(ms[j]);
        var s := RandMember(ms[j]);
        DeclareAllAppend(old(cs), acc.callees, o.callees);
        AppendAssoc(old(warnings), acc.warnings, o.warnings);
        more := more + s;
        acc := Join(acc, o);
        j := j + 1;
      }
      assert ms[..|ms|] == ms;
    }

    /** One member: std::randomize for a basic type, the handle's randomize() for a class handle, else a warning. */
    method RandMember(m: Member) returns (s: seq<Stmt>)
      requires Valid() && (IsRandClassRef(m) ==> m.dtype.cls in cs)
      modifies this`cs, this`warnings
      ensures Valid()
      ensures var o := MemberOut(m);
              cs == DeclareAll(old(cs), o.callees) && s == o.stmts && warnings == old(warnings) + o.warnings
    {
      s := [];
      if m.VarMember? && m.isRand {
        if SkipRef(m.dtype).BasicDType? {
          s := [Accumulate(StdRandomize(VarRef(m.v)))];
        } else if m.dtype.ClassRefDType? {
          var _ := DeclareIn(m.dtype.cls);
          assert [m.dtype.cls][..0] == [];
          s := [Accumulate(RandomizeCall(VarRef(m.v)))];
        } else {
          warnings := warnings + [W.UnsupportedMember(m.name)];
        }
      }
    }

    /**
     * visit(AstClass) after the children: a marked class gets its
     * randomize() body and loses its mark; an unmarked class is left alone.
     */
    method VisitClass(c: ClassId)
      requires Valid() && c in cs
      modifies this`cs, this`warnings, this`marked
      ensures Valid()
      ensures c in old(marked) ==> MState(cs, warnings) == SynthClass(MState(old(cs), old(warnings)), depth, c)
      ensures c !in old(marked) ==> cs == old(cs) && warnings == old(warnings)
      ensures marked == old(marked) - {c}
    {
      if c in marked {
        Synthesize(c);
        marked := marked - {c};
      }
    }

    /** The body of a marked class: find or create randomize(), then `randomize = 1` and the chain's members. */
    method Synthesize(c: ClassId)
      requires Valid() && c in cs
      modifies this`cs, this`warnings
      ensures Valid()
      ensures MState(cs, warnings) == SynthClass(MState(old(cs), old(warnings)), depth, c)
    {
      ghost var cs0 := cs;
      var slot := DeclareIn(c);
      var body := ChainMembers(c, cs0);
      StoreBody(cs0, old(warnings), depth, c, warnings, body);
      cs := cs[c := AppendBody(cs[c], slot, body)];
    }

    /**
     * The statements for a class and its ancestors, nearest first, after
     * `randomize = 1`; cs0 is the table before the class's own randomize()
     * was found or created.
     */
    method ChainMembers(c: ClassId, ghost cs0: ClassTable) returns (body: seq<Stmt>)
      requires Valid() && c in cs0 && ChainOk(cs0, depth) && cs == cs0[c := WithRandomize(cs0[c], true)]
      modifies this`cs, this`warnings
      ensures Valid()
      ensures var o := ChainOut(cs0, Chain(cs0, depth, c));
              cs == Declared(cs0, depth, c) && body == [InitRet] + o.stmts && warnings == old(warnings) + o.warnings
    {
      ghost var cs1 := cs;
      ChainSameBases(cs0, cs1, depth, c);
      var ch := Chain(cs, depth, c);
      body := [InitRet];
      var k := 0;
      ghost var acc := NoOut;
      while k < |ch|
        invariant 0 <= k <= |ch| && Valid() && cs.Keys == cs0.Keys
        invariant acc == ChainOut(cs0, ch[..k])
        invariant cs == DeclareAll(cs1, acc.callees)
        invariant body == [InitRet] + acc.stmts
        invariant warnings == old(warnings) + acc.warnings
      {
        ChainOutSnoc(cs0, ch, k);
        DeclaredKeepsPrefix(cs0, cs1, c, acc.callees, ch[k]);
        ghost var o := MembersOut(cs0[ch[k]].members);
        var more := RandMembers(ch[k]);
        DeclareAllAppend(cs1, acc.callees, o.callees);
        AppendAssoc([InitRet], acc.stmts, o.stmts);
        AppendAssoc(old(warnings), acc.warnings, o.warnings);
        body := body + more;
        acc := Join(acc, o);
        k := k + 1;
      }
      assert ch[..|ch|] == ch;
    }

    /** The visitor: children first, then a class node as above. */
    method Visit(n: Node)
      requires Valid() && ClassesIn(n) <= cs.Keys
      modifies this`cs, this`warnings, this`marked
      ensures Valid() && cs.Keys == old(cs).Keys
      ensures MState(cs, warnings) == SynthAll(MState(old(cs), old(warnings)), depth, Synthesized(old(marked), PostOrder(n)))
      ensures marked == old(marked) - ClassesIn(n)
      decreases n, 1
    {
      IterateChildren(n);
      ghost var mid := marked;
      NodeStep(old(marked), mid, n);
      if n.kind.ClassKind? {
        var c := n.kind.cls;
        VisitClass(c);
        SynthAllAppend(MState(old(cs), old(warnings)), depth, Synthesized(old(marked), KidsOrder(n, |n.kids|)),
                       if c in mid then [c] else []);
      }
    }

    /** iterateChildren: each child in turn. */
    method IterateChildren(n: Node)
      requires Valid() && ClassesIn(n) <= cs.Keys
      modifies this`cs, this`warnings, this`marked
      ensures Valid() && cs.Keys == old(cs).Keys
      ensures MState(cs, warnings) ==
              SynthAll(MState(old(cs), old(warnings)), depth, Synthesized(old(marked), KidsOrder(n, |n.kids|)))
      ensures marked == old(marked) - ClassesOfKids(n, |n.kids|)
      decreases n, 0
    {
      var i := 0;
      while i < |n.kids|
        invariant 0 <= i <= |n.kids| && Valid() && cs.Keys == old(cs).Keys
        invariant MState(cs, warnings) ==
                  SynthAll(MState(old(cs), old(warnings)), depth, Synthesized(old(marked), KidsOrder(n, i)))
        invariant marked == old(marked) - ClassesOfKids(n, i)
      {
        KidInTree(n, i);
        ghost var before := Synthesized(old(marked), KidsOrder(n, i));
        ghost var mid := marked;
        Visit(n.kids[i]);
        ghost var after := Synthesized(mid, PostOrder(n.kids[i]));
        KidStep(old(marked), mid, n, i);
        SynthAllAppend(MState(old(cs), old(warnings)), depth, before, after);
        i := i + 1;
      }
    }
  }

  /** Storing the body built for c into its randomize() completes SynthClass and keeps the table invariant. */
  lemma StoreBody(cs0: ClassTable, w0: seq<W.Warning>, depth: map<ClassId, nat>, c: ClassId,
                  w: seq<W.Warning>, body: seq<Stmt>)
    requires MethodTableOk(cs0, depth) && c in cs0
    requires var o := ChainOut(cs0, Chain(cs0, depth, c)); body == [InitRet] + o.stmts && w == w0 + o.warnings
    ensures var cs2 := Declared(cs0, depth, c); var slot := RandomizeSlot(cs0[c]);
            c in cs2 && slot < |cs2[c].members| && cs2[c].members[slot].FuncMember?
    ensures var cs2 := Declared(cs0, depth, c); var cs3 := cs2[c := AppendBody(cs2[c], RandomizeSlot(cs0[c]), body)];
            MethodTableOk(cs3, depth) && MState(cs3, w) == SynthClass(MState(cs0, w0), depth, c)
  {
    SynthClassIs(MState(cs0, w0), depth, c);
    DeclaredKeeps(cs0, depth, c);
    var cs2 := Declared(cs0, depth, c);
    TableExtendsOk(cs0, cs2, depth);
    AppendBodyOk(cs2, depth, c, RandomizeSlot(cs0[c]), body);
  }

  /** SynthClass on a declared class, spelled out. */
  lemma SynthClassIs(st: MState, depth: map<ClassId, nat>, c: ClassId)
    requires c in st.cs && ChainOk(st.cs, depth)
    ensures var cs2 := Declared(st.cs, depth, c); var slot := RandomizeSlot(st.cs[c]);
            c in cs2 && slot < |cs2[c].members| && cs2[c].members[slot].FuncMember?
    ensures var o := ChainOut(st.cs, Chain(st.cs, depth, c)); var cs2 := Declared(st.cs, depth, c);
            SynthClass(st, depth, c) ==
            MState(cs2[c := AppendBody(cs2[c], RandomizeSlot(st.cs[c]), [InitRet] + o.stmts)], st.warnings + o.warnings)
  {
    DeclaredKeeps(st.cs, depth, c);
  }

  /** A node after its children: a class comes last in the order, and is synthesized when still marked. */
  lemma NodeStep(M: set<ClassId>, mid: set<ClassId>, n: Node)
    requires mid == M - ClassesOfKids(n, |n.kids|)
    ensures n.kind.ClassKind? ==>
              Synthesized(M, PostOrder(n)) ==
              Synthesized(M, KidsOrder(n, |n.kids|)) + (if n.kind.cls in mid then [n.kind.cls] else []) &&
              M - ClassesIn(n) == mid - {n.kind.cls}
    ensures !n.kind.ClassKind? ==> PostOrder(n) == KidsOrder(n, |n.kids|) && M - ClassesIn(n) == mid
  {
    KidsOrderClasses(n, |n.kids|);
    if n.kind.ClassKind? {
      var c := n.kind.cls;
      SynthesizedAppend(M, mid, KidsOrder(n, |n.kids|), [c]);
      assert Synthesized(mid, [c]) == if c in mid then [c] else [];
    }
  }

  /** One more child visited: its classes follow those of the earlier children, and lose their marks. */
  lemma KidStep(M: set<ClassId>, mid: set<ClassId>, n: Node, i: nat)
    requires i < |n.kids| && mid == M - ClassesOfKids(n, i)
    ensures Synthesized(M, KidsOrder(n, i + 1)) == Synthesized(M, KidsOrder(n, i)) + Synthesized(mid, PostOrder(n.kids[i]))
    ensures mid - ClassesIn(n.kids[i]) == M - ClassesOfKids(n, i + 1)
  {
    KidsOrderClasses(n, i);
    SynthesizedAppend(M, mid, KidsOrder(n, i), PostOrder(n.kids[i]));
  }

  /** Between two classes of the chain, the members still contribute what they did in the starting table. */
  lemma DeclaredKeepsPrefix(cs0: ClassTable, cs1: ClassTable, c: ClassId, ts: seq<ClassId>, a: ClassId)
    requires c in cs0 && cs1 == cs0[c := WithRandomize(cs0[c], true)] && a in cs0
    ensures MembersOut(DeclareAll(cs1, ts)[a].members) == MembersOut(cs0[a].members)
  {
    WithRandomizeExtends(cs0[c], true);
    assert TableExtends(cs0, cs1) by {
      forall k | k in cs0 ensures Extends(cs0[k], cs1[k]) {
        if k != c { assert cs1[k] == cs0[k]; }
      }
    }
    DeclareAllExtends(cs1, ts);
    TableExtendsTrans(cs0, cs1, DeclareAll(cs1, ts));
    assert Extends(cs0[a], DeclareAll(cs1, ts)[a]);
    ExtendedMembers(cs0[a].members, DeclareAll(cs1, ts)[a].members);
  }

  /** The handles of a class's own members are walked by the marker with ancestors off. */
  lemma TableOfHierarchy(h: Hierarchy)
    requires HierarchyOk(h) && !h.ancestors
    ensures MethodTableOk(h.cs, h.depth)
  {
    forall c | c in h.cs ensures RefsDeclared(h.cs, c) {
      assert CompTargets(h, c) == ChainRefs(h.cs, [c]);
      assert [c][..0] == [];
      assert CompTargets(h, c) <= h.cs.Keys;
    }
  }

  /**
   * V3RandomizeMethod::defineIfNeeded: the marking visitor (own members
   * only) and then the synthesis visitor over the whole netlist. The
   * classes that need randomize() and are declared in the netlist are
   * synthesized, each once, in the order the visitor finishes them.
   */
  method DefineIfNeeded(cs: ClassTable, depth: map<ClassId, nat>, ghost rank: map<ClassId, nat>, netlist: Node)
    returns (cs': ClassTable, warnings: seq<W.Warning>)
    requires HierarchyOk(Hierarchy(cs, depth, false)) && RankOk(Hierarchy(cs, depth, false), rank)
    requires NodeOk(Hierarchy(cs, depth, false), netlist)
    requires forall c :: c in cs && cs[c].base.Some? ==> c in ClassesIn(netlist)
    ensures var order := Synthesized(NeedsRandomize(Hierarchy(cs, depth, false), Roots(netlist)), PostOrder(netlist));
            MState(cs', warnings) == SynthAll(MState(cs, []), depth, order)
  {
    var h := Hierarchy(cs, depth, false);
    var marker := new Marker(h, rank, netlist);
    NeedsRandomizeClosed(h, Roots(netlist));
    TableOfHierarchy(h);
    var v := new MethodVisitor(cs, depth, marker.marked);
    v.Visit(netlist);
    cs', warnings := v.cs, v.warnings;
  }
}
