/**
 * What RandomizeVisitor emits for the members of a class: newClassRandStmtsp
 * walks the class and its ancestors, nearest first, and the members of each
 * in declaration order. A rand member of basic or struct type is randomized
 * in place (newRandStmtsp); a rand member holding a handle of another class
 * has that class's member randomization inlined, through the handle; any
 * other rand member is reported as unsupported.
 *
 * The inlining recursion has no guard, so it ends only when no class
 * (through its ancestors' members) holds, directly or not, a rand handle of
 * itself; a rank on classes that decreases along such handles certifies it.
 */
module RandomizeSynthSpec {
  import opened Wrappers
  import opened Bits
  import opened GenAst
  import opened ConstraintExpr
  import opened Classes
  import opened RandomizeLayout
  import opened RandomizeFunc

  datatype Warning = UnsupportedMember(name: string) | UnsupportedConstraint(e: CExpr)

  /** The name of enum value table number k, in the `$unit` package. */
  function TabName(k: nat): string {
    "__Venumvaltab_" + Decimal(k)
  }

  /** The name of inline-constraint helper number k. */
  function HelperName(k: nat): string {
    "__Vrandomize" + Decimal(k)
  }

  lemma TabNameInjective(a: nat, b: nat)
    requires a != b
    ensures TabName(a) != TabName(b)
  {
    var p := "__Venumvaltab_";
    DecimalInjective(a, b);
    assert (p + Decimal(a))[|p|..] == Decimal(a);
    assert (p + Decimal(b))[|p|..] == Decimal(b);
  }

  lemma HelperNameInjective(a: nat, b: nat)
    requires a != b
    ensures HelperName(a) != HelperName(b)
  {
    var p := "__Vrandomize";
    DecimalInjective(a, b);
    assert (p + Decimal(a))[|p|..] == Decimal(a);
    assert (p + Decimal(b))[|p|..] == Decimal(b);
  }

  /** No helper is named like the method it stands in for. */
  lemma HelperNotRandomize(k: nat)
    ensures HelperName(k) != RandomizeName
  {
    assert HelperName(k)[0] == '_' != RandomizeName[0];
  }

  /** Each node addConstraint could not use, reported in turn. */
  function ConstraintWarnings(es: seq<CExpr>): (r: seq<Warning>)
    ensures |r| == |es| && forall i :: 0 <= i < |es| ==> r[i] == UnsupportedConstraint(es[i])
  {
    seq(|es|, i requires 0 <= i < |es| => UnsupportedConstraint(es[i]))
  }

  /** The class a member's randomization is inlined from: a rand variable whose type after typedefs is a class handle. */
  function Composed(m: Member): (r: Option<ClassId>)
    ensures r.Some? <==> m.VarMember? && m.isRand && SkipRef(m.dtype).ClassRefDType?
  {
    if m.VarMember? && m.isRand && SkipRef(m.dtype).ClassRefDType? then Some(SkipRef(m.dtype).cls) else None
  }

  /** A member inlines at most a class that exists and is ranked below `c`. */
  ghost predicate BelowOne(cs: ClassTable, comp: map<ClassId, nat>, c: ClassId, m: Member) {
    c in comp && (Composed(m).Some? ==> Composed(m).value in cs && Composed(m).value in comp &&
                                         comp[Composed(m).value] < comp[c])
  }

  ghost predicate Below(cs: ClassTable, comp: map<ClassId, nat>, c: ClassId, ms: seq<Member>) {
    c in comp && forall i :: 0 <= i < |ms| ==> BelowOne(cs, comp, c, ms[i])
  }

  /** Composition is acyclic: the members of a class and of its ancestors only inline lower classes. */
  ghost predicate CompOk(cs: ClassTable, depth: map<ClassId, nat>, comp: map<ClassId, nat>) {
    ChainOk(cs, depth) &&
    forall c, k :: c in cs && k in Chain(cs, depth, c) ==> k in cs && Below(cs, comp, c, cs[k].members)
  }

  /**
   * The outcome of newClassRandStmtsp: the statements, the warnings, the
   * enums whose tables the statements read, and the classes for which
   * newRandomizeFunc was called.
   */
  datatype Gen = Gen(stmts: seq<Stmt>, warnings: seq<Warning>, enums: set<DType>, touched: set<ClassId>)

  const NoGen := Gen([], [], {}, {})

  function Then(a: Gen, b: Gen): Gen {
    Gen(a.stmts + b.stmts, a.warnings + b.warnings, a.enums + b.enums, a.touched + b.touched)
  }

  lemma ThenNoGen(g: Gen)
    ensures Then(g, NoGen) == g
  {
    assert g.stmts + [] == g.stmts && g.warnings + [] == g.warnings;
  }

  /** newClassRandStmtsp(c, from) with the enum tables named by `tabs`. */
  ghost function ClassRand(cs: ClassTable, depth: map<ClassId, nat>, comp: map<ClassId, nat>, c: ClassId,
                           from: From, tabs: map<nat, string>): Gen
    requires CompOk(cs, depth, comp) && c in cs && ValidFrom(from)
    decreases if c in comp then comp[c] else 0, 2
  {
    var ch := Chain(cs, depth, c);
    assert ch[0] in ch;
    ChainRand(cs, depth, comp, c, ch, from, tabs)
  }

  /** The members of the classes of `ch`, class after class. */
  ghost function ChainRand(cs: ClassTable, depth: map<ClassId, nat>, comp: map<ClassId, nat>, c: ClassId,
                           ch: seq<ClassId>, from: From, tabs: map<nat, string>): Gen
    requires CompOk(cs, depth, comp) && c in comp && ValidFrom(from)
    requires forall k :: k in ch ==> k in cs && Below(cs, comp, c, cs[k].members)
    decreases comp[c], 1, |ch|
  {
    if ch == [] then NoGen
    else Then(ChainRand(cs, depth, comp, c, ch[..|ch| - 1], from, tabs),
              MembersRand(cs, depth, comp, c, cs[ch[|ch| - 1]].members, from, tabs))
  }

  /** The members of one class in declaration order. */
  ghost function MembersRand(cs: ClassTable, depth: map<ClassId, nat>, comp: map<ClassId, nat>, c: ClassId,
                             ms: seq<Member>, from: From, tabs: map<nat, string>): Gen
    requires CompOk(cs, depth, comp) && Below(cs, comp, c, ms) && ValidFrom(from)
    decreases comp[c], 0, |ms|, 1
  {
    if ms == [] then NoGen
    else Then(MembersRand(cs, depth, comp, c, ms[..|ms| - 1], from, tabs),
              MemberRand(cs, depth, comp, c, ms[|ms| - 1], from, tabs, |ms|))
  }

  /** One member; `bound` only orders the recursion. */
  ghost function MemberRand(cs: ClassTable, depth: map<ClassId, nat>, comp: map<ClassId, nat>, c: ClassId,
                            m: Member, from: From, tabs: map<nat, string>, bound: nat): Gen
    requires CompOk(cs, depth, comp) && BelowOne(cs, comp, c, m) && ValidFrom(from)
    decreases comp[c], 0, bound, 0
  {
    if !(m.VarMember? && m.isRand) then NoGen
    else
      var ref := CreateRef(m.v, from);
      var d := SkipRef(m.dtype);
      if d.BasicDType? || d.StructDType? then Gen(RandStmts(ref, m.dtype, 0, tabs), [], EnumsOf(m.dtype), {})
      else if d.ClassRefDType? then
        var g := ClassRand(cs, depth, comp, d.cls, FromRef(ref), tabs);
        Gen(g.stmts, g.warnings, g.enums, {d.cls} + g.touched)
      else Gen([], [UnsupportedMember(m.name)], {}, {})
  }

  /** A rand member whose type names an enum is randomized in place by newRandStmtsp, with no warning. */
  lemma RandEnumMemberRand(cs: ClassTable, depth: map<ClassId, nat>, comp: map<ClassId, nat>, c: ClassId,
                           m: Member, from: From, tabs: map<nat, string>, bound: nat)
    requires CompOk(cs, depth, comp) && BelowOne(cs, comp, c, m) && ValidFrom(from)
    requires m.VarMember? && m.isRand && IsEnum(m.dtype)
    ensures MemberRand(cs, depth, comp, c, m, from, tabs, bound) ==
            Gen(RandStmts(CreateRef(m.v, from), m.dtype, 0, tabs), [], EnumsOf(m.dtype), {})
  {
    EnumSkipsToBase(m.dtype);
  }

  // ----- The generated statements depend on nothing the generation changes -----

  /** Every enum of `es` has a table named in `tabs`. */
  predicate Covered(es: set<DType>, tabs: map<nat, string>) {
    forall e :: e in es && e.EnumDType? ==> e.id in tabs
  }

  /** The memo only gains entries: a table once named stays the table of its enum. */
  predicate TabsGrow(tabs: map<nat, string>, tabs': map<nat, string>) {
    forall id :: id in tabs ==> id in tabs' && tabs'[id] == tabs[id]
  }

  lemma CoveredSame(es: set<DType>, tabs: map<nat, string>, tabs': map<nat, string>)
    requires Covered(es, tabs) && TabsGrow(tabs, tabs')
    ensures SameTabs(es, tabs, tabs')
  {
  }

  /** Naming further tables changes nothing already generated. */
  lemma {:induction false} ClassRandTabs(cs: ClassTable, depth: map<ClassId, nat>, comp: map<ClassId, nat>, c: ClassId,
                                         from: From, tabs: map<nat, string>, tabs': map<nat, string>)
    requires CompOk(cs, depth, comp) && c in cs && ValidFrom(from)
    requires Covered(ClassRand(cs, depth, comp, c, from, tabs).enums, tabs) && TabsGrow(tabs, tabs')
    ensures ClassRand(cs, depth, comp, c, from, tabs') == ClassRand(cs, depth, comp, c, from, tabs)
    decreases if c in comp then comp[c] else 0, 2
  {
    var ch := Chain(cs, depth, c);
    assert ch[0] in ch;
    ChainRandTabs(cs, depth, comp, c, ch, from, tabs, tabs');
  }

  lemma {:induction false} ChainRandTabs(cs: ClassTable, depth: map<ClassId, nat>, comp: map<ClassId, nat>, c: ClassId,
                                         ch: seq<ClassId>, from: From, tabs: map<nat, string>, tabs': map<nat, string>)
    requires CompOk(cs, depth, comp) && c in comp && ValidFrom(from)
    requires forall k :: k in ch ==> k in cs && Below(cs, comp, c, cs[k].members)
    requires Covered(ChainRand(cs, depth, comp, c, ch, from, tabs).enums, tabs) && TabsGrow(tabs, tabs')
    ensures ChainRand(cs, depth, comp, c, ch, from, tabs') == ChainRand(cs, depth, comp, c, ch, from, tabs)
    decreases comp[c], 1, |ch|
  {
    if ch != [] {
      ChainRandTabs(cs, depth, comp, c, ch[..|ch| - 1], from, tabs, tabs');
      MembersRandTabs(cs, depth, comp, c, cs[ch[|ch| - 1]].members, from, tabs, tabs');
    }
  }

  lemma {:induction false} MembersRandTabs(cs: ClassTable, depth: map<ClassId, nat>, comp: map<ClassId, nat>, c: ClassId,
                                           ms: seq<Member>, from: From, tabs: map<nat, string>, tabs': map<nat, string>)
    requires CompOk(cs, depth, comp) && Below(cs, comp, c, ms) && ValidFrom(from)
    requires Covered(MembersRand(cs, depth, comp, c, ms, from, tabs).enums, tabs) && TabsGrow(tabs, tabs')
    ensures MembersRand(cs, depth, comp, c, ms, from, tabs') == MembersRand(cs, depth, comp, c, ms, from, tabs)
    decreases comp[c], 0, |ms|, 1
  {
    if ms != [] {
      MembersRandTabs(cs, depth, comp, c, ms[..|ms| - 1], from, tabs, tabs');
      MemberRandTabs(cs, depth, comp, c, ms[|ms| - 1], from, tabs, tabs', |ms|);
    }
  }

  lemma {:induction false} MemberRandTabs(cs: ClassTable, depth: map<ClassId, nat>, comp: map<ClassId, nat>, c: ClassId,
                                          m: Member, from: From, tabs: map<nat, string>, tabs': map<nat, string>, bound: nat)
    requires CompOk(cs, depth, comp) && BelowOne(cs, comp, c, m) && ValidFrom(from)
    requires Covered(MemberRand(cs, depth, comp, c, m, from, tabs, bound).enums, tabs) && TabsGrow(tabs, tabs')
    ensures MemberRand(cs, depth, comp, c, m, from, tabs', bound) == MemberRand(cs, depth, comp, c, m, from, tabs, bound)
    decreases comp[c], 0, bound, 0
  {
    if m.VarMember? && m.isRand {
      var ref := CreateRef(m.v, from);
      var d := SkipRef(m.dtype);
      if d.BasicDType? || d.StructDType? {
        CoveredSame(EnumsOf(m.dtype), tabs, tabs');
        RandStmtsTabs(ref, m.dtype, 0, tabs, tabs');
      } else if d.ClassRefDType? {
        ClassRandTabs(cs, depth, comp, d.cls, FromRef(ref), tabs, tabs');
      }
    }
  }

  /** Functions added to classes, or filled in, inline nothing: acyclic composition survives. */
  lemma CompOkGrown(cs: ClassTable, cs': ClassTable, depth: map<ClassId, nat>, comp: map<ClassId, nat>)
    requires CompOk(cs, depth, comp) && Grown(cs, cs')
    ensures CompOk(cs', depth, comp)
  {
    assert ChainOk(cs', depth) by {
      forall c | c in cs' ensures c in depth && (cs'[c].base.Some? ==> cs'[c].base.value in cs' && cs'[c].base.value in depth && depth[cs'[c].base.value] < depth[c]) {
        assert c in cs && cs[c] == cs[c] && DeclGrown(cs[c], cs'[c]);
      }
    }
    forall c, k | c in cs' && k in Chain(cs', depth, c)
      ensures k in cs' && Below(cs', comp, c, cs'[k].members)
    {
      CompOkGrownOne(cs, cs', depth, comp, c, k);
    }
  }

  lemma CompOkGrownOne(cs: ClassTable, cs': ClassTable, depth: map<ClassId, nat>, comp: map<ClassId, nat>, c: ClassId, k: ClassId)
    requires CompOk(cs, depth, comp) && Grown(cs, cs') && ChainOk(cs', depth)
    requires c in cs' && k in Chain(cs', depth, c)
    ensures k in cs' && Below(cs', comp, c, cs'[k].members)
  {
    GrownChain(cs, cs', depth, c);
    assert k in cs && DeclGrown(cs[k], cs'[k]);
    GrownBelow(cs, cs', comp, c, cs[k].members, cs'[k].members);
  }

  lemma GrownBelow(cs: ClassTable, cs': ClassTable, comp: map<ClassId, nat>, c: ClassId, ms: seq<Member>, ms': seq<Member>)
    requires Below(cs, comp, c, ms) && cs'.Keys == cs.Keys && |ms| <= |ms'|
    requires forall i :: 0 <= i < |ms| ==> Refines(ms[i], ms'[i])
    requires forall i :: |ms| <= i < |ms'| ==> ms'[i].FuncMember?
    ensures Below(cs', comp, c, ms')
  {
    forall i | 0 <= i < |ms'| ensures BelowOne(cs', comp, c, ms'[i]) {
      if i < |ms| {
        assert Refines(ms[i], ms'[i]) && BelowOne(cs, comp, c, ms[i]);
      }
    }
  }

  /** A function member contributes nothing. */
  lemma FuncNoGen(cs: ClassTable, depth: map<ClassId, nat>, comp: map<ClassId, nat>, c: ClassId,
                  m: Member, from: From, tabs: map<nat, string>, bound: nat)
    requires CompOk(cs, depth, comp) && BelowOne(cs, comp, c, m) && ValidFrom(from) && m.FuncMember?
    ensures MemberRand(cs, depth, comp, c, m, from, tabs, bound) == NoGen
  {
  }

  lemma MemberRandRefines(cs: ClassTable, depth: map<ClassId, nat>, comp: map<ClassId, nat>, c: ClassId,
                          m: Member, m': Member, from: From, tabs: map<nat, string>, bound: nat)
    requires CompOk(cs, depth, comp) && BelowOne(cs, comp, c, m) && BelowOne(cs, comp, c, m') && ValidFrom(from)
    requires Refines(m, m')
    ensures MemberRand(cs, depth, comp, c, m', from, tabs, bound) == MemberRand(cs, depth, comp, c, m, from, tabs, bound)
  {
    if m.FuncMember? {
      FuncNoGen(cs, depth, comp, c, m, from, tabs, bound);
      FuncNoGen(cs, depth, comp, c, m', from, tabs, bound);
    }
  }

  /** Members that are functions, old or new, contribute nothing. */
  lemma {:induction false} MembersRandRefined(cs: ClassTable, depth: map<ClassId, nat>, comp: map<ClassId, nat>, c: ClassId,
                                              ms: seq<Member>, ms': seq<Member>, from: From, tabs: map<nat, string>)
    requires CompOk(cs, depth, comp) && Below(cs, comp, c, ms) && Below(cs, comp, c, ms') && ValidFrom(from)
    requires |ms| <= |ms'| && forall i :: 0 <= i < |ms| ==> Refines(ms[i], ms'[i])
    requires forall i :: |ms| <= i < |ms'| ==> ms'[i].FuncMember?
    ensures MembersRand(cs, depth, comp, c, ms', from, tabs) == MembersRand(cs, depth, comp, c, ms, from, tabs)
    decreases |ms'|
  {
    if ms' != [] {
      var n := |ms'| - 1;
      var r' := MembersRand(cs, depth, comp, c, ms'[..n], from, tabs);
      var last' := MemberRand(cs, depth, comp, c, ms'[n], from, tabs, |ms'|);
      assert MembersRand(cs, depth, comp, c, ms', from, tabs) == Then(r', last');
      if n < |ms| {
        var r := MembersRand(cs, depth, comp, c, ms[..n], from, tabs);
        var last := MemberRand(cs, depth, comp, c, ms[n], from, tabs, |ms|);
        assert MembersRand(cs, depth, comp, c, ms, from, tabs) == Then(r, last);
        MembersRandRefined(cs, depth, comp, c, ms[..n], ms'[..n], from, tabs);
        assert Refines(ms[n], ms'[n]);
        MemberRandRefines(cs, depth, comp, c, ms[n], ms'[n], from, tabs, |ms|);
      } else {
        MembersRandRefined(cs, depth, comp, c, ms, ms'[..n], from, tabs);
        FuncNoGen(cs, depth, comp, c, ms'[n], from, tabs, |ms'|);
        ThenNoGen(r');
      }
    }
  }

  /** The generation reads the class table as it was when it started: what it adds changes nothing. */
  lemma {:induction false} ClassRandGrown(cs: ClassTable, cs': ClassTable, depth: map<ClassId, nat>, comp: map<ClassId, nat>,
                                          c: ClassId, from: From, tabs: map<nat, string>)
    requires CompOk(cs, depth, comp) && CompOk(cs', depth, comp) && Grown(cs, cs') && c in cs && ValidFrom(from)
    ensures ClassRand(cs', depth, comp, c, from, tabs) == ClassRand(cs, depth, comp, c, from, tabs)
    decreases if c in comp then comp[c] else 0, 2
  {
    var ch := Chain(cs, depth, c);
    GrownChain(cs, cs', depth, c);
    assert ch[0] in ch;
    ChainRandGrown(cs, cs', depth, comp, c, ch, from, tabs);
  }

  lemma {:induction false} ChainRandGrown(cs: ClassTable, cs': ClassTable, depth: map<ClassId, nat>, comp: map<ClassId, nat>,
                                          c: ClassId, ch: seq<ClassId>, from: From, tabs: map<nat, string>)
    requires CompOk(cs, depth, comp) && CompOk(cs', depth, comp) && Grown(cs, cs') && c in comp && ValidFrom(from)
    requires forall k :: k in ch ==> k in cs && Below(cs, comp, c, cs[k].members) && Below(cs', comp, c, cs'[k].members)
    ensures ChainRand(cs', depth, comp, c, ch, from, tabs) == ChainRand(cs, depth, comp, c, ch, from, tabs)
    decreases comp[c], 1, |ch|
  {
    if ch != [] {
      var k := ch[|ch| - 1];
      assert k in ch;
      ChainRandGrown(cs, cs', depth, comp, c, ch[..|ch| - 1], from, tabs);
      MembersRandGrown(cs, cs', depth, comp, c, cs[k].members, from, tabs);
      assert DeclGrown(cs[k], cs'[k]);
      MembersRandRefined(cs', depth, comp, c, cs[k].members, cs'[k].members, from, tabs);
    }
  }

  lemma {:induction false} MembersRandGrown(cs: ClassTable, cs': ClassTable, depth: map<ClassId, nat>, comp: map<ClassId, nat>,
                                            c: ClassId, ms: seq<Member>, from: From, tabs: map<nat, string>)
    requires CompOk(cs, depth, comp) && CompOk(cs', depth, comp) && Grown(cs, cs') && ValidFrom(from)
    requires Below(cs, comp, c, ms)
    ensures Below(cs', comp, c, ms)
    ensures MembersRand(cs', depth, comp, c, ms, from, tabs) == MembersRand(cs, depth, comp, c, ms, from, tabs)
    decreases comp[c], 0, |ms|, 1
  {
    if ms != [] {
      MembersRandGrown(cs, cs', depth, comp, c, ms[..|ms| - 1], from, tabs);
      MemberRandGrown(cs, cs', depth, comp, c, ms[|ms| - 1], from, tabs, |ms|);
    }
  }

  lemma {:induction false} MemberRandGrown(cs: ClassTable, cs': ClassTable, depth: map<ClassId, nat>, comp: map<ClassId, nat>,
                                           c: ClassId, m: Member, from: From, tabs: map<nat, string>, bound: nat)
    requires CompOk(cs, depth, comp) && CompOk(cs', depth, comp) && Grown(cs, cs') && ValidFrom(from)
    requires BelowOne(cs, comp, c, m)
    ensures BelowOne(cs', comp, c, m)
    ensures MemberRand(cs', depth, comp, c, m, from, tabs, bound) == MemberRand(cs, depth, comp, c, m, from, tabs, bound)
    decreases comp[c], 0, bound, 0
  {
    if m.VarMember? && m.isRand {
      var d := SkipRef(m.dtype);
      if d.ClassRefDType? {
        ClassRandGrown(cs, cs', depth, comp, d.cls, FromRef(CreateRef(m.v, from)), tabs);
      }
    }
  }

  /** The classes a generation declares randomize() in rank strictly below `c`. */
  ghost predicate RankedBelow(comp: map<ClassId, nat>, c: ClassId, touched: set<ClassId>) {
    c in comp && forall t :: t in touched ==> t in comp && comp[t] < comp[c]
  }

  /** Inlining only goes down the composition ranks, so generating `c` never declares randomize() in `c`. */
  lemma {:induction false} ClassRandTouched(cs: ClassTable, depth: map<ClassId, nat>, comp: map<ClassId, nat>, c: ClassId,
                                            from: From, tabs: map<nat, string>)
    requires CompOk(cs, depth, comp) && c in cs && ValidFrom(from)
    ensures RankedBelow(comp, c, ClassRand(cs, depth, comp, c, from, tabs).touched)
    ensures c !in ClassRand(cs, depth, comp, c, from, tabs).touched
    decreases if c in comp then comp[c] else 0, 2
  {
    var ch := Chain(cs, depth, c);
    assert ch[0] in ch;
    ChainRandTouched(cs, depth, comp, c, ch, from, tabs);
  }

  lemma {:induction false} ChainRandTouched(cs: ClassTable, depth: map<ClassId, nat>, comp: map<ClassId, nat>, c: ClassId,
                                            ch: seq<ClassId>, from: From, tabs: map<nat, string>)
    requires CompOk(cs, depth, comp) && c in comp && ValidFrom(from)
    requires forall k :: k in ch ==> k in cs && Below(cs, comp, c, cs[k].members)
    ensures RankedBelow(comp, c, ChainRand(cs, depth, comp, c, ch, from, tabs).touched)
    decreases comp[c], 1, |ch|
  {
    if ch != [] {
      ChainRandTouched(cs, depth, comp, c, ch[..|ch| - 1], from, tabs);
      MembersRandTouched(cs, depth, comp, c, cs[ch[|ch| - 1]].members, from, tabs);
    }
  }

  lemma {:induction false} MembersRandTouched(cs: ClassTable, depth: map<ClassId, nat>, comp: map<ClassId, nat>, c: ClassId,
                                              ms: seq<Member>, from: From, tabs: map<nat, string>)
    requires CompOk(cs, depth, comp) && Below(cs, comp, c, ms) && ValidFrom(from)
    ensures RankedBelow(comp, c, MembersRand(cs, depth, comp, c, ms, from, tabs).touched)
    decreases comp[c], 0, |ms|, 1
  {
    if ms != [] {
      MembersRandTouched(cs, depth, comp, c, ms[..|ms| - 1], from, tabs);
      MemberRandTouched(cs, depth, comp, c, ms[|ms| - 1], from, tabs, |ms|);
    }
  }

  lemma {:induction false} MemberRandTouched(cs: ClassTable, depth: map<ClassId, nat>, comp: map<ClassId, nat>, c: ClassId,
                                             m: Member, from: From, tabs: map<nat, string>, bound: nat)
    requires CompOk(cs, depth, comp) && BelowOne(cs, comp, c, m) && ValidFrom(from)
    ensures RankedBelow(comp, c, MemberRand(cs, depth, comp, c, m, from, tabs, bound).touched)
    decreases comp[c], 0, bound, 0
  {
    if m.VarMember? && m.isRand {
      var d := SkipRef(m.dtype);
      if d.ClassRefDType? {
        ClassRandTouched(cs, depth, comp, d.cls, FromRef(CreateRef(m.v, from)), tabs);
      }
    }
  }

  // ----- What the generation emits, member by member -----

  /** A statement or a warning emitted by newClassRandStmtsp. */
  datatype Item = Emits(s: Stmt) | Warns(w: Warning)

  function Items(g: Gen): set<Item> {
    (set s | s in g.stmts :: Emits(s)) + (set w | w in g.warnings :: Warns(w))
  }

  lemma ItemsThen(a: Gen, b: Gen)
    ensures Items(Then(a, b)) == Items(a) + Items(b)
  {
  }

  /**
   * What a member emits by itself, the classes it inlines apart: the leaf
   * assignments of a rand member of basic, enum or struct type, one warning
   * for a rand member of any other type but a class handle, nothing else.
   */
  function Own(m: Member, from: From, tabs: map<nat, string>): set<Item>
    requires ValidFrom(from)
  {
    if !(m.VarMember? && m.isRand) then {}
    else
      var d := SkipRef(m.dtype);
      if d.BasicDType? || d.StructDType? then (set s | s in RandStmts(CreateRef(m.v, from), m.dtype, 0, tabs) :: Emits(s))
      else if d.ClassRefDType? then {}
      else {Warns(UnsupportedMember(m.name))}
  }

  /** The reference a class reached through rand handle `m` is randomized through. */
  function Via(m: Member, from: From): (r: From)
    requires m.VarMember? && ValidFrom(from)
    ensures ValidFrom(r)
  {
    FromRef(CreateRef(m.v, from))
  }

  /** m is a member of c or of one of its ancestors. */
  ghost predicate InChain(cs: ClassTable, depth: map<ClassId, nat>, c: ClassId, m: Member)
    requires ChainOk(cs, depth) && c in cs
  {
    exists k :: k in Chain(cs, depth, c) && k in cs && m in cs[k].members
  }

  /**
   * Following the rand handles of `path` from class c, randomized through
   * `from`, leads to a class having m in its chain, randomized through `at`.
   */
  ghost predicate Reaches(cs: ClassTable, depth: map<ClassId, nat>, c: ClassId, from: From,
                          path: seq<Member>, m: Member, at: From)
    requires ChainOk(cs, depth) && c in cs && ValidFrom(from)
    decreases |path|
  {
    if path == [] then InChain(cs, depth, c, m) && at == from
    else
      InChain(cs, depth, c, path[0]) && Composed(path[0]).Some? && Composed(path[0]).value in cs &&
      Reaches(cs, depth, Composed(path[0]).value, Via(path[0], from), path[1..], m, at)
  }

  /** Some member reached from c through rand handles emits x by itself. */
  ghost predicate Emitted(cs: ClassTable, depth: map<ClassId, nat>, c: ClassId, from: From, tabs: map<nat, string>, x: Item)
    requires ChainOk(cs, depth) && c in cs && ValidFrom(from)
  {
    exists path, m, at :: Reaches(cs, depth, c, from, path, m, at) && ValidFrom(at) && x in Own(m, at, tabs)
  }

  /** x comes from member m: it emits x itself, or x comes from the class it inlines. */
  ghost predicate MemberHas(cs: ClassTable, depth: map<ClassId, nat>, comp: map<ClassId, nat>, m: Member,
                            from: From, tabs: map<nat, string>, x: Item)
    requires CompOk(cs, depth, comp) && ValidFrom(from)
  {
    x in Own(m, from, tabs) ||
    (Composed(m).Some? && Composed(m).value in cs &&
     x in Items(ClassRand(cs, depth, comp, Composed(m).value, Via(m, from), tabs)))
  }

  lemma MemberRandItems(cs: ClassTable, depth: map<ClassId, nat>, comp: map<ClassId, nat>, c: ClassId,
                        m: Member, from: From, tabs: map<nat, string>, bound: nat, x: Item)
    requires CompOk(cs, depth, comp) && BelowOne(cs, comp, c, m) && ValidFrom(from)
    ensures x in Items(MemberRand(cs, depth, comp, c, m, from, tabs, bound)) <==> MemberHas(cs, depth, comp, m, from, tabs, x)
  {
  }

  lemma {:induction false} MembersRandItems(cs: ClassTable, depth: map<ClassId, nat>, comp: map<ClassId, nat>, c: ClassId,
                                            ms: seq<Member>, from: From, tabs: map<nat, string>, x: Item)
    requires CompOk(cs, depth, comp) && Below(cs, comp, c, ms) && ValidFrom(from)
    ensures x in Items(MembersRand(cs, depth, comp, c, ms, from, tabs)) <==>
            exists m :: m in ms && MemberHas(cs, depth, comp, m, from, tabs, x)
    decreases |ms|
  {
    if ms != [] {
      var n := |ms| - 1;
      MembersRandItems(cs, depth, comp, c, ms[..n], from, tabs, x);
      MemberRandItems(cs, depth, comp, c, ms[n], from, tabs, |ms|, x);
      ItemsThen(MembersRand(cs, depth, comp, c, ms[..n], from, tabs), MemberRand(cs, depth, comp, c, ms[n], from, tabs, |ms|));
      assert ms == ms[..n] + [ms[n]];
    }
  }

  lemma {:induction false} ChainRandItems(cs: ClassTable, depth: map<ClassId, nat>, comp: map<ClassId, nat>, c: ClassId,
                                          ch: seq<ClassId>, from: From, tabs: map<nat, string>, x: Item)
    requires CompOk(cs, depth, comp) && c in comp && ValidFrom(from)
    requires forall k :: k in ch ==> k in cs && Below(cs, comp, c, cs[k].members)
    ensures x in Items(ChainRand(cs, depth, comp, c, ch, from, tabs)) <==>
            exists k, m :: k in ch && k in cs && m in cs[k].members && MemberHas(cs, depth, comp, m, from, tabs, x)
    decreases |ch|
  {
    if ch != [] {
      var n := |ch| - 1;
      assert ch[n] in ch;
      ChainRandItems(cs, depth, comp, c, ch[..n], from, tabs, x);
      MembersRandItems(cs, depth, comp, c, cs[ch[n]].members, from, tabs, x);
      ItemsThen(ChainRand(cs, depth, comp, c, ch[..n], from, tabs), MembersRand(cs, depth, comp, c, cs[ch[n]].members, from, tabs));
      assert ch == ch[..n] + [ch[n]];
    }
  }

  /** One level of the generation: x comes from some member of c or of its ancestors. */
  lemma ClassRandItems(cs: ClassTable, depth: map<ClassId, nat>, comp: map<ClassId, nat>, c: ClassId,
                       from: From, tabs: map<nat, string>, x: Item)
    requires CompOk(cs, depth, comp) && c in cs && ValidFrom(from)
    ensures x in Items(ClassRand(cs, depth, comp, c, from, tabs)) <==>
            exists m :: InChain(cs, depth, c, m) && MemberHas(cs, depth, comp, m, from, tabs, x)
  {
    var ch := Chain(cs, depth, c);
    assert ch[0] in ch;
    ChainRandItems(cs, depth, comp, c, ch, from, tabs, x);
  }

  /** A member of c's chain inlines only a class declared and ranked below c. */
  lemma InChainBelow(cs: ClassTable, depth: map<ClassId, nat>, comp: map<ClassId, nat>, c: ClassId, m: Member)
    requires CompOk(cs, depth, comp) && c in cs && InChain(cs, depth, c, m)
    ensures BelowOne(cs, comp, c, m)
  {
    var k :| k in Chain(cs, depth, c) && k in cs && m in cs[k].members;
    var i :| 0 <= i < |cs[k].members| && cs[k].members[i] == m;
    assert Below(cs, comp, c, cs[k].members);
  }

  /**
   * newClassRandStmtsp(c, from) flattened: a statement or warning is emitted
   * exactly when some member reached from c, through its ancestors and the
   * rand handles of `path`, emits it by itself, through the reference the
   * nested createRefs build.
   */
  lemma {:induction false} ClassRandMeaning(cs: ClassTable, depth: map<ClassId, nat>, comp: map<ClassId, nat>, c: ClassId,
                                            from: From, tabs: map<nat, string>, x: Item)
    requires CompOk(cs, depth, comp) && c in cs && ValidFrom(from)
    ensures x in Items(ClassRand(cs, depth, comp, c, from, tabs)) <==> Emitted(cs, depth, c, from, tabs, x)
    decreases if c in comp then comp[c] else 0
  {
    ClassRandItems(cs, depth, comp, c, from, tabs, x);
    if x in Items(ClassRand(cs, depth, comp, c, from, tabs)) {
      var m :| InChain(cs, depth, c, m) && MemberHas(cs, depth, comp, m, from, tabs, x);
      if x in Own(m, from, tabs) {
        assert Reaches(cs, depth, c, from, [], m, from);
      } else {
        InChainBelow(cs, depth, comp, c, m);
        var u := Composed(m).value;
        ClassRandMeaning(cs, depth, comp, u, Via(m, from), tabs, x);
        var path, m', at :| Reaches(cs, depth, u, Via(m, from), path, m', at) && ValidFrom(at) && x in Own(m', at, tabs);
        assert ([m] + path)[0] == m && ([m] + path)[1..] == path;
        assert Reaches(cs, depth, c, from, [m] + path, m', at);
      }
    }
    if Emitted(cs, depth, c, from, tabs, x) {
      var path, m', at :| Reaches(cs, depth, c, from, path, m', at) && ValidFrom(at) && x in Own(m', at, tabs);
      if path == [] {
        assert MemberHas(cs, depth, comp, m', from, tabs, x);
      } else {
        var m := path[0];
        InChainBelow(cs, depth, comp, c, m);
        var u := Composed(m).value;
        assert Reaches(cs, depth, u, Via(m, from), path[1..], m', at);
        ClassRandMeaning(cs, depth, comp, u, Via(m, from), tabs, x);
        assert MemberHas(cs, depth, comp, m, from, tabs, x);
      }
    }
  }

  /** st assigns a leaf of rand member m, of basic, enum or struct type, through the reference createRef(m, at). */
  ghost predicate LeafOf(m: Member, at: From, tabs: map<nat, string>, st: Stmt)
    requires ValidFrom(at)
  {
    m.VarMember? && m.isRand && (SkipRef(m.dtype).BasicDType? || SkipRef(m.dtype).StructDType?) &&
    exists p :: Follow(m.dtype, p).Some? && IsLeaf(Follow(m.dtype, p).value.dtype) &&
                st == LeafAssign(CreateRef(m.v, at), Follow(m.dtype, p).value.lsb, Follow(m.dtype, p).value.dtype, tabs)
  }

  /** A rand member newClassRandStmtsp cannot randomize: after typedefs, neither basic, struct nor class handle. */
  predicate Unsupported(m: Member) {
    m.VarMember? && m.isRand &&
    !(SkipRef(m.dtype).BasicDType? || SkipRef(m.dtype).StructDType? || SkipRef(m.dtype).ClassRefDType?)
  }

  lemma OwnStmt(m: Member, at: From, tabs: map<nat, string>, st: Stmt)
    requires ValidFrom(at)
    ensures Emits(st) in Own(m, at, tabs) <==> LeafOf(m, at, tabs, st)
  {
    if m.VarMember? && m.isRand && (SkipRef(m.dtype).BasicDType? || SkipRef(m.dtype).StructDType?) {
      var r := CreateRef(m.v, at);
      if st in RandStmts(r, m.dtype, 0, tabs) {
        RandStmtsSound(r, m.dtype, 0, tabs, st);
      }
      if LeafOf(m, at, tabs, st) {
        var p :| Follow(m.dtype, p).Some? && IsLeaf(Follow(m.dtype, p).value.dtype) &&
                 st == LeafAssign(r, Follow(m.dtype, p).value.lsb, Follow(m.dtype, p).value.dtype, tabs);
        RandStmtsComplete(r, m.dtype, 0, tabs, p);
      }
    }
  }

  lemma OwnWarn(m: Member, at: From, tabs: map<nat, string>, w: Warning)
    requires ValidFrom(at)
    ensures Warns(w) in Own(m, at, tabs) <==> Unsupported(m) && w == UnsupportedMember(m.name)
  {
  }

  /** Some member reached from c emits the leaf assignment st. */
  ghost predicate LeafReached(cs: ClassTable, depth: map<ClassId, nat>, c: ClassId, from: From, tabs: map<nat, string>, st: Stmt)
    requires ChainOk(cs, depth) && c in cs && ValidFrom(from)
  {
    exists path, m, at :: Reaches(cs, depth, c, from, path, m, at) && ValidFrom(at) && LeafOf(m, at, tabs, st)
  }

  /** Some unsupported rand member reached from c is named by w. */
  ghost predicate UnsupportedReached(cs: ClassTable, depth: map<ClassId, nat>, c: ClassId, from: From, w: Warning)
    requires ChainOk(cs, depth) && c in cs && ValidFrom(from)
  {
    exists path, m, at :: Reaches(cs, depth, c, from, path, m, at) && Unsupported(m) && w == UnsupportedMember(m.name)
  }

  lemma EmittedLeaf(cs: ClassTable, depth: map<ClassId, nat>, c: ClassId, from: From, tabs: map<nat, string>, st: Stmt)
    requires ChainOk(cs, depth) && c in cs && ValidFrom(from)
    ensures Emitted(cs, depth, c, from, tabs, Emits(st)) <==> LeafReached(cs, depth, c, from, tabs, st)
  {
    if Emitted(cs, depth, c, from, tabs, Emits(st)) {
      var path, m, at :| Reaches(cs, depth, c, from, path, m, at) && ValidFrom(at) && Emits(st) in Own(m, at, tabs);
      OwnStmt(m, at, tabs, st);
    }
    if LeafReached(cs, depth, c, from, tabs, st) {
      var path, m, at :| Reaches(cs, depth, c, from, path, m, at) && ValidFrom(at) && LeafOf(m, at, tabs, st);
      OwnStmt(m, at, tabs, st);
    }
  }

  lemma EmittedWarning(cs: ClassTable, depth: map<ClassId, nat>, c: ClassId, from: From, tabs: map<nat, string>, w: Warning)
    requires ChainOk(cs, depth) && c in cs && ValidFrom(from)
    ensures Emitted(cs, depth, c, from, tabs, Warns(w)) <==> UnsupportedReached(cs, depth, c, from, w)
  {
    if Emitted(cs, depth, c, from, tabs, Warns(w)) {
      var path, m, at :| Reaches(cs, depth, c, from, path, m, at) && ValidFrom(at) && Warns(w) in Own(m, at, tabs);
      OwnWarn(m, at, tabs, w);
    }
    if UnsupportedReached(cs, depth, c, from, w) {
      var path, m, at :| Reaches(cs, depth, c, from, path, m, at) && Unsupported(m) && w == UnsupportedMember(m.name);
      ReachesValid(cs, depth, c, from, path, m, at);
      OwnWarn(m, at, tabs, w);
    }
  }

  /**
   * The statements of newClassRandStmtsp(c, from) are exactly the leaf
   * assignments of the rand basic, enum and struct members reached from c
   * through its ancestors and rand handles, each through its nested reference.
   */
  lemma ClassRandStmts(cs: ClassTable, depth: map<ClassId, nat>, comp: map<ClassId, nat>, c: ClassId,
                       from: From, tabs: map<nat, string>, st: Stmt)
    requires CompOk(cs, depth, comp) && c in cs && ValidFrom(from)
    ensures st in ClassRand(cs, depth, comp, c, from, tabs).stmts <==> LeafReached(cs, depth, c, from, tabs, st)
  {
    var g := ClassRand(cs, depth, comp, c, from, tabs);
    ClassRandMeaning(cs, depth, comp, c, from, tabs, Emits(st));
    EmittedLeaf(cs, depth, c, from, tabs, st);
    assert st in g.stmts <==> Emits(st) in Items(g);
  }

  /** The warnings of newClassRandStmtsp(c, from) name exactly the unsupported rand members reached from c. */
  lemma ClassRandWarnings(cs: ClassTable, depth: map<ClassId, nat>, comp: map<ClassId, nat>, c: ClassId,
                          from: From, tabs: map<nat, string>, w: Warning)
    requires CompOk(cs, depth, comp) && c in cs && ValidFrom(from)
    ensures w in ClassRand(cs, depth, comp, c, from, tabs).warnings <==> UnsupportedReached(cs, depth, c, from, w)
  {
    var g := ClassRand(cs, depth, comp, c, from, tabs);
    ClassRandMeaning(cs, depth, comp, c, from, tabs, Warns(w));
    EmittedWarning(cs, depth, c, from, tabs, w);
    assert w in g.warnings <==> Warns(w) in Items(g);
  }

  lemma {:induction false} ReachesValid(cs: ClassTable, depth: map<ClassId, nat>, c: ClassId, from: From,
                                        path: seq<Member>, m: Member, at: From)
    requires ChainOk(cs, depth) && c in cs && ValidFrom(from) && Reaches(cs, depth, c, from, path, m, at)
    ensures ValidFrom(at)
    decreases |path|
  {
    if path != [] {
      ReachesValid(cs, depth, Composed(path[0]).value, Via(path[0], from), path[1..], m, at);
    }
  }
}
