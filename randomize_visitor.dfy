/**
 * RandomizeVisitor (src/V3Randomize.cpp): defines randomize() for every
 * marked class and turns each `obj.randomize() with {...}` into a call of a
 * generated helper function.
 *
 * The visitor keeps the state the pass keeps: the class table it adds
 * methods to, the marks left by the marking pass, the enum value tables it
 * has made (memoized per enum, numbered in creation order), the counters of
 * tables, helpers and temporaries, the warnings it reports, and one
 * constraint multiset that visits fold into and reset.
 */
module RandomizeSynth {
  import opened Wrappers
  import opened Bits
  import opened GenAst
  import opened ConstraintExpr
  import opened ConstraintSets
  import opened MultisetCodegen
  import opened ConstraintMultisets
  import opened Classes
  import opened RandomizeLayout
  import opened RandomizeFunc
  import opened RandomizeSynthSpec
  import M = RandomizeMark

  /** Every enum reached has at least one item (the "Enum without items" assertion). */
  ghost predicate ItemsOk(es: set<DType>) {
    forall e :: e in es ==> e.EnumDType? && |e.items| >= 1
  }

  /** The enums of every variable member's type have items. */
  ghost predicate EnumsHaveItems(cs: ClassTable) {
    forall c, i {:trigger ItemsOk(EnumsOf(cs[c].members[i].dtype))} :: c in cs && 0 <= i < |cs[c].members| && cs[c].members[i].VarMember? ==>
      ItemsOk(EnumsOf(cs[c].members[i].dtype))
  }

  /** What the visitor needs of the class table; adding or filling in functions keeps it. */
  ghost predicate TableOk(cs: ClassTable, depth: map<ClassId, nat>, comp: map<ClassId, nat>) {
    CompOk(cs, depth, comp) && ClassesFit(cs) && EnumsHaveItems(cs)
  }

  lemma TableOkGrown(cs: ClassTable, cs': ClassTable, depth: map<ClassId, nat>, comp: map<ClassId, nat>)
    requires TableOk(cs, depth, comp) && Grown(cs, cs')
    ensures TableOk(cs', depth, comp)
  {
    CompOkGrown(cs, cs', depth, comp);
    forall c | c in cs' ensures MembersFit(cs'[c].members) {
      var ms, ms' := cs[c].members, cs'[c].members;
      assert MembersFit(ms) && DeclGrown(cs[c], cs'[c]);
      forall i | 0 <= i < |ms'| && ms'[i].ConstraintMember? ensures CondsFit(ms'[i].conds) {
        assert i < |ms| && Refines(ms[i], ms'[i]);
      }
    }
    forall c, i | c in cs' && 0 <= i < |cs'[c].members| && cs'[c].members[i].VarMember?
      ensures ItemsOk(EnumsOf(cs'[c].members[i].dtype))
    {
      assert DeclGrown(cs[c], cs'[c]);
      assert i < |cs[c].members| && Refines(cs[c].members[i], cs'[c].members[i]);
    }
  }

  /** One more member of a struct, generated after the tables grew. */
  lemma MemberStep(r: Ref, s: DType, i: nat, off: nat, before: map<nat, string>, after: map<nat, string>)
    requires s.StructDType? && i < |s.members|
    requires Covered(MemberEnums(s, i), before) && TabsGrow(before, after)
    requires Covered(EnumsOf(s.members[i].dtype), after)
    ensures Covered(MemberEnums(s, i + 1), after)
    ensures MemberStmts(r, s, i + 1, off, after) ==
            MemberStmts(r, s, i, off, before) + RandStmts(r, s.members[i].dtype, off + s.members[i].lsb, after)
  {
    CoveredSame(MemberEnums(s, i), before, after);
    MemberStmtsTabs(r, s, i, off, before, after);
  }

  /**
   * `stmts` and the warnings added since `w0` are what `g` generates, the
   * tables of its enums are named in `tabs`, and of the classes only those
   * of `g.touched` changed, each now declaring randomize().
   */
  ghost predicate Produced(g: Gen, stmts: seq<Stmt>, w0: seq<Warning>, w: seq<Warning>, tabs: map<nat, string>,
                           cs0: ClassTable, cs: ClassTable) {
    stmts == g.stmts && w == w0 + g.warnings && Covered(g.enums, tabs) && TouchedOnly(cs0, cs, g.touched)
  }

  /** Generating one part after another generates both. */
  lemma ProducedThen(g1: Gen, g2: Gen, s1: seq<Stmt>, s2: seq<Stmt>, w0: seq<Warning>, w1: seq<Warning>, w2: seq<Warning>,
                     tabs1: map<nat, string>, tabs2: map<nat, string>, cs0: ClassTable, cs1: ClassTable, cs2: ClassTable)
    requires Produced(g1, s1, w0, w1, tabs1, cs0, cs1) && Produced(g2, s2, w1, w2, tabs2, cs1, cs2)
    requires TabsGrow(tabs1, tabs2) && Grown(cs1, cs2)
    ensures Produced(Then(g1, g2), s1 + s2, w0, w2, tabs2, cs0, cs2)
  {
    assert w2 == w0 + (g1.warnings + g2.warnings);
    TouchedThen(cs0, cs1, cs2, g1.touched, g2.touched);
  }

  /** What a rand class handle contributes. */
  lemma HandleGen(base: ClassTable, depth: map<ClassId, nat>, comp: map<ClassId, nat>, c: ClassId,
                  m: Member, from: From, tabs: map<nat, string>, bound: nat)
    requires CompOk(base, depth, comp) && BelowOne(base, comp, c, m) && ValidFrom(from)
    requires m.VarMember? && m.isRand && SkipRef(m.dtype).ClassRefDType?
    ensures var t := SkipRef(m.dtype).cls;
            var g := ClassRand(base, depth, comp, t, FromRef(CreateRef(m.v, from)), tabs);
            MemberRand(base, depth, comp, c, m, from, tabs, bound) == Gen(g.stmts, g.warnings, g.enums, {t} + g.touched)
  {
  }

  lemma GrownRefl(cs: ClassTable)
    ensures Grown(cs, cs) && TouchedOnly(cs, cs, {})
  {
  }

  /** Only the classes of `touched` differ, and each of them now declares randomize(). */
  ghost predicate TouchedOnly(cs: ClassTable, cs': ClassTable, touched: set<ClassId>) {
    (forall t :: t in touched ==> t in cs' && Declares(cs'[t])) &&
    (forall t :: t in cs' && t !in touched ==> t in cs && cs'[t] == cs[t])
  }

  lemma TouchedThen(cs0: ClassTable, cs1: ClassTable, cs2: ClassTable, a: set<ClassId>, b: set<ClassId>)
    requires TouchedOnly(cs0, cs1, a) && TouchedOnly(cs1, cs2, b) && Grown(cs1, cs2)
    ensures TouchedOnly(cs0, cs2, a + b)
  {
    forall t | t in a ensures t in cs2 && Declares(cs2[t]) {
      DeclaresGrown(cs1[t], cs2[t]);
    }
  }

  lemma DeclaresAfterCreate(cs: ClassTable, cs': ClassTable, t: ClassId)
    requires t in cs && Grown(cs, cs')
    requires exists i :: 0 <= i < |cs[t].members| && cs[t].members[i].FuncMember? && cs[t].members[i].f.name == RandomizeName
    ensures Declares(cs'[t])
  {
    DeclaresGrown(cs[t], cs'[t]);
  }

  /** One more class of the chain, generated after the tables grew. */
  lemma ChainStep(base: ClassTable, depth: map<ClassId, nat>, comp: map<ClassId, nat>, c: ClassId, ch: seq<ClassId>, i: nat,
                  from: From, before: map<nat, string>, after: map<nat, string>)
    requires CompOk(base, depth, comp) && c in comp && ValidFrom(from) && i < |ch|
    requires forall k :: k in ch ==> k in base && Below(base, comp, c, base[k].members)
    requires Covered(ChainRand(base, depth, comp, c, ch[..i], from, before).enums, before) && TabsGrow(before, after)
    ensures forall k :: k in ch[..i + 1] ==> k in base && Below(base, comp, c, base[k].members)
    ensures ChainRand(base, depth, comp, c, ch[..i + 1], from, after) ==
            Then(ChainRand(base, depth, comp, c, ch[..i], from, before), MembersRand(base, depth, comp, c, base[ch[i]].members, from, after))
  {
    assert ch[..i + 1][..i] == ch[..i];
    ChainRandTabs(base, depth, comp, c, ch[..i], from, before, after);
  }

  /** One more member, generated after the tables grew. */
  lemma MembersStep(base: ClassTable, depth: map<ClassId, nat>, comp: map<ClassId, nat>, c: ClassId, ms: seq<Member>, j: nat,
                    from: From, before: map<nat, string>, after: map<nat, string>)
    requires CompOk(base, depth, comp) && Below(base, comp, c, ms) && ValidFrom(from) && j < |ms|
    requires Covered(MembersRand(base, depth, comp, c, ms[..j], from, before).enums, before) && TabsGrow(before, after)
    ensures Below(base, comp, c, ms[..j]) && Below(base, comp, c, ms[..j + 1])
    ensures MembersRand(base, depth, comp, c, ms[..j + 1], from, after) ==
            Then(MembersRand(base, depth, comp, c, ms[..j], from, before), MemberRand(base, depth, comp, c, ms[j], from, after, j + 1))
  {
    assert ms[..j + 1][..j] == ms[..j];
    MembersRandTabs(base, depth, comp, c, ms[..j], from, before, after);
  }

  /** Nothing generated yet. */
  lemma MembersNil(base: ClassTable, depth: map<ClassId, nat>, comp: map<ClassId, nat>, c: ClassId, ms: seq<Member>,
                   from: From, tabs: map<nat, string>, w: seq<Warning>, cs: ClassTable)
    requires CompOk(base, depth, comp) && Below(base, comp, c, ms) && ValidFrom(from)
    ensures Below(base, comp, c, ms[..0])
    ensures Produced(MembersRand(base, depth, comp, c, ms[..0], from, tabs), [], w, w, tabs, cs, cs)
  {
    assert ms[..0] == [];
  }

  lemma ChainNil(base: ClassTable, depth: map<ClassId, nat>, comp: map<ClassId, nat>, c: ClassId, ch: seq<ClassId>,
                 from: From, tabs: map<nat, string>, w: seq<Warning>, cs: ClassTable)
    requires CompOk(base, depth, comp) && c in comp && ValidFrom(from)
    requires forall k :: k in ch ==> k in base && Below(base, comp, c, base[k].members)
    ensures ch[..0] == []
    ensures Produced(ChainRand(base, depth, comp, c, ch[..0], from, tabs), [], w, w, tabs, cs, cs)
  {
    assert ch[..0] == [];
  }

  /** Everything generated. */
  lemma MembersDone(base: ClassTable, depth: map<ClassId, nat>, comp: map<ClassId, nat>, c: ClassId, ms: seq<Member>,
                    j: nat, from: From, tabs: map<nat, string>)
    requires CompOk(base, depth, comp) && Below(base, comp, c, ms) && ValidFrom(from) && j == |ms|
    ensures Below(base, comp, c, ms[..j])
    ensures MembersRand(base, depth, comp, c, ms[..j], from, tabs) == MembersRand(base, depth, comp, c, ms, from, tabs)
  {
    assert ms[..j] == ms;
  }

  lemma ChainDone(base: ClassTable, depth: map<ClassId, nat>, comp: map<ClassId, nat>, c: ClassId, ch: seq<ClassId>,
                  i: nat, from: From, tabs: map<nat, string>)
    requires CompOk(base, depth, comp) && c in comp && ValidFrom(from) && i == |ch|
    requires forall k :: k in ch ==> k in base && Below(base, comp, c, base[k].members)
    ensures forall k :: k in ch[..i] ==> k in base && Below(base, comp, c, base[k].members)
    ensures ChainRand(base, depth, comp, c, ch[..i], from, tabs) == ChainRand(base, depth, comp, c, ch, from, tabs)
  {
    assert ch[..i] == ch;
  }

  /** The members of a class read now give what they gave when the generation began. */
  lemma MembersSnapshot(base: ClassTable, cs: ClassTable, depth: map<ClassId, nat>, comp: map<ClassId, nat>,
                        c: ClassId, k: ClassId, from: From, tabs: map<nat, string>)
    requires TableOk(base, depth, comp) && TableOk(cs, depth, comp) && Grown(base, cs) && ValidFrom(from)
    requires c in base && k in Chain(base, depth, c)
    ensures k in base && k in cs && Below(base, comp, c, base[k].members) && Below(base, comp, c, cs[k].members)
    ensures MembersRand(base, depth, comp, c, cs[k].members, from, tabs) ==
            MembersRand(base, depth, comp, c, base[k].members, from, tabs)
  {
    GrownChain(base, cs, depth, c);
    assert Below(cs, comp, c, cs[k].members);
    assert DeclGrown(base[k], cs[k]);
    MembersRandRefined(base, depth, comp, c, base[k].members, cs[k].members, from, tabs);
  }

  /** A member of the snapshot inlines only lower classes and its enums have items. */
  lemma SnapshotMember(base: ClassTable, cs: ClassTable, depth: map<ClassId, nat>, comp: map<ClassId, nat>,
                       c: ClassId, k: ClassId, ms: seq<Member>, j: nat)
    requires TableOk(base, depth, comp) && TableOk(cs, depth, comp) && Grown(base, cs)
    requires c in base && k in Chain(base, depth, c) && k in cs && ms == cs[k].members && j < |ms|
    requires Below(base, comp, c, ms)
    ensures BelowOne(base, comp, c, ms[j]) && (ms[j].VarMember? ==> ItemsOk(EnumsOf(ms[j].dtype)))
  {
  }

  /** Table k for each k not yet used is not there. */
  ghost predicate FreshTabs(tables: map<string, seq<nat>>, count: nat) {
    forall k: nat :: k >= count ==> TabName(k) !in tables
  }

  // ----- Defining randomize() and rewriting calls -----

  /** addConstraints of a class folded into `sets`: the class's constraints, then each ancestor's. */
  ghost function ClassFold(sets: seq<ConstraintSet>, cs: ClassTable, depth: map<ClassId, nat>, c: ClassId): (r: Folded)
    requires AllWellFormed(sets) && ChainOk(cs, depth) && c in cs && ClassesFit(cs)
    ensures AllWellFormed(r.sets)
  {
    ClassCondsFit(cs, depth, Chain(cs, depth, c));
    FoldAllWellFormed(sets, ClassConds(cs, depth, Chain(cs, depth, c)));
    FoldAll(sets, ClassConds(cs, depth, Chain(cs, depth, c)))
  }

  /** addConstraints of a call's pins folded into `sets`. */
  ghost function PinsFold(sets: seq<ConstraintSet>, pins: seq<Member>): (r: Folded)
    requires AllWellFormed(sets) && MembersFit(pins)
    ensures AllWellFormed(r.sets)
  {
    CondsOfFit(pins);
    FoldAllWellFormed(sets, CondsOf(pins));
    FoldAll(sets, CondsOf(pins))
  }

  /** What follows the members in a generated method: the constraints applied, then the return variable set to the check. */
  function ApplyThenReturn(sets: seq<ConstraintSet>, from: From, varCnt: nat, ret: string): seq<Stmt>
    requires AllWellFormed(sets) && ValidFrom(from)
  {
    ApplyMulti(sets, from, varCnt).stmts + [Assign(Whole(LocalRef(ret)), CheckMulti(sets, from))]
  }

  /** Class `d` after its randomize() is found or created and `more` is appended to it. */
  function DefinedIn(d: ClassDecl, more: seq<Stmt>): ClassDecl {
    FindOrCreate(d, d.extended);
    AppendBody(WithRandomize(d, d.extended), RandomizeSlot(d), more)
  }

  /**
   * funcp->addStmtsp on a class's randomize(): the table keeps what the
   * visitor needs of it, grows, and still differs from `cs0` only in the
   * `touched` classes, the filled one among them.
   */
  lemma FillKeeps(cs0: ClassTable, cs: ClassTable, depth: map<ClassId, nat>, comp: map<ClassId, nat>, c: ClassId,
                  slot: nat, more: seq<Stmt>, touched: set<ClassId>)
    requires TableOk(cs, depth, comp) && c in cs
    requires slot < |cs[c].members| && cs[c].members[slot].FuncMember? && cs[c].members[slot].f.name == RandomizeName
    requires Grown(cs0, cs) && TouchedOnly(cs0, cs, touched) && c in touched
    ensures var cs' := cs[c := AppendBody(cs[c], slot, more)];
            TableOk(cs', depth, comp) && Grown(cs, cs') && Grown(cs0, cs') && TouchedOnly(cs0, cs', touched)
  {
    var d := cs[c];
    var d' := AppendBody(d, slot, more);
    var cs' := cs[c := d'];
    FillGrown(d, slot, d'.members[slot].f);
    assert d' == ClassDecl(d.base, d.extended, d.members[slot := d'.members[slot]]);
    TableOkGrown(cs, cs', depth, comp);
    GrownTrans(cs0, cs, cs');
    assert cs'[c].members[slot].FuncMember? && cs'[c].members[slot].f.name == RandomizeName;
  }

  /** Pinned `randomize` calls: those the call visitor rewrites. */
  predicate Pinned(name: string, pins: seq<Member>) {
    name == RandomizeName && pins != []
  }

  /**
   * What the call visitor assumes of the subtrees it walks: classes are
   * declared, every method call has a variable of class type as receiver
   * (the casts of the call visitor), its pins' constants fit, and a pinned
   * `randomize` call sits inside a module, where its helper goes.
   */
  ghost predicate Visitable(keys: set<ClassId>, n: Node, inModule: bool)
    decreases n
  {
    match n.kind
    case ClassKind(c) => c in keys
    case CallKind(name, recv, pins) =>
      recv.VarRecv? && recv.dtype.ClassRefDType? && recv.dtype.cls in keys && MembersFit(pins) &&
      (Pinned(name, pins) ==> inModule)
    case _ => forall i :: 0 <= i < |n.kids| ==> Visitable(keys, n.kids[i], inModule || n.kind.ModuleKind?)
  }

  /** The classes the visitor reaches: it does not look inside classes or calls. */
  function Visited(n: Node): set<ClassId>
    decreases n, 1
  {
    match n.kind
    case ClassKind(c) => {c}
    case CallKind(_, _, _) => {}
    case _ => VisitedKids(n, |n.kids|)
  }

  function VisitedKids(n: Node, i: nat): set<ClassId>
    requires i <= |n.kids|
    decreases n, 0, i
  {
    if i == 0 then {} else VisitedKids(n, i - 1) + Visited(n.kids[i - 1])
  }

  /** No pinned `randomize` call is left where the visitor looks. */
  predicate Settled(n: Node)
    decreases n
  {
    match n.kind
    case ClassKind(_) => true
    case CallKind(name, _, pins) => !Pinned(name, pins)
    case _ => forall i :: 0 <= i < |n.kids| ==> Settled(n.kids[i])
  }

  /** The helpers as functions added to a module. */
  function FuncNodes(hs: seq<Func>): (r: seq<Node>)
    ensures |r| == |hs| && forall i :: 0 <= i < |hs| ==> r[i] == Node(FuncKind(hs[i]), [])
  {
    seq(|hs|, i requires 0 <= i < |hs| => Node(FuncKind(hs[i]), []))
  }

  /** The helpers `hs` are numbered `ids`, increasing, all drawn from m_funcCnt values in [lo, hi). */
  ghost predicate Numbered(hs: seq<Func>, ids: seq<nat>, lo: nat, hi: nat) {
    |ids| == |hs| &&
    (forall i :: 0 <= i < |hs| ==> hs[i].name == HelperName(ids[i]) && lo <= ids[i] < hi) &&
    (forall i, j :: 0 <= i < j < |ids| ==> ids[i] < ids[j])
  }

  lemma NumberedThen(hs1: seq<Func>, ids1: seq<nat>, hs2: seq<Func>, ids2: seq<nat>, lo: nat, mid: nat, hi: nat)
    requires lo <= mid <= hi && Numbered(hs1, ids1, lo, mid) && Numbered(hs2, ids2, mid, hi)
    ensures Numbered(hs1 + hs2, ids1 + ids2, lo, hi)
  {
    var hs, ids := hs1 + hs2, ids1 + ids2;
    forall i | 0 <= i < |hs| ensures hs[i].name == HelperName(ids[i]) && lo <= ids[i] < hi {
      if i >= |hs1| {
        assert hs[i] == hs2[i - |hs1|] && ids[i] == ids2[i - |hs1|];
      } else {
        assert hs[i] == hs1[i] && ids[i] == ids1[i];
      }
    }
    forall i, j | 0 <= i < j < |ids| ensures ids[i] < ids[j] {
      if j < |ids1| {
        assert ids[i] == ids1[i] && ids[j] == ids1[j];
      } else if i >= |ids1| {
        assert ids[i] == ids2[i - |ids1|] && ids[j] == ids2[j - |ids1|];
      } else {
        assert ids[i] == ids1[i] && ids[j] == ids2[j - |ids1|];
      }
    }
  }

  /** Helpers numbered apart are named apart: no two helpers of a module clash. */
  lemma NumberedDistinct(hs: seq<Func>, ids: seq<nat>, lo: nat, hi: nat)
    requires Numbered(hs, ids, lo, hi)
    ensures forall i, j :: 0 <= i < j < |hs| ==> hs[i].name != hs[j].name
  {
    forall i, j | 0 <= i < j < |hs| ensures hs[i].name != hs[j].name {
      HelperNameInjective(ids[i], ids[j]);
    }
  }

  /**
   * The walk's result in the shape of its input: classes stay, a call stays
   * (a pinned randomize one without its pins) or becomes a reference to its
   * helper, a module keeps its rewritten children followed by helpers, and
   * every other node keeps its kind with its children rewritten.
   */
  ghost predicate Reshaped(n: Node, n': Node)
    decreases n
  {
    match n.kind
    case ClassKind(_) => n' == n
    case CallKind(name, recv, pins) =>
      if !Pinned(name, pins) then n' == n
      else n' == Node(CallKind(name, recv, []), n.kids) || exists k: nat :: n' == Node(FuncRefKind(HelperName(k)), [])
    case ModuleKind =>
      n'.kind.ModuleKind? && |n.kids| <= |n'.kids| &&
      (forall i :: 0 <= i < |n.kids| ==> Reshaped(n.kids[i], n'.kids[i])) &&
      (forall i :: |n.kids| <= i < |n'.kids| ==> n'.kids[i].kind.FuncKind? && n'.kids[i].kids == [])
    case _ =>
      n'.kind == n.kind && |n'.kids| == |n.kids| && forall i :: 0 <= i < |n.kids| ==> Reshaped(n.kids[i], n'.kids[i])
  }

  /** Every class of `s` is declared in `cs` and declares randomize(). */
  ghost predicate DeclaresAll(cs: ClassTable, s: set<ClassId>) {
    forall c :: c in s ==> c in cs && Declares(cs[c])
  }

  lemma DeclaresAllGrown(cs: ClassTable, cs': ClassTable, s: set<ClassId>)
    requires DeclaresAll(cs, s) && Grown(cs, cs')
    ensures DeclaresAll(cs', s)
  {
    forall c | c in s ensures c in cs' && Declares(cs'[c]) {
      DeclaresGrown(cs[c], cs'[c]);
    }
  }

  /** The first `i` children of `n` walked: each rewritten to its counterpart in `kids'`, no pinned call left. */
  ghost predicate KidsSoFar(n: Node, i: nat, kids': seq<Node>) {
    i <= |n.kids| && |kids'| == i && forall j :: 0 <= j < i ==> Reshaped(n.kids[j], kids'[j]) && Settled(kids'[j])
  }

  /** Each memoized table holds its enum's item values, in order; names still to come are unused. */
  ghost predicate TabsOk(enumTabs: map<nat, string>, tables: map<string, seq<nat>>, tableOf: map<nat, DType>, count: nat) {
    enumTabs.Keys == tableOf.Keys &&
    (forall id :: id in enumTabs ==>
      tableOf[id].EnumDType? && tableOf[id].id == id && enumTabs[id] in tables &&
      tables[enumTabs[id]] == ItemValues(tableOf[id].items)) &&
    FreshTabs(tables, count)
  }

  class RandomizeVisitor {
    var cs: ClassTable
    const depth: map<ClassId, nat>
    /** Ranks certifying that composition is acyclic. */
    ghost const comp: map<ClassId, nat>
    /** AstClass::user1: the class still needs its randomize() defined. */
    var marked: set<ClassId>
    /** AstEnumDType::user2: the name of the value table made for each enum. */
    var enumTabs: map<nat, string>
    /** The value tables in the `$unit` package, by name. */
    var tables: map<string, seq<nat>>
    /** The enum each table was made from. */
    ghost var tableOf: map<nat, DType>
    /** m_enumValueTabCount, m_funcCnt and m_varCnt. */
    var enumTabCount: nat
    var funcCnt: nat
    var varCnt: nat
    var warnings: seq<Warning>
    /** m_constraints. */
    const constraints: ConstraintMultiset

    ghost predicate Valid()
      reads this`cs, this`enumTabs, this`tables, this`tableOf, this`enumTabCount, constraints
    {
      TableOk(cs, depth, comp) && AllWellFormed(constraints.sets) && TabsOk(enumTabs, tables, tableOf, enumTabCount)
    }

    constructor (cs: ClassTable, depth: map<ClassId, nat>, ghost comp: map<ClassId, nat>, marked: set<ClassId>)
      requires TableOk(cs, depth, comp)
      ensures Valid() && fresh(constraints)
      ensures this.cs == cs && this.depth == depth && this.comp == comp && this.marked == marked
      ensures enumTabs == map[] && tables == map[] && enumTabCount == 0 && funcCnt == 0 && varCnt == 0
      ensures warnings == [] && constraints.sets == [ConstraintSets.EmptySet]
    {
      this.cs := cs;
      this.depth := depth;
      this.comp := comp;
      this.marked := marked;
      enumTabs := map[];
      tables := map[];
      tableOf := map[];
      enumTabCount := 0;
      funcCnt := 0;
      varCnt := 0;
      warnings := [];
      constraints := new ConstraintMultiset();
    }

    /**
     * V3Randomize::newRandomizeFunc: find-or-create the class's randomize(),
     * virtual when some class extends it; returns where it sits.
     */
    method NewRandomizeFunc(c: ClassId) returns (slot: nat)
      requires Valid() && c in cs
      modifies this`cs
      ensures Valid() && Grown(old(cs), cs)
      ensures cs == old(cs)[c := WithRandomize(old(cs)[c], old(cs)[c].extended)]
      ensures slot == RandomizeSlot(old(cs)[c])
      ensures slot < |cs[c].members| && cs[c].members[slot].FuncMember? && cs[c].members[slot].f.name == RandomizeName
    {
      var d := cs[c];
      FindOrCreate(d, d.extended);
      WithRandomizeGrown(d, d.extended);
      ghost var cs0 := cs;
      cs := cs[c := WithRandomize(d, d.extended)];
      TableOkGrown(cs0, cs, depth, comp);
      slot := RandomizeSlot(d);
    }

    /**
     * enumValueTabp: the value table of an enum, made the first time the
     * enum is met and named by the table counter, holding the items' values
     * in declaration order.
     */
    method EnumValueTab(e: DType) returns (name: string)
      requires Valid() && e.EnumDType? && |e.items| >= 1
      modifies this`enumTabs, this`tables, this`tableOf, this`enumTabCount
      ensures Valid() && TabsGrow(old(enumTabs), enumTabs)
      ensures e.id in enumTabs && enumTabs[e.id] == name
      ensures e.id in old(enumTabs) ==>
                name == old(enumTabs)[e.id] && enumTabs == old(enumTabs) && tables == old(tables) &&
                enumTabCount == old(enumTabCount)
      ensures e.id !in old(enumTabs) ==>
                name == TabName(old(enumTabCount)) && enumTabCount == old(enumTabCount) + 1 &&
                enumTabs == old(enumTabs)[e.id := name] && tables == old(tables)[name := ItemValues(e.items)]
    {
      if e.id in enumTabs {
        return enumTabs[e.id];
      }
      name := TabName(enumTabCount);
      enumTabCount := enumTabCount + 1;
      var values: seq<nat> := [];
      var i := 0;
      while i < |e.items|
        invariant i <= |e.items|
        invariant values == ItemValues(e.items[..i])
      {
        values := values + [e.items[i].value];
        i := i + 1;
      }
      assert e.items[..i] == e.items;
      assert name !in tables;
      forall k: nat | k >= enumTabCount ensures TabName(k) != name {
        TabNameInjective(k, enumTabCount - 1);
      }
      tables := tables[name := values];
      enumTabs := enumTabs[e.id := name];
      tableOf := tableOf[e.id := e];
    }
  
    /**
     * newRandStmtsp for the part of `r` of type `d` that starts at bit `off`:
     * a struct member by member, each member `lsb` bits further on; a leaf
     * by one assignment of a random value, or of a random entry of the value
     * table when the leaf's type is a typedef of an enum.
     */
    method NewRandStmts(r: Ref, d: DType, off: nat) returns (stmts: seq<Stmt>)
      requires Valid() && ItemsOk(EnumsOf(d))
      modifies this`enumTabs, this`tables, this`tableOf, this`enumTabCount
      ensures Valid() && TabsGrow(old(enumTabs), enumTabs) && Covered(EnumsOf(d), enumTabs)
      ensures stmts == RandStmts(r, d, off, enumTabs)
      decreases Height(d), 1
    {
      var s := SkipRef(d);
      if s.StructDType? {
        SkipRefHeight(d);
        forall j | 0 <= j < |s.members| ensures EnumsOf(s.members[j].dtype) <= EnumsOf(d) {
          EnumsOfMember(d, j);
        }
        stmts := NewMemberStmts(r, s, off);
      } else {
        stmts := NewLeafStmt(r, d, off);
      }
    }

    /** The loop of newRandStmtsp over the members of struct `s`. */
    method NewMemberStmts(r: Ref, s: DType, off: nat) returns (stmts: seq<Stmt>)
      requires Valid() && s.StructDType?
      requires forall j :: 0 <= j < |s.members| ==> ItemsOk(EnumsOf(s.members[j].dtype))
      modifies this`enumTabs, this`tables, this`tableOf, this`enumTabCount
      ensures Valid() && TabsGrow(old(enumTabs), enumTabs) && Covered(MemberEnums(s, |s.members|), enumTabs)
      ensures stmts == MemberStmts(r, s, |s.members|, off, enumTabs)
      decreases Height(s), 0
    {
      stmts := [];
      var i := 0;
      while i < |s.members|
        invariant i <= |s.members| && Valid()
        invariant TabsGrow(old(enumTabs), enumTabs) && Covered(MemberEnums(s, i), enumTabs)
        invariant stmts == MemberStmts(r, s, i, off, enumTabs)
      {
        MemberHeight(s, i);
        ghost var before := enumTabs;
        var more := NewRandStmts(r, s.members[i].dtype, off + s.members[i].lsb);
        MemberStep(r, s, i, off, before, enumTabs);
        stmts := stmts + more;
        i := i + 1;
      }
    }

    /** The leaf case of newRandStmtsp. */
    method NewLeafStmt(r: Ref, d: DType, off: nat) returns (stmts: seq<Stmt>)
      requires Valid() && !SkipRef(d).StructDType? && ItemsOk(EnumsOf(d))
      modifies this`enumTabs, this`tables, this`tableOf, this`enumTabCount
      ensures Valid() && TabsGrow(old(enumTabs), enumTabs) && Covered(EnumsOf(d), enumTabs)
      ensures stmts == RandStmts(r, d, off, enumTabs)
    {
      var value;
      match TableEnum(d) {
        case Some(e) =>
          var name := EnumValueTab(e);
          value := TableSel(name, e.width, ModDiv(Rand(32), Const32(|e.items|)));
        case None =>
          value := Rand(Width(d));
      }
      stmts := [Assign(Slice(r, off, Width(d)), value)];
    }

    /**
     * newClassRandStmtsp(c, from): the members of `c` and of its ancestors,
     * nearest class first. `base` is the class table as it was when the
     * generation began; what the generation adds to it changes nothing.
     */
    method NewClassRandStmts(c: ClassId, from: From, ghost base: ClassTable) returns (stmts: seq<Stmt>)
      requires Valid() && TableOk(base, depth, comp) && Grown(base, cs) && c in base && ValidFrom(from)
      modifies this`cs, this`enumTabs, this`tables, this`tableOf, this`enumTabCount, this`warnings
      ensures Valid() && Grown(old(cs), cs) && TabsGrow(old(enumTabs), enumTabs)
      ensures var g := ClassRand(base, depth, comp, c, from, enumTabs);
              Produced(g, stmts, old(warnings), warnings, enumTabs, old(cs), cs)
      decreases if c in comp then comp[c] else 0, 1
    {
      ghost var cs0, tabs0, w0 := cs, enumTabs, warnings;
      GrownChain(base, cs, depth, c);
      var ch := Chain(cs, depth, c);
      assert ch[0] in ch;
      GrownRefl(cs);
      ChainNil(base, depth, comp, c, ch, from, tabs0, w0, cs0);
      stmts := [];
      var i := 0;
      while i < |ch|
        invariant i <= |ch|
        invariant Valid() && Grown(cs0, cs) && Grown(base, cs) && TabsGrow(tabs0, enumTabs)
        invariant Produced(ChainRand(base, depth, comp, c, ch[..i], from, enumTabs), stmts, w0, warnings, enumTabs, cs0, cs)
      {
        stmts := NewChainClassStmts(c, ch, i, from, base, cs0, tabs0, w0, stmts);
        i := i + 1;
      }
      ChainDone(base, depth, comp, c, ch, i, from, enumTabs);
    }

    /** One pass of the outer loop of newClassRandStmtsp: the members of the `i`-th class of the chain appended to `prev`. */
    method NewChainClassStmts(c: ClassId, ch: seq<ClassId>, i: nat, from: From, ghost base: ClassTable,
                              ghost cs0: ClassTable, ghost tabs0: map<nat, string>, ghost w0: seq<Warning>,
                              prev: seq<Stmt>) returns (stmts: seq<Stmt>)
      requires Valid() && TableOk(base, depth, comp) && Grown(base, cs) && ValidFrom(from)
      requires c in base && ch == Chain(base, depth, c) && i < |ch|
      requires forall k :: k in ch ==> k in base && Below(base, comp, c, base[k].members)
      requires Grown(cs0, cs) && TabsGrow(tabs0, enumTabs)
      requires Produced(ChainRand(base, depth, comp, c, ch[..i], from, enumTabs), prev, w0, warnings, enumTabs, cs0, cs)
      modifies this`cs, this`enumTabs, this`tables, this`tableOf, this`enumTabCount, this`warnings
      ensures Valid() && Grown(cs0, cs) && Grown(base, cs) && TabsGrow(tabs0, enumTabs)
      ensures Produced(ChainRand(base, depth, comp, c, ch[..i + 1], from, enumTabs), stmts, w0, warnings, enumTabs, cs0, cs)
      decreases comp[c], 0, 2
    {
      ghost var cs1, tabs1, w1 := cs, enumTabs, warnings;
      ghost var g1 := ChainRand(base, depth, comp, c, ch[..i], from, enumTabs);
      assert ch[i] in ch;
      var more := NewMembersRandStmts(c, ch[i], from, base);
      ChainStep(base, depth, comp, c, ch, i, from, tabs1, enumTabs);
      ProducedThen(g1, MembersRand(base, depth, comp, c, base[ch[i]].members, from, enumTabs), prev, more,
                   w0, w1, warnings, tabs1, enumTabs, cs0, cs1, cs);
      GrownTrans(cs0, cs1, cs);
      GrownTrans(base, cs1, cs);
      stmts := prev + more;
    }

    /** The inner loop of newClassRandStmtsp: the members of class `k`, which is `c` or one of its ancestors. */
    method NewMembersRandStmts(c: ClassId, k: ClassId, from: From, ghost base: ClassTable) returns (stmts: seq<Stmt>)
      requires Valid() && TableOk(base, depth, comp) && Grown(base, cs) && ValidFrom(from)
      requires c in base && k in Chain(base, depth, c)
      modifies this`cs, this`enumTabs, this`tables, this`tableOf, this`enumTabCount, this`warnings
      ensures Valid() && Grown(old(cs), cs) && TabsGrow(old(enumTabs), enumTabs)
      ensures k in base && Below(base, comp, c, base[k].members)
      ensures var g := MembersRand(base, depth, comp, c, base[k].members, from, enumTabs);
              Produced(g, stmts, old(warnings), warnings, enumTabs, old(cs), cs)
      decreases comp[c], 0, 1
    {
      ghost var cs0, tabs0, w0 := cs, enumTabs, warnings;
      var ms := cs[k].members;
      MembersSnapshot(base, cs, depth, comp, c, k, from, tabs0);
      GrownRefl(cs);
      MembersNil(base, depth, comp, c, ms, from, tabs0, w0, cs0);
      stmts := [];
      var j := 0;
      while j < |ms|
        invariant j <= |ms|
        invariant Valid() && Grown(cs0, cs) && Grown(base, cs) && TabsGrow(tabs0, enumTabs)
        invariant Below(base, comp, c, ms[..j])
        invariant var g := MembersRand(base, depth, comp, c, ms[..j], from, enumTabs);
                  Produced(g, stmts, w0, warnings, enumTabs, cs0, cs)
      {
        ghost var cs1, tabs1, w1 := cs, enumTabs, warnings;
        ghost var g1 := MembersRand(base, depth, comp, c, ms[..j], from, enumTabs);
        SnapshotMember(base, cs0, depth, comp, c, k, ms, j);
        var more := NewMemberRand(c, ms[j], from, j + 1, base);
        MembersStep(base, depth, comp, c, ms, j, from, tabs1, enumTabs);
        ProducedThen(g1, MemberRand(base, depth, comp, c, ms[j], from, enumTabs, j + 1), stmts, more,
                     w0, w1, warnings, tabs1, enumTabs, cs0, cs1, cs);
        GrownTrans(cs0, cs1, cs);
        GrownTrans(base, cs1, cs);
        assert Produced(MembersRand(base, depth, comp, c, ms[..j + 1], from, enumTabs), stmts + more, w0, warnings, enumTabs, cs0, cs);
        assert TabsGrow(tabs0, enumTabs) && Valid();
        stmts := stmts + more;
        j := j + 1;
      }
      MembersDone(base, depth, comp, c, ms, j, from, enumTabs);
      MembersSnapshot(base, cs0, depth, comp, c, k, from, enumTabs);
    }

    /**
     * One member of newClassRandStmtsp: a rand variable of basic or struct
     * type is randomized in place; a rand handle of a class gets that class's
     * randomize() declared and its members' randomization inlined through the
     * handle; another rand variable is reported; anything else is skipped.
     */
    method NewMemberRand(c: ClassId, m: Member, from: From, bound: nat, ghost base: ClassTable) returns (stmts: seq<Stmt>)
      requires Valid() && TableOk(base, depth, comp) && Grown(base, cs) && ValidFrom(from)
      requires BelowOne(base, comp, c, m) && (m.VarMember? ==> ItemsOk(EnumsOf(m.dtype)))
      modifies this`cs, this`enumTabs, this`tables, this`tableOf, this`enumTabCount, this`warnings
      ensures Valid() && Grown(old(cs), cs) && TabsGrow(old(enumTabs), enumTabs)
      ensures var g := MemberRand(base, depth, comp, c, m, from, enumTabs, bound);
              Produced(g, stmts, old(warnings), warnings, enumTabs, old(cs), cs)
      decreases comp[c], 0, 0
    {
      if !(m.VarMember? && m.isRand) {
        GrownRefl(cs);
        return [];
      }
      var d := SkipRef(m.dtype);
      if d.BasicDType? || d.StructDType? {
        stmts := NewVarRand(c, m, from, bound, base);
      } else if d.ClassRefDType? {
        stmts := NewHandleRand(c, m, from, bound, base);
      } else {
        GrownRefl(cs);
        warnings := warnings + [UnsupportedMember(m.name)];
        stmts := [];
      }
    }

    /** A rand variable of basic or struct type (after typedefs): newRandStmtsp on a reference to it. */
    method NewVarRand(c: ClassId, m: Member, from: From, bound: nat, ghost base: ClassTable) returns (stmts: seq<Stmt>)
      requires Valid() && TableOk(base, depth, comp) && Grown(base, cs) && ValidFrom(from)
      requires BelowOne(base, comp, c, m) && m.VarMember? && m.isRand && ItemsOk(EnumsOf(m.dtype))
      requires SkipRef(m.dtype).BasicDType? || SkipRef(m.dtype).StructDType?
      modifies this`cs, this`enumTabs, this`tables, this`tableOf, this`enumTabCount, this`warnings
      ensures Valid() && Grown(old(cs), cs) && TabsGrow(old(enumTabs), enumTabs)
      ensures var g := MemberRand(base, depth, comp, c, m, from, enumTabs, bound);
              Produced(g, stmts, old(warnings), warnings, enumTabs, old(cs), cs)
    {
      GrownRefl(cs);
      var ref := CreateRef(m.v, from);
      stmts := NewRandStmts(ref, m.dtype, 0);
    }

    /**
     * A rand handle of class `t`: newRandomizeFunc(t), whose result is not
     * used further, then the members of `t` randomized through the handle.
     */
    method NewHandleRand(c: ClassId, m: Member, from: From, bound: nat, ghost base: ClassTable) returns (stmts: seq<Stmt>)
      requires Valid() && TableOk(base, depth, comp) && Grown(base, cs) && ValidFrom(from)
      requires BelowOne(base, comp, c, m) && m.VarMember? && m.isRand && SkipRef(m.dtype).ClassRefDType?
      modifies this`cs, this`enumTabs, this`tables, this`tableOf, this`enumTabCount, this`warnings
      ensures Valid() && Grown(old(cs), cs) && TabsGrow(old(enumTabs), enumTabs)
      ensures var g := MemberRand(base, depth, comp, c, m, from, enumTabs, bound);
              Produced(g, stmts, old(warnings), warnings, enumTabs, old(cs), cs)
      decreases comp[c], 0, 0, 0
    {
      var t := SkipRef(m.dtype).cls;
      ghost var cs0 := cs;
      var slot := NewRandomizeFunc(t);
      ghost var cs1 := cs;
      assert TouchedOnly(cs0, cs1, {t}) by {
        assert cs1[t].members[slot].FuncMember? && cs1[t].members[slot].f.name == RandomizeName;
      }
      GrownTrans(base, cs0, cs1);
      var from' := FromRef(CreateRef(m.v, from));
      stmts := NewClassRandStmts(t, from', base);
      GrownTrans(cs0, cs1, cs);
      TouchedThen(cs0, cs1, cs, {t}, ClassRand(base, depth, comp, t, from', enumTabs).touched);
      HandleGen(base, depth, comp, c, m, from, enumTabs, bound);
    }

    /** applyConstraints, then the return variable `ret` set to generateCheck. */
    method ApplyAndReturn(from: From, ret: string) returns (stmts: seq<Stmt>)
      requires constraints.Valid() && ValidFrom(from)
      modifies this`varCnt
      ensures stmts == ApplyThenReturn(constraints.sets, from, old(varCnt), ret)
      ensures varCnt == ApplyMulti(constraints.sets, from, old(varCnt)).varCnt
    {
      var applied, cnt := constraints.ApplyConstraints(from, varCnt);
      varCnt := cnt;
      var check := constraints.GenerateCheck(from);
      stmts := applied + [Assign(Whole(LocalRef(ret)), check)];
    }

    /**
     * The marked half of visit(AstClass): randomize() found or created, and
     * given the members' randomization, the constraints applied and the
     * return value set to the check; then the multiset is reset and the
     * mark cleared.
     */
    method DefineRandomize(c: ClassId)
      requires Valid() && c in cs
      modifies this`cs, this`enumTabs, this`tables, this`tableOf, this`enumTabCount, this`warnings, this`varCnt,
               this`marked, constraints`sets
      ensures Valid() && Grown(old(cs), cs) && TabsGrow(old(enumTabs), enumTabs)
      ensures var g := ClassRand(old(cs), depth, comp, c, NoFrom, enumTabs);
              cs[c] == DefinedIn(old(cs)[c], g.stmts + ApplyThenReturn(old(constraints.sets), NoFrom, old(varCnt), RandomizeName)) &&
              TouchedOnly(old(cs), cs, {c} + g.touched) && warnings == old(warnings) + g.warnings &&
              Covered(g.enums, enumTabs)
      ensures varCnt == ApplyMulti(old(constraints.sets), NoFrom, old(varCnt)).varCnt
      ensures constraints.sets == [EmptySet] && marked == old(marked) - {c}
    {
      ghost var cs0 := cs;
      var slot, gen := MemberRandOfClass(c);
      ghost var g := ClassRand(cs0, depth, comp, c, NoFrom, enumTabs);
      FinishRandomize(c, slot, gen, cs0, {c} + g.touched);
    }

    /**
     * The second half of visit(AstClass) for a marked class: the members'
     * randomization `gen`, then the applied constraints and the return value
     * set to their check, appended to randomize(); then the multiset is reset
     * and the mark cleared. Only `c`, one of the classes `touched` since
     * `cs0`, changes.
     */
    method FinishRandomize(c: ClassId, slot: nat, gen: seq<Stmt>, ghost cs0: ClassTable, ghost touched: set<ClassId>)
      requires Valid() && c in cs && slot < |cs[c].members| && cs[c].members[slot].FuncMember?
      requires cs[c].members[slot].f.name == RandomizeName
      requires Grown(cs0, cs) && TouchedOnly(cs0, cs, touched) && c in touched
      modifies this`cs, this`varCnt, this`marked, constraints`sets
      ensures Valid() && Grown(cs0, cs) && TouchedOnly(cs0, cs, touched)
      ensures cs == old(cs)[c := AppendBody(old(cs)[c], slot, gen + ApplyThenReturn(old(constraints.sets), NoFrom, old(varCnt), RandomizeName))]
      ensures varCnt == ApplyMulti(old(constraints.sets), NoFrom, old(varCnt)).varCnt
      ensures constraints.sets == [EmptySet] && marked == old(marked) - {c}
    {
      var tail := ApplyAndReturn(NoFrom, RandomizeName);
      StoreRandomize(c, slot, gen + tail, cs0, touched);
    }

    /** addStmtsp of `more` to randomize() at `slot` of class `c`, then the multiset reset and the mark cleared. */
    method StoreRandomize(c: ClassId, slot: nat, more: seq<Stmt>, ghost cs0: ClassTable, ghost touched: set<ClassId>)
      requires Valid() && c in cs && slot < |cs[c].members| && cs[c].members[slot].FuncMember?
      requires cs[c].members[slot].f.name == RandomizeName
      requires Grown(cs0, cs) && TouchedOnly(cs0, cs, touched) && c in touched
      modifies this`cs, this`marked, constraints`sets
      ensures Valid() && Grown(cs0, cs) && TouchedOnly(cs0, cs, touched)
      ensures cs == old(cs)[c := AppendBody(old(cs)[c], slot, more)]
      ensures constraints.sets == [EmptySet] && marked == old(marked) - {c}
    {
      constraints.Reset();
      FillKeeps(cs0, cs, depth, comp, c, slot, more, touched);
      cs := cs[c := AppendBody(cs[c], slot, more)];
      marked := marked - {c};
    }

    /** The first half of visit(AstClass) for a marked class: newRandomizeFunc, then newClassRandStmtsp(c, nullptr). */
    method MemberRandOfClass(c: ClassId) returns (slot: nat, gen: seq<Stmt>)
      requires Valid() && c in cs
      modifies this`cs, this`enumTabs, this`tables, this`tableOf, this`enumTabCount, this`warnings
      ensures Valid() && Grown(old(cs), cs) && TabsGrow(old(enumTabs), enumTabs)
      ensures slot == RandomizeSlot(old(cs)[c]) && cs[c] == WithRandomize(old(cs)[c], old(cs)[c].extended)
      ensures slot < |cs[c].members| && cs[c].members[slot].FuncMember? && cs[c].members[slot].f.name == RandomizeName
      ensures var g := ClassRand(old(cs), depth, comp, c, NoFrom, enumTabs);
              gen == g.stmts && warnings == old(warnings) + g.warnings && Covered(g.enums, enumTabs) &&
              TouchedOnly(old(cs), cs, {c} + g.touched)
    {
      ghost var cs0 := cs;
      slot := NewRandomizeFunc(c);
      ghost var cs1 := cs;
      assert TouchedOnly(cs0, cs1, {c}) by {
        assert cs1[c].members[slot].FuncMember? && cs1[c].members[slot].f.name == RandomizeName;
      }
      GrownRefl(cs);
      gen := NewClassRandStmts(c, NoFrom, cs1);
      ghost var g := ClassRand(cs1, depth, comp, c, NoFrom, enumTabs);
      ClassRandGrown(cs0, cs1, depth, comp, c, NoFrom, enumTabs);
      ClassRandTouched(cs1, depth, comp, c, NoFrom, enumTabs);
      TouchedThen(cs0, cs1, cs, {c}, g.touched);
      GrownTrans(cs0, cs1, cs);
    }

    /**
     * visit(AstClass): the class's constraints and its ancestors' are folded
     * into the multiset, each one it cannot use reported; a marked class then
     * gets randomize() defined from them and the multiset is reset. An
     * unmarked class leaves them in the multiset for whatever is visited next.
     */
    method VisitClass(c: ClassId)
      requires Valid() && c in cs
      modifies this`cs, this`enumTabs, this`tables, this`tableOf, this`enumTabCount, this`warnings, this`varCnt,
               this`marked, constraints`sets
      ensures Valid() && Grown(old(cs), cs) && TabsGrow(old(enumTabs), enumTabs)
      ensures var f := ClassFold(old(constraints.sets), old(cs), depth, c);
              if c in old(marked) then
                var g := ClassRand(old(cs), depth, comp, c, NoFrom, enumTabs);
                cs[c] == DefinedIn(old(cs)[c], g.stmts + ApplyThenReturn(f.sets, NoFrom, old(varCnt), RandomizeName)) &&
                TouchedOnly(old(cs), cs, {c} + g.touched) && Covered(g.enums, enumTabs) &&
                warnings == old(warnings) + ConstraintWarnings(f.unsupported) + g.warnings &&
                varCnt == ApplyMulti(f.sets, NoFrom, old(varCnt)).varCnt &&
                constraints.sets == [EmptySet] && marked == old(marked) - {c}
              else
                cs == old(cs) && enumTabs == old(enumTabs) && tables == old(tables) && tableOf == old(tableOf) &&
                enumTabCount == old(enumTabCount) && warnings == old(warnings) + ConstraintWarnings(f.unsupported) &&
                varCnt == old(varCnt) && constraints.sets == f.sets && marked == old(marked)
    {
      var unsupported := constraints.AddClassConstraints(cs, depth, c);
      warnings := warnings + ConstraintWarnings(unsupported);
      if c in marked {
        DefineRandomize(c);
      }
    }

    /**
     * visit(AstMethodCall): a `randomize` call with pins folds the class of
     * its receiver and the pins into the multiset and applies it. When that
     * emits statements, a helper `__Vrandomize<n>` is made of the members'
     * randomization, the applied constraints and the check, and returned to
     * replace the call; either way the pins are gone and the multiset is
     * reset. Any other call is left alone.
     */
    method VisitCall(name: string, recv: Receiver, pins: seq<Member>) returns (helper: Option<Func>)
      requires Valid() && recv.VarRecv? && recv.dtype.ClassRefDType? && recv.dtype.cls in cs && MembersFit(pins)
      modifies this`cs, this`enumTabs, this`tables, this`tableOf, this`enumTabCount, this`warnings, this`varCnt,
               this`funcCnt, constraints`sets
      ensures Valid() && Grown(old(cs), cs) && TabsGrow(old(enumTabs), enumTabs)
      ensures !Pinned(name, pins) ==>
                helper.None? && cs == old(cs) && enumTabs == old(enumTabs) && warnings == old(warnings) &&
                varCnt == old(varCnt) && funcCnt == old(funcCnt) && constraints.sets == old(constraints.sets)
      ensures Pinned(name, pins) ==>
                var from := FromVar(recv.v);
                var f1 := ClassFold(old(constraints.sets), old(cs), depth, recv.dtype.cls);
                var f2 := PinsFold(f1.sets, pins);
                var a := ApplyMulti(f2.sets, from, old(varCnt));
                var w := old(warnings) + ConstraintWarnings(f1.unsupported) + ConstraintWarnings(f2.unsupported);
                constraints.sets == [EmptySet] && varCnt == a.varCnt &&
                if a.stmts == [] then
                  helper.None? && cs == old(cs) && enumTabs == old(enumTabs) && warnings == w && funcCnt == old(funcCnt)
                else
                  var g := ClassRand(old(cs), depth, comp, recv.dtype.cls, from, enumTabs);
                  var fname := HelperName(old(funcCnt));
                  helper == Some(Func(fname, 32, true, false, false,
                                      g.stmts + ApplyThenReturn(f2.sets, from, old(varCnt), fname))) &&
                  funcCnt == old(funcCnt) + 1 && warnings == w + g.warnings && Covered(g.enums, enumTabs) &&
                  TouchedOnly(old(cs), cs, g.touched)
    {
      if !Pinned(name, pins) {
        return None;
      }
      var from := FromVar(recv.v);
      FoldCall(recv.dtype.cls, pins);
      ghost var cnt0 := varCnt;
      var applied, cnt := constraints.ApplyConstraints(from, varCnt);
      varCnt := cnt;
      if applied == [] {
        helper := None;
      } else {
        var f := MakeHelper(recv.dtype.cls, from, applied, cnt0);
        helper := Some(f);
      }
      constraints.Reset();
    }

    /** The two addConstraints of a pinned call: the receiver's class (with its ancestors), then the pins. */
    method FoldCall(cls: ClassId, pins: seq<Member>)
      requires Valid() && cls in cs && MembersFit(pins)
      modifies this`warnings, constraints`sets
      ensures Valid()
      ensures var f1 := ClassFold(old(constraints.sets), cs, depth, cls);
              var f2 := PinsFold(f1.sets, pins);
              constraints.sets == f2.sets &&
              warnings == old(warnings) + ConstraintWarnings(f1.unsupported) + ConstraintWarnings(f2.unsupported)
    {
      var u1 := constraints.AddClassConstraints(cs, depth, cls);
      var u2 := constraints.AddConstraintList(pins);
      warnings := warnings + ConstraintWarnings(u1) + ConstraintWarnings(u2);
    }

    /**
     * The helper of a pinned call: a signed 32-bit function named
     * `__Vrandomize<funcCnt>`, its return variable named alike, whose body is
     * newClassRandStmtsp of the receiver's class, the `applied` constraints,
     * then the return variable set to the check.
     */
    method MakeHelper(cls: ClassId, from: From, applied: seq<Stmt>, ghost cnt0: nat) returns (f: Func)
      requires Valid() && cls in cs && ValidFrom(from)
      requires applied == ApplyMulti(constraints.sets, from, cnt0).stmts
      modifies this`cs, this`enumTabs, this`tables, this`tableOf, this`enumTabCount, this`warnings, this`funcCnt
      ensures Valid() && Grown(old(cs), cs) && TabsGrow(old(enumTabs), enumTabs)
      ensures var g := ClassRand(old(cs), depth, comp, cls, from, enumTabs);
              var fname := HelperName(old(funcCnt));
              f == Func(fname, 32, true, false, false, g.stmts + ApplyThenReturn(constraints.sets, from, cnt0, fname)) &&
              funcCnt == old(funcCnt) + 1 && warnings == old(warnings) + g.warnings && Covered(g.enums, enumTabs) &&
              TouchedOnly(old(cs), cs, g.touched)
    {
      var fname := HelperName(funcCnt);
      funcCnt := funcCnt + 1;
      GrownRefl(cs);
      var gen := NewClassRandStmts(cls, from, cs);
      var check := constraints.GenerateCheck(from);
      var ret := Assign(Whole(LocalRef(fname)), check);
      assert gen + applied + [ret] == gen + (applied + [ret]);
      f := Func(fname, 32, true, false, false, gen + applied + [ret]);
    }

    /**
     * The visitor over a subtree: classes and calls as above, a module
     * (setting m_modp) takes the helpers made beneath it as its last
     * statements, any other node is walked through. Returns the rewritten
     * subtree and the helpers still to be placed in the enclosing module.
     */
    method Visit(n: Node, ghost inModule: bool) returns (n': Node, hs: seq<Func>, ghost ids: seq<nat>)
      requires Valid() && Visitable(cs.Keys, n, inModule)
      modifies this`cs, this`enumTabs, this`tables, this`tableOf, this`enumTabCount, this`warnings, this`varCnt,
               this`marked, this`funcCnt, constraints`sets
      ensures Valid() && Grown(old(cs), cs) && TabsGrow(old(enumTabs), enumTabs)
      ensures Reshaped(n, n') && Settled(n') && marked == old(marked) - Visited(n)
      ensures DeclaresAll(cs, Visited(n) * old(marked))
      ensures old(funcCnt) <= funcCnt && Numbered(hs, ids, old(funcCnt), funcCnt) && (n.kind.ModuleKind? ==> hs == [])
      decreases n, 2
    {
      match n.kind
      case ClassKind(c) =>
        VisitClassNode(c);
        n', hs, ids := n, [], [];
      case CallKind(name, recv, pins) =>
        n', hs, ids := VisitCallNode(n, name, recv, pins);
      case ModuleKind =>
        n' := VisitModule(n, inModule);
        hs, ids := [], [];
      case _ =>
        var kids';
        kids', hs, ids := VisitKids(n, inModule);
        n' := Node(n.kind, kids');
    }

    /** A class node: visited as above and left in place; of the walk's state only its mark matters here. */
    method VisitClassNode(c: ClassId)
      requires Valid() && c in cs
      modifies this`cs, this`enumTabs, this`tables, this`tableOf, this`enumTabCount, this`warnings, this`varCnt,
               this`marked, constraints`sets
      ensures Valid() && Grown(old(cs), cs) && TabsGrow(old(enumTabs), enumTabs) && marked == old(marked) - {c}
      ensures c in old(marked) ==> c in cs && Declares(cs[c])
    {
      VisitClass(c);
    }

    /** A call node: replaced by a reference to its helper when one was made; a pinned call with none loses its pins. */
    method VisitCallNode(n: Node, name: string, recv: Receiver, pins: seq<Member>) returns (n': Node, hs: seq<Func>, ghost ids: seq<nat>)
      requires n.kind == CallKind(name, recv, pins)
      requires Valid() && recv.VarRecv? && recv.dtype.ClassRefDType? && recv.dtype.cls in cs && MembersFit(pins)
      modifies this`cs, this`enumTabs, this`tables, this`tableOf, this`enumTabCount, this`warnings, this`varCnt,
               this`funcCnt, constraints`sets
      ensures Valid() && Grown(old(cs), cs) && TabsGrow(old(enumTabs), enumTabs)
      ensures Reshaped(n, n') && Settled(n')
      ensures old(funcCnt) <= funcCnt && Numbered(hs, ids, old(funcCnt), funcCnt)
      ensures hs != [] ==> n' == Node(FuncRefKind(hs[0].name), [])
    {
      ghost var k := funcCnt;
      var helper := VisitCall(name, recv, pins);
      if helper.Some? {
        n', hs, ids := Node(FuncRefKind(helper.value.name), []), [helper.value], [k];
        assert n' == Node(FuncRefKind(HelperName(k)), []);
      } else if Pinned(name, pins) {
        n', hs, ids := Node(CallKind(name, recv, []), n.kids), [], [];
      } else {
        n', hs, ids := n, [], [];
      }
    }

    /** visit(AstNodeModule): the children walked with this module as m_modp, then the helpers made among them added to it. */
    method VisitModule(n: Node, ghost inModule: bool) returns (n': Node)
      requires n.kind.ModuleKind? && Valid() && Visitable(cs.Keys, n, inModule)
      modifies this`cs, this`enumTabs, this`tables, this`tableOf, this`enumTabCount, this`warnings, this`varCnt,
               this`marked, this`funcCnt, constraints`sets
      ensures Valid() && Grown(old(cs), cs) && TabsGrow(old(enumTabs), enumTabs)
      ensures Reshaped(n, n') && Settled(n') && marked == old(marked) - Visited(n) && old(funcCnt) <= funcCnt
      ensures DeclaresAll(cs, Visited(n) * old(marked))
      ensures exists hs, ids :: Numbered(hs, ids, old(funcCnt), funcCnt) && n'.kids[|n.kids|..] == FuncNodes(hs)
      decreases n, 1
    {
      var kids', hs, ids := VisitKids(n, inModule);
      n' := Node(ModuleKind, kids' + FuncNodes(hs));
      assert n'.kids[|n.kids|..] == FuncNodes(hs);
      forall i | 0 <= i < |n'.kids| ensures Settled(n'.kids[i]) {
        if i < |kids'| {
          assert n'.kids[i] == kids'[i];
        }
      }
    }

    /** iterateChildren: each child in turn; the helpers made are collected in order. */
    method VisitKids(n: Node, ghost inModule: bool) returns (kids': seq<Node>, hs: seq<Func>, ghost ids: seq<nat>)
      requires Valid() && forall i :: 0 <= i < |n.kids| ==> Visitable(cs.Keys, n.kids[i], inModule || n.kind.ModuleKind?)
      modifies this`cs, this`enumTabs, this`tables, this`tableOf, this`enumTabCount, this`warnings, this`varCnt,
               this`marked, this`funcCnt, constraints`sets
      ensures Valid() && Grown(old(cs), cs) && TabsGrow(old(enumTabs), enumTabs)
      ensures |kids'| == |n.kids| && forall i :: 0 <= i < |n.kids| ==> Reshaped(n.kids[i], kids'[i]) && Settled(kids'[i])
      ensures marked == old(marked) - VisitedKids(n, |n.kids|) && DeclaresAll(cs, VisitedKids(n, |n.kids|) * old(marked))
      ensures old(funcCnt) <= funcCnt && Numbered(hs, ids, old(funcCnt), funcCnt)
      decreases n, 0
    {
      ghost var cs0, tabs0, marked0, cnt0 := cs, enumTabs, marked, funcCnt;
      GrownRefl(cs);
      kids', hs, ids := [], [], [];
      var i := 0;
      while i < |n.kids|
        invariant i <= |n.kids|
        invariant Valid() && Grown(cs0, cs) && TabsGrow(tabs0, enumTabs)
        invariant KidsSoFar(n, i, kids') && marked == marked0 - VisitedKids(n, i)
        invariant DeclaresAll(cs, VisitedKids(n, i) * marked0)
        invariant cnt0 <= funcCnt && Numbered(hs, ids, cnt0, funcCnt)
      {
        kids', hs, ids := VisitKid(n, i, inModule, kids', hs, ids, cs0, tabs0, marked0, cnt0);
        i := i + 1;
      }
    }

    /** One pass of iterateChildren: child `i` visited, its result and its helpers appended. */
    method VisitKid(n: Node, i: nat, ghost inModule: bool, kids: seq<Node>, hs: seq<Func>, ghost ids: seq<nat>,
                    ghost cs0: ClassTable, ghost tabs0: map<nat, string>, ghost marked0: set<ClassId>, ghost cnt0: nat)
      returns (kids': seq<Node>, hs': seq<Func>, ghost ids': seq<nat>)
      requires i < |n.kids| && Valid() && Visitable(cs.Keys, n.kids[i], inModule || n.kind.ModuleKind?)
      requires Grown(cs0, cs) && TabsGrow(tabs0, enumTabs)
      requires KidsSoFar(n, i, kids) && marked == marked0 - VisitedKids(n, i)
      requires DeclaresAll(cs, VisitedKids(n, i) * marked0)
      requires cnt0 <= funcCnt && Numbered(hs, ids, cnt0, funcCnt)
      modifies this`cs, this`enumTabs, this`tables, this`tableOf, this`enumTabCount, this`warnings, this`varCnt,
               this`marked, this`funcCnt, constraints`sets
      ensures Valid() && Grown(cs0, cs) && TabsGrow(tabs0, enumTabs)
      ensures KidsSoFar(n, i + 1, kids') && marked == marked0 - VisitedKids(n, i + 1)
      ensures DeclaresAll(cs, VisitedKids(n, i + 1) * marked0)
      ensures cnt0 <= funcCnt && Numbered(hs', ids', cnt0, funcCnt)
      decreases n, 0, |n.kids| - i
    {
      ghost var cs1, mid := cs, funcCnt;
      var k', khs;
      ghost var kids1;
      k', khs, kids1 := Visit(n.kids[i], inModule || n.kind.ModuleKind?);
      GrownTrans(cs0, cs1, cs);
      DeclaresAllGrown(cs1, cs, VisitedKids(n, i) * marked0);
      NumberedThen(hs, ids, khs, kids1, cnt0, mid, funcCnt);
      assert VisitedKids(n, i + 1) == VisitedKids(n, i) + Visited(n.kids[i]);
      kids', hs' := kids + [k'], hs + khs;
      ids' := ids + kids1;
      assert forall j :: 0 <= j < i ==> kids'[j] == kids[j];
    }
  }

  /**
   * V3Randomize::randomizeNetlist: the marking visitor (ancestors walked),
   * then the defining visitor over the whole netlist. Every class that needs
   * randomize() and is declared in the netlist declares it afterwards and has
   * its mark cleared; no pinned call is left, each rewritten one referring to
   * a helper `__Vrandomize<n>`, and helpers land in modules.
   */
  method RandomizeNetlist(cs: ClassTable, depth: map<ClassId, nat>, ghost rank: map<ClassId, nat>,
                          ghost comp: map<ClassId, nat>, netlist: Node)
    returns (netlist': Node, cs': ClassTable, left: set<ClassId>, warnings: seq<Warning>)
    requires M.HierarchyOk(M.Hierarchy(cs, depth, true)) && M.RankOk(M.Hierarchy(cs, depth, true), rank)
    requires M.NodeOk(M.Hierarchy(cs, depth, true), netlist)
    requires forall c :: c in cs && cs[c].base.Some? ==> c in M.ClassesIn(netlist)
    requires TableOk(cs, depth, comp) && Visitable(cs.Keys, netlist, false)
    ensures Grown(cs, cs') && Reshaped(netlist, netlist') && Settled(netlist')
    ensures left == M.NeedsRandomize(M.Hierarchy(cs, depth, true), M.Roots(netlist)) - Visited(netlist)
    ensures DeclaresAll(cs', M.NeedsRandomize(M.Hierarchy(cs, depth, true), M.Roots(netlist)) * Visited(netlist))
  {
    var h := M.Hierarchy(cs, depth, true);
    var marker := new M.Marker(h, rank, netlist);
    var v := new RandomizeVisitor(cs, depth, comp, marker.marked);
    var hs;
    ghost var ids;
    netlist', hs, ids := v.Visit(netlist, false);
    cs', left, warnings := v.cs, v.marked, v.warnings;
  }
}
