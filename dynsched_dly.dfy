/**
 * The delayed-assignment rewrite of the dynamic-scheduler preparation pass
 * (DynamicSchedulerAssignDlyVisitor in src/V3DynamicScheduler.cpp).
 *
 * A non-blocking assignment whose target is an array element or a bit range
 * is split: each non-constant array index, the bit offset and a non-constant
 * value are first copied into temporaries by plain assignments, and the
 * delayed assignment that follows reads only those temporaries or constants.
 * The temporaries are variables created on demand, one per module and name,
 * with a new variable scope in the scope of the assigned variable.
 */
module DynSchedDly {
  import opened Wrappers
  import opened Bits
  import opened DynSchedAst
  import DynSchedWait

  /** The scope a variable scope lives in, and the module of that scope. */
  datatype ScopeOf = ScopeOf(scope: nat, mod: nat)

  /** Where a new variable takes its type from. */
  datatype VarKind =
    | OfDType(dtype: DType)   // the data type given by the caller
    | LikeVar(oldVsc: nat)    // the type of the variable of an existing scope (width 0)
    | Packed(width: nat)      // a packed vector of the given width

  /** A variable added to a module. */
  datatype NewVar = NewVar(mod: nat, name: string, kind: VarKind)

  /** A variable scope added to a scope, for the variable `varId`. */
  datatype NewVarScope = NewVarScope(scope: nat, varId: nat)

  /** A temporary: its variable scope and its variable. */
  datatype Temp = Temp(vsc: nat, varId: nat)

  /**
   * The variables the rewrite creates, numbered from `first` on in creation
   * order, and `modVarMap`, the table from (module, name) to such a variable.
   */
  datatype VarTable = VarTable(first: nat, vars: seq<NewVar>, modVarMap: map<(nat, string), nat>)

  /**
   * The scope of each known variable scope, and the variable scopes the
   * rewrite creates, numbered from `first` on in creation order.
   */
  datatype ScopeTable = ScopeTable(first: nat, scopes: map<nat, ScopeOf>, varScopes: seq<NewVarScope>)

  /** The three memo tables of temporaries, cleared at each active block. */
  datatype Memos = Memos(dimVars: map<(nat, nat), Temp>, lsbVars: map<nat, Temp>, valVars: map<nat, Temp>)

  /**
   * Everything the rewrite reads and changes: the tables above, the next
   * number of each variable scope (`scopeVecMap`), whether a C function (AstCFunc)
   * encloses the current node, the warnings issued, and whether an internal
   * error has ended the run.
   */
  datatype DState = DState(
    vt: VarTable,
    sc: ScopeTable,
    memos: Memos,
    scopeVecMap: map<nat, nat>,
    inCFunc: bool,
    warnings: seq<string>,
    failed: bool)

  datatype Created = Created(vt: VarTable, sc: ScopeTable, t: Temp)
  datatype ReadResult = ReadResult(st: DState, read: Expr, stmts: seq<Node>)
  datatype ReadsResult = ReadsResult(st: DState, dimReads: seq<Expr>, stmts: seq<Node>)
  datatype DlyResult = DlyResult(st: DState, stmts: seq<Node>)
  datatype VisitResult = VisitResult(st: DState, nodes: seq<Node>)

  const CFuncWarning := "Unsupported: Delayed assignment inside public function/task"

  const NoMemos := Memos(map[], map[], map[])

  function Initial(scopes: map<nat, ScopeOf>, firstVar: nat, firstVsc: nat): DState {
    DState(VarTable(firstVar, [], map[]), ScopeTable(firstVsc, scopes, []), NoMemos, map[], false, [], false)
  }

  function NextVar(vt: VarTable): nat { vt.first + |vt.vars| }
  function NextVsc(sc: ScopeTable): nat { sc.first + |sc.varScopes| }
  function Key(v: NewVar): (nat, string) { (v.mod, v.name) }

  /** `modVarMap` names exactly the created variables, one per (module, name). */
  ghost predicate VarsOk(vt: VarTable) {
    TableNamesVars(vt) && VarsInTable(vt)
  }

  ghost predicate TableNamesVars(vt: VarTable) {
    forall k :: k in vt.modVarMap ==>
      vt.first <= vt.modVarMap[k] < NextVar(vt) && Key(vt.vars[vt.modVarMap[k] - vt.first]) == k
  }

  ghost predicate VarsInTable(vt: VarTable) {
    forall i :: 0 <= i < |vt.vars| ==>
      Key(vt.vars[i]) in vt.modVarMap && vt.modVarMap[Key(vt.vars[i])] == vt.first + i
  }

  /** Every known variable scope is numbered below the next fresh one. */
  ghost predicate ScopesOk(sc: ScopeTable) {
    forall k :: k in sc.scopes ==> k < NextVsc(sc)
  }

  ghost predicate Valid(st: DState) { VarsOk(st.vt) && ScopesOk(st.sc) }

  /** `m2` keeps every entry of `m1`. */
  ghost predicate Extends<K, V>(m1: map<K, V>, m2: map<K, V>) {
    forall k :: k in m1 ==> k in m2 && m2[k] == m1[k]
  }

  lemma InitialValid(scopes: map<nat, ScopeOf>, firstVar: nat, firstVsc: nat)
    requires forall k :: k in scopes ==> k < firstVsc
    ensures Valid(Initial(scopes, firstVar, firstVsc))
  {
  }

  /** No two created variables share a module and a name. */
  lemma OneVarPerName(vt: VarTable, i: nat, j: nat)
    requires VarsOk(vt) && i < j < |vt.vars|
    ensures Key(vt.vars[i]) != Key(vt.vars[j])
  {
    assert vt.modVarMap[Key(vt.vars[i])] == vt.first + i;
  }

  // ---------------------------------------------------------------- createVarSc

  function KindFor(oldVsc: nat, width: nat, newDType: Option<DType>): VarKind {
    if newDType.Some? then OfDType(newDType.value)
    else if width == 0 then LikeVar(oldVsc)
    else Packed(width)
  }

  /** The table with the variable `v` added under its module and name. */
  function WithVar(vt: VarTable, v: NewVar): VarTable {
    VarTable(vt.first, vt.vars + [v], vt.modVarMap[Key(v) := NextVar(vt)])
  }

  /**
   * createVarSc: the variable for (module of the old scope, name), made now
   * if there is none yet, and a new variable scope for it in the old scope.
   */
  function VarScCreated(vt: VarTable, sc: ScopeTable, oldVsc: nat, name: string, width: nat,
                        newDType: Option<DType>): (r: Created)
    requires oldVsc in sc.scopes
    ensures oldVsc in r.sc.scopes
  {
    var so := sc.scopes[oldVsc];
    var key := (so.mod, name);
    var vt1 := if key in vt.modVarMap then vt else WithVar(vt, NewVar(so.mod, name, KindFor(oldVsc, width, newDType)));
    var t := Temp(NextVsc(sc), vt1.modVarMap[key]);
    Created(vt1, ScopeTable(sc.first, sc.scopes[t.vsc := so], sc.varScopes + [NewVarScope(so.scope, t.varId)]), t)
  }

  lemma WithVarOk(vt: VarTable, v: NewVar)
    requires VarsOk(vt) && Key(v) !in vt.modVarMap
    ensures VarsOk(WithVar(vt, v))
  {
    TableNamesStep(vt, v);
    VarsInTableStep(vt, v);
  }

  lemma TableNamesStep(vt: VarTable, v: NewVar)
    requires TableNamesVars(vt)
    ensures TableNamesVars(WithVar(vt, v))
  {
    var vt1 := WithVar(vt, v);
    forall k | k in vt1.modVarMap
      ensures vt1.first <= vt1.modVarMap[k] < NextVar(vt1) && Key(vt1.vars[vt1.modVarMap[k] - vt1.first]) == k
    {
      if k != Key(v) {
        assert vt1.vars[vt.modVarMap[k] - vt.first] == vt.vars[vt.modVarMap[k] - vt.first];
      }
    }
  }

  lemma VarsInTableStep(vt: VarTable, v: NewVar)
    requires VarsInTable(vt) && Key(v) !in vt.modVarMap
    ensures VarsInTable(WithVar(vt, v))
  {
    var vt1 := WithVar(vt, v);
    forall i | 0 <= i < |vt1.vars|
      ensures Key(vt1.vars[i]) in vt1.modVarMap && vt1.modVarMap[Key(vt1.vars[i])] == vt1.first + i
    {
      if i < |vt.vars| {
        assert vt1.vars[i] == vt.vars[i];
      }
    }
  }

  /** createVarSc keeps one variable per (module, name) and the scope numbering fresh. */
  lemma VarScCreatedValid(vt: VarTable, sc: ScopeTable, oldVsc: nat, name: string, width: nat,
                          newDType: Option<DType>)
    requires VarsOk(vt) && ScopesOk(sc) && oldVsc in sc.scopes
    ensures var r := VarScCreated(vt, sc, oldVsc, name, width, newDType); VarsOk(r.vt) && ScopesOk(r.sc)
  {
    var so := sc.scopes[oldVsc];
    if (so.mod, name) !in vt.modVarMap {
      WithVarOk(vt, NewVar(so.mod, name, KindFor(oldVsc, width, newDType)));
    }
  }

  /**
   * createVarSc makes a variable exactly when (module, name) is new, and the
   * temporary's variable carries that pair. It always adds one variable
   * scope, fresh and in the old scope.
   */
  lemma VarScCreatedFacts(vt: VarTable, sc: ScopeTable, oldVsc: nat, name: string, width: nat,
                          newDType: Option<DType>)
    requires VarsOk(vt) && ScopesOk(sc) && oldVsc in sc.scopes
    ensures var r := VarScCreated(vt, sc, oldVsc, name, width, newDType);
      var key := (sc.scopes[oldVsc].mod, name);
      && (key in vt.modVarMap <==> r.vt == vt)
      && (key !in vt.modVarMap ==> r.vt.vars == vt.vars + [NewVar(key.0, name, KindFor(oldVsc, width, newDType))])
      && r.vt.first <= r.t.varId < NextVar(r.vt) && Key(r.vt.vars[r.t.varId - r.vt.first]) == key
      && r.t.vsc !in sc.scopes && r.sc.scopes == sc.scopes[r.t.vsc := sc.scopes[oldVsc]]
      && r.sc.varScopes == sc.varScopes + [NewVarScope(sc.scopes[oldVsc].scope, r.t.varId)]
  {
    var key := (sc.scopes[oldVsc].mod, name);
    if key !in vt.modVarMap {
      assert |VarScCreated(vt, sc, oldVsc, name, width, newDType).vt.vars| == |vt.vars| + 1;
    }
  }

  // ---------------------------------------------------------------- temporaries

  /** A read of the temporary `t`, typed like the expression it holds. */
  function TempRef(t: Temp, dtype: DType): Expr { VarRef(t.vsc, t.varId, dtype) }

  function DimName(dim: nat, width: nat, num: nat): string {
    "__Vdlyvdim" + Decimal(dim) + "__" + Decimal(width) + "bit__v" + Decimal(num)
  }

  function LsbName(width: nat, num: nat): string {
    "__Vdlyvlsb__" + Decimal(width) + "bit__v" + Decimal(num)
  }

  function ValName(dtype: DType, num: nat): string {
    "__Vdlyvval__" + Dotless(dtype.name) + Decimal(dtype.width) + "__v" + Decimal(num)
  }

  /** `s` with every '.' turned into '_'. */
  function Dotless(s: string): string
    decreases |s|
  {
    if s == [] then []
    else Dotless(s[..|s| - 1]) + [if s[|s| - 1] == '.' then '_' else s[|s| - 1]]
  }

  /** Dotless keeps the length and every other character, and leaves no '.'. */
  lemma {:induction false} DotlessMeaning(s: string)
    ensures |Dotless(s)| == |s| && '.' !in Dotless(s)
    ensures forall i :: 0 <= i < |s| ==> Dotless(s)[i] == if s[i] == '.' then '_' else s[i]
    decreases |s|
  {
    if s != [] {
      DotlessMeaning(s[..|s| - 1]);
    }
  }

  /**
   * The value temporary's name has no '.', and it tells apart the numbers of
   * two rewrites under one data type.
   */
  lemma ValNameFacts(dtype: DType, n1: nat, n2: nat)
    ensures '.' !in ValName(dtype, n1)
    ensures ValName(dtype, n1) == ValName(dtype, n2) ==> n1 == n2
  {
    DotlessMeaning(dtype.name);
    var p := "__Vdlyvval__" + Dotless(dtype.name) + Decimal(dtype.width) + "__v";
    assert ValName(dtype, n1) == p + Decimal(n1) && ValName(dtype, n2) == p + Decimal(n2);
    if ValName(dtype, n1) == ValName(dtype, n2) {
      assert Decimal(n1) == ValName(dtype, n1)[|p|..];
      DecimalRoundTrip(n1);
      DecimalRoundTrip(n2);
    }
  }

  // ---------------------------------------------------------------- the three kinds of temporary

  /** The state with createVarSc's tables taken from `c`. */
  function WithCreated(st: DState, c: Created): DState { st.(vt := c.vt, sc := c.sc) }

  /**
   * One array index: a constant is used as it is; any other index is copied
   * into the temporary for its (dimension, width), made on first use.
   */
  function DimReadOf(st: DState, dim: nat, dimp: Expr, vsc: nat, num: nat): (r: ReadResult)
    requires vsc in st.sc.scopes
    ensures vsc in r.st.sc.scopes
  {
    if dimp.Const? then ReadResult(st, dimp, [])
    else
      var w := dimp.dtype.width;
      var key := (dim, w);
      var st1 := if key in st.memos.dimVars then st
        else var c := VarScCreated(st.vt, st.sc, vsc, DimName(dim, w, num), w, None);
             WithCreated(st, c).(memos := st.memos.(dimVars := st.memos.dimVars[key := c.t]));
      var ref := TempRef(st1.memos.dimVars[key], dimp.dtype);
      ReadResult(st1, ref, [AssignNode(ref, dimp)])
  }

  /** The indices of one assignment, dimension 0 first. */
  function DimReadsOf(st: DState, dims: seq<Expr>, vsc: nat, num: nat): (r: ReadsResult)
    requires vsc in st.sc.scopes
    ensures vsc in r.st.sc.scopes && |r.dimReads| == |dims|
    decreases |dims|
  {
    if dims == [] then ReadsResult(st, [], [])
    else
      var p := DimReadsOf(st, dims[..|dims| - 1], vsc, num);
      var d := DimReadOf(p.st, |dims| - 1, dims[|dims| - 1], vsc, num);
      ReadsResult(d.st, p.dimReads + [d.read], p.stmts + d.stmts)
  }

  /**
   * The bit offset of a bit-range target `bitsel`. It is used as it is when
   * the selected expression is a constant (the test is on the selected
   * expression, not on the offset); otherwise it is copied into the
   * temporary for its width, made on first use.
   */
  function LsbReadOf(st: DState, bitsel: Expr, vsc: nat, num: nat): (r: ReadResult)
    requires bitsel.Sel? && vsc in st.sc.scopes
    ensures vsc in r.st.sc.scopes
  {
    var lsb := bitsel.lsb;
    if bitsel.from.Const? then ReadResult(st, lsb, [])
    else
      var w := lsb.dtype.width;
      var st1 := if w in st.memos.lsbVars then st
        else var c := VarScCreated(st.vt, st.sc, vsc, LsbName(w, num), w, None);
             WithCreated(st, c).(memos := st.memos.(lsbVars := st.memos.lsbVars[w := c.t]));
      var ref := TempRef(st1.memos.lsbVars[w], lsb.dtype);
      ReadResult(st1, ref, [AssignNode(ref, lsb)])
  }

  /**
   * The assigned value: a constant is used as it is; any other value is
   * copied into the temporary for its data type, made on first use with
   * that data type.
   */
  function ValReadOf(st: DState, rhs: Expr, vsc: nat, num: nat): (r: ReadResult)
    requires vsc in st.sc.scopes
    ensures vsc in r.st.sc.scopes
  {
    if rhs.Const? then ReadResult(st, rhs, [])
    else
      var dt := rhs.dtype;
      var st1 := if dt.id in st.memos.valVars then st
        else var c := VarScCreated(st.vt, st.sc, vsc, ValName(dt, num), 0, Some(dt));
             WithCreated(st, c).(memos := st.memos.(valVars := st.memos.valVars[dt.id := c.t]));
      var ref := TempRef(st1.memos.valVars[dt.id], dt);
      ReadResult(st1, ref, [AssignNode(ref, rhs)])
  }

  // ---------------------------------------------------------------- select chains

  /** The expression under a bit range, or the target itself. */
  function Under(lhs: Expr): Expr {
    if lhs.Sel? then lhs.from else lhs
  }

  /** The indices of a chain of array selects, innermost (dimension 0) first. */
  function Dims(e: Expr): seq<Expr> {
    if e.ArraySel? then Dims(e.from) + [e.bit] else []
  }

  /** The data types of the selects of a chain, innermost first. */
  function DimTypes(e: Expr): (r: seq<DType>)
    ensures |r| == |Dims(e)|
  {
    if e.ArraySel? then DimTypes(e.from) + [e.dtype] else []
  }

  /** What a chain of array selects selects from. */
  function Base(e: Expr): Expr {
    if e.ArraySel? then Base(e.from) else e
  }

  /** The chain over `base` applying `idx` in order, innermost first. */
  function Rebuild(base: Expr, idx: seq<Expr>, types: seq<DType>): Expr
    requires |idx| == |types|
  {
    if idx == [] then base
    else ArraySel(Rebuild(base, idx[..|idx| - 1], types[..|types| - 1]), idx[|idx| - 1], types[|types| - 1])
  }

  function Reversed<T>(s: seq<T>): (r: seq<T>)
    ensures |r| == |s|
  {
    if s == [] then [] else [s[|s| - 1]] + Reversed(s[..|s| - 1])
  }

  lemma {:induction false} ReversedIndex<T>(s: seq<T>, i: nat)
    requires i < |s|
    ensures Reversed(s)[i] == s[|s| - 1 - i]
  {
    if i > 0 {
      ReversedIndex(s[..|s| - 1], i - 1);
    }
  }

  function Count(m: map<nat, nat>, k: nat): nat {
    if k in m then m[k] else 0
  }

  // ---------------------------------------------------------------- createDlyArray

  /**
   * createDlyArray: the statements replacing a delayed assignment to an
   * array element or a bit range, or None when no scoped variable lies
   * under the selects (an internal error in the modelled code). The
   * variable scope's next number is taken and advanced once.
   */
  function DlyArrayOf(st: DState, lhs: Expr, rhs: Expr): Option<DlyResult> {
    var v := Base(Under(lhs));
    if !v.VarRef? || v.vsc !in st.sc.scopes then None else Some(DlyRewrite(st, lhs, rhs, v))
  }

  /** The statements of createDlyArray once the variable `v` is known. */
  function DlyRewrite(st: DState, lhs: Expr, rhs: Expr, v: Expr): DlyResult
    requires v.VarRef? && v.vsc in st.sc.scopes
  {
    DlyTail(Counted(st, v.vsc), lhs, rhs, v, Count(st.scopeVecMap, v.vsc))
  }

  /** The next number of the variable scope `vsc` taken. */
  function Counted(st: DState, vsc: nat): DState {
    st.(scopeVecMap := st.scopeVecMap[vsc := Count(st.scopeVecMap, vsc) + 1])
  }

  /** The temporaries of rewrite number `num` of `v`, and the rebuilt delayed assignment. */
  function DlyTail(st: DState, lhs: Expr, rhs: Expr, v: Expr, num: nat): DlyResult
    requires v.VarRef? && v.vsc in st.sc.scopes
  {
    DlyFinish(DimReadsOf(st, Dims(Under(lhs)), v.vsc, num), lhs, rhs, v, num)
  }

  /** The part of DlyTail after the indices `ds`. */
  function DlyFinish(ds: ReadsResult, lhs: Expr, rhs: Expr, v: Expr, num: nat): DlyResult
    requires v.VarRef? && v.vsc in ds.st.sc.scopes && |ds.dimReads| == |Dims(Under(lhs))|
  {
    var selects := Rebuild(v, ds.dimReads, DimTypes(Under(lhs)));
    if lhs.Sel? then
      var ls := LsbReadOf(ds.st, lhs, v.vsc, num);
      var vs := ValReadOf(ls.st, rhs, v.vsc, num);
      DlyResult(vs.st, ds.stmts + ls.stmts + vs.stmts
                         + [AssignDlyNode(Sel(selects, ls.read, lhs.widthp, lhs.dtype), vs.read, true)])
    else
      var vs := ValReadOf(ds.st, rhs, v.vsc, num);
      DlyResult(vs.st, ds.stmts + vs.stmts + [AssignDlyNode(selects, vs.read, true)])
  }

  // ---------------------------------------------------------------- the visitor

  /**
   * The visitor over one node: the nodes that replace it and the new state.
   * A C function (AstCFunc) marks its body; an active block starts with empty
   * memo tables; a delayed assignment seen before is left alone; any other
   * one is marked, warned about inside a C function, and rewritten when
   * its target is an array element or a bit range.
   */
  function Visited(st: DState, n: Node): VisitResult
    decreases n
  {
    match n
    case CFuncNode(kids) =>
      var r := KidsVisited(st.(inCFunc := true), kids);
      VisitResult(r.st.(inCFunc := st.inCFunc), [CFuncNode(r.nodes)])
    case ActiveNode(kids) =>
      var r := KidsVisited(st.(memos := NoMemos), kids);
      VisitResult(r.st, [ActiveNode(r.nodes)])
    case AssignDlyNode(lhs, rhs, done) =>
      if done then VisitResult(st, [n]) else AssignDlyVisited(st, lhs, rhs)
    case OtherNode(kids) =>
      var r := KidsVisited(st, kids);
      VisitResult(r.st, [OtherNode(r.nodes)])
    case AssignNode(_, _) => VisitResult(st, [n])
    case WaitNode(cond, varrefs, kids) =>
      var r := KidsVisited(st, kids);
      VisitResult(r.st, [WaitNode(cond, varrefs, r.nodes)])
  }

  /** A delayed assignment met for the first time. */
  function AssignDlyVisited(st: DState, lhs: Expr, rhs: Expr): VisitResult {
    var st1 := WarnedIn(st);
    if lhs.ArraySel? || lhs.Sel? then
      match DlyArrayOf(st1, lhs, rhs)
      case Some(r) => VisitResult(r.st, r.stmts)
      case None => VisitResult(st1.(failed := true), [AssignDlyNode(lhs, rhs, true)])
    else VisitResult(st1, [AssignDlyNode(lhs, rhs, true)])
  }

  /** The visitor over a list of siblings, in order. */
  function KidsVisited(st: DState, kids: seq<Node>): VisitResult
    decreases kids
  {
    if kids == [] then VisitResult(st, [])
    else
      var p := KidsVisited(st, kids[..|kids| - 1]);
      var q := Visited(p.st, kids[|kids| - 1]);
      VisitResult(q.st, p.nodes + q.nodes)
  }

  // ---------------------------------------------------------------- properties of the rewrite

  /** The tables no temporary touches. */
  ghost predicate Frame(st: DState, st2: DState) {
    st2.scopeVecMap == st.scopeVecMap && st2.inCFunc == st.inCFunc && st2.warnings == st.warnings
    && st2.failed == st.failed
  }

  /**
   * How dimension `d` with index `idx` is read back: a constant directly,
   * anything else through the temporary the memo holds for (d, width).
   */
  ghost predicate IndexRead(d: nat, idx: Expr, read: Expr, memo: map<(nat, nat), Temp>) {
    if idx.Const? then read == idx
    else (d, idx.dtype.width) in memo && read == TempRef(memo[(d, idx.dtype.width)], idx.dtype)
  }

  /** The index assignments, in dimension order, one per non-constant index. */
  function IndexAssigns(dims: seq<Expr>, rds: seq<Expr>): seq<Node>
    requires |dims| == |rds|
  {
    if dims == [] then []
    else IndexAssigns(dims[..|dims| - 1], rds[..|rds| - 1])
         + (if dims[|dims| - 1].Const? then [] else [AssignNode(rds[|rds| - 1], dims[|dims| - 1])])
  }

  /** The bit-offset assignment of a rewrite from `lhs` to `newLhs`, if any. */
  function LsbAssign(lhs: Expr, newLhs: Expr): seq<Node> {
    if lhs.Sel? && newLhs.Sel? && !lhs.from.Const? then [AssignNode(newLhs.lsb, lhs.lsb)] else []
  }

  /** The value assignment of a rewrite reading `read`, if any. */
  function ValAssign(rhs: Expr, read: Expr): seq<Node> {
    if rhs.Const? then [] else [AssignNode(read, rhs)]
  }

  lemma IndexReadExtends(d: nat, idx: Expr, read: Expr, m1: map<(nat, nat), Temp>, m2: map<(nat, nat), Temp>)
    requires IndexRead(d, idx, read, m1) && Extends(m1, m2)
    ensures IndexRead(d, idx, read, m2)
  {
    if !idx.Const? {
      assert (d, idx.dtype.width) in m1;
    }
  }

  /**
   * One index: a constant is read directly and costs nothing; any other
   * index is assigned to the temporary the memo holds for its (dimension,
   * width), which is reused without creating anything when present.
   */
  lemma DimReadStep(st: DState, dim: nat, dimp: Expr, vsc: nat, num: nat)
    requires vsc in st.sc.scopes
    ensures var r := DimReadOf(st, dim, dimp, vsc, num);
      && IndexRead(dim, dimp, r.read, r.st.memos.dimVars)
      && r.stmts == (if dimp.Const? then [] else [AssignNode(r.read, dimp)])
      && ((dimp.Const? || (dim, dimp.dtype.width) in st.memos.dimVars) ==> r.st == st)
      && Extends(st.memos.dimVars, r.st.memos.dimVars)
      && r.st.memos.lsbVars == st.memos.lsbVars && r.st.memos.valVars == st.memos.valVars
      && Frame(st, r.st)
  {
  }

  /** The index temporaries leave the other memo tables and the bookkeeping alone. */
  lemma {:induction false} DimReadsFrame(st: DState, dims: seq<Expr>, vsc: nat, num: nat)
    requires vsc in st.sc.scopes
    ensures var r := DimReadsOf(st, dims, vsc, num);
      && Extends(st.memos.dimVars, r.st.memos.dimVars)
      && r.st.memos.lsbVars == st.memos.lsbVars && r.st.memos.valVars == st.memos.valVars
      && Frame(st, r.st)
    decreases |dims|
  {
    if dims != [] {
      var n := |dims| - 1;
      var p := DimReadsOf(st, dims[..n], vsc, num);
      DimReadsFrame(st, dims[..n], vsc, num);
      DimReadStep(p.st, n, dims[n], vsc, num);
    }
  }

  /** The index assignments come in dimension order, one per non-constant index. */
  lemma {:induction false} DimReadsStmts(st: DState, dims: seq<Expr>, vsc: nat, num: nat)
    requires vsc in st.sc.scopes
    ensures var r := DimReadsOf(st, dims, vsc, num); r.stmts == IndexAssigns(dims, r.dimReads)
    decreases |dims|
  {
    if dims != [] {
      var n := |dims| - 1;
      var p := DimReadsOf(st, dims[..n], vsc, num);
      DimReadsStmts(st, dims[..n], vsc, num);
      DimReadStep(p.st, n, dims[n], vsc, num);
      var r := DimReadsOf(st, dims, vsc, num);
      assert r.dimReads[..n] == p.dimReads;
    }
  }

  /**
   * Dimension d of the indices is read as IndexRead says, in the memo
   * tables as they stand after all indices.
   */
  lemma {:induction false} DimReadsReads(st: DState, dims: seq<Expr>, vsc: nat, num: nat)
    requires vsc in st.sc.scopes
    ensures var r := DimReadsOf(st, dims, vsc, num);
      forall d :: 0 <= d < |dims| ==> IndexRead(d, dims[d], r.dimReads[d], r.st.memos.dimVars)
    decreases |dims|
  {
    if dims != [] {
      var n := |dims| - 1;
      var p := DimReadsOf(st, dims[..n], vsc, num);
      DimReadsReads(st, dims[..n], vsc, num);
      var q := DimReadOf(p.st, n, dims[n], vsc, num);
      var m := q.st.memos.dimVars;
      DimReadStep(p.st, n, dims[n], vsc, num);
      var r := DimReadsOf(st, dims, vsc, num);
      assert r.dimReads == p.dimReads + [q.read] && r.st.memos.dimVars == m;
      forall d | 0 <= d < n
        ensures IndexRead(d, dims[d], r.dimReads[d], m)
      {
        assert dims[..n][d] == dims[d];
        IndexReadExtends(d, dims[d], p.dimReads[d], p.st.memos.dimVars, m);
      }
    }
  }

  /** The bit offset: read directly only when the selected expression is a constant, else via its width's temporary. */
  lemma LsbStep(st: DState, bitsel: Expr, vsc: nat, num: nat)
    requires bitsel.Sel? && vsc in st.sc.scopes
    ensures var r := LsbReadOf(st, bitsel, vsc, num); var w := bitsel.lsb.dtype.width;
      && (bitsel.from.Const? ==> r == ReadResult(st, bitsel.lsb, []))
      && (!bitsel.from.Const? ==>
            && w in r.st.memos.lsbVars && r.read == TempRef(r.st.memos.lsbVars[w], bitsel.lsb.dtype)
            && r.stmts == [AssignNode(r.read, bitsel.lsb)]
            && (w in st.memos.lsbVars ==> r.st == st))
      && Extends(st.memos.lsbVars, r.st.memos.lsbVars)
      && r.st.memos.dimVars == st.memos.dimVars && r.st.memos.valVars == st.memos.valVars
      && Frame(st, r.st)
  {
  }

  /** The value: a constant directly, anything else via the temporary of its data type. */
  lemma ValStep(st: DState, rhs: Expr, vsc: nat, num: nat)
    requires vsc in st.sc.scopes
    ensures var r := ValReadOf(st, rhs, vsc, num);
      && (rhs.Const? ==> r == ReadResult(st, rhs, []))
      && (!rhs.Const? ==>
            && rhs.dtype.id in r.st.memos.valVars && r.read == TempRef(r.st.memos.valVars[rhs.dtype.id], rhs.dtype)
            && r.stmts == [AssignNode(r.read, rhs)]
            && (rhs.dtype.id in st.memos.valVars ==> r.st == st))
      && Extends(st.memos.valVars, r.st.memos.valVars)
      && r.st.memos.dimVars == st.memos.dimVars && r.st.memos.lsbVars == st.memos.lsbVars
      && Frame(st, r.st)
  {
  }

  /** A chain rebuilt over a non-select applies exactly the given indices and types. */
  lemma {:induction false} RebuildDims(base: Expr, idx: seq<Expr>, types: seq<DType>)
    requires !base.ArraySel? && |idx| == |types|
    ensures Dims(Rebuild(base, idx, types)) == idx && DimTypes(Rebuild(base, idx, types)) == types
    ensures Base(Rebuild(base, idx, types)) == base
  {
    if idx != [] {
      RebuildDims(base, idx[..|idx| - 1], types[..|types| - 1]);
    }
  }

  /** Taking a chain apart and rebuilding it with the same indices gives it back. */
  lemma {:induction false} RebuildRoundTrip(e: Expr)
    ensures Rebuild(Base(e), Dims(e), DimTypes(e)) == e
  {
    if e.ArraySel? {
      RebuildRoundTrip(e.from);
      var d := Dims(e);
      assert d[..|d| - 1] == Dims(e.from);
      var t := DimTypes(e);
      assert t[..|t| - 1] == DimTypes(e.from);
    }
  }

  /** createDlyArray on success is its last stage applied to the indices of the counted state. */
  lemma DlyStages(st: DState, lhs: Expr, rhs: Expr)
    requires DlyArrayOf(st, lhs, rhs).Some?
    ensures var v := Base(Under(lhs)); var num := Count(st.scopeVecMap, v.vsc);
      && v.VarRef? && v.vsc in Counted(st, v.vsc).sc.scopes
      && DlyArrayOf(st, lhs, rhs).value
         == DlyFinish(DimReadsOf(Counted(st, v.vsc), Dims(Under(lhs)), v.vsc, num), lhs, rhs, v, num)
  {
  }

  /** The last stage: the bit offset and value assignments, then the marked delayed assignment. */
  lemma FinishShape(ds: ReadsResult, lhs: Expr, rhs: Expr, v: Expr, num: nat)
    requires v.VarRef? && v.vsc in ds.st.sc.scopes && |ds.dimReads| == |Dims(Under(lhs))|
    ensures var r := DlyFinish(ds, lhs, rhs, v, num);
      && |r.stmts| >= 1
      && var last := r.stmts[|r.stmts| - 1];
      && last.AssignDlyNode? && last.done
      && (lhs.Sel? <==> last.lhs.Sel?)
      && (lhs.Sel? ==> last.lhs.widthp == lhs.widthp && last.lhs.dtype == lhs.dtype)
      && Under(last.lhs) == Rebuild(v, ds.dimReads, DimTypes(Under(lhs)))
      && r.stmts == ds.stmts + LsbAssign(lhs, last.lhs) + ValAssign(rhs, last.rhs) + [last]
      && r.st.memos.dimVars == ds.st.memos.dimVars && Frame(ds.st, r.st)
  {
    if lhs.Sel? {
      LsbStep(ds.st, lhs, v.vsc, num);
      ValStep(LsbReadOf(ds.st, lhs, v.vsc, num).st, rhs, v.vsc, num);
    } else {
      ValStep(ds.st, rhs, v.vsc, num);
    }
  }

  /** The last stage changes no bookkeeping. */
  lemma FinishFrame(ds: ReadsResult, lhs: Expr, rhs: Expr, v: Expr, num: nat)
    requires v.VarRef? && v.vsc in ds.st.sc.scopes && |ds.dimReads| == |Dims(Under(lhs))|
    ensures Frame(ds.st, DlyFinish(ds, lhs, rhs, v, num).st)
  {
    if lhs.Sel? {
      LsbStep(ds.st, lhs, v.vsc, num);
      ValStep(LsbReadOf(ds.st, lhs, v.vsc, num).st, rhs, v.vsc, num);
    } else {
      ValStep(ds.st, rhs, v.vsc, num);
    }
  }

  /** The last stage reads the bit offset and the value as LsbStep and ValStep say. */
  lemma FinishReads(ds: ReadsResult, lhs: Expr, rhs: Expr, v: Expr, num: nat)
    requires v.VarRef? && v.vsc in ds.st.sc.scopes && |ds.dimReads| == |Dims(Under(lhs))|
    ensures var r := DlyFinish(ds, lhs, rhs, v, num);
      && |r.stmts| >= 1
      && var last := r.stmts[|r.stmts| - 1];
      && last.AssignDlyNode?
      && (lhs.Sel? && last.lhs.Sel? && !lhs.from.Const? ==>
            var w := lhs.lsb.dtype.width;
            w in r.st.memos.lsbVars && last.lhs.lsb == TempRef(r.st.memos.lsbVars[w], lhs.lsb.dtype))
      && (rhs.Const? ==> last.rhs == rhs)
      && (!rhs.Const? ==>
            rhs.dtype.id in r.st.memos.valVars && last.rhs == TempRef(r.st.memos.valVars[rhs.dtype.id], rhs.dtype))
  {
    if lhs.Sel? {
      LsbStep(ds.st, lhs, v.vsc, num);
      ValStep(LsbReadOf(ds.st, lhs, v.vsc, num).st, rhs, v.vsc, num);
    } else {
      ValStep(ds.st, rhs, v.vsc, num);
    }
  }

  /**
   * createDlyArray's output, in order: the index assignments in dimension
   * order, the bit-offset assignment, the value assignment, then the
   * delayed assignment, marked processed, whose target has the original's
   * variable, select types and bit range over the read-back indices. A bit
   * range over a constant never reaches this point, so on success its
   * offset always goes through a temporary.
   */
  lemma DlyArrayShape(st: DState, lhs: Expr, rhs: Expr)
    requires DlyArrayOf(st, lhs, rhs).Some?
    ensures var r := DlyArrayOf(st, lhs, rhs).value;
      && |r.stmts| >= 1
      && var last := r.stmts[|r.stmts| - 1];
      && last.AssignDlyNode? && last.done
      && (lhs.Sel? <==> last.lhs.Sel?)
      && (lhs.Sel? ==> !lhs.from.Const? && |LsbAssign(lhs, last.lhs)| == 1)
      && (lhs.Sel? ==> last.lhs.widthp == lhs.widthp && last.lhs.dtype == lhs.dtype)
      && Base(Under(last.lhs)) == Base(Under(lhs)) && DimTypes(Under(last.lhs)) == DimTypes(Under(lhs))
      && |Dims(Under(last.lhs))| == |Dims(Under(lhs))|
      && r.stmts == IndexAssigns(Dims(Under(lhs)), Dims(Under(last.lhs)))
                    + LsbAssign(lhs, last.lhs) + ValAssign(rhs, last.rhs) + [last]
  {
    var v := Base(Under(lhs));
    var num := Count(st.scopeVecMap, v.vsc);
    DlyStages(st, lhs, rhs);
    var ds := DimReadsOf(Counted(st, v.vsc), Dims(Under(lhs)), v.vsc, num);
    DimReadsStmts(Counted(st, v.vsc), Dims(Under(lhs)), v.vsc, num);
    FinishShape(ds, lhs, rhs, v, num);
    RebuildDims(v, ds.dimReads, DimTypes(Under(lhs)));
  }

  /**
   * Index d of the rewritten target is index d of the original when that
   * is a constant, else the temporary for (d, width) in the final state.
   */
  lemma DlyArrayIndexReads(st: DState, lhs: Expr, rhs: Expr)
    requires DlyArrayOf(st, lhs, rhs).Some?
    ensures var r := DlyArrayOf(st, lhs, rhs).value;
      && |r.stmts| >= 1
      && var last := r.stmts[|r.stmts| - 1];
      && last.AssignDlyNode? && |Dims(Under(last.lhs))| == |Dims(Under(lhs))|
      && forall d :: 0 <= d < |Dims(Under(lhs))| ==>
           IndexRead(d, Dims(Under(lhs))[d], Dims(Under(last.lhs))[d], r.st.memos.dimVars)
  {
    var v := Base(Under(lhs));
    var num := Count(st.scopeVecMap, v.vsc);
    DlyStages(st, lhs, rhs);
    var ds := DimReadsOf(Counted(st, v.vsc), Dims(Under(lhs)), v.vsc, num);
    DimReadsReads(Counted(st, v.vsc), Dims(Under(lhs)), v.vsc, num);
    FinishShape(ds, lhs, rhs, v, num);
    RebuildDims(v, ds.dimReads, DimTypes(Under(lhs)));
  }

  /**
   * The bit offset and the value of the rewritten assignment: a constant
   * value is used as it is, anything else is read through the temporaries
   * of its width and data type in the final state.
   */
  lemma DlyArrayTempReads(st: DState, lhs: Expr, rhs: Expr)
    requires DlyArrayOf(st, lhs, rhs).Some?
    ensures var r := DlyArrayOf(st, lhs, rhs).value;
      && |r.stmts| >= 1
      && var last := r.stmts[|r.stmts| - 1];
      && last.AssignDlyNode?
      && (lhs.Sel? ==> last.lhs.Sel? && var w := lhs.lsb.dtype.width;
            w in r.st.memos.lsbVars && last.lhs.lsb == TempRef(r.st.memos.lsbVars[w], lhs.lsb.dtype))
      && (rhs.Const? ==> last.rhs == rhs)
      && (!rhs.Const? ==>
            rhs.dtype.id in r.st.memos.valVars && last.rhs == TempRef(r.st.memos.valVars[rhs.dtype.id], rhs.dtype))
  {
    var v := Base(Under(lhs));
    var num := Count(st.scopeVecMap, v.vsc);
    DlyStages(st, lhs, rhs);
    DlyArrayShape(st, lhs, rhs);
    var ds := DimReadsOf(Counted(st, v.vsc), Dims(Under(lhs)), v.vsc, num);
    FinishReads(ds, lhs, rhs, v, num);
  }

  /** Each rewrite takes its variable scope's next number once and changes no other bookkeeping. */
  lemma DlyArrayCounter(st: DState, lhs: Expr, rhs: Expr)
    requires DlyArrayOf(st, lhs, rhs).Some?
    ensures var r := DlyArrayOf(st, lhs, rhs).value; var vsc := Base(Under(lhs)).vsc;
      && r.st.scopeVecMap == st.scopeVecMap[vsc := Count(st.scopeVecMap, vsc) + 1]
      && r.st.inCFunc == st.inCFunc && r.st.warnings == st.warnings && r.st.failed == st.failed
  {
    var v := Base(Under(lhs));
    var num := Count(st.scopeVecMap, v.vsc);
    DlyStages(st, lhs, rhs);
    var ds := DimReadsOf(Counted(st, v.vsc), Dims(Under(lhs)), v.vsc, num);
    DimReadsFrame(Counted(st, v.vsc), Dims(Under(lhs)), v.vsc, num);
    FinishFrame(ds, lhs, rhs, v, num);
  }

  // ---------------------------------------------------------------- one variable per name, over the pass

  lemma DimReadValid(st: DState, dim: nat, dimp: Expr, vsc: nat, num: nat)
    requires Valid(st) && vsc in st.sc.scopes
    ensures Valid(DimReadOf(st, dim, dimp, vsc, num).st)
  {
    if !dimp.Const? && (dim, dimp.dtype.width) !in st.memos.dimVars {
      var w := dimp.dtype.width;
      VarScCreatedValid(st.vt, st.sc, vsc, DimName(dim, w, num), w, None);
    }
  }

  lemma {:induction false} DimReadsValid(st: DState, dims: seq<Expr>, vsc: nat, num: nat)
    requires Valid(st) && vsc in st.sc.scopes
    ensures Valid(DimReadsOf(st, dims, vsc, num).st)
    decreases |dims|
  {
    if dims != [] {
      var n := |dims| - 1;
      DimReadsValid(st, dims[..n], vsc, num);
      DimReadValid(DimReadsOf(st, dims[..n], vsc, num).st, n, dims[n], vsc, num);
    }
  }

  lemma LsbReadValid(st: DState, bitsel: Expr, vsc: nat, num: nat)
    requires Valid(st) && bitsel.Sel? && vsc in st.sc.scopes
    ensures Valid(LsbReadOf(st, bitsel, vsc, num).st)
  {
    var w := bitsel.lsb.dtype.width;
    if !bitsel.from.Const? && w !in st.memos.lsbVars {
      VarScCreatedValid(st.vt, st.sc, vsc, LsbName(w, num), w, None);
    }
  }

  lemma ValReadValid(st: DState, rhs: Expr, vsc: nat, num: nat)
    requires Valid(st) && vsc in st.sc.scopes
    ensures Valid(ValReadOf(st, rhs, vsc, num).st)
  {
    if !rhs.Const? && rhs.dtype.id !in st.memos.valVars {
      VarScCreatedValid(st.vt, st.sc, vsc, ValName(rhs.dtype, num), 0, Some(rhs.dtype));
    }
  }

  lemma FinishValid(ds: ReadsResult, lhs: Expr, rhs: Expr, v: Expr, num: nat)
    requires Valid(ds.st) && v.VarRef? && v.vsc in ds.st.sc.scopes && |ds.dimReads| == |Dims(Under(lhs))|
    ensures Valid(DlyFinish(ds, lhs, rhs, v, num).st)
  {
    if lhs.Sel? {
      LsbReadValid(ds.st, lhs, v.vsc, num);
      ValReadValid(LsbReadOf(ds.st, lhs, v.vsc, num).st, rhs, v.vsc, num);
    } else {
      ValReadValid(ds.st, rhs, v.vsc, num);
    }
  }

  /** createDlyArray keeps one variable per (module, name). */
  lemma DlyArrayValid(st: DState, lhs: Expr, rhs: Expr)
    requires Valid(st) && DlyArrayOf(st, lhs, rhs).Some?
    ensures Valid(DlyArrayOf(st, lhs, rhs).value.st)
  {
    var v := Base(Under(lhs));
    var num := Count(st.scopeVecMap, v.vsc);
    DlyStages(st, lhs, rhs);
    DimReadsValid(Counted(st, v.vsc), Dims(Under(lhs)), v.vsc, num);
    FinishValid(DimReadsOf(Counted(st, v.vsc), Dims(Under(lhs)), v.vsc, num), lhs, rhs, v, num);
  }

  /**
   * The whole pass keeps one variable per (module, name), and every scope
   * number below the next one: createVarSc never makes a second variable
   * for a name, however many assignments reuse it.
   */
  lemma {:induction false} VisitedValid(st: DState, n: Node)
    requires Valid(st)
    ensures Valid(Visited(st, n).st)
    decreases n, 1
  {
    match n
    case CFuncNode(kids) => KidsVisitedValid(st.(inCFunc := true), kids);
    case ActiveNode(kids) => KidsVisitedValid(st.(memos := NoMemos), kids);
    case OtherNode(kids) => KidsVisitedValid(st, kids);
    case AssignDlyNode(lhs, rhs, done) =>
      if !done && (lhs.ArraySel? || lhs.Sel?) {
        var st1 := WarnedIn(st);
        if DlyArrayOf(st1, lhs, rhs).Some? {
          DlyArrayValid(st1, lhs, rhs);
        }
      }
    case AssignNode(_, _) =>
    case WaitNode(_, _, kids) => KidsVisitedValid(st, kids);
  }

  lemma {:induction false} KidsVisitedValid(st: DState, kids: seq<Node>)
    requires Valid(st)
    ensures Valid(KidsVisited(st, kids).st)
    decreases kids, 0
  {
    if kids != [] {
      var n := |kids| - 1;
      KidsVisitedValid(st, kids[..n]);
      VisitedValid(KidsVisited(st, kids[..n]).st, kids[n]);
    }
  }

  /**
   * One delayed assignment: a processed one is left as it is; any other is
   * warned about exactly once inside a C function, marked processed,
   * and only rewritten when its target is an array element or a bit range;
   * a rewrite that finds no scoped variable sets the failure latch.
   */
  lemma AssignDlyFacts(st: DState, lhs: Expr, rhs: Expr, done: bool)
    ensures var r := Visited(st, AssignDlyNode(lhs, rhs, done));
      && (done ==> r == VisitResult(st, [AssignDlyNode(lhs, rhs, done)]))
      && (!done && !lhs.ArraySel? && !lhs.Sel? ==> r.nodes == [AssignDlyNode(lhs, rhs, true)])
      && (!done ==> r.st.warnings == st.warnings + (if st.inCFunc then [CFuncWarning] else []))
      && (!done ==> r.st.inCFunc == st.inCFunc)
      && (r.st.failed <==> st.failed || (!done && (lhs.ArraySel? || lhs.Sel?) && DlyArrayOf(WarnedIn(st), lhs, rhs).None?))
  {
    if !done && (lhs.ArraySel? || lhs.Sel?) && DlyArrayOf(WarnedIn(st), lhs, rhs).Some? {
      DlyArrayCounter(WarnedIn(st), lhs, rhs);
      GeneratedInert(WarnedIn(st), lhs, rhs);
    }
  }

  /** The state a first-seen delayed assignment is rewritten in: warned when inside a C function. */
  function WarnedIn(st: DState): DState {
    if st.inCFunc then st.(warnings := st.warnings + [CFuncWarning]) else st
  }

  /** An active block starts afresh: what the memo tables held before does not matter. */
  lemma ActiveForgets(st: DState, m: Memos, kids: seq<Node>)
    ensures Visited(st, ActiveNode(kids)) == Visited(st.(memos := m), ActiveNode(kids))
  {
  }

  // ---------------------------------------------------------------- processed marks

  /** Every delayed assignment in `n` carries the processed mark. */
  ghost predicate Done(n: Node) {
    match n
    case CFuncNode(kids) => AllDone(kids)
    case ActiveNode(kids) => AllDone(kids)
    case OtherNode(kids) => AllDone(kids)
    case AssignDlyNode(_, _, done) => done
    case AssignNode(_, _) => true
    case WaitNode(_, _, kids) => AllDone(kids)
  }

  ghost predicate AllDone(ns: seq<Node>) {
    forall i :: 0 <= i < |ns| ==> Done(ns[i])
  }

  /** Plain assignments and processed delayed assignments: what a rewrite emits. */
  ghost predicate Inert(ns: seq<Node>) {
    forall i :: 0 <= i < |ns| ==> ns[i].AssignNode? || (ns[i].AssignDlyNode? && ns[i].done)
  }

  lemma {:induction false} IndexAssignsInert(dims: seq<Expr>, rds: seq<Expr>)
    requires |dims| == |rds|
    ensures Inert(IndexAssigns(dims, rds))
    decreases |dims|
  {
    if dims != [] {
      IndexAssignsInert(dims[..|dims| - 1], rds[..|rds| - 1]);
    }
  }

  lemma InertAppend(a: seq<Node>, b: seq<Node>)
    requires Inert(a) && Inert(b)
    ensures Inert(a + b)
  {
    forall i | 0 <= i < |a + b|
      ensures (a + b)[i].AssignNode? || ((a + b)[i].AssignDlyNode? && (a + b)[i].done)
    {
      if i < |a| { assert (a + b)[i] == a[i]; } else { assert (a + b)[i] == b[i - |a|]; }
    }
  }

  /** createDlyArray emits only plain assignments and processed delayed assignments. */
  lemma GeneratedInert(st: DState, lhs: Expr, rhs: Expr)
    requires DlyArrayOf(st, lhs, rhs).Some?
    ensures Inert(DlyArrayOf(st, lhs, rhs).value.stmts)
  {
    var r := DlyArrayOf(st, lhs, rhs).value;
    DlyArrayShape(st, lhs, rhs);
    var last := r.stmts[|r.stmts| - 1];
    var ia := IndexAssigns(Dims(Under(lhs)), Dims(Under(last.lhs)));
    IndexAssignsInert(Dims(Under(lhs)), Dims(Under(last.lhs)));
    var la := LsbAssign(lhs, last.lhs);
    var va := ValAssign(rhs, last.rhs);
    assert Inert(la) && Inert(va) && Inert([last]);
    InertAppend(ia, la);
    InertAppend(ia + la, va);
    InertAppend(ia + la + va, [last]);
  }

  /** A later visit leaves what createDlyArray emitted, and the state, alone. */
  lemma GeneratedRevisited(st: DState, lhs: Expr, rhs: Expr, st2: DState)
    requires DlyArrayOf(st, lhs, rhs).Some?
    ensures var ns := DlyArrayOf(st, lhs, rhs).value.stmts; KidsVisited(st2, ns) == VisitResult(st2, ns)
  {
    GeneratedInert(st, lhs, rhs);
    InertVisited(st2, DlyArrayOf(st, lhs, rhs).value.stmts);
  }

  lemma {:induction false} InertVisited(st: DState, ns: seq<Node>)
    requires Inert(ns)
    ensures KidsVisited(st, ns) == VisitResult(st, ns)
    decreases |ns|
  {
    if ns != [] {
      var n := |ns| - 1;
      assert Inert(ns[..n]) by {
        forall i | 0 <= i < n ensures ns[..n][i] == ns[i] { }
      }
      InertVisited(st, ns[..n]);
      LastSplit(ns);
    }
  }

  lemma AllDoneAppend(a: seq<Node>, b: seq<Node>)
    requires AllDone(a) && AllDone(b)
    ensures AllDone(a + b)
  {
    forall i | 0 <= i < |a + b| ensures Done((a + b)[i]) {
      if i < |a| { assert (a + b)[i] == a[i]; } else { assert (a + b)[i] == b[i - |a|]; }
    }
  }

  /** After the visit every delayed assignment carries the processed mark. */
  lemma {:induction false} VisitedDone(st: DState, n: Node)
    ensures AllDone(Visited(st, n).nodes)
    decreases n, 1
  {
    match n
    case CFuncNode(kids) => KidsVisitedDone(st.(inCFunc := true), kids);
    case ActiveNode(kids) => KidsVisitedDone(st.(memos := NoMemos), kids);
    case OtherNode(kids) => KidsVisitedDone(st, kids);
    case AssignDlyNode(lhs, rhs, done) =>
      if !done && (lhs.ArraySel? || lhs.Sel?) {
        var st1 := WarnedIn(st);
        if DlyArrayOf(st1, lhs, rhs).Some? {
          GeneratedInert(st1, lhs, rhs);
        }
      }
    case AssignNode(_, _) =>
    case WaitNode(_, _, kids) => KidsVisitedDone(st, kids);
  }

  lemma {:induction false} KidsVisitedDone(st: DState, kids: seq<Node>)
    ensures AllDone(KidsVisited(st, kids).nodes)
    decreases kids, 0
  {
    if kids != [] {
      var n := |kids| - 1;
      KidsVisitedDone(st, kids[..n]);
      var p := KidsVisited(st, kids[..n]);
      VisitedDone(p.st, kids[n]);
      AllDoneAppend(p.nodes, Visited(p.st, kids[n]).nodes);
    }
  }

  /** A tree whose delayed assignments are all processed comes back unchanged. */
  lemma {:induction false} DoneFixed(st: DState, n: Node)
    requires Done(n)
    ensures Visited(st, n).nodes == [n]
    decreases n, 1
  {
    match n
    case CFuncNode(kids) => KidsDoneFixed(st.(inCFunc := true), kids);
    case ActiveNode(kids) => KidsDoneFixed(st.(memos := NoMemos), kids);
    case OtherNode(kids) => KidsDoneFixed(st, kids);
    case AssignDlyNode(_, _, _) =>
    case AssignNode(_, _) =>
    case WaitNode(_, _, kids) => KidsDoneFixed(st, kids);
  }

  lemma {:induction false} KidsDoneFixed(st: DState, kids: seq<Node>)
    requires AllDone(kids)
    ensures KidsVisited(st, kids).nodes == kids
    decreases kids, 0
  {
    if kids != [] {
      var n := |kids| - 1;
      AllDonePrefix(kids, n);
      KidsDoneFixed(st, kids[..n]);
      DoneFixed(KidsVisited(st, kids[..n]).st, kids[n]);
      KidsFixedStep(st, kids);
    }
  }

  lemma AllDonePrefix(kids: seq<Node>, n: nat)
    requires AllDone(kids) && n <= |kids|
    ensures AllDone(kids[..n])
  {
    forall i | 0 <= i < n ensures Done(kids[..n][i]) {
      assert kids[..n][i] == kids[i];
    }
  }

  /** A non-empty sequence is its front followed by its last element. */
  lemma LastSplit<T>(s: seq<T>)
    requires s != []
    ensures s[..|s| - 1] + [s[|s| - 1]] == s
  {
  }

  lemma KidsFixedStep(st: DState, kids: seq<Node>)
    requires kids != []
    requires KidsVisited(st, kids[..|kids| - 1]).nodes == kids[..|kids| - 1]
    requires Visited(KidsVisited(st, kids[..|kids| - 1]).st, kids[|kids| - 1]).nodes == [kids[|kids| - 1]]
    ensures KidsVisited(st, kids).nodes == kids
  {
    var n := |kids| - 1;
    var p := KidsVisited(st, kids[..n]);
    var q := Visited(p.st, kids[n]);
    assert KidsVisited(st, kids).nodes == p.nodes + q.nodes;
    LastSplit(kids);
  }

  /** Running the rewrite again, from any state, changes no node: the pass is idempotent on the tree. */
  lemma VisitIdempotent(st: DState, st2: DState, n: Node)
    ensures var ns := Visited(st, n).nodes; KidsVisited(st2, ns).nodes == ns
  {
    VisitedDone(st, n);
    KidsDoneFixed(st2, Visited(st, n).nodes);
  }

  // ---------------------------------------------------------------- the imperative visitor

  /** Replaces every '.' of a data type's name by '_', in place. */
  method Underscored(name: string) returns (s: string)
    ensures s == Dotless(name)
  {
    s := name;
    for i := 0 to |s|
      invariant |s| == |name|
      invariant s[..i] == Dotless(name[..i])
      invariant forall j :: i <= j < |s| ==> s[j] == name[j]
    {
      assert name[..i + 1][..i] == name[..i];
      if s[i] == '.' {
        s := s[i := '_'];
      }
      assert s[..i + 1] == s[..i] + [s[i]];
    }
    assert name[..|name|] == name;
  }

  /**
   * DynamicSchedulerAssignDlyVisitor. The variables and variable scopes it
   * adds to the netlist are the fields `vars`, `scopes` and `varScopes`;
   * the rest are the visitor's own tables.
   */
  class AssignDlyVisitor {
    const firstVar: nat
    const firstVsc: nat
    var vars: seq<NewVar>
    var modVarMap: map<(nat, string), nat>
    var scopes: map<nat, ScopeOf>
    var varScopes: seq<NewVarScope>
    var dimVars: map<(nat, nat), Temp>
    var lsbVars: map<nat, Temp>
    var valVars: map<nat, Temp>
    var scopeVecMap: map<nat, nat>
    var inCFunc: bool
    var warnings: seq<string>
    var failed: bool

    function State(): DState
      reads this
    {
      DState(VarTable(firstVar, vars, modVarMap), ScopeTable(firstVsc, scopes, varScopes),
             Memos(dimVars, lsbVars, valVars), scopeVecMap, inCFunc, warnings, failed)
    }

    constructor (scopes0: map<nat, ScopeOf>, firstVar0: nat, firstVsc0: nat)
      ensures State() == Initial(scopes0, firstVar0, firstVsc0)
    {
      firstVar, firstVsc := firstVar0, firstVsc0;
      vars, modVarMap := [], map[];
      scopes, varScopes := scopes0, [];
      dimVars, lsbVars, valVars := map[], map[], map[];
      scopeVecMap, inCFunc, warnings, failed := map[], false, [], false;
    }

    method CreateVarSc(oldVsc: nat, name: string, width: nat, newDType: Option<DType>) returns (t: Temp)
      requires oldVsc in scopes
      modifies this
      ensures var c := VarScCreated(old(State()).vt, old(State()).sc, oldVsc, name, width, newDType);
        State() == WithCreated(old(State()), c) && t == c.t
    {
      var so := scopes[oldVsc];
      var key := (so.mod, name);
      var varId: nat;
      if key in modVarMap {
        varId := modVarMap[key];
      } else {
        var kind: VarKind;
        if newDType.Some? {
          kind := OfDType(newDType.value);
        } else if width == 0 {
          kind := LikeVar(oldVsc);
        } else {
          kind := Packed(width);
        }
        varId := firstVar + |vars|;
        vars := vars + [NewVar(so.mod, name, kind)];
        modVarMap := modVarMap[key := varId];
      }
      t := Temp(firstVsc + |varScopes|, varId);
      scopes := scopes[t.vsc := so];
      varScopes := varScopes + [NewVarScope(so.scope, varId)];
    }

    /** The index loop of createDlyArray; the reads are pushed to the front. */
    method IndexTemps(dimvalp: seq<Expr>, vsc: nat, num: nat) returns (stmts: seq<Node>, dimreadps: seq<Expr>)
      requires vsc in scopes
      modifies this
      ensures var r := DimReadsOf(old(State()), dimvalp, vsc, num);
        State() == r.st && stmts == r.stmts && dimreadps == Reversed(r.dimReads)
    {
      stmts, dimreadps := [], [];
      for dimension := 0 to |dimvalp|
        invariant vsc in scopes
        invariant var r := DimReadsOf(old(State()), dimvalp[..dimension], vsc, num);
          State() == r.st && stmts == r.stmts && dimreadps == Reversed(r.dimReads)
      {
        assert dimvalp[..dimension + 1][..dimension] == dimvalp[..dimension];
        var stmt, read := IndexTemp(dimension, dimvalp[dimension], vsc, num);
        stmts := stmts + stmt;
        dimreadps := [read] + dimreadps;
      }
      assert dimvalp[..|dimvalp|] == dimvalp;
    }

    /** One step of the index loop. */
    method IndexTemp(dimension: nat, dimp: Expr, vsc: nat, num: nat) returns (stmts: seq<Node>, read: Expr)
      requires vsc in scopes
      modifies this
      ensures var r := DimReadOf(old(State()), dimension, dimp, vsc, num);
        State() == r.st && stmts == r.stmts && read == r.read
    {
      if dimp.Const? {
        stmts, read := [], dimp;
      } else {
        var key := (dimension, dimp.dtype.width);
        var bitvsc: Temp;
        if key in dimVars {
          bitvsc := dimVars[key];
        } else {
          bitvsc := CreateVarSc(vsc, DimName(dimension, dimp.dtype.width, num), dimp.dtype.width, None);
          dimVars := dimVars[key := bitvsc];
        }
        read := TempRef(bitvsc, dimp.dtype);
        stmts := [AssignNode(read, dimp)];
      }
    }

    /** The bit-offset part of createDlyArray. */
    method LsbTemp(bitsel: Expr, vsc: nat, num: nat) returns (stmts: seq<Node>, bitread: Expr)
      requires bitsel.Sel? && vsc in scopes
      modifies this
      ensures var r := LsbReadOf(old(State()), bitsel, vsc, num);
        State() == r.st && stmts == r.stmts && bitread == r.read
    {
      var lsbvaluep := bitsel.lsb;
      if bitsel.from.Const? {
        stmts, bitread := [], lsbvaluep;
      } else {
        var w := lsbvaluep.dtype.width;
        var bitvsc: Temp;
        if w in lsbVars {
          bitvsc := lsbVars[w];
        } else {
          bitvsc := CreateVarSc(vsc, LsbName(w, num), w, None);
          lsbVars := lsbVars[w := bitvsc];
        }
        bitread := TempRef(bitvsc, lsbvaluep.dtype);
        stmts := [AssignNode(bitread, lsbvaluep)];
      }
    }

    /** The value part of createDlyArray. */
    method ValTemp(rhs: Expr, vsc: nat, num: nat) returns (stmts: seq<Node>, valread: Expr)
      requires vsc in scopes
      modifies this
      ensures var r := ValReadOf(old(State()), rhs, vsc, num);
        State() == r.st && stmts == r.stmts && valread == r.read
    {
      if rhs.Const? {
        stmts, valread := [], rhs;
      } else {
        var dtype := rhs.dtype;
        var valvarname := Underscored(dtype.name);
        valvarname := "__Vdlyvval__" + valvarname + Decimal(dtype.width) + "__v" + Decimal(num);
        var valvsc: Temp;
        if dtype.id in valVars {
          valvsc := valVars[dtype.id];
        } else {
          valvsc := CreateVarSc(vsc, valvarname, 0, Some(dtype));
          valVars := valVars[dtype.id := valvsc];
        }
        valread := TempRef(valvsc, dtype);
        stmts := [AssignNode(valread, rhs)];
      }
    }
  
    /** createDlyArray. */
    method CreateDlyArray(lhs: Expr, rhs: Expr) returns (result: Option<seq<Node>>)
      requires lhs.ArraySel? || lhs.Sel?
      modifies this
      ensures var r := DlyArrayOf(old(State()), lhs, rhs);
        && (r.None? ==> result.None? && State() == old(State()))
        && (r.Some? ==> result == Some(r.value.stmts) && State() == r.value.st)
    {
      var dimvalp, dimtypes, varref := FindSelects(lhs);
      if varref.None? || varref.value.vsc !in scopes {
        return None;
      }
      result := Rewrite(lhs, rhs, dimvalp, dimtypes, varref.value);
    }

    /** The rest of createDlyArray once the variable is known: its number is taken first. */
    method Rewrite(lhs: Expr, rhs: Expr, dimvalp: seq<Expr>, dimtypes: seq<DType>, varrefp: Expr)
      returns (result: Option<seq<Node>>)
      requires varrefp.VarRef? && varrefp.vsc in scopes
      requires dimvalp == Dims(Under(lhs)) && dimtypes == DimTypes(Under(lhs))
      modifies this
      ensures var r := DlyRewrite(old(State()), lhs, rhs, varrefp);
        State() == r.st && result == Some(r.stmts)
    {
      var vsc := varrefp.vsc;
      var modVecNum := if vsc in scopeVecMap then scopeVecMap[vsc] else 0;
      scopeVecMap := scopeVecMap[vsc := modVecNum + 1];
      assert State() == Counted(old(State()), vsc);
      result := Tail(lhs, rhs, dimvalp, dimtypes, varrefp, modVecNum);
    }

    /** The temporaries of createDlyArray and the rebuilt delayed assignment. */
    method Tail(lhs: Expr, rhs: Expr, dimvalp: seq<Expr>, dimtypes: seq<DType>, varrefp: Expr, modVecNum: nat)
      returns (result: Option<seq<Node>>)
      requires varrefp.VarRef? && varrefp.vsc in scopes
      requires dimvalp == Dims(Under(lhs)) && dimtypes == DimTypes(Under(lhs))
      modifies this
      ensures var r := DlyTail(old(State()), lhs, rhs, varrefp, modVecNum);
        State() == r.st && result == Some(r.stmts)
    {
      ghost var ds := DimReadsOf(State(), dimvalp, varrefp.vsc, modVecNum);
      var stmts, dimreadps := IndexTemps(dimvalp, varrefp.vsc, modVecNum);
      result := Finish(lhs, rhs, dimtypes, varrefp, modVecNum, stmts, dimreadps, ds);
    }

    /** The bit offset, the value and the rebuilt delayed assignment, after the indices `ds`. */
    method Finish(lhs: Expr, rhs: Expr, dimtypes: seq<DType>, varrefp: Expr, modVecNum: nat,
                  stmts: seq<Node>, dimreadps: seq<Expr>, ghost ds: ReadsResult)
      returns (result: Option<seq<Node>>)
      requires varrefp.VarRef? && varrefp.vsc in scopes && State() == ds.st
      requires |ds.dimReads| == |Dims(Under(lhs))| && dimtypes == DimTypes(Under(lhs))
      requires stmts == ds.stmts && dimreadps == Reversed(ds.dimReads)
      modifies this
      ensures var r := DlyFinish(ds, lhs, rhs, varrefp, modVecNum);
        State() == r.st && result == Some(r.stmts)
    {
      var vsc := varrefp.vsc;
      if lhs.Sel? {
        var lsbStmts, bitread := LsbTemp(lhs, vsc, modVecNum);
        var valStmts, valread := ValTemp(rhs, vsc, modVecNum);
        var selects := Rebuilt(varrefp, dimreadps, dimtypes, ds.dimReads);
        selects := Sel(selects, bitread, lhs.widthp, lhs.dtype);
        result := Some(stmts + lsbStmts + valStmts + [AssignDlyNode(selects, valread, true)]);
      } else {
        var valStmts, valread := ValTemp(rhs, vsc, modVecNum);
        var selects := Rebuilt(varrefp, dimreadps, dimtypes, ds.dimReads);
        result := Some(stmts + valStmts + [AssignDlyNode(selects, valread, true)]);
      }
    }

    method Visit(n: Node) returns (nodes: seq<Node>)
      modifies this
      ensures VisitResult(State(), nodes) == Visited(old(State()), n)
      decreases n, 1
    {
      match n
      case CFuncNode(kids) =>
        var saved := inCFunc;
        inCFunc := true;
        var kids2 := VisitKids(kids);
        inCFunc := saved;
        nodes := [CFuncNode(kids2)];
      case ActiveNode(kids) =>
        dimVars, lsbVars, valVars := map[], map[], map[];
        var kids2 := VisitKids(kids);
        nodes := [ActiveNode(kids2)];
      case AssignDlyNode(lhs, rhs, done) =>
        if done {
          nodes := [n];
        } else {
          nodes := VisitAssignDly(lhs, rhs);
        }
      case OtherNode(kids) =>
        var kids2 := VisitKids(kids);
        nodes := [OtherNode(kids2)];
      case AssignNode(_, _) =>
        nodes := [n];
      case WaitNode(cond, varrefs, kids) =>
        var kids2 := VisitKids(kids);
        nodes := [WaitNode(cond, varrefs, kids2)];
    }

    /** A delayed assignment not seen before. */
    method VisitAssignDly(lhs: Expr, rhs: Expr) returns (nodes: seq<Node>)
      modifies this
      ensures VisitResult(State(), nodes) == AssignDlyVisited(old(State()), lhs, rhs)
    {
      if inCFunc {
        warnings := warnings + [CFuncWarning];
      }
      if lhs.ArraySel? || lhs.Sel? {
        var stmts := CreateDlyArray(lhs, rhs);
        if stmts.Some? {
          nodes := stmts.value;
        } else {
          failed := true;
          nodes := [AssignDlyNode(lhs, rhs, true)];
        }
      } else {
        nodes := [AssignDlyNode(lhs, rhs, true)];
      }
    }

    method VisitKids(kids: seq<Node>) returns (nodes: seq<Node>)
      modifies this
      ensures VisitResult(State(), nodes) == KidsVisited(old(State()), kids)
      decreases kids, 0
    {
      nodes := [];
      for i := 0 to |kids|
        invariant VisitResult(State(), nodes) == KidsVisited(old(State()), kids[..i])
      {
        assert kids[..i + 1][..i] == kids[..i];
        var more := Visit(kids[i]);
        nodes := nodes + more;
      }
      assert kids[..|kids|] == kids;
    }
  }

  /** The target analysis of createDlyArray: the indices, their types and the variable under them. */
  method FindSelects(lhs: Expr) returns (dimvalp: seq<Expr>, dimtypes: seq<DType>, varref: Option<Expr>)
    requires lhs.ArraySel? || lhs.Sel?
    ensures dimvalp == Dims(Under(lhs)) && dimtypes == DimTypes(Under(lhs))
    ensures varref == if Base(Under(lhs)).VarRef? then Some(Base(Under(lhs))) else None
  {
    var arraysel: Option<Expr> := None;
    if lhs.Sel? {
      if lhs.from.ArraySel? {
        arraysel := Some(lhs.from);
      }
    } else {
      arraysel := Some(lhs);
    }
    dimvalp, dimtypes, varref := [], [], None;
    if arraysel.Some? {
      var dimsel := arraysel.value;
      while dimsel.ArraySel?
        invariant Dims(arraysel.value) == Dims(dimsel) + dimvalp
        invariant DimTypes(arraysel.value) == DimTypes(dimsel) + dimtypes
        invariant Base(dimsel) == Base(arraysel.value)
        decreases dimsel
      {
        dimvalp := [dimsel.bit] + dimvalp;
        dimtypes := [dimsel.dtype] + dimtypes;
        dimsel := dimsel.from;
      }
      if dimsel.VarRef? {
        varref := Some(dimsel);
      }
    }
    if varref.None? && lhs.Sel? && lhs.from.VarRef? {
      varref := Some(lhs.from);
    }
  }

  /** The rebuild loop of createDlyArray, over the reads pushed to the front. */
  method Rebuilt(varref: Expr, dimreadps: seq<Expr>, dimtypes: seq<DType>, ghost dimReads: seq<Expr>)
    returns (selects: Expr)
    requires dimreadps == Reversed(dimReads) && |dimtypes| == |dimReads|
    ensures selects == Rebuild(varref, dimReads, dimtypes)
  {
    selects := varref;
    var dimension: int := |dimreadps| - 1;
    while dimension >= 0
      invariant -1 <= dimension < |dimreadps|
      invariant selects == Rebuild(varref, dimReads[..|dimReads| - 1 - dimension], dimtypes[..|dimReads| - 1 - dimension])
      decreases dimension
    {
      var k := |dimreadps| - 1 - dimension;
      ReversedIndex(dimReads, dimension);
      assert dimReads[..k + 1][..k] == dimReads[..k] && dimtypes[..k + 1][..k] == dimtypes[..k];
      selects := ArraySel(selects, dimreadps[dimension], dimtypes[k]);
      dimension := dimension - 1;
    }
    assert dimReads[..|dimReads|] == dimReads && dimtypes[..|dimReads|] == dimtypes;
  }

  /**
   * dynSched: the delayed-assignment rewrite over the whole netlist, then,
   * unless it ended in an internal error, the wait-variable pass.
   */
  method DynSched(netlist: Node, scopes: map<nat, ScopeOf>, firstVar: nat, firstVsc: nat)
    returns (result: Option<Node>, st: DState)
    requires netlist.OtherNode?
    ensures var r := Visited(Initial(scopes, firstVar, firstVsc), netlist);
      && st == r.st && |r.nodes| == 1
      && (result.Some? <==> !st.failed)
      && (result.Some? ==> result.value == DynSchedWait.WaitPass(r.nodes[0]))
  {
    var v := new AssignDlyVisitor(scopes, firstVar, firstVsc);
    var nodes := v.Visit(netlist);
    st := v.State();
    if st.failed {
      return None, st;
    }
    var w := new DynSchedWait.WaitVisitor();
    var out := w.Visit(nodes[0]);
    result := Some(out);
  }
}
