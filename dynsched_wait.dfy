/**
 * DynamicSchedulerWaitVisitor: turns the condition of every `wait` into an
 * expression over the tuple of values the scheduler hands it. A first pass
 * (NOTE) numbers the distinct variables of the condition in order of first
 * occurrence and keeps one reference per variable; a second pass (REPLACE)
 * replaces each reference by `std::get<i>(values)`, i its variable's
 * number. The wait then lists the kept references, and both tables are
 * cleared.
 */
module DynSchedWait {
  import opened DynSchedAst
  import opened Bits

  datatype Mode = Skip | Note | Replace

  /** The visitor's tables: variable -> number, variable -> kept reference. */
  datatype WState = WState(indices: map<nat, nat>, varrefps: map<nat, Expr>)

  /** A variable reference: its variable scope, its variable and its type. */
  datatype Ref = Ref(vsc: nat, varId: nat, dtype: DType)

  function AsExpr(r: Ref): Expr {
    VarRef(r.vsc, r.varId, r.dtype)
  }

  /** The variable references of an expression, in visiting order. */
  function Refs(e: Expr): (rs: seq<Ref>)
    decreases e, 1
  {
    match e
    case VarRef(vsc, v, dt) => [Ref(vsc, v, dt)]
    case ArraySel(f, b, _) => Refs(f) + Refs(b)
    case Sel(f, l, w, _) => Refs(f) + Refs(l) + Refs(w)
    case Op(_, args, _) => ArgsRefs(args)
    case _ => []
  }

  function ArgsRefs(args: seq<Expr>): seq<Ref>
    decreases args
  {
    if args == [] then [] else ArgsRefs(args[..|args| - 1]) + Refs(args[|args| - 1])
  }

  /** The variables of a list of references. */
  function VarIds(rs: seq<Ref>): (vs: seq<nat>)
    ensures |vs| == |rs| && forall k :: 0 <= k < |rs| ==> vs[k] == rs[k].varId
    decreases |rs|
  {
    if rs == [] then [] else VarIds(rs[..|rs| - 1]) + [rs[|rs| - 1].varId]
  }

  /** NOTE on one reference: a variable not seen yet gets the next number and keeps this reference. */
  function NoteRef(st: WState, r: Ref): WState {
    if r.varId in st.varrefps then st
    else WState(st.indices[r.varId := |st.indices|], st.varrefps[r.varId := AsExpr(r)])
  }

  /** NOTE over references in order. */
  function NoteScan(st: WState, rs: seq<Ref>): WState
    decreases |rs|
  {
    if rs == [] then st else NoteRef(NoteScan(st, rs[..|rs| - 1]), rs[|rs| - 1])
  }

  /** The distinct variables of a list, in order of first occurrence. */
  function Distinct(vs: seq<nat>): seq<nat>
    decreases |vs|
  {
    if vs == [] then []
    else
      var d := Distinct(vs[..|vs| - 1]);
      if vs[|vs| - 1] in d then d else d + [vs[|vs| - 1]]
  }

  /** The position of the first occurrence of v. */
  function IndexOf(vs: seq<nat>, v: nat): (i: nat)
    requires v in vs
    ensures i < |vs| && vs[i] == v && v !in vs[..i]
    decreases |vs|
  {
    if vs[0] == v then 0
    else
      var j := IndexOf(vs[1..], v);
      assert vs[..j + 1] == [vs[0]] + vs[1..][..j];
      j + 1
  }

  lemma IndexOfUnique(vs: seq<nat>, v: nat, j: nat)
    requires j < |vs| && vs[j] == v && v !in vs[..j]
    ensures IndexOf(vs, v) == j
  {
  }

  predicate NoDuplicates(d: seq<nat>) {
    forall i, j :: 0 <= i < j < |d| ==> d[i] != d[j]
  }

  /**
   * The tables after NOTE over `rs` from empty ones: d, the distinct
   * variables in order of first occurrence, are numbered 0, 1, ... in that
   * order, and each keeps its first reference.
   */
  ghost predicate Numbered(st: WState, rs: seq<Ref>, d: seq<nat>)
  {
    Indexed(st.indices, d) && SameKeys(st.varrefps, d) && Covers(d, VarIds(rs)) &&
    KeepsFirst(st.varrefps, rs)
  }

  /** d has no repetition and its variables are numbered by their positions. */
  ghost predicate Indexed(indices: map<nat, nat>, d: seq<nat>) {
    NoDuplicates(d) && |indices| == |d| && SameKeys(indices, d) &&
    forall i :: 0 <= i < |d| ==> indices[d[i]] == i
  }

  ghost predicate SameKeys<T>(m: map<nat, T>, d: seq<nat>) {
    forall v :: v in m <==> v in d
  }

  /** d and vs hold the same variables. */
  ghost predicate Covers(d: seq<nat>, vs: seq<nat>) {
    forall v :: v in d <==> v in vs
  }

  /** Each kept reference is the first reference to its variable. */
  ghost predicate KeepsFirst(refs: map<nat, Expr>, rs: seq<Ref>)
  {
    forall v :: v in refs ==> v in VarIds(rs) && refs[v] == AsExpr(rs[IndexOf(VarIds(rs), v)])
  }

  /** NOTE's numbering, on the variables alone. */
  function IdxScan(indices: map<nat, nat>, vs: seq<nat>): map<nat, nat>
    decreases |vs|
  {
    if vs == [] then indices
    else
      var m := IdxScan(indices, vs[..|vs| - 1]);
      if vs[|vs| - 1] in m then m else m[vs[|vs| - 1] := |m|]
  }

  /** NOTE numbers like IdxScan and keeps a reference for exactly the numbered variables. */
  lemma {:induction false} NoteScanSplit(st: WState, rs: seq<Ref>)
    requires st.indices.Keys == st.varrefps.Keys
    ensures NoteScan(st, rs).indices == IdxScan(st.indices, VarIds(rs))
    ensures NoteScan(st, rs).indices.Keys == NoteScan(st, rs).varrefps.Keys
    decreases |rs|
  {
    if rs != [] {
      NoteScanSplit(st, rs[..|rs| - 1]);
      assert VarIds(rs)[..|rs| - 1] == VarIds(rs[..|rs| - 1]);
    }
  }

  /** From an empty table, the distinct variables are numbered by first occurrence. */
  lemma {:induction false} IdxScanNumbers(vs: seq<nat>)
    ensures Indexed(IdxScan(map[], vs), Distinct(vs)) && Covers(Distinct(vs), vs)
    decreases |vs|
  {
    if vs != [] {
      var init := vs[..|vs| - 1];
      var v := vs[|vs| - 1];
      assert vs == init + [v];
      IdxScanNumbers(init);
      var m := IdxScan(map[], init);
      if v !in m {
        IndexedStep(m, Distinct(init), v);
      }
    }
  }

  lemma IndexedStep(indices: map<nat, nat>, d: seq<nat>, v: nat)
    requires Indexed(indices, d) && v !in d
    ensures Indexed(indices[v := |indices|], d + [v])
  {
    var d2 := d + [v];
    assert forall i :: 0 <= i < |d| ==> d2[i] == d[i];
  }

  /** From empty tables, each variable keeps its first reference. */
  lemma {:induction false} NoteScanKeepsFirst(rs: seq<Ref>)
    ensures var refs := NoteScan(WState(map[], map[]), rs).varrefps;
            KeepsFirst(refs, rs) && forall v :: v in refs <==> v in VarIds(rs)
    decreases |rs|
  {
    if rs != [] {
      var init := rs[..|rs| - 1];
      var r := rs[|rs| - 1];
      assert rs == init + [r];
      NoteScanKeepsFirst(init);
      KeepsFirstStep(NoteScan(WState(map[], map[]), init).varrefps, init, r);
    }
  }

  lemma KeepsFirstStep(refs: map<nat, Expr>, rs: seq<Ref>, r: Ref)
    requires KeepsFirst(refs, rs) && forall v :: v in refs <==> v in VarIds(rs)
    ensures var refs2 := if r.varId in refs then refs else refs[r.varId := AsExpr(r)];
            KeepsFirst(refs2, rs + [r]) && forall v :: v in refs2 <==> v in VarIds(rs + [r])
  {
    assert (rs + [r])[..|rs|] == rs;
    assert VarIds(rs + [r]) == VarIds(rs) + [r.varId];
    var refs2 := if r.varId in refs then refs else refs[r.varId := AsExpr(r)];
    assert forall v :: v in refs2 <==> v in VarIds(rs + [r]);
    KeptStep(refs, refs2, rs, r);
  }

  lemma KeptStep(refs: map<nat, Expr>, refs2: map<nat, Expr>, rs: seq<Ref>, r: Ref)
    requires KeepsFirst(refs, rs) && forall v :: v in refs <==> v in VarIds(rs)
    requires refs2 == if r.varId in refs then refs else refs[r.varId := AsExpr(r)]
    requires VarIds(rs + [r]) == VarIds(rs) + [r.varId]
    ensures KeepsFirst(refs2, rs + [r])
  {
    var vs2 := VarIds(rs + [r]);
    assert vs2[..|rs|] == VarIds(rs);
    forall v | v in refs2
      ensures v in vs2 && refs2[v] == AsExpr((rs + [r])[IndexOf(vs2, v)])
    {
      if v in refs {
        var i := IndexOf(VarIds(rs), v);
        assert vs2[..i] == VarIds(rs)[..i];
        IndexOfUnique(vs2, v, i);
      } else {
        IndexOfUnique(vs2, v, |rs|);
      }
    }
  }

  /** NOTE from empty tables numbers the distinct variables by first occurrence and keeps first references. */
  lemma NoteScanNumbers(rs: seq<Ref>)
    ensures Numbered(NoteScan(WState(map[], map[]), rs), rs, Distinct(VarIds(rs)))
  {
    NoteScanSplit(WState(map[], map[]), rs);
    IdxScanNumbers(VarIds(rs));
    NoteScanKeepsFirst(rs);
  }

  /** Numbering more variables keeps the numbers already given. */
  lemma {:induction false} IdxScanKeeps(m: map<nat, nat>, vs: seq<nat>)
    ensures forall v :: v in m ==> v in IdxScan(m, vs) && IdxScan(m, vs)[v] == m[v]
    decreases |vs|
  {
    if vs != [] {
      IdxScanKeeps(m, vs[..|vs| - 1]);
    }
  }

  lemma {:induction false} IdxScanAppend(m: map<nat, nat>, a: seq<nat>, b: seq<nat>)
    ensures IdxScan(IdxScan(m, a), b) == IdxScan(m, a + b)
    decreases |b|
  {
    if b == [] {
      assert a + b == a;
    } else {
      assert (a + b)[..|a + b| - 1] == a + b[..|b| - 1];
      IdxScanAppend(m, a, b[..|b| - 1]);
    }
  }

  /**
   * A variable first seen at position p gets as number the count of
   * distinct variables seen before p; later occurrences do not change it.
   */
  lemma IdxFirstOccurrence(vs: seq<nat>, p: nat)
    requires p < |vs| && vs[p] !in vs[..p]
    ensures vs[p] in IdxScan(map[], vs) && IdxScan(map[], vs)[vs[p]] == |Distinct(vs[..p])|
  {
    var m := IdxScan(map[], vs[..p]);
    IdxScanNumbers(vs[..p]);
    assert vs[..p + 1][..p] == vs[..p];
    assert vs[..p + 1] + vs[p + 1..] == vs;
    IdxScanAppend(map[], vs[..p + 1], vs[p + 1..]);
    IdxScanKeeps(IdxScan(map[], vs[..p + 1]), vs[p + 1..]);
  }

  /** The same, for the references of a wait condition. */
  lemma FirstOccurrenceIndex(rs: seq<Ref>, p: nat)
    requires p < |rs| && rs[p].varId !in VarIds(rs[..p])
    ensures rs[p].varId in NoteScan(WState(map[], map[]), rs).indices
    ensures NoteScan(WState(map[], map[]), rs).indices[rs[p].varId] == |Distinct(VarIds(rs[..p]))|
  {
    NoteScanSplit(WState(map[], map[]), rs);
    assert VarIds(rs)[..p] == VarIds(rs[..p]);
    IdxFirstOccurrence(VarIds(rs), p);
  }

  lemma {:induction false} NoteScanAppend(st: WState, a: seq<Ref>, b: seq<Ref>)
    ensures NoteScan(NoteScan(st, a), b) == NoteScan(st, a + b)
    decreases |b|
  {
    if b == [] {
      assert a + b == a;
    } else {
      assert (a + b)[..|a + b| - 1] == a + b[..|b| - 1];
      NoteScanAppend(st, a, b[..|b| - 1]);
    }
  }

  /** The code that reads the value of variable number i. */
  function GetText(i: nat): string {
    "std::get<" + Decimal(i) + ">(values)"
  }

  function Lookup(indices: map<nat, nat>, v: nat): nat {
    if v in indices then indices[v] else 0
  }

  /** REPLACE: every variable reference becomes the read of its number, with the reference's type. */
  function Replaced(indices: map<nat, nat>, e: Expr): Expr
    decreases e, 1
  {
    match e
    case VarRef(_, v, dt) => CMath(GetText(Lookup(indices, v)), dt)
    case ArraySel(f, b, dt) => ArraySel(Replaced(indices, f), Replaced(indices, b), dt)
    case Sel(f, l, w, dt) => Sel(Replaced(indices, f), Replaced(indices, l), Replaced(indices, w), dt)
    case Op(n, args, dt) => Op(n, ReplacedArgs(indices, args), dt)
    case _ => e
  }

  function ReplacedArgs(indices: map<nat, nat>, args: seq<Expr>): (r: seq<Expr>)
    ensures |r| == |args|
    decreases args
  {
    if args == [] then [] else ReplacedArgs(indices, args[..|args| - 1]) + [Replaced(indices, args[|args| - 1])]
  }

  /** The CMath nodes of an expression, in visiting order. */
  function CMaths(e: Expr): seq<Expr>
    decreases e, 1
  {
    match e
    case CMath(_, _) => [e]
    case ArraySel(f, b, _) => CMaths(f) + CMaths(b)
    case Sel(f, l, w, _) => CMaths(f) + CMaths(l) + CMaths(w)
    case Op(_, args, _) => ArgsCMaths(args)
    case _ => []
  }

  function ArgsCMaths(args: seq<Expr>): seq<Expr>
    decreases args
  {
    if args == [] then [] else ArgsCMaths(args[..|args| - 1]) + CMaths(args[|args| - 1])
  }

  /** The reads that replace references, in order. */
  function Gets(indices: map<nat, nat>, rs: seq<Ref>): (g: seq<Expr>)
    ensures |g| == |rs|
    ensures forall k :: 0 <= k < |rs| ==> g[k] == CMath(GetText(Lookup(indices, rs[k].varId)), rs[k].dtype)
    decreases |rs|
  {
    if rs == [] then [] else Gets(indices, rs[..|rs| - 1]) + [CMath(GetText(Lookup(indices, rs[|rs| - 1].varId)), rs[|rs| - 1].dtype)]
  }

  lemma {:induction false} GetsAppend(indices: map<nat, nat>, a: seq<Ref>, b: seq<Ref>)
    ensures Gets(indices, a + b) == Gets(indices, a) + Gets(indices, b)
  {
  }

  /**
   * In a condition without CMath nodes, REPLACE leaves no variable reference,
   * and the reads it puts in are, in order, the reads of the references'
   * numbers with the references' types.
   */
  lemma {:induction false} ReplacedReads(indices: map<nat, nat>, e: Expr)
    requires CMaths(e) == []
    ensures Refs(Replaced(indices, e)) == []
    ensures CMaths(Replaced(indices, e)) == Gets(indices, Refs(e))
    decreases e, 1
  {
    match e
    case VarRef(_, _, _) =>
    case ArraySel(f, b, _) =>
      ReplacedReads(indices, f);
      ReplacedReads(indices, b);
      GetsAppend(indices, Refs(f), Refs(b));
    case Sel(f, l, w, _) =>
      ReplacedReads(indices, f);
      ReplacedReads(indices, l);
      ReplacedReads(indices, w);
      GetsAppend(indices, Refs(f), Refs(l));
      GetsAppend(indices, Refs(f) + Refs(l), Refs(w));
    case Op(_, args, _) =>
      ReplacedArgsReads(indices, args);
    case Const(_, _) =>
    case CMath(_, _) =>
  }

  lemma {:induction false} ReplacedArgsReads(indices: map<nat, nat>, args: seq<Expr>)
    requires ArgsCMaths(args) == []
    ensures ArgsRefs(ReplacedArgs(indices, args)) == []
    ensures ArgsCMaths(ReplacedArgs(indices, args)) == Gets(indices, ArgsRefs(args))
    decreases args
  {
    if args != [] {
      var init := args[..|args| - 1];
      var last := args[|args| - 1];
      var r := ReplacedArgs(indices, args);
      assert r[..|r| - 1] == ReplacedArgs(indices, init);
      ReplacedArgsReads(indices, init);
      ReplacedReads(indices, last);
      GetsAppend(indices, ArgsRefs(init), Refs(last));
    }
  }

  /**
   * What the visitor makes of one wait: the replaced condition and the kept
   * references; the guarded statements are not entered.
   */
  function WaitDone(cond: Expr, body: seq<Node>): Node {
    var st := NoteScan(WState(map[], map[]), Refs(cond));
    WaitNode(Replaced(st.indices, cond), st.varrefps, body)
  }

  /**
   * After NOTE every variable of the condition has a number, so REPLACE
   * never misses: each reference becomes the read of its variable's first
   * -occurrence number, and the wait keeps exactly one reference per
   * variable, its first.
   */
  lemma WaitDoneMeaning(cond: Expr)
    ensures var rs := Refs(cond);
            var st := NoteScan(WState(map[], map[]), rs);
            Numbered(st, rs, Distinct(VarIds(rs))) &&
            forall k :: 0 <= k < |rs| ==> rs[k].varId in st.indices
  {
    var rs := Refs(cond);
    NoteScanNumbers(rs);
    NumberedCovers(NoteScan(WState(map[], map[]), rs), rs, Distinct(VarIds(rs)));
  }

  /** Numbered tables give every referenced variable a number. */
  lemma NumberedCovers(st: WState, rs: seq<Ref>, d: seq<nat>)
    requires Numbered(st, rs, d)
    ensures forall k :: 0 <= k < |rs| ==> rs[k].varId in st.indices
  {
    assert SameKeys(st.indices, d) && Covers(d, VarIds(rs));
    forall k | 0 <= k < |rs|
      ensures rs[k].varId in st.indices
    {
      assert VarIds(rs)[k] == rs[k].varId;
    }
  }

  /** The pass over the netlist: only waits change, and a wait's own statements are left as they are. */
  function WaitPass(n: Node): Node
    decreases n, 1
  {
    match n
    case WaitNode(cond, _, body) => WaitDone(cond, body)
    case CFuncNode(kids) => CFuncNode(WaitPassKids(n, |kids|))
    case ActiveNode(kids) => ActiveNode(WaitPassKids(n, |kids|))
    case OtherNode(kids) => OtherNode(WaitPassKids(n, |kids|))
    case _ => n
  }

  /**
   * Only the condition of a wait is visited: its statements, and any wait
   * among them, come out unchanged.
   */
  lemma WaitBodyUntouched(cond: Expr, varrefs: map<nat, Expr>, body: seq<Node>)
    ensures var r := WaitPass(WaitNode(cond, varrefs, body));
            r.WaitNode? && r.kids == body
  {
  }

  function WaitPassKids(n: Node, i: nat): (r: seq<Node>)
    requires (n.CFuncNode? || n.ActiveNode? || n.OtherNode?) && i <= |n.kids|
    ensures |r| == i
    decreases n, 0, i
  {
    if i == 0 then [] else WaitPassKids(n, i - 1) + [WaitPass(n.kids[i - 1])]
  }

  class WaitVisitor {
    var indices: map<nat, nat>
    var varrefps: map<nat, Expr>
    var mode: Mode

    function State(): WState
      reads this
    {
      WState(indices, varrefps)
    }

    /** Outside a wait nothing is noted or replaced and the tables are empty. */
    predicate Idle()
      reads this
    {
      mode == Skip && indices == map[] && varrefps == map[]
    }

    constructor ()
      ensures Idle()
    {
      indices := map[];
      varrefps := map[];
      mode := Skip;
    }

    /** Visits an expression: NOTE updates the tables, REPLACE rewrites the references. */
    method VisitExpr(e: Expr) returns (e2: Expr)
      modifies this`indices, this`varrefps
      ensures mode == Note ==> e2 == e && State() == NoteScan(old(State()), Refs(e))
      ensures mode == Replace ==> e2 == Replaced(indices, e) && State() == old(State())
      ensures mode == Skip ==> e2 == e && State() == old(State())
      decreases e, 1
    {
      match e
      case VarRef(_, v, dt) =>
        e2 := e;
        if mode == Note {
          if v !in varrefps {
            varrefps := varrefps[v := e];
            indices := indices[v := |indices|];
          }
          assert [e][..0] == [];
        } else if mode == Replace {
          var i := if v in indices then indices[v] else 0;
          e2 := CMath("std::get<" + Decimal(i) + ">(values)", dt);
        }
      case ArraySel(f, b, dt) =>
        ghost var st0 := State();
        var f2 := VisitExpr(f);
        var b2 := VisitExpr(b);
        e2 := ArraySel(f2, b2, dt);
        NoteScanAppend(st0, Refs(f), Refs(b));
      case Sel(f, l, w, dt) =>
        ghost var st0 := State();
        var f2 := VisitExpr(f);
        var l2 := VisitExpr(l);
        var w2 := VisitExpr(w);
        e2 := Sel(f2, l2, w2, dt);
        NoteScanAppend(st0, Refs(f), Refs(l));
        NoteScanAppend(st0, Refs(f) + Refs(l), Refs(w));
      case Op(n, args, dt) =>
        var args2 := VisitArgs(e);
        e2 := Op(n, args2, dt);
      case Const(_, _) =>
        e2 := e;
        assert Refs(e) == [];
      case CMath(_, _) =>
        e2 := e;
        assert Refs(e) == [];
    }

    method VisitArgs(e: Expr) returns (args2: seq<Expr>)
      requires e.Op?
      modifies this`indices, this`varrefps
      ensures mode == Note ==> args2 == e.args && State() == NoteScan(old(State()), ArgsRefs(e.args))
      ensures mode == Replace ==> args2 == ReplacedArgs(indices, e.args) && State() == old(State())
      ensures mode == Skip ==> args2 == e.args && State() == old(State())
      decreases e, 0
    {
      args2 := [];
      var i := 0;
      while i < |e.args|
        invariant 0 <= i <= |e.args|
        invariant mode == Note ==> args2 == e.args[..i] && State() == NoteScan(old(State()), ArgsRefs(e.args[..i]))
        invariant mode == Replace ==> args2 == ReplacedArgs(indices, e.args[..i]) && State() == old(State())
        invariant mode == Skip ==> args2 == e.args[..i] && State() == old(State())
      {
        var a := VisitExpr(e.args[i]);
        if mode == Note {
          NoteScanAppend(old(State()), ArgsRefs(e.args[..i]), Refs(e.args[i]));
        }
        assert e.args[..i + 1][..i] == e.args[..i];
        args2 := args2 + [a];
        i := i + 1;
      }
      assert e.args[..|e.args|] == e.args;
    }

    /** visit(AstWait): NOTE, then REPLACE, then the kept references, then empty tables. */
    method VisitWait(cond: Expr, body: seq<Node>) returns (n2: Node)
      requires Idle()
      modifies this
      ensures Idle() && n2 == WaitDone(cond, body)
    {
      mode := Note;
      var _ := VisitExpr(cond);
      mode := Replace;
      var cond2 := VisitExpr(cond);
      n2 := WaitNode(cond2, varrefps, body);
      indices := map[];
      varrefps := map[];
      mode := Skip;
    }

    method Visit(n: Node) returns (n2: Node)
      requires Idle()
      modifies this
      ensures Idle() && n2 == WaitPass(n)
      decreases n, 1
    {
      match n
      case WaitNode(cond, _, body) =>
        n2 := VisitWait(cond, body);
      case CFuncNode(kids) =>
        var kids2 := VisitKids(n);
        n2 := CFuncNode(kids2);
      case ActiveNode(kids) =>
        var kids2 := VisitKids(n);
        n2 := ActiveNode(kids2);
      case OtherNode(kids) =>
        var kids2 := VisitKids(n);
        n2 := OtherNode(kids2);
      case AssignDlyNode(_, _, _) =>
        n2 := n;
      case AssignNode(_, _) =>
        n2 := n;
    }

    method VisitKids(n: Node) returns (kids2: seq<Node>)
      requires Idle() && (n.CFuncNode? || n.ActiveNode? || n.OtherNode?)
      modifies this
      ensures Idle() && kids2 == WaitPassKids(n, |n.kids|)
      decreases n, 0
    {
      kids2 := [];
      var i := 0;
      while i < |n.kids|
        invariant 0 <= i <= |n.kids|
        invariant Idle() && kids2 == WaitPassKids(n, i)
      {
        var k := Visit(n.kids[i]);
        kids2 := kids2 + [k];
        i := i + 1;
      }
    }
  }
}
