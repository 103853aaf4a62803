/**
 * V3Dynamic: marks the processes (initial, always, final) and the tasks and
 * functions that need the dynamic scheduler.
 *
 * One flag is raised by what the visitor meets and read and cleared at the
 * next process or task/function it finishes: a reference to a variable of a
 * predefined `mailbox`, `semaphore` or `process` class; a delay inside a
 * task; a call of a task/function that is already dynamic, virtual or
 * DPI-imported; a task/function that is itself virtual or, with the
 * stratified scheduler, whose statements belong to different regions.
 */
module Dynamic {
  import opened Wrappers

  /** A scheduling region (VRegion); NoRegion is VRegion::NONE. */
  datatype VRegion = NoRegion | Region(r: nat)

  /** The class of a referenced variable, when it has one: predefined or not, and its original name. */
  datatype RefClass = RefClass(predefined: bool, origName: string)

  /** What the visitor tells apart. A task/function or process carries an identity; a call names its callee. */
  datatype DKind =
    | ProcKind(id: nat)
    | FTaskKind(id: nat, isTask: bool)
    | FTaskRefKind(callee: nat)
    | VarRefKind(cls: Option<RefClass>)
    | DelayKind
    | OtherKind

  /** A node: its kind, whether it is a statement (AstNodeStmt) and its region, and its children. */
  datatype DNode = DNode(kind: DKind, isStmt: bool, region: VRegion, kids: seq<DNode>)

  /** The attributes of a task/function other visitors read through a call's task pointer. */
  datatype FTaskAttrs = FTaskAttrs(isVirtual: bool, dpiImport: bool)

  // ----- DynamicRegionCheckerVisitor -----

  /** The checker's fields: the reference region and the mixed flag. */
  datatype RegionState = RegionState(region: VRegion, mixed: bool)

  /** One statement: the first region becomes the reference, a later different one sets mixed for good. */
  function StmtChecked(st: RegionState, r: VRegion): RegionState {
    if st.region == NoRegion then RegionState(r, st.mixed)
    else if st.region != r then RegionState(st.region, true)
    else st
  }

  /** The checker on a node: a statement is checked and not entered; any other node is walked. */
  function RegionVisited(st: RegionState, n: DNode): RegionState
    decreases n, 1
  {
    if n.isStmt then StmtChecked(st, n.region) else RegionKidsVisited(st, n, |n.kids|)
  }

  function RegionKidsVisited(st: RegionState, n: DNode, i: nat): RegionState
    requires i <= |n.kids|
    decreases n, 0, i
  {
    if i == 0 then st else RegionVisited(RegionKidsVisited(st, n, i - 1), n.kids[i - 1])
  }

  /** The regions of the statements the checker meets below a node, in order. */
  function StmtRegions(n: DNode): seq<VRegion>
    decreases n, 1
  {
    if n.isStmt then [n.region] else KidsStmtRegions(n, |n.kids|)
  }

  function KidsStmtRegions(n: DNode, i: nat): seq<VRegion>
    requires i <= |n.kids|
    decreases n, 0, i
  {
    if i == 0 then [] else KidsStmtRegions(n, i - 1) + StmtRegions(n.kids[i - 1])
  }

  /** The statements of one task/function are mixed: a set region is followed by a different one. */
  ghost predicate Mixed(rs: seq<VRegion>) {
    exists i, j :: 0 <= i < j < |rs| && rs[i] != NoRegion && rs[j] != rs[i]
  }

  /** The statements checked one after the other. */
  function RegionScan(st: RegionState, rs: seq<VRegion>): RegionState
    decreases |rs|
  {
    if rs == [] then st else StmtChecked(RegionScan(st, rs[..|rs| - 1]), rs[|rs| - 1])
  }

  /** The first set region of rs, or NoRegion. */
  function FirstSet(rs: seq<VRegion>): VRegion
    decreases |rs|
  {
    if rs == [] then NoRegion else if rs[0] != NoRegion then rs[0] else FirstSet(rs[1..])
  }

  /** From a fresh checker: the reference is the first set region, and mixed holds exactly for mixed regions. */
  lemma {:induction false} RegionScanMixed(rs: seq<VRegion>)
    ensures RegionScan(RegionState(NoRegion, false), rs).region == FirstSet(rs)
    ensures RegionScan(RegionState(NoRegion, false), rs).mixed <==> Mixed(rs)
    decreases |rs|
  {
    if rs != [] {
      var init := rs[..|rs| - 1];
      var r := rs[|rs| - 1];
      assert rs == init + [r];
      RegionScanMixed(init);
      FirstSetSnoc(init, r);
      var f := FirstSet(init);
      if Mixed(rs) && !Mixed(init) {
        var i, j :| 0 <= i < j < |rs| && rs[i] != NoRegion && rs[j] != rs[i];
        if j == |init| {
          FirstSetUnmixed(init, i);
        }
      }
      if Mixed(init) {
        var i, j :| 0 <= i < j < |init| && init[i] != NoRegion && init[j] != init[i];
        assert rs[i] == init[i] && rs[j] == init[j];
      }
      if f != NoRegion && r != f {
        FirstSetIn(init);
        var i :| 0 <= i < |init| && init[i] == f;
        assert rs[i] == f && rs[|init|] == r;
      }
    }
  }

  /** The first set region of a longer list. */
  lemma {:induction false} FirstSetSnoc(init: seq<VRegion>, r: VRegion)
    ensures FirstSet(init + [r]) == if FirstSet(init) != NoRegion then FirstSet(init) else r
    decreases |init|
  {
    if init != [] {
      assert (init + [r])[1..] == init[1..] + [r];
      FirstSetSnoc(init[1..], r);
    }
  }

  /** A set first region occurs in the list. */
  lemma {:induction false} FirstSetIn(rs: seq<VRegion>)
    requires FirstSet(rs) != NoRegion
    ensures exists i :: 0 <= i < |rs| && rs[i] == FirstSet(rs)
    decreases |rs|
  {
    if rs[0] == NoRegion {
      FirstSetIn(rs[1..]);
      var i :| 0 <= i < |rs[1..]| && rs[1..][i] == FirstSet(rs[1..]);
      assert rs[i + 1] == FirstSet(rs);
    }
  }

  /** In a list that is not mixed, every set region is the first one. */
  lemma {:induction false} FirstSetUnmixed(rs: seq<VRegion>, i: nat)
    requires !Mixed(rs) && i < |rs| && rs[i] != NoRegion
    ensures FirstSet(rs) == rs[i]
    decreases |rs|
  {
    if rs[0] == NoRegion {
      assert i > 0;
      assert !Mixed(rs[1..]);
      FirstSetUnmixed(rs[1..], i - 1);
    } else if i > 0 {
      assert rs[i] == rs[0];
    }
  }

  /** Visiting a subtree checks its statements in order. */
  lemma {:induction false} RegionVisitedScans(st: RegionState, n: DNode)
    ensures RegionVisited(st, n) == RegionScan(st, StmtRegions(n))
    decreases n, 1
  {
    if n.isStmt {
      assert RegionScan(st, [n.region]) == StmtChecked(RegionScan(st, []), n.region);
    } else {
      RegionKidsVisitedScans(st, n, |n.kids|);
    }
  }

  lemma {:induction false} RegionKidsVisitedScans(st: RegionState, n: DNode, i: nat)
    requires i <= |n.kids|
    ensures RegionKidsVisited(st, n, i) == RegionScan(st, KidsStmtRegions(n, i))
    decreases n, 0, i
  {
    if i > 0 {
      RegionKidsVisitedScans(st, n, i - 1);
      RegionVisitedScans(RegionKidsVisited(st, n, i - 1), n.kids[i - 1]);
      RegionScanAppend(st, KidsStmtRegions(n, i - 1), StmtRegions(n.kids[i - 1]));
    }
  }

  lemma {:induction false} RegionScanAppend(st: RegionState, a: seq<VRegion>, b: seq<VRegion>)
    ensures RegionScan(RegionScan(st, a), b) == RegionScan(st, a + b)
    decreases |b|
  {
    if b == [] {
      assert a + b == a;
    } else {
      assert (a + b)[..|a + b| - 1] == a + b[..|b| - 1];
      RegionScanAppend(st, a, b[..|b| - 1]);
    }
  }

  /** The checker run on a task/function: its children, from a fresh state. */
  function IsMixed(n: DNode): bool {
    RegionKidsVisited(RegionState(NoRegion, false), n, |n.kids|).mixed
  }

  /** isMixed() holds exactly when the statements of the task/function have mixed regions. */
  lemma IsMixedMeaning(n: DNode)
    ensures IsMixed(n) <==> Mixed(KidsStmtRegions(n, |n.kids|))
  {
    RegionKidsVisitedScans(RegionState(NoRegion, false), n, |n.kids|);
    RegionScanMixed(KidsStmtRegions(n, |n.kids|));
  }

  class RegionChecker {
    var region: VRegion
    var mixed: bool

    function State(): RegionState
      reads this
    {
      RegionState(region, mixed)
    }

    constructor ()
      ensures State() == RegionState(NoRegion, false)
    {
      region := NoRegion;
      mixed := false;
    }

    method Visit(n: DNode)
      modifies this
      ensures State() == RegionVisited(old(State()), n)
      decreases n, 1
    {
      if n.isStmt {
        if region == NoRegion {
          region := n.region;
        } else if region != n.region {
          mixed := true;
        }
      } else {
        IterateChildren(n);
      }
    }

    method IterateChildren(n: DNode)
      modifies this
      ensures State() == RegionKidsVisited(old(State()), n, |n.kids|)
      decreases n, 0
    {
      var i := 0;
      while i < |n.kids|
        invariant 0 <= i <= |n.kids|
        invariant State() == RegionKidsVisited(old(State()), n, i)
      {
        Visit(n.kids[i]);
        i := i + 1;
      }
    }
  }

  // ----- DynamicVisitor -----

  /** The visitor's fields and the dynamic flags of processes and tasks/functions (by identity). */
  datatype DState = DState(dynamic: bool, inTask: bool, marks: map<nat, bool>)

  /** A class whose variables need the dynamic scheduler. */
  predicate SchedulerClass(cls: Option<RefClass>) {
    cls.Some? && cls.value.predefined && cls.value.origName in {"mailbox", "semaphore", "process"}
  }

  /** The dynamic flag a task/function carries now; one never marked reads false. */
  function Marked(marks: map<nat, bool>, id: nat): bool {
    id in marks && marks[id]
  }

  function Attrs(attrs: map<nat, FTaskAttrs>, id: nat): FTaskAttrs {
    if id in attrs then attrs[id] else FTaskAttrs(false, false)
  }

  /** markAndClear: node `id` gets the flag, which is then cleared. */
  function Cleared(st: DState, id: nat): DState {
    DState(false, st.inTask, st.marks[id := st.dynamic])
  }

  /** What visiting a node does to the state; `stratified` is the stratified-scheduler option. */
  function Visited(attrs: map<nat, FTaskAttrs>, stratified: bool, st: DState, n: DNode): DState
    decreases n, 1
  {
    match n.kind
    case ProcKind(id) =>
      Cleared(KidsVisited(attrs, stratified, st, n, |n.kids|), id)
    case FTaskKind(id, isTask) =>
      var s0 := DState(st.dynamic || (stratified && IsMixed(n)), st.inTask || isTask, st.marks);
      var s1 := KidsVisited(attrs, stratified, s0, n, |n.kids|);
      Cleared(DState(s1.dynamic || Attrs(attrs, id).isVirtual, false, s1.marks), id)
    case FTaskRefKind(callee) =>
      var s1 := KidsVisited(attrs, stratified, st, n, |n.kids|);
      var a := Attrs(attrs, callee);
      DState(s1.dynamic || Marked(s1.marks, callee) || a.isVirtual || a.dpiImport, s1.inTask, s1.marks)
    case VarRefKind(cls) =>
      KidsVisited(attrs, stratified, DState(st.dynamic || SchedulerClass(cls), st.inTask, st.marks), n, |n.kids|)
    case DelayKind =>
      KidsVisited(attrs, stratified, DState(st.dynamic || st.inTask, st.inTask, st.marks), n, |n.kids|)
    case OtherKind =>
      KidsVisited(attrs, stratified, st, n, |n.kids|)
  }

  function KidsVisited(attrs: map<nat, FTaskAttrs>, stratified: bool, st: DState, n: DNode, i: nat): DState
    requires i <= |n.kids|
    decreases n, 0, i
  {
    if i == 0 then st else Visited(attrs, stratified, KidsVisited(attrs, stratified, st, n, i - 1), n.kids[i - 1])
  }

  // ----- What raises the flag -----

  /** No process and no task/function below this node. */
  predicate NoUnit(n: DNode)
    decreases n, 1
  {
    !n.kind.ProcKind? && !n.kind.FTaskKind? && KidsNoUnit(n, |n.kids|)
  }

  predicate KidsNoUnit(n: DNode, i: nat)
    requires i <= |n.kids|
    decreases n, 0, i
  {
    i == 0 || (KidsNoUnit(n, i - 1) && NoUnit(n.kids[i - 1]))
  }

  /** A node that raises the flag by itself, inside a task (`inTask`) or not, with the flags `marks`. */
  predicate Raises(attrs: map<nat, FTaskAttrs>, inTask: bool, marks: map<nat, bool>, n: DNode) {
    match n.kind
    case FTaskRefKind(callee) =>
      Marked(marks, callee) || Attrs(attrs, callee).isVirtual || Attrs(attrs, callee).dpiImport
    case VarRefKind(cls) => SchedulerClass(cls)
    case DelayKind => inTask
    case _ => false
  }

  /** Some node of the subtree raises the flag. */
  predicate AnyRaises(attrs: map<nat, FTaskAttrs>, inTask: bool, marks: map<nat, bool>, n: DNode)
    decreases n, 1
  {
    Raises(attrs, inTask, marks, n) || KidsRaise(attrs, inTask, marks, n, |n.kids|)
  }

  predicate KidsRaise(attrs: map<nat, FTaskAttrs>, inTask: bool, marks: map<nat, bool>, n: DNode, i: nat)
    requires i <= |n.kids|
    decreases n, 0, i
  {
    i > 0 && (KidsRaise(attrs, inTask, marks, n, i - 1) || AnyRaises(attrs, inTask, marks, n.kids[i - 1]))
  }

  /**
   * Below a process or task/function, in a subtree without further ones:
   * the flag ends raised exactly when it was raised before or some node of
   * the subtree raises it; nothing else changes.
   */
  lemma {:induction false} FlagRaised(attrs: map<nat, FTaskAttrs>, stratified: bool, st: DState, n: DNode)
    requires NoUnit(n)
    ensures Visited(attrs, stratified, st, n) ==
            DState(st.dynamic || AnyRaises(attrs, st.inTask, st.marks, n), st.inTask, st.marks)
    decreases n, 1
  {
    if n.kind.FTaskRefKind? {
      KidsFlagRaised(attrs, stratified, st, n, |n.kids|);
    } else {
      var st0 := if Raises(attrs, st.inTask, st.marks, n) then DState(true, st.inTask, st.marks) else st;
      KidsFlagRaised(attrs, stratified, st0, n, |n.kids|);
    }
  }

  lemma {:induction false} KidsFlagRaised(attrs: map<nat, FTaskAttrs>, stratified: bool, st: DState, n: DNode, i: nat)
    requires i <= |n.kids| && KidsNoUnit(n, i)
    ensures KidsVisited(attrs, stratified, st, n, i) ==
            DState(st.dynamic || KidsRaise(attrs, st.inTask, st.marks, n, i), st.inTask, st.marks)
    decreases n, 0, i
  {
    if i > 0 {
      KidsFlagRaised(attrs, stratified, st, n, i - 1);
      FlagRaised(attrs, stratified, KidsVisited(attrs, stratified, st, n, i - 1), n.kids[i - 1]);
    }
  }

  /**
   * visit(AstNodeProcedure) over a body without tasks/functions: the
   * process is marked dynamic exactly when the flag was already raised or
   * its body raises it; the flag is then cleared.
   */
  lemma ProcMarked(attrs: map<nat, FTaskAttrs>, stratified: bool, st: DState, n: DNode)
    requires n.kind.ProcKind? && KidsNoUnit(n, |n.kids|)
    ensures var r := Visited(attrs, stratified, st, n);
            r.marks == st.marks[n.kind.id := st.dynamic || KidsRaise(attrs, st.inTask, st.marks, n, |n.kids|)] &&
            !r.dynamic && r.inTask == st.inTask
  {
    KidsFlagRaised(attrs, stratified, st, n, |n.kids|);
  }

  /**
   * visit(AstNodeFTask) over a body without nested ones: marked dynamic
   * exactly when the flag was already raised, the task/function is virtual,
   * its statements have mixed regions under the stratified scheduler, or its
   * body raises the flag (a delay counts inside a task only); afterwards the
   * flag is cleared and the visitor is no longer in a task.
   */
  lemma FTaskMarked(attrs: map<nat, FTaskAttrs>, stratified: bool, st: DState, n: DNode)
    requires n.kind.FTaskKind? && KidsNoUnit(n, |n.kids|)
    ensures var r := Visited(attrs, stratified, st, n);
            var inTask := st.inTask || n.kind.isTask;
            r.marks == st.marks[n.kind.id := st.dynamic || Attrs(attrs, n.kind.id).isVirtual ||
                                              (stratified && Mixed(KidsStmtRegions(n, |n.kids|))) ||
                                              KidsRaise(attrs, inTask, st.marks, n, |n.kids|)] &&
            !r.dynamic && !r.inTask
  {
    IsMixedMeaning(n);
    var s0 := DState(st.dynamic || (stratified && IsMixed(n)), st.inTask || n.kind.isTask, st.marks);
    KidsFlagRaised(attrs, stratified, s0, n, |n.kids|);
  }

  class DynamicVisitor {
    var dynamic: bool
    var inTask: bool
    var marks: map<nat, bool>
    const attrs: map<nat, FTaskAttrs>
    const stratified: bool

    function State(): DState
      reads this
    {
      DState(dynamic, inTask, marks)
    }

    /** `marks` holds the dynamic flags the tasks/functions carry on entry. */
    constructor (attrs: map<nat, FTaskAttrs>, stratified: bool, marks: map<nat, bool>)
      ensures State() == DState(false, false, marks) && this.attrs == attrs && this.stratified == stratified
    {
      dynamic := false;
      inTask := false;
      this.marks := marks;
      this.attrs := attrs;
      this.stratified := stratified;
    }

    method MarkAndClear(id: nat)
      modifies this`dynamic, this`marks
      ensures State() == Cleared(old(State()), id)
    {
      marks := marks[id := dynamic];
      dynamic := false;
    }

    method Visit(n: DNode)
      modifies this`dynamic, this`inTask, this`marks
      ensures State() == Visited(attrs, stratified, old(State()), n)
      decreases n, 2
    {
      match n.kind
      case ProcKind(id) =>
        IterateChildren(n);
        MarkAndClear(id);
      case FTaskKind(_, _) =>
        VisitFTask(n);
      case FTaskRefKind(_) =>
        VisitFTaskRef(n);
      case VarRefKind(_) =>
        VisitVarRef(n);
      case DelayKind =>
        if inTask {
          dynamic := true;
        }
        IterateChildren(n);
      case OtherKind =>
        IterateChildren(n);
    }

    method VisitFTask(n: DNode)
      requires n.kind.FTaskKind?
      modifies this`dynamic, this`inTask, this`marks
      ensures State() == Visited(attrs, stratified, old(State()), n)
      decreases n, 1
    {
      var id := n.kind.id;
      if n.kind.isTask {
        inTask := true;
      }
      if stratified {
        var checker := new RegionChecker();
        checker.IterateChildren(n);
        if checker.mixed {
          dynamic := true;
        }
      }
      IterateChildren(n);
      inTask := false;
      if id in attrs && attrs[id].isVirtual {
        dynamic := true;
      }
      MarkAndClear(id);
    }

    method VisitFTaskRef(n: DNode)
      requires n.kind.FTaskRefKind?
      modifies this`dynamic, this`inTask, this`marks
      ensures State() == Visited(attrs, stratified, old(State()), n)
      decreases n, 1
    {
      var callee := n.kind.callee;
      IterateChildren(n);
      dynamic := dynamic || (callee in marks && marks[callee]);
      if callee in attrs && attrs[callee].isVirtual {
        dynamic := true;
      }
      if callee in attrs && attrs[callee].dpiImport {
        dynamic := true;
      }
    }

    method VisitVarRef(n: DNode)
      requires n.kind.VarRefKind?
      modifies this`dynamic, this`inTask, this`marks
      ensures State() == Visited(attrs, stratified, old(State()), n)
      decreases n, 1
    {
      var cls := n.kind.cls;
      if cls.Some? && cls.value.predefined {
        var cname := cls.value.origName;
        if cname == "mailbox" {
          dynamic := true;
        } else if cname == "semaphore" {
          dynamic := true;
        } else if cname == "process" {
          dynamic := true;
        }
      }
      IterateChildren(n);
    }

    method IterateChildren(n: DNode)
      modifies this`dynamic, this`inTask, this`marks
      ensures State() == KidsVisited(attrs, stratified, old(State()), n, |n.kids|)
      decreases n, 0
    {
      var i := 0;
      while i < |n.kids|
        invariant 0 <= i <= |n.kids|
        invariant State() == KidsVisited(attrs, stratified, old(State()), n, i)
      {
        Visit(n.kids[i]);
        i := i + 1;
      }
    }
  }

  /** V3Dynamic::markDynamic: the netlist's children in turn; returns the flags of processes and tasks/functions. */
  method MarkDynamic(netlist: DNode, attrs: map<nat, FTaskAttrs>, stratified: bool, marks: map<nat, bool>)
    returns (marks': map<nat, bool>)
    ensures marks' == KidsVisited(attrs, stratified, DState(false, false, marks), netlist, |netlist.kids|).marks
  {
    var v := new DynamicVisitor(attrs, stratified, marks);
    v.IterateChildren(netlist);
    marks' := v.marks;
  }
}
