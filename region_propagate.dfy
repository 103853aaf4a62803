/**
 * V3RegionPropagate: after scheduling, every C function gets the region of
 * the expressions it holds, and every call site the region of its callee.
 *
 * A node's region is a C `int`; -1 means "none". Inside a function a region
 * other than -1 is masked with `& 4` (two's complement, 32 bits), so it
 * becomes 0 or 4. The running region of the function is the last masked
 * region other than -1; an expression whose masked region differs from a
 * running region other than -1 trips the consistency assertion, which is
 * fatal in the compiler and is recorded here in `failed`.
 */
module RegionPropagate {
  import opened Bits

  /** The node kinds the pass tells apart; functions and call sites carry an identity. */
  datatype RKind = CFuncKind(id: nat) | CCallKind(id: nat, callee: nat) | OtherKind

  /** A netlist node: its kind, its region as set by earlier passes, and its children. */
  datatype RNode = RNode(kind: RKind, region: int, kids: seq<RNode>)

  /** The visitor's fields and the regionIds it writes: per function, per call site. */
  datatype RState = RState(region: int, inFunc: bool, failed: bool, funcRegion: map<nat, int>, callRegion: map<nat, int>)

  /** `region & 4` on a 32-bit two's complement int. */
  function Mask4(r: int): nat {
    BitAnd(r % 4294967296, 4)
  }

  /** The region the visitor works with: -1 stays -1, anything else is masked. */
  function Masked(r: int): int {
    if r == -1 then -1 else Mask4(r)
  }

  /** `x & 4` is 4 exactly when bit 2 of x is set, else 0. */
  lemma BitAndFour(x: nat)
    ensures BitAnd(x, 4) == 4 * ((x / 4) % 2)
  {
    var y := x / 4;
    if x == 0 {
    } else {
      assert BitAnd(x, 4) == 2 * BitAnd(x / 2, 2);
      if x / 2 == 0 {
      } else {
        assert BitAnd(x / 2, 2) == 2 * BitAnd(x / 2 / 2, 1);
        assert x / 2 / 2 == y;
        if y != 0 {
          assert BitAnd(y, 1) == 2 * BitAnd(y / 2, 0) + (if y % 2 == 1 then 1 else 0);
        }
      }
    }
  }

  /** A masked region is -1, 0 or 4, and it is -1 only for -1. */
  lemma MaskedRange(r: int)
    ensures Masked(r) == -1 || Masked(r) == 0 || Masked(r) == 4
    ensures Masked(r) == -1 <==> r == -1
    ensures 0 <= r < 4294967296 ==> Masked(r) == (if r == -1 then -1 else 4 * ((r / 4) % 2))
  {
    if r != -1 {
      BitAndFour(r % 4294967296);
    }
  }

  /** The region a call site copies: its callee's regionId as it stands (-1 for a function never given one). */
  function CalleeRegion(st: RState, callee: nat): int {
    if callee in st.funcRegion then st.funcRegion[callee] else -1
  }

  /** The check and update for one expression node inside a function, given its masked region. */
  function Check(st: RState, r: int): (st': RState)
    ensures st'.inFunc == st.inFunc && st'.funcRegion == st.funcRegion && st'.callRegion == st.callRegion
    ensures st'.region == (if r == -1 then st.region else r)
    ensures st'.failed <==> st.failed || (st.region != -1 && r != -1 && st.region != r)
  {
    var ok := st.region == -1 || st.region == r || r == -1;
    RState(if r == -1 then st.region else r, st.inFunc, st.failed || !ok, st.funcRegion, st.callRegion)
  }

  /** What visiting a node does to the state. */
  function Visited(st: RState, n: RNode): RState
    decreases n, 1
  {
    match n.kind
    case CFuncKind(id) =>
      var s1 := KidsVisited(RState(-1, true, st.failed, st.funcRegion, st.callRegion), n, |n.kids|);
      RState(s1.region, false, s1.failed, s1.funcRegion[id := s1.region], s1.callRegion)
    case CCallKind(id, callee) =>
      RState(st.region, st.inFunc, st.failed, st.funcRegion, st.callRegion[id := CalleeRegion(st, callee)])
    case OtherKind =>
      KidsVisited(if st.inFunc then Check(st, Masked(n.region)) else st, n, |n.kids|)
  }

  /** The first i children of n, in order. */
  function KidsVisited(st: RState, n: RNode, i: nat): RState
    requires i <= |n.kids|
    decreases n, 0, i
  {
    if i == 0 then st else Visited(KidsVisited(st, n, i - 1), n.kids[i - 1])
  }

  // ----- The masked regions a function sees -----

  /** No function definition below this node. */
  predicate NoFunc(n: RNode)
    decreases n, 1
  {
    !n.kind.CFuncKind? && KidsNoFunc(n, |n.kids|)
  }

  predicate KidsNoFunc(n: RNode, i: nat)
    requires i <= |n.kids|
    decreases n, 0, i
  {
    i == 0 || (KidsNoFunc(n, i - 1) && NoFunc(n.kids[i - 1]))
  }

  /** The masked regions checked below a node, in visiting order: call sites and their subtrees are not. */
  function Regions(n: RNode): seq<int>
    decreases n, 1
  {
    match n.kind
    case CCallKind(_, _) => []
    case _ => [Masked(n.region)] + KidsRegions(n, |n.kids|)
  }

  function KidsRegions(n: RNode, i: nat): seq<int>
    requires i <= |n.kids|
    decreases n, 0, i
  {
    if i == 0 then [] else KidsRegions(n, i - 1) + Regions(n.kids[i - 1])
  }

  /** The last region other than -1, or `r0` when there is none. */
  function LastSet(r0: int, rs: seq<int>): int
    decreases |rs|
  {
    if rs == [] then r0
    else if rs[|rs| - 1] == -1 then LastSet(r0, rs[..|rs| - 1])
    else rs[|rs| - 1]
  }

  /** All regions other than -1 among r0 and rs are one and the same. */
  predicate Coincide(r0: int, rs: seq<int>) {
    (forall i, j :: 0 <= i < j < |rs| && rs[i] != -1 && rs[j] != -1 ==> rs[i] == rs[j]) &&
    (r0 != -1 ==> forall i :: 0 <= i < |rs| && rs[i] != -1 ==> rs[i] == r0)
  }

  /** The running region is the last one set, and the assertion trips exactly when two set regions differ. */
  lemma {:induction false} ScanChecks(st: RState, rs: seq<int>)
    ensures ScanAll(st, rs).region == LastSet(st.region, rs)
    ensures ScanAll(st, rs).failed <==> st.failed || !Coincide(st.region, rs)
    decreases |rs|
  {
    if rs != [] {
      var init := rs[..|rs| - 1];
      ScanChecks(st, init);
      CoincideSnoc(st.region, init, rs[|rs| - 1]);
      assert init + [rs[|rs| - 1]] == rs;
    }
  }

  /** One more region keeps agreement exactly when it is -1 or agrees with the last one set. */
  lemma CoincideSnoc(r0: int, init: seq<int>, r: int)
    ensures Coincide(r0, init + [r]) <==>
            Coincide(r0, init) && (r == -1 || LastSet(r0, init) == -1 || LastSet(r0, init) == r)
  {
    var rs := init + [r];
    var l := LastSet(r0, init);
    if Coincide(r0, rs) {
      forall i, j | 0 <= i < j < |init| && init[i] != -1 && init[j] != -1 ensures init[i] == init[j] {
        assert init[i] == rs[i] && init[j] == rs[j];
      }
      forall i | 0 <= i < |init| && init[i] != -1 && r0 != -1 ensures init[i] == r0 {
        assert init[i] == rs[i];
      }
      if r != -1 && l != -1 {
        LastSetIsSome(r0, init);
        if l == r0 {
          assert rs[|init|] == r;
        } else {
          var i :| 0 <= i < |init| && init[i] == l && init[i] != -1;
          assert rs[i] == l && rs[|init|] == r;
        }
      }
    }
    if Coincide(r0, init) && (r == -1 || l == -1 || l == r) {
      LastSetCoincides(r0, init);
      if l != -1 && r0 != -1 {
        LastSetIsSome(r0, init);
      }
      forall i, j | 0 <= i < j < |rs| && rs[i] != -1 && rs[j] != -1 ensures rs[i] == rs[j] {
        if j < |init| {
          assert rs[i] == init[i] && rs[j] == init[j];
        } else {
          assert rs[i] == init[i];
        }
      }
      forall i | 0 <= i < |rs| && rs[i] != -1 && r0 != -1 ensures rs[i] == r0 {
        if i < |init| {
          assert rs[i] == init[i];
        }
      }
    }
  }

  /** The masked regions, one Check each in turn. */
  function ScanAll(st: RState, rs: seq<int>): RState
    decreases |rs|
  {
    if rs == [] then st else Check(ScanAll(st, rs[..|rs| - 1]), rs[|rs| - 1])
  }

  /** ScanAll over a concatenation. */
  lemma {:induction false} ScanAllAppend(st: RState, a: seq<int>, b: seq<int>)
    ensures ScanAll(ScanAll(st, a), b) == ScanAll(st, a + b)
    decreases |b|
  {
    if b == [] {
      assert a + b == a;
    } else {
      assert (a + b)[..|a + b| - 1] == a + b[..|b| - 1];
      ScanAllAppend(st, a, b[..|b| - 1]);
    }
  }

  /** When the regions coincide, the last one set is r0 or a set region, and it agrees with every set one. */
  lemma {:induction false} LastSetCoincides(r0: int, rs: seq<int>)
    requires Coincide(r0, rs)
    ensures LastSet(r0, rs) == -1 ==> r0 == -1 && forall i :: 0 <= i < |rs| ==> rs[i] == -1
    ensures LastSet(r0, rs) != -1 ==> Coincide(LastSet(r0, rs), rs)
    decreases |rs|
  {
    if rs != [] {
      var init := rs[..|rs| - 1];
      assert Coincide(r0, init) by {
        forall i, j | 0 <= i < j < |init| && init[i] != -1 && init[j] != -1 ensures init[i] == init[j] {
          assert init[i] == rs[i] && init[j] == rs[j];
        }
        forall i | 0 <= i < |init| && init[i] != -1 && r0 != -1 ensures init[i] == r0 {
          assert init[i] == rs[i];
        }
      }
      LastSetCoincides(r0, init);
      var l := LastSet(r0, rs);
      if rs[|rs| - 1] == -1 {
        if l != -1 {
          forall i | 0 <= i < |rs| && rs[i] != -1 ensures rs[i] == l {
            assert i < |init| && rs[i] == init[i];
          }
        }
      } else {
        forall i | 0 <= i < |rs| && rs[i] != -1 ensures rs[i] == l {
          if i < |rs| - 1 {
            assert rs[i] == rs[|rs| - 1];
          }
        }
      }
    }
  }

  /** A last set region other than r0 is one of rs. */
  lemma {:induction false} LastSetIsSome(r0: int, rs: seq<int>)
    ensures LastSet(r0, rs) == r0 || exists i :: 0 <= i < |rs| && rs[i] == LastSet(r0, rs) && rs[i] != -1
    decreases |rs|
  {
    if rs != [] && rs[|rs| - 1] == -1 {
      LastSetIsSome(r0, rs[..|rs| - 1]);
      var l := LastSet(r0, rs);
      if l != r0 {
        var i :| 0 <= i < |rs| - 1 && rs[..|rs| - 1][i] == l && rs[..|rs| - 1][i] != -1;
        assert rs[i] == l;
      }
    }
  }

  // ----- What the traversal computes -----

  /** Every region a function sees is -1, 0 or 4. */
  lemma {:induction false} RegionsMasked(n: RNode)
    ensures forall i :: 0 <= i < |Regions(n)| ==> Regions(n)[i] in {-1, 0, 4}
    decreases n, 1
  {
    if !n.kind.CCallKind? {
      MaskedRange(n.region);
      KidsRegionsMasked(n, |n.kids|);
    }
  }

  lemma {:induction false} KidsRegionsMasked(n: RNode, i: nat)
    requires i <= |n.kids|
    ensures forall k :: 0 <= k < |KidsRegions(n, i)| ==> KidsRegions(n, i)[k] in {-1, 0, 4}
    decreases n, 0, i
  {
    if i > 0 {
      KidsRegionsMasked(n, i - 1);
      RegionsMasked(n.kids[i - 1]);
    }
  }

  /** The last region set, from -1, over regions that are -1, 0 or 4, is -1, 0 or 4. */
  lemma {:induction false} LastSetMasked(rs: seq<int>)
    requires forall i :: 0 <= i < |rs| ==> rs[i] in {-1, 0, 4}
    ensures LastSet(-1, rs) in {-1, 0, 4}
    decreases |rs|
  {
    if rs != [] && rs[|rs| - 1] == -1 {
      LastSetMasked(rs[..|rs| - 1]);
    }
  }

  /** Inside a function, visiting a subtree without function definitions checks its regions in order. */
  lemma {:induction false} VisitedScans(st: RState, n: RNode)
    requires st.inFunc && NoFunc(n)
    ensures var r := Visited(st, n); var s := ScanAll(st, Regions(n));
            r.region == s.region && r.failed == s.failed && r.inFunc && r.funcRegion == st.funcRegion
    decreases n, 1
  {
    if !n.kind.CCallKind? {
      var st1 := Check(st, Masked(n.region));
      assert ScanAll(st, [Masked(n.region)]) == st1;
      KidsVisitedScans(st1, n, |n.kids|);
      ScanAllAppend(st, [Masked(n.region)], KidsRegions(n, |n.kids|));
    }
  }

  lemma {:induction false} KidsVisitedScans(st: RState, n: RNode, i: nat)
    requires i <= |n.kids| && st.inFunc && KidsNoFunc(n, i)
    ensures var r := KidsVisited(st, n, i); var s := ScanAll(st, KidsRegions(n, i));
            r.region == s.region && r.failed == s.failed && r.inFunc && r.funcRegion == st.funcRegion
    decreases n, 0, i
  {
    if i > 0 {
      KidsVisitedScans(st, n, i - 1);
      var mid := KidsVisited(st, n, i - 1);
      VisitedScans(mid, n.kids[i - 1]);
      ScanAllAppend(st, KidsRegions(n, i - 1), Regions(n.kids[i - 1]));
      ScanSame(ScanAll(st, KidsRegions(n, i - 1)), mid, Regions(n.kids[i - 1]));
    }
  }

  /** Scanning depends on the running region and the failure flag only. */
  lemma {:induction false} ScanSame(a: RState, b: RState, rs: seq<int>)
    requires a.region == b.region && a.failed == b.failed
    ensures ScanAll(a, rs).region == ScanAll(b, rs).region && ScanAll(a, rs).failed == ScanAll(b, rs).failed
    decreases |rs|
  {
    if rs != [] {
      ScanSame(a, b, rs[..|rs| - 1]);
    }
  }

  /**
   * visit(AstCFunc) over a body without nested functions: the function's
   * regionId is the last masked region set in it, or -1, hence -1, 0 or 4;
   * the assertion trips exactly when two set regions of the body differ.
   */
  lemma FuncRegion(st: RState, n: RNode)
    requires n.kind.CFuncKind? && KidsNoFunc(n, |n.kids|)
    ensures var r := Visited(st, n); var rs := KidsRegions(n, |n.kids|);
            n.kind.id in r.funcRegion && r.funcRegion[n.kind.id] == LastSet(-1, rs) &&
            r.funcRegion[n.kind.id] in {-1, 0, 4} && !r.inFunc &&
            (r.failed <==> st.failed || !Coincide(-1, rs))
  {
    var st0 := RState(-1, true, st.failed, st.funcRegion, st.callRegion);
    var rs := KidsRegions(n, |n.kids|);
    KidsVisitedScans(st0, n, |n.kids|);
    ScanChecks(st0, rs);
    KidsRegionsMasked(n, |n.kids|);
    LastSetMasked(rs);
  }

  /** Outside a function a subtree without function definitions is neither checked nor accumulated. */
  lemma {:induction false} OutsideUnchecked(st: RState, n: RNode)
    requires !st.inFunc && NoFunc(n)
    ensures var r := Visited(st, n);
            r.region == st.region && r.failed == st.failed && !r.inFunc && r.funcRegion == st.funcRegion
    decreases n, 1
  {
    if !n.kind.CCallKind? {
      KidsOutsideUnchecked(st, n, |n.kids|);
    }
  }

  lemma {:induction false} KidsOutsideUnchecked(st: RState, n: RNode, i: nat)
    requires i <= |n.kids| && !st.inFunc && KidsNoFunc(n, i)
    ensures var r := KidsVisited(st, n, i);
            r.region == st.region && r.failed == st.failed && !r.inFunc && r.funcRegion == st.funcRegion
    decreases n, 0, i
  {
    if i > 0 {
      KidsOutsideUnchecked(st, n, i - 1);
      OutsideUnchecked(KidsVisited(st, n, i - 1), n.kids[i - 1]);
    }
  }

  /** A call site takes its callee's regionId as it stands and changes nothing else. */
  lemma CallCopies(st: RState, n: RNode)
    requires n.kind.CCallKind?
    ensures var r := Visited(st, n);
            r.callRegion == st.callRegion[n.kind.id := CalleeRegion(st, n.kind.callee)] &&
            r.region == st.region && r.failed == st.failed && r.inFunc == st.inFunc && r.funcRegion == st.funcRegion
  {
  }

  // ----- The visitor -----

  /** RegionPropagateVisitor: m_region, m_inFunc, the assertion's outcome and the regionIds written. */
  class RegionPropagator {
    var region: int
    var inFunc: bool
    var failed: bool
    var funcRegion: map<nat, int>
    var callRegion: map<nat, int>

    function State(): RState
      reads this
    {
      RState(region, inFunc, failed, funcRegion, callRegion)
    }

    /** `funcRegion` holds the regionIds the functions carry on entry. */
    constructor (funcRegion: map<nat, int>)
      ensures State() == RState(-1, false, false, funcRegion, map[])
    {
      region := -1;
      inFunc := false;
      failed := false;
      this.funcRegion := funcRegion;
      callRegion := map[];
    }

    method Visit(n: RNode)
      modifies this
      ensures State() == Visited(old(State()), n)
      decreases n, 1
    {
      match n.kind
      case CFuncKind(id) =>
        region := -1;
        inFunc := true;
        IterateChildren(n);
        inFunc := false;
        funcRegion := funcRegion[id := region];
      case CCallKind(id, callee) =>
        callRegion := callRegion[id := if callee in funcRegion then funcRegion[callee] else -1];
      case OtherKind =>
        if inFunc {
          var r := n.region;
          if r != -1 {
            r := Mask4(r);
          }
          failed := failed || !(region == -1 || region == r || r == -1);
          region := if r == -1 then region else r;
        }
        IterateChildren(n);
    }

    method IterateChildren(n: RNode)
      modifies this
      ensures State() == KidsVisited(old(State()), n, |n.kids|)
      decreases n, 0
    {
      var i := 0;
      while i < |n.kids|
        invariant 0 <= i <= |n.kids|
        invariant State() == KidsVisited(old(State()), n, i)
      {
        Visit(n.kids[i]);
        i := i + 1;
      }
    }
  }

  /** V3RegionPropagate::propagateRegions: the netlist's children in turn, outside any function at first. */
  method PropagateRegions(netlist: RNode, funcRegion: map<nat, int>)
    returns (funcRegion': map<nat, int>, callRegion: map<nat, int>, failed: bool)
    ensures var r := KidsVisited(RState(-1, false, false, funcRegion, map[]), netlist, |netlist.kids|);
            funcRegion' == r.funcRegion && callRegion == r.callRegion && failed == r.failed
  {
    var v := new RegionPropagator(funcRegion);
    v.IterateChildren(netlist);
    funcRegion', callRegion, failed := v.funcRegion, v.callRegion, v.failed;
  }
}
